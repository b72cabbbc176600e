/** A text and its lines. */
module Lines {
  import opened Passages

  /** What ends a line: every line boundary of Python's `str.splitlines`. */
  predicate EndsLine(c: char) {
    c in {'\n', '\r', '\U{0B}', '\U{0C}', '\U{1C}', '\U{1D}', '\U{1E}', '\U{85}', '\U{2028}', '\U{2029}'}
  }

  ghost predicate LineEndsAreBlank(blank: Blank) {
    forall c :: EndsLine(c) ==> blank(c)
  }

  /** A line still to be ended, and those before it. */
  datatype Cutting = Cutting(ended: seq<string>, open: string)

  /** One character more. A newline right after a carriage return ends no other line. */
  function NextCut(front: string, before: Cutting, c: char): Cutting {
    if !EndsLine(c) then Cutting(before.ended, before.open + [c])
    else if c == '\n' && front != [] && front[|front| - 1] == '\r' then before
    else Cutting(before.ended + [before.open], [])
  }

  function CutAfter(text: string): Cutting {
    if text == [] then Cutting([], [])
    else var front := text[..|text| - 1]; NextCut(front, CutAfter(front), text[|text| - 1])
  }

  /** `text.splitlines()`. */
  function LinesOf(text: string): seq<string> {
    var cut := CutAfter(text);
    cut.ended + if cut.open == [] then [] else [cut.open]
  }

  lemma CutNext(front: string, c: char)
    ensures CutAfter(front + [c]) == NextCut(front, CutAfter(front), c)
  {
    assert (front + [c])[..|front|] == front;
  }

  function InkOfCut(blank: Blank, cut: Cutting): string {
    InkAll(blank, cut.ended) + Ink(blank, cut.open)
  }

  lemma NextKeepsInk(blank: Blank, front: string, before: Cutting, c: char)
    requires LineEndsAreBlank(blank)
    ensures InkOfCut(blank, NextCut(front, before, c)) == InkOfCut(blank, before) + Ink(blank, [c])
  {
    hide EndsLine;
    InkConcat(blank, before.open, [c]);
    assert [c][..0] == [] && (before.ended + [before.open])[..|before.ended|] == before.ended;
    assert EndsLine(c) ==> blank(c);
  }

  lemma {:induction false} CutKeepsInk(blank: Blank, text: string)
    requires LineEndsAreBlank(blank)
    ensures InkOfCut(blank, CutAfter(text)) == Ink(blank, text)
  {
    if text == [] {
    } else {
      hide InkOfCut, Ink, NextCut;
      var front, c := text[..|text| - 1], text[|text| - 1];
      CutKeepsInk(blank, front);
      NextKeepsInk(blank, front, CutAfter(front), c);
      InkConcat(blank, front, [c]);
      assert front + [c] == text;
    }
  }

  /** Cutting a text into lines takes only white space. */
  lemma LinesKeepInk(blank: Blank, text: string)
    requires LineEndsAreBlank(blank)
    ensures InkAll(blank, LinesOf(text)) == Ink(blank, text)
  {
    hide Ink;
    var cut := CutAfter(text);
    CutKeepsInk(blank, text);
    if cut.open == [] {
      assert LinesOf(text) == cut.ended && Ink(blank, []) == [] by { NoInk(blank); }
    } else {
      assert LinesOf(text)[..|cut.ended|] == cut.ended;
    }
  }

  lemma NoInk(blank: Blank)
    ensures Ink(blank, []) == []
  {
  }

  predicate IsLine(line: string) {
    forall i :: 0 <= i < |line| ==> !EndsLine(line[i])
  }

  /** These lines as a text, each with this after it. */
  function TextOf(lines: seq<string>, end: string): string {
    if lines == [] then [] else TextOf(lines[..|lines| - 1], end) + lines[|lines| - 1] + end
  }

  lemma {:induction false} OpenGrows(text: string, line: string)
    requires IsLine(line)
    ensures CutAfter(text + line) == Cutting(CutAfter(text).ended, CutAfter(text).open + line)
  {
    hide EndsLine, CutAfter;
    if line == [] {
      assert text + line == text && CutAfter(text).open + line == CutAfter(text).open;
    } else {
      var front, c := line[..|line| - 1], line[|line| - 1];
      OpenGrows(text, front);
      CutNext(text + front, c);
      assert text + line == text + front + [c];
      assert CutAfter(text).open + line == CutAfter(text).open + front + [c];
    }
  }

  lemma NewlineEnds()
    ensures EndsLine('\n') && EndsLine('\r')
  {
  }

  lemma OneMoreLine(text: string, lines: seq<string>, line: string, end: string)
    requires CutAfter(text) == Cutting(lines, []) && (text == [] || EndsInNewline(text)) && IsLine(line)
    requires end == "\n" || end == "\r\n"
    ensures CutAfter(text + line + end) == Cutting(lines + [line], []) && EndsInNewline(text + line + end)
  {
    hide EndsLine, CutAfter, IsLine;
    OpenGrows(text, line);
    NoReturn(text, line);
    NewlineEnds();
    assert [] + line == line;
    if end == "\n" {
      CutNext(text + line, '\n');
    } else {
      CutNext(text + line, '\r');
      CutNext(text + line + "\r", '\n');
      assert text + line + "\r" + "\n" == text + line + end;
    }
  }

  lemma {:induction false} LinesAreCut(lines: seq<string>, end: string)
    requires (forall line :: line in lines ==> IsLine(line)) && (end == "\n" || end == "\r\n")
    ensures CutAfter(TextOf(lines, end)) == Cutting(lines, [])
    ensures TextOf(lines, end) == [] || EndsInNewline(TextOf(lines, end))
  {
    hide EndsLine, CutAfter, IsLine;
    if lines == [] {
      NothingCut();
    } else {
      var front, line := lines[..|lines| - 1], lines[|lines| - 1];
      LinesAreCut(front, end);
      OneMoreLine(TextOf(front, end), front, line, end);
      assert front + [line] == lines;
    }
  }

  lemma NothingCut()
    ensures CutAfter([]) == Cutting([], [])
  {
  }

  predicate EndsInNewline(text: string) {
    text != [] && text[|text| - 1] == '\n'
  }

  lemma NoReturn(text: string, line: string)
    requires IsLine(line) && (text == [] || EndsInNewline(text))
    ensures text + line != [] ==> (text + line)[|text + line| - 1] != '\r'
  {
    hide EndsLine;
    NewlineEnds();
  }

  /** Lines written one after the other are read back, whether they end as on Unix or as on Windows. */
  lemma LinesRoundTrip(lines: seq<string>, end: string)
    requires (forall line :: line in lines ==> IsLine(line)) && (end == "\n" || end == "\r\n")
    ensures LinesOf(TextOf(lines, end)) == lines
  {
    LinesAreCut(lines, end);
  }

  lemma {:induction false} CutsAreLines(text: string)
    ensures IsLine(CutAfter(text).open) && forall line :: line in CutAfter(text).ended ==> IsLine(line)
  {
    hide EndsLine;
    if text == [] {
    } else {
      CutsAreLines(text[..|text| - 1]);
    }
  }

  /** No line has the end of a line in it. */
  lemma LinesAreLines(text: string)
    ensures forall line :: line in LinesOf(text) ==> IsLine(line)
  {
    CutsAreLines(text);
  }
}
