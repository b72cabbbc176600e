/** Passages of limited size: cutting what is too long, and packing units into overlapping windows. */
module Passages {
  // ---------------------------------------------------------------- spaces

  type Blank = char -> bool

  /** What is left of a text without its blanks. */
  function Ink(blank: Blank, s: string): string {
    if s == [] then []
    else Ink(blank, s[..|s| - 1]) + if blank(s[|s| - 1]) then [] else [s[|s| - 1]]
  }

  lemma {:induction false} InkConcat(blank: Blank, a: string, b: string)
    ensures Ink(blank, a + b) == Ink(blank, a) + Ink(blank, b)
  {
    if b == [] {
      assert a + b == a;
    } else {
      assert (a + b)[..|a + b| - 1] == a + b[..|b| - 1];
      InkConcat(blank, a, b[..|b| - 1]);
    }
  }

  /** Where the blanks that start at `from` end. */
  function AfterBlanks(blank: Blank, s: string, from: nat): (i: nat)
    requires from <= |s|
    ensures from <= i <= |s| && forall k :: from <= k < i ==> blank(s[k])
    ensures i < |s| ==> !blank(s[i])
    decreases |s| - from
  {
    if from < |s| && blank(s[from]) then AfterBlanks(blank, s, from + 1) else from
  }

  /** Where the blanks that end at `to` start. */
  function BeforeBlanks(blank: Blank, s: string, to: nat): (i: nat)
    requires to <= |s|
    ensures i <= to && forall k :: i <= k < to ==> blank(s[k])
    ensures i > 0 ==> !blank(s[i - 1])
  {
    if to > 0 && blank(s[to - 1]) then BeforeBlanks(blank, s, to - 1) else to
  }

  function StripLeft(blank: Blank, s: string): string {
    s[AfterBlanks(blank, s, 0)..]
  }

  function StripRight(blank: Blank, s: string): string {
    s[..BeforeBlanks(blank, s, |s|)]
  }

  function Strip(blank: Blank, s: string): string {
    StripLeft(blank, StripRight(blank, s))
  }

  lemma {:induction false} AllBlank(blank: Blank, s: string)
    requires forall i :: 0 <= i < |s| ==> blank(s[i])
    ensures Ink(blank, s) == []
  {
    if s != [] {
      AllBlank(blank, s[..|s| - 1]);
    }
  }

  lemma InkSplit(blank: Blank, s: string, i: nat)
    requires i <= |s|
    ensures Ink(blank, s) == Ink(blank, s[..i]) + Ink(blank, s[i..])
  {
    hide *;
    var a, b := s[..i], s[i..];
    assert a + b == s;
    InkConcat(blank, a, b);
  }

  lemma LeftKeepsInk(blank: Blank, s: string)
    ensures Ink(blank, StripLeft(blank, s)) == Ink(blank, s)
  {
    var i := AfterBlanks(blank, s, 0);
    InkSplit(blank, s, i);
    AllBlank(blank, s[..i]);
  }

  lemma RightKeepsInk(blank: Blank, s: string)
    ensures Ink(blank, StripRight(blank, s)) == Ink(blank, s)
  {
    var i := BeforeBlanks(blank, s, |s|);
    InkSplit(blank, s, i);
    AllBlank(blank, s[i..]);
  }

  lemma FirstInk(blank: Blank, s: string)
    requires s != [] && !blank(s[0])
    ensures Ink(blank, s) != []
  {
    InkSplit(blank, s, 1);
    assert s[..1] == [s[0]] && s[..1][..0] == [];
  }

  /** Stripping takes nothing but blanks. */
  lemma StripKeepsInk(blank: Blank, s: string)
    ensures Ink(blank, Strip(blank, s)) == Ink(blank, s)
    ensures Strip(blank, s) == [] <==> Ink(blank, s) == []
  {
    RightKeepsInk(blank, s);
    LeftKeepsInk(blank, StripRight(blank, s));
    var r := Strip(blank, s);
    if r != [] {
      FirstInk(blank, r);
    }
  }

  // ---------------------------------------------------------------- cutting what is too long

  predicate IsSpace(c: char) {
    c == ' '
  }

  /** The text is the parts, one after the other, with nothing but spaces after each. */
  ghost predicate OnlySpacesLost(text: string, parts: seq<string>)
    decreases |parts|
  {
    if parts == [] then text == []
    else
      var first := parts[0];
      && first != [] && first <= text
      && OnlySpacesLost(StripLeft(IsSpace, text[|first|..]), parts[1..])
  }

  /** Cut only where what is left is too long: at the last space that will do, or in a word if there is none. */
  ghost predicate CutAtSpaces(text: string, parts: seq<string>, most: nat)
    decreases |parts|
  {
    if parts == [] then text == []
    else
      var n := |parts[0]|;
      && 0 < n <= |text| && parts[0] == text[..n]
      && (if |text| <= most then n == |text|
          else n <= most && (text[n] == ' ' || (n == most && forall i :: 1 <= i < most ==> text[i] != ' '))
               && forall i :: n < i <= most ==> text[i] != ' ')
      && CutAtSpaces(StripLeft(IsSpace, text[n..]), parts[1..], most)
  }

  /** `rfind(" ", 1, most + 1)`: the last space from position 1 to `most`, or -1. */
  method FindSpace(text: string, most: nat) returns (cut: int)
    requires |text| > most
    ensures cut == -1 || (1 <= cut <= most && text[cut] == ' ')
    ensures forall i :: 1 <= i <= most && i > cut ==> text[i] != ' '
  {
    cut := most;
    while cut >= 1
      invariant 0 <= cut <= most
      invariant forall i :: 1 <= i <= most && i > cut ==> text[i] != ' '
    {
      if text[cut] == ' ' {
        return;
      }
      cut := cut - 1;
    }
    return -1;
  }

  /** Where a text that is too long is cut: at the last space that leaves a part of at most `most`, or right there. */
  function CutAt(text: string, most: nat): (cut: nat)
    requires 0 < most < |text|
    ensures 0 < cut <= most
    ensures text[cut] == ' ' || cut == most
    ensures forall i :: cut < i <= most ==> text[i] != ' '
    ensures cut == most && text[most] != ' ' ==> forall i :: 1 <= i <= most ==> text[i] != ' '
  {
    var space := LastSpace(text, most);
    if space == 0 then most else space
  }

  /** The last space from position 1 to `most`; 0 if there is none. */
  function LastSpace(text: string, most: nat): (at: nat)
    requires most < |text|
    ensures at <= most && (at > 0 ==> text[at] == ' ')
    ensures forall i :: 1 <= i <= most && i > at ==> text[i] != ' '
  {
    if most == 0 then 0 else if text[most] == ' ' then most else LastSpace(text, most - 1)
  }

  /** The parts of a text, one cut after the other. */
  function HardParts(text: string, maxChars: nat): seq<string>
    requires maxChars > 0
    decreases |text|
  {
    if text == [] then []
    else if |text| <= maxChars then [text]
    else
      var cut := CutAt(text, maxChars);
      [text[..cut]] + HardParts(StripLeft(IsSpace, text[cut..]), maxChars)
  }

  /**
    `_hard_split`: parts of at most `maxChars`, none of them empty, cut at spaces where there
    are any; only spaces are lost.
    */
  method HardSplit(text: string, maxChars: nat) returns (parts: seq<string>)
    requires maxChars > 0
    ensures parts == HardParts(text, maxChars)
    ensures forall part :: part in parts ==> 0 < |part| <= maxChars
    ensures OnlySpacesLost(text, parts) && CutAtSpaces(text, parts, maxChars)
  {
    parts := [];
    var rest := text;
    hide HardParts, StripLeft;
    while |rest| > maxChars
      invariant HardParts(text, maxChars) == parts + HardParts(rest, maxChars)
      decreases |rest|
    {
      var cut := FindCut(rest, maxChars);
      OneMoreCut(parts, rest, maxChars);
      parts := parts + [rest[..cut]];
      rest := StripLeft(IsSpace, rest[cut..]);
    }
    LastCut(rest, maxChars);
    if rest != [] {
      parts := parts + [rest];
    }
    HardPartsFit(text, maxChars);
    HardPartsAreCutAtSpaces(text, maxChars);
  }

  lemma OneMoreCut(parts: seq<string>, rest: string, maxChars: nat)
    requires 0 < maxChars < |rest|
    ensures var cut := CutAt(rest, maxChars);
            && parts + HardParts(rest, maxChars) ==
                 parts + [rest[..cut]] + HardParts(StripLeft(IsSpace, rest[cut..]), maxChars)
            && |StripLeft(IsSpace, rest[cut..])| < |rest|
  {
  }

  lemma LastCut(rest: string, maxChars: nat)
    requires 0 < maxChars && |rest| <= maxChars
    ensures HardParts(rest, maxChars) == if rest == [] then [] else [rest]
  {
  }

  lemma {:induction false} HardPartsAreCutAtSpaces(text: string, maxChars: nat)
    requires maxChars > 0
    ensures CutAtSpaces(text, HardParts(text, maxChars), maxChars)
    decreases |text|
  {
    hide StripLeft;
    if |text| <= maxChars {
      LastCut(text, maxChars);
      NothingLeft();
    } else {
      OneMoreCut([], text, maxChars);
      var rest := StripLeft(IsSpace, text[CutAt(text, maxChars)..]);
      HardPartsAreCutAtSpaces(rest, maxChars);
      assert HardParts(text, maxChars)[1..] == HardParts(rest, maxChars);
    }
  }

  lemma NothingLeft()
    ensures forall text: string :: StripLeft(IsSpace, text[|text|..]) == []
  {
  }

  /** What comes after a cut does not begin with the spaces there. */
  lemma {:induction false} PartsBeginClean(text: string, maxChars: nat, i: nat)
    requires maxChars > 0 && 0 < i < |HardParts(text, maxChars)|
    ensures HardParts(text, maxChars)[i] != [] && HardParts(text, maxChars)[i][0] != ' '
    decreases |text|
  {
    if |text| <= maxChars {
      LastCut(text, maxChars);
    } else {
      OneMoreCut([], text, maxChars);
      var end := text[CutAt(text, maxChars)..];
      var rest := StripLeft(IsSpace, end);
      NoSpaceFirst(end);
      hide HardParts, StripLeft, CutAt;
      assert [] + HardParts(text, maxChars) == HardParts(text, maxChars);
      assert HardParts(text, maxChars)[i] == HardParts(rest, maxChars)[i - 1];
      if i == 1 {
        FirstPartBegins(rest, maxChars);
      } else {
        PartsBeginClean(rest, maxChars, i - 1);
      }
    }
  }

  lemma FirstPartBegins(text: string, maxChars: nat)
    requires maxChars > 0 && HardParts(text, maxChars) != []
    ensures text != [] && HardParts(text, maxChars)[0] != [] && HardParts(text, maxChars)[0][0] == text[0]
  {
  }

  lemma NoSpaceFirst(s: string)
    ensures StripLeft(IsSpace, s) == [] || StripLeft(IsSpace, s)[0] != ' '
  {
  }

  /** `rfind`, and the whole width if it finds nothing. */
  method FindCut(text: string, most: nat) returns (cut: nat)
    requires 0 < most < |text|
    ensures cut == CutAt(text, most)
  {
    var space := FindSpace(text, most);
    if space <= 0 {
      return most;
    }
    return space;
  }

  /** No part is empty or too long, and only spaces are lost. */
  lemma {:induction false} HardPartsFit(text: string, maxChars: nat)
    requires maxChars > 0
    ensures forall part :: part in HardParts(text, maxChars) ==> 0 < |part| <= maxChars
    ensures OnlySpacesLost(text, HardParts(text, maxChars))
    decreases |text|
  {
    if |text| > maxChars {
      var cut := CutAt(text, maxChars);
      var rest := StripLeft(IsSpace, text[cut..]);
      HardPartsFit(rest, maxChars);
      OneMoreCut([], text, maxChars);
      hide HardParts, CutAt, StripLeft;
      assert [] + HardParts(text, maxChars) == HardParts(text, maxChars);
      assert [] + [text[..cut]] == [text[..cut]];
      FirstPartFits(text, cut, HardParts(rest, maxChars), maxChars);
    } else {
      LastCut(text, maxChars);
      hide HardParts, CutAt;
      if text != [] {
        LastPartFits(text);
      }
    }
  }

  lemma FirstPartFits(text: string, cut: nat, parts: seq<string>, maxChars: nat)
    requires 0 < cut <= maxChars && cut <= |text|
    requires forall part :: part in parts ==> 0 < |part| <= maxChars
    requires OnlySpacesLost(StripLeft(IsSpace, text[cut..]), parts)
    ensures forall part :: part in [text[..cut]] + parts ==> 0 < |part| <= maxChars
    ensures OnlySpacesLost(text, [text[..cut]] + parts)
  {
    hide StripLeft;
    var all := [text[..cut]] + parts;
    assert all[0] == text[..cut] && all[1..] == parts;
    assert text[|all[0]|..] == text[cut..];
  }

  lemma LastPartFits(text: string)
    requires text != []
    ensures OnlySpacesLost(text, [text])
  {
    assert [text][1..] == [] && StripLeft(IsSpace, text[|text|..]) == [];
  }

  /** So a hard split keeps all the ink. */
  lemma {:induction false} SplitKeepsInk(blank: Blank, text: string, parts: seq<string>)
    requires OnlySpacesLost(text, parts) && blank(' ')
    ensures InkAll(blank, parts) == Ink(blank, text)
    decreases |parts|
  {
    if parts != [] {
      var first := parts[0];
      var after := text[|first|..];
      InkSplit(blank, text, |first|);
      assert text[..|first|] == first;
      SpacesHaveNoInk(blank, after);
      SplitKeepsInk(blank, StripLeft(IsSpace, after), parts[1..]);
      InkOfFirst(blank, parts);
    }
  }

  lemma SpacesHaveNoInk(blank: Blank, s: string)
    requires blank(' ')
    ensures Ink(blank, StripLeft(IsSpace, s)) == Ink(blank, s)
  {
    var i := AfterBlanks(IsSpace, s, 0);
    InkSplit(blank, s, i);
    AllBlank(blank, s[..i]);
  }

  lemma InkOfFirst(blank: Blank, texts: seq<string>)
    requires texts != []
    ensures InkAll(blank, texts) == Ink(blank, texts[0]) + InkAll(blank, texts[1..])
  {
    assert texts == [texts[0]] + texts[1..];
    InkAllConcat(blank, [texts[0]], texts[1..]);
    assert [texts[0]][..0] == [];
  }

  function InkAll(blank: Blank, texts: seq<string>): string {
    if texts == [] then [] else InkAll(blank, texts[..|texts| - 1]) + Ink(blank, texts[|texts| - 1])
  }

  lemma {:induction false} InkAllConcat(blank: Blank, a: seq<string>, b: seq<string>)
    ensures InkAll(blank, a + b) == InkAll(blank, a) + InkAll(blank, b)
  {
    if b == [] {
      assert a + b == a;
    } else {
      assert (a + b)[..|a + b| - 1] == a + b[..|b| - 1];
      InkAllConcat(blank, a, b[..|b| - 1]);
    }
  }

  // ---------------------------------------------------------------- packing

  /** A piece of text with what attaches it to the one before. */
  datatype Piece = Piece(sep: string, text: string)

  /** How long some pieces are together, the first one's separator not counted. */
  function Size(pieces: seq<Piece>): nat {
    if pieces == [] then 0
    else if |pieces| == 1 then |pieces[0].text|
    else Size(pieces[..|pieces| - 1]) + |pieces[|pieces| - 1].sep| + |pieces[|pieces| - 1].text|
  }

  /** How long the pieces from `low` up to, but not including, `high` are together. */
  function Span(pieces: seq<Piece>, low: nat, high: nat): nat
    requires low <= high <= |pieces|
  {
    Size(pieces[low..high])
  }

  /** A window of the pieces: from number `low` up to, but not including, number `high`. */
  datatype Window = Window(low: nat, high: nat)

  predicate Within(w: Window, count: nat) {
    w.low < w.high <= count
  }

  function In(pieces: seq<Piece>, w: Window): seq<Piece>
    requires Within(w, |pieces|)
  {
    pieces[w.low..w.high]
  }

  /** A tail from `low` would be more than the overlap, or leave no room for the piece after it. */
  predicate TooLong(pieces: seq<Piece>, maxChars: nat, overlap: nat, low: nat, high: nat)
    requires low <= high < |pieces|
  {
    Span(pieces, low, high) > overlap || Span(pieces, low, high + 1) > maxChars
  }

  /** The window that follows: it shares the longest tail of at most `overlap` that leaves room for the next piece. */
  ghost predicate Follows(pieces: seq<Piece>, maxChars: nat, overlap: nat, w: Window, next: Window)
    requires Within(w, |pieces|) && Within(next, |pieces|)
  {
    && w.low < next.low <= w.high < next.high
    && Span(pieces, next.low, w.high) <= overlap
    && Span(pieces, w.low, w.high + 1) > maxChars
    && forall low: nat :: w.low <= low < next.low ==> TooLong(pieces, maxChars, overlap, low, w.high)
  }

  /** The windows that pack the pieces below `upto`. */
  ghost predicate Packs(pieces: seq<Piece>, maxChars: nat, overlap: nat, windows: seq<Window>, upto: nat) {
    && (windows == [] <==> upto == 0)
    && (forall i :: 0 <= i < |windows| ==> Within(windows[i], |pieces|) && Size(In(pieces, windows[i])) <= maxChars)
    && (windows != [] ==> windows[0].low == 0 && windows[|windows| - 1].high == upto)
    && forall i :: 0 <= i < |windows| - 1 ==> Follows(pieces, maxChars, overlap, windows[i], windows[i + 1])
  }

  lemma {:induction false} MoreOnTheLeft(p: Piece, pieces: seq<Piece>)
    ensures Size([p] + pieces) >= Size(pieces)
  {
    if |pieces| > 1 {
      var front := pieces[..|pieces| - 1];
      assert ([p] + pieces)[..|pieces|] == [p] + front;
      MoreOnTheLeft(p, front);
    } else if |pieces| == 1 {
      assert ([p] + pieces)[..1] == [p];
    }
  }

  lemma {:induction false} LongerToTheLeft(pieces: seq<Piece>, low: nat, mid: nat, high: nat)
    requires low <= mid <= high <= |pieces|
    ensures Span(pieces, low, high) >= Span(pieces, mid, high)
    decreases mid - low
  {
    if low < mid {
      assert pieces[low..high] == [pieces[low]] + pieces[low + 1..high];
      MoreOnTheLeft(pieces[low], pieces[low + 1..high]);
      LongerToTheLeft(pieces, low + 1, mid, high);
    }
  }

  /** `_join`, before newlines are stripped. */
  function Concat(pieces: seq<Piece>): (text: string)
    ensures |text| == Size(pieces)
  {
    if pieces == [] then []
    else if |pieces| == 1 then pieces[0].text
    else Concat(pieces[..|pieces| - 1]) + pieces[|pieces| - 1].sep + pieces[|pieces| - 1].text
  }

  predicate IsNewline(c: char) {
    c == '\n'
  }

  /** `_join`. */
  function Join(pieces: seq<Piece>): (text: string)
    ensures |text| <= Size(pieces)
  {
    Strip(IsNewline, Concat(pieces))
  }

  lemma LastAlone(pieces: seq<Piece>, high: nat)
    requires high < |pieces|
    ensures Span(pieces, high, high + 1) == |pieces[high].text|
  {
    assert pieces[high..high + 1] == [pieces[high]];
  }

  /**
    The tail a new passage starts with, given the last passage `w`: as many pieces as fit in
    the overlap, counted from the right, then without those the next piece has no room for.
    A tail is represented by where it starts.
    */
  method TailStart(pieces: seq<Piece>, maxChars: nat, overlap: nat, w: Window) returns (start: nat)
    requires Within(w, |pieces|) && w.high < |pieces| && |pieces[w.high].text| <= maxChars
    requires Span(pieces, w.low, w.high + 1) > maxChars
    ensures w.low < start <= w.high
    ensures Span(pieces, start, w.high) <= overlap && Span(pieces, start, w.high + 1) <= maxChars
    ensures forall low: nat :: w.low <= low < start ==> TooLong(pieces, maxChars, overlap, low, w.high)
  {
    hide Size, Span;
    start := w.high;
    NothingLong(pieces, w.high);
    while start > w.low && Span(pieces, start - 1, w.high) <= overlap
      invariant w.low <= start <= w.high && Span(pieces, start, w.high) <= overlap
    {
      start := start - 1;
    }
    forall low: nat | w.low <= low < start
      ensures TooLong(pieces, maxChars, overlap, low, w.high)
    {
      LongerToTheLeft(pieces, low, start - 1, w.high);
    }
    while start < w.high && Span(pieces, start, w.high + 1) > maxChars
      invariant w.low <= start <= w.high && Span(pieces, start, w.high) <= overlap
      invariant forall low: nat :: w.low <= low < start ==> TooLong(pieces, maxChars, overlap, low, w.high)
    {
      LongerToTheLeft(pieces, start, start + 1, w.high);
      start := start + 1;
    }
    LastAlone(pieces, w.high);
  }

  lemma NothingLong(pieces: seq<Piece>, high: nat)
    requires high <= |pieces|
    ensures Span(pieces, high, high) == 0
  {
  }

  /** The passages the windows stand for. */
  ghost predicate AreJoined(pieces: seq<Piece>, windows: seq<Window>, passages: seq<string>) {
    && |passages| == |windows|
    && forall i :: 0 <= i < |windows| ==> Within(windows[i], |pieces|) && passages[i] == Join(In(pieces, windows[i]))
  }

  /**
    `_pack`: passages of at most `maxChars`, each the join of a window of the pieces; the
    windows cover all pieces in order, each begins inside the one before it or right after it,
    and ends beyond it.
    */
  method Pack(pieces: seq<Piece>, maxChars: nat, overlap: nat)
      returns (passages: seq<string>, ghost windows: seq<Window>)
    requires forall p :: p in pieces ==> |p.text| <= maxChars
    ensures Packs(pieces, maxChars, overlap, windows, |pieces|) && AreJoined(pieces, windows, passages)
    ensures forall passage :: passage in passages ==> |passage| <= maxChars
  {
    hide Size, TooLong, Follows, Packs, Join;
    passages, windows := [], [];
    var passage := Window(0, 0);        // the pieces taken in since the last yield, with the tail before them
    ghost var closed: seq<Window> := [];
    for i := 0 to |pieces|
      invariant passage.high == i && (i == 0 ==> passage.low == 0 && closed == [])
      invariant i > 0 ==> Within(passage, |pieces|) && Packs(pieces, maxChars, overlap, closed + [passage], i)
      invariant AreJoined(pieces, closed, passages)
    {
      assert pieces[i] in pieces;
      if passage.low < passage.high && Span(pieces, passage.low, i + 1) > maxChars {
        passages := passages + [Join(In(pieces, passage))];
        var start := TailStart(pieces, maxChars, overlap, passage);
        NextWindow(pieces, maxChars, overlap, closed, passage, start);
        closed := closed + [passage];
        passage := Window(start, i + 1);
      } else {
        WidenWindow(pieces, maxChars, overlap, closed, passage);
        passage := Window(passage.low, i + 1);
      }
    }
    if passage.low < passage.high {
      passages := passages + [Join(In(pieces, passage))];
      windows := closed + [passage];
    }
    if pieces == [] {
      NoWindows(maxChars, overlap);
    }
    NoneTooLong(pieces, maxChars, overlap, windows, passages);
  }

  lemma NoWindows(maxChars: nat, overlap: nat)
    ensures Packs([], maxChars, overlap, [], 0)
  {
  }

  lemma NextWindow(pieces: seq<Piece>, maxChars: nat, overlap: nat, closed: seq<Window>, w: Window, start: nat)
    requires Within(w, |pieces|) && w.high < |pieces| && Packs(pieces, maxChars, overlap, closed + [w], w.high)
    requires w.low < start <= w.high && Span(pieces, w.low, w.high + 1) > maxChars
    requires Span(pieces, start, w.high) <= overlap && Span(pieces, start, w.high + 1) <= maxChars
    requires forall low: nat :: w.low <= low < start ==> TooLong(pieces, maxChars, overlap, low, w.high)
    ensures Packs(pieces, maxChars, overlap, closed + [w] + [Window(start, w.high + 1)], w.high + 1)
  {
    hide Size, TooLong;
    var windows, next := closed + [w], Window(start, w.high + 1);
    assert Follows(pieces, maxChars, overlap, w, next);
    assert windows[|windows| - 1] == w;
    PackedOneMore(pieces, maxChars, overlap, windows, next);
  }

  /** The last window may grow by one piece, if it stays within the limit. */
  lemma WidenWindow(pieces: seq<Piece>, maxChars: nat, overlap: nat, closed: seq<Window>, w: Window)
    requires w.high < |pieces| && w.low <= w.high && |pieces[w.high].text| <= maxChars
    requires w.high == 0 ==> closed == []
    requires w.high > 0 ==> Within(w, |pieces|) && Packs(pieces, maxChars, overlap, closed + [w], w.high)
    requires w.low == w.high || Span(pieces, w.low, w.high + 1) <= maxChars
    ensures Packs(pieces, maxChars, overlap, closed + [Window(w.low, w.high + 1)], w.high + 1)
  {
    var wider := Window(w.low, w.high + 1);
    if w.low == w.high {
      LastAlone(pieces, w.high);
    }
    assert Size(In(pieces, wider)) <= maxChars by { hide Size; }
    if closed == [] {
      assert [] + [wider] == [wider];
      OneWindow(pieces, maxChars, overlap, w, wider);
    } else {
      hide Size, TooLong;
      var last := closed[|closed| - 1];
      PackedBefore(pieces, maxChars, overlap, closed, w);
      PackedOneMore(pieces, maxChars, overlap, closed, wider);
    }
  }

  lemma OneWindow(pieces: seq<Piece>, maxChars: nat, overlap: nat, w: Window, wider: Window)
    requires w.high < |pieces| && wider == Window(w.low, w.high + 1) && w.low <= w.high
    requires Size(In(pieces, wider)) <= maxChars
    requires w.high == 0 || Packs(pieces, maxChars, overlap, [] + [w], w.high)
    ensures Packs(pieces, maxChars, overlap, [wider], wider.high)
  {
    hide Size, Follows;
    assert [] + [w] == [w];
  }

  /** Without its last window, which follows the one before. */
  lemma PackedBefore(pieces: seq<Piece>, maxChars: nat, overlap: nat, closed: seq<Window>, w: Window)
    requires closed != [] && Within(w, |pieces|) && Packs(pieces, maxChars, overlap, closed + [w], w.high)
    ensures var last := closed[|closed| - 1];
            && Within(last, |pieces|) && Packs(pieces, maxChars, overlap, closed, last.high)
            && Follows(pieces, maxChars, overlap, last, w)
  {
    hide Size, Follows;
    var windows := closed + [w];
    assert forall i :: 0 <= i < |closed| ==> windows[i] == closed[i];
    assert windows[|closed|] == w && windows[|closed| - 1] == closed[|closed| - 1];
  }

  /** With one more window, which follows the last. */
  lemma PackedOneMore(pieces: seq<Piece>, maxChars: nat, overlap: nat, closed: seq<Window>, next: Window)
    requires closed != [] && Within(next, |pieces|) && Size(In(pieces, next)) <= maxChars
    requires var last := closed[|closed| - 1];
             && Within(last, |pieces|) && Packs(pieces, maxChars, overlap, closed, last.high)
             && Follows(pieces, maxChars, overlap, last, next)
    ensures Packs(pieces, maxChars, overlap, closed + [next], next.high)
  {
    hide Size;
    var windows := closed + [next];
    assert next.high > 0;
    hide Follows;
    forall i | 0 <= i < |windows|
      ensures Within(windows[i], |pieces|) && Size(In(pieces, windows[i])) <= maxChars
    {
      assert i < |closed| ==> windows[i] == closed[i];
    }
    forall i | 0 <= i < |windows| - 1
      ensures Follows(pieces, maxChars, overlap, windows[i], windows[i + 1])
    {
      assert windows[i] == closed[i];
      assert i + 1 < |closed| ==> windows[i + 1] == closed[i + 1];
    }
  }

  lemma NoneTooLong(pieces: seq<Piece>, maxChars: nat, overlap: nat, windows: seq<Window>, passages: seq<string>)
    requires Packs(pieces, maxChars, overlap, windows, |pieces|) && AreJoined(pieces, windows, passages)
    ensures forall passage :: passage in passages ==> |passage| <= maxChars
  {
    hide Size, Follows;
    forall passage | passage in passages
      ensures |passage| <= maxChars
    {
      var i :| 0 <= i < |passages| && passages[i] == passage;
      assert Size(In(pieces, windows[i])) <= maxChars;
    }
  }

  // ---------------------------------------------------------------- nothing is lost

  /** Window i without the tail it shares with the one before. */
  function Own(pieces: seq<Piece>, windows: seq<Window>, i: nat): seq<Piece>
    requires i < |windows|
  {
    var low := if i == 0 then 0 else windows[i - 1].high;
    if low <= windows[i].high <= |pieces| then pieces[low..windows[i].high] else []
  }

  function AllOwn(pieces: seq<Piece>, windows: seq<Window>, n: nat): seq<Piece>
    requires n <= |windows|
  {
    if n == 0 then [] else AllOwn(pieces, windows, n - 1) + Own(pieces, windows, n - 1)
  }

  /** Without the shared tails, the windows give every piece once, in order. */
  lemma TailsDropped(pieces: seq<Piece>, maxChars: nat, overlap: nat, windows: seq<Window>)
    requires Packs(pieces, maxChars, overlap, windows, |pieces|)
    ensures AllOwn(pieces, windows, |windows|) == pieces
  {
    if windows != [] {
      OwnUpTo(pieces, maxChars, overlap, windows, |windows|);
      assert pieces[..|pieces|] == pieces;
    }
  }

  lemma {:induction false} OwnUpTo(pieces: seq<Piece>, maxChars: nat, overlap: nat, windows: seq<Window>, n: nat)
    requires Packs(pieces, maxChars, overlap, windows, |pieces|) && 0 < n <= |windows|
    ensures windows[n - 1].high <= |pieces| && AllOwn(pieces, windows, n) == pieces[..windows[n - 1].high]
  {
    hide Size, Span, TooLong;
    assert Within(windows[n - 1], |pieces|);
    var b := windows[n - 1].high;
    if n == 1 {
      assert AllOwn(pieces, windows, 0) == [];
      assert Own(pieces, windows, 0) == pieces[0..b];
    } else {
      OwnUpTo(pieces, maxChars, overlap, windows, n - 1);
      assert Within(windows[n - 2], |pieces|);
      assert Follows(pieces, maxChars, overlap, windows[n - 2], windows[n - 2 + 1]);
      var a := windows[n - 2].high;
      assert a < b;
      assert Own(pieces, windows, n - 1) == pieces[a..b];
      assert AllOwn(pieces, windows, n) == AllOwn(pieces, windows, n - 1) + Own(pieces, windows, n - 1);
      hide *;
      TwoSlices(pieces, a, b);
    }
  }

  lemma TwoSlices(pieces: seq<Piece>, a: nat, b: nat)
    requires a <= b <= |pieces|
    ensures pieces[..a] + pieces[a..b] == pieces[..b]
  {
  }

  function Texts(pieces: seq<Piece>): (texts: seq<string>)
    ensures |texts| == |pieces| && forall i :: 0 <= i < |texts| ==> texts[i] == pieces[i].text
  {
    seq(|pieces|, i requires 0 <= i < |pieces| => pieces[i].text)
  }

  /** What attaches a piece to the one before is blank. */
  predicate BlankJoints(blank: Blank, pieces: seq<Piece>) {
    forall p :: p in pieces ==> Ink(blank, p.sep) == []
  }

  lemma InkAllLast(blank: Blank, front: seq<string>, last: string)
    ensures InkAll(blank, front + [last]) == InkAll(blank, front) + Ink(blank, last)
  {
    assert (front + [last])[..|front|] == front;
  }

  lemma ConcatLast(front: seq<Piece>, last: Piece)
    ensures Concat(front + [last]) == if front == [] then last.text else Concat(front) + last.sep + last.text
    ensures Texts(front + [last]) == Texts(front) + [last.text]
  {
    assert (front + [last])[..|front|] == front;
  }

  lemma NothingConcat(blank: Blank)
    ensures Concat([]) == [] && Texts([]) == [] && Ink(blank, []) == [] && InkAll(blank, []) == []
  {
  }

  lemma JointIsBlank(blank: Blank, pieces: seq<Piece>)
    requires BlankJoints(blank, pieces) && pieces != []
    ensures BlankJoints(blank, pieces[..|pieces| - 1]) && Ink(blank, pieces[|pieces| - 1].sep) == []
  {
    hide Ink;
    assert pieces[|pieces| - 1] in pieces;
  }

  /** Joining takes and adds nothing but blanks. */
  lemma {:induction false} ConcatKeepsInk(blank: Blank, pieces: seq<Piece>)
    requires BlankJoints(blank, pieces)
    ensures Ink(blank, Concat(pieces)) == InkAll(blank, Texts(pieces))
  {
    hide Ink, InkAll, Concat, Texts, BlankJoints;
    NothingConcat(blank);
    if pieces != [] {
      var front, last := pieces[..|pieces| - 1], pieces[|pieces| - 1];
      assert pieces == front + [last];
      JointIsBlank(blank, pieces);
      ConcatKeepsInk(blank, front);
      ConcatLast(front, last);
      InkAllLast(blank, Texts(front), last.text);
      InkConcat(blank, Concat(front) + last.sep, last.text);
      InkConcat(blank, Concat(front), last.sep);
    }
  }

  /** Newlines are blank, so taking them off an end keeps the ink. */
  lemma NewlinesHaveNoInk(blank: Blank, s: string)
    requires blank('\n')
    ensures Ink(blank, StripRight(IsNewline, s)) == Ink(blank, s)
    ensures Ink(blank, StripLeft(IsNewline, s)) == Ink(blank, s)
  {
    var right, left := BeforeBlanks(IsNewline, s, |s|), AfterBlanks(IsNewline, s, 0);
    InkSplit(blank, s, right);
    AllBlank(blank, s[right..]);
    InkSplit(blank, s, left);
    AllBlank(blank, s[..left]);
    hide Ink;
    assert Ink(blank, s[..right]) + [] == Ink(blank, s[..right]);
    assert [] + Ink(blank, s[left..]) == Ink(blank, s[left..]);
  }

  lemma JoinKeepsInk(blank: Blank, pieces: seq<Piece>)
    requires BlankJoints(blank, pieces) && blank('\n')
    ensures Ink(blank, Join(pieces)) == InkAll(blank, Texts(pieces))
  {
    ConcatKeepsInk(blank, pieces);
    hide Concat, Ink, InkAll, Size, BlankJoints, Texts, StripLeft, StripRight;
    NewlinesHaveNoInk(blank, Concat(pieces));
    NewlinesHaveNoInk(blank, StripRight(IsNewline, Concat(pieces)));
  }
}
