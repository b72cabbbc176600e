/**
  The lines of a document cut into sections at its headings, and the lines of a section cut
  into blocks: fenced code, prose, and stretches of list items, table rows or quotes. Which
  lines are headings, fences or items, and what is white space, is for the rules to say.
  */
module Markup {
  import opened Bytes
  import opened Passages

  datatype Heading = Heading(level: nat, title: string)

  /** The regular expressions, and what counts as white space. */
  datatype Rules = Rules(
    blank: Blank,
    heading: string -> Option<Heading>,
    fence: string -> Option<string>,        // the marker, if the line opens or closes a code block
    structured: string -> bool,             // a list item, a table row, a quote
    sentences: string -> seq<string>)

  /** Splitting into sentences gives at least one, and takes only white space. */
  ghost predicate Lossless(rules: Rules) {
    rules.blank(' ') && rules.blank('\n') && forall t :: SplitsWell(rules, t)
  }

  ghost predicate SplitsWell(rules: Rules, t: string) {
    rules.sentences(t) != [] && InkAll(rules.blank, rules.sentences(t)) == Ink(rules.blank, t)
  }

  // ---------------------------------------------------------------- sections

  datatype Section = Section(heading: string, body: seq<string>)

  /** The code block a line leaves us in, if any. */
  function FenceAfter(rules: Rules, lines: seq<string>): Option<string> {
    if lines == [] then None
    else
      var fence, marker := FenceAfter(rules, lines[..|lines| - 1]), rules.fence(lines[|lines| - 1]);
      if marker.Some? && fence.None? then marker
      else if marker.Some? && marker == fence then None
      else fence
  }

  /** The heading a line is, given the lines up to it: none inside code. */
  function HeadingOf(rules: Rules, headings: bool, lines: seq<string>): Option<Heading>
    requires lines != []
  {
    var line := lines[|lines| - 1];
    if headings && FenceAfter(rules, lines).None? && rules.fence(line).None? then rules.heading(line) else None
  }

  /** The headings that stay when one of this level begins. */
  function Above(trail: seq<Heading>, level: nat): seq<Heading> {
    if trail == [] then []
    else
      var front, last := Above(trail[..|trail| - 1], level), trail[|trail| - 1];
      if last.level < level then front + [last] else front
  }

  /** The headings enclosing what follows these lines, outermost first. */
  function TrailAfter(rules: Rules, headings: bool, lines: seq<string>): seq<Heading> {
    if lines == [] then []
    else
      var trail, heading := TrailAfter(rules, headings, lines[..|lines| - 1]), HeadingOf(rules, headings, lines);
      if heading.None? then trail else Above(trail, heading.value.level) + [heading.value]
  }

  ghost predicate Nested(trail: seq<Heading>) {
    forall i, j :: 0 <= i < j < |trail| ==> trail[i].level < trail[j].level
  }

  lemma {:induction false} AboveIsNested(trail: seq<Heading>, level: nat)
    requires Nested(trail)
    ensures Nested(Above(trail, level))
    ensures forall h :: h in Above(trail, level) <==> h in trail && h.level < level
  {
    if trail != [] {
      var front := trail[..|trail| - 1];
      assert trail == front + [trail[|trail| - 1]];
      AboveIsNested(front, level);
      var kept := Above(front, level);
      assert forall i :: 0 <= i < |kept| ==> kept[i] in kept;
    }
  }

  /** The trail runs from the outermost heading to the innermost, and a heading is the last of its own. */
  lemma {:induction false} TrailIsNested(rules: Rules, headings: bool, lines: seq<string>)
    ensures Nested(TrailAfter(rules, headings, lines))
    ensures lines != [] && HeadingOf(rules, headings, lines).Some? ==>
              var trail := TrailAfter(rules, headings, lines);
              trail != [] && trail[|trail| - 1] == HeadingOf(rules, headings, lines).value
  {
    if lines != [] {
      var front := lines[..|lines| - 1];
      TrailIsNested(rules, headings, front);
      var heading := HeadingOf(rules, headings, lines);
      if heading.Some? {
        AboveIsNested(TrailAfter(rules, headings, front), heading.value.level);
        var kept := Above(TrailAfter(rules, headings, front), heading.value.level);
        assert forall i :: 0 <= i < |kept| ==> kept[i] in kept;
      }
    }
  }

  // ---------------------------------------------------------------- what is code, and what encloses what

  /** An open code block was opened outside code, by a line with its marker, and none since has it. */
  lemma {:induction false} FenceWasOpened(rules: Rules, lines: seq<string>) returns (i: nat)
    requires FenceAfter(rules, lines).Some?
    ensures i < |lines| && FenceAfter(rules, lines[..i]).None?
    ensures rules.fence(lines[i]) == FenceAfter(rules, lines)
    ensures forall j :: i < j < |lines| ==> rules.fence(lines[j]) != FenceAfter(rules, lines)
    decreases |lines|
  {
    var front := lines[..|lines| - 1];
    if FenceAfter(rules, front).None? {
      i := |front|;
    } else {
      i := FenceWasOpened(rules, front);
      assert front[..i] == lines[..i];
    }
  }

  /** And such a line opens one that stays open until its marker comes again, which closes it. */
  lemma {:induction false} FenceStaysOpen(rules: Rules, lines: seq<string>, i: nat)
    requires i < |lines| && FenceAfter(rules, lines[..i]).None? && rules.fence(lines[i]).Some?
    requires forall j :: i < j < |lines| ==> rules.fence(lines[j]) != rules.fence(lines[i])
    ensures FenceAfter(rules, lines) == rules.fence(lines[i])
    ensures forall line :: rules.fence(line) == rules.fence(lines[i]) ==> FenceAfter(rules, lines + [line]).None?
    decreases |lines|
  {
    var front := lines[..|lines| - 1];
    if i < |front| {
      assert front[..i] == lines[..i];
      FenceStaysOpen(rules, front, i);
    }
    assert forall line :: (lines + [line])[..|lines|] == lines;
  }

  /** A line is a heading if and only if headings count, it looks like one, and it is not in code, nor a fence. */
  lemma HeadingIff(rules: Rules, headings: bool, lines: seq<string>, i: nat)
    requires i < |lines|
    ensures IsHeading(rules, headings, lines, i) <==>
            && headings && rules.heading(lines[i]).Some?
            && FenceAfter(rules, lines[..i]).None? && rules.fence(lines[i]).None?
    ensures IsHeading(rules, headings, lines, i) ==>
              HeadingOf(rules, headings, lines[..i + 1]) == rules.heading(lines[i])
  {
    assert lines[..i + 1][..i] == lines[..i];
  }

  /** The heading in line i, if it is one. */
  function HeadingAt(rules: Rules, headings: bool, lines: seq<string>, i: nat): Option<Heading>
    requires i < |lines|
  {
    HeadingOf(rules, headings, lines[..i + 1])
  }

  /** The heading in line i encloses what follows: every later one is deeper. */
  ghost predicate Encloses(rules: Rules, headings: bool, lines: seq<string>, i: nat) {
    && i < |lines| && HeadingAt(rules, headings, lines, i).Some?
    && forall j: nat :: i < j < |lines| && HeadingAt(rules, headings, lines, j).Some? ==>
         HeadingAt(rules, headings, lines, j).value.level > HeadingAt(rules, headings, lines, i).value.level
  }

  /** These are the headings in the lines at these places, in order. */
  ghost predicate IsTrail(rules: Rules, headings: bool, lines: seq<string>, trail: seq<Heading>, at: seq<nat>) {
    && |at| == |trail| && (forall i, j :: 0 <= i < j < |at| ==> at[i] < at[j])
    && forall i :: 0 <= i < |at| ==> at[i] < |lines| && HeadingAt(rules, headings, lines, at[i]) == Some(trail[i])
  }

  lemma SameHeading(rules: Rules, headings: bool, lines: seq<string>, i: nat)
    requires i < |lines| - 1
    ensures HeadingAt(rules, headings, lines, i) == HeadingAt(rules, headings, lines[..|lines| - 1], i)
  {
    assert lines[..|lines| - 1][..i + 1] == lines[..i + 1];
  }

  /** What stays above a new heading, and where. */
  lemma {:induction false} PlacesAbove(trail: seq<Heading>, at: seq<nat>, level: nat) returns (kept: seq<nat>)
    requires |at| == |trail| && forall i, j :: 0 <= i < j < |at| ==> at[i] < at[j]
    ensures |kept| == |Above(trail, level)| && forall i, j :: 0 <= i < j < |kept| ==> kept[i] < kept[j]
    ensures forall k :: 0 <= k < |kept| ==> IsAmong(trail, at, Above(trail, level)[k], kept[k])
    ensures forall p :: p in kept <==> exists k :: 0 <= k < |at| && at[k] == p && trail[k].level < level
  {
    if trail == [] {
      return [];
    }
    var n := |trail| - 1;
    kept := PlacesAbove(trail[..n], at[..n], level);
    forall k | 0 <= k < |kept|
      ensures IsAmong(trail, at, Above(trail[..n], level)[k], kept[k]) && kept[k] < at[n]
    {
      assert IsAmong(trail[..n], at[..n], Above(trail[..n], level)[k], kept[k]);
      var j :| 0 <= j < n && at[..n][j] == kept[k] && trail[..n][j] == Above(trail[..n], level)[k];
      assert at[j] == kept[k] && trail[j] == Above(trail[..n], level)[k];
    }
    if trail[n].level < level {
      assert at[n] == at[n] && trail[n] == trail[n];
      kept := kept + [at[n]];
    }
  }

  ghost predicate IsAmong(trail: seq<Heading>, at: seq<nat>, h: Heading, place: nat)
    requires |at| == |trail|
  {
    exists j :: 0 <= j < |at| && at[j] == place && trail[j] == h
  }

  /** With one line more, a heading still encloses what follows if that is none, or a deeper one. */
  lemma EnclosesStill(rules: Rules, headings: bool, lines: seq<string>, i: nat)
    requires i < |lines| - 1
    ensures var front, last := lines[..|lines| - 1], HeadingAt(rules, headings, lines, |lines| - 1);
            Encloses(rules, headings, lines, i) <==>
              && Encloses(rules, headings, front, i)
              && (last.Some? ==> last.value.level > HeadingAt(rules, headings, front, i).value.level)
  {
    hide HeadingAt;
    var front, n := lines[..|lines| - 1], |lines| - 1;
    forall j: nat | j < n
      ensures HeadingAt(rules, headings, lines, j) == HeadingAt(rules, headings, front, j)
    {
      SameHeading(rules, headings, lines, j);
    }
    if Encloses(rules, headings, lines, i) {
      assert HeadingAt(rules, headings, lines, n).Some? ==>
               HeadingAt(rules, headings, lines, n).value.level > HeadingAt(rules, headings, lines, i).value.level;
    }
  }

  lemma TrailStays(rules: Rules, headings: bool, lines: seq<string>, trail: seq<Heading>, at: seq<nat>)
    requires lines != [] && IsTrail(rules, headings, lines[..|lines| - 1], trail, at)
    ensures IsTrail(rules, headings, lines, trail, at)
  {
    hide HeadingAt;
    forall i | 0 <= i < |at|
      ensures at[i] < |lines| && HeadingAt(rules, headings, lines, at[i]) == Some(trail[i])
    {
      SameHeading(rules, headings, lines, at[i]);
    }
  }

  /** The trail before, without what the new heading is not below, and with it. */
  lemma TrailTurns(rules: Rules, headings: bool, lines: seq<string>, trail: seq<Heading>, at: seq<nat>, h: Heading)
      returns (later: seq<nat>)
    requires lines != [] && IsTrail(rules, headings, lines, trail, at) && (forall p :: p in at ==> p < |lines| - 1)
    requires HeadingAt(rules, headings, lines, |lines| - 1) == Some(h)
    ensures IsTrail(rules, headings, lines, Above(trail, h.level) + [h], later)
    ensures forall p :: p in later <==>
              p == |lines| - 1
              || (p in at && p < |lines| && HeadingAt(rules, headings, lines, p).Some?
                  && HeadingAt(rules, headings, lines, p).value.level < h.level)
  {
    hide HeadingAt, Above;
    var kept := PlacesAbove(trail, at, h.level);
    var above := Above(trail, h.level);
    later := kept + [|lines| - 1];
    forall k | 0 <= k < |kept|
      ensures kept[k] in at && HeadingAt(rules, headings, lines, kept[k]) == Some(above[k])
    {
      assert IsAmong(trail, at, above[k], kept[k]);
    }
    forall p
      ensures p in kept <==> p in at && p < |lines| && HeadingAt(rules, headings, lines, p).Some?
                             && HeadingAt(rules, headings, lines, p).value.level < h.level
    {
      if p in at {
        var k :| 0 <= k < |at| && at[k] == p;
        assert HeadingAt(rules, headings, lines, at[k]) == Some(trail[k]);
      }
    }
  }

  /** The trail has exactly the headings that enclose what follows, each no deeper one has followed. */
  lemma {:induction false} TrailIsWhatEncloses(rules: Rules, headings: bool, lines: seq<string>) returns (at: seq<nat>)
    ensures IsTrail(rules, headings, lines, TrailAfter(rules, headings, lines), at)
    ensures forall i: nat :: i in at <==> Encloses(rules, headings, lines, i)
    decreases |lines|
  {
    if lines == [] {
      return [];
    }
    hide Encloses, IsTrail, Above, HeadingOf;
    var front, n := lines[..|lines| - 1], |lines| - 1;
    assert lines[..n + 1] == lines;
    var before := TrailIsWhatEncloses(rules, headings, front);
    var trail, h := TrailAfter(rules, headings, front), HeadingOf(rules, headings, lines);
    TrailStays(rules, headings, lines, trail, before);
    forall i: nat | i < n
      ensures Encloses(rules, headings, lines, i) <==>
                i in before && (h.Some? ==> h.value.level > HeadingAt(rules, headings, lines, i).value.level)
    {
      EnclosesStill(rules, headings, lines, i);
      SameHeading(rules, headings, lines, i);
    }
    LastEncloses(rules, headings, lines);
    PlacesOf(rules, headings, front, trail, before);
    if h.None? {
      at := before;
    } else {
      at := TrailTurns(rules, headings, lines, trail, before, h.value);
    }
  }

  lemma LastEncloses(rules: Rules, headings: bool, lines: seq<string>)
    requires lines != []
    ensures Encloses(rules, headings, lines, |lines| - 1) <==> HeadingOf(rules, headings, lines).Some?
    ensures forall i: nat :: Encloses(rules, headings, lines, i) ==> i < |lines|
    ensures HeadingAt(rules, headings, lines, |lines| - 1) == HeadingOf(rules, headings, lines)
  {
    assert lines[..|lines| - 1 + 1] == lines;
  }

  lemma PlacesOf(rules: Rules, headings: bool, lines: seq<string>, trail: seq<Heading>, at: seq<nat>)
    requires IsTrail(rules, headings, lines, trail, at)
    ensures forall p :: p in at ==> p < |lines| && HeadingAt(rules, headings, lines, p).Some?
  {
  }

  /** `" > ".join(...)`. */
  function TrailText(trail: seq<Heading>): string {
    if trail == [] then ""
    else if |trail| == 1 then trail[0].title
    else TrailText(trail[..|trail| - 1]) + " > " + trail[|trail| - 1].title
  }

  /** A section: the lines from `low` up to `high`, none of them a heading, under the headings above them. */
  ghost predicate IsSection(rules: Rules, headings: bool, lines: seq<string>, s: Section, low: nat, high: nat) {
    && low <= high <= |lines|
    && s.body == lines[low..high]
    && s.heading == TrailText(TrailAfter(rules, headings, lines[..low]))
    && forall i: nat :: low <= i < high ==> !IsHeading(rules, headings, lines, i)
  }

  predicate IsHeading(rules: Rules, headings: bool, lines: seq<string>, i: nat)
    requires i < |lines|
  {
    HeadingOf(rules, headings, lines[..i + 1]).Some?
  }

  /** The sections are the stretches between one heading and the next. `starts` is where each begins. */
  ghost predicate Sectioned(rules: Rules, headings: bool, lines: seq<string>, sections: seq<Section>, starts: seq<nat>,
                            upto: nat)
    requires upto <= |lines|
  {
    && |starts| == |sections| + 1 && starts[0] == 0
    && forall k: nat :: k < |sections| ==> EndsAtHeading(rules, headings, lines, sections, starts, upto, k)
  }

  /** Section k ends at a heading, and the next one begins right after it. */
  ghost predicate EndsAtHeading(rules: Rules, headings: bool, lines: seq<string>, sections: seq<Section>,
                                starts: seq<nat>, upto: nat, k: nat)
    requires upto <= |lines| && k < |sections| < |starts|
  {
    var next := starts[k + 1];
    && 0 < next <= upto
    && IsSection(rules, headings, lines, sections[k], starts[k], next - 1)
    && IsHeading(rules, headings, lines, next - 1)
  }

  /** What one more line does to the code block we are in and to the trail. */
  lemma OneMoreLine(rules: Rules, headings: bool, lines: seq<string>, i: nat)
    requires i < |lines|
    ensures var fence, marker := FenceAfter(rules, lines[..i]), rules.fence(lines[i]);
            FenceAfter(rules, lines[..i + 1]) ==
              if marker.Some? && fence.None? then marker
              else if marker.Some? && marker == fence then None
              else fence
    ensures var fence, marker := FenceAfter(rules, lines[..i + 1]), rules.fence(lines[i]);
            var heading := if headings && fence.None? && marker.None? then rules.heading(lines[i]) else None;
            var trail := TrailAfter(rules, headings, lines[..i]);
            && (heading.Some? <==> IsHeading(rules, headings, lines, i))
            && TrailAfter(rules, headings, lines[..i + 1]) ==
                 if heading.None? then trail else Above(trail, heading.value.level) + [heading.value]
  {
    assert lines[..i + 1][..i] == lines[..i] && lines[..i + 1][i] == lines[i];
  }

  lemma SectionsStay(rules: Rules, headings: bool, lines: seq<string>, sections: seq<Section>, starts: seq<nat>, i: nat)
    requires i < |lines| && Sectioned(rules, headings, lines, sections, starts, i)
    ensures |starts| == |sections| + 1
    ensures Sectioned(rules, headings, lines, sections, starts, i + 1)
  {
    hide IsSection, IsHeading;
    var later := i + 1;
    forall k: nat | k < |sections|
      ensures EndsAtHeading(rules, headings, lines, sections, starts, later, k)
    {
      assert EndsAtHeading(rules, headings, lines, sections, starts, i, k);
    }
  }

  lemma LineJoins(rules: Rules, headings: bool, lines: seq<string>, s: Section, low: nat, i: nat)
    requires i < |lines| && IsSection(rules, headings, lines, s, low, i) && !IsHeading(rules, headings, lines, i)
    ensures IsSection(rules, headings, lines, s.(body := s.body + [lines[i]]), low, i + 1)
  {
    hide IsHeading, TrailText, TrailAfter;
    assert lines[low..i + 1] == lines[low..i] + [lines[i]];
  }

  lemma SectionEnds(rules: Rules, headings: bool, lines: seq<string>, sections: seq<Section>, starts: seq<nat>,
                    s: Section, i: nat)
    requires i < |lines| && Sectioned(rules, headings, lines, sections, starts, i + 1) && |starts| == |sections| + 1
    requires IsSection(rules, headings, lines, s, starts[|sections|], i) && IsHeading(rules, headings, lines, i)
    ensures Sectioned(rules, headings, lines, sections + [s], starts + [i + 1], i + 1)
  {
    hide IsSection, IsHeading;
    var later := i + 1;
    var more, ends := sections + [s], starts + [later];
    forall k: nat | k < |more|
      ensures EndsAtHeading(rules, headings, lines, more, ends, later, k)
    {
      if k < |sections| {
        assert EndsAtHeading(rules, headings, lines, sections, starts, later, k);
      }
    }
  }

  lemma SectionBegins(rules: Rules, headings: bool, lines: seq<string>, i: nat)
    requires i <= |lines|
    ensures IsSection(rules, headings, lines, Section(TrailText(TrailAfter(rules, headings, lines[..i])), []), i, i)
  {
    hide TrailText, TrailAfter;
  }

  lemma NoLinesYet(rules: Rules, headings: bool, lines: seq<string>)
    ensures FenceAfter(rules, lines[..0]) == None && TrailAfter(rules, headings, lines[..0]) == []
    ensures Sectioned(rules, headings, lines, [], [0], 0)
  {
  }

  /** `_sections`. */
  method Sections(rules: Rules, headings: bool, lines: seq<string>)
      returns (sections: seq<Section>, ghost starts: seq<nat>)
    ensures sections != [] && |starts| == |sections|
    ensures Sectioned(rules, headings, lines, sections[..|sections| - 1], starts, |lines|)
    ensures IsSection(rules, headings, lines, sections[|sections| - 1], starts[|starts| - 1], |lines|)
  {
    hide *;
    var trail: seq<Heading> := [];
    var body: seq<string> := [];
    var fence: Option<string> := None;
    sections, starts := [], [0];
    NoLinesYet(rules, headings, lines);
    SectionBegins(rules, headings, lines, 0);
    for i := 0 to |lines|
      invariant fence == FenceAfter(rules, lines[..i]) && trail == TrailAfter(rules, headings, lines[..i])
      invariant |starts| == |sections| + 1 && Sectioned(rules, headings, lines, sections, starts, i)
      invariant IsSection(rules, headings, lines, Section(TrailText(trail), body), starts[|sections|], i)
    {
      var line := lines[i];
      OneMoreLine(rules, headings, lines, i);
      var marker := rules.fence(line);
      if marker.Some? && fence.None? {
        fence := marker;
      } else if marker.Some? && marker == fence {
        fence := None;
      }
      var heading := if headings && fence.None? && marker.None? then rules.heading(line) else None;
      SectionsStay(rules, headings, lines, sections, starts, i);
      if heading.None? {
        LineJoins(rules, headings, lines, Section(TrailText(trail), body), starts[|sections|], i);
        body := body + [line];
        continue;
      }
      SectionEnds(rules, headings, lines, sections, starts, Section(TrailText(trail), body), i);
      sections := sections + [Section(TrailText(trail), body)];
      trail := Above(trail, heading.value.level) + [heading.value];
      body := [];
      starts := starts + [i + 1];
      SectionBegins(rules, headings, lines, i + 1);
    }
    assert lines[..|lines|] == lines;
    ghost var closed := sections;
    sections := sections + [Section(TrailText(trail), body)];
    assert sections[..|sections| - 1] == closed;
  }

  // ---------------------------------------------------------------- blocks

  datatype Kind = Prose | Lines | Code

  datatype Block = Block(kind: Kind, lines: seq<string>)

  function InkOfBlocks(blank: Blank, blocks: seq<Block>): string {
    if blocks == [] then [] else InkOfBlocks(blank, blocks[..|blocks| - 1]) + InkAll(blank, blocks[|blocks| - 1].lines)
  }

  lemma InkOfLastBlock(blank: Blank, blocks: seq<Block>, last: Block)
    ensures InkOfBlocks(blank, blocks + [last]) == InkOfBlocks(blank, blocks) + InkAll(blank, last.lines)
  {
    assert (blocks + [last])[..|blocks|] == blocks;
  }

  /** What a block outside code is: structured if any line of it is. */
  predicate IsKind(rules: Rules, block: seq<string>, kind: Kind) {
    kind == if exists line :: line in block && rules.structured(line) then Lines else Prose
  }

  /** Line i is in a code block that an earlier line opened. */
  predicate InCode(rules: Rules, lines: seq<string>, i: nat)
    requires i < |lines|
  {
    FenceAfter(rules, lines[..i]).Some?
  }

  /** It is a line of text: not in code, not a fence, not blank. */
  predicate Plain(rules: Rules, lines: seq<string>, i: nat)
    requires i < |lines|
  {
    !InCode(rules, lines, i) && rules.fence(lines[i]).None? && Strip(rules.blank, lines[i]) != []
  }

  /** It goes into some block: only blank lines outside code do not. */
  predicate Belongs(rules: Rules, lines: seq<string>, i: nat)
    requires i < |lines|
  {
    InCode(rules, lines, i) || rules.fence(lines[i]).Some? || Plain(rules, lines, i)
  }

  /** It goes into the block of the line before it. */
  predicate Continues(rules: Rules, lines: seq<string>, i: nat)
    requires i < |lines|
  {
    InCode(rules, lines, i) || (i > 0 && Plain(rules, lines, i - 1) && Plain(rules, lines, i))
  }

  ghost predicate NoneBelong(rules: Rules, lines: seq<string>, low: nat, high: nat)
    requires low <= high <= |lines|
  {
    forall i: nat :: low <= i < high ==> !Belongs(rules, lines, i)
  }

  /** These lines go into one block, and the line before them does not. */
  ghost predicate Run(rules: Rules, lines: seq<string>, low: nat, high: nat)
    requires low < high <= |lines|
  {
    && Belongs(rules, lines, low) && !Continues(rules, lines, low)
    && forall i: nat :: low < i < high ==> Continues(rules, lines, i)
  }

  function Trimmed(blank: Blank, lines: seq<string>): (trimmed: seq<string>)
    ensures |trimmed| == |lines| && forall i :: 0 <= i < |lines| ==> trimmed[i] == StripRight(blank, lines[i])
  {
    seq(|lines|, i requires 0 <= i < |lines| => StripRight(blank, lines[i]))
  }

  datatype Stretch = Stretch(low: nat, high: nat)

  /** A block is a run of lines, without the white space at their ends; it is code if a fence begins it. */
  ghost predicate IsBlock(rules: Rules, lines: seq<string>, b: Block, at: Stretch) {
    && at.low < at.high <= |lines| && Run(rules, lines, at.low, at.high)
    && b.lines == Trimmed(rules.blank, lines[at.low..at.high])
    && if rules.fence(lines[at.low]).Some? then b.kind == Code else IsKind(rules, b.lines, b.kind)
  }

  function EndOf(spans: seq<Stretch>, k: nat): nat
    requires k <= |spans|
  {
    if k == 0 then 0 else spans[k - 1].high
  }

  /** Block k is where its span says, and every line between it and the block before it is blank. */
  ghost predicate BlockAt(rules: Rules, lines: seq<string>, blocks: seq<Block>, spans: seq<Stretch>, k: nat)
    requires k < |blocks| == |spans|
  {
    && EndOf(spans, k) <= spans[k].low <= |lines|
    && NoneBelong(rules, lines, EndOf(spans, k), spans[k].low)
    && IsBlock(rules, lines, blocks[k], spans[k])
  }

  ghost predicate Tiled(rules: Rules, lines: seq<string>, blocks: seq<Block>, spans: seq<Stretch>) {
    && |blocks| == |spans| && EndOf(spans, |spans|) <= |lines|
    && forall k: nat :: k < |blocks| ==> BlockAt(rules, lines, blocks, spans, k)
  }

  /** These are all the blocks of the lines. */
  ghost predicate AreBlocks(rules: Rules, lines: seq<string>, blocks: seq<Block>, spans: seq<Stretch>) {
    Tiled(rules, lines, blocks, spans) && NoneBelong(rules, lines, EndOf(spans, |spans|), |lines|)
  }

  /** The block being built runs from `low` up to line i; nothing between `end` and `low` belongs to any. */
  ghost predicate Growing(rules: Rules, lines: seq<string>, i: nat, block: seq<string>, fence: Option<string>, end: nat,
                          low: nat)
    requires i <= |lines|
  {
    && end <= low <= i && NoneBelong(rules, lines, end, low)
    && block == Trimmed(rules.blank, lines[low..i])
    && if low == i then fence.None? && (i > 0 ==> !Plain(rules, lines, i - 1))
       else Run(rules, lines, low, i) && if fence.Some? then rules.fence(lines[low]).Some?
                                         else rules.fence(lines[low]).None? && Plain(rules, lines, i - 1)
  }

  /** A block of code has just ended. */
  lemma CodeEnds(rules: Rules, lines: seq<string>, i: nat)
    requires i < |lines| && InCode(rules, lines, i)
    ensures Growing(rules, lines, i + 1, [], None, i + 1, i + 1)
  {
    hide InCode;
  }

  /** No block is being built: the last one has just ended, or only blank lines have come since. */
  lemma NothingBelongs(rules: Rules, lines: seq<string>, i: nat, end: nat, low: nat)
    requires i <= |lines| && (end == i || Growing(rules, lines, i, [], None, end, low))
    ensures end <= i && NoneBelong(rules, lines, end, i)
  {
    hide Run, Plain, Belongs;
  }

  /** A blank line, when no block is being built. */
  lemma LinePasses(rules: Rules, lines: seq<string>, i: nat, end: nat, low: nat)
    requires i < |lines| && (end == i || Growing(rules, lines, i, [], None, end, low))
    requires !InCode(rules, lines, i) && rules.fence(lines[i]).None? && Strip(rules.blank, lines[i]) == []
    ensures Growing(rules, lines, i + 1, [], None, end, i + 1)
  {
    NothingBelongs(rules, lines, i, end, low);
    hide InCode, Strip;
  }

  /** A fence begins a block. */
  lemma CodeBegins(rules: Rules, lines: seq<string>, i: nat, end: nat, low: nat)
    requires i < |lines| && (end == i || Growing(rules, lines, i, [], None, end, low))
    requires !InCode(rules, lines, i) && rules.fence(lines[i]).Some?
    ensures Growing(rules, lines, i + 1, [] + [StripRight(rules.blank, lines[i])], rules.fence(lines[i]), end, i)
  {
    NothingBelongs(rules, lines, i, end, low);
    hide InCode, Strip, StripRight;
  }

  /** A line of code, or of text, goes on with the block being built; or a line of text begins one. */
  lemma LineGrows(rules: Rules, lines: seq<string>, i: nat, block: seq<string>, fence: Option<string>, end: nat,
                  low: nat)
    requires i < |lines| && Growing(rules, lines, i, block, fence, end, low)
    requires fence.Some? <==> InCode(rules, lines, i)
    requires fence.Some? || (rules.fence(lines[i]).None? && Strip(rules.blank, lines[i]) != [])
    ensures Growing(rules, lines, i + 1, block + [StripRight(rules.blank, lines[i])], fence, end, low)
  {
    hide InCode, Strip, StripRight, NoneBelong;
    assert lines[low..i + 1] == lines[low..i] + [lines[i]];
    TrimLast(rules.blank, lines[low..i], lines[i]);
    RunGrows(rules, lines, i, low);
    hide Run, Trimmed;
  }

  lemma TrimLast(blank: Blank, lines: seq<string>, line: string)
    ensures Trimmed(blank, lines + [line]) == Trimmed(blank, lines) + [StripRight(blank, line)]
  {
    hide StripRight;
  }

  lemma RunGrows(rules: Rules, lines: seq<string>, i: nat, low: nat)
    requires low <= i < |lines|
    ensures low < i && Run(rules, lines, low, i) && Continues(rules, lines, i) ==> Run(rules, lines, low, i + 1)
    ensures low == i && Belongs(rules, lines, i) && !Continues(rules, lines, i) ==> Run(rules, lines, i, i + 1)
  {
    hide Belongs, Continues;
  }

  lemma GrownBlock(rules: Rules, lines: seq<string>, i: nat, block: seq<string>, fence: Option<string>, end: nat,
                   low: nat, kind: Kind)
    requires i <= |lines| && block != [] && Growing(rules, lines, i, block, fence, end, low)
    requires if fence.Some? then kind == Code else IsKind(rules, block, kind)
    ensures end <= low < i && NoneBelong(rules, lines, end, low)
    ensures IsBlock(rules, lines, Block(kind, block), Stretch(low, i))
  {
    hide Run, IsKind, NoneBelong;
  }

  lemma BlockEnds(rules: Rules, lines: seq<string>, i: nat, block: seq<string>, fence: Option<string>, low: nat,
                  blocks: seq<Block>, spans: seq<Stretch>, kind: Kind)
    requires i <= |lines| && Tiled(rules, lines, blocks, spans) && block != []
    requires Growing(rules, lines, i, block, fence, EndOf(spans, |spans|), low)
    requires if fence.Some? then kind == Code else IsKind(rules, block, kind)
    ensures Tiled(rules, lines, blocks + [Block(kind, block)], spans + [Stretch(low, i)])
    ensures EndOf(spans + [Stretch(low, i)], |spans + [Stretch(low, i)]|) == i
  {
    GrownBlock(rules, lines, i, block, fence, EndOf(spans, |spans|), low, kind);
    hide NoneBelong, IsBlock, Growing;
    var more, ends := blocks + [Block(kind, block)], spans + [Stretch(low, i)];
    forall k: nat | k < |more|
      ensures BlockAt(rules, lines, more, ends, k)
    {
      if k < |blocks| {
        assert BlockAt(rules, lines, blocks, spans, k);
      }
    }
  }

  /** `_kind`. */
  method KindOf(rules: Rules, block: seq<string>) returns (kind: Kind)
    ensures IsKind(rules, block, kind)
  {
    for i := 0 to |block|
      invariant forall j :: 0 <= j < i ==> !rules.structured(block[j])
    {
      if rules.structured(block[i]) {
        return Lines;
      }
    }
    return Prose;
  }

  /** What has been put into blocks so far, and into the one not finished. */
  ghost predicate Blocked(blank: Blank, lines: seq<string>, blocks: seq<Block>, block: seq<string>) {
    InkAll(blank, lines) == InkOfBlocks(blank, blocks) + InkAll(blank, block)
  }

  lemma LineIn(blank: Blank, lines: seq<string>, blocks: seq<Block>, block: seq<string>, line: string)
    requires Blocked(blank, lines, blocks, block)
    ensures Blocked(blank, lines + [line], blocks, block + [StripRight(blank, line)])
    ensures Strip(blank, line) == [] ==> Blocked(blank, lines + [line], blocks, block)
  {
    RightKeepsInk(blank, line);
    StripKeepsInk(blank, line);
    hide Ink, InkAll, Strip;
    InkAllLast(blank, lines, line);
    InkAllLast(blank, block, StripRight(blank, line));
  }

  lemma BlockOut(blank: Blank, lines: seq<string>, blocks: seq<Block>, block: seq<string>, kind: Kind)
    requires Blocked(blank, lines, blocks, block) && block != []
    ensures Blocked(blank, lines, blocks + [Block(kind, block)], [])
  {
    InkOfLastBlock(blank, blocks, Block(kind, block));
    hide InkOfBlocks;
  }

  /** The code block the next line leaves us in. */
  lemma FenceNext(rules: Rules, lines: seq<string>, i: nat)
    requires i < |lines|
    ensures var fence, marker := FenceAfter(rules, lines[..i]), rules.fence(lines[i]);
            && (InCode(rules, lines, i) <==> fence.Some?)
            && FenceAfter(rules, lines[..i + 1]) ==
                 if fence.None? then marker else if marker == fence then None else fence
    ensures lines[..i + 1] == lines[..i] + [lines[i]]
  {
    assert lines[..i + 1][..i] == lines[..i] && lines[..i + 1][i] == lines[i];
  }

  /** How far `_blocks` has come after i lines. */
  ghost predicate Building(rules: Rules, lines: seq<string>, i: nat, blocks: seq<Block>, spans: seq<Stretch>,
                           block: seq<string>, fence: Option<string>, low: nat)
    requires i <= |lines|
  {
    && Blocked(rules.blank, lines[..i], blocks, block)
    && fence == FenceAfter(rules, lines[..i])
    && Tiled(rules, lines, blocks, spans)
    && Growing(rules, lines, i, block, fence, EndOf(spans, |spans|), low)
  }

  /** The blocks, with the one being built, if there is one. */
  function Finished(blocks: seq<Block>, kind: Kind, block: seq<string>): seq<Block> {
    if block == [] then blocks else blocks + [Block(kind, block)]
  }

  function FinishedAt(spans: seq<Stretch>, block: seq<string>, low: nat, high: nat): seq<Stretch> {
    if block == [] then spans else spans + [Stretch(low, high)]
  }

  /** The block being built ends before line i. */
  lemma Flush(rules: Rules, lines: seq<string>, i: nat, blocks: seq<Block>, spans: seq<Stretch>, block: seq<string>,
              fence: Option<string>, low: nat, kind: Kind)
    requires i <= |lines| && Building(rules, lines, i, blocks, spans, block, fence, low)
    requires block != [] ==> if fence.Some? then kind == Code else IsKind(rules, block, kind)
    ensures var more, ends := Finished(blocks, kind, block), FinishedAt(spans, block, low, i);
            && Tiled(rules, lines, more, ends) && Blocked(rules.blank, lines[..i], more, [])
            && (EndOf(ends, |ends|) == i || Growing(rules, lines, i, [], None, EndOf(ends, |ends|), low))
  {
    hide Tiled, Growing, Blocked, IsKind, EndOf, FenceAfter;
    if block != [] {
      BlockEnds(rules, lines, i, block, fence, low, blocks, spans, kind);
      BlockOut(rules.blank, lines[..i], blocks, block, kind);
    } else {
      GrowsOnlyInCode(rules, lines, i, fence, EndOf(spans, |spans|), low);
    }
  }

  lemma GrowsOnlyInCode(rules: Rules, lines: seq<string>, i: nat, fence: Option<string>, end: nat, low: nat)
    requires i <= |lines| && Growing(rules, lines, i, [], fence, end, low)
    ensures fence == None
  {
    hide Run, Plain, NoneBelong;
  }

  lemma CodeLine(rules: Rules, lines: seq<string>, i: nat, blocks: seq<Block>, spans: seq<Stretch>, block: seq<string>,
                 fence: Option<string>, low: nat)
    requires i < |lines| && Building(rules, lines, i, blocks, spans, block, fence, low) && fence.Some?
    ensures var grown := block + [StripRight(rules.blank, lines[i])];
            if rules.fence(lines[i]) == fence
            then Building(rules, lines, i + 1, blocks + [Block(Code, grown)], spans + [Stretch(low, i + 1)], [], None,
                          i + 1)
            else Building(rules, lines, i + 1, blocks, spans, grown, fence, low)
  {
    hide Tiled, Growing, Blocked, EndOf, FenceAfter, InCode, Strip, StripRight;
    FenceNext(rules, lines, i);
    LineIn(rules.blank, lines[..i], blocks, block, lines[i]);
    LineGrows(rules, lines, i, block, fence, EndOf(spans, |spans|), low);
    if rules.fence(lines[i]) == fence {
      var grown := block + [StripRight(rules.blank, lines[i])];
      BlockEnds(rules, lines, i + 1, grown, fence, low, blocks, spans, Code);
      BlockOut(rules.blank, lines[..i + 1], blocks, grown, Code);
      CodeEnds(rules, lines, i);
    }
  }

  lemma TextLine(rules: Rules, lines: seq<string>, i: nat, blocks: seq<Block>, spans: seq<Stretch>, block: seq<string>,
                 low: nat)
    requires i < |lines| && Building(rules, lines, i, blocks, spans, block, None, low)
    requires rules.fence(lines[i]).None? && Strip(rules.blank, lines[i]) != []
    ensures Building(rules, lines, i + 1, blocks, spans, block + [StripRight(rules.blank, lines[i])], None, low)
  {
    hide Tiled, Growing, Blocked, EndOf, FenceAfter, InCode, Strip, StripRight;
    FenceNext(rules, lines, i);
    LineIn(rules.blank, lines[..i], blocks, block, lines[i]);
    LineGrows(rules, lines, i, block, None, EndOf(spans, |spans|), low);
  }

  lemma FenceLine(rules: Rules, lines: seq<string>, i: nat, blocks: seq<Block>, spans: seq<Stretch>, block: seq<string>,
                  low: nat, kind: Kind)
    requires i < |lines| && Building(rules, lines, i, blocks, spans, block, None, low)
    requires rules.fence(lines[i]).Some? && (block != [] ==> IsKind(rules, block, kind))
    ensures Building(rules, lines, i + 1, Finished(blocks, kind, block), FinishedAt(spans, block, low, i),
                     [StripRight(rules.blank, lines[i])], rules.fence(lines[i]), i)
  {
    Flush(rules, lines, i, blocks, spans, block, None, low, kind);
    hide Tiled, Growing, Blocked, EndOf, FenceAfter, InCode, Strip, StripRight, IsKind, Finished, FinishedAt;
    var more, ends := Finished(blocks, kind, block), FinishedAt(spans, block, low, i);
    FenceNext(rules, lines, i);
    LineIn(rules.blank, lines[..i], more, [], lines[i]);
    assert [] + [StripRight(rules.blank, lines[i])] == [StripRight(rules.blank, lines[i])];
    CodeBegins(rules, lines, i, EndOf(ends, |ends|), low);
  }

  lemma EmptyLine(rules: Rules, lines: seq<string>, i: nat, blocks: seq<Block>, spans: seq<Stretch>, block: seq<string>,
                  low: nat, kind: Kind)
    requires i < |lines| && Building(rules, lines, i, blocks, spans, block, None, low)
    requires rules.fence(lines[i]).None? && Strip(rules.blank, lines[i]) == []
             && (block != [] ==> IsKind(rules, block, kind))
    ensures Building(rules, lines, i + 1, Finished(blocks, kind, block), FinishedAt(spans, block, low, i), [], None,
                     i + 1)
  {
    Flush(rules, lines, i, blocks, spans, block, None, low, kind);
    hide Tiled, Growing, Blocked, EndOf, FenceAfter, InCode, Strip, StripRight, IsKind, Finished, FinishedAt;
    var more, ends := Finished(blocks, kind, block), FinishedAt(spans, block, low, i);
    FenceNext(rules, lines, i);
    LineIn(rules.blank, lines[..i], more, [], lines[i]);
    LinePasses(rules, lines, i, EndOf(ends, |ends|), low);
  }

  lemma LastLine(rules: Rules, lines: seq<string>, blocks: seq<Block>, spans: seq<Stretch>, block: seq<string>,
                 fence: Option<string>, low: nat, kind: Kind)
    requires Building(rules, lines, |lines|, blocks, spans, block, fence, low)
    requires block != [] ==> if fence.Some? then kind == Code else IsKind(rules, block, kind)
    ensures var more, ends := Finished(blocks, kind, block), FinishedAt(spans, block, low, |lines|);
            AreBlocks(rules, lines, more, ends) && InkOfBlocks(rules.blank, more) == InkAll(rules.blank, lines)
  {
    Flush(rules, lines, |lines|, blocks, spans, block, fence, low, kind);
    hide Tiled, Growing, EndOf, FenceAfter, IsKind, Finished, FinishedAt;
    var ends := FinishedAt(spans, block, low, |lines|);
    NothingBelongs(rules, lines, |lines|, EndOf(ends, |ends|), low);
    assert lines[..|lines|] == lines;
  }

  lemma NoLines(rules: Rules, lines: seq<string>)
    ensures Building(rules, lines, 0, [], [], [], None, 0)
  {
    assert lines[..0] == [];
  }

  /** `_blocks`: fenced code with all its lines, and the longest stretches of other lines that have no blank one. */
  method Blocks(rules: Rules, lines: seq<string>) returns (blocks: seq<Block>, ghost spans: seq<Stretch>)
    ensures InkOfBlocks(rules.blank, blocks) == InkAll(rules.blank, lines)
    ensures AreBlocks(rules, lines, blocks, spans)
  {
    blocks, spans := [], [];
    var block: seq<string> := [];
    var fence: Option<string> := None;
    var kind := Code;
    ghost var low := 0;
    NoLines(rules, lines);
    hide Building, AreBlocks, InkOfBlocks, InkAll, Strip, StripRight, IsKind;
    for i := 0 to |lines|
      invariant Building(rules, lines, i, blocks, spans, block, fence, low)
    {
      var line := lines[i];
      var marker := rules.fence(line);
      if fence.Some? {
        CodeLine(rules, lines, i, blocks, spans, block, fence, low);
        block := block + [StripRight(rules.blank, line)];
        if marker == fence {
          blocks, spans := blocks + [Block(Code, block)], spans + [Stretch(low, i + 1)];
          block, fence, low := [], None, i + 1;
        }
      } else if marker.Some? {
        if block != [] {
          kind := KindOf(rules, block);
        }
        FenceLine(rules, lines, i, blocks, spans, block, low, kind);
        if block != [] {
          blocks, spans := blocks + [Block(kind, block)], spans + [Stretch(low, i)];
        }
        block, fence, low := [StripRight(rules.blank, line)], marker, i;
      } else if Strip(rules.blank, line) != [] {
        TextLine(rules, lines, i, blocks, spans, block, low);
        block := block + [StripRight(rules.blank, line)];
      } else {
        if block != [] {
          kind := KindOf(rules, block);
        }
        EmptyLine(rules, lines, i, blocks, spans, block, low, kind);
        if block != [] {
          blocks, spans := blocks + [Block(kind, block)], spans + [Stretch(low, i)];
          block := [];
        }
        low := i + 1;
      }
    }
    if block != [] {
      kind := Code;
      if fence.None? {
        kind := KindOf(rules, block);
      }
    }
    LastLine(rules, lines, blocks, spans, block, fence, low, kind);
    if block != [] {
      blocks, spans := blocks + [Block(kind, block)], spans + [Stretch(low, |lines|)];
    }
  }
}
