/**
  A document cut into sections, each section into units, and the units packed into passages.
  Everything that is cut keeps its ink: the characters that are not white space, in order.
  */
module Chunking {
  import opened Bytes
  import opened Lines
  import opened Markup
  import opened Passages

  // ---------------------------------------------------------------- pieces

  /** The pieces so far hold the ink of these texts, and are joined by blanks only. */
  ghost predicate HoldsInk(blank: Blank, texts: seq<string>, pieces: seq<Piece>) {
    InkAll(blank, Texts(pieces)) == InkAll(blank, texts) && BlankJoints(blank, pieces)
  }

  lemma BlankJoint(blank: Blank, sep: string)
    requires blank(' ') && blank('\n') && (sep == " " || sep == "\n" || sep == "\n\n")
    ensures Ink(blank, sep) == []
  {
    AllBlank(blank, sep);
  }

  /** Some more pieces, for as many texts of the same ink. */
  lemma PiecesIn(blank: Blank, texts: seq<string>, pieces: seq<Piece>, moreTexts: seq<string>, more: seq<Piece>)
    requires HoldsInk(blank, texts, pieces) && HoldsInk(blank, moreTexts, more)
    ensures HoldsInk(blank, texts + moreTexts, pieces + more)
  {
    hide Ink, InkAll;
    InkAllConcat(blank, texts, moreTexts);
    InkAllConcat(blank, Texts(pieces), Texts(more));
    assert Texts(pieces + more) == Texts(pieces) + Texts(more);
  }

  /** Texts made pieces: the first with one joiner, the others with another. */
  function Attached(texts: seq<string>, first: string, others: string): (pieces: seq<Piece>)
    ensures |pieces| == |texts|
    ensures forall i :: 0 <= i < |texts| ==> pieces[i] == Piece(if i == 0 then first else others, texts[i])
  {
    seq(|texts|, i requires 0 <= i < |texts| => Piece(if i == 0 then first else others, texts[i]))
  }

  lemma AttachedHolds(blank: Blank, texts: seq<string>, first: string, others: string)
    requires Ink(blank, first) == [] && Ink(blank, others) == []
    ensures HoldsInk(blank, texts, Attached(texts, first, others))
  {
    var pieces := Attached(texts, first, others);
    assert Texts(pieces) == texts;
    forall p | p in pieces
      ensures Ink(blank, p.sep) == []
    {
    }
  }

  /** `" ".join(line.strip() for line in block)`. */
  function StrippedText(blank: Blank, block: seq<string>): string {
    if block == [] then ""
    else
      StrippedText(blank, block[..|block| - 1]) + (if |block| == 1 then "" else " ")
      + Strip(blank, block[|block| - 1])
  }

  lemma StripNext(blank: Blank, block: seq<string>, i: nat)
    requires i < |block|
    ensures StrippedText(blank, block[..i + 1]) ==
              StrippedText(blank, block[..i]) + (if i == 0 then "" else " ") + Strip(blank, block[i])
  {
    assert block[..i + 1][..i] == block[..i];
    hide Strip;
  }

  lemma InkOfNext(blank: Blank, block: seq<string>, i: nat, text: string, sep: string)
    requires i < |block| && Ink(blank, text) == InkAll(blank, block[..i]) && Ink(blank, sep) == []
    ensures Ink(blank, text + sep + Strip(blank, block[i])) == InkAll(blank, block[..i + 1])
  {
    StripKeepsInk(blank, block[i]);
    assert block[..i + 1] == block[..i] + [block[i]];
    hide Ink, InkAll, Strip;
    InkAllLast(blank, block[..i], block[i]);
    InkOfThree(blank, text, sep, Strip(blank, block[i]));
  }

  method JoinStripped(blank: Blank, block: seq<string>) returns (text: string)
    requires blank(' ')
    ensures text == StrippedText(blank, block)
    ensures Ink(blank, text) == InkAll(blank, block)
  {
    text := "";
    for i := 0 to |block|
      invariant text == StrippedText(blank, block[..i])
      invariant Ink(blank, text) == InkAll(blank, block[..i])
    {
      var sep := if i == 0 then "" else " ";
      AllBlank(blank, sep);
      hide Ink, InkAll, Strip, StrippedText;
      StripNext(blank, block, i);
      InkOfNext(blank, block, i, text, sep);
      text := text + sep + Strip(blank, block[i]);
    }
    assert block[..|block|] == block;
  }

  /** List items, each with its continuation lines put back on. */
  function ItemsOf(rules: Rules, block: seq<string>): seq<string> {
    if block == [] then []
    else
      var items, line := ItemsOf(rules, block[..|block| - 1]), block[|block| - 1];
      if items != [] && !rules.structured(line)
      then items[|items| - 1 := items[|items| - 1] + " " + Strip(rules.blank, line)]
      else items + [line]
  }

  method Items(rules: Rules, block: seq<string>) returns (items: seq<string>)
    requires rules.blank(' ')
    ensures items == ItemsOf(rules, block)
    ensures InkAll(rules.blank, items) == InkAll(rules.blank, block)
  {
    items := [];
    for i := 0 to |block|
      invariant items == ItemsOf(rules, block[..i])
      invariant InkAll(rules.blank, items) == InkAll(rules.blank, block[..i])
    {
      var line := block[i];
      assert block[..i + 1] == block[..i] + [line];
      assert block[..i + 1][..i] == block[..i];
      InkAllLast(rules.blank, block[..i], line);
      if items != [] && !rules.structured(line) {
        ghost var before := items;
        ContinueItem(rules.blank, items, line);
        items := items[|items| - 1 := items[|items| - 1] + " " + Strip(rules.blank, line)];
      } else {
        InkAllLast(rules.blank, items, line);
        items := items + [line];
      }
    }
    assert block[..|block|] == block;
  }

  lemma ContinueItem(blank: Blank, items: seq<string>, line: string)
    requires items != [] && blank(' ')
    ensures InkAll(blank, items[|items| - 1 := items[|items| - 1] + " " + Strip(blank, line)])
              == InkAll(blank, items) + Ink(blank, line)
  {
    var front, last := items[..|items| - 1], items[|items| - 1];
    var rest := Strip(blank, line);
    BlankSpace(blank);
    StripKeepsInk(blank, line);
    hide *;
    assert items == front + [last];
    assert items[|items| - 1 := last + " " + rest] == front + [last + " " + rest];
    InkAllLast(blank, front, last);
    InkAllLast(blank, front, last + " " + rest);
    InkOfThree(blank, last, " ", rest);
  }

  lemma InkOfThree(blank: Blank, a: string, b: string, c: string)
    ensures Ink(blank, a + b + c) == Ink(blank, a) + Ink(blank, b) + Ink(blank, c)
  {
    hide *;
    InkConcat(blank, a + b, c);
    InkConcat(blank, a, b);
  }

  lemma BlankSpace(blank: Blank)
    requires blank(' ')
    ensures Ink(blank, " ") == []
  {
    AllBlank(blank, " ");
  }

  /** The pieces of list items: whole ones, and the sentences of those too long for one passage. */
  function PiecesOfItems(rules: Rules, items: seq<string>, maxChars: nat): seq<Piece> {
    if items == [] then []
    else
      var last := items[|items| - 1];
      PiecesOfItems(rules, items[..|items| - 1], maxChars)
      + if |last| <= maxChars then [Piece("\n", last)] else Attached(rules.sentences(last), "\n", " ")
  }

  /** Code by its lines, prose by its sentences, the rest by its items. */
  function PiecesOf(rules: Rules, block: Block, maxChars: nat): seq<Piece> {
    match block.kind
    case Code => Attached(block.lines, "\n", "\n")
    case Prose => Attached(rules.sentences(StrippedText(rules.blank, block.lines)), " ", " ")
    case Lines => PiecesOfItems(rules, ItemsOf(rules, block.lines), maxChars)
  }

  lemma NextItem(rules: Rules, items: seq<string>, maxChars: nat, i: nat, pieces: seq<Piece>)
    requires Lossless(rules) && i < |items|
    requires pieces == PiecesOfItems(rules, items[..i], maxChars) && HoldsInk(rules.blank, items[..i], pieces)
    ensures var more := if |items[i]| <= maxChars then [Piece("\n", items[i])]
                        else Attached(rules.sentences(items[i]), "\n", " ");
            && pieces + more == PiecesOfItems(rules, items[..i + 1], maxChars)
            && HoldsInk(rules.blank, items[..i + 1], pieces + more)
  {
    hide Ink, InkAll;
    var blank, item := rules.blank, items[i];
    assert items[..i + 1][..i] == items[..i] && items[..i + 1] == items[..i] + [item];
    BlankJoint(blank, " ");
    BlankJoint(blank, "\n");
    InkOfOne(blank, item);
    assert SplitsWell(rules, item);
    hide PiecesOfItems, Lossless;
    if |item| <= maxChars {
      AttachedHolds(blank, [item], "\n", " ");
      assert Attached([item], "\n", " ") == [Piece("\n", item)];
      PiecesIn(blank, items[..i], pieces, [item], [Piece("\n", item)]);
    } else {
      AttachedHolds(blank, rules.sentences(item), "\n", " ");
      HoldsAlike(blank, rules.sentences(item), [item], Attached(rules.sentences(item), "\n", " "));
      PiecesIn(blank, items[..i], pieces, [item], Attached(rules.sentences(item), "\n", " "));
    }
  }

  /** `_pieces`. */
  method Pieces(rules: Rules, block: Block, maxChars: nat) returns (pieces: seq<Piece>)
    requires Lossless(rules)
    ensures pieces == PiecesOf(rules, block, maxChars)
    ensures HoldsInk(rules.blank, block.lines, pieces)
  {
    BlankJoint(rules.blank, " ");
    BlankJoint(rules.blank, "\n");
    match block.kind {
      case Code =>
        pieces := Attached(block.lines, "\n", "\n");
        AttachedHolds(rules.blank, block.lines, "\n", "\n");
      case Prose =>
        var text := JoinStripped(rules.blank, block.lines);
        assert SplitsWell(rules, text);
        pieces := Attached(rules.sentences(text), " ", " ");
        AttachedHolds(rules.blank, rules.sentences(text), " ", " ");
        HoldsAlike(rules.blank, rules.sentences(text), block.lines, pieces);
      case Lines =>
        pieces := PiecesByItem(rules, block.lines, maxChars);
    }
  }

  /** The loop over the items of a list. */
  method PiecesByItem(rules: Rules, lines: seq<string>, maxChars: nat) returns (pieces: seq<Piece>)
    requires Lossless(rules)
    ensures pieces == PiecesOfItems(rules, ItemsOf(rules, lines), maxChars)
    ensures HoldsInk(rules.blank, lines, pieces)
  {
    var items := Items(rules, lines);
    pieces := [];
    hide Lossless, HoldsInk, PiecesOfItems, ItemsOf;
    NoItems(rules, items, maxChars);
    for i := 0 to |items|
      invariant pieces == PiecesOfItems(rules, items[..i], maxChars)
      invariant HoldsInk(rules.blank, items[..i], pieces)
    {
      NextItem(rules, items, maxChars, i, pieces);
      if |items[i]| <= maxChars {
        pieces := pieces + [Piece("\n", items[i])];
      } else {
        pieces := pieces + Attached(rules.sentences(items[i]), "\n", " ");
      }
    }
    assert items[..|items|] == items;
    HoldsAlike(rules.blank, items, lines, pieces);
  }

  lemma NoItems(rules: Rules, items: seq<string>, maxChars: nat)
    ensures PiecesOfItems(rules, items[..0], maxChars) == [] && HoldsInk(rules.blank, items[..0], [])
  {
  }

  lemma InkOfOne(blank: Blank, text: string)
    ensures InkAll(blank, [text]) == Ink(blank, text)
  {
    InkAllLast(blank, [], text);
    assert [] + [text] == [text];
  }

  // ---------------------------------------------------------------- units

  ghost predicate NoneLong(pieces: seq<Piece>, maxChars: nat) {
    forall p :: p in pieces ==> |p.text| <= maxChars
  }

  /** One piece, whole or cut up; what attaches its later parts is a space. */
  function PartsOf(sep: string, text: string, maxChars: nat): seq<Piece>
    requires maxChars > 0
  {
    Attached(if |text| <= maxChars then [text] else HardParts(text, maxChars), sep, " ")
  }

  method Parts(blank: Blank, sep: string, text: string, maxChars: nat) returns (parts: seq<Piece>)
    requires maxChars > 0 && blank(' ') && Ink(blank, sep) == []
    ensures parts == PartsOf(sep, text, maxChars)
    ensures HoldsInk(blank, [text], parts) && NoneLong(parts, maxChars)
  {
    BlankSpace(blank);
    InkOfOne(blank, text);
    hide Ink, InkAll, HardParts, HoldsInk, OnlySpacesLost;
    if |text| <= maxChars {
      parts := Attached([text], sep, " ");
      AttachedHolds(blank, [text], sep, " ");
    } else {
      var texts := HardSplit(text, maxChars);
      SplitKeepsInk(blank, text, texts);
      parts := Attached(texts, sep, " ");
      AttachedHolds(blank, texts, sep, " ");
      HoldsAlike(blank, texts, [text], parts);
      ShortParts(texts, sep, maxChars);
    }
  }

  lemma ShortParts(texts: seq<string>, sep: string, maxChars: nat)
    requires forall text :: text in texts ==> 0 < |text| <= maxChars
    ensures NoneLong(Attached(texts, sep, " "), maxChars)
  {
    assert forall i :: 0 <= i < |texts| ==> texts[i] in texts;
  }

  /** A blank line between blocks. */
  function BlankLine(): string {
    "\n\n"
  }

  /** The units of a block's pieces: a blank line before the first, each other attached as its piece says. */
  function UnitsOf(pieces: seq<Piece>, maxChars: nat): seq<Piece>
    requires maxChars > 0
  {
    if pieces == [] then []
    else
      var last := pieces[|pieces| - 1];
      UnitsOf(pieces[..|pieces| - 1], maxChars)
      + PartsOf(if |pieces| == 1 then BlankLine() else last.sep, last.text, maxChars)
  }

  /** The loop over the pieces of a block. */
  method UnitsOfPieces(blank: Blank, pieces: seq<Piece>, maxChars: nat) returns (units: seq<Piece>)
    requires maxChars > 0 && blank(' ') && blank('\n') && BlankJoints(blank, pieces)
    ensures units == UnitsOf(pieces, maxChars)
    ensures HoldsInk(blank, Texts(pieces), units) && NoneLong(units, maxChars)
  {
    BlankJoint(blank, BlankLine());
    NoPieces(blank, pieces, maxChars);
    var separator := Some(BlankLine());
    units := [];
    hide *;
    for i := 0 to |pieces|
      invariant HoldsInk(blank, Texts(pieces[..i]), units) && NoneLong(units, maxChars)
      invariant if i == 0 then separator == Some(BlankLine()) else separator == None
      invariant units == UnitsOf(pieces[..i], maxChars)
    {
      NextPiece(blank, pieces, i);
      if separator.None? {
        separator := Some(pieces[i].sep);
      }
      UnitsGrow(pieces, maxChars, i, separator.value);
      var parts := Parts(blank, separator.value, pieces[i].text, maxChars);
      PiecesIn(blank, Texts(pieces[..i]), units, [pieces[i].text], parts);
      ShortTogether(units, parts, maxChars);
      units := units + parts;
      separator := None;
    }
    AllPieces(pieces);
  }

  /** The units of one block. */
  method UnitsOfBlock(rules: Rules, block: Block, maxChars: nat) returns (units: seq<Piece>)
    requires Lossless(rules) && maxChars > 0
    ensures units == UnitsOf(PiecesOf(rules, block, maxChars), maxChars)
    ensures HoldsInk(rules.blank, block.lines, units) && NoneLong(units, maxChars)
  {
    hide PiecesOf, UnitsOf, Ink, InkAll, NoneLong, Texts, BlankJoints;
    var pieces := Pieces(rules, block, maxChars);
    units := UnitsOfPieces(rules.blank, pieces, maxChars);
  }

  lemma NoPieces(blank: Blank, pieces: seq<Piece>, maxChars: nat)
    requires maxChars > 0
    ensures UnitsOf(pieces[..0], maxChars) == [] && HoldsInk(blank, Texts(pieces[..0]), []) && NoneLong([], maxChars)
  {
  }

  lemma AllPieces(pieces: seq<Piece>)
    ensures pieces[..|pieces|] == pieces
  {
  }

  lemma UnitsGrow(pieces: seq<Piece>, maxChars: nat, i: nat, sep: string)
    requires maxChars > 0 && i < |pieces| && sep == if i == 0 then BlankLine() else pieces[i].sep
    ensures UnitsOf(pieces[..i + 1], maxChars)
            == UnitsOf(pieces[..i], maxChars) + PartsOf(sep, pieces[i].text, maxChars)
  {
    hide PartsOf;
    assert pieces[..i + 1][..i] == pieces[..i];
  }

  lemma NextPiece(blank: Blank, pieces: seq<Piece>, i: nat)
    requires i < |pieces| && BlankJoints(blank, pieces)
    ensures Texts(pieces[..i + 1]) == Texts(pieces[..i]) + [pieces[i].text]
    ensures Ink(blank, pieces[i].sep) == []
  {
    assert pieces[i] in pieces;
  }

  lemma ShortTogether(a: seq<Piece>, b: seq<Piece>, maxChars: nat)
    requires NoneLong(a, maxChars) && NoneLong(b, maxChars)
    ensures NoneLong(a + b, maxChars)
  {
  }

  function UnitsOfBlocks(rules: Rules, blocks: seq<Block>, maxChars: nat): seq<Piece>
    requires maxChars > 0
  {
    if blocks == [] then []
    else
      UnitsOfBlocks(rules, blocks[..|blocks| - 1], maxChars)
      + UnitsOf(PiecesOf(rules, blocks[|blocks| - 1], maxChars), maxChars)
  }

  lemma NextBlock(rules: Rules, blocks: seq<Block>, maxChars: nat, i: nat)
    requires maxChars > 0 && i < |blocks|
    ensures UnitsOfBlocks(rules, blocks[..i + 1], maxChars) ==
              UnitsOfBlocks(rules, blocks[..i], maxChars) + UnitsOf(PiecesOf(rules, blocks[i], maxChars), maxChars)
    ensures InkOfBlocks(rules.blank, blocks[..i + 1]) ==
              InkOfBlocks(rules.blank, blocks[..i]) + InkAll(rules.blank, blocks[i].lines)
  {
    assert blocks[..i + 1][..i] == blocks[..i];
  }

  lemma NoBlocks(rules: Rules, blocks: seq<Block>, maxChars: nat)
    requires maxChars > 0
    ensures UnitsOfBlocks(rules, blocks[..0], maxChars) == [] && HoldsInk(rules.blank, [], []) && NoneLong([], maxChars)
    ensures InkAll(rules.blank, []) == InkOfBlocks(rules.blank, blocks[..0])
  {
  }

  /** `_units`: those of its blocks, none longer than `maxChars`, with all the ink of the lines, in order. */
  method Units(rules: Rules, lines: seq<string>, maxChars: nat)
      returns (units: seq<Piece>, ghost blocks: seq<Block>, ghost spans: seq<Stretch>)
    requires Lossless(rules) && maxChars > 0
    ensures AreBlocks(rules, lines, blocks, spans) && units == UnitsOfBlocks(rules, blocks, maxChars)
    ensures HoldsInk(rules.blank, lines, units) && NoneLong(units, maxChars)
  {
    var all, at := Blocks(rules, lines);
    units := [];
    ghost var texts: seq<string> := [];
    NoBlocks(rules, all, maxChars);
    hide *;
    for i := 0 to |all|
      invariant HoldsInk(rules.blank, texts, units) && NoneLong(units, maxChars)
      invariant InkAll(rules.blank, texts) == InkOfBlocks(rules.blank, all[..i])
      invariant units == UnitsOfBlocks(rules, all[..i], maxChars)
    {
      var more := UnitsOfBlock(rules, all[i], maxChars);
      PiecesIn(rules.blank, texts, units, all[i].lines, more);
      ShortTogether(units, more, maxChars);
      InkAllConcat(rules.blank, texts, all[i].lines);
      NextBlock(rules, all, maxChars, i);
      texts := texts + all[i].lines;
      units := units + more;
    }
    assert all[..|all|] == all;
    HoldsAlike(rules.blank, texts, lines, units);
    blocks, spans := all, at;
  }

  lemma HoldsAlike(blank: Blank, a: seq<string>, b: seq<string>, pieces: seq<Piece>)
    requires HoldsInk(blank, a, pieces) && InkAll(blank, a) == InkAll(blank, b)
    ensures HoldsInk(blank, b, pieces)
  {
  }

  // ---------------------------------------------------------------- the whole document

  datatype Chunk = Chunk(text: string, heading: string, index: nat)

  /** How one section was cut. */
  datatype Plan = Plan(section: Section, blocks: seq<Block>, spans: seq<Stretch>, units: seq<Piece>,
                       windows: seq<Window>, passages: seq<string>)

  /** Its units are those of its blocks and hold all of its ink, and its passages are the windows that pack them. */
  ghost predicate Sound(rules: Rules, maxChars: nat, overlap: nat, plan: Plan)
    requires maxChars > 0
  {
    && AreBlocks(rules, plan.section.body, plan.blocks, plan.spans)
    && plan.units == UnitsOfBlocks(rules, plan.blocks, maxChars)
    && HoldsInk(rules.blank, plan.section.body, plan.units) && NoneLong(plan.units, maxChars)
    && Packs(plan.units, maxChars, overlap, plan.windows, |plan.units|)
    && AreJoined(plan.units, plan.windows, plan.passages)
    && forall passage :: passage in plan.passages ==> |passage| <= maxChars
  }

  /** `passage.strip()`: there is something to see. */
  predicate Visible(blank: Blank, passage: string) {
    Strip(blank, passage) != []
  }

  /** The passages of one section that have anything to see, numbered from `first` on. */
  function Kept(blank: Blank, heading: string, passages: seq<string>, first: nat): seq<Chunk> {
    if passages == [] then []
    else
      var front, last := Kept(blank, heading, passages[..|passages| - 1], first), passages[|passages| - 1];
      if Visible(blank, last) then front + [Chunk(last, heading, first + |front|)] else front
  }

  function AllKept(blank: Blank, plans: seq<Plan>): seq<Chunk> {
    if plans == [] then []
    else
      var front, last := AllKept(blank, plans[..|plans| - 1]), plans[|plans| - 1];
      front + Kept(blank, last.section.heading, last.passages, |front|)
  }

  /** Chunks are numbered by their place in the document, and none is too long, or blank. */
  ghost predicate WellNumbered(blank: Blank, maxChars: nat, chunks: seq<Chunk>) {
    forall i :: 0 <= i < |chunks| ==>
      chunks[i].index == i && |chunks[i].text| <= maxChars && Ink(blank, chunks[i].text) != []
  }

  /** What is kept of one passage more, which is number n if it is visible. */
  lemma KeepNext(blank: Blank, heading: string, passages: seq<string>, first: nat, i: nat, n: nat)
    requires i < |passages| && n == first + |Kept(blank, heading, passages[..i], first)|
    ensures Kept(blank, heading, passages[..i + 1], first) ==
              Kept(blank, heading, passages[..i], first)
              + if Visible(blank, passages[i]) then [Chunk(passages[i], heading, n)] else []
  {
    assert passages[..i + 1][..i] == passages[..i];
  }

  lemma NumberNext(blank: Blank, maxChars: nat, chunks: seq<Chunk>, text: string, heading: string)
    requires WellNumbered(blank, maxChars, chunks) && |text| <= maxChars && Visible(blank, text)
    ensures WellNumbered(blank, maxChars, chunks + [Chunk(text, heading, |chunks|)])
  {
    StripKeepsInk(blank, text);
  }

  /** The loop over one section's passages. */
  method KeepVisible(blank: Blank, heading: string, passages: seq<string>, maxChars: nat, chunks: seq<Chunk>)
      returns (more: seq<Chunk>)
    requires WellNumbered(blank, maxChars, chunks) && forall passage :: passage in passages ==> |passage| <= maxChars
    ensures more == chunks + Kept(blank, heading, passages, |chunks|)
    ensures WellNumbered(blank, maxChars, more)
  {
    more := chunks;
    ghost var kept: seq<Chunk> := [];
    assert passages[..0] == [];
    assert Kept(blank, heading, [], |chunks|) == [];
    hide *;
    for i := 0 to |passages|
      invariant kept == Kept(blank, heading, passages[..i], |chunks|) && more == chunks + kept
      invariant WellNumbered(blank, maxChars, more)
    {
      KeepNext(blank, heading, passages, |chunks|, i, |more|);
      assert passages[i] in passages;
      ghost var next: seq<Chunk> := [];
      if Visible(blank, passages[i]) {
        NumberNext(blank, maxChars, more, passages[i], heading);
        next := [Chunk(passages[i], heading, |more|)];
        more := more + [Chunk(passages[i], heading, |more|)];
      }
      Appended(chunks, kept, next);
      kept := kept + next;
    }
    assert passages[..|passages|] == passages;
  }

  lemma Appended(a: seq<Chunk>, b: seq<Chunk>, c: seq<Chunk>)
    ensures (a + b) + c == a + (b + c)
    ensures (a + b) + [] == a + b
  {
  }

  /** One section of the document. */
  method ChunkSection(rules: Rules, section: Section, maxChars: nat, overlap: nat, chunks: seq<Chunk>)
      returns (more: seq<Chunk>, ghost plan: Plan)
    requires Lossless(rules) && maxChars > 0 && WellNumbered(rules.blank, maxChars, chunks)
    ensures Sound(rules, maxChars, overlap, plan) && plan.section == section
    ensures more == chunks + Kept(rules.blank, section.heading, plan.passages, |chunks|)
    ensures WellNumbered(rules.blank, maxChars, more)
  {
    hide Packs, AreJoined, HoldsInk, Lossless, Kept, WellNumbered, AreBlocks, UnitsOfBlocks;
    var units, blocks, spans := Units(rules, section.body, maxChars);
    var passages, windows := Pack(units, maxChars, overlap);
    plan := Plan(section, blocks, spans, units, windows, passages);
    more := KeepVisible(rules.blank, section.heading, passages, maxChars, chunks);
  }

  lemma KeepNextSection(blank: Blank, plans: seq<Plan>, plan: Plan)
    ensures var before := AllKept(blank, plans);
            AllKept(blank, plans + [plan]) == before + Kept(blank, plan.section.heading, plan.passages, |before|)
  {
    assert (plans + [plan])[..|plans|] == plans;
  }

  function SectionsOf(plans: seq<Plan>): (sections: seq<Section>)
    ensures |sections| == |plans| && forall i :: 0 <= i < |sections| ==> sections[i] == plans[i].section
  {
    seq(|plans|, i requires 0 <= i < |plans| => plans[i].section)
  }

  lemma NextPlan(sections: seq<Section>, plans: seq<Plan>, plan: Plan)
    requires |plans| < |sections| && SectionsOf(plans) == sections[..|plans|] && plan.section == sections[|plans|]
    ensures SectionsOf(plans + [plan]) == sections[..|plans| + 1]
  {
    assert SectionsOf(plans + [plan]) == SectionsOf(plans) + [plan.section];
  }

  /** The loop over the sections. */
  method ChunkSections(rules: Rules, sections: seq<Section>, maxChars: nat, overlap: nat)
      returns (chunks: seq<Chunk>, ghost plans: seq<Plan>)
    requires Lossless(rules) && maxChars > 0
    ensures SectionsOf(plans) == sections
    ensures forall plan :: plan in plans ==> Sound(rules, maxChars, overlap, plan)
    ensures chunks == AllKept(rules.blank, plans) && WellNumbered(rules.blank, maxChars, chunks)
  {
    chunks, plans := [], [];
    hide Sound, Lossless, Kept;
    for i := 0 to |sections|
      invariant |plans| == i && SectionsOf(plans) == sections[..i]
      invariant forall plan :: plan in plans ==> Sound(rules, maxChars, overlap, plan)
      invariant chunks == AllKept(rules.blank, plans) && WellNumbered(rules.blank, maxChars, chunks)
    {
      hide AllKept, WellNumbered, SectionsOf;
      ghost var plan;
      chunks, plan := ChunkSection(rules, sections[i], maxChars, overlap, chunks);
      KeepNextSection(rules.blank, plans, plan);
      NextPlan(sections, plans, plan);
      plans := plans + [plan];
    }
    assert sections[..|sections|] == sections;
  }

  // ---------------------------------------------------------------- nothing of the document is lost

  /** The ink of one chunk: what it shares with the chunk before it, and what is its own. */
  datatype Part = Part(shared: string, own: string)

  predicate IsSuffix(tail: string, s: string) {
    |tail| <= |s| && s[|s| - |tail|..] == tail
  }

  /** Chunk i is these parts; what it shares, at most `overlap`, ends the chunk before it, under the same heading. */
  predicate IsPart(blank: Blank, overlap: nat, chunks: seq<Chunk>, i: nat, part: Part)
    requires i < |chunks|
  {
    && Ink(blank, chunks[i].text) == part.shared + part.own && |part.shared| <= overlap
    && (part.shared != [] ==>
          && i > 0 && chunks[i - 1].heading == chunks[i].heading
          && IsSuffix(part.shared, Ink(blank, chunks[i - 1].text)))
  }

  predicate AreParts(blank: Blank, overlap: nat, chunks: seq<Chunk>, parts: seq<Part>) {
    |parts| == |chunks| && forall i: nat :: i < |chunks| ==> IsPart(blank, overlap, chunks, i, parts[i])
  }

  function OwnInk(parts: seq<Part>): string {
    if parts == [] then [] else OwnInk(parts[..|parts| - 1]) + parts[|parts| - 1].own
  }

  lemma {:induction false} OwnInkConcat(a: seq<Part>, b: seq<Part>)
    ensures OwnInk(a + b) == OwnInk(a) + OwnInk(b)
  {
    if b == [] {
      assert a + b == a;
    } else {
      assert (a + b)[..|a + b| - 1] == a + b[..|b| - 1];
      OwnInkConcat(a, b[..|b| - 1]);
    }
  }

  lemma OwnInkOfOne(part: Part)
    ensures OwnInk([part]) == part.own
  {
    assert [part][..0] == [] && OwnInk([]) == [];
  }

  lemma SamePart(blank: Blank, overlap: nat, some: seq<Chunk>, j: nat, all: seq<Chunk>, i: nat, part: Part)
    requires j < |some| && i < |all| && j <= i && IsPart(blank, overlap, some, j, part)
    requires all[i] == some[j] && (j > 0 ==> all[i - 1] == some[j - 1])
    ensures IsPart(blank, overlap, all, i, part)
  {
    hide Ink, IsSuffix;
  }

  lemma PartsConcat(blank: Blank, overlap: nat, chunks: seq<Chunk>, parts: seq<Part>, more: seq<Chunk>,
                    next: seq<Part>)
    requires AreParts(blank, overlap, chunks, parts) && AreParts(blank, overlap, more, next)
    ensures AreParts(blank, overlap, chunks + more, parts + next)
  {
    hide IsPart;
    var all, both := chunks + more, parts + next;
    forall i: nat | i < |all| ensures IsPart(blank, overlap, all, i, both[i]) {
      if i < |chunks| {
        SamePart(blank, overlap, chunks, i, all, i, parts[i]);
      } else {
        SamePart(blank, overlap, more, i - |chunks|, all, i, next[i - |chunks|]);
      }
    }
  }

  lemma {:induction false} InkIsShorter(blank: Blank, s: string)
    ensures |Ink(blank, s)| <= |s|
  {
    if s == [] {
    } else {
      InkIsShorter(blank, s[..|s| - 1]);
    }
  }

  lemma {:induction false} InkWithinSize(blank: Blank, pieces: seq<Piece>)
    ensures |InkAll(blank, Texts(pieces))| <= Size(pieces)
  {
    hide Ink;
    if pieces == [] {
    } else {
      var front, last := pieces[..|pieces| - 1], pieces[|pieces| - 1];
      InkWithinSize(blank, front);
      InkIsShorter(blank, last.text);
      assert Texts(pieces)[..|pieces| - 1] == Texts(front);
    }
  }

  /** The text of these pieces, cut in two. */
  lemma InkInTwo(blank: Blank, pieces: seq<Piece>, low: nat, mid: nat, high: nat)
    requires low <= mid <= high <= |pieces|
    ensures InkAll(blank, Texts(pieces[low..high]))
            == InkAll(blank, Texts(pieces[low..mid])) + InkAll(blank, Texts(pieces[mid..high]))
  {
    hide InkAll;
    assert Texts(pieces[low..high]) == Texts(pieces[low..mid]) + Texts(pieces[mid..high]);
    InkAllConcat(blank, Texts(pieces[low..mid]), Texts(pieces[mid..high]));
  }

  /** Passage i of a section: its window's tail shared with the one before, and its own part. */
  lemma PassageParts(blank: Blank, units: seq<Piece>, maxChars: nat, overlap: nat, windows: seq<Window>,
                     passages: seq<string>, i: nat) returns (part: Part)
    requires Packs(units, maxChars, overlap, windows, |units|) && AreJoined(units, windows, passages)
    requires BlankJoints(blank, units) && blank('\n') && i < |passages|
    ensures Ink(blank, passages[i]) == part.shared + part.own && |part.shared| <= overlap
    ensures part.own == InkAll(blank, Texts(Own(units, windows, i)))
    ensures part.shared != [] ==> i > 0 && IsSuffix(part.shared, Ink(blank, passages[i - 1]))
  {
    hide Ink, InkAll, Texts, Size, TooLong, Join;
    WindowFacts(units, maxChars, overlap, windows, i);
    var w := windows[i];
    var mid := if i == 0 then 0 else windows[i - 1].high;
    InkOfWindow(blank, units, w);
    InkInTwo(blank, units, w.low, mid, w.high);
    part := Part(InkAll(blank, Texts(units[w.low..mid])), InkAll(blank, Texts(units[mid..w.high])));
    if i == 0 {
      NoInkInNothing(blank, units, w.low);
    } else {
      InkOfWindow(blank, units, windows[i - 1]);
      InkInTwo(blank, units, windows[i - 1].low, w.low, mid);
      InkWithinSize(blank, units[w.low..mid]);
    }
  }

  lemma NoInkInNothing(blank: Blank, pieces: seq<Piece>, i: nat)
    requires i <= |pieces|
    ensures InkAll(blank, Texts(pieces[i..i])) == []
  {
    assert pieces[i..i] == [];
  }

  lemma WindowFacts(units: seq<Piece>, maxChars: nat, overlap: nat, windows: seq<Window>, i: nat)
    requires Packs(units, maxChars, overlap, windows, |units|) && i < |windows|
    ensures Within(windows[i], |units|) && (i == 0 ==> windows[i].low == 0)
    ensures i > 0 ==>
              && Within(windows[i - 1], |units|)
              && windows[i - 1].low < windows[i].low <= windows[i - 1].high < windows[i].high
              && Size(units[windows[i].low..windows[i - 1].high]) <= overlap
  {
    hide Size, TooLong;
    if i > 0 {
      assert Follows(units, maxChars, overlap, windows[i - 1], windows[i - 1 + 1]);
    }
  }

  /** Its text has the ink of its pieces. */
  lemma InkOfWindow(blank: Blank, units: seq<Piece>, w: Window)
    requires Within(w, |units|) && BlankJoints(blank, units) && blank('\n')
    ensures Ink(blank, Join(In(units, w))) == InkAll(blank, Texts(units[w.low..w.high]))
  {
    hide Ink, InkAll, Texts, Join;
    JoinKeepsInk(blank, units[w.low..w.high]);
  }

  lemma NoInkNoPassage(blank: Blank, passage: string)
    ensures Visible(blank, passage) <==> Ink(blank, passage) != []
  {
    StripKeepsInk(blank, passage);
  }

  /** One visible passage more; `before` is the passage before it, if it shares anything. */
  lemma PartOfNext(blank: Blank, overlap: nat, kept: seq<Chunk>, parts: seq<Part>, chunk: Chunk, part: Part,
                   before: string)
    requires AreParts(blank, overlap, kept, parts)
    requires Ink(blank, chunk.text) == part.shared + part.own && |part.shared| <= overlap
    requires part.shared != [] ==> IsSuffix(part.shared, Ink(blank, before))
    requires part.shared != [] && Visible(blank, before) ==> EndsWith(kept, before, chunk.heading)
    ensures AreParts(blank, overlap, kept + [chunk], parts + [part])
    ensures OwnInk(parts + [part]) == OwnInk(parts) + part.own
  {
    hide Ink, AreParts, OwnInk, Visible, IsSuffix;
    NoInkNoPassage(blank, before);
    NoSuffix(part.shared, Ink(blank, before));
    assert IsPart(blank, overlap, kept + [chunk], |kept|, part);
    PartJoins(blank, overlap, kept, parts, chunk, part);
    OwnInkConcat(parts, [part]);
    OwnInkOfOne(part);
  }

  /** The last chunk is this passage. */
  predicate EndsWith(chunks: seq<Chunk>, passage: string, heading: string) {
    chunks != [] && chunks[|chunks| - 1].text == passage && chunks[|chunks| - 1].heading == heading
  }

  lemma NoSuffix(tail: string, s: string)
    requires tail != [] ==> IsSuffix(tail, s)
    ensures s == [] ==> tail == []
  {
  }

  lemma PartJoins(blank: Blank, overlap: nat, chunks: seq<Chunk>, parts: seq<Part>, chunk: Chunk, part: Part)
    requires AreParts(blank, overlap, chunks, parts) && IsPart(blank, overlap, chunks + [chunk], |chunks|, part)
    ensures AreParts(blank, overlap, chunks + [chunk], parts + [part])
  {
    hide IsPart;
    var all, both := chunks + [chunk], parts + [part];
    forall i: nat | i < |all| ensures IsPart(blank, overlap, all, i, both[i]) {
      if i < |chunks| {
        SamePart(blank, overlap, chunks, i, all, i, parts[i]);
      }
    }
  }

  lemma OwnGrows(blank: Blank, units: seq<Piece>, windows: seq<Window>, n: nat)
    requires 0 < n <= |windows|
    ensures InkAll(blank, Texts(AllOwn(units, windows, n)))
            == InkAll(blank, Texts(AllOwn(units, windows, n - 1))) + InkAll(blank, Texts(Own(units, windows, n - 1)))
  {
    hide Own, InkAll;
    var a, b := AllOwn(units, windows, n - 1), Own(units, windows, n - 1);
    assert Texts(a + b) == Texts(a) + Texts(b);
    InkAllConcat(blank, Texts(a), Texts(b));
  }

  /** These are the parts of what is kept of the passages of one section below n. */
  ghost predicate PartsBelow(blank: Blank, heading: string, units: seq<Piece>, overlap: nat, windows: seq<Window>,
                             passages: seq<string>, first: nat, n: nat, parts: seq<Part>)
    requires n <= |passages| == |windows|
  {
    var kept := Kept(blank, heading, passages[..n], first);
    && AreParts(blank, overlap, kept, parts)
    && OwnInk(parts) == InkAll(blank, Texts(AllOwn(units, windows, n)))
    && (n > 0 && Visible(blank, passages[n - 1]) ==> EndsWith(kept, passages[n - 1], heading))
  }

  lemma NoPartsYet(blank: Blank, heading: string, units: seq<Piece>, overlap: nat, windows: seq<Window>,
                   passages: seq<string>, first: nat)
    requires |passages| == |windows|
    ensures PartsBelow(blank, heading, units, overlap, windows, passages, first, 0, [])
  {
    assert passages[..0] == [] && Texts([]) == [];
  }

  /** The next passage: its parts join the others if there is anything to see. */
  lemma NextParts(blank: Blank, heading: string, units: seq<Piece>, overlap: nat, windows: seq<Window>,
                  passages: seq<string>, first: nat, n: nat, parts: seq<Part>, part: Part)
      returns (next: seq<Part>)
    requires n < |passages| == |windows|
    requires PartsBelow(blank, heading, units, overlap, windows, passages, first, n, parts)
    requires Ink(blank, passages[n]) == part.shared + part.own && |part.shared| <= overlap
    requires part.own == InkAll(blank, Texts(Own(units, windows, n)))
    requires part.shared != [] ==> n > 0 && IsSuffix(part.shared, Ink(blank, passages[n - 1]))
    ensures PartsBelow(blank, heading, units, overlap, windows, passages, first, n + 1, next)
  {
    hide AreParts, OwnInk, InkAll, Texts, AllOwn, Own, Kept, Visible, Ink, IsSuffix;
    var kept := Kept(blank, heading, passages[..n], first);
    KeepNext(blank, heading, passages, first, n, first + |kept|);
    OwnGrows(blank, units, windows, n + 1);
    if Visible(blank, passages[n]) {
      var before := if n > 0 then passages[n - 1] else "";
      PartOfNext(blank, overlap, kept, parts, Chunk(passages[n], heading, first + |kept|), part, before);
      next := parts + [part];
    } else {
      NoInkNoPassage(blank, passages[n]);
      assert part.own == [];
      assert kept + [] == kept;
      next := parts;
    }
  }

  /** Passages have parts that hold the windows' own ink. */
  lemma {:induction false} KeptParts(blank: Blank, heading: string, units: seq<Piece>, maxChars: nat, overlap: nat,
                                     windows: seq<Window>, passages: seq<string>, first: nat, n: nat)
      returns (parts: seq<Part>)
    requires Packs(units, maxChars, overlap, windows, |units|) && AreJoined(units, windows, passages)
    requires BlankJoints(blank, units) && blank('\n') && n <= |passages| == |windows|
    ensures PartsBelow(blank, heading, units, overlap, windows, passages, first, n, parts)
    decreases n
  {
    hide Packs, AreJoined, BlankJoints, PartsBelow, Ink, InkAll, Own, Texts, IsSuffix;
    if n == 0 {
      parts := [];
      NoPartsYet(blank, heading, units, overlap, windows, passages, first);
    } else {
      parts := KeptParts(blank, heading, units, maxChars, overlap, windows, passages, first, n - 1);
      var part := PassageParts(blank, units, maxChars, overlap, windows, passages, n - 1);
      parts := NextParts(blank, heading, units, overlap, windows, passages, first, n - 1, parts, part);
    }
  }

  /** The chunks of one section. */
  lemma SectionParts(rules: Rules, maxChars: nat, overlap: nat, plan: Plan, first: nat) returns (parts: seq<Part>)
    requires maxChars > 0 && Sound(rules, maxChars, overlap, plan) && rules.blank('\n')
    ensures AreParts(rules.blank, overlap, Kept(rules.blank, plan.section.heading, plan.passages, first), parts)
    ensures OwnInk(parts) == InkAll(rules.blank, plan.section.body)
  {
    hide AreBlocks, UnitsOfBlocks, Packs, NoneLong, Ink, InkAll, Kept, AreParts, OwnInk, AllOwn;
    assert AreJoined(plan.units, plan.windows, plan.passages);
    parts := KeptParts(rules.blank, plan.section.heading, plan.units, maxChars, overlap, plan.windows, plan.passages,
                       first, |plan.passages|);
    assert plan.passages[..|plan.passages|] == plan.passages;
    TailsDropped(plan.units, maxChars, overlap, plan.windows);
  }

  /** The lines of the sections, one after the other. */
  function Bodies(sections: seq<Section>): seq<string> {
    if sections == [] then [] else Bodies(sections[..|sections| - 1]) + sections[|sections| - 1].body
  }

  lemma NextBody(plans: seq<Plan>)
    requires plans != []
    ensures Bodies(SectionsOf(plans)) == Bodies(SectionsOf(plans[..|plans| - 1])) + plans[|plans| - 1].section.body
  {
    assert SectionsOf(plans)[..|plans| - 1] == SectionsOf(plans[..|plans| - 1]);
  }

  lemma {:induction false} PlansParts(rules: Rules, maxChars: nat, overlap: nat, plans: seq<Plan>)
      returns (parts: seq<Part>)
    requires maxChars > 0 && rules.blank('\n') && forall plan :: plan in plans ==> Sound(rules, maxChars, overlap, plan)
    ensures AreParts(rules.blank, overlap, AllKept(rules.blank, plans), parts)
    ensures OwnInk(parts) == InkAll(rules.blank, Bodies(SectionsOf(plans)))
    decreases |plans|
  {
    hide Sound, Kept, IsPart;
    if plans == [] {
      return [];
    }
    hide AreParts, InkAll, OwnInk, Bodies, SectionsOf;
    var front, last := plans[..|plans| - 1], plans[|plans| - 1];
    assert last in plans;
    parts := PlansParts(rules, maxChars, overlap, front);
    var before := AllKept(rules.blank, front);
    var kept := Kept(rules.blank, last.section.heading, last.passages, |before|);
    var more := SectionParts(rules, maxChars, overlap, last, |before|);
    PartsConcat(rules.blank, overlap, before, parts, kept, more);
    OwnInkConcat(parts, more);
    NextBody(plans);
    InkAllConcat(rules.blank, Bodies(SectionsOf(front)), last.section.body);
    parts := parts + more;
  }

  /** The document's lines but its headings. */
  function BodyLines(rules: Rules, headings: bool, lines: seq<string>, upto: nat): seq<string>
    requires upto <= |lines|
  {
    if upto == 0 then []
    else
      BodyLines(rules, headings, lines, upto - 1)
      + if IsHeading(rules, headings, lines, upto - 1) then [] else [lines[upto - 1]]
  }

  lemma {:induction false} NoHeadings(rules: Rules, headings: bool, lines: seq<string>, low: nat, high: nat)
    requires low <= high <= |lines| && forall i: nat :: low <= i < high ==> !IsHeading(rules, headings, lines, i)
    ensures BodyLines(rules, headings, lines, high) == BodyLines(rules, headings, lines, low) + lines[low..high]
    decreases high
  {
    hide IsHeading;
    if low < high {
      NoHeadings(rules, headings, lines, low, high - 1);
      assert lines[low..high] == lines[low..high - 1] + [lines[high - 1]];
    } else {
      assert lines[low..high] == [];
    }
  }

  /** Up to the start of section n, the sections have all the lines but the headings. */
  lemma {:induction false} BodiesAreLines(rules: Rules, headings: bool, lines: seq<string>, sections: seq<Section>,
                                          starts: seq<nat>, n: nat)
    requires Sectioned(rules, headings, lines, sections, starts, |lines|) && n <= |sections|
    ensures starts[n] <= |lines| && Bodies(sections[..n]) == BodyLines(rules, headings, lines, starts[n])
    decreases n
  {
    hide IsHeading;
    if n == 0 {
      assert sections[..0] == [];
    } else {
      BodiesAreLines(rules, headings, lines, sections, starts, n - 1);
      assert EndsAtHeading(rules, headings, lines, sections, starts, |lines|, n - 1);
      var next := starts[n];
      NoHeadings(rules, headings, lines, starts[n - 1], next - 1);
      assert sections[..n][..n - 1] == sections[..n - 1];
    }
  }

  /**
    The chunks, what each shares with the one before it dropped, hold exactly the ink of the
    document's lines but its headings, in order.
    */
  ghost predicate KeepsInk(rules: Rules, headings: bool, overlap: nat, lines: seq<string>, chunks: seq<Chunk>) {
    exists parts :: AreParts(rules.blank, overlap, chunks, parts)
                    && OwnInk(parts) == InkAll(rules.blank, BodyLines(rules, headings, lines, |lines|))
  }

  lemma {:induction false} DocumentKeepsInk(rules: Rules, headings: bool, lines: seq<string>, maxChars: nat,
                                            overlap: nat, starts: seq<nat>, plans: seq<Plan>)
    requires maxChars > 0 && rules.blank('\n') && plans != [] && |starts| == |plans|
    requires Sectioned(rules, headings, lines, SectionsOf(plans[..|plans| - 1]), starts, |lines|)
    requires IsSection(rules, headings, lines, plans[|plans| - 1].section, starts[|starts| - 1], |lines|)
    requires forall plan :: plan in plans ==> Sound(rules, maxChars, overlap, plan)
    ensures KeepsInk(rules, headings, overlap, lines, AllKept(rules.blank, plans))
  {
    hide Sectioned, Sound, AllKept, AreParts, OwnInk, InkAll, IsHeading;
    var parts := PlansParts(rules, maxChars, overlap, plans);
    var n := |plans| - 1;
    var front := SectionsOf(plans[..n]);
    BodiesAreLines(rules, headings, lines, front, starts, n);
    assert front[..n] == front && SectionsOf(plans)[..n] == front;
    NoHeadings(rules, headings, lines, starts[n], |lines|);
    assert Bodies(SectionsOf(plans)) == BodyLines(rules, headings, lines, |lines|);
  }

  lemma NewlineIsBlank(rules: Rules)
    requires Lossless(rules)
    ensures rules.blank('\n')
  {
  }

  lemma {:induction false} AllBodyLines(rules: Rules, lines: seq<string>, upto: nat)
    requires upto <= |lines|
    ensures BodyLines(rules, false, lines, upto) == lines[..upto]
  {
    if upto == 0 {
    } else {
      AllBodyLines(rules, lines, upto - 1);
      assert lines[..upto] == lines[..upto - 1] + [lines[upto - 1]];
    }
  }

  /** Of a text read without headings, the chunks hold exactly the ink. */
  lemma PlainTextKeepsInk(rules: Rules, overlap: nat, text: string, chunks: seq<Chunk>) returns (parts: seq<Part>)
    requires LineEndsAreBlank(rules.blank) && KeepsInk(rules, false, overlap, LinesOf(text), chunks)
    ensures AreParts(rules.blank, overlap, chunks, parts) && OwnInk(parts) == Ink(rules.blank, text)
  {
    hide AreParts, OwnInk, Ink, InkAll, LineEndsAreBlank, LinesOf, BodyLines;
    var lines := LinesOf(text);
    parts :| AreParts(rules.blank, overlap, chunks, parts)
             && OwnInk(parts) == InkAll(rules.blank, BodyLines(rules, false, lines, |lines|));
    AllBodyLines(rules, lines, |lines|);
    assert lines[..|lines|] == lines;
    LinesKeepInk(rules.blank, text);
  }

  /**
    `chunk_document`: refused unless 0 <= overlap < maxChars. Otherwise the sections are the
    stretches of lines between headings; every section's units hold all its ink, and its passages
    are the windows that pack them; the chunks are those passages, in order, that have anything to
    see, and none is longer than `maxChars`. Nothing is lost: the chunks, without what each shares
    with the one before, hold all the ink but the headings', once.
    */
  method ChunkDocument(rules: Rules, text: string, maxChars: int, overlap: int, headings: bool)
      returns (r: Option<seq<Chunk>>, ghost starts: seq<nat>, ghost plans: seq<Plan>)
    requires Lossless(rules)
    ensures r.None? <==> !(0 <= overlap < maxChars)
    ensures r.Some? ==>
      var lines := LinesOf(text);
      && plans != [] && |starts| == |plans|
      && Sectioned(rules, headings, lines, SectionsOf(plans[..|plans| - 1]), starts, |lines|)
      && IsSection(rules, headings, lines, plans[|plans| - 1].section, starts[|starts| - 1], |lines|)
      && (forall plan :: plan in plans ==> Sound(rules, maxChars, overlap, plan))
      && r.value == AllKept(rules.blank, plans)
      && WellNumbered(rules.blank, maxChars, r.value)
      && KeepsInk(rules, headings, overlap, lines, r.value)
  {
    starts, plans := [], [];
    if !(0 <= overlap < maxChars) {
      return None, starts, plans;
    }
    hide Sectioned, IsSection, Sound, Lossless, LinesOf, AllKept, WellNumbered, KeepsInk;
    var sections, chunks;
    var lines := LinesOf(text);
    sections, starts := Sections(rules, headings, lines);
    chunks, plans := ChunkSections(rules, sections, maxChars, overlap);
    assert SectionsOf(plans[..|plans| - 1]) == sections[..|sections| - 1];
    NewlineIsBlank(rules);
    DocumentKeepsInk(rules, headings, lines, maxChars, overlap, starts, plans);
    r := Some(chunks);
  }
}
