/** How a block of the document reads in its passages: what stands between its pieces. */
module Layouts {
  import opened Bytes
  import opened Chunking
  import opened Markup
  import opened Passages

  // ---------------------------------------------------------------- joining texts

  /** `sep.join(texts)`. */
  function JoinedBy(sep: string, texts: seq<string>): string {
    if texts == [] then ""
    else if |texts| == 1 then texts[0]
    else JoinedBy(sep, texts[..|texts| - 1]) + sep + texts[|texts| - 1]
  }

  lemma JoinNext(sep: string, texts: seq<string>, last: string)
    requires texts != []
    ensures JoinedBy(sep, texts + [last]) == JoinedBy(sep, texts) + sep + last
  {
    assert (texts + [last])[..|texts|] == texts;
  }

  /** Two runs of pieces, neither empty, are attached as the second one's first piece says. */
  lemma {:induction false} ConcatTwo(a: seq<Piece>, b: seq<Piece>)
    requires a != [] && b != []
    ensures Concat(a + b) == Concat(a) + b[0].sep + Concat(b)
    decreases |b|
  {
    hide Concat;
    var front, last := b[..|b| - 1], b[|b| - 1];
    assert a + b == a + front + [last] && b == front + [last];
    ConcatLast(a + front, last);
    ConcatLast(front, last);
    if front == [] {
      assert a + front == a;
      ConcatAtomic(last);
    } else {
      ConcatTwo(a, front);
    }
  }

  lemma ConcatAtomic(piece: Piece)
    ensures Concat([piece]) == piece.text
  {
  }

  /** Pieces that are all attached alike. */
  predicate AttachedBy(sep: string, pieces: seq<Piece>) {
    forall i :: 0 < i < |pieces| ==> pieces[i].sep == sep
  }

  lemma {:induction false} ConcatAlike(sep: string, pieces: seq<Piece>)
    requires AttachedBy(sep, pieces)
    ensures Concat(pieces) == JoinedBy(sep, Texts(pieces))
  {
    if |pieces| > 1 {
      var front, last := pieces[..|pieces| - 1], pieces[|pieces| - 1];
      ConcatAlike(sep, front);
      assert Texts(pieces) == Texts(front) + [last.text];
      JoinNext(sep, Texts(front), last.text);
    }
  }

  // ---------------------------------------------------------------- pieces that are too long

  /** A text that fits, as it is; one that does not, in its parts, with a space between them. */
  function Fitted(text: string, maxChars: nat): string
    requires maxChars > 0
  {
    if |text| <= maxChars then text else JoinedBy(" ", HardParts(text, maxChars))
  }

  function AllFitted(texts: seq<string>, maxChars: nat): (fitted: seq<string>)
    requires maxChars > 0
    ensures |fitted| == |texts| && forall i :: 0 <= i < |texts| ==> fitted[i] == Fitted(texts[i], maxChars)
  {
    seq(|texts|, i requires 0 <= i < |texts| => Fitted(texts[i], maxChars))
  }

  lemma AllFit(texts: seq<string>, maxChars: nat)
    requires maxChars > 0 && forall i :: 0 <= i < |texts| ==> |texts[i]| <= maxChars
    ensures AllFitted(texts, maxChars) == texts
  {
  }

  lemma PartsRead(sep: string, text: string, maxChars: nat)
    requires maxChars > 0
    ensures var parts := PartsOf(sep, text, maxChars);
            parts != [] && parts[0].sep == sep && Concat(parts) == Fitted(text, maxChars)
  {
    var parts := PartsOf(sep, text, maxChars);
    if |text| <= maxChars {
      assert parts == [Piece(sep, text)];
    } else {
      assert Texts(parts) == HardParts(text, maxChars);
      ConcatAlike(" ", parts);
    }
  }

  /** The pieces, each as it reads. */
  function FittedPieces(pieces: seq<Piece>, maxChars: nat): (fitted: seq<Piece>)
    requires maxChars > 0
    ensures |fitted| == |pieces|
    ensures forall i :: 0 <= i < |pieces| ==> fitted[i] == Piece(pieces[i].sep, Fitted(pieces[i].text, maxChars))
  {
    seq(|pieces|, i requires 0 <= i < |pieces| => Piece(pieces[i].sep, Fitted(pieces[i].text, maxChars)))
  }

  /** The units of a block begin with a blank line, and read as its pieces. */
  lemma {:induction false} UnitsRead(pieces: seq<Piece>, maxChars: nat)
    requires maxChars > 0 && pieces != []
    ensures var units := UnitsOf(pieces, maxChars);
            units != [] && units[0].sep == "\n\n" && Concat(units) == Concat(FittedPieces(pieces, maxChars))
    decreases |pieces|
  {
    hide PartsOf, Fitted, Concat;
    var front, last := pieces[..|pieces| - 1], pieces[|pieces| - 1];
    var fitted := FittedPieces(pieces, maxChars);
    assert fitted == FittedPieces(front, maxChars) + [Piece(last.sep, Fitted(last.text, maxChars))];
    ConcatLast(FittedPieces(front, maxChars), Piece(last.sep, Fitted(last.text, maxChars)));
    if front == [] {
      PartsRead("\n\n", last.text, maxChars);
      assert UnitsOf(front, maxChars) == [];
      assert UnitsOf(pieces, maxChars) == PartsOf("\n\n", last.text, maxChars);
    } else {
      UnitsRead(front, maxChars);
      PartsRead(last.sep, last.text, maxChars);
      ConcatTwo(UnitsOf(front, maxChars), PartsOf(last.sep, last.text, maxChars));
    }
  }

  // ---------------------------------------------------------------- one block

  function AllStripped(blank: Blank, lines: seq<string>): (stripped: seq<string>)
    ensures |stripped| == |lines| && forall i :: 0 <= i < |lines| ==> stripped[i] == Strip(blank, lines[i])
  {
    seq(|lines|, i requires 0 <= i < |lines| => Strip(blank, lines[i]))
  }

  /** A list item, whole; if it is too long, by its sentences. */
  function ItemText(rules: Rules, item: string, maxChars: nat): string
    requires maxChars > 0
  {
    if |item| <= maxChars then item else JoinedBy(" ", AllFitted(rules.sentences(item), maxChars))
  }

  function ItemTexts(rules: Rules, items: seq<string>, maxChars: nat): (texts: seq<string>)
    requires maxChars > 0
    ensures |texts| == |items| && forall i :: 0 <= i < |items| ==> texts[i] == ItemText(rules, items[i], maxChars)
  {
    seq(|items|, i requires 0 <= i < |items| => ItemText(rules, items[i], maxChars))
  }

  /**
    How a block reads: code line by line, prose with a space between its sentences, which are
    those of its lines with a space between them, and a list item by item.
    */
  function BlockText(rules: Rules, block: Block, maxChars: nat): string
    requires maxChars > 0
  {
    match block.kind
    case Code => JoinedBy("\n", AllFitted(block.lines, maxChars))
    case Prose =>
      var text := JoinedBy(" ", AllStripped(rules.blank, block.lines));
      JoinedBy(" ", AllFitted(rules.sentences(text), maxChars))
    case Lines => JoinedBy("\n", ItemTexts(rules, ItemsOf(rules, block.lines), maxChars))
  }

  lemma {:induction false} StrippedReads(blank: Blank, block: seq<string>)
    ensures StrippedText(blank, block) == JoinedBy(" ", AllStripped(blank, block))
  {
    hide Strip;
    if |block| == 1 {
      assert block[..0] == [];
    } else if |block| > 1 {
      var front, last := block[..|block| - 1], block[|block| - 1];
      StrippedReads(blank, front);
      assert AllStripped(blank, block) == AllStripped(blank, front) + [Strip(blank, last)];
      JoinNext(" ", AllStripped(blank, front), Strip(blank, last));
    }
  }

  lemma AttachedReads(texts: seq<string>, first: string, others: string, maxChars: nat)
    requires maxChars > 0
    ensures var fitted := FittedPieces(Attached(texts, first, others), maxChars);
            AttachedBy(others, fitted) && Concat(fitted) == JoinedBy(others, AllFitted(texts, maxChars))
  {
    hide Fitted, Concat;
    var fitted := FittedPieces(Attached(texts, first, others), maxChars);
    assert Texts(fitted) == AllFitted(texts, maxChars);
    ConcatAlike(others, fitted);
  }

  /** The pieces of one item. */
  function PiecesOfItem(rules: Rules, item: string, maxChars: nat): seq<Piece> {
    if |item| <= maxChars then [Piece("\n", item)] else Attached(rules.sentences(item), "\n", " ")
  }

  lemma ItemReads(rules: Rules, item: string, maxChars: nat)
    requires maxChars > 0 && Lossless(rules)
    ensures var pieces := PiecesOfItem(rules, item, maxChars);
            && pieces != [] && pieces[0].sep == "\n"
            && FittedPieces(pieces, maxChars) != [] && FittedPieces(pieces, maxChars)[0].sep == "\n"
            && Concat(FittedPieces(pieces, maxChars)) == ItemText(rules, item, maxChars)
  {
    assert SplitsWell(rules, item);
    if |item| <= maxChars {
      assert FittedPieces([Piece("\n", item)], maxChars) == [Piece("\n", item)];
    } else {
      AttachedReads(rules.sentences(item), "\n", " ", maxChars);
    }
  }

  lemma PiecesNext(rules: Rules, items: seq<string>, maxChars: nat)
    requires items != []
    ensures PiecesOfItems(rules, items, maxChars)
            == PiecesOfItems(rules, items[..|items| - 1], maxChars) + PiecesOfItem(rules, items[|items| - 1], maxChars)
    ensures PiecesOfItems(rules, [], maxChars) == []
  {
  }

  lemma FittedTwo(a: seq<Piece>, b: seq<Piece>, maxChars: nat)
    requires maxChars > 0
    ensures FittedPieces(a + b, maxChars) == FittedPieces(a, maxChars) + FittedPieces(b, maxChars)
  {
    hide Fitted;
  }

  lemma {:induction false} ItemsRead(rules: Rules, items: seq<string>, maxChars: nat)
    requires maxChars > 0 && Lossless(rules) && items != []
    ensures var pieces := PiecesOfItems(rules, items, maxChars);
            && pieces != [] && FittedPieces(pieces, maxChars) != []
            && Concat(FittedPieces(pieces, maxChars)) == JoinedBy("\n", ItemTexts(rules, items, maxChars))
    decreases |items|
  {
    hide Lossless, Fitted, Concat, ItemText, Attached, PiecesOfItems, PiecesOfItem, JoinedBy;
    var front, last := items[..|items| - 1], items[|items| - 1];
    PiecesNext(rules, items, maxChars);
    ItemReads(rules, last, maxChars);
    var pieces, more := PiecesOfItems(rules, front, maxChars), PiecesOfItem(rules, last, maxChars);
    FittedTwo(pieces, more, maxChars);
    assert ItemTexts(rules, items, maxChars) == ItemTexts(rules, front, maxChars) + [ItemText(rules, last, maxChars)];
    if front == [] {
      JoinOne("\n", ItemText(rules, last, maxChars));
      assert pieces == [] && pieces + more == more;
      assert ItemTexts(rules, items, maxChars) == [ItemText(rules, last, maxChars)];
    } else {
      ItemsRead(rules, front, maxChars);
      ConcatTwo(FittedPieces(pieces, maxChars), FittedPieces(more, maxChars));
      JoinNext("\n", ItemTexts(rules, front, maxChars), ItemText(rules, last, maxChars));
    }
  }

  lemma JoinOne(sep: string, text: string)
    ensures JoinedBy(sep, [text]) == text
  {
  }

  lemma {:induction false} SomeItem(rules: Rules, block: seq<string>)
    requires block != []
    ensures ItemsOf(rules, block) != []
  {
  }

  /** The units of a block read as the block does. */
  lemma BlockReads(rules: Rules, block: Block, maxChars: nat)
    requires maxChars > 0 && Lossless(rules) && block.lines != []
    ensures var units := UnitsOf(PiecesOf(rules, block, maxChars), maxChars);
            units != [] && units[0].sep == "\n\n" && Concat(units) == BlockText(rules, block, maxChars)
  {
    hide Fitted, Concat, ItemText, Attached, PiecesOfItems, JoinedBy, UnitsOf, AllStripped, StrippedText, ItemsOf;
    var pieces := PiecesOf(rules, block, maxChars);
    match block.kind {
      case Code => AttachedReads(block.lines, "\n", "\n", maxChars);
      case Prose =>
        StrippedReads(rules.blank, block.lines);
        assert SplitsWell(rules, StrippedText(rules.blank, block.lines));
        AttachedReads(rules.sentences(StrippedText(rules.blank, block.lines)), " ", " ", maxChars);
      case Lines =>
        SomeItem(rules, block.lines);
        ItemsRead(rules, ItemsOf(rules, block.lines), maxChars);
    }
    UnitsRead(pieces, maxChars);
  }

  // ---------------------------------------------------------------- list items

  /** An item is a line, and those up to the next that begins an item, each after a space. */
  ghost predicate IsItem(rules: Rules, lines: seq<string>, low: nat, high: nat, item: string) {
    && low < high <= |lines|
    && (low > 0 ==> rules.structured(lines[low]))
    && (forall i :: low < i < high ==> !rules.structured(lines[i]))
    && item == JoinedBy(" ", [lines[low]] + AllStripped(rules.blank, lines[low + 1..high]))
  }

  /** Item i is the lines from `cuts[i]` up to `cuts[i + 1]`. */
  ghost predicate AreItems(rules: Rules, lines: seq<string>, items: seq<string>, cuts: seq<nat>) {
    && |cuts| == |items| + 1 && cuts[0] == 0 && cuts[|items|] == |lines|
    && forall i: nat :: i < |items| ==> IsItem(rules, lines, cuts[i], cuts[i + 1], items[i])
  }

  lemma ItemStays(rules: Rules, lines: seq<string>, low: nat, high: nat, item: string, line: string)
    requires IsItem(rules, lines, low, high, item)
    ensures IsItem(rules, lines + [line], low, high, item)
  {
    hide JoinedBy;
    assert (lines + [line])[low + 1..high] == lines[low + 1..high];
  }

  lemma ItemGrows(rules: Rules, lines: seq<string>, low: nat, item: string, line: string)
    requires IsItem(rules, lines, low, |lines|, item) && !rules.structured(line)
    ensures IsItem(rules, lines + [line], low, |lines| + 1, item + " " + Strip(rules.blank, line))
  {
    hide JoinedBy, Strip;
    var more, blank := lines + [line], rules.blank;
    var texts := [lines[low]] + AllStripped(blank, lines[low + 1..|lines|]);
    assert more[low + 1..|more|] == lines[low + 1..|lines|] + [line];
    assert [more[low]] + AllStripped(blank, more[low + 1..|more|]) == texts + [Strip(blank, line)];
    JoinNext(" ", texts, Strip(blank, line));
  }

  lemma ItemBegins(rules: Rules, lines: seq<string>, line: string)
    requires lines == [] || rules.structured(line)
    ensures IsItem(rules, lines + [line], |lines|, |lines| + 1, line)
  {
    JoinOne(" ", line);
    assert [line] + AllStripped(rules.blank, (lines + [line])[|lines| + 1..|lines| + 1]) == [line];
  }

  lemma ItemsStay(rules: Rules, lines: seq<string>, items: seq<string>, cuts: seq<nat>, line: string)
    requires AreItems(rules, lines, items, cuts)
    ensures forall i: nat :: i < |items| ==> IsItem(rules, lines + [line], cuts[i], cuts[i + 1], items[i])
  {
    hide IsItem;
    forall i: nat | i < |items|
      ensures IsItem(rules, lines + [line], cuts[i], cuts[i + 1], items[i])
    {
      ItemStays(rules, lines, cuts[i], cuts[i + 1], items[i], line);
    }
  }

  lemma LastItemGrows(rules: Rules, lines: seq<string>, items: seq<string>, cuts: seq<nat>, line: string)
    requires AreItems(rules, lines, items, cuts) && items != [] && !rules.structured(line)
    ensures var n := |items|;
            AreItems(rules, lines + [line], items[n - 1 := items[n - 1] + " " + Strip(rules.blank, line)],
                     cuts[n := |lines| + 1])
  {
    hide IsItem, Strip;
    var n := |items|;
    ItemsStay(rules, lines, items, cuts, line);
    ItemGrows(rules, lines, cuts[n - 1], items[n - 1], line);
  }

  lemma ItemJoins(rules: Rules, lines: seq<string>, items: seq<string>, cuts: seq<nat>, line: string)
    requires AreItems(rules, lines, items, cuts) && (items == [] || rules.structured(line))
    ensures AreItems(rules, lines + [line], items + [line], cuts + [|lines| + 1])
  {
    hide IsItem;
    ItemsStay(rules, lines, items, cuts, line);
    if items == [] { NoLines(rules, lines, items, cuts); }
    ItemBegins(rules, lines, line);
  }

  lemma ItemsNext(rules: Rules, lines: seq<string>, line: string)
    ensures var items := ItemsOf(rules, lines);
            ItemsOf(rules, lines + [line])
            == if items != [] && !rules.structured(line)
               then items[|items| - 1 := items[|items| - 1] + " " + Strip(rules.blank, line)] else items + [line]
  {
    hide Strip;
    assert (lines + [line])[..|lines|] == lines;
  }

  lemma NoItemsYet(rules: Rules)
    ensures AreItems(rules, [], ItemsOf(rules, []), [0])
  {
  }

  /** Every item of a list is whole, and every line is in one. */
  lemma {:induction false} ItemsAreWhole(rules: Rules, lines: seq<string>) returns (cuts: seq<nat>)
    ensures AreItems(rules, lines, ItemsOf(rules, lines), cuts)
    decreases |lines|
  {
    hide AreItems, ItemsOf, Strip;
    if lines == [] {
      NoItemsYet(rules);
      return [0];
    }
    var front, line := lines[..|lines| - 1], lines[|lines| - 1];
    assert lines == front + [line];
    var before := ItemsAreWhole(rules, front);
    var items := ItemsOf(rules, front);
    ItemsNext(rules, front, line);
    CutsOf(rules, front, items, before);
    if items != [] && !rules.structured(line) {
      LastItemGrows(rules, front, items, before, line);
      cuts := before[|items| := |lines|];
    } else {
      ItemJoins(rules, front, items, before, line);
      cuts := before + [|lines|];
    }
  }

  lemma CutsOf(rules: Rules, lines: seq<string>, items: seq<string>, cuts: seq<nat>)
    requires AreItems(rules, lines, items, cuts)
    ensures |cuts| == |items| + 1
  {
  }

  lemma NoLines(rules: Rules, lines: seq<string>, items: seq<string>, cuts: seq<nat>)
    requires AreItems(rules, lines, items, cuts) && items == []
    ensures lines == []
  {
  }

  // ---------------------------------------------------------------- the pieces themselves

  /** Code is cut between lines only, and its lines stay apart. */
  lemma CodePieces(rules: Rules, block: Block, maxChars: nat)
    requires block.kind.Code?
    ensures var pieces := PiecesOf(rules, block, maxChars);
            |pieces| == |block.lines| && forall i :: 0 <= i < |pieces| ==> pieces[i] == Piece("\n", block.lines[i])
  {
  }

  /** Prose is cut between sentences only. */
  lemma ProsePieces(rules: Rules, block: Block, maxChars: nat)
    requires block.kind.Prose?
    ensures var pieces := PiecesOf(rules, block, maxChars);
            && Texts(pieces) == rules.sentences(JoinedBy(" ", AllStripped(rules.blank, block.lines)))
            && forall i :: 0 <= i < |pieces| ==> pieces[i].sep == " "
  {
    hide AllStripped, JoinedBy, StrippedText;
    StrippedReads(rules.blank, block.lines);
  }

  /** The pieces of item i, of a list cut into these, are those from `ends[i]` up to `ends[i + 1]`. */
  ghost predicate AreItemPieces(rules: Rules, items: seq<string>, maxChars: nat, pieces: seq<Piece>, ends: seq<nat>) {
    && |ends| == |items| + 1 && ends[0] == 0 && ends[|items|] == |pieces|
    && forall i: nat :: i < |items| ==> ItemAt(rules, items[i], maxChars, pieces, ends[i], ends[i + 1])
  }

  ghost predicate ItemAt(rules: Rules, item: string, maxChars: nat, pieces: seq<Piece>, low: nat, high: nat) {
    low <= high <= |pieces| && HasPieces(rules, item, maxChars, pieces[low..high])
  }

  /** An item is a piece if it is not too long; otherwise its sentences are. */
  ghost predicate HasPieces(rules: Rules, item: string, maxChars: nat, pieces: seq<Piece>) {
    if |item| <= maxChars then pieces == [Piece("\n", item)]
    else Texts(pieces) == rules.sentences(item) && AttachedBy(" ", pieces) && (pieces != [] ==> pieces[0].sep == "\n")
  }

  lemma MoreItemPieces(rules: Rules, items: seq<string>, maxChars: nat, pieces: seq<Piece>, ends: seq<nat>,
                       item: string, more: seq<Piece>)
    requires AreItemPieces(rules, items, maxChars, pieces, ends) && HasPieces(rules, item, maxChars, more)
    ensures AreItemPieces(rules, items + [item], maxChars, pieces + more, ends + [|pieces + more|])
  {
    hide HasPieces;
    var all, more', at := items + [item], pieces + more, ends + [|pieces + more|];
    forall i: nat | i < |all|
      ensures ItemAt(rules, all[i], maxChars, more', at[i], at[i + 1])
    {
      if i < |items| {
        assert ItemAt(rules, items[i], maxChars, pieces, ends[i], ends[i + 1]);
        assert more'[at[i]..at[i + 1]] == pieces[ends[i]..ends[i + 1]];
      } else {
        assert more'[at[i]..at[i + 1]] == more;
      }
    }
  }

  lemma NoItemPieces(rules: Rules, maxChars: nat)
    ensures AreItemPieces(rules, [], maxChars, PiecesOfItems(rules, [], maxChars), [0])
  {
  }

  /** A list is cut between items, and within one between sentences if it is too long. */
  lemma {:induction false} ListPieces(rules: Rules, items: seq<string>, maxChars: nat) returns (ends: seq<nat>)
    ensures AreItemPieces(rules, items, maxChars, PiecesOfItems(rules, items, maxChars), ends)
    decreases |items|
  {
    hide PiecesOfItems, PiecesOfItem, HasPieces, AreItemPieces;
    if items == [] {
      NoItemPieces(rules, maxChars);
      return [0];
    }
    var front, last := items[..|items| - 1], items[|items| - 1];
    assert front + [last] == items;
    var before := ListPieces(rules, front, maxChars);
    var pieces, more := PiecesOfItems(rules, front, maxChars), PiecesOfItem(rules, last, maxChars);
    PiecesNext(rules, items, maxChars);
    OneItem(rules, last, maxChars);
    MoreItemPieces(rules, front, maxChars, pieces, before, last, more);
    ends := before + [|pieces + more|];
  }

  lemma OneItem(rules: Rules, item: string, maxChars: nat)
    ensures HasPieces(rules, item, maxChars, PiecesOfItem(rules, item, maxChars))
  {
    if |item| > maxChars {
      assert Texts(PiecesOfItem(rules, item, maxChars)) == rules.sentences(item);
    }
  }

  // ---------------------------------------------------------------- a section, and its passages

  ghost predicate AllWritten(blocks: seq<Block>) {
    forall i :: 0 <= i < |blocks| ==> blocks[i].lines != []
  }

  function BlockTexts(rules: Rules, blocks: seq<Block>, maxChars: nat): (texts: seq<string>)
    requires maxChars > 0
    ensures |texts| == |blocks| && forall i :: 0 <= i < |blocks| ==> texts[i] == BlockText(rules, blocks[i], maxChars)
  {
    seq(|blocks|, i requires 0 <= i < |blocks| => BlockText(rules, blocks[i], maxChars))
  }

  lemma UnitsNext(rules: Rules, blocks: seq<Block>, maxChars: nat)
    requires maxChars > 0 && blocks != []
    ensures var last := blocks[|blocks| - 1];
            UnitsOfBlocks(rules, blocks, maxChars)
            == UnitsOfBlocks(rules, blocks[..|blocks| - 1], maxChars)
               + UnitsOf(PiecesOf(rules, last, maxChars), maxChars)
    ensures UnitsOfBlocks(rules, [], maxChars) == []
  {
  }

  /** The units of some blocks read as these do, with a blank line between them. */
  lemma {:induction false} BlocksRead(rules: Rules, blocks: seq<Block>, maxChars: nat)
    requires maxChars > 0 && Lossless(rules) && AllWritten(blocks) && blocks != []
    ensures var units := UnitsOfBlocks(rules, blocks, maxChars);
            && units != [] && units[0].sep == "\n\n"
            && Concat(units) == JoinedBy("\n\n", BlockTexts(rules, blocks, maxChars))
    decreases |blocks|
  {
    hide Lossless, UnitsOfBlocks, UnitsOf, PiecesOf, Concat, JoinedBy, BlockText;
    var front, last := blocks[..|blocks| - 1], blocks[|blocks| - 1];
    UnitsNext(rules, blocks, maxChars);
    BlockReads(rules, last, maxChars);
    var units, more := UnitsOfBlocks(rules, front, maxChars), UnitsOf(PiecesOf(rules, last, maxChars), maxChars);
    assert BlockTexts(rules, blocks, maxChars)
           == BlockTexts(rules, front, maxChars) + [BlockText(rules, last, maxChars)];
    if front == [] {
      assert units + more == more;
      assert BlockTexts(rules, blocks, maxChars) == [BlockText(rules, last, maxChars)];
      JoinOne("\n\n", BlockText(rules, last, maxChars));
    } else {
      BlocksRead(rules, front, maxChars);
      ConcatTwo(units, more);
      JoinNext("\n\n", BlockTexts(rules, front, maxChars), BlockText(rules, last, maxChars));
    }
  }

  lemma {:induction false} UnitsOfTwo(rules: Rules, a: seq<Block>, b: seq<Block>, maxChars: nat)
    requires maxChars > 0
    ensures UnitsOfBlocks(rules, a + b, maxChars)
            == UnitsOfBlocks(rules, a, maxChars) + UnitsOfBlocks(rules, b, maxChars)
    decreases |b|
  {
    hide UnitsOfBlocks, UnitsOf, PiecesOf;
    if b == [] {
      assert a + b == a;
      NoUnits(rules, maxChars);
    } else {
      assert (a + b)[..|a + b| - 1] == a + b[..|b| - 1];
      UnitsNext(rules, a + b, maxChars);
      UnitsNext(rules, b, maxChars);
      UnitsOfTwo(rules, a, b[..|b| - 1], maxChars);
    }
  }

  lemma NoUnits(rules: Rules, maxChars: nat)
    requires maxChars > 0
    ensures UnitsOfBlocks(rules, [], maxChars) == []
  {
  }

  /** The first blocks have this many units. */
  function UnitsBefore(rules: Rules, blocks: seq<Block>, maxChars: nat, n: nat): nat
    requires maxChars > 0 && n <= |blocks|
  {
    |UnitsOfBlocks(rules, blocks[..n], maxChars)|
  }

  /** In a run of pieces, some stand between two others; each run is attached as its first piece says. */
  lemma ConcatAround(a: seq<Piece>, b: seq<Piece>, c: seq<Piece>) returns (before: string, after: string)
    requires b != []
    ensures Concat(a + b + c) == before + Concat(b) + after
    ensures before == (if a == [] then "" else Concat(a) + b[0].sep)
    ensures after == (if c == [] then "" else c[0].sep + Concat(c))
  {
    hide Concat;
    before := if a == [] then "" else Concat(a) + b[0].sep;
    after := if c == [] then "" else c[0].sep + Concat(c);
    if a == [] {
      assert a + b == b;
    } else {
      ConcatTwo(a, b);
    }
    if c == [] {
      assert a + b + c == a + b;
    } else {
      ConcatTwo(a + b, c);
    }
  }

  /**
    A passage whose window covers the blocks from number b up to c: before newlines are taken off
    its ends, it has them all as they read, with a blank line between any two, and between them and
    what else there is.
    */
  lemma BlocksInPassage(rules: Rules, maxChars: nat, overlap: nat, plan: Plan, i: nat, b: nat, c: nat)
      returns (before: string, after: string)
    requires maxChars > 0 && Lossless(rules) && Sound(rules, maxChars, overlap, plan)
    requires i < |plan.windows| && b < c <= |plan.blocks|
    requires plan.windows[i].low <= UnitsBefore(rules, plan.blocks, maxChars, b)
    requires UnitsBefore(rules, plan.blocks, maxChars, c) <= plan.windows[i].high
    ensures var text := JoinedBy("\n\n", BlockTexts(rules, plan.blocks[b..c], maxChars));
            i < |plan.passages| && plan.passages[i] == Strip(IsNewline, before + text + after)
    ensures before == "" || EndsWithBlank(before)
    ensures after == "" || "\n\n" <= after
    ensures plan.windows[i].low == UnitsBefore(rules, plan.blocks, maxChars, b) ==> before == ""
    ensures plan.windows[i].high == UnitsBefore(rules, plan.blocks, maxChars, c) ==> after == ""
  {
    hide UnitsOfBlocks, UnitsBefore, Lossless, Strip, Concat, JoinedBy, BlockTexts, Sound, AllWritten, EndsWithBlank,
         AreBlocks, AreJoined;
    var w, blocks, units := plan.windows[i], plan.blocks, plan.units;
    var low, high := UnitsBefore(rules, blocks, maxChars, b), UnitsBefore(rules, blocks, maxChars, c);
    SoundFacts(rules, maxChars, overlap, plan);
    BlocksAreWritten(rules, plan.section.body, blocks, plan.spans);
    SomeRead(rules, blocks, maxChars, b, c);
    PassageIs(rules, maxChars, overlap, plan, i, low, high);
    var x, y, z := units[w.low..low], units[low..high], units[high..w.high];
    before, after := ConcatAround(x, y, z);
    BlankEnds(Concat(x));
    if z != [] {
      SomeRead(rules, blocks, maxChars, c, |blocks|);
      assert z[0] == units[high] && units[high..][0] == units[high];
    }
  }

  lemma BlankEnds(text: string)
    ensures EndsWithBlank(text + "\n\n")
  {
  }

  /** The units of the blocks from number b up to c, and how they read. */
  lemma SomeRead(rules: Rules, blocks: seq<Block>, maxChars: nat, b: nat, c: nat)
    requires maxChars > 0 && Lossless(rules) && AllWritten(blocks) && b <= c <= |blocks|
    ensures var units, low, high := UnitsOfBlocks(rules, blocks, maxChars), UnitsBefore(rules, blocks, maxChars, b),
                                    UnitsBefore(rules, blocks, maxChars, c);
            && low <= high <= |units| && (c == |blocks| ==> high == |units|) && (b == c ==> low == high)
            && (b < c ==> low < high && units[low].sep == "\n\n"
                          && Concat(units[low..high]) == JoinedBy("\n\n", BlockTexts(rules, blocks[b..c], maxChars)))
  {
    hide UnitsOfBlocks, UnitsBefore, Lossless, Concat, JoinedBy, BlockTexts;
    UnitsAt(rules, blocks, maxChars, b, c);
    if b < c {
      assert blocks[b..c] != [] && AllWritten(blocks[b..c]);
      BlocksRead(rules, blocks[b..c], maxChars);
    }
  }

  lemma PassageIs(rules: Rules, maxChars: nat, overlap: nat, plan: Plan, i: nat, low: nat, high: nat)
    requires maxChars > 0 && Sound(rules, maxChars, overlap, plan) && i < |plan.windows|
    requires plan.windows[i].low <= low <= high <= plan.windows[i].high
    ensures plan.units == UnitsOfBlocks(rules, plan.blocks, maxChars) && plan.windows[i].high <= |plan.units|
    ensures var w, units := plan.windows[i], plan.units;
            && i < |plan.passages|
            && plan.passages[i]
               == Strip(IsNewline, Concat(units[w.low..low] + units[low..high] + units[high..w.high]))
  {
    hide Sound, UnitsOfBlocks, Strip, Concat, AreJoined;
    SoundFacts(rules, maxChars, overlap, plan);
    WindowJoins(plan.units, plan.windows, plan.passages, i, low, high);
  }

  lemma SoundFacts(rules: Rules, maxChars: nat, overlap: nat, plan: Plan)
    requires maxChars > 0 && Sound(rules, maxChars, overlap, plan)
    ensures plan.units == UnitsOfBlocks(rules, plan.blocks, maxChars)
    ensures AreBlocks(rules, plan.section.body, plan.blocks, plan.spans)
    ensures AreJoined(plan.units, plan.windows, plan.passages)
  {
    hide AreBlocks, UnitsOfBlocks, Packs, NoneLong, HoldsInk, AreJoined;
  }

  lemma WindowJoins(units: seq<Piece>, windows: seq<Window>, passages: seq<string>, i: nat, low: nat, high: nat)
    requires AreJoined(units, windows, passages) && i < |windows|
    requires windows[i].low <= low <= high <= windows[i].high
    ensures var w := windows[i];
            && w.high <= |units| && i < |passages|
            && passages[i] == Strip(IsNewline, Concat(units[w.low..low] + units[low..high] + units[high..w.high]))
  {
    hide Strip, Concat;
    var w := windows[i];
    assert Within(w, |units|) && passages[i] == Join(In(units, w));
    assert In(units, w) == units[w.low..low] + units[low..high] + units[high..w.high];
  }

  predicate EndsWithBlank(text: string) {
    |text| >= 2 && text[|text| - 2..] == "\n\n"
  }

  /** The units of the blocks from number b up to c. */
  lemma UnitsAt(rules: Rules, blocks: seq<Block>, maxChars: nat, b: nat, c: nat)
    requires maxChars > 0 && b <= c <= |blocks|
    ensures var units, low, high := UnitsOfBlocks(rules, blocks, maxChars), UnitsBefore(rules, blocks, maxChars, b),
                                    UnitsBefore(rules, blocks, maxChars, c);
            && low <= high <= |units| && UnitsOfBlocks(rules, blocks[b..c], maxChars) == units[low..high]
            && (c == |blocks| ==> high == |units|)
  {
    hide UnitsOfBlocks;
    assert blocks[..b] + blocks[b..c] == blocks[..c] && blocks[..c] + blocks[c..] == blocks;
    assert blocks[..|blocks|] == blocks;
    UnitsOfTwo(rules, blocks[..b], blocks[b..c], maxChars);
    UnitsOfTwo(rules, blocks[..c], blocks[c..], maxChars);
  }

  /** A code block none of whose lines is too long reads as it stands, line by line. */
  lemma CodeIsKept(rules: Rules, block: Block, maxChars: nat)
    requires maxChars > 0 && block.kind.Code? && forall line :: line in block.lines ==> |line| <= maxChars
    ensures BlockText(rules, block, maxChars) == JoinedBy("\n", block.lines)
  {
    AllFit(block.lines, maxChars);
  }

  /** Blocks have lines. */
  lemma BlocksAreWritten(rules: Rules, lines: seq<string>, blocks: seq<Block>, spans: seq<Stretch>)
    requires AreBlocks(rules, lines, blocks, spans)
    ensures AllWritten(blocks)
  {
    hide NoneBelong, Run, IsKind;
    forall k | 0 <= k < |blocks|
      ensures blocks[k].lines != []
    {
      assert BlockAt(rules, lines, blocks, spans, k);
      assert |blocks[k].lines| == spans[k].high - spans[k].low;
    }
  }

  // ---------------------------------------------------------------- a section's heading

  function Titles(trail: seq<Heading>): (titles: seq<string>)
    ensures |titles| == |trail| && forall i :: 0 <= i < |trail| ==> titles[i] == trail[i].title
  {
    seq(|trail|, i requires 0 <= i < |trail| => trail[i].title)
  }

  lemma {:induction false} TrailReads(trail: seq<Heading>)
    ensures TrailText(trail) == JoinedBy(" > ", Titles(trail))
  {
    if |trail| > 1 {
      var front, last := trail[..|trail| - 1], trail[|trail| - 1];
      TrailReads(front);
      assert Titles(trail) == Titles(front) + [last.title];
      JoinNext(" > ", Titles(front), last.title);
    }
  }

  // ---------------------------------------------------------------- the chunks

  datatype Place = Place(section: nat, passage: nat)

  predicate Earlier(a: Place, b: Place) {
    a.section < b.section || (a.section == b.section && a.passage < b.passage)
  }

  /** There is a passage at this place with something to see. */
  predicate IsPlace(blank: Blank, plans: seq<Plan>, at: Place) {
    && at.section < |plans| && at.passage < |plans[at.section].passages|
    && Visible(blank, plans[at.section].passages[at.passage])
  }

  /** Chunk i is the passage at this place as it is, under its section's heading, numbered i. */
  predicate ComesFrom(plans: seq<Plan>, chunks: seq<Chunk>, i: nat, at: Place)
    requires i < |chunks|
  {
    && at.section < |plans| && at.passage < |plans[at.section].passages|
    && chunks[i] == Chunk(plans[at.section].passages[at.passage], plans[at.section].section.heading, i)
  }

  /** The chunks are the passages that have something to see, in order, and no others. */
  ghost predicate AreVisible(blank: Blank, plans: seq<Plan>, chunks: seq<Chunk>, places: seq<Place>) {
    && |places| == |chunks|
    && (forall i: nat :: i < |chunks| ==> ComesFrom(plans, chunks, i, places[i]))
    && (forall i, j :: 0 <= i < j < |places| ==> Earlier(places[i], places[j]))
    && forall at :: at in places <==> IsPlace(blank, plans, at)
  }

  /** The same of the first n passages of the last section, after all of those before. */
  ghost predicate VisibleUpTo(blank: Blank, plans: seq<Plan>, n: nat, chunks: seq<Chunk>, places: seq<Place>)
    requires plans != []
  {
    && |places| == |chunks|
    && (forall i: nat :: i < |chunks| ==> ComesFrom(plans, chunks, i, places[i]))
    && (forall i, j :: 0 <= i < j < |places| ==> Earlier(places[i], places[j]))
    && forall at :: at in places <==> IsPlace(blank, plans, at) && (at.section < |plans| - 1 || at.passage < n)
  }

  lemma SectionBegins(blank: Blank, plans: seq<Plan>, plan: Plan, chunks: seq<Chunk>, places: seq<Place>)
    requires AreVisible(blank, plans, chunks, places)
    ensures VisibleUpTo(blank, plans + [plan], 0, chunks, places)
  {
    hide Visible;
    forall i: nat | i < |chunks|
      ensures ComesFrom(plans + [plan], chunks, i, places[i])
    {
      assert ComesFrom(plans, chunks, i, places[i]);
    }
    forall at
      ensures at in places <==> IsPlace(blank, plans + [plan], at) && at.section < |plans|
    {
      assert at in places <==> IsPlace(blank, plans, at);
    }
  }

  lemma NextVisible(blank: Blank, plans: seq<Plan>, n: nat, chunks: seq<Chunk>, places: seq<Place>)
      returns (later: seq<Place>)
    requires plans != [] && n < |plans[|plans| - 1].passages| && VisibleUpTo(blank, plans, n, chunks, places)
    ensures var plan := plans[|plans| - 1];
            var more := if Visible(blank, plan.passages[n])
                        then [Chunk(plan.passages[n], plan.section.heading, |chunks|)] else [];
            VisibleUpTo(blank, plans, n + 1, chunks + more, later)
  {
    hide Visible;
    var last, plan := |plans| - 1, plans[|plans| - 1];
    var at := Place(last, n);
    forall other
      ensures IsPlace(blank, plans, other) && (other.section < last || other.passage < n + 1) <==>
                other in places || (other == at && Visible(blank, plan.passages[n]))
    {
      assert other in places <==> IsPlace(blank, plans, other) && (other.section < last || other.passage < n);
    }
    if Visible(blank, plan.passages[n]) {
      later := places + [at];
      forall i | 0 <= i < |places|
        ensures Earlier(places[i], at)
      {
        assert places[i] in places;
      }
      forall i: nat | i < |chunks|
        ensures ComesFrom(plans, chunks + [Chunk(plan.passages[n], plan.section.heading, |chunks|)], i, later[i])
      {
        assert ComesFrom(plans, chunks, i, places[i]);
      }
    } else {
      later := places;
      assert chunks + [] == chunks;
    }
  }

  lemma {:induction false} SectionIsVisible(blank: Blank, plans: seq<Plan>, before: seq<Chunk>, places: seq<Place>,
                                            n: nat)
      returns (later: seq<Place>)
    requires plans != [] && VisibleUpTo(blank, plans, 0, before, places)
    requires n <= |plans[|plans| - 1].passages|
    ensures var plan := plans[|plans| - 1];
            var chunks := before + Kept(blank, plan.section.heading, plan.passages[..n], |before|);
            VisibleUpTo(blank, plans, n, chunks, later)
    decreases n
  {
    hide VisibleUpTo, Visible, Kept;
    var plan := plans[|plans| - 1];
    if n == 0 {
      NothingKept(blank, plan.section.heading, |before|);
      assert plan.passages[..0] == [] && before + [] == before;
      return places;
    }
    var soFar := SectionIsVisible(blank, plans, before, places, n - 1);
    var kept := Kept(blank, plan.section.heading, plan.passages[..n - 1], |before|);
    later := NextVisible(blank, plans, n - 1, before + kept, soFar);
    KeepNext(blank, plan.section.heading, plan.passages, |before|, n - 1, |before| + |kept|);
    var more := if Visible(blank, plan.passages[n - 1])
                then [Chunk(plan.passages[n - 1], plan.section.heading, |before| + |kept|)] else [];
    assert before + kept + more == before + (kept + more);
  }

  lemma NothingKept(blank: Blank, heading: string, first: nat)
    ensures Kept(blank, heading, [], first) == []
  {
  }

  /** Every chunk is a passage with its section's heading, and every passage with something to see is a chunk. */
  lemma {:induction false} ChunksAreVisible(blank: Blank, plans: seq<Plan>) returns (places: seq<Place>)
    ensures AreVisible(blank, plans, AllKept(blank, plans), places)
    decreases |plans|
  {
    if plans == [] {
      return [];
    }
    hide AreVisible, VisibleUpTo, Visible, Kept;
    var front, last := plans[..|plans| - 1], plans[|plans| - 1];
    assert front + [last] == plans;
    var before := ChunksAreVisible(blank, front);
    SectionBegins(blank, front, last, AllKept(blank, front), before);
    places := SectionIsVisible(blank, plans, AllKept(blank, front), before, |last.passages|);
    assert last.passages[..|last.passages|] == last.passages;
    SectionEndsVisible(blank, plans, AllKept(blank, plans), places);
  }

  lemma SectionEndsVisible(blank: Blank, plans: seq<Plan>, chunks: seq<Chunk>, places: seq<Place>)
    requires plans != [] && VisibleUpTo(blank, plans, |plans[|plans| - 1].passages|, chunks, places)
    ensures AreVisible(blank, plans, chunks, places)
  {
    hide Visible;
  }
}
