/**
 * What the writer and the reader of czkawka_gui/src/saving_loading.rs
 * promise each other: the reader sees the seven headers in order, reads every
 * list back in order and every toggle back, and a second save and load
 * changes nothing more.
 */
module ConfigRoundTrip {
  import opened Wrappers
  import opened Strings
  import opened ConfigFormat
  import opened ConfigParser
  import opened ConfigLoad

  /** No line break inside: the text stays one line of the file. */
  predicate OneLine(e: string) {
    forall i :: 0 <= i < |e| ==> e[i] != '\n' && e[i] != '\r'
  }

  /** A directory the reader gives back as it is. */
  predicate StorableEntry(e: string) {
    EntryOk(e) && OneLine(e)
  }

  /** A pattern token the reader gives back (trimmed). */
  predicate StorableToken(t: string) {
    IsDataLine(t) && OneLine(t)
  }

  /** Widgets whose every directory and pattern survives the file. */
  predicate Representable(g: Gui) {
    && (forall i :: 0 <= i < |g.includedDirectories| ==> StorableEntry(g.includedDirectories[i]))
    && (forall i :: 0 <= i < |g.excludedDirectories| ==> StorableEntry(g.excludedDirectories[i]))
    && (forall i :: 0 <= i < |Patterns(g.excludedItemsText)| ==> StorableToken(Patterns(g.excludedItemsText)[i]))
    && (forall i :: 0 <= i < |Patterns(g.allowedExtensionsText)| ==> StorableToken(Patterns(g.allowedExtensionsText)[i]))
  }

  /** Every entry of each list is a data line. */
  predicate AllData(l: seq<string>) {
    forall i :: 0 <= i < |l| ==> IsDataLine(l[i])
  }

  /** Every item trimmed. */
  function TrimAll(xs: seq<string>): seq<string> {
    if xs == [] then [] else [Trim(xs[0])] + TrimAll(xs[1..])
  }

  /** Trimming every item keeps their number and trims each one. */
  lemma {:induction false} TrimAllShape(xs: seq<string>)
    ensures |TrimAll(xs)| == |xs|
    ensures forall i :: 0 <= i < |xs| ==> TrimAll(xs)[i] == Trim(xs[i])
  {
    if xs != [] {
      TrimAllShape(xs[1..]);
    }
  }

  /** The settings the reader gets back from the widgets' file. */
  function ReadBack(g: Gui): Settings {
    Settings(g.includedDirectories, g.excludedDirectories,
             TrimAll(Patterns(g.excludedItemsText)), TrimAll(Patterns(g.allowedExtensionsText)),
             g.loadAtStart, g.saveAtExit, g.confirmDeletion)
  }

  /** The settings with one list replaced. */
  function WithList(v: Settings, s: Section, xs: seq<string>): Settings
    requires s.IsList()
  {
    match s
    case IncludedDirectories => v.(includedDirectories := xs)
    case ExcludedDirectories => v.(excludedDirectories := xs)
    case ExcludedItems => v.(excludedItems := xs)
    case AllowedExtensions => v.(allowedExtensions := xs)
  }

  /** The settings with one toggle replaced. */
  function WithFlag(v: Settings, s: Section, b: bool): Settings
    requires s.IsFlag()
  {
    match s
    case LoadingAtStart => v.(loadingAtStart := b)
    case SavingAtExit => v.(savingAtExit := b)
    case ConfirmDeletion => v.(confirmDeletion := b)
  }

  /** The toggle text the writer emits reads back as the toggle. */
  lemma FlagTextReadsBack(b: bool)
    ensures Trim(FlagText(b)) == FlagText(b) && IsDataLine(FlagText(b)) && OneLine(FlagText(b))
    ensures ParseFlag(FlagText(b)) == Some(b)
  {
    PlainDataLine(FlagText(b));
    LowerOf(FlagText(b), FlagText(b));
  }

  /** No header line of a list section contains a line break. */
  lemma ListHeaderOneLine(s: Section)
    requires s.IsList()
    ensures OneLine(HeaderLine(s))
  {
  }

  /** No header line of a toggle section contains a line break. */
  lemma FlagHeaderOneLine(s: Section)
    requires s.IsFlag()
    ensures OneLine(HeaderLine(s))
  {
  }

  /** The reader after a list section: in that section, with its entries appended, trimmed. */
  function AfterList(p: ParserState, s: Section, entries: seq<string>): (r: ParserState)
    requires s.IsList()
    ensures r.current == s && r.problems == p.problems && r.orphan == p.orphan
  {
    p.(current := s, values := WithList(p.values, s, ListOf(p.values, s) + TrimAll(entries)))
  }

  /** The reader after a toggle section: in that section, with the toggle set. */
  function AfterFlag(p: ParserState, s: Section, b: bool): (r: ParserState)
    requires s.IsFlag()
    ensures r.current == s && r.problems == p.problems && r.orphan == p.orphan
  {
    p.(current := s, values := WithFlag(p.values, s, b))
  }

  /** Trimming every item of two lists one after the other. */
  lemma {:induction false} TrimAllAppend(xs: seq<string>, ys: seq<string>)
    ensures TrimAll(xs + ys) == TrimAll(xs) + TrimAll(ys)
    decreases |xs|
  {
    if xs == [] {
      assert xs + ys == ys;
    } else {
      assert (xs + ys)[0] == xs[0];
      assert (xs + ys)[1..] == xs[1..] + ys;
      TrimAllAppend(xs[1..], ys);
    }
  }

  /** Replacing a list twice keeps the second replacement, and a replaced list reads back. */
  lemma WithListTwice(v: Settings, s: Section, xs: seq<string>, ys: seq<string>)
    requires s.IsList()
    ensures ListOf(WithList(v, s, xs), s) == xs
    ensures WithList(WithList(v, s, xs), s, ys) == WithList(v, s, ys)
  {
  }

  /** Two runs of entries in the same list section append to each other. */
  lemma AfterListTwice(p: ParserState, s: Section, xs: seq<string>, ys: seq<string>)
    requires s.IsList()
    ensures AfterList(AfterList(p, s, xs), s, ys) == AfterList(p, s, xs + ys)
  {
    var l := ListOf(p.values, s);
    WithListTwice(p.values, s, l + TrimAll(xs), l + TrimAll(xs) + TrimAll(ys));
    TrimAllAppend(xs, ys);
    assert l + TrimAll(xs) + TrimAll(ys) == l + TrimAll(xs + ys);
  }

  /** No entries leave the reader in its list section as it was. */
  lemma AfterNoEntries(p: ParserState)
    requires p.current.IsList()
    ensures AfterList(p, p.current, []) == p
  {
    var v := p.values;
    assert ListOf(v, p.current) + [] == ListOf(v, p.current);
  }

  /** One data line in a list section appends it, trimmed. */
  lemma EntryStep(p: ParserState, e: string, n: nat)
    requires !p.orphan && p.current.IsList() && IsDataLine(e)
    ensures Step(p, n, e) == AfterList(p, p.current, [e])
  {
    StepData(p, n, e);
    assert TrimAll([e]) == [Trim(e)] by {
      assert [e][1..] == [];
    }
  }

  /** Data lines in the current list section are appended, trimmed, in order. */
  lemma {:induction false} RunEntries(p: ParserState, entries: seq<string>, n: nat)
    requires !p.orphan && p.current.IsList() && AllData(entries)
    ensures Run(p, entries, n) == AfterList(p, p.current, entries)
    decreases |entries|
  {
    if entries == [] {
      AfterNoEntries(p);
    } else {
      var e, rest := entries[0], entries[1..];
      var q := AfterList(p, p.current, [e]);
      EntryStep(p, e, n);
      RunEntries(q, rest, n + 1);
      AfterListTwice(p, p.current, [e], rest);
      assert [e] + rest == entries;
    }
  }

  /** A list section as the writer emits it: its header, then its entries. */
  lemma RunListSection(p: ParserState, s: Section, entries: seq<string>, n: nat)
    requires !p.orphan && s.IsList()
    requires forall i :: 0 <= i < |entries| ==> IsDataLine(entries[i])
    ensures Run(p, [HeaderLine(s)] + entries, n) == AfterList(p, s, entries)
  {
    var h := HeaderLine(s);
    assert Run(p, [h] + entries, n) == Run(Step(p, n, h), entries, n + 1) by {
      assert ([h] + entries)[1..] == entries;
    }
    assert Step(p, n, h) == p.(current := s) by {
      MatchHeaderLine(s);
      StepCases(p, n, h);
    }
    RunEntries(p.(current := s), entries, n + 1);
  }

  /** A toggle section as the writer emits it: its header, then `true` or `false`. */
  lemma RunFlagSection(p: ParserState, s: Section, b: bool, n: nat)
    requires !p.orphan && s.IsFlag()
    ensures Run(p, [HeaderLine(s), FlagText(b)], n) == AfterFlag(p, s, b)
  {
    var h, t := HeaderLine(s), FlagText(b);
    var q := p.(current := s);
    assert Step(p, n, h) == q by {
      MatchHeaderLine(s);
      StepHeader(p, n, h);
    }
    assert Step(q, n + 1, t) == q.(values := WithFlag(p.values, s, b)) by {
      FlagTextReadsBack(b);
      StepData(q, n + 1, t);
    }
    RunTwo(p, h, t, n);
  }

  /** Directories and tokens of representable widgets are data lines. */
  lemma RepresentableLines(g: Gui)
    requires Representable(g)
    ensures forall i :: 0 <= i < |g.includedDirectories| ==> IsDataLine(g.includedDirectories[i])
    ensures forall i :: 0 <= i < |g.excludedDirectories| ==> IsDataLine(g.excludedDirectories[i])
    ensures forall i :: 0 <= i < |Patterns(g.excludedItemsText)| ==> IsDataLine(Patterns(g.excludedItemsText)[i])
    ensures forall i :: 0 <= i < |Patterns(g.allowedExtensionsText)| ==> IsDataLine(Patterns(g.allowedExtensionsText)[i])
    ensures TrimAll(g.includedDirectories) == g.includedDirectories
    ensures TrimAll(g.excludedDirectories) == g.excludedDirectories
  {
    forall e | StorableEntry(e)
      ensures IsDataLine(e) && Trim(e) == e
    {
      TrimTrimmed(e);
    }
    TrimAllShape(g.includedDirectories);
    TrimAllShape(g.excludedDirectories);
  }

  /** One section as the writer emits it: a list section with its entries, or a toggle section with its value. */
  datatype Block = ListBlock(section: Section, entries: seq<string>) | FlagBlock(section: Section, flag: bool)

  /** A block the reader takes in whole: a list section of data lines, or a toggle section. */
  predicate BlockOk(b: Block) {
    match b
    case ListBlock(s, l) => s.IsList() && AllData(l)
    case FlagBlock(s, _) => s.IsFlag()
  }

  predicate BlocksOk(bs: seq<Block>) {
    forall i :: 0 <= i < |bs| ==> BlockOk(bs[i])
  }

  /** The lines of one block: its header, then its entries or its value. */
  function BlockLines(b: Block): seq<string>
    requires BlockOk(b)
  {
    match b
    case ListBlock(s, l) => [HeaderLine(s)] + l
    case FlagBlock(s, f) => [HeaderLine(s), FlagText(f)]
  }

  /** The lines of the blocks from position `k` on, one after the other. */
  function Layout(bs: seq<Block>, k: nat): seq<string>
    requires BlocksOk(bs) && k <= |bs|
    decreases |bs| - k
  {
    if k == |bs| then [] else BlockLines(bs[k]) + Layout(bs, k + 1)
  }

  /** The reader after one block. */
  function AfterBlock(p: ParserState, b: Block): (r: ParserState)
    requires BlockOk(b)
    ensures r.problems == p.problems && r.orphan == p.orphan
  {
    match b
    case ListBlock(s, l) => AfterList(p, s, l)
    case FlagBlock(s, f) => AfterFlag(p, s, f)
  }

  /** The reader after the blocks from position `k` on. */
  function AfterBlocks(p: ParserState, bs: seq<Block>, k: nat): (r: ParserState)
    requires BlocksOk(bs) && k <= |bs|
    ensures r.problems == p.problems && r.orphan == p.orphan
    decreases |bs| - k
  {
    if k == |bs| then p else AfterBlocks(AfterBlock(p, bs[k]), bs, k + 1)
  }

  /** Reading on from block `k` after one more block. */
  lemma AfterBlocksStep(p: ParserState, bs: seq<Block>, k: nat, q: ParserState)
    requires BlocksOk(bs) && k < |bs| && AfterBlock(p, bs[k]) == q
    ensures AfterBlocks(p, bs, k) == AfterBlocks(q, bs, k + 1)
  {
  }

  /** Reading one block. */
  lemma RunBlock(p: ParserState, b: Block, n: nat)
    requires !p.orphan && BlockOk(b)
    ensures Run(p, BlockLines(b), n) == AfterBlock(p, b)
  {
    match b
    case ListBlock(s, l) => RunListSection(p, s, l, n);
    case FlagBlock(s, f) => RunFlagSection(p, s, f, n);
  }

  /** Reading the blocks from position `k` on, whichever sections they name. */
  lemma {:induction false} RunBlocks(p: ParserState, bs: seq<Block>, k: nat, n: nat)
    requires !p.orphan && BlocksOk(bs) && k <= |bs|
    ensures Run(p, Layout(bs, k), n) == AfterBlocks(p, bs, k)
    decreases |bs| - k
  {
    if k < |bs| {
      var k1 := k + 1;
      var a := BlockLines(bs[k]);
      var m := n + |a|;
      var q := AfterBlock(p, bs[k]);
      RunBlock(p, bs[k], n);
      RunBlocks(q, bs, k1, m);
      RunConcat(p, a, Layout(bs, k1), n, m);
    }
  }

  /** The sections `save_configuration` writes, in its order. */
  function WriterBlocks(g: Gui): seq<Block> {
    [ListBlock(IncludedDirectories, g.includedDirectories), ListBlock(ExcludedDirectories, g.excludedDirectories),
     ListBlock(ExcludedItems, Patterns(g.excludedItemsText)), ListBlock(AllowedExtensions, Patterns(g.allowedExtensionsText)),
     FlagBlock(SavingAtExit, g.saveAtExit), FlagBlock(LoadingAtStart, g.loadAtStart), FlagBlock(ConfirmDeletion, g.confirmDeletion)]
  }

  /** The blocks of representable widgets are read whole. */
  lemma WriterBlocksOk(g: Gui)
    requires Representable(g)
    ensures BlocksOk(WriterBlocks(g))
  {
    RepresentableLines(g);
  }

  /** Three pieces joined either way round. */
  lemma Associate(x: seq<string>, y: seq<string>, z: seq<string>)
    ensures x + y + z == x + (y + z)
  {
  }

  /** The writer's lines are its seven blocks one after the other. */
  lemma SerializeBlocks(g: Gui)
    requires BlocksOk(WriterBlocks(g))
    ensures Serialize(g) == Layout(WriterBlocks(g), 0)
  {
    var bs := WriterBlocks(g);
    var b0, b1, b2, b3 := BlockLines(bs[0]), BlockLines(bs[1]), BlockLines(bs[2]), BlockLines(bs[3]);
    var b4, b5, b6 := BlockLines(bs[4]), BlockLines(bs[5]), BlockLines(bs[6]);
    var h1, h2, h3 := [HeaderLine(ExcludedDirectories)], [HeaderLine(ExcludedItems)], [HeaderLine(AllowedExtensions)];
    var l1, l2, l3 := g.excludedDirectories, Patterns(g.excludedItemsText), Patterns(g.allowedExtensionsText);
    assert Layout(bs, 6) == b6 by {
      assert Layout(bs, 7) == [];
      assert b6 + [] == b6;
    }
    var r5 := b5 + b6;
    var r4 := b4 + r5;
    var r3 := b3 + r4;
    var r2 := b2 + r3;
    var r1 := b1 + r2;
    assert Layout(bs, 5) == r5;
    assert Layout(bs, 4) == r4;
    assert Layout(bs, 3) == r3;
    assert Layout(bs, 2) == r2;
    assert Layout(bs, 1) == r1;
    assert Layout(bs, 0) == b0 + r1;
    Associate(b0, h1, l1);
    Associate(b0 + b1, h2, l2);
    Associate(b0 + b1 + b2, h3, l3);
    assert Serialize(g) == b0 + b1 + b2 + b3 + b4 + b5 + b6;
    Associate(b0 + b1 + b2 + b3 + b4, b5, b6);
    Associate(b0 + b1 + b2 + b3, b4, r5);
    Associate(b0 + b1 + b2, b3, r4);
    Associate(b0 + b1, b2, r3);
    Associate(b0, b1, r2);
  }

  /** A list section read into an empty list leaves exactly its entries, trimmed. */
  lemma AfterEmptyList(p: ParserState, s: Section, l: seq<string>)
    requires s.IsList() && ListOf(p.values, s) == []
    ensures AfterList(p, s, l) == p.(current := s, values := WithList(p.values, s, TrimAll(l)))
  {
    assert [] + TrimAll(l) == TrimAll(l);
  }

  /** The reader after the writer's four list blocks, read from the start. */
  lemma WriterListsState(g: Gui, v: Settings)
    requires BlocksOk(WriterBlocks(g))
    requires v == InitialSettings.(includedDirectories := TrimAll(g.includedDirectories),
                                   excludedDirectories := TrimAll(g.excludedDirectories),
                                   excludedItems := TrimAll(Patterns(g.excludedItemsText)),
                                   allowedExtensions := TrimAll(Patterns(g.allowedExtensionsText)))
    ensures AfterBlocks(Start, WriterBlocks(g), 0) == AfterBlocks(ParserState(AllowedExtensions, v, [], false), WriterBlocks(g), 4)
  {
    var bs := WriterBlocks(g);
    var inc, exc := TrimAll(g.includedDirectories), TrimAll(g.excludedDirectories);
    var items, exts := TrimAll(Patterns(g.excludedItemsText)), TrimAll(Patterns(g.allowedExtensionsText));
    var p1 := ParserState(IncludedDirectories, Settings(inc, [], [], [], true, true, true), [], false);
    var p2 := ParserState(ExcludedDirectories, Settings(inc, exc, [], [], true, true, true), [], false);
    var p3 := ParserState(ExcludedItems, Settings(inc, exc, items, [], true, true, true), [], false);
    var p4 := ParserState(AllowedExtensions, v, [], false);
    assert AfterBlock(Start, bs[0]) == p1 by {
      AfterEmptyList(Start, IncludedDirectories, g.includedDirectories);
    }
    assert AfterBlock(p1, bs[1]) == p2 by {
      AfterEmptyList(p1, ExcludedDirectories, g.excludedDirectories);
    }
    assert AfterBlock(p2, bs[2]) == p3 by {
      AfterEmptyList(p2, ExcludedItems, Patterns(g.excludedItemsText));
    }
    assert AfterBlock(p3, bs[3]) == p4 by {
      AfterEmptyList(p3, AllowedExtensions, Patterns(g.allowedExtensionsText));
    }
    AfterBlocksStep(p3, bs, 3, p4);
    AfterBlocksStep(p2, bs, 2, p3);
    AfterBlocksStep(p1, bs, 1, p2);
    AfterBlocksStep(Start, bs, 0, p1);
  }

  /** The reader after the writer's three toggle blocks. */
  lemma WriterFlagsState(g: Gui, v: Settings)
    requires BlocksOk(WriterBlocks(g))
    ensures AfterBlocks(ParserState(AllowedExtensions, v, [], false), WriterBlocks(g), 4) ==
      ParserState(ConfirmDeletion, v.(savingAtExit := g.saveAtExit, loadingAtStart := g.loadAtStart, confirmDeletion := g.confirmDeletion), [], false)
  {
    var bs := WriterBlocks(g);
    var p4 := ParserState(AllowedExtensions, v, [], false);
    var p5 := ParserState(SavingAtExit, v.(savingAtExit := g.saveAtExit), [], false);
    var p6 := ParserState(LoadingAtStart, p5.values.(loadingAtStart := g.loadAtStart), [], false);
    var p7 := ParserState(ConfirmDeletion, p6.values.(confirmDeletion := g.confirmDeletion), [], false);
    assert AfterBlock(p4, bs[4]) == p5;
    assert AfterBlock(p5, bs[5]) == p6;
    assert AfterBlock(p6, bs[6]) == p7;
    AfterBlocksStep(p6, bs, 6, p7);
    AfterBlocksStep(p5, bs, 5, p6);
    AfterBlocksStep(p4, bs, 4, p5);
  }


  /**
   * Round trip at the level of lines: reading what the writer builds gives back
   * both directory lists as they are, the pattern tokens trimmed and in order,
   * the three toggles, no message, and the reader in the last section.
   */
  lemma ParseSerialize(g: Gui)
    requires Representable(g)
    ensures Parse(Serialize(g)) == ParserState(ConfirmDeletion, ReadBack(g), [], false)
  {
    var bs := WriterBlocks(g);
    WriterBlocksOk(g);
    SerializeBlocks(g);
    RunBlocks(Start, bs, 0, 0);
    var v := InitialSettings.(includedDirectories := TrimAll(g.includedDirectories),
                              excludedDirectories := TrimAll(g.excludedDirectories),
                              excludedItems := TrimAll(Patterns(g.excludedItemsText)),
                              allowedExtensions := TrimAll(Patterns(g.allowedExtensionsText)));
    WriterListsState(g, v);
    WriterFlagsState(g, v);
    assert TrimAll(g.includedDirectories) == g.includedDirectories && TrimAll(g.excludedDirectories) == g.excludedDirectories by {
      RepresentableLines(g);
    }
  }

  // ---------------------------------------------------------------------------
  // The layout of the written lines.

  /** The sections the header lines of `lines` switch to, in order. */
  function HeaderSections(lines: seq<string>): seq<Section>
    decreases |lines|
  {
    if lines == [] then []
    else (if IsHeaderLine(lines[0]) then [MatchHeader(Trim(lines[0])).value] else []) + HeaderSections(lines[1..])
  }

  /** The header lines of two runs of lines are those of the first, then those of the second. */
  lemma {:induction false} HeaderSectionsConcat(a: seq<string>, b: seq<string>)
    ensures HeaderSections(a + b) == HeaderSections(a) + HeaderSections(b)
    decreases |a|
  {
    if a == [] {
      assert a + b == b;
    } else {
      assert (a + b)[0] == a[0];
      assert (a + b)[1..] == a[1..] + b;
      HeaderSectionsConcat(a[1..], b);
      var h := if IsHeaderLine(a[0]) then [MatchHeader(Trim(a[0])).value] else [];
      assert h + (HeaderSections(a[1..]) + HeaderSections(b)) == (h + HeaderSections(a[1..])) + HeaderSections(b);
    }
  }

  /** Data lines hold no header line. */
  lemma {:induction false} HeaderSectionsData(l: seq<string>)
    requires AllData(l)
    ensures HeaderSections(l) == []
    decreases |l|
  {
    if l != [] {
      if IsHeaderLine(l[0]) {
        HeaderIsNotData(l[0]);
      }
      assert AllData(l[1..]) by {
        assert forall i :: 0 <= i < |l[1..]| ==> l[1..][i] == l[i + 1];
      }
      HeaderSectionsData(l[1..]);
    }
  }

  /** A block the writer emits has one header line: its own section's. */
  lemma BlockHeaderSections(b: Block)
    requires BlockOk(b)
    ensures HeaderSections(BlockLines(b)) == [b.section]
  {
    var h := HeaderLine(b.section);
    MatchHeaderLine(b.section);
    assert HeaderSections([h]) == [b.section] by {
      assert [h][1..] == [];
    }
    match b
    case ListBlock(s, l) =>
      HeaderSectionsConcat([h], l);
      HeaderSectionsData(l);
    case FlagBlock(s, f) =>
      FlagTextReadsBack(f);
      HeaderSectionsData([FlagText(f)]);
      HeaderSectionsConcat([h], [FlagText(f)]);
      assert [h] + [FlagText(f)] == [h, FlagText(f)];
  }

  /** The sections of the blocks from position `k` on. */
  function BlockSections(bs: seq<Block>, k: nat): seq<Section>
    requires k <= |bs|
    decreases |bs| - k
  {
    if k == |bs| then [] else [bs[k].section] + BlockSections(bs, k + 1)
  }

  /** The header lines of laid-out blocks are the blocks' sections, in order. */
  lemma {:induction false} LayoutHeaderSections(bs: seq<Block>, k: nat)
    requires BlocksOk(bs) && k <= |bs|
    ensures HeaderSections(Layout(bs, k)) == BlockSections(bs, k)
    decreases |bs| - k
  {
    if k < |bs| {
      var b := bs[k];
      assert BlockOk(b);
      var head, rest := BlockLines(b), Layout(bs, k + 1);
      assert Layout(bs, k) == head + rest;
      BlockHeaderSections(b);
      HeaderSectionsConcat(head, rest);
      LayoutHeaderSections(bs, k + 1);
      assert BlockSections(bs, k) == [b.section] + BlockSections(bs, k + 1);
    }
  }

  /** The header lines of the written lines name the seven sections, in the writer's order. */
  lemma SerializeHeaders(g: Gui)
    requires Representable(g)
    ensures HeaderSections(Serialize(g)) ==
      [IncludedDirectories, ExcludedDirectories, ExcludedItems, AllowedExtensions,
       SavingAtExit, LoadingAtStart, ConfirmDeletion]
  {
    WriterBlocksOk(g);
    var bs := WriterBlocks(g);
    SerializeBlocks(g);
    LayoutHeaderSections(bs, 0);
    SevenSections(bs);
  }

  /** The sections of seven blocks, spelled out. */
  lemma SevenSections(bs: seq<Block>)
    requires |bs| == 7
    ensures BlockSections(bs, 0) ==
      [bs[0].section, bs[1].section, bs[2].section, bs[3].section, bs[4].section, bs[5].section, bs[6].section]
  {
    assert BlockSections(bs, 7) == [];
    assert BlockSections(bs, 6) == [bs[6].section];
    assert BlockSections(bs, 5) == [bs[5].section, bs[6].section];
    assert BlockSections(bs, 4) == [bs[4].section, bs[5].section, bs[6].section];
    assert BlockSections(bs, 3) == [bs[3].section, bs[4].section, bs[5].section, bs[6].section];
    assert BlockSections(bs, 2) == [bs[2].section, bs[3].section, bs[4].section, bs[5].section, bs[6].section];
    assert BlockSections(bs, 1) == [bs[1].section, bs[2].section, bs[3].section, bs[4].section, bs[5].section, bs[6].section];
  }

  /** Where each section's header and data sit among the written lines. */
  lemma SerializeSlices(g: Gui)
    ensures var s, a, b := Serialize(g), |g.includedDirectories|, |g.excludedDirectories|;
      var c, d := |Patterns(g.excludedItemsText)|, |Patterns(g.allowedExtensionsText)|;
      && |s| == a + b + c + d + 10
      && s[0] == HeaderLine(IncludedDirectories) && s[1..1 + a] == g.includedDirectories
      && s[1 + a] == HeaderLine(ExcludedDirectories) && s[2 + a..2 + a + b] == g.excludedDirectories
      && s[2 + a + b] == HeaderLine(ExcludedItems) && s[3 + a + b..3 + a + b + c] == Patterns(g.excludedItemsText)
      && s[3 + a + b + c] == HeaderLine(AllowedExtensions)
      && s[4 + a + b + c..4 + a + b + c + d] == Patterns(g.allowedExtensionsText)
      && s[4 + a + b + c + d..] == [HeaderLine(SavingAtExit), FlagText(g.saveAtExit),
                                    HeaderLine(LoadingAtStart), FlagText(g.loadAtStart),
                                    HeaderLine(ConfirmDeletion), FlagText(g.confirmDeletion)]
  {
    var l0, l1 := g.includedDirectories, g.excludedDirectories;
    var l2, l3 := Patterns(g.excludedItemsText), Patterns(g.allowedExtensionsText);
    var p0 := [HeaderLine(IncludedDirectories)] + l0;
    var p1 := p0 + [HeaderLine(ExcludedDirectories)] + l1;
    var p2 := p1 + [HeaderLine(ExcludedItems)] + l2;
    var p3 := p2 + [HeaderLine(AllowedExtensions)] + l3;
    var tail := [HeaderLine(SavingAtExit), FlagText(g.saveAtExit),
                 HeaderLine(LoadingAtStart), FlagText(g.loadAtStart),
                 HeaderLine(ConfirmDeletion), FlagText(g.confirmDeletion)];
    var s := Serialize(g);
    assert s == p3 + tail;
    assert s[..|p3|] == p3 && s[|p3|..] == tail;
    assert p3[..|p2|] == p2 && p2[..|p1|] == p1 && p1[..|p0|] == p0;
    assert p0[1..] == l0;
    assert p1[|p0| + 1..] == l1;
    assert p2[|p1| + 1..] == l2;
    assert p3[|p2| + 1..] == l3;
  }

  /**
   * The layout of the file for representable widgets: exactly seven header
   * lines, in the fixed order, at positions 0, 1 + |included|, ...; between two
   * headers exactly that section's data; one `true`/`false` line per toggle.
   */
  lemma SerializeLayout(g: Gui)
    requires Representable(g)
    ensures HeaderSections(Serialize(g)) ==
      [IncludedDirectories, ExcludedDirectories, ExcludedItems, AllowedExtensions,
       SavingAtExit, LoadingAtStart, ConfirmDeletion]
    ensures var s, a, b := Serialize(g), |g.includedDirectories|, |g.excludedDirectories|;
      var c, d := |Patterns(g.excludedItemsText)|, |Patterns(g.allowedExtensionsText)|;
      && |s| == a + b + c + d + 10
      && s[0] == HeaderLine(IncludedDirectories) && s[1..1 + a] == g.includedDirectories
      && s[1 + a] == HeaderLine(ExcludedDirectories) && s[2 + a..2 + a + b] == g.excludedDirectories
      && s[2 + a + b] == HeaderLine(ExcludedItems) && s[3 + a + b..3 + a + b + c] == Patterns(g.excludedItemsText)
      && s[3 + a + b + c] == HeaderLine(AllowedExtensions)
      && s[4 + a + b + c..4 + a + b + c + d] == Patterns(g.allowedExtensionsText)
      && s[4 + a + b + c + d..] == [HeaderLine(SavingAtExit), FlagText(g.saveAtExit),
                                    HeaderLine(LoadingAtStart), FlagText(g.loadAtStart),
                                    HeaderLine(ConfirmDeletion), FlagText(g.confirmDeletion)]
  {
    SerializeHeaders(g);
    SerializeSlices(g);
  }
}
