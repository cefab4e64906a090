/**
 * The settings file end to end (czkawka_gui/src/saving_loading.rs): the text
 * `save_configuration` writes, read back by `load_configuration`, sets the
 * widgets to what they held (entries normalised to trimmed tokens followed
 * by commas), and a second save and load changes nothing more.
 */
module ConfigReload {
  import opened Wrappers
  import opened Strings
  import opened ConfigFormat
  import opened ConfigParser
  import opened ConfigLoad
  import opened ConfigRoundTrip

  /** Every line is a single line of the file. */
  predicate AllOneLine(xs: seq<string>) {
    forall i :: 0 <= i < |xs| ==> OneLine(xs[i])
  }

  /** Lines without line breaks contain neither LF nor CR. */
  lemma AllOneLineAvoids(xs: seq<string>)
    requires AllOneLine(xs)
    ensures NoneContains(xs, '\n') && NoneContains(xs, '\r')
  {
    forall i | 0 <= i < |xs|
      ensures '\n' !in xs[i] && '\r' !in xs[i]
    {
      assert OneLine(xs[i]);
    }
  }

  /** Single lines stay single lines when two lists of them are put together. */
  lemma AllOneLineConcat(a: seq<string>, b: seq<string>)
    requires AllOneLine(a) && AllOneLine(b)
    ensures AllOneLine(a + b)
  {
    assert forall i :: 0 <= i < |a + b| ==> (a + b)[i] == if i < |a| then a[i] else b[i - |a|];
  }

  /** A list section's header line is a single line. */
  lemma ListHeaderLines(s: Section)
    requires s.IsList()
    ensures AllOneLine([HeaderLine(s)])
  {
    ListHeaderOneLine(s);
  }

  /** The lines of a toggle section as the writer emits it are single lines. */
  lemma FlagSectionOneLine(s: Section, b: bool)
    requires s.IsFlag()
    ensures AllOneLine([HeaderLine(s), FlagText(b)])
  {
    FlagHeaderOneLine(s);
    FlagTextReadsBack(b);
  }

  /** The writer's lines for representable widgets never hold a line break. */
  lemma SerializeOneLine(g: Gui)
    requires Representable(g)
    ensures NoneContains(Serialize(g), '\n') && NoneContains(Serialize(g), '\r')
  {
    var l0, l1 := g.includedDirectories, g.excludedDirectories;
    var l2, l3 := Patterns(g.excludedItemsText), Patterns(g.allowedExtensionsText);
    assert AllOneLine(l0) && AllOneLine(l1) && AllOneLine(l2) && AllOneLine(l3) by {
      assert forall i :: 0 <= i < |l0| ==> StorableEntry(l0[i]);
      assert forall i :: 0 <= i < |l1| ==> StorableEntry(l1[i]);
      assert forall i :: 0 <= i < |l2| ==> StorableToken(l2[i]);
      assert forall i :: 0 <= i < |l3| ==> StorableToken(l3[i]);
    }
    var h0, h1 := [HeaderLine(IncludedDirectories)], [HeaderLine(ExcludedDirectories)];
    var h2, h3 := [HeaderLine(ExcludedItems)], [HeaderLine(AllowedExtensions)];
    var f4 := [HeaderLine(SavingAtExit), FlagText(g.saveAtExit)];
    var f5 := [HeaderLine(LoadingAtStart), FlagText(g.loadAtStart)];
    var f6 := [HeaderLine(ConfirmDeletion), FlagText(g.confirmDeletion)];
    ListHeaderLines(IncludedDirectories);
    ListHeaderLines(ExcludedDirectories);
    ListHeaderLines(ExcludedItems);
    ListHeaderLines(AllowedExtensions);
    FlagSectionOneLine(SavingAtExit, g.saveAtExit);
    FlagSectionOneLine(LoadingAtStart, g.loadAtStart);
    FlagSectionOneLine(ConfirmDeletion, g.confirmDeletion);
    var x := h0 + l0;
    AllOneLineConcat(h0, l0);
    AllOneLineConcat(x, h1);
    x := x + h1;
    AllOneLineConcat(x, l1);
    x := x + l1;
    AllOneLineConcat(x, h2);
    x := x + h2;
    AllOneLineConcat(x, l2);
    x := x + l2;
    AllOneLineConcat(x, h3);
    x := x + h3;
    AllOneLineConcat(x, l3);
    x := x + l3;
    AllOneLineConcat(x, f4);
    x := x + f4;
    AllOneLineConcat(x, f5);
    x := x + f5;
    AllOneLineConcat(x, f6);
    x := x + f6;
    assert x == Serialize(g);
    AllOneLineAvoids(x);
  }

  /**
   * Round trip through the file: the text written for representable widgets,
   * with LF or with CR LF line ends, reads back as the widgets' settings with
   * no message.
   */
  lemma FileRoundTrip(g: Gui)
    requires Representable(g)
    ensures Parse(Lines(FileText(Serialize(g)))) == ParserState(ConfirmDeletion, ReadBack(g), [], false)
    ensures Parse(Lines(Terminated(Serialize(g), "\r\n"))) == ParserState(ConfirmDeletion, ReadBack(g), [], false)
  {
    SerializeOneLine(g);
    ParseFileText(Serialize(g));
    ParseSerialize(g);
  }

  /** The widgets after loading what was saved: lists as they were, entries as trimmed tokens each followed by a comma. */
  function Reloaded(g: Gui): Gui {
    Gui(g.includedDirectories, g.excludedDirectories,
        Terminated(TrimAll(Patterns(g.excludedItemsText)), ","),
        Terminated(TrimAll(Patterns(g.allowedExtensionsText)), ","),
        g.saveAtExit, g.loadAtStart, g.confirmDeletion)
  }

  /**
   * Saving and then loading by hand restores every widget (up to the entries'
   * normalisation) whatever the widgets held before the load, and the status
   * line reports the load.
   */
  lemma SaveThenLoadManual(g: Gui, h: Gui)
    requires Representable(g)
    ensures Load(h, true, FileContents(FileText(Serialize(g))))
      == LoadResult(Reloaded(g), Applied(ReadBack(g)), Some(ProperlyLoaded))
  {
    FileRoundTrip(g);
    var p := Parse(Lines(FileText(Serialize(g))));
    assert p == ParserState(ConfirmDeletion, ReadBack(g), [], false);
    assert Decide(p, true) == Applied(ReadBack(g));
  }

  /**
   * Saving and then loading at start: the widgets are restored when the saved
   * `load_at_start` is on; otherwise only that toggle is turned off. Either
   * way the status line is left alone.
   */
  lemma SaveThenLoadAtStart(g: Gui, h: Gui)
    requires Representable(g)
    ensures Load(h, false, FileContents(FileText(Serialize(g))))
      == if g.loadAtStart then LoadResult(Reloaded(g), Applied(ReadBack(g)), None)
         else LoadResult(h.(loadAtStart := false), OnlyLoadFlagFalse, None)
  {
    FileRoundTrip(g);
    var p := Parse(Lines(FileText(Serialize(g))));
    assert p == ParserState(ConfirmDeletion, ReadBack(g), [], false);
    assert p.values.loadingAtStart == g.loadAtStart;
  }

  /** Trimming keeps a single line single and a comma-free token comma-free. */
  lemma TrimInside(t: string)
    ensures OneLine(t) ==> OneLine(Trim(t))
    ensures ',' !in t ==> ',' !in Trim(t)
  {
    TrimSlice(t);
    var d := |t| - |TrimStart(t)|;
    assert forall i :: 0 <= i < |Trim(t)| ==> Trim(t)[i] == t[d + i];
  }

  /** Trimming each item twice is trimming it once. */
  lemma {:induction false} TrimAllIdempotent(xs: seq<string>)
    ensures TrimAll(TrimAll(xs)) == TrimAll(xs)
  {
    if xs != [] {
      TrimIdempotent(xs[0]);
      TrimAllIdempotent(xs[1..]);
      assert TrimAll(xs)[1..] == TrimAll(xs[1..]);
    }
  }

  /** Tokens the writer can keep and the reader stores unchanged. */
  predicate CleanTokens(xs: seq<string>) {
    forall i :: 0 <= i < |xs| ==> ',' !in xs[i] && Trim(xs[i]) != [] && Trim(xs[i]) == xs[i]
  }

  /** Tokens written each followed by a comma split back into themselves. */
  lemma {:induction false} PatternsOfTerminated(xs: seq<string>)
    requires CleanTokens(xs)
    ensures Patterns(Terminated(xs, ",")) == xs
  {
    SplitTerminated(xs, ',');
    KeptTokensSnoc(xs, []);
    KeptAll(xs);
  }

  /** Non-blank tokens are all kept. */
  lemma {:induction false} KeptAll(xs: seq<string>)
    requires forall i :: 0 <= i < |xs| ==> Trim(xs[i]) != []
    ensures KeptTokens(xs) == xs
  {
    if xs != [] {
      KeptAll(xs[1..]);
      assert xs == [xs[0]] + xs[1..];
    }
  }

  /** The tokens the reader stores for an entry are clean, and storable when the entry's tokens were. */
  lemma TrimmedPatterns(text: string)
    ensures CleanTokens(TrimAll(Patterns(text)))
    ensures (forall i :: 0 <= i < |Patterns(text)| ==> StorableToken(Patterns(text)[i])) ==>
      forall i :: 0 <= i < |TrimAll(Patterns(text))| ==> StorableToken(TrimAll(Patterns(text))[i])
  {
    var ps := Patterns(text);
    var ts := TrimAll(ps);
    PatternsShape(text);
    TrimAllShape(ps);
    forall i | 0 <= i < |ts|
      ensures ',' !in ts[i] && Trim(ts[i]) != [] && Trim(ts[i]) == ts[i]
      ensures StorableToken(ps[i]) ==> StorableToken(ts[i])
    {
      TrimInside(ps[i]);
      TrimIdempotent(ps[i]);
    }
  }

  /** What a load restores can be saved and loaded again. */
  lemma ReloadedRepresentable(g: Gui)
    requires Representable(g)
    ensures Representable(Reloaded(g))
  {
    TrimmedPatterns(g.excludedItemsText);
    TrimmedPatterns(g.allowedExtensionsText);
    PatternsOfTerminated(TrimAll(Patterns(g.excludedItemsText)));
    PatternsOfTerminated(TrimAll(Patterns(g.allowedExtensionsText)));
  }

  /** A second save and load changes nothing: the widgets after one round trip are a fixed point. */
  lemma ReloadStable(g: Gui)
    ensures Reloaded(Reloaded(g)) == Reloaded(g)
  {
    var ti, ta := TrimAll(Patterns(g.excludedItemsText)), TrimAll(Patterns(g.allowedExtensionsText));
    TrimmedPatterns(g.excludedItemsText);
    TrimmedPatterns(g.allowedExtensionsText);
    PatternsOfTerminated(ti);
    PatternsOfTerminated(ta);
    TrimAllIdempotent(Patterns(g.excludedItemsText));
    TrimAllIdempotent(Patterns(g.allowedExtensionsText));
  }
}
