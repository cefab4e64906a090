/**
 * The end of `load_configuration` (czkawka_gui/src/saving_loading.rs):
 * where the text comes from, the decision whether to apply what the pass
 * read, what applying does to the widgets, and the status line it leaves.
 */
module ConfigLoad {
  import opened Wrappers
  import opened Strings
  import opened ConfigFormat
  import opened ConfigParser

  /** What the file system answers the reader. */
  datatype ConfigSource =
    | HomeUnknown            // no project directories for the user
    | FileMissing            // the path does not exist or is not a regular file
    | FileUnreadable         // `read_to_string` failed
    | FileContents(text: string)

  /** What happened to the values the pass read. */
  datatype LoadOutcome =
    | NotRead                // the file was never parsed
    | Aborted                // orphan data: the function returned before setting anything
    | OnlyLoadFlagFalse      // automatic load with `load_at_start` false
    | Applied(values: Settings)

  /** The whole effect of a load: the widgets afterwards, the outcome, and the status line (None: not set). */
  datatype LoadResult = LoadResult(gui: Gui, outcome: LoadOutcome, status: Option<Status>)

  /** The decision after the pass: everything is applied on a manual load or when `load_at_start` was read as true. */
  function Decide(p: ParserState, manualExecution: bool): (outcome: LoadOutcome)
    ensures outcome.Aborted? <==> p.orphan
    ensures outcome.Applied? ==> outcome.values == p.values
    ensures !p.orphan && (manualExecution || p.values.loadingAtStart) ==> outcome == Applied(p.values)
    ensures outcome == OnlyLoadFlagFalse <==> !p.orphan && !manualExecution && !p.values.loadingAtStart
  {
    if p.orphan then Aborted
    else if manualExecution || p.values.loadingAtStart then Applied(p.values)
    else OnlyLoadFlagFalse
  }

  /** The widgets after "Setting data": lists replaced, entries set to each value followed by a comma, toggles set. */
  function Apply(g: Gui, outcome: LoadOutcome): Gui {
    match outcome
    case Applied(v) =>
      Gui(v.includedDirectories, v.excludedDirectories,
          Terminated(v.excludedItems, ","), Terminated(v.allowedExtensions, ","),
          v.savingAtExit, v.loadingAtStart, v.confirmDeletion)
    case OnlyLoadFlagFalse => g.(loadAtStart := false)
    case _ => g
  }

  /** The status text the last message of the pass leaves, if it wrote any. */
  function LastProblem(problems: seq<Problem>): Option<Status> {
    if problems == [] then None else Some(ParseProblem(problems[|problems| - 1]))
  }

  /** `load_configuration` over a given source, every outcome of the I/O calls included. */
  function Load(g: Gui, manualExecution: bool, source: ConfigSource): LoadResult {
    match source
    case HomeUnknown => LoadResult(g, NotRead, Some(NoHomeToLoad))
    case FileMissing => LoadResult(g, NotRead, if manualExecution then Some(CannotLoadConfiguration) else None)
    case FileUnreadable => LoadResult(g, NotRead, Some(CannotReadConfiguration))
    case FileContents(text) =>
      var p := Parse(Lines(text));
      var outcome := Decide(p, manualExecution);
      LoadResult(Apply(g, outcome), outcome,
                 if p.orphan || !manualExecution then LastProblem(p.problems) else Some(ProperlyLoaded))
  }

  /**
   * `load_configuration` (lines 142-307) with its file-system calls as the
   * source: the early returns, the pass over the lines, the decision, the
   * setting of every widget and the status line.
   */
  method LoadConfiguration(g: Gui, manualExecution: bool, source: ConfigSource) returns (r: LoadResult)
    ensures r == Load(g, manualExecution, source)
  {
    if source.HomeUnknown? {
      return LoadResult(g, NotRead, Some(NoHomeToLoad));
    }
    if source.FileMissing? {
      var status := None;
      if manualExecution {
        status := Some(CannotLoadConfiguration);
      }
      return LoadResult(g, NotRead, status);
    }
    if source.FileUnreadable? {
      return LoadResult(g, NotRead, Some(CannotReadConfiguration));
    }
    var values, problems, orphan := ParseLines(Lines(source.text));
    var status := LastProblem(problems);
    if orphan {
      return LoadResult(g, Aborted, status);
    }
    var gui := g;
    var outcome;
    if manualExecution || values.loadingAtStart {
      // `iter().map(|e| e.to_string() + ",").collect::<String>()` for each entry
      var excludedItemsText := AppendTerminated([], values.excludedItems, ",");
      var allowedExtensionsText := AppendTerminated([], values.allowedExtensions, ",");
      gui := Gui(values.includedDirectories, values.excludedDirectories,
                 excludedItemsText, allowedExtensionsText,
                 values.savingAtExit, values.loadingAtStart, values.confirmDeletion);
      outcome := Applied(values);
    } else {
      gui := gui.(loadAtStart := false);
      outcome := OnlyLoadFlagFalse;
    }
    if manualExecution {
      status := Some(ProperlyLoaded);
    }
    return LoadResult(gui, outcome, status);
  }

  /** A missing file is never parsed: nothing changes, and only a manual load says so. */
  lemma LoadMissingFile(g: Gui, manualExecution: bool)
    ensures Load(g, manualExecution, FileMissing).gui == g
    ensures Load(g, manualExecution, FileMissing).outcome == NotRead
    ensures Load(g, manualExecution, FileMissing).status ==
      if manualExecution then Some(CannotLoadConfiguration) else None
  {
  }

  /**
   * Orphan data applies nothing: the widgets stay as they were and the status
   * line names an orphan-data line, one that exists and is a data line.
   */
  lemma LoadOrphan(g: Gui, manualExecution: bool, text: string)
    requires Parse(Lines(text)).orphan
    ensures Load(g, manualExecution, FileContents(text)).gui == g
    ensures Load(g, manualExecution, FileContents(text)).outcome == Aborted
    ensures var status := Load(g, manualExecution, FileContents(text)).status;
      && status.Some? && status.value.ParseProblem?
      && status.value.problem.kind == OrphanData
      && status.value.problem.lineNumber < |Lines(text)|
      && IsDataLine(Lines(text)[status.value.problem.lineNumber])
  {
    var lines := Lines(text);
    ParseFaithful(lines);
    var qs := Parse(lines).problems;
    assert ProblemFaithful(qs[|qs| - 1], lines);
  }

  /** An automatic load of a file that turns `load_at_start` off changes only that toggle. */
  lemma LoadAtStartOff(g: Gui, text: string)
    requires !Parse(Lines(text)).orphan && !Parse(Lines(text)).values.loadingAtStart
    ensures Load(g, false, FileContents(text)).gui == g.(loadAtStart := false)
    ensures Load(g, false, FileContents(text)).status == LastProblem(Parse(Lines(text)).problems)
  {
  }

  /**
   * A load that applies the file (a manual one, or an automatic one whose last
   * valid `load_at_start` value is true) sets every widget from the file when
   * there is no orphan data: each list to its section's data lines, each entry
   * to those followed by commas, each toggle to its last valid value (true if
   * none). A manual load reports it; an automatic one leaves the last message.
   */
  lemma LoadApplied(g: Gui, manualExecution: bool, text: string)
    requires !Parse(Lines(text)).orphan
    requires manualExecution || LastValidFlag(Lines(text), LoadingAtStart)
    ensures var lines, gui := Lines(text), Load(g, manualExecution, FileContents(text)).gui;
      && gui.includedDirectories == SectionEntries(lines, IncludedDirectories)
      && gui.excludedDirectories == SectionEntries(lines, ExcludedDirectories)
      && gui.excludedItemsText == Terminated(SectionEntries(lines, ExcludedItems), ",")
      && gui.allowedExtensionsText == Terminated(SectionEntries(lines, AllowedExtensions), ",")
      && gui.saveAtExit == LastValidFlag(lines, SavingAtExit)
      && gui.loadAtStart == LastValidFlag(lines, LoadingAtStart)
      && gui.confirmDeletion == LastValidFlag(lines, ConfirmDeletion)
    ensures Load(g, manualExecution, FileContents(text)).status ==
      if manualExecution then Some(ProperlyLoaded) else LastProblem(Reported(Lines(text)))
  {
    var lines := Lines(text);
    var p := Parse(lines);
    ParseAccount(lines);
    var v := p.values;
    assert FlagOf(v, LoadingAtStart) == v.loadingAtStart;
    assert Decide(p, manualExecution) == Applied(v);
    assert ListOf(v, IncludedDirectories) == v.includedDirectories;
    assert ListOf(v, ExcludedDirectories) == v.excludedDirectories;
    assert ListOf(v, ExcludedItems) == v.excludedItems;
    assert ListOf(v, AllowedExtensions) == v.allowedExtensions;
    assert FlagOf(v, SavingAtExit) == v.savingAtExit;
    assert FlagOf(v, ConfirmDeletion) == v.confirmDeletion;
  }

}
