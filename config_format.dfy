/**
 * The settings file written by `save_configuration`
 * (czkawka_gui/src/saving_loading.rs): the settings as the GUI holds them,
 * the seven section headers, the line list the writer builds, and what the
 * write does to the file and to the status line.
 */
module ConfigFormat {
  import opened Wrappers
  import opened Strings

  /** The state of the settings widgets: two directory lists, two comma-separated entries, three toggles. */
  datatype Gui = Gui(
    includedDirectories: seq<string>,
    excludedDirectories: seq<string>,
    excludedItemsText: string,
    allowedExtensionsText: string,
    saveAtExit: bool,
    loadAtStart: bool,
    confirmDeletion: bool)

  /** The section a data line belongs to (`TypeOfLoadedData`; `None` is `NoSection`). */
  datatype Section =
    | NoSection
    | IncludedDirectories
    | ExcludedDirectories
    | ExcludedItems
    | AllowedExtensions
    | LoadingAtStart
    | SavingAtExit
    | ConfirmDeletion
  {
    predicate IsList() {
      IncludedDirectories? || ExcludedDirectories? || ExcludedItems? || AllowedExtensions?
    }

    predicate IsFlag() {
      LoadingAtStart? || SavingAtExit? || ConfirmDeletion?
    }
  }

  /** What the reader recognises a header by (a prefix of the trimmed line). */
  function HeaderPrefix(section: Section): string
    requires section != NoSection
  {
    match section
    case IncludedDirectories => "--included_directories"
    case ExcludedDirectories => "--excluded_directories"
    case ExcludedItems => "--excluded_items"
    case AllowedExtensions => "--allowed_extensions"
    case LoadingAtStart => "--load_at_start"
    case SavingAtExit => "--save_at_exit"
    case ConfirmDeletion => "--confirm_deletion"
  }

  /** The header line the writer emits. */
  function HeaderLine(section: Section): string
    requires section != NoSection
  {
    HeaderPrefix(section) + ":"
  }

  /** `bool::to_string`. */
  function FlagText(b: bool): string {
    if b then "true" else "false"
  }

  /** The tokens of a comma-separated entry that are not blank after trimming, untrimmed and in order. */
  function KeptTokens(tokens: seq<string>): seq<string> {
    if tokens == [] then []
    else if Trim(tokens[0]) == [] then KeptTokens(tokens[1..])
    else [tokens[0]] + KeptTokens(tokens[1..])
  }

  /** What the writer stores for an entry: `text.split(',')` without the blank tokens. */
  function Patterns(text: string): seq<string> {
    KeptTokens(Split(text, ','))
  }

  /** The lines `save_configuration` collects in `data_to_save`, in order. */
  function Serialize(g: Gui): seq<string> {
    [HeaderLine(IncludedDirectories)] + g.includedDirectories
    + [HeaderLine(ExcludedDirectories)] + g.excludedDirectories
    + [HeaderLine(ExcludedItems)] + Patterns(g.excludedItemsText)
    + [HeaderLine(AllowedExtensions)] + Patterns(g.allowedExtensionsText)
    + [HeaderLine(SavingAtExit), FlagText(g.saveAtExit)]
    + [HeaderLine(LoadingAtStart), FlagText(g.loadAtStart)]
    + [HeaderLine(ConfirmDeletion), FlagText(g.confirmDeletion)]
  }

  /** The file contents `writeln!` produces for the lines: each followed by a newline. */
  function FileText(lines: seq<string>): string {
    Terminated(lines, "\n")
  }

  /** Kept tokens are exactly the non-blank tokens: another token would be a blank one. */
  lemma {:induction false} KeptTokensSpec(tokens: seq<string>)
    ensures forall t :: t in KeptTokens(tokens) ==> t in tokens && Trim(t) != []
    ensures forall t :: t in tokens && Trim(t) != [] ==> t in KeptTokens(tokens)
    ensures |KeptTokens(tokens)| <= |tokens|
  {
    if tokens != [] {
      KeptTokensSpec(tokens[1..]);
      assert tokens == [tokens[0]] + tokens[1..];
    }
  }

  /** Appending a token to the input appends it to the kept tokens exactly when it is not blank. */
  lemma {:induction false} KeptTokensSnoc(tokens: seq<string>, t: string)
    ensures KeptTokens(tokens + [t]) == KeptTokens(tokens) + (if Trim(t) == [] then [] else [t])
  {
    if tokens == [] {
      assert [] + [t] == [t];
    } else {
      KeptTokensSnoc(tokens[1..], t);
      assert (tokens + [t])[1..] == tokens[1..] + [t];
    }
  }

  /** Kept tokens contain no comma and are not blank. */
  lemma PatternsShape(text: string)
    ensures NoneContains(Patterns(text), ',')
    ensures forall i :: 0 <= i < |Patterns(text)| ==> Trim(Patterns(text)[i]) != []
  {
    var tokens := Split(text, ',');
    KeptTokensSpec(tokens);
    forall i | 0 <= i < |Patterns(text)|
      ensures ',' !in Patterns(text)[i] && Trim(Patterns(text)[i]) != []
    {
      assert Patterns(text)[i] in KeptTokens(tokens);
    }
  }

  /** The split of a sample entry: blank tokens go, kept tokens stay untrimmed and in order. */
  lemma PatternsExample()
    ensures Patterns("*.git/*, , */node_modules/*,") == ["*.git/*", " */node_modules/*"]
  {
    ExampleText();
    ExampleTokens();
    PatternsOfThree("*.git/*", " ", " */node_modules/*");
  }

  /** Three comma-terminated tokens of which the middle one is blank. */
  lemma PatternsOfThree(t1: string, t2: string, t3: string)
    requires ',' !in t1 && ',' !in t2 && ',' !in t3
    requires Trim(t1) != [] && Trim(t2) == [] && Trim(t3) != []
    ensures Patterns(t1 + [','] + (t2 + [','] + (t3 + [','] + []))) == [t1, t3]
  {
    SplitNoSeparator([], ',');
    SplitAtSeparator(t3, [], ',');
    SplitAtSeparator(t2, t3 + [','] + [], ',');
    SplitAtSeparator(t1, t2 + [','] + (t3 + [','] + []), ',');
    var tokens := [t1, t2, t3, []];
    assert Split(t1 + [','] + (t2 + [','] + (t3 + [','] + [])), ',') == tokens;
    assert KeptTokens(tokens) == [t1] + KeptTokens([t2, t3, []]);
    assert KeptTokens([t2, t3, []]) == KeptTokens([t3, []]);
    assert KeptTokens([t3, []]) == [t3] + KeptTokens([[]]);
  }

  /** Which tokens of the example are blank. */
  lemma ExampleTokens()
    ensures Trim(" ") == []
    ensures Trim("*.git/*") != []
    ensures Trim(" */node_modules/*") != []
  {
    assert IsBlank(" ");
    assert !IsWhitespace("*.git/*"[0]);
    assert !IsWhitespace(" */node_modules/*"[1]);
  }

  /** The example entry as its tokens and commas. */
  lemma ExampleText()
    ensures "*.git/*, , */node_modules/*," == "*.git/*" + [','] + (" " + [','] + (" */node_modules/*" + [','] + []))
  {
  }

  /** The header lines the writer emits, spelled out. */
  lemma HeaderLines()
    ensures HeaderLine(IncludedDirectories) == "--included_directories:"
    ensures HeaderLine(ExcludedDirectories) == "--excluded_directories:"
    ensures HeaderLine(ExcludedItems) == "--excluded_items:"
    ensures HeaderLine(AllowedExtensions) == "--allowed_extensions:"
    ensures HeaderLine(SavingAtExit) == "--save_at_exit:"
    ensures HeaderLine(LoadingAtStart) == "--load_at_start:"
    ensures HeaderLine(ConfirmDeletion) == "--confirm_deletion:"
  {
  }

  /** The status line (`text_view_errors`) after a save or a load: the last text set there. */
  datatype Status =
    | NoHomeToSave             // "Failed to get home directory, so can't save file."
    | NoHomeToLoad             // "Failed to get home directory, so can't load file."
    | ConfigPathNotAFolder     // "Cannot create save file inside ... because this isn't a folder."
    | CannotCreateConfigFolder // "Failed configuration to create configuration folder ..."
    | CannotCreateConfigFile   // "Failed to create config file ..."
    | SavedConfiguration       // "Saved configuration to file ..."
    | SaveWriteFailed          // "Failed to save configuration data to file ..."
    | CannotLoadConfiguration  // "Cannot load configuration from file ..."
    | CannotReadConfiguration  // "Failed to read data from file ..."
    | ParseProblem(problem: Problem)
    | ProperlyLoaded           // "Properly loaded configuration from file ..."
    | ConfigurationCleared     // "Current configuration was cleared."

  /** The three messages the reader writes about a line. */
  datatype ProblemKind = InvalidHeader | OrphanData | InvalidData

  /** One reader message: the 0-based line number, its kind and the (trimmed) line it quotes. */
  datatype Problem = Problem(lineNumber: nat, kind: ProblemKind, line: string)

  /** The configuration folder as the writer finds it. */
  datatype FolderState = FolderMissing | FolderPresent | NotAFolder

  /**
   * The first `writeln!` that fails: the index of its line, and how many
   * characters of that line reached the unbuffered file before the error
   * (the line's newline never does, or the call would have succeeded).
   */
  datatype WriteFailure = WriteFailure(line: nat, written: nat)

  /** What the file system answers the writer: the outcomes of its I/O calls. */
  datatype SaveEnvironment = SaveEnvironment(
    hasHomeDirectory: bool,
    folder: FolderState,
    canCreateFolder: bool,
    canCreateFile: bool,
    failingWrite: Option<WriteFailure>)  // the first `writeln!` that fails, if any

  /** What a save leaves behind: the file's new contents (None: not touched) and the status line (None: not set). */
  datatype SaveOutcome = SaveOutcome(file: Option<string>, status: Option<Status>)

  /** Every `writeln!` succeeds: no failure, or one past the last line. */
  predicate WriteCompletes(lines: seq<string>, failure: Option<WriteFailure>) {
    failure.None? || failure.value.line >= |lines|
  }

  /** The part of a line that reached the file when its write failed: at most the whole line, never its newline. */
  function Partial(line: string, written: nat): (part: string)
    ensures |part| <= |line| && part == line[..|part|]
    ensures part == line <==> written >= |line|
  {
    if written < |line| then line[..written] else line
  }

  /** The file text the write loop leaves: every line up to the failing one, then what reached the file of that one. */
  function WrittenText(lines: seq<string>, failure: Option<WriteFailure>): string {
    if WriteCompletes(lines, failure) then FileText(lines)
    else FileText(lines[..failure.value.line]) + Partial(lines[failure.value.line], failure.value.written)
  }

  /**
   * What a failing write leaves is a beginning of the full file text, and it
   * is the whole text exactly when every `writeln!` succeeded.
   */
  lemma WrittenTextPrefix(lines: seq<string>, failure: Option<WriteFailure>)
    ensures |WrittenText(lines, failure)| <= |FileText(lines)|
    ensures WrittenText(lines, failure) == FileText(lines)[..|WrittenText(lines, failure)|]
    ensures WrittenText(lines, failure) == FileText(lines) <==> WriteCompletes(lines, failure)
  {
    if !WriteCompletes(lines, failure) {
      var k := failure.value.line;
      var before, rest := lines[..k], lines[k + 1..];
      var part := Partial(lines[k], failure.value.written);
      assert lines == before + ([lines[k]] + rest);
      TerminatedConcat(before, [lines[k]] + rest, "\n");
      assert ([lines[k]] + rest)[1..] == rest;
      var full := FileText(before) + (lines[k] + "\n" + Terminated(rest, "\n"));
      assert FileText(lines) == full;
      assert part == lines[k][..|part|];
      assert WrittenText(lines, failure) == FileText(before) + part;
      assert |part| < |lines[k] + "\n"|;
    }
  }

  /** Appends the entries of a directory list, one line each (lines 46-53 and 59-66). */
  method AppendDirectories(dataToSave: seq<string>, directories: seq<string>) returns (r: seq<string>)
    ensures r == dataToSave + directories
  {
    r := dataToSave;
    var i := 0;
    while i < |directories|
      invariant 0 <= i <= |directories|
      invariant r == dataToSave + directories[..i]
    {
      r := r + [directories[i]];
      i := i + 1;
    }
    assert directories[..i] == directories;
  }

  /** Appends the non-blank comma-separated tokens of an entry (lines 71-76 and 81-86). */
  method AppendPatterns(dataToSave: seq<string>, text: string) returns (r: seq<string>)
    ensures r == dataToSave + Patterns(text)
  {
    var tokens := Split(text, ',');
    r := dataToSave;
    var i := 0;
    while i < |tokens|
      invariant 0 <= i <= |tokens|
      invariant r == dataToSave + KeptTokens(tokens[..i])
    {
      var item := tokens[i];
      KeptTokensSnoc(tokens[..i], item);
      assert tokens[..i + 1] == tokens[..i] + [item];
      if Trim(item) != [] {
        r := r + [item];
      }
      i := i + 1;
    }
    assert tokens[..i] == tokens;
  }

  /** The line building of `save_configuration` (lines 40-101). */
  method SaveLines(g: Gui) returns (dataToSave: seq<string>)
    ensures dataToSave == Serialize(g)
  {
    HeaderLines();
    dataToSave := [];
    dataToSave := dataToSave + ["--included_directories:"];
    dataToSave := AppendDirectories(dataToSave, g.includedDirectories);
    dataToSave := dataToSave + ["--excluded_directories:"];
    dataToSave := AppendDirectories(dataToSave, g.excludedDirectories);
    dataToSave := dataToSave + ["--excluded_items:"];
    dataToSave := AppendPatterns(dataToSave, g.excludedItemsText);
    dataToSave := dataToSave + ["--allowed_extensions:"];
    dataToSave := AppendPatterns(dataToSave, g.allowedExtensionsText);
    dataToSave := dataToSave + ["--save_at_exit:", FlagText(g.saveAtExit)];
    dataToSave := dataToSave + ["--load_at_start:", FlagText(g.loadAtStart)];
    dataToSave := dataToSave + ["--confirm_deletion:", FlagText(g.confirmDeletion)];
  }

  /**
   * `save_configuration` with its file-system calls as inputs: skipped at exit
   * when the toggle is off, otherwise the folder checks, the file creation and
   * the line-by-line write, each failure leaving its own status text.
   */
  method SaveConfiguration(g: Gui, manualExecution: bool, env: SaveEnvironment) returns (outcome: SaveOutcome)
    ensures !manualExecution && !g.saveAtExit ==> outcome == SaveOutcome(None, None)
    ensures (manualExecution || g.saveAtExit) ==>
      outcome ==
        if !env.hasHomeDirectory then SaveOutcome(None, Some(NoHomeToSave))
        else if env.folder == NotAFolder then SaveOutcome(None, Some(ConfigPathNotAFolder))
        else if env.folder == FolderMissing && !env.canCreateFolder then SaveOutcome(None, Some(CannotCreateConfigFolder))
        else if !env.canCreateFile then SaveOutcome(None, Some(CannotCreateConfigFile))
        else SaveOutcome(
          Some(WrittenText(Serialize(g), env.failingWrite)),
          Some(if WriteCompletes(Serialize(g), env.failingWrite) then SavedConfiguration else SaveWriteFailed))
  {
    if !manualExecution && !g.saveAtExit {
      return SaveOutcome(None, None);
    }
    if !env.hasHomeDirectory {
      return SaveOutcome(None, Some(NoHomeToSave));
    }
    if env.folder == NotAFolder {
      return SaveOutcome(None, Some(ConfigPathNotAFolder));
    } else if env.folder == FolderMissing && !env.canCreateFolder {
      return SaveOutcome(None, Some(CannotCreateConfigFolder));
    }
    var dataToSave := SaveLines(g);
    if !env.canCreateFile {
      return SaveOutcome(None, Some(CannotCreateConfigFile));
    }
    var file: string := [];
    var status: Option<Status> := None;
    var i := 0;
    while i < |dataToSave|
      invariant 0 <= i <= |dataToSave|
      invariant env.failingWrite.Some? ==> i <= env.failingWrite.value.line
      invariant file == FileText(dataToSave[..i])
      invariant status == if i == 0 then None else Some(SavedConfiguration)
    {
      if env.failingWrite.Some? && env.failingWrite.value.line == i {
        file := file + Partial(dataToSave[i], env.failingWrite.value.written);
        return SaveOutcome(Some(file), Some(SaveWriteFailed));
      }
      TerminatedConcat(dataToSave[..i], [dataToSave[i]], "\n");
      assert dataToSave[..i + 1] == dataToSave[..i] + [dataToSave[i]];
      file := file + dataToSave[i] + "\n";
      status := Some(SavedConfiguration);
      i := i + 1;
    }
    assert dataToSave[..i] == dataToSave;
    return SaveOutcome(Some(file), status);
  }
}
