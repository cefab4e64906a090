/**
 * The reader half of czkawka_gui/src/saving_loading.rs: the single pass of
 * `load_configuration` over the lines of the file (a state machine over the
 * current section), the decision whether to apply what it read, and what the
 * load does to the widgets and to the status line.
 */
module ConfigParser {
  import opened Wrappers
  import opened Strings
  import opened ConfigFormat

  /** The values the reader collects (the local variables of `load_configuration`). */
  datatype Settings = Settings(
    includedDirectories: seq<string>,
    excludedDirectories: seq<string>,
    excludedItems: seq<string>,
    allowedExtensions: seq<string>,
    loadingAtStart: bool,
    savingAtExit: bool,
    confirmDeletion: bool)

  /** Before the first line: four empty lists, every toggle true. */
  const InitialSettings := Settings([], [], [], [], true, true, true)

  /** The reader between two lines: the current section, what it has collected, its messages, and whether it stopped. */
  datatype ParserState = ParserState(current: Section, values: Settings, problems: seq<Problem>, orphan: bool)

  const Start := ParserState(NoSection, InitialSettings, [], false)

  /** The list a list section collects. */
  function ListOf(v: Settings, s: Section): seq<string>
    requires s.IsList()
  {
    match s
    case IncludedDirectories => v.includedDirectories
    case ExcludedDirectories => v.excludedDirectories
    case ExcludedItems => v.excludedItems
    case AllowedExtensions => v.allowedExtensions
  }

  /** The toggle a toggle section sets. */
  function FlagOf(v: Settings, s: Section): bool
    requires s.IsFlag()
  {
    match s
    case LoadingAtStart => v.loadingAtStart
    case SavingAtExit => v.savingAtExit
    case ConfirmDeletion => v.confirmDeletion
  }

  /** The section whose header the trimmed line starts with, tried in the order the reader tries them. */
  function MatchHeader(line: string): Option<Section> {
    if StartsWith(line, "--included_directories") then Some(IncludedDirectories)
    else if StartsWith(line, "--excluded_directories") then Some(ExcludedDirectories)
    else if StartsWith(line, "--excluded_items") then Some(ExcludedItems)
    else if StartsWith(line, "--allowed_extensions") then Some(AllowedExtensions)
    else if StartsWith(line, "--load_at_start") then Some(LoadingAtStart)
    else if StartsWith(line, "--save_at_exit") then Some(SavingAtExit)
    else if StartsWith(line, "--confirm_deletion") then Some(ConfirmDeletion)
    else None
  }

  /** A toggle line, lower-cased: `1`/`true` and `0`/`false` are the only values. */
  function ParseFlag(line: string): Option<bool> {
    var lower := Lower(line);
    if lower == "1" || lower == "true" then Some(true)
    else if lower == "0" || lower == "false" then Some(false)
    else None
  }

  /** A line that is neither blank nor a header of any kind once trimmed. */
  predicate IsDataLine(raw: string) {
    Trim(raw) != [] && !StartsWith(Trim(raw), "--")
  }

  /** A line that switches the section. */
  predicate IsHeaderLine(raw: string) {
    MatchHeader(Trim(raw)).Some?
  }

  /** A data line, given to the current section. */
  function DataLine(p: ParserState, lineNumber: nat, line: string): ParserState {
    var v := p.values;
    match p.current
    case NoSection => p.(problems := p.problems + [Problem(lineNumber, OrphanData, line)], orphan := true)
    case IncludedDirectories => p.(values := v.(includedDirectories := v.includedDirectories + [line]))
    case ExcludedDirectories => p.(values := v.(excludedDirectories := v.excludedDirectories + [line]))
    case ExcludedItems => p.(values := v.(excludedItems := v.excludedItems + [line]))
    case AllowedExtensions => p.(values := v.(allowedExtensions := v.allowedExtensions + [line]))
    case LoadingAtStart =>
      (match ParseFlag(line)
       case Some(b) => p.(values := v.(loadingAtStart := b))
       case None => p.(problems := p.problems + [Problem(lineNumber, InvalidData, Lower(line))]))
    case SavingAtExit =>
      (match ParseFlag(line)
       case Some(b) => p.(values := v.(savingAtExit := b))
       case None => p.(problems := p.problems + [Problem(lineNumber, InvalidData, Lower(line))]))
    case ConfirmDeletion =>
      match ParseFlag(line)
      case Some(b) => p.(values := v.(confirmDeletion := b))
      case None => p.(problems := p.problems + [Problem(lineNumber, InvalidData, Lower(line))])
  }

  /** One pass of the loop body: trim, skip blanks, switch on headers, report unknown headers, store data. */
  function Step(p: ParserState, lineNumber: nat, raw: string): ParserState {
    var line := Trim(raw);
    if line == [] then p
    else match MatchHeader(line)
      case Some(s) => p.(current := s)
      case None =>
        if StartsWith(line, "--") then p.(problems := p.problems + [Problem(lineNumber, InvalidHeader, line)])
        else DataLine(p, lineNumber, line)
  }

  /** The loop over the lines numbered from `first`, stopping once orphan data was found. */
  function Run(p: ParserState, lines: seq<string>, first: nat): ParserState
    decreases |lines|
  {
    if lines == [] || p.orphan then p else Run(Step(p, first, lines[0]), lines[1..], first + 1)
  }

  /** The whole pass over the lines of a file. */
  function Parse(lines: seq<string>): ParserState {
    Run(Start, lines, 0)
  }

  /** `replace("\r\n", "\n").split('\n')`: the lines the reader iterates over. */
  function Lines(text: string): seq<string> {
    Split(ReplaceCrLf(text), '\n')
  }

  /** Running over two pieces is running over the first and then the second, numbered on from `mid`. */
  lemma {:induction false} RunConcat(p: ParserState, a: seq<string>, b: seq<string>, first: nat, mid: nat)
    requires mid == first + |a|
    ensures Run(p, a + b, first) == Run(Run(p, a, first), b, mid)
    decreases |a|
  {
    if a == [] {
      assert a + b == b;
    } else if !p.orphan {
      RunConcat(Step(p, first, a[0]), a[1..], b, first + 1, mid);
      assert (a + b)[1..] == a[1..] + b;
    } else {
      assert Run(p, b, mid) == p;
    }
  }

  /** One more line: one more step, unless the reader has already stopped. */
  lemma ParseSnoc(lines: seq<string>, raw: string)
    ensures Parse(lines + [raw]) ==
      if Parse(lines).orphan then Parse(lines) else Step(Parse(lines), |lines|, raw)
  {
    RunConcat(Start, lines, [raw], 0, |lines|);
  }

  /** After orphan data nothing more is read. */
  lemma ParseStopsAtOrphan(a: seq<string>, b: seq<string>)
    requires Parse(a).orphan
    ensures Parse(a + b) == Parse(a)
  {
    RunConcat(Start, a, b, 0, |a|);
  }

  /** Blank lines never change the reader's state. */
  lemma {:induction false} RunBlank(p: ParserState, blanks: seq<string>, first: nat)
    requires forall i :: 0 <= i < |blanks| ==> IsBlank(blanks[i])
    ensures Run(p, blanks, first) == p
    decreases |blanks|
  {
    if blanks != [] && !p.orphan {
      TrimShape(blanks[0]);
      RunBlank(p, blanks[1..], first + 1);
    }
  }

  /** Blank lines at the end of a file (the empty piece after the last newline among them) change nothing. */
  lemma ParseTrailingBlanks(lines: seq<string>, blanks: seq<string>)
    requires forall i :: 0 <= i < |blanks| ==> IsBlank(blanks[i])
    ensures Parse(lines + blanks) == Parse(lines)
  {
    var p := Run(Start, lines, 0);
    assert Run(Start, lines + blanks, 0) == Run(p, blanks, |lines|) by {
      RunConcat(Start, lines, blanks, 0, |lines|);
    }
    assert Run(p, blanks, |lines|) == p by {
      RunBlank(p, blanks, |lines|);
    }
  }

  /** A line an unknown `--` header: one invalid-header message; section and values stay as they were. */
  lemma ParseUnknownHeader(lines: seq<string>, raw: string)
    requires !Parse(lines).orphan
    requires StartsWith(Trim(raw), "--") && !IsHeaderLine(raw)
    ensures Parse(lines + [raw]).current == Parse(lines).current
    ensures Parse(lines + [raw]).values == Parse(lines).values
    ensures Parse(lines + [raw]).problems == Parse(lines).problems + [Problem(|lines|, InvalidHeader, Trim(raw))]
    ensures !Parse(lines + [raw]).orphan
  {
    ParseSnoc(lines, raw);
  }

  /** A header line switches the section and stores nothing, whatever follows the header on the line. */
  lemma ParseHeader(lines: seq<string>, raw: string)
    requires !Parse(lines).orphan
    requires IsHeaderLine(raw)
    ensures Parse(lines + [raw]) == Parse(lines).(current := MatchHeader(Trim(raw)).value)
  {
    ParseSnoc(lines, raw);
  }

  // ---------------------------------------------------------------------------
  // What every pass guarantees about what it collected and reported.

  /** What the reader stores: never blank, never padded, never header-like. */
  predicate EntryOk(e: string) {
    e != [] && IsTrimmed(e) && !StartsWith(e, "--")
  }

  predicate EntriesOk(v: Settings) {
    && (forall i :: 0 <= i < |v.includedDirectories| ==> EntryOk(v.includedDirectories[i]))
    && (forall i :: 0 <= i < |v.excludedDirectories| ==> EntryOk(v.excludedDirectories[i]))
    && (forall i :: 0 <= i < |v.excludedItems| ==> EntryOk(v.excludedItems[i]))
    && (forall i :: 0 <= i < |v.allowedExtensions| ==> EntryOk(v.allowedExtensions[i]))
  }

  /** A message quotes its line as the reader saw it: trimmed, and lower-cased for a bad toggle value. */
  predicate Reports(q: Problem, raw: string) {
    var t := Trim(raw);
    match q.kind
    case InvalidHeader => q.line == t && StartsWith(t, "--") && MatchHeader(t).None?
    case OrphanData => q.line == t && IsDataLine(raw)
    case InvalidData => q.line == Lower(t) && IsDataLine(raw) && ParseFlag(t).None?
  }

  /** A message names a real line (0-based, blank lines counted) and reports it. */
  predicate ProblemFaithful(q: Problem, lines: seq<string>) {
    q.lineNumber < |lines| && Reports(q, lines[q.lineNumber])
  }

  /** Every message about the lines is faithful. */
  predicate AllFaithful(qs: seq<Problem>, lines: seq<string>) {
    forall i :: 0 <= i < |qs| ==> ProblemFaithful(qs[i], lines)
  }

  /** Messages in strictly increasing line order, an orphan message only at the end. */
  predicate Ordered(qs: seq<Problem>) {
    && (forall i, j :: 0 <= i < j < |qs| ==> qs[i].lineNumber < qs[j].lineNumber)
    && (forall i :: 0 <= i < |qs| - 1 ==> qs[i].kind != OrphanData)
  }

  /** The reader stopped exactly when its last message is about orphan data. */
  predicate StopsOnOrphan(p: ParserState) {
    p.orphan <==> p.problems != [] && p.problems[|p.problems| - 1].kind == OrphanData
  }

  /** The messages, in line order, each faithful; an orphan message comes last and only then. */
  predicate ProblemsFaithful(p: ParserState, lines: seq<string>) {
    AllFaithful(p.problems, lines) && Ordered(p.problems) && StopsOnOrphan(p)
  }

  /** A faithful message about a prefix is faithful about the whole. */
  lemma ProblemFaithfulExtends(q: Problem, lines: seq<string>, n: nat)
    requires n <= |lines|
    requires ProblemFaithful(q, lines[..n])
    ensures ProblemFaithful(q, lines)
  {
    assert lines[..n][q.lineNumber] == lines[q.lineNumber];
  }

  /** Every pass stores only well-formed entries and reports faithfully. */
  lemma {:induction false} ParseFaithful(lines: seq<string>)
    ensures EntriesOk(Parse(lines).values)
    ensures ProblemsFaithful(Parse(lines), lines)
  {
    if lines == [] {
      assert Parse(lines) == Start;
    } else {
      var n := |lines| - 1;
      var before, raw := lines[..n], lines[n];
      assert lines == before + [raw];
      ParseFaithful(before);
      var p := Parse(before);
      assert Parse(lines) == if p.orphan then p else Step(p, n, raw) by {
        ParseSnoc(before, raw);
      }
      assert AllFaithful(p.problems, lines) by {
        forall i | 0 <= i < |p.problems|
          ensures ProblemFaithful(p.problems[i], lines)
        {
          ProblemFaithfulExtends(p.problems[i], lines, n);
        }
      }
      if !p.orphan {
        StepFaithful(p, n, raw);
        FaithfulAppend(p, Step(p, n, raw), lines);
      }
    }
  }

  /** The facts of `ProblemsFaithful` survive a step over the last line. */
  lemma FaithfulAppend(p: ParserState, p': ParserState, lines: seq<string>)
    requires lines != [] && !p.orphan
    requires AllFaithful(p.problems, lines)
    requires forall i :: 0 <= i < |p.problems| ==> p.problems[i].lineNumber < |lines| - 1
    requires Ordered(p.problems) && StopsOnOrphan(p)
    requires Extends(p, p', |lines| - 1, lines[|lines| - 1])
    ensures ProblemsFaithful(p', lines)
  {
    var qs, qs' := p.problems, p'.problems;
    if qs' != qs {
      var q := qs'[|qs|];
      assert qs' == qs + [q];
      assert ProblemFaithful(q, lines);
      assert AllFaithful(qs', lines) by {
        AllFaithfulSnoc(qs, q, lines);
      }
      assert Ordered(qs') by {
        assert forall i :: 0 <= i < |qs| ==> qs[i].kind != OrphanData;
        OrderedSnoc(qs, q);
      }
    }
  }

  lemma AllFaithfulSnoc(qs: seq<Problem>, q: Problem, lines: seq<string>)
    requires AllFaithful(qs, lines) && ProblemFaithful(q, lines)
    ensures AllFaithful(qs + [q], lines)
  {
    assert forall i :: 0 <= i < |qs| ==> (qs + [q])[i] == qs[i];
  }

  lemma OrderedSnoc(qs: seq<Problem>, q: Problem)
    requires Ordered(qs)
    requires forall i :: 0 <= i < |qs| ==> qs[i].lineNumber < q.lineNumber && qs[i].kind != OrphanData
    ensures Ordered(qs + [q])
  {
    assert forall i :: 0 <= i < |qs| ==> (qs + [q])[i] == qs[i];
  }

  /** The messages a step adds: none, or one about this line; it stops exactly when that one is an orphan message. */
  predicate Extends(p: ParserState, p': ParserState, n: nat, raw: string) {
    && (p'.problems == p.problems
        || (&& |p'.problems| == |p.problems| + 1
            && p'.problems[..|p.problems|] == p.problems
            && p'.problems[|p.problems|].lineNumber == n
            && Reports(p'.problems[|p.problems|], raw)))
    && (p'.orphan <==> p'.problems != p.problems && p'.problems[|p.problems|].kind == OrphanData)
  }

  /** One step stores only well-formed entries and reports only about its own line. */
  lemma StepFaithful(p: ParserState, n: nat, raw: string)
    requires !p.orphan
    requires EntriesOk(p.values)
    ensures EntriesOk(Step(p, n, raw).values)
    ensures Extends(p, Step(p, n, raw), n, raw)
  {
    TrimShape(raw);
    var line := Trim(raw);
    if line == [] {
      assert Step(p, n, raw) == p;
    } else if MatchHeader(line).Some? {
      assert Step(p, n, raw) == p.(current := MatchHeader(line).value);
    } else if StartsWith(line, "--") {
      assert Step(p, n, raw) == p.(problems := p.problems + [Problem(n, InvalidHeader, line)]);
    } else {
      assert Step(p, n, raw) == DataLine(p, n, line);
      assert EntryOk(line);
      DataLineFaithful(p, n, raw);
    }
  }

  /** A data line is stored as it is, or reported. */
  lemma DataLineFaithful(p: ParserState, n: nat, raw: string)
    requires !p.orphan
    requires EntriesOk(p.values)
    requires EntryOk(Trim(raw))
    ensures EntriesOk(DataLine(p, n, Trim(raw)).values)
    ensures Extends(p, DataLine(p, n, Trim(raw)), n, raw)
  {
    var line := Trim(raw);
    var v := p.values;
    var p' := DataLine(p, n, line);
    match p.current
    case NoSection =>
    case IncludedDirectories =>
      assert p'.values.includedDirectories == v.includedDirectories + [line];
    case ExcludedDirectories =>
      assert p'.values.excludedDirectories == v.excludedDirectories + [line];
    case ExcludedItems =>
      assert p'.values.excludedItems == v.excludedItems + [line];
    case AllowedExtensions =>
      assert p'.values.allowedExtensions == v.allowedExtensions + [line];
    case LoadingAtStart =>
    case SavingAtExit =>
    case ConfirmDeletion =>
  }

  // ---------------------------------------------------------------------------
  // A line-by-line account of the pass, independent of the state machine.

  /** Every header prefix starts with `--`, so a header line is never a data line. */
  lemma HeaderIsNotData(raw: string)
    requires IsHeaderLine(raw)
    ensures !IsDataLine(raw)
    ensures MatchHeader(Trim(raw)).value != NoSection
  {
    var t := Trim(raw);
    var prefix := HeaderPrefix(MatchHeader(t).value);
    assert StartsWith(t, prefix);
    assert t[..2] == prefix[..2];
  }

  /** The step over one line, by the kind of the line. */
  lemma StepCases(p: ParserState, n: nat, raw: string)
    ensures Trim(raw) == [] ==> Step(p, n, raw) == p
    ensures IsHeaderLine(raw) ==> Step(p, n, raw) == p.(current := MatchHeader(Trim(raw)).value)
    ensures Trim(raw) != [] && StartsWith(Trim(raw), "--") && !IsHeaderLine(raw) ==>
      Step(p, n, raw) == p.(problems := p.problems + [Problem(n, InvalidHeader, Trim(raw))])
    ensures IsDataLine(raw) ==> Step(p, n, raw) == DataLine(p, n, Trim(raw))
  {
    if IsHeaderLine(raw) {
      HeaderIsNotData(raw);
    }
  }

  /** The step over a known header line. */
  lemma StepHeader(p: ParserState, n: nat, raw: string)
    requires IsHeaderLine(raw)
    ensures Step(p, n, raw) == p.(current := MatchHeader(Trim(raw)).value)
  {
  }

  /** The step over a data line. */
  lemma StepData(p: ParserState, n: nat, raw: string)
    requires IsDataLine(raw)
    ensures Step(p, n, raw) == DataLine(p, n, Trim(raw))
  {
    StepCases(p, n, raw);
  }

  /** Two lines, neither of which stops the reader before the second. */
  lemma RunTwo(p: ParserState, a: string, b: string, n: nat)
    requires !p.orphan && !Step(p, n, a).orphan
    ensures Run(p, [a, b], n) == Step(Step(p, n, a), n + 1, b)
  {
    assert [a, b][1..] == [b];
    assert Run(p, [a, b], n) == Run(Step(p, n, a), [b], n + 1);
    assert [b][1..] == [];
  }

  /** The section in force after some lines: the one named by the last known header among them. */
  function SectionOf(lines: seq<string>): Section
    decreases |lines|
  {
    if lines == [] then NoSection
    else
      var n := |lines| - 1;
      if IsHeaderLine(lines[n]) then MatchHeader(Trim(lines[n])).value else SectionOf(lines[..n])
  }

  /** No section is in force exactly when no known header has been seen. */
  lemma {:induction false} SectionOfNone(lines: seq<string>)
    ensures SectionOf(lines) == NoSection <==> forall j :: 0 <= j < |lines| ==> !IsHeaderLine(lines[j])
    decreases |lines|
  {
    if lines != [] {
      var n := |lines| - 1;
      SectionOfNone(lines[..n]);
      assert forall j :: 0 <= j < n ==> lines[..n][j] == lines[j];
      if IsHeaderLine(lines[n]) {
        assert SectionOf(lines) != NoSection by {
          HeaderIsNotData(lines[n]);
        }
      }
    }
  }

  /** Line `k` is orphan data: a data line read before any known header. */
  predicate OrphanAt(lines: seq<string>, k: int) {
    0 <= k < |lines| && IsDataLine(lines[k]) && SectionOf(lines[..k]) == NoSection
  }

  /** The messages one line yields when read in the given section. */
  function LineProblems(section: Section, n: nat, raw: string): seq<Problem> {
    var t := Trim(raw);
    if t == [] || IsHeaderLine(raw) then []
    else if StartsWith(t, "--") then [Problem(n, InvalidHeader, t)]
    else if section == NoSection then [Problem(n, OrphanData, t)]
    else if section.IsFlag() && ParseFlag(t).None? then [Problem(n, InvalidData, Lower(t))]
    else []
  }

  /** The messages of every line, in order, each line read in the section in force before it. */
  function Reported(lines: seq<string>): seq<Problem>
    decreases |lines|
  {
    if lines == [] then []
    else
      var n := |lines| - 1;
      Reported(lines[..n]) + LineProblems(SectionOf(lines[..n]), n, lines[n])
  }

  /** The data lines read in a list section, trimmed, in order. */
  function SectionEntries(lines: seq<string>, s: Section): seq<string>
    decreases |lines|
  {
    if lines == [] then []
    else
      var n := |lines| - 1;
      SectionEntries(lines[..n], s)
        + if IsDataLine(lines[n]) && SectionOf(lines[..n]) == s then [Trim(lines[n])] else []
  }

  /** The value of the last `0`/`1`/`true`/`false` line read in a toggle section; true when there is none. */
  function LastValidFlag(lines: seq<string>, s: Section): bool
    decreases |lines|
  {
    if lines == [] then true
    else
      var n := |lines| - 1;
      var t := Trim(lines[n]);
      if IsDataLine(lines[n]) && SectionOf(lines[..n]) == s && ParseFlag(t).Some? then ParseFlag(t).value
      else LastValidFlag(lines[..n], s)
  }

  /** A step that does not stop: what it does to the section, the messages, and each list and toggle. */
  lemma StepAccount(p: ParserState, n: nat, raw: string)
    requires !p.orphan
    ensures Step(p, n, raw).orphan <==> IsDataLine(raw) && p.current == NoSection
    ensures Step(p, n, raw).current == if IsHeaderLine(raw) then MatchHeader(Trim(raw)).value else p.current
    ensures Step(p, n, raw).problems == p.problems + LineProblems(p.current, n, raw)
    ensures forall s: Section :: s.IsList() ==>
      ListOf(Step(p, n, raw).values, s) ==
        ListOf(p.values, s) + if IsDataLine(raw) && p.current == s then [Trim(raw)] else []
    ensures forall s: Section :: s.IsFlag() ==>
      FlagOf(Step(p, n, raw).values, s) ==
        if IsDataLine(raw) && p.current == s && ParseFlag(Trim(raw)).Some? then ParseFlag(Trim(raw)).value
        else FlagOf(p.values, s)
  {
    StepCases(p, n, raw);
    if IsHeaderLine(raw) {
      HeaderIsNotData(raw);
    } else if IsDataLine(raw) {
      DataLineAccount(p, n, Trim(raw));
    }
  }

  /** What a data line does, section by section. */
  lemma DataLineAccount(p: ParserState, n: nat, line: string)
    requires !p.orphan
    ensures DataLine(p, n, line).orphan <==> p.current == NoSection
    ensures DataLine(p, n, line).current == p.current
    ensures DataLine(p, n, line).problems == p.problems +
      if p.current == NoSection then [Problem(n, OrphanData, line)]
      else if p.current.IsFlag() && ParseFlag(line).None? then [Problem(n, InvalidData, Lower(line))]
      else []
    ensures forall s: Section :: s.IsList() ==>
      ListOf(DataLine(p, n, line).values, s) == ListOf(p.values, s) + if p.current == s then [line] else []
    ensures forall s: Section :: s.IsFlag() ==>
      FlagOf(DataLine(p, n, line).values, s) ==
        if p.current == s && ParseFlag(line).Some? then ParseFlag(line).value else FlagOf(p.values, s)
  {
  }

  /** One more line, for a pass that does not stop: the reader before it has not stopped either. */
  lemma ParseSnocGoing(lines: seq<string>, raw: string)
    requires !Parse(lines + [raw]).orphan
    ensures !Parse(lines).orphan
    ensures Parse(lines + [raw]) == Step(Parse(lines), |lines|, raw)
  {
    ParseSnoc(lines, raw);
  }

  /**
   * A pass that does not stop agrees with the line-by-line account: the section
   * is the last known header's, every list holds its section's data lines in
   * order, every toggle holds its last valid value (true if none), and the
   * messages are those of each line in turn.
   */
  lemma {:induction false} ParseAccount(lines: seq<string>)
    requires !Parse(lines).orphan
    ensures Parse(lines).current == SectionOf(lines)
    ensures Parse(lines).problems == Reported(lines)
    ensures forall s: Section :: s.IsList() ==> ListOf(Parse(lines).values, s) == SectionEntries(lines, s)
    ensures forall s: Section :: s.IsFlag() ==> FlagOf(Parse(lines).values, s) == LastValidFlag(lines, s)
    decreases |lines|
  {
    if lines == [] {
      assert Parse(lines) == Start;
    } else {
      var n := |lines| - 1;
      var before, raw := lines[..n], lines[n];
      assert lines == before + [raw];
      ParseSnocGoing(before, raw);
      ParseAccount(before);
      StepAccount(Parse(before), n, raw);
    }
  }

  /** Reading stops exactly when some line is orphan data. */
  lemma {:induction false} ParseOrphan(lines: seq<string>)
    ensures Parse(lines).orphan <==> exists k :: OrphanAt(lines, k)
    decreases |lines|
  {
    if lines != [] {
      var n := |lines| - 1;
      var before, raw := lines[..n], lines[n];
      assert lines == before + [raw];
      ParseOrphan(before);
      ParseSnoc(before, raw);
      assert forall k :: 0 <= k < n ==> (OrphanAt(lines, k) <==> OrphanAt(before, k)) by {
        forall k | 0 <= k < n
          ensures OrphanAt(lines, k) <==> OrphanAt(before, k)
        {
          assert lines[..k] == before[..k];
        }
      }
      if !Parse(before).orphan {
        ParseAccount(before);
        StepAccount(Parse(before), n, raw);
        assert OrphanAt(lines, n) <==> IsDataLine(raw) && SectionOf(before) == NoSection;
      }
    }
  }

  /** Reading stops exactly when some data line comes before every known header. */
  lemma ParseOrphanBeforeHeaders(lines: seq<string>)
    ensures Parse(lines).orphan <==>
      exists k :: 0 <= k < |lines| && IsDataLine(lines[k]) && forall j :: 0 <= j < k ==> !IsHeaderLine(lines[j])
  {
    ParseOrphan(lines);
    forall k | 0 <= k < |lines|
      ensures OrphanAt(lines, k) <==> IsDataLine(lines[k]) && forall j :: 0 <= j < k ==> !IsHeaderLine(lines[j])
    {
      SectionOfNone(lines[..k]);
      assert forall j :: 0 <= j < k ==> lines[..k][j] == lines[j];
    }
  }

  /** A toggle value is read case-insensitively: lower-casing it first changes nothing. */
  lemma ParseFlagIgnoresCase(t: string)
    ensures ParseFlag(Lower(t)) == ParseFlag(t)
  {
    LowerIdempotent(t);
  }

  /** The accepted toggle spellings, and some that are refused. */
  lemma ParseFlagExamples()
    ensures ParseFlag("1") == Some(true) && ParseFlag("TRUE") == Some(true) && ParseFlag("True") == Some(true)
    ensures ParseFlag("0") == Some(false) && ParseFlag("FaLsE") == Some(false)
    ensures ParseFlag("maybe") == None && ParseFlag("yes") == None && ParseFlag("") == None
  {
    LowerOf("1", "1");
    LowerOf("TRUE", "true");
    LowerOf("True", "true");
    LowerOf("0", "0");
    LowerOf("FaLsE", "false");
    LowerOf("maybe", "maybe");
    LowerOf("yes", "yes");
    LowerOf("", "");
  }

  /** Each header line the writer emits is recognised as its own section, and is already trimmed. */
  lemma MatchHeaderLine(s: Section)
    requires s != NoSection
    ensures Trim(HeaderLine(s)) == HeaderLine(s)
    ensures MatchHeader(HeaderLine(s)) == Some(s)
  {
    var h := HeaderLine(s);
    assert Trim(h) == h by {
      TrimTrimmed(h);
    }
    StartsWithAppend(HeaderPrefix(s), ":");
    MatchHeaderPrefix(h, s);
  }

  /** A line that starts with a section's header prefix is recognised as that section. */
  lemma MatchHeaderPrefix(line: string, s: Section)
    requires s != NoSection
    requires StartsWith(line, HeaderPrefix(s))
    ensures MatchHeader(line) == Some(s)
  {
    var prefix := HeaderPrefix(s);
    var c := line[2];
    assert c == prefix[2] && (s.ExcludedItems? ==> line[11] == 'i') by {
      assert line[2] == line[..|prefix|][2];
      if s.ExcludedItems? {
        assert line[11] == line[..|prefix|][11];
      }
    }
    if s.IncludedDirectories? {
    } else if s.ExcludedDirectories? {
      StartsWithDiffer(line, "--included_directories", 2);
    } else if s.ExcludedItems? {
      StartsWithDiffer(line, "--included_directories", 2);
      StartsWithDiffer(line, "--excluded_directories", 11);
    } else {
      OtherThanExcluded(line);
      if !s.AllowedExtensions? {
        StartsWithDiffer(line, "--allowed_extensions", 2);
        if !s.LoadingAtStart? {
          StartsWithDiffer(line, "--load_at_start", 2);
          if !s.SavingAtExit? {
            StartsWithDiffer(line, "--save_at_exit", 2);
          }
        }
      }
    }
  }

  /** A line whose third character is neither `i` nor `e` matches none of the first three headers. */
  lemma OtherThanExcluded(h: string)
    requires |h| > 2 && h[2] != 'i' && h[2] != 'e'
    ensures !StartsWith(h, "--included_directories")
    ensures !StartsWith(h, "--excluded_directories")
    ensures !StartsWith(h, "--excluded_items")
  {
    StartsWithDiffer(h, "--included_directories", 2);
    StartsWithDiffer(h, "--excluded_directories", 2);
    StartsWithDiffer(h, "--excluded_items", 2);
  }

  /** Files written with LF or with CR LF line ends read as the same lines, plus an empty last piece. */
  lemma LinesOfTerminated(xs: seq<string>)
    requires NoneContains(xs, '\n') && NoneContains(xs, '\r')
    ensures Lines(Terminated(xs, "\n")) == xs + [[]]
    ensures Lines(Terminated(xs, "\r\n")) == xs + [[]]
  {
    TerminatedAvoids(xs, "\n", '\r');
    ReplaceCrLfNoCr(Terminated(xs, "\n"));
    ReplaceCrLfTerminated(xs);
    SplitTerminated(xs, '\n');
  }

  /** Reading a file of lines ending in LF or in CR LF is reading its lines. */
  lemma ParseFileText(xs: seq<string>)
    requires NoneContains(xs, '\n') && NoneContains(xs, '\r')
    ensures Parse(Lines(Terminated(xs, "\n"))) == Parse(xs)
    ensures Parse(Lines(Terminated(xs, "\r\n"))) == Parse(xs)
  {
    LinesOfTerminated(xs);
    assert IsBlank([]);
    ParseTrailingBlanks(xs, [[]]);
  }

  /** Lines with equal trims are read the same way: a pass sees each line only through its trim. */
  lemma {:induction false} RunSameTrims(p: ParserState, a: seq<string>, b: seq<string>, first: nat)
    requires |a| == |b|
    requires forall i :: 0 <= i < |a| ==> Trim(a[i]) == Trim(b[i])
    ensures Run(p, a, first) == Run(p, b, first)
    decreases |a|
  {
    if a != [] && !p.orphan {
      assert Trim(a[0]) == Trim(b[0]);
      assert Step(p, first, a[0]) == Step(p, first, b[0]);
      assert forall i :: 0 <= i < |a[1..]| ==> Trim(a[1..][i]) == Trim(b[1..][i]) by {
        forall i | 0 <= i < |a[1..]| ensures Trim(a[1..][i]) == Trim(b[1..][i]) {
          assert a[1..][i] == a[i + 1] && b[1..][i] == b[i + 1];
        }
      }
      RunSameTrims(Step(p, first, a[0]), a[1..], b[1..], first + 1);
    }
  }

  /** Any text, mixed line ends included, reads as if it were split at LF alone: dropping the CR of each CR LF changes only the ends of trimmed lines. */
  lemma ParseCrLf(text: string)
    ensures Parse(Lines(text)) == Parse(Split(text, '\n'))
  {
    var a, b := Lines(text), Split(text, '\n');
    SplitReplaceCrLf(text);
    forall i | 0 <= i < |a| ensures Trim(a[i]) == Trim(b[i]) {
      UpToCrTrim(a[i], b[i]);
    }
    RunSameTrims(Start, a, b, 0);
  }

  /** A data line, read while the reader has not stopped, goes to the current section (or stops it). */
  lemma ParseDataLine(lines: seq<string>, raw: string)
    requires !Parse(lines).orphan && IsDataLine(raw)
    ensures Parse(lines + [raw]) == DataLine(Parse(lines), |lines|, Trim(raw))
  {
    ParseSnoc(lines, raw);
    StepCases(Parse(lines), |lines|, raw);
  }

  /** A header of some section followed by a data line. */
  lemma ParseHeaderThenData(s: Section, d: string)
    requires s != NoSection && IsDataLine(d)
    ensures Parse([HeaderLine(s), d]) == DataLine(Start.(current := s), 1, Trim(d))
  {
    var h := HeaderLine(s);
    MatchHeaderLine(s);
    ParseHeader([], h);
    assert [] + [h] == [h];
    ParseDataLine([h], d);
    assert [h] + [d] == [h, d];
  }

  /** A line that is already trimmed and does not start with `--` is a data line. */
  lemma PlainDataLine(d: string)
    requires d != [] && IsTrimmed(d) && d[0] != '-'
    ensures Trim(d) == d && IsDataLine(d)
  {
    TrimTrimmed(d);
    if |d| >= 2 {
      StartsWithDiffer(d, "--", 0);
    }
  }

  /** One bad value in a toggle section: the toggle keeps its default and one message names line 1. */
  lemma ToleranceExample()
    ensures Parse(["--save_at_exit:", "maybe"]) ==
      ParserState(SavingAtExit, InitialSettings, [Problem(1, InvalidData, "maybe")], false)
  {
    HeaderLines();
    PlainDataLine("maybe");
    LowerOf("maybe", "maybe");
    ParseHeaderThenData(SavingAtExit, "maybe");
  }

  // ---------------------------------------------------------------------------
  // The loop itself.

  /**
   * The parsing loop of `load_configuration` (lines 168-265): the seven locals,
   * the current section, and one pass over the lines that trims, skips blanks,
   * switches on headers, reports bad lines and stops at orphan data.
   * `problems` holds every message the loop writes to the status line, in order.
   */
  method ParseLines(lines: seq<string>) returns (values: Settings, problems: seq<Problem>, orphan: bool)
    ensures values == Parse(lines).values
    ensures problems == Parse(lines).problems
    ensures orphan == Parse(lines).orphan
  {
    var includedDirectories: seq<string> := [];
    var excludedDirectories: seq<string> := [];
    var excludedItems: seq<string> := [];
    var allowedExtensions: seq<string> := [];
    var loadingAtStart := true;
    var savingAtExit := true;
    var confirmDeletion := true;
    var currentType := NoSection;
    problems := [];
    var lineNumber := 0;
    while lineNumber < |lines|
      invariant 0 <= lineNumber <= |lines|
      invariant Parse(lines[..lineNumber]) == ParserState(currentType,
        Settings(includedDirectories, excludedDirectories, excludedItems, allowedExtensions,
                 loadingAtStart, savingAtExit, confirmDeletion),
        problems, false)
    {
      ghost var before := Parse(lines[..lineNumber]);
      assert lines[..lineNumber + 1] == lines[..lineNumber] + [lines[lineNumber]];
      assert Parse(lines[..lineNumber + 1]) == Step(before, lineNumber, lines[lineNumber]) by {
        ParseSnoc(lines[..lineNumber], lines[lineNumber]);
      }
      var line := Trim(lines[lineNumber]);
      if line == [] {
      } else if StartsWith(line, "--included_directories") {
        currentType := IncludedDirectories;
      } else if StartsWith(line, "--excluded_directories") {
        currentType := ExcludedDirectories;
      } else if StartsWith(line, "--excluded_items") {
        currentType := ExcludedItems;
      } else if StartsWith(line, "--allowed_extensions") {
        currentType := AllowedExtensions;
      } else if StartsWith(line, "--load_at_start") {
        currentType := LoadingAtStart;
      } else if StartsWith(line, "--save_at_exit") {
        currentType := SavingAtExit;
      } else if StartsWith(line, "--confirm_deletion") {
        currentType := ConfirmDeletion;
      } else if StartsWith(line, "--") {
        problems := problems + [Problem(lineNumber, InvalidHeader, line)];
      } else {
        match currentType
        case NoSection =>
          problems := problems + [Problem(lineNumber, OrphanData, line)];
          assert Parse(lines) == Parse(lines[..lineNumber + 1]) by {
            assert lines == lines[..lineNumber + 1] + lines[lineNumber + 1..];
            ParseStopsAtOrphan(lines[..lineNumber + 1], lines[lineNumber + 1..]);
          }
          values := Settings(includedDirectories, excludedDirectories, excludedItems, allowedExtensions,
                             loadingAtStart, savingAtExit, confirmDeletion);
          return values, problems, true;
        case IncludedDirectories => includedDirectories := includedDirectories + [line];
        case ExcludedDirectories => excludedDirectories := excludedDirectories + [line];
        case ExcludedItems => excludedItems := excludedItems + [line];
        case AllowedExtensions => allowedExtensions := allowedExtensions + [line];
        case LoadingAtStart =>
          match ParseFlag(line) {
            case Some(b) => loadingAtStart := b;
            case None => problems := problems + [Problem(lineNumber, InvalidData, Lower(line))];
          }
        case SavingAtExit =>
          match ParseFlag(line) {
            case Some(b) => savingAtExit := b;
            case None => problems := problems + [Problem(lineNumber, InvalidData, Lower(line))];
          }
        case ConfirmDeletion =>
          match ParseFlag(line) {
            case Some(b) => confirmDeletion := b;
            case None => problems := problems + [Problem(lineNumber, InvalidData, Lower(line))];
          }
      }
      lineNumber := lineNumber + 1;
    }
    assert lines[..lineNumber] == lines;
    values := Settings(includedDirectories, excludedDirectories, excludedItems, allowedExtensions,
                       loadingAtStart, savingAtExit, confirmDeletion);
    orphan := false;
  }
}
