/**
 * `reset_configuration` (czkawka_gui/src/saving_loading.rs): the values the
 * settings widgets get when the configuration is cleared, which depend only
 * on the platform and on the current directory.
 */
module ConfigDefaults {
  import opened Wrappers
  import opened Strings
  import opened ConfigFormat

  /** `cfg!(target_family)`: the family the program was built for. */
  datatype Platform = Unix | Windows | OtherPlatform

  /** The included directory used when `env::current_dir` fails. */
  function FallbackDirectory(platform: Platform): string {
    match platform
    case Unix => "/home"
    case Windows => "C:\\"
    case OtherPlatform => ""
  }

  /** The one included directory after a reset: the current directory, or the platform's fallback. */
  function StartDirectory(currentDir: Option<string>, platform: Platform): string {
    match currentDir
    case Some(d) => d
    case None => FallbackDirectory(platform)
  }

  /** The system folders excluded on Unix. */
  const UnixExcludedDirectories: seq<string> := ["/proc", "/dev", "/sys", "/run", "/snap"]

  /** The Unix patterns, one per comma-separated token of the entry. */
  const UnixPatterns: seq<string> := ["*/.git/*", "*/node_modules/*", "*/lost+found/*", "*/Trash/*", "*/.Trash-*/*"]

  /** The Windows patterns, one per comma-separated token of the entry. */
  const WindowsPatterns: seq<string> := ["*/.git/*", "*/node_modules/*", "*/lost+found/*", "*:/windows/*"]

  /** The excluded-items entry set on Unix: the five patterns separated by commas. */
  const UnixExcludedItems: string := Join(UnixPatterns, ',')

  /** The excluded-items entry set on Windows: the four patterns separated by commas. */
  const WindowsExcludedItems: string := Join(WindowsPatterns, ',')

  /**
   * The widgets after a reset: the start directory alone, the Unix system
   * folders (none elsewhere), the platform's excluded items (the entry is left
   * as it was on other platforms), no allowed extensions, every toggle on.
   */
  function Reset(g: Gui, platform: Platform, currentDir: Option<string>): Gui {
    Gui([StartDirectory(currentDir, platform)],
        if platform == Unix then UnixExcludedDirectories else [],
        match platform
        case Unix => UnixExcludedItems
        case Windows => WindowsExcludedItems
        case OtherPlatform => g.excludedItemsText,
        "",
        true, true, true)
  }

  /**
   * `reset_configuration` (lines 317-383) with the current directory and the
   * platform as inputs: each widget is cleared and refilled, and a manual
   * reset says so on the status line (None: the status line is not set).
   */
  method ResetConfiguration(g: Gui, manualClearing: bool, platform: Platform, currentDir: Option<string>)
    returns (gui: Gui, status: Option<Status>)
    ensures gui == Reset(g, platform, currentDir)
    ensures status == if manualClearing then Some(ConfigurationCleared) else None
  {
    var dir: string;
    match currentDir {
      case Some(d) => dir := d;
      case None =>
        if platform == Unix {
          dir := "/home";
        } else if platform == Windows {
          dir := "C:\\";
        } else {
          dir := "";
        }
    }
    var included := [dir];
    var excluded: seq<string> := [];
    if platform == Unix {
      var i := 0;
      while i < |UnixExcludedDirectories|
        invariant 0 <= i <= |UnixExcludedDirectories|
        invariant excluded == UnixExcludedDirectories[..i]
      {
        excluded := excluded + [UnixExcludedDirectories[i]];
        i := i + 1;
      }
    }
    var items := g.excludedItemsText;
    if platform == Unix {
      items := UnixExcludedItems;
    }
    if platform == Windows {
      items := WindowsExcludedItems;
    }
    gui := Gui(included, excluded, items, "", true, true, true);
    status := None;
    if manualClearing {
      status := Some(ConfigurationCleared);
    }
  }

  /**
   * What a reset promises about the lists: one included directory, the
   * current one when it is known; the system folders excluded exactly on
   * Unix.
   */
  lemma ResetDirectories(g: Gui, platform: Platform, currentDir: Option<string>)
    ensures var r := Reset(g, platform, currentDir);
      && |r.includedDirectories| == 1
      && (currentDir.Some? ==> r.includedDirectories[0] == currentDir.value)
      && (currentDir.None? ==> r.includedDirectories[0] == FallbackDirectory(platform))
      && ("/proc" in r.excludedDirectories <==> platform == Unix)
      && (r.excludedDirectories == [] <==> platform != Unix)
  {
    var r := Reset(g, platform, currentDir);
    if platform == Unix {
      assert r.excludedDirectories[0] == "/proc";
    }
  }

  /** A reset turns every toggle on and empties the allowed extensions, whatever was there. */
  lemma ResetToggles(g: Gui, platform: Platform, currentDir: Option<string>)
    ensures var r := Reset(g, platform, currentDir);
      r.saveAtExit && r.loadAtStart && r.confirmDeletion && r.allowedExtensionsText == ""
  {
  }

  /** Resetting a reset configuration changes nothing. */
  lemma ResetIdempotent(g: Gui, platform: Platform, currentDir: Option<string>)
    ensures Reset(Reset(g, platform, currentDir), platform, currentDir) == Reset(g, platform, currentDir)
  {
  }

  /** The result of a reset depends on the previous widgets only through the excluded items on other platforms. */
  lemma ResetForgets(g: Gui, h: Gui, platform: Platform, currentDir: Option<string>)
    requires platform != OtherPlatform || g.excludedItemsText == h.excludedItemsText
    ensures Reset(g, platform, currentDir) == Reset(h, platform, currentDir)
  {
  }

  /** A token that starts with `*` is not blank, so the writer keeps it. */
  lemma StarNotBlank(t: string)
    requires |t| > 0 && t[0] == '*'
    ensures Trim(t) != []
  {
    TrimShape(t);
    assert !IsWhitespace(t[0]);
  }

  /** A kept token followed by a comma is the first pattern of the text. */
  lemma PatternsCons(t: string, rest: string)
    requires ',' !in t && |t| > 0 && t[0] == '*'
    ensures Patterns(t + [','] + rest) == [t] + Patterns(rest)
  {
    SplitAtSeparator(t, rest, ',');
    StarNotBlank(t);
  }

  /** A kept token without a comma is the only pattern of the text. */
  lemma PatternsLast(t: string)
    requires ',' !in t && |t| > 0 && t[0] == '*'
    ensures Patterns(t) == [t]
  {
    SplitNoSeparator(t, ',');
    StarNotBlank(t);
    assert KeptTokens([t]) == [t] + KeptTokens([]);
  }

  /** A kept token without a comma. */
  predicate StarToken(t: string) {
    |t| > 0 && t[0] == '*' && ',' !in t
  }

  /** Comma-joined tokens that all start with `*` are stored exactly as those tokens. */
  lemma {:induction false} PatternsOfStarTokens(items: seq<string>)
    requires items != []
    requires forall i :: 0 <= i < |items| ==> StarToken(items[i])
    ensures Patterns(Join(items, ',')) == items
    decreases |items|
  {
    if |items| == 1 {
      PatternsLast(items[0]);
    } else {
      PatternsOfStarTokens(items[1..]);
      PatternsCons(items[0], Join(items[1..], ','));
      assert items == [items[0]] + items[1..];
    }
  }

  /** The writer stores the Unix defaults as their five patterns. */
  lemma UnixDefaultPatterns()
    ensures Patterns(UnixExcludedItems) == UnixPatterns
  {
    PatternsOfStarTokens(UnixPatterns);
  }

  /** The writer stores the Windows defaults as their four patterns. */
  lemma WindowsDefaultPatterns()
    ensures Patterns(WindowsExcludedItems) == WindowsPatterns
  {
    PatternsOfStarTokens(WindowsPatterns);
  }
}
