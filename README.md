# Czkawka GUI settings file and message helpers in Dafny

This project models the settings file of the Czkawka GUI
(`czkawka_gui/src/saving_loading.rs`) and three string builders from
`czkawka_gui/src/help_functions.rs`.

- **Saving.** `save_configuration` turns the settings widgets into a list of
  lines. The lines are seven headers (`--included_directories:`,
  `--excluded_directories:`, `--excluded_items:`, `--allowed_extensions:`,
  `--save_at_exit:`, `--load_at_start:`, `--confirm_deletion:`), each
  followed by its data. It then writes every line followed by a newline, and
  the status line reports how the write went.
- **Loading.** `load_configuration` reads the text back:
  - CR LF becomes LF, the text is split at LF, and each line is trimmed;
  - blank lines are skipped;
  - a header is recognised by its prefix;
  - one unknown `--` header, an invalid toggle value or an orphan data line
    each produces a message;
  - orphan data stops the load before anything is set;
  - otherwise the widgets are set. This happens on a manual load, or when
    `load_at_start` was read as true.
- **Resetting.** `reset_configuration` puts every widget back to its default.
  The defaults depend on the platform and on the current directory.
- **Helpers.** `print_text_messages_to_text_view` assembles the text of the
  messages view. `get_string_from_list_store` joins a list with commas.
  `get_text_from_similarity` names a similarity level.

The widgets are a value `Gui`: two directory lists, two entry texts and three
toggles. The status line (`text_view_errors`) is modelled as the last text set
on it: an `Option<Status>`, where `None` means untouched. File-system answers
are inputs:
- `SaveEnvironment` for the writer;
- `ConfigSource` for the reader;
- the platform and the current directory for the reset.

Modules:
- `Strings`: Rust's `trim`, `starts_with`, ASCII `to_lowercase`, `split` on a
  character, `replace("\r\n", "\n")`, join and terminate;
- `ConfigFormat`: the widgets, the headers, the writer;
- `ConfigParser`: the reading pass, as a step function `Step`, its fold
  `Parse`, and the method `ParseLines` with the source's loop;
- `ConfigLoad`: the I/O outcomes, the apply decision and the status line;
- `ConfigRoundTrip` and `ConfigReload`: the writer and the reader against
  each other;
- `ConfigDefaults`: the reset;
- `HelpFunctions`: the string builders.

## Model

| member | source | states |
|---|---|---|
| `ConfigFormat.Serialize` | czkawka_gui/src/saving_loading.rs:40-101 | The definition of the lines the writer collects: each header, then that section's rows or kept tokens, then one `true`/`false` line for each toggle. |
| `ConfigFormat.KeptTokens` | czkawka_gui/src/saving_loading.rs:72-75 | The definition of the token filter: the tokens whose trim is non-empty, untrimmed and in order. |
| `ConfigFormat.Patterns` | czkawka_gui/src/saving_loading.rs:71-76 | The definition of what an entry contributes to the file: the kept tokens of its comma split. |
| `ConfigFormat.SaveLines` | czkawka_gui/src/saving_loading.rs:40-101 | The lines collected in `data_to_save` are exactly `Serialize(g)`: the seven headers in order, each followed by its section's data. |
| `ConfigFormat.AppendDirectories` | czkawka_gui/src/saving_loading.rs:44-53 | Walking a directory list store appends its rows to the lines, in order and unchanged. |
| `ConfigFormat.AppendPatterns` | czkawka_gui/src/saving_loading.rs:70-76 | Walking the comma-split entry appends exactly the non-blank tokens (`Patterns`), untrimmed and in order. |
| `ConfigFormat.SaveConfiguration` | czkawka_gui/src/saving_loading.rs:13-129 | An automatic save with `save_at_exit` off touches nothing. Otherwise the function stops at the first failure: no home directory, config path not a folder, folder not creatable, file not creatable. Each failure leaves the file alone and sets its own status. Otherwise the file receives each line followed by a newline, up to the first failing `writeln!`. That call leaves the characters of its line that reached the unbuffered file, with no newline, and nothing after them. The status is "saved" exactly when every write succeeded. |
| `ConfigFormat.KeptTokensSpec` | czkawka_gui/src/saving_loading.rs:71-76 | A token is kept iff it is not blank. The number kept is at most the number of tokens. |
| `ConfigFormat.KeptTokensSnoc` | czkawka_gui/src/saving_loading.rs:71-76 | One more token adds itself to the kept tokens exactly when it is not blank. Order is preserved. |
| `ConfigFormat.PatternsShape` | czkawka_gui/src/saving_loading.rs:71-76 | Stored tokens contain no comma and are never blank. |
| `ConfigFormat.PatternsExample` | czkawka_gui/src/saving_loading.rs:69-76 | `"*.git/*, , */node_modules/*,"` is stored as `["*.git/*", " */node_modules/*"]`: the blank tokens are dropped and the leading space is kept. |
| `ConfigFormat.PatternsOfThree` | czkawka_gui/src/saving_loading.rs:71-76 | Three comma-terminated tokens, the middle one blank, keep the outer two in order. |
| `ConfigFormat.Partial` | czkawka_gui/src/saving_loading.rs:116 | What a failing write leaves of its line is a prefix of the line, and it is the whole line exactly when `written` reaches the line's length. |
| `ConfigFormat.WrittenText` | czkawka_gui/src/saving_loading.rs:115-125 | The definition of the file text after the write loop: every line terminated by LF when no write fails, otherwise the lines before the failing one, terminated, then the part of the failing line. |
| `ConfigFormat.WrittenTextPrefix` | czkawka_gui/src/saving_loading.rs:115-125 | What a save writes is always a prefix of the full file text, and it is the whole text exactly when no write fails. |
| `ConfigFormat.HeaderLines` | czkawka_gui/src/saving_loading.rs:43-99 | The seven header lines spelled out as the writer pushes them. |
| `Strings.Trim` | czkawka_gui/src/saving_loading.rs:180 | The definition of `trim`: the line without leading and trailing Unicode White_Space. |
| `Strings.Lower` | czkawka_gui/src/saving_loading.rs:225 | The definition of `to_lowercase` for ASCII letters. |
| `Strings.ReplaceCrLf` | czkawka_gui/src/saving_loading.rs:179 | The definition of `replace("\r\n", "\n")`. |
| `Strings.Join` | czkawka_gui/src/help_functions.rs:100-120 | The definition of the values separated by single commas. |
| `Strings.Terminated` | czkawka_gui/src/saving_loading.rs:115-125 | The definition of items each followed by a terminator: the text of `writeln!` for each line. |
| `Strings.Split` | czkawka_gui/src/saving_loading.rs:179 | `split` always yields at least one piece, and no piece contains the separator. |
| `Strings.JoinSplit` | czkawka_gui/src/saving_loading.rs:179 | Splitting loses no character: re-joining the pieces gives the input back. |
| `Strings.SplitReplaceCrLf` | czkawka_gui/src/saving_loading.rs:179 | Splitting at LF after `replace("\r\n", "\n")` gives as many lines as splitting at LF alone. Each line is the same, or the same with one trailing CR removed. This holds for any text, mixed line ends included. |
| `Strings.TrimCr` | czkawka_gui/src/saving_loading.rs:180 | A trailing CR is lost to `trim`: a line and the same line followed by CR trim alike. |
| `Strings.UpToCrTrim` | czkawka_gui/src/saving_loading.rs:179-180 | Two lines that differ by a trailing CR trim to the same text. |
| `Strings.SplitJoin` | czkawka_gui/src/help_functions.rs:100-120 | Comma-joined values that contain no comma split back into exactly those values. So the commas are single separators, with none leading or trailing. |
| `Strings.JoinLength` | czkawka_gui/src/help_functions.rs:100-120 | A joined list of n values has their total length plus n-1 commas. |
| `Strings.JoinEnds` | czkawka_gui/src/help_functions.rs:100-120 | The joined text starts with the first value and ends with the last one: no comma before the first or after the last. |
| `Strings.JoinTerminated` | czkawka_gui/src/saving_loading.rs:295 | Joining with commas and adding one more comma equals terminating every value with a comma. This relates the join to the loader's entry text. |
| `Strings.TrimShape` | czkawka_gui/src/saving_loading.rs:180-183 | A trimmed line has no whitespace at either end. It is empty iff the line was blank, and it is never longer than the line. |
| `Strings.TrimIdempotent` | czkawka_gui/src/saving_loading.rs:180 | Trimming twice is trimming once. |
| `Strings.TrimSlice` | czkawka_gui/src/saving_loading.rs:180 | The trimmed text is a contiguous piece of the line. |
| `Strings.LowerIdempotent` | czkawka_gui/src/saving_loading.rs:225 | Lower-casing twice is lower-casing once. |
| `Strings.ReplaceCrLfTerminated` | czkawka_gui/src/saving_loading.rs:179 | Lines ending in CR LF become the same lines ending in LF. |
| `Strings.TerminatedConcat` | czkawka_gui/src/saving_loading.rs:115-125 | Writing two runs of lines one after the other writes their texts one after the other. |
| `Strings.TerminatedLength` | czkawka_gui/src/help_functions.rs:134-137 | Terminating n items adds n terminators to their total length. |
| `Strings.AppendTerminated` | czkawka_gui/src/saving_loading.rs:295-299 | The loop that appends each item and then a terminator yields the prefix followed by every item, each with its terminator, in order. |
| `ConfigParser.Lines` | czkawka_gui/src/saving_loading.rs:179 | The definition of the lines the loop walks: the text with CR LF replaced by LF, split at LF. |
| `ConfigParser.MatchHeader` | czkawka_gui/src/saving_loading.rs:184-197 | The definition of the header test: the first of the seven section names, in the source's order, that the trimmed line starts with. |
| `ConfigParser.ParseFlag` | czkawka_gui/src/saving_loading.rs:225-235 | The definition of a toggle value: the lower-cased line gives true for `1`/`true`, false for `0`/`false`, and nothing otherwise. |
| `ConfigParser.DataLine` | czkawka_gui/src/saving_loading.rs:204-263 | The definition of a data line's effect: stop with an orphan message, push to the current list, or set the current toggle, with an invalid-data message for a bad value. |
| `ConfigParser.Step` | czkawka_gui/src/saving_loading.rs:180-263 | The definition of one iteration: trim, skip a blank line, switch on a header, report an unknown `--` line, or hand the line to `DataLine`. |
| `ConfigParser.Run` | czkawka_gui/src/saving_loading.rs:179-265 | The definition of the loop: `Step` over the lines with their 0-based numbers, ending at a stop. |
| `ConfigParser.Parse` | czkawka_gui/src/saving_loading.rs:168-265 | The definition of the pass from the initial locals: empty lists, toggles true, no section. |
| `ConfigParser.ParseLines` | czkawka_gui/src/saving_loading.rs:168-265 | The source's loop over the lines gives the same values, messages and stop flag as the fold `Parse`. |
| `ConfigParser.RunConcat` | czkawka_gui/src/saving_loading.rs:179-265 | Reading two runs of lines is reading the first and then the second, with line numbers counting on. |
| `ConfigParser.ParseSnoc` | czkawka_gui/src/saving_loading.rs:179-265 | After a stop nothing more is read; otherwise one more line is one more step, numbered by its 0-based position. |
| `ConfigParser.ParseStopsAtOrphan` | czkawka_gui/src/saving_loading.rs:205-211 | Once orphan data has stopped the reader, no later line changes anything. |
| `ConfigParser.ParseTrailingBlanks` | czkawka_gui/src/saving_loading.rs:180-183 | Blank lines (whitespace only) are skipped: appending them changes nothing. |
| `ConfigParser.ParseUnknownHeader` | czkawka_gui/src/saving_loading.rs:198-202 | An unknown `--` line leaves the section and the values as they were, adds one invalid-header message quoting the trimmed line with its 0-based number, and does not stop. |
| `ConfigParser.ParseHeader` | czkawka_gui/src/saving_loading.rs:184-197 | A header line switches the section and changes nothing else. |
| `ConfigParser.ParseDataLine` | czkawka_gui/src/saving_loading.rs:203-264 | A data line, read before any stop, is handled by the current section. |
| `ConfigParser.StepCases` | czkawka_gui/src/saving_loading.rs:180-264 | One line, case by case. A blank line changes nothing. A header switches the section. Another `--` line gives an invalid-header message. Anything else is data for the current section. |
| `ConfigParser.StepAccount` | czkawka_gui/src/saving_loading.rs:180-264 | The effect of one line on every part of the state. The reader stops iff the line is data and no section is current. A list changes only by the trimmed line, in its own section. A toggle changes only by a valid value, in its own section. The messages grow only by the line's own message. |
| `ConfigParser.DataLineAccount` | czkawka_gui/src/saving_loading.rs:204-263 | The same account for a data line in each of the eight sections: orphan, four lists, three toggles (invalid values are quoted lower-cased). |
| `ConfigParser.ParseAccount` | czkawka_gui/src/saving_loading.rs:168-265 | Without orphan data, the result in terms of the lines alone. The section is the last header's. The messages are every line's own messages in order. Each list is its section's trimmed data lines, in order. Each toggle is the last valid value in its section, or `true` if there is none. |
| `ConfigParser.ParseFaithful` | czkawka_gui/src/saving_loading.rs:168-265 | Every collected entry is non-empty, trimmed and not `--`-prefixed. Every message names an existing line, with its kind and quote. Messages are in line order. Only the last one can be orphan data, and it is last exactly when the reader stopped. |
| `ConfigParser.ParseOrphan` | czkawka_gui/src/saving_loading.rs:205-211 | The reader stops iff some data line comes while no section is current. |
| `ConfigParser.ParseOrphanBeforeHeaders` | czkawka_gui/src/saving_loading.rs:205-211 | The reader stops iff some data line comes before every header line. |
| `ConfigParser.SectionOfNone` | czkawka_gui/src/saving_loading.rs:178-197 | The current section is still none exactly when no header line has been read. |
| `ConfigParser.HeaderIsNotData` | czkawka_gui/src/saving_loading.rs:184-203 | A header line is never taken as data. |
| `ConfigParser.MatchHeaderLine` | czkawka_gui/src/saving_loading.rs:184-197 | Every header the writer emits is trimmed and recognised as its own section. |
| `ConfigParser.MatchHeaderPrefix` | czkawka_gui/src/saving_loading.rs:184-197 | Headers match by prefix: any line starting with a section's name (e.g. `--excluded_items_old`) selects that section. |
| `ConfigParser.ParseFlagIgnoresCase` | czkawka_gui/src/saving_loading.rs:225-235 | Toggle values are compared lower-cased, so case does not matter. |
| `ConfigParser.ParseFlagExamples` | czkawka_gui/src/saving_loading.rs:225-235 | `1`/`true` (any case) read as true and `0`/`false` as false. Nothing else is valid, including `yes` and the empty string. |
| `ConfigParser.ToleranceExample` | czkawka_gui/src/saving_loading.rs:237-248 | An invalid toggle value gives one invalid-data message for line 1 and keeps the previous value (the initial `true`). |
| `ConfigParser.LinesOfTerminated` | czkawka_gui/src/saving_loading.rs:179 | A text of lines ending in LF or in CR LF splits into the same lines plus an empty last piece. |
| `ConfigParser.ParseFileText` | czkawka_gui/src/saving_loading.rs:179-183 | Reading a file whose lines end in LF and one whose lines end in CR LF gives the same result as reading the lines. |
| `ConfigParser.RunSameTrims` | czkawka_gui/src/saving_loading.rs:179-265 | The reader looks at each line only through its trim: two line lists of equal length whose lines trim alike are read to the same result. |
| `ConfigParser.ParseCrLf` | czkawka_gui/src/saving_loading.rs:179-183 | Reading any text, with LF, CR LF or mixed line ends, gives the same result as reading its LF-split lines without removing any CR. So a CR LF is read as an LF wherever it occurs. |
| `ConfigParser.ParseHeaderThenData` | czkawka_gui/src/saving_loading.rs:184-264 | A header followed by a data line hands that line, numbered 1, to the header's section. |
| `ConfigLoad.Decide` | czkawka_gui/src/saving_loading.rs:204-307 | Orphan data aborts, and nothing else does. Without orphan data, a manual load or one with `load_at_start` read as true applies exactly the values read. Otherwise only the load toggle is turned off. |
| `ConfigLoad.Apply` | czkawka_gui/src/saving_loading.rs:268-307 | The definition of "Setting data". The lists are replaced and each entry becomes its values each followed by a comma. The toggles are set, or only `load_at_start` is cleared. |
| `ConfigLoad.Load` | czkawka_gui/src/saving_loading.rs:142-315 | The definition of a load over a given file-system answer: the early returns, the pass, the decision, `Apply` and the status line. |
| `ConfigLoad.LoadConfiguration` | czkawka_gui/src/saving_loading.rs:142-315 | Each of the early returns gives its own status: no home directory, a missing file (reported only on a manual load), an unreadable file. Then come the pass, the decision, the setting of every widget (entries as values each followed by a comma) and the final status line. |
| `ConfigLoad.LoadMissingFile` | czkawka_gui/src/saving_loading.rs:151-157 | A missing file changes nothing. Only a manual load reports it. |
| `ConfigLoad.LoadOrphan` | czkawka_gui/src/saving_loading.rs:204-211 | Orphan data applies nothing. The status names an orphan-data message for an existing data line. |
| `ConfigLoad.LoadAtStartOff` | czkawka_gui/src/saving_loading.rs:268-307 | An automatic load of a file that turns `load_at_start` off changes only that toggle, and leaves the last message as the status. |
| `ConfigLoad.LoadApplied` | czkawka_gui/src/saving_loading.rs:268-311 | A load without orphan data that is manual, or automatic with the last valid `load_at_start` value true, sets every widget from the file. Each list gets its section's data lines. Each entry gets those lines followed by commas. Each toggle gets its last valid value. A manual load reports the load, and an automatic one leaves the last message of the pass. |
| `ConfigRoundTrip.TrimAllShape` | czkawka_gui/src/saving_loading.rs:180 | Trimming each stored token keeps their number and trims each one. |
| `ConfigRoundTrip.FlagTextReadsBack` | czkawka_gui/src/saving_loading.rs:91-101 | The `true`/`false` a writer emits reads back as the same toggle. |
| `ConfigRoundTrip.RunListSection` | czkawka_gui/src/saving_loading.rs:184-223 | A list section as written is read into its list, trimmed and in order. |
| `ConfigRoundTrip.RunFlagSection` | czkawka_gui/src/saving_loading.rs:224-262 | A toggle section as written sets its toggle. |
| `ConfigRoundTrip.RunBlocks` | czkawka_gui/src/saving_loading.rs:179-265 | Reading the writer's sections one after the other is taking each section in turn. |
| `ConfigRoundTrip.SerializeBlocks` | czkawka_gui/src/saving_loading.rs:40-101 | The writer's lines are its seven sections laid one after another. |
| `ConfigRoundTrip.ParseSerialize` | czkawka_gui/src/saving_loading.rs:40-265 | Round trip at the level of lines. Reading what the writer builds gives back both directory lists and the three toggles unchanged. The tokens come back trimmed and in order. There is no message, and the reader ends in the last section. |
| `ConfigRoundTrip.HeaderSectionsConcat` | czkawka_gui/src/saving_loading.rs:184-197 | The header lines of two runs of lines are the first run's, then the second's. |
| `ConfigRoundTrip.BlockHeaderSections` | czkawka_gui/src/saving_loading.rs:43-101 | Each section the writer emits holds exactly one header line, its own: its data lines and its `true`/`false` line are not headers. |
| `ConfigRoundTrip.LayoutHeaderSections` | czkawka_gui/src/saving_loading.rs:40-101 | Sections laid one after another hold exactly their headers, in order. |
| `ConfigRoundTrip.SerializeHeaders` | czkawka_gui/src/saving_loading.rs:40-101 | For storable widgets the written lines hold exactly seven header lines. They name, in order, `included_directories`, `excluded_directories`, `excluded_items`, `allowed_extensions`, `save_at_exit`, `load_at_start`, `confirm_deletion`. |
| `ConfigRoundTrip.SerializeSlices` | czkawka_gui/src/saving_loading.rs:40-101 | The headers sit at position 0, then one past the included directories, then one past the excluded directories, and so on. The slice between two headers is exactly that section's rows or kept tokens, and each toggle header is followed by its one value line. |
| `ConfigRoundTrip.SerializeLayout` | czkawka_gui/src/saving_loading.rs:40-101 | The file layout for storable widgets. There are seven header lines and no others, in the fixed order and at the stated positions. Between two headers is exactly that section's data, and each toggle has exactly one `true`/`false` line. |
| `ConfigReload.SerializeOneLine` | czkawka_gui/src/saving_loading.rs:40-101 | For storable widgets, no written line contains a line break. |
| `ConfigReload.FileRoundTrip` | czkawka_gui/src/saving_loading.rs:115-265 | The written file, with LF or with CR LF line ends, reads back as the widgets' settings with no message. |
| `ConfigReload.SaveThenLoadManual` | czkawka_gui/src/saving_loading.rs:13-311 | Saving and then loading by hand restores every widget, whatever the widgets held before. The lists and toggles come back unchanged and the entries as trimmed tokens each followed by a comma. The status reports the load. |
| `ConfigReload.SaveThenLoadAtStart` | czkawka_gui/src/saving_loading.rs:13-311 | Saving and then loading at start restores every widget if the saved `load_at_start` was on. Otherwise it turns only that toggle off. The status line is not touched. |
| `ConfigReload.PatternsOfTerminated` | czkawka_gui/src/saving_loading.rs:71-76 | Trimmed, non-blank, comma-free tokens each followed by a comma (the loader's entry text) are stored again as exactly those tokens. |
| `ConfigReload.TrimmedPatterns` | czkawka_gui/src/saving_loading.rs:71-76 | The tokens the reader stores are trimmed, non-blank and comma-free. They stay storable when the entry's tokens were. |
| `ConfigReload.ReloadedRepresentable` | czkawka_gui/src/saving_loading.rs:268-304 | What a load restores can be saved and loaded again. |
| `ConfigReload.ReloadStable` | czkawka_gui/src/saving_loading.rs:13-311 | A second save and load changes nothing: the widgets after one round trip are a fixed point. |
| `ConfigDefaults.Reset` | czkawka_gui/src/saving_loading.rs:317-383 | The definition of the widgets after a reset, given the platform and the current directory. |
| `ConfigDefaults.ResetConfiguration` | czkawka_gui/src/saving_loading.rs:317-383 | The reset gives:<br>- the start directory alone;<br>- the five Unix system folders, on Unix only;<br>- the platform's excluded-items text (left as it was on other platforms);<br>- no allowed extensions;<br>- every toggle on.<br>Only a manual reset sets the status. |
| `ConfigDefaults.ResetDirectories` | czkawka_gui/src/saving_loading.rs:321-357 | There is one included directory: the current one when it is known, else `/home`, `C:\` or empty by platform. `/proc` is excluded iff the platform is Unix, and the excluded list is empty elsewhere. |
| `ConfigDefaults.ResetToggles` | czkawka_gui/src/saving_loading.rs:368-379 | Every toggle is on and the allowed extensions are empty, whatever was there. |
| `ConfigDefaults.ResetIdempotent` | czkawka_gui/src/saving_loading.rs:317-383 | Resetting twice is resetting once. |
| `ConfigDefaults.ResetForgets` | czkawka_gui/src/saving_loading.rs:317-383 | The reset result does not depend on the previous widgets. The one exception is the excluded-items text on platforms other than Unix and Windows. |
| `ConfigDefaults.PatternsOfStarTokens` | czkawka_gui/src/saving_loading.rs:71-76 | Comma-joined tokens that start with `*` are stored exactly as those tokens. |
| `ConfigDefaults.UnixDefaultPatterns` | czkawka_gui/src/saving_loading.rs:362 | The Unix default entry is stored as its five patterns. |
| `ConfigDefaults.WindowsDefaultPatterns` | czkawka_gui/src/saving_loading.rs:365 | The Windows default entry is stored as its four patterns. |
| `HelpFunctions.ViewLines` | czkawka_gui/src/help_functions.rs:129-161 | The definition of the view's lines: the MESSAGES, WARNINGS and ERRORS sections in that order. |
| `HelpFunctions.MessagesText` | czkawka_gui/src/help_functions.rs:129-161 | The definition of the view text: each of the view's lines followed by a newline. |
| `HelpFunctions.PrintTextMessages` | czkawka_gui/src/help_functions.rs:129-161 | The assembled text is the view's lines, each followed by a newline. For each non-empty list, in the order messages, warnings, errors, those lines are its banner, its entries and a blank line. |
| `HelpFunctions.AppendSection` | czkawka_gui/src/help_functions.rs:131-140 | One of the three blocks appends exactly its section's text: nothing for an empty list. |
| `HelpFunctions.SectionLines` | czkawka_gui/src/help_functions.rs:131-140 | A section has no lines iff its list is empty. Otherwise it is the banner, then the entries in order, then one blank line. |
| `HelpFunctions.SectionText` | czkawka_gui/src/help_functions.rs:131-140 | A non-empty section's text is its banner and newline, each entry and its newline, and one extra newline. |
| `HelpFunctions.MessagesEmpty` | czkawka_gui/src/help_functions.rs:129-161 | The text is empty iff all three lists are empty. |
| `HelpFunctions.MessagesOrder` | czkawka_gui/src/help_functions.rs:131-160 | A banner line appears iff its list is non-empty, at the position after the lines of the earlier lists. The order is MESSAGES, WARNINGS, ERRORS. |
| `HelpFunctions.SectionEntries` | czkawka_gui/src/help_functions.rs:134-160 | Each entry is on its own line, after its banner, in input order. A blank line closes each non-empty section. |
| `HelpFunctions.MessagesLines` | czkawka_gui/src/help_functions.rs:129-161 | For entries without line breaks, splitting the text at newlines gives back exactly the view's lines. |
| `HelpFunctions.TitleLengths` | czkawka_gui/src/help_functions.rs:132-153 | The banners are 40, 40 and 38 characters long before their newline. |
| `HelpFunctions.MessagesLength` | czkawka_gui/src/help_functions.rs:129-161 | For each non-empty section the text holds its banner and newline, the entries' lengths, one newline per entry and one closing newline. The total length is the sum of these. |
| `HelpFunctions.ListStoreText` | czkawka_gui/src/help_functions.rs:100-120 | The loop with its `first` flag yields `""` for an empty store, else the values joined by single commas. |
| `HelpFunctions.JoinSnoc` | czkawka_gui/src/help_functions.rs:109-118 | One more value adds a comma (unless it is the first) and the value. |
| `HelpFunctions.SimilarityText` | czkawka_gui/src/help_functions.rs:221-230 | Every level has a non-empty label, and the label is `"Original"` iff the level is `None`. |
| `HelpFunctions.SimilarityRoundTrip` | czkawka_gui/src/help_functions.rs:221-230 | Reading a level's label back gives that level. |
| `HelpFunctions.SimilarityOfText` | czkawka_gui/src/help_functions.rs:221-230 | Any label that names a level is that level's label. |
| `HelpFunctions.SimilarityInjective` | czkawka_gui/src/help_functions.rs:221-230 | No two levels share a label. |

## Left out

- The GTK calls are left out: list stores, entries, toggle buttons and the text buffer. The widgets are modelled as the value `Gui` and the messages view as a string.
- `ProjectDirs`, `exists`/`is_dir`/`create_dir`, `File::create`, `read_to_string` and `env::current_dir` are not modelled. Their outcomes are the inputs `SaveEnvironment`, `ConfigSource` and the current directory. The file name `czkawka_gui_config.txt` and the paths in the messages are not modelled either.
- The status texts are not modelled character for character. `Status` names which message was set. A line message carries the 0-based line number, its kind and the quoted line, but not the path.
- `ConfigDefaults.Reset`: the current directory is taken as any string. The source converts it with `to_str().unwrap()` (line 328) and panics when the path is not valid UTF-8, and that panic is not modelled.
- `ConfigFormat.SaveConfiguration`: a partial write is counted in characters, not bytes. A write cut inside a multi-byte UTF-8 character is not modelled.
- `println!` in the reset fallback is left out: it is console output only.
- Lower-casing is modelled for ASCII only. Rust's `to_lowercase` also maps other letters. This matters only for toggle values, and all valid ones are ASCII.
- `Representable` is a requirement of the round-trip lemmas. Under it, no directory or token contains an LF or CR, and directories are trimmed and do not start with `--`. It is sufficient, not necessary: a CR inside an entry, for instance, comes back unchanged, but the lemmas do not cover such widgets. Some widgets outside it do not survive the file in the source either: a path containing an LF becomes two lines, and an untrimmed path comes back trimmed.
- `ConfigDefaults.UnixDefaultPatterns` and `ConfigDefaults.WindowsDefaultPatterns` state the defaults' text as the comma join of the patterns (`UnixExcludedItems := Join(UnixPatterns, ',')`), not as the literal string. The two spell the same characters.
- `split_path`, `get_list_store`, the `select_function_*` callbacks, `set_buttons` and `hide_all_buttons` are not part of this model. They are widget glue.
- `Messages` and `Similarity` are defined in czkawka_core, which is not part of this model. They are modelled from their use here: three lists of strings and six levels.

Behaviours of the source a reader might not expect, followed here:
- Orphan data returns from `load_configuration` before any widget is set, so nothing from the file is applied (lines 205-211).
- The writer emits `--save_at_exit:` before `--load_at_start:` (lines 88-96).
- Stored pattern tokens keep their surrounding spaces. The reader trims them when it loads (lines 75, 85, 180).
- A toggle with an invalid value keeps its previous value, which starts as `true` (lines 174-176, 230-235).
- Data after an unknown `--` header goes to the section that was current before (lines 198-202).
- A missing file is reported only on a manual load (lines 151-156).
- Several messages may be set during one load. The status line shows the last one, and a manual load that completes overwrites them with its own message (lines 309-311).
