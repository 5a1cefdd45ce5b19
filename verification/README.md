# Easy-Install run sequencer — a Dafny model

Easy-Install's `ExeManagerApp` (`AutoInstall-Final.py`) keeps an ordered
list of installer paths, refuses to add a path once the list holds ten,
and runs them one at a time. Its state is the list `exe_list`, the
index `current_index` of the program considered current, the set
`skipped_indices`, and the row selected in the Listbox. The window's
buttons drive that state: Add Program, Remove Selected, the two arrows,
Start and Skip. This project models that state
machine as pure functions over an immutable `Manager` value. It also
models three pure helpers:

- the extension dispatch that decides how one program is run;
- the line format of the list file;
- the text helpers both of these rely on.

Modules:

- `Wrappers`: `Option`, used for the selection.
- `Text`: Python whitespace, ASCII lower-casing, `strip`, and the
  extension of a Windows path.
- `Storage`: `save_programs` and `load_programs` as `Encode`/`Decode`.
- `Runner`: the dispatch on the extension, and the message shown for
  what the launched process did.
- `Sequencer`: the `Manager` state and one transition per button. Each
  transition returns a `Step` with three parts: the new state, the
  `Notice` (the message box shown, if any) and the `Effect` (the file
  saved, or the program handed to the runner).
- `Laws`: lemmas that relate the transitions to each other and pin
  down the code's quirks, plus two start-then-skip runs.
- `Session`: button presses and Listbox clicks applied in sequence,
  and the invariants that hold across any sequence of them.

The model follows the code as written, including these behaviours a
reader might not expect:

- Removing an entry leaves the current index and the skipped indices as
  they were. They are not shifted or clamped, so removing the last entry
  while it is current leaves the current index one past the end of the
  list (`Laws.RemoveLeavesIndexPastEnd`).
- Skip marks the index it moves to, not the one it leaves. Skip marks
  belong to positions, so moves and removals leave them where they were
  (`Laws.MoveLeavesSkipOnPosition`, `Laws.RemoveLeavesSkipOnPosition`).
- Start then Skip on three programs with nothing selected ends with
  current index 1, skipped `{1}` and row 2 selected
  (`Laws.ScenarioStartThenSkip`).
- When mark-next does not apply, the selection stays wherever it was. It
  is not moved back to the current row.
- A run of a `.inf` file catches only the helper's failure status. If
  the helper cannot be launched at all, the exception leaves
  `run_program_at_index` before the next program is marked, so the run
  row stays selected (`Runner.Outcome`, `Sequencer.RunAt`).

Assumptions about things the code does not show:

- The Listbox always holds exactly `exe_list`. So a selected row is
  always a valid index (`Sequencer.WellFormed`), and `Session.Apply`
  keeps this true.
- After a removal nothing is selected. Tk drops the selection of a
  deleted row, and the list allows only one selected row.
- A cancelled file dialog returns the empty string.
- `os.path.normpath` is a parameter `norm: string -> string`.

## Model

| member | source | states |
|---|---|---|
| Sequencer.Initial | AutoInstall-Final.py:13-15 | start-up state: the loaded list, index 0, nothing skipped, nothing selected, and a well-formed selection |
| Sequencer.Key | AutoInstall-Final.py:76-77 | the comparison key of a path has as many characters as its normalised form |
| Sequencer.SameUpToCaseSameKey | AutoInstall-Final.py:76-77 | two paths whose normalised forms differ only in ASCII letter case get the same key, so the second counts as a duplicate |
| Sequencer.SameKeySameUpToCase | AutoInstall-Final.py:76-77 | the converse: two paths with the same key have normalised forms of equal length that agree at every position up to ASCII letter case |
| Sequencer.HasKey | AutoInstall-Final.py:77 | the duplicate test holds exactly when some entry has the same normalised, lower-cased path |
| Sequencer.AddProgram | AutoInstall-Final.py:70-82 | at 10 or more entries nothing changes and "Limit Reached" is shown; a cancelled dialog changes nothing; a path whose key an entry already has changes nothing and reports a duplicate; otherwise the path is appended after the unchanged earlier entries, the rest of the state is kept and the new list is saved; the list changes only in that last case |
| Sequencer.SelectRow | AutoInstall-Final.py:42 | a click that Tk resolves to a row of the single-selection Listbox makes that row the only selection; a row index past the end is ignored (Tk turns a click below the last row into a click on the last row); the list, current index and skipped set are kept, nothing is shown or saved |
| Sequencer.ClearSelection | AutoInstall-Final.py:42 | clearing the Listbox selection leaves no row selected and changes nothing else |
| Sequencer.RemoveProgram | AutoInstall-Final.py:84-90 | with a selection `i`, the list loses exactly entry `i` (earlier entries in place, later ones shifted down one, the same multiset less that entry); the current index and skipped indices are unchanged; nothing stays selected; the list is saved. With no selection nothing happens |
| Sequencer.Swap | AutoInstall-Final.py:96 | the two positions are exchanged, every other position is kept, and the result is a permutation |
| Sequencer.MoveUp | AutoInstall-Final.py:92-99 | with selection `i > 0`, positions `i-1` and `i` are exchanged, everything else is kept, the list is a permutation of the old one, the selection becomes `i-1` and the list is saved; at row 0 or with no selection nothing happens; the current index and skipped indices are never touched |
| Sequencer.MoveDown | AutoInstall-Final.py:101-108 | the mirror image: selection `i+1`, and nothing happens at the last row |
| Sequencer.MarkNext | AutoInstall-Final.py:157-162 | selects `current+1` exactly when it is in range and not skipped, and otherwise keeps the selection; nothing else changes |
| Sequencer.RunAt | AutoInstall-Final.py:130-155 | selects the run row, dispatches its path, and reports the runner's outcome; the list, current index and skipped indices never change; unless an exception escapes, the next program is then marked |
| Sequencer.AfterRun | AutoInstall-Final.py:131-155 | after a run the run row is selected; unless the run escaped, the row after the current one is then selected when it is in range and not skipped; the list, current index and skipped set are kept |
| Sequencer.Start | AutoInstall-Final.py:110-120 | the current index becomes the selected row, or 0; when that is past the end the result is "No Programs" with nothing else changed; otherwise that program is dispatched, and the row after it is selected when the run did not escape and that row is in range and not skipped, else the run row itself |
| Sequencer.Skip | AutoInstall-Final.py:122-128 | when `current+1` is in range, the current index grows by exactly 1, that new index is added to the skipped set, and `current+2` is selected when it is in range and not skipped (otherwise the selection is kept); otherwise "End of List" is shown and the state is unchanged |
| Runner.Dispatch | AutoInstall-Final.py:135-153 | `.exe`/`.msi` (any case) run the path itself, `.inf` runs `rundll32 setupapi,InstallHinfSection DefaultInstall 128 <path>`, and any other extension is unsupported, carrying the lower-cased extension |
| Runner.Outcome | AutoInstall-Final.py:137-153 | a direct run reports only a launch failure and ignores the exit status; the helper reports a non-zero exit as an install failure, and its launch failure escapes the handler; an unsupported file reports its extension |
| Runner.DispatchByName | AutoInstall-Final.py:135-143 | a file named `stem + ext`, where `ext` is a dot followed by no further dot or separator and `stem` ends in a character that is neither a dot nor a separator, is dispatched by the lower-cased `ext` alone |
| Runner.ActionFor | AutoInstall-Final.py:137-153 | for a lower-cased extension: `.exe` or `.msi` runs the path itself, `.inf` runs the installer helper with the path as fifth and last argument, anything else is unsupported and carries that extension |
| Runner.UpperCaseExtensionsKnown | AutoInstall-Final.py:135-143 | `.EXE`, `.MSI` and `.INF` lower-case to extensions the dispatch knows |
| Runner.InstallerRunsDirectly | AutoInstall-Final.py:135-140 | a file whose extension is `.exe` or `.msi` in any case is run as a command of its own, the command being exactly its path |
| Runner.DriverFileUsesHelper | AutoInstall-Final.py:143-149 | a file whose extension is `.inf` in any case is handed to `rundll32 setupapi,InstallHinfSection DefaultInstall 128` with its path as the last argument |
| Runner.DirectExitStatusIgnored | AutoInstall-Final.py:137-142 | a `.exe` or `.msi` file (any case) whose process exits, with any status, reports no error |
| Text.Extension | AutoInstall-Final.py:135 | the extension is a suffix of the path; it is empty, or starts at a dot and holds no further dot or separator |
| Text.ExtensionOfName | AutoInstall-Final.py:135 | a name whose stem ends in an ordinary character has exactly its suffix as extension, whatever directories come before |
| Text.Lower | AutoInstall-Final.py:135 | lower-casing keeps the length of the string |
| Text.LowerAt | AutoInstall-Final.py:135 | lower-casing treats each character on its own: every position of the result is the lower-case form of the same position of the input |
| Text.IsSpace | AutoInstall-Final.py:178 | the whitespace `strip` removes: code points 9-13, 28-32, 0x85, 0xA0, 0x1680, 0x2000-0x200A, 0x2028, 0x2029, 0x202F, 0x205F and 0x3000 |
| Text.Strip | AutoInstall-Final.py:178 | the result has no whitespace at either end and is no longer than the input |
| Text.StripTrims | AutoInstall-Final.py:178 | the result is the infix of the input that follows its leading whitespace, and everything cut off on either side is whitespace |
| Text.StripLine | AutoInstall-Final.py:178 | stripping a stripped path followed by its newline gives the path |
| Storage.Encode | AutoInstall-Final.py:170-173 | the text is empty exactly for the empty list, and otherwise ends in a newline |
| Storage.ReadLines | AutoInstall-Final.py:178 | the lines concatenate back to the text; each is non-empty with a newline at most at its end, and every line but the last ends in one |
| Storage.MapLines | AutoInstall-Final.py:178 | the list comprehension over the lines read: one result per line, in order, each the function applied to that line |
| Storage.StripAll | AutoInstall-Final.py:178 | one entry per line read, in order, each that line stripped |
| Storage.Decode | AutoInstall-Final.py:175-180 | one entry per line of the file; every entry is stripped and holds no newline |
| Storage.DecodeEncode | AutoInstall-Final.py:170-180 | loading the saved text of a list of storable paths gives back that list, in order, with nothing lost or repeated |
| Storage.LoadSaveLoad | AutoInstall-Final.py:170-180 | saving a loaded list and loading it again gives the same list |
| Laws.AddWithinCapacity | AutoInstall-Final.py:71-73 | add never takes a list of at most 10 entries past 10 |
| Laws.AddKeepsKeysDistinct | AutoInstall-Final.py:76-80 | add keeps the normalised, lower-cased paths pairwise distinct |
| Laws.AddTwiceIsAddOnce | AutoInstall-Final.py:76-80 | adding the same path again leaves the list as the first add left it |
| Laws.RemoveKeepsKeysDistinct | AutoInstall-Final.py:84-90 | removal keeps the keys pairwise distinct |
| Laws.SwapKeepsKeysDistinct | AutoInstall-Final.py:96 | exchanging two entries keeps the keys pairwise distinct |
| Laws.MoveUpKeepsKeysDistinct | AutoInstall-Final.py:92-99 | move up keeps the keys pairwise distinct |
| Laws.MoveDownKeepsKeysDistinct | AutoInstall-Final.py:101-108 | move down keeps the keys pairwise distinct |
| Laws.MoveUpUndoesMoveDown | AutoInstall-Final.py:92-108 | move down at `i`, then move up at `i+1`, restores the whole state |
| Laws.MoveDownUndoesMoveUp | AutoInstall-Final.py:92-108 | move up at `i`, then move down at `i-1`, restores the whole state |
| Laws.MoveLeavesSkipOnPosition | AutoInstall-Final.py:92-99 | after an effective move up of row `i`, the skip marks are exactly as before while the entries at `i - 1` and `i` have traded places, so each mark on either row now lies on the other entry |
| Laws.RemoveLeavesIndexPastEnd | AutoInstall-Final.py:84-90 | for every list, removing the selected last entry while it is current drops exactly that entry and leaves the current index equal to the new length, one past the end |
| Laws.RemoveLeavesSkipOnPosition | AutoInstall-Final.py:84-90 | after removing row `j`, the skip marks are exactly as before while every later entry has shifted down one, so a mark at any index from `j` on now lies on the entry that followed its old one |
| Laws.MarkNextSelectsUnskipped | AutoInstall-Final.py:157-162 | mark next only ever selects `current+1`, and only when it is in range and not skipped |
| Laws.MarkNextIdempotent | AutoInstall-Final.py:157-162 | marking twice is the same as marking once |
| Laws.RunResultOnlyAffectsSelection | AutoInstall-Final.py:130-155 | the process result never changes the list, current index or skipped set; when no exception escapes, it does not change the state at all |
| Laws.StartRunsOnNonEmptyList | AutoInstall-Final.py:110-118 | on a non-empty list, start always runs a program, and the current index is in range |
| Laws.StartResetsStaleIndex | AutoInstall-Final.py:110-118 | with nothing selected, start runs the first program, even if a removal left the current index past the end |
| Laws.SkipMarksItsDestination | AutoInstall-Final.py:122-128 | after an effective skip the current index is in range and is itself skipped; no other index becomes skipped |
| Laws.SkipAtEndChangesNothing | AutoInstall-Final.py:122-128 | a skip at or past the last entry reports "End of List" and changes nothing |
| Laws.SkipThenStartRunsTheOneAfter | AutoInstall-Final.py:110-134 | skip then start runs the program two places after the old current index when that program exists and is not skipped |
| Laws.ScenarioStartAtOneThenSkip | AutoInstall-Final.py:110-134 | four programs `a, b, c, d`, row 1 selected: start makes 1 current and runs `b`, and selects 2 unless an exception escaped; skip then makes 2 current, skips `{2}` and selects 3, whatever the run selected |
| Laws.ScenarioStartThenSkip | AutoInstall-Final.py:110-134 | three programs `a, b, c`, nothing selected: start makes 0 current and runs `a`, and selects 1 unless an exception escaped; skip then makes 1 current, skips `{1}` and selects 2, whatever the run selected |
| Session.Apply | AutoInstall-Final.py:42-64 | every button press or row click keeps the selection on a row of the list, never grows a list of at most 10 entries past 10, and saves the list whenever it changes it, the saved text being the new list's encoding |
| Session.Replay | AutoInstall-Final.py:42-64 | any sequence of button presses and row clicks keeps the selection on a row of the list |
| Session.ReplayWithinCapacity | AutoInstall-Final.py:71-73 | no sequence of button presses and row clicks takes a list of at most 10 entries past 10 |
| Session.ApplyKeepsKeysDistinct | AutoInstall-Final.py:70-108 | no single button press or row click lets two entries share a normalised, lower-cased path |
| Session.ReplayKeepsKeysDistinct | AutoInstall-Final.py:70-108 | no sequence of button presses and row clicks lets two entries share a normalised, lower-cased path |
| Session.SelectThenRemove | AutoInstall-Final.py:84-90 | from start-up, a click on a row followed by "Remove Selected" deletes exactly that row, keeps the others in order, and leaves index 0, no skips and no selection |
| Session.SavedListReloads | AutoInstall-Final.py:170-180 | whenever a press saves the list, loading the saved text gives back the list on screen, provided every path is storable |

## Left out

- The tkinter window, its widgets and layout, the message boxes and the
  file dialog are left out. Messages are `Notice` values, and the
  dialog's answer is a parameter of `AddProgram`.
- `subprocess.run` is left out: process creation, exit codes and the
  console-window flag. What the process did is an arbitrary
  `ProcessResult` parameter. `Exited(code)` stands for a process that
  ran, and `LaunchError` for an exception raised while starting it.
- The file I/O of `save_programs` and `load_programs` is left out:
  opening the file, writing it, and the missing-file case that returns
  the empty list. Only the text written and the parsing of the text read
  are modelled.
- Storage.Decode: newline translation in text mode is not modelled. A
  written `"\n"` becomes `"\r\n"` on Windows, and reading turns `"\r"`
  and `"\r\n"` into `"\n"`. The model splits only on `"\n"`, so an entry
  holding a bare `"\r"` would be split by the real reader but not by
  this model.
- Sequencer.Key: `os.path.normpath` is a library routine whose code is
  not part of this model. It is the parameter `norm`.
- Text.Lower: lower-cases only the ASCII letters. Python's `str.lower`
  also lower-cases other letters. Keys and extensions therefore agree
  with Python on ASCII paths only.
- Text.Extension: follows the Windows rule of `ntpath.splitext`, with
  both separators and leading dots of the name ignored. It models that
  library routine rather than calling it.
- `update_listbox` (lines 164-168) redraws the Listbox. It is captured
  only by the assumption that the Listbox always holds `exe_list`.
- An exception that escapes a handler is reported as `Escaped`. Tk's
  callback error printing that follows is not modelled.
