# DataScreener, modelled in Dafny

DataScreener is a small desktop tool for screening EEG session files. The user
picks a directory; every `.txt` file in it is read line by line into a table of
records (time stamp, valence, arousal and one column per EEG channel), plotted
on seven fixed channels, and the user presses one of three buttons:

* **Preserve** removes a leading `[Bad]` from the file name;
* **Tag as Bad** puts `[Bad]` in front of the name unless it is already there;
* **Exit App** ends the program.

Closing the window without a button moves on to the next file.

The model has six modules:

| module | file | what it models |
|---|---|---|
| `Wrappers` | `wrappers.dfy` | `Option` and `Result` |
| `PyText` | `pytext.dfy` | the Python string operations the program uses: `strip`, `split(',')`, `split()`, `startswith`, `endswith`; and `count`, `index`, `' '.join` and `','.join`, which the program does not call and which serve only to state and prove what the others do |
| `PyFloat` | `pyfloat.dfy` | `float(text)` on strings: whitespace, sign, digits, fraction, exponent, `inf`/`infinity`/`nan` in any case; `None` where Python raises `ValueError` |
| `EegReader` | `eegreader.dfy` | `read_eeg_file`: the per-line `try` block (`ParseRecord`, imperatively `ParseLine` and `FillChannels`) and the session of accepted rows (`Session`, imperatively `ReadSession`) |
| `Tagging` | `tagging.dfy` | the name transitions of `tag_as_bad` and `remove_bad_tag` |
| `Screener` | `screener.dfy` | the directory as a `Folder` object updated by `os.rename`; the figure's shared callback state as a `ReviewWindow` object; `plot_eeg_data` (`PlotEegData`, specified by the function `ReviewFile`); the loop of `main` (`ScreenListing`, `Screen`, specified by the function `Run`) |

Inputs the program gets from outside are parameters:

* the directory's contents are a map from base name to the file's lines;
* `os.listdir` is the `listing` sequence;
* the button pressed for each displayed file is the aligned `decisions` sequence;
* a cancelled directory dialog is a `null` folder.

A line parses to `Success(record)`, or to `Failure(e)` where `e` is the first
exception the Python code raises on that line:

* `MissingField(i)` for the `IndexError` on `parts[i]`;
* `NotANumber(text)` for the `ValueError` of `float(text)`;
* `BadToken(token, n)` for the `ValueError` of unpacking a token that split into `n != 2` pieces at `=`.

Numbers are `Finite(real)`, `Infinity(negative)` or `NaN`.

A run ends in one of three ways:

* `Finished`: the listing ran out.
* `Exited`: Exit App was pressed (`sys.exit`).
* `Crashed`: an exception escaped `main`. This happens in two cases:
  * `open` failed because the name is no longer in the directory (`Missing`);
  * `df[channel]` raised `KeyError` for one of the seven channels (`Unplottable`).

Behaviour of the code worth noting:

* **Line errors.** A line fails at the first step that raises, in the code's order. A non-number in field 0 raises before any field count is checked, and `"1,2"` fails with `IndexError` on `parts[2]`. A line with fewer than four fields fails at the first missing index or the first non-number; a line with at least four fields whose first three parse fails at its first rejected channel token (`EegReader.FailureCause`). A failing line is dropped.
* **Exceptions that end the run.** A file lacking one of the seven channels in every row raises `KeyError` out of `plot_eeg_data` and out of `main`: a file whose rows hold `Pz` but never `F4` fails in the plotting loop at `F4` (`Screener.NoF4StopsAtF4`), and its `Unplottable("F4")` step ends the run as a crash (`Screener.NoF4EndsRun`, `Screener.RunStopsAtLast`). A name that vanished from the directory stops the run too; when the listing holds distinct names of the directory, this cannot happen (`Screener.RunNeverMissing`).
* **Tagged-name collisions.** On POSIX, `os.rename` replaces an existing file of the target name, so tagging onto an existing `[Bad]` name replaces that file, and the model does the same (`Screener.TagReplacesExisting`).
* **A doubly tagged name.** Preserve on `[Bad][Bad]x` drops only one prefix and leaves `[Bad]x`, which is still tagged (`Tagging.UntagDoubleTag`).

## Model

| member | source | states |
|---|---|---|
| PyText.Split | DataScreener.py:18 | `split(',')` gives at least one piece, and no piece holds the separator |
| PyText.JoinSplit | DataScreener.py:18 | joining the pieces of `split(sep)` with `sep` gives back the string |
| PyText.SplitJoin | DataScreener.py:18 | splitting a join of separator-free pieces gives back the pieces |
| PyText.SplitCount | DataScreener.py:32 | `split('=')` has one more piece than the token has `=` characters |
| PyText.SplitOnce | DataScreener.py:32 | a token with exactly one `=` splits into the text before it and the text after it |
| PyText.Strip | DataScreener.py:18 | `strip()` gives a string no longer than its input that neither starts nor ends with whitespace |
| PyText.StripUnpadded | DataScreener.py:18 | `strip()` leaves a string that neither starts nor ends with whitespace unchanged |
| PyText.StripBlank | DataScreener.py:18 | a whitespace-only string strips to the empty string |
| PyText.Words | DataScreener.py:29 | every word of `split()` is non-empty and free of whitespace; `WordsBlank`, `WordsSingle` and `WordsSplitAt` determine which words it gives |
| PyText.WordsBlank | DataScreener.py:29 | `split()` of empty or whitespace-only text gives no words |
| PyText.WordsSingle | DataScreener.py:29 | `split()` of one non-empty whitespace-free word gives that word |
| PyText.WordsSplitAt | DataScreener.py:29 | any whitespace character, tabs included, separates the words before it from those after it; with the two rows above this fixes `split()` on every string, whatever its leading, trailing or repeated whitespace |
| PyText.WordsUnwords | DataScreener.py:29 | `split()` of non-empty whitespace-free words joined by single spaces gives back the words |
| PyFloat.ParseNum | DataScreener.py:19-21 | `float` succeeds only on text that is not blank after stripping |
| PyFloat.ParseBlank | DataScreener.py:19-21 | `float` of an empty or whitespace-only field raises |
| PyFloat.ParseUnsignedDigits | DataScreener.py:19-21 | a run of decimal digits reads as its decimal value |
| PyFloat.ParseNegatedDigits | DataScreener.py:19-21 | `-` followed by digits reads as the negated decimal value |
| PyFloat.ParseIntText | DataScreener.py:19-21 | `float(str(i)) == i` for every integer `i` |
| EegReader.NumberField | DataScreener.py:19-21 | `float(parts[i])` succeeds if and only if field `i` exists and is a number, and then gives that number; otherwise it raises `IndexError` (`MissingField(i)`) when the field is absent and `ValueError` (`NotANumber(parts[i])`) when it is not a number |
| EegReader.ApplyToken | DataScreener.py:31-33 | one pass of the token loop keeps every key already in the record, and fails only on a token that is not a trigger, never with `IndexError`; `ApplyTokenIff` and `ApplyTokenValue` say exactly when it fails and what it stores |
| EegReader.ApplyTokens | DataScreener.py:30-33 | the token loop keeps every key it started with and never fails with `IndexError`; `ApplyTokensIff` and `TokensFailureCause` say when and where it fails |
| EegReader.ParseRecord | DataScreener.py:17-35 | the `try` block for one line; `LineAcceptedIff` says which lines it accepts, `FailureCause` which exception a rejected line raises, `AcceptedRecord` and `RecordKeys` what record an accepted line gives |
| EegReader.ParseLine | DataScreener.py:17-35 | the `try` block run step by step, failing at the first exception, equals the line's parse `ParseRecord` |
| EegReader.FillChannels | DataScreener.py:29-33 | the token loop updating the record in place equals the token fold `ApplyTokens`: it skips triggers, stores each value and stops at the first bad token |
| EegReader.ApplyTokenIff | DataScreener.py:31-33 | one token succeeds if and only if it is a `TRG=` trigger or has exactly one `=` followed by a number |
| EegReader.ApplyTokenValue | DataScreener.py:31-33 | an accepted trigger leaves the record as it is; an accepted channel token stores its value under its name |
| EegReader.ApplyTokensIff | DataScreener.py:30-33 | the token loop succeeds if and only if every token is accepted |
| EegReader.LineAcceptedIff | DataScreener.py:17-39 | a line gives a record if and only if it has at least four fields, the first three are numbers and every token of the fourth is accepted |
| EegReader.FailureCause | DataScreener.py:18-33 | a failed line raises at the first step that fails, in the code's order: the first leading field that is missing or not a number, after the ones before it parsed; otherwise, with all three leading fields parsed and field 3 present, the first rejected channel token, every earlier token being accepted |
| EegReader.TokenFailureCause | DataScreener.py:31-33 | a failing token is rejected and is not a trigger; its error is its piece count when it has other than one `=`, else its non-number value text |
| EegReader.TokensFailureCause | DataScreener.py:30-33 | a failing token loop raises on its first rejected token, with that token's error; every token before it is accepted |
| EegReader.TokensKeys | DataScreener.py:23-33 | an accepted record's keys are the three leading keys plus one key per channel token |
| EegReader.ChannelNamesCons | DataScreener.py:30-33 | the names a token sequence stores are those of its first token, unless it is a trigger, plus those of the rest |
| EegReader.UnstoredKeepsValue | DataScreener.py:30-33 | a name no token stores keeps the value it had, or stays absent |
| EegReader.LastTokenWins | DataScreener.py:33 | a repeated channel name keeps the value of its last token |
| EegReader.TriggerIgnored | DataScreener.py:31 | a `TRG=` token never changes the outcome, wherever it stands |
| EegReader.AcceptedRecord | DataScreener.py:18-35 | an accepted line's record is the token loop started from its three parsed leading fields |
| EegReader.RecordKeys | DataScreener.py:23-33 | an accepted line's record holds exactly the three leading keys and its channel names |
| EegReader.RecordLeadingField | DataScreener.py:19-27 | a leading field keeps its parsed value unless a channel token of the same name overwrites it |
| EegReader.LeadingFieldKept | DataScreener.py:23-33 | the token loop keeps a leading field that no token stores |
| EegReader.ExtraFieldsIgnored | DataScreener.py:18-29 | comma fields after the fourth do not affect the parse |
| EegReader.Row | DataScreener.py:35-39 | a line contributes at most one row |
| EegReader.Session | DataScreener.py:16-39 | a file has at most as many rows as lines |
| EegReader.SessionAppend | DataScreener.py:16-39 | lines are parsed independently: the rows of a concatenation are the concatenated rows |
| EegReader.SessionSnoc | DataScreener.py:16-35 | one more line appends exactly that line's row |
| EegReader.SessionEmptyIff | DataScreener.py:37-41 | the frame is empty if and only if every line raised |
| EegReader.SessionRows | DataScreener.py:16-41 | every row is the record of some line, and every accepted line's record is a row |
| EegReader.SessionBaseKeys | DataScreener.py:23-27 | every row holds `TimeStamp`, `Valence` and `Arousal` |
| EegReader.ReadSession | DataScreener.py:9-41 | the read loop appending accepted records builds exactly the session of the file's lines |
| EegReader.ChannelTokenParts | DataScreener.py:31-33 | a `name=<integer>` token is accepted and splits into that name and that integer's text |
| EegReader.ChannelTokensStore | DataScreener.py:29-33 | the token loop over well-formed channel tokens and a trailing trigger stores every channel in order |
| EegReader.LineTextFields | DataScreener.py:18 | a well-formed line strips to itself and splits into its four fields |
| EegReader.ParseLineText | DataScreener.py:16-35 | a well-formed line with integer fields parses to its three values plus each channel under its name |
| Tagging.TaggedName | DataScreener.py:120-123 | the name after `tag_as_bad` is tagged, and ends with the old name unless that was tagged already |
| Tagging.UntaggedName | DataScreener.py:102-110 | `remove_bad_tag` drops the `[Bad]` prefix of a tagged name and keeps any other name |
| Tagging.TagPath | DataScreener.py:120-123 | tagging keeps the directory and gives a tagged name |
| Tagging.UntagPath | DataScreener.py:102-110 | removing the tag keeps the directory |
| Tagging.TagIdempotent | DataScreener.py:122-123 | tagging twice is tagging once |
| Tagging.UntagStripsOne | DataScreener.py:104-105 | removing the tag drops exactly the first five characters, and undoes one prepended `[Bad]` |
| Tagging.UntagDoubleTag | DataScreener.py:104-105 | `[Bad][Bad]x` becomes `[Bad]x`, still tagged |
| Tagging.UntagTag | DataScreener.py:104-105 | Preserve after Tag as Bad restores an untagged name |
| Tagging.TagUntag | DataScreener.py:104-105 | Tag as Bad after Preserve restores a name that carried exactly one tag |
| Tagging.PathRoundTrip | DataScreener.py:102-106 | tag then untag restores an untagged path; tagging a path twice is tagging once |
| Screener.MissingChannel | DataScreener.py:71-75 | `None` if and only if all seven channels are columns; otherwise the first channel in plotting order that is not |
| Screener.FirstMissingChannel | DataScreener.py:74-75 | the plotting loop stops at exactly the channel `MissingChannel` names |
| Screener.NoF4StopsAtF4 | DataScreener.py:71-75 | a frame with `Pz` but never `F4` fails at `F4` |
| Screener.NoF4EndsRun | DataScreener.py:71-75 | a file whose rows hold `Pz` but never `F4` gets the step `Unplottable("F4")`, which stops the run as a crash with the directory unchanged |
| Screener.Renamed | DataScreener.py:107 | `os.rename` moves the file's lines to the new name, replaces any file there, and keeps every other file |
| Screener.Folder.Rename | DataScreener.py:107 | renaming in place leaves the folder's files equal to `Renamed` of the old files |
| Screener.RenameBack | DataScreener.py:107 | renaming away and back restores the directory when the target was free |
| Screener.TagThenPreserve | DataScreener.py:100-126 | Tag as Bad and then Preserve on the new name restores the directory of an untagged file |
| Screener.TagReplacesExisting | DataScreener.py:123-124 | tagging onto an existing tagged name leaves one file fewer |
| Screener.RemoveBadTag | DataScreener.py:100-110 | returns the untagged path and renames the file to it only when it was tagged |
| Screener.ReviewWindow.PreserveFile | DataScreener.py:112-116 | `file_path` becomes the untagged path, the directory is renamed accordingly, the figure closes |
| Screener.ReviewWindow.TagAsBad | DataScreener.py:118-126 | the file is renamed to the tagged name unless already tagged; `file_path` is unchanged; the figure closes |
| Screener.ReviewWindow.ExitApp | DataScreener.py:128-132 | the figure closes and the program exits; nothing is renamed |
| Screener.ReviewWindow.CloseWindow | DataScreener.py:138 | closing the figure without a button changes nothing else |
| Screener.ReviewFile | DataScreener.py:43-138 | the step is `Missing` exactly when the name is not in the directory; a displayed file's step carries the button pressed; every other file stays in the directory, and the only name it can gain is the file's tagged or untagged name; `ReviewFileEffect` says exactly when a file is displayed and how each button changes the directory; `ReviewFileStep` says which step an existing file that is not displayed gets |
| Screener.ReviewFileEffect | DataScreener.py:43-132 | a file is displayed if and only if it exists, has rows and has all seven channels. Only Preserve of a tagged name and Tag as Bad of an untagged name rename it, moving its lines. Every other step leaves the directory as it was |
| Screener.ReviewFileStep | DataScreener.py:45-75 | an existing file is `Skipped` exactly when no line parsed, and `Unplottable` exactly when it has rows but lacks one of the seven channels, naming the first channel the plotting loop fails on |
| Screener.EmptySessionSkipped | DataScreener.py:45-49 | a file none of whose lines parses is skipped with no rename |
| Screener.ReviewKeepsOthers | DataScreener.py:107 | a review keeps every other file, and its lines too unless the rename target was that file |
| Screener.ChannelRecordDisplays | DataScreener.py:45-75 | one accepted line holding all seven channels makes the file displayable, whatever else it holds |
| Screener.SevenChannelLine | DataScreener.py:16-35 | a well-formed line naming the seven channels parses to a record holding all seven |
| Screener.SevenChannelFileDisplays | DataScreener.py:16-75 | a file with such a line is displayed |
| Screener.PlotEegData | DataScreener.py:43-138 | the imperative `plot_eeg_data` leaves the directory and reports the step exactly as `ReviewFile` does |
| Screener.Run | DataScreener.py:153-157 | a run visits at most as many entries as the listing has; `RunVisitsTxtInOrder` says which entries it visits and `RunStopsAtLast` how it ends |
| Screener.TxtNames | DataScreener.py:153-154 | the `.txt` entries, each ending in `.txt` and taken from the listing |
| Screener.RunVisitsTxtInOrder | DataScreener.py:153-157 | the visited names are a prefix of the listing's `.txt` entries in listing order, and all of them when the run finished |
| Screener.RunStopsAtLast | DataScreener.py:128-157 | every visited entry but the last went on; the last one stopped the run exactly when it did not finish. The run `Exited` exactly when the last step was Exit App, and `Crashed` exactly when the last file was missing or unplottable |
| Screener.RunEndsAtLast | DataScreener.py:128-157 | a run ends `Exited` exactly when its last visited step is Exit App, and `Crashed` exactly when its last visited file was missing or unplottable |
| Screener.RunCompose | DataScreener.py:153-157 | the run over two listings is the run over the first, followed by the run over the second when the first finished |
| Screener.ExitIgnoresRest | DataScreener.py:128-132 | after Exit or an escaped exception, later entries are never visited and nothing more changes |
| Screener.RunNeverMissing | DataScreener.py:153-157 | with distinct listed names of the directory, no visited file is missing when its turn comes |
| Screener.ScreenListing | DataScreener.py:153-157 | the imperative loop of `main` ends with the directory, visited entries and status that `Run` gives |
| Screener.Screen | DataScreener.py:140-157 | no chosen directory means nothing happens; otherwise the listing is screened as `Run` gives |

## Left out

- The figure: window maximising (lines 52-64), subplot layout, axis labels, the valence and arousal plots (80-88) and the button widgets (92-98, 134-138). The buttons are modelled only as the `decisions` input and the `ReviewWindow` state.
- The tkinter directory dialog (142-146) is an input: a `null` folder stands for no directory chosen.
- Every `print` diagnostic (38, 48, 64, 108, 125, 130, 149, 156) is dropped; they do not affect the run.
- Reading a file (`open`, `readlines`, line terminators, text encoding) is not modelled. A file's contents are given as its lines, and `strip` removes a trailing newline like any other whitespace.
- The pandas `DataFrame` is a sequence of records. Missing cells, which pandas fills with NaN, are not represented. A column exists when some row holds the key, which is what `df[channel]` needs to avoid `KeyError`.
- `float`: binary rounding, overflow of huge exponents to infinity, underscores between digits and non-ASCII digits are not modelled. Values are exact reals.
- `os.listdir` is the `listing` input. Its order, and which of its names are files rather than directories, are not modelled.
- Failures of `os.rename` are not modelled: permissions, other file systems, and on Windows a target name that already exists (`FileExistsError`, where POSIX replaces the target). Raised inside a button callback, such an exception is caught and printed by matplotlib's callback registry; `plt.close()` is then never reached, so the window stays open and the user can press another button.
- Other processes changing the directory while the program runs are not modelled.
- `plt.close('all')` in `exit_app` closes other figures, but there is never more than one.
- PyText.TrimStart: does not state that the result is a suffix of the input, only that it is no longer and starts with a non-space. The suffix relation is not needed by any property here, and stating it made every proof involving `float` much more expensive.
- PyText.Strip: does not state that the result is an infix of the input, only that it is no longer and neither starts nor ends with whitespace. Same reason as above.
