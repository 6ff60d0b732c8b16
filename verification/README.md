# MP3-MP4-Editor core in Dafny

This is a model of the editing core of MP3-MP4-Editor, with proofs about it. The editor is an Electron desktop
application for cutting and merging audio and video files with ffmpeg. The
model covers the logic that decides what the user's edits do and what is
sent to ffmpeg:

- the application state of `App.tsx`: the file list with a cut window
  `[startCut, endCut]` and an `order` per file, the undo and redo stacks,
  adding, removing, cutting and reordering files, undo and redo, and the
  recent-projects list (module `EditHistory`, class `EditHistory.Editor`);
- the file list panel: drag-to-reorder with renumbering, drops of outside
  files (a drop on a row also reaches the list container's handler, so the
  same paths are offered twice), and the duration and byte-size texts
  (module `FileReorder`, class `FileReorder.FileListDrag`);
- the cut timeline of the selected file: the Set Start / Set End / Reset
  buttons, the handle and playhead drags, typed start and end times,
  keyboard shortcuts and arrow seeking (module `CutWindow`, class
  `CutWindow.CutEditor`);
- the clock texts `h:mm:ss.mmm`, `h:mm:ss` and `m:ss`, and the time parser
  that reads them back (modules `TimeText` and `TimeReadBack`, over the
  JavaScript built-ins `split`, `padStart`, `toString`, `parseInt`,
  `parseFloat`, `Math.floor` and `%` in modules `Text` and `JsNumber`);
- the export controls panel (module `Controls`);
- the arrangement timeline: total length, zoom, ruler, segment colours
  and the segment drag session (module `Arrangement`, class
  `Arrangement.DragSession`);
- the export dialog: format detection, default file names, the cut and
  merge `settings` objects, the merge `inputs`, and the export, progress
  and cancel flags (module `ExportPlan`, class `ExportPlan.ExportDialog`);
- the ffmpeg service of the main process: the timemark parser, the video
  extension test, the concat list with its quote escaping, the ffmpeg
  options chosen for a cut and for a merge, the pre-trim of merge inputs,
  progress values, the temp-file cleanup and the current-command field
  (module `FfmpegPlan`, class `FfmpegPlan.FFmpegService`).

Times are exact `real` seconds. JavaScript's `NaN` and `±Infinity` are
collapsed into `None` of an `Option<real>`: every handler that consumes a
parsed time rejects all three alike, by comparisons with finite bounds.
Optional fields of the TypeScript records are `Option` values. JavaScript
truthiness of an optional string is `Media.Truthy`.

Each React handler is one atomic step on the latest state. The state
changes are pure step functions on a value (`EditHistory.Session`,
`CutWindow.CutState`, `Arrangement.Session`, `ExportPlan.DialogState`).
Each class method ensures that its new state is the step applied to its old
state. The properties are proved as lemmas about the step functions.
`EditHistory.ProbePaths` (the probing loop of `handleFilesAdded`), `FfmpegPlan.FFmpegService.MergeMedia`
and `FileReorder.MoveWithin` (the in-place `splice` pair on an array) keep
the loops of the source, with invariants that tie them to their
specifying functions.

Files: `wrappers.dfy`, `media.dfy`, `text.dfy`, `jsnum.dfy`, `timetext.dfy`,
`timeread.dfy`, `history.dfy`, `filelist.dfy`, `cutwindow.dfy`,
`controls.dfy`, `arrangement.dfy`, `exportplan.dfy`, `ffmpegplan.dfy`. All
of them are verified together.

## Model

| member | source | states |
|---|---|---|
| Text.NatToStringValue | src/renderer/components/Timeline.tsx:241 | the numeral `n.toString()` writes reads back as `n` |
| Text.PadStartParts | src/renderer/components/Timeline.tsx:241 | `padStart(w, fill)` ends with the text, and every character before it is the fill |
| Text.PaddedNumeralValue | src/renderer/components/Timeline.tsx:241 | a numeral padded with zeros on the left still reads as the number |
| Text.SplitPieces | src/renderer/components/Timeline.tsx:263 | no piece of `s.split(sep)` holds the separator |
| Text.JoinSplit | src/renderer/components/Timeline.tsx:263 | joining the pieces of a split with the separator gives back the text |
| Text.SplitJoin | src/main/services/ffmpeg.service.ts:228 | pieces without the separator, joined by it, split back into the same pieces |
| Text.SplitThreePieces | src/renderer/components/Timeline.tsx:263-265 | three separator-free fields joined by `:` split back into those three fields |
| Text.SortByFacts | src/renderer/components/FileList.tsx:53 | the comparator sort orders by key, is a permutation, and keeps the input order of equal keys (stable) |
| JsNumber.ParseIntOfDigits | src/renderer/components/Timeline.tsx:266 | `parseInt` of a numeral of decimal digits is its value |
| JsNumber.ParseFloatOfDecimal | src/renderer/components/Timeline.tsx:266 | `parseFloat("<digits>.<digits>")` is the exact decimal value |
| JsNumber.FloorDiv | src/renderer/components/Timeline.tsx:235-237 | `Math.floor(t / d)` for `t >= 0` and a whole `d > 0` is the whole seconds of `t` divided by `d` |
| JsNumber.RemNonNegative | src/renderer/components/Timeline.tsx:236-238 | JavaScript `%` on non-negative operands is the Euclidean remainder |
| TimeText.FieldsSum | src/renderer/components/Timeline.tsx:234-238 | the fields of `t >= 0` are natural numbers, the milliseconds below 1000; hours, minutes and seconds add up to the whole seconds of `t`, and the milliseconds are the thousandths beyond them |
| TimeText.ParseThreeParts | src/renderer/components/Timeline.tsx:262-266 | `h:m:s` is read as `parseInt(h)*3600 + parseInt(m)*60 + parseFloat(s)`; `TimeReadBack.ClockRoundTrip` is the partner that reads a `formatTime` text back |
| TimeText.ParseTwoParts | src/renderer/components/Timeline.tsx:267-269 | `m:s` is read as `parseInt(m)*60 + parseFloat(s)`; `TimeReadBack.ClockRoundTrip` is the partner that reads a `formatTime` text back |
| TimeText.ParseBareSeconds | src/renderer/components/Timeline.tsx:271 | text without `:` is read by `parseFloat` |
| TimeReadBack.ClockRoundTrip | src/renderer/components/Timeline.tsx:234-272 | for `t >= 0`, parsing the `formatTime` text of `t` gives `t` truncated to whole milliseconds |
| TimeReadBack.TruncMillisBelow | src/renderer/components/Timeline.tsx:238 | `t >= 0` truncated to milliseconds lies between 0 and `t` |
| TimeReadBack.ClockShape | src/renderer/components/Timeline.tsx:240-243 | the clock text has three fields exactly from one hour on, otherwise two; shown minutes are two digits, and the last field is `ss.mmm` |
| TimeReadBack.HmsRoundTrip | src/renderer/components/FileList.tsx:75-84 | the file-list duration of `t >= 0` reads back as the whole seconds of `t` |
| TimeReadBack.HmsShape | src/renderer/components/FileList.tsx:80-83 | the file-list duration shows hours exactly from one hour on, and then pads minutes to two digits; seconds are always two digits |
| TimeReadBack.MinSecRoundTrip | src/renderer/components/MultiTrackTimeline.tsx:120-124 | the `m:ss` text of `t >= 0` reads back as its whole seconds |
| TimeReadBack.MinSecValue | src/renderer/components/MultiTrackTimeline.tsx:120-124 | the whole minutes and the seconds within the minute of `t >= 0` add up to its whole seconds |
| EditHistory.SetCutEffect | src/renderer/App.tsx:259-261 | the `files.map` of a cut change sets the window of the files with that id and changes nothing else |
| EditHistory.FindSetCut | src/renderer/App.tsx:279 | after a cut change, `files.find` by id gives the same file with its new window |
| EditHistory.WithoutLength | src/renderer/App.tsx:236 | removal leaves the list unchanged exactly when no file has that id, and never lengthens it |
| EditHistory.RecentAfterSaveFacts | src/renderer/App.tsx:374 | the recent list after a save starts with the saved path, holds it once, keeps the others in order, and has at most 10 entries |
| EditHistory.BaseNameFacts | src/renderer/App.tsx:186 | the file name is the longest suffix of the path without `/` or `\` |
| EditHistory.MaxOrder | src/renderer/App.tsx:176 | the largest `order` is attained by some file and no file exceeds it |
| EditHistory.NewFilesFacts | src/renderer/App.tsx:178-212 | at most one new file per path, each made from a successful probe of the path its `order` encodes; the orders lie in `(base, base + n]` and increase along the list |
| EditHistory.NewFilesWindow | src/renderer/App.tsx:200-201 | every added file's cut window is `[0, duration]` |
| EditHistory.NewOrdersExceedExisting | src/renderer/App.tsx:176-202 | every added file's `order` exceeds every existing one; added to an empty list, the orders lie in `[0, n)` for `n` paths |
| EditHistory.PushUndo | src/renderer/App.tsx:267-270 | `pushUndo` appends exactly one entry and empties the redo stack |
| EditHistory.UndoStep | src/renderer/App.tsx:272-301 | undo on an empty stack changes nothing |
| EditHistory.RedoStep | src/renderer/App.tsx:303-332 | redo on an empty stack changes nothing |
| EditHistory.CutChangeFacts | src/renderer/App.tsx:249-265 | a cut change alters only the selected file's window and pushes its previous window as a cut entry; without a selection nothing changes |
| EditHistory.UndoCutEntry | src/renderer/App.tsx:278-296 | undoing a cut entry pops it; when its file is gone nothing else changes; otherwise the current window goes onto redo, the files with that id get the saved window and every other file is unchanged |
| EditHistory.UndoReorderEntry | src/renderer/App.tsx:297-300 | undoing a reorder entry installs the snapshot and pushes the current list onto redo |
| EditHistory.RedoReorderEntry | src/renderer/App.tsx:328-331 | redoing a reorder entry installs the snapshot and pushes the current list onto undo |
| EditHistory.ApplyEntryInverse | src/renderer/App.tsx:278-300 | applying an entry and then the inverse entry it produced gives back the files and the selection |
| EditHistory.UndoThenRedo | src/renderer/App.tsx:272-332 | undo followed by redo gives back the session when the top entry can be reverted by its inverse |
| EditHistory.RedoThenUndo | src/renderer/App.tsx:272-332 | redo followed by undo gives back the session when the top redo entry can be reverted by its inverse |
| EditHistory.CutChangeThenUndo | src/renderer/App.tsx:249-301 | when a file with a non-empty id is selected, is still in the list, and every list entry with its id holds the selection's window, a cut change followed by undo gives back the session, except that redo then holds the new window |
| EditHistory.CutChangeThenUndoDangling | src/renderer/App.tsx:249-301 | when the selected file is no longer in the list, a cut change followed by undo gives back the file list and the undo stack, the redo stack is empty and the selection keeps the new window |
| EditHistory.CutChangeSyncs | src/renderer/App.tsx:249-265 | after a cut change the selection and every file with its id share the new window, the sync `CutChangeThenUndo` asks for |
| EditHistory.ReorderThenUndo | src/renderer/App.tsx:244-301 | a reorder followed by undo gives back the session, except that redo then holds the new order |
| EditHistory.RemoveFacts | src/renderer/App.tsx:235-242 | removal deletes exactly the files with that id; a removed selection moves to the first remaining file, or to none |
| EditHistory.AddFacts | src/renderer/App.tsx:214-220 | adding keeps the existing files in front, the new files get orders above every existing one and the whole file as window, the first new file is selected only when nothing was, and the stacks are unchanged |
| EditHistory.Editor.constructor | src/renderer/App.tsx:20-29 | the editor starts with no files, no selection and empty stacks |
| EditHistory.ProbePaths | src/renderer/App.tsx:178-212 | the loop collects exactly the files of the successful probes, with their orders, and the failed paths in order |
| EditHistory.Editor.HandleFilesAdded | src/renderer/App.tsx:165-229 | after the probing loop the new state is the add step, and the failed paths are returned |
| EditHistory.Editor.HandleFileSelect | src/renderer/App.tsx:231-233 | selecting sets the selection only |
| EditHistory.Editor.HandleFileRemove | src/renderer/App.tsx:235-242 | the new state is the remove step |
| EditHistory.Editor.PushUndoEntry | src/renderer/App.tsx:267-270 | the new state is the push step |
| EditHistory.Editor.HandleFilesReorder | src/renderer/App.tsx:244-247 | the new state is the reorder step |
| EditHistory.Editor.HandleCutChange | src/renderer/App.tsx:249-265 | the new state is the cut-change step |
| EditHistory.Editor.HandleUndo | src/renderer/App.tsx:272-301 | the new state is the undo step |
| EditHistory.Editor.HandleRedo | src/renderer/App.tsx:303-332 | the new state is the redo step |
| EditHistory.Editor.HandleSaveProject | src/renderer/App.tsx:371-376 | a saved path updates the recent projects when the settings are stored; otherwise nothing changes |
| FileReorder.SortByOrder | src/renderer/components/FileList.tsx:53 | the sorted list is ordered by `order` and is a permutation of the files |
| FileReorder.MoveIndex | src/renderer/components/FileList.tsx:54-55 | where each element of the moved list comes from |
| FileReorder.MovePermutes | src/renderer/components/FileList.tsx:54-55 | the moved list is a permutation of the list, with the same length |
| FileReorder.MoveKeepsOthers | src/renderer/components/FileList.tsx:54-55 | the dragged element lands at the drop index, and removing it from both lists leaves the same list |
| FileReorder.MoveBack | src/renderer/components/FileList.tsx:54-55 | moving back from the drop index to the drag index restores the list |
| FileReorder.RenumberFacts | src/renderer/components/FileList.tsx:57-60 | after renumbering, `order` is the position `0..n-1` and nothing else changed |
| FileReorder.DropOutcomeQuiet | src/renderer/components/FileList.tsx:44-64 | a drop onto the dragged row emits nothing; an external drop emits the dropped paths when there are any |
| FileReorder.RowDropFacts | src/renderer/components/FileList.tsx:41-113 | an external drop on a row asks for the same paths to be added twice; an internal drag without files emits at most the reorder, and only when dropped on another row; the container's event comes last and carries exactly the dropped paths |
| FileReorder.ReorderFacts | src/renderer/components/FileList.tsx:52-62 | the reordered list holds the same files up to `order`, the dragged file sits at the drop index, and the others keep their relative order |
| FileReorder.ReorderKeepsIds | src/renderer/components/FileList.tsx:53-60 | the reordered ids are a permutation of the input ids, with the same length |
| FileReorder.IdsMultiset | src/renderer/components/FileList.tsx:53-55 | lists that are permutations of each other have permuted id lists |
| FileReorder.MoveWithin | src/renderer/components/FileList.tsx:54-55 | the in-place `splice` pair on an array leaves the moved sequence |
| FileReorder.FileListDrag.constructor | src/renderer/components/FileList.tsx:22-23 | the list starts with no dragged row and no row under the cursor |
| FileReorder.FileListDrag.DragStart | src/renderer/components/FileList.tsx:32-34 | the dragged row is recorded |
| FileReorder.FileListDrag.DragOver | src/renderer/components/FileList.tsx:36-39 | the row under the cursor is recorded |
| FileReorder.FileListDrag.Drop | src/renderer/components/FileList.tsx:41-113 | a drop on a row emits the row's drop outcome followed by the container's event, and both indices are reset |
| FileReorder.FileListDrag.DragEnd | src/renderer/components/FileList.tsx:70-73 | both indices are reset |
| FileReorder.FileSizeText | src/renderer/components/FileList.tsx:86-87 | a text is given exactly for sizes below 1024 bytes |
| FileReorder.FileSizeTextBytes | src/renderer/components/FileList.tsx:87 | a size below 1024 is written as its decimal numeral and ` B` |
| CutWindow.SetStartFacts | src/renderer/components/Timeline.tsx:152-156 | Set Start takes the playhead when it is at most `endCut - 0.1` and `endCut - 0.1` otherwise; only the start changes, and the new window is reported |
| CutWindow.SetEndFacts | src/renderer/components/Timeline.tsx:158-162 | Set End takes the playhead when it is at least `startCut + 0.1` and `startCut + 0.1` otherwise; only the end changes, and the new window is reported |
| CutWindow.ResetFacts | src/renderer/components/Timeline.tsx:164-168 | Reset sets and reports the window `[0, duration]` |
| CutWindow.CursorTimeRange | src/renderer/components/Timeline.tsx:195-198 | the dragged time lies in `[0, duration]` and is the cursor's share of the duration over the timeline |
| CutWindow.DragStartFacts | src/renderer/components/Timeline.tsx:200-202 | dragging the start gives `max(0, min(t, endCut - 0.1))`, case by case: `t` inside `[0, endCut - 0.1]`, `endCut - 0.1` above it, 0 when `endCut < 0.1`; nothing else changes |
| CutWindow.DragEndFacts | src/renderer/components/Timeline.tsx:203-205 | dragging the end gives `min(duration, max(t, startCut + 0.1))`, case by case: `t` inside `[startCut + 0.1, duration]`, `startCut + 0.1` below it, the duration when `startCut + 0.1 > duration`; nothing else changes |
| CutWindow.DragPlayheadFacts | src/renderer/components/Timeline.tsx:193-211 | dragging the playhead moves it to the cursor's time; without a drag a move changes nothing |
| CutWindow.MouseUpFacts | src/renderer/components/Timeline.tsx:214-221 | mouse-up ends every drag and reports the window exactly when a handle was dragged |
| CutWindow.StartInputFacts | src/renderer/components/Timeline.tsx:246-252 | a typed start is taken exactly when it reads as a time in `[0, endCut)`; otherwise nothing changes and nothing is reported |
| CutWindow.EndInputFacts | src/renderer/components/Timeline.tsx:254-260 | a typed end is taken exactly when it reads as a time in `(startCut, duration]`; otherwise nothing changes and nothing is reported |
| CutWindow.TypedStartOfClockText | src/renderer/components/Timeline.tsx:246-272 | typing the clock text of a time in `[0, endCut)` sets the start to that time truncated to milliseconds |
| CutWindow.SeekFacts | src/renderer/components/Timeline.tsx:288-303 | arrow seeking moves by 0.5 s, or 5 s with Shift, clamped to `[0, duration]` |
| CutWindow.SpacedKept | src/renderer/components/Timeline.tsx:152-309 | the buttons, drags, arrow keys and shortcuts keep a window with the 0.1 s gap inside the file |
| CutWindow.ResetSpaced | src/renderer/components/Timeline.tsx:164-168 | Reset gives a well-spaced window for a file of at least 0.1 s |
| CutWindow.TypedKeepsOrder | src/renderer/components/Timeline.tsx:246-260 | typed times keep `0 <= start < end <= duration` |
| CutWindow.TypedStartInsideGap | src/renderer/components/Timeline.tsx:246-251 | any typed start that reads as a time in `[0, endCut)` within 0.1 s of the end is taken, so the window ends up closer than the 0.1 s gap |
| CutWindow.TypedStartBreaksGap | src/renderer/components/Timeline.tsx:248 | an illustration: the clock text of 9.95 s, typed against an end of 10 s, is taken, closer than the 0.1 s gap |
| CutWindow.CutEditor.constructor | src/renderer/components/Timeline.tsx:11-18 | the editor opens on the file's window with the playhead at its start and no drag |
| CutWindow.CutEditor.FileChanged | src/renderer/components/Timeline.tsx:45-52 | a new file brings its window, and the playhead goes to its start |
| CutWindow.CutEditor.SetStart | src/renderer/components/Timeline.tsx:152-156 | the new state and the report are those of the Set Start step |
| CutWindow.CutEditor.SetEnd | src/renderer/components/Timeline.tsx:158-162 | the new state and the report are those of the Set End step |
| CutWindow.CutEditor.ResetCuts | src/renderer/components/Timeline.tsx:164-168 | the new state and the report are those of the reset step |
| CutWindow.CutEditor.StartDrag | src/renderer/components/Timeline.tsx:183-188 | the drag of the chosen handle starts |
| CutWindow.CutEditor.MouseMove | src/renderer/components/Timeline.tsx:191-212 | the new state is the mouse-move step |
| CutWindow.CutEditor.MouseUp | src/renderer/components/Timeline.tsx:214-221 | the new state and the report are those of the mouse-up step |
| CutWindow.CutEditor.StartInputChange | src/renderer/components/Timeline.tsx:246-252 | the new state and the report are those of the typed-start step |
| CutWindow.CutEditor.EndInputChange | src/renderer/components/Timeline.tsx:254-260 | the new state and the report are those of the typed-end step |
| CutWindow.CutEditor.KeyDown | src/renderer/components/Timeline.tsx:276-305 | the new state and the report are those of the shortcut step |
| Controls.View | src/renderer/components/Controls.tsx:17-54 | merge is offered exactly for more than one file, with the file count, and the original-duration row shows exactly when `startCut > 0` or `endCut < duration`, with the duration's text |
| Controls.FormatDurationIsClock | src/renderer/components/Controls.tsx:73-83 | `formatDuration` gives the same text as the cut timeline's `formatTime` for every input |
| Controls.OriginalRowWhenTrimmed | src/renderer/components/Controls.tsx:31 | for a window inside the file, the row is hidden exactly when the selection is as long as the file |
| Controls.SelectionTextReadsBack | src/renderer/components/Controls.tsx:17-28 | the text of the selection `endCut - startCut` reads back as that length truncated to milliseconds, with hours exactly from one hour on |
| Controls.OriginalTextReadsBack | src/renderer/components/Controls.tsx:34 | the original-duration text reads back as the duration truncated to milliseconds |
| Arrangement.TotalUpTo | src/renderer/components/MultiTrackTimeline.tsx:58-60 | the reduce over the first `n` segments is not negative, no segment among them ends after it, and it is 0 or one of their ends |
| Arrangement.TotalDurationFacts | src/renderer/components/MultiTrackTimeline.tsx:58-60 | the length is 0 without segments, never negative, no segment ends after it, and it is 0 or some segment's end |
| Arrangement.TotalDurationAppend | src/renderer/components/MultiTrackTimeline.tsx:58-60 | adding a segment makes the length the maximum of the old length and the segment's end |
| Arrangement.ZoomFacts | src/renderer/components/MultiTrackTimeline.tsx:48-133 | the zoom opens reachable and stays in `[0.5, 3]` in 0.25 steps under both buttons, stopping at the bounds; `pixelsPerSecond` is in `[25, 150]`; the label is `zoom * 100`, a multiple of 25 from 50 to 300 |
| Arrangement.RulerFacts | src/renderer/components/MultiTrackTimeline.tsx:144-151 | there are `ceil(total / 5) + 2` marks, the `i`-th at `5 i` seconds, and the last lies at least 5 s past the length |
| Arrangement.RulerLabelsReadBack | src/renderer/components/MultiTrackTimeline.tsx:146-153 | each ruler label reads back as the time of its mark |
| Arrangement.SegmentsFitTrack | src/renderer/components/MultiTrackTimeline.tsx:144-168 | every segment ends inside the track area |
| Arrangement.FindFrom | src/renderer/components/MultiTrackTimeline.tsx:53 | `findIndex` gives the first index with that file id, or -1 when there is none |
| Arrangement.SegmentColourFacts | src/renderer/components/MultiTrackTimeline.tsx:52-55 | a listed file's colour is the one at its first index modulo 10 |
| Arrangement.MissingFileColour | src/renderer/components/MultiTrackTimeline.tsx:53-54 | a file missing from the list gets no colour (`None`): `getSegmentColor` yields `undefined`, so drawing its segment reads `colors.bg` of `undefined` and the track's render fails (MultiTrackTimeline.tsx:162-172) |
| Arrangement.NeighbourColours | src/renderer/components/MultiTrackTimeline.tsx:24-55 | files whose first indices differ by 1 to 9 get different colours |
| Arrangement.BackgroundsDistinct | src/renderer/components/MultiTrackTimeline.tsx:24-35 | the ten colours have ten different backgrounds |
| Arrangement.MoveSegments | src/renderer/components/MultiTrackTimeline.tsx:91-96 | the map moves the segments with the dragged id to the new position and leaves the rest unchanged |
| Arrangement.ValidKept | src/renderer/components/MultiTrackTimeline.tsx:44-141 | every step keeps the zoom reachable, from the opening state on |
| Arrangement.GrabRoundTrip | src/renderer/components/MultiTrackTimeline.tsx:70-88 | after a grab, a cursor move by `dx` places the segment at `max(0, old + (dx + scroll) / pixelsPerSecond)`; with no scroll and no movement it stays where it was |
| Arrangement.MoveFacts | src/renderer/components/MultiTrackTimeline.tsx:86-98 | a move keeps length and order, never gives a negative position, and changes only the dragged segment's `trackPosition` |
| Arrangement.MouseUpFacts | src/renderer/components/MultiTrackTimeline.tsx:101-104 | mouse-up ends the session and keeps the offset, zoom and scroll, and a later click clears the selection |
| Arrangement.NoMoveAfterMouseUp | src/renderer/components/MultiTrackTimeline.tsx:80-104 | after mouse-up, cursor moves change nothing |
| Arrangement.DragSession.constructor | src/renderer/components/MultiTrackTimeline.tsx:44-49 | the session opens in the opening state |
| Arrangement.DragSession.SegmentMouseDown | src/renderer/components/MultiTrackTimeline.tsx:64-78 | the new state is the grab step, and the grabbed segment is selected |
| Arrangement.DragSession.MouseMove | src/renderer/components/MultiTrackTimeline.tsx:83-99 | the result is the moved list of the mouse-move step; the session is unchanged |
| Arrangement.DragSession.MouseUp | src/renderer/components/MultiTrackTimeline.tsx:101-104 | the new state is the mouse-up step |
| Arrangement.DragSession.TimelineClick | src/renderer/components/MultiTrackTimeline.tsx:115-118 | the selection is cleared exactly when no drag is on |
| Arrangement.DragSession.ZoomInClick | src/renderer/components/MultiTrackTimeline.tsx:133 | the new state is the Zoom In step |
| Arrangement.DragSession.ZoomOutClick | src/renderer/components/MultiTrackTimeline.tsx:131 | the new state is the Zoom Out step |
| Arrangement.DragSession.Scroll | src/renderer/components/MultiTrackTimeline.tsx:141 | the new state is the scroll step |
| ExportPlan.DetectedFormat | src/renderer/components/ExportDialog.tsx:34-45 | the detected format is `mp4` or `mp3` |
| ExportPlan.DetectedFormatFacts | src/renderer/components/ExportDialog.tsx:34-45 | the format is mp4 exactly when the cut file, or any merged file, has a video codec; a merge of one file agrees with its cut; reordering the files does not change it |
| ExportPlan.StripExtensionFacts | src/renderer/components/ExportDialog.tsx:66 | the `replace(/\.[^.]+$/, '')` removes exactly a final dot with non-dots after it, and nothing when there is none |
| ExportPlan.StripAppended | src/renderer/components/ExportDialog.tsx:66 | stripping `base + "." + ext` gives back `base` |
| ExportPlan.DefaultNameFacts | src/renderer/components/ExportDialog.tsx:66 | in any directory, the default cut name has the format as its extension, names a video file exactly for mp4, and strips to the stripped file name plus `_cut` |
| ExportPlan.MergeNameFacts | src/renderer/components/ExportDialog.tsx:90 | the merge name `merged.<format>` has the format as its extension and names a video file exactly for mp4 |
| ExportPlan.VideoFormat | src/renderer/components/ExportDialog.tsx:66-90 | each offered format is a plain extension, and only mp4 is a video extension |
| ExportPlan.DialogSettingsFields | src/renderer/components/ExportDialog.tsx:74-127 | cut settings carry video codec, crf and preset exactly when re-encoding to mp4 and audio codec exactly when re-encoding; the merge crossfade is passed exactly when above 0 |
| ExportPlan.DialogCutOps | src/renderer/components/ExportDialog.tsx:74-80 | a cut keeping quality is a stream copy; otherwise only an mp4 export passes video codec, crf and preset, and no export passes a bitrate |
| ExportPlan.DialogMergeOps | src/renderer/components/ExportDialog.tsx:120-127 | the merge options from the dialog: stream copy or the chosen codecs with the libx264, aac or libmp3lame defaults, loudnorm exactly for normalised audio, and the crossfade changes nothing |
| ExportPlan.SegmentInputs | src/renderer/components/ExportDialog.tsx:104-108 | one input per segment, its file trimmed to the segment's window |
| ExportPlan.FileInputs | src/renderer/components/ExportDialog.tsx:113-117 | one input per file |
| ExportPlan.SegmentModeInputs | src/renderer/components/ExportDialog.tsx:100-108 | with segments, one pre-trimmed input per segment, ordered by non-decreasing track position, stably |
| ExportPlan.FileModeInputs | src/renderer/components/ExportDialog.tsx:109-117 | otherwise the files by `order`; the start time is omitted exactly when `startCut <= 0`, the end time exactly when `endCut >= duration`, and the input is used whole exactly when both hold |
| ExportPlan.FileTrimWindow | src/renderer/components/ExportDialog.tsx:113-117 | the pre-trim of a cut file spans from its start (0 if not positive) to its end, or the probed duration when not cut at the end |
| ExportPlan.ExportStepFacts | src/renderer/components/ExportDialog.tsx:57-146 | an export ends not exporting with progress 0; it completes exactly when a request was sent and not rejected; it shows a non-empty error exactly when rejected; a request is sent exactly when a save path was chosen |
| ExportPlan.ShownProgressFacts | src/renderer/components/ExportDialog.tsx:47-50 | the progress shown is at most 100, and a cut that has played `t` of `d` seconds shows `100 t / d` |
| ExportPlan.CancelFacts | src/renderer/components/ExportDialog.tsx:148-154 | cancel is sent exactly while exporting, the dialog stops exporting, nothing else changes, and a second cancel sends nothing |
| ExportPlan.ExportDialog.constructor | src/renderer/components/ExportDialog.tsx:22-45 | the dialog opens with the initial form and the detected format |
| ExportPlan.ExportDialog.HandleExport | src/renderer/components/ExportDialog.tsx:57-146 | the new state and the request are those of the export step |
| ExportPlan.ExportDialog.OnProgress | src/renderer/components/ExportDialog.tsx:48-50 | the progress becomes `percent \|\| 0` |
| ExportPlan.ExportDialog.HandleCancel | src/renderer/components/ExportDialog.tsx:148-154 | the new state and the cancel are those of the cancel step |
| FfmpegPlan.TimemarkThreeFields | src/main/services/ffmpeg.service.ts:332-338 | `parseTimemark("H:M:S")` is `H*3600 + M*60 + S`, each field read by `parseInt`/`parseFloat` and counted as 0 when not a number |
| FfmpegPlan.TimemarkTwoFields | src/main/services/ffmpeg.service.ts:332-338 | a timemark with two fields counts them as hours and minutes |
| FfmpegPlan.TimemarkHoursOnly | src/main/services/ffmpeg.service.ts:332-338 | a timemark without `:` counts only its hours |
| FfmpegPlan.TimemarkAgreesWithTypedTime | src/main/services/ffmpeg.service.ts:332-338 | on three fields that the cut timeline reads as a finite time, the timemark parser agrees with it |
| FfmpegPlan.TimemarkOfClockText | src/main/services/ffmpeg.service.ts:332-338 | the timemark of the clock text of a time from one hour on is that time truncated to milliseconds |
| FfmpegPlan.ExtNameShape | src/main/services/ffmpeg.service.ts:341 | `path.extname` is empty or a dot with no further dot or `/` |
| FfmpegPlan.ExtNameOf | src/main/services/ffmpeg.service.ts:341 | the extension of `dir/stem.ext` is `.ext`, and it is a video file exactly when `.ext` lower-cased is a video extension |
| FfmpegPlan.NoDotNoVideo | src/main/services/ffmpeg.service.ts:340-343 | a file name without a dot is not a video file |
| FfmpegPlan.Lower | src/main/services/ffmpeg.service.ts:341 | lower-casing keeps the length and maps each letter |
| FfmpegPlan.ConcatLines | src/main/services/ffmpeg.service.ts:228 | one concat line per processed file, in input order |
| FfmpegPlan.ConcatLineReadsBack | src/main/services/ffmpeg.service.ts:228 | a concat line is `file '` + the escaped path + `'`, and reading its quoting back gives the path |
| FfmpegPlan.EscapedReadsBack | src/main/services/ffmpeg.service.ts:228 | replacing every `'` by `'\''` is undone by reading the shell quoting back |
| FfmpegPlan.EscapeKeepsLines | src/main/services/ffmpeg.service.ts:228 | escaping a path without line breaks adds none, and its concat line has none |
| FfmpegPlan.ListContentLines | src/main/services/ffmpeg.service.ts:228 | for a non-empty list of paths without line breaks, splitting the list content at line breaks gives exactly the concat lines, one per file, in order |
| FfmpegPlan.CutOpsFacts | src/main/services/ffmpeg.service.ts:138-168 | a cut starts at the start time for `endTime - startTime`; it is a stream copy exactly unless `keepOriginalQuality` is false, and then uses exactly the re-encoding options |
| FfmpegPlan.ReencodeOpsFacts | src/main/services/ffmpeg.service.ts:150-168 | each codec is passed exactly when it is truthy, the crf whenever it is given, and never the stream-copy options |
| FfmpegPlan.MergeOutputFacts | src/main/services/ffmpeg.service.ts:236-259 | a video merge stream-copies unless `keepOriginalQuality` is false, else libx264 and aac by default with size and fps when given; an audio merge uses libmp3lame by default and loudnorm exactly when asked |
| FfmpegPlan.MergeIgnoredSettings | src/main/services/ffmpeg.service.ts:236-259 | the crossfade, the output format and, for audio, `keepOriginalQuality` change no option |
| FfmpegPlan.ProgressFacts | src/main/services/ffmpeg.service.ts:172-266 | progress is never above 100, a merge never reports 0, and a cut at `0 <= t <= d` reports `100 t / d` |
| FfmpegPlan.ProcessedFiles | src/main/services/ffmpeg.service.ts:208-225 | each input gives its temp output when trimmed, otherwise its own path |
| FfmpegPlan.TrimFacts | src/main/services/ffmpeg.service.ts:213-220 | an untrimmed input is used as it is, a trimmed one through its temp output; the trim starts at the start time (0 when absent or 0) and ends at the end time (the probed duration when absent or 0), as a stream copy |
| FfmpegPlan.TrimCommandsFacts | src/main/services/ffmpeg.service.ts:210-225 | an input is trimmed exactly when it has a start or an end time, and each trim writes that input's temp output |
| FfmpegPlan.CleanupFacts | src/main/services/ffmpeg.service.ts:267-293 | cleanup deletes the list file and only temp files of trimmed inputs, all of them after the merge ran; a failed preparation deletes only the list file |
| FfmpegPlan.TrimmedTempsFacts | src/main/services/ffmpeg.service.ts:270-274 | the temp files deleted are exactly those of the trimmed inputs |
| FfmpegPlan.FFmpegService.constructor | src/main/services/ffmpeg.service.ts:42-47 | no command is running at first |
| FfmpegPlan.FFmpegService.CutMedia | src/main/services/ffmpeg.service.ts:129-191 | the command is the cut command and becomes the current one |
| FfmpegPlan.FFmpegService.CommandSettled | src/main/services/ffmpeg.service.ts:181-188 | an ended or failed command clears the current one |
| FfmpegPlan.FFmpegService.CancelCurrentOperation | src/main/services/ffmpeg.service.ts:325-330 | the running command, if any, is killed and cleared |
| FfmpegPlan.FFmpegService.PrepareInput | src/main/services/ffmpeg.service.ts:211-224 | the input's trim and processed file; a trim that ran leaves no current command |
| FfmpegPlan.FFmpegService.MergeMedia | src/main/services/ffmpeg.service.ts:193-295 | the loop yields the trims and processed files of every input in order, the list content of those files, and the merge command, which becomes the current one |

## Left out

- File I/O, the ffmpeg child processes, probing and the kill signal are left out. A probed duration is a parameter (`probed`). A probe outcome (`ProbeOutcome`) is given for each added path.
- IPC between renderer and main process, Electron windows and dialogs, settings and project persistence, the autosave timer, media playback, the waveform and JSX rendering are left out.
- Every `Date.now()` reading within one merge is taken as the same `now`.
- Temp and list paths join with `/`, and `path.join` normalisation and Windows paths are not modelled. The file name of an added path (`BaseNameFacts`) does split on both separators.
- `toLowerCase` is modelled on ASCII letters only (`FfmpegPlan.Lower`).
- JavaScript double rounding is not modelled: times are exact reals. `NaN` and `±Infinity` are one `None`.
- `FfmpegPlan.ParseTimemark`: a seconds field reading `Infinity` counts as 0 rather than as an infinite timemark. No timemark ffmpeg writes has one.
- React closures, stale props and async interleaving are not modelled. A handler is one step on the latest state, and progress or cancel do not arrive between the awaits of an export.
- `ExportDialog.tsx` sorts its `files` and `segments` props in place. The model sorts a copy, so the caller's arrays are not reordered.
- The export's save dialog cannot fail in the model. `failure` stands for a rejected cut or merge request.
- KB/MB/GB file-size texts are floating-point `toFixed` output and are not modelled; the byte branch is.
- The form setters of the export dialog are not modelled. The form is the `Choices` value the export reads.
- `CutWindow.CursorTimeRange`, `CutWindow.MouseMoveStep` and `CutWindow.CutEditor.MouseMove` require a timeline width above 0. With a width of 0 the source divides by zero, and its fraction becomes `NaN` or is clamped to 0 or 1; the model does not cover that case.
- `EditHistory.CutChangeThenUndo` assumes that the selection and the list entries with its id share one window. `EditHistory.CutChangeSyncs` shows that a cut change establishes this. That every other handler keeps it is not proved: it depends on selections coming from the list and on ids being unique.
- `ExportPlan.FileTrimWindow` requires `endCut > 0`. With an `endCut` of 0 the source falls back to the probed duration, and `FfmpegPlan.TrimFacts` states that case.
- The arrangement policies (insert before or after, split and insert, replace) appear only as dialog labels and have no implementing code, so they are not modelled. The only segment move is the reposition of `Arrangement.MoveSegments`.
- The file list's "(trimmed: …)" rendering is not modelled.
