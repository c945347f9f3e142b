# iSpector core in Dafny

iSpector is a tool for inspecting and editing eye-tracking recordings. It
reads logs in two formats: its own tab-separated `.csv` logs and the Eyelink
`.asc` format. It splits a log into trials at the `trialbeg` / `trialend`
messages and classifies each eye's samples into fixations, saccades and
blinks with a velocity threshold. It exports the result in the `.asc` layout
that the external "Fixation" program reads. Its Qt GUI keeps an undo history
of fixation edits.

This project models that core and proves what it promises:

- `stack.dfy`: the bounded stack of `utils/stack.py`.
- `parseeyefile.dfy`: the log readers of `log/parseeyefile.py`.
- `eyelog.dfy`: the log entries and the export of `log/eyelog.py`.
- `eyeexperiment.dfy`: the trial segmentation of `log/eyeexperiment.py`.
- `eyedata.dfy`: the event detection of `log/eyedata.py`.
- `datamodel.dfy`: the GUI data models of `gui/datamodel.py`.
- `fixationeditor.dfy`: the fixation editor of `gui/fixationeditor.py`.
- `ispectorgui.dfy`: the controller of `gui/ispectorgui.py`.
- `gcd.dfy`: `gcd_iter` of `gui/inspecteyedataview.py`.
- `bumpversion.dfy`: the version arithmetic of `bump-version.py`.
- `bmptopng.dfy`: the substitution of `data/bmptopng.py`.
- Shared helpers:
  - `base.dfy`: Option, Result, the Python exceptions, filter and map.
  - `num.dfy`: floats with NaN, and nan-aware statistics.
  - `text.dfy`: characters, split and join, and integer formatting.

How Python's constructs become Dafny:

- Log entries, trials, experiments and fixation edits are immutable values: Dafny datatypes.
- Objects whose fields the source updates in place are classes with `modifies` clauses:
  - the stack;
  - the version globals;
  - the data models;
  - the GUI model and its controller;
  - the fixation edit model;
  - `EyeData`.
- A raised exception is the `Err` case of a `Result`, named after its Python class.
- Loops that update state are methods with loop invariants. Each method's `ensures` ties its result to a
  specification function, and lemmas prove properties of that function.
- Loops that only accumulate a list are functions: the loop of `getEntries` is `ExperimentEntries`, the two
  loops of `_appendBeginEndEntries` are `BeginEnds`, and the loop of `getValueArray` over a generator is
  `Xs`, `Ys`, `Pupils` or `Times`.
- `_fixFixSac` works in place on two arrays, as the numpy vectors are changed in place.
- Times and durations are whole milliseconds (`int`).
- Coordinates, pupil sizes and velocities are `Num`: a real number, or a gap standing for NaN.

`log/eyelog.py` is an older revision than the one the rest of the
core calls. It takes a `zeptime` argument, and it lacks the blink and average
entry types and `__eq__`. The model follows the calls the core makes, so
saccade entries carry start, duration and both end points, blinks exist, and
entries compare by value.

## Model

| member | source | states |
|---|---|---|
| Stacks.SliceBound | utils/stack.py:45 | A slice bound is normalised as Python does: kept inside the list, a negative bound counted from the end, clipped at both ends. |
| Stacks.Reverse | utils/stack.py:41 | The reversed items hold the i-th item at position len-1-i. |
| Stacks.TruncateRegimes | utils/stack.py:44-45 | `s[len(s)-maxitems:]` as written has three regimes. A negative maximum keeps everything. A maximum up to the size keeps the newest `maxitems`. A maximum between size and twice the size keeps only `maxitems - len` items. A larger maximum keeps everything. |
| Stacks.TruncateSuffix | utils/stack.py:44-45 | Truncation always keeps a suffix (the newest items), of at most `maxitems` items, and never empties a non-empty stack with a positive maximum. |
| Stacks.TruncateKeepsTop | utils/stack.py:40-45 | With a non-zero maximum, truncating keeps the newest item on top. |
| Stacks.PushedTop | utils/stack.py:65-80 | After a push the pushed item is on top, except that a maximum of zero leaves an empty stack empty. |
| Stacks.PushedPop | utils/stack.py:52-68 | A push that drops nothing is undone by a pop, which returns the pushed item. |
| Stacks.PushedFull | utils/stack.py:65-68 | A push onto a full stack drops exactly the oldest item and keeps the size. |
| Stacks.PushedBound | utils/stack.py:65-68 | A push never takes a stack over its maximum. |
| Stacks.ShrunkNewest | utils/stack.py:115-119 | shrink(k) removes the k newest items, everything when k exceeds the size, and nothing when k <= 0. |
| Stacks.Stack.constructor | utils/stack.py:35-45 | The items are reversed so items[0] is on top, then truncated. The stack respects its maximum, and items[0] is the top unless the maximum is 0. |
| Stacks.Stack.Length | utils/stack.py:102-103 | The length is zero exactly when the stack is empty. |
| Stacks.Stack.Top | utils/stack.py:77-80 | StackEmpty exactly when empty; otherwise the item at index 0. |
| Stacks.Stack.Get | utils/stack.py:126-129 | Indexing succeeds exactly for 0 <= index < len, and fails otherwise with AssertionError. Index len-1 is the oldest item. |
| Stacks.Stack.Iter | utils/stack.py:107-108 | Iteration yields the items newest first, in the same order as indexing. |
| Stacks.Stack.Pop | utils/stack.py:52-55 | Pop returns the old top and removes it. An empty stack gives StackEmpty and stays unchanged. The bound is kept. |
| Stacks.Stack.Push | utils/stack.py:65-68 | The new state is the pushed list. The item is on top unless the maximum is 0. The bound is kept. |
| Stacks.Stack.SetMaxSize | utils/stack.py:84-88 | Stores the maximum and truncates as the constructor does; the stack then respects the new maximum. |
| Stacks.Stack.Shrink | utils/stack.py:115-119 | The newest `index` items are removed; the bound is kept. |
| BumpVersion.BumpOrder | bump-version.py:189-194 | With several bump flags the highest one decides, including its resets of the lower fields. Without flags the version is unchanged. |
| BumpVersion.SettingsOverride | bump-version.py:196-206 | Every setting at or above zero overrides the bumps. Negative settings leave them. Without any flag or setting, the version is unchanged and nothing is rewritten. |
| BumpVersion.VersionStringFields | bump-version.py:115-118 | The version string is "iSpector-" and then the three numbers joined by dots. For natural numbers it splits back into them. |
| BumpVersion.VersionStringInjective | bump-version.py:115-118 | Different natural versions give different strings. |
| BumpVersion.VersionInfo.constructor | bump-version.py:27-29 | All three fields start at -1. |
| BumpVersion.VersionInfo.GetVersion | bump-version.py:115-118 | The string of the current version. |
| BumpVersion.VersionInfo.BumpMicroVersion | bump-version.py:152-157 | micro + 1, and nothing else changes. |
| BumpVersion.VersionInfo.BumpMinorVersion | bump-version.py:159-166 | minor + 1 and micro reset to 0. |
| BumpVersion.VersionInfo.BumpMajorVersion | bump-version.py:168-177 | major + 1, with minor and micro reset to 0. |
| BumpVersion.VersionInfo.Apply | bump-version.py:185-206 | The version after the bumps and then the settings. The files are rewritten exactly when some flag or setting was given. |
| DataModels.UndoRedoBounds | gui/datamodel.py:329-339 | Undo and redo keep nth_undo on an existing edit. Undo stops at the oldest edit and redo stops at the newest. A redo undoes an undo. |
| DataModels.UndoEmptyHistory | gui/datamodel.py:329-339 | Undo on an empty history leaves nth_undo at -1, and a redo brings it back to 0. |
| DataModels.PushAfterUndo | gui/datamodel.py:346-350 | A push after undos discards exactly the undone edits and puts the new edit on top. |
| DataModels.EditedAfterPush | gui/datamodel.py:531-540 | A history with one edit and nothing undone is not edited. One push makes it edited. |
| DataModels.ClampInRange | gui/datamodel.py:573-595 | With files or trials present, both clampings return a valid index. An in-range index is kept. An out-of-range index goes to the nearest end. |
| DataModels.ClampEmpty | gui/datamodel.py:573-595 | With no entries, the file clamping gives -1. The trial clamping gives 0 for a negative index and -1 otherwise. |
| DataModels.DataModel.constructor | gui/datamodel.py:40-55 | The files are stored, both indices start at -1, and nothing is loaded. |
| DataModels.DataModel.LoadEyeFile | gui/datamodel.py:79-115 | On success the loaded file's trials replace the old ones. When the source returns False nothing changes. An exception of the load, such as EyeExperiment's RuntimeError or IndexError, propagates and changes nothing. |
| DataModels.DataModel.SetFileIndex | gui/datamodel.py:124-130 | AssertionError exactly for an index outside the files. The same index changes nothing. A new index is stored and then loads that file. It succeeds exactly when the load does not raise. When the load raises, the exception propagates with the new index stored and the old trials kept. |
| DataModels.DataModel.SetTrialIndex | gui/datamodel.py:157-165 | AssertionError exactly for an index outside the trials. Otherwise the index is stored; nothing else changes. |
| DataModels.ExamineDataController.constructor | gui/datamodel.py:556-559 | The controller holds the given model. |
| DataModels.ExamineDataController.Init | gui/datamodel.py:560-562 | The rest of `__init__`. An exception of the load propagates and nothing changes. If the load returns False, nothing changes. Otherwise the trials are replaced and trial 0 is shown. This fails with IndexError when there are no trials, and otherwise with processTrial's error. |
| DataModels.ExamineDataController.SetFileIndex | gui/datamodel.py:573-580 | Clamps the index and then sets it. With no files this fails with the model's assertion. The same index changes nothing. A new index loads that file's trials when the file loads, and otherwise keeps the trial count and the file they came from. It succeeds exactly when the load does not raise; the load's exception propagates with the new index stored. The file list, the trial index and the shown trial are kept. |
| DataModels.ExamineDataController.SetTrialIndex | gui/datamodel.py:589-595 | The index becomes the clamped one. With no trials this raises IndexError. Otherwise that trial is shown, and the outcome is processTrial's: it succeeds exactly when processTrial does. |
| DataModels.EditDataModel.constructor | gui/datamodel.py:310-319 | An empty, unbounded history with nothing undone. |
| DataModels.EditDataModel.UndoEdit | gui/datamodel.py:329-332 | nth_undo moves one back, but never past the oldest edit. |
| DataModels.EditDataModel.RedoEdit | gui/datamodel.py:336-339 | nth_undo moves one forward, but never below zero. |
| DataModels.EditDataModel.PushEdit | gui/datamodel.py:346-350 | The undone edits are dropped, the edit is pushed and nth_undo is reset. |
| DataModels.EditDataModel.CurrentEdit | gui/datamodel.py:356-360 | None with an empty history. Otherwise the edit nth_undo below the top, or AssertionError when nth_undo is out of range. |
| DataModels.EditDataModel.OnNewTrial | gui/datamodel.py:437-444 | A fresh history holding only the initial edit. It is the current edit and the history is not edited. |
| InspectEyeDataView.PyMod | gui/inspecteyedataview.py:60 | Python's `%` takes the sign of the divisor. |
| InspectEyeDataView.PyDivMod | gui/inspecteyedataview.py:60 | Floor division and `%` recompose the dividend. |
| InspectEyeDataView.StepKeepsDivisors | gui/inspecteyedataview.py:56-60 | One step `(u, v) := (v, u % v)` keeps the set of common divisors. |
| InspectEyeDataView.GcdIter | gui/inspecteyedataview.py:53-61 | The result is the greatest common divisor: it divides both inputs and every common divisor divides it. gcd(u, 0) = abs(u). The result is zero only for (0, 0). |
| InspectEyeDataView.ZeroDividesOnlyZero | gui/inspecteyedataview.py:60 | Zero divides only zero, so the gcd is 0 only when both inputs are. |
| ISpectorGui.Model.constructor | gui/ispectorgui.py:921-957 | The files are those on the command line, or the remembered ones when the command line names none. Every other setting is the command line's. Nothing is selected and the status is "ready". |
| ISpectorGui.Controller.constructor | gui/ispectorgui.py:49-74 | The status is "ready". The files become the sorted set of the existing files. The first of them is appended to the selection. No other setting changes. |
| ISpectorGui.Controller.UpdateAction | gui/ispectorgui.py:80-81 | The action is stored. No other setting changes. |
| ISpectorGui.Controller.UpdateStatus | gui/ispectorgui.py:83-85 | The status is stored. No other setting changes. |
| ISpectorGui.Controller.UpdateEye | gui/ispectorgui.py:87-99 | "left", "right" and "both" set the two extract flags. Anything else is a RuntimeError and the flags do not change. No other setting changes. |
| ISpectorGui.Controller.UpdateSmooth | gui/ispectorgui.py:101-113 | The flag follows a checked or unchecked box. Any other state is a ValueError, with the flag unchanged. No other setting changes. |
| ISpectorGui.Controller.UpdateSmoothWindowSize | gui/ispectorgui.py:115-119 | Only an odd window of at least 3 is stored. Otherwise a ValueError, with the window unchanged. No other setting changes. |
| ISpectorGui.Controller.UpdateSmoothOrder | gui/ispectorgui.py:121-125 | Only an order of at least 1 is stored. Otherwise a ValueError, with the order unchanged. No other setting changes. |
| ISpectorGui.Controller.UpdateThreshold | gui/ispectorgui.py:127-135 | Exactly "mean" or "median" is stored. Otherwise a ValueError, with the method unchanged. No other setting changes. |
| ISpectorGui.Controller.UpdateNThreshold | gui/ispectorgui.py:137-146 | A value at or below zero is ignored without an error. NaN and positive values are stored. A string that is no number is a ValueError. No other setting changes. |
| ISpectorGui.Controller.UpdateFiles | gui/ispectorgui.py:148-155 | The files become sorted, hold exactly the old and the new names, and stay free of duplicates. No other setting changes. |
| ISpectorGui.Controller.UpdateSelected | gui/ispectorgui.py:180-184 | The selection becomes the given names, sorted. No other setting changes. |
| ISpectorGui.Controller.RemoveSelected | gui/ispectorgui.py:186-193 | Nothing stays selected. The files become ascending and duplicate-free: exactly the old names minus the removed ones. No other setting changes. |
| ISpectorGui.SortStrings | gui/ispectorgui.py:155 | `sorted` gives an ascending permutation of the names. |
| ISpectorGui.SortedUnique | gui/ispectorgui.py:193 | Sorting has one answer: two ascending lists with the same names are equal. |
| ISpectorGui.AddAbsentContents | gui/ispectorgui.py:150-154 | The loop only appends. It keeps every old name, adds every given name and adds no duplicate. |
| ISpectorGui.RemovedIsSortedSet | gui/ispectorgui.py:189-193 | `sorted(set(...))` of the remaining names is the only ascending duplicate-free list of them. |
| ISpectorGui.NoDupIffSingle | gui/ispectorgui.py:193 | A list has no duplicates exactly when every name occurs at most once in it, as in a set. |
| BmpToPng.ReplaceMatch | data/bmptopng.py:12-13 | The replacement is group 1 followed by "png". |
| BmpToPng.ScanMatchesReference | data/bmptopng.py:15-18 | The left-to-right scan for non-overlapping matches writes exactly the reference text. |
| BmpToPng.ModifyIsReference | data/bmptopng.py:15-18 | In the substituted text, exactly the "bmp" after a match's digits and dot becomes "png". Every other character stays. |
| BmpToPng.UnchangedIff | data/bmptopng.py:15-18 | A text comes back unchanged exactly when no digit-dot-"bmp" occurs in it. |
| BmpToPng.NoOccurrenceAfter | data/bmptopng.py:15-18 | After the substitution the pattern no longer occurs. |
| BmpToPng.Idempotent | data/bmptopng.py:15-18 | Applying modify twice is applying it once. |
| EyeData.Xs | log/eyedata.py:30-40 | The x coordinates of the samples, in order. |
| EyeData.Ys | log/eyedata.py:41-51 | The y coordinates of the samples, in order. |
| EyeData.Pupils | log/eyedata.py:52-62 | The pupil sizes of the samples, in order. |
| EyeData.Times | log/eyedata.py:63-73 | The times of the samples, in order. |
| EyeData.MaskZeros | log/eyedata.py:224-228 | Zeros become NaN and every other value is kept. |
| EyeData.MaskZerosIdempotent | log/eyedata.py:224-228 | Masking twice is masking once. |
| EyeData.Diff | log/eyedata.py:265-271 | numpy.diff: one element fewer, each the difference of neighbours. |
| EyeData.SampleDuration | log/eyedata.py:217-222 | The sample duration is a number exactly when there are at least two samples. |
| EyeData.VelocityGaps | log/eyedata.py:296-306 | A velocity is a number exactly when both neighbouring samples have x and y and the sample duration is a non-zero number. |
| EyeData.EyeVelocity | log/eyedata.py:296-306 | One velocity per pair of neighbouring samples. |
| EyeData.VelocityStatisticsDefined | log/eyedata.py:308-335 | The median and mean velocities exist exactly when some velocity is a number. |
| EyeData.NoDataNoStatistics | log/eyedata.py:308-335 | Without samples there are no velocities and no statistics. |
| EyeData.ThresholdCases | log/eyedata.py:388-428 | "median" and "mean" give the statistic times n. "snr" succeeds exactly when the signal-to-noise threshold of every eye with data is positive, and that is the threshold. Any other method is a ValueError, as is a non-positive "snr" threshold. A missing statistic gives a NaN threshold. |
| EyeData.MasksSplit | log/eyedata.py:550-572 | No sample is both in a fixation and in a saccade. A NaN velocity is in neither. |
| EyeData.FixationVector | log/eyedata.py:549-557 | The fixation vector marks every start and every end of a run below the threshold. Starts and ends alternate. |
| EyeData.EdgeMarks | log/eyedata.py:549-557 | numpy.diff of the padded mask is 1 exactly where a run starts, -1 exactly where it ends, and 0 elsewhere. |
| EyeData.EdgeRuns | log/eyedata.py:549-557 | Run starts and ends interleave, and a run open at the end is closed at the last position. |
| EyeData.PositionsSpec | log/eyedata.py:621-622 | `numpy.where(v == val)` lists, in increasing order, exactly the indices holding val. |
| EyeData.FixListOfEdge | log/eyedata.py:612-635 | Building fixations from a run vector succeeds, with one fixation per run. |
| EyeData.FixList | log/eyedata.py:612-635 | Each fixation's time, duration and type come from its start and end marks. A type other than LFIX/RFIX fails. |
| EyeData.GetFixList | log/eyedata.py:612-635 | The loop pairing start and end marks builds the fixation list. |
| EyeData.PairFixations | log/eyedata.py:612-635 | The loop over the marker pairs builds the same list as the pairing. |
| EyeData.LongOnly | log/eyedata.py:451 | Keeps exactly the fixations that last at least the minimum duration. |
| EyeData.LongIndices | log/eyedata.py:451 | The indices of the kept fixations, increasing. |
| EyeData.LongOnlyKeepsLong | log/eyedata.py:451 | Only the short fixations are dropped. |
| EyeData.MarkTwice | log/eyedata.py:452-455 | Marking a start and then an end on the same vector: the end wins where both fall on the same sample. |
| EyeData.MarkedAt | log/eyedata.py:452-456 | With strictly increasing times, marking the fixations leaves -1 exactly at their start samples, +1 exactly at their end samples and 0 elsewhere. |
| EyeData.MarkedPositions | log/eyedata.py:452-456 | After marking, the start marks sit exactly at the fixations' start indices and the end marks at their end indices. |
| EyeData.FixListOfMarked | log/eyedata.py:452-456 | Reading the fixations back from the marks gives exactly the marked fixations. |
| EyeData.IndexOf | log/eyedata.py:477-478 | `times.index(t)` is the first index holding t, or None when t is absent. |
| EyeData.SaccadeBetweenAt | log/eyedata.py:467-492 | Between two fixations the saccade spans the samples strictly between them and joins their positions. It is skipped when a coordinate there is missing. |
| EyeData.Saccades | log/eyedata.py:467-492 | Every result is a saccade of the given type, and there are fewer saccades than fixations. |
| EyeData.SaccadesOk | log/eyedata.py:467-492 | On interleaved marks the saccade search never raises. |
| EyeData.SaccadesErrorSticks | log/eyedata.py:467-492 | Once a gap raises, the whole search raises that error. |
| EyeData.SaccadesSnoc | log/eyedata.py:467-492 | Each further fixation adds at most the one saccade in the gap before it. |
| EyeData.FindSaccades | log/eyedata.py:467-492 | The loop over the fixations finds exactly those saccades. |
| EyeData.CorrectByDurationOk | log/eyedata.py:440-492 | On interleaved vectors, correction by duration never raises. It keeps exactly the long fixations, and reading the new vectors back gives them. |
| EyeData.CorrectByDurationIdempotent | log/eyedata.py:440-492 | Correcting a corrected pass again changes nothing. |
| EyeData.FixFixSac | log/eyedata.py:440-492 | The in-place rewrite of the fixation and saccade vectors is the specified correction. |
| EyeData.RunPass | log/eyedata.py:501-519 | A correction pass run on fresh arrays gives the specified correction. |
| EyeData.EyePassOk | log/eyedata.py:494-519 | Vectors produced by the threshold never make the duration correction raise. |
| EyeData.EyeStagesSucceed | log/eyedata.py:356-363 | On aligned samples with increasing times, the duration pass and the blink list of an eye never raise, whatever the threshold. |
| EyeData.LoadedEyeFits | log/eyedata.py:194-347 | An eye loaded from samples with increasing times has aligned series and one velocity fewer than samples, smoothed or not. |
| EyeData.BlinkMask | log/eyedata.py:580-590 | A sample is a blink exactly when its pupil size is zero or NaN. |
| EyeData.BlinkMarkers | log/eyedata.py:657-659 | The blink start and stop markers are the starts and ends of the blink runs. |
| EyeData.BlinkListOfRuns | log/eyedata.py:637-677 | One blink per run of blink samples, from its start to its end. |
| EyeData.BlinkPairsAt | log/eyedata.py:637-677 | Each blink pairs a start with the following stop. |
| EyeData.BlinkTimes | log/eyedata.py:637-677 | The blink times are the sample times at the run boundaries. |
| EyeData.LoadEyeFacts | log/eyedata.py:194-335 | Loading an eye keeps one value per sample. Zero coordinates become NaN, and times and pupils are kept. There is one velocity per neighbouring pair. The statistics exist exactly when some velocity is a number. Without samples the previous signals stay. |
| EyeData.EyeData.constructor | log/eyedata.py:100-176 | The parameters are stored, and no eye data or events exist yet. |
| EyeData.EyeData.HasLeftGaze | log/eyedata.py:717-719 | True exactly when the left eye has samples. |
| EyeData.EyeData.HasRightGaze | log/eyedata.py:721-723 | True exactly when the right eye has samples. |
| EyeData.EyeData.Prepare | log/eyedata.py:194-335 | Each eye is loaded from its samples, and the trial's logged fixations are stored. |
| EyeData.EyeData.ProcessTrial | log/eyedata.py:178-363 | Loads the trial. Smoothing a velocity shorter than the window, or with an order not below it, is a ValueError. Otherwise the threshold's error, if any. Otherwise it succeeds exactly when the duration pass and the blink lists do. When the sample times increase, it succeeds exactly when the smoothing and the threshold do. On success every eye with samples is fully analysed. The stimulus and both log names become the trial's. The smoothing settings and the method are kept. |
| EyeData.EyeData.Run | log/eyedata.py:356-363 | Fails with the threshold's error, if any. Otherwise it succeeds exactly when every eye's duration pass and blink list go through. On success every eye with samples is analysed. |
| EyeData.EyeData.Analyse | log/eyedata.py:356-363 | Every eye is classified. It succeeds exactly when every eye's duration pass and blink list go through. On success every eye with samples has its events built. |
| EyeData.EyeData.DetermineThreshold | log/eyedata.py:388-428 | The stored threshold is the specified one for each eye, or that specification's error. |
| EyeData.EyeData.Classify | log/eyedata.py:358-360 | Fixation, saccade and blink vectors come from the velocities and the pupils. |
| EyeData.EyeData.FindFixations | log/eyedata.py:532-557 | Each eye with samples gets the run edges of its below-threshold mask. |
| EyeData.EyeData.FindSaccades | log/eyedata.py:559-578 | Each eye gets the run edges of its above-threshold mask. |
| EyeData.EyeData.FindBlinks | log/eyedata.py:580-590 | Each eye gets its blink mask. |
| EyeData.EyeData.BuildLists | log/eyedata.py:362-363 | The duration correction runs, then the blinks are built, for each eye. |
| EyeData.EyeData.CorrectFixationsByDuration | log/eyedata.py:494-519 | Both eyes go through the duration pass, left then right. |
| EyeData.EyeData.CorrectLeft | log/eyedata.py:500-509 | The left eye's events become the duration pass of the old ones. |
| EyeData.EyeData.CorrectRight | log/eyedata.py:510-519 | The right eye's events become the duration pass of the old ones. |
| EyeData.EyeData.CreateBlinks | log/eyedata.py:521-530 | Each eye's blinks are built from its blink mask. |
| EyeExperiment.AddEntry | log/eyeexperiment.py:147-171 | The entry is appended to exactly the list of its type, and nothing else changes. Other types are a ValueError. |
| EyeExperiment.EntriesAfterAdd | log/eyeexperiment.py:269-319 | After addEntry the trial's entries are the old ones plus the new one, counted with multiplicity. A blink is stored but is not among the entries `getEntries` returns. |
| EyeExperiment.FixFirstFixation | log/eyeexperiment.py:257-267 | A fixation starting before the first sample is moved to start at it, and keeps its end. Any other fixation is unchanged. |
| EyeExperiment.FixFirstFix | log/eyeexperiment.py:231-255 | A RuntimeError exactly without gaze data. Otherwise the first logged fixation of each eye is aligned to the first sample. |
| EyeExperiment.CopyAsWrittenLosesMissingStimulus | log/eyeexperiment.py:76-78 | The copy as written turns a missing stimulus into the text "None". |
| EyeExperiment.CopyExperimentAsWrittenEqualIff | log/eyeexperiment.py:562-570 | The as-written copy of an experiment equals the experiment exactly when every trial names a stimulus. |
| EyeExperiment.CopyTrial | log/eyeexperiment.py:76-126 | The corrected copy of a trial equals the original. |
| EyeExperiment.CopyExperiment | log/eyeexperiment.py:562-570 | The corrected copy of an experiment equals the original. |
| EyeExperiment.SegmentErrorSticks | log/eyeexperiment.py:415-467 | Once an entry raises, the constructor raises that error. |
| EyeExperiment.NewExperiment | log/eyeexperiment.py:407-474 | The constructor is the scan and then the alignment. |
| EyeExperiment.ScanLog | log/eyeexperiment.py:415-467 | The constructor's loop computes the scan of the log. |
| EyeExperiment.AlignTrials | log/eyeexperiment.py:469-474 | Every trial with logged fixations and samples gets its first fixations aligned. |
| EyeExperiment.StepFlags | log/eyeexperiment.py:426-467 | One entry sets the start flag on trialbeg, and closes a trial on trialend inside a trial. No closed trial is changed. |
| EyeExperiment.MarkersFlags | log/eyeexperiment.py:426-467 | trialend clears the sync flag and SYNCTIME sets it. A trialend closes the open trial. |
| EyeExperiment.ScanCounts | log/eyeexperiment.py:420-467 | After the scan: the start flag says whether a trialbeg occurred. There is one trial per trialend after a trialbeg. The sync flag reflects the last SYNCTIME or trialend. |
| EyeExperiment.TrialsOnlyAppended | log/eyeexperiment.py:455 | Trials are only ever appended: what an earlier point of the scan closed stays in place. |
| EyeExperiment.TrialEntryGate | log/eyeexperiment.py:426-437 | A sample or an event reaches the open trial exactly when a SYNCTIME has been seen. |
| EyeExperiment.UnopenedMarkerRaises | log/eyeexperiment.py:451-463 | A trialend or plafile after the first trialbeg, with no trial open, aborts the constructor. |
| EyeExperiment.PlaSetsStimulus | log/eyeexperiment.py:461-464 | A plafile message names the open trial's stimulus by its second word. Without a second word it raises. |
| EyeExperiment.StepBeforeBegin | log/eyeexperiment.py:431-446 | Before the first trialbeg every entry is held back, and messages also go to the experiment's meta. |
| EyeExperiment.NoBeginNoTrials | log/eyeexperiment.py:439-446 | A log without trialbeg gives an experiment without trials whose meta is its messages. |
| EyeLog.RemoveEyeEvents | log/eyelog.py:95-107 | Keeps exactly the entries that are neither fixations nor saccades, each as often as it occurs. The order is kept (`Base.FilterAppend`). |
| EyeLog.RemoveLeftGaze | log/eyelog.py:109-113 | Keeps exactly the entries that are not left gaze, each as often as it occurs. The order is kept (`Base.FilterAppend`). |
| EyeLog.RemoveRightGaze | log/eyelog.py:115-119 | Keeps exactly the entries that are not right gaze, each as often as it occurs. The order is kept (`Base.FilterAppend`). |
| EyeLog.MakeAscGaze | log/eyelog.py:135-145 | Succeeds exactly when some eye is given. It carries both eyes and takes its time from the left eye, otherwise the right. |
| EyeLog.MakeFixationEnd | log/eyelog.py:179-189 | Succeeds exactly for LFIX/RFIX fixations. The end marker sits at start + duration, on the same eye. |
| EyeLog.MakeSaccadeEnd | log/eyelog.py:247-257 | Succeeds exactly for LSAC/RSAC saccades. The end marker sits at start + duration, on the same eye. |
| EyeLog.StartHeaderFields | log/eyelog.py:300-327 | The corrected begin header is the tab-separated fields START, the time, the eyes, SAMPLES and EVENTS. |
| EyeLog.StartHeaderAsWrittenFields | log/eyelog.py:303-325 | The header as written has that layout for one eye. |
| EyeLog.BinoHeaderAsWrittenMissesSeparator | log/eyelog.py:317-325 | For both eyes, the header as written runs "RIGHT" and "SAMPLES" together. |
| EyeLog.ToAsc | log/eyelog.py:129-337 | Gaze entries are refused, and so are blinks (see "Left out"). Messages, ends and fixations always convert. Saccades and begin markers convert exactly for a known eye. A begin marker is written with the corrected header (`StartHeader`), not the one log/eyelog.py:318-325 writes for both eyes (see "Findings"). |
| EyeLog.CompareDecides | log/eyelog.py:455-467 | The comparator orders by time and then by the rank table. |
| EyeLog.InOrderTransitive | log/eyelog.py:424-453 | The intended order is transitive. |
| EyeLog.Insert | log/eyelog.py:539 | Insertion adds exactly one entry. |
| EyeLog.SortLog | log/eyelog.py:539 | The sort is a permutation. |
| EyeLog.InsertSorted | log/eyelog.py:455-467 | Inserting into a sorted list of ranked entries keeps it sorted. |
| EyeLog.SortLogSorted | log/eyelog.py:539 | Entries whose types all have a rank come out ordered by time and then by rank. |
| EyeLog.MarkerWord | log/eyelog.py:471-487 | A marker's condition word is a non-empty run of ASCII letters. |
| EyeLog.FixationEnds | log/eyelog.py:506-508 | One end per fixation, in order. Succeeds exactly when every fixation yields an end. |
| EyeLog.SaccadeEnds | log/eyelog.py:509-511 | One end per saccade, in order. Succeeds exactly when every saccade yields an end. |
| EyeLog.AscGazes | log/eyelog.py:516-518 | izip_longest: one combined sample per index, pairing the i-th left and right samples. |
| EyeLog.LastAscGaze | log/eyelog.py:520-531 | The last combined sample, or None exactly when there is none. |
| EyeLog.LastAscGazeAppend | log/eyelog.py:520-531 | The last combined sample of a concatenation comes from its second part when that part has one. |
| EyeLog.EyeTypeRule | log/eyelog.py:516-531 | The eye type depends on the sample counts. Equal non-zero counts give BINO. More right than left samples give RIGHT. Anything else gives LEFT. |
| EyeLog.BeginEnds | log/eyelog.py:469-495 | Only begin and end markers are added. |
| EyeLog.AscLines | log/eyelog.py:540-541 | One line per entry. |
| EyeLog.LinesErrorSticks | log/eyelog.py:540-541 | Once an entry fails to convert, writing fails with that error. |
| EyeLog.ErrorSticksFix | log/eyelog.py:507-508 | Once a fixation fails, collecting the ends fails with that error. |
| EyeLog.ErrorSticksSac | log/eyelog.py:510-511 | Once a saccade fails, collecting the ends fails with that error. |
| EyeLog.FixationEntriesContents | log/eyelog.py:513-537 | Every input entry that is not gaze reaches the written log, and no raw gaze sample does. |
| EyeLog.WrittenInOrder | log/eyelog.py:498-539 | When every input type has a rank, the written log is ordered by time and then by rank. |
| EyeLog.SaveForFixation | log/eyelog.py:498-541 | The lines written are those of the specified log. Its begin markers use the corrected header (`StartHeader`), not the one log/eyelog.py:318-325 writes for both eyes (see "Findings"). |
| EyeLog.CollectFixationEnds | log/eyelog.py:506-508 | The loop builds the specified fixation ends. |
| EyeLog.CollectSaccadeEnds | log/eyelog.py:509-511 | The loop builds the specified saccade ends. |
| EyeLog.PairSamples | log/eyelog.py:517-518 | The loop builds the combined samples. |
| EyeLog.FindEyeType | log/eyelog.py:520-531 | The reversed scan finds the eye type of the last combined sample. |
| EyeLog.Render | log/eyelog.py:540-541 | The loop writes the specified lines. |
| ParseEyeFile.GetLogEntry | log/parseeyefile.py:21-54 | A parsed entry has the type its code names. Code 4 (stimulus) is a RuntimeError. |
| ParseEyeFile.GazeAndFixationColumns | log/parseeyefile.py:26-40 | Gaze and fixation records read columns 1-4 in the order the code gives. They fail only on a missing or non-numeric column. |
| ParseEyeFile.SplitTwoFields | log/parseeyefile.py:66 | A line splits at its tabs into the code, the time and the rest. |
| ParseEyeFile.MessageText | log/parseeyefile.py:45-50 | A message keeps its whole text, tabs included, without its line end. |
| ParseEyeFile.CsvLogEntries | log/parseeyefile.py:61-73 | When every line parses, there is one entry per line, each from its own line. |
| ParseEyeFile.CsvLogFirstFailure | log/parseeyefile.py:61-73 | A failure is reported with the 1-based number of the first bad line. |
| ParseEyeFile.CsvFailureSticks | log/parseeyefile.py:61-73 | After a bad line the following lines are not read. |
| ParseEyeFile.ExtractCsvLog | log/parseeyefile.py:61-73 | The loop computes the specified outcome. |
| ParseEyeFile.ExtractAscLog | log/parseeyefile.py:80-170 | The loop computes the specified entries, or the first error, for a given word that sets `isleft`. |
| ParseEyeFile.AscErrorSticks | log/parseeyefile.py:80-170 | Once a line raises, extractAscLog raises that error. |
| ParseEyeFile.AscAppends | log/parseeyefile.py:105-170 | extractAscLog only appends: a prefix's entries start the whole log's entries. |
| ParseEyeFile.AscSkipsUnmatched | log/parseeyefile.py:105-170 | A line that no expression matches is skipped. |
| ParseEyeFile.AscMessage | log/parseeyefile.py:106-110 | A message wins over every other expression and is kept with its time and text. |
| ParseEyeFile.AscBinocular | log/parseeyefile.py:111-130 | A binocular sample adds a left and a right gaze at the same time, or is skipped when a value does not convert. |
| ParseEyeFile.AscIsLeft | log/parseeyefile.py:131-136 | `isleft` holds exactly when the latest SAMPLES header names the given word, in any letter case ("right" as written, "left" corrected). Before any header it is false. |
| ParseEyeFile.AscMonocularEye | log/parseeyefile.py:137-151 | A monocular sample is a left gaze exactly when `isleft` holds. |
| ParseEyeFile.AscEndFixation | log/parseeyefile.py:152-169 | An EFIX line adds a fixation of its eye with its start, duration and position. |
| ParseEyeFile.AscOutcomeAnyWord | log/parseeyefile.py:104-170 | The word that sets `isleft` decides only which eye a monocular sample gets: whether the log parses and how many entries it has do not depend on it. |
| ParseEyeFile.LeftHeaderAsWrittenGivesRightGaze | log/parseeyefile.py:134-135 | As written, a monocular sample after a header naming the left eye becomes a right gaze; with the corrected word it becomes a left gaze. |
| ParseEyeFile.Parsed | log/parseeyefile.py:184-248 | As written: the errors of earlier calls stay in front of this call's, because the default error list is shared. |
| ParseEyeFile.FreshFacts | log/parseeyefile.py:223-248 | A non-empty .csv result is taken. Otherwise the .asc result is taken, after a warning for a bad .csv line. There are no entries exactly when the call's last error is "unable to parse". |
| ParseEyeFile.SharedErrorsOutliveSuccess | log/parseeyefile.py:184-248 | After a file that did not parse, a file read as .csv has entries, yet its last error is still "unable to parse". |
| ParseEyeFile.ParseLines | log/parseeyefile.py:223-248 | The method computes the as-written result, with the shared error list passed in. |
| ParseEyeFile.ParseEyeFile | log/parseeyefile.py:223-248 | With a fresh error list, and with `isleft` set by a header naming "left": a non-empty .csv result is taken, otherwise the .asc result. There are no entries exactly when the last error is "unable to parse". |
| FixationEditor.Connected | gui/fixationeditor.py:477-499 | One saccade per pair of consecutive fixations. |
| FixationEditor.ConnectedSaccades | gui/fixationeditor.py:477-499 | Each saccade runs from the end of one fixation to the start of the next, on the same eye. |
| FixationEditor.ConnectedIsPath | gui/fixationeditor.py:477-499 | The saccades form a path through the fixations. |
| FixationEditor.ConnectFixations | gui/fixationeditor.py:477-499 | The loop builds exactly the connecting saccades. |
| FixationEditor.TranslateFix | gui/fixationeditor.py:38-68 | The selected fixation, or every fixation without a reference, moves by the vector. Its type, time and duration stay. Other fixations stay. |
| FixationEditor.TranslateAll | gui/fixationeditor.py:64-68 | The translation is mapped over the list. |
| FixationEditor.TranslateZero | gui/fixationeditor.py:38-68 | A zero vector changes no fixation. |
| FixationEditor.MoveList | gui/fixationeditor.py:565-580 | One fixation for each fixation, with the same type, time and duration. A selected None is a translation without a reference. |
| FixationEditor.MoveListUnselected | gui/fixationeditor.py:565-580 | Without a selected None, a fixation that is not selected stays where it is. |
| FixationEditor.MoveListNone | gui/fixationeditor.py:64-68 | A selected None moves every fixation by the vector. |
| FixationEditor.MoveListSingle | gui/fixationeditor.py:565-580 | With one selection, exactly the equal fixations move by the vector. |
| FixationEditor.MoveListZero | gui/fixationeditor.py:565-580 | A zero vector moves nothing, whatever is selected. |
| FixationEditor.SavedEditShape | gui/fixationeditor.py:565-590 | The saved edit moves the selection, and each eye's saccades connect its fixations. |
| FixationEditor.SavedEditZero | gui/fixationeditor.py:565-590 | Saving with a zero vector only rebuilds the saccades. |
| FixationEditor.InitialEdit | gui/fixationeditor.py:503-526 | The first edit of a trial is well formed. |
| FixationEditor.InitialEditSaccades | gui/fixationeditor.py:503-526 | An eye with fixations but no logged saccades gets connecting saccades. Logged saccades are kept. |
| FixationEditor.BuildInitialEdit | gui/fixationeditor.py:503-526 | The construction builds exactly the initial edit. |
| FixationEditor.VisibleMembers | gui/fixationeditor.py:550-558 | A fixation is visible exactly when it belongs to a shown eye. Average fixations never are. |
| FixationEditor.SquaredDistance | gui/fixationeditor.py:78-91 | The distance key is a number exactly when the fixation has a position, and it is never negative. |
| FixationEditor.NearestIndex | gui/fixationeditor.py:596-601 | The nearest index lies inside the list. |
| FixationEditor.Nearest | gui/fixationeditor.py:596-601 | The nearest fixation is one of the list. |
| FixationEditor.NearestIsClosest | gui/fixationeditor.py:596-601 | No fixation is closer than the one selected. |
| FixationEditor.NearestIsFirst | gui/fixationeditor.py:596-601 | Every fixation before the selected one is strictly farther away, as the stable sort implies. |
| FixationEditor.MoveSelection | gui/fixationeditor.py:565-580 | The translation loop gives the specified moved edit. |
| FixationEditor.ShiftSelection | gui/fixationeditor.py:580-582 | Each selected fixation before the first None moves by the vector. The None and everything after it stay, because reading `None.x` raises AttributeError. |
| FixationEditor.Reconnect | gui/fixationeditor.py:581-588 | The reconnect loop gives the specified edit. |
| FixationEditor.PushKeepsEdits | gui/datamodel.py:346-350 | Every edit in the history after a push is well formed. |
| FixationEditor.FixationEditModel.constructor | gui/fixationeditor.py:321-349 | An empty history, an empty selection and a zero vector. |
| FixationEditor.FixationEditModel.Current | gui/datamodel.py:356-360 | None exactly with an empty history; otherwise a well-formed edit. |
| FixationEditor.FixationEditModel.GetVisible | gui/fixationeditor.py:550-558 | Only fixations are visible. |
| FixationEditor.FixationEditModel.GetSelected | gui/fixationeditor.py:364-366 | The selected fixations that are visible, each as often as it is selected. A selected None is never visible. The selection order is kept (`Base.FilterAppend`). |
| FixationEditor.FixationEditModel.AppendSelected | gui/fixationeditor.py:375-378 | The fixation, or the None that selectFixation gives when nothing is visible, is appended to the selection. |
| FixationEditor.FixationEditModel.ClearSelected | gui/fixationeditor.py:386-388 | The selection becomes empty. |
| FixationEditor.FixationEditModel.DeselectFixation | gui/fixationeditor.py:380-384 | Every copy of the fixation, or of None, leaves the selection. Every other fixation stays as often as it was selected, in its order (`Base.FilterAppend`). |
| FixationEditor.FixationEditModel.SetVector | gui/fixationeditor.py:392-395 | The vector is stored. |
| FixationEditor.FixationEditModel.SelectFixation | gui/fixationeditor.py:596-601 | None exactly when no fixation is visible; otherwise a visible fixation. |
| FixationEditor.FixationEditModel.SaveEdit | gui/fixationeditor.py:565-590 | An empty selection changes nothing. Without a current edit it raises AttributeError and changes nothing. With a selected None it raises AttributeError before the push: nothing is pushed, and only the selected fixations before the None are moved. Otherwise the saved edit is pushed, the undone edits are dropped, and the selection is moved by the vector, as the edit moved it. |
| FixationEditor.FixationEditModel.OnNewTrial | gui/fixationeditor.py:403-429 | A fresh history holding the trial's initial edit, with the selection cleared. |

## Left out

- Files, clocks and the Qt widgets are not modelled:
  - reading and writing files (`open`, `readlines`, `f.write`);
  - the version files of `bump-version.py` (lines 50-150);
  - `read_content` / `write_to_fn` / `main` of `data/bmptopng.py`;
  - the status messages and the plots.
- Python's `int()` and `float()` are parameters (an Option, None where Python raises ValueError).
  - The regular expressions of `extractAscLog` are parameters too: each gives the groups the code reads, or None.
- Floating point is modelled on Dafny's reals, with a gap for NaN. Division by zero gives NaN where numpy would give an infinity.
- The Savitzky-Golay filter, `sqrt` and the median are parameters (`Numerics`). `NumericsOk` asks only that the filter keeps the length.
- EyeData.ThresholdCases: "snr" with a constant velocity raises ValueError in the model but not in the source. The standard deviation is 0, so the model's division gives a gap, standing for NaN, which fails the check that the threshold is positive. numpy divides a positive mean by 0 to an infinite threshold, which passes.
- EyeData.EyeData.ProcessTrial: the filter's ValueError is modelled by its two checks: an order not below the window, and a signal shorter than the window. The odd-window check of older scipy versions and the fallback filter in `utils/tempsignal.py` are not part of this model. After that ValueError the model states every signal as computed, while the source leaves the signals after the raising call unassigned.
- Text.IsDigit: `\d` is the ASCII digits 0-9. Python 3's `re` also matches the other Unicode decimal digits, so for text holding those the model of `data/bmptopng.py` (BmpToPng.UnchangedIff among them) differs from the source. So does EyeLog.MarkerWord, which reads the `\d+` of the trialbeg and trialend patterns (log/eyelog.py:472, 481) with the same ASCII digits.
- EyeLog.ToAsc: a blink refuses conversion with ValueError. `log/eyelog.py` in this revision of the repository gives blinks no `toAsc`, and the base `toAsc` at line 60 takes no `self`, so the source raises TypeError there.
- ISpectorGui.Model.constructor: the files remembered in the configuration file are a parameter. The stimulus and output directories of the configuration file and `read_config` are left out.
- DataModels.ExamineDataController.SetTrialIndex: the outcome of `processTrial` for the trial shown is a parameter, since the model keeps the number of trials and not the trials.
- `selectFixation` compares squared distances instead of distances, which orders them the same.
- Times and durations are whole milliseconds; `str(int(t))` of a time is `IntToString(t)`.
- The `.asc` text of numbers is a parameter `show`.
- Python aliasing is not modelled; every value is a copy:
  - `saveForFixation` extends the caller's list;
  - `_fixFirstFixation` changes a fixation that the caller's list shares;
  - the editor deep-copies its edits.
- Entries compare by value. `log/eyelog.py` in this revision of the repository defines no `__eq__`; the revision the editor uses compares values.
- `FixationDataEdit` stores None for an empty list; the model uses the empty list, since every use tests truthiness.
- `list.sort` is modelled as a stable insertion sort. The order is proved only when every entry type is in the rank table, because otherwise the comparator is not an order.
- `sorted()` on file names compares code points; locale collation does not exist in the source either.
- The timsort order of NaN distances in `selectFixation` is not modelled.
- An entry type outside the comparator's table makes the source print and return the time difference. The model treats the type as having no rank.
- `DataModel.showAvg` prints and returns False, so average fixations are never visible in the editor. The model keeps that.
- DataModels.DataModel.LoadEyeFile: the `onFileLoaded` hook it calls is ExamineDataModel's, which does nothing. DataModel's own `onFileLoaded` raises NotImplementedError; that raise is not modelled.
- DataModels.DataModel.SetTrialIndex: the `onNewTrial` hook it calls is DataModel's own, which does nothing. The subclasses' hooks are modelled by ExamineDataController.SetTrialIndex (processTrial of the trial shown) and EditDataModel.OnNewTrial (a fresh history).
- DataModels.DataModel.constructor: covers the fields set at gui/datamodel.py:43-55. It does not run the `setFileIndex(0)` / `setTrialIndex(0)` calls that follow; a caller applies `SetFileIndex` and `SetTrialIndex` next. It does not check the assertion that files and the main window are given.
- ISpectorGui.Controller.constructor: `p.abspath` is the identity, and whether a name is a file is a parameter. The `updateDirectory` / `updateStimDir` calls at the end of `_initModel` are left out.
- `updateDefaultOpenDir`, `updateDirectory` and `updateStimDir` of the controller are left out: they test and create directories.
- `DataModel.nextTrial` / `prevTrial`, `saveExperiment`, `isTrialModified`, `isExperimentModified` and `EditDataController` are left out: they are GUI plumbing over the modelled setters, the file writer and identity comparison.
- `FixationEditController` (mouse handling) and the canvas painting are left out: they are Qt event handlers.
- `EyeData`'s getters (log/eyedata.py:679-781) only return fields, and `_etAttachLFix` / `_etAttachRFix` (594-610) are never called; both are left out.
- `EyeExperiment.getFixationName` and the `__eq__` / `__ne__` methods are left out. Equality is Dafny's value equality.
- `getVersionInfo` of `bump-version.py` (the regex scan of the version file) is left out: the model starts from the parsed numbers.
- `gui/statusmessage.py`, `utils/configfile.py` and the command line parser are not part of this model.

## Findings

| source | as written | input that shows it | evidently intended | confidence | as-written member | corrected member |
|---|---|---|---|---|---|---|
| log/eyeexperiment.py:78 | `EyeTrial.copy` stores `str(self.stimulus)`, so a trial without a plafile message gets the stimulus text "None" | a trial whose stimulus is None: its copy has stimulus "None" and differs from the original | copy the stimulus as it is, so a copy equals its original | not executed | EyeExperiment.CopyExperimentAsWrittenEqualIff | EyeExperiment.CopyExperiment |
| log/parseeyefile.py:184 | `ParseResult.__init__` has the default `errors=[]`, one list that every `ParseResult()` shares, and `appendError` appends to it, so errors pile up across `parseEyeFile` calls | parse a file that is neither .csv nor .asc, then a good .csv file: the second result has entries, but its last error is still "Unable to parse" | a fresh error list per call, so that a file without entries is exactly one whose last error is "Unable to parse" | not executed | ParseEyeFile.SharedErrorsOutliveSuccess | ParseEyeFile.ParseEyeFile |
| log/parseeyefile.py:134-135 | `isleft = lorr.lower() == "right"`, so a SAMPLES header naming the left eye makes the monocular samples after it right gazes, and one naming the right eye makes them left gazes | the line "SAMPLES GAZE LEFT ..." followed by a monocular sample: the sample becomes an RGAZE entry | `isleft` holds when the header names "left" | not executed | ParseEyeFile.LeftHeaderAsWrittenGivesRightGaze | ParseEyeFile.ParseEyeFile |
| log/eyelog.py:318-325 | the binocular branch of `StartEntry.toAsc` joins "LEFT" and "RIGHT" but adds no tab before "SAMPLES", unlike the one-eye branches | `StartEntry(t, BINO).toAsc()`: the first line ends in "RIGHTSAMPLES\tEVENTS" | a tab between the eyes and SAMPLES, as for one eye | not executed | EyeLog.BinoHeaderAsWrittenMissesSeparator | EyeLog.StartHeaderFields |
