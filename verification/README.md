# COSMO technical testsuite tools, modelled in Dafny

This project models the Python tools of the COSMO technical testsuite that
decide whether a model run passed:

- the tolerance table `Thresholds` (tools/ts_thresholds.py), with its
  lookup, tuning and editing operations;
- the YUPRTEST statistics file reader and the threshold-driven comparator
  built on it (tools/ts_yuprtest.py);
- the legacy comparators for YUPRTEST files, YUCHKDAT files and plain
  tables (tools/comp_yuprtest.py, tools/comp_yuchkdat.py,
  tools/ts_yuchdat.py, tools/comp_table.py);
- the log-file pattern checker (tools/filechecker.py);
- the small helpers in tools/ts_utilities.py, tools/ts_test.py and
  tools/generate_test_input.py.

There is one Dafny module per source file, plus the shared module `Common`.
`Common` holds the Python error kinds, `Option`/`Result`/`Outcome`, and
string and token helpers.

Where the source changes an object in place, the model keeps the same shape.
`TsThresholds.Thresholds`, `YuprtestFile.Yuprtest`,
`YuprtestCompare.Compare`, `Filechecker.Pattern`,
`Filechecker.FileChecker` and `GenerateTestInput.InputFile` are classes.
Their methods carry the source's loops. Each method is proved equal to a
pure function of the old state, and the properties are proved as lemmas
about those functions. Each comparator loop is a `method` proved equal to
a recursive specification function.

Files reach the model as sequences of lines. Each line is already split
into tokens, and each token carries its optional float and integer
readings. A missing file is `None`. A Python exception is an explicit
`Failure`/`Raised` value that names the exception.

## Model

| member | source | states |
|---|---|---|
| ThresholdTable.ParseMode | tools/ts_thresholds.py:148-153 | a mode name is accepted iff it is const, linear or log |
| ThresholdTable.WithMode | tools/ts_thresholds.py:148-153 | the mode setter succeeds iff the name is const/linear/log; otherwise ValueError and the table is unchanged; only the mode changes |
| ThresholdTable.WithDigits | tools/ts_thresholds.py:159-163 | the digits setter succeeds iff 1 <= d <= 10, else ValueError with the table unchanged; valid settings stay valid |
| ThresholdTable.WithIncreaseFactor | tools/ts_thresholds.py:169-173 | the increase_factor setter succeeds iff 1 <= f <= 10, else ValueError with the table unchanged; valid settings stay valid |
| ThresholdTable.Curve | tools/ts_thresholds.py:255-261 | the curve of a variable (its own, or `*` when it has none) has one value per step |
| ThresholdTable.WithCurve | tools/ts_thresholds.py:273-281 | setting a curve keeps every curve one value per step |
| ThresholdTable.LastAtMost | tools/ts_thresholds.py:283-296 | the last breakpoint index at or below the step, or -1: every later breakpoint is above the step |
| ThresholdTable.FirstAtLeast | tools/ts_thresholds.py:283-296 | the first breakpoint index at or above the step, or the length: every earlier breakpoint is below the step |
| ThresholdTable.Indices | tools/ts_thresholds.py:283-296 | `__get_indices` returns two valid indices of a non-empty step list |
| ThresholdTable.GetThreshold | tools/ts_thresholds.py:317-326 | `get_threshold` fails (IndexError) iff the table has no steps |
| ThresholdTable.ComputeThreshold | tools/ts_thresholds.py:309-315 | a new threshold exists iff value*factor > 0, and it is at least value*factor when rounding never rounds down |
| ThresholdTable.RaiseFrom | tools/ts_thresholds.py:348-349 | lifting the tail keeps the curve's length |
| ThresholdTable.Tuned | tools/ts_thresholds.py:335-337 | the table after the unknown-variable branch stays well shaped |
| ThresholdTable.Retune | tools/ts_thresholds.py:337-349 | retuning a curve keeps its length |
| ThresholdTable.Update | tools/ts_thresholds.py:328-350 | `update_threshold` keeps the table well shaped and its settings unchanged |
| ThresholdTable.AddVariable | tools/ts_thresholds.py:366-371 | `add_variable` keeps the table well shaped, and settings and default unchanged |
| ThresholdTable.RemoveVariable | tools/ts_thresholds.py:373-380 | `remove_variable` keeps the table well shaped, and settings and default unchanged |
| ThresholdTable.SetItem | tools/ts_thresholds.py:111-113 | `t[v] = c` keeps the table well shaped, and settings and default unchanged |
| ThresholdTable.MaxCurves | tools/ts_thresholds.py:352-364 | the folded maximum has one value per step |
| ThresholdTable.UpdateDefault | tools/ts_thresholds.py:352-364 | `update_default_thresholds` keeps shape, settings and variable names |
| ThresholdTable.Zeroed | tools/ts_thresholds.py:263-271 | `_set_thresholds_to_zero` keeps shape, settings and variable names |
| ThresholdTable.InsertPositionAsWritten | tools/ts_thresholds.py:382-394 | the insertion index of `__insert_step` as written lies within the list |
| ThresholdTable.InsertPosition | tools/ts_thresholds.py:382-394 | the corrected insertion index lies within the list |
| ThresholdTable.InsertPositionAgrees | tools/ts_thresholds.py:382-394 | for a new step, the as-written and corrected indices differ exactly on a one-breakpoint table that the step lies beyond |
| ThresholdTable.InsertStep | tools/ts_thresholds.py:382-394 | (corrected index) `__insert_step` adds one step and one value to every curve, and keeps the names |
| ThresholdTable.RemoveStep | tools/ts_thresholds.py:415-424 | `removeStep` keeps the table well shaped and the names |
| ThresholdTable.UpdateEach | tools/ts_thresholds.py:409-411 | the update loop of `add_step` keeps shape and settings |
| ThresholdTable.AddStep | tools/ts_thresholds.py:396-413 | (corrected index) `add_step` keeps the table well shaped |
| ThresholdTable.Keys | tools/ts_thresholds.py:210-219 | the keys of the dictionary, in order |
| ThresholdTable.Put | tools/ts_thresholds.py:210-219 | a dictionary store never shrinks the dictionary |
| ThresholdTable.Group | tools/ts_thresholds.py:175-189 | grouping yields one name per distinct curve |
| ThresholdTable.Compress | tools/ts_thresholds.py:175-189 | `__compress` yields one name per distinct curve |
| ThresholdTable.ExpandAsWritten | tools/ts_thresholds.py:221-232 | the variable part of `from_dict` as written yields one curve per name |
| ThresholdProps.ExpandAgreesWithoutGroups | tools/ts_thresholds.py:226-232 | without comma-separated keys, the key loop as written yields the same names and curves as the corrected one |
| ThresholdProps.FromDictAgreesWithoutGroups | tools/ts_thresholds.py:221-232 | without comma-separated keys, `from_dict` as written loads the same table as the corrected one |
| ThresholdTable.Expand | tools/ts_thresholds.py:221-232 | the corrected variable part of `from_dict` yields one curve per name |
| ThresholdTable.GetWellTyped | tools/ts_thresholds.py:221-228 | in a well-typed dict, `minval` is a number, `steps` integers and every other key a real curve |
| ThresholdTable.ParseAll | tools/ts_thresholds.py:191-208 | a row parses iff every word does, and then holds each word's value in order |
| ThresholdProps.IndicesAtBreakpoint | tools/ts_thresholds.py:283-296 | at breakpoint k both bracketing indices are k |
| ThresholdProps.IndicesBeforeTable | tools/ts_thresholds.py:283-296 | at or before the first breakpoint both indices are 0 |
| ThresholdProps.IndicesAfterTable | tools/ts_thresholds.py:283-296 | at or after the last breakpoint both indices are the last index |
| ThresholdProps.IndicesBetween | tools/ts_thresholds.py:283-296 | strictly between breakpoints k and k+1 the indices are (k, k+1) |
| ThresholdProps.LookupAtBreakpoint | tools/ts_thresholds.py:317-326 | at a breakpoint the lookup is the stored value: the variable's own curve, or the `*` curve for a variable without one |
| ThresholdProps.LookupOutsideTable | tools/ts_thresholds.py:317-326 | before the table the lookup is the first value, after it the last |
| ThresholdProps.LookupCurveBetween | tools/ts_thresholds.py:298-303 | between breakpoints, const mode returns the right value; linear mode returns y1*(1-x)+y2*x with 0<x<1, which lies between y1 and y2 |
| ThresholdProps.CurveAfterWithCurve | tools/ts_thresholds.py:273-281 | setting v's curve changes exactly the curve read for v (and names sharing its entry) |
| ThresholdProps.TunedReadsAlike | tools/ts_thresholds.py:335-337 | adding the unknown variable does not change what any name reads |
| ThresholdProps.UpdateUnchanged | tools/ts_thresholds.py:328-332 | no steps gives IndexError, value*factor <= 0 gives ValueError, and value <= the current threshold gives Done; all three leave the table unchanged |
| ThresholdProps.UpdateShape | tools/ts_thresholds.py:333-350 | an update rewrites only the tuned variable's curve |
| ThresholdProps.RaiseFromLifts | tools/ts_thresholds.py:348-349 | raising point k and lifting the tail never lowers a value and keeps the values below k |
| ThresholdProps.RetuneRises | tools/ts_thresholds.py:337-349 | retuning never lowers a value and keeps the indices below imax |
| ThresholdProps.RetuneTail | tools/ts_thresholds.py:348-349 | after retuning, every value from imax on is >= the value at imax |
| ThresholdProps.UpdateNeverLowers | tools/ts_thresholds.py:328-350 | `update_threshold` never lowers any stored value of any curve and leaves indices below imax untouched |
| ThresholdProps.UpdateTailAtLeast | tools/ts_thresholds.py:348-349 | after an update, the tuned curve from imax on is >= its value at imax |
| ThresholdProps.UpdateAtBreakpoint | tools/ts_thresholds.py:345-347 | at a breakpoint with a larger value, the stored value becomes the rounded value*factor, which is >= value*factor |
| ThresholdProps.RetuneAtBreakpoint | tools/ts_thresholds.py:337-349 | at a breakpoint the retune completes and writes the rounded-up value*factor there |
| ThresholdProps.UpdateConstAdmits | tools/ts_thresholds.py:328-350 | in const mode, after an update the lookup at that step is >= value*factor |
| ThresholdProps.RetuneConstAdmits | tools/ts_thresholds.py:337-349 | in const mode, the retuned curve reads >= value*factor at the step |
| ThresholdProps.ConstNewTop | tools/ts_thresholds.py:337-345 | in const mode the value written before rounding is at least the new value |
| ThresholdProps.AddVariableCopiesDefault | tools/ts_thresholds.py:366-371 | `add_variable` makes v a variable whose curve is its old one or the default; other names are unchanged; adding twice equals adding once |
| ThresholdProps.AddThenRemoveVariable | tools/ts_thresholds.py:366-380 | adding then removing a new variable gives back the same table |
| ThresholdProps.RemoveAbsentVariable | tools/ts_thresholds.py:373-380 | removing an absent name changes nothing |
| ThresholdProps.MaxCurvesIsMax | tools/ts_thresholds.py:352-364 | the fold is the pointwise maximum of the accumulator and every non-excluded curve, and attains one of them |
| ThresholdProps.UpdateDefaultIsMax | tools/ts_thresholds.py:352-364 | the new `*` curve is the pointwise max of itself and every non-excluded variable's curve |
| ThresholdProps.ZeroedCurves | tools/ts_thresholds.py:263-271 | zeroing keeps steps and names, keeps the CHKDAT curve and zeroes every other curve |
| ThresholdProps.ZeroedLookup | tools/ts_thresholds.py:263-271 | after zeroing, every non-excluded variable reads 0 in const and linear mode |
| ThresholdProps.InsertPositionFirstAbove | tools/ts_thresholds.py:382-394 | the corrected insertion index is the first breakpoint above the step |
| ThresholdProps.InsertKeepsIncreasing | tools/ts_thresholds.py:382-394 | inserting a new step at the corrected index keeps the steps strictly increasing |
| ThresholdProps.InsertInOrder | tools/ts_thresholds.py:382-394 | a value above the steps before its index and below those after keeps the steps increasing when inserted there |
| ThresholdProps.InsertAsWrittenBreaksOrder | tools/ts_thresholds.py:384-391 | as written, steps [3] plus step 5 becomes [5, 3], which is not increasing |
| ThresholdProps.RemoveInsertedStep | tools/ts_thresholds.py:382-424 | removing a step just inserted gives back the same table |
| ThresholdProps.RemoveStepAt | tools/ts_thresholds.py:415-424 | `removeStep` deletes that index from the steps, the default and every curve, and nothing else |
| ThresholdProps.AddExistingStep | tools/ts_thresholds.py:396-399 | `add_step` of an existing step is a no-op |
| ThresholdProps.UpdateEachNeverLowers | tools/ts_thresholds.py:409-411 | updating every variable never lowers a stored value and keeps indices below imax |
| ThresholdProps.AddStepShape | tools/ts_thresholds.py:396-413 | (corrected index) `add_step` inserts the step at the first breakpoint above it, keeps the steps increasing, lengthens every curve by one and restores the increase factor |
| ThresholdProps.AddThenRemoveStep | tools/ts_thresholds.py:396-424 | `add_step` then `removeStep` restores the steps and the values below the insertion point, and lowers no value |
| ThresholdProps.AddStepLifts | tools/ts_thresholds.py:396-413 | (corrected index) `add_step` inserts the step with the value of the step below and then only lifts values: values before the new step are unchanged and none is lowered |
| ThresholdProps.IndicesOfInserted | tools/ts_thresholds.py:283-296 | at an inserted step both bracketing indices are its position |
| ThresholdProps.CurveAfterInsertStep | tools/ts_thresholds.py:382-394 | (corrected index) `__insert_step` inserts into every curve its value at the lower bracketing index |
| ThresholdProps.CurveAfterRemoveStep | tools/ts_thresholds.py:415-424 | `removeStep` deletes that index from every curve |
| ThresholdProps.GroupDistinct | tools/ts_thresholds.py:175-189 | with distinct curves, grouping leaves the names and curves as they are |
| ThresholdProps.PutNew | tools/ts_thresholds.py:210-219 | storing a new key appends it |
| ThresholdProps.PutCurvesNew | tools/ts_thresholds.py:210-219 | storing new distinct names appends them in order |
| ThresholdProps.ExpandPlainEntries | tools/ts_thresholds.py:221-232 | reading back plain names gives the same names and curves, both as written and corrected |
| ThresholdProps.CompressDistinct | tools/ts_thresholds.py:175-189 | with distinct curves and plain names, `__compress` is the identity |
| ThresholdProps.ToDictDistinct | tools/ts_thresholds.py:210-219 | with distinct curves, `to_dict` is the header followed by one entry per variable |
| ThresholdProps.FromDictHeader | tools/ts_thresholds.py:221-232 | `from_dict` takes minval, steps and default from the header and the variables from the remaining entries |
| ThresholdProps.DictRoundTrip | tools/ts_thresholds.py:210-232 | for distinct curves, `from_dict(to_dict(t))` gives back t's data, as written and corrected alike |
| ThresholdProps.SharedCurveDict | tools/ts_thresholds.py:175-219 | two variables A and B with equal curves are written as one key "A,B" |
| ThresholdProps.CompressAB | tools/ts_thresholds.py:175-189 | `__compress` joins A and B with equal curves into "A,B" |
| ThresholdProps.GroupAB | tools/ts_thresholds.py:175-189 | grouping joins A and B with equal curves into "A,B" |
| ThresholdProps.DictRoundTripAsWrittenLosesGroups | tools/ts_thresholds.py:229-232 | as written, reading back "A,B" yields variables ["A,B", "A,B"], and A then reads the default 0 instead of 1 |
| ThresholdProps.DictRoundTripKeepsGroups | tools/ts_thresholds.py:221-232 | corrected, reading back "A,B" restores A and B with their curve 1 |
| ThresholdProps.LoadLineNames | tools/ts_thresholds.py:191-208 | a parsed variable line adds its names, each with the curve parsed from that line, and keeps the earlier curves |
| ThresholdProps.LoadLinesNames | tools/ts_thresholds.py:191-208 | loading lines adds the names of the variable lines, in order |
| ThresholdProps.LoadLinesCurves | tools/ts_thresholds.py:194-208 | loading lines keeps the earlier curves, and each added name gets the curve of a line that declares it |
| ThresholdProps.LastValueIsLast | tools/ts_thresholds.py:194-204 | the value kept for a key is that of the last line with the key, and there is none iff no line has it |
| ThresholdProps.LoadLineFields | tools/ts_thresholds.py:197-204 | a line with key `minval`, `steps` or `*` sets that field from its value; other lines leave the field alone |
| ThresholdProps.LoadLinesFields | tools/ts_thresholds.py:194-204 | after loading lines, `minval`, `steps` and `*` hold the value of the last line with that key, or their old value when there is none |
| ThresholdProps.FromTextLoads | tools/ts_thresholds.py:191-208 | `from_str` into a new object loads exactly the declared names, each with the curve of a line that declares it, and `minval`, `steps` and `*` from their last lines (0, [] and [] without one) |
| TsThresholds.Thresholds.constructor | tools/ts_thresholds.py:64-97 | the new object holds the given table and the rounding and log functions |
| TsThresholds.Thresholds.SetMinval | tools/ts_thresholds.py:132-134 | only minval changes |
| TsThresholds.Thresholds.SetMode | tools/ts_thresholds.py:148-153 | the new state and outcome are those of WithMode |
| TsThresholds.Thresholds.SetDigits | tools/ts_thresholds.py:159-163 | the new state and outcome are those of WithDigits |
| TsThresholds.Thresholds.SetIncreaseFactor | tools/ts_thresholds.py:169-173 | the new state and outcome are those of WithIncreaseFactor |
| TsThresholds.Thresholds.AddVariable | tools/ts_thresholds.py:366-371 | the in-place edit equals AddVariable of the old table |
| TsThresholds.Thresholds.RemoveVariable | tools/ts_thresholds.py:373-380 | the in-place loop equals RemoveVariable of the old table |
| TsThresholds.Thresholds.SetThresholdValues | tools/ts_thresholds.py:273-281 | the in-place edit equals WithCurve of the old table |
| TsThresholds.Thresholds.SetItem | tools/ts_thresholds.py:111-113 | equals SetItem of the old table |
| TsThresholds.Thresholds.UpdateThreshold | tools/ts_thresholds.py:328-350 | the in-place update equals Update of the old table |
| TsThresholds.Thresholds.Retuned | tools/ts_thresholds.py:337-349 | the aliased curve loop equals Retune |
| TsThresholds.RaiseLoop | tools/ts_thresholds.py:348-349 | the loop raising the tail gives exactly RaiseFrom |
| TsThresholds.Thresholds.UpdateDefaultThresholds | tools/ts_thresholds.py:352-364 | the nested loop equals UpdateDefault of the old table |
| TsThresholds.Thresholds.SetThresholdsToZero | tools/ts_thresholds.py:263-271 | the loop equals Zeroed of the old table |
| TsThresholds.Thresholds.InsertStep | tools/ts_thresholds.py:382-394 | (corrected index) the in-place inserts equal InsertStep of the old table |
| TsThresholds.Thresholds.AddStep | tools/ts_thresholds.py:396-413 | (corrected index) the method equals AddStep of the old table |
| TsThresholds.Thresholds.LookupAll | tools/ts_thresholds.py:404-406 | reads every listed variable's threshold at the step |
| TsThresholds.Thresholds.UpdateAll | tools/ts_thresholds.py:409-411 | the loop equals UpdateEach of the old table |
| TsThresholds.Thresholds.RemoveStep | tools/ts_thresholds.py:415-424 | the in-place deletes equal RemoveStep of the old table |
| TsThresholds.Thresholds.Compress | tools/ts_thresholds.py:175-189 | the loop equals Compress of the fields |
| TsThresholds.Thresholds.ToDict | tools/ts_thresholds.py:210-219 | the loop equals ToDict of the table |
| TsThresholds.LookupSettings | tools/ts_thresholds.py:317-326 | a lookup depends on the curves and the mode, not on the other settings |
| TsThresholds.RetuneSettings | tools/ts_thresholds.py:337-349 | retuning depends on the steps, mode and factor only |
| TsThresholds.WithCurveUnchanged | tools/ts_thresholds.py:273-281 | writing back a variable's own curve changes nothing |
| TsThresholds.LoadDict | tools/ts_thresholds.py:221-232 | (corrected group keys) loading a dict into a fresh object equals FromDict |
| TsThresholds.ExpandLoop | tools/ts_thresholds.py:226-232 | (corrected group keys) the key loop of `from_dict` yields exactly the names and curves of Expand |
| TsThresholds.AppendGroup | tools/ts_thresholds.py:230-232 | (corrected group keys) one key appends each of its names, each with the key's curve |
| TsThresholds.LoadText | tools/ts_thresholds.py:191-208 | loading text into a fresh object equals FromText |
| YuprtestFile.ParseLine | tools/ts_yuprtest.py:72-90 | blank and `#` lines are skipped; any other line without 10 fields raises ValueError; a parsed record takes fields 0, 1, 2, 3, 6, 9 |
| YuprtestFile.Records | tools/ts_yuprtest.py:60-66 | at most one record per line |
| YuprtestFile.DataLines | tools/ts_yuprtest.py:60-66 | at most one raw line per line |
| YuprtestFile.ReadFromResult | tools/ts_yuprtest.py:55-70 | reading succeeds iff every line parses and skipped lines only precede the data; the result appends the data lines, the records and the header count |
| YuprtestFile.ReadResult | tools/ts_yuprtest.py:55-70 | the same for a whole file read from the start |
| YuprtestFile.SkippedAfterDataRaises | tools/ts_yuprtest.py:67-69 | a skipped line after a data line raises IOError |
| YuprtestFile.NoHeaderRaises | tools/ts_yuprtest.py:67-69 | once past the header, any skipped line raises IOError |
| YuprtestFile.SublineMembers | tools/ts_yuprtest.py:143-147 | `getSubline(S)` yields exactly the records whose step is in S |
| YuprtestFile.SublineAppend | tools/ts_yuprtest.py:143-147 | the subline keeps file order |
| YuprtestFile.SublineOfAllSteps | tools/ts_yuprtest.py:143-147 | with every step selected, the subline is the whole data |
| YuprtestFile.Names | tools/ts_yuprtest.py:113-115 | exactly the variable names of the records |
| YuprtestFile.StepsOf | tools/ts_yuprtest.py:117-119 | exactly the steps of the records |
| YuprtestFile.LevelsOf | tools/ts_yuprtest.py:121-123 | exactly the levels of the records |
| YuprtestFile.Yuprtest.constructor | tools/ts_yuprtest.py:43-50 | a new reader holds no data and starts at record 0 |
| YuprtestFile.Yuprtest.ReadData | tools/ts_yuprtest.py:55-70 | the read loop's new state is the one ReadFrom computes; on an exception the fields are unchanged |
| YuprtestFile.Yuprtest.Next | tools/ts_yuprtest.py:132-137 | `next` returns the current record and advances, or raises StopIteration at the end |
| YuprtestFile.Yuprtest.Variables | tools/ts_yuprtest.py:113-115 | the variable names, sorted and without duplicates |
| YuprtestFile.Yuprtest.Steps | tools/ts_yuprtest.py:117-119 | the steps, sorted and without duplicates |
| YuprtestFile.Yuprtest.Levels | tools/ts_yuprtest.py:121-123 | the levels, sorted and without duplicates |
| YuprtestCompare.Difference | tools/ts_yuprtest.py:205-212 | absolute when minval < 0, relative to ref when abs(ref) > minval, else 0; never negative |
| YuprtestCompare.Classify | tools/ts_yuprtest.py:219-224 | status 0 iff diff = 0, 1 iff 0 < diff <= thresh, 2 iff diff > thresh |
| YuprtestCompare.ClassifyMonotone | tools/ts_yuprtest.py:219-224 | a larger difference never gets a smaller status |
| YuprtestCompare.CompareValues | tools/ts_yuprtest.py:214-224 | compare mode: the difference, the looked-up threshold and the status; IndexError iff the table has no steps |
| YuprtestCompare.MinPosition | tools/ts_yuprtest.py:244 | `pos` names the first measurement with the smallest difference |
| YuprtestCompare.CompareEntry | tools/ts_yuprtest.py:230-245 | succeeds iff the keys match and the table has steps |
| YuprtestCompare.StatusOfLargest | tools/ts_yuprtest.py:242-243 | the maximum of the three statuses is the status of the maximum difference |
| YuprtestCompare.CompareEntryMeaning | tools/ts_yuprtest.py:230-245 | mismatched keys raise ValueError; the line's diff is the max of min/max/mean diffs, its status classifies that max, and pos is the smallest |
| YuprtestCompare.Find | tools/ts_yuprtest.py:266-269 | a bucket is found iff some entry has that name |
| YuprtestCompare.Store | tools/ts_yuprtest.py:266-269 | storing sets one name's bucket and leaves every other name's bucket alone |
| YuprtestCompare.UpdateStatus | tools/ts_yuprtest.py:247-269 | the step's status becomes the max of its old status and the line's; other steps are unchanged |
| YuprtestCompare.ConsiderRule | tools/ts_yuprtest.py:265-269 | a bucket is replaced only when the new status >= the stored one and the new ratio > the stored one |
| YuprtestCompare.UpdateStatusBuckets | tools/ts_yuprtest.py:259-269 | the line's variable is considered, and `*` too when the variable is not in the table; no other bucket changes |
| YuprtestCompare.CompareEntries | tools/ts_yuprtest.py:305-306 | zip compares records pairwise, up to the shorter sequence |
| YuprtestCompare.TabulateDone | tools/ts_yuprtest.py:305-308 | the loop completes iff every pair compares |
| YuprtestCompare.TabulateWorst | tools/ts_yuprtest.py:305-308 | each step's status is >= every line status of that step and every earlier status |
| YuprtestCompare.TabulateAttained | tools/ts_yuprtest.py:305-308 | each step's status is an earlier status or the status of one of its lines |
| YuprtestCompare.CompareRecordsDone | tools/ts_yuprtest.py:295-308 | the comparison of common steps completes iff the keys match pairwise and the table has steps (or nothing is paired) |
| YuprtestCompare.CompareEntriesSucceed | tools/ts_yuprtest.py:305-306 | every pair compares iff the keys match and the table has steps |
| YuprtestCompare.CompareRecordsCommon | tools/ts_yuprtest.py:301-305 | every step with a status is in both files |
| YuprtestCompare.CompareRecordsWorst | tools/ts_yuprtest.py:305-308 | each step's status is >= the status of every pair compared at that step |
| YuprtestCompare.FillNames | tools/ts_yuprtest.py:318-320 | every listed name gets a bucket and existing buckets are kept |
| YuprtestCompare.Fill | tools/ts_yuprtest.py:311-320 | filling adds no step |
| YuprtestCompare.UpdateValue | tools/ts_yuprtest.py:225-228 | update mode: a zero difference leaves the table alone; shape and settings are kept |
| YuprtestCompare.UpdateEntry | tools/ts_yuprtest.py:230-241 | update mode: mismatched keys raise ValueError and leave the table alone |
| YuprtestCompare.UpdateLines | tools/ts_yuprtest.py:332-334 | the update loop keeps shape and settings |
| YuprtestCompare.UpdateAllLines | tools/ts_yuprtest.py:327-337 | `update_thresholds` keeps the table well shaped |
| YuprtestCompare.UpdateValueNeverLowers | tools/ts_yuprtest.py:225-228 | one update never lowers any stored value |
| YuprtestCompare.UpdateEntryNeverLowers | tools/ts_yuprtest.py:230-241 | updating one entry never lowers any stored value |
| YuprtestCompare.UpdateLinesNeverLowers | tools/ts_yuprtest.py:332-334 | the update loop never lowers any stored value |
| YuprtestCompare.UpdateAllLinesNeverLowers | tools/ts_yuprtest.py:327-337 | `update_thresholds` never lowers any stored value |
| YuprtestCompare.PickWorst | tools/ts_yuprtest.py:281-289 | the reason candidate is the carried one or a non-`*` bucket of the step |
| YuprtestCompare.ReasonsAsWritten | tools/ts_yuprtest.py:275-292 | as written, one reason per common step |
| YuprtestCompare.Reasons | tools/ts_yuprtest.py:275-292 | corrected: one reason per step; a reason names a non-`*` bucket of its own FAIL step whose status is > 1 |
| YuprtestCompare.ReasonsAsWrittenFailStep | tools/ts_yuprtest.py:279-292 | as written, a FAIL step's reason is chosen with the candidate carried from earlier steps |
| YuprtestCompare.ReasonsFailStep | tools/ts_yuprtest.py:279-292 | corrected, a FAIL step's reason is chosen from its own buckets |
| YuprtestCompare.ReasonsAsWrittenNameEarlierStep | tools/ts_yuprtest.py:279-292 | as written, with two FAIL steps the second step's reason is an entry that belongs to the first step only |
| YuprtestCompare.ReasonsNameOwnStep | tools/ts_yuprtest.py:279-292 | corrected, each FAIL step names its own worst variable |
| YuprtestCompare.MaxStatus | tools/ts_yuprtest.py:310 | the max over a non-empty status dict |
| YuprtestCompare.Compare.constructor | tools/ts_yuprtest.py:194-199 | the comparator holds the two files and the table, with empty dicts |
| YuprtestCompare.Compare.CompareData | tools/ts_yuprtest.py:295-321 | fills status from the comparison of common steps and returns their max; raises as the entries do; ValueError when no step was compared; fills the missing buckets |
| YuprtestCompare.CompareLoop | tools/ts_yuprtest.py:295-308 | the loop over the paired records builds exactly the statuses, differences and outcome of CompareRecords |
| YuprtestCompare.FillLoop | tools/ts_yuprtest.py:311-320 | the filling loop gives exactly Fill |
| YuprtestCompare.Compare.UpdateValueOf | tools/ts_yuprtest.py:225-228 | the in-place update equals UpdateValue |
| YuprtestCompare.Compare.UpdateEntryOf | tools/ts_yuprtest.py:230-241 | the in-place update equals UpdateEntry |
| YuprtestCompare.Compare.UpdateThresholds | tools/ts_yuprtest.py:327-337 | the loop and the final default update equal UpdateAllLines; the status dicts are kept |
| YuprtestCompare.Compare.ResetThresholds | tools/ts_yuprtest.py:323-325 | the table becomes Zeroed of the old one |
| CompYuprtest.IsNotIntMeaning | tools/comp_yuprtest.py:328-343 | `is_not_int(x)` holds iff x is 0.0 or not integral |
| CompYuprtest.ColumnDiff | tools/comp_yuprtest.py:247-254 | absolute when minval is -1, relative to n1 when abs(n1) > minval, in both cases only for `is_not_int(n1)`; else 0; a zero n1 with negative minval raises ZeroDivisionError |
| CompYuprtest.WindowFails | tools/comp_yuprtest.py:205-211 | the tolerance loop raises iff some hit has no `tol_as[i+1]` |
| CompYuprtest.WindowPicksLastHit | tools/comp_yuprtest.py:205-211 | the tolerances become `tol_*[k+1]` for the last k with step >= nts[k] and k+1 < len(tol_ts) |
| CompYuprtest.WindowKeepsWithoutHit | tools/comp_yuprtest.py:205-211 | without a hit the tolerances are kept |
| CompYuprtest.WindowNonNegative | tools/comp_yuprtest.py:205-211 | non-negative tolerance lists give non-negative tolerances |
| CompYuprtest.SelectTolerance | tools/comp_yuprtest.py:205-211 | the loop equals Window |
| CompYuprtest.ColumnErrorsCount | tools/comp_yuprtest.py:241-300 | the column loop counts exactly the columns whose diff exceeds the tolerance |
| CompYuprtest.ColumnErrorsSelf | tools/comp_yuprtest.py:241-300 | a line compared with itself has no exceeding column |
| CompYuprtest.CompareColumns | tools/comp_yuprtest.py:241-300 | the column loop equals ColumnErrors |
| CompYuprtest.SkipHeader | tools/comp_yuprtest.py:113-124 | the first line whose first token is not `#`; every earlier line starts with `#`; running off the end raises IndexError |
| CompYuprtest.SkipComments | tools/comp_yuprtest.py:113-124 | the loop equals SkipHeader |
| CompYuprtest.Align | tools/comp_yuprtest.py:127-145 | an alignment found is a pair of cursors at lines with the same step |
| CompYuprtest.AlignFindsFirstCommonStep | tools/comp_yuprtest.py:127-145 | on files whose steps ascend, no pair of lines passed on the way to the alignment has equal steps |
| CompYuprtest.AlignSame | tools/comp_yuprtest.py:127-145 | a file aligned with itself stays where it is |
| CompYuprtest.AlignSteps | tools/comp_yuprtest.py:127-145 | the loop equals Align |
| CompYuprtest.Scan | tools/comp_yuprtest.py:153-305 | the main loop returns -1 or a count >= the errors so far |
| CompYuprtest.ScanSelf | tools/comp_yuprtest.py:153-305 | a file scanned against itself adds no error |
| CompYuprtest.Compare | tools/comp_yuprtest.py:18-315 | -1 for a missing file or a file of at most 4 lines; otherwise -1 or an error count |
| CompYuprtest.Cmp | tools/comp_yuprtest.py:18-315 | the loops equal Compare |
| CompYuprtest.ScanLines | tools/comp_yuprtest.py:153-305 | the line loop returns exactly Scan |
| CompYuprtest.SelfComparisonFindsNothing | tools/comp_yuprtest.py:18-315 | a file compared with itself yields -1 or 0 |
| CompYuchkdat.CheckStep | tools/comp_yuchkdat.py:96-105 | the step of a `Check` line is its last field when the one before holds `step:`, else 0; fewer than 2 fields raises |
| CompYuchkdat.PairDiff | tools/comp_yuchkdat.py:146-153 | ZeroDivisionError exactly when minval is negative but not -1 and both values are 0; otherwise a difference that is not negative |
| CompYuchkdat.PairDiffMeaning | tools/comp_yuchkdat.py:146-153 | absolute when minval is -1; relative to max(abs(n1), abs(n2)) and at most 2 when either exceeds minval; else 0; equal values give 0 |
| CompYuchkdat.LastColumnDiff | tools/comp_yuchkdat.py:142-153 | only the last real column's difference is kept |
| CompYuchkdat.EqualLastColumnsDiffZero | tools/comp_yuchkdat.py:142-153 | equal last columns give difference 0 |
| CompYuchkdat.LastDiff | tools/comp_yuchkdat.py:142-153 | the column loop equals LastColumnDiff |
| CompYuchkdat.Judge | tools/comp_yuchkdat.py:124-163 | a valid pair is counted; differing names stop the run; an error is counted iff the last diff exceeds tol |
| CompYuchkdat.BisectLeft | tools/comp_yuchkdat.py:108 | `bisect_left(nts, step)` is an index between 0 and len(nts) |
| CompYuchkdat.BisectLeftSorted | tools/comp_yuchkdat.py:108 | on a sorted list, everything before the bisection point is below x and the rest is at or above it |
| CompYuchkdat.TolIndex | tools/comp_yuchkdat.py:108-116 | the tolerance index is `bisect_left(nts, step)` clamped to the last tolerance |
| CompYuchkdat.TolIndexSorted | tools/comp_yuchkdat.py:108-116 | with enough tolerances, the index is the first breakpoint at or above the step |
| CompYuchkdat.Walk | tools/comp_yuchkdat.py:89-195 | the loop returns -1 or a count between the errors so far and that plus the lines left |
| CompYuchkdat.WalkCountBound | tools/comp_yuchkdat.py:89-195 | the count never exceeds the lines of the second file either |
| CompYuchkdat.NoValidLineIsMinusOne | tools/comp_yuchkdat.py:191-193 | without a valid line pair the result is -1 |
| CompYuchkdat.WalkSelf | tools/comp_yuchkdat.py:89-195 | a file walked against itself adds no error |
| CompYuchkdat.Compare | tools/comp_yuchkdat.py:18-195 | -1 for a missing file; otherwise -1 or a count of at most min(len1, len2) |
| CompYuchkdat.SelfComparisonFindsNothing | tools/comp_yuchkdat.py:18-195 | a file compared with itself yields -1 or 0 |
| CompYuchkdat.Cmp | tools/comp_yuchkdat.py:18-195 | the loop equals Compare |
| CompYuchkdat.WalkLines | tools/comp_yuchkdat.py:89-195 | the line loop returns exactly Walk |
| CompYuchkdat.JudgePair | tools/comp_yuchkdat.py:124-163 | judging one valid pair gives exactly Judge |
| TsYuchdat.StepLine | tools/ts_yuchdat.py:89-167 | one line: the table changes only with update set; the count grows by at most one |
| TsYuchdat.RunFrom | tools/ts_yuchdat.py:89-186 | the loop returns -1 or a bounded count; without update the table is unchanged |
| TsYuchdat.Run | tools/ts_yuchdat.py:18-186 | -1 for a missing file; IndexError for a table without steps; -1 or a count of at most the lines |
| TsYuchdat.StepLineNeverLowers | tools/ts_yuchdat.py:155-156 | an update never lowers a stored value |
| TsYuchdat.RunFromNeverLowers | tools/ts_yuchdat.py:89-167 | the loop never lowers a stored value |
| TsYuchdat.RunNeverLowers | tools/ts_yuchdat.py:18-186 | `compare` never lowers a stored value |
| TsYuchdat.StepLineSelf | tools/ts_yuchdat.py:89-167 | a line compared with itself counts nothing and leaves the table alone |
| TsYuchdat.RunFromSelf | tools/ts_yuchdat.py:89-186 | a file walked against itself counts nothing and leaves the table alone |
| TsYuchdat.SelfComparisonKeepsTable | tools/ts_yuchdat.py:18-186 | a file compared with itself yields -1 or 0 and leaves the table alone, even in update mode |
| TsYuchdat.CompareLine | tools/ts_yuchdat.py:89-167 | one iteration of the in-place loop equals StepLine |
| TsYuchdat.Compare | tools/ts_yuchdat.py:18-186 | the in-place loop equals Run, the table included |
| CompTable.Pattern | tools/comp_table.py:39 | column i is compared iff pattern character i is `c` |
| CompTable.RelDiff | tools/comp_table.py:79-82 | the difference is >= 0 and is 0 iff the values are equal |
| CompTable.RelDiffSymmetric | tools/comp_table.py:79-82 | the difference is symmetric |
| CompTable.Column | tools/comp_table.py:79-84 | a pair counts iff max magnitude > minval, and is an error iff it also exceeds the threshold |
| CompTable.Columns | tools/comp_table.py:75-84 | the column loop counts at most one comparison per column and never more errors than comparisons |
| CompTable.Lines | tools/comp_table.py:68-84 | the line loop never counts more errors than comparisons |
| CompTable.LineCount | tools/comp_table.py:62-64 | min(nd1, nd2), capped by maxcompline when it is positive |
| CompTable.TableDiff | tools/comp_table.py:18-117 | -1 for a missing or empty file; never below -2 |
| CompTable.ErrorsAtMostCompared | tools/comp_table.py:104-117 | -2 iff nothing was compared; otherwise the error count, which is <= the comparisons |
| CompTable.ColumnsSymmetric | tools/comp_table.py:75-84 | the column loop is symmetric in the two lines |
| CompTable.LinesSymmetric | tools/comp_table.py:68-84 | the line loop is symmetric in the two files |
| CompTable.Symmetric | tools/comp_table.py:18-117 | swapping the files gives the same result |
| CompTable.ColumnsSelf | tools/comp_table.py:75-84 | a line compared with itself has no error |
| CompTable.LinesSelf | tools/comp_table.py:68-84 | a file compared with itself has no error |
| CompTable.SelfComparisonFindsNothing | tools/comp_table.py:18-117 | a file compared with itself yields -2, -1 or 0 |
| CompTable.LinesPrefix | tools/comp_table.py:68-70 | only the first n lines matter |
| CompTable.MaxCompLineCuts | tools/comp_table.py:62-64 | a positive maxcompline is the same as truncating both files |
| CompTable.CmpTable | tools/comp_table.py:18-117 | the loops equal TableDiff |
| Filechecker.Status | tools/filechecker.py:87-127 | occurrence: 0 when found, 20 when missing; crash occurrence: 30 when missing; error: 20 when found; warning: always 0 |
| Filechecker.HitCount | tools/filechecker.py:52-66 | at most one hit per line |
| Filechecker.FirstHitLine | tools/filechecker.py:57-64 | the first hit line is within the text |
| Filechecker.HitCountPositive | tools/filechecker.py:52-66 | some hit iff the hit count is positive |
| Filechecker.FirstHitLineIsFirst | tools/filechecker.py:57-64 | the 1-based number of the first hitting line, or the line count when nothing hits |
| Filechecker.FirstHitLineAt | tools/filechecker.py:57-64 | the first hit at index k gives k+1 |
| Filechecker.Pattern.constructor | tools/filechecker.py:36-42 | a pattern of the given kind, description and search |
| Filechecker.Pattern.Match | tools/filechecker.py:44-66 | returns whether some line hits, and stores the hit count and first hit line |
| Filechecker.ScanLines | tools/filechecker.py:52-66 | the line loop finds whether the pattern hits, how often, and the first line it hits |
| Filechecker.Pattern.Check | tools/filechecker.py:79-85 | returns the kind's status for found or missing |
| Filechecker.Severest | tools/filechecker.py:159-169 | the result of `check_patterns` is never below the match code 0 |
| Filechecker.SeverestIsMax | tools/filechecker.py:159-169 | `check_patterns` is at least every pattern's result and equal to one of them, or 0 for none |
| Filechecker.MaxIntOf | tools/filechecker.py:167-168 | the larger of two results |
| Filechecker.SeverestZero | tools/filechecker.py:159-169 | 0 iff every occurrence is found and no error is found |
| Filechecker.WarningsNeverCount | tools/filechecker.py:113-122 | adding a warning pattern never changes the result |
| Filechecker.NoCrashWithoutCrashPattern | tools/filechecker.py:124-127 | without a crash pattern the result is 0 or 20 |
| Filechecker.LineWithErrorFails | tools/filechecker.py:196-221 | with the test patterns, a line holding ERROR gives 20 |
| Filechecker.LineWithoutOccurrenceFails | tools/filechecker.py:196-221 | with the test patterns, a line without OCCURRENCE gives 20 |
| Filechecker.FailingTexts | tools/filechecker.py:215-221 | the two failing texts of the tests give 20 |
| Filechecker.Specs | tools/filechecker.py:159-169 | one kind and search per pattern, in order |
| Filechecker.FileChecker.constructor | tools/filechecker.py:134-135 | the pattern list starts empty |
| Filechecker.FileChecker.AddPattern | tools/filechecker.py:151-153 | appends one pattern |
| Filechecker.FileChecker.AddPatternList | tools/filechecker.py:155-157 | appends the patterns in order |
| Filechecker.FileChecker.CheckPatterns | tools/filechecker.py:159-169 | the running max equals Severest, and every pattern was checked |
| Filechecker.FileChecker.Check | tools/filechecker.py:137-173 | as written: a readable log gives Severest and leaves every pattern checked against it; an unreadable one raises NameError and leaves the patterns unchanged |
| Filechecker.FileChecker.CheckOrCrash | tools/filechecker.py:137-173 | corrected: an unreadable log gives 30 (CRASH) and leaves the patterns unchanged; a readable one gives Severest and leaves every pattern checked against it |
| TsUtilities.DirPathAsWritten | tools/ts_utilities.py:29-36 | the path unchanged when the pattern `^(.*)[/]$` matches, else with `/` appended |
| TsUtilities.DirPathAsWrittenMissesSlash | tools/ts_utilities.py:31-36 | "a/\n" is returned without a trailing slash, and "a\n/" gains a slash on every call |
| TsUtilities.DirPath | tools/ts_utilities.py:29-36 | the result ends with `/`; a path ending in `/` is unchanged, any other gets exactly one `/` |
| TsUtilities.DirPathIdempotent | tools/ts_utilities.py:29-36 | decorating twice is decorating once |
| TsUtilities.DirPathAgrees | tools/ts_utilities.py:29-36 | on paths without newlines the regex and the corrected rule agree |
| TsUtilities.StatusStr | tools/ts_utilities.py:111-121 | UNKNOWN iff the code is not 0, 10, 15, 20 or 30 |
| TsUtilities.StatusStrInjective | tools/ts_utilities.py:111-121 | known codes have distinct names |
| TsUtilities.ColorCode | tools/ts_utilities.py:132-139 | green for 0 and 10, red for 20 and 30 |
| TsUtilities.PrettyStatusStr | tools/ts_utilities.py:124-148 | without color it is `status_str`; with color it is the name between an escape prefix carrying the bold flag and the reset sequence |
| TsUtilities.StrToBoolIgnoresCase | tools/ts_utilities.py:193-197 | the reading ignores case |
| TsUtilities.StrToBoolExamples | tools/ts_utilities.py:193-197 | Yes, TRUE and 1 read true; no, the empty string and 0 read false |
| TsTest.RunTest | tools/ts_test.py:106-114 | true without `only`; when true, `only` is "type," followed by exactly the name's length |
| TsTest.CommaKeyInjective | tools/ts_test.py:109 | "type,name" determines type and name when the type has no comma |
| TsTest.OnlySelectsOneTest | tools/ts_test.py:106-114 | one `only` value selects at most one test |
| TsTest.RefOutDir | tools/ts_test.py:56-69 | (corrected `dir_path`) ends with `/`; default is namelistdir; a `../` value lies under rundir, any other under basedir + "data/" |
| TsTest.DependDir | tools/ts_test.py:72-83 | present iff the node is; a `../` value is kept, any other lies under basedir + "/" |
| TsTest.DataDir | tools/ts_test.py:46-53 | (corrected `dir_path`) a data directory ends with `/` and lies under basedir + "data/" |
| TsTest.RunDir | tools/ts_test.py:48 | (corrected `dir_path`) the run directory ends with `/` and lies under basedir |
| TsTest.Directories | tools/ts_test.py:44-83 | (corrected `dir_path`) every directory but dependdir ends with `/`; input and namelist dirs lie under the data dir; refoutdir defaults to namelistdir |
| TsTest.DirectoriesAgree | tools/ts_test.py:44-83 | when no configured value holds a newline, the constructor with `dir_path` as written sets up exactly these directories |
| TsTest.RunDirAgrees | tools/ts_test.py:48 | on newline-free parts, the run directory is the same with either `dir_path` |
| TsTest.DataDirAgrees | tools/ts_test.py:46-53 | on newline-free parts, a data directory is the same with either `dir_path` |
| TsTest.RefOutDirAgrees | tools/ts_test.py:56-69 | on a newline-free value, the reference output directory is the same with either `dir_path` |
| TsTest.SplitsIsRectangle | tools/ts_test.py:520-522 | each pair multiplies to nxy |
| TsTest.DivisorPairs | tools/ts_test.py:518-522 | every pair is (i, nxy/i) for a divisor i |
| TsTest.DivisorPairsMembers | tools/ts_test.py:518-522 | (d, nxy/d) is listed iff d divides nxy |
| TsTest.AspectRatio | tools/ts_test.py:536-543 | ZeroDivisionError iff a side is 0; otherwise >= 1, and 1 iff the sides have equal magnitude |
| TsTest.AspectRatioSymmetric | tools/ts_test.py:536-543 | the aspect ratio is symmetric |
| TsTest.Ratio | tools/ts_test.py:525 | the sort key is the aspect ratio |
| TsTest.Insert | tools/ts_test.py:525 | a stable insertion keeps the elements |
| TsTest.InsertSorted | tools/ts_test.py:525 | a stable insertion keeps the list sorted by aspect ratio |
| TsTest.SortByRatio | tools/ts_test.py:525 | sorted by aspect ratio, and a permutation of the input |
| TsTest.SortHead | tools/ts_test.py:525 | the first element is the earliest one of least aspect ratio, as a stable sort gives |
| TsTest.InsertWithRatio | tools/ts_test.py:525 | an inserted decomposition lands ahead of every one of its own ratio |
| TsTest.SortStable | tools/ts_test.py:525 | the sort is stable: for every ratio, the decompositions of that ratio keep their input order |
| TsTest.Parallelizations | tools/ts_test.py:510-533 | ValueError iff nprocs - nprocio < 1; otherwise sorted by aspect ratio, and every pair divides nxy |
| TsTest.ParallelizationsComplete | tools/ts_test.py:518-522 | every divisor pair of nxy is listed |
| TsTest.DivisorPairsCount | tools/ts_test.py:518-522 | the loop collects each split with first side at most i exactly once, and nothing else |
| TsTest.DivisorPairsStep | tools/ts_test.py:518-522 | one loop step puts divisor i, if it divides nxy, ahead of the smaller ones |
| TsTest.ParallelizationsOnce | tools/ts_test.py:510-533 | each split of nxy is offered exactly once, and nothing else is offered |
| TsTest.SetParallelization | tools/ts_test.py:510-533 | the descending loop and the sort equal Parallelizations |
| TsTest.PickDecomposition | tools/ts_test.py:454-460 | skipped iff ap exceeds the list; `parlist[ap-1]` with Python's negative indices; IndexError below them |
| TsTest.FirstIsSquarest | tools/ts_test.py:518-525 | the first decomposition has the least aspect ratio |
| TsTest.SquareComesFirst | tools/ts_test.py:510-533 | when nxy = d*d, the first decomposition is (d, d) |
| TsTest.Decomposition144 | tests/regression/test_regression.py:274-281 | 144 processors give (12, 12) |
| TsTest.DivisorPairsOf14 | tools/ts_test.py:518-522 | the unsorted list for 14 is (14,1), (7,2), (2,7), (1,14) |
| TsTest.Decomposition16With2IO | tests/regression/test_regression.py:284-291 | 16 processors with 2 for I/O give (7, 2), since the stable sort keeps (7,2) before (2,7) |
| GenerateTestInput.MatchCount | tools/generate_test_input.py:76-79 | the count is at most the line count |
| GenerateTestInput.MatchCountZero | tools/generate_test_input.py:76-79 | the count is 0 iff no line holds the identifier |
| GenerateTestInput.Replaced | tools/generate_test_input.py:76-81 | the file keeps its number of lines |
| GenerateTestInput.ReplacedLines | tools/generate_test_input.py:76-81 | each line holding the identifier becomes the new line; every other line is kept in its place |
| GenerateTestInput.ReplaceLines | tools/generate_test_input.py:73-81 | the line loop builds exactly Replaced and counts exactly MatchCount |
| GenerateTestInput.EmptyKeyMatchesAll | tools/generate_test_input.py:77 | an identifier that strips to nothing matches every line |
| GenerateTestInput.SingleMatchChangesOneLine | tools/generate_test_input.py:77-90 | with exactly one match, exactly that line differs |
| GenerateTestInput.ReplacedIdempotent | tools/generate_test_input.py:76-81 | replacing twice is replacing once |
| GenerateTestInput.InputFile.constructor | tools/generate_test_input.py:73 | the file holds the given lines |
| GenerateTestInput.InputFile.ChangeLine | tools/generate_test_input.py:69-91 | returns the match count; rewrites the lines only when it is 1, else leaves them unchanged |

## Left out

- Files, printing and verbosity are not modelled: `open`, `readlines`, `os.path.exists`, every `print`, and `v_level`/`verbose` output. Files arrive as token lines, and a missing file is `None`.
- Tokens come pre-parsed: `float()`/`int()` of a token is an optional value, and NaN and infinite values are not modelled. As a result, the infinite branch of `isReal` and the `math.isnan` tests of the YUCHKDAT comparators do not appear. Python's `str.lower` is modelled on ASCII letters only, and `Strip` and `Words` (`str.strip`, `str.split`) treat only ASCII whitespace as whitespace, not the other Unicode whitespace characters Python also strips.
- Regular expressions are predicates. `Filechecker.Pattern` carries its search as a function from line to bool. `dir_path` spells out what its pattern matches. The refoutdir and depend patterns are prefix tests for `../`.
- Floating point is modelled as exact `real`, with no rounding error and no `1e-16` epsilon overflow effects. The `epsilon` of comp_table.py is kept in the formula.
- `__compute_threshold` rounds to one significant digit with `log10`/`floor`/`pow`/`ceil`. It is an uninterpreted `roundUp` of which only `roundUp(x) >= x` for `x > 0` is assumed, as a requirement of the lemmas that need it. Log-mode interpolation is an uninterpreted `logBlend`. `digits` is stored and validated but, as in the source, never used.
- ThresholdProps.AddThenRemoveStep: the source's test expects `add_step` then `removeStep` to give an equal table. The model proves only that the steps come back, that values below the insertion point are equal, and that no value is lowered. The update `add_step` performs raises any later value that is below the rounded-up new value, and removing the step does not undo that. An increasing curve can be affected too, because the new value is rounded up first: under the `const` rule a value of 0.15 becomes 0.2.
- ThresholdTable.InsertStep, ThresholdTable.AddStep, TsThresholds.Thresholds.InsertStep, TsThresholds.Thresholds.AddStep, ThresholdProps.AddStepShape, ThresholdProps.AddStepLifts and ThresholdProps.CurveAfterInsertStep: they insert at the corrected index `InsertPosition`, not at the index of `__insert_step` as written (`InsertPositionAsWritten`). `ThresholdTable.InsertPositionAgrees` shows that the two differ only on a table of one breakpoint with a later new step. There the source puts the new step in front and breaks the order (first row of Findings). These members promise nothing about that case as written.
- TsThresholds.LoadDict, TsThresholds.ExpandLoop and TsThresholds.AppendGroup: they follow the corrected `from_dict`, which appends each part `y` of a group key. Line 231 appends the whole key `x` (second row of Findings). `ThresholdProps.FromDictAgreesWithoutGroups` shows that the two load the same table when no key holds a comma. For group keys, these members do not describe the source.
- TsThresholds.LoadDict, ThresholdTable.SetItem and TsThresholds.Thresholds.SetItem: Python list aliasing is not modelled. Every curve is a value of its own. In the source, `from_dict` stores the same list `d[x]` for every member of a group. It also stores the caller's `d["*"]` and `d["steps"]` lists themselves, and `__setitem__` stores the caller's list. So in the source, `update_threshold` on one member of a loaded group changes every member of that group and the caller's dictionary too. `__insert_step` and `removeStep` then edit a shared list once per member, so the list gains or loses several entries. `_set_thresholds_to_zero` zeroes every list that shares storage with a zeroed one. The model describes a table whose curves are all distinct lists, as `from_str` builds it.
- ThresholdTable.Interpolate, ThresholdTable.Lookup, ThresholdTable.Update, ThresholdTable.AddStep and the YUPRTEST comparison built on them: log mode is the total `logBlend`. In the source, `math.log` of a threshold that is not positive raises ValueError (tools/ts_thresholds.py:304-305). The model does not raise that error.
- A `minval` of `None` is modelled as 0.0. `from_str`/`from_dict` are modelled as loading into a fresh object, so the stale `_thresholds` left by `from_str` do not appear. `to_str`/`__str__` text formatting (`%10.2e`) and `to_file`/`from_file` are not modelled beyond the parsing of lines.
- `Yuprtest`: the file name and the reading of the file are not modelled. `ReadData` takes the token lines, and on an exception the model leaves the object unchanged where Python keeps what was appended. `getline` is the `data` field.
- `Compare`: the constructor takes the loaded `Yuprtest` and `Thresholds` objects instead of file names. `_lineno` (used only in an error message) is not kept. In `print_results`, only the choice of the reason is modelled. The table layout, the `vals` lookup (a KeyError when a step has no bucket) and the status-name IndexError are not. The NaN buckets that `compare_data` adds are modelled as empty buckets.
- comp_yuprtest.py: `maxdiff_*`, `line*_*` and `lnum_*` feed only the printout and are not modelled. The error count is.
- comp_yuchkdat.py and ts_yuchdat.py: `maxdiff`, `maxdiff_line` and `maxdiff_step` feed only the printout. The NameError for `step` read before the first `Check` line is modelled.
- CompYuchkdat.Walk, CompYuchkdat.Compare, TsYuchdat.RunFrom and TsYuchdat.Run: at the end of a run with errors and verbosity 0, the source prints `line1`. `line1` is set only when a difference exceeds `maxdiff`. With a negative tolerance, a difference of 0 is counted as an error without ever setting `line1`, and that print raises UnboundLocalError. The model does not raise there.
- comp_table.py: the first-error record (`differ`, `linerr`, ...) feeds only the printout. `float(threshold)` and `float(minval)` argument errors are not modelled.
- filechecker.py: the multiline test text (first hit on line 11) is not restated. `FirstHitLineIsFirst` states the rule it checks.
- ts_utilities.py: `system_command`, `change_dir`, `write_environ` and `read_environ` are process and environment I/O and are not modelled.
- ts_test.py: `prepare`, `prerun`, `start`, `check`, `update_namelist`, `update_reference`, the executable path rule, the namelist edits and the fv3 branch (`nprocs/6`) are left out, because they call the shell, the file system and a namelist editor. The choice of `nprocio` before `set_parallelization` is left out too. `nxy/i` is a float under Python 3. It is modelled as the exact integer quotient, since `i` divides `nxy`.
- TsTest.Ratio: it returns 0.0 for a zero side where Python would raise. This never happens for divisor pairs, which are the only ones sorted.
- generate_test_input.py: `main()` copies files and loops over test settings, and is not modelled. `sys.exit()` on a count other than 1 is modelled as returning that count with the lines unchanged. The file is kept as its list of lines, so the re-splitting of the joined text on the next read is not modelled.
- Checkers, testsuite.py, the regression model, default_values.py and ts_error.py are not part of this model.

## Findings

| source | as written | input that shows it | evidently intended | confidence | as-written member | corrected member |
|---|---|---|---|---|---|---|
| tools/ts_thresholds.py:384-391 | `__insert_step` can insert a step before smaller breakpoints | a table with steps [3], then `add_step(5)`: the steps become [5, 3] | the new step goes before the first larger breakpoint, so the steps stay increasing | not executed | ThresholdProps.InsertAsWrittenBreaksOrder | ThresholdProps.InsertKeepsIncreasing |
| tools/ts_thresholds.py:229-232 | `from_dict` appends the joined key `x` for every member of a group | variables A and B with equal curves: `to_dict` writes "A,B", and reading it back gives variables ["A,B", "A,B"], so A reads the default | each member name `y` is appended with its own copy of the key's curve | not executed | ThresholdProps.DictRoundTripAsWrittenLosesGroups | ThresholdProps.DictRoundTripKeepsGroups |
| tools/ts_yuprtest.py:279-292 | `mmax` survives from one FAIL step to the next, so a later step's reason can name an earlier step's entry | two FAIL steps, A worse at step 1 and B the only entry at step 2: both reasons name A | each step's reason is chosen from that step's own buckets | not executed | YuprtestCompare.ReasonsAsWrittenNameEarlierStep | YuprtestCompare.ReasonsNameOwnStep |
| tools/filechecker.py:146-149 | `read_file` reads an undefined `verbose` when the log cannot be opened | a log file that cannot be opened: NameError instead of CRASH | `check` returns 30 (CRASH): the crash code must bypass `check_patterns` | not executed | Filechecker.FileChecker.Check | Filechecker.FileChecker.CheckOrCrash |
| tools/ts_utilities.py:31-36 | `dir_path`'s `$` also matches before a final newline, and `.` does not match a newline | "a/\n" stays without a trailing `/`; "a\n/" gains a `/` on every call | append `/` iff the path does not end with one | not executed | TsUtilities.DirPathAsWrittenMissesSlash | TsUtilities.DirPath |
