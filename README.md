# Differential pulse voltammetry analysis — a Dafny model

This project models the two driver scripts of a differential pulse
voltammetry (DPV) analysis: `dpvAnalysis.py` and `mainProtocol.py`.

Each data file holds a potential sweep and the current measured at each
potential. The scripts process it in four steps:

1. Cull the trace to a potential window.
2. Decide whether the scan is reductive or oxidative.
3. Subtract a baseline.
4. Report the peak current (Ip) and the peak potential (Vp).

`dpvAnalysis.py` then builds two peak-current series from the file names.
The numbers found in a name give a concentration and a time point. A first
pass builds the concentration plot and a second pass the time plot.
`mainProtocol.py` checks that exactly one analysis protocol is selected. It
sizes the subplot grid and analyses the files one by one. It records one
`analysisInfo` entry and one `peakInfo` entry per file.

Modules:

- `Common` (`common.dfy`): the error outcomes the scripts can end in, Python's
  `in` on strings, and `split("-")[0]`.
- `Window` (`window.dfy`): numpy boolean-mask filtering. It covers the fixed
  window cull of `dpvAnalysis.py` and the optional-bounds cull of
  `mainProtocol.py`.
- `Scan` (`scan.dfy`): the reductive-scan test.
- `Peak` (`peak.dfy`): baseline subtraction, `abs(...).argmax()`, and numpy
  integer-array indexing of the peak lists, including negative indices.
- `DpvFile` (`dpv_file.dfy`): one file on the linear-fit branch of
  `dpvAnalysis.py`.
- `Series` (`series.dfy`): how file-name numbers are read, and the two
  series loops. Each loop is an imperative method proved equal to a closed
  form.
- `Run` (`run.dfy`): the `mainProtocol.py` run. The protocol assertion, the
  grid, the per-file analysis and the accumulation loop are proved equal to
  a closed form.

Currents and potentials are `real`. Several things are taken as
parameters:

- The baseline fitters, the smoothing filter and the two dpvProtocols
  protocols are code outside this model.
- The numbers extracted from each file name are given with the file.
- The files come in the scripts' sorted order.

Every way a script stops early is an `Err` outcome:

- `sys.exit`.
- A failed `assert`.
- Python's `NameError` and `ZeroDivisionError`.
- numpy's `IndexError`, and its errors for a mismatched length or an empty
  argmax.

Places where the code and its comments or documentation differ follow the
code:

- In the second file-name loop of `dpvAnalysis.py`, `sys.exit` is named but
  not called. A name with an unusable number count therefore does not stop
  the run. The loop carries on with the concentration and time point
  assigned before it. If nothing was assigned yet, the `print` on the next
  line raises a `NameError`.
- In `mainProtocol.py` the CHI-peaks protocol never assigns
  `baselineCurrent`. So the plot call at line 122 raises a `NameError`, and
  no run with that protocol completes.
- The `'f 0 min'` reset in the first loop of `dpvAnalysis.py` can never run.
  Every such name also contains `' 0 min'` and was skipped already.

## Model

| member | source | states |
|---|---|---|
| Common.FirstFieldIsPrefixBeforeDash | dpvAnalysis.py:240 | the legend `filename.split("-")[0]` is a prefix of the name with no '-', ending at the name's end or its first '-' |
| Window.Filter | mainProtocol.py:97-98 | boolean-mask indexing keeps one element per true mask position |
| Window.FilterElements | mainProtocol.py:97-98 | the k-th kept element is the element at the k-th true position, so order is kept |
| Window.Cull | dpvAnalysis.py:108-109 | current and potential are both filtered with the mask of the unculled potential; they stay paired and in order, and every kept potential lies in the closed window |
| Window.CullKeepsExactlyWindow | dpvAnalysis.py:108-109 | a sample is kept if and only if minPotentialCut <= potential <= maxPotentialCut, inclusive at both ends |
| Window.CullIdempotent | dpvAnalysis.py:108-109 | culling a culled trace with the same window changes nothing |
| Window.Limit | mainProtocol.py:97-98 | `bound or ±inf`: a missing bound and a bound of 0 both impose no limit; any other bound is kept |
| Window.CullBounds | mainProtocol.py:97-98 | current and potential are both filtered with the mask of the unculled potential; the results are paired, in order, and within the bounds |
| Window.ZeroBoundIsUnbounded | mainProtocol.py:97-98 | a bound of 0 culls exactly what a missing bound culls, on either side |
| Window.UnboundedKeepsAll | mainProtocol.py:97-98 | with both bounds missing (or 0) the trace is unchanged |
| Window.NonZeroBoundsAreWindow | mainProtocol.py:97-98 | two non-zero bounds cull exactly as the fixed inclusive window of dpvAnalysis.py |
| Scan.CountNegative | dpvAnalysis.py:112 | `numNeg` is at most the number of samples; CountIsNegativePositions identifies it with the set of negative positions |
| Scan.IsReductive | dpvAnalysis.py:113 | `numNeg > len(current)/2` in true division holds exactly when twice `numNeg` exceeds the length; a reductive trace is non-empty and has a negative sample |
| Scan.CountIsNegativePositions | dpvAnalysis.py:112 | the generator sum counts exactly the positions with a strictly negative current |
| Scan.ReductiveIffStrictMajority | dpvAnalysis.py:112-113 | reductive if and only if twice the number of negative samples exceeds the length |
| Scan.NonNegativeIsOxidative | dpvAnalysis.py:112-113 | zero counts as non-negative: a trace with no negative sample, including the empty trace, is oxidative |
| Scan.AllNegativeIsReductive | dpvAnalysis.py:112-113 | a non-empty all-negative trace is reductive |
| Scan.MirrorOfReductiveIsOxidative | dpvAnalysis.py:112-113 | ties go to oxidative, so a trace and its sign-flipped mirror are never both reductive |
| Peak.Subtract | dpvAnalysis.py:141 | `current - baseline` has the current's length and adding the baseline back restores the current |
| Peak.SubtractSignalItself | dpvAnalysis.py:141 | subtracting the signal from itself leaves zeros |
| Peak.FirstMaxAbs | dpvAnalysis.py:143 | `abs(x).argmax()` is an index whose magnitude no sample exceeds, and every earlier sample is strictly smaller |
| Peak.PickPeak | dpvAnalysis.py:141-145 | peakInd is the first index maximising the subtracted magnitude; Ip is the signed subtracted current there and Vp the potential there; a baseline of another length and an empty trace are errors |
| Peak.FlatPickIsFirstSample | dpvAnalysis.py:143-145 | with the signal as its own baseline, the pick is index 0 with Ip 0 |
| Peak.NumpyIndex | mainProtocol.py:116-117 | an integer index reads position i, or i + n when negative, and is an IndexError outside [-n, n) |
| Peak.Gather | mainProtocol.py:116 | fancy indexing succeeds exactly when every index is in range; the k-th value is read at the k-th index; otherwise it fails with an offending index |
| Peak.PeakLookup | mainProtocol.py:116-117 | both peak lists have the length of peakIndices; `peakCurrents[k]` is the subtracted current and `peakPotentials[k]` the potential at the position numpy reads for `peakIndices[k]`, counted from the end when negative |
| Peak.LookupAgreesWithPick | mainProtocol.py:116-117 | looking up dpvAnalysis.py's single peak index the mainProtocol.py way gives the same Ip and Vp |
| DpvFile.AnalyseLinear | dpvAnalysis.py:108-145 | a file on the linear-fit branch: window cull, scan test on the culled current, fitter called with that direction, then the peak pick; the peak potential lies in the window; arrays of different lengths fail |
| DpvFile.NothingInWindowFails | dpvAnalysis.py:108-145 | a file with no sample in the window never yields a peak |
| DpvFile.PeakIsCulledSample | dpvAnalysis.py:108-145 | the reported Vp and Ip are read at an original sample that survived the cull, and no subtracted magnitude exceeds Ip's |
| Series.Interpret | dpvAnalysis.py:212-223 | one number gives concentration 0 and that time point; two give (first, second); three give (first, third); any other count has no reading |
| Series.FreshNameHasZeroMin | dpvAnalysis.py:230-233 | every name containing 'f 0 min' contains ' 0 min', so the reset branch of the first loop is unreachable |
| Series.SurvivorsAreUnmarkedFiles | dpvAnalysis.py:205-207 | the first loop keeps exactly the names without ' 0 min', in their sorted order |
| Series.ParsedEntriesMeaning | dpvAnalysis.py:210-237 | the first pass succeeds exactly when every kept name has a reading; each entry is that file's point and Ip; otherwise it stops at the first kept name without one |
| Series.ConcentrationStopsAt | dpvAnalysis.py:221-223 | a kept name with an unusable count ends the whole pass with its error |
| Series.ConcentrationAppends | dpvAnalysis.py:234-242 | a kept name with a reading appends one entry to each list and its legend |
| Series.ConcentrationFoldIsPass | dpvAnalysis.py:205-243 | performed one name at a time (skip a ' 0 min' name, stop at a kept name without a reading, otherwise append its entry and legend), the first pass equals its closed form |
| Series.ConcentrationLoop | dpvAnalysis.py:205-243 | the loop's lists, legend and last point equal those of the closed-form first pass, or its error |
| Series.ConcentrationPassAppendsOncePerSurvivor | dpvAnalysis.py:205-243 | the three lists stay equal in length, one entry per kept file in order, holding that file's reading and Ip |
| Series.CarriedPointNeverFails | dpvAnalysis.py:273-276 | with a point assigned before it, the second pass never stops |
| Series.EffectiveEntryAt | dpvAnalysis.py:260-279 | each file contributes its Ip and its own point when the name has a reading, and the point before it otherwise |
| Series.EffectiveEntriesFailure | dpvAnalysis.py:273-276 | the second pass fails only with nothing assigned before it, at a name that no name with a reading precedes |
| Series.EffectiveEntriesFailsAtFirstName | dpvAnalysis.py:273-276 | a failing second pass fails at the first name, with its NameError |
| Series.TimeStopsAt | dpvAnalysis.py:273-276 | a name without a reading and with no point assigned ends the pass with a NameError |
| Series.TimeAdvances | dpvAnalysis.py:282-294 | a ' 0 min' name resets the three lists to its one entry; any other name appends one entry and its legend |
| Series.TimeFoldIsPass | dpvAnalysis.py:258-294 | performed one name at a time (assign or keep the point, stop with a NameError when none is assigned, then reset or append), the second pass equals its closed form, and the point left assigned is that of its last entry |
| Series.TimeLoop | dpvAnalysis.py:258-294 | the loop's lists and legend equal those of the closed-form second pass, starting from the lists and point it is given |
| Series.TimePassKeepsListsAligned | dpvAnalysis.py:282-289 | the second pass keeps the three lists equal in length |
| Series.TimePassStartsAtLastReset | dpvAnalysis.py:282-289 | after the last ' 0 min' name the lists hold exactly that file's entry and those after it |
| Series.TimePassContinuesStart | dpvAnalysis.py:286-289 | without a ' 0 min' name the pass continues the lists it started from, one entry per file |
| Series.EffectiveIsParsed | dpvAnalysis.py:262-276 | when every name has a reading, both passes read the same entries |
| Series.AsWrittenRepeatsEveryFile | dpvAnalysis.py:258-289 | as written, a batch without ' 0 min' names lists every file twice in the time plot |
| Series.AsWrittenSingleFileExample | dpvAnalysis.py:258-289 | as written, the single file "T5" gives the time list [5, 5] |
| Series.TimeSeriesHasEveryFileOnce | dpvAnalysis.py:258-289 | with the lists emptied before the second pass, such a batch lists every file exactly once, as in the first pass |
| Series.TimeSeriesAsWritten | dpvAnalysis.py:203-294 | the two passes in sequence as written: a failing first pass ends the script with its error; the legend is rebuilt from empty, one per name without ' 0 min'; the time lists hold at most the first pass's entries plus one per file (for a batch without ' 0 min' names AsWrittenRepeatsEveryFile gives them exactly; otherwise TimePassStartsAtLastReset with EffectiveEntryAt does) |
| Series.TimeSeries | dpvAnalysis.py:203-294 | the passes as evidently intended, with the lists emptied before the second: the same error and legend; the lists stay aligned and hold at most one entry per file (for a batch without ' 0 min' names TimeSeriesHasEveryFileOnce gives them exactly; otherwise TimePassStartsAtLastReset with EffectiveEntryAt does) |
| Run.SelectProtocol | mainProtocol.py:52 | the run proceeds exactly when one of the three flags is set, with the protocol of that flag; otherwise the assertion fails with the flag count |
| Run.SelectProtocolIsFlagsInverse | mainProtocol.py:52 | each protocol is selected by exactly one flag setting |
| Run.CeilDiv | mainProtocol.py:74 | `math.ceil(n / c)` is the least q with q * c >= n |
| Run.GridShape | mainProtocol.py:72-74 | the grid has min(files, numSubPlotsX) columns and the fewest rows that hold every file; with no files the division fails |
| Run.GridHasCellForEveryFile | mainProtocol.py:72-74 | filled row by row, the k-th file has a cell in the grid |
| Run.ProtocolFit | mainProtocol.py:105-112 | the baseline-subtraction flag runs that protocol and the linear-fit flag the linear fit, each on the smoothed current and the culled potential; the CHI protocol produces no fit |
| Run.AnalyseFile | mainProtocol.py:88-126 | arrays of different lengths fail the cull; the CHI protocol fails with the unassigned baseline |
| Run.AnalyseFileMeaning | mainProtocol.py:95-117 | a completed file analysis stores the bounded, paired culled trace and the smoothed current; the protocol was fed those, and the peaks were read at its indices; it completes exactly when every index is in range for both arrays |
| Run.AnalyseAllMeaning | mainProtocol.py:83-136 | the files succeed exactly when each does; then both lists have one entry per file, the k-th being the k-th file's analysis; otherwise the first failing file's error |
| Run.RunAll | mainProtocol.py:52-136 | the closed-form run: a failed protocol assertion is reported before anything else; with no files the grid division fails next; a completed run has one analysis and one peak entry per file (RunRecordsEveryFile gives their contents) |
| Run.Analyse | mainProtocol.py:52-136 | the run loop returns what the closed-form run gives: the protocol check, then the grid, then the per-file lists or the first error |
| Run.RunRecordsEveryFile | mainProtocol.py:125-136 | a completed run has len(peakInfo) == len(analysisInfo) == number of files, each entry that file's analysis, and a grid that holds them all |
| Run.ChiPeaksNeverCompletes | mainProtocol.py:115-122 | no run with only the CHI flag set completes |
| Run.NoFilesFails | mainProtocol.py:72-74 | an empty batch stops before the loop, at the protocol assertion or the grid division |

## Left out

- File discovery, reading and sorting are left out. This covers
  `excelProcessing`, `natsorted` and `sorted(data.keys())`. Files arrive
  already read and in sorted order. Duplicate file names, which collapse
  into one `data` key, are not modelled.
- The regex tokenising and `float` conversion of file-name digits are left
  out. Each sample carries the list of numbers extracted from its name.
- Current scaling by `10**6` is plain multiplication. Currents are taken as
  already scaled.
- The smoothing filter, the baseline fitters and the dpvProtocols protocols
  are left out: `savgol_filter`, `calculateBaseline.bestLinearFit`,
  `useLinearFit` and `useBaselineSubtraction`. They are foreign code, so
  they are parameters. Their own failures are not modelled, such as
  `savgol_filter` on fewer than 7 samples.
- Run.ProtocolFit: the protocols take the arguments `mainProtocol.py`
  passes. Line 109 passes `(current, potential)` to the linear fit. Line
  106 passes `(current, potential, polynomialOrder)` to baseline
  subtraction, where `polynomialOrder` is the constant 3 set at line 56.
  The model's two-argument `baselineSubtraction` parameter stands for that
  protocol with the order 3 already applied.
  `Helper Files/Biolectric Protocols/dpvAnalysis.py` declares one more
  parameter (`reductiveScale`) for each protocol, so that pairing of
  caller and helper would raise a `TypeError`. That helper version is not
  part of this model.
- Several branches of `dpvAnalysis.py`'s per-file loop are left out: the
  polynomial-subtraction branch (lines 117-134, `UnivariateSpline` and
  `find_peaks`), the CHI branch and the `data` dictionary. These are
  foreign numerics or plotting inputs. The series loops take each file's Ip
  as given.
- DpvFile.AnalyseLinear: the per-file `for` loop of `dpvAnalysis.py` is
  modelled one file at a time, not as a loop.
- Plotting, figure handling, Excel output, `os.makedirs` and console output
  are left out. So is the catch-all `try`/`except` at `mainProtocol.py`
  lines 144-157. These are I/O.
- Floating-point behaviour is not modelled: NaN, rounding, and Python's
  float division in the grid and the reductive test. Values are exact
  reals.
- Peak.PickPeak: numpy broadcasting of a length-1 operand is not
  modelled. A baseline of any length other than the current's is treated
  as an error.
- Run.AnalyseFile: in `mainProtocol.py` the subtraction happens inside the
  protocol, so the driver stores the protocol's baseline and subtracted
  current as returned, whatever their lengths. The model does the same and
  checks only the peak indices against the arrays they index.
- The unreachable `elif not useCHIPeaks: sys.exit(...)` at
  `mainProtocol.py` lines 111-112 is not modelled separately. After the
  assertion at line 52, some protocol flag is always set.

## Findings

| source | as written | input that shows it | evidently intended | confidence | as-written member | corrected member |
|---|---|---|---|---|---|---|
| dpvAnalysis.py:258-289 | `time`, `current` and `Molarity` are not emptied before the time loop; only `legendList` is | one file named "T5" (number 5, Ip 2) and no " 0 min" file: the time list becomes [5, 5] | the time plot starts from empty lists, one entry per file | medium, not executed | Series.AsWrittenSingleFileExample | Series.TimeSeriesHasEveryFileOnce |
