/** The driver of mainProtocol.py: check that exactly one analysis protocol
    is selected, size the subplot grid from the number of files, then
    analyse the files one by one, appending one `analysisInfo` entry and one
    `peakInfo` entry per file. The smoothing filter and the two baseline
    protocols are code outside this model and are taken as parameters. */
module Run {
  import opened Common
  import opened Window
  import opened Peak

  // ---------------------------------------------------------------------
  // Protocol selection (mainProtocol.py line 52)

  datatype Protocol = ChiPeaks | LinearFit | BaselineSubtraction

  /** `sum((useCHIPeaks, useLinearFit, useBaselineSubtraction))` */
  function FlagCount(useCHIPeaks: bool, useLinearFit: bool, useBaselineSubtraction: bool): nat
  {
    (if useCHIPeaks then 1 else 0) + (if useLinearFit then 1 else 0) + (if useBaselineSubtraction then 1 else 0)
  }

  /** The assertion admits exactly one flag; the protocol is the one whose
      flag is set. */
  function SelectProtocol(useCHIPeaks: bool, useLinearFit: bool, useBaselineSubtraction: bool): (r: Result<Protocol>)
    ensures r.Ok? <==> FlagCount(useCHIPeaks, useLinearFit, useBaselineSubtraction) == 1
    ensures r.Err? ==> r.error == ProtocolCount(FlagCount(useCHIPeaks, useLinearFit, useBaselineSubtraction))
    ensures r.Ok? ==>
      && (r.value == ChiPeaks <==> useCHIPeaks)
      && (r.value == LinearFit <==> useLinearFit)
      && (r.value == BaselineSubtraction <==> useBaselineSubtraction)
  {
    var n := FlagCount(useCHIPeaks, useLinearFit, useBaselineSubtraction);
    if n != 1 then Err(ProtocolCount(n))
    else if useBaselineSubtraction then Ok(BaselineSubtraction)
    else if useLinearFit then Ok(LinearFit)
    else Ok(ChiPeaks)
  }

  /** The flag settings that select a protocol. */
  function Flags(p: Protocol): (bool, bool, bool)
  {
    (p == ChiPeaks, p == LinearFit, p == BaselineSubtraction)
  }

  /** Each protocol has exactly one admissible flag setting. */
  lemma SelectProtocolIsFlagsInverse(useCHIPeaks: bool, useLinearFit: bool, useBaselineSubtraction: bool, p: Protocol)
    ensures SelectProtocol(useCHIPeaks, useLinearFit, useBaselineSubtraction) == Ok(p) <==>
      (useCHIPeaks, useLinearFit, useBaselineSubtraction) == Flags(p)
  {
  }

  // ---------------------------------------------------------------------
  // Subplot grid (mainProtocol.py lines 72-74, dpvAnalysis.py lines 90-91)

  /** numSubPlotsX of mainProtocol.py. */
  const SubPlotsPerRow: nat := 3

  datatype Grid = Grid(rows: nat, columns: nat)

  /** `ceil(n / c)` for c > 0, as Python's true division followed by
      `math.ceil` gives it for file counts. */
  function CeilDiv(n: nat, c: nat): (q: nat)
    requires c > 0
    ensures q * c >= n
    ensures (q - 1) * c < n
  {
    var q := (n + c - 1) / c;
    assert n + c - 1 == q * c + (n + c - 1) % c;
    q
  }

  /** The column count is capped by the number of files, and the row count
      is the fewest rows of that width that hold every file. With no files
      (or no columns) the division fails. */
  function GridShape(fileCount: nat, maxColumns: nat): (r: Result<Grid>)
    ensures r.Err? <==> fileCount == 0 || maxColumns == 0
    ensures r.Err? ==> r.error == DivisionByZero
    ensures r.Ok? ==>
      && r.value.columns == (if fileCount < maxColumns then fileCount else maxColumns)
      && r.value.rows * r.value.columns >= fileCount
      && (r.value.rows - 1) * r.value.columns < fileCount
  {
    var columns := if fileCount < maxColumns then fileCount else maxColumns;
    if columns == 0 then Err(DivisionByZero)
    else Ok(Grid(CeilDiv(fileCount, columns), columns))
  }

  /** Filling the grid row by row, the k-th file lands on a cell of it. */
  lemma GridHasCellForEveryFile(fileCount: nat, maxColumns: nat, k: nat)
    requires GridShape(fileCount, maxColumns).Ok? && k < fileCount
    ensures var g := GridShape(fileCount, maxColumns).value;
      k / g.columns < g.rows && k % g.columns < g.columns
  {
    var g := GridShape(fileCount, maxColumns).value;
    var row := k / g.columns;
    assert k == row * g.columns + k % g.columns;
    if row >= g.rows {
      MulMonotone(g.rows, row, g.columns);
    }
  }

  lemma MulMonotone(a: nat, b: nat, c: nat)
    requires a <= b
    ensures a * c <= b * c
  {
  }

  // ---------------------------------------------------------------------
  // One file (mainProtocol.py lines 88-126)

  /** The output of a baseline protocol: the baseline, the subtracted
      current and the peak indices. */
  datatype Fit = Fit(baseline: seq<real>, subtracted: seq<real>, peakIndices: seq<int>)

  /** The code the driver calls but this model does not contain: the
      potential bounds, `savgol_filter` and the two protocols of
      dpvProtocols, each called with the smoothed current and the potential.
      The baseline-subtraction protocol is also passed `polynomialOrder`,
      fixed at 3 when that protocol is selected; `baselineSubtraction` stands
      for the protocol with that order already applied. */
  datatype Config = Config(
    lower: Option<real>, upper: Option<real>,
    smooth: seq<real> -> seq<real>,
    linearFit: (seq<real>, seq<real>) -> Fit,
    baselineSubtraction: (seq<real>, seq<real>) -> Fit)

  /** One data file as read in: its name, potential and (scaled) current. */
  datatype DataFile = DataFile(name: string, potential: seq<real>, current: seq<real>)

  /** `[potential, unfilteredCurrent, current, baselineCurrent, baselineSubtractedCurrent]` */
  datatype AnalysisEntry = AnalysisEntry(
    potential: seq<real>, unfilteredCurrent: seq<real>, current: seq<real>,
    baseline: seq<real>, subtracted: seq<real>)

  /** The protocol's output for the smoothed current, in the order of the
      `if`/`elif` chain. The CHI protocol computes no baseline. */
  function ProtocolFit(p: Protocol, config: Config, current: seq<real>, potential: seq<real>): (r: Option<Fit>)
    ensures r.None? <==> p == ChiPeaks
    ensures p == LinearFit ==> r == Some(config.linearFit(current, potential))
    ensures p == BaselineSubtraction ==> r == Some(config.baselineSubtraction(current, potential))
  {
    match p
    case BaselineSubtraction => Some(config.baselineSubtraction(current, potential))
    case LinearFit => Some(config.linearFit(current, potential))
    case ChiPeaks => None
  }

  /** Cull by the bounds, smooth, run the protocol and look the peaks up.
      With the CHI protocol `baselineCurrent` is never assigned, so the plot
      call raises a NameError. */
  function AnalyseFile(f: DataFile, p: Protocol, config: Config): (r: Result<(AnalysisEntry, PeakLists)>)
    ensures |f.potential| != |f.current| ==> r == Err(LengthMismatch)
    ensures |f.potential| == |f.current| && p == ChiPeaks ==> r == Err(UndefinedBaseline)
  {
    if |f.potential| != |f.current| then Err(LengthMismatch)
    else
      var culled := CullBounds(Trace(f.potential, f.current), config.lower, config.upper);
      var current := config.smooth(culled.current);
      match ProtocolFit(p, config, current, culled.potential)
      case None => Err(UndefinedBaseline)
      case Some(fit) =>
        match PeakLookup(culled.potential, fit.subtracted, fit.peakIndices)
        case Err(e) => Err(e)
        case Ok(peaks) =>
          Ok((AnalysisEntry(culled.potential, culled.current, current, fit.baseline, fit.subtracted), peaks))
  }

  /** A completed analysis of a file: the stored potential and unfiltered
      current are the original pairs whose potential lies within the bounds,
      in order; the smoothed current is the filter applied to the culled
      current; the selected protocol was given the smoothed current and the
      culled potential; and each peak is read at its index (counted from the
      end when negative) in the subtracted current and the culled
      potential. The analysis completes exactly when the arrays match and
      every peak index is in range for both arrays. */
  lemma AnalyseFileMeaning(f: DataFile, p: Protocol, config: Config)
    ensures var r := AnalyseFile(f, p, config);
      r.Ok? ==>
        var (entry, peaks) := r.value;
        var kept := KeptIndices(BoundsMask(f.potential, config.lower, config.upper));
        var fit := ProtocolFit(p, config, entry.current, entry.potential);
        && |f.potential| == |f.current|
        && |entry.potential| == |entry.unfilteredCurrent| == |kept|
        && (forall k :: 0 <= k < |kept| ==>
              && entry.potential[k] == f.potential[kept[k]]
              && entry.unfilteredCurrent[k] == f.current[kept[k]]
              && WithinBounds(entry.potential[k], config.lower, config.upper))
        && entry.current == config.smooth(entry.unfilteredCurrent)
        && fit == Some(Fit(entry.baseline, entry.subtracted, fit.value.peakIndices))
        && |peaks.peakCurrents| == |peaks.peakPotentials| == |fit.value.peakIndices|
        && (forall k :: 0 <= k < |fit.value.peakIndices| ==>
              && peaks.peakCurrents[k] == entry.subtracted[NumpyIndex(|entry.subtracted|, fit.value.peakIndices[k]).value]
              && peaks.peakPotentials[k] == entry.potential[NumpyIndex(|entry.potential|, fit.value.peakIndices[k]).value])
    ensures var r := AnalyseFile(f, p, config);
      |f.potential| == |f.current| && p != ChiPeaks ==>
        var culled := CullBounds(Trace(f.potential, f.current), config.lower, config.upper);
        var fit := ProtocolFit(p, config, config.smooth(culled.current), culled.potential).value;
        (r.Ok? <==> AllInRange(|fit.subtracted|, fit.peakIndices) && AllInRange(|culled.potential|, fit.peakIndices))
  {
    var r := AnalyseFile(f, p, config);
    if r.Ok? {
      var culled := CullBounds(Trace(f.potential, f.current), config.lower, config.upper);
      var fit := ProtocolFit(p, config, config.smooth(culled.current), culled.potential).value;
      var subtracted := Gather(fit.subtracted, fit.peakIndices);
      var potentials := Gather(culled.potential, fit.peakIndices);
      assert subtracted.Ok? && potentials.Ok?;
    }
  }

  // ---------------------------------------------------------------------
  // The run (mainProtocol.py lines 52-136)

  datatype RunInfo = RunInfo(grid: Grid, analysisInfo: seq<AnalysisEntry>, peakInfo: seq<PeakLists>)

  type Outcome = Result<(AnalysisEntry, PeakLists)>

  /** The analysis of each file under one protocol and configuration. */
  function FileAnalysis(p: Protocol, config: Config): DataFile -> Outcome
  {
    f => AnalyseFile(f, p, config)
  }

  /** The two lists after analysing `files` in order, or the error of the
      first file that fails. */
  function AnalyseAll(files: seq<DataFile>, analyse: DataFile -> Outcome): Result<(seq<AnalysisEntry>, seq<PeakLists>)>
  {
    if |files| == 0 then Ok(([], []))
    else
      var n := |files| - 1;
      AnalyseStep(AnalyseAll(files[..n], analyse), analyse(files[n]))
  }

  function AnalyseStep(front: Result<(seq<AnalysisEntry>, seq<PeakLists>)>, out: Outcome)
    : (r: Result<(seq<AnalysisEntry>, seq<PeakLists>)>)
    ensures r.Ok? ==> front.Ok? && out.Ok?
  {
    match front
    case Err(e) => Err(e)
    case Ok(lists) =>
      match out
      case Err(e) => Err(e)
      case Ok(entries) => Ok((lists.0 + [entries.0], lists.1 + [entries.1]))
  }

  lemma AnalyseAllAppend(files: seq<DataFile>, f: DataFile, analyse: DataFile -> Outcome)
    ensures AnalyseAll(files + [f], analyse) == AnalyseStep(AnalyseAll(files, analyse), analyse(f))
  {
    assert (files + [f])[..|files|] == files;
  }

  lemma {:induction false} AnalyseErrorPersists(files: seq<DataFile>, analyse: DataFile -> Outcome, m: nat)
    requires m <= |files| && AnalyseAll(files[..m], analyse).Err?
    ensures AnalyseAll(files, analyse) == AnalyseAll(files[..m], analyse)
    decreases |files|
  {
    if m < |files| {
      var n := |files| - 1;
      assert files[..n][..m] == files[..m];
      AnalyseErrorPersists(files[..n], analyse, m);
    } else {
      assert files[..m] == files;
    }
  }

  /** The run bookkeeping: the analysis succeeds exactly when every file
      does; then both lists hold one entry per file, the k-th entries being
      the k-th file's analysis, so their lengths agree as line 136 asserts.
      Otherwise the error is that of the first failing file. */
  lemma {:induction false} AnalyseAllMeaning(files: seq<DataFile>, analyse: DataFile -> Outcome)
    ensures var r := AnalyseAll(files, analyse);
      && (r.Ok? <==> forall k :: 0 <= k < |files| ==> analyse(files[k]).Ok?)
      && (r.Ok? ==>
            && |r.value.0| == |r.value.1| == |files|
            && forall k :: 0 <= k < |files| ==> analyse(files[k]) == Ok((r.value.0[k], r.value.1[k])))
      && (r.Err? ==> exists k :: (
            && 0 <= k < |files|
            && analyse(files[k]) == Err(r.error)
            && forall j :: 0 <= j < k ==> analyse(files[j]).Ok?))
    decreases |files|
  {
    if |files| > 0 {
      var n := |files| - 1;
      var front := files[..n];
      AnalyseAllMeaning(front, analyse);
      assert forall k :: 0 <= k < n ==> front[k] == files[k];
    }
  }

  lemma AnalyseNext(files: seq<DataFile>, analyse: DataFile -> Outcome, p: Protocol, config: Config, i: nat)
    requires i < |files| && analyse == FileAnalysis(p, config)
    ensures AnalyseAll(files[..i + 1], analyse) == AnalyseStep(AnalyseAll(files[..i], analyse), AnalyseFile(files[i], p, config))
  {
    assert files[..i + 1] == files[..i] + [files[i]];
    AnalyseAllAppend(files[..i], files[i], analyse);
  }

  /** The whole run: the protocol assertion, then the grid, then the files. */
  function RunAll(files: seq<DataFile>, useCHIPeaks: bool, useLinearFit: bool, useBaselineSubtraction: bool, config: Config)
    : (r: Result<RunInfo>)
    ensures var selected := SelectProtocol(useCHIPeaks, useLinearFit, useBaselineSubtraction);
      && (selected.Err? ==> r == Err(selected.error))
      && (selected.Ok? && |files| == 0 ==> r == Err(DivisionByZero))
      && (r.Ok? ==> |r.value.analysisInfo| == |r.value.peakInfo| == |files| > 0)
  {
    match SelectProtocol(useCHIPeaks, useLinearFit, useBaselineSubtraction)
    case Err(e) => Err(e)
    case Ok(p) =>
      match GridShape(|files|, SubPlotsPerRow)
      case Err(e) => Err(e)
      case Ok(grid) =>
        match AnalyseAll(files, FileAnalysis(p, config))
        case Err(e) => Err(e)
        case Ok(lists) =>
          AnalyseAllMeaning(files, FileAnalysis(p, config));
          Ok(RunInfo(grid, lists.0, lists.1))
  }

  /** The loop of mainProtocol.py lines 83-136. */
  method Analyse(files: seq<DataFile>, useCHIPeaks: bool, useLinearFit: bool, useBaselineSubtraction: bool, config: Config)
    returns (r: Result<RunInfo>)
    ensures r == RunAll(files, useCHIPeaks, useLinearFit, useBaselineSubtraction, config)
  {
    var selected := SelectProtocol(useCHIPeaks, useLinearFit, useBaselineSubtraction);
    if selected.Err? {
      return Err(selected.error);
    }
    var protocol := selected.value;
    var grid := GridShape(|files|, SubPlotsPerRow);
    if grid.Err? {
      return Err(grid.error);
    }
    ghost var analyse := FileAnalysis(protocol, config);
    var peakInfo: seq<PeakLists> := [];
    var analysisInfo: seq<AnalysisEntry> := [];
    var dpvInd := 0;
    while dpvInd < |files|
      invariant 0 <= dpvInd <= |files|
      invariant AnalyseAll(files[..dpvInd], analyse) == Ok((analysisInfo, peakInfo))
    {
      var out := AnalyseFile(files[dpvInd], protocol, config);
      AnalyseNext(files, analyse, protocol, config, dpvInd);
      if out.Err? {
        AnalyseErrorPersists(files, analyse, dpvInd + 1);
        return Err(out.error);
      }
      analysisInfo := analysisInfo + [out.value.0];
      peakInfo := peakInfo + [out.value.1];
      dpvInd := dpvInd + 1;
    }
    assert files[..dpvInd] == files;
    r := Ok(RunInfo(grid.value, analysisInfo, peakInfo));
  }

  /** A completed run holds one analysis and one peak entry per file, each
      the analysis of that file, and a grid with a cell for every file. */
  lemma RunRecordsEveryFile(files: seq<DataFile>, useCHIPeaks: bool, useLinearFit: bool, useBaselineSubtraction: bool, config: Config)
    requires RunAll(files, useCHIPeaks, useLinearFit, useBaselineSubtraction, config).Ok?
    ensures var info := RunAll(files, useCHIPeaks, useLinearFit, useBaselineSubtraction, config).value;
      var p := SelectProtocol(useCHIPeaks, useLinearFit, useBaselineSubtraction).value;
      && |info.analysisInfo| == |info.peakInfo| == |files| > 0
      && info.grid.rows * info.grid.columns >= |files|
      && forall k :: 0 <= k < |files| ==>
           AnalyseFile(files[k], p, config) == Ok((info.analysisInfo[k], info.peakInfo[k]))
  {
    var p := SelectProtocol(useCHIPeaks, useLinearFit, useBaselineSubtraction).value;
    AnalyseAllMeaning(files, FileAnalysis(p, config));
    forall k | 0 <= k < |files|
      ensures FileAnalysis(p, config)(files[k]) == AnalyseFile(files[k], p, config)
    {
    }
  }

  /** With the CHI protocol no run completes: without files the grid
      division fails, and otherwise the first file either has mismatched
      arrays or reaches the unassigned baseline. */
  lemma ChiPeaksNeverCompletes(files: seq<DataFile>, config: Config)
    ensures RunAll(files, true, false, false, config).Err?
  {
    if |files| > 0 {
      var f := files[0];
      assert FileAnalysis(ChiPeaks, config)(f).Err?;
      AnalyseAllMeaning(files, FileAnalysis(ChiPeaks, config));
    }
  }

  /** An empty batch never reaches the loop. */
  lemma NoFilesFails(useCHIPeaks: bool, useLinearFit: bool, useBaselineSubtraction: bool, config: Config)
    ensures var r := RunAll([], useCHIPeaks, useLinearFit, useBaselineSubtraction, config);
      r.Err? && r.error in {ProtocolCount(FlagCount(useCHIPeaks, useLinearFit, useBaselineSubtraction)), DivisionByZero}
  {
  }
}
