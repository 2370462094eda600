/** One file of dpvAnalysis.py on its linear-fit branch: cull the trace to
    the fixed potential window, classify the scan, subtract the linear
    baseline the fitter returns for that classification, and read the peak
    off the subtracted current. */
module DpvFile {
  import opened Common
  import opened Window
  import opened Scan
  import opened Peak

  /** minPotentialCut and maxPotentialCut of dpvAnalysis.py. */
  const MinPotentialCut: real := -0.1
  const MaxPotentialCut: real := 0.5

  /** What the branch keeps of one file: the culled trace, the scan
      direction, the baseline and the peak. */
  datatype LinearAnalysis = LinearAnalysis(
    potential: seq<real>, current: seq<real>, reductive: bool, baseline: seq<real>, peak: PeakPick)

  /** `findLinearBaseline` is the fitter of calculateBaseline.bestLinearFit,
      called with the culled potential, the culled current and the scan
      direction. A mask of another length than the current, a baseline of
      another length than the culled current, and an empty culled trace are
      the errors numpy raises. */
  function AnalyseLinear(potential: seq<real>, current: seq<real>,
                         findLinearBaseline: (seq<real>, seq<real>, bool) -> seq<real>): (r: Result<LinearAnalysis>)
    ensures |potential| != |current| ==> r == Err(LengthMismatch)
    ensures r.Ok? ==>
      var a := r.value;
      && Trace(a.potential, a.current) == Cull(Trace(potential, current), MinPotentialCut, MaxPotentialCut)
      && a.reductive == IsReductive(a.current)
      && a.baseline == findLinearBaseline(a.potential, a.current, a.reductive)
      && PickPeak(a.potential, a.current, a.baseline) == Ok(a.peak)
      && MinPotentialCut <= a.peak.potential <= MaxPotentialCut
    ensures |potential| == |current| ==>
      var culled := Cull(Trace(potential, current), MinPotentialCut, MaxPotentialCut);
      var baseline := findLinearBaseline(culled.potential, culled.current, IsReductive(culled.current));
      (r.Ok? <==> |baseline| == |culled.current| > 0) &&
      (r.Err? ==> r.error == PickPeak(culled.potential, culled.current, baseline).error)
  {
    if |potential| != |current| then Err(LengthMismatch)
    else
      var culled := Cull(Trace(potential, current), MinPotentialCut, MaxPotentialCut);
      var reductiveScan := IsReductive(culled.current);
      var baseline := findLinearBaseline(culled.potential, culled.current, reductiveScan);
      match PickPeak(culled.potential, culled.current, baseline)
      case Err(e) => Err(e)
      case Ok(p) => Ok(LinearAnalysis(culled.potential, culled.current, reductiveScan, baseline, p))
  }

  /** A file with no sample inside the window never yields a peak: the
      culled trace is empty, so either the baseline's length or the empty
      argmax fails. */
  lemma NothingInWindowFails(potential: seq<real>, current: seq<real>,
                             findLinearBaseline: (seq<real>, seq<real>, bool) -> seq<real>)
    requires forall i :: 0 <= i < |potential| ==> !(MinPotentialCut <= potential[i] <= MaxPotentialCut)
    ensures AnalyseLinear(potential, current, findLinearBaseline).Err?
  {
    if |potential| == |current| {
      NoTrueKeepsNone(WindowMask(potential, MinPotentialCut, MaxPotentialCut));
    }
  }

  /** The reported peak is a sample of the culled trace at the first
      position of largest subtracted magnitude, and its potential lies in the
      window. */
  lemma PeakIsCulledSample(potential: seq<real>, current: seq<real>,
                           findLinearBaseline: (seq<real>, seq<real>, bool) -> seq<real>)
    requires AnalyseLinear(potential, current, findLinearBaseline).Ok?
    ensures var a := AnalyseLinear(potential, current, findLinearBaseline).value;
      var kept := KeptIndices(WindowMask(potential, MinPotentialCut, MaxPotentialCut));
      && a.peak.index < |kept|
      && a.peak.potential == potential[kept[a.peak.index]]
      && a.peak.current == current[kept[a.peak.index]] - a.baseline[a.peak.index]
      && (forall j :: 0 <= j < |a.current| ==> Abs(a.current[j] - a.baseline[j]) <= Abs(a.peak.current))
  {
  }
}
