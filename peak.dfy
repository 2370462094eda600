/** Peak reporting on the baseline-subtracted current.
    dpvAnalysis.py (linear-fit branch) subtracts the baseline element by
    element and reads the peak at the first index of largest magnitude;
    mainProtocol.py reads the subtracted current and the potential at a list
    of peak indices with numpy fancy indexing. */
module Peak {
  import opened Common

  /** `current - baseline` for two arrays of one length. Adding the baseline
      back gives the current again. */
  function Subtract(current: seq<real>, baseline: seq<real>): (r: seq<real>)
    requires |baseline| == |current|
    ensures |r| == |current|
    ensures forall i :: 0 <= i < |r| ==> r[i] + baseline[i] == current[i]
  {
    seq(|current|, i requires 0 <= i < |current| => current[i] - baseline[i])
  }

  /** A baseline equal to the signal (the fitters' answer when there is no
      peak) leaves nothing behind. */
  lemma SubtractSignalItself(current: seq<real>)
    ensures forall i :: 0 <= i < |current| ==> Subtract(current, current)[i] == 0.0
  {
  }

  /** `abs(s).argmax()`: the first index whose magnitude no other exceeds. */
  function FirstMaxAbs(s: seq<real>): (r: nat)
    requires |s| > 0
    ensures r < |s|
    ensures forall j :: 0 <= j < |s| ==> Abs(s[j]) <= Abs(s[r])
    ensures forall j :: 0 <= j < r ==> Abs(s[j]) < Abs(s[r])
  {
    if |s| == 1 then 0
    else
      var n := |s| - 1;
      var k := FirstMaxAbs(s[..n]);
      if Abs(s[n]) > Abs(s[k]) then n else k
  }

  /** peakInd, Ip and Vp of dpvAnalysis.py. */
  datatype PeakPick = PeakPick(index: nat, current: real, potential: real)

  /** Subtract the baseline, pick the first index of largest magnitude and
      report the signed subtracted current and the potential there. A
      baseline of another length fails the subtraction; an empty trace fails
      the argmax. */
  function PickPeak(potential: seq<real>, current: seq<real>, baseline: seq<real>): (r: Result<PeakPick>)
    requires |potential| == |current|
    ensures r.Ok? <==> |baseline| == |current| && |current| > 0
    ensures |baseline| != |current| ==> r == Err(LengthMismatch)
    ensures |baseline| == |current| == 0 ==> r == Err(EmptyTrace)
    ensures r.Ok? ==>
      var p := r.value;
      && p.index < |current|
      && p.current == current[p.index] - baseline[p.index]
      && p.potential == potential[p.index]
      && (forall j :: 0 <= j < |current| ==> Abs(current[j] - baseline[j]) <= Abs(p.current))
      && (forall j :: 0 <= j < p.index ==> Abs(current[j] - baseline[j]) < Abs(p.current))
  {
    if |baseline| != |current| then Err(LengthMismatch)
    else
      var baselineCurrent := Subtract(current, baseline);
      if |baselineCurrent| == 0 then Err(EmptyTrace)
      else
        var peakInd := FirstMaxAbs(baselineCurrent);
        Ok(PeakPick(peakInd, baselineCurrent[peakInd], potential[peakInd]))
  }

  /** With the signal as its own baseline the pick is the first sample, with
      zero peak current. */
  lemma FlatPickIsFirstSample(potential: seq<real>, current: seq<real>)
    requires |potential| == |current| > 0
    ensures PickPeak(potential, current, current) == Ok(PeakPick(0, 0.0, potential[0]))
  {
    var s := Subtract(current, current);
    SubtractSignalItself(current);
    var k := FirstMaxAbs(s);
    assert Abs(s[0]) == 0.0 == Abs(s[k]);
  }

  // ---------------------------------------------------------------------
  // mainProtocol.py: baselineSubtractedCurrent[peakIndices], potential[peakIndices]

  /** The position numpy reads for index i of an array of length n:
      negative indices count from the end; anything else is an IndexError. */
  function NumpyIndex(n: nat, i: int): (r: Option<nat>)
    ensures r.Some? <==> -(n as int) <= i < n
    ensures r.Some? ==> r.value < n && (r.value as int == i || r.value as int == i + n)
    ensures 0 <= i < n ==> r == Some(i)
  {
    if 0 <= i < n then Some(i) else if -(n as int) <= i < 0 then Some(n + i) else None
  }

  predicate AllInRange(n: nat, indices: seq<int>)
  {
    forall k :: 0 <= k < |indices| ==> NumpyIndex(n, indices[k]).Some?
  }

  /** numpy's `s[indices]` for an integer index array. */
  function Gather(s: seq<real>, indices: seq<int>): (r: Result<seq<real>>)
    ensures r.Ok? <==> AllInRange(|s|, indices)
    ensures r.Ok? ==>
      |r.value| == |indices| &&
      forall k :: 0 <= k < |indices| ==> r.value[k] == s[NumpyIndex(|s|, indices[k]).value]
    ensures r.Err? ==> exists k :: 0 <= k < |indices| && r.error == IndexOutOfRange(indices[k])
  {
    if |indices| == 0 then Ok([])
    else
      var n := |indices| - 1;
      match Gather(s, indices[..n])
      case Err(e) => Err(e)
      case Ok(front) =>
        match NumpyIndex(|s|, indices[n])
        case None => Err(IndexOutOfRange(indices[n]))
        case Some(i) => Ok(front + [s[i]])
  }

  /** peakPotentials and peakCurrents of mainProtocol.py. */
  datatype PeakLists = PeakLists(peakPotentials: seq<real>, peakCurrents: seq<real>)

  /** The currents are read first and then the potentials; either read fails
      with an IndexError when an index is out of range for its array. */
  function PeakLookup(potential: seq<real>, subtracted: seq<real>, peakIndices: seq<int>): (r: Result<PeakLists>)
    ensures r.Ok? <==> AllInRange(|subtracted|, peakIndices) && AllInRange(|potential|, peakIndices)
    ensures r.Ok? ==>
      |r.value.peakCurrents| == |peakIndices| && |r.value.peakPotentials| == |peakIndices|
    ensures r.Ok? ==> forall k :: 0 <= k < |peakIndices| ==>
      r.value.peakCurrents[k] == subtracted[NumpyIndex(|subtracted|, peakIndices[k]).value] &&
      r.value.peakPotentials[k] == potential[NumpyIndex(|potential|, peakIndices[k]).value]
  {
    match Gather(subtracted, peakIndices)
    case Err(e) => Err(e)
    case Ok(peakCurrents) =>
      match Gather(potential, peakIndices)
      case Err(e) => Err(e)
      case Ok(peakPotentials) => Ok(PeakLists(peakPotentials, peakCurrents))
  }

  /** Looking up dpvAnalysis.py's single peak index the way mainProtocol.py
      looks up its list of indices reports the same Ip and Vp. */
  lemma LookupAgreesWithPick(potential: seq<real>, current: seq<real>, baseline: seq<real>)
    requires |potential| == |current|
    requires PickPeak(potential, current, baseline).Ok?
    ensures var p := PickPeak(potential, current, baseline).value;
      PeakLookup(potential, Subtract(current, baseline), [p.index]) ==
        Ok(PeakLists([p.potential], [p.current]))
  {
    var p := PickPeak(potential, current, baseline).value;
    var sub := Subtract(current, baseline);
    assert NumpyIndex(|sub|, [p.index][0]) == Some(p.index);
    assert NumpyIndex(|potential|, [p.index][0]) == Some(p.index);
    var currents := Gather(sub, [p.index]);
    var potentials := Gather(potential, [p.index]);
    assert currents.Ok? && currents.value == [sub[p.index]];
    assert potentials.Ok? && potentials.value == [potential[p.index]];
  }
}
