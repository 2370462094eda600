/** Potential-window culling. Both scripts compute one boolean mask from the
    unculled potential and apply it to the current and to the potential, the
    way numpy boolean indexing does: the kept samples, in their original
    order. dpvAnalysis.py uses a fixed inclusive window; mainProtocol.py uses
    optional bounds where a missing bound (and, through Python's `or`, a bound
    of 0) imposes no limit. */
module Window {
  import opened Common

  /** A potential/current trace, sample by sample. */
  datatype Trace = Trace(potential: seq<real>, current: seq<real>)
  {
    predicate Paired() { |potential| == |current| }
  }

  /** The positions at which the mask is true, in increasing order. */
  function KeptIndices(mask: seq<bool>): (r: seq<nat>)
    ensures forall k :: 0 <= k < |r| ==> r[k] < |mask| && mask[r[k]]
    ensures forall k, l :: 0 <= k < l < |r| ==> r[k] < r[l]
  {
    if |mask| == 0 then []
    else
      var n := |mask| - 1;
      KeptIndices(mask[..n]) + (if mask[n] then [n] else [])
  }

  /** No position where the mask is true is dropped. */
  lemma {:induction false} KeptIndicesComplete(mask: seq<bool>, i: nat)
    requires i < |mask| && mask[i]
    ensures i in KeptIndices(mask)
  {
    var n := |mask| - 1;
    if i < n {
      KeptIndicesComplete(mask[..n], i);
    }
  }

  /** numpy's `s[mask]` for a boolean mask of the same length. */
  function Filter<T>(s: seq<T>, mask: seq<bool>): (r: seq<T>)
    requires |mask| == |s|
    ensures |r| == |KeptIndices(mask)|
  {
    if |s| == 0 then []
    else
      var n := |s| - 1;
      Filter(s[..n], mask[..n]) + (if mask[n] then [s[n]] else [])
  }

  /** The k-th kept element is the element at the k-th kept position. */
  lemma {:induction false} FilterElements<T>(s: seq<T>, mask: seq<bool>)
    requires |mask| == |s|
    ensures forall k :: 0 <= k < |Filter(s, mask)| ==> Filter(s, mask)[k] == s[KeptIndices(mask)[k]]
  {
    if |s| > 0 {
      var n := |s| - 1;
      FilterElements(s[..n], mask[..n]);
      assert KeptIndices(mask[..n]) == KeptIndices(mask)[..|KeptIndices(mask[..n])|];
    }
  }

  /** A mask that keeps nothing keeps no position. */
  lemma {:induction false} NoTrueKeepsNone(mask: seq<bool>)
    requires forall i :: 0 <= i < |mask| ==> !mask[i]
    ensures KeptIndices(mask) == []
  {
    if |mask| > 0 {
      NoTrueKeepsNone(mask[..|mask| - 1]);
    }
  }

  /** A mask that keeps everything leaves the sequence as it is. */
  lemma {:induction false} FilterAllTrue<T>(s: seq<T>, mask: seq<bool>)
    requires |mask| == |s|
    requires forall i :: 0 <= i < |mask| ==> mask[i]
    ensures Filter(s, mask) == s
  {
    if |s| > 0 {
      var n := |s| - 1;
      FilterAllTrue(s[..n], mask[..n]);
      assert mask[n];
      assert Filter(s, mask) == Filter(s[..n], mask[..n]) + [s[n]];
      assert s[..n] + [s[n]] == s;
    }
  }

  // ---------------------------------------------------------------------
  // dpvAnalysis.py: minPotentialCut <= potential <= maxPotentialCut

  function WindowMask(potential: seq<real>, lo: real, hi: real): (m: seq<bool>)
    ensures |m| == |potential|
    ensures forall i :: 0 <= i < |m| ==> (m[i] <==> lo <= potential[i] <= hi)
  {
    seq(|potential|, i requires 0 <= i < |potential| => lo <= potential[i] <= hi)
  }

  /** Both arrays filtered by the one mask computed from the unculled
      potential. The k-th kept pair is the original pair at the k-th
      in-window position, so potential and current stay paired and in
      order, and only in-window samples survive. */
  function Cull(t: Trace, lo: real, hi: real): (r: Trace)
    requires t.Paired()
    ensures r.Paired()
    ensures forall k :: 0 <= k < |r.potential| ==> lo <= r.potential[k] <= hi
    ensures var kept := KeptIndices(WindowMask(t.potential, lo, hi));
      |r.potential| == |kept| &&
      forall k :: 0 <= k < |kept| ==>
        r.potential[k] == t.potential[kept[k]] && r.current[k] == t.current[kept[k]]
  {
    var mask := WindowMask(t.potential, lo, hi);
    FilterElements(t.potential, mask);
    FilterElements(t.current, mask);
    Trace(Filter(t.potential, mask), Filter(t.current, mask))
  }

  /** Every in-window sample is kept, and only those: a sample index is
      among the kept positions exactly when its potential lies in the
      closed window. */
  lemma CullKeepsExactlyWindow(t: Trace, lo: real, hi: real, i: nat)
    requires t.Paired() && i < |t.potential|
    ensures i in KeptIndices(WindowMask(t.potential, lo, hi)) <==> lo <= t.potential[i] <= hi
  {
    var mask := WindowMask(t.potential, lo, hi);
    var kept := KeptIndices(mask);
    if mask[i] {
      KeptIndicesComplete(mask, i);
    }
    if i in kept {
      var k :| 0 <= k < |kept| && kept[k] == i;
      assert mask[kept[k]];
    }
  }

  /** Culling an already culled trace with the same window changes nothing. */
  lemma CullIdempotent(t: Trace, lo: real, hi: real)
    requires t.Paired()
    ensures Cull(Cull(t, lo, hi), lo, hi) == Cull(t, lo, hi)
  {
    var c := Cull(t, lo, hi);
    var mask := WindowMask(c.potential, lo, hi);
    FilterAllTrue(c.potential, mask);
    FilterAllTrue(c.current, mask);
  }

  // ---------------------------------------------------------------------
  // mainProtocol.py: (potentialBounds[0] or -inf) <= potential <= (potentialBounds[1] or inf)

  /** The limit a bound imposes once Python's `or` has replaced a falsy
      bound (None or 0) by an infinity: None means no limit. */
  function Limit(bound: Option<real>): (r: Option<real>)
    ensures r.None? <==> bound.None? || bound.value == 0.0
    ensures r.Some? ==> r == bound
  {
    if bound.None? || bound.value == 0.0 then None else bound
  }

  predicate WithinBounds(p: real, lower: Option<real>, upper: Option<real>)
  {
    (Limit(lower).None? || Limit(lower).value <= p) &&
    (Limit(upper).None? || p <= Limit(upper).value)
  }

  function BoundsMask(potential: seq<real>, lower: Option<real>, upper: Option<real>): (m: seq<bool>)
    ensures |m| == |potential|
    ensures forall i :: 0 <= i < |m| ==> (m[i] <==> WithinBounds(potential[i], lower, upper))
  {
    seq(|potential|, i requires 0 <= i < |potential| => WithinBounds(potential[i], lower, upper))
  }

  /** The current is culled first and the potential second, both with the
      mask of the unculled potential. */
  function CullBounds(t: Trace, lower: Option<real>, upper: Option<real>): (r: Trace)
    requires t.Paired()
    ensures r.Paired()
    ensures forall k :: 0 <= k < |r.potential| ==> WithinBounds(r.potential[k], lower, upper)
    ensures var kept := KeptIndices(BoundsMask(t.potential, lower, upper));
      |r.potential| == |kept| &&
      forall k :: 0 <= k < |kept| ==>
        r.potential[k] == t.potential[kept[k]] && r.current[k] == t.current[kept[k]]
  {
    var mask := BoundsMask(t.potential, lower, upper);
    FilterElements(t.potential, mask);
    FilterElements(t.current, mask);
    var current := Filter(t.current, mask);
    var potential := Filter(t.potential, mask);
    Trace(potential, current)
  }

  /** A bound of 0 is no bound at all: it culls exactly what a missing bound culls. */
  lemma ZeroBoundIsUnbounded(t: Trace, bound: Option<real>)
    requires t.Paired()
    ensures CullBounds(t, Some(0.0), bound) == CullBounds(t, None, bound)
    ensures CullBounds(t, bound, Some(0.0)) == CullBounds(t, bound, None)
  {
    assert BoundsMask(t.potential, Some(0.0), bound) == BoundsMask(t.potential, None, bound);
    assert BoundsMask(t.potential, bound, Some(0.0)) == BoundsMask(t.potential, bound, None);
  }

  /** With no (or only falsy) bounds every sample is kept. */
  lemma UnboundedKeepsAll(t: Trace)
    requires t.Paired()
    ensures CullBounds(t, None, None) == t
  {
    var mask := BoundsMask(t.potential, None, None);
    FilterAllTrue(t.potential, mask);
    FilterAllTrue(t.current, mask);
  }

  /** Two non-zero bounds cull exactly as dpvAnalysis.py's fixed window does. */
  lemma NonZeroBoundsAreWindow(t: Trace, lo: real, hi: real)
    requires t.Paired() && lo != 0.0 && hi != 0.0
    ensures CullBounds(t, Some(lo), Some(hi)) == Cull(t, lo, hi)
  {
    assert BoundsMask(t.potential, Some(lo), Some(hi)) == WindowMask(t.potential, lo, hi);
  }
}
