/** Scan-direction classification (dpvAnalysis.py): a trace is reductive
    when strictly more than half of its current samples are negative. */
module Scan {

  /** `sum(1 for currentVal in current if currentVal < 0)` */
  function CountNegative(current: seq<real>): (r: nat)
    ensures r <= |current|
  {
    if |current| == 0 then 0
    else
      var n := |current| - 1;
      CountNegative(current[..n]) + (if current[n] < 0.0 then 1 else 0)
  }

  /** `numNeg > len(current)/2`, with Python 3's true division. */
  predicate IsReductive(current: seq<real>): (r: bool)
    ensures r <==> 2 * CountNegative(current) > |current|
    ensures r ==> |current| > 0 && CountNegative(current) > 0
  {
    (CountNegative(current) as real) > (|current| as real) / 2.0
  }

  /** The positions of the negative samples, as a set. */
  function NegativePositions(current: seq<real>): set<nat>
  {
    set i: nat | i < |current| && current[i] < 0.0
  }

  /** The counter counts exactly the negative positions. */
  lemma {:induction false} CountIsNegativePositions(current: seq<real>)
    ensures CountNegative(current) == |NegativePositions(current)|
  {
    if |current| > 0 {
      var n := |current| - 1;
      var prefix := current[..n];
      CountIsNegativePositions(prefix);
      var before := NegativePositions(prefix);
      assert n !in before;
      if current[n] < 0.0 {
        assert NegativePositions(current) == before + {n};
      } else {
        assert NegativePositions(current) == before;
      }
    }
  }

  /** The classification against an independent statement of "majority
      negative": twice the number of negative positions exceeds the length. */
  lemma ReductiveIffStrictMajority(current: seq<real>)
    ensures IsReductive(current) <==> 2 * |NegativePositions(current)| > |current|
  {
    CountIsNegativePositions(current);
  }

  /** Zero counts as non-negative: a trace without negative samples (the
      empty trace and the all-zero trace among them) is oxidative. */
  lemma {:induction false} NonNegativeIsOxidative(current: seq<real>)
    requires forall i :: 0 <= i < |current| ==> current[i] >= 0.0
    ensures CountNegative(current) == 0
    ensures !IsReductive(current)
  {
    if |current| > 0 {
      NonNegativeIsOxidative(current[..|current| - 1]);
    }
  }

  /** A non-empty trace whose every sample is negative is reductive. */
  lemma {:induction false} AllNegativeIsReductive(current: seq<real>)
    requires |current| > 0
    requires forall i :: 0 <= i < |current| ==> current[i] < 0.0
    ensures CountNegative(current) == |current|
    ensures IsReductive(current)
  {
    if |current| > 1 {
      AllNegativeIsReductive(current[..|current| - 1]);
    }
  }

  function Negated(current: seq<real>): (r: seq<real>)
    ensures |r| == |current|
    ensures forall i :: 0 <= i < |r| ==> r[i] == -current[i]
  {
    seq(|current|, i requires 0 <= i < |current| => -current[i])
  }

  /** No sample is negative both before and after flipping the sign. */
  lemma {:induction false} NegativesOfBothSigns(current: seq<real>)
    ensures CountNegative(current) + CountNegative(Negated(current)) <= |current|
  {
    if |current| > 0 {
      var n := |current| - 1;
      NegativesOfBothSigns(current[..n]);
      assert Negated(current)[..n] == Negated(current[..n]);
    }
  }

  /** Ties go to oxidative, so a trace and its mirror image are never both
      reductive: flipping a reductive trace gives an oxidative one. */
  lemma MirrorOfReductiveIsOxidative(current: seq<real>)
    requires IsReductive(current)
    ensures !IsReductive(Negated(current))
  {
    NegativesOfBothSigns(current);
  }
}
