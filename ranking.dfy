/** What the classification task's arg-max search picks from a score vector:
    a repeated strict-maximum search over the entries not yet selected,
    starting from the sentinel -1, so only scores above -1 can win and ties
    go to the lowest index. */
module Ranking {

  /** The score the search starts from; an entry must exceed it to be picked. */
  const Sentinel: real := -1.0

  /** Some unselected entry scores above the sentinel. */
  predicate HasCandidate(a: seq<real>, sel: seq<bool>)
    requires |sel| == |a|
  {
    exists j :: 0 <= j < |a| && !sel[j] && a[j] > Sentinel
  }

  /** `i` is the index the search returns: the lowest unselected index holding
      the largest unselected score, when that score is above the sentinel;
      index 0 when no unselected score is above it. */
  predicate IsTop(a: seq<real>, sel: seq<bool>, i: nat)
    requires |sel| == |a|
  {
    if HasCandidate(a, sel) then
      i < |a| && !sel[i] && a[i] > Sentinel
      && (forall j :: 0 <= j < |a| && !sel[j] ==> a[j] <= a[i])
      && (forall j :: 0 <= j < i && !sel[j] ==> a[j] < a[i])
    else
      i == 0
  }

  /** The selection flags after the indices in `picks` have been marked. */
  function Marks(n: nat, picks: seq<nat>): (m: seq<bool>)
    ensures |m| == n
    ensures forall j :: 0 <= j < n ==> (m[j] <==> j in picks)
  {
    seq(n, j requires 0 <= j < n => j in picks)
  }

  /** `picks` is what k = |picks| rounds of the search return: round s picks
      the top of the entries the earlier rounds left unselected. */
  ghost predicate IsSelection(a: seq<real>, picks: seq<nat>)
  {
    forall s :: 0 <= s < |picks| ==> IsTop(a, Marks(|a|, picks[..s]), picks[s])
  }

  /** Every round of `picks` found an unselected entry above the sentinel. */
  ghost predicate EveryRoundHasCandidate(a: seq<real>, picks: seq<nat>)
  {
    forall s :: 0 <= s < |picks| ==> HasCandidate(a, Marks(|a|, picks[..s]))
  }

  /** `i` is the single best entry: the top with nothing selected. */
  predicate IsBest(a: seq<real>, i: nat)
  {
    IsTop(a, Marks(|a|, []), i)
  }

  /** The search is deterministic: at most one index is the top. */
  lemma TopUnique(a: seq<real>, sel: seq<bool>, i: nat, i': nat)
    requires |sel| == |a| && IsTop(a, sel, i) && IsTop(a, sel, i')
    ensures i == i'
  {
  }

  /** The top never is a selected entry while an unselected entry scores
      above the sentinel, and it always lies inside a non-empty vector. */
  lemma TopInRange(a: seq<real>, sel: seq<bool>, i: nat)
    requires |sel| == |a| && 0 < |a| && IsTop(a, sel, i)
    ensures i < |a|
    ensures HasCandidate(a, sel) ==> !sel[i]
  {
  }

  /** Extending a selection by the top of what it left unselected gives a
      selection one round longer. */
  lemma {:induction false} SelectionExtend(a: seq<real>, picks: seq<nat>, i: nat)
    requires IsSelection(a, picks) && IsTop(a, Marks(|a|, picks), i)
    ensures IsSelection(a, picks + [i])
  {
    var p := picks + [i];
    forall s | 0 <= s < |p|
      ensures IsTop(a, Marks(|a|, p[..s]), p[s])
    {
      if s < |picks| {
        assert p[..s] == picks[..s];
      } else {
        assert p[..s] == picks;
      }
    }
  }

  /** A selection in which every round found a candidate never picks the
      same index twice. */
  lemma {:induction false} SelectionDistinct(a: seq<real>, picks: seq<nat>)
    requires IsSelection(a, picks) && EveryRoundHasCandidate(a, picks)
    ensures forall s, t :: 0 <= s < t < |picks| ==> picks[s] != picks[t]
  {
    forall s, t | 0 <= s < t < |picks|
      ensures picks[s] != picks[t]
    {
      assert picks[..t][s] == picks[s];
      assert IsTop(a, Marks(|a|, picks[..t]), picks[t]);
      assert HasCandidate(a, Marks(|a|, picks[..t]));
    }
  }

  /** A selection in which every round found a candidate lists its scores
      from the highest down. */
  lemma {:induction false} SelectionNonIncreasing(a: seq<real>, picks: seq<nat>)
    requires IsSelection(a, picks) && EveryRoundHasCandidate(a, picks)
    ensures forall s :: 0 <= s < |picks| ==> picks[s] < |a|
    ensures forall s, t :: 0 <= s < t < |picks| ==> a[picks[s]] >= a[picks[t]]
  {
    forall s | 0 <= s < |picks|
      ensures picks[s] < |a|
    {
      assert IsTop(a, Marks(|a|, picks[..s]), picks[s]);
      assert HasCandidate(a, Marks(|a|, picks[..s]));
    }
    forall s, t | 0 <= s < t < |picks|
      ensures a[picks[s]] >= a[picks[t]]
    {
      var later := Marks(|a|, picks[..t]);
      var earlier := Marks(|a|, picks[..s]);
      assert IsTop(a, later, picks[t]) && HasCandidate(a, later);
      assert !later[picks[t]];
      assert picks[t] !in picks[..t];
      assert picks[..s] == picks[..t][..s];
      assert !earlier[picks[t]];
      assert IsTop(a, earlier, picks[s]) && HasCandidate(a, earlier);
    }
  }

  /** When no score is above the sentinel, every round returns index 0. */
  lemma {:induction false} SelectionWithoutCandidates(a: seq<real>, picks: seq<nat>)
    requires IsSelection(a, picks)
    requires forall j :: 0 <= j < |a| ==> a[j] <= Sentinel
    ensures forall s :: 0 <= s < |picks| ==> picks[s] == 0
  {
    forall s | 0 <= s < |picks|
      ensures picks[s] == 0
    {
      assert IsTop(a, Marks(|a|, picks[..s]), picks[s]);
      assert !HasCandidate(a, Marks(|a|, picks[..s]));
    }
  }

  /** The best entry of a vector with a score above the sentinel is its
      first maximum. */
  lemma BestIsFirstMaximum(a: seq<real>, i: nat)
    requires IsBest(a, i)
    requires exists j :: 0 <= j < |a| && a[j] > Sentinel
    ensures i < |a| && a[i] > Sentinel
    ensures forall j :: 0 <= j < |a| ==> a[j] <= a[i]
    ensures forall j :: 0 <= j < i ==> a[j] < a[i]
  {
    var none := Marks(|a|, []);
    var j :| 0 <= j < |a| && a[j] > Sentinel;
    assert !none[j];
    assert HasCandidate(a, none);
  }
}
