/** `np.max` and the tie-break `np.max(np.where(a == np.max(a)))` that every
    search uses to pick a channel: the last index holding the maximum. */
module TieBreak {

  /** `np.max(a)` for a non-empty array. */
  function SeqMax(a: seq<real>): (m: real)
    requires |a| > 0
  {
    if |a| == 1 then a[0]
    else
      var m := SeqMax(a[..|a| - 1]);
      if a[|a| - 1] > m then a[|a| - 1] else m
  }

  /** `SeqMax(a)` is the maximum: an element of `a` that no element exceeds. */
  lemma {:induction false} SeqMaxIsMaximum(a: seq<real>)
    requires |a| > 0
    ensures forall i :: 0 <= i < |a| ==> a[i] <= SeqMax(a)
    ensures exists i :: 0 <= i < |a| && a[i] == SeqMax(a)
  {
    if |a| == 1 {
      assert a[0] == SeqMax(a);
    } else {
      var p := a[..|a| - 1];
      SeqMaxIsMaximum(p);
      var m := SeqMax(p);
      assert SeqMax(a) == if a[|a| - 1] > m then a[|a| - 1] else m;
      forall i | 0 <= i < |a|
        ensures a[i] <= SeqMax(a)
      {
        if i < |p| {
          assert a[i] == p[i];
        }
      }
      if a[|a| - 1] <= m {
        var i :| 0 <= i < |p| && p[i] == m;
        assert a[i] == p[i];
      } else {
        assert a[|a| - 1] == SeqMax(a);
      }
    }
  }

  /** `k` holds the maximum of `a`, and every later index holds strictly less. */
  ghost predicate IsLastMax(a: seq<real>, k: int)
  {
    && 0 <= k < |a|
    && (forall i :: 0 <= i < |a| ==> a[i] <= a[k])
    && (forall i :: k < i < |a| ==> a[i] < a[k])
  }

  /** The index that `np.max(np.where(a == np.max(a)))` yields. */
  function LastMaxIndex(a: seq<real>): (k: nat)
    requires |a| > 0
    ensures k < |a|
  {
    if |a| == 1 then 0
    else
      var k := LastMaxIndex(a[..|a| - 1]);
      if a[|a| - 1] >= a[k] then |a| - 1 else k
  }

  /** The tie-break picks the largest index whose value equals the maximum. */
  lemma {:induction false} LastMaxIndexIsLastMax(a: seq<real>)
    requires |a| > 0
    ensures IsLastMax(a, LastMaxIndex(a))
    ensures a[LastMaxIndex(a)] == SeqMax(a)
    ensures forall i :: 0 <= i < |a| && a[i] == SeqMax(a) ==> i <= LastMaxIndex(a)
  {
    SeqMaxIsMaximum(a);
    if |a| > 1 {
      var p := a[..|a| - 1];
      LastMaxIndexIsLastMax(p);
      assert forall i :: 0 <= i < |p| ==> p[i] == a[i];
    }
  }

  /** The tie-break is a function of the values alone: at most one index is the
      last index of the maximum, so two runs on equal scores pick the same channel. */
  lemma LastMaxIsUnique(a: seq<real>, k1: int, k2: int)
    requires IsLastMax(a, k1) && IsLastMax(a, k2)
    ensures k1 == k2
  {
    if k1 < k2 {
      LaterIsSmaller(a, k1, k2);
      assert false;
    } else if k2 < k1 {
      LaterIsSmaller(a, k2, k1);
      assert false;
    }
  }

  /** An index after the last maximum holds strictly less than it. */
  lemma LaterIsSmaller(a: seq<real>, k: int, i: int)
    requires IsLastMax(a, k) && k < i < |a|
    ensures a[i] < a[k]
  {
  }

  /** Of two indices holding the maximum, the tie-break never picks the lower one. */
  lemma TieGoesToHigherIndex(a: seq<real>, i: nat, j: nat)
    requires i < j < |a| && a[i] == a[j] && a[j] == SeqMax(a)
    ensures LastMaxIndex(a) != i && LastMaxIndex(a) >= j
  {
    LastMaxIndexIsLastMax(a);
  }

  /** Appending one value to a non-empty trace raises its maximum to that value
      or leaves it unchanged. */
  lemma SeqMaxAppend(t: seq<real>, d: real)
    requires |t| > 0
    ensures SeqMax(t + [d]) == if d > SeqMax(t) then d else SeqMax(t)
  {
    var u := t + [d];
    assert u[..|u| - 1] == t;
  }

  /** The values of `t` never decrease from left to right: each entry is at
      least the one before it. */
  ghost predicate NonDecreasing(t: seq<real>)
  {
    |t| <= 1 || (t[|t| - 2] <= t[|t| - 1] && NonDecreasing(t[..|t| - 1]))
  }

  /** The maximum of a non-decreasing trace is its newest entry. */
  lemma {:induction false} NonDecreasingMax(t: seq<real>)
    requires |t| > 0 && NonDecreasing(t)
    ensures SeqMax(t) == t[|t| - 1]
  {
    if |t| > 1 {
      var p := t[..|t| - 1];
      NonDecreasingMax(p);
      assert p[|p| - 1] == t[|t| - 2];
    }
  }

  /** Appending a delta no smaller than the maximum keeps a trace non-decreasing. */
  lemma NonDecreasingAppend(t: seq<real>, d: real)
    requires NonDecreasing(t) && (|t| > 0 ==> SeqMax(t) <= d)
    ensures NonDecreasing(t + [d])
  {
    var u := t + [d];
    assert u[..|u| - 1] == t;
    if |t| > 0 {
      SeqMaxIsMaximum(t);
      assert u[|u| - 2] == t[|t| - 1] <= SeqMax(t);
    }
  }
}
