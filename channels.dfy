/** List surgery on channel-label sequences: `list.pop(i)`, `del list[i]` and
    `np.delete(array, i, axis)` all remove one position and keep the order of
    the rest; `list[-2:]` keeps the last two entries. */
module Channels {

  /** The sequence with position `i` removed. */
  function RemoveAt<L>(s: seq<L>, i: nat): (r: seq<L>)
    requires i < |s|
    ensures |r| == |s| - 1
  {
    s[..i] + s[i + 1..]
  }

  /** Deleting the element at `i` keeps the entries before it in place, moves
      the ones after it down by one, and takes exactly one copy of `s[i]` out of
      the list. */
  lemma RemoveAtSpec<T>(s: seq<T>, i: nat)
    requires i < |s|
    ensures forall k :: 0 <= k < i ==> RemoveAt(s, i)[k] == s[k]
    ensures forall k :: i <= k < |s| - 1 ==> RemoveAt(s, i)[k] == s[k + 1]
    ensures multiset(RemoveAt(s, i)) + multiset{s[i]} == multiset(s)
  {
    assert s == s[..i] + [s[i]] + s[i + 1..];
  }

  /** A prefix of a prefix is a prefix. */
  lemma PrefixOfPrefix<T>(a: seq<T>, b: seq<T>, c: seq<T>)
    requires |c| <= |b| <= |a| && a[..|b|] == b && b[..|c|] == c
    ensures a[..|c|] == c
  {
    assert a[..|c|] == a[..|b|][..|c|];
  }

  /** Python's `s[-2:]`: the last two entries, or all of `s` when it is shorter. */
  function LastTwo<L>(s: seq<L>): (r: seq<L>)
    ensures |r| == if |s| < 2 then |s| else 2
    ensures s[..|s| - |r|] + r == s
  {
    if |s| <= 2 then s else s[|s| - 2..]
  }

  /** No label occurs twice. */
  ghost predicate NoDup<L>(s: seq<L>)
  {
    forall i, j :: 0 <= i < j < |s| ==> s[i] != s[j]
  }

  /** A sequence has no duplicates exactly when no label occurs more than once
      in its multiset. */
  lemma {:induction false} NoDupIffSingletons<L>(s: seq<L>)
    ensures NoDup(s) <==> forall x :: multiset(s)[x] <= 1
  {
    if s != [] {
      var t := s[1..];
      assert s == [s[0]] + t;
      NoDupIffSingletons(t);
      assert multiset(s) == multiset{s[0]} + multiset(t);
      if NoDup(s) {
        assert s[0] !in t by {
          forall k | 0 <= k < |t| ensures t[k] != s[0] {
            assert t[k] == s[k + 1];
          }
        }
        assert NoDup(t) by {
          forall i, j | 0 <= i < j < |t| ensures t[i] != t[j] {
            assert t[i] == s[i + 1] && t[j] == s[j + 1];
          }
        }
      }
      if forall x :: multiset(s)[x] <= 1 {
        assert multiset(s)[s[0]] == multiset(t)[s[0]] + 1;
        assert s[0] !in multiset(t);
        forall x ensures multiset(t)[x] <= 1 {
          assert multiset(s)[x] >= multiset(t)[x];
        }
        forall i, j | 0 <= i < j < |s| ensures s[i] != s[j] {
          if i == 0 {
            assert s[j] == t[j - 1];
            assert s[j] in t;
          } else {
            assert s[i] == t[i - 1] && s[j] == t[j - 1];
          }
        }
      }
    }
  }

  /** A channel list drawn (as a sub-multiset) from a list without duplicates
      has no duplicates either, and every label of it is in the larger list. */
  lemma SubListKeepsNoDup<L>(a: seq<L>, b: seq<L>)
    requires multiset(a) <= multiset(b) && NoDup(b)
    ensures NoDup(a)
    ensures forall x :: x in a ==> x in b
  {
    NoDupIffSingletons(b);
    NoDupIffSingletons(a);
    forall x | x in a ensures x in b {
      assert x in multiset(a);
    }
  }
}
