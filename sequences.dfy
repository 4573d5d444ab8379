/** Sequence helpers used by the drum model: distinctness and Python's
    `list.index`, which `next_drum` uses to find the current drum name. */
module Sequences {

  /** No element occurs twice. */
  predicate Distinct<T(==)>(s: seq<T>) {
    forall i, j :: 0 <= i < j < |s| ==> s[i] != s[j]
  }

  /** `Distinct` stated element by element: the head is not in the tail, and
      so on down the sequence. The calibration invariant uses this form
      because its recursion is cheaper for the solver than the pair
      quantifier; `NoRepeatsDistinct` connects the two. */
  predicate NoRepeats<T(==)>(s: seq<T>) {
    s == [] || (s[0] !in s[1..] && NoRepeats(s[1..]))
  }

  lemma {:induction false} NoRepeatsDistinct<T>(s: seq<T>)
    ensures NoRepeats(s) <==> Distinct(s)
  {
    if s != [] {
      NoRepeatsDistinct(s[1..]);
      if Distinct(s) {
        assert s[0] !in s[1..] by {
          forall j | 0 <= j < |s[1..]| ensures s[1..][j] != s[0] {
            assert s[1..][j] == s[j + 1];
          }
        }
      }
      if NoRepeats(s) {
        forall i, j | 0 <= i < j < |s| ensures s[i] != s[j] {
          if i > 0 {
            assert s[i] == s[1..][i - 1] && s[j] == s[1..][j - 1];
          } else {
            assert s[j] == s[1..][j - 1];
          }
        }
      }
    }
  }

  /** In a sequence without repetitions, `list.index` of the element at `k` is `k`. */
  lemma IndexOfNoRepeats<T>(s: seq<T>, k: nat)
    requires NoRepeats(s) && k < |s|
    ensures FirstIndex(s, s[k]) == k
  {
    NoRepeatsDistinct(s);
    FirstIndexOfDistinct(s, k);
  }

  /** A sequence without repetitions has as many distinct elements as positions. */
  lemma {:induction false} DistinctCard<T>(s: seq<T>)
    requires Distinct(s)
    ensures |set x | x in s| == |s|
  {
    if s != [] {
      var init := s[..|s| - 1];
      DistinctCard(init);
      assert (set x | x in s) == (set x | x in init) + {s[|s| - 1]};
    }
  }

  /** Position of the first occurrence of `x` in `s`. */
  function FirstIndex<T(==)>(s: seq<T>, x: T): (i: nat)
    requires x in s
    ensures i < |s| && s[i] == x
    ensures forall j :: 0 <= j < i ==> s[j] != x
  {
    if s[0] == x then 0 else 1 + FirstIndex(s[1..], x)
  }

  /** In a sequence without repetitions, the element at position `k` is found at `k`. */
  lemma FirstIndexOfDistinct<T>(s: seq<T>, k: nat)
    requires Distinct(s) && k < |s|
    ensures FirstIndex(s, s[k]) == k
  {
  }

  /** Cutting the sequence after the first occurrence does not move it. */
  lemma {:induction false} FirstIndexOfPrefix<T>(s: seq<T>, n: nat, x: T)
    requires n <= |s| && x in s[..n]
    ensures FirstIndex(s, x) == FirstIndex(s[..n], x)
  {
    if s[0] != x {
      assert s[..n][1..] == s[1..][..n - 1];
      FirstIndexOfPrefix(s[1..], n - 1, x);
    }
  }

  /** `list.index(x)`: scans from the front and stops at the first match.
      Python raises `ValueError` when `x` is absent; every caller in the
      script passes a name that is in the list. */
  method IndexOf<T(==)>(s: seq<T>, x: T) returns (i: nat)
    requires x in s
    ensures i == FirstIndex(s, x)
  {
    i := 0;
    while s[i] != x
      invariant i <= FirstIndex(s, x)
      decreases FirstIndex(s, x) - i
    {
      i := i + 1;
    }
  }
}
