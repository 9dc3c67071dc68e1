/** Sequence helpers: first occurrence, duplicate-freedom, and the
    de-duplication `[...new Set(s)]` performs (insertion order, first
    occurrence kept). */
module Seqs {

  predicate NoDuplicates<T(==)>(s: seq<T>)
  {
    forall i, j :: 0 <= i < j < |s| ==> s[i] != s[j]
  }

  /** Cutting a sequence in two and joining the halves gives it back. */
  lemma TakeDrop<T>(s: seq<T>, k: nat)
    requires k <= |s|
    ensures s[..k] + s[k..] == s
  {
  }

  /** `pre + [x] + tail` seen as `pre` followed by the rest, with `x` at `|pre|`. */
  lemma ConsAt<T>(pre: seq<T>, x: T, tail: seq<T>)
    ensures pre + [x] + tail == pre + ([x] + tail)
    ensures (pre + [x] + tail)[|pre|] == x
    ensures (pre + [x] + tail)[|pre| + 1..] == tail
  {
  }

  /** Index of the first occurrence of `x` in `s`. */
  function FirstIndex<T(==)>(s: seq<T>, x: T): (r: nat)
    requires x in s
    ensures r < |s| && s[r] == x
    ensures forall j :: 0 <= j < r ==> s[j] != x
  {
    if s[0] == x then 0 else 1 + FirstIndex(s[1..], x)
  }

  /** An element of a prefix has the same first index in the whole sequence. */
  lemma FirstIndexPrefix<T>(s: seq<T>, n: nat, x: T)
    requires n <= |s| && x in s[..n]
    ensures FirstIndex(s, x) == FirstIndex(s[..n], x)
  {
    var k := FirstIndex(s[..n], x);
    var f := FirstIndex(s, x);
    assert s[k] == x;
    assert f <= k;
    assert s[..n][f] == x;
  }

  /** `[...new Set(s)]`: each distinct element once; an element is added when
      it is first met. */
  function Dedup<T(==)>(s: seq<T>): (r: seq<T>)
    ensures NoDuplicates(r)
    ensures forall i :: 0 <= i < |r| ==> r[i] in s
    ensures forall i :: 0 <= i < |s| ==> s[i] in r
    decreases |s|
  {
    if s == [] then []
    else
      var init := s[..|s| - 1];
      var x := s[|s| - 1];
      var d := Dedup(init);
      assert s == init + [x];
      assert forall i :: 0 <= i < |s| - 1 ==> s[i] == init[i];
      if x in d then d else d + [x]
  }

  /** De-duplication keeps the order of first occurrences. */
  lemma {:induction false} DedupOrder<T>(s: seq<T>)
    ensures forall i, j :: 0 <= i < j < |Dedup(s)| ==> FirstIndex(s, Dedup(s)[i]) < FirstIndex(s, Dedup(s)[j])
    decreases |s|
  {
    if s != [] {
      var init := s[..|s| - 1];
      var x := s[|s| - 1];
      var d := Dedup(init);
      DedupOrder(init);
      assert s == init + [x];
      forall i | 0 <= i < |d| ensures FirstIndex(s, d[i]) == FirstIndex(init, d[i]) {
        FirstIndexPrefix(s, |s| - 1, d[i]);
      }
      if x !in d {
        assert x !in init;
        assert FirstIndex(s, x) == |s| - 1;
        var r := d + [x];
        assert Dedup(s) == r;
        forall i, j | 0 <= i < j < |r| ensures FirstIndex(s, r[i]) < FirstIndex(s, r[j]) {
          if j == |d| {
            assert r[i] == d[i];
            assert FirstIndex(init, d[i]) < |init|;
          } else {
            assert r[i] == d[i] && r[j] == d[j];
          }
        }
      }
    }
  }

  /** A sequence without duplicates is its own de-duplication. */
  lemma {:induction false} DedupUnchanged<T>(s: seq<T>)
    requires NoDuplicates(s)
    ensures Dedup(s) == s
    decreases |s|
  {
    if s != [] {
      var init := s[..|s| - 1];
      assert NoDuplicates(init);
      DedupUnchanged(init);
      assert s[|s| - 1] !in init;
      assert init + [s[|s| - 1]] == s;
    }
  }
}
