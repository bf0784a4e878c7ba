/** Sums over finite maps, and how changing one entry changes the sum. */
module Sums {

  ghost function SumBy<K, V>(m: map<K, V>, f: (K, V) -> int): int
    decreases |m|
  {
    if m == map[] then 0
    else
      var k :| k in m;
      f(k, m[k]) + SumBy(m - {k}, f)
  }

  lemma {:induction false} SumWithout<K, V>(m: map<K, V>, k: K, f: (K, V) -> int)
    requires k in m
    ensures SumBy(m, f) == f(k, m[k]) + SumBy(m - {k}, f)
    decreases |m|
  {
    var first :| first in m && SumBy(m, f) == f(first, m[first]) + SumBy(m - {first}, f);
    if first != k {
      SumWithout(m - {first}, k, f);
      SumWithout(m - {k}, first, f);
      assert m - {first} - {k} == m - {k} - {first};
    }
  }

  /** Setting an entry replaces its contribution. */
  lemma SumUpdate<K, V>(m: map<K, V>, k: K, v: V, f: (K, V) -> int)
    ensures SumBy(m[k := v], f) == SumBy(m, f) - (if k in m then f(k, m[k]) else 0) + f(k, v)
  {
    var m' := m[k := v];
    SumWithout(m', k, f);
    assert m' - {k} == m - {k};
    if k in m {
      SumWithout(m, k, f);
    } else {
      assert m - {k} == m;
    }
  }

  lemma {:induction false} SumNonNegative<K, V>(m: map<K, V>, f: (K, V) -> int)
    requires forall k :: k in m ==> f(k, m[k]) >= 0
    ensures SumBy(m, f) >= 0
    decreases |m|
  {
    if m != map[] {
      var k :| k in m && SumBy(m, f) == f(k, m[k]) + SumBy(m - {k}, f);
      SumNonNegative(m - {k}, f);
    }
  }

  /** No entry exceeds the sum. */
  lemma EntryWithinSum<K, V>(m: map<K, V>, k: K, f: (K, V) -> int)
    requires k in m && forall j :: j in m ==> f(j, m[j]) >= 0
    ensures f(k, m[k]) <= SumBy(m, f)
  {
    SumWithout(m, k, f);
    SumNonNegative(m - {k}, f);
  }

  ghost function SumSeq<T>(s: seq<T>, f: T -> int): int {
    if s == [] then 0 else f(s[0]) + SumSeq(s[1..], f)
  }

  lemma {:induction false} SumConcat<T>(s: seq<T>, t: seq<T>, f: T -> int)
    ensures SumSeq(s + t, f) == SumSeq(s, f) + SumSeq(t, f)
  {
    if s == [] {
      assert s + t == t;
    } else {
      assert (s + t)[1..] == s[1..] + t;
      SumConcat(s[1..], t, f);
    }
  }

  lemma SumSplit<T>(s: seq<T>, i: nat, f: T -> int)
    requires i < |s|
    ensures SumSeq(s, f) == SumSeq(s[..i], f) + f(s[i]) + SumSeq(s[i + 1..], f)
  {
    assert s == s[..i] + [s[i]] + s[i + 1..];
    SumConcat(s[..i] + [s[i]], s[i + 1..], f);
    SumConcat(s[..i], [s[i]], f);
    assert [s[i]][1..] == [];
  }

  /** Replacing, removing and inserting one element. */
  lemma SumSeqChanges<T>(s: seq<T>, i: nat, x: T, f: T -> int)
    ensures i < |s| ==> SumSeq(s[i := x], f) == SumSeq(s, f) - f(s[i]) + f(x)
    ensures i < |s| ==> SumSeq(s[..i] + s[i + 1..], f) == SumSeq(s, f) - f(s[i])
    ensures i <= |s| ==> SumSeq(s[..i] + [x] + s[i..], f) == SumSeq(s, f) + f(x)
  {
    if i < |s| {
      SumSplit(s, i, f);
      SumSplit(s[i := x], i, f);
      SumConcat(s[..i], s[i + 1..], f);
      assert s[i := x][..i] == s[..i] && s[i := x][i + 1..] == s[i + 1..];
    }
    if i <= |s| {
      var t := s[..i] + [x] + s[i..];
      SumSplit(t, i, f);
      assert t[..i] == s[..i] && t[i + 1..] == s[i..];
      SumConcat(s[..i], s[i..], f);
      assert s == s[..i] + s[i..];
    }
  }

  lemma {:induction false} SumSeqNonNegative<T>(s: seq<T>, f: T -> int)
    requires forall i :: 0 <= i < |s| ==> f(s[i]) >= 0
    ensures SumSeq(s, f) >= 0
  {
    if s != [] {
      SumSeqNonNegative(s[1..], f);
    }
  }

  /** No element exceeds the sum. */
  lemma ElementWithinSum<T>(s: seq<T>, i: nat, f: T -> int)
    requires i < |s| && forall j :: 0 <= j < |s| ==> f(s[j]) >= 0
    ensures 0 <= f(s[i]) <= SumSeq(s, f)
  {
    SumSplit(s, i, f);
    SumSeqNonNegative(s[..i], f);
    SumSeqNonNegative(s[i + 1..], f);
  }
}
