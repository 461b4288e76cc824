/**
 * Order and last-write-wins bookkeeping shared by the three folds: which
 * keys a sequence of events touched, in the order they were first seen,
 * and which value the last event on each key left behind.
 */
module Keyed {

  /** No key occurs twice. */
  predicate Distinct<K(==,!new)>(ks: seq<K>)
  {
    forall i, j :: 0 <= i < j < |ks| ==> ks[i] != ks[j]
  }

  lemma {:induction false} DistinctSnoc<K(!new)>(ks: seq<K>, x: K)
    requires Distinct(ks + [x])
    ensures Distinct(ks) && x !in ks
  {
    forall i, j | 0 <= i < j < |ks|
      ensures ks[i] != ks[j]
    {
      assert (ks + [x])[i] == ks[i] && (ks + [x])[j] == ks[j];
    }
    forall i | 0 <= i < |ks|
      ensures ks[i] != x
    {
      assert (ks + [x])[i] == ks[i] && (ks + [x])[|ks|] == x;
    }
  }

  /** Position of the first occurrence of k. */
  function FirstIndex<K(==,!new)>(ks: seq<K>, k: K): (i: nat)
    requires k in ks
    ensures i < |ks| && ks[i] == k
    ensures forall j :: 0 <= j < i ==> ks[j] != k
  {
    if ks[0] == k then 0 else 1 + FirstIndex(ks[1..], k)
  }

  /** Position of the last occurrence of k. */
  function LastIndex<K(==,!new)>(ks: seq<K>, k: K): (i: nat)
    requires k in ks
    ensures i < |ks| && ks[i] == k
    ensures forall j :: i < j < |ks| ==> ks[j] != k
  {
    if ks[|ks| - 1] == k then |ks| - 1 else LastIndex(ks[..|ks| - 1], k)
  }

  /** The keys of ks, each once, in the order of their first occurrence. */
  function FirstSeen<K(==,!new)>(ks: seq<K>): (r: seq<K>)
    ensures Distinct(r)
    ensures forall k :: k in r <==> k in ks
  {
    if ks == [] then []
    else
      var prefix := ks[..|ks| - 1];
      assert ks == prefix + [ks[|ks| - 1]];
      var r' := FirstSeen(prefix);
      if ks[|ks| - 1] in r' then r' else r' + [ks[|ks| - 1]]
  }

  /** The map from each key of ks to the value paired with its last occurrence. */
  function LastWins<K(==,!new), V>(ks: seq<K>, vs: seq<V>): (m: map<K, V>)
    requires |ks| == |vs|
    ensures forall k :: k in m <==> k in ks
    ensures forall k :: k in m ==> m[k] == vs[LastIndex(ks, k)]
  {
    if ks == [] then map[]
    else
      assert ks == ks[..|ks| - 1] + [ks[|ks| - 1]];
      LastWins(ks[..|ks| - 1], vs[..|vs| - 1])[ks[|ks| - 1] := vs[|vs| - 1]]
  }

  /** Occurrences already present keep their first position when ks grows. */
  lemma {:induction false} FirstIndexSnoc<K(!new)>(ks: seq<K>, x: K, k: K)
    requires k in ks
    ensures k in ks + [x] && FirstIndex(ks + [x], k) == FirstIndex(ks, k)
  {
    var i, i' := FirstIndex(ks + [x], k), FirstIndex(ks, k);
    assert (ks + [x])[i'] == k;
  }

  /** FirstSeen lists keys strictly by the position of their first occurrence. */
  lemma {:induction false} FirstSeenOrdered<K(!new)>(ks: seq<K>)
    ensures forall i, j :: 0 <= i < j < |FirstSeen(ks)| ==>
      FirstIndex(ks, FirstSeen(ks)[i]) < FirstIndex(ks, FirstSeen(ks)[j])
  {
    if ks != [] {
      var prefix, x := ks[..|ks| - 1], ks[|ks| - 1];
      assert ks == prefix + [x];
      FirstSeenOrdered(prefix);
      var r', r := FirstSeen(prefix), FirstSeen(ks);
      forall i | 0 <= i < |r'|
        ensures FirstIndex(ks, r'[i]) == FirstIndex(prefix, r'[i]) < |prefix|
      {
        FirstIndexSnoc(prefix, x, r'[i]);
      }
      if x !in r' {
        assert x !in prefix;
        assert FirstIndex(ks, x) == |prefix|;
      }
    }
  }

  /** With no key repeated, FirstSeen keeps the sequence as it is. */
  lemma {:induction false} FirstSeenDistinct<K(!new)>(ks: seq<K>)
    requires Distinct(ks)
    ensures FirstSeen(ks) == ks
  {
    if ks != [] {
      var prefix := ks[..|ks| - 1];
      FirstSeenDistinct(prefix);
      assert ks == prefix + [ks[|ks| - 1]];
    }
  }

  /** A sequence repeating one key has that key as its only first occurrence. */
  lemma {:induction false} FirstSeenConst<K(!new)>(ks: seq<K>, k: K)
    requires ks != []
    requires forall i :: 0 <= i < |ks| ==> ks[i] == k
    ensures FirstSeen(ks) == [k]
  {
    var prefix := ks[..|ks| - 1];
    if prefix != [] {
      FirstSeenConst(prefix, k);
    }
    assert ks == prefix + [k];
  }

  /** One more key extends FirstSeen exactly when the key is new. */
  lemma {:induction false} FirstSeenSnoc<K(!new)>(ks: seq<K>, k: K)
    ensures FirstSeen(ks + [k]) == if k in FirstSeen(ks) then FirstSeen(ks) else FirstSeen(ks) + [k]
  {
    assert (ks + [k])[..|ks|] == ks;
  }

  /** One more (key, value) pair overwrites that key and nothing else. */
  lemma {:induction false} LastWinsSnoc<K(!new), V>(ks: seq<K>, vs: seq<V>, k: K, v: V)
    requires |ks| == |vs|
    ensures LastWins(ks + [k], vs + [v]) == LastWins(ks, vs)[k := v]
  {
    assert (ks + [k])[..|ks|] == ks;
    assert (vs + [v])[..|vs|] == vs;
  }

  /** A key other than the appended one keeps its last position. */
  lemma {:induction false} LastIndexSnoc<K(!new)>(ks: seq<K>, x: K, k: K)
    requires k in ks && k != x
    ensures k in ks + [x] && LastIndex(ks + [x], k) == LastIndex(ks, k)
  {
    assert (ks + [x])[..|ks|] == ks;
  }

  /** Taking one more element of s appends that element. */
  lemma {:induction false} SliceSnoc<T>(s: seq<T>, i: nat)
    requires i < |s|
    ensures s[..i + 1] == s[..i] + [s[i]]
  {
  }

  lemma {:induction false} SliceAll<T>(s: seq<T>)
    ensures s[..|s|] == s
  {
  }

  lemma {:induction false} AppendAssoc<T>(a: seq<T>, b: seq<T>, c: seq<T>)
    ensures a + (b + c) == (a + b) + c
  {
  }

  /** A key that occurs in the appended part is last seen there. */
  lemma {:induction false} LastIndexAppendRight<K(!new)>(a: seq<K>, b: seq<K>, k: K)
    requires k in b
    ensures k in a + b && LastIndex(a + b, k) == |a| + LastIndex(b, k)
  {
    var i := LastIndex(b, k);
    assert (a + b)[|a| + i] == k;
  }

  /** A key absent from the appended part keeps its last position. */
  lemma {:induction false} LastIndexAppendLeft<K(!new)>(a: seq<K>, b: seq<K>, k: K)
    requires k in a && k !in b
    ensures k in a + b && LastIndex(a + b, k) == LastIndex(a, k)
  {
    var i := LastIndex(a, k);
    assert (a + b)[i] == k;
  }

  /** The rows of rows whose key, as key computes it, is k, in order. */
  function RowsOn<R, K(==)>(rows: seq<R>, key: R -> K, k: K): seq<R>
  {
    if rows == [] then []
    else RowsOn(rows[..|rows| - 1], key, k) + (if key(rows[|rows| - 1]) == k then [rows[|rows| - 1]] else [])
  }

  lemma {:induction false} RowsOnSnoc<R, K>(rows: seq<R>, r: R, key: R -> K, k: K)
    ensures RowsOn(rows + [r], key, k) == RowsOn(rows, key, k) + (if key(r) == k then [r] else [])
  {
    assert (rows + [r])[..|rows|] == rows;
  }
}
