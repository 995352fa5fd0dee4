/**
 Python dictionaries as insertion-ordered association lists.

 A dict is a sequence of (key, value) entries; iterating it, or building a
 one-row data frame from it, visits the entries in sequence order. Every dict
 the program builds has pairwise distinct keys (`Distinct(Keys(d))`).
 */
module Dicts {

  type Dict<K, V> = seq<(K, V)>

  /** The keys of `d`, in iteration order. */
  function Keys<K, V>(d: Dict<K, V>): seq<K>
  {
    seq(|d|, i requires 0 <= i < |d| => d[i].0)
  }

  /** The values of `d`, in iteration order. */
  function Values<K, V>(d: Dict<K, V>): seq<V>
  {
    seq(|d|, i requires 0 <= i < |d| => d[i].1)
  }

  predicate Distinct<T(==)>(s: seq<T>)
  {
    forall i, j :: 0 <= i < j < |s| ==> s[i] != s[j]
  }

  /** `d.get(k, default)`: the value of the first entry whose key is `k`,
      or `default` when no entry has that key. */
  function Get<K(==), V>(d: Dict<K, V>, k: K, default: V): (v: V)
    ensures k !in Keys(d) ==> v == default
    ensures k in Keys(d) ==> (k, v) in d
    ensures forall i :: 0 <= i < |d| && d[i].0 == k && k !in Keys(d[..i]) ==> v == d[i].1
  {
    if |d| == 0 then default
    else if d[0].0 == k then
      assert Keys(d)[0] == k;
      assert forall i :: 0 < i <= |d| ==> Keys(d[..i])[0] == k;
      d[0].1
    else
      assert Keys(d) == [d[0].0] + Keys(d[1..]);
      assert forall i :: 1 <= i <= |d| ==> Keys(d[..i]) == [d[0].0] + Keys(d[1..][..i-1]);
      Get(d[1..], k, default)
  }

  /** `d[k]` for a key the dict holds: the value of its first entry. */
  function At<K(==), V>(d: Dict<K, V>, k: K): (v: V)
    requires k in Keys(d)
    ensures (k, v) in d
  {
    if d[0].0 == k then d[0].1
    else
      assert Keys(d) == [d[0].0] + Keys(d[1..]);
      At(d[1..], k)
  }

  /** In a dict with distinct keys, `get` finds the one entry for the key. */
  lemma GetEntry<K, V>(d: Dict<K, V>, k: K, v: V, default: V)
    requires Distinct(Keys(d))
    requires (k, v) in d
    ensures Get(d, k, default) == v
  {
    var i :| 0 <= i < |d| && d[i] == (k, v);
    forall j | 0 <= j < i
      ensures Keys(d[..i])[j] != k
    {
      assert Keys(d)[j] != Keys(d)[i];
    }
  }

  /** `d[k] = v`: an existing key keeps its position and takes the new value;
      a new key is appended at the end. */
  function Put<K(==), V>(d: Dict<K, V>, k: K, v: V): (r: Dict<K, V>)
    requires Distinct(Keys(d))
    ensures Distinct(Keys(r))
    ensures k in Keys(d) ==> Keys(r) == Keys(d)
    ensures k !in Keys(d) ==> Keys(r) == Keys(d) + [k]
    ensures forall i :: 0 <= i < |r| ==> r[i] == if i < |d| && d[i].0 != k then d[i] else (k, v)
  {
    if |d| == 0 then [(k, v)]
    else
      KeysCons(d);
      if d[0].0 == k then
        var r := [(k, v)] + d[1..];
        assert r[1..] == d[1..];
        KeysCons(r);
        forall i | 0 < i < |d|
          ensures d[i].0 != k
        {
          assert Keys(d[1..])[i - 1] == d[i].0;
        }
        r
      else
        var rest := Put(d[1..], k, v);
        var r := [d[0]] + rest;
        assert r[1..] == rest;
        KeysCons(r);
        r
  }

  /** The keys of a non-empty dict are its first key followed by the keys of
      the rest; with distinct keys, the first key does not recur. */
  lemma KeysCons<K, V>(d: Dict<K, V>)
    requires |d| > 0
    ensures Keys(d) == [d[0].0] + Keys(d[1..])
    ensures Distinct(Keys(d)) ==> Distinct(Keys(d[1..])) && d[0].0 !in Keys(d[1..])
  {
    assert Keys(d) == [d[0].0] + Keys(d[1..]);
    if Distinct(Keys(d)) {
      assert Keys(d[1..]) == Keys(d)[1..];
      forall j | 0 <= j < |d| - 1
        ensures Keys(d[1..])[j] != d[0].0
      {
        assert Keys(d)[j + 1] != Keys(d)[0];
      }
    }
  }

  /** `{k: v for k, v in d.items() if k in keep}`: the entries whose key is
      kept, in their original order. */
  function Filter<K(!new), V(!new)>(d: Dict<K, V>, keep: set<K>): (r: Dict<K, V>)
    ensures forall e :: e in r <==> e in d && e.0 in keep
    ensures (forall i :: 0 <= i < |d| ==> d[i].0 in keep) ==> r == d
  {
    if |d| == 0 then []
    else if d[0].0 in keep then [d[0]] + Filter(d[1..], keep)
    else Filter(d[1..], keep)
  }

  /** Filtering works entry by entry and keeps the original order: filtering
      a concatenation filters each part, and a single entry stays exactly
      when its key is kept. */
  lemma {:induction false} FilterKeepsOrder<K(!new), V(!new)>(a: Dict<K, V>, b: Dict<K, V>, e: (K, V), keep: set<K>)
    ensures Filter(a + b, keep) == Filter(a, keep) + Filter(b, keep)
    ensures Filter([e], keep) == if e.0 in keep then [e] else []
  {
    if |a| == 0 {
      assert a + b == b;
    } else {
      assert (a + b)[1..] == a[1..] + b;
      FilterKeepsOrder(a[1..], b, e, keep);
    }
  }

  /** The position of the first occurrence of `x` in `s`. */
  function FirstIndex<T(==)>(s: seq<T>, x: T): (i: nat)
    requires x in s
    ensures i < |s| && s[i] == x && x !in s[..i]
  {
    if s[0] == x then 0
    else
      var i := FirstIndex(s[1..], x);
      assert s[..i + 1] == [s[0]] + s[1..][..i];
      i + 1
  }

  /** An element occurring in a prefix first occurs where it first occurs in
      that prefix. */
  lemma FirstIndexInPrefix<T>(s: seq<T>, n: nat, x: T)
    requires n <= |s| && x in s[..n]
    ensures FirstIndex(s, x) == FirstIndex(s[..n], x)
  {
    var i := FirstIndex(s, x);
    var k := FirstIndex(s[..n], x);
    assert s[k] == x;
    assert s[..n][..k] == s[..k];
    assert forall j :: 0 <= j < k ==> s[..k][j] == s[j] != x;
    assert forall j :: 0 <= j < i ==> s[..i][j] == s[j] != x;
  }

  /** The first occurrences of the elements of `s`, in order: the keys a dict
      comprehension over `s` ends up with. */
  function Dedup<T(==,!new)>(s: seq<T>): (r: seq<T>)
    ensures Distinct(r)
    ensures forall x :: x in r <==> x in s
    ensures forall i, j :: 0 <= i < j < |r| ==> FirstIndex(s, r[i]) < FirstIndex(s, r[j])
  {
    if |s| == 0 then []
    else
      var init := s[..|s| - 1];
      var p := Dedup(init);
      var x := s[|s| - 1];
      assert forall y :: y in s <==> y in init || y == x;
      assert s[..|s| - 1] == init;
      forall y | y in init
        ensures FirstIndex(s, y) == FirstIndex(init, y) < |s| - 1
      {
        FirstIndexInPrefix(s, |s| - 1, y);
      }
      if x in p then p
      else
        assert FirstIndex(s, x) == |s| - 1 by {
          assert forall j :: 0 <= j < |s| - 1 ==> init[j] == s[j] != x;
        }
        p + [x]
  }

  /** A sequence without repetitions is its own deduplication. */
  lemma {:induction false} DedupOfDistinct<T(!new)>(s: seq<T>)
    requires Distinct(s)
    ensures Dedup(s) == s
  {
    if |s| > 0 {
      var init := s[..|s| - 1];
      assert Distinct(init);
      DedupOfDistinct(init);
      assert s[|s| - 1] !in init;
      assert init + [s[|s| - 1]] == s;
    }
  }
}
