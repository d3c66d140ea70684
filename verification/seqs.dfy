/** First- and last-occurrence lookups and first-occurrence de-duplication,
    the "seen set" idiom the pipeline uses for ids, sources and chunk keys. */
module Seqs {

  /** The keys of `s`, position by position. */
  function Keys<T, K>(s: seq<T>, key: T -> K): (r: seq<K>)
    ensures |r| == |s|
    ensures forall i :: 0 <= i < |s| ==> r[i] == key(s[i])
  {
    seq(|s|, i requires 0 <= i < |s| => key(s[i]))
  }

  lemma KeysPrefix<T, K>(s: seq<T>, key: T -> K, n: nat)
    requires n <= |s|
    ensures Keys(s[..n], key) == Keys(s, key)[..n]
  {
  }

  /** Sequence facts stated once over any element type, so that using them
      at a concrete type does not send the solver into element equality. */
  lemma AppendAssoc<T>(a: seq<T>, b: seq<T>, c: seq<T>)
    ensures a + b + c == a + (b + c)
  {
  }

  lemma AppendEmpty<T>(s: seq<T>)
    ensures [] + s == s && s[0..] == s
  {
  }

  lemma KeysSnoc<T, K>(s: seq<T>, x: T, key: T -> K)
    ensures Keys(s + [x], key) == Keys(s, key) + [key(x)]
  {
  }

  lemma KeysConcat<T, K>(a: seq<T>, b: seq<T>, key: T -> K)
    ensures Keys(a + b, key) == Keys(a, key) + Keys(b, key)
  {
  }

  ghost predicate DistinctKeys<T, K>(s: seq<T>, key: T -> K) {
    forall i, j :: 0 <= i < j < |s| ==> key(s[i]) != key(s[j])
  }

  /** Position of the first occurrence of `k`, or `|s|` when there is none. */
  function FirstIdx<K(==)>(s: seq<K>, k: K): (r: nat)
    ensures r <= |s| && k !in s[..r]
    ensures r < |s| <==> k in s
    ensures r < |s| ==> s[r] == k
  {
    if |s| == 0 then 0 else if s[0] == k then 0 else 1 + FirstIdx(s[1..], k)
  }

  /** Position of the last occurrence of `k`. */
  function LastIdx<K(==)>(s: seq<K>, k: K): (r: nat)
    requires k in s
    ensures r < |s| && s[r] == k && k !in s[r + 1..]
  {
    if s[|s| - 1] == k then |s| - 1 else LastIdx(s[..|s| - 1], k)
  }

  /** Extending a sequence does not move a first occurrence already present. */
  lemma FirstIdxPrefix<K>(s: seq<K>, n: nat, k: K)
    requires n <= |s| && k in s[..n]
    ensures FirstIdx(s, k) == FirstIdx(s[..n], k)
  {
    var f := FirstIdx(s[..n], k);
    assert s[f] == k;
    assert s[..f] == s[..n][..f];
  }

  /** The elements of `s` whose key has not been seen earlier in `s`:
      a loop that keeps a `seen` set and appends each element whose key is
      new. */
  function DedupBy<T, K(==)>(s: seq<T>, key: T -> K): (r: seq<T>)
    ensures |r| <= |s|
  {
    if |s| == 0 then []
    else
      var p := DedupBy(s[..|s| - 1], key);
      var x := s[|s| - 1];
      if key(x) in Keys(p, key) then p else p + [x]
  }

  /** The step of the `seen`-set loop: one more element is appended exactly
      when its key is new. */
  lemma DedupBySnoc<T, K>(s: seq<T>, x: T, key: T -> K)
    ensures DedupBy(s + [x], key) ==
      if key(x) in Keys(DedupBy(s, key), key) then DedupBy(s, key) else DedupBy(s, key) + [x]
  {
    assert (s + [x])[..|s|] == s;
  }

  lemma {:induction false} DedupByDistinct<T, K>(s: seq<T>, key: T -> K)
    ensures DistinctKeys(DedupBy(s, key), key)
  {
    if |s| > 0 {
      DedupByDistinct(s[..|s| - 1], key);
    }
  }

  /** Every key of the input survives, and every kept element is the first
      element of the input carrying its key. */
  lemma {:induction false} DedupByFirst<T, K>(s: seq<T>, key: T -> K)
    ensures forall i :: 0 <= i < |s| ==> key(s[i]) in Keys(DedupBy(s, key), key)
    ensures forall m :: 0 <= m < |DedupBy(s, key)| ==>
              key(DedupBy(s, key)[m]) in Keys(s, key) &&
              DedupBy(s, key)[m] == s[FirstIdx(Keys(s, key), key(DedupBy(s, key)[m]))]
  {
    if |s| > 0 {
      var init := s[..|s| - 1];
      var x := s[|s| - 1];
      var p := DedupBy(init, key);
      var r := DedupBy(s, key);
      var ks := Keys(s, key);
      DedupByFirst(init, key);
      KeysPrefix(s, key, |s| - 1);
      assert ks == Keys(init, key) + [key(x)];
      forall m | 0 <= m < |p|
        ensures key(p[m]) in ks && p[m] == s[FirstIdx(ks, key(p[m]))]
      {
        FirstIdxPrefix(ks, |s| - 1, key(p[m]));
      }
      if key(x) !in Keys(p, key) {
        assert r == p + [x];
        assert key(x) !in Keys(init, key);
        assert FirstIdx(ks, key(x)) == |s| - 1;
        assert Keys(r, key) == Keys(p, key) + [key(x)];
      }
    }
  }

  /** Kept elements appear in the order their keys first appear in the input. */
  lemma {:induction false} DedupByOrder<T, K>(s: seq<T>, key: T -> K)
    ensures forall m1, m2 :: 0 <= m1 < m2 < |DedupBy(s, key)| ==>
              FirstIdx(Keys(s, key), key(DedupBy(s, key)[m1])) < FirstIdx(Keys(s, key), key(DedupBy(s, key)[m2]))
  {
    if |s| > 0 {
      var init := s[..|s| - 1];
      var x := s[|s| - 1];
      var p := DedupBy(init, key);
      var r := DedupBy(s, key);
      var ks := Keys(s, key);
      DedupByOrder(init, key);
      DedupByFirst(init, key);
      KeysPrefix(s, key, |s| - 1);
      assert ks == Keys(init, key) + [key(x)];
      forall m | 0 <= m < |p|
        ensures FirstIdx(ks, key(p[m])) == FirstIdx(Keys(init, key), key(p[m])) < |s| - 1
      {
        FirstIdxPrefix(ks, |s| - 1, key(p[m]));
      }
      if key(x) !in Keys(p, key) {
        assert r == p + [x];
        assert key(x) !in Keys(init, key);
        assert FirstIdx(ks, key(x)) == |s| - 1;
      }
      forall m1, m2 | 0 <= m1 < m2 < |r|
        ensures FirstIdx(ks, key(r[m1])) < FirstIdx(ks, key(r[m2]))
      {
        assert r[m1] == p[m1];
        if m2 < |p| {
          assert r[m2] == p[m2];
          assert FirstIdx(Keys(init, key), key(p[m1])) < FirstIdx(Keys(init, key), key(p[m2]));
        }
      }
    } else {
      assert DedupBy(s, key) == [];
    }
  }

  /** The sum of `f` over the elements of `s`. */
  function SumOf<T>(s: seq<T>, f: T -> nat): nat {
    if s == [] then 0 else f(s[0]) + SumOf(s[1..], f)
  }

  lemma SumOfCons<T>(x: T, s: seq<T>, f: T -> nat)
    ensures SumOf([x] + s, f) == f(x) + SumOf(s, f)
  {
    assert ([x] + s)[1..] == s;
  }

  lemma {:induction false} SumOfSnoc<T>(s: seq<T>, x: T, f: T -> nat)
    ensures SumOf(s + [x], f) == SumOf(s, f) + f(x)
  {
    if s == [] {
      assert s + [x] == [x] + [];
      SumOfCons(x, [], f);
    } else {
      SumOfSnoc(s[1..], x, f);
      assert s + [x] == [s[0]] + (s[1..] + [x]);
      SumOfCons(s[0], s[1..] + [x], f);
      assert s == [s[0]] + s[1..];
      SumOfCons(s[0], s[1..], f);
    }
  }

  /** The lists of `sets` laid end to end, in order. */
  function Flatten<T>(sets: seq<seq<T>>): seq<T> {
    if |sets| == 0 then [] else Flatten(sets[..|sets| - 1]) + sets[|sets| - 1]
  }

  lemma FlattenSnoc<T>(sets: seq<seq<T>>)
    requires |sets| > 0
    ensures Flatten(sets) == Flatten(sets[..|sets| - 1]) + sets[|sets| - 1]
  {
  }

  /** `list(range(n))`. */
  function Range(n: nat): (r: seq<nat>)
    ensures |r| == n && forall k :: 0 <= k < n ==> r[k] == k
  {
    seq(n, k => k)
  }

  function Identity<K>(k: K): K { k }

  lemma KeysIdentity<K>(s: seq<K>)
    ensures Keys(s, Identity) == s
  {
  }

  /** The distinct values of `s` in order of first appearance. */
  function Dedup<K(==)>(s: seq<K>): seq<K> {
    DedupBy(s, Identity)
  }

  /** The step a `seen`-set loop takes on one more element. */
  lemma DedupSnoc<K>(s: seq<K>, x: K)
    ensures Dedup(s + [x]) == if x in Dedup(s) then Dedup(s) else Dedup(s) + [x]
  {
    assert (s + [x])[..|s|] == s;
    KeysIdentity(Dedup(s));
  }

  /** The step of a `seen`-set loop, with what it keeps: the list so far is
      drawn from `s` without repeats, and `x` is appended exactly when it is
      new. */
  lemma DedupSnocFacts<K>(s: seq<K>, x: K)
    ensures x in s ==> Dedup(s + [x]) == Dedup(s) && x in Dedup(s)
    ensures x !in s ==> Dedup(s + [x]) == Dedup(s) + [x] && x !in Dedup(s)
    ensures forall k :: 0 <= k < |Dedup(s)| ==> Dedup(s)[k] in s
    ensures forall i, j :: 0 <= i < j < |Dedup(s)| ==> Dedup(s)[i] != Dedup(s)[j]
  {
    DedupSnoc(s, x);
    DedupCorrect(s);
  }

  /** `Dedup(s)` lists each value of `s` exactly once, in the order of its
      first appearance. */
  lemma DedupCorrect<K>(s: seq<K>)
    ensures forall i, j :: 0 <= i < j < |Dedup(s)| ==> Dedup(s)[i] != Dedup(s)[j]
    ensures forall x :: x in Dedup(s) <==> x in s
    ensures forall k :: 0 <= k < |Dedup(s)| ==> Dedup(s)[k] in s
    ensures forall i, j :: 0 <= i < j < |Dedup(s)| ==> FirstIdx(s, Dedup(s)[i]) < FirstIdx(s, Dedup(s)[j])
  {
    var r := Dedup(s);
    DedupByDistinct(s, Identity);
    DedupByFirst(s, Identity);
    DedupByOrder(s, Identity);
    KeysIdentity(s);
    KeysIdentity(r);
    forall x | x in s ensures x in r {
      var i :| 0 <= i < |s| && s[i] == x;
      assert Identity(s[i]) in Keys(r, Identity);
    }
    forall x | x in r ensures x in s {
      var m :| 0 <= m < |r| && r[m] == x;
      assert Identity(r[m]) in Keys(s, Identity);
    }
    forall k | 0 <= k < |r| ensures r[k] in s {
      assert Identity(r[k]) in Keys(s, Identity);
    }
  }
}
