/** Python's `list.sort(key=..., reverse=True)` on real-valued keys (a stable
    sort: equal keys keep their input order), and `sorted` on strings. */
module Sorting {
  import opened Common
  import opened Text
  import opened Seqs

  ghost predicate SortedDesc<T>(s: seq<T>, key: T -> real) {
    forall i, j :: 0 <= i < j < |s| ==> key(s[i]) >= key(s[j])
  }

  /** The elements of `s` whose key equals `c`, in their order in `s`. */
  function Ties<T>(s: seq<T>, key: T -> real, c: real): seq<T> {
    if |s| == 0 then []
    else (if key(s[0]) == c then [s[0]] else []) + Ties(s[1..], key, c)
  }

  lemma TiesCons<T>(x: T, s: seq<T>, key: T -> real, c: real)
    ensures Ties([x] + s, key, c) == (if key(x) == c then [x] else []) + Ties(s, key, c)
  {
    assert ([x] + s)[1..] == s;
  }

  /** Place `x` in front of the first element whose key is not larger. */
  function Insert<T>(x: T, s: seq<T>, key: T -> real): (r: seq<T>)
    ensures |r| == |s| + 1
    ensures multiset(r) == multiset(s) + multiset{x}
  {
    if |s| == 0 || key(x) >= key(s[0]) then [x] + s
    else
      assert s == [s[0]] + s[1..];
      [s[0]] + Insert(x, s[1..], key)
  }

  lemma {:induction false} InsertSorted<T>(x: T, s: seq<T>, key: T -> real)
    requires SortedDesc(s, key)
    ensures SortedDesc(Insert(x, s, key), key)
  {
    if |s| > 0 && key(x) < key(s[0]) {
      var t := Insert(x, s[1..], key);
      InsertSorted(x, s[1..], key);
      assert Insert(x, s, key) == [s[0]] + t;
      forall y | y in t
        ensures key(s[0]) >= key(y)
      {
        assert y in multiset(t);
        if y != x {
          assert y in multiset(s[1..]);
        }
      }
    }
  }

  /** Inserting never reorders `x` relative to elements of equal key. */
  lemma {:induction false} InsertTies<T>(x: T, s: seq<T>, key: T -> real, c: real)
    ensures Ties(Insert(x, s, key), key, c) == Ties([x] + s, key, c)
  {
    if |s| > 0 && key(x) < key(s[0]) {
      var s0, rest := s[0], s[1..];
      var t := Insert(x, rest, key);
      var tx := if key(x) == c then [x] else [];
      var t0 := if key(s0) == c then [s0] else [];
      assert Ties(Insert(x, s, key), key, c) == t0 + Ties(t, key, c) by {
        assert Insert(x, s, key) == [s0] + t;
        TiesCons(s0, t, key, c);
      }
      assert Ties(t, key, c) == tx + Ties(rest, key, c) by {
        InsertTies(x, rest, key, c);
        TiesCons(x, rest, key, c);
      }
      assert Ties([x] + s, key, c) == tx + (t0 + Ties(rest, key, c)) by {
        assert s == [s0] + rest;
        TiesCons(s0, rest, key, c);
        TiesCons(x, s, key, c);
      }
      assert t0 + tx == tx + t0;
    }
  }

  /** A stable descending sort: the result is ordered by key, is a
      permutation of the input, and lists the elements of each key in
      their input order. */
  function SortDesc<T>(s: seq<T>, key: T -> real): (r: seq<T>)
    ensures |r| == |s|
    ensures multiset(r) == multiset(s)
  {
    if |s| == 0 then []
    else
      assert s == [s[0]] + s[1..];
      Insert(s[0], SortDesc(s[1..], key), key)
  }

  lemma {:induction false} SortDescCorrect<T>(s: seq<T>, key: T -> real)
    ensures SortedDesc(SortDesc(s, key), key)
    ensures forall c :: Ties(SortDesc(s, key), key, c) == Ties(s, key, c)
  {
    if |s| > 0 {
      SortDescCorrect(s[1..], key);
      InsertSorted(s[0], SortDesc(s[1..], key), key);
      forall c
        ensures Ties(SortDesc(s, key), key, c) == Ties(s, key, c)
      {
        InsertTies(s[0], SortDesc(s[1..], key), key, c);
        TiesCons(s[0], SortDesc(s[1..], key), key, c);
        TiesCons(s[0], s[1..], key, c);
        assert s == [s[0]] + s[1..];
      }
    }
  }

  /** Every element with key `c` shows up in `Ties(s, key, c)`: `b` is where. */
  lemma {:induction false} TiesHas<T>(s: seq<T>, key: T -> real, k: nat) returns (b: nat)
    requires k < |s|
    ensures b < |Ties(s, key, key(s[k]))| && Ties(s, key, key(s[k]))[b] == s[k]
  {
    var c := key(s[k]);
    var tail := Ties(s[1..], key, c);
    var head: seq<T> := if key(s[0]) == c then [s[0]] else [];
    assert Ties(s, key, c) == head + tail;
    if k == 0 {
      b := 0;
    } else {
      var b' := TiesHas(s[1..], key, k - 1);
      b := |head| + b';
    }
  }

  /** Two equal-key elements appear in `Ties` in the order they have in `s`:
      `a` and `b` are where. */
  lemma {:induction false} TiesPositions<T>(s: seq<T>, key: T -> real, i: nat, j: nat) returns (a: nat, b: nat)
    requires i < j < |s| && key(s[i]) == key(s[j])
    ensures var t := Ties(s, key, key(s[i]));
      a < b < |t| && t[a] == s[i] && t[b] == s[j]
  {
    var c := key(s[i]);
    var tail := Ties(s[1..], key, c);
    var head: seq<T> := if key(s[0]) == c then [s[0]] else [];
    assert Ties(s, key, c) == head + tail;
    if i == 0 {
      var b' := TiesHas(s[1..], key, j - 1);
      a, b := 0, 1 + b';
    } else {
      var a', b' := TiesPositions(s[1..], key, i - 1, j - 1);
      a, b := |head| + a', |head| + b';
    }
  }

  /** `s` strictly increases under `pos`. */
  ghost predicate IncreasingBy<T>(s: seq<T>, pos: T -> int) {
    forall a, b :: 0 <= a < b < |s| ==> pos(s[a]) < pos(s[b])
  }

  /** Where in `s` the `b`-th tie comes from. */
  lemma {:induction false} TiesIn<T>(s: seq<T>, key: T -> real, c: real, b: nat) returns (k: nat)
    requires b < |Ties(s, key, c)|
    ensures k < |s| && s[k] == Ties(s, key, c)[b]
  {
    var tail := Ties(s[1..], key, c);
    var head: seq<T> := if key(s[0]) == c then [s[0]] else [];
    assert Ties(s, key, c) == head + tail;
    if b < |head| {
      k := 0;
    } else {
      var k' := TiesIn(s[1..], key, c, b - |head|);
      k := k' + 1;
    }
  }

  /** Picking out the ties of a list that increases under `pos` leaves a
      list that increases under `pos`. */
  lemma {:induction false} TiesIncreasing<T>(s: seq<T>, key: T -> real, c: real, pos: T -> int)
    requires IncreasingBy(s, pos)
    ensures IncreasingBy(Ties(s, key, c), pos)
  {
    if |s| > 0 {
      var tail := Ties(s[1..], key, c);
      var head: seq<T> := if key(s[0]) == c then [s[0]] else [];
      var t := Ties(s, key, c);
      assert t == head + tail;
      assert IncreasingBy(s[1..], pos);
      TiesIncreasing(s[1..], key, c, pos);
      forall a, b | 0 <= a < b < |t| ensures pos(t[a]) < pos(t[b]) {
        var k := TiesIn(s[1..], key, c, b - |head|);
        assert t[b] == s[k + 1];
        if a >= |head| {
          assert t[a] == tail[a - |head|];
        }
      }
    }
  }

  /** Stability, stated on positions: if the input increases under `pos`,
      then among equal keys the sorted list still increases under `pos`. */
  lemma SortDescStable<T>(s: seq<T>, key: T -> real, pos: T -> int)
    requires IncreasingBy(s, pos)
    ensures var r := SortDesc(s, key);
      forall i, j :: 0 <= i < j < |r| && key(r[i]) == key(r[j]) ==> pos(r[i]) < pos(r[j])
  {
    var r := SortDesc(s, key);
    SortDescCorrect(s, key);
    forall i, j | 0 <= i < j < |r| && key(r[i]) == key(r[j]) ensures pos(r[i]) < pos(r[j]) {
      var c := key(r[i]);
      var a, b := TiesPositions(r, key, i, j);
      TiesIncreasing(s, key, c, pos);
      assert Ties(r, key, c) == Ties(s, key, c);
      assert pos(Ties(s, key, c)[a]) < pos(Ties(s, key, c)[b]);
    }
  }

  /** An element the first `k` of a descending sort leave out has a key no
      larger than that of any element they keep. */
  lemma TopKBeatsRest<T>(s: seq<T>, key: T -> real, k: int, x: T)
    requires x in s && x !in Take(SortDesc(s, key), k)
    ensures forall y :: y in Take(SortDesc(s, key), k) ==> key(y) >= key(x)
  {
    var r := SortDesc(s, key);
    var out := Take(r, k);
    SortDescCorrect(s, key);
    assert x in multiset(r);
    var p :| 0 <= p < |r| && r[p] == x;
    forall y | y in out ensures key(y) >= key(x) {
      var q :| 0 <= q < |out| && out[q] == y;
      assert r[q] == y;
    }
  }

  /** A list already in descending key order is left as it is. */
  lemma {:induction false} SortedIsFixed<T>(s: seq<T>, key: T -> real)
    requires SortedDesc(s, key)
    ensures SortDesc(s, key) == s
  {
    if |s| > 0 {
      SortedIsFixed(s[1..], key);
      assert s == [s[0]] + s[1..];
    }
  }

  /** Sorting is a permutation, so it keeps the same elements and keeps keys
      that were distinct distinct. */
  lemma SortKeepsDistinct<T, K>(s: seq<T>, key: T -> real, id: T -> K)
    requires DistinctKeys(s, id)
    ensures DistinctKeys(SortDesc(s, key), id)
    ensures forall x :: x in SortDesc(s, key) <==> x in s
  {
    var r := SortDesc(s, key);
    forall x ensures x in r <==> x in s {
      assert x in r <==> x in multiset(r);
      assert x in s <==> x in multiset(s);
    }
    forall i, j | 0 <= i < j < |r| ensures id(r[i]) != id(r[j]) {
      assert r[i] in multiset(r) && r[j] in multiset(r);
      assert r[i] in multiset(s) && r[j] in multiset(s);
      var i' :| 0 <= i' < |s| && s[i'] == r[i];
      var j' :| 0 <= j' < |s| && s[j'] == r[j];
      MultisetOnce(s, id, r[i]);
      MultisetDistinct(r, i, j);
    }
  }

  /** `sorted(xs, key, reverse=True)[:top_k]` over elements with distinct
      ids: distinct, sorted, drawn from the input, as long as Python's slice
      makes it, and the whole input once `top_k` covers it. */
  lemma TopKOfDistinct<T, K>(s: seq<T>, key: T -> real, id: T -> K, topK: int)
    requires DistinctKeys(s, id)
    ensures var out := Take(SortDesc(s, key), topK);
      && DistinctKeys(out, id)
      && SortedDesc(out, key)
      && (topK >= 0 ==> |out| == Min(topK, |s|))
      && (forall i :: 0 <= i < |out| ==> out[i] in s)
      && (topK >= |s| ==> forall i :: 0 <= i < |s| ==> s[i] in out)
  {
    var sorted := SortDesc(s, key);
    var out := Take(sorted, topK);
    SortKeepsDistinct(s, key, id);
    SortDescCorrect(s, key);
    assert out == sorted[..|out|];
    forall i | 0 <= i < |out| ensures out[i] in s {
      assert out[i] in sorted;
    }
    if topK >= |s| {
      assert out == sorted;
    }
  }

  lemma MultisetDistinct<T>(s: seq<T>, i: nat, j: nat)
    requires i < j < |s| && multiset(s)[s[i]] <= 1
    ensures s[i] != s[j]
  {
    assert s == s[..i] + [s[i]] + s[i + 1..j] + [s[j]] + s[j + 1..];
  }

  lemma {:induction false} MultisetOnce<T, K>(s: seq<T>, id: T -> K, x: T)
    requires DistinctKeys(s, id)
    ensures multiset(s)[x] <= 1
  {
    if |s| > 0 {
      assert s == [s[0]] + s[1..];
      MultisetOnce(s[1..], id, x);
      if s[0] == x {
        assert x !in s[1..];
      }
    }
  }

  ghost predicate LexSorted(s: seq<string>) {
    forall i :: 0 < i < |s| ==> LexLe(s[i - 1], s[i])
  }

  function InsertString(x: string, s: seq<string>): (r: seq<string>)
    ensures |r| == |s| + 1
    ensures multiset(r) == multiset(s) + multiset{x}
    ensures |r| > 0 && (r[0] == x || (|s| > 0 && r[0] == s[0]))
  {
    if |s| == 0 || LexLe(x, s[0]) then [x] + s
    else
      assert s == [s[0]] + s[1..];
      [s[0]] + InsertString(x, s[1..])
  }

  lemma {:induction false} InsertStringSorted(x: string, s: seq<string>)
    requires LexSorted(s)
    ensures LexSorted(InsertString(x, s))
  {
    if |s| > 0 && !LexLe(x, s[0]) {
      LexLeTotal(x, s[0]);
      InsertStringSorted(x, s[1..]);
    }
  }

  /** `sorted(paths)`: the same strings in code-point lexicographic order. */
  function SortStrings(s: seq<string>): (r: seq<string>)
    ensures multiset(r) == multiset(s)
    ensures LexSorted(r)
  {
    if |s| == 0 then []
    else
      var t := SortStrings(s[1..]);
      InsertStringSorted(s[0], t);
      assert s == [s[0]] + s[1..];
      InsertString(s[0], t)
  }
}
