/**
  The folds the analytics route runs over fetched rows: counting keys into
  an object (`reduce` with `acc[k] = (acc[k] || 0) + 1`), reading the
  object's entries back in insertion order, and `Array.prototype.sort`
  with a descending comparator, which ECMAScript requires to be stable.
 */
module Tally {

  /** One `[key, count]` entry of the counting object. */
  datatype Entry = Entry(key: string, count: nat)

  function Keys(t: seq<Entry>): (ks: seq<string>)
    ensures |ks| == |t| && forall i :: 0 <= i < |t| ==> ks[i] == t[i].key
  {
    if |t| == 0 then [] else [t[0].key] + Keys(t[1..])
  }

  /** The key of an entry in a table is among its keys. */
  lemma KeyOfMember(t: seq<Entry>, e: Entry)
    ensures e in t ==> e.key in Keys(t)
  {
    if e in t {
      var i :| 0 <= i < |t| && t[i] == e;
      assert Keys(t)[i] == e.key;
    }
  }

  /** `acc[k] = (acc[k] || 0) + 1`: bump the entry of `k`, or add one at the end. */
  function Bump(t: seq<Entry>, k: string): seq<Entry> {
    if |t| == 0 then [Entry(k, 1)]
    else if t[0].key == k then [t[0].(count := t[0].count + 1)] + t[1..]
    else [t[0]] + Bump(t[1..], k)
  }

  /** `Object.entries(keys.reduce(...))`: one entry per distinct key, in order of first appearance. */
  function Count(keys: seq<string>): seq<Entry> {
    if |keys| == 0 then [] else Bump(Count(keys[..|keys| - 1]), keys[|keys| - 1])
  }

  /** `acc[k] || 0` */
  function Lookup(t: seq<Entry>, k: string): nat {
    if |t| == 0 then 0 else if t[0].key == k then t[0].count else Lookup(t[1..], k)
  }

  predicate DistinctKeys(t: seq<Entry>) {
    forall i, j :: 0 <= i < j < |t| ==> t[i].key != t[j].key
  }

  /** What a count table means: distinct keys, exactly those counted, each with its number of occurrences. */
  predicate Counts(t: seq<Entry>, keys: seq<string>) {
    DistinctKeys(t)
    && (forall k :: k in Keys(t) ==> k in keys) && (forall k :: k in keys ==> k in Keys(t))
    && (forall i :: 0 <= i < |t| ==> t[i].count == multiset(keys)[t[i].key])
  }

  /** A bump keeps the length when `k` is already a key, and otherwise appends `Entry(k, 1)`. */
  lemma {:induction false} BumpLength(t: seq<Entry>, k: string)
    ensures k in Keys(t) ==> |Bump(t, k)| == |t|
    ensures k !in Keys(t) ==> |Bump(t, k)| == |t| + 1 && Bump(t, k)[|t|] == Entry(k, 1)
  {
    if |t| > 0 {
      assert Keys(t) == [t[0].key] + Keys(t[1..]);
      if t[0].key != k {
        BumpLength(t[1..], k);
      }
    }
  }

  /** With distinct keys, a bump adds one to the entry of `k` and leaves the others alone. */
  lemma {:induction false} BumpPointwise(t: seq<Entry>, k: string)
    requires DistinctKeys(t)
    ensures |Bump(t, k)| >= |t|
    ensures forall i :: 0 <= i < |t| ==> Bump(t, k)[i] == Entry(t[i].key, t[i].count + (if t[i].key == k then 1 else 0))
  {
    if |t| > 0 {
      var rest := t[1..];
      var b := Bump(t, k);
      if t[0].key == k {
        assert forall i :: 1 <= i < |t| ==> t[i].key != k;
      } else {
        assert DistinctKeys(rest);
        BumpPointwise(rest, k);
        assert forall i :: 1 <= i < |t| ==> b[i] == Bump(rest, k)[i - 1] && rest[i - 1] == t[i];
      }
    }
  }

  /** A bump adds one to the entry of `k`, or appends `k` with count 1; keys stay distinct. */
  lemma BumpShape(t: seq<Entry>, k: string)
    requires DistinctKeys(t)
    ensures var b := Bump(t, k);
      DistinctKeys(b)
      && (k in Keys(t) ==> |b| == |t|)
      && (k !in Keys(t) ==> |b| == |t| + 1 && b[|t|] == Entry(k, 1))
      && (forall i :: 0 <= i < |t| ==> b[i] == Entry(t[i].key, t[i].count + (if t[i].key == k then 1 else 0)))
  {
    BumpLength(t, k);
    BumpPointwise(t, k);
    var b := Bump(t, k);
    forall i, j | 0 <= i < j < |b| ensures b[i].key != b[j].key {
      if j == |t| {
        assert Keys(t)[i] == t[i].key;
      }
    }
  }

  /** After a bump, the keys of the table are those counted so far plus `k`. */
  lemma BumpKeys(t: seq<Entry>, keys: seq<string>, k: string)
    requires Counts(t, keys)
    ensures (forall q :: q in Keys(Bump(t, k)) ==> q in keys + [k])
    ensures (forall q :: q in keys + [k] ==> q in Keys(Bump(t, k)))
  {
    BumpShape(t, k);
    var b := Bump(t, k);
    forall q | q in Keys(b) ensures q in keys + [k] {
      var i :| 0 <= i < |b| && Keys(b)[i] == q;
      if i < |t| {
        assert Keys(t)[i] == q;
      }
    }
    forall q | q in keys + [k] ensures q in Keys(b) {
      if q in keys {
        var i :| 0 <= i < |t| && Keys(t)[i] == q;
        assert Keys(b)[i] == q;
      } else {
        assert Keys(b)[|t|] == k;
      }
    }
  }

  /** After a bump, every entry carries its number of occurrences in `keys + [k]`. */
  lemma BumpValues(t: seq<Entry>, keys: seq<string>, k: string)
    requires Counts(t, keys)
    ensures var b := Bump(t, k);
      forall i :: 0 <= i < |b| ==> b[i].count == multiset(keys + [k])[b[i].key]
  {
    BumpShape(t, k);
    var b := Bump(t, k);
    var m := multiset(keys + [k]);
    assert m == multiset(keys) + multiset{k};
    forall i | 0 <= i < |b| ensures b[i].count == m[b[i].key] {
      if i == |t| {
        assert k !in Keys(t);
        assert k !in keys;
      }
    }
  }

  /** Counting one more key keeps the meaning of a count table. */
  lemma BumpCounts(t: seq<Entry>, keys: seq<string>, k: string)
    requires Counts(t, keys)
    ensures Counts(Bump(t, k), keys + [k])
    ensures |Bump(t, k)| == |t| + (if k in keys then 0 else 1)
  {
    BumpShape(t, k);
    BumpKeys(t, keys, k);
    BumpValues(t, keys, k);
  }

  /** The fold counts: each distinct key once, with its number of occurrences. */
  lemma {:induction false} CountCorrect(keys: seq<string>)
    ensures Counts(Count(keys), keys)
    ensures |Count(keys)| <= |keys|
  {
    if |keys| > 0 {
      var init := keys[..|keys| - 1];
      assert keys == init + [keys[|keys| - 1]];
      CountCorrect(init);
      BumpCounts(Count(init), init, keys[|keys| - 1]);
    }
  }

  /** Looking a key up gives its number of occurrences, 0 for a key never counted. */
  lemma LookupCount(t: seq<Entry>, keys: seq<string>, k: string)
    requires Counts(t, keys)
    ensures Lookup(t, k) == multiset(keys)[k]
  {
    LookupFinds(t, k);
    if k in keys {
      var i :| 0 <= i < |t| && Keys(t)[i] == k;
    }
  }

  lemma {:induction false} LookupFinds(t: seq<Entry>, k: string)
    requires DistinctKeys(t)
    ensures k !in Keys(t) ==> Lookup(t, k) == 0
    ensures forall i :: 0 <= i < |t| && t[i].key == k ==> Lookup(t, k) == t[i].count
  {
    if |t| > 0 {
      var rest := t[1..];
      assert forall i :: 0 <= i < |rest| ==> rest[i] == t[i + 1];
      assert Keys(t) == [t[0].key] + Keys(rest);
      LookupFinds(rest, k);
      forall i | 0 <= i < |t| && t[i].key == k ensures Lookup(t, k) == t[i].count {
        if i > 0 {
          assert rest[i - 1].key == k;
        }
      }
    }
  }

  // ---------------------------------------------------------------------
  // Stable sort, largest weight first

  predicate SortedDesc<T>(s: seq<T>, w: T -> int) {
    forall i, j :: 0 <= i < j < |s| ==> w(s[i]) >= w(s[j])
  }

  /** Inserts `x` after every element weighing at least as much: later equal elements stay later. */
  function InsertDesc<T>(s: seq<T>, x: T, w: T -> int): seq<T> {
    if |s| == 0 then [x]
    else if w(x) > w(s[0]) then [x] + s
    else [s[0]] + InsertDesc(s[1..], x, w)
  }

  /** `.sort((a, b) => w(b) - w(a))` */
  function SortDesc<T>(s: seq<T>, w: T -> int): seq<T> {
    if |s| == 0 then [] else InsertDesc(SortDesc(s[..|s| - 1], w), s[|s| - 1], w)
  }

  lemma {:induction false} InsertDescPerm<T>(s: seq<T>, x: T, w: T -> int)
    ensures multiset(InsertDesc(s, x, w)) == multiset(s) + multiset{x}
    ensures |InsertDesc(s, x, w)| == |s| + 1
  {
    if |s| > 0 && w(x) <= w(s[0]) {
      InsertDescPerm(s[1..], x, w);
      assert s == [s[0]] + s[1..];
    }
  }

  /** Putting an element in front of a sorted sequence that weighs no more keeps it sorted. */
  lemma ConsSorted<T>(h: T, r: seq<T>, w: T -> int)
    requires SortedDesc(r, w)
    requires forall j :: 0 <= j < |r| ==> w(r[j]) <= w(h)
    ensures SortedDesc([h] + r, w)
  {
    var c := [h] + r;
    forall i, j | 0 <= i < j < |c| ensures w(c[i]) >= w(c[j]) {
      assert c[j] == r[j - 1];
      if i > 0 {
        assert c[i] == r[i - 1];
      }
    }
  }

  /** Inserting into a sequence that weighs at most `v`, an element that weighs at most `v`, stays at most `v`. */
  lemma {:induction false} InsertDescBelow<T>(s: seq<T>, x: T, w: T -> int, v: int)
    requires forall i :: 0 <= i < |s| ==> w(s[i]) <= v
    requires w(x) <= v
    ensures forall j :: 0 <= j < |InsertDesc(s, x, w)| ==> w(InsertDesc(s, x, w)[j]) <= v
  {
    if |s| > 0 && w(x) <= w(s[0]) {
      InsertDescBelow(s[1..], x, w, v);
      var r := InsertDesc(s, x, w);
      assert forall j :: 1 <= j < |r| ==> r[j] == InsertDesc(s[1..], x, w)[j - 1];
    } else if |s| > 0 {
      assert forall j :: 1 <= j < |s| + 1 ==> InsertDesc(s, x, w)[j] == s[j - 1];
    }
  }

  lemma {:induction false} InsertDescCorrect<T>(s: seq<T>, x: T, w: T -> int)
    requires SortedDesc(s, w)
    ensures SortedDesc(InsertDesc(s, x, w), w)
    ensures multiset(InsertDesc(s, x, w)) == multiset(s) + multiset{x}
    ensures |InsertDesc(s, x, w)| == |s| + 1
  {
    InsertDescPerm(s, x, w);
    if |s| > 0 && w(x) <= w(s[0]) {
      var rest := s[1..];
      assert forall i :: 0 <= i < |rest| ==> rest[i] == s[i + 1];
      assert SortedDesc(rest, w);
      InsertDescCorrect(rest, x, w);
      InsertDescBelow(rest, x, w, w(s[0]));
      ConsSorted(s[0], InsertDesc(rest, x, w), w);
    } else if |s| > 0 {
      ConsSorted(x, s, w);
    }
  }

  /** Sorting orders by weight, largest first, and only rearranges. */
  lemma {:induction false} SortDescCorrect<T>(s: seq<T>, w: T -> int)
    ensures SortedDesc(SortDesc(s, w), w)
    ensures multiset(SortDesc(s, w)) == multiset(s)
    ensures |SortDesc(s, w)| == |s|
  {
    if |s| > 0 {
      var init := s[..|s| - 1];
      assert s == init + [s[|s| - 1]];
      SortDescCorrect(init, w);
      InsertDescCorrect(SortDesc(init, w), s[|s| - 1], w);
    }
  }

  /** The elements of `s` that weigh `v`, in their order in `s`. */
  function OfWeight<T>(s: seq<T>, w: T -> int, v: int): (r: seq<T>)
    ensures |r| <= |s|
    ensures forall x :: x in r ==> x in s && w(x) == v
  {
    if |s| == 0 then [] else (if w(s[0]) == v then [s[0]] else []) + OfWeight(s[1..], w, v)
  }

  lemma {:induction false} OfWeightAppend<T>(a: seq<T>, b: seq<T>, w: T -> int, v: int)
    ensures OfWeight(a + b, w, v) == OfWeight(a, w, v) + OfWeight(b, w, v)
  {
    if |a| > 0 {
      assert (a + b)[1..] == a[1..] + b;
      OfWeightAppend(a[1..], b, w, v);
    } else {
      assert a + b == b;
    }
  }

  /** Nothing weighs `u` in a sequence whose elements all weigh less. */
  lemma {:induction false} OfWeightLighter<T>(s: seq<T>, w: T -> int, u: int)
    requires forall i :: 0 <= i < |s| ==> w(s[i]) < u
    ensures OfWeight(s, w, u) == []
  {
    if |s| > 0 {
      OfWeightLighter(s[1..], w, u);
    }
  }

  /** Inserting into a sorted sequence puts `x` after every element of its own weight. */
  lemma {:induction false} InsertDescStable<T>(s: seq<T>, x: T, w: T -> int, v: int)
    requires SortedDesc(s, w)
    ensures OfWeight(InsertDesc(s, x, w), w, v) == OfWeight(s, w, v) + (if w(x) == v then [x] else [])
  {
    if |s| > 0 && w(x) > w(s[0]) {
      assert ([x] + s)[1..] == s;
      if w(x) == v {
        OfWeightLighter(s, w, v);
      }
    } else if |s| > 0 {
      var rest := s[1..];
      assert forall i :: 0 <= i < |rest| ==> rest[i] == s[i + 1];
      InsertDescStable(rest, x, w, v);
      assert ([s[0]] + InsertDesc(rest, x, w))[1..] == InsertDesc(rest, x, w);
    }
  }

  /** The sort is stable: the elements of each weight keep their relative order. */
  lemma {:induction false} SortDescStable<T>(s: seq<T>, w: T -> int, v: int)
    ensures OfWeight(SortDesc(s, w), w, v) == OfWeight(s, w, v)
  {
    if |s| > 0 {
      var init := s[..|s| - 1];
      assert s == init + [s[|s| - 1]];
      SortDescStable(init, w, v);
      SortDescCorrect(init, w);
      InsertDescStable(SortDesc(init, w), s[|s| - 1], w, v);
      OfWeightAppend(init, [s[|s| - 1]], w, v);
      assert [s[|s| - 1]][1..] == [];
    }
  }

  /** `.slice(0, n)` */
  function Take<T>(s: seq<T>, n: nat): (r: seq<T>)
    ensures |r| <= n && |r| <= |s|
    ensures r == s[..|r|]
    ensures |s| >= n ==> |r| == n
  {
    if |s| <= n then s else s[..n]
  }

  /**
    The first `n` after sorting are the heaviest: each is in the input, they
    come largest first, and nothing left out weighs more than the last one kept.
   */
  lemma TopIsHeaviest<T>(s: seq<T>, w: T -> int, n: nat)
    requires n > 0
    ensures var top := Take(SortDesc(s, w), n);
      SortedDesc(top, w)
      && (forall x :: x in top ==> x in s)
      && (forall x :: x in s && x !in top ==> |top| == n && n > 0 && w(x) <= w(top[n - 1]))
  {
    SortDescCorrect(s, w);
    var sorted := SortDesc(s, w);
    var top := Take(sorted, n);
    forall x | x in top ensures x in s {
      assert x in multiset(sorted);
    }
    forall x | x in s && x !in top ensures |top| == n && n > 0 && w(x) <= w(top[n - 1]) {
      assert x in multiset(sorted);
      var j :| 0 <= j < |sorted| && sorted[j] == x;
      assert top[n - 1] == sorted[n - 1];
    }
  }

  /**
    Among the first `n` after sorting, the elements of each weight are the
    earliest of that weight in the input, in input order.
   */
  lemma TopKeepsTies<T>(s: seq<T>, w: T -> int, n: nat, v: int)
    ensures OfWeight(Take(SortDesc(s, w), n), w, v) <= OfWeight(s, w, v)
  {
    var sorted := SortDesc(s, w);
    var top := Take(sorted, n);
    assert sorted == top + sorted[|top|..];
    OfWeightAppend(top, sorted[|top|..], w, v);
    SortDescStable(s, w, v);
  }
}
