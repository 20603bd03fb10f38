/** Python's `sorted(xs, key=k, reverse=True)`, which every optimizer uses to
    rank its population: a stable sort by descending key. Elements with equal
    keys keep their original order, which is why an element is inserted
    before the first element whose key does not exceed its own. */
module Ranking {

  predicate SortedDesc<T>(s: seq<T>, key: T -> real)
  {
    forall i, j :: 0 <= i < j < |s| ==> key(s[i]) >= key(s[j])
  }

  /** Prepending an element whose key is at least the head's keeps a ranking sorted. */
  lemma ConsSorted<T>(a: T, s: seq<T>, key: T -> real)
    requires SortedDesc(s, key) && (|s| > 0 ==> key(a) >= key(s[0]))
    ensures SortedDesc([a] + s, key)
  {
    var r := [a] + s;
    forall i, j | 0 <= i < j < |r|
      ensures key(r[i]) >= key(r[j])
    {
      if i == 0 && j > 1 {
        assert key(s[0]) >= key(s[j - 1]);
      }
    }
  }

  /** Inserts `x` in front of the first element whose key is at most `x`'s. */
  function Insert<T>(x: T, s: seq<T>, key: T -> real): (r: seq<T>)
    requires SortedDesc(s, key)
    ensures SortedDesc(r, key)
    ensures multiset(r) == multiset(s) + multiset{x}
    ensures |r| == |s| + 1
    ensures r[0] == x || (|s| > 0 && r[0] == s[0])
    decreases |s|
  {
    if |s| == 0 then [x]
    else if key(s[0]) <= key(x) then
      ConsSorted(x, s, key);
      [x] + s
    else
      var rest := Insert(x, s[1..], key);
      assert s == [s[0]] + s[1..];
      ConsSorted(s[0], rest, key);
      [s[0]] + rest
  }

  /** The population ranked best first. */
  function SortDesc<T>(s: seq<T>, key: T -> real): (r: seq<T>)
    ensures SortedDesc(r, key)
    ensures multiset(r) == multiset(s)
    ensures |r| == |s|
    decreases |s|
  {
    if |s| == 0 then []
    else
      assert s == [s[0]] + s[1..];
      Insert(s[0], SortDesc(s[1..], key), key)
  }

  /** The head of a ranking holds the greatest key of the whole input. */
  lemma HeadIsMaximal<T>(s: seq<T>, key: T -> real)
    requires |s| > 0
    ensures forall x :: x in s ==> key(x) <= key(SortDesc(s, key)[0])
    ensures SortDesc(s, key)[0] in s
  {
    var r := SortDesc(s, key);
    assert r[0] in multiset(r);
    forall x | x in s
      ensures key(x) <= key(r[0])
    {
      assert x in multiset(s);
      assert x in multiset(r);
      var k :| 0 <= k < |r| && r[k] == x;
      if k > 0 {
        assert key(r[0]) >= key(r[k]);
      }
    }
  }

  /** Every element of a ranking's first `n` positions has a key at least as
      large as every element outside them. */
  lemma PrefixDominates<T>(s: seq<T>, key: T -> real, n: int)
    requires 0 <= n <= |s|
    ensures forall i, j :: 0 <= i < n <= j < |s| ==> key(SortDesc(s, key)[i]) >= key(SortDesc(s, key)[j])
  {
  }

  /** The elements of `s` whose key is exactly `v`, in their order in `s`. */
  function WithKey<T>(s: seq<T>, key: T -> real, v: real): seq<T>
    decreases |s|
  {
    if |s| == 0 then []
    else (if key(s[0]) == v then [s[0]] else []) + WithKey(s[1..], key, v)
  }

  lemma {:induction false} WithKeyAppend<T>(a: seq<T>, b: seq<T>, key: T -> real, v: real)
    ensures WithKey(a + b, key, v) == WithKey(a, key, v) + WithKey(b, key, v)
    decreases |a|
  {
    if |a| == 0 {
      assert a + b == b;
    } else {
      var head := if key(a[0]) == v then [a[0]] else [];
      assert (a + b)[0] == a[0];
      assert (a + b)[1..] == a[1..] + b;
      calc {
        WithKey(a + b, key, v);
        head + WithKey(a[1..] + b, key, v);
        { WithKeyAppend(a[1..], b, key, v); }
        head + (WithKey(a[1..], key, v) + WithKey(b, key, v));
        (head + WithKey(a[1..], key, v)) + WithKey(b, key, v);
        WithKey(a, key, v) + WithKey(b, key, v);
      }
    }
  }

  /** `Insert` places `x` after every element with a strictly larger key and
      before the rest, so the elements with any one key keep their order. */
  lemma {:induction false} InsertStable<T>(x: T, s: seq<T>, key: T -> real, v: real)
    requires SortedDesc(s, key)
    ensures WithKey(Insert(x, s, key), key, v) == WithKey([x], key, v) + WithKey(s, key, v)
    decreases |s|
  {
    if |s| > 0 && key(s[0]) > key(x) {
      var rest := Insert(x, s[1..], key);
      InsertStable(x, s[1..], key, v);
      assert Insert(x, s, key) == [s[0]] + rest;
      WithKeyAppend([s[0]], rest, key, v);
      WithKeyAppend([s[0]], s[1..], key, v);
      assert s == [s[0]] + s[1..];
      // x and s[0] cannot both carry the key v
      assert WithKey([x], key, v) == [] || WithKey([s[0]], key, v) == [];
    } else if |s| > 0 {
      assert Insert(x, s, key) == [x] + s;
      WithKeyAppend([x], s, key, v);
    } else {
      assert Insert(x, s, key) == [x] + s;
      WithKeyAppend([x], s, key, v);
    }
  }

  /** The sort is stable: among elements with the same key, the ranking keeps
      their original order. */
  lemma {:induction false} SortStable<T>(s: seq<T>, key: T -> real, v: real)
    ensures WithKey(SortDesc(s, key), key, v) == WithKey(s, key, v)
    decreases |s|
  {
    if |s| > 0 {
      SortStable(s[1..], key, v);
      InsertStable(s[0], SortDesc(s[1..], key), key, v);
      WithKeyAppend([s[0]], s[1..], key, v);
      assert s == [s[0]] + s[1..];
    }
  }
}
