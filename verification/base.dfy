/** Small shared vocabulary: an option type, the max/min/clamp helpers the
    Python code spells as built-in calls, and Python's truncating `int()`. */
module Base {

  /** A value that may be missing (a NaN indicator, an unset best genome). */
  datatype Option<+T> = None | Some(value: T)

  function Max(a: real, b: real): (r: real)
    ensures r >= a && r >= b
    ensures r == a || r == b
  {
    if a >= b then a else b
  }

  function Min(a: real, b: real): (r: real)
    ensures r <= a && r <= b
    ensures r == a || r == b
  {
    if a <= b then a else b
  }

  /** Indexing into `a[:k] + b`: the first `k` come from `a`, the rest from `b`. */
  lemma KeepThenAppend<T>(a: seq<T>, b: seq<T>, k: int)
    requires 0 <= k <= |a|
    ensures |a[..k] + b| == k + |b|
    ensures forall i :: 0 <= i < k ==> (a[..k] + b)[i] == a[i]
    ensures forall j :: 0 <= j < |b| ==> (a[..k] + b)[k + j] == b[j]
  {
  }

  /** Python's `max(lo, min(hi, x))`. */
  function Clamp(x: real, lo: real, hi: real): (r: real)
    requires lo <= hi
    ensures lo <= r <= hi
    ensures lo <= x <= hi ==> r == x
  {
    Max(lo, Min(hi, x))
  }

  /** Python's `max(lo, min(hi, n))` on integers. */
  function ClampInt(n: int, lo: int, hi: int): (r: int)
    requires lo <= hi
    ensures lo <= r <= hi
    ensures lo <= n <= hi ==> r == n
  {
    if n > hi then hi else if n < lo then lo else n
  }

  /** Python's `int(x)` on a float: rounds toward zero. */
  function Trunc(x: real): (r: int)
    ensures x >= 0.0 ==> r as real <= x < r as real + 1.0
    ensures x < 0.0 ==> r as real - 1.0 < x <= r as real
  {
    if x >= 0.0 then x.Floor else -((-x).Floor)
  }
}
