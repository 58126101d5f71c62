/**
  Small helpers shared by every module: the optional value used for the
  platform's "undefined" channel values and nullable references, and the
  Java integer and clamping primitives the controllers are built from.
 */
module Common {

  /** A channel value that may be undefined, or a reference that may be null. */
  datatype Option<+T> = None | Some(value: T) {
    /** `Optional.orElse` / `Value.orElse` */
    function GetOr(default: T): T {
      match this
      case Some(v) => v
      case None => default
    }
  }

  /** Java's `Integer.MAX_VALUE`, used as "no bound" by the controllers. */
  const IntMaxValue: int := 0x7fff_ffff

  function Min(a: int, b: int): int { if a <= b then a else b }
  function Max(a: int, b: int): int { if a >= b then a else b }
  function Abs(a: int): int { if a < 0 then -a else a }

  /** `TypeUtils.fitWithin(low, high, value)` = `max(low, min(high, value))`. */
  function FitWithin(low: int, high: int, value: int): (r: int)
    ensures low <= r
    ensures low <= high ==> r <= high
    ensures low <= value <= high ==> r == value
    ensures value < low ==> r == low
    ensures low <= high < value ==> r == high
  {
    Max(low, Min(high, value))
  }

  /** The floating point overload of `TypeUtils.fitWithin`. */
  function FitWithinReal(low: real, high: real, value: real): (r: real)
    ensures low <= r
    ensures low <= high ==> r <= high
    ensures low <= value <= high ==> r == value
    ensures value < low ==> r == low
    ensures low <= high < value ==> r == high
  {
    var m := if high <= value then high else value;
    if low >= m then low else m
  }

  /** `Math.floorDiv(a, b)`: the quotient rounded towards negative infinity. */
  function FloorDiv(a: int, b: int): (q: int)
    requires b != 0
    ensures b > 0 ==> q * b <= a < q * b + b
    ensures b < 0 ==> q * b >= a > q * b + b
  {
    if b > 0 then a / b else (-a) / (-b)
  }

  /** `Math.ceilDiv(a, b)` for a positive divisor: the quotient rounded towards positive infinity. */
  function CeilDiv(a: int, b: int): (q: int)
    requires b > 0
    ensures q * b - b < a <= q * b
  {
    -((-a) / b)
  }

  /** Java's `(int)` cast of a floating point value: truncation towards zero. */
  function TruncateToInt(r: real): (i: int)
    ensures 0.0 <= r ==> i as real <= r < i as real + 1.0
    ensures r < 0.0 ==> i as real - 1.0 < r <= i as real
  {
    if r >= 0.0 then r.Floor else -((-r).Floor)
  }

  /** A sequence of `n` copies of `v`. */
  function Fill<T>(v: T, n: nat): (s: seq<T>)
    ensures |s| == n
    ensures forall i :: 0 <= i < n ==> s[i] == v
  {
    seq(n, _ => v)
  }

  /** Sum of a sequence of integers, from the front. */
  function SumInts(s: seq<int>): int {
    if s == [] then 0 else s[0] + SumInts(s[1..])
  }

  lemma {:induction false} SumIntsAppend(s: seq<int>, x: int)
    ensures SumInts(s + [x]) == SumInts(s) + x
  {
    if s == [] {
      assert s + [x] == [x];
    } else {
      assert (s + [x])[1..] == s[1..] + [x];
      SumIntsAppend(s[1..], x);
    }
  }

  /** Every element of `s` is distinct. */
  predicate Distinct<T(==)>(s: seq<T>) {
    forall i, j :: 0 <= i < j < |s| ==> s[i] != s[j]
  }

  /*
    A hash map that is summed or iterated is kept as an association list:
    a sequence of key/value entries whose keys are pairwise distinct.
   */

  function Keys<K, V>(m: seq<(K, V)>): (ks: seq<K>)
    ensures |ks| == |m|
    ensures forall i :: 0 <= i < |m| ==> ks[i] == m[i].0
  {
    seq(|m|, i requires 0 <= i < |m| => m[i].0)
  }

  function Values<K, V>(m: seq<(K, V)>): (vs: seq<V>)
    ensures |vs| == |m|
    ensures forall i :: 0 <= i < |m| ==> vs[i] == m[i].1
  {
    seq(|m|, i requires 0 <= i < |m| => m[i].1)
  }

  /** No key occurs twice. */
  predicate KeysDistinct<K(==), V>(m: seq<(K, V)>) {
    forall i, j :: 0 <= i < j < |m| ==> m[i].0 != m[j].0
  }

  /** `Map.get`: the value of the first entry with key `k`. */
  function Get<K(==), V>(m: seq<(K, V)>, k: K): Option<V> {
    if m == [] then None
    else if m[0].0 == k then Some(m[0].1)
    else Get(m[1..], k)
  }

  /** `Map.put`: replaces the value of an existing key in place, or appends a new entry. */
  function Put<K(==,!new), V>(m: seq<(K, V)>, k: K, v: V): (r: seq<(K, V)>)
    ensures Get(r, k) == Some(v)
    ensures forall k' :: k' != k ==> Get(r, k') == Get(m, k')
    ensures |m| <= |r| <= |m| + 1
  {
    if m == [] then [(k, v)]
    else if m[0].0 == k then [(k, v)] + m[1..]
    else [m[0]] + Put(m[1..], k, v)
  }

  lemma {:induction false} GetSome<K, V>(m: seq<(K, V)>, k: K)
    ensures Get(m, k).Some? <==> exists i :: 0 <= i < |m| && m[i].0 == k
  {
    if m != [] {
      GetSome(m[1..], k);
      if m[0].0 != k && Get(m, k).Some? {
        var i :| 0 <= i < |m[1..]| && m[1..][i].0 == k;
        assert m[i + 1].0 == k;
      }
      if m[0].0 != k && (exists i :: 0 <= i < |m| && m[i].0 == k) {
        var i :| 0 <= i < |m| && m[i].0 == k;
        assert m[1..][i - 1].0 == k;
      }
    }
  }

  /** Putting into a map with distinct keys keeps the keys distinct. */
  lemma {:induction false} PutKeepsKeysDistinct<K(!new), V>(m: seq<(K, V)>, k: K, v: V)
    requires KeysDistinct(m)
    ensures KeysDistinct(Put(m, k, v))
  {
    if m != [] && m[0].0 != k {
      PutKeepsKeysDistinct(m[1..], k, v);
      var rest := Put(m[1..], k, v);
      var key := m[0].0;
      assert forall i :: 0 <= i < |m[1..]| ==> m[1..][i].0 != key by {
        forall i | 0 <= i < |m[1..]| ensures m[1..][i].0 != key {
          assert m[1..][i] == m[i + 1];
        }
      }
      GetSome(m[1..], key);
      forall j | 0 <= j < |rest|
        ensures rest[j].0 != key
      {
        GetSome(rest, rest[j].0);
      }
    }
  }
}
