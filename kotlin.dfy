/**
 * The pieces of Kotlin and the JVM that the calendar model leans on:
 * exceptions as results, 32-bit `Int` decrement, truncating remainder,
 * `find`, `flatMap`, `(lo..hi).map`, `map`, `mapIndexed`, `joinToString`
 * and `Int.toString`.
 */
module Kotlin {

  /** Dates are `LocalDate` values, modelled by their epoch day. */
  type Date = int

  /** The exceptions the modelled code can throw. */
  datatype Failure =
    | IllegalArgument    // a failed `require(...)`
    | Arithmetic         // integer division or remainder by zero
    | IndexOutOfBounds   // a list or array index outside its bounds

  /** A computation that either returns a value or throws. */
  datatype Result<+T> = Ok(value: T) | Err(error: Failure) {
    predicate IsFailure() { Err? }

    function PropagateFailure<U>(): Result<U>
      requires Err?
    {
      Err(error)
    }

    function Extract(): T
      requires Ok?
    {
      value
    }
  }

  /** A nullable value (`T?`). */
  datatype Option<+T> = None | Some(value: T)

  function Abs(x: int): int { if x < 0 then -x else x }

  /**
   * Kotlin's `%` on `Int` by a positive divisor (a list size): the quotient
   * is truncated toward zero, so the remainder takes the sign of the
   * dividend, whereas Dafny's `%` is never negative.
   */
  function Rem(a: int, b: int): (r: int)
    requires b > 0
    ensures -b < r < b
    ensures a >= 0 ==> r == a % b
    ensures a <= 0 ==> r <= 0
    ensures -b < a <= 0 ==> r == a
    ensures (a - r) % b == 0
  {
    if a >= 0 then
      ModUnique(a - a % b, b, a / b, 0);
      a % b
    else if -a < b then
      ModUnique(-a, b, 0, -a);
      ModUnique(0, b, 0, 0);
      -((-a) % b)
    else
      ModUnique(a + (-a) % b, b, -((-a) / b), 0);
      -((-a) % b)
  }

  /** The truncating remainder is zero exactly when the Euclidean one is. */
  lemma RemZeroIff(a: int, b: int)
    requires b > 0
    ensures Rem(a, b) == 0 <==> a % b == 0
  {
    if a < 0 {
      if (-a) % b == 0 {
        ModUnique(a, b, -((-a) / b), 0);
      }
      if a % b == 0 {
        ModUnique(-a, b, -(a / b), 0);
      }
    }
  }

  /** The bounds of Kotlin's 32-bit `Int`. */
  const IntMin: int := -0x8000_0000
  const IntMax: int := 0x7fff_ffff

  /** A value of Kotlin's `Int`. */
  type Int32 = x: int | -0x8000_0000 <= x <= 0x7fff_ffff

  /**
   * `a - 1` on `Int`: the 32-bit value congruent to `a - 1` modulo 2^32, so
   * `Int.MIN_VALUE - 1` wraps to `Int.MAX_VALUE`.
   */
  function Dec(a: Int32): (r: Int32)
    ensures (r - (a - 1)) % 0x1_0000_0000 == 0
    ensures a > IntMin ==> r == a - 1
  {
    if a == IntMin then IntMax else a - 1
  }

  /** Adding the divisor does not change a remainder. */
  lemma ModAddDivisor(a: int, b: int)
    requires b > 0
    ensures (a + b) % b == a % b
  {
    var q, r := a / b, a % b;
    assert a + b == (q + 1) * b + r;
    ModUnique(a + b, b, q + 1, r);
  }

  /** The Euclidean remainder is the only one in `0..b-1`. */
  lemma ModUnique(a: int, b: int, q: int, r: int)
    requires b > 0 && 0 <= r < b && a == q * b + r
    ensures a % b == r
  {
    var q', r' := a / b, a % b;
    assert (q - q') * b == r' - r;
    if q - q' >= 1 {
      assert false;
    } else if q - q' <= -1 {
      assert false;
    }
  }

  /** `coerceIn(lo, hi)`: the nearest value in `lo..hi`. */
  function CoerceIn(x: int, lo: int, hi: int): (r: int)
    requires lo <= hi
    ensures lo <= r <= hi
    ensures lo <= x <= hi ==> r == x
    ensures x < lo ==> r == lo
    ensures x > hi ==> r == hi
  {
    if x < lo then lo else if x > hi then hi else x
  }

  /** The index of the first element satisfying `p` (the search behind `find`). */
  function FirstIndex<T>(s: seq<T>, p: T -> bool): (r: Option<nat>)
    ensures r.None? <==> forall i :: 0 <= i < |s| ==> !p(s[i])
    ensures r.Some? ==> r.value < |s| && p(s[r.value])
    ensures r.Some? ==> forall j :: 0 <= j < r.value ==> !p(s[j])
  {
    if |s| == 0 then None
    else if p(s[0]) then Some(0)
    else
      match FirstIndex(s[1..], p)
      case None => None
      case Some(i) => Some(i + 1)
  }

  /** Kotlin's `find`: the first element satisfying `p`, or null. */
  function Find<T>(s: seq<T>, p: T -> bool): (r: Option<T>)
    ensures r.None? <==> forall i :: 0 <= i < |s| ==> !p(s[i])
    ensures r.Some? ==> p(r.value)
    ensures r.Some? ==> exists i :: 0 <= i < |s| && r.value == s[i] && forall j :: 0 <= j < i ==> !p(s[j])
  {
    match FirstIndex(s, p)
    case None => None
    case Some(i) => Some(s[i])
  }

  /** `find` returns the element at the first index that satisfies `p`. */
  lemma FindAt<T>(s: seq<T>, p: T -> bool, i: nat)
    requires i < |s| && p(s[i])
    requires forall j :: 0 <= j < i ==> !p(s[j])
    ensures Find(s, p) == Some(s[i])
  {
    var r := FirstIndex(s, p);
    assert r.Some? && p(s[r.value]);
  }

  /** Concatenation of a list of lists, in order (`flatMap { it }`). */
  function Flatten<T>(xss: seq<seq<T>>): seq<T>
  {
    if |xss| == 0 then [] else xss[0] + Flatten(xss[1..])
  }

  lemma {:induction false} FlattenAppend<T>(a: seq<seq<T>>, b: seq<seq<T>>)
    ensures Flatten(a + b) == Flatten(a) + Flatten(b)
  {
    if |a| == 0 {
      assert a + b == b;
    } else {
      assert (a + b)[1..] == a[1..] + b;
      FlattenAppend(a[1..], b);
    }
  }

  /** When every inner list has length `w`, the flattened list has `w` elements per list. */
  lemma {:induction false} FlattenUniformLength<T>(xss: seq<seq<T>>, w: nat)
    requires forall i :: 0 <= i < |xss| ==> |xss[i]| == w
    ensures |Flatten(xss)| == w * |xss|
  {
    if |xss| > 0 {
      FlattenUniformLength(xss[1..], w);
      assert w * |xss| == w + w * (|xss| - 1);
    }
  }

  /** When every inner list has length `w`, element `k` of list `i` sits at `w * i + k`. */
  lemma {:induction false} FlattenUniformAt<T>(xss: seq<seq<T>>, w: nat, i: nat, k: nat)
    requires forall j :: 0 <= j < |xss| ==> |xss[j]| == w
    requires i < |xss| && k < w
    ensures w * i + k < |Flatten(xss)|
    ensures Flatten(xss)[w * i + k] == xss[i][k]
  {
    FlattenUniformLength(xss, w);
    var rest := xss[1..];
    assert Flatten(xss) == xss[0] + Flatten(rest);
    if i > 0 {
      FlattenUniformAt(rest, w, i - 1, k);
      assert w * i + k == w + (w * (i - 1) + k);
    }
  }

  /** Flattening commutes with an element-wise map. */
  lemma {:induction false} FlattenMap<T>(xss: seq<seq<T>>, yss: seq<seq<T>>, f: T -> T)
    requires |yss| == |xss|
    requires forall i :: 0 <= i < |xss| ==> |yss[i]| == |xss[i]|
    requires forall i, k :: 0 <= i < |xss| && 0 <= k < |xss[i]| ==> yss[i][k] == f(xss[i][k])
    ensures |Flatten(yss)| == |Flatten(xss)|
    ensures forall n :: 0 <= n < |Flatten(xss)| ==> Flatten(yss)[n] == f(Flatten(xss)[n])
  {
    if |xss| > 0 {
      FlattenMap(xss[1..], yss[1..], f);
      assert Flatten(xss) == xss[0] + Flatten(xss[1..]);
      assert Flatten(yss) == yss[0] + Flatten(yss[1..]);
    }
  }

  /**
   * `(lo..hi).map(f)` where `f` may throw: the elements in order, or the
   * exception of the first element that fails.
   */
  function MapRange<T>(lo: int, hi: int, f: int -> Result<T>): (r: Result<seq<T>>)
    decreases hi - lo + 1
    ensures r.Ok? <==> forall i :: lo <= i <= hi ==> f(i).Ok?
    ensures r.Ok? ==> |r.value| == (if lo <= hi then hi - lo + 1 else 0)
    ensures r.Ok? ==> forall k :: 0 <= k < |r.value| ==> f(lo + k) == Ok(r.value[k])
    ensures r.Err? ==> exists i :: lo <= i <= hi && f(i) == Err(r.error)
  {
    if lo > hi then Ok([])
    else
      var x :- f(lo);
      var rest :- MapRange(lo + 1, hi, f);
      Ok([x] + rest)
  }

  /**
   * `xs.map(f)` where `f` may throw: the images in order, or the exception
   * of the first element that fails.
   */
  function MapAll<T, U>(xs: seq<T>, f: T -> Result<U>): (r: Result<seq<U>>)
    ensures r.Ok? <==> forall i :: 0 <= i < |xs| ==> f(xs[i]).Ok?
    ensures r.Ok? ==> |r.value| == |xs| && forall i :: 0 <= i < |xs| ==> f(xs[i]) == Ok(r.value[i])
    ensures r.Err? ==> exists i :: 0 <= i < |xs| && f(xs[i]) == Err(r.error)
  {
    if |xs| == 0 then Ok([])
    else
      var y :- f(xs[0]);
      var rest :- MapAll(xs[1..], f);
      Ok([y] + rest)
  }

  /**
   * `xs.mapIndexed(f)` where `f` may throw: `f(i, xs[i])` in order, or the
   * exception of the first index that fails.
   */
  function MapIndexed<T, U>(xs: seq<T>, f: (int, T) -> Result<U>): (r: Result<seq<U>>)
    ensures r.Ok? <==> forall i :: 0 <= i < |xs| ==> f(i, xs[i]).Ok?
    ensures r.Ok? ==> |r.value| == |xs| && forall i :: 0 <= i < |xs| ==> f(i, xs[i]) == Ok(r.value[i])
    ensures r.Err? ==> exists i :: 0 <= i < |xs| && f(i, xs[i]) == Err(r.error)
  {
    if |xs| == 0 then Ok([])
    else
      var init :- MapIndexed(xs[..|xs| - 1], f);
      var y :- f(|xs| - 1, xs[|xs| - 1]);
      Ok(init + [y])
  }

  /**
   * `joinToString(sep)`: the items in order with `sep` between neighbours,
   * so the text starts with the first item (and, by `JoinSnoc`, ends with
   * the separator and the last).
   */
  function Join(xs: seq<string>, sep: string): (r: string)
    ensures |xs| == 0 ==> r == ""
    ensures |xs| == 1 ==> r == xs[0]
    ensures |xs| > 1 ==> xs[0] + sep <= r
    ensures |xs| > 0 ==> xs[0] <= r
  {
    if |xs| == 0 then "" else if |xs| == 1 then xs[0] else xs[0] + sep + Join(xs[1..], sep)
  }

  /** Putting an item in front of a non-empty list puts the separator after it. */
  lemma JoinCons(x: string, xs: seq<string>, sep: string)
    requires |xs| > 0
    ensures Join([x] + xs, sep) == x + sep + Join(xs, sep)
  {
    assert ([x] + xs)[0] == x && ([x] + xs)[1..] == xs;
  }

  /** Joining two non-empty lists puts one separator between their joins. */
  lemma {:induction false} JoinAppend(xs: seq<string>, ys: seq<string>, sep: string)
    requires |xs| > 0 && |ys| > 0
    ensures Join(xs + ys, sep) == Join(xs, sep) + sep + Join(ys, sep)
    decreases |xs|
  {
    if |xs| == 1 {
      assert xs + ys == [xs[0]] + ys;
      JoinCons(xs[0], ys, sep);
    } else {
      var tail := xs[1..];
      assert xs == [xs[0]] + tail;
      assert xs + ys == [xs[0]] + (tail + ys);
      JoinCons(xs[0], tail + ys, sep);
      JoinCons(xs[0], tail, sep);
      JoinAppend(tail, ys, sep);
      var head, mid, last := xs[0] + sep, Join(tail, sep), Join(ys, sep);
      assert head + (mid + sep + last) == head + mid + sep + last;
    }
  }

  /** Appending an item appends the separator and that item. */
  lemma JoinSnoc(xs: seq<string>, y: string, sep: string)
    requires |xs| > 0
    ensures Join(xs + [y], sep) == Join(xs, sep) + sep + y
  {
    JoinAppend(xs, [y], sep);
  }

  function Digit(n: int): (c: char)
    requires 0 <= n < 10
  {
    "0123456789"[n]
  }

  function DigitValue(c: char): int
  {
    c as int - '0' as int
  }

  /** `n.toString()` for a non-negative `Int`: its decimal digits, most significant first. */
  function NatToString(n: nat): (s: string)
    ensures |s| >= 1
    ensures forall i :: 0 <= i < |s| ==> '0' <= s[i] <= '9'
    decreases n
  {
    if n < 10 then [Digit(n)] else NatToString(n / 10) + [Digit(n % 10)]
  }

  /** `n.toString()` for any `Int`. */
  function IntToString(n: int): (s: string)
    ensures |s| >= 1
  {
    if n < 0 then "-" + NatToString(-n) else NatToString(n)
  }

  /** Reads a string of decimal digits back as a number. */
  function DecimalValue(s: string): int
  {
    if |s| == 0 then 0 else 10 * DecimalValue(s[..|s| - 1]) + DigitValue(s[|s| - 1])
  }

  /** `toString` loses nothing: reading the digits back gives the number. */
  lemma {:induction false} NatToStringRoundTrip(n: nat)
    ensures DecimalValue(NatToString(n)) == n
    decreases n
  {
    var s := NatToString(n);
    if n < 10 {
      assert s == [Digit(n)];
      assert s[..0] == [];
    } else {
      NatToStringRoundTrip(n / 10);
      assert s[..|s| - 1] == NatToString(n / 10);
      assert DigitValue(s[|s| - 1]) == n % 10;
    }
  }
}
