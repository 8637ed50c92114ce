/**
  The pieces of JavaScript's built-in behaviour that the scale helpers rely on:
  the remainder operator `%`, `Array.prototype.indexOf`, reading an array at an
  integral index, the rendering of a value inside a template literal, and
  `String.prototype.toUpperCase` on the ASCII letters.
 */
module Js {
  import opened Wrappers

  /**
    `a % b` on integral numbers with a positive divisor. JavaScript's remainder
    truncates: the result carries the sign of the dividend, unlike Dafny's `%`,
    whose result is never negative. The clauses pin the result down uniquely:
    it lies on the dividend's side of zero and differs from the Euclidean
    remainder by zero or one divisor.
   */
  function Rem(a: int, b: int): (r: int)
    requires b > 0
    ensures a >= 0 ==> 0 <= r < b
    ensures a < 0 ==> -b < r <= 0
    ensures r == a % b || r == a % b - b
  {
    if a >= 0 then a % b
    else
      NegatedRemainder(-a, b);
      -((-a) % b)
  }

  /** Euclidean division is unique: a quotient and a remainder in range determine `%`. */
  lemma ModUnique(a: int, b: int, q: int, s: int)
    requires b > 0 && 0 <= s < b && a == q * b + s
    ensures a % b == s
  {
    var q', s' := a / b, a % b;
    assert a == q' * b + s';
    var d := q - q';
    assert d * b == s' - s by {
      assert q * b - q' * b == (q - q') * b;
    }
  }

  /** The remainder of `-x` is zero or the divisor minus the remainder of `x`. */
  lemma NegatedRemainder(x: int, b: int)
    requires b > 0
    ensures -(x % b) == (-x) % b || -(x % b) == (-x) % b - b
  {
    var q, m := x / b, x % b;
    assert x == q * b + m;
    if m == 0 {
      ModUnique(-x, b, -q, 0);
    } else {
      ModUnique(-x, b, -q - 1, b - m);
    }
  }

  /** On a non-negative dividend the truncating and the Euclidean remainders agree. */
  lemma RemOfNonNegative(a: int, b: int)
    requires a >= 0 && b > 0
    ensures Rem(a, b) == a % b
  {
  }

  /**
    On a negative dividend that is not a multiple of the divisor, the truncating
    remainder is the Euclidean one minus the divisor, so it is negative.
   */
  lemma RemOfNegative(a: int, b: int)
    requires a < 0 && b > 0 && a % b != 0
    ensures Rem(a, b) == a % b - b
    ensures Rem(a, b) < 0
  {
  }

  /** `xs.indexOf(x)`: the first position holding `x`, or -1 when there is none. */
  function IndexOf<T(==)>(xs: seq<T>, x: T): int
  {
    if |xs| == 0 then -1
    else if xs[0] == x then 0
    else
      var k := IndexOf(xs[1..], x);
      if k == -1 then -1 else k + 1
  }

  /** `indexOf` gives -1 exactly for an absent element, and otherwise the first position holding it. */
  lemma {:induction false} IndexOfFirst<T>(xs: seq<T>, x: T)
    ensures -1 <= IndexOf(xs, x) < |xs|
    ensures IndexOf(xs, x) == -1 <==> x !in xs
    ensures 0 <= IndexOf(xs, x) ==> xs[IndexOf(xs, x)] == x && forall j :: 0 <= j < IndexOf(xs, x) ==> xs[j] != x
  {
    if |xs| > 0 && xs[0] != x {
      IndexOfFirst(xs[1..], x);
      assert xs == [xs[0]] + xs[1..];
      var k := IndexOf(xs[1..], x);
      if k >= 0 {
        forall j | 0 <= j < k + 1 ensures xs[j] != x {
          if j > 0 { assert xs[j] == xs[1..][j - 1]; }
        }
      }
    }
  }

  /** `xs[i]` for an integral index: `undefined` (None) outside `0 .. xs.length - 1`. */
  function At<T>(xs: seq<T>, i: int): Option<T>
  {
    if 0 <= i < |xs| then Some(xs[i]) else None
  }

  /** How a string-or-undefined value is rendered inside a template literal `${v}`. */
  function Show(v: Option<string>): string
  {
    match v
    case Some(s) => s
    case None => "undefined"
  }

  predicate IsLower(c: char)
  {
    'a' <= c <= 'z'
  }

  predicate IsUpper(c: char)
  {
    'A' <= c <= 'Z'
  }

  /** `c.toUpperCase()` restricted to the ASCII letters; every other character is left as it is. */
  function ToUpper(c: char): (u: char)
    ensures IsLower(c) ==> IsUpper(u) && u as int - c as int == 'A' as int - 'a' as int
    ensures !IsLower(c) ==> u == c
  {
    if IsLower(c) then (c as int - 'a' as int + 'A' as int) as char else c
  }

  /** `s.charAt(0).toUpperCase() + s.slice(1)`: the empty string stays empty. */
  function Capitalise(s: string): (r: string)
    ensures |r| == |s|
    ensures |s| > 0 ==> r[1..] == s[1..] && r[0] == ToUpper(s[0])
  {
    if |s| == 0 then "" else [ToUpper(s[0])] + s[1..]
  }
}
