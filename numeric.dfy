/**
 * Numeric helpers shared by every part of the model.
 *
 * JavaScript numbers are modelled as Dafny `real`s (IEEE-754 effects are not
 * modelled); the library functions the source calls — Math.floor, Math.ceil,
 * Math.round, Math.abs, Math.min, Math.max and Number.prototype.toFixed(1) —
 * are written out here once.  Math.random is never called: every random draw
 * is a parameter `roll` in [0, 1).
 */
module Numeric {

  /** Math.floor: the greatest integer not above x. */
  function Floor(x: real): (r: int)
    ensures r as real <= x < r as real + 1.0
  {
    x.Floor
  }

  /** Math.ceil: the least integer not below x. */
  function Ceil(x: real): (r: int)
    ensures x <= r as real < x + 1.0
  {
    -((-x).Floor)
  }

  /** Math.round: the nearest integer, halves rounded towards +infinity. */
  function Round(x: real): (r: int)
    ensures x - 0.5 < r as real <= x + 0.5
  {
    (x + 0.5).Floor
  }

  /** Math.abs */
  function Abs(x: real): (r: real)
    ensures r >= 0.0 && (r == x || r == -x)
  {
    if x < 0.0 then -x else x
  }

  /** Math.min of two numbers. */
  function Min(x: real, y: real): (r: real)
    ensures r <= x && r <= y && (r == x || r == y)
  {
    if x <= y then x else y
  }

  /** Math.max of two numbers. */
  function Max(x: real, y: real): (r: real)
    ensures r >= x && r >= y && (r == x || r == y)
  {
    if x >= y then x else y
  }

  /** x is a whole number. */
  predicate IsWhole(x: real)
  {
    x == x.Floor as real
  }

  /**
   * Number(x.toFixed(1)): x rounded to one decimal, a tie taking the value of
   * larger magnitude (toFixed rounds the magnitude and then restores the sign).
   * The result is a multiple of 0.1, and the two bands below leave exactly one
   * such multiple.
   */
  function RoundTo1(x: real): (r: real)
    ensures IsWhole(r * 10.0)
    ensures x >= 0.0 ==> -0.05 < r - x <= 0.05 && r >= 0.0
    ensures x < 0.0 ==> -0.05 <= r - x < 0.05
  {
    var y := x * 10.0;
    var m := if x < 0.0 then -Round(-y) else Round(y);
    assert m as real / 10.0 - x == (m as real - y) / 10.0;
    assert (m as real / 10.0) * 10.0 == m as real;
    m as real / 10.0
  }

  /** A value Math.random() can return. */
  predicate IsRoll(roll: real)
  {
    0.0 <= roll < 1.0
  }

  /** Math.floor(Math.random() * n): an index drawn from [0, n). */
  function Draw(roll: real, n: nat): (k: nat)
    requires IsRoll(roll) && n > 0
    ensures k < n
  {
    assert roll * n as real < n as real;
    Floor(roll * n as real)
  }

  lemma AbsMul(a: real, b: real)
    ensures Abs(a) * Abs(b) == Abs(a * b)
  {
    if a < 0.0 && b < 0.0 {
      assert Abs(a) * Abs(b) == (-a) * (-b) == a * b;
    } else if a < 0.0 {
      assert a * b <= 0.0;
      assert Abs(a) * Abs(b) == (-a) * b == -(a * b);
    } else if b < 0.0 {
      assert a * b <= 0.0;
      assert Abs(a) * Abs(b) == a * (-b) == -(a * b);
    }
  }

  lemma DivCancel(x: real, y: real, b: real)
    requires b != 0.0 && x * b == y * b
    ensures x == y
  {
    assert (x - y) * b == 0.0;
  }

  lemma AbsDiv(a: real, b: real)
    requires b != 0.0
    ensures Abs(a / b) == Abs(a) / Abs(b)
  {
    var q := a / b;
    assert q * b == a;
    AbsMul(q, b);
    var x := Abs(a) / Abs(b);
    assert x * Abs(b) == Abs(a);
    DivCancel(x, Abs(q), Abs(b));
  }

  /** Math.round leaves whole numbers unchanged. */
  lemma RoundWhole(n: int)
    ensures Round(n as real) == n
  {
  }
}
