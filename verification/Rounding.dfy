/**
 Printing of quantities and prices in FIX messages. A decimal is rounded to a number of digits
 after the point by truncating to one digit more, adding or subtracting five, and dividing by
 ten. Quantities and prices are printed with four digits, the average price with two; the model
 gives the printed value as a whole number of units of the last digit.
 */
module Rounding {

  /** Truncation toward zero of a scaled value. */
  function Truncate(x: real): (n: int)
    ensures x >= 0.0 ==> 0 <= n && n as real <= x < n as real + 1.0
    ensures x < 0.0 ==> n <= 0 && n as real - 1.0 < x <= n as real
  {
    if x >= 0.0 then x.Floor else -((-x).Floor)
  }

  /** Decimal.Round of a value given in units of the last digit printed. */
  function Round(y: real): (n: int) {
    var t := Truncate(y * 10.0);
    var v := if t < 0 then t - 5 else t + 5;
    var q, m := v / 10, v % 10;
    if q < 0 && m != 0 then q + 1 else q
  }

  /** The number of ten-thousandths printed for a quantity or a price. */
  function Units(x: real): (n: int) {
    Round(x * 10000.0)
  }

  /** The number of hundredths printed for an average price. */
  function Cents(x: real): (n: int) {
    Round(x * 100.0)
  }

  /** The value a reader of the printed text sees. */
  function Printed(x: real): (y: real) {
    Units(x) as real / 10000.0
  }

  /** A value with at most four digits after the point. */
  predicate OnGrid(x: real) {
    (x * 10000.0).Floor as real == x * 10000.0
  }

  /** n is the nearest whole number to y; a tie is resolved away from zero. */
  predicate IsNearest(n: int, y: real) {
    var d := n as real - y;
    -0.5 < d < 0.5 || (d == 0.5 && y > 0.0) || (d == -0.5 && y < 0.0)
  }

  lemma RoundNearest(y: real)
    ensures IsNearest(Round(y), y)
  {
    var t := Truncate(y * 10.0);
    if t < 0 {
      var v := t - 5;
      assert Round(y) == if v % 10 != 0 then v / 10 + 1 else v / 10;
      assert 10 * Round(y) - 5 < t <= 10 * Round(y) + 5;
    } else {
      assert Round(y) == (t + 5) / 10;
      assert 10 * Round(y) - 5 <= t < 10 * Round(y) + 5;
    }
  }

  /** The rounding arithmetic computes exactly the nearest unit with ties away from zero. */
  lemma RoundExactly(y: real, n: int)
    ensures n == Round(y) <==> IsNearest(n, y)
  {
    RoundNearest(y);
    if IsNearest(n, y) {
      assert -1.0 < (n - Round(y)) as real < 1.0;
    }
  }

  lemma UnitsExactly(x: real, n: int)
    ensures n == Units(x) <==> IsNearest(n, x * 10000.0)
  {
    RoundExactly(x * 10000.0, n);
  }

  lemma RoundMonotone(y: real, z: real)
    requires y <= z
    ensures Round(y) <= Round(z)
  {
    RoundNearest(y);
    RoundNearest(z);
  }

  /** An average price is printed within half a cent. */
  lemma CentsNear(x: real)
    ensures -0.5 <= Cents(x) as real - x * 100.0 <= 0.5
  {
    RoundNearest(x * 100.0);
  }

  /** An average price between two others is printed between them. */
  lemma CentsBetween(lo: real, x: real, hi: real)
    requires lo <= x <= hi
    ensures Cents(lo) <= Cents(x) <= Cents(hi)
  {
    RoundMonotone(lo * 100.0, x * 100.0);
    RoundMonotone(x * 100.0, hi * 100.0);
  }

  /** Printing leaves exactly the values unchanged that have at most four digits already. */
  lemma PrintedExactly(x: real)
    ensures Printed(x) == x <==> OnGrid(x)
  {
    if OnGrid(x) {
      UnitsExactly(x, (x * 10000.0).Floor);
    }
    if Printed(x) == x {
      assert Units(x) as real == x * 10000.0;
    }
  }

  /** Nearest whole numbers of two parts and of their sum differ by one at most, and not at all for whole numbers. */
  lemma NearestSplit(n: int, whole: real, m: int, part: real, k: int, rest: real)
    requires whole == part + rest && IsNearest(n, whole) && IsNearest(m, part) && IsNearest(k, rest)
    ensures -1 <= n - (m + k) <= 1
    ensures whole.Floor as real == whole && part.Floor as real == part ==> n == m + k
  {
    var d := n - (m + k);
    assert -1.5 <= d as real <= 1.5;
    if whole.Floor as real == whole && part.Floor as real == part {
      assert rest == (whole.Floor - part.Floor) as real;
      NearestWhole(n, whole, whole.Floor);
      NearestWhole(m, part, part.Floor);
      NearestWhole(k, rest, whole.Floor - part.Floor);
    }
  }

  lemma NearestWhole(n: int, y: real, whole: int)
    requires IsNearest(n, y) && y == whole as real
    ensures n == whole
  {
    assert -1.0 < (n - whole) as real < 1.0;
  }

  lemma UnitsNearest(x: real)
    ensures IsNearest(Units(x), x * 10000.0)
  {
    RoundNearest(x * 10000.0);
  }

  /** Printed parts add up to the printed whole within one unit of the last digit. */
  lemma PrintedSplit(whole: real, part: real)
    ensures -1 <= Units(whole) - (Units(part) + Units(whole - part)) <= 1
    ensures OnGrid(whole) && OnGrid(part) ==> Units(whole) == Units(part) + Units(whole - part)
  {
    UnitsNearest(whole);
    UnitsNearest(part);
    UnitsNearest(whole - part);
    NearestSplit(Units(whole), whole * 10000.0, Units(part), part * 10000.0, Units(whole - part), (whole - part) * 10000.0);
  }
}
