/** Decimal quantization, rounding halves away from zero, on whole numbers of the smaller unit. */
module Rounding {
  /** x smaller units as a number of larger units of `unit` smaller ones each. */
  function HalfUp(x: int, unit: int): int
    requires unit > 0
  {
    if x >= 0 then (2 * x + unit) / (2 * unit) else -((2 * -x + unit) / (2 * unit))
  }

  /** Hours carry two places and rates four, so their product carries six; values carry four. */
  function HourlyValue(hours: nat, rate: nat): (value: nat)
  {
    HalfUpNat(hours * rate, 100)
  }

  function HalfUpNat(x: nat, unit: int): (r: nat)
    requires unit > 0
    ensures r == HalfUp(x, unit)
  {
    (2 * x + unit) / (2 * unit)
  }

  function ToCents(value: int): int {
    HalfUp(value, 100)
  }

  lemma QuotientBounds(a: int, b: int)
    requires b > 0
    ensures (a / b) * b <= a < (a / b) * b + b
  {
  }

  /** The result is a nearest multiple, and a tie goes away from zero. */
  lemma HalfUpIsNearest(x: int, unit: int)
    requires unit > 0
    ensures var r := HalfUp(x, unit); -unit <= 2 * (r * unit - x) <= unit
    ensures var r := HalfUp(x, unit);
            && (x >= 0 ==> r >= 0 && 2 * (r * unit - x) != -unit)
            && (x < 0 ==> r <= 0 && 2 * (r * unit - x) != unit)
  {
    var magnitude := if x >= 0 then x else -x;
    var q := (2 * magnitude + unit) / (2 * unit);
    QuotientBounds(2 * magnitude + unit, 2 * unit);
    assert q * (2 * unit) == 2 * (q * unit);
    assert (-q) * unit == -(q * unit);
  }

  lemma {:induction false} NextMultiple(a: int, b: int, unit: int)
    requires unit > 0 && a < b
    ensures a * unit + unit <= b * unit
    decreases b - a
  {
    assert (b - 1) * unit + unit == b * unit;
    if a < b - 1 {
      NextMultiple(a, b - 1, unit);
    }
  }

  /** A nearest multiple that sends ties away from zero. */
  predicate NearestAway(x: int, unit: int, r: int) {
    if x >= 0 then -unit < 2 * (r * unit - x) <= unit else -unit <= 2 * (r * unit - x) < unit
  }

  /** Quantizing gives the one nearest multiple that sends ties away from zero. */
  lemma HalfUpIsUnique(x: int, unit: int, r: int)
    requires unit > 0
    ensures NearestAway(x, unit, r) <==> r == HalfUp(x, unit)
  {
    HalfUpIsNearest(x, unit);
    hide HalfUp;
    var h := HalfUp(x, unit);
    if h > r {
      NextMultiple(r, h, unit);
    } else if h < r {
      NextMultiple(h, r, unit);
    }
  }

  lemma HalfUpIsMonotone(x: int, y: int, unit: int)
    requires unit > 0 && x <= y
    ensures HalfUp(x, unit) <= HalfUp(y, unit)
  {
    HalfUpIsNearest(x, unit);
    HalfUpIsNearest(y, unit);
    hide HalfUp;
    if HalfUp(x, unit) > HalfUp(y, unit) {
      NextMultiple(HalfUp(y, unit), HalfUp(x, unit), unit);
    }
  }

  /** Candidate values are within half a ten-thousandth of hours times rate, and grow with either. */
  lemma HourlyValueIsExactEnough(hours: nat, rate: nat)
    ensures -100 < 2 * (HourlyValue(hours, rate) * 100 - hours * rate) <= 100
  {
    HalfUpIsNearest(hours * rate, 100);
  }

  lemma HourlyValueGrows(hours: nat, moreHours: nat, rate: nat, higherRate: nat)
    requires hours <= moreHours && rate <= higherRate
    ensures HourlyValue(hours, rate) <= HourlyValue(moreHours, higherRate)
  {
    assert hours * rate <= moreHours * rate <= moreHours * higherRate;
    HalfUpIsMonotone(hours * rate, moreHours * higherRate, 100);
  }

  /** Where rounding to four places first makes up the missing part of half a cent. */
  predicate LiftedToHalf(product: nat) {
    4950 <= product % 10000 < 5000
  }

  /**
   Rounding a product to four places and then to cents never loses a cent, and gains one exactly when the
   first rounding lifts the product to a half cent.
   */
  lemma CentsAfterRounding(product: nat)
    ensures ToCents(HalfUp(product, 100)) == HalfUp(product, 10000) + (if LiftedToHalf(product) then 1 else 0)
  {
    var cents, rest := product / 10000, product % 10000;
    assert product == 10000 * cents + rest;
    var places := HalfUp(product, 100);
    var direct := if rest < 5000 then cents else cents + 1;
    HalfUpIsUnique(product, 10000, direct);
    var over := (2 * rest + 100) / 200;
    assert places == 100 * cents + over;
    var after := if over < 50 then cents else cents + 1;
    HalfUpIsUnique(places, 100, after);
  }

  /**
   A third of an hour, 0.33, at a rate of 0.0150 is worth 0.00495: nothing in cents, yet a cent when
   rounded twice.
   */
  lemma RoundingTwiceGainsACent()
    ensures ToCents(HourlyValue(33, 150)) == HalfUp(33 * 150, 10000) + 1
  {
    CentsAfterRounding(33 * 150);
  }
}
