/** The timestamp arithmetic shared by the recorder, the playback server and the NTP estimator.
    Integers are unbounded: the source works on 64-bit values that do not overflow for any
    recording shorter than 292 years. */
module Rounding {

  const SECOND: int := 1_000_000_000

  /** Go's integer division, which truncates toward zero. */
  function Quo(a: int, b: int): int
    requires b > 0
  {
    if a >= 0 then a / b else -((-a) / b)
  }

  /** Go's remainder, which has the sign of the dividend. */
  function Rem(a: int, b: int): int
    requires b > 0
  {
    a - Quo(a, b) * b
  }

  /** v * m / d computed without forming v * m. */
  function MultiplyAndDivide(v: int, m: int, d: int): int
    requires d > 0
  {
    Quo(v, d) * m + Quo(Rem(v, d) * m, d)
  }

  /** Ticks of a clock to nanoseconds. */
  function TimestampToDuration(t: int, clockRate: int): int
    requires clockRate > 0
  {
    MultiplyAndDivide(t, SECOND, clockRate)
  }

  /** Nanoseconds to ticks of a clock. */
  function DurationGoToMp4(v: int, timeScale: int): int {
    MultiplyAndDivide(v, timeScale, SECOND)
  }

  /** Quo is the only quotient that leaves a remainder smaller than b and with the sign of a. */
  lemma {:induction false} QuoCharacterized(a: int, b: int, q: int)
    requires b > 0
    ensures q == Quo(a, b) <==>
            if a >= 0 then q * b <= a < q * b + b else q * b - b < a <= q * b
  {
    if a >= 0 {
      FloorUnique(a, b, q);
    } else {
      FloorUnique(-a, b, -q);
      assert (-q) * b == -(q * b);
    }
  }

  lemma {:induction false} FloorUnique(a: nat, b: int, q: int)
    requires b > 0
    ensures q == a / b <==> q * b <= a < q * b + b
  {
    var p := a / b;
    assert p * b <= a < p * b + b;
    if q * b <= a < q * b + b {
      if q < p {
        ProductOrder(q + 1, p, b);
      } else if p < q {
        ProductOrder(p + 1, q, b);
      }
    }
  }

  lemma {:induction false} ProductOrder(x: int, y: int, b: int)
    requires x <= y && b >= 0
    ensures x * b <= y * b
  {
    assert y * b - x * b == (y - x) * b;
  }

  lemma {:induction false} FloorMonotone(a: nat, c: nat, b: int)
    requires b > 0 && a <= c
    ensures a / b <= c / b
  {
    var p, q := a / b, c / b;
    FloorUnique(a, b, p);
    FloorUnique(c, b, q);
    assert (q + 1) * b == q * b + b;
    if q < p {
      ProductOrder(q + 1, p, b);
    }
  }

  lemma {:induction false} QuoMonotone(a: int, c: int, b: int)
    requires b > 0 && a <= c
    ensures Quo(a, b) <= Quo(c, b)
  {
    if a >= 0 {
      FloorMonotone(a, c, b);
    } else if c < 0 {
      FloorMonotone(-c, -a, b);
    } else {
      FloorMonotone(0, -a, b);
      FloorMonotone(0, c, b);
    }
  }

  lemma {:induction false} SplitProduct(v: nat, m: nat, d: int)
    requires d > 0
    ensures (v / d) * m + ((v % d) * m) / d == (v * m) / d
  {
    var q, r := v / d, v % d;
    var s := (r * m) / d;
    assert v * m == q * m * d + r * m by {
      assert v == q * d + r;
      assert (q * d + r) * m == q * d * m + r * m;
      assert q * d * m == q * m * d;
    }
    FloorUnique(r * m, d, s);
    assert (q * m + s) * d == q * m * d + s * d;
    FloorUnique(v * m, d, q * m + s);
  }

  /** The split computation returns the exact product's truncated quotient, for both signs of v. */
  lemma {:induction false} MultiplyAndDivideExact(v: int, m: nat, d: int)
    requires d > 0
    ensures MultiplyAndDivide(v, m, d) == Quo(v * m, d)
  {
    if v >= 0 {
      ExactForNaturals(v, m, d);
    } else {
      ExactForNaturals(-v, m, d);
      MultiplyAndDivideOdd(-v, m, d);
      QuoOdd(-v * m, d);
      NegatedProduct(-v, m);
    }
  }

  lemma {:induction false} ExactForNaturals(v: nat, m: nat, d: int)
    requires d > 0
    ensures MultiplyAndDivide(v, m, d) == Quo(v * m, d)
  {
    SplitProduct(v, m, d);
    NaturalParts(v, d);
    ProductOrder(0, v, m);
    ProductOrder(0, v % d, m);
  }

  lemma {:induction false} NaturalParts(v: nat, d: int)
    requires d > 0
    ensures Quo(v, d) == v / d && Rem(v, d) == v % d
  {
  }

  lemma {:induction false} MultiplyAndDivideOdd(v: int, m: int, d: int)
    requires d > 0
    ensures MultiplyAndDivide(-v, m, d) == -MultiplyAndDivide(v, m, d)
  {
    var q, r := Quo(v, d), Rem(v, d);
    QuoOdd(v, d);
    NegatedProduct(q, d);
    NegatedProduct(q, m);
    NegatedProduct(r, m);
    QuoOdd(r * m, d);
  }

  lemma {:induction false} NegatedProduct(x: int, y: int)
    ensures (-x) * y == -(x * y)
  {
  }

  lemma {:induction false} QuoOdd(a: int, b: int)
    requires b > 0
    ensures Quo(-a, b) == -Quo(a, b)
  {
  }

  /** A later timestamp never converts to an earlier one. */
  lemma {:induction false} MultiplyAndDivideMonotone(v: int, w: int, m: int, d: int)
    requires d > 0 && m >= 0 && v <= w
    ensures MultiplyAndDivide(v, m, d) <= MultiplyAndDivide(w, m, d)
  {
    MultiplyAndDivideExact(v, m, d);
    MultiplyAndDivideExact(w, m, d);
    ProductOrder(v, w, m);
    QuoMonotone(v * m, w * m, d);
  }

  /** How far the conversion is from the rational number v * m / d, multiplied out by d. */
  lemma {:induction false} MultiplyAndDivideError(v: int, m: nat, d: int)
    requires d > 0
    ensures v >= 0 ==> 0 <= v * m - d * MultiplyAndDivide(v, m, d) < d
    ensures v <= 0 ==> -d < v * m - d * MultiplyAndDivide(v, m, d) <= 0
  {
    var x, p := MultiplyAndDivide(v, m, d), v * m;
    MultiplyAndDivideExact(v, m, d);
    assert v >= 0 ==> p >= 0;
    assert v <= 0 ==> p <= 0;
    QuoError(p, d, x);
  }

  lemma {:induction false} QuoError(a: int, b: int, q: int)
    requires b > 0 && q == Quo(a, b)
    ensures a >= 0 ==> 0 <= a - b * q < b
    ensures a <= 0 ==> -b < a - b * q <= 0
  {
    QuoCharacterized(a, b, q);
    assert q * b == b * q;
    if a == 0 {
      assert q == 0;
    }
  }

  /** Ticks to nanoseconds and back loses at most one tick, toward zero. */
  lemma {:induction false} TicksRoundTrip(t: int, rate: int)
    requires 0 < rate <= SECOND
    ensures t >= 0 ==> t - 1 <= DurationGoToMp4(TimestampToDuration(t, rate), rate) <= t
    ensures t <= 0 ==> t <= DurationGoToMp4(TimestampToDuration(t, rate), rate) <= t + 1
  {
    var ns := TimestampToDuration(t, rate);
    MultiplyAndDivideError(t, SECOND, rate);
    MultiplyAndDivideError(ns, rate, SECOND);
    MultiplyAndDivideExact(t, SECOND, rate);
    assert t >= 0 ==> ns >= 0;
    assert t <= 0 ==> ns <= 0;
    assert ns * rate == rate * ns;
  }
}
