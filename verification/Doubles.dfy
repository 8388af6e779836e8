// Double-precision arithmetic as the reward code uses it: round-to-nearest,
// ties to even, on a 53-bit significand (section 4.3.1 of IEEE 754-2019).
// The exponent is not bounded here; every value the ledger rounds lies between
// 2^-64 and 2^64, far inside the binary64 exponent range.
module Doubles {

  const MIN_SIGNIFICAND: int := 4503599627370496 // 2^52
  const SIGNIFICANDS: int := 9007199254740992 // 2^53

  // Products and quotients of reals are named, so that most proofs below can
  // hide them and stay linear.
  function Times(a: real, b: real): real {
    a * b
  }

  function Over(x: real, u: real): real
    requires u != 0.0
  {
    x / u
  }

  function Pow2(e: int): (p: real)
    ensures p > 0.0
    decreases if e < 0 then -e else e
  {
    if e == 0 then 1.0 else if e > 0 then 2.0 * Pow2(e - 1) else Pow2(e + 1) / 2.0
  }

  function Abs(x: real): real {
    if x < 0.0 then -x else x
  }

  // Go's conversion of a floating-point value to an integer: towards zero.
  function Trunc(x: real): int {
    if x < 0.0 then -(-x).Floor else x.Floor
  }

  ghost predicate Represents(x: real, m: int, e: int) {
    -SIGNIFICANDS < m < SIGNIFICANDS && x == Times(m as real, Pow2(e))
  }

  ghost predicate IsDouble(x: real) {
    exists m, e :: Represents(x, m, e)
  }

  function BinadeUp(x: real, k: int): (r: int)
    requires Pow2(k) <= x
    ensures Pow2(r) <= x < Pow2(r + 1)
    decreases (x / Pow2(k)).Floor
  {
    if x < Pow2(k + 1) then k
    else
      HalfFloor(x, Pow2(k));
      BinadeUp(x, k + 1)
  }

  function BinadeDown(x: real, k: int): (r: int)
    requires 0.0 < x < Pow2(k + 1)
    ensures Pow2(r) <= x < Pow2(r + 1)
    decreases (Pow2(k + 1) / x).Floor
  {
    if Pow2(k) <= x then k
    else
      DoubleFloor(Pow2(k), x);
      BinadeDown(x, k - 1)
  }

  lemma HalfFloor(x: real, p: real)
    requires 0.0 < 2.0 * p <= x
    ensures 0 <= (x / (2.0 * p)).Floor < (x / p).Floor
  {
    var q := x / p;
    assert x == q * p;
    assert q >= 2.0;
    assert x / (2.0 * p) == q / 2.0;
  }

  lemma DoubleFloor(p: real, x: real)
    requires 0.0 < x < p
    ensures 0 <= (p / x).Floor < (2.0 * p / x).Floor
  {
    var q := p / x;
    assert p == q * x;
    assert q > 1.0;
    assert 2.0 * p / x == 2.0 * q;
  }

  // The k with 2^k <= x < 2^(k+1).
  function Binade(x: real): (k: int)
    requires x > 0.0
    ensures Pow2(k) <= x < Pow2(k + 1)
  {
    if x >= 1.0 then BinadeUp(x, 0) else BinadeDown(x, -1)
  }

  function RoundedSignificand(q: real): int {
    var m := q.Floor;
    var d := q - m as real;
    if d < 0.5 || (d == 0.5 && m % 2 == 0) then m else m + 1
  }

  // Rounds a positive number to nearest, ties to even; u is the distance between
  // neighbouring doubles around x.
  function RoundPositive(x: real): real
    requires x > 0.0
  {
    var u := Pow2(Binade(x) - 52);
    Times(RoundedSignificand(Over(x, u)) as real, u)
  }

  function Round(x: real): real {
    if x == 0.0 then 0.0 else if x < 0.0 then -RoundPositive(-x) else RoundPositive(x)
  }

  // ---- Products ----

  lemma TimesLess(a: real, b: real, u: real)
    requires u > 0.0
    ensures a < b ==> Times(a, u) < Times(b, u)
    ensures a <= b ==> Times(a, u) <= Times(b, u)
  {
    if a < b { assert (b - a) * u > 0.0; }
  }

  lemma TimesSum(a: real, b: real, u: real)
    ensures Times(a + b, u) == Times(a, u) + Times(b, u)
  {
  }

  lemma TimesUnit(u: real)
    ensures Times(1.0, u) == u && Times(0.0, u) == 0.0
  {
  }

  lemma TimesCommutes(a: real, b: real)
    ensures Times(a, b) == Times(b, a)
  {
  }

  lemma TimesAssoc(a: real, b: real, c: real)
    ensures Times(Times(a, b), c) == Times(a, Times(b, c))
  {
  }

  lemma TimesNegates(a: real, b: real)
    ensures Times(-a, b) == -Times(a, b)
  {
  }

  lemma TimesInts(a: int, b: int)
    ensures Times(a as real, b as real) == (a * b) as real
  {
  }

  lemma OverTimes(x: real, u: real)
    requires u != 0.0
    ensures Times(Over(x, u), u) == x
  {
  }

  // ---- Powers of two ----

  lemma Pow2Next(e: int)
    ensures Pow2(e + 1) == 2.0 * Pow2(e)
  {
  }

  lemma Pow2Zero()
    ensures Pow2(0) == 1.0
  {
  }

  lemma {:induction false} Pow2Add(a: int, n: nat)
    ensures Pow2(a + n) == Times(Pow2(n), Pow2(a))
  {
    hide *;
    if n == 0 {
      Pow2Zero();
      TimesUnit(Pow2(a));
    } else {
      Pow2Add(a, n - 1);
      Pow2Next(a + n - 1);
      Pow2Next(n - 1);
      TimesSum(Pow2(n - 1), Pow2(n - 1), Pow2(a));
    }
  }

  lemma {:induction false} Pow2Mono(a: int, b: int)
    requires a < b
    ensures 2.0 * Pow2(a) <= Pow2(b)
    decreases b - a
  {
    hide *;
    Pow2Next(b - 1);
    if a < b - 1 { Pow2Mono(a, b - 1); }
  }

  lemma TwoTo52()
    ensures Pow2(52) == MIN_SIGNIFICAND as real
  {
    assert Pow2(13) == 8192.0;
    Pow2Add(13, 13);
    assert Pow2(26) == 67108864.0;
    Pow2Add(26, 26);
  }

  function IntPow2(n: nat): (p: nat)
    ensures p as real == Pow2(n)
  {
    if n == 0 then 1 else 2 * IntPow2(n - 1)
  }

  // ---- One rounding ----

  lemma BinadeInUlps(x: real, e: int)
    requires x > 0.0 && e == Binade(x) - 52
    ensures Times(MIN_SIGNIFICAND as real, Pow2(e)) <= x < Times(SIGNIFICANDS as real, Pow2(e))
  {
    var c := MIN_SIGNIFICAND as real;
    hide Times, Pow2, Binade;
    Pow2Add(e, 52);
    TwoTo52();
    Pow2Next(e + 52);
    TimesSum(c, c, Pow2(e));
  }

  // The significand, the ulp and the exponent that rounding a positive number uses:
  // x == q * 2^e with 2^52 <= q < 2^53.
  lemma Parts(x: real) returns (q: real, u: real, e: int)
    requires x > 0.0
    ensures u == Pow2(e) && x == Times(q, u)
    ensures MIN_SIGNIFICAND as real <= q < SIGNIFICANDS as real
    ensures RoundPositive(x) == Times(RoundedSignificand(q) as real, u)
  {
    e := Binade(x) - 52;
    u := Pow2(e);
    q := Over(x, u);
    hide Times, Over, Pow2, Binade, RoundedSignificand;
    OverTimes(x, u);
    BinadeInUlps(x, e);
    TimesLess(SIGNIFICANDS as real, q, u);
    TimesLess(q, MIN_SIGNIFICAND as real, u);
  }

  lemma RepresentedAs(z: real) returns (s: int, e: int)
    requires IsDouble(z)
    ensures -SIGNIFICANDS < s < SIGNIFICANDS && z == Times(s as real, Pow2(e))
  {
    hide Times;
    s, e :| Represents(z, s, e);
  }

  // A double is a whole multiple of 2^e, or at most 2^52 * 2^e.
  lemma DoubleOnGrid(z: real, e: int) returns (t: int)
    requires IsDouble(z)
    ensures z == Times(t as real, Pow2(e)) || z <= Times(MIN_SIGNIFICAND as real, Pow2(e))
  {
    hide Times, Pow2, IntPow2, Represents;
    var s, f := RepresentedAs(z);
    var p, u, c := Pow2(f), Pow2(e), MIN_SIGNIFICAND as real;
    if f < e {
      t := 0;
      Pow2Mono(f, e);
      TimesLess(s as real, 2.0 * c, p);
      TimesSum(c, c, p);
      TimesCommutes(c, p);
      TimesCommutes(c, u);
      TimesCommutes(c, 2.0 * p);
      TimesSum(p, p, c);
      TimesLess(2.0 * p, u, c);
    } else {
      var g := IntPow2(f - e);
      t := s * g;
      Pow2Add(e, f - e);
      TimesAssoc(s as real, g as real, u);
      TimesInts(s, g);
    }
  }

  // No double lies strictly between two neighbouring multiples of 2^e above 2^52 * 2^e.
  lemma NoDoubleBetween(m: int, z: real, e: int)
    requires MIN_SIGNIFICAND <= m && IsDouble(z)
    ensures z <= Times(m as real, Pow2(e)) || Times((m + 1) as real, Pow2(e)) <= z
  {
    hide Times, Pow2, IsDouble;
    var u := Pow2(e);
    var t := DoubleOnGrid(z, e);
    if t <= m {
      TimesLess(t as real, m as real, u);
    } else {
      TimesLess((m + 1) as real, t as real, u);
    }
    TimesLess(MIN_SIGNIFICAND as real, m as real, u);
  }

  // The rounded value against the two grid points around it.
  lemma GridPlace(q: real, u: real)
    requires u > 0.0
    ensures var x, y, lo, hi := Times(q, u), Times(RoundedSignificand(q) as real, u),
                                Times(q.Floor as real, u), Times((q.Floor + 1) as real, u);
      lo <= x <= hi && Abs(y - x) <= x - lo && Abs(y - x) <= hi - x && hi - lo == u
  {
    hide Times;
    var m := q.Floor;
    var d := q - m as real;
    TimesSum(m as real, d, u);
    TimesSum(m as real, 1.0, u);
    TimesSum(d, 1.0 - d, u);
    TimesUnit(u);
    TimesLess(0.0, d, u);
    TimesLess(0.0, 1.0 - d, u);
    TimesLess(d, 1.0 - d, u);
    TimesLess(1.0 - d, d, u);
    assert (m + 1) as real == m as real + 1.0;
  }

  lemma PositiveRoundIsNearest(x: real, z: real)
    requires x > 0.0 && IsDouble(z)
    ensures Abs(RoundPositive(x) - x) <= Abs(z - x)
  {
    hide Times, Pow2, RoundPositive, RoundedSignificand, IsDouble;
    var q, u, e := Parts(x);
    NoDoubleBetween(q.Floor, z, e);
    GridPlace(q, u);
  }

  lemma NegatedDouble(z: real)
    requires IsDouble(z)
    ensures IsDouble(-z)
  {
    hide Times;
    var s, f :| Represents(z, s, f);
    TimesNegates(s as real, Pow2(f));
    assert Represents(-z, -s, f);
  }

  // Rounding is to nearest: no double is closer.
  lemma RoundIsNearest(x: real, z: real)
    requires IsDouble(z)
    ensures Abs(Round(x) - x) <= Abs(z - x)
  {
    hide RoundPositive, IsDouble;
    if x > 0.0 {
      PositiveRoundIsNearest(x, z);
    } else if x < 0.0 {
      NegatedDouble(z);
      PositiveRoundIsNearest(-x, -z);
    }
  }

  lemma PositiveRoundIsDouble(x: real)
    requires x > 0.0
    ensures IsDouble(RoundPositive(x))
  {
    hide Times, Pow2, RoundPositive;
    var q, u, e := Parts(x);
    var s, c := RoundedSignificand(q), MIN_SIGNIFICAND as real;
    if s < SIGNIFICANDS {
      assert Represents(RoundPositive(x), s, e);
    } else {
      Pow2Next(e);
      TimesCommutes(c, Pow2(e + 1));
      TimesSum(u, u, c);
      TimesCommutes(u, c);
      TimesSum(c, c, u);
      assert Represents(RoundPositive(x), MIN_SIGNIFICAND, e + 1);
    }
  }

  // Rounding yields a double.
  lemma RoundIsDouble(x: real)
    ensures IsDouble(Round(x))
  {
    hide RoundPositive, Times;
    if x > 0.0 {
      PositiveRoundIsDouble(x);
    } else if x < 0.0 {
      PositiveRoundIsDouble(-x);
      NegatedDouble(RoundPositive(-x));
    } else {
      TimesUnit(Pow2(0));
      assert Represents(0.0, 0, 0);
    }
  }

  // A double is its own rounding.
  lemma RoundExact(x: real)
    requires IsDouble(x)
    ensures Round(x) == x
  {
    hide Round, IsDouble;
    RoundIsNearest(x, x);
  }

  lemma IntIsDouble(n: int)
    requires -SIGNIFICANDS < n < SIGNIFICANDS
    ensures IsDouble(n as real) && Round(n as real) == n as real
  {
    assert Represents(n as real, n, 0);
    RoundExact(n as real);
  }

  // The relative error of one rounding is at most 2^-53.
  lemma RoundError(x: real)
    requires x >= 0.0
    ensures Abs(Round(x) - x) * (SIGNIFICANDS as real) <= x
  {
    hide RoundPositive, RoundedSignificand, Times;
    if x > 0.0 {
      var q, u, e := Parts(x);
      GridPlace(q, u);
      TimesLess(MIN_SIGNIFICAND as real, q, u);
      TimesConstant(u);
    }
  }

  lemma TimesConstant(u: real)
    ensures Times(MIN_SIGNIFICAND as real, u) == MIN_SIGNIFICAND as real * u
  {
  }

  lemma RoundAtLeastOne(x: real)
    ensures x >= 1.0 ==> Round(x) >= 1.0
    ensures x <= -1.0 ==> Round(x) <= -1.0
  {
    hide Round;
    IntIsDouble(1);
    IntIsDouble(-1);
    RoundIsNearest(x, 1.0);
    RoundIsNearest(x, -1.0);
  }

  // Rounding a number given by its binade k and its significand q in units of 2^(k-52).
  lemma RoundAt(x: real, k: int, q: real)
    requires 0.0 < x && Pow2(k) <= x < Pow2(k + 1) && x == Times(q, Pow2(k - 52))
    ensures Round(x) == Times(RoundedSignificand(q) as real, Pow2(k - 52))
  {
    hide Times, Over, RoundedSignificand;
    var b := Binade(x);
    if b < k { if b + 1 < k { Pow2Mono(b + 1, k); } }
    if k < b { if k + 1 < b { Pow2Mono(k + 1, b); } }
    var u := Pow2(k - 52);
    OverOf(q, u);
  }

  lemma OverOf(q: real, u: real)
    requires u > 0.0
    ensures Over(Times(q, u), u) == q
  {
  }

  lemma Pow2Inverse(n: nat)
    ensures Pow2(0 - n) == 1.0 / Pow2(n)
  {
    Pow2Add(0 - n, n);
    Pow2Zero();
    var a, b := Pow2(n), Pow2(0 - n);
    assert a * b == 1.0;
  }
}
