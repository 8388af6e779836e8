// How one reward is divided over the consignors of a consignee, in the
// floating-point arithmetic of minerReward and voteReward
// (plugin/dapp/pos33/executor/pos33.go:143-149 and 199-209).
module Shares {
  import opened Doubles

  // Go's integer division truncates towards zero.
  function Quo(a: int, b: int): (q: int)
    requires b != 0
    ensures a >= 0 && b > 0 ==> q == a / b
  {
    if (a >= 0) == (b > 0) then (if a >= 0 then a else -a) / (if b > 0 then b else -b)
    else -((if a >= 0 then a else -a) / (if b > 0 then b else -b))
  }

  // int64(float64(pool) / float64(total) * float64(mine))
  function Share(pool: int, total: int, mine: int): int
    requires total != 0
  {
    var d := Round(total as real);
    RoundAtLeastOne(total as real);
    var r1 := Round(Over(Round(pool as real), d));
    Trunc(Round(Times(r1, Round(mine as real))))
  }

  // The accumulated relative error of the two roundings, with q the exact share,
  // X the exact product of the rounded quotient, p the rounded product.
  lemma TwoRoundings(q: real, X: real, p: real, N: real, w: real)
    requires 1.0 <= N && 0.0 <= q && 0.0 <= X && q * N == w && w <= 2251799813685248.0
    requires Abs(X - q) * (SIGNIFICANDS as real) <= q
    requires Abs(p - X) * (SIGNIFICANDS as real) <= X
    ensures (p - q) * N < 1.0 && p > q - 1.0
  {
    var s := SIGNIFICANDS as real;
    var d := p - q;
    assert X <= 2.0 * q;
    assert s * d <= 3.0 * q;
    assert q <= w by { assert q * (N - 1.0) >= 0.0; }
    assert -d * s <= 3.0 * q;
    MulLeqRight(s * d, 3.0 * q, N);
    assert s * d * N == s * (d * N);
    assert 3.0 * q * N == 3.0 * w;
  }

  lemma MulLeqRight(a: real, b: real, n: real)
    requires a <= b && 0.0 <= n
    ensures a * n <= b * n
  {
    assert (b - a) * n >= 0.0;
  }

  // The exact real quotient pool * mine / total, as the roundings see it.
  lemma ExactShare(pool: nat, total: nat, mine: nat) returns (a: real, q: real)
    requires 0 < total
    ensures a == Over(pool as real, total as real) && 0.0 <= a
    ensures q == Times(a, mine as real) && 0.0 <= q && q * total as real == (pool * mine) as real
  {
    a := pool as real / total as real;
    q := a * mine as real;
    assert a * total as real == pool as real;
    assert (pool * mine) as real == pool as real * mine as real;
  }

  lemma FloorBetween(p: real, q: real, total: nat, w: nat)
    requires 0 < total && q * total as real == w as real && 0.0 <= p
    requires (p - q) * total as real < 1.0 && p > q - 1.0
    ensures w / total - 1 <= p.Floor <= w / total
  {
    var k, n := w / total, total as real;
    assert w == k * total + w % total;
    assert w as real == k as real * n + (w % total) as real;
    if p.Floor > k {
      MulLeqRight((k + 1) as real, p, n);
    }
    if k as real > q {
      MulLeqRight(q, k as real, n);
    }
  }

  lemma PoolRange(pool: nat, total: nat, mine: nat)
    requires 0 < total && mine <= total && pool * total <= 0x8_0000_0000_0000
    ensures pool <= 0x8_0000_0000_0000 && pool * mine <= 0x8_0000_0000_0000
    ensures pool > 0 ==> total <= 0x8_0000_0000_0000
  {
    assert pool * mine <= pool * total;
    assert pool <= pool * total;
    if pool > 0 { assert total <= pool * total; }
  }

  lemma ScaledError(r1: real, a: real, n: real)
    requires Abs(r1 - a) * (SIGNIFICANDS as real) <= a && 0.0 <= n && 0.0 <= a && 0.0 <= r1
    ensures Abs(Times(r1, n) - Times(a, n)) * (SIGNIFICANDS as real) <= Times(a, n)
    ensures 0.0 <= Times(r1, n)
  {
    var s := SIGNIFICANDS as real;
    MulLeqRight((r1 - a) * s, a, n);
    MulLeqRight((a - r1) * s, a, n);
  }

  // The bound on one share: never above the exact quotient, and at most one unit
  // below its integer part.
  lemma ShareBound(pool: nat, total: nat, mine: nat)
    requires 0 < total && mine <= total
    requires pool * total <= 0x8_0000_0000_0000 // 2^51
    ensures pool * mine / total - 1 <= Share(pool, total, mine) <= pool * mine / total
    ensures 0 <= Share(pool, total, mine)
  {
    hide Round, Times, Over;
    PoolRange(pool, total, mine);
    IntIsDouble(pool);
    if pool == 0 {
      ZeroShare(total, mine);
    } else {
      IntIsDouble(total);
      IntIsDouble(mine);
      var a, q := ExactShare(pool, total, mine);
      var n := mine as real;
      var r1 := Round(a);
      var X := Times(r1, n);
      var p := Round(X);
      RoundError(a);
      ScaledError(r1, a, n);
      RoundError(X);
      TwoRoundings(q, X, p, total as real, (pool * mine) as real);
      FloorBetween(p, q, total, pool * mine);
    }
  }

  lemma ZeroShare(total: nat, mine: nat)
    requires 0 < total
    ensures Share(0, total, mine) == 0
  {
    var d, n := Round(total as real), Round(mine as real);
    RoundAtLeastOne(total as real);
    hide RoundPositive;
    assert 0.0 / d == 0.0;
    assert 0.0 * n == 0.0;
  }

  // The lower end of the bound is reached under the shipped parameters: one vote of
  // 0.25 coins for a consignee whose 37 tickets belong to a single consignor is
  // credited one unit short.
  lemma OneUnitLost()
    ensures 25000000 * 37 / 37 == 25000000
    ensures Share(25000000, 37, 37) == 24999999
  {
    hide Round, RoundedSignificand;
    IntIsDouble(25000000);
    IntIsDouble(37);
    LostQuotient();
    LostProduct();
  }

  lemma LostQuotient()
    ensures Round(Over(25000000.0, 37.0)) == 5804009859459459.0 / 8589934592.0
  {
    var q := 214748364800000000.0 / 37.0;
    assert RoundedSignificand(q) == 5804009859459459 by { assert q.Floor == 5804009859459459; }
    PowersNeeded();
    hide Pow2, Round, RoundedSignificand;
    var x := Over(25000000.0, 37.0);
    assert x == Times(q, Pow2(-33));
    RoundAt(x, 19, q);
  }

  lemma LostProduct()
    ensures Trunc(Round(Times(5804009859459459.0 / 8589934592.0, 37.0))) == 24999999
  {
    var q := 214748364799999983.0 / 32.0;
    assert RoundedSignificand(q) == 6710886399999999 by { assert q.Floor == 6710886399999999; }
    PowersNeeded();
    hide Pow2, Round, RoundedSignificand;
    var x := Times(5804009859459459.0 / 8589934592.0, 37.0);
    assert x == Times(q, Pow2(-28));
    RoundAt(x, 24, q);
    var p := 6710886399999999.0 / 268435456.0;
    assert Round(x) == p;
    assert p.Floor == 24999999;
  }

  lemma PowersNeeded()
    ensures Pow2(19) == 524288.0 && Pow2(20) == 1048576.0 && Pow2(24) == 16777216.0 && Pow2(25) == 33554432.0
    ensures Pow2(-33) == 1.0 / 8589934592.0 && Pow2(-28) == 1.0 / 268435456.0
  {
    assert Pow2(19) == 524288.0 && Pow2(20) == 1048576.0;
    assert Pow2(24) == 16777216.0 && Pow2(25) == 33554432.0;
    assert Pow2(14) == 16384.0;
    Pow2Add(14, 14);
    Pow2Add(14, 19);
    Pow2Inverse(33);
    Pow2Inverse(28);
  }
}
