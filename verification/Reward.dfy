// Crediting one reward to the consignors of one consignee, with payout past the
// threshold and the consignee's fee (plugin/dapp/pos33/executor/pos33.go:131-240).
module Reward {
  import opened Sums
  import opened Coins
  import opened Params
  import opened Stake
  import opened Shares
  import opened Doubles

  // One transfer out of the executor's main balance: a consignor's reward, or the
  // accumulated fee of the consignee. fee is what was withheld from the reward paid.
  datatype Pay = Pay(consignee: Addr, payee: Addr, amount: int, isFee: bool, fee: int)

  datatype Credited = Credited(rec: Consignee, pays: seq<Pay>)

  function Tickets(amount: int, mp: MineParam): int
    requires mp.Valid()
  {
    Quo(amount, mp.ticketPrice)
  }

  // A consignee can hold an amount but no whole ticket, so that total is 0.
  function ShareOf(amount: int, pool: int, total: int, mp: MineParam): int
    requires mp.Valid()
  {
    if amount == 0 then 0
    else if total == 0 then mp.nonFinite(pool, Tickets(amount, mp))
    else Share(pool, total, Tickets(amount, mp))
  }

  function Fee(remain: int, feePercent: int): int {
    Quo(remain * feePercent, 100)
  }

  // The loop body for consignor i.
  function CreditOne(c: Consignee, i: nat, pool: int, total: int, mp: MineParam): (r: Credited)
    requires mp.Valid() && i < |c.consignors|
  {
    var cr := c.consignors[i];
    if cr.amount == 0 then Credited(c, []) else
      var share := ShareOf(cr.amount, pool, total, mp);
      var cr1 := cr.(reward := cr.reward + share, remainReward := cr.remainReward + share);
      if cr1.remainReward < mp.rewardTransfer then Credited(c.(consignors := c.consignors[i := cr1]), [])
      else
        var fee := Fee(cr1.remainReward, c.feePercent);
        var c1 := c.(consignors := c.consignors[i := cr1.(remainReward := 0)],
                     feeReward := c.feeReward + fee, remainFeeReward := c.remainFeeReward + fee);
        var pay := Pay(c.address, cr.address, cr1.remainReward - fee, false, fee);
        if c1.remainFeeReward < mp.rewardTransfer * 10 then Credited(c1, [pay])
        else Credited(c1.(remainFeeReward := 0), [pay, Pay(c.address, c.address, c1.remainFeeReward, true, 0)])
  }

  // A reward changes neither addresses nor amounts.
  ghost predicate SameStakes(c: Consignee, d: Consignee) {
    && c.address == d.address && c.amount == d.amount && c.feePercent == d.feePercent
    && Pairs(c.consignors) == Pairs(d.consignors) && |c.consignors| == |d.consignors|
  }

  // The loop over the first k consignors.
  function CreditFirst(c: Consignee, k: nat, pool: int, total: int, mp: MineParam): (r: Credited)
    requires mp.Valid() && k <= |c.consignors|
    ensures SameStakes(c, r.rec)
    ensures r.rec.consignors[k..] == c.consignors[k..]
  {
    if k == 0 then Credited(c, []) else
      var p := CreditFirst(c, k - 1, pool, total, mp);
      var q := CreditOne(p.rec, k - 1, pool, total, mp);
      PairsKept(c, p.rec, q.rec, k - 1);
      Credited(q.rec, p.pays + q.pays)
  }

  lemma PairsKept(c: Consignee, p: Consignee, q: Consignee, i: nat)
    requires SameStakes(c, p) && i < |c.consignors| && p.consignors[i..] == c.consignors[i..]
    requires |q.consignors| == |p.consignors| && q.address == p.address && q.amount == p.amount && q.feePercent == p.feePercent
    requires q.consignors[i].address == p.consignors[i].address && q.consignors[i].amount == p.consignors[i].amount
    requires forall j | 0 <= j < |p.consignors| && j != i :: q.consignors[j] == p.consignors[j]
    ensures SameStakes(c, q) && q.consignors[i + 1..] == c.consignors[i + 1..]
  {
    forall j | 0 <= j < |c.consignors| ensures Pairs(q.consignors)[j] == Pairs(p.consignors)[j] {
    }
    forall j | i < j < |c.consignors| ensures q.consignors[j] == c.consignors[j] {
      assert p.consignors[i..][j - i] == c.consignors[i..][j - i];
    }
  }

  // minerReward, and the body of voteReward's outer loop.
  function CreditPass(c: Consignee, pool: int, mp: MineParam): (r: Credited)
    requires mp.Valid()
    ensures SameStakes(c, r.rec)
  {
    if c.amount == 0 then Credited(c, [])
    else CreditFirst(c, |c.consignors|, pool, Tickets(c.amount, mp), mp)
  }

  // ---- Accounting ----

  function Rewards(cs: seq<Consignor>): seq<int> {
    seq(|cs|, i requires 0 <= i < |cs| => cs[i].reward)
  }

  function Remains(cs: seq<Consignor>): seq<int> {
    seq(|cs|, i requires 0 <= i < |cs| => cs[i].remainReward)
  }

  // What the executor still owes through this record.
  function Owed(c: Consignee): int {
    SumSeq(Remains(c.consignors)) + c.remainFeeReward
  }

  function PaidOut(pays: seq<Pay>): int {
    if pays == [] then 0 else pays[0].amount + PaidOut(pays[1..])
  }

  // Of the transfers in a journal, those to consignors of e, or of e's fees.
  function PaidBy(pays: seq<Pay>, e: Addr, isFee: bool): int {
    if pays == [] then 0
    else (if pays[0].consignee == e && pays[0].isFee == isFee then pays[0].amount else 0) + PaidBy(pays[1..], e, isFee)
  }

  lemma {:induction false} PaysConcat(p: seq<Pay>, q: seq<Pay>, e: Addr, isFee: bool)
    ensures PaidOut(p + q) == PaidOut(p) + PaidOut(q)
    ensures PaidBy(p + q, e, isFee) == PaidBy(p, e, isFee) + PaidBy(q, e, isFee)
  {
    if p == [] {
      assert p + q == q;
    } else {
      assert (p + q)[1..] == p[1..] + q;
      PaysConcat(p[1..], q, e, isFee);
    }
  }

  function SharesOf(c: Consignee, k: nat, pool: int, total: int, mp: MineParam): int
    requires mp.Valid() && k <= |c.consignors|
  {
    if k == 0 then 0
    else SharesOf(c, k - 1, pool, total, mp) + ShareOf(c.consignors[k - 1].amount, pool, total, mp)
  }

  // How the totals of record d differ from those of c after the given transfers and shares.
  ghost predicate Accounted(c: Consignee, d: Consignee, pays: seq<Pay>, shares: int) {
    && Owed(d) + PaidOut(pays) == Owed(c) + shares
    && SumSeq(Rewards(d.consignors)) == SumSeq(Rewards(c.consignors)) + shares
    && SumSeq(Rewards(d.consignors)) - SumSeq(Remains(d.consignors)) - d.feeReward
       == SumSeq(Rewards(c.consignors)) - SumSeq(Remains(c.consignors)) - c.feeReward + PaidBy(pays, c.address, false)
    && d.feeReward - d.remainFeeReward == c.feeReward - c.remainFeeReward + PaidBy(pays, c.address, true)
    && (forall p | p in pays :: p.consignee == c.address)
  }

  lemma ConsignorReplaced(cs: seq<Consignor>, i: nat, d: Consignor)
    requires i < |cs|
    ensures SumSeq(Rewards(cs[i := d])) == SumSeq(Rewards(cs)) - cs[i].reward + d.reward
    ensures SumSeq(Remains(cs[i := d])) == SumSeq(Remains(cs)) - cs[i].remainReward + d.remainReward
  {
    assert Rewards(cs[i := d]) == Rewards(cs)[i := d.reward];
    assert Remains(cs[i := d]) == Remains(cs)[i := d.remainReward];
    SumSeqUpdate(Rewards(cs), i, d.reward);
    SumSeqUpdate(Remains(cs), i, d.remainReward);
  }

  lemma PaysOfOne(p: Pay, e: Addr, isFee: bool)
    ensures PaidOut([p]) == p.amount
    ensures PaidBy([p], e, isFee) == if p.consignee == e && p.isFee == isFee then p.amount else 0
  {
  }

  lemma CreditOneAccounted(c: Consignee, i: nat, pool: int, total: int, mp: MineParam)
    requires mp.Valid() && i < |c.consignors|
    ensures var r := CreditOne(c, i, pool, total, mp);
      Accounted(c, r.rec, r.pays, ShareOf(c.consignors[i].amount, pool, total, mp))
  {
    var r := CreditOne(c, i, pool, total, mp);
    hide Share, Fee, Quo, SumSeq, Rewards, Remains;
    ConsignorReplaced(c.consignors, i, r.rec.consignors[i]);
    if |r.pays| == 1 {
      assert r.pays == [r.pays[0]];
      PaysOfOne(r.pays[0], c.address, false);
      PaysOfOne(r.pays[0], c.address, true);
    } else if |r.pays| == 2 {
      assert r.pays == [r.pays[0]] + [r.pays[1]];
      forall isFee: bool ensures PaidOut(r.pays) == r.pays[0].amount + r.pays[1].amount
        && PaidBy(r.pays, c.address, isFee) == (if r.pays[0].isFee == isFee then r.pays[0].amount else 0)
                                             + (if r.pays[1].isFee == isFee then r.pays[1].amount else 0)
      {
        PaysConcat([r.pays[0]], [r.pays[1]], c.address, isFee);
        PaysOfOne(r.pays[0], c.address, isFee);
        PaysOfOne(r.pays[1], c.address, isFee);
      }
    }
  }

  lemma {:induction false} CreditFirstAccounted(c: Consignee, k: nat, pool: int, total: int, mp: MineParam)
    requires mp.Valid() && k <= |c.consignors|
    ensures var r := CreditFirst(c, k, pool, total, mp);
      Accounted(c, r.rec, r.pays, SharesOf(c, k, pool, total, mp))
  {
    if k > 0 {
      var p := CreditFirst(c, k - 1, pool, total, mp);
      var q := CreditOne(p.rec, k - 1, pool, total, mp);
      hide CreditOne, Owed, SumSeq, ShareOf;
      CreditFirstAccounted(c, k - 1, pool, total, mp);
      assert Pairs(p.rec.consignors)[k - 1] == Pairs(c.consignors)[k - 1];
      CreditOneAccounted(p.rec, k - 1, pool, total, mp);
      PaysConcat(p.pays, q.pays, c.address, false);
      PaysConcat(p.pays, q.pays, c.address, true);
    }
  }

  // ---- Thresholds ----

  ghost predicate BelowThreshold(c: Consignee, mp: MineParam) {
    && (forall i | 0 <= i < |c.consignors| :: c.consignors[i].remainReward < mp.rewardTransfer)
    && c.remainFeeReward < mp.rewardTransfer * 10
  }

  ghost predicate NothingOverpaid(c: Consignee) {
    && (forall i | 0 <= i < |c.consignors| :: c.consignors[i].remainReward >= 0)
    && c.remainFeeReward >= 0 && 0 <= c.feePercent < 100
  }

  ghost predicate IsPayee(a: Addr, c: Consignee) {
    a == c.address || exists i | 0 <= i < |c.consignors| :: Pairs(c.consignors)[i].address == a
  }

  ghost predicate PaysAreSound(pays: seq<Pay>, c: Consignee) {
    forall p | p in pays :: p.amount > 0 && IsPayee(p.payee, c)
  }

  lemma {:induction false} CreditFirstBelow(c: Consignee, k: nat, pool: int, total: int, mp: MineParam)
    requires mp.Valid() && k <= |c.consignors|
    requires BelowThreshold(c, mp)
    ensures BelowThreshold(CreditFirst(c, k, pool, total, mp).rec, mp)
  {
    if k > 0 {
      CreditFirstBelow(c, k - 1, pool, total, mp);
      hide Share, Fee;
    }
  }

  lemma FeeBelow(remain: int, feePercent: int)
    requires remain > 0 && 0 <= feePercent < 100
    ensures 0 <= Fee(remain, feePercent) < remain
  {
    assert 0 <= remain * feePercent < remain * 100;
  }

  lemma CreditOneSound(c: Consignee, i: nat, pool: int, total: int, mp: MineParam)
    requires mp.Valid() && i < |c.consignors| && NothingOverpaid(c)
    requires ShareOf(c.consignors[i].amount, pool, total, mp) >= 0
    ensures var r := CreditOne(c, i, pool, total, mp); NothingOverpaid(r.rec) && PaysAreSound(r.pays, c)
  {
    var remain := c.consignors[i].remainReward + ShareOf(c.consignors[i].amount, pool, total, mp);
    if remain > 0 { FeeBelow(remain, c.feePercent); }
    hide Share, Fee;
    assert IsPayee(c.consignors[i].address, c) by { assert Pairs(c.consignors)[i].address == c.consignors[i].address; }
  }

  lemma {:induction false} CreditFirstSound(c: Consignee, k: nat, pool: int, total: int, mp: MineParam)
    requires mp.Valid() && k <= |c.consignors| && NothingOverpaid(c)
    requires forall i | 0 <= i < k :: ShareOf(c.consignors[i].amount, pool, total, mp) >= 0
    ensures var r := CreditFirst(c, k, pool, total, mp); NothingOverpaid(r.rec) && PaysAreSound(r.pays, c)
  {
    if k > 0 {
      CreditFirstSound(c, k - 1, pool, total, mp);
      var p := CreditFirst(c, k - 1, pool, total, mp);
      assert Pairs(p.rec.consignors)[k - 1] == Pairs(c.consignors)[k - 1];
      CreditOneSound(p.rec, k - 1, pool, total, mp);
    }
  }

  // ---- The shares of one pass never exceed the pool ----

  // Amounts are non-negative, there is at least one ticket, and the product of pool and
  // tickets is small enough for the floating-point quotient.
  ghost predicate Rewardable(c: Consignee, pool: int, mp: MineParam)
    requires mp.Valid()
  {
    c.amount == 0 ||
    (&& (forall i | 0 <= i < |c.consignors| :: c.consignors[i].amount >= 0)
     && mp.ticketPrice <= c.amount
     && pool * Tickets(c.amount, mp) <= 0x8_0000_0000_0000)
  }

  function TicketSum(xs: seq<int>, mp: MineParam): int
    requires mp.Valid()
  {
    if xs == [] then 0 else Tickets(xs[|xs| - 1], mp) + TicketSum(xs[..|xs| - 1], mp)
  }

  // Integer products are named, so that the inductions below can hide them.
  function Prod(a: int, b: int): int {
    a * b
  }

  lemma ProdLeq(a: int, b: int, n: int)
    requires n >= 0 && a <= b
    ensures Prod(a, n) <= Prod(b, n)
  {
  }

  lemma ProdSum(a: int, b: int, n: int)
    ensures Prod(a + b, n) == Prod(a, n) + Prod(b, n)
    ensures Prod(0, n) == 0
  {
  }

  lemma ProdCommutes(a: int, b: int)
    ensures Prod(a, b) == Prod(b, a)
  {
  }

  lemma ProdCancel(a: int, b: int, n: int)
    requires n > 0 && Prod(a, n) <= Prod(b, n)
    ensures a <= b
  {
    if b < a {
      ProdLeq(b + 1, a, n);
      ProdSum(b, 1, n);
    }
  }

  lemma ProdDiv(x: nat, n: nat)
    requires n > 0
    ensures Prod(x / n, n) <= x < Prod(x / n + 1, n)
  {
  }

  lemma QuotientBound(t: int, s: nat, p: nat)
    requires p > 0 && 0 <= Prod(t, p) <= s
    ensures 0 <= t <= s / p
  {
    hide Prod;
    ProdDiv(s, p);
    ProdSum(0, 0, p);
    if t > s / p { ProdLeq(s / p + 1, t, p); }
    ProdCancel(0, t, p);
  }

  // Whole tickets of the parts never exceed the whole tickets of the sum.
  lemma {:induction false} TicketSumBound(xs: seq<int>, mp: MineParam)
    requires mp.Valid() && forall i | 0 <= i < |xs| :: xs[i] >= 0
    ensures 0 <= Prod(TicketSum(xs, mp), mp.ticketPrice) <= SumSeq(xs)
    ensures forall i | 0 <= i < |xs| :: xs[i] <= SumSeq(xs)
  {
    hide Prod;
    ProdSum(0, 0, mp.ticketPrice);
    if xs != [] {
      var init, last := xs[..|xs| - 1], xs[|xs| - 1];
      TicketSumBound(init, mp);
      assert xs == init + [last];
      SumSeqConcat(init, [last]);
      ProdDiv(last, mp.ticketPrice);
      ProdSum(Tickets(last, mp), TicketSum(init, mp), mp.ticketPrice);
      assert last / mp.ticketPrice >= 0;
      ProdLeq(0, Tickets(last, mp), mp.ticketPrice);
    }
  }

  lemma {:induction false} SharesBound(c: Consignee, k: nat, pool: nat, total: nat, mp: MineParam)
    requires mp.Valid() && 0 < total && k <= |c.consignors| && pool * total <= 0x8_0000_0000_0000
    requires forall i | 0 <= i < |c.consignors| :: 0 <= c.consignors[i].amount && Tickets(c.consignors[i].amount, mp) <= total
    ensures 0 <= SharesOf(c, k, pool, total, mp)
    ensures Prod(SharesOf(c, k, pool, total, mp), total) <= Prod(pool, TicketSum(Amounts(Pairs(c.consignors))[..k], mp))
    ensures forall i | 0 <= i < k :: ShareOf(c.consignors[i].amount, pool, total, mp) >= 0
  {
    hide Share, Tickets, ShareOf, Prod;
    ProdSum(0, 0, total);
    ProdSum(0, 0, pool);
    ProdCommutes(0, pool);
    if k > 0 {
      SharesBound(c, k - 1, pool, total, mp);
      var xs, a := Amounts(Pairs(c.consignors)), c.consignors[k - 1].amount;
      assert xs[..k][..k - 1] == xs[..k - 1] && xs[..k][k - 1] == a;
      OneShareBound(a, pool, total, mp);
      var s, share := SharesOf(c, k - 1, pool, total, mp), ShareOf(a, pool, total, mp);
      var t, n := TicketSum(xs[..k - 1], mp), Tickets(a, mp);
      ProdSum(s, share, total);
      ProdSum(t, n, pool);
      ProdCommutes(t, pool);
      ProdCommutes(n, pool);
      ProdCommutes(t + n, pool);
    }
  }

  lemma OneShareBound(a: nat, pool: nat, total: nat, mp: MineParam)
    requires mp.Valid() && 0 < total && pool * total <= 0x8_0000_0000_0000 && Tickets(a, mp) <= total
    ensures 0 <= ShareOf(a, pool, total, mp)
    ensures Prod(ShareOf(a, pool, total, mp), total) <= Prod(pool, Tickets(a, mp))
  {
    var n := Tickets(a, mp);
    assert 0 <= n && (a == 0 ==> n == 0);
    hide Share, Quo, Tickets, Prod;
    if a != 0 {
      ShareInPool(pool, total, n);
    } else {
      ProdSum(0, 0, total);
      ProdCommutes(0, pool);
      ProdSum(0, 0, pool);
    }
  }

  lemma ShareInPool(pool: nat, total: nat, n: nat)
    requires 0 < total && n <= total && pool * total <= 0x8_0000_0000_0000
    ensures 0 <= Share(pool, total, n) && Prod(Share(pool, total, n), total) <= Prod(pool, n)
  {
    hide Share, Prod;
    ShareBound(pool, total, n);
    ShareTimesTotal(Share(pool, total, n), pool, total, n);
  }

  lemma ShareTimesTotal(s: int, pool: nat, total: nat, n: nat)
    requires 0 < total && s <= pool * n / total
    ensures Prod(s, total) <= Prod(pool, n)
  {
    var w := Prod(pool, n);
    assert 0 <= w;
    hide Prod;
    ProdDiv(w, total);
    ProdLeq(s, w / total, total);
  }

  // The shares a consignee's consignors get from one pool add up to at most the pool.
  lemma SharesWithinPool(c: Consignee, pool: nat, mp: MineParam)
    requires mp.Valid() && Rewardable(c, pool, mp) && c.amount != 0 && c.amount == Total(Pairs(c.consignors))
    ensures Tickets(c.amount, mp) > 0
    ensures 0 <= SharesOf(c, |c.consignors|, pool, Tickets(c.amount, mp), mp) <= pool
    ensures forall i | 0 <= i < |c.consignors| :: ShareOf(c.consignors[i].amount, pool, Tickets(c.amount, mp), mp) >= 0
  {
    var xs, total, k := Amounts(Pairs(c.consignors)), Tickets(c.amount, mp), |c.consignors|;
    forall i | 0 <= i < |xs| ensures xs[i] == c.consignors[i].amount { }
    QuoMono(mp.ticketPrice, c.amount, mp.ticketPrice);
    hide Quo, Prod, SumSeq, Share;
    TicketSumBound(xs, mp);
    forall i | 0 <= i < |c.consignors| ensures Tickets(c.consignors[i].amount, mp) <= total {
      QuoMono(xs[i], c.amount, mp.ticketPrice);
    }
    SharesBound(c, k, pool, total, mp);
    assert xs[..k] == xs;
    var s, t := SharesOf(c, k, pool, total, mp), TicketSum(xs, mp);
    QuotientBound(t, c.amount, mp.ticketPrice);
    assert total == c.amount / mp.ticketPrice by { QuoMono(c.amount, c.amount, mp.ticketPrice); }
    ProdLeq(t, total, pool);
    ProdCommutes(t, pool);
    ProdCommutes(total, pool);
    ProdCancel(s, pool, total);
  }

  lemma QuoMono(a: nat, b: nat, p: int)
    requires p > 0 && a <= b
    ensures Quo(a, p) <= Quo(b, p) && Quo(p, p) == 1 && Quo(b, p) == b / p
  {
    hide Prod;
    ProdDiv(a, p);
    ProdDiv(b, p);
    if b / p < a / p { ProdLeq(b / p + 1, a / p, p); }
  }

  // ---- Negative pairs ----

  lemma OneTicketShare(pool: nat, n: nat)
    requires pool * n < SIGNIFICANDS && pool < SIGNIFICANDS && n < SIGNIFICANDS
    ensures Share(pool, 1, n) == pool * n
  {
    hide Round;
    IntIsDouble(1);
    IntIsDouble(pool);
    IntIsDouble(n);
    IntIsDouble(pool * n);
    assert Over(pool as real, 1.0) == pool as real;
    assert Times(pool as real, n as real) == (pool * n) as real;
  }

  // Pairs of two tickets and of minus half a ticket.
  ghost predicate Lopsided(c: Consignee, mp: MineParam)
    requires mp.Valid()
  {
    && |c.consignors| == 2 && c.consignors[0].amount == 2 * mp.ticketPrice && c.consignors[1].amount == -(mp.ticketPrice / 2)
    && c.amount == c.consignors[0].amount + c.consignors[1].amount
  }

  // Without the non-negativity of the pairs the bound fails: such a consignee holds one
  // ticket, and its consignors are credited twice the pool.
  lemma NegativePairOverpays(c: Consignee, pool: nat, mp: MineParam)
    requires mp.Valid() && mp.ticketPrice >= 2 && Lopsided(c, mp) && 2 * pool < SIGNIFICANDS
    ensures Tickets(c.amount, mp) == 1
    ensures ShareOf(c.consignors[0].amount, pool, 1, mp) == 2 * pool && ShareOf(c.consignors[1].amount, pool, 1, mp) == 0
    ensures SharesOf(c, 2, pool, 1, mp) == 2 * pool
  {
    QuoOfTwo(mp.ticketPrice);
    hide Share, Quo;
    OneTicketShare(pool, 2);
    OneTicketShare(pool, 0);
    assert SharesOf(c, 1, pool, 1, mp) == SharesOf(c, 0, pool, 1, mp) + ShareOf(c.consignors[0].amount, pool, 1, mp);
  }

  lemma QuoOfTwo(p: int)
    requires p >= 2
    ensures Quo(2 * p, p) == 2 && Quo(-(p / 2), p) == 0 && Quo(2 * p - p / 2, p) == 1
  {
    hide Prod;
    ProdDiv(p / 2, p);
    ProdDiv(2 * p - p / 2, p);
  }
}
