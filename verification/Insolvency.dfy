// A run from an empty ledger that ends insolvent under the shipped parameters: four
// entrusts leave a consignee with a pair below zero, and one block then credits its
// consignors twice the pools (plugin/dapp/pos33/executor/pos33.go:131-149, 257-352, 430-473).
module Insolvency {
  import opened Sums
  import opened Order
  import opened Options
  import opened Coins
  import opened Params
  import opened Stake
  import opened Doubles
  import opened Reward
  import opened Mining
  import opened LedgerRuns
  import opened Solvency

  const PRICE := SHIPPED.ticketPrice
  const HALF := SHIPPED.ticketPrice / 2
  const VOTES := 13

  // Executor 0, fund 9, consignors 1 and 2, consignees 3 and 4, voter key 7 of consignee 3.
  const CFG := Config(0, 9, SHIPPED)
  const MAIN := map[0 := 3 * PRICE + 1]

  function Keys(): (r: seq<nat>)
    ensures |r| == VOTES && forall k | k in r :: k == 7
  {
    seq(VOTES, i => 7)
  }

  function Entrusts(): seq<Tx> {
    [Entrust(1, 1, EntrustMsg(3, 1, 2 * PRICE)),
     Entrust(1, 2, EntrustMsg(3, 2, 1)),
     Entrust(1, 2, EntrustMsg(4, 2, PRICE)),
     Entrust(1, 2, EntrustMsg(3, 2, -1 - HALF))]
  }

  function Three(second: seq<Consignor>): Consignee {
    Consignee(3, 2 * PRICE + (if second == [] then 0 else second[0].amount), 0, 0, SHIPPED.feePercent,
              [Consignor(1, 2 * PRICE, 0, 0)] + second)
  }

  function Four(): Consignee {
    Consignee(4, PRICE, 0, 0, SHIPPED.feePercent, [Consignor(2, PRICE, 0, 0)])
  }

  function Balances(free1: int, free2: int): Accounts {
    Accounts(MAIN, map[1 := Sub(free1, 2 * PRICE - free1), 2 := Sub(free2, PRICE + 1 - free2)])
  }

  ghost predicate At(l: Ledger, es: map<Addr, Consignee>, coins: Accounts) {
    l.db.consignees == es && l.coins == coins
  }

  ghost function After(l: Ledger, tx: Tx): Option<Ledger>
    requires tx.Entrust?
  {
    Entrusted(l, CFG.exec, CFG.mp, tx.height, tx.from, tx.msg)
  }

  lemma First(l: Ledger)
    requires At(l, map[], Balances(2 * PRICE, PRICE + 1))
    ensures var r := After(l, Entrusts()[0]); r.Some? && At(r.value, map[3 := Three([])], Balances(0, PRICE + 1))
  {
    assert Pairs([]) == [];
    assert Added([], 1, 2 * PRICE) == Three([]).consignors;
  }

  lemma Second(l: Ledger)
    requires At(l, map[3 := Three([])], Balances(0, PRICE + 1))
    ensures var r := After(l, Entrusts()[1]); r.Some? && At(r.value, map[3 := Three([Consignor(2, 1, 0, 0)])], Balances(0, PRICE))
  {
    var cs := Three([]).consignors;
    PositionUnique(Pairs(cs), 2, 1);
    assert Added(cs, 2, 1) == Three([Consignor(2, 1, 0, 0)]).consignors;
  }

  lemma Third(l: Ledger)
    requires At(l, map[3 := Three([Consignor(2, 1, 0, 0)])], Balances(0, PRICE))
    ensures var r := After(l, Entrusts()[2]);
      r.Some? && At(r.value, map[3 := Three([Consignor(2, 1, 0, 0)]), 4 := Four()], Balances(0, 0))
  {
    assert Pairs([]) == [];
    assert Added([], 2, PRICE) == Four().consignors;
  }

  lemma Fourth(l: Ledger)
    requires At(l, map[3 := Three([Consignor(2, 1, 0, 0)]), 4 := Four()], Balances(0, 0))
    ensures var r := After(l, Entrusts()[3]);
      r.Some? && At(r.value, map[3 := Three([Consignor(2, -HALF, 0, 0)]), 4 := Four()], Balances(0, 1 + HALF))
  {
    var cs := Three([Consignor(2, 1, 0, 0)]).consignors;
    PositionUnique(Pairs(cs), 2, 1);
    assert Added(cs, 2, -1 - HALF) == Three([Consignor(2, -HALF, 0, 0)]).consignors;
  }

  // ---- The block ----

  function Overdrawn(): Consignee {
    Three([Consignor(2, -HALF, 0, 0)])
  }

  // One pass over such a record: positive payments to known payees, nothing negative left,
  // and twice the pool credited.
  lemma PassOverpays(c: Consignee, pool: nat)
    requires SameStakes(Overdrawn(), c) && NothingOverpaid(c) && 2 * pool < SIGNIFICANDS
    ensures RecordCredits(c, pool, SHIPPED) == 2 * pool
    ensures var r := CreditPass(c, pool, SHIPPED); NothingOverpaid(r.rec) && PaysAreSound(r.pays, c)
  {
    hide *;
    StillLopsided(c);
    ShippedPrice();
    NegativePairOverpays(c, pool, SHIPPED);
    PassIs(c, pool, 1);
    CreditFirstSound(c, 2, pool, 1, SHIPPED);
  }

  lemma ShippedPrice()
    ensures SHIPPED.Valid() && SHIPPED.ticketPrice >= 2
  {
  }

  lemma PassIs(c: Consignee, pool: nat, total: int)
    requires SHIPPED.Valid() && c.amount != 0 && Tickets(c.amount, SHIPPED) == total
    ensures CreditPass(c, pool, SHIPPED) == CreditFirst(c, |c.consignors|, pool, total, SHIPPED)
    ensures RecordCredits(c, pool, SHIPPED) == SharesOf(c, |c.consignors|, pool, total, SHIPPED)
  {
    hide CreditFirst, SharesOf, Tickets;
  }

  lemma StillLopsided(c: Consignee)
    requires SameStakes(Overdrawn(), c)
    ensures Lopsided(c, SHIPPED) && c.amount != 0 && |c.consignors| == 2
  {
    assert Pairs(c.consignors)[0] == Pairs(Overdrawn().consignors)[0];
    assert Pairs(c.consignors)[1] == Pairs(Overdrawn().consignors)[1];
  }

  function Voters(): (r: seq<Addr>)
    ensures |r| == VOTES
  {
    seq(VOTES, i => 3)
  }

  lemma OneName()
    ensures Names(Voters(), 3) == {3} && Ascending({3}) == [3] && VotesOf(Voters(), 3) == VOTES
  {
    assert Voters()[0] == 3;
    SortedUnique(Ascending({3}), [3]);
    AllThree(VOTES);
  }

  lemma {:induction false} AllThree(n: nat)
    ensures VotesOf(seq(n, i => 3), 3) == n
  {
    if n > 0 {
      AllThree(n - 1);
      assert seq(n, i => 3) == seq(n - 1, i => 3) + [3];
    }
  }

  ghost predicate OnlyThree(es: map<Addr, Consignee>) {
    3 in es && es[3] == Overdrawn()
  }

  lemma OnePass(es: map<Addr, Consignee>)
    requires OnlyThree(es)
    ensures AllKnown(es, Names(Voters(), 3))
    ensures var p1, p2 := Prod(SHIPPED.voteReward, VOTES), Prod(SHIPPED.mineReward, VOTES);
            var v := CreditPass(es[3], p1, SHIPPED); var m := CreditPass(v.rec, p2, SHIPPED);
      && BlockPass(es, Voters(), 3, SHIPPED).pays == v.pays + m.pays
      && BlockCredits(es, Voters(), 3, SHIPPED) == RecordCredits(es[3], p1, SHIPPED) + RecordCredits(es[3], p2, SHIPPED)
  {
    hide CreditPass, RecordCredits, Overdrawn, VotesOf, Voters, Prod, Ascending, Names;
    OneName();
    var order := [3];
    assert order[..0] == [] && Elements(order) == {3};
    assert VotePass(es, [], Voters(), SHIPPED) == Pass(es, []);
    assert VoteCredits(es, [], Voters(), SHIPPED) == 0;
  }

  lemma PayeesClear(pays: seq<Pay>, c: Consignee)
    requires PaysAreSound(pays, c) && SameStakes(Overdrawn(), c)
    ensures ClearPays(pays, 0)
  {
    forall p | p in pays ensures p.payee != 0 {
      assert forall i | 0 <= i < |c.consignors| :: Pairs(c.consignors)[i] == Pairs(Overdrawn().consignors)[i];
    }
  }

  lemma TwoPasses(c: Consignee, p1: nat, p2: nat)
    requires c == Overdrawn() && 2 * p1 < SIGNIFICANDS && 2 * p2 < SIGNIFICANDS
    ensures RecordCredits(c, p1, SHIPPED) == 2 * p1 && RecordCredits(c, p2, SHIPPED) == 2 * p2
    ensures var v := CreditPass(c, p1, SHIPPED); var m := CreditPass(v.rec, p2, SHIPPED);
      ClearPays(v.pays + m.pays, 0) && PaidOut(v.pays + m.pays) <= 2 * p1 + 2 * p2
  {
    hide CreditPass, RecordCredits, Overdrawn, PaidOut, Owed, SameStakes, NothingOverpaid, PaysAreSound, SIGNIFICANDS;
    Fresh(c);
    PassOverpays(c, p1);
    var v := CreditPass(c, p1, SHIPPED);
    PassOverpays(v.rec, p2);
    SameCredits(c, v.rec, p2, SHIPPED);
    var m := CreditPass(v.rec, p2, SHIPPED);
    CreditPassConserves(c, p1, SHIPPED);
    CreditPassConserves(v.rec, p2, SHIPPED);
    OwedIsNonNegative(m.rec);
    PaysConcat(v.pays, m.pays, 0, false);
    PayeesClear(v.pays, c);
    PayeesClear(m.pays, v.rec);
  }

  // The two pools are 3.25 and 1.43 coins; twice both, 9.36 coins, is credited.
  lemma BlockOverpays(es: map<Addr, Consignee>)
    requires OnlyThree(es)
    ensures AllKnown(es, Names(Voters(), 3))
    ensures BlockCredits(es, Voters(), 3, SHIPPED) == 2 * SHIPPED.Pools(VOTES)
    ensures var pays := BlockPass(es, Voters(), 3, SHIPPED).pays;
      ClearPays(pays, 0) && PaidOut(pays) <= 2 * SHIPPED.Pools(VOTES)
  {
    hide *;
    var p1, p2 := Prod(SHIPPED.voteReward, VOTES), Prod(SHIPPED.mineReward, VOTES);
    TwoPools(p1, p2);
    OnePass(es);
    ThreeIs(es);
    TwoPasses(es[3], p1, p2);
  }

  lemma TwoPools(p1: int, p2: int)
    requires p1 == Prod(SHIPPED.voteReward, VOTES) && p2 == Prod(SHIPPED.mineReward, VOTES)
    ensures p1 + p2 == SHIPPED.Pools(VOTES) && 0 <= 2 * p1 < SIGNIFICANDS && 0 <= 2 * p2 < SIGNIFICANDS
  {
  }

  lemma ThreeIs(es: map<Addr, Consignee>)
    requires OnlyThree(es)
    ensures 3 in es && es[3] == Overdrawn()
  {
  }

  lemma Fresh(c: Consignee)
    requires c == Overdrawn()
    ensures SameStakes(Overdrawn(), c) && NothingOverpaid(c) && Owed(c) == 0
  {
    assert Remains(c.consignors) == [0, 0];
    SumSeqConcat([0], [0]);
  }

  lemma OwedIsNonNegative(c: Consignee)
    requires NothingOverpaid(c)
    ensures Owed(c) >= 0
  {
    SumNonNegative(Remains(c.consignors));
  }

  // The block is accepted: the executor's balance, which is all deposits, covers the
  // payments. It leaves that balance short of the deposits and debts.
  lemma BlockAccepted(l: Ledger, bls: map<nat, Addr>)
    requires OnlyThree(l.db.consignees) && l.coins == Balances(0, 1 + HALF) && bls == map[7 := 3]
    requires Slack(l, 0) == 0
    ensures Accepted(l, bls, 0, 9, SHIPPED, 3, Keys())
    ensures !Solvent(MinedBlock(l, bls, 0, 9, SHIPPED, 3, Keys(), 0).value.ledger, 0)
  {
    hide *;
    Amounts(l.coins);
    KeysAreVotes(bls);
    BlockOverpays(l.db.consignees);
    var pays := BlockPass(l.db.consignees, Voters(), 3, SHIPPED).pays;
    var c0 := l.coins.Credit(0, SHIPPED.blockReward);
    PaysSucceed(c0, 0, pays);
    var c1 := ApplyPays(c0, 0, pays).value;
    Funded(c1);
    var c2 := Transferred(c1, 0, 9, SHIPPED.blockReward - SHIPPED.Pools(VOTES)).value;
    AllBound(l, bls);
    MinedAs(l, bls, 0, 9, SHIPPED, 3, Keys(), c1, c2);
    WasAccepted(l, bls);
    MinedSolventIff(l, bls, 0, 9, SHIPPED, 3, Keys());
  }

  lemma Amounts(c: Accounts)
    requires c == Balances(0, 1 + HALF)
    ensures SHIPPED.Valid() && SHIPPED.Pools(VOTES) == 4_6800_0000 && SHIPPED.blockReward == 15_0000_0000
    ensures var c0 := c.Credit(0, SHIPPED.blockReward); c0.Valid() && c0.Main(0) >= 30_0000_0000
  {
  }

  lemma Funded(c: Accounts)
    requires c.Main(0) >= 20_0000_0000
    ensures Transferred(c, 0, 9, SHIPPED.blockReward - SHIPPED.Pools(VOTES)).Some?
  {
  }

  lemma AllBound(l: Ledger, bls: map<nat, Addr>)
    requires Bound(bls, Keys()) && AllKnown(l.db.consignees, Names(VotersOf(bls, Keys()), 3))
    ensures Known(l.db, bls, Keys(), 3)
  {
  }

  lemma WasAccepted(l: Ledger, bls: map<nat, Addr>)
    requires SHIPPED.Valid() && MinedBlock(l, bls, 0, 9, SHIPPED, 3, Keys(), 0).Some?
    ensures Accepted(l, bls, 0, 9, SHIPPED, 3, Keys())
  {
  }

  lemma KeysAreVotes(bls: map<nat, Addr>)
    requires bls == map[7 := 3]
    ensures Bound(bls, Keys()) && VotersOf(bls, Keys()) == Voters()
  {
  }

  // ---- The run ----

  lemma TwoEntries(m: map<Addr, int>, a: Addr, x: int, b: Addr, y: int)
    requires a != b && m == map[a := x, b := y]
    ensures SumMap(m) == x + y
  {
    var none: map<Addr, int> := map[];
    SumMapUpdate(none, a, x);
    SumMapUpdate(none[a := x], b, y);
    assert none[a := x][b := y] == m;
  }

  lemma DepositsAre(c: Accounts, free1: int, free2: int)
    requires c == Balances(free1, free2)
    ensures c.Deposits() == 3 * PRICE + 1
  {
    assert c.DepositMap() == map[1 := 2 * PRICE, 2 := PRICE + 1];
    TwoEntries(c.DepositMap(), 1, 2 * PRICE, 2, PRICE + 1);
  }

  lemma NothingOwed(es: map<Addr, Consignee>)
    requires es == map[3 := Overdrawn(), 4 := Four()]
    ensures TotalOwed(es) == 0
  {
    Fresh(es[3]);
    hide Owed, Overdrawn, Four;
    assert Owed(Four()) == 0 by { FourOwesNothing(); }
    assert OwedMap(es) == map[3 := 0, 4 := 0];
    TwoEntries(OwedMap(es), 3, 0, 4, 0);
  }

  lemma FourOwesNothing()
    ensures Owed(Four()) == 0
  {
    assert Remains(Four().consignors) == [0];
  }

  function Start(): State {
    State(Ledger(EMPTY, Balances(2 * PRICE, PRICE + 1)), map[], [])
  }

  lemma StartIsInitial()
    ensures CFG.mp.Valid() && Initial(CFG, Start())
  {
    DepositsAre(Start().ledger.coins, 2 * PRICE, PRICE + 1);
  }

  lemma NoSlack(l: Ledger)
    requires At(l, map[3 := Overdrawn(), 4 := Four()], Balances(0, 1 + HALF))
    ensures OnlyThree(l.db.consignees) && Slack(l, 0) == 0
  {
    hide Balances, Overdrawn, Four, TotalOwed;
    DepositsAre(l.coins, 0, 1 + HALF);
    NothingOwed(l.db.consignees);
    assert l.coins.Main(0) == 3 * PRICE + 1 by { MainIs(l.coins); }
  }

  lemma MainIs(c: Accounts)
    requires c == Balances(0, 1 + HALF)
    ensures c.Main(0) == 3 * PRICE + 1
  {
  }

  // The four ledgers the entrusts lead through.
  lemma FourEntrusts() returns (l1: Ledger, l2: Ledger, l3: Ledger, l4: Ledger)
    ensures After(Start().ledger, Entrusts()[0]) == Some(l1) && After(l1, Entrusts()[1]) == Some(l2)
    ensures After(l2, Entrusts()[2]) == Some(l3) && After(l3, Entrusts()[3]) == Some(l4)
    ensures At(l4, map[3 := Overdrawn(), 4 := Four()], Balances(0, 1 + HALF))
  {
    assert At(Start().ledger, map[], Balances(2 * PRICE, PRICE + 1));
    First(Start().ledger);
    hide After, Entrusts, Balances, Three, Four, Start;
    l1 := After(Start().ledger, Entrusts()[0]).value;
    Second(l1);
    l2 := After(l1, Entrusts()[1]).value;
    Third(l2);
    l3 := After(l2, Entrusts()[2]).value;
    Fourth(l3);
    l4 := After(l3, Entrusts()[3]).value;
  }

  lemma EntrustSteps(s: State, tx: Tx, l: Ledger)
    requires tx.Entrust? && After(s.ledger, tx) == Some(l)
    ensures Step(CFG, s, tx, s.(ledger := l))
  {
    hide Entrusted;
  }

  lemma MinerSteps(s: State) returns (s': State)
    requires Accepted(s.ledger, s.bls, 0, 9, SHIPPED, 3, Keys())
    ensures Step(CFG, s, Miner(3, Keys(), 0), s')
    ensures s'.ledger == MinedBlock(s.ledger, s.bls, 0, 9, SHIPPED, 3, Keys(), 0).value.ledger
  {
    hide MinedBlock;
    var r := MinedBlock(s.ledger, s.bls, 0, 9, SHIPPED, 3, Keys(), 0).value;
    s' := s.(ledger := r.ledger, journal := s.journal + r.pays);
  }

  lemma RunOf(states: seq<State>, txs: seq<Tx>)
    requires |states| == 7 && |txs| == 6 && CFG.mp.Valid() && Initial(CFG, states[0])
    requires Step(CFG, states[0], txs[0], states[1]) && Step(CFG, states[1], txs[1], states[2])
    requires Step(CFG, states[2], txs[2], states[3]) && Step(CFG, states[3], txs[3], states[4])
    requires Step(CFG, states[4], txs[4], states[5]) && Step(CFG, states[5], txs[5], states[6])
    ensures IsRun(CFG, states, txs)
  {
    hide Step, Initial;
    forall i | 0 <= i < 6 ensures Step(CFG, states[i], txs[i], states[i + 1]) {
      assert i == 0 || i == 1 || i == 2 || i == 3 || i == 4 || i == 5;
    }
  }

  // Four accepted entrusts and un-entrusts, the last of which takes a pair below zero, a
  // binding, and one accepted block with 13 voter keys.
  ghost predicate Ruinous(states: seq<State>, txs: seq<Tx>) {
    && IsRun(CFG, states, txs) && |txs| == 6
    && txs == Entrusts() + [BlsBind(1, 3, 7, 3), Miner(3, Keys(), 0)]
    && StakeOf(states[4].ledger.db, 2, 3) < 0
    && Accepted(states[5].ledger, states[5].bls, 0, 9, SHIPPED, 3, Keys())
    && !Solvent(states[6].ledger, CFG.exec)
  }

  lemma RuinousFrom(states: seq<State>, txs: seq<Tx>)
    requires IsRun(CFG, states, txs) && |txs| == 6 && txs == Entrusts() + [BlsBind(1, 3, 7, 3), Miner(3, Keys(), 0)]
    requires StakeOf(states[4].ledger.db, 2, 3) < 0
    requires Accepted(states[5].ledger, states[5].bls, 0, 9, SHIPPED, 3, Keys()) && !Solvent(states[6].ledger, 0)
    ensures Ruinous(states, txs)
  {
  }

  // Such a run takes an empty ledger to one whose executor cannot cover deposits and debts.
  lemma InsolventRun() returns (states: seq<State>, txs: seq<Tx>)
    ensures Ruinous(states, txs)
  {
    hide *;
    var l1, l2, l3, l4 := FourEntrusts();
    PairIsNegative(l4);
    NoSlack(l4);
    var s0 := Start();
    var s1, s2, s3, s4 := s0.(ledger := l1), s0.(ledger := l2), s0.(ledger := l3), s0.(ledger := l4);
    var s5 := s4.(bls := map[7 := 3]);
    StartIsInitial();
    txs := TxList();
    EntrustSteps(s0, txs[0], l1);
    EntrustSteps(s1, txs[1], l2);
    EntrustSteps(s2, txs[2], l3);
    EntrustSteps(s3, txs[3], l4);
    BindStep(s4, l4, s5);
    BlockAccepted(l4, s5.bls);
    var s6 := MinerSteps(s5);
    states := [s0, s1, s2, s3, s4, s5, s6];
    RunOf(states, txs);
    RuinousFrom(states, txs);
  }

  lemma TxList() returns (txs: seq<Tx>)
    ensures txs == Entrusts() + [BlsBind(1, 3, 7, 3), Miner(3, Keys(), 0)] && |txs| == 6 && |Entrusts()| == 4
    ensures forall i | 0 <= i < 4 :: txs[i] == Entrusts()[i] && txs[i].Entrust?
    ensures txs[4] == BlsBind(1, 3, 7, 3) && txs[5] == Miner(3, Keys(), 0)
  {
    txs := Entrusts() + [BlsBind(1, 3, 7, 3), Miner(3, Keys(), 0)];
  }

  lemma BindStep(s: State, l: Ledger, s': State)
    requires At(l, map[3 := Overdrawn(), 4 := Four()], Balances(0, 1 + HALF))
    requires s == Start().(ledger := l) && s' == s.(bls := map[7 := 3])
    ensures Step(CFG, s, BlsBind(1, 3, 7, 3), s') && l.coins == Balances(0, 1 + HALF)
  {
    assert s.bls[7 := 3] == map[7 := 3];
  }

  lemma PairIsNegative(l: Ledger)
    requires At(l, map[3 := Overdrawn(), 4 := Four()], Balances(0, 1 + HALF))
    ensures StakeOf(l.db, 2, 3) < 0
  {
    PositionUnique(Pairs(Overdrawn().consignors), 2, 1);
  }
}
