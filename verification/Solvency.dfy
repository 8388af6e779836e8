// Exactly which blocks and which runs keep the executor solvent, and a run that does not
// (plugin/dapp/pos33/executor/pos33.go:131-240, 257-473).
module Solvency {
  import opened Sums
  import opened Order
  import opened Coins
  import opened Params
  import opened Stake
  import opened Reward
  import opened Mining
  import opened LedgerRuns

  // What the executor's main balance holds beyond deposits and debts.
  ghost function Slack(l: Ledger, exec: Addr): int {
    l.coins.Main(exec) - l.coins.Deposits() - TotalOwed(l.db.consignees)
  }

  // ---- What a block credits ----

  function RecordCredits(c: Consignee, pool: int, mp: MineParam): int
    requires mp.Valid()
  {
    if c.amount == 0 then 0 else SharesOf(c, |c.consignors|, pool, Tickets(c.amount, mp), mp)
  }

  function VoteCredits(es: map<Addr, Consignee>, order: seq<Addr>, voters: seq<Addr>, mp: MineParam): int
    requires mp.Valid() && AllKnown(es, Elements(order))
    decreases |order|
  {
    if order == [] then 0 else
      var init, a := order[..|order| - 1], order[|order| - 1];
      assert a in Elements(order);
      assert forall x | x in Elements(init) :: x in Elements(order);
      VoteCredits(es, init, voters, mp)
      + if VotesOf(voters, a) == 0 then 0 else RecordCredits(es[a], Prod(mp.voteReward, VotesOf(voters, a)), mp)
  }

  // A function of the records before the block and its voter keys.
  ghost function BlockCredits(es: map<Addr, Consignee>, voters: seq<Addr>, maker: Addr, mp: MineParam): int
    requires mp.Valid() && AllKnown(es, Names(voters, maker))
  {
    VoteCredits(es, Ascending(Names(voters, maker)), voters, mp) + RecordCredits(es[maker], Prod(mp.mineReward, |voters|), mp)
  }

  lemma {:induction false} SameShares(c: Consignee, d: Consignee, k: nat, pool: int, total: int, mp: MineParam)
    requires mp.Valid() && SameStakes(c, d) && k <= |c.consignors|
    ensures SharesOf(d, k, pool, total, mp) == SharesOf(c, k, pool, total, mp)
  {
    if k > 0 {
      hide ShareOf;
      SameShares(c, d, k - 1, pool, total, mp);
      assert Pairs(d.consignors)[k - 1] == Pairs(c.consignors)[k - 1];
    }
  }

  lemma SameCredits(c: Consignee, d: Consignee, pool: int, mp: MineParam)
    requires mp.Valid() && SameStakes(c, d)
    ensures RecordCredits(d, pool, mp) == RecordCredits(c, pool, mp)
  {
    SameShares(c, d, |c.consignors|, pool, Tickets(c.amount, mp), mp);
  }

  lemma CreditPassConserves(c: Consignee, pool: int, mp: MineParam)
    requires mp.Valid()
    ensures var r := CreditPass(c, pool, mp); Owed(r.rec) + PaidOut(r.pays) == Owed(c) + RecordCredits(c, pool, mp)
  {
    if c.amount != 0 { CreditFirstAccounted(c, |c.consignors|, pool, Tickets(c.amount, mp), mp); }
  }

  lemma OwedUpdated(es: map<Addr, Consignee>, a: Addr, d: Consignee)
    requires a in es
    ensures TotalOwed(es[a := d]) == TotalOwed(es) - Owed(es[a]) + Owed(d)
  {
    hide Owed, SumMap;
    assert OwedMap(es[a := d]) == OwedMap(es)[a := Owed(d)];
    SumMapUpdate(OwedMap(es), a, Owed(d));
  }

  lemma {:induction false} VotePassConserves(es: map<Addr, Consignee>, order: seq<Addr>, voters: seq<Addr>, mp: MineParam)
    requires mp.Valid() && AllKnown(es, Elements(order))
    ensures var r := VotePass(es, order, voters, mp);
      TotalOwed(r.es) + PaidOut(r.pays) == TotalOwed(es) + VoteCredits(es, order, voters, mp)
    decreases |order|
  {
    hide TotalOwed, CreditPass, RecordCredits, Prod, VotesOf, Owed;
    if order != [] {
      var init, a := order[..|order| - 1], order[|order| - 1];
      assert a in Elements(order) && forall x | x in Elements(init) :: x in Elements(order);
      VotePassConserves(es, init, voters, mp);
      var p, pool := VotePass(es, init, voters, mp), Prod(mp.voteReward, VotesOf(voters, a));
      RecordConserves(es, p, a, pool, mp);
    }
  }

  lemma RecordConserves(es: map<Addr, Consignee>, p: Pass, a: Addr, pool: int, mp: MineParam)
    requires mp.Valid() && a in es && SameRecords(es, p.es)
    ensures var c := CreditPass(p.es[a], pool, mp);
      TotalOwed(p.es[a := c.rec]) + PaidOut(p.pays + c.pays) == TotalOwed(p.es) + PaidOut(p.pays) + RecordCredits(es[a], pool, mp)
  {
    hide TotalOwed, CreditPass, RecordCredits, Owed, PaidOut;
    var c := CreditPass(p.es[a], pool, mp);
    SameCredits(es[a], p.es[a], pool, mp);
    CreditPassConserves(p.es[a], pool, mp);
    OwedUpdated(p.es, a, c.rec);
    PaysConcat(p.pays, c.pays, 0, false);
  }

  // Every unit a block credits is either paid out or newly owed, whatever the shares are.
  lemma BlockConserves(es: map<Addr, Consignee>, voters: seq<Addr>, maker: Addr, mp: MineParam)
    requires mp.Valid() && AllKnown(es, Names(voters, maker))
    ensures var r := BlockPass(es, voters, maker, mp);
      TotalOwed(r.es) + PaidOut(r.pays) == TotalOwed(es) + BlockCredits(es, voters, maker, mp)
  {
    hide TotalOwed, VotePass, VoteCredits, CreditPass, RecordCredits, Prod;
    var order := Ascending(Names(voters, maker));
    VotePassConserves(es, order, voters, mp);
    RecordConserves(es, VotePass(es, order, voters, mp), maker, Prod(mp.mineReward, |voters|), mp);
  }

  ghost predicate Accepted(l: Ledger, bls: map<nat, Addr>, exec: Addr, fund: Addr, mp: MineParam, maker: Addr, keys: seq<nat>) {
    mp.Valid() && MinedBlock(l, bls, exec, fund, mp, maker, keys, 0).Some?
  }

  lemma MinedBalances(l: Ledger, bls: map<nat, Addr>, exec: Addr, fund: Addr, mp: MineParam, maker: Addr, keys: seq<nat>)
    requires Accepted(l, bls, exec, fund, mp, maker, keys)
    ensures Bound(bls, keys) && Known(l.db, bls, keys, maker)
    ensures var r := MinedBlock(l, bls, exec, fund, mp, maker, keys, 0).value;
            var p := BlockPass(l.db.consignees, VotersOf(bls, keys), maker, mp);
      && r.ledger.db.consignees == p.es && r.ledger.coins.sub == l.coins.sub
      && r.ledger.coins.Main(exec) == l.coins.Main(exec) + mp.Pools(|keys|) - PaidOut(p.pays)
  {
    hide BlockPass, ApplyPays, Bound, PaidOut;
    MinedConditions(l, bls, exec, fund, mp, maker, keys, 0);
    var c0, p := Issued(l.coins, exec, mp.blockReward).value, BlockPass(l.db.consignees, VotersOf(bls, keys), maker, mp);
    PaysIff(c0, exec, p.pays);
  }

  // Any accepted block, on any ledger: the executor's slack moves by exactly the pools less
  // the credits, so the block leaves the executor solvent if and only if its credits fit in
  // the slack and the pools.
  lemma MinedSolventIff(l: Ledger, bls: map<nat, Addr>, exec: Addr, fund: Addr, mp: MineParam, maker: Addr, keys: seq<nat>)
    requires Accepted(l, bls, exec, fund, mp, maker, keys)
    ensures Bound(bls, keys) && Known(l.db, bls, keys, maker)
    ensures var after := MinedBlock(l, bls, exec, fund, mp, maker, keys, 0).value.ledger;
            var credits := BlockCredits(l.db.consignees, VotersOf(bls, keys), maker, mp);
      && Slack(after, exec) == Slack(l, exec) + mp.Pools(|keys|) - credits
      && (Solvent(after, exec) <==> credits <= Slack(l, exec) + mp.Pools(|keys|))
  {
    hide MinedBlock, BlockPass, BlockCredits, PaidOut, TotalOwed, Bound;
    MinedBalances(l, bls, exec, fund, mp, maker, keys);
    BlockConserves(l.db.consignees, VotersOf(bls, keys), maker, mp);
    var after := MinedBlock(l, bls, exec, fund, mp, maker, keys, 0).value.ledger;
    assert after.coins.DepositMap() == l.coins.DepositMap();
  }

  // ---- Whole runs ----

  // What a caller can compute before a miner transaction: its credits fit.
  ghost predicate Affordable(cfg: Config, s: State, tx: Tx)
    requires cfg.mp.Valid()
  {
    tx.Miner? && tx.index == 0 && Bound(s.bls, tx.keys) && Known(s.ledger.db, s.bls, tx.keys, tx.maker)
    && MinedBlock(s.ledger, s.bls, cfg.exec, cfg.fund, cfg.mp, tx.maker, tx.keys, 0).Some? ==>
      BlockCredits(s.ledger.db.consignees, VotersOf(s.bls, tx.keys), tx.maker, cfg.mp)
        <= Slack(s.ledger, cfg.exec) + cfg.mp.Pools(|tx.keys|)
  }

  lemma StepSolventIff(cfg: Config, s: State, tx: Tx, s': State)
    requires cfg.mp.Valid() && LedgerInv(cfg, s) && Step(cfg, s, tx, s') && Solvent(s.ledger, cfg.exec)
    ensures Solvent(s'.ledger, cfg.exec) <==> Affordable(cfg, s, tx)
  {
    hide Books, EntrustedDB, MinedBlock, TotalOwed, BlockCredits, StakeInv;
    match tx
    case Entrust(height, from, msg) =>
      if Entrusted(s.ledger, cfg.exec, cfg.mp, height, from, msg).Some? {
        EntrustKeepsStakeInv(s.ledger, cfg.exec, cfg.mp, height, from, msg);
        EntrustKeepsOwed(s.ledger.db, cfg.mp, msg);
      }
    case Miner(maker, keys, index) =>
      if MinedBlock(s.ledger, s.bls, cfg.exec, cfg.fund, cfg.mp, maker, keys, index).Some? {
        MinedConditions(s.ledger, s.bls, cfg.exec, cfg.fund, cfg.mp, maker, keys, index);
        MinedSolventIff(s.ledger, s.bls, cfg.exec, cfg.fund, cfg.mp, maker, keys);
      }
    case BlsBind(_, _, _, _) =>
    case MoveCoins(coins) =>
  }

  // Over every run, with no restriction on the records rewarded: the executor is solvent up
  // to step n if and only if the credits of each accepted miner transaction before n fit in
  // its pools and the slack at that moment.
  lemma {:induction false} SolventOnRunsIff(cfg: Config, states: seq<State>, txs: seq<Tx>, n: nat)
    requires IsRun(cfg, states, txs) && n <= |txs|
    ensures (forall i | 0 <= i <= n :: Solvent(states[i].ledger, cfg.exec))
       <==> (forall i | 0 <= i < n :: Affordable(cfg, states[i], txs[i]))
  {
    hide Solvent, Affordable, Step, LedgerInv;
    if n == 0 {
      StartsSolvent(cfg, states[0]);
    } else {
      SolventOnRunsIff(cfg, states, txs, n - 1);
      assert Step(cfg, states[n - 1], txs[n - 1], states[n]);
      if Solvent(states[n - 1].ledger, cfg.exec) {
        LedgerInvOnRuns(cfg, states, txs, n - 1);
        StepSolventIff(cfg, states[n - 1], txs[n - 1], states[n]);
      }
    }
  }

  lemma StartsSolvent(cfg: Config, s: State)
    requires Initial(cfg, s)
    ensures Solvent(s.ledger, cfg.exec)
  {
    assert OwedMap(s.ledger.db.consignees) == map[];
  }
}
