// Whole runs of the staking and reward ledger: any sequence of entrusts, miner
// transactions, bls bindings and movements of coins outside the executor.
module LedgerRuns {
  import opened Sums
  import opened Order
  import opened Coins
  import opened Params
  import opened Stake
  import opened Reward
  import opened Mining

  // The executor's address, the fund's address and the mining parameters in force.
  datatype Config = Config(exec: Addr, fund: Addr, mp: MineParam)

  // The journal lists every reward and fee transfer made so far.
  datatype State = State(ledger: Ledger, bls: map<nat, Addr>, journal: seq<Pay>)

  datatype Tx =
    | Entrust(height: int, from: Addr, msg: EntrustMsg)
    | Miner(maker: Addr, keys: seq<nat>, index: int)
    | BlsBind(height: int, from: Addr, key: nat, miner: Addr)
    | MoveCoins(coins: Accounts)

  // Deposits, withdrawals and transfers by other executors: they never touch a frozen
  // balance and never take from the executor more than they take from the deposits.
  ghost predicate CoinsMoved(c: Accounts, c': Accounts, exec: Addr) {
    && c'.Valid()
    && (forall r: Addr :: c'.SubOf(r).frozen == c.SubOf(r).frozen)
    && c'.Main(exec) - c'.Deposits() >= c.Main(exec) - c.Deposits()
  }

  // One transaction. A failed transaction changes nothing.
  ghost predicate Step(cfg: Config, s: State, tx: Tx, s': State) {
    match tx
    case Entrust(height, from, msg) =>
      var r := Entrusted(s.ledger, cfg.exec, cfg.mp, height, from, msg);
      s' == if r.None? then s else s.(ledger := r.value)
    case Miner(maker, keys, index) =>
      cfg.mp.Valid() &&
      var r := MinedBlock(s.ledger, s.bls, cfg.exec, cfg.fund, cfg.mp, maker, keys, index);
      s' == if r.None? then s else s.(ledger := r.value.ledger, journal := s.journal + r.value.pays)
    case BlsBind(height, from, key, miner) => s' == s.(bls := s.bls[key := BoundTo(height, from, miner)])
    case MoveCoins(coins) =>
      CoinsMoved(s.ledger.coins, coins, cfg.exec) && s' == s.(ledger := s.ledger.(coins := coins))
  }

  ghost predicate Initial(cfg: Config, s: State) {
    && s.ledger.db == EMPTY && s.journal == [] && s.bls == map[]
    && s.ledger.coins.Valid() && (forall a | a in s.ledger.coins.sub :: s.ledger.coins.sub[a].frozen == 0)
    && s.ledger.coins.Main(cfg.exec) >= s.ledger.coins.Deposits()
  }

  ghost predicate IsRun(cfg: Config, states: seq<State>, txs: seq<Tx>) {
    && |states| == |txs| + 1
    && cfg.mp.Valid()
    && Initial(cfg, states[0])
    && forall i | 0 <= i < |txs| :: Step(cfg, states[i], txs[i], states[i + 1])
  }

  // ---- Bookkeeping of rewards, per consignee ----

  // All rewards credited to the consignors of e are still owed to them, paid to them, or
  // were taken as e's fee; e's fee is still owed to e or paid to e.
  ghost predicate BooksBalance(e: Addr, c: Consignee, journal: seq<Pay>) {
    && SumSeq(Rewards(c.consignors)) == SumSeq(Remains(c.consignors)) + PaidBy(journal, e, false) + c.feeReward
    && c.feeReward == c.remainFeeReward + PaidBy(journal, e, true)
  }

  ghost predicate Books(db: DB, journal: seq<Pay>, mp: MineParam) {
    && (forall e | e in db.consignees :: BooksBalance(e, db.consignees[e], journal) && BelowThreshold(db.consignees[e], mp))
    && (forall p | p in journal :: p.consignee in db.consignees)
  }

  lemma {:induction false} PaidByNone(pays: seq<Pay>, e: Addr, isFee: bool)
    requires forall p | p in pays :: p.consignee != e
    ensures PaidBy(pays, e, isFee) == 0
  {
    if pays != [] { PaidByNone(pays[1..], e, isFee); }
  }

  // Crediting one record keeps the books of every record.
  lemma CreditKeepsBooks(db: DB, journal: seq<Pay>, a: Addr, pool: int, mp: MineParam)
    requires mp.Valid() && a in db.consignees && db.consignees[a].address == a
    requires Books(db, journal, mp)
    ensures var c := CreditPass(db.consignees[a], pool, mp);
      Books(db.(consignees := db.consignees[a := c.rec]), journal + c.pays, mp)
  {
    var d := db.consignees[a];
    var c := CreditPass(d, pool, mp);
    assert BooksBalance(a, d, journal);
    CreditPassAccounted(d, pool, mp);
    hide CreditPass, SumSeq, Rewards, Remains, BelowThreshold, PaidBy;
    PaysConcat(journal, c.pays, a, false);
    PaysConcat(journal, c.pays, a, true);
    assert BooksBalance(a, c.rec, journal + c.pays);
    assert BelowThreshold(d, mp);
    hide BooksBalance;
    forall e | e in db.consignees ensures BooksBalance(e, db.consignees[a := c.rec][e], journal + c.pays) {
      if e != a {
        assert BooksBalance(e, db.consignees[e], journal);
        OthersBooks(e, db.consignees[e], journal, c.pays);
      }
    }
  }

  lemma OthersBooks(e: Addr, c: Consignee, journal: seq<Pay>, pays: seq<Pay>)
    requires BooksBalance(e, c, journal) && forall p | p in pays :: p.consignee != e
    ensures BooksBalance(e, c, journal + pays)
  {
    hide SumSeq, Rewards, Remains, PaidBy;
    PaysConcat(journal, pays, e, false);
    PaysConcat(journal, pays, e, true);
    PaidByNone(pays, e, false);
    PaidByNone(pays, e, true);
  }

  lemma CreditPassAccounted(c: Consignee, pool: int, mp: MineParam)
    requires mp.Valid()
    ensures var r := CreditPass(c, pool, mp);
      && (BelowThreshold(c, mp) ==> BelowThreshold(r.rec, mp))
      && SumSeq(Rewards(r.rec.consignors)) - SumSeq(Remains(r.rec.consignors)) - r.rec.feeReward
         == SumSeq(Rewards(c.consignors)) - SumSeq(Remains(c.consignors)) - c.feeReward + PaidBy(r.pays, c.address, false)
      && r.rec.feeReward - r.rec.remainFeeReward == c.feeReward - c.remainFeeReward + PaidBy(r.pays, c.address, true)
      && (forall p | p in r.pays :: p.consignee == c.address)
  {
    if c.amount != 0 {
      CreditFirstAccounted(c, |c.consignors|, pool, Tickets(c.amount, mp), mp);
      if BelowThreshold(c, mp) {
        CreditFirstBelow(c, |c.consignors|, pool, Tickets(c.amount, mp), mp);
      }
    }
  }

  ghost predicate AddressesAreKeys(es: map<Addr, Consignee>) {
    forall e | e in es :: es[e].address == e
  }

  lemma {:induction false} VotePassKeepsBooks(db: DB, journal: seq<Pay>, order: seq<Addr>, voters: seq<Addr>, mp: MineParam)
    requires mp.Valid() && AddressesAreKeys(db.consignees) && AllKnown(db.consignees, Elements(order))
    requires Books(db, journal, mp)
    ensures var r := VotePass(db.consignees, order, voters, mp);
      Books(db.(consignees := r.es), journal + r.pays, mp)
    decreases |order|
  {
    hide Books, CreditPass, Prod, VotesOf;
    if order == [] {
      assert journal + [] == journal && db.(consignees := db.consignees) == db;
    } else {
      var init, a := order[..|order| - 1], order[|order| - 1];
      assert a in Elements(order);
      assert forall x | x in Elements(init) :: x in Elements(order);
      VotePassKeepsBooks(db, journal, init, voters, mp);
      var p, n := VotePass(db.consignees, init, voters, mp), VotesOf(voters, a);
      if n != 0 {
        var db1, pool := db.(consignees := p.es), Prod(mp.voteReward, n);
        CreditKeepsBooks(db1, journal + p.pays, a, pool, mp);
        var c := CreditPass(p.es[a], pool, mp);
        assert journal + p.pays + c.pays == journal + (p.pays + c.pays);
      }
    }
  }

  lemma BlockPassKeepsBooks(db: DB, journal: seq<Pay>, voters: seq<Addr>, maker: Addr, mp: MineParam)
    requires mp.Valid() && AddressesAreKeys(db.consignees) && AllKnown(db.consignees, Names(voters, maker))
    requires Books(db, journal, mp)
    ensures var r := BlockPass(db.consignees, voters, maker, mp);
      Books(db.(consignees := r.es), journal + r.pays, mp)
  {
    hide Books, CreditPass, Prod, VotePass;
    var order := Ascending(Names(voters, maker));
    VotePassKeepsBooks(db, journal, order, voters, mp);
    var v, pool := VotePass(db.consignees, order, voters, mp), Prod(mp.mineReward, |voters|);
    CreditKeepsBooks(db.(consignees := v.es), journal + v.pays, maker, pool, mp);
    var c := CreditPass(v.es[maker], pool, mp);
    assert journal + v.pays + c.pays == journal + (v.pays + c.pays);
  }

  // ---- Invariants of every run ----

  ghost predicate LedgerInv(cfg: Config, s: State) {
    && StakeInv(s.ledger.db, s.ledger.coins)
    && Books(s.ledger.db, s.journal, cfg.mp)
  }

  lemma EntrustKeepsBooks(db: DB, mp: MineParam, m: EntrustMsg, journal: seq<Pay>)
    requires mp.Valid() && Books(db, journal, mp)
    ensures Books(EntrustedDB(db, mp, m), journal, mp)
  {
    var e := m.consignee;
    var c := LoadConsignee(db, e, mp.feePercent);
    assert BooksBalance(e, c, journal) && BelowThreshold(c, mp) by {
      if e !in db.consignees {
        PaidByNone(journal, e, false);
        PaidByNone(journal, e, true);
      }
    }
    AddedKeepsTotals(c.consignors, m.consignor, m.amount);
    hide Books, SumSeq, Rewards, Remains;
    assert BooksBalance(e, EntrustedDB(db, mp, m).consignees[e], journal);
    BooksExtended(db, mp, m, journal);
  }

  lemma BooksExtended(db: DB, mp: MineParam, m: EntrustMsg, journal: seq<Pay>)
    requires mp.Valid() && Books(db, journal, mp)
    requires BooksBalance(m.consignee, EntrustedDB(db, mp, m).consignees[m.consignee], journal)
    ensures Books(EntrustedDB(db, mp, m), journal, mp)
  {
    hide BooksBalance, PaidBy;
  }

  lemma AddedKeepsTotals(cs: seq<Consignor>, r: Addr, amount: int)
    ensures SumSeq(Rewards(Added(cs, r, amount))) == SumSeq(Rewards(cs))
    ensures SumSeq(Remains(Added(cs, r, amount))) == SumSeq(Remains(cs))
  {
    var ds := Added(cs, r, amount);
    if Position(Pairs(cs), r) < |cs| {
      assert Rewards(ds) == Rewards(cs) && Remains(ds) == Remains(cs);
    } else {
      assert Rewards(ds) == Rewards(cs) + [0] && Remains(ds) == Remains(cs) + [0];
      SumSeqConcat(Rewards(cs), [0]);
      SumSeqConcat(Remains(cs), [0]);
    }
  }

  // A miner transaction keeps the stake invariant and the books, and changes no stake.
  lemma MinedKeepsLedgerInv(cfg: Config, s: State, maker: Addr, keys: seq<nat>, index: int)
    requires StakeInv(s.ledger.db, s.ledger.coins) && Books(s.ledger.db, s.journal, cfg.mp)
    requires cfg.mp.Valid()
    requires Bound(s.bls, keys)
    requires MinedBlock(s.ledger, s.bls, cfg.exec, cfg.fund, cfg.mp, maker, keys, index).Some?
    ensures var r := MinedBlock(s.ledger, s.bls, cfg.exec, cfg.fund, cfg.mp, maker, keys, index).value;
      && StakeInv(r.ledger.db, r.ledger.coins) && Books(r.ledger.db, s.journal + r.pays, cfg.mp)
      && (forall x: Addr, e: Addr :: StakeOf(r.ledger.db, x, e) == StakeOf(s.ledger.db, x, e))
  {
    var l, voters := s.ledger, VotersOf(s.bls, keys);
    var r := MinedBlock(l, s.bls, cfg.exec, cfg.fund, cfg.mp, maker, keys, index).value;
    hide *;
    KeysOfSound(l);
    CoinsOfSound(l);
    MinedParts(l, s.bls, cfg.exec, cfg.fund, cfg.mp, maker, keys, index);
    BlockPassKeepsBooks(l.db, s.journal, voters, maker, cfg.mp);
    RewardKeepsStakeInv(l.db, l.coins, BlockPass(l.db.consignees, voters, maker, cfg.mp).es, r.ledger.coins);
  }

  lemma KeysOfSound(l: Ledger)
    requires StakeInv(l.db, l.coins)
    ensures AddressesAreKeys(l.db.consignees)
  {
    forall e | e in l.db.consignees ensures l.db.consignees[e].address == e {
      assert ConsigneeInv(e, l.db.consignees[e]);
    }
  }

  lemma MovedKeepsStakeInv(db: DB, c: Accounts, c': Accounts, exec: Addr)
    requires StakeInv(db, c) && CoinsMoved(c, c', exec)
    ensures StakeInv(db, c')
  {
    hide Total, RecordsInv, ConsigneesOf;
  }

  lemma StepKeepsLedgerInv(cfg: Config, s: State, tx: Tx, s': State)
    requires cfg.mp.Valid() && LedgerInv(cfg, s) && Step(cfg, s, tx, s')
    ensures LedgerInv(cfg, s')
  {
    hide StakeInv, Books, EntrustedDB, MinedBlock, CoinsMoved;
    match tx
    case Entrust(height, from, msg) =>
      if Entrusted(s.ledger, cfg.exec, cfg.mp, height, from, msg).Some? {
        EntrustKeepsStakeInv(s.ledger, cfg.exec, cfg.mp, height, from, msg);
        EntrustKeepsBooks(s.ledger.db, cfg.mp, msg, s.journal);
      }
    case Miner(maker, keys, index) =>
      if MinedBlock(s.ledger, s.bls, cfg.exec, cfg.fund, cfg.mp, maker, keys, index).Some? {
        MinedConditions(s.ledger, s.bls, cfg.exec, cfg.fund, cfg.mp, maker, keys, index);
        MinedKeepsLedgerInv(cfg, s, maker, keys, index);
      }
    case BlsBind(_, _, _, _) =>
    case MoveCoins(coins) => MovedKeepsStakeInv(s.ledger.db, s.ledger.coins, coins, cfg.exec);
  }

  // Stakes, both indexes, totals, frozen balances, reward books and thresholds agree
  // after every prefix of every run.
  lemma {:induction false} LedgerInvOnRuns(cfg: Config, states: seq<State>, txs: seq<Tx>, i: nat)
    requires IsRun(cfg, states, txs) && i <= |txs|
    ensures LedgerInv(cfg, states[i])
  {
    if i == 0 {
      EmptyLedgerInv(states[0].ledger.coins);
    } else {
      LedgerInvOnRuns(cfg, states, txs, i - 1);
      assert Step(cfg, states[i - 1], txs[i - 1], states[i]);
      StepKeepsLedgerInv(cfg, states[i - 1], txs[i - 1], states[i]);
    }
  }

  ghost predicate Binds(tx: Tx, key: nat, account: Addr) {
    tx.BlsBind? && tx.key == key && account == if tx.height == 0 then tx.miner else tx.from
  }

  // Whoever a key is bound to asked for it, unless the binding is from height 0: a voter's
  // reward goes to the account that bound the voter's key.
  lemma {:induction false} BoundByOwner(cfg: Config, states: seq<State>, txs: seq<Tx>, n: nat, key: nat)
    requires IsRun(cfg, states, txs) && n <= |txs| && key in states[n].bls
    ensures exists i | 0 <= i < n :: Binds(txs[i], key, states[n].bls[key])
  {
    hide Entrusted, MinedBlock, CoinsMoved;
    assert n > 0 ==> Step(cfg, states[n - 1], txs[n - 1], states[n]);
    if !(txs[n - 1].BlsBind? && txs[n - 1].key == key) {
      BoundByOwner(cfg, states, txs, n - 1, key);
    }
  }

  // An entrust of e's by r, from one of them or from height 0.
  ghost predicate EntrustBy(tx: Tx, r: Addr, e: Addr) {
    tx.Entrust? && tx.msg.consignor == r && tx.msg.consignee == e && (tx.from == r || tx.from == e || tx.height == 0)
  }

  lemma EntrustMovesStake(l: Ledger, exec: Addr, mp: MineParam, height: int, from: Addr, m: EntrustMsg, r: Addr, e: Addr)
    requires Entrusted(l, exec, mp, height, from, m).Some?
    ensures var l' := Entrusted(l, exec, mp, height, from, m).value;
      && (StakeOf(l'.db, r, e) != StakeOf(l.db, r, e) ==> EntrustBy(Entrust(height, from, m), r, e))
      && (l'.coins.SubOf(r).frozen != l.coins.SubOf(r).frozen ==> EntrustBy(Entrust(height, from, m), r, m.consignee))
  {
    EntrustRefines(l.db, mp, m, r, e);
    EntrustAcceptedIff(l, exec, mp, height, from, m);
    EntrustedIs(l, exec, mp, height, from, m);
    hide Entrusted, Froze, EntrustedDB, StakeOf, Permitted;
  }

  lemma MinedMovesNone(cfg: Config, s: State, maker: Addr, keys: seq<nat>, index: int, r: Addr, e: Addr)
    requires cfg.mp.Valid() && LedgerInv(cfg, s)
    requires MinedBlock(s.ledger, s.bls, cfg.exec, cfg.fund, cfg.mp, maker, keys, index).Some?
    ensures var l' := MinedBlock(s.ledger, s.bls, cfg.exec, cfg.fund, cfg.mp, maker, keys, index).value.ledger;
      StakeOf(l'.db, r, e) == StakeOf(s.ledger.db, r, e) && l'.coins.sub == s.ledger.coins.sub
  {
    hide StakeInv, Books, MinedBlock, StakeOf;
    MinedConditions(s.ledger, s.bls, cfg.exec, cfg.fund, cfg.mp, maker, keys, index);
    MinedKeepsLedgerInv(cfg, s, maker, keys, index);
    CoinsOfSound(s.ledger);
    MinedParts(s.ledger, s.bls, cfg.exec, cfg.fund, cfg.mp, maker, keys, index);
  }

  lemma StepMovesStake(cfg: Config, s: State, tx: Tx, s': State, r: Addr, e: Addr)
    requires cfg.mp.Valid() && LedgerInv(cfg, s) && Step(cfg, s, tx, s')
    ensures StakeOf(s'.ledger.db, r, e) != StakeOf(s.ledger.db, r, e) ==> EntrustBy(tx, r, e)
    ensures s'.ledger.coins.SubOf(r).frozen != s.ledger.coins.SubOf(r).frozen ==> tx.Entrust? && EntrustBy(tx, r, tx.msg.consignee)
  {
    hide LedgerInv, Entrusted, MinedBlock, StakeOf, EntrustBy;
    match tx
    case Entrust(height, from, msg) =>
      if Entrusted(s.ledger, cfg.exec, cfg.mp, height, from, msg).Some? {
        EntrustMovesStake(s.ledger, cfg.exec, cfg.mp, height, from, msg, r, e);
      }
    case Miner(maker, keys, index) =>
      if MinedBlock(s.ledger, s.bls, cfg.exec, cfg.fund, cfg.mp, maker, keys, index).Some? {
        MinedMovesNone(cfg, s, maker, keys, index, r, e);
      }
    case BlsBind(_, _, _, _) =>
    case MoveCoins(_) =>
  }

  // Over every run: whenever a stake moves, that transaction is an entrust of exactly that
  // pair, sent by its consignor or its consignee unless it is from height 0, and whenever a
  // frozen balance moves, one by that consignor.
  lemma MovedBySender(cfg: Config, states: seq<State>, txs: seq<Tx>, k: nat, r: Addr, e: Addr)
    requires IsRun(cfg, states, txs) && k < |txs|
    ensures StakeOf(states[k + 1].ledger.db, r, e) != StakeOf(states[k].ledger.db, r, e) ==> EntrustBy(txs[k], r, e)
    ensures (states[k + 1].ledger.coins.SubOf(r).frozen != states[k].ledger.coins.SubOf(r).frozen
         ==> txs[k].Entrust? && EntrustBy(txs[k], r, txs[k].msg.consignee))
  {
    hide Step, LedgerInv, StakeOf;
    LedgerInvOnRuns(cfg, states, txs, k);
    assert Step(cfg, states[k], txs[k], states[k + 1]);
    StepMovesStake(cfg, states[k], txs[k], states[k + 1], r, e);
  }

  // ---- Solvency of every run ----

  // A run in which each miner transaction rewards only records that can be rewarded,
  // and pays addresses other than the executor's own.
  ghost predicate WellFormedRun(cfg: Config, states: seq<State>, txs: seq<Tx>) {
    IsRun(cfg, states, txs) &&
    forall i | 0 <= i < |txs| && txs[i].Miner? ::
      WellFormedBlock(states[i].ledger, states[i].bls, cfg.exec, cfg.fund, cfg.mp, txs[i].maker, txs[i].keys)
  }

  lemma EntrustKeepsSound(l: Ledger, exec: Addr, mp: MineParam, height: int, from: Addr, m: EntrustMsg)
    requires mp.Valid() && Sound(l, exec) && Entrusted(l, exec, mp, height, from, m).Some?
    ensures Sound(Entrusted(l, exec, mp, height, from, m).value, exec)
  {
    var l' := Entrusted(l, exec, mp, height, from, m).value;
    EntrustKeepsStakeInv(l, exec, mp, height, from, m);
    EntrustKeepsOwed(l.db, mp, m);
    hide StakeInv, TotalOwed;
    assert l'.coins.Main(exec) == l.coins.Main(exec);
    EntrustKeepsRecordsSound(l, exec, mp, height, from, m);
  }

  lemma EntrustKeepsOwed(db: DB, mp: MineParam, m: EntrustMsg)
    ensures TotalOwed(EntrustedDB(db, mp, m).consignees) == TotalOwed(db.consignees)
  {
    var c := LoadConsignee(db, m.consignee, mp.feePercent);
    AddedKeepsTotals(c.consignors, m.consignor, m.amount);
    assert m.consignee !in db.consignees ==> Owed(c) == 0;
    var c' := EntrustedDB(db, mp, m).consignees[m.consignee];
    assert Owed(c') == Owed(c);
    hide Owed, SumMap, Added, SumSeq;
    assert OwedMap(EntrustedDB(db, mp, m).consignees) == OwedMap(db.consignees)[m.consignee := Owed(c)];
    SumMapUpdate(OwedMap(db.consignees), m.consignee, Owed(c));
  }

  lemma EntrustKeepsRecordsSound(l: Ledger, exec: Addr, mp: MineParam, height: int, from: Addr, m: EntrustMsg)
    requires mp.Valid() && Sound(l, exec) && Entrusted(l, exec, mp, height, from, m).Some?
    ensures RecordsSound(Entrusted(l, exec, mp, height, from, m).value.db.consignees, exec)
  {
    var es := EntrustedDB(l.db, mp, m).consignees;
    assert m.consignor != exec && RecordsSound(l.db.consignees, exec);
    hide *;
    forall e | e in es
      ensures ConsigneeInv(e, es[e]) && NothingOverpaid(es[e])
      ensures forall i | 0 <= i < |es[e].consignors| :: es[e].consignors[i].address != exec
    {
      EntrustedRecordSound(l.db, exec, mp, m, e);
    }
    RecordsSoundFrom(es, exec);
    assert Entrusted(l, exec, mp, height, from, m).value.db == EntrustedDB(l.db, mp, m) by { EntrustedIs(l, exec, mp, height, from, m); }
  }

  lemma EntrustedIs(l: Ledger, exec: Addr, mp: MineParam, height: int, from: Addr, m: EntrustMsg)
    requires Entrusted(l, exec, mp, height, from, m).Some?
    ensures Entrusted(l, exec, mp, height, from, m).value.db == EntrustedDB(l.db, mp, m)
  {
  }

  lemma RecordsSoundFrom(es: map<Addr, Consignee>, exec: Addr)
    requires forall e | e in es :: ConsigneeInv(e, es[e]) && NothingOverpaid(es[e])
    requires forall e | e in es :: forall i | 0 <= i < |es[e].consignors| :: es[e].consignors[i].address != exec
    ensures RecordsSound(es, exec)
  {
  }

  lemma EntrustedRecordSound(db: DB, exec: Addr, mp: MineParam, m: EntrustMsg, e: Addr)
    requires mp.Valid() && RecordsSound(db.consignees, exec) && m.consignor != exec
    requires e in EntrustedDB(db, mp, m).consignees
    ensures var c := EntrustedDB(db, mp, m).consignees[e];
      && ConsigneeInv(e, c) && NothingOverpaid(c)
      && forall i | 0 <= i < |c.consignors| :: c.consignors[i].address != exec
  {
    EntrustedConsignee(db, mp, m, e);
    hide ConsigneeInv, StakeOf, SetEntry;
  }

  lemma StepKeepsSound(cfg: Config, s: State, tx: Tx, s': State)
    requires cfg.mp.Valid() && Sound(s.ledger, cfg.exec) && Step(cfg, s, tx, s')
    requires tx.Miner? ==> WellFormedBlock(s.ledger, s.bls, cfg.exec, cfg.fund, cfg.mp, tx.maker, tx.keys)
    ensures Sound(s'.ledger, cfg.exec)
  {
    match tx
    case Entrust(height, from, msg) =>
      hide Sound, EntrustedDB;
      if Entrusted(s.ledger, cfg.exec, cfg.mp, height, from, msg).Some? {
        EntrustKeepsSound(s.ledger, cfg.exec, cfg.mp, height, from, msg);
      }
    case Miner(maker, keys, index) =>
      hide Sound, MinedBlock, WellFormedBlock;
      MinedIff(s.ledger, s.bls, cfg.exec, cfg.fund, cfg.mp, maker, keys, index);
    case BlsBind(_, _, _, _) =>
    case MoveCoins(coins) =>
      hide StakeInv, TotalOwed, RecordsSound;
      MovedKeepsStakeInv(s.ledger.db, s.ledger.coins, coins, cfg.exec);
  }

  // The executor stays solvent in every such run.
  lemma {:induction false} SolventOnRuns(cfg: Config, states: seq<State>, txs: seq<Tx>, i: nat)
    requires WellFormedRun(cfg, states, txs) && i <= |txs|
    ensures Sound(states[i].ledger, cfg.exec)
  {
    if i == 0 {
      EmptyLedgerInv(states[0].ledger.coins);
      assert OwedMap(states[0].ledger.db.consignees) == map[];
    } else {
      SolventOnRuns(cfg, states, txs, i - 1);
      assert Step(cfg, states[i - 1], txs[i - 1], states[i]);
      hide Sound, Step, WellFormedBlock;
      StepKeepsSound(cfg, states[i - 1], txs[i - 1], states[i]);
    }
  }

  // In every such run no miner transaction with bound voters, known records and a fund
  // share is ever refused: every reward and fee transfer it makes is covered.
  lemma EveryBlockIsPaid(cfg: Config, states: seq<State>, txs: seq<Tx>, i: nat)
    requires WellFormedRun(cfg, states, txs) && i < |txs| && txs[i].Miner? && txs[i].index == 0
    requires Bound(states[i].bls, txs[i].keys) && Known(states[i].ledger.db, states[i].bls, txs[i].keys, txs[i].maker)
    requires cfg.mp.Pools(|txs[i].keys|) < cfg.mp.blockReward
    ensures MinedBlock(states[i].ledger, states[i].bls, cfg.exec, cfg.fund, cfg.mp, txs[i].maker, txs[i].keys, 0).Some?
  {
    hide Sound, MinedBlock, WellFormedBlock, Bound, Known, Step;
    SolventOnRuns(cfg, states, txs, i);
    MinedIff(states[i].ledger, states[i].bls, cfg.exec, cfg.fund, cfg.mp, txs[i].maker, txs[i].keys, 0);
  }

  // ---- Which runs keep every pair non-negative ----

  // Every un-entrust accepted in the run is covered by its own pair.
  ghost predicate Covered(cfg: Config, s: State, tx: Tx) {
    tx.Entrust? && Entrusted(s.ledger, cfg.exec, cfg.mp, tx.height, tx.from, tx.msg).Some? ==>
      StakeOf(s.ledger.db, tx.msg.consignor, tx.msg.consignee) + tx.msg.amount >= 0
  }

  lemma StepNonNegativeIff(cfg: Config, s: State, tx: Tx, s': State)
    requires cfg.mp.Valid() && LedgerInv(cfg, s) && Step(cfg, s, tx, s') && NonNegative(s.ledger.db)
    ensures NonNegative(s'.ledger.db) <==> Covered(cfg, s, tx)
  {
    hide StakeInv, Books, EntrustedDB, MinedBlock, CoinsMoved, StakeOf, Froze;
    match tx
    case Entrust(height, from, msg) => PairCoveredIff(s.ledger.db, cfg.mp, msg);
    case Miner(maker, keys, index) =>
      if MinedBlock(s.ledger, s.bls, cfg.exec, cfg.fund, cfg.mp, maker, keys, index).Some? {
        MinedConditions(s.ledger, s.bls, cfg.exec, cfg.fund, cfg.mp, maker, keys, index);
        MinedKeepsLedgerInv(cfg, s, maker, keys, index);
      }
    case BlsBind(_, _, _, _) =>
    case MoveCoins(coins) =>
  }

  lemma EmptyNonNegative()
    ensures NonNegative(EMPTY)
  {
  }

  // No pair is below zero up to step n of a run if and only if each un-entrust accepted
  // before n was covered by its pair; the executor only checks the consignor's sum.
  lemma {:induction false} NonNegativeOnRunsIff(cfg: Config, states: seq<State>, txs: seq<Tx>, n: nat)
    requires IsRun(cfg, states, txs) && n <= |txs|
    ensures (forall i | 0 <= i <= n :: NonNegative(states[i].ledger.db))
       <==> (forall i | 0 <= i < n :: Covered(cfg, states[i], txs[i]))
  {
    hide Covered, NonNegative, Step, LedgerInv;
    if n == 0 {
      EmptyNonNegative();
    } else {
      NonNegativeOnRunsIff(cfg, states, txs, n - 1);
      assert Step(cfg, states[n - 1], txs[n - 1], states[n]);
      if NonNegative(states[n - 1].ledger.db) {
        LedgerInvOnRuns(cfg, states, txs, n - 1);
        StepNonNegativeIff(cfg, states[n - 1], txs[n - 1], states[n]);
      }
    }
  }

  // In such a state a consignee can be rewarded as soon as it holds no stake, or a whole
  // ticket and few enough tickets for the floating-point quotient.
  lemma NonNegativeIsRewardable(db: DB, e: Addr, pool: int, mp: MineParam)
    requires mp.Valid() && RecordsInv(db) && NonNegative(db) && e in db.consignees
    requires var a := db.consignees[e].amount;
      a == 0 || (mp.ticketPrice <= a && pool * Tickets(a, mp) <= 0x8_0000_0000_0000)
    ensures Rewardable(db.consignees[e], pool, mp)
  {
    var c := db.consignees[e];
    assert ConsigneeInv(e, c);
    forall i | 0 <= i < |c.consignors| ensures c.consignors[i].amount >= 0 {
      var r := c.consignors[i].address;
      forall j | 0 <= j < i ensures Pairs(c.consignors)[j].address != r {
        assert Pairs(c.consignors)[i].address == r;
      }
      PositionUnique(Pairs(c.consignors), r, i);
      assert StakeOf(db, r, e) >= 0;
    }
  }
}
