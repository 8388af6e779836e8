// The miner transaction: issue, voters' rewards, maker's reward, fund
// (plugin/dapp/pos33/executor/pos33.go:180-352).
module Mining {
  import opened Options
  import opened Sums
  import opened Order
  import opened Coins
  import opened Params
  import opened Stake
  import opened Reward

  function VotesOf(voters: seq<Addr>, a: Addr): nat {
    multiset(voters)[a]
  }

  // The accounts one miner transaction rewards: every voter, and the maker.
  function Names(voters: seq<Addr>, maker: Addr): set<Addr> {
    Elements(voters) + {maker}
  }

  datatype Pass = Pass(es: map<Addr, Consignee>, pays: seq<Pay>)

  predicate AllKnown(es: map<Addr, Consignee>, names: set<Addr>) {
    forall a | a in names :: a in es
  }

  ghost predicate SameRecords(es: map<Addr, Consignee>, fs: map<Addr, Consignee>) {
    es.Keys == fs.Keys && forall a | a in es :: SameStakes(es[a], fs[a])
  }

  ghost function VotePass(es: map<Addr, Consignee>, order: seq<Addr>, voters: seq<Addr>, mp: MineParam): (r: Pass)
    requires mp.Valid() && AllKnown(es, Elements(order))
    ensures SameRecords(es, r.es)
    decreases |order|
  {
    if order == [] then Pass(es, []) else
      var init, a := order[..|order| - 1], order[|order| - 1];
      assert a in Elements(order);
      assert forall x | x in Elements(init) :: x in Elements(order);
      var p := VotePass(es, init, voters, mp);
      if VotesOf(voters, a) == 0 then p else
        var c := CreditPass(p.es[a], Prod(mp.voteReward, VotesOf(voters, a)), mp);
        Pass(p.es[a := c.rec], p.pays + c.pays)
  }

  // Voters first, in address order, then the maker, on the same records.
  ghost function BlockPass(es: map<Addr, Consignee>, voters: seq<Addr>, maker: Addr, mp: MineParam): (r: Pass)
    requires mp.Valid() && AllKnown(es, Names(voters, maker))
    ensures SameRecords(es, r.es)
  {
    var v := VotePass(es, Ascending(Names(voters, maker)), voters, mp);
    var m := CreditPass(v.es[maker], Prod(mp.mineReward, |voters|), mp);
    Pass(v.es[maker := m.rec], v.pays + m.pays)
  }

  function ApplyPays(c: Accounts, exec: Addr, pays: seq<Pay>): Option<Accounts>
    decreases |pays|
  {
    if pays == [] then Some(c) else
      var p, last := ApplyPays(c, exec, pays[..|pays| - 1]), pays[|pays| - 1];
      if p.None? then None else Transferred(p.value, exec, last.payee, last.amount)
  }

  datatype Mined = Mined(ledger: Ledger, pays: seq<Pay>)

  predicate Bound(bls: map<nat, Addr>, keys: seq<nat>) {
    forall k | k in keys :: k in bls
  }

  // Pos33BlsBind: outside height 0 a key is bound to the sender, whatever the message names.
  function BoundTo(height: int, from: Addr, miner: Addr): Addr {
    if height == 0 then miner else from
  }

  function VotersOf(bls: map<nat, Addr>, keys: seq<nat>): (r: seq<Addr>)
    requires Bound(bls, keys)
    ensures |r| == |keys|
  {
    seq(|keys|, i requires 0 <= i < |keys| => bls[keys[i]])
  }

  predicate Known(db: DB, bls: map<nat, Addr>, keys: seq<nat>, maker: Addr)
    requires Bound(bls, keys)
  {
    AllKnown(db.consignees, Names(VotersOf(bls, keys), maker))
  }

  function FundReward(mp: MineParam, n: int): int {
    mp.blockReward - mp.Pools(n)
  }

  // Pos33MinerNew: all records, balances and payments of one block, or an error.
  ghost function MinedBlock(l: Ledger, bls: map<nat, Addr>, exec: Addr, fund: Addr, mp: MineParam,
                            maker: Addr, keys: seq<nat>, index: int): Option<Mined>
    requires mp.Valid()
  {
    if index != 0 || !Bound(bls, keys) || !Known(l.db, bls, keys, maker) then None else
      var c0 := Issued(l.coins, exec, mp.blockReward);
      if c0.None? then None else
        var p := BlockPass(l.db.consignees, VotersOf(bls, keys), maker, mp);
        var c1 := ApplyPays(c0.value, exec, p.pays);
        if c1.None? then None else
          var c2 := Transferred(c1.value, exec, fund, FundReward(mp, |keys|));
          if c2.None? then None else Some(Mined(Ledger(l.db.(consignees := p.es), c2.value), p.pays))
  }

  // ---- Solvency ----

  ghost function OwedMap(es: map<Addr, Consignee>): map<Addr, int> {
    map e | e in es :: Owed(es[e])
  }

  ghost function TotalOwed(es: map<Addr, Consignee>): int {
    SumMap(OwedMap(es))
  }

  // The executor's main balance covers every deposit and every reward and fee not yet
  // paid out.
  ghost predicate Solvent(l: Ledger, exec: Addr) {
    l.coins.Main(exec) >= l.coins.Deposits() + TotalOwed(l.db.consignees)
  }

  ghost predicate RecordsSound(es: map<Addr, Consignee>, exec: Addr) {
    && (forall e | e in es :: ConsigneeInv(e, es[e]) && NothingOverpaid(es[e]))
    && (forall e | e in es :: forall i | 0 <= i < |es[e].consignors| :: es[e].consignors[i].address != exec)
  }

  // The records a block rewards can be rewarded.
  ghost predicate BlockRewardable(es: map<Addr, Consignee>, voters: seq<Addr>, maker: Addr, mp: MineParam)
    requires mp.Valid()
  {
    && (forall a | a in Names(voters, maker) && a in es :: Rewardable(es[a], Prod(mp.voteReward, VotesOf(voters, a)), mp))
    && (maker in es ==> Rewardable(es[maker], Prod(mp.mineReward, |voters|), mp))
  }

  lemma CreditPassSound(c: Consignee, pool: nat, mp: MineParam)
    requires mp.Valid() && ConsigneeInv(c.address, c) && NothingOverpaid(c) && Rewardable(c, pool, mp)
    ensures var r := CreditPass(c, pool, mp);
      && ConsigneeInv(c.address, r.rec) && NothingOverpaid(r.rec) && PaysAreSound(r.pays, c)
      && Owed(c) <= Owed(r.rec) + PaidOut(r.pays) <= Owed(c) + pool
  {
    if c.amount != 0 {
      SharesWithinPool(c, pool, mp);
      CreditFirstSound(c, |c.consignors|, pool, Tickets(c.amount, mp), mp);
      CreditFirstAccounted(c, |c.consignors|, pool, Tickets(c.amount, mp), mp);
    }
  }

  ghost predicate ClearPays(pays: seq<Pay>, exec: Addr) {
    forall p | p in pays :: p.amount > 0 && p.payee != exec
  }

  lemma AddressIsKey(a: Addr, c: Consignee)
    requires ConsigneeInv(a, c)
    ensures c.address == a
  {
  }

  // One record rewarded from one pool, within all records.
  lemma RecordRewarded(es: map<Addr, Consignee>, a: Addr, pool: nat, exec: Addr, mp: MineParam)
    requires mp.Valid() && RecordsSound(es, exec) && a in es && a != exec && Rewardable(es[a], pool, mp)
    ensures var c := CreditPass(es[a], pool, mp); var fs := es[a := c.rec];
      && RecordsSound(fs, exec) && ClearPays(c.pays, exec)
      && TotalOwed(es) <= TotalOwed(fs) + PaidOut(c.pays) <= TotalOwed(es) + pool
  {
    hide CreditPass, Owed, PaidOut, ConsigneeInv, NothingOverpaid, Rewardable, SumMap;
    AddressIsKey(a, es[a]);
    CreditPassSound(es[a], pool, mp);
    var c := CreditPass(es[a], pool, mp);
    var fs := es[a := c.rec];
    assert OwedMap(fs) == OwedMap(es)[a := Owed(c.rec)];
    SumMapUpdate(OwedMap(es), a, Owed(c.rec));
    forall i | 0 <= i < |es[a].consignors| ensures c.rec.consignors[i].address != exec {
      assert Pairs(c.rec.consignors)[i] == Pairs(es[a].consignors)[i];
    }
  }

  lemma RewardableKept(c: Consignee, d: Consignee, pool: int, mp: MineParam)
    requires mp.Valid() && SameStakes(c, d) && Rewardable(c, pool, mp)
    ensures Rewardable(d, pool, mp)
  {
    forall i | 0 <= i < |d.consignors| ensures d.consignors[i].amount == c.consignors[i].amount {
      assert Pairs(d.consignors)[i] == Pairs(c.consignors)[i];
    }
  }

  function VoteCount(order: seq<Addr>, voters: seq<Addr>): nat
    decreases |order|
  {
    if order == [] then 0
    else VoteCount(order[..|order| - 1], voters) + VotesOf(voters, order[|order| - 1])
  }

  lemma {:induction false} CountedAtMost(order: seq<Addr>, m: multiset<Addr>, voters: seq<Addr>)
    requires NoDuplicates(order) && forall a | a in order :: m[a] == VotesOf(voters, a)
    ensures VoteCount(order, voters) <= |m|
    decreases |order|
  {
    if order != [] {
      var init, a := order[..|order| - 1], order[|order| - 1];
      var rest := m[a := 0];
      forall b | b in init ensures rest[b] == VotesOf(voters, b) {
        assert b in order && b != a;
      }
      CountedAtMost(init, rest, voters);
      assert m == rest + multiset{}[a := m[a]];
      assert |multiset{}[a := m[a]]| == m[a];
    }
  }

  // No vote is counted twice when the order lists each name once.
  lemma VotesCovered(order: seq<Addr>, voters: seq<Addr>)
    requires NoDuplicates(order)
    ensures VoteCount(order, voters) <= |voters|
  {
    CountedAtMost(order, multiset(voters), voters);
    assert |multiset(voters)| == |voters|;
  }

  lemma {:induction false} VotePassSound(es: map<Addr, Consignee>, order: seq<Addr>, voters: seq<Addr>, exec: Addr, mp: MineParam)
    requires mp.Valid() && RecordsSound(es, exec) && AllKnown(es, Elements(order))
    requires forall a | a in order :: a != exec && Rewardable(es[a], Prod(mp.voteReward, VotesOf(voters, a)), mp)
    ensures var r := VotePass(es, order, voters, mp);
      && RecordsSound(r.es, exec) && ClearPays(r.pays, exec)
      && TotalOwed(r.es) + PaidOut(r.pays) <= TotalOwed(es) + Prod(mp.voteReward, VoteCount(order, voters))
    decreases |order|
  {
    hide RecordsSound, TotalOwed, Rewardable, CreditPass, Prod, VotesOf, PaidOut, SameRecords, ClearPays;
    if order == [] {
      ProdIs(mp.voteReward, 0);
      NothingPaid(exec);
    } else {
      var init, a := order[..|order| - 1], order[|order| - 1];
      KnownInit(es, order);
      VotePassSound(es, init, voters, exec, mp);
      var p, n := VotePass(es, init, voters, mp), VotesOf(voters, a);
      ProdIs(mp.voteReward, n);
      PoolSplit(mp.voteReward, VoteCount(init, voters), n);
      if n != 0 { NextRewarded(es, p, a, Prod(mp.voteReward, n), exec, mp); }
    }
  }

  lemma KnownInit(es: map<Addr, Consignee>, order: seq<Addr>)
    requires order != [] && AllKnown(es, Elements(order))
    ensures var init, a := order[..|order| - 1], order[|order| - 1];
      a in order && a in Elements(order) && a in es && AllKnown(es, Elements(init)) && forall x | x in init :: x in order
  {
    var init, a := order[..|order| - 1], order[|order| - 1];
    assert a in Elements(order);
    assert forall x | x in Elements(init) :: x in Elements(order);
  }

  lemma NothingPaid(exec: Addr)
    ensures ClearPays([], exec) && PaidOut([]) == 0
  {
  }

  // One more record rewarded after a pass.
  lemma NextRewarded(es: map<Addr, Consignee>, p: Pass, a: Addr, pool: nat, exec: Addr, mp: MineParam)
    requires mp.Valid() && SameRecords(es, p.es) && a in es && a != exec && Rewardable(es[a], pool, mp)
    requires RecordsSound(p.es, exec) && ClearPays(p.pays, exec)
    ensures var c := CreditPass(p.es[a], pool, mp);
      && RecordsSound(p.es[a := c.rec], exec) && ClearPays(p.pays + c.pays, exec)
      && TotalOwed(p.es[a := c.rec]) + PaidOut(p.pays + c.pays) <= TotalOwed(p.es) + PaidOut(p.pays) + pool
  {
    hide RecordsSound, TotalOwed, Rewardable, CreditPass, PaidOut;
    RewardableKept(es[a], p.es[a], pool, mp);
    RecordRewarded(p.es, a, pool, exec, mp);
    PaysConcat(p.pays, CreditPass(p.es[a], pool, mp).pays, 0, false);
  }

  lemma PoolSplit(v: int, m: int, n: int)
    ensures Prod(v, m + n) == Prod(v, m) + Prod(v, n)
  {
  }

  lemma ProdIs(a: int, b: int)
    ensures Prod(a, b) == a * b
    ensures a >= 0 && b >= 0 ==> Prod(a, b) >= 0
    ensures b == 0 ==> Prod(a, b) == 0
  {
  }

  // The payments of a block all go through exactly when each is positive and to another
  // account and the balance covers their sum; they cost exactly their sum.
  lemma {:induction false} PaysIff(c: Accounts, exec: Addr, pays: seq<Pay>)
    ensures ApplyPays(c, exec, pays).Some? <==> pays == [] || (ClearPays(pays, exec) && PaidOut(pays) <= c.Main(exec))
    ensures var r := ApplyPays(c, exec, pays); r.Some? ==> r.value.sub == c.sub && r.value.Main(exec) == c.Main(exec) - PaidOut(pays)
    decreases |pays|
  {
    hide PaidOut, ClearPays, Transferred;
    if pays == [] {
      NothingPaid(exec);
    } else {
      var init, last := pays[..|pays| - 1], pays[|pays| - 1];
      LastPay(pays, exec);
      PaysIff(c, exec, init);
      if init == [] { NothingPaid(exec); }
      if ApplyPays(c, exec, init).Some? { TransferCost(ApplyPays(c, exec, init).value, exec, last.payee, last.amount); }
    }
  }

  lemma LastPay(pays: seq<Pay>, exec: Addr)
    requires pays != []
    ensures var init, last := pays[..|pays| - 1], pays[|pays| - 1];
      && PaidOut(pays) == PaidOut(init) + last.amount
      && (ClearPays(pays, exec) <==> ClearPays(init, exec) && last.amount > 0 && last.payee != exec)
  {
    var init, last := pays[..|pays| - 1], pays[|pays| - 1];
    assert pays == init + [last];
    PaysConcat(init, [last], 0, false);
    PaysOfOne(last, 0, false);
    hide PaidOut;
  }

  lemma TransferCost(c: Accounts, from: Addr, to: Addr, amount: int)
    ensures var r := Transferred(c, from, to, amount);
      && (r.Some? <==> amount > 0 && from != to && amount <= c.Main(from))
      && (r.Some? ==> r.value.sub == c.sub && r.value.Main(from) == c.Main(from) - amount)
  {
  }

  lemma {:induction false} ClearIsPositive(pays: seq<Pay>, exec: Addr)
    requires ClearPays(pays, exec)
    ensures PaidOut(pays) >= 0
  {
    if pays != [] {
      assert forall p | p in pays[1..] :: p in pays;
      ClearIsPositive(pays[1..], exec);
    }
  }

  // Payments out of a balance that covers them all succeed, and cost exactly their sum.
  lemma PaysSucceed(c: Accounts, exec: Addr, pays: seq<Pay>)
    requires c.Valid() && ClearPays(pays, exec) && PaidOut(pays) <= c.Main(exec)
    ensures var r := ApplyPays(c, exec, pays);
      r.Some? && r.value.Valid() && r.value.sub == c.sub && r.value.Main(exec) == c.Main(exec) - PaidOut(pays)
    ensures PaidOut(pays) >= 0
  {
    hide ApplyPays, PaidOut;
    PaysIff(c, exec, pays);
    PaysKeepValid(c, exec, pays);
    ClearIsPositive(pays, exec);
  }

  lemma BlockPassSound(es: map<Addr, Consignee>, voters: seq<Addr>, maker: Addr, exec: Addr, mp: MineParam)
    requires mp.Valid() && RecordsSound(es, exec) && AllKnown(es, Names(voters, maker))
    requires BlockRewardable(es, voters, maker, mp) && exec !in Names(voters, maker)
    ensures var r := BlockPass(es, voters, maker, mp);
      && RecordsSound(r.es, exec) && ClearPays(r.pays, exec)
      && TotalOwed(r.es) + PaidOut(r.pays) <= TotalOwed(es) + mp.Pools(|voters|)
  {
    hide RecordsSound, TotalOwed, Rewardable, CreditPass, Prod;
    var order := Ascending(Names(voters, maker));
    forall a | a in order ensures a in Names(voters, maker) {
      assert a in Elements(order);
    }
    VotePassSound(es, order, voters, exec, mp);
    VotesCovered(order, voters);
    assert Prod(mp.voteReward, VoteCount(order, voters)) + Prod(mp.mineReward, |voters|) <= mp.Pools(|voters|) by {
      PoolsBound(mp, VoteCount(order, voters), |voters|);
    }
    var v, pool := VotePass(es, order, voters, mp), Prod(mp.mineReward, |voters|);
    ProdIs(mp.mineReward, |voters|);
    NextRewarded(es, v, maker, pool, exec, mp);
  }

  lemma PoolsBound(mp: MineParam, m: nat, n: nat)
    requires mp.Valid() && m <= n
    ensures Prod(mp.voteReward, m) + Prod(mp.mineReward, n) <= mp.Pools(n)
  {
    ProdLeq(m, n, mp.voteReward);
  }

  lemma OwedNonNegative(es: map<Addr, Consignee>, exec: Addr)
    requires RecordsSound(es, exec)
    ensures TotalOwed(es) >= 0
  {
    forall e | e in es ensures OwedMap(es)[e] >= 0 {
      SumNonNegative(Remains(es[e].consignors));
    }
    SumMapNonNegative(OwedMap(es));
  }

  lemma {:induction false} SumNonNegative(xs: seq<int>)
    requires forall i | 0 <= i < |xs| :: xs[i] >= 0
    ensures SumSeq(xs) >= 0
  {
    if xs != [] { SumNonNegative(xs[1..]); }
  }

  // A reward changes no stake: the ledger invariant only depends on what it leaves alone.
  lemma RewardKeepsStakeInv(db: DB, c: Accounts, es: map<Addr, Consignee>, c': Accounts)
    requires StakeInv(db, c) && SameRecords(db.consignees, es)
    requires c'.Valid() && c'.sub == c.sub
    ensures StakeInv(db.(consignees := es), c')
    ensures forall r: Addr, e: Addr :: StakeOf(db.(consignees := es), r, e) == StakeOf(db, r, e)
  {
    var db' := db.(consignees := es);
    forall e: Addr ensures ConsignorsOf(db', e) == ConsignorsOf(db, e) { }
    assert AmountMap(db') == AmountMap(db);
    forall r: Addr ensures ConsigneesOf(db', r) == ConsigneesOf(db, r) && c'.SubOf(r) == c.SubOf(r) { }
    forall r: Addr, e: Addr ensures Lookup(ConsignorsOf(db', e), r) == Lookup(ConsigneesOf(db', r), e) {
      assert Lookup(ConsignorsOf(db, e), r) == Lookup(ConsigneesOf(db, r), e);
    }
    forall e | e in es ensures ConsigneeInv(e, es[e]) {
      assert ConsigneeInv(e, db.consignees[e]) && SameStakes(db.consignees[e], es[e]);
    }
  }

  // What the miner transaction relies on, and keeps.
  ghost predicate Sound(l: Ledger, exec: Addr) {
    StakeInv(l.db, l.coins) && Solvent(l, exec) && RecordsSound(l.db.consignees, exec)
  }

  ghost predicate WellFormedBlock(l: Ledger, bls: map<nat, Addr>, exec: Addr, fund: Addr, mp: MineParam,
                                  maker: Addr, keys: seq<nat>)
  {
    && mp.Valid() && fund != exec && maker != exec
    && (Bound(bls, keys) ==> exec !in VotersOf(bls, keys) && BlockRewardable(l.db.consignees, VotersOf(bls, keys), maker, mp))
  }

  // On a sound ledger no reward and no fee transfer can fail: the miner transaction is
  // accepted exactly when it comes first in its block, every voter key is bound, every
  // rewarded account has a record, and the pools leave something for the fund. The
  // ledger it leaves is sound again.
  lemma MinedIff(l: Ledger, bls: map<nat, Addr>, exec: Addr, fund: Addr, mp: MineParam,
                 maker: Addr, keys: seq<nat>, index: int)
    requires Sound(l, exec) && WellFormedBlock(l, bls, exec, fund, mp, maker, keys)
    ensures MinedBlock(l, bls, exec, fund, mp, maker, keys, index).Some? <==>
      index == 0 && Bound(bls, keys) && Known(l.db, bls, keys, maker) && mp.Pools(|keys|) < mp.blockReward
    ensures var r := MinedBlock(l, bls, exec, fund, mp, maker, keys, index); r.Some? ==> Sound(r.value.ledger, exec)
  {
    hide MinedBlock, Sound, WellFormedBlock, Bound, Known;
    assert mp.Valid() by { MineParamOf(l, bls, exec, fund, mp, maker, keys); }
    if MinedBlock(l, bls, exec, fund, mp, maker, keys, index).Some? {
      MinedConditions(l, bls, exec, fund, mp, maker, keys, index);
    }
    assert mp.Pools(|keys|) >= 0 by { PoolsBound(mp, 0, |keys|); ProdIs(mp.voteReward, 0); ProdIs(mp.mineReward, |keys|); }
    if index == 0 && Bound(bls, keys) && Known(l.db, bls, keys, maker) && mp.Pools(|keys|) < mp.blockReward {
      AcceptedBlock(l, bls, exec, fund, mp, maker, keys);
    }
  }

  lemma MineParamOf(l: Ledger, bls: map<nat, Addr>, exec: Addr, fund: Addr, mp: MineParam, maker: Addr, keys: seq<nat>)
    requires WellFormedBlock(l, bls, exec, fund, mp, maker, keys)
    ensures mp.Valid()
  {
  }

  lemma MinedConditions(l: Ledger, bls: map<nat, Addr>, exec: Addr, fund: Addr, mp: MineParam,
                        maker: Addr, keys: seq<nat>, index: int)
    requires mp.Valid()
    requires MinedBlock(l, bls, exec, fund, mp, maker, keys, index).Some?
    ensures index == 0 && Bound(bls, keys) && Known(l.db, bls, keys, maker) && mp.Pools(|keys|) < mp.blockReward
  {
    hide BlockPass, ApplyPays, Bound, Known;
  }

  // On any ledger whatsoever, sound or not: the exact condition of acceptance, in terms of
  // the balance before the block and the payments its records lead to.
  lemma AcceptedIff(l: Ledger, bls: map<nat, Addr>, exec: Addr, fund: Addr, mp: MineParam,
                    maker: Addr, keys: seq<nat>, index: int)
    requires mp.Valid()
    ensures MinedBlock(l, bls, exec, fund, mp, maker, keys, index).Some? <==>
      && index == 0 && Bound(bls, keys) && Known(l.db, bls, keys, maker)
      && mp.blockReward > 0 && mp.Pools(|keys|) < mp.blockReward && fund != exec
      && var pays := BlockPass(l.db.consignees, VotersOf(bls, keys), maker, mp).pays;
         ClearPays(pays, exec) && PaidOut(pays) <= l.coins.Main(exec) + mp.Pools(|keys|)
  {
    hide BlockPass, ApplyPays, Bound, PaidOut, ClearPays;
    if index == 0 && Bound(bls, keys) && Known(l.db, bls, keys, maker) && mp.blockReward > 0 {
      var pays := BlockPass(l.db.consignees, VotersOf(bls, keys), maker, mp).pays;
      NothingPaid(exec);
      PaysIff(Issued(l.coins, exec, mp.blockReward).value, exec, pays);
    }
  }

  lemma {:induction false} PaysKeepValid(c: Accounts, exec: Addr, pays: seq<Pay>)
    requires c.Valid()
    ensures var r := ApplyPays(c, exec, pays); r.Some? ==> r.value.Valid() && r.value.sub == c.sub
    decreases |pays|
  {
    if pays != [] { PaysKeepValid(c, exec, pays[..|pays| - 1]); }
  }

  // What an accepted block consists of.
  lemma MinedParts(l: Ledger, bls: map<nat, Addr>, exec: Addr, fund: Addr, mp: MineParam,
                   maker: Addr, keys: seq<nat>, index: int)
    requires mp.Valid() && Bound(bls, keys)
    requires MinedBlock(l, bls, exec, fund, mp, maker, keys, index).Some?
    ensures AllKnown(l.db.consignees, Names(VotersOf(bls, keys), maker))
    ensures var r := MinedBlock(l, bls, exec, fund, mp, maker, keys, index).value;
            var p := BlockPass(l.db.consignees, VotersOf(bls, keys), maker, mp);
      && r.ledger.db == l.db.(consignees := p.es) && r.pays == p.pays && SameRecords(l.db.consignees, p.es)
      && (l.coins.Valid() ==> r.ledger.coins.Valid() && r.ledger.coins.sub == l.coins.sub)
  {
    hide BlockPass, ApplyPays, Bound, AllKnown, SameRecords;
    var c0 := Issued(l.coins, exec, mp.blockReward).value;
    if l.coins.Valid() {
      PaysKeepValid(c0, exec, BlockPass(l.db.consignees, VotersOf(bls, keys), maker, mp).pays);
    }
  }

  // The balances of one block: issue, payments, fund.
  lemma BlockBalances(c: Accounts, exec: Addr, fund: Addr, block: int, pools: int, pays: seq<Pay>, owed: int, owed': int)
    requires c.Valid() && fund != exec && 0 < block && 0 <= pools < block
    requires ClearPays(pays, exec) && 0 <= owed' && owed' + PaidOut(pays) <= owed + pools
    requires c.Main(exec) >= c.Deposits() + owed
    ensures var c1 := ApplyPays(c.Credit(exec, block), exec, pays);
      c1.Some? && var c2 := Transferred(c1.value, exec, fund, block - pools);
      c2.Some? && c2.value.Valid() && c2.value.sub == c.sub && c2.value.Main(exec) >= c2.value.Deposits() + owed'
  {
    DepositsNonNegative(c);
    PaysSucceed(c.Credit(exec, block), exec, pays);
    var c1 := ApplyPays(c.Credit(exec, block), exec, pays).value;
    hide ApplyPays, PaidOut;
    var c2 := Transferred(c1, exec, fund, block - pools).value;
    assert c2.DepositMap() == c.DepositMap();
  }

  lemma AcceptedBlock(l: Ledger, bls: map<nat, Addr>, exec: Addr, fund: Addr, mp: MineParam, maker: Addr, keys: seq<nat>)
    requires Sound(l, exec) && WellFormedBlock(l, bls, exec, fund, mp, maker, keys)
    requires Bound(bls, keys) && Known(l.db, bls, keys, maker) && mp.Pools(|keys|) < mp.blockReward
    requires 0 <= mp.Pools(|keys|)
    ensures var r := MinedBlock(l, bls, exec, fund, mp, maker, keys, 0); r.Some? && Sound(r.value.ledger, exec)
  {
    hide *;
    var voters, es := VotersOf(bls, keys), l.db.consignees;
    BlockIngredients(l, bls, exec, fund, mp, maker, keys);
    BlockPassSound(es, voters, maker, exec, mp);
    var p := BlockPass(es, voters, maker, mp);
    OwedNonNegative(p.es, exec);
    CoinsOfSound(l);
    BlockBalances(l.coins, exec, fund, mp.blockReward, mp.Pools(|keys|), p.pays, TotalOwed(es), TotalOwed(p.es));
    var c1 := ApplyPays(l.coins.Credit(exec, mp.blockReward), exec, p.pays).value;
    var c2 := Transferred(c1, exec, fund, mp.blockReward - mp.Pools(|keys|)).value;
    RewardKeepsStakeInv(l.db, l.coins, p.es, c2);
    MinedAs(l, bls, exec, fund, mp, maker, keys, c1, c2);
    SoundFrom(Ledger(l.db.(consignees := p.es), c2), exec);
  }

  lemma BlockIngredients(l: Ledger, bls: map<nat, Addr>, exec: Addr, fund: Addr, mp: MineParam, maker: Addr, keys: seq<nat>)
    requires Sound(l, exec) && WellFormedBlock(l, bls, exec, fund, mp, maker, keys)
    requires Bound(bls, keys) && Known(l.db, bls, keys, maker)
    ensures var voters := VotersOf(bls, keys);
      && mp.Valid() && fund != exec && exec !in Names(voters, maker)
      && BlockRewardable(l.db.consignees, voters, maker, mp) && AllKnown(l.db.consignees, Names(voters, maker))
      && l.coins.Main(exec) >= l.coins.Deposits() + TotalOwed(l.db.consignees)
      && StakeInv(l.db, l.coins) && RecordsSound(l.db.consignees, exec)
  {
    hide BlockRewardable, AllKnown, StakeInv, RecordsSound, TotalOwed;
  }

  lemma MinedAs(l: Ledger, bls: map<nat, Addr>, exec: Addr, fund: Addr, mp: MineParam, maker: Addr, keys: seq<nat>,
                c1: Accounts, c2: Accounts)
    requires mp.Valid() && Bound(bls, keys) && Known(l.db, bls, keys, maker) && mp.blockReward > 0
    requires ApplyPays(l.coins.Credit(exec, mp.blockReward), exec, BlockPass(l.db.consignees, VotersOf(bls, keys), maker, mp).pays) == Some(c1)
    requires Transferred(c1, exec, fund, mp.blockReward - mp.Pools(|keys|)) == Some(c2)
    ensures var p := BlockPass(l.db.consignees, VotersOf(bls, keys), maker, mp);
      MinedBlock(l, bls, exec, fund, mp, maker, keys, 0) == Some(Mined(Ledger(l.db.(consignees := p.es), c2), p.pays))
  {
    hide BlockPass, ApplyPays, Transferred, Bound, Known;
  }

  lemma SoundFrom(l: Ledger, exec: Addr)
    requires StakeInv(l.db, l.coins) && RecordsSound(l.db.consignees, exec)
    requires l.coins.Main(exec) >= l.coins.Deposits() + TotalOwed(l.db.consignees)
    ensures Sound(l, exec)
  {
  }

  lemma CoinsOfSound(l: Ledger)
    requires StakeInv(l.db, l.coins)
    ensures l.coins.Valid()
  {
  }

  // ---- The shipped parameters ----

  // With the parameters the chain ships with and at most 25 voter keys, the float bound
  // holds by itself for every 64-bit amount: what is left to ask of a rewarded record is
  // that no pair is negative and that it holds nothing or a whole ticket.
  lemma ShippedRewardable(es: map<Addr, Consignee>, voters: seq<Addr>, maker: Addr)
    requires |voters| <= VOTER_SIZE
    requires forall a | a in Names(voters, maker) && a in es ::
      && (forall i | 0 <= i < |es[a].consignors| :: es[a].consignors[i].amount >= 0)
      && (es[a].amount == 0 || SHIPPED.ticketPrice <= es[a].amount < 0x8000_0000_0000_0000)
    ensures BlockRewardable(es, voters, maker, SHIPPED)
  {
    forall a | a in Names(voters, maker) && a in es && es[a].amount != 0
      ensures Prod(SHIPPED.voteReward, VotesOf(voters, a)) * Tickets(es[a].amount, SHIPPED) <= 0x8_0000_0000_0000
      ensures Prod(SHIPPED.mineReward, |voters|) * Tickets(es[a].amount, SHIPPED) <= 0x8_0000_0000_0000
    {
      assert VotesOf(voters, a) <= |voters| by { assert |multiset(voters)| == |voters|; }
      ShippedProduct(VotesOf(voters, a), es[a].amount);
      ShippedProduct(|voters|, es[a].amount);
    }
  }

  lemma ShippedProduct(n: nat, amount: nat)
    requires n <= VOTER_SIZE && SHIPPED.ticketPrice <= amount < 0x8000_0000_0000_0000
    ensures Prod(SHIPPED.voteReward, n) * Tickets(amount, SHIPPED) <= 0x8_0000_0000_0000
    ensures Prod(SHIPPED.mineReward, n) * Tickets(amount, SHIPPED) <= 0x8_0000_0000_0000
  {
    var t := Tickets(amount, SHIPPED);
    assert t == amount / SHIPPED.ticketPrice <= 922337;
    SmallProduct(25000000 * n, t);
    SmallProduct(11000000 * n, t);
  }

  lemma SmallProduct(x: nat, t: nat)
    requires x <= 625000000 && t <= 922337
    ensures x * t <= 0x8_0000_0000_0000
  {
    ProdLeq(x, 625000000, t);
  }
}
