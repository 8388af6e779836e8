// The executor's actions on its database and on the coins account
// (plugin/dapp/pos33/executor/pos33.go), each tied to the value-level step it takes.
module Executor {
  import opened Options
  import opened Order
  import opened Coins
  import opened Params
  import opened Stake
  import opened Shares
  import opened Reward
  import opened Mining

  // A consignee record decoded from the database; voteReward and minerReward update it
  // in place, and the maker's record is shared by both.
  class ConsigneeObject {
    const address: Addr
    const feePercent: int
    var amount: int
    var feeReward: int
    var remainFeeReward: int
    var consignors: seq<Consignor>

    function Record(): Consignee
      reads this
    {
      Consignee(address, amount, feeReward, remainFeeReward, feePercent, consignors)
    }

    constructor (c: Consignee)
      ensures Record() == c
    {
      address, feePercent := c.address, c.feePercent;
      amount, feeReward, remainFeeReward, consignors := c.amount, c.feeReward, c.remainFeeReward, c.consignors;
    }
  }

  datatype MinerInfo = MinerInfo(miner: ConsigneeObject, addr: Addr, nv: nat)

  lemma {:induction false} ApplyPaysConcat(c: Accounts, exec: Addr, p: seq<Pay>, q: seq<Pay>)
    ensures ApplyPays(c, exec, p + q)
         == if ApplyPays(c, exec, p).None? then None else ApplyPays(ApplyPays(c, exec, p).value, exec, q)
    decreases |q|
  {
    if q == [] {
      assert p + q == p;
    } else {
      var init := q[..|q| - 1];
      assert (p + q)[..|p + q| - 1] == p + init;
      ApplyPaysConcat(c, exec, p, init);
    }
  }

  lemma ApplyOne(c: Accounts, exec: Addr, p: Pay)
    ensures ApplyPays(c, exec, [p]) == Transferred(c, exec, p.payee, p.amount)
  {
    assert [p][..0] == [];
  }

  class Action {
    const exec: Addr
    const coins: CoinsAccount
    var consignees: map<Addr, Consignee>
    var consignors: map<Addr, seq<Entry>>
    var all: int
    var bls: map<nat, Addr>

    function Records(): DB
      reads this
    {
      DB(consignees, consignors, all)
    }

    function Value(): Ledger
      reads this, coins
    {
      Ledger(Records(), coins.Value())
    }

    constructor (exec: Addr, coins: CoinsAccount, db: DB, bls: map<nat, Addr>)
      ensures this.exec == exec && this.coins == coins && Records() == db && this.bls == bls
    {
      this.exec, this.coins, this.bls := exec, coins, bls;
      consignees, consignors, all := db.consignees, db.consignors, db.all;
    }

    // The scan for the consignor in setEntrust.
    static method FindConsignor(cs: seq<Consignor>, r: Addr) returns (i: nat)
      ensures i == Position(Pairs(cs), r)
    {
      i := 0;
      while i < |cs| && cs[i].address != r
        invariant i <= |cs|
        invariant forall j | 0 <= j < i :: cs[j].address != r
      {
        i := i + 1;
      }
      PositionUnique(Pairs(cs), r, i);
    }

    // updateConsignor: the consignor's new list of consignees.
    method UpdateConsignor(r: Addr, amount: int, consignee: Addr) returns (list: seq<Entry>)
      ensures list == SetEntry(ConsigneesOf(Records(), r), consignee, amount)
    {
      list := if r in consignors then consignors[r] else [];
      var i := 0;
      while i < |list| && list[i].address != consignee
        invariant i <= |list|
        invariant forall j | 0 <= j < i :: list[j].address != consignee
      {
        i := i + 1;
      }
      PositionUnique(list, consignee, i);
      if i < |list| {
        list := list[i := list[i].(amount := amount)];
      } else {
        list := list + [Entry(consignee, amount)];
      }
    }

    // setEntrust: the records to write, or an error. Nothing is written yet.
    method SetEntrust(mp: MineParam, height: int, from: Addr, m: EntrustMsg) returns (r: Option<DB>)
      ensures r == if Permitted(Records(), height, from, m) then Some(EntrustedDB(Records(), mp, m)) else None
      ensures r.Some? ==> m.amount != 0 && (from == m.consignor || from == m.consignee || height == 0)
    {
      var sender := if height == 0 then m.consignor else from;
      if sender != m.consignor && sender != m.consignee { return None; }
      if m.amount == 0 { return None; }
      var c := if m.consignee in consignees then consignees[m.consignee] else Consignee(m.consignee, 0, 0, 0, mp.feePercent, []);
      var i := FindConsignor(c.consignors, m.consignor);
      if m.amount < 0 && i == |c.consignors| { return None; }
      var cs := if i < |c.consignors| then c.consignors else c.consignors + [Consignor(m.consignor, 0, 0, 0)];
      var cr := cs[i].(amount := cs[i].amount + m.amount);
      assert cs[i := cr] == Added(c.consignors, m.consignor, m.amount);
      assert cr.amount == StakeOf(Records(), m.consignor, m.consignee) + m.amount;
      c := c.(amount := c.amount + m.amount, consignors := cs[i := cr]);
      var list := UpdateConsignor(m.consignor, cr.amount, m.consignee);
      r := Some(DB(consignees[m.consignee := c], consignors[m.consignor := list], all + m.amount));
    }

    method Freeze(a: Addr, amount: int) returns (ok: bool)
      modifies coins
      ensures ok == Froze(old(coins.Value()), exec, a, amount).Some?
      ensures coins.Value() == if ok then Froze(old(coins.Value()), exec, a, amount).value else old(coins.Value())
    {
      if amount > 0 {
        ok := coins.ExecFrozen(exec, a, amount);
      } else {
        ok := coins.ExecActive(exec, a, -amount);
      }
    }

    method Pos33Entrust(mp: MineParam, height: int, from: Addr, m: EntrustMsg) returns (ok: bool)
      modifies this, coins
      ensures ok == Entrusted(old(Value()), exec, mp, height, from, m).Some?
      ensures Value() == if ok then Entrusted(old(Value()), exec, mp, height, from, m).value else old(Value())
      ensures bls == old(bls)
    {
      var r := SetEntrust(mp, height, from, m);
      if r.None? { return false; }
      ok := Freeze(m.consignor, m.amount);
      if ok {
        consignees, consignors, all := r.value.consignees, r.value.consignors, r.value.all;
      }
    }

    // Pos33BlsBind: after height 0 nobody can bind a key to another account.
    method Pos33BlsBind(height: int, from: Addr, key: nat, miner: Addr)
      modifies this`bls
      ensures bls == old(bls)[key := BoundTo(height, from, miner)]
      ensures height != 0 ==> bls[key] == from && forall k | k in bls && bls[k] != from :: k in old(bls) && bls[k] == old(bls)[k]
    {
      var account := from;
      if height == 0 { account := miner; }
      bls := bls[key := account];
    }

    // One turn of the loop that minerReward and voteReward share.
    method PayConsignor(c: ConsigneeObject, i: nat, pool: int, total: int, mp: MineParam) returns (ok: bool, sent: seq<Pay>)
      requires mp.Valid() && i < |c.consignors|
      modifies c, coins
      ensures var one := CreditOne(old(c.Record()), i, pool, total, mp);
        && (ok ==> sent == one.pays && c.Record() == one.rec && ApplyPays(old(coins.Value()), exec, sent) == Some(coins.Value()))
        && (!ok ==> sent <= one.pays && ApplyPays(old(coins.Value()), exec, sent).None?)
    {
      hide Share, Quo, ApplyPays;
      NoPays(coins.Value(), exec);
      var cr := c.consignors[i];
      ok, sent := true, [];
      if cr.amount == 0 { return; }
      var tickets := Quo(cr.amount, mp.ticketPrice);
      var share := if total == 0 then mp.nonFinite(pool, tickets) else Share(pool, total, tickets);
      cr := cr.(reward := cr.reward + share, remainReward := cr.remainReward + share);
      if cr.remainReward >= mp.rewardTransfer {
        var fee := Quo(cr.remainReward * c.feePercent, 100);
        c.feeReward := c.feeReward + fee;
        c.remainFeeReward := c.remainFeeReward + fee;
        sent := [Pay(c.address, cr.address, cr.remainReward - fee, false, fee)];
        ok := coins.Transfer(exec, cr.address, cr.remainReward - fee);
        ApplyOne(old(coins.Value()), exec, sent[0]);
        if !ok { return; }
        cr := cr.(remainReward := 0);
        if c.remainFeeReward >= mp.rewardTransfer * 10 {
          var feePay := Pay(c.address, c.address, c.remainFeeReward, true, 0);
          ApplyOne(coins.Value(), exec, feePay);
          ApplyPaysConcat(old(coins.Value()), exec, sent, [feePay]);
          ok := coins.Transfer(exec, feePay.payee, feePay.amount);
          sent := sent + [feePay];
          if !ok { return; }
          c.remainFeeReward := 0;
        }
      }
      c.consignors := c.consignors[i := cr];
    }

    // The loop that minerReward and voteReward share: credits every consignor of c,
    // paying out past the threshold.
    method PayConsignors(c: ConsigneeObject, pool: int, total: int, mp: MineParam) returns (ok: bool, pays: seq<Pay>)
      requires mp.Valid()
      modifies c, coins
      ensures var r := CreditFirst(old(c.Record()), |old(c.consignors)|, pool, total, mp);
              var after := ApplyPays(old(coins.Value()), exec, r.pays);
        ok == after.Some? && (ok ==> c.Record() == r.rec && pays == r.pays && coins.Value() == after.value)
    {
      hide CreditOne, ApplyPays;
      ghost var c0, coins0 := c.Record(), coins.Value();
      assert ApplyPays(coins0, exec, []) == Some(coins0) by { NoPays(coins0, exec); }
      pays := [];
      var i := 0;
      while i < |c.consignors|
        invariant i <= |c0.consignors| == |c.consignors|
        invariant Credited(c.Record(), pays) == CreditFirst(c0, i, pool, total, mp)
        invariant ApplyPays(coins0, exec, pays) == Some(coins.Value())
        decreases |c0.consignors| - i
      {
        var sent;
        ok, sent := PayConsignor(c, i, pool, total, mp);
        if !ok {
          PrefixFails(c0, i, pool, total, mp, coins0, pays, sent);
          return;
        }
        ApplyPaysConcat(coins0, exec, pays, sent);
        pays := pays + sent;
        i := i + 1;
        assert SameStakes(c0, CreditFirst(c0, i, pool, total, mp).rec);
      }
      ok := true;
    }

    static lemma NoPays(c: Accounts, exec: Addr)
      ensures ApplyPays(c, exec, []) == Some(c)
    {
    }

    lemma PrefixFails(c: Consignee, i: nat, pool: int, total: int, mp: MineParam, coins0: Accounts, pays: seq<Pay>, sent: seq<Pay>)
      requires mp.Valid() && i < |c.consignors|
      requires pays == CreditFirst(c, i, pool, total, mp).pays
      requires sent <= CreditOne(CreditFirst(c, i, pool, total, mp).rec, i, pool, total, mp).pays
      requires ApplyPays(coins0, exec, pays).Some? && ApplyPays(ApplyPays(coins0, exec, pays).value, exec, sent).None?
      ensures ApplyPays(coins0, exec, CreditFirst(c, |c.consignors|, pool, total, mp).pays).None?
    {
      hide CreditOne, ApplyPays;
      ApplyPaysConcat(coins0, exec, pays, sent);
      PaysPrefix(c, i + 1, |c.consignors|, pool, total, mp);
      var all := CreditFirst(c, |c.consignors|, pool, total, mp).pays;
      assert pays + sent <= CreditFirst(c, i + 1, pool, total, mp).pays;
      assert all == (pays + sent) + all[|pays + sent|..];
      ApplyPaysConcat(coins0, exec, pays + sent, all[|pays + sent|..]);
    }

    lemma {:induction false} PaysPrefix(c: Consignee, i: nat, k: nat, pool: int, total: int, mp: MineParam)
      requires mp.Valid() && i <= k <= |c.consignors|
      ensures CreditFirst(c, i, pool, total, mp).pays <= CreditFirst(c, k, pool, total, mp).pays
    {
      if i < k { PaysPrefix(c, i, k - 1, pool, total, mp); }
    }

    method MinerReward(c: ConsigneeObject, pool: int, mp: MineParam) returns (ok: bool, pays: seq<Pay>)
      requires mp.Valid()
      modifies c, coins
      ensures var r := CreditPass(old(c.Record()), pool, mp); var after := ApplyPays(old(coins.Value()), exec, r.pays);
        ok == after.Some? && (ok ==> c.Record() == r.rec && pays == r.pays && coins.Value() == after.value)
    {
      if c.amount == 0 {
        NoPays(coins.Value(), exec);
        return true, [];
      }
      ok, pays := PayConsignors(c, pool, Quo(c.amount, mp.ticketPrice), mp);
    }

    static function Addresses(mis: seq<MinerInfo>): (r: seq<Addr>)
      ensures |r| == |mis|
    {
      seq(|mis|, i requires 0 <= i < |mis| => mis[i].addr)
    }

    // The miner objects hold the records of es and are pairwise distinct.
    ghost predicate Loaded(es: map<Addr, Consignee>, mis: seq<MinerInfo>, voters: seq<Addr>)
      reads set j | 0 <= j < |mis| :: mis[j].miner
    {
      && (forall j | 0 <= j < |mis| :: mis[j].addr in es && mis[j].miner.Record() == es[mis[j].addr]
                                       && mis[j].nv == VotesOf(voters, mis[j].addr))
      && Separate(mis)
    }

    static ghost predicate Separate(mis: seq<MinerInfo>) {
      forall i, j | 0 <= i < j < |mis| :: mis[i].miner != mis[j].miner && mis[i].addr != mis[j].addr
    }

    method VoteReward(ghost es: map<Addr, Consignee>, mis: seq<MinerInfo>, ghost voters: seq<Addr>, mp: MineParam)
      returns (ok: bool, pays: seq<Pay>)
      requires mp.Valid() && Loaded(es, mis, voters) && AllKnown(es, Elements(Addresses(mis)))
      modifies (set j | 0 <= j < |mis| :: mis[j].miner), coins
      ensures var r := VotePass(es, Addresses(mis), voters, mp); var after := ApplyPays(old(coins.Value()), exec, r.pays);
        && ok == after.Some?
        && (ok ==> pays == r.pays && coins.Value() == after.value)
        && (ok ==> forall j | 0 <= j < |mis| :: mis[j].miner.Record() == r.es[mis[j].addr])
    {
      hide CreditPass, ApplyPays, VotesOf, VotePass, AllKnown, Elements;
      ghost var order, coins0 := Addresses(mis), coins.Value();
      NoPays(coins0, exec);
      NoVotes(es, order, voters, mp);
      pays := [];
      var i := 0;
      while i < |mis|
        invariant i <= |mis| && AllKnown(es, Elements(order[..i]))
        invariant var p := VotePass(es, order[..i], voters, mp);
          && pays == p.pays
          && (forall j | 0 <= j < i :: mis[j].miner.Record() == p.es[mis[j].addr])
          && (forall j | i <= j < |mis| :: mis[j].miner.Record() == es[mis[j].addr] && p.es[mis[j].addr] == es[mis[j].addr])
        invariant ApplyPays(coins0, exec, pays) == Some(coins.Value())
      {
        var mi := mis[i];
        OrderStep(es, order, i, mp);
        ghost var p, q := VotePass(es, order[..i], voters, mp), VotePass(es, order[..i + 1], voters, mp);
        VotePassNext(es, order, i, voters, mp);
        OthersKept(mis, p.es, q.es, i);
        if mi.nv != 0 {
          var one;
          ghost var c0 := mi.miner.Record();
          assert mp.voteReward * mi.nv == Prod(mp.voteReward, mi.nv);
          ok, one := MinerReward(mi.miner, mp.voteReward * mi.nv, mp);
          ghost var passed := CreditPass(c0, Prod(mp.voteReward, mi.nv), mp);
          ApplyPaysConcat(coins0, exec, pays, passed.pays);
          if !ok {
            VotePrefixFails(es, order, i + 1, voters, mp, coins0);
            return;
          }
          pays := pays + one;
        }
        i := i + 1;
      }
      assert order[..i] == order;
      ok := true;
    }

    static lemma NoVotes(es: map<Addr, Consignee>, order: seq<Addr>, voters: seq<Addr>, mp: MineParam)
      requires mp.Valid()
      ensures AllKnown(es, Elements(order[..0])) && VotePass(es, order[..0], voters, mp) == Pass(es, [])
    {
    }

    static lemma OthersKept(mis: seq<MinerInfo>, fs: map<Addr, Consignee>, gs: map<Addr, Consignee>, i: nat)
      requires i < |mis| && Separate(mis) && forall b | b in fs && b != mis[i].addr :: b in gs && gs[b] == fs[b]
      ensures forall j | 0 <= j < |mis| && j != i && mis[j].addr in fs :: mis[j].addr in gs && gs[mis[j].addr] == fs[mis[j].addr]
    {
      forall j | 0 <= j < |mis| && j != i ensures mis[j].addr != mis[i].addr { }
    }

    static lemma OrderStep(es: map<Addr, Consignee>, order: seq<Addr>, i: nat, mp: MineParam)
      requires mp.Valid() && i < |order| && AllKnown(es, Elements(order))
      ensures AllKnown(es, Elements(order[..i])) && AllKnown(es, Elements(order[..i + 1]))
    {
      forall a | a in Elements(order[..i + 1]) ensures a in Elements(order) { }
    }

    static lemma VotePassNext(es: map<Addr, Consignee>, order: seq<Addr>, i: nat, voters: seq<Addr>, mp: MineParam)
      requires mp.Valid() && i < |order|
      requires AllKnown(es, Elements(order[..i])) && AllKnown(es, Elements(order[..i + 1]))
      ensures order[i] in es
      ensures var p, q, a := VotePass(es, order[..i], voters, mp), VotePass(es, order[..i + 1], voters, mp), order[i];
        if VotesOf(voters, a) == 0 then q == p
        else q == var c := CreditPass(p.es[a], Prod(mp.voteReward, VotesOf(voters, a)), mp);
                                           Pass(p.es[a := c.rec], p.pays + c.pays)
      ensures var p, q, a := VotePass(es, order[..i], voters, mp), VotePass(es, order[..i + 1], voters, mp), order[i];
        forall b | b in p.es && b != a :: b in q.es && q.es[b] == p.es[b]
    {
      hide CreditPass, VotesOf;
      assert order[..i + 1][..i] == order[..i];
      assert order[i] in Elements(order[..i + 1]) by { assert order[..i + 1][i] == order[i]; }
    }

    static lemma {:induction false} VotePaysPrefix(es: map<Addr, Consignee>, order: seq<Addr>, i: nat, voters: seq<Addr>, mp: MineParam)
      requires mp.Valid() && i <= |order| && AllKnown(es, Elements(order))
      requires AllKnown(es, Elements(order[..i]))
      ensures VotePass(es, order[..i], voters, mp).pays <= VotePass(es, order, voters, mp).pays
      decreases |order|
    {
      hide CreditPass, VotesOf;
      if i == |order| {
        assert order[..i] == order;
      } else {
        var k := |order| - 1;
        OrderStep(es, order, k, mp);
        assert order[..k][..i] == order[..i];
        assert order[..k + 1] == order;
        VotePaysPrefix(es, order[..k], i, voters, mp);
        VotePassNext(es, order, k, voters, mp);
      }
    }

    lemma VotePrefixFails(es: map<Addr, Consignee>, order: seq<Addr>, i: nat, voters: seq<Addr>, mp: MineParam, coins0: Accounts)
      requires mp.Valid() && i <= |order| && AllKnown(es, Elements(order)) && AllKnown(es, Elements(order[..i]))
      requires ApplyPays(coins0, exec, VotePass(es, order[..i], voters, mp).pays).None?
      ensures ApplyPays(coins0, exec, VotePass(es, order, voters, mp).pays).None?
    {
      hide VotePass, ApplyPays, AllKnown;
      VotePaysPrefix(es, order, i, voters, mp);
      var p, q := VotePass(es, order[..i], voters, mp).pays, VotePass(es, order, voters, mp).pays;
      assert q == p + q[|p|..];
      ApplyPaysConcat(coins0, exec, p, q[|p|..]);
    }

    // Counts the votes of each bound voter; the maker is listed even without a vote.
    method CountVotes(keys: seq<nat>, maker: Addr) returns (ok: bool, votes: map<Addr, nat>)
      ensures ok == Bound(bls, keys)
      ensures ok ==> votes.Keys == Names(VotersOf(bls, keys), maker)
      ensures ok ==> forall a | a in votes :: votes[a] == VotesOf(VotersOf(bls, keys), a)
    {
      hide VotesOf, Elements;
      votes := map[];
      NothingCounted();
      var i := 0;
      while i < |keys|
        invariant i <= |keys| && Bound(bls, keys[..i])
        invariant votes.Keys == Elements(VotersOf(bls, keys[..i]))
        invariant forall a | a in votes :: votes[a] == VotesOf(VotersOf(bls, keys[..i]), a)
      {
        if keys[i] !in bls { return false, map[]; }
        var a := bls[keys[i]];
        assert keys[..i + 1] == keys[..i] + [keys[i]];
        assert VotersOf(bls, keys[..i + 1]) == VotersOf(bls, keys[..i]) + [a];
        NewVote(VotersOf(bls, keys[..i]), a);
        votes := votes[a := if a in votes then votes[a] + 1 else 1];
        i := i + 1;
      }
      assert keys[..i] == keys;
      ok := true;
      NewVote(VotersOf(bls, keys), maker);
      if maker !in votes { votes := votes[maker := 0]; }
    }

    static lemma NothingCounted()
      ensures Elements([]) == {}
    {
    }

    static lemma NewVote(voters: seq<Addr>, a: Addr)
      ensures Elements(voters + [a]) == Elements(voters) + {a}
      ensures forall b :: VotesOf(voters + [a], b) == VotesOf(voters, b) + if a == b then 1 else 0
      ensures forall b :: b in Elements(voters) <==> VotesOf(voters, b) > 0
    {
    }

    ghost predicate DistinctMiners(infos: map<Addr, MinerInfo>) {
      forall a, b | a in infos && b in infos && a != b :: infos[a].miner != infos[b].miner
    }

    ghost predicate InfosLoaded(infos: map<Addr, MinerInfo>, votes: map<Addr, nat>)
      requires infos.Keys <= votes.Keys
      reads this, set a | a in infos :: infos[a].miner
    {
      forall a | a in infos :: a in consignees && infos[a].addr == a && infos[a].nv == votes[a]
                            && infos[a].miner.Record() == consignees[a]
    }

    method LoadMiner(infos: map<Addr, MinerInfo>, votes: map<Addr, nat>, k: Addr) returns (r: map<Addr, MinerInfo>)
      requires infos.Keys <= votes.Keys && k in votes && k in consignees && k !in infos
      requires InfosLoaded(infos, votes)
      ensures k in r && fresh(r[k].miner) && r == infos[k := r[k]] && r.Keys == infos.Keys + {k}
      ensures InfosLoaded(r, votes)
    {
      var miner := new ConsigneeObject(consignees[k]);
      r := infos[k := MinerInfo(miner, k, votes[k])];
    }

    // The names not in todo are listed once each, with their records loaded.
    ghost predicate Collecting(votes: map<Addr, nat>, todo: set<Addr>, addrs: seq<Addr>, infos: map<Addr, MinerInfo>)
      reads this, set a | a in infos :: infos[a].miner
    {
      && todo <= votes.Keys && NoDuplicates(addrs) && infos.Keys == Elements(addrs) == votes.Keys - todo
      && infos.Keys <= consignees.Keys && DistinctMiners(infos) && InfosLoaded(infos, votes)
    }

    method CollectOne(votes: map<Addr, nat>, todo: set<Addr>, addrs: seq<Addr>, infos: map<Addr, MinerInfo>, k: Addr, ghost made: set<ConsigneeObject>)
      returns (r: map<Addr, MinerInfo>, ghost obj: ConsigneeObject)
      requires Collecting(votes, todo, addrs, infos) && MadeFrom(infos, made) && k in todo && k in consignees
      ensures Collecting(votes, todo - {k}, addrs + [k], r) && MadeFrom(r, made + {obj}) && fresh(obj)
    {
      hide Elements, InfosLoaded, NoDuplicates, DistinctMiners, MadeFrom, VotesOf;
      CollectStep(addrs, todo, votes.Keys, k);
      r := LoadMiner(infos, votes, k);
      obj := r[k].miner;
      OneMoreMiner(infos, k, r[k], made);
    }

    // Loads a record for every name, in whatever order the map is traversed.
    method LoadMiners(votes: map<Addr, nat>) returns (ok: bool, addrs: seq<Addr>, infos: map<Addr, MinerInfo>)
      ensures ok == (votes.Keys <= consignees.Keys)
      ensures ok ==> NoDuplicates(addrs) && Elements(addrs) == votes.Keys == infos.Keys
      ensures ok ==> InfosLoaded(infos, votes) && DistinctMiners(infos)
      ensures ok ==> forall a | a in infos :: fresh(infos[a].miner)
    {
      hide Elements, InfosLoaded, NoDuplicates, DistinctMiners, Collecting, MadeFrom;
      addrs, infos := [], map[];
      var todo := votes.Keys;
      ghost var made: set<ConsigneeObject> := {};
      NothingCollected(votes);
      while todo != {}
        invariant Collecting(votes, todo, addrs, infos) && MadeFrom(infos, made)
        invariant forall o | o in made :: fresh(o)
        decreases |todo|
      {
        var k :| k in todo;
        StillNamed(votes, todo, addrs, infos);
        if k !in consignees { return false, [], map[]; }
        ghost var obj;
        infos, obj := CollectOne(votes, todo, addrs, infos, k, made);
        todo, addrs, made := todo - {k}, addrs + [k], made + {obj};
      }
      AllCollected(votes, addrs, infos);
      MadeFromIs(infos, made);
      ok := true;
    }

    lemma NothingCollected(votes: map<Addr, nat>)
      ensures Collecting(votes, votes.Keys, [], map[]) && MadeFrom(map[], {})
    {
    }

    lemma AllCollected(votes: map<Addr, nat>, addrs: seq<Addr>, infos: map<Addr, MinerInfo>)
      requires Collecting(votes, {}, addrs, infos)
      ensures votes.Keys <= consignees.Keys
      ensures NoDuplicates(addrs) && Elements(addrs) == votes.Keys == infos.Keys
      ensures InfosLoaded(infos, votes) && DistinctMiners(infos)
    {
    }

    lemma StillNamed(votes: map<Addr, nat>, todo: set<Addr>, addrs: seq<Addr>, infos: map<Addr, MinerInfo>)
      requires Collecting(votes, todo, addrs, infos)
      ensures todo <= votes.Keys
    {
    }

    ghost predicate MadeFrom(infos: map<Addr, MinerInfo>, made: set<ConsigneeObject>) {
      forall a | a in infos :: infos[a].miner in made
    }

    lemma MadeFromIs(infos: map<Addr, MinerInfo>, made: set<ConsigneeObject>)
      requires MadeFrom(infos, made)
      ensures forall a | a in infos :: infos[a].miner in made
    {
    }

    lemma OneMoreMiner(infos: map<Addr, MinerInfo>, k: Addr, info: MinerInfo, made: set<ConsigneeObject>)
      requires DistinctMiners(infos) && MadeFrom(infos, made) && info.miner !in made
      ensures DistinctMiners(infos[k := info]) && MadeFrom(infos[k := info], made + {info.miner})
    {
    }

    static lemma NoElements()
      ensures Elements([]) == {}
    {
    }

    static lemma CollectStep(addrs: seq<Addr>, todo: set<Addr>, names: set<Addr>, k: Addr)
      requires todo <= names && NoDuplicates(addrs) && Elements(addrs) == names - todo && k in todo
      ensures NoDuplicates(addrs + [k])
      ensures Elements(addrs + [k]) == names - (todo - {k}) && Elements(addrs + [k]) == Elements(addrs) + {k}
    {
      assert k !in Elements(addrs);
      NewVote(addrs, k);
    }

    // Writes every rewarded record back, once.
    method WriteBack(mis: seq<MinerInfo>)
      modifies this`consignees
      requires Separate(mis)
      ensures consignees.Keys == old(consignees).Keys + Elements(Addresses(mis))
      ensures forall j | 0 <= j < |mis| :: mis[j].addr in consignees && consignees[mis[j].addr] == mis[j].miner.Record()
      ensures forall a | a in old(consignees) && a !in Elements(Addresses(mis)) :: consignees[a] == old(consignees)[a]
    {
      hide Elements, VotesOf;
      assert Elements([]) == {} by { NoElements(); }
      var i := 0;
      assert Addresses(mis)[..i] == [];
      while i < |mis|
        invariant i <= |mis|
        invariant consignees.Keys == old(consignees).Keys + Elements(Addresses(mis)[..i])
        invariant forall j | 0 <= j < i :: mis[j].addr in consignees && consignees[mis[j].addr] == mis[j].miner.Record()
        invariant forall a | a in old(consignees) && a !in Elements(Addresses(mis)[..i]) :: consignees[a] == old(consignees)[a]
      {
        assert Addresses(mis)[..i + 1] == Addresses(mis)[..i] + [mis[i].addr];
        NewVote(Addresses(mis)[..i], mis[i].addr);
        assert forall j | 0 <= j < i :: mis[j].addr != mis[i].addr;
        consignees := consignees[mis[i].addr := mis[i].miner.Record()];
        i := i + 1;
      }
      assert Addresses(mis)[..i] == Addresses(mis);
    }

    // Both passes over the loaded records. The maker's record is one of the voters'
    // records, so what the second pass adds is on top of what the first one added.
    method PayBlock(ghost es: map<Addr, Consignee>, mis: seq<MinerInfo>, ghost voters: seq<Addr>, n: nat,
                    bm: nat, ghost maker: Addr, mp: MineParam)
      returns (ok: bool, pays: seq<Pay>)
      requires mp.Valid() && Loaded(es, mis, voters) && n == |voters|
      requires AllKnown(es, Names(voters, maker)) && Addresses(mis) == Ascending(Names(voters, maker))
      requires bm < |mis| && mis[bm].addr == maker
      modifies (set j | 0 <= j < |mis| :: mis[j].miner), coins
      ensures var r := BlockPass(es, voters, maker, mp); var after := ApplyPays(old(coins.Value()), exec, r.pays);
        && ok == after.Some?
        && (ok ==> pays == r.pays && coins.Value() == after.value)
        && (ok ==> forall j | 0 <= j < |mis| :: mis[j].miner.Record() == r.es[mis[j].addr])
    {
      hide VotePass, BlockPass, CreditPass, ApplyPays, VotesOf, AllKnown, Ascending, Names;
      ghost var coins0, v := coins.Value(), VotePass(es, Addresses(mis), voters, mp);
      BlockPassIs(es, voters, maker, mp);
      ghost var pool := Prod(mp.mineReward, n);
      ghost var passed := CreditPass(v.es[maker], pool, mp);
      assert mp.mineReward * n == pool;
      ApplyPaysConcat(coins0, exec, v.pays, passed.pays);
      ok, pays := VoteReward(es, mis, voters, mp);
      if !ok { return; }
      var more;
      ok, more := MinerReward(mis[bm].miner, mp.mineReward * n, mp);
      pays := pays + more;
    }

    static lemma BlockPassIs(es: map<Addr, Consignee>, voters: seq<Addr>, maker: Addr, mp: MineParam)
      requires mp.Valid() && AllKnown(es, Names(voters, maker))
      ensures AllKnown(es, Elements(Ascending(Names(voters, maker))))
      ensures var v := VotePass(es, Ascending(Names(voters, maker)), voters, mp);
        && maker in v.es
        && var m := CreditPass(v.es[maker], Prod(mp.mineReward, |voters|), mp);
           BlockPass(es, voters, maker, mp) == Pass(v.es[maker := m.rec], v.pays + m.pays)
    {
      hide VotePass, CreditPass;
    }

    // Counts votes, loads the records and sorts them by address.
    method GatherMiners(keys: seq<nat>, maker: Addr) returns (ok: bool, mis: seq<MinerInfo>, bm: nat)
      ensures ok == (Bound(bls, keys) && Known(Records(), bls, keys, maker))
      ensures ok ==> Loaded(consignees, mis, VotersOf(bls, keys)) && Addresses(mis) == Ascending(Names(VotersOf(bls, keys), maker))
      ensures ok ==> bm < |mis| && mis[bm].addr == maker
      ensures ok ==> forall j | 0 <= j < |mis| :: fresh(mis[j].miner)
    {
      hide VotesOf, Loaded, Ascending, Elements, NoDuplicates, StrictlySorted, DistinctMiners, InfosLoaded, Sort;
      mis, bm := [], 0;
      var votes, addrs, infos;
      ok, votes := CountVotes(keys, maker);
      if !ok { return; }
      ok, addrs, infos := LoadMiners(votes);
      if !ok { return; }
      SortIsAscending(addrs);
      mis := ByAddress(Sort(addrs), infos);
      SortedLoaded(Sort(addrs), infos, votes, VotersOf(bls, keys));
      bm := MakerPlace(Sort(addrs), maker);
    }

    // sort.Slice(mis, ... mis[i].addr < mis[j].addr)
    static function ByAddress(order: seq<Addr>, infos: map<Addr, MinerInfo>): (r: seq<MinerInfo>)
      requires Elements(order) <= infos.Keys
      ensures |r| == |order| && forall i | 0 <= i < |order| :: order[i] in infos && r[i] == infos[order[i]]
    {
      assert forall i | 0 <= i < |order| :: order[i] in Elements(order);
      seq(|order|, i requires 0 <= i < |order| => infos[order[i]])
    }

    static method MakerPlace(order: seq<Addr>, maker: Addr) returns (j: nat)
      requires maker in Elements(order)
      ensures j < |order| && order[j] == maker
    {
      j :| 0 <= j < |order| && order[j] == maker;
    }

    lemma SortedLoaded(order: seq<Addr>, infos: map<Addr, MinerInfo>, votes: map<Addr, nat>, voters: seq<Addr>)
      requires StrictlySorted(order) && Elements(order) == infos.Keys == votes.Keys
      requires InfosLoaded(infos, votes) && DistinctMiners(infos)
      requires forall a | a in votes :: votes[a] == VotesOf(voters, a)
      ensures Loaded(consignees, ByAddress(order, infos), voters) && Addresses(ByAddress(order, infos)) == order
    {
      hide VotesOf, Elements;
    }

    // The stages at which a block can fail, and what it is when none fails.
    static lemma MinedCases(l: Ledger, bls: map<nat, Addr>, exec: Addr, fund: Addr, mp: MineParam,
                            maker: Addr, keys: seq<nat>, index: int)
      requires mp.Valid()
      ensures mp.Valid()
      ensures var r := MinedBlock(l, bls, exec, fund, mp, maker, keys, index); var c0 := Issued(l.coins, exec, mp.blockReward);
        && (index != 0 || c0.None? || !(Bound(bls, keys) && Known(l.db, bls, keys, maker)) ==> r.None?)
        && (index == 0 && c0.Some? && Bound(bls, keys) && Known(l.db, bls, keys, maker) ==>
             AllKnown(l.db.consignees, Names(VotersOf(bls, keys), maker)) &&
             var p := BlockPass(l.db.consignees, VotersOf(bls, keys), maker, mp); var c1 := ApplyPays(c0.value, exec, p.pays);
             && (c1.None? ==> r.None?)
             && (c1.Some? ==> var c2 := Transferred(c1.value, exec, fund, mp.blockReward - (mp.voteReward + mp.mineReward) * |keys|);
                  r == if c2.None? then None else Some(Mined(Ledger(l.db.(consignees := p.es), c2.value), p.pays))))
    {
      hide BlockPass, ApplyPays, AllKnown;
    }

    // Issues the block's coins and pays voters and maker.
    method IssueAndPay(mp: MineParam, maker: Addr, keys: seq<nat>) returns (ok: bool, mis: seq<MinerInfo>, pays: seq<Pay>)
      requires mp.Valid()
      modifies coins
      ensures ok ==> Bound(bls, keys) && Known(Records(), bls, keys, maker) && Issued(old(coins.Value()), exec, mp.blockReward).Some?
      ensures var c0 := Issued(old(coins.Value()), exec, mp.blockReward);
        Bound(bls, keys) && Known(Records(), bls, keys, maker) && c0.Some? ==>
          var p := BlockPass(consignees, VotersOf(bls, keys), maker, mp); var c1 := ApplyPays(c0.value, exec, p.pays);
          && ok == c1.Some?
          && (ok ==> coins.Value() == c1.value && pays == p.pays && Separate(mis)
                     && Addresses(mis) == Ascending(Names(VotersOf(bls, keys), maker)))
          && (ok ==> forall j | 0 <= j < |mis| :: mis[j].addr in p.es && mis[j].miner.Record() == p.es[mis[j].addr])
    {
      hide BlockPass, ApplyPays, Known, Ascending, Names, Bound;
      mis, pays := [], [];
      ok := coins.ExecIssueCoins(exec, mp.blockReward);
      if !ok { return; }
      var bm;
      ok, mis, bm := GatherMiners(keys, maker);
      if !ok { return; }
      ok, pays := PayBlock(consignees, mis, VotersOf(bls, keys), |keys|, bm, maker, mp);
    }

    // Pos33MinerNew: on success the records, balances and payments of the whole block;
    // on any error nothing changes.
    method Pos33MinerNew(mp: MineParam, fund: Addr, maker: Addr, keys: seq<nat>, index: int) returns (ok: bool, pays: seq<Pay>)
      requires mp.Valid()
      modifies this`consignees, coins
      ensures var r := MinedBlock(old(Value()), old(bls), exec, fund, mp, maker, keys, index);
        && ok == r.Some?
        && (ok ==> pays == r.value.pays)
        && Value() == if ok then r.value.ledger else old(Value())
    {
      hide MinedBlock, BlockPass, ApplyPays, Transferred, Issued, Bound, Known, AllKnown, Names, Ascending, Separate;
      MinedCases(Value(), bls, exec, fund, mp, maker, keys, index);
      ok, pays := false, [];
      if index != 0 { return; }
      var saved, mis := coins.Value(), [];
      ok, mis, pays := IssueAndPay(mp, maker, keys);
      if ok { ok := coins.Transfer(exec, fund, mp.blockReward - (mp.voteReward + mp.mineReward) * |keys|); }
      if !ok { coins.SetValue(saved); return; }
      Commit(mis, VotersOf(bls, keys), maker, mp);
    }

    method Commit(mis: seq<MinerInfo>, ghost voters: seq<Addr>, ghost maker: Addr, ghost mp: MineParam)
      requires mp.Valid() && AllKnown(consignees, Names(voters, maker))
      requires Separate(mis) && Addresses(mis) == Ascending(Names(voters, maker))
      requires var p := BlockPass(consignees, voters, maker, mp);
        forall j | 0 <= j < |mis| :: mis[j].addr in p.es && mis[j].miner.Record() == p.es[mis[j].addr]
      modifies this`consignees
      ensures consignees == BlockPass(old(consignees), voters, maker, mp).es
    {
      hide BlockPass, AllKnown, Names, Ascending, Separate;
      WriteBack(mis);
      WrittenBack(old(consignees), consignees, voters, maker, mp, Addresses(mis));
    }

    static lemma WrittenBack(es: map<Addr, Consignee>, fs: map<Addr, Consignee>, voters: seq<Addr>, maker: Addr,
                             mp: MineParam, order: seq<Addr>)
      requires mp.Valid() && AllKnown(es, Names(voters, maker)) && order == Ascending(Names(voters, maker))
      requires fs.Keys == es.Keys + Elements(order)
      requires forall j | 0 <= j < |order| :: order[j] in fs && order[j] in es && fs[order[j]] == BlockPass(es, voters, maker, mp).es[order[j]]
      requires forall a | a in es && a !in Elements(order) :: fs[a] == es[a]
      ensures fs == BlockPass(es, voters, maker, mp).es
    {
      hide BlockPass, AllKnown;
      PassOutside(es, voters, maker, mp);
      forall a | a in es ensures fs[a] == BlockPass(es, voters, maker, mp).es[a] {
        if a in order { var j :| 0 <= j < |order| && order[j] == a; }
      }
    }

    // Records of accounts the block does not name stay as they were.
    static lemma PassOutside(es: map<Addr, Consignee>, voters: seq<Addr>, maker: Addr, mp: MineParam)
      requires mp.Valid() && AllKnown(es, Names(voters, maker))
      ensures Names(voters, maker) <= es.Keys
      ensures forall a | a in es && a !in Names(voters, maker) :: BlockPass(es, voters, maker, mp).es[a] == es[a]
    {
      hide CreditPass;
      VoteOutside(es, Ascending(Names(voters, maker)), voters, mp);
    }

    static lemma {:induction false} VoteOutside(es: map<Addr, Consignee>, order: seq<Addr>, voters: seq<Addr>, mp: MineParam)
      requires mp.Valid() && AllKnown(es, Elements(order))
      ensures forall a | a in es && a !in Elements(order) :: VotePass(es, order, voters, mp).es[a] == es[a]
      decreases |order|
    {
      hide CreditPass, VotesOf;
      if order != [] {
        var k := |order| - 1;
        OrderStep(es, order, k, mp);
        assert order[..k + 1] == order;
        VoteOutside(es, order[..k], voters, mp);
        VotePassNext(es, order, k, voters, mp);
        assert order[k] in Elements(order);
        forall a | a !in Elements(order) ensures a !in Elements(order[..k]) { }
      }
    }
  }
}
