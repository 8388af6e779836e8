// What one block credits to each consignor, whoever else is rewarded and in whatever
// order (plugin/dapp/pos33/executor/pos33.go:131-149, 183-207, 286-332).
module Credits {
  import opened Order
  import opened Coins
  import opened Params
  import opened Stake
  import opened Shares
  import opened Reward
  import opened Mining

  // The credit of consignor i of c from one pool.
  function Credit(c: Consignee, i: nat, pool: int, mp: MineParam): int
    requires mp.Valid() && i < |c.consignors|
  {
    if c.amount == 0 then 0 else ShareOf(c.consignors[i].amount, pool, Tickets(c.amount, mp), mp)
  }

  // Each consignor of a voter is credited from the pool of that voter's own votes, each
  // consignor of the maker also from the maker's pool, and nobody else.
  function BlockCredit(c: Consignee, i: nat, votes: nat, makes: bool, n: nat, mp: MineParam): int
    requires mp.Valid() && i < |c.consignors|
  {
    (if votes == 0 then 0 else Credit(c, i, Prod(mp.voteReward, votes), mp))
    + if makes then Credit(c, i, Prod(mp.mineReward, n), mp) else 0
  }

  function RewardAt(c: Consignee, i: nat): int
    requires i < |c.consignors|
  {
    c.consignors[i].reward
  }

  lemma CreditOneReward(c: Consignee, k: nat, pool: int, total: int, mp: MineParam, i: nat)
    requires mp.Valid() && k < |c.consignors| && i < |c.consignors|
    ensures var r := CreditOne(c, k, pool, total, mp).rec;
      && |r.consignors| == |c.consignors|
      && RewardAt(r, i) == RewardAt(c, i) + if i == k then ShareOf(c.consignors[i].amount, pool, total, mp) else 0
  {
    hide Share, Fee, Quo;
  }

  lemma {:induction false} CreditFirstReward(c: Consignee, k: nat, pool: int, total: int, mp: MineParam, i: nat)
    requires mp.Valid() && k <= |c.consignors| && i < |c.consignors|
    ensures RewardAt(CreditFirst(c, k, pool, total, mp).rec, i)
         == RewardAt(c, i) + if i < k then ShareOf(c.consignors[i].amount, pool, total, mp) else 0
  {
    if k > 0 {
      hide CreditOne, ShareOf, RewardAt;
      var p := CreditFirst(c, k - 1, pool, total, mp).rec;
      CreditFirstReward(c, k - 1, pool, total, mp, i);
      CreditOneReward(p, k - 1, pool, total, mp, i);
      assert Pairs(p.consignors)[i] == Pairs(c.consignors)[i];
    }
  }

  lemma CreditPassReward(c: Consignee, pool: int, mp: MineParam, i: nat)
    requires mp.Valid() && i < |c.consignors|
    ensures RewardAt(CreditPass(c, pool, mp).rec, i) == RewardAt(c, i) + Credit(c, i, pool, mp)
  {
    hide CreditFirst, ShareOf;
    if c.amount != 0 { CreditFirstReward(c, |c.consignors|, pool, Tickets(c.amount, mp), mp, i); }
  }

  // A credit depends on stakes alone.
  lemma SameCredit(c: Consignee, d: Consignee, pool: int, mp: MineParam, i: nat)
    requires mp.Valid() && SameStakes(c, d) && i < |c.consignors|
    ensures Credit(d, i, pool, mp) == Credit(c, i, pool, mp)
  {
    hide ShareOf;
    assert Pairs(d.consignors)[i] == Pairs(c.consignors)[i];
  }

  lemma {:induction false} VotePassReward(es: map<Addr, Consignee>, order: seq<Addr>, voters: seq<Addr>, mp: MineParam, a: Addr, i: nat)
    requires mp.Valid() && AllKnown(es, Elements(order)) && NoDuplicates(order)
    requires a in es && i < |es[a].consignors|
    ensures var d := VotePass(es, order, voters, mp).es[a];
      && SameStakes(es[a], d)
      && RewardAt(d, i) == RewardAt(es[a], i) + if a in order then BlockCredit(es[a], i, VotesOf(voters, a), false, 0, mp) else 0
    decreases |order|
  {
    hide CreditPass, Credit, VotesOf, Prod, RewardAt;
    if order != [] {
      var init, b := order[..|order| - 1], order[|order| - 1];
      assert order == init + [b] && b !in init;
      assert b in Elements(order) && forall x | x in Elements(init) :: x in Elements(order);
      VotePassReward(es, init, voters, mp, a, i);
      var p, pool := VotePass(es, init, voters, mp).es, Prod(mp.voteReward, VotesOf(voters, b));
      SameCredit(es[a], p[a], pool, mp, i);
      if a == b && VotesOf(voters, a) != 0 { CreditPassReward(p[a], pool, mp, i); }
    }
  }

  // After a block each consignor's total reward has grown by exactly its share of its
  // consignee's vote pool, if the consignee voted, and of the maker's pool, if it made the
  // block; the maker's two shares add up on its one record.
  lemma BlockRewards(es: map<Addr, Consignee>, voters: seq<Addr>, maker: Addr, mp: MineParam, a: Addr, i: nat)
    requires mp.Valid() && AllKnown(es, Names(voters, maker))
    requires a in es && i < |es[a].consignors|
    ensures var d := BlockPass(es, voters, maker, mp).es[a];
      && SameStakes(es[a], d)
      && RewardAt(d, i) == RewardAt(es[a], i) + BlockCredit(es[a], i, VotesOf(voters, a), a == maker, |voters|, mp)
  {
    hide VotePass, CreditPass, Credit, Prod, RewardAt, Ascending;
    var order := Ascending(Names(voters, maker));
    assert a in order <==> a in Elements(order);
    assert NoDuplicates(order);
    VotePassReward(es, order, voters, mp, a, i);
    var v, pool := VotePass(es, order, voters, mp).es, Prod(mp.mineReward, |voters|);
    if a !in order { assert VotesOf(voters, a) == 0; }
    SameCredit(es[a], v[a], pool, mp, i);
    if a == maker { CreditPassReward(v[a], pool, mp, i); }
  }

  // And that share is the exact one, rounded down, or one unit less.
  lemma CreditBounds(c: Consignee, i: nat, pool: nat, mp: MineParam)
    requires mp.Valid() && Rewardable(c, pool, mp) && c.amount != 0 && c.amount == Total(Pairs(c.consignors)) && i < |c.consignors|
    ensures Tickets(c.amount, mp) > 0
    ensures var exact := pool * Tickets(c.consignors[i].amount, mp) / Tickets(c.amount, mp);
      exact - 1 <= Credit(c, i, pool, mp) <= exact
  {
    TicketsWithin(c, i, pool, mp);
    hide Share, Quo, Tickets, Rewardable, Total;
    var a, total := c.consignors[i].amount, Tickets(c.amount, mp);
    NoStakeNoShare(mp, pool, total);
    ShareBound(pool, total, Tickets(a, mp));
  }

  lemma TicketsWithin(c: Consignee, i: nat, pool: nat, mp: MineParam)
    requires mp.Valid() && Rewardable(c, pool, mp) && c.amount != 0 && c.amount == Total(Pairs(c.consignors)) && i < |c.consignors|
    ensures 0 <= Tickets(c.consignors[i].amount, mp) <= Tickets(c.amount, mp) && Tickets(c.amount, mp) > 0
    ensures pool * Tickets(c.amount, mp) <= 0x8_0000_0000_0000
  {
    var xs := Amounts(Pairs(c.consignors));
    forall j | 0 <= j < |xs| ensures xs[j] == c.consignors[j].amount { }
    TicketSumBound(xs, mp);
    hide Quo, TicketSum, Prod;
    assert 0 <= xs[i] <= c.amount;
    QuoMono(mp.ticketPrice, c.amount, mp.ticketPrice);
    QuoMono(xs[i], c.amount, mp.ticketPrice);
    QuoMono(0, xs[i], mp.ticketPrice);
    NoStakeNoShare(mp, pool, 1);
  }

  lemma NoStakeNoShare(mp: MineParam, pool: nat, total: nat)
    requires mp.Valid() && total > 0
    ensures Tickets(0, mp) == 0 && pool * Tickets(0, mp) / total == 0
  {
    assert 0 / mp.ticketPrice == 0;
    assert pool * 0 == 0 && 0 / total == 0;
  }
}
