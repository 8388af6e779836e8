// Who is paid what: every reward goes to the consignor who earned it, less the fee, once
// its remainder reaches the threshold, and every fee to the consignee
// (plugin/dapp/pos33/executor/pos33.go:144-179, 200-238, 274-349).
module Payouts {
  import opened Sums
  import opened Order
  import opened Coins
  import opened Params
  import opened Stake
  import opened Reward
  import opened Mining
  import opened LedgerRuns

  // The reward payments to r.
  function RewardsTo(pays: seq<Pay>, r: Addr): seq<Pay> {
    if pays == [] then []
    else (if !pays[0].isFee && pays[0].payee == r then [pays[0]] else []) + RewardsTo(pays[1..], r)
  }

  // What the consignors of e have drawn through payments to r, fees included.
  function DrawnBy(pays: seq<Pay>, e: Addr, r: Addr): int {
    if pays == [] then 0
    else (if pays[0].consignee == e && !pays[0].isFee && pays[0].payee == r then pays[0].amount + pays[0].fee else 0) + DrawnBy(pays[1..], e, r)
  }

  // The fees e has withheld.
  function Withheld(pays: seq<Pay>, e: Addr): int {
    if pays == [] then 0
    else (if pays[0].consignee == e then pays[0].fee else 0) + Withheld(pays[1..], e)
  }

  lemma PayoutsNext(pays: seq<Pay>, e: Addr, r: Addr)
    requires pays != []
    ensures var p, rest := pays[0], pays[1..];
      && RewardsTo(pays, r) == (if !p.isFee && p.payee == r then [p] else []) + RewardsTo(rest, r)
      && DrawnBy(pays, e, r) == (if p.consignee == e && !p.isFee && p.payee == r then p.amount + p.fee else 0) + DrawnBy(rest, e, r)
      && Withheld(pays, e) == (if p.consignee == e then p.fee else 0) + Withheld(rest, e)
  {
  }

  lemma {:induction false} PayoutsConcat(p: seq<Pay>, q: seq<Pay>, e: Addr, r: Addr)
    ensures RewardsTo(p + q, r) == RewardsTo(p, r) + RewardsTo(q, r)
    ensures DrawnBy(p + q, e, r) == DrawnBy(p, e, r) + DrawnBy(q, e, r)
    ensures Withheld(p + q, e) == Withheld(p, e) + Withheld(q, e)
  {
    if p == [] {
      assert p + q == q && [] + RewardsTo(q, r) == RewardsTo(q, r);
    } else {
      PayoutsNext(p, e, r);
      PayoutsNext(p + q, e, r);
      hide RewardsTo, DrawnBy, Withheld;
      assert (p + q)[1..] == p[1..] + q;
      PayoutsConcat(p[1..], q, e, r);
      Regroup(if !p[0].isFee && p[0].payee == r then [p[0]] else [], RewardsTo(p[1..], r), RewardsTo(q, r));
    }
  }

  // What the rules say of one payment: a fee goes to the consignee once it has reached ten
  // thresholds; a reward is paid once it has reached the threshold, less the fee, which is
  // the percentage rounded down.
  ghost predicate RightPay(p: Pay, feePercent: int, mp: MineParam) {
    if p.isFee then p.payee == p.consignee && p.fee == 0 && p.amount >= mp.rewardTransfer * 10
    else
      var gross := p.amount + p.fee;
      gross >= mp.rewardTransfer && 100 * p.fee <= gross * feePercent < 100 * p.fee + 100
  }

  // Consignor i of c after its share of one pool: below the threshold the share is added to
  // its remainder and nothing is paid; from the threshold on all of it is paid out to the
  // consignor's own address, in one payment.
  ghost predicate PaidRight(c: Consignee, d: Consignee, pays: seq<Pay>, i: nat, share: int, mp: MineParam)
    requires i < |c.consignors| == |d.consignors|
  {
    var cr, dr, gross := c.consignors[i], d.consignors[i], c.consignors[i].remainReward + share;
    var paid := RewardsTo(pays, cr.address);
    && dr.reward == cr.reward + share
    && if cr.amount == 0 || gross < mp.rewardTransfer then dr.remainReward == gross && paid == []
       else dr.remainReward == 0 && |paid| == 1 && paid[0].consignee == c.address && paid[0].amount + paid[0].fee == gross
  }

  lemma OnePay(p: Pay, e: Addr, r: Addr)
    ensures RewardsTo([p], r) == if !p.isFee && p.payee == r then [p] else []
    ensures DrawnBy([p], e, r) == if p.consignee == e && !p.isFee && p.payee == r then p.amount + p.fee else 0
    ensures Withheld([p], e) == if p.consignee == e then p.fee else 0
    ensures PaidBy([p], e, true) == if p.consignee == e && p.isFee then p.amount else 0
  {
    assert [p][1..] == [];
  }

  lemma TwoPays(p: Pay, f: Pay, e: Addr, r: Addr)
    requires f.isFee
    ensures RewardsTo([p, f], r) == RewardsTo([p], r) && Withheld([p, f], e) == Withheld([p], e) + Withheld([f], e)
    ensures PaidBy([p, f], e, true) == PaidBy([p], e, true) + PaidBy([f], e, true)
  {
    assert [p, f] == [p] + [f];
    PayoutsConcat([p], [f], e, r);
    PaysConcat([p], [f], e, true);
    OnePay(f, e, r);
  }

  // A turn makes no payment, one of a reward, or one of a reward and one of fees.
  lemma TurnMakes(turn: seq<Pay>, e: Addr, r: Addr)
    requires |turn| <= 2 && (|turn| == 2 ==> turn[1].isFee) && forall p | p in turn :: p.consignee == e
    ensures RewardsTo(turn, r) == if |turn| == 0 then [] else RewardsTo([turn[0]], r)
    ensures Withheld(turn, e) == (if |turn| == 0 then 0 else turn[0].fee) + if |turn| == 2 then turn[1].fee else 0
    ensures PaidBy(turn, e, true) == (if |turn| > 0 && turn[0].isFee then turn[0].amount else 0) + if |turn| == 2 then turn[1].amount else 0
  {
    if |turn| > 0 { OnePay(turn[0], e, r); }
    if |turn| == 1 { assert turn == [turn[0]]; }
    if |turn| == 2 {
      assert turn == [turn[0], turn[1]];
      TwoPays(turn[0], turn[1], e, r);
      OnePay(turn[1], e, r);
    }
  }

  // A turn of the loop is about one consignor.
  lemma TurnPays(c: Consignee, i: nat, pool: int, total: int, mp: MineParam)
    requires mp.Valid() && i < |c.consignors|
    ensures var q := CreditOne(c, i, pool, total, mp);
      && |q.rec.consignors| == |c.consignors|
      && PaidRight(c, q.rec, q.pays, i, ShareOf(c.consignors[i].amount, pool, total, mp), mp)
      && (forall r | r != c.consignors[i].address :: RewardsTo(q.pays, r) == [])
      && (forall k | 0 <= k < |c.consignors| && k != i :: q.rec.consignors[k] == c.consignors[k])
  {
    var q := CreditOne(c, i, pool, total, mp);
    assert c.consignors[i].amount == 0 ==> ShareOf(c.consignors[i].amount, pool, total, mp) == 0;
    hide ShareOf, Fee, RewardsTo;
    forall r: Addr ensures RewardsTo(q.pays, r) == if |q.pays| > 0 && r == c.consignors[i].address then [q.pays[0]] else [] {
      TurnMakes(q.pays, c.address, r);
      if |q.pays| > 0 { OnePay(q.pays[0], c.address, r); }
    }
  }

  lemma TurnFees(c: Consignee, i: nat, pool: int, total: int, mp: MineParam)
    requires mp.Valid() && i < |c.consignors| && 0 <= c.feePercent
    ensures var q := CreditOne(c, i, pool, total, mp);
      && q.rec.feeReward == c.feeReward + Withheld(q.pays, c.address)
      && (forall p | p in q.pays :: p.consignee == c.address && RightPay(p, c.feePercent, mp))
      && (forall p | p in q.pays && !p.isFee :: p.payee == c.consignors[i].address)
  {
    hide ShareOf, Fee, Withheld;
    var q := CreditOne(c, i, pool, total, mp);
    var gross := c.consignors[i].remainReward + ShareOf(c.consignors[i].amount, pool, total, mp);
    TurnMakes(q.pays, c.address, 0);
    if gross > 0 { FeeRoundedDown(gross, c.feePercent); }
  }

  lemma FeeRoundedDown(gross: int, feePercent: int)
    requires gross > 0 && feePercent >= 0
    ensures 100 * Fee(gross, feePercent) <= gross * feePercent < 100 * Fee(gross, feePercent) + 100
  {
    assert gross * feePercent >= 0;
  }

  lemma LookupAt(xs: seq<Entry>, i: nat)
    requires i < |xs|
    ensures Lookup(xs, xs[i].address).Some?
  {
  }

  lemma OtherAddress(c: Consignee, d: Consignee, i: nat, j: nat)
    requires SameStakes(c, d) && Distinct(Pairs(c.consignors)) && i < |c.consignors| && j < |c.consignors| && i != j
    ensures c.consignors[i].address != d.consignors[j].address
  {
    assert Pairs(d.consignors)[j] == Pairs(c.consignors)[j];
    assert Pairs(c.consignors)[i].address != Pairs(c.consignors)[j].address;
  }

  lemma StaysPaid(c: Consignee, p: Consignee, pays: seq<Pay>, q: Consignee, turn: seq<Pay>, i: nat, share: int, mp: MineParam)
    requires i < |c.consignors| == |p.consignors| == |q.consignors| && PaidRight(c, p, pays, i, share, mp)
    requires q.consignors[i] == p.consignors[i]
    requires RewardsTo(pays + turn, c.consignors[i].address) == RewardsTo(pays, c.consignors[i].address) + []
    ensures PaidRight(c, q, pays + turn, i, share, mp)
  {
    hide RewardsTo;
  }

  lemma JustPaid(c: Consignee, p: Consignee, pays: seq<Pay>, q: Consignee, turn: seq<Pay>, i: nat, share: int, mp: MineParam)
    requires i < |c.consignors| == |p.consignors| == |q.consignors| && PaidRight(p, q, turn, i, share, mp)
    requires p.consignors[i] == c.consignors[i] && p.address == c.address
    requires RewardsTo(pays + turn, c.consignors[i].address) == [] + RewardsTo(turn, c.consignors[i].address)
    ensures PaidRight(c, q, pays + turn, i, share, mp)
  {
    hide RewardsTo;
  }

  // A pass over the first k consignors pays each of them right and nobody else.
  lemma {:induction false} FirstPaid(c: Consignee, k: nat, pool: int, total: int, mp: MineParam, i: nat)
    requires mp.Valid() && k <= |c.consignors| && i < |c.consignors| && Distinct(Pairs(c.consignors))
    ensures var r := CreditFirst(c, k, pool, total, mp);
      if i < k then PaidRight(c, r.rec, r.pays, i, ShareOf(c.consignors[i].amount, pool, total, mp), mp)
      else r.rec.consignors[i] == c.consignors[i] && RewardsTo(r.pays, c.consignors[i].address) == []
  {
    hide *;
    if k == 0 {
      FirstNone(c, pool, total, mp, i);
    } else {
      var share := ShareOf(c.consignors[i].amount, pool, total, mp);
      var p := CreditFirst(c, k - 1, pool, total, mp);
      FirstNext(c, k, pool, total, mp, i);
      FirstPaid(c, k - 1, pool, total, mp, i);
      TurnPays(p.rec, k - 1, pool, total, mp);
      PaidStep(c, p.rec, p.pays, CreditOne(p.rec, k - 1, pool, total, mp).rec, CreditOne(p.rec, k - 1, pool, total, mp).pays, k - 1, i, share, mp);
    }
  }

  lemma PaidStep(c: Consignee, p: Consignee, pays: seq<Pay>, q: Consignee, turn: seq<Pay>, j: nat, i: nat, share: int, mp: MineParam)
    requires SameStakes(c, p) && Distinct(Pairs(c.consignors)) && j < |c.consignors| == |p.consignors| == |q.consignors| && i < |c.consignors|
    requires if i < j then PaidRight(c, p, pays, i, share, mp) else p.consignors[i] == c.consignors[i] && RewardsTo(pays, c.consignors[i].address) == []
    requires i == j ==> PaidRight(p, q, turn, i, share, mp)
    requires i != j ==> q.consignors[i] == p.consignors[i]
    requires forall r | r != p.consignors[j].address :: RewardsTo(turn, r) == []
    ensures if i <= j then PaidRight(c, q, pays + turn, i, share, mp)
      else q.consignors[i] == c.consignors[i] && RewardsTo(pays + turn, c.consignors[i].address) == []
  {
    PayoutsConcat(pays, turn, 0, c.consignors[i].address);
    if i != j { OtherAddress(c, p, i, j); }
    hide PaidRight, RewardsTo, Distinct, Pairs;
    if i < j {
      StaysPaid(c, p, pays, q, turn, i, share, mp);
    } else if i == j {
      JustPaid(c, p, pays, q, turn, i, share, mp);
    }
  }

  lemma FirstNone(c: Consignee, pool: int, total: int, mp: MineParam, i: nat)
    requires mp.Valid() && i < |c.consignors|
    ensures CreditFirst(c, 0, pool, total, mp) == Credited(c, []) && RewardsTo([], c.consignors[i].address) == []
  {
  }

  lemma FirstNext(c: Consignee, k: nat, pool: int, total: int, mp: MineParam, i: nat)
    requires mp.Valid() && 0 < k <= |c.consignors| && i < |c.consignors|
    ensures var p := CreditFirst(c, k - 1, pool, total, mp);
      && SameStakes(c, p.rec) && |p.rec.consignors| == |c.consignors| && p.rec.address == c.address
      && (i >= k - 1 ==> p.rec.consignors[i] == c.consignors[i])
      && var q := CreditOne(p.rec, k - 1, pool, total, mp);
         CreditFirst(c, k, pool, total, mp) == Credited(q.rec, p.pays + q.pays)
  {
    hide CreditOne;
    var p := CreditFirst(c, k - 1, pool, total, mp);
    if i >= k - 1 { assert p.rec.consignors[k - 1..][i - (k - 1)] == c.consignors[k - 1..][i - (k - 1)]; }
  }

  ghost predicate RightPays(pays: seq<Pay>, c: Consignee, mp: MineParam) {
    forall p | p in pays ::
      p.consignee == c.address && RightPay(p, c.feePercent, mp) && (!p.isFee ==> Lookup(Pairs(c.consignors), p.payee).Some?)
  }

  lemma {:induction false} FirstFees(c: Consignee, k: nat, pool: int, total: int, mp: MineParam)
    requires mp.Valid() && k <= |c.consignors| && 0 <= c.feePercent
    ensures var r := CreditFirst(c, k, pool, total, mp);
      r.rec.feeReward == c.feeReward + Withheld(r.pays, c.address) && RightPays(r.pays, c, mp)
  {
    if k > 0 {
      hide CreditOne, ShareOf, RightPay;
      var p := CreditFirst(c, k - 1, pool, total, mp);
      var q := CreditOne(p.rec, k - 1, pool, total, mp);
      FirstFees(c, k - 1, pool, total, mp);
      TurnFees(p.rec, k - 1, pool, total, mp);
      PayoutsConcat(p.pays, q.pays, c.address, 0);
      assert Pairs(p.rec.consignors)[k - 1].address == c.consignors[k - 1].address;
      LookupAt(Pairs(c.consignors), k - 1);
    }
  }

  // Consignor i of a record rewarded from one pool, whoever else the record lists.
  lemma PassPays(c: Consignee, pool: int, mp: MineParam, i: nat)
    requires mp.Valid() && i < |c.consignors| && Distinct(Pairs(c.consignors)) && 0 <= c.feePercent && c.amount != 0
    ensures var r := CreditPass(c, pool, mp);
      PaidRight(c, r.rec, r.pays, i, ShareOf(c.consignors[i].amount, pool, Tickets(c.amount, mp), mp), mp) && RightPays(r.pays, c, mp)
  {
    hide CreditFirst, ShareOf, PaidRight;
    FirstPaid(c, |c.consignors|, pool, Tickets(c.amount, mp), mp, i);
    FirstFees(c, |c.consignors|, pool, Tickets(c.amount, mp), mp);
  }

  // Each turn of a pass adds the fee it withholds to the fee remainder, and pays that out
  // whole as soon as it has reached ten thresholds.
  lemma FeePaidWhole(c: Consignee, k: nat, pool: int, total: int, mp: MineParam) returns (turn: seq<Pay>)
    requires mp.Valid() && k < |c.consignors|
    requires BelowThreshold(c, mp)
    ensures var p, q := CreditFirst(c, k, pool, total, mp), CreditFirst(c, k + 1, pool, total, mp);
            var remain := p.rec.remainFeeReward + Withheld(turn, c.address);
      && q.pays == p.pays + turn
      && if remain >= mp.rewardTransfer * 10 then q.rec.remainFeeReward == 0 && PaidBy(turn, c.address, true) == remain
         else q.rec.remainFeeReward == remain && PaidBy(turn, c.address, true) == 0
  {
    hide ShareOf, Fee, Withheld, PaidBy;
    var p := CreditFirst(c, k, pool, total, mp);
    CreditFirstBelow(c, k, pool, total, mp);
    turn := CreditOne(p.rec, k, pool, total, mp).pays;
    TurnMakes(turn, c.address, 0);
  }

  // ---- One block ----

  // The payments through e's record.
  function PaysOf(pays: seq<Pay>, e: Addr): seq<Pay> {
    if pays == [] then [] else (if pays[0].consignee == e then [pays[0]] else []) + PaysOf(pays[1..], e)
  }

  lemma PaysOfNext(pays: seq<Pay>, e: Addr)
    requires pays != []
    ensures PaysOf(pays, e) == (if pays[0].consignee == e then [pays[0]] else []) + PaysOf(pays[1..], e)
  {
  }

  lemma {:induction false} PaysOfConcat(p: seq<Pay>, q: seq<Pay>, e: Addr)
    ensures PaysOf(p + q, e) == PaysOf(p, e) + PaysOf(q, e)
  {
    if p == [] {
      assert p + q == q && [] + PaysOf(q, e) == PaysOf(q, e);
    } else {
      PaysOfNext(p, e);
      PaysOfNext(p + q, e);
      hide PaysOf;
      assert (p + q)[1..] == p[1..] + q;
      PaysOfConcat(p[1..], q, e);
      Regroup(if p[0].consignee == e then [p[0]] else [], PaysOf(p[1..], e), PaysOf(q, e));
    }
  }

  lemma Regroup(x: seq<Pay>, y: seq<Pay>, z: seq<Pay>)
    ensures x + (y + z) == x + y + z
  {
  }

  lemma {:induction false} PaysOfAll(pays: seq<Pay>, a: Addr, e: Addr)
    requires forall p | p in pays :: p.consignee == a
    ensures PaysOf(pays, e) == if a == e then pays else []
  {
    if pays != [] {
      assert forall p | p in pays[1..] :: p in pays;
      PaysOfAll(pays[1..], a, e);
    }
  }

  lemma PassConsignee(c: Consignee, pool: int, mp: MineParam)
    requires mp.Valid()
    ensures forall p | p in CreditPass(c, pool, mp).pays :: p.consignee == c.address
  {
    if c.amount != 0 { CreditFirstAccounted(c, |c.consignors|, pool, Tickets(c.amount, mp), mp); }
  }

  // What one record goes through in a pass for so many votes.
  function Rewarded(c: Consignee, once: bool, pool: int, mp: MineParam): Credited
    requires mp.Valid()
  {
    if once then CreditPass(c, pool, mp) else Credited(c, [])
  }

  lemma {:induction false} VotePassOf(es: map<Addr, Consignee>, order: seq<Addr>, voters: seq<Addr>, mp: MineParam, e: Addr)
    requires mp.Valid() && AllKnown(es, Elements(order)) && NoDuplicates(order) && RecordsKeyed(es) && e in es
    ensures var r := VotePass(es, order, voters, mp);
            var one := Rewarded(es[e], e in order && VotesOf(voters, e) > 0, Prod(mp.voteReward, VotesOf(voters, e)), mp);
      e in r.es && r.es[e] == one.rec && PaysOf(r.pays, e) == one.pays
    decreases |order|
  {
    hide CreditPass, Prod, VotesOf, RecordsKeyed;
    if order != [] {
      var init, a := order[..|order| - 1], order[|order| - 1];
      KnownInit(es, order);
      VotePassOf(es, init, voters, mp, e);
      assert order == init + [a] && a !in init;
      var p, n := VotePass(es, init, voters, mp), VotesOf(voters, a);
      if n != 0 {
        var c := CreditPass(p.es[a], Prod(mp.voteReward, n), mp);
        StillKeyed(es, p.es);
        KeyedAt(p.es, a);
        PassConsignee(p.es[a], Prod(mp.voteReward, n), mp);
        PaysOfConcat(p.pays, c.pays, e);
        PaysOfAll(c.pays, a, e);
      }
    }
  }

  lemma KeyedAt(es: map<Addr, Consignee>, e: Addr)
    requires RecordsKeyed(es) && e in es
    ensures es[e].address == e
  {
  }

  // In a block each record is rewarded for its own votes first, from the voters' pool, and
  // then, if it is the maker's, from the maker's pool, whoever else is rewarded in between.
  lemma BlockPaysInTurn(es: map<Addr, Consignee>, voters: seq<Addr>, maker: Addr, mp: MineParam, e: Addr)
    requires mp.Valid() && AllKnown(es, Names(voters, maker)) && RecordsKeyed(es) && e in es
    ensures var r := BlockPass(es, voters, maker, mp);
            var votes := Rewarded(es[e], e in voters, mp.voteReward * VotesOf(voters, e), mp);
            var made := Rewarded(votes.rec, e == maker, mp.mineReward * |voters|, mp);
      r.es[e] == made.rec && PaysOf(r.pays, e) == votes.pays + made.pays
  {
    hide CreditPass, VotePass, RecordsKeyed, Ascending;
    var order := Ascending(Names(voters, maker));
    VotePassOf(es, order, voters, mp, e);
    Voting(order, voters, maker, e);
    var v, pool := VotePass(es, order, voters, mp), Prod(mp.mineReward, |voters|);
    StillKeyed(es, v.es);
    KeyedAt(v.es, maker);
    PassConsignee(v.es[maker], pool, mp);
    var m := CreditPass(v.es[maker], pool, mp);
    PaysOfConcat(v.pays, m.pays, e);
    PaysOfAll(m.pays, maker, e);
  }

  lemma Voting(order: seq<Addr>, voters: seq<Addr>, maker: Addr, e: Addr)
    requires order == Ascending(Names(voters, maker))
    ensures NoDuplicates(order) && (e in order && VotesOf(voters, e) > 0 <==> e in voters)
  {
    assert e in order <==> e in Elements(order);
  }

  // ---- Over whole runs ----

  // Of every consignor's rewards, what is no longer a remainder has been paid to its own
  // address or withheld as a fee on those payments.
  ghost predicate RecordPaid(e: Addr, c: Consignee, journal: seq<Pay>, mp: MineParam) {
    && c.feePercent == mp.feePercent && c.feeReward == Withheld(journal, e)
    && forall i | 0 <= i < |c.consignors| ::
         c.consignors[i].reward == c.consignors[i].remainReward + DrawnBy(journal, e, Pairs(c.consignors)[i].address)
  }

  // And every payment made is a right one, of a fee or to a consignor of its consignee.
  ghost predicate JournalRight(db: DB, journal: seq<Pay>, mp: MineParam) {
    forall p | p in journal ::
      && p.consignee in db.consignees && RightPay(p, mp.feePercent, mp)
      && (!p.isFee ==> Lookup(ConsignorsOf(db, p.consignee), p.payee).Some?)
  }

  ghost predicate PayoutsRight(db: DB, journal: seq<Pay>, mp: MineParam) {
    (forall e | e in db.consignees :: RecordPaid(e, db.consignees[e], journal, mp)) && JournalRight(db, journal, mp)
  }

  lemma {:induction false} RewardsAre(pays: seq<Pay>, r: Addr)
    ensures forall p | p in RewardsTo(pays, r) :: p in pays && !p.isFee && p.payee == r
  {
    if pays != [] {
      RewardsAre(pays[1..], r);
      assert forall p | p in pays[1..] :: p in pays;
    }
  }

  lemma {:induction false} DrawnIs(pays: seq<Pay>, e: Addr, r: Addr)
    requires forall p | p in pays :: p.consignee == e
    ensures DrawnBy(pays, e, r) == DrawnBy(RewardsTo(pays, r), e, r)
  {
    if pays != [] {
      PayoutsNext(pays, e, r);
      OnePay(pays[0], e, r);
      hide RewardsTo, DrawnBy;
      assert forall p | p in pays[1..] :: p in pays;
      DrawnIs(pays[1..], e, r);
      var rest := RewardsTo(pays[1..], r);
      if !pays[0].isFee && pays[0].payee == r {
        PayoutsConcat([pays[0]], rest, e, r);
      } else {
        assert [] + rest == rest;
      }
    }
  }

  // Payments by others are not e's.
  lemma {:induction false} NotDrawn(pays: seq<Pay>, e: Addr, r: Addr)
    requires forall p | p in pays :: p.consignee != e || (!p.isFee && p.payee != r) || p.isFee
    ensures DrawnBy(pays, e, r) == 0
    ensures (forall p | p in pays :: p.consignee != e) ==> Withheld(pays, e) == 0
  {
    if pays != [] { NotDrawn(pays[1..], e, r); }
  }

  lemma PassDrawn(c: Consignee, pool: int, mp: MineParam, i: nat)
    requires mp.Valid() && i < |c.consignors| && Distinct(Pairs(c.consignors)) && 0 <= c.feePercent
    ensures var r := CreditPass(c, pool, mp); var cr, dr := c.consignors[i], r.rec.consignors[i];
      dr.reward - dr.remainReward == cr.reward - cr.remainReward + DrawnBy(r.pays, c.address, cr.address)
  {
    if c.amount != 0 {
      hide CreditFirst, ShareOf;
      PassPays(c, pool, mp, i);
      var r := CreditPass(c, pool, mp);
      var paid := RewardsTo(r.pays, c.consignors[i].address);
      DrawnIs(r.pays, c.address, c.consignors[i].address);
      RewardsAre(r.pays, c.consignors[i].address);
      PassFees(c, pool, mp);
      if |paid| == 1 { assert paid[0] in paid && paid[1..] == []; }
    }
  }

  lemma PassFees(c: Consignee, pool: int, mp: MineParam)
    requires mp.Valid() && 0 <= c.feePercent
    ensures var r := CreditPass(c, pool, mp);
      r.rec.feeReward == c.feeReward + Withheld(r.pays, c.address) && RightPays(r.pays, c, mp)
  {
    hide RightPay;
    if c.amount != 0 { FirstFees(c, |c.consignors|, pool, Tickets(c.amount, mp), mp); }
  }

  lemma RecordStaysPaid(e: Addr, c: Consignee, journal: seq<Pay>, pool: int, mp: MineParam)
    requires mp.Valid() && c.address == e && Distinct(Pairs(c.consignors)) && RecordPaid(e, c, journal, mp)
    ensures var r := CreditPass(c, pool, mp); RecordPaid(e, r.rec, journal + r.pays, mp)
  {
    var r := CreditPass(c, pool, mp);
    PassFees(c, pool, mp);
    PayoutsConcat(journal, r.pays, e, 0);
    hide CreditPass, DrawnBy, Withheld, RightPays;
    forall i | 0 <= i < |r.rec.consignors|
      ensures r.rec.consignors[i].reward == r.rec.consignors[i].remainReward + DrawnBy(journal + r.pays, e, Pairs(r.rec.consignors)[i].address)
    {
      PassDrawn(c, pool, mp, i);
      assert Pairs(r.rec.consignors)[i] == Pairs(c.consignors)[i];
      PayoutsConcat(journal, r.pays, e, c.consignors[i].address);
    }
  }

  lemma OthersStayPaid(e: Addr, c: Consignee, journal: seq<Pay>, pays: seq<Pay>, mp: MineParam)
    requires RecordPaid(e, c, journal, mp) && forall p | p in pays :: p.consignee != e
    ensures RecordPaid(e, c, journal + pays, mp)
  {
    NotDrawn(pays, e, 0);
    PayoutsConcat(journal, pays, e, 0);
    hide DrawnBy, Withheld;
    forall i | 0 <= i < |c.consignors|
      ensures c.consignors[i].reward == c.consignors[i].remainReward + DrawnBy(journal + pays, e, Pairs(c.consignors)[i].address)
    {
      NotDrawn(pays, e, c.consignors[i].address);
      PayoutsConcat(journal, pays, e, c.consignors[i].address);
    }
  }

  ghost predicate RecordsKeyed(es: map<Addr, Consignee>) {
    forall e | e in es :: es[e].address == e && Distinct(Pairs(es[e].consignors))
  }

  lemma CreditKeepsPayouts(db: DB, journal: seq<Pay>, a: Addr, pool: int, mp: MineParam)
    requires mp.Valid() && a in db.consignees && RecordsKeyed(db.consignees) && PayoutsRight(db, journal, mp)
    ensures var c := CreditPass(db.consignees[a], pool, mp);
      PayoutsRight(db.(consignees := db.consignees[a := c.rec]), journal + c.pays, mp)
  {
    var d := db.consignees[a];
    var c := CreditPass(d, pool, mp);
    assert RecordPaid(a, d, journal, mp);
    RecordStaysPaid(a, d, journal, pool, mp);
    PassFees(d, pool, mp);
    hide RecordPaid, CreditPass, RightPay, Withheld;
    forall e | e in db.consignees ensures RecordPaid(e, db.consignees[a := c.rec][e], journal + c.pays, mp) {
      if e != a { OthersStayPaid(e, db.consignees[e], journal, c.pays, mp); }
    }
    hide Lookup;
    assert JournalRight(db.(consignees := db.consignees[a := c.rec]), journal + c.pays, mp);
  }

  lemma {:induction false} VotePassKeepsPayouts(db: DB, journal: seq<Pay>, order: seq<Addr>, voters: seq<Addr>, mp: MineParam)
    requires mp.Valid() && RecordsKeyed(db.consignees) && AllKnown(db.consignees, Elements(order)) && PayoutsRight(db, journal, mp)
    ensures var r := VotePass(db.consignees, order, voters, mp);
      PayoutsRight(db.(consignees := r.es), journal + r.pays, mp)
    decreases |order|
  {
    hide PayoutsRight, CreditPass, Prod, VotesOf;
    if order == [] {
      assert journal + [] == journal && db.(consignees := db.consignees) == db;
    } else {
      var init, a := order[..|order| - 1], order[|order| - 1];
      KnownInit(db.consignees, order);
      VotePassKeepsPayouts(db, journal, init, voters, mp);
      var p, n := VotePass(db.consignees, init, voters, mp), VotesOf(voters, a);
      if n != 0 {
        var db1, pool := db.(consignees := p.es), Prod(mp.voteReward, n);
        StillKeyed(db.consignees, p.es);
        CreditKeepsPayouts(db1, journal + p.pays, a, pool, mp);
        var c := CreditPass(p.es[a], pool, mp);
        assert journal + p.pays + c.pays == journal + (p.pays + c.pays);
      }
    }
  }

  lemma StillKeyed(es: map<Addr, Consignee>, fs: map<Addr, Consignee>)
    requires RecordsKeyed(es) && SameRecords(es, fs)
    ensures RecordsKeyed(fs)
  {
    forall e | e in fs ensures fs[e].address == e && Distinct(Pairs(fs[e].consignors)) {
      assert SameStakes(es[e], fs[e]);
    }
  }

  lemma BlockPassKeepsPayouts(db: DB, journal: seq<Pay>, voters: seq<Addr>, maker: Addr, mp: MineParam)
    requires mp.Valid() && RecordsKeyed(db.consignees) && AllKnown(db.consignees, Names(voters, maker)) && PayoutsRight(db, journal, mp)
    ensures var r := BlockPass(db.consignees, voters, maker, mp);
      PayoutsRight(db.(consignees := r.es), journal + r.pays, mp)
  {
    hide PayoutsRight, CreditPass, Prod, VotePass, RecordsKeyed, Ascending;
    var order := Ascending(Names(voters, maker));
    VotePassKeepsPayouts(db, journal, order, voters, mp);
    var v, pool := VotePass(db.consignees, order, voters, mp), Prod(mp.mineReward, |voters|);
    StillKeyed(db.consignees, v.es);
    hide Names, SameRecords, AllKnown;
    CreditKeepsPayouts(db.(consignees := v.es), journal + v.pays, maker, pool, mp);
    Regroup(journal, v.pays, CreditPass(v.es[maker], pool, mp).pays);
  }

  // An entrust adds a consignor with nothing earned, who has never been paid, or none.
  lemma EntrustKeepsPayouts(db: DB, mp: MineParam, m: EntrustMsg, journal: seq<Pay>)
    requires PayoutsRight(db, journal, mp)
    ensures PayoutsRight(EntrustedDB(db, mp, m), journal, mp)
  {
    var db' := EntrustedDB(db, mp, m);
    EntrustedRecordPaid(db, mp, m, journal);
    EntrustedOthers(db, mp, m);
    hide RecordPaid, RightPay, Lookup, EntrustedDB, ConsignorsOf;
    forall p | p in journal && !p.isFee ensures Lookup(ConsignorsOf(db', p.consignee), p.payee).Some? {
      StillListed(db, mp, m, p.consignee, p.payee);
    }
  }

  lemma EntrustedOthers(db: DB, mp: MineParam, m: EntrustMsg)
    ensures var db' := EntrustedDB(db, mp, m);
      db'.consignees.Keys == db.consignees.Keys + {m.consignee} && forall e | e in db.consignees && e != m.consignee :: db'.consignees[e] == db.consignees[e]
  {
  }

  lemma StillListed(db: DB, mp: MineParam, m: EntrustMsg, e: Addr, r: Addr)
    requires Lookup(ConsignorsOf(db, e), r).Some?
    ensures Lookup(ConsignorsOf(EntrustedDB(db, mp, m), e), r).Some?
  {
    EntrustedLists(db, mp, m, 0, e);
    SetEntryLookup(ConsignorsOf(db, e), m.consignor, StakeOf(db, m.consignor, m.consignee) + m.amount, r);
    hide Lookup, EntrustedDB, ConsignorsOf, SetEntry;
  }

  lemma EntrustedRecordPaid(db: DB, mp: MineParam, m: EntrustMsg, journal: seq<Pay>)
    requires PayoutsRight(db, journal, mp)
    ensures RecordPaid(m.consignee, EntrustedDB(db, mp, m).consignees[m.consignee], journal, mp)
  {
    var e, c := m.consignee, LoadConsignee(db, m.consignee, mp.feePercent);
    var c' := EntrustedDB(db, mp, m).consignees[e];
    assert RecordPaid(e, c, journal, mp) by {
      if e !in db.consignees { NotDrawn(journal, e, 0); }
    }
    var at := Position(Pairs(c.consignors), m.consignor);
    if at == |c.consignors| { NeverPaid(db, mp, m, journal); }
    hide DrawnBy, Withheld, RightPay;
    forall i | 0 <= i < |c'.consignors|
      ensures c'.consignors[i].reward == c'.consignors[i].remainReward + DrawnBy(journal, e, Pairs(c'.consignors)[i].address)
    {
      if i < |c.consignors| { assert Pairs(c'.consignors)[i].address == Pairs(c.consignors)[i].address; }
    }
  }

  lemma NeverPaid(db: DB, mp: MineParam, m: EntrustMsg, journal: seq<Pay>)
    requires PayoutsRight(db, journal, mp)
    requires var c := LoadConsignee(db, m.consignee, mp.feePercent); Position(Pairs(c.consignors), m.consignor) == |c.consignors|
    ensures DrawnBy(journal, m.consignee, m.consignor) == 0
  {
    hide RecordPaid, RightPay, DrawnBy;
    forall p | p in journal && p.consignee == m.consignee && !p.isFee ensures p.payee != m.consignor {
      assert Lookup(ConsignorsOf(db, p.consignee), p.payee).Some?;
    }
    NotDrawn(journal, m.consignee, m.consignor);
  }

  lemma KeyedSound(l: Ledger)
    requires StakeInv(l.db, l.coins)
    ensures RecordsKeyed(l.db.consignees)
  {
    forall e | e in l.db.consignees ensures l.db.consignees[e].address == e && Distinct(Pairs(l.db.consignees[e].consignors)) {
      assert ConsigneeInv(e, l.db.consignees[e]);
    }
  }

  lemma MinedKeepsPayouts(cfg: Config, s: State, maker: Addr, keys: seq<nat>, index: int)
    requires cfg.mp.Valid() && StakeInv(s.ledger.db, s.ledger.coins) && PayoutsRight(s.ledger.db, s.journal, cfg.mp)
    requires MinedBlock(s.ledger, s.bls, cfg.exec, cfg.fund, cfg.mp, maker, keys, index).Some?
    ensures var r := MinedBlock(s.ledger, s.bls, cfg.exec, cfg.fund, cfg.mp, maker, keys, index).value;
      PayoutsRight(r.ledger.db, s.journal + r.pays, cfg.mp)
  {
    hide *;
    KeyedSound(s.ledger);
    MinedConditions(s.ledger, s.bls, cfg.exec, cfg.fund, cfg.mp, maker, keys, index);
    MinedParts(s.ledger, s.bls, cfg.exec, cfg.fund, cfg.mp, maker, keys, index);
    BlockPassKeepsPayouts(s.ledger.db, s.journal, VotersOf(s.bls, keys), maker, cfg.mp);
  }

  lemma StepKeepsPayouts(cfg: Config, s: State, tx: Tx, s': State)
    requires cfg.mp.Valid() && LedgerInv(cfg, s) && PayoutsRight(s.ledger.db, s.journal, cfg.mp) && Step(cfg, s, tx, s')
    ensures PayoutsRight(s'.ledger.db, s'.journal, cfg.mp)
  {
    hide StakeInv, Books, PayoutsRight, EntrustedDB, MinedBlock, CoinsMoved;
    match tx
    case Entrust(height, from, msg) => EntrustKeepsPayouts(s.ledger.db, cfg.mp, msg, s.journal);
    case Miner(maker, keys, index) =>
      if MinedBlock(s.ledger, s.bls, cfg.exec, cfg.fund, cfg.mp, maker, keys, index).Some? {
        MinedKeepsPayouts(cfg, s, maker, keys, index);
      }
    case BlsBind(_, _, _, _) =>
    case MoveCoins(_) =>
  }

  lemma NobodyPaid(cfg: Config, s: State)
    requires Initial(cfg, s)
    ensures PayoutsRight(s.ledger.db, s.journal, cfg.mp)
  {
  }

  // After every prefix of every run: whatever a consignor has earned is still its remainder
  // or has been paid to its own address, less the fee; each such payment was due, with the
  // fee the rules set; and each fee payment went to the consignee.
  lemma {:induction false} PayoutsOnRuns(cfg: Config, states: seq<State>, txs: seq<Tx>, n: nat)
    requires IsRun(cfg, states, txs) && n <= |txs|
    ensures PayoutsRight(states[n].ledger.db, states[n].journal, cfg.mp)
  {
    hide Step, PayoutsRight, LedgerInv, Initial, MineParam.Valid;
    if n == 0 {
      NobodyPaid(cfg, states[0]);
    } else {
      PayoutsOnRuns(cfg, states, txs, n - 1);
      LedgerInvOnRuns(cfg, states, txs, n - 1);
      assert Step(cfg, states[n - 1], txs[n - 1], states[n]);
      StepKeepsPayouts(cfg, states[n - 1], txs[n - 1], states[n]);
    }
  }

  // ---- Balances of everybody else ----

  function ReceivedBy(pays: seq<Pay>, a: Addr): int
    decreases |pays|
  {
    if pays == [] then 0 else
      var last := pays[|pays| - 1];
      ReceivedBy(pays[..|pays| - 1], a) + if last.payee == a then last.amount else 0
  }

  lemma {:induction false} PaysReceived(c: Accounts, exec: Addr, pays: seq<Pay>, a: Addr)
    requires ApplyPays(c, exec, pays).Some?
    ensures var d := ApplyPays(c, exec, pays).value;
      && (a != exec ==> d.Main(a) == c.Main(a) + ReceivedBy(pays, a))
      && SumMap(d.main) == SumMap(c.main)
    decreases |pays|
  {
    if pays != [] {
      var init, last := pays[..|pays| - 1], pays[|pays| - 1];
      PaysReceived(c, exec, init, a);
      hide SumMap;
      TransferMoves(ApplyPays(c, exec, init).value, exec, last.payee, last.amount, a);
    }
  }

  lemma TransferMoves(c: Accounts, from: Addr, to: Addr, amount: int, a: Addr)
    requires Transferred(c, from, to, amount).Some?
    ensures var d := Transferred(c, from, to, amount).value;
      && d.Main(a) == c.Main(a) + (if a == to then amount else 0) - (if a == from then amount else 0)
      && SumMap(d.main) == SumMap(c.main)
  {
    CreditTotal(c, from, -amount);
    CreditTotal(c.Credit(from, -amount), to, amount);
    hide SumMap;
  }

  lemma CreditTotal(c: Accounts, a: Addr, amount: int)
    ensures SumMap(c.Credit(a, amount).main) == SumMap(c.main) + amount
  {
    SumMapUpdate(c.main, a, c.Main(a) + amount);
  }

  // An accepted block, on any ledger: every account but the executor's gains exactly the
  // payments made to it, the fund also its share, and all main balances together the issue.
  lemma BlockReceived(l: Ledger, bls: map<nat, Addr>, exec: Addr, fund: Addr, mp: MineParam, maker: Addr, keys: seq<nat>, index: int, a: Addr)
    requires mp.Valid() && MinedBlock(l, bls, exec, fund, mp, maker, keys, index).Some?
    ensures var r := MinedBlock(l, bls, exec, fund, mp, maker, keys, index).value;
      && (a != exec ==> r.ledger.coins.Main(a) == l.coins.Main(a) + ReceivedBy(r.pays, a)
                          + if a == fund then mp.blockReward - (mp.voteReward + mp.mineReward) * |keys| else 0)
      && SumMap(r.ledger.coins.main) == SumMap(l.coins.main) + mp.blockReward
  {
    hide BlockPass, ApplyPays, Transferred, Bound, AllKnown, SumMap, ReceivedBy;
    var c0 := Issued(l.coins, exec, mp.blockReward).value;
    var p := BlockPass(l.db.consignees, VotersOf(bls, keys), maker, mp);
    var c1 := ApplyPays(c0, exec, p.pays).value;
    CreditTotal(l.coins, exec, mp.blockReward);
    PaysReceived(c0, exec, p.pays, a);
    TransferMoves(c1, exec, fund, FundReward(mp, |keys|), a);
  }
}
