// The stake records of the pos33 executor and the effect of one entrust transaction
// on them (plugin/dapp/pos33/executor/pos33.go:81-99, 363-473).
module Stake {
  import opened Options
  import opened Sums
  import opened Coins
  import opened Params

  // ---- Lists of (address, amount) pairs ----

  datatype Entry = Entry(address: Addr, amount: int)

  // The first position holding an address, or the length of the list.
  function Position(xs: seq<Entry>, a: Addr): (i: nat)
    ensures i <= |xs| && (i < |xs| ==> xs[i].address == a)
    ensures forall j | 0 <= j < i :: xs[j].address != a
  {
    if xs == [] || xs[0].address == a then 0 else 1 + Position(xs[1..], a)
  }

  function Lookup(xs: seq<Entry>, a: Addr): Option<int> {
    var i := Position(xs, a);
    if i < |xs| then Some(xs[i].amount) else None
  }

  function AmountIn(xs: seq<Entry>, a: Addr): int {
    var v := Lookup(xs, a);
    if v.Some? then v.value else 0
  }

  // Overwrites the entry of an address, appending one when there is none.
  function SetEntry(xs: seq<Entry>, a: Addr, v: int): seq<Entry> {
    var i := Position(xs, a);
    if i < |xs| then xs[i := Entry(a, v)] else xs + [Entry(a, v)]
  }

  function Amounts(xs: seq<Entry>): seq<int> {
    seq(|xs|, i requires 0 <= i < |xs| => xs[i].amount)
  }

  function Total(xs: seq<Entry>): int {
    SumSeq(Amounts(xs))
  }

  ghost predicate Distinct(xs: seq<Entry>) {
    forall i, j | 0 <= i < j < |xs| :: xs[i].address != xs[j].address
  }

  lemma {:induction false} PositionUnique(xs: seq<Entry>, a: Addr, i: nat)
    requires i <= |xs| && (i < |xs| ==> xs[i].address == a)
    requires forall j | 0 <= j < i :: xs[j].address != a
    ensures Position(xs, a) == i
  {
    if i > 0 { PositionUnique(xs[1..], a, i - 1); }
  }

  lemma SetEntryLookup(xs: seq<Entry>, a: Addr, v: int, b: Addr)
    ensures Lookup(SetEntry(xs, a, v), b) == if a == b then Some(v) else Lookup(xs, b)
  {
    var ys, i, p := SetEntry(xs, a, v), Position(xs, a), Position(xs, b);
    if a == b {
      PositionUnique(ys, b, i);
    } else if p < |xs| {
      PositionUnique(ys, b, p);
    } else {
      PositionUnique(ys, b, |ys|);
    }
  }

  lemma SetEntryDistinct(xs: seq<Entry>, a: Addr, v: int)
    requires Distinct(xs)
    ensures Distinct(SetEntry(xs, a, v))
  {
  }

  lemma SetEntryTotal(xs: seq<Entry>, a: Addr, v: int)
    ensures Total(SetEntry(xs, a, v)) == Total(xs) - AmountIn(xs, a) + v
  {
    var i := Position(xs, a);
    if i < |xs| {
      assert Amounts(SetEntry(xs, a, v)) == Amounts(xs)[i := v];
      SumSeqUpdate(Amounts(xs), i, v);
    } else {
      assert Amounts(SetEntry(xs, a, v)) == Amounts(xs) + [v];
      SumSeqConcat(Amounts(xs), [v]);
    }
  }

  // ---- Records ----

  datatype Consignor = Consignor(address: Addr, amount: int, reward: int, remainReward: int)

  datatype Consignee = Consignee(address: Addr, amount: int, feeReward: int, remainFeeReward: int,
                                 feePercent: int, consignors: seq<Consignor>)

  // The executor's database: consignee records, the consignees of each consignor,
  // and the frozen total (absent reads as 0).
  datatype DB = DB(consignees: map<Addr, Consignee>, consignors: map<Addr, seq<Entry>>, all: int)

  function Pairs(cs: seq<Consignor>): (r: seq<Entry>)
    ensures |r| == |cs|
  {
    seq(|cs|, i requires 0 <= i < |cs| => Entry(cs[i].address, cs[i].amount))
  }

  // The consignors of e, and the consignees of r, as (address, amount) lists.
  function ConsignorsOf(db: DB, e: Addr): seq<Entry> {
    if e in db.consignees then Pairs(db.consignees[e].consignors) else []
  }

  function ConsigneesOf(db: DB, r: Addr): seq<Entry> {
    if r in db.consignors then db.consignors[r] else []
  }

  // The abstract stake: what r has entrusted to e.
  function StakeOf(db: DB, r: Addr, e: Addr): int {
    AmountIn(ConsignorsOf(db, e), r)
  }

  ghost function AmountMap(db: DB): map<Addr, int> {
    map e | e in db.consignees :: db.consignees[e].amount
  }

  // What every transaction keeps: each consignee's amount is the sum over its
  // consignors, the two indexes hold the same pairs with the same amounts and no
  // duplicates, the frozen total is the sum over consignees, and each consignor's
  // sum over consignees is its frozen sub-balance.
  ghost predicate ConsigneeInv(e: Addr, c: Consignee) {
    c.address == e && Distinct(Pairs(c.consignors)) && c.amount == Total(Pairs(c.consignors))
  }

  ghost predicate IndexesAgree(db: DB) {
    forall r: Addr, e: Addr :: Lookup(ConsignorsOf(db, e), r) == Lookup(ConsigneesOf(db, r), e)
  }

  ghost predicate FrozenAgrees(db: DB, c: Accounts) {
    forall r: Addr :: c.SubOf(r).frozen == Total(ConsigneesOf(db, r))
  }

  ghost predicate RecordsInv(db: DB) {
    && (forall e | e in db.consignees :: ConsigneeInv(e, db.consignees[e]))
    && (forall r | r in db.consignors :: Distinct(db.consignors[r]))
    && IndexesAgree(db)
    && db.all == SumMap(AmountMap(db))
  }

  ghost predicate StakeInv(db: DB, c: Accounts) {
    RecordsInv(db) && FrozenAgrees(db, c) && c.Valid()
  }

  // ---- One entrust ----

  datatype EntrustMsg = EntrustMsg(consignee: Addr, consignor: Addr, amount: int)

  function LoadConsignee(db: DB, e: Addr, feePercent: int): Consignee {
    if e in db.consignees then db.consignees[e] else Consignee(e, 0, 0, 0, feePercent, [])
  }

  function Added(cs: seq<Consignor>, r: Addr, amount: int): seq<Consignor> {
    var i := Position(Pairs(cs), r);
    if i < |cs| then cs[i := cs[i].(amount := cs[i].amount + amount)] else cs + [Consignor(r, amount, 0, 0)]
  }

  predicate Permitted(db: DB, height: int, from: Addr, m: EntrustMsg) {
    && (height == 0 || from == m.consignor || from == m.consignee)
    && m.amount != 0
    && (m.amount < 0 ==> Lookup(ConsignorsOf(db, m.consignee), m.consignor).Some?)
  }

  function EntrustedDB(db: DB, mp: MineParam, m: EntrustMsg): DB {
    var c := LoadConsignee(db, m.consignee, mp.feePercent);
    var newAmount := StakeOf(db, m.consignor, m.consignee) + m.amount;
    DB(db.consignees[m.consignee := c.(amount := c.amount + m.amount, consignors := Added(c.consignors, m.consignor, m.amount))],
       db.consignors[m.consignor := SetEntry(ConsigneesOf(db, m.consignor), m.consignee, newAmount)],
       db.all + m.amount)
  }

  function Froze(c: Accounts, exec: Addr, a: Addr, amount: int): Option<Accounts> {
    if amount > 0 then Frozen(c, exec, a, amount) else Activated(c, exec, a, -amount)
  }

  datatype Ledger = Ledger(db: DB, coins: Accounts)

  // Pos33Entrust: both the records and the sub-account change, or neither does.
  function Entrusted(l: Ledger, exec: Addr, mp: MineParam, height: int, from: Addr, m: EntrustMsg): Option<Ledger> {
    if !Permitted(l.db, height, from, m) then None
    else
      var c := Froze(l.coins, exec, m.consignor, m.amount);
      if c.None? then None else Some(Ledger(EntrustedDB(l.db, mp, m), c.value))
  }

  const EMPTY := DB(map[], map[], 0)

  // Before the first entrust nothing is frozen.
  lemma EmptyLedgerInv(c: Accounts)
    requires c.Valid() && forall a | a in c.sub :: c.sub[a].frozen == 0
    ensures StakeInv(EMPTY, c)
  {
    assert AmountMap(EMPTY) == map[];
  }

  // ---- What one entrust does to the abstract stake ----

  lemma AddedPairs(cs: seq<Consignor>, r: Addr, amount: int)
    ensures Pairs(Added(cs, r, amount)) == SetEntry(Pairs(cs), r, AmountIn(Pairs(cs), r) + amount)
  {
  }

  lemma EntrustedLists(db: DB, mp: MineParam, m: EntrustMsg, r: Addr, e: Addr)
    ensures var db' := EntrustedDB(db, mp, m); var v := StakeOf(db, m.consignor, m.consignee) + m.amount;
      && ConsignorsOf(db', e) == (if e == m.consignee then SetEntry(ConsignorsOf(db, e), m.consignor, v) else ConsignorsOf(db, e))
      && ConsigneesOf(db', r) == (if r == m.consignor then SetEntry(ConsigneesOf(db, r), m.consignee, v) else ConsigneesOf(db, r))
  {
    AddedPairs(LoadConsignee(db, m.consignee, mp.feePercent).consignors, m.consignor, m.amount);
  }

  // The records refine the step stake[(r, e)] += amount.
  lemma EntrustRefines(db: DB, mp: MineParam, m: EntrustMsg, r: Addr, e: Addr)
    ensures StakeOf(EntrustedDB(db, mp, m), r, e)
         == StakeOf(db, r, e) + if r == m.consignor && e == m.consignee then m.amount else 0
  {
    EntrustedLists(db, mp, m, r, e);
    SetEntryLookup(ConsignorsOf(db, e), m.consignor, StakeOf(db, m.consignor, m.consignee) + m.amount, r);
  }

  lemma IndexesStayAgreed(db: DB, mp: MineParam, m: EntrustMsg)
    requires IndexesAgree(db)
    ensures IndexesAgree(EntrustedDB(db, mp, m))
  {
    var db' := EntrustedDB(db, mp, m);
    var v := StakeOf(db, m.consignor, m.consignee) + m.amount;
    hide Lookup, ConsignorsOf, ConsigneesOf, EntrustedDB, SetEntry, StakeOf;
    forall r: Addr, e: Addr
      ensures Lookup(ConsignorsOf(db', e), r) == Lookup(ConsigneesOf(db', r), e)
    {
      EntrustedLists(db, mp, m, r, e);
      SetEntryLookup(ConsignorsOf(db, e), m.consignor, v, r);
      SetEntryLookup(ConsigneesOf(db, r), m.consignee, v, e);
    }
  }

  lemma EntrustedConsignee(db: DB, mp: MineParam, m: EntrustMsg, e: Addr)
    requires forall x | x in db.consignees :: ConsigneeInv(x, db.consignees[x])
    requires e in EntrustedDB(db, mp, m).consignees
    ensures ConsigneeInv(e, EntrustedDB(db, mp, m).consignees[e])
  {
    if e == m.consignee {
      var c := LoadConsignee(db, e, mp.feePercent);
      assert ConsigneeInv(e, c);
      var ps, v := Pairs(c.consignors), AmountIn(Pairs(c.consignors), m.consignor) + m.amount;
      AddedPairs(c.consignors, m.consignor, m.amount);
      hide SetEntry, SumSeq, Added, Lookup;
      SetEntryDistinct(ps, m.consignor, v);
      SetEntryTotal(ps, m.consignor, v);
    }
  }

  lemma EntrustedTotal(db: DB, mp: MineParam, m: EntrustMsg)
    ensures SumMap(AmountMap(EntrustedDB(db, mp, m))) == SumMap(AmountMap(db)) + m.amount
  {
    var c := LoadConsignee(db, m.consignee, mp.feePercent);
    assert AmountMap(EntrustedDB(db, mp, m)) == AmountMap(db)[m.consignee := c.amount + m.amount];
    SumMapUpdate(AmountMap(db), m.consignee, c.amount + m.amount);
  }

  lemma EntrustedFrozen(l: Ledger, exec: Addr, mp: MineParam, height: int, from: Addr, m: EntrustMsg, r: Addr)
    requires IndexesAgree(l.db) && FrozenAgrees(l.db, l.coins)
    requires Entrusted(l, exec, mp, height, from, m).Some?
    ensures var l' := Entrusted(l, exec, mp, height, from, m).value;
      l'.coins.SubOf(r).frozen == Total(ConsigneesOf(l'.db, r))
  {
    var v := StakeOf(l.db, m.consignor, m.consignee) + m.amount;
    EntrustedLists(l.db, mp, m, r, m.consignee);
    SetEntryTotal(ConsigneesOf(l.db, m.consignor), m.consignee, v);
    assert Lookup(ConsignorsOf(l.db, m.consignee), m.consignor) == Lookup(ConsigneesOf(l.db, m.consignor), m.consignee);
    assert l.coins.SubOf(r).frozen == Total(ConsigneesOf(l.db, r));
  }

  lemma EntrustKeepsRecords(db: DB, mp: MineParam, m: EntrustMsg)
    requires RecordsInv(db)
    ensures RecordsInv(EntrustedDB(db, mp, m))
  {
    var db' := EntrustedDB(db, mp, m);
    IndexesStayAgreed(db, mp, m);
    EntrustedTotal(db, mp, m);
    forall e | e in db'.consignees ensures ConsigneeInv(e, db'.consignees[e]) {
      EntrustedConsignee(db, mp, m, e);
    }
    hide ConsigneeInv, IndexesAgree, SumMap, Lookup, SetEntry;
    forall r | r in db'.consignors ensures Distinct(db'.consignors[r]) {
      if r == m.consignor {
        SetEntryDistinct(ConsigneesOf(db, r), m.consignee, StakeOf(db, r, m.consignee) + m.amount);
      }
    }
  }

  lemma FrozeEffects(c: Accounts, exec: Addr, a: Addr, amount: int)
    requires c.Valid() && Froze(c, exec, a, amount).Some?
    ensures var c' := Froze(c, exec, a, amount).value;
      c'.Valid() && c'.main == c.main && c'.Deposits() == c.Deposits()
  {
    var c' := Froze(c, exec, a, amount).value;
    SubUpdateKeepsDeposits(c, a, c'.SubOf(a));
    assert c' == c.(sub := c.sub[a := c'.SubOf(a)]);
  }

  // Every accepted entrust or un-entrust keeps the ledger invariant, the deposits and
  // the main balances.
  lemma EntrustKeepsStakeInv(l: Ledger, exec: Addr, mp: MineParam, height: int, from: Addr, m: EntrustMsg)
    requires StakeInv(l.db, l.coins)
    requires Entrusted(l, exec, mp, height, from, m).Some?
    ensures var l' := Entrusted(l, exec, mp, height, from, m).value;
      StakeInv(l'.db, l'.coins) && l'.coins.main == l.coins.main && l'.coins.Deposits() == l.coins.Deposits()
  {
    var l' := Entrusted(l, exec, mp, height, from, m).value;
    EntrustKeepsRecords(l.db, mp, m);
    forall r: Addr ensures l'.coins.SubOf(r).frozen == Total(ConsigneesOf(l'.db, r)) {
      EntrustedFrozen(l, exec, mp, height, from, m, r);
    }
    hide RecordsInv, EntrustedDB, Froze;
    FrozeEffects(l.coins, exec, m.consignor, m.amount);
  }

  // Exactly which entrusts are accepted, on any ledger, and what they move: the sender is
  // the consignor or the consignee, except at height 0; an un-entrust names a consignor the
  // consignee lists; and the consignor, who is not the executor, has the amount free to
  // freeze, or frozen to free.
  lemma EntrustAcceptedIff(l: Ledger, exec: Addr, mp: MineParam, height: int, from: Addr, m: EntrustMsg)
    ensures Entrusted(l, exec, mp, height, from, m).Some? <==>
      && (from == m.consignor || from == m.consignee || height == 0)
      && m.amount != 0 && m.consignor != exec
      && if m.amount > 0 then l.coins.SubOf(m.consignor).balance >= m.amount
         else l.coins.SubOf(m.consignor).frozen >= -m.amount && exists i | 0 <= i < |ConsignorsOf(l.db, m.consignee)| :: ConsignorsOf(l.db, m.consignee)[i].address == m.consignor
    ensures var r := Entrusted(l, exec, mp, height, from, m); r.Some? ==> forall a: Addr ::
      var was, now := l.coins.SubOf(a), r.value.coins.SubOf(a);
      if a == m.consignor then now == Sub(was.balance - m.amount, was.frozen + m.amount) else now == was
  {
    hide EntrustedDB;
    var xs := ConsignorsOf(l.db, m.consignee);
    var at := Position(xs, m.consignor);
    assert at < |xs| ==> xs[at].address == m.consignor;
  }

  // ---- Undoing an entrust ----

  ghost predicate SameStake(l: Ledger, l': Ledger) {
    && (forall r: Addr, e: Addr :: StakeOf(l'.db, r, e) == StakeOf(l.db, r, e))
    && (forall e: Addr :: LoadConsignee(l'.db, e, 0).amount == LoadConsignee(l.db, e, 0).amount)
    && l'.db.all == l.db.all
    && l'.coins == l.coins
  }

  // An accepted entrust of a can always be followed by one of -a, which restores every
  // stake, every consignee's amount, the frozen total and all balances.
  lemma EntrustThenBack(l: Ledger, exec: Addr, mp: MineParam, height: int, from: Addr, m: EntrustMsg)
    requires l.coins.Valid()
    requires Entrusted(l, exec, mp, height, from, m).Some?
    ensures var l1 := Entrusted(l, exec, mp, height, from, m).value;
            var back := Entrusted(l1, exec, mp, height, from, m.(amount := -m.amount));
      back.Some? && SameStake(l, back.value)
  {
    var l1 := Entrusted(l, exec, mp, height, from, m).value;
    var b := m.(amount := -m.amount);
    EntrustedLists(l.db, mp, m, m.consignor, m.consignee);
    SetEntryLookup(ConsignorsOf(l.db, m.consignee), m.consignor, StakeOf(l.db, m.consignor, m.consignee) + m.amount, m.consignor);
    CoinsBack(l.coins, exec, m.consignor, m.amount);
    var l2 := Ledger(EntrustedDB(l1.db, mp, b), l.coins);
    assert Entrusted(l1, exec, mp, height, from, b) == Some(l2);
    forall r: Addr, e: Addr ensures StakeOf(l2.db, r, e) == StakeOf(l.db, r, e) {
      EntrustRefines(l.db, mp, m, r, e);
      EntrustRefines(l1.db, mp, b, r, e);
    }
  }

  lemma CoinsBack(c: Accounts, exec: Addr, a: Addr, amount: int)
    requires c.Valid() && amount != 0 && Froze(c, exec, a, amount).Some?
    ensures Froze(Froze(c, exec, a, amount).value, exec, a, -amount) == Some(c)
  {
    var c1 := Froze(c, exec, a, amount).value;
    assert c1.sub[a := c.SubOf(a)] == c.sub;
  }

  // ---- Pairs below zero ----

  ghost predicate NonNegative(db: DB) {
    forall r: Addr, e: Addr :: StakeOf(db, r, e) >= 0
  }

  // Only the consignor's sum is guarded, by the frozen sub-balance. A single pair stays
  // non-negative exactly when the un-entrust is covered by that pair.
  lemma PairCoveredIff(db: DB, mp: MineParam, m: EntrustMsg)
    requires NonNegative(db)
    ensures NonNegative(EntrustedDB(db, mp, m)) <==> StakeOf(db, m.consignor, m.consignee) + m.amount >= 0
  {
    var db' := EntrustedDB(db, mp, m);
    hide StakeOf, EntrustedDB;
    EntrustRefines(db, mp, m, m.consignor, m.consignee);
    forall r: Addr, e: Addr ensures StakeOf(db', r, e)
      == StakeOf(db, r, e) + if r == m.consignor && e == m.consignee then m.amount else 0
    {
      EntrustRefines(db, mp, m, r, e);
    }
  }

  // An un-entrust larger than the pair is accepted as long as the consignor's total
  // frozen balance covers it, and takes the pair below zero.
  lemma OverdrawnPair(l: Ledger, exec: Addr, mp: MineParam, height: int, r: Addr, e: Addr, k: int)
    requires StakeInv(l.db, l.coins) && r != exec
    requires Lookup(ConsignorsOf(l.db, e), r).Some?
    requires 0 < k && StakeOf(l.db, r, e) < k <= l.coins.SubOf(r).frozen
    ensures var after := Entrusted(l, exec, mp, height, r, EntrustMsg(e, r, -k));
      after.Some? && StakeInv(after.value.db, after.value.coins) && StakeOf(after.value.db, r, e) < 0
  {
    EntrustRefines(l.db, mp, EntrustMsg(e, r, -k), r, e);
    EntrustKeepsStakeInv(l, exec, mp, height, r, EntrustMsg(e, r, -k));
  }

  // Such a ledger is reached from an empty one by two entrusts of consignor 1: 200 to
  // consignee 2 and 1 to consignee 3.
  lemma OverdrawReachable(mp: MineParam) returns (l0: Ledger, l1: Ledger, l2: Ledger)
    ensures l0 == Ledger(EMPTY, Accounts(map[], map[1 := Sub(300, 0)]))
    ensures Entrusted(l0, 0, mp, 1, 1, EntrustMsg(2, 1, 200)) == Some(l1)
    ensures Entrusted(l1, 0, mp, 2, 1, EntrustMsg(3, 1, 1)) == Some(l2)
    ensures StakeInv(l2.db, l2.coins) && Lookup(ConsignorsOf(l2.db, 3), 1) == Some(1)
    ensures l2.coins.SubOf(1).frozen == 201
  {
    l0 := Ledger(EMPTY, Accounts(map[], map[1 := Sub(300, 0)]));
    var m1, m2 := EntrustMsg(2, 1, 200), EntrustMsg(3, 1, 1);
    EmptyLedgerInv(l0.coins);
    hide Lookup, ConsignorsOf, ConsigneesOf, EntrustedDB, StakeOf, SetEntry, StakeInv, AmountIn;
    l1 := Entrusted(l0, 0, mp, 1, 1, m1).value;
    EntrustKeepsStakeInv(l0, 0, mp, 1, 1, m1);
    EntrustRefines(l0.db, mp, m1, 1, 3);
    l2 := Entrusted(l1, 0, mp, 2, 1, m2).value;
    EntrustKeepsStakeInv(l1, 0, mp, 2, 1, m2);
    EntrustedLists(l1.db, mp, m2, 1, 3);
    SetEntryLookup(ConsignorsOf(l1.db, 3), 1, StakeOf(l1.db, 1, 3) + 1, 1);
    assert StakeOf(l0.db, 1, 3) == 0 by { EmptyStake(l0.db); }
  }

  lemma EmptyStake(db: DB)
    requires db.consignees == map[]
    ensures StakeOf(db, 1, 3) == 0
  {
  }
}
