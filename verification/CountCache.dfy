// The consensus client's caches of ticket counts: acMap, the total at each height, and
// tcMap, each miner's count at each height, whose per-height maps are heap objects that
// consecutive heights can share (plugin/consensus/pos33/pos33.go:156-220, 243-326).
module CountCache {
  import opened Options
  import opened Params
  import opened Messages
  import opened Shares

  // Where the entrust rules start, and the ticket prices before and from there.
  datatype Fork = Fork(height: int, price1: int, price2: int)
  {
    predicate Valid() { price1 > 0 && price2 > 0 }

    function Active(h: int): bool { h >= height }

    function Price(h: int): int { if Active(h) then price2 else price1 }
  }

  // The executor's answers at the time of a call: the frozen total, each consignee's
  // amount, and the height of the block they are read after.
  datatype View = View(total: Option<int>, amountOf: Addr -> Option<int>, current: int)

  // The pos33 transactions of a block. The miner named by a touching one is "" for None.
  // Entrust carries the amount the executor applied, None if it failed.
  datatype BlockTx = Foreign | Undecodable | Quiet | Touch(miner: Option<Addr>) | Entrust(consignee: Option<Addr>, applied: Option<int>)

  function MinerOf(tx: BlockTx): Option<Addr> {
    match tx
    case Touch(m) => m
    case Entrust(c, _) => c
    case _ => None
  }

  // The transactions updateTicketCount looks at: all but the first, up to one it cannot
  // decode.
  function Seen(txs: seq<BlockTx>, i: nat): seq<BlockTx>
    requires i <= |txs|
    decreases |txs| - i
  {
    if i == |txs| || (i > 0 && txs[i] == Undecodable) then []
    else if i == 0 then Seen(txs, 1)
    else [txs[i]] + Seen(txs, i + 1)
  }

  predicate Decodable(txs: seq<BlockTx>) {
    forall i | 0 < i < |txs| :: txs[i] != Undecodable
  }

  function Touched(txs: seq<BlockTx>): set<Addr> {
    if txs == [] then {}
    else (if MinerOf(txs[0]).Some? then {MinerOf(txs[0]).value} else {}) + Touched(txs[1..])
  }

  // ---- The total ----

  // queryAllPos33Count: before the fork there is no such query, and it fails while no
  // total is stored.
  function Queried(ac: map<int, int>, h: int, fork: Fork, st: View): map<int, int>
    requires fork.Valid()
  {
    if fork.Active(h) && st.total.Some? then ac[h := Quo(st.total.value, fork.Price(h))] else ac
  }

  // A Go map reads a missing key as 0.
  function Read(m: map<int, int>, k: int): int {
    if k in m then m[k] else 0
  }

  // allCount: a height below 0 is read at 0, and one without a total at the current height.
  function TotalAt(ac: map<int, int>, height: int, current: int): int {
    var h := if height < 0 then 0 else height;
    if h in ac then ac[h] else Read(ac, current)
  }

  function AcCarried(ac: map<int, int>, h: int, fork: Fork, st: View): map<int, int>
    requires fork.Valid()
  {
    var ac1 := if h in ac then ac else ac[h := Read(ac, h - 1)];
    var ac2 := if ac1[h] == 0 then Queried(ac1, h, fork, st) else ac1;
    ac2 - {h - 2 * SORT_BLOCKS - 1}
  }

  // The total is queried when some miner was touched, and when the price changes.
  function AcCounted(ac: map<int, int>, h: int, txs: seq<BlockTx>, fork: Fork, st: View): map<int, int>
    requires fork.Valid()
  {
    if Touched(Seen(txs, 0)) != {} || (Decodable(txs) && h == fork.height) then Queried(ac, h, fork, st) else ac
  }

  function AcAfter(ac: map<int, int>, h: int, txs: seq<BlockTx>, fork: Fork, st: View): map<int, int>
    requires fork.Valid()
  {
    var ac0 := AcCounted(ac, h, txs, fork, st);
    if Decodable(txs) then AcCarried(ac0, h, fork, st) else ac0
  }

  // What the total count at h should be.
  function Truth(total: Option<int>, h: int, fork: Fork): int
    requires fork.Valid()
  {
    match total
    case None => 0
    case Some(t) => Quo(t, fork.Price(h))
  }

  // ---- Counts of a miner ----

  function CountOf(a: Addr, h: int, fork: Fork, st: View): int
    requires fork.Valid()
  {
    if !fork.Active(h) then 0 else
      match st.amountOf(a)
      case None => 0
      case Some(amount) => Quo(amount, fork.Price(st.current))
  }

  class GoMap {
    var m: map<Addr, int>
    constructor ()
      ensures m == map[]
    {
      m := map[];
    }
  }

  type Counts = map<nat, map<Addr, int>>

  // What tcMap holds: which map object each height has, if any, and what it records.
  datatype Snap<R> = Snap(refs: map<nat, Option<R>>, counts: Counts)
  {
    ghost predicate Sound() {
      && refs.Keys == counts.Keys
      && (forall k | k in refs && refs[k].None? :: counts[k] == map[])
      && (forall j, k | j in refs && k in refs && refs[j] == refs[k] :: counts[j] == counts[k])
    }

    ghost predicate Shares(j: nat, k: nat) {
      j in refs && k in refs && refs[j].Some? && refs[j] == refs[k]
    }
  }

  // m is written into the map of h, for every height that shares it; a height without a map
  // gets a new one. With carry, a height that then still has no entry takes over the map of
  // the height before, and one old height is dropped.
  ghost predicate Wrote<R>(s: Snap<R>, h: nat, m: map<Addr, int>, carry: bool, s': Snap<R>)
    requires s.Sound()
  {
    && s'.refs.Keys == s'.counts.Keys && KeysFrom(s.refs.Keys, h, m != map[], carry, s'.refs.Keys)
    && (forall k | k in s.refs && k in s'.refs && k != h :: WroteOther(s, h, m, k, s'))
    && (h in s'.refs ==> WroteAt(s, h, m, s'))
  }

  ghost predicate KeysFrom(keys: set<nat>, h: nat, some: bool, carry: bool, keys': set<nat>) {
    forall k: nat :: k in keys' <==> (k in keys || (k == h && (carry || some))) && !Drops(h, carry, k)
  }

  predicate Drops(h: nat, carry: bool, k: nat) {
    carry && k == h - 2 * SORT_BLOCKS - 1
  }

  ghost predicate WroteOther<R>(s: Snap<R>, h: nat, m: map<Addr, int>, k: nat, s': Snap<R>)
    requires s.Sound() && k in s.refs && k in s'.refs && k in s'.counts
  {
    s'.refs[k] == s.refs[k] && s'.counts[k] == if s.Shares(h, k) then s.counts[k] + m else s.counts[k]
  }

  ghost predicate WroteAt<R>(s: Snap<R>, h: nat, m: map<Addr, int>, s': Snap<R>)
    requires s.Sound() && h in s'.refs && h in s'.counts
  {
    if h in s.refs && (s.refs[h].Some? || m == map[]) then
      s'.refs[h] == s.refs[h] && s'.counts[h] == s.counts[h] + m
    else if m != map[] then
      s'.refs[h].Some? && s'.counts[h] == m && forall k | k in s.refs :: s.refs[k] != s'.refs[h]
    else
      && s'.refs[h] == (if h - 1 in s.refs then s.refs[h - 1] else None)
      && s'.counts[h] == if h - 1 in s.counts then s.counts[h - 1] else map[]
  }

  // A lookup: what is recorded is returned and nothing changes; a miss is answered by the
  // executor and recorded.
  ghost predicate LookedUp<R>(s: Snap<R>, h: nat, a: Addr, r: int, fork: Fork, st: View, s': Snap<R>)
    requires fork.Valid() && s.Sound()
  {
    if h in s.counts && a in s.counts[h] then r == s.counts[h][a] && s' == s
    else r == CountOf(a, h, fork, st) && Wrote(s, h, map[a := r], false, s')
  }

  ghost function Fresh(T: set<Addr>, h: int, fork: Fork, st: View): map<Addr, int>
    requires fork.Valid()
  {
    map a | a in T :: CountOf(a, h, fork, st)
  }

  // The miners an update counts: those touched, and on a price change those counted at the
  // height before.
  ghost function Renewed(c: Counts, h: nat, touched: set<Addr>, done: bool, fork: Fork): set<Addr> {
    touched + if done && h == fork.height then KeysIn(c, h - 1) else {}
  }

  ghost function KeysIn(c: Counts, h: int): set<Addr> {
    if h in c then c[h].Keys else {}
  }

  // An update writes fresh counts, and carries over unless it stopped at a transaction.
  ghost predicate Updated<R>(s: Snap<R>, h: nat, touched: set<Addr>, done: bool, fork: Fork, st: View, s': Snap<R>)
    requires fork.Valid() && s.Sound()
  {
    Wrote(s, h, Fresh(Renewed(s.counts, h, touched, done, fork), h, fork, st), done, s')
  }

  // Two writes into the map of h are one.
  lemma WroteTwice<R>(s: Snap<R>, h: nat, m: map<Addr, int>, s1: Snap<R>, n: map<Addr, int>, carry: bool, s2: Snap<R>)
    requires s.Sound() && s1.Sound() && Wrote(s, h, m, false, s1) && Wrote(s1, h, n, carry, s2)
    ensures Wrote(s, h, m + n, carry, s2)
  {
    hide WroteOther, WroteAt, Snap<R>.Sound, Snap<R>.Shares;
    Sums(m, n, map[]);
    forall k | k in s.refs && k in s2.refs && k != h ensures WroteOther(s, h, m + n, k, s2) {
      SharesStill(s, h, m, s1, k);
      OtherTwice(s, h, m, s1, n, k, s2);
    }
    if h in s2.refs { AtTwice(s, h, m, s1, n, s2); }
  }

  lemma Sums(m: map<Addr, int>, n: map<Addr, int>, c: map<Addr, int>)
    ensures c + (m + n) == c + m + n && m + map[] == map[] + m == m
    ensures m + n == map[] <==> m == map[] && n == map[]
  {
    assert m.Keys <= (m + n).Keys && n.Keys <= (m + n).Keys;
    assert m != map[] ==> m.Keys != {};
    assert n != map[] ==> n.Keys != {};
  }

  lemma SharesStill<R>(s: Snap<R>, h: nat, m: map<Addr, int>, s1: Snap<R>, k: nat)
    requires s.Sound() && Wrote(s, h, m, false, s1) && k in s.refs && k != h
    ensures k in s1.refs && (s1.Shares(h, k) <==> s.Shares(h, k))
  {
    hide Snap<R>.Sound;
    assert WroteOther(s, h, m, k, s1);
  }

  lemma OtherTwice<R>(s: Snap<R>, h: nat, m: map<Addr, int>, s1: Snap<R>, n: map<Addr, int>, k: nat, s2: Snap<R>)
    requires s.Sound() && s1.Sound() && k in s.refs && k in s1.refs && k in s2.refs && k in s2.counts
    requires WroteOther(s, h, m, k, s1) && WroteOther(s1, h, n, k, s2) && (s1.Shares(h, k) <==> s.Shares(h, k))
    ensures WroteOther(s, h, m + n, k, s2)
  {
    hide Snap<R>.Sound, Snap<R>.Shares;
    assert k in s.counts && k in s1.counts by { SameKeys(s); SameKeys(s1); }
    Sums(m, n, s.counts[k]);
  }

  lemma SameKeys<R>(s: Snap<R>)
    requires s.Sound()
    ensures s.refs.Keys == s.counts.Keys
  {
  }

  lemma AtTwice<R>(s: Snap<R>, h: nat, m: map<Addr, int>, s1: Snap<R>, n: map<Addr, int>, s2: Snap<R>)
    requires s.Sound() && s1.Sound() && h in s2.refs && h in s2.counts
    requires Wrote(s, h, m, false, s1) && WroteAt(s1, h, n, s2)
    ensures WroteAt(s, h, m + n, s2)
  {
    SameKeys(s);
    SameKeys(s1);
    hide Snap<R>.Sound, Snap<R>.Shares;
    Sums(m, n, map[]);
    if h in s.refs { Sums(m, n, s.counts[h]); }
    if m == map[] {
      AtAfterNothing(s, h, s1, n, s2);
    } else {
      hide WroteOther;
    }
  }

  lemma AtAfterNothing<R>(s: Snap<R>, h: nat, s1: Snap<R>, n: map<Addr, int>, s2: Snap<R>)
    requires s.Sound() && s1.Sound() && h in s2.refs && h in s2.counts
    requires Wrote(s, h, map[], false, s1) && WroteAt(s1, h, n, s2)
    ensures WroteAt(s, h, n, s2)
  {
    NothingChanged(s, h, s1);
  }

  lemma NothingChanged<R>(s: Snap<R>, h: nat, s1: Snap<R>)
    requires s.Sound() && s1.Sound() && Wrote(s, h, map[], false, s1)
    ensures s1 == s
  {
    SameKeys(s);
    SameKeys(s1);
    hide Snap<R>.Sound, Snap<R>.Shares;
    forall k | k in s.refs ensures s1.refs[k] == s.refs[k] && s1.counts[k] == s.counts[k] {
      if k != h { assert WroteOther(s, h, map[], k, s1); }
      Sums(s.counts[k], map[], map[]);
    }
  }

  ghost function MapsOf(tc: map<nat, GoMap?>): set<GoMap> {
    set o: GoMap | o in tc.Values
  }

  ghost function ContentsOf(o: GoMap?): map<Addr, int>
    reads o
  {
    if o == null then map[] else o.m
  }

  ghost function ContentsAt(tc: map<nat, GoMap?>): Counts
    reads MapsOf(tc)
  {
    map h | h in tc :: ContentsOf(tc[h])
  }

  ghost function RefsOf(tc: map<nat, GoMap?>): map<nat, Option<GoMap>> {
    map h | h in tc :: RefOf(tc[h])
  }

  ghost function RefOf(o: GoMap?): Option<GoMap> {
    if o == null then None else
      var p: GoMap := o;
      Some(p)
  }

  ghost function SnapOf(tc: map<nat, GoMap?>): (s: Snap<GoMap>)
    reads MapsOf(tc)
    ensures s.Sound()
  {
    Snap(RefsOf(tc), ContentsAt(tc))
  }

  lemma SnapIs(tc: map<nat, GoMap?>)
    ensures var s := SnapOf(tc);
      && s.refs == RefsOf(tc) && s.counts.Keys == tc.Keys
      && forall k | k in tc :: if tc[k] == null then s.counts[k] == map[] else tc[k] in MapsOf(tc) && s.counts[k] == tc[k].m
  {
  }

  // One entry written, from the values before.
  lemma EntryWritten(s: Snap<GoMap>, was: map<nat, GoMap?>, tc: map<nat, GoMap?>, h: nat, a: Addr, r: int)
    requires s.Sound() && s.refs == RefsOf(was) && h in tc && tc[h] != null && tc == was[h := tc[h]]
    requires if h in was && was[h] != null then was[h] == tc[h] else forall k | k in was :: was[k] != tc[h]
    requires tc[h].m == (if h in s.counts then s.counts[h] else map[])[a := r]
    requires forall k | k in was && was[k] != tc[h] :: ContentsOf(was[k]) == s.counts[k]
    ensures Wrote(s, h, map[a := r], false, SnapOf(tc))
  {
    var s', m: map<Addr, int> := SnapOf(tc), map[a := r];
    PutIs(m, a, r);
    SameKeys(s);
    SameKeys(s');
    hide WroteOther, WroteAt, Snap<GoMap>.Sound, Snap<GoMap>.Shares;
    EntryKeys(was, tc, h);
    hide RefsOf, ContentsAt, KeysFrom;
    forall k | k in s.refs && k in s'.refs && k != h ensures WroteOther(s, h, m, k, s') {
      EntryElsewhere(s, was, tc, h, a, r, k);
    }
    EntryHere(s, was, tc, h, a, r);
  }

  lemma PutIs(c: map<Addr, int>, a: Addr, r: int)
    ensures c[a := r] == c + map[a := r] && map[a := r] != map[]
  {
    assert a in map[a := r];
  }

  lemma EntryKeys(was: map<nat, GoMap?>, tc: map<nat, GoMap?>, h: nat)
    requires h in tc && tc == was[h := tc[h]]
    ensures KeysFrom(RefsOf(was).Keys, h, true, false, SnapOf(tc).refs.Keys)
    ensures RefsOf(was).Keys == was.Keys && SnapOf(tc).refs.Keys == tc.Keys
  {
  }

  lemma EntryElsewhere(s: Snap<GoMap>, was: map<nat, GoMap?>, tc: map<nat, GoMap?>, h: nat, a: Addr, r: int, k: nat)
    requires s.Sound() && s.refs == RefsOf(was) && h in tc && tc[h] != null && tc == was[h := tc[h]] && k in was && k != h
    requires if h in was && was[h] != null then was[h] == tc[h] else was[k] != tc[h]
    requires h in was && was[h] != null ==> tc[h].m == s.counts[h][a := r]
    requires was[k] != tc[h] ==> ContentsOf(was[k]) == s.counts[k]
    ensures WroteOther(s, h, map[a := r], k, SnapOf(tc))
  {
    assert tc[k] == was[k];
    if s.Shares(h, k) { PutIs(s.counts[h], a, r); }
  }

  lemma EntryHere(s: Snap<GoMap>, was: map<nat, GoMap?>, tc: map<nat, GoMap?>, h: nat, a: Addr, r: int)
    requires s.Sound() && s.refs == RefsOf(was) && h in tc && tc[h] != null && tc == was[h := tc[h]]
    requires if h in was && was[h] != null then was[h] == tc[h] else forall k | k in was :: was[k] != tc[h]
    requires tc[h].m == (if h in s.counts then s.counts[h] else map[])[a := r]
    ensures WroteAt(s, h, map[a := r], SnapOf(tc))
  {
    var m: map<Addr, int> := map[a := r];
    PutIs(m, a, r);
    if h in was && was[h] != null {
      PutIs(s.counts[h], a, r);
    } else {
      var none: map<Addr, int> := map[];
      assert none[a := r] == m;
      forall k | k in s.refs ensures s.refs[k] != SnapOf(tc).refs[h] { assert was[k] != tc[h]; }
    }
  }

  class Cache {
    const fork: Fork
    var acMap: map<int, int>
    var tcMap: map<nat, GoMap?>

    ghost function Maps(): set<GoMap>
      reads this`tcMap
    {
      MapsOf(tcMap)
    }

    ghost function Snapshot(): (s: Snap<GoMap>)
      reads this`tcMap, Maps()
      ensures s.Sound()
    {
      SnapOf(tcMap)
    }

    constructor (fork: Fork)
      ensures this.fork == fork && acMap == map[] && tcMap == map[] && Snapshot() == Snap(map[], map[])
    {
      this.fork := fork;
      acMap, tcMap := map[], map[];
    }

    // queryMinerTicketCount: a height below 0 is looked up as it is and stored at 0.
    method QueryMinerTicketCount(a: Addr, height: int, st: View) returns (count: int)
      requires fork.Valid()
      modifies this`tcMap, Maps()
      ensures var key := if height < 0 then 0 else height;
              var was := if height in old(tcMap) then old(tcMap)[height] else null;
        && count == CountOf(a, key, fork, st)
        && key in tcMap && tcMap[key] != null && tcMap == old(tcMap)[key := tcMap[key]]
        && (if was == null then fresh(tcMap[key]) else tcMap[key] == was)
        && tcMap[key].m == old(ContentsOf(was))[a := count]
      ensures forall o | o in old(Maps()) && o != tcMap[if height < 0 then 0 else height] :: o.m == old(o.m)
    {
      var mp: GoMap? := if height in tcMap then tcMap[height] else null;
      if mp == null { mp := new GoMap(); }
      var key := if height < 0 then 0 else height;
      if fork.Active(key) {
        match st.amountOf(a)
        case None => count := 0;
        case Some(amount) => count := Quo(amount, fork.Price(st.current));
      } else {
        count := 0;
      }
      mp.m := mp.m[a := count];
      tcMap := tcMap[key := mp];
    }

    // The same for a height of at least 0, as one write.
    method CountMiner(a: Addr, h: nat, st: View) returns (count: int)
      requires fork.Valid()
      modifies this`tcMap, Maps()
      ensures count == CountOf(a, h, fork, st)
      ensures Wrote(old(Snapshot()), h, map[a := count], false, Snapshot())
      ensures forall o | o in Maps() :: o in old(Maps()) || fresh(o)
    {
      hide Snap<GoMap>.Sound, RefsOf, ContentsAt, CountOf, Wrote;
      ghost var s, was := Snapshot(), tcMap;
      SnapIs(tcMap);
      count := QueryMinerTicketCount(a, h, st);
      EntryWritten(s, was, tcMap, h, a, count);
    }

    // queryTicketCount, at a height updated or not
    method QueryTicketCount(addr: Option<Addr>, height: int, st: View) returns (count: int)
      requires fork.Valid()
      modifies this`tcMap, Maps()
      ensures addr.None? ==> count == 0 && Snapshot() == old(Snapshot())
      ensures var h := if height < 0 then 0 else height;
        addr.Some? ==> LookedUp(old(Snapshot()), h, addr.value, count, fork, st, Snapshot())
    {
      hide Wrote, CountOf;
      var h := if height < 0 then 0 else height;
      if addr.None? { return 0; }
      if h in tcMap && tcMap[h] != null && addr.value in tcMap[h].m {
        return tcMap[h].m[addr.value];
      }
      count := CountMiner(addr.value, h, st);
    }

    method QueryAllPos33Count(height: int, st: View)
      requires fork.Valid()
      modifies this`acMap
      ensures acMap == Queried(old(acMap), height, fork, st) && Snapshot() == old(Snapshot())
    {
      if !fork.Active(height) { return; }
      match st.total
      case None =>
      case Some(t) => acMap := acMap[height := Quo(t, fork.Price(height))];
    }

    method AllCount(height: int, current: int) returns (total: int)
      ensures total == TotalAt(acMap, height, current)
    {
      var h := if height < 0 then 0 else height;
      if h in acMap { return acMap[h]; }
      total := if current in acMap then acMap[current] else 0;
    }

    // The loop over the transactions of updateTicketCount.
    method TouchMiners(h: nat, txs: seq<BlockTx>, st: View) returns (done: bool)
      requires fork.Valid()
      modifies this, Maps()
      ensures done == Decodable(txs)
      ensures acMap == if Touched(Seen(txs, 0)) != {} then Queried(old(acMap), h, fork, st) else old(acMap)
      ensures Wrote(old(Snapshot()), h, Fresh(Touched(Seen(txs, 0)), h, fork, st), false, Snapshot())
      ensures forall o | o in Maps() :: o in old(Maps()) || fresh(o)
    {
      hide Wrote, Queried, Seen, Touched, MinerOf, Fresh, CountOf, RefsOf, ContentsAt;
      ghost var T: set<Addr>, s := {}, Snapshot();
      NothingSeen(txs);
      NothingWrote(s, h, fork, st);
      var i := 0;
      while i < |txs|
        invariant i <= |txs| && T + Touched(Seen(txs, i)) == Touched(Seen(txs, 0))
        invariant forall k | 0 < k < i :: txs[k] != Undecodable
        invariant acMap == if T != {} then Queried(old(acMap), h, fork, st) else old(acMap)
        invariant Wrote(s, h, Fresh(T, h, fork, st), false, Snapshot())
        invariant forall o | o in Maps() :: o in old(Maps()) || fresh(o)
      {
        SeenNext(txs, i);
        if i != 0 {
          if txs[i] == Undecodable { return false; }
          var miner := MinerOf(txs[i]);
          if miner.Some? {
            ghost var s1 := Snapshot();
            var count := CountMiner(miner.value, h, st);
            OneMoreWrote(s, h, T, s1, miner.value, fork, st, Snapshot());
            QueryAllPos33Count(h, st);
            QueriedAgain(old(acMap), h, fork, st);
            T := T + {miner.value};
          }
        }
        i := i + 1;
      }
      done := true;
    }

    // Counts the miners in keys, in whatever order the map is traversed.
    method CountMiners(keys: set<Addr>, h: nat, st: View)
      requires fork.Valid()
      modifies this`tcMap, Maps()
      ensures Wrote(old(Snapshot()), h, Fresh(keys, h, fork, st), false, Snapshot())
      ensures forall o | o in Maps() :: o in old(Maps()) || fresh(o)
    {
      hide Wrote, Fresh, SnapOf, CountOf;
      ghost var D: set<Addr>, s := {}, Snapshot();
      NothingWrote(s, h, fork, st);
      var todo := keys;
      while todo != {}
        invariant D + todo == keys
        invariant Wrote(s, h, Fresh(D, h, fork, st), false, Snapshot())
        invariant forall o | o in Maps() :: o in old(Maps()) || fresh(o)
        decreases |todo|
      {
        var a :| a in todo;
        ghost var s1 := Snapshot();
        var count := CountMiner(a, h, st);
        OneMoreWrote(s, h, D, s1, a, fork, st, Snapshot());
        todo, D := todo - {a}, D + {a};
      }
    }

    // On a price change the miners of the previous height are counted again.
    method RecountMiners(h: nat, st: View)
      requires fork.Valid()
      modifies this`tcMap, Maps()
      ensures Wrote(old(Snapshot()), h, Fresh(KeysIn(old(Snapshot()).counts, h - 1), h, fork, st), false, Snapshot())
      ensures forall o | o in Maps() :: o in old(Maps()) || fresh(o)
    {
      hide Wrote, Fresh;
      var keys := if h - 1 in tcMap && tcMap[h - 1] != null then tcMap[h - 1].m.Keys else {};
      assert keys == KeysIn(Snapshot().counts, h - 1);
      CountMiners(keys, h, st);
    }

    // Everything updateTicketCount queries, transactions first.
    method CountTickets(h: nat, txs: seq<BlockTx>, st: View) returns (done: bool)
      requires fork.Valid()
      modifies this, Maps()
      ensures done == Decodable(txs)
      ensures acMap == AcCounted(old(acMap), h, txs, fork, st)
      ensures var T := Renewed(old(Snapshot()).counts, h, Touched(Seen(txs, 0)), done, fork);
        Wrote(old(Snapshot()), h, Fresh(T, h, fork, st), false, Snapshot())
      ensures forall o | o in Maps() :: o in old(Maps()) || fresh(o)
    {
      hide Seen, Touched, Wrote, Fresh, Queried, RefsOf, ContentsAt;
      ghost var s, T := Snapshot(), Touched(Seen(txs, 0));
      done := TouchMiners(h, txs, st);
      QueriedAgain(old(acMap), h, fork, st);
      assert T + {} == T;
      if !done { return; }
      if h == fork.height {
        ghost var s1 := Snapshot();
        QueryAllPos33Count(h, st);
        RecountMiners(h, st);
        Recounted(s, h, T, s1, fork, st, Snapshot());
      }
    }

    // What updateTicketCount does when every transaction decodes and has been seen.
    method CarryOver(h: nat, st: View)
      requires fork.Valid()
      modifies this
      ensures acMap == AcCarried(old(acMap), h, fork, st)
      ensures tcMap == Carried(old(tcMap), h)
    {
      if h !in acMap { acMap := acMap[h := Read(acMap, h - 1)]; }
      if acMap[h] == 0 { QueryAllPos33Count(h, st); }
      if h !in tcMap { tcMap := tcMap[h := if h - 1 in tcMap then tcMap[h - 1] else null]; }
      acMap := acMap - {h - 2 * SORT_BLOCKS - 1};
      tcMap := tcMap - {h - 2 * SORT_BLOCKS - 1};
    }

    // updateTicketCount, at a height cached or not
    method UpdateTicketCount(h: nat, txs: seq<BlockTx>, st: View)
      requires fork.Valid()
      modifies this, Maps()
      ensures acMap == AcAfter(old(acMap), h, txs, fork, st)
      ensures Updated(old(Snapshot()), h, Touched(Seen(txs, 0)), Decodable(txs), fork, st, Snapshot())
    {
      hide Queried, AcCarried, AcCounted, Seen, Touched, Wrote, Fresh, Renewed, Decodable, Carried;
      ghost var s := Snapshot();
      var done := CountTickets(h, txs, st);
      if done {
        ghost var s1, was := Snapshot(), tcMap;
        CarryOver(h, st);
        ghost var m := Fresh(Renewed(s.counts, h, Touched(Seen(txs, 0)), done, fork), h, fork, st);
        CarriedWrote(was, h);
        assert SnapOf(was) == s1;
        WroteTwice(s, h, m, s1, map[], true, Snapshot());
        Sums(m, m, m);
      }
    }
  }

  function Carried(tc: map<nat, GoMap?>, h: nat): map<nat, GoMap?> {
    (if h in tc then tc else tc[h := if h - 1 in tc then tc[h - 1] else null]) - {h - 2 * SORT_BLOCKS - 1}
  }

  lemma QueriedAgain(ac: map<int, int>, h: int, fork: Fork, st: View)
    requires fork.Valid()
    ensures Queried(Queried(ac, h, fork, st), h, fork, st) == Queried(ac, h, fork, st)
  {
  }

  lemma CarriedWrote(tc: map<nat, GoMap?>, h: nat)
    ensures Wrote(SnapOf(tc), h, map[], true, SnapOf(Carried(tc, h)))
  {
    var s, s', tc' := SnapOf(tc), SnapOf(Carried(tc, h)), Carried(tc, h);
    hide WroteOther, WroteAt, Snap<GoMap>.Sound;
    forall k | k in s.refs && k in s'.refs && k != h ensures WroteOther(s, h, map[], k, s') { CarriedElsewhere(tc, h, k); }
    CarriedHere(tc, h);
  }

  lemma CarriedElsewhere(tc: map<nat, GoMap?>, h: nat, k: nat)
    requires k in tc && k in Carried(tc, h) && k != h
    ensures WroteOther(SnapOf(tc), h, map[], k, SnapOf(Carried(tc, h)))
  {
    Sums(ContentsOf(tc[k]), map[], map[]);
  }

  lemma CarriedHere(tc: map<nat, GoMap?>, h: nat)
    ensures h in Carried(tc, h) && WroteAt(SnapOf(tc), h, map[], SnapOf(Carried(tc, h)))
  {
    if h in tc { Sums(ContentsOf(tc[h]), map[], map[]); }
  }

  lemma NothingWrote<R>(s: Snap<R>, h: nat, fork: Fork, st: View)
    requires fork.Valid() && s.Sound()
    ensures Wrote(s, h, Fresh({}, h, fork, st), false, s)
  {
    assert Fresh({}, h, fork, st) == map[];
  }

  lemma OneMoreWrote<R>(s: Snap<R>, h: nat, T: set<Addr>, s1: Snap<R>, a: Addr, fork: Fork, st: View, s2: Snap<R>)
    requires fork.Valid() && s.Sound() && s1.Sound()
    requires Wrote(s, h, Fresh(T, h, fork, st), false, s1) && Wrote(s1, h, map[a := CountOf(a, h, fork, st)], false, s2)
    ensures Wrote(s, h, Fresh(T + {a}, h, fork, st), false, s2)
  {
    hide Wrote, CountOf;
    assert Fresh({a}, h, fork, st) == map[a := CountOf(a, h, fork, st)];
    WroteTwice(s, h, Fresh(T, h, fork, st), s1, Fresh({a}, h, fork, st), false, s2);
    FreshUnion(T, {a}, h, fork, st);
  }

  lemma KeysBefore<R>(s: Snap<R>, h: nat, T: set<Addr>, s1: Snap<R>, fork: Fork, st: View)
    requires fork.Valid() && s.Sound() && Wrote(s, h, Fresh(T, h, fork, st), false, s1)
    ensures T + KeysIn(s1.counts, h - 1) == T + KeysIn(s.counts, h - 1)
  {
    SameKeys(s);
    hide CountOf, WroteAt, Snap<R>.Sound, Snap<R>.Shares;
    if h - 1 in s.refs { assert WroteOther(s, h, Fresh(T, h, fork, st), h - 1, s1); }
  }

  // The miners recounted are those of the previous height before the block, and of those
  // just touched no others.
  lemma Recounted<R>(s: Snap<R>, h: nat, T: set<Addr>, s1: Snap<R>, fork: Fork, st: View, s2: Snap<R>)
    requires fork.Valid() && s.Sound() && s1.Sound() && h == fork.height
    requires Wrote(s, h, Fresh(T, h, fork, st), false, s1)
    requires Wrote(s1, h, Fresh(KeysIn(s1.counts, h - 1), h, fork, st), false, s2)
    ensures Wrote(s, h, Fresh(Renewed(s.counts, h, T, true, fork), h, fork, st), false, s2)
  {
    hide *;
    var K1 := KeysIn(s1.counts, h - 1);
    KeysBefore(s, h, T, s1, fork, st);
    WroteTwice(s, h, Fresh(T, h, fork, st), s1, Fresh(K1, h, fork, st), false, s2);
    FreshUnion(T, K1, h, fork, st);
    RenewedIs(s.counts, h, T, fork);
  }

  lemma FreshUnion(T: set<Addr>, K: set<Addr>, h: int, fork: Fork, st: View)
    requires fork.Valid()
    ensures Fresh(T, h, fork, st) + Fresh(K, h, fork, st) == Fresh(T + K, h, fork, st)
  {
    hide CountOf;
  }

  lemma RenewedIs(c: Counts, h: nat, T: set<Addr>, fork: Fork)
    requires h == fork.height
    ensures Renewed(c, h, T, true, fork) == T + KeysIn(c, h - 1)
  {
  }

  lemma NothingSeen(txs: seq<BlockTx>)
    ensures Touched(Seen(txs, |txs|)) == {}
  {
  }

  lemma SeenNext(txs: seq<BlockTx>, i: nat)
    requires i < |txs|
    ensures Touched(Seen(txs, i)) ==
      if i == 0 then Touched(Seen(txs, 1))
      else if txs[i] == Undecodable then {}
      else (if MinerOf(txs[i]).Some? then {MinerOf(txs[i]).value} else {}) + Touched(Seen(txs, i + 1))
  {
    if i > 0 && txs[i] != Undecodable {
      assert ([txs[i]] + Seen(txs, i + 1))[1..] == Seen(txs, i + 1);
    }
  }

  // The miners an update touches: those named by any transaction but the first, with no
  // undecodable one up to it, the first not counted.
  lemma {:induction false} TouchedFrom(txs: seq<BlockTx>, i: nat, a: Addr)
    requires 0 < i <= |txs|
    ensures a in Touched(Seen(txs, i)) <==>
      exists k | i <= k < |txs| :: MinerOf(txs[k]) == Some(a) && forall j | i <= j <= k :: txs[j] != Undecodable
    decreases |txs| - i
  {
    if i == |txs| {
      NothingSeen(txs);
    } else {
      SeenNext(txs, i);
      TouchedFrom(txs, i + 1, a);
      hide Touched, Seen;
      if k :| i + 1 <= k < |txs| && MinerOf(txs[k]) == Some(a) && forall j | i + 1 <= j <= k :: txs[j] != Undecodable {
        if txs[i] != Undecodable { assert forall j | i <= j <= k :: txs[j] != Undecodable; }
      }
    }
  }

  lemma TouchedIs(txs: seq<BlockTx>, a: Addr)
    ensures a in Touched(Seen(txs, 0)) <==>
      exists k | 0 < k < |txs| :: MinerOf(txs[k]) == Some(a) && forall j | 0 < j <= k :: txs[j] != Undecodable
  {
    if txs == [] {
      NothingSeen(txs);
    } else {
      SeenNext(txs, 0);
      TouchedFrom(txs, 1, a);
      hide Touched, Seen;
    }
  }

  // ---- The total over a run of blocks ----

  // A block and what the executor answers after it.
  datatype Block = Block(txs: seq<BlockTx>, st: View)

  function AppliedSum(txs: seq<BlockTx>): int {
    if txs == [] then 0
    else (if txs[0].Entrust? && txs[0].applied.Some? then txs[0].applied.value else 0) + AppliedSum(txs[1..])
  }

  ghost predicate AnyApplied(txs: seq<BlockTx>) {
    exists i | 0 <= i < |txs| :: txs[i].Entrust? && txs[i].applied.Some?
  }

  // The first transaction is the miner's, and an applied entrust names its consignee.
  ghost predicate WellFormed(txs: seq<BlockTx>) {
    forall i | 0 <= i < |txs| && txs[i].Entrust? && txs[i].applied.Some? :: i > 0 && txs[i].consignee.Some?
  }

  // updateAllAmount: the total moves by the entrusts applied, which there are none of
  // before the fork.
  ghost predicate Follows(prev: Option<int>, b: Block, h: int, fork: Fork) {
    && WellFormed(b.txs)
    && (AnyApplied(b.txs) ==> fork.Active(h))
    && b.st.total == if AnyApplied(b.txs) then Some((if prev.Some? then prev.value else 0) + AppliedSum(b.txs)) else prev
  }

  function Before(blocks: seq<Block>, before: Option<int>, k: nat): Option<int>
    requires k <= |blocks|
  {
    if k == 0 then before else blocks[k - 1].st.total
  }

  // Blocks handled in order from any height on, starting with an empty cache.
  ghost predicate IsTotalRun(start: nat, before: Option<int>, blocks: seq<Block>, acs: seq<map<int, int>>, fork: Fork) {
    && fork.Valid() && |acs| == |blocks| + 1 && acs[0] == map[]
    && (start <= fork.height ==> before.None?)
    && (forall k | 0 <= k < |blocks| :: Follows(Before(blocks, before, k), blocks[k], start + k, fork))
    && (forall k | 0 <= k < |blocks| :: acs[k + 1] == AcAfter(acs[k], start + k, blocks[k].txs, fork, blocks[k].st))
  }

  lemma {:induction false} MinerIsTouched(txs: seq<BlockTx>, i: nat, k: nat)
    requires i <= k < |txs| && k > 0 && MinerOf(txs[k]).Some? && Decodable(txs)
    ensures Touched(Seen(txs, i)) != {}
    decreases k - i
  {
    SeenNext(txs, i);
    if i < k { MinerIsTouched(txs, i + 1, k); }
  }

  lemma UntouchedKeepsTotal(prev: Option<int>, b: Block, h: int, fork: Fork)
    requires Follows(prev, b, h, fork) && Decodable(b.txs) && Touched(Seen(b.txs, 0)) == {}
    ensures b.st.total == prev
  {
    if AnyApplied(b.txs) {
      var i :| 0 <= i < |b.txs| && b.txs[i].Entrust? && b.txs[i].applied.Some?;
      MinerIsTouched(b.txs, 0, i);
    }
  }

  ghost predicate Stepped(ac: map<int, int>, h: int, b: Block, fork: Fork, ac': map<int, int>)
    requires fork.Valid()
  {
    && (forall j | j in ac' :: if j == h then ac'[h] == Truth(b.st.total, h, fork) else j in ac && ac'[j] == ac[j])
    && (forall j | j in ac && j != h - 2 * SORT_BLOCKS - 1 :: j in ac')
    && (Decodable(b.txs) ==> h in ac')
  }

  lemma TotalStep(ac: map<int, int>, h: int, prev: Option<int>, b: Block, fork: Fork)
    requires fork.Valid() && Follows(prev, b, h, fork) && (prev.Some? ==> fork.Active(h - 1))
    requires (forall j | j in ac :: j < h) && (h - 1 in ac ==> ac[h - 1] == Truth(prev, h - 1, fork))
    ensures Stepped(ac, h, b, fork, AcAfter(ac, h, b.txs, fork, b.st))
    ensures b.st.total.Some? ==> fork.Active(h)
  {
    if Decodable(b.txs) && Touched(Seen(b.txs, 0)) == {} {
      UntouchedKeepsTotal(prev, b, h, fork);
    }
    hide Quo, Seen, Touched;
  }

  // After l blocks, wherever the cache has a total it is the executor's frozen total after
  // that block divided by the ticket price there, and it has one for each of the last 21
  // blocks whose transactions all decode.
  ghost predicate Coherent(start: nat, blocks: seq<Block>, ac: map<int, int>, l: nat, fork: Fork)
    requires fork.Valid() && l <= |blocks|
  {
    && (forall j | j in ac :: start <= j < start + l && ac[j] == Truth(blocks[j - start].st.total, j, fork))
    && (forall k | 0 <= k < l && l - k <= 2 * SORT_BLOCKS + 1 && Decodable(blocks[k].txs) :: start + k in ac)
  }

  lemma CoherentStep(start: nat, blocks: seq<Block>, ac: map<int, int>, ac': map<int, int>, l: nat, fork: Fork)
    requires fork.Valid() && l < |blocks| && Coherent(start, blocks, ac, l, fork)
    requires Stepped(ac, start + l, blocks[l], fork, ac')
    ensures Coherent(start, blocks, ac', l + 1, fork)
  {
    hide Decodable, Truth;
  }

  lemma CoherentStart(start: nat, blocks: seq<Block>, fork: Fork)
    requires fork.Valid()
    ensures Coherent(start, blocks, map[], 0, fork)
  {
  }

  lemma CoherentNext(start: nat, before: Option<int>, blocks: seq<Block>, ac: map<int, int>, l: nat, fork: Fork)
    requires fork.Valid() && l < |blocks| && Coherent(start, blocks, ac, l, fork)
    requires Before(blocks, before, l).Some? ==> fork.Active(start + l - 1)
    requires Follows(Before(blocks, before, l), blocks[l], start + l, fork)
    ensures Coherent(start, blocks, AcAfter(ac, start + l, blocks[l].txs, fork, blocks[l].st), l + 1, fork)
    ensures blocks[l].st.total.Some? ==> fork.Active(start + l)
  {
    hide AcAfter, Follows, Decodable, Truth, Stepped;
    TotalStep(ac, start + l, Before(blocks, before, l), blocks[l], fork);
    CoherentStep(start, blocks, ac, AcAfter(ac, start + l, blocks[l].txs, fork, blocks[l].st), l, fork);
  }

  // The total cache is coherent after every block of every run, although most blocks
  // query nothing.
  lemma {:induction false} TotalsCoherent(start: nat, before: Option<int>, blocks: seq<Block>, acs: seq<map<int, int>>, fork: Fork, l: nat)
    requires IsTotalRun(start, before, blocks, acs, fork) && l <= |blocks|
    ensures Coherent(start, blocks, acs[l], l, fork)
    ensures Before(blocks, before, l).Some? ==> fork.Active(start + l - 1)
    decreases l
  {
    hide AcAfter, Follows, Coherent;
    if l == 0 {
      CoherentStart(start, blocks, fork);
    } else {
      TotalsCoherent(start, before, blocks, acs, fork, l - 1);
      CoherentNext(start, before, blocks, acs[l - 1], l - 1, fork);
    }
  }

  // What allCount answers after l blocks: the frozen total after the block asked about, over
  // the price there, if the cache still has that block, otherwise the one after the current
  // block, or 0 if the cache does not have that block either. It has a total for each
  // of the last 21 decodable blocks and for none it has not counted.
  lemma TotalsRead(start: nat, before: Option<int>, blocks: seq<Block>, acs: seq<map<int, int>>, fork: Fork, l: nat, h: nat, current: int)
    requires IsTotalRun(start, before, blocks, acs, fork) && l <= |blocks|
    ensures var ac, total := acs[l], TotalAt(acs[l], h, current);
      && (h in ac ==> start <= h < start + l && total == Truth(blocks[h - start].st.total, h, fork))
      && (h !in ac && current in ac ==> start <= current < start + l && total == Truth(blocks[current - start].st.total, current, fork))
      && (h !in ac && current !in ac ==> total == 0)
      && (start <= h < start + l <= h + 2 * SORT_BLOCKS + 1 && Decodable(blocks[h - start].txs) ==> h in ac)
  {
    TotalsCoherent(start, before, blocks, acs, fork, l);
    hide IsTotalRun;
    CoherentRead(start, blocks, acs[l], l, fork, h, current);
  }

  lemma CoherentRead(start: nat, blocks: seq<Block>, ac: map<int, int>, l: nat, fork: Fork, h: nat, current: int)
    requires fork.Valid() && l <= |blocks| && Coherent(start, blocks, ac, l, fork)
    ensures var total := TotalAt(ac, h, current);
      && (h in ac ==> start <= h < start + l && total == Truth(blocks[h - start].st.total, h, fork))
      && (h !in ac && current in ac ==> start <= current < start + l && total == Truth(blocks[current - start].st.total, current, fork))
      && (h !in ac && current !in ac ==> total == 0)
      && (start <= h < start + l <= h + 2 * SORT_BLOCKS + 1 && Decodable(blocks[h - start].txs) ==> h in ac)
  {
    hide Truth, Decodable;
    if start <= h < start + l {
      var k := h - start;
      assert start + k == h;
    }
  }

  // ---- Each miner's counts over a run of updates and lookups ----

  // st is what the executor answers at the time of the call.
  datatype Act = Lookup(h: nat, a: Addr, r: int, st: View) | Update(h: nat, touched: set<Addr>, done: bool, st: View)

  // Updates and lookups come in any order and at any heights, cached or not.
  ghost predicate CountStep<R>(s: Snap<R>, act: Act, s': Snap<R>, fork: Fork)
    requires fork.Valid() && s.Sound()
  {
    match act
    case Lookup(h, a, r, st) => LookedUp(s, h, a, r, fork, st, s')
    case Update(h, touched, done, st) => Updated(s, h, touched, done, fork, st, s')
  }

  // Every snapshot of a cache is sound.
  ghost predicate IsCountRun<R>(states: seq<Snap<R>>, acts: seq<Act>, fork: Fork) {
    && fork.Valid() && |states| == |acts| + 1 && states[0] == Snap(map[], map[])
    && (forall k | 0 <= k < |states| :: states[k].Sound())
    && (forall k | 0 <= k < |acts| :: CountStep(states[k], acts[k], states[k + 1], fork))
  }

  ghost predicate Recorded<R>(s: Snap<R>, h: nat, a: Addr, r: int) {
    h in s.counts && a in s.counts[h] && s.counts[h][a] == r
  }

  // An update that drops h, or counts a again in the map that h has.
  ghost predicate Recounts<R>(s: Snap<R>, act: Act, fork: Fork, h: nat, a: Addr) {
    && act.Update?
    && (Drops(act.h, act.done, h)
        || ((h == act.h || s.Shares(act.h, h)) && a in Renewed(s.counts, act.h, act.touched, act.done, fork)))
  }

  // What a call writes, and whether it carries over.
  ghost function WrittenBy<R>(s: Snap<R>, act: Act, fork: Fork): map<Addr, int>
    requires fork.Valid() && s.Sound()
  {
    match act
    case Lookup(h, a, r, st) => if h in s.counts && a in s.counts[h] then map[] else map[a := CountOf(a, h, fork, st)]
    case Update(h, touched, done, st) => Fresh(Renewed(s.counts, h, touched, done, fork), h, fork, st)
  }

  lemma StepWrote<R>(s: Snap<R>, act: Act, s': Snap<R>, fork: Fork)
    requires fork.Valid() && s.Sound() && CountStep(s, act, s', fork)
    ensures Wrote(s, act.h, WrittenBy(s, act, fork), act.Update? && act.done, s')
  {
    hide CountOf, Renewed, Fresh;
  }

  lemma WroteKeeps<R>(s: Snap<R>, k: nat, m: map<Addr, int>, carry: bool, s': Snap<R>, h: nat, a: Addr, r: int)
    requires s.Sound() && Wrote(s, k, m, carry, s') && Recorded(s, h, a, r) && !Drops(k, carry, h)
    requires h == k || s.Shares(k, h) ==> a !in m
    ensures Recorded(s', h, a, r)
  {
    SameKeys(s);
    var none: map<Addr, int> := map[];
    assert s.counts[h] != none;
    if h == k {
      assert s.refs[h].Some?;
    } else {
      hide Snap<R>.Sound, Snap<R>.Shares;
      assert WroteOther(s, k, m, h, s');
    }
  }

  lemma RecordedStays<R>(s: Snap<R>, act: Act, s': Snap<R>, fork: Fork, h: nat, a: Addr, r: int)
    requires fork.Valid() && s.Sound() && CountStep(s, act, s', fork) && Recorded(s, h, a, r)
    requires !Recounts(s, act, fork, h, a)
    ensures Recorded(s', h, a, r)
  {
    StepWrote(s, act, s', fork);
    if act.Lookup? && s.Shares(act.h, h) { assert s.counts[act.h] == s.counts[h]; }
    hide Wrote, CountStep, CountOf, Renewed, Snap<R>.Sound, Snap<R>.Shares;
    WroteKeeps(s, act.h, WrittenBy(s, act, fork), act.Update? && act.done, s', h, a, r);
  }

  lemma {:induction false} RecordedOnRuns<R>(states: seq<Snap<R>>, acts: seq<Act>, fork: Fork, p: nat, q: nat, h: nat, a: Addr, r: int)
    requires IsCountRun(states, acts, fork) && p <= q < |states| && Recorded(states[p], h, a, r)
    requires forall i | p <= i < q :: !Recounts(states[i], acts[i], fork, h, a)
    ensures Recorded(states[q], h, a, r)
    decreases q - p
  {
    hide *;
    if p < q {
      StepAt(states, acts, fork, q - 1);
      RecordedOnRuns(states, acts, fork, p, q - 1, h, a, r);
      RecordedStays(states[q - 1], acts[q - 1], states[q], fork, h, a, r);
    }
  }

  lemma StepAt<R>(states: seq<Snap<R>>, acts: seq<Act>, fork: Fork, k: nat)
    requires IsCountRun(states, acts, fork) && k + 1 < |states|
    ensures |states| == |acts| + 1 && fork.Valid() && states[k].Sound() && CountStep(states[k], acts[k], states[k + 1], fork)
  {
    hide CountStep, Snap<R>.Sound;
  }

  // Once a count for (height, miner) is recorded, by an update or by a lookup that missed,
  // every lookup returns it until an update drops the height or counts the miner again in
  // its map, although several heights may share one map and misses write into it.
  lemma CountsStable<R>(states: seq<Snap<R>>, acts: seq<Act>, fork: Fork, p: nat, q: nat, h: nat, a: Addr)
    requires IsCountRun(states, acts, fork) && p <= q < |acts| && h in states[p].counts && a in states[p].counts[h]
    requires forall i | p <= i < q :: !Recounts(states[i], acts[i], fork, h, a)
    requires acts[q].Lookup? && acts[q].h == h && acts[q].a == a
    ensures acts[q].r == states[p].counts[h][a]
  {
    RecordedOnRuns(states, acts, fork, p, q, h, a, states[p].counts[h][a]);
    assert CountStep(states[q], acts[q], states[q + 1], fork);
    hide IsCountRun, Recounts, Wrote, CountOf;
  }

  // So two lookups of the same miner at the same height agree, with no such update between.
  lemma LookupsAgree<R>(states: seq<Snap<R>>, acts: seq<Act>, fork: Fork, p: nat, q: nat)
    requires IsCountRun(states, acts, fork) && p < q < |acts|
    requires acts[p].Lookup? && acts[q].Lookup? && acts[p].h == acts[q].h && acts[p].a == acts[q].a
    requires forall i | p < i < q :: !Recounts(states[i], acts[i], fork, acts[p].h, acts[p].a)
    ensures acts[p].r == acts[q].r
  {
    assert CountStep(states[p], acts[p], states[p + 1], fork);
    LookedUpCount(states[p], acts[p], states[p + 1], fork);
    hide CountStep, Recounts;
    CountsStable(states, acts, fork, p + 1, q, acts[p].h, acts[p].a);
  }

  lemma LookedUpCount<R>(s: Snap<R>, act: Act, s': Snap<R>, fork: Fork)
    requires fork.Valid() && s.Sound() && CountStep(s, act, s', fork) && act.Lookup?
    ensures Recorded(s', act.h, act.a, act.r)
  {
    hide CountOf;
    PutIs(map[], act.a, act.r);
  }

  // And an update above every height in the cache, which is what a next block is when
  // nobody has asked ahead of it, can only drop.
  lemma NextOnlyDrops<R>(s: Snap<R>, act: Act, fork: Fork, h: nat, a: Addr)
    requires act.Update? && h in s.counts && s.Sound() && forall j | j in s.counts :: j < act.h
    ensures Recounts(s, act, fork, h, a) <==> act.done && h == act.h - 2 * SORT_BLOCKS - 1
  {
    hide Renewed;
  }

  // ---- Cached counts against the chain ----

  // A miner's amount after each block, if it has a record.
  type Amounts = (int, Addr) -> Option<int>

  function InTickets(amount: Option<int>, price: int): int
    requires price > 0
  {
    match amount
    case None => 0
    case Some(x) => Quo(x, price)
  }

  // What a's count at h should be.
  function MinerTruth(after: Amounts, fork: Fork, h: int, a: Addr): int
    requires fork.Valid()
  {
    if fork.Active(h) then InTickets(after(h, a), fork.Price(h)) else 0
  }

  // No stake is entrusted before the fork.
  ghost predicate FromFork(after: Amounts, fork: Fork) {
    forall h, a | !fork.Active(h) :: after(h, a).None?
  }

  // Calls read the chain as it then is; an update reads the state after its own block, and
  // a miner that no transaction of a decodable block touches keeps its amount.
  ghost predicate ReadsChain(act: Act, after: Amounts) {
    && (forall a :: act.st.amountOf(a) == after(act.st.current, a))
    && (act.Update? ==> act.st.current == act.h)
    && (act.Update? && act.done ==> forall a | a !in act.touched :: after(act.h, a) == after(act.h - 1, a))
  }

  ghost predicate AllRight<R>(s: Snap<R>, after: Amounts, fork: Fork)
    requires fork.Valid()
  {
    forall h, a | h in s.counts && a in s.counts[h] :: s.counts[h][a] == MinerTruth(after, fork, h, a)
  }

  // Heights that share a map have the same true counts.
  ghost predicate Alike<R>(s: Snap<R>, after: Amounts, fork: Fork)
    requires fork.Valid()
  {
    forall j, k | j in s.refs && k in s.refs && s.refs[j].Some? && s.refs[j] == s.refs[k] :: SameTruth(after, fork, j, k)
  }

  // A lookup that finds nothing recorded is answered while the miner's amount over the
  // price is what it was after the block it asks about.
  ghost predicate InTime<R>(s: Snap<R>, act: Act, after: Amounts, fork: Fork)
    requires fork.Valid()
  {
    act.Lookup? && !(act.h in s.counts && act.a in s.counts[act.h]) && fork.Active(act.h) ==>
      InTickets(after(act.st.current, act.a), fork.Price(act.st.current)) == InTickets(after(act.h, act.a), fork.Price(act.h))
  }

  lemma CountIs(a: Addr, h: int, fork: Fork, act: Act, after: Amounts)
    requires fork.Valid() && ReadsChain(act, after)
    ensures CountOf(a, h, fork, act.st) ==
      if fork.Active(h) then InTickets(after(act.st.current, a), fork.Price(act.st.current)) else 0
  {
    hide Quo;
  }

  // A block that touches nobody moves no true count.
  lemma UntouchedTruth(act: Act, after: Amounts, fork: Fork, a: Addr)
    requires fork.Valid() && FromFork(after, fork) && ReadsChain(act, after)
    requires act.Update? && act.done && act.touched == {}
    ensures MinerTruth(after, fork, act.h, a) == MinerTruth(after, fork, act.h - 1, a)
  {
    hide Quo;
  }

  ghost predicate SameTruth(after: Amounts, fork: Fork, j: int, k: int)
    requires fork.Valid()
  {
    forall a: Addr :: MinerTruth(after, fork, j, a) == MinerTruth(after, fork, k, a)
  }

  lemma UntouchedHeights(act: Act, after: Amounts, fork: Fork)
    requires fork.Valid() && FromFork(after, fork) && ReadsChain(act, after)
    requires act.Update? && act.done && act.touched == {}
    ensures SameTruth(after, fork, act.h, act.h - 1)
  {
    hide MinerTruth, FromFork, ReadsChain;
    forall a: Addr ensures MinerTruth(after, fork, act.h, a) == MinerTruth(after, fork, act.h - 1, a) {
      UntouchedTruth(act, after, fork, a);
    }
  }

  // A write leaves heights that share a map alike: a new map is shared with none, and a map
  // is taken over only where the true counts are those of the height before.
  lemma WroteAlike<R>(s: Snap<R>, h: nat, m: map<Addr, int>, carry: bool, s': Snap<R>, after: Amounts, fork: Fork)
    requires fork.Valid() && s.Sound() && Wrote(s, h, m, carry, s') && Alike(s, after, fork)
    requires carry && m == map[] ==> SameTruth(after, fork, h, h - 1)
    ensures Alike(s', after, fork)
  {
    hide SameTruth, Wrote, Snap<R>.Sound;
    forall j, k | j in s'.refs && k in s'.refs && s'.refs[j].Some? && s'.refs[j] == s'.refs[k]
      ensures SameTruth(after, fork, j, k)
    {
      NewShares(s, h, m, carry, s', j);
      NewShares(s, h, m, carry, s', k);
      SameTruthFacts(after, fork, h, h - 1, k);
      SameTruthFacts(after, fork, j, h - 1, h);
    }
  }

  // The map of h after a write: its own as before, a new one, or that of the height before.
  lemma NewShares<R>(s: Snap<R>, h: nat, m: map<Addr, int>, carry: bool, s': Snap<R>, k: nat)
    requires s.Sound() && Wrote(s, h, m, carry, s') && k in s'.refs
    ensures k != h ==> k in s.refs && s'.refs[k] == s.refs[k]
    ensures k == h ==>
      || (h in s.refs && s'.refs[h] == s.refs[h])
      || (forall j | j in s.refs :: s.refs[j] != s'.refs[h])
      || (carry && m == map[] && (if h - 1 in s.refs then s'.refs[h] == s.refs[h - 1] else s'.refs[h] == None))
  {
    hide Snap<R>.Sound, Snap<R>.Shares;
    if k != h && k in s.refs { assert WroteOther(s, h, m, k, s'); }
  }

  lemma SameTruthFacts(after: Amounts, fork: Fork, i: int, j: int, k: int)
    requires fork.Valid()
    ensures SameTruth(after, fork, i, i) && SameTruth(after, fork, j, j) && SameTruth(after, fork, k, k)
    ensures SameTruth(after, fork, i, j) <==> SameTruth(after, fork, j, i)
    ensures SameTruth(after, fork, j, k) <==> SameTruth(after, fork, k, j)
    ensures SameTruth(after, fork, i, j) && SameTruth(after, fork, j, k) ==> SameTruth(after, fork, i, k)
  {
    hide MinerTruth;
  }

  lemma NothingTouched<R>(s: Snap<R>, act: Act, fork: Fork)
    requires fork.Valid() && s.Sound() && act.Update? && WrittenBy(s, act, fork) == map[]
    ensures act.touched == {}
  {
    hide CountOf;
    assert act.touched <= WrittenBy(s, act, fork).Keys;
  }

  // A call that writes nothing but carries over is at a block that moves no true count.
  lemma CarriedTruth<R>(s: Snap<R>, act: Act, after: Amounts, fork: Fork)
    requires fork.Valid() && s.Sound() && FromFork(after, fork) && ReadsChain(act, after)
    ensures act.Update? && act.done && WrittenBy(s, act, fork) == map[] ==> SameTruth(after, fork, act.h, act.h - 1)
  {
    hide FromFork, ReadsChain, SameTruth, WrittenBy;
    if act.Update? && act.done && WrittenBy(s, act, fork) == map[] {
      NothingTouched(s, act, fork);
      UntouchedHeights(act, after, fork);
    }
  }

  lemma AlikeStays<R>(s: Snap<R>, act: Act, s': Snap<R>, after: Amounts, fork: Fork)
    requires fork.Valid() && s.Sound() && CountStep(s, act, s', fork)
    requires FromFork(after, fork) && ReadsChain(act, after) && Alike(s, after, fork)
    ensures Alike(s', after, fork)
  {
    hide *;
    StepWrote(s, act, s', fork);
    CarriedTruth(s, act, after, fork);
    WroteAlike(s, act.h, WrittenBy(s, act, fork), act.Update? && act.done, s', after, fork);
  }

  // One write goes to every height that shares the map: the counts stay right if and only if
  // what is written is right for the height it is written for.
  lemma WroteRightIff<R>(s: Snap<R>, h: nat, m: map<Addr, int>, carry: bool, s': Snap<R>, after: Amounts, fork: Fork)
    requires fork.Valid() && s.Sound() && Wrote(s, h, m, carry, s') && Alike(s, after, fork) && AllRight(s, after, fork)
    requires carry && m == map[] ==> SameTruth(after, fork, h, h - 1)
    ensures AllRight(s', after, fork) <==> forall a | a in m :: m[a] == MinerTruth(after, fork, h, a)
  {
    hide MinerTruth;
    if forall a | a in m :: m[a] == MinerTruth(after, fork, h, a) {
      forall k, b | k in s'.counts && b in s'.counts[k] ensures s'.counts[k][b] == MinerTruth(after, fork, k, b) {
        if k != h && s.Shares(h, k) { assert SameTruth(after, fork, h, k); }
      }
    }
    if AllRight(s', after, fork) {
      forall a | a in m ensures m[a] == MinerTruth(after, fork, h, a) {
        assert h in s'.counts && a in s'.counts[h] && s'.counts[h][a] == m[a];
      }
    }
  }

  // What a call writes is right exactly when it comes in time.
  lemma WrittenRightIff<R>(s: Snap<R>, act: Act, after: Amounts, fork: Fork)
    requires fork.Valid() && s.Sound() && ReadsChain(act, after)
    ensures (forall a | a in WrittenBy(s, act, fork) :: WrittenBy(s, act, fork)[a] == MinerTruth(after, fork, act.h, a)) <==> InTime(s, act, after, fork)
  {
    forall a: Addr ensures CountOf(a, act.h, fork, act.st) ==
      if fork.Active(act.h) then InTickets(after(act.st.current, a), fork.Price(act.st.current)) else 0
    {
      CountIs(a, act.h, fork, act, after);
    }
    hide CountOf, InTickets, Renewed;
    if act.Lookup? && !(act.h in s.counts && act.a in s.counts[act.h]) {
      assert act.a in WrittenBy(s, act, fork);
    }
  }

  lemma StepRightIff<R>(s: Snap<R>, act: Act, s': Snap<R>, after: Amounts, fork: Fork)
    requires fork.Valid() && s.Sound() && CountStep(s, act, s', fork)
    requires FromFork(after, fork) && ReadsChain(act, after) && Alike(s, after, fork) && AllRight(s, after, fork)
    ensures AllRight(s', after, fork) <==> InTime(s, act, after, fork)
  {
    hide *;
    StepWrote(s, act, s', fork);
    CarriedTruth(s, act, after, fork);
    WroteRightIff(s, act.h, WrittenBy(s, act, fork), act.Update? && act.done, s', after, fork);
    WrittenRightIff(s, act, after, fork);
  }

  lemma {:induction false} AlikeOnRuns<R>(states: seq<Snap<R>>, acts: seq<Act>, after: Amounts, fork: Fork, n: nat)
    requires IsCountRun(states, acts, fork) && FromFork(after, fork) && n < |states|
    requires forall k | 0 <= k < |acts| :: ReadsChain(acts[k], after)
    ensures Alike(states[n], after, fork)
  {
    hide CountStep, FromFork, ReadsChain, MinerTruth;
    if n > 0 {
      AlikeOnRuns(states, acts, after, fork, n - 1);
      AlikeStays(states[n - 1], acts[n - 1], states[n], after, fork);
    }
  }

  // Over every run of updates and lookups: all recorded counts are the miners' stakes after
  // their blocks over the prices there, up to step n, if and only if each lookup before n
  // that found nothing recorded came in time.
  lemma {:induction false} CountsRightIff<R>(states: seq<Snap<R>>, acts: seq<Act>, after: Amounts, fork: Fork, n: nat)
    requires IsCountRun(states, acts, fork) && FromFork(after, fork) && n <= |acts|
    requires forall k | 0 <= k < |acts| :: ReadsChain(acts[k], after)
    ensures (forall i | 0 <= i <= n :: AllRight(states[i], after, fork))
       <==> (forall i | 0 <= i < n :: InTime(states[i], acts[i], after, fork))
  {
    hide CountStep, FromFork, ReadsChain, AllRight, InTime, Alike;
    if n == 0 {
      NothingWrong(states[0], after, fork);
    } else {
      CountsRightIff(states, acts, after, fork, n - 1);
      AlikeOnRuns(states, acts, after, fork, n - 1);
      if AllRight(states[n - 1], after, fork) { StepRightIff(states[n - 1], acts[n - 1], states[n], after, fork); }
    }
  }

  lemma NothingWrong<R>(s: Snap<R>, after: Amounts, fork: Fork)
    requires fork.Valid() && s.counts == map[]
    ensures AllRight(s, after, fork)
  {
  }

  // Step n looks up a at h and gets r, and no lookup so far came late.
  ghost predicate LooksUp<R>(states: seq<Snap<R>>, acts: seq<Act>, after: Amounts, fork: Fork, n: nat, h: int, a: Addr, r: int) {
    && IsCountRun(states, acts, fork) && FromFork(after, fork) && (forall k | 0 <= k < |acts| :: ReadsChain(acts[k], after))
    && n < |acts| && acts[n].Lookup? && acts[n].h == h && acts[n].a == a && acts[n].r == r
    && (forall i | 0 <= i <= n :: InTime(states[i], acts[i], after, fork))
  }

  lemma TimelyLookup<R>(states: seq<Snap<R>>, acts: seq<Act>, after: Amounts, fork: Fork, n: nat, h: int, a: Addr, r: int)
    requires LooksUp(states, acts, after, fork, n, h, a, r)
    ensures r == MinerTruth(after, fork, h, a)
  {
    hide CountStep, FromFork, ReadsChain, InTime, MinerTruth;
    CountsRightIff(states, acts, after, fork, n + 1);
    assert CountStep(states[n], acts[n], states[n + 1], fork) && AllRight(states[n + 1], after, fork);
    LookedUpCount(states[n], acts[n], states[n + 1], fork);
  }

  // ---- A count that is wrong ----

  // Miner 7 holds 2 tickets up to block 5 and 3 from block 6 on.
  function Seven(h: int, a: Addr): Option<int> {
    if h < 0 then None
    else if a == 7 then Some(if h < 6 then 2 else 3)
    else if a == 9 then Some(if h < 5 then 0 else 1)
    else None
  }

  function ViewAt(h: int): View {
    View(Some(0), (a: Addr) => Seven(h, a), h)
  }

  // Block 5 touches miner 9 only, so its map holds nobody else; block 6 raises miner 7.
  // Looked up then, miner 7's count at height 5 is recorded as 3, which is its stake after
  // block 6 and not after block 5.
  lemma LateLookup() returns (states: seq<Snap<nat>>, acts: seq<Act>, fork: Fork)
    ensures IsCountRun(states, acts, fork) && FromFork(Seven, fork) && |acts| == 3
    ensures forall k | 0 <= k < |acts| :: ReadsChain(acts[k], Seven)
    ensures acts[2] == Lookup(5, 7, 3, ViewAt(6)) && MinerTruth(Seven, fork, 5, 7) == 2
    ensures 5 in states[3].counts && 7 in states[3].counts[5] && states[3].counts[5][7] == 3
  {
    hide CountStep, Snap<nat>.Sound, FromFork, ReadsChain, Quo, IsCountRun, CountOf, MinerTruth;
    fork := Fork(0, 1, 1);
    var s0: Snap<nat> := Snap(map[], map[]);
    var s1 := Touch1(s0, 5, 9, 1);
    var s2 := Touch1(s1, 6, 7, 3);
    var m: map<Addr, int> := s2.counts[5][7 := 3];
    var s3 := Snap(s2.refs, s2.counts[5 := m]);
    states, acts := [s0, s1, s2, s3], [Update(5, {9}, true, ViewAt(5)), Update(6, {7}, true, ViewAt(6)), Lookup(5, 7, 3, ViewAt(6))];
    LateReads(acts, fork);
    TouchStep(s0, 5, 9, 1, fork);
    TouchStep(s1, 6, 7, 3, fork);
    MissStep(s2, 5, 7, 3, fork, ViewAt(6));
    ThreeSteps(states, acts, fork);
  }

  lemma LateReads(acts: seq<Act>, fork: Fork)
    requires fork == Fork(0, 1, 1)
    requires acts == [Update(5, {9}, true, ViewAt(5)), Update(6, {7}, true, ViewAt(6)), Lookup(5, 7, 3, ViewAt(6))]
    ensures FromFork(Seven, fork) && MinerTruth(Seven, fork, 5, 7) == 2 && CountOf(7, 5, fork, ViewAt(6)) == 3
    ensures forall k | 0 <= k < |acts| :: ReadsChain(acts[k], Seven)
  {
  }

  // A map of its own for h, holding one count.
  function Touch1(s: Snap<nat>, h: nat, a: Addr, r: int): Snap<nat> {
    Snap(s.refs[h := Some(h)], s.counts[h := map[a := r]])
  }

  // Every height has its own map, named by the height.
  ghost predicate Apart(s: Snap<nat>) {
    s.refs.Keys == s.counts.Keys && forall k | k in s.refs :: s.refs[k] == Some(k)
  }

  lemma TouchStep(s: Snap<nat>, h: nat, a: Addr, r: int, fork: Fork)
    requires fork == Fork(0, 1, 1) && 0 < h < 20 && Seven(h, a) == Some(r) && r >= 0
    requires Apart(s) && forall k | k in s.refs :: k < h
    ensures Apart(Touch1(s, h, a, r)) && s.Sound() && Touch1(s, h, a, r).Sound()
    ensures CountStep(s, Update(h, {a}, true, ViewAt(h)), Touch1(s, h, a, r), fork)
  {
    TouchCount(s.counts, h, a, r, fork);
    PutIs(map[], a, r);
    hide Fresh, Renewed, CountOf, Quo, Seven;
  }

  lemma TouchCount(c: Counts, h: nat, a: Addr, r: int, fork: Fork)
    requires fork == Fork(0, 1, 1) && h > 0 && Seven(h, a) == Some(r) && r >= 0
    ensures Fresh(Renewed(c, h, {a}, true, fork), h, fork, ViewAt(h)) == map[a := r]
  {
    assert CountOf(a, h, fork, ViewAt(h)) == r;
    assert Renewed(c, h, {a}, true, fork) == {a};
  }

  lemma MissStep(s: Snap<nat>, h: nat, a: Addr, r: int, fork: Fork, st: View)
    requires fork.Valid() && Apart(s) && h in s.counts && a !in s.counts[h] && r == CountOf(a, h, fork, st)
    ensures var m: map<Addr, int> := s.counts[h][a := r];
      var s' := Snap(s.refs, s.counts[h := m]);
      s.Sound() && s'.Sound() && CountStep(s, Lookup(h, a, r, st), s', fork)
  {
    var m: map<Addr, int> := s.counts[h][a := r];
    var s', one: map<Addr, int> := Snap(s.refs, s.counts[h := m]), map[a := r];
    PutIs(s.counts[h], a, r);
    hide CountOf;
    assert s.Sound() && s'.Sound();
    hide Snap<nat>.Sound;
    forall k | k in s.refs && k != h ensures WroteOther(s, h, one, k, s') { }
    hide WroteOther;
    assert Wrote(s, h, one, false, s');
    hide Wrote;
  }

  lemma ThreeSteps(states: seq<Snap<nat>>, acts: seq<Act>, fork: Fork)
    requires fork.Valid() && |acts| == 3 && |states| == 4 && states[0] == Snap(map[], map[])
    requires states[0].Sound() && states[1].Sound() && states[2].Sound() && states[3].Sound()
    requires CountStep(states[0], acts[0], states[1], fork)
    requires CountStep(states[1], acts[1], states[2], fork)
    requires CountStep(states[2], acts[2], states[3], fork)
    ensures IsCountRun(states, acts, fork)
  {
    hide CountStep, Snap<nat>.Sound;
    forall k | 0 <= k < |acts| ensures CountStep(states[k], acts[k], states[k + 1], fork) {
      assert k == 0 || k == 1 || k == 2;
    }
  }
}
