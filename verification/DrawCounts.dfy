// The counts a node draws and checks sorts with are those of its caches: the frozen total
// and the stake after the block ten below, for a node that has counted that block and asks
// in time (plugin/consensus/pos33/pos33.go:117-131, 150-154, 254-275; sortition.go:101-122, 154-204;
// node.go:672-678).
module DrawCounts {
  import opened Options
  import opened Params
  import opened Messages
  import opened Sortition
  import C = CountCache

  // The totals of a node that has counted some blocks of a run from start on, and whose
  // chain is at height current.
  datatype Totals = Totals(start: nat, before: Option<int>, blocks: seq<C.Block>, acs: seq<map<int, int>>, counted: nat, current: int)
  {
    // The node has counted block b, whose transactions all decode, and not yet pruned it.
    ghost predicate Has(b: int) {
      counted <= |blocks| && start <= b < start + counted <= b + 2 * SORT_BLOCKS + 1 && C.Decodable(blocks[b - start].txs)
    }

    function FrozenAt(b: int): Option<int>
      requires start <= b < start + |blocks|
    {
      blocks[b - start].st.total
    }
  }

  // env answers allCount from these totals.
  ghost predicate TotalsOf(env: Env, t: Totals, fork: C.Fork) {
    && C.IsTotalRun(t.start, t.before, t.blocks, t.acs, fork) && t.counted <= |t.blocks|
    && forall h: int :: env.total(h) == C.TotalAt(t.acs[t.counted], h, t.current)
  }

  // The block whose counts decide a draw for a height.
  function Base(height: int): nat {
    At(height - SORT_BLOCKS)
  }

  // A draw for a height uses the frozen total after the block ten below over the price there.
  lemma DrawTotal(env: Env, t: Totals, fork: C.Fork, height: int)
    requires TotalsOf(env, t, fork) && t.Has(Base(height))
    ensures env.total(Base(height)) == C.Truth(t.FrozenAt(Base(height)), Base(height), fork)
  {
    hide C.IsTotalRun, C.Truth, C.Decodable;
    C.TotalsRead(t.start, t.before, t.blocks, t.acs, fork, t.counted, Base(height), t.current);
  }

  // A block is queued for the node's loop before updateTicketCount counts it. A draw that
  // comes first, with that block current already, finds no total, and then every ticket wins.
  lemma EarlyDraw(env: Env, t: Totals, fork: C.Fork, height: int, hash: Hash)
    requires TotalsOf(env, t, fork) && t.start + t.counted <= Base(height) == t.current
    ensures env.total(Base(height)) == 0 && Wins(hash, env.total(Base(height)))
  {
    hide C.IsTotalRun, C.Truth, C.Decodable;
    C.TotalsRead(t.start, t.before, t.blocks, t.acs, fork, t.counted, Base(height), t.current);
  }

  // Two nodes that have counted the same block, whatever they counted before and after it,
  // draw and check with the same total: a sort drawn at one passes at the other exactly
  // when its ticket exists there.
  lemma PassesOnTickets(env: Env, other: Env, chain: seq<Hash>, key: PubKey, d: Draw, round: int, ss: seq<SortMsg>, m: SortMsg,
                        t: Totals, u: Totals, fork: C.Fork)
    requires env.Ideal() && DrawsWith(chain, d) && other == env.(count := other.count, total := other.total)
    requires CommitteeSort(env, key, d.seed, d.height, round, ss) && m in ss
    requires TotalsOf(env, t, fork) && TotalsOf(other, u, fork) && t.Has(Base(d.height)) && u.Has(Base(d.height))
    requires t.FrozenAt(Base(d.height)) == u.FrozenAt(Base(d.height))
    ensures CheckSort(other, chain, m) <==> d.height <= SORT_BLOCKS || m.index < TicketsOf(other, key, d.height)
  {
    hide CheckSort, CommitteeSort, DrawsWith, Wins, TotalsOf, Totals.Has, C.Truth;
    DrawTotal(env, t, fork, d.height);
    DrawTotal(other, u, fork, d.height);
    assert env.total(Base(d.height)) == other.total(Base(d.height));
    PassesElsewhereIff(env, other, chain, key, d, round, ss, m);
    WinningTicket(env, key, d, round, ss, m);
  }

  lemma WinningTicket(env: Env, key: PubKey, d: Draw, round: int, ss: seq<SortMsg>, m: SortMsg)
    requires CommitteeSort(env, key, d.seed, d.height, round, ss) && m in ss
    ensures m.index < TicketsOf(env, key, d.height) && Wins(m.hash, env.total(Base(d.height)))
  {
    CommitteeSortDraws(env, key, d.seed, d.height, round, ss, m);
    hide Wins, CommitteeSort;
  }

  // And if neither has looked a count up late, it passes: both see the stake after that
  // block, from the caches they have each built in their own way.
  lemma PassesOnChain<R, S>(env: Env, other: Env, chain: seq<Hash>, key: PubKey, d: Draw, round: int, ss: seq<SortMsg>, m: SortMsg,
                            t: Totals, u: Totals, after: C.Amounts, fork: C.Fork,
                            states: seq<C.Snap<R>>, acts: seq<C.Act>, n: nat, states': seq<C.Snap<S>>, acts': seq<C.Act>, n': nat)
    requires env.Ideal() && DrawsWith(chain, d) && other == env.(count := other.count, total := other.total)
    requires CommitteeSort(env, key, d.seed, d.height, round, ss) && m in ss
    requires TotalsOf(env, t, fork) && TotalsOf(other, u, fork) && t.Has(Base(d.height)) && u.Has(Base(d.height))
    requires t.FrozenAt(Base(d.height)) == u.FrozenAt(Base(d.height))
    requires C.LooksUp(states, acts, after, fork, n, Base(d.height), env.addrOf(key), TicketsOf(env, key, d.height))
    requires C.LooksUp(states', acts', after, fork, n', Base(d.height), env.addrOf(key), TicketsOf(other, key, d.height))
    ensures CheckSort(other, chain, m)
  {
    hide TotalsOf, C.LooksUp, C.MinerTruth, Totals.Has, CheckSort, CommitteeSort, DrawsWith, Wins;
    C.TimelyLookup(states, acts, after, fork, n, Base(d.height), env.addrOf(key), TicketsOf(env, key, d.height));
    C.TimelyLookup(states', acts', after, fork, n', Base(d.height), env.addrOf(key), TicketsOf(other, key, d.height));
    WinningTicket(env, key, d, round, ss, m);
    PassesOnTickets(env, other, chain, key, d, round, ss, m, t, u, fork);
  }
}
