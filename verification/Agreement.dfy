// A network of nodes running one height and round: whatever the order of freezing,
// voting, delivering and making, at most one node makes a block
// (plugin/consensus/pos33/node.go:303-349, 723-782, 1124-1166).
module Agreement {
  import opened Order
  import opened Params
  import opened Messages
  import opened Committee
  import opened Node

  // One identity per node, the shared committee, and the owner each sort hash proves:
  // the VRF gives a sort hash to one key only.
  datatype Config = Config(ids: seq<Identity>, comm: seq<SortMsg>, owner: Hash -> Addr)
  {
    ghost predicate Valid() {
      Owned() && StrictlySorted(Hashes(comm)) && |comm| <= VOTER_SIZE
    }

    ghost predicate Owned() {
      && (forall i, j | 0 <= i < j < |ids| :: ids[i].me != ids[j].me)
      && (forall i, s | 0 <= i < |ids| && s in comm :: ids[i].addrOf(s.proof.pubkey) == owner(s.hash))
    }
  }

  // sent[j] are the block votes node j has broadcast; (i, j) in delivered says that they
  // have reached i, which happens at most once. selections are the committee votes broadcast
  // so far, which can reach a node any number of times.
  datatype Net = Net(nodes: seq<CState>, sent: seq<seq<VoteMsg>>, delivered: set<(nat, nat)>, selections: seq<SortsVote>)

  datatype Action =
    | Freeze(i: nat, pre: bool)
    | Vote(i: nat, verify: PreBlock -> bool, checked: bool, chain: Chain, keys: seq<VoteMsg>)
    | Deliver(i: nat, j: nat, checked: bool, chain: Chain, keys: seq<VoteMsg>)
    | Make(i: nat, chain: Chain, keys: seq<VoteMsg>)
    | Collect(i: nat, myss: seq<SortMsg>, css: map<Hash, SortMsg>, svmp: map<Hash, nat>, bmp: map<Hash, PreBlock>)
    | Elect(i: nat, pubkey: PubKey, checkSort: SortMsg -> bool)
    | Count(i: nat, m: SortsVote, signed: bool, checkSort: SortMsg -> bool)

  // Collect stands for any other message: sorts, pre-blocks, and committee votes of senders
  // that do not follow this code.
  ghost predicate Step(cfg: Config, s: Net, a: Action, s': Net) {
    && a.i < |cfg.ids| == |s.nodes| == |s.sent| == |s'.nodes|
    && var c, c' := s.nodes[a.i], s'.nodes[a.i];
    && s'.nodes == s.nodes[a.i := c'] && (a.Elect? || s'.selections == s.selections)
    && match a
       case Freeze(i, pre) => c' == (if pre then PreMade(c, cfg.ids[i]) else Set(c, cfg.ids[i])) && s'.sent == s.sent && s'.delivered == s.delivered
       case Vote(i, verify, checked, chain, keys) =>
         var r := CastVotes(c, cfg.ids[i], verify);
         && HandlesVotes(r.c, r.votes, checked, chain, c', keys)
         && s'.sent == (if r.votes == [] then s.sent else s.sent[i := r.votes])
         && s'.delivered == (if r.votes == [] then s.delivered else s.delivered + {(i, i)})
       case Deliver(i, j, checked, chain, keys) =>
         && j < |s.sent| && s.sent[j] != [] && (i, j) !in s.delivered
         && HandlesVotes(c, s.sent[j], checked, chain, c', keys)
         && s'.sent == s.sent && s'.delivered == s.delivered + {(i, j)}
       case Make(i, chain, keys) => MakesBlock(c, chain, c', keys) && s'.sent == s.sent && s'.delivered == s.delivered
       case Collect(i, myss, css, svmp, bmp) =>
         && (forall x | x in myss :: cfg.owner(x.hash) == cfg.ids[i].me)
         && c' == c.(myss := myss, css := css, svmp := svmp, bmp := bmp)
         && s'.sent == s.sent && s'.delivered == s.delivered
       case Elect(i, pubkey, checkSort) =>
         var m := CommitteeVote(c.css, cfg.ids[i], pubkey);
         && c' == c.(svmp := if m.Some? then CountedVote(c.svmp, m.value, true, false, checkSort) else c.svmp)
         && s'.selections == (if m.Some? then s.selections + [m.value] else s.selections)
         && s'.sent == s.sent && s'.delivered == s.delivered
       case Count(i, m, signed, checkSort) =>
         && m in s.selections && c' == c.(svmp := CountedVote(c.svmp, m, false, signed, checkSort))
         && s'.sent == s.sent && s'.delivered == s.delivered
  }

  ghost predicate Initial(cfg: Config, s: Net) {
    && |s.nodes| == |s.sent| == |cfg.ids|
    && (forall i | 0 <= i < |s.nodes| :: s.nodes[i] == FRESH && s.sent[i] == [])
    && s.delivered == {} && s.selections == []
  }

  ghost predicate IsRun(cfg: Config, states: seq<Net>, acts: seq<Action>) {
    && |states| == |acts| + 1 && Initial(cfg, states[0])
    && (forall k | 0 <= k < |acts| :: Step(cfg, states[k], acts[k], states[k + 1]))
  }

  // A node that has frozen its committee has frozen the shared one, or, for want of
  // committee votes, an empty one.
  ghost predicate Shared(cfg: Config, s: Net) {
    forall i | 0 <= i < |s.nodes| && s.nodes[i].setted :: s.nodes[i].comm in {cfg.comm, []}
  }

  ghost predicate SharedRun(cfg: Config, states: seq<Net>, acts: seq<Action>) {
    IsRun(cfg, states, acts) && cfg.Valid() && forall k | 0 <= k < |states| :: Shared(cfg, states[k])
  }

  // ---- What a ballot box can hold ----

  // v was broadcast by node j, for its own sort of the shared committee.
  ghost predicate CastBy(cfg: Config, sent: seq<seq<VoteMsg>>, j: nat, v: VoteMsg) {
    && j < |sent| && j < |cfg.ids| && v in sent[j]
    && v.round == 0 && v.sort in cfg.comm && cfg.owner(v.sort.hash) == cfg.ids[j].me
  }

  ghost predicate Uniform(vs: seq<VoteMsg>) {
    forall v, w | v in vs && w in vs :: v.hash == w.hash && v.round == w.round
  }

  // What j broadcasts: votes of its own committee sorts for one hash, each sort once.
  ghost predicate BroadcastOk(cfg: Config, sent: seq<seq<VoteMsg>>, j: nat)
    requires j < |sent|
  {
    && Uniform(sent[j])
    && (forall v | v in sent[j] :: CastBy(cfg, sent, j, v))
    && (forall v :: multiset(sent[j])[v] <= 1)
  }

  ghost predicate BallotsOk(cfg: Config, s: Net, i: nat, h: Hash)
    requires i < |s.nodes|
  {
    var box := multiset(s.nodes[i].VotesFor(h));
    && (forall v | v in box :: v.hash == h && exists j: nat :: CastBy(cfg, s.sent, j, v) && (i, j) in s.delivered)
    && (forall v :: box[v] <= 1)
  }

  ghost predicate StateOk(cfg: Config, i: nat, c: CState)
    requires i < |cfg.ids|
  {
    && (if c.setted then c.candidates == CandidatesOf(c.comm, cfg.ids[i].addrOf) else c.comm == [] && c.candidates == [])
    && (forall x | x in c.myss :: cfg.owner(x.hash) == cfg.ids[i].me)
    && (c.maked ==> exists h :: |c.VotesFor(h)| >= MAJORITY && cfg.owner(h) == cfg.ids[i].me)
  }

  ghost predicate NodeOk(cfg: Config, s: Net, i: nat)
    requires i < |s.nodes| == |s.sent| == |cfg.ids|
  {
    StateOk(cfg, i, s.nodes[i]) && (s.sent[i] != [] ==> s.nodes[i].voted)
  }

  ghost predicate Inv(cfg: Config, s: Net) {
    && |s.nodes| == |s.sent| == |cfg.ids|
    && (forall i | 0 <= i < |s.nodes| :: NodeOk(cfg, s, i))
    && (forall j | 0 <= j < |s.sent| :: BroadcastOk(cfg, s.sent, j))
    && (forall i, h: Hash | 0 <= i < |s.nodes| :: BallotsOk(cfg, s, i, h))
    && (forall d | d in s.delivered :: d.1 < |s.sent| && s.sent[d.1] != [])
  }

  // ---- Two majorities share a voter ----

  lemma {:induction false} DistinctSorts(cfg: Config, V: set<VoteMsg>, h: Hash)
    requires StrictlySorted(Hashes(cfg.comm))
    requires forall v | v in V :: v.hash == h && v.round == 0 && v.sort in cfg.comm
    ensures |set v | v in V :: v.sort.hash| == |V|
  {
    if V != {} {
      var v :| v in V;
      var W := V - {v};
      DistinctSorts(cfg, W, h);
      var A, B := set x | x in V :: x.sort.hash, set x | x in W :: x.sort.hash;
      forall w | w in W ensures w.sort.hash != v.sort.hash {
        if w.sort.hash == v.sort.hash { SameHashSameSort(cfg.comm, v.sort, w.sort); }
      }
      assert A == B + {v.sort.hash};
    }
  }

  lemma SameHashSameSort(ss: seq<SortMsg>, x: SortMsg, y: SortMsg)
    requires StrictlySorted(Hashes(ss)) && x in ss && y in ss && x.hash == y.hash
    ensures x == y
  {
    var i :| 0 <= i < |ss| && ss[i] == x;
    var j :| 0 <= j < |ss| && ss[j] == y;
    assert Hashes(ss)[i] == Hashes(ss)[j];
  }

  lemma OverlapOf(A: set<Hash>, B: set<Hash>, U: set<Hash>)
    requires A <= U && B <= U && |A| + |B| > |U|
    ensures A * B != {}
  {
    Subset(A + B, U);
    assert |A + B| + |A * B| == |A| + |B|;
  }

  lemma {:induction false} Subset(A: set<Hash>, U: set<Hash>)
    requires A <= U
    ensures |A| <= |U|
  {
    if A != {} {
      var x :| x in A;
      Subset(A - {x}, U - {x});
    }
  }

  lemma {:induction false} HashCount(ss: seq<SortMsg>)
    ensures |Elements(Hashes(ss))| <= |ss|
  {
    if ss != [] {
      HashCount(ss[1..]);
      assert Hashes(ss) == [ss[0].hash] + Hashes(ss[1..]);
      assert Elements(Hashes(ss)) == {ss[0].hash} + Elements(Hashes(ss[1..]));
    }
  }

  // The sorts that voted for h at node i.
  ghost function SortsVoting(s: Net, i: nat, h: Hash): set<Hash>
    requires i < |s.nodes|
  {
    set v | v in s.nodes[i].VotesFor(h) :: v.sort.hash
  }

  lemma {:induction false} BoxSize(vs: seq<VoteMsg>, V: set<VoteMsg>)
    requires V == set v | v in vs
    requires forall v :: multiset(vs)[v] <= 1
    ensures |V| == |vs|
  {
    if vs == [] {
      assert V == {};
    } else {
      var rest := vs[1..];
      assert vs == [vs[0]] + rest;
      assert multiset(vs) == multiset{vs[0]} + multiset(rest);
      forall v ensures multiset(rest)[v] <= 1 { assert multiset(rest)[v] <= multiset(vs)[v]; }
      assert multiset(vs)[vs[0]] == 1 + multiset(rest)[vs[0]];
      assert vs[0] !in rest by { assert vs[0] in rest <==> multiset(rest)[vs[0]] > 0; }
      var W := set v | v in rest;
      BoxSize(rest, W);
      assert V == W + {vs[0]};
    }
  }

  lemma VotingSorts(cfg: Config, s: Net, i: nat, h: Hash)
    requires cfg.Valid() && Inv(cfg, s) && i < |s.nodes|
    ensures |SortsVoting(s, i, h)| == |s.nodes[i].VotesFor(h)|
    ensures SortsVoting(s, i, h) <= Elements(Hashes(cfg.comm))
    ensures forall x | x in SortsVoting(s, i, h) ::
      exists j: nat, v :: CastBy(cfg, s.sent, j, v) && v.sort.hash == x && v.hash == h
  {
    var vs := s.nodes[i].VotesFor(h);
    var V := set v | v in vs;
    assert BallotsOk(cfg, s, i, h);
    BoxSize(vs, V);
    forall v | v in V ensures v.hash == h && v.round == 0 && v.sort in cfg.comm && v.sort.hash in Hashes(cfg.comm) {
      assert v in multiset(vs);
      var j: nat :| CastBy(cfg, s.sent, j, v) && (i, j) in s.delivered;
      MemberHash(cfg.comm, v.sort);
    }
    DistinctSorts(cfg, V, h);
    assert SortsVoting(s, i, h) == set v | v in V :: v.sort.hash;
  }

  // No two hashes ever hold a majority, at the same node or at different ones.
  lemma OneMajority(cfg: Config, s: Net, i: nat, j: nat, h: Hash, g: Hash)
    requires cfg.Valid() && Inv(cfg, s) && i < |s.nodes| && j < |s.nodes|
    requires |s.nodes[i].VotesFor(h)| >= MAJORITY && |s.nodes[j].VotesFor(g)| >= MAJORITY
    ensures h == g
  {
    VotingSorts(cfg, s, i, h);
    VotingSorts(cfg, s, j, g);
    HashCount(cfg.comm);
    var A, B := SortsVoting(s, i, h), SortsVoting(s, j, g);
    OverlapOf(A, B, Elements(Hashes(cfg.comm)));
    hide SortsVoting, Elements, Hashes;
    var x :| x in A * B;
    var k: nat, v :| CastBy(cfg, s.sent, k, v) && v.sort.hash == x && v.hash == h;
    var l: nat, w :| CastBy(cfg, s.sent, l, w) && w.sort.hash == x && w.hash == g;
    SameCaster(cfg, s, k, v, l, w);
  }

  // Votes for one sort come from its owner, who votes for one hash.
  lemma SameCaster(cfg: Config, s: Net, k: nat, v: VoteMsg, l: nat, w: VoteMsg)
    requires cfg.Valid() && Inv(cfg, s) && CastBy(cfg, s.sent, k, v) && CastBy(cfg, s.sent, l, w) && v.sort.hash == w.sort.hash
    ensures v.hash == w.hash
  {
    assert k == l;
    assert BroadcastOk(cfg, s.sent, k);
  }

  // At most one node has made a block.
  lemma OneMaker(cfg: Config, s: Net, i: nat, j: nat)
    requires cfg.Valid() && Inv(cfg, s) && i < |s.nodes| && j < |s.nodes|
    requires s.nodes[i].maked && s.nodes[j].maked
    ensures i == j
  {
    assert NodeOk(cfg, s, i) && NodeOk(cfg, s, j);
    var h :| |s.nodes[i].VotesFor(h)| >= MAJORITY && cfg.owner(h) == cfg.ids[i].me;
    var g :| |s.nodes[j].VotesFor(g)| >= MAJORITY && cfg.owner(g) == cfg.ids[j].me;
    OneMajority(cfg, s, i, j, h, g);
  }

  // ---- Every step keeps the invariant ----

  ghost predicate SameButBallots(c: CState, c': CState) {
    c' == c.(bvmp := c'.bvmp, makerIsMe := c'.makerIsMe, maked := c'.maked) && (c.maked ==> c'.maked)
  }

  // Making a block may permute the ballots of one candidate; nothing else moves.
  lemma MakesEffect(c: CState, chain: Chain, c': CState, keys: seq<VoteMsg>)
    requires MakesBlock(c, chain, c', keys)
    ensures SameButBallots(c, c')
    ensures forall h :: multiset(c'.VotesFor(h)) == multiset(c.VotesFor(h))
    ensures c'.maked && !c.maked ==> exists x | x in c.myss :: |c'.VotesFor(x.hash)| >= MAJORITY
  {
    var s := MyCandidate(c.candidates, c.myss);
    MyCandidateIs(c.candidates, c.myss);
    if c' != c {
      var h := s.value.hash;
      SameSize(c'.VotesFor(h), c.VotesFor(h));
    }
  }

  ghost function Gained(added: bool, ms: seq<VoteMsg>, h: Hash): multiset<VoteMsg> {
    if added && ms != [] && h == ms[0].hash then multiset(ms) else multiset{}
  }

  lemma AddEffect(c: CState, ms: seq<VoteMsg>, h: Hash)
    requires ms != []
    ensures multiset(AddVotes(c, ms[0].hash, ms).VotesFor(h)) == multiset(c.VotesFor(h)) + Gained(true, ms, h)
    ensures SameButBallots(c, AddVotes(c, ms[0].hash, ms)) && AddVotes(c, ms[0].hash, ms).maked == c.maked
  {
  }

  lemma UniformPrefix(ms: seq<VoteMsg>)
    requires Uniform(ms)
    ensures SameVotes(ms) == ms
  {
    SamePrefixIs(ms, 0);
  }

  lemma AfterEffect(c: CState, h: Hash, chain: Chain, c': CState, keys: seq<VoteMsg>)
    requires AfterVotes(c, h, chain, c', keys)
    ensures SameButBallots(c, c')
    ensures forall g :: multiset(c'.VotesFor(g)) == multiset(c.VotesFor(g))
    ensures c'.maked && !c.maked ==> exists x | x in c.myss :: |c'.VotesFor(x.hash)| >= MAJORITY
  {
    hide MakesBlock, MyCandidate;
    if c' != c {
      MakesEffect(c.(makerIsMe := true), chain, c', keys);
    }
  }

  // Handling a broadcast adds all of it to one candidate's ballots, or nothing.
  lemma HandlesEffect(c: CState, ms: seq<VoteMsg>, checked: bool, chain: Chain, c': CState, keys: seq<VoteMsg>) returns (added: bool)
    requires HandlesVotes(c, ms, checked, chain, c', keys) && Uniform(ms)
    ensures SameButBallots(c, c')
    ensures forall h :: multiset(c'.VotesFor(h)) == multiset(c.VotesFor(h)) + Gained(added, ms, h)
    ensures c'.maked && !c.maked ==> exists x | x in c.myss :: |c'.VotesFor(x.hash)| >= MAJORITY
  {
    hide SameVotes, AddVotes, AfterVotes, CState.VotesFor;
    added := !(ms == [] || ms[0].sort.num >= 1 || chain.late || !checked);
    if added {
      UniformPrefix(ms);
      hide Uniform;
      var c1 := AddVotes(c, ms[0].hash, ms);
      forall h ensures multiset(c1.VotesFor(h)) == multiset(c.VotesFor(h)) + Gained(true, ms, h) {
        AddEffect(c, ms, h);
      }
      AddEffect(c, ms, 0);
      AfterEffect(c1, ms[0].hash, chain, c', keys);
    }
  }

  // A broadcast for one hash of the node's sorts of the shared committee.
  lemma BroadcastIsOk(cfg: Config, sent: seq<seq<VoteMsg>>, i: nat, h: Hash)
    requires cfg.Valid() && i < |cfg.ids| == |sent|
    requires sent[i] == VotesCast(Mine(cfg.comm, cfg.ids[i].addrOf, cfg.ids[i].me), h)
    ensures BroadcastOk(cfg, sent, i)
  {
    var mine := Mine(cfg.comm, cfg.ids[i].addrOf, cfg.ids[i].me);
    MineIs(cfg.comm, cfg.ids[i].addrOf, cfg.ids[i].me);
    assert NoDuplicates(sent[i]) by {
      forall a, b | 0 <= a < b < |mine| ensures sent[i][a] != sent[i][b] {
        assert Hashes(mine)[a] < Hashes(mine)[b];
      }
    }
    OnceEach(sent[i]);
    forall v | v in sent[i] ensures CastBy(cfg, sent, i, v) {
      var k :| 0 <= k < |mine| && sent[i][k] == v;
      assert mine[k] in mine;
    }
  }

  lemma {:induction false} OnceEach(vs: seq<VoteMsg>)
    requires NoDuplicates(vs)
    ensures forall v :: multiset(vs)[v] <= 1
  {
    if vs != [] {
      assert vs == [vs[0]] + vs[1..];
      OnceEach(vs[1..]);
    }
  }

  ghost predicate Extends(s: Net, s': Net) {
    && |s'.sent| == |s.sent| && s.delivered <= s'.delivered
    && forall j | 0 <= j < |s.sent| && s.sent[j] != [] :: s'.sent[j] == s.sent[j]
  }

  lemma CastByKept(cfg: Config, s: Net, s': Net, j: nat, v: VoteMsg)
    requires Extends(s, s') && CastBy(cfg, s.sent, j, v)
    ensures CastBy(cfg, s'.sent, j, v)
  {
  }

  // A ballot box that keeps its votes, up to order, stays sound.
  lemma BoxKept(cfg: Config, s: Net, s': Net, i: nat, h: Hash)
    requires i < |s.nodes| && i < |s'.nodes| && BallotsOk(cfg, s, i, h) && Extends(s, s')
    requires multiset(s'.nodes[i].VotesFor(h)) == multiset(s.nodes[i].VotesFor(h))
    ensures BallotsOk(cfg, s', i, h)
  {
    var box := multiset(s'.nodes[i].VotesFor(h));
    forall v | v in box ensures v.hash == h && exists j: nat :: CastBy(cfg, s'.sent, j, v) && (i, j) in s'.delivered {
      var j: nat :| CastBy(cfg, s.sent, j, v) && (i, j) in s.delivered;
      CastByKept(cfg, s, s', j, v);
    }
  }

  // So does one that receives a whole broadcast for the first time.
  lemma BoxGrows(cfg: Config, s: Net, s': Net, i: nat, j: nat, h: Hash)
    requires cfg.Valid() && i < |s.nodes| && i < |s'.nodes| && j < |s'.sent| && j < |cfg.ids|
    requires BallotsOk(cfg, s, i, h) && Extends(s, s') && BroadcastOk(cfg, s'.sent, j)
    requires (i, j) !in s.delivered && (i, j) in s'.delivered
    requires s'.sent[j] != [] && h == s'.sent[j][0].hash
    requires multiset(s'.nodes[i].VotesFor(h)) == multiset(s.nodes[i].VotesFor(h)) + multiset(s'.sent[j])
    ensures BallotsOk(cfg, s', i, h)
  {
    var old_, new_, box := multiset(s.nodes[i].VotesFor(h)), multiset(s'.sent[j]), multiset(s'.nodes[i].VotesFor(h));
    forall v | v in box
      ensures v.hash == h && (exists k: nat :: CastBy(cfg, s'.sent, k, v) && (i, k) in s'.delivered) && box[v] <= 1
    {
      if v in new_ {
        assert v in s'.sent[j] && CastBy(cfg, s'.sent, j, v);
      }
      if v in old_ {
        var k: nat :| CastBy(cfg, s.sent, k, v) && (i, k) in s.delivered;
        CastByKept(cfg, s, s', k, v);
        assert v in new_ ==> k == j;
      }
    }
  }

  lemma StateKept(cfg: Config, i: nat, c: CState, c': CState)
    requires i < |cfg.ids| && StateOk(cfg, i, c) && SameButBallots(c, c')
    requires forall h :: multiset(c.VotesFor(h)) <= multiset(c'.VotesFor(h))
    requires c'.maked && !c.maked ==> exists x | x in c.myss :: |c'.VotesFor(x.hash)| >= MAJORITY
    ensures StateOk(cfg, i, c')
  {
    if c.maked {
      var h :| |c.VotesFor(h)| >= MAJORITY && cfg.owner(h) == cfg.ids[i].me;
      NoFewer(c.VotesFor(h), c'.VotesFor(h));
    }
  }

  lemma NoFewer<T>(xs: seq<T>, ys: seq<T>)
    requires multiset(xs) <= multiset(ys)
    ensures |xs| <= |ys|
  {
    assert |multiset(xs)| == |xs| && |multiset(ys)| == |ys|;
    assert multiset(ys) == multiset(xs) + (multiset(ys) - multiset(xs));
  }

  // Nodes other than i stand still, and nothing broadcast is taken back.
  ghost predicate OnlyNode(cfg: Config, s: Net, s': Net, i: nat) {
    && i < |s.nodes| == |s.sent| == |cfg.ids| == |s'.nodes|
    && s'.nodes == s.nodes[i := s'.nodes[i]] && Extends(s, s')
    && (forall j | 0 <= j < |s.sent| && j != i :: s'.sent[j] == s.sent[j])
  }

  lemma OthersKept(cfg: Config, s: Net, s': Net, i: nat)
    requires Inv(cfg, s) && OnlyNode(cfg, s, s', i)
    ensures forall k | 0 <= k < |s'.nodes| && k != i :: NodeOk(cfg, s', k)
    ensures forall k, h: Hash | 0 <= k < |s'.nodes| && k != i :: BallotsOk(cfg, s', k, h)
    ensures forall j | 0 <= j < |s'.sent| && s'.sent[j] == s.sent[j] :: BroadcastOk(cfg, s'.sent, j)
  {
    forall k | 0 <= k < |s'.nodes| && k != i ensures NodeOk(cfg, s', k) {
      assert NodeOk(cfg, s, k);
    }
    forall k, h: Hash | 0 <= k < |s'.nodes| && k != i ensures BallotsOk(cfg, s', k, h) {
      assert BallotsOk(cfg, s, k, h);
      BoxKept(cfg, s, s', k, h);
    }
    forall j | 0 <= j < |s'.sent| && s'.sent[j] == s.sent[j] ensures BroadcastOk(cfg, s'.sent, j) {
      assert BroadcastOk(cfg, s.sent, j);
    }
  }

  // A step of node i that leaves its ballots alone, up to order.
  lemma QuietStep(cfg: Config, s: Net, s': Net, i: nat)
    requires Inv(cfg, s) && OnlyNode(cfg, s, s', i) && s'.sent == s.sent && s'.delivered == s.delivered
    requires StateOk(cfg, i, s'.nodes[i]) && (s.nodes[i].voted ==> s'.nodes[i].voted)
    requires forall h :: multiset(s'.nodes[i].VotesFor(h)) == multiset(s.nodes[i].VotesFor(h))
    ensures Inv(cfg, s')
  {
    hide StateOk, BallotsOk, BroadcastOk, CState.VotesFor;
    OthersKept(cfg, s, s', i);
    assert NodeOk(cfg, s, i) && NodeOk(cfg, s', i);
    forall h: Hash ensures BallotsOk(cfg, s', i, h) {
      assert BallotsOk(cfg, s, i, h);
      BoxKept(cfg, s, s', i, h);
    }
  }

  // A step of node i that handles the whole broadcast of j for the first time, coming
  // from state c.
  lemma HandlingStep(cfg: Config, s: Net, s': Net, i: nat, j: nat, c: CState, checked: bool, chain: Chain, keys: seq<VoteMsg>)
    requires cfg.Valid() && Inv(cfg, s) && OnlyNode(cfg, s, s', i) && j < |s'.sent| && s'.sent[j] != []
    requires (i, j) !in s.delivered && s'.delivered == s.delivered + {(i, j)}
    requires forall k | 0 <= k < |s'.sent| :: BroadcastOk(cfg, s'.sent, k)
    requires StateOk(cfg, i, c) && c.bvmp == s.nodes[i].bvmp && (s'.sent[i] != [] ==> c.voted)
    requires HandlesVotes(c, s'.sent[j], checked, chain, s'.nodes[i], keys)
    ensures Inv(cfg, s')
  {
    hide HandlesVotes, StateOk, BallotsOk, CState.VotesFor, Config.Valid;
    var c' := s'.nodes[i];
    assert Uniform(s'.sent[j]) by { assert BroadcastOk(cfg, s'.sent, j); }
    hide BroadcastOk, Uniform;
    var added := HandlesEffect(c, s'.sent[j], checked, chain, c', keys);
    StateKept(cfg, i, c, c');
    OthersKept(cfg, s, s', i);
    forall h: Hash ensures BallotsOk(cfg, s', i, h) {
      assert BallotsOk(cfg, s, i, h);
      SameBox(c, s.nodes[i], h);
      if Gained(added, s'.sent[j], h) == multiset{} {
        BoxKept(cfg, s, s', i, h);
      } else {
        BoxGrows(cfg, s, s', i, j, h);
      }
    }
    assert NodeOk(cfg, s', i);
  }

  lemma SameBox(c: CState, c': CState, h: Hash)
    requires c.bvmp == c'.bvmp
    ensures c.VotesFor(h) == c'.VotesFor(h)
  {
  }

  lemma VoteStep(cfg: Config, s: Net, a: Action, s': Net)
    requires cfg.Valid() && Inv(cfg, s) && a.Vote? && Step(cfg, s, a, s') && Shared(cfg, s')
    ensures Inv(cfg, s')
  {
    hide HandlesVotes, BallotsOk, BroadcastOk, CandidatesOf, CommOf, FirstVerified, VotesCast, Mine, Uniform;
    var i, c := a.i, s.nodes[a.i];
    var r := CastVotes(c, cfg.ids[i], a.verify);
    assert NodeOk(cfg, s, i);
    if r.votes == [] {
      NothingHandled(r.c, a.checked, a.chain, s'.nodes[i], a.keys);
      QuietStep(cfg, s, s', i);
    } else {
      var h := FirstVerified(r.c.candidates, r.c.bmp, a.verify).value;
      UniformCast(Mine(r.c.comm, cfg.ids[i].addrOf, cfg.ids[i].me), h);
      NothingCast(cfg.ids[i], h);
      var added := HandlesEffect(r.c, r.votes, a.checked, a.chain, s'.nodes[i], a.keys);
      BroadcastIsOk(cfg, s'.sent, i, h);
      OthersKept(cfg, s, s', i);
      HandlingStep(cfg, s, s', i, i, r.c, a.checked, a.chain, a.keys);
    }
  }

  lemma NothingCast(id: Identity, h: Hash)
    ensures VotesCast(Mine([], id.addrOf, id.me), h) == []
  {
  }

  lemma NothingHandled(c: CState, checked: bool, chain: Chain, c': CState, keys: seq<VoteMsg>)
    requires HandlesVotes(c, [], checked, chain, c', keys)
    ensures c' == c
  {
  }

  lemma UniformCast(ss: seq<SortMsg>, h: Hash)
    ensures Uniform(VotesCast(ss, h))
  {
  }

  lemma StepKeepsInv(cfg: Config, s: Net, a: Action, s': Net)
    requires cfg.Valid() && Inv(cfg, s) && Step(cfg, s, a, s') && Shared(cfg, s')
    ensures Inv(cfg, s')
  {
    hide HandlesVotes, MakesBlock, CastVotes, BallotsOk, BroadcastOk, CandidatesOf, CommOf, CountedVote, CommitteeVote, Shared, Config.Valid;
    var i, c, c' := a.i, s.nodes[a.i], s'.nodes[a.i];
    assert NodeOk(cfg, s, i);
    match a
    case Vote(_, _, _, _, _) => VoteStep(cfg, s, a, s');
    case Deliver(_, j, checked, chain, keys) => HandlingStep(cfg, s, s', i, j, c, checked, chain, keys);
    case Make(_, chain, keys) =>
      MakesEffect(c, chain, c', keys);
      StateKept(cfg, i, c, c');
      QuietStep(cfg, s, s', i);
    case Freeze(_, _) => QuietStep(cfg, s, s', i);
    case Collect(_, _, _, _, _) => QuietStep(cfg, s, s', i);
    case Elect(_, _, _) => QuietStep(cfg, s, s', i);
    case Count(_, _, _, _) => QuietStep(cfg, s, s', i);
  }

  lemma {:induction false} InvOnRuns(cfg: Config, states: seq<Net>, acts: seq<Action>, k: nat)
    requires SharedRun(cfg, states, acts) && k < |states|
    ensures Inv(cfg, states[k])
    decreases k
  {
    hide Step;
    if k > 0 {
      InvOnRuns(cfg, states, acts, k - 1);
      StepKeepsInv(cfg, states[k - 1], acts[k - 1], states[k]);
    }
  }

  // ---- Nothing a node has reached is undone ----

  function KeysOf(a: Action): seq<VoteMsg> {
    match a
    case Vote(_, _, _, _, keys) => keys
    case Deliver(_, _, _, _, keys) => keys
    case Make(_, _, keys) => keys
    case _ => []
  }

  ghost predicate Grew(c: CState, c': CState) {
    && (c.maked ==> c'.maked) && (forall h :: |c.VotesFor(h)| <= |c'.VotesFor(h)|)
  }

  lemma GrewFrom(c: CState, c': CState)
    requires (c.maked ==> c'.maked) && forall h :: multiset(c.VotesFor(h)) <= multiset(c'.VotesFor(h))
    ensures Grew(c, c')
  {
    forall h ensures |c.VotesFor(h)| <= |c'.VotesFor(h)| { NoFewer(c.VotesFor(h), c'.VotesFor(h)); }
  }

  lemma SameBallots(c: CState, c': CState)
    requires c'.bvmp == c.bvmp && c'.maked == c.maked
    ensures Grew(c, c')
  {
  }

  lemma HandlesGrows(c: CState, ms: seq<VoteMsg>, checked: bool, chain: Chain, c': CState, keys: seq<VoteMsg>)
    requires HandlesVotes(c, ms, checked, chain, c', keys) && Uniform(ms)
    ensures Grew(c, c') && (keys != [] ==> c'.maked && !c.maked)
  {
    hide HandlesVotes, Uniform, CState.VotesFor;
    var added := HandlesEffect(c, ms, checked, chain, c', keys);
    GrewFrom(c, c');
    HandlesKeys(c, ms, checked, chain, c', keys);
  }

  lemma HandlesKeepsCounts(c: CState, ms: seq<VoteMsg>, checked: bool, chain: Chain, c': CState, keys: seq<VoteMsg>)
    requires HandlesVotes(c, ms, checked, chain, c', keys)
    ensures c'.svmp == c.svmp
  {
    hide SamePrefix, MyCandidate, CState.VotesFor;
  }

  lemma HandlesKeys(c: CState, ms: seq<VoteMsg>, checked: bool, chain: Chain, c': CState, keys: seq<VoteMsg>)
    requires HandlesVotes(c, ms, checked, chain, c', keys)
    ensures keys != [] ==> c'.maked && !c.maked
  {
    hide SamePrefix, MyCandidate, CState.VotesFor;
  }

  lemma StepGrows(cfg: Config, s: Net, a: Action, s': Net)
    requires cfg.Valid() && Inv(cfg, s) && Step(cfg, s, a, s')
    ensures |s'.nodes| == |s.nodes| && forall i | 0 <= i < |s.nodes| :: Grew(s.nodes[i], s'.nodes[i])
    ensures KeysOf(a) != [] ==> s'.nodes[a.i].maked && !s.nodes[a.i].maked
  {
    hide HandlesVotes, MakesBlock, BallotsOk, NodeOk, CandidatesOf, CommOf, VotesCast, Mine, FirstVerified, Uniform, CountedVote, CommitteeVote, Config.Valid, CState.VotesFor;
    var i, c, c' := a.i, s.nodes[a.i], s'.nodes[a.i];
    match a
    case Vote(_, verify, checked, chain, keys) =>
      var r := CastVotes(c, cfg.ids[i], verify);
      assert Uniform(r.votes) by {
        UniformNone();
        if r.votes != [] { UniformCast(Mine(r.c.comm, cfg.ids[i].addrOf, cfg.ids[i].me), FirstVerified(r.c.candidates, r.c.bmp, verify).value); }
      }
      SameBallots(c, r.c);
      HandlesGrows(r.c, r.votes, checked, chain, c', keys);
    case Deliver(_, j, checked, chain, keys) =>
      assert BroadcastOk(cfg, s.sent, j);
      HandlesGrows(c, s.sent[j], checked, chain, c', keys);
    case Make(_, chain, keys) =>
      MakesEffect(c, chain, c', keys);
      BlockKeys(c, chain, c', keys);
      GrewFrom(c, c');
    case Freeze(_, _) => SameBallots(c, c');
    case Collect(_, _, _, _, _) => SameBallots(c, c');
    case Elect(_, _, _) => SameBallots(c, c');
    case Count(_, _, _, _) => SameBallots(c, c');
  }

  lemma UniformNone()
    ensures Uniform([])
  {
  }

  lemma {:induction false} GrowsOnRuns(cfg: Config, states: seq<Net>, acts: seq<Action>, k: nat, l: nat, i: nat)
    requires SharedRun(cfg, states, acts) && k <= l < |states| && i < |cfg.ids|
    ensures |states[k].nodes| == |states[l].nodes| == |cfg.ids| && Grew(states[k].nodes[i], states[l].nodes[i])
    decreases l - k
  {
    hide Step;
    InvOnRuns(cfg, states, acts, l);
    if k < l {
      GrowsOnRuns(cfg, states, acts, k, l - 1, i);
      InvOnRuns(cfg, states, acts, l - 1);
      StepGrows(cfg, states[l - 1], acts[l - 1], states[l]);
    }
  }

  // Over every such run, no two hashes ever gather a majority of votes and no two nodes ever
  // make a block for the same height and round, at any nodes and at any times.
  lemma AtMostOneMaker(cfg: Config, states: seq<Net>, acts: seq<Action>, k: nat, l: nat, i: nat, j: nat, h: Hash, g: Hash)
    requires SharedRun(cfg, states, acts) && k < |states| && l < |states| && i < |cfg.ids| && j < |cfg.ids|
    ensures |states[k].nodes| == |states[l].nodes| == |cfg.ids|
    ensures states[k].nodes[i].maked && states[l].nodes[j].maked ==> i == j
    ensures |states[k].nodes[i].VotesFor(h)| >= MAJORITY && |states[l].nodes[j].VotesFor(g)| >= MAJORITY ==> h == g
  {
    var last := if k < l then l else k;
    assert cfg.Valid();
    GrowsOnRuns(cfg, states, acts, k, last, i);
    GrowsOnRuns(cfg, states, acts, l, last, j);
    InvOnRuns(cfg, states, acts, last);
    var s := states[last];
    hide Inv, SharedRun, Config.Valid;
    if s.nodes[i].maked && s.nodes[j].maked { OneMaker(cfg, s, i, j); }
    if |s.nodes[i].VotesFor(h)| >= MAJORITY && |s.nodes[j].VotesFor(g)| >= MAJORITY {
      OneMajority(cfg, s, i, j, h, g);
    }
  }

  // And at most one step of the whole run makes a block.
  lemma AtMostOneBlock(cfg: Config, states: seq<Net>, acts: seq<Action>, p: nat, q: nat)
    requires SharedRun(cfg, states, acts) && p < |acts| && q < |acts|
    requires KeysOf(acts[p]) != [] && KeysOf(acts[q]) != []
    ensures p == q
  {
    hide HandlesVotes, MakesBlock, BallotsOk, NodeOk, CastVotes;
    if p > q {
      AtMostOneBlock(cfg, states, acts, q, p);
    } else if p < q {
      var i, j := acts[p].i, acts[q].i;
      InvOnRuns(cfg, states, acts, p);
      InvOnRuns(cfg, states, acts, q);
      assert Step(cfg, states[p], acts[p], states[p + 1]) && Step(cfg, states[q], acts[q], states[q + 1]);
      StepGrows(cfg, states[p], acts[p], states[p + 1]);
      StepGrows(cfg, states[q], acts[q], states[q + 1]);
      AtMostOneMaker(cfg, states, acts, p + 1, q + 1, i, j, 0, 0);
      GrowsOnRuns(cfg, states, acts, p + 1, q, i);
    }
  }

  // ---- Only verified pre-blocks are voted for ----

  // Step p is the one in which j voted v: v's hash was then j's first candidate whose
  // pre-block had arrived and verified at j, and its sort is one of j's in the committee.
  ghost predicate VotedAt(cfg: Config, states: seq<Net>, acts: seq<Action>, p: nat, j: nat, v: VoteMsg) {
    && p < |acts| && p < |states| && acts[p].Vote? && acts[p].i == j && j < |states[p].nodes| && j < |cfg.ids|
    && var c := Set(states[p].nodes[j], cfg.ids[j]);
       FirstReady(v.hash, c.candidates, c.bmp, acts[p].verify) && v.sort in Mine(c.comm, cfg.ids[j].addrOf, cfg.ids[j].me)
  }

  lemma StepSends(cfg: Config, s: Net, a: Action, s': Net, j: nat)
    requires Step(cfg, s, a, s') && j < |s.sent|
    ensures |s'.sent| == |s.sent|
    ensures s'.sent[j] != s.sent[j] ==> a.Vote? && a.i == j && s'.sent[j] == CastVotes(s.nodes[j], cfg.ids[j], a.verify).votes
  {
    hide HandlesVotes, MakesBlock, CastVotes, CommitteeVote, CountedVote, Set, PreMade;
  }

  lemma CastSort(vs: seq<VoteMsg>, ss: seq<SortMsg>, v: VoteMsg)
    requires SortsOf(vs) == ss && v in vs
    ensures v.sort in ss
  {
    var i :| 0 <= i < |vs| && vs[i] == v;
    assert SortsOf(vs)[i] == v.sort;
  }

  // Over every sequence of steps, whatever the nodes freeze.
  lemma {:induction false} SentIsVerified(cfg: Config, states: seq<Net>, acts: seq<Action>, k: nat, j: nat, v: VoteMsg)
    requires IsRun(cfg, states, acts) && k < |states| && j < |states[k].sent| && v in states[k].sent[j]
    ensures exists p: nat :: p < k && VotedAt(cfg, states, acts, p, j, v)
    decreases k
  {
    hide Step, CastVotes, FirstReady, Set, Mine, SortsOf;
    if k > 0 {
      var s, a := states[k - 1], acts[k - 1];
      assert Step(cfg, s, a, states[k]);
      SameNodes(cfg, s, a, states[k]);
      StepSends(cfg, s, a, states[k], j);
      if v in s.sent[j] {
        SentIsVerified(cfg, states, acts, k - 1, j, v);
      } else {
        CastIs(s.nodes[j], cfg.ids[j], a.verify);
        CastSort(states[k].sent[j], Mine(Set(s.nodes[j], cfg.ids[j]).comm, cfg.ids[j].addrOf, cfg.ids[j].me), v);
        SetKeepsPreBlocks(s.nodes[j], cfg.ids[j]);
        assert VotedAt(cfg, states, acts, k - 1, j, v);
      }
    }
  }

  lemma SameNodes(cfg: Config, s: Net, a: Action, s': Net)
    requires Step(cfg, s, a, s')
    ensures |cfg.ids| == |s.nodes| == |s.sent| == |s'.nodes| == |s'.sent|
  {
    hide HandlesVotes, MakesBlock, CastVotes, CommitteeVote, CountedVote, Set, PreMade;
  }

  lemma SetKeepsPreBlocks(c: CState, id: Identity)
    ensures Set(c, id).bmp == c.bmp && Set(c, id).voted == c.voted
  {
  }

  // So every ballot for a hash, and with it every vote behind a block, was cast by the owner
  // of its sort when the pre-block had arrived and verified there.
  lemma BallotsVerified(cfg: Config, states: seq<Net>, acts: seq<Action>, k: nat, i: nat, h: Hash, v: VoteMsg)
    requires SharedRun(cfg, states, acts) && k < |states| && i < |cfg.ids|
    requires i < |states[k].nodes| && v in states[k].nodes[i].VotesFor(h)
    ensures v.hash == h
    ensures exists j: nat, p: nat :: p < k && VotedAt(cfg, states, acts, p, j, v) && cfg.owner(v.sort.hash) == cfg.ids[j].me
  {
    InvOnRuns(cfg, states, acts, k);
    var s := states[k];
    assert BallotsOk(cfg, s, i, h);
    assert v in multiset(s.nodes[i].VotesFor(h));
    var j: nat :| CastBy(cfg, s.sent, j, v) && (i, j) in s.delivered;
    hide IsRun, VotedAt;
    SentIsVerified(cfg, states, acts, k, j, v);
  }

  // ---- A committee is frozen once ----

  ghost predicate Frozen(c: CState, c': CState) {
    c.setted ==> c'.setted && c'.comm == c.comm && c'.candidates == c.candidates
  }

  ghost predicate SameCommittee(c: CState, c': CState) {
    c'.setted == c.setted && c'.comm == c.comm && c'.candidates == c.candidates
  }

  lemma AfterKeepsCommittee(c: CState, h: Hash, chain: Chain, c': CState, keys: seq<VoteMsg>)
    requires AfterVotes(c, h, chain, c', keys)
    ensures SameCommittee(c, c')
  {
    hide CState.VotesFor;
    AfterEffect(c, h, chain, c', keys);
  }

  lemma HandlesKeepsCommittee(c: CState, ms: seq<VoteMsg>, checked: bool, chain: Chain, c': CState, keys: seq<VoteMsg>)
    requires HandlesVotes(c, ms, checked, chain, c', keys)
    ensures SameCommittee(c, c')
  {
    hide SameVotes, AfterVotes, CState.VotesFor;
    if ms != [] {
      var c1 := AddVotes(c, ms[0].hash, SameVotes(ms));
      if AfterVotes(c1, ms[0].hash, chain, c', keys) { AfterKeepsCommittee(c1, ms[0].hash, chain, c', keys); }
    }
  }

  // A step leaves every frozen committee as it is, and freezes what was counted.
  ghost predicate CommitteeStep(c: CState, c': CState) {
    Frozen(c, c') && (!c.setted && c'.setted ==> c'.comm == CommOf(c.css, c.svmp))
  }

  lemma StepCommittee(cfg: Config, s: Net, a: Action, s': Net)
    requires Step(cfg, s, a, s')
    ensures |s'.nodes| == |s.nodes| && forall i | 0 <= i < |s.nodes| :: CommitteeStep(s.nodes[i], s'.nodes[i])
  {
    hide HandlesVotes, MakesBlock, CandidatesOf, CommOf, FirstVerified, VotesCast, Mine, CountedVote, CommitteeVote, CState.VotesFor;
    var i, c, c' := a.i, s.nodes[a.i], s'.nodes[a.i];
    match a
    case Vote(_, verify, checked, chain, keys) =>
      var r := CastVotes(c, cfg.ids[i], verify);
      HandlesKeepsCommittee(r.c, r.votes, checked, chain, c', keys);
    case Deliver(_, j, checked, chain, keys) => HandlesKeepsCommittee(c, s.sent[j], checked, chain, c', keys);
    case Make(_, chain, keys) => MakesEffect(c, chain, c', keys);
    case Freeze(_, _) =>
    case Collect(_, _, _, _, _) =>
    case Elect(_, _, _) =>
    case Count(_, _, _, _) =>
  }

  // Over every sequence of steps, whatever the nodes freeze: a committee and its
  // candidates never change once they are set.
  lemma {:induction false} CommitteeFrozen(cfg: Config, states: seq<Net>, acts: seq<Action>, k: nat, l: nat, i: nat)
    requires IsRun(cfg, states, acts) && k <= l < |states| && i < |cfg.ids|
    ensures |states[k].nodes| == |states[l].nodes| == |cfg.ids|
    ensures Frozen(states[k].nodes[i], states[l].nodes[i])
    decreases l
  {
    hide Step;
    if k < l {
      CommitteeFrozen(cfg, states, acts, k, l - 1, i);
      assert Step(cfg, states[l - 1], acts[l - 1], states[l]);
      StepCommittee(cfg, states[l - 1], acts[l - 1], states[l]);
    } else if l > 0 {
      CommitteeFrozen(cfg, states, acts, l - 1, l - 1, i);
      assert Step(cfg, states[l - 1], acts[l - 1], states[l]);
      StepCommittee(cfg, states[l - 1], acts[l - 1], states[l]);
    }
  }

  // ---- Where the shared committee comes from ----

  // Nodes that collected the same sorts, and each received committee votes of weight 17
  // or more from voters who collected them too, freeze the same committee, of at most 25
  // members.
  lemma SharedFromVotes(css: map<Hash, SortMsg>, ms: seq<SortsVote>, ns: seq<SortsVote>)
    requires Keyed(css) && TotalWeight(ms) >= MUST_VOTES && TotalWeight(ns) >= MUST_VOTES
    requires AllSelect(Smallest(css, VOTER_SIZE), ms) && AllSelect(Smallest(css, VOTER_SIZE), ns)
    ensures CommOf(css, CountedAll(map[], ms)) == CommOf(css, CountedAll(map[], ns)) == Smallest(css, VOTER_SIZE)
    ensures StrictlySorted(Hashes(Smallest(css, VOTER_SIZE))) && |Smallest(css, VOTER_SIZE)| <= VOTER_SIZE
  {
    hide CommOf, CountedAll, Smallest;
    SmallestSorted(css, VOTER_SIZE);
    AllOrNothing(css, Smallest(css, VOTER_SIZE), ms);
    AllOrNothing(css, Smallest(css, VOTER_SIZE), ns);
  }

  // A run of nodes that follow this code: committee votes are only ever cast by a node whose
  // 25 smallest sorts are comm, reach a node as broadcasts, in any number and order, and a
  // node that freezes has collected comm. Nothing is said of how many votes reach it first.
  ghost predicate HonestRun(cfg: Config, states: seq<Net>, acts: seq<Action>) {
    IsRun(cfg, states, acts) && cfg.Valid() && forall k | 0 <= k < |acts| :: HonestStep(cfg, states[k], acts[k], states[k + 1])
  }

  ghost predicate HonestStep(cfg: Config, s: Net, a: Action, s': Net) {
    && a.i < |s.nodes| == |s'.nodes|
    && var c, c' := s.nodes[a.i], s'.nodes[a.i];
    && (a.Collect? ==> c'.svmp == c.svmp)
    && (a.Elect? ==> Smallest(c.css, VOTER_SIZE) == cfg.comm)
    && (!c.setted && c'.setted ==> Collected(c.css, cfg.comm))
  }

  // What has been counted are votes for comm.
  ghost predicate CountsComm(cfg: Config, svmp: map<Hash, nat>) {
    exists ms: seq<SortsVote> :: svmp == CountedAll(map[], ms) && AllSelect(cfg.comm, ms)
  }

  ghost predicate SelectsComm(cfg: Config, s: Net) {
    AllSelect(cfg.comm, s.selections) && forall i | 0 <= i < |s.nodes| :: CountsComm(cfg, s.nodes[i].svmp)
  }

  lemma NothingCounted(cfg: Config)
    ensures CountsComm(cfg, map[])
  {
    assert CountedAll(map[], []) == map[] && AllSelect(cfg.comm, []);
  }

  lemma OneMoreCounted(cfg: Config, svmp: map<Hash, nat>, m: SortsVote, self: bool, signed: bool, checkSort: SortMsg -> bool)
    requires CountsComm(cfg, svmp) && m.selectSorts == Hashes(cfg.comm)
    ensures CountsComm(cfg, CountedVote(svmp, m, self, signed, checkSort))
  {
    hide Counted, Acceptable;
    if Acceptable(m, self, signed, checkSort) {
      var ms :| svmp == CountedAll(map[], ms) && AllSelect(cfg.comm, ms);
      assert (ms + [m])[..|ms|] == ms;
      assert AllSelect(cfg.comm, ms + [m]);
    }
  }

  // A vote cast by a node whose 25 smallest sorts are comm selects comm.
  lemma CastOnComm(cfg: Config, css: map<Hash, SortMsg>, id: Identity, pubkey: PubKey)
    requires Smallest(css, VOTER_SIZE) == cfg.comm
    ensures var m := CommitteeVote(css, id, pubkey); m.Some? ==> m.value.selectSorts == Hashes(cfg.comm)
  {
  }

  lemma StepSelects(cfg: Config, s: Net, a: Action, s': Net)
    requires SelectsComm(cfg, s) && Step(cfg, s, a, s') && HonestStep(cfg, s, a, s')
    ensures SelectsComm(cfg, s')
  {
    StepCounts(cfg, s, a, s');
    hide Step, CountsComm, Smallest, Collected, Hashes;
    forall i | 0 <= i < |s'.nodes| ensures CountsComm(cfg, s'.nodes[i].svmp) {
      assert CountsComm(cfg, s.nodes[i].svmp);
    }
  }

  lemma StepCounts(cfg: Config, s: Net, a: Action, s': Net)
    requires SelectsComm(cfg, s) && Step(cfg, s, a, s') && HonestStep(cfg, s, a, s')
    ensures |s'.nodes| == |s.nodes| && s'.nodes == s.nodes[a.i := s'.nodes[a.i]]
    ensures AllSelect(cfg.comm, s'.selections) && CountsComm(cfg, s'.nodes[a.i].svmp)
  {
    hide HandlesVotes, MakesBlock, CandidatesOf, CommOf, FirstVerified, VotesCast, Mine, CountedVote, CountsComm, Smallest, CommitteeVote, Collected;
    var c, c' := s.nodes[a.i], s'.nodes[a.i];
    assert CountsComm(cfg, c.svmp);
    match a
    case Vote(i, verify, checked, chain, keys) => HandlesKeepsCounts(CastVotes(c, cfg.ids[i], verify).c, CastVotes(c, cfg.ids[i], verify).votes, checked, chain, c', keys);
    case Deliver(_, j, checked, chain, keys) => HandlesKeepsCounts(c, s.sent[j], checked, chain, c', keys);
    case Make(_, chain, keys) => MakesEffect(c, chain, c', keys);
    case Freeze(_, _) =>
    case Collect(_, _, _, _, _) =>
    case Elect(i, pubkey, checkSort) =>
      CastOnComm(cfg, c.css, cfg.ids[i], pubkey);
      var m := CommitteeVote(c.css, cfg.ids[i], pubkey);
      if m.Some? { OneMoreCounted(cfg, c.svmp, m.value, true, false, checkSort); }
    case Count(_, m, signed, checkSort) => OneMoreCounted(cfg, c.svmp, m, false, signed, checkSort);
  }

  lemma FrozenIsShared(cfg: Config, c: CState)
    requires cfg.Valid() && Collected(c.css, cfg.comm) && CountsComm(cfg, c.svmp)
    ensures CommOf(c.css, c.svmp) in {cfg.comm, []}
  {
    hide CommOf, CountedAll, Config.Owned;
    var ms :| c.svmp == CountedAll(map[], ms) && AllSelect(cfg.comm, ms);
    AllOrNothing(c.css, cfg.comm, ms);
  }

  lemma StepShares(cfg: Config, s: Net, a: Action, s': Net)
    requires cfg.Valid() && Shared(cfg, s) && SelectsComm(cfg, s) && Step(cfg, s, a, s') && HonestStep(cfg, s, a, s')
    ensures Shared(cfg, s')
  {
    hide Step, Smallest, CommOf, CountsComm, Config.Valid, Collected;
    StepCommittee(cfg, s, a, s');
    StepCounts(cfg, s, a, s');
    forall i | 0 <= i < |s'.nodes| && s'.nodes[i].setted ensures s'.nodes[i].comm in {cfg.comm, []} {
      assert CommitteeStep(s.nodes[i], s'.nodes[i]);
      if !s.nodes[i].setted { FrozenIsShared(cfg, s.nodes[i]); }
    }
  }

  lemma {:induction false} SharedOnRuns(cfg: Config, states: seq<Net>, acts: seq<Action>, k: nat)
    requires HonestRun(cfg, states, acts) && k < |states|
    ensures Shared(cfg, states[k]) && SelectsComm(cfg, states[k])
    decreases k
  {
    hide Step, HonestStep, CountsComm, Config.Valid;
    if k == 0 {
      NothingCounted(cfg);
    } else {
      SharedOnRuns(cfg, states, acts, k - 1);
      assert Step(cfg, states[k - 1], acts[k - 1], states[k]) && HonestStep(cfg, states[k - 1], acts[k - 1], states[k]);
      StepShares(cfg, states[k - 1], acts[k - 1], states[k]);
      StepSelects(cfg, states[k - 1], acts[k - 1], states[k]);
    }
  }

  lemma HonestIsShared(cfg: Config, states: seq<Net>, acts: seq<Action>)
    requires HonestRun(cfg, states, acts)
    ensures SharedRun(cfg, states, acts)
  {
    hide Step, HonestStep, Shared, SelectsComm;
    forall k | 0 <= k < |states| ensures Shared(cfg, states[k]) { SharedOnRuns(cfg, states, acts, k); }
  }

  // End to end: nodes that follow this code, whose 25 smallest sorts agree when they vote for
  // a committee, never make two blocks nor give two hashes a majority, however many of the
  // committee votes had reached each of them when it froze its committee.
  lemma HonestNodesMakeOne(cfg: Config, states: seq<Net>, acts: seq<Action>, k: nat, l: nat, i: nat, j: nat, h: Hash, g: Hash)
    requires HonestRun(cfg, states, acts) && k < |states| && l < |states| && i < |cfg.ids| && j < |cfg.ids|
    ensures |states[k].nodes| == |states[l].nodes| == |cfg.ids|
    ensures states[k].nodes[i].maked && states[l].nodes[j].maked ==> i == j
    ensures |states[k].nodes[i].VotesFor(h)| >= MAJORITY && |states[l].nodes[j].VotesFor(g)| >= MAJORITY ==> h == g
    ensures forall p, q | 0 <= p < |acts| && 0 <= q < |acts| && KeysOf(acts[p]) != [] && KeysOf(acts[q]) != [] :: p == q
  {
    hide IsRun, HonestStep, Config.Valid;
    HonestIsShared(cfg, states, acts);
    AtMostOneMaker(cfg, states, acts, k, l, i, j, h, g);
    forall p, q | 0 <= p < |acts| && 0 <= q < |acts| && KeysOf(acts[p]) != [] && KeysOf(acts[q]) != [] ensures p == q {
      AtMostOneBlock(cfg, states, acts, p, q);
    }
  }
}
