// One node's state machine for one height and round: collect sorts, vote for a
// committee, freeze it once, vote for one candidate, make the block on a majority
// (plugin/consensus/pos33/node.go:207-350, 686-973, 1124-1166). Signature, VRF and
// block-store checks are inputs of the steps that use them.
module Node {
  import opened Options
  import opened Order
  import opened Params
  import opened Messages
  import opened Committee

  const MAJORITY := VOTER_SIZE / 2 + 1

  datatype CState = CState(
    myss: seq<SortMsg>, css: map<Hash, SortMsg>, svmp: map<Hash, nat>,
    bvmp: map<Hash, seq<VoteMsg>>, bmp: map<Hash, PreBlock>,
    voted: bool, setted: bool, preMaked: bool, makerIsMe: bool, maked: bool,
    candidates: seq<Hash>, comm: seq<SortMsg>)
  {
    function VotesFor(h: Hash): seq<VoteMsg> {
      if h in bvmp then bvmp[h] else []
    }
  }

  const FRESH := CState([], map[], map[], map[], map[], false, false, false, false, false, [], [])

  // The node's own address and the address of a public key.
  datatype Identity = Identity(me: Addr, addrOf: PubKey -> Addr)

  ghost function Set(c: CState, id: Identity): CState {
    if c.setted then c
    else c.(setted := true, comm := CommOf(c.css, c.svmp), candidates := CandidatesOf(CommOf(c.css, c.svmp), id.addrOf))
  }

  // makePreBlock's effect on the state: it runs once, and freezes the committee first.
  ghost function PreMade(c: CState, id: Identity): CState {
    if c.preMaked then c else Set(c.(preMaked := true), id)
  }

  function FindSort(ss: seq<SortMsg>, h: Hash): Option<SortMsg> {
    if ss == [] then None else if ss[0].hash == h then Some(ss[0]) else FindSort(ss[1..], h)
  }

  // myCandidataeSort: my first sort among the candidates, candidates in order.
  function MyCandidate(cands: seq<Hash>, myss: seq<SortMsg>): Option<SortMsg> {
    if cands == [] then None
    else if FindSort(myss, cands[0]).Some? then FindSort(myss, cands[0])
    else MyCandidate(cands[1..], myss)
  }

  // The first candidate whose pre-block has arrived and verifies.
  function FirstVerified(cands: seq<Hash>, bmp: map<Hash, PreBlock>, verify: PreBlock -> bool): Option<Hash> {
    if cands == [] then None
    else if cands[0] in bmp && verify(bmp[cands[0]]) then Some(cands[0])
    else FirstVerified(cands[1..], bmp, verify)
  }

  function VotesCast(ss: seq<SortMsg>, h: Hash): (r: seq<VoteMsg>)
    ensures |r| == |ss|
  {
    seq(|ss|, i requires 0 <= i < |ss| => VoteMsg(h, ss[i], 0))
  }

  datatype Cast = Cast(c: CState, votes: seq<VoteMsg>)

  // voteBlock up to the broadcast: the votes to send, none if there is nothing to vote
  // for or this node has voted before.
  ghost function CastVotes(c: CState, id: Identity, verify: PreBlock -> bool): Cast {
    var c1 := Set(c, id);
    var h := FirstVerified(c1.candidates, c1.bmp, verify);
    if h.None? || c1.voted then Cast(c1, [])
    else Cast(c1.(voted := true), VotesCast(Mine(c1.comm, id.addrOf, id.me), h.value))
  }

  // handleVoteMsg appends votes up to the first one for another hash or round.
  function SameVotes(ms: seq<VoteMsg>): seq<VoteMsg> {
    SamePrefix(ms, 0)
  }

  function SamePrefix(ms: seq<VoteMsg>, i: nat): seq<VoteMsg>
    requires i <= |ms|
    decreases |ms| - i
  {
    if i < |ms| && ms[i].hash == ms[0].hash && ms[i].round == ms[0].round then SamePrefix(ms, i + 1) else ms[..i]
  }

  function AddVotes(c: CState, h: Hash, vs: seq<VoteMsg>): CState {
    if vs == [] then c else c.(bvmp := c.bvmp[h := c.VotesFor(h) + vs])
  }

  // What the block store and the aggregation of signatures allow at this moment.
  datatype Chain = Chain(late: bool, current: bool, parent: bool, sealable: bool)

  ghost predicate VotesSorted(vs: seq<VoteMsg>) {
    forall i, j | 0 <= i < j < |vs| :: vs[i].sort.hash <= vs[j].sort.hash
  }

  // makeBlock0: the votes carried by the new block, if one is made. More than 25 are sorted
  // in place first.
  ghost predicate MakesBlock(c: CState, chain: Chain, c': CState, keys: seq<VoteMsg>) {
    var s := MyCandidate(c.candidates, c.myss);
    if !c.makerIsMe || c.maked || !chain.parent || s.None? || |c.VotesFor(s.value.hash)| < MAJORITY then
      c' == c && keys == []
    else
      var h := s.value.hash;
      var sorted := c'.VotesFor(h);
      && h in c'.bvmp && multiset(sorted) == multiset(c.VotesFor(h))
      && (if |c.VotesFor(h)| > VOTER_SIZE then VotesSorted(sorted) else sorted == c.VotesFor(h))
      && c' == c.(bvmp := c.bvmp[h := sorted], maked := chain.sealable)
      && keys == if chain.sealable then Take(sorted, VOTER_SIZE) else []
  }

  // The second half of handleVoteMsg: on a majority for my own candidate, make the block.
  ghost predicate AfterVotes(c: CState, h: Hash, chain: Chain, c': CState, keys: seq<VoteMsg>) {
    var s := MyCandidate(c.candidates, c.myss);
    if chain.current || |c.VotesFor(h)| <= VOTER_SIZE / 2 || s.None? || s.value.hash != h then c' == c && keys == []
    else MakesBlock(c.(makerIsMe := true), chain, c', keys)
  }

  ghost predicate HandlesVotes(c: CState, ms: seq<VoteMsg>, checked: bool, chain: Chain, c': CState, keys: seq<VoteMsg>) {
    if ms == [] || ms[0].sort.num >= 1 || chain.late || !checked then c' == c && keys == []
    else
      var c1 := AddVotes(c, ms[0].hash, SameVotes(ms));
      if SameVotes(ms) != ms then c' == c1 && keys == []
      else AfterVotes(c1, ms[0].hash, chain, c', keys)
  }

  // ---- Facts about the pieces ----

  // h is the first candidate whose pre-block is there and verifies.
  ghost predicate FirstReady(h: Hash, cands: seq<Hash>, bmp: map<Hash, PreBlock>, verify: PreBlock -> bool) {
    exists i | 0 <= i < |cands| :: cands[i] == h && Ready(h, bmp, verify) && forall j | 0 <= j < i :: !Ready(cands[j], bmp, verify)
  }

  predicate Ready(h: Hash, bmp: map<Hash, PreBlock>, verify: PreBlock -> bool) {
    h in bmp && verify(bmp[h])
  }

  lemma {:induction false} FirstVerifiedIs(cands: seq<Hash>, bmp: map<Hash, PreBlock>, verify: PreBlock -> bool)
    ensures var r := FirstVerified(cands, bmp, verify);
      && (r.Some? ==> FirstReady(r.value, cands, bmp, verify))
      && (r.None? ==> forall h | h in cands :: !Ready(h, bmp, verify))
  {
    if cands != [] {
      assert cands == [cands[0]] + cands[1..];
      FirstVerifiedIs(cands[1..], bmp, verify);
      var r := FirstVerified(cands, bmp, verify);
      if Ready(cands[0], bmp, verify) {
        assert cands[0] == r.value;
      } else if r.Some? {
        var rest := cands[1..];
        var i :| 0 <= i < |rest| && rest[i] == r.value && Ready(r.value, bmp, verify) && forall j | 0 <= j < i :: !Ready(rest[j], bmp, verify);
        assert cands[i + 1] == r.value;
        assert forall j | 0 < j < i + 1 :: cands[j] == rest[j - 1];
      }
    }
  }

  function SortsOf(vs: seq<VoteMsg>): (r: seq<SortMsg>)
    ensures |r| == |vs|
  {
    seq(|vs|, i requires 0 <= i < |vs| => vs[i].sort)
  }

  // What voteBlock broadcasts, from the state before: votes for the first candidate whose
  // pre-block verifies, one for each own sort of the committee, unless there is none or the
  // node has voted before.
  lemma CastIs(c: CState, id: Identity, verify: PreBlock -> bool)
    ensures var r := CastVotes(c, id, verify); var c1 := Set(c, id);
      && r.c == c1.(voted := r.c.voted) && c1.voted == c.voted
      && (forall v | v in r.votes :: v.round == 0 && FirstReady(v.hash, c1.candidates, c1.bmp, verify))
      && if !c.voted && exists h | h in c1.candidates :: Ready(h, c1.bmp, verify)
         then r.c.voted && SortsOf(r.votes) == Mine(c1.comm, id.addrOf, id.me) else r.votes == [] && r.c.voted == c.voted
  {
    var r, c1 := CastVotes(c, id, verify), Set(c, id);
    FirstVerifiedIs(c1.candidates, c1.bmp, verify);
    var h := FirstVerified(c1.candidates, c1.bmp, verify);
    hide FirstVerified, CommOf, CandidatesOf, Mine, Ready;
    if h.Some? && !c.voted { assert SortsOf(r.votes) == Mine(c1.comm, id.addrOf, id.me); }
    if h.Some? { assert h.value in c1.candidates; }
  }

  lemma {:induction false} MineIs(ss: seq<SortMsg>, addrOf: PubKey -> Addr, me: Addr)
    requires StrictlySorted(Hashes(ss))
    ensures var r := Mine(ss, addrOf, me);
      && StrictlySorted(Hashes(r))
      && forall s :: s in r <==> s in ss && addrOf(s.proof.pubkey) == me
  {
    if ss != [] {
      var tail := ss[1..];
      assert ss == [ss[0]] + tail;
      forall i, j | 0 <= i < j < |tail| ensures Hashes(tail)[i] < Hashes(tail)[j] {
        assert Hashes(ss)[i + 1] < Hashes(ss)[j + 1];
      }
      MineIs(tail, addrOf, me);
      var r := Mine(tail, addrOf, me);
      forall j | 0 <= j < |r| ensures ss[0].hash < r[j].hash {
        assert r[j] in tail;
        var k :| 0 <= k < |tail| && tail[k] == r[j];
        assert Hashes(ss)[0] < Hashes(ss)[k + 1];
      }
      assert Hashes([ss[0]] + r) == [ss[0].hash] + Hashes(r);
    }
  }

  lemma {:induction false} FindSortIs(ss: seq<SortMsg>, h: Hash)
    ensures FindSort(ss, h).Some? <==> exists s | s in ss :: s.hash == h
    ensures FindSort(ss, h).Some? ==> FindSort(ss, h).value in ss && FindSort(ss, h).value.hash == h
  {
    if ss != [] {
      assert ss == [ss[0]] + ss[1..];
      FindSortIs(ss[1..], h);
    }
  }

  // h is the first candidate that is one of my sorts.
  ghost predicate FirstOwn(h: Hash, cands: seq<Hash>, myss: seq<SortMsg>) {
    exists i | 0 <= i < |cands| :: FirstOwnAt(h, cands, myss, i)
  }

  ghost predicate FirstOwnAt(h: Hash, cands: seq<Hash>, myss: seq<SortMsg>, i: nat)
    requires i < |cands|
  {
    && cands[i] == h && (exists s | s in myss :: s.hash == h)
    && forall j | 0 <= j < i :: forall s | s in myss :: s.hash != cands[j]
  }

  lemma {:induction false} MyCandidateIs(cands: seq<Hash>, myss: seq<SortMsg>)
    ensures var r := MyCandidate(cands, myss);
      && (r.Some? ==> r.value in myss && FirstOwn(r.value.hash, cands, myss))
      && (r.None? ==> forall h | h in cands :: forall s | s in myss :: s.hash != h)
  {
    if cands != [] {
      assert cands == [cands[0]] + cands[1..];
      FindSortIs(myss, cands[0]);
      MyCandidateIs(cands[1..], myss);
      var r := MyCandidate(cands, myss);
      if FindSort(myss, cands[0]).None? && r.Some? {
        var i :| 0 <= i < |cands[1..]| && FirstOwnAt(r.value.hash, cands[1..], myss, i);
        assert FirstOwnAt(r.value.hash, cands, myss, i + 1);
      } else if r.Some? {
        assert FirstOwnAt(r.value.hash, cands, myss, 0);
      }
    }
  }

  lemma FirstOwnIn(h: Hash, cands: seq<Hash>, myss: seq<SortMsg>)
    requires FirstOwn(h, cands, myss)
    ensures h in cands
  {
  }

  lemma {:induction false} SamePrefixIs(ms: seq<VoteMsg>, i: nat)
    requires i <= |ms| && forall j | 0 <= j < i :: ms[j].hash == ms[0].hash && ms[j].round == ms[0].round
    ensures var r := SamePrefix(ms, i);
      && r <= ms && i <= |r| && (forall v | v in r :: v.hash == ms[0].hash && v.round == ms[0].round)
      && (|r| < |ms| ==> ms[|r|].hash != ms[0].hash || ms[|r|].round != ms[0].round)
      && (r == ms <==> forall j | 0 <= j < |ms| :: ms[j].hash == ms[0].hash && ms[j].round == ms[0].round)
    decreases |ms| - i
  {
    if i < |ms| && ms[i].hash == ms[0].hash && ms[i].round == ms[0].round {
      SamePrefixIs(ms, i + 1);
    }
  }

  // Of more than 25 votes keys are 25 with the smallest sort hashes, in order; of fewer,
  // all of them as they arrived.
  ghost predicate SmallestVotes(votes: seq<VoteMsg>, keys: seq<VoteMsg>) {
    && multiset(keys) <= multiset(votes)
    && if |votes| <= VOTER_SIZE then keys == votes
       else
         && |keys| == VOTER_SIZE && VotesSorted(keys)
         && forall v: VoteMsg, k: VoteMsg | v in multiset(votes) - multiset(keys) && k in keys :: k.sort.hash <= v.sort.hash
  }

  lemma TakenSmallest(votes: seq<VoteMsg>, sorted: seq<VoteMsg>)
    requires multiset(sorted) == multiset(votes)
    requires if |votes| > VOTER_SIZE then VotesSorted(sorted) else sorted == votes
    ensures SmallestVotes(votes, Take(sorted, VOTER_SIZE))
  {
    SameSize(sorted, votes);
    if |votes| > VOTER_SIZE {
      var keys, rest := sorted[..VOTER_SIZE], sorted[VOTER_SIZE..];
      hide SmallestVotes, VotesSorted;
      SortedParts(sorted, VOTER_SIZE);
      Parts(votes, sorted, keys, rest);
      SmallestFrom(votes, keys, rest);
    }
  }

  lemma SortedParts(sorted: seq<VoteMsg>, n: nat)
    requires n <= |sorted| && VotesSorted(sorted)
    ensures VotesSorted(sorted[..n])
    ensures forall v: VoteMsg, k: VoteMsg | v in sorted[n..] && k in sorted[..n] :: k.sort.hash <= v.sort.hash
  {
    forall v: VoteMsg, k: VoteMsg | v in sorted[n..] && k in sorted[..n] ensures k.sort.hash <= v.sort.hash {
      var i :| 0 <= i < n && sorted[i] == k;
      var j :| 0 <= j < |sorted| - n && sorted[n..][j] == v;
      assert sorted[n + j] == v;
    }
  }

  lemma Parts(votes: seq<VoteMsg>, sorted: seq<VoteMsg>, keys: seq<VoteMsg>, rest: seq<VoteMsg>)
    requires sorted == keys + rest && multiset(sorted) == multiset(votes)
    ensures multiset(votes) - multiset(keys) == multiset(rest) && multiset(keys) <= multiset(votes)
  {
    assert multiset(keys + rest) == multiset(keys) + multiset(rest);
  }

  lemma SmallestFrom(votes: seq<VoteMsg>, keys: seq<VoteMsg>, rest: seq<VoteMsg>)
    requires |votes| > VOTER_SIZE == |keys| && VotesSorted(keys)
    requires multiset(votes) - multiset(keys) == multiset(rest) && multiset(keys) <= multiset(votes)
    requires forall v: VoteMsg, k: VoteMsg | v in rest && k in keys :: k.sort.hash <= v.sort.hash
    ensures SmallestVotes(votes, keys)
  {
    assert forall v: VoteMsg :: v in multiset(rest) <==> v in rest;
  }

  // A block carries between 13 and 25 keys, those of the votes for the maker's candidate
  // with the smallest sort hashes: enough for blockCheck, few enough for the issue to pay.
  lemma BlockKeys(c: CState, chain: Chain, c': CState, keys: seq<VoteMsg>)
    requires MakesBlock(c, chain, c', keys)
    ensures c'.maked && !c.maked <==> keys != []
    ensures keys != [] ==> exists s | s in c.myss && FirstOwn(s.hash, c.candidates, c.myss) ::
      MAJORITY <= |keys| <= VOTER_SIZE && SmallestVotes(c.VotesFor(s.hash), keys)
    ensures keys != [] ==> SHIPPED.blockReward - SHIPPED.Pools(|keys|) >= 6 * COIN
  {
    MyCandidateIs(c.candidates, c.myss);
    if keys != [] {
      var h := MyCandidate(c.candidates, c.myss).value.hash;
      var sorted := c'.VotesFor(h);
      assert |multiset(sorted)| == |sorted| && |multiset(c.VotesFor(h))| == |c.VotesFor(h)|;
      TakenSmallest(c.VotesFor(h), sorted);
      hide SmallestVotes;
      ShippedIssueCoversPools(|keys|);
    }
  }

  // ---- What handling block votes does ----

  // The votes appended are those before the first one for another hash or round.
  ghost predicate FirstOfAKind(ms: seq<VoteMsg>, vs: seq<VoteMsg>) {
    && vs != [] && vs <= ms && (forall v | v in vs :: v.hash == ms[0].hash && v.round == ms[0].round)
    && (|vs| < |ms| ==> ms[|vs|].hash != ms[0].hash || ms[|vs|].round != ms[0].round)
  }

  lemma SameVotesAre(ms: seq<VoteMsg>)
    requires ms != []
    ensures FirstOfAKind(ms, SameVotes(ms))
  {
    SamePrefixIs(ms, 1);
  }

  lemma MakingKeepsBallots(c: CState, chain: Chain, c': CState, keys: seq<VoteMsg>, g: Hash)
    requires MakesBlock(c, chain, c', keys)
    ensures multiset(c'.VotesFor(g)) == multiset(c.VotesFor(g))
  {
    hide MyCandidate, VotesSorted;
  }

  // Unless they are late, of Num 1 or more, or fail checkVotes, the votes of the first kind
  // join the ballots of their hash, and no other ballots change but in order.
  lemma HandlingAdds(c: CState, ms: seq<VoteMsg>, checked: bool, chain: Chain, c': CState, keys: seq<VoteMsg>, g: Hash)
    requires HandlesVotes(c, ms, checked, chain, c', keys)
    ensures if ms == [] || ms[0].sort.num >= 1 || chain.late || !checked then c' == c && keys == []
      else multiset(c'.VotesFor(g)) == multiset(c.VotesFor(g)) + if g == ms[0].hash then multiset(SameVotes(ms)) else multiset{}
  {
    hide SameVotes, MakesBlock, MyCandidate;
    if ms != [] {
      SameVotesAre(ms);
      var c1 := AddVotes(c, ms[0].hash, SameVotes(ms));
      if MakesBlock(c1.(makerIsMe := true), chain, c', keys) { MakingKeepsBallots(c1.(makerIsMe := true), chain, c', keys, g); }
    }
  }

  lemma {:induction false} FirstOwnIs(cands: seq<Hash>, myss: seq<SortMsg>, h: Hash)
    requires FirstOwn(h, cands, myss)
    ensures MyCandidate(cands, myss).Some? && MyCandidate(cands, myss).value.hash == h
  {
    MyCandidateIs(cands, myss);
    var i :| 0 <= i < |cands| && FirstOwnAt(h, cands, myss, i);
    var s :| s in myss && s.hash == h;
    var r := MyCandidate(cands, myss);
    assert cands[i] in cands;
    var j :| 0 <= j < |cands| && FirstOwnAt(r.value.hash, cands, myss, j);
    assert i <= j && j <= i;
  }

  // With 13 votes for its first own candidate a node does make the block, as soon as votes
  // for it arrive, all of one kind, and the chain allows it.
  lemma MajorityMakes(c: CState, ms: seq<VoteMsg>, chain: Chain, c': CState, keys: seq<VoteMsg>)
    requires HandlesVotes(c, ms, true, chain, c', keys) && ms != [] && FirstOwn(ms[0].hash, c.candidates, c.myss)
    requires forall v | v in ms :: v.hash == ms[0].hash && v.round == ms[0].round && v.sort.num < 1
    requires |c.VotesFor(ms[0].hash)| + |ms| >= MAJORITY && !c.maked
    requires !chain.late && !chain.current && chain.parent && chain.sealable
    ensures c'.maked && |keys| >= MAJORITY
  {
    SamePrefixIs(ms, 0);
    assert ms[0] in ms && forall j | 0 <= j < |ms| :: ms[j] in ms;
    FirstOwnIs(c.candidates, c.myss, ms[0].hash);
    hide MyCandidate, SamePrefix, FirstOwn;
    var c1 := AddVotes(c, ms[0].hash, ms).(makerIsMe := true);
    BlockKeysCount(c1, chain, c', keys);
  }

  lemma BlockKeysCount(c: CState, chain: Chain, c': CState, keys: seq<VoteMsg>)
    requires MakesBlock(c, chain, c', keys)
    ensures keys != [] ==> |keys| >= MAJORITY
  {
    BlockKeys(c, chain, c', keys);
  }

  // ---- The node's own code ----

  function Filed(css: map<Hash, SortMsg>, ss: seq<SortMsg>): map<Hash, SortMsg>
    decreases |ss|
  {
    if ss == [] then css
    else Filed(css, ss[..|ss| - 1])[ss[|ss| - 1].hash := ss[|ss| - 1]]
  }

  // handleCommittee accepts a vote whose sorts all belong to its signer, verify, and are
  // among the selected ones.
  predicate Acceptable(m: SortsVote, self: bool, signed: bool, checkSort: SortMsg -> bool) {
    && (self || signed)
    && forall i | 0 <= i < |m.mySorts| ::
         m.mySorts[i].proof.pubkey == m.pubkey && checkSort(m.mySorts[i]) && m.mySorts[i].hash in m.selectSorts
  }

  function CountedVote(svmp: map<Hash, nat>, m: SortsVote, self: bool, signed: bool, checkSort: SortMsg -> bool): map<Hash, nat> {
    if Acceptable(m, self, signed, checkSort) then Counted(svmp, m.selectSorts, |m.mySorts|) else svmp
  }

  // The committee vote of a node that collected css: the 25 smallest sorts are selected,
  // when one of them is its own.
  ghost function CommitteeVote(css: map<Hash, SortMsg>, id: Identity, pubkey: PubKey): Option<SortsVote> {
    var css25 := Smallest(css, VOTER_SIZE);
    var mine := Mine(css25, id.addrOf, id.me);
    if mine == [] then None else Some(SortsVote(mine, Hashes(css25), pubkey))
  }

  // Of several sorts with one hash the last filed stays.
  lemma {:induction false} FiledIs(css: map<Hash, SortMsg>, ss: seq<SortMsg>, h: Hash)
    ensures h in Filed(css, ss) <==> h in css || h in Hashes(ss)
    ensures h in css && h !in Hashes(ss) ==> Filed(css, ss)[h] == css[h]
    ensures forall i | 0 <= i < |ss| && ss[i].hash == h && h !in Hashes(ss[i + 1..]) :: h in Filed(css, ss) && Filed(css, ss)[h] == ss[i]
    decreases |ss|
  {
    if ss != [] {
      var init, last := ss[..|ss| - 1], ss[|ss| - 1];
      FiledIs(css, init, h);
      assert Hashes(ss) == Hashes(init) + [last.hash];
      forall i | 0 <= i < |ss| && ss[i].hash == h && h !in Hashes(ss[i + 1..]) ensures h in Filed(css, ss) && Filed(css, ss)[h] == ss[i] {
        if i < |init| { LastOutside(ss, i, h); }
      }
    }
  }

  lemma LastOutside(ss: seq<SortMsg>, i: nat, h: Hash)
    requires i < |ss| - 1 && h !in Hashes(ss[i + 1..])
    ensures ss[|ss| - 1].hash != h && h !in Hashes(ss[..|ss| - 1][i + 1..])
  {
    var rest := ss[i + 1..];
    assert Hashes(rest)[|rest| - 1] == ss[|ss| - 1].hash;
    assert Hashes(ss[..|ss| - 1][i + 1..]) == Hashes(rest)[..|rest| - 1];
  }

  // A committee vote selects the 25 smallest sorts and carries exactly the voter's own of
  // them, and is cast when there are any.
  lemma CommitteeVoteIs(css: map<Hash, SortMsg>, id: Identity, pubkey: PubKey)
    requires Keyed(css)
    ensures var m, ss := CommitteeVote(css, id, pubkey), Smallest(css, VOTER_SIZE);
      && (m.None? <==> forall s | s in ss :: id.addrOf(s.proof.pubkey) != id.me)
      && (m.Some? ==> m.value.selectSorts == Hashes(ss) && m.value.pubkey == pubkey && StrictlySorted(Hashes(m.value.mySorts))
                      && forall s :: s in m.value.mySorts <==> s in ss && id.addrOf(s.proof.pubkey) == id.me)
  {
    hide Smallest, Mine, Hashes;
    SmallestSorted(css, VOTER_SIZE);
    var ss := Smallest(css, VOTER_SIZE);
    var mine := Mine(ss, id.addrOf, id.me);
    MineIs(ss, id.addrOf, id.me);
    if mine != [] { assert mine[0] in mine; }
    if s :| s in ss && id.addrOf(s.proof.pubkey) == id.me { assert s in mine; }
  }

  // So wherever the voter's sorts verify, its vote counts: each of the 25 gains one for each
  // sort of the voter's among them.
  lemma OwnVoteCounts(css: map<Hash, SortMsg>, id: Identity, pubkey: PubKey, svmp: map<Hash, nat>, checkSort: SortMsg -> bool, h: Hash)
    requires Keyed(css) && CommitteeVote(css, id, pubkey).Some?
    requires forall s | s in CommitteeVote(css, id, pubkey).value.mySorts :: s.proof.pubkey == pubkey && checkSort(s)
    ensures var m, ss := CommitteeVote(css, id, pubkey).value, Smallest(css, VOTER_SIZE);
      WeightIn(CountedVote(svmp, m, false, true, checkSort), h) == WeightIn(svmp, h) + if h in Hashes(ss) then |m.mySorts| else 0
  {
    hide Smallest, CommitteeVote, Hashes, Counted, WeightIn, Occurrences, StrictlySorted;
    var m, ss := CommitteeVote(css, id, pubkey).value, Smallest(css, VOTER_SIZE);
    CommitteeVoteIs(css, id, pubkey);
    SmallestSorted(css, VOTER_SIZE);
    forall i | 0 <= i < |m.mySorts| ensures m.mySorts[i].hash in m.selectSorts {
      assert m.mySorts[i] in m.mySorts;
      MemberHash(ss, m.mySorts[i]);
    }
    CountedIs(svmp, m.selectSorts, |m.mySorts|, h);
    SortedOnce(Hashes(ss), h);
    OnceOrNot(|m.mySorts|, Occurrences(Hashes(ss), h), h in Hashes(ss));
  }

  lemma SortedOnce(hs: seq<Hash>, h: Hash)
    requires StrictlySorted(hs)
    ensures Occurrences(hs, h) == if h in hs then 1 else 0
  {
    OccursOnce(hs, h);
  }

  lemma OnceOrNot(w: nat, n: nat, once: bool)
    requires n == if once then 1 else 0
    ensures w * n == if once then w else 0
  {
  }

  // ---- Any sequence of committee votes ----

  // A committee vote as it is handled: its own or not, and whether its signature verifies.
  datatype Handled = Handled(m: SortsVote, self: bool, signed: bool)

  function CountedHandled(svmp: map<Hash, nat>, ds: seq<Handled>, checkSort: SortMsg -> bool): map<Hash, nat>
    decreases |ds|
  {
    if ds == [] then svmp else
      var d := ds[|ds| - 1];
      CountedVote(CountedHandled(svmp, ds[..|ds| - 1], checkSort), d.m, d.self, d.signed, checkSort)
  }

  // How many of a vote's sorts are its signer's, verify, and are selected by it.
  function Verified(m: SortsVote, k: nat, checkSort: SortMsg -> bool): nat
    requires k <= |m.mySorts|
  {
    if k == 0 then 0 else
      var s := m.mySorts[k - 1];
      Verified(m, k - 1, checkSort) + if s.proof.pubkey == m.pubkey && checkSort(s) && s.hash in m.selectSorts then 1 else 0
  }

  // What a vote can weigh: its verified sorts, if it is signed and has no others.
  function VerifiedWeight(d: Handled, checkSort: SortMsg -> bool): nat {
    var n := Verified(d.m, |d.m.mySorts|, checkSort);
    if (d.self || d.signed) && n == |d.m.mySorts| then n else 0
  }

  function VerifiedFor(ds: seq<Handled>, checkSort: SortMsg -> bool, h: Hash): nat
    decreases |ds|
  {
    if ds == [] then 0 else
      var d := ds[|ds| - 1];
      VerifiedFor(ds[..|ds| - 1], checkSort, h) + VerifiedWeight(d, checkSort) * Occurrences(d.m.selectSorts, h)
  }

  lemma {:induction false} VerifiedIs(m: SortsVote, k: nat, checkSort: SortMsg -> bool)
    requires k <= |m.mySorts|
    ensures Verified(m, k, checkSort) <= k
    ensures Verified(m, k, checkSort) == k <==>
      forall i | 0 <= i < k :: m.mySorts[i].proof.pubkey == m.pubkey && checkSort(m.mySorts[i]) && m.mySorts[i].hash in m.selectSorts
  {
    if k > 0 { VerifiedIs(m, k - 1, checkSort); }
  }

  // Whatever votes arrive, forged ones included, and in any order: the weight of a hash is
  // the number of verified sorts of the signers that selected it.
  lemma {:induction false} WeightIsVerified(ds: seq<Handled>, checkSort: SortMsg -> bool, h: Hash)
    ensures WeightIn(CountedHandled(map[], ds, checkSort), h) == VerifiedFor(ds, checkSort, h)
    decreases |ds|
  {
    if ds != [] {
      var d, before := ds[|ds| - 1], CountedHandled(map[], ds[..|ds| - 1], checkSort);
      WeightIsVerified(ds[..|ds| - 1], checkSort, h);
      VerifiedIs(d.m, |d.m.mySorts|, checkSort);
      CountedIs(before, d.m.selectSorts, |d.m.mySorts|, h);
      hide Verified, Occurrences, Counted, WeightIn;
    }
  }

  class Round {
    const id: Identity
    var myss: seq<SortMsg>
    var css: map<Hash, SortMsg>
    var svmp: map<Hash, nat>
    var bvmp: map<Hash, seq<VoteMsg>>
    var bmp: map<Hash, PreBlock>
    var voted: bool
    var setted: bool
    var preMaked: bool
    var makerIsMe: bool
    var maked: bool
    var candidates: seq<Hash>
    var comm: seq<SortMsg>

    function State(): CState
      reads this
    {
      CState(myss, css, svmp, bvmp, bmp, voted, setted, preMaked, makerIsMe, maked, candidates, comm)
    }

    // Sorts are filed under their hashes, and nothing is frozen before setCommittee.
    ghost predicate Valid()
      reads this
    {
      Keyed(css) && (!setted ==> comm == [] && candidates == [])
    }

    constructor (id: Identity)
      ensures State() == FRESH && this.id == id && Valid()
    {
      this.id := id;
      myss, css, svmp, bvmp, bmp := [], map[], map[], map[], map[];
      voted, setted, preMaked, makerIsMe, maked, candidates, comm := false, false, false, false, false, [], [];
    }

    // Whether some sort of this key is on file.
    method KnowsKey(pubkey: PubKey) returns (known: bool)
      ensures known <==> exists h | h in css :: css[h].proof.pubkey == pubkey
    {
      var todo := css.Keys;
      while todo != {}
        invariant todo <= css.Keys
        invariant forall h | h in css && h !in todo :: css[h].proof.pubkey != pubkey
        decreases |todo|
      {
        var h :| h in todo;
        if css[h].proof.pubkey == pubkey { return true; }
        todo := todo - {h};
      }
      known := false;
    }

    // handleVoterSort: the first list of sorts of a key is filed, later ones are ignored.
    method HandleVoterSort(ss: seq<SortMsg>, late: bool) returns (ok: bool)
      requires Valid()
      modifies this`css
      ensures Valid()
      ensures var fits := ss != [] && !late && ss[0].num < 3;
              var known := fits && exists h | h in old(css) :: old(css)[h].proof.pubkey == ss[0].proof.pubkey;
        ok == fits && css == if fits && !known then Filed(old(css), ss) else old(css)
    {
      if ss == [] || late || ss[0].num >= 3 { return false; }
      ok := true;
      var known := KnowsKey(ss[0].proof.pubkey);
      if known { return; }
      var i := 0;
      while i < |ss|
        invariant i <= |ss| && css == Filed(old(css), ss[..i]) && Keyed(css)
      {
        assert ss[..i + 1][..i] == ss[..i];
        css := css[ss[i].hash := ss[i]];
        i := i + 1;
      }
      assert ss[..i] == ss;
    }

    // handleCommittee
    method HandleCommittee(m: SortsVote, self: bool, signed: bool, checkSort: SortMsg -> bool)
      requires Valid()
      modifies this`svmp
      ensures svmp == CountedVote(old(svmp), m, self, signed, checkSort) && Valid()
      ensures svmp != old(svmp) ==> self || signed
      ensures svmp != old(svmp) ==>
        forall i | 0 <= i < |m.mySorts| :: m.mySorts[i].proof.pubkey == m.pubkey && checkSort(m.mySorts[i]) && m.mySorts[i].hash in m.selectSorts
      ensures forall h: Hash |
        && (self || signed)
        && (forall i | 0 <= i < |m.mySorts| :: m.mySorts[i].proof.pubkey == m.pubkey && checkSort(m.mySorts[i]) && m.mySorts[i].hash in m.selectSorts)
        :: WeightIn(svmp, h) == WeightIn(old(svmp), h) + |m.mySorts| * Occurrences(m.selectSorts, h)
    {
      hide Occurrences;
      forall h: Hash ensures WeightIn(Counted(svmp, m.selectSorts, |m.mySorts|), h) == WeightIn(svmp, h) + |m.mySorts| * Occurrences(m.selectSorts, h)
      {
        CountedIs(svmp, m.selectSorts, |m.mySorts|, h);
      }
      if !self && !signed { return; }
      var i := 0;
      while i < |m.mySorts|
        invariant i <= |m.mySorts|
        invariant forall j | 0 <= j < i :: m.mySorts[j].proof.pubkey == m.pubkey && checkSort(m.mySorts[j]) && m.mySorts[j].hash in m.selectSorts
      {
        if m.pubkey != m.mySorts[i].proof.pubkey || !checkSort(m.mySorts[i]) { return; }
        var k := 0;
        while k < |m.selectSorts| && m.selectSorts[k] != m.mySorts[i].hash
          invariant k <= |m.selectSorts| && m.mySorts[i].hash !in m.selectSorts[..k]
        {
          k := k + 1;
        }
        if k == |m.selectSorts| {
          assert m.selectSorts[..k] == m.selectSorts;
          return;
        }
        i := i + 1;
      }
      var n := 0;
      while n < |m.selectSorts|
        invariant n <= |m.selectSorts| && svmp == Counted(old(svmp), m.selectSorts[..n], |m.mySorts|)
      {
        assert m.selectSorts[..n + 1][..n] == m.selectSorts[..n];
        svmp := svmp[m.selectSorts[n] := WeightIn(svmp, m.selectSorts[n]) + |m.mySorts|];
        n := n + 1;
      }
      assert m.selectSorts[..n] == m.selectSorts;
    }

    // Collects the sorts under some hashes in whatever order the map is traversed, and
    // sorts them.
    method SortedSorts(keys: set<Hash>) returns (ss: seq<SortMsg>)
      requires keys <= css.Keys
      ensures (forall h | h in Ascending(keys) :: h in css) && ss == Pick(css, Ascending(keys))
    {
      hide Elements, Ascending, NoDuplicates;
      var todo, hs := keys, [];
      NothingYet();
      while todo != {}
        invariant todo <= keys && NoDuplicates(hs) && Elements(hs) == keys - todo
        decreases |todo|
      {
        var h :| h in todo;
        Grow(hs, h);
        todo, hs := todo - {h}, hs + [h];
      }
      SortIsAscending(hs);
      AscendingIn(keys);
      ss := Pick(css, Sort(hs));
    }

    static lemma NothingYet()
      ensures NoDuplicates<Hash>([]) && Elements([]) == {}
    {
    }

    static lemma Grow(hs: seq<Hash>, h: Hash)
      requires NoDuplicates(hs) && h !in Elements(hs)
      ensures NoDuplicates(hs + [h]) && Elements(hs + [h]) == Elements(hs) + {h}
    {
    }

    method GetSorts(n: nat) returns (ss: seq<SortMsg>)
      requires Valid()
      ensures ss == Smallest(css, n)
    {
      ss := SortedSorts(css.Keys);
      if |ss| > n { ss := ss[..n]; }
    }

    static method GetMySorts(ss: seq<SortMsg>, id: Identity) returns (ms: seq<SortMsg>)
      ensures ms == Mine(ss, id.addrOf, id.me)
    {
      ms := [];
      var i := 0;
      while i < |ss|
        invariant i <= |ss| && Mine(ss, id.addrOf, id.me) == ms + Mine(ss[i..], id.addrOf, id.me)
      {
        assert ss[i..][1..] == ss[i + 1..];
        if id.addrOf(ss[i].proof.pubkey) == id.me { ms := ms + [ss[i]]; }
        i := i + 1;
      }
    }

    // voteCommittee: my vote, which I count at once like any other.
    method VoteCommittee(pubkey: PubKey, checkSort: SortMsg -> bool) returns (m: Option<SortsVote>)
      requires Valid()
      modifies this`svmp
      ensures m == CommitteeVote(css, id, pubkey) && Valid()
      ensures svmp == if m.Some? then CountedVote(old(svmp), m.value, true, false, checkSort) else old(svmp)
    {
      hide Smallest, Mine, CountedVote;
      var css25 := GetSorts(VOTER_SIZE);
      var mine := GetMySorts(css25, id);
      if mine == [] { return None; }
      m := Some(SortsVote(mine, Hashes(css25), pubkey));
      HandleCommittee(m.value, true, false, checkSort);
    }

    // committee.setCommittee: a second call changes nothing.
    method SetCommittee()
      requires Valid()
      modifies this`setted, this`comm, this`candidates
      ensures State() == Set(old(State()), id) && Valid()
    {
      hide WithMustVotes, Pick, Ascending, CandidatesOf, Keyed;
      if setted { return; }
      setted := true;
      var ss := SortedSorts(svmp.Keys * css.Keys);
      if |ss| > COMMITTEE_SIZE { ss := ss[..COMMITTEE_SIZE]; }
      assert ss == Contenders(css, svmp);
      hide Contenders;
      KeepVoted(ss);
      ChooseCandidates();
    }

    method KeepVoted(ss: seq<SortMsg>)
      requires comm == []
      modifies this`comm
      ensures comm == WithMustVotes(ss, svmp)
    {
      hide WithMustVotes;
      var i := 0;
      while i < |ss|
        invariant i <= |ss| && WithMustVotes(ss, svmp) == comm + WithMustVotes(ss[i..], svmp)
      {
        NextKept(ss, i, svmp);
        if WeightIn(svmp, ss[i].hash) >= MUST_VOTES { comm := comm + [ss[i]]; }
        i := i + 1;
      }
      NextKept(ss, i, svmp);
    }

    static lemma NextKept(ss: seq<SortMsg>, i: nat, svmp: map<Hash, nat>)
      requires i <= |ss|
      ensures WithMustVotes(ss[i..], svmp) ==
        if i == |ss| then []
        else (if WeightIn(svmp, ss[i].hash) >= MUST_VOTES then [ss[i]] else []) + WithMustVotes(ss[i + 1..], svmp)
    {
      if i < |ss| { assert ss[i..][1..] == ss[i + 1..]; }
    }

    method ChooseCandidates()
      requires candidates == []
      modifies this`candidates
      ensures candidates == CandidatesOf(comm, id.addrOf)
    {
      var seen: set<Addr> := {};
      var i := 0;
      hide CandidatesFrom;
      while i < |comm|
        invariant i <= |comm|
        invariant CandidatesOf(comm, id.addrOf) == candidates + CandidatesFrom(comm, i, seen, id.addrOf)
      {
        var a := id.addrOf(comm[i].proof.pubkey);
        NextCandidate(comm, i, seen, candidates);
        if a !in seen {
          candidates := candidates + [comm[i].hash];
          if i == 2 { return; }
          seen := seen + {a};
        }
        i := i + 1;
      }
      NextCandidate(comm, i, seen, candidates);
    }

    lemma NextCandidate(comm: seq<SortMsg>, i: nat, seen: set<Addr>, before: seq<Hash>)
      requires i <= |comm|
      ensures before + CandidatesFrom(comm, i, seen, id.addrOf) ==
        if i == |comm| then before
        else
          var a, h := id.addrOf(comm[i].proof.pubkey), comm[i].hash;
          if a in seen then before + CandidatesFrom(comm, i + 1, seen, id.addrOf)
          else if i == 2 then before + [h]
          else (before + [h]) + CandidatesFrom(comm, i + 1, seen + {a}, id.addrOf)
    {
    }

    // makePreBlock and preMakeBlock: the pre-block to broadcast, at most once, and only
    // for a candidate of my own. parent is the block two heights below, if it is there.
    method MakePreBlock(parent: Option<Hash>, pubkey: PubKey) returns (b: Option<PreBlock>)
      requires Valid()
      modifies this`preMaked, this`setted, this`comm, this`candidates
      ensures State() == PreMade(old(State()), id) && Valid()
      ensures preMaked && (old(preMaked) ==> b.None?)
      ensures b.Some? ==> !old(preMaked) && parent.Some? && b.value == PreBlock(b.value.txHash, parent.value, pubkey)
      ensures b.Some? ==> FirstOwn(b.value.txHash, candidates, myss)
      ensures b.None? ==> old(preMaked) || parent.None? || forall h | h in candidates :: forall s | s in myss :: s.hash != h
    {
      if preMaked { return None; }
      preMaked := true;
      SetCommittee();
      MyCandidateIs(candidates, myss);
      if |myss| == 0 { return None; }
      var s := MyCandidateSort();
      if s.None? || parent.None? { return None; }
      b := Some(PreBlock(s.value.hash, parent.value, pubkey));
    }

    // voteBlock: the votes to broadcast.
    method VoteBlock(verify: PreBlock -> bool) returns (votes: seq<VoteMsg>)
      requires Valid()
      modifies this`setted, this`comm, this`candidates, this`voted
      ensures var r := CastVotes(old(State()), id, verify); State() == r.c && votes == r.votes
      ensures votes != [] ==> voted && !old(voted)
      ensures forall v | v in votes :: v.round == 0 && FirstReady(v.hash, candidates, bmp, verify)
      ensures if !old(voted) && exists h | h in candidates :: Ready(h, bmp, verify) then SortsOf(votes) == Mine(comm, id.addrOf, id.me) else votes == []
      ensures Valid()
    {
      CastIs(State(), id, verify);
      hide SortsOf, FirstReady, Ready;
      hide FirstVerified, Mine, CandidatesOf, CommOf, Keyed;
      votes := [];
      SetCommittee();
      var i := 0;
      assert candidates[0..] == candidates;
      while i < |candidates| && !(candidates[i] in bmp && verify(bmp[candidates[i]]))
        invariant i <= |candidates| && State() == Set(old(State()), id)
        invariant FirstVerified(candidates, bmp, verify) == FirstVerified(candidates[i..], bmp, verify)
      {
        NextVerified(candidates, i, bmp, verify);
        i := i + 1;
      }
      NextVerified(candidates, i, bmp, verify);
      if i == |candidates| || voted { return; }
      voted := true;
      var mine := GetMySorts(comm, id);
      votes := VotesCast(mine, candidates[i]);
    }

    static lemma NextVerified(cands: seq<Hash>, i: nat, bmp: map<Hash, PreBlock>, verify: PreBlock -> bool)
      requires i <= |cands|
      ensures FirstVerified(cands[i..], bmp, verify) ==
        if i == |cands| then None
        else if cands[i] in bmp && verify(bmp[cands[i]]) then Some(cands[i])
        else FirstVerified(cands[i + 1..], bmp, verify)
    {
      if i < |cands| { assert cands[i..][1..] == cands[i + 1..]; }
    }

    // handleBlockMsg: from the third pre-block on it votes at once; the first one starts
    // the timer that votes later.
    method HandleBlockMsg(b: PreBlock, verify: PreBlock -> bool) returns (votes: seq<VoteMsg>, timer: bool)
      requires Valid()
      modifies this`bmp, this`setted, this`comm, this`candidates, this`voted
      ensures var c := old(State()).(bmp := old(bmp)[b.txHash := b]);
        && timer == (|c.bmp| == 1)
        && if |c.bmp| > 2 then var r := CastVotes(c, id, verify); State() == r.c && votes == r.votes
           else State() == c && votes == []
      ensures Valid()
    {
      hide CastVotes, Keyed;
      bmp := bmp[b.txHash := b];
      votes, timer := [], |bmp| == 1;
      if |bmp| > 2 { votes := VoteBlock(verify); }
    }

    method MyCandidateSort() returns (s: Option<SortMsg>)
      ensures s == MyCandidate(candidates, myss)
    {
      s := None;
      var i := 0;
      while i < |candidates|
        invariant i <= |candidates|
        invariant MyCandidate(candidates, myss) == MyCandidate(candidates[i..], myss)
      {
        var j := 0;
        while j < |myss|
          invariant j <= |myss|
          invariant FindSort(myss, candidates[i]) == FindSort(myss[j..], candidates[i])
        {
          if myss[j].hash == candidates[i] { return Some(myss[j]); }
          j := j + 1;
        }
        i := i + 1;
      }
    }

    static method InsertVote(r: seq<VoteMsg>, v: VoteMsg) returns (q: seq<VoteMsg>)
      requires VotesSorted(r)
      ensures VotesSorted(q) && multiset(q) == multiset(r) + multiset{v}
    {
      var k := 0;
      while k < |r| && r[k].sort.hash <= v.sort.hash
        invariant k <= |r| && forall a | 0 <= a < k :: r[a].sort.hash <= v.sort.hash
      {
        k := k + 1;
      }
      InsertedAt(r, k, v);
      q := r[..k] + [v] + r[k..];
    }

    static lemma InsertedAt(r: seq<VoteMsg>, k: nat, v: VoteMsg)
      requires k <= |r| && VotesSorted(r)
      requires (forall a | 0 <= a < k :: r[a].sort.hash <= v.sort.hash) && (k < |r| ==> v.sort.hash <= r[k].sort.hash)
      ensures var q := r[..k] + [v] + r[k..];
        VotesSorted(q) && multiset(q) == multiset(r) + multiset{v}
    {
      assert r == r[..k] + r[k..];
      InsertedSorted(r, k, v);
      hide VotesSorted;
    }

    static lemma InsertedSorted(r: seq<VoteMsg>, k: nat, v: VoteMsg)
      requires k <= |r| && VotesSorted(r)
      requires (forall a | 0 <= a < k :: r[a].sort.hash <= v.sort.hash) && (k < |r| ==> v.sort.hash <= r[k].sort.hash)
      ensures VotesSorted(r[..k] + [v] + r[k..])
    {
      var q := r[..k] + [v] + r[k..];
      forall i, j | 0 <= i < j < |q| ensures q[i].sort.hash <= q[j].sort.hash {
        assert j > k ==> q[j] == r[j - 1];
        assert i > k ==> q[i] == r[i - 1];
      }
    }

    // sort.Sort(pt.Votes(vs)): some permutation in ascending order of sort hash.
    static method SortVotes(vs: seq<VoteMsg>) returns (r: seq<VoteMsg>)
      ensures VotesSorted(r) && multiset(r) == multiset(vs)
    {
      r := [];
      var i := 0;
      while i < |vs|
        invariant i <= |vs| && VotesSorted(r) && multiset(r) == multiset(vs[..i])
      {
        assert vs[..i + 1] == vs[..i] + [vs[i]];
        r := InsertVote(r, vs[i]);
        i := i + 1;
      }
      assert vs[..i] == vs;
    }

    // makeBlock0 and minerTx: the votes whose keys the block carries.
    method MakeBlock0(chain: Chain) returns (keys: seq<VoteMsg>)
      modifies this`bvmp, this`maked
      ensures MakesBlock(old(State()), chain, State(), keys)
      ensures keys != [] ==> old(makerIsMe) && !old(maked) && maked && chain.parent && chain.sealable
      ensures keys != [] ==> exists s | s in myss && FirstOwn(s.hash, candidates, myss) ::
        MAJORITY <= |keys| <= VOTER_SIZE && SmallestVotes(old(State()).VotesFor(s.hash), keys)
    {
      keys := [];
      if !makerIsMe || maked || !chain.parent { return; }
      var s := MyCandidateSort();
      if s.None? { return; }
      var h := s.value.hash;
      var vs := if h in bvmp then bvmp[h] else [];
      if |vs| < MAJORITY { return; }
      if |vs| > VOTER_SIZE { vs := SortVotes(vs); }
      bvmp := bvmp[h := vs];
      assert multiset(vs) == multiset(old(State()).VotesFor(h));
      if !chain.sealable { return; }
      keys := if |vs| > VOTER_SIZE then vs[..VOTER_SIZE] else vs;
      maked := true;
      BlockKeys(old(State()), chain, State(), keys);
    }

    // The append loop of handleVoteMsg; all tells whether it reached the end.
    method AppendVotes(ms: seq<VoteMsg>) returns (all: bool)
      requires ms != []
      modifies this`bvmp
      ensures State() == AddVotes(old(State()), ms[0].hash, SameVotes(ms)) && all == (SameVotes(ms) == ms)
    {
      var h, i := ms[0].hash, 0;
      ghost var before := old(State()).VotesFor(h);
      while i < |ms| && ms[i].round == ms[0].round && ms[i].hash == h
        invariant i <= |ms| && SameVotes(ms) == SamePrefix(ms, i)
        invariant bvmp == if i == 0 then old(bvmp) else old(bvmp)[h := before + ms[..i]]
      {
        assert before + ms[..i + 1] == before + ms[..i] + [ms[i]];
        assert i == 0 ==> before + ms[..i] == before;
        bvmp := bvmp[h := (if h in bvmp then bvmp[h] else []) + [ms[i]]];
        assert bvmp == old(bvmp)[h := before + ms[..i + 1]];
        i := i + 1;
      }
      all := i == |ms|;
      assert ms[..i] == SameVotes(ms);
      assert i == |ms| ==> ms[..i] == ms;
    }

    // handleVoteMsg
    method HandleVoteMsg(ms: seq<VoteMsg>, checked: bool, chain: Chain) returns (keys: seq<VoteMsg>)
      modifies this`bvmp, this`maked, this`makerIsMe
      ensures HandlesVotes(old(State()), ms, checked, chain, State(), keys)
      ensures (ms == [] || ms[0].sort.num >= 1 || chain.late || !checked) ==> State() == old(State()) && keys == []
      ensures keys != [] ==> forall v | v in ms :: v.hash == ms[0].hash && v.round == ms[0].round
      ensures keys != [] ==> ms != [] && FirstOwn(ms[0].hash, candidates, myss) && !chain.current && !old(maked) && |keys| >= MAJORITY
    {
      hide SameVotes, AddVotes, MyCandidate, MakesBlock;
      keys := [];
      if ms == [] || ms[0].sort.num >= 1 || chain.late || !checked { return; }
      var h := ms[0].hash;
      var all := AppendVotes(ms);
      if !all || chain.current || |State().VotesFor(h)| <= VOTER_SIZE / 2 { return; }
      var s := MyCandidateSort();
      if s.None? || s.value.hash != h { return; }
      makerIsMe := true;
      MyCandidateIs(candidates, myss);
      SameVotesAre(ms);
      keys := MakeBlock0(chain);
    }
  }
}
