// Sortition: drawing a key's winning tickets with a pool of workers, and checking a
// drawn sort (plugin/consensus/pos33/sortition.go:40-122, 154-204; node.go:600-678, 1005-1024).
module Sortition {
  import opened Options
  import opened Order
  import opened Params
  import opened Messages
  import opened Doubles

  // ---- The worker pool (runSortition, doSort) ----

  const WORKERS := 8
  const QUEUE_CAP := 8

  // sent counts the arguments the sending goroutine has queued; order lists the indices
  // whose results the caller has received, so the source's j is |order|. Result channels
  // are unbuffered: a worker gives its result at the moment the caller receives it.
  datatype Pool = Pool(count: int, sent: nat, queue: seq<nat>, workers: seq<Option<nat>>, order: seq<nat>,
                       msgs: seq<SortMsg>, closed: bool)

  datatype Move = Send | Take(w: nat) | Give(w: nat) | Close

  ghost predicate Initial(p: Pool) {
    p == Pool(p.count, 0, [], seq(WORKERS, i => None), [], [], false)
  }

  function Appended(msgs: seq<SortMsg>, m: Option<SortMsg>): seq<SortMsg> {
    if m.Some? then msgs + [m.value] else msgs
  }

  ghost predicate Holds(p: Pool, w: nat) {
    w < |p.workers| && p.workers[w].Some?
  }

  ghost predicate Step(p: Pool, m: Move, p': Pool, f: nat -> Option<SortMsg>) {
    match m
    case Send => p.sent < p.count && |p.queue| < QUEUE_CAP && p' == p.(sent := p.sent + 1, queue := p.queue + [p.sent])
    case Take(w) =>
      && w < |p.workers| && p.workers[w].None? && p.queue != []
      && p' == p.(queue := p.queue[1..], workers := p.workers[w := Some(p.queue[0])])
    case Give(w) =>
      && Holds(p, w) && |p.order| < p.count
      && var i := p.workers[w].value;
         p' == p.(workers := p.workers[w := None], order := p.order + [i], msgs := Appended(p.msgs, f(i)))
    case Close => !p.closed && |p.order| >= p.count && p' == p.(closed := true)
  }

  ghost predicate IsRun(states: seq<Pool>, moves: seq<Move>, f: nat -> Option<SortMsg>) {
    && |states| == |moves| + 1 && Initial(states[0])
    && forall k | 0 <= k < |moves| :: Step(states[k], moves[k], states[k + 1], f)
  }

  function Is(o: Option<nat>, i: nat): nat {
    if o == Some(i) then 1 else 0
  }

  // How many workers hold index i, and how many hold any.
  function HeldOf(ws: seq<Option<nat>>, i: nat): nat {
    if ws == [] then 0 else Is(ws[0], i) + HeldOf(ws[1..], i)
  }

  function Busy(ws: seq<Option<nat>>): nat {
    if ws == [] then 0 else (if ws[0].Some? then 1 else 0) + Busy(ws[1..])
  }

  function Occ(xs: seq<nat>, i: nat): nat {
    multiset(xs)[i]
  }

  function Below(n: nat): (r: seq<nat>)
    ensures |r| == n
  {
    if n == 0 then [] else Below(n - 1) + [n - 1]
  }

  function Winners(xs: seq<nat>, f: nat -> Option<SortMsg>): seq<SortMsg>
    decreases |xs|
  {
    if xs == [] then [] else Appended(Winners(xs[..|xs| - 1], f), f(xs[|xs| - 1]))
  }

  // Every index queued so far is in the queue, with one worker, or received, once.
  ghost predicate Inv(p: Pool, f: nat -> Option<SortMsg>) {
    && |p.workers| == WORKERS && |p.queue| <= QUEUE_CAP
    && (p.sent <= p.count || p.sent == 0)
    && |p.queue| + Busy(p.workers) + |p.order| == p.sent
    && (forall i: nat :: Occ(p.queue, i) + HeldOf(p.workers, i) + Occ(p.order, i) == if i < p.sent then 1 else 0)
    && p.msgs == Winners(p.order, f)
    && (p.closed ==> |p.order| >= p.count)
  }

  lemma {:induction false} WorkerSet(ws: seq<Option<nat>>, w: nat, o: Option<nat>, i: nat)
    requires w < |ws|
    ensures HeldOf(ws[w := o], i) == HeldOf(ws, i) + Is(o, i) - Is(ws[w], i)
    ensures Busy(ws[w := o]) == Busy(ws) + (if o.Some? then 1 else 0) - (if ws[w].Some? then 1 else 0)
  {
    if w == 0 {
      assert ws[w := o][1..] == ws[1..];
    } else {
      assert ws[w := o][1..] == ws[1..][w - 1 := o];
      WorkerSet(ws[1..], w - 1, o, i);
    }
  }

  lemma {:induction false} AllIdle(ws: seq<Option<nat>>)
    ensures (forall w | 0 <= w < |ws| :: ws[w].None?) <==> Busy(ws) == 0
    ensures Busy(ws) == 0 ==> forall i :: HeldOf(ws, i) == 0
  {
    if ws != [] {
      AllIdle(ws[1..]);
      assert forall w | 0 < w < |ws| :: ws[w] == ws[1..][w - 1];
    }
  }

  lemma OccLast(xs: seq<nat>, x: nat, i: nat)
    ensures Occ(xs + [x], i) == Occ(xs, i) + Is(Some(x), i)
  {
  }

  lemma OccFirst(xs: seq<nat>, i: nat)
    requires xs != []
    ensures Occ(xs, i) == Occ(xs[1..], i) + Is(Some(xs[0]), i)
  {
    assert xs == [xs[0]] + xs[1..];
  }

  lemma StepKeeps(p: Pool, m: Move, p': Pool, f: nat -> Option<SortMsg>)
    requires Inv(p, f) && Step(p, m, p', f)
    ensures Inv(p', f)
  {
    hide HeldOf, Busy, Occ, Winners, Appended;
    forall i: nat ensures Occ(p'.queue, i) + HeldOf(p'.workers, i) + Occ(p'.order, i) == if i < p'.sent then 1 else 0 {
      match m
      case Send => OccLast(p.queue, p.sent, i);
      case Take(w) =>
        OccFirst(p.queue, i);
        WorkerSet(p.workers, w, Some(p.queue[0]), i);
      case Give(w) =>
        OccLast(p.order, p.workers[w].value, i);
        WorkerSet(p.workers, w, None, i);
      case Close =>
    }
    match m
    case Take(w) => WorkerSet(p.workers, w, Some(p.queue[0]), 0);
    case Give(w) =>
      WorkerSet(p.workers, w, None, 0);
      WinnersNext(p.order, p.workers[w].value, f);
    case _ =>
  }

  lemma WinnersNext(xs: seq<nat>, x: nat, f: nat -> Option<SortMsg>)
    ensures Winners(xs + [x], f) == Appended(Winners(xs, f), f(x))
  {
    assert (xs + [x])[..|xs|] == xs;
  }

  lemma {:induction false} InvOnRuns(states: seq<Pool>, moves: seq<Move>, f: nat -> Option<SortMsg>, k: nat)
    requires IsRun(states, moves, f) && k < |states|
    ensures Inv(states[k], f) && states[k].count == states[0].count
    decreases k
  {
    if k == 0 {
      AllIdle(states[0].workers);
    } else {
      hide Inv;
      InvOnRuns(states, moves, f, k - 1);
      StepKeeps(states[k - 1], moves[k - 1], states[k], f);
    }
  }

  lemma {:induction false} BelowIs(n: nat, i: nat)
    ensures Occ(Below(n), i) == if i < n then 1 else 0
  {
    if n > 0 {
      BelowIs(n - 1, i);
      OccLast(Below(n - 1), n - 1, i);
    }
  }

  lemma {:induction false} WinnersRemove(xs: seq<nat>, k: nat, f: nat -> Option<SortMsg>)
    requires k < |xs|
    ensures multiset(Winners(xs, f)) == multiset(Winners(xs[..k] + xs[k + 1..], f)) + multiset(Appended([], f(xs[k])))
    decreases |xs|
  {
    hide Winners, Appended;
    var n := |xs| - 1;
    var init, rest := xs[..n], xs[..k] + xs[k + 1..];
    assert xs == init + [xs[n]];
    WinnersNext(init, xs[n], f);
    if k == n {
      assert rest == init;
      AppendedIs(Winners(init, f), f(xs[n]));
    } else {
      var shorter := init[..k] + init[k + 1..];
      WinnersRemove(init, k, f);
      assert rest == shorter + [xs[n]];
      WinnersNext(shorter, xs[n], f);
      AppendedIs(Winners(init, f), f(xs[n]));
      AppendedIs(Winners(shorter, f), f(xs[n]));
    }
  }

  lemma AppendedIs(msgs: seq<SortMsg>, m: Option<SortMsg>)
    ensures multiset(Appended(msgs, m)) == multiset(msgs) + multiset(Appended([], m))
  {
  }

  lemma {:induction false} WinnersPermute(xs: seq<nat>, ys: seq<nat>, f: nat -> Option<SortMsg>)
    requires multiset(xs) == multiset(ys)
    ensures multiset(Winners(xs, f)) == multiset(Winners(ys, f))
    decreases |xs|
  {
    hide Winners, Appended;
    if xs == [] {
      SameSize(xs, ys);
    } else {
      var n := |xs| - 1;
      var x := xs[n];
      assert x in multiset(ys);
      var k :| 0 <= k < |ys| && ys[k] == x;
      var init, rest := xs[..n], ys[..k] + ys[k + 1..];
      DropOne(xs, n);
      DropOne(ys, k);
      assert xs[..n] + xs[n + 1..] == init;
      WinnersRemove(xs, n, f);
      WinnersRemove(ys, k, f);
      WinnersPermute(init, rest, f);
    }
  }

  lemma DropOne(xs: seq<nat>, k: nat)
    requires k < |xs|
    ensures multiset(xs[..k] + xs[k + 1..]) == multiset(xs) - multiset{xs[k]}
  {
    assert xs == xs[..k] + [xs[k]] + xs[k + 1..];
  }

  lemma {:induction false} WinnersAre(n: nat, f: nat -> Option<SortMsg>, m: SortMsg)
    ensures m in Winners(Below(n), f) <==> exists i: nat :: i < n && f(i) == Some(m)
  {
    if n > 0 {
      WinnersAre(n - 1, f, m);
      assert Below(n)[..n - 1] == Below(n - 1);
    }
  }

  function Count(count: int): nat { if count < 0 then 0 else count }

  lemma NoneQueued(i: nat)
    ensures Occ([], i) == 0
  {
  }

  lemma SameOcc(xs: seq<nat>, ys: seq<nat>)
    requires forall i: nat :: Occ(xs, i) == Occ(ys, i)
    ensures multiset(xs) == multiset(ys)
  {
    forall i: nat ensures multiset(xs)[i] == multiset(ys)[i] {
      assert Occ(xs, i) == Occ(ys, i);
    }
  }

  lemma ClosedOrder(p: Pool, f: nat -> Option<SortMsg>)
    requires Inv(p, f) && p.closed
    ensures p.queue == [] && Busy(p.workers) == 0 && p.sent == Count(p.count)
    ensures p.msgs == Winners(p.order, f) && multiset(p.order) == multiset(Below(p.sent))
  {
    hide HeldOf, Busy, Winners, Below, Occ;
    AllIdle(p.workers);
    forall i: nat ensures Occ(p.order, i) == Occ(Below(p.sent), i) {
      BelowIs(p.sent, i);
      NoneQueued(i);
      assert Occ(p.queue, i) + HeldOf(p.workers, i) + Occ(p.order, i) == if i < p.sent then 1 else 0;
    }
    SameOcc(p.order, Below(p.sent));
  }

  // Under every schedule of the workers, once doSort has closed its channel it holds the
  // result of each index below count exactly once, no worker is left with anything to
  // send, and the messages are those of the winning indices, each once.
  lemma DoSortAnswer(states: seq<Pool>, moves: seq<Move>, f: nat -> Option<SortMsg>, k: nat)
    requires IsRun(states, moves, f) && k < |states| && states[k].closed
    ensures var p := states[k];
      && multiset(p.order) == multiset(Below(Count(p.count)))
      && p.queue == [] && (forall w: nat :: !Holds(p, w))
      && multiset(p.msgs) == multiset(Winners(Below(Count(p.count)), f))
  {
    InvOnRuns(states, moves, f, k);
    var p := states[k];
    AllIdle(p.workers);
    hide HeldOf, Busy, Winners, Below, Occ, IsRun, Inv;
    ClosedOrder(p, f);
    WinnersPermute(p.order, Below(p.sent), f);
  }

  function Measure(p: Pool): int {
    3 * (Count(p.count) - p.sent) + 2 * |p.queue| + Busy(p.workers) + if p.closed then 0 else 1
  }

  lemma StepsShrink(p: Pool, m: Move, p': Pool, f: nat -> Option<SortMsg>)
    requires Inv(p, f) && Step(p, m, p', f)
    ensures 0 <= Measure(p') < Measure(p)
  {
    StepKeeps(p, m, p', f);
    hide HeldOf, Busy, Occ, Winners, Appended;
    if m.Take? {
      WorkerSet(p.workers, m.w, Some(p.queue[0]), 0);
    } else if m.Give? {
      WorkerSet(p.workers, m.w, None, 0);
    }
  }

  lemma SomebodyMoves(p: Pool, f: nat -> Option<SortMsg>) returns (m: Move, p': Pool)
    requires Inv(p, f) && !p.closed
    ensures Step(p, m, p', f)
  {
    AllIdle(p.workers);
    hide HeldOf, Busy, Occ, Winners, Appended;
    if w: nat :| Holds(p, w) {
      m := Give(w);
      var i := p.workers[w].value;
      p' := p.(workers := p.workers[w := None], order := p.order + [i], msgs := Appended(p.msgs, f(i)));
    } else if p.queue != [] {
      assert !Holds(p, 0);
      m, p' := Take(0), p.(queue := p.queue[1..], workers := p.workers[0 := Some(p.queue[0])]);
    } else if p.sent < p.count {
      m, p' := Send, p.(sent := p.sent + 1, queue := p.queue + [p.sent]);
    } else {
      forall w | 0 <= w < |p.workers| ensures p.workers[w].None? { assert !Holds(p, w); }
      m, p' := Close, p.(closed := true);
    }
  }

  lemma {:induction false} RunsAreShort(states: seq<Pool>, moves: seq<Move>, f: nat -> Option<SortMsg>, k: nat)
    requires IsRun(states, moves, f) && k < |states|
    ensures k + Measure(states[k]) <= 3 * Count(states[0].count) + 1
    decreases k
  {
    if k == 0 {
      AllIdle(states[0].workers);
    } else {
      hide Measure, Inv;
      RunsAreShort(states, moves, f, k - 1);
      InvOnRuns(states, moves, f, k - 1);
      StepsShrink(states[k - 1], moves[k - 1], states[k], f);
    }
  }

  // Every schedule ends within three moves an index and one more, and ends closed.
  lemma DoSortEnds(states: seq<Pool>, moves: seq<Move>, f: nat -> Option<SortMsg>)
    requires IsRun(states, moves, f)
    ensures |moves| <= 3 * Count(states[0].count) + 1
    ensures (forall m, p' :: !Step(states[|moves|], m, p', f)) ==> states[|moves|].closed
  {
    var k := |moves|;
    InvOnRuns(states, moves, f, k);
    RunsAreShort(states, moves, f, k);
    if !states[k].closed {
      var m, p' := SomebodyMoves(states[k], f);
    }
  }

  // ---- Drawing and checking sorts ----

  const COMMITTEE_TY := 0
  const HASH_BITS := 256

  // Foreign code and chain state a sortition reads: the VRF of a key, whether a proof
  // opens to a value, double SHA-256 of (vrf hash, index, num), the ticket counts of an
  // address and of everyone at a height, and the address of a key.
  datatype Env = Env(
    vrfHash: (PubKey, VrfInput) -> nat, vrfProof: (PubKey, VrfInput) -> nat,
    proofToHash: (PubKey, VrfInput, nat) -> Option<nat>, digest: (nat, int, int) -> Hash,
    count: (Addr, int) -> int, total: int -> int, addrOf: PubKey -> Addr)
  {
    // An ideal VRF: one value per key and input, and the honest proof opens to it.
    ghost predicate Ideal() {
      && (forall k, x :: proofToHash(k, x, vrfProof(k, x)) == Some(vrfHash(k, x)))
      && (forall k, x, p :: proofToHash(k, x, p).Some? ==> proofToHash(k, x, p).value == vrfHash(k, x))
    }
  }

  // Quo(hash, 2^256) > float64(75) / float64(total): a total of 0 divides to +Inf.
  function Wins(hash: Hash, total: int): bool {
    if total == 0 then true else
      RoundAtLeastOne(total as real);
      hash as real / Pow2(HASH_BITS) <= Round(COMMITTEE_SIZE as real / Round(total as real))
  }

  function SortF(env: Env, vrfHash: nat, index: int, num: int, total: int, proof: HashProof): Option<SortMsg> {
    var hash := env.digest(vrfHash, index, num);
    if Wins(hash, total) then Some(SortMsg(hash, index, num, proof)) else None
  }

  function InputFor(seed: Hash, height: int, round: int): VrfInput {
    VrfInput(seed, height, round, COMMITTEE_TY)
  }

  function ProofOf(env: Env, key: PubKey, input: VrfInput): HashProof {
    HashProof(input, env.vrfHash(key, input), env.vrfProof(key, input), key)
  }

  // queryTicketCount and allCount read a height below 0 as 0.
  function At(height: int): int { if height < 0 then 0 else height }

  function DrawOf(env: Env, key: PubKey, seed: Hash, height: int, round: int): nat -> Option<SortMsg> {
    var proof := ProofOf(env, key, InputFor(seed, height, round));
    (i: nat) => SortF(env, proof.vrfHash, i, 0, env.total(At(height - SORT_BLOCKS)), proof)
  }

  function TicketsOf(env: Env, key: PubKey, height: int): int {
    env.count(env.addrOf(key), At(height - SORT_BLOCKS))
  }

  // What committeeSort can return for a key: the messages of a finished doSort.
  ghost predicate CommitteeSort(env: Env, key: PubKey, seed: Hash, height: int, round: int, ss: seq<SortMsg>) {
    exists states: seq<Pool>, moves: seq<Move>, k: nat ::
      && IsRun(states, moves, DrawOf(env, key, seed, height, round)) && k < |states|
      && states[0].count == TicketsOf(env, key, height) && states[k].closed && states[k].msgs == ss
  }

  predicate VerifySort(env: Env, height: int, ty: int, seed: Hash, m: SortMsg) {
    height <= SORT_BLOCKS ||
    (
      && m.index < env.count(env.addrOf(m.proof.pubkey), At(height - SORT_BLOCKS))
      && m.proof.input.height == height && m.proof.input.seed == seed && m.proof.input.ty == ty
      && env.proofToHash(m.proof.pubkey, VrfInput(seed, height, m.proof.input.round, ty), m.proof.vrfProof) == Some(m.proof.vrfHash)
      && env.digest(m.proof.vrfHash, m.index, m.num) == m.hash
      && Wins(m.hash, env.total(At(height - SORT_BLOCKS)))
    )
  }

  // m is drawn by its own key, up to the bytes of the VRF proof.
  ghost predicate Drawn(env: Env, seed: Hash, height: int, m: SortMsg) {
    var key, round := m.proof.pubkey, m.proof.input.round;
    exists i: nat :: i < TicketsOf(env, key, height) &&
      DrawOf(env, key, seed, height, round)(i) == Some(m.(proof := m.proof.(vrfProof := env.vrfProof(key, InputFor(seed, height, round)))))
  }

  // Whatever the schedule, committeeSort returns each winning ticket of its key once, and
  // nothing else.
  lemma CommitteeSortDraws(env: Env, key: PubKey, seed: Hash, height: int, round: int, ss: seq<SortMsg>, m: SortMsg)
    requires CommitteeSort(env, key, seed, height, round, ss)
    ensures m in ss <==> exists i: nat :: i < TicketsOf(env, key, height) && DrawOf(env, key, seed, height, round)(i) == Some(m)
    ensures multiset(ss)[m] <= 1
  {
    var f := DrawOf(env, key, seed, height, round);
    var states: seq<Pool>, moves: seq<Move>, k: nat :| IsRun(states, moves, f) && k < |states|
      && states[0].count == TicketsOf(env, key, height) && states[k].closed && states[k].msgs == ss;
    DoSortAnswer(states, moves, f, k);
    InvOnRuns(states, moves, f, k);
    var n := Count(TicketsOf(env, key, height));
    WinnersAre(n, f, m);
    DrawnOnce(n, f, m);
    assert m in ss <==> m in multiset(ss);
    assert m in Winners(Below(n), f) <==> m in multiset(Winners(Below(n), f));
  }

  lemma {:induction false} DrawnOnce(n: nat, f: nat -> Option<SortMsg>, m: SortMsg)
    requires forall i: nat | f(i).Some? :: f(i).value.index == i
    ensures multiset(Winners(Below(n), f))[m] <= if m.index < n then 1 else 0
  {
    if n > 0 {
      DrawnOnce(n - 1, f, m);
      assert Below(n)[..n - 1] == Below(n - 1);
    }
  }

  // Above height 10, what a key draws is accepted by everyone who sees the same counts.
  lemma DrawnIsAccepted(env: Env, key: PubKey, seed: Hash, height: int, round: int, ss: seq<SortMsg>, m: SortMsg)
    requires env.Ideal() && CommitteeSort(env, key, seed, height, round, ss) && m in ss
    ensures VerifySort(env, height, COMMITTEE_TY, seed, m) && m.proof.pubkey == key
    ensures m.num == 0 && m.index >= 0
  {
    CommitteeSortDraws(env, key, seed, height, round, ss, m);
  }

  // Above height 10, a sort with Num 0 and Index at least 0 is accepted if and only if
  // its VRF proof opens and its key draws it; any other accepted sort is one nobody draws.
  lemma AcceptedIffDrawn(env: Env, seed: Hash, height: int, m: SortMsg)
    requires env.Ideal() && height > SORT_BLOCKS
    ensures var opens := env.proofToHash(m.proof.pubkey, InputFor(seed, height, m.proof.input.round), m.proof.vrfProof).Some?;
      && (opens && Drawn(env, seed, height, m) <==> VerifySort(env, height, COMMITTEE_TY, seed, m) && m.num == 0 && m.index >= 0)
  {
    var key, round := m.proof.pubkey, m.proof.input.round;
    var input := InputFor(seed, height, round);
    var honest := m.(proof := m.proof.(vrfProof := env.vrfProof(key, input)));
    if VerifySort(env, height, COMMITTEE_TY, seed, m) && m.num == 0 && m.index >= 0 {
      assert m.proof.input == input;
      assert DrawOf(env, key, seed, height, round)(m.index) == Some(honest);
    }
  }

  // A key with one ticket whose digest at index -1 wins: accepted, drawn by nobody.
  lemma NegativeIndexAccepted() returns (env: Env, m: SortMsg)
    ensures env.Ideal() && VerifySort(env, 20, COMMITTEE_TY, 0, m) && !Drawn(env, 0, 20, m)
  {
    env := Env((k, x) => 0, (k, x) => 0, (k, x, p) => Some(0), (v, i, n) => 0, (a, h) => 1, h => 1, k => 0);
    m := SortMsg(0, -1, 0, ProofOf(env, 0, InputFor(0, 20, 0)));
    FewTicketsAllWin(0, 1);
  }

  // While there are at most 75 tickets in all, every ticket wins.
  lemma FewTicketsAllWin(hash: Hash, total: int)
    requires 0 <= total <= COMMITTEE_SIZE && hash as real < Pow2(HASH_BITS)
    ensures Wins(hash, total)
  {
    hide Round, Pow2;
    if total > 0 {
      IntIsDouble(total);
      RatioAtLeastOne(COMMITTEE_SIZE as real, total as real);
      RoundAtLeastOne(COMMITTEE_SIZE as real / total as real);
      RatioAtMostOne(hash as real, Pow2(HASH_BITS));
    }
  }

  // Dividing 75 by the total in doubles moves the threshold by less than one part in 2^53.
  lemma WinsNearly(hash: Hash, total: int)
    requires 0 < total < SIGNIFICANDS
    ensures var r, x := hash as real / Pow2(HASH_BITS), COMMITTEE_SIZE as real / total as real;
      && (Wins(hash, total) ==> r * (SIGNIFICANDS as real) <= x * (SIGNIFICANDS + 1) as real)
      && (r * (SIGNIFICANDS as real) <= x * (SIGNIFICANDS - 1) as real ==> Wins(hash, total))
  {
    hide Round, Pow2, Abs;
    IntIsDouble(total);
    var x := COMMITTEE_SIZE as real / total as real;
    RoundWithin(x);
  }

  // And where that quotient is a double, it is the threshold, which still wins.
  lemma WinsExactly(hash: Hash, total: int)
    requires 0 < total < SIGNIFICANDS && IsDouble(COMMITTEE_SIZE as real / total as real)
    ensures Wins(hash, total) <==> hash as real / Pow2(HASH_BITS) <= COMMITTEE_SIZE as real / total as real
  {
    hide Round, Pow2, IsDouble;
    IntIsDouble(total);
    RoundExact(COMMITTEE_SIZE as real / total as real);
  }

  lemma RoundWithin(x: real)
    requires x >= 0.0
    ensures x * (SIGNIFICANDS - 1) as real <= Round(x) * (SIGNIFICANDS as real) <= x * (SIGNIFICANDS + 1) as real
  {
    RoundError(x);
    hide Round;
  }

  lemma RatioAtLeastOne(x: real, y: real)
    requires 0.0 < y <= x
    ensures x / y >= 1.0
  {
    assert y / y == 1.0;
  }

  lemma RatioAtMostOne(x: real, y: real)
    requires x <= y && y > 0.0
    ensures x / y <= 1.0
  {
    assert y / y == 1.0;
  }

  // ---- Seeds ----

  const ZERO_HASH: Hash := 0

  // chain[b] is the sort hash in the miner transaction of block b.
  function MinerSeed(chain: seq<Hash>, b: nat): Hash
    requires b < |chain|
  {
    if b > SORT_BLOCKS then chain[b] else ZERO_HASH
  }

  function Requested(chain: seq<Hash>, height: int): Option<nat> {
    if 0 <= height < |chain| then Some(height) else None
  }

  datatype Draw = Draw(height: int, seed: Hash)

  // The seeds sortCommittee runs with: on each new block, after a timeout, and at the start.
  function SortitionSeed(chain: seq<Hash>, b: nat): Draw
    requires b < |chain|
  {
    Draw(b + SORT_BLOCKS, MinerSeed(chain, b))
  }

  function ReSortitionSeed(chain: seq<Hash>, height: int): Option<Draw> {
    match Requested(chain, height - SORT_BLOCKS)
    case Some(b) => Some(Draw(height, MinerSeed(chain, b)))
    case None => None
  }

  function FirstSeed(height: int): Draw { Draw(height, ZERO_HASH) }

  // getSortSeed, as checkSort calls it
  function CheckSeed(chain: seq<Hash>, height: int): Option<Hash> {
    if height - SORT_BLOCKS < SORT_BLOCKS then Some(ZERO_HASH) else
      match Requested(chain, height - SORT_BLOCKS)
      case Some(b) => Some(MinerSeed(chain, b))
      case None => None
  }

  // Every way a node can come to draw for a height.
  ghost predicate DrawsWith(chain: seq<Hash>, d: Draw) {
    || (exists b: nat :: b < |chain| && d == SortitionSeed(chain, b))
    || ReSortitionSeed(chain, d.height) == Some(d)
    || (0 <= d.height <= SORT_BLOCKS && d == FirstSeed(d.height))
  }

  predicate CheckSort(env: Env, chain: seq<Hash>, m: SortMsg) {
    var height := m.proof.input.height;
    var seed := CheckSeed(chain, height);
    seed.Some? && VerifySort(env, height, COMMITTEE_TY, seed.value, m)
  }

  // All of them use the seed that checking uses.
  lemma SeedsAgree(chain: seq<Hash>, d: Draw)
    requires DrawsWith(chain, d)
    ensures CheckSeed(chain, d.height) == Some(d.seed)
  {
    if b: nat :| b < |chain| && d == SortitionSeed(chain, b) {
      assert Requested(chain, d.height - SORT_BLOCKS) == Some(b);
    }
  }

  // The seed of a draw is the sort hash of the block ten below, and 0 up to height 20.
  lemma SeedIs(chain: seq<Hash>, d: Draw)
    requires DrawsWith(chain, d)
    ensures d.height >= 0
    ensures if d.height > 2 * SORT_BLOCKS then d.height - SORT_BLOCKS < |chain| && d.seed == chain[d.height - SORT_BLOCKS] else d.seed == 0
  {
  }

  // So every sort a node draws, in any of these ways and under any worker schedule, passes
  // checkSort at a node with the same chain and counts.
  lemma HonestSortsPass(env: Env, chain: seq<Hash>, key: PubKey, d: Draw, round: int, ss: seq<SortMsg>, m: SortMsg)
    requires env.Ideal() && DrawsWith(chain, d)
    requires CommitteeSort(env, key, d.seed, d.height, round, ss) && m in ss
    ensures CheckSort(env, chain, m)
  {
    SeedsAgree(chain, d);
    CommitteeSortDraws(env, key, d.seed, d.height, round, ss, m);
    DrawnIsAccepted(env, key, d.seed, d.height, round, ss, m);
  }

  // At a node that sees other counts such a sort passes exactly when its ticket exists there
  // and its hash wins against the total there.
  lemma PassesElsewhereIff(env: Env, other: Env, chain: seq<Hash>, key: PubKey, d: Draw, round: int, ss: seq<SortMsg>, m: SortMsg)
    requires env.Ideal() && DrawsWith(chain, d) && other == env.(count := other.count, total := other.total)
    requires CommitteeSort(env, key, d.seed, d.height, round, ss) && m in ss
    ensures CheckSort(other, chain, m) <==>
      (d.height <= SORT_BLOCKS
       || (m.index < TicketsOf(other, key, d.height) && Wins(m.hash, other.total(At(d.height - SORT_BLOCKS)))))
  {
    SeedsAgree(chain, d);
    CommitteeSortDraws(env, key, d.seed, d.height, round, ss, m);
    DrawnIsAccepted(env, key, d.seed, d.height, round, ss, m);
    hide Wins;
  }

  // ---- How much one key can get accepted ----

  // The hashes of a key's first n tickets.
  function TicketHashes(env: Env, vrfHash: nat, n: nat): set<Hash> {
    if n == 0 then {} else TicketHashes(env, vrfHash, n - 1) + {env.digest(vrfHash, n - 1, 0)}
  }

  lemma {:induction false} TicketHashesAre(env: Env, vrfHash: nat, n: nat, i: nat)
    requires i < n
    ensures env.digest(vrfHash, i, 0) in TicketHashes(env, vrfHash, n)
  {
    if i < n - 1 { TicketHashesAre(env, vrfHash, n - 1, i); }
  }

  lemma {:induction false} NoMoreHashes(env: Env, vrfHash: nat, n: nat, H: set<Hash>)
    requires H <= TicketHashes(env, vrfHash, n)
    ensures |H| <= n
  {
    if n == 0 {
      assert H == {};
    } else {
      var h := env.digest(vrfHash, n - 1, 0);
      NoMoreHashes(env, vrfHash, n - 1, H - {h});
      assert H <= (H - {h}) + {h};
      assert |H| <= |H - {h}| + 1;
    }
  }

  // Above height 10 checkSort accepts one hash only for each key, round, index and Num.
  lemma AcceptedHash(env: Env, chain: seq<Hash>, m: SortMsg)
    requires env.Ideal() && CheckSort(env, chain, m) && m.proof.input.height > SORT_BLOCKS
    ensures var height := m.proof.input.height;
      m.hash == env.digest(env.vrfHash(m.proof.pubkey, InputFor(CheckSeed(chain, height).value, height, m.proof.input.round)), m.index, m.num)
  {
    hide Wins;
  }

  ghost predicate AcceptedFrom(env: Env, chain: seq<Hash>, key: PubKey, height: int, round: int, m: SortMsg) {
    && CheckSort(env, chain, m) && m.num == 0 && m.index >= 0
    && m.proof.pubkey == key && m.proof.input.height == height && m.proof.input.round == round
  }

  // Whatever a key's owner sends, at most as many different hashes of Num 0 and Index at
  // least 0 are accepted for a height and round as the key has tickets.
  lemma NoMoreThanTickets(env: Env, chain: seq<Hash>, key: PubKey, height: int, round: int, H: set<Hash>)
    requires env.Ideal() && height > SORT_BLOCKS
    requires forall h | h in H :: exists m: SortMsg :: m.hash == h && AcceptedFrom(env, chain, key, height, round, m)
    ensures |H| <= Count(TicketsOf(env, key, height))
  {
    var n := Count(TicketsOf(env, key, height));
    if H != {} {
      var one :| one in H;
      var first: SortMsg :| first.hash == one && AcceptedFrom(env, chain, key, height, round, first);
      var v := env.vrfHash(key, InputFor(CheckSeed(chain, height).value, height, round));
      forall h | h in H ensures h in TicketHashes(env, v, n) {
        var m: SortMsg :| m.hash == h && AcceptedFrom(env, chain, key, height, round, m);
        AcceptedHash(env, chain, m);
        TicketHashesAre(env, v, n, m.index);
      }
      NoMoreHashes(env, v, n, H);
    }
  }
}
