// Verifying a list of votes with a pool of workers, as interleaved steps
// (plugin/consensus/pos33/node.go:158-161, 188-197, 448-493). The caller sends each vote to the
// shared channel, peeks at the results after each send and puts back what it took, then
// drains one result for each vote sent. Each worker takes a vote and sends its verdict.
module VerifyVotes {
  import opened Options
  import opened Sums

  const WORKERS := 8
  const QUEUE_CAP := 8

  // Where the caller is. Draining(j, ok) has received j results.
  datatype Caller = Sending | Peeking | PuttingBack(result: bool) | Draining(j: nat, ok: bool) | Returned(ok: bool)

  // good[i] is what verifying vote i answers. next counts the votes sent so far (k in the
  // source); the result channel has room for |good| results.
  datatype Pool = Pool(good: seq<bool>, next: nat, queue: seq<nat>, workers: seq<Option<nat>>, results: seq<bool>, caller: Caller)

  datatype Move = CallerMove | TakeMove(w: nat) | GiveMove(w: nat)

  ghost predicate Initial(p: Pool) {
    && p.next == 0 && p.queue == [] && p.results == [] && p.caller == Sending
    && p.workers == seq(WORKERS, i => None)
  }

  // The caller's move, if it is not blocked.
  ghost predicate CallerStep(p: Pool, p': Pool) {
    match p.caller
    case Sending =>
      if p.next == |p.good| then p' == p.(caller := Draining(0, true))
      else |p.queue| < QUEUE_CAP && p' == p.(queue := p.queue + [p.next], next := p.next + 1, caller := Peeking)
    case Peeking =>
      if p.results == [] then p' == p.(caller := Sending)
      else p' == p.(results := p.results[1..], caller := PuttingBack(p.results[0]))
    case PuttingBack(r) =>
      && |p.results| < |p.good|
      && p' == p.(results := p.results + [r], caller := if r then Sending else Draining(0, true))
    case Draining(j, ok) =>
      && p.results != []
      && var ok' := ok && p.results[0];
         p' == p.(results := p.results[1..], caller := if p.next == j + 1 then Returned(ok') else Draining(j + 1, ok'))
    case Returned(_) => false
  }

  ghost predicate Step(p: Pool, m: Move, p': Pool) {
    match m
    case CallerMove => CallerStep(p, p')
    case TakeMove(w) =>
      && w < |p.workers| && p.workers[w].None? && p.queue != []
      && p' == p.(queue := p.queue[1..], workers := p.workers[w := Some(p.queue[0])])
    case GiveMove(w) =>
      && Holds(p, w) && |p.results| < |p.good| && !p.caller.Returned?
      && p' == p.(results := p.results + [p.good[p.workers[w].value]], workers := p.workers[w := None])
  }

  // Worker w has a verdict to send.
  ghost predicate Holds(p: Pool, w: nat) {
    w < |p.workers| && p.workers[w].Some? && p.workers[w].value < |p.good|
  }

  ghost predicate IsRun(states: seq<Pool>, moves: seq<Move>) {
    && |states| == |moves| + 1 && Initial(states[0])
    && forall k | 0 <= k < |moves| :: Step(states[k], moves[k], states[k + 1])
  }

  // ---- Where the votes and the bad verdicts are ----

  function Bad(r: bool): int { if r then 0 else 1 }

  function BadAt(good: seq<bool>, i: nat): int {
    if i < |good| then Bad(good[i]) else 0
  }

  function ResultMarks(rs: seq<bool>): seq<int> {
    seq(|rs|, i requires 0 <= i < |rs| => Bad(rs[i]))
  }

  function QueueMarks(good: seq<bool>, q: seq<nat>): seq<int> {
    seq(|q|, i requires 0 <= i < |q| => BadAt(good, q[i]))
  }

  function HeldMarks(good: seq<bool>, ws: seq<Option<nat>>): seq<int> {
    seq(|ws|, i requires 0 <= i < |ws| => if ws[i].Some? then BadAt(good, ws[i].value) else 0)
  }

  function BusyMarks(ws: seq<Option<nat>>): seq<int> {
    seq(|ws|, i requires 0 <= i < |ws| => if ws[i].Some? then 1 else 0)
  }

  function BadResults(rs: seq<bool>): int { SumSeq(ResultMarks(rs)) }

  function BadQueued(good: seq<bool>, q: seq<nat>): int { SumSeq(QueueMarks(good, q)) }

  function BadHeld(good: seq<bool>, ws: seq<Option<nat>>): int { SumSeq(HeldMarks(good, ws)) }

  function Busy(ws: seq<Option<nat>>): int { SumSeq(BusyMarks(ws)) }

  function InHand(c: Caller): int { if c.PuttingBack? then 1 else 0 }

  function BadInHand(c: Caller): int { if c.PuttingBack? then Bad(c.result) else 0 }

  function Drained(p: Pool): int {
    match p.caller
    case Draining(j, _) => j
    case Returned(_) => p.next
    case _ => 0
  }

  // Bad verdicts that are still on their way to the caller's answer.
  function BadAhead(p: Pool): int {
    BadQueued(p.good, p.queue) + BadHeld(p.good, p.workers) + BadResults(p.results) + BadInHand(p.caller)
  }

  function BadSent(p: Pool): int
    requires p.next <= |p.good|
  {
    BadResults(p.good[..p.next])
  }

  // Each vote sent is queued, with a worker, in the result channel, in the caller's hand,
  // or drained; so is each bad verdict, and the answer tells whether one was drained.
  ghost predicate Inv(p: Pool) {
    && p.next <= |p.good| && |p.workers| == WORKERS && |p.queue| <= QUEUE_CAP
    && (forall i | i in p.queue :: i < p.next)
    && (forall w | 0 <= w < |p.workers| && p.workers[w].Some? :: p.workers[w].value < p.next)
    && |p.queue| + Busy(p.workers) + |p.results| + InHand(p.caller) + Drained(p) == p.next
    && (match p.caller
        case Draining(j, ok) =>
          && (p.good != [] ==> j < p.next) && BadAhead(p) <= BadSent(p) && (ok <==> BadAhead(p) == BadSent(p))
          && (p.next < |p.good| ==> BadSent(p) > 0)
        case Returned(ok) =>
          && p.next > 0 && BadAhead(p) <= BadSent(p) && (ok <==> BadAhead(p) == BadSent(p))
          && (p.next < |p.good| ==> BadSent(p) > 0)
        case Peeking => p.next > 0 && BadAhead(p) == BadSent(p)
        case PuttingBack(_) => p.next > 0 && BadAhead(p) == BadSent(p)
        case Sending => BadAhead(p) == BadSent(p))
  }

  // ---- Bookkeeping ----

  lemma BadResultsFirst(rs: seq<bool>)
    requires rs != []
    ensures BadResults(rs) == Bad(rs[0]) + BadResults(rs[1..])
  {
    assert ResultMarks(rs)[1..] == ResultMarks(rs[1..]);
  }

  lemma BadResultsLast(rs: seq<bool>, r: bool)
    ensures BadResults(rs + [r]) == BadResults(rs) + Bad(r)
  {
    assert ResultMarks(rs + [r]) == ResultMarks(rs) + [Bad(r)];
    SumSeqConcat(ResultMarks(rs), [Bad(r)]);
  }

  lemma BadQueuedFirst(good: seq<bool>, q: seq<nat>)
    requires q != []
    ensures BadQueued(good, q) == BadAt(good, q[0]) + BadQueued(good, q[1..])
  {
    assert QueueMarks(good, q)[1..] == QueueMarks(good, q[1..]);
  }

  lemma BadQueuedLast(good: seq<bool>, q: seq<nat>, v: nat)
    ensures BadQueued(good, q + [v]) == BadQueued(good, q) + BadAt(good, v)
  {
    assert QueueMarks(good, q + [v]) == QueueMarks(good, q) + [BadAt(good, v)];
    SumSeqConcat(QueueMarks(good, q), [BadAt(good, v)]);
  }

  lemma WorkerSet(good: seq<bool>, ws: seq<Option<nat>>, w: nat, o: Option<nat>)
    requires w < |ws|
    ensures Busy(ws[w := o]) == Busy(ws) + (if o.Some? then 1 else 0) - (if ws[w].Some? then 1 else 0)
    ensures BadHeld(good, ws[w := o]) == BadHeld(good, ws)
      + (if o.Some? then BadAt(good, o.value) else 0) - (if ws[w].Some? then BadAt(good, ws[w].value) else 0)
  {
    var us := ws[w := o];
    assert BusyMarks(us) == BusyMarks(ws)[w := BusyMarks(us)[w]];
    SumSeqUpdate(BusyMarks(ws), w, BusyMarks(us)[w]);
    assert HeldMarks(good, us) == HeldMarks(good, ws)[w := HeldMarks(good, us)[w]];
    SumSeqUpdate(HeldMarks(good, ws), w, HeldMarks(good, us)[w]);
  }

  lemma {:induction false} NonNegative(xs: seq<int>)
    requires forall i | 0 <= i < |xs| :: xs[i] >= 0
    ensures SumSeq(xs) >= 0
    ensures forall i | 0 <= i < |xs| :: xs[i] <= SumSeq(xs)
  {
    if xs != [] {
      NonNegative(xs[1..]);
      forall i | 0 <= i < |xs| ensures xs[i] <= SumSeq(xs) {
        if i > 0 { assert xs[i] == xs[1..][i - 1]; }
      }
    }
  }

  lemma BusyFacts(ws: seq<Option<nat>>)
    ensures Busy(ws) >= 0
    ensures forall w | 0 <= w < |ws| && ws[w].Some? :: Busy(ws) >= 1
    ensures (exists w: nat :: w < |ws| && ws[w].Some?) <==> Busy(ws) > 0
  {
    NonNegative(BusyMarks(ws));
    forall w | 0 <= w < |ws| && ws[w].Some? ensures Busy(ws) >= 1 { assert BusyMarks(ws)[w] == 1; }
    if forall w: nat | w < |ws| :: ws[w].None? {
      AllZero(BusyMarks(ws));
    }
  }

  lemma {:induction false} AllZero(xs: seq<int>)
    requires forall i | 0 <= i < |xs| :: xs[i] == 0
    ensures SumSeq(xs) == 0
  {
    if xs != [] { AllZero(xs[1..]); }
  }

  lemma BadAheadSign(p: Pool)
    ensures BadQueued(p.good, p.queue) >= 0 && BadHeld(p.good, p.workers) >= 0 && BadResults(p.results) >= 0
  {
    NonNegative(QueueMarks(p.good, p.queue));
    NonNegative(HeldMarks(p.good, p.workers));
    NonNegative(ResultMarks(p.results));
  }

  lemma {:induction false} NoneBad(rs: seq<bool>)
    ensures BadResults(rs) >= 0
    ensures BadResults(rs) == 0 <==> forall i | 0 <= i < |rs| :: rs[i]
  {
    if rs != [] {
      BadResultsFirst(rs);
      NoneBad(rs[1..]);
      assert forall i | 0 < i < |rs| :: rs[i] == rs[1..][i - 1];
    }
  }

  lemma InitialInv(p: Pool)
    requires Initial(p)
    ensures Inv(p)
  {
    AllZero(BusyMarks(p.workers));
    AllZero(HeldMarks(p.good, p.workers));
  }

  // ---- Every step keeps the books ----

  lemma CallerKeeps(p: Pool, p': Pool)
    requires Inv(p) && CallerStep(p, p')
    ensures Inv(p')
  {
    hide BadResults, BadQueued, BadHeld, Busy, SumSeq;
    BusyFacts(p.workers);
    BadAheadSign(p);
    match p.caller
    case Sending =>
      if p.next < |p.good| {
        BadQueuedLast(p.good, p.queue, p.next);
        assert p.good[..p.next + 1] == p.good[..p.next] + [p.good[p.next]];
        BadResultsLast(p.good[..p.next], p.good[p.next]);
      }
    case Peeking =>
      if p.results != [] { BadResultsFirst(p.results); }
    case PuttingBack(r) =>
      BadResultsLast(p.results, r);
      NoneBad(p.results);
    case Draining(j, ok) =>
      BadResultsFirst(p.results);
      NoneBad(p.results[1..]);
  }

  lemma WorkerKeeps(p: Pool, m: Move, p': Pool)
    requires Inv(p) && Step(p, m, p') && !m.CallerMove?
    ensures Inv(p')
  {
    hide BadResults, BadQueued, BadHeld, Busy, SumSeq;
    if m.TakeMove? {
      BadQueuedFirst(p.good, p.queue);
      assert p.queue == [p.queue[0]] + p.queue[1..] && p.queue[0] in p.queue;
      WorkerSet(p.good, p.workers, m.w, Some(p.queue[0]));
      forall i | i in p'.queue ensures i < p'.next { assert i in p.queue; }
    } else {
      BadResultsLast(p.results, p.good[p.workers[m.w].value]);
      WorkerSet(p.good, p.workers, m.w, None);
    }
  }

  lemma {:induction false} InvOnRuns(states: seq<Pool>, moves: seq<Move>, k: nat)
    requires IsRun(states, moves) && k < |states|
    ensures Inv(states[k]) && states[k].good == states[0].good
    decreases k
  {
    hide Inv;
    if k == 0 {
      InitialInv(states[0]);
    } else {
      InvOnRuns(states, moves, k - 1);
      if moves[k - 1].CallerMove? {
        CallerKeeps(states[k - 1], states[k]);
      } else {
        WorkerKeeps(states[k - 1], moves[k - 1], states[k]);
      }
    }
  }

  // Under every interleaving: votes are conserved, neither putting a result back nor a
  // worker's send ever finds the result channel full, and once the caller has returned
  // and closed it no worker holds anything to send.
  lemma NothingBlocks(states: seq<Pool>, moves: seq<Move>, k: nat)
    requires IsRun(states, moves) && k < |states|
    ensures var p := states[k];
      && |p.queue| + Busy(p.workers) + |p.results| + InHand(p.caller) + Drained(p) == p.next <= |p.good|
      && (p.caller.PuttingBack? ==> |p.results| < |p.good|)
      && (forall w: nat | w < |p.workers| && p.workers[w].Some? :: Holds(p, w) && |p.results| < |p.good| && !p.caller.Returned?)
      && (p.caller.Returned? ==> p.queue == [] && p.results == [] && forall w: nat | w < |p.workers| :: p.workers[w].None?)
  {
    InvOnRuns(states, moves, k);
    BusyFacts(states[k].workers);
  }

  // The answer, whenever there is one, is whether every vote verifies, early break
  // included.
  lemma AnswerIsRight(states: seq<Pool>, moves: seq<Move>, k: nat)
    requires IsRun(states, moves) && k < |states| && states[k].caller.Returned?
    ensures states[k].caller.ok <==> forall i | 0 <= i < |states[0].good| :: states[0].good[i]
  {
    InvOnRuns(states, moves, k);
    var p := states[k];
    BusyFacts(p.workers);
    AllZero(HeldMarks(p.good, p.workers));
    assert BadAhead(p) == 0;
    NoneBad(p.good[..p.next]);
    if p.next == |p.good| { assert p.good[..p.next] == p.good; }
  }

  // ---- Every run ends ----

  function Left(c: Caller, p: Pool): int {
    match c
    case Sending => |p.good| + 1
    case Peeking => |p.good| + 3
    case PuttingBack(_) => |p.good| + 2
    case Draining(j, _) => p.next - j
    case Returned(_) => 0
  }

  function Measure(p: Pool): int {
    5 * (|p.good| - p.next) + 2 * |p.queue| + Busy(p.workers) + Left(p.caller, p)
  }

  lemma StepsShrink(p: Pool, m: Move, p': Pool)
    requires Inv(p) && Step(p, m, p')
    ensures Measure(p') < Measure(p)
  {
    hide BadResults, BadQueued, BadHeld, Busy, SumSeq;
    if m.TakeMove? {
      WorkerSet(p.good, p.workers, m.w, Some(p.queue[0]));
    } else if m.GiveMove? {
      WorkerSet(p.good, p.workers, m.w, None);
    }
  }

  lemma {:induction false} RunsAreShort(states: seq<Pool>, moves: seq<Move>, k: nat)
    requires IsRun(states, moves) && k < |states|
    ensures k + Measure(states[k]) <= 6 * |states[0].good| + 1
    decreases k
  {
    if k == 0 {
      InitialInv(states[0]);
    } else {
      hide Measure, Inv;
      RunsAreShort(states, moves, k - 1);
      InvOnRuns(states, moves, k - 1);
      StepsShrink(states[k - 1], moves[k - 1], states[k]);
    }
  }

  // The next step somebody can take.
  ghost function NextMove(p: Pool): Move {
    if exists w: nat :: w < |p.workers| && p.workers[w].Some? then
      var w: nat :| w < |p.workers| && p.workers[w].Some?;
      GiveMove(w)
    else if p.queue != [] then TakeMove(0)
    else CallerMove
  }

  lemma SomebodyMoves(p: Pool) returns (p': Pool)
    requires Inv(p) && !p.caller.Returned? && p.good != []
    ensures Step(p, NextMove(p), p')
  {
    hide BadResults, BadQueued, BadHeld, Busy, SumSeq;
    BusyFacts(p.workers);
    match NextMove(p)
    case GiveMove(w) =>
      p' := p.(results := p.results + [p.good[p.workers[w].value]], workers := p.workers[w := None]);
    case TakeMove(w) =>
      p' := p.(queue := p.queue[1..], workers := p.workers[w := Some(p.queue[0])]);
    case CallerMove =>
      match p.caller
      case Sending =>
        p' := if p.next == |p.good| then p.(caller := Draining(0, true))
              else p.(queue := p.queue + [p.next], next := p.next + 1, caller := Peeking);
      case Peeking =>
        p' := if p.results == [] then p.(caller := Sending)
              else p.(results := p.results[1..], caller := PuttingBack(p.results[0]));
      case PuttingBack(r) =>
        p' := p.(results := p.results + [r], caller := if r then Sending else Draining(0, true));
      case Draining(j, ok) =>
        var ok' := ok && p.results[0];
        p' := p.(results := p.results[1..], caller := if p.next == j + 1 then Returned(ok') else Draining(j + 1, ok'));
  }

  // For a non-empty list every run can be continued until the caller returns, after at
  // most 6 steps a vote and one more; so every run that stops has the right answer.
  lemma AlwaysAnswers(states: seq<Pool>, moves: seq<Move>)
    requires IsRun(states, moves) && states[0].good != []
    ensures |moves| <= 6 * |states[0].good| + 1
    ensures (forall m, p' :: !Step(states[|moves|], m, p')) ==>
      states[|moves|].caller == Returned(forall i | 0 <= i < |states[0].good| :: states[0].good[i])
  {
    var k := |moves|;
    var p := states[k];
    InvOnRuns(states, moves, k);
    RunsAreShort(states, moves, k);
    MeasureSign(p);
    if !p.caller.Returned? {
      var p' := SomebodyMoves(p);
    } else {
      AnswerIsRight(states, moves, k);
    }
  }

  lemma MeasureSign(p: Pool)
    requires Inv(p)
    ensures Measure(p) >= 0
  {
    BusyFacts(p.workers);
  }

  // With no votes the caller waits for a result that never comes.
  lemma {:induction false} EmptyListHangs(states: seq<Pool>, moves: seq<Move>, k: nat)
    requires IsRun(states, moves) && k < |states| && states[0].good == []
    ensures !states[k].caller.Returned?
    ensures k > 0 ==> states[k].caller == Draining(0, true) && forall m, p' :: !Step(states[k], m, p')
    decreases k
  {
    InvOnRuns(states, moves, k);
    BusyFacts(states[k].workers);
    if k > 0 {
      EmptyListHangs(states, moves, k - 1);
      InvOnRuns(states, moves, k - 1);
      BusyFacts(states[k - 1].workers);
      assert Step(states[k - 1], moves[k - 1], states[k]);
    }
  }
}
