// The pipeline a node drives on each new block: draw ten blocks ahead, vote for the
// committee five ahead, freeze it two ahead, and drop old heights
// (plugin/consensus/pos33/node.go:113-132, 410-416, 630-658, 942-953, 1376-1400).
module Pipeline {
  import opened Params

  const FIRST_VOTES := 5
  const KEEP := 20

  // Round-0 steps at a height: draw, vote for the committee, freeze it, make a pre-block.
  datatype Event = Sort(h: int) | Vote(h: int) | Freeze(h: int) | PreMake(h: int)

  function Sorts(n: nat): (r: seq<Event>)
    ensures |r| == n
  {
    seq(n, i => Sort(i))
  }

  function Votes(n: nat): (r: seq<Event>)
    ensures |r| == n
  {
    seq(n, i => Vote(i))
  }

  // What handling block b starts, in order.
  function EventsOf(b: nat): seq<Event> {
    (if b == 0 then Sorts(SORT_BLOCKS + 1) + Votes(FIRST_VOTES) else [Sort(b + SORT_BLOCKS)]) + Steady(b)
  }

  function Steady(b: nat): seq<Event> {
    [Vote(b + SORT_BLOCKS / 2), Freeze(b + 2), PreMake(b + 2)]
  }

  function Drawing(lo: nat, hi: nat, draws: nat -> bool): set<nat> {
    set h: nat | lo <= h < hi && draws(h)
  }

  function Below(n: nat): (r: set<nat>)
    ensures forall h: nat :: h in r <==> h < n
  {
    if n == 0 then {} else Below(n - 1) + {n - 1}
  }

  function From(s: set<nat>, lo: int): set<nat> {
    set h: nat | h in s && h >= lo
  }

  // The heights with a committee after block b: a draw that wins nothing opens none.
  function TableAfter(mmp: set<nat>, b: nat, draws: nat -> bool): set<nat> {
    var started := if b == 0 then Drawing(0, SORT_BLOCKS + 1, draws) + Below(FIRST_VOTES)
                  else Drawing(b + SORT_BLOCKS, b + SORT_BLOCKS + 1, draws);
    From(mmp + started + {b + SORT_BLOCKS / 2, b + 2}, b - KEEP)
  }

  class Loop {
    // Whether this node wins anything when it draws for a height.
    const draws: nat -> bool
    var log: seq<Event>
    var mmp: set<nat>

    constructor (draws: nat -> bool)
      ensures log == [] && mmp == {} && this.draws == draws
    {
      this.draws := draws;
      log, mmp := [], {};
    }

    // Called by every handler and timer, for whatever height a message or timer names.
    method GetCommittee(h: nat)
      modifies this`mmp
      ensures mmp == old(mmp) + {h}
    {
      if h !in mmp { mmp := mmp + {h}; }
    }

    method SortCommittee(h: nat)
      modifies this
      ensures log == old(log) + [Sort(h)] && mmp == old(mmp) + if draws(h) then {h} else {}
    {
      log := log + [Sort(h)];
      if !draws(h) { return; }
      GetCommittee(h);
    }

    method VoteCommittee(h: nat)
      modifies this
      ensures log == old(log) + [Vote(h)] && mmp == old(mmp) + {h}
    {
      log := log + [Vote(h)];
      GetCommittee(h);
    }

    method SetCommittee(h: nat)
      modifies this
      ensures log == old(log) + [Freeze(h)] && mmp == old(mmp) + {h}
    {
      log := log + [Freeze(h)];
      GetCommittee(h);
    }

    method MakePreBlock(h: nat)
      modifies this
      ensures log == old(log) + [PreMake(h)] && mmp == old(mmp) + {h}
    {
      log := log + [PreMake(h)];
      GetCommittee(h);
    }

    method FirstSortition()
      modifies this
      ensures log == old(log) + Sorts(SORT_BLOCKS + 1)
      ensures mmp == old(mmp) + Drawing(0, SORT_BLOCKS + 1, draws)
    {
      var i := 0;
      while i <= SORT_BLOCKS
        invariant 0 <= i <= SORT_BLOCKS + 1
        invariant log == old(log) + Sorts(i) && mmp == old(mmp) + Drawing(0, i, draws)
      {
        SortCommittee(i);
        assert Sorts(i + 1) == Sorts(i) + [Sort(i)];
        i := i + 1;
      }
    }

    // clear, whatever order the map is traversed in
    method Clear(height: int)
      modifies this`mmp
      ensures mmp == From(old(mmp), height - KEEP)
    {
      var todo := mmp;
      while todo != {}
        invariant todo <= mmp <= old(mmp)
        invariant forall h: nat | h in old(mmp) && h !in todo :: h in mmp <==> h >= height - KEEP
        decreases |todo|
      {
        var h :| h in todo;
        todo := todo - {h};
        if h < height - KEEP { mmp := mmp - {h}; }
      }
    }

    method StartSteady(b: nat)
      modifies this
      ensures log == old(log) + Steady(b)
      ensures mmp == old(mmp) + {b + SORT_BLOCKS / 2, b + 2}
    {
      VoteCommittee(b + SORT_BLOCKS / 2);
      SetCommittee(b + 2);
      MakePreBlock(b + 2);
    }

    method FirstBlock()
      modifies this
      ensures log == old(log) + Sorts(SORT_BLOCKS + 1) + Votes(FIRST_VOTES)
      ensures mmp == old(mmp) + Drawing(0, SORT_BLOCKS + 1, draws) + Below(FIRST_VOTES)
    {
      FirstSortition();
      var i := 0;
      while i < FIRST_VOTES
        invariant 0 <= i <= FIRST_VOTES
        invariant log == old(log) + Sorts(SORT_BLOCKS + 1) + Votes(i)
        invariant mmp == old(mmp) + Drawing(0, SORT_BLOCKS + 1, draws) + Below(i)
      {
        VoteCommittee(i);
        assert Votes(i + 1) == Votes(i) + [Vote(i)];
        i := i + 1;
      }
    }

    method HandleNewBlock(b: nat)
      modifies this
      ensures log == old(log) + EventsOf(b)
      ensures mmp == TableAfter(old(mmp), b, draws)
    {
      if b == 0 {
        FirstBlock();
      } else {
        SortCommittee(b + SORT_BLOCKS);
      }
      StartSteady(b);
      Clear(b);
    }
  }

  // ---- After the blocks 0..b, in order ----

  function LogAfter(b: nat): seq<Event> {
    if b == 0 then EventsOf(0) else LogAfter(b - 1) + EventsOf(b)
  }

  // named(j) are the heights that messages and timers open between blocks j - 1 and j.
  function TableRun(b: nat, draws: nat -> bool, named: nat -> set<nat>): set<nat> {
    TableAfter((if b == 0 then {} else TableRun(b - 1, draws, named)) + named(b), b, draws)
  }

  function Times(es: seq<Event>, e: Event): nat { multiset(es)[e] }

  function Once(c: bool): nat { if c then 1 else 0 }

  lemma TimesConcat(xs: seq<Event>, ys: seq<Event>, e: Event)
    ensures Times(xs + ys, e) == Times(xs, e) + Times(ys, e)
  {
  }

  lemma {:induction false} FirstTimes(n: nat, h: int)
    ensures Times(Sorts(n), Sort(h)) == Once(0 <= h < n) && Times(Votes(n), Vote(h)) == Once(0 <= h < n)
  {
    if n > 0 {
      FirstTimes(n - 1, h);
      assert Sorts(n) == Sorts(n - 1) + [Sort(n - 1)] && Votes(n) == Votes(n - 1) + [Vote(n - 1)];
    }
  }

  lemma NoMix(n: nat, h: int)
    ensures Times(Sorts(n), Vote(h)) == Times(Votes(n), Sort(h)) == 0
    ensures Times(Sorts(n), Freeze(h)) == Times(Votes(n), Freeze(h)) == 0
    ensures Times(Sorts(n), PreMake(h)) == Times(Votes(n), PreMake(h)) == 0
  {
    assert Vote(h) !in Sorts(n) && Sort(h) !in Votes(n) && Freeze(h) !in Sorts(n) && Freeze(h) !in Votes(n);
    assert PreMake(h) !in Sorts(n) && PreMake(h) !in Votes(n);
  }

  lemma SteadyTimes(b: nat, h: int)
    ensures Times(Steady(b), Sort(h)) == 0
    ensures Times(Steady(b), Vote(h)) == Once(h == b + SORT_BLOCKS / 2)
    ensures Times(Steady(b), Freeze(h)) == Times(Steady(b), PreMake(h)) == Once(h == b + 2)
  {
  }

  lemma OneSort(b: int, h: int)
    ensures Times([Sort(b)], Sort(h)) == Once(h == b) && Times([Sort(b)], Vote(h)) == Times([Sort(b)], Freeze(h)) == Times([Sort(b)], PreMake(h)) == 0
  {
  }

  lemma BlockTimes(b: nat, h: int)
    ensures Times(EventsOf(b), Sort(h)) == Once(if b == 0 then 0 <= h <= SORT_BLOCKS else h == b + SORT_BLOCKS)
    ensures Times(EventsOf(b), Vote(h)) == Once(if b == 0 then 0 <= h <= SORT_BLOCKS / 2 else h == b + SORT_BLOCKS / 2)
    ensures Times(EventsOf(b), Freeze(h)) == Times(EventsOf(b), PreMake(h)) == Once(h == b + 2)
  {
    hide Times, Steady, Sorts, Votes;
    SteadyTimes(b, h);
    if b == 0 {
      var xs, ys := Sorts(SORT_BLOCKS + 1), Votes(FIRST_VOTES);
      FirstTimes(SORT_BLOCKS + 1, h);
      FirstTimes(FIRST_VOTES, h);
      NoMix(SORT_BLOCKS + 1, h);
      NoMix(FIRST_VOTES, h);
      forall e ensures Times(EventsOf(0), e) == Times(xs, e) + Times(ys, e) + Times(Steady(0), e) {
        TimesConcat(xs, ys, e);
        TimesConcat(xs + ys, Steady(0), e);
      }
    } else {
      OneSort(b + SORT_BLOCKS, h);
      forall e ensures Times(EventsOf(b), e) == Times([Sort(b + SORT_BLOCKS)], e) + Times(Steady(b), e) {
        TimesConcat([Sort(b + SORT_BLOCKS)], Steady(b), e);
      }
    }
  }

  // Each height up to b + 10 has been drawn for exactly once, each up to b + 5 voted on
  // exactly once, each of 2..b + 2 frozen and pre-made for exactly once, and no other height.
  lemma {:induction false} EachOnce(b: nat, h: int)
    ensures Times(LogAfter(b), Sort(h)) == Once(0 <= h <= b + SORT_BLOCKS)
    ensures Times(LogAfter(b), Vote(h)) == Once(0 <= h <= b + SORT_BLOCKS / 2)
    ensures Times(LogAfter(b), Freeze(h)) == Times(LogAfter(b), PreMake(h)) == Once(2 <= h <= b + 2)
  {
    hide EventsOf, Times;
    BlockTimes(b, h);
    if b > 0 {
      EachOnce(b - 1, h);
      forall e ensures Times(LogAfter(b), e) == Times(LogAfter(b - 1), e) + Times(EventsOf(b), e) {
        TimesConcat(LogAfter(b - 1), EventsOf(b), e);
      }
    }
  }

  // Whenever f happens, e has happened before.
  ghost predicate Precedes(es: seq<Event>, e: Event, f: Event) {
    forall k | 0 <= k < |es| && es[k] == f :: e in es[..k]
  }

  lemma PrecedesLater(xs: seq<Event>, ys: seq<Event>, e: Event, f: Event)
    requires Precedes(xs, e, f) && (e in xs || Precedes(ys, e, f))
    ensures Precedes(xs + ys, e, f)
  {
    var es := xs + ys;
    forall k | 0 <= k < |es| && es[k] == f ensures e in es[..k] {
      if k < |xs| {
        assert es[..k] == xs[..k];
      } else {
        assert es[..k] == xs + ys[..k - |xs|];
      }
    }
  }

  lemma FirstBlockOrder(h: int)
    ensures Precedes(EventsOf(0), Sort(h), Vote(h)) && Precedes(EventsOf(0), Vote(h), Freeze(h))
  {
    var es := EventsOf(0);
    forall k | 0 <= k < |es| && es[k] == Vote(h) ensures Sort(h) in es[..k] {
      assert 0 <= h <= SORT_BLOCKS && es[..k][h] == Sort(h);
    }
    forall k | 0 <= k < |es| && es[k] == Freeze(h) ensures Vote(h) in es[..k] {
      assert es[..k][SORT_BLOCKS + 1 + h] == Vote(h);
    }
  }

  lemma Happened(es: seq<Event>, e: Event)
    ensures e in es <==> Times(es, e) > 0
  {
  }

  lemma AbsentPrecedes(es: seq<Event>, e: Event, f: Event)
    requires f !in es
    ensures Precedes(es, e, f)
  {
  }

  lemma LogNext(b: nat)
    ensures LogAfter(b) == if b == 0 then EventsOf(0) else LogAfter(b - 1) + EventsOf(b)
  {
  }

  lemma OrderExtended(log: seq<Event>, es: seq<Event>, e: Event, f: Event)
    requires Precedes(log, e, f) && (Times(log, e) > 0 || Times(es, f) == 0)
    ensures Precedes(log + es, e, f)
  {
    Happened(log, e);
    Happened(es, f);
    hide Precedes, Times;
    if f !in es { AbsentPrecedes(es, e, f); }
    PrecedesLater(log, es, e, f);
  }

  // A block freezes a height before it makes a pre-block there.
  lemma FrozenFirst(b: nat, h: int)
    ensures Precedes(EventsOf(b), Freeze(h), PreMake(h))
  {
    var es := EventsOf(b);
    forall k | 0 <= k < |es| && es[k] == PreMake(h) ensures Freeze(h) in es[..k] {
      assert k == |es| - 1 && es[..k][k - 1] == Freeze(h);
    }
  }

  // Every height is drawn for, then voted on, then frozen, then pre-made for.
  lemma {:induction false} InOrder(b: nat, h: int)
    ensures Precedes(LogAfter(b), Sort(h), Vote(h)) && Precedes(LogAfter(b), Vote(h), Freeze(h)) && Precedes(LogAfter(b), Freeze(h), PreMake(h))
  {
    hide *;
    LogNext(b);
    FrozenFirst(b, h);
    if b == 0 {
      FirstBlockOrder(h);
    } else {
      InOrder(b - 1, h);
      Enough(b, h);
      OrderExtended(LogAfter(b - 1), EventsOf(b), Sort(h), Vote(h));
      OrderExtended(LogAfter(b - 1), EventsOf(b), Vote(h), Freeze(h));
      PrecedesLater(LogAfter(b - 1), EventsOf(b), Freeze(h), PreMake(h));
    }
  }

  // A block votes only on a height drawn for before it, and freezes only one voted on.
  lemma Enough(b: nat, h: int)
    requires b > 0
    ensures Times(LogAfter(b - 1), Sort(h)) > 0 || Times(EventsOf(b), Vote(h)) == 0
    ensures Times(LogAfter(b - 1), Vote(h)) > 0 || Times(EventsOf(b), Freeze(h)) == 0
  {
    hide LogAfter, EventsOf, Times;
    EachOnce(b - 1, h);
    BlockTimes(b, h);
  }

  ghost predicate NamedBy(b: nat, named: nat -> set<nat>, h: nat) {
    exists j: nat :: j <= b && h in named(j)
  }

  // clear never drops a height that is still ahead, and nothing else is kept: after block b
  // the heights with a committee are those from b - 20 on that are at most b + 5, or at most
  // b + 10 and this node has drawn a sort there, or that a message or timer has ever named.
  lemma {:induction false} HeightsKept(b: nat, draws: nat -> bool, named: nat -> set<nat>, h: nat)
    ensures h in TableRun(b, draws, named) <==>
      b - KEEP <= h && (h <= b + SORT_BLOCKS / 2 || (h <= b + SORT_BLOCKS && draws(h)) || NamedBy(b, named, h))
  {
    hide TableRun, TableAfter, NamedBy;
    var before := if b == 0 then {} else TableRun(b - 1, draws, named);
    if b > 0 { HeightsKept(b - 1, draws, named, h); }
    NamedNext(b, named, h);
    TableStep(before + named(b), b, draws, h);
    TableRunIs(b, draws, named);
  }

  lemma NamedNext(b: nat, named: nat -> set<nat>, h: nat)
    ensures NamedBy(b, named, h) <==> (b > 0 && NamedBy(b - 1, named, h)) || h in named(b)
  {
    if b > 0 && NamedBy(b - 1, named, h) {
      var j: nat :| j <= b - 1 && h in named(j);
      assert j <= b;
    }
  }

  lemma TableRunIs(b: nat, draws: nat -> bool, named: nat -> set<nat>)
    ensures TableRun(b, draws, named) == TableAfter((if b == 0 then {} else TableRun(b - 1, draws, named)) + named(b), b, draws)
  {
  }

  lemma TableStep(mmp: set<nat>, b: nat, draws: nat -> bool, h: nat)
    ensures h in TableAfter(mmp, b, draws) <==>
      (&& h >= b - KEEP
       && (h in mmp || h == b + SORT_BLOCKS / 2 || h == b + 2
           || (if b == 0 then h < FIRST_VOTES || (h <= SORT_BLOCKS && draws(h)) else h == b + SORT_BLOCKS && draws(h))))
  {
  }
}
