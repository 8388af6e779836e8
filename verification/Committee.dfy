// The committee of one height and round: committee votes, the frozen committee and its
// candidates (plugin/consensus/pos33/node.go:25-156, 907-973).
module Committee {
  import opened Order
  import opened Params
  import opened Messages

  // Every sort is filed under its own hash (handleVoterSort).
  ghost predicate Keyed(css: map<Hash, SortMsg>) {
    forall h | h in css :: css[h].hash == h
  }

  function Hashes(ss: seq<SortMsg>): (r: seq<Hash>)
    ensures |r| == |ss|
  {
    seq(|ss|, i requires 0 <= i < |ss| => ss[i].hash)
  }

  function Pick(css: map<Hash, SortMsg>, hs: seq<Hash>): (r: seq<SortMsg>)
    requires forall h | h in hs :: h in css
    ensures |r| == |hs| && forall i | 0 <= i < |hs| :: r[i] == css[hs[i]]
  {
    seq(|hs|, i requires 0 <= i < |hs| => css[hs[i]])
  }

  function Take<T>(xs: seq<T>, n: nat): seq<T> {
    if |xs| > n then xs[..n] else xs
  }

  // The n sorts with the smallest hashes.
  ghost function Smallest(css: map<Hash, SortMsg>, n: nat): seq<SortMsg> {
    var hs := Ascending(css.Keys);
    AscendingIn(css.Keys);
    Take(Pick(css, hs), n)
  }

  lemma AscendingIn(s: set<Hash>)
    ensures forall h :: h in Ascending(s) <==> h in s
  {
    assert forall h :: h in Elements(Ascending(s)) <==> h in s;
  }

  function Mine(ss: seq<SortMsg>, addrOf: PubKey -> Addr, me: Addr): seq<SortMsg> {
    if ss == [] then []
    else if addrOf(ss[0].proof.pubkey) == me then [ss[0]] + Mine(ss[1..], addrOf, me)
    else Mine(ss[1..], addrOf, me)
  }

  // ---- Counting committee votes ----

  function WeightIn(svmp: map<Hash, nat>, h: Hash): nat {
    if h in svmp then svmp[h] else 0
  }

  // handleCommittee's last loop: every selected hash gains the voter's weight.
  function Counted(svmp: map<Hash, nat>, select: seq<Hash>, weight: nat): map<Hash, nat>
    decreases |select|
  {
    if select == [] then svmp else
      var p, h := Counted(svmp, select[..|select| - 1], weight), select[|select| - 1];
      p[h := WeightIn(p, h) + weight]
  }

  function CountedAll(svmp: map<Hash, nat>, ms: seq<SortsVote>): map<Hash, nat>
    decreases |ms|
  {
    if ms == [] then svmp
    else Counted(CountedAll(svmp, ms[..|ms| - 1]), ms[|ms| - 1].selectSorts, |ms[|ms| - 1].mySorts|)
  }

  function Occurrences(hs: seq<Hash>, h: Hash): nat {
    multiset(hs)[h]
  }

  function SelectionsOf(m: SortsVote, h: Hash): nat {
    |m.mySorts| * Occurrences(m.selectSorts, h)
  }

  function WeightFor(ms: seq<SortsVote>, h: Hash): nat
    decreases |ms|
  {
    if ms == [] then 0 else WeightFor(ms[..|ms| - 1], h) + SelectionsOf(ms[|ms| - 1], h)
  }

  ghost predicate SelectedBy(ms: seq<SortsVote>, h: Hash) {
    exists m | m in ms :: h in m.selectSorts
  }

  lemma {:induction false} CountedIs(svmp: map<Hash, nat>, select: seq<Hash>, weight: nat, h: Hash)
    ensures h in Counted(svmp, select, weight) <==> h in svmp || h in select
    ensures WeightIn(Counted(svmp, select, weight), h) == WeightIn(svmp, h) + weight * Occurrences(select, h)
    decreases |select|
  {
    if select != [] {
      var init, last := select[..|select| - 1], select[|select| - 1];
      assert select == init + [last];
      hide Occurrences;
      CountedIs(svmp, init, weight, h);
      OccursLast(init, last, h);
      OneMore(weight, Occurrences(init, h));
    }
  }

  lemma OccursLast(init: seq<Hash>, last: Hash, h: Hash)
    ensures Occurrences(init + [last], h) == Occurrences(init, h) + if h == last then 1 else 0
    ensures h in init + [last] <==> h in init || h == last
  {
  }

  lemma OneMore(w: nat, n: nat)
    ensures w * (n + 1) == w * n + w
  {
  }

  // The count of a hash is the total weight of the votes that select it.
  lemma {:induction false} CountedAllIs(svmp: map<Hash, nat>, ms: seq<SortsVote>, h: Hash)
    ensures h in CountedAll(svmp, ms) <==> h in svmp || SelectedBy(ms, h)
    ensures WeightIn(CountedAll(svmp, ms), h) == WeightIn(svmp, h) + WeightFor(ms, h)
    decreases |ms|
  {
    if ms != [] {
      var init, last := ms[..|ms| - 1], ms[|ms| - 1];
      assert ms == init + [last];
      CountedAllIs(svmp, init, h);
      CountedIs(CountedAll(svmp, init), last.selectSorts, |last.mySorts|, h);
    }
  }

  lemma {:induction false} WeightForRemove(ms: seq<SortsVote>, i: nat, h: Hash)
    requires i < |ms|
    ensures WeightFor(ms, h) == WeightFor(ms[..i] + ms[i + 1..], h) + SelectionsOf(ms[i], h)
    decreases |ms|
  {
    hide SelectionsOf;
    var k := |ms| - 1;
    var rest := ms[..i] + ms[i + 1..];
    if i == k {
      assert rest == ms[..k];
    } else {
      WeightForRemove(ms[..k], i, h);
      assert rest[..|rest| - 1] == ms[..k][..i] + ms[..k][i + 1..];
      assert rest[|rest| - 1] == ms[k];
    }
  }

  lemma {:induction false} WeightForPermutes(ms: seq<SortsVote>, ns: seq<SortsVote>, h: Hash)
    requires multiset(ms) == multiset(ns)
    ensures WeightFor(ms, h) == WeightFor(ns, h)
    decreases |ms|
  {
    hide SelectionsOf;
    assert |multiset(ms)| == |ms| && |multiset(ns)| == |ns|;
    if ms != [] {
      var k := |ms| - 1;
      assert ms[k] in multiset(ns);
      var i :| 0 <= i < |ns| && ns[i] == ms[k];
      WithoutOne(ms, k);
      WithoutOne(ns, i);
      assert ms[..k] + ms[k + 1..] == ms[..k];
      WeightForPermutes(ms[..k], ns[..i] + ns[i + 1..], h);
      WeightForRemove(ns, i, h);
    }
  }

  lemma WithoutOne(ms: seq<SortsVote>, i: nat)
    requires i < |ms|
    ensures multiset(ms[..i] + ms[i + 1..]) == multiset(ms) - multiset{ms[i]}
  {
    assert ms == ms[..i] + [ms[i]] + ms[i + 1..];
  }

  // Delivering the same votes in any order gives the same counts.
  lemma CountsIgnoreOrder(svmp: map<Hash, nat>, ms: seq<SortsVote>, ns: seq<SortsVote>)
    requires multiset(ms) == multiset(ns)
    ensures CountedAll(svmp, ms) == CountedAll(svmp, ns)
  {
    var a, b := CountedAll(svmp, ms), CountedAll(svmp, ns);
    forall h ensures (h in a <==> h in b) && WeightIn(a, h) == WeightIn(b, h) {
      CountedAllIs(svmp, ms, h);
      CountedAllIs(svmp, ns, h);
      WeightForPermutes(ms, ns, h);
      assert forall m :: m in ms <==> m in multiset(ms);
      assert forall m :: m in ns <==> m in multiset(ns);
    }
    assert forall h | h in a :: a[h] == WeightIn(a, h);
    assert forall h | h in b :: b[h] == WeightIn(b, h);
    assert a.Keys == b.Keys;
  }

  // ---- Freezing the committee ----

  function WithMustVotes(ss: seq<SortMsg>, svmp: map<Hash, nat>): seq<SortMsg> {
    if ss == [] then []
    else if WeightIn(svmp, ss[0].hash) >= MUST_VOTES then [ss[0]] + WithMustVotes(ss[1..], svmp)
    else WithMustVotes(ss[1..], svmp)
  }

  // The sorts that have any committee vote, smallest hash first, at most 75 of them.
  ghost function Contenders(css: map<Hash, SortMsg>, svmp: map<Hash, nat>): seq<SortMsg> {
    AscendingIn(svmp.Keys * css.Keys);
    Take(Pick(css, Ascending(svmp.Keys * css.Keys)), COMMITTEE_SIZE)
  }

  ghost function CommOf(css: map<Hash, SortMsg>, svmp: map<Hash, nat>): seq<SortMsg> {
    WithMustVotes(Contenders(css, svmp), svmp)
  }

  // The candidate loop from member i on, having seen some addresses: repeated addresses
  // are skipped, and the loop stops after position 2 unless that position is skipped.
  function CandidatesFrom(comm: seq<SortMsg>, i: nat, seen: set<Addr>, addrOf: PubKey -> Addr): seq<Hash>
    requires i <= |comm|
    decreases |comm| - i
  {
    if i == |comm| then [] else
      var a := addrOf(comm[i].proof.pubkey);
      if a in seen then CandidatesFrom(comm, i + 1, seen, addrOf)
      else if i == 2 then [comm[i].hash]
      else [comm[i].hash] + CandidatesFrom(comm, i + 1, seen + {a}, addrOf)
  }

  function CandidatesOf(comm: seq<SortMsg>, addrOf: PubKey -> Addr): seq<Hash> {
    CandidatesFrom(comm, 0, {}, addrOf)
  }

  lemma {:induction false} WithMustVotesProperties(ss: seq<SortMsg>, svmp: map<Hash, nat>)
    requires StrictlySorted(Hashes(ss))
    ensures var r := WithMustVotes(ss, svmp);
      && StrictlySorted(Hashes(r)) && |r| <= |ss|
      && (forall s :: s in r <==> s in ss && WeightIn(svmp, s.hash) >= MUST_VOTES)
  {
    if ss != [] {
      assert StrictlySorted(Hashes(ss[1..])) by {
        forall i, j | 0 <= i < j < |ss[1..]| ensures Hashes(ss[1..])[i] < Hashes(ss[1..])[j] {
          assert Hashes(ss)[i + 1] < Hashes(ss)[j + 1];
        }
      }
      WithMustVotesProperties(ss[1..], svmp);
      assert ss == [ss[0]] + ss[1..];
      var r := WithMustVotes(ss[1..], svmp);
      forall j | 0 <= j < |r| ensures ss[0].hash < r[j].hash {
        assert r[j] in ss[1..];
        var k :| 0 <= k < |ss[1..]| && ss[1..][k] == r[j];
        assert Hashes(ss)[0] < Hashes(ss)[k + 1];
      }
      assert Hashes([ss[0]] + r) == [ss[0].hash] + Hashes(r);
    }
  }

  lemma PickTaken(css: map<Hash, SortMsg>, hs: seq<Hash>, n: nat)
    requires Keyed(css) && StrictlySorted(hs) && forall h | h in hs :: h in css
    ensures var c := Take(Pick(css, hs), n);
      && Hashes(c) == Take(hs, n) && StrictlySorted(Hashes(c)) && |c| <= n
      && forall s | s in c :: s.hash in hs && s.hash in css && css[s.hash] == s
  {
    var c := Take(Pick(css, hs), n);
    forall i | 0 <= i < |c| ensures c[i].hash == hs[i] && hs[i] in hs { }
  }

  lemma ContendersSorted(css: map<Hash, SortMsg>, svmp: map<Hash, nat>)
    requires Keyed(css)
    ensures var c := Contenders(css, svmp);
      && StrictlySorted(Hashes(c)) && |c| <= COMMITTEE_SIZE
      && forall s | s in c :: s.hash in svmp && s.hash in css && css[s.hash] == s
  {
    AscendingIn(svmp.Keys * css.Keys);
    PickTaken(css, Ascending(svmp.Keys * css.Keys), COMMITTEE_SIZE);
    hide Ascending, Take, Pick, Hashes;
  }

  // The frozen committee is strictly increasing by hash, has at most 75 members, and each
  // member is a collected sort selected with a weight of at least 17.
  lemma CommProperties(css: map<Hash, SortMsg>, svmp: map<Hash, nat>)
    requires Keyed(css)
    ensures var comm := CommOf(css, svmp);
      && StrictlySorted(Hashes(comm)) && |comm| <= COMMITTEE_SIZE
      && forall s | s in comm :: s.hash in css && css[s.hash] == s && s.hash in svmp && svmp[s.hash] >= MUST_VOTES
  {
    ContendersSorted(css, svmp);
    WithMustVotesProperties(Contenders(css, svmp), svmp);
  }

  // The collected sorts with votes whose hashes are below h.
  ghost function Before(css: map<Hash, SortMsg>, svmp: map<Hash, nat>, h: Hash): set<Hash> {
    set x | x in svmp.Keys * css.Keys && x < h
  }

  // And nobody else is left out: a sort is frozen exactly when it is collected, has weight 17
  // and fewer than 75 collected sorts with votes come before it.
  lemma CommExactly(css: map<Hash, SortMsg>, svmp: map<Hash, nat>, s: SortMsg)
    requires Keyed(css)
    ensures s in CommOf(css, svmp) <==>
      && s.hash in css && css[s.hash] == s && s.hash in svmp && svmp[s.hash] >= MUST_VOTES
      && |Before(css, svmp, s.hash)| < COMMITTEE_SIZE
  {
    InComm(css, svmp, s);
    hide CommOf, Contenders, Keyed, Before;
    if s.hash in svmp && s.hash in css && css[s.hash] == s {
      var i := PlaceOf(css, svmp, s.hash);
      ContendersAt(css, svmp, s, i);
    }
  }

  lemma PlaceOf(css: map<Hash, SortMsg>, svmp: map<Hash, nat>, h: Hash) returns (i: nat)
    requires h in svmp && h in css
    ensures var hs := Ascending(svmp.Keys * css.Keys);
      i < |hs| && hs[i] == h && |Before(css, svmp, h)| == i
  {
    var keys := svmp.Keys * css.Keys;
    var hs := Ascending(keys);
    AscendingIn(keys);
    assert h in hs;
    hide StrictlySorted;
    i :| 0 <= i < |hs| && hs[i] == h;
    Rank(hs, i, keys);
    assert Before(css, svmp, h) == set x | x in keys && x < hs[i];
  }

  lemma InComm(css: map<Hash, SortMsg>, svmp: map<Hash, nat>, s: SortMsg)
    requires Keyed(css)
    ensures s in CommOf(css, svmp) <==> s in Contenders(css, svmp) && WeightIn(svmp, s.hash) >= MUST_VOTES
    ensures s in Contenders(css, svmp) ==> s.hash in svmp && s.hash in css && css[s.hash] == s
  {
    ContendersSorted(css, svmp);
    hide Contenders, WithMustVotes, StrictlySorted, Hashes;
    WithMustVotesProperties(Contenders(css, svmp), svmp);
  }

  lemma ContendersAt(css: map<Hash, SortMsg>, svmp: map<Hash, nat>, s: SortMsg, i: nat)
    requires Keyed(css)
    requires var hs := Ascending(svmp.Keys * css.Keys); i < |hs| && hs[i] == s.hash
    requires s.hash in css && css[s.hash] == s
    ensures s in Contenders(css, svmp) <==> i < COMMITTEE_SIZE
  {
    var hs := Ascending(svmp.Keys * css.Keys);
    AscendingIn(svmp.Keys * css.Keys);
    var all, c := Pick(css, hs), Contenders(css, svmp);
    hide Ascending, Keyed;
    assert all[i] == s;
    if i < COMMITTEE_SIZE { assert c[i] == s; }
    if s in c {
      var j :| 0 <= j < |c| && c[j] == s;
      assert all[j] == css[hs[j]] == s;
      KeyOf(css, hs[j]);
    }
  }

  lemma KeyOf(css: map<Hash, SortMsg>, h: Hash)
    requires Keyed(css) && h in css
    ensures css[h].hash == h
  {
  }

  // A key's place in the listing is the number of smaller keys.
  lemma Rank(hs: seq<Hash>, i: nat, keys: set<Hash>)
    requires StrictlySorted(hs) && i < |hs| && Elements(hs) == keys
    ensures |set x | x in keys && x < hs[i]| == i
  {
    var below := hs[..i];
    forall x ensures x in keys && x < hs[i] <==> x in below { BelowAt(hs, i, x); }
    assert (set x | x in keys && x < hs[i]) == Elements(below);
    SortedUnique(below, Ascending(Elements(below)));
  }

  lemma BelowAt(hs: seq<Hash>, i: nat, x: Hash)
    requires StrictlySorted(hs) && i < |hs|
    ensures x in Elements(hs) && x < hs[i] <==> x in hs[..i]
  {
    if x in hs && x < hs[i] {
      var j :| 0 <= j < |hs| && hs[j] == x;
      assert hs[..i][j] == x;
    }
    if x in hs[..i] {
      var j :| 0 <= j < i && hs[..i][j] == x;
      assert hs[j] == x;
    }
  }

  ghost function AddressesOf(comm: seq<SortMsg>, addrOf: PubKey -> Addr): set<Addr> {
    set s | s in comm :: addrOf(s.proof.pubkey)
  }

  // places[k] is the position in comm of the k-th candidate.
  ghost predicate Places(comm: seq<SortMsg>, cands: seq<Hash>, places: seq<nat>, addrOf: PubKey -> Addr, from: nat, seen: set<Addr>) {
    && |places| == |cands|
    && StrictlySorted(places)
    && (forall k | 0 <= k < |places| :: from <= places[k] < |comm| && comm[places[k]].hash == cands[k]
                                        && addrOf(comm[places[k]].proof.pubkey) !in seen)
    && (forall j, k | 0 <= j < k < |places| ::
         addrOf(comm[places[j]].proof.pubkey) != addrOf(comm[places[k]].proof.pubkey))
  }

  lemma PlacesLater(comm: seq<SortMsg>, cands: seq<Hash>, places: seq<nat>, addrOf: PubKey -> Addr, i: nat, seen: set<Addr>)
    requires Places(comm, cands, places, addrOf, i + 1, seen)
    ensures Places(comm, cands, places, addrOf, i, seen)
  {
  }

  lemma PlaceFirst(comm: seq<SortMsg>, cands: seq<Hash>, rest: seq<nat>, addrOf: PubKey -> Addr, i: nat, seen: set<Addr>)
    requires i < |comm|
    requires var a := addrOf(comm[i].proof.pubkey); a !in seen && Places(comm, cands, rest, addrOf, i + 1, seen + {a})
    ensures Places(comm, [comm[i].hash] + cands, [i] + rest, addrOf, i, seen)
  {
    var a, places := addrOf(comm[i].proof.pubkey), [i] + rest;
    forall k | 0 <= k < |rest| ensures rest[k] > i && addrOf(comm[rest[k]].proof.pubkey) !in seen + {a} { }
    assert forall k | 0 < k < |places| :: places[k] == rest[k - 1];
  }

  lemma NoPlaces(comm: seq<SortMsg>, addrOf: PubKey -> Addr, i: nat, seen: set<Addr>)
    ensures Places(comm, [], [], addrOf, i, seen)
  {
  }

  lemma {:induction false} CandidatesPlaced(comm: seq<SortMsg>, i: nat, seen: set<Addr>, addrOf: PubKey -> Addr) returns (places: seq<nat>)
    requires i <= |comm|
    ensures Places(comm, CandidatesFrom(comm, i, seen, addrOf), places, addrOf, i, seen)
    decreases |comm| - i
  {
    hide Places;
    if i == |comm| {
      NoPlaces(comm, addrOf, i, seen);
      places := [];
    } else {
      var a := addrOf(comm[i].proof.pubkey);
      if a in seen {
        places := CandidatesPlaced(comm, i + 1, seen, addrOf);
        PlacesLater(comm, CandidatesFrom(comm, i + 1, seen, addrOf), places, addrOf, i, seen);
      } else if i == 2 {
        NoPlaces(comm, addrOf, i + 1, seen + {a});
        PlaceFirst(comm, [], [], addrOf, i, seen);
        assert [comm[i].hash] + [] == [comm[i].hash];
        places := [i] + [];
      } else {
        var rest := CandidatesPlaced(comm, i + 1, seen + {a}, addrOf);
        PlaceFirst(comm, CandidatesFrom(comm, i + 1, seen + {a}, addrOf), rest, addrOf, i, seen);
        places := [i] + rest;
      }
    }
  }

  // The candidates are a subsequence of the committee with pairwise distinct addresses.
  lemma CandidateProperties(comm: seq<SortMsg>, addrOf: PubKey -> Addr) returns (places: seq<nat>)
    ensures Places(comm, CandidatesOf(comm, addrOf), places, addrOf, 0, {})
  {
    places := CandidatesPlaced(comm, 0, {}, addrOf);
  }

  lemma AddressesNext(comm: seq<SortMsg>, i: nat, addrOf: PubKey -> Addr)
    requires i < |comm|
    ensures AddressesOf(comm[i..], addrOf) == {addrOf(comm[i].proof.pubkey)} + AddressesOf(comm[i + 1..], addrOf)
  {
    assert comm[i..] == [comm[i]] + comm[i + 1..];
  }

  lemma NextPast(comm: seq<SortMsg>, i: nat, seen: set<Addr>, addrOf: PubKey -> Addr)
    requires 3 <= i < |comm|
    ensures var a := addrOf(comm[i].proof.pubkey);
      |CandidatesFrom(comm, i, seen, addrOf)| == if a in seen then |CandidatesFrom(comm, i + 1, seen, addrOf)| else 1 + |CandidatesFrom(comm, i + 1, seen + {a}, addrOf)|
  {
  }

  lemma NothingLeft(comm: seq<SortMsg>, seen: set<Addr>, addrOf: PubKey -> Addr)
    ensures |CandidatesFrom(comm, |comm|, seen, addrOf)| == |AddressesOf(comm[|comm|..], addrOf) - seen|
  {
    assert AddressesOf(comm[|comm|..], addrOf) - seen == {};
  }

  // Past position 2 nothing stops the loop: it yields every new address.
  lemma {:induction false} TailCount(comm: seq<SortMsg>, i: nat, seen: set<Addr>, addrOf: PubKey -> Addr)
    requires 3 <= i <= |comm|
    ensures |CandidatesFrom(comm, i, seen, addrOf)| == |AddressesOf(comm[i..], addrOf) - seen|
    decreases |comm| - i
  {
    hide *;
    if i == |comm| {
      NothingLeft(comm, seen, addrOf);
    } else {
      var a, rest := addrOf(comm[i].proof.pubkey), AddressesOf(comm[i + 1..], addrOf);
      NextPast(comm, i, seen, addrOf);
      AddressesNext(comm, i, addrOf);
      OneAddress(a, rest, seen);
      TailCount(comm, i + 1, if a in seen then seen else seen + {a}, addrOf);
    }
  }

  lemma OneAddress(a: Addr, rest: set<Addr>, seen: set<Addr>)
    ensures |{a} + rest - seen| == if a in seen then |rest - seen| else 1 + |rest - (seen + {a})|
  {
    if a in seen {
      assert {a} + rest - seen == rest - seen;
    } else {
      assert {a} + rest - seen == {a} + (rest - (seen + {a}));
    }
  }

  // Past position i: comm[k] is a candidate when its address is new, and the loop has not
  // stopped at position 2 before it.
  ghost predicate TakenFrom(comm: seq<SortMsg>, i: nat, seen: set<Addr>, addrOf: PubKey -> Addr, k: nat)
    requires i <= k < |comm|
  {
    && addrOf(comm[k].proof.pubkey) !in seen + AddressesOf(comm[i..k], addrOf)
    && (k <= 2 || i > 2 || addrOf(comm[2].proof.pubkey) in seen + AddressesOf(comm[i..2], addrOf))
  }

  lemma FromLater(comm: seq<SortMsg>, i: nat, seen: set<Addr>, addrOf: PubKey -> Addr, k: nat)
    requires i <= |comm| && k < i && StrictlySorted(Hashes(comm))
    ensures comm[k].hash !in CandidatesFrom(comm, i, seen, addrOf)
  {
    var cands := CandidatesFrom(comm, i, seen, addrOf);
    var places := CandidatesPlaced(comm, i, seen, addrOf);
    forall j | 0 <= j < |cands| ensures cands[j] != comm[k].hash {
      assert comm[places[j]].hash == cands[j];
      assert Hashes(comm)[k] < Hashes(comm)[places[j]];
    }
  }

  lemma OneAddressMore(comm: seq<SortMsg>, i: nat, k: nat, addrOf: PubKey -> Addr)
    requires i < k <= |comm|
    ensures AddressesOf(comm[i..k], addrOf) == {addrOf(comm[i].proof.pubkey)} + AddressesOf(comm[i + 1..k], addrOf)
  {
    assert comm[i..k] == [comm[i]] + comm[i + 1..k];
  }

  lemma {:induction false} CandidatesFromExactly(comm: seq<SortMsg>, i: nat, seen: set<Addr>, addrOf: PubKey -> Addr, k: nat)
    requires i <= k < |comm| && StrictlySorted(Hashes(comm))
    ensures comm[k].hash in CandidatesFrom(comm, i, seen, addrOf) <==> TakenFrom(comm, i, seen, addrOf, k)
    decreases |comm| - i
  {
    hide StrictlySorted, AddressesOf;
    var a := addrOf(comm[i].proof.pubkey);
    if i == k {
      FromLater(comm, i + 1, seen, addrOf, k);
      NoAddresses(comm, i, addrOf);
    } else {
      HashesApart(comm, i, k);
      OneAddressMore(comm, i, k, addrOf);
      if i < 2 < k { OneAddressMore(comm, i, 2, addrOf); }
      if i == 2 { NoAddresses(comm, i, addrOf); }
      CandidatesFromExactly(comm, i + 1, if a in seen then seen else seen + {a}, addrOf, k);
    }
  }

  lemma NoAddresses(comm: seq<SortMsg>, i: nat, addrOf: PubKey -> Addr)
    requires i <= |comm|
    ensures AddressesOf(comm[i..i], addrOf) == {}
  {
  }

  lemma HashesApart(comm: seq<SortMsg>, i: nat, k: nat)
    requires i < k < |comm| && StrictlySorted(Hashes(comm))
    ensures comm[i].hash != comm[k].hash
  {
    assert Hashes(comm)[i] < Hashes(comm)[k];
  }

  // A committee member is a candidate exactly when no member before it has its address and
  // it is one of the first three, or the third one repeats an earlier address.
  lemma CandidatesExactly(comm: seq<SortMsg>, addrOf: PubKey -> Addr, k: nat)
    requires k < |comm| && StrictlySorted(Hashes(comm))
    ensures comm[k].hash in CandidatesOf(comm, addrOf) <==>
      && addrOf(comm[k].proof.pubkey) !in AddressesOf(comm[..k], addrOf)
      && (k <= 2 || addrOf(comm[2].proof.pubkey) in AddressesOf(comm[..2], addrOf))
  {
    CandidatesFromExactly(comm, 0, {}, addrOf, k);
    assert comm[0..k] == comm[..k];
    if k > 2 { assert comm[0..2] == comm[..2]; }
  }

  lemma {:induction false} NoMoreThanMembers(comm: seq<SortMsg>, i: nat, seen: set<Addr>, addrOf: PubKey -> Addr)
    requires i <= |comm|
    ensures |CandidatesFrom(comm, i, seen, addrOf)| <= |comm| - i
    decreases |comm| - i
  {
    if i < |comm| {
      NoMoreThanMembers(comm, i + 1, seen, addrOf);
      NoMoreThanMembers(comm, i + 1, seen + {addrOf(comm[i].proof.pubkey)}, addrOf);
    }
  }

  lemma StopsAtThird(comm: seq<SortMsg>, addrOf: PubKey -> Addr)
    requires |comm| > 3
    requires addrOf(comm[2].proof.pubkey) !in {addrOf(comm[0].proof.pubkey), addrOf(comm[1].proof.pubkey)}
    ensures |CandidatesOf(comm, addrOf)| <= 3
  {
    var a0, a1 := addrOf(comm[0].proof.pubkey), addrOf(comm[1].proof.pubkey);
    var seen := if a1 == a0 then {a0} else {a0} + {a1};
    assert {} + {a0} == {a0};
    assert |CandidatesFrom(comm, 2, seen, addrOf)| == 1;
    assert |CandidatesFrom(comm, 1, {a0}, addrOf)| <= 1 + |CandidatesFrom(comm, 2, seen, addrOf)|;
  }

  ghost predicate ThirdRepeats(comm: seq<SortMsg>, addrOf: PubKey -> Addr) {
    |comm| > 3 && addrOf(comm[2].proof.pubkey) in {addrOf(comm[0].proof.pubkey), addrOf(comm[1].proof.pubkey)}
  }

  // When the third member repeats an address, every address of the committee becomes a
  // candidate.
  lemma AllAddresses(comm: seq<SortMsg>, addrOf: PubKey -> Addr)
    requires ThirdRepeats(comm, addrOf)
    ensures |CandidatesOf(comm, addrOf)| == |AddressesOf(comm, addrOf)|
  {
    var a0, a1 := addrOf(comm[0].proof.pubkey), addrOf(comm[1].proof.pubkey);
    var seen, rest := {a0, a1}, AddressesOf(comm[3..], addrOf);
    FirstThree(comm, addrOf);
    TailCount(comm, 3, seen, addrOf);
    AddressesSplit(comm, addrOf);
    hide CandidatesFrom, CandidatesOf, AddressesOf;
    assert seen + rest == seen + (rest - seen);
  }

  lemma AddressesSplit(comm: seq<SortMsg>, addrOf: PubKey -> Addr)
    requires ThirdRepeats(comm, addrOf)
    ensures AddressesOf(comm, addrOf) == {addrOf(comm[0].proof.pubkey), addrOf(comm[1].proof.pubkey)} + AddressesOf(comm[3..], addrOf)
  {
    var first := comm[..3];
    assert comm == first + comm[3..] && first == [comm[0], comm[1], comm[2]];
    assert AddressesOf(first, addrOf) == {addrOf(comm[0].proof.pubkey), addrOf(comm[1].proof.pubkey)};
    AddressesConcat(first, comm[3..], addrOf);
  }

  lemma AddressesConcat(xs: seq<SortMsg>, ys: seq<SortMsg>, addrOf: PubKey -> Addr)
    ensures AddressesOf(xs + ys, addrOf) == AddressesOf(xs, addrOf) + AddressesOf(ys, addrOf)
  {
  }

  // Three candidates at most, unless the third member repeats one of the first two
  // addresses while the committee has more than three addresses.
  lemma AtMostThreeIff(comm: seq<SortMsg>, addrOf: PubKey -> Addr)
    ensures |CandidatesOf(comm, addrOf)| <= 3 <==>
      !(ThirdRepeats(comm, addrOf) && |AddressesOf(comm, addrOf)| > 3)
  {
    NoMoreThanMembers(comm, 0, {}, addrOf);
    if ThirdRepeats(comm, addrOf) {
      AllAddresses(comm, addrOf);
    } else if |comm| > 3 {
      StopsAtThird(comm, addrOf);
    }
  }

  lemma FirstThree(comm: seq<SortMsg>, addrOf: PubKey -> Addr)
    requires |comm| > 3
    requires addrOf(comm[2].proof.pubkey) in {addrOf(comm[0].proof.pubkey), addrOf(comm[1].proof.pubkey)}
    ensures var a0, a1 := addrOf(comm[0].proof.pubkey), addrOf(comm[1].proof.pubkey);
      |CandidatesOf(comm, addrOf)| == |{a0, a1}| + |CandidatesFrom(comm, 3, {a0, a1}, addrOf)|
  {
    var a0, a1 := addrOf(comm[0].proof.pubkey), addrOf(comm[1].proof.pubkey);
    if a1 == a0 {
      assert {a0, a1} == {a0};
      assert CandidatesFrom(comm, 1, {a0}, addrOf) == CandidatesFrom(comm, 2, {a0}, addrOf);
      assert CandidatesFrom(comm, 2, {a0}, addrOf) == CandidatesFrom(comm, 3, {a0}, addrOf);
    } else {
      assert {a0} + {a1} == {a0, a1};
      assert CandidatesFrom(comm, 1, {a0}, addrOf) == [comm[1].hash] + CandidatesFrom(comm, 2, {a0} + {a1}, addrOf);
      assert CandidatesFrom(comm, 2, {a0, a1}, addrOf) == CandidatesFrom(comm, 3, {a0, a1}, addrOf);
    }
    assert {} + {a0} == {a0};
    assert CandidatesOf(comm, addrOf) == [comm[0].hash] + CandidatesFrom(comm, 1, {a0}, addrOf);
  }

  // ---- All or nothing ----

  function TotalWeight(ms: seq<SortsVote>): nat
    decreases |ms|
  {
    if ms == [] then 0 else TotalWeight(ms[..|ms| - 1]) + |ms[|ms| - 1].mySorts|
  }

  lemma {:induction false} UniformWeight(ms: seq<SortsVote>, select: seq<Hash>, h: Hash)
    requires NoDuplicates(select) && forall m | m in ms :: m.selectSorts == select
    ensures WeightFor(ms, h) == if h in select then TotalWeight(ms) else 0
    decreases |ms|
  {
    if ms != [] {
      var init, last := ms[..|ms| - 1], ms[|ms| - 1];
      UniformWeight(init, select, h);
      assert last in ms;
      OccursOnce(select, h);
    }
  }

  lemma {:induction false} OccursOnce(hs: seq<Hash>, h: Hash)
    requires NoDuplicates(hs)
    ensures Occurrences(hs, h) == if h in hs then 1 else 0
    decreases |hs|
  {
    if hs != [] {
      var init, last := hs[..|hs| - 1], hs[|hs| - 1];
      assert hs == init + [last] && last !in init;
      OccursOnce(init, h);
      OccursLast(init, last, h);
    }
  }

  lemma SmallestSorted(css: map<Hash, SortMsg>, n: nat)
    requires Keyed(css)
    ensures var s := Smallest(css, n);
      && StrictlySorted(Hashes(s)) && |s| <= n
      && (forall x | x in s :: x.hash in css && css[x.hash] == x)
      && |s| == (if |css| > n then n else |css|)
      && (forall h | h in css && h !in Hashes(s) :: forall i | 0 <= i < |s| :: s[i].hash < h)
  {
    var hs, s := Ascending(css.Keys), Smallest(css, n);
    SmallestIs(css, n);
    PickTaken(css, hs, n);
    hide *;
    forall h | h in css && h !in Hashes(s) ensures forall i | 0 <= i < |s| :: s[i].hash < h {
      SmallestBelow(s, hs, n, h);
    }
  }

  lemma SmallestBelow(s: seq<SortMsg>, hs: seq<Hash>, n: nat, h: Hash)
    requires StrictlySorted(hs) && Hashes(s) == Take(hs, n) && h in hs && h !in Hashes(s)
    ensures forall i | 0 <= i < |s| :: s[i].hash < h
  {
    TakenBelow(hs, n, h);
    forall i | 0 <= i < |s| ensures s[i].hash < h { assert Take(hs, n)[i] == Hashes(s)[i]; }
  }

  lemma SmallestIs(css: map<Hash, SortMsg>, n: nat)
    ensures var hs := Ascending(css.Keys);
      && StrictlySorted(hs) && (forall h :: h in hs <==> h in css) && |hs| == |css|
      && Smallest(css, n) == Take(Pick(css, hs), n) && |Smallest(css, n)| == if |css| > n then n else |css|
  {
    AscendingIn(css.Keys);
    assert |Ascending(css.Keys)| == |css.Keys| == |css|;
  }

  lemma TakenBelow(hs: seq<Hash>, n: nat, h: Hash)
    requires StrictlySorted(hs) && h in hs && h !in Take(hs, n)
    ensures forall i | 0 <= i < |Take(hs, n)| :: Take(hs, n)[i] < h
  {
    var k :| 0 <= k < |hs| && hs[k] == h;
    assert forall i | 0 <= i < |Take(hs, n)| :: Take(hs, n)[i] == hs[i] != h;
  }

  lemma {:induction false} KeepAll(ss: seq<SortMsg>, svmp: map<Hash, nat>, w: nat)
    requires forall s | s in ss :: WeightIn(svmp, s.hash) == w
    ensures WithMustVotes(ss, svmp) == if w >= MUST_VOTES then ss else []
  {
    if ss != [] {
      assert ss[0] in ss;
      KeepAll(ss[1..], svmp, w);
    }
  }

  ghost predicate Collected(css: map<Hash, SortMsg>, s: seq<SortMsg>) {
    Keyed(css) && forall x | x in s :: x.hash in css && css[x.hash] == x
  }

  ghost predicate AllSelect(s: seq<SortMsg>, ms: seq<SortsVote>) {
    forall m | m in ms :: m.selectSorts == Hashes(s)
  }

  // If every counted committee vote selects one list of at most 25 sorts, a node that has
  // collected those sorts, and whatever others, freezes exactly that list when the counted
  // weight reaches 17, and nothing below that, in whatever order the votes arrive.
  lemma AllOrNothing(css: map<Hash, SortMsg>, s: seq<SortMsg>, ms: seq<SortsVote>)
    requires StrictlySorted(Hashes(s)) && |s| <= VOTER_SIZE && Collected(css, s) && AllSelect(s, ms)
    ensures CommOf(css, CountedAll(map[], ms)) == if TotalWeight(ms) >= MUST_VOTES then s else []
  {
    var svmp := CountedAll(map[], ms);
    if ms == [] {
      AscendingIn(svmp.Keys * css.Keys);
      assert Contenders(css, svmp) == [];
    } else {
      hide CountedAll, Contenders, WithMustVotes, WeightIn, Ascending;
      SelectedAre(css, ms, s);
      forall x | x in s ensures WeightIn(svmp, x.hash) == TotalWeight(ms) {
        SelectedWeight(ms, s, x);
      }
      KeepAll(s, svmp, TotalWeight(ms));
    }
  }

  // ---- More than three candidates ----

  // Seventeen sorts: owners 1, 2, 1, 3, and 4 for the rest.
  function OwnerAt(i: nat): PubKey {
    if i == 0 || i == 2 then 1 else if i == 1 then 2 else if i == 3 then 3 else 4
  }

  function SortAt(i: nat): SortMsg {
    SortMsg(i, 0, 0, HashProof(VrfInput(0, 0, 0, 0), 0, 0, OwnerAt(i)))
  }

  function Seventeen(): (s: seq<SortMsg>)
    ensures |s| == MUST_VOTES && forall i | 0 <= i < |s| :: s[i] == SortAt(i)
  {
    seq(MUST_VOTES, i requires 0 <= i < MUST_VOTES => SortAt(i))
  }

  function SeventeenSorts(): map<Hash, SortMsg> {
    map h: Hash | 0 <= h < MUST_VOTES :: SortAt(h)
  }

  lemma SeventeenCollected()
    ensures var s := Seventeen();
      Collected(SeventeenSorts(), s) && StrictlySorted(Hashes(s)) && |s| <= VOTER_SIZE
  {
  }

  // One vote of each owner, carrying its sorts.
  function FourVotes(): seq<SortsVote> {
    var s, hs := Seventeen(), Hashes(Seventeen());
    [SortsVote([s[0], s[2]], hs, 1), SortsVote([s[1]], hs, 2), SortsVote([s[3]], hs, 3), SortsVote(s[4..], hs, 4)]
  }

  // A vote for all seventeen, carrying sorts of the voter's own.
  ghost predicate VotedByOwner(m: SortsVote) {
    m.selectSorts == Hashes(Seventeen()) && forall x | x in m.mySorts :: x in Seventeen() && x.proof.pubkey == m.pubkey
  }

  lemma FourVotesAre()
    ensures (forall m | m in FourVotes() :: VotedByOwner(m)) && AllSelect(Seventeen(), FourVotes()) && TotalWeight(FourVotes()) == MUST_VOTES
  {
    var ms := FourVotes();
    assert VotedByOwner(ms[0]) && VotedByOwner(ms[1]) && VotedByOwner(ms[2]) && VotedByOwner(ms[3]);
    hide VotedByOwner, Hashes, OwnerAt, SortAt;
    FourWeight(ms);
  }

  // The four owners each vote for the 25 smallest of the seventeen sorts collected, which is
  // all of them, and the committee that is frozen on these votes has four candidates.
  lemma FourCandidates()
    ensures Collected(SeventeenSorts(), Seventeen()) && Smallest(SeventeenSorts(), VOTER_SIZE) == Seventeen()
    ensures forall m | m in FourVotes() :: VotedByOwner(m)
    ensures |CandidatesOf(CommOf(SeventeenSorts(), CountedAll(map[], FourVotes())), (key: PubKey) => key)| == 4
  {
    hide *;
    FourVotesAre();
    SeventeenSmallest();
    SeventeenCollected();
    AllOrNothing(SeventeenSorts(), Seventeen(), FourVotes());
    FourAddresses();
  }

  lemma SeventeenSmallest()
    ensures Smallest(SeventeenSorts(), VOTER_SIZE) == Seventeen()
  {
    SeventeenCollected();
    SeventeenKeys();
    hide Seventeen, SeventeenSorts;
    AllSmallest(SeventeenSorts(), Seventeen());
  }

  lemma SeventeenKeys()
    ensures SeventeenSorts().Keys == Elements(Hashes(Seventeen()))
  {
    var hs := Hashes(Seventeen());
    assert forall i | 0 <= i < |hs| :: hs[i] == i;
    forall h ensures h in SeventeenSorts().Keys <==> h in Elements(hs) {
      if h in SeventeenSorts() { assert hs[h] == h; }
    }
  }

  // A sorted list of all the collected sorts is the list of the smallest, if it fits.
  lemma AllSmallest(css: map<Hash, SortMsg>, s: seq<SortMsg>)
    requires Collected(css, s) && StrictlySorted(Hashes(s)) && |s| <= VOTER_SIZE && css.Keys == Elements(Hashes(s))
    ensures Smallest(css, VOTER_SIZE) == s
  {
    hide Hashes, Elements, StrictlySorted;
    AscendingIn(css.Keys);
    var hs := Ascending(css.Keys);
    SortedUnique(hs, Hashes(s));
    assert |Hashes(s)| == |s|;
    forall i | 0 <= i < |s| ensures Pick(css, hs)[i] == s[i] {
      HashAt(s, i);
      assert s[i] in s;
    }
  }

  lemma FourWeight(ms: seq<SortsVote>)
    requires |ms| == 4
    ensures TotalWeight(ms) == |ms[0].mySorts| + |ms[1].mySorts| + |ms[2].mySorts| + |ms[3].mySorts|
  {
    assert ms[..3][..2] == ms[..2] && ms[..2][..1] == ms[..1] && ms[..1][..0] == [];
    assert TotalWeight(ms[..1]) == |ms[0].mySorts|;
    assert TotalWeight(ms[..2]) == TotalWeight(ms[..1]) + |ms[1].mySorts|;
    assert TotalWeight(ms[..3]) == TotalWeight(ms[..2]) + |ms[2].mySorts|;
  }

  lemma FourAddresses()
    ensures |CandidatesOf(Seventeen(), (key: PubKey) => key)| == 4
  {
    var s := Seventeen();
    var addrOf: PubKey -> Addr := key => key;
    AllAddresses(s, addrOf);
    hide CandidatesOf;
    var four: set<Addr> := {1, 2, 3, 4};
    assert addrOf(s[0].proof.pubkey) == 1 && addrOf(s[1].proof.pubkey) == 2 && addrOf(s[3].proof.pubkey) == 3 && addrOf(s[4].proof.pubkey) == 4;
    assert AddressesOf(s, addrOf) == four;
  }

  lemma HashIn(s: seq<SortMsg>, h: Hash) returns (i: nat)
    requires h in Hashes(s)
    ensures i < |s| && s[i].hash == h && s[i] in s
  {
    i :| 0 <= i < |s| && Hashes(s)[i] == h;
  }

  lemma MemberHash(s: seq<SortMsg>, x: SortMsg)
    requires x in s
    ensures x.hash in Hashes(s)
  {
    var i :| 0 <= i < |s| && s[i] == x;
    assert Hashes(s)[i] == x.hash;
  }

  lemma SelectedWeight(ms: seq<SortsVote>, s: seq<SortMsg>, x: SortMsg)
    requires StrictlySorted(Hashes(s)) && x in s
    requires forall m | m in ms :: m.selectSorts == Hashes(s)
    ensures WeightIn(CountedAll(map[], ms), x.hash) == TotalWeight(ms)
  {
    hide CountedAll, WeightFor;
    UniformWeight(ms, Hashes(s), x.hash);
    CountedAllIs(map[], ms, x.hash);
    MemberHash(s, x);
  }

  lemma SelectedAre(css: map<Hash, SortMsg>, ms: seq<SortsVote>, s: seq<SortMsg>)
    requires Keyed(css) && ms != [] && StrictlySorted(Hashes(s)) && |s| <= VOTER_SIZE
    requires forall x | x in s :: x.hash in css && css[x.hash] == x
    requires forall m | m in ms :: m.selectSorts == Hashes(s)
    ensures Contenders(css, CountedAll(map[], ms)) == s
  {
    hide CountedAll, Hashes, Elements, StrictlySorted, Keyed;
    var svmp := CountedAll(map[], ms);
    var keys := svmp.Keys * css.Keys;
    AscendingIn(keys);
    assert keys == Elements(Hashes(s)) by { SelectedKeys(css, ms, s); }
    var hs := Ascending(keys);
    SortedUnique(hs, Hashes(s));
    assert |Hashes(s)| == |s|;
    assert Contenders(css, svmp) == Pick(css, hs);
    forall i | 0 <= i < |s| ensures Pick(css, hs)[i] == s[i] {
      assert Hashes(s)[i] == s[i].hash by { HashAt(s, i); }
      assert s[i] in s;
    }
  }

  lemma HashAt(s: seq<SortMsg>, i: nat)
    requires i < |s|
    ensures Hashes(s)[i] == s[i].hash
  {
  }

  lemma SelectedKeys(css: map<Hash, SortMsg>, ms: seq<SortsVote>, s: seq<SortMsg>)
    requires ms != [] && forall m | m in ms :: m.selectSorts == Hashes(s)
    requires forall x | x in s :: x.hash in css && css[x.hash] == x
    ensures CountedAll(map[], ms).Keys * css.Keys == Elements(Hashes(s))
  {
    hide CountedAll;
    assert ms[0] in ms;
    forall h ensures h in CountedAll(map[], ms).Keys * css.Keys <==> h in Elements(Hashes(s)) {
      CountedAllIs(map[], ms, h);
      if h in Hashes(s) { var i := HashIn(s, h); }
    }
  }
}
