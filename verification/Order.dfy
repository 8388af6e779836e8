// Sorting of distinct keys. Addresses and 256-bit sort hashes are both modelled
// by natural numbers, ordered as the source orders them.
module Order {

  ghost predicate StrictlySorted(xs: seq<nat>) {
    forall i, j | 0 <= i < j < |xs| :: xs[i] < xs[j]
  }

  ghost predicate Sorted(xs: seq<nat>) {
    forall i, j | 0 <= i < j < |xs| :: xs[i] <= xs[j]
  }

  function Elements(xs: seq<nat>): set<nat> {
    set x | x in xs
  }

  ghost predicate NoDuplicates<T>(xs: seq<T>) {
    forall i, j | 0 <= i < j < |xs| :: xs[i] != xs[j]
  }

  lemma SameSize<T>(xs: seq<T>, ys: seq<T>)
    requires multiset(xs) == multiset(ys)
    ensures |xs| == |ys|
  {
    assert |multiset(xs)| == |xs| && |multiset(ys)| == |ys|;
  }

  function Insert(x: nat, xs: seq<nat>): (r: seq<nat>)
    requires Sorted(xs)
    ensures Sorted(r) && multiset(r) == multiset(xs) + multiset{x}
  {
    if xs == [] || x <= xs[0] then
      assert forall j | 0 <= j < |xs| :: x <= xs[j];
      [x] + xs
    else
      var r := Insert(x, xs[1..]);
      InsertedAbove(x, xs, r);
      [xs[0]] + r
  }

  lemma InsertedAbove(x: nat, xs: seq<nat>, r: seq<nat>)
    requires xs != [] && xs[0] < x && Sorted(xs)
    requires Sorted(r) && multiset(r) == multiset(xs[1..]) + multiset{x}
    ensures Sorted([xs[0]] + r) && multiset([xs[0]] + r) == multiset(xs) + multiset{x}
  {
    assert xs == [xs[0]] + xs[1..];
    forall j | 0 <= j < |r| ensures xs[0] <= r[j] {
      assert r[j] in multiset(r);
      assert r[j] == x || r[j] in xs[1..];
    }
  }

  // sort.Sort: a sorted permutation.
  function Sort(xs: seq<nat>): (r: seq<nat>)
    ensures Sorted(r) && multiset(r) == multiset(xs)
  {
    if xs == [] then [] else
      assert xs == [xs[0]] + xs[1..];
      Insert(xs[0], Sort(xs[1..]))
  }

  lemma SameElements(xs: seq<nat>, ys: seq<nat>)
    requires multiset(xs) == multiset(ys)
    ensures Elements(xs) == Elements(ys) && |xs| == |ys|
  {
    assert forall x :: x in xs <==> x in multiset(xs);
    assert forall x :: x in ys <==> x in multiset(ys);
    assert |multiset(xs)| == |xs| && |multiset(ys)| == |ys|;
  }

  lemma {:induction false} InsertDistinct(x: nat, xs: seq<nat>)
    requires StrictlySorted(xs) && x !in xs
    ensures StrictlySorted(Insert(x, xs))
  {
    if xs != [] && xs[0] < x {
      var r := Insert(x, xs[1..]);
      InsertDistinct(x, xs[1..]);
      forall j | 0 <= j < |r| ensures xs[0] < r[j] {
        assert r[j] in multiset(r);
        assert r[j] == x || r[j] in xs[1..];
      }
    }
  }

  // Sorting distinct keys gives a strictly increasing sequence of the same keys.
  lemma {:induction false} SortDistinct(xs: seq<nat>)
    requires NoDuplicates(xs)
    ensures StrictlySorted(Sort(xs)) && Elements(Sort(xs)) == Elements(xs) && |Sort(xs)| == |xs|
  {
    SameElements(Sort(xs), xs);
    if xs != [] {
      SortDistinct(xs[1..]);
      assert xs[0] !in Elements(Sort(xs[1..]));
      InsertDistinct(xs[0], Sort(xs[1..]));
    }
  }

  lemma EmptyElements(xs: seq<nat>)
    ensures xs == [] <==> Elements(xs) == {}
  {
    if xs != [] { assert xs[0] in Elements(xs); }
  }

  // A set of keys has only one strictly increasing listing.
  lemma {:induction false} SortedUnique(xs: seq<nat>, ys: seq<nat>)
    requires StrictlySorted(xs) && StrictlySorted(ys) && Elements(xs) == Elements(ys)
    ensures xs == ys
  {
    EmptyElements(xs);
    EmptyElements(ys);
    if xs != [] {
      assert xs[0] in Elements(ys) && ys[0] in Elements(xs);
      assert xs[0] == ys[0];
      forall x ensures x in Elements(xs[1..]) <==> x in Elements(ys[1..]) {
        assert x in Elements(xs[1..]) <==> x in Elements(xs) && x != xs[0] by { TailElements(xs, x); }
        assert x in Elements(ys[1..]) <==> x in Elements(ys) && x != ys[0] by { TailElements(ys, x); }
      }
      SortedUnique(xs[1..], ys[1..]);
    }
  }

  lemma TailElements(xs: seq<nat>, x: nat)
    requires StrictlySorted(xs) && xs != []
    ensures x in xs[1..] <==> x in xs && x != xs[0]
  {
    if x in xs && x != xs[0] {
      var i :| 0 <= i < |xs| && xs[i] == x;
      assert xs[1..][i - 1] == x;
    }
  }

  // The increasing listing of a set.
  ghost function Ascending(s: set<nat>): (r: seq<nat>)
    ensures StrictlySorted(r) && Elements(r) == s && |r| == |s|
  {
    var xs := Listing(s);
    SortDistinct(xs);
    Sort(xs)
  }

  ghost function Listing(s: set<nat>): (r: seq<nat>)
    ensures NoDuplicates(r) && Elements(r) == s && |r| == |s|
  {
    if s == {} then [] else
      var x :| x in s;
      var r := Listing(s - {x});
      ListedFirst(s, x, r);
      [x] + r
  }

  lemma ListedFirst(s: set<nat>, x: nat, r: seq<nat>)
    requires x in s && NoDuplicates(r) && Elements(r) == s - {x} && |r| == |s - {x}|
    ensures NoDuplicates([x] + r) && Elements([x] + r) == s && |[x] + r| == |s|
  {
    assert x !in Elements(r);
    assert Elements([x] + r) == {x} + Elements(r);
  }

  // However the keys were collected, sorting lists them in the same way.
  lemma SortIsAscending(xs: seq<nat>)
    requires NoDuplicates(xs)
    ensures Sort(xs) == Ascending(Elements(xs))
  {
    SortDistinct(xs);
    SortedUnique(Sort(xs), Ascending(Elements(xs)));
  }
}
