/** Finite sets of sequence numbers in ascending order, as a `BTreeSet` iterates them. */
module SortedSets {

  ghost predicate IsLeast(s: set<nat>, m: nat) {
    m in s && forall x | x in s :: m <= x
  }

  lemma {:induction false} LeastExists(s: set<nat>) returns (m: nat)
    requires s != {}
    ensures IsLeast(s, m)
  {
    var e :| e in s;
    var rest := s - {e};
    m := e;
    if rest != {} {
      var n := LeastExists(rest);
      m := if n < e then n else e;
    }
    assert forall x | x in s :: x == e || x in rest;
  }

  lemma LeastIsThere(s: set<nat>)
    requires s != {}
    ensures exists m :: m in s && forall x | x in s :: m <= x
  {
    var m := LeastExists(s);
  }

  function Least(s: set<nat>): (m: nat)
    requires s != {}
    ensures m in s && forall x | x in s :: m <= x
  {
    LeastIsThere(s);
    var m :| m in s && forall x | x in s :: m <= x;
    m
  }

  predicate Increasing(xs: seq<nat>) {
    forall i, j :: 0 <= i < j < |xs| ==> xs[i] < xs[j]
  }

  function Sorted(s: set<nat>): (xs: seq<nat>)
    ensures |xs| == |s| && Increasing(xs)
    ensures forall x :: x in xs <==> x in s
  {
    if s == {} then [] else
      var rest := Sorted(s - {Least(s)});
      assert forall i :: 0 <= i < |rest| ==> rest[i] in s - {Least(s)};
      [Least(s)] + rest
  }

  function Take<T>(xs: seq<T>, n: nat): seq<T> {
    if |xs| <= n then xs else xs[..n]
  }

  function Elements(xs: seq<nat>): set<nat> {
    set x | x in xs
  }

  lemma TakeOfSorted(s: set<nat>, n: nat)
    ensures Increasing(Take(Sorted(s), n)) && forall x | x in Take(Sorted(s), n) :: x in s
  {
    var xs := Sorted(s);
    assert forall i :: 0 <= i < |xs| ==> xs[i] in s;
  }

  /** An increasing sequence is the sorted sequence of its elements. */
  lemma {:induction false} IncreasingIsSorted(xs: seq<nat>)
    requires Increasing(xs)
    ensures Sorted(Elements(xs)) == xs
  {
    hide Increasing, Elements, Least;
    if xs == [] {
      NoElements();
    } else {
      FirstIsLeast(xs);
      ElementsOfRest(xs);
      IncreasingIsSorted(xs[1..]);
    }
  }

  lemma NoElements()
    ensures Elements([]) == {}
  {
  }

  lemma FirstIsLeast(xs: seq<nat>)
    requires Increasing(xs) && xs != []
    ensures Elements(xs) != {} && Least(Elements(xs)) == xs[0]
  {
    assert xs[0] in Elements(xs);
    assert forall x | x in Elements(xs) :: xs[0] <= x;
  }

  lemma ElementsOfRest(xs: seq<nat>)
    requires Increasing(xs) && xs != []
    ensures Elements(xs[1..]) == Elements(xs) - {xs[0]} && Increasing(xs[1..])
  {
    assert xs == [xs[0]] + xs[1..];
  }
}
