/**
 The indexes of the lease queue recomputed from its entries, and how each
 follows when one entry comes or goes.
 */
module QueueIndex {
  import opened Wrappers
  import opened SortedSets
  import opened QueueModel

  // ---- Entries grouped by key or holder

  function QueueGroup(e: Entry): Option<Key> {
    if e.lease.None? then e.key else None
  }

  function LeaseGroup(e: Entry): Option<Key> {
    if e.lease.Some? then e.key else None
  }

  function HolderGroup(e: Entry): Option<Holder> {
    if e.lease.Some? then Some(e.lease.value.holder) else None
  }

  function Members<A(==)>(es: Entries, g: Entry -> Option<A>, a: A): set<nat> {
    set s | s in es && g(es[s]) == Some(a)
  }

  /** `m` holds each group's seqs, and no empty group. */
  ghost predicate Grouped<A(!new)>(es: Entries, g: Entry -> Option<A>, m: map<A, set<nat>>) {
    forall a :: if a in m then m[a] == Members(es, g, a) && m[a] != {} else Members(es, g, a) == {}
  }

  /** `m` holds each group's size, and no empty group. */
  ghost predicate Counted<A(!new)>(es: Entries, g: Entry -> Option<A>, m: map<A, nat>) {
    forall a :: if a in m then m[a] == |Members(es, g, a)| && m[a] != 0 else Members(es, g, a) == {}
  }

  function Plus<A>(m: map<A, set<nat>>, a: A, s: nat): map<A, set<nat>> {
    m[a := (if a in m then m[a] else {}) + {s}]
  }

  function Minus<A>(m: map<A, set<nat>>, a: A, s: nat): map<A, set<nat>> {
    if a !in m then m else if m[a] - {s} == {} then m - {a} else m[a := m[a] - {s}]
  }

  function Inc<A>(m: map<A, nat>, a: A): map<A, nat> {
    m[a := (if a in m then m[a] else 0) + 1]
  }

  function Dec<A>(m: map<A, nat>, a: A): map<A, nat> {
    if a !in m || m[a] == 0 then m else if m[a] == 1 then m - {a} else m[a := m[a] - 1]
  }

  lemma MembersWith<A(!new)>(es: Entries, g: Entry -> Option<A>, s: nat, e: Entry, a: A)
    requires s !in es
    ensures Members(es[s := e], g, a) == Members(es, g, a) + if g(e) == Some(a) then {s} else {}
  {
  }

  lemma MembersWithout<A(!new)>(es: Entries, g: Entry -> Option<A>, s: nat, a: A)
    ensures Members(es - {s}, g, a) == Members(es, g, a) - {s}
    ensures s in es && g(es[s]) != Some(a) ==> Members(es - {s}, g, a) == Members(es, g, a)
  {
  }

  lemma GroupedWith<A(!new)>(es: Entries, g: Entry -> Option<A>, m: map<A, set<nat>>, s: nat, e: Entry)
    requires s !in es && Grouped(es, g, m)
    ensures Grouped(es[s := e], g, if g(e).Some? then Plus(m, g(e).value, s) else m)
  {
    forall a {
      MembersWith(es, g, s, e, a);
    }
  }

  lemma GroupedWithout<A(!new)>(es: Entries, g: Entry -> Option<A>, m: map<A, set<nat>>, s: nat)
    requires s in es && Grouped(es, g, m)
    ensures Grouped(es - {s}, g, if g(es[s]).Some? then Minus(m, g(es[s]).value, s) else m)
  {
    hide Members;
    forall a {
      MembersWithout(es, g, s, a);
    }
  }

  lemma CountedWith<A(!new)>(es: Entries, g: Entry -> Option<A>, m: map<A, nat>, s: nat, e: Entry)
    requires s !in es && Counted(es, g, m)
    ensures Counted(es[s := e], g, if g(e).Some? then Inc(m, g(e).value) else m)
  {
    hide Members;
    forall a
      ensures g(e) == Some(a) ==> |Members(es[s := e], g, a)| == |Members(es, g, a)| + 1
      ensures g(e) != Some(a) ==> Members(es[s := e], g, a) == Members(es, g, a)
    {
      MembersWith(es, g, s, e, a);
      FreshMember(es, g, s, a);
    }
  }

  lemma FreshMember<A(!new)>(es: Entries, g: Entry -> Option<A>, s: nat, a: A)
    requires s !in es
    ensures s !in Members(es, g, a)
  {
  }

  lemma CountedWithout<A(!new)>(es: Entries, g: Entry -> Option<A>, m: map<A, nat>, s: nat)
    requires s in es && Counted(es, g, m)
    ensures g(es[s]).Some? ==> g(es[s]).value in m && m[g(es[s]).value] > 0
    ensures Counted(es - {s}, g, if g(es[s]).Some? then Dec(m, g(es[s]).value) else m)
  {
    hide Members;
    forall a
      ensures g(es[s]) == Some(a) ==> |Members(es, g, a)| == |Members(es - {s}, g, a)| + 1
      ensures g(es[s]) != Some(a) ==> Members(es - {s}, g, a) == Members(es, g, a)
    {
      MembersWithout(es, g, s, a);
      IsMember(es, g, s, a);
    }
  }

  lemma IsMember<A(!new)>(es: Entries, g: Entry -> Option<A>, s: nat, a: A)
    requires s in es
    ensures s in Members(es, g, a) <==> g(es[s]) == Some(a)
  {
  }

  // ---- Totals

  function Load(e: Entry, leasedOnly: bool): nat {
    if leasedOnly && e.lease.None? then 0 else e.size
  }

  lemma {:induction false} WeightWithout(es: Entries, leasedOnly: bool, s: nat)
    requires s in es
    ensures Weight(es, leasedOnly) == Weight(es - {s}, leasedOnly) + Load(es[s], leasedOnly)
    decreases |es|
  {
    var first := Least(es.Keys);
    if first != s {
      var rest := es - {first};
      WeightWithout(rest, leasedOnly, s);
      assert (es - {s}).Keys == es.Keys - {s};
      assert first in (es - {s}).Keys;
      assert Least((es - {s}).Keys) == first;
      assert rest - {s} == (es - {s}) - {first};
    }
  }

  lemma WeightWith(es: Entries, leasedOnly: bool, s: nat, e: Entry)
    requires s !in es
    ensures Weight(es[s := e], leasedOnly) == Weight(es, leasedOnly) + Load(e, leasedOnly)
  {
    WeightWithout(es[s := e], leasedOnly, s);
    assert es[s := e] - {s} == es;
  }

  lemma {:induction false} TotalWithout(sizes: multiset<nat>, x: nat)
    requires x in sizes
    ensures Total(sizes) == Total(sizes - multiset{x}) + x
    decreases |sizes|
  {
    var first := Least(Support(sizes));
    if first != x {
      var rest := sizes - multiset{first};
      TotalWithout(rest, x);
      assert first in Support(sizes - multiset{x});
      assert forall y | y in Support(sizes - multiset{x}) :: y in Support(sizes);
      assert Least(Support(sizes - multiset{x})) == first;
      assert rest - multiset{x} == (sizes - multiset{x}) - multiset{first};
    }
  }

  lemma TotalWith(sizes: multiset<nat>, x: nat)
    ensures Total(sizes + multiset{x}) == Total(sizes) + x
  {
    TotalWithout(sizes + multiset{x}, x);
    assert sizes + multiset{x} - multiset{x} == sizes;
  }

  lemma LeasedWeight(es: Entries)
    requires Unleased(es) == {}
    ensures Weight(es, true) == Weight(es, false) && Leased(es) == es.Keys
    decreases |es|
  {
    if es != map[] {
      var s := Least(es.Keys);
      assert s !in Unleased(es);
      assert Unleased(es - {s}) == {};
      LeasedWeight(es - {s});
    }
  }

  // ---- What `PerKey` may lease

  function Eligible(es: Entries): set<nat> {
    set s | s in es && Leasable(es, PerKey, s)
  }

  /** The seq of `k` that belongs among the eligible ones. */
  function EligibleOf(es: Entries, k: Key): Option<nat> {
    if Members(es, LeaseGroup, k) != {} || Members(es, QueueGroup, k) == {} then None
    else Some(Least(Members(es, QueueGroup, k)))
  }

  function Only(s: Option<nat>): set<nat> {
    if s.None? then {} else {s.value}
  }

  lemma EligibleOfKey(es: Entries, k: Key, s: nat)
    ensures s in Eligible(es) && es[s].key == Some(k) <==> EligibleOf(es, k) == Some(s)
  {
    var queued, leased := Members(es, QueueGroup, k), Members(es, LeaseGroup, k);
    if s in Eligible(es) && es[s].key == Some(k) {
      assert s in queued;
      assert leased == {};
      assert Least(queued) == s;
    }
    if EligibleOf(es, k) == Some(s) {
      assert s in queued;
      forall r | r in es && es[r].key == Some(k)
        ensures es[r].lease.None? && s <= r
      {
        assert r !in leased;
        assert r in queued;
      }
    }
  }

  /** `es` and `fs` hold the same entries outside the key `key`. */
  ghost predicate SameBeyond(es: Entries, fs: Entries, key: Option<Key>) {
    forall r :: r in es || r in fs ==>
      (r in es && es[r].key == key) || (r in fs && fs[r].key == key) || (r in es && r in fs && es[r] == fs[r])
  }

  lemma SameKeyBeyond(es: Entries, fs: Entries, key: Option<Key>, s: nat)
    requires SameBeyond(es, fs, key) && forall r :: r in es && r in fs ==> es[r].key == fs[r].key
    requires (s in es && es[s].key != key) || (s in fs && fs[s].key != key)
    ensures s in Eligible(es) <==> s in Eligible(fs)
  {
    var e := es[s];
    forall r
      ensures (r in es && es[r].key == e.key) <==> (r in fs && fs[r].key == e.key)
      ensures r in es && es[r].key == e.key ==> es[r] == fs[r]
    {
    }
  }

  /** What `rekeyed` relies on: a change to items of `k` moves only the eligible seq of `k`. */
  lemma EligibleRekeyed(es: Entries, fs: Entries, k: Key)
    requires SameBeyond(es, fs, Some(k)) && forall r :: r in es && r in fs ==> es[r].key == fs[r].key
    ensures Eligible(fs) == Eligible(es) - Only(EligibleOf(es, k)) + Only(EligibleOf(fs, k))
  {
    forall s
      ensures s in Eligible(fs) <==> s in Eligible(es) - Only(EligibleOf(es, k)) + Only(EligibleOf(fs, k))
    {
      EligibleOfKey(es, k, s);
      EligibleOfKey(fs, k, s);
      if (s in es && es[s].key != Some(k)) || (s in fs && fs[s].key != Some(k)) {
        SameKeyBeyond(es, fs, Some(k), s);
      }
    }
  }

  lemma EligibleKeyless(es: Entries, fs: Entries, s: nat)
    requires forall r :: r != s ==> (r in es <==> r in fs) && (r in es ==> es[r] == fs[r])
    requires (s in es ==> es[s].key.None?) && (s in fs ==> fs[s].key.None?)
    ensures Eligible(fs) == Eligible(es) - {s} + if s in fs && fs[s].lease.None? then {s} else {}
  {
    forall r | r != s
      ensures r in Eligible(fs) <==> r in Eligible(es)
    {
      if r in es && es[r].key.Some? {
        SameKeyBeyond(es, fs, None, r);
      }
    }
  }

  // ---- The sides of the index, as one entry leaves or comes back

  ghost predicate QueueSide(es: Entries, available: set<nat>, queuedPerKey: map<Key, set<nat>>) {
    available == Unleased(es) && Grouped(es, QueueGroup, queuedPerKey)
  }

  ghost predicate LeaseSide(es: Entries, leasedPerKey: map<Key, nat>, leasedBytes: nat) {
    Counted(es, LeaseGroup, leasedPerKey) && leasedBytes == Weight(es, true)
  }

  ghost predicate HolderSide(es: Entries, leases: map<Holder, set<nat>>) {
    Grouped(es, HolderGroup, leases)
  }

  lemma QueueSideWithout(es: Entries, available: set<nat>, queued: map<Key, set<nat>>, s: nat)
    requires s in es && QueueSide(es, available, queued)
    ensures s in available <==> es[s].lease.None?
    ensures var key := QueueGroup(es[s]);
            QueueSide(es - {s}, available - {s}, if key.Some? then Minus(queued, key.value, s) else queued)
    ensures QueueGroup(es[s]).Some? ==> QueueGroup(es[s]).value in queued && s in queued[QueueGroup(es[s]).value]
  {
    hide Grouped;
    GroupedWithout(es, QueueGroup, queued, s);
    GroupedMember(es, QueueGroup, queued, s);
  }

  lemma GroupedMember<A(!new)>(es: Entries, g: Entry -> Option<A>, m: map<A, set<nat>>, s: nat)
    requires s in es && Grouped(es, g, m)
    ensures g(es[s]).Some? ==> g(es[s]).value in m && s in m[g(es[s]).value]
  {
    assert g(es[s]).Some? ==> s in Members(es, g, g(es[s]).value);
  }

  lemma QueueSideWith(es: Entries, available: set<nat>, queued: map<Key, set<nat>>, s: nat, e: Entry)
    requires s !in es && QueueSide(es, available, queued)
    ensures var key := QueueGroup(e);
            QueueSide(es[s := e], available + (if e.lease.None? then {s} else {}),
                      if key.Some? then Plus(queued, key.value, s) else queued)
  {
    hide Grouped;
    GroupedWith(es, QueueGroup, queued, s, e);
  }

  lemma LeaseSideWithout(es: Entries, counts: map<Key, nat>, bytes: nat, s: nat)
    requires s in es && LeaseSide(es, counts, bytes)
    ensures bytes >= Load(es[s], true)
    ensures var key := LeaseGroup(es[s]);
            && (key.Some? ==> key.value in counts && counts[key.value] > 0)
            && LeaseSide(es - {s}, if key.Some? then Dec(counts, key.value) else counts, bytes - Load(es[s], true))
  {
    hide Counted;
    CountedWithout(es, LeaseGroup, counts, s);
    WeightWithout(es, true, s);
  }

  lemma LeaseSideWith(es: Entries, counts: map<Key, nat>, bytes: nat, s: nat, e: Entry)
    requires s !in es && LeaseSide(es, counts, bytes)
    ensures var key := LeaseGroup(e);
            LeaseSide(es[s := e], if key.Some? then Inc(counts, key.value) else counts, bytes + Load(e, true))
  {
    hide Counted;
    CountedWith(es, LeaseGroup, counts, s, e);
    WeightWith(es, true, s, e);
  }

  lemma HolderSideWithout(es: Entries, leases: map<Holder, set<nat>>, s: nat)
    requires s in es && HolderSide(es, leases)
    ensures var h := HolderGroup(es[s]);
            && (h.Some? ==> h.value in leases && s in leases[h.value])
            && HolderSide(es - {s}, if h.Some? then Minus(leases, h.value, s) else leases)
  {
    hide Grouped;
    GroupedWithout(es, HolderGroup, leases, s);
    GroupedMember(es, HolderGroup, leases, s);
  }

  lemma HolderSideWith(es: Entries, leases: map<Holder, set<nat>>, s: nat, e: Entry)
    requires s !in es && HolderSide(es, leases)
    ensures var h := HolderGroup(e);
            HolderSide(es[s := e], if h.Some? then Plus(leases, h.value, s) else leases)
  {
    hide Grouped;
    GroupedWith(es, HolderGroup, leases, s, e);
  }

  lemma Holds(es: Entries, leases: map<Holder, set<nat>>, holder: Holder, s: nat)
    requires HolderSide(es, leases)
    ensures holder in leases && s in leases[holder] <==> s in es && HeldBy(es[s], holder)
    ensures holder in leases ==> leases[holder] == AllHeld(es, holder)
    ensures holder !in leases ==> AllHeld(es, holder) == {}
  {
    assert Members(es, HolderGroup, holder) == AllHeld(es, holder);
    assert s in es && HeldBy(es[s], holder) <==> s in AllHeld(es, holder);
  }

  /** The key's eligible seq, read off the indexes. */
  lemma EligibleFromIndexes(es: Entries, available: set<nat>, queued: map<Key, set<nat>>, counts: map<Key, nat>, bytes: nat, k: Key)
    requires QueueSide(es, available, queued) && LeaseSide(es, counts, bytes)
    ensures k !in counts && k in queued ==> queued[k] != {}
    ensures EligibleOf(es, k) == if k in counts || k !in queued then None else Some(Least(queued[k]))
  {
    assert k in counts ==> Members(es, LeaseGroup, k) != {};
  }

  // ---- Leasing in seq order

  function Keep(seqs: seq<nat>, among: set<nat>): (kept: seq<nat>)
    ensures forall s :: s in kept <==> s in seqs && s in among
  {
    if seqs == [] then []
    else
      assert seqs == [seqs[0]] + seqs[1..];
      var rest := Keep(seqs[1..], among);
      if seqs[0] in among then [seqs[0]] + rest else rest
  }

  lemma KeepFirst(seqs: seq<nat>, among: set<nat>)
    requires seqs != []
    ensures Keep(seqs, among) == if seqs[0] in among then [seqs[0]] + Keep(seqs[1..], among) else Keep(seqs[1..], among)
  {
  }

  lemma {:induction false} KeepsOrder(seqs: seq<nat>, among: set<nat>)
    requires Increasing(seqs)
    ensures Increasing(Keep(seqs, among))
  {
    if seqs != [] {
      KeepsOrder(seqs[1..], among);
      var rest := Keep(seqs[1..], among);
      assert forall i :: 0 <= i < |rest| ==> rest[i] in seqs[1..];
    }
  }

  /** The first `max` kept, one seq at a time. */
  lemma TakeKept(seqs: seq<nat>, among: set<nat>, max: nat)
    requires seqs != [] && max > 0
    ensures Take(Keep(seqs, among), max) ==
            if seqs[0] in among then [seqs[0]] + Take(Keep(seqs[1..], among), max - 1) else Take(Keep(seqs[1..], among), max)
  {
    var rest := Keep(seqs[1..], among);
    KeepFirst(seqs, among);
    if seqs[0] in among && |rest| + 1 > max {
      assert ([seqs[0]] + rest)[..max] == [seqs[0]] + rest[..max - 1];
    }
  }

  /** The walk, one seq at a time. */
  lemma PickFirst(es: Entries, seqs: seq<nat>, perKey: bool, busy: set<Key>, max: nat)
    requires (forall s | s in seqs :: s in es) && seqs != [] && max > 0
    ensures var e := es[seqs[0]];
            Pick(es, seqs, perKey, busy, max) ==
            if e.lease.Some? || (perKey && e.key.Some? && e.key.value in busy) then Pick(es, seqs[1..], perKey, busy, max)
            else [seqs[0]] + Pick(es, seqs[1..], perKey, if e.key.Some? then busy + {e.key.value} else busy, max - 1)
  {
  }

  /** The walk has passed the seqs `done`: exactly their keys and the leased ones are busy. */
  ghost predicate Walked(es: Entries, done: set<nat>, seqs: seq<nat>, busy: set<Key>) {
    && Increasing(seqs)
    && done + Elements(seqs) == es.Keys
    && (forall d, s :: d in done && s in seqs ==> d < s)
    && (forall k :: k in busy <==> k in LeasedKeys(es) || exists d :: d in done && d in es && es[d].key == Some(k))
  }

  lemma WalkDecides(es: Entries, ordering: Ordering, done: set<nat>, seqs: seq<nat>, busy: set<Key>)
    requires Walked(es, done, seqs, busy) && seqs != []
    ensures var s := seqs[0];
            s in es &&
            (Leasable(es, ordering, s) <==>
             es[s].lease.None? && !(ordering.PerKey? && es[s].key.Some? && es[s].key.value in busy))
  {
    var s := seqs[0];
    assert s in Elements(seqs);
    if ordering.PerKey? && es[s].lease.None? && es[s].key.Some? {
      var k := es[s].key.value;
      if k in busy {
        if k in LeasedKeys(es) {
          var r :| r in es && es[r].lease.Some? && es[r].key == Some(k);
        }
      } else {
        forall r | r in es && es[r].key == Some(k)
          ensures es[r].lease.None? && s <= r
        {
          assert k !in LeasedKeys(es);
          assert r in Elements(seqs);
        }
      }
    }
  }

  lemma WalkOn(es: Entries, done: set<nat>, seqs: seq<nat>, busy: set<Key>)
    requires Walked(es, done, seqs, busy) && seqs != [] && seqs[0] in es
    ensures Walked(es, done + {seqs[0]}, seqs[1..], if es[seqs[0]].key.Some? then busy + {es[seqs[0]].key.value} else busy)
  {
    var s := seqs[0];
    var next := if es[s].key.Some? then busy + {es[s].key.value} else busy;
    ElementsOfRest(seqs);
    assert s in Elements(seqs);
    forall k
      ensures k in next <==> k in LeasedKeys(es) || exists d :: d in done + {s} && d in es && es[d].key == Some(k)
    {
      if k in next && k !in LeasedKeys(es) {
        if k in busy {
          var d :| d in done && d in es && es[d].key == Some(k);
          assert d in done + {s};
        } else {
          assert s in done + {s};
        }
      }
    }
  }

  lemma {:induction false} PickKeepsLeasable(es: Entries, ordering: Ordering, done: set<nat>, seqs: seq<nat>, busy: set<Key>, max: nat)
    requires Walked(es, done, seqs, busy)
    ensures forall s | s in seqs :: s in es
    ensures Pick(es, seqs, ordering.PerKey?, busy, max) == Take(Keep(seqs, set s | s in es && Leasable(es, ordering, s)), max)
    decreases |seqs|
  {
    hide Walked, Leasable, Increasing, Pick, Keep, Take;
    var among := set s | s in es && Leasable(es, ordering, s);
    WalkedInside(es, done, seqs, busy);
    if seqs == [] || max == 0 {
      PickNone(es, seqs, ordering.PerKey?, busy, among, max);
    } else {
      var s := seqs[0];
      WalkDecides(es, ordering, done, seqs, busy);
      WalkOn(es, done, seqs, busy);
      PickFirst(es, seqs, ordering.PerKey?, busy, max);
      TakeKept(seqs, among, max);
      BusyAlready(es, done, seqs, busy);
      var next := if es[s].key.Some? then busy + {es[s].key.value} else busy;
      if Leasable(es, ordering, s) {
        PickKeepsLeasable(es, ordering, done + {s}, seqs[1..], next, max - 1);
      } else {
        assert next == busy;
        PickKeepsLeasable(es, ordering, done + {s}, seqs[1..], next, max);
      }
    }
  }

  lemma WalkedInside(es: Entries, done: set<nat>, seqs: seq<nat>, busy: set<Key>)
    requires Walked(es, done, seqs, busy)
    ensures forall s | s in seqs :: s in es
  {
    assert forall s | s in seqs :: s in Elements(seqs);
  }

  /** A skipped item's key was busy before it. */
  lemma BusyAlready(es: Entries, done: set<nat>, seqs: seq<nat>, busy: set<Key>)
    requires Walked(es, done, seqs, busy) && seqs != [] && seqs[0] in es
    ensures es[seqs[0]].lease.Some? && es[seqs[0]].key.Some? ==> es[seqs[0]].key.value in busy
  {
  }

  /** The greedy walk leases exactly the first `max` leasable items. */
  lemma PickedIsTake(st: State, max: nat)
    ensures Picked(st, max) == Take(Sorted(LeasableSet(st)), max)
  {
    hide Walked, Leasable, Pick, Increasing, Sorted, LeasedKeys;
    var es, seqs := st.entries, Sorted(st.entries.Keys);
    WalkStarts(es);
    PickKeepsLeasable(es, st.cfg.ordering, {}, seqs, LeasedKeys(es), max);
    var kept := Keep(seqs, LeasableSet(st));
    assert Elements(kept) == LeasableSet(st);
    SortedInOrder(es.Keys);
    KeepsOrder(seqs, LeasableSet(st));
    IncreasingIsSorted(kept);
  }

  lemma SortedInOrder(s: set<nat>)
    ensures Increasing(Sorted(s))
  {
  }

  lemma PickNone(es: Entries, seqs: seq<nat>, perKey: bool, busy: set<Key>, among: set<nat>, max: nat)
    requires (forall s | s in seqs :: s in es) && (seqs == [] || max == 0)
    ensures Pick(es, seqs, perKey, busy, max) == Take(Keep(seqs, among), max) == []
  {
  }

  lemma WalkStarts(es: Entries)
    ensures Walked(es, {}, Sorted(es.Keys), LeasedKeys(es))
  {
  }

  lemma LeasableFree(es: Entries)
    ensures (set s | s in es && Leasable(es, Free, s)) == Unleased(es)
  {
  }
}
