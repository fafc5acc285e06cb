/**
 `LeaseQueue` of crates/tgin-runtime/src/queue.rs with its derived indexes,
 kept up to date one change at a time, and proved against the naive model.
 */
module LeaseQueues {
  import opened Wrappers
  import opened SortedSets
  import opened QueueModel
  import opened QueueIndex

  /** Totals of the outstanding permits of one queue. */
  class Reservations {
    var items: nat
    var bytes: nat
    /** The sizes of the outstanding permits. */
    ghost var outstanding: multiset<nat>

    ghost predicate Valid()
      reads this
    {
      items == |outstanding| && bytes == Total(outstanding)
    }

    constructor ()
      ensures Valid() && outstanding == multiset{}
    {
      items, bytes, outstanding := 0, 0, multiset{};
    }

    /** The totals, with the `late` ones of permits dropped after the loads. */
    method Load(late: Totals) returns (seen: Totals)
      requires Valid()
      ensures seen == Totals(|outstanding| + late.items, Total(outstanding) + late.bytes)
    {
      seen := Totals(items + late.items, bytes + late.bytes);
    }

    method Grow(size: nat)
      requires Valid()
      modifies this
      ensures Valid() && outstanding == old(outstanding) + multiset{size}
    {
      TotalWith(outstanding, size);
      items, bytes := items + 1, bytes + size;
      outstanding := outstanding + multiset{size};
    }

    /** A permit of `size` goes: committed, cancelled or dropped. */
    method Shrink(size: nat)
      requires Valid() && size in outstanding
      modifies this
      ensures Valid() && outstanding == old(outstanding) - multiset{size}
    {
      TotalWithout(outstanding, size);
      items, bytes := items - 1, bytes - size;
      outstanding := outstanding - multiset{size};
    }
  }

  /** Room reserved for one item, in the queue whose `reservations` it names. */
  datatype Permit = Permit(evicted: nat, size: nat, reservations: Reservations)

  datatype Stats = Stats(available: nat, leased: nat, reserved: nat, bytes: nat)

  class LeaseQueue {
    var cfg: Config
    var entries: Entries
    var available: set<nat>
    var eligible: set<nat>
    var queuedPerKey: map<Key, set<nat>>
    var leases: map<Holder, set<nat>>
    var leasedPerKey: map<Key, nat>
    var nextSeq: nat
    var bytes: nat
    var leasedBytes: nat
    const reservations: Reservations
    /** How often the waiters were woken. */
    var notifications: nat

    /** The queue as the naive model has it. */
    ghost function View(): State
      reads this, reservations
    {
      State(cfg, entries, reservations.outstanding, nextSeq)
    }

    /** Every index equals what recomputing it from the entries gives. */
    ghost predicate Indexed()
      reads this`entries, this`available, this`queuedPerKey, this`leasedPerKey, this`leasedBytes
      reads this`leases, this`eligible, this`bytes
    {
      && QueueSide(entries, available, queuedPerKey)
      && LeaseSide(entries, leasedPerKey, leasedBytes)
      && HolderSide(entries, leases)
      && eligible == Eligible(entries)
      && bytes == Weight(entries, false)
    }

    ghost predicate Valid()
      reads this, reservations
    {
      Indexed() && reservations.Valid() && SeqsBelow(entries, nextSeq)
    }

    constructor (cfg: Config)
      ensures Valid() && View() == Initial(cfg) && notifications == 0 && fresh(reservations)
    {
      this.cfg := cfg;
      entries, available, eligible := map[], {}, {};
      queuedPerKey, leases, leasedPerKey := map[], map[], map[];
      nextSeq, bytes, leasedBytes, notifications := 0, 0, 0, 0;
      reservations := new Reservations();
    }

    // ---- Inner

    function KeyEligible(key: Option<Key>): Option<nat>
      reads this
      requires key.Some? && key.value !in leasedPerKey && key.value in queuedPerKey ==> queuedPerKey[key.value] != {}
    {
      if key.None? || key.value in leasedPerKey || key.value !in queuedPerKey then None
      else Some(Least(queuedPerKey[key.value]))
    }

    /** The end of `rekeyed`: moves the eligible seq of `key` from `before` to where it belongs now. */
    method Rekey(key: Option<Key>, before: Option<nat>, ghost was: Entries)
      requires QueueSide(entries, available, queuedPerKey) && LeaseSide(entries, leasedPerKey, leasedBytes)
      requires key.Some? ==>
                 && SameBeyond(was, entries, key)
                 && (forall r :: r in was && r in entries ==> was[r].key == entries[r].key)
                 && eligible == Eligible(was)
                 && before == EligibleOf(was, key.value)
      requires key.None? ==> eligible == Eligible(entries)
      modifies this`eligible
      ensures eligible == Eligible(entries)
    {
      hide QueueSide, LeaseSide, Eligible, EligibleOf, SameBeyond;
      if key.Some? {
        EligibleFromIndexes(entries, available, queuedPerKey, leasedPerKey, leasedBytes, key.value);
        var after := KeyEligible(key);
        EligibleRekeyed(was, entries, key.value);
        if before != after {
          if before.Some? {
            eligible := eligible - {before.value};
          }
          if after.Some? {
            eligible := eligible + {after.value};
          }
        } else if before.Some? {
          EligibleIsIn(was, key.value);
        }
      }
    }

    /** Marks `s` unleased; `rest` are the entries the indexes show, `s` not among them. */
    method Link(s: nat, key: Option<Key>, ghost rest: Entries, ghost e: Entry)
      requires s !in rest && QueueSide(rest, available, queuedPerKey) && e.key == key && e.lease.None?
      modifies this`available, this`queuedPerKey, this`eligible
      ensures QueueSide(rest[s := e], available, queuedPerKey)
      ensures eligible == if key.None? then old(eligible) + {s} else old(eligible)
    {
      hide QueueSide;
      QueueSideWith(rest, available, queuedPerKey, s, e);
      available := available + {s};
      match key {
        case Some(k) => queuedPerKey := Plus(queuedPerKey, k, s);
        case None => eligible := eligible + {s};
      }
    }

    /** Takes `s` out of the unleased ones, if it is there. */
    method Unlink(s: nat, key: Option<Key>, ghost es: Entries)
      requires s in es && es[s].key == key && QueueSide(es, available, queuedPerKey)
      modifies this`available, this`queuedPerKey, this`eligible
      ensures QueueSide(es - {s}, available, queuedPerKey)
      ensures eligible == if key.None? && es[s].lease.None? then old(eligible) - {s} else old(eligible)
    {
      hide QueueSide;
      QueueSideWithout(es, available, queuedPerKey, s);
      if s !in available {
        assert available - {s} == available;
        return;
      }
      available := available - {s};
      match key {
        case Some(k) => queuedPerKey := Minus(queuedPerKey, k, s);
        case None => eligible := eligible - {s};
      }
    }

    /** Ends the lease on `s`, if any, without making the entry available. */
    method EndLease(s: nat)
      requires s in entries && LeaseSide(entries, leasedPerKey, leasedBytes) && HolderSide(entries, leases)
      modifies this`entries, this`leasedPerKey, this`leasedBytes, this`leases
      ensures entries == old(entries)[s := old(entries)[s].(lease := None)]
      ensures LeaseSide(old(entries) - {s}, leasedPerKey, leasedBytes) && HolderSide(old(entries) - {s}, leases)
    {
      hide LeaseSide, HolderSide;
      LeaseSideWithout(entries, leasedPerKey, leasedBytes, s);
      HolderSideWithout(entries, leases, s);
      var entry := entries[s];
      if entry.lease.None? {
        return;
      }
      entries := entries[s := entry.(lease := None)];
      leasedBytes := leasedBytes - entry.size;
      if entry.key.Some? {
        leasedPerKey := Dec(leasedPerKey, entry.key.value);
      }
      leases := Minus(leases, entry.lease.value.holder, s);
    }

    /** Leases the unleased entry `s`; the caller records it in `leases`. */
    method StartLease(s: nat, holder: Holder, deadline: int)
      requires s in entries && entries[s].lease.None?
      requires QueueSide(entries, available, queuedPerKey) && LeaseSide(entries, leasedPerKey, leasedBytes)
      requires eligible == Eligible(entries) && bytes == Weight(entries, false)
      modifies this`entries, this`available, this`queuedPerKey, this`eligible, this`leasedPerKey, this`leasedBytes
      ensures entries == old(entries)[s := old(entries)[s].(lease := Some(Holding(holder, deadline)))]
      ensures QueueSide(entries, available, queuedPerKey) && LeaseSide(entries, leasedPerKey, leasedBytes)
      ensures eligible == Eligible(entries) && bytes == Weight(entries, false)
    {
      hide QueueSide, LeaseSide, Weight, Eligible, EligibleOf, Least, SameBeyond;
      ghost var was: Entries := entries;
      var key, e := entries[s].key, entries[s].(lease := Some(Holding(holder, deadline)));
      if key.Some? {
        EligibleFromIndexes(was, available, queuedPerKey, leasedPerKey, leasedBytes, key.value);
      }
      LeaseSideWithout(was, leasedPerKey, leasedBytes, s);
      assert LeaseSide(was - {s}, leasedPerKey, leasedBytes);
      LeaseSideWith(was - {s}, leasedPerKey, leasedBytes, s, e);
      assert (was - {s})[s := e] == was[s := e];
      WeightWithout(was, false, s);
      WeightWith(was - {s}, false, s, e);
      entries := entries[s := e];
      leasedBytes := leasedBytes + e.size;
      var before := KeyEligible(key);
      Unlink(s, key, was);
      QueueSideWith(was - {s}, available, queuedPerKey, s, e);
      assert available + {} == available;
      if key.Some? {
        leasedPerKey := Inc(leasedPerKey, key.value);
      } else {
        EligibleKeyless(was, entries, s);
        assert eligible == eligible + {};
      }
      OneEntryBeyond(was, entries, s, key);
      Rekey(key, before, was);
    }

    /** Puts the leased entry `s` back among the available ones. */
    method Requeue(s: nat)
      requires Indexed() && s in entries && entries[s].lease.Some?
      modifies this`entries, this`available, this`queuedPerKey, this`eligible, this`leasedPerKey, this`leasedBytes, this`leases
      ensures Indexed() && entries == old(entries)[s := old(entries)[s].(lease := None)]
    {
      hide QueueSide, LeaseSide, HolderSide, Weight, Eligible, EligibleOf, Least, SameBeyond;
      ghost var was: Entries := entries;
      var key := entries[s].key;
      ghost var e := entries[s].(lease := None);
      if key.Some? {
        EligibleFromIndexes(was, available, queuedPerKey, leasedPerKey, leasedBytes, key.value);
      }
      QueueSideWithout(was, available, queuedPerKey, s);
      assert available - {s} == available;
      WeightWithout(was, false, s);
      WeightWith(was - {s}, false, s, e);
      assert (was - {s})[s := e] == was[s := e];
      var before := KeyEligible(key);
      EndLease(s);
      LeaseSideWith(was - {s}, leasedPerKey, leasedBytes, s, e);
      HolderSideWith(was - {s}, leases, s, e);
      Link(s, key, was - {s}, e);
      if key.None? {
        EligibleKeyless(was, entries, s);
        LeasedIsNotEligible(was, s);
      }
      OneEntryBeyond(was, entries, s, key);
      Rekey(key, before, was);
    }

    /** Removes the entry `s`, leased or not. */
    method Remove(s: nat) returns (entry: Option<Entry>)
      requires Indexed()
      modifies this`entries, this`available, this`queuedPerKey, this`eligible, this`leasedPerKey, this`leasedBytes, this`leases, this`bytes
      ensures Indexed() && entries == old(entries) - {s}
      ensures entry == if s in old(entries) then Some(old(entries)[s]) else None
    {
      hide QueueSide, LeaseSide, HolderSide, Weight, Eligible, EligibleOf, Least, SameBeyond;
      if s !in entries {
        assert entries == entries - {s};
        return None;
      }
      ghost var was: Entries := entries;
      entry := Some(entries[s]);
      var key := entries[s].key;
      if key.Some? {
        EligibleFromIndexes(was, available, queuedPerKey, leasedPerKey, leasedBytes, key.value);
      }
      WeightWithout(was, false, s);
      var before := KeyEligible(key);
      EndLease(s);
      Unlink(s, key, was);
      entries := entries - {s};
      assert entries == was - {s};
      if key.None? {
        EligibleKeyless(was, entries, s);
        if was[s].lease.Some? {
          LeasedIsNotEligible(was, s);
        }
      }
      OneEntryBeyond(was, entries, s, key);
      Rekey(key, before, was);
      bytes := bytes - entry.value.size;
    }
  
    /** Removes the entries `seqs` one by one, in order. */
    method RemoveEach(seqs: seq<nat>) returns (removed: seq<Entry>)
      requires Indexed() && Increasing(seqs) && forall s | s in seqs :: s in entries
      modifies this`entries, this`available, this`queuedPerKey, this`eligible, this`leasedPerKey, this`leasedBytes, this`leases, this`bytes
      ensures Indexed() && entries == old(entries) - Elements(seqs)
      ensures |removed| == |seqs| && forall i :: 0 <= i < |seqs| ==> removed[i] == old(entries)[seqs[i]]
    {
      hide QueueSide, LeaseSide, HolderSide, Weight, Eligible;
      removed := [];
      assert entries == entries - Elements(seqs[..0]);
      for i := 0 to |seqs|
        invariant Indexed() && entries == old(entries) - Elements(seqs[..i])
        invariant |removed| == i && forall j :: 0 <= j < i ==> removed[j] == old(entries)[seqs[j]]
      {
        ElementsGrow(seqs, i);
        var entry := Remove(seqs[i]);
        assert entry == Some(old(entries)[seqs[i]]);
        removed := removed + [entry.value];
      }
      assert seqs[..|seqs|] == seqs;
    }

    // ---- Reserving and committing

    method Room(seen: Totals, items: nat, used: nat, size: nat) returns (full: Option<Full>)
      ensures full == QueueModel.Room(cfg, seen, items, used, size)
    {
      if items + seen.items >= cfg.capacity {
        return Some(Items);
      }
      if used + seen.bytes + size > cfg.capacityBytes {
        return Some(Bytes);
      }
      return None;
    }

    /**
     Reserves room for one item of `size` bytes, evicting the oldest unleased
     items if it must and may. `late` is what permits outstanding at the loads,
     but dropped on other threads before the reservation is made, added to the
     totals it saw.
     */
    method TryReserve(size: nat, late: Totals) returns (r: Result<Permit, Full>)
      requires Valid()
      modifies this, reservations
      ensures Valid() && View() == Step(old(View()), Reserve(size, late)) && notifications == old(notifications)
      ensures match r
              case Ok(permit) =>
                && Refusal(old(View()), size, late).None?
                && permit.size == size && permit.reservations == reservations
                && permit.evicted == |Removed(old(View()), Reserve(size, late))|
              case Err(full) => Refusal(old(View()), size, late) == Some(full)
    {
      hide Indexed, Weight, Total, SeqsBelow, Evicted, RoomFor, QueueModel.Room, Leased, Refusal, Removed, Step, Seen;
      if size > cfg.capacityBytes {
        RefusalCases(View(), size, late);
        ReserveCases(View(), size, late);
        return Err(TooLarge);
      }
      ghost var was := View();
      var seen := reservations.Load(late);
      SeenTotals(was, late, seen);
      RefusalCases(was, size, late);
      var made := MakeRoom(seen, size);
      ReserveCases(was, size, late);
      if made.Err? {
        return Err(made.error);
      }
      reservations.Grow(size);
      return Ok(Permit(made.value, size, reservations));
    }

    /** Checks the limits next to the `seen` totals and evicts if it must and may: how many. */
    method MakeRoom(seen: Totals, size: nat) returns (made: Result<nat, Full>)
      requires Valid()
      modifies this
      ensures Valid() && notifications == old(notifications)
      ensures match made
              case Ok(evicted) =>
                && (cfg.onFull.Backpressure? ==> RoomFor(cfg, seen, old(entries), size).None?)
                && (RoomFor(cfg, seen, old(entries), size).Some? ==>
                  QueueModel.Room(cfg, seen, |Leased(old(entries))|, Weight(old(entries), true), size).None?)
                && View() == old(View()).(entries := Evicted(cfg, seen, old(entries), size))
                && evicted == |old(entries).Keys - entries.Keys|
              case Err(full) =>
                && RoomFor(cfg, seen, entries, size).Some? && View() == old(View())
                && Some(full) == if cfg.onFull.Backpressure? then RoomFor(cfg, seen, entries, size)
                                 else QueueModel.Room(cfg, seen, |Leased(entries)|, Weight(entries, true), size)
    {
      hide Indexed, Weight, Total, SeqsBelow, Evicted, RoomFor, QueueModel.Room, Leased;
      var full := RoomNow(seen, size);
      if full.None? {
        NoMoreEvicted(cfg, seen, entries, size);
        assert entries.Keys - entries.Keys == {};
        return Ok(0);
      }
      if cfg.onFull.Backpressure? {
        return Err(full.value);
      }
      var without := RoomWithoutUnleased(seen, size);
      if without.Some? {
        return Err(without.value);
      }
      var evicted := EvictForRoom(seen, size);
      return Ok(evicted);
    }

    method RoomNow(seen: Totals, size: nat) returns (full: Option<Full>)
      requires Valid()
      ensures full == RoomFor(cfg, seen, entries, size)
    {
      hide QueueSide, LeaseSide, HolderSide, Eligible, SeqsBelow, Total;
      full := Room(seen, |entries|, bytes, size);
    }

    method RoomWithoutUnleased(seen: Totals, size: nat) returns (full: Option<Full>)
      requires Valid()
      ensures full == QueueModel.Room(cfg, seen, |Leased(entries)|, Weight(entries, true), size)
    {
      hide QueueSide, HolderSide, Eligible, SeqsBelow, Total, Counted;
      SplitSizes(entries, available, queuedPerKey);
      full := Room(seen, |entries| - |available|, leasedBytes, size);
    }

    /** Evicts the oldest unleased items until one of `size` fits; there is always one to evict. */
    method EvictForRoom(seen: Totals, size: nat) returns (evicted: nat)
      requires Valid()
      requires QueueModel.Room(cfg, seen, |Leased(entries)|, Weight(entries, true), size).None?
      modifies this
      ensures Valid() && notifications == old(notifications)
      ensures View() == old(View()).(entries := Evicted(cfg, seen, old(entries), size))
      ensures evicted == |old(entries).Keys - entries.Keys|
    {
      hide Indexed, Weight, Total, SeqsBelow, Evicted, RoomFor, QueueModel.Room, Leased, Unleased, Least;
      ghost var was: Entries := entries;
      evicted := 0;
      assert was.Keys - entries.Keys == {};
      var full := RoomNow(seen, size);
      while full.Some?
        invariant Valid() && View() == old(View()).(entries := entries) && notifications == old(notifications)
        invariant entries.Keys <= was.Keys && evicted == |was.Keys - entries.Keys|
        invariant full == RoomFor(cfg, seen, entries, size)
        invariant Evicted(cfg, seen, entries, size) == Evicted(cfg, seen, was, size)
        invariant QueueModel.Room(cfg, seen, |Leased(entries)|, Weight(entries, true), size).None?
        decreases |entries|
      {
        EvictOldest(was, seen, size);
        full := RoomNow(seen, size);
        evicted := evicted + 1;
      }
      NoMoreEvicted(cfg, seen, entries, size);
    }

    method EvictOldest(ghost was: Entries, ghost seen: Totals, ghost size: nat)
      requires Valid() && RoomFor(cfg, seen, entries, size).Some? && entries.Keys <= was.Keys
      requires QueueModel.Room(cfg, seen, |Leased(entries)|, Weight(entries, true), size).None?
      modifies this
      ensures Valid() && View() == old(View()).(entries := entries) && notifications == old(notifications)
      ensures Evicted(cfg, seen, entries, size) == Evicted(cfg, seen, old(entries), size)
      ensures Leased(entries) == Leased(old(entries)) && Weight(entries, true) == Weight(old(entries), true)
      ensures |entries| < |old(entries)| && entries.Keys <= was.Keys
      ensures |was.Keys - entries.Keys| == |was.Keys - old(entries).Keys| + 1
    {
      hide Indexed, Weight, Total, SeqsBelow, Evicted, RoomFor, QueueModel.Room, Leased, Unleased, Least;
      var oldest := Oldest(seen, size);
      EvictOne(View(), was, seen, oldest, size);
      ghost var before: Entries := entries;
      var _ := Remove(oldest);
      SeqsBelowPart(before, entries, nextSeq);
    }

    method Oldest(ghost seen: Totals, ghost size: nat) returns (oldest: nat)
      requires Valid() && RoomFor(cfg, seen, entries, size).Some?
      requires QueueModel.Room(cfg, seen, |Leased(entries)|, Weight(entries, true), size).None?
      ensures Unleased(entries) != {} && oldest == Least(Unleased(entries))
    {
      hide QueueSide, LeaseSide, HolderSide, Eligible, SeqsBelow, Total, RoomFor, QueueModel.Room;
      OldestExists(View(), seen, size);
      UnleasedFromIndex(entries, available, queuedPerKey);
      oldest := Least(available);
    }

    /** Releases the room `permit` reserved, in the queue that granted it. */
    method Cancel(permit: Permit)
      requires permit.reservations.Valid() && permit.size in permit.reservations.outstanding
      modifies permit.reservations
      ensures permit.reservations.Valid()
      ensures permit.reservations.outstanding == old(permit.reservations.outstanding) - multiset{permit.size}
    {
      permit.reservations.Shrink(permit.size);
    }

    /** Stores `item` in the room `permit` reserved; a permit of another queue stores nothing and comes back. */
    method Commit(permit: Permit, item: Item, key: Option<Key>, ackId: int) returns (r: Result<nat, Permit>)
      requires Valid() && (permit.reservations == reservations ==> permit.size in reservations.outstanding)
      modifies this, reservations
      ensures Valid()
      ensures permit.reservations == reservations ==>
                && r == Ok(old(nextSeq))
                && View() == Step(old(View()), QueueModel.Commit(permit.size, item, key, ackId))
                && notifications == old(notifications) + 1
      ensures permit.reservations != reservations ==>
                r == Err(permit) && View() == old(View()) && notifications == old(notifications)
    {
      hide Indexed, Total, SeqsBelow, Step;
      if permit.reservations != reservations {
        return Err(permit);
      }
      var s := nextSeq;
      CommitStep(View(), permit.size, item, key, ackId);
      SeqsBelowNew(entries, s, Entry(item, key, ackId, permit.size, None));
      nextSeq := nextSeq + 1;
      Insert(s, Entry(item, key, ackId, permit.size, None));
      reservations.Shrink(permit.size);
      notifications := notifications + 1;
      return Ok(s);
    }

    /** Adds the unleased entry `e` as `s`. */
    method Insert(s: nat, e: Entry)
      requires Indexed() && s !in entries && e.lease.None?
      modifies this`entries, this`available, this`queuedPerKey, this`eligible, this`bytes
      ensures Indexed() && entries == old(entries)[s := e]
    {
      hide QueueSide, LeaseSide, HolderSide, Weight, Eligible, EligibleOf, Least, SameBeyond;
      ghost var was: Entries := entries;
      var key := e.key;
      LeaseSideWith(was, leasedPerKey, leasedBytes, s, e);
      HolderSideWith(was, leases, s, e);
      WeightWith(was, false, s, e);
      if key.Some? {
        EligibleFromIndexes(was, available, queuedPerKey, leasedPerKey, leasedBytes, key.value);
      }
      entries := entries[s := e];
      bytes := bytes + e.size;
      var before := KeyEligible(key);
      Link(s, key, was, e);
      if key.None? {
        EligibleKeyless(was, entries, s);
        NotEligible(was, s);
      }
      NewEntryBeyond(was, s, e);
      Rekey(key, before, was);
    }

    // ---- Leasing

    /** Leases up to `max` available items to `holder` in seq order. */
    method Lease(holder: Holder, max: nat, now: int) returns (out: seq<QueueModel.Lease>)
      requires Valid()
      modifies this
      ensures Valid() && View() == Step(old(View()), LeaseTo(holder, max, now)) && notifications == old(notifications)
      ensures out == ToLeases(old(entries), Picked(old(View()), max))
      ensures forall k :: 0 <= k < |out| ==> Describes(out[k], old(entries))
    {
      hide QueueSide, LeaseSide, HolderSide, Weight, Leasable, Pick, Eligible, Sorted, Picked, LeasableSet, WithLease, Increasing, SeqsBelow;
      var candidates := match cfg.ordering case Free => available case PerKey => eligible;
      Candidates(View(), available, queuedPerKey);
      PickedIsTake(View(), max);
      var picked := Take(Sorted(candidates), max);
      ghost var was: Entries := entries;
      PickedUnleased(View(), max);
      if picked == [] {
        LeaseNone(was, Some(Holding(holder, now + cfg.leaseTimeout)));
        return [];
      }
      out := StartEach(picked, holder, now + cfg.leaseTimeout);
      assert picked[0] in Elements(picked);
      LeasesRecorded(was, leases, holder, Elements(picked), now + cfg.leaseTimeout);
      leases := leases[holder := (if holder in leases then leases[holder] else {}) + Elements(picked)];
      SeqsBelowLeased(was, Elements(picked), Some(Holding(holder, now + cfg.leaseTimeout)), nextSeq);
    }

    /** Starts a lease on each of `picked`; the caller records them in `leases`. */
    method StartEach(picked: seq<nat>, holder: Holder, deadline: int) returns (out: seq<QueueModel.Lease>)
      requires Indexed() && Increasing(picked)
      requires forall s | s in picked :: s in entries && entries[s].lease.None?
      modifies this`entries, this`available, this`queuedPerKey, this`eligible, this`leasedPerKey, this`leasedBytes
      ensures QueueSide(entries, available, queuedPerKey) && LeaseSide(entries, leasedPerKey, leasedBytes)
      ensures eligible == Eligible(entries) && bytes == Weight(entries, false)
      ensures entries == WithLease(old(entries), Elements(picked), Some(Holding(holder, deadline)))
      ensures out == ToLeases(old(entries), picked)
    {
      hide QueueSide, LeaseSide, HolderSide, Weight, Eligible, WithLease;
      ghost var was: Entries := entries;
      out := [];
      LeaseNone(was, Some(Holding(holder, deadline)));
      for i := 0 to |picked|
        invariant QueueSide(entries, available, queuedPerKey) && LeaseSide(entries, leasedPerKey, leasedBytes)
        invariant eligible == Eligible(entries) && bytes == Weight(entries, false)
        invariant entries == WithLease(was, Elements(picked[..i]), Some(Holding(holder, deadline)))
        invariant |out| == i && forall j :: 0 <= j < i ==> out[j] == ToLease(was, picked[j])
      {
        LeaseOneMore(was, picked, i, Some(Holding(holder, deadline)));
        StartLease(picked[i], holder, deadline);
        out := out + [ToLease(entries, picked[i])];
      }
      assert picked[..|picked|] == picked;
    }

    /** The leases `holder` has from `minAckId` on, in seq order, each renewed until `now + leaseTimeout`. */
    method Held(holder: Holder, minAckId: int, now: int) returns (held: seq<QueueModel.Lease>)
      requires Valid()
      modifies this
      ensures Valid() && View() == Step(old(View()), Renew(holder, minAckId, now)) && notifications == old(notifications)
      ensures held == ToLeases(old(entries), Sorted(HeldFrom(old(entries), holder, minAckId)))
      ensures forall k :: 0 <= k < |held| ==> Describes(held[k], old(entries))
    {
      hide QueueSide, LeaseSide, HolderSide, Weight, Eligible, HeldFrom, WithLease, Sorted, SeqsBelow;
      ghost var was: Entries := entries;
      ghost var chosen := HeldFrom(was, holder, minAckId);
      HeldFromIndex(was, leases, holder, minAckId);
      if holder !in leases {
        LeaseNone(was, Some(Holding(holder, now + cfg.leaseTimeout)));
        return [];
      }
      held := RenewEach(Sorted(leases[holder]), holder, minAckId, now + cfg.leaseTimeout);
      AllDescribe(was, holder, minAckId);
      RenewedIndexes(was, chosen, holder, now + cfg.leaseTimeout);
      QueueSideSame(was, entries, available, queuedPerKey);
      LeaseSideSame(was, entries, leasedPerKey, leasedBytes);
      HolderSideSame(was, entries, leases);
      SeqsBelowLeased(was, chosen, Some(Holding(holder, now + cfg.leaseTimeout)), nextSeq);
    }

    method RenewEach(seqs: seq<nat>, holder: Holder, minAckId: int, deadline: int) returns (held: seq<QueueModel.Lease>)
      requires Increasing(seqs) && forall s :: s in seqs <==> s in AllHeld(entries, holder)
      modifies this`entries
      ensures entries == WithLease(old(entries), HeldFrom(old(entries), holder, minAckId), Some(Holding(holder, deadline)))
      ensures held == ToLeases(old(entries), Sorted(HeldFrom(old(entries), holder, minAckId)))
    {
      hide WithLease, Keep, Sorted, HeldFrom;
      ghost var was: Entries := entries;
      ghost var chosen, renewed := HeldFrom(was, holder, minAckId), Some(Holding(holder, deadline));
      held := [];
      LeaseNone(was, renewed);
      KeepNone(chosen);
      assert seqs[..0] == [];
      for i := 0 to |seqs|
        invariant entries == WithLease(was, Elements(Keep(seqs[..i], chosen)), renewed)
        invariant |held| == |Keep(seqs[..i], chosen)|
        invariant forall j :: 0 <= j < |held| ==> Keep(seqs[..i], chosen)[j] in was && held[j] == ToLease(was, Keep(seqs[..i], chosen)[j])
      {
        var s := seqs[i];
        HeldStep(was, seqs, i, renewed, holder, minAckId);
        if entries[s].ackId >= minAckId {
          entries := entries[s := entries[s].(lease := Some(Holding(holder, deadline)))];
          held := held + [ToLease(entries, s)];
        }
      }
      assert seqs[..|seqs|] == seqs;
      HeldFromPart(was, holder, minAckId);
      KeepAll(seqs, chosen);
      SortedElements(chosen);
    }

    // ---- Acknowledging

    /** Removes the leases of `holder` that match `pred`. */
    method AckWhere(holder: Holder, pred: Entry -> bool, ghost op: Op) returns (n: nat, removed: seq<Item>)
      requires Valid() && (op.AckBelow? || op.AckAll?)
      requires Acked(View(), op) == set s | s in entries && HeldBy(entries[s], holder) && pred(entries[s])
      modifies this
      ensures Valid() && View() == Step(old(View()), op)
      ensures n == |Acked(old(View()), op)|
      ensures removed == ItemsOf(old(entries), Sorted(Acked(old(View()), op)))
      ensures notifications == old(notifications) + if Wakes(old(View()), op) then 1 else 0
    {
      hide QueueSide, LeaseSide, HolderSide, Weight, Eligible, Acked, Sorted, Increasing, Elements, SeqsBelow;
      ghost var was := View();
      ghost var gone := Acked(was, op);
      Holds(entries, leases, holder, 0);
      if holder !in leases {
        assert gone == {} by { assert gone <= AllHeld(entries, holder); }
        assert entries - gone == entries;
        return 0, [];
      }
      var acked := set s | s in leases[holder] && s in entries && pred(entries[s]);
      assert acked == gone;
      var seqs := Sorted(acked);
      SortedElements(acked);
      var freedKey;
      removed, freedKey := RemoveAcked(seqs);
      SeqsBelowPart(was.entries, entries, nextSeq);
      if freedKey && cfg.ordering.PerKey? {
        notifications := notifications + 1;
      }
      n := |seqs|;
    }

    method RemoveAcked(seqs: seq<nat>) returns (removed: seq<Item>, freedKey: bool)
      requires Indexed() && Increasing(seqs) && forall s | s in seqs :: s in entries
      modifies this`entries, this`available, this`queuedPerKey, this`eligible, this`leasedPerKey, this`leasedBytes, this`leases, this`bytes
      ensures Indexed() && entries == old(entries) - Elements(seqs)
      ensures removed == ItemsOf(old(entries), seqs)
      ensures freedKey <==> exists s :: s in Elements(seqs) && s in old(entries) && old(entries)[s].key.Some?
    {
      hide Indexed, Increasing;
      ghost var was: Entries := entries;
      var each := RemoveEach(seqs);
      removed := seq(|each|, i requires 0 <= i < |each| => each[i].item);
      freedKey := exists i :: 0 <= i < |each| && each[i].key.Some?;
      FreedKey(was, seqs, each, Elements(seqs));
    }

    method AckBelow(holder: Holder, ackId: int) returns (n: nat, removed: seq<Item>)
      requires Valid()
      modifies this
      ensures Valid() && View() == Step(old(View()), QueueModel.AckBelow(holder, ackId))
      ensures n == |HeldBelow(old(entries), holder, ackId)|
      ensures removed == ItemsOf(old(entries), Sorted(HeldBelow(old(entries), holder, ackId)))
      ensures notifications == old(notifications) + if Wakes(old(View()), QueueModel.AckBelow(holder, ackId)) then 1 else 0
      ensures forall s | s in old(entries) ::
                if HeldBy(old(entries)[s], holder) && old(entries)[s].ackId < ackId then s !in entries
                else s in entries && entries[s] == old(entries)[s]
    {
      hide Indexed, SeqsBelow, Wakes, Step, Sorted;
      BelowGone(View(), holder, ackId);
      n, removed := AckWhere(holder, (e: Entry) => e.ackId < ackId, QueueModel.AckBelow(holder, ackId));
    }

    method AckAll(holder: Holder) returns (n: nat, removed: seq<Item>)
      requires Valid()
      modifies this
      ensures Valid() && View() == Step(old(View()), QueueModel.AckAll(holder))
      ensures n == |AllHeld(old(entries), holder)|
      ensures removed == ItemsOf(old(entries), Sorted(AllHeld(old(entries), holder)))
      ensures notifications == old(notifications) + if Wakes(old(View()), QueueModel.AckAll(holder)) then 1 else 0
    {
      hide Indexed, SeqsBelow, Wakes, Step, Sorted;
      n, removed := AckWhere(holder, (e: Entry) => true, QueueModel.AckAll(holder));
    }

    /** Removes the item `s` if `holder` leases it. */
    method AckSeq(holder: Holder, s: nat) returns (acked: bool)
      requires Valid()
      modifies this
      ensures Valid() && View() == Step(old(View()), QueueModel.AckSeq(holder, s))
      ensures acked <==> s in old(entries) && HeldBy(old(entries)[s], holder)
      ensures notifications == old(notifications) + if Wakes(old(View()), QueueModel.AckSeq(holder, s)) then 1 else 0
    {
      hide QueueSide, LeaseSide, HolderSide, Weight, Eligible;
      ghost var was := View();
      Holds(entries, leases, holder, s);
      if !(holder in leases && s in leases[holder]) {
        assert entries - {} == entries;
        return false;
      }
      var removed := Remove(s);
      SeqsBelowPart(was.entries, entries, nextSeq);
      assert s in Acked(was, QueueModel.AckSeq(holder, s));
      if cfg.ordering.PerKey? && removed.Some? && removed.value.key.Some? {
        notifications := notifications + 1;
      }
      return true;
    }

    // ---- Giving back

    /** Returns the item `s`, if `holder` leases it, to its original position. */
    method ReleaseSeq(holder: Holder, s: nat) returns (released: bool)
      requires Valid()
      modifies this
      ensures Valid() && View() == Step(old(View()), Release(holder, s))
      ensures released <==> s in old(entries) && HeldBy(old(entries)[s], holder)
      ensures notifications == old(notifications) + if Wakes(old(View()), Release(holder, s)) then 1 else 0
    {
      hide QueueSide, LeaseSide, HolderSide, Weight, Eligible;
      Holds(entries, leases, holder, s);
      if !(holder in leases && s in leases[holder]) {
        return false;
      }
      ghost var was: Entries := entries;
      Requeue(s);
      assert entries == WithLease(was, {s}, None);
      notifications := notifications + 1;
      return true;
    }

    /** Returns the leases whose deadline is at or before `now` to their original positions. */
    method Expire(now: int) returns (n: nat)
      requires Valid()
      modifies this
      ensures Valid() && View() == Step(old(View()), QueueModel.Expire(now))
      ensures n == |Expired(old(entries), now)|
      ensures notifications == old(notifications) + if Wakes(old(View()), QueueModel.Expire(now)) then 1 else 0
    {
      hide QueueSide, LeaseSide, HolderSide, Weight, Eligible, WithLease, SeqsBelow, Sorted;
      ghost var was: Entries := entries;
      var expired := set h, s | h in leases && s in leases[h] && s in entries
                                && entries[s].lease.Some? && entries[s].lease.value.deadline <= now :: s;
      ExpiredFromIndex(entries, leases, now);
      assert expired == Expired(was, now);
      var seqs := Sorted(expired);
      ExpiredLeased(was, now);
      RequeueEach(seqs);
      SortedElements(expired);
      SeqsBelowLeased(was, expired, None, nextSeq);
      assert expired != {} <==> seqs != [];
      if seqs != [] {
        notifications := notifications + 1;
      }
      n := |seqs|;
    }

    method RequeueEach(seqs: seq<nat>)
      requires Indexed() && Increasing(seqs) && forall s | s in seqs :: s in entries && entries[s].lease.Some?
      modifies this`entries, this`available, this`queuedPerKey, this`eligible, this`leasedPerKey, this`leasedBytes, this`leases
      ensures Indexed() && entries == WithLease(old(entries), Elements(seqs), None)
    {
      hide Indexed, WithLease;
      ghost var was: Entries := entries;
      LeaseNone(was, None);
      for i := 0 to |seqs|
        invariant Indexed() && entries == WithLease(was, Elements(seqs[..i]), None)
      {
        LeaseOneMore(was, seqs, i, None);
        Requeue(seqs[i]);
      }
      assert seqs[..|seqs|] == seqs;
    }

    method Statistics() returns (stats: Stats)
      requires Valid()
      ensures stats == Stats(|Unleased(entries)|, |Leased(entries)|, |reservations.outstanding|, Weight(entries, false))
    {
      SplitSizes(entries, available, queuedPerKey);
      stats := Stats(|available|, |entries| - |available|, reservations.items, bytes);
    }

    // ---- Dropping

    /** Drops every unleased item: the unleased side of the index is cleared at once. */
    method Purge() returns (n: nat)
      requires Valid()
      modifies this
      ensures Valid() && View() == Step(old(View()), QueueModel.Purge) && notifications == old(notifications)
      ensures n == |Unleased(old(entries))|
    {
      hide QueueSide, LeaseSide, HolderSide, Weight, Eligible, Sorted, SeqsBelow, Unleased;
      ghost var was: Entries := entries;
      var taken := available;
      UnleasedFromIndex(entries, available, queuedPerKey);
      available := {};
      eligible := {};
      queuedPerKey := map[];
      SortedElements(taken);
      UnleasedThere(was);
      ForgetEach(Sorted(taken));
      NothingUnleased(was);
      SeqsBelowPart(was, entries, nextSeq);
      n := |taken|;
    }

    /** Removes the unleased entries `seqs` without touching the unleased side of the index. */
    method ForgetEach(seqs: seq<nat>)
      requires LeaseSide(entries, leasedPerKey, leasedBytes) && HolderSide(entries, leases) && bytes == Weight(entries, false)
      requires Increasing(seqs) && forall s | s in seqs :: s in entries && entries[s].lease.None?
      modifies this`entries, this`bytes
      ensures LeaseSide(entries, leasedPerKey, leasedBytes) && HolderSide(entries, leases) && bytes == Weight(entries, false)
      ensures entries == old(entries) - Elements(seqs)
    {
      hide LeaseSide, HolderSide, Weight;
      ghost var was: Entries := entries;
      assert was == was - Elements(seqs[..0]);
      for i := 0 to |seqs|
        invariant entries == was - Elements(seqs[..i]) && bytes == Weight(entries, false)
        invariant LeaseSide(entries, leasedPerKey, leasedBytes) && HolderSide(entries, leases)
      {
        ElementsGrow(seqs, i);
        var s := seqs[i];
        assert s in entries && entries[s].lease.None?;
        WeightWithout(entries, false, s);
        LeaseSideWithout(entries, leasedPerKey, leasedBytes, s);
        HolderSideWithout(entries, leases, s);
        bytes := bytes - entries[s].size;
        entries := entries - {s};
        assert entries == was - Elements(seqs[..i + 1]);
      }
      assert seqs[..|seqs|] == seqs;
    }

    method CountWhere(pred: Item -> bool) returns (n: nat)
      ensures n == |set s | s in entries && pred(entries[s].item)|
    {
      n := |set s | s in entries && pred(entries[s].item)|;
    }

    /** Drops the unleased items that match `pred`. */
    method PurgeWhere(pred: Item -> bool) returns (n: nat)
      requires Valid()
      modifies this
      ensures Valid() && View() == Step(old(View()), QueueModel.PurgeWhere(pred)) && notifications == old(notifications)
      ensures n == |Matching(old(entries), pred)|
      ensures forall s | s in old(entries) ::
                if old(entries)[s].lease.None? && pred(old(entries)[s].item) then s !in entries
                else s in entries && entries[s] == old(entries)[s]
    {
      MatchingGone(View(), pred);
      hide Sorted, Increasing, SeqsBelow, Elements, QueueSide, LeaseSide, HolderSide, Weight, Eligible;
      ghost var was: Entries := entries;
      UnleasedFromIndex(entries, available, queuedPerKey);
      var matched := set s | s in available && s in entries && pred(entries[s].item);
      assert matched == Matching(entries, pred);
      var seqs := Sorted(matched);
      SortedElements(matched);
      var _ := RemoveEach(seqs);
      SeqsBelowPart(was, entries, nextSeq);
      n := |seqs|;
    }

    method AllItems() returns (items: seq<Item>)
      ensures items == ItemsOf(entries, Sorted(entries.Keys))
    {
      items := ItemsOf(entries, Sorted(entries.Keys));
    }

    /** Removes every item, leased or not, and returns them in seq order. */
    method DrainAll() returns (items: seq<Item>)
      requires Valid()
      modifies this
      ensures Valid() && View() == Step(old(View()), QueueModel.DrainAll) && notifications == old(notifications)
      ensures items == ItemsOf(old(entries), Sorted(old(entries).Keys))
    {
      hide Increasing, Indexed, Sorted, Step, SeqsBelow;
      DrainStep(View());
      items := AllItems();
      Clear();
      NoSeqs(nextSeq);
    }

    method Clear()
      modifies this`entries, this`available, this`queuedPerKey, this`eligible, this`leasedPerKey, this`leasedBytes, this`leases, this`bytes
      ensures Indexed() && entries == map[]
    {
      hide QueueSide, LeaseSide, HolderSide, Weight, Eligible;
      EmptyIndexes();
      available, eligible, queuedPerKey := {}, {}, map[];
      leases, leasedPerKey := map[], map[];
      bytes, leasedBytes := 0, 0;
      entries := map[];
    }

    /** Applies `cfg` from the next call on and never drops items. */
    method SetConfig(cfg: Config)
      requires Valid()
      modifies this
      ensures Valid() && View() == Step(old(View()), QueueModel.SetConfig(cfg)) && notifications == old(notifications) + 1
    {
      this.cfg := cfg;
      notifications := notifications + 1;
    }
  }

  /** `lease` tells the item and the ack id stored under its seq. */
  ghost predicate Describes(lease: QueueModel.Lease, es: Entries) {
    && lease.seqNo in es
    && lease.item == es[lease.seqNo].item && lease.ackId == es[lease.seqNo].ackId
  }

  lemma AllDescribe(es: Entries, holder: Holder, minAckId: int)
    ensures forall s | s in Sorted(HeldFrom(es, holder, minAckId)) :: s in es
    ensures var held := ToLeases(es, Sorted(HeldFrom(es, holder, minAckId))); forall k :: 0 <= k < |held| ==> Describes(held[k], es)
  {
    hide Sorted;
  }

  function ItemsOf(es: Entries, seqs: seq<nat>): (items: seq<Item>)
    requires forall s | s in seqs :: s in es
    ensures |items| == |seqs| && forall i :: 0 <= i < |seqs| ==> items[i] == es[seqs[i]].item
  {
    seq(|seqs|, i requires 0 <= i < |seqs| => es[seqs[i]].item)
  }

  lemma OneEntryBeyond(es: Entries, fs: Entries, s: nat, key: Option<Key>)
    requires s in es && es[s].key == key
    requires forall r :: r != s ==> (r in es <==> r in fs) && (r in es ==> es[r] == fs[r])
    requires s in fs ==> fs[s].key == key
    ensures SameBeyond(es, fs, key) && forall r :: r in es && r in fs ==> es[r].key == fs[r].key
  {
  }

  lemma EligibleIsIn(es: Entries, k: Key)
    ensures EligibleOf(es, k).Some? ==> EligibleOf(es, k).value in Eligible(es)
  {
    if EligibleOf(es, k).Some? {
      EligibleOfKey(es, k, EligibleOf(es, k).value);
    }
  }

  lemma LeasedIsNotEligible(es: Entries, s: nat)
    requires s in es && es[s].lease.Some?
    ensures Eligible(es) - {s} == Eligible(es)
  {
  }

  lemma NotEligible(es: Entries, s: nat)
    requires s !in es
    ensures Eligible(es) - {s} == Eligible(es)
  {
  }

  lemma NewEntryBeyond(es: Entries, s: nat, e: Entry)
    requires s !in es
    ensures SameBeyond(es, es[s := e], e.key)
    ensures forall r :: r in es && r in es[s := e] ==> es[r].key == es[s := e][r].key
  {
  }

  lemma CommitStep(st: State, size: nat, item: Item, key: Option<Key>, ackId: int)
    ensures Step(st, Commit(size, item, key, ackId)) ==
            State(st.cfg, st.entries[st.nextSeq := Entry(item, key, ackId, size, None)],
                  st.reserved - multiset{size}, st.nextSeq + 1)
  {
  }

  lemma DrainStep(st: State)
    ensures Step(st, DrainAll) == st.(entries := map[])
  {
    assert st.entries - st.entries.Keys == map[];
  }

  lemma SeqsBelowNew(es: Entries, next: nat, e: Entry)
    requires SeqsBelow(es, next)
    ensures next !in es && SeqsBelow(es[next := e], next + 1)
  {
  }

  lemma SeqsBelowLeased(es: Entries, seqs: set<nat>, lease: Option<Holding>, next: nat)
    requires SeqsBelow(es, next)
    ensures SeqsBelow(WithLease(es, seqs, lease), next)
  {
  }

  lemma NoSeqs(next: nat)
    ensures SeqsBelow(map[], next)
  {
  }

  lemma SeqsBelowPart(es: Entries, fs: Entries, next: nat)
    requires SeqsBelow(es, next) && fs.Keys <= es.Keys
    ensures SeqsBelow(fs, next)
  {
  }

  lemma ElementsGrow(seqs: seq<nat>, i: nat)
    requires Increasing(seqs) && i < |seqs|
    ensures Elements(seqs[..i + 1]) == Elements(seqs[..i]) + {seqs[i]} && seqs[i] !in Elements(seqs[..i])
  {
    assert seqs[..i + 1] == seqs[..i] + [seqs[i]];
  }

  lemma BelowGone(st: State, holder: Holder, ackId: int)
    ensures var es, fs := st.entries, Step(st, QueueModel.AckBelow(holder, ackId)).entries;
            forall s | s in es ::
              if HeldBy(es[s], holder) && es[s].ackId < ackId then s !in fs else s in fs && fs[s] == es[s]
  {
  }

  lemma MatchingGone(st: State, pred: Item -> bool)
    ensures var es, fs := st.entries, Step(st, QueueModel.PurgeWhere(pred)).entries;
            forall s | s in es ::
              if es[s].lease.None? && pred(es[s].item) then s !in fs else s in fs && fs[s] == es[s]
  {
  }

  // ---- Eviction

  lemma SplitSizes(es: Entries, available: set<nat>, queued: map<Key, set<nat>>)
    requires QueueSide(es, available, queued)
    ensures |available| <= |es| && |es| - |available| == |Leased(es)|
  {
    assert es.Keys == Unleased(es) + Leased(es);
  }

  lemma RefusalCases(st: State, size: nat, late: Totals)
    ensures size > st.cfg.capacityBytes ==> Refusal(st, size, late) == Some(TooLarge)
    ensures size <= st.cfg.capacityBytes ==>
              Refusal(st, size, late) ==
              var full := RoomFor(st.cfg, Seen(st, late), st.entries, size);
              if full.None? then None
              else if st.cfg.onFull.Backpressure? then full
              else Room(st.cfg, Seen(st, late), |Leased(st.entries)|, Weight(st.entries, true), size)
    ensures RoomFor(st.cfg, Seen(st, late), st.entries, size).None? ==>
              Evicted(st.cfg, Seen(st, late), st.entries, size) == st.entries
  {
  }

  lemma SeenTotals(st: State, late: Totals, seen: Totals)
    requires seen == Totals(|st.reserved| + late.items, Total(st.reserved) + late.bytes)
    ensures seen == Seen(st, late)
  {
  }

  /** What a reservation does once it is decided. */
  lemma ReserveCases(st: State, size: nat, late: Totals)
    ensures Refusal(st, size, late).Some? ==> Step(st, Reserve(size, late)) == st
    ensures Refusal(st, size, late).None? ==>
              var es := Evicted(st.cfg, Seen(st, late), st.entries, size);
              && Step(st, Reserve(size, late)) == st.(entries := es, reserved := st.reserved + multiset{size})
              && Removed(st, Reserve(size, late)) == st.entries.Keys - es.Keys
  {
    hide Refusal, Evicted;
  }

  /** While there is no room although the leased items alone would leave some, an unleased item exists. */
  lemma OldestExists(st: State, seen: Totals, size: nat)
    requires RoomFor(st.cfg, seen, st.entries, size).Some?
    requires Room(st.cfg, seen, |Leased(st.entries)|, Weight(st.entries, true), size).None?
    ensures Unleased(st.entries) != {}
  {
    if Unleased(st.entries) == {} {
      LeasedWeight(st.entries);
    }
  }

  lemma NoMoreEvicted(cfg: Config, seen: Totals, es: Entries, size: nat)
    requires RoomFor(cfg, seen, es, size).None?
    ensures Evicted(cfg, seen, es, size) == es
  {
  }

  lemma EvictOne(st: State, was: Entries, seen: Totals, oldest: nat, size: nat)
    requires Unleased(st.entries) != {} && oldest == Least(Unleased(st.entries)) && st.entries.Keys <= was.Keys
    requires RoomFor(st.cfg, seen, st.entries, size).Some?
    ensures oldest in st.entries
    ensures var es, fs := st.entries, st.entries - {oldest};
            && Evicted(st.cfg, seen, es, size) == Evicted(st.cfg, seen, fs, size)
            && Leased(fs) == Leased(es) && Weight(fs, true) == Weight(es, true)
            && |fs| < |es| && fs.Keys <= was.Keys && |was.Keys - fs.Keys| == |was.Keys - es.Keys| + 1
  {
    hide RoomFor, Weight;
    var es, fs := st.entries, st.entries - {oldest};
    WeightWithout(es, true, oldest);
    assert fs.Keys == es.Keys - {oldest};
    assert was.Keys - fs.Keys == (was.Keys - es.Keys) + {oldest};
  }

  // ---- Leasing

  lemma Candidates(st: State, available: set<nat>, queued: map<Key, set<nat>>)
    requires QueueSide(st.entries, available, queued)
    ensures LeasableSet(st) == if st.cfg.ordering.Free? then available else Eligible(st.entries)
  {
    LeasableFree(st.entries);
  }

  lemma PickedUnleased(st: State, max: nat)
    ensures Increasing(Picked(st, max))
    ensures forall s | s in Picked(st, max) :: s in st.entries && st.entries[s].lease.None?
  {
    hide Picked, Increasing, Sorted, Take;
    PickedIsTake(st, max);
    TakeOfSorted(LeasableSet(st), max);
  }

  lemma LeaseNone(es: Entries, lease: Option<Holding>)
    ensures WithLease(es, {}, lease) == es && Elements([]) == {} && ToLeases(es, []) == []
  {
  }

  lemma LeaseOneMore(es: Entries, seqs: seq<nat>, i: nat, lease: Option<Holding>)
    requires Increasing(seqs) && i < |seqs| && seqs[i] in es
    ensures var fs := WithLease(es, Elements(seqs[..i]), lease);
            && seqs[i] in fs && fs[seqs[i]] == es[seqs[i]]
            && WithLease(es, Elements(seqs[..i + 1]), lease) == fs[seqs[i] := es[seqs[i]].(lease := lease)]
  {
    ElementsGrow(seqs, i);
  }

  lemma LeasesRecorded(es: Entries, leases: map<Holder, set<nat>>, holder: Holder, picked: set<nat>, deadline: int)
    requires HolderSide(es, leases) && picked != {}
    requires forall s | s in picked :: s in es && es[s].lease.None?
    ensures HolderSide(WithLease(es, picked, Some(Holding(holder, deadline))),
                       leases[holder := (if holder in leases then leases[holder] else {}) + picked])
  {
    var fs := WithLease(es, picked, Some(Holding(holder, deadline)));
    forall h
      ensures Members(fs, HolderGroup, h) == Members(es, HolderGroup, h) + if h == holder then picked else {}
    {
    }
  }

  lemma HeldFromIndex(es: Entries, leases: map<Holder, set<nat>>, holder: Holder, minAckId: int)
    requires HolderSide(es, leases)
    ensures HeldFrom(es, holder, minAckId) <= AllHeld(es, holder)
    ensures holder !in leases ==> HeldFrom(es, holder, minAckId) == {}
    ensures holder in leases ==> leases[holder] == AllHeld(es, holder)
  {
    Holds(es, leases, holder, 0);
  }

  lemma KeepNone(among: set<nat>)
    ensures Keep([], among) == []
  {
  }

  lemma HeldFromPart(es: Entries, holder: Holder, minAckId: int)
    ensures HeldFrom(es, holder, minAckId) <= AllHeld(es, holder)
  {
  }

  lemma HeldStep(es: Entries, seqs: seq<nat>, i: nat, renewed: Option<Holding>, holder: Holder, minAckId: int)
    requires i < |seqs| && Increasing(seqs) && forall s :: s in seqs <==> s in AllHeld(es, holder)
    ensures var s, chosen := seqs[i], HeldFrom(es, holder, minAckId);
            var kept := Keep(seqs[..i], chosen);
            var fs := WithLease(es, Elements(kept), renewed);
            && s in es && s in fs && ToLease(fs, s) == ToLease(es, s)
            && (es[s].ackId >= minAckId <==> s in chosen)
            && Keep(seqs[..i + 1], chosen) == (if s in chosen then kept + [s] else kept)
            && WithLease(es, Elements(kept + [s]), renewed) == fs[s := fs[s].(lease := renewed)]
  {
    var s, chosen := seqs[i], HeldFrom(es, holder, minAckId);
    assert s in seqs;
    assert seqs[..i + 1] == seqs[..i] + [s];
    KeepSplit(seqs[..i], s, chosen);
    assert Elements(Keep(seqs[..i], chosen) + [s]) == Elements(Keep(seqs[..i], chosen)) + {s};
  }

  lemma {:induction false} KeepSplit(seqs: seq<nat>, s: nat, among: set<nat>)
    ensures Keep(seqs + [s], among) == Keep(seqs, among) + if s in among then [s] else []
  {
    hide Keep;
    KeepFirst(seqs + [s], among);
    if seqs == [] {
      assert seqs + [s] == [s] && [s][1..] == [];
      KeepNone(among);
    } else {
      assert (seqs + [s])[1..] == seqs[1..] + [s];
      KeepFirst(seqs, among);
      KeepSplit(seqs[1..], s, among);
    }
  }

  lemma KeepAll(seqs: seq<nat>, among: set<nat>)
    requires Increasing(seqs) && forall s | s in among :: s in seqs
    ensures Keep(seqs, among) == Sorted(among)
  {
    hide Keep;
    assert Elements(Keep(seqs, among)) == among;
    KeepsOrder(seqs, among);
    IncreasingIsSorted(Keep(seqs, among));
  }

  /** Renewing changes only deadlines. */
  ghost predicate SameButDeadlines(es: Entries, fs: Entries) {
    && es.Keys == fs.Keys
    && forall s | s in es ::
      && es[s].key == fs[s].key && es[s].size == fs[s].size
      && HolderGroup(es[s]) == HolderGroup(fs[s])
  }

  lemma RenewedIndexes(es: Entries, chosen: set<nat>, holder: Holder, deadline: int)
    requires chosen <= AllHeld(es, holder)
    ensures SameButDeadlines(es, WithLease(es, chosen, Some(Holding(holder, deadline))))
    ensures Eligible(WithLease(es, chosen, Some(Holding(holder, deadline)))) == Eligible(es)
    ensures Weight(WithLease(es, chosen, Some(Holding(holder, deadline))), false) == Weight(es, false)
  {
    var fs := WithLease(es, chosen, Some(Holding(holder, deadline)));
    assert forall r | r in es :: HolderGroup(es[r]) == HolderGroup(fs[r]);
    forall s
      ensures Leasable(es, PerKey, s) <==> Leasable(fs, PerKey, s)
    {
      if s in es {
        assert forall r | r in es :: (es[r].lease.None? <==> fs[r].lease.None?) && es[r].key == fs[r].key;
      }
    }
    SameWeight(es, fs, false);
  }

  lemma {:induction false} SameWeight(es: Entries, fs: Entries, leasedOnly: bool)
    requires SameButDeadlines(es, fs)
    ensures Weight(es, leasedOnly) == Weight(fs, leasedOnly)
    decreases |es|
  {
    if es != map[] {
      var s := Least(es.Keys);
      assert s in es && HolderGroup(es[s]) == HolderGroup(fs[s]);
      assert SameButDeadlines(es - {s}, fs - {s});
      SameWeight(es - {s}, fs - {s}, leasedOnly);
    }
  }

  lemma SameMembers<A(!new)>(es: Entries, fs: Entries, g: Entry -> Option<A>, a: A)
    requires es.Keys == fs.Keys && forall s | s in es :: g(es[s]) == g(fs[s])
    ensures Members(es, g, a) == Members(fs, g, a)
  {
  }

  lemma QueueSideSame(es: Entries, fs: Entries, available: set<nat>, queued: map<Key, set<nat>>)
    requires SameButDeadlines(es, fs) && QueueSide(es, available, queued)
    ensures QueueSide(fs, available, queued)
  {
    assert forall s | s in es :: HolderGroup(es[s]) == HolderGroup(fs[s]) && QueueGroup(es[s]) == QueueGroup(fs[s]);
    assert Unleased(es) == Unleased(fs);
    forall k {
      SameMembers(es, fs, QueueGroup, k);
    }
  }

  lemma LeaseSideSame(es: Entries, fs: Entries, counts: map<Key, nat>, bytes: nat)
    requires SameButDeadlines(es, fs) && LeaseSide(es, counts, bytes)
    ensures LeaseSide(fs, counts, bytes)
  {
    assert forall s | s in es :: HolderGroup(es[s]) == HolderGroup(fs[s]) && LeaseGroup(es[s]) == LeaseGroup(fs[s]);
    forall k {
      SameMembers(es, fs, LeaseGroup, k);
    }
    SameWeight(es, fs, true);
  }

  lemma HolderSideSame(es: Entries, fs: Entries, leases: map<Holder, set<nat>>)
    requires SameButDeadlines(es, fs) && HolderSide(es, leases)
    ensures HolderSide(fs, leases)
  {
    forall h {
      SameMembers(es, fs, HolderGroup, h);
    }
  }

  // ---- Acknowledging, expiring, dropping

  lemma SortedElements(s: set<nat>)
    ensures Elements(Sorted(s)) == s
  {
  }

  lemma FreedKey(es: Entries, seqs: seq<nat>, removed: seq<Entry>, gone: set<nat>)
    requires (forall s :: s in seqs <==> s in gone) && (forall s | s in seqs :: s in es)
    requires |removed| == |seqs| && forall i :: 0 <= i < |seqs| ==> removed[i] == es[seqs[i]]
    ensures (exists i :: 0 <= i < |removed| && removed[i].key.Some?) <==> exists s :: s in gone && s in es && es[s].key.Some?
  {
    if s :| s in gone && s in es && es[s].key.Some? {
      var i :| 0 <= i < |seqs| && seqs[i] == s;
      assert removed[i].key.Some?;
    }
    if i :| 0 <= i < |removed| && removed[i].key.Some? {
      assert seqs[i] in gone;
    }
  }

  lemma ExpiredFromIndex(es: Entries, leases: map<Holder, set<nat>>, now: int)
    requires HolderSide(es, leases)
    ensures Expired(es, now) == set h, s | h in leases && s in leases[h] && s in es
                                          && es[s].lease.Some? && es[s].lease.value.deadline <= now :: s
  {
    forall s | s in es && es[s].lease.Some?
      ensures es[s].lease.value.holder in leases && s in leases[es[s].lease.value.holder]
    {
      Holds(es, leases, es[s].lease.value.holder, s);
    }
  }

  lemma ExpiredLeased(es: Entries, now: int)
    ensures forall s | s in Expired(es, now) :: s in es && es[s].lease.Some?
  {
  }

  lemma UnleasedThere(es: Entries)
    ensures forall s | s in Unleased(es) :: s in es && es[s].lease.None?
  {
  }

  lemma UnleasedFromIndex(es: Entries, available: set<nat>, queued: map<Key, set<nat>>)
    requires QueueSide(es, available, queued)
    ensures available == Unleased(es)
  {
  }

  lemma EmptyIndexes()
    ensures QueueSide(map[], {}, map[]) && LeaseSide(map[], map[], 0) && HolderSide(map[], map[])
    ensures Eligible(map[]) == {} && Weight(map[], false) == 0
  {
  }

  lemma NothingUnleased(es: Entries)
    ensures QueueSide(es - Unleased(es), {}, map[]) && Eligible(es - Unleased(es)) == {}
  {
    var fs := es - Unleased(es);
    forall k
      ensures Members(fs, QueueGroup, k) == {}
    {
    }
  }
}
