/**
 What every operation and every run of the lease queue keeps, on the naive
 model that `LeaseQueue` refines.
 */
module QueueRuns {
  import opened Wrappers
  import opened SortedSets
  import opened QueueModel
  import opened QueueIndex

  predicate LegalRun(st: State, ops: seq<Op>)
    decreases |ops|
  {
    ops != [] ==> Legal(st, ops[0]) && LegalRun(Step(st, ops[0]), ops[1..])
  }

  function RunTo(st: State, ops: seq<Op>): State
    decreases |ops|
  {
    if ops == [] then st else RunTo(Step(st, ops[0]), ops[1..])
  }

  lemma {:induction false} RunSplit(st: State, ops: seq<Op>, i: nat)
    requires i <= |ops|
    ensures RunTo(st, ops) == RunTo(RunTo(st, ops[..i]), ops[i..])
    decreases i
  {
    hide Step;
    if i > 0 {
      assert ops[..i][0] == ops[0] && ops[..i][1..] == ops[1..][..i - 1] && ops[1..][i - 1..] == ops[i..];
      RunSplit(Step(st, ops[0]), ops[1..], i - 1);
    } else {
      assert ops[..0] == [] && ops[0..] == ops;
    }
  }

  // ---- Reserving evicts the shortest prefix of the oldest unleased items

  /** `p` are the oldest unleased items of `es`, as many as it has. */
  ghost predicate IsOldest(p: set<nat>, es: Entries) {
    p <= Unleased(es) && forall a, b :: a in p && b in Unleased(es) && b !in p ==> a < b
  }

  /** No fewer of the oldest would do. */
  ghost predicate IsShortest(cfg: Config, seen: Totals, es: Entries, size: nat, gone: set<nat>) {
    forall p :: p < gone && IsOldest(p, es) ==> RoomFor(cfg, seen, es - p, size).Some?
  }

  /** What eviction leaves of `es`. */
  ghost predicate IsEvicted(cfg: Config, seen: Totals, es: Entries, size: nat, fs: Entries) {
    var gone := es.Keys - fs.Keys;
    && fs == es - gone && IsOldest(gone, es) && IsShortest(cfg, seen, es, size, gone)
    && (RoomFor(cfg, seen, fs, size).None? || Unleased(fs) == {})
    && Leased(fs) == Leased(es) && Weight(fs, true) == Weight(es, true)
  }

  lemma {:induction false} EvictedShape(cfg: Config, seen: Totals, es: Entries, size: nat)
    ensures IsEvicted(cfg, seen, es, size, Evicted(cfg, seen, es, size))
    decreases |es|
  {
    hide IsEvicted, RoomFor;
    if RoomFor(cfg, seen, es, size).None? || Unleased(es) == {} {
      NothingEvicted(cfg, seen, es, size);
    } else {
      var rest := es - {Least(Unleased(es))};
      assert |rest| < |es| by { assert rest.Keys == es.Keys - {Least(Unleased(es))}; }
      EvictedShape(cfg, seen, rest, size);
      OneMoreEvicted(cfg, seen, es, size, Evicted(cfg, seen, rest, size));
    }
  }

  lemma OneMoreEvicted(cfg: Config, seen: Totals, es: Entries, size: nat, fs: Entries)
    requires Unleased(es) != {} && RoomFor(cfg, seen, es, size).Some?
    requires IsEvicted(cfg, seen, es - {Least(Unleased(es))}, size, fs)
    ensures IsEvicted(cfg, seen, es, size, fs)
  {
    hide RoomFor, Weight, IsOldest, IsShortest, Least;
    var o := Least(Unleased(es));
    var rest := es - {o};
    var gone := rest.Keys - fs.Keys;
    assert o in es && o !in fs;
    assert es.Keys - fs.Keys == gone + {o};
    assert rest - gone == es - (gone + {o});
    OldestFirst(es, gone);
    ShortestFirst(cfg, seen, es, size, gone);
    WeightWithout(es, true, o);
    assert Leased(rest) == Leased(es);
  }

  lemma NothingEvicted(cfg: Config, seen: Totals, es: Entries, size: nat)
    requires RoomFor(cfg, seen, es, size).None? || Unleased(es) == {}
    ensures IsEvicted(cfg, seen, es, size, es)
  {
    hide RoomFor, Weight;
    assert es.Keys - es.Keys == {} && es - {} == es;
  }

  lemma OldestFirst(es: Entries, gone: set<nat>)
    requires Unleased(es) != {} && IsOldest(gone, es - {Least(Unleased(es))})
    ensures IsOldest(gone + {Least(Unleased(es))}, es)
  {
    var o := Least(Unleased(es));
    assert Unleased(es - {o}) == Unleased(es) - {o};
  }

  lemma ShortestFirst(cfg: Config, seen: Totals, es: Entries, size: nat, gone: set<nat>)
    requires Unleased(es) != {} && RoomFor(cfg, seen, es, size).Some?
    requires IsShortest(cfg, seen, es - {Least(Unleased(es))}, size, gone)
    ensures IsShortest(cfg, seen, es, size, gone + {Least(Unleased(es))})
  {
    hide RoomFor;
    var o := Least(Unleased(es));
    assert Unleased(es - {o}) == Unleased(es) - {o};
    forall p | p < gone + {o} && IsOldest(p, es)
      ensures RoomFor(cfg, seen, es - p, size).Some?
    {
      if p == {} {
        assert es - p == es;
      } else {
        var a :| a in p;
        assert o in p;
        assert IsOldest(p - {o}, es - {o});
        assert p - {o} < gone;
        assert (es - {o}) - (p - {o}) == es - p;
      }
    }
  }

  /**
   A reservation that fails changes nothing; one that succeeds has evicted
   exactly the shortest prefix of the oldest unleased items that makes room next
   to the permits it saw, which are those outstanding unless some were dropped
   meanwhile, and there is room next to those outstanding either way.
   */
  lemma ReserveEvictsShortestPrefix(st: State, size: nat, late: Totals)
    ensures Refusal(st, size, late).Some? ==>
              Step(st, Reserve(size, late)) == st && Removed(st, Reserve(size, late)) == {}
    ensures Refusal(st, size, late).None? ==>
              var gone, after := Removed(st, Reserve(size, late)), Step(st, Reserve(size, late));
              && after.entries == st.entries - gone && after.reserved == st.reserved + multiset{size}
              && IsOldest(gone, st.entries) && IsShortest(st.cfg, Seen(st, late), st.entries, size, gone)
              && RoomFor(st.cfg, Seen(st, late), after.entries, size).None?
              && RoomFor(st.cfg, Seen(st, NoTotals), after.entries, size).None?
  {
    hide Weight, Total, IsOldest, IsShortest, Evicted, RoomFor, Room, Refusal, Unleased, Leased, Seen;
    if Refusal(st, size, late).Some? {
      assert st.entries.Keys - st.entries.Keys == {};
    } else {
      EvictedShape(st.cfg, Seen(st, late), st.entries, size);
      GrantedHasRoom(st, size, late);
    }
  }

  lemma GrantedHasRoom(st: State, size: nat, late: Totals)
    requires Refusal(st, size, late).None?
    ensures var fs := Evicted(st.cfg, Seen(st, late), st.entries, size);
            && RoomFor(st.cfg, Seen(st, late), fs, size).None?
            && RoomFor(st.cfg, Seen(st, NoTotals), fs, size).None?
  {
    hide Weight, Total, IsOldest, IsShortest, Evicted, Unleased, Leased;
    var fs := Evicted(st.cfg, Seen(st, late), st.entries, size);
    EvictedShape(st.cfg, Seen(st, late), st.entries, size);
    if RoomFor(st.cfg, Seen(st, late), st.entries, size).None? {
      EvictsNothing(st, size, late);
    } else if Unleased(fs) == {} {
      LeasedWeight(fs);
    }
    RoomNextToFewer(st.cfg, Seen(st, NoTotals), Seen(st, late), |fs|, Weight(fs, false), size);
  }

  lemma EvictsNothing(st: State, size: nat, late: Totals)
    requires RoomFor(st.cfg, Seen(st, late), st.entries, size).None?
    ensures Evicted(st.cfg, Seen(st, late), st.entries, size) == st.entries
  {
  }

  // ---- Permits dropped while a reservation runs

  /** Room next to more permits is room next to fewer. */
  lemma RoomNextToFewer(cfg: Config, few: Totals, many: Totals, items: nat, bytes: nat, size: nat)
    requires few.items <= many.items && few.bytes <= many.bytes
    ensures Room(cfg, many, items, bytes, size).None? ==> Room(cfg, few, items, bytes, size).None?
  {
  }

  /** Of two sets of the oldest items, one is part of the other. */
  lemma OldestNest(p: set<nat>, q: set<nat>, es: Entries)
    requires IsOldest(p, es) && IsOldest(q, es)
    ensures p <= q || q < p
  {
    if !(p <= q) {
      var a :| a in p && a !in q;
      assert forall b | b in q :: b < a;
    }
  }

  /**
   Seeing permits that are dropped meanwhile at worst makes a reservation see
   less room than there is: what it is granted it would have been granted
   without them, and it evicts at least what it would then have evicted.
   */
  lemma LatePermitsOnlyCostRoom(st: State, size: nat, late: Totals)
    requires Refusal(st, size, late).None?
    ensures Refusal(st, size, NoTotals).None?
    ensures Removed(st, Reserve(size, NoTotals)) <= Removed(st, Reserve(size, late))
  {
    hide Weight, Total, IsOldest, Evicted, Removed, Unleased, Leased;
    RefusedLate(st, size, late);
    ReserveEvictsShortestPrefix(st, size, late);
    ReserveEvictsShortestPrefix(st, size, NoTotals);
    OldestNest(Removed(st, Reserve(size, NoTotals)), Removed(st, Reserve(size, late)), st.entries);
  }

  lemma RefusedLate(st: State, size: nat, late: Totals)
    requires Refusal(st, size, late).None?
    ensures Refusal(st, size, NoTotals).None?
  {
    hide Weight, Total, Leased;
    var few, many := Seen(st, NoTotals), Seen(st, late);
    RoomNextToFewer(st.cfg, few, many, |st.entries|, Weight(st.entries, false), size);
    RoomNextToFewer(st.cfg, few, many, |Leased(st.entries)|, Weight(st.entries, true), size);
  }

  // ---- When a reservation is granted

  /** One more item of `size` is within both limits beside `es`, the permits outstanding and the `late` ones seen. */
  ghost predicate Fits(st: State, late: Totals, es: Entries, size: nat) {
    && |es| + |st.reserved| + late.items < st.cfg.capacity
    && Weight(es, false) + Total(st.reserved) + late.bytes + size <= st.cfg.capacityBytes
  }

  lemma RoomIffFits(st: State, late: Totals, es: Entries, size: nat)
    ensures RoomFor(st.cfg, Seen(st, late), es, size).None? <==> Fits(st, late, es, size)
    ensures RoomFor(st.cfg, Seen(st, late), es, size) == Some(Items) <==> |es| + |st.reserved| + late.items >= st.cfg.capacity
    ensures RoomFor(st.cfg, Seen(st, late), es, size) != Some(TooLarge)
  {
    hide Weight, Total;
  }

  lemma {:induction false} LeasedPart(es: Entries)
    ensures var fs := es - Unleased(es); Weight(fs, false) == Weight(es, true) && fs.Keys == Leased(es)
    decreases |es|
  {
    hide Weight;
    if Unleased(es) == {} {
      assert es - Unleased(es) == es;
      LeasedWeight(es);
    } else {
      var s :| s in Unleased(es);
      assert Unleased(es - {s}) == Unleased(es) - {s};
      assert (es - {s}) - Unleased(es - {s}) == es - Unleased(es);
      assert |es - {s}| < |es| by { assert (es - {s}).Keys == es.Keys - {s}; }
      WeightWithout(es, true, s);
      LeasedPart(es - {s});
    }
  }

  /**
   A reservation is granted as things are exactly when the item fits; with
   `DropOldest` exactly when it fits once enough unleased items are gone. It is
   too large exactly when it could never fit, and otherwise the item limit is
   named exactly when the items that cannot go, or under `Backpressure` all of
   them, reach it.
   */
  lemma GrantedIffFits(st: State, size: nat, late: Totals)
    ensures var r, es := Refusal(st, size, late), st.entries;
            && (r == Some(TooLarge) <==> size > st.cfg.capacityBytes)
            && (Fits(st, late, es, size) ==> r.None? && Removed(st, Reserve(size, late)) == {})
            && (st.cfg.onFull.Backpressure? ==> (r.None? <==> Fits(st, late, es, size)))
            && (st.cfg.onFull.DropOldest? ==> (r.None? <==> exists gone :: gone <= Unleased(es) && Fits(st, late, es - gone, size)))
            && (r == Some(Items) <==>
              && size <= st.cfg.capacityBytes && !Fits(st, late, es, size)
              && (if st.cfg.onFull.Backpressure? then |es| else |Leased(es)|) + |st.reserved| + late.items >= st.cfg.capacity)
  {
    hide Weight, Total, Fits, RoomFor, Room, Seen, Unleased, Leased;
    var es, seen := st.entries, Seen(st, late);
    TooLargeNeverFits(st, size, late);
    RoomIffFits(st, late, es, size);
    LeasedRoom(st, late, size);
    if Fits(st, late, es, size) {
      EvictsNothing(st, size, late);
      assert es.Keys - es.Keys == {} && es - {} == es;
      assert {} <= Unleased(es) && Fits(st, late, es - {}, size);
    }
    forall gone | gone <= Unleased(es) && Fits(st, late, es - gone, size)
      ensures Fits(st, late, es - Unleased(es), size)
    {
      FitsWithFewer(st, late, gone, size);
    }
  }

  lemma TooLargeNeverFits(st: State, size: nat, late: Totals)
    ensures size > st.cfg.capacityBytes ==> forall es :: !Fits(st, late, es, size)
  {
    hide Weight, Total;
  }

  lemma LeasedRoom(st: State, late: Totals, size: nat)
    ensures var r := Room(st.cfg, Seen(st, late), |Leased(st.entries)|, Weight(st.entries, true), size);
            && (r.None? <==> Fits(st, late, st.entries - Unleased(st.entries), size))
            && (r == Some(Items) <==> |Leased(st.entries)| + |st.reserved| + late.items >= st.cfg.capacity)
            && r != Some(TooLarge)
  {
    hide Weight, Total;
    LeasedPart(st.entries);
  }

  lemma FitsWithFewer(st: State, late: Totals, gone: set<nat>, size: nat)
    requires gone <= Unleased(st.entries) && Fits(st, late, st.entries - gone, size)
    ensures Fits(st, late, st.entries - Unleased(st.entries), size)
  {
    hide Weight, Total;
    var es, all := st.entries, Unleased(st.entries);
    WeightOfPart(es - gone, all - gone);
    assert (es - gone) - (all - gone) == es - all;
  }

  // ---- What becomes of each entry

  predicate Leases(e: Entry, holder: Holder) {
    e.lease.Some? && e.lease.value.holder == holder
  }

  /** What `op` makes of the entry `e` at `s`, looked at on its own. */
  function EntryAfter(cfg: Config, op: Op, s: nat, e: Entry): Option<Entry>
    requires !op.LeaseTo? && !op.Reserve?
  {
    match op
    case AckBelow(holder, ackId) => if Leases(e, holder) && e.ackId < ackId then None else Some(e)
    case AckAll(holder) => if Leases(e, holder) then None else Some(e)
    case AckSeq(holder, r) => if s == r && Leases(e, holder) then None else Some(e)
    case Purge => if e.lease.None? then None else Some(e)
    case PurgeWhere(pred) => if e.lease.None? && pred(e.item) then None else Some(e)
    case DrainAll => None
    case Renew(holder, minAckId, now) =>
      if Leases(e, holder) && e.ackId >= minAckId then Some(e.(lease := Some(Holding(holder, now + cfg.leaseTimeout)))) else Some(e)
    case Release(holder, r) => if s == r && Leases(e, holder) then Some(e.(lease := None)) else Some(e)
    case Expire(now) => if e.lease.Some? && e.lease.value.deadline <= now then Some(e.(lease := None)) else Some(e)
    case _ => Some(e)
  }

  function Lookup(es: Entries, s: nat): Option<Entry> {
    if s in es then Some(es[s]) else None
  }

  /** Every operation but a lease and a reservation does to each entry what it does to that entry alone; a commit adds its own. */
  lemma EntriesAfter(st: State, op: Op, s: nat)
    requires !op.LeaseTo? && !op.Reserve? && SeqsBelow(st.entries, st.nextSeq)
    ensures Lookup(Step(st, op).entries, s) ==
            if s in st.entries then EntryAfter(st.cfg, op, s, st.entries[s])
            else if op.Commit? && s == st.nextSeq then Some(Entry(op.item, op.key, op.ackId, op.size, None))
            else None
  {
  }

  /** A poll from `ackId` on acknowledges and renews apart: together exactly what the holder leases. */
  lemma AckBelowRenewFrom(st: State, holder: Holder, ackId: int)
    ensures Acked(st, AckBelow(holder, ackId)) !! HeldFrom(st.entries, holder, ackId)
    ensures Acked(st, AckBelow(holder, ackId)) + HeldFrom(st.entries, holder, ackId) == AllHeld(st.entries, holder)
    ensures forall s | s in st.entries && Leases(st.entries[s], holder) && st.entries[s].ackId >= ackId ::
              Lookup(Step(st, AckBelow(holder, ackId)).entries, s) == Some(st.entries[s])
  {
  }

  // ---- Limits

  /** Stored and reserved items. */
  function ItemsUsed(st: State): nat {
    |st.entries| + |st.reserved|
  }

  /** Stored and reserved bytes. */
  function BytesUsed(st: State): nat {
    Weight(st.entries, false) + Total(st.reserved)
  }

  lemma {:induction false} WeightOfPart(es: Entries, gone: set<nat>)
    requires gone <= es.Keys
    ensures Weight(es - gone, false) <= Weight(es, false) && |es - gone| <= |es|
    decreases |gone|
  {
    if gone == {} {
      assert es - gone == es;
    } else {
      var s :| s in gone;
      WeightOfPart(es - {s}, gone - {s});
      assert (es - {s}) - (gone - {s}) == es - gone;
      WeightWithout(es, false, s);
      assert (es - {s}).Keys == es.Keys - {s};
    }
  }

  lemma {:induction false} WeightOfLeased(es: Entries, seqs: set<nat>, lease: Option<Holding>)
    ensures Weight(WithLease(es, seqs, lease), false) == Weight(es, false) && |WithLease(es, seqs, lease)| == |es|
    decreases |es|
  {
    var fs := WithLease(es, seqs, lease);
    assert fs.Keys == es.Keys;
    if es != map[] {
      var s := Least(es.Keys);
      assert fs - {s} == WithLease(es - {s}, seqs, lease);
      assert |es - {s}| < |es| by { assert (es - {s}).Keys == es.Keys - {s}; }
      WeightOfLeased(es - {s}, seqs, lease);
      assert s in fs && fs != map[];
    }
  }

  /** No operation but `SetConfig` takes a total above its limit, or further above it. */
  lemma StepKeepsLimits(st: State, op: Op)
    requires SeqsBelow(st.entries, st.nextSeq) && Legal(st, op) && !op.SetConfig?
    ensures Step(st, op).cfg == st.cfg
    ensures ItemsUsed(Step(st, op)) <= Max(ItemsUsed(st), st.cfg.capacity)
    ensures BytesUsed(Step(st, op)) <= Max(BytesUsed(st), st.cfg.capacityBytes)
    ensures !op.Reserve? ==> ItemsUsed(Step(st, op)) <= ItemsUsed(st) && BytesUsed(Step(st, op)) <= BytesUsed(st)
  {
    hide ItemsUsed, BytesUsed, Step;
    match op {
      case Reserve(size, late) => ReserveKeepsLimits(st, size, late);
      case Cancel(size) => PermitKeepsTotals(st, op, size);
      case Commit(size, _, _, _) => PermitKeepsTotals(st, op, size);
      case LeaseTo(_, _, _) => LeasesKeepTotals(st, op);
      case Renew(_, _, _) => LeasesKeepTotals(st, op);
      case Release(_, _) => LeasesKeepTotals(st, op);
      case Expire(_) => LeasesKeepTotals(st, op);
      case _ => RemovalKeepsLimits(st, op);
    }
  }

  lemma ReserveKeepsLimits(st: State, size: nat, late: Totals)
    ensures var after := Step(st, Reserve(size, late));
            && after.cfg == st.cfg
            && ItemsUsed(after) <= Max(ItemsUsed(st), st.cfg.capacity)
            && BytesUsed(after) <= Max(BytesUsed(st), st.cfg.capacityBytes)
  {
    hide Weight, Total, Evicted, Refusal, IsOldest, IsShortest, Removed;
    ReserveEvictsShortestPrefix(st, size, late);
    TotalWith(st.reserved, size);
  }

  lemma PermitKeepsTotals(st: State, op: Op, size: nat)
    requires SeqsBelow(st.entries, st.nextSeq) && size in st.reserved
    requires op == Cancel(size) || (op.Commit? && op.size == size)
    ensures Step(st, op).cfg == st.cfg && ItemsUsed(Step(st, op)) <= ItemsUsed(st) && BytesUsed(Step(st, op)) <= BytesUsed(st)
  {
    hide Weight, Total;
    TotalWithout(st.reserved, size);
    if op.Commit? {
      WeightWith(st.entries, false, st.nextSeq, Entry(op.item, op.key, op.ackId, size, None));
    }
  }

  /**
   A permit is paid back exactly: committing turns its room into the item's, and
   cancelling undoes the reservation but for what it evicted. Only a config
   change changes the config.
   */
  lemma PermitAccount(st: State, op: Op)
    requires SeqsBelow(st.entries, st.nextSeq) && Legal(st, op)
    ensures Step(st, op).cfg == if op.SetConfig? then op.cfg else st.cfg
    ensures op.Commit? ==> ItemsUsed(Step(st, op)) == ItemsUsed(st) && BytesUsed(Step(st, op)) == BytesUsed(st)
    ensures op.Cancel? ==> ItemsUsed(Step(st, op)) + 1 == ItemsUsed(st) && BytesUsed(Step(st, op)) + op.size == BytesUsed(st)
    ensures op.Reserve? && Refusal(st, op.size, op.late).None? ==>
              Step(Step(st, op), Cancel(op.size)) == st.(entries := st.entries - Removed(st, op))
  {
    hide Weight, Total, Evicted, Refusal, Picked, WithLease, Removed;
    if op.Commit? || op.Cancel? {
      PermitPaidBack(st, op);
    } else if op.Reserve? && Refusal(st, op.size, op.late).None? {
      ReservedUndone(st, op);
    }
  }

  lemma PermitPaidBack(st: State, op: Op)
    requires SeqsBelow(st.entries, st.nextSeq) && Legal(st, op) && (op.Commit? || op.Cancel?)
    ensures op.Commit? ==> ItemsUsed(Step(st, op)) == ItemsUsed(st) && BytesUsed(Step(st, op)) == BytesUsed(st)
    ensures op.Cancel? ==> ItemsUsed(Step(st, op)) + 1 == ItemsUsed(st) && BytesUsed(Step(st, op)) + op.size == BytesUsed(st)
  {
    hide Weight, Total;
    TotalWithout(st.reserved, op.size);
    if op.Commit? {
      WeightWith(st.entries, false, st.nextSeq, Entry(op.item, op.key, op.ackId, op.size, None));
      assert st.entries[st.nextSeq := Entry(op.item, op.key, op.ackId, op.size, None)].Keys == st.entries.Keys + {st.nextSeq};
    }
  }

  lemma ReservedUndone(st: State, op: Op)
    requires op.Reserve? && Refusal(st, op.size, op.late).None?
    ensures Step(Step(st, op), Cancel(op.size)) == st.(entries := st.entries - Removed(st, op))
  {
    hide Removed, Seen, IsOldest, IsShortest, RoomFor, Evicted, Refusal;
    ReserveEvictsShortestPrefix(st, op.size, op.late);
    assert st.reserved + multiset{op.size} - multiset{op.size} == st.reserved;
  }

  /** Leasing, renewing and giving back only change leases. */
  lemma LeaseStep(st: State, op: Op) returns (seqs: set<nat>, lease: Option<Holding>)
    requires op.LeaseTo? || op.Renew? || op.Release? || op.Expire?
    ensures Step(st, op) == st.(entries := WithLease(st.entries, seqs, lease))
  {
    hide Picked, WithLease, Elements, HeldFrom, Expired;
    match op {
      case LeaseTo(holder, max, now) =>
        seqs, lease := Elements(Picked(st, max)), Some(Holding(holder, now + st.cfg.leaseTimeout));
      case Renew(holder, minAckId, now) =>
        seqs, lease := HeldFrom(st.entries, holder, minAckId), Some(Holding(holder, now + st.cfg.leaseTimeout));
      case Release(holder, s) =>
        seqs, lease := if s in st.entries && HeldBy(st.entries[s], holder) then {s} else {}, None;
        NoLeaseChange(st.entries, None);
      case Expire(now) =>
        seqs, lease := Expired(st.entries, now), None;
    }
  }

  lemma NoLeaseChange(es: Entries, lease: Option<Holding>)
    ensures WithLease(es, {}, lease) == es
  {
  }

  lemma LeasesKeepTotals(st: State, op: Op)
    requires op.LeaseTo? || op.Renew? || op.Release? || op.Expire?
    ensures Step(st, op).cfg == st.cfg
    ensures ItemsUsed(Step(st, op)) == ItemsUsed(st) && BytesUsed(Step(st, op)) == BytesUsed(st)
  {
    hide Weight, Total, WithLease, Step;
    var seqs, lease := LeaseStep(st, op);
    WeightOfLeased(st.entries, seqs, lease);
  }

  lemma RemovalKeepsLimits(st: State, op: Op)
    requires op.AckBelow? || op.AckAll? || op.AckSeq? || op.Purge? || op.PurgeWhere? || op.DrainAll?
    ensures Step(st, op).cfg == st.cfg && ItemsUsed(Step(st, op)) <= ItemsUsed(st) && BytesUsed(Step(st, op)) <= BytesUsed(st)
  {
    hide Weight, Total, Removed, Step;
    StepKeys(st, op);
    RemovalStep(st, op);
    WeightOfPart(st.entries, Removed(st, op));
  }

  lemma RemovalStep(st: State, op: Op)
    requires op.AckBelow? || op.AckAll? || op.AckSeq? || op.Purge? || op.PurgeWhere? || op.DrainAll?
    ensures Step(st, op) == st.(entries := st.entries - Removed(st, op))
  {
    hide Removed;
  }

  lemma StepKeepsSeqs(st: State, op: Op)
    requires SeqsBelow(st.entries, st.nextSeq)
    ensures SeqsBelow(Step(st, op).entries, Step(st, op).nextSeq)
  {
    hide Step, Removed;
    StepKeys(st, op);
  }

  /** From the start of any stretch without a config change, totals above a limit only fall, and others stay under it. */
  lemma {:induction false} RunKeepsLimits(st: State, ops: seq<Op>)
    requires SeqsBelow(st.entries, st.nextSeq) && LegalRun(st, ops) && forall op | op in ops :: !op.SetConfig?
    ensures RunTo(st, ops).cfg == st.cfg
    ensures ItemsUsed(RunTo(st, ops)) <= Max(ItemsUsed(st), st.cfg.capacity)
    ensures BytesUsed(RunTo(st, ops)) <= Max(BytesUsed(st), st.cfg.capacityBytes)
    decreases |ops|
  {
    hide ItemsUsed, BytesUsed, Step, Legal, SeqsBelow;
    if ops != [] {
      assert ops[0] in ops;
      StepKeepsLimits(st, ops[0]);
      StepKeepsSeqs(st, ops[0]);
      RunKeepsLimits(Step(st, ops[0]), ops[1..]);
    }
  }

  // ---- Conservation

  /** Everything the run removed. */
  function Gone(st: State, ops: seq<Op>): set<nat>
    decreases |ops|
  {
    if ops == [] then {} else Removed(st, ops[0]) + Gone(Step(st, ops[0]), ops[1..])
  }

  lemma StepKeys(st: State, op: Op)
    ensures Removed(st, op) <= st.entries.Keys
    ensures Step(st, op).entries.Keys == st.entries.Keys - Removed(st, op) + if op.Commit? then {st.nextSeq} else {}
    ensures Step(st, op).nextSeq == if op.Commit? then st.nextSeq + 1 else st.nextSeq
  {
    hide Evicted, Picked, IsOldest, IsShortest, Weight, RoomFor, Leased;
    match op {
      case Reserve(size, late) => EvictedShape(st.cfg, Seen(st, late), st.entries, size);
      case Cancel(_) =>
      case Commit(_, _, _, _) =>
      case LeaseTo(_, _, _) => LeaseKeys(st, op);
      case Renew(_, _, _) => LeaseKeys(st, op);
      case Release(_, _) => LeaseKeys(st, op);
      case Expire(_) => LeaseKeys(st, op);
      case SetConfig(_) =>
      case _ => RemovalKeys(st, op);
    }
  }

  lemma LeaseKeys(st: State, op: Op)
    requires op.LeaseTo? || op.Renew? || op.Release? || op.Expire?
    ensures Step(st, op).entries.Keys == st.entries.Keys && Step(st, op).nextSeq == st.nextSeq
  {
    hide Step;
    var seqs, lease := LeaseStep(st, op);
  }

  lemma RemovalKeys(st: State, op: Op)
    requires op.AckBelow? || op.AckAll? || op.AckSeq? || op.Purge? || op.PurgeWhere? || op.DrainAll?
    ensures Removed(st, op) <= st.entries.Keys && Step(st, op).entries.Keys == st.entries.Keys - Removed(st, op)
  {
    assert Step(st, op).entries == st.entries - Removed(st, op);
  }

  /**
   In every run each item committed is still stored or was removed, and it was
   removed once: what a step removes was stored until then, and never comes back.
   */
  lemma {:induction false} EachItemLeavesOnce(st: State, ops: seq<Op>)
    requires SeqsBelow(st.entries, st.nextSeq)
    ensures var end := RunTo(st, ops);
            && SeqsBelow(end.entries, end.nextSeq) && st.nextSeq <= end.nextSeq
            && Gone(st, ops) !! end.entries.Keys
            && forall s :: s in Gone(st, ops) || s in end.entries <==> s in st.entries || st.nextSeq <= s < end.nextSeq
    ensures ops != [] ==> Removed(st, ops[0]) !! Gone(Step(st, ops[0]), ops[1..])
    decreases |ops|
  {
    hide Step, Removed;
    if ops != [] {
      var op, next := ops[0], Step(st, ops[0]);
      StepKeepsSeqs(st, op);
      StepKeys(st, op);
      EachItemLeavesOnce(next, ops[1..]);
    }
  }

  // ---- Leases come back

  lemma PickedAreUnleased(st: State, max: nat)
    ensures forall s | s in Elements(Picked(st, max)) :: s in st.entries && st.entries[s].lease.None?
  {
    hide Picked, Sorted;
    PickedIsTake(st, max);
    TakeOfSorted(LeasableSet(st), max);
  }

  /** Leases nobody renews come back at their deadline, every item where it was, and not before. */
  lemma ExpiryUndoesLease(st: State, holder: Holder, max: nat, now: int, later: int)
    requires Expired(st.entries, later) == {}
    ensures var leased := Step(st, LeaseTo(holder, max, now));
            Step(leased, Expire(later)) == if later >= now + st.cfg.leaseTimeout then st else leased
  {
    hide Picked;
    PickedAreUnleased(st, max);
    var picked, leased := Elements(Picked(st, max)), Step(st, LeaseTo(holder, max, now));
    assert forall s | s in st.entries && st.entries[s].lease.Some? :: s !in Expired(st.entries, later);
    if later >= now + st.cfg.leaseTimeout {
      assert Expired(leased.entries, later) == picked;
      assert WithLease(leased.entries, picked, None) == st.entries;
    } else {
      assert Expired(leased.entries, later) == {};
      NoLeaseChange(leased.entries, None);
    }
  }

  /** A renewed lease outlasts every expiry before its new deadline. */
  lemma RenewedOutlasts(st: State, holder: Holder, minAckId: int, now: int, later: int, s: nat)
    requires s in HeldFrom(st.entries, holder, minAckId) && later < now + st.cfg.leaseTimeout
    ensures var after := Step(Step(st, Renew(holder, minAckId, now)), Expire(later));
            s in after.entries && after.entries[s] == st.entries[s].(lease := Some(Holding(holder, now + st.cfg.leaseTimeout)))
  {
  }

  // ---- Leasing by key

  /** Under `PerKey` a lease goes only to the lowest live item of a key without a leased one. */
  lemma LeaseIsExclusive(st: State, holder: Holder, max: nat, now: int, s: nat)
    requires st.cfg.ordering.PerKey? && s in st.entries && st.entries[s].lease.None?
    requires AfterLease(st, holder, max, now).entries[s].lease.Some?
    ensures Leasable(st.entries, PerKey, s)
  {
    hide Leasable, Picked, Sorted;
    PickedIsTake(st, max);
    TakeOfSorted(LeasableSet(st), max);
  }

  /** Every leased item is the lowest live one of its key. */
  ghost predicate LeasedAreLowest(es: Entries) {
    forall r, s :: r in es && s in es && es[s].lease.Some? && es[s].key.Some? && es[r].key == es[s].key ==> s <= r
  }

  lemma PartKeepsLowest(es: Entries, gone: set<nat>)
    requires LeasedAreLowest(es)
    ensures LeasedAreLowest(es - gone)
  {
  }

  lemma UnleasingKeepsLowest(es: Entries, seqs: set<nat>)
    requires LeasedAreLowest(es)
    ensures LeasedAreLowest(WithLease(es, seqs, None))
  {
  }

  lemma RenewingKeepsLowest(es: Entries, seqs: set<nat>, lease: Option<Holding>)
    requires LeasedAreLowest(es) && seqs <= Leased(es)
    ensures LeasedAreLowest(WithLease(es, seqs, lease))
  {
  }

  lemma LeasingKeepsLowest(st: State, holder: Holder, max: nat, now: int)
    requires LeasedAreLowest(st.entries) && st.cfg.ordering.PerKey?
    ensures LeasedAreLowest(AfterLease(st, holder, max, now).entries)
  {
    hide Picked;
    var es, fs := st.entries, AfterLease(st, holder, max, now).entries;
    forall r, s | r in fs && s in fs && fs[s].lease.Some? && fs[s].key.Some? && fs[r].key == fs[s].key
      ensures s <= r
    {
      assert es[r].key == fs[r].key && es[s].key == fs[s].key;
      if es[s].lease.None? {
        LeaseIsExclusive(st, holder, max, now, s);
      }
    }
  }

  predicate StaysPerKey(op: Op) {
    op.SetConfig? ==> op.cfg.ordering.PerKey?
  }

  lemma StepKeepsLowest(st: State, op: Op)
    requires SeqsBelow(st.entries, st.nextSeq) && LeasedAreLowest(st.entries) && st.cfg.ordering.PerKey? && StaysPerKey(op)
    ensures LeasedAreLowest(Step(st, op).entries) && Step(st, op).cfg.ordering.PerKey?
  {
    hide Evicted, WithLease, AfterLease, LeasedAreLowest;
    match op {
      case Reserve(size, late) =>
        EvictedShape(st.cfg, Seen(st, late), st.entries, size);
        PartKeepsLowest(st.entries, Removed(st, op));
      case Cancel(_) =>
      case Commit(size, item, key, ackId) => CommitKeepsLowest(st, Entry(item, key, ackId, size, None));
      case LeaseTo(holder, max, now) => 
        LeasingKeepsLowest(st, holder, max, now);
        LeaseKeepsConfig(st, holder, max, now);
      case Renew(holder, minAckId, now) =>
        RenewingKeepsLowest(st.entries, HeldFrom(st.entries, holder, minAckId), Some(Holding(holder, now + st.cfg.leaseTimeout)));
      case Release(_, s) => UnleasingKeepsLowest(st.entries, {s});
      case Expire(now) => UnleasingKeepsLowest(st.entries, Expired(st.entries, now));
      case SetConfig(_) =>
      case _ => PartKeepsLowest(st.entries, Removed(st, op));
    }
  }

  lemma LeaseKeepsConfig(st: State, holder: Holder, max: nat, now: int)
    ensures AfterLease(st, holder, max, now).cfg == st.cfg
  {
  }

  lemma CommitKeepsLowest(st: State, e: Entry)
    requires SeqsBelow(st.entries, st.nextSeq) && LeasedAreLowest(st.entries) && e.lease.None?
    ensures LeasedAreLowest(st.entries[st.nextSeq := e])
  {
  }

  /** Every live item of `k`, and every seq still to come, is past `a`. */
  ghost predicate KeyPast(st: State, k: Key, a: nat) {
    a < st.nextSeq && forall s | s in st.entries && st.entries[s].key == Some(k) :: a < s
  }

  lemma StepKeepsFields(st: State, op: Op, s: nat)
    requires s in Step(st, op).entries && (op.Commit? ==> s != st.nextSeq)
    ensures s in st.entries && Step(st, op).entries[s].key == st.entries[s].key
  {
    hide Evicted, Picked;
    if op.Reserve? {
      EvictedShape(st.cfg, Seen(st, op.late), st.entries, op.size);
    }
  }

  lemma StepKeepsPast(st: State, op: Op, k: Key, a: nat)
    requires KeyPast(st, k, a)
    ensures KeyPast(Step(st, op), k, a)
  {
    hide Step;
    StepKeys(st, op);
    forall s | s in Step(st, op).entries && Step(st, op).entries[s].key == Some(k)
      ensures a < s
    {
      if !(op.Commit? && s == st.nextSeq) {
        StepKeepsFields(st, op, s);
      }
    }
  }

  lemma {:induction false} RunKeepsPast(st: State, ops: seq<Op>, k: Key, a: nat)
    requires KeyPast(st, k, a)
    ensures KeyPast(RunTo(st, ops), k, a)
    decreases |ops|
  {
    hide Step, KeyPast;
    if ops != [] {
      StepKeepsPast(st, ops[0], k, a);
      RunKeepsPast(Step(st, ops[0]), ops[1..], k, a);
    }
  }

  lemma {:induction false} RunKeepsLowest(st: State, ops: seq<Op>)
    requires SeqsBelow(st.entries, st.nextSeq) && LeasedAreLowest(st.entries) && st.cfg.ordering.PerKey?
    requires forall op | op in ops :: StaysPerKey(op)
    ensures var end := RunTo(st, ops); LeasedAreLowest(end.entries) && SeqsBelow(end.entries, end.nextSeq) && end.cfg.ordering.PerKey?
    decreases |ops|
  {
    hide Step, LeasedAreLowest, SeqsBelow;
    if ops != [] {
      assert ops[0] in ops;
      StepKeepsLowest(st, ops[0]);
      StepKeepsSeqs(st, ops[0]);
      RunKeepsLowest(Step(st, ops[0]), ops[1..]);
    }
  }

  lemma AckedAreLowest(st: State, op: Op, a: nat)
    requires LeasedAreLowest(st.entries) && a in Acked(st, op) && SeqsBelow(st.entries, st.nextSeq)
    ensures a in st.entries && st.entries[a].lease.Some?
    ensures st.entries[a].key.Some? ==> KeyPast(Step(st, op), st.entries[a].key.value, a)
  {
  }

  /**
   In every run under `PerKey`, the acknowledgements of one key happen in
   strictly increasing seq order: through releases, expiries, evictions and
   holders, at step `i` item `a` and at a later step `j` item `b`.
   */
  lemma AcksFollowKeyOrder(cfg: Config, ops: seq<Op>, i: nat, j: nat, a: nat, b: nat)
    requires cfg.ordering.PerKey? && (forall op | op in ops :: StaysPerKey(op)) && i < j < |ops|
    requires a in Acked(RunTo(Initial(cfg), ops[..i]), ops[i]) && b in Acked(RunTo(Initial(cfg), ops[..j]), ops[j])
    ensures var st, later := RunTo(Initial(cfg), ops[..i]), RunTo(Initial(cfg), ops[..j]);
            && a in st.entries && b in later.entries
            && (st.entries[a].key.Some? && st.entries[a].key == later.entries[b].key ==> a < b)
  {
    hide Step, Acked, LeasedAreLowest, SeqsBelow, RunTo;
    EmptyQueue(cfg);
    PrefixOps(ops, i);
    PrefixOps(ops, j);
    var st, later := RunTo(Initial(cfg), ops[..i]), RunTo(Initial(cfg), ops[..j]);
    RunKeepsLowest(Initial(cfg), ops[..i]);
    RunKeepsLowest(Initial(cfg), ops[..j]);
    AckedAreLowest(st, ops[i], a);
    AckedAreLowest(later, ops[j], b);
    RunStepThenRest(Initial(cfg), ops[..j], i);
    if st.entries[a].key.Some? {
      assert ops[..j][..i] == ops[..i] && ops[..j][i] == ops[i];
      RunKeepsPast(Step(st, ops[i]), ops[..j][i + 1..], st.entries[a].key.value, a);
    }
  }

  lemma EmptyQueue(cfg: Config)
    ensures LeasedAreLowest(Initial(cfg).entries) && SeqsBelow(Initial(cfg).entries, Initial(cfg).nextSeq)
  {
  }

  lemma PrefixOps(ops: seq<Op>, i: nat)
    requires i <= |ops|
    ensures forall op | op in ops[..i] :: op in ops
  {
  }

  lemma RunStepThenRest(st: State, ops: seq<Op>, i: nat)
    requires i < |ops|
    ensures RunTo(st, ops) == RunTo(Step(RunTo(st, ops[..i]), ops[i]), ops[i + 1..])
  {
    RunSplit(st, ops, i);
    assert ops[i..][0] == ops[i] && ops[i..][1..] == ops[i + 1..];
  }

  /** One acknowledgement removes at most one item of a key. */
  lemma AcksAtMostOnePerKey(cfg: Config, ops: seq<Op>, op: Op, a: nat, b: nat)
    requires cfg.ordering.PerKey? && (forall o | o in ops :: StaysPerKey(o))
    requires a in Acked(RunTo(Initial(cfg), ops), op) && b in Acked(RunTo(Initial(cfg), ops), op)
    ensures var es := RunTo(Initial(cfg), ops).entries;
            a in es && b in es && (es[a].key.Some? && es[a].key == es[b].key ==> a == b)
  {
    EmptyQueue(cfg);
    RunKeepsLowest(Initial(cfg), ops);
  }

  // ---- No lost wake-up

  /** `fs` is `es` without items that held no key back: under `PerKey`, unleased ones and those without a key. */
  ghost predicate HoldsNothingBack(es: Entries, fs: Entries, ordering: Ordering) {
    && fs.Keys <= es.Keys
    && (forall s | s in fs :: fs[s].key == es[s].key && (fs[s].lease.None? <==> es[s].lease.None?))
    && (forall s | s in es && s !in fs :: ordering.Free? || es[s].lease.None? || es[s].key.None?)
  }

  lemma NothingNewLeasable(es: Entries, fs: Entries, ordering: Ordering, s: nat)
    requires HoldsNothingBack(es, fs, ordering) && Leasable(fs, ordering, s)
    ensures exists r :: Leasable(es, ordering, r)
  {
    if ordering.PerKey? && es[s].key.Some? {
      var k := es[s].key;
      var queued := set r | r in es && es[r].key == k;
      assert s in queued;
      var r := Least(queued);
      forall x | x in es && es[x].key == k
        ensures es[x].lease.None? && r <= x
      {
        assert x in queued;
        if x !in fs {
          assert es[x].lease.None?;
        }
      }
      assert Leasable(es, ordering, r);
    } else {
      assert Leasable(es, ordering, s);
    }
  }

  lemma RemovalHoldsNothingBack(es: Entries, gone: set<nat>, ordering: Ordering)
    requires forall s | s in gone && s in es :: ordering.Free? || es[s].lease.None? || es[s].key.None?
    ensures HoldsNothingBack(es, es - gone, ordering)
  {
  }

  lemma SilentReserve(st: State, size: nat, late: Totals)
    ensures HoldsNothingBack(st.entries, Step(st, Reserve(size, late)).entries, st.cfg.ordering)
  {
    hide HoldsNothingBack, Evicted, IsShortest, Weight, RoomFor, Leased, Refusal;
    var es := st.entries;
    assert es - {} == es;
    RemovalHoldsNothingBack(es, {}, st.cfg.ordering);
    EvictedShape(st.cfg, Seen(st, late), es, size);
    RemovalHoldsNothingBack(es, es.Keys - Evicted(st.cfg, Seen(st, late), es, size).Keys, st.cfg.ordering);
  }

  /** Leases that come to nothing or are only renewed hold nothing back. */
  lemma SilentLease(st: State, op: Op)
    requires !Wakes(st, op) && LeasableSet(st) == {} && (op.LeaseTo? || op.Renew? || op.Release? || op.Expire?)
    ensures HoldsNothingBack(st.entries, Step(st, op).entries, st.cfg.ordering)
  {
    hide Picked, LeasableSet, Elements;
    match op {
      case LeaseTo(holder, max, now) =>
        NothingPicked(st, max);
        NoLeaseChange(st.entries, Some(Holding(holder, now + st.cfg.leaseTimeout)));
      case Expire(_) => NoLeaseChange(st.entries, None);
      case _ =>
    }
  }

  lemma SilentRemoval(st: State, op: Op)
    requires !Wakes(st, op) && (op.AckBelow? || op.AckAll? || op.AckSeq? || op.Purge? || op.PurgeWhere?)
    ensures HoldsNothingBack(st.entries, Step(st, op).entries, st.cfg.ordering)
  {
    hide HoldsNothingBack;
    RemovalHoldsNothingBack(st.entries, Removed(st, op), st.cfg.ordering);
  }

  /** The items `op` removes or re-leases hold nothing back, unless `op` wakes the waiters. */
  lemma SilentStep(st: State, op: Op)
    requires !Wakes(st, op) && LeasableSet(st) == {} && !op.DrainAll?
    ensures HoldsNothingBack(st.entries, Step(st, op).entries, st.cfg.ordering) && Step(st, op).cfg == st.cfg
  {
    hide Evicted, Picked, LeasableSet, Refusal, Removed, WithLease;
    match op {
      case Reserve(size, late) => SilentReserve(st, size, late);
      case Cancel(_) =>
      case LeaseTo(_, _, _) => SilentLease(st, op);
      case Renew(_, _, _) => SilentLease(st, op);
      case Release(_, _) => SilentLease(st, op);
      case Expire(_) => SilentLease(st, op);
      case _ => SilentRemoval(st, op);
    }
  }

  lemma NothingPicked(st: State, max: nat)
    requires LeasableSet(st) == {}
    ensures Elements(Picked(st, max)) == {}
  {
    PickedIsTake(st, max);
  }

  /** An operation that wakes nobody never makes an item leasable when none was. */
  lemma NoLostWakeUp(st: State, op: Op)
    requires Legal(st, op) && !Wakes(st, op) && LeasableSet(st) == {}
    ensures LeasableSet(Step(st, op)) == {}
  {
    hide Leasable, Step, Wakes;
    if op.DrainAll? {
      StepKeys(st, op);
      return;
    }
    SilentStep(st, op);
    var after := Step(st, op);
    if s :| s in LeasableSet(after) {
      NothingNewLeasable(st.entries, after.entries, st.cfg.ordering, s);
      var r :| Leasable(st.entries, st.cfg.ordering, r);
      LeasableIsThere(st, r);
    }
  }

  lemma LeasableIsThere(st: State, r: nat)
    requires Leasable(st.entries, st.cfg.ordering, r)
    ensures r in LeasableSet(st)
  {
  }
}
