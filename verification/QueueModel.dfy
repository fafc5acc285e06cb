/**
 The naive reference of the lease queue, as the property test of
 crates/tgin-runtime/src/queue.rs has it: entries by seq and nothing derived
 from them. Every operation recomputes what it needs.
 */
module QueueModel {
  import opened Wrappers
  import opened SortedSets

  type Key = nat
  type Holder = string

  /** An update as the queue sees it. */
  datatype Item = Item(source: nat, updateId: int)

  datatype Ordering = Free | PerKey

  datatype OnFull = Backpressure | DropOldest

  datatype Config = Config(capacity: nat, capacityBytes: nat, leaseTimeout: nat, ordering: Ordering, onFull: OnFull)

  datatype Full = Items | Bytes | TooLarge

  datatype Holding = Holding(holder: Holder, deadline: int)

  datatype Entry = Entry(item: Item, key: Option<Key>, ackId: int, size: nat, lease: Option<Holding>)

  datatype Lease = Lease(seqNo: nat, ackId: int, item: Item)

  type Entries = map<nat, Entry>

  /** `reserved` holds the sizes of the outstanding permits. */
  datatype State = State(cfg: Config, entries: Entries, reserved: multiset<nat>, nextSeq: nat)

  /** Every seq was handed out before `next`. */
  ghost predicate SeqsBelow(es: Entries, next: nat) {
    forall s | s in es :: s < next
  }

  // ---- Totals

  /** The bytes of the entries; with `leasedOnly`, of the leased ones. */
  function Weight(es: Entries, leasedOnly: bool): nat
    decreases |es|
  {
    if es == map[] then 0 else
      var s := Least(es.Keys);
      assert s in es;
      (if leasedOnly && es[s].lease.None? then 0 else es[s].size) + Weight(es - {s}, leasedOnly)
  }

  function Support(sizes: multiset<nat>): (present: set<nat>)
    ensures sizes != multiset{} ==> present != {}
  {
    var present := set x | x in sizes;
    assert sizes != multiset{} ==> exists x :: x in sizes && x in present;
    present
  }

  function Total(sizes: multiset<nat>): nat
    decreases |sizes|
  {
    if sizes == multiset{} then 0 else
      var x := Least(Support(sizes));
      x + Total(sizes - multiset{x})
  }

  // ---- Parts of the entries

  function Unleased(es: Entries): set<nat> {
    set s | s in es && es[s].lease.None?
  }

  function Leased(es: Entries): set<nat> {
    set s | s in es && es[s].lease.Some?
  }

  predicate HeldBy(e: Entry, holder: Holder) {
    e.lease.Some? && e.lease.value.holder == holder
  }

  function LeasedKeys(es: Entries): set<Key> {
    set s | s in es && es[s].lease.Some? && es[s].key.Some? :: es[s].key.value
  }

  /** May `s` be leased next: under `PerKey`, no item of its key is leased and none queued is older. */
  predicate Leasable(es: Entries, ordering: Ordering, s: nat) {
    && s in es && es[s].lease.None?
    && (ordering.PerKey? && es[s].key.Some? ==>
      forall r | r in es && es[r].key == es[s].key :: es[r].lease.None? && s <= r)
  }

  function LeasableSet(st: State): set<nat> {
    set s | s in st.entries && Leasable(st.entries, st.cfg.ordering, s)
  }

  function ToLease(es: Entries, s: nat): Lease
    requires s in es
  {
    Lease(s, es[s].ackId, es[s].item)
  }

  function ToLeases(es: Entries, seqs: seq<nat>): (leases: seq<Lease>)
    requires forall s | s in seqs :: s in es
    ensures |leases| == |seqs| && forall i :: 0 <= i < |seqs| ==> leases[i] == ToLease(es, seqs[i])
  {
    seq(|seqs|, i requires 0 <= i < |seqs| => ToLease(es, seqs[i]))
  }

  // ---- Reserving

  /** Items and bytes of permits. */
  datatype Totals = Totals(items: nat, bytes: nat)

  const NoTotals := Totals(0, 0)

  /**
   The totals a reservation loads. A permit dropped on another thread shrinks
   them without the queue's lock, so a reservation may have seen `late` more
   than the permits that are outstanding when it takes effect.
   */
  function Seen(st: State, late: Totals): Totals {
    Totals(|st.reserved| + late.items, Total(st.reserved) + late.bytes)
  }

  function Room(cfg: Config, seen: Totals, items: nat, bytes: nat, size: nat): Option<Full> {
    if items + seen.items >= cfg.capacity then Some(Items)
    else if bytes + seen.bytes + size > cfg.capacityBytes then Some(Bytes)
    else None
  }

  function RoomFor(cfg: Config, seen: Totals, es: Entries, size: nat): Option<Full> {
    Room(cfg, seen, |es|, Weight(es, false), size)
  }

  /** Evicts the oldest unleased item until one of `size` fits, or none is left. */
  function Evicted(cfg: Config, seen: Totals, es: Entries, size: nat): Entries
    decreases |es|
  {
    if RoomFor(cfg, seen, es, size).None? || Unleased(es) == {} then es
    else
      assert Least(Unleased(es)) in es;
      Evicted(cfg, seen, es - {Least(Unleased(es))}, size)
  }

  /** Why a reservation of `size` fails, if it does. */
  function Refusal(st: State, size: nat, late: Totals): Option<Full> {
    if size > st.cfg.capacityBytes then Some(TooLarge)
    else
      var full := RoomFor(st.cfg, Seen(st, late), st.entries, size);
      if full.None? then None
      else if st.cfg.onFull.Backpressure? then full
      else Room(st.cfg, Seen(st, late), |Leased(st.entries)|, Weight(st.entries, true), size)
  }

  function Reserved(st: State, size: nat, late: Totals): State {
    if Refusal(st, size, late).Some? then st
    else st.(entries := Evicted(st.cfg, Seen(st, late), st.entries, size), reserved := st.reserved + multiset{size})
  }

  // ---- Leasing

  /** Model::lease: a walk in seq order, skipping leased items and busy keys. */
  function Pick(es: Entries, seqs: seq<nat>, perKey: bool, busy: set<Key>, max: nat): (picked: seq<nat>)
    requires forall s | s in seqs :: s in es
    ensures forall s | s in picked :: s in seqs
  {
    if seqs == [] || max == 0 then []
    else
      var e := es[seqs[0]];
      if e.lease.Some? || (perKey && e.key.Some? && e.key.value in busy) then Pick(es, seqs[1..], perKey, busy, max)
      else [seqs[0]] + Pick(es, seqs[1..], perKey, if e.key.Some? then busy + {e.key.value} else busy, max - 1)
  }

  function Picked(st: State, max: nat): (picked: seq<nat>)
    ensures forall s | s in picked :: s in st.entries
  {
    Pick(st.entries, Sorted(st.entries.Keys), st.cfg.ordering.PerKey?, LeasedKeys(st.entries), max)
  }

  function WithLease(es: Entries, seqs: set<nat>, lease: Option<Holding>): Entries {
    map s | s in es :: if s in seqs then es[s].(lease := lease) else es[s]
  }

  function AfterLease(st: State, holder: Holder, max: nat, now: int): State {
    st.(entries := WithLease(st.entries, Elements(Picked(st, max)), Some(Holding(holder, now + st.cfg.leaseTimeout))))
  }

  // ---- Holders and removals

  function HeldFrom(es: Entries, holder: Holder, minAckId: int): set<nat> {
    set s | s in es && HeldBy(es[s], holder) && es[s].ackId >= minAckId
  }

  function HeldBelow(es: Entries, holder: Holder, ackId: int): set<nat> {
    set s | s in es && HeldBy(es[s], holder) && es[s].ackId < ackId
  }

  function AllHeld(es: Entries, holder: Holder): set<nat> {
    set s | s in es && HeldBy(es[s], holder)
  }

  function Expired(es: Entries, now: int): set<nat> {
    set s | s in es && es[s].lease.Some? && es[s].lease.value.deadline <= now
  }

  function Matching(es: Entries, pred: Item -> bool): set<nat> {
    set s | s in es && es[s].lease.None? && pred(es[s].item)
  }

  // ---- One operation at a time

  datatype Op =
    | Reserve(size: nat, late: Totals)
    | Cancel(size: nat)
    | Commit(size: nat, item: Item, key: Option<Key>, ackId: int)
    | LeaseTo(holder: Holder, max: nat, now: int)
    | Renew(holder: Holder, minAckId: int, now: int)
    | AckBelow(holder: Holder, ackId: int)
    | AckAll(holder: Holder)
    | AckSeq(holder: Holder, seqNo: nat)
    | Release(holder: Holder, seqNo: nat)
    | Expire(now: int)
    | Purge
    | PurgeWhere(pred: Item -> bool)
    | DrainAll
    | SetConfig(cfg: Config)

  /** A permit is cancelled or committed once, in the queue that granted it. */
  predicate Legal(st: State, op: Op) {
    match op
    case Cancel(size) => size in st.reserved
    case Commit(size, _, _, _) => size in st.reserved
    case _ => true
  }

  /** The items an acknowledgement removes. */
  function Acked(st: State, op: Op): set<nat> {
    match op
    case AckBelow(holder, ackId) => HeldBelow(st.entries, holder, ackId)
    case AckAll(holder) => AllHeld(st.entries, holder)
    case AckSeq(holder, s) => if s in st.entries && HeldBy(st.entries[s], holder) then {s} else {}
    case _ => {}
  }

  /** Every item `op` removes, for whatever reason. */
  function Removed(st: State, op: Op): set<nat> {
    match op
    case Reserve(size, late) => st.entries.Keys - Reserved(st, size, late).entries.Keys
    case Purge => Unleased(st.entries)
    case PurgeWhere(pred) => Matching(st.entries, pred)
    case DrainAll => st.entries.Keys
    case _ => Acked(st, op)
  }

  function Step(st: State, op: Op): State {
    match op
    case Reserve(size, late) => Reserved(st, size, late)
    case Cancel(size) => st.(reserved := st.reserved - multiset{size})
    case Commit(size, item, key, ackId) =>
      st.(entries := st.entries[st.nextSeq := Entry(item, key, ackId, size, None)],
          reserved := st.reserved - multiset{size}, nextSeq := st.nextSeq + 1)
    case LeaseTo(holder, max, now) => AfterLease(st, holder, max, now)
    case Renew(holder, minAckId, now) =>
      st.(entries := WithLease(st.entries, HeldFrom(st.entries, holder, minAckId),
                               Some(Holding(holder, now + st.cfg.leaseTimeout))))
    case Release(holder, s) =>
      if s in st.entries && HeldBy(st.entries[s], holder) then st.(entries := WithLease(st.entries, {s}, None)) else st
    case Expire(now) => st.(entries := WithLease(st.entries, Expired(st.entries, now), None))
    case SetConfig(cfg) => st.(cfg := cfg)
    case _ => st.(entries := st.entries - Removed(st, op))
  }

  /** Whether `op` wakes the waiting consumers. */
  predicate Wakes(st: State, op: Op) {
    match op
    case Commit(_, _, _, _) => true
    case SetConfig(_) => true
    case Release(holder, s) => s in st.entries && HeldBy(st.entries[s], holder)
    case Expire(now) => Expired(st.entries, now) != {}
    case _ => st.cfg.ordering.PerKey? && exists s :: s in Acked(st, op) && s in st.entries && st.entries[s].key.Some?
  }

  function Initial(cfg: Config): State {
    State(cfg, map[], multiset{}, 0)
  }
}
