/**
 Admission and retirement as interleaved atomic steps: any number of threads
 run `Engine::admit_with` of crates/tgin-core/src/admission.rs, one queue lock
 or one atomic flag at a time, while consumers work on the queues and reloads
 retire instances (`Shared::retire` of crates/tgin-core/src/engine.rs).
 */
module Admission {
  import opened Wrappers
  import opened SortedSets
  import opened QueueModel
  import opened QueueRuns

  type SlotId = nat
  type Tid = nat

  // ---- Consumer instances

  datatype Phase = Live | Closed | Drained

  datatype Reason = ByAck | ByEviction | ByPurge | ByReload

  /** One run of `reserve` and `commit_reserved` by a thread. */
  datatype Attempt = Attempt(tid: Tid, n: nat)

  /**
   A consumer instance. `closed` is `phase != Live`. The rest is bookkeeping of
   this model: who holds a permit of which size, which thread committed each
   seq and what the queue then stored under it, how each seq left, and the copies
   queued and drops counted per attempt.
   */
  datatype Slot = Slot(
    queue: State,
    phase: Phase,
    owners: map<Tid, nat>,
    committer: map<nat, Tid>,
    stored: map<nat, Entry>,
    left: map<nat, Reason>,
    reloadDrops: nat,
    copies: multiset<Attempt>,
    drops: multiset<Attempt>)

  function ReasonOf(op: Op): Reason {
    match op
    case Reserve(_, _) => ByEviction
    case Purge => ByPurge
    case PurgeWhere(_) => ByPurge
    case DrainAll => ByReload
    case _ => ByAck
  }

  /** `op` on the queue of `slot`, with what it removed written down. */
  function Apply(slot: Slot, op: Op): Slot {
    var removed := Removed(slot.queue, op);
    slot.(queue := Step(slot.queue, op),
          left := slot.left + map s | s in removed :: ReasonOf(op),
          reloadDrops := if op.DrainAll? then slot.reloadDrops + |removed| else slot.reloadDrops)
  }

  // ---- Admissions

  datatype Target = Target(slot: SlotId, onFull: OnFull)

  datatype Answer = Admitted | Unroutable | Refused

  /** Where a thread is: what it does next. */
  datatype Pc =
    | Loading
    | Checking
    | Reserving
    | Unwinding(closed: bool)
    | Committing
    | Confirming(slot: SlotId)
    | LateDraining(slot: SlotId)
    | Done(answer: Answer)

  /**
   A thread in `admit_with`. `routed`, `queued` and `skipped` are the targets
   of the current attempt; `evicted`, `sawClosed` and `mismatched` say whether
   any reservation evicted, found a target closed, or met a queue whose
   `on_full` was not the state's.
   */
  datatype Thread = Thread(
    size: nat, item: Item, key: Option<Key>, attempt: nat, pc: Pc,
    routed: set<SlotId>, todo: seq<Target>, permits: seq<SlotId>, queued: set<SlotId>, skipped: set<SlotId>,
    evicted: bool, sawClosed: bool, mismatched: bool)

  datatype Sys = Sys(slots: map<SlotId, Slot>, threads: map<Tid, Thread>)

  function SlotsOf(targets: seq<Target>): set<SlotId> {
    set t | t in targets :: t.slot
  }

  predicate DistinctTargets(targets: seq<Target>) {
    forall i, j :: 0 <= i < j < |targets| ==> targets[i].slot != targets[j].slot
  }

  /** The `backpressure` pass comes first. */
  predicate InPasses(targets: seq<Target>) {
    forall i, j :: 0 <= i < j < |targets| && targets[i].onFull.DropOldest? ==> targets[j].onFull.DropOldest?
  }

  // ---- Steps

  datatype Action =
    | Arrive(tid: Tid, size: nat, item: Item, key: Option<Key>)
    | Route(tid: Tid, targets: Option<seq<Target>>)
    | Check(tid: Tid)
    | TryReserve(tid: Tid, late: Totals)
    | Unwind(tid: Tid)
    | CommitOne(tid: Tid)
    | Confirm(tid: Tid)
    | DrainLate(tid: Tid)
    | Consume(slot: SlotId, op: Op)
    | Open(slot: SlotId, cfg: Config)
    | Close(slot: SlotId)
    | FinalDrain(slot: SlotId)

  /** What consumers, purges and reloads do to a queue outside admission and retirement. */
  predicate IsConsumerOp(op: Op) {
    !op.Reserve? && !op.Cancel? && !op.Commit? && !op.DrainAll?
  }

  ghost predicate Enabled(sys: Sys, a: Action) {
    match a
    case Arrive(i, _, _, _) => i !in sys.threads
    case Route(i, targets) =>
      && i in sys.threads && sys.threads[i].pc == Loading
      && (targets.Some? ==>
        DistinctTargets(targets.value) && InPasses(targets.value) && SlotsOf(targets.value) <= sys.slots.Keys)
    case Check(i) => i in sys.threads && sys.threads[i].pc == Checking
    case TryReserve(i, _) => i in sys.threads && sys.threads[i].pc == Reserving
    case Unwind(i) => i in sys.threads && sys.threads[i].pc.Unwinding?
    case CommitOne(i) => i in sys.threads && sys.threads[i].pc == Committing
    case Confirm(i) => i in sys.threads && sys.threads[i].pc.Confirming?
    case DrainLate(i) => i in sys.threads && sys.threads[i].pc.LateDraining?
    case Consume(s, op) => s in sys.slots && IsConsumerOp(op)
    case Open(s, _) => s !in sys.slots
    case Close(s) => s in sys.slots && sys.slots[s].phase == Live
    case FinalDrain(s) => s in sys.slots && sys.slots[s].phase == Closed
  }

  /** After a target is dealt with: the next one, or the commits. */
  function Onward(todo: seq<Target>): Pc {
    if todo == [] then Committing else Checking
  }

  function Routed(t: Thread, targets: Option<seq<Target>>): Thread {
    match targets
    case None => t.(pc := Done(Unroutable))
    case Some(ts) => t.(pc := Onward(ts), routed := SlotsOf(ts), todo := ts, permits := [], queued := {}, skipped := {})
  }

  /** `try_reserve` on the first target left: the slot and the thread after it. */
  function Reserving1(t: Thread, i: Tid, slot: Slot, late: Totals): (Slot, Thread)
    requires t.todo != []
  {
    var target, rest := t.todo[0], t.todo[1..];
    var seen := t.(mismatched := t.mismatched || slot.queue.cfg.onFull != target.onFull);
    match Refusal(slot.queue, t.size, late)
    case None =>
      (Apply(slot, Reserve(t.size, late)).(owners := slot.owners[i := t.size]),
       seen.(pc := Onward(rest), todo := rest, permits := t.permits + [target.slot],
             evicted := t.evicted || Removed(slot.queue, Reserve(t.size, late)) != {}))
    case Some(full) =>
      if full != TooLarge && target.onFull.Backpressure? then (slot, seen.(pc := Unwinding(false)))
      else
        (slot.(drops := slot.drops + multiset{Attempt(i, t.attempt)}),
         seen.(pc := Onward(rest), todo := rest, skipped := t.skipped + {target.slot}))
  }

  /** No permit left to give back: try once more on the current state, or refuse. */
  function Unwound(t: Thread, closed: bool): Thread {
    if closed && t.attempt == 0 then
      t.(attempt := 1, pc := Loading, routed := {}, todo := [], queued := {}, skipped := {})
    else t.(pc := Done(Refused))
  }

  function WithoutOwner(slot: Slot, i: Tid, op: Op): Slot {
    Apply(slot, op).(owners := slot.owners - {i})
  }

  function CommitOp(t: Thread): Op {
    Commit(t.size, t.item, t.key, t.item.updateId)
  }

  function Committed1(t: Thread, i: Tid, slot: Slot, s: SlotId): (Slot, Thread) {
    var after := Step(slot.queue, CommitOp(t)).entries;
    (WithoutOwner(slot, i, CommitOp(t)).(
      committer := slot.committer[slot.queue.nextSeq := i],
      stored := slot.stored + map n | n in after && n == slot.queue.nextSeq :: after[n],
      copies := slot.copies + multiset{Attempt(i, t.attempt)}),
     t.(pc := Confirming(s), permits := if t.permits == [] then [] else t.permits[1..], queued := t.queued + {s}))
  }

  function FreshSlot(cfg: Config): Slot {
    Slot(Initial(cfg), Live, map[], map[], map[], map[], 0, multiset{}, multiset{})
  }

  function Next(sys: Sys, a: Action): Sys
    requires Inv(sys) && Enabled(sys, a)
  {
    match a
    case Arrive(i, size, item, key) =>
      sys.(threads := sys.threads[i := Thread(size, item, key, 0, Loading, {}, [], [], {}, {}, false, false, false)])
    case Route(i, targets) => sys.(threads := sys.threads[i := Routed(sys.threads[i], targets)])
    case Check(i) =>
      var t := sys.threads[i];
      sys.(threads := sys.threads[i :=
        if sys.slots[t.todo[0].slot].phase.Live? then t.(pc := Reserving)
        else t.(pc := Unwinding(true), sawClosed := true)])
    case TryReserve(i, late) =>
      var t := sys.threads[i];
      var (slot, u) := Reserving1(t, i, sys.slots[t.todo[0].slot], late);
      Sys(sys.slots[t.todo[0].slot := slot], sys.threads[i := u])
    case Unwind(i) =>
      var t := sys.threads[i];
      if t.permits == [] then sys.(threads := sys.threads[i := Unwound(t, t.pc.closed)])
      else
        var s := t.permits[0];
        Sys(sys.slots[s := WithoutOwner(sys.slots[s], i, Cancel(t.size))],
            sys.threads[i := t.(permits := t.permits[1..])])
    case CommitOne(i) =>
      var t := sys.threads[i];
      if t.permits == [] then sys.(threads := sys.threads[i := t.(pc := Done(Admitted))])
      else
        var s := t.permits[0];
        var (slot, u) := Committed1(t, i, sys.slots[s], s);
        Sys(sys.slots[s := slot], sys.threads[i := u])
    case Confirm(i) =>
      var t := sys.threads[i];
      sys.(threads := sys.threads[i :=
        t.(pc := if sys.slots[t.pc.slot].phase.Live? then Committing else LateDraining(t.pc.slot))])
    case DrainLate(i) =>
      var t := sys.threads[i];
      Sys(sys.slots[t.pc.slot := Apply(sys.slots[t.pc.slot], DrainAll)], sys.threads[i := t.(pc := Committing)])
    case Consume(s, op) => sys.(slots := sys.slots[s := Apply(sys.slots[s], op)])
    case Open(s, cfg) => sys.(slots := sys.slots[s := FreshSlot(cfg)])
    case Close(s) => sys.(slots := sys.slots[s := sys.slots[s].(phase := Closed)])
    case FinalDrain(s) => sys.(slots := sys.slots[s := Apply(sys.slots[s], DrainAll).(phase := Drained)])
  }

  // ---- The invariant

  /** The sizes of the permits threads hold. */
  function SizesOf(owners: map<Tid, nat>): multiset<nat>
    decreases |owners|
  {
    if owners == map[] then multiset{} else
      var i := Least(owners.Keys);
      assert i in owners;
      multiset{owners[i]} + SizesOf(owners - {i})
  }

  /** The reservations are the threads' permits. */
  ghost predicate ReservedOk(slot: Slot) {
    slot.queue.reserved == SizesOf(slot.owners)
  }

  /** Each seq handed out is stored or has left, once, and the reload drops are counted. */
  ghost predicate LedgerOk(slot: Slot) {
    && SeqsBelow(slot.queue.entries, slot.queue.nextSeq)
    && Partitioned(slot.queue.entries.Keys, slot.left, slot.queue.nextSeq)
    && (forall s | s in slot.queue.entries :: s in slot.committer)
    && slot.reloadDrops == |Dropped(slot.left)|
  }

  /** Every seq below `next` is stored or has left, not both. */
  ghost predicate Partitioned(stored: set<nat>, left: map<nat, Reason>, next: nat) {
    left.Keys !! stored && forall s :: s in left || s in stored <==> 0 <= s < next
  }

  function Dropped(left: map<nat, Reason>): set<nat> {
    set s | s in left && left[s] == ByReload
  }

  ghost predicate SlotOk(slot: Slot) {
    ReservedOk(slot) && LedgerOk(slot)
  }

  /** Each target of the attempt is still to do, reserved, queued or skipped. */
  ghost predicate ThreadOk(slots: set<SlotId>, t: Thread) {
    && t.routed <= slots && t.attempt <= 1
    && DistinctTargets(t.todo) && InPasses(t.todo)
    && (forall i, j :: 0 <= i < j < |t.permits| ==> t.permits[i] != t.permits[j])
    && (!t.pc.Unwinding? && t.pc != Done(Refused) ==> t.routed == SlotsOf(t.todo) + Permitted(t) + t.queued + t.skipped)
    && SlotsOf(t.todo) + Permitted(t) + t.queued + t.skipped <= t.routed
    && SlotsOf(t.todo) !! Permitted(t) !! t.queued !! t.skipped
    && (t.evicted && t.todo != [] && t.todo[0].onFull.Backpressure? ==> t.mismatched || t.sawClosed)
    && match t.pc {
      case Loading => t.routed == {} && t.permits == [] && (t.evicted ==> t.mismatched || t.sawClosed)
      case Checking => t.todo != [] && t.queued == {}
      case Reserving => t.todo != [] && t.queued == {}
      case Unwinding(closed) =>
        t.todo != [] && t.queued == {} && (if closed then t.sawClosed else t.todo[0].onFull.Backpressure?)
      case Committing => t.todo == []
      case Confirming(s) => t.todo == [] && s in t.queued
      case LateDraining(s) => t.todo == [] && s in t.queued
      case Done(answer) =>
        && t.permits == []
        && (answer.Admitted? ==> t.todo == [])
        && (answer.Refused? ==> t.queued == {} && (t.evicted ==> t.mismatched || t.sawClosed))
        && (answer.Unroutable? ==> t.routed == {})
    }
  }

  function Permitted(t: Thread): set<SlotId> {
    set s | s in t.permits
  }

  /** Slot `s` and thread `i` agree on the permit, the copies and the drops between them. */
  ghost predicate PairOk(slot: Slot, s: SlotId, threads: map<Tid, Thread>, i: Tid) {
    if i in threads then
      var t := threads[i];
      && (i in slot.owners <==> s in t.permits)
      && (i in slot.owners ==> slot.owners[i] == t.size)
      && (forall n :: slot.copies[Attempt(i, n)] == if n == t.attempt && s in t.queued then 1 else 0)
      && (forall n :: n >= t.attempt ==> slot.drops[Attempt(i, n)] == if n == t.attempt && s in t.skipped then 1 else 0)
    else i !in slot.owners && forall n :: slot.copies[Attempt(i, n)] == 0 && slot.drops[Attempt(i, n)] == 0
  }

  predicate AtSlot(pc: Pc, s: SlotId) {
    pc == Confirming(s) || pc == LateDraining(s)
  }

  /** What a drained instance still holds was committed by a thread that has yet to check the flag and drain it. */
  ghost predicate DrainOk(slot: Slot, s: SlotId, threads: map<Tid, Thread>) {
    slot.phase.Drained? ==>
      forall seqNo | seqNo in slot.queue.entries ::
        && seqNo in slot.committer && slot.committer[seqNo] in threads
        && AtSlot(threads[slot.committer[seqNo]].pc, s)
  }

  ghost predicate Inv(sys: Sys) {
    && (forall s | s in sys.slots :: SlotOk(sys.slots[s]) && DrainOk(sys.slots[s], s, sys.threads))
    && (forall i | i in sys.threads :: ThreadOk(sys.slots.Keys, sys.threads[i]))
    && Paired(sys)
  }

  ghost predicate Paired(sys: Sys) {
    forall s, i | s in sys.slots :: PairOk(sys.slots[s], s, sys.threads, i)
  }

  // ---- One slot

  lemma {:induction false} SizesWithout(owners: map<Tid, nat>, i: Tid)
    requires i in owners
    ensures SizesOf(owners) == SizesOf(owners - {i}) + multiset{owners[i]}
    decreases |owners|
  {
    hide SizesOf, Least;
    var first := Least(owners.Keys);
    var rest := owners - {first};
    SizesFirst(owners, first);
    if first != i {
      assert rest.Keys == owners.Keys - {first};
      SizesWithout(rest, i);
      assert (owners - {i}).Keys == owners.Keys - {i};
      assert first in (owners - {i}).Keys;
      assert Least((owners - {i}).Keys) == first;
      SizesFirst(owners - {i}, first);
      assert rest - {i} == (owners - {i}) - {first};
    }
  }

  lemma SizesFirst(owners: map<Tid, nat>, first: Tid)
    requires first in owners && first == Least(owners.Keys)
    ensures SizesOf(owners) == multiset{owners[first]} + SizesOf(owners - {first})
  {
  }

  lemma SizesWith(owners: map<Tid, nat>, i: Tid, size: nat)
    requires i !in owners
    ensures SizesOf(owners[i := size]) == SizesOf(owners) + multiset{size}
  {
    hide SizesOf;
    assert owners[i := size] - {i} == owners;
    SizesWithout(owners[i := size], i);
  }

  lemma StepReserved(st: State, op: Op)
    requires IsConsumerOp(op) || op.DrainAll?
    ensures Step(st, op).reserved == st.reserved
  {
    hide Picked, WithLease, Removed;
  }

  lemma ApplyLedger(slot: Slot, op: Op)
    requires LedgerOk(slot) && !op.Commit?
    ensures LedgerOk(Apply(slot, op)) && Apply(slot, op).queue.entries.Keys <= slot.queue.entries.Keys
  {
    hide Step, Removed, Dropped, SeqsBelow, Partitioned, ReasonOf;
    StepKeys(slot.queue, op);
    StepKeepsSeqs(slot.queue, op);
    ApplyCounts(slot, op);
    assert Step(slot.queue, op).entries.Keys == slot.queue.entries.Keys - Removed(slot.queue, op);
  }

  lemma ApplyCounts(slot: Slot, op: Op)
    requires LedgerOk(slot) && !op.Commit?
    ensures var after := Apply(slot, op);
            && Partitioned(slot.queue.entries.Keys - Removed(slot.queue, op), after.left, slot.queue.nextSeq)
            && after.reloadDrops == |Dropped(after.left)|
  {
    hide Step, Removed, Dropped, SeqsBelow, Partitioned, ReasonOf;
    StepKeys(slot.queue, op);
    PartitionKept(slot.queue.entries.Keys, slot.left, slot.queue.nextSeq, Removed(slot.queue, op), ReasonOf(op));
    DropsCounted(slot.left, Removed(slot.queue, op), ReasonOf(op));
    ReloadOnly(op);
  }

  /** What has left stays as it left. */
  lemma LeftOnce(slot: Slot, op: Op, s: nat)
    requires LedgerOk(slot) && s in slot.left
    ensures s in Apply(slot, op).left && Apply(slot, op).left[s] == slot.left[s] && s !in Apply(slot, op).queue.entries
  {
    hide Step, Removed, SeqsBelow;
    StepKeys(slot.queue, op);
  }

  lemma PartitionKept(stored: set<nat>, left: map<nat, Reason>, next: nat, removed: set<nat>, reason: Reason)
    requires Partitioned(stored, left, next) && removed <= stored
    ensures left.Keys !! removed
    ensures Partitioned(stored - removed, left + map s | s in removed :: reason, next)
  {
  }

  lemma ReloadOnly(op: Op)
    ensures ReasonOf(op) == ByReload <==> op.DrainAll?
    ensures ReasonOf(op) == ByEviction <==> op.Reserve?
    ensures ReasonOf(op) == ByPurge <==> op.Purge? || op.PurgeWhere?
  {
  }

  lemma DropsCounted(left: map<nat, Reason>, removed: set<nat>, reason: Reason)
    requires left.Keys !! removed
    ensures var all := left + map s | s in removed :: reason;
            |Dropped(all)| == |Dropped(left)| + if reason == ByReload then |removed| else 0
  {
    var all := left + map s | s in removed :: reason;
    if reason == ByReload {
      assert Dropped(all) == Dropped(left) + removed;
    } else {
      assert Dropped(all) == Dropped(left);
    }
  }

  lemma CommitLedger(slot: Slot, t: Thread, i: Tid, s: SlotId)
    requires LedgerOk(slot)
    ensures LedgerOk(Committed1(t, i, slot, s).0)
  {
    hide Step;
    var op := CommitOp(t);
    assert Removed(slot.queue, op) == {};
    StepKeys(slot.queue, op);
    StepKeepsSeqs(slot.queue, op);
    assert Apply(slot, op).left == slot.left;
  }

  lemma ConsumeSlot(slot: Slot, op: Op)
    requires SlotOk(slot) && (IsConsumerOp(op) || op.DrainAll?)
    ensures SlotOk(Apply(slot, op)) && Apply(slot, op).queue.entries.Keys <= slot.queue.entries.Keys
    ensures op.DrainAll? ==> Apply(slot, op).queue.entries == map[]
  {
    hide LedgerOk, SizesOf, Step, Removed;
    ApplyLedger(slot, op);
    StepReserved(slot.queue, op);
    if op.DrainAll? {
      StepKeys(slot.queue, op);
      DrainsAll(slot.queue);
    }
  }

  lemma DrainsAll(st: State)
    ensures Step(st, DrainAll).entries == map[]
  {
  }

  lemma ReserveSlot(t: Thread, i: Tid, slot: Slot, late: Totals)
    requires SlotOk(slot) && t.todo != [] && i !in slot.owners
    ensures SlotOk(Reserving1(t, i, slot, late).0)
    ensures Reserving1(t, i, slot, late).0.queue.entries.Keys <= slot.queue.entries.Keys
  {
    hide LedgerOk, SizesOf, Refusal, Evicted, Removed;
    if Refusal(slot.queue, t.size, late).None? {
      ApplyLedger(slot, Reserve(t.size, late));
      SizesWith(slot.owners, i, t.size);
      LedgerOnly(Apply(slot, Reserve(t.size, late)), Reserving1(t, i, slot, late).0);
    } else {
      LedgerOnly(slot, Reserving1(t, i, slot, late).0);
    }
  }

  /** The ledger does not depend on the permits, the phase, the copies or the drops. */
  lemma LedgerOnly(a: Slot, b: Slot)
    requires a.queue == b.queue && a.left == b.left && a.committer == b.committer && a.reloadDrops == b.reloadDrops
    ensures LedgerOk(a) <==> LedgerOk(b)
  {
  }

  lemma CancelSlot(slot: Slot, i: Tid, size: nat)
    requires SlotOk(slot) && i in slot.owners && slot.owners[i] == size
    ensures SlotOk(WithoutOwner(slot, i, Cancel(size)))
    ensures WithoutOwner(slot, i, Cancel(size)).queue.entries == slot.queue.entries
  {
    hide LedgerOk, SizesOf;
    ApplyLedger(slot, Cancel(size));
    SizesWithout(slot.owners, i);
    LedgerOnly(Apply(slot, Cancel(size)), WithoutOwner(slot, i, Cancel(size)));
  }

  lemma CommitSlot(slot: Slot, t: Thread, i: Tid, s: SlotId)
    requires SlotOk(slot) && i in slot.owners && slot.owners[i] == t.size
    ensures SlotOk(Committed1(t, i, slot, s).0)
  {
    hide LedgerOk, SizesOf;
    CommitLedger(slot, t, i, s);
    SizesWithout(slot.owners, i);
  }

  // ---- One thread

  lemma RoutedOk(slots: set<SlotId>, t: Thread, targets: Option<seq<Target>>)
    requires ThreadOk(slots, t) && t.pc == Loading
    requires targets.Some? ==> DistinctTargets(targets.value) && InPasses(targets.value) && SlotsOf(targets.value) <= slots
    ensures ThreadOk(slots, Routed(t, targets))
  {
  }

  lemma RestOfTargets(todo: seq<Target>)
    requires todo != [] && DistinctTargets(todo) && InPasses(todo)
    ensures DistinctTargets(todo[1..]) && InPasses(todo[1..])
    ensures SlotsOf(todo) == SlotsOf(todo[1..]) + {todo[0].slot} && todo[0].slot !in SlotsOf(todo[1..])
    ensures todo[0].onFull.DropOldest? ==> forall t | t in todo[1..] :: t.onFull.DropOldest?
  {
    assert todo == [todo[0]] + todo[1..];
  }

  /** A queue under `Backpressure` makes room without evicting. */
  lemma BackpressureEvictsNothing(st: State, size: nat, late: Totals)
    requires Refusal(st, size, late).None? && st.cfg.onFull.Backpressure?
    ensures Removed(st, Reserve(size, late)) == {}
  {
    EvictsNothing(st, size, late);
  }

  lemma ReservedThreadOk(slots: set<SlotId>, t: Thread, i: Tid, slot: Slot, late: Totals)
    requires ThreadOk(slots, t) && t.pc == Reserving
    ensures ThreadOk(slots, Reserving1(t, i, slot, late).1)
  {
    hide Refusal, Removed, Apply, InPasses, DistinctTargets, SlotsOf;
    var u, target, rest := Reserving1(t, i, slot, late).1, t.todo[0], t.todo[1..];
    RestOfTargets(t.todo);
    match Refusal(slot.queue, t.size, late) {
      case None =>
        if slot.queue.cfg.onFull.Backpressure? {
          BackpressureEvictsNothing(slot.queue, t.size, late);
        }
        assert Permitted(u) == Permitted(t) + {target.slot};
      case Some(full) =>
    }
  }

  lemma PermitGone(slots: set<SlotId>, t: Thread, u: Thread)
    requires ThreadOk(slots, t) && t.permits != []
    requires u.permits == t.permits[1..]
    ensures t.permits[0] !in u.permits && Permitted(t) == Permitted(u) + {t.permits[0]}
    ensures forall i, j :: 0 <= i < j < |u.permits| ==> u.permits[i] != u.permits[j]
  {
    assert t.permits == [t.permits[0]] + t.permits[1..];
  }

  // ---- Frames: what a step leaves alone

  /** `a` and `b` stand alike towards thread `i`. */
  ghost predicate AlikeFor(a: Slot, b: Slot, i: Tid) {
    && (i in a.owners <==> i in b.owners) && (i in a.owners ==> a.owners[i] == b.owners[i])
    && forall n :: a.copies[Attempt(i, n)] == b.copies[Attempt(i, n)] && a.drops[Attempt(i, n)] == b.drops[Attempt(i, n)]
  }

  /** `t` and `u` stand alike towards slot `s`. */
  ghost predicate AlikeAt(t: Thread, u: Thread, s: SlotId) {
    && t.size == u.size && t.attempt == u.attempt
    && (s in t.permits <==> s in u.permits) && (s in t.queued <==> s in u.queued) && (s in t.skipped <==> s in u.skipped)
  }

  ghost predicate SameBut(threads: map<Tid, Thread>, after: map<Tid, Thread>, i: Tid) {
    i in after && forall j :: j != i ==> (j in threads <==> j in after) && (j in threads ==> threads[j] == after[j])
  }

  /** A step of thread `i` at slot `s` keeps every pair, if it keeps theirs. */
  lemma PairsKept(sys: Sys, after: Sys, s: SlotId, i: Tid)
    requires Paired(sys) && after.slots.Keys == sys.slots.Keys && s in sys.slots
    requires SameBut(sys.threads, after.threads, i) && i in sys.threads
    requires forall r | r in sys.slots && r != s :: after.slots[r] == sys.slots[r] && AlikeAt(sys.threads[i], after.threads[i], r)
    requires forall j | j != i :: AlikeFor(sys.slots[s], after.slots[s], j)
    requires PairOk(after.slots[s], s, after.threads, i)
    ensures Paired(after)
  {
    forall r, j | r in after.slots
      ensures PairOk(after.slots[r], r, after.threads, j)
    {
      assert PairOk(sys.slots[r], r, sys.threads, j);
      if r == s && j != i {
        assert AlikeFor(sys.slots[s], after.slots[s], j);
      }
    }
  }

  /** A step of thread `i` that touches no slot keeps every pair, if it keeps its own. */
  lemma ThreadPairsKept(sys: Sys, after: Sys, i: Tid)
    requires Paired(sys) && after.slots == sys.slots && SameBut(sys.threads, after.threads, i)
    requires forall r | r in sys.slots :: PairOk(sys.slots[r], r, after.threads, i)
    ensures Paired(after)
  {
    forall r, j | r in after.slots
      ensures PairOk(after.slots[r], r, after.threads, j)
    {
      assert PairOk(sys.slots[r], r, sys.threads, j);
    }
  }

  lemma SlotPairsKept(sys: Sys, after: Sys, s: SlotId)
    requires Paired(sys) && s in sys.slots && after.threads == sys.threads
    requires after.slots.Keys == sys.slots.Keys && forall r | r in sys.slots && r != s :: after.slots[r] == sys.slots[r]
    requires after.slots[s].owners == sys.slots[s].owners && after.slots[s].copies == sys.slots[s].copies && after.slots[s].drops == sys.slots[s].drops
    ensures Paired(after)
  {
    forall r, j | r in after.slots
      ensures PairOk(after.slots[r], r, after.threads, j)
    {
      assert PairOk(sys.slots[r], r, sys.threads, j);
    }
  }

  /** A drained slot stays in order when it only loses items and thread `i` does not walk away from it. */
  lemma DrainKept(slot: Slot, after: Slot, s: SlotId, threads: map<Tid, Thread>, next: map<Tid, Thread>, i: Tid)
    requires DrainOk(slot, s, threads) && (after.phase.Drained? ==> slot.phase.Drained?)
    requires after.queue.entries.Keys <= slot.queue.entries.Keys && after.committer == slot.committer
    requires SameBut(threads, next, i) && (i in threads && AtSlot(threads[i].pc, s) ==> AtSlot(next[i].pc, s))
    ensures DrainOk(after, s, next)
  {
  }

  /** A thread that only moves on, at no slot, keeps the invariant. */
  lemma ThreadStep(sys: Sys, i: Tid, u: Thread)
    requires Inv(sys) && ThreadOk(sys.slots.Keys, u)
    requires i in sys.threads ==> forall s | s in sys.slots :: AtSlot(sys.threads[i].pc, s) ==> AtSlot(u.pc, s) || sys.slots[s].phase.Live?
    requires forall s | s in sys.slots :: PairOk(sys.slots[s], s, sys.threads[i := u], i)
    ensures Inv(sys.(threads := sys.threads[i := u]))
  {
    hide SlotOk, ThreadOk, PairOk;
    var after := sys.(threads := sys.threads[i := u]);
    ThreadPairsKept(sys, after, i);
    forall s | s in after.slots
      ensures SlotOk(after.slots[s]) && DrainOk(after.slots[s], s, after.threads)
    {
      assert DrainOk(sys.slots[s], s, sys.threads);
      if !sys.slots[s].phase.Live? {
        DrainKept(sys.slots[s], sys.slots[s], s, sys.threads, after.threads, i);
      }
    }
  }

  /** A step on one slot alone keeps the invariant. */
  lemma SlotStep(sys: Sys, s: SlotId, slot: Slot)
    requires Inv(sys) && s in sys.slots && SlotOk(slot) && DrainOk(slot, s, sys.threads)
    requires slot.owners == sys.slots[s].owners && slot.copies == sys.slots[s].copies && slot.drops == sys.slots[s].drops
    ensures Inv(sys.(slots := sys.slots[s := slot]))
  {
    hide SlotOk, ThreadOk, PairOk, DrainOk;
    var after := sys.(slots := sys.slots[s := slot]);
    assert after.slots.Keys == sys.slots.Keys;
    SlotPairsKept(sys, after, s);
  }

  /** A step of thread `i` at slot `s` keeps the invariant. */
  lemma BothStep(sys: Sys, s: SlotId, slot: Slot, i: Tid, u: Thread)
    requires Inv(sys) && s in sys.slots && i in sys.threads && SlotOk(slot) && ThreadOk(sys.slots.Keys, u)
    requires DrainOk(slot, s, sys.threads[i := u])
    requires forall r | r in sys.slots && r != s :: !AtSlot(sys.threads[i].pc, r) && AlikeAt(sys.threads[i], u, r)
    requires forall j | j != i :: AlikeFor(sys.slots[s], slot, j)
    requires PairOk(slot, s, sys.threads[i := u], i)
    ensures Inv(Sys(sys.slots[s := slot], sys.threads[i := u]))
  {
    hide SlotOk, ThreadOk, PairOk, AlikeFor, AlikeAt;
    var after := Sys(sys.slots[s := slot], sys.threads[i := u]);
    assert after.slots.Keys == sys.slots.Keys;
    PairsKept(sys, after, s, i);
    forall r | r in after.slots
      ensures SlotOk(after.slots[r]) && DrainOk(after.slots[r], r, after.threads)
    {
      if r != s {
        assert DrainOk(sys.slots[r], r, sys.threads);
        DrainKept(sys.slots[r], sys.slots[r], r, sys.threads, after.threads, i);
      }
    }
  }

  // ---- Every step keeps the invariant

  lemma ArriveKeepsInv(sys: Sys, i: Tid, size: nat, item: Item, key: Option<Key>)
    requires Inv(sys) && i !in sys.threads
    ensures Inv(Next(sys, Arrive(i, size, item, key)))
  {
    hide SlotOk, DrainOk;
    var u := Thread(size, item, key, 0, Loading, {}, [], [], {}, {}, false, false, false);
    forall s | s in sys.slots
      ensures PairOk(sys.slots[s], s, sys.threads[i := u], i)
    {
      assert PairOk(sys.slots[s], s, sys.threads, i);
    }
    ThreadStep(sys, i, u);
  }

  /** Towards every slot, `u` is where `t` was. */
  lemma SameTowards(sys: Sys, i: Tid, u: Thread)
    requires Paired(sys) && i in sys.threads && forall s | s in sys.slots :: AlikeAt(sys.threads[i], u, s)
    ensures forall s | s in sys.slots :: PairOk(sys.slots[s], s, sys.threads[i := u], i)
  {
    forall s | s in sys.slots
      ensures PairOk(sys.slots[s], s, sys.threads[i := u], i)
    {
      assert PairOk(sys.slots[s], s, sys.threads, i);
    }
  }

  lemma ThreadOkOf(sys: Sys, i: Tid)
    requires Inv(sys) && i in sys.threads
    ensures ThreadOk(sys.slots.Keys, sys.threads[i])
  {
  }

  lemma RouteKeepsInv(sys: Sys, i: Tid, targets: Option<seq<Target>>)
    requires Inv(sys) && Enabled(sys, Route(i, targets))
    ensures Inv(Next(sys, Route(i, targets)))
  {
    hide SlotOk, DrainOk, PairOk, SlotsOf, DistinctTargets, InPasses;
    ThreadOkOf(sys, i);
    var t := sys.threads[i];
    RoutedOk(sys.slots.Keys, t, targets);
    assert t.queued == {} && t.skipped == {};
    SameTowards(sys, i, Routed(t, targets));
    ThreadStep(sys, i, Routed(t, targets));
  }

  lemma CheckKeepsInv(sys: Sys, i: Tid)
    requires Inv(sys) && Enabled(sys, Check(i))
    ensures Inv(Next(sys, Check(i)))
  {
    hide SlotOk, DrainOk, PairOk, SlotsOf, DistinctTargets, InPasses;
    ThreadOkOf(sys, i);
    var t, u := sys.threads[i], Next(sys, Check(i)).threads[i];
    CheckedOk(sys.slots.Keys, t);
    hide ThreadOk;
    SameTowards(sys, i, u);
    ThreadStep(sys, i, u);
  }

  lemma CheckedOk(slots: set<SlotId>, t: Thread)
    requires ThreadOk(slots, t) && t.pc == Checking
    ensures t.todo != []
    ensures ThreadOk(slots, t.(pc := Reserving)) && ThreadOk(slots, t.(pc := Unwinding(true), sawClosed := true))
  {
    hide SlotsOf, DistinctTargets, InPasses;
  }

  lemma FirstTarget(sys: Sys, i: Tid)
    requires Inv(sys) && i in sys.threads && sys.threads[i].pc == Reserving
    ensures sys.threads[i].todo != []
    ensures sys.threads[i].todo[0].slot in SlotsOf(sys.threads[i].todo) && sys.threads[i].todo[0].slot in sys.slots
    ensures sys.threads[i].todo[0].slot !in sys.threads[i].permits && sys.threads[i].todo[0].slot !in sys.threads[i].queued
    ensures sys.threads[i].todo[0].slot !in sys.threads[i].skipped
  {
    var t := sys.threads[i];
    assert t.todo[0] in t.todo;
    assert t.todo[0].slot in SlotsOf(t.todo) && t.todo[0].slot !in Permitted(t);
  }

  lemma TryReserveKeepsInv(sys: Sys, i: Tid, late: Totals)
    requires Inv(sys) && Enabled(sys, TryReserve(i, late))
    ensures Inv(Next(sys, TryReserve(i, late)))
  {
    hide SlotOk, ThreadOk, Apply, Refusal, Removed;
    FirstTarget(sys, i);
    ThreadOkOf(sys, i);
    var t, s := sys.threads[i], sys.threads[i].todo[0].slot;
    var slot := sys.slots[s];
    var (after, u) := Reserving1(t, i, slot, late);
    assert PairOk(slot, s, sys.threads, i);
    ReserveSlot(t, i, slot, late);
    ReservedThreadOk(sys.slots.Keys, t, i, slot, late);
    ReserveFrame(t, i, slot, late);
    ReservePair(sys.threads, t, i, slot, s, late);
    assert DrainOk(slot, s, sys.threads);
    DrainKept(slot, after, s, sys.threads, sys.threads[i := u], i);
    BothStep(sys, s, after, i, u);
  }

  lemma ReserveFrame(t: Thread, i: Tid, slot: Slot, late: Totals)
    requires t.todo != []
    ensures var (after, u) := Reserving1(t, i, slot, late);
            && after.phase == slot.phase && after.committer == slot.committer
            && (forall j | j != i :: AlikeFor(slot, after, j))
            && (forall r | r != t.todo[0].slot :: AlikeAt(t, u, r))
  {
    hide Refusal, Removed, Apply;
    ApplyKeeps(slot, Reserve(t.size, late));
    ApplyCommitters(slot, Reserve(t.size, late));
  }

  lemma ApplyCommitters(slot: Slot, op: Op)
    ensures Apply(slot, op).phase == slot.phase && Apply(slot, op).committer == slot.committer
  {
    hide Step, Removed;
  }

  lemma ReservePair(threads: map<Tid, Thread>, t: Thread, i: Tid, slot: Slot, s: SlotId, late: Totals)
    requires i in threads && threads[i] == t && t.todo != [] && t.todo[0].slot == s && PairOk(slot, s, threads, i)
    requires s !in t.permits && s !in t.skipped
    ensures var (after, u) := Reserving1(t, i, slot, late); PairOk(after, s, threads[i := u], i)
  {
    hide Refusal, Removed, Apply, PairOk;
    var op := Reserve(t.size, late);
    ApplyKeeps(slot, op);
    var (after, u) := Reserving1(t, i, slot, late);
    if Refusal(slot.queue, t.size, late).None? {
      PairGranted(threads, t, i, slot, s, after, u);
    } else if u.pc.Unwinding? {
      PairSame(threads, i, slot, s, u);
    } else {
      PairSkipped(threads, t, i, slot, s, after, u);
    }
  }

  lemma ApplyKeeps(slot: Slot, op: Op)
    ensures Apply(slot, op).owners == slot.owners && Apply(slot, op).copies == slot.copies && Apply(slot, op).drops == slot.drops
  {
    hide Step, Removed;
  }

  lemma PairGranted(threads: map<Tid, Thread>, t: Thread, i: Tid, slot: Slot, s: SlotId, after: Slot, u: Thread)
    requires i in threads && threads[i] == t && PairOk(slot, s, threads, i)
    requires after.owners == slot.owners[i := t.size] && after.copies == slot.copies && after.drops == slot.drops
    requires u.size == t.size && u.attempt == t.attempt && u.queued == t.queued && u.skipped == t.skipped && u.permits == t.permits + [s]
    ensures PairOk(after, s, threads[i := u], i)
  {
  }

  lemma PairSame(threads: map<Tid, Thread>, i: Tid, slot: Slot, s: SlotId, u: Thread)
    requires i in threads && PairOk(slot, s, threads, i)
    requires var t := threads[i];
             u.size == t.size && u.attempt == t.attempt && u.queued == t.queued && u.skipped == t.skipped && u.permits == t.permits
    ensures PairOk(slot, s, threads[i := u], i)
  {
  }

  lemma PairSkipped(threads: map<Tid, Thread>, t: Thread, i: Tid, slot: Slot, s: SlotId, after: Slot, u: Thread)
    requires i in threads && threads[i] == t && PairOk(slot, s, threads, i) && s !in t.skipped
    requires after.owners == slot.owners && after.copies == slot.copies && after.drops == slot.drops + multiset{Attempt(i, t.attempt)}
    requires u.size == t.size && u.attempt == t.attempt && u.queued == t.queued && u.skipped == t.skipped + {s} && u.permits == t.permits
    ensures PairOk(after, s, threads[i := u], i)
  {
  }

  lemma FirstPermit(sys: Sys, i: Tid)
    requires Inv(sys) && i in sys.threads && sys.threads[i].permits != []
    ensures var t := sys.threads[i];
            var s := t.permits[0];
            && s in sys.slots && PairOk(sys.slots[s], s, sys.threads, i) && DrainOk(sys.slots[s], s, sys.threads)
            && SlotOk(sys.slots[s]) && i in sys.slots[s].owners && sys.slots[s].owners[i] == t.size
            && s !in t.permits[1..] && s !in t.queued && s !in t.skipped && s !in SlotsOf(t.todo)
  {
    var t := sys.threads[i];
    assert t.permits[0] in Permitted(t);
    PermitGone(sys.slots.Keys, t, t.(permits := t.permits[1..]));
    assert PairOk(sys.slots[t.permits[0]], t.permits[0], sys.threads, i);
  }

  /** Every permit is given back: once more, or refused. */
  lemma UnwoundKeepsInv(sys: Sys, i: Tid)
    requires Inv(sys) && Enabled(sys, Unwind(i)) && sys.threads[i].permits == []
    ensures Inv(Next(sys, Unwind(i)))
  {
    hide SlotOk, SlotsOf, DistinctTargets, InPasses, Apply, DrainOk;
    ThreadOkOf(sys, i);
    var t := sys.threads[i];
    var u := Unwound(t, t.pc.closed);
    UnwoundOk(sys.slots.Keys, t);
    forall s | s in sys.slots
      ensures PairOk(sys.slots[s], s, sys.threads[i := u], i)
    {
      assert PairOk(sys.slots[s], s, sys.threads, i);
    }
    ThreadStep(sys, i, u);
  }

  /** One permit is given back. */
  lemma UnwindOneKeepsInv(sys: Sys, i: Tid)
    requires Inv(sys) && Enabled(sys, Unwind(i)) && sys.threads[i].permits != []
    ensures Inv(Next(sys, Unwind(i)))
  {
    hide SlotOk, SlotsOf, DistinctTargets, InPasses, Apply;
    ThreadOkOf(sys, i);
    FirstPermit(sys, i);
    var t := sys.threads[i];
    var s, u := t.permits[0], t.(permits := t.permits[1..]);
    var slot, after := sys.slots[s], WithoutOwner(sys.slots[s], i, Cancel(t.size));
    PermitGone(sys.slots.Keys, t, u);
    assert ThreadOk(sys.slots.Keys, u);
    CancelSlot(slot, i, t.size);
    OwnerFrame(slot, i, Cancel(t.size));
    assert PairOk(after, s, sys.threads[i := u], i);
    DrainKept(slot, after, s, sys.threads, sys.threads[i := u], i);
    OtherPermits(t, u);
    BothStep(sys, s, after, i, u);
  }

  lemma UnwindKeepsInv(sys: Sys, i: Tid)
    requires Inv(sys) && Enabled(sys, Unwind(i))
    ensures Inv(Next(sys, Unwind(i)))
  {
    hide Inv, Next;
    if sys.threads[i].permits == [] {
      UnwoundKeepsInv(sys, i);
    } else {
      UnwindOneKeepsInv(sys, i);
    }
  }

  lemma UnwoundOk(slots: set<SlotId>, t: Thread)
    requires ThreadOk(slots, t) && t.pc.Unwinding? && t.permits == []
    ensures ThreadOk(slots, Unwound(t, t.pc.closed))
  {
  }

  lemma OtherPermits(t: Thread, u: Thread)
    requires t.permits != [] && u.permits == t.permits[1..] && u.size == t.size && u.attempt == t.attempt
    requires u.skipped == t.skipped && (u.queued == t.queued || u.queued == t.queued + {t.permits[0]})
    ensures forall r | r != t.permits[0] :: AlikeAt(t, u, r)
  {
    assert t.permits == [t.permits[0]] + t.permits[1..];
  }

  lemma OwnerFrame(slot: Slot, i: Tid, op: Op)
    ensures var after := WithoutOwner(slot, i, op);
            && after.phase == slot.phase && after.committer == slot.committer
            && after.copies == slot.copies && after.drops == slot.drops && after.owners == slot.owners - {i}
            && forall j | j != i :: AlikeFor(slot, after, j)
  {
    hide Step, Removed;
  }

  lemma CommitKeepsInv(sys: Sys, i: Tid)
    requires Inv(sys) && Enabled(sys, CommitOne(i))
    ensures Inv(Next(sys, CommitOne(i)))
  {
    hide SlotOk, SlotsOf, DistinctTargets, InPasses, Apply;
    ThreadOkOf(sys, i);
    var t := sys.threads[i];
    if t.permits == [] {
      var u := t.(pc := Done(Admitted));
      assert ThreadOk(sys.slots.Keys, u);
      SameTowards(sys, i, u);
      ThreadStep(sys, i, u);
    } else {
      FirstPermit(sys, i);
      var s := t.permits[0];
      var slot := sys.slots[s];
      var (after, u) := Committed1(t, i, slot, s);
      PermitGone(sys.slots.Keys, t, u);
      CommittedThreadOk(sys.slots.Keys, t, u, s);
      CommitSlot(slot, t, i, s);
      CommitFrame(slot, t, i, s);
      CommitPair(sys.threads, t, i, slot, s);
      CommitDrainOk(sys, t, i, s);
      OtherPermits(t, u);
      BothStep(sys, s, after, i, u);
    }
  }

  lemma CommittedThreadOk(slots: set<SlotId>, t: Thread, u: Thread, s: SlotId)
    requires ThreadOk(slots, t) && t.pc == Committing && t.permits != [] && s == t.permits[0]
    requires u == t.(pc := Confirming(s), permits := t.permits[1..], queued := t.queued + {s})
    ensures ThreadOk(slots, u)
  {
    hide SlotsOf, DistinctTargets, InPasses;
    PermitGone(slots, t, u);
  }

  lemma CommitFrame(slot: Slot, t: Thread, i: Tid, s: SlotId)
    ensures var after := Committed1(t, i, slot, s).0;
            after.phase == slot.phase && forall j | j != i :: AlikeFor(slot, after, j)
  {
    hide Step, Removed;
  }

  lemma CommitPair(threads: map<Tid, Thread>, t: Thread, i: Tid, slot: Slot, s: SlotId)
    requires i in threads && threads[i] == t && PairOk(slot, s, threads, i)
    requires t.permits != [] && s !in t.permits[1..] && s !in t.queued
    ensures var (after, u) := Committed1(t, i, slot, s); PairOk(after, s, threads[i := u], i)
  {
    hide Step, Removed;
  }

  lemma CommitDrainOk(sys: Sys, t: Thread, i: Tid, s: SlotId)
    requires s in sys.slots && i in sys.threads && sys.threads[i] == t && DrainOk(sys.slots[s], s, sys.threads) && LedgerOk(sys.slots[s])
    ensures var (after, u) := Committed1(t, i, sys.slots[s], s); DrainOk(after, s, sys.threads[i := u])
  {
    hide Step, Dropped;
    var slot := sys.slots[s];
    StepKeys(slot.queue, CommitOp(t));
    assert Removed(slot.queue, CommitOp(t)) == {};
  }

  lemma ConfirmKeepsInv(sys: Sys, i: Tid)
    requires Inv(sys) && Enabled(sys, Confirm(i))
    ensures Inv(Next(sys, Confirm(i)))
  {
    hide SlotOk, DrainOk, PairOk, SlotsOf, DistinctTargets, InPasses;
    ThreadOkOf(sys, i);
    var u := Next(sys, Confirm(i)).threads[i];
    assert ThreadOk(sys.slots.Keys, u);
    SameTowards(sys, i, u);
    ThreadStep(sys, i, u);
  }

  lemma DrainLateKeepsInv(sys: Sys, i: Tid)
    requires Inv(sys) && Enabled(sys, DrainLate(i))
    ensures Inv(Next(sys, DrainLate(i)))
  {
    hide SlotOk, ThreadOk, Step, Removed, PairOk, SlotsOf;
    LateDrainOk(sys, i);
    var t := sys.threads[i];
    var s, u := t.pc.slot, t.(pc := Committing);
    var slot, after := sys.slots[s], Apply(sys.slots[s], DrainAll);
    assert PairOk(slot, s, sys.threads, i);
    ConsumeSlot(slot, DrainAll);
    ApplyPair(slot, DrainAll, s, sys.threads, i, u);
    BothStep(sys, s, after, i, u);
  }

  lemma LateDrainOk(sys: Sys, i: Tid)
    requires Inv(sys) && i in sys.threads && sys.threads[i].pc.LateDraining?
    ensures sys.threads[i].pc.slot in sys.slots && SlotOk(sys.slots[sys.threads[i].pc.slot])
    ensures ThreadOk(sys.slots.Keys, sys.threads[i].(pc := Committing))
  {
    hide SlotOk, SlotsOf, DistinctTargets, InPasses;
    ThreadOkOf(sys, i);
  }

  lemma ApplyPair(slot: Slot, op: Op, s: SlotId, threads: map<Tid, Thread>, i: Tid, u: Thread)
    requires i in threads && PairOk(slot, s, threads, i) && u == threads[i].(pc := u.pc)
    ensures PairOk(Apply(slot, op), s, threads[i := u], i) && forall j :: AlikeFor(slot, Apply(slot, op), j)
  {
    hide Step, Removed;
  }

  lemma SlotActionKeepsInv(sys: Sys, a: Action)
    requires Inv(sys) && Enabled(sys, a) && (a.Consume? || a.Close? || a.FinalDrain?)
    ensures Inv(Next(sys, a))
  {
    hide SlotOk, ThreadOk, PairOk, Step, Removed;
    var slot := sys.slots[a.slot];
    assert SlotOk(slot) && DrainOk(slot, a.slot, sys.threads);
    match a {
      case Consume(s, op) =>
        ConsumeSlot(slot, op);
        SlotStep(sys, s, Apply(slot, op));
      case Close(s) =>
        PhaseOnly(slot, slot.(phase := Closed));
        SlotStep(sys, s, slot.(phase := Closed));
      case FinalDrain(s) =>
        ConsumeSlot(slot, DrainAll);
        PhaseOnly(Apply(slot, DrainAll), Apply(slot, DrainAll).(phase := Drained));
        SlotStep(sys, s, Apply(slot, DrainAll).(phase := Drained));
    }
  }

  lemma PhaseOnly(a: Slot, b: Slot)
    requires SlotOk(a) && b == a.(phase := b.phase)
    ensures SlotOk(b)
  {
    LedgerOnly(a, b);
  }

  lemma FreshSlotOk(cfg: Config)
    ensures SlotOk(FreshSlot(cfg))
  {
  }

  lemma OpenKeepsInv(sys: Sys, s: SlotId, cfg: Config)
    requires Inv(sys) && s !in sys.slots
    ensures Inv(Next(sys, Open(s, cfg)))
  {
    hide SlotOk, SlotsOf, DistinctTargets, InPasses, FreshSlot;
    var after := Next(sys, Open(s, cfg));
    FreshSlotOk(cfg);
    forall i | i in after.threads
      ensures ThreadOk(after.slots.Keys, after.threads[i])
    {
      assert ThreadOk(sys.slots.Keys, sys.threads[i]);
    }
    FreshPairs(sys, s, cfg);
  }

  lemma FreshPairs(sys: Sys, s: SlotId, cfg: Config)
    requires Inv(sys) && s !in sys.slots
    ensures FreshSlot(cfg).phase.Live? && Paired(sys.(slots := sys.slots[s := FreshSlot(cfg)]))
  {
    hide SlotOk, DrainOk;
    var after := sys.(slots := sys.slots[s := FreshSlot(cfg)]);
    forall r, i | r in after.slots
      ensures PairOk(after.slots[r], r, after.threads, i)
    {
      if r != s {
        assert PairOk(sys.slots[r], r, sys.threads, i);
      } else if i in sys.threads {
        var t := sys.threads[i];
        assert ThreadOk(sys.slots.Keys, t);
        assert s !in Permitted(t) && s !in t.queued && s !in t.skipped;
      }
    }
  }

  lemma StepKeepsInv(sys: Sys, a: Action)
    requires Inv(sys) && Enabled(sys, a)
    ensures Inv(Next(sys, a))
  {
    hide Inv, Next;
    match a {
      case Arrive(i, size, item, key) => ArriveKeepsInv(sys, i, size, item, key);
      case Route(i, targets) => RouteKeepsInv(sys, i, targets);
      case Check(i) => CheckKeepsInv(sys, i);
      case TryReserve(i, late) => TryReserveKeepsInv(sys, i, late);
      case Unwind(i) => UnwindKeepsInv(sys, i);
      case CommitOne(i) => CommitKeepsInv(sys, i);
      case Confirm(i) => ConfirmKeepsInv(sys, i);
      case DrainLate(i) => DrainLateKeepsInv(sys, i);
      case Open(s, cfg) => OpenKeepsInv(sys, s, cfg);
      case _ => SlotActionKeepsInv(sys, a);
    }
  }

  // ---- Every run

  const Nothing := Sys(map[], map[])

  ghost predicate LegalRun(sys: Sys, actions: seq<Action>)
    requires Inv(sys)
    decreases |actions|
  {
    actions != [] ==>
      && Enabled(sys, actions[0])
      && (StepKeepsInv(sys, actions[0]); LegalRun(Next(sys, actions[0]), actions[1..]))
  }

  ghost function RunTo(sys: Sys, actions: seq<Action>): (end: Sys)
    requires Inv(sys) && LegalRun(sys, actions)
    ensures Inv(end)
    decreases |actions|
  {
    if actions == [] then sys
    else
      StepKeepsInv(sys, actions[0]);
      RunTo(Next(sys, actions[0]), actions[1..])
  }

  ghost predicate AllDone(sys: Sys) {
    forall i | i in sys.threads :: sys.threads[i].pc.Done?
  }

  /** Once every admission has finished, no queue has a reservation left. */
  lemma NoReservationLeaks(actions: seq<Action>, s: SlotId)
    requires LegalRun(Nothing, actions)
    requires var end := RunTo(Nothing, actions); s in end.slots && AllDone(end)
    ensures RunTo(Nothing, actions).slots[s].queue.reserved == multiset{}
  {
    hide RunTo, LegalRun, LedgerOk, DrainOk;
    var end := RunTo(Nothing, actions);
    var slot := end.slots[s];
    forall i
      ensures i !in slot.owners
    {
      assert PairOk(slot, s, end.threads, i);
      if i in end.threads {
        assert ThreadOk(end.slots.Keys, end.threads[i]);
      }
    }
    assert ReservedOk(slot) && slot.owners == map[];
  }
}
