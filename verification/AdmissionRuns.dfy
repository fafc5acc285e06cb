/**
 Whole runs of the admission protocol: what has left a queue stays gone, and
 what an admission that nobody disturbs answers, as a function of its targets.
 */
module AdmissionRuns {
  import opened Wrappers
  import opened QueueModel
  import QueueRuns
  import opened Admission

  // ---- What has left stays gone

  /** From `a` to `b` items only leave, are kept, or come in as the next seq; what had left stays as it left. */
  ghost predicate OnlyLeaves(a: Slot, b: Slot) {
    && (forall n | n in a.left :: n in b.left && b.left[n] == a.left[n])
    && b.left.Keys <= a.left.Keys + a.queue.entries.Keys
    && b.queue.entries.Keys <= a.queue.entries.Keys + {a.queue.nextSeq} && a.queue.nextSeq <= b.queue.nextSeq
  }

  lemma ApplyOnlyLeaves(slot: Slot, op: Op, b: Slot)
    requires LedgerOk(slot) && b.queue == Apply(slot, op).queue && b.left == Apply(slot, op).left
    ensures OnlyLeaves(slot, b)
  {
    hide Step, Removed, SeqsBelow, Dropped, ReasonOf;
    QueueRuns.StepKeys(slot.queue, op);
  }

  /** `b` is `a` as far as its queue and its ledger go, or `a` after `op` on its queue. */
  ghost predicate SameOr(a: Slot, b: Slot, op: Op) {
    || (b.queue == a.queue && b.left == a.left)
    || (b.queue == Apply(a, op).queue && b.left == Apply(a, op).left)
  }

  lemma ReservingApplies(t: Thread, i: Tid, slot: Slot, late: Totals)
    requires t.todo != []
    ensures SameOr(slot, Reserving1(t, i, slot, late).0, Reserve(t.size, late))
  {
    hide Apply, Refusal, Removed;
  }

  lemma CommittingApplies(t: Thread, i: Tid, slot: Slot, s: SlotId)
    ensures SameOr(slot, Committed1(t, i, slot, s).0, CommitOp(t))
  {
    hide Apply;
  }

  /** Whether `a` commits a copy to instance `s`. */
  ghost predicate CommitsTo(sys: Sys, a: Action, s: SlotId) {
    && a.CommitOne? && a.tid in sys.threads
    && sys.threads[a.tid].permits != [] && sys.threads[a.tid].permits[0] == s
  }

  /** Every step leaves the queue of an instance alone, or is one operation on it. */
  lemma StepApplies(sys: Sys, a: Action, s: SlotId) returns (op: Op)
    requires Inv(sys) && Enabled(sys, a) && s in sys.slots
    ensures s in Next(sys, a).slots && SameOr(sys.slots[s], Next(sys, a).slots[s], op)
    ensures if CommitsTo(sys, a, s) then op == CommitOp(sys.threads[a.tid])
            else !op.Commit?
  {
    hide Apply, ThreadOk, PairOk, SlotOk, DrainOk, Reserving1, Committed1;
    var slot := sys.slots[s];
    op := DrainAll;
    match a {
      case TryReserve(i, late) =>
        FirstTarget(sys, i);
        ReservingApplies(sys.threads[i], i, sys.slots[sys.threads[i].todo[0].slot], late);
        op := Reserve(sys.threads[i].size, late);
      case Unwind(i) => op := Cancel(sys.threads[i].size);
      case CommitOne(i) =>
        if CommitsTo(sys, a, s) {
          op := CommitOp(sys.threads[i]);
          CommittingApplies(sys.threads[i], i, slot, s);
        }
      case Consume(_, consumed) => op := consumed;
      case _ =>
    }
  }

  lemma StepOnlyLeaves(sys: Sys, a: Action, s: SlotId)
    requires Inv(sys) && Enabled(sys, a) && s in sys.slots
    ensures s in Next(sys, a).slots && OnlyLeaves(sys.slots[s], Next(sys, a).slots[s])
  {
    hide OnlyLeaves, Apply, Next, Enabled, SlotOk, SameOr;
    var op := StepApplies(sys, a, s);
    SlotOkOf(sys, s);
    SameOrOnlyLeaves(sys.slots[s], Next(sys, a).slots[s], op);
  }

  lemma SlotOkOf(sys: Sys, s: SlotId)
    requires Inv(sys) && s in sys.slots
    ensures SlotOk(sys.slots[s])
  {
  }

  lemma SameOrOnlyLeaves(a: Slot, b: Slot, op: Op)
    requires SlotOk(a) && SameOr(a, b, op)
    ensures OnlyLeaves(a, b)
  {
    hide OnlyLeaves, Apply, LedgerOk, ReservedOk;
    if b.queue == a.queue && b.left == a.left {
      Untouched(a, b);
    } else {
      ApplyOnlyLeaves(a, op, b);
    }
  }

  lemma Untouched(a: Slot, b: Slot)
    requires b.queue == a.queue && b.left == a.left
    ensures OnlyLeaves(a, b)
  {
  }

  /** Whether `n` is stored in instance `s`. */
  ghost predicate Stored(sys: Sys, s: SlotId, n: nat) {
    s in sys.slots && n in sys.slots[s].queue.entries
  }

  ghost predicate HasLeft(sys: Sys, s: SlotId, n: nat) {
    s in sys.slots && n in sys.slots[s].left
  }

  /** How often, in a run, `n` was stored in `s` before a step and not after it. */
  ghost function Exits(sys: Sys, actions: seq<Action>, s: SlotId, n: nat): nat
    requires Inv(sys) && LegalRun(sys, actions)
    decreases |actions|
  {
    if actions == [] then 0
    else
      StepKeepsInv(sys, actions[0]);
      var next := Next(sys, actions[0]);
      (if Stored(sys, s, n) && !Stored(next, s, n) then 1 else 0) + Exits(next, actions[1..], s, n)
  }

  ghost function One(b: bool): nat {
    if b then 1 else 0
  }

  lemma StepExits(sys: Sys, a: Action, s: SlotId, n: nat)
    requires Inv(sys) && Enabled(sys, a) && Inv(Next(sys, a))
    ensures var next := Next(sys, a);
            One(HasLeft(sys, s, n)) + One(Stored(sys, s, n) && !Stored(next, s, n)) == One(HasLeft(next, s, n))
    ensures HasLeft(sys, s, n) ==> HasLeft(Next(sys, a), s, n) && Next(sys, a).slots[s].left[n] == sys.slots[s].left[n]
  {
    hide Next, Enabled, ThreadOk, PairOk, ReservedOk, DrainOk, SeqsBelow, Dropped;
    var next := Next(sys, a);
    if s in sys.slots {
      StepOnlyLeaves(sys, a, s);
      assert LedgerOk(sys.slots[s]) && LedgerOk(next.slots[s]);
    } else {
      FreshHasNoneLeft(sys, a, s);
    }
  }

  lemma FreshHasNoneLeft(sys: Sys, a: Action, s: SlotId)
    requires Inv(sys) && Enabled(sys, a) && s !in sys.slots
    ensures s in Next(sys, a).slots ==> Next(sys, a).slots[s].left == map[]
  {
    hide ThreadOk, PairOk, SlotOk, DrainOk, Apply, Reserving1, Committed1;
    match a {
      case TryReserve(i, _) => FirstTarget(sys, i);
      case Unwind(i) => if sys.threads[i].permits != [] { FirstPermit(sys, i); }
      case CommitOne(i) => if sys.threads[i].permits != [] { FirstPermit(sys, i); }
      case DrainLate(i) => LateDrainOk(sys, i);
      case _ =>
    }
  }

  /**
   In every run, an item leaves its queue at most once, and it has left if and
   only if it left in some step; what had left at the start keeps its reason to
   the end and is stored nowhere in it.
   */
  lemma {:induction false} LeavesOnce(sys: Sys, actions: seq<Action>, s: SlotId, n: nat)
    requires Inv(sys) && LegalRun(sys, actions)
    ensures One(HasLeft(sys, s, n)) + Exits(sys, actions, s, n) == One(HasLeft(RunTo(sys, actions), s, n))
    ensures HasLeft(sys, s, n) ==>
              && HasLeft(RunTo(sys, actions), s, n) && !Stored(RunTo(sys, actions), s, n)
              && RunTo(sys, actions).slots[s].left[n] == sys.slots[s].left[n]
    decreases |actions|
  {
    hide Next, Enabled, Inv, HasLeft, Stored;
    if actions != [] {
      StepKeepsInv(sys, actions[0]);
      StepExits(sys, actions[0], s, n);
      LeavesOnce(Next(sys, actions[0]), actions[1..], s, n);
    } else if HasLeft(sys, s, n) {
      GoneIsNotStored(sys, s, n);
    }
  }

  lemma GoneIsNotStored(sys: Sys, s: SlotId, n: nat)
    requires Inv(sys) && HasLeft(sys, s, n)
    ensures !Stored(sys, s, n)
  {
    hide ThreadOk, PairOk, ReservedOk, DrainOk, SeqsBelow, Dropped;
    assert LedgerOk(sys.slots[s]);
  }

  /**
   In every interleaving, once a retirement has drained its instance and the
   admissions have finished, the instance holds nothing, and every update
   committed to it left in exactly one step of the run: acknowledged, evicted,
   purged, or dropped by a drain and counted as a reload drop.
   */
  lemma RetiredIsEmpty(actions: seq<Action>, s: SlotId)
    requires LegalRun(Nothing, actions)
    requires var end := RunTo(Nothing, actions); s in end.slots && end.slots[s].phase.Drained? && AllDone(end)
    ensures var slot := RunTo(Nothing, actions).slots[s];
            && slot.queue.entries == map[]
            && (forall n :: n in slot.left <==> 0 <= n < slot.queue.nextSeq)
            && (forall n | 0 <= n < slot.queue.nextSeq :: Exits(Nothing, actions, s, n) == 1)
            && slot.reloadDrops == |Dropped(slot.left)|
  {
    hide RunTo, LegalRun, Dropped, Exits, PairOk, ThreadOk, ReservedOk;
    var end := RunTo(Nothing, actions);
    var slot := end.slots[s];
    assert DrainOk(slot, s, end.threads) && LedgerOk(slot);
    assert slot.queue.entries.Keys == {};
    forall n | 0 <= n < slot.queue.nextSeq
      ensures Exits(Nothing, actions, s, n) == 1
    {
      LeavesOnce(Nothing, actions, s, n);
    }
  }

  /** The final drain of an instance takes out all it holds and counts it. */
  lemma DrainCounts(slot: Slot)
    ensures var after := Apply(slot, DrainAll);
            && after.queue == slot.queue.(entries := map[])
            && after.reloadDrops == slot.reloadDrops + |slot.queue.entries|
            && forall n | n in slot.queue.entries :: n in after.left && after.left[n] == ByReload
  {
    assert slot.queue.entries - slot.queue.entries.Keys == map[];
    assert |slot.queue.entries.Keys| == |slot.queue.entries|;
  }

  /** A retirement nobody disturbs closes its instance, takes out all it holds and counts it, and touches nothing else. */
  lemma RetireAlone(sys: Sys, s: SlotId) returns (closed: Sys, end: Sys)
    requires Inv(sys) && s in sys.slots && sys.slots[s].phase.Live?
    ensures closed == Next(sys, Close(s)) && Inv(closed) && Enabled(closed, FinalDrain(s)) && end == Next(closed, FinalDrain(s))
    ensures s in end.slots && end.threads == sys.threads && end.slots == sys.slots[s := end.slots[s]]
    ensures var slot, after := sys.slots[s], end.slots[s];
            && after.phase.Drained? && after.queue == slot.queue.(entries := map[])
            && after.reloadDrops == slot.reloadDrops + |slot.queue.entries|
            && forall n | n in slot.queue.entries :: n in after.left && after.left[n] == ByReload
  {
    hide Inv, Apply, Next;
    StepKeepsInv(sys, Close(s));
    closed := Next(sys, Close(s));
    Closes(sys, s);
    Drains(closed, s);
    end := Next(closed, FinalDrain(s));
    DrainCounts(closed.slots[s]);
  }

  lemma Closes(sys: Sys, s: SlotId)
    requires Inv(sys) && Enabled(sys, Close(s))
    ensures Next(sys, Close(s)) == sys.(slots := sys.slots[s := sys.slots[s].(phase := Closed)])
  {
    hide Inv, Apply;
  }

  lemma Drains(sys: Sys, s: SlotId)
    requires Inv(sys) && Enabled(sys, FinalDrain(s))
    ensures Next(sys, FinalDrain(s)) == sys.(slots := sys.slots[s := Apply(sys.slots[s], DrainAll).(phase := Drained)])
  {
    hide Inv, Apply;
  }

  /** What a consumer does is one operation on the queue of its instance alone. */
  lemma ConsumesOnly(sys: Sys, s: SlotId, op: Op)
    requires Inv(sys) && Enabled(sys, Consume(s, op))
    ensures var end := Next(sys, Consume(s, op));
            && end == sys.(slots := sys.slots[s := end.slots[s]]) && end.slots[s].queue == Step(sys.slots[s].queue, op)
            && end.slots[s].left.Keys == sys.slots[s].left.Keys + Removed(sys.slots[s].queue, op)
  {
    hide Inv, Step, Removed;
  }

  // ---- An admission nobody disturbs

  /** What thread `i` does next when no other thread moves and no permit is dropped under it. */
  ghost function OwnStep(sys: Sys, i: Tid): (a: Action)
    requires i in sys.threads && !sys.threads[i].pc.Loading? && !sys.threads[i].pc.Done?
    ensures Enabled(sys, a)
  {
    match sys.threads[i].pc
    case Checking => Check(i)
    case Reserving => TryReserve(i, NoTotals)
    case Unwinding(_) => Unwind(i)
    case Committing => CommitOne(i)
    case Confirming(_) => Confirm(i)
    case LateDraining(_) => DrainLate(i)
  }

  function Stage(pc: Pc): nat {
    match pc
    case Checking => 2
    case Reserving => 2
    case Loading => 0
    case Done(_) => 0
    case _ => 1
  }

  function Left(t: Thread): nat {
    if Stage(t.pc) == 2 then |t.todo| else |t.permits|
  }

  function Rank(pc: Pc): nat {
    match pc
    case Checking => 1
    case Confirming(_) => 2
    case LateDraining(_) => 1
    case _ => 0
  }

  /** `u` is nearer to its answer than `t`. */
  predicate Nearer(t: Thread, u: Thread) {
    || Stage(u.pc) < Stage(t.pc)
    || (Stage(u.pc) == Stage(t.pc) && Left(u) < Left(t))
    || (Stage(u.pc) == Stage(t.pc) && Left(u) == Left(t) && Rank(u.pc) < Rank(t.pc))
  }

  lemma CheckProgress(sys: Sys, i: Tid)
    requires Inv(sys) && i in sys.threads && sys.threads[i].pc.Checking?
    ensures i in Next(sys, Check(i)).threads && Nearer(sys.threads[i], Next(sys, Check(i)).threads[i])
  {
    hide PairOk, SlotOk, DrainOk, ThreadOk;
  }

  lemma ReserveProgress(sys: Sys, i: Tid)
    requires Inv(sys) && i in sys.threads && sys.threads[i].pc.Reserving?
    ensures i in Next(sys, TryReserve(i, NoTotals)).threads && Nearer(sys.threads[i], Next(sys, TryReserve(i, NoTotals)).threads[i])
  {
    hide PairOk, SlotOk, DrainOk, ThreadOk, Refusal, Apply, Removed;
    FirstTarget(sys, i);
  }

  lemma UnwindProgress(sys: Sys, i: Tid)
    requires Inv(sys) && i in sys.threads && sys.threads[i].pc.Unwinding?
    ensures i in Next(sys, Unwind(i)).threads && Nearer(sys.threads[i], Next(sys, Unwind(i)).threads[i])
  {
    hide PairOk, SlotOk, DrainOk, ThreadOk, Apply;
  }

  lemma CommitProgress(sys: Sys, i: Tid)
    requires Inv(sys) && i in sys.threads && sys.threads[i].pc.Committing?
    ensures i in Next(sys, CommitOne(i)).threads && Nearer(sys.threads[i], Next(sys, CommitOne(i)).threads[i])
  {
    hide PairOk, SlotOk, DrainOk, ThreadOk, Apply;
  }

  lemma ConfirmProgress(sys: Sys, i: Tid)
    requires Inv(sys) && i in sys.threads && (sys.threads[i].pc.Confirming? || sys.threads[i].pc.LateDraining?)
    ensures i in Next(sys, OwnStep(sys, i)).threads && Nearer(sys.threads[i], Next(sys, OwnStep(sys, i)).threads[i])
  {
    hide PairOk, SlotOk, DrainOk, ThreadOk, Apply;
  }

  lemma OwnStepProgress(sys: Sys, i: Tid)
    requires Inv(sys) && i in sys.threads && !sys.threads[i].pc.Loading? && !sys.threads[i].pc.Done?
    ensures i in Next(sys, OwnStep(sys, i)).threads && Nearer(sys.threads[i], Next(sys, OwnStep(sys, i)).threads[i])
  {
    hide Inv, Next, Nearer, Enabled;
    match sys.threads[i].pc {
      case Checking => CheckProgress(sys, i);
      case Reserving => ReserveProgress(sys, i);
      case Unwinding(_) => UnwindProgress(sys, i);
      case Committing => CommitProgress(sys, i);
      case _ => ConfirmProgress(sys, i);
    }
  }

  /** Where the steps of thread `i` alone lead: to its answer, or to a second attempt. */
  ghost function Alone(sys: Sys, i: Tid): (end: Sys)
    requires Inv(sys) && i in sys.threads
    ensures Inv(end) && i in end.threads && (end.threads[i].pc.Loading? || end.threads[i].pc.Done?)
    decreases Stage(sys.threads[i].pc), Left(sys.threads[i]), Rank(sys.threads[i].pc)
  {
    if sys.threads[i].pc.Loading? || sys.threads[i].pc.Done? then sys
    else
      OwnStepProgress(sys, i);
      StepKeepsInv(sys, OwnStep(sys, i));
      Alone(Next(sys, OwnStep(sys, i)), i)
  }

  /** Why `target` would refuse the update, if it would. */
  function TargetRefusal(sys: Sys, target: Target, size: nat): Option<Full>
    requires target.slot in sys.slots
  {
    Refusal(sys.slots[target.slot].queue, size, NoTotals)
  }

  /** The update is dropped for `target` and goes on without it. */
  predicate Skips(sys: Sys, target: Target, size: nat)
    requires target.slot in sys.slots
  {
    var full := TargetRefusal(sys, target, size);
    full.Some? && (full.value.TooLarge? || target.onFull.DropOldest?)
  }

  /** `target` pushes the update back. */
  predicate Blocks(sys: Sys, target: Target, size: nat)
    requires target.slot in sys.slots
  {
    var full := TargetRefusal(sys, target, size);
    full.Some? && !full.value.TooLarge? && target.onFull.Backpressure?
  }

  ghost predicate Known(sys: Sys, targets: seq<Target>) {
    forall target | target in targets :: target.slot in sys.slots && sys.slots[target.slot].phase.Live?
  }

  /** The targets with room. */
  ghost function Accepting(sys: Sys, targets: seq<Target>, size: nat): set<SlotId>
    requires Known(sys, targets)
  {
    set target | target in targets && TargetRefusal(sys, target, size).None? :: target.slot
  }

  ghost predicate Blocked(sys: Sys, targets: seq<Target>, size: nat)
    requires Known(sys, targets)
  {
    exists target :: target in targets && Blocks(sys, target, size)
  }

  predicate InCommit(pc: Pc) {
    pc.Committing? || pc.Confirming? || pc.LateDraining?
  }

  /** From `t` to `u` permits turn into copies, until none is left. */
  ghost predicate Commits(t: Thread, u: Thread) {
    && u.attempt == t.attempt && u.queued + Permitted(u) == t.queued + Permitted(t)
    && (InCommit(u.pc) || (u.pc == Done(Admitted) && Permitted(u) == {}))
  }

  /** Committing queues a copy for every permit left. */
  lemma OwnCommit(sys: Sys, i: Tid)
    requires Inv(sys) && i in sys.threads && InCommit(sys.threads[i].pc)
    ensures i in Next(sys, OwnStep(sys, i)).threads && Commits(sys.threads[i], Next(sys, OwnStep(sys, i)).threads[i])
  {
    hide PairOk, SlotOk, DrainOk, ThreadOk, Apply;
    var t := sys.threads[i];
    if t.pc.Committing? && t.permits != [] {
      ThreadOkOf(sys, i);
      PermitGone(sys.slots.Keys, t, Next(sys, OwnStep(sys, i)).threads[i]);
    }
  }

  lemma {:induction false} AloneCommits(sys: Sys, i: Tid)
    requires Inv(sys) && i in sys.threads && InCommit(sys.threads[i].pc)
    ensures var t, u := sys.threads[i], Alone(sys, i).threads[i];
            u.pc == Done(Admitted) && u.attempt == t.attempt && u.queued == t.queued + Permitted(t)
    decreases Stage(sys.threads[i].pc), Left(sys.threads[i]), Rank(sys.threads[i].pc)
  {
    hide Inv, Next, Permitted;
    OwnCommit(sys, i);
    OwnStepProgress(sys, i);
    StepKeepsInv(sys, OwnStep(sys, i));
    var next := Next(sys, OwnStep(sys, i));
    if InCommit(next.threads[i].pc) {
      AloneCommits(next, i);
    }
  }

  lemma {:induction false} AloneUnwinds(sys: Sys, i: Tid)
    requires Inv(sys) && i in sys.threads && sys.threads[i].pc == Unwinding(false)
    ensures Alone(sys, i).threads[i].pc == Done(Refused)
    decreases Stage(sys.threads[i].pc), Left(sys.threads[i]), Rank(sys.threads[i].pc)
  {
    hide Inv;
    OwnStepProgress(sys, i);
    StepKeepsInv(sys, OwnStep(sys, i));
    if sys.threads[i].permits != [] {
      AloneUnwinds(Next(sys, OwnStep(sys, i)), i);
    }
  }

  lemma AloneStep(sys: Sys, i: Tid) returns (next: Sys)
    requires Inv(sys) && i in sys.threads && !sys.threads[i].pc.Loading? && !sys.threads[i].pc.Done?
    ensures next == Next(sys, OwnStep(sys, i)) && Inv(next) && i in next.threads && Alone(next, i) == Alone(sys, i)
  {
    hide Inv, Next;
    OwnStepProgress(sys, i);
    StepKeepsInv(sys, OwnStep(sys, i));
    next := Next(sys, OwnStep(sys, i));
  }

  lemma OwnCheck(sys: Sys, i: Tid)
    requires Inv(sys) && i in sys.threads && sys.threads[i].pc.Checking? && Known(sys, sys.threads[i].todo)
    ensures sys.threads[i].todo != [] && sys.threads[i].queued == {}
    ensures Next(sys, OwnStep(sys, i)) == sys.(threads := sys.threads[i := sys.threads[i].(pc := Reserving)])
  {
    hide PairOk, SlotOk, DrainOk, SlotsOf, DistinctTargets, InPasses;
    ThreadOkOf(sys, i);
  }

  /** `next` is `sys` after thread `i` dealt with the first target it had left. */
  ghost predicate DealtWith(sys: Sys, next: Sys, i: Tid)
    requires i in sys.threads && i in next.threads && sys.threads[i].todo != [] && sys.threads[i].todo[0].slot in sys.slots
  {
    var t, u := sys.threads[i], next.threads[i];
    && u.attempt == t.attempt && u.size == t.size && u.queued == t.queued && next.slots.Keys == sys.slots.Keys
    && (forall s | s in sys.slots && s != t.todo[0].slot :: next.slots[s] == sys.slots[s])
    && if Blocks(sys, t.todo[0], t.size) then u.pc == Unwinding(false)
       else
         && u.pc == Onward(t.todo[1..]) && u.todo == t.todo[1..]
         && u.permits == if Skips(sys, t.todo[0], t.size) then t.permits else t.permits + [t.todo[0].slot]
  }

  lemma OwnTry(sys: Sys, i: Tid)
    requires Inv(sys) && i in sys.threads && sys.threads[i].pc.Reserving?
    ensures i in Next(sys, OwnStep(sys, i)).threads && sys.threads[i].todo != [] && sys.threads[i].todo[0].slot in sys.slots
    ensures DealtWith(sys, Next(sys, OwnStep(sys, i)), i)
  {
    hide PairOk, SlotOk, DrainOk, ThreadOk, Refusal, Reserving1;
    FirstTarget(sys, i);
    TryOnce(sys.threads[i], i, sys.slots[sys.threads[i].todo[0].slot]);
  }

  /** What reserving in the first target left does to the thread. */
  lemma TryOnce(t: Thread, i: Tid, slot: Slot)
    requires t.todo != []
    ensures var u, full := Reserving1(t, i, slot, NoTotals).1, Refusal(slot.queue, t.size, NoTotals);
            && u.attempt == t.attempt && u.size == t.size && u.queued == t.queued
            && if full.Some? && !full.value.TooLarge? && t.todo[0].onFull.Backpressure? then u.pc == Unwinding(false)
               else
                 && u.pc == Onward(t.todo[1..]) && u.todo == t.todo[1..]
                 && u.permits == if full.Some? then t.permits else t.permits + [t.todo[0].slot]
  {
    hide Apply, Refusal, Removed;
  }

  /** Checking a live target and reserving in it: the two steps at the head of the targets left. */
  lemma OwnReserve(sys: Sys, i: Tid) returns (next: Sys)
    requires Inv(sys) && i in sys.threads && sys.threads[i].pc.Checking? && Known(sys, sys.threads[i].todo)
    ensures Inv(next) && i in next.threads && Alone(next, i) == Alone(sys, i)
    ensures sys.threads[i].todo != [] && sys.threads[i].queued == {} && DealtWith(sys, next, i)
  {
    hide Inv, Next, Alone, Refusal;
    OwnCheck(sys, i);
    var mid := AloneStep(sys, i);
    OwnTry(mid, i);
    next := AloneStep(mid, i);
    assert mid.threads[i] == sys.threads[i].(pc := Reserving) && mid.slots == sys.slots;
  }

  lemma AcceptingHead(sys: Sys, next: Sys, targets: seq<Target>, size: nat)
    requires Known(sys, targets) && targets != [] && DistinctTargets(targets) && next.slots.Keys == sys.slots.Keys
    requires forall s | s in sys.slots && s != targets[0].slot :: next.slots[s] == sys.slots[s]
    ensures Known(next, targets[1..])
    ensures Accepting(sys, targets, size) ==
            (if TargetRefusal(sys, targets[0], size).None? then {targets[0].slot} else {}) + Accepting(next, targets[1..], size)
    ensures Blocked(sys, targets, size) <==> Blocks(sys, targets[0], size) || Blocked(next, targets[1..], size)
  {
    hide Refusal;
    assert targets == [targets[0]] + targets[1..];
    assert forall target | target in targets[1..] :: target.slot != targets[0].slot;
    assert forall target | target in targets[1..] :: target in targets && next.slots[target.slot] == sys.slots[target.slot];
  }

  /** With live targets only: refused exactly when a target pushes back, else queued exactly where there is room. */
  lemma {:induction false} AloneReserves(sys: Sys, i: Tid)
    requires Inv(sys) && i in sys.threads && sys.threads[i].pc == Onward(sys.threads[i].todo) && Known(sys, sys.threads[i].todo)
    ensures var t, u := sys.threads[i], Alone(sys, i).threads[i];
            if Blocked(sys, t.todo, t.size) then u.pc == Done(Refused)
            else
              && u.pc == Done(Admitted) && u.attempt == t.attempt
              && u.queued == t.queued + Permitted(t) + Accepting(sys, t.todo, t.size)
    decreases |sys.threads[i].todo|
  {
    hide Inv, Next, Alone, Blocks, TargetRefusal, DistinctTargets;
    var t := sys.threads[i];
    if t.todo == [] {
      AloneCommits(sys, i);
    } else {
      DistinctTodo(sys, i);
      var next := OwnReserve(sys, i);
      AcceptingHead(sys, next, t.todo, t.size);
      if Blocks(sys, t.todo[0], t.size) {
        AloneUnwinds(next, i);
      } else {
        AloneReserves(next, i);
        SkipsOrAccepts(sys, t.todo[0], t.size);
      }
    }
  }

  lemma DistinctTodo(sys: Sys, i: Tid)
    requires Inv(sys) && i in sys.threads
    ensures DistinctTargets(sys.threads[i].todo)
  {
    hide PairOk, SlotOk, DrainOk, SlotsOf, DistinctTargets, InPasses;
    ThreadOkOf(sys, i);
  }

  lemma SkipsOrAccepts(sys: Sys, target: Target, size: nat)
    requires target.slot in sys.slots && !Blocks(sys, target, size)
    ensures Skips(sys, target, size) <==> TargetRefusal(sys, target, size).Some?
  {
    hide Refusal;
  }

  // ---- Admitted without a copy

  /**
   What an admission that nobody disturbs answers, with all its targets live:
   refused if and only if a target pushes back, else admitted with one queued
   copy exactly where there is room. The answer is "admitted" although no copy
   is queued anywhere if and only if every target drops the update, because it
   is too large for it or because it is full and `drop_oldest`.
   */
  lemma AdmissionAlone(sys: Sys, i: Tid, targets: seq<Target>)
    requires Inv(sys) && Enabled(sys, Route(i, Some(targets))) && Known(sys, targets)
    ensures Inv(Next(sys, Route(i, Some(targets))))
    ensures var size, end := sys.threads[i].size, Alone(Next(sys, Route(i, Some(targets))), i);
            var t := end.threads[i];
            && (t.pc == Done(Refused) <==> Blocked(sys, targets, size))
            && (t.pc == Done(Admitted) <==> !Blocked(sys, targets, size))
            && (t.pc == Done(Admitted) ==>
              forall s | s in end.slots :: end.slots[s].copies[Attempt(i, t.attempt)] == One(s in Accepting(sys, targets, size)))
            && (t.pc == Done(Admitted) && CopiesOf(end, i) == {} <==>
              forall target | target in targets :: Skips(sys, target, size))
  {
    hide Inv, Next, Alone, Blocks, TargetRefusal, Refusal;
    StepKeepsInv(sys, Route(i, Some(targets)));
    var next := Next(sys, Route(i, Some(targets)));
    RouteAlone(sys, i, targets);
    AloneReserves(next, i);
    var end := Alone(next, i);
    CopiesWhereQueued(end, i);
    SameTargets(sys, next, targets, sys.threads[i].size);
    if !Blocked(sys, targets, sys.threads[i].size) {
      NoneAccepts(sys, targets, sys.threads[i].size);
    } else {
      BlockedSomewhere(sys, targets, sys.threads[i].size);
    }
  }

  /** An update no rule routes is answered so at once and touches no queue. */
  lemma UnroutableAtOnce(sys: Sys, i: Tid)
    requires Inv(sys) && Enabled(sys, Route(i, None))
    ensures var end := Next(sys, Route(i, None)); end.slots == sys.slots && end.threads[i].pc == Done(Unroutable)
  {
    hide Inv;
  }

  /** The instances that got a copy from `i`'s last attempt. */
  ghost function CopiesOf(sys: Sys, i: Tid): set<SlotId>
    requires i in sys.threads
  {
    set s | s in sys.slots && sys.slots[s].copies[Attempt(i, sys.threads[i].attempt)] != 0
  }

  lemma CopiesWhereQueued(sys: Sys, i: Tid)
    requires Inv(sys) && i in sys.threads
    ensures CopiesOf(sys, i) == sys.threads[i].queued
    ensures forall s | s in sys.slots :: sys.slots[s].copies[Attempt(i, sys.threads[i].attempt)] == One(s in sys.threads[i].queued)
  {
    hide SlotOk, DrainOk;
    ThreadOkOf(sys, i);
    forall s | s in sys.slots
      ensures sys.slots[s].copies[Attempt(i, sys.threads[i].attempt)] == One(s in sys.threads[i].queued)
    {
      assert PairOk(sys.slots[s], s, sys.threads, i);
    }
  }

  lemma RouteAlone(sys: Sys, i: Tid, targets: seq<Target>)
    requires Inv(sys) && Enabled(sys, Route(i, Some(targets)))
    ensures var next := Next(sys, Route(i, Some(targets)));
            && next.slots == sys.slots && i in next.threads
            && var t := next.threads[i];
               t.todo == targets && t.pc == Onward(targets) && t.queued == {} && t.permits == [] && t.size == sys.threads[i].size
  {
    hide Inv;
  }

  lemma SameTargets(sys: Sys, next: Sys, targets: seq<Target>, size: nat)
    requires Known(sys, targets) && next.slots == sys.slots
    ensures Known(next, targets) && Accepting(next, targets, size) == Accepting(sys, targets, size)
    ensures Blocked(next, targets, size) <==> Blocked(sys, targets, size)
  {
    hide Refusal;
  }

  lemma NoneAccepts(sys: Sys, targets: seq<Target>, size: nat)
    requires Known(sys, targets) && !Blocked(sys, targets, size)
    ensures Accepting(sys, targets, size) == {} <==> forall target | target in targets :: Skips(sys, target, size)
  {
    hide Refusal;
    if forall target | target in targets :: Skips(sys, target, size) {
      assert Accepting(sys, targets, size) == {};
    } else {
      var target :| target in targets && !Skips(sys, target, size);
      assert !Blocks(sys, target, size);
      assert target.slot in Accepting(sys, targets, size);
    }
  }

  lemma BlockedSomewhere(sys: Sys, targets: seq<Target>, size: nat)
    requires Known(sys, targets) && Blocked(sys, targets, size)
    ensures exists target :: target in targets && !Skips(sys, target, size)
  {
    hide Refusal;
    var target :| target in targets && Blocks(sys, target, size);
    assert !Skips(sys, target, size);
  }

  lemma RunHead(sys: Sys, a: Action, rest: seq<Action>)
    requires Inv(sys) && Enabled(sys, a) && Inv(Next(sys, a)) && LegalRun(Next(sys, a), rest)
    ensures LegalRun(sys, [a] + rest) && RunTo(sys, [a] + rest) == RunTo(Next(sys, a), rest)
  {
    hide Inv, Enabled, Next;
    assert ([a] + rest)[1..] == rest;
  }

  /** Room for a hundred items, but for none of a byte. */
  const NoBytes := Config(100, 0, 0, Free, OnFull.Backpressure)
  const OneTarget := [Target(0, OnFull.Backpressure)]

  /** One instance and one thread with an update of one byte, at `pc` in the first attempt. */
  ghost function OneByte(pc: Pc, todo: seq<Target>, routed: set<SlotId>, skipped: set<SlotId>): Sys {
    Sys(map[0 := FreshSlot(NoBytes).(drops := if skipped == {} then multiset{} else multiset{Attempt(0, 0)})],
        map[0 := Thread(1, Item(0, 7), None, 0, pc, routed, todo, [], {}, skipped, false, false, false)])
  }

  lemma NothingOk()
    ensures Inv(Nothing)
  {
  }

  lemma OpenAndArrive()
    ensures Inv(Sys(map[0 := FreshSlot(NoBytes)], map[])) && Inv(OneByte(Loading, [], {}, {}))
    ensures LegalRun(Nothing, [Open(0, NoBytes), Arrive(0, 1, Item(0, 7), None)])
    ensures RunTo(Nothing, [Open(0, NoBytes), Arrive(0, 1, Item(0, 7), None)]) == OneByte(Loading, [], {}, {})
  {
    hide SlotOk, ThreadOk, PairOk, DrainOk;
    var a, b := Open(0, NoBytes), Arrive(0, 1, Item(0, 7), None);
    StepKeepsInv(Nothing, a);
    var ready := Next(Nothing, a);
    StepKeepsInv(ready, b);
    assert Next(ready, b) == OneByte(Loading, [], {}, {});
    RunHead(ready, b, []);
    RunHead(Nothing, a, [b]);
    assert [a] + [b] == [a, b];
  }

  lemma RouteAndCheck()
    ensures Inv(OneByte(Loading, [], {}, {})) && Inv(OneByte(Reserving, OneTarget, {0}, {}))
    ensures LegalRun(OneByte(Loading, [], {}, {}), [Route(0, Some(OneTarget)), Check(0)])
    ensures RunTo(OneByte(Loading, [], {}, {}), [Route(0, Some(OneTarget)), Check(0)]) == OneByte(Reserving, OneTarget, {0}, {})
  {
    hide SlotOk, ThreadOk, PairOk, DrainOk;
    OpenAndArrive();
    var start, a, b := OneByte(Loading, [], {}, {}), Route(0, Some(OneTarget)), Check(0);
    assert SlotsOf(OneTarget) == {0};
    StepKeepsInv(start, a);
    var routed := Next(start, a);
    assert routed == OneByte(Checking, OneTarget, {0}, {});
    StepKeepsInv(routed, b);
    assert Next(routed, b) == OneByte(Reserving, OneTarget, {0}, {});
    RunHead(routed, b, []);
    RunHead(start, a, [b]);
    assert [a] + [b] == [a, b];
  }

  /** Too large: the target drops the update, and nothing is left to reserve. */
  lemma DropsIt()
    requires Inv(OneByte(Reserving, OneTarget, {0}, {}))
    ensures Next(OneByte(Reserving, OneTarget, {0}, {}), TryReserve(0, NoTotals)) == OneByte(Committing, [], {0}, {0})
  {
    hide Inv;
    var start := OneByte(Reserving, OneTarget, {0}, {});
    assert Refusal(Initial(NoBytes), 1, NoTotals) == Some(TooLarge);
    assert {} + {0} == {0} && OneTarget[1..] == [];
    var reserved := Next(start, TryReserve(0, NoTotals));
    assert reserved.slots[0] == OneByte(Committing, [], {0}, {0}).slots[0];
    assert reserved.threads[0] == OneByte(Committing, [], {0}, {0}).threads[0];
  }

  lemma AnswersAdmitted()
    requires Inv(OneByte(Committing, [], {0}, {0}))
    ensures Next(OneByte(Committing, [], {0}, {0}), CommitOne(0)) == OneByte(Done(Admitted), [], {0}, {0})
  {
    hide Inv;
  }

  lemma DropAndAnswer()
    ensures Inv(OneByte(Reserving, OneTarget, {0}, {})) && Inv(OneByte(Done(Admitted), [], {0}, {0}))
    ensures LegalRun(OneByte(Reserving, OneTarget, {0}, {}), [TryReserve(0, NoTotals), CommitOne(0)])
    ensures RunTo(OneByte(Reserving, OneTarget, {0}, {}), [TryReserve(0, NoTotals), CommitOne(0)]) == OneByte(Done(Admitted), [], {0}, {0})
  {
    hide Inv, LegalRun, RunTo, Next;
    RouteAndCheck();
    DropsIt();
    var start, a, b := OneByte(Reserving, OneTarget, {0}, {}), TryReserve(0, NoTotals), CommitOne(0);
    StepKeepsInv(start, a);
    AnswersAdmitted();
    StepKeepsInv(Next(start, a), b);
    EmptyRun(Next(Next(start, a), b));
    RunHead(Next(start, a), b, []);
    assert [a] + [b] == [a, b] && [b] + [] == [b];
    RunHead(start, a, [b]);
  }

  lemma EmptyRun(sys: Sys)
    requires Inv(sys)
    ensures LegalRun(sys, []) && RunTo(sys, []) == sys
  {
    hide Inv;
  }

  lemma {:induction false} RunInTwo(sys: Sys, first: seq<Action>, second: seq<Action>)
    requires Inv(sys) && LegalRun(sys, first) && LegalRun(RunTo(sys, first), second)
    ensures LegalRun(sys, first + second) && RunTo(sys, first + second) == RunTo(RunTo(sys, first), second)
    decreases |first|
  {
    hide Inv, Enabled, Next;
    if first == [] {
      assert first + second == second;
    } else {
      StepKeepsInv(sys, first[0]);
      RunInTwo(Next(sys, first[0]), first[1..], second);
      assert (first + second)[1..] == first[1..] + second;
    }
  }

  /**
   "Admitted" does not mean queued for at least one consumer: an update of one
   byte, routed to one live instance that takes no bytes, is answered as
   admitted while no instance ever held a copy.
   */
  lemma AdmittedNowhere() returns (actions: seq<Action>)
    ensures LegalRun(Nothing, actions)
    ensures var end := RunTo(Nothing, actions);
            && end.threads.Keys == {0} && end.threads[0].pc == Done(Admitted) && CopiesOf(end, 0) == {}
            && forall s | s in end.slots :: end.slots[s].queue.nextSeq == 0
  {
    hide Inv, Enabled, Next, LegalRun, RunTo;
    NothingOk();
    OpenAndArrive();
    RouteAndCheck();
    DropAndAnswer();
    var a, b, c := [Open(0, NoBytes), Arrive(0, 1, Item(0, 7), None)], [Route(0, Some(OneTarget)), Check(0)],
      [TryReserve(0, NoTotals), CommitOne(0)];
    RunInTwo(Nothing, a, b);
    RunInTwo(Nothing, a + b, c);
    actions := a + b + c;
  }
}
