/**
 What the copies are copies of: over every run of the admission protocol, what a
 queue stores for an admission is the update that arrived with it.
 */
module AdmissionCopies {
  import opened Wrappers
  import opened QueueModel
  import QueueRuns
  import opened Admission
  import opened AdmissionRuns

  /** `e` is the update of thread `t`: its item, key and size, acknowledged by its id. */
  ghost predicate IsCopyOf(e: Entry, t: Thread) {
    e.item == t.item && e.key == t.key && e.size == t.size && e.ackId == t.item.updateId
  }

  /** `e` and `f` differ at most in who leases them. */
  predicate SameContents(e: Entry, f: Entry) {
    e.item == f.item && e.key == f.key && e.size == f.size && e.ackId == f.ackId
  }

  ghost predicate Stands(slot: Slot, s: SlotId, threads: map<Tid, Thread>, n: nat)
    requires n in slot.committer && n in slot.stored
  {
    var i := slot.committer[n];
    n < slot.queue.nextSeq && i in threads && s in threads[i].queued && IsCopyOf(slot.stored[n], threads[i])
  }

  /** Exactly one seq of the instance was committed by `i`. */
  ghost predicate OneOf(slot: Slot, i: Tid) {
    && (exists n :: n in slot.committer && slot.committer[n] == i)
    && forall n, m :: n in slot.committer && m in slot.committer && slot.committer[n] == slot.committer[m] == i ==> n == m
  }

  ghost predicate SlotCopies(slot: Slot, s: SlotId, threads: map<Tid, Thread>) {
    && slot.committer.Keys == slot.stored.Keys
    && (forall n | n in slot.committer :: Stands(slot, s, threads, n))
    && (forall n | n in slot.queue.entries :: n in slot.stored && SameContents(slot.queue.entries[n], slot.stored[n]))
    && (forall i | i in threads && s in threads[i].queued :: OneOf(slot, i))
  }

  ghost predicate Copied(sys: Sys) {
    forall s | s in sys.slots :: SlotCopies(sys.slots[s], s, sys.threads)
  }

  // ---- Queues keep what they store

  lemma StepKeepsContents(st: State, op: Op)
    requires !op.Commit?
    ensures Step(st, op).nextSeq == st.nextSeq
    ensures forall n | n in Step(st, op).entries :: n in st.entries && SameContents(Step(st, op).entries[n], st.entries[n])
  {
    hide Evicted, Picked, Refusal, Weight, RoomFor;
    if op.Reserve? {
      QueueRuns.EvictedShape(st.cfg, Seen(st, op.late), st.entries, op.size);
    }
  }

  // ---- Frames

  /** Towards instance `s`, every thread is where it was and has the update it had; new ones have queued nothing. */
  ghost predicate ThreadsKept(threads: map<Tid, Thread>, next: map<Tid, Thread>, s: SlotId) {
    && (forall i | i in threads :: i in next && SameUpdate(threads[i], next[i]) && (s in threads[i].queued <==> s in next[i].queued))
    && (forall i | i in next && i !in threads :: s !in next[i].queued)
  }

  predicate SameUpdate(t: Thread, u: Thread) {
    t.item == u.item && t.key == u.key && t.size == u.size
  }

  ghost predicate SlotKept(slot: Slot, after: Slot) {
    && after.committer == slot.committer && after.stored == slot.stored && after.queue.nextSeq == slot.queue.nextSeq
    && forall n | n in after.queue.entries ::
      n in slot.queue.entries && SameContents(after.queue.entries[n], slot.queue.entries[n])
  }

  lemma KeptCopies(slot: Slot, after: Slot, s: SlotId, threads: map<Tid, Thread>, next: map<Tid, Thread>)
    requires SlotCopies(slot, s, threads) && SlotKept(slot, after) && ThreadsKept(threads, next, s)
    ensures SlotCopies(after, s, next)
  {
    forall i | i in next && s in next[i].queued
      ensures OneOf(after, i)
    {
      assert i in threads && OneOf(slot, i);
    }
    forall n | n in after.committer
      ensures Stands(after, s, next, n)
    {
      assert Stands(slot, s, threads, n);
    }
  }

  lemma AppliedKept(slot: Slot, after: Slot, op: Op)
    requires SameOr(slot, after, op) && !op.Commit? && after.committer == slot.committer && after.stored == slot.stored
    ensures SlotKept(slot, after)
  {
    hide Step, Removed;
    StepKeepsContents(slot.queue, op);
  }

  /** Neither reserving nor any operation on the queue changes who committed what. */
  lemma OnlyCommitsCommit(slot: Slot, t: Thread, i: Tid, late: Totals, op: Op)
    ensures Apply(slot, op).committer == slot.committer && Apply(slot, op).stored == slot.stored
    ensures WithoutOwner(slot, i, op).committer == slot.committer && WithoutOwner(slot, i, op).stored == slot.stored
    ensures t.todo != [] ==>
              Reserving1(t, i, slot, late).0.committer == slot.committer && Reserving1(t, i, slot, late).0.stored == slot.stored
  {
    hide Step, Removed, Refusal;
  }

  lemma BookkeepingKept(sys: Sys, a: Action, s: SlotId)
    requires Inv(sys) && Enabled(sys, a) && s in sys.slots && !CommitsTo(sys, a, s)
    ensures s in Next(sys, a).slots
    ensures var slot, after := sys.slots[s], Next(sys, a).slots[s]; after.committer == slot.committer && after.stored == slot.stored
  {
    hide Apply, WithoutOwner, Reserving1, Committed1, ThreadOk, PairOk, SlotOk, DrainOk;
    var slot := sys.slots[s];
    match a {
      case TryReserve(i, late) =>
        FirstTarget(sys, i);
        OnlyCommitsCommit(slot, sys.threads[i], i, late, DrainAll);
      case Unwind(i) => OnlyCommitsCommit(slot, sys.threads[i], i, NoTotals, Cancel(sys.threads[i].size));
      case DrainLate(i) => OnlyCommitsCommit(slot, sys.threads[i], i, NoTotals, DrainAll);
      case Consume(_, op) => AppliesAlone(slot, op);
      case FinalDrain(_) => AppliesAlone(slot, DrainAll);
      case _ =>
    }
  }

  lemma AppliesAlone(slot: Slot, op: Op)
    ensures Apply(slot, op).committer == slot.committer && Apply(slot, op).stored == slot.stored
  {
    hide Step, Removed;
  }

  predicate IsThreads(a: Action) {
    a.Route? || a.Check? || a.TryReserve? || a.Unwind? || a.CommitOne? || a.Confirm? || a.DrainLate?
  }

  /** A thread's step leaves the other threads and its own update alone, and its copies too unless it commits one. */
  lemma OwnThread(sys: Sys, a: Action)
    requires Inv(sys) && Enabled(sys, a) && IsThreads(a)
    ensures var i, next := a.tid, Next(sys, a).threads;
            && i in sys.threads && i in next && next == sys.threads[i := next[i]] && SameUpdate(sys.threads[i], next[i])
            && next[i].queued == sys.threads[i].queued + (if a.CommitOne? && sys.threads[i].permits != [] then {sys.threads[i].permits[0]} else {})
  {
    hide PairOk, SlotOk, DrainOk, ThreadOk, Apply, Refusal, Removed;
    NothingQueuedYet(sys, a.tid);
    if a.TryReserve? {
      FirstTarget(sys, a.tid);
    }
  }

  lemma NothingQueuedYet(sys: Sys, i: Tid)
    requires Inv(sys) && i in sys.threads
    ensures sys.threads[i].pc.Loading? || sys.threads[i].pc.Unwinding? ==> sys.threads[i].queued == {}
  {
    hide PairOk, SlotOk, DrainOk, DistinctTargets, InPasses, SlotsOf;
    ThreadOkOf(sys, i);
  }

  lemma OtherThreads(sys: Sys, a: Action)
    requires Inv(sys) && Enabled(sys, a) && !IsThreads(a)
    ensures var next := Next(sys, a).threads;
            if a.Arrive? then
              a.tid !in sys.threads && a.tid in next && next == sys.threads[a.tid := next[a.tid]] && next[a.tid].queued == {}
              && a == Arrive(a.tid, next[a.tid].size, next[a.tid].item, next[a.tid].key)
            else next == sys.threads
  {
    hide Inv, Apply;
  }

  lemma UpdatesKept(sys: Sys, a: Action, s: SlotId)
    requires Inv(sys) && Enabled(sys, a) && s in sys.slots && !CommitsTo(sys, a, s)
    ensures ThreadsKept(sys.threads, Next(sys, a).threads, s)
  {
    hide Inv, Next, Enabled;
    if IsThreads(a) {
      OwnThread(sys, a);
    } else {
      OtherThreads(sys, a);
    }
  }

  // ---- A commit

  lemma CommitStores(slot: Slot, t: Thread, i: Tid, s: SlotId)
    ensures var after, n := Committed1(t, i, slot, s).0, slot.queue.nextSeq;
            && after.committer == slot.committer[n := i] && after.queue.nextSeq == n + 1
            && n in after.stored && after.stored == slot.stored[n := after.stored[n]]
            && after.queue.entries == slot.queue.entries[n := after.stored[n]]
            && IsCopyOf(after.stored[n], t)
  {
    var after, n := Committed1(t, i, slot, s).0, slot.queue.nextSeq;
    assert after.queue == Step(slot.queue, CommitOp(t));
    assert n in after.queue.entries;
    assert after.stored[n] == after.queue.entries[n];
  }

  /** `after` is `slot` with one more copy, `e`, committed by `i`. */
  ghost predicate OneMore(slot: Slot, after: Slot, i: Tid, e: Entry) {
    var n := slot.queue.nextSeq;
    && after.committer == slot.committer[n := i] && after.queue.nextSeq == n + 1
    && after.stored == slot.stored[n := e] && after.queue.entries == slot.queue.entries[n := e]
  }

  lemma OneMoreStands(slot: Slot, after: Slot, s: SlotId, threads: map<Tid, Thread>, i: Tid, u: Thread, e: Entry)
    requires SlotCopies(slot, s, threads) && OneMore(slot, after, i, e)
    requires i in threads && SameUpdate(threads[i], u) && s in u.queued && IsCopyOf(e, u)
    ensures after.committer.Keys == after.stored.Keys
    ensures forall m | m in after.committer :: Stands(after, s, threads[i := u], m)
  {
    forall m | m in after.committer
      ensures Stands(after, s, threads[i := u], m)
    {
      if m != slot.queue.nextSeq {
        assert Stands(slot, s, threads, m);
      }
    }
  }

  lemma OneMoreCopies(slot: Slot, after: Slot, s: SlotId, threads: map<Tid, Thread>, i: Tid, u: Thread, e: Entry)
    requires SlotCopies(slot, s, threads) && OneMore(slot, after, i, e)
    requires i in threads && s !in threads[i].queued && SameUpdate(threads[i], u) && u.queued == threads[i].queued + {s} && IsCopyOf(e, u)
    ensures SlotCopies(after, s, threads[i := u])
  {
    hide Stands, OneOf;
    OneMoreStands(slot, after, s, threads, i, u, e);
    forall j | j in threads[i := u] && s in threads[i := u][j].queued
      ensures OneOf(after, j)
    {
      NewOne(slot, after, s, threads, i, j);
    }
  }

  lemma CommitCopies(slot: Slot, t: Thread, i: Tid, s: SlotId, threads: map<Tid, Thread>)
    requires SlotCopies(slot, s, threads) && i in threads && threads[i] == t && s !in t.queued
    ensures var (after, u) := Committed1(t, i, slot, s); SlotCopies(after, s, threads[i := u])
  {
    hide Committed1, SlotCopies;
    CommitStores(slot, t, i, s);
    CommittedThread(slot, t, i, s);
    var (after, u) := Committed1(t, i, slot, s);
    OneMoreCopies(slot, after, s, threads, i, u, after.stored[slot.queue.nextSeq]);
  }

  lemma CommittedThread(slot: Slot, t: Thread, i: Tid, s: SlotId)
    ensures var u := Committed1(t, i, slot, s).1; SameUpdate(t, u) && u.queued == t.queued + {s}
  {
    hide Step;
  }

  lemma NewOne(slot: Slot, after: Slot, s: SlotId, threads: map<Tid, Thread>, i: Tid, j: Tid)
    requires SlotCopies(slot, s, threads) && i in threads && s !in threads[i].queued
    requires after.committer == slot.committer[slot.queue.nextSeq := i]
    requires j == i || (j in threads && s in threads[j].queued)
    ensures OneOf(after, j)
  {
    var n := slot.queue.nextSeq;
    assert forall m | m in slot.committer :: Stands(slot, s, threads, m);
    assert n !in slot.committer;
    assert after.committer[n] == i;
    if j != i {
      assert OneOf(slot, j);
      var m :| m in slot.committer && slot.committer[m] == j;
      assert m in after.committer && after.committer[m] == j;
    }
  }

  // ---- Every step

  lemma SlotStaysCopied(sys: Sys, a: Action, s: SlotId)
    requires Inv(sys) && Copied(sys) && Enabled(sys, a) && s in sys.slots
    ensures s in Next(sys, a).slots && SlotCopies(Next(sys, a).slots[s], s, Next(sys, a).threads)
  {
    hide SlotCopies, SameOr, SlotKept, ThreadsKept, Apply, Committed1, Reserving1, ThreadOk, PairOk, SlotOk, DrainOk;
    if CommitsTo(sys, a, s) {
      FirstPermit(sys, a.tid);
      CommitCopies(sys.slots[s], sys.threads[a.tid], a.tid, s, sys.threads);
    } else {
      CopiedElsewhere(sys, a, s);
    }
  }

  lemma CopiedElsewhere(sys: Sys, a: Action, s: SlotId)
    requires Inv(sys) && Copied(sys) && Enabled(sys, a) && s in sys.slots && !CommitsTo(sys, a, s)
    ensures s in Next(sys, a).slots && SlotCopies(Next(sys, a).slots[s], s, Next(sys, a).threads)
  {
    hide SlotCopies, SameOr, SlotKept, ThreadsKept, Inv, Next, Enabled, CommitsTo;
    var op := StepApplies(sys, a, s);
    BookkeepingKept(sys, a, s);
    UpdatesKept(sys, a, s);
    var slot, after := sys.slots[s], Next(sys, a).slots[s];
    AppliedKept(slot, after, op);
    KeptCopies(slot, after, s, sys.threads, Next(sys, a).threads);
  }

  lemma FreshCopied(sys: Sys, a: Action, s: SlotId)
    requires Inv(sys) && Enabled(sys, a) && s !in sys.slots && s in Next(sys, a).slots
    ensures SlotCopies(Next(sys, a).slots[s], s, Next(sys, a).threads)
  {
    hide ThreadOk, PairOk, SlotOk, DrainOk, Apply, Reserving1, Committed1;
    match a {
      case TryReserve(i, _) => FirstTarget(sys, i);
      case Unwind(i) => if sys.threads[i].permits != [] { FirstPermit(sys, i); }
      case CommitOne(i) => if sys.threads[i].permits != [] { FirstPermit(sys, i); }
      case DrainLate(i) => LateDrainOk(sys, i);
      case _ =>
    }
    forall i | i in sys.threads
      ensures s !in sys.threads[i].queued
    {
      QueuedInside(sys, i);
    }
  }

  lemma QueuedInside(sys: Sys, i: Tid)
    requires Inv(sys) && i in sys.threads
    ensures sys.threads[i].queued <= sys.slots.Keys
  {
    hide PairOk, SlotOk, DrainOk, DistinctTargets, InPasses, SlotsOf;
    ThreadOkOf(sys, i);
  }

  lemma StepKeepsCopied(sys: Sys, a: Action)
    requires Inv(sys) && Copied(sys) && Enabled(sys, a)
    ensures Copied(Next(sys, a))
  {
    hide Inv, Next, Enabled, SlotCopies;
    var next := Next(sys, a);
    forall s | s in next.slots
      ensures SlotCopies(next.slots[s], s, next.threads)
    {
      if s in sys.slots {
        SlotStaysCopied(sys, a, s);
      } else {
        FreshCopied(sys, a, s);
      }
    }
  }

  lemma {:induction false} RunKeepsCopied(sys: Sys, actions: seq<Action>)
    requires Inv(sys) && Copied(sys) && LegalRun(sys, actions)
    ensures Copied(RunTo(sys, actions))
    decreases |actions|
  {
    hide Inv, Copied, Next, Enabled;
    if actions != [] {
      StepKeepsInv(sys, actions[0]);
      StepKeepsCopied(sys, actions[0]);
      RunKeepsCopied(Next(sys, actions[0]), actions[1..]);
    }
  }

  // ---- Threads have the updates that arrived

  lemma StepKeepsUpdates(sys: Sys, a: Action, i: Tid)
    requires Inv(sys) && Enabled(sys, a) && i in Next(sys, a).threads
    ensures var u := Next(sys, a).threads[i];
            if i in sys.threads then SameUpdate(sys.threads[i], u) else a == Arrive(i, u.size, u.item, u.key)
  {
    hide Inv, Next, Enabled;
    if IsThreads(a) {
      OwnThread(sys, a);
    } else {
      OtherThreads(sys, a);
    }
  }

  lemma {:induction false} ArrivedSo(sys: Sys, actions: seq<Action>, i: Tid)
    requires Inv(sys) && LegalRun(sys, actions) && i in RunTo(sys, actions).threads
    ensures var u := RunTo(sys, actions).threads[i];
            if i in sys.threads then SameUpdate(sys.threads[i], u) else Arrive(i, u.size, u.item, u.key) in actions
    decreases |actions|
  {
    hide Inv, Next, Enabled;
    if actions != [] {
      assert actions == [actions[0]] + actions[1..];
      StepKeepsInv(sys, actions[0]);
      ArrivedSo(Next(sys, actions[0]), actions[1..], i);
      if i in Next(sys, actions[0]).threads {
        StepKeepsUpdates(sys, actions[0], i);
      } else if i in sys.threads {
        StepKeepsThreads(sys, actions[0], i);
      }
    }
  }

  lemma StepKeepsThreads(sys: Sys, a: Action, i: Tid)
    requires Inv(sys) && Enabled(sys, a) && i in sys.threads
    ensures i in Next(sys, a).threads
  {
    hide Inv, Next, Enabled;
    if IsThreads(a) {
      OwnThread(sys, a);
    } else {
      OtherThreads(sys, a);
    }
  }

  // ---- One copy of the update for each target

  /** The queue stored, under one seq and no other, the update `item` for thread `i`. */
  ghost predicate StoredOnce(slot: Slot, i: Tid, item: Item, key: Option<Key>, size: nat) {
    exists n ::
      && n in slot.committer && n in slot.stored && slot.committer[n] == i
      && SameContents(slot.stored[n], Entry(item, key, item.updateId, size, None))
      && (forall m | m in slot.committer && slot.committer[m] == i :: m == n)
      && (n in slot.queue.entries ==> SameContents(slot.queue.entries[n], slot.stored[n]))
  }

  /**
   An update that was admitted got, from each of its targets, exactly one queued
   copy or exactly one counted drop, and from others neither. The copy is the
   update as it arrived, with its key and size, under one seq, acknowledged by
   its update id.
   */
  lemma AdmittedOncePerTarget(actions: seq<Action>, i: Tid, s: SlotId)
    requires LegalRun(Nothing, actions)
    requires var end := RunTo(Nothing, actions); i in end.threads && end.threads[i].pc == Done(Admitted) && s in end.slots
    ensures var end := RunTo(Nothing, actions);
            var t, slot := end.threads[i], end.slots[s];
            && slot.copies[Attempt(i, t.attempt)] + slot.drops[Attempt(i, t.attempt)] == (if s in t.routed then 1 else 0)
            && Arrive(i, t.size, t.item, t.key) in actions
            && (slot.copies[Attempt(i, t.attempt)] == 1 <==> StoredOnce(slot, i, t.item, t.key, t.size))
  {
    hide RunTo, LegalRun, SlotOk, DrainOk, StoredOnce, SlotCopies;
    var end := RunTo(Nothing, actions);
    var t := end.threads[i];
    RunKeepsCopied(Nothing, actions);
    ArrivedSo(Nothing, actions, i);
    assert ThreadOk(end.slots.Keys, t) && PairOk(end.slots[s], s, end.threads, i);
    assert t.routed == t.queued + t.skipped by {
      assert SlotsOf(t.todo) == {} && Permitted(t) == {};
    }
    QueuedIffStored(end.slots[s], s, end.threads, i);
  }

  lemma QueuedIffStored(slot: Slot, s: SlotId, threads: map<Tid, Thread>, i: Tid)
    requires SlotCopies(slot, s, threads) && i in threads
    ensures s in threads[i].queued <==> StoredOnce(slot, i, threads[i].item, threads[i].key, threads[i].size)
  {
    var t := threads[i];
    assert forall n | n in slot.committer :: Stands(slot, s, threads, n);
    if s in t.queued {
      assert OneOf(slot, i);
      var n :| n in slot.committer && slot.committer[n] == i;
      assert n in slot.stored && Stands(slot, s, threads, n);
    }
  }

  // ---- Closed instances

  /** Thread `t` has neither room nor a copy in `s`, and has not looked at it in this attempt. */
  ghost predicate Outside(t: Thread, s: SlotId) {
    s !in t.permits && s !in t.queued && (t.pc.Reserving? && t.todo != [] ==> t.todo[0].slot != s)
  }

  ghost predicate Shut(sys: Sys, i: Tid, s: SlotId) {
    s in sys.slots && !sys.slots[s].phase.Live? && (i in sys.threads ==> Outside(sys.threads[i], s))
  }

  lemma StaysClosed(sys: Sys, a: Action, s: SlotId)
    requires Inv(sys) && Enabled(sys, a) && s in sys.slots && !sys.slots[s].phase.Live?
    ensures s in Next(sys, a).slots && !Next(sys, a).slots[s].phase.Live?
  {
    hide Step, Removed, Refusal, ThreadOk, PairOk, SlotOk, DrainOk;
    if a.TryReserve? {
      FirstTarget(sys, a.tid);
    }
  }

  lemma StaysOutside(sys: Sys, a: Action, s: SlotId)
    requires Inv(sys) && Enabled(sys, a) && IsThreads(a) && Shut(sys, a.tid, s)
    ensures a.tid in Next(sys, a).threads && Outside(Next(sys, a).threads[a.tid], s)
  {
    hide Apply, Refusal, Removed, ThreadOk, PairOk, SlotOk, DrainOk;
    OwnThread(sys, a);
    var t := sys.threads[a.tid];
    assert t.permits != [] ==> t.permits == [t.permits[0]] + t.permits[1..];
    if a.TryReserve? {
      FirstTarget(sys, a.tid);
    }
  }

  lemma StepKeepsShut(sys: Sys, a: Action, i: Tid, s: SlotId)
    requires Inv(sys) && Enabled(sys, a) && Shut(sys, i, s)
    ensures Shut(Next(sys, a), i, s)
  {
    hide Inv, Next, Enabled;
    StaysClosed(sys, a, s);
    if IsThreads(a) {
      OwnThread(sys, a);
      if a.tid == i {
        StaysOutside(sys, a, s);
      }
    } else {
      OtherThreads(sys, a);
      if a.Arrive? {
        ArrivesOutside(sys, a, s);
      }
    }
  }

  lemma ArrivesOutside(sys: Sys, a: Action, s: SlotId)
    requires Inv(sys) && Enabled(sys, a) && a.Arrive?
    ensures a.tid in Next(sys, a).threads && Outside(Next(sys, a).threads[a.tid], s)
  {
    hide Inv;
  }

  /**
   An admission that has not looked at an instance before it closed never queues
   a copy in it, in either attempt.
   */
  lemma {:induction false} ClosedGetsNothing(sys: Sys, actions: seq<Action>, i: Tid, s: SlotId)
    requires Inv(sys) && LegalRun(sys, actions) && Shut(sys, i, s)
    ensures Shut(RunTo(sys, actions), i, s)
    ensures var end := RunTo(sys, actions); i in end.threads ==> end.slots[s].copies[Attempt(i, end.threads[i].attempt)] == 0
    decreases |actions|
  {
    hide Inv, Next, Enabled, Shut;
    if actions == [] {
      OutsideNoCopy(sys, i, s);
    } else {
      StepKeepsInv(sys, actions[0]);
      StepKeepsShut(sys, actions[0], i, s);
      ClosedGetsNothing(Next(sys, actions[0]), actions[1..], i, s);
    }
  }

  lemma OutsideNoCopy(sys: Sys, i: Tid, s: SlotId)
    requires Inv(sys) && Shut(sys, i, s)
    ensures s in sys.slots && (i in sys.threads ==> sys.slots[s].copies[Attempt(i, sys.threads[i].attempt)] == 0)
  {
    hide SlotOk, DrainOk, ThreadOk;
    assert PairOk(sys.slots[s], s, sys.threads, i);
  }

  /** A thread that found a target closed is in its second attempt, or about to be. */
  ghost predicate TriesAgain(t: Thread) {
    t.sawClosed && t.attempt == 0 ==> t.pc == Unwinding(true)
  }

  lemma StepTriesAgain(sys: Sys, a: Action)
    requires Inv(sys) && Enabled(sys, a) && forall i | i in sys.threads :: TriesAgain(sys.threads[i])
    ensures forall i | i in Next(sys, a).threads :: TriesAgain(Next(sys, a).threads[i])
  {
    hide Apply, Refusal, Removed, ThreadOk, PairOk, SlotOk, DrainOk;
    if IsThreads(a) {
      OwnThread(sys, a);
      if a.TryReserve? {
        FirstTarget(sys, a.tid);
      }
    }
  }

  lemma {:induction false} RunTriesAgain(sys: Sys, actions: seq<Action>)
    requires Inv(sys) && LegalRun(sys, actions) && forall i | i in sys.threads :: TriesAgain(sys.threads[i])
    ensures forall i | i in RunTo(sys, actions).threads :: TriesAgain(RunTo(sys, actions).threads[i])
    decreases |actions|
  {
    hide Inv, Next, Enabled, TriesAgain;
    if actions != [] {
      StepKeepsInv(sys, actions[0]);
      StepTriesAgain(sys, actions[0]);
      RunTriesAgain(Next(sys, actions[0]), actions[1..]);
    }
  }

  /** An update whose target was found closed is refused only after a second attempt, on the state of then. */
  lemma RefusedOnlyAfterRetry(actions: seq<Action>, i: Tid)
    requires LegalRun(Nothing, actions)
    requires var end := RunTo(Nothing, actions);
             i in end.threads && end.threads[i].pc == Done(Refused) && end.threads[i].sawClosed
    ensures RunTo(Nothing, actions).threads[i].attempt == 1
  {
    hide LegalRun, RunTo, PairOk, SlotOk, DrainOk;
    RunTriesAgain(Nothing, actions);
    ThreadOkOf(RunTo(Nothing, actions), i);
  }

  // ---- What a refused update leaves behind

  /** A reservation of thread `i` takes a stored item out. */
  ghost predicate Evicts(sys: Sys, a: Action, i: Tid)
    requires Inv(sys) && Enabled(sys, a)
  {
    a.TryReserve? && a.tid == i && exists s, n :: Stored(sys, s, n) && !Stored(Next(sys, a), s, n)
  }

  /** Thread `i` finds its next target closed, or that target's queue with another `on_full` than the state has. */
  ghost predicate Excuses(sys: Sys, a: Action, i: Tid) {
    && i in sys.threads && sys.threads[i].todo != [] && sys.threads[i].todo[0].slot in sys.slots
    && var target := sys.threads[i].todo[0];
       || (a == Check(i) && !sys.slots[target.slot].phase.Live?)
       || (a.TryReserve? && a.tid == i && sys.slots[target.slot].queue.cfg.onFull != target.onFull)
  }

  ghost predicate EvictsIn(sys: Sys, actions: seq<Action>, i: Tid)
    requires Inv(sys) && LegalRun(sys, actions)
    decreases |actions|
  {
    actions != [] &&
    (StepKeepsInv(sys, actions[0]); Evicts(sys, actions[0], i) || EvictsIn(Next(sys, actions[0]), actions[1..], i))
  }

  ghost predicate ExcusedIn(sys: Sys, actions: seq<Action>, i: Tid)
    requires Inv(sys) && LegalRun(sys, actions)
    decreases |actions|
  {
    actions != [] &&
    (StepKeepsInv(sys, actions[0]); Excuses(sys, actions[0], i) || ExcusedIn(Next(sys, actions[0]), actions[1..], i))
  }

  ghost predicate Marked(sys: Sys, i: Tid) {
    i in sys.threads && sys.threads[i].evicted
  }

  ghost predicate Noted(sys: Sys, i: Tid) {
    i in sys.threads && (sys.threads[i].sawClosed || sys.threads[i].mismatched)
  }

  lemma EvictionMarked(sys: Sys, a: Action, i: Tid)
    requires Inv(sys) && Enabled(sys, a) && Evicts(sys, a, i)
    ensures Marked(Next(sys, a), i)
  {
    hide PairOk, SlotOk, DrainOk, ThreadOk, Refusal, Removed, Step;
    FirstTarget(sys, i);
    var t := sys.threads[i];
    var slot := sys.slots[t.todo[0].slot];
    QueueRuns.StepKeys(slot.queue, Reserve(t.size, a.late));
  }

  lemma MarkKept(sys: Sys, a: Action, i: Tid)
    requires Inv(sys) && Enabled(sys, a)
    ensures Marked(sys, i) ==> Marked(Next(sys, a), i)
    ensures Noted(Next(sys, a), i) ==> Noted(sys, i) || Excuses(sys, a, i)
  {
    hide PairOk, SlotOk, DrainOk, ThreadOk, Refusal, Removed, Apply;
    if a.TryReserve? {
      FirstTarget(sys, a.tid);
    }
    if a.Check? {
      CheckedTarget(sys, a.tid);
    }
  }

  lemma CheckedTarget(sys: Sys, i: Tid)
    requires Inv(sys) && i in sys.threads && sys.threads[i].pc.Checking?
    ensures sys.threads[i].todo != [] && sys.threads[i].todo[0].slot in sys.slots
  {
    hide PairOk, SlotOk, DrainOk, DistinctTargets, InPasses;
    ThreadOkOf(sys, i);
    assert sys.threads[i].todo[0] in sys.threads[i].todo;
    assert sys.threads[i].todo[0].slot in SlotsOf(sys.threads[i].todo);
  }

  lemma {:induction false} RunMarks(sys: Sys, actions: seq<Action>, i: Tid)
    requires Inv(sys) && LegalRun(sys, actions)
    ensures Marked(sys, i) || EvictsIn(sys, actions, i) ==> Marked(RunTo(sys, actions), i)
    ensures Noted(RunTo(sys, actions), i) ==> Noted(sys, i) || ExcusedIn(sys, actions, i)
    decreases |actions|
  {
    hide Inv, Next, Enabled, Marked, Noted, Evicts, Excuses;
    if actions != [] {
      StepKeepsInv(sys, actions[0]);
      MarkKept(sys, actions[0], i);
      if Evicts(sys, actions[0], i) {
        EvictionMarked(sys, actions[0], i);
      }
      RunMarks(Next(sys, actions[0]), actions[1..], i);
    }
  }

  /**
   A refused update left no reservation and no queued copy anywhere, and its
   reservations took nothing out of any queue unless it found a target closed or
   a queue whose `on_full` was not the state's.
   */
  lemma RefusedLeavesNothing(actions: seq<Action>, i: Tid, s: SlotId, n: nat)
    requires LegalRun(Nothing, actions)
    requires var end := RunTo(Nothing, actions); i in end.threads && end.threads[i].pc == Done(Refused) && s in end.slots
    ensures var slot := RunTo(Nothing, actions).slots[s]; i !in slot.owners && slot.copies[Attempt(i, n)] == 0
    ensures EvictsIn(Nothing, actions, i) ==> ExcusedIn(Nothing, actions, i)
  {
    hide RunTo, LegalRun, SlotOk, DrainOk, EvictsIn, ExcusedIn;
    var end := RunTo(Nothing, actions);
    assert ThreadOk(end.slots.Keys, end.threads[i]) && PairOk(end.slots[s], s, end.threads, i);
    RunMarks(Nothing, actions, i);
  }
}
