/**
 Webhook requests (`handle` of crates/tgin-botapi/src/webhook.rs) against the
 shutdown of crates/tgin/src/app.rs: any number of handlers, reloads and drains
 that end, the cancelling of ingest, and the coordinator's first look at what is
 pending, which reads the queues of the current state and then those of the
 retired instances.
 */
module Webhook {

  type Tid = nat
  type Copy = nat
  type Inst = nat

  datatype Status = Ok200 | Retry503 | Rejected

  /** What a handler does next. */
  datatype Pc =
    | CheckFirst
    | ReadBody
    | CheckSecond
    | Admitting
    | Confirming(inst: Inst)
    | LateDraining(inst: Inst)
    | CheckLast
    | Answered(status: Status)

  /** Who holds the engine's write lock: a commit with what it has still to do, or the end of a drain. */
  datatype Lock = Free | Committing(drop: set<Inst>, push: set<Inst>, next: set<Inst>) | Ending(inst: Inst)

  /**
   `current` are the instances of the state, `retired` the list of those that
   drain. `served` were in some state so far and `known` were ever created.
   `reviving` are the ones the commit under way has taken off `retired`.
   */
  datatype Engine = Engine(
    current: set<Inst>, retired: set<Inst>, reviving: set<Inst>, closed: set<Inst>,
    served: set<Inst>, known: set<Inst>, lock: Lock)

  /** Where an instance is. */
  datatype Place = Current | Retiring | Draining | Reviving | BeingEnded | Gone

  function PlaceOf(e: Engine, x: Inst): Place {
    if x in e.current then if x in e.retired then Retiring else Current
    else if x in e.retired then Draining
    else if x in e.reviving then Reviving
    else if e.lock == Ending(x) then BeingEnded
    else Gone
  }

  /**
   The coordinator's `pending`: the state it loaded (`first`), the retired list
   it locked (`second`), the instances whose queues it has still to read, the
   copies it found and their number.
   */
  datatype Look =
    | NotYet
    | OverCurrent(first: Engine, toRead: set<Inst>, counted: set<Copy>, total: nat)
    | OverRetired(first: Engine, second: Engine, toRead: set<Inst>, counted: set<Copy>, total: nat)
    | Looked(first: Engine, second: Engine, counted: set<Copy>, total: nat)

  /**
   `mine` are the copies each handler queued. A queued copy is `held` by an
   instance until it is acknowledged, delivered or dropped, and `gone` then.
   Copies are numbered as they are queued; those from `lateFrom` on came after
   the cancel.
   */
  datatype World = World(
    pcs: map<Tid, Pc>, mine: map<Tid, set<Copy>>, held: map<Copy, Inst>, gone: set<Copy>, next: Copy,
    cancelled: bool, lateFrom: Copy, draining: bool, engine: Engine, look: Look)

  datatype Action =
    // A handler.
    | Begin(tid: Tid, allowed: bool)
    | First(tid: Tid)
    | Body(tid: Tid, readable: bool)
    | Second(tid: Tid)
    | Queue(tid: Tid, inst: Inst)
    | Confirm(tid: Tid)
    | DrainLate(tid: Tid)
    | Admitted(tid: Tid)
    | NotAdmitted(tid: Tid, unroutable: bool)
    | Last(tid: Tid)
    // A consumer.
    | Leave(copy: Copy)
    // A reload's commit and the end of a drain.
    | BeginCommit(revived: set<Inst>, started: set<Inst>, retiring: set<Inst>)
    | DropRevived(inst: Inst)
    | PushRetiring(inst: Inst)
    | Swap
    | EndDrain(inst: Inst)
    | CloseEnded
    | FinalDrain
    // The coordinator.
    | CancelIngest
    | BeginDrain
    | LoadState
    | ReadCurrent(inst: Inst)
    | ListRetired
    | ReadRetired(inst: Inst)
    | Finish

  predicate At(w: World, i: Tid, pc: Pc) {
    i in w.pcs && w.pcs[i] == pc
  }

  predicate IsHandler(a: Action) {
    a.Begin? || a.First? || a.Body? || a.Second? || a.Queue? || a.Confirm? || a.DrainLate? || a.Admitted? || a.NotAdmitted? || a.Last?
  }

  predicate HandlerEnabled(w: World, a: Action)
    requires IsHandler(a)
  {
    match a
    case Begin(i, _) => i !in w.pcs
    case First(i) => At(w, i, CheckFirst)
    case Body(i, _) => At(w, i, ReadBody)
    case Second(i) => At(w, i, CheckSecond)
    case Queue(i, x) => At(w, i, Pc.Admitting) && i in w.mine && x in w.engine.served
    case Confirm(i) => i in w.pcs && w.pcs[i].Confirming?
    case DrainLate(i) => i in w.pcs && w.pcs[i].LateDraining?
    case Admitted(i) => At(w, i, Pc.Admitting)
    case NotAdmitted(i, _) => At(w, i, Pc.Admitting) && i in w.mine && w.mine[i] == {}
    case Last(i) => At(w, i, CheckLast)
  }

  predicate Enabled(w: World, a: Action) {
    if IsHandler(a) then HandlerEnabled(w, a)
    else
      var e := w.engine;
      match a
      case Leave(c) => c in w.held
      case BeginCommit(revived, started, retiring) =>
        e.lock.Free? && revived <= e.retired && retiring <= e.current && started !! e.known
      case DropRevived(x) => e.lock.Committing? && x in e.lock.drop && !w.look.OverRetired?
      case PushRetiring(x) => e.lock.Committing? && e.lock.drop == {} && x in e.lock.push && !w.look.OverRetired?
      case Swap => e.lock.Committing? && e.lock.drop == {} && e.lock.push == {}
      case EndDrain(x) => e.lock.Free? && x in e.retired && !w.look.OverRetired?
      case CloseEnded => e.lock.Ending? && e.lock.inst !in e.closed
      case FinalDrain => e.lock.Ending? && e.lock.inst in e.closed
      case CancelIngest => !w.cancelled
      case BeginDrain => w.cancelled && e.lock.Free?
      case LoadState => w.draining && w.look.NotYet?
      case ReadCurrent(x) => w.look.OverCurrent? && x in w.look.toRead
      case ListRetired => w.look.OverCurrent? && w.look.toRead == {}
      case ReadRetired(x) => w.look.OverRetired? && x in w.look.toRead
      case Finish => w.look.OverRetired? && w.look.toRead == {}
  }

  /** Refused if ingest is cancelled, else on to `pc`. */
  function Checked(w: World, i: Tid, pc: Pc): World {
    w.(pcs := w.pcs[i := if w.cancelled then Answered(Retry503) else pc])
  }

  function CopiesAt(w: World, x: Inst): set<Copy> {
    set c | c in w.held && w.held[c] == x
  }

  function Without(w: World, copies: set<Copy>): World {
    w.(held := w.held - copies, gone := w.gone + copies)
  }

  function EngineNext(e: Engine, a: Action): Engine {
    match a
    case BeginCommit(revived, started, retiring) =>
      e.(known := e.known + started, lock := Committing(revived, retiring, e.current - retiring + revived + started))
    case DropRevived(x) =>
      if e.lock.Committing? then
        e.(retired := e.retired - {x}, reviving := e.reviving + {x}, lock := e.lock.(drop := e.lock.drop - {x}))
      else e
    case PushRetiring(x) =>
      if e.lock.Committing? then e.(retired := e.retired + {x}, lock := e.lock.(push := e.lock.push - {x})) else e
    case Swap =>
      if e.lock.Committing? then
        e.(current := e.lock.next, served := e.served + e.lock.next, reviving := {}, lock := Free)
      else e
    case EndDrain(x) => e.(retired := e.retired - {x}, lock := Ending(x))
    case CloseEnded => if e.lock.Ending? then e.(closed := e.closed + {e.lock.inst}) else e
    case FinalDrain => e.(lock := Free)
    case _ => e
  }

  function LookNext(w: World, a: Action): Look {
    match a
    case LoadState => OverCurrent(w.engine, w.engine.current, {}, 0)
    case ReadCurrent(x) =>
      if w.look.OverCurrent? then
        OverCurrent(w.look.first, w.look.toRead - {x}, w.look.counted + CopiesAt(w, x), w.look.total + |CopiesAt(w, x)|)
      else w.look
    case ListRetired =>
      if w.look.OverCurrent? then OverRetired(w.look.first, w.engine, w.engine.retired, w.look.counted, w.look.total) else w.look
    case ReadRetired(x) =>
      if w.look.OverRetired? then
        OverRetired(w.look.first, w.look.second, w.look.toRead - {x}, w.look.counted + CopiesAt(w, x), w.look.total + |CopiesAt(w, x)|)
      else w.look
    case Finish =>
      if w.look.OverRetired? then Looked(w.look.first, w.look.second, w.look.counted, w.look.total) else w.look
    case _ => w.look
  }

  function HandlerNext(w: World, a: Action): World
    requires IsHandler(a) && HandlerEnabled(w, a)
  {
    match a
    case Begin(i, allowed) =>
      w.(pcs := w.pcs[i := if allowed then CheckFirst else Answered(Rejected)], mine := w.mine[i := {}])
    case First(i) => Checked(w, i, ReadBody)
    case Body(i, readable) => w.(pcs := w.pcs[i := if readable then CheckSecond else Answered(Rejected)])
    case Second(i) => Checked(w, i, Pc.Admitting)
    case Queue(i, x) =>
      w.(pcs := w.pcs[i := Confirming(x)], mine := w.mine[i := w.mine[i] + {w.next}],
         held := w.held[w.next := x], next := w.next + 1)
    case Confirm(i) =>
      var x := w.pcs[i].inst;
      w.(pcs := w.pcs[i := if x in w.engine.closed then LateDraining(x) else Pc.Admitting])
    case DrainLate(i) => Without(w, CopiesAt(w, w.pcs[i].inst)).(pcs := w.pcs[i := Pc.Admitting])
    case Admitted(i) => w.(pcs := w.pcs[i := CheckLast])
    case NotAdmitted(i, unroutable) => w.(pcs := w.pcs[i := Answered(if unroutable then Ok200 else Retry503)])
    case Last(i) => Checked(w, i, Answered(Ok200))
  }

  function Next(w: World, a: Action): World
    requires Enabled(w, a)
  {
    if IsHandler(a) then HandlerNext(w, a)
    else
      match a
      case Leave(c) => Without(w, {c})
      case CancelIngest => w.(cancelled := true, lateFrom := w.next)
      case BeginDrain => w.(draining := true)
      case FinalDrain => Without(w, CopiesAt(w, w.engine.lock.inst)).(engine := EngineNext(w.engine, a))
      case _ => w.(engine := EngineNext(w.engine, a), look := LookNext(w, a))
  }

  const Start := World(map[], map[], map[], {}, 0, false, 0, false, Engine({}, {}, {}, {}, {}, {}, Free), NotYet)

  // ---- The engine

  /** Instances whose drain has ended or is being ended. */
  function Over(e: Engine): set<Inst> {
    e.closed + if e.lock.Ending? then {e.lock.inst} else {}
  }

  ghost predicate EngineOk(e: Engine) {
    && e.current + e.retired + e.reviving + Over(e) <= e.known && e.current <= e.served <= e.known
    && Over(e) !! e.current && Over(e) !! e.retired && Over(e) !! e.reviving
    && e.reviving !! e.current && e.reviving !! e.retired
    && e.served <= e.current + e.retired + e.reviving + Over(e)
    && match e.lock {
      case Free => e.current !! e.retired && e.reviving == {}
      case Ending(_) => e.current !! e.retired && e.reviving == {}
      case Committing(drop, push, next) =>
        && drop <= e.retired && drop !! e.current && push <= e.current && push !! e.retired && push !! next
        && e.reviving + drop <= next <= e.known && next !! Over(e)
        && next * e.retired == drop && e.current <= next + push + e.retired
    }
  }

  /** No step brings back an instance whose drain is over. */
  lemma EngineStep(w: World, a: Action)
    requires EngineOk(w.engine) && Enabled(w, a)
    ensures var e, f := w.engine, EngineNext(w.engine, a);
            EngineOk(f) && Over(e) <= Over(f) && e.served <= f.served
  {
  }

  // ---- What every step keeps

  /** A copy queued for a request answered 200. */
  ghost predicate Acked(w: World, c: Copy) {
    exists i :: i in w.pcs && i in w.mine && w.pcs[i] == Answered(Ok200) && c in w.mine[i]
  }

  ghost predicate CopiesOk(w: World) {
    && w.mine.Keys == w.pcs.Keys
    && w.held.Keys !! w.gone && (forall c :: c in w.held || c in w.gone <==> 0 <= c < w.next)
    && (forall i, c | i in w.mine && c in w.mine[i] :: 0 <= c < w.next)
    && (forall c | c in w.held :: w.held[c] in w.engine.served)
    && (w.draining ==> w.cancelled) && (!w.look.NotYet? ==> w.draining)
    && (w.cancelled ==> w.lateFrom <= w.next && forall c: Copy | Acked(w, c) :: c < w.lateFrom)
  }

  /** The final drain of `x` has run. */
  predicate Drained(e: Engine, x: Inst) {
    x in e.closed && e.lock != Ending(x)
  }

  predicate HandlerAt(pc: Pc, x: Inst) {
    pc == Confirming(x) || pc == LateDraining(x)
  }

  /** A drained instance holds a handler's copy only until that handler has looked at the flag. */
  ghost predicate DrainsOk(w: World) {
    forall i, c | i in w.mine && i in w.pcs && c in w.mine[i] && c in w.held && Drained(w.engine, w.held[c]) ::
      HandlerAt(w.pcs[i], w.held[c])
  }

  /** The copies counted are those queued before the cancel in the instances read, as far as they are still held. */
  ghost predicate Counts(w: World, read: set<Inst>, counted: set<Copy>, total: nat) {
    && (forall c | c in w.held && c < w.lateFrom && w.held[c] in read :: c in counted)
    && (forall c | c in w.held && c in counted :: w.held[c] in read)
    && (forall c | c in counted :: c < w.next)
    && (total == 0 <==> counted == {})
  }

  /** Acknowledged copies that are held were in instances with a place. */
  ghost predicate Placed(w: World, e: Engine) {
    forall c | c in w.held && Acked(w, c) :: PlaceOf(e, w.held[c]) != Gone
  }

  ghost predicate LookOk(w: World) {
    match w.look
    case NotYet => true
    case OverCurrent(first, toRead, counted, total) =>
      && Counts(w, first.current - toRead, counted, total) && Placed(w, first)
      && EngineOk(first) && Over(first) <= Over(w.engine) && toRead <= first.current
    case OverRetired(first, second, toRead, counted, total) =>
      && Counts(w, first.current + (second.retired - toRead), counted, total) && Placed(w, first) && Placed(w, second)
      && EngineOk(first) && EngineOk(second) && Over(first) <= Over(second) && toRead <= second.retired
    case Looked(first, second, counted, total) =>
      && Counts(w, first.current + second.retired, counted, total) && Placed(w, first) && Placed(w, second)
      && EngineOk(first) && EngineOk(second) && Over(first) <= Over(second)
  }

  ghost predicate Inv(w: World) {
    EngineOk(w.engine) && CopiesOk(w) && DrainsOk(w) && LookOk(w)
  }

  /** From `w` to `n`, held copies stay where they are or go, one may come, and after the cancel none becomes acknowledged. */
  ghost predicate Later(w: World, n: World) {
    && (forall c | c in n.held :: (c in w.held && n.held[c] == w.held[c]) || (c !in w.held && c == w.next))
    && (w.cancelled ==> n.lateFrom == w.lateFrom && n.cancelled && forall c: Copy | Acked(n, c) :: Acked(w, c))
    && w.next <= n.next
  }

  lemma HandlerOwn(w: World, a: Action)
    requires w.mine.Keys == w.pcs.Keys && IsHandler(a) && HandlerEnabled(w, a)
    ensures var i, n := a.tid, HandlerNext(w, a);
            && i in n.pcs && i in n.mine && (a.Begin? <==> i !in w.pcs)
            && n.pcs == w.pcs[i := n.pcs[i]] && n.mine == w.mine[i := n.mine[i]]
            && n.mine[i] == (if a.Begin? then {} else if a.Queue? then w.mine[i] + {w.next} else w.mine[i])
            && (w.cancelled && n.pcs[i] == Answered(Ok200) ==> n.mine[i] == {})
  {
    hide CopiesAt;
  }

  lemma HandlerRest(w: World, a: Action)
    requires IsHandler(a) && HandlerEnabled(w, a)
    ensures var n := HandlerNext(w, a);
            && n.engine == w.engine && n.look == w.look
            && n.cancelled == w.cancelled && n.lateFrom == w.lateFrom && n.draining == w.draining
  {
    hide CopiesAt;
  }

  /** A handler's step changes its own entries, and answers 200 after the cancel only if it queued nothing. */
  lemma HandlerFrame(w: World, a: Action)
    requires w.mine.Keys == w.pcs.Keys && Enabled(w, a) && IsHandler(a)
    ensures var i, n := a.tid, Next(w, a);
            && i in n.pcs && i in n.mine && (a.Begin? <==> i !in w.pcs)
            && n.pcs == w.pcs[i := n.pcs[i]] && n.mine == w.mine[i := n.mine[i]]
            && n.mine[i] == (if a.Begin? then {} else if a.Queue? then w.mine[i] + {w.next} else w.mine[i])
            && (w.cancelled && n.pcs[i] == Answered(Ok200) ==> n.mine[i] == {})
            && n.engine == w.engine && n.look == w.look
            && n.cancelled == w.cancelled && n.lateFrom == w.lateFrom && n.draining == w.draining
  {
    hide HandlerNext, HandlerEnabled, EngineNext, LookNext;
    HandlerOwn(w, a);
    HandlerRest(w, a);
  }

  /** Every other step leaves the handlers alone. */
  lemma OtherFrame(w: World, a: Action)
    requires Enabled(w, a) && !IsHandler(a)
    ensures var n := Next(w, a);
            && n.pcs == w.pcs && n.mine == w.mine && n.engine == EngineNext(w.engine, a)
            && (n.look.NotYet? || !w.look.NotYet? || w.draining)
            && (if a.CancelIngest? then !w.cancelled && n.cancelled && n.lateFrom == w.next
                else n.cancelled == w.cancelled && n.lateFrom == w.lateFrom)
            && (w.draining ==> n.draining) && (n.draining ==> w.draining || w.cancelled)
  {
    hide CopiesAt;
  }

  /** The copies a step takes away. */
  function Leaving(w: World, a: Action): set<Copy>
    requires Enabled(w, a)
  {
    match a
    case Leave(c) => {c}
    case DrainLate(i) => CopiesAt(w, w.pcs[i].inst)
    case FinalDrain => CopiesAt(w, w.engine.lock.inst)
    case _ => {}
  }

  lemma HandlerHeld(w: World, a: Action)
    requires Enabled(w, a) && IsHandler(a) && !a.Queue?
    ensures var n, s := Next(w, a), Leaving(w, a);
            n.held == w.held - s && n.gone == w.gone + s && n.next == w.next && s <= w.held.Keys
  {
    hide EngineNext, LookNext;
    assert w.held - {} == w.held && w.gone + {} == w.gone;
  }

  lemma OtherHeld(w: World, a: Action)
    requires Enabled(w, a) && !IsHandler(a)
    ensures var n, s := Next(w, a), Leaving(w, a);
            n.held == w.held - s && n.gone == w.gone + s && n.next == w.next && s <= w.held.Keys
  {
    hide EngineNext, LookNext, HandlerNext;
    assert w.held - {} == w.held && w.gone + {} == w.gone;
  }

  lemma QueueHeld(w: World, a: Action)
    requires Enabled(w, a) && a.Queue?
    ensures var n := Next(w, a);
            n.held == w.held[w.next := a.inst] && n.gone == w.gone && n.next == w.next + 1 && a.inst in w.engine.served
  {
    hide EngineNext, LookNext, CopiesAt;
  }

  /** A step leaves held copies where they are, takes some away, or adds the next one. */
  lemma HeldFrame(w: World, a: Action)
    requires w.held.Keys !! w.gone && w.next !in w.held && w.next !in w.gone && Enabled(w, a)
    ensures var n := Next(w, a);
            && (forall c | c in n.held ::
              if c in w.held then n.held[c] == w.held[c] else a.Queue? && c == w.next && n.held[c] == a.inst && a.inst in w.engine.served)
            && n.held.Keys + n.gone == w.held.Keys + w.gone + (if a.Queue? then {w.next} else {})
            && n.held.Keys !! n.gone && n.next == w.next + (if a.Queue? then 1 else 0)
  {
    hide Next, Enabled, Leaving, IsHandler;
    if a.Queue? {
      QueueHeld(w, a);
    } else if IsHandler(a) {
      HandlerHeld(w, a);
    } else {
      OtherHeld(w, a);
    }
  }

  lemma HandlerAcks(w: World, n: World, i: Tid)
    requires i in n.pcs && i in n.mine && w.mine.Keys == w.pcs.Keys
    requires n.pcs == w.pcs[i := n.pcs[i]] && n.mine == w.mine[i := n.mine[i]]
    requires n.pcs[i] == Answered(Ok200) ==> n.mine[i] == {}
    ensures forall c: Copy | Acked(n, c) :: Acked(w, c)
  {
  }

  lemma SameAcks(w: World, n: World)
    requires n.pcs == w.pcs && n.mine == w.mine
    ensures forall c: Copy | Acked(n, c) :: Acked(w, c)
  {
  }

  lemma StepLater(w: World, a: Action)
    requires CopiesOk(w) && Enabled(w, a)
    ensures Later(w, Next(w, a))
  {
    hide Next, Enabled, Acked;
    var n := Next(w, a);
    HeldFrame(w, a);
    if IsHandler(a) {
      HandlerFrame(w, a);
      if w.cancelled {
        HandlerAcks(w, n, a.tid);
      }
    } else {
      OtherFrame(w, a);
      SameAcks(w, n);
    }
  }

  lemma AckedAreMine(n: World)
    requires forall i, c | i in n.mine && c in n.mine[i] :: 0 <= c < n.next
    ensures forall c: Copy | Acked(n, c) :: c < n.next
  {
  }

  lemma MineKept(w: World, a: Action)
    requires CopiesOk(w) && Enabled(w, a)
    ensures var n := Next(w, a);
            n.mine.Keys == n.pcs.Keys && forall i, c | i in n.mine && c in n.mine[i] :: 0 <= c < n.next
  {
    hide Next, Enabled, Acked, IsHandler;
    HeldFrame(w, a);
    if IsHandler(a) {
      HandlerFrame(w, a);
    } else {
      OtherFrame(w, a);
    }
  }

  lemma StepKeepsCopies(w: World, a: Action)
    requires EngineOk(w.engine) && CopiesOk(w) && Enabled(w, a)
    ensures CopiesOk(Next(w, a))
  {
    hide Next, Enabled, Acked, EngineOk, EngineNext, IsHandler;
    var n := Next(w, a);
    StepLater(w, a);
    HeldFrame(w, a);
    MineKept(w, a);
    EngineStep(w, a);
    if IsHandler(a) {
      HandlerFrame(w, a);
    } else {
      OtherFrame(w, a);
      if a.CancelIngest? {
        AckedAreMine(n);
      }
    }
  }

  lemma DrainedBy(w: World, a: Action, x: Inst)
    requires EngineOk(w.engine) && Enabled(w, a) && Drained(EngineNext(w.engine, a), x)
    ensures Drained(w.engine, x) || (a.FinalDrain? && w.engine.lock == Ending(x))
  {
  }

  /** An instance becomes drained only by its final drain, which leaves nothing in it. */
  lemma DrainedFrame(w: World, a: Action, c: Copy)
    requires EngineOk(w.engine) && w.mine.Keys == w.pcs.Keys && Enabled(w, a)
    requires c in Next(w, a).held && c in w.held && Drained(Next(w, a).engine, w.held[c])
    ensures Drained(w.engine, w.held[c])
  {
    if a.FinalDrain? {
      FinalDrainEmpties(w, c);
    }
    hide Next, EngineNext, EngineOk, Enabled;
    if IsHandler(a) {
      HandlerFrame(w, a);
    } else {
      OtherFrame(w, a);
      DrainedBy(w, a, w.held[c]);
    }
  }

  lemma FinalDrainEmpties(w: World, c: Copy)
    requires Enabled(w, FinalDrain) && c in w.held && c in Next(w, FinalDrain).held
    ensures w.engine.lock != Ending(w.held[c])
  {
  }

  /** A handler leaves an instance it queued to only once it found it open or drained it. */
  lemma LeavesDrained(w: World, a: Action, x: Inst, c: Copy)
    requires Enabled(w, a) && IsHandler(a) && a.tid in w.pcs && HandlerAt(w.pcs[a.tid], x) && Drained(w.engine, x)
    requires c in w.held && w.held[c] == x && c in Next(w, a).held
    ensures a.tid in Next(w, a).pcs && HandlerAt(Next(w, a).pcs[a.tid], x)
  {
    hide EngineNext, LookNext;
  }

  lemma StepKeepsDrains(w: World, a: Action)
    requires EngineOk(w.engine) && CopiesOk(w) && DrainsOk(w) && Enabled(w, a)
    ensures DrainsOk(Next(w, a))
  {
    hide Next, Enabled, Acked, EngineOk, EngineNext, Drained;
    var n := Next(w, a);
    HeldFrame(w, a);
    if IsHandler(a) {
      HandlerFrame(w, a);
      HandlerQueues(w, a);
    } else {
      OtherFrame(w, a);
    }
    forall i, c | i in n.mine && i in n.pcs && c in n.mine[i] && c in n.held && Drained(n.engine, n.held[c])
      ensures HandlerAt(n.pcs[i], n.held[c])
    {
      if c in w.held {
        assert i in w.mine && c in w.mine[i];
        DrainedFrame(w, a, c);
        assert HandlerAt(w.pcs[i], w.held[c]);
        if IsHandler(a) && i == a.tid {
          LeavesDrained(w, a, w.held[c], c);
        }
      }
    }
  }

  lemma HandlerQueues(w: World, a: Action)
    requires Enabled(w, a)
    ensures a.Queue? ==> a.tid in Next(w, a).pcs && Next(w, a).pcs[a.tid] == Confirming(a.inst)
  {
  }

  lemma CountsKept(w: World, n: World, read: set<Inst>, counted: set<Copy>, total: nat)
    requires Counts(w, read, counted, total) && Later(w, n) && CopiesOk(w) && w.cancelled
    ensures Counts(n, read, counted, total)
  {
  }

  lemma PlacedKept(w: World, n: World, e: Engine)
    requires Placed(w, e) && Later(w, n) && CopiesOk(w) && w.cancelled
    ensures Placed(n, e)
  {
    forall c | c in n.held && Acked(n, c)
      ensures PlaceOf(e, n.held[c]) != Gone
    {
      assert Acked(w, c);
    }
  }

  /** Whatever happens beside it keeps a look in order. */
  lemma LookKept(w: World, n: World)
    requires LookOk(w) && n.look == w.look && Later(w, n) && CopiesOk(w) && Over(w.engine) <= Over(n.engine)
    ensures LookOk(n)
  {
    hide Counts, Placed, Later, CopiesOk, EngineOk;
    if !w.look.NotYet? {
      CancelledBefore(w);
    }
    match w.look {
      case NotYet =>
      case OverCurrent(first, toRead, counted, total) =>
        CountsKept(w, n, first.current - toRead, counted, total);
        PlacedKept(w, n, first);
      case OverRetired(first, second, toRead, counted, total) =>
        CountsKept(w, n, first.current + (second.retired - toRead), counted, total);
        PlacedKept(w, n, first);
        PlacedKept(w, n, second);
      case Looked(first, second, counted, total) =>
        CountsKept(w, n, first.current + second.retired, counted, total);
        PlacedKept(w, n, first);
        PlacedKept(w, n, second);
    }
  }

  lemma CancelledBefore(w: World)
    requires CopiesOk(w) && !w.look.NotYet?
    ensures w.cancelled
  {
  }

  /** Whatever an acknowledged copy is held by has a place now. */
  lemma PlacedNow(w: World)
    requires EngineOk(w.engine) && CopiesOk(w) && DrainsOk(w)
    ensures Placed(w, w.engine)
  {
    forall c | c in w.held && Acked(w, c)
      ensures PlaceOf(w.engine, w.held[c]) != Gone
    {
      var i :| i in w.pcs && i in w.mine && w.pcs[i] == Answered(Ok200) && c in w.mine[i];
      assert !Drained(w.engine, w.held[c]);
      assert w.held[c] in w.engine.served;
    }
  }

  /** Reading the queue of one more instance. */
  lemma ReadOne(w: World, n: World, read: set<Inst>, x: Inst, counted: set<Copy>, total: nat)
    requires Counts(w, read, counted, total) && CopiesOk(w) && n == w.(look := n.look)
    ensures Counts(n, read + {x}, counted + CopiesAt(w, x), total + |CopiesAt(w, x)|)
  {
    assert |CopiesAt(w, x)| == 0 <==> CopiesAt(w, x) == {};
  }

  predicate IsLook(a: Action) {
    a.LoadState? || a.ReadCurrent? || a.ListRetired? || a.ReadRetired? || a.Finish?
  }

  /** A read adds the copies of one more instance. */
  lemma LookReads(w: World, a: Action)
    requires Inv(w) && Enabled(w, a) && (a.ReadCurrent? || a.ReadRetired?)
    ensures LookOk(Next(w, a))
  {
    hide Counts, Placed, DrainsOk, EngineOk, CopiesAt, Later, CopiesOk, PlaceOf;
    var l, n := w.look, Next(w, a);
    StepLater(w, a);
    LookedBefore(w, n);
    if a.ReadCurrent? {
      ReadOne(w, n, l.first.current - l.toRead, a.inst, l.counted, l.total);
      assert l.first.current - l.toRead + {a.inst} == l.first.current - n.look.toRead;
    } else {
      ReadOne(w, n, l.first.current + (l.second.retired - l.toRead), a.inst, l.counted, l.total);
      assert l.first.current + (l.second.retired - l.toRead) + {a.inst} == l.first.current + (l.second.retired - n.look.toRead);
    }
  }

  lemma LookStep(w: World, a: Action)
    requires Inv(w) && Enabled(w, a) && (a.LoadState? || a.ListRetired? || a.Finish?)
    ensures LookOk(Next(w, a))
  {
    hide Counts, Placed, DrainsOk, EngineOk, CopiesAt, Later, CopiesOk, PlaceOf;
    var l, n := w.look, Next(w, a);
    StepLater(w, a);
    PlacedNow(w);
    LookedBefore(w, n);
    if a.LoadState? {
      NoneRead(w, n);
    } else if a.ListRetired? {
      CountsKept(w, n, l.first.current - l.toRead, l.counted, l.total);
      assert l.first.current - l.toRead == l.first.current + (w.engine.retired - w.engine.retired);
    } else {
      CountsKept(w, n, l.first.current + (l.second.retired - l.toRead), l.counted, l.total);
      assert l.first.current + (l.second.retired - l.toRead) == l.first.current + l.second.retired;
    }
  }

  /** A step of the look leaves places as they were. */
  lemma LookedBefore(w: World, n: World)
    requires CopiesOk(w) && Later(w, n) && n == w.(look := n.look) && (w.look.NotYet? ==> w.draining)
    ensures w.cancelled && forall e | Placed(w, e) :: Placed(n, e)
  {
    hide Placed;
    forall e | Placed(w, e)
      ensures Placed(n, e)
    {
      PlacedKept(w, n, e);
    }
  }

  lemma NoneRead(w: World, n: World)
    requires n.look.OverCurrent? && n == w.(look := n.look) && n.look == OverCurrent(w.engine, w.engine.current, {}, 0)
    ensures Counts(n, n.look.first.current - n.look.toRead, {}, 0)
  {
  }

  lemma StepKeepsInv(w: World, a: Action)
    requires Inv(w) && Enabled(w, a)
    ensures Inv(Next(w, a))
  {
    hide CopiesOk, DrainsOk, LookOk, EngineOk, Enabled, EngineNext, LookNext, Later;
    StepKeepsCopies(w, a);
    StepKeepsDrains(w, a);
    EngineStep(w, a);
    EngineKept(w, a);
    if a.ReadCurrent? || a.ReadRetired? {
      LookReads(w, a);
    } else if IsLook(a) {
      LookStep(w, a);
    } else {
      StepLater(w, a);
      LookKept(w, Next(w, a));
    }
  }

  lemma EngineKept(w: World, a: Action)
    requires Enabled(w, a)
    ensures Next(w, a).engine == EngineNext(w.engine, a) && (!IsLook(a) ==> Next(w, a).look == w.look)
  {
  }

  predicate LegalRun(w: World, actions: seq<Action>)
    decreases |actions|
  {
    actions != [] ==> Enabled(w, actions[0]) && LegalRun(Next(w, actions[0]), actions[1..])
  }

  function RunTo(w: World, actions: seq<Action>): World
    requires LegalRun(w, actions)
    decreases |actions|
  {
    if actions == [] then w else RunTo(Next(w, actions[0]), actions[1..])
  }

  lemma StartOk()
    ensures Inv(Start)
  {
  }

  lemma {:induction false} RunKeepsInv(w: World, actions: seq<Action>)
    requires Inv(w) && LegalRun(w, actions)
    ensures Inv(RunTo(w, actions))
    decreases |actions|
  {
    hide Inv, Next, Enabled;
    if actions != [] {
      StepKeepsInv(w, actions[0]);
      RunKeepsInv(Next(w, actions[0]), actions[1..]);
    }
  }

  // ---- What the look finds

  /** It drained or was being revived at the first read, and was being revived or current at the second. */
  predicate RevivedBetween(first: Engine, second: Engine, x: Inst) {
    && (PlaceOf(first, x).Draining? || PlaceOf(first, x).Reviving?)
    && (PlaceOf(second, x).Reviving? || PlaceOf(second, x).Current?)
  }

  /** It had left the state before the first read, and its drain was being ended at the second. */
  predicate EndingAfter(first: Engine, second: Engine, x: Inst) {
    x !in first.current && PlaceOf(second, x).BeingEnded?
  }

  /**
   In every interleaving, each copy queued by a request answered 200 was queued
   before ingest was cancelled. Once the coordinator's first look is over, the
   copy was counted in it or is gone, except, and exactly, while it is held by
   an instance that was being revived between the look's two reads, or whose
   drain was being ended at the second.
   */
  lemma AcknowledgedCopiesAreSeen(actions: seq<Action>, c: Copy)
    requires LegalRun(Start, actions) && RunTo(Start, actions).cancelled && Acked(RunTo(Start, actions), c)
    ensures var w := RunTo(Start, actions);
            && c < w.lateFrom && (c in w.held || c in w.gone)
            && (w.look.Looked? ==>
              (c !in w.look.counted && c !in w.gone <==>
                c in w.held && (RevivedBetween(w.look.first, w.look.second, w.held[c]) ||
                                EndingAfter(w.look.first, w.look.second, w.held[c]))))
  {
    hide LegalRun, RunTo, Acked, DrainsOk;
    StartOk();
    RunKeepsInv(Start, actions);
  }

  /** A look that found nothing pending missed no copy of a request answered 200, unless a reload or the end of a drain overlapped it. */
  lemma NothingPendingMeansNothingHeld(actions: seq<Action>, c: Copy)
    requires LegalRun(Start, actions) && Acked(RunTo(Start, actions), c)
    requires var w := RunTo(Start, actions);
             w.look.Looked? && w.look.total == 0 && w.look.first.lock.Free? && w.look.second == w.look.first
    ensures c in RunTo(Start, actions).gone
  {
    hide LegalRun, RunTo, Acked, DrainsOk;
    StartOk();
    RunKeepsInv(Start, actions);
    AcknowledgedCopiesAreSeen(actions, c);
  }

  // ---- What an answer says

  /** The handler is behind `admit`, which took the update. */
  predicate PastAdmit(w: World, i: Tid) {
    i in w.pcs && (w.pcs[i] == CheckLast || w.pcs[i] == Answered(Ok200))
  }

  lemma {:induction false} TakenBefore(w: World, actions: seq<Action>, i: Tid)
    requires LegalRun(w, actions) && PastAdmit(RunTo(w, actions), i)
    ensures PastAdmit(w, i) || Admitted(i) in actions || NotAdmitted(i, true) in actions
    decreases |actions|
  {
    hide Next, Enabled, PastAdmit;
    if actions != [] {
      assert actions == [actions[0]] + actions[1..];
      TakenBefore(Next(w, actions[0]), actions[1..], i);
      if PastAdmit(Next(w, actions[0]), i) {
        OneTaken(w, actions[0], i);
      }
    }
  }

  lemma OneTaken(w: World, a: Action, i: Tid)
    requires Enabled(w, a) && PastAdmit(Next(w, a), i)
    ensures PastAdmit(w, i) || a == Admitted(i) || a == NotAdmitted(i, true)
  {
    hide EngineNext, LookNext, CopiesAt;
  }

  /** A request answered 200 was admitted, or no rule routes it. */
  lemma OkWasTaken(actions: seq<Action>, i: Tid)
    requires LegalRun(Start, actions) && At(RunTo(Start, actions), i, Answered(Ok200))
    ensures Admitted(i) in actions || NotAdmitted(i, true) in actions
  {
    hide LegalRun, RunTo;
    TakenBefore(Start, actions, i);
  }

  /** A handler that queued in a closed instance empties it and goes on; one that was refused answers 503, an unroutable one 200. */
  lemma GoesOn(w: World, i: Tid)
    requires i in w.pcs && i in w.mine
    ensures w.pcs[i].LateDraining? ==>
              At(Next(w, DrainLate(i)), i, Pc.Admitting) && CopiesAt(Next(w, DrainLate(i)), w.pcs[i].inst) == {}
    ensures w.pcs[i] == Pc.Admitting && w.mine[i] == {} ==>
              && At(Next(w, NotAdmitted(i, false)), i, Answered(Retry503))
              && At(Next(w, NotAdmitted(i, true)), i, Answered(Ok200))
  {
    hide EngineNext, LookNext;
  }

  /** A handler that has not yet passed the check it is before, or the one after it if `body` may still be read. */
  predicate BeforeCheck(w: World, i: Tid, body: bool) {
    i in w.pcs ==> w.pcs[i] in {CheckFirst, Answered(Retry503), Answered(Rejected)} || (body && w.pcs[i] in {ReadBody, CheckSecond})
  }

  ghost predicate QueuedNothing(w: World, i: Tid) {
    i in w.mine ==> w.mine[i] == {}
  }

  lemma OneCheck(w: World, a: Action, i: Tid, body: bool)
    requires w.cancelled && Enabled(w, a) && BeforeCheck(w, i, body) && QueuedNothing(w, i)
    ensures Next(w, a).cancelled && BeforeCheck(Next(w, a), i, body) && QueuedNothing(Next(w, a), i)
  {
    hide EngineNext, LookNext, CopiesAt;
  }

  /**
   Once ingest is cancelled, a request stops at its next check: one not past the
   first is not read, one not past the second is not offered to the sink, and
   either is answered 503 or rejected and queues nothing.
   */
  lemma {:induction false} StopsAtNextCheck(w: World, actions: seq<Action>, i: Tid, body: bool)
    requires w.cancelled && LegalRun(w, actions) && BeforeCheck(w, i, body) && QueuedNothing(w, i)
    ensures BeforeCheck(RunTo(w, actions), i, body) && QueuedNothing(RunTo(w, actions), i)
    decreases |actions|
  {
    hide Next, Enabled, BeforeCheck, QueuedNothing;
    if actions != [] {
      OneCheck(w, actions[0], i, body);
      StopsAtNextCheck(Next(w, actions[0]), actions[1..], i, body);
    }
  }

  // ---- The end of a drain

  /** Ending a drain runs to its end: the instance is closed for good and holds nothing, and the engine is free. */
  lemma EndedDrainEmpties(w: World, x: Inst)
    requires Inv(w) && Enabled(w, EndDrain(x)) && x in w.engine.served
    ensures var a := Next(w, EndDrain(x));
            && Enabled(a, CloseEnded) && Enabled(Next(a, CloseEnded), FinalDrain)
            && var z := Next(Next(a, CloseEnded), FinalDrain);
               && z.engine.lock.Free? && x in z.engine.closed && PlaceOf(z.engine, x).Gone? && CopiesAt(z, x) == {}
               && z.gone == w.gone + CopiesAt(w, x)
  {
    hide LookOk, DrainsOk, Acked;
  }

  // ---- Both exceptions happen

  lemma {:induction false} Then(w: World, actions: seq<Action>, a: Action)
    requires LegalRun(w, actions) && Enabled(RunTo(w, actions), a)
    ensures LegalRun(w, actions + [a]) && RunTo(w, actions + [a]) == Next(RunTo(w, actions), a)
    decreases |actions|
  {
    hide Enabled, Next;
    if actions == [] {
      assert [a][1..] == [];
    } else {
      Then(Next(w, actions[0]), actions[1..], a);
      assert (actions + [a])[1..] == actions[1..] + [a];
    }
  }

  lemma Do(actions: seq<Action>, w: World, a: Action) returns (more: seq<Action>, n: World)
    requires LegalRun(Start, actions) && RunTo(Start, actions) == w && Enabled(w, a)
    ensures LegalRun(Start, more) && RunTo(Start, more) == n && n == Next(w, a)
  {
    hide LegalRun, RunTo, Enabled, Next;
    Then(Start, actions, a);
    more, n := actions + [a], Next(w, a);
  }

  /** One instance, and a request answered 200 whose copy it holds. */
  const Serving := World(
    map[0 := Answered(Ok200)], map[0 := {0}], map[0 := 0], {}, 1, false, 0, false,
    Engine({0}, {}, {}, {}, {0}, {0}, Free), NotYet)

  const OneInstance := Start.(engine := Engine({0}, {}, {}, {}, {0}, {0}, Free))

  lemma Started() returns (actions: seq<Action>)
    ensures LegalRun(Start, actions) && RunTo(Start, actions) == OneInstance
  {
    hide LegalRun, RunTo;
    EmptyRun();
    var w := Start;
    actions, w := Do([], w, BeginCommit({}, {0}, {}));
    actions, w := Do(actions, w, Swap);
    assert w == OneInstance;
  }

  /** The one request at `pc`, before and after it queued its copy. */
  function Request(pc: Pc, queued: bool): World {
    if queued then Serving.(pcs := map[0 := pc]) else OneInstance.(pcs := map[0 := pc], mine := map[0 := {}])
  }

  lemma Received() returns (actions: seq<Action>)
    ensures LegalRun(Start, actions) && RunTo(Start, actions) == Request(Pc.Admitting, false)
  {
    hide LegalRun, RunTo, EngineNext, LookNext;
    actions := Started();
    var w := OneInstance;
    actions, w := Do(actions, w, Begin(0, true));
    assert w == Request(CheckFirst, false);
    actions, w := Do(actions, w, First(0));
    assert w == Request(ReadBody, false);
    actions, w := Do(actions, w, Body(0, true));
    assert w == Request(CheckSecond, false);
    actions, w := Do(actions, w, Second(0));
    assert w == Request(Pc.Admitting, false);
  }

  lemma OneRequest() returns (actions: seq<Action>)
    ensures LegalRun(Start, actions) && RunTo(Start, actions) == Serving
  {
    hide LegalRun, RunTo, EngineNext, LookNext;
    actions := Received();
    var w := Request(Pc.Admitting, false);
    actions, w := Do(actions, w, Queue(0, 0));
    assert w.mine[0] == {0};
    assert w == Request(Confirming(0), true);
    actions, w := Do(actions, w, Confirm(0));
    assert w == Request(Pc.Admitting, true);
    actions, w := Do(actions, w, Admitted(0));
    assert w == Request(CheckLast, true);
    actions, w := Do(actions, w, Last(0));
    assert w == Serving;
  }

  lemma EmptyRun()
    ensures LegalRun(Start, []) && RunTo(Start, []) == Start
  {
  }

  /** A reload has left the instance out, and it drains. */
  const LeftOut := Serving.(engine := Engine({}, {0}, {}, {}, {0}, {0}, Free))

  lemma Reloaded() returns (actions: seq<Action>)
    ensures LegalRun(Start, actions) && RunTo(Start, actions) == LeftOut
  {
    hide LegalRun, RunTo, HandlerNext, HandlerEnabled;
    actions := OneRequest();
    var w := Serving;
    actions, w := Do(actions, w, BeginCommit({}, {}, {0}));
    assert {0} - {0} + {} + {} == {};
    assert w.engine == Serving.engine.(lock := Committing({}, {0}, {}));
    actions, w := Do(actions, w, PushRetiring(0));
    assert w.engine == Serving.engine.(retired := {0}, lock := Committing({}, {}, {}));
    actions, w := Do(actions, w, Swap);
    assert w.engine == LeftOut.engine;
  }

  /** Then ingest is cancelled, and the look has loaded the state without the instance. */
  const HalfLooked := LeftOut.(cancelled := true, lateFrom := 1, draining := true, look := OverCurrent(LeftOut.engine, {}, {}, 0))

  lemma DrainingAtLook() returns (actions: seq<Action>)
    ensures LegalRun(Start, actions) && RunTo(Start, actions) == HalfLooked
  {
    hide LegalRun, RunTo, HandlerNext, HandlerEnabled;
    actions := Reloaded();
    var w := LeftOut;
    actions, w := Do(actions, w, CancelIngest);
    actions, w := Do(actions, w, BeginDrain);
    assert w == LeftOut.(cancelled := true, lateFrom := 1, draining := true);
    actions, w := Do(actions, w, LoadState);
    assert w == HalfLooked;
  }

  /** The shutdown's first look finds nothing pending although a copy of a request answered 200 is held. */
  ghost predicate Overlooked(w: World, c: Copy) {
    w.look.Looked? && w.look.total == 0 && c in w.held && Acked(w, c)
  }

  lemma SeesNothing(w: World, second: Engine)
    requires w == HalfLooked.(engine := second, look := Looked(LeftOut.engine, second, {}, 0))
    ensures Overlooked(w, 0)
  {
    assert 0 in w.pcs && 0 in w.mine[0];
  }

  /** A commit has taken the instance off the retired list, to revive it. */
  const TakenOff := Engine({}, {}, {0}, {}, {0}, {0}, Committing({}, {}, {0}))

  lemma HalfRevived() returns (actions: seq<Action>)
    ensures LegalRun(Start, actions) && RunTo(Start, actions) == HalfLooked.(engine := TakenOff)
  {
    hide LegalRun, RunTo, HandlerNext, HandlerEnabled, LookNext;
    actions := DrainingAtLook();
    var w := HalfLooked;
    SameLook(w, BeginCommit({0}, {}, {}));
    actions, w := Do(actions, w, BeginCommit({0}, {}, {}));
    assert {} - {} + {0} + {} == {0} && {0} + {} == {0};
    assert w == HalfLooked.(engine := LeftOut.engine.(lock := Committing({0}, {}, {0})));
    SameLook(w, DropRevived(0));
    actions, w := Do(actions, w, DropRevived(0));
    assert w.engine == TakenOff;
  }

  lemma SameLook(w: World, a: Action)
    requires a.BeginCommit? || a.DropRevived?
    ensures LookNext(w, a) == w.look
  {
  }

  /** A reload that revives the instance between the two reads hides the copy from both. */
  lemma RevivalHidesCopy() returns (actions: seq<Action>)
    ensures LegalRun(Start, actions) && Overlooked(RunTo(Start, actions), 0)
    ensures var l := RunTo(Start, actions).look; l.Looked? && RevivedBetween(l.first, l.second, 0)
  {
    hide LegalRun, RunTo, HandlerNext, HandlerEnabled;
    actions := HalfRevived();
    var w := HalfLooked.(engine := TakenOff);
    actions, w := Do(actions, w, ListRetired);
    assert w == HalfLooked.(engine := TakenOff, look := OverRetired(LeftOut.engine, TakenOff, {}, {}, 0));
    actions, w := Do(actions, w, Finish);
    SeesNothing(w, TakenOff);
  }

  /** So does a drain that is being ended, whose final drop of the copy is still to come. */
  lemma EndingHidesCopy() returns (actions: seq<Action>)
    ensures LegalRun(Start, actions) && Overlooked(RunTo(Start, actions), 0)
    ensures var l := RunTo(Start, actions).look; l.Looked? && EndingAfter(l.first, l.second, 0)
  {
    hide LegalRun, RunTo, HandlerNext, HandlerEnabled;
    actions := DrainingAtLook();
    var w := HalfLooked;
    actions, w := Do(actions, w, EndDrain(0));
    var second := Engine({}, {}, {}, {}, {0}, {0}, Ending(0));
    assert w == HalfLooked.(engine := second);
    actions, w := Do(actions, w, ListRetired);
    assert w == HalfLooked.(engine := second, look := OverRetired(LeftOut.engine, second, {}, {}, 0));
    actions, w := Do(actions, w, Finish);
    SeesNothing(w, second);
  }
}
