/**
 Long polling of crates/tgin-botapi/src/longpoll.rs against a Bot API server:
 the poller's steps between two awaits, with errors, polls given up,
 backpressure, drains, cancellation at any await, and restarts.
 */
module LongPoll {
  import opened Wrappers

  datatype Answer = Admitted | Unroutable | Backpressure

  /** Where the poller waits; a poll knows whether it was sent while draining. */
  datatype Pc =
    | Ready
    | Waiting(draining: bool)
    | Offering(batch: seq<int>)
    | HoldingBatch(batch: seq<int>)
    | HoldingDrain
    | BackingOff
    | Stopped

  /**
   `updates` are the ids the server ever had, in order; it has forgotten those
   below `confirmed`. `sent` are the offsets of the requests on their way,
   `answered` the updates the sink took, `taken` those of the current run, in
   order.
   */
  datatype World = World(
    updates: seq<int>, confirmed: int, sent: set<int>,
    pc: Pc, offset: int, draining: bool, answered: set<int>, taken: seq<int>)

  datatype Action =
    | Arrive(id: int)
    | Drain(on: bool)
    | Send
    | ServerSees(offset: int)
    | GiveUp
    | Fail
    | Reply(batch: seq<int>)
    | Offer(answer: Answer)
    | Retry
    | Resume
    | Cancel
    | Restart

  predicate Increasing(ids: seq<int>) {
    forall i, j :: 0 <= i < j < |ids| ==> ids[i] < ids[j]
  }

  /** Ids among `updates` from `offset` on, ascending, and none skipped but those in `known`. */
  ghost predicate IsBatch(updates: seq<int>, known: set<int>, offset: int, batch: seq<int>) {
    && Increasing(batch)
    && (forall i :: 0 <= i < |batch| ==> batch[i] in updates && offset <= batch[i])
    && (forall u, i :: u in updates && u !in known && 0 <= i < |batch| && offset <= u < batch[i] ==> u in batch[..i])
  }

  /** The server answers with the first updates it has not forgotten from the poll's offset on. */
  ghost predicate IsReply(w: World, batch: seq<int>) {
    IsBatch(w.updates, {}, Max(w.offset, w.confirmed), batch)
  }

  ghost predicate Enabled(w: World, a: Action) {
    match a
    case Arrive(id) => 0 <= id && forall u | u in w.updates :: u < id
    case Drain(_) => true
    case Send => w.pc == Ready
    case ServerSees(offset) => offset in w.sent
    case GiveUp => w.pc == Waiting(false)
    case Fail => w.pc.Waiting?
    case Reply(batch) => w.pc.Waiting? && IsReply(w, batch)
    case Offer(_) => w.pc.Offering? && w.pc.batch != []
    case Retry => w.pc.HoldingBatch? || w.pc == BackingOff
    case Resume => w.pc == HoldingDrain && !w.draining
    case Cancel => w.pc.Waiting? || w.pc.HoldingBatch? || w.pc == HoldingDrain || w.pc == BackingOff
    case Restart => w.pc == Stopped
  }

  function Next(w: World, a: Action): World
    requires Enabled(w, a)
  {
    match a
    case Arrive(id) => w.(updates := w.updates + [id])
    case Drain(on) => w.(draining := on)
    case Send => w.(pc := Waiting(w.draining), sent := w.sent + {w.offset})
    case ServerSees(offset) => w.(confirmed := Max(w.confirmed, offset))
    case GiveUp => w.(pc := Ready)
    case Fail => w.(pc := BackingOff)
    case Reply(batch) =>
      w.(pc := if batch != [] then Offering(batch) else if w.pc.draining then HoldingDrain else Ready)
    case Offer(answer) =>
      var batch := w.pc.batch;
      if answer.Backpressure? then w.(pc := HoldingBatch(batch))
      else
        w.(pc := if |batch| == 1 then Ready else Offering(batch[1..]),
           offset := batch[0] + 1, answered := w.answered + {batch[0]}, taken := w.taken + [batch[0]])
    case Retry => w.(pc := if w.pc.HoldingBatch? then Offering(w.pc.batch) else Ready)
    case Resume => w.(pc := Ready)
    case Cancel => w.(pc := Stopped)
    case Restart => w.(pc := Ready, offset := 0, taken := [])
  }

  // ---- What every step keeps

  /** Every update below `offset` has been answered. */
  ghost predicate Answered(w: World, offset: int) {
    forall u | u in w.updates && u < offset :: u in w.answered
  }

  /** `offset` is not past any id still to come. */
  ghost predicate Reached(w: World, offset: int) {
    offset == 0 || offset - 1 in w.updates
  }

  ghost predicate Safe(w: World, offset: int) {
    Answered(w, offset) && Reached(w, offset)
  }

  ghost predicate Inv(w: World) {
    && (forall u | u in w.updates :: 0 <= u)
    && Increasing(w.updates)
    && Safe(w, w.offset) && Safe(w, w.confirmed) && (forall o | o in w.sent :: Safe(w, o))
    && (w.pc.Offering? || w.pc.HoldingBatch? ==> w.pc.batch != [] && IsBatch(w.updates, w.answered, w.offset, w.pc.batch))
    && w.offset == (if w.taken == [] then 0 else w.taken[|w.taken| - 1] + 1)
    && Increasing(w.taken) && (forall t | t in w.taken :: t < w.offset && t in w.answered)
  }

  lemma ArriveKeepsSafe(w: World, id: int, offset: int)
    requires Enabled(w, Arrive(id)) && Safe(w, offset)
    ensures Safe(Next(w, Arrive(id)), offset)
  {
    assert forall u :: u in w.updates + [id] <==> u in w.updates || u == id;
  }

  lemma ArriveKeepsBatch(updates: seq<int>, known: set<int>, id: int, offset: int, batch: seq<int>)
    requires IsBatch(updates, known, offset, batch) && forall u | u in updates :: u < id
    ensures IsBatch(updates + [id], known, offset, batch)
  {
    assert forall u :: u in updates + [id] <==> u in updates || u == id;
  }

  lemma ArriveKeepsInv(w: World, id: int)
    requires Inv(w) && Enabled(w, Arrive(id))
    ensures Inv(Next(w, Arrive(id)))
  {
    hide IsBatch, Safe;
    var n := Next(w, Arrive(id));
    assert forall u :: u in n.updates <==> u in w.updates || u == id;
    ArriveKeepsSafe(w, id, w.offset);
    ArriveKeepsSafe(w, id, w.confirmed);
    forall o | o in n.sent
      ensures Safe(n, o)
    {
      ArriveKeepsSafe(w, id, o);
    }
    if w.pc.Offering? || w.pc.HoldingBatch? {
      ArriveKeepsBatch(w.updates, w.answered, id, w.offset, w.pc.batch);
    }
    assert Increasing(n.updates) by {
      assert forall i :: 0 <= i < |w.updates| ==> w.updates[i] in w.updates;
    }
  }

  /** What the server forgot was answered, so a reply skips nothing else from the offset on. */
  lemma ReplySkipsOnlyAnswered(w: World, batch: seq<int>)
    requires Safe(w, w.confirmed) && IsReply(w, batch)
    ensures IsBatch(w.updates, w.answered, w.offset, batch)
  {
    hide Increasing;
  }

  /** Nothing lies unanswered before the first of a batch. */
  lemma FirstIsNext(w: World, batch: seq<int>)
    requires IsBatch(w.updates, w.answered, w.offset, batch) && batch != [] && Answered(w, w.offset)
    ensures batch[0] in w.updates && w.offset <= batch[0]
    ensures forall u | u in w.updates && u < batch[0] + 1 :: u in w.answered || u == batch[0]
  {
    hide Increasing;
    assert batch[..0] == [];
  }

  /** The rest of a batch is one from behind its first. */
  lemma RestIsBatch(updates: seq<int>, known: set<int>, offset: int, batch: seq<int>)
    requires IsBatch(updates, known, offset, batch) && batch != []
    ensures IsBatch(updates, known + {batch[0]}, batch[0] + 1, batch[1..])
  {
    var rest := batch[1..];
    assert forall i :: 0 <= i < |rest| ==> rest[i] == batch[i + 1];
    forall u, i | u in updates && u !in known + {batch[0]} && 0 <= i < |rest| && batch[0] + 1 <= u < rest[i]
      ensures u in rest[..i]
    {
      assert u in batch[..i + 1];
      assert batch[..i + 1] == [batch[0]] + rest[..i];
    }
  }

  lemma OfferKeepsInv(w: World, answer: Answer)
    requires Inv(w) && Enabled(w, Offer(answer))
    ensures Inv(Next(w, Offer(answer)))
  {
    hide IsBatch;
    var batch, n := w.pc.batch, Next(w, Offer(answer));
    if !answer.Backpressure? {
      FirstIsNext(w, batch);
      RestIsBatch(w.updates, w.answered, w.offset, batch);
      assert forall t :: t in n.taken <==> t in w.taken || t == batch[0];
      assert Increasing(n.taken) by {
        assert forall i :: 0 <= i < |w.taken| ==> w.taken[i] in w.taken;
      }
    }
  }

  lemma StepKeepsInv(w: World, a: Action)
    requires Inv(w) && Enabled(w, a)
    ensures Inv(Next(w, a))
  {
    if a.Arrive? {
      ArriveKeepsInv(w, a.id);
    } else if a.Offer? {
      OfferKeepsInv(w, a.answer);
    } else if a.Restart? {
      hide IsBatch, Increasing;
      NoneTaken();
    } else {
      hide IsBatch, Increasing, Answered, Reached;
      QuietStep(w, a);
      if a.Reply? {
        ReplySkipsOnlyAnswered(w, a.batch);
      }
    }
  }

  /** No other step changes what is known, what is answered or what the server has. */
  lemma QuietStep(w: World, a: Action)
    requires Enabled(w, a) && !a.Arrive? && !a.Offer? && !a.Restart?
    ensures var n := Next(w, a);
            && n.updates == w.updates && n.answered == w.answered && n.offset == w.offset && n.taken == w.taken
            && (n.confirmed == w.confirmed || n.confirmed in w.sent) && n.sent <= w.sent + {w.offset}
            && forall o :: Safe(n, o) <==> Safe(w, o)
  {
  }

  lemma NoneTaken()
    ensures Increasing([])
  {
  }

  ghost predicate LegalRun(w: World, actions: seq<Action>)
    decreases |actions|
  {
    actions != [] ==> Enabled(w, actions[0]) && LegalRun(Next(w, actions[0]), actions[1..])
  }

  ghost function RunTo(w: World, actions: seq<Action>): World
    requires LegalRun(w, actions)
    decreases |actions|
  {
    if actions == [] then w else RunTo(Next(w, actions[0]), actions[1..])
  }

  const Start := World([], 0, {}, Stopped, 0, false, {}, [])

  lemma {:induction false} RunKeepsInv(w: World, actions: seq<Action>)
    requires Inv(w) && LegalRun(w, actions)
    ensures Inv(RunTo(w, actions))
    decreases |actions|
  {
    hide Inv, Next, Enabled;
    if actions != [] {
      StepKeepsInv(w, actions[0]);
      RunKeepsInv(Next(w, actions[0]), actions[1..]);
    }
  }

  // ---- In terms of what the poller did

  /** The step offers `u` to the sink, which takes it. */
  ghost predicate Takes(w: World, a: Action, u: int) {
    (a == Offer(Admitted) || a == Offer(Unroutable)) && w.pc.Offering? && w.pc.batch != [] && w.pc.batch[0] == u
  }

  /** Some step of the run offered `u`, and the sink took it. */
  ghost predicate TakenIn(w: World, actions: seq<Action>, u: int)
    requires LegalRun(w, actions)
    decreases |actions|
  {
    actions != [] && (Takes(w, actions[0], u) || TakenIn(Next(w, actions[0]), actions[1..], u))
  }

  lemma {:induction false} AnsweredWereTaken(w: World, actions: seq<Action>, u: int)
    requires LegalRun(w, actions) && u in RunTo(w, actions).answered
    ensures u in w.answered || TakenIn(w, actions, u)
    decreases |actions|
  {
    if actions != [] {
      AnsweredWereTaken(Next(w, actions[0]), actions[1..], u);
    }
  }

  /**
   Over every run, with errors, holds, drains, cancellations and restarts: the
   offset, every request on its way and the server's confirmation pass an update
   only if some step offered it and the sink answered `Admitted` or `Unroutable`.
   */
  lemma NothingUnansweredIsConfirmed(actions: seq<Action>, u: int)
    requires LegalRun(Start, actions) && u in RunTo(Start, actions).updates && !TakenIn(Start, actions, u)
    ensures var w := RunTo(Start, actions);
            w.offset <= u && w.confirmed <= u && forall o | o in w.sent :: o <= u
  {
    hide LegalRun, RunTo, IsBatch, TakenIn;
    RunKeepsInv(Start, actions);
    if u in RunTo(Start, actions).answered {
      AnsweredWereTaken(Start, actions, u);
    }
  }

  /**
   Between a start and its stop, the updates taken are in ascending order, each
   once, and the sink took each; the offset is behind the last of them, and 0
   until then.
   */
  lemma TakenInOrder(actions: seq<Action>)
    requires LegalRun(Start, actions)
    ensures var w := RunTo(Start, actions);
            Increasing(w.taken) && w.offset == if w.taken == [] then 0 else w.taken[|w.taken| - 1] + 1
    ensures forall t | t in RunTo(Start, actions).taken :: TakenIn(Start, actions, t)
  {
    hide LegalRun, RunTo, IsBatch, TakenIn;
    RunKeepsInv(Start, actions);
    forall t | t in RunTo(Start, actions).taken
      ensures TakenIn(Start, actions, t)
    {
      AnsweredWereTaken(Start, actions, t);
    }
  }

  /**
   A sink that pushes back is offered the same update again, and nothing moves
   meanwhile; one that takes it is offered the next, and the next request starts
   behind it.
   */
  lemma OfferOutcome(w: World, answer: Answer)
    requires Enabled(w, Offer(answer))
    ensures var n, batch := Next(w, Offer(answer)), w.pc.batch;
            if answer.Backpressure? then
              n == w.(pc := n.pc) && Enabled(n, Retry) && Next(n, Retry) == w
            else
              && n.offset == batch[0] + 1 && n.taken == w.taken + [batch[0]] && n.sent == w.sent && n.confirmed == w.confirmed
              && if |batch| > 1 then n.pc.Offering? && n.pc.batch == batch[1..] else n.pc.Ready?
  {
  }

  /** Once the server has seen a request, it never again sends what lies before the request's offset, however the run goes on. */
  lemma SeenIsForgotten(w: World, actions: seq<Action>, batch: seq<int>)
    requires Inv(w) && w.pc == Ready && LegalRun(Next(Next(w, Send), ServerSees(w.offset)), actions)
    requires Enabled(RunTo(Next(Next(w, Send), ServerSees(w.offset)), actions), Reply(batch))
    ensures forall u | u in batch :: w.offset <= u
  {
    hide RunTo, LegalRun;
    ConfirmedGrows(Next(Next(w, Send), ServerSees(w.offset)), actions);
  }

  lemma {:induction false} ConfirmedGrows(w: World, actions: seq<Action>)
    requires LegalRun(w, actions)
    ensures w.confirmed <= RunTo(w, actions).confirmed
    decreases |actions|
  {
    if actions != [] {
      ConfirmedGrows(Next(w, actions[0]), actions[1..]);
    }
  }

  // ---- Drains

  /** Unless the drain is called off or the poller cancelled, a held poller stays held and asks for nothing. */
  lemma {:induction false} DrainHolds(w: World, actions: seq<Action>)
    requires w.pc == HoldingDrain && w.draining && LegalRun(w, actions)
    requires Drain(false) !in actions && Cancel !in actions
    ensures RunTo(w, actions).pc == HoldingDrain && RunTo(w, actions).sent == w.sent
    decreases |actions|
  {
    if actions != [] {
      assert actions[0] in actions && forall a | a in actions[1..] :: a in actions;
      DrainHolds(Next(w, actions[0]), actions[1..]);
    }
  }

  /** The poller holds, or waits for an answer that may make it hold, only because of a drain. */
  ghost predicate DrainBegan(w: World, began: bool, empty: bool) {
    && (w.draining || w.pc == Waiting(true) || w.pc == HoldingDrain ==> began)
    && (w.pc == HoldingDrain ==> empty)
  }

  lemma {:induction false} DrainBeganBefore(w: World, actions: seq<Action>, began: bool, empty: bool)
    requires LegalRun(w, actions) && DrainBegan(w, began, empty)
    ensures DrainBegan(RunTo(w, actions), began || Drain(true) in actions, empty || Reply([]) in actions)
    decreases |actions|
  {
    if actions != [] {
      var a := actions[0];
      assert actions == [a] + actions[1..];
      DrainBeganBefore(Next(w, a), actions[1..], began || a == Drain(true), empty || a == Reply([]));
    }
  }

  /** A poller holds only after a drain began and an empty batch came. */
  lemma HoldsOnlyDrained(actions: seq<Action>)
    requires LegalRun(Start, actions) && RunTo(Start, actions).pc == HoldingDrain
    ensures Drain(true) in actions && Reply([]) in actions
  {
    hide LegalRun, RunTo;
    DrainBeganBefore(Start, actions, false, false);
  }

  /**
   A drain makes the poller ask once more and hold at an empty batch; when the
   drain is called off, it asks again, as if nothing had happened but the request.
   */
  lemma EmptyBatchHolds(w: World)
    requires w.pc == Ready && IsReply(w, [])
    ensures var sent := Next(Next(w, Drain(true)), Send);
            && Enabled(sent, Reply([])) && Next(sent, Reply([])).pc == HoldingDrain
            && var off := Next(Next(sent, Reply([])), Drain(false));
               Enabled(off, Resume) && Next(off, Resume) == w.(draining := false, sent := w.sent + {w.offset})
  {
  }

  /** Whatever ends a poll without a batch, the poller asks again from the same offset. */
  lemma AsksAgain(w: World)
    requires w.pc.Waiting?
    ensures Enabled(Next(w, Fail), Retry) && Next(Next(w, Fail), Retry) == w.(pc := Ready)
    ensures w.pc == Waiting(false) ==> Next(w, GiveUp) == w.(pc := Ready)
    ensures IsReply(w, []) && w.pc == Waiting(false) ==> Next(w, Reply([])) == w.(pc := Ready)
  {
  }

  /** A cancelled poller asks for nothing and offers nothing until it is started again. */
  lemma {:induction false} CancelledDoesNothing(w: World, actions: seq<Action>)
    requires Enabled(w, Cancel) && LegalRun(Next(w, Cancel), actions) && Restart !in actions
    ensures var end := RunTo(Next(w, Cancel), actions);
            end.pc == Stopped && end.sent == w.sent && end.answered == w.answered && end.offset == w.offset
  {
    StoppedDoesNothing(Next(w, Cancel), actions);
  }

  lemma {:induction false} StoppedDoesNothing(w: World, actions: seq<Action>)
    requires w.pc == Stopped && LegalRun(w, actions) && Restart !in actions
    ensures var end := RunTo(w, actions);
            end.pc == Stopped && end.sent == w.sent && end.answered == w.answered && end.offset == w.offset
    decreases |actions|
  {
    if actions != [] {
      assert actions[0] in actions && forall a | a in actions[1..] :: a in actions;
      StoppedDoesNothing(Next(w, actions[0]), actions[1..]);
    }
  }

  /** A restarted one asks from 0. */
  lemma RestartAsks(w: World)
    requires w.pc == Stopped
    ensures Enabled(Next(w, Restart), Send) && 0 in Next(Next(w, Restart), Send).sent
  {
  }

  /**
   The reply a restarted poller gets: it asks from 0 again, and whatever the
   server forgot is left out, exactly because it was answered before.
   */
  lemma RestartGetsUnconfirmed(w: World, batch: seq<int>, u: int)
    requires Inv(w) && Enabled(w, Reply(batch)) && u in w.updates
    ensures u in batch ==> w.confirmed <= u
    ensures batch != [] && u < batch[0] ==> u in w.answered
  {
    hide Increasing;
    if batch != [] && u < batch[0] {
      assert batch[..0] == [];
    }
  }
}
