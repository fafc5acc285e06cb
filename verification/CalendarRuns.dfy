/**
 Whole runs of a `SlotCalendar`: in time order it is the GCRA; out of order, with
 cancellations and folding, what was never cancelled conforms, the answers are
 those of the unfolded history, and the bookings kept stay bounded.
 */
module CalendarRuns {
  import opened Wrappers
  import opened Gcra
  import opened Calendar

  // ---- Booked in time order, the calendar is the GCRA

  datatype Request = Request(now: int, maxDelay: nat)

  /** What a caller sees of an answer: the delay, or the denial. */
  function Delay(answer: Answer): Result<nat, Denied> {
    match answer
    case Ok(b) => Ok(b.delay)
    case Err(d) => Err(d)
  }

  /** The answers of one GCRA whose TAT is `stored`. */
  function GcraAnswers(q: Quota, stored: Option<int>, requests: seq<Request>): (answers: seq<Result<nat, Denied>>)
    ensures |answers| == |requests|
    decreases |requests|
  {
    if requests == [] then []
    else
      match Book(q, stored, requests[0].now, requests[0].maxDelay)
      case Ok(b) => [Ok(b.delay)] + GcraAnswers(q, Some(b.tat), requests[1..])
      case Err(d) => [Err(d)] + GcraAnswers(q, stored, requests[1..])
  }

  /** `answers` are the answers of a calendar at `c` to `requests` without `from`. */
  ghost predicate CalendarAnswers(q: Quota, c: Cal, requests: seq<Request>, answers: seq<Answer>)
    decreases |requests|
  {
    && |answers| == |requests|
    && Ascending(c.slots)
    && (requests != [] ==>
      && RightAnswer(q, c, requests[0].now, 0, requests[0].maxDelay, answers[0])
      && CalendarAnswers(q, Acquired(q, c, requests[0].now, answers[0]), requests[1..], answers[1..]))
  }

  ghost predicate TimeOrdered(latest: int, requests: seq<Request>)
    decreases |requests|
  {
    requests != [] ==> latest <= requests[0].now && TimeOrdered(requests[0].now, requests[1..])
  }

  /** No slot lies later than its request or the slots before it forced. */
  ghost predicate Tight(q: Quota, c: Cal, latest: int) {
    forall k :: 0 <= k < |c.slots| ==> TightAt(q, c, latest, k)
  }

  ghost predicate TightAt(q: Quota, c: Cal, latest: int, k: nat)
    requires k < |c.slots|
  {
    var tat := After(q, c.floor, c.slots[..k]);
    c.slots[k] <= latest || (tat.Some? && c.slots[k] <= tat.value - q.tolerance)
  }

  lemma {:induction false} AfterGrows(q: Quota, floor: Option<int>, ts: seq<int>)
    ensures floor.Some? || ts != [] ==> After(q, floor, ts).Some?
    ensures floor.Some? ==> floor.value <= After(q, floor, ts).value
    decreases |ts|
  {
    if ts != [] {
      AfterGrows(q, Some(Advance(q, floor, ts[0])), ts[1..]);
    }
  }

  /** Whatever fits after a prefix respects the TAT the prefix leaves. */
  lemma FeasibleRespectsTat(q: Quota, c: Cal, x: int)
    requires Ascending(c.slots) && Feasible(q, c, x)
    ensures var tat := After(q, c.floor, c.slots[..UpTo(c.slots, x)]);
            tat.Some? ==> tat.value - x <= q.tolerance
  {
    var p := UpTo(c.slots, x);
    var rest := [x] + c.slots[p..];
    assert Insert(c.slots, x) == c.slots[..p] + rest;
    ConformsSplit(q, c.floor, c.slots[..p], rest);
    ConformsFirst(q, After(q, c.floor, c.slots[..p]), rest);
  }

  lemma FeasibleAtEnd(q: Quota, c: Cal, x: int)
    requires Sound(q, c) && (forall k :: 0 <= k < |c.slots| ==> c.slots[k] <= x)
    requires var tat := After(q, c.floor, c.slots); tat.Some? ==> tat.value - x <= q.tolerance
    ensures Insert(c.slots, x) == c.slots + [x] && Feasible(q, c, x)
  {
    PositionOf(c.slots, x, |c.slots|);
    assert Insert(c.slots, x) == c.slots + [x];
    ConformsSplit(q, c.floor, c.slots, [x]);
    ConformsFirst(q, After(q, c.floor, c.slots), [x]);
  }

  /** In a tight calendar, the earliest instant is where the GCRA would start. */
  lemma TightEarliest(q: Quota, c: Cal, now: int)
    requires Sound(q, c) && Tight(q, c, now)
    ensures var tat := After(q, c.floor, c.slots);
            var at := if tat.None? then now else Max(now, tat.value - q.tolerance);
            IsEarliest(q, c, now, at) && Feasible(q, c, at) && Insert(c.slots, at) == c.slots + [at]
  {
    var tat := After(q, c.floor, c.slots);
    var at := if tat.None? then now else Max(now, tat.value - q.tolerance);
    forall k | 0 <= k < |c.slots|
      ensures c.slots[k] <= at
    {
      TatGrows(q, c, k);
      assert TightAt(q, c, now, k);
    }
    FeasibleAtEnd(q, c, at);
    forall x | now <= x && Feasible(q, c, x)
      ensures at <= x
    {
      TightForces(q, c, now, x);
    }
  }

  /** Nothing fits between the slots of a tight calendar from `now` on. */
  lemma TightForces(q: Quota, c: Cal, now: int, x: int)
    requires Sound(q, c) && Tight(q, c, now) && now <= x && Feasible(q, c, x)
    ensures UpTo(c.slots, x) == |c.slots|
    ensures var tat := After(q, c.floor, c.slots); tat.Some? ==> tat.value - q.tolerance <= x
  {
    var p := UpTo(c.slots, x);
    FeasibleRespectsTat(q, c, x);
    assert p < |c.slots| ==> TightAt(q, c, now, p);
    assert c.slots[..p] == c.slots;
  }

  lemma TatGrows(q: Quota, c: Cal, k: nat)
    requires k < |c.slots|
    ensures var tat := After(q, c.floor, c.slots[..k]);
            After(q, c.floor, c.slots).Some? && (tat.Some? ==> tat.value <= After(q, c.floor, c.slots).value)
  {
    assert c.slots == c.slots[..k] + c.slots[k..];
    AfterSplit(q, c.floor, c.slots[..k], c.slots[k..]);
    AfterGrows(q, After(q, c.floor, c.slots[..k]), c.slots[k..]);
  }

  lemma FoldKeepsTight(q: Quota, c: Cal, latest: int, now: int)
    requires Tight(q, c, latest) && latest <= now
    ensures Tight(q, Folded(q, c, now), now)
    ensures After(q, Folded(q, c, now).floor, Folded(q, c, now).slots) == After(q, c.floor, c.slots)
  {
    var n, f := Before(c.slots, now), Folded(q, c, now);
    assert c.slots == c.slots[..n] + c.slots[n..];
    AfterSplit(q, c.floor, c.slots[..n], c.slots[n..]);
    forall k | 0 <= k < |f.slots|
      ensures TightAt(q, f, now, k)
    {
      assert TightAt(q, c, latest, n + k);
      assert c.slots[..n + k] == c.slots[..n] + f.slots[..k];
      AfterSplit(q, c.floor, c.slots[..n], f.slots[..k]);
    }
  }

  lemma AppendKeepsTight(q: Quota, c: Cal, now: int, at: int)
    requires Tight(q, c, now)
    requires at <= now || (After(q, c.floor, c.slots).Some? && at <= After(q, c.floor, c.slots).value - q.tolerance)
    ensures Tight(q, Cal(c.floor, c.slots + [at]), now)
  {
    var d := Cal(c.floor, c.slots + [at]);
    forall k | 0 <= k < |d.slots|
      ensures TightAt(q, d, now, k)
    {
      assert d.slots[..k] == c.slots[..k];
      if k < |c.slots| {
        assert TightAt(q, c, now, k);
      } else {
        assert c.slots[..k] == c.slots;
      }
    }
  }

  lemma InOrderStep(q: Quota, c: Cal, latest: int, now: int, maxDelay: nat, answer: Answer)
    requires Sound(q, c) && Tight(q, c, latest) && latest <= now
    requires RightAnswer(q, c, now, 0, maxDelay, answer)
    ensures var d := Acquired(q, c, now, answer);
            && Sound(q, d) && Tight(q, d, now)
            && match Book(q, After(q, c.floor, c.slots), now, maxDelay)
               case Ok(b) => Delay(answer) == Ok(b.delay) && After(q, d.floor, d.slots) == Some(b.tat)
               case Err(e) => Delay(answer) == Err(e) && After(q, d.floor, d.slots) == After(q, c.floor, c.slots)
  {
    hide Conforms, Ascending, Tight, After, IsEarliest, Insert;
    var f := Folded(q, c, now);
    FoldingChangesNoAnswer(q, c, now);
    FoldKeepsTight(q, c, latest, now);
    TightEarliest(q, f, now);
    var tat := After(q, f.floor, f.slots);
    var at := if tat.None? then now else Max(now, tat.value - q.tolerance);
    EarliestUnique(q, f, now, at, if answer.Ok? then answer.value.at else now + answer.error.retryAfter);
    if answer.Ok? {
      AppendKeepsTight(q, f, now, at);
      AfterAppend(q, f.floor, f.slots, at);
    }
  }

  lemma AfterAppend(q: Quota, floor: Option<int>, ts: seq<int>, t: int)
    ensures After(q, floor, ts + [t]) == Some(Advance(q, After(q, floor, ts), t))
  {
    AfterSplit(q, floor, ts, [t]);
  }

  lemma {:induction false} InOrderFrom(q: Quota, c: Cal, latest: int, requests: seq<Request>, answers: seq<Answer>)
    requires Sound(q, c) && Tight(q, c, latest)
    requires TimeOrdered(latest, requests) && CalendarAnswers(q, c, requests, answers)
    ensures var expected := GcraAnswers(q, After(q, c.floor, c.slots), requests);
            forall k :: 0 <= k < |requests| ==> Delay(answers[k]) == expected[k]
    decreases |requests|
  {
    hide Conforms, Ascending, Tight, After, Acquired, RightAnswer;
    if requests != [] {
      var now := requests[0].now;
      InOrderStep(q, c, latest, now, requests[0].maxDelay, answers[0]);
      InOrderFrom(q, Acquired(q, c, now, answers[0]), now, requests[1..], answers[1..]);
      assert forall k :: 0 < k < |requests| ==> answers[k] == answers[1..][k - 1];
    }
  }

  /** Asked in time order, a fresh calendar gives every request the answer the GCRA gives. */
  lemma InOrderItIsTheGcra(q: Quota, start: int, requests: seq<Request>, answers: seq<Answer>)
    requires TimeOrdered(start, requests) && CalendarAnswers(q, Cal(None, []), requests, answers)
    ensures forall k :: 0 <= k < |requests| ==> Delay(answers[k]) == GcraAnswers(q, None, requests)[k]
  {
    InOrderFrom(q, Cal(None, []), start, requests, answers);
  }

  // ---- Any order, with cancellations and folding

  datatype Event =
    | Acquire(now: int, from: nat, maxDelay: nat, answer: Answer)
    | Cancel(at: int)
    | Retain(now: int)

  /**
   A calendar with its past: `folded` are the starts folded into the floor,
   `kept` the starts never cancelled, `latest` the last `now`.
   */
  datatype Ledger = Ledger(cal: Cal, folded: seq<int>, kept: multiset<int>, latest: int) {
    /** Every start still charged, folded ones included. */
    function History(): seq<int> {
      folded + cal.slots
    }
  }

  /** `answer` is right, time does not go back, and a booking is cancelled at most once. */
  ghost predicate Legal(q: Quota, l: Ledger, e: Event)
    requires Ascending(l.cal.slots)
  {
    match e
    case Acquire(now, from, maxDelay, answer) => l.latest <= now && RightAnswer(q, l.cal, now, from, maxDelay, answer)
    case Cancel(at) => at in l.kept
    case Retain(now) => l.latest <= now
  }

  function Next(q: Quota, l: Ledger, e: Event): Ledger
    requires Ascending(l.cal.slots)
  {
    match e
    case Acquire(now, _, _, answer) =>
      Ledger(Acquired(q, l.cal, now, answer),
             l.folded + l.cal.slots[..Before(l.cal.slots, now)],
             if answer.Ok? then l.kept + multiset{answer.value.at} else l.kept,
             now)
    case Cancel(at) => Ledger(Cancelled(l.cal, at), l.folded, l.kept - multiset{at}, l.latest)
    case Retain(now) =>
      Ledger(Folded(q, l.cal, now), l.folded + l.cal.slots[..Before(l.cal.slots, now)], l.kept, now)
  }

  function Fresh(start: int): Ledger {
    Ledger(Cal(None, []), [], multiset{}, start)
  }

  ghost predicate LegalRun(q: Quota, l: Ledger, events: seq<Event>)
    decreases |events|
  {
    && Ascending(l.cal.slots)
    && (events != [] ==> Legal(q, l, events[0]) && LegalRun(q, Next(q, l, events[0]), events[1..]))
  }

  ghost function RunTo(q: Quota, l: Ledger, events: seq<Event>): Ledger
    requires LegalRun(q, l, events)
    decreases |events|
  {
    if events == [] then l else RunTo(q, Next(q, l, events[0]), events[1..])
  }

  /** The floor stands for the folded starts, and the whole history conforms. */
  ghost predicate Inv(q: Quota, l: Ledger) {
    && Conforms(q, None, l.History())
    && l.cal.floor == After(q, None, l.folded)
    && l.kept <= multiset(l.History())
    && AllBefore(l.folded, l.latest)
    && AllFrom(l.cal.slots, l.latest)
  }

  ghost predicate AllBefore(ts: seq<int>, t: int) {
    forall k :: 0 <= k < |ts| ==> ts[k] < t
  }

  ghost predicate AllFrom(ts: seq<int>, t: int) {
    forall k :: 0 <= k < |ts| ==> t <= ts[k]
  }

  lemma HistoryParts(q: Quota, l: Ledger)
    requires Inv(q, l)
    ensures Sound(q, l.cal) && Ascending(l.cal.slots)
  {
    ConformsSplit(q, None, l.folded, l.cal.slots);
    assert l.History()[..|l.folded|] == l.folded && l.History()[|l.folded|..] == l.cal.slots;
    AscendingParts(l.History(), |l.folded|);
  }

  /** Folding moves starts within the same history. */
  lemma FoldKeepsInv(q: Quota, l: Ledger, now: int)
    requires Inv(q, l) && l.latest <= now
    ensures Ascending(l.cal.slots)
    ensures var m := Next(q, l, Retain(now)); Inv(q, m) && m.History() == l.History()
  {
    hide Conforms, After, Ascending, AllBefore, AllFrom, Before;
    HistoryParts(q, l);
    var n := Before(l.cal.slots, now);
    AfterSplit(q, None, l.folded, l.cal.slots[..n]);
    FoldedBounds(l.folded, l.cal.slots, l.latest, now);
    Regrouped(l.folded, l.cal.slots, n);
  }

  lemma Regrouped(a: seq<int>, b: seq<int>, n: nat)
    requires n <= |b|
    ensures (a + b[..n]) + b[n..] == a + b
  {
    assert b == b[..n] + b[n..];
  }

  lemma WithoutOne(a: seq<int>, b: seq<int>, i: nat)
    requires i < |b|
    ensures var p, h := |a| + i, a + b;
            h[..p] + h[p + 1..] == a + (b[..i] + b[i + 1..]) && h == h[..p] + [b[i]] + h[p + 1..]
  {
  }

  lemma FoldedBounds(folded: seq<int>, slots: seq<int>, latest: int, now: int)
    requires Ascending(slots) && AllBefore(folded, latest) && latest <= now
    ensures AllBefore(folded + slots[..Before(slots, now)], now) && AllFrom(slots[Before(slots, now)..], now)
  {
  }

  /** What fits the folded calendar is what fits the unfolded history. */
  lemma UnfoldedFeasible(q: Quota, l: Ledger, x: int)
    requires Inv(q, l) && l.latest <= x
    ensures Ascending(l.cal.slots) && Ascending(l.History())
    ensures Feasible(q, l.cal, x) <==> Feasible(q, Cal(None, l.History()), x)
    ensures Insert(l.History(), x) == l.folded + Insert(l.cal.slots, x)
  {
    HistoryParts(q, l);
    var n := |l.folded|;
    assert l.History()[..n] == l.folded && l.History()[n..] == l.cal.slots;
    FoldKeepsFeasible(q, None, l.History(), n, x);
    InsertAfterPrefix(l.History(), n, x);
  }

  lemma UnfoldedEarliest(q: Quota, l: Ledger, start: int, at: int)
    requires Inv(q, l) && l.latest <= start
    ensures Ascending(l.cal.slots) && Ascending(l.History())
    ensures IsEarliest(q, l.cal, start, at) <==> IsEarliest(q, Cal(None, l.History()), start, at)
  {
    HistoryParts(q, l);
    forall x | start <= x
      ensures Ascending(l.History()) && (Feasible(q, l.cal, x) <==> Feasible(q, Cal(None, l.History()), x))
    {
      UnfoldedFeasible(q, l, x);
    }
  }

  lemma AcquireKeepsInv(q: Quota, l: Ledger, e: Event)
    requires Inv(q, l) && e.Acquire? && Ascending(l.cal.slots) && Legal(q, l, e)
    ensures Inv(q, Next(q, l, e))
  {
    hide Conforms, Ascending, After, Insert, IsEarliest, Inv, Folded, Before;
    var f := Next(q, l, Retain(e.now));
    FoldKeepsInv(q, l, e.now);
    if e.answer.Ok? {
      HistoryParts(q, l);
      FoldedEarliest(q, l.cal, e.now, e.now + e.from, e.answer.value.at);
      BookKeepsInv(q, f, e.now + e.from, e.answer.value.at);
    }
  }

  lemma BookKeepsInv(q: Quota, f: Ledger, start: int, at: int)
    requires Inv(q, f) && f.latest <= start && Ascending(f.cal.slots) && IsEarliest(q, f.cal, start, at)
    ensures Ascending(f.History())
    ensures Inv(q, Ledger(Cal(f.cal.floor, Insert(f.cal.slots, at)), f.folded, f.kept + multiset{at}, f.latest))
  {
    hide Conforms, Ascending, After, Insert, AllBefore;
    UnfoldedFeasible(q, f, at);
    InsertedContents(f.History(), at);
    InsertedMembers(f.cal.slots, at);
  }

  lemma SplicedContents(a: seq<int>, x: int, b: seq<int>)
    ensures multiset(a + [x] + b) == multiset(a + b) + multiset{x}
  {
    assert multiset(a + [x] + b) == multiset(a) + multiset{x} + multiset(b);
  }

  lemma InsertedContents(ts: seq<int>, x: int)
    requires Ascending(ts)
    ensures multiset(Insert(ts, x)) == multiset(ts) + multiset{x}
  {
    hide Ascending;
    var p := UpTo(ts, x);
    assert ts == ts[..p] + ts[p..];
    SplicedContents(ts[..p], x, ts[p..]);
  }

  lemma InsertedMembers(ts: seq<int>, x: int)
    requires Ascending(ts)
    ensures forall k :: 0 <= k < |Insert(ts, x)| ==> Insert(ts, x)[k] == x || Insert(ts, x)[k] in ts
  {
  }

  lemma CancelKeepsInv(q: Quota, l: Ledger, at: int)
    requires Inv(q, l) && at in l.kept
    ensures Ascending(l.cal.slots) && Inv(q, Next(q, l, Cancel(at)))
  {
    hide Conforms, After, Ascending, AllBefore, AllFrom;
    HistoryParts(q, l);
    CancelledSlots(q, l.folded, l.cal, at, l.kept, l.latest);
  }

  lemma CancelledSlots(q: Quota, folded: seq<int>, c: Cal, at: int, kept: multiset<int>, latest: int)
    requires Conforms(q, None, folded + c.slots) && kept <= multiset(folded + c.slots) && AllFrom(c.slots, latest)
    ensures var d := Cancelled(c, at);
            && d.floor == c.floor
            && Conforms(q, None, folded + d.slots)
            && kept - multiset{at} <= multiset(folded + d.slots)
            && AllFrom(d.slots, latest)
  {
    hide Conforms, AllFrom;
    var i := Before(c.slots, at);
    if i < |c.slots| && c.slots[i] == at {
      RemovedKeepsHistory(q, folded, c.slots, i, kept);
      RemovedKeepsBound(c.slots, i, latest);
    }
  }

  lemma RemovedKeepsBound(slots: seq<int>, i: nat, t: int)
    requires i < |slots| && AllFrom(slots, t)
    ensures AllFrom(slots[..i] + slots[i + 1..], t)
  {
  }

  lemma RemovedKeepsHistory(q: Quota, folded: seq<int>, slots: seq<int>, i: nat, kept: multiset<int>)
    requires i < |slots| && Conforms(q, None, folded + slots) && kept <= multiset(folded + slots)
    ensures var rest := folded + (slots[..i] + slots[i + 1..]);
            Conforms(q, None, rest) && kept - multiset{slots[i]} <= multiset(rest)
  {
    hide Conforms;
    var p, h := |folded| + i, folded + slots;
    ConformsWithout(q, None, h, p);
    WithoutOne(folded, slots, i);
    SplicedContents(h[..p], slots[i], h[p + 1..]);
  }

  lemma StepKeepsInv(q: Quota, l: Ledger, e: Event)
    requires Inv(q, l) && Ascending(l.cal.slots) && Legal(q, l, e)
    ensures Inv(q, Next(q, l, e))
  {
    match e
    case Acquire(_, _, _, _) => AcquireKeepsInv(q, l, e);
    case Cancel(at) => CancelKeepsInv(q, l, at);
    case Retain(now) => FoldKeepsInv(q, l, now);
  }

  lemma FreshInv(q: Quota, start: int)
    ensures Inv(q, Fresh(start))
  {
  }

  lemma {:induction false} RunKeepsInv(q: Quota, l: Ledger, events: seq<Event>)
    requires Inv(q, l) && LegalRun(q, l, events)
    ensures Inv(q, RunTo(q, l, events))
    decreases |events|
  {
    if events != [] {
      StepKeepsInv(q, l, events[0]);
      RunKeepsInv(q, Next(q, l, events[0]), events[1..]);
    }
  }

  lemma SameLeast(a: seq<int>, b: seq<int>)
    requires Ascending(a) && Ascending(b) && a != [] && multiset(a) == multiset(b)
    ensures b != [] && a[0] == b[0]
  {
    assert a[0] in multiset(b) && b != [];
    assert b[0] in multiset(a);
  }

  lemma SameRest(a: seq<int>, b: seq<int>)
    requires a != [] && b != [] && a[0] == b[0] && multiset(a) == multiset(b)
    ensures multiset(a[1..]) == multiset(b[1..])
  {
    assert a == [a[0]] + a[1..] && b == [b[0]] + b[1..];
    assert multiset(a[1..]) == multiset(a) - multiset{a[0]};
    assert multiset(b[1..]) == multiset(b) - multiset{b[0]};
  }

  lemma {:induction false} SortedUnique(a: seq<int>, b: seq<int>)
    requires Ascending(a) && Ascending(b) && multiset(a) == multiset(b)
    ensures a == b
    decreases |a|
  {
    hide Ascending;
    if a == [] {
      assert b == [] by { assert |multiset(b)| == 0; }
    } else {
      SameLeast(a, b);
      SameRest(a, b);
      AscendingParts(a, 1);
      AscendingParts(b, 1);
      SortedUnique(a[1..], b[1..]);
      assert a == [a[0]] + a[1..] && b == [b[0]] + b[1..];
    }
  }

  /** Any part of a conforming schedule conforms. */
  lemma {:induction false} PartConforms(q: Quota, h: seq<int>, u: seq<int>)
    requires Conforms(q, None, h) && Ascending(u) && multiset(u) <= multiset(h)
    ensures Conforms(q, None, u)
    decreases |h|
  {
    var spare := multiset(h) - multiset(u);
    if spare == multiset{} {
      assert multiset(u) == multiset(h);
      SortedUnique(u, h);
    } else {
      var e :| e in spare;
      var p :| 0 <= p < |h| && h[p] == e;
      ConformsWithout(q, None, h, p);
      assert h == h[..p] + [e] + h[p + 1..];
      PartConforms(q, h[..p] + h[p + 1..], u);
    }
  }

  /**
   The quota holds over every run: the starts never cancelled, folded ones
   included, keep the documented distance, however they were booked, so no
   window of length `w` holds more than `burst + w / T` of them.
   */
  lemma NeverCancelledConform(q: Quota, burst: nat, start: int, events: seq<Event>, starts: seq<int>, lo: int, w: nat)
    requires Rated(q, burst) && LegalRun(q, Fresh(start), events)
    requires Ascending(starts) && multiset(starts) == RunTo(q, Fresh(start), events).kept
    ensures Distant(q, burst, starts)
    ensures CountWithin(starts, lo, lo + w) <= burst + w / q.interval
  {
    hide Conforms, Ascending, After, RunTo, LegalRun;
    FreshInv(q, start);
    RunKeepsInv(q, Fresh(start), events);
    PartConforms(q, RunTo(q, Fresh(start), events).History(), starts);
    forall i, j | 0 <= i < j < |starts|
      ensures starts[j] - starts[i] >= Gap(q, burst, j - i)
    {
      ConformingDistance(q, burst, starts, i, j);
    }
    WindowHolds(q, burst, starts, lo, w);
  }

  /** In every run, the answers are those of the history that nothing ever folded. */
  lemma AnswersAreUnfolded(q: Quota, start: int, events: seq<Event>, e: Event)
    requires LegalRun(q, Fresh(start), events)
    requires e.Acquire? && Ascending(RunTo(q, Fresh(start), events).cal.slots) && Legal(q, RunTo(q, Fresh(start), events), e)
    ensures var l := RunTo(q, Fresh(start), events);
            Ascending(l.History()) && RightAnswer(q, Cal(None, l.History()), e.now, e.from, e.maxDelay, e.answer)
  {
    hide Conforms, Ascending, After, RunTo, LegalRun, Next, IsEarliest;
    FreshInv(q, start);
    var l := RunTo(q, Fresh(start), events);
    RunKeepsInv(q, Fresh(start), events);
    UnfoldedEarliest(q, l, e.now + e.from, if e.answer.Ok? then e.answer.value.at else e.now + e.answer.error.retryAfter);
  }

  /** Cancelling a booking before anything else happens leaves the calendar as if it had only been folded. */
  lemma CancelUndoesAcquire(q: Quota, c: Cal, now: int, from: nat, maxDelay: nat, b: Booking)
    requires Sound(q, c) && RightAnswer(q, c, now, from, maxDelay, Ok(b))
    ensures Cancelled(Acquired(q, c, now, Ok(b)), b.at) == Folded(q, c, now)
  {
    hide Spaced, AboveFloor, After, IsEarliest;
    var ts := Folded(q, c, now).slots;
    AscendingParts(c.slots, Before(c.slots, now));
    RemovesInserted(ts, b.at);
  }

  lemma RemovesInserted(ts: seq<int>, x: int)
    requires Ascending(ts)
    ensures var us := Insert(ts, x); Cancelled(Cal(None, us), x).slots == ts
  {
    hide Insert, Ascending;
    var us, i, p := Insert(ts, x), Before(Insert(ts, x), x), UpTo(ts, x);
    InsertedElements(ts, x);
    EqualRun(us, x, p);
    var rest := us[..i] + us[i + 1..];
    forall k | 0 <= k < |ts|
      ensures rest[k] == ts[k]
    {
      assert rest[k] == if k < i then us[k] else us[k + 1];
    }
  }

  lemma InsertedElements(ts: seq<int>, x: int)
    requires Ascending(ts)
    ensures var us, p := Insert(ts, x), UpTo(ts, x);
            && us[p] == x && (forall k :: 0 <= k < p ==> us[k] == ts[k]) && (forall k :: p < k < |us| ==> us[k] == ts[k - 1])
  {
  }

  lemma EqualRun(us: seq<int>, x: int, p: nat)
    requires Ascending(us) && p < |us| && us[p] == x
    ensures Before(us, x) <= p && forall k :: Before(us, x) <= k <= p ==> us[k] == x
  {
  }

  // ---- The bookings kept stay bounded

  ghost predicate Within(l: Ledger, d: nat) {
    forall k :: 0 <= k < |l.cal.slots| ==> l.cal.slots[k] <= l.latest + d
  }

  ghost predicate DelaysWithin(events: seq<Event>, d: nat) {
    forall k :: 0 <= k < |events| && events[k].Acquire? ==> events[k].maxDelay <= d
  }

  lemma {:induction false} RunStaysWithin(q: Quota, l: Ledger, events: seq<Event>, d: nat)
    requires Inv(q, l) && Within(l, d) && LegalRun(q, l, events) && DelaysWithin(events, d)
    ensures Within(RunTo(q, l, events), d)
    decreases |events|
  {
    if events != [] {
      var e := events[0];
      StepKeepsInv(q, l, e);
      StepStaysWithin(q, l, e, d);
      RunStaysWithin(q, Next(q, l, e), events[1..], d);
    }
  }

  lemma StepStaysWithin(q: Quota, l: Ledger, e: Event, d: nat)
    requires Within(l, d) && Ascending(l.cal.slots) && Legal(q, l, e) && (e.Acquire? ==> e.maxDelay <= d)
    ensures Within(Next(q, l, e), d)
  {
    hide Feasible, After;
    if e.Acquire? && e.answer.Ok? {
      var f := Folded(q, l.cal, e.now);
      AscendingParts(l.cal.slots, Before(l.cal.slots, e.now));
      InsertedMembers(f.slots, e.answer.value.at);
    }
  }

  /** With every booking within `d` of its `now`, at most `burst + d / T` bookings are ever kept. */
  lemma BookingsStayBounded(q: Quota, burst: nat, start: int, events: seq<Event>, d: nat)
    requires Rated(q, burst) && LegalRun(q, Fresh(start), events) && DelaysWithin(events, d)
    ensures |RunTo(q, Fresh(start), events).cal.slots| <= burst + d / q.interval
  {
    hide Spaced, AboveFloor, After, RunTo, LegalRun, Next;
    FreshInv(q, start);
    var l := RunTo(q, Fresh(start), events);
    RunKeepsInv(q, Fresh(start), events);
    RunStaysWithin(q, Fresh(start), events, d);
    SlotsBounded(q, burst, l, d);
  }

  lemma SlotsWithin(l: Ledger, d: nat)
    requires AllFrom(l.cal.slots, l.latest) && Within(l, d) && l.cal.slots != []
    ensures l.cal.slots[|l.cal.slots| - 1] - l.cal.slots[0] <= d
  {
  }

  lemma GapBound(q: Quota, burst: nat, n: nat, span: int, d: nat)
    requires Rated(q, burst) && n > 0 && Gap(q, burst, n - 1) <= span <= d
    ensures q.interval > 0 && n <= burst + d / q.interval
  {
    WindowBound(q, burst, n, span, d);
  }

  lemma FewSlots(q: Quota, burst: nat, d: nat)
    requires Rated(q, burst)
    ensures q.interval > 0 && burst + d / q.interval >= 1
  {
  }

  lemma SlotsBounded(q: Quota, burst: nat, l: Ledger, d: nat)
    requires Rated(q, burst) && Inv(q, l) && Within(l, d)
    ensures |l.cal.slots| <= burst + d / q.interval
  {
    hide Conforms, After, Gap, Rated;
    var slots, h, n := l.cal.slots, l.History(), |l.folded|;
    if |slots| > 1 {
      assert h[n] == slots[0] && h[n + |slots| - 1] == slots[|slots| - 1];
      ConformingDistance(q, burst, h, n, n + |slots| - 1);
      SlotsWithin(l, d);
      GapBound(q, burst, |slots|, slots[|slots| - 1] - slots[0], d);
    } else {
      FewSlots(q, burst, d);
    }
  }
}
