/**
 `SlotCalendar` of crates/tgin-runtime/src/limit.rs: the quota kept as a sorted
 calendar of booked instants, with the past folded into one floor.
 */
module Calendar {
  import opened Wrappers
  import opened Gcra

  datatype Cal = Cal(floor: Option<int>, slots: seq<int>)

  datatype Booking = Booking(delay: nat, at: int)

  type Answer = Result<Booking, Denied>

  // ---- Sorted positions and insertion

  /** `partition_point(|slot| slot < x)`. */
  function Before(ts: seq<int>, x: int): (p: nat)
    ensures p <= |ts|
    ensures forall k :: 0 <= k < p ==> ts[k] < x
    ensures p < |ts| ==> ts[p] >= x
  {
    if ts == [] || ts[0] >= x then 0 else 1 + Before(ts[1..], x)
  }

  /** `partition_point(|slot| slot <= x)`. */
  function UpTo(ts: seq<int>, x: int): (p: nat)
    ensures p <= |ts|
    ensures forall k :: 0 <= k < p ==> ts[k] <= x
    ensures p < |ts| ==> ts[p] > x
  {
    Before(ts, x + 1)
  }

  function Insert(ts: seq<int>, x: int): (us: seq<int>)
    requires Ascending(ts)
    ensures Ascending(us) && |us| == |ts| + 1
  {
    ts[..UpTo(ts, x)] + [x] + ts[UpTo(ts, x)..]
  }

  // ---- What `earliest` and folding mean

  ghost predicate Sound(q: Quota, c: Cal) {
    Conforms(q, c.floor, c.slots)
  }

  /** Booking `x` keeps the calendar conforming. */
  ghost predicate Feasible(q: Quota, c: Cal, x: int)
    requires Ascending(c.slots)
  {
    Conforms(q, c.floor, Insert(c.slots, x))
  }

  ghost predicate IsEarliest(q: Quota, c: Cal, start: int, at: int)
    requires Ascending(c.slots)
  {
    && start <= at
    && Feasible(q, c, at)
    && forall x :: start <= x < at ==> !Feasible(q, c, x)
  }

  function Folded(q: Quota, c: Cal, now: int): Cal {
    var n := Before(c.slots, now);
    Cal(After(q, c.floor, c.slots[..n]), c.slots[n..])
  }

  /** `answer` is the right answer of `acquire` on the calendar `c`. */
  ghost predicate RightAnswer(q: Quota, c: Cal, now: int, from: nat, maxDelay: nat, answer: Answer)
    requires Ascending(c.slots)
  {
    match answer
    case Ok(b) => IsEarliest(q, c, now + from, b.at) && b.delay == b.at - now && b.delay <= maxDelay
    case Err(d) => IsEarliest(q, c, now + from, now + d.retryAfter) && d.retryAfter > maxDelay
  }

  /** The calendar after `acquire` gave `answer`. */
  function Acquired(q: Quota, c: Cal, now: int, answer: Answer): Cal
    requires Ascending(c.slots)
  {
    var f := Folded(q, c, now);
    if answer.Ok? then Cal(f.floor, Insert(f.slots, answer.value.at)) else f
  }

  function Cancelled(c: Cal, at: int): Cal {
    var i := Before(c.slots, at);
    if i < |c.slots| && c.slots[i] == at then Cal(c.floor, c.slots[..i] + c.slots[i + 1..]) else c
  }

  // ---- Where an insertion fits

  /** `m` is the largest of the floor and the leads before position `p`. */
  ghost predicate IsHighest(q: Quota, c: Cal, p: nat, m: Option<int>)
    requires p <= |c.slots|
  {
    && (m.None? <==> c.floor.None? && p == 0)
    && (m.Some? ==>
      && (c.floor.Some? ==> c.floor.value <= m.value)
      && (forall i :: 0 <= i < p ==> Lead(q, c.slots, i) <= m.value)
      && ((c.floor.Some? && c.floor.value == m.value) || exists i :: 0 <= i < p && Lead(q, c.slots, i) == m.value))
  }

  /** `m` is the smallest lead from position `p` on. */
  ghost predicate IsLowest(q: Quota, c: Cal, p: nat, m: Option<int>)
    requires p <= |c.slots|
  {
    && (m.None? <==> p == |c.slots|)
    && (m.Some? ==>
      && (forall j :: p <= j < |c.slots| ==> m.value <= Lead(q, c.slots, j))
      && exists j :: p <= j < |c.slots| && Lead(q, c.slots, j) == m.value)
  }

  /** The three conditions `earliest` tests at position `p`. */
  ghost predicate Fits(q: Quota, p: nat, high: Option<int>, low: Option<int>, x: int) {
    var lead := x - p * q.interval;
    && (high.Some? ==> high.value - lead <= q.tolerance)
    && (low.Some? ==> lead - (low.value - q.interval) <= q.tolerance)
    && (high.Some? && low.Some? ==> high.value - (low.value - q.interval) <= q.tolerance)
  }

  lemma InsertedLeads(q: Quota, ts: seq<int>, x: int)
    requires Ascending(ts)
    ensures var p, us := UpTo(ts, x), Insert(ts, x);
            && Lead(q, us, p) == x - p * q.interval
            && (forall i :: 0 <= i < p ==> Lead(q, us, i) == Lead(q, ts, i))
            && (forall j :: p < j < |us| ==> Lead(q, us, j) == Lead(q, ts, j - 1) - q.interval)
  {
    var p, us := UpTo(ts, x), Insert(ts, x);
    forall j | p < j < |us|
      ensures Lead(q, us, j) == Lead(q, ts, j - 1) - q.interval
    {
      assert us[j] == ts[j - 1];
      assert j * q.interval == (j - 1) * q.interval + q.interval;
    }
  }

  lemma FeasibleIffFits(q: Quota, c: Cal, x: int, high: Option<int>, low: Option<int>)
    requires Sound(q, c)
    requires IsHighest(q, c, UpTo(c.slots, x), high) && IsLowest(q, c, UpTo(c.slots, x), low)
    ensures Feasible(q, c, x) <==> Fits(q, UpTo(c.slots, x), high, low, x)
  {
    hide Spaced, AboveFloor, IsHighest, IsLowest, Fits;
    if Feasible(q, c, x) {
      FeasibleFits(q, c, x, high, low);
    }
    if Fits(q, UpTo(c.slots, x), high, low, x) {
      FitsFeasible(q, c, x, high, low);
    }
  }

  lemma FeasibleFits(q: Quota, c: Cal, x: int, high: Option<int>, low: Option<int>)
    requires Sound(q, c) && Feasible(q, c, x)
    requires IsHighest(q, c, UpTo(c.slots, x), high) && IsLowest(q, c, UpTo(c.slots, x), low)
    ensures Fits(q, UpTo(c.slots, x), high, low, x)
  {
    InsertedLeads(q, c.slots, x);
    var p, us := UpTo(c.slots, x), Insert(c.slots, x);
    if low.Some? {
      var j :| p <= j < |c.slots| && Lead(q, c.slots, j) == low.value;
      assert Lead(q, us, j + 1) == low.value - q.interval;
      assert Lead(q, us, p) - Lead(q, us, j + 1) <= q.tolerance;
    }
    if high.Some? && !(c.floor.Some? && c.floor.value == high.value) {
      var i :| 0 <= i < p && Lead(q, c.slots, i) == high.value;
      assert Lead(q, us, i) == high.value;
    }
  }

  lemma FitsFeasible(q: Quota, c: Cal, x: int, high: Option<int>, low: Option<int>)
    requires Sound(q, c) && Fits(q, UpTo(c.slots, x), high, low, x)
    requires IsHighest(q, c, UpTo(c.slots, x), high) && IsLowest(q, c, UpTo(c.slots, x), low)
    ensures Feasible(q, c, x)
  {
    var p, us := UpTo(c.slots, x), Insert(c.slots, x);
    forall i, j | 0 <= i < j < |us|
      ensures Lead(q, us, i) - Lead(q, us, j) <= q.tolerance
    {
      InsertedPair(q, c, x, high, low, i, j);
    }
    assert AboveFloor(q, c.floor, us) by {
      InsertedLeads(q, c.slots, x);
    }
  }

  lemma InsertedPair(q: Quota, c: Cal, x: int, high: Option<int>, low: Option<int>, i: nat, j: nat)
    requires Sound(q, c) && Fits(q, UpTo(c.slots, x), high, low, x)
    requires IsHighest(q, c, UpTo(c.slots, x), high) && IsLowest(q, c, UpTo(c.slots, x), low)
    requires i < j <= |c.slots|
    ensures Lead(q, Insert(c.slots, x), i) - Lead(q, Insert(c.slots, x), j) <= q.tolerance
  {
    hide Insert, Lead, AboveFloor;
    InsertedLeads(q, c.slots, x);
    var p := UpTo(c.slots, x);
    if j < p {
      assert Lead(q, c.slots, i) - Lead(q, c.slots, j) <= q.tolerance;
    } else if p < i {
      assert Lead(q, c.slots, i - 1) - Lead(q, c.slots, j - 1) <= q.tolerance;
    }
  }

  lemma EarliestUnique(q: Quota, c: Cal, start: int, a: int, b: int)
    requires Ascending(c.slots) && IsEarliest(q, c, start, a) && IsEarliest(q, c, start, b)
    ensures a == b
  {
    assert !(a < b) && !(b < a);
  }

  // ---- Folding

  lemma SpliceAfterPrefix(ts: seq<int>, n: nat, r: nat, x: int)
    requires n + r <= |ts|
    ensures ts[..n + r] + [x] + ts[n + r..] == ts[..n] + (ts[n..][..r] + [x] + ts[n..][r..])
  {
    assert ts[..n + r] == ts[..n] + ts[n..][..r];
    assert ts[n + r..] == ts[n..][r..];
  }

  lemma AscendingParts(ts: seq<int>, n: nat)
    requires Ascending(ts) && n <= |ts|
    ensures Ascending(ts[..n]) && Ascending(ts[n..])
  {
  }

  lemma PositionAfterPrefix(ts: seq<int>, n: nat, x: int)
    requires Ascending(ts) && n <= |ts| && (n > 0 ==> ts[n - 1] <= x)
    ensures UpTo(ts, x) == n + UpTo(ts[n..], x)
  {
    var r := UpTo(ts[n..], x);
    assert r > 0 ==> ts[n..][r - 1] == ts[n + r - 1];
    assert r < |ts| - n ==> ts[n..][r] == ts[n + r];
    PositionOf(ts, x, n + r);
  }

  lemma InsertAfterPrefix(ts: seq<int>, n: nat, x: int)
    requires Ascending(ts) && n <= |ts| && (n > 0 ==> ts[n - 1] <= x)
    ensures Ascending(ts[n..]) && Insert(ts, x) == ts[..n] + Insert(ts[n..], x)
  {
    AscendingParts(ts, n);
    PositionAfterPrefix(ts, n, x);
    SpliceAfterPrefix(ts, n, UpTo(ts[n..], x), x);
  }

  /** Folding a prefix changes neither conformance nor what fits after it. */
  lemma FoldKeepsFeasible(q: Quota, floor: Option<int>, ts: seq<int>, n: nat, x: int)
    requires Conforms(q, floor, ts) && n <= |ts| && (n > 0 ==> ts[n - 1] <= x)
    ensures Conforms(q, After(q, floor, ts[..n]), ts[n..])
    ensures Feasible(q, Cal(floor, ts), x) <==> Feasible(q, Cal(After(q, floor, ts[..n]), ts[n..]), x)
  {
    hide Spaced, AboveFloor, After, Insert;
    InsertAfterPrefix(ts, n, x);
    assert ts == ts[..n] + ts[n..];
    ConformsSplit(q, floor, ts[..n], ts[n..]);
    ConformsSplit(q, floor, ts[..n], Insert(ts[n..], x));
  }

  /** Folding the past changes no answer, and keeps the calendar conforming. */
  lemma FoldingChangesNoAnswer(q: Quota, c: Cal, now: int)
    requires Sound(q, c)
    ensures Sound(q, Folded(q, c, now)) && Ascending(Folded(q, c, now).slots)
    ensures forall start, at :: start >= now ==>
              (IsEarliest(q, c, start, at) <==> IsEarliest(q, Folded(q, c, now), start, at))
  {
    var n := Before(c.slots, now);
    forall x | x >= now
      ensures Feasible(q, c, x) <==> Feasible(q, Folded(q, c, now), x)
    {
      FoldKeepsFeasible(q, c.floor, c.slots, n, x);
    }
    FoldKeepsFeasible(q, c.floor, c.slots, n, now);
  }

  /** The same, for one instant. */
  lemma FoldedEarliest(q: Quota, c: Cal, now: int, start: int, at: int)
    requires Sound(q, c) && now <= start
    ensures Sound(q, Folded(q, c, now)) && Ascending(Folded(q, c, now).slots)
    ensures IsEarliest(q, c, start, at) <==> IsEarliest(q, Folded(q, c, now), start, at)
  {
    hide Conforms, Ascending, Folded, IsEarliest;
    AscendingSlots(q, c);
    FoldingChangesNoAnswer(q, c, now);
  }

  lemma AscendingSlots(q: Quota, c: Cal)
    requires Sound(q, c)
    ensures Ascending(c.slots)
  {
  }

  lemma EarliestFits(q: Quota, c: Cal, start: int, at: int)
    requires Ascending(c.slots) && IsEarliest(q, c, start, at)
    ensures start <= at && Sound(q, Cal(c.floor, Insert(c.slots, at)))
  {
  }

  // ---- The calendar

  class SlotCalendar {
    const quota: Quota
    var floor: Option<int>
    var slots: seq<int>

    function View(): Cal
      reads this
    {
      Cal(floor, slots)
    }

    ghost predicate Valid()
      reads this
    {
      Sound(quota, View())
    }

    constructor (quota: Quota)
      ensures Valid() && this.quota == quota && View() == Cal(None, [])
    {
      this.quota := quota;
      floor, slots := None, [];
    }

    /** Folds the bookings before `now` into the floor, one by one. */
    method FoldBefore(now: int)
      requires Valid()
      modifies this
      ensures Valid() && View() == Folded(quota, old(View()), now)
    {
      var before := Before(slots, now);
      for folded := 0 to before
        invariant slots == old(slots)
        invariant floor == After(quota, old(floor), slots[..folded])
      {
        assert slots[..folded + 1] == slots[..folded] + [slots[folded]];
        AfterSplit(quota, old(floor), slots[..folded], [slots[folded]]);
        floor := Some((if floor.None? then slots[folded] else Max(floor.value, slots[folded])) + quota.interval);
      }
      slots := slots[before..];
      FoldingChangesNoAnswer(quota, old(View()), now);
    }

    /** Books the earliest free instant at or after `now + from`, if it is within `maxDelay` of `now`. */
    method Acquire(now: int, from: nat, maxDelay: nat) returns (answer: Answer)
      requires Valid()
      modifies this
      ensures Valid()
      ensures RightAnswer(quota, old(View()), now, from, maxDelay, answer)
      ensures View() == Acquired(quota, old(View()), now, answer)
    {
      hide Spaced, AboveFloor, IsEarliest, Insert, Folded, After;
      FoldBefore(now);
      var at := Earliest(quota, View(), now + from);
      FoldedEarliest(quota, old(View()), now, now + from, at);
      EarliestFits(quota, View(), now + from, at);
      var delay := at - now;
      if delay > maxDelay {
        return Err(Denied(delay));
      }
      slots := Insert(slots, at);
      answer := Ok(Booking(delay, at));
    }

    method Cancel(booking: Booking)
      requires Valid()
      modifies this
      ensures Valid() && View() == Cancelled(old(View()), booking.at)
    {
      var index := Before(slots, booking.at);
      if index < |slots| && slots[index] == booking.at {
        ConformsWithout(quota, floor, slots, index);
        slots := slots[..index] + slots[index + 1..];
      }
    }

    method RetainRecent(now: int)
      requires Valid()
      modifies this
      ensures Valid() && View() == Folded(quota, old(View()), now)
    {
      FoldBefore(now);
    }
  }

  /**
   The earliest instant at or after `start` whose booking keeps the calendar
   conforming: one pass over the insertion positions with the largest lead
   before each and the smallest lead after it, in offsets from `origin`.
   */
  method Earliest(q: Quota, c: Cal, start: int) returns (at: int)
    requires Sound(q, c)
    ensures IsEarliest(q, c, start, at)
  {
    var slots, interval, tolerance := c.slots, q.interval, q.tolerance;
    var origin := start;
    if slots != [] {
      origin := Min(origin, slots[0]);
    }
    if c.floor.Some? {
      origin := Min(origin, c.floor.value);
    }
    var s := Leads(q, c, origin);
    var suffixMin: seq<Option<int>> := SuffixMin(q, c, s, origin);
    var first := UpTo(slots, start);
    var prefixMax := PrefixMax(q, c, s, origin, first);

    ScanStarts(q, c, start, origin, prefixMax);
    at := Scan(q, c, start, origin, s, suffixMin, prefixMax);
  }

  /** `s` and `suffixMin` are the leads, in offsets from `origin`, and their smallest from each position on. */
  ghost predicate Tables(q: Quota, c: Cal, origin: int, s: seq<int>, suffixMin: seq<Option<int>>) {
    && |s| == |c.slots| && |suffixMin| == |s| + 1
    && (forall k :: 0 <= k < |s| ==> s[k] == Lead(q, c.slots, k) - origin)
    && (forall k :: 0 <= k <= |s| ==> IsLowest(q, c, k, Shifted(suffixMin[k], origin)))
  }

  method Scan(q: Quota, c: Cal, start: int, origin: int, s: seq<int>, suffixMin: seq<Option<int>>, initial: Option<int>)
      returns (at: int)
    requires Sound(q, c) && Tables(q, c, origin, s, suffixMin)
    requires Scanning(q, c, start, UpTo(c.slots, start), origin, initial)
    ensures IsEarliest(q, c, start, at)
  {
    var p, prefixMax := UpTo(c.slots, start), initial;
    while true
      invariant Scanning(q, c, start, p, origin, prefixMax)
      decreases |s| - p
    {
      var found, lower, next := TryPosition(q, c, start, p, origin, s, suffixMin, prefixMax);
      if found {
        return origin + lower;
      }
      p, prefixMax := p + 1, next;
    }
  }

  /** Tests position `p`; when nothing fits there, `next` is the largest lead up to it. */
  method TryPosition(q: Quota, c: Cal, start: int, p: nat, origin: int, s: seq<int>, suffixMin: seq<Option<int>>,
                     prefixMax: Option<int>)
      returns (found: bool, lower: int, next: Option<int>)
    requires Sound(q, c) && Tables(q, c, origin, s, suffixMin) && Scanning(q, c, start, p, origin, prefixMax)
    ensures found ==> IsEarliest(q, c, start, origin + lower)
    ensures !found ==> p < |s| && Scanning(q, c, start, p + 1, origin, next)
  {
    var low := (if p == UpTo(c.slots, start) then start else c.slots[p - 1]) - origin;
    lower := LowerEnd(q, p, low, prefixMax);
    next := if p < |s| then Some(if prefixMax.None? then s[p] else Max(prefixMax.value, s[p])) else None;
    ScanStep(q, c, start, p, origin, prefixMax, suffixMin[p], lower, next);
    found := Passes(q, c, p, origin, prefixMax, suffixMin[p], lower);
  }

  function Shifted(m: Option<int>, origin: int): Option<int> {
    if m.None? then None else Some(m.value + origin)
  }

  function LowerEnd(q: Quota, p: nat, low: int, prefixMax: Option<int>): int {
    if prefixMax.None? then low else Max(low, prefixMax.value - q.tolerance + p * q.interval)
  }

  predicate Spans(q: Quota, prefixMax: Option<int>, suffixMin: Option<int>) {
    prefixMax.Some? && suffixMin.Some? ==> prefixMax.value - (suffixMin.value - q.interval) <= q.tolerance
  }

  predicate BelowUpperEnd(q: Quota, p: nat, lower: int, suffixMin: Option<int>) {
    suffixMin.Some? ==> lower <= suffixMin.value - q.interval + q.tolerance + p * q.interval
  }

  method Leads(q: Quota, c: Cal, origin: int) returns (s: seq<int>)
    ensures |s| == |c.slots| && forall k :: 0 <= k < |s| ==> s[k] == Lead(q, c.slots, k) - origin
  {
    s := seq(|c.slots|, k requires 0 <= k < |c.slots| => c.slots[k] - origin - k * q.interval);
  }

  lemma HighestExtended(q: Quota, c: Cal, p: nat, m: Option<int>)
    requires p < |c.slots| && IsHighest(q, c, p, m)
    ensures IsHighest(q, c, p + 1, Some(if m.None? then Lead(q, c.slots, p) else Max(m.value, Lead(q, c.slots, p))))
  {
    assert m.Some? && m.value <= Lead(q, c.slots, p) ==> Max(m.value, Lead(q, c.slots, p)) == Lead(q, c.slots, p);
  }

  method SuffixMin(q: Quota, c: Cal, s: seq<int>, origin: int) returns (mins: seq<Option<int>>)
    requires |s| == |c.slots| && forall k :: 0 <= k < |s| ==> s[k] == Lead(q, c.slots, k) - origin
    ensures |mins| == |s| + 1 && forall k :: 0 <= k <= |s| ==> IsLowest(q, c, k, Shifted(mins[k], origin))
  {
    mins := seq(|s| + 1, _ => None);
    var k := |s|;
    while k > 0
      invariant 0 <= k <= |s| && |mins| == |s| + 1
      invariant forall j :: k <= j <= |s| ==> IsLowest(q, c, j, Shifted(mins[j], origin))
    {
      k := k - 1;
      mins := mins[k := Some(if mins[k + 1].None? then s[k] else Min(mins[k + 1].value, s[k]))];
      assert Lead(q, c.slots, k) == s[k] + origin;
    }
  }

  method PrefixMax(q: Quota, c: Cal, s: seq<int>, origin: int, first: nat) returns (m: Option<int>)
    requires |s| == |c.slots| && first <= |s| && forall k :: 0 <= k < |s| ==> s[k] == Lead(q, c.slots, k) - origin
    ensures IsHighest(q, c, first, Shifted(m, origin))
  {
    m := if c.floor.None? then None else Some(c.floor.value - origin);
    for k := 0 to first
      invariant IsHighest(q, c, k, Shifted(m, origin))
    {
      assert Lead(q, c.slots, k) == s[k] + origin;
      m := Some(if m.None? then s[k] else Max(m.value, s[k]));
    }
  }

  /** The test at position `p`: an instant from `lower` on fits there. */
  predicate Passes(q: Quota, c: Cal, p: nat, origin: int, prefixMax: Option<int>, suffixMin: Option<int>, lower: int)
    requires p <= |c.slots|
  {
    && Spans(q, prefixMax, suffixMin)
    && (p < |c.slots| ==> lower < c.slots[p] - origin)
    && BelowUpperEnd(q, p, lower, suffixMin)
  }

  /** Nothing fits at the positions before `p`. */
  ghost predicate NoneBefore(q: Quota, c: Cal, start: int, p: nat)
    requires Ascending(c.slots)
  {
    forall x :: start <= x && UpTo(c.slots, x) < p ==> !Feasible(q, c, x)
  }

  /** The scan has reached position `p` and found nothing before it. */
  ghost predicate Scanning(q: Quota, c: Cal, start: int, p: nat, origin: int, prefixMax: Option<int>) {
    && Ascending(c.slots)
    && UpTo(c.slots, start) <= p <= |c.slots|
    && IsHighest(q, c, p, Shifted(prefixMax, origin))
    && NoneBefore(q, c, start, p)
  }

  predicate IsLowerEnd(q: Quota, c: Cal, start: int, p: nat, origin: int, prefixMax: Option<int>, lower: int)
    requires UpTo(c.slots, start) <= p <= |c.slots|
  {
    lower == LowerEnd(q, p, (if p == UpTo(c.slots, start) then start else c.slots[p - 1]) - origin, prefixMax)
  }

  lemma ScanStarts(q: Quota, c: Cal, start: int, origin: int, prefixMax: Option<int>)
    requires Ascending(c.slots) && IsHighest(q, c, UpTo(c.slots, start), Shifted(prefixMax, origin))
    ensures Scanning(q, c, start, UpTo(c.slots, start), origin, prefixMax)
  {
    forall x | start <= x
      ensures UpTo(c.slots, x) >= UpTo(c.slots, start)
    {
      PositionMonotone(c.slots, start, x);
    }
  }

  /** At position `p`, the instants from `lower` on may fit, and only if the test passes. */
  lemma PositionTest(q: Quota, c: Cal, start: int, p: nat, origin: int,
                     prefixMax: Option<int>, suffixMin: Option<int>, lower: int, x: int)
    requires Sound(q, c) && UpTo(c.slots, start) <= p <= |c.slots|
    requires IsHighest(q, c, p, Shifted(prefixMax, origin)) && IsLowest(q, c, p, Shifted(suffixMin, origin))
    requires IsLowerEnd(q, c, start, p, origin, prefixMax, lower)
    requires start <= x && UpTo(c.slots, x) == p
    ensures Feasible(q, c, x) ==> Passes(q, c, p, origin, prefixMax, suffixMin, lower) && x >= origin + lower
    ensures Passes(q, c, p, origin, prefixMax, suffixMin, lower) && x == origin + lower ==> Feasible(q, c, x)
  {
    FeasibleIffFits(q, c, x, Shifted(prefixMax, origin), Shifted(suffixMin, origin));
  }

  lemma PositionPasses(q: Quota, c: Cal, start: int, p: nat, origin: int,
                       prefixMax: Option<int>, suffixMin: Option<int>, lower: int)
    requires Sound(q, c) && Scanning(q, c, start, p, origin, prefixMax) && IsLowest(q, c, p, Shifted(suffixMin, origin))
    requires IsLowerEnd(q, c, start, p, origin, prefixMax, lower)
    requires Passes(q, c, p, origin, prefixMax, suffixMin, lower)
    ensures IsEarliest(q, c, start, origin + lower)
  {
    hide Conforms, IsHighest, IsLowest, Feasible;
    var at := origin + lower;
    PositionOf(c.slots, at, p);
    PositionTest(q, c, start, p, origin, prefixMax, suffixMin, lower, at);
    forall x | start <= x < at
      ensures !Feasible(q, c, x)
    {
      PositionMonotone(c.slots, x, at);
      if UpTo(c.slots, x) == p {
        PositionTest(q, c, start, p, origin, prefixMax, suffixMin, lower, x);
      }
    }
  }

  lemma PositionFails(q: Quota, c: Cal, start: int, p: nat, origin: int,
                      prefixMax: Option<int>, suffixMin: Option<int>, lower: int)
    requires Sound(q, c) && Scanning(q, c, start, p, origin, prefixMax) && IsLowest(q, c, p, Shifted(suffixMin, origin))
    requires IsLowerEnd(q, c, start, p, origin, prefixMax, lower)
    requires !Passes(q, c, p, origin, prefixMax, suffixMin, lower)
    ensures p < |c.slots| && NoneBefore(q, c, start, p + 1)
  {
    forall x | start <= x && UpTo(c.slots, x) < p + 1
      ensures !Feasible(q, c, x)
    {
      if UpTo(c.slots, x) == p {
        PositionTest(q, c, start, p, origin, prefixMax, suffixMin, lower, x);
      }
    }
  }

  /** One turn of the scan: it stops at the earliest instant, or goes on; at the last position it always stops. */
  lemma ScanStep(q: Quota, c: Cal, start: int, p: nat, origin: int,
                 prefixMax: Option<int>, suffixMin: Option<int>, lower: int, next: Option<int>)
    requires Sound(q, c) && Scanning(q, c, start, p, origin, prefixMax) && IsLowest(q, c, p, Shifted(suffixMin, origin))
    requires IsLowerEnd(q, c, start, p, origin, prefixMax, lower)
    requires p < |c.slots| ==>
               var lead := Lead(q, c.slots, p) - origin;
               next == Some(if prefixMax.None? then lead else Max(prefixMax.value, lead))
    ensures Passes(q, c, p, origin, prefixMax, suffixMin, lower) ==> IsEarliest(q, c, start, origin + lower)
    ensures p == |c.slots| ==> Passes(q, c, p, origin, prefixMax, suffixMin, lower)
    ensures !Passes(q, c, p, origin, prefixMax, suffixMin, lower) ==> Scanning(q, c, start, p + 1, origin, next)
  {
    if Passes(q, c, p, origin, prefixMax, suffixMin, lower) {
      PositionPasses(q, c, start, p, origin, prefixMax, suffixMin, lower);
    } else {
      PositionFails(q, c, start, p, origin, prefixMax, suffixMin, lower);
      HighestExtended(q, c, p, Shifted(prefixMax, origin));
    }
  }

  lemma PositionOf(ts: seq<int>, x: int, p: nat)
    requires Ascending(ts) && p <= |ts| && (p > 0 ==> ts[p - 1] <= x) && (p < |ts| ==> x < ts[p])
    ensures UpTo(ts, x) == p
  {
  }

  lemma PositionMonotone(ts: seq<int>, x: int, y: int)
    requires Ascending(ts) && x <= y
    ensures UpTo(ts, x) <= UpTo(ts, y)
  {
  }
}
