/**
 The quota of crates/tgin-runtime/src/limit.rs: one GCRA step on a theoretical
 arrival time (TAT), and the pairwise condition on sorted starts that describes
 the same quota without any state. Time is in whole nanoseconds.
 */
module Gcra {
  import opened Wrappers

  datatype QuotaError = ZeroPeriod

  /** `interval` is T, `tolerance` is how far ahead of schedule a start may be. */
  datatype Quota = Quota(interval: nat, tolerance: nat)

  datatype Booked = Booked(tat: int, delay: nat)

  datatype Denied = Denied(retryAfter: nat)

  // ---- The quota

  /** `per / count` rounded up: the least interval that never raises the rate. */
  function Interval(count: nat, per: nat): (r: Result<nat, QuotaError>)
    requires count > 0
    ensures r.Err? <==> per == 0
    ensures r.Ok? ==> r.value > 0 && (r.value - 1) * count < per <= r.value * count
  {
    if per == 0 then Err(ZeroPeriod)
    else
      var floor := per / count;
      assert floor * count + per % count == per;
      if floor * count == per then Ok(floor) else Ok(floor + 1)
  }

  function NewQuota(count: nat, per: nat, burst: nat): (r: Result<Quota, QuotaError>)
    requires count > 0 && burst > 0
    ensures r.Err? <==> per == 0
    ensures r.Ok? ==> Rated(r.value, burst) && (r.value.interval - 1) * count < per <= r.value.interval * count
  {
    match Interval(count, per)
    case Err(e) => Err(e)
    case Ok(interval) => Ok(Quota(interval, interval * (burst - 1)))
  }

  /** `q` lets `burst` requests start at once. */
  ghost predicate Rated(q: Quota, burst: nat) {
    burst > 0 && q.interval > 0 && q.tolerance == q.interval * (burst - 1)
  }

  /** One GCRA step for a key whose TAT is `stored`: the new TAT and the delay, or the denial. */
  function Book(q: Quota, stored: Option<int>, now: int, maxDelay: nat): Result<Booked, Denied> {
    var tat := if stored.None? then now else Max(stored.value, now);
    var wait := Max(0, tat - now - q.tolerance);
    if wait > maxDelay then Err(Denied(wait)) else Ok(Booked(tat + q.interval, wait))
  }

  /** How long the caller is told to wait, admitted or denied. */
  function Wait(r: Result<Booked, Denied>): nat {
    match r
    case Ok(b) => b.delay
    case Err(d) => d.retryAfter
  }

  /**
   The wait is exact, as a delay and as a denial's `retry_after`: a request that
   will not wait is admitted from then on and not before. It is admitted with the
   wait exactly when the caller allows it.
   */
  lemma DeniedUntil(q: Quota, stored: Option<int>, now: int, maxDelay: nat, later: nat)
    ensures var r := Book(q, stored, now, maxDelay);
            && (r.Ok? <==> Wait(r) <= maxDelay)
            && (Book(q, stored, now + later, 0).Ok? <==> later >= Wait(r))
  {
  }

  // ---- Conforming schedules

  predicate Ascending(ts: seq<int>) {
    forall i, j :: 0 <= i < j < |ts| ==> ts[i] <= ts[j]
  }

  /** `t_k - k * T`: the start `k` measured against the steady rate. */
  function Lead(q: Quota, ts: seq<int>, k: nat): int
    requires k < |ts|
  {
    ts[k] - k * q.interval
  }

  ghost predicate Spaced(q: Quota, ts: seq<int>) {
    forall i, j :: 0 <= i < j < |ts| ==> Lead(q, ts, i) - Lead(q, ts, j) <= q.tolerance
  }

  /** Every start keeps its distance to the TAT `floor` that earlier starts left behind. */
  ghost predicate AboveFloor(q: Quota, floor: Option<int>, ts: seq<int>) {
    floor.Some? ==> forall j :: 0 <= j < |ts| ==> floor.value - Lead(q, ts, j) <= q.tolerance
  }

  ghost predicate Conforms(q: Quota, floor: Option<int>, ts: seq<int>) {
    Ascending(ts) && Spaced(q, ts) && AboveFloor(q, floor, ts)
  }

  /** The TAT after one more start at `t`. */
  function Advance(q: Quota, floor: Option<int>, t: int): int {
    (if floor.None? then t else Max(floor.value, t)) + q.interval
  }

  /** The TAT after the starts `ts`, in order. */
  function After(q: Quota, floor: Option<int>, ts: seq<int>): Option<int>
    decreases |ts|
  {
    if ts == [] then floor else After(q, Some(Advance(q, floor, ts[0])), ts[1..])
  }

  /** The GCRA with TAT `floor` lets every start of `ts` go at once, in order. */
  predicate Admits(q: Quota, floor: Option<int>, ts: seq<int>)
    decreases |ts|
  {
    ts == [] ||
    var b := Book(q, floor, ts[0], 0);
    b.Ok? && Admits(q, Some(b.value.tat), ts[1..])
  }

  /** Conformance, one start at a time. */
  lemma ConformsFirst(q: Quota, floor: Option<int>, ts: seq<int>)
    requires ts != [] && Ascending(ts)
    ensures Conforms(q, floor, ts) <==>
            (floor.Some? ==> floor.value - ts[0] <= q.tolerance) &&
            Conforms(q, Some(Advance(q, floor, ts[0])), ts[1..])
  {
    var rest := ts[1..];
    assert Lead(q, ts, 0) == ts[0];
    forall k | 0 <= k < |rest|
      ensures Lead(q, rest, k) == Lead(q, ts, k + 1) + q.interval
    {
      assert (k + 1) * q.interval == k * q.interval + q.interval;
    }
    if Conforms(q, Some(Advance(q, floor, ts[0])), rest) && (floor.Some? ==> floor.value - ts[0] <= q.tolerance) {
      forall i, j | 0 <= i < j < |ts|
        ensures Lead(q, ts, i) - Lead(q, ts, j) <= q.tolerance
      {
        assert Lead(q, rest, j - 1) == Lead(q, ts, j) + q.interval;
        if i > 0 {
          assert Lead(q, rest, i - 1) == Lead(q, ts, i) + q.interval;
        }
      }
      forall j | floor.Some? && 0 <= j < |ts|
        ensures floor.value - Lead(q, ts, j) <= q.tolerance
      {
        if j > 0 {
          assert Lead(q, rest, j - 1) == Lead(q, ts, j) + q.interval;
        }
      }
    }
  }

  /** The calendar's pairwise condition admits exactly the schedules the GCRA admits. */
  lemma {:induction false} ConformsIffAdmitted(q: Quota, floor: Option<int>, ts: seq<int>)
    requires Ascending(ts)
    ensures Conforms(q, floor, ts) <==> Admits(q, floor, ts)
    decreases |ts|
  {
    if ts != [] {
      ConformsFirst(q, floor, ts);
      ConformsIffAdmitted(q, Some(Advance(q, floor, ts[0])), ts[1..]);
    }
  }

  /** A prefix matters to the rest only through the TAT it leaves. */
  lemma {:induction false} ConformsSplit(q: Quota, floor: Option<int>, a: seq<int>, b: seq<int>)
    requires Ascending(a + b)
    ensures Conforms(q, floor, a + b) <==>
            Conforms(q, floor, a) && Conforms(q, After(q, floor, a), b)
    decreases |a|
  {
    assert Ascending(a) by {
      forall i, j | 0 <= i < j < |a| ensures a[i] <= a[j] {
        assert (a + b)[i] <= (a + b)[j];
      }
    }
    if a == [] {
      assert a + b == b;
    } else {
      assert (a + b)[0] == a[0] && (a + b)[1..] == a[1..] + b;
      ConformsFirst(q, floor, a + b);
      ConformsFirst(q, floor, a);
      ConformsSplit(q, Some(Advance(q, floor, a[0])), a[1..], b);
    }
  }

  lemma {:induction false} AfterSplit(q: Quota, floor: Option<int>, a: seq<int>, b: seq<int>)
    ensures After(q, floor, a + b) == After(q, After(q, floor, a), b)
    decreases |a|
  {
    if a == [] {
      assert a + b == b;
    } else {
      assert (a + b)[0] == a[0] && (a + b)[1..] == a[1..] + b;
      AfterSplit(q, Some(Advance(q, floor, a[0])), a[1..], b);
    }
  }

  /** Where start `k` of the rest stood before start `p` was dropped. */
  function Origin(p: nat, k: nat): nat {
    if k < p then k else k + 1
  }

  /** Dropping start `p` moves the later ones up by one interval. */
  lemma LeadWithout(q: Quota, ts: seq<int>, us: seq<int>, p: nat, k: nat)
    requires p < |ts| && us == ts[..p] + ts[p + 1..] && k < |us|
    ensures us[k] == ts[Origin(p, k)]
    ensures Lead(q, us, k) == Lead(q, ts, Origin(p, k)) + if k < p then 0 else q.interval
  {
    if k >= p {
      NextStep(k, q.interval);
    }
  }

  lemma NextStep(k: nat, interval: nat)
    ensures (k + 1) * interval == k * interval + interval
  {
  }

  /** Dropping a start frees capacity: the rest still conform. */
  lemma ConformsWithout(q: Quota, floor: Option<int>, ts: seq<int>, p: nat)
    requires p < |ts| && Conforms(q, floor, ts)
    ensures Conforms(q, floor, ts[..p] + ts[p + 1..])
  {
    hide Lead;
    var us := ts[..p] + ts[p + 1..];
    forall i, j | 0 <= i < j < |us|
      ensures us[i] <= us[j] && Lead(q, us, i) - Lead(q, us, j) <= q.tolerance
    {
      LeadWithout(q, ts, us, p, i);
      LeadWithout(q, ts, us, p, j);
    }
    forall j | floor.Some? && 0 <= j < |us|
      ensures floor.value - Lead(q, us, j) <= q.tolerance
    {
      LeadWithout(q, ts, us, p, j);
    }
  }

  /** With `burst` given: the distance the quota's documentation states. */
  lemma ConformingDistance(q: Quota, burst: nat, ts: seq<int>, i: nat, j: nat)
    requires Rated(q, burst) && Conforms(q, None, ts) && i < j < |ts|
    ensures ts[j] - ts[i] >= Gap(q, burst, j - i)
  {
    assert Lead(q, ts, i) - Lead(q, ts, j) <= q.tolerance;
    assert (j - i + 1 - burst) * q.interval == j * q.interval - i * q.interval - q.interval * (burst - 1);
  }

  // ---- Windows

  /** The least time from a start to the `n`-th one after it. */
  function Gap(q: Quota, burst: nat, n: nat): int {
    (n + 1 - burst) * q.interval
  }

  /** The documented distance between any two of `starts`, in booking order. */
  ghost predicate Distant(q: Quota, burst: nat, starts: seq<int>) {
    forall i, j :: 0 <= i < j < |starts| ==> starts[j] - starts[i] >= Gap(q, burst, j - i)
  }

  lemma DistantParts(q: Quota, burst: nat, starts: seq<int>)
    requires Distant(q, burst, starts) && starts != []
    ensures Distant(q, burst, starts[1..]) && Distant(q, burst, starts[..|starts| - 1])
  {
    hide Gap;
    forall i, j | 0 <= i < j < |starts| - 1
      ensures starts[1..][j] - starts[1..][i] >= Gap(q, burst, j - i)
    {
      assert starts[j + 1] - starts[i + 1] >= Gap(q, burst, (j + 1) - (i + 1));
    }
  }

  function CountWithin(starts: seq<int>, lo: int, hi: int): (n: nat)
    ensures n <= |starts|
  {
    if starts == [] then 0
    else (if lo <= starts[0] <= hi then 1 else 0) + CountWithin(starts[1..], lo, hi)
  }

  /** Any window of length `w` holds at most `burst + w / T` of the starts. */
  lemma {:induction false} WindowHolds(q: Quota, burst: nat, starts: seq<int>, lo: int, w: nat)
    requires Rated(q, burst) && Distant(q, burst, starts)
    ensures CountWithin(starts, lo, lo + w) <= burst + w / q.interval
    decreases |starts|
  {
    hide Distant, Rated, Gap;
    var n := |starts|;
    if n > 1 {
      DistantParts(q, burst, starts);
      if !(lo <= starts[0] <= lo + w) {
        WindowHolds(q, burst, starts[1..], lo, w);
      } else if !(lo <= starts[n - 1] <= lo + w) {
        CountSplit(starts[..n - 1], starts[n - 1], lo, lo + w);
        assert starts == starts[..n - 1] + [starts[n - 1]];
        WindowHolds(q, burst, starts[..n - 1], lo, w);
      } else {
        SpanBound(q, burst, starts, w);
      }
    } else {
      BurstIsPositive(q, burst, w);
    }
  }

  lemma BurstIsPositive(q: Quota, burst: nat, w: nat)
    requires Rated(q, burst)
    ensures q.interval > 0 && burst >= 1 && w / q.interval >= 0
  {
  }

  lemma SpanBound(q: Quota, burst: nat, starts: seq<int>, w: nat)
    requires Rated(q, burst) && Distant(q, burst, starts) && |starts| > 1 && starts[|starts| - 1] - starts[0] <= w
    ensures |starts| <= burst + w / q.interval
  {
    assert starts[|starts| - 1] - starts[0] >= Gap(q, burst, |starts| - 1);
    WindowBound(q, burst, |starts|, starts[|starts| - 1] - starts[0], w);
  }

  lemma {:induction false} CountSplit(starts: seq<int>, t: int, lo: int, hi: int)
    ensures CountWithin(starts + [t], lo, hi) == CountWithin(starts, lo, hi) + if lo <= t <= hi then 1 else 0
  {
    if starts != [] {
      assert (starts + [t])[1..] == starts[1..] + [t];
      CountSplit(starts[1..], t, lo, hi);
    } else {
      assert starts + [t] == [t];
    }
  }

  lemma WindowBound(q: Quota, burst: nat, n: nat, span: int, w: nat)
    requires Rated(q, burst) && span <= w && (n - burst) * q.interval <= span
    ensures n <= burst + w / q.interval
  {
    assert w < (w / q.interval + 1) * q.interval by {
      assert w == w / q.interval * q.interval + w % q.interval;
    }
    FewerMultiples(n - burst, w / q.interval + 1, q.interval);
  }

  lemma FewerMultiples(m: int, k: int, d: nat)
    requires m * d < k * d
    ensures m < k
  {
    assert (k - m) * d > 0;
  }
}
