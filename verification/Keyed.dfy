/**
 `KeyedLimiter` of crates/tgin-runtime/src/limit.rs: one GCRA state per key,
 with stamped bookings that `cancel` undoes and a sweep that forgets idle keys.
 The 16 shards are one map here; stamps only have to be unique within it.
 */
module Keyed {
  import opened Wrappers
  import opened Gcra

  datatype Entry = Entry(tat: int, stamp: nat)

  datatype Admit = Admit(delay: nat, stamp: nat, prev: Option<Entry>)

  datatype Shard<!K(==)> = Shard(entries: map<K, Entry>, nextStamp: nat)

  function Lookup<K>(entries: map<K, Entry>, key: K): Option<Entry> {
    if key in entries then Some(entries[key]) else None
  }

  function Tat(e: Option<Entry>): Option<int> {
    if e.None? then None else Some(e.value.tat)
  }

  // ---- What each operation does to the shard

  function Answer<K>(q: Quota, s: Shard<K>, key: K, now: int, maxDelay: nat): Result<Admit, Denied> {
    var prev := Lookup(s.entries, key);
    match Book(q, Tat(prev), now, maxDelay)
    case Ok(b) => Ok(Admit(b.delay, s.nextStamp, prev))
    case Err(d) => Err(d)
  }

  function Acquired<K>(q: Quota, s: Shard<K>, key: K, now: int, maxDelay: nat): Shard<K> {
    match Book(q, Tat(Lookup(s.entries, key)), now, maxDelay)
    case Ok(b) => Shard(s.entries[key := Entry(b.tat, s.nextStamp)], s.nextStamp + 1)
    case Err(_) => s
  }

  function Cancelled<K>(s: Shard<K>, key: K, admit: Admit): Shard<K> {
    if key !in s.entries || s.entries[key].stamp != admit.stamp then s
    else if admit.prev.Some? then s.(entries := s.entries[key := admit.prev.value])
    else s.(entries := s.entries - {key})
  }

  function Swept<K>(s: Shard<K>, now: int): Shard<K> {
    s.(entries := map key | key in s.entries && s.entries[key].tat > now :: s.entries[key])
  }

  class KeyedLimiter<!K(==)> {
    const quota: Quota
    var entries: map<K, Entry>
    var nextStamp: nat

    function View(): Shard<K>
      reads this
    {
      Shard(entries, nextStamp)
    }

    constructor (quota: Quota)
      ensures this.quota == quota && View() == Shard(map[], 0)
    {
      this.quota := quota;
      entries, nextStamp := map[], 0;
    }

    /** Books one slot for `key` if it can start within `maxDelay` of `now`. */
    method Acquire(key: K, now: int, maxDelay: nat) returns (answer: Result<Admit, Denied>)
      modifies this
      ensures answer == Answer(quota, old(View()), key, now, maxDelay)
      ensures View() == Acquired(quota, old(View()), key, now, maxDelay)
      ensures forall k | k != key :: Lookup(entries, k) == Lookup(old(entries), k)
      ensures answer.Err? ==> View() == old(View()) && answer.error.retryAfter > maxDelay
      ensures answer.Ok? ==>
                && answer.value.delay <= maxDelay && answer.value.prev == Lookup(old(entries), key)
                && answer.value.stamp == old(nextStamp) < nextStamp
                && key in entries && entries[key].stamp == answer.value.stamp && now + answer.value.delay <= entries[key].tat
    {
      var stamp := nextStamp;
      if key in entries {
        var prev := entries[key];
        match Book(quota, Some(prev.tat), now, maxDelay) {
          case Err(denied) => return Err(denied);
          case Ok(booked) =>
            entries := entries[key := Entry(booked.tat, stamp)];
            answer := Ok(Admit(booked.delay, stamp, Some(prev)));
        }
      } else {
        match Book(quota, None, now, maxDelay) {
          case Err(denied) => return Err(denied);
          case Ok(booked) =>
            entries := entries[key := Entry(booked.tat, stamp)];
            answer := Ok(Admit(booked.delay, stamp, None));
        }
      }
      nextStamp := stamp + 1;
    }

    /** Undoes `admit` when no later booking for `key` is in effect; otherwise does nothing. */
    method Cancel(key: K, admit: Admit)
      modifies this
      ensures View() == Cancelled(old(View()), key, admit) && nextStamp == old(nextStamp)
      ensures forall k | k != key :: Lookup(entries, k) == Lookup(old(entries), k)
      ensures Lookup(entries, key) ==
              if key in old(entries) && old(entries)[key].stamp == admit.stamp then admit.prev else Lookup(old(entries), key)
    {
      if key !in entries || entries[key].stamp != admit.stamp {
        return;
      }
      match admit.prev {
        case Some(prev) => entries := entries[key := prev];
        case None => entries := entries - {key};
      }
    }

    /** Forgets the keys whose next slot is free at `now`. */
    method RetainRecent(now: int)
      modifies this
      ensures View() == Swept(old(View()), now) && nextStamp == old(nextStamp)
      ensures forall k | k in old(entries) && old(entries)[k].tat > now :: Lookup(entries, k) == Lookup(old(entries), k)
      ensures forall k | k in entries :: k in old(entries) && entries[k].tat > now
    {
      entries := map key | key in entries && entries[key].tat > now :: entries[key];
    }
  }

  // ---- Runs

  /** A booking is cancelled with the `Admit` its `acquire` returned; `stamp` names it. */
  datatype Op<!K(==)> =
    | Acquire(key: K, now: int, maxDelay: nat)
    | Cancel(stamp: nat)
    | Sweep(now: int)

  datatype Issued<!K(==)> = Issued(key: K, admit: Admit)

  /** A limiter with every admit it has issued, by stamp, and the latest sweep. */
  datatype Machine<!K(==)> = Machine(shard: Shard<K>, issued: map<nat, Issued<K>>, swept: Option<int>)

  function Fresh<K>(): Machine<K> {
    Machine(Shard(map[], 0), map[], None)
  }

  /** Time does not go back past a sweep, and only bookings that were made are cancelled. */
  predicate Legal<K>(m: Machine<K>, op: Op<K>) {
    match op
    case Acquire(_, now, _) => m.swept.Some? ==> m.swept.value <= now
    case Cancel(stamp) => stamp in m.issued
    case Sweep(_) => true
  }

  function Next<K>(q: Quota, m: Machine<K>, op: Op<K>): Machine<K>
    requires Legal(m, op)
  {
    match op
    case Acquire(key, now, maxDelay) =>
      var answer := Answer(q, m.shard, key, now, maxDelay);
      Machine(Acquired(q, m.shard, key, now, maxDelay),
              if answer.Ok? then m.issued[answer.value.stamp := Issued(key, answer.value)] else m.issued,
              m.swept)
    case Cancel(stamp) => m.(shard := Cancelled(m.shard, m.issued[stamp].key, m.issued[stamp].admit))
    case Sweep(now) =>
      m.(shard := Swept(m.shard, now), swept := Some(if m.swept.None? then now else Max(m.swept.value, now)))
  }

  predicate LegalRun<K>(q: Quota, m: Machine<K>, ops: seq<Op<K>>)
    decreases |ops|
  {
    ops != [] ==> Legal(m, ops[0]) && LegalRun(q, Next(q, m, ops[0]), ops[1..])
  }

  /** What the callers of `acquire` see. */
  function Answers<K>(q: Quota, m: Machine<K>, ops: seq<Op<K>>): seq<Result<nat, Denied>>
    requires LegalRun(q, m, ops)
    decreases |ops|
  {
    if ops == [] then []
    else
      var rest := Answers(q, Next(q, m, ops[0]), ops[1..]);
      if !ops[0].Acquire? then rest
      else
        match Answer(q, m.shard, ops[0].key, ops[0].now, ops[0].maxDelay)
        case Ok(admit) => [Ok(admit.delay)] + rest
        case Err(d) => [Err(d)] + rest
  }

  // ---- Forgetting idle keys changes no answer

  function WithoutSweeps<K>(ops: seq<Op<K>>): seq<Op<K>> {
    if ops == [] then []
    else if ops[0].Sweep? then WithoutSweeps(ops[1..])
    else [ops[0]] + WithoutSweeps(ops[1..])
  }

  /** `a` is `b`, or `b` was idle at the sweep that forgot it. */
  ghost predicate SameOrForgotten(a: Option<Entry>, b: Option<Entry>, swept: Option<int>) {
    a == b || (a.None? && b.Some? && swept.Some? && b.value.tat <= swept.value)
  }

  /** The swept machine `a` and the unswept one `b` will answer alike. */
  ghost predicate Alike<K(!new)>(a: Machine<K>, b: Machine<K>) {
    && b.swept.None?
    && a.shard.nextStamp == b.shard.nextStamp
    && a.issued.Keys == b.issued.Keys
    && (forall key :: SameOrForgotten(Lookup(a.shard.entries, key), Lookup(b.shard.entries, key), a.swept))
    && (forall stamp | stamp in a.issued ::
      && a.issued[stamp].key == b.issued[stamp].key
      && a.issued[stamp].admit.stamp == b.issued[stamp].admit.stamp
      && SameOrForgotten(a.issued[stamp].admit.prev, b.issued[stamp].admit.prev, a.swept))
  }

  /** Every entry was set by an issued booking, later than the entry that booking replaced. */
  ghost predicate Recorded<K>(m: Machine<K>) {
    && Stamped(m)
    && (forall key | key in m.shard.entries :: RecordedEntry(m, key, m.shard.entries[key]))
    && (forall stamp | stamp in m.issued && m.issued[stamp].admit.prev.Some? ::
      RecordedEntry(m, m.issued[stamp].key, m.issued[stamp].admit.prev.value))
  }

  ghost predicate RecordedEntry<K>(m: Machine<K>, key: K, e: Entry) {
    && e.stamp in m.issued
    && m.issued[e.stamp].key == key
    && var prev := m.issued[e.stamp].admit.prev; prev.Some? ==> prev.value.tat <= e.tat
  }

  lemma RecordedStamps<K>(m: Machine<K>)
    requires Recorded(m)
    ensures Stamped(m)
  {
  }

  lemma StepKeepsRecorded<K(!new)>(q: Quota, m: Machine<K>, op: Op<K>)
    requires Recorded(m) && Legal(m, op)
    ensures Recorded(Next(q, m, op))
  {
    var n := Next(q, m, op);
    assert forall key, e :: RecordedEntry(m, key, e) ==> RecordedEntry(n, key, e);
    if op.Acquire? && Answer(q, m.shard, op.key, op.now, op.maxDelay).Ok? {
      assert RecordedEntry(n, op.key, n.shard.entries[op.key]);
    }
  }

  lemma AcquireKeepsAlike<K(!new)>(q: Quota, a: Machine<K>, b: Machine<K>, op: Op<K>)
    requires Alike(a, b) && Stamped(a) && Stamped(b) && Legal(a, op) && op.Acquire?
    ensures Legal(b, op) && Alike(Next(q, a, op), Next(q, b, op))
    ensures var x, y := Answer(q, a.shard, op.key, op.now, op.maxDelay), Answer(q, b.shard, op.key, op.now, op.maxDelay);
            if x.Ok? then y.Ok? && x.value.delay == y.value.delay else x == y
  {
    var a', b', key := Next(q, a, op), Next(q, b, op), op.key;
    assert SameOrForgotten(Lookup(a.shard.entries, key), Lookup(b.shard.entries, key), a.swept);
    assert Book(q, Tat(Lookup(a.shard.entries, key)), op.now, op.maxDelay)
        == Book(q, Tat(Lookup(b.shard.entries, key)), op.now, op.maxDelay);
    hide Book, Tat;
    forall k
      ensures SameOrForgotten(Lookup(a'.shard.entries, k), Lookup(b'.shard.entries, k), a'.swept)
    {
      assert SameOrForgotten(Lookup(a.shard.entries, k), Lookup(b.shard.entries, k), a.swept);
    }
  }

  lemma CancelKeepsAlike<K(!new)>(q: Quota, a: Machine<K>, b: Machine<K>, stamp: nat)
    requires Alike(a, b) && Recorded(a) && Recorded(b) && Legal(a, Cancel(stamp))
    ensures Legal(b, Cancel(stamp)) && Alike(Next(q, a, Cancel(stamp)), Next(q, b, Cancel(stamp)))
  {
    var a', b' := Next(q, a, Cancel(stamp)), Next(q, b, Cancel(stamp));
    forall k
      ensures SameOrForgotten(Lookup(a'.shard.entries, k), Lookup(b'.shard.entries, k), a'.swept)
    {
      assert SameOrForgotten(Lookup(a.shard.entries, k), Lookup(b.shard.entries, k), a.swept);
      if k in b.shard.entries {
        assert RecordedEntry(b, k, b.shard.entries[k]);
      }
    }
  }

  lemma SweepKeepsAlike<K(!new)>(q: Quota, a: Machine<K>, b: Machine<K>, now: int)
    requires Alike(a, b)
    ensures Alike(Next(q, a, Sweep(now)), b)
  {
    var a' := Next(q, a, Sweep(now));
    forall k
      ensures SameOrForgotten(Lookup(a'.shard.entries, k), Lookup(b.shard.entries, k), a'.swept)
    {
      assert SameOrForgotten(Lookup(a.shard.entries, k), Lookup(b.shard.entries, k), a.swept);
    }
  }

  lemma {:induction false} AlikeAnswers<K(!new)>(q: Quota, a: Machine<K>, b: Machine<K>, ops: seq<Op<K>>)
    requires Alike(a, b) && Recorded(a) && Recorded(b) && LegalRun(q, a, ops)
    ensures LegalRun(q, b, WithoutSweeps(ops))
    ensures Answers(q, a, ops) == Answers(q, b, WithoutSweeps(ops))
    decreases |ops|
  {
    hide Alike, Recorded, Stamped, Next;
    if ops != [] {
      var op := ops[0];
      StepKeepsRecorded(q, a, op);
      if op.Sweep? {
        SweepKeepsAlike(q, a, b, op.now);
        AlikeAnswers(q, Next(q, a, op), b, ops[1..]);
      } else {
        if op.Acquire? {
          RecordedStamps(a);
          RecordedStamps(b);
          AcquireKeepsAlike(q, a, b, op);
        } else {
          CancelKeepsAlike(q, a, b, op.stamp);
        }
        StepKeepsRecorded(q, b, op);
        AlikeAnswers(q, Next(q, a, op), Next(q, b, op), ops[1..]);
        assert WithoutSweeps(ops)[1..] == WithoutSweeps(ops[1..]);
      }
    }
  }

  /** Every run answers as the same run without its sweeps does. */
  lemma SweepsChangeNoAnswer<K(!new)>(q: Quota, ops: seq<Op<K>>)
    requires LegalRun(q, Fresh<K>(), ops)
    ensures LegalRun(q, Fresh<K>(), WithoutSweeps(ops))
    ensures Answers(q, Fresh(), ops) == Answers(q, Fresh(), WithoutSweeps(ops))
  {
    AlikeAnswers(q, Fresh(), Fresh(), ops);
  }

  /** A sweep forgets exactly the keys that answer every later request as a fresh key would. */
  lemma SweepForgetsExactlyIdle<K>(q: Quota, s: Shard<K>, key: K, now: int)
    requires q.interval > 0 && key in s.entries
    ensures key !in Swept(s, now).entries <==>
            forall later, maxDelay: nat | later >= now :: Book(q, Some(s.entries[key].tat), later, maxDelay) == Book(q, None, later, maxDelay)
  {
    var tat := s.entries[key].tat;
    if tat > now {
      assert Book(q, Some(tat), now, 0) != Book(q, None, now, 0);
    }
  }

  /** How long the caller of `acquire` is told to wait, admitted or denied. */
  function Told(answer: Result<Admit, Denied>): nat {
    match answer
    case Ok(admit) => admit.delay
    case Err(d) => d.retryAfter
  }

  /**
   What callers are told is exact: a request that will not wait is admitted for
   that key from then on and not before; it is admitted with a wait exactly when
   the wait is within what the caller allows.
   */
  lemma ToldIsExact<K>(q: Quota, s: Shard<K>, key: K, now: int, maxDelay: nat, later: nat)
    ensures var answer := Answer(q, s, key, now, maxDelay);
            && (answer.Ok? <==> Told(answer) <= maxDelay)
            && (Answer(q, s, key, now + later, 0).Ok? <==> later >= Told(answer))
  {
    DeniedUntil(q, Tat(Lookup(s.entries, key)), now, maxDelay, later);
  }

  // ---- What is still charged

  /** A booking still charged: when its caller was told to start, and the entry it set over `prev`. */
  datatype Charge = Charge(start: int, entry: Entry, prev: Option<Entry>)

  /** Of one key: the charges a sweep forgot, and those in effect, each booked over the one before it. */
  datatype Account = Account(settled: seq<Charge>, chain: seq<Charge>) {
    function Charged(): seq<Charge> {
      settled + chain
    }

    function Top(): Option<Entry> {
      if chain == [] then None else Some(chain[|chain| - 1].entry)
    }
  }

  /** The account of `key` after `op` took `m` to its next state. */
  function NextAccount<K>(q: Quota, m: Machine<K>, op: Op<K>, key: K, a: Account): Account
    requires Legal(m, op)
  {
    match op
    case Acquire(k, now, maxDelay) =>
      var answer := Answer(q, m.shard, key, now, maxDelay);
      var entry := Lookup(Next(q, m, op).shard.entries, key);
      if k != key || answer.Err? || entry.None? then a
      else a.(chain := a.chain + [Charge(now + answer.value.delay, entry.value, answer.value.prev)])
    case Cancel(stamp) =>
      if m.issued[stamp].key == key && a.chain != [] && a.chain[|a.chain| - 1].entry.stamp == stamp
      then a.(chain := a.chain[..|a.chain| - 1])
      else a
    case Sweep(now) =>
      if a.chain != [] && a.chain[|a.chain| - 1].entry.tat <= now then Account(a.Charged(), []) else a
  }

  function AccountOf<K>(q: Quota, m: Machine<K>, ops: seq<Op<K>>, key: K, a: Account): Account
    requires LegalRun(q, m, ops)
    decreases |ops|
  {
    if ops == [] then a
    else AccountOf(q, Next(q, m, ops[0]), ops[1..], key, NextAccount(q, m, ops[0], key, a))
  }

  function RunTo<K>(q: Quota, m: Machine<K>, ops: seq<Op<K>>): Machine<K>
    requires LegalRun(q, m, ops)
    decreases |ops|
  {
    if ops == [] then m else RunTo(q, Next(q, m, ops[0]), ops[1..])
  }

  /** Consecutive charges keep the GCRA's schedule. */
  ghost predicate OnSchedule(q: Quota, cs: seq<Charge>) {
    && (forall i :: 0 <= i < |cs| ==> cs[i].start + q.interval <= cs[i].entry.tat)
    && (forall i :: 0 < i < |cs| ==>
      && cs[i - 1].entry.tat + q.interval <= cs[i].entry.tat
      && cs[i - 1].entry.tat - q.tolerance <= cs[i].start)
  }

  function Below(chain: seq<Charge>, i: nat): Option<Entry>
    requires i <= |chain|
  {
    if i == 0 then None else Some(chain[i - 1].entry)
  }

  ghost predicate IsIssued<K>(m: Machine<K>, key: K, c: Charge) {
    && c.entry.stamp in m.issued
    && m.issued[c.entry.stamp].key == key
    && m.issued[c.entry.stamp].admit.prev == c.prev
  }

  /** The key's entry is the top of the chain, and every link restores the one below it. */
  ghost predicate Linked<K>(m: Machine<K>, key: K, a: Account) {
    Lookup(m.shard.entries, key) == a.Top() && IsChain(a.chain) && AllIssued(m, key, a.chain) && Stamped(m)
  }

  ghost predicate IsChain(chain: seq<Charge>) {
    forall i :: 0 <= i < |chain| ==> chain[i].prev == Below(chain, i)
  }

  ghost predicate AllIssued<K>(m: Machine<K>, key: K, chain: seq<Charge>) {
    forall i :: 0 <= i < |chain| ==> IsIssued(m, key, chain[i])
  }

  /** Issued stamps are unique and below the next one. */
  ghost predicate Stamped<K>(m: Machine<K>) {
    forall stamp | stamp in m.issued :: stamp < m.shard.nextStamp && m.issued[stamp].admit.stamp == stamp
  }

  ghost predicate SettledBySweep(a: Account, swept: Option<int>) {
    a.settled != [] ==> swept.Some? && a.settled[|a.settled| - 1].entry.tat <= swept.value
  }

  ghost predicate Balanced<K>(q: Quota, m: Machine<K>, key: K, a: Account) {
    Linked(m, key, a) && OnSchedule(q, a.Charged()) && SettledBySweep(a, m.swept)
  }

  lemma AcquireKeepsBalanced<K(!new)>(q: Quota, m: Machine<K>, op: Op<K>, key: K, a: Account)
    requires Balanced(q, m, key, a) && Legal(m, op) && op.Acquire?
    ensures Balanced(q, Next(q, m, op), key, NextAccount(q, m, op, key, a))
  {
    hide OnSchedule, Linked;
    AcquireKeepsLinked(q, m, op, key, a);
    AcquireKeepsSchedule(q, m, op, key, a);
  }

  lemma AcquireKeepsLinked<K(!new)>(q: Quota, m: Machine<K>, op: Op<K>, key: K, a: Account)
    requires Linked(m, key, a) && Legal(m, op) && op.Acquire?
    ensures Linked(Next(q, m, op), key, NextAccount(q, m, op, key, a))
  {
    hide IsChain, AllIssued, Book;
    var b := NextAccount(q, m, op, key, a);
    AcquireKeepsIssued(q, m, op, key, a.chain);
    if b != a {
      ChainExtends(a.chain, b.chain[|a.chain|]);
      IssuedExtends(Next(q, m, op), key, a.chain, b.chain[|a.chain|]);
    }
  }

  lemma AcquireKeepsIssued<K(!new)>(q: Quota, m: Machine<K>, op: Op<K>, key: K, chain: seq<Charge>)
    requires AllIssued(m, key, chain) && Stamped(m) && Legal(m, op) && op.Acquire?
    ensures AllIssued(Next(q, m, op), key, chain)
  {
    hide Book;
    assert forall i :: 0 <= i < |chain| ==> chain[i].entry.stamp < m.shard.nextStamp;
  }

  lemma ChainExtends(chain: seq<Charge>, c: Charge)
    requires IsChain(chain) && c.prev == Below(chain, |chain|)
    ensures IsChain(chain + [c])
  {
    var longer := chain + [c];
    forall i | 0 <= i < |longer|
      ensures longer[i].prev == Below(longer, i)
    {
      assert i < |chain| ==> chain[i].prev == Below(chain, i);
    }
  }

  lemma ChainShrinks(chain: seq<Charge>)
    requires IsChain(chain) && chain != []
    ensures IsChain(chain[..|chain| - 1]) && chain[|chain| - 1].prev == Below(chain, |chain| - 1)
  {
    assert forall i :: 0 <= i < |chain| ==> Below(chain[..|chain| - 1], i) == Below(chain, i);
  }

  lemma IssuedExtends<K>(m: Machine<K>, key: K, chain: seq<Charge>, c: Charge)
    requires AllIssued(m, key, chain) && IsIssued(m, key, c)
    ensures AllIssued(m, key, chain + [c])
  {
  }

  /** What a charge is: a start told, and the arrival time it leaves over the one before it. */
  lemma ChargeBooked<K(!new)>(q: Quota, m: Machine<K>, op: Op<K>, key: K, a: Account)
    requires Legal(m, op) && op.Acquire? && NextAccount(q, m, op, key, a) != a
    ensures var b, prev := NextAccount(q, m, op, key, a), Lookup(m.shard.entries, key);
            && |b.chain| == |a.chain| + 1 && b == a.(chain := a.chain + [b.chain[|a.chain|]])
            && var c := b.chain[|a.chain|];
               && c.start + q.interval <= c.entry.tat && op.now <= c.start
               && (prev.Some? ==> prev.value.tat + q.interval <= c.entry.tat && prev.value.tat - q.tolerance <= c.start)
  {
  }

  lemma AcquireKeepsSchedule<K(!new)>(q: Quota, m: Machine<K>, op: Op<K>, key: K, a: Account)
    requires Balanced(q, m, key, a) && Legal(m, op) && op.Acquire?
    ensures OnSchedule(q, NextAccount(q, m, op, key, a).Charged())
  {
    var b, cs := NextAccount(q, m, op, key, a), a.Charged();
    if b != a {
      var c := b.chain[|a.chain|];
      ChargeBooked(q, m, op, key, a);
      hide Book, Next, NextAccount, IsChain, AllIssued, Stamped, OnSchedule;
      assert Lookup(m.shard.entries, key) == a.Top();
      assert cs != [] ==> cs[|cs| - 1] == if a.chain == [] then a.settled[|a.settled| - 1] else a.chain[|a.chain| - 1];
      ScheduleExtends(q, cs, c);
      assert b.Charged() == cs + [c];
    }
  }

  lemma ScheduleExtends(q: Quota, cs: seq<Charge>, c: Charge)
    requires OnSchedule(q, cs) && c.start + q.interval <= c.entry.tat
    requires cs != [] ==>
               var top := cs[|cs| - 1].entry.tat; top + q.interval <= c.entry.tat && top - q.tolerance <= c.start
    ensures OnSchedule(q, cs + [c])
  {
  }

  lemma CancelKeepsBalanced<K(!new)>(q: Quota, m: Machine<K>, stamp: nat, key: K, a: Account)
    requires Balanced(q, m, key, a) && Legal(m, Cancel(stamp))
    ensures Balanced(q, Next(q, m, Cancel(stamp)), key, NextAccount(q, m, Cancel(stamp), key, a))
  {
    hide Linked, OnSchedule;
    CancelKeepsLinked(q, m, stamp, key, a);
    var b := NextAccount(q, m, Cancel(stamp), key, a);
    if b != a {
      assert b.Charged() == a.Charged()[..|a.Charged()| - 1];
      ScheduleShrinks(q, a.Charged());
    }
  }

  lemma CancelKeepsLinked<K(!new)>(q: Quota, m: Machine<K>, stamp: nat, key: K, a: Account)
    requires Linked(m, key, a) && Legal(m, Cancel(stamp))
    ensures Linked(Next(q, m, Cancel(stamp)), key, NextAccount(q, m, Cancel(stamp), key, a))
  {
    hide IsChain;
    var b := NextAccount(q, m, Cancel(stamp), key, a);
    if b != a {
      ChainShrinks(a.chain);
      assert IsIssued(m, key, a.chain[|a.chain| - 1]);
    }
    assert AllIssued(Next(q, m, Cancel(stamp)), key, a.chain);
  }

  lemma ScheduleShrinks(q: Quota, cs: seq<Charge>)
    requires OnSchedule(q, cs) && cs != []
    ensures OnSchedule(q, cs[..|cs| - 1])
  {
  }

  lemma EmptyChain()
    ensures IsChain([])
  {
  }

  lemma SweepKeepsBalanced<K(!new)>(q: Quota, m: Machine<K>, now: int, key: K, a: Account)
    requires Balanced(q, m, key, a)
    ensures Balanced(q, Next(q, m, Sweep(now)), key, NextAccount(q, m, Sweep(now), key, a))
  {
    hide OnSchedule, IsChain;
    var b := NextAccount(q, m, Sweep(now), key, a);
    assert b.Charged() == a.Charged();
    assert IsChain([]) && AllIssued(Next(q, m, Sweep(now)), key, a.chain) by { EmptyChain(); }
  }

  lemma {:induction false} RunKeepsBalanced<K(!new)>(q: Quota, m: Machine<K>, ops: seq<Op<K>>, key: K, a: Account)
    requires Balanced(q, m, key, a) && LegalRun(q, m, ops)
    ensures Balanced(q, RunTo(q, m, ops), key, AccountOf(q, m, ops, key, a))
    decreases |ops|
  {
    hide Balanced, NextAccount, Next;
    if ops != [] {
      match ops[0] {
        case Acquire(_, _, _) => AcquireKeepsBalanced(q, m, ops[0], key, a);
        case Cancel(stamp) => CancelKeepsBalanced(q, m, stamp, key, a);
        case Sweep(now) => SweepKeepsBalanced(q, m, now, key, a);
      }
      RunKeepsBalanced(q, Next(q, m, ops[0]), ops[1..], key, NextAccount(q, m, ops[0], key, a));
    }
  }

  /**
   In every run, cancelling a booking of `key` puts back exactly the entry it
   replaced when it is the latest still in effect, and otherwise does nothing.
   */
  lemma CancelIsExact<K(!new)>(q: Quota, ops: seq<Op<K>>, key: K, stamp: nat)
    requires LegalRun(q, Fresh<K>(), ops)
    requires var m := RunTo(q, Fresh<K>(), ops); stamp in m.issued && m.issued[stamp].key == key
    ensures var m, a := RunTo(q, Fresh<K>(), ops), AccountOf(q, Fresh(), ops, key, Account([], []));
            var s := Cancelled(m.shard, key, m.issued[stamp].admit);
            if a.chain != [] && a.chain[|a.chain| - 1].entry.stamp == stamp then
              && Lookup(s.entries, key) == a.chain[|a.chain| - 1].prev == Below(a.chain, |a.chain| - 1)
              && (forall k :: k != key ==> Lookup(s.entries, k) == Lookup(m.shard.entries, k))
            else s == m.shard
  {
    hide OnSchedule, RunTo, AccountOf;
    FreshBalanced(q, key);
    RunKeepsBalanced(q, Fresh(), ops, key, Account([], []));
    var m, a := RunTo(q, Fresh<K>(), ops), AccountOf(q, Fresh(), ops, key, Account([], []));
    if a.chain != [] {
      assert IsIssued(m, key, a.chain[|a.chain| - 1]);
    }
  }

  lemma {:induction false} ScheduleDistance(q: Quota, burst: nat, cs: seq<Charge>, i: nat, j: nat)
    requires Rated(q, burst) && OnSchedule(q, cs) && i < j < |cs|
    ensures cs[j].entry.tat >= cs[i].entry.tat + (j - i) * q.interval
    ensures cs[j].start - cs[i].start >= Gap(q, burst, j - i)
    decreases j - i
  {
    if i + 1 < j {
      ScheduleDistance(q, burst, cs, i, j - 1);
    }
    assert (j - i) * q.interval == (j - 1 - i) * q.interval + q.interval;
    assert (j - i + 1 - burst) * q.interval == (j - i) * q.interval - q.interval * (burst - 1);
  }

  function Starts(cs: seq<Charge>): (starts: seq<int>)
    ensures |starts| == |cs| && forall i :: 0 <= i < |cs| ==> starts[i] == cs[i].start
  {
    seq(|cs|, i requires 0 <= i < |cs| => cs[i].start)
  }

  /** In every run, the starts of a key still charged obey the quota in every window. */
  lemma ChargedStartsObeyQuota<K(!new)>(q: Quota, burst: nat, ops: seq<Op<K>>, key: K, lo: int, w: nat)
    requires Rated(q, burst) && LegalRun(q, Fresh<K>(), ops)
    ensures var starts := Starts(AccountOf(q, Fresh(), ops, key, Account([], [])).Charged());
            Distant(q, burst, starts) && CountWithin(starts, lo, lo + w) <= burst + w / q.interval
  {
    hide Linked, RunTo, AccountOf;
    var cs := AccountOf(q, Fresh(), ops, key, Account([], [])).Charged();
    FreshBalanced(q, key);
    RunKeepsBalanced(q, Fresh(), ops, key, Account([], []));
    forall i, j | 0 <= i < j < |cs|
      ensures Starts(cs)[j] - Starts(cs)[i] >= Gap(q, burst, j - i)
    {
      ScheduleDistance(q, burst, cs, i, j);
    }
    WindowHolds(q, burst, Starts(cs), lo, w);
  }

  lemma FreshBalanced<K(!new)>(q: Quota, key: K)
    ensures Balanced(q, Fresh<K>(), key, Account([], []))
  {
  }
}
