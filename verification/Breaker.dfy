/**
 The lock-free circuit breaker of crates/tgin-runtime/src/breaker.rs: any
 number of threads whose loads, counts and compare-exchanges interleave.
 */
module Breaker {
  import opened Wrappers

  const WORD_SIZE := 0x1_0000_0000_0000_0000
  const MAX_WORD := WORD_SIZE - 1
  /** Largest `opened_at` the state word can hold. */
  const MAX_OFFSET := MAX_WORD / 4
  const COUNTER_SIZE := 0x1_0000_0000
  const SECOND := 1_000_000_000
  const OFFSET_SHIFT := 365 * 24 * 60 * 60 * SECOND

  const CLOSED := 0
  const OPEN := 1
  const HALF_OPEN := 2

  type Counter = n: nat | n < COUNTER_SIZE

  datatype Config = Config(failureThreshold: Counter, openFor: nat, base: int)

  // ---- The state word

  /** `(opened_at << 2) | state` in 64 bits: the bits shifted out are lost. */
  function Pack(state: nat, openedAt: nat): (word: nat)
    requires state < 4
    ensures word < WORD_SIZE
  {
    openedAt * 4 % WORD_SIZE + state
  }

  function StateOf(word: nat): nat {
    word % 4
  }

  function OpenedAt(word: nat): nat {
    word / 4
  }

  /** The state always survives packing; the instant survives exactly up to the cap. */
  lemma PackingIsExact(state: nat, openedAt: nat)
    requires state < 4
    ensures StateOf(Pack(state, openedAt)) == state
    ensures OpenedAt(Pack(state, openedAt)) == openedAt <==> openedAt <= MAX_OFFSET
  {
    if openedAt <= MAX_OFFSET {
      assert openedAt * 4 < WORD_SIZE;
    } else {
      assert openedAt * 4 % WORD_SIZE < WORD_SIZE;
    }
  }

  /** Nanoseconds from a year before `base` to `t`, capped. */
  function Offset(cfg: Config, t: int): (o: nat)
    ensures o <= MAX_OFFSET
  {
    Min(Max(0, t + OFFSET_SHIFT - cfg.base), MAX_OFFSET)
  }

  /** When a breaker opened at `openedAt` admits a probe. */
  function ReopensAt(cfg: Config, openedAt: nat): nat {
    Min(openedAt + Min(cfg.openFor, MAX_WORD), MAX_WORD)
  }

  /** `ready_in`: how long until `allow` may admit a call. */
  function ReadyIn(cfg: Config, word: nat, now: int): Option<nat> {
    if StateOf(word) == CLOSED then Some(0)
    else if StateOf(word) == OPEN then Some(Max(0, ReopensAt(cfg, OpenedAt(word)) - Offset(cfg, now)))
    else None
  }

  // ---- Threads and their steps

  type Tid = nat

  /** Between two atomic steps of `allow`, `on_failure` or `on_success`. */
  datatype Pc =
    | Idle
    | Probing(seen: nat, now: int)
    | Counting(seen: nat, now: int)
    | Opening(seen: nat, now: int)
    | Closing

  /** What the breaker went through: `now` is the instant the caller gave, `word` the word a probe replaced. */
  datatype Mark = Opened(at: nat, now: int) | Probed(word: nat, now: int) | ClosedAgain

  datatype Machine = Machine(word: nat, failures: nat, pcs: map<Tid, Pc>, log: seq<Mark>)

  datatype Action =
    | Allow(tid: Tid, now: int)
    | TakeProbe(tid: Tid)
    | Fail(tid: Tid, now: int)
    | Count(tid: Tid)
    | TryOpen(tid: Tid)
    | Succeed(tid: Tid)
    | StoreClosed(tid: Tid)

  function PcOf(m: Machine, i: Tid): Pc {
    if i in m.pcs then m.pcs[i] else Idle
  }

  predicate Enabled(m: Machine, a: Action) {
    match a
    case Allow(i, _) => PcOf(m, i).Idle?
    case TakeProbe(i) => PcOf(m, i).Probing?
    case Fail(i, _) => PcOf(m, i).Idle?
    case Count(i) => PcOf(m, i).Counting?
    case TryOpen(i) => PcOf(m, i).Opening?
    case Succeed(i) => PcOf(m, i).Idle?
    case StoreClosed(i) => PcOf(m, i).Closing?
  }

  function At(m: Machine, i: Tid, pc: Pc): Machine {
    m.(pcs := m.pcs[i := pc])
  }

  function Next(cfg: Config, m: Machine, a: Action): Machine
    requires Enabled(m, a)
  {
    match a
    case Allow(i, now) =>
      if StateOf(m.word) == OPEN && Offset(cfg, now) >= ReopensAt(cfg, OpenedAt(m.word)) then At(m, i, Probing(m.word, now))
      else m
    case TakeProbe(i) =>
      var pc := m.pcs[i];
      var after := At(m, i, Idle);
      if m.word == pc.seen then
        after.(word := Pack(HALF_OPEN, OpenedAt(pc.seen)), log := m.log + [Probed(m.word, pc.now)])
      else after
    case Fail(i, now) =>
      if StateOf(m.word) == HALF_OPEN then At(m, i, Opening(m.word, now))
      else if StateOf(m.word) == CLOSED then At(m, i, Counting(m.word, now))
      else m
    case Count(i) =>
      var pc := m.pcs[i];
      var failures := Min(m.failures + 1, COUNTER_SIZE - 1);
      At(m, i, if failures >= cfg.failureThreshold then Opening(pc.seen, pc.now) else Idle)
        .(failures := (m.failures + 1) % COUNTER_SIZE)
    case TryOpen(i) =>
      var pc := m.pcs[i];
      var after := At(m, i, Idle);
      if m.word == pc.seen then
        after.(word := Pack(OPEN, Offset(cfg, pc.now)), log := m.log + [Opened(Offset(cfg, pc.now), pc.now)])
      else after
    case Succeed(i) => At(m, i, Closing).(failures := 0)
    case StoreClosed(i) => At(m, i, Idle).(word := Pack(CLOSED, 0), log := m.log + [ClosedAgain])
  }

  const Fresh := Machine(Pack(CLOSED, 0), 0, map[], [])

  predicate LegalRun(cfg: Config, m: Machine, actions: seq<Action>)
    decreases |actions|
  {
    actions != [] ==> Enabled(m, actions[0]) && LegalRun(cfg, Next(cfg, m, actions[0]), actions[1..])
  }

  function RunTo(cfg: Config, m: Machine, actions: seq<Action>): Machine
    requires LegalRun(cfg, m, actions)
    decreases |actions|
  {
    if actions == [] then m else RunTo(cfg, Next(cfg, m, actions[0]), actions[1..])
  }

  // ---- What every interleaving keeps

  function Probes(log: seq<Mark>): nat {
    if log == [] then 0 else Probes(log[..|log| - 1]) + if log[|log| - 1].Probed? then 1 else 0
  }

  function Openings(log: seq<Mark>): nat {
    if log == [] then 0 else Openings(log[..|log| - 1]) + if log[|log| - 1].Opened? then 1 else 0
  }

  /** The word a probe replaced was open, and its time had come; an opening is dated as its caller dated it. */
  ghost predicate GoodProbe(cfg: Config, mark: Mark) {
    && (mark.Probed? ==> StateOf(mark.word) == OPEN && Offset(cfg, mark.now) >= ReopensAt(cfg, OpenedAt(mark.word)))
    && (mark.Opened? ==> mark.at == Offset(cfg, mark.now))
  }

  /** The last opening or closing tells the word; a probe since then leaves it half-open. */
  ghost predicate Told(m: Machine) {
    if m.log == [] then m.word == Pack(CLOSED, 0)
    else
      match m.log[|m.log| - 1]
      case Opened(at, _) => at <= MAX_OFFSET && m.word == Pack(OPEN, at)
      case Probed(word, _) => m.word == Pack(HALF_OPEN, OpenedAt(word))
      case ClosedAgain => m.word == Pack(CLOSED, 0)
  }

  /** A probe directly follows the opening whose word it replaced. */
  ghost predicate ProbesFollowOpenings(log: seq<Mark>) {
    forall k :: 0 <= k < |log| && log[k].Probed? ==>
      k > 0 && log[k - 1].Opened? && log[k].word == Pack(OPEN, log[k - 1].at) && OpenedAt(log[k].word) == log[k - 1].at
  }

  ghost predicate Inv(cfg: Config, m: Machine) {
    && Told(m)
    && ProbesFollowOpenings(m.log)
    && GoodProbes(cfg, m.log)
    && (forall i | i in m.pcs :: GoodPc(cfg, m.pcs[i]))
  }

  ghost predicate GoodProbes(cfg: Config, log: seq<Mark>) {
    forall k :: 0 <= k < |log| ==> GoodProbe(cfg, log[k])
  }

  /** What a thread loaded was right when it decided. */
  ghost predicate GoodPc(cfg: Config, pc: Pc) {
    match pc
    case Probing(seen, now) => StateOf(seen) == OPEN && Offset(cfg, now) >= ReopensAt(cfg, OpenedAt(seen))
    case Counting(seen, _) => StateOf(seen) == CLOSED
    case Opening(seen, _) => StateOf(seen) == CLOSED || StateOf(seen) == HALF_OPEN
    case _ => true
  }

  lemma LogGrows(cfg: Config, log: seq<Mark>, mark: Mark)
    requires ProbesFollowOpenings(log) && GoodProbes(cfg, log) && GoodProbe(cfg, mark)
    requires mark.Probed? ==> log != [] && log[|log| - 1].Opened? && mark.word == Pack(OPEN, log[|log| - 1].at) && OpenedAt(mark.word) == log[|log| - 1].at
    ensures ProbesFollowOpenings(log + [mark]) && GoodProbes(cfg, log + [mark])
  {
    hide Pack, StateOf, OpenedAt, Offset, ReopensAt, GoodProbe;
    var longer := log + [mark];
    forall k | 0 <= k < |longer| && longer[k].Probed?
      ensures k > 0 && longer[k - 1].Opened? && longer[k].word == Pack(OPEN, longer[k - 1].at) && OpenedAt(longer[k].word) == longer[k - 1].at
    {
      if k < |log| {
        assert longer[k] == log[k] && longer[k - 1] == log[k - 1];
      }
    }
  }

  lemma ToldState(m: Machine)
    requires Told(m) && StateOf(m.word) == OPEN
    ensures m.log != [] && m.log[|m.log| - 1].Opened? && m.word == Pack(OPEN, m.log[|m.log| - 1].at)
    ensures OpenedAt(m.word) == m.log[|m.log| - 1].at
  {
    PackingIsExact(CLOSED, 0);
    if m.log != [] {
      match m.log[|m.log| - 1]
      case Opened(at, _) => PackingIsExact(OPEN, at);
      case Probed(word, _) => PackingIsExact(HALF_OPEN, OpenedAt(word));
      case ClosedAgain =>
    }
  }

  lemma StepKeepsInv(cfg: Config, m: Machine, a: Action)
    requires Inv(cfg, m) && Enabled(m, a)
    ensures Inv(cfg, Next(cfg, m, a))
  {
    hide Pack, StateOf, OpenedAt, Offset, ReopensAt, ProbesFollowOpenings, GoodProbes;
    match a {
      case TakeProbe(i) =>
        assert GoodPc(cfg, m.pcs[i]);
        if m.word == m.pcs[i].seen {
          ToldState(m);
          LogGrows(cfg, m.log, Probed(m.word, m.pcs[i].now));
        }
      case TryOpen(i) => LogGrows(cfg, m.log, Opened(Offset(cfg, m.pcs[i].now), m.pcs[i].now));
      case StoreClosed(_) => LogGrows(cfg, m.log, ClosedAgain);
      case Count(i) => assert GoodPc(cfg, m.pcs[i]);
      case _ =>
    }
  }

  lemma {:induction false} RunKeepsInv(cfg: Config, m: Machine, actions: seq<Action>)
    requires Inv(cfg, m) && LegalRun(cfg, m, actions)
    ensures Inv(cfg, RunTo(cfg, m, actions))
    decreases |actions|
  {
    hide Inv, Next;
    if actions != [] {
      StepKeepsInv(cfg, m, actions[0]);
      RunKeepsInv(cfg, Next(cfg, m, actions[0]), actions[1..]);
    }
  }

  lemma {:induction false} ProbesCounted(log: seq<Mark>)
    requires ProbesFollowOpenings(log)
    ensures Probes(log) + (if log != [] && log[|log| - 1].Opened? then 1 else 0) <= Openings(log)
  {
    if log != [] {
      var rest := log[..|log| - 1];
      assert forall k :: 0 <= k < |rest| ==> rest[k] == log[k];
      ProbesCounted(rest);
    }
  }

  /**
   In every interleaving: probes never outnumber openings; each is granted on
   the open word it replaces and not before that word's `opened_at + open_for`;
   and between two probes lies an opening, so none is granted while half-open.
   */
  lemma OneProbePerOpening(cfg: Config, actions: seq<Action>)
    requires LegalRun(cfg, Fresh, actions)
    ensures var log := RunTo(cfg, Fresh, actions).log;
            && Probes(log) <= Openings(log)
            && GoodProbes(cfg, log)
            && (forall j, k :: 0 <= j < k < |log| && log[j].Probed? && log[k].Probed? ==> j < k - 1 && log[k - 1].Opened?)
  {
    hide RunTo, LegalRun;
    RunKeepsInv(cfg, Fresh, actions);
    ProbesCounted(RunTo(cfg, Fresh, actions).log);
  }

  /** A call is let through as a probe only when `ready_in` of the word it replaced had run out. */
  lemma ProbesWaitForReady(cfg: Config, actions: seq<Action>, k: nat)
    requires LegalRun(cfg, Fresh, actions)
    requires k < |RunTo(cfg, Fresh, actions).log| && RunTo(cfg, Fresh, actions).log[k].Probed?
    ensures var mark := RunTo(cfg, Fresh, actions).log[k]; ReadyIn(cfg, mark.word, mark.now) == Some(0)
  {
    hide RunTo, LegalRun;
    RunKeepsInv(cfg, Fresh, actions);
    assert GoodProbe(cfg, RunTo(cfg, Fresh, actions).log[k]);
  }

  // ---- In instants

  /** The clock may not have gone back more than a year behind `base`. */
  predicate NotTooEarly(cfg: Config, t: int) {
    cfg.base - 365 * 86_400_000_000_000 <= t
  }

  /** Nor a few centuries on: the state word has 62 bits for the nanoseconds. */
  predicate NotTooLate(cfg: Config, t: int) {
    t < cfg.base - 365 * 86_400_000_000_000 + 0x4000_0000_0000_0000
  }

  /** Every instant a thread carries, and every instant in the log, was given by a caller. */
  ghost predicate Dated(m: Machine, past: seq<Action>) {
    && (forall i | i in m.pcs :: DatedPc(i, m.pcs[i], past))
    && (forall k :: 0 <= k < |m.log| ==> DatedMark(m.log[k], past))
  }

  ghost predicate DatedPc(i: Tid, pc: Pc, past: seq<Action>) {
    match pc
    case Probing(_, now) => Allow(i, now) in past
    case Counting(_, now) => Fail(i, now) in past
    case Opening(_, now) => Fail(i, now) in past
    case _ => true
  }

  ghost predicate DatedMark(mark: Mark, past: seq<Action>) {
    match mark
    case Opened(_, now) => exists i :: Fail(i, now) in past
    case Probed(_, now) => exists i :: Allow(i, now) in past
    case ClosedAgain => true
  }

  lemma StepKeepsDated(cfg: Config, m: Machine, past: seq<Action>, a: Action)
    requires Dated(m, past) && Enabled(m, a)
    ensures Dated(Next(cfg, m, a), past + [a])
  {
    hide Offset, ReopensAt, Pack, StateOf, OpenedAt;
    var n := Next(cfg, m, a);
    assert forall b | b in past :: b in past + [a];
    assert a in past + [a];
    if a.tid in m.pcs {
      assert DatedPc(a.tid, m.pcs[a.tid], past);
    }
    forall k | 0 <= k < |n.log|
      ensures DatedMark(n.log[k], past + [a])
    {
      if k < |m.log| {
        assert n.log[k] == m.log[k] && DatedMark(m.log[k], past);
      }
    }
  }

  /** In every run, openings are dated by failures and probes by calls to `allow`. */
  lemma {:induction false} DatedByCallers(cfg: Config, m: Machine, past: seq<Action>, actions: seq<Action>)
    requires Dated(m, past) && LegalRun(cfg, m, actions)
    ensures Dated(RunTo(cfg, m, actions), past + actions)
    decreases |actions|
  {
    hide Dated, Next, Enabled;
    if actions == [] {
      assert past + actions == past;
    } else {
      StepKeepsDated(cfg, m, past, actions[0]);
      DatedByCallers(cfg, Next(cfg, m, actions[0]), past + [actions[0]], actions[1..]);
      assert past + [actions[0]] + actions[1..] == past + actions;
    }
  }

  /**
   In every interleaving a probe directly follows an opening and comes, by the
   instants their callers gave, at least `open_for` after the failure that opened,
   however large `open_for` is, unless the opening was too late or the probe too
   early to be dated.
   */
  lemma ProbeWaitsOpenFor(cfg: Config, actions: seq<Action>, k: nat)
    requires LegalRun(cfg, Fresh, actions)
    requires k < |RunTo(cfg, Fresh, actions).log| && RunTo(cfg, Fresh, actions).log[k].Probed?
    ensures var log := RunTo(cfg, Fresh, actions).log;
            && k > 0 && log[k - 1].Opened?
            && (NotTooLate(cfg, log[k - 1].now) && NotTooEarly(cfg, log[k].now) ==> log[k].now - log[k - 1].now >= cfg.openFor)
            && DatedMark(log[k - 1], actions) && DatedMark(log[k], actions)
  {
    hide RunTo, LegalRun, Pack, StateOf, OpenedAt;
    RunKeepsInv(cfg, Fresh, actions);
    var log := RunTo(cfg, Fresh, actions).log;
    assert GoodProbe(cfg, log[k]) && GoodProbe(cfg, log[k - 1]);
    DatedByCallers(cfg, Fresh, [], actions);
    assert [] + actions == actions;
    assert DatedMark(log[k], actions) && DatedMark(log[k - 1], actions);
  }

  /** The steps of `allow`, with nobody else moving: the machine after it, and whether the call may go. */
  function AllowAlone(cfg: Config, m: Machine, i: Tid, now: int): (Machine, bool)
    requires PcOf(m, i).Idle?
  {
    var loaded := Next(cfg, m, Allow(i, now));
    if PcOf(loaded, i).Probing? then
      var probed := Next(cfg, loaded, TakeProbe(i));
      (probed, probed.word != loaded.word)
    else (loaded, StateOf(m.word) == CLOSED)
  }

  /** The steps of `on_success`, with nobody else moving. */
  function SucceedAlone(cfg: Config, m: Machine, i: Tid): Machine
    requires PcOf(m, i).Idle?
  {
    Next(cfg, Next(cfg, m, Succeed(i)), StoreClosed(i))
  }

  /**
   What an undisturbed `allow` does after every run: a closed breaker lets the
   call go; one opened at `opened` lets it go as the probe if and only if
   `open_for` has passed, which `ready_in` counts down; a half-open one never.
   */
  lemma AllowsAfterOpenFor(cfg: Config, actions: seq<Action>, i: Tid, now: int)
    requires LegalRun(cfg, Fresh, actions) && PcOf(RunTo(cfg, Fresh, actions), i).Idle?
    requires NotTooEarly(cfg, now) && NotTooLate(cfg, now)
    ensures var m := RunTo(cfg, Fresh, actions);
            var (after, may) := AllowAlone(cfg, m, i, now);
            var log := m.log;
            if log == [] || log[|log| - 1].ClosedAgain? then
              may && after == m && ReadyIn(cfg, m.word, now) == Some(0)
            else if log[|log| - 1].Probed? then
              !may && after == m && ReadyIn(cfg, m.word, now).None?
            else
              var since := log[|log| - 1].now;
              NotTooEarly(cfg, since) && NotTooLate(cfg, since) ==>
                && (may <==> now - since >= cfg.openFor)
                && (cfg.openFor <= MAX_OFFSET ==> ReadyIn(cfg, m.word, now) == Some(Max(0, since + cfg.openFor - now)))
                && after.log == if may then log + [Probed(m.word, now)] else log
  {
    hide RunTo, LegalRun, Pack, StateOf, OpenedAt;
    StatesApart();
    RunKeepsInv(cfg, Fresh, actions);
    var m := RunTo(cfg, Fresh, actions);
    if m.log != [] {
      assert GoodProbe(cfg, m.log[|m.log| - 1]);
      if m.log[|m.log| - 1].Opened? {
        PackingIsExact(OPEN, m.log[|m.log| - 1].at);
      }
    }
  }

  /** An undisturbed success closes the breaker and forgets the failures; a failed probe opens it again from its own instant. */
  lemma SucceedsAndReopens(cfg: Config, m: Machine, i: Tid, now: int)
    requires PcOf(m, i).Idle?
    ensures StateOf(SucceedAlone(cfg, m, i).word) == CLOSED && SucceedAlone(cfg, m, i).failures == 0
    ensures StateOf(m.word) == HALF_OPEN ==>
              && FailAlone(cfg, m, i, now).word == Pack(OPEN, Offset(cfg, now))
              && FailAlone(cfg, m, i, now).log == m.log + [Opened(Offset(cfg, now), now)]
    ensures StateOf(m.word) == OPEN ==> FailAlone(cfg, m, i, now) == m
  {
    hide Offset, Pack, StateOf;
    StatesApart();
  }

  // ---- Consecutive failures

  predicate AllIdle(m: Machine) {
    forall i | i in m.pcs :: m.pcs[i].Idle?
  }

  predicate Begins(a: Action) {
    a.Allow? || a.Fail? || a.Succeed?
  }

  /** A call begins only when no other is between its steps. */
  predicate Unsplit(cfg: Config, m: Machine, actions: seq<Action>)
    requires LegalRun(cfg, m, actions)
    decreases |actions|
  {
    actions != [] ==> (Begins(actions[0]) ==> AllIdle(m)) && Unsplit(cfg, Next(cfg, m, actions[0]), actions[1..])
  }

  /** Failures since the last success, after `n` of them and then `a`. */
  function Tally1(n: nat, a: Action): nat {
    match a
    case Fail(_, _) => n + 1
    case Succeed(_) => 0
    case _ => n
  }

  /** Failures since the last success, after `n` of them and then `actions`. */
  function Tally(n: nat, actions: seq<Action>): nat
    decreases |actions|
  {
    if actions == [] then n else Tally(Tally1(n, actions[0]), actions[1..])
  }

  /** The steps of one failure, with nobody else moving. */
  function FailAlone(cfg: Config, m: Machine, i: Tid, now: int): Machine
    requires PcOf(m, i).Idle?
  {
    var loaded := Next(cfg, m, Fail(i, now));
    var counted := if PcOf(loaded, i).Counting? then Next(cfg, loaded, Count(i)) else loaded;
    if PcOf(counted, i).Opening? then Next(cfg, counted, TryOpen(i)) else counted
  }

  /** What the one thread between its steps knows, after `n` failures since the last success. */
  ghost predicate Knows(cfg: Config, m: Machine, pc: Pc, n: nat) {
    match pc
    case Idle => true
    case Probing(seen, _) => seen == m.word && StateOf(m.word) == OPEN
    case Counting(seen, _) => seen == m.word && StateOf(m.word) == CLOSED && n == m.failures + 1 && Below(cfg, m.failures)
    case Opening(seen, _) =>
      seen == m.word && StateOf(m.word) != OPEN && (StateOf(m.word) == CLOSED ==> n >= cfg.failureThreshold && n > 0)
    case Closing => n == 0 && m.failures == 0
  }

  /** Not enough failures to open. */
  predicate Below(cfg: Config, failures: nat) {
    failures == 0 || failures < cfg.failureThreshold
  }

  /** One thread at most is between its steps; when none is, a closed breaker has counted the failures since the last success. */
  ghost predicate Counted(cfg: Config, m: Machine, n: nat) {
    && (forall i, j | i in m.pcs && j in m.pcs && !m.pcs[i].Idle? && !m.pcs[j].Idle? :: i == j)
    && (forall i | i in m.pcs :: Knows(cfg, m, m.pcs[i], n))
    && (AllIdle(m) && StateOf(m.word) == CLOSED ==> m.failures == n && Below(cfg, n))
  }

  lemma StepKeepsCounted(cfg: Config, m: Machine, n: nat, a: Action)
    requires Counted(cfg, m, n) && Enabled(m, a) && (Begins(a) ==> AllIdle(m))
    ensures Counted(cfg, Next(cfg, m, a), Tally1(n, a))
  {
    hide Offset, ReopensAt, Pack, StateOf;
    StatesApart();
    var next := Next(cfg, m, a);
    assert forall j | j in m.pcs && j != a.tid :: m.pcs[j].Idle?;
    assert forall j | j in next.pcs && j != a.tid :: next.pcs[j].Idle?;
    if a.tid in m.pcs {
      assert Knows(cfg, m, m.pcs[a.tid], n);
    }
    if a.tid in next.pcs {
      assert AllIdle(next) <==> next.pcs[a.tid].Idle?;
      assert Knows(cfg, next, next.pcs[a.tid], Tally1(n, a));
    }
  }

  /** The states of the words a step writes. */
  lemma StatesApart()
    ensures forall at: nat :: StateOf(Pack(OPEN, at)) == OPEN && StateOf(Pack(HALF_OPEN, at)) == HALF_OPEN
    ensures StateOf(Pack(CLOSED, 0)) == CLOSED
  {
    forall at: nat
      ensures StateOf(Pack(OPEN, at)) == OPEN && StateOf(Pack(HALF_OPEN, at)) == HALF_OPEN
    {
      PackingIsExact(OPEN, at);
      PackingIsExact(HALF_OPEN, at);
    }
    PackingIsExact(CLOSED, 0);
  }

  lemma {:induction false} RunKeepsCounted(cfg: Config, m: Machine, n: nat, actions: seq<Action>)
    requires Counted(cfg, m, n) && LegalRun(cfg, m, actions) && Unsplit(cfg, m, actions)
    ensures Counted(cfg, RunTo(cfg, m, actions), Tally(n, actions))
    decreases |actions|
  {
    hide Counted, Next, Enabled;
    if actions != [] {
      StepKeepsCounted(cfg, m, n, actions[0]);
      RunKeepsCounted(cfg, Next(cfg, m, actions[0]), Tally1(n, actions[0]), actions[1..]);
    }
  }

  /**
   After every run in which no call's steps are split by another call, a failure
   opens a closed breaker if and only if it makes `failure_threshold` failures
   since the last success.
   */
  lemma OpensAtThreshold(cfg: Config, actions: seq<Action>, i: Tid, now: int)
    requires LegalRun(cfg, Fresh, actions) && Unsplit(cfg, Fresh, actions)
    requires AllIdle(RunTo(cfg, Fresh, actions)) && StateOf(RunTo(cfg, Fresh, actions).word) == CLOSED
    ensures var after := FailAlone(cfg, RunTo(cfg, Fresh, actions), i, now);
            && (StateOf(after.word) == OPEN <==> Tally(0, actions) + 1 >= cfg.failureThreshold)
            && (StateOf(after.word) != OPEN ==> after.word == RunTo(cfg, Fresh, actions).word)
            && (StateOf(after.word) == OPEN ==> after.log == RunTo(cfg, Fresh, actions).log + [Opened(Offset(cfg, now), now)])
  {
    hide Offset, ReopensAt, Pack, StateOf, LegalRun, RunTo, Unsplit;
    StatesApart();
    RunKeepsCounted(cfg, Fresh, 0, actions);
  }

  lemma RunHead(cfg: Config, m: Machine, a: Action, rest: seq<Action>)
    requires Enabled(m, a) && LegalRun(cfg, Next(cfg, m, a), rest)
    ensures LegalRun(cfg, m, [a] + rest) && RunTo(cfg, m, [a] + rest) == RunTo(cfg, Next(cfg, m, a), rest)
  {
    hide Enabled, Next;
    assert ([a] + rest)[1..] == rest;
  }

  /** A closed breaker that has counted `failures`, with one thread at `pc`. */
  ghost predicate ClosedAt(m: Machine, failures: nat, i: Tid, pc: Pc) {
    m.word == Pack(CLOSED, 0) && m.failures == failures && PcOf(m, i) == pc
  }

  /** A thread loads the closed word for its failure; then another call succeeds. */
  lemma SuccessBetween(cfg: Config, now: int) returns (m: Machine)
    ensures var actions := [Fail(0, now)] + ([Succeed(1)] + [StoreClosed(1)]);
            LegalRun(cfg, Fresh, actions) && RunTo(cfg, Fresh, actions) == m
    ensures ClosedAt(m, 0, 0, Counting(m.word, now)) && PcOf(m, 2).Idle?
  {
    StatesApart();
    var loaded := Next(cfg, Fresh, Fail(0, now));
    var reset := Next(cfg, loaded, Succeed(1));
    m := Next(cfg, reset, StoreClosed(1));
    RunHead(cfg, reset, StoreClosed(1), []);
    RunHead(cfg, loaded, Succeed(1), [StoreClosed(1)]);
    RunHead(cfg, Fresh, Fail(0, now), [Succeed(1)] + [StoreClosed(1)]);
  }

  /** The first thread counts, then a later failure runs to its end. */
  lemma LateCountOpens(cfg: Config, m: Machine, now: int)
    requires cfg.failureThreshold == 2 && ClosedAt(m, 0, 0, Counting(m.word, now)) && PcOf(m, 2).Idle?
    ensures var actions := [Count(0)] + ([Fail(2, now)] + ([Count(2)] + [TryOpen(2)]));
            LegalRun(cfg, m, actions) && StateOf(RunTo(cfg, m, actions).word) == OPEN
  {
    StatesApart();
    var late := Next(cfg, m, Count(0));
    var loaded := Next(cfg, late, Fail(2, now));
    var counted := Next(cfg, loaded, Count(2));
    RunHead(cfg, counted, TryOpen(2), []);
    RunHead(cfg, loaded, Count(2), [TryOpen(2)]);
    RunHead(cfg, late, Fail(2, now), [Count(2)] + [TryOpen(2)]);
    RunHead(cfg, m, Count(0), [Fail(2, now)] + ([Count(2)] + [TryOpen(2)]));
  }

  lemma {:induction false} RunInTwo(cfg: Config, m: Machine, first: seq<Action>, second: seq<Action>)
    requires LegalRun(cfg, m, first) && LegalRun(cfg, RunTo(cfg, m, first), second)
    ensures LegalRun(cfg, m, first + second) && RunTo(cfg, m, first + second) == RunTo(cfg, RunTo(cfg, m, first), second)
    decreases |first|
  {
    hide Enabled, Next;
    if first == [] {
      assert first + second == second;
    } else {
      RunInTwo(cfg, Next(cfg, m, first[0]), first[1..], second);
      assert (first + second)[1..] == first[1..] + second;
    }
  }

  lemma {:induction false} TallyInTwo(n: nat, first: seq<Action>, second: seq<Action>)
    ensures Tally(n, first + second) == Tally(Tally(n, first), second)
    decreases |first|
  {
    if first == [] {
      assert first + second == second;
    } else {
      TallyInTwo(Tally1(n, first[0]), first[1..], second);
      assert (first + second)[1..] == first[1..] + second;
    }
  }

  lemma TallyHead(n: nat, a: Action, rest: seq<Action>)
    ensures Tally(n, [a] + rest) == Tally(Tally1(n, a), rest)
  {
    assert ([a] + rest)[1..] == rest;
  }

  /**
   With calls split by others it is not so: at a threshold of two, a failure
   that loaded the word before a success and counts after it helps a single
   later failure to open the breaker.
   */
  lemma OpensDespiteSuccess(cfg: Config, now: int) returns (actions: seq<Action>)
    requires cfg.failureThreshold == 2
    ensures LegalRun(cfg, Fresh, actions) && StateOf(RunTo(cfg, Fresh, actions).word) == OPEN && Tally(0, actions) == 1
    ensures actions == [Fail(0, now), Succeed(1), StoreClosed(1), Count(0), Fail(2, now), Count(2), TryOpen(2)]
  {
    hide LegalRun, RunTo;
    var m := SuccessBetween(cfg, now);
    LateCountOpens(cfg, m, now);
    var first, second := [Fail(0, now)] + ([Succeed(1)] + [StoreClosed(1)]), [Count(0)] + ([Fail(2, now)] + ([Count(2)] + [TryOpen(2)]));
    RunInTwo(cfg, Fresh, first, second);
    TallyInTwo(0, first, second);
    TallyHead(0, Fail(0, now), [Succeed(1)] + [StoreClosed(1)]);
    TallyHead(1, Succeed(1), [StoreClosed(1)]);
    TallyHead(0, StoreClosed(1), []);
    TallyHead(0, Count(0), [Fail(2, now)] + ([Count(2)] + [TryOpen(2)]));
    TallyHead(0, Fail(2, now), [Count(2)] + [TryOpen(2)]);
    TallyHead(1, Count(2), [TryOpen(2)]);
    TallyHead(1, TryOpen(2), []);
    actions := first + second;
  }
}
