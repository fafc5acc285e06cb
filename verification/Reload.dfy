/**
 Hot reload: `Plan::build` and `commit` of crates/tgin-core/src/reload.rs with
 `Shared::retire` of crates/tgin-core/src/engine.rs. A reload and the end of a
 drain hold the engine's write lock, so each is one step.
 */
module Reload {
  import opened Wrappers

  datatype Mode = Pull | Push

  /** A consumer instance; `id` stands for its identity. */
  datatype Instance = Instance(id: nat, name: string, mode: Mode)

  datatype Consumer = Consumer(name: string, mode: Mode)

  datatype Config = Config(bots: seq<string>, consumers: seq<Consumer>)

  datatype Source = Source(id: nat, name: string)

  datatype EngineState = EngineState(
    generation: nat, targets: seq<Instance>, sources: seq<Option<Source>>, sourceNames: seq<string>)

  datatype BuildError = SourceIdsExhausted | BadRules

  datatype Plan = Plan(state: EngineState, started: seq<Instance>, revived: seq<Instance>, retiring: seq<Instance>)

  /** Most source ids there are: they are `u16`. */
  const MAX_SOURCES := 0x1_0000

  /** What config validation guarantees: no name is used twice. */
  ghost predicate ValidConfig(cfg: Config) {
    && (forall i, j :: 0 <= i < j < |cfg.bots| ==> cfg.bots[i] != cfg.bots[j])
    && (forall i, j :: 0 <= i < j < |cfg.consumers| ==> cfg.consumers[i].name != cfg.consumers[j].name)
  }

  // ---- Source ids

  /** `EngineState::source_named`. */
  function SourceNamed(sources: seq<Option<Source>>, name: string): (found: Option<Source>)
    ensures found.Some? ==> found in sources && found.value.name == name
    ensures found.None? ==> forall s | s in sources && s.Some? :: s.value.name != name
  {
    if sources == [] then None
    else if sources[0].Some? && sources[0].value.name == name then sources[0]
    else SourceNamed(sources[1..], name)
  }

  /** The bots' ids and the names of all ids given out so far. */
  datatype Ids = Ids(bots: seq<Source>, names: seq<string>)

  /** The ids of `bots`: kept by name, else the next one never used. */
  function Assign(bots: seq<string>, sources: seq<Option<Source>>, names: seq<string>): Result<Ids, BuildError> {
    if bots == [] then Ok(Ids([], names))
    else
      var last := bots[|bots| - 1];
      match Assign(bots[..|bots| - 1], sources, names)
      case Err(e) => Err(e)
      case Ok(ids) =>
        match SourceNamed(sources, last)
        case Some(kept) => Ok(ids.(bots := ids.bots + [Source(kept.id, last)]))
        case None =>
          if |ids.names| >= MAX_SOURCES then Err(SourceIdsExhausted)
          else Ok(Ids(ids.bots + [Source(|ids.names|, last)], ids.names + [last]))
  }

  /** The bots by id, `None` for ids no longer in use. */
  function Place(bots: seq<Source>, n: nat): (sources: seq<Option<Source>>)
    ensures |sources| == n
  {
    if bots == [] then seq(n, _ => None)
    else
      var rest := Place(bots[..|bots| - 1], n);
      var last := bots[|bots| - 1];
      if last.id < n then rest[last.id := Some(last)] else rest
  }

  // ---- Consumer instances

  function FindTarget(targets: seq<Instance>, name: string): (found: Option<Instance>)
    ensures found.Some? ==> found.value in targets && found.value.name == name
    ensures found.None? ==> forall t | t in targets :: t.name != name
  {
    if targets == [] then None
    else if targets[0].name == name then Some(targets[0])
    else FindTarget(targets[1..], name)
  }

  function FindDraining(retired: seq<Instance>, name: string, mode: Mode): (found: Option<Instance>)
    ensures found.Some? ==> found.value in retired && found.value.name == name && found.value.mode == mode
    ensures found.None? ==> forall t | t in retired :: !(t.name == name && t.mode == mode)
  {
    if retired == [] then None
    else if retired[0].name == name && retired[0].mode == mode then Some(retired[0])
    else FindDraining(retired[1..], name, mode)
  }

  datatype Chosen = Chosen(targets: seq<Instance>, started: seq<Instance>, revived: seq<Instance>, retiring: seq<Instance>)

  /** One consumer of the new config: keep its instance, else revive a draining one, else start one. */
  function ChooseOne(acc: Chosen, c: Consumer, was: seq<Instance>, retired: seq<Instance>, next: nat): Chosen {
    var previous := FindTarget(was, c.name);
    if previous.Some? && previous.value.mode == c.mode then acc.(targets := acc.targets + [previous.value])
    else
      var after := if previous.Some? then acc.(retiring := acc.retiring + [previous.value]) else acc;
      match FindDraining(retired, c.name, c.mode)
      case Some(slot) => after.(targets := acc.targets + [slot], revived := acc.revived + [slot])
      case None =>
        var slot := Instance(next + |acc.started|, c.name, c.mode);
        after.(targets := acc.targets + [slot], started := acc.started + [slot])
  }

  function Choose(cs: seq<Consumer>, was: seq<Instance>, retired: seq<Instance>, next: nat): Chosen {
    if cs == [] then Chosen([], [], [], [])
    else ChooseOne(Choose(cs[..|cs| - 1], was, retired, next), cs[|cs| - 1], was, retired, next)
  }

  predicate Configured(cs: seq<Consumer>, name: string) {
    exists c :: c in cs && c.name == name
  }

  /** The previous instances no consumer of the new config is named after, in order. */
  function Dropped(was: seq<Instance>, cs: seq<Consumer>): (gone: seq<Instance>)
    ensures forall t :: t in gone <==> t in was && !Configured(cs, t.name)
  {
    if was == [] then []
    else
      var last := was[|was| - 1];
      var rest := Dropped(was[..|was| - 1], cs);
      assert was == was[..|was| - 1] + [last];
      if Configured(cs, last.name) then rest else rest + [last]
  }

  /** `Plan::build`: the new state and the changes it needs. `rulesCompile` is the outcome of compiling the rules. */
  function PlanFor(cfg: Config, was: Option<EngineState>, retired: seq<Instance>, next: nat, rulesCompile: bool): Result<Plan, BuildError> {
    var targets := if was.None? then [] else was.value.targets;
    var sources := if was.None? then [] else was.value.sources;
    var names := if was.None? then [] else was.value.sourceNames;
    match Assign(cfg.bots, sources, names)
    case Err(e) => Err(e)
    case Ok(ids) =>
      if !rulesCompile then Err(BadRules)
      else
        var chosen := Choose(cfg.consumers, targets, retired, next);
        Ok(Plan(
          EngineState(if was.None? then 1 else was.value.generation + 1, chosen.targets, Place(ids.bots, |ids.names|), ids.names),
          chosen.started, chosen.revived, chosen.retiring + Dropped(targets, cfg.consumers)))
  }

  method AssignIds(all: seq<string>, sources: seq<Option<Source>>, names: seq<string>) returns (r: Result<Ids, BuildError>)
    ensures r == Assign(all, sources, names)
  {
    var bots: seq<Source>, grown := [], names;
    for i := 0 to |all|
      invariant Assign(all[..i], sources, names) == Ok(Ids(bots, grown))
    {
      AssignLast(all, i);
      match SourceNamed(sources, all[i]) {
        case Some(kept) => bots := bots + [Source(kept.id, all[i])];
        case None =>
          if |grown| >= MAX_SOURCES {
            AssignFails(all, i + 1, sources, names);
            return Err(SourceIdsExhausted);
          }
          bots, grown := bots + [Source(|grown|, all[i])], grown + [all[i]];
      }
    }
    assert all[..|all|] == all;
    r := Ok(Ids(bots, grown));
  }

  method PlaceBots(bots: seq<Source>, n: nat) returns (placed: seq<Option<Source>>)
    ensures placed == Place(bots, n)
  {
    placed := seq(n, _ => None);
    for i := 0 to |bots|
      invariant placed == Place(bots[..i], n)
    {
      assert bots[..i + 1][..i] == bots[..i];
      if bots[i].id < n {
        placed := placed[bots[i].id := Some(bots[i])];
      }
    }
    assert bots[..|bots|] == bots;
  }

  method ChooseInstances(cs: seq<Consumer>, was: seq<Instance>, retired: seq<Instance>, next: nat) returns (chosen: Chosen)
    ensures chosen == Choose(cs, was, retired, next)
  {
    hide ChooseOne;
    chosen := Chosen([], [], [], []);
    for i := 0 to |cs|
      invariant chosen == Choose(cs[..i], was, retired, next)
    {
      assert cs[..i + 1][..i] == cs[..i];
      chosen := ChooseOne(chosen, cs[i], was, retired, next);
    }
    assert cs[..|cs|] == cs;
  }

  method CollectRemoved(was: seq<Instance>, cs: seq<Consumer>) returns (gone: seq<Instance>)
    ensures gone == Dropped(was, cs)
  {
    gone := [];
    for i := 0 to |was|
      invariant gone == Dropped(was[..i], cs)
    {
      assert was[..i + 1][..i] == was[..i];
      if !Configured(cs, was[i].name) {
        gone := gone + [was[i]];
      }
    }
    assert was[..|was|] == was;
  }

  /** `Plan::build`, loop by loop. */
  method Build(cfg: Config, was: Option<EngineState>, retired: seq<Instance>, next: nat, rulesCompile: bool) returns (r: Result<Plan, BuildError>)
    ensures r == PlanFor(cfg, was, retired, next, rulesCompile)
    ensures r.Ok? ==>
              && rulesCompile && r.value.state.generation == 1 + (if was.None? then 0 else was.value.generation)
              && Serve(r.value.state.targets, cfg.consumers)
              && (was.Some? ==> was.value.sourceNames <= r.value.state.sourceNames)
    ensures r == Err(SourceIdsExhausted) <==> !FitIds(cfg.bots, was)
    ensures r == Err(BadRules) <==> FitIds(cfg.bots, was) && !rulesCompile
  {
    hide Assign, Choose, Place, Dropped, NewBots;
    var generation := if was.None? then 1 else was.value.generation + 1;
    var before := if was.None? then [] else was.value.targets;
    var given := AssignIds(cfg.bots, if was.None? then [] else was.value.sources, if was.None? then [] else was.value.sourceNames);
    NamesGrow(cfg.bots, if was.None? then [] else was.value.sources, if was.None? then [] else was.value.sourceNames);
    IdsExhausted(cfg.bots, if was.None? then [] else was.value.sources, if was.None? then [] else was.value.sourceNames);
    if given.Err? {
      return Err(given.error);
    }
    if !rulesCompile {
      return Err(BadRules);
    }
    var ids := given.value;
    var placed := PlaceBots(ids.bots, |ids.names|);
    var chosen := ChooseInstances(cfg.consumers, before, retired, next);
    var removed := CollectRemoved(before, cfg.consumers);
    ChosenServe(cfg.consumers, before, retired, next);
    r := Ok(Plan(EngineState(generation, chosen.targets, placed, ids.names), chosen.started, chosen.revived, chosen.retiring + removed));
  }

  /** One instance for each consumer, in order, of its name and mode. */
  ghost predicate Serve(targets: seq<Instance>, cs: seq<Consumer>) {
    |targets| == |cs| && forall k :: 0 <= k < |cs| ==> targets[k].name == cs[k].name && targets[k].mode == cs[k].mode
  }

  lemma {:induction false} ChosenServe(cs: seq<Consumer>, was: seq<Instance>, retired: seq<Instance>, next: nat)
    ensures Serve(Choose(cs, was, retired, next).targets, cs)
    decreases |cs|
  {
    if cs != [] {
      ChosenServe(cs[..|cs| - 1], was, retired, next);
    }
  }

  /** How many of `bots` have no source yet. */
  ghost function NewBots(bots: seq<string>, sources: seq<Option<Source>>): nat {
    if bots == [] then 0
    else
      var last := bots[|bots| - 1];
      NewBots(bots[..|bots| - 1], sources) + if exists s :: s in sources && s.Some? && s.value.name == last then 0 else 1
  }

  /** Each new bot can have an id of its own among the 65536 there are, beside those ever given out. */
  ghost predicate FitIds(bots: seq<string>, was: Option<EngineState>) {
    var added := NewBots(bots, if was.None? then [] else was.value.sources);
    added == 0 || added + (if was.None? then 0 else |was.value.sourceNames|) <= 65536
  }

  lemma {:induction false} IdsExhausted(bots: seq<string>, sources: seq<Option<Source>>, names: seq<string>)
    ensures var added, r := NewBots(bots, sources), Assign(bots, sources, names);
            && (r.Err? <==> added > 0 && added + |names| > 65536)
            && if r.Err? then r.error == SourceIdsExhausted else |r.value.names| == added + |names|
    decreases |bots|
  {
    if bots != [] {
      var found := SourceNamed(sources, bots[|bots| - 1]);
      assert found.Some? <==> exists s :: s in sources && s.Some? && s.value.name == bots[|bots| - 1];
      IdsExhausted(bots[..|bots| - 1], sources, names);
    }
  }

  /** Ids already given keep their names. */
  lemma {:induction false} NamesGrow(bots: seq<string>, sources: seq<Option<Source>>, names: seq<string>)
    ensures Assign(bots, sources, names).Ok? ==> names <= Assign(bots, sources, names).value.names
    ensures Assign(bots, sources, names) != Err(BadRules)
    decreases |bots|
  {
    if bots != [] {
      NamesGrow(bots[..|bots| - 1], sources, names);
    }
  }

  lemma AssignLast(bots: seq<string>, i: nat)
    requires i < |bots|
    ensures bots[..i + 1][..i] == bots[..i] && bots[..i + 1][i] == bots[i]
  {
  }

  lemma {:induction false} AssignFails(bots: seq<string>, i: nat, sources: seq<Option<Source>>, names: seq<string>)
    requires i <= |bots| && Assign(bots[..i], sources, names).Err?
    ensures Assign(bots, sources, names) == Assign(bots[..i], sources, names)
    decreases |bots| - i
  {
    if i == |bots| {
      assert bots[..i] == bots;
    } else {
      AssignLast(bots, i);
      AssignFails(bots, i + 1, sources, names);
    }
  }

  // ---- The engine

  /** A drain task started for a retired instance; its token calls it off. */
  datatype Drain = Drain(slot: Instance, token: nat)

  /**
   What reloads and drains share. `drain` is the token of each instance that
   drains, `cancelled` the tokens of drains called off, `tasks` every drain
   ever started, `closed` the ids of the instances retired for good.
   */
  datatype Engine = Engine(
    state: EngineState, retired: seq<Instance>, closed: set<nat>,
    drain: map<Instance, nat>, cancelled: set<nat>, tasks: set<Drain>, nextId: nat, nextToken: nat)

  function SetOf(xs: seq<Instance>): set<Instance> {
    set x | x in xs
  }

  /** `retain(|s| not in gone)`. */
  function Without(xs: seq<Instance>, gone: set<Instance>): (ys: seq<Instance>)
    ensures forall x :: x in ys <==> x in xs && x !in gone
  {
    if xs == [] then []
    else
      var rest := Without(xs[..|xs| - 1], gone);
      assert xs == xs[..|xs| - 1] + [xs[|xs| - 1]];
      if xs[|xs| - 1] in gone then rest else rest + [xs[|xs| - 1]]
  }

  /** `drain` with a token, from `token` on, for each of `retiring`. */
  function WithTokens(drain: map<Instance, nat>, retiring: seq<Instance>, token: nat): map<Instance, nat> {
    if retiring == [] then drain
    else WithTokens(drain, retiring[..|retiring| - 1], token)[retiring[|retiring| - 1] := token + |retiring| - 1]
  }

  /** The drain tasks started for `retiring`. */
  function Started(retiring: seq<Instance>, token: nat): set<Drain> {
    set k | 0 <= k < |retiring| :: Drain(retiring[k], token + k)
  }

  function TokensOf(drain: map<Instance, nat>, slots: set<Instance>): set<nat> {
    set x | x in drain && x in slots :: drain[x]
  }

  function Calm(drain: map<Instance, nat>, slots: set<Instance>): map<Instance, nat> {
    map x | x in drain && x !in slots :: drain[x]
  }

  /** The engine after `commit` of `plan`. */
  function Committed(e: Engine, plan: Plan): Engine {
    var revived := SetOf(plan.revived);
    Engine(
      plan.state, Without(e.retired, revived) + plan.retiring, e.closed,
      WithTokens(Calm(e.drain, revived), plan.retiring, e.nextToken),
      e.cancelled + TokensOf(e.drain, revived),
      e.tasks + Started(plan.retiring, e.nextToken),
      e.nextId + |plan.started|, e.nextToken + |plan.retiring|)
  }

  /** The engine after `retire` for the drain `d`: nothing if it was called off or is over. */
  function Retired(e: Engine, d: Drain): Engine {
    if d.token in e.cancelled || d.slot !in e.retired then e
    else e.(retired := Without(e.retired, {d.slot}), closed := e.closed + {d.slot.id}, drain := e.drain - {d.slot})
  }

  class SharedEngine {
    var state: EngineState
    var retired: seq<Instance>
    var closed: set<nat>
    var drain: map<Instance, nat>
    var cancelled: set<nat>
    var tasks: set<Drain>
    var nextId: nat
    var nextToken: nat

    function View(): Engine
      reads this
    {
      Engine(state, retired, closed, drain, cancelled, tasks, nextId, nextToken)
    }

    constructor ()
      ensures View() == NoEngine
    {
      state, retired, closed := EngineState(0, [], [], []), [], {};
      drain, cancelled, tasks, nextId, nextToken := map[], {}, {}, 0, 0;
    }

    /** Applies `plan`: calls off the drains of revived instances, starts those of retiring ones, swaps the state in. */
    method Commit(plan: Plan)
      modifies this
      ensures View() == Committed(old(View()), plan)
      ensures state == plan.state && closed == old(closed)
      ensures forall x :: x in retired <==> (x in old(retired) && x !in plan.revived) || x in plan.retiring
      ensures forall x | x in old(drain) && x in plan.revived :: old(drain)[x] in cancelled
      ensures forall x | x in old(drain) && x !in plan.revived && x !in plan.retiring :: x in drain && drain[x] == old(drain)[x]
      ensures forall x | x in plan.retiring :: x in drain && old(nextToken) <= drain[x] < nextToken && Drain(x, drain[x]) in tasks
    {
      RevivedOnly(plan.revived);
      var revived := plan.revived;
      NothingGone(retired, drain);
      for i := 0 to |revived|
        invariant View() == old(View()).(retired := retired, drain := drain, cancelled := cancelled)
        invariant retired == Without(old(retired), SetOf(revived[..i]))
        invariant drain == Calm(old(drain), SetOf(revived[..i]))
        invariant cancelled == old(cancelled) + TokensOf(old(drain), SetOf(revived[..i]))
      {
        OneMoreGone(old(retired), old(drain), revived, i);
        if revived[i] in drain {
          cancelled := cancelled + {drain[revived[i]]};
          drain := drain - {revived[i]};
        }
        retired := Without(retired, {revived[i]});
      }
      assert revived[..|revived|] == revived;
      nextId := nextId + |plan.started|;
      ghost var calm := drain;
      StartDrains(plan.retiring);
      forall x: Instance
        ensures TokenGiven(calm, plan.retiring, old(nextToken), drain, x)
        ensures x in plan.retiring ==> Drain(x, drain[x]) in tasks
      {
        TokensGiven(calm, plan.retiring, old(nextToken), x);
        if x in plan.retiring {
          TokenTask(calm, plan.retiring, old(nextToken), drain, x);
        }
      }
      state := plan.state;
    }

    method StartDrains(retiring: seq<Instance>)
      modifies this`retired, this`drain, this`tasks, this`nextToken
      ensures retired == old(retired) + retiring && drain == WithTokens(old(drain), retiring, old(nextToken))
      ensures tasks == old(tasks) + Started(retiring, old(nextToken)) && nextToken == old(nextToken) + |retiring|
    {
      for i := 0 to |retiring|
        invariant retired == old(retired) + retiring[..i] && drain == WithTokens(old(drain), retiring[..i], old(nextToken))
        invariant tasks == old(tasks) + Started(retiring[..i], old(nextToken)) && nextToken == old(nextToken) + i
      {
        OneMoreStarted(retiring, i, old(nextToken));
        drain := drain[retiring[i] := nextToken];
        retired := retired + [retiring[i]];
        tasks := tasks + {Drain(retiring[i], nextToken)};
        nextToken := nextToken + 1;
      }
      assert retiring[..|retiring|] == retiring;
    }

    /** Ends the drain `d`, unless a reload called it off. */
    method Retire(d: Drain) returns (done: bool)
      modifies this
      ensures View() == Retired(old(View()), d)
      ensures done <==> d.token !in old(cancelled) && d.slot in old(retired)
      ensures state == old(state) && closed == if done then old(closed) + {d.slot.id} else old(closed)
      ensures forall x | x != d.slot :: (x in retired <==> x in old(retired)) && (x in drain <==> x in old(drain))
      ensures done ==> d.slot !in retired && d.slot !in drain
    {
      if d.token in cancelled || d.slot !in retired {
        return false;
      }
      retired := Without(retired, {d.slot});
      drain := drain - {d.slot};
      closed := closed + {d.slot.id};
      return true;
    }
  }

  /** `x` got a token from `token` on if it is one of `retiring`, and else kept what it had. */
  ghost predicate TokenGiven(drain: map<Instance, nat>, retiring: seq<Instance>, token: nat, after: map<Instance, nat>, x: Instance) {
    if x in retiring then x in after && token <= after[x] < token + |retiring| && retiring[after[x] - token] == x
    else x in drain ==> x in after && after[x] == drain[x]
  }

  lemma {:induction false} TokensGiven(drain: map<Instance, nat>, retiring: seq<Instance>, token: nat, x: Instance)
    ensures TokenGiven(drain, retiring, token, WithTokens(drain, retiring, token), x)
    decreases |retiring|
  {
    if retiring != [] {
      var n := |retiring| - 1;
      TokensGiven(drain, retiring[..n], token, x);
      assert retiring == retiring[..n] + [retiring[n]];
    }
  }

  lemma TokenTask(drain: map<Instance, nat>, retiring: seq<Instance>, token: nat, after: map<Instance, nat>, x: Instance)
    requires TokenGiven(drain, retiring, token, after, x) && x in retiring
    ensures Drain(x, after[x]) in Started(retiring, token)
  {
  }

  const NoEngine := Engine(EngineState(0, [], [], []), [], {}, map[], {}, {}, 0, 0)

  lemma RevivedOnly(xs: seq<Instance>)
    ensures SetOf(xs[..0]) == {}
  {
  }

  lemma {:induction false} NothingGone(xs: seq<Instance>, drain: map<Instance, nat>)
    ensures Without(xs, {}) == xs && Calm(drain, {}) == drain && TokensOf(drain, {}) == {}
  {
    if xs != [] {
      NothingGone(xs[..|xs| - 1], drain);
    }
  }

  lemma {:induction false} WithoutTwice(xs: seq<Instance>, a: set<Instance>, b: set<Instance>)
    ensures Without(Without(xs, a), b) == Without(xs, a + b)
  {
    if xs != [] {
      var x, rest := xs[|xs| - 1], xs[..|xs| - 1];
      WithoutTwice(rest, a, b);
      if x !in a {
        assert (Without(rest, a) + [x])[..|Without(rest, a)|] == Without(rest, a);
      }
    }
  }

  lemma OneMoreGone(xs: seq<Instance>, drain: map<Instance, nat>, gone: seq<Instance>, i: nat)
    requires i < |gone|
    ensures var was, now := SetOf(gone[..i]), SetOf(gone[..i + 1]);
            && Without(xs, now) == Without(Without(xs, was), {gone[i]})
            && Calm(drain, now) == Calm(drain, was) - {gone[i]}
            && TokensOf(drain, now) == TokensOf(drain, was) + if gone[i] in Calm(drain, was) then {Calm(drain, was)[gone[i]]} else {}
  {
    assert gone[..i + 1] == gone[..i] + [gone[i]];
    assert SetOf(gone[..i + 1]) == SetOf(gone[..i]) + {gone[i]};
    WithoutTwice(xs, SetOf(gone[..i]), {gone[i]});
  }

  lemma OneMoreStarted(retiring: seq<Instance>, i: nat, token: nat)
    requires i < |retiring|
    ensures retiring[..i + 1] == retiring[..i] + [retiring[i]]
    ensures Started(retiring[..i + 1], token) == Started(retiring[..i], token) + {Drain(retiring[i], token + i)}
  {
    var now := retiring[..i + 1];
    assert now == retiring[..i] + [retiring[i]];
    forall d | d in Started(now, token)
      ensures d in Started(retiring[..i], token) + {Drain(retiring[i], token + i)}
    {
      var k :| 0 <= k < |now| && d == Drain(now[k], token + k);
      assert k < i ==> now[k] == retiring[..i][k];
    }
    forall d | d in Started(retiring[..i], token) + {Drain(retiring[i], token + i)}
      ensures d in Started(now, token)
    {
      if d in Started(retiring[..i], token) {
        var k :| 0 <= k < i && d == Drain(retiring[..i][k], token + k);
        assert d == Drain(now[k], token + k);
      } else {
        assert d == Drain(now[i], token + i);
      }
    }
  }
}
