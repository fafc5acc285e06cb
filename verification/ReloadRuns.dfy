/** What every sequence of reloads and drain endings keeps. */
module ReloadRuns {
  import opened Wrappers
  import opened Reload

  // ---- What a plan does with the instances

  ghost predicate NamesDistinct(xs: seq<Instance>) {
    forall i, j :: 0 <= i < j < |xs| ==> xs[i].name != xs[j].name
  }

  ghost predicate Distinct(xs: seq<Instance>) {
    forall i, j :: 0 <= i < j < |xs| ==> xs[i] != xs[j]
  }

  lemma DistinctLast(xs: seq<Instance>)
    requires Distinct(xs) && xs != []
    ensures Distinct(xs[..|xs| - 1]) && xs[|xs| - 1] !in xs[..|xs| - 1]
  {
  }

  lemma DistinctAppend(xs: seq<Instance>, x: Instance)
    requires Distinct(xs) && x !in xs
    ensures Distinct(xs + [x])
  {
  }

  lemma DistinctConcat(a: seq<Instance>, b: seq<Instance>)
    requires Distinct(a) && Distinct(b) && forall x | x in a :: x !in b
    ensures Distinct(a + b)
  {
    var c := a + b;
    forall i, j | 0 <= i < j < |c|
      ensures c[i] != c[j]
    {
      assert i < |a| ==> c[i] in a;
      assert j >= |a| ==> c[j] in b;
    }
  }

  lemma NamesApart(xs: seq<Instance>)
    requires NamesDistinct(xs)
    ensures Distinct(xs)
  {
  }

  ghost predicate ConsumersDistinct(cs: seq<Consumer>) {
    forall i, j :: 0 <= i < j < |cs| ==> cs[i].name != cs[j].name
  }

  /** `x` is an instance of the consumer `c`. */
  predicate Fits(x: Instance, c: Consumer) {
    x.name == c.name && x.mode == c.mode
  }

  /** The consumer `c` took its previous instance, else a draining one, else a new one. */
  ghost predicate TookRight(c: Consumer, t: Instance, was: seq<Instance>, retired: seq<Instance>, ch: Chosen) {
    && Fits(t, c)
    && (t in was || (t in retired && t in ch.revived) || t in ch.started)
    && (forall x | x in was && Fits(x, c) :: x == t)
    && (t in ch.started ==> forall x | x in was || x in retired :: !Fits(x, c))
  }

  /** The previous instance of a consumer whose mode changed. */
  ghost predicate Replaced(x: Instance, cs: seq<Consumer>) {
    exists c :: c in cs && c.name == x.name && c.mode != x.mode
  }

  ghost predicate ChosenOk(cs: seq<Consumer>, was: seq<Instance>, retired: seq<Instance>, next: nat, ch: Chosen) {
    && |ch.targets| == |cs|
    && (forall k :: 0 <= k < |cs| ==> TookRight(cs[k], ch.targets[k], was, retired, ch))
    && (forall x | x in ch.started || x in ch.revived :: x in ch.targets)
    && (forall x | x in ch.revived :: x in retired)
    && (forall k :: 0 <= k < |ch.started| ==> ch.started[k].id == next + k)
    && (forall x :: x in ch.retiring <==> x in was && Replaced(x, cs))
    && NamesDistinct(ch.retiring)
  }

  lemma FoundIsIt(was: seq<Instance>, x: Instance)
    requires NamesDistinct(was) && x in was
    ensures FindTarget(was, x.name) == Some(x)
  {
    var found := FindTarget(was, x.name);
    assert found.Some?;
    var i :| 0 <= i < |was| && was[i] == x;
    var j :| 0 <= j < |was| && was[j] == found.value;
    assert i == j;
  }

  lemma ChooseOneOk(cs: seq<Consumer>, was: seq<Instance>, retired: seq<Instance>, next: nat, acc: Chosen, c: Consumer)
    requires NamesDistinct(was) && ConsumersDistinct(cs + [c]) && ChosenOk(cs, was, retired, next, acc)
    requires forall x | x in was || x in retired :: x.id < next
    ensures ChosenOk(cs + [c], was, retired, next, ChooseOne(acc, c, was, retired, next))
  {
    var ch := ChooseOne(acc, c, was, retired, next);
    var t := ch.targets[|cs|];
    assert ch.targets == acc.targets + [t];
    forall x | x in was && x.name == c.name
      ensures FindTarget(was, c.name) == Some(x)
    {
      FoundIsIt(was, x);
    }
    NewTarget(was, retired, next, acc, c);
    forall k | 0 <= k <= |cs|
      ensures TookRight((cs + [c])[k], ch.targets[k], was, retired, ch)
    {
      if k < |cs| {
        assert TookRight(cs[k], acc.targets[k], was, retired, acc);
        KeptRight(cs[k], acc.targets[k], was, retired, acc, ch, next);
      }
    }
    RetiringExtended(cs, was, acc, c, ch);
  }

  lemma NewTarget(was: seq<Instance>, retired: seq<Instance>, next: nat, acc: Chosen, c: Consumer)
    requires forall x | x in was && x.name == c.name :: FindTarget(was, c.name) == Some(x)
    requires forall k :: 0 <= k < |acc.started| ==> acc.started[k].id == next + k
    requires forall x | x in was || x in retired :: x.id < next
    ensures var ch := ChooseOne(acc, c, was, retired, next); TookRight(c, ch.targets[|acc.targets|], was, retired, ch)
  {
  }

  lemma KeptRight(c: Consumer, t: Instance, was: seq<Instance>, retired: seq<Instance>, acc: Chosen, ch: Chosen, next: nat)
    requires TookRight(c, t, was, retired, acc)
    requires ch.started == acc.started || exists x :: ch.started == acc.started + [x] && x.id == next + |acc.started|
    requires forall k :: 0 <= k < |acc.started| ==> acc.started[k].id == next + k
    requires acc.revived <= ch.revived
    requires forall x | x in was || x in retired :: x.id < next
    ensures TookRight(c, t, was, retired, ch)
  {
    assert t in ch.started ==> t in acc.started;
  }

  lemma RetiringExtended(cs: seq<Consumer>, was: seq<Instance>, acc: Chosen, c: Consumer, ch: Chosen)
    requires NamesDistinct(was) && ConsumersDistinct(cs + [c]) && NamesDistinct(acc.retiring)
    requires forall x :: x in acc.retiring <==> x in was && Replaced(x, cs)
    requires forall x | x in was && x.name == c.name :: FindTarget(was, c.name) == Some(x)
    requires var previous := FindTarget(was, c.name);
             ch.retiring == if previous.Some? && previous.value.mode != c.mode then acc.retiring + [previous.value] else acc.retiring
    ensures NamesDistinct(ch.retiring) && forall x :: x in ch.retiring <==> x in was && Replaced(x, cs + [c])
  {
    assert forall d :: d in cs + [c] <==> d in cs || d == c;
    forall x | x in acc.retiring
      ensures x.name != c.name
    {
      var d :| d in cs && d.name == x.name && d.mode != x.mode;
      var k :| 0 <= k < |cs| && cs[k] == d;
      assert (cs + [c])[k] == d && (cs + [c])[|cs|] == c;
    }
    forall x | x in was
      ensures Replaced(x, cs + [c]) <==> Replaced(x, cs) || (x.name == c.name && x.mode != c.mode)
    {
      if x.name == c.name && x.mode != c.mode {
        assert c in cs + [c];
      }
    }
  }

  lemma {:induction false} ChooseOk(cs: seq<Consumer>, was: seq<Instance>, retired: seq<Instance>, next: nat)
    requires NamesDistinct(was) && ConsumersDistinct(cs)
    requires forall x | x in was || x in retired :: x.id < next
    ensures ChosenOk(cs, was, retired, next, Choose(cs, was, retired, next))
  {
    hide ChosenOk, ChooseOne;
    if cs == [] {
      ChooseNone(was, retired, next);
    } else {
      var rest, c := cs[..|cs| - 1], cs[|cs| - 1];
      assert rest + [c] == cs;
      ChooseOk(rest, was, retired, next);
      ChooseOneOk(rest, was, retired, next, Choose(rest, was, retired, next), c);
    }
  }

  lemma ChooseNone(was: seq<Instance>, retired: seq<Instance>, next: nat)
    ensures ChosenOk([], was, retired, next, Chosen([], [], [], []))
  {
    assert forall x :: !Replaced(x, []);
  }

  // ---- The instances of an engine

  ghost predicate Held(e: Engine, x: Instance) {
    x in e.state.targets || x in e.retired
  }

  /** Every instance is current, draining or closed, and just one of these; none shares its name and mode with another open one. */
  ghost predicate InstancesOk(e: Engine) {
    && NamesDistinct(e.state.targets)
    && Distinct(e.retired)
    && (forall x | x in e.state.targets :: x !in e.retired)
    && (forall x, y | Held(e, x) && Held(e, y) && x.name == y.name && x.mode == y.mode :: x == y)
    && (forall x, y | Held(e, x) && Held(e, y) && x.id == y.id :: x == y)
    && (forall x | Held(e, x) :: x.id < e.nextId && x.id !in e.closed)
    && (forall id | id in e.closed :: id < e.nextId)
    && (forall id: nat :: id < e.nextId ==> id in e.closed || exists x :: Held(e, x) && x.id == id)
  }

  /** What `plan` does to the instances of `e`. */
  ghost predicate PlanMoves(e: Engine, plan: Plan) {
    && NamesDistinct(plan.state.targets)
    && NamesDistinct(plan.retiring)
    && (forall x | x in plan.state.targets :: x in e.state.targets || (x in e.retired && x in plan.revived) || x in plan.started)
    && (forall x | x in plan.started || x in plan.revived :: x in plan.state.targets)
    && (forall x | x in plan.revived :: x in e.retired)
    && (forall k :: 0 <= k < |plan.started| ==> plan.started[k].id == e.nextId + k)
    && (forall x, y | x in plan.started && Held(e, y) :: !(x.name == y.name && x.mode == y.mode))
    && (forall x | x in plan.retiring :: x in e.state.targets && x !in plan.state.targets)
    && (forall x | x in e.state.targets :: x in plan.state.targets || x in plan.retiring)
  }

  lemma NamesOfTargets(cs: seq<Consumer>, targets: seq<Instance>)
    requires ConsumersDistinct(cs) && |targets| == |cs| && forall k :: 0 <= k < |cs| ==> Fits(targets[k], cs[k])
    ensures NamesDistinct(targets)
    ensures forall x | x in targets :: exists c :: c in cs && Fits(x, c)
    ensures forall x, c | x in targets && c in cs && x.name == c.name :: Fits(x, c)
  {
    forall x | x in targets
      ensures exists c :: c in cs && Fits(x, c)
      ensures forall c | c in cs && x.name == c.name :: Fits(x, c)
    {
      var k :| 0 <= k < |targets| && targets[k] == x;
      assert Fits(targets[k], cs[k]) && cs[k] in cs;
      forall c | c in cs && x.name == c.name
        ensures Fits(x, c)
      {
        var j :| 0 <= j < |cs| && cs[j] == c;
        assert j == k;
      }
    }
  }

  lemma PlanMovesOk(cfg: Config, e: Engine, chosen: Chosen, plan: Plan)
    requires InstancesOk(e) && ConsumersDistinct(cfg.consumers)
    requires chosen == Choose(cfg.consumers, e.state.targets, e.retired, e.nextId)
    requires plan.state.targets == chosen.targets && plan.started == chosen.started && plan.revived == chosen.revived
    requires plan.retiring == chosen.retiring + Dropped(e.state.targets, cfg.consumers)
    ensures PlanMoves(e, plan)
  {
    hide Choose, NamesDistinct, ConsumersDistinct, Distinct;
    var cs, was := cfg.consumers, e.state.targets;
    assert forall x | x in was || x in e.retired :: Held(e, x);
    ChooseOk(cs, was, e.retired, e.nextId);
    forall k | 0 <= k < |cs|
      ensures Fits(chosen.targets[k], cs[k]) && TookRight(cs[k], chosen.targets[k], was, e.retired, chosen)
    {
    }
    NamesOfTargets(cs, chosen.targets);
    RetiringNames(cs, was, chosen.retiring);
    TargetsMoved(cs, e, chosen);
    RestMoved(cs, e, chosen);
  }

  lemma TargetsMoved(cs: seq<Consumer>, e: Engine, chosen: Chosen)
    requires ChosenOk(cs, e.state.targets, e.retired, e.nextId, chosen)
    ensures forall x | x in chosen.targets :: x in e.state.targets || (x in e.retired && x in chosen.revived) || x in chosen.started
    ensures forall x, y | x in chosen.started && Held(e, y) :: !(x.name == y.name && x.mode == y.mode)
  {
    forall x | x in chosen.targets
      ensures x in e.state.targets || (x in e.retired && x in chosen.revived) || x in chosen.started
      ensures x in chosen.started ==> forall y | Held(e, y) :: !(x.name == y.name && x.mode == y.mode)
    {
      var k :| 0 <= k < |cs| && chosen.targets[k] == x;
      assert TookRight(cs[k], chosen.targets[k], e.state.targets, e.retired, chosen);
    }
  }

  /** Of the previous instances, those not kept retire, and only those. */
  lemma RestMoved(cs: seq<Consumer>, e: Engine, chosen: Chosen)
    requires InstancesOk(e) && ChosenOk(cs, e.state.targets, e.retired, e.nextId, chosen)
    requires forall x | x in chosen.targets :: exists c :: c in cs && Fits(x, c)
    requires forall x, c | x in chosen.targets && c in cs && x.name == c.name :: Fits(x, c)
    ensures forall x | x in chosen.retiring + Dropped(e.state.targets, cs) :: x in e.state.targets && x !in chosen.targets
    ensures forall x | x in e.state.targets :: x in chosen.targets || x in chosen.retiring + Dropped(e.state.targets, cs)
  {
    hide InstancesOk;
    forall x | x in e.state.targets
      ensures x in chosen.targets || x in chosen.retiring + Dropped(e.state.targets, cs)
    {
      if Configured(cs, x.name) {
        var c :| c in cs && c.name == x.name;
        var k :| 0 <= k < |cs| && cs[k] == c;
        assert TookRight(cs[k], chosen.targets[k], e.state.targets, e.retired, chosen);
        assert c.mode != x.mode ==> Replaced(x, cs);
        assert c.mode == x.mode ==> x == chosen.targets[k];
      }
    }
    forall x | x in chosen.targets
      ensures x !in chosen.retiring && x !in Dropped(e.state.targets, cs)
    {
      var c :| c in cs && Fits(x, c);
    }
  }

  lemma RetiringNames(cs: seq<Consumer>, was: seq<Instance>, replaced: seq<Instance>)
    requires NamesDistinct(was) && NamesDistinct(replaced) && forall x :: x in replaced <==> x in was && Replaced(x, cs)
    ensures NamesDistinct(replaced + Dropped(was, cs))
  {
    DroppedNames(was, cs);
    forall x, y | x in replaced && y in Dropped(was, cs)
      ensures x.name != y.name
    {
      var c :| c in cs && c.name == x.name && c.mode != x.mode;
      assert Configured(cs, x.name);
    }
  }

  lemma {:induction false} DroppedNames(was: seq<Instance>, cs: seq<Consumer>)
    requires NamesDistinct(was)
    ensures NamesDistinct(Dropped(was, cs))
  {
    if was != [] {
      var rest, last := was[..|was| - 1], was[|was| - 1];
      DroppedNames(rest, cs);
      assert forall x | x in rest :: x.name != last.name;
    }
  }

  // ---- A reload

  lemma {:induction false} WithoutDistinct(xs: seq<Instance>, gone: set<Instance>)
    requires Distinct(xs)
    ensures Distinct(Without(xs, gone))
  {
    hide Distinct;
    if xs == [] {
      NothingDistinct();
    } else {
      DistinctLast(xs);
      WithoutDistinct(xs[..|xs| - 1], gone);
      if xs[|xs| - 1] !in gone {
        DistinctAppend(Without(xs[..|xs| - 1], gone), xs[|xs| - 1]);
      }
    }
  }

  lemma NothingDistinct()
    ensures Distinct([])
  {
  }

  /** What the engine holds after the plan: what it held and what the plan started. */
  lemma HeldAfter(e: Engine, plan: Plan, x: Instance)
    requires InstancesOk(e) && PlanMoves(e, plan)
    ensures Held(Committed(e, plan), x) <==> Held(e, x) || x in plan.started
  {
    hide WithTokens, Started, TokensOf, Calm;
    assert x in SetOf(plan.revived) <==> x in plan.revived;
  }

  lemma CommitKeepsPairs(e: Engine, plan: Plan)
    requires InstancesOk(e) && PlanMoves(e, plan)
    ensures var f := Committed(e, plan);
            && (forall x, y | Held(f, x) && Held(f, y) && x.name == y.name && x.mode == y.mode :: x == y)
            && (forall x, y | Held(f, x) && Held(f, y) && x.id == y.id :: x == y)
            && (forall x | Held(f, x) :: x.id < f.nextId && x.id !in f.closed)
  {
    hide Committed;
    CommitKeepsIds(e, plan);
    var f := Committed(e, plan);
    forall x, y | Held(f, x) && Held(f, y)
      ensures x.name == y.name && x.mode == y.mode ==> x == y
      ensures x.id == y.id ==> x == y
      ensures x.id < f.nextId && x.id !in f.closed
    {
      HeldAfter(e, plan, x);
      HeldAfter(e, plan, y);
      if x in plan.started && y in plan.started {
        StartedApart(plan, x, y);
      }
      StartedIds(e, plan);
    }
  }

  lemma StartedApart(plan: Plan, x: Instance, y: Instance)
    requires NamesDistinct(plan.state.targets) && x in plan.state.targets && y in plan.state.targets
    ensures x.name == y.name ==> x == y
  {
  }

  lemma StartedIds(e: Engine, plan: Plan)
    requires PlanMoves(e, plan)
    ensures forall x | x in plan.started :: e.nextId <= x.id < e.nextId + |plan.started|
    ensures forall x, y | x in plan.started && y in plan.started && x.id == y.id :: x == y
  {
  }

  lemma CommitKeepsIds(e: Engine, plan: Plan)
    ensures Committed(e, plan).closed == e.closed && Committed(e, plan).nextId == e.nextId + |plan.started|
  {
  }

  lemma CommitAccountsForAll(e: Engine, plan: Plan, id: nat)
    requires InstancesOk(e) && PlanMoves(e, plan) && id < Committed(e, plan).nextId
    ensures id in Committed(e, plan).closed || exists x :: Held(Committed(e, plan), x) && x.id == id
  {
    hide Committed;
    CommitKeepsIds(e, plan);
    if id >= e.nextId {
      var x := plan.started[id - e.nextId];
      HeldAfter(e, plan, x);
    } else if id !in e.closed {
      var x :| Held(e, x) && x.id == id;
      HeldAfter(e, plan, x);
    }
  }

  lemma CommitKeepsLists(e: Engine, plan: Plan)
    requires InstancesOk(e) && PlanMoves(e, plan)
    ensures var f := Committed(e, plan);
            && Distinct(f.retired)
            && (forall x | x in f.state.targets :: x !in f.retired)
  {
    hide WithTokens, Started, TokensOf, Calm, Distinct, Without;
    WithoutDistinct(e.retired, SetOf(plan.revived));
    var kept := Without(e.retired, SetOf(plan.revived));
    NamesApart(plan.retiring);
    assert forall x | x in kept :: x !in plan.retiring;
    DistinctConcat(kept, plan.retiring);
    forall x | x in plan.state.targets
      ensures x !in kept + plan.retiring
    {
      if x in plan.started {
        StartedIds(e, plan);
        assert x in e.retired ==> Held(e, x);
      }
    }
  }

  lemma CommitKeepsInstances(e: Engine, plan: Plan)
    requires InstancesOk(e) && PlanMoves(e, plan)
    ensures InstancesOk(Committed(e, plan))
  {
    CommitKeepsPairs(e, plan);
    CommitKeepsLists(e, plan);
    CommitKeepsIds(e, plan);
    var f := Committed(e, plan);
    forall id: nat | id < f.nextId
      ensures id in f.closed || exists x :: Held(f, x) && x.id == id
    {
      CommitAccountsForAll(e, plan, id);
    }
    assert f.state == plan.state;
    hide Committed;
  }

  lemma RetireKeepsInstances(e: Engine, d: Drain)
    requires InstancesOk(e)
    ensures InstancesOk(Retired(e, d))
  {
    hide Distinct, NamesDistinct;
    var f := Retired(e, d);
    if f != e {
      WithoutDistinct(e.retired, {d.slot});
      assert Held(e, d.slot);
      forall x
        ensures Held(f, x) <==> Held(e, x) && x != d.slot
      {
      }
      forall id: nat | id < f.nextId
        ensures id in f.closed || exists x :: Held(f, x) && x.id == id
      {
        if id !in e.closed {
          var x :| Held(e, x) && x.id == id;
          assert x == d.slot || Held(f, x);
        }
      }
    }
  }

  // ---- Drains

  /** Every retired instance has its own drain, not called off; a drain not called off is its instance's, or over. */
  ghost predicate DrainsOk(e: Engine) {
    && e.drain.Keys == SetOf(e.retired)
    && (forall x | x in e.drain :: e.drain[x] < e.nextToken && e.drain[x] !in e.cancelled && Drain(x, e.drain[x]) in e.tasks)
    && (forall x, y | x in e.drain && y in e.drain && e.drain[x] == e.drain[y] :: x == y)
    && (forall d | d in e.tasks :: d.token < e.nextToken)
    && (forall t | t in e.cancelled :: t < e.nextToken)
    && (forall d | d in e.tasks && d.token !in e.cancelled :: (d.slot in e.drain && e.drain[d.slot] == d.token) || d.slot.id in e.closed)
  }

  /** Each of `retiring` got its own token, and what drained before kept its one. */
  ghost predicate Tokened(drain: map<Instance, nat>, retiring: seq<Instance>, token: nat, after: map<Instance, nat>) {
    && (forall x :: x in after <==> x in drain || x in retiring)
    && (forall x | x in drain :: after[x] == drain[x])
    && (forall k :: 0 <= k < |retiring| ==> after[retiring[k]] == token + k)
  }

  lemma {:induction false} WithTokensIs(drain: map<Instance, nat>, retiring: seq<Instance>, token: nat)
    requires Distinct(retiring) && forall x | x in retiring :: x !in drain
    ensures Tokened(drain, retiring, token, WithTokens(drain, retiring, token))
    decreases |retiring|
  {
    hide Tokened, Distinct;
    if retiring == [] {
      NoTokens(drain, token);
    } else {
      var rest := retiring[..|retiring| - 1];
      assert forall x | x in rest :: x in retiring;
      DistinctLast(retiring);
      WithTokensIs(drain, rest, token);
      OneMoreToken(drain, retiring, token, WithTokens(drain, rest, token));
    }
  }

  lemma NoTokens(drain: map<Instance, nat>, token: nat)
    ensures Tokened(drain, [], token, drain)
  {
  }

  lemma OneMoreToken(drain: map<Instance, nat>, retiring: seq<Instance>, token: nat, before: map<Instance, nat>)
    requires retiring != [] && Tokened(drain, retiring[..|retiring| - 1], token, before)
    requires retiring[|retiring| - 1] !in drain && retiring[|retiring| - 1] !in retiring[..|retiring| - 1]
    ensures Tokened(drain, retiring, token, before[retiring[|retiring| - 1] := token + |retiring| - 1])
  {
    var rest, last := retiring[..|retiring| - 1], retiring[|retiring| - 1];
    assert retiring == rest + [last];
    forall k | 0 <= k < |rest|
      ensures retiring[k] == rest[k] && retiring[k] != last
    {
      assert rest[k] in rest;
    }
  }

  lemma CommitTokens(e: Engine, plan: Plan)
    requires InstancesOk(e) && PlanMoves(e, plan) && DrainsOk(e)
    ensures Tokened(Calm(e.drain, SetOf(plan.revived)), plan.retiring, e.nextToken, Committed(e, plan).drain)
    ensures forall x | x in plan.retiring :: x !in e.drain
  {
    hide Tokened, Distinct;
    forall x | x in plan.retiring
      ensures x !in e.drain
    {
      assert x in e.drain <==> x in SetOf(e.retired);
    }
    NamesApart(plan.retiring);
    WithTokensIs(Calm(e.drain, SetOf(plan.revived)), plan.retiring, e.nextToken);
  }

  lemma CommitKeepsDrains(e: Engine, plan: Plan)
    requires InstancesOk(e) && PlanMoves(e, plan) && DrainsOk(e)
    ensures DrainsOk(Committed(e, plan))
  {
    hide Distinct, NamesDistinct, InstancesOk, PlanMoves;
    DrainKeys(e, plan);
    DrainTokens(e, plan);
    DrainsApart(e, plan);
    DrainTasks(e, plan);
    hide Committed;
  }

  lemma DrainKeys(e: Engine, plan: Plan)
    requires InstancesOk(e) && PlanMoves(e, plan) && DrainsOk(e)
    ensures Committed(e, plan).drain.Keys == SetOf(Committed(e, plan).retired)
  {
    hide InstancesOk, PlanMoves, TokensOf, Started, WithTokens;
    CommitTokens(e, plan);
    var f := Committed(e, plan);
    forall x
      ensures x in f.drain <==> x in f.retired
    {
      assert x in SetOf(e.retired) <==> x in e.retired;
      assert x in SetOf(plan.revived) <==> x in plan.revived;
    }
  }

  /** Whose token `t` is after the plan: an instance that drained before, or a retiring one. */
  lemma DrainTokens(e: Engine, plan: Plan)
    requires InstancesOk(e) && PlanMoves(e, plan) && DrainsOk(e)
    ensures var f := Committed(e, plan);
            forall x | x in f.drain :: f.drain[x] < f.nextToken && f.drain[x] !in f.cancelled && Drain(x, f.drain[x]) in f.tasks
  {
    hide InstancesOk, PlanMoves, WithTokens;
    CommitTokens(e, plan);
    var f := Committed(e, plan);
    forall x | x in f.drain
      ensures f.drain[x] < f.nextToken && f.drain[x] !in f.cancelled && Drain(x, f.drain[x]) in f.tasks
    {
      if x in plan.retiring {
        var k :| 0 <= k < |plan.retiring| && plan.retiring[k] == x;
        assert Drain(plan.retiring[k], e.nextToken + k) in Started(plan.retiring, e.nextToken);
      } else {
        assert x in e.drain && f.drain[x] == e.drain[x];
      }
    }
  }

  lemma DrainsApart(e: Engine, plan: Plan)
    requires InstancesOk(e) && PlanMoves(e, plan) && DrainsOk(e)
    ensures var f := Committed(e, plan);
            forall x, y | x in f.drain && y in f.drain && f.drain[x] == f.drain[y] :: x == y
  {
    hide InstancesOk, PlanMoves, WithTokens, TokensOf, Started, Without;
    CommitTokens(e, plan);
    var f := Committed(e, plan);
    forall x | x in f.drain
      ensures x in plan.retiring <==> f.drain[x] >= e.nextToken
      ensures x in plan.retiring ==> f.drain[x] < f.nextToken && x == plan.retiring[f.drain[x] - e.nextToken]
    {
      if x in plan.retiring {
        var k :| 0 <= k < |plan.retiring| && plan.retiring[k] == x;
      }
    }
  }

  lemma DrainTasks(e: Engine, plan: Plan)
    requires InstancesOk(e) && PlanMoves(e, plan) && DrainsOk(e)
    ensures var f := Committed(e, plan);
            && (forall d | d in f.tasks :: d.token < f.nextToken)
            && (forall t | t in f.cancelled :: t < f.nextToken)
            && (forall d | d in f.tasks && d.token !in f.cancelled :: (d.slot in f.drain && f.drain[d.slot] == d.token) || d.slot.id in f.closed)
  {
    hide InstancesOk, PlanMoves, WithTokens, Without;
    CommitTokens(e, plan);
    var f, revived := Committed(e, plan), SetOf(plan.revived);
    forall d | d in f.tasks
      ensures d.token < f.nextToken
      ensures d.token !in f.cancelled ==> (d.slot in f.drain && f.drain[d.slot] == d.token) || d.slot.id in f.closed
    {
      if d in Started(plan.retiring, e.nextToken) {
        var k :| 0 <= k < |plan.retiring| && d == Drain(plan.retiring[k], e.nextToken + k);
        assert f.drain[plan.retiring[k]] == e.nextToken + k;
      } else if d.token !in f.cancelled && d.slot.id !in e.closed {
        assert d.slot in e.drain && e.drain[d.slot] == d.token;
        assert d.slot in revived ==> d.token in TokensOf(e.drain, revived);
      }
    }
  }

  lemma RetireKeepsDrains(e: Engine, d: Drain)
    requires DrainsOk(e)
    ensures DrainsOk(Retired(e, d))
  {
    hide Without;
    var f := Retired(e, d);
    if f != e {
      forall x
        ensures x in f.drain <==> x in SetOf(f.retired)
      {
        assert x in SetOf(e.retired) <==> x in e.retired;
      }
      assert f.drain.Keys == SetOf(f.retired);
    }
  }

  // ---- Source ids

  /** The bot of id `id` is the one the id was given to, and no bot has two ids. */
  ghost predicate SourcesOk(st: EngineState) {
    && |st.sources| == |st.sourceNames|
    && (forall id :: 0 <= id < |st.sources| && st.sources[id].Some? ==> st.sources[id].value == Source(id, st.sourceNames[id]))
    && (forall a, b | 0 <= a < |st.sources| && 0 <= b < |st.sources| && st.sources[a].Some? && st.sources[b].Some? ::
      st.sources[a].value.name == st.sources[b].value.name ==> a == b)
  }

  ghost predicate IdsOk(bots: seq<string>, sources: seq<Option<Source>>, names: seq<string>, ids: Ids) {
    && |ids.bots| == |bots| && names <= ids.names
    && (forall k :: 0 <= k < |bots| ==> ids.bots[k].name == bots[k] && ids.bots[k].id < |ids.names| && ids.names[ids.bots[k].id] == bots[k])
    && (forall k :: 0 <= k < |bots| ==>
      var kept := SourceNamed(sources, bots[k]);
      if kept.Some? then ids.bots[k].id == kept.value.id else ids.bots[k].id >= |names|)
  }

  lemma {:induction false} AssignOk(bots: seq<string>, st: EngineState)
    requires SourcesOk(st) && Assign(bots, st.sources, st.sourceNames).Ok?
    ensures IdsOk(bots, st.sources, st.sourceNames, Assign(bots, st.sources, st.sourceNames).value)
  {
    hide IdsOk, SourcesOk;
    if bots == [] {
      NoIds(st);
    } else {
      var rest := bots[..|bots| - 1];
      AssignOk(rest, st);
      AssignOneOk(bots, st, Assign(rest, st.sources, st.sourceNames).value);
    }
  }

  lemma NoIds(st: EngineState)
    ensures IdsOk([], st.sources, st.sourceNames, Ids([], st.sourceNames))
  {
  }

  lemma AssignOneOk(bots: seq<string>, st: EngineState, ids: Ids)
    requires bots != [] && SourcesOk(st) && IdsOk(bots[..|bots| - 1], st.sources, st.sourceNames, ids)
    ensures var last := bots[|bots| - 1];
            var kept := SourceNamed(st.sources, last);
            var next := if kept.Some? then ids.(bots := ids.bots + [Source(kept.value.id, last)])
                        else Ids(ids.bots + [Source(|ids.names|, last)], ids.names + [last]);
            IdsOk(bots, st.sources, st.sourceNames, next)
  {
    var rest, last := bots[..|bots| - 1], bots[|bots| - 1];
    assert bots == rest + [last];
    var kept := SourceNamed(st.sources, last);
    if kept.Some? {
      var id :| 0 <= id < |st.sources| && st.sources[id] == kept;
    }
    assert forall k :: 0 <= k < |rest| ==> bots[k] == rest[k];
  }

  lemma {:induction false} PlaceOk(bots: seq<Source>, n: nat)
    requires forall k :: 0 <= k < |bots| ==> bots[k].id < n
    requires forall i, j :: 0 <= i < j < |bots| ==> bots[i].id != bots[j].id
    ensures forall k :: 0 <= k < |bots| ==> Place(bots, n)[bots[k].id] == Some(bots[k])
    ensures forall id :: 0 <= id < n && Place(bots, n)[id].Some? ==> Place(bots, n)[id].value in bots && Place(bots, n)[id].value.id == id
  {
    if bots != [] {
      var rest, last := bots[..|bots| - 1], bots[|bots| - 1];
      PlaceOk(rest, n);
      assert bots == rest + [last];
    }
  }

  /** A reload keeps the id of every bot it keeps, and gives new bots ids never used. */
  lemma ReloadKeepsSources(cfg: Config, st: EngineState, ids: Ids)
    requires ValidConfig(cfg) && SourcesOk(st) && Assign(cfg.bots, st.sources, st.sourceNames) == Ok(ids)
    ensures var after := EngineState(0, [], Place(ids.bots, |ids.names|), ids.names);
            && SourcesOk(after) && st.sourceNames <= after.sourceNames
            && forall k :: 0 <= k < |cfg.bots| ==>
                 var found, kept := SourceNamed(after.sources, cfg.bots[k]), SourceNamed(st.sources, cfg.bots[k]);
                 found.Some? && (if kept.Some? then found.value.id == kept.value.id else found.value.id >= |st.sourceNames|)
  {
    hide Assign, Place;
    AssignOk(cfg.bots, st);
    IdsApart(cfg.bots, st, ids);
    PlaceOk(ids.bots, |ids.names|);
    var placed := Place(ids.bots, |ids.names|);
    PlacedSources(cfg.bots, ids, placed);
    forall k | 0 <= k < |cfg.bots|
      ensures SourceNamed(placed, cfg.bots[k]) == Some(ids.bots[k])
    {
      FoundPlaced(cfg.bots, ids, placed, k);
    }
  }

  ghost predicate IsPlaced(bots: seq<string>, ids: Ids, placed: seq<Option<Source>>) {
    && |ids.bots| == |bots| && |placed| == |ids.names|
    && (forall i, j :: 0 <= i < j < |bots| ==> bots[i] != bots[j])
    && (forall k :: 0 <= k < |bots| ==> ids.bots[k].name == bots[k] && ids.bots[k].id < |ids.names| && ids.names[ids.bots[k].id] == bots[k])
    && (forall k :: 0 <= k < |bots| ==> placed[ids.bots[k].id] == Some(ids.bots[k]))
    && (forall id :: 0 <= id < |placed| && placed[id].Some? ==> placed[id].value in ids.bots && placed[id].value.id == id)
  }

  lemma PlacedSources(bots: seq<string>, ids: Ids, placed: seq<Option<Source>>)
    requires IsPlaced(bots, ids, placed)
    ensures SourcesOk(EngineState(0, [], placed, ids.names))
  {
    forall id | 0 <= id < |placed| && placed[id].Some?
      ensures placed[id].value == Source(id, ids.names[id])
    {
      var k :| 0 <= k < |ids.bots| && ids.bots[k] == placed[id].value;
    }
    forall a, b | 0 <= a < |placed| && 0 <= b < |placed| && placed[a].Some? && placed[b].Some? && placed[a].value.name == placed[b].value.name
      ensures a == b
    {
      var i :| 0 <= i < |ids.bots| && ids.bots[i] == placed[a].value;
      var j :| 0 <= j < |ids.bots| && ids.bots[j] == placed[b].value;
      assert i == j;
    }
  }

  lemma FoundPlaced(bots: seq<string>, ids: Ids, placed: seq<Option<Source>>, k: nat)
    requires IsPlaced(bots, ids, placed) && k < |bots|
    ensures SourceNamed(placed, bots[k]) == Some(ids.bots[k])
  {
    assert placed[ids.bots[k].id] == Some(ids.bots[k]);
    var found := SourceNamed(placed, bots[k]);
    var j :| 0 <= j < |placed| && placed[j] == found;
    var i :| 0 <= i < |ids.bots| && ids.bots[i] == found.value;
    assert i == k;
  }

  /** No two bots of a config get the same id. */
  lemma {:induction false} IdsApart(bots: seq<string>, st: EngineState, ids: Ids)
    requires (forall i, j :: 0 <= i < j < |bots| ==> bots[i] != bots[j])
    requires SourcesOk(st) && Assign(bots, st.sources, st.sourceNames) == Ok(ids) && IdsOk(bots, st.sources, st.sourceNames, ids)
    ensures forall i, j :: 0 <= i < j < |bots| ==> ids.bots[i].id != ids.bots[j].id
  {
  }

  // ---- Every sequence of reloads and drain endings

  datatype Event =
    | Reload(cfg: Config, rulesCompile: bool)
    | EndDrain(drain: Drain)

  ghost predicate Legal(e: Engine, ev: Event) {
    match ev
    case Reload(cfg, _) => ValidConfig(cfg)
    case EndDrain(d) => d in e.tasks
  }

  function Next(e: Engine, ev: Event): Engine {
    match ev
    case Reload(cfg, rulesCompile) =>
      var plan := PlanFor(cfg, Some(e.state), e.retired, e.nextId, rulesCompile);
      if plan.Ok? then Committed(e, plan.value) else e
    case EndDrain(d) => Retired(e, d)
  }

  ghost predicate EngineOk(e: Engine) {
    InstancesOk(e) && DrainsOk(e) && SourcesOk(e.state)
  }

  lemma PlanSourcesOnly(a: EngineState, b: EngineState)
    requires a.sources == b.sources && a.sourceNames == b.sourceNames
    ensures SourcesOk(a) <==> SourcesOk(b)
  {
  }

  lemma StepKeepsEngine(e: Engine, ev: Event)
    requires EngineOk(e) && Legal(e, ev)
    ensures EngineOk(Next(e, ev)) && e.state.sourceNames <= Next(e, ev).state.sourceNames
  {
    hide InstancesOk, DrainsOk, SourcesOk, Retired, Committed, Choose, Assign, Place;
    match ev {
      case EndDrain(d) =>
        RetireKeepsInstances(e, d);
        RetireKeepsDrains(e, d);
        RetireKeepsState(e, d);
      case Reload(cfg, rulesCompile) =>
        var plan := PlanFor(cfg, Some(e.state), e.retired, e.nextId, rulesCompile);
        if plan.Ok? {
          var ids := Assign(cfg.bots, e.state.sources, e.state.sourceNames).value;
          ReloadKeepsSources(cfg, e.state, ids);
          PlanSourcesOnly(plan.value.state, EngineState(0, [], Place(ids.bots, |ids.names|), ids.names));
          DistinctConsumers(cfg);
          PlanMovesOk(cfg, e, Choose(cfg.consumers, e.state.targets, e.retired, e.nextId), plan.value);
          CommitKeepsInstances(e, plan.value);
          CommitKeepsDrains(e, plan.value);
          CommitSetsState(e, plan.value);
        }
    }
  }

  lemma DistinctConsumers(cfg: Config)
    requires ValidConfig(cfg)
    ensures ConsumersDistinct(cfg.consumers)
  {
  }

  lemma RetireKeepsState(e: Engine, d: Drain)
    ensures Retired(e, d).state == e.state
  {
  }

  lemma CommitSetsState(e: Engine, plan: Plan)
    ensures Committed(e, plan).state == plan.state
  {
  }

  ghost predicate LegalRun(e: Engine, events: seq<Event>)
    decreases |events|
  {
    events != [] ==> Legal(e, events[0]) && LegalRun(Next(e, events[0]), events[1..])
  }

  function RunTo(e: Engine, events: seq<Event>): Engine
    decreases |events|
  {
    if events == [] then e else RunTo(Next(e, events[0]), events[1..])
  }

  lemma EmptyEngineOk()
    ensures EngineOk(NoEngine)
  {
  }

  lemma {:induction false} RunKeepsEngine(e: Engine, events: seq<Event>)
    requires EngineOk(e) && LegalRun(e, events)
    ensures EngineOk(RunTo(e, events)) && e.state.sourceNames <= RunTo(e, events).state.sourceNames
    decreases |events|
  {
    hide EngineOk, Next, Legal;
    if events != [] {
      StepKeepsEngine(e, events[0]);
      RunKeepsEngine(Next(e, events[0]), events[1..]);
    }
  }

  /**
   Over every sequence of reloads and drain endings: an instance not closed is
   current or draining and not both, and at most one of a name and mode exists.
   */
  lemma OneOpenInstancePerConsumer(events: seq<Event>, id: nat)
    requires LegalRun(NoEngine, events)
    ensures var e := RunTo(NoEngine, events);
            && (id < e.nextId && id !in e.closed ==> exists x: Instance :: x.id == id && ((x in e.state.targets && x !in e.retired) || (x in e.retired && x !in e.state.targets)))
            && (forall x, y | Held(e, x) && Held(e, y) && x.name == y.name && x.mode == y.mode :: x == y)
  {
    hide RunTo, LegalRun, DrainsOk, SourcesOk;
    EmptyEngineOk();
    RunKeepsEngine(NoEngine, events);
    var e := RunTo(NoEngine, events);
    if id < e.nextId && id !in e.closed {
      var x :| Held(e, x) && x.id == id;
      assert x in e.state.targets || x in e.retired;
    }
  }

  /** A drain that a reload called off never closes the instance it was for, and one that was not ends only its own. */
  lemma DrainsEndTheirOwn(events: seq<Event>, d: Drain)
    requires LegalRun(NoEngine, events) && d in RunTo(NoEngine, events).tasks
    ensures var e := RunTo(NoEngine, events);
            Retired(e, d) != e ==> d.slot in e.drain && e.drain[d.slot] == d.token && d.slot !in e.state.targets
  {
    hide RunTo, LegalRun, SourcesOk;
    EmptyEngineOk();
    RunKeepsEngine(NoEngine, events);
    var e := RunTo(NoEngine, events);
    assert d.slot in e.retired ==> Held(e, d.slot);
  }

  lemma {:induction false} RunSplit(e: Engine, events: seq<Event>, more: seq<Event>)
    requires LegalRun(e, events + more)
    ensures LegalRun(e, events) && LegalRun(RunTo(e, events), more) && RunTo(e, events + more) == RunTo(RunTo(e, events), more)
    decreases |events|
  {
    if events == [] {
      assert events + more == more;
    } else {
      assert (events + more)[0] == events[0] && (events + more)[1..] == events[1..] + more;
      RunSplit(Next(e, events[0]), events[1..], more);
    }
  }

  /** A source id never passes to another bot, however many reloads lie between. */
  lemma SourceIdsArePermanent(events: seq<Event>, more: seq<Event>, id: nat)
    requires LegalRun(NoEngine, events + more)
    ensures LegalRun(NoEngine, events)
    ensures var before, after := RunTo(NoEngine, events).state, RunTo(NoEngine, events + more).state;
            && before.sourceNames <= after.sourceNames
            && (id < |before.sources| && before.sources[id].Some? && id < |after.sources| && after.sources[id].Some?
                ==> before.sources[id] == after.sources[id])
  {
    hide RunTo, LegalRun, InstancesOk, DrainsOk;
    EmptyEngineOk();
    RunSplit(NoEngine, events, more);
    RunKeepsEngine(NoEngine, events);
    RunKeepsEngine(RunTo(NoEngine, events), more);
  }
}
