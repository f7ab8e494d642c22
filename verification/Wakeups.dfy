/**
  What the executor keeps whatever order its effects come in, stale wake-ups
  included. A waker can outlive its wait: a timer that registers and then finds
  its time come answers `Ready` with the waker still in a slot, and a task polled
  for one reason may leave wakers registered for another. Such a waker later puts
  on the ready queue a task that is finished, or queued already.
 */
module Wakeups {
  import opened Finite
  import opened Executor

  datatype Effect =
    | New
    | PullNext
    | Wake(id: nat)
    | Drain
    | Start
    | Linger
    | Stop(end: End)

  /** Everything that leads to a poll: queue entries, registered wakers, and the poll in progress. */
  ghost function Tokens(x: Exec): multiset<nat> {
    multiset(x.ready) + multiset(x.spawned) + multiset(x.yielders) + x.waiting
    + if x.running.Some? then multiset{x.running.value} else multiset{}
  }

  /** How many more of them there are than live tasks: the outstanding stale ones, if no task is lost. */
  ghost function Spare(x: Exec): int {
    |Tokens(x)| - |Live(x)|
  }

  /** The poll in progress registers a waker and goes on. */
  function LeaveWaker(x: Exec): Exec
    requires x.running.Some?
  {
    x.(waiting := x.waiting + multiset{x.running.value})
  }

  /** Effects in any order, with at most `limit` tasks alive and `spare` stale wake-ups outstanding. */
  ghost predicate Allowed(x: Exec, e: Effect, limit: nat, spare: nat) {
    !x.panicked &&
    match e
    case New => |Live(x)| < limit
    case PullNext => x.spawned != [] && x.running.None?
    case Wake(id) => id in x.waiting
    case Drain => x.yielders != [] && x.running.None?
    case Start => x.ready != [] && x.running.None?
    case Linger => x.running.Some? && Spare(x) < spare
    case Stop(end) => x.running.Some? && (end.Again? ==> x.running.value in x.waiting)
  }

  ghost function Apply(x: Exec, e: Effect, limit: nat, spare: nat): Exec
    requires Allowed(x, e, limit, spare)
  {
    match e
    case New => SpawnerRun(x)
    case PullNext => Pull(x)
    case Wake(id) => Fire(x, id)
    case Drain => DrainOne(x)
    case Start => StartPoll(x)
    case Linger => LeaveWaker(x)
    case Stop(end) => EndPoll(x, end)
  }

  ghost predicate Run(x: Exec, effects: seq<Effect>, limit: nat, spare: nat, x': Exec)
    decreases |effects|
  {
    if effects == [] then x' == x
    else Allowed(x, effects[0], limit, spare) && Run(Apply(x, effects[0], limit, spare), effects[1..], limit, spare, x')
  }

  /** Every live task will be polled again, or is being polled; nothing panicked or was dropped. */
  ghost predicate NoneLost(x: Exec) {
    && multiset(Live(x)) <= Tokens(x)
    && x.cached <= x.tasks
    && !x.panicked && x.dropped == 0
  }

  ghost predicate Ids(x: Exec) {
    && (forall id :: id in Live(x) ==> id < x.nextId)
    && (forall id :: id in x.spawned ==> id !in x.tasks && multiset(x.spawned)[id] == 1)
    && (x.running.Some? ==> x.running.value in x.tasks)
  }

  ghost predicate Kept(x: Exec, limit: nat, spare: nat) {
    NoneLost(x) && Ids(x) && |Live(x)| <= limit && Spare(x) <= spare
  }

  lemma TokensCount(x: Exec)
    ensures |Tokens(x)| == |x.ready| + |x.spawned| + |x.yielders| + |x.waiting| + One(x.running.Some?)
  {
  }

  lemma QueuesFit(x: Exec, limit: nat, spare: nat)
    requires Kept(x, limit, spare)
    ensures |x.ready| + |x.spawned| + |x.yielders| + |x.waiting| + One(x.running.Some?) <= |Live(x)| + spare
  {
    hide Live;
    TokensCount(x);
  }

  /** Moving a token keeps everything. */
  lemma KeptByMove(x: Exec, x': Exec, limit: nat, spare: nat)
    requires Kept(x, limit, spare) && Live(x') == Live(x) && Tokens(x') == Tokens(x) && Ids(x')
    requires x'.cached <= x'.tasks && !x'.panicked && x'.dropped == 0
    ensures Kept(x', limit, spare)
  {
    hide Live, Tokens, Ids;
  }

  lemma NotSpawned(x: Exec, id: nat)
    requires id !in Live(x)
    ensures multiset(x.spawned)[id] == 0
  {
  }

  lemma {:induction false} NewTokens(x: Exec)
    requires |x.spawned| < CAPACITY
    ensures Tokens(SpawnerRun(x)) == Tokens(x) + multiset{x.nextId}
  {
    assert multiset(x.spawned + [x.nextId]) == multiset(x.spawned) + multiset{x.nextId};
  }

  lemma {:induction false} SpawnedOnce(xs: seq<nat>, y: nat)
    requires y !in xs && forall id :: id in xs ==> multiset(xs)[id] == 1
    ensures forall id :: id in xs + [y] ==> multiset(xs + [y])[id] == 1
  {
    assert multiset(xs + [y]) == multiset(xs) + multiset{y};
  }

  lemma {:induction false} NewIds(x: Exec)
    requires Ids(x) && |x.spawned| < CAPACITY && x.nextId !in Live(x)
    ensures Ids(SpawnerRun(x)) && Live(SpawnerRun(x)) == Live(x) + {x.nextId}
  {
    LiveAfterNew(x);
    NotSpawned(x, x.nextId);
    hide Live;
    SpawnedOnce(x.spawned, x.nextId);
  }

  lemma {:induction false} NewKeeps(x: Exec, limit: nat, spare: nat)
    requires Kept(x, limit, spare) && |Live(x)| < limit && limit + spare <= CAPACITY
    ensures Kept(SpawnerRun(x), limit, spare)
  {
    hide Live, Tokens, Ids;
    QueuesFit(x, limit, spare);
    NextIsNew(x);
    NewIds(x);
    NewTokens(x);
    OneMoreLive(Live(x), Tokens(x), x.nextId);
  }

  lemma NextIsNew(x: Exec)
    requires Ids(x)
    ensures x.nextId !in Live(x)
  {
  }

  lemma OneMoreLive(live: set<nat>, tokens: multiset<nat>, id: nat)
    requires multiset(live) <= tokens && id !in live
    ensures multiset(live + {id}) <= tokens + multiset{id}
    ensures |live + {id}| == |live| + 1 && |tokens + multiset{id}| == |tokens| + 1
  {
  }

  lemma {:induction false} PullIds(x: Exec)
    requires Ids(x) && x.spawned != [] && |x.ready| < CAPACITY
    ensures Ids(Pull(x)) && Live(Pull(x)) == Live(x) && x.spawned[0] !in x.tasks
  {
    var id := x.spawned[0];
    assert id in x.spawned;
    LiveAfterPull(x);
    hide Live;
    var x' := Pull(x);
    assert x.spawned == [id] + x'.spawned;
    assert multiset(x.spawned) == multiset{id} + multiset(x'.spawned);
    forall i | i in x'.spawned ensures i in x.spawned && i != id { assert multiset(x.spawned)[id] == 1; }
  }

  lemma {:induction false} PullTokens(x: Exec)
    requires x.spawned != [] && x.spawned[0] !in x.tasks && |x.ready| < CAPACITY
    ensures Tokens(Pull(x)) == Tokens(x)
  {
    var id := x.spawned[0];
    assert x.spawned == [id] + x.spawned[1..];
    assert multiset(x.spawned) == multiset{id} + multiset(x.spawned[1..]);
    assert multiset(x.ready + [id]) == multiset(x.ready) + multiset{id};
  }

  lemma {:induction false} PullKeeps(x: Exec, limit: nat, spare: nat)
    requires Kept(x, limit, spare) && x.spawned != [] && limit + spare <= CAPACITY
    ensures Kept(Pull(x), limit, spare)
  {
    hide Live, Tokens, Ids;
    QueuesFit(x, limit, spare);
    PullIds(x);
    PullTokens(x);
    KeptByMove(x, Pull(x), limit, spare);
  }

  /** Moving ids between the other queues changes neither who lives nor which ids are in use. */
  lemma SameTable(x: Exec, x': Exec)
    requires x'.tasks == x.tasks && x'.spawned == x.spawned && x'.nextId == x.nextId
    requires x'.running == x.running || (x'.running.Some? ==> x'.running.value in x.tasks)
    ensures Live(x') == Live(x) && (Ids(x) ==> Ids(x'))
  {
  }

  lemma {:induction false} FireTokens(x: Exec, id: nat)
    requires id in x.waiting && |x.ready| < CAPACITY
    ensures Tokens(Fire(x, id)) == Tokens(x) && Live(Fire(x, id)) == Live(x) && (Ids(x) ==> Ids(Fire(x, id)))
  {
    hide Live, Ids;
    SameTable(x, Fire(x, id));
    assert x.waiting == (x.waiting - multiset{id}) + multiset{id};
    assert multiset(x.ready + [id]) == multiset(x.ready) + multiset{id};
  }

  lemma {:induction false} FireKeeps(x: Exec, limit: nat, spare: nat, id: nat)
    requires Kept(x, limit, spare) && id in x.waiting && limit + spare <= CAPACITY
    ensures Kept(Fire(x, id), limit, spare)
  {
    hide Live, Tokens, Ids;
    QueuesFit(x, limit, spare);
    FireTokens(x, id);
    KeptByMove(x, Fire(x, id), limit, spare);
  }

  lemma {:induction false} DrainTokens(x: Exec)
    requires x.yielders != [] && |x.ready| < CAPACITY
    ensures Tokens(DrainOne(x)) == Tokens(x) && Live(DrainOne(x)) == Live(x) && (Ids(x) ==> Ids(DrainOne(x)))
  {
    hide Live, Ids;
    var id := x.yielders[0];
    SameTable(x, DrainOne(x));
    assert x.yielders == [id] + x.yielders[1..];
    assert multiset(x.yielders) == multiset{id} + multiset(x.yielders[1..]);
    assert multiset(x.ready + [id]) == multiset(x.ready) + multiset{id};
  }

  lemma {:induction false} DrainKeeps(x: Exec, limit: nat, spare: nat)
    requires Kept(x, limit, spare) && x.yielders != [] && limit + spare <= CAPACITY
    ensures Kept(DrainOne(x), limit, spare)
  {
    hide Live, Tokens, Ids;
    QueuesFit(x, limit, spare);
    DrainTokens(x);
    KeptByMove(x, DrainOne(x), limit, spare);
  }

  lemma {:induction false} StartTokens(x: Exec)
    requires x.ready != [] && x.running.None?
    ensures Live(StartPoll(x)) == Live(x) && (Ids(x) ==> Ids(StartPoll(x)))
    ensures x.ready[0] in x.tasks ==> Tokens(StartPoll(x)) == Tokens(x)
    ensures x.ready[0] !in x.tasks ==> Tokens(x) == Tokens(StartPoll(x)) + multiset{x.ready[0]}
  {
    hide Live, Ids, Tokens;
    SameTable(x, StartPoll(x));
    if x.ready[0] in x.tasks { LiveStartTokens(x); } else { DeadStartTokens(x); }
  }

  lemma {:induction false} HeadToken(xs: seq<nat>)
    requires xs != []
    ensures multiset(xs) == multiset{xs[0]} + multiset(xs[1..])
  {
    assert xs == [xs[0]] + xs[1..];
  }

  lemma {:induction false} LiveStartTokens(x: Exec)
    requires x.ready != [] && x.running.None? && x.ready[0] in x.tasks
    ensures Tokens(StartPoll(x)) == Tokens(x)
  {
    HeadToken(x.ready);
  }

  lemma {:induction false} DeadStartTokens(x: Exec)
    requires x.ready != [] && x.running.None? && x.ready[0] !in x.tasks
    ensures Tokens(x) == Tokens(StartPoll(x)) + multiset{x.ready[0]}
  {
    HeadToken(x.ready);
  }

  /** A dead task's entry is nobody's only one. */
  lemma {:induction false} DeadIsNotLive(x: Exec, id: nat)
    requires Ids(x) && x.running.None? && x.ready != [] && id == x.ready[0] && id !in x.tasks && multiset(Live(x)) <= Tokens(x)
    ensures multiset(Live(x)) <= Tokens(StartPoll(x))
  {
    StartTokens(x);
    var x' := StartPoll(x);
    forall i ensures multiset(Live(x))[i] <= Tokens(x')[i] {
      if i == id && id in Live(x) {
        assert id in x.spawned && multiset(x'.spawned)[id] == 1;
      }
    }
  }

  lemma {:induction false} StartKeeps(x: Exec, limit: nat, spare: nat)
    requires Kept(x, limit, spare) && x.ready != [] && x.running.None?
    ensures Kept(StartPoll(x), limit, spare)
  {
    hide Live, Tokens, Ids;
    StartTokens(x);
    if x.ready[0] in x.tasks {
      KeptByMove(x, StartPoll(x), limit, spare);
    } else {
      DeadIsNotLive(x, x.ready[0]);
    }
  }

  lemma {:induction false} LingerKeeps(x: Exec, limit: nat, spare: nat)
    requires Kept(x, limit, spare) && x.running.Some? && Spare(x) < spare
    ensures Kept(LeaveWaker(x), limit, spare) && Spare(LeaveWaker(x)) == Spare(x) + 1
  {
    var x' := LeaveWaker(x);
    assert Live(x') == Live(x);
    hide Live;
    assert Tokens(x') == Tokens(x) + multiset{x.running.value};
  }

  lemma {:induction false} StopTokens(x: Exec, end: End)
    requires Ids(x) && x.running.Some? && |x.yielders| < CAPACITY
    ensures Ids(EndPoll(x, end)) && x.running.value in Live(x)
    ensures Live(EndPoll(x, end)) == if end.Finish? then Live(x) - {x.running.value} else Live(x)
    ensures end.Yield? || end.Wait? ==> Tokens(EndPoll(x, end)) == Tokens(x)
    ensures end.Finish? || end.Again? ==> Tokens(x) == Tokens(EndPoll(x, end)) + multiset{x.running.value}
  {
    hide Live, Ids;
    LiveAfterStop(x, end);
    var id := x.running.value;
    assert multiset(x.yielders + [id]) == multiset(x.yielders) + multiset{id};
  }

  lemma LiveAfterStop(x: Exec, end: End)
    requires Ids(x) && x.running.Some?
    ensures Live(EndPoll(x, end)) == if end.Finish? then Live(x) - {x.running.value} else Live(x)
    ensures x.running.value in Live(x) && x.running.value !in x.spawned && Ids(EndPoll(x, end))
  {
  }

  lemma {:induction false} OneFewer(live: set<nat>, tokens: multiset<nat>, id: nat)
    requires id in live && multiset(live) <= tokens + multiset{id}
    ensures multiset(live - {id}) <= tokens && |live - {id}| == |live| - 1
    ensures id in tokens ==> multiset(live) <= tokens
  {
    forall i ensures multiset(live - {id})[i] <= tokens[i] && (id in tokens ==> multiset(live)[i] <= tokens[i]) {
      assert multiset(live)[i] <= (tokens + multiset{id})[i];
    }
  }

  lemma {:induction false} StopKeeps(x: Exec, limit: nat, spare: nat, end: End)
    requires Kept(x, limit, spare) && x.running.Some? && limit + spare <= CAPACITY
    requires end.Again? ==> x.running.value in x.waiting
    ensures Kept(EndPoll(x, end), limit, spare)
  {
    hide Live, Tokens, Ids;
    QueuesFit(x, limit, spare);
    StopTokens(x, end);
    if end.Yield? || end.Wait? {
      KeptByMove(x, EndPoll(x, end), limit, spare);
    } else {
      OneFewer(Live(x), Tokens(EndPoll(x, end)), x.running.value);
      StillWaiting(EndPoll(x, end), x.running.value);
    }
  }

  lemma StillWaiting(x: Exec, id: nat)
    ensures id in x.waiting ==> id in Tokens(x)
  {
  }

  lemma {:induction false} ApplyKeeps(x: Exec, e: Effect, limit: nat, spare: nat)
    requires Kept(x, limit, spare) && limit + spare <= CAPACITY && Allowed(x, e, limit, spare)
    ensures Kept(Apply(x, e, limit, spare), limit, spare)
  {
    hide Kept;
    match e
    case New => NewKeeps(x, limit, spare);
    case PullNext => PullKeeps(x, limit, spare);
    case Wake(id) => FireKeeps(x, limit, spare, id);
    case Drain => DrainKeeps(x, limit, spare);
    case Start => StartKeeps(x, limit, spare);
    case Linger => LingerKeeps(x, limit, spare);
    case Stop(end) => StopKeeps(x, limit, spare, end);
  }

  /**
    While live tasks and stale wake-ups together number at most 100, no live task
    is ever without a queue entry, a registered waker or a poll in progress, and
    no push fails, whatever the order of effects.
   */
  lemma {:induction false} NoTaskLost(x: Exec, effects: seq<Effect>, limit: nat, spare: nat, x': Exec)
    requires Kept(x, limit, spare) && limit + spare <= CAPACITY && Run(x, effects, limit, spare, x')
    ensures Kept(x', limit, spare)
    decreases |effects|
  {
    hide Kept, Allowed;
    if effects != [] {
      ApplyKeeps(x, effects[0], limit, spare);
      NoTaskLost(Apply(x, effects[0], limit, spare), effects[1..], limit, spare, x');
    }
  }

  lemma EmptyKept(limit: nat, spare: nat)
    ensures Kept(EMPTY, limit, spare)
  {
    assert Live(EMPTY) == {};
    assert Tokens(EMPTY) == multiset{};
  }

  /** Without stale wake-ups every live task is in exactly one place, and a dead one in none. */
  lemma {:induction false} OnePlaceEach(effects: seq<Effect>, limit: nat, x': Exec)
    requires limit <= CAPACITY && Run(EMPTY, effects, limit, 0, x')
    ensures Sound(x', limit)
  {
    EmptyKept(limit, 0);
    NoTaskLost(EMPTY, effects, limit, 0, x');
    TokensAreLive(x', limit);
    forall id ensures Places(x', id) == One(id in Live(x')) {
      PlacesAreTokens(x', id);
    }
  }

  lemma {:induction false} TokensAreLive(x: Exec, limit: nat)
    requires Kept(x, limit, 0)
    ensures Tokens(x) == multiset(Live(x))
  {
    hide Live, Tokens;
    var extra := Tokens(x) - multiset(Live(x));
    assert Tokens(x) == multiset(Live(x)) + extra;
    assert |extra| == 0;
  }

  lemma PlacesAreTokens(x: Exec, id: nat)
    ensures Places(x, id) == Tokens(x)[id]
  {
  }

  /** A stale wake-up of a finished task costs its queue entry and nothing else. */
  lemma {:induction false} DeadWakeIsSkipped(x: Exec, limit: nat, spare: nat)
    requires Kept(x, limit, spare) && x.ready != [] && x.running.None? && x.ready[0] !in Live(x)
    ensures StartPoll(x) == x.(ready := x.ready[1..])
    ensures Spare(StartPoll(x)) == Spare(x) - 1
  {
    var x', id := StartPoll(x), x.ready[0];
    assert Live(x') == Live(x);
    TokensCount(x);
    TokensCount(x');
  }

  // ---- One round, with arrivals ----

  /** What can happen while `run_ready_tasks` runs: polls, spawning, and wake-ups by tasks, by ticks, and stale ones. */
  predicate InRound(e: Effect) {
    e.Start? || e.Stop? || e.Linger? || e.New? || e.Wake?
  }

  /** The ids pushed on the ready queue, in order. */
  function Arrivals(effects: seq<Effect>): seq<nat> {
    if effects == [] then []
    else (if effects[0].Wake? then [effects[0].id] else []) + Arrivals(effects[1..])
  }

  /** The ids popped from it, in order; a live one is polled, a dead one skipped. */
  ghost function Popped(x: Exec, effects: seq<Effect>, limit: nat, spare: nat, x': Exec): seq<nat>
    requires Run(x, effects, limit, spare, x')
    decreases |effects|
  {
    if effects == [] then []
    else
      (if effects[0].Start? then [x.ready[0]] else [])
      + Popped(Apply(x, effects[0], limit, spare), effects[1..], limit, spare, x')
  }

  /** What one effect of a round does to the ready queue. */
  lemma {:induction false} EffectOnQueue(x: Exec, e: Effect, limit: nat, spare: nat)
    requires Kept(x, limit, spare) && limit + spare <= CAPACITY && Allowed(x, e, limit, spare) && InRound(e)
    ensures Apply(x, e, limit, spare).ready
            == match e { case Start => x.ready[1..] case Wake(id) => x.ready + [id] case _ => x.ready }
  {
    hide Live, Tokens, Ids, Spare;
    if e.Wake? { QueuesFit(x, limit, spare); }
  }

  /**
    However ticks and stale wake-ups fall into a round, it pops the ids that were
    ready and then those pushed meanwhile, in that order: as many as it pops.
   */
  lemma {:induction false} RoundIsFifo(x: Exec, effects: seq<Effect>, limit: nat, spare: nat, x': Exec)
    requires Kept(x, limit, spare) && limit + spare <= CAPACITY && Run(x, effects, limit, spare, x')
    requires forall e :: e in effects ==> InRound(e)
    ensures x.ready + Arrivals(effects) == Popped(x, effects, limit, spare, x') + x'.ready
    decreases |effects|
  {
    hide Kept, Allowed, Apply;
    if effects == [] {
      assert x.ready + [] == [] + x.ready;
    } else {
      var e, rest := effects[0], effects[1..];
      var x1 := Apply(x, e, limit, spare);
      ApplyKeeps(x, e, limit, spare);
      EffectOnQueue(x, e, limit, spare);
      RoundIsFifo(x1, rest, limit, spare, x');
      if e.Start? { StartsFromQueue(x, limit, spare); }
      QueueShift(x.ready, x1.ready, Arrivals(rest), Popped(x1, rest, limit, spare, x'), x'.ready, e);
    }
  }

  lemma StartsFromQueue(x: Exec, limit: nat, spare: nat)
    requires Allowed(x, Start, limit, spare)
    ensures x.ready != []
  {
  }

  lemma QueueShift(ready: seq<nat>, ready1: seq<nat>, arrivals: seq<nat>, popped: seq<nat>, left: seq<nat>, e: Effect)
    requires e.Start? ==> ready != []
    requires ready1 == match e { case Start => ready[1..] case Wake(id) => ready + [id] case _ => ready }
    requires ready1 + arrivals == popped + left
    ensures ready + ((if e.Wake? then [e.id] else []) + arrivals) == (if e.Start? then [ready[0]] else []) + popped + left
  {
    assert [] + arrivals == arrivals && [] + popped == popped;
    if e.Start? {
      assert ready == [ready[0]] + ready1;
      assert [ready[0]] + popped + left == [ready[0]] + (popped + left);
      assert [ready[0]] + (ready1 + arrivals) == ready + arrivals;
    } else if e.Wake? {
      assert ready + ([e.id] + arrivals) == ready1 + arrivals;
    }
  }

  /** A finished round pops every id exactly as often as it was ready or pushed. */
  lemma {:induction false} RoundPopsAll(x: Exec, effects: seq<Effect>, limit: nat, spare: nat, x': Exec, id: nat)
    requires Kept(x, limit, spare) && limit + spare <= CAPACITY && Run(x, effects, limit, spare, x')
    requires (forall e :: e in effects ==> InRound(e)) && x'.ready == []
    ensures |Popped(x, effects, limit, spare, x')| == |x.ready| + |Arrivals(effects)|
    ensures multiset(Popped(x, effects, limit, spare, x'))[id] == multiset(x.ready)[id] + multiset(Arrivals(effects))[id]
  {
    hide Kept, Run;
    RoundIsFifo(x, effects, limit, spare, x');
    var popped := Popped(x, effects, limit, spare, x');
    assert popped == x.ready + Arrivals(effects);
  }

  // ---- The bound is exact ----

  ghost predicate AlwaysKept(limit: nat, spare: nat) {
    forall effects, x' :: Run(EMPTY, effects, limit, spare, x') ==> NoneLost(x')
  }

  lemma {:induction false} RunsJoin(x: Exec, first: seq<Effect>, mid: Exec, second: seq<Effect>, x': Exec, limit: nat, spare: nat)
    requires Run(x, first, limit, spare, mid) && Run(mid, second, limit, spare, x')
    ensures Run(x, first + second, limit, spare, x')
    decreases |first|
  {
    hide Allowed, Apply;
    if first == [] {
      assert first + second == second;
    } else {
      RunsJoin(Apply(x, first[0], limit, spare), first[1..], mid, second, x', limit, spare);
      assert (first + second)[1..] == first[1..] + second;
    }
  }

  lemma {:induction false} OneStep(x: Exec, effects: seq<Effect>, mid: Exec, e: Effect, limit: nat, spare: nat)
    requires Run(x, effects, limit, spare, mid) && Allowed(mid, e, limit, spare)
    ensures Run(x, effects + [e], limit, spare, Apply(mid, e, limit, spare))
  {
    hide Allowed, Apply;
    var x' := Apply(mid, e, limit, spare);
    assert [e][1..] == [] && Run(x', [], limit, spare, x');
    assert Run(mid, [e], limit, spare, x');
    RunsJoin(x, effects, mid, [e], x', limit, spare);
  }

  lemma {:induction false} SpawnMany(n: nat, limit: nat, spare: nat) returns (effects: seq<Effect>, x': Exec)
    requires n <= limit && n <= CAPACITY
    ensures Run(EMPTY, effects, limit, spare, x') && |Live(x')| == n
    ensures x' == EMPTY.(spawned := x'.spawned, nextId := n) && |x'.spawned| == n && Ids(x')
  {
    if n == 0 {
      EmptyKept(limit, spare);
      effects, x' := [], EMPTY;
      assert Live(EMPTY) == {};
    } else {
      var before, mid := SpawnMany(n - 1, limit, spare);
      OneStep(EMPTY, before, mid, New, limit, spare);
      effects, x' := before + [New], SpawnerRun(mid);
      LiveAfterNew(mid);
      NextIsNew(mid);
      hide Live, Ids, Run;
      NewIds(mid);
    }
  }

  lemma {:induction false} PullMany(x: Exec, limit: nat, spare: nat) returns (effects: seq<Effect>, x': Exec)
    requires Ids(x) && !x.panicked && x.running.None? && |x.ready| + |x.spawned| <= CAPACITY
    requires forall id :: id in x.ready ==> id in x.tasks
    ensures Run(x, effects, limit, spare, x')
    ensures x' == x.(spawned := [], ready := x'.ready, tasks := x'.tasks) && |x'.ready| == |x.ready| + |x.spawned|
    ensures Live(x') == Live(x) && forall id :: id in x'.ready ==> id in x'.tasks
    decreases |x.spawned|
  {
    if x.spawned == [] {
      effects, x' := [], x;
    } else {
      var x1 := Pull(x);
      PullIds(x);
      var rest;
      rest, x' := PullMany(x1, limit, spare);
      effects := [PullNext] + rest;
      assert effects[1..] == rest;
    }
  }

  lemma {:induction false} LingerMany(x: Exec, n: nat, limit: nat, spare: nat) returns (effects: seq<Effect>, x': Exec)
    requires !x.panicked && x.running.Some? && Spare(x) + n <= spare
    ensures Run(x, effects, limit, spare, x')
    ensures x' == x.(waiting := x.waiting[x.running.value := x.waiting[x.running.value] + n])
    decreases n
  {
    if n == 0 {
      effects, x' := [], x;
    } else {
      var x1 := LeaveWaker(x);
      assert Live(x1) == Live(x);
      TokensCount(x);
      TokensCount(x1);
      var rest;
      rest, x' := LingerMany(x1, n - 1, limit, spare);
      effects := [Linger] + rest;
      assert effects[1..] == rest;
    }
  }

  lemma {:induction false} WakeMany(x: Exec, id: nat, n: nat, limit: nat, spare: nat) returns (effects: seq<Effect>, x': Exec)
    requires !x.panicked && x.waiting[id] >= n && |x.ready| + n <= CAPACITY
    ensures Run(x, effects, limit, spare, x')
    ensures !x'.panicked && |x'.ready| == |x.ready| + n && x'.waiting[id] == x.waiting[id] - n
    decreases n
  {
    if n == 0 {
      effects, x' := [], x;
    } else {
      var rest;
      rest, x' := WakeMany(Fire(x, id), id, n - 1, limit, spare);
      effects := [Wake(id)] + rest;
      assert effects[1..] == rest;
    }
  }

  /** `limit` queued tasks, the first of which has left so many wakers behind that the ready queue cannot hold all. */
  lemma {:induction false} StaleWakers(limit: nat, spare: nat) returns (effects: seq<Effect>, x': Exec, id: nat)
    requires 1 <= limit <= CAPACITY < limit + spare
    ensures Run(EMPTY, effects, limit, spare, x') && !x'.panicked
    ensures |x'.ready| == limit - 1 && x'.waiting[id] == CAPACITY + 2 - limit
  {
    hide Run, Live;
    var m := CAPACITY + 1 - limit;
    var e1, x1 := SpawnMany(limit, limit, spare);
    var e2, x2 := PullMany(x1, limit, spare);
    var x3 := StartPoll(x2);
    id := x2.ready[0];
    assert id in x2.ready && id in x2.tasks;
    SpareOfQueued(x2, x3);
    var e4, x4 := LingerMany(x3, m, limit, spare);
    x' := EndPoll(x4, Wait);
    hide Spare;
    RunsJoin(EMPTY, e1, x1, e2, x2, limit, spare);
    OneStep(EMPTY, e1 + e2, x2, Start, limit, spare);
    RunsJoin(EMPTY, e1 + e2 + [Start], x3, e4, x4, limit, spare);
    OneStep(EMPTY, e1 + e2 + [Start] + e4, x4, Stop(Wait), limit, spare);
    effects := e1 + e2 + [Start] + e4 + [Stop(Wait)];
  }

  /** All those wakers firing. */
  lemma {:induction false} StaleWakesPanic(limit: nat, spare: nat) returns (effects: seq<Effect>, x': Exec)
    requires 1 <= limit <= CAPACITY < limit + spare
    ensures Run(EMPTY, effects, limit, spare, x') && x'.panicked
  {
    hide Run, Live, Spare;
    var before, x, id := StaleWakers(limit, spare);
    var wakes, x1 := WakeMany(x, id, CAPACITY + 1 - limit, limit, spare);
    RunsJoin(EMPTY, before, x, wakes, x1, limit, spare);
    OneStep(EMPTY, before + wakes, x1, Wake(id), limit, spare);
    effects, x' := before + wakes + [Wake(id)], Fire(x1, id);
  }

  lemma {:induction false} SpareOfQueued(x: Exec, x': Exec)
    requires x.ready != [] && x.spawned == [] && x.yielders == [] && x.waiting == multiset{} && x.running.None?
    requires |x.ready| == |Live(x)| && x.ready[0] in x.tasks && x' == StartPoll(x)
    ensures Spare(x') == 0
  {
    assert Live(x') == Live(x);
    TokensCount(x');
  }

  /** No task is lost in any run exactly when live tasks and stale wake-ups together number at most 100. */
  lemma {:induction false} CapacityIsExact(limit: nat, spare: nat)
    ensures AlwaysKept(limit, spare) <==> limit == 0 || limit + spare <= CAPACITY
  {
    hide Run, Kept;
    if limit == 0 {
      forall effects, x' | Run(EMPTY, effects, limit, spare, x') ensures NoneLost(x') { NothingRuns(effects, spare, x'); }
    } else if limit + spare <= CAPACITY {
      forall effects, x' | Run(EMPTY, effects, limit, spare, x') ensures NoneLost(x') {
        EmptyKept(limit, spare);
        NoTaskLost(EMPTY, effects, limit, spare, x');
        KeptIsNoneLost(x', limit, spare);
      }
    } else if limit <= CAPACITY {
      var effects, x' := StaleWakesPanic(limit, spare);
      assert !NoneLost(x');
    } else {
      var effects, x' := SpawnMany(CAPACITY, limit, spare);
      OneStep(EMPTY, effects, x', New, limit, spare);
      assert !NoneLost(SpawnerRun(x'));
    }
  }

  lemma KeptIsNoneLost(x: Exec, limit: nat, spare: nat)
    requires Kept(x, limit, spare)
    ensures NoneLost(x)
  {
  }

  lemma {:induction false} NothingRuns(effects: seq<Effect>, spare: nat, x': Exec)
    requires Run(EMPTY, effects, 0, spare, x')
    ensures NoneLost(x')
  {
    EmptyKept(0, spare);
    assert forall e :: !Allowed(EMPTY, e, 0, spare);
  }
}
