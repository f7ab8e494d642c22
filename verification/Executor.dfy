/**
  The cooperative executor of bootloader/kernel/src/task/executor.rs and its wake
  sources. `Exec` is the value of the executor's queues, its task table and
  waker cache, the global yield queue and the wakers registered outside; a task is
  its id. All queues hold at most `CAPACITY` entries: a push to the ready queue that
  does not fit panics, a push to the spawn or yield queue that does not fit is
  dropped.
 */
module Executor {
  import opened Finite
  import opened Wrappers

  const CAPACITY: nat := 100

  datatype Exec = Exec(
    tasks: set<nat>,
    ready: seq<nat>,
    spawned: seq<nat>,
    cached: set<nat>,
    yielders: seq<nat>,
    waiting: multiset<nat>,
    running: Option<nat>,
    nextId: nat,
    dropped: nat,
    panicked: bool)

  /**
    How a poll ends: the future is ready, or it is pending and registered its
    waker in one place; `Again` if that replaced a waker of its own.
   */
  datatype End = Finish | Yield | Wait | Again

  const EMPTY: Exec := Exec({}, [], [], {}, [], multiset{}, None, 0, 0, false)

  // ---- Single effects ----

  function PushReady(x: Exec, id: nat): Exec {
    if |x.ready| < CAPACITY then x.(ready := x.ready + [id]) else x.(panicked := true)
  }

  /** `Spawner::run` */
  function SpawnerRun(x: Exec): Exec {
    var x1 := x.(nextId := x.nextId + 1);
    if |x.spawned| < CAPACITY then x1.(spawned := x.spawned + [x.nextId]) else x1.(dropped := x.dropped + 1)
  }

  /** `Executor::spawn` on the next spawned task. */
  function Pull(x: Exec): Exec
    requires x.spawned != []
  {
    var id := x.spawned[0];
    if id in x.tasks then x.(panicked := true)
    else PushReady(x.(spawned := x.spawned[1..], tasks := x.tasks + {id}), id)
  }

  /** A registered waker fires. */
  function Fire(x: Exec, id: nat): Exec {
    PushReady(x.(waiting := x.waiting - multiset{id}), id)
  }

  function DrainOne(x: Exec): Exec
    requires x.yielders != []
  {
    PushReady(x.(yielders := x.yielders[1..]), x.yielders[0])
  }

  /** The head of the ready queue is popped; a task that no longer exists is skipped. */
  function StartPoll(x: Exec): Exec
    requires x.ready != []
  {
    var id := x.ready[0];
    var x1 := x.(ready := x.ready[1..]);
    if id in x.tasks then x1.(running := Some(id), cached := x.cached + {id}) else x1
  }

  function EndPoll(x: Exec, end: End): Exec
    requires x.running.Some?
  {
    var id, x1 := x.running.value, x.(running := None);
    match end
    case Finish => x1.(tasks := x.tasks - {id}, cached := x.cached - {id})
    case Yield => if |x.yielders| < CAPACITY then x1.(yielders := x.yielders + [id]) else x1.(dropped := x.dropped + 1)
    case Wait => x1.(waiting := x.waiting + multiset{id})
    case Again => x1
  }

  // ---- Every live task in one place ----

  /** Live tasks: in the table, or still in the spawn queue. */
  ghost function Live(x: Exec): set<nat> {
    x.tasks + set id | id in x.spawned
  }

  /** The number of places a task is in. */
  ghost function Places(x: Exec, id: nat): nat {
    multiset(x.ready)[id] + multiset(x.spawned)[id] + multiset(x.yielders)[id]
    + x.waiting[id] + One(x.running == Some(id))
  }

  ghost predicate Placed(x: Exec) {
    && (forall id :: Places(x, id) == One(id in Live(x)))
    && (forall id :: id in x.spawned ==> id !in x.tasks)
    && (forall id :: id in Live(x) ==> id < x.nextId)
    && x.cached <= x.tasks
    && !x.panicked && x.dropped == 0
  }

  lemma {:induction false} CountedOnceFits(xs: seq<nat>, s: set<nat>)
    requires forall id :: multiset(xs)[id] <= One(id in s)
    ensures |xs| <= |s|
  {
    if xs != [] {
      var last := |xs| - 1;
      var rest := xs[..last];
      assert xs == rest + [xs[last]];
      assert multiset(xs) == multiset(rest) + multiset{xs[last]};
      forall id ensures multiset(rest)[id] <= One(id in s - {xs[last]}) {
        assert multiset(xs)[id] == multiset(rest)[id] + multiset{xs[last]}[id];
      }
      CountedOnceFits(rest, s - {xs[last]});
    }
  }

  /** While a live task is outside a queue, the queue has room for it. */
  lemma {:induction false} QueueHasRoom(xs: seq<nat>, live: set<nat>, id: nat)
    requires forall i :: multiset(xs)[i] <= One(i in live)
    requires id in live && multiset(xs)[id] == 0 && |live| <= CAPACITY
    ensures |xs| < CAPACITY
  {
    CountedOnceFits(xs, live - {id});
  }

  lemma Popped(xs: seq<nat>, id: nat)
    requires xs != []
    ensures multiset(xs)[id] == multiset(xs[1..])[id] + One(id == xs[0])
  {
    assert xs == [xs[0]] + xs[1..];
    assert multiset(xs) == multiset{xs[0]} + multiset(xs[1..]);
  }

  lemma Pushed(xs: seq<nat>, y: nat, id: nat)
    ensures multiset(xs + [y])[id] == multiset(xs)[id] + One(id == y)
  {
    assert multiset(xs + [y]) == multiset(xs) + multiset{y};
  }

  ghost predicate Sound(x: Exec, limit: nat) {
    Placed(x) && |Live(x)| <= limit
  }

  lemma LiveAfterNew(x: Exec)
    requires |x.spawned| < CAPACITY && x.nextId !in Live(x)
    ensures Live(SpawnerRun(x)) == Live(x) + {x.nextId} && |Live(SpawnerRun(x))| == |Live(x)| + 1
    ensures x.nextId !in x.tasks && forall id :: id in SpawnerRun(x).spawned ==> id in x.spawned || id == x.nextId
  {
    var x' := SpawnerRun(x);
    forall id ensures id in x'.spawned <==> id in x.spawned || id == x.nextId {}
  }

  lemma {:induction false} NewPlace(x: Exec, id: nat)
    requires |x.spawned| < CAPACITY && x.nextId !in Live(x) && Places(x, id) == One(id in Live(x))
    ensures Places(SpawnerRun(x), id) == One(id in Live(SpawnerRun(x)))
  {
    LiveAfterNew(x);
    hide Live;
    Pushed(x.spawned, x.nextId, id);
  }

  lemma {:induction false} QueueFits(x: Exec, limit: nat)
    requires Sound(x, limit)
    ensures |x.spawned| <= |Live(x)| && |x.ready| <= |Live(x)| && |x.yielders| <= |Live(x)|
    ensures forall id :: id in Live(x) && multiset(x.ready)[id] == 0 && limit <= CAPACITY ==> |x.ready| < CAPACITY
    ensures forall id :: id in Live(x) && multiset(x.yielders)[id] == 0 && limit <= CAPACITY ==> |x.yielders| < CAPACITY
  {
    forall i
      ensures multiset(x.spawned)[i] <= One(i in Live(x)) && multiset(x.ready)[i] <= One(i in Live(x))
      ensures multiset(x.yielders)[i] <= One(i in Live(x))
    { assert Places(x, i) == One(i in Live(x)); }
    CountedOnceFits(x.spawned, Live(x));
    CountedOnceFits(x.ready, Live(x));
    CountedOnceFits(x.yielders, Live(x));
    forall id | id in Live(x) && multiset(x.ready)[id] == 0 && limit <= CAPACITY ensures |x.ready| < CAPACITY {
      QueueHasRoom(x.ready, Live(x), id);
    }
    forall id | id in Live(x) && multiset(x.yielders)[id] == 0 && limit <= CAPACITY ensures |x.yielders| < CAPACITY {
      QueueHasRoom(x.yielders, Live(x), id);
    }
  }

  lemma {:induction false} NewKeeps(x: Exec, limit: nat)
    requires Sound(x, limit) && |Live(x)| < limit <= CAPACITY
    ensures Sound(SpawnerRun(x), limit)
  {
    hide Live, Places;
    QueueFits(x, limit);
    LiveAfterNew(x);
    NewPlaces(x);
  }

  lemma {:induction false} NewPlaces(x: Exec)
    requires Placed(x) && |x.spawned| < CAPACITY
    ensures forall id :: Places(SpawnerRun(x), id) == One(id in Live(SpawnerRun(x)))
  {
    forall id ensures Places(SpawnerRun(x), id) == One(id in Live(SpawnerRun(x))) {
      assert Places(x, id) == One(id in Live(x));
      NewPlace(x, id);
    }
  }

  lemma LiveAfterPull(x: Exec)
    requires x.spawned != [] && x.spawned[0] !in x.tasks && |x.ready| < CAPACITY
    ensures x.spawned[0] in Live(x) && Live(Pull(x)) == Live(x)
  {
    var id, x' := x.spawned[0], Pull(x);
    assert x.spawned == [id] + x'.spawned;
    forall i ensures i in x.spawned <==> i in x'.spawned || i == id {}
  }

  lemma {:induction false} PullPlace(x: Exec, i: nat)
    requires x.spawned != [] && x.spawned[0] !in x.tasks && |x.ready| < CAPACITY && Places(x, i) == One(i in Live(x))
    ensures Places(Pull(x), i) == One(i in Live(Pull(x)))
  {
    LiveAfterPull(x);
    hide Live;
    Popped(x.spawned, i);
    Pushed(x.ready, x.spawned[0], i);
  }

  lemma {:induction false} PullPlaces(x: Exec)
    requires Placed(x) && x.spawned != [] && x.spawned[0] !in x.tasks && |x.ready| < CAPACITY
    ensures forall i :: Places(Pull(x), i) == One(i in Live(Pull(x)))
    ensures x.spawned[0] !in Pull(x).spawned
  {
    forall i ensures Places(Pull(x), i) == One(i in Live(Pull(x))) {
      assert Places(x, i) == One(i in Live(x));
      PullPlace(x, i);
    }
    Popped(x.spawned, x.spawned[0]);
    assert Places(x, x.spawned[0]) <= 1;
    assert multiset(Pull(x).spawned)[x.spawned[0]] == 0;
  }

  lemma SpawnedHead(x: Exec)
    requires Placed(x) && x.spawned != []
    ensures x.spawned[0] in x.spawned && x.spawned[0] in Live(x) && multiset(x.ready)[x.spawned[0]] == 0
    ensures forall i :: i in x.spawned[1..] ==> i in x.spawned
  {
    var id := x.spawned[0];
    assert Places(x, id) == One(id in Live(x));
    assert multiset(x.spawned)[id] > 0;
  }

  lemma {:induction false} PullKeeps(x: Exec, limit: nat)
    requires Sound(x, limit) && limit <= CAPACITY && x.spawned != []
    ensures Sound(Pull(x), limit)
  {
    hide Live, Places;
    SpawnedHead(x);
    QueueFits(x, limit);
    LiveAfterPull(x);
    PullPlaces(x);
  }

  lemma {:induction false} FireKeeps(x: Exec, limit: nat, id: nat)
    requires Sound(x, limit) && limit <= CAPACITY && id in x.waiting
    ensures Sound(Fire(x, id), limit)
  {
    assert Places(x, id) == One(id in Live(x));
    QueueFits(x, limit);
    assert Live(Fire(x, id)) == Live(x);
    hide Live;
    forall i ensures Places(Fire(x, id), i) == One(i in Live(x)) {
      Pushed(x.ready, id, i);
      assert Places(x, i) == One(i in Live(x));
    }
  }

  lemma {:induction false} DrainKeeps(x: Exec, limit: nat)
    requires Sound(x, limit) && limit <= CAPACITY && x.yielders != []
    ensures Sound(DrainOne(x), limit)
  {
    var id := x.yielders[0];
    forall i ensures multiset(x.ready)[i] <= One(i in Live(x)) { assert Places(x, i) == One(i in Live(x)); }
    Popped(x.yielders, id);
    assert Places(x, id) == One(id in Live(x));
    QueueHasRoom(x.ready, Live(x), id);
    var x' := DrainOne(x);
    assert Live(x') == Live(x);
    forall i ensures Places(x', i) == One(i in Live(x')) {
      Popped(x.yielders, i);
      Pushed(x.ready, id, i);
      assert Places(x, i) == One(i in Live(x));
    }
  }

  lemma {:induction false} StartKeeps(x: Exec, limit: nat)
    requires Sound(x, limit) && x.ready != [] && x.running.None?
    ensures Sound(StartPoll(x), limit) && StartPoll(x).running == Some(x.ready[0])
  {
    var id, x' := x.ready[0], StartPoll(x);
    Popped(x.ready, id);
    assert Places(x, id) == One(id in Live(x));
    assert multiset(x.spawned)[id] == 0;
    assert Live(x') == Live(x);
    forall i ensures Places(x', i) == One(i in Live(x')) {
      Popped(x.ready, i);
      assert Places(x, i) == One(i in Live(x));
    }
  }

  lemma {:induction false} StopPlace(x: Exec, end: End, i: nat)
    requires !end.Again? && x.running.Some? && x.running.value !in x.spawned && |x.yielders| < CAPACITY && Places(x, i) == One(i in Live(x))
    requires Places(x, x.running.value) == 1 && x.running.value in Live(x)
    ensures Live(EndPoll(x, end)) == if end.Finish? then Live(x) - {x.running.value} else Live(x)
    ensures Places(EndPoll(x, end), i) == One(i in Live(EndPoll(x, end)))
  {
    assert Live(EndPoll(x, end)) == if end.Finish? then Live(x) - {x.running.value} else Live(x);
    hide Live;
    Pushed(x.yielders, x.running.value, i);
  }

  lemma RunningTask(x: Exec)
    requires Placed(x) && x.running.Some?
    ensures x.running.value in x.tasks && x.running.value in Live(x) && x.running.value !in x.spawned
    ensures multiset(x.yielders)[x.running.value] == 0
  {
    var id := x.running.value;
    assert Places(x, id) == One(id in Live(x));
    assert multiset(x.spawned)[id] == 0;
  }

  lemma {:induction false} StopKeeps(x: Exec, limit: nat, end: End)
    requires Sound(x, limit) && limit <= CAPACITY && x.running.Some? && !end.Again?
    ensures Sound(EndPoll(x, end), limit)
  {
    hide Live, Places;
    RunningTask(x);
    QueueFits(x, limit);
    StopPlaces(x, end);
  }

  lemma {:induction false} StopPlaces(x: Exec, end: End)
    requires Placed(x) && !end.Again? && x.running.Some? && x.running.value !in x.spawned && |x.yielders| < CAPACITY
    ensures Live(EndPoll(x, end)) == if end.Finish? then Live(x) - {x.running.value} else Live(x)
    ensures |Live(EndPoll(x, end))| <= |Live(x)|
    ensures forall i :: Places(EndPoll(x, end), i) == One(i in Live(EndPoll(x, end)))
  {
    assert Places(x, x.running.value) == One(x.running.value in Live(x));
    StopPlace(x, end, x.running.value);
    forall i ensures Places(EndPoll(x, end), i) == One(i in Live(EndPoll(x, end))) {
      assert Places(x, i) == One(i in Live(x));
      StopPlace(x, end, i);
    }
  }

  // ---- One round of `run_ready_tasks` ----

  /** What one poll does: it fires registered wakers, spawns tasks, and ends. */
  datatype Outcome = Outcome(wakes: seq<nat>, births: nat, end: End)

  function FireAll(x: Exec, wakes: seq<nat>): Exec
    decreases |wakes|
  {
    if wakes == [] then x else FireAll(Fire(x, wakes[0]), wakes[1..])
  }

  function SpawnAll(x: Exec, births: nat): Exec
    decreases births
  {
    if births == 0 then x else SpawnAll(SpawnerRun(x), births - 1)
  }

  /** The body of the loop: pop an id and, if its task still exists, poll it. */
  function PollHead(x: Exec, o: Outcome): Exec
    requires x.ready != [] && x.running.None?
  {
    var x1 := StartPoll(x);
    if x1.running.None? then x1
    else
      var x2 := SpawnAll(FireAll(x1, o.wakes), o.births);
      if x2.running.None? then x2 else EndPoll(x2, o.end)
  }

  /**
    The program: tasks yield, wait or finish; only the draining task `c` fires
    wakers of waiting tasks, each at most once a poll, and it then yields.
   */
  ghost predicate Legal(x: Exec, o: Outcome, c: nat, limit: nat)
    requires x.ready != []
  {
    && |Live(x)| + o.births <= limit && !o.end.Again?
    && if x.ready[0] == c
       then o.end.Yield? && Distinct(o.wakes) && forall id :: id in o.wakes ==> id in x.waiting
       else o.wakes == []
  }

  ghost predicate LegalRound(x: Exec, os: seq<Outcome>, c: nat, limit: nat)
    decreases |os|
  {
    os == [] ||
    (x.ready != [] && x.running.None? && Legal(x, os[0], c, limit) && LegalRound(PollHead(x, os[0]), os[1..], c, limit))
  }

  ghost function RunRound(x: Exec, os: seq<Outcome>): Exec
    decreases |os|
  {
    if os == [] || x.ready == [] || x.running.Some? then x else RunRound(PollHead(x, os[0]), os[1..])
  }

  /** The ids polled, in order. */
  ghost function Trace(x: Exec, os: seq<Outcome>): seq<nat>
    decreases |os|
  {
    if os == [] || x.ready == [] || x.running.Some? then [] else [x.ready[0]] + Trace(PollHead(x, os[0]), os[1..])
  }

  /** The tasks the draining task wakes in the round. */
  ghost function Woken(x: Exec, os: seq<Outcome>, c: nat): seq<nat>
    decreases |os|
  {
    if os == [] || x.ready == [] || x.running.Some? then []
    else (if x.ready[0] == c then os[0].wakes else []) + Woken(PollHead(x, os[0]), os[1..], c)
  }

  lemma {:induction false} FireAllKeeps(x: Exec, limit: nat, wakes: seq<nat>)
    requires Sound(x, limit) && limit <= CAPACITY && Distinct(wakes) && forall id :: id in wakes ==> id in x.waiting
    ensures Sound(FireAll(x, wakes), limit)
    ensures FireAll(x, wakes) == x.(ready := x.ready + wakes, waiting := FireAll(x, wakes).waiting)
    ensures Live(FireAll(x, wakes)) == Live(x)
    decreases |wakes|
  {
    hide Sound, Live, Distinct, Fire, PushReady;
    if wakes == [] {
      assert x.ready + wakes == x.ready;
    } else {
      FireKeeps(x, limit, wakes[0]);
      FireHasRoom(x, limit, wakes[0]);
      RestWaiting(x.waiting, wakes);
      FireAllKeeps(Fire(x, wakes[0]), limit, wakes[1..]);
      assert x.ready + [wakes[0]] + wakes[1..] == x.ready + wakes;
    }
  }

  lemma RestWaiting(waiting: multiset<nat>, wakes: seq<nat>)
    requires wakes != [] && Distinct(wakes) && forall id :: id in wakes ==> id in waiting
    ensures Distinct(wakes[1..]) && forall id :: id in wakes[1..] ==> id in waiting - multiset{wakes[0]}
  {
    forall id | id in wakes[1..] ensures id in wakes && id != wakes[0] {
      var i :| 0 <= i < |wakes[1..]| && wakes[1..][i] == id;
      assert wakes[i + 1] == id;
    }
  }

  lemma FireHasRoom(x: Exec, limit: nat, id: nat)
    requires Sound(x, limit) && limit <= CAPACITY && id in x.waiting
    ensures Fire(x, id) == x.(ready := x.ready + [id], waiting := x.waiting - multiset{id})
    ensures Live(Fire(x, id)) == Live(x)
  {
    assert Places(x, id) == One(id in Live(x));
    QueueFits(x, limit);
  }

  lemma {:induction false} SpawnAllKeeps(x: Exec, limit: nat, births: nat)
    requires Sound(x, limit) && |Live(x)| + births <= limit <= CAPACITY
    ensures Sound(SpawnAll(x, births), limit)
    ensures SpawnAll(x, births) == x.(spawned := SpawnAll(x, births).spawned, nextId := SpawnAll(x, births).nextId)
    decreases births
  {
    hide Sound, Live;
    if births > 0 {
      NewKeeps(x, limit);
      SpawnHasRoom(x, limit);
      SpawnAllKeeps(SpawnerRun(x), limit, births - 1);
    }
  }

  lemma SpawnHasRoom(x: Exec, limit: nat)
    requires Sound(x, limit) && |Live(x)| < limit <= CAPACITY
    ensures |x.spawned| < CAPACITY && |Live(SpawnerRun(x))| == |Live(x)| + 1
  {
    QueueFits(x, limit);
    LiveAfterNew(x);
  }

  /** One poll appends the woken tasks, and nothing else, to the ready queue; a running `c` moves to the yield queue. */
  lemma {:induction false} PollHeadKeeps(x: Exec, o: Outcome, c: nat, limit: nat)
    requires Sound(x, limit) && limit <= CAPACITY && x.ready != [] && x.running.None? && Legal(x, o, c, limit)
    ensures Sound(PollHead(x, o), limit) && PollHead(x, o).running.None?
    ensures PollHead(x, o).ready == x.ready[1..] + o.wakes
  {
    hide Sound, Live;
    StartKeeps(x, limit);
    LiveAfterStart(x, limit);
    FireAllKeeps(StartPoll(x), limit, o.wakes);
    SpawnAllKeeps(FireAll(StartPoll(x), o.wakes), limit, o.births);
    StopKeeps(SpawnAll(FireAll(StartPoll(x), o.wakes), o.births), limit, o.end);
  }

  /** A poll leaves the wakers registered that it does not fire, and registers its own when it ends waiting. */
  lemma {:induction false} PollHeadWaits(x: Exec, o: Outcome, c: nat, limit: nat)
    requires Sound(x, limit) && limit <= CAPACITY && x.ready != [] && x.running.None? && Legal(x, o, c, limit)
    ensures forall id :: id in x.waiting && id !in o.wakes ==> id in PollHead(x, o).waiting
    ensures o.end.Wait? ==> x.ready[0] in PollHead(x, o).waiting
  {
    hide Sound, Live;
    StartKeeps(x, limit);
    LiveAfterStart(x, limit);
    FireAllKeeps(StartPoll(x), limit, o.wakes);
    FireAllWaits(StartPoll(x), o.wakes);
    SpawnAllKeeps(FireAll(StartPoll(x), o.wakes), limit, o.births);
  }

  lemma {:induction false} FireAllWaits(x: Exec, wakes: seq<nat>)
    ensures forall id :: id in x.waiting && id !in wakes ==> id in FireAll(x, wakes).waiting
    decreases |wakes|
  {
    if wakes != [] { FireAllWaits(Fire(x, wakes[0]), wakes[1..]); }
  }

  /** A poll leaves every yielder in the yield queue, and joins it when it ends yielding. */
  lemma {:induction false} PollHeadYields(x: Exec, o: Outcome, c: nat, limit: nat)
    requires Sound(x, limit) && limit <= CAPACITY && x.ready != [] && x.running.None? && Legal(x, o, c, limit)
    ensures forall id :: id in x.yielders ==> id in PollHead(x, o).yielders
    ensures o.end.Yield? ==> x.ready[0] in PollHead(x, o).yielders
  {
    hide Sound, Live;
    StartKeeps(x, limit);
    LiveAfterStart(x, limit);
    FireAllKeeps(StartPoll(x), limit, o.wakes);
    SpawnAllKeeps(FireAll(StartPoll(x), o.wakes), limit, o.births);
    var x2 := SpawnAll(FireAll(StartPoll(x), o.wakes), o.births);
    YieldHasRoom(x2, limit);
  }

  lemma YieldHasRoom(x: Exec, limit: nat)
    requires Sound(x, limit) && limit <= CAPACITY && x.running.Some?
    ensures |x.yielders| < CAPACITY
  {
    RunningTask(x);
    QueueFits(x, limit);
  }

  lemma LiveAfterStart(x: Exec, limit: nat)
    requires Sound(x, limit) && x.ready != [] && x.running.None?
    ensures Live(StartPoll(x)) == Live(x)
  {
  }

  lemma {:induction false} ReadyDistinct(x: Exec, limit: nat)
    requires Sound(x, limit)
    ensures Distinct(x.ready) && |x.ready| <= |Live(x)|
    ensures forall id :: id in x.ready ==> id !in x.waiting
  {
    forall id ensures multiset(x.ready)[id] <= One(id in Live(x)) && (id in x.ready ==> id !in x.waiting) {
      assert Places(x, id) == One(id in Live(x));
      assert id in x.ready ==> multiset(x.ready)[id] > 0;
    }
    CountedOnceFits(x.ready, Live(x));
    forall i, j | 0 <= i < j < |x.ready| ensures x.ready[i] != x.ready[j] {
      if x.ready[i] == x.ready[j] { CountTwice(x.ready, i, j); }
    }
  }

  lemma {:induction false} CountTwice(xs: seq<nat>, i: nat, j: nat)
    requires i < j < |xs| && xs[i] == xs[j]
    ensures multiset(xs)[xs[i]] >= 2
  {
    assert xs == xs[..j] + xs[j..];
    assert multiset(xs) == multiset(xs[..j]) + multiset(xs[j..]);
    assert xs[..j][i] == xs[i] && xs[j..][0] == xs[i];
  }

  /** Without the draining task nothing joins the queue: it is polled from front to back. */
  lemma {:induction false} RoundWithoutDrainer(x: Exec, os: seq<Outcome>, c: nat, limit: nat)
    requires Sound(x, limit) && limit <= CAPACITY && LegalRound(x, os, c, limit) && c !in x.ready && x.running.None?
    ensures |os| <= |x.ready| && Trace(x, os) == x.ready[..|os|] && Woken(x, os, c) == []
    ensures Sound(RunRound(x, os), limit) && RunRound(x, os).ready == x.ready[|os|..]
    decreases |os|
  {
    hide Sound, Legal;
    if os != [] {
      var x' := PollHead(x, os[0]);
      LegalOther(x, os[0], c, limit);
      PollHeadKeeps(x, os[0], c, limit);
      assert x'.ready == x.ready[1..];
      RoundWithoutDrainer(x', os[1..], c, limit);
    }
  }

  lemma LegalOther(x: Exec, o: Outcome, c: nat, limit: nat)
    requires x.ready != [] && Legal(x, o, c, limit) && c != x.ready[0]
    ensures o.wakes == []
  {
  }

  lemma ConsSlice(ready: seq<nat>, later: seq<nat>, n: nat)
    requires ready != [] && 0 < n <= |ready| + |later|
    ensures (ready + later)[..n] == [ready[0]] + (ready[1..] + later)[..n - 1]
    ensures (ready + later)[n..] == (ready[1..] + later)[n - 1..]
  {
    assert ready + later == [ready[0]] + (ready[1..] + later);
  }

  /**
    A whole round: the tasks that were ready, then the tasks the draining task
    woke, each in order. So the round ends, and its length is known.
   */
  lemma {:induction false} RoundOrder(x: Exec, os: seq<Outcome>, c: nat, limit: nat)
    requires Sound(x, limit) && limit <= CAPACITY && LegalRound(x, os, c, limit) && x.running.None?
    ensures Distinct(Woken(x, os, c)) && |Woken(x, os, c)| <= limit
    ensures |os| <= |x.ready| + |Woken(x, os, c)|
    ensures Trace(x, os) == (x.ready + Woken(x, os, c))[..|os|]
    ensures Sound(RunRound(x, os), limit)
    ensures RunRound(x, os).ready == (x.ready + Woken(x, os, c))[|os|..]
    decreases |os|
  {
    hide Sound, Legal, PollHead;
    if os == [] {
      assert x.ready + [] == x.ready;
    } else if x.ready[0] == c {
      RoundFromDrainer(x, os, c, limit);
    } else {
      var x', rest := PollHead(x, os[0]), os[1..];
      PollHeadKeeps(x, os[0], c, limit);
      LegalOther(x, os[0], c, limit);
      RoundOrder(x', rest, c, limit);
      var w := Woken(x', rest, c);
      assert x'.ready == x.ready[1..] && [] + w == w;
      ConsSlice(x.ready, w, |os|);
    }
  }

  lemma {:induction false} RoundFromDrainer(x: Exec, os: seq<Outcome>, c: nat, limit: nat)
    requires Sound(x, limit) && limit <= CAPACITY && LegalRound(x, os, c, limit) && x.running.None?
    requires os != [] && x.ready[0] == c
    ensures Distinct(Woken(x, os, c)) && |Woken(x, os, c)| <= limit
    ensures |os| <= |x.ready| + |Woken(x, os, c)|
    ensures Trace(x, os) == (x.ready + Woken(x, os, c))[..|os|]
    ensures Sound(RunRound(x, os), limit)
    ensures RunRound(x, os).ready == (x.ready + Woken(x, os, c))[|os|..]
  {
    hide Sound, Legal, PollHead, Distinct;
    var x', rest := PollHead(x, os[0]), os[1..];
    PollHeadKeeps(x, os[0], c, limit);
    DrainerLeft(x, os[0], c, limit);
    WokenFits(x, os[0], c, limit);
    RoundWithoutDrainer(x', rest, c, limit);
    assert Woken(x, os, c) == os[0].wakes;
    ConsSlice(x.ready, os[0].wakes, |os|);
  }

  lemma DrainerLeft(x: Exec, o: Outcome, c: nat, limit: nat)
    requires Sound(x, limit) && x.ready != [] && Legal(x, o, c, limit) && x.ready[0] == c
    ensures c !in x.ready[1..] + o.wakes
  {
    ReadyDistinct(x, limit);
  }

  lemma {:induction false} WokenFits(x: Exec, o: Outcome, c: nat, limit: nat)
    requires Sound(x, limit) && x.ready != [] && Legal(x, o, c, limit) && x.ready[0] == c
    ensures Distinct(o.wakes) && |o.wakes| <= limit
  {
    forall id ensures multiset(o.wakes)[id] <= One(id in Live(x)) {
      assert Places(x, id) == One(id in Live(x));
      if id in o.wakes { DistinctOnce(o.wakes, id); }
    }
    CountedOnceFits(o.wakes, Live(x));
  }

  lemma {:induction false} DistinctOnce(xs: seq<nat>, id: nat)
    requires Distinct(xs)
    ensures multiset(xs)[id] == One(id in xs)
  {
    if xs != [] {
      var last := |xs| - 1;
      DistinctOnce(xs[..last], id);
      assert xs == xs[..last] + [xs[last]];
      Pushed(xs[..last], xs[last], id);
    }
  }

  /** In a round no task is polled more than twice, the draining task once, and a finished round polled every ready task. */
  lemma {:induction false} RoundCounts(x: Exec, os: seq<Outcome>, c: nat, limit: nat, id: nat)
    requires Sound(x, limit) && limit <= CAPACITY && LegalRound(x, os, c, limit) && x.running.None?
    ensures multiset(Trace(x, os))[id] <= 2 && (id == c ==> multiset(Trace(x, os))[id] <= 1)
    ensures RunRound(x, os).ready == [] && id in x.ready ==> id in Trace(x, os)
    ensures |os| <= 2 * limit
  {
    hide Sound, LegalRound, Trace, Woken, RunRound, Live, Distinct;
    RoundOrder(x, os, c, limit);
    ReadyDistinct(x, limit);
    ReadyFits(x, limit);
    CountsInPrefix(x.ready, Woken(x, os, c), |os|, id);
    if id == c { DrainerNotWoken(x, os, c, limit); }
  }

  lemma ReadyFits(x: Exec, limit: nat)
    requires Sound(x, limit)
    ensures |x.ready| <= limit
  {
    ReadyDistinct(x, limit);
  }

  lemma {:induction false} CountsInPrefix(xs: seq<nat>, ys: seq<nat>, n: nat, id: nat)
    requires Distinct(xs) && Distinct(ys) && n <= |xs| + |ys|
    ensures multiset((xs + ys)[..n])[id] <= One(id in xs) + One(id in ys)
    ensures (xs + ys)[n..] == [] && id in xs ==> id in (xs + ys)[..n]
  {
    DistinctOnce(xs, id);
    DistinctOnce(ys, id);
    var all := xs + ys;
    assert all == all[..n] + all[n..];
    assert multiset(all) == multiset(xs) + multiset(ys) == multiset(all[..n]) + multiset(all[n..]);
    assert multiset(all[..n])[id] <= multiset(all)[id] == One(id in xs) + One(id in ys);
    if id in xs && all[n..] == [] {
      assert all[..n] == all;
      assert id in all;
    }
  }

  lemma {:induction false} DrainerNotWoken(x: Exec, os: seq<Outcome>, c: nat, limit: nat)
    requires Sound(x, limit) && limit <= CAPACITY && LegalRound(x, os, c, limit) && x.running.None?
    ensures c !in Woken(x, os, c)
    decreases |os|
  {
    hide Sound, Live, Distinct, PollHead, Places;
    if os != [] {
      PollHeadKeeps(x, os[0], c, limit);
      ReadyDistinct(x, limit);
      if x.ready[0] == c { DrainerLeft(x, os[0], c, limit); }
      DrainerNotWoken(PollHead(x, os[0]), os[1..], c, limit);
    }
  }

  lemma {:induction false} RoundExtends(x: Exec, os: seq<Outcome>, o: Outcome, c: nat, limit: nat)
    requires LegalRound(x, os, c, limit)
    requires var y := RunRound(x, os); y.ready != [] && y.running.None? && Legal(y, o, c, limit)
    ensures LegalRound(x, os + [o], c, limit) && RunRound(x, os + [o]) == PollHead(RunRound(x, os), o)
    decreases |os|
  {
    if os == [] {
      assert [o][1..] == [] && os + [o] == [o];
    } else {
      RoundExtends(PollHead(x, os[0]), os[1..], o, c, limit);
      assert (os + [o])[1..] == os[1..] + [o] && (os + [o])[0] == os[0];
    }
  }

  lemma RoundLength(x: Exec, os: seq<Outcome>, c: nat, limit: nat)
    requires Sound(x, limit) && limit <= CAPACITY && LegalRound(x, os, c, limit) && x.running.None?
    ensures |os| <= 2 * limit
  {
    RoundCounts(x, os, c, limit, c);
  }

  // ---- `Executor::run` against `SimpleExecutor::run` ----

  /** Whether the poll of a task finishes it; it may depend on every poll made before. */
  type Program = (nat, seq<nat>) -> bool

  datatype Simple = Simple(queue: seq<nat>, trace: seq<nat>)

  /** One turn of the loop of `SimpleExecutor::run`. */
  function SimpleStep(s: Simple, p: Program): Simple {
    if s.queue == [] then s
    else
      var id := s.queue[0];
      Simple(s.queue[1..] + (if p(id, s.trace) then [] else [id]), s.trace + [id])
  }

  function Upto(n: nat): seq<nat> {
    seq(n, i => i)
  }

  function SimpleRun(n: nat, p: Program, m: nat): Simple {
    if m == 0 then Simple(Upto(n), []) else SimpleStep(SimpleRun(n, p, m - 1), p)
  }

  datatype Phase = Pulling | Polling | Draining

  datatype Loop = Loop(x: Exec, phase: Phase, trace: seq<nat>)

  /** One turn of one of the three inner loops of `Executor::run`, with tasks that suspend only through `yield_once`. */
  function LoopStep(l: Loop, p: Program): Loop
    requires l.x.running.None?
  {
    match l.phase
    case Pulling => if l.x.spawned != [] then l.(x := Pull(l.x)) else l.(phase := Polling)
    case Polling =>
      if l.x.ready != [] then
        var id := l.x.ready[0];
        var o := Outcome([], 0, if p(id, l.trace) then Finish else Yield);
        l.(x := PollHead(l.x, o), trace := if id in l.x.tasks then l.trace + [id] else l.trace)
      else l.(phase := Draining)
    case Draining => if l.x.yielders != [] then l.(x := DrainOne(l.x)) else l.(phase := Pulling)
  }

  function Boot(n: nat): Exec {
    SpawnAll(EMPTY, n)
  }

  function LoopRun(n: nat, p: Program, k: nat): (l: Loop)
    ensures l.x.running.None?
  {
    if k == 0 then
      BootIdle(n);
      Loop(Boot(n), Pulling, [])
    else
      var l := LoopRun(n, p, k - 1);
      LoopIdle(l, p);
      LoopStep(l, p)
  }

  lemma {:induction false} SpawnIdle(x: Exec, n: nat)
    ensures SpawnAll(x, n).running == x.running && SpawnAll(x, n).ready == x.ready && SpawnAll(x, n).yielders == x.yielders
    decreases n
  {
    if n > 0 { SpawnIdle(SpawnerRun(x), n - 1); }
  }

  lemma BootIdle(n: nat)
    ensures Boot(n).running.None?
  {
    SpawnIdle(EMPTY, n);
  }

  lemma LoopIdle(l: Loop, p: Program)
    requires l.x.running.None?
    ensures LoopStep(l, p).x.running.None?
  {
  }

  /** The simulation: the simple queue is the ready, spawn and yield queues one after the other. */
  ghost predicate Simulates(l: Loop, s: Simple) {
    && Sound(l.x, CAPACITY) && l.x.running.None? && l.x.waiting == multiset{}
    && l.trace == s.trace && s.queue == l.x.ready + l.x.spawned + l.x.yielders
    && (l.phase.Pulling? ==> l.x.yielders == [])
    && (!l.phase.Pulling? ==> l.x.spawned == [])
  }

  lemma {:induction false} BootQueue(x: Exec, n: nat)
    requires |x.spawned| + n <= CAPACITY
    ensures SpawnAll(x, n).spawned == x.spawned + seq(n, i => x.nextId + i)
    ensures SpawnAll(x, n).waiting == x.waiting && SpawnAll(x, n).tasks == x.tasks
    decreases n
  {
    if n == 0 {
      assert x.spawned + seq(0, i => x.nextId + i) == x.spawned;
    } else {
      BootQueue(SpawnerRun(x), n - 1);
      assert x.spawned + [x.nextId] + seq(n - 1, i => x.nextId + 1 + i) == x.spawned + seq(n, i => x.nextId + i);
    }
  }

  lemma EmptySound()
    ensures Sound(EMPTY, CAPACITY) && |Live(EMPTY)| == 0
  {
    assert Live(EMPTY) == {};
  }

  lemma {:induction false} BootSimulates(n: nat, p: Program)
    requires n <= CAPACITY
    ensures Simulates(LoopRun(n, p, 0), SimpleRun(n, p, 0))
  {
    hide Sound, Live;
    EmptySound();
    SpawnIdle(EMPTY, n);
    BootQueue(EMPTY, n);
    SpawnAllKeeps(EMPTY, CAPACITY, n);
    assert [] + Boot(n).spawned + [] == Boot(n).spawned == Upto(n);
  }

  lemma Shift(a: seq<nat>, b: seq<nat>, c: seq<nat>)
    requires b != []
    ensures a + [b[0]] + b[1..] + c == a + b + c
    ensures a + [b[0]] + [] + b[1..] == a + [] + b
    ensures (a + [] + b)[0] == (a + b)[0] && a + [] + b == a + b
  {
  }

  lemma PullHasRoom(x: Exec)
    requires Sound(x, CAPACITY) && x.spawned != []
    ensures Pull(x) == x.(spawned := x.spawned[1..], tasks := x.tasks + {x.spawned[0]}, ready := x.ready + [x.spawned[0]])
  {
    SpawnedHead(x);
    QueueFits(x, CAPACITY);
  }

  lemma SoundBelow(x: Exec, limit: nat)
    requires Sound(x, limit) && limit <= CAPACITY
    ensures Sound(x, CAPACITY)
  {
  }

  lemma DrainHasRoom(x: Exec)
    requires Sound(x, CAPACITY) && x.yielders != []
    ensures DrainOne(x) == x.(yielders := x.yielders[1..], ready := x.ready + [x.yielders[0]])
  {
    YielderHead(x);
    QueueFits(x, CAPACITY);
  }

  // ---- One turn of `run` ----

  /** The loop over the spawn queue. */
  function PullAll(x: Exec, n: nat): Exec
    decreases n
  {
    if n == 0 || x.spawned == [] then x else PullAll(Pull(x), n - 1)
  }

  /** `wake_all` on the yield queue. */
  function DrainAll(x: Exec, n: nat): Exec
    decreases n
  {
    if n == 0 || x.yielders == [] then x else DrainAll(DrainOne(x), n - 1)
  }

  /** Where the round of a turn starts. */
  ghost function Pulled(x: Exec): Exec {
    PullAll(x, |x.spawned|)
  }

  ghost function Drained(x: Exec): Exec {
    DrainAll(x, |x.yielders|)
  }

  lemma {:induction false} PullAllKeeps(x: Exec, limit: nat, n: nat)
    requires Sound(x, limit) && limit <= CAPACITY && n == |x.spawned|
    ensures var x' := PullAll(x, n);
            && Sound(x', limit) && x'.spawned == [] && x'.ready == x.ready + x.spawned
            && x'.waiting == x.waiting && x'.running == x.running && x'.yielders == x.yielders
    decreases n
  {
    hide Sound;
    if n > 0 {
      PullKeeps(x, limit);
      SoundBelow(x, limit);
      PullHasRoom(x);
      PullAllKeeps(Pull(x), limit, n - 1);
      assert x.ready + [x.spawned[0]] + x.spawned[1..] == x.ready + x.spawned;
    }
  }

  lemma {:induction false} DrainAllKeeps(x: Exec, limit: nat, n: nat)
    requires Sound(x, limit) && limit <= CAPACITY && n == |x.yielders|
    ensures var x' := DrainAll(x, n);
            && Sound(x', limit) && x'.yielders == [] && x'.ready == x.ready + x.yielders
            && x'.waiting == x.waiting && x'.running == x.running && x'.spawned == x.spawned
    decreases n
  {
    hide Sound;
    if n > 0 {
      DrainKeeps(x, limit);
      SoundBelow(x, limit);
      DrainHasRoom(x);
      DrainAllKeeps(DrainOne(x), limit, n - 1);
      assert x.ready + [x.yielders[0]] + x.yielders[1..] == x.ready + x.yielders;
    }
  }

  lemma {:induction false} PullSimulates(l: Loop, s: Simple, p: Program)
    requires Simulates(l, s) && l.phase.Pulling?
    ensures Simulates(LoopStep(l, p), s) && LoopStep(l, p).trace == l.trace
  {
    hide Sound;
    if l.x.spawned != [] {
      PullKeeps(l.x, CAPACITY);
      PullHasRoom(l.x);
      Shift(l.x.ready, l.x.spawned, l.x.yielders);
    }
  }

  lemma {:induction false} DrainSimulates(l: Loop, s: Simple, p: Program)
    requires Simulates(l, s) && l.phase.Draining?
    ensures Simulates(LoopStep(l, p), s) && LoopStep(l, p).trace == l.trace
  {
    hide Sound;
    if l.x.yielders != [] {
      DrainKeeps(l.x, CAPACITY);
      DrainHasRoom(l.x);
      Shift(l.x.ready, l.x.yielders, []);
    }
  }

  lemma YielderHead(x: Exec)
    requires Placed(x) && x.yielders != []
    ensures x.yielders[0] in Live(x) && multiset(x.ready)[x.yielders[0]] == 0
  {
    var id := x.yielders[0];
    assert Places(x, id) == One(id in Live(x));
    assert multiset(x.yielders)[id] > 0;
  }

  lemma ReadyHead(x: Exec)
    requires Placed(x) && x.ready != []
    ensures x.ready[0] in x.tasks && x.ready[0] in Live(x) && multiset(x.yielders)[x.ready[0]] == 0
  {
    var id := x.ready[0];
    assert Places(x, id) == One(id in Live(x));
    assert multiset(x.ready)[id] > 0 && multiset(x.spawned)[id] == 0;
  }

  lemma {:induction false} HeadFits(x: Exec)
    requires Sound(x, CAPACITY) && x.ready != []
    ensures x.ready[0] in x.tasks && |x.yielders| < CAPACITY
  {
    ReadyHead(x);
    QueueFits(x, CAPACITY);
  }

  lemma {:induction false} PollEffect(x: Exec, finish: bool)
    requires Sound(x, CAPACITY) && x.ready != [] && x.running.None?
    ensures var x' := PollHead(x, Outcome([], 0, if finish then Finish else Yield));
            && Sound(x', CAPACITY) && x'.running.None? && x'.waiting == x.waiting && x'.spawned == x.spawned
            && x.ready[0] in x.tasks && x'.ready == x.ready[1..]
            && x'.yielders == x.yielders + if finish then [] else [x.ready[0]]
  {
    hide Sound, Live;
    HeadFits(x);
    StartKeeps(x, CAPACITY);
    StopKeeps(StartPoll(x), CAPACITY, if finish then Finish else Yield);
    assert x.yielders + [] == x.yielders;
  }

  lemma {:induction false} PollSimulates(l: Loop, s: Simple, p: Program)
    requires Simulates(l, s) && l.phase.Polling?
    ensures l.x.running.None?
    ensures l.x.ready == [] ==> Simulates(LoopStep(l, p), s) && LoopStep(l, p).trace == l.trace
    ensures l.x.ready != [] ==> Simulates(LoopStep(l, p), SimpleStep(s, p)) && |LoopStep(l, p).trace| == |l.trace| + 1
  {
    hide Sound;
    if l.x.ready != [] {
      var id := l.x.ready[0];
      PollEffect(l.x, p(id, l.trace));
      Rotate(l.x.ready, l.x.yielders, if p(id, l.trace) then [] else [id]);
    }
  }

  lemma Rotate(ready: seq<nat>, yielders: seq<nat>, back: seq<nat>)
    requires ready != []
    ensures (ready + [] + yielders)[1..] + back == ready[1..] + [] + (yielders + back)
    ensures (ready + [] + yielders)[0] == ready[0] && ready + [] + yielders != []
  {
  }

  lemma {:induction false} StepSimulates(l: Loop, s: Simple, p: Program)
    requires Simulates(l, s)
    ensures var l' := LoopStep(l, p);
            (Simulates(l', s) && l'.trace == l.trace) || (Simulates(l', SimpleStep(s, p)) && |l'.trace| == |l.trace| + 1)
  {
    match l.phase
    case Pulling => PullSimulates(l, s, p);
    case Polling => PollSimulates(l, s, p);
    case Draining => DrainSimulates(l, s, p);
  }

  /** After any number of turns the executor has made the polls of the simple executor, and no others. */
  lemma {:induction false} RunSimulates(n: nat, p: Program, k: nat)
    requires n <= CAPACITY
    ensures var l := LoopRun(n, p, k); Simulates(l, SimpleRun(n, p, |l.trace|))
  {
    hide Simulates, LoopStep, SimpleStep, Boot;
    if k == 0 {
      BootSimulates(n, p);
    } else {
      RunSimulates(n, p, k - 1);
      var l := LoopRun(n, p, k - 1);
      StepSimulates(l, SimpleRun(n, p, |l.trace|), p);
    }
  }

  /** How many turns at most until the next poll. */
  function Distance(l: Loop): nat {
    match l.phase
    case Pulling => |l.x.spawned| + 1
    case Polling => if l.x.ready != [] then 0 else |l.x.yielders| + CAPACITY + 3
    case Draining => |l.x.yielders| + CAPACITY + 2
  }

  /** While tasks remain, the executor polls again within a bounded number of turns of its inner loops. */
  lemma {:induction false} NextPoll(n: nat, p: Program, k: nat) returns (k': nat)
    requires n <= CAPACITY && SimpleRun(n, p, |LoopRun(n, p, k).trace|).queue != []
    ensures |LoopRun(n, p, k').trace| == |LoopRun(n, p, k).trace| + 1
    ensures k < k' <= k + 204
  {
    k' := NextPollWithin(n, p, k);
    RunSimulates(n, p, k);
    DistanceBounded(LoopRun(n, p, k), SimpleRun(n, p, |LoopRun(n, p, k).trace|));
  }

  lemma DistanceBounded(l: Loop, s: Simple)
    requires Simulates(l, s)
    ensures Distance(l) <= 2 * CAPACITY + 3
  {
    QueueFits(l.x, CAPACITY);
  }

  lemma {:induction false} NextPollWithin(n: nat, p: Program, k: nat) returns (k': nat)
    requires n <= CAPACITY && SimpleRun(n, p, |LoopRun(n, p, k).trace|).queue != []
    ensures |LoopRun(n, p, k').trace| == |LoopRun(n, p, k).trace| + 1
    ensures k < k' <= k + Distance(LoopRun(n, p, k)) + 1
    decreases Distance(LoopRun(n, p, k))
  {
    hide Simulates, LoopStep, SimpleStep, Distance;
    var l := LoopRun(n, p, k);
    RunSimulates(n, p, k);
    var s := SimpleRun(n, p, |l.trace|);
    if l.phase.Polling? && l.x.ready != [] {
      PollSimulates(l, s, p);
      k' := k + 1;
    } else {
      SameTrace(l, s, p);
      k' := NextPollWithin(n, p, k + 1);
    }
  }

  lemma SameTrace(l: Loop, s: Simple, p: Program)
    requires Simulates(l, s) && s.queue != [] && (l.phase.Polling? ==> l.x.ready == [])
    ensures LoopStep(l, p).trace == l.trace && Distance(LoopStep(l, p)) < Distance(l)
  {
    QueueFits(l.x, CAPACITY);
    hide Live;
    if l.phase.Pulling? && l.x.spawned != [] { PullHasRoom(l.x); }
    if l.phase.Draining? && l.x.yielders != [] { DrainHasRoom(l.x); }
  }

  lemma {:induction false} SimpleTrace(n: nat, p: Program, m: nat)
    ensures |SimpleRun(n, p, m).trace| <= m
    ensures m > 0 && |SimpleRun(n, p, m).trace| == m ==>
              |SimpleRun(n, p, m - 1).trace| == m - 1 && SimpleRun(n, p, m - 1).queue != []
  {
    if m > 0 { SimpleTrace(n, p, m - 1); }
  }

  lemma {:induction false} ReachesPoll(n: nat, p: Program, m: nat) returns (k: nat)
    requires n <= CAPACITY && |SimpleRun(n, p, m).trace| == m
    ensures LoopRun(n, p, k).trace == SimpleRun(n, p, m).trace
  {
    if m == 0 {
      k := 0;
    } else {
      SimpleTrace(n, p, m);
      k := ReachesPoll(n, p, m - 1);
      k := NextPoll(n, p, k);
      RunSimulates(n, p, k);
    }
  }

  /** Both executors make the same polls in the same order, for every program of `n` tasks. */
  ghost predicate SamePolls(n: nat) {
    && (forall p: Program, k :: LoopRun(n, p, k).trace == SimpleRun(n, p, |LoopRun(n, p, k).trace|).trace)
    && (forall p: Program, m :: |SimpleRun(n, p, m).trace| == m ==> Polls(n, p, SimpleRun(n, p, m).trace))
  }

  ghost predicate Polls(n: nat, p: Program, trace: seq<nat>) {
    exists k :: LoopRun(n, p, k).trace == trace
  }

  ghost predicate Misses(l: Loop, id: nat) {
    id !in l.x.ready && id !in l.x.spawned && id !in l.x.yielders && id !in l.trace && l.x.running.None?
  }

  lemma {:induction false} DroppedTask(x: Exec, n: nat)
    requires n > CAPACITY - |x.spawned| && |x.spawned| <= CAPACITY && x.nextId == |x.spawned|
    requires forall i :: i in x.spawned ==> i < x.nextId
    ensures CAPACITY !in SpawnAll(x, n).spawned
    decreases n
  {
    if |x.spawned| == CAPACITY {
      FullSpawn(x, n);
    } else {
      DroppedTask(SpawnerRun(x), n - 1);
    }
  }

  lemma {:induction false} FullSpawn(x: Exec, n: nat)
    requires |x.spawned| >= CAPACITY
    ensures SpawnAll(x, n).spawned == x.spawned
    decreases n
  {
    if n > 0 { FullSpawn(SpawnerRun(x), n - 1); }
  }

  lemma {:induction false} NeverPolled(n: nat, p: Program, k: nat)
    requires n > CAPACITY
    ensures Misses(LoopRun(n, p, k), CAPACITY)
  {
    if k == 0 {
      SpawnIdle(EMPTY, n);
      DroppedTask(EMPTY, n);
    } else {
      NeverPolled(n, p, k - 1);
      StepMisses(LoopRun(n, p, k - 1), p, CAPACITY);
    }
  }

  lemma StepMisses(l: Loop, p: Program, id: nat)
    requires Misses(l, id)
    ensures Misses(LoopStep(l, p), id)
  {
  }

  lemma {:induction false} SimplePollsAll(n: nat, m: nat)
    requires m <= n
    ensures SimpleRun(n, (_, _) => true, m) == Simple(Upto(n)[m..], Upto(m))
  {
    if m > 0 {
      SimplePollsAll(n, m - 1);
      assert Upto(n)[m - 1..][1..] + [] == Upto(n)[m..];
      assert Upto(m - 1) + [m - 1] == Upto(m);
    }
  }

  /** `Executor` refines `SimpleExecutor` exactly when at most 100 tasks are spawned before it runs. */
  lemma {:induction false} RefinesSimpleExactly(n: nat)
    ensures SamePolls(n) <==> n <= 100
  {
    if n <= CAPACITY {
      forall p: Program, k ensures LoopRun(n, p, k).trace == SimpleRun(n, p, |LoopRun(n, p, k).trace|).trace {
        RunSimulates(n, p, k);
      }
      forall p: Program, m | |SimpleRun(n, p, m).trace| == m ensures Polls(n, p, SimpleRun(n, p, m).trace) {
        var k := ReachesPoll(n, p, m);
      }
    } else if SamePolls(n) {
      var p: Program := (_, _) => true;
      SimplePollsAll(n, n);
      assert Polls(n, p, Upto(n));
      var k :| LoopRun(n, p, k).trace == Upto(n);
      assert Upto(n)[CAPACITY] == CAPACITY;
      NeverPolled(n, p, k);
    }
  }

  // ---- The executors, in place ----

  class SimpleExecutor {
    var taskQueue: seq<nat>
    var polled: seq<nat>

    constructor (ids: seq<nat>)
      ensures taskQueue == ids && polled == []
    {
      taskQueue, polled := ids, [];
    }

    /** One turn of the loop of `run`. */
    method Turn(p: Program)
      modifies this
      ensures Simple(taskQueue, polled) == SimpleStep(old(Simple(taskQueue, polled)), p)
      ensures old(taskQueue) == [] ==> taskQueue == [] && polled == old(polled)
      ensures old(taskQueue) != [] ==>
                var id := old(taskQueue)[0];
                && polled == old(polled) + [id]
                && taskQueue == if p(id, old(polled)) then old(taskQueue)[1..] else old(taskQueue)[1..] + [id]
    {
      if taskQueue != [] {
        var id := taskQueue[0];
        taskQueue := taskQueue[1..];
        if p(id, polled) {
          assert taskQueue + [] == taskQueue;
        } else {
          taskQueue := taskQueue + [id];
        }
        polled := polled + [id];
      }
    }
  }

  class Executor {
    var tasks: set<nat>
    var taskQueue: seq<nat>
    var spawnQueue: seq<nat>
    var wakerCache: set<nat>
    var yielders: seq<nat>
    var waiters: multiset<nat>
    var running: Option<nat>
    var nextId: nat
    var dropped: nat
    var panicked: bool

    ghost function View(): Exec
      reads this
    {
      Exec(tasks, taskQueue, spawnQueue, wakerCache, yielders, waiters, running, nextId, dropped, panicked)
    }

    constructor ()
      ensures View() == EMPTY
    {
      tasks, taskQueue, spawnQueue, wakerCache, yielders, waiters := {}, [], [], {}, [], multiset{};
      running, nextId, dropped, panicked := None, 0, 0, false;
    }

    /** `TaskWaker::wake_task` and the push at the end of `spawn`. */
    method WakeTask(id: nat)
      modifies this`taskQueue, this`panicked
      ensures View() == PushReady(old(View()), id)
      ensures taskQueue == if |old(taskQueue)| < 100 then old(taskQueue) + [id] else old(taskQueue)
      ensures panicked <==> old(panicked) || |old(taskQueue)| >= 100
    {
      if |taskQueue| < CAPACITY { taskQueue := taskQueue + [id]; } else { panicked := true; }
    }

    method SpawnTask()
      modifies this`spawnQueue, this`nextId, this`dropped
      ensures View() == SpawnerRun(old(View()))
      ensures nextId == old(nextId) + 1
      ensures spawnQueue == if |old(spawnQueue)| < 100 then old(spawnQueue) + [old(nextId)] else old(spawnQueue)
    {
      var id := nextId;
      nextId := nextId + 1;
      if |spawnQueue| < CAPACITY { spawnQueue := spawnQueue + [id]; } else { dropped := dropped + 1; }
    }

    method FireWakers(wakes: seq<nat>)
      modifies this`taskQueue, this`panicked, this`waiters
      ensures View() == FireAll(old(View()), wakes)
    {
      for i := 0 to |wakes|
        invariant FireAll(View(), wakes[i..]) == FireAll(old(View()), wakes)
      {
        waiters := waiters - multiset{wakes[i]};
        WakeTask(wakes[i]);
        assert wakes[i..][1..] == wakes[i + 1..];
      }
    }

    method SpawnTasks(births: nat)
      modifies this`spawnQueue, this`nextId, this`dropped
      ensures View() == SpawnAll(old(View()), births)
    {
      for i := 0 to births
        invariant SpawnAll(View(), births - i) == SpawnAll(old(View()), births)
      {
        SpawnTask();
      }
    }

    method FinishPoll(end: End)
      requires running.Some?
      modifies this
      ensures View() == EndPoll(old(View()), end)
      ensures var id := old(running.value);
              && tasks == (if end.Finish? then old(tasks) - {id} else old(tasks))
              && wakerCache == (if end.Finish? then old(wakerCache) - {id} else old(wakerCache))
              && yielders == (if end.Yield? && |old(yielders)| < 100 then old(yielders) + [id] else old(yielders))
              && waiters == if end.Wait? then old(waiters) + multiset{id} else old(waiters)
    {
      var id := running.value;
      running := None;
      match end
      case Finish =>
        tasks, wakerCache := tasks - {id}, wakerCache - {id};
      case Yield =>
        if |yielders| < CAPACITY { yielders := yielders + [id]; } else { dropped := dropped + 1; }
      case Wait =>
        waiters := waiters + multiset{id};
      case Again =>
    }

    /** The body of the loop of `run_ready_tasks`, with the effects of the poll it makes. */
    method PollNext(o: Outcome)
      requires taskQueue != [] && running.None?
      modifies this
      ensures View() == PollHead(old(View()), o)
      ensures var id := old(taskQueue)[0];
              if id !in old(tasks)
              then View() == old(View()).(ready := old(taskQueue)[1..])
              else wakerCache == old(wakerCache) + {id} - (if o.end.Finish? then {id} else {})
    {
      var id := taskQueue[0];
      taskQueue := taskQueue[1..];
      if id in tasks {
        wakerCache := wakerCache + {id};
        running := Some(id);
        assert View() == StartPoll(old(View()));
        FireWakers(o.wakes);
        SpawnTasks(o.births);
        FinishPoll(o.end);
      }
    }

    /** `run_ready_tasks`: it terminates, and what it polled is known. */
    method RunReadyTasks(behave: (Exec, seq<nat>) -> Outcome, ghost c: nat, ghost limit: nat) returns (ghost os: seq<Outcome>)
      requires Sound(View(), limit) && limit <= CAPACITY && running.None?
      requires forall x: Exec, h :: Sound(x, limit) && x.ready != [] ==> Legal(x, behave(x, h), c, limit)
      modifies this
      ensures LegalRound(old(View()), os, c, limit) && View() == RunRound(old(View()), os)
      ensures taskQueue == [] && running.None? && Sound(View(), limit)
      ensures Trace(old(View()), os) == old(taskQueue) + Woken(old(View()), os, c)
    {
      var history := [];
      os := [];
      while taskQueue != []
        invariant LegalRound(old(View()), os, c, limit) && View() == RunRound(old(View()), os)
        invariant Sound(View(), limit) && running.None?
        decreases 2 * limit - |os|
      {
        var o := behave(Exec(tasks, taskQueue, spawnQueue, wakerCache, yielders, waiters, running, nextId, dropped, panicked),
                        history);
        history := history + [taskQueue[0]];
        PollHeadKeeps(View(), o, c, limit);
        RoundExtends(old(View()), os, o, c, limit);
        RoundLength(old(View()), os + [o], c, limit);
        PollNext(o);
        os := os + [o];
      }
      RoundOrder(old(View()), os, c, limit);
      assert (old(taskQueue) + Woken(old(View()), os, c))[|os|..] == [];
    }

    /** `Executor::spawn` on the next spawned task. */
    method PullOne()
      requires spawnQueue != []
      modifies this
      ensures View() == Pull(old(View()))
    {
      var id := spawnQueue[0];
      if id in tasks {
        panicked := true;
      } else {
        spawnQueue := spawnQueue[1..];
        tasks := tasks + {id};
        WakeTask(id);
      }
    }

    method PullSpawned(ghost limit: nat)
      requires Sound(View(), limit) && limit <= CAPACITY
      modifies this
      ensures View() == Pulled(old(View()))
      ensures Sound(View(), limit) && spawnQueue == [] && running == old(running)
      ensures taskQueue == old(taskQueue) + old(spawnQueue)
    {
      hide Sound;
      while spawnQueue != []
        invariant Sound(View(), limit) && running == old(running)
        invariant taskQueue + spawnQueue == old(taskQueue) + old(spawnQueue)
        invariant Pulled(View()) == Pulled(old(View()))
      {
        PullKeeps(View(), limit);
        SoundBelow(View(), limit);
        PullHasRoom(View());
        assert taskQueue + [spawnQueue[0]] + spawnQueue[1..] == taskQueue + spawnQueue;
        PullOne();
      }
    }

    method DrainYielders(ghost limit: nat)
      requires Sound(View(), limit) && limit <= CAPACITY
      modifies this
      ensures View() == Drained(old(View()))
      ensures Sound(View(), limit) && yielders == [] && running == old(running)
      ensures taskQueue == old(taskQueue) + old(yielders)
    {
      hide Sound;
      while yielders != []
        invariant Sound(View(), limit) && running == old(running)
        invariant taskQueue + yielders == old(taskQueue) + old(yielders)
        invariant Drained(View()) == Drained(old(View()))
      {
        DrainKeeps(View(), limit);
        SoundBelow(View(), limit);
        DrainHasRoom(View());
        assert taskQueue + [yielders[0]] + yielders[1..] == taskQueue + yielders;
        var id := yielders[0];
        yielders := yielders[1..];
        WakeTask(id);
      }
    }

    /** One turn of the endless loop of `run`: it polls what was ready, what was spawned, and what the drainer woke. */
    method RunTurn(behave: (Exec, seq<nat>) -> Outcome, ghost c: nat, ghost limit: nat)
      returns (ghost os: seq<Outcome>, ghost polled: seq<nat>, ghost woken: seq<nat>)
      requires Sound(View(), limit) && limit <= CAPACITY && running.None?
      requires forall x: Exec, h :: Sound(x, limit) && x.ready != [] ==> Legal(x, behave(x, h), c, limit)
      modifies this
      ensures LegalRound(Pulled(old(View())), os, c, limit) && View() == Drained(RunRound(Pulled(old(View())), os))
      ensures RunRound(Pulled(old(View())), os).ready == []
      ensures Sound(View(), limit) && running.None? && yielders == []
      ensures polled == Trace(Pulled(old(View())), os) == old(taskQueue) + old(spawnQueue) + woken && Distinct(woken) && c !in woken
    {
      hide Sound, Legal;
      PullSpawned(limit);
      ghost var pulled := View();
      os := RunReadyTasks(behave, c, limit);
      polled, woken := Trace(pulled, os), Woken(pulled, os, c);
      RoundOrder(pulled, os, c, limit);
      DrainerNotWoken(pulled, os, c, limit);
      DrainYielders(limit);
    }
  }
}
