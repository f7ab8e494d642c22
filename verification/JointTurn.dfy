/**
  The executor and the request protocol as one machine: each poll of a round is a
  run of the protocol by the task at the head of the ready queue, with the device
  acting meanwhile. A request that is reported when a round starts is delivered
  when it ends.
 */
module JointTurn {
  import opened Finite
  import opened GpuProtocol
  import opened GpuProgress
  import opened Virtqueue
  import opened Wrappers
  import Driver = GpuDriver
  import Executor

  datatype Joint = Joint(x: Executor.Exec, w: World)

  /** The polls of a turn and the protocol's steps in each; then, while the processor halts, device steps and ticks. */
  datatype Turn = Turn(os: seq<Executor.Outcome>, runs: seq<seq<Action>>, idle: seq<Action>, ticks: seq<nat>)

  predicate DeviceAction(a: Action) {
    a.DeviceTake? || a.DeviceWrite? || a.DeviceComplete?
  }

  /** An action of requesting task `t`. */
  predicate ByTask(a: Action, t: nat) {
    match a
    case Acquire(u) => u == t
    case Submit(u, _) => u == t
    case PollFirst(u, _) => u == t
    case PollSecond(u) => u == t
    case Release(u) => u == t
    case Read(u) => u == t
    case _ => false
  }

  /** What may happen while `t` is polled, or a task of neither kind. */
  predicate Beside(a: Action, t: Option<nat>) {
    DeviceAction(a) || a.Post? || (t.Some? && ByTask(a, t.value))
  }

  /** Between polls nothing is in hand and each requesting task is idle or waits. */
  ghost predicate AtRest(w: World) {
    !w.panicked && w.hand.None? && forall t :: 0 <= t < |w.tasks| ==> w.tasks[t].Idle? || w.tasks[t].Waiting?
  }

  /** A waiting task resumes by polling its wait. */
  ghost predicate Resumes(actions: seq<Action>, t: nat) {
    exists i :: 0 <= i < |actions| && actions[i].PollFirst? && actions[i].t == t
                && forall j :: 0 <= j < i ==> DeviceAction(actions[j])
  }

  /** The tasks that the `WakeSlot` steps of a run wake, in order. */
  ghost function WokenIn(w: World, actions: seq<Action>, w': World): seq<nat>
    requires Run(w, actions, w')
    decreases |actions|
  {
    if actions == [] then []
    else
      (if actions[0].WakeSlot? && w.slots[w.hand.value.0].Waker? then [w.slots[w.hand.value.0].task] else [])
      + WokenIn(Apply(w, actions[0]), actions[1..], w')
  }

  /** One poll of the task at the head of the ready queue; `c` is the completion task. */
  ghost predicate JointPoll(j: Joint, o: Executor.Outcome, actions: seq<Action>, j': Joint, ids: seq<nat>, c: nat, limit: nat) {
    && j.x.ready != [] && j.x.running.None? && j'.x == Executor.PollHead(j.x, o)
    && |Executor.Live(j.x)| + o.births <= limit && !o.end.Again?
    && Run(j.w, actions, j'.w) && AtRest(j'.w)
    && if j.x.ready[0] == c then CompletionPoll(j.w, o, actions, j'.w, ids)
       else exists t :: TaskPoll(j.w, o, actions, j'.w, t, ids, j.x.ready[0])
  }

  /** The completion task reads the used ring to its end and yields; the tasks it wakes are those its run wakes. */
  ghost predicate CompletionPoll(w: World, o: Executor.Outcome, actions: seq<Action>, w': World, ids: seq<nat>)
    requires Run(w, actions, w')
  {
    && (forall i :: 0 <= i < |actions| ==> Draining(actions[i]))
    && AllRead(w') && o.end.Yield?
    && var woken := WokenIn(w, actions, w');
       |o.wakes| == |woken| && forall i :: 0 <= i < |woken| ==> woken[i] < |ids| && o.wakes[i] == ids[woken[i]]
  }

  /** A requesting task, or a task of neither kind, acts for itself; a waiting one resumes first. */
  ghost predicate TaskPoll(w: World, o: Executor.Outcome, actions: seq<Action>, w': World, t: Option<nat>, ids: seq<nat>, id: nat) {
    && o.wakes == [] && (t.Some? <==> id in ids)
    && (t.Some? ==> t.value < |ids| == |w.tasks| && ids[t.value] == id)
    && (forall i :: 0 <= i < |actions| ==> Beside(actions[i], t))
    && (t.Some? && w.tasks[t.value].Waiting? ==> Resumes(actions, t.value))
    && (t.Some? && t.value < |w'.tasks| && w'.tasks[t.value].Waiting? ==> o.end.Wait?)
  }

  ghost predicate JointRound(j: Joint, os: seq<Executor.Outcome>, runs: seq<seq<Action>>, j': Joint,
                             ids: seq<nat>, c: nat, limit: nat)
    requires |os| == |runs|
    decreases |os|
  {
    if os == [] then j' == j
    else exists j1 :: JointPoll(j, os[0], runs[0], j1, ids, c, limit) && JointRound(j1, os[1..], runs[1..], j', ids, c, limit)
  }

  // ---- What holds between polls ----

  /** A waiting task is on the ready queue if its slot is `Done`; otherwise its waker is registered. */
  ghost predicate Linked(ready: seq<nat>, waiting: multiset<nat>, tasks: seq<Pc>, slots: seq<Slot>, ids: seq<nat>) {
    && |ids| == |tasks|
    && forall t :: 0 <= t < |tasks| && tasks[t].Waiting? && tasks[t].h < |slots| ==>
         if slots[tasks[t].h].Done? then ids[t] in ready else ids[t] in waiting
  }

  ghost predicate JointInv(j: Joint, ids: seq<nat>, c: nat, limit: nat) {
    && Executor.Sound(j.x, limit) && limit <= Executor.CAPACITY && j.x.running.None?
    && Inv(j.w) && AtRest(j.w) && TasksKnown(j.w.subs, |j.w.tasks|)
    && Distinct(ids) && c !in ids
    && Linked(j.x.ready, j.x.waiting, j.w.tasks, j.w.slots, ids)
  }

  /** At start-up, before any request. */
  lemma {:induction false} JointStart(w: World, k: nat, x: Executor.Exec, ids: seq<nat>, c: nat, limit: nat)
    requires Start(w, k) && |ids| == k && Distinct(ids) && c !in ids
    requires Executor.Sound(x, limit) && limit <= Executor.CAPACITY && x.running.None?
    ensures JointInv(Joint(x, w), ids, c, limit)
  {
    hide Executor.Sound, Distinct;
    assert AtRest(w) && TasksKnown(w.subs, |w.tasks|) && Linked(x.ready, x.waiting, w.tasks, w.slots, ids);
    hide Inv;
    StartInv(w, k);
  }

  // ---- A poll of the completion task ----

  /** The tasks that a pass wakes are registered, each in its own slot, which it turns to `Done`. */
  ghost predicate WokenAt(w: World, w': World, t: nat) {
    t < |w.tasks| && Expects(w.tasks[t]) && w.tasks[t].h < |w.slots| == |w'.slots|
    && w.slots[w.tasks[t].h] == Waker(t) && w'.slots[w.tasks[t].h] == Done
  }

  lemma {:induction false} PassWakes(w: World, actions: seq<Action>, w': World)
    requires Inv(w) && Run(w, actions, w') && forall i :: 0 <= i < |actions| ==> Draining(actions[i])
    ensures Distinct(WokenIn(w, actions, w')) && forall t :: t in WokenIn(w, actions, w') ==> WokenAt(w, w', t)
    decreases |actions|
  {
    hide Inv, WellFormed, Apply, Enabled;
    if actions != [] {
      var w1, rest := Apply(w, actions[0]), actions[1..];
      StepKeeps(w, actions[0]);
      DrainStep(w, actions[0]);
      WokeStep(w, actions[0]);
      DrainWakesOnce(w1, rest, w');
      PassWakes(w1, rest, w');
      SlotsHaveOwners(w);
      if actions[0].WakeSlot? { WakeSlotSets(w); }
      FirstWoken(w, actions, w1, w');
    }
  }

  lemma {:induction false} FirstWoken(w: World, actions: seq<Action>, w1: World, w': World)
    requires Run(w, actions, w') && actions != [] && w1 == Apply(w, actions[0])
    requires |w.slots| == |w1.slots| == |w'.slots| == WAKER_SLOTS && w1.tasks == w.tasks
    requires forall d :: 0 <= d < WAKER_SLOTS ==> w1.slots[d] == w.slots[d] || w1.slots[d] == Done
    requires forall d :: 0 <= d < WAKER_SLOTS ==> w'.slots[d] == w1.slots[d] || w'.slots[d] == Done
    requires forall d :: 0 <= d < WAKER_SLOTS && w.slots[d].Waker? ==> Registered(w.tasks, w.slots[d].task, d)
    requires actions[0].WakeSlot? ==> w.hand.Some? && w.hand.value.0 < |w.slots| && w1.slots[w.hand.value.0] == Done
    requires var later := WokenIn(w1, actions[1..], w');
             Distinct(later) && forall t :: t in later ==> WokenAt(w1, w', t)
    ensures Distinct(WokenIn(w, actions, w')) && forall t :: t in WokenIn(w, actions, w') ==> WokenAt(w, w', t)
  {
    hide WellFormed, Apply, Enabled;
    var later := WokenIn(w1, actions[1..], w');
    if actions[0].WakeSlot? && w.slots[w.hand.value.0].Waker? {
      var t := w.slots[w.hand.value.0].task;
      assert WokenIn(w, actions, w') == [t] + later;
      assert WokenAt(w, w', t) && !WokenAt(w1, w', t);
    } else {
      assert WokenIn(w, actions, w') == later;
    }
  }

  lemma WakeSlotSets(w: World)
    requires WellFormed(w) && Enabled(w, WakeSlot)
    ensures w.hand.Some? && w.hand.value.0 < |w.slots| && Apply(w, WakeSlot).slots == w.slots[w.hand.value.0 := Done]
  {
  }

  /** A waker that turned to `Done` fired. */
  lemma {:induction false} DoneWasWoken(w: World, actions: seq<Action>, w': World, d: nat, t: nat)
    requires Inv(w) && Run(w, actions, w') && forall i :: 0 <= i < |actions| ==> Draining(actions[i])
    requires d < |w.slots| && w.slots[d] == Waker(t)
    ensures |w'.slots| == |w.slots| && (w'.slots[d] == Waker(t) || t in WokenIn(w, actions, w'))
    decreases |actions|
  {
    hide Inv, WellFormed, Apply, Enabled;
    if actions != [] {
      var w1 := Apply(w, actions[0]);
      StepKeeps(w, actions[0]);
      DrainStep(w, actions[0]);
      if actions[0].WakeSlot? { WakeSlotSets(w); }
      if w1.slots[d] == Waker(t) {
        DoneWasWoken(w1, actions[1..], w', d, t);
      } else {
        SlotsKept(w1, actions[1..], w');
      }
    }
  }

  lemma {:induction false} SlotsKept(w: World, actions: seq<Action>, w': World)
    requires Inv(w) && Run(w, actions, w')
    ensures |w'.slots| == |w.slots| == WAKER_SLOTS
  {
    hide Run, Inv, WellFormed;
    RunKeeps(w, actions, w');
    SlotsHaveOwners(w);
    SlotsHaveOwners(w');
  }

  /** What a poll of the completion task is to the executor: it fires registered wakers, each once. */
  lemma {:induction false} CompletionIsLegal(j: Joint, o: Executor.Outcome, actions: seq<Action>, j': Joint,
                                             ids: seq<nat>, c: nat, limit: nat)
    requires JointInv(j, ids, c, limit) && JointPoll(j, o, actions, j', ids, c, limit) && j.x.ready[0] == c
    ensures Executor.Legal(j.x, o, c, limit)
  {
    hide Run, Inv, Executor.Sound, Executor.PollHead, Executor.Live, TasksKnown, WokenIn;
    var w, w' := j.w, j'.w;
    PassWakes(w, actions, w');
    var woken := WokenIn(w, actions, w');
    forall i | 0 <= i < |woken| ensures WokenAt(w, w', woken[i]) && o.wakes[i] == ids[woken[i]] && o.wakes[i] in j.x.waiting {
      assert woken[i] in woken;
    }
  }

  lemma {:induction false} CompletionKeeps(j: Joint, o: Executor.Outcome, actions: seq<Action>, j': Joint,
                                           ids: seq<nat>, c: nat, limit: nat)
    requires JointInv(j, ids, c, limit) && JointPoll(j, o, actions, j', ids, c, limit) && j.x.ready[0] == c
    ensures Executor.Legal(j.x, o, c, limit) && Linked(j'.x.ready, j'.x.waiting, j'.w.tasks, j'.w.slots, ids)
  {
    hide Run, Inv, Executor.Sound, Executor.Legal, Executor.PollHead, Executor.Live, AtRest, TasksKnown, Distinct, WokenIn, WokenAt;
    var w, w' := j.w, j'.w;
    CompletionIsLegal(j, o, actions, j', ids, c, limit);
    Executor.PollHeadKeeps(j.x, o, c, limit);
    Executor.PollHeadWaits(j.x, o, c, limit);
    DrainWakesOnce(w, actions, w');
    PassWakes(w, actions, w');
    forall t | 0 <= t < |w'.tasks| && w'.tasks[t].Waiting? && w'.tasks[t].h < |w'.slots|
      ensures if w'.slots[w'.tasks[t].h].Done? then ids[t] in j'.x.ready else ids[t] in j'.x.waiting
    {
      var d := w.tasks[t].h;
      WaitingHasWaker(w, t);
      if w.slots[d].Done? {
        assert ids[t] in ids;
        StaysInTail(j.x.ready, ids[t]);
      } else if w'.slots[d].Done? {
        DoneWasWoken(w, actions, w', d, t);
        var i :| 0 <= i < |o.wakes| && WokenIn(w, actions, w')[i] == t;
        assert o.wakes[i] == ids[t];
      } else {
        NotFired(w, w', WokenIn(w, actions, w'), o.wakes, ids, t);
      }
    }
  }

  lemma NotFired(w: World, w': World, woken: seq<nat>, wakes: seq<nat>, ids: seq<nat>, t: nat)
    requires Distinct(ids) && |wakes| == |woken| && forall i :: 0 <= i < |woken| ==> woken[i] < |ids| && wakes[i] == ids[woken[i]]
    requires forall u :: u in woken ==> WokenAt(w, w', u)
    requires t < |w.tasks| == |ids| && w.tasks[t].Waiting? && w.tasks[t].h < |w'.slots| && !w'.slots[w.tasks[t].h].Done?
    ensures ids[t] !in wakes
  {
    forall i | 0 <= i < |wakes| ensures wakes[i] != ids[t] {
      assert woken[i] in woken && WokenAt(w, w', woken[i]);
    }
  }

  lemma StaysInTail(xs: seq<nat>, id: nat)
    requires id in xs && id != xs[0]
    ensures id in xs[1..]
  {
    var i :| 0 <= i < |xs| && xs[i] == id;
    assert xs[1..][i - 1] == id;
  }

  lemma WaitingHasWaker(w: World, t: nat)
    requires Inv(w) && t < |w.tasks| && w.tasks[t].Waiting?
    ensures w.tasks[t].h < |w.slots|
    ensures w.slots[w.tasks[t].h] == Done || w.slots[w.tasks[t].h] == Waker(t)
  {
    hide RingInv, Layout, Ledger, Stages, Completions, Counts, Owners, Chains, Replies, Delivered, Waiters, Slots;
    WaitingSlot(w.subs, w.stage, w.tasks, w.posted, w.slots, w.ready, t);
  }

  // ---- A poll of another task ----

  /** Task `u`, if it waits, does so without a `Done` in its slot. */
  ghost predicate Quiet(w: World, u: nat) {
    u < |w.tasks| && (w.tasks[u].Waiting? && w.tasks[u].h < |w.slots| ==> !w.slots[w.tasks[u].h].Done?)
  }

  lemma SlotsRange(w: World)
    requires WellFormed(w)
    ensures |w.slots| == WAKER_SLOTS
    ensures forall t :: 0 <= t < |w.tasks| && !w.tasks[t].Idle? ==> w.tasks[t].h < WAKER_SLOTS
  {
  }

  /** The steps beside `poll` itself touch no slot and leave no task waiting that did not wait. */
  lemma CalmStep(w: World, a: Action, t: Option<nat>)
    requires WellFormed(w) && Enabled(w, a) && Beside(a, t) && !a.PollFirst? && !a.PollSecond?
    ensures var w' := Apply(w, a);
            && |w'.tasks| == |w.tasks| && w'.slots == w.slots
            && forall u :: 0 <= u < |w.tasks| ==> w'.tasks[u] == w.tasks[u] || (t == Some(u) && !w'.tasks[u].Waiting?)
  {
    hide WellFormed, SetAvailable, SetWritable, AddRequest, SetFree, NextUsed, GetFree, GetFreeTwice, Take, Complete, Publish;
  }

  /** The lock sections of `poll` touch the polled task and its slot, and leave it quiet. */
  ghost predicate PolledAlone(w: World, t: nat, w': World) {
    && |w'.tasks| == |w.tasks| && Quiet(w', t) && OwnSlotOnly(w, t, w'.slots)
    && forall u :: 0 <= u < |w.tasks| && u != t ==> w'.tasks[u] == w.tasks[u]
  }

  lemma PollStep(w: World, a: Action)
    requires WellFormed(w) && Enabled(w, a) && (a.PollFirst? || a.PollSecond?)
    ensures PolledAlone(w, a.t, Apply(w, a))
  {
    hide WellFormed, PolledAlone, DoPollFirst, DoPollSecond;
    if a.PollFirst? { FirstSection(w, a.t, a.queued); } else { SecondSection(w, a.t); }
  }

  lemma FirstSection(w: World, t: nat, queued: bool)
    requires WellFormed(w) && t < |w.tasks| && (w.tasks[t].Polling? || w.tasks[t].Waiting?)
    ensures PolledAlone(w, t, DoPollFirst(w, t, queued))
  {
    SlotsRange(w);
    hide WellFormed, PolledAlone;
    var pc, w' := w.tasks[t], DoPollFirst(w, t, queued);
    match w.slots[pc.h]
    case Empty => Updated(w, t, Waker(t), Waiting(pc.h, pc.n, pc.s), w');
    case Done => Updated(w, t, Empty, Woken(pc.h, pc.n, pc.s), w');
    case Waker(_) => Updated(w, t, Waker(t), Rechecking(pc.h, pc.n, pc.s), w');
  }

  lemma SecondSection(w: World, t: nat)
    requires WellFormed(w) && t < |w.tasks| && w.tasks[t].Rechecking?
    ensures PolledAlone(w, t, DoPollSecond(w, t))
  {
    SlotsRange(w);
    hide WellFormed, PolledAlone;
    var w' := DoPollSecond(w, t);
    Updated(w, t, w'.slots[w.tasks[t].h], w'.tasks[t], w');
  }

  lemma Updated(w: World, t: nat, slot: Slot, pc: Pc, w': World)
    requires t < |w.tasks| && Expects(w.tasks[t]) && w.tasks[t].h < |w.slots|
    requires w'.slots == w.slots[w.tasks[t].h := slot] && w'.tasks == w.tasks[t := pc]
    requires pc.Waiting? ==> pc.h == w.tasks[t].h && !slot.Done?
    ensures PolledAlone(w, t, w')
  {
  }

  ghost predicate OwnSlotOnly(w: World, t: nat, slots: seq<Slot>) {
    && t < |w.tasks| && Expects(w.tasks[t]) && |slots| == |w.slots|
    && forall d :: 0 <= d < |slots| && d != w.tasks[t].h ==> slots[d] == w.slots[d]
  }

  /** Once it has polled its wait, the polled task is quiet and stays so until its poll ends. */
  lemma OwnStepQuiet(w: World, a: Action, t: nat)
    requires WellFormed(w) && Enabled(w, a) && Beside(a, Some(t)) && t < |w.tasks|
    requires (a.PollFirst? && a.t == t) || Quiet(w, t)
    ensures Quiet(Apply(w, a), t)
  {
    hide WellFormed, Enabled, Apply;
    if a.PollFirst? || a.PollSecond? { PollStep(w, a); } else { CalmStep(w, a, Some(t)); }
  }

  lemma OwnersOfInv(w: World)
    requires Inv(w)
    ensures Owners(w.Size(), w.link.q.free, w.posted, w.tasks)
  {
  }

  /** Task `u` stands where it stood and, if it waits, its slot is as it was. */
  ghost predicate Untouched(w: World, w': World, u: nat) {
    && u < |w.tasks| == |w'.tasks| && w'.tasks[u] == w.tasks[u] && |w.slots| == |w'.slots|
    && (w.tasks[u].Waiting? && w.tasks[u].h < |w.slots| ==> w'.slots[w.tasks[u].h] == w.slots[w.tasks[u].h])
  }

  lemma {:induction false} OtherStep(w: World, a: Action, t: Option<nat>, u: nat)
    requires Inv(w) && WellFormed(w) && Enabled(w, a) && Beside(a, t) && t != Some(u) && u < |w.tasks|
    ensures Untouched(w, Apply(w, a), u)
  {
    hide Inv, WellFormed, Enabled, Apply, Owners;
    OwnersOfInv(w);
    if a.PollFirst? || a.PollSecond? {
      PollStep(w, a);
      if w.tasks[u].Waiting? { PairsApart(w.Size(), w.link.q.free, w.posted, w.tasks, a.t, u); }
    } else {
      CalmStep(w, a, t);
    }
  }

  lemma {:induction false} OthersUntouched(w: World, actions: seq<Action>, w': World, t: Option<nat>, u: nat)
    requires Inv(w) && Run(w, actions, w') && (forall i :: 0 <= i < |actions| ==> Beside(actions[i], t))
    requires t != Some(u) && u < |w.tasks|
    ensures Untouched(w, w', u)
    decreases |actions|
  {
    hide Inv, WellFormed, Apply, Enabled, Beside;
    if actions != [] {
      StepKeeps(w, actions[0]);
      StepFrame(w, actions[0]);
      OtherStep(w, actions[0], t, u);
      OthersUntouched(Apply(w, actions[0]), actions[1..], w', t, u);
    }
  }

  lemma {:induction false} OwnStaysQuiet(w: World, actions: seq<Action>, w': World, t: nat)
    requires Inv(w) && Run(w, actions, w') && (forall i :: 0 <= i < |actions| ==> Beside(actions[i], Some(t)))
    requires t < |w.tasks| && (Quiet(w, t) || Resumes(actions, t))
    ensures Quiet(w', t)
    decreases |actions|
  {
    hide Inv, WellFormed, Apply, Enabled, Quiet, Beside;
    if actions == [] {
      assert !Resumes(actions, t);
    } else {
      var a, rest := actions[0], actions[1..];
      StepKeeps(w, a);
      StepFrame(w, a);
      if Quiet(w, t) || (a.PollFirst? && a.t == t) {
        OwnStepQuiet(w, a, t);
      } else {
        var i :| 0 <= i < |actions| && actions[i].PollFirst? && actions[i].t == t && forall j :: 0 <= j < i ==> DeviceAction(actions[j]);
        assert rest[i - 1].PollFirst? && rest[i - 1].t == t && forall j :: 0 <= j < i - 1 ==> DeviceAction(rest[j]);
        assert Resumes(rest, t);
      }
      OwnStaysQuiet(Apply(w, a), rest, w', t);
    }
  }

  lemma {:induction false} TaskPollKeeps(j: Joint, o: Executor.Outcome, actions: seq<Action>, j': Joint,
                                         ids: seq<nat>, c: nat, limit: nat)
    requires JointInv(j, ids, c, limit) && JointPoll(j, o, actions, j', ids, c, limit) && j.x.ready[0] != c
    ensures Executor.Legal(j.x, o, c, limit) && Linked(j'.x.ready, j'.x.waiting, j'.w.tasks, j'.w.slots, ids)
  {
    hide Run, Inv, Executor.Sound, Executor.PollHead, Executor.Live, AtRest, TasksKnown, Distinct, Beside, Resumes, Quiet;
    var w, w' := j.w, j'.w;
    Executor.PollHeadKeeps(j.x, o, c, limit);
    Executor.PollHeadWaits(j.x, o, c, limit);
    assert j'.x.ready == j.x.ready[1..];
    var t :| TaskPoll(w, o, actions, w', t, ids, j.x.ready[0]);
    RunKeeps(w, actions, w');
    forall u | 0 <= u < |w'.tasks| && w'.tasks[u].Waiting? && w'.tasks[u].h < |w'.slots|
      ensures if w'.slots[w'.tasks[u].h].Done? then ids[u] in j'.x.ready else ids[u] in j'.x.waiting
    {
      if t == Some(u) {
        if !w.tasks[u].Waiting? { QuietIfNotWaiting(w, u); }
        OwnStaysQuiet(w, actions, w', u);
        QuietIsNotDone(w', u);
      } else {
        OthersUntouched(w, actions, w', t, u);
        NotHead(ids, u, t, j.x.ready[0]);
        if ids[u] in j.x.ready { StaysInTail(j.x.ready, ids[u]); }
      }
    }
  }

  lemma QuietIfNotWaiting(w: World, u: nat)
    requires u < |w.tasks| && !w.tasks[u].Waiting?
    ensures Quiet(w, u)
  {
  }

  lemma QuietIsNotDone(w: World, u: nat)
    requires Quiet(w, u) && w.tasks[u].Waiting? && w.tasks[u].h < |w.slots|
    ensures !w.slots[w.tasks[u].h].Done?
  {
  }

  lemma NotHead(ids: seq<nat>, u: nat, t: Option<nat>, id: nat)
    requires Distinct(ids) && u < |ids| && t != Some(u) && (t.Some? <==> id in ids)
    requires t.Some? ==> t.value < |ids| && ids[t.value] == id
    ensures ids[u] != id
  {
    assert ids[u] in ids;
  }

  // ---- A request on its way ----

  function Rank(st: Stage): nat {
    match st
    case Offered => 0
    case InDevice => 1
    case Reported => 2
    case InHand => 3
    case Signalled => 4
    case Collected => 5
  }

  /** No submission falls back to an earlier stage. */
  ghost predicate MovesOn(stage: seq<Stage>, stage': seq<Stage>) {
    |stage| <= |stage'| && forall s :: 0 <= s < |stage| ==> Rank(stage[s]) <= Rank(stage'[s])
  }

  /** The submission that a step of device or completion task moves stands just one stage earlier. */
  ghost predicate OneStageEarlier(w: World, a: Action) {
    match a
    case DeviceTake => w.link.taken < |w.stage| && w.stage[w.link.taken].Offered?
    case DeviceComplete(h, _) => h in w.busy && w.busy[h] < |w.stage| && w.stage[w.busy[h]].InDevice?
    case PopUsed =>
      w.link.consumed < |w.reported| ==>
        w.reported[w.link.consumed] < |w.stage| && w.stage[w.reported[w.link.consumed]].Reported?
    case WakeSlot => w.hand.Some? && w.hand.value.1 < |w.stage| && w.stage[w.hand.value.1].InHand?
    case _ => true
  }

  lemma {:induction false} StageMoved(w: World, a: Action)
    requires Inv(w) && WellFormed(w) && Enabled(w, a)
    ensures OneStageEarlier(w, a)
  {
    hide RingInv, Layout, Ledger, Counts, Owners, Slots, Waiters, Chains, Replies, Delivered, Stages, Completions;
    AheadOfDriver(w.subs, w.stage, w.link.taken, w.busy);
    BehindDevice(w.subs, w.stage, w.reported, w.link.consumed, w.hand);
    StagesRange(w);
    hide Inv, WellFormed, NextUsed, CanTake;
  }

  lemma AheadOfDriver(subs: seq<Submission>, stage: seq<Stage>, taken: nat, busy: map<nat, nat>)
    requires Stages(subs, stage, taken, busy)
    ensures taken < |stage| ==> stage[taken].Offered?
    ensures forall h :: h in busy ==> busy[h] < |stage| && stage[busy[h]].InDevice?
  {
  }

  lemma BehindDevice(subs: seq<Submission>, stage: seq<Stage>, reported: seq<nat>, consumed: nat, hand: Option<(nat, nat)>)
    requires Completions(subs, stage, reported, consumed, hand)
    ensures consumed < |reported| ==> reported[consumed] < |stage| && stage[reported[consumed]].Reported?
    ensures hand.Some? ==> hand.value.1 < |stage| && stage[hand.value.1].InHand?
  {
  }

  lemma {:induction false} StepMovesOn(w: World, a: Action)
    requires Inv(w) && WellFormed(w) && Enabled(w, a)
    ensures MovesOn(w.stage, Apply(w, a).stage)
  {
    StageMoved(w, a);
    hide Inv;
    if Draining(a) { DrainMovesStage(w, a); } else { TaskMovesStage(w, a); }
  }

  lemma StagesRange(w: World)
    requires WellFormed(w)
    ensures |w.stage| == |w.subs| && (w.hand.Some? ==> w.hand.value.1 < |w.subs|) && forall h :: h in w.busy ==> w.busy[h] < |w.subs|
    ensures forall t :: 0 <= t < |w.tasks| && HasSub(w.tasks[t]) ==> w.tasks[t].s < |w.subs|
    ensures forall j :: 0 <= j < |w.reported| ==> w.reported[j] < |w.subs|
    ensures CanTake(w.link) ==> w.link.taken < |w.subs|
    ensures NextUsed(w.link.q).1.Some? ==> w.link.consumed < |w.reported|
  {
    hide NextUsed, CanTake;
  }

  lemma DrainMovesStage(w: World, a: Action)
    requires WellFormed(w) && Enabled(w, a) && Draining(a)
    requires OneStageEarlier(w, a)
    ensures MovesOn(w.stage, Apply(w, a).stage)
  {
    StagesRange(w);
    hide WellFormed, NextUsed, CanTake, Take, Complete, Consume;
  }

  lemma TaskMovesStage(w: World, a: Action)
    requires WellFormed(w) && Enabled(w, a) && !Draining(a)
    ensures MovesOn(w.stage, Apply(w, a).stage)
  {
    hide WellFormed, Rank, DoPollFirst, DoPollSecond, DoPost, DoSubmit;
    match a
    case Post => PostMovesStage(w);
    case Submit(t, data) => SubmitMovesStage(w, t, data);
    case PollFirst(t, queued) => FirstMovesStage(w, t, queued);
    case PollSecond(t) => SecondMovesStage(w, t);
    case _ =>
  }

  lemma PostMovesStage(w: World)
    requires WellFormed(w)
    ensures MovesOn(w.stage, DoPost(w).stage)
  {
    hide SetWritable, SetAvailable, GetFree, Publish, Rank;
  }

  lemma SubmitMovesStage(w: World, t: nat, data: seq<int>)
    requires WellFormed(w) && t < |w.tasks| && w.tasks[t].Got? && |data| <= PAGE_LEN
    ensures MovesOn(w.stage, DoSubmit(w, t, data).stage)
  {
    hide AddRequest, Rank;
  }

  lemma FirstMovesStage(w: World, t: nat, queued: bool)
    requires WellFormed(w) && t < |w.tasks| && HasSub(w.tasks[t])
    ensures MovesOn(w.stage, DoPollFirst(w, t, queued).stage)
  {
    StagesRange(w);
    hide WellFormed, MovesOn;
    var stage' := DoPollFirst(w, t, queued).stage;
    assert stage' == w.stage || stage' == w.stage[w.tasks[t].s := Collected];
    CollectedMovesOn(w.stage, w.tasks[t].s);
  }

  lemma SecondMovesStage(w: World, t: nat)
    requires WellFormed(w) && t < |w.tasks| && HasSub(w.tasks[t])
    ensures MovesOn(w.stage, DoPollSecond(w, t).stage)
  {
    StagesRange(w);
    hide WellFormed, MovesOn;
    CollectedMovesOn(w.stage, w.tasks[t].s);
  }

  lemma CollectedMovesOn(stage: seq<Stage>, s: nat)
    requires s < |stage|
    ensures MovesOn(stage, stage) && MovesOn(stage, stage[s := Collected])
  {
  }

  lemma {:induction false} RunMovesOn(w: World, actions: seq<Action>, w': World)
    requires Inv(w) && Run(w, actions, w')
    ensures MovesOn(w.stage, w'.stage)
    decreases |actions|
  {
    hide Inv, WellFormed, Enabled, Apply, Rank;
    if actions != [] {
      StepKeeps(w, actions[0]);
      StepMovesOn(w, actions[0]);
      RunMovesOn(Apply(w, actions[0]), actions[1..], w');
    }
  }

  /** Submissions are never changed. */
  lemma {:induction false} RunKeepsSub(w: World, actions: seq<Action>, w': World, s: nat)
    requires Run(w, actions, w') && s < |w.subs|
    ensures s < |w'.subs| && w'.subs[s] == w.subs[s]
    decreases |actions|
  {
    hide WellFormed, Enabled, Apply;
    if actions != [] {
      StepKeepsSub(w, actions[0], s);
      RunKeepsSub(Apply(w, actions[0]), actions[1..], w', s);
    }
  }

  lemma StepKeepsSub(w: World, a: Action, s: nat)
    requires WellFormed(w) && Enabled(w, a) && s < |w.subs|
    ensures s < |Apply(w, a).subs| && Apply(w, a).subs[s] == w.subs[s]
  {
    hide WellFormed, SetAvailable, SetWritable, AddRequest, NextUsed, GetFree, GetFreeTwice;
    match a
    case Post =>
    case Submit(t, data) =>
    case _ =>
  }

  /** Nothing is left between device and slot after a pass. */
  lemma {:induction false} AllReadIsSignalled(w: World, s: nat)
    requires Inv(w) && AllRead(w) && s < |w.stage| && Rank(w.stage[s]) >= 2
    ensures Rank(w.stage[s]) >= 4
  {
    hide Inv;
    if w.stage[s].Reported? {
      ReportedIsUnread(w, s);
      RingsOfInv(w);
      NextUsedReadsFifo(w.link);
    }
    if w.stage[s].InHand? { InHandIsHeld(w, s); }
  }

  lemma RingsOfInv(w: World)
    requires Inv(w)
    ensures RingInv(w.link)
  {
  }

  // ---- Rounds ----

  lemma {:induction false} PollKeeps(j: Joint, o: Executor.Outcome, actions: seq<Action>, j': Joint,
                                     ids: seq<nat>, c: nat, limit: nat)
    requires JointInv(j, ids, c, limit) && JointPoll(j, o, actions, j', ids, c, limit)
    ensures JointInv(j', ids, c, limit) && Executor.Legal(j.x, o, c, limit)
  {
    if j.x.ready[0] == c { CompletionKeeps(j, o, actions, j', ids, c, limit); } else { TaskPollKeeps(j, o, actions, j', ids, c, limit); }
    hide Run, Inv, Executor.Sound, Executor.Legal, Executor.PollHead, AtRest, TasksKnown, Distinct, Linked, CompletionPoll, TaskPoll;
    Executor.PollHeadKeeps(j.x, o, c, limit);
    RunKeeps(j.w, actions, j'.w);
    RunKeepsTasks(j.w, actions, j'.w);
  }

  /** Reported, and signalled once the completion task has been polled. */
  ghost predicate Advanced(w: World, s: nat, passed: bool) {
    s < |w.stage| && Rank(w.stage[s]) >= if passed then 4 else 2
  }

  lemma {:induction false} PollAdvances(j: Joint, o: Executor.Outcome, actions: seq<Action>, j': Joint,
                                        ids: seq<nat>, c: nat, limit: nat, s: nat, passed: bool)
    requires JointInv(j, ids, c, limit) && JointPoll(j, o, actions, j', ids, c, limit) && Advanced(j.w, s, passed)
    ensures Advanced(j'.w, s, passed || j.x.ready[0] == c)
  {
    hide Run, Inv, Executor.Sound, Executor.Legal, Executor.PollHead, AtRest, TasksKnown, Distinct, Linked, TaskPoll, Rank;
    RunMovesOn(j.w, actions, j'.w);
    RunKeeps(j.w, actions, j'.w);
    if j.x.ready[0] == c { AllReadIsSignalled(j'.w, s); }
  }

  /** The completion task is queued, or has been polled and yielded. */
  ghost predicate Homed(x: Executor.Exec, c: nat) {
    c in x.ready || c in x.yielders
  }

  lemma {:induction false} PollHomed(j: Joint, o: Executor.Outcome, actions: seq<Action>, j': Joint,
                                     ids: seq<nat>, c: nat, limit: nat)
    requires JointInv(j, ids, c, limit) && JointPoll(j, o, actions, j', ids, c, limit) && Homed(j.x, c)
    ensures Homed(j'.x, c)
  {
    PollKeeps(j, o, actions, j', ids, c, limit);
    hide Run, Inv, Executor.Sound, Executor.Legal, Executor.PollHead, Executor.Live, AtRest, TasksKnown, Distinct, Linked, TaskPoll;
    Executor.PollHeadKeeps(j.x, o, c, limit);
    Executor.PollHeadYields(j.x, o, c, limit);
    if c in j.x.ready && c != j.x.ready[0] { StaysInTail(j.x.ready, c); }
  }

  /** A joint round is a legal round of the executor and keeps what holds between polls. */
  lemma {:induction false} RoundKeeps(j: Joint, os: seq<Executor.Outcome>, runs: seq<seq<Action>>, j': Joint,
                                      ids: seq<nat>, c: nat, limit: nat)
    requires |os| == |runs| && JointInv(j, ids, c, limit) && JointRound(j, os, runs, j', ids, c, limit) && Homed(j.x, c)
    ensures JointInv(j', ids, c, limit) && Homed(j'.x, c)
    ensures Executor.LegalRound(j.x, os, c, limit) && j'.x == Executor.RunRound(j.x, os)
    decreases |os|
  {
    hide JointInv, JointPoll, Executor.Legal, Executor.PollHead, Homed;
    if os != [] {
      var j1 :| JointPoll(j, os[0], runs[0], j1, ids, c, limit) && JointRound(j1, os[1..], runs[1..], j', ids, c, limit);
      PollKeeps(j, os[0], runs[0], j1, ids, c, limit);
      PollHomed(j, os[0], runs[0], j1, ids, c, limit);
      PollQueues(j, os[0], runs[0], j1, ids, c, limit);
      RoundKeeps(j1, os[1..], runs[1..], j', ids, c, limit);
    }
  }

  lemma PollQueues(j: Joint, o: Executor.Outcome, actions: seq<Action>, j': Joint, ids: seq<nat>, c: nat, limit: nat)
    requires JointPoll(j, o, actions, j', ids, c, limit)
    ensures j.x.ready != [] && j.x.running.None? && j'.x == Executor.PollHead(j.x, o)
  {
    hide Run, Executor.PollHead, AtRest, CompletionPoll, TaskPoll;
  }

  lemma {:induction false} RoundAdvances(j: Joint, os: seq<Executor.Outcome>, runs: seq<seq<Action>>, j': Joint,
                                         ids: seq<nat>, c: nat, limit: nat, s: nat, passed: bool)
    requires |os| == |runs| && JointInv(j, ids, c, limit) && JointRound(j, os, runs, j', ids, c, limit)
    requires Advanced(j.w, s, passed) && s < |j.w.subs|
    ensures Advanced(j'.w, s, passed || c in Executor.Trace(j.x, os))
    ensures s < |j'.w.subs| && j'.w.subs[s] == j.w.subs[s]
    decreases |os|
  {
    hide JointInv, JointPoll, Advanced, Executor.Legal, Executor.PollHead;
    if os != [] {
      var j1 :| JointPoll(j, os[0], runs[0], j1, ids, c, limit) && JointRound(j1, os[1..], runs[1..], j', ids, c, limit);
      PollKeeps(j, os[0], runs[0], j1, ids, c, limit);
      PollAdvances(j, os[0], runs[0], j1, ids, c, limit, s, passed);
      PollSub(j, os[0], runs[0], j1, ids, c, limit, s);
      PollQueues(j, os[0], runs[0], j1, ids, c, limit);
      RoundAdvances(j1, os[1..], runs[1..], j', ids, c, limit, s, passed || j.x.ready[0] == c);
    }
  }

  lemma {:induction false} PollSub(j: Joint, o: Executor.Outcome, actions: seq<Action>, j': Joint,
                                   ids: seq<nat>, c: nat, limit: nat, s: nat)
    requires JointPoll(j, o, actions, j', ids, c, limit) && s < |j.w.subs|
    ensures s < |j'.w.subs| && j'.w.subs[s] == j.w.subs[s]
  {
    hide Run, Executor.Legal, Executor.PollHead, AtRest, CompletionPoll, TaskPoll;
    RunKeepsSub(j.w, actions, j'.w, s);
  }

  /** Between polls, a signalled request whose task is not queued is delivered. */
  lemma {:induction false} SettledIsDelivered(j: Joint, ids: seq<nat>, c: nat, limit: nat, s: nat)
    requires JointInv(j, ids, c, limit) && j.x.ready == [] && s < |j.w.subs| && j.w.subs[s].Request?
    requires s < |j.w.stage| && Rank(j.w.stage[s]) >= 4
    ensures IsDelivered(j.w.deliveries, s)
  {
    hide Inv, Executor.Sound, Distinct, IsDelivered;
    LedgerSizes(j.w);
    if !IsDelivered(j.w.deliveries, s) {
      if j.w.stage[s].Signalled? { SignalledWaiter(j.w, s); } else { CollectedReader(j.w, s); }
    }
  }

  /**
    A request that the device has reported when a round of the executor starts,
    with the completion task on the ready queue, is delivered to its caller when
    the round ends: whatever the other tasks do, whatever the device does meanwhile.
   */
  lemma {:induction false} RoundDelivers(j: Joint, os: seq<Executor.Outcome>, runs: seq<seq<Action>>, j': Joint,
                                         ids: seq<nat>, c: nat, limit: nat, s: nat)
    requires |os| == |runs| && JointInv(j, ids, c, limit) && JointRound(j, os, runs, j', ids, c, limit)
    requires c in j.x.ready && j'.x.ready == []
    requires s < |j.w.stage| == |j.w.subs| && j.w.subs[s].Request? && Rank(j.w.stage[s]) >= 2
    ensures IsDelivered(j'.w.deliveries, s)
  {
    hide JointRound, IsDelivered, Inv, AtRest, TasksKnown, Distinct, Linked, Executor.Sound;
    RoundKeeps(j, os, runs, j', ids, c, limit);
    RoundAdvances(j, os, runs, j', ids, c, limit, s, false);
    Executor.RoundCounts(j.x, os, c, limit, c);
    SettledIsDelivered(j', ids, c, limit, s);
  }

  // ---- Turns ----

  /**
    One turn of `run`: the spawned tasks are pulled, the ready ones polled, the
    yielders woken; then, while the processor halts, the device goes on and timers
    wake tasks that wait for a tick.
   */
  ghost predicate JointTurn(j: Joint, t: Turn, j': Joint, ids: seq<nat>, c: nat, limit: nat) {
    exists j2: Joint ::
      && |t.os| == |t.runs| && j2.x.ready == []
      && JointRound(j.(x := Executor.Pulled(j.x)), t.os, t.runs, j2, ids, c, limit)
      && Run(j2.w, t.idle, j'.w) && (forall i :: 0 <= i < |t.idle| ==> DeviceAction(t.idle[i]))
      && Distinct(t.ticks) && (forall id :: id in t.ticks ==> id in j2.x.waiting && id !in ids)
      && j'.x == Executor.FireAll(Executor.Drained(j2.x), t.ticks)
  }

  ghost predicate Turns(j: Joint, ts: seq<Turn>, j': Joint, ids: seq<nat>, c: nat, limit: nat)
    decreases |ts|
  {
    if ts == [] then j' == j
    else exists j1 :: JointTurn(j, ts[0], j1, ids, c, limit) && Turns(j1, ts[1..], j', ids, c, limit)
  }

  /** The completion task is polled in the next turn. */
  ghost predicate Scheduled(x: Executor.Exec, c: nat) {
    c in x.ready || c in x.spawned
  }

  lemma {:induction false} PulledKeeps(j: Joint, ids: seq<nat>, c: nat, limit: nat)
    requires JointInv(j, ids, c, limit) && Scheduled(j.x, c)
    ensures var j1 := j.(x := Executor.Pulled(j.x));
            JointInv(j1, ids, c, limit) && c in j1.x.ready
  {
    hide Executor.Sound, Inv, AtRest, TasksKnown, Distinct, Executor.PullAll;
    Executor.PullAllKeeps(j.x, limit, |j.x.spawned|);
  }

  /** The halt: the yielders are ready again, the device has gone on, timers have fired. */
  lemma {:induction false} HaltKeeps(j: Joint, idle: seq<Action>, ticks: seq<nat>, j': Joint, ids: seq<nat>, c: nat, limit: nat)
    requires JointInv(j, ids, c, limit) && j.x.ready == [] && Homed(j.x, c)
    requires Run(j.w, idle, j'.w) && forall i :: 0 <= i < |idle| ==> DeviceAction(idle[i])
    requires Distinct(ticks) && forall id :: id in ticks ==> id in j.x.waiting && id !in ids
    requires j'.x == Executor.FireAll(Executor.Drained(j.x), ticks)
    ensures JointInv(j', ids, c, limit) && Scheduled(j'.x, c) && j'.w.deliveries == j.w.deliveries
  {
    hide Run, Executor.Sound, Inv, AtRest, TasksKnown, Distinct, Executor.FireAll, Executor.DrainAll, Executor.Live;
    var x1 := Executor.Drained(j.x);
    Executor.DrainAllKeeps(j.x, limit, |j.x.yielders|);
    Executor.FireAllKeeps(x1, limit, ticks);
    Executor.FireAllWaits(x1, ticks);
    IdleKeeps(j.w, idle, j'.w);
    RunKeeps(j.w, idle, j'.w);
    RunKeepsTasks(j.w, idle, j'.w);
    forall u | 0 <= u < |j'.w.tasks| && j'.w.tasks[u].Waiting? && j'.w.tasks[u].h < |j'.w.slots|
      ensures if j'.w.slots[j'.w.tasks[u].h].Done? then ids[u] in j'.x.ready else ids[u] in j'.x.waiting
    {
      OthersUntouched(j.w, idle, j'.w, None, u);
      assert ids[u] in ids;
    }
  }

  lemma {:induction false} IdleKeeps(w: World, actions: seq<Action>, w': World)
    requires Inv(w) && Run(w, actions, w') && AtRest(w) && forall i :: 0 <= i < |actions| ==> DeviceAction(actions[i])
    ensures AtRest(w') && w'.deliveries == w.deliveries
    decreases |actions|
  {
    hide Inv, WellFormed, Apply, Enabled, AtRest;
    if actions != [] {
      StepKeeps(w, actions[0]);
      IdleStep(w, actions[0]);
      IdleKeeps(Apply(w, actions[0]), actions[1..], w');
    }
  }

  lemma IdleStep(w: World, a: Action)
    requires WellFormed(w) && Enabled(w, a) && DeviceAction(a) && AtRest(w)
    ensures AtRest(Apply(w, a)) && Apply(w, a).deliveries == w.deliveries
  {
    hide WellFormed, Take, Complete;
  }

  /** A joint turn is a turn of the executor, then ticks, and keeps what holds between turns. */
  lemma {:induction false} TurnKeeps(j: Joint, t: Turn, j': Joint, ids: seq<nat>, c: nat, limit: nat)
    requires JointInv(j, ids, c, limit) && Scheduled(j.x, c) && JointTurn(j, t, j', ids, c, limit)
    ensures JointInv(j', ids, c, limit) && Scheduled(j'.x, c)
    ensures var x1 := Executor.Pulled(j.x);
            && Executor.LegalRound(x1, t.os, c, limit) && Executor.RunRound(x1, t.os).ready == []
            && j'.x == Executor.FireAll(Executor.Drained(Executor.RunRound(x1, t.os)), t.ticks)
  {
    hide JointInv, Executor.Pulled, Executor.Drained, Executor.FireAll, JointRound, Run, Scheduled;
    PulledKeeps(j, ids, c, limit);
    var j1 := j.(x := Executor.Pulled(j.x));
    var j2: Joint :| |t.os| == |t.runs| && j2.x.ready == [] && JointRound(j1, t.os, t.runs, j2, ids, c, limit)
                     && Run(j2.w, t.idle, j'.w) && (forall i :: 0 <= i < |t.idle| ==> DeviceAction(t.idle[i]))
                     && Distinct(t.ticks) && (forall id :: id in t.ticks ==> id in j2.x.waiting && id !in ids)
                     && j'.x == Executor.FireAll(Executor.Drained(j2.x), t.ticks);
    RoundKeeps(j1, t.os, t.runs, j2, ids, c, limit);
    HaltKeeps(j2, t.idle, t.ticks, j', ids, c, limit);
  }

  lemma {:induction false} TurnsKeep(j: Joint, ts: seq<Turn>, j': Joint, ids: seq<nat>, c: nat, limit: nat)
    requires JointInv(j, ids, c, limit) && Scheduled(j.x, c) && Turns(j, ts, j', ids, c, limit)
    ensures JointInv(j', ids, c, limit) && Scheduled(j'.x, c)
    decreases |ts|
  {
    hide JointInv, JointTurn, Scheduled;
    if ts != [] {
      var j1 :| JointTurn(j, ts[0], j1, ids, c, limit) && Turns(j1, ts[1..], j', ids, c, limit);
      TurnKeeps(j, ts[0], j1, ids, c, limit);
      TurnsKeep(j1, ts[1..], j', ids, c, limit);
    }
  }

  lemma {:induction false} TurnDelivers(j: Joint, t: Turn, j': Joint, ids: seq<nat>, c: nat, limit: nat, s: nat)
    requires JointInv(j, ids, c, limit) && Scheduled(j.x, c) && JointTurn(j, t, j', ids, c, limit)
    requires s < |j.w.stage| == |j.w.subs| && j.w.subs[s].Request? && Rank(j.w.stage[s]) >= 2
    ensures IsDelivered(j'.w.deliveries, s)
  {
    hide JointInv, Executor.Pulled, Executor.Drained, Executor.FireAll, JointRound, Run, Scheduled, Rank, IsDelivered;
    PulledKeeps(j, ids, c, limit);
    var j1 := j.(x := Executor.Pulled(j.x));
    var j2: Joint :| |t.os| == |t.runs| && j2.x.ready == [] && JointRound(j1, t.os, t.runs, j2, ids, c, limit)
                     && Run(j2.w, t.idle, j'.w) && (forall i :: 0 <= i < |t.idle| ==> DeviceAction(t.idle[i]))
                     && Distinct(t.ticks) && (forall id :: id in t.ticks ==> id in j2.x.waiting && id !in ids)
                     && j'.x == Executor.FireAll(Executor.Drained(j2.x), t.ticks);
    RoundKeeps(j1, t.os, t.runs, j2, ids, c, limit);
    RoundDelivers(j1, t.os, t.runs, j2, ids, c, limit, s);
    HaltKeeps(j2, t.idle, t.ticks, j', ids, c, limit);
  }

  // ---- A turn is always possible ----

  lemma {:induction false} PassExists(w: World) returns (actions: seq<Action>, w': World)
    requires Inv(w) && AtRest(w)
    ensures Run(w, actions, w') && AtRest(w') && AllRead(w') && forall i :: 0 <= i < |actions| ==> Draining(actions[i])
  {
    hide Inv, WellFormed, Run, IdsInRange, NextUsed;
    InvIsWellFormed(w);
    Driver.CompletionsInRange(w);
    actions, w' := Driver.PassIsRun(w);
    PassKeepsTasks(w, actions, w');
  }

  lemma {:induction false} PassKeepsTasks(w: World, actions: seq<Action>, w': World)
    requires Inv(w) && Run(w, actions, w') && forall i :: 0 <= i < |actions| ==> Draining(actions[i])
    ensures w'.tasks == w.tasks
  {
    hide Run, Inv;
    DrainWakesOnce(w, actions, w');
  }

  lemma {:induction false} CompletionPollExists(j: Joint, ids: seq<nat>, c: nat, limit: nat)
    returns (o: Executor.Outcome, actions: seq<Action>, j': Joint)
    requires JointInv(j, ids, c, limit) && j.x.ready != [] && j.x.ready[0] == c
    ensures JointPoll(j, o, actions, j', ids, c, limit)
  {
    hide Run, Inv, Executor.Placed, AtRest, AllRead, TasksKnown, Distinct, WokenIn, Executor.PollHead, Executor.Live;
    var w';
    actions, w' := PassExists(j.w);
    PassWakes(j.w, actions, w');
    var woken := WokenIn(j.w, actions, w');
    forall t | t in woken ensures t < |ids| { assert WokenAt(j.w, w', t); }
    o := Executor.Outcome(IdsOf(ids, woken), 0, Executor.Yield);
    j' := Joint(Executor.PollHead(j.x, o), w');
    assert forall i :: 0 <= i < |woken| ==> woken[i] in woken;
    assert CompletionPoll(j.w, o, actions, w', ids);
  }

  /** A waiting task polls its wait: it goes on waiting, or reads its reply. */
  lemma {:induction false} ResumedPoll(w: World, t: nat) returns (actions: seq<Action>, w': World)
    requires Inv(w) && WellFormed(w) && AtRest(w) && t < |w.tasks| && w.tasks[t].Waiting?
    ensures Run(w, actions, w') && AtRest(w')
    ensures Resumes(actions, t) && forall i :: 0 <= i < |actions| ==> ByTask(actions[i], t)
  {
    hide Inv, WellFormed, Enabled, Apply, AtRest;
    WaitingHasWaker(w, t);
    var first := PollFirst(t, false);
    FirstPoll(w, t);
    var w1 := Apply(w, first);
    StepKeeps(w, first);
    InvIsWellFormed(w1);
    if w1.tasks[t].Woken? {
      ReturnsReply(w1, t);
      actions := [first, Release(t), Read(t)];
      w' := Apply(Apply(w1, Release(t)), Read(t));
      RunOfThree(w, first, Release(t), Read(t));
    } else {
      Rechecks(w1, t);
      actions := [first, PollSecond(t)];
      w' := Apply(w1, PollSecond(t));
      Driver.RunOfTwo(w, first, PollSecond(t));
    }
    assert actions[0].PollFirst? && actions[0].t == t;
  }

  /** All tasks but `t` are at rest. */
  ghost predicate OthersAtRest(w: World, t: nat) {
    !w.panicked && w.hand.None? && t < |w.tasks|
    && forall u :: 0 <= u < |w.tasks| && u != t ==> w.tasks[u].Idle? || w.tasks[u].Waiting?
  }

  lemma FirstPoll(w: World, t: nat)
    requires WellFormed(w) && AtRest(w) && t < |w.tasks| && w.tasks[t].Waiting? && w.tasks[t].h < |w.slots|
    requires w.slots[w.tasks[t].h] == Done || w.slots[w.tasks[t].h] == Waker(t)
    ensures Enabled(w, PollFirst(t, false))
    ensures var w1 := Apply(w, PollFirst(t, false));
            && OthersAtRest(w1, t) && (w1.tasks[t].Woken? || w1.tasks[t].Rechecking?)
            && w1.tasks[t].h < |w1.slots| && (w1.tasks[t].Rechecking? ==> !w1.slots[w1.tasks[t].h].Done?)
  {
    hide WellFormed;
  }

  lemma {:induction false} ReturnsReply(w: World, t: nat)
    requires WellFormed(w) && Inv(w) && OthersAtRest(w, t) && w.tasks[t].Woken?
    ensures Enabled(w, Release(t)) && WellFormed(Apply(w, Release(t)))
    ensures var w1 := Apply(w, Release(t)); Enabled(w1, Read(t)) && AtRest(Apply(w1, Read(t)))
  {
    hide Inv, WellFormed;
    StepKeeps(w, Release(t));
    InvIsWellFormed(Apply(w, Release(t)));
  }

  lemma Rechecks(w: World, t: nat)
    requires WellFormed(w) && Inv(w) && OthersAtRest(w, t) && w.tasks[t].Rechecking?
    requires w.tasks[t].h < |w.slots| && !w.slots[w.tasks[t].h].Done?
    ensures Enabled(w, PollSecond(t)) && AtRest(Apply(w, PollSecond(t)))
  {
    hide Inv, WellFormed;
  }

  lemma {:induction false} RunOfThree(w: World, a: Action, b: Action, e: Action)
    requires WellFormed(w) && Enabled(w, a) && WellFormed(Apply(w, a)) && Enabled(Apply(w, a), b)
    requires WellFormed(Apply(Apply(w, a), b)) && Enabled(Apply(Apply(w, a), b), e)
    ensures Run(w, [a, b, e], Apply(Apply(Apply(w, a), b), e))
  {
    hide WellFormed, Enabled, Apply;
    Driver.RunOfTwo(Apply(w, a), b, e);
    assert [a, b, e][1..] == [b, e];
  }

  lemma {:induction false} TaskPollExists(j: Joint, ids: seq<nat>, c: nat, limit: nat)
    returns (o: Executor.Outcome, actions: seq<Action>, j': Joint)
    requires JointInv(j, ids, c, limit) && j.x.ready != [] && j.x.ready[0] != c
    ensures JointPoll(j, o, actions, j', ids, c, limit)
  {
    hide Run, Inv, WellFormed, Executor.Placed, Resumes, TasksKnown, Distinct, Executor.PollHead, Executor.Live;
    InvIsWellFormed(j.w);
    var id := j.x.ready[0];
    var t: Option<nat>, w' := None, j.w;
    o := Executor.Outcome([], 0, Executor.Wait);
    actions := [];
    if id in ids {
      var u :| 0 <= u < |ids| && ids[u] == id;
      t := Some(u);
      if j.w.tasks[u].Waiting? { actions, w' := ResumedPoll(j.w, u); } else { Driver.RunNothing(j.w); }
    } else {
      Driver.RunNothing(j.w);
    }
    j' := Joint(Executor.PollHead(j.x, o), w');
    assert TaskPoll(j.w, o, actions, w', t, ids, id);
  }

  /** In every state between polls the task at the head of the ready queue can be polled. */
  lemma {:induction false} PollExists(j: Joint, ids: seq<nat>, c: nat, limit: nat)
    returns (o: Executor.Outcome, actions: seq<Action>, j': Joint)
    requires JointInv(j, ids, c, limit) && j.x.ready != []
    ensures JointPoll(j, o, actions, j', ids, c, limit)
  {
    hide JointInv, JointPoll;
    if j.x.ready[0] == c {
      o, actions, j' := CompletionPollExists(j, ids, c, limit);
    } else {
      o, actions, j' := TaskPollExists(j, ids, c, limit);
    }
  }

  lemma {:induction false} PollsExist(j: Joint, n: nat, ids: seq<nat>, c: nat, limit: nat)
    returns (os: seq<Executor.Outcome>, runs: seq<seq<Action>>, j': Joint)
    requires JointInv(j, ids, c, limit)
    ensures |os| == |runs| && JointRound(j, os, runs, j', ids, c, limit) && (j'.x.ready == [] || |os| == n)
    decreases n
  {
    hide JointInv, JointPoll;
    if n == 0 || j.x.ready == [] {
      os, runs, j' := [], [], j;
    } else {
      var o, actions, j1 := PollExists(j, ids, c, limit);
      PollKeeps(j, o, actions, j1, ids, c, limit);
      var os1, runs1;
      os1, runs1, j' := PollsExist(j1, n - 1, ids, c, limit);
      os, runs := [o] + os1, [actions] + runs1;
      assert os[1..] == os1 && runs[1..] == runs1;
    }
  }

  /** From every state at the start of a turn, a turn is possible: no joint state is stuck. */
  lemma {:induction false} TurnExists(j: Joint, ids: seq<nat>, c: nat, limit: nat) returns (t: Turn, j': Joint)
    requires JointInv(j, ids, c, limit) && Scheduled(j.x, c)
    ensures JointTurn(j, t, j', ids, c, limit)
  {
    hide JointRound, Executor.Pulled, Executor.Drained, Run, Inv, AtRest, Executor.Sound;
    PulledKeeps(j, ids, c, limit);
    var j1 := j.(x := Executor.Pulled(j.x));
    var os, runs, j2 := PollsExist(j1, 2 * limit + 1, ids, c, limit);
    RoundKeeps(j1, os, runs, j2, ids, c, limit);
    Executor.RoundLength(j1.x, os, c, limit);
    t := Turn(os, runs, [], []);
    j' := Joint(Executor.FireAll(Executor.Drained(j2.x), []), j2.w);
    Driver.RunNothing(j2.w);
  }

  /**
    After any number of turns since start-up: a request that the device has
    reported when a turn starts is delivered to its caller when that turn ends.
   */
  lemma {:induction false} EveryTurnDelivers(w0: World, k: nat, x0: Executor.Exec, ts: seq<Turn>, j: Joint, t: Turn, j': Joint,
                                             ids: seq<nat>, c: nat, limit: nat, s: nat)
    requires Start(w0, k) && |ids| == k && Distinct(ids) && c !in ids
    requires Executor.Sound(x0, limit) && limit <= Executor.CAPACITY && x0.running.None? && Scheduled(x0, c)
    requires Turns(Joint(x0, w0), ts, j, ids, c, limit) && JointTurn(j, t, j', ids, c, limit)
    requires s < |j.w.stage| == |j.w.subs| && j.w.subs[s].Request? && (Reportedly(j.w.stage[s]) || j.w.stage[s].Collected?)
    ensures IsDelivered(j'.w.deliveries, s)
  {
    hide Start, JointInv, Executor.Sound, Scheduled, Turns, JointTurn, Distinct, IsDelivered;
    JointStart(w0, k, x0, ids, c, limit);
    TurnsKeep(Joint(x0, w0), ts, j, ids, c, limit);
    TurnDelivers(j, t, j', ids, c, limit, s);
  }
}
