/**
  From every reachable state of the request protocol each pending request can
  still be delivered, and what one pass of the completion loop is to the executor.
 */
module GpuProgress {
  import opened Finite
  import opened Virtqueue
  import opened GpuProtocol
  import Driver = GpuDriver
  import Executor

  // ---- A pending request can always be delivered ----

  /** How many kinds of step a request still needs. */
  function StepsLeft(st: Stage, pc: Pc): nat {
    match st
    case Offered => 7
    case InDevice => 6
    case Reported => 5
    case InHand => 4
    case Signalled => 3
    case Collected => if pc.Woken? then 2 else 1
  }

  /** What stands before it at its present stage: heads not taken, completions not read, a completion in hand. */
  ghost function Ahead(w: World, s: nat): nat
    requires s < |w.stage|
  {
    match w.stage[s]
    case Offered => if |w.subs| > w.link.taken then |w.subs| - w.link.taken else 0
    case Reported =>
      (if |w.link.completed| > w.link.consumed then 2 * (|w.link.completed| - w.link.consumed) else 0)
      + if w.hand.Some? then 1 else 0
    case _ => 0
  }

  ghost predicate Pending(w: World, s: nat) {
    && Inv(w) && !w.panicked && s < |w.subs| == |w.stage| && w.subs[s].Request? && w.subs[s].task < |w.tasks|
    && !IsDelivered(w.deliveries, s)
  }

  ghost function Left(w: World, s: nat): nat
    requires s < |w.subs| == |w.stage| && w.subs[s].Request? && w.subs[s].task < |w.tasks|
  {
    StepsLeft(w.stage[s], w.tasks[w.subs[s].task])
  }

  /** Closer to delivery. */
  ghost predicate Closer(w: World, w': World, s: nat)
    requires s < |w.subs| == |w.stage| && w.subs[s].Request? && w.subs[s].task < |w.tasks|
  {
    && w'.subs == w.subs && |w'.tasks| == |w.tasks| && |w'.stage| == |w.stage| && !w'.panicked
    && (IsDelivered(w'.deliveries, s) || Left(w', s) < Left(w, s) || (Left(w', s) == Left(w, s) && Ahead(w', s) < Ahead(w, s)))
  }

  lemma {:induction false} OfferedAdvances(w: World, s: nat)
    requires Pending(w, s) && WellFormed(w) && w.stage[s].Offered?
    ensures Enabled(w, DeviceTake) && Closer(w, Apply(w, DeviceTake), s)
  {
    hide RingInv, Layout, Ledger, Completions, Counts, Owners, Waiters, Slots, Chains, Replies, Delivered;
    TakeReadsFifo(w.link);
    LedgerSizes(w);
  }

  lemma LedgerSizes(w: World)
    requires Inv(w)
    ensures |w.subs| == |w.link.published| == |w.stage| && |w.reported| == |w.link.completed|
  {
    hide RingInv, Layout, Counts, Owners, Waiters, Slots, Chains, Replies, Delivered;
  }

  lemma {:induction false} InDeviceAdvances(w: World, s: nat)
    requires Pending(w, s) && WellFormed(w) && w.stage[s].InDevice?
    ensures var a := DeviceComplete(w.subs[s].head, 0); Enabled(w, a) && Closer(w, Apply(w, a), s)
  {
    hide RingInv, Layout, Ledger, Completions, Counts, Owners, Waiters, Slots, Chains, Replies, Delivered;
    assert w.subs[s].head in w.busy && w.busy[w.subs[s].head] == s;
  }

  lemma {:induction false} HandAdvances(w: World, s: nat)
    requires Pending(w, s) && WellFormed(w) && w.hand.Some? && (w.stage[s].Reported? || w.stage[s].InHand?)
    ensures Enabled(w, WakeSlot) && Closer(w, Apply(w, WakeSlot), s)
  {
    hide RingInv, Layout, Ledger, Stages, Counts, Owners, Waiters, Slots, Chains, Replies, Delivered;
    assert w.stage[w.hand.value.1].InHand?;
  }

  lemma {:induction false} InHandIsHeld(w: World, s: nat)
    requires Inv(w) && s < |w.stage| && w.stage[s].InHand?
    ensures w.hand.Some?
  {
    hide RingInv, Layout, Ledger, Stages, Counts, Owners, Waiters, Slots, Chains, Replies, Delivered;
  }

  /** A reported submission's completion is still to be read. */
  lemma {:induction false} ReportedIsUnread(w: World, s: nat)
    requires Inv(w) && s < |w.stage| && w.stage[s].Reported?
    ensures w.link.consumed < |w.link.completed| == |w.reported|
  {
    hide RingInv, Layout, Stages, Counts, Owners, Waiters, Slots, Chains, Replies, Delivered;
    assert s in w.reported;
    var j :| 0 <= j < |w.reported| && w.reported[j] == s;
    assert j >= w.link.consumed;
  }

  lemma {:induction false} ReportedAdvances(w: World, s: nat)
    requires Pending(w, s) && WellFormed(w) && w.hand.None? && w.stage[s].Reported?
    ensures Enabled(w, PopUsed) && Closer(w, Apply(w, PopUsed), s)
  {
    hide RingInv, Layout, Ledger, Stages, Completions, Counts, Owners, Waiters, Slots, Chains, Replies, Delivered;
    ReportedIsUnread(w, s);
    NextUsedReadsFifo(w.link);
  }

  /** The step that collects a signalled request. */
  ghost function CollectStep(w: World, s: nat): Action
    requires s < |w.subs| && w.subs[s].Request? && w.subs[s].task < |w.tasks|
  {
    var t := w.subs[s].task;
    if w.tasks[t].Rechecking? then PollSecond(t) else PollFirst(t, false)
  }

  lemma {:induction false} SignalledWaiter(w: World, s: nat)
    requires Pending(w, s) && w.stage[s].Signalled?
    ensures var pc := w.tasks[w.subs[s].task];
            Expects(pc) && pc.s == s && pc.h < |w.slots| && w.slots[pc.h] == Done
  {
    hide RingInv, Layout, Ledger, Stages, Completions, Counts, Owners, Chains, Replies, Delivered;
    assert HasWaiter(w.subs[s], s, w.tasks);
    assert SlotOf(w.stage, w.slots, w.ready, w.subs[s].task, w.tasks[w.subs[s].task]);
  }

  lemma {:induction false} SignalledAdvances(w: World, s: nat)
    requires Pending(w, s) && WellFormed(w) && w.stage[s].Signalled?
    ensures Enabled(w, CollectStep(w, s)) && Closer(w, Apply(w, CollectStep(w, s)), s)
  {
    hide Inv;
    SignalledWaiter(w, s);
  }

  ghost function ReadStep(w: World, s: nat): Action
    requires s < |w.subs| && w.subs[s].Request? && w.subs[s].task < |w.tasks|
  {
    var t := w.subs[s].task;
    if w.tasks[t].Woken? then Release(t) else Read(t)
  }

  lemma {:induction false} CollectedReader(w: World, s: nat)
    requires Pending(w, s) && w.stage[s].Collected?
    ensures var pc := w.tasks[w.subs[s].task]; (pc.Woken? || pc.Returned?) && pc.s == s
  {
    hide RingInv, Layout, Ledger, Stages, Completions, Counts, Owners, Slots, Chains, Replies;
    SettledOf(w.subs, w.stage, w.tasks, w.posted, w.replies, w.deliveries, s);
  }

  lemma {:induction false} CollectedAdvances(w: World, s: nat)
    requires Pending(w, s) && WellFormed(w) && w.stage[s].Collected?
    ensures Enabled(w, ReadStep(w, s)) && Closer(w, Apply(w, ReadStep(w, s)), s)
  {
    hide Inv, WellFormed;
    CollectedReader(w, s);
    Driver.SlotsAndSize(w);
    var t := w.subs[s].task;
    if w.tasks[t].Returned? { ReadDelivers(w, t); }
  }

  lemma ReadDelivers(w: World, t: nat)
    requires WellFormed(w) && t < |w.tasks| && HasSub(w.tasks[t])
    ensures IsDelivered(DoRead(w, t).deliveries, w.tasks[t].s)
  {
    hide WellFormed;
    var w' := DoRead(w, t);
    assert w'.deliveries[|w.deliveries|].sub == w.tasks[t].s;
  }

  /** In every stage some step is possible now that brings a pending request closer. */
  lemma {:induction false} SomeStepAdvances(w: World, s: nat) returns (a: Action)
    requires Pending(w, s) && WellFormed(w)
    ensures Enabled(w, a) && Closer(w, Apply(w, a), s)
  {
    hide Inv, WellFormed, Enabled, Apply, Closer, Ahead, StepsLeft;
    match w.stage[s] {
      case Offered => OfferedAdvances(w, s); a := DeviceTake;
      case InDevice => InDeviceAdvances(w, s); a := DeviceComplete(w.subs[s].head, 0);
      case Reported =>
        if w.hand.Some? { HandAdvances(w, s); a := WakeSlot; } else { ReportedAdvances(w, s); a := PopUsed; }
      case InHand => InHandIsHeld(w, s); HandAdvances(w, s); a := WakeSlot;
      case Signalled => SignalledAdvances(w, s); a := CollectStep(w, s);
      case Collected => CollectedAdvances(w, s); a := ReadStep(w, s);
    }
  }

  lemma {:induction false} Deliver(w: World, s: nat) returns (actions: seq<Action>, w': World)
    requires Pending(w, s) && WellFormed(w)
    ensures Run(w, actions, w') && IsDelivered(w'.deliveries, s)
    decreases Left(w, s), Ahead(w, s)
  {
    hide Inv, WellFormed, Enabled, Apply, Ahead, StepsLeft, IsDelivered;
    var a := SomeStepAdvances(w, s);
    var w1 := Apply(w, a);
    StepKeeps(w, a);
    InvIsWellFormed(w1);
    if IsDelivered(w1.deliveries, s) {
      Driver.RunNothing(w1);
      actions, w' := [a], w1;
      assert [a][1..] == [];
    } else {
      var rest;
      rest, w' := Deliver(w1, s);
      actions := [a] + rest;
      assert actions[1..] == rest;
    }
  }

  /** Whatever has happened since start-up, short of a panic: every request made can still be delivered. */
  lemma {:induction false} RequestsCanBeDelivered(w0: World, k: nat, before: seq<Action>, w: World, s: nat)
    returns (actions: seq<Action>, w': World)
    requires Start(w0, k) && Run(w0, before, w) && !w.panicked && s < |w.subs| && w.subs[s].Request?
    ensures Run(w, actions, w') && IsDelivered(w'.deliveries, s)
  {
    hide Start, Run, Inv, WellFormed, IsDelivered;
    ReachableInv(w0, k, before, w);
    ReachableTask(w0, k, before, w, s);
    LedgerSizes(w);
    if IsDelivered(w.deliveries, s) {
      Driver.RunNothing(w);
      actions, w' := [], w;
    } else {
      actions, w' := Deliver(w, s);
    }
  }

  // ---- One pass of the completion loop, seen by the executor ----

  /** The tasks a pass wakes, in order. */
  ghost function WokenBy(q: Queue, slots: seq<Slot>): seq<nat>
    requires IdsInRange(q) && q.size <= |slots|
    decreases Backlog(q)
  {
    var (q1, used) := NextUsed(q);
    if used.None? then []
    else
      BacklogShrinks(q);
      var (slots1, woken) := Driver.Signal(slots, used.value.id);
      (if woken.None? then [] else [woken.value]) + WokenBy(q1, slots1)
  }

  /** No two slots hold wakers of one task. */
  ghost predicate WakersApart(slots: seq<Slot>) {
    forall d, e :: 0 <= d < e < |slots| && slots[d].Waker? ==> slots[d] != slots[e]
  }

  lemma {:induction false} WokenAreRegistered(q: Queue, slots: seq<Slot>)
    requires IdsInRange(q) && q.size <= |slots| && WakersApart(slots)
    ensures Distinct(WokenBy(q, slots))
    ensures forall t :: t in WokenBy(q, slots) ==> Waker(t) in slots
    decreases Backlog(q)
  {
    hide Backlog, NextUsed;
    if NextUsed(q).1.Some? {
      BacklogShrinks(q);
      var id := NextUsed(q).1.value.id;
      SignalledApart(slots, id);
      WokenAreRegistered(NextUsed(q).0, slots[id := Done]);
    }
  }

  lemma SignalledApart(slots: seq<Slot>, id: nat)
    requires WakersApart(slots) && id < |slots|
    ensures WakersApart(slots[id := Done])
    ensures forall t :: Waker(t) in slots[id := Done] ==> Waker(t) in slots && slots[id] != Waker(t)
  {
    var slots1 := slots[id := Done];
    forall t | Waker(t) in slots1 ensures Waker(t) in slots && slots[id] != Waker(t) {
      var d :| 0 <= d < |slots1| && slots1[d] == Waker(t);
      assert slots[d] == Waker(t) && d != id;
    }
  }

  /** A pass adds exactly these tasks to the woken ones. */
  lemma {:induction false} DrainedWakes(q: Queue, slots: seq<Slot>, ready: multiset<nat>)
    requires IdsInRange(q) && q.size <= |slots|
    ensures Driver.Drained(q, slots, ready).2 == ready + multiset(WokenBy(q, slots))
    decreases Backlog(q)
  {
    hide Backlog, NextUsed;
    if NextUsed(q).1.Some? {
      BacklogShrinks(q);
      var id := NextUsed(q).1.value.id;
      var (slots1, woken) := Driver.Signal(slots, id);
      var rest := WokenBy(NextUsed(q).0, slots1);
      DrainedWakes(NextUsed(q).0, slots1, if woken.None? then ready else ready + multiset{woken.value});
      if woken.Some? {
        assert multiset([woken.value] + rest) == multiset{woken.value} + multiset(rest);
      } else {
        assert [] + rest == rest;
      }
    }
  }

  lemma WakersAreApart(w: World)
    requires Inv(w)
    ensures WakersApart(w.slots)
  {
    hide RingInv, Layout, Ledger, Stages, Completions, Counts, Owners, Waiters, Chains, Replies, Delivered;
    forall d, e | 0 <= d < e < |w.slots| && w.slots[d].Waker? ensures w.slots[d] != w.slots[e] {
      assert Registered(w.tasks, w.slots[d].task, d);
      if w.slots[e].Waker? { assert Registered(w.tasks, w.slots[e].task, e); }
    }
  }

  /** The executor's ids of tasks. */
  function IdsOf(ids: seq<nat>, tasks: seq<nat>): (r: seq<nat>)
    requires forall t :: t in tasks ==> t < |ids|
    ensures |r| == |tasks|
  {
    seq(|tasks|, i requires 0 <= i < |tasks| => assert tasks[i] in tasks; ids[tasks[i]])
  }

  /**
    In every reachable state of the protocol, one poll of the completion task is
    a poll the executor's round allows: it wakes tasks whose wakers are
    registered, each once, and yields.
   */
  lemma {:induction false} CompletionPollIsLegal(w0: World, k: nat, before: seq<Action>, w: World, ids: seq<nat>,
                                                 x: Executor.Exec, c: nat, limit: nat)
    requires Start(w0, k) && Run(w0, before, w)
    requires Distinct(ids) && |ids| == |w.tasks|
    requires forall t :: 0 <= t < |ids| && Waker(t) in w.slots ==> ids[t] in x.waiting
    requires x.ready != [] && x.ready[0] == c && |Executor.Live(x)| <= limit
    ensures IdsInRange(w.link.q) && w.Size() <= |w.slots| && forall t :: t in WokenBy(w.link.q, w.slots) ==> t < |ids|
    ensures Executor.Legal(x, Executor.Outcome(IdsOf(ids, WokenBy(w.link.q, w.slots)), 0, Executor.Yield), c, limit)
  {
    hide Run, Start, Inv, WellFormed, IdsInRange;
    ReachableInv(w0, k, before, w);
    Driver.CompletionsInRange(w);
    WakersAreApart(w);
    WokenAreRegistered(w.link.q, w.slots);
    SlotsHaveOwners(w);
    var woken := WokenBy(w.link.q, w.slots);
    forall t | t in woken ensures t < |ids| && ids[t] in x.waiting {
      var d :| 0 <= d < |w.slots| && w.slots[d] == Waker(t);
      assert Registered(w.tasks, t, d);
    }
  }

  // ---- A completion that is there when the pass starts ----

  /** Taking, completing, popping and signalling only move submissions on. */
  lemma {:induction false} DrainMovesOn(w: World, a: Action, s: nat)
    requires Inv(w) && WellFormed(w) && Enabled(w, a) && Draining(a) && s < |w.stage| && Reportedly(w.stage[s])
    ensures s < |Apply(w, a).stage| && Reportedly(Apply(w, a).stage[s])
  {
    hide RingInv, Layout, Counts, Owners, Waiters, Slots, Chains, Replies, Delivered;
    LedgerSizes(w);
    if a.DeviceTake? {
      TakeReadsFifo(w.link);
      assert w.stage[w.link.taken].Offered?;
    } else if a.DeviceComplete? {
      assert w.stage[w.busy[a.h]].InDevice?;
    }
  }

  predicate Reportedly(st: Stage) {
    st.Reported? || st.InHand? || st.Signalled?
  }

  lemma {:induction false} PassMovesOn(w: World, actions: seq<Action>, w': World, s: nat)
    requires Inv(w) && Run(w, actions, w') && (forall i :: 0 <= i < |actions| ==> Draining(actions[i]))
    requires s < |w.stage| && Reportedly(w.stage[s])
    ensures Inv(w') && w'.tasks == w.tasks && s < |w'.stage| && Reportedly(w'.stage[s])
    decreases |actions|
  {
    hide Inv, WellFormed, Enabled, Apply;
    if actions != [] {
      StepKeeps(w, actions[0]);
      DrainStep(w, actions[0]);
      DrainMovesOn(w, actions[0], s);
      PassMovesOn(Apply(w, actions[0]), actions[1..], w', s);
    }
  }

  /** The used ring is read to its end and nothing is in hand. */
  ghost predicate AllRead(w: World) {
    !w.panicked && w.hand.None? && w.link.q.Shape() && NextUsed(w.link.q).1.None?
  }

  /** The task is queued, and its next poll answers `Ready`. */
  ghost predicate Collects(w: World, t: nat)
    requires WellFormed(w)
  {
    && t < |w.tasks| && HasSub(w.tasks[t]) && t in w.ready && Enabled(w, PollFirst(t, true))
    && DoPollFirst(w, t, true).tasks[t].Woken?
  }

  /**
    A task that waits for a request already reported when the completion loop
    runs finds its slot `Done` afterwards and is queued: its next poll collects.
   */
  lemma {:induction false} ReportedIsCollected(w: World, actions: seq<Action>, w': World, t: nat)
    requires Inv(w) && Run(w, actions, w') && forall i :: 0 <= i < |actions| ==> Draining(actions[i])
    requires t < |w.tasks| && w.tasks[t].Waiting? && w.tasks[t].s < |w.stage| && Reportedly(w.stage[w.tasks[t].s])
    requires AllRead(w')
    ensures WellFormed(w') && Collects(w', t)
  {
    hide Run, RingInv, Layout, Counts, Owners, Chains, Replies, Delivered;
    var s := w.tasks[t].s;
    PassMovesOn(w, actions, w', s);
    InvIsWellFormed(w');
    if w'.stage[s].Reported? {
      ReportedIsUnread(w', s);
      NextUsedReadsFifo(w'.link);
    }
    if w'.stage[s].InHand? { InHandIsHeld(w', s); }
    assert w'.stage[s].Signalled?;
    WaitingSlot(w'.subs, w'.stage, w'.tasks, w'.posted, w'.slots, w'.ready, t);
  }
}
