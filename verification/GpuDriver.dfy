/**
  The loops and lock sections of bootloader/kernel/src/drivers/virtio_gpu.rs, in
  place, and their relation to the steps of `GpuProtocol`.
 */
module GpuDriver {
  import opened Finite
  import opened Wrappers
  import opened Virtqueue
  import opened GpuProtocol

  // ---- The waker slots ----

  datatype Answer = Pending | Ready | GoOn

  /** `IdWaker::wake`, and the task it wakes. */
  function Signal(slots: seq<Slot>, id: nat): (seq<Slot>, Option<nat>)
    requires id < |slots|
  {
    (slots[id := Done], if slots[id].Waker? then Some(slots[id].task) else None)
  }

  /** The first lock section of `poll` by task `t`. */
  function FirstLock(slots: seq<Slot>, id: nat, t: nat): (seq<Slot>, Answer)
    requires id < |slots|
  {
    match slots[id]
    case Empty => (slots[id := Waker(t)], Pending)
    case Done => (slots[id := Empty], Ready)
    case Waker(_) => (slots[id := Waker(t)], GoOn)
  }

  function SecondLock(slots: seq<Slot>, id: nat): (seq<Slot>, Answer)
    requires id < |slots|
  {
    if slots[id].Done? then (slots[id := Empty], Ready) else (slots, Pending)
  }

  /** The steps of the protocol on the slots are the lock sections of the program. */
  lemma {:induction false} StepsAreLockSections(w: World, t: nat)
    requires WellFormed(w) && t < |w.tasks| && HasSub(w.tasks[t])
    ensures var pc := w.tasks[t];
            var (first, second) := (FirstLock(w.slots, pc.h, t), SecondLock(w.slots, pc.h));
            && (DoPollFirst(w, t, false).slots, DoPollSecond(w, t).slots) == (first.0, second.0)
            && (DoPollFirst(w, t, false).tasks[t].Woken? <==> first.1 == Ready)
            && (DoPollFirst(w, t, false).tasks[t].Waiting? <==> first.1 == Pending)
            && (DoPollFirst(w, t, false).tasks[t].Rechecking? <==> first.1 == GoOn)
            && (DoPollSecond(w, t).tasks[t].Woken? <==> second.1 == Ready)
            && (DoPollSecond(w, t).tasks[t].Waiting? <==> second.1 == Pending)
  {
  }

  /** `static WAKERS`, and the tasks woken through it since they were last polled. */
  class IdWakers {
    const slots: array<Slot>
    var ready: multiset<nat>

    constructor ()
      ensures slots[..] == seq(WAKER_SLOTS, _ => Empty) && ready == multiset{} && fresh(slots)
    {
      slots := new Slot[WAKER_SLOTS](_ => Empty);
      ready := multiset{};
    }

    method Wake(id: nat)
      requires id < slots.Length
      modifies this`ready, slots
      ensures slots[..] == Signal(old(slots[..]), id).0 == old(slots[..])[id := Done]
      ensures ready == if old(slots[id]).Waker? then old(ready) + multiset{old(slots[id]).task} else old(ready)
      ensures ready == (match Signal(old(slots[..]), id).1 case None => old(ready) case Some(t) => old(ready) + multiset{t})
    {
      var was := slots[id];
      slots[id] := Done;
      if was.Waker? { ready := ready + multiset{was.task}; }
    }

    method PollFirst(id: nat, t: nat) returns (r: Answer)
      requires id < slots.Length
      modifies slots
      ensures (slots[..], r) == FirstLock(old(slots[..]), id, t)
      ensures match old(slots[id])
              case Empty => slots[..] == old(slots[..])[id := Waker(t)] && r == Pending
              case Done => slots[..] == old(slots[..])[id := Empty] && r == Ready
              case Waker(_) => slots[..] == old(slots[..])[id := Waker(t)] && r == GoOn
    {
      match slots[id] {
        case Empty => slots[id] := Waker(t); return Pending;
        case Done => slots[id] := Empty; return Ready;
        case Waker(_) => slots[id] := Waker(t); return GoOn;
      }
    }

    method PollSecond(id: nat) returns (r: Answer)
      requires id < slots.Length
      modifies slots
      ensures (slots[..], r) == SecondLock(old(slots[..]), id)
      ensures r == (if old(slots[id]).Done? then Ready else Pending)
      ensures slots[..] == if r == Ready then old(slots[..])[id := Empty] else old(slots[..])
    {
      if slots[id].Done? {
        slots[id] := Empty;
        return Ready;
      }
      return Pending;
    }
  }

  // ---- The completion loop ----

  /** Slots and woken tasks once every completion in the used ring has been popped. */
  ghost function Drained(q: Queue, slots: seq<Slot>, ready: multiset<nat>): (r: (Queue, seq<Slot>, multiset<nat>))
    requires IdsInRange(q) && q.size <= |slots|
    ensures IdsInRange(r.0) && NextUsed(r.0).1.None?
    decreases Backlog(q)
  {
    var (q1, used) := NextUsed(q);
    if used.None? then (q, slots, ready)
    else
      BacklogShrinks(q);
      var (slots1, woken) := Signal(slots, used.value.id);
      Drained(q1, slots1, if woken.None? then ready else ready + multiset{woken.value})
  }

  method Drain(virtio: Virtio, wakers: IdWakers)
    requires IdsInRange(virtio.View()) && virtio.size <= wakers.slots.Length
    modifies virtio`lastUsed, wakers, wakers.slots
    ensures (virtio.View(), wakers.slots[..], wakers.ready)
            == Drained(old(virtio.View()), old(wakers.slots[..]), old(wakers.ready))
  {
    hide NextUsed, Backlog, Signal;
    ghost var all := Drained(virtio.View(), wakers.slots[..], wakers.ready);
    while true
      invariant IdsInRange(virtio.View()) && virtio.size <= wakers.slots.Length
      invariant Drained(virtio.View(), wakers.slots[..], wakers.ready) == all
      decreases Backlog(virtio.View())
    {
      ghost var q := virtio.View();
      if NextUsed(q).1.Some? { BacklogShrinks(q); } else { NothingPopped(q); }
      var next := virtio.PopUsed();
      if next.None? { break; }
      wakers.Wake(next.value.id);
    }
  }

  lemma {:induction false} RunsJoin(w: World, first: seq<Action>, mid: World, second: seq<Action>, w': World)
    requires Run(w, first, mid) && Run(mid, second, w')
    ensures Run(w, first + second, w')
    decreases |first|
  {
    hide WellFormed, Enabled, Apply;
    if first == [] {
      assert first + second == second;
    } else {
      RunsJoin(Apply(w, first[0]), first[1..], mid, second, w');
      assert (first + second)[1..] == first[1..] + second;
    }
  }

  /** One completion on the way to `Drained`. */
  ghost function DrainedOnce(q: Queue, slots: seq<Slot>, ready: multiset<nat>): (r: (Queue, seq<Slot>, multiset<nat>))
    requires IdsInRange(q) && q.size <= |slots| && NextUsed(q).1.Some?
    ensures IdsInRange(r.0) && r.0.size == q.size && |r.1| == |slots| && Backlog(r.0) < Backlog(q)
    ensures Drained(r.0, r.1, r.2) == Drained(q, slots, ready)
  {
    BacklogShrinks(q);
    var (q1, used) := NextUsed(q);
    var (slots1, woken) := Signal(slots, used.value.id);
    (q1, slots1, if woken.None? then ready else ready + multiset{woken.value})
  }

  lemma {:induction false} DrainOne(w: World) returns (w': World)
    requires Inv(w) && WellFormed(w) && w.hand.None? && !w.panicked && IdsInRange(w.link.q) && NextUsed(w.link.q).1.Some?
    ensures Inv(w') && WellFormed(w') && w'.hand.None? && !w'.panicked && Run(w, [PopUsed, WakeSlot], w')
    ensures w.Size() <= |w.slots| && (w'.link.q, w'.slots, w'.ready) == DrainedOnce(w.link.q, w.slots, w.ready)
  {
    hide Inv, Drained, Backlog, IdsInRange;
    var w1 := Apply(w, PopUsed);
    StepKeeps(w, PopUsed);
    InvIsWellFormed(w1);
    w' := Apply(w1, WakeSlot);
    StepKeeps(w1, WakeSlot);
    InvIsWellFormed(w');
    RunOfTwo(w, PopUsed, WakeSlot);
  }

  lemma {:induction false} RunOfTwo(w: World, a: Action, b: Action)
    requires WellFormed(w) && Enabled(w, a) && WellFormed(Apply(w, a)) && Enabled(Apply(w, a), b)
    ensures Run(w, [a, b], Apply(Apply(w, a), b))
  {
    hide WellFormed, Enabled, Apply;
    var w2 := Apply(Apply(w, a), b);
    assert [a, b][1..] == [b] && [b][1..] == [];
    assert Run(w2, [], w2);
    assert Run(Apply(w, a), [b], w2);
  }

  lemma RunNothing(w: World)
    ensures Run(w, [], w)
  {
  }

  lemma {:induction false} RoomForSlots(w: World)
    requires WellFormed(w)
    ensures w.link.q.Shape() && w.Size() <= |w.slots|
  {
  }

  /** Unread completions name descriptors of the queue. */
  lemma {:induction false} CompletionsInRange(w: World)
    requires Inv(w)
    ensures IdsInRange(w.link.q) && w.Size() <= WAKER_SLOTS == |w.slots|
  {
    hide RingInv, Layout, Ledger, Stages, Completions, Counts, Owners, Waiters, Slots, Chains, Replies, Delivered, IdsInRange;
    RingFacts(w.link);
    PlacesInRange(w.Size(), w.subs, w.stage, w.link, w.busy, w.reported, w.hand);
    SlotsInRange(w.subs, w.stage, w.tasks, w.slots, w.ready);
    UnreadIsCompleted(w.link);
  }

  /**
    From every reachable state in which nothing is in hand, a pass of the
    completion loop is a run of the protocol that leaves no completion unread.
   */
  lemma {:induction false} DrainIsRun(w0: World, k: nat, before: seq<Action>, w: World) returns (actions: seq<Action>, w': World)
    requires Start(w0, k) && Run(w0, before, w) && w.hand.None? && !w.panicked
    ensures IdsInRange(w.link.q) && w.Size() <= |w.slots|
    ensures Run(w, actions, w') && forall i :: 0 <= i < |actions| ==> Draining(actions[i])
    ensures (w'.link.q, w'.slots, w'.ready) == Drained(w.link.q, w.slots, w.ready)
    ensures w'.link.q.Shape() && NextUsed(w'.link.q).1.None? && w'.hand.None? && !w'.panicked
  {
    hide Run, Inv, WellFormed, IdsInRange, NextUsed;
    ReachableInv(w0, k, before, w);
    CompletionsInRange(w);
    actions, w' := PassIsRun(w);
  }

  lemma {:induction false} PassIsRun(w: World) returns (actions: seq<Action>, w': World)
    requires Inv(w) && WellFormed(w) && w.hand.None? && !w.panicked && IdsInRange(w.link.q)
    ensures Run(w, actions, w') && forall i :: 0 <= i < |actions| ==> Draining(actions[i])
    ensures w.Size() <= |w.slots| && (w'.link.q, w'.slots, w'.ready) == Drained(w.link.q, w.slots, w.ready)
    ensures w'.link.q.Shape() && NextUsed(w'.link.q).1.None? && w'.hand.None? && !w'.panicked
    decreases Backlog(w.link.q)
  {
    hide Inv, WellFormed, Signal, NextUsed, Backlog, IdsInRange, Apply, Run, Enabled, DrainedOnce;
    RoomForSlots(w);
    if NextUsed(w.link.q).1.None? {
      RunNothing(w);
      actions, w' := [], w;
    } else {
      var w1 := DrainOne(w);
      var more;
      more, w' := PassIsRun(w1);
      actions := [PopUsed, WakeSlot] + more;
      RunsJoin(w, [PopUsed, WakeSlot], w1, more, w');
    }
  }

  // ---- Posting a few buffers ahead ----

  /** `n` turns of the posting loop. */
  ghost function PostedAhead(q: Queue, n: nat): (r: Queue)
    requires FreeInRange(q)
    ensures FreeInRange(r)
  {
    if n == 0 then q
    else
      var before := PostedAhead(q, n - 1);
      if before.free == [] then before
      else
        PostOneInRange(before);
        SetWritableAvailable(GetFree(before).0, GetFree(before).1.value)
  }

  /** The top of the free stack, down to `left`, was made available: each a whole page the device may write. */
  ghost predicate PostedDownTo(q: Queue, left: nat, q': Queue)
    requires q.Shape() && left <= |q.free|
  {
    && q'.size == q.size == |q'.descs| && q'.free == q.free[..left] && q'.availIdx == (q.availIdx + |q.free| - left) % 0x1_0000
    && forall d :: 0 <= d < q.size ==>
         q'.descs[d] == if d in q.free[left..] then q.descs[d].(flags := 2, len := 4096) else q.descs[d]
  }

  /** The posting loop takes the top `n` descriptors of the free stack, or all there are. */
  lemma {:induction false} PostedAheadExactly(q: Queue, n: nat)
    requires FreeInRange(q) && Distinct(q.free)
    ensures PostedDownTo(q, if n < |q.free| then |q.free| - n else 0, PostedAhead(q, n))
  {
    hide PostedDownTo, PostedAhead, Distinct, SetWritableAvailable;
    if n == 0 {
      PostedNone(q);
      NothingPosted(q);
    } else {
      PostedAheadExactly(q, n - 1);
      var before := PostedAhead(q, n - 1);
      PostedNext(q, n - 1);
      StackDownTo(q, if n - 1 < |q.free| then |q.free| - (n - 1) else 0, before);
      if before.free != [] { PostsNext(q, |q.free| - n, before); }
    }
  }

  lemma NothingPosted(q: Queue)
    requires q.Shape()
    ensures PostedDownTo(q, |q.free|, q)
  {
    assert q.free[..|q.free|] == q.free && q.free[|q.free|..] == [];
  }

  lemma StackDownTo(q: Queue, left: nat, q': Queue)
    requires q.Shape() && left <= |q.free| && PostedDownTo(q, left, q')
    ensures |q'.free| == left && q'.size == q.size
  {
  }

  lemma {:induction false} PostsNext(q: Queue, left: nat, before: Queue)
    requires FreeInRange(q) && Distinct(q.free)
    requires FreeInRange(before) && left < |q.free| && PostedDownTo(q, left + 1, before) && before.free[left] < before.size
    ensures PostedDownTo(q, left, SetWritableAvailable(GetFree(before).0, before.free[left]))
  {
    assert q.free[left..] == [q.free[left]] + q.free[left + 1..];
    assert q.free[..left + 1][..left] == q.free[..left];
    WrapsOnce(q.availIdx + |q.free| - left - 1);
  }

  lemma WrapsOnce(i: nat)
    ensures (i % 0x1_0000 + 1) % 0x1_0000 == (i + 1) % 0x1_0000
  {
  }

  lemma PostedNext(q: Queue, n: nat)
    requires FreeInRange(q)
    ensures var before := PostedAhead(q, n);
            if before.free == [] then PostedAhead(q, n + 1) == before
            else before.Shape() && before.free[|before.free| - 1] < before.size
                 && PostedAhead(q, n + 1) == SetWritableAvailable(GetFree(before).0, before.free[|before.free| - 1])
  {
    if PostedAhead(q, n).free != [] { PostOneInRange(PostedAhead(q, n)); }
  }

  method PostAhead(virtio: Virtio)
    requires FreeInRange(virtio.View())
    modifies virtio`free, virtio`availIdx, virtio.descs, virtio.availRing
    ensures virtio.View() == PostedAhead(old(virtio.View()), 10)
    ensures var q := old(virtio.View());
            Distinct(q.free) ==> PostedDownTo(q, if 10 < |q.free| then |q.free| - 10 else 0, virtio.View())
  {
    hide SetWritableAvailable, PostedDownTo, PostedAhead, Distinct;
    ghost var q := virtio.View();
    PostedNone(q);
    if Distinct(q.free) { PostedAheadExactly(q, POSTS); }
    for i := 0 to POSTS
      invariant virtio.View() == PostedAhead(q, i)
    {
      ghost var before := virtio.View();
      if before.free != [] { PostOneInRange(before); }
      PostedNext(q, i);
      var r := virtio.GetFreeDescId();
      if r.Some? { virtio.MakeWritableAvailable(r.value); }
    }
  }

  lemma {:induction false} PostStep(w: World)
    requires WellFormed(w) && Enabled(w, Post)
    ensures FreeInRange(w.link.q)
    ensures Run(w, [Post], Apply(w, Post)) && Apply(w, Post).link.q == PostedAhead(w.link.q, 1)
    ensures Apply(w, Post).turns == w.turns + 1 && Apply(w, Post).tasks == w.tasks && !Apply(w, Post).panicked
  {
    assert PostedAhead(w.link.q, 0) == w.link.q;
    assert [Post][1..] == [];
    assert Run(Apply(w, Post), [], Apply(w, Post));
  }

  /** The posting loop is a run of the protocol. */
  lemma {:induction false} PostAheadIsRun(w: World, n: nat) returns (actions: seq<Action>, w': World)
    requires Inv(w) && WellFormed(w) && !w.panicked && NoneReturning(w.tasks) && w.turns + n <= POSTS
    ensures FreeInRange(w.link.q)
    ensures Run(w, actions, w') && w'.link.q == PostedAhead(w.link.q, n)
    ensures Inv(w') && WellFormed(w') && !w'.panicked && w'.tasks == w.tasks && w'.turns == w.turns + n
  {
    hide Inv, WellFormed, Apply, Run, PostedAhead;
    PostsInRange(w);
    if n == 0 {
      PostedNone(w.link.q);
      RunNothing(w);
      actions, w' := [], w;
    } else {
      var before, mid := PostAheadIsRun(w, n - 1);
      PostStep(mid);
      StepKeeps(mid, Post);
      w' := Apply(mid, Post);
      InvIsWellFormed(w');
      RunsJoin(w, before, mid, [Post], w');
      PostedOneMore(w.link.q, n - 1);
      actions := before + [Post];
    }
  }

  lemma PostedNone(q: Queue)
    requires FreeInRange(q)
    ensures PostedAhead(q, 0) == q
  {
  }

  lemma {:induction false} PostsInRange(w: World)
    requires WellFormed(w)
    ensures FreeInRange(w.link.q)
  {
  }

  lemma {:induction false} PostedOneMore(q: Queue, n: nat)
    requires FreeInRange(q)
    ensures PostedAhead(PostedAhead(q, n), 1) == PostedAhead(q, n + 1)
  {
    assert PostedAhead(PostedAhead(q, n), 0) == PostedAhead(q, n);
  }

  // ---- One request ----

  /** `request` up to its wait: `None` where it panics. */
  method Begin(virtio: Virtio, data: seq<int>) returns (r: Option<(nat, nat)>)
    requires FreeInRange(virtio.View()) && |data| <= PAGE_LEN
    modifies virtio`free, virtio`availIdx, virtio`mem, virtio.descs, virtio.availRing
    ensures r == GetFreeTwice(old(virtio.View())).1
    ensures r.None? <==> |old(virtio.free)| < 2
    ensures r.Some? ==> old(virtio.free) == virtio.free + [r.value.1, r.value.0]
    ensures r.Some? ==>
              var q := GetFreeTwice(old(virtio.View())).0;
              r.value.0 < q.size && r.value.1 < q.size && q.Shape()
              && virtio.View() == AddRequest(q, r.value.0, r.value.1, data)
    ensures r.None? ==> virtio.View() == old(virtio.View())
  {
    ghost var q := virtio.View();
    assert |q.free| >= 2 ==> q.free[|q.free| - 1] in q.free && q.free[|q.free| - 2] in q.free;
    r := virtio.GetFreeTwiceDescId();
    if r.None? { return; }
    virtio.PublishRequest(r.value.0, r.value.1, data);
  }

  /** `request` after its wait: both descriptors go back, and the reply's descriptor is read. */
  method Finish(virtio: Virtio, head: nat, next: nat) returns (d: Desc)
    requires virtio.View().Shape() && next < virtio.size
    modifies virtio`free
    ensures virtio.View() == SetFree(SetFree(old(virtio.View()), head), next)
    ensures virtio.free == old(virtio.free) + [head, next]
    ensures d == old(virtio.descs[next])
  {
    virtio.SetFreeDescId(head);
    virtio.SetFreeDescId(next);
    d := virtio.descs[next];
  }

  // ---- From start-up to a reply ----

  /** A queue over distinct pages, as `init` leaves it, is where the protocol starts. */
  method Boot(size: nat, addrs: seq<nat>, pages: map<nat, Page>, ghost k: nat) returns (virtio: Virtio, ghost w: World)
    requires 0 < size <= 256 && U16_RANGE % size == 0 && |addrs| == size
    requires forall d :: 0 <= d < size ==> addrs[d] in pages && |pages[addrs[d]]| == PAGE_LEN
    requires forall d, e :: 0 <= d < e < size ==> addrs[d] != addrs[e]
    ensures Start(w, k) && w.link.q == virtio.View() && w.addrs == addrs
  {
    virtio := new Virtio(size, addrs, pages);
    w := World(addrs, Link(virtio.View(), 0, [], 0, [], 0), seq(WAKER_SLOTS, _ => Empty), None, multiset{},
               seq(k, _ => Idle), map[], 0, [], [], [], [], map[], [], false);
  }

  lemma {:induction false} Advance(w0: World, actions: seq<Action>, w: World, a: Action)
    requires Run(w0, actions, w) && Inv(w) && WellFormed(w) && Enabled(w, a)
    ensures Run(w0, actions + [a], Apply(w, a)) && Inv(Apply(w, a)) && WellFormed(Apply(w, a))
  {
    hide Inv, WellFormed, Apply, Enabled;
    StepKeeps(w, a);
    InvIsWellFormed(Apply(w, a));
    RunNothing(Apply(w, a));
    assert [a][1..] == [];
    assert Run(w, [a], Apply(w, a));
    RunsJoin(w0, actions, w, [a], Apply(w, a));
  }

  // A first request from start-up on, step by step.

  /** The only submission so far is task 0's, and it has come this far. */
  ghost predicate Alone(w: World, h: nat, n: nat, data: seq<int>, st: Stage, slot: Slot, pc: Pc, taken: nat, done: seq<nat>, consumed: nat) {
    && |w.tasks| > 0 && w.tasks[0] == pc && w.subs == [Request(h, n, 0, data)] && w.stage == [st]
    && NoneReturning(w.tasks[1..])
    && h < WAKER_SLOTS == |w.slots| && w.slots[h] == slot
    && w.link.published == [h] && w.link.taken == taken && w.link.completed == done && w.link.consumed == consumed
    && (st.InDevice? ==> w.busy == map[h := 0]) && |w.reported| == |done| && (done != [] ==> w.reported == [0])
    && (if st.InHand? then w.hand == Some((h, 0)) else w.hand == None)
    && (st.Signalled? ==> 0 in w.ready)
    && w.deliveries == [] && !w.panicked
  }

  lemma {:induction false} Sends(w: World, k: nat, data: seq<int>)
    requires Start(w, k) && k > 0 && WellFormed(w) && w.Size() >= 2 && |data| <= PAGE_LEN
    ensures Enabled(w, Acquire(0))
    ensures var w1 := Apply(w, Acquire(0));
            WellFormed(w1) ==>
              && Enabled(w1, Submit(0, data))
              && Alone(Apply(w1, Submit(0, data)), w.Size() - 1, w.Size() - 2, data, Offered, Empty,
                       Polling(w.Size() - 1, w.Size() - 2, 0), 0, [], 0)
  {
    hide WellFormed;
    SlotsAndSize(w);
    assert w.tasks[0] == Idle && NoneReturning(w.tasks);
    var w1 := Apply(w, Acquire(0));
    assert w1.tasks[0] == Got(w.Size() - 1, w.Size() - 2);
    assert w1.slots == w.slots && w1.tasks[1..] == w.tasks[1..];
  }

  lemma SlotsAndSize(w: World)
    requires WellFormed(w)
    ensures w.link.q.Shape() && w.Size() <= WAKER_SLOTS == |w.slots|
  {
  }

  lemma {:induction false} Waits(w: World, h: nat, n: nat, data: seq<int>)
    requires WellFormed(w) && Alone(w, h, n, data, Offered, Empty, Polling(h, n, 0), 0, [], 0)
    ensures Enabled(w, PollFirst(0, false))
    ensures Alone(Apply(w, PollFirst(0, false)), h, n, data, Offered, Waker(0), Waiting(h, n, 0), 0, [], 0)
  {
  }

  lemma {:induction false} IsTaken(w: World, h: nat, n: nat, data: seq<int>)
    requires WellFormed(w) && RingInv(w.link) && Alone(w, h, n, data, Offered, Waker(0), Waiting(h, n, 0), 0, [], 0) && w.busy == map[]
    ensures Enabled(w, DeviceTake)
    ensures Alone(Apply(w, DeviceTake), h, n, data, InDevice, Waker(0), Waiting(h, n, 0), 1, [], 0)
  {
    hide RingInv;
    TakeReadsFifo(w.link);
  }

  lemma {:induction false} IsAnswered(w: World, h: nat, n: nat, data: seq<int>, page: Page)
    requires WellFormed(w) && Alone(w, h, n, data, InDevice, Waker(0), Waiting(h, n, 0), 1, [], 0)
    requires |w.Descs()| == w.Size() && ChainOf(w.addrs, w.link.q, w.subs[0]) && |page| == PAGE_LEN
    ensures Enabled(w, DeviceWrite(h, n, page))
    ensures var w1 := Apply(w, DeviceWrite(h, n, page));
            WellFormed(w1) ==>
              && Enabled(w1, DeviceComplete(h, PAGE_LEN))
              && var w2 := Apply(w1, DeviceComplete(h, PAGE_LEN));
                 && Alone(w2, h, n, data, Reported, Waker(0), Waiting(h, n, 0), 1, [h], 0)
                 && w2.replies == w.replies[0 := page]
  {
    hide WellFormed;
    SlotsAndSize(w);
    ChainShape(w.Descs(), w.subs[0], w.Size());
    var w1 := Apply(w, DeviceWrite(h, n, page));
    assert w1.Mem()[w1.Descs()[n].addr] == page;
  }

  lemma {:induction false} IsSignalled(w: World, h: nat, n: nat, data: seq<int>)
    requires WellFormed(w) && RingInv(w.link) && Alone(w, h, n, data, Reported, Waker(0), Waiting(h, n, 0), 1, [h], 0)
    ensures Enabled(w, PopUsed)
    ensures var w1 := Apply(w, PopUsed);
            && w1.replies == w.replies
            && (WellFormed(w1) ==>
                  && Enabled(w1, WakeSlot) && Apply(w1, WakeSlot).replies == w.replies
                  && Alone(Apply(w1, WakeSlot), h, n, data, Signalled, Done, Waiting(h, n, 0), 1, [h], 1))
  {
    hide RingInv;
    NextUsedReadsFifo(w.link);
    hide WellFormed;
    var w1 := Apply(w, PopUsed);
    assert w1.hand == Some((h, 0)) && w1.slots == w.slots && w1.link.consumed == 1;
  }

  lemma {:induction false} IsRead(w: World, h: nat, n: nat, data: seq<int>)
    requires WellFormed(w) && Alone(w, h, n, data, Signalled, Done, Waiting(h, n, 0), 1, [h], 1)
    ensures Enabled(w, PollFirst(0, true))
    ensures var w1 := Apply(w, PollFirst(0, true));
            && w1.replies == w.replies
            && (WellFormed(w1) ==>
                  && Enabled(w1, Release(0)) && Apply(w1, Release(0)).replies == w.replies
                  && var w2 := Apply(w1, Release(0));
                     WellFormed(w2) ==>
                       && Enabled(w2, Read(0)) && Apply(w2, Read(0)).replies == w.replies
                       && |Apply(w2, Read(0)).deliveries| == 1 && Apply(w2, Read(0)).deliveries[0].sub == 0
                       && Apply(w2, Read(0)).deliveries[0].task == 0)
  {
    hide WellFormed;
    SlotsAndSize(w);
    assert 0 in w.ready && w.tasks[0] == Waiting(h, n, 0);
    var w1 := Apply(w, PollFirst(0, true));
    assert w1.tasks[0] == Woken(h, n, 0);
  }

  /**
    From start-up a request can run to its end, whatever is sent and whatever
    the device answers: its caller then reads that answer.
   */
  lemma {:induction false} RequestCanComplete(w0: World, k: nat, data: seq<int>, page: Page) returns (actions: seq<Action>, w: World)
    requires Start(w0, k) && k > 0 && w0.Size() >= 2 && |data| <= PAGE_LEN && |page| == PAGE_LEN
    ensures Run(w0, actions, w) && w.deliveries == [Delivery(0, 0, page)]
  {
    hide Run, Inv, WellFormed, Enabled, Apply, Alone;
    var before, w4, h, n := RequestIsTaken(w0, k, data);
    ChainOfFirst(w4, h, n, data);
    IsAnswered(w4, h, n, data, page);
    var w5 := Apply(w4, DeviceWrite(h, n, page));
    Advance(w0, before, w4, DeviceWrite(h, n, page));
    var w6 := Apply(w5, DeviceComplete(h, PAGE_LEN));
    Advance(w0, before + [DeviceWrite(h, n, page)], w5, DeviceComplete(h, PAGE_LEN));
    actions, w := ReplyIsRead(w0, before + [DeviceWrite(h, n, page)] + [DeviceComplete(h, PAGE_LEN)], w6, h, n, data);
    OneDelivery(w, page);
  }

  lemma {:induction false} RequestIsTaken(w0: World, k: nat, data: seq<int>)
    returns (actions: seq<Action>, w: World, h: nat, n: nat)
    requires Start(w0, k) && k > 0 && w0.Size() >= 2 && |data| <= PAGE_LEN
    ensures Run(w0, actions, w) && Inv(w) && WellFormed(w)
    ensures Alone(w, h, n, data, InDevice, Waker(0), Waiting(h, n, 0), 1, [], 0)
  {
    hide Run, Inv, WellFormed, Enabled, Apply, Alone, RingInv;
    StartInv(w0, k);
    InvIsWellFormed(w0);
    RunNothing(w0);
    h, n := w0.Size() - 1, w0.Size() - 2;
    Sends(w0, k, data);
    var w1 := Apply(w0, Acquire(0));
    Advance(w0, [], w0, Acquire(0));
    var w2 := Apply(w1, Submit(0, data));
    Advance(w0, [] + [Acquire(0)], w1, Submit(0, data));
    Waits(w2, h, n, data);
    var w3 := Apply(w2, PollFirst(0, false));
    Advance(w0, [] + [Acquire(0)] + [Submit(0, data)], w2, PollFirst(0, false));
    NothingBusy(w3, h, n, data);
    IsTaken(w3, h, n, data);
    w := Apply(w3, DeviceTake);
    Advance(w0, [] + [Acquire(0)] + [Submit(0, data)] + [PollFirst(0, false)], w3, DeviceTake);
    actions := [] + [Acquire(0)] + [Submit(0, data)] + [PollFirst(0, false)] + [DeviceTake];
  }

  lemma {:induction false} NothingBusy(w: World, h: nat, n: nat, data: seq<int>)
    requires Inv(w) && Alone(w, h, n, data, Offered, Waker(0), Waiting(h, n, 0), 0, [], 0)
    ensures RingInv(w.link) && w.busy == map[]
  {
    hide RingInv, Layout, Ledger, Completions, Counts, Owners, Waiters, Slots, Chains, Replies, Delivered;
    assert forall b :: b !in w.busy;
  }

  lemma {:induction false} ChainOfFirst(w: World, h: nat, n: nat, data: seq<int>)
    requires Inv(w) && WellFormed(w) && Alone(w, h, n, data, InDevice, Waker(0), Waiting(h, n, 0), 1, [], 0)
    ensures |w.subs| == 1 && |w.Descs()| == w.Size() && ChainOf(w.addrs, w.link.q, w.subs[0])
  {
    hide RingInv, Layout, Ledger, Stages, Completions, Counts, Owners, Waiters, Slots, Replies, Delivered, ChainOf;
  }

  lemma {:induction false} ReplyIsRead(w0: World, before: seq<Action>, w6: World, h: nat, n: nat, data: seq<int>)
    returns (actions: seq<Action>, w: World)
    requires Run(w0, before, w6) && Inv(w6) && WellFormed(w6)
    requires Alone(w6, h, n, data, Reported, Waker(0), Waiting(h, n, 0), 1, [h], 0)
    ensures Run(w0, actions, w) && Inv(w) && w.replies == w6.replies
    ensures |w.deliveries| == 1 && w.deliveries[0].sub == 0 && w.deliveries[0].task == 0
  {
    hide Run, Inv, WellFormed, Enabled, Apply, Alone, RingInv;
    RingsOf(w6);
    IsSignalled(w6, h, n, data);
    var w7 := Apply(w6, PopUsed);
    Advance(w0, before, w6, PopUsed);
    var w8 := Apply(w7, WakeSlot);
    Advance(w0, before + [PopUsed], w7, WakeSlot);
    IsRead(w8, h, n, data);
    var w9 := Apply(w8, PollFirst(0, true));
    Advance(w0, before + [PopUsed] + [WakeSlot], w8, PollFirst(0, true));
    var w10 := Apply(w9, Release(0));
    Advance(w0, before + [PopUsed] + [WakeSlot] + [PollFirst(0, true)], w9, Release(0));
    w := Apply(w10, Read(0));
    Advance(w0, before + [PopUsed] + [WakeSlot] + [PollFirst(0, true)] + [Release(0)], w10, Read(0));
    actions := before + [PopUsed] + [WakeSlot] + [PollFirst(0, true)] + [Release(0)] + [Read(0)];
  }

  lemma RingsOf(w: World)
    requires Inv(w)
    ensures RingInv(w.link)
  {
  }

  /** The reply read is the one recorded when the device completed the submission. */
  lemma {:induction false} OneDelivery(w: World, page: Page)
    requires Inv(w) && |w.deliveries| == 1 && w.deliveries[0].sub == 0 && w.deliveries[0].task == 0
    requires 0 in w.replies && w.replies[0] == page
    ensures w.deliveries == [Delivery(0, 0, page)]
  {
    hide RingInv, Layout, Ledger, Stages, Completions, Counts, Owners, Waiters, Slots, Chains, Replies;
    assert Faithful(w.subs, w.stage, w.replies, w.deliveries[0]);
  }
}
