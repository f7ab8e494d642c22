/**
  The request/completion protocol of bootloader/kernel/src/drivers/virtio_gpu.rs.

  Any number of tasks run `request`, one task drains the used ring, and a device
  takes chains in order, fills writable buffers and completes chains in any
  order. One `Action` is one lock section of the source, one device access, or
  the caller's read of the reply; actions interleave freely, except that no task
  takes descriptors between another task's `set_free_desc_id` and the read of its
  reply, because there is no `await` in between.
 */
module GpuProtocol {
  import opened Wrappers
  import opened Virtqueue
  import opened Finite

  const WAKER_SLOTS: nat := 256
  const POSTS: nat := 10

  /** `IdWaker` */
  datatype Slot = Empty | Done | Waker(task: nat)

  /** What was made available: a bare writable buffer, or a request with its reply buffer. */
  datatype Submission =
    | Posted(head: nat)
    | Request(head: nat, next: nat, task: nat, data: seq<int>)

  /** How far a submission has come. */
  datatype Stage = Offered | InDevice | Reported | InHand | Signalled | Collected

  /** Where a requesting task stands. */
  datatype Pc =
    | Idle
    | Got(h: nat, n: nat)
    | Polling(h: nat, n: nat, s: nat)      // published, about to poll for the first time
    | Rechecking(h: nat, n: nat, s: nat)   // between the two lock sections of `poll`
    | Waiting(h: nat, n: nat, s: nat)      // `poll` answered `Pending`
    | Woken(h: nat, n: nat, s: nat)        // `poll` answered `Ready`
    | Returned(h: nat, n: nat, s: nat)     // descriptors given back, reply not read yet

  datatype Delivery = Delivery(task: nat, sub: nat, page: Page)

  /**
    `link`, `slots`, `hand` (the used id the draining task has popped), `ready`
    and `tasks` are the state of the program; `busy` is the device's own table of
    chains it has taken. The remaining fields record the history.
   */
  datatype World = World(
    addrs: seq<nat>,
    link: Link,
    slots: seq<Slot>,
    hand: Option<(nat, nat)>,
    ready: multiset<nat>,
    tasks: seq<Pc>,
    busy: map<nat, nat>,
    turns: nat,
    posted: seq<nat>,
    subs: seq<Submission>,
    stage: seq<Stage>,
    reported: seq<nat>,
    replies: map<nat, Page>,
    deliveries: seq<Delivery>,
    panicked: bool)
  {
    ghost function Size(): nat { link.q.size }
    ghost function Descs(): seq<Desc> { link.q.descs }
    ghost function Mem(): map<nat, Page> { link.q.mem }
  }

  datatype Action =
    | Post
    | Acquire(t: nat)
    | Submit(t: nat, data: seq<int>)
    | PollFirst(t: nat, queued: bool)
    | PollSecond(t: nat)
    | Release(t: nat)
    | Read(t: nat)
    | PopUsed
    | WakeSlot
    | DeviceTake
    | DeviceWrite(h: nat, d: nat, page: Page)
    | DeviceComplete(h: nat, len: nat)

  predicate Holds(pc: Pc) {
    pc.Got? || pc.Polling? || pc.Rechecking? || pc.Waiting? || pc.Woken?
  }

  /** The task has published a chain and not yet seen it done. */
  predicate Expects(pc: Pc) {
    pc.Polling? || pc.Rechecking? || pc.Waiting?
  }

  predicate HasSub(pc: Pc) {
    !pc.Idle? && !pc.Got?
  }

  /** No task stands between giving its descriptors back and reading its reply. */
  ghost predicate NoneReturning(tasks: seq<Pc>) {
    forall t :: 0 <= t < |tasks| ==> !tasks[t].Returned?
  }

  // ---- Steps ----

  ghost predicate WellFormed(w: World) {
    && w.link.q.Shape() && w.Size() <= WAKER_SLOTS == |w.slots|
    && |w.stage| == |w.subs|
    && (forall t :: 0 <= t < |w.tasks| && !w.tasks[t].Idle? ==> w.tasks[t].h < w.Size() && w.tasks[t].n < w.Size())
    && (forall t :: 0 <= t < |w.tasks| && HasSub(w.tasks[t]) ==> w.tasks[t].s < |w.subs|)
    && (forall d :: d in w.link.q.free ==> d < w.Size())
    && (w.hand.Some? ==> w.hand.value.0 < WAKER_SLOTS && w.hand.value.1 < |w.subs|)
    && (forall h :: h in w.busy ==> w.busy[h] < |w.subs|)
    && w.link.taken <= |w.subs| && w.link.consumed <= |w.link.completed| == |w.reported|
    && (forall j :: 0 <= j < |w.reported| ==> w.reported[j] < |w.subs|)
    && (CanTake(w.link) ==> w.link.taken < |w.subs|)
    && (NextUsed(w.link.q).1.Some? ==> w.link.consumed < |w.reported| && NextUsed(w.link.q).1.value.id < WAKER_SLOTS)
    && (forall s :: 0 <= s < |w.subs| && w.subs[s].Request? ==> w.subs[s].next < w.Size())
  }

  ghost predicate Enabled(w: World, a: Action)
    requires WellFormed(w)
  {
    !w.panicked &&
    match a
    case Post => w.turns < POSTS && NoneReturning(w.tasks)
    case Acquire(t) => t < |w.tasks| && w.tasks[t].Idle? && NoneReturning(w.tasks)
    case Submit(t, data) => t < |w.tasks| && w.tasks[t].Got? && |data| <= PAGE_LEN
    case PollFirst(t, queued) =>
      t < |w.tasks| && (w.tasks[t].Polling? || w.tasks[t].Waiting?) && (queued ==> w.tasks[t].Waiting? && t in w.ready)
    case PollSecond(t) => t < |w.tasks| && w.tasks[t].Rechecking?
    case Release(t) => t < |w.tasks| && w.tasks[t].Woken?
    case Read(t) => t < |w.tasks| && w.tasks[t].Returned?
    case PopUsed => w.hand.None?
    case WakeSlot => w.hand.Some?
    case DeviceTake => CanTake(w.link)
    case DeviceWrite(h, d, page) =>
      h in w.busy && d in Chain(w.Descs(), h, w.Size()) && d < w.Size() && Writable(w.Descs()[d]) && |page| == PAGE_LEN
    case DeviceComplete(h, len) => h in w.busy
  }

  ghost function DoPost(w: World): World
    requires WellFormed(w)
  {
    var (q, r) := GetFree(w.link.q);
    if r.None? then w.(turns := w.turns + 1)
    else
      assert r.value in w.link.q.free;
      var l := w.link.(q := SetWritable(q, r.value));
      w.(link := Publish(l, r.value), turns := w.turns + 1, posted := w.posted + [r.value],
         subs := w.subs + [Posted(r.value)], stage := w.stage + [Offered])
  }

  ghost function DoAcquire(w: World, t: nat): World
    requires t < |w.tasks|
  {
    var (q, r) := GetFreeTwice(w.link.q);
    if r.None? then w.(panicked := true)
    else w.(link := w.link.(q := q), tasks := w.tasks[t := Got(r.value.0, r.value.1)])
  }

  ghost function DoSubmit(w: World, t: nat, data: seq<int>): World
    requires WellFormed(w) && t < |w.tasks| && w.tasks[t].Got? && |data| <= PAGE_LEN
  {
    var Got(h, n) := w.tasks[t];
    w.(link := w.link.(q := AddRequest(w.link.q, h, n, data), published := w.link.published + [h]),
       tasks := w.tasks[t := Polling(h, n, |w.subs|)],
       subs := w.subs + [Request(h, n, t, data)], stage := w.stage + [Offered])
  }

  /** `poll` found `Done`: the slot is emptied and the answer is `Ready`. */
  ghost function Collect(w: World, t: nat): World
    requires WellFormed(w) && t < |w.tasks| && HasSub(w.tasks[t])
  {
    var pc := w.tasks[t];
    w.(slots := w.slots[pc.h := Empty], tasks := w.tasks[t := Woken(pc.h, pc.n, pc.s)],
       stage := w.stage[pc.s := Collected])
  }

  ghost function DoPollFirst(w: World, t: nat, queued: bool): World
    requires WellFormed(w) && t < |w.tasks| && HasSub(w.tasks[t])
  {
    var pc := w.tasks[t];
    var w := if queued then w.(ready := w.ready - multiset{t}) else w;
    match w.slots[pc.h]
    case Empty => w.(slots := w.slots[pc.h := Waker(t)], tasks := w.tasks[t := Waiting(pc.h, pc.n, pc.s)])
    case Done => Collect(w, t)
    case Waker(_) => w.(slots := w.slots[pc.h := Waker(t)], tasks := w.tasks[t := Rechecking(pc.h, pc.n, pc.s)])
  }

  ghost function DoPollSecond(w: World, t: nat): World
    requires WellFormed(w) && t < |w.tasks| && HasSub(w.tasks[t])
  {
    var pc := w.tasks[t];
    if w.slots[pc.h].Done? then Collect(w, t)
    else w.(tasks := w.tasks[t := Waiting(pc.h, pc.n, pc.s)])
  }

  ghost function DoRelease(w: World, t: nat): World
    requires t < |w.tasks| && HasSub(w.tasks[t])
  {
    var pc := w.tasks[t];
    w.(link := w.link.(q := SetFree(SetFree(w.link.q, pc.h), pc.n)), tasks := w.tasks[t := Returned(pc.h, pc.n, pc.s)])
  }

  ghost function DoRead(w: World, t: nat): World
    requires WellFormed(w) && t < |w.tasks| && HasSub(w.tasks[t])
  {
    var pc := w.tasks[t];
    var page := w.Mem()[w.Descs()[pc.n].addr];
    w.(deliveries := w.deliveries + [Delivery(t, pc.s, page)], tasks := w.tasks[t := Idle])
  }

  ghost function DoPopUsed(w: World): World
    requires WellFormed(w)
  {
    var r := NextUsed(w.link.q).1;
    if r.None? then w
    else
      var s := w.reported[w.link.consumed];
      w.(link := Consume(w.link), hand := Some((r.value.id, s)), stage := w.stage[s := InHand])
  }

  ghost function DoWakeSlot(w: World): World
    requires WellFormed(w) && w.hand.Some?
  {
    var (id, s) := w.hand.value;
    w.(slots := w.slots[id := Done], hand := None, stage := w.stage[s := Signalled],
       ready := if w.slots[id].Waker? then w.ready + multiset{w.slots[id].task} else w.ready)
  }

  ghost function DoDeviceTake(w: World): World
    requires WellFormed(w) && CanTake(w.link)
  {
    w.(link := Take(w.link), busy := w.busy[TakenHead(w.link) := w.link.taken], stage := w.stage[w.link.taken := InDevice])
  }

  ghost function DoDeviceWrite(w: World, d: nat, page: Page): World
    requires WellFormed(w) && d < w.Size()
  {
    w.(link := w.link.(q := w.link.q.(mem := w.Mem()[w.Descs()[d].addr := page])))
  }

  ghost function DoDeviceComplete(w: World, h: nat, len: nat): World
    requires WellFormed(w) && h in w.busy
  {
    var s := w.busy[h];
    w.(link := Complete(w.link, h, len), busy := w.busy - {h}, stage := w.stage[s := Reported], reported := w.reported + [s],
       replies := if w.subs[s].Request? then w.replies[s := w.Mem()[w.Descs()[w.subs[s].next].addr]] else w.replies)
  }

  ghost function Apply(w: World, a: Action): World
    requires WellFormed(w) && Enabled(w, a)
  {
    match a
    case Post => DoPost(w)
    case Acquire(t) => DoAcquire(w, t)
    case Submit(t, data) => DoSubmit(w, t, data)
    case PollFirst(t, queued) => DoPollFirst(w, t, queued)
    case PollSecond(t) => DoPollSecond(w, t)
    case Release(t) => DoRelease(w, t)
    case Read(t) => DoRead(w, t)
    case PopUsed => DoPopUsed(w)
    case WakeSlot => DoWakeSlot(w)
    case DeviceTake => DoDeviceTake(w)
    case DeviceWrite(h, d, page) => DoDeviceWrite(w, d, page)
    case DeviceComplete(h, len) => DoDeviceComplete(w, h, len)
  }

  /** `k` idle tasks over a queue as `init` leaves it. */
  ghost predicate Start(w: World, k: nat) {
    var q := w.link.q;
    && q.Shape() && q.size <= 256 && U16_RANGE % q.size == 0
    && q.availIdx == 0 && q.usedIdx == 0 && Inc16(q.lastUsed) == 0
    && q.free == seq(q.size, i => i)
    && |w.addrs| == q.size
    && (forall d :: 0 <= d < q.size ==> q.descs[d].addr == w.addrs[d])
    && (forall d, e :: 0 <= d < e < q.size ==> w.addrs[d] != w.addrs[e])
    && w.link == Link(q, 0, [], 0, [], 0)
    && w.slots == seq(WAKER_SLOTS, _ => Empty)
    && w.hand == None && w.ready == multiset{} && w.tasks == seq(k, _ => Idle) && w.busy == map[]
    && w.turns == 0 && w.posted == [] && w.subs == [] && w.stage == [] && w.reported == []
    && w.replies == map[] && w.deliveries == [] && !w.panicked
  }

  ghost predicate Run(w: World, actions: seq<Action>, w': World)
    decreases |actions|
  {
    if actions == [] then w' == w
    else WellFormed(w) && Enabled(w, actions[0]) && Run(Apply(w, actions[0]), actions[1..], w')
  }

  // ---- The invariant ----
  //
  // Each part names only the components it constrains, so that a step keeps
  // every part whose components it does not touch.

  predicate InFlight(st: Stage) {
    st.Offered? || st.InDevice? || st.Reported?
  }

  ghost function Unconsumed(stage: seq<Stage>): set<nat> {
    set s: nat | s < |stage| && InFlight(stage[s])
  }

  ghost function Holders(tasks: seq<Pc>): set<nat> {
    set t: nat | t < |tasks| && Holds(tasks[t])
  }

  /** The submissions are what the rings carried. */
  ghost predicate Ledger(size: nat, subs: seq<Submission>, published: seq<nat>, reported: seq<nat>, completed: seq<nat>) {
    && |subs| == |published| && |reported| == |completed|
    && (forall s :: 0 <= s < |subs| ==> published[s] == subs[s].head < size)
    && (forall s :: 0 <= s < |subs| && subs[s].Request? ==> subs[s].next < size)
    && (forall j :: 0 <= j < |reported| ==> reported[j] < |subs| && completed[j] == subs[reported[j]].head)
  }

  /** Every submission is in exactly the place its stage names. */
  ghost predicate Stages(subs: seq<Submission>, stage: seq<Stage>, taken: nat, busy: map<nat, nat>) {
    && |stage| == |subs|
    && (forall s :: 0 <= s < |stage| ==> (stage[s].Offered? <==> s >= taken))
    && (forall h :: h in busy ==> busy[h] < |subs| && subs[busy[h]].head == h && stage[busy[h]].InDevice?)
    && (forall s :: 0 <= s < |stage| && stage[s].InDevice? ==> subs[s].head in busy && busy[subs[s].head] == s)
  }

  ghost predicate Completions(subs: seq<Submission>, stage: seq<Stage>, reported: seq<nat>, consumed: nat, hand: Option<(nat, nat)>) {
    && |stage| == |subs| && consumed <= |reported|
    && (forall j :: 0 <= j < |reported| ==> reported[j] < |stage|)
    && (forall j :: consumed <= j < |reported| ==> stage[reported[j]].Reported?)
    && (forall j :: 0 <= j < consumed ==> !InFlight(stage[reported[j]]))
    && (forall i, j :: 0 <= i < j < |reported| ==> reported[i] != reported[j])
    && (forall s :: 0 <= s < |stage| && !stage[s].Offered? && !stage[s].InDevice? ==> s in reported)
    && (hand.Some? ==> hand.value.1 < |subs| && stage[hand.value.1].InHand? && subs[hand.value.1].head == hand.value.0)
    && (forall s :: 0 <= s < |stage| && stage[s].InHand? ==> hand == Some((subs[s].head, s)))
  }

  ghost predicate Counts(l: Link, stage: seq<Stage>, tasks: seq<Pc>, busy: map<nat, nat>, posted: seq<nat>, turns: nat) {
    && |l.completed| + |busy| == l.taken
    && |Unconsumed(stage)| == |l.published| - l.consumed
    && |l.q.free| + 2 * |Holders(tasks)| + |posted| == l.q.size
    && |posted| <= turns <= POSTS
  }

  /** Every descriptor is in the free stack, in one task's pair, or posted, and in one of them only. */
  ghost predicate Owners(size: nat, free: seq<nat>, posted: seq<nat>, tasks: seq<Pc>) {
    && (forall i, j :: 0 <= i < j < |free| ==> free[i] != free[j])
    && (forall d :: d in free ==> d < size && d !in posted)
    && (forall i, j :: 0 <= i < j < |posted| ==> posted[i] != posted[j])
    && (forall d :: d in posted ==> d < size)
    && (forall t :: 0 <= t < |tasks| && Holds(tasks[t]) ==> HoldsPair(size, free, posted, tasks[t]))
    && (forall t, u :: 0 <= t < u < |tasks| && Holds(tasks[t]) && Holds(tasks[u]) ==> Apart(tasks[t], tasks[u]))
    && (forall t :: 0 <= t < |tasks| && tasks[t].Returned? ==> tasks[t].h in free && tasks[t].n in free)
    && (forall d: nat :: d < size ==> d in free || d in posted || HeldBySome(tasks, d))
  }

  ghost predicate HoldsPair(size: nat, free: seq<nat>, posted: seq<nat>, pc: Pc)
    requires !pc.Idle?
  {
    && pc.h != pc.n && pc.h < size && pc.n < size
    && pc.h !in free && pc.n !in free && pc.h !in posted && pc.n !in posted
  }

  predicate Apart(a: Pc, b: Pc)
    requires !a.Idle? && !b.Idle?
  {
    a.h != b.h && a.h != b.n && a.n != b.h && a.n != b.n
  }

  ghost predicate HeldBySome(tasks: seq<Pc>, d: nat) {
    exists t :: 0 <= t < |tasks| && Holds(tasks[t]) && (tasks[t].h == d || tasks[t].n == d)
  }

  /** A request not yet collected has exactly one task waiting for it; posted buffers are never collected. */
  ghost predicate Waiters(subs: seq<Submission>, stage: seq<Stage>, tasks: seq<Pc>, posted: seq<nat>) {
    && |stage| == |subs|
    && (forall t :: 0 <= t < |tasks| && HasSub(tasks[t]) ==> IsSub(subs, t, tasks[t]))
    && (forall t :: 0 <= t < |tasks| && HasSub(tasks[t]) ==> (Expects(tasks[t]) <==> !stage[tasks[t].s].Collected?))
    && (forall s :: 0 <= s < |subs| && subs[s].Request? && !stage[s].Collected? ==> HasWaiter(subs[s], s, tasks))
    && (forall s :: 0 <= s < |subs| && subs[s].Posted? ==> subs[s].head in posted && !stage[s].Collected?)
    && (forall r, s :: 0 <= r < s < |subs| && subs[r].Posted? && subs[s].Posted? ==> subs[r].head != subs[s].head)
  }

  ghost predicate IsSub(subs: seq<Submission>, t: nat, pc: Pc)
    requires HasSub(pc)
  {
    pc.s < |subs| && subs[pc.s].Request? && subs[pc.s].head == pc.h && subs[pc.s].next == pc.n && subs[pc.s].task == t
  }

  ghost predicate HasWaiter(sub: Submission, s: nat, tasks: seq<Pc>)
    requires sub.Request?
  {
    sub.task < |tasks| && Expects(tasks[sub.task]) && tasks[sub.task].s == s
  }

  /** What a waiting task will find in its slot, and that a task whose slot is `Done` is queued. */
  ghost predicate Slots(subs: seq<Submission>, stage: seq<Stage>, tasks: seq<Pc>, slots: seq<Slot>, ready: multiset<nat>) {
    && |stage| == |subs| && |slots| == WAKER_SLOTS
    && (forall t :: 0 <= t < |tasks| && Expects(tasks[t]) ==> SlotOf(stage, slots, ready, t, tasks[t]))
    && (forall d :: 0 <= d < WAKER_SLOTS && slots[d] != Empty ==> Awaited(subs, stage, d))
    && (forall d :: 0 <= d < WAKER_SLOTS && slots[d].Waker? ==> Registered(tasks, slots[d].task, d))
  }

  ghost predicate Registered(tasks: seq<Pc>, t: nat, d: nat) {
    t < |tasks| && Expects(tasks[t]) && tasks[t].h == d
  }

  ghost predicate SlotOf(stage: seq<Stage>, slots: seq<Slot>, ready: multiset<nat>, t: nat, pc: Pc)
    requires Expects(pc)
  {
    && pc.h < |slots| && pc.s < |stage|
    && (slots[pc.h] == if stage[pc.s].Signalled? then Done else if pc.Polling? then Empty else Waker(t))
    && (pc.Waiting? && stage[pc.s].Signalled? ==> t in ready)
  }

  ghost predicate Awaited(subs: seq<Submission>, stage: seq<Stage>, d: nat)
    requires |stage| == |subs|
  {
    exists s :: 0 <= s < |subs| && subs[s].head == d && !stage[s].Collected? && (subs[s].Posted? ==> stage[s].Signalled?)
  }

  /** The device always sees a request exactly as it was submitted: readable data, then one writable buffer. */
  ghost predicate Chains(addrs: seq<nat>, q: Queue, subs: seq<Submission>, stage: seq<Stage>) {
    && |stage| == |subs|
    && (forall s :: 0 <= s < |subs| && !stage[s].Collected? ==> ChainOf(addrs, q, subs[s]))
  }

  ghost predicate ChainOf(addrs: seq<nat>, q: Queue, sub: Submission) {
    match sub
    case Posted(h) => h < |q.descs| && q.descs[h].flags == DESC_F_WRITE
    case Request(h, n, _, data) =>
      && h < |q.descs| && n < |q.descs| && h < |addrs|
      && q.descs[h] == Desc(addrs[h], |data|, DESC_F_NEXT, n)
      && q.descs[n].flags == DESC_F_WRITE && q.descs[n].len == PAGE_LEN
      && addrs[h] in q.mem && |data| <= |q.mem[addrs[h]]| && q.mem[addrs[h]][..|data|] == data
  }

  /** From completion until the caller has read it, the reply buffer holds what the device left there. */
  ghost predicate Replies(addrs: seq<nat>, mem: map<nat, Page>, subs: seq<Submission>, stage: seq<Stage>, tasks: seq<Pc>,
                          replies: map<nat, Page>) {
    && |stage| == |subs|
    && (forall s :: 0 <= s < |subs| && subs[s].Request? && (stage[s].Reported? || stage[s].InHand? || stage[s].Signalled?) ==>
          HasReply(addrs, mem, replies, s, subs[s].next))
    && (forall t :: 0 <= t < |tasks| && (tasks[t].Woken? || tasks[t].Returned?) ==>
          HasReply(addrs, mem, replies, tasks[t].s, tasks[t].n))
  }

  ghost predicate HasReply(addrs: seq<nat>, mem: map<nat, Page>, replies: map<nat, Page>, s: nat, n: nat) {
    n < |addrs| && addrs[n] in mem && s in replies && mem[addrs[n]] == replies[s]
  }

  /** Deliveries are correct, none is made twice, and a collected request is delivered or about to be. */
  ghost predicate Delivered(subs: seq<Submission>, stage: seq<Stage>, tasks: seq<Pc>, replies: map<nat, Page>,
                            deliveries: seq<Delivery>) {
    && |stage| == |subs|
    && (forall i :: 0 <= i < |deliveries| ==> Faithful(subs, stage, replies, deliveries[i]))
    && (forall i, j :: 0 <= i < j < |deliveries| ==> deliveries[i].sub != deliveries[j].sub)
    && (forall i, t :: 0 <= i < |deliveries| && 0 <= t < |tasks| && HasSub(tasks[t]) ==> deliveries[i].sub != tasks[t].s)
    && (forall s :: 0 <= s < |subs| && stage[s].Collected? ==> IsDelivered(deliveries, s) || AboutToRead(tasks, s))
  }

  ghost predicate Faithful(subs: seq<Submission>, stage: seq<Stage>, replies: map<nat, Page>, d: Delivery)
    requires |stage| == |subs|
  {
    && d.sub < |subs| && subs[d.sub].Request? && subs[d.sub].task == d.task && stage[d.sub].Collected?
    && d.sub in replies && d.page == replies[d.sub]
  }

  ghost predicate IsDelivered(deliveries: seq<Delivery>, s: nat) {
    exists i :: 0 <= i < |deliveries| && deliveries[i].sub == s
  }

  ghost predicate AboutToRead(tasks: seq<Pc>, s: nat) {
    exists t :: 0 <= t < |tasks| && (tasks[t].Woken? || tasks[t].Returned?) && tasks[t].s == s
  }

  ghost predicate Inv(w: World) {
    var l := w.link;
    && RingInv(l)
    && Layout(w.addrs, l.q.descs)
    && Ledger(l.q.size, w.subs, l.published, w.reported, l.completed)
    && Stages(w.subs, w.stage, l.taken, w.busy)
    && Completions(w.subs, w.stage, w.reported, l.consumed, w.hand)
    && Counts(l, w.stage, w.tasks, w.busy, w.posted, w.turns)
    && Owners(l.q.size, l.q.free, w.posted, w.tasks)
    && Waiters(w.subs, w.stage, w.tasks, w.posted)
    && Slots(w.subs, w.stage, w.tasks, w.slots, w.ready)
    && Chains(w.addrs, l.q, w.subs, w.stage)
    && Replies(w.addrs, l.q.mem, w.subs, w.stage, w.tasks, w.replies)
    && Delivered(w.subs, w.stage, w.tasks, w.replies, w.deliveries)
  }

  // ---- The start ----

  lemma InvIsWellFormed(w: World)
    requires Inv(w)
    ensures WellFormed(w)
  {
    hide RingInv, Layout, Ledger, Stages, Completions, Owners, Waiters, Slots, Chains, Replies, Delivered, NextUsed, CanTake, TakenHead;
    RingFacts(w.link);
    TakeReadsFifo(w.link);
    NextUsedReadsFifo(w.link);
    TasksInRange(w.Size(), w.link.q.free, w.posted, w.tasks, w.subs, w.stage);
    PlacesInRange(w.Size(), w.subs, w.stage, w.link, w.busy, w.reported, w.hand);
    SlotsInRange(w.subs, w.stage, w.tasks, w.slots, w.ready);
  }

  lemma TasksInRange(size: nat, free: seq<nat>, posted: seq<nat>, tasks: seq<Pc>, subs: seq<Submission>, stage: seq<Stage>)
    requires Owners(size, free, posted, tasks) && Waiters(subs, stage, tasks, posted)
    ensures forall t :: 0 <= t < |tasks| && !tasks[t].Idle? ==> tasks[t].h < size && tasks[t].n < size
    ensures forall t :: 0 <= t < |tasks| && HasSub(tasks[t]) ==> tasks[t].s < |subs|
    ensures forall d :: d in free ==> d < size
  {
  }

  lemma PlacesInRange(size: nat, subs: seq<Submission>, stage: seq<Stage>, l: Link, busy: map<nat, nat>, reported: seq<nat>,
                      hand: Option<(nat, nat)>)
    requires Ledger(size, subs, l.published, reported, l.completed) && Stages(subs, stage, l.taken, busy)
    requires Completions(subs, stage, reported, l.consumed, hand)
    ensures |stage| == |subs| == |l.published| && |reported| == |l.completed|
    ensures hand.Some? ==> hand.value.0 < size && hand.value.1 < |subs|
    ensures forall h :: h in busy ==> busy[h] < |subs|
    ensures forall j :: 0 <= j < |reported| ==> reported[j] < |subs| && l.completed[j] < size
    ensures forall s :: 0 <= s < |subs| && subs[s].Request? ==> subs[s].next < size
  {
  }

  lemma SlotsInRange(subs: seq<Submission>, stage: seq<Stage>, tasks: seq<Pc>, slots: seq<Slot>, ready: multiset<nat>)
    requires Slots(subs, stage, tasks, slots, ready)
    ensures |slots| == WAKER_SLOTS
  {
  }

  lemma RingFacts(l: Link)
    requires RingInv(l)
    ensures l.q.Shape() && l.q.size <= WAKER_SLOTS && Counters(l)
  {
  }

  lemma StartInv(w: World, k: nat)
    requires Start(w, k)
    ensures Inv(w)
  {
    assert Unconsumed(w.stage) == {} && Holders(w.tasks) == {};
    StartOwners(w.Size(), w.link.q.free, w.tasks);
  }

  lemma StartOwners(size: nat, free: seq<nat>, tasks: seq<Pc>)
    requires |free| == size && forall d :: 0 <= d < size ==> free[d] == d
    requires forall t :: 0 <= t < |tasks| ==> tasks[t].Idle?
    ensures Owners(size, free, [], tasks)
  {
    forall d: nat | d < size ensures d in free { assert free[d] == d; }
  }

  // ---- Room in the rings ----

  /** No two chains that the driver has not seen done share a head. */
  lemma {:induction false} LiveHeadsDiffer(size: nat, free: seq<nat>, posted: seq<nat>, tasks: seq<Pc>,
                                           subs: seq<Submission>, stage: seq<Stage>, r: nat, s: nat)
    requires Owners(size, free, posted, tasks) && Waiters(subs, stage, tasks, posted)
    requires r < |subs| && s < |subs| && r != s && !stage[r].Collected? && !stage[s].Collected?
    ensures subs[r].head != subs[s].head
  {
    hide Owners, Waiters;
    if subs[r].Request? && subs[s].Request? {
      WaiterOf(size, free, posted, tasks, subs, stage, r);
      WaiterOf(size, free, posted, tasks, subs, stage, s);
      WaitersDiffer(subs, stage, tasks, posted, r, s);
      PairsApart(size, free, posted, tasks, subs[r].task, subs[s].task);
    } else if subs[r].Request? {
      WaiterOf(size, free, posted, tasks, subs, stage, r);
      PostedHeads(subs, stage, tasks, posted, s);
    } else if subs[s].Request? {
      WaiterOf(size, free, posted, tasks, subs, stage, s);
      PostedHeads(subs, stage, tasks, posted, r);
    } else {
      PostedApart(subs, stage, tasks, posted, r, s);
    }
  }

  lemma WaitersDiffer(subs: seq<Submission>, stage: seq<Stage>, tasks: seq<Pc>, posted: seq<nat>, r: nat, s: nat)
    requires Waiters(subs, stage, tasks, posted) && r < |subs| && s < |subs| && r != s
    requires subs[r].Request? && subs[s].Request? && !stage[r].Collected? && !stage[s].Collected?
    ensures subs[r].task != subs[s].task
  {
    assert HasWaiter(subs[r], r, tasks) && HasWaiter(subs[s], s, tasks);
  }

  lemma PostedHeads(subs: seq<Submission>, stage: seq<Stage>, tasks: seq<Pc>, posted: seq<nat>, s: nat)
    requires Waiters(subs, stage, tasks, posted) && s < |subs| && subs[s].Posted?
    ensures subs[s].head in posted
  {
  }

  lemma PostedApart(subs: seq<Submission>, stage: seq<Stage>, tasks: seq<Pc>, posted: seq<nat>, r: nat, s: nat)
    requires Waiters(subs, stage, tasks, posted) && r < |subs| && s < |subs| && r != s && subs[r].Posted? && subs[s].Posted?
    ensures subs[r].head != subs[s].head
  {
    if r < s { assert subs[r].head != subs[s].head; } else { assert subs[s].head != subs[r].head; }
  }

  lemma {:induction false} FewerThan(stage: seq<Stage>, heads: seq<nat>, size: nat, d: nat)
    requires |heads| == |stage| && d < size
    requires forall s :: 0 <= s < |stage| && InFlight(stage[s]) ==> heads[s] < size && heads[s] != d
    requires forall r, s :: 0 <= r < |stage| && 0 <= s < |stage| && r != s && InFlight(stage[r]) && InFlight(stage[s]) ==>
               heads[r] != heads[s]
    ensures |Unconsumed(stage)| < size
  {
    var used := set s | s in Unconsumed(stage) :: heads[s];
    ImageSize(Unconsumed(stage), used, s requires 0 <= s < |heads| => heads[s]);
    SubsetSize(used, Below(size) - {d});
  }

  /** The descriptor heads a chain the driver has not seen done. */
  ghost predicate Heads(subs: seq<Submission>, stage: seq<Stage>, d: nat)
    requires |stage| == |subs|
  {
    exists s :: 0 <= s < |subs| && !stage[s].Collected? && subs[s].head == d
  }

  /** A descriptor that heads no such chain leaves a free slot in both rings. */
  lemma {:induction false} RingHasRoom(w: World, d: nat)
    requires Inv(w) && d < w.Size() && !Heads(w.subs, w.stage, d)
    ensures |w.link.published| - w.link.consumed < w.Size()
  {
    forall r, s | 0 <= r < |w.stage| && 0 <= s < |w.stage| && r != s && InFlight(w.stage[r]) && InFlight(w.stage[s])
      ensures w.link.published[r] != w.link.published[s]
    { LiveHeadsDiffer(w.Size(), w.link.q.free, w.posted, w.tasks, w.subs, w.stage, r, s); }
    FewerThan(w.stage, w.link.published, w.Size(), d);
  }

  lemma {:induction false} FreeHeadsNothing(size: nat, free: seq<nat>, posted: seq<nat>, tasks: seq<Pc>,
                                            subs: seq<Submission>, stage: seq<Stage>, d: nat)
    requires Owners(size, free, posted, tasks) && Waiters(subs, stage, tasks, posted) && d in free
    ensures !Heads(subs, stage, d)
  {
    forall s | 0 <= s < |subs| && !stage[s].Collected?
      ensures subs[s].head != d
    {
      if subs[s].Request? {
        assert HasWaiter(subs[s], s, tasks);
        assert HoldsPair(size, free, posted, tasks[subs[s].task]);
      }
    }
  }

  lemma {:induction false} GotHeadsNothing(size: nat, free: seq<nat>, posted: seq<nat>, tasks: seq<Pc>,
                                           subs: seq<Submission>, stage: seq<Stage>, t: nat)
    requires Owners(size, free, posted, tasks) && Waiters(subs, stage, tasks, posted)
    requires t < |tasks| && tasks[t].Got?
    ensures !Heads(subs, stage, tasks[t].h) && !Heads(subs, stage, tasks[t].n)
  {
    hide Owners, Waiters;
    ShapeOfWaiters(subs, stage, tasks, posted);
    forall s | 0 <= s < |subs| && !stage[s].Collected?
      ensures subs[s].head != tasks[t].h && subs[s].head != tasks[t].n
    { GotIsNotHead(size, free, posted, tasks, subs, stage, t, s); }
  }

  lemma ShapeOfWaiters(subs: seq<Submission>, stage: seq<Stage>, tasks: seq<Pc>, posted: seq<nat>)
    requires Waiters(subs, stage, tasks, posted)
    ensures |stage| == |subs|
  {
  }

  lemma {:induction false} GotIsNotHead(size: nat, free: seq<nat>, posted: seq<nat>, tasks: seq<Pc>,
                                        subs: seq<Submission>, stage: seq<Stage>, t: nat, s: nat)
    requires Owners(size, free, posted, tasks) && Waiters(subs, stage, tasks, posted)
    requires t < |tasks| && tasks[t].Got? && s < |subs| && !stage[s].Collected?
    ensures subs[s].head != tasks[t].h && subs[s].head != tasks[t].n
  {
    assert HoldsPair(size, free, posted, tasks[t]);
    if subs[s].Request? {
      assert HasWaiter(subs[s], s, tasks);
      var u := subs[s].task;
      assert IsSub(subs, u, tasks[u]);
      hide Waiters;
      PairsApart(size, free, posted, tasks, t, u);
    }
  }

  // ---- A submission moves on, without being collected ----

  lemma MoveKeeps(subs: seq<Submission>, stage: seq<Stage>, tasks: seq<Pc>, posted: seq<nat>, addrs: seq<nat>, q: Queue,
                  replies: map<nat, Page>, deliveries: seq<Delivery>, s: nat, st: Stage)
    requires s < |stage| && !stage[s].Collected? && !st.Collected?
    requires Waiters(subs, stage, tasks, posted) && Chains(addrs, q, subs, stage)
    requires Delivered(subs, stage, tasks, replies, deliveries)
    ensures Waiters(subs, stage[s := st], tasks, posted) && Chains(addrs, q, subs, stage[s := st])
    ensures Delivered(subs, stage[s := st], tasks, replies, deliveries)
  {
  }

  lemma MoveKeepsSlots(subs: seq<Submission>, stage: seq<Stage>, tasks: seq<Pc>, slots: seq<Slot>, ready: multiset<nat>,
                       s: nat, st: Stage)
    requires s < |stage| && !stage[s].Collected? && !st.Collected? && !stage[s].Signalled? && !st.Signalled?
    requires Slots(subs, stage, tasks, slots, ready)
    ensures Slots(subs, stage[s := st], tasks, slots, ready)
  {
    var stage' := stage[s := st];
    forall d | 0 <= d < WAKER_SLOTS && slots[d] != Empty
      ensures Awaited(subs, stage', d)
    {
      assert Awaited(subs, stage, d);
      var r :| 0 <= r < |subs| && subs[r].head == d && !stage[r].Collected? && (subs[r].Posted? ==> stage[r].Signalled?);
      assert subs[r].head == d && !stage'[r].Collected? && (subs[r].Posted? ==> stage'[r].Signalled?);
    }
  }

  // ---- A submission is added ----

  lemma AppendKeeps(subs: seq<Submission>, stage: seq<Stage>, tasks: seq<Pc>, slots: seq<Slot>, ready: multiset<nat>,
                    replies: map<nat, Page>, deliveries: seq<Delivery>, sub: Submission)
    requires Slots(subs, stage, tasks, slots, ready) && Delivered(subs, stage, tasks, replies, deliveries)
    ensures Slots(subs + [sub], stage + [Offered], tasks, slots, ready)
    ensures Delivered(subs + [sub], stage + [Offered], tasks, replies, deliveries)
  {
    var subs', stage' := subs + [sub], stage + [Offered];
    forall d | 0 <= d < WAKER_SLOTS && slots[d] != Empty
      ensures Awaited(subs', stage', d)
    {
      assert Awaited(subs, stage, d);
      var r :| 0 <= r < |subs| && subs[r].head == d && !stage[r].Collected? && (subs[r].Posted? ==> stage[r].Signalled?);
      assert subs'[r].head == d && !stage'[r].Collected? && (subs'[r].Posted? ==> stage'[r].Signalled?);
    }
  }

  lemma AppendKeepsPlaces(size: nat, subs: seq<Submission>, published: seq<nat>, reported: seq<nat>, completed: seq<nat>,
                          stage: seq<Stage>, taken: nat, busy: map<nat, nat>, consumed: nat, hand: Option<(nat, nat)>,
                          sub: Submission)
    requires Ledger(size, subs, published, reported, completed) && Stages(subs, stage, taken, busy)
    requires Completions(subs, stage, reported, consumed, hand) && taken <= |subs|
    requires sub.head < size && (sub.Request? ==> sub.next < size)
    ensures Ledger(size, subs + [sub], published + [sub.head], reported, completed)
    ensures Stages(subs + [sub], stage + [Offered], taken, busy)
    ensures Completions(subs + [sub], stage + [Offered], reported, consumed, hand)
    ensures |Unconsumed(stage + [Offered])| == |Unconsumed(stage)| + 1
  {
    assert Unconsumed(stage + [Offered]) == Unconsumed(stage) + {|stage|};
  }

  // ---- Device steps ----

  lemma {:induction false} DeviceTakeKeeps(w: World)
    requires Inv(w) && WellFormed(w) && CanTake(w.link)
    ensures Inv(DoDeviceTake(w))
  {
    hide Owners, Waiters, Slots, Chains, Layout, Replies, Delivered, RingInv, WellFormed, Ledger, Stages, Completions;
    var s := w.link.taken;
    TakeReadsFifo(w.link);
    TakeFacts(w);
    TakePlaces(w.Size(), w.link.q.free, w.posted, w.tasks, w.subs, w.stage, w.link.taken, w.busy);
    TakeCompletions(w.subs, w.stage, w.reported, w.link.consumed, w.hand, s);
    MoveKeeps(w.subs, w.stage, w.tasks, w.posted, w.addrs, w.link.q, w.replies, w.deliveries, s, InDevice);
    MoveKeepsSlots(w.subs, w.stage, w.tasks, w.slots, w.ready, s, InDevice);
  }

  lemma TakeFacts(w: World)
    requires Inv(w) && CanTake(w.link)
    ensures w.link.q.Shape() && w.link.taken < |w.subs| == |w.stage| && w.stage[w.link.taken].Offered?
    ensures w.subs[w.link.taken].head == TakenHead(w.link)
    ensures forall j :: 0 <= j < |w.reported| ==> w.reported[j] < |w.stage| && !w.stage[w.reported[j]].Offered?
    ensures Unconsumed(w.stage[w.link.taken := InDevice]) == Unconsumed(w.stage)
    ensures Replies(w.addrs, w.Mem(), w.subs, w.stage[w.link.taken := InDevice], w.tasks, w.replies)
  {
    hide Owners, Waiters, Slots, Chains, Delivered, Layout, WellFormed;
    TakeReadsFifo(w.link);
  }

  lemma {:induction false} TakePlaces(size: nat, free: seq<nat>, posted: seq<nat>, tasks: seq<Pc>, subs: seq<Submission>,
                                      stage: seq<Stage>, taken: nat, busy: map<nat, nat>)
    requires Owners(size, free, posted, tasks) && Waiters(subs, stage, tasks, posted) && Stages(subs, stage, taken, busy)
    requires taken < |subs|
    ensures subs[taken].head !in busy
    ensures Stages(subs, stage[taken := InDevice], taken + 1, busy[subs[taken].head := taken])
  {
    forall r | 0 <= r < |subs| && stage[r].InDevice?
      ensures subs[r].head != subs[taken].head
    { LiveHeadsDiffer(size, free, posted, tasks, subs, stage, r, taken); }
  }

  lemma TakeCompletions(subs: seq<Submission>, stage: seq<Stage>, reported: seq<nat>, consumed: nat,
                        hand: Option<(nat, nat)>, s: nat)
    requires Completions(subs, stage, reported, consumed, hand) && s < |stage| && stage[s].Offered?
    requires forall j :: 0 <= j < |reported| ==> !stage[reported[j]].Offered?
    ensures Completions(subs, stage[s := InDevice], reported, consumed, hand)
  {
  }

  /** The writable buffer of a submission. */
  function Buffer(sub: Submission): nat {
    if sub.Posted? then sub.head else sub.next
  }

  /** No other chain, and no reply still to be read, uses the descriptor's page. */
  ghost predicate Private(subs: seq<Submission>, stage: seq<Stage>, tasks: seq<Pc>, d: nat)
    requires |stage| == |subs|
  {
    && (forall r :: 0 <= r < |subs| && subs[r].Request? && !stage[r].Collected? ==> subs[r].head != d)
    && (forall r :: 0 <= r < |subs| && subs[r].Request? && (stage[r].Reported? || stage[r].InHand? || stage[r].Signalled?) ==>
          subs[r].next != d)
    && (forall t :: 0 <= t < |tasks| && (tasks[t].Woken? || tasks[t].Returned?) ==> tasks[t].n != d)
  }

  lemma PageWriteKeeps(addrs: seq<nat>, q: Queue, subs: seq<Submission>, stage: seq<Stage>, tasks: seq<Pc>,
                       replies: map<nat, Page>, d: nat, page: Page)
    requires Layout(addrs, q.descs) && Chains(addrs, q, subs, stage) && Replies(addrs, q.mem, subs, stage, tasks, replies)
    requires d < |addrs| && Private(subs, stage, tasks, d)
    ensures Chains(addrs, q.(mem := q.mem[addrs[d] := page]), subs, stage)
    ensures Replies(addrs, q.mem[addrs[d] := page], subs, stage, tasks, replies)
  {
  }

  lemma {:induction false} WaiterOf(size: nat, free: seq<nat>, posted: seq<nat>, tasks: seq<Pc>, subs: seq<Submission>,
                                    stage: seq<Stage>, r: nat)
    requires Owners(size, free, posted, tasks) && Waiters(subs, stage, tasks, posted)
    requires r < |subs| && subs[r].Request? && !stage[r].Collected?
    ensures subs[r].task < |tasks| && Holds(tasks[subs[r].task]) && HoldsPair(size, free, posted, tasks[subs[r].task])
    ensures tasks[subs[r].task].h == subs[r].head && tasks[subs[r].task].n == subs[r].next
  {
    assert HasWaiter(subs[r], r, tasks);
    assert IsSub(subs, subs[r].task, tasks[subs[r].task]);
  }

  lemma {:induction false} BufferIsPrivate(size: nat, free: seq<nat>, posted: seq<nat>, tasks: seq<Pc>, subs: seq<Submission>,
                                           stage: seq<Stage>, s: nat)
    requires Owners(size, free, posted, tasks) && Waiters(subs, stage, tasks, posted)
    requires s < |subs| && stage[s].InDevice?
    ensures Private(subs, stage, tasks, Buffer(subs[s]))
  {
    if subs[s].Request? { WaiterOf(size, free, posted, tasks, subs, stage, s); }
    forall r | 0 <= r < |subs| && subs[r].Request? && !stage[r].Collected?
      ensures subs[r].head != Buffer(subs[s]) && (r != s ==> subs[r].next != Buffer(subs[s]))
    {
      WaiterOf(size, free, posted, tasks, subs, stage, r);
      if subs[s].Request? && r != s { PairsApart(size, free, posted, tasks, subs[r].task, subs[s].task); }
    }
    forall t | 0 <= t < |tasks| && (tasks[t].Woken? || tasks[t].Returned?)
      ensures tasks[t].n != Buffer(subs[s])
    {
      if tasks[t].Woken? {
        assert HoldsPair(size, free, posted, tasks[t]);
        if subs[s].Request? { PairsApart(size, free, posted, tasks, t, subs[s].task); }
      }
    }
  }

  lemma PairsApart(size: nat, free: seq<nat>, posted: seq<nat>, tasks: seq<Pc>, t: nat, u: nat)
    requires Owners(size, free, posted, tasks) && t < |tasks| && u < |tasks| && t != u && Holds(tasks[t]) && Holds(tasks[u])
    ensures Apart(tasks[t], tasks[u])
  {
    if u < t { assert Apart(tasks[u], tasks[t]); }
  }

  /** The device may only write the buffer of a chain it holds. */
  lemma {:induction false} DeviceReachesOwnBuffer(w: World, h: nat, d: nat)
    requires Inv(w) && h in w.busy && d in Chain(w.Descs(), h, w.Size()) && d < w.Size() && Writable(w.Descs()[d])
    ensures d == Buffer(w.subs[w.busy[h]])
  {
    hide Owners, Waiters, Slots, Replies, Delivered, Completions, Counts;
    var s := w.busy[h];
    assert ChainOf(w.addrs, w.link.q, w.subs[s]);
    ChainShape(w.Descs(), w.subs[s], w.Size());
  }

  /** Section 2.7.4.2 of VIRTIO 1.2: a chain is readable data followed by a writable buffer, and does not loop. */
  lemma {:induction false} ChainShape(descs: seq<Desc>, sub: Submission, size: nat)
    requires size > 0 && sub.head < |descs|
    requires sub.Posted? ==> descs[sub.head].flags == DESC_F_WRITE
    requires sub.Request? ==> descs[sub.head].flags == DESC_F_NEXT && descs[sub.head].next == sub.next
    requires sub.Request? ==> sub.next < |descs| && descs[sub.next].flags == DESC_F_WRITE
    ensures Chain(descs, sub.head, size) == if sub.Posted? then [sub.head] else [sub.head, sub.next]
    ensures sub.Request? ==> descs[sub.head].flags % 2 == 1 && descs[sub.head].flags / 2 % 2 == 0
    ensures descs[Buffer(sub)].flags % 2 == 0 && descs[Buffer(sub)].flags / 2 % 2 == 1
  {
    if sub.Request? {
      assert Chain(descs, sub.next, size - 1) == [sub.next];
    }
  }

  lemma {:induction false} DeviceWriteKeeps(w: World, h: nat, d: nat, page: Page)
    requires Inv(w) && WellFormed(w) && h in w.busy && |page| == PAGE_LEN
    requires d < w.Size() && |w.Descs()| == w.Size() && Writable(w.Descs()[d]) && d in Chain(w.Descs(), h, w.Size())
    ensures Inv(DoDeviceWrite(w, d, page))
  {
    hide Owners, Waiters, Slots, Chains, Delivered, Replies, Layout, Ledger, Completions, RingInv;
    DeviceReachesOwnBuffer(w, h, d);
    PageWriteRings(w.link, w.addrs, d, page);
    DeviceWriteParts(w, h, d, page);
  }

  lemma DeviceWriteParts(w: World, h: nat, d: nat, page: Page)
    requires Inv(w) && h in w.busy && d < w.Size() && d == Buffer(w.subs[w.busy[h]])
    ensures var q' := w.link.q.(mem := w.Mem()[w.addrs[d] := page]);
            && Chains(w.addrs, q', w.subs, w.stage)
            && Replies(w.addrs, q'.mem, w.subs, w.stage, w.tasks, w.replies)
            && w.Descs()[d].addr == w.addrs[d]
  {
    hide Slots, Chains, Delivered, Replies, Completions, Counts;
    BufferIsPrivate(w.Size(), w.link.q.free, w.posted, w.tasks, w.subs, w.stage, w.busy[h]);
    PageWriteKeeps(w.addrs, w.link.q, w.subs, w.stage, w.tasks, w.replies, d, page);
  }

  lemma PageWriteRings(l: Link, addrs: seq<nat>, d: nat, page: Page)
    requires RingInv(l) && Layout(addrs, l.q.descs) && d < l.q.size && |page| == PAGE_LEN
    ensures RingInv(l.(q := l.q.(mem := l.q.mem[addrs[d] := page])))
  {
  }

  lemma {:induction false} DeviceCompleteKeeps(w: World, h: nat, len: nat)
    requires Inv(w) && WellFormed(w) && h in w.busy
    ensures Inv(DoDeviceComplete(w, h, len))
  {
    hide Owners, Waiters, Slots, Chains, Layout, Replies, Delivered, RingInv, WellFormed, Ledger, Stages, Completions;
    var w' := DoDeviceComplete(w, h, len);
    var s := w.busy[h];
    CompleteFacts(w, h);
    CompleteKeepsRings(w.link, h, len);
    CompletePlaces(w.Size(), w.subs, w.link.published, w.reported, w.link.completed, w.stage, w.link.taken, w.busy,
                   w.link.consumed, w.hand, h);
    MoveKeeps(w.subs, w.stage, w.tasks, w.posted, w.addrs, w.link.q, w.replies, w.deliveries, s, Reported);
    MoveKeepsSlots(w.subs, w.stage, w.tasks, w.slots, w.ready, s, Reported);
    CompleteReplies(w.addrs, w.link.q, w.subs, w.stage, w.tasks, w.posted, w.replies, w'.replies, w.deliveries, s);
    ChainsSameDescs(w.addrs, w.link.q, w'.link.q, w.subs, w'.stage);
  }

  lemma CompleteFacts(w: World, h: nat)
    requires Inv(w) && h in w.busy
    ensures w.link.q.Shape() && w.busy[h] < |w.subs| == |w.stage| && w.stage[w.busy[h]].InDevice?
    ensures w.subs[w.busy[h]].Request? ==> w.subs[w.busy[h]].next < w.Size()
    ensures |w.link.completed| < w.link.taken && |w.busy - {h}| == |w.busy| - 1
    ensures Unconsumed(w.stage[w.busy[h] := Reported]) == Unconsumed(w.stage)
  {
    hide Owners, Waiters, Slots, Chains, Delivered, Layout, WellFormed, Replies;
    assert (w.busy - {h}).Keys == w.busy.Keys - {h};
  }

  lemma CompletePlaces(size: nat, subs: seq<Submission>, published: seq<nat>, reported: seq<nat>, completed: seq<nat>,
                       stage: seq<Stage>, taken: nat, busy: map<nat, nat>, consumed: nat, hand: Option<(nat, nat)>, h: nat)
    requires Ledger(size, subs, published, reported, completed) && Stages(subs, stage, taken, busy)
    requires Completions(subs, stage, reported, consumed, hand) && h in busy
    ensures Ledger(size, subs, published, reported + [busy[h]], completed + [h])
    ensures Stages(subs, stage[busy[h] := Reported], taken, busy - {h})
    ensures Completions(subs, stage[busy[h] := Reported], reported + [busy[h]], consumed, hand)
  {
    var reported' := reported + [busy[h]];
    assert reported'[|reported|] == busy[h];
    forall r | r in reported ensures r in reported' {
      var j :| 0 <= j < |reported| && reported[j] == r;
      assert reported'[j] == r;
    }
  }

  lemma CompleteReplies(addrs: seq<nat>, q: Queue, subs: seq<Submission>, stage: seq<Stage>, tasks: seq<Pc>, posted: seq<nat>,
                        replies: map<nat, Page>, replies': map<nat, Page>, deliveries: seq<Delivery>, s: nat)
    requires Layout(addrs, q.descs) && Chains(addrs, q, subs, stage) && Replies(addrs, q.mem, subs, stage, tasks, replies)
    requires Waiters(subs, stage, tasks, posted) && Delivered(subs, stage, tasks, replies, deliveries)
    requires q.Shape() && |q.descs| == q.size
    requires s < |subs| && stage[s].InDevice?
    requires subs[s].Request? ==> subs[s].next < |q.descs|
    requires replies' == if subs[s].Request? then replies[s := q.mem[q.descs[subs[s].next].addr]] else replies
    ensures Replies(addrs, q.mem, subs, stage[s := Reported], tasks, replies')
    ensures Delivered(subs, stage[s := Reported], tasks, replies', deliveries)
  {
  }

  // ---- The draining task ----

  lemma {:induction false} PopUsedKeeps(w: World)
    requires Inv(w) && WellFormed(w) && w.hand.None?
    ensures Inv(DoPopUsed(w))
  {
    hide Owners, Waiters, Slots, Chains, Delivered, Layout, Replies, Ledger, Stages, Completions, RingInv, WellFormed;
    PopFacts(w);
    NextUsedReadsFifo(w.link);
    if NextUsed(w.link.q).1.Some? {
      var s := w.reported[w.link.consumed];
      var w' := DoPopUsed(w);
      PopPlaces(w.Size(), w.subs, w.stage, w.link.taken, w.busy, w.reported, w.link.consumed);
      MoveKeeps(w.subs, w.stage, w.tasks, w.posted, w.addrs, w.link.q, w.replies, w.deliveries, s, InHand);
      MoveKeepsSlots(w.subs, w.stage, w.tasks, w.slots, w.ready, s, InHand);
      ChainsSameDescs(w.addrs, w.link.q, w'.link.q, w.subs, w'.stage);
      PopReplies(w.addrs, w.Mem(), w.subs, w.stage, w.tasks, w.replies, s);
    }
  }

  lemma PopFacts(w: World)
    requires Inv(w) && WellFormed(w)
    ensures w.link.q.Shape() && w.link.consumed <= |w.link.completed| == |w.reported| && |w.stage| == |w.subs|
    ensures |w.link.published| - w.link.consumed <= w.Size()
    ensures w.link.consumed < |w.reported| ==>
              var s := w.reported[w.link.consumed];
              s < |w.stage| && w.stage[s].Reported? && w.subs[s].head == w.link.completed[w.link.consumed]
  {
    hide Owners, Waiters, Slots, Chains, Delivered, Layout, Replies;
  }

  lemma PopReplies(addrs: seq<nat>, mem: map<nat, Page>, subs: seq<Submission>, stage: seq<Stage>, tasks: seq<Pc>,
                   replies: map<nat, Page>, s: nat)
    requires Replies(addrs, mem, subs, stage, tasks, replies) && s < |stage| && stage[s].Reported?
    ensures Replies(addrs, mem, subs, stage[s := InHand], tasks, replies)
  {
    hide HasReply;
  }

  lemma ChainsSameDescs(addrs: seq<nat>, q: Queue, q': Queue, subs: seq<Submission>, stage: seq<Stage>)
    requires Chains(addrs, q, subs, stage) && q'.descs == q.descs && q'.mem == q.mem
    ensures Chains(addrs, q', subs, stage)
  {
    forall s | 0 <= s < |subs| && !stage[s].Collected? ensures ChainOf(addrs, q', subs[s]) {
      assert ChainOf(addrs, q, subs[s]);
    }
  }

  lemma PopPlaces(size: nat, subs: seq<Submission>, stage: seq<Stage>, taken: nat, busy: map<nat, nat>, reported: seq<nat>,
                  consumed: nat)
    requires Stages(subs, stage, taken, busy) && Completions(subs, stage, reported, consumed, None) && consumed < |reported|
    ensures var s := reported[consumed];
            && Stages(subs, stage[s := InHand], taken, busy)
            && Completions(subs, stage[s := InHand], reported, consumed + 1, Some((subs[s].head, s)))
            && |Unconsumed(stage[s := InHand])| == |Unconsumed(stage)| - 1
  {
    var s := reported[consumed];
    assert Unconsumed(stage[s := InHand]) == Unconsumed(stage) - {s};
  }

  lemma {:induction false} WakeSlotKeeps(w: World)
    requires Inv(w) && WellFormed(w) && w.hand.Some?
    ensures Inv(DoWakeSlot(w))
  {
    hide Owners, Waiters, Slots, Chains, Layout, Replies, Delivered, RingInv, WellFormed, Ledger, Stages, Completions;
    var (id, s) := w.hand.value;
    WakeFacts(w);
    MoveKeeps(w.subs, w.stage, w.tasks, w.posted, w.addrs, w.link.q, w.replies, w.deliveries, s, Signalled);
    WakeSlots(w.Size(), w.link.q.free, w.posted, w.tasks, w.subs, w.stage, w.slots, w.ready, s);
  }

  lemma WakeFacts(w: World)
    requires Inv(w) && w.hand.Some?
    ensures var (id, s) := w.hand.value;
            && s < |w.subs| == |w.stage| && w.stage[s].InHand? && w.subs[s].head == id < WAKER_SLOTS
            && Unconsumed(w.stage[s := Signalled]) == Unconsumed(w.stage)
            && Stages(w.subs, w.stage[s := Signalled], w.link.taken, w.busy)
            && Completions(w.subs, w.stage[s := Signalled], w.reported, w.link.consumed, None)
            && Replies(w.addrs, w.Mem(), w.subs, w.stage[s := Signalled], w.tasks, w.replies)
  {
    hide Owners, Waiters, Slots, Chains, Delivered, Layout, WellFormed, RingInv, Ledger, Replies, Stages, Completions;
    PlacesInRange(w.Size(), w.subs, w.stage, w.link, w.busy, w.reported, w.hand);
    RingFacts(w.link);
    SignalPlaces(w.subs, w.stage, w.link.taken, w.busy, w.reported, w.link.consumed, w.hand);
    SignalReplies(w.addrs, w.Mem(), w.subs, w.stage, w.tasks, w.replies, w.hand.value.1);
  }

  lemma SignalPlaces(subs: seq<Submission>, stage: seq<Stage>, taken: nat, busy: map<nat, nat>, reported: seq<nat>,
                     consumed: nat, hand: Option<(nat, nat)>)
    requires Stages(subs, stage, taken, busy) && Completions(subs, stage, reported, consumed, hand) && hand.Some?
    ensures var (id, s) := hand.value;
            && s < |stage| == |subs| && stage[s].InHand? && subs[s].head == id
            && Stages(subs, stage[s := Signalled], taken, busy)
            && Completions(subs, stage[s := Signalled], reported, consumed, None)
            && Unconsumed(stage[s := Signalled]) == Unconsumed(stage)
  {
  }

  lemma SignalReplies(addrs: seq<nat>, mem: map<nat, Page>, subs: seq<Submission>, stage: seq<Stage>, tasks: seq<Pc>,
                      replies: map<nat, Page>, s: nat)
    requires Replies(addrs, mem, subs, stage, tasks, replies) && s < |stage| && stage[s].InHand?
    ensures Replies(addrs, mem, subs, stage[s := Signalled], tasks, replies)
  {
    hide HasReply;
  }

  /** `IdWaker::wake`: the slot becomes `Done`, and a registered waiter is queued. */
  lemma {:induction false} WakeSlots(size: nat, free: seq<nat>, posted: seq<nat>, tasks: seq<Pc>, subs: seq<Submission>,
                                     stage: seq<Stage>, slots: seq<Slot>, ready: multiset<nat>, s: nat)
    requires Owners(size, free, posted, tasks) && Waiters(subs, stage, tasks, posted) && Slots(subs, stage, tasks, slots, ready)
    requires s < |subs| && stage[s].InHand? && subs[s].head < WAKER_SLOTS
    ensures var id := subs[s].head;
            var ready' := if slots[id].Waker? then ready + multiset{slots[id].task} else ready;
            Slots(subs, stage[s := Signalled], tasks, slots[id := Done], ready')
  {
    var id := subs[s].head;
    var stage', slots' := stage[s := Signalled], slots[id := Done];
    var ready' := if slots[id].Waker? then ready + multiset{slots[id].task} else ready;
    forall t | 0 <= t < |tasks| && Expects(tasks[t])
      ensures SlotOf(stage', slots', ready', t, tasks[t])
    {
      assert SlotOf(stage, slots, ready, t, tasks[t]) && IsSub(subs, t, tasks[t]);
      if tasks[t].s != s { LiveHeadsDiffer(size, free, posted, tasks, subs, stage, tasks[t].s, s); }
    }
    forall d | 0 <= d < WAKER_SLOTS && slots'[d] != Empty
      ensures Awaited(subs, stage', d)
    {
      if d == id {
        assert subs[s].head == d && !stage'[s].Collected?;
      } else {
        assert Awaited(subs, stage, d);
        var r :| 0 <= r < |subs| && subs[r].head == d && !stage[r].Collected? && (subs[r].Posted? ==> stage[r].Signalled?);
        assert subs[r].head == d && !stage'[r].Collected? && (subs[r].Posted? ==> stage'[r].Signalled?);
      }
    }
  }

  // ---- A task changes its program counter ----

  ghost predicate Reader(pc: Pc, s: nat) {
    (pc.Woken? || pc.Returned?) && pc.s == s
  }

  /** A collected request stays covered as long as no reader of an undelivered reply goes away. */
  lemma ReadersStay(stage: seq<Stage>, tasks: seq<Pc>, tasks': seq<Pc>, deliveries: seq<Delivery>)
    requires forall s :: 0 <= s < |stage| && stage[s].Collected? ==> IsDelivered(deliveries, s) || AboutToRead(tasks, s)
    requires |tasks'| == |tasks|
    requires forall t, s :: 0 <= t < |tasks| && Reader(tasks[t], s) ==> Reader(tasks'[t], s) || IsDelivered(deliveries, s)
    ensures forall s :: 0 <= s < |stage| && stage[s].Collected? ==> IsDelivered(deliveries, s) || AboutToRead(tasks', s)
  {
    forall s | 0 <= s < |stage| && stage[s].Collected? && !IsDelivered(deliveries, s)
      ensures AboutToRead(tasks', s)
    {
      var u :| 0 <= u < |tasks| && (tasks[u].Woken? || tasks[u].Returned?) && tasks[u].s == s;
      assert Reader(tasks[u], s) && Reader(tasks'[u], s);
    }
  }

  /** Another poll of the same submission. */
  lemma RepollKeeps(size: nat, free: seq<nat>, posted: seq<nat>, addrs: seq<nat>, mem: map<nat, Page>, subs: seq<Submission>,
                    stage: seq<Stage>, tasks: seq<Pc>, replies: map<nat, Page>, deliveries: seq<Delivery>, t: nat, pc: Pc)
    requires Owners(size, free, posted, tasks) && Waiters(subs, stage, tasks, posted)
    requires Replies(addrs, mem, subs, stage, tasks, replies) && Delivered(subs, stage, tasks, replies, deliveries)
    requires t < |tasks| && Expects(tasks[t]) && Expects(pc)
    requires pc.h == tasks[t].h && pc.n == tasks[t].n && pc.s == tasks[t].s
    ensures var tasks' := tasks[t := pc];
            && Owners(size, free, posted, tasks') && Waiters(subs, stage, tasks', posted)
            && Replies(addrs, mem, subs, stage, tasks', replies) && Delivered(subs, stage, tasks', replies, deliveries)
            && Holders(tasks') == Holders(tasks)
  {
    var tasks' := tasks[t := pc];
    hide Owners, Waiters;
    SamePairsKeepOwners(size, free, posted, tasks, t, pc);
    RepollWaiters(subs, stage, tasks, posted, t, pc);
    RepollReaders(addrs, mem, subs, stage, tasks, replies, deliveries, t, pc);
  }

  lemma RepollWaiters(subs: seq<Submission>, stage: seq<Stage>, tasks: seq<Pc>, posted: seq<nat>, t: nat, pc: Pc)
    requires Waiters(subs, stage, tasks, posted) && t < |tasks| && Expects(tasks[t]) && Expects(pc)
    requires pc.h == tasks[t].h && pc.n == tasks[t].n && pc.s == tasks[t].s
    ensures Waiters(subs, stage, tasks[t := pc], posted)
  {
    var tasks' := tasks[t := pc];
    forall s | 0 <= s < |subs| && subs[s].Request? && !stage[s].Collected?
      ensures HasWaiter(subs[s], s, tasks')
    { assert HasWaiter(subs[s], s, tasks); }
  }

  lemma RepollReaders(addrs: seq<nat>, mem: map<nat, Page>, subs: seq<Submission>, stage: seq<Stage>, tasks: seq<Pc>,
                      replies: map<nat, Page>, deliveries: seq<Delivery>, t: nat, pc: Pc)
    requires Replies(addrs, mem, subs, stage, tasks, replies) && Delivered(subs, stage, tasks, replies, deliveries)
    requires t < |tasks| && Expects(tasks[t]) && Expects(pc) && pc.s == tasks[t].s
    ensures Replies(addrs, mem, subs, stage, tasks[t := pc], replies)
    ensures Delivered(subs, stage, tasks[t := pc], replies, deliveries)
  {
    hide HasReply, Faithful;
    ReadersStay(stage, tasks, tasks[t := pc], deliveries);
  }

  lemma SamePairsKeepOwners(size: nat, free: seq<nat>, posted: seq<nat>, tasks: seq<Pc>, t: nat, pc: Pc)
    requires Owners(size, free, posted, tasks) && t < |tasks| && Holds(tasks[t]) && Holds(pc)
    requires pc.h == tasks[t].h && pc.n == tasks[t].n
    ensures Owners(size, free, posted, tasks[t := pc]) && Holders(tasks[t := pc]) == Holders(tasks)
  {
    hide HeldBySome, HoldsPair, Apart;
    var tasks' := tasks[t := pc];
    forall d: nat | HeldBySome(tasks, d) ensures HeldBySome(tasks', d) { HeldStays(tasks, t, pc, d); }
    forall u | 0 <= u < |tasks'| && Holds(tasks'[u]) ensures HoldsPair(size, free, posted, tasks'[u]) {
      assert HoldsPair(size, free, posted, tasks[u]);
      SamePair(size, free, posted, tasks[t], pc);
    }
    forall u, v | 0 <= u < v < |tasks'| && Holds(tasks'[u]) && Holds(tasks'[v]) ensures Apart(tasks'[u], tasks'[v]) {
      assert Apart(tasks[u], tasks[v]);
      SameApart(tasks[t], pc, tasks[u]);
      SameApart(tasks[t], pc, tasks[v]);
    }
  }

  lemma HeldStays(tasks: seq<Pc>, t: nat, pc: Pc, d: nat)
    requires t < |tasks| && Holds(tasks[t]) && Holds(pc) && pc.h == tasks[t].h && pc.n == tasks[t].n && HeldBySome(tasks, d)
    ensures HeldBySome(tasks[t := pc], d)
  {
    var tasks' := tasks[t := pc];
    var u :| 0 <= u < |tasks| && Holds(tasks[u]) && (tasks[u].h == d || tasks[u].n == d);
    assert Holds(tasks'[u]) && (tasks'[u].h == d || tasks'[u].n == d);
  }

  lemma SamePair(size: nat, free: seq<nat>, posted: seq<nat>, a: Pc, b: Pc)
    requires Holds(a) && Holds(b) && a.h == b.h && a.n == b.n
    ensures HoldsPair(size, free, posted, a) == HoldsPair(size, free, posted, b)
  {
  }

  lemma SameApart(a: Pc, b: Pc, c: Pc)
    requires Holds(a) && Holds(b) && Holds(c) && a.h == b.h && a.n == b.n
    ensures Apart(a, c) == Apart(b, c) && Apart(c, a) == Apart(c, b)
  {
  }

  lemma {:induction false} RegisterSlots(size: nat, free: seq<nat>, posted: seq<nat>, tasks: seq<Pc>, subs: seq<Submission>,
                                         stage: seq<Stage>, slots: seq<Slot>, ready: multiset<nat>, ready': multiset<nat>,
                                         t: nat, pc: Pc)
    requires Owners(size, free, posted, tasks) && Waiters(subs, stage, tasks, posted) && Slots(subs, stage, tasks, slots, ready)
    requires t < |tasks| && Expects(tasks[t]) && (pc.Waiting? || pc.Rechecking?)
    requires pc.h == tasks[t].h && pc.n == tasks[t].n && pc.s == tasks[t].s && !slots[pc.h].Done?
    requires ready' == ready || ready' == ready - multiset{t}
    ensures Slots(subs, stage, tasks[t := pc], slots[pc.h := Waker(t)], ready')
  {
    var tasks', slots' := tasks[t := pc], slots[pc.h := Waker(t)];
    assert SlotOf(stage, slots, ready, t, tasks[t]);
    assert IsSub(subs, t, tasks[t]) && !stage[pc.s].Collected?;
    forall u | 0 <= u < |tasks| && Expects(tasks'[u])
      ensures SlotOf(stage, slots', ready', u, tasks'[u])
    {
      assert SlotOf(stage, slots, ready, u, tasks[u]);
      if u != t { PairsApart(size, free, posted, tasks, t, u); }
    }
    forall d | 0 <= d < WAKER_SLOTS && slots'[d] != Empty
      ensures Awaited(subs, stage, d)
    {
      if d == pc.h { assert subs[pc.s].head == d; } else { assert Awaited(subs, stage, d); }
    }
  }

  // ---- `poll` answers `Ready` ----

  lemma {:induction false} CollectKeeps(w: World, t: nat, ready: multiset<nat>)
    requires Inv(w) && t < |w.tasks| && Expects(w.tasks[t]) && w.slots[w.tasks[t].h].Done?
    requires ready == w.ready || ready == w.ready - multiset{t}
    requires WellFormed(w.(ready := ready))
    ensures Inv(Collect(w.(ready := ready), t))
  {
    hide Owners, Waiters, Slots, Chains, Layout, Replies, Delivered, RingInv, WellFormed, Ledger, Stages, Completions;
    var w' := Collect(w.(ready := ready), t);
    var pc, l := w.tasks[t], w.link;
    var pc' := Woken(pc.h, pc.n, pc.s);
    ReadyMeansSignalled(w.subs, w.stage, w.tasks, w.posted, w.slots, w.ready, t);
    SamePairsKeepOwners(l.q.size, l.q.free, w.posted, w.tasks, t, pc');
    CollectWaiters(w.subs, w.stage, w.tasks, w.posted, t);
    CollectSlots(l.q.size, l.q.free, w.posted, w.tasks, w.subs, w.stage, w.slots, w.ready, ready, t);
    CollectReplies(w.addrs, l.q, w.subs, w.stage, w.tasks, w.posted, w.replies, w.deliveries, t);
    CollectPlaces(w.subs, w.stage, l.taken, w.busy, w.reported, l.consumed, w.hand, pc.s);
  }

  lemma CollectPlaces(subs: seq<Submission>, stage: seq<Stage>, taken: nat, busy: map<nat, nat>, reported: seq<nat>,
                      consumed: nat, hand: Option<(nat, nat)>, s: nat)
    requires Stages(subs, stage, taken, busy) && Completions(subs, stage, reported, consumed, hand)
    requires s < |stage| && stage[s].Signalled?
    ensures Stages(subs, stage[s := Collected], taken, busy) && Completions(subs, stage[s := Collected], reported, consumed, hand)
    ensures Unconsumed(stage[s := Collected]) == Unconsumed(stage)
  {
  }

  lemma {:induction false} ReadyMeansSignalled(subs: seq<Submission>, stage: seq<Stage>, tasks: seq<Pc>, posted: seq<nat>,
                                               slots: seq<Slot>, ready: multiset<nat>, t: nat)
    requires Waiters(subs, stage, tasks, posted) && Slots(subs, stage, tasks, slots, ready)
    requires t < |tasks| && Expects(tasks[t])
    ensures tasks[t].h < |slots| && tasks[t].s < |stage|
    ensures slots[tasks[t].h].Done? <==> stage[tasks[t].s].Signalled?
  {
    assert SlotOf(stage, slots, ready, t, tasks[t]);
  }

  lemma {:induction false} CollectWaiters(subs: seq<Submission>, stage: seq<Stage>, tasks: seq<Pc>, posted: seq<nat>, t: nat)
    requires Waiters(subs, stage, tasks, posted) && t < |tasks| && Expects(tasks[t])
    ensures var pc := tasks[t];
            pc.s < |stage| && Waiters(subs, stage[pc.s := Collected], tasks[t := Woken(pc.h, pc.n, pc.s)], posted)
  {
    var pc := tasks[t];
    assert IsSub(subs, t, pc);
    var stage', tasks' := stage[pc.s := Collected], tasks[t := Woken(pc.h, pc.n, pc.s)];
    forall u | 0 <= u < |tasks'| && HasSub(tasks'[u])
      ensures IsSub(subs, u, tasks'[u]) && (Expects(tasks'[u]) <==> !stage'[tasks'[u].s].Collected?)
    { assert IsSub(subs, u, tasks[u]); }
    forall s | 0 <= s < |subs| && subs[s].Request? && !stage'[s].Collected?
      ensures HasWaiter(subs[s], s, tasks')
    { assert HasWaiter(subs[s], s, tasks); }
  }

  lemma {:induction false} CollectSlots(size: nat, free: seq<nat>, posted: seq<nat>, tasks: seq<Pc>, subs: seq<Submission>,
                                        stage: seq<Stage>, slots: seq<Slot>, ready: multiset<nat>, ready': multiset<nat>, t: nat)
    requires Owners(size, free, posted, tasks) && Waiters(subs, stage, tasks, posted) && Slots(subs, stage, tasks, slots, ready)
    requires t < |tasks| && Expects(tasks[t]) && (ready' == ready || ready' == ready - multiset{t})
    ensures var pc := tasks[t];
            && pc.h < |slots| && pc.s < |stage|
            && Slots(subs, stage[pc.s := Collected], tasks[t := Woken(pc.h, pc.n, pc.s)], slots[pc.h := Empty], ready')
  {
    var pc := tasks[t];
    assert IsSub(subs, t, pc) && SlotOf(stage, slots, ready, t, pc);
    var stage', tasks', slots' := stage[pc.s := Collected], tasks[t := Woken(pc.h, pc.n, pc.s)], slots[pc.h := Empty];
    forall u | 0 <= u < |tasks'| && Expects(tasks'[u])
      ensures SlotOf(stage', slots', ready', u, tasks'[u])
    {
      assert SlotOf(stage, slots, ready, u, tasks[u]) && IsSub(subs, u, tasks[u]);
      PairsApart(size, free, posted, tasks, t, u);
    }
    forall d | 0 <= d < WAKER_SLOTS && slots'[d] != Empty
      ensures Awaited(subs, stage', d)
    {
      assert Awaited(subs, stage, d);
      var r :| 0 <= r < |subs| && subs[r].head == d && !stage[r].Collected? && (subs[r].Posted? ==> stage[r].Signalled?);
      assert r != pc.s && subs[r].head == d && stage'[r] == stage[r];
    }
  }

  lemma {:induction false} CollectReplies(addrs: seq<nat>, q: Queue, subs: seq<Submission>, stage: seq<Stage>, tasks: seq<Pc>,
                                          posted: seq<nat>, replies: map<nat, Page>, deliveries: seq<Delivery>, t: nat)
    requires Waiters(subs, stage, tasks, posted) && Chains(addrs, q, subs, stage)
    requires Replies(addrs, q.mem, subs, stage, tasks, replies) && Delivered(subs, stage, tasks, replies, deliveries)
    requires t < |tasks| && Expects(tasks[t]) && tasks[t].s < |stage| && stage[tasks[t].s].Signalled?
    ensures var pc := tasks[t];
            var stage', tasks' := stage[pc.s := Collected], tasks[t := Woken(pc.h, pc.n, pc.s)];
            && Chains(addrs, q, subs, stage') && Replies(addrs, q.mem, subs, stage', tasks', replies)
            && Delivered(subs, stage', tasks', replies, deliveries)
  {
    var pc := tasks[t];
    assert IsSub(subs, t, pc) && HasReply(addrs, q.mem, replies, pc.s, pc.n);
    var stage', tasks' := stage[pc.s := Collected], tasks[t := Woken(pc.h, pc.n, pc.s)];
    assert tasks'[t].Woken? && tasks'[t].s == pc.s;
    forall s | 0 <= s < |subs| && stage'[s].Collected? && !IsDelivered(deliveries, s)
      ensures AboutToRead(tasks', s)
    {
      if s != pc.s {
        assert AboutToRead(tasks, s);
        var u :| 0 <= u < |tasks| && (tasks[u].Woken? || tasks[u].Returned?) && tasks[u].s == s;
        assert tasks'[u] == tasks[u];
      }
    }
    forall i | 0 <= i < |deliveries| ensures Faithful(subs, stage', replies, deliveries[i]) {
      assert Faithful(subs, stage, replies, deliveries[i]);
    }
  }

  lemma {:induction false} PollFirstKeeps(w: World, t: nat, queued: bool)
    requires Inv(w) && WellFormed(w) && Enabled(w, PollFirst(t, queued))
    ensures Inv(DoPollFirst(w, t, queued))
  {
    hide Owners, Waiters, Chains, Layout, Replies, Delivered, RingInv, Ledger, Stages, Completions, Slots;
    var pc, l := w.tasks[t], w.link;
    var w1 := if queued then w.(ready := w.ready - multiset{t}) else w;
    if w.slots[pc.h].Done? {
      CollectKeeps(w, t, w1.ready);
    } else {
      var pc' := if w.slots[pc.h].Empty? then Waiting(pc.h, pc.n, pc.s) else Rechecking(pc.h, pc.n, pc.s);
      RepollKeeps(l.q.size, l.q.free, w.posted, w.addrs, w.Mem(), w.subs, w.stage, w.tasks, w.replies, w.deliveries, t, pc');
      RegisterSlots(l.q.size, l.q.free, w.posted, w.tasks, w.subs, w.stage, w.slots, w.ready, w1.ready, t, pc');
    }
  }

  lemma {:induction false} PollSecondKeeps(w: World, t: nat)
    requires Inv(w) && WellFormed(w) && Enabled(w, PollSecond(t))
    ensures Inv(DoPollSecond(w, t))
  {
    hide Owners, Waiters, Chains, Layout, Replies, Delivered, RingInv, Ledger, Stages, Completions;
    var pc, l := w.tasks[t], w.link;
    assert w.(ready := w.ready) == w;
    if w.slots[pc.h].Done? {
      CollectKeeps(w, t, w.ready);
    } else {
      var pc' := Waiting(pc.h, pc.n, pc.s);
      RepollKeeps(l.q.size, l.q.free, w.posted, w.addrs, w.Mem(), w.subs, w.stage, w.tasks, w.replies, w.deliveries, t, pc');
      assert SlotOf(w.stage, w.slots, w.ready, t, pc);
      assert w.slots[pc.h := Waker(t)] == w.slots;
      RegisterSlots(l.q.size, l.q.free, w.posted, w.tasks, w.subs, w.stage, w.slots, w.ready, w.ready, t, pc');
    }
  }

  // ---- Taking and giving back descriptors ----

  lemma {:induction false} AcquireKeeps(w: World, t: nat)
    requires Inv(w) && WellFormed(w) && Enabled(w, Acquire(t))
    ensures Inv(DoAcquire(w, t))
  {
    hide Owners, Waiters, Slots, Chains, Layout, Replies, Delivered, RingInv, WellFormed, Ledger, Stages, Completions;
    var l := w.link;
    var n := |l.q.free|;
    if n >= 2 {
      var pc := Got(l.q.free[n - 1], l.q.free[n - 2]);
      AcquireOwners(l.q.size, l.q.free, w.posted, w.tasks, t);
      IdleTaskKeeps(w.addrs, w.Mem(), w.subs, w.stage, w.tasks, w.slots, w.ready, w.posted, w.replies, w.deliveries, t, pc);
      FreeKeepsRings(l, l.q.free[..n - 2]);
      ChainsSameDescs(w.addrs, l.q, l.q.(free := l.q.free[..n - 2]), w.subs, w.stage);
    }
  }

  lemma FreeKeepsRings(l: Link, free: seq<nat>)
    requires RingInv(l)
    ensures RingInv(l.(q := l.q.(free := free)))
  {
  }

  lemma {:induction false} AcquireOwners(size: nat, free: seq<nat>, posted: seq<nat>, tasks: seq<Pc>, t: nat)
    requires Owners(size, free, posted, tasks) && t < |tasks| && tasks[t].Idle? && |free| >= 2
    requires NoneReturning(tasks)
    ensures var tasks' := tasks[t := Got(free[|free| - 1], free[|free| - 2])];
            && Owners(size, free[..|free| - 2], posted, tasks')
            && |Holders(tasks')| == |Holders(tasks)| + 1
  {
    var n := |free|;
    var free', pc := free[..n - 2], Got(free[n - 1], free[n - 2]);
    var tasks' := tasks[t := pc];
    assert Holders(tasks') == Holders(tasks) + {t};
    assert pc.h in free && pc.n in free;
    assert forall d :: d in free <==> d in free' || d == pc.h || d == pc.n by {
      assert free == free' + [pc.n, pc.h];
    }
    forall u, v | 0 <= u < v < |tasks'| && Holds(tasks'[u]) && Holds(tasks'[v])
      ensures Apart(tasks'[u], tasks'[v])
    {
      if u != t { assert HoldsPair(size, free, posted, tasks[u]); }
      if v != t { assert HoldsPair(size, free, posted, tasks[v]); }
    }
    hide HeldBySome;
    forall d: nat | d < size && d !in free' && d !in posted ensures HeldBySome(tasks', d) {
      HeldAfterAcquire(tasks, t, pc, d);
    }
  }

  lemma HeldAfterAcquire(tasks: seq<Pc>, t: nat, pc: Pc, d: nat)
    requires t < |tasks| && tasks[t].Idle? && pc.Got? && (HeldBySome(tasks, d) || d == pc.h || d == pc.n)
    ensures HeldBySome(tasks[t := pc], d)
  {
    var tasks' := tasks[t := pc];
    if d == pc.h || d == pc.n {
      assert Holds(tasks'[t]) && (tasks'[t].h == d || tasks'[t].n == d);
    } else {
      var u :| 0 <= u < |tasks| && Holds(tasks[u]) && (tasks[u].h == d || tasks[u].n == d);
      assert Holds(tasks'[u]) && (tasks'[u].h == d || tasks'[u].n == d);
    }
  }

  lemma IdleTaskKeeps(addrs: seq<nat>, mem: map<nat, Page>, subs: seq<Submission>, stage: seq<Stage>, tasks: seq<Pc>,
                      slots: seq<Slot>, ready: multiset<nat>, posted: seq<nat>, replies: map<nat, Page>,
                      deliveries: seq<Delivery>, t: nat, pc: Pc)
    requires Waiters(subs, stage, tasks, posted) && Slots(subs, stage, tasks, slots, ready)
    requires Replies(addrs, mem, subs, stage, tasks, replies) && Delivered(subs, stage, tasks, replies, deliveries)
    requires t < |tasks| && tasks[t].Idle? && pc.Got?
    ensures var tasks' := tasks[t := pc];
            && Waiters(subs, stage, tasks', posted) && Slots(subs, stage, tasks', slots, ready)
            && Replies(addrs, mem, subs, stage, tasks', replies) && Delivered(subs, stage, tasks', replies, deliveries)
  {
    var tasks' := tasks[t := pc];
    forall s | 0 <= s < |subs| && stage[s].Collected? && !IsDelivered(deliveries, s)
      ensures AboutToRead(tasks', s)
    {
      assert AboutToRead(tasks, s);
      var u :| 0 <= u < |tasks| && (tasks[u].Woken? || tasks[u].Returned?) && tasks[u].s == s;
      assert tasks'[u] == tasks[u];
    }
    forall s | 0 <= s < |subs| && subs[s].Request? && !stage[s].Collected?
      ensures HasWaiter(subs[s], s, tasks')
    { assert HasWaiter(subs[s], s, tasks); }
  }

  lemma {:induction false} ReleaseKeeps(w: World, t: nat)
    requires Inv(w) && WellFormed(w) && Enabled(w, Release(t))
    ensures Inv(DoRelease(w, t))
  {
    hide Owners, Waiters, Slots, Chains, Layout, Replies, Delivered, RingInv, WellFormed, Ledger, Stages, Completions;
    var l, pc := w.link, w.tasks[t];
    var free' := l.q.free + [pc.h] + [pc.n];
    ReleaseOwners(l.q.size, l.q.free, w.posted, w.tasks, t);
    ReleaseTask(w.addrs, w.Mem(), w.subs, w.stage, w.tasks, w.slots, w.ready, w.posted, w.replies, w.deliveries, t);
    FreeKeepsRings(l, free');
    ChainsSameDescs(w.addrs, l.q, l.q.(free := free'), w.subs, w.stage);
  }

  lemma {:induction false} ReleaseOwners(size: nat, free: seq<nat>, posted: seq<nat>, tasks: seq<Pc>, t: nat)
    requires Owners(size, free, posted, tasks) && t < |tasks| && tasks[t].Woken?
    ensures var pc := tasks[t];
            var tasks' := tasks[t := Returned(pc.h, pc.n, pc.s)];
            && Owners(size, free + [pc.h] + [pc.n], posted, tasks')
            && |Holders(tasks')| == |Holders(tasks)| - 1
  {
    var pc := tasks[t];
    var tasks', free' := tasks[t := Returned(pc.h, pc.n, pc.s)], free + [pc.h] + [pc.n];
    assert HoldsPair(size, free, posted, pc);
    assert Holders(tasks') == Holders(tasks) - {t};
    assert forall d :: d in free' <==> d in free || d == pc.h || d == pc.n;
    hide HeldBySome, HoldsPair, Apart;
    forall u | 0 <= u < |tasks'| && Holds(tasks'[u])
      ensures HoldsPair(size, free', posted, tasks'[u])
    {
      assert HoldsPair(size, free, posted, tasks[u]);
      PairsApart(size, free, posted, tasks, t, u);
      PairStays(size, free, posted, tasks[u], pc);
    }
    forall d: nat | d < size && d !in free' && d !in posted ensures HeldBySome(tasks', d) {
      HeldAfterRelease(tasks, t, d);
    }
    ReleasedOnce(size, free, posted, pc);
  }

  lemma PairStays(size: nat, free: seq<nat>, posted: seq<nat>, a: Pc, b: Pc)
    requires Holds(a) && Holds(b) && HoldsPair(size, free, posted, a) && Apart(b, a)
    ensures HoldsPair(size, free + [b.h] + [b.n], posted, a)
  {
  }

  lemma HeldAfterRelease(tasks: seq<Pc>, t: nat, d: nat)
    requires t < |tasks| && tasks[t].Woken? && HeldBySome(tasks, d) && d != tasks[t].h && d != tasks[t].n
    ensures HeldBySome(tasks[t := Returned(tasks[t].h, tasks[t].n, tasks[t].s)], d)
  {
    var tasks' := tasks[t := Returned(tasks[t].h, tasks[t].n, tasks[t].s)];
    var u :| 0 <= u < |tasks| && Holds(tasks[u]) && (tasks[u].h == d || tasks[u].n == d);
    assert Holds(tasks'[u]) && (tasks'[u].h == d || tasks'[u].n == d);
  }

  lemma ReleasedOnce(size: nat, free: seq<nat>, posted: seq<nat>, pc: Pc)
    requires Holds(pc) && HoldsPair(size, free, posted, pc)
    ensures pc.h != pc.n && pc.h < size && pc.n < size && pc.h !in posted && pc.n !in posted && pc.h !in free && pc.n !in free
  {
  }

  lemma {:induction false} ReleaseTask(addrs: seq<nat>, mem: map<nat, Page>, subs: seq<Submission>, stage: seq<Stage>,
                                       tasks: seq<Pc>, slots: seq<Slot>, ready: multiset<nat>, posted: seq<nat>,
                                       replies: map<nat, Page>, deliveries: seq<Delivery>, t: nat)
    requires Waiters(subs, stage, tasks, posted) && Slots(subs, stage, tasks, slots, ready)
    requires Replies(addrs, mem, subs, stage, tasks, replies) && Delivered(subs, stage, tasks, replies, deliveries)
    requires t < |tasks| && tasks[t].Woken?
    ensures var tasks' := tasks[t := Returned(tasks[t].h, tasks[t].n, tasks[t].s)];
            && Waiters(subs, stage, tasks', posted) && Slots(subs, stage, tasks', slots, ready)
            && Replies(addrs, mem, subs, stage, tasks', replies) && Delivered(subs, stage, tasks', replies, deliveries)
  {
    var tasks' := tasks[t := Returned(tasks[t].h, tasks[t].n, tasks[t].s)];
    forall s | 0 <= s < |subs| && stage[s].Collected? && !IsDelivered(deliveries, s)
      ensures AboutToRead(tasks', s)
    {
      assert AboutToRead(tasks, s);
      var u :| 0 <= u < |tasks| && (tasks[u].Woken? || tasks[u].Returned?) && tasks[u].s == s;
      assert (tasks'[u].Woken? || tasks'[u].Returned?) && tasks'[u].s == s;
    }
    forall s | 0 <= s < |subs| && subs[s].Request? && !stage[s].Collected?
      ensures HasWaiter(subs[s], s, tasks')
    { assert HasWaiter(subs[s], s, tasks); }
    forall u | 0 <= u < |tasks'| && HasSub(tasks'[u]) ensures IsSub(subs, u, tasks'[u]) {
      assert IsSub(subs, u, tasks[u]);
    }
  }

  lemma {:induction false} ReadKeeps(w: World, t: nat)
    requires Inv(w) && WellFormed(w) && Enabled(w, Read(t))
    ensures Inv(DoRead(w, t))
  {
    hide Owners, Waiters, Slots, Chains, Replies, Delivered, RingInv, Ledger, Stages, Completions;
    var l, pc := w.link, w.tasks[t];
    ReadTask(l.q.size, l.q.free, w.addrs, w.Mem(), w.subs, w.stage, w.tasks, w.slots, w.ready, w.posted, w.replies,
             w.deliveries, t);
    assert w.Descs()[pc.n].addr == w.addrs[pc.n];
  }

  lemma {:induction false} ReadTask(size: nat, free: seq<nat>, addrs: seq<nat>, mem: map<nat, Page>, subs: seq<Submission>,
                                    stage: seq<Stage>, tasks: seq<Pc>, slots: seq<Slot>, ready: multiset<nat>,
                                    posted: seq<nat>, replies: map<nat, Page>, deliveries: seq<Delivery>, t: nat)
    requires Owners(size, free, posted, tasks)
    requires Waiters(subs, stage, tasks, posted) && Slots(subs, stage, tasks, slots, ready)
    requires Replies(addrs, mem, subs, stage, tasks, replies) && Delivered(subs, stage, tasks, replies, deliveries)
    requires t < |tasks| && tasks[t].Returned?
    ensures tasks[t].n < |addrs| && addrs[tasks[t].n] in mem
    ensures var tasks', pc := tasks[t := Idle], tasks[t];
            && Owners(size, free, posted, tasks') && Holders(tasks') == Holders(tasks)
            && Waiters(subs, stage, tasks', posted) && Slots(subs, stage, tasks', slots, ready)
            && Replies(addrs, mem, subs, stage, tasks', replies)
            && Delivered(subs, stage, tasks', replies, deliveries + [Delivery(t, pc.s, mem[addrs[pc.n]])])
  {
    ReadOwners(size, free, posted, tasks, t);
    ReadWaiters(subs, stage, tasks, slots, ready, posted, t);
    ReadReply(addrs, mem, subs, stage, tasks, posted, replies, deliveries, t);
  }

  lemma {:induction false} ReadOwners(size: nat, free: seq<nat>, posted: seq<nat>, tasks: seq<Pc>, t: nat)
    requires Owners(size, free, posted, tasks) && t < |tasks| && tasks[t].Returned?
    ensures Owners(size, free, posted, tasks[t := Idle]) && Holders(tasks[t := Idle]) == Holders(tasks)
  {
    var tasks' := tasks[t := Idle];
    forall d: nat | d < size && d !in free && d !in posted
      ensures HeldBySome(tasks', d)
    {
      assert HeldBySome(tasks, d);
      var u :| 0 <= u < |tasks| && Holds(tasks[u]) && (tasks[u].h == d || tasks[u].n == d);
      assert Holds(tasks'[u]) && (tasks'[u].h == d || tasks'[u].n == d);
    }
  }

  lemma {:induction false} ReadWaiters(subs: seq<Submission>, stage: seq<Stage>, tasks: seq<Pc>, slots: seq<Slot>,
                                       ready: multiset<nat>, posted: seq<nat>, t: nat)
    requires Waiters(subs, stage, tasks, posted) && Slots(subs, stage, tasks, slots, ready)
    requires t < |tasks| && tasks[t].Returned?
    ensures Waiters(subs, stage, tasks[t := Idle], posted) && Slots(subs, stage, tasks[t := Idle], slots, ready)
  {
    var tasks' := tasks[t := Idle];
    forall s | 0 <= s < |subs| && subs[s].Request? && !stage[s].Collected?
      ensures HasWaiter(subs[s], s, tasks')
    { assert HasWaiter(subs[s], s, tasks); }
  }

  lemma {:induction false} ReadReply(addrs: seq<nat>, mem: map<nat, Page>, subs: seq<Submission>, stage: seq<Stage>,
                                     tasks: seq<Pc>, posted: seq<nat>, replies: map<nat, Page>, deliveries: seq<Delivery>,
                                     t: nat)
    requires Waiters(subs, stage, tasks, posted)
    requires Replies(addrs, mem, subs, stage, tasks, replies) && Delivered(subs, stage, tasks, replies, deliveries)
    requires t < |tasks| && tasks[t].Returned?
    ensures tasks[t].n < |addrs| && addrs[tasks[t].n] in mem
    ensures Replies(addrs, mem, subs, stage, tasks[t := Idle], replies)
    ensures Delivered(subs, stage, tasks[t := Idle], replies,
                      deliveries + [Delivery(t, tasks[t].s, mem[addrs[tasks[t].n]])])
  {
    var pc, tasks' := tasks[t], tasks[t := Idle];
    assert IsSub(subs, t, pc) && HasReply(addrs, mem, replies, pc.s, pc.n);
    var deliveries' := deliveries + [Delivery(t, pc.s, mem[addrs[pc.n]])];
    assert deliveries'[|deliveries|].sub == pc.s;
    forall s | IsDelivered(deliveries, s) ensures IsDelivered(deliveries', s) {
      var i :| 0 <= i < |deliveries| && deliveries[i].sub == s;
      assert deliveries'[i].sub == s;
    }
    ReadersStay(stage, tasks, tasks', deliveries');
    forall u | 0 <= u < |tasks'| && HasSub(tasks'[u]) ensures tasks'[u].s != pc.s {
      assert IsSub(subs, u, tasks[u]);
    }
  }

  // ---- Publishing ----

  lemma {:induction false} SubmitKeeps(w: World, t: nat, data: seq<int>)
    requires Inv(w) && WellFormed(w) && Enabled(w, Submit(t, data))
    ensures Inv(DoSubmit(w, t, data))
  {
    hide Owners, Waiters, Slots, Chains, Layout, Replies, Delivered, RingInv, WellFormed, Ledger, Stages, Completions;
    var l, pc := w.link, w.tasks[t];
    var sub, pc' := Request(pc.h, pc.n, t, data), Polling(pc.h, pc.n, |w.subs|);
    SubmitHasRoom(w, t);
    SubmitRings(l, w.addrs, pc.h, pc.n, data);
    SamePairsKeepOwners(l.q.size, l.q.free, w.posted, w.tasks, t, pc');
    SubmitWaiters(w.subs, w.stage, w.tasks, w.posted, t, data);
    AppendKeepsPlaces(l.q.size, w.subs, l.published, w.reported, l.completed, w.stage, l.taken, w.busy, l.consumed, w.hand, sub);
    SubmitSlots(w.subs, w.stage, w.tasks, w.slots, w.ready, w.replies, w.deliveries, t, data);
    GotIsPrivate(l.q.size, l.q.free, w.posted, w.tasks, w.subs, w.stage, t);
    SubmitBuffers(w.addrs, l.q, w.subs, w.stage, w.tasks, w.replies, t, data);
  }

  lemma {:induction false} SubmitHasRoom(w: World, t: nat)
    requires Inv(w) && t < |w.tasks| && w.tasks[t].Got?
    ensures w.link.q.Shape() && w.link.taken <= |w.subs| && |w.link.published| - w.link.consumed < w.Size() <= WAKER_SLOTS
    ensures w.tasks[t].h < w.Size() && w.tasks[t].n < w.Size() && w.tasks[t].h != w.tasks[t].n
    ensures |w.stage| == |w.subs| == |w.link.published| && !Heads(w.subs, w.stage, w.tasks[t].h)
  {
    GotHeadsNothing(w.Size(), w.link.q.free, w.posted, w.tasks, w.subs, w.stage, t);
    assert HoldsPair(w.Size(), w.link.q.free, w.posted, w.tasks[t]);
    RingHasRoom(w, w.tasks[t].h);
  }

  lemma {:induction false} SubmitRings(l: Link, addrs: seq<nat>, h: nat, n: nat, data: seq<int>)
    requires RingInv(l) && Layout(addrs, l.q.descs) && h < l.q.size && n < l.q.size && |data| <= PAGE_LEN
    requires |l.published| - l.consumed < l.q.size
    ensures var q' := AddRequest(l.q, h, n, data);
            && RingInv(l.(q := q', published := l.published + [h]))
            && Layout(addrs, q'.descs)
  {
    var d := l.q.descs[h];
    var q1 := l.q.(mem := l.q.mem[d.addr := Overwrite(l.q.mem[d.addr], data)],
                   descs := l.q.descs[h := Desc(d.addr, |data|, DESC_F_NEXT, n)]);
    var l1 := l.(q := SetWritable(q1, n));
    PublishKeepsRings(l1, h);
    assert Publish(l1, h) == l.(q := AddRequest(l.q, h, n, data), published := l.published + [h]);
  }

  lemma SubmitWaiters(subs: seq<Submission>, stage: seq<Stage>, tasks: seq<Pc>, posted: seq<nat>, t: nat, data: seq<int>)
    requires Waiters(subs, stage, tasks, posted) && t < |tasks| && tasks[t].Got?
    ensures var pc := tasks[t];
            Waiters(subs + [Request(pc.h, pc.n, t, data)], stage + [Offered], tasks[t := Polling(pc.h, pc.n, |subs|)], posted)
  {
    var pc := tasks[t];
    var subs', tasks' := subs + [Request(pc.h, pc.n, t, data)], tasks[t := Polling(pc.h, pc.n, |subs|)];
    forall u | 0 <= u < |tasks'| && HasSub(tasks'[u]) ensures IsSub(subs', u, tasks'[u]) {
      if u != t { assert IsSub(subs, u, tasks[u]); }
    }
    forall s | 0 <= s < |subs'| && subs'[s].Request? && !(stage + [Offered])[s].Collected?
      ensures HasWaiter(subs'[s], s, tasks')
    { if s < |subs| { assert HasWaiter(subs[s], s, tasks); } }
  }

  lemma {:induction false} SubmitSlots(subs: seq<Submission>, stage: seq<Stage>, tasks: seq<Pc>, slots: seq<Slot>,
                                       ready: multiset<nat>, replies: map<nat, Page>, deliveries: seq<Delivery>, t: nat,
                                       data: seq<int>)
    requires Slots(subs, stage, tasks, slots, ready) && Delivered(subs, stage, tasks, replies, deliveries)
    requires t < |tasks| && tasks[t].Got? && tasks[t].h < WAKER_SLOTS && !Heads(subs, stage, tasks[t].h)
    ensures var pc := tasks[t];
            var subs', stage', tasks' := subs + [Request(pc.h, pc.n, t, data)], stage + [Offered],
                                         tasks[t := Polling(pc.h, pc.n, |subs|)];
            Slots(subs', stage', tasks', slots, ready) && Delivered(subs', stage', tasks', replies, deliveries)
  {
    var pc := tasks[t];
    var sub, pc' := Request(pc.h, pc.n, t, data), Polling(pc.h, pc.n, |subs|);
    var subs', stage', tasks' := subs + [sub], stage + [Offered], tasks[t := pc'];
    assert slots[pc.h] != Empty ==> Awaited(subs, stage, pc.h);
    AppendKeeps(subs, stage, tasks, slots, ready, replies, deliveries, sub);
    forall s | 0 <= s < |subs'| && stage'[s].Collected? && !IsDelivered(deliveries, s)
      ensures AboutToRead(tasks', s)
    {
      assert AboutToRead(tasks, s);
      var u :| 0 <= u < |tasks| && (tasks[u].Woken? || tasks[u].Returned?) && tasks[u].s == s;
      assert tasks'[u] == tasks[u];
    }
  }

  /** A pair taken but not yet published is used by no chain and by no reply still to be read. */
  lemma {:induction false} GotIsPrivate(size: nat, free: seq<nat>, posted: seq<nat>, tasks: seq<Pc>, subs: seq<Submission>,
                                        stage: seq<Stage>, t: nat)
    requires Owners(size, free, posted, tasks) && Waiters(subs, stage, tasks, posted) && t < |tasks| && tasks[t].Got?
    ensures Private(subs, stage, tasks, tasks[t].h)
    ensures forall r :: 0 <= r < |subs| && !stage[r].Collected? ==> Avoids(subs[r], tasks[t].h) && Avoids(subs[r], tasks[t].n)
  {
    assert HoldsPair(size, free, posted, tasks[t]);
    forall r | 0 <= r < |subs| && !stage[r].Collected?
      ensures Avoids(subs[r], tasks[t].h) && Avoids(subs[r], tasks[t].n)
    {
      if subs[r].Request? {
        WaiterOf(size, free, posted, tasks, subs, stage, r);
        assert HasWaiter(subs[r], r, tasks);
        PairsApart(size, free, posted, tasks, t, subs[r].task);
      }
    }
    forall r | 0 <= r < |subs| && subs[r].Request? && !stage[r].Collected?
      ensures subs[r].head != tasks[t].h && subs[r].next != tasks[t].h
    { assert Avoids(subs[r], tasks[t].h); }
    forall u | 0 <= u < |tasks| && (tasks[u].Woken? || tasks[u].Returned?)
      ensures tasks[u].n != tasks[t].h
    { if tasks[u].Woken? { PairsApart(size, free, posted, tasks, t, u); } }
  }

  predicate Avoids(sub: Submission, d: nat) {
    sub.head != d && (sub.Request? ==> sub.next != d)
  }

  lemma {:induction false} SubmitBuffers(addrs: seq<nat>, q: Queue, subs: seq<Submission>, stage: seq<Stage>, tasks: seq<Pc>,
                                         replies: map<nat, Page>, t: nat, data: seq<int>)
    requires q.Shape() && Layout(addrs, q.descs) && Chains(addrs, q, subs, stage)
    requires Replies(addrs, q.mem, subs, stage, tasks, replies)
    requires t < |tasks| && tasks[t].Got? && tasks[t].h < q.size && tasks[t].n < q.size && tasks[t].h != tasks[t].n
    requires |data| <= PAGE_LEN && Private(subs, stage, tasks, tasks[t].h)
    requires forall r :: 0 <= r < |subs| && !stage[r].Collected? ==> Avoids(subs[r], tasks[t].h) && Avoids(subs[r], tasks[t].n)
    ensures var pc := tasks[t];
            var q' := AddRequest(q, pc.h, pc.n, data);
            var subs', stage' := subs + [Request(pc.h, pc.n, t, data)], stage + [Offered];
            && Chains(addrs, q', subs', stage')
            && Replies(addrs, q'.mem, subs', stage', tasks[t := Polling(pc.h, pc.n, |subs|)], replies)
  {
    var pc := tasks[t];
    var q' := AddRequest(q, pc.h, pc.n, data);
    var page := Overwrite(q.mem[addrs[pc.h]], data);
    assert page[..|data|] == data;
    PageWriteKeeps(addrs, q, subs, stage, tasks, replies, pc.h, page);
    forall r | 0 <= r < |subs| && !stage[r].Collected?
      ensures ChainOf(addrs, q', subs[r])
    {
      assert ChainOf(addrs, q.(mem := q.mem[addrs[pc.h] := page]), subs[r]);
      assert Avoids(subs[r], pc.h) && Avoids(subs[r], pc.n);
    }
    assert ChainOf(addrs, q', Request(pc.h, pc.n, t, data));
  }

  lemma {:induction false} PostKeeps(w: World)
    requires Inv(w) && WellFormed(w) && Enabled(w, Post)
    ensures Inv(DoPost(w))
  {
    hide Owners, Waiters, Slots, Chains, Layout, Replies, Delivered, RingInv, WellFormed, Ledger, Stages, Completions;
    var l := w.link;
    var n := |l.q.free|;
    if n > 0 {
      var d := l.q.free[n - 1];
      PostHasRoom(w, d);
      PostRings(l, w.addrs, d);
      PostOwners(l.q.size, l.q.free, w.posted, w.tasks, w.subs, w.stage);
      AppendKeepsPlaces(l.q.size, w.subs, l.published, w.reported, l.completed, w.stage, l.taken, w.busy, l.consumed, w.hand,
                        Posted(d));
      AppendKeeps(w.subs, w.stage, w.tasks, w.slots, w.ready, w.replies, w.deliveries, Posted(d));
      PostBuffers(w.addrs, l.q, w.subs, w.stage, w.tasks, w.replies, d);
    }
  }

  lemma {:induction false} PostHasRoom(w: World, d: nat)
    requires Inv(w) && d in w.link.q.free
    ensures w.link.q.Shape() && d < w.Size() && w.link.taken <= |w.subs| && |w.link.published| - w.link.consumed < w.Size()
  {
    FreeHeadsNothing(w.Size(), w.link.q.free, w.posted, w.tasks, w.subs, w.stage, d);
    RingHasRoom(w, d);
  }

  lemma {:induction false} PostRings(l: Link, addrs: seq<nat>, d: nat)
    requires RingInv(l) && Layout(addrs, l.q.descs) && |l.q.free| > 0 && d < l.q.size
    requires |l.published| - l.consumed < l.q.size
    ensures var q1 := l.q.(free := l.q.free[..|l.q.free| - 1]);
            RingInv(Publish(l.(q := SetWritable(q1, d)), d)) && Layout(addrs, SetWritableAvailable(q1, d).descs)
  {
    var q1 := l.q.(free := l.q.free[..|l.q.free| - 1]);
    PublishKeepsRings(l.(q := SetWritable(q1, d)), d);
  }

  lemma {:induction false} PostOwners(size: nat, free: seq<nat>, posted: seq<nat>, tasks: seq<Pc>, subs: seq<Submission>,
                                      stage: seq<Stage>)
    requires Owners(size, free, posted, tasks) && Waiters(subs, stage, tasks, posted) && |free| > 0 && NoneReturning(tasks)
    ensures var d := free[|free| - 1];
            && Owners(size, free[..|free| - 1], posted + [d], tasks)
            && Waiters(subs + [Posted(d)], stage + [Offered], tasks, posted + [d])
            && (forall r :: 0 <= r < |subs| && !stage[r].Collected? ==> Avoids(subs[r], d))
  {
    var d, free', posted' := free[|free| - 1], free[..|free| - 1], posted + [free[|free| - 1]];
    assert d in free;
    assert forall e :: e in free <==> e in free' || e == d by { assert free == free' + [d]; }
    forall t | 0 <= t < |tasks| && Holds(tasks[t]) ensures HoldsPair(size, free', posted', tasks[t]) {
      assert HoldsPair(size, free, posted, tasks[t]);
    }
    forall r | 0 <= r < |subs| && !stage[r].Collected? ensures Avoids(subs[r], d) {
      if subs[r].Request? { WaiterOf(size, free, posted, tasks, subs, stage, r); }
    }
  }

  lemma {:induction false} PostBuffers(addrs: seq<nat>, q: Queue, subs: seq<Submission>, stage: seq<Stage>, tasks: seq<Pc>,
                                       replies: map<nat, Page>, d: nat)
    requires q.Shape() && Chains(addrs, q, subs, stage) && Replies(addrs, q.mem, subs, stage, tasks, replies)
    requires d < q.size && |q.free| > 0
    requires forall r :: 0 <= r < |subs| && !stage[r].Collected? ==> Avoids(subs[r], d)
    ensures var q' := SetWritableAvailable(q.(free := q.free[..|q.free| - 1]), d);
            && Chains(addrs, q', subs + [Posted(d)], stage + [Offered])
            && Replies(addrs, q'.mem, subs + [Posted(d)], stage + [Offered], tasks, replies)
  {
    var q' := SetWritableAvailable(q.(free := q.free[..|q.free| - 1]), d);
    forall r | 0 <= r < |subs| && !stage[r].Collected?
      ensures ChainOf(addrs, q', subs[r])
    { assert ChainOf(addrs, q, subs[r]) && Avoids(subs[r], d); }
    assert ChainOf(addrs, q', Posted(d));
  }

  // ---- Every run ----

  lemma StepFrame(w: World, a: Action)
    requires WellFormed(w) && Enabled(w, a)
    ensures |Apply(w, a).tasks| == |w.tasks| && Apply(w, a).Size() == w.Size()
    ensures Apply(w, a).panicked ==> a.Acquire? && |w.link.q.free| < 2
  {
    hide WellFormed;
    match a
    case Acquire(t) =>
    case _ =>
  }

  lemma ShapeOf(w: World)
    requires WellFormed(w)
    ensures w.link.q.Shape()
  {
  }

  lemma {:induction false} StepKeeps(w: World, a: Action)
    requires Inv(w) && WellFormed(w) && Enabled(w, a)
    ensures Inv(Apply(w, a))
  {
    hide Inv, WellFormed;
    match a
    case Post => PostKeeps(w);
    case Acquire(t) => AcquireKeeps(w, t);
    case Submit(t, data) => SubmitKeeps(w, t, data);
    case PollFirst(t, queued) => PollFirstKeeps(w, t, queued);
    case PollSecond(t) => PollSecondKeeps(w, t);
    case Release(t) => ReleaseKeeps(w, t);
    case Read(t) => ReadKeeps(w, t);
    case PopUsed => PopUsedKeeps(w);
    case WakeSlot => WakeSlotKeeps(w);
    case DeviceTake => DeviceTakeKeeps(w);
    case DeviceWrite(h, d, page) =>
      assert |w.Descs()| == w.Size() by { ShapeOf(w); }
      DeviceWriteKeeps(w, h, d, page);
    case DeviceComplete(h, len) => DeviceCompleteKeeps(w, h, len);
  }

  lemma {:induction false} RunKeeps(w: World, actions: seq<Action>, w': World)
    requires Inv(w) && Run(w, actions, w')
    ensures Inv(w') && WellFormed(w') && |w'.tasks| == |w.tasks| && w'.Size() == w.Size()
    decreases |actions|
  {
    hide Inv, WellFormed;
    InvIsWellFormed(w);
    if actions != [] {
      StepKeeps(w, actions[0]);
      StepFrame(w, actions[0]);
      RunKeeps(Apply(w, actions[0]), actions[1..], w');
    }
  }

  lemma {:induction false} ReachableInv(w0: World, k: nat, actions: seq<Action>, w: World)
    requires Start(w0, k) && Run(w0, actions, w)
    ensures Inv(w) && WellFormed(w) && |w.tasks| == k && w.Size() == w0.Size()
  {
    StartInv(w0, k);
    RunKeeps(w0, actions, w);
  }

  // ---- Main results ----

  /** In every reachable state the 16-bit rings are unbounded FIFO queues. */
  lemma {:induction false} RingsRefineFifo(w0: World, k: nat, actions: seq<Action>, w: World)
    requires Start(w0, k) && Run(w0, actions, w)
    ensures FifoView(w.link)
  {
    ReachableInv(w0, k, actions, w);
    RingsAreFifo(w.link);
  }

  /**
    Whatever the interleaving, a task reads from its reply buffer exactly what
    the device had left there when it completed that task's own submission.
   */
  lemma {:induction false} RepliesMatch(w0: World, k: nat, actions: seq<Action>, w: World)
    requires Start(w0, k) && Run(w0, actions, w)
    ensures |w.stage| == |w.subs|
    ensures forall i :: 0 <= i < |w.deliveries| ==> Faithful(w.subs, w.stage, w.replies, w.deliveries[i])
    ensures forall i, j :: 0 <= i < j < |w.deliveries| ==> w.deliveries[i].sub != w.deliveries[j].sub
    ensures forall t :: 0 <= t < |w.tasks| && w.tasks[t].Returned? ==>
              HasReply(w.addrs, w.Mem(), w.replies, w.tasks[t].s, w.tasks[t].n) && IsSub(w.subs, t, w.tasks[t])
  {
    ReachableInv(w0, k, actions, w);
  }

  /**
    As long as a request is not collected, a device that walks its chain finds
    two distinct descriptors, the submitted bytes in the first, read-only one,
    and a whole writable page in the second; no other chain shares either.
   */
  lemma {:induction false} DeviceSeesRequest(w0: World, k: nat, actions: seq<Action>, w: World, s: nat)
    requires Start(w0, k) && Run(w0, actions, w)
    requires s < |w.subs| && w.subs[s].Request? && !(s < |w.stage| && w.stage[s].Collected?)
    ensures var Request(h, n, t, data) := w.subs[s];
            && h != n && h < w.Size() && n < w.Size()
            && |w.Descs()| == w.Size() && |w.stage| == |w.subs|
            && Chain(w.Descs(), h, w.Size()) == [h, n]
            && w.Descs()[h].flags % 2 == 1 && w.Descs()[h].flags / 2 % 2 == 0
            && w.Descs()[n].flags % 2 == 0 && w.Descs()[n].flags / 2 % 2 == 1 && w.Descs()[n].len == 4096
            && w.Descs()[h].addr in w.Mem() && w.Descs()[h].len == |data| <= |w.Mem()[w.Descs()[h].addr]|
            && w.Mem()[w.Descs()[h].addr][..|data|] == data
            && w.Descs()[h].addr != w.Descs()[n].addr
            && forall r :: 0 <= r < |w.subs| && r != s && !w.stage[r].Collected? ==> Avoids(w.subs[r], h) && Avoids(w.subs[r], n)
  {
    hide Run, Start, Slots, Replies, Delivered, Completions, Counts, Stages, WellFormed;
    ReachableInv(w0, k, actions, w);
    var Request(h, n, t, data) := w.subs[s];
    assert ChainOf(w.addrs, w.link.q, w.subs[s]);
    ChainShape(w.Descs(), w.subs[s], w.Size());
    LiveSubsApart(w.Size(), w.link.q.free, w.posted, w.tasks, w.subs, w.stage, s);
  }

  lemma {:induction false} LiveSubsApart(size: nat, free: seq<nat>, posted: seq<nat>, tasks: seq<Pc>, subs: seq<Submission>,
                                         stage: seq<Stage>, s: nat)
    requires Owners(size, free, posted, tasks) && Waiters(subs, stage, tasks, posted)
    requires s < |subs| && subs[s].Request? && !stage[s].Collected?
    ensures subs[s].head != subs[s].next && subs[s].head < size && subs[s].next < size
    ensures forall r :: 0 <= r < |subs| && r != s && !stage[r].Collected? ==>
              Avoids(subs[r], subs[s].head) && Avoids(subs[r], subs[s].next)
  {
    WaiterOf(size, free, posted, tasks, subs, stage, s);
    forall r | 0 <= r < |subs| && r != s && !stage[r].Collected?
      ensures Avoids(subs[r], subs[s].head) && Avoids(subs[r], subs[s].next)
    {
      if subs[r].Request? {
        WaiterOf(size, free, posted, tasks, subs, stage, r);
        assert HasWaiter(subs[r], r, tasks) && HasWaiter(subs[s], s, tasks);
        PairsApart(size, free, posted, tasks, subs[r].task, subs[s].task);
      }
    }
  }

  /** The descriptors tasks hold, pair by pair. */
  function Pairs(tasks: seq<Pc>): seq<nat> {
    if tasks == [] then []
    else
      var last := tasks[|tasks| - 1];
      Pairs(tasks[..|tasks| - 1]) + if Holds(last) then [last.h, last.n] else []
  }

  predicate Uses(pc: Pc, d: nat) {
    Holds(pc) && (pc.h == d || pc.n == d)
  }

  function UseCount(tasks: seq<Pc>, d: nat): nat {
    if tasks == [] then 0
    else UseCount(tasks[..|tasks| - 1], d) + if Uses(tasks[|tasks| - 1], d) then 1 else 0
  }

  lemma {:induction false} PairsCount(tasks: seq<Pc>, d: nat)
    requires forall t :: 0 <= t < |tasks| && Holds(tasks[t]) ==> tasks[t].h != tasks[t].n
    ensures multiset(Pairs(tasks))[d] == UseCount(tasks, d)
  {
    if tasks != [] {
      var rest, last := tasks[..|tasks| - 1], tasks[|tasks| - 1];
      PairsCount(rest, d);
      PairCount(last, Pairs(rest), d);
    }
  }

  lemma PairCount(pc: Pc, rest: seq<nat>, d: nat)
    requires Holds(pc) ==> pc.h != pc.n
    ensures multiset(rest + if Holds(pc) then [pc.h, pc.n] else [])[d] == multiset(rest)[d] + if Uses(pc, d) then 1 else 0
  {
    if Holds(pc) {
      assert multiset(rest + [pc.h, pc.n]) == multiset(rest) + multiset{pc.h, pc.n};
    } else {
      assert rest + [] == rest;
    }
  }

  lemma {:induction false} UseCountZero(tasks: seq<Pc>, d: nat)
    requires forall t :: 0 <= t < |tasks| ==> !Uses(tasks[t], d)
    ensures UseCount(tasks, d) == 0
  {
    if tasks != [] { UseCountZero(tasks[..|tasks| - 1], d); }
  }

  lemma {:induction false} UseCountOne(tasks: seq<Pc>, d: nat, t: nat)
    requires t < |tasks| && Uses(tasks[t], d) && forall u :: 0 <= u < |tasks| && u != t ==> !Uses(tasks[u], d)
    ensures UseCount(tasks, d) == 1
  {
    var rest := tasks[..|tasks| - 1];
    if t == |rest| { UseCountZero(rest, d); } else { UseCountOne(rest, d, t); }
  }

  lemma {:induction false} DistinctCount(xs: seq<nat>, d: nat)
    requires forall i, j :: 0 <= i < j < |xs| ==> xs[i] != xs[j]
    ensures multiset(xs)[d] == if d in xs then 1 else 0
  {
    if xs != [] {
      var last := |xs| - 1;
      DistinctCount(xs[..last], d);
      assert xs == xs[..last] + [xs[last]];
    }
  }

  /** Conservation: free stack, posted buffers and the pairs of tasks make up 0..size, each descriptor once. */
  lemma {:induction false} DescriptorsConserved(w0: World, k: nat, actions: seq<Action>, w: World, d: nat)
    requires Start(w0, k) && Run(w0, actions, w)
    ensures multiset(w.link.q.free + w.posted + Pairs(w.tasks))[d] == if d < w0.Size() then 1 else 0
    ensures |w.posted| <= 10
  {
    hide Run, Start, Slots, Replies, Delivered, Completions, Stages, WellFormed, Chains, Waiters, RingInv;
    ReachableInv(w0, k, actions, w);
    DistinctCount(w.link.q.free, d);
    DistinctCount(w.posted, d);
    HeldOnce(w.Size(), w.link.q.free, w.posted, w.tasks, d);
  }

  lemma {:induction false} HeldOnce(size: nat, free: seq<nat>, posted: seq<nat>, tasks: seq<Pc>, d: nat)
    requires Owners(size, free, posted, tasks)
    ensures multiset(Pairs(tasks))[d] == if d < size && d !in free && d !in posted then 1 else 0
  {
    forall t | 0 <= t < |tasks| && Holds(tasks[t])
      ensures tasks[t].h != tasks[t].n && (Uses(tasks[t], d) ==> d < size && d !in free && d !in posted)
    { assert HoldsPair(size, free, posted, tasks[t]); }
    PairsCount(tasks, d);
    if d < size && d !in free && d !in posted {
      assert HeldBySome(tasks, d);
      var t :| 0 <= t < |tasks| && Holds(tasks[t]) && (tasks[t].h == d || tasks[t].n == d);
      forall u | 0 <= u < |tasks| && u != t ensures !Uses(tasks[u], d) {
        if Holds(tasks[u]) { PairsApart(size, free, posted, tasks, t, u); }
      }
      UseCountOne(tasks, d, t);
    } else {
      UseCountZero(tasks, d);
    }
  }

  /** Every request was made by one of the tasks. */
  ghost predicate TasksKnown(subs: seq<Submission>, n: nat) {
    forall s :: 0 <= s < |subs| && subs[s].Request? ==> subs[s].task < n
  }

  lemma StepKeepsTasks(w: World, a: Action)
    requires WellFormed(w) && Enabled(w, a) && TasksKnown(w.subs, |w.tasks|)
    ensures TasksKnown(Apply(w, a).subs, |Apply(w, a).tasks|)
  {
    hide WellFormed, TasksKnown, SetAvailable, SetWritable, AddRequest, NextUsed, GetFree, GetFreeTwice;
    match a
    case Post =>
      if GetFree(w.link.q).1.Some? { OneMoreKnown(w.subs, Posted(GetFree(w.link.q).1.value), |w.tasks|); }
    case Submit(t, data) => OneMoreKnown(w.subs, Request(w.tasks[t].h, w.tasks[t].n, t, data), |w.tasks|);
    case _ =>
  }

  lemma OneMoreKnown(subs: seq<Submission>, sub: Submission, n: nat)
    requires TasksKnown(subs, n) && (sub.Request? ==> sub.task < n)
    ensures TasksKnown(subs + [sub], n)
  {
  }

  lemma {:induction false} RunKeepsTasks(w: World, actions: seq<Action>, w': World)
    requires TasksKnown(w.subs, |w.tasks|) && Run(w, actions, w')
    ensures TasksKnown(w'.subs, |w'.tasks|)
    decreases |actions|
  {
    hide WellFormed, Enabled, Apply, TasksKnown;
    if actions != [] {
      StepKeepsTasks(w, actions[0]);
      RunKeepsTasks(Apply(w, actions[0]), actions[1..], w');
    }
  }

  lemma {:induction false} ReachableTask(w0: World, k: nat, actions: seq<Action>, w: World, s: nat)
    requires Start(w0, k) && Run(w0, actions, w) && s < |w.subs| && w.subs[s].Request?
    ensures w.subs[s].task < |w.tasks|
  {
    hide Run;
    RunKeepsTasks(w0, actions, w);
  }

  /**
    Exactly-once completion: every request is in one of three situations, whether
    its wake-up came before the first poll, between the two lock sections of a
    poll, or after it.
   */
  ghost predicate Settled(w: World, s: nat)
    requires |w.stage| == |w.subs| && s < |w.subs| && w.subs[s].Request? && w.subs[s].task < |w.tasks|
  {
    var pc := w.tasks[w.subs[s].task];
    var waiting := Expects(pc) && pc.s == s;
    var returning := (pc.Woken? || pc.Returned?) && pc.s == s;
    && (waiting ==> !w.stage[s].Collected? && !IsDelivered(w.deliveries, s))
    && (returning ==> w.stage[s].Collected? && !IsDelivered(w.deliveries, s))
    && (waiting || returning || IsDelivered(w.deliveries, s))
  }

  lemma {:induction false} ExactlyOnce(w0: World, k: nat, actions: seq<Action>, w: World, s: nat)
    requires Start(w0, k) && Run(w0, actions, w)
    requires s < |w.subs| && w.subs[s].Request?
    ensures |w.stage| == |w.subs| && w.subs[s].task < |w.tasks| && Settled(w, s)
    ensures forall i, j :: 0 <= i < j < |w.deliveries| ==> w.deliveries[i].sub != w.deliveries[j].sub
  {
    hide Run, Start, Slots, Replies, Completions, Stages, WellFormed, Chains, RingInv, Counts, Owners, Layout, Ledger;
    ReachableInv(w0, k, actions, w);
    ReachableTask(w0, k, actions, w, s);
    SettledOf(w.subs, w.stage, w.tasks, w.posted, w.replies, w.deliveries, s);
  }

  lemma {:induction false} SettledOf(subs: seq<Submission>, stage: seq<Stage>, tasks: seq<Pc>, posted: seq<nat>,
                                     replies: map<nat, Page>, deliveries: seq<Delivery>, s: nat)
    requires Waiters(subs, stage, tasks, posted) && Delivered(subs, stage, tasks, replies, deliveries)
    requires s < |subs| && subs[s].Request? && subs[s].task < |tasks|
    ensures IsDelivered(deliveries, s) ==> stage[s].Collected?
    ensures !stage[s].Collected? ==> HasWaiter(subs[s], s, tasks)
    ensures stage[s].Collected? && !IsDelivered(deliveries, s) ==>
              (tasks[subs[s].task].Woken? || tasks[subs[s].task].Returned?) && tasks[subs[s].task].s == s
  {
    if IsDelivered(deliveries, s) {
      var i :| 0 <= i < |deliveries| && deliveries[i].sub == s;
      assert Faithful(subs, stage, replies, deliveries[i]);
    } else if stage[s].Collected? {
      assert AboutToRead(tasks, s);
      var u :| 0 <= u < |tasks| && (tasks[u].Woken? || tasks[u].Returned?) && tasks[u].s == s;
      assert IsSub(subs, u, tasks[u]);
    }
  }

  /** In every reachable state the waker slot of each free descriptor is empty. */
  lemma {:induction false} FreeSlotsAreEmpty(w0: World, k: nat, actions: seq<Action>, w: World, d: nat)
    requires Start(w0, k) && Run(w0, actions, w) && d in w.link.q.free
    ensures d < 256 == |w.slots| && w.slots[d] == Empty
  {
    hide Run, Start, Replies, Chains, RingInv, Counts, Layout, Delivered, Owners, Ledger, Completions, Stages;
    ReachableInv(w0, k, actions, w);
    FreeSlotsEmpty(w.Size(), w.link.q.free, w.posted, w.tasks, w.subs, w.stage, w.slots, w.ready);
  }

  /**
    No lost wake-up: a task whose poll answered `Pending` is queued once its slot
    is `Done`; until then its waker is registered and some other step can bring
    its completion closer. Slots of free descriptors are empty.
   */
  lemma {:induction false} NoLostWakeup(w0: World, k: nat, actions: seq<Action>, w: World, t: nat)
    requires Start(w0, k) && Run(w0, actions, w)
    requires t < |w.tasks| && w.tasks[t].Waiting?
    ensures |w.slots| == WAKER_SLOTS && w.tasks[t].h < WAKER_SLOTS
    ensures w.slots[w.tasks[t].h] == Done || w.slots[w.tasks[t].h] == Waker(t)
    ensures w.slots[w.tasks[t].h] == Done ==> t in w.ready
    ensures w.slots[w.tasks[t].h] == Waker(t) ==> Advances(w, w.tasks[t].h, w.tasks[t].s)
    ensures forall d :: d in w.link.q.free && d < WAKER_SLOTS ==> w.slots[d] == Empty
  {
    hide Run, Start, Replies, WellFormed, Chains, RingInv, Counts, Layout, Delivered, Slots, Owners;
    ReachableInv(w0, k, actions, w);
    RingsAreFifo(w.link);
    WaitingSlot(w.subs, w.stage, w.tasks, w.posted, w.slots, w.ready, t);
    FreeSlotsEmpty(w.Size(), w.link.q.free, w.posted, w.tasks, w.subs, w.stage, w.slots, w.ready);
  }

  /** The step that moves an outstanding chain on is possible now. */
  ghost predicate Advances(w: World, h: nat, s: nat) {
    && s < |w.stage| && w.link.q.Shape()
    && match w.stage[s] {
         case Offered => CanTake(w.link)
         case InDevice => h in w.busy && w.busy[h] == s
         case Reported => NextUsed(w.link.q).1.Some?
         case InHand => w.hand == Some((h, s))
         case _ => false
       }
  }

  lemma {:induction false} WaitingSlot(subs: seq<Submission>, stage: seq<Stage>, tasks: seq<Pc>, posted: seq<nat>,
                                       slots: seq<Slot>, ready: multiset<nat>, t: nat)
    requires Waiters(subs, stage, tasks, posted) && Slots(subs, stage, tasks, slots, ready)
    requires t < |tasks| && tasks[t].Waiting?
    ensures |slots| == WAKER_SLOTS && tasks[t].h < WAKER_SLOTS && tasks[t].s < |subs| && subs[tasks[t].s].head == tasks[t].h
    ensures slots[tasks[t].h] == if stage[tasks[t].s].Signalled? then Done else Waker(t)
    ensures stage[tasks[t].s].Signalled? ==> t in ready
    ensures !stage[tasks[t].s].Collected?
  {
    assert IsSub(subs, t, tasks[t]) && SlotOf(stage, slots, ready, t, tasks[t]);
  }

  lemma {:induction false} FreeSlotsEmpty(size: nat, free: seq<nat>, posted: seq<nat>, tasks: seq<Pc>, subs: seq<Submission>,
                                          stage: seq<Stage>, slots: seq<Slot>, ready: multiset<nat>)
    requires Owners(size, free, posted, tasks) && Waiters(subs, stage, tasks, posted) && Slots(subs, stage, tasks, slots, ready)
    ensures forall d :: d in free && d < WAKER_SLOTS ==> slots[d] == Empty
  {
    forall d | d in free && d < WAKER_SLOTS ensures slots[d] == Empty {
      FreeHeadsNothing(size, free, posted, tasks, subs, stage, d);
      assert slots[d] != Empty ==> Awaited(subs, stage, d);
    }
  }

  // ---- The panic branch ----

  lemma {:induction false} HoldersBound(tasks: seq<Pc>, t: nat)
    requires t < |tasks| && tasks[t].Idle?
    ensures |Holders(tasks)| <= |tasks| - 1
  {
    SubsetSize(Holders(tasks), Below(|tasks|) - {t});
  }

  lemma {:induction false} RunDoesNotPanic(w: World, actions: seq<Action>, w': World)
    requires Inv(w) && !w.panicked && Run(w, actions, w') && 2 * |w.tasks| + 10 <= w.Size()
    ensures !w'.panicked
    decreases |actions|
  {
    if actions != [] {
      var a := actions[0];
      if a.Acquire? { HoldersBound(w.tasks, a.t); }
      hide RingInv, Layout, Ledger, Stages, Completions, Owners, Waiters, Slots, Chains, Replies, Delivered, WellFormed;
      StepFrame(w, a);
      StepKeeps(w, a);
      RunDoesNotPanic(Apply(w, a), actions[1..], w');
    }
  }

  ghost predicate CanPanic(w: World) {
    exists actions, w' :: Run(w, actions, w') && w'.panicked
  }

  lemma PanicLater(w: World, a: Action)
    requires WellFormed(w) && Enabled(w, a) && CanPanic(Apply(w, a))
    ensures CanPanic(w)
  {
    var actions, w' :| Run(Apply(w, a), actions, w') && w'.panicked;
    assert Run(w, [a] + actions, w') by { assert ([a] + actions)[1..] == actions; }
  }

  /** Tasks that all ask for descriptors before any gives some back. */
  lemma {:induction false} AcquireUntilPanic(w: World, i: nat)
    requires Inv(w) && !w.panicked && i < |w.tasks| && |w.link.q.free| < 2 * (|w.tasks| - i)
    requires NoneReturning(w.tasks) && forall t :: i <= t < |w.tasks| ==> w.tasks[t].Idle?
    ensures CanPanic(w)
    decreases |w.tasks| - i
  {
    hide Inv, WellFormed;
    InvIsWellFormed(w);
    var a := Acquire(i);
    if |w.link.q.free| < 2 {
      assert Run(DoAcquire(w, i), [], DoAcquire(w, i));
    } else {
      StepKeeps(w, a);
      assert Apply(w, a) == DoAcquire(w, i);
      AcquireUntilPanic(DoAcquire(w, i), i + 1);
    }
    PanicLater(w, a);
  }

  lemma {:induction false} PostUntilPanic(w: World)
    requires Inv(w) && !w.panicked && |w.tasks| > 0 && forall t :: 0 <= t < |w.tasks| ==> w.tasks[t].Idle?
    requires w.turns <= POSTS && |w.link.q.free| < 2 * |w.tasks| + (POSTS - w.turns)
    ensures CanPanic(w)
    decreases POSTS - w.turns
  {
    hide Inv, WellFormed;
    InvIsWellFormed(w);
    if w.turns == POSTS {
      AcquireUntilPanic(w, 0);
    } else {
      StepKeeps(w, Post);
      PostUntilPanic(Apply(w, Post));
      PanicLater(w, Post);
    }
  }

  /** `request` can run out of descriptors exactly when the queue is shorter than ten plus two for each task. */
  lemma {:induction false} PanicsExactlyWhenShort(w0: World, k: nat)
    requires Start(w0, k) && k > 0
    ensures CanPanic(w0) <==> w0.Size() < 2 * k + 10
  {
    StartInv(w0, k);
    if w0.Size() < 2 * k + POSTS {
      PostUntilPanic(w0);
    } else if CanPanic(w0) {
      var actions, w' :| Run(w0, actions, w') && w'.panicked;
      RunDoesNotPanic(w0, actions, w');
    }
  }

  // ---- What one poll of the draining task does ----

  /** The draining task and the device, while no other task runs. */
  predicate Draining(a: Action) {
    a.PopUsed? || a.WakeSlot? || a.DeviceTake? || a.DeviceWrite? || a.DeviceComplete?
  }

  lemma {:induction false} OutstandingBounded(w: World)
    requires Inv(w)
    ensures WellFormed(w)
    ensures w.link.consumed <= |w.link.published| <= w.link.consumed + w.Size()
  {
    InvIsWellFormed(w);
  }

  /** The drain loop pops at most the chains that are outstanding when it starts, so it ends. */
  lemma {:induction false} DrainBounded(w: World, actions: seq<Action>, w': World)
    requires Inv(w) && Run(w, actions, w') && forall i :: 0 <= i < |actions| ==> Draining(actions[i])
    ensures w'.link.published == w.link.published
    ensures w'.link.consumed <= |w.link.published| <= w.link.consumed + w.Size()
    decreases |actions|
  {
    hide WellFormed, Inv, Apply;
    OutstandingBounded(w);
    if actions != [] {
      StepKeeps(w, actions[0]);
      DrainStep(w, actions[0]);
      DrainBounded(Apply(w, actions[0]), actions[1..], w');
    }
  }

  lemma DrainStep(w: World, a: Action)
    requires Inv(w) && WellFormed(w) && Enabled(w, a) && Draining(a)
    ensures var w' := Apply(w, a);
            && w'.link.published == w.link.published && w'.tasks == w.tasks && w'.Size() == w.Size()
            && w.link.consumed <= w'.link.consumed
            && |w.slots| == WAKER_SLOTS
            && (!a.WakeSlot? ==> w'.slots == w.slots && w'.ready == w.ready)
  {
    hide WellFormed, Owners, Waiters, Chains, Layout, Replies, Delivered, Ledger, Stages, Completions;
  }

  /** The drain wakes each registered task at most once: exactly when it turns that task's slot to `Done`. */
  ghost predicate WokeOnce(slots: seq<Slot>, ready: multiset<nat>, slots': seq<Slot>, ready': multiset<nat>) {
    && |slots| == WAKER_SLOTS == |slots'|
    && (forall d :: 0 <= d < WAKER_SLOTS ==> slots'[d] == slots[d] || slots'[d] == Done)
    && (forall d :: 0 <= d < WAKER_SLOTS && slots[d].Waker? ==>
          ready'[slots[d].task] == ready[slots[d].task] + if slots'[d].Done? then 1 else 0)
    && (forall t :: !Registers(slots, t) ==> ready'[t] == ready[t])
  }

  ghost predicate Registers(slots: seq<Slot>, t: nat) {
    Waker(t) in slots
  }

  lemma {:induction false} DrainWakesOnce(w: World, actions: seq<Action>, w': World)
    requires Inv(w) && Run(w, actions, w') && forall i :: 0 <= i < |actions| ==> Draining(actions[i])
    ensures w'.tasks == w.tasks && WokeOnce(w.slots, w.ready, w'.slots, w'.ready)
    decreases |actions|
  {
    hide WellFormed, Inv, WokeOnce;
    InvIsWellFormed(w);
    SlotsHaveOwners(w);
    if actions == [] {
      WokeNone(w.slots, w.ready);
    } else {
      var w1 := Apply(w, actions[0]);
      StepKeeps(w, actions[0]);
      DrainStep(w, actions[0]);
      WokeStep(w, actions[0]);
      DrainWakesOnce(w1, actions[1..], w');
      WokeTwice(w.slots, w.ready, w1.slots, w1.ready, w'.slots, w'.ready);
    }
  }

  lemma WokeNone(slots: seq<Slot>, ready: multiset<nat>)
    requires |slots| == WAKER_SLOTS
    ensures WokeOnce(slots, ready, slots, ready)
  {
  }

  lemma WokeStep(w: World, a: Action)
    requires Inv(w) && WellFormed(w) && Enabled(w, a) && Draining(a)
    ensures var w' := Apply(w, a); WokeOnce(w.slots, w.ready, w'.slots, w'.ready)
  {
    hide Inv, WellFormed, WokeOnce;
    DrainStep(w, a);
    SlotsHaveOwners(w);
    if a.WakeSlot? { WakeOne(w); } else { WokeNone(w.slots, w.ready); }
  }

  lemma SlotsHaveOwners(w: World)
    requires Inv(w)
    ensures |w.slots| == WAKER_SLOTS && forall d :: 0 <= d < WAKER_SLOTS && w.slots[d].Waker? ==> Registered(w.tasks, w.slots[d].task, d)
  {
  }

  lemma WakeOne(w: World)
    requires WellFormed(w) && w.hand.Some?
    requires forall d :: 0 <= d < WAKER_SLOTS && w.slots[d].Waker? ==> Registered(w.tasks, w.slots[d].task, d)
    ensures var w' := DoWakeSlot(w); WokeOnce(w.slots, w.ready, w'.slots, w'.ready)
  {
  }

  lemma WokeTwice(slots: seq<Slot>, ready: multiset<nat>, slots1: seq<Slot>, ready1: multiset<nat>,
                  slots2: seq<Slot>, ready2: multiset<nat>)
    requires WokeOnce(slots, ready, slots1, ready1) && WokeOnce(slots1, ready1, slots2, ready2)
    requires forall d, e :: 0 <= d < e < |slots| && slots[d].Waker? ==> slots[d] != slots[e]
    ensures WokeOnce(slots, ready, slots2, ready2)
  {
    forall t | !Registers(slots, t) ensures !Registers(slots1, t) {}
    forall d | 0 <= d < WAKER_SLOTS && slots[d].Waker?
      ensures ready2[slots[d].task] == ready[slots[d].task] + if slots2[d].Done? then 1 else 0
    {
      var t := slots[d].task;
      if slots1[d].Done? {
        forall e | 0 <= e < WAKER_SLOTS ensures slots1[e] != Waker(t) {}
        assert !Registers(slots1, t);
      }
    }
  }
}
