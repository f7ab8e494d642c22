/**
  The event loop of bootloader/kernel/src/drivers/virtio_input.rs between a
  device and the shared input state: post every descriptor, then pop a used one,
  apply its event, and post it again, while the device takes, fills and completes
  descriptors whenever it likes and in any order, other drivers apply events of
  their own devices, and frames end.
 */
module InputDriver {
  import opened Finite
  import opened Wrappers
  import opened Virtqueue
  import opened Input

  /** What the driver holds between popping a used descriptor and posting it again. */
  datatype Hand = Empty | Popped(id: nat) | Applied(id: nat)

  /** Where a descriptor is. */
  datatype Place = Free | Offered | InDevice | Reported | Held

  /**
    `link`, `hand`, `input` and `booting` are the state of the program and
    `busy` is the device's own table; `place`, `reported` (the event in each
    completed buffer, in used order) and `updates` (of the shared input state, by
    anyone) record the history.
   */
  datatype World = World(
    addrs: seq<nat>,
    link: Link,
    hand: Hand,
    input: Snapshot,
    booting: bool,
    busy: set<nat>,
    place: seq<Place>,
    reported: seq<DeviceEvent>,
    updates: seq<Update>,
    panicked: bool)

  datatype Action =
    | Post
    | Pop
    | ApplyOne
    | Repost
    | OtherDriver(event: DeviceEvent)
    | FrameLoop
    | DeviceTake
    | DeviceWrite(d: nat, page: Page)
    | DeviceComplete(d: nat, len: nat)

  function Byte(page: Page, i: nat): nat
    requires i < |page|
  {
    page[i] % 0x100
  }

  /** The little-endian `VirtioInputEvent` at the start of a buffer. */
  function EventOf(page: Page): DeviceEvent
    requires |page| == PAGE_LEN
  {
    DeviceEvent(Byte(page, 0) + 0x100 * Byte(page, 1),
                Byte(page, 2) + 0x100 * Byte(page, 3),
                Byte(page, 4) + 0x100 * Byte(page, 5) + 0x1_0000 * Byte(page, 6) + 0x100_0000 * Byte(page, 7))
  }

  /** How section 5.8.6 of VIRTIO 1.2 lays an event out: type and code in two bytes each, value in four, lowest first. */
  function EventBytes(kind: nat, code: nat, value: nat): (bytes: seq<int>)
    ensures |bytes| == 8
  {
    [kind % 0x100, kind / 0x100,
     code % 0x100, code / 0x100,
     value % 0x100, value / 0x100 % 0x100, value / 0x1_0000 % 0x100, value / 0x100_0000]
  }

  /** A buffer that starts with an event's bytes is read as that event. */
  lemma {:induction false} EventReadsBack(page: Page, kind: nat, code: nat, value: nat)
    requires |page| == PAGE_LEN && page[..8] == EventBytes(kind, code, value)
    requires kind < 0x1_0000 && code < 0x1_0000 && value < 0x1_0000_0000
    ensures EventOf(page) == DeviceEvent(kind, code, value)
  {
    TwoBytes(kind);
    TwoBytes(code);
    FourBytes(value);
    forall i | 0 <= i < 8 ensures Byte(page, i) == EventBytes(kind, code, value)[i] {
      assert page[i] == page[..8][i];
    }
    hide Byte;
  }

  lemma TwoBytes(v: nat)
    requires v < 0x1_0000
    ensures v / 0x100 < 0x100 && v == v % 0x100 + 0x100 * (v / 0x100)
  {
  }

  lemma FourBytes(v: nat)
    requires v < 0x1_0000_0000
    ensures v / 0x100_0000 < 0x100
    ensures v == v % 0x100 + 0x100 * (v / 0x100 % 0x100) + 0x1_0000 * (v / 0x1_0000 % 0x100) + 0x100_0000 * (v / 0x100_0000)
  {
    var a, b := v / 0x100, v / 0x1_0000;
    assert b == a / 0x100 && v / 0x100_0000 == b / 0x100;
  }

  // ---- Steps ----

  ghost predicate WellFormed(w: World) {
    && w.link.q.Shape() && |w.place| == w.link.q.size && w.input.Shape()
    && (forall d :: d in w.link.q.free || d in w.busy ==> d < w.link.q.size)
    && (!w.hand.Empty? ==> w.hand.id < w.link.q.size)
    && (CanTake(w.link) ==> TakenHead(w.link) < w.link.q.size)
    && (NextUsed(w.link.q).1.Some? ==> NextUsed(w.link.q).1.value.id < w.link.q.size)
  }

  ghost predicate Enabled(w: World, a: Action)
    requires WellFormed(w)
  {
    !w.panicked &&
    match a
    case Post => w.booting
    case Pop => !w.booting && w.hand.Empty?
    case ApplyOne => w.hand.Popped?
    case Repost => w.hand.Applied?
    case OtherDriver(_) => true
    case FrameLoop => true
    case DeviceTake => CanTake(w.link)
    case DeviceWrite(d, page) => d in w.busy && Writable(w.link.q.descs[d]) && |page| == PAGE_LEN
    case DeviceComplete(d, len) => d in w.busy
  }

  /** `set_writable_available` */
  function Offer(l: Link, d: nat): Link
    requires l.q.Shape() && d < l.q.size
  {
    Publish(l.(q := SetWritable(l.q, d)), d)
  }

  ghost function DoPost(w: World): World
    requires WellFormed(w)
  {
    var (q, r) := GetFree(w.link.q);
    if r.None? then w.(booting := false)
    else
      assert r.value in w.link.q.free;
      w.(link := Offer(w.link.(q := q), r.value), place := w.place[r.value := Offered])
  }

  ghost function DoPop(w: World): World
    requires WellFormed(w)
  {
    var r := NextUsed(w.link.q).1;
    if r.None? then w
    else w.(link := Consume(w.link), hand := Popped(r.value.id), place := w.place[r.value.id := Held])
  }

  ghost function DoApply(w: World): World
    requires WellFormed(w) && w.hand.Popped?
  {
    var e := EventOf(w.link.q.mem[w.link.q.descs[w.hand.id].addr]);
    match ApplyEvent(w.input, e)
    case None => w.(panicked := true)
    case Some(input) => w.(input := input, hand := Applied(w.hand.id), updates := w.updates + [Own(e)])
  }

  /** The same loop for another input device, at its one step that both share. */
  ghost function DoOtherDriver(w: World, e: DeviceEvent): World
    requires WellFormed(w)
  {
    match ApplyEvent(w.input, e)
    case None => w.(panicked := true)
    case Some(input) => w.(input := input, updates := w.updates + [Other(e)])
  }

  /** The frame loop has shown the input state to the applications and steps its keys. */
  ghost function DoFrameLoop(w: World): World
    requires WellFormed(w)
  {
    w.(input := StepKeys(w.input), updates := w.updates + [EndOfFrame])
  }

  ghost function DoRepost(w: World): World
    requires WellFormed(w) && w.hand.Applied?
  {
    w.(link := Offer(w.link, w.hand.id), hand := Empty, place := w.place[w.hand.id := Offered])
  }

  ghost function DoDeviceTake(w: World): World
    requires WellFormed(w) && CanTake(w.link)
  {
    var d := TakenHead(w.link);
    w.(link := Take(w.link), busy := w.busy + {d}, place := w.place[d := InDevice])
  }

  ghost function DoDeviceWrite(w: World, d: nat, page: Page): World
    requires WellFormed(w) && d in w.busy
  {
    w.(link := w.link.(q := w.link.q.(mem := w.link.q.mem[w.link.q.descs[d].addr := page])))
  }

  ghost function DoDeviceComplete(w: World, d: nat, len: nat): World
    requires WellFormed(w) && d in w.busy
  {
    w.(link := Complete(w.link, d, len), busy := w.busy - {d}, place := w.place[d := Reported],
       reported := w.reported + [EventOf(w.link.q.mem[w.link.q.descs[d].addr])])
  }

  ghost function Apply(w: World, a: Action): World
    requires WellFormed(w) && Enabled(w, a)
  {
    match a
    case Post => DoPost(w)
    case Pop => DoPop(w)
    case ApplyOne => DoApply(w)
    case Repost => DoRepost(w)
    case OtherDriver(e) => DoOtherDriver(w, e)
    case FrameLoop => DoFrameLoop(w)
    case DeviceTake => DoDeviceTake(w)
    case DeviceWrite(d, page) => DoDeviceWrite(w, d, page)
    case DeviceComplete(d, len) => DoDeviceComplete(w, d, len)
  }

  /** The queue as `init` leaves it, and no input yet. */
  ghost predicate Start(w: World) {
    var q := w.link.q;
    && q.Shape() && q.size <= 256 && U16_RANGE % q.size == 0
    && q.availIdx == 0 && q.usedIdx == 0 && Inc16(q.lastUsed) == 0
    && q.free == seq(q.size, i => i)
    && Layout(w.addrs, q.descs)
    && w.link == Link(q, 0, [], 0, [], 0)
    && w.hand == Empty && w.input == Initial() && w.booting && w.busy == {}
    && w.place == seq(q.size, _ => Free) && w.reported == [] && w.updates == [] && !w.panicked
  }

  ghost predicate Run(w: World, actions: seq<Action>, w': World)
    decreases |actions|
  {
    if actions == [] then w' == w
    else WellFormed(w) && Enabled(w, actions[0]) && Run(Apply(w, actions[0]), actions[1..], w')
  }

  // ---- The invariant ----

  /** `xs` lists the descriptors at place `p`, each once. */
  ghost predicate Lists(place: seq<Place>, xs: seq<nat>, p: Place) {
    && (forall i, j :: 0 <= i < j < |xs| ==> xs[i] != xs[j])
    && (forall d: nat :: d in xs <==> d < |place| && place[d] == p)
  }

  ghost predicate Homes(place: seq<Place>, free: seq<nat>, offers: seq<nat>, busy: set<nat>, reports: seq<nat>, hand: Hand) {
    && Lists(place, free, Free) && Lists(place, offers, Offered) && Lists(place, reports, Reported)
    && (forall d: nat :: d in busy <==> d < |place| && place[d] == InDevice)
    && (!hand.Empty? ==> hand.id < |place| && place[hand.id] == Held)
    && (forall d: nat :: d < |place| && place[d] == Held ==> !hand.Empty? && hand.id == d)
  }

  ghost predicate Tally(l: Link, busy: set<nat>, hand: Hand, booting: bool) {
    && |l.q.free| + (|l.published| - l.consumed) + (if hand.Empty? then 0 else 1) == l.q.size
    && |l.completed| + |busy| == l.taken
    && (booting ==> hand.Empty?) && (!booting ==> l.q.free == [])
  }

  ghost predicate Holding(q: Queue, d: nat, e: DeviceEvent) {
    q.Shape() && d < q.size && EventOf(q.mem[q.descs[d].addr]) == e
  }

  /** The buffers not yet read still hold the events they were completed with. */
  ghost predicate Buffers(q: Queue, completed: seq<nat>, consumed: nat, hand: Hand, reported: seq<DeviceEvent>) {
    && |reported| == |completed|
    && (forall j :: consumed <= j < |completed| ==> Holding(q, completed[j], reported[j]))
    && (hand.Popped? ==> 0 < consumed <= |reported| && Holding(q, hand.id, reported[consumed - 1]))
  }

  ghost predicate History(input: Snapshot, reported: seq<DeviceEvent>, updates: seq<Update>, consumed: nat, hand: Hand) {
    && consumed <= |reported| && (hand.Popped? ==> consumed > 0)
    && OwnEvents(updates) == reported[..if hand.Popped? then consumed - 1 else consumed]
    && Replay(updates) == Some(input)
  }

  ghost predicate Inv(w: World) {
    && RingInv(w.link) && Layout(w.addrs, w.link.q.descs) && |w.place| == w.link.q.size
    && Homes(w.place, w.link.q.free, w.link.published[w.link.taken..], w.busy, w.link.completed[w.link.consumed..], w.hand)
    && Tally(w.link, w.busy, w.hand, w.booting)
    && Buffers(w.link.q, w.link.completed, w.link.consumed, w.hand, w.reported)
    && History(w.input, w.reported, w.updates, w.link.consumed, w.hand)
  }

  lemma {:induction false} HomesInRange(place: seq<Place>, free: seq<nat>, offers: seq<nat>, busy: set<nat>, reports: seq<nat>, hand: Hand)
    requires Homes(place, free, offers, busy, reports, hand)
    ensures forall d :: d in free || d in busy ==> d < |place|
    ensures !hand.Empty? ==> hand.id < |place|
    ensures offers != [] ==> offers[0] < |place|
    ensures reports != [] ==> reports[0] < |place|
  {
    assert offers != [] ==> offers[0] in offers;
    assert reports != [] ==> reports[0] in reports;
  }

  lemma {:induction false} InvIsWellFormed(w: World)
    requires Inv(w)
    ensures WellFormed(w)
  {
    var l := w.link;
    TakeReadsFifo(l);
    NextUsedReadsFifo(l);
    HomesInRange(w.place, l.q.free, l.published[l.taken..], w.busy, l.completed[l.consumed..], w.hand);
    assert Counters(l) && w.input.Shape();
    hide RingInv, Homes, Buffers, History, Layout, Counters;
  }

  lemma {:induction false} StartInv(w: World)
    requires Start(w)
    ensures Inv(w)
  {
    assert 0 % w.link.q.size == 0;
    forall d: nat ensures d in w.link.q.free <==> d < w.link.q.size {
      if d < w.link.q.size { assert w.link.q.free[d] == d; }
    }
  }

  // ---- Moving a descriptor from one place to the next ----

  lemma {:induction false} MoveElsewhere(place: seq<Place>, xs: seq<nat>, p: Place, d: nat, q: Place)
    requires Lists(place, xs, p) && d < |place| && place[d] != p && q != p
    ensures Lists(place[d := q], xs, p)
  {
    assert d !in xs;
  }

  lemma {:induction false} MoveIn(place: seq<Place>, xs: seq<nat>, p: Place, d: nat)
    requires Lists(place, xs, p) && d < |place| && place[d] != p
    ensures Lists(place[d := p], xs + [d], p)
  {
    assert d !in xs;
  }

  lemma {:induction false} MoveOut(place: seq<Place>, xs: seq<nat>, p: Place, q: Place, i: nat)
    requires Lists(place, xs, p) && i < |xs| && q != p
    ensures xs[i] < |place| && Lists(place[xs[i] := q], xs[..i] + xs[i + 1..], p)
  {
    var d, ys := xs[i], xs[..i] + xs[i + 1..];
    assert d in xs;
    forall e: nat ensures e in ys <==> e in xs && e != d {
      if e in xs && e != d {
        var k :| 0 <= k < |xs| && xs[k] == e;
        assert ys[if k < i then k else k - 1] == e;
      }
    }
  }

  // ---- Each step keeps the invariant ----

  lemma {:induction false} OfferKeepsRings(l: Link, d: nat)
    requires RingInv(l) && d < l.q.size && |l.published| - l.consumed < l.q.size
    ensures RingInv(Offer(l, d))
  {
    var l1 := l.(q := SetWritable(l.q, d));
    assert RingInv(l1);
    PublishKeepsRings(l1, d);
  }

  /** Offering a descriptor touches no buffer and no address. */
  lemma {:induction false} OfferKeepsBuffers(l: Link, d: nat, addrs: seq<nat>, completed: seq<nat>, consumed: nat,
                                             hand: Hand, reported: seq<DeviceEvent>)
    requires l.q.Shape() && d < l.q.size && Layout(addrs, l.q.descs)
    requires Buffers(l.q, completed, consumed, hand, reported)
    ensures Offer(l, d).q.Shape() && Layout(addrs, Offer(l, d).q.descs)
    ensures Buffers(Offer(l, d).q, completed, consumed, if hand.Popped? then hand else Empty, reported)
  {
    forall c, e | Holding(l.q, c, e) ensures Holding(Offer(l, d).q, c, e) {}
  }

  lemma {:induction false} PostKeeps(w: World)
    requires Inv(w) && w.booting && WellFormed(w)
    ensures Inv(DoPost(w))
  {
    var l := w.link;
    var n := |l.q.free|;
    if n > 0 {
      var d := l.q.free[n - 1];
      var q := GetFree(l.q).0;
      var l1 := l.(q := q);
      assert d in l.q.free && RingInv(l1);
      hide RingInv, Homes, Lists, Buffers, History, Layout, Holding;
      PostRings(w, l1, d);
      PostHomes(w, d);
    }
  }

  lemma {:induction false} PostRings(w: World, l1: Link, d: nat)
    requires Inv(w) && w.booting && d < w.link.q.size && |w.link.q.free| > 0
    requires l1 == w.link.(q := GetFree(w.link.q).0)
    ensures RingInv(Offer(l1, d)) && Layout(w.addrs, Offer(l1, d).q.descs)
    ensures Buffers(Offer(l1, d).q, l1.completed, l1.consumed, w.hand, w.reported)
  {
    assert Buffers(l1.q, l1.completed, l1.consumed, w.hand, w.reported) by {
      forall c, e | Holding(w.link.q, c, e) ensures Holding(l1.q, c, e) {}
    }
    assert RingInv(l1);
    OfferKeepsRings(l1, d);
    OfferKeepsBuffers(l1, d, w.addrs, l1.completed, l1.consumed, w.hand, w.reported);
  }

  lemma {:induction false} PostHomes(w: World, d: nat)
    requires Inv(w) && w.link.q.free != [] && d == w.link.q.free[|w.link.q.free| - 1]
    ensures d < |w.place|
    ensures var l := w.link;
            var free := l.q.free[..|l.q.free| - 1];
            Homes(w.place[d := Offered], free, (l.published + [d])[l.taken..], w.busy, l.completed[l.consumed..], w.hand)
  {
    var l, n := w.link, |w.link.q.free| - 1;
    assert d in l.q.free;
    MoveOut(w.place, l.q.free, Free, Offered, n);
    assert l.q.free[..n] + l.q.free[n + 1..] == l.q.free[..n];
    MoveIn(w.place, l.published[l.taken..], Offered, d);
    assert (l.published + [d])[l.taken..] == l.published[l.taken..] + [d];
    MoveElsewhere(w.place, l.completed[l.consumed..], Reported, d, Offered);
  }

  lemma {:induction false} PopKeepsHomes(place: seq<Place>, free: seq<nat>, offers: seq<nat>, busy: set<nat>, reports: seq<nat>)
    requires Homes(place, free, offers, busy, reports, Empty) && reports != []
    ensures reports[0] < |place|
    ensures Homes(place[reports[0] := Held], free, offers, busy, reports[1..], Popped(reports[0]))
  {
    var d := reports[0];
    assert d in reports && place[d] == Reported;
    MoveOut(place, reports, Reported, Held, 0);
    assert reports[..0] + reports[1..] == reports[1..];
    MoveElsewhere(place, free, Free, d, Held);
    MoveElsewhere(place, offers, Offered, d, Held);
  }

  lemma {:induction false} PopKeeps(w: World)
    requires Inv(w) && WellFormed(w) && w.hand.Empty? && !w.booting
    ensures Inv(DoPop(w))
  {
    var l := w.link;
    NextUsedReadsFifo(l);
    assert Counters(l);
    hide RingInv, Homes, Buffers, Layout, Counters;
    if l.consumed < |l.completed| {
      PopKeepsHomes(w.place, l.q.free, l.published[l.taken..], w.busy, l.completed[l.consumed..]);
      assert l.completed[l.consumed..][1..] == l.completed[l.consumed + 1..];
      PopBuffers(w);
    }
  }

  lemma {:induction false} PopBuffers(w: World)
    requires Inv(w) && w.hand.Empty? && w.link.consumed < |w.link.completed|
    requires NextUsed(w.link.q).1.Some?
    ensures var l := w.link;
            Buffers(Consume(l).q, l.completed, l.consumed + 1, Popped(l.completed[l.consumed]), w.reported)
  {
    forall c, e | Holding(w.link.q, c, e) ensures Holding(Consume(w.link).q, c, e) {}
  }

  lemma {:induction false} ApplyKeeps(w: World)
    requires Inv(w) && WellFormed(w) && w.hand.Popped?
    ensures DoApply(w).panicked ==> w.panicked || DoApply(w) == w.(panicked := true)
    ensures Inv(DoApply(w))
  {
    hide RingInv, Lists, Layout;
    var e := EventOf(w.link.q.mem[w.link.q.descs[w.hand.id].addr]);
    assert e == w.reported[w.link.consumed - 1];
    if ApplyEvent(w.input, e).Some? {
      OneMoreUpdate(w.updates, Own(e));
      assert OwnEvents(w.updates) + [e] == w.reported[..w.link.consumed];
    }
  }

  lemma OneMoreUpdate(us: seq<Update>, u: Update)
    ensures OwnEvents(us + [u]) == OwnEvents(us) + match u { case Own(e) => [e] case _ => [] }
    ensures Replay(us).Some? ==> Replay(us + [u]) == ApplyUpdate(Replay(us).value, u)
  {
    assert (us + [u])[..|us|] == us;
  }

  lemma {:induction false} SharedStateKeeps(w: World, w': World, u: Update)
    requires Inv(w) && u.Own? == false && ApplyUpdate(w.input, u).Some?
    requires w' == w.(input := ApplyUpdate(w.input, u).value, updates := w.updates + [u])
    ensures Inv(w')
  {
    hide RingInv, Lists, Layout, Buffers, Homes;
    OneMoreUpdate(w.updates, u);
    assert OwnEvents(w.updates) + [] == OwnEvents(w.updates);
  }

  lemma {:induction false} OtherDriverKeeps(w: World, e: DeviceEvent)
    requires Inv(w) && WellFormed(w)
    ensures Inv(DoOtherDriver(w, e))
  {
    hide RingInv, Homes, Layout, Buffers, History;
    if ApplyEvent(w.input, e).Some? {
      HistoryShape(w);
      SharedStateKeeps(w, DoOtherDriver(w, e), Other(e));
    }
  }

  lemma HistoryShape(w: World)
    requires Inv(w)
    ensures w.input.Shape()
  {
  }

  lemma {:induction false} FrameLoopKeeps(w: World)
    requires Inv(w) && WellFormed(w)
    ensures Inv(DoFrameLoop(w))
  {
    hide Inv;
    SharedStateKeeps(w, DoFrameLoop(w), EndOfFrame);
  }

  lemma {:induction false} RepostKeepsHomes(place: seq<Place>, free: seq<nat>, offers: seq<nat>, busy: set<nat>,
                                            reports: seq<nat>, d: nat)
    requires Homes(place, free, offers, busy, reports, Applied(d))
    ensures d < |place| && Homes(place[d := Offered], free, offers + [d], busy, reports, Empty)
  {
    hide Lists;
    assert place[d] == Held;
    MoveIn(place, offers, Offered, d);
    MoveElsewhere(place, reports, Reported, d, Offered);
    MoveElsewhere(place, free, Free, d, Offered);
  }

  lemma {:induction false} RepostKeeps(w: World)
    requires Inv(w) && WellFormed(w) && w.hand.Applied?
    ensures Inv(DoRepost(w))
  {
    hide RingInv, Homes, Lists, Buffers, Layout;
    var l, d := w.link, w.hand.id;
    RingCounts(l);
    OfferKeepsRings(l, d);
    OfferKeepsBuffers(l, d, w.addrs, l.completed, l.consumed, w.hand, w.reported);
    RepostKeepsHomes(w.place, l.q.free, l.published[l.taken..], w.busy, l.completed[l.consumed..], d);
    assert (l.published + [d])[l.taken..] == l.published[l.taken..] + [d];
  }

  lemma RingCounts(l: Link)
    requires RingInv(l)
    ensures l.q.Shape() && l.consumed <= |l.completed| <= l.taken <= |l.published|
  {
  }

  lemma {:induction false} TakeKeepsHomes(place: seq<Place>, free: seq<nat>, offers: seq<nat>, busy: set<nat>,
                                          reports: seq<nat>, hand: Hand)
    requires Homes(place, free, offers, busy, reports, hand) && offers != []
    ensures var d := offers[0];
            && d < |place| && d !in busy
            && Homes(place[d := InDevice], free, offers[1..], busy + {d}, reports, hand)
  {
    var d := offers[0];
    assert d in offers && place[d] == Offered;
    MoveOut(place, offers, Offered, InDevice, 0);
    assert offers[..0] + offers[1..] == offers[1..];
    MoveElsewhere(place, free, Free, d, InDevice);
    MoveElsewhere(place, reports, Reported, d, InDevice);
  }

  lemma {:induction false} DeviceTakeKeeps(w: World)
    requires Inv(w) && WellFormed(w) && CanTake(w.link)
    ensures Inv(DoDeviceTake(w))
  {
    hide RingInv, Homes, Buffers, Layout;
    var l, d := w.link, TakenHead(w.link);
    TakeReadsFifo(l);
    RingCounts(l);
    TakeKeepsHomes(w.place, l.q.free, l.published[l.taken..], w.busy, l.completed[l.consumed..], w.hand);
    assert l.published[l.taken..][1..] == l.published[l.taken + 1..];
    assert |w.busy + {d}| == |w.busy| + 1;
  }

  lemma {:induction false} WriteKeepsOthers(q: Queue, q': Queue, addrs: seq<nat>, d: nat, page: Page, c: nat, e: DeviceEvent)
    requires q.Shape() && Layout(addrs, q.descs) && d < q.size && |page| == PAGE_LEN
    requires q' == q.(mem := q.mem[q.descs[d].addr := page])
    requires Holding(q, c, e) && c != d
    ensures Holding(q', c, e)
  {
    assert addrs[c] != addrs[d];
  }

  /** A buffer the device may write is not one the driver has still to read. */
  lemma {:induction false} DeviceWriteKeeps(w: World, d: nat, page: Page)
    requires Inv(w) && WellFormed(w) && d in w.busy && |page| == PAGE_LEN
    ensures Inv(DoDeviceWrite(w, d, page))
  {
    var l, q' := w.link, DoDeviceWrite(w, d, page).link.q;
    assert w.place[d] == InDevice;
    assert RingInv(l.(q := q'));
    forall j | l.consumed <= j < |l.completed| ensures l.completed[j] != d {
      assert l.completed[j] == l.completed[l.consumed..][j - l.consumed];
      assert l.completed[j] in l.completed[l.consumed..];
    }
    assert !w.hand.Empty? ==> w.hand.id != d;
    hide RingInv, Homes, Holding, Layout, Counters;
    forall j | l.consumed <= j < |l.completed| ensures Holding(q', l.completed[j], w.reported[j]) {
      WriteKeepsOthers(l.q, q', w.addrs, d, page, l.completed[j], w.reported[j]);
    }
    if w.hand.Popped? { WriteKeepsOthers(l.q, q', w.addrs, d, page, w.hand.id, w.reported[l.consumed - 1]); }
  }

  lemma {:induction false} CompleteKeepsBuffers(w: World, d: nat, len: nat)
    requires Inv(w) && WellFormed(w) && d in w.busy
    ensures var w' := DoDeviceComplete(w, d, len);
            Buffers(w'.link.q, w'.link.completed, w.link.consumed, w.hand, w'.reported)
  {
    forall c, e | Holding(w.link.q, c, e) ensures Holding(Complete(w.link, d, len).q, c, e) {}
  }

  lemma {:induction false} CompleteKeepsHomes(place: seq<Place>, free: seq<nat>, offers: seq<nat>, busy: set<nat>,
                                              reports: seq<nat>, hand: Hand, d: nat)
    requires Homes(place, free, offers, busy, reports, hand) && d in busy
    ensures d < |place| && Homes(place[d := Reported], free, offers, busy - {d}, reports + [d], hand)
  {
    assert place[d] == InDevice;
    MoveIn(place, reports, Reported, d);
    MoveElsewhere(place, free, Free, d, Reported);
    MoveElsewhere(place, offers, Offered, d, Reported);
  }

  lemma {:induction false} DeviceCompleteKeeps(w: World, d: nat, len: nat)
    requires Inv(w) && WellFormed(w) && d in w.busy
    ensures Inv(DoDeviceComplete(w, d, len))
  {
    hide RingInv, Homes, Buffers, Holding, Layout;
    assert |w.busy - {d}| == |w.busy| - 1;
    CompleteKeepsRings(w.link, d, len);
    RingCounts(w.link);
    CompleteKeepsHomes(w.place, w.link.q.free, w.link.published[w.link.taken..], w.busy, w.link.completed[w.link.consumed..], w.hand, d);
    assert (w.link.completed + [d])[w.link.consumed..] == w.link.completed[w.link.consumed..] + [d];
    CompleteKeepsBuffers(w, d, len);
    assert Layout(w.addrs, DoDeviceComplete(w, d, len).link.q.descs);
  }

  lemma {:induction false} StepKeeps(w: World, a: Action)
    requires Inv(w) && WellFormed(w) && Enabled(w, a)
    ensures Inv(Apply(w, a))
  {
    hide Inv;
    match a
    case Post => PostKeeps(w);
    case Pop => PopKeeps(w);
    case ApplyOne => ApplyKeeps(w);
    case Repost => RepostKeeps(w);
    case OtherDriver(e) => OtherDriverKeeps(w, e);
    case FrameLoop => FrameLoopKeeps(w);
    case DeviceTake => DeviceTakeKeeps(w);
    case DeviceWrite(d, page) => DeviceWriteKeeps(w, d, page);
    case DeviceComplete(d, len) => DeviceCompleteKeeps(w, d, len);
  }

  lemma {:induction false} RunKeeps(w: World, actions: seq<Action>, w': World)
    requires Inv(w) && Run(w, actions, w')
    ensures Inv(w')
    decreases |actions|
  {
    hide Inv, WellFormed;
    if actions != [] {
      StepKeeps(w, actions[0]);
      RunKeeps(Apply(w, actions[0]), actions[1..], w');
    }
  }

  // ---- What holds in every reachable state ----

  /**
    Every descriptor is free, offered, in the device, reported or in the driver's
    hand: in one of them only, and once.
   */
  lemma {:induction false} EveryDescriptorAccountedFor(w: World, actions: seq<Action>, w': World, d: nat)
    requires Start(w) && Run(w, actions, w') && d < w'.link.q.size
    ensures var l := w'.link;
            && l.taken <= |l.published| && l.consumed <= |l.completed|
            && One(d in l.q.free) + One(d in l.published[l.taken..]) + One(d in w'.busy)
               + One(d in l.completed[l.consumed..]) + One(!w'.hand.Empty? && w'.hand.id == d) == 1
            && Distinct(l.q.free) && Distinct(l.published[l.taken..]) && Distinct(l.completed[l.consumed..])
            && (!w'.booting ==> l.q.free == [])
  {
    StartInv(w);
    RunKeeps(w, actions, w');
    hide RingInv, Layout, Buffers, History;
    assert Counters(w'.link) by { assert RingInv(w'.link); }
  }

  /**
    Over every interleaving with the device, other drivers and the frame loop, the
    events this driver applied are those its device completed, in used order,
    from the first one on; the ring holds the last 64 key events of all drivers.
   */
  lemma {:induction false} InputFollowsDevice(w: World, actions: seq<Action>, w': World)
    requires Start(w) && Run(w, actions, w')
    ensures OwnEvents(w'.updates) <= w'.reported
    ensures Replay(w'.updates) == Some(w'.input)
    ensures RingHolds(w'.input, KeyLog(Merged(w'.updates)))
    ensures !w'.booting && w'.hand.Empty? && w'.link.q.Shape() && NextUsed(w'.link.q).1.None? ==> OwnEvents(w'.updates) == w'.reported
  {
    hide RingInv, Layout, Homes, NextUsed;
    StartInv(w);
    RunKeeps(w, actions, w');
    NextUsedReadsFifo(w'.link);
    RingCounts(w'.link);
    ReplayKeepsRing(w'.updates);
  }

  lemma {:induction false} ReportedGrows(w: World, actions: seq<Action>, w': World)
    requires Run(w, actions, w')
    ensures w.reported <= w'.reported
    decreases |actions|
  {
    hide WellFormed, Enabled, Apply;
    if actions != [] {
      StepReports(w, actions[0]);
      ReportedGrows(Apply(w, actions[0]), actions[1..], w');
    }
  }

  lemma StepReports(w: World, a: Action)
    requires WellFormed(w) && Enabled(w, a)
    ensures w.reported <= Apply(w, a).reported
  {
    hide WellFormed, Offer, NextUsed, ApplyEvent, StepKeys, EventOf, Take, Complete;
  }

  /** Writing an event and completing its buffer reports that event. */
  lemma {:induction false} WrittenIsReported(w: World, d: nat, page: Page, len: nat, kind: nat, code: nat, value: nat)
    requires Inv(w) && WellFormed(w) && Enabled(w, DeviceWrite(d, page)) && page[..8] == EventBytes(kind, code, value)
    requires kind < 0x1_0000 && code < 0x1_0000 && value < 0x1_0000_0000
    ensures var w1 := Apply(w, DeviceWrite(d, page));
            WellFormed(w1) && Enabled(w1, DeviceComplete(d, len)) ==>
              Apply(w1, DeviceComplete(d, len)).reported == w.reported + [DeviceEvent(kind, code, value)]
  {
    hide EventOf, Complete, Inv;
    EventReadsBack(page, kind, code, value);
  }

  /** The `u`-th update logs this key event. */
  ghost predicate LoggedAt(us: seq<Update>, u: nat, e: KeyEvent) {
    u < |us| && KeyLog(Merged(us[..u])) + [e] == KeyLog(Merged(us[..u + 1])) <= KeyLog(Merged(us))
  }

  ghost predicate Logged(us: seq<Update>, e: KeyEvent) {
    exists u :: LoggedAt(us, u, e)
  }

  lemma {:induction false} OwnEventAt(us: seq<Update>, j: nat) returns (u: nat)
    requires j < |OwnEvents(us)|
    ensures u < |us| && us[u] == Own(OwnEvents(us)[j])
  {
    var n := |us| - 1;
    if j < |OwnEvents(us[..n])| { u := OwnEventAt(us[..n], j); } else { u := n; }
  }

  lemma {:induction false} MergedGrows(us: seq<Update>, u: nat)
    requires u <= |us|
    ensures Merged(us[..u]) <= Merged(us)
  {
    if u == |us| {
      assert us[..u] == us;
    } else {
      var n := |us| - 1;
      MergedGrows(us[..n], u);
      assert us[..n][..u] == us[..u];
    }
  }

  lemma {:induction false} OwnIsLogged(us: seq<Update>, u: nat, e: DeviceEvent)
    requires u < |us| && us[u] == Own(e) && e.kind == 1
    ensures LoggedAt(us, u, KeyEvent(e.value != 0, e.code))
  {
    hide KeyLog;
    assert us[..u + 1][..u] == us[..u];
    KeyLogTakes(Merged(us[..u]), e);
    MergedGrows(us, u + 1);
    var now, all := Merged(us[..u + 1]), Merged(us);
    assert all == now + all[|now|..];
    KeyLogAppends(now, all[|now|..]);
  }

  /**
    A key event that the device writes in that layout and completes is reported as
    that key and value; once the driver has applied as many events, it is in the
    log of the shared input state, as a press unless its value is 0.
   */
  lemma {:induction false} KeyEventReachesLog(w0: World, before: seq<Action>, w: World, d: nat, page: Page, len: nat,
                                              key: nat, value: nat, after: seq<Action>, w': World)
    requires Start(w0) && Run(w0, before, w) && Run(w, [DeviceWrite(d, page), DeviceComplete(d, len)] + after, w')
    requires |page| >= 8 && page[..8] == EventBytes(1, key, value) && key < 0x1_0000 && value < 0x1_0000_0000
    ensures |w.reported| < |w'.reported| && w'.reported[|w.reported|] == DeviceEvent(1, key, value)
    ensures |w.reported| < |OwnEvents(w'.updates)| ==> Logged(w'.updates, KeyEvent(value != 0, key))
  {
    hide Start, Inv, WellFormed, Apply, Enabled, EventBytes, LoggedAt, OwnEvents;
    var actions := [DeviceWrite(d, page), DeviceComplete(d, len)] + after;
    StartInv(w0);
    RunKeeps(w0, before, w);
    WrittenIsReported(w, d, page, len, 1, key, value);
    var w1 := Apply(w, DeviceWrite(d, page));
    assert actions[1..] == [DeviceComplete(d, len)] + after && actions[1..][1..] == after;
    assert Run(w1, actions[1..], w');
    ReportedGrows(Apply(w1, DeviceComplete(d, len)), after, w');
    RunsJoin(w0, before, w, actions, w');
    InputFollowsDevice(w0, before + actions, w');
    if |w.reported| < |OwnEvents(w'.updates)| {
      var u := OwnEventAt(w'.updates, |w.reported|);
      OwnIsLogged(w'.updates, u, DeviceEvent(1, key, value));
      assert Logged(w'.updates, KeyEvent(value != 0, key));
    }
  }

  // ---- The loop, in place ----

  /** A queue over distinct pages, as `init` leaves it, and a fresh input state are where the driver starts. */
  method Boot(size: nat, addrs: seq<nat>, pages: map<nat, Page>) returns (virtio: Virtio, input: InputState, ghost w: World)
    requires 0 < size <= 256 && U16_RANGE % size == 0 && |addrs| == size
    requires forall d :: 0 <= d < size ==> addrs[d] in pages && |pages[addrs[d]]| == PAGE_LEN
    requires forall d, e :: 0 <= d < e < size ==> addrs[d] != addrs[e]
    ensures Start(w) && (w.link.q, w.input) == (virtio.View(), input.View()) && w.addrs == addrs
  {
    virtio := new Virtio(size, addrs, pages);
    input := new InputState();
    w := World(addrs, Link(virtio.View(), 0, [], 0, [], 0), Empty, Initial(), true, {}, seq(size, _ => Free), [], [], false);
  }

  /** The posting loop: every free descriptor, last one first. */
  ghost function AllPosted(q: Queue): (r: Queue)
    requires FreeInRange(q)
    ensures r.Shape() && r.free == []
    decreases |q.free|
  {
    var (q1, r) := GetFree(q);
    if r.None? then q
    else
      PostOneInRange(q);
      AllPosted(SetWritableAvailable(q1, r.value))
  }

  /** `while let Some(desc_id) = virtio.get_free_desc_id()` */
  method PostAll(virtio: Virtio)
    requires FreeInRange(virtio.View())
    modifies virtio`free, virtio`availIdx, virtio.descs, virtio.availRing
    ensures virtio.View() == AllPosted(old(virtio.View()))
  {
    hide SetWritableAvailable;
    ghost var q, all := virtio.View(), AllPosted(virtio.View());
    var r := virtio.GetFreeDescId();
    while r.Some?
      invariant FreeInRange(q)
      invariant (virtio.View(), r) == GetFree(q) && AllPosted(q) == all
      decreases |q.free|
    {
      PostOneInRange(q);
      virtio.MakeWritableAvailable(r.value);
      q := virtio.View();
      r := virtio.GetFreeDescId();
    }
  }

  /** Posting everything is a run of the protocol. */
  lemma {:induction false} PostAllIsRun(w: World) returns (actions: seq<Action>, w': World)
    requires Inv(w) && WellFormed(w) && w.booting && !w.panicked
    ensures Run(w, actions, w') && !w'.booting && w'.link.q == AllPosted(w.link.q)
    decreases |w.link.q.free|
  {
    hide Inv;
    var w1 := Apply(w, Post);
    assert Run(w1, [], w1);
    if w.link.q.free == [] {
      actions, w' := [Post], w1;
    } else {
      StepKeeps(w, Post);
      InvIsWellFormed(w1);
      var more;
      more, w' := PostAllIsRun(w1);
      actions := [Post] + more;
      assert actions[1..] == more;
    }
  }

  lemma OfferKeepsIds(q: Queue, d: nat)
    requires IdsInRange(q) && d < q.size
    ensures IdsInRange(SetWritableAvailable(q, d)) && Backlog(SetWritableAvailable(q, d)) == Backlog(q)
  {
    var q' := SetWritableAvailable(q, d);
    assert Backlog(q') == Backlog(q);
    forall i: nat | i < Backlog(q) ensures q'.usedRing[UnreadSlot(q', i)].id < q'.size {
      assert q.usedRing[UnreadSlot(q, i)].id < q.size;
    }
  }

  /** Popping a completion, applying its event and posting the descriptor again; `None` for a panic. */
  ghost function OneTurn(q: Queue, input: Snapshot): (r: Option<(Queue, Snapshot)>)
    requires IdsInRange(q) && input.Shape() && NextUsed(q).1.Some?
    ensures r.Some? ==> IdsInRange(r.value.0) && r.value.1.Shape() && Backlog(r.value.0) < Backlog(q)
  {
    BacklogShrinks(q);
    var (q1, used) := NextUsed(q);
    OfferKeepsIds(q1, used.value.id);
    match ApplyEvent(input, EventOf(q1.mem[q1.descs[used.value.id].addr]))
    case None => None
    case Some(input') => Some((SetWritableAvailable(q1, used.value.id), input'))
  }

  /** One pass of the inner loop: queue and input state once nothing is left, or `None` for a panic. */
  ghost function Drained(q: Queue, input: Snapshot): (r: Option<(Queue, Snapshot)>)
    requires IdsInRange(q) && input.Shape()
    ensures r.Some? ==> IdsInRange(r.value.0) && NextUsed(r.value.0).1.None?
    decreases Backlog(q)
  {
    if NextUsed(q).1.None? then Some((q, input))
    else
      match OneTurn(q, input)
      case None => None
      case Some((q', input')) => Drained(q', input')
  }

  /** One turn of the loop, in place, for the completion just popped from `q`. */
  method Serve(virtio: Virtio, input: InputState, used: Used, ghost q: Queue) returns (ok: bool)
    requires IdsInRange(q) && input.View().Shape() && NextUsed(q) == (virtio.View(), Some(used))
    modifies virtio`availIdx, virtio.descs, virtio.availRing, input, input.keys, input.ring
    ensures ok <==> OneTurn(q, old(input.View())).Some?
    ensures ok ==> (virtio.View(), input.View()) == OneTurn(q, old(input.View())).value
  {
    BacklogShrinks(q);
    var page := virtio.mem[virtio.descs[used.id].addr];
    ok := input.Update(EventOf(page));
    if ok { virtio.MakeWritableAvailable(used.id); }
  }

  /** `while let Some(used) = virtio.next_used()`: `false` where applying an event panics. */
  method Drain(virtio: Virtio, input: InputState) returns (ok: bool)
    requires IdsInRange(virtio.View()) && input.View().Shape()
    modifies virtio, virtio.descs, virtio.availRing, input, input.keys, input.ring
    ensures ok <==> Drained(old(virtio.View()), old(input.View())).Some?
    ensures ok ==> (virtio.View(), input.View()) == Drained(old(virtio.View()), old(input.View())).value
  {
    hide OneTurn, SetWritableAvailable, ApplyEvent;
    ghost var q, all := virtio.View(), Drained(virtio.View(), input.View());
    var used := virtio.PopUsed();
    while used.Some?
      invariant IdsInRange(q) && input.View().Shape()
      invariant (virtio.View(), used) == NextUsed(q)
      invariant Drained(q, input.View()) == all
      decreases Backlog(q)
    {
      ok := Serve(virtio, input, used.value, q);
      if !ok { return false; }
      q := virtio.View();
      used := virtio.PopUsed();
    }
    ok := true;
  }

  /** A turn of the loop that does not panic is three steps of the protocol. */
  lemma {:induction false} TurnIsRun(w: World) returns (w': World)
    requires Inv(w) && WellFormed(w) && !w.booting && w.hand.Empty? && !w.panicked
    requires IdsInRange(w.link.q) && NextUsed(w.link.q).1.Some? && OneTurn(w.link.q, w.input).Some?
    ensures WellFormed(w') && Inv(w') && !w'.booting && w'.hand.Empty? && !w'.panicked && w'.reported == w.reported
    ensures (w'.link.q, w'.input) == OneTurn(w.link.q, w.input).value
    ensures Run(w, [Pop, ApplyOne, Repost], w')
  {
    hide Inv, IdsInRange;
    var w1 := Apply(w, Pop);
    StepKeeps(w, Pop);
    InvIsWellFormed(w1);
    var w2 := Apply(w1, ApplyOne);
    StepKeeps(w1, ApplyOne);
    InvIsWellFormed(w2);
    w' := Apply(w2, Repost);
    StepKeeps(w2, Repost);
    InvIsWellFormed(w');
    RunOfThree(w, w1, w2, w');
  }

  lemma {:induction false} RunOfThree(w: World, w1: World, w2: World, w3: World)
    requires WellFormed(w) && Enabled(w, Pop) && w1 == Apply(w, Pop)
    requires WellFormed(w1) && Enabled(w1, ApplyOne) && w2 == Apply(w1, ApplyOne)
    requires WellFormed(w2) && Enabled(w2, Repost) && w3 == Apply(w2, Repost)
    ensures Run(w, [Pop, ApplyOne, Repost], w3)
  {
    hide WellFormed, Enabled, Apply;
    assert [Pop, ApplyOne, Repost][1..] == [ApplyOne, Repost];
    assert [ApplyOne, Repost][1..] == [Repost];
    assert [Repost][1..] == [];
    assert Run(w3, [], w3);
    assert Run(w2, [Repost], w3);
    assert Run(w1, [ApplyOne, Repost], w3);
  }

  lemma {:induction false} RunsJoin(w: World, first: seq<Action>, mid: World, second: seq<Action>, w': World)
    requires Run(w, first, mid) && Run(mid, second, w')
    ensures Run(w, first + second, w')
    decreases |first|
  {
    hide WellFormed, Enabled, Apply;
    if first == [] {
      assert first + second == second;
    } else {
      RunsJoin(Apply(w, first[0]), first[1..], mid, second, w');
      assert (first + second)[1..] == first[1..] + second;
    }
  }

  /** Unread completions name descriptors of the queue. */
  lemma {:induction false} CompletionsInRange(w: World)
    requires Inv(w)
    ensures IdsInRange(w.link.q) && w.input.Shape()
  {
    hide RingInv, Layout, Buffers, Lists, IdsInRange;
    RingCounts(w.link);
    var l := w.link;
    forall j | l.consumed <= j < |l.completed| ensures l.completed[j] < l.q.size {
      assert l.completed[j] == l.completed[l.consumed..][j - l.consumed];
      ListedInRange(w.place, l.completed[l.consumed..], Reported, j - l.consumed);
    }
    UnreadIsCompleted(l);
  }

  lemma ListedInRange(place: seq<Place>, xs: seq<nat>, p: Place, i: nat)
    requires Lists(place, xs, p) && i < |xs|
    ensures xs[i] < |place|
  {
    assert xs[i] in xs;
  }

  /**
    From every reachable state after start-up with nothing in hand, a pass of the loop
    that does not panic is a run of the protocol that leaves nothing to read.
   */
  lemma {:induction false} DrainIsRun(w0: World, before: seq<Action>, w: World) returns (actions: seq<Action>, w': World)
    requires Start(w0) && Run(w0, before, w) && !w.booting && w.hand.Empty? && !w.panicked
    ensures IdsInRange(w.link.q) && w.input.Shape()
    ensures Drained(w.link.q, w.input).Some? ==>
              && Run(w, actions, w') && OwnEvents(w'.updates) == w'.reported == w.reported
              && (w'.link.q, w'.input) == Drained(w.link.q, w.input).value
  {
    hide Run, Start, Inv, WellFormed, IdsInRange;
    StartInv(w0);
    RunKeeps(w0, before, w);
    InvIsWellFormed(w);
    CompletionsInRange(w);
    actions, w' := [], w;
    if Drained(w.link.q, w.input).Some? { actions, w' := PassIsRun(w); }
  }

  lemma {:induction false} PassIsRun(w: World) returns (actions: seq<Action>, w': World)
    requires Inv(w) && WellFormed(w) && !w.booting && w.hand.Empty? && !w.panicked
    requires IdsInRange(w.link.q) && Drained(w.link.q, w.input).Some?
    ensures Run(w, actions, w') && OwnEvents(w'.updates) == w'.reported == w.reported
    ensures (w'.link.q, w'.input) == Drained(w.link.q, w.input).value
    decreases Backlog(w.link.q)
  {
    if NextUsed(w.link.q).1.None? {
      NothingLeft(w);
      actions, w' := [], w;
    } else {
      hide Inv, WellFormed, Run, OneTurn;
      var w1 := TurnIsRun(w);
      var more;
      more, w' := PassIsRun(w1);
      actions := [Pop, ApplyOne, Repost] + more;
      RunsJoin(w, [Pop, ApplyOne, Repost], w1, more, w');
    }
  }

  lemma {:induction false} NothingLeft(w: World)
    requires Inv(w) && w.hand.Empty? && w.link.q.Shape() && NextUsed(w.link.q).1.None?
    ensures OwnEvents(w.updates) == w.reported
  {
    hide Homes, Layout;
    NextUsedReadsFifo(w.link);
    assert Counters(w.link);
  }
}
