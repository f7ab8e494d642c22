/**
  The split virtqueue of bootloader/kernel/src/virtio.rs.

  `Queue` is the value of the memory a driver shares with its device together
  with the driver's own fields; the functions on it are the specification of
  the methods of class `Virtio`, which works in place on arrays. `Link` adds the
  device's private indices and the unbounded history of both rings; `RingInv`
  says that the two wrapping 16-bit rings implement that history.
 */
module Virtqueue {
  import opened Arithmetic
  import opened Wrappers

  const U16_RANGE: nat := 0x1_0000
  const DESC_F_NEXT: nat := 1
  const DESC_F_WRITE: nat := 2
  const PAGE_LEN: nat := 4096

  type Page = seq<int>

  datatype Desc = Desc(addr: nat, len: nat, flags: nat, next: nat)
  datatype Used = Used(id: nat, len: nat)

  datatype Queue = Queue(
    size: nat,
    descs: seq<Desc>,
    availIdx: nat,
    availRing: seq<nat>,
    usedIdx: nat,
    usedRing: seq<Used>,
    lastUsed: nat,
    free: seq<nat>,
    mem: map<nat, Page>)
  {
    ghost predicate Shape() {
      && 0 < size
      && |descs| == |availRing| == |usedRing| == size
      && availIdx < U16_RANGE && usedIdx < U16_RANGE && lastUsed < U16_RANGE
      && forall d :: 0 <= d < size ==> descs[d].addr in mem && |mem[descs[d].addr]| == PAGE_LEN
    }
  }

  function Inc16(i: nat): nat {
    (i + 1) % U16_RANGE
  }

  // ---- The driver's operations, on values ----

  function GetFree(q: Queue): (Queue, Option<nat>) {
    if |q.free| == 0 then (q, None)
    else (q.(free := q.free[..|q.free| - 1]), Some(q.free[|q.free| - 1]))
  }

  function GetFreeTwice(q: Queue): (Queue, Option<(nat, nat)>) {
    var n := |q.free|;
    if n < 2 then (q, None)
    else (q.(free := q.free[..n - 2]), Some((q.free[n - 1], q.free[n - 2])))
  }

  function SetFree(q: Queue, d: nat): Queue {
    q.(free := q.free + [d])
  }

  function SetAvailable(q: Queue, d: nat): Queue
    requires q.Shape()
  {
    q.(availRing := q.availRing[q.availIdx % q.size := d], availIdx := Inc16(q.availIdx))
  }

  function SetWritable(q: Queue, d: nat): Queue
    requires q.Shape() && d < q.size
  {
    q.(descs := q.descs[d := q.descs[d].(flags := DESC_F_WRITE, len := PAGE_LEN)])
  }

  function SetWritableAvailable(q: Queue, d: nat): Queue
    requires q.Shape() && d < q.size
  {
    SetAvailable(SetWritable(q, d), d)
  }

  /** A value written at the start of a page leaves the rest of the page alone. */
  function Overwrite(page: Page, data: seq<int>): Page
    requires |data| <= |page|
  {
    data + page[|data|..]
  }

  function AddRequest(q: Queue, head: nat, next: nat, data: seq<int>): Queue
    requires q.Shape() && head < q.size && next < q.size && |data| <= PAGE_LEN
  {
    var d := q.descs[head];
    var q1 := q.(mem := q.mem[d.addr := Overwrite(q.mem[d.addr], data)],
                 descs := q.descs[head := Desc(d.addr, |data|, DESC_F_NEXT, next)]);
    SetAvailable(SetWritable(q1, next), head)
  }

  function NextUsed(q: Queue): (Queue, Option<Used>)
    requires q.Shape()
  {
    var i := Inc16(q.lastUsed);
    if i != q.usedIdx then (q.(lastUsed := i), Some(q.usedRing[i % q.size])) else (q, None)
  }

  /** Completions the driver has not looked at. */
  function Backlog(q: Queue): nat
    requires q.Shape()
  {
    var first := Inc16(q.lastUsed);
    if first <= q.usedIdx then q.usedIdx - first else q.usedIdx + U16_RANGE - first
  }

  /** The slot of the `i`-th of them. */
  function UnreadSlot(q: Queue, i: nat): (slot: nat)
    requires q.size > 0
    ensures slot < q.size
  {
    (q.lastUsed + 1 + i) % U16_RANGE % q.size
  }

  /** They name descriptors of this queue; slots already read, or never written, may hold anything. */
  ghost predicate IdsInRange(q: Queue) {
    q.Shape() && forall i :: 0 <= i < Backlog(q) ==> q.usedRing[UnreadSlot(q, i)].id < q.size
  }

  lemma {:induction false} NextSlots(q: Queue, i: nat)
    requires q.Shape() && NextUsed(q).1.Some?
    ensures Backlog(NextUsed(q).0) + 1 == Backlog(q)
    ensures UnreadSlot(NextUsed(q).0, i) == UnreadSlot(q, i + 1)
    ensures UnreadSlot(q, 0) == Inc16(q.lastUsed) % q.size
  {
    SumWraps(Inc16(q.lastUsed), q.lastUsed + 1, i + 1);
  }

  lemma {:induction false} BacklogShrinks(q: Queue)
    requires IdsInRange(q) && NextUsed(q).1.Some?
    ensures var q1 := NextUsed(q).0; IdsInRange(q1) && q1.size == q.size && Backlog(q1) < Backlog(q)
    ensures NextUsed(q).1.value.id < q.size
  {
    hide UnreadSlot;
    var q1 := NextUsed(q).0;
    NextSlots(q, 0);
    assert q.usedRing[UnreadSlot(q, 0)].id < q.size;
    forall i: nat | i < Backlog(q1) ensures q1.usedRing[UnreadSlot(q1, i)].id < q1.size {
      NextSlots(q, i);
      assert q.usedRing[UnreadSlot(q, i + 1)].id < q.size;
    }
  }

  lemma NothingPopped(q: Queue)
    requires q.Shape() && NextUsed(q).1.None?
    ensures NextUsed(q).0 == q
  {
  }

  ghost predicate FreeInRange(q: Queue) {
    q.Shape() && forall d :: d in q.free ==> d < q.size
  }

  lemma {:induction false} PostOneInRange(q: Queue)
    requires FreeInRange(q) && q.free != []
    ensures q.free[|q.free| - 1] < q.size
    ensures FreeInRange(SetWritableAvailable(GetFree(q).0, GetFree(q).1.value))
  {
    var q1 := GetFree(q).0;
    assert q.free[|q.free| - 1] in q.free;
    assert forall d :: d in q1.free ==> d in q.free;
    var q2 := SetWritableAvailable(q1, q.free[|q.free| - 1]);
    assert q2.free == q1.free;
  }

  // ---- The device's side: section 2.7.5 of VIRTIO 1.2 ----

  /** Bit 0 of the flags links to the next descriptor. */
  predicate HasNext(d: Desc) {
    d.flags % 2 == 1
  }

  /** Bit 1 lets the device write the buffer, and only write it. */
  predicate Writable(d: Desc) {
    d.flags / 2 % 2 == 1
  }

  /** The descriptors a device visits from `d`, for at most `fuel` links. */
  function Chain(descs: seq<Desc>, d: nat, fuel: nat): seq<nat>
    decreases fuel
  {
    if d >= |descs| then []
    else if HasNext(descs[d]) && fuel > 0 then [d] + Chain(descs, descs[d].next, fuel - 1)
    else [d]
  }

  /** Descriptor addresses never change and are pairwise distinct. */
  ghost predicate Layout(addrs: seq<nat>, descs: seq<Desc>) {
    && |addrs| == |descs|
    && (forall d :: 0 <= d < |addrs| ==> descs[d].addr == addrs[d])
    && (forall d, e :: 0 <= d < e < |addrs| ==> addrs[d] != addrs[e])
  }

  // ---- The driver's operations, in place ----

  class Virtio {
    const size: nat
    const descs: array<Desc>
    const availRing: array<nat>
    const usedRing: array<Used>
    var availIdx: nat
    var usedIdx: nat
    var lastUsed: nat
    var free: seq<nat>
    var mem: map<nat, Page>

    ghost function View(): Queue
      reads this, descs, availRing, usedRing
    {
      Queue(size, descs[..], availIdx, availRing[..], usedIdx, usedRing[..], lastUsed, free, mem)
    }

    /** The state `init` leaves: one page a descriptor, both rings empty, every descriptor free. */
    constructor (size: nat, addrs: seq<nat>, pages: map<nat, Page>)
      requires 0 < size < U16_RANGE && |addrs| == size
      requires forall d :: 0 <= d < size ==> addrs[d] in pages && |pages[addrs[d]]| == PAGE_LEN
      ensures fresh(descs) && fresh(availRing) && fresh(usedRing)
      ensures View().Shape() && this.size == size
      ensures free == seq(size, i => i)
      ensures availIdx == 0 && usedIdx == 0 && Inc16(lastUsed) == 0 && mem == pages
      ensures forall d :: 0 <= d < size ==> descs[d] == Desc(addrs[d], 4096, 2, 0xffff)
    {
      this.size := size;
      descs := new Desc[size](i requires 0 <= i < size => Desc(addrs[i], PAGE_LEN, DESC_F_WRITE, 0xffff));
      availRing := new nat[size](_ => 0);
      usedRing := new Used[size](_ => Used(0, 0));
      availIdx, usedIdx, lastUsed := 0, 0, 0xffff;
      mem := pages;
      free := [];
      new;
      for i := 0 to size
        invariant free == seq(i, k => k)
        invariant View() == Queue(size, descs[..], 0, availRing[..], 0, usedRing[..], 0xffff, free, pages)
        invariant forall d :: 0 <= d < size ==> descs[d] == Desc(addrs[d], PAGE_LEN, DESC_F_WRITE, 0xffff)
      {
        free := free + [i];
      }
    }

    method GetFreeDescId() returns (r: Option<nat>)
      modifies this`free
      ensures (View(), r) == GetFree(old(View()))
      ensures r.None? <==> old(free) == []
      ensures old(free) == if r.None? then free else free + [r.value]
    {
      if |free| == 0 { return None; }
      r := Some(free[|free| - 1]);
      free := free[..|free| - 1];
    }

    method GetFreeTwiceDescId() returns (r: Option<(nat, nat)>)
      modifies this`free
      ensures (View(), r) == GetFreeTwice(old(View()))
      ensures r.None? <==> |old(free)| < 2
      ensures old(free) == if r.None? then free else free + [r.value.1, r.value.0]
    {
      if |free| < 2 { return None; }
      var first := free[|free| - 1];
      free := free[..|free| - 1];
      var second := free[|free| - 1];
      free := free[..|free| - 1];
      assert free == old(free)[..|old(free)| - 2];
      r := Some((first, second));
    }

    method SetFreeDescId(d: nat)
      modifies this`free
      ensures View() == SetFree(old(View()), d) && free == old(free) + [d]
    {
      free := free + [d];
    }

    method MakeAvailable(d: nat)
      requires View().Shape()
      modifies this`availIdx, availRing
      ensures View() == SetAvailable(old(View()), d)
      ensures availRing[..] == old(availRing[..])[old(availIdx) % size := d] && availIdx == (old(availIdx) + 1) % 0x1_0000
    {
      availRing[availIdx % size] := d;
      availIdx := Inc16(availIdx);
    }

    method MakeWritable(d: nat)
      requires View().Shape() && d < size
      modifies descs
      ensures View() == SetWritable(old(View()), d)
      ensures descs[..] == old(descs[..])[d := old(descs[d]).(flags := 2, len := 4096)]
    {
      descs[d] := descs[d].(flags := DESC_F_WRITE, len := PAGE_LEN);
    }

    method MakeWritableAvailable(d: nat)
      requires View().Shape() && d < size
      modifies this`availIdx, descs, availRing
      ensures View() == SetWritableAvailable(old(View()), d)
    {
      MakeWritable(d);
      MakeAvailable(d);
    }

    method PublishRequest(head: nat, next: nat, data: seq<int>)
      requires View().Shape() && head < size && next < size && |data| <= PAGE_LEN
      modifies this`availIdx, this`mem, descs, availRing
      ensures View() == AddRequest(old(View()), head, next, data)
      ensures head != next ==>
                && descs[head] == Desc(old(descs[head].addr), |data|, 1, next)
                && descs[next] == old(descs[next]).(flags := 2, len := 4096)
      ensures var addr := old(descs[head].addr); mem == old(mem)[addr := data + old(mem)[addr][|data|..]]
      ensures availRing[..] == old(availRing[..])[old(availIdx) % size := head]
    {
      var desc := descs[head];
      mem := mem[desc.addr := Overwrite(mem[desc.addr], data)];
      descs[head] := Desc(desc.addr, |data|, DESC_F_NEXT, next);
      MakeWritable(next);
      MakeAvailable(head);
    }

    method PopUsed() returns (r: Option<Used>)
      requires View().Shape()
      modifies this`lastUsed
      ensures (View(), r) == NextUsed(old(View()))
      ensures r.None? <==> (old(lastUsed) + 1) % 0x1_0000 == usedIdx
      ensures lastUsed == if r.None? then old(lastUsed) else (old(lastUsed) + 1) % 0x1_0000
      ensures r.Some? ==> r.value == usedRing[lastUsed % size]
    {
      if Inc16(lastUsed) != usedIdx {
        lastUsed := Inc16(lastUsed);
        r := Some(usedRing[lastUsed % size]);
      } else {
        r := None;
      }
    }
  }

  // ---- Wrapping indices ----

  /** A 16-bit counter names the same ring slot as the unbounded counter exactly when the size divides 2^16. */
  lemma {:induction false} WrapNamesSlot(size: nat)
    requires size > 0
    ensures (forall a: nat :: (a % U16_RANGE) % size == a % size) <==> U16_RANGE % size == 0
  {
    if U16_RANGE % size == 0 {
      forall a: nat ensures (a % U16_RANGE) % size == a % size { WrappedSlot(a, size); }
    } else {
      var a: nat := U16_RANGE;
      assert (a % U16_RANGE) % size == 0 != a % size;
    }
  }

  lemma {:induction false} WrappedSlot(a: nat, size: nat)
    requires size > 0 && U16_RANGE % size == 0
    ensures (a % U16_RANGE) % size == a % size
  {
    var w := a % U16_RANGE;
    var t, c := a / U16_RANGE, U16_RANGE / size;
    var k, r := w / size, w % size;
    assert U16_RANGE == c * size;
    assert a == t * (c * size) + k * size + r;
    assert t * (c * size) == (t * c) * size;
    assert a == (t * c + k) * size + r;
    DivisionUnique(a, size, t * c + k, r);
  }

  lemma IncCounter(a: nat)
    ensures Inc16(a % U16_RANGE) == (a + 1) % U16_RANGE
  {
  }

  /** Two counters less than 2^16 apart are equal exactly when their 16-bit values are. */
  lemma {:induction false} CountersMeet(a: nat, b: nat)
    requires a <= b < a + U16_RANGE
    ensures a % U16_RANGE == b % U16_RANGE <==> a == b
  {
    if a != b { SlotsDiffer(a, b, U16_RANGE); }
  }

  // ---- Both rings against their unbounded history ----

  /**
    `published` and `completed` are every head ever made available and every
    head ever reported used, in order; the first `taken` published heads have
    been read by the device and the first `consumed` completions by the driver.
   */
  datatype Link = Link(
    q: Queue,
    devAvail: nat,
    published: seq<nat>,
    taken: nat,
    completed: seq<nat>,
    consumed: nat)

  ghost predicate Counters(l: Link) {
    && l.q.availIdx == |l.published| % U16_RANGE
    && l.devAvail == l.taken % U16_RANGE
    && l.q.usedIdx == |l.completed| % U16_RANGE
    && Inc16(l.q.lastUsed) == l.consumed % U16_RANGE
    && l.consumed <= |l.completed| <= l.taken <= |l.published|
    && |l.published| - l.consumed <= l.q.size
  }

  ghost predicate RingInv(l: Link) {
    && l.q.Shape() && l.q.size <= 256 && U16_RANGE % l.q.size == 0
    && Counters(l)
    && (forall i :: l.taken <= i < |l.published| ==> l.q.availRing[i % l.q.size] == l.published[i])
    && (forall i :: l.consumed <= i < |l.completed| ==> l.q.usedRing[i % l.q.size].id == l.completed[i])
  }

  function Publish(l: Link, d: nat): Link
    requires l.q.Shape()
  {
    l.(q := SetAvailable(l.q, d), published := l.published + [d])
  }

  predicate CanTake(l: Link) {
    l.devAvail != l.q.availIdx
  }

  function TakenHead(l: Link): nat
    requires l.q.Shape()
  {
    l.q.availRing[l.devAvail % l.q.size]
  }

  /** The device reads the next available head (section 2.7.13 of VIRTIO 1.2). */
  function Take(l: Link): Link {
    l.(devAvail := Inc16(l.devAvail), taken := l.taken + 1)
  }

  /** The device reports a head in the used ring (section 2.7.8 of VIRTIO 1.2). */
  function Complete(l: Link, head: nat, len: nat): Link
    requires l.q.Shape()
  {
    l.(q := l.q.(usedRing := l.q.usedRing[l.q.usedIdx % l.q.size := Used(head, len)],
                 usedIdx := Inc16(l.q.usedIdx)),
       completed := l.completed + [head])
  }

  function Consume(l: Link): Link
    requires l.q.Shape()
  {
    var (q', r) := NextUsed(l.q);
    if r.None? then l else l.(q := q', consumed := l.consumed + 1)
  }

  lemma {:induction false} PublishKeepsRings(l: Link, d: nat)
    requires RingInv(l) && |l.published| - l.consumed < l.q.size
    ensures RingInv(Publish(l, d))
  {
    var l' := Publish(l, d);
    var n := |l.published|;
    WrappedSlot(n, l.q.size);
    IncCounter(n);
    forall i | l'.taken <= i < |l'.published|
      ensures l'.q.availRing[i % l'.q.size] == l'.published[i]
    {
      if i < n { SlotsDiffer(i, n, l.q.size); }
    }
  }

  /** The device sees a head exactly when one is outstanding, and then the oldest one. */
  lemma {:induction false} TakeReadsFifo(l: Link)
    requires RingInv(l)
    ensures CanTake(l) <==> l.taken < |l.published|
    ensures CanTake(l) ==> TakenHead(l) == l.published[l.taken] && RingInv(Take(l))
  {
    CountersMeet(l.taken, |l.published|);
    WrappedSlot(l.taken, l.q.size);
    IncCounter(l.taken);
  }

  lemma {:induction false} CompleteKeepsRings(l: Link, head: nat, len: nat)
    requires RingInv(l) && |l.completed| < l.taken
    ensures RingInv(Complete(l, head, len))
  {
    var l' := Complete(l, head, len);
    var n := |l.completed|;
    WrappedSlot(n, l.q.size);
    IncCounter(n);
    forall i | l'.consumed <= i < |l'.completed|
      ensures l'.q.usedRing[i % l'.q.size].id == l'.completed[i]
    {
      if i < n { SlotsDiffer(i, n, l.q.size); }
    }
  }

  /** `next_used` answers exactly when a completion is outstanding, and then with the oldest one. */
  lemma {:induction false} NextUsedReadsFifo(l: Link)
    requires RingInv(l)
    ensures NextUsed(l.q).1.Some? <==> l.consumed < |l.completed|
    ensures l.consumed < |l.completed| ==> NextUsed(l.q).1.value.id == l.completed[l.consumed]
    ensures RingInv(Consume(l))
  {
    CountersMeet(l.consumed, |l.completed|);
    WrappedSlot(l.consumed, l.q.size);
    IncCounter(l.consumed);
  }

  /** In a link whose rings implement their history, the unread slots hold the completions not consumed. */
  lemma {:induction false} UnreadIsCompleted(l: Link)
    requires RingInv(l) && forall j :: l.consumed <= j < |l.completed| ==> l.completed[j] < l.q.size
    ensures IdsInRange(l.q) && Backlog(l.q) == |l.completed| - l.consumed
  {
    BacklogCounts(l);
    forall i: nat | i < Backlog(l.q) ensures l.q.usedRing[UnreadSlot(l.q, i)].id < l.q.size {
      UnreadSlotOf(l, i);
      assert l.q.usedRing[(l.consumed + i) % l.q.size].id == l.completed[l.consumed + i];
    }
  }

  lemma {:induction false} BacklogCounts(l: Link)
    requires RingInv(l)
    ensures Backlog(l.q) == |l.completed| - l.consumed
  {
    var c, n := l.consumed, |l.completed| - l.consumed;
    assert n <= 256;
    var k, r := c / U16_RANGE, c % U16_RANGE;
    if r + n < U16_RANGE {
      DivisionUnique(c + n, U16_RANGE, k, r + n);
    } else {
      DivisionUnique(c + n, U16_RANGE, k + 1, r + n - U16_RANGE);
    }
  }

  lemma {:induction false} UnreadSlotOf(l: Link, i: nat)
    requires RingInv(l)
    ensures UnreadSlot(l.q, i) == (l.consumed + i) % l.q.size
  {
    WrappedSlot(l.consumed + i, l.q.size);
    SumWraps(l.q.lastUsed + 1, l.consumed, i);
  }

  lemma {:induction false} SumWraps(a: nat, b: nat, i: nat)
    requires a % U16_RANGE == b % U16_RANGE
    ensures (a + i) % U16_RANGE == (b + i) % U16_RANGE
  {
    var m := a % U16_RANGE + i;
    DivisionUnique(a + i, U16_RANGE, a / U16_RANGE + m / U16_RANGE, m % U16_RANGE);
    DivisionUnique(b + i, U16_RANGE, b / U16_RANGE + m / U16_RANGE, m % U16_RANGE);
  }

  /** What the program sees of two unbounded FIFO queues. */
  ghost predicate FifoView(l: Link) {
    && l.q.Shape() && Counters(l)
    && (CanTake(l) <==> l.taken < |l.published|)
    && (CanTake(l) ==> TakenHead(l) == l.published[l.taken])
    && (NextUsed(l.q).1.Some? <==> l.consumed < |l.completed|)
    && (l.consumed < |l.completed| ==> NextUsed(l.q).1.value.id == l.completed[l.consumed])
  }

  lemma {:induction false} RingsAreFifo(l: Link)
    requires RingInv(l)
    ensures FifoView(l)
  {
    TakeReadsFifo(l);
    NextUsedReadsFifo(l);
  }
}
