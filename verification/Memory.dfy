/**
  Physical frames: the read-ahead allocator of bootloader/kernel/src/memory.rs and
  its clients in main.rs, allocator.rs and virtio.rs.
 */
module Memory {
  import opened Finite
  import opened Wrappers

  const PAGE_SIZE: nat := 4096
  const BUFFER_SIZE_ADVANCE: nat := 32

  datatype Region = Region(start: nat, end: nat, usable: bool)

  // ---- Usable frames ----

  /** `PhysFrame::containing_address` */
  function AlignDown(a: nat): nat {
    a - a % PAGE_SIZE
  }

  function RangeFrames(start: nat, end: nat): seq<nat>
    decreases if start < end then end - start else 0
  {
    if start < end then [AlignDown(start)] + RangeFrames(start + PAGE_SIZE, end) else []
  }

  function UsableFrames(regions: seq<Region>): seq<nat> {
    if regions == [] then []
    else (if regions[0].usable then RangeFrames(regions[0].start, regions[0].end) else []) + UsableFrames(regions[1..])
  }

  predicate InRegion(r: Region, a: nat) {
    r.usable && r.start <= a < r.end
  }

  ghost predicate InSome(regions: seq<Region>, a: nat) {
    exists r :: r in regions && InRegion(r, a)
  }

  predicate Aligned(r: Region) {
    r.usable ==> r.start % PAGE_SIZE == 0
  }

  /** What the boot loader promises of its memory map. */
  ghost predicate Disjoint(regions: seq<Region>) {
    && (forall r :: r in regions ==> Aligned(r))
    && (forall i, j, a :: 0 <= i < j < |regions| && InRegion(regions[i], a) ==> !InRegion(regions[j], a))
  }

  /** A region's frames count up page by page from the page of its start, to the last one that begins before its end. */
  lemma {:induction false} RangeFramesAscend(start: nat, end: nat, i: nat)
    ensures |RangeFrames(start, end)| == if start < end then (end - start + 4095) / 4096 else 0
    ensures i < |RangeFrames(start, end)| ==> RangeFrames(start, end)[i] == start - start % 4096 + i * 4096
    decreases if start < end then end - start else 0
  {
    if start < end { RangeFramesAscend(start + PAGE_SIZE, end, if i > 0 then i - 1 else 0); }
  }

  /** How many frames the regions before the `r`-th offer. */
  function OffersBefore(regions: seq<Region>, r: nat): nat
    requires r <= |regions|
  {
    |UsableFrames(regions[..r])|
  }

  lemma {:induction false} UsableFramesJoin(a: seq<Region>, b: seq<Region>)
    ensures UsableFrames(a + b) == UsableFrames(a) + UsableFrames(b)
  {
    if a == [] {
      assert a + b == b;
    } else {
      assert (a + b)[1..] == a[1..] + b;
      UsableFramesJoin(a[1..], b);
    }
  }

  /** Regions are served in the order of the map, each from its start upward; unusable ones offer nothing. */
  lemma {:induction false} UsableFramesInOrder(regions: seq<Region>, r: nat, i: nat)
    requires r < |regions|
    ensures !regions[r].usable ==> OffersBefore(regions, r + 1) == OffersBefore(regions, r)
    ensures regions[r].usable ==>
              var start, end := regions[r].start, regions[r].end;
              && OffersBefore(regions, r + 1) == OffersBefore(regions, r) + (if start < end then (end - start + 4095) / 4096 else 0)
              && (start + i * 4096 < end ==>
                    && OffersBefore(regions, r) + i < |UsableFrames(regions)|
                    && UsableFrames(regions)[OffersBefore(regions, r) + i] == start - start % 4096 + i * 4096)
  {
    var q := regions[r];
    var own := if q.usable then RangeFrames(q.start, q.end) else [];
    assert regions == regions[..r] + ([q] + regions[r + 1..]) && regions[..r + 1] == regions[..r] + [q];
    UsableFramesJoin(regions[..r], [q] + regions[r + 1..]);
    UsableFramesJoin(regions[..r], [q]);
    assert UsableFrames([q]) == own && UsableFrames([q] + regions[r + 1..]) == own + UsableFrames(regions[r + 1..]);
    if q.usable { RangeFramesAscend(q.start, q.end, i); }
  }

  lemma {:induction false} RangeFramesExact(start: nat, end: nat, f: nat)
    requires start % PAGE_SIZE == 0
    ensures f in RangeFrames(start, end) <==> f % PAGE_SIZE == 0 && start <= f < end
    decreases if start < end then end - start else 0
  {
    if start < end { RangeFramesExact(start + PAGE_SIZE, end, f); }
  }

  lemma {:induction false} RangeFramesDistinct(start: nat, end: nat)
    requires start % PAGE_SIZE == 0
    ensures Distinct(RangeFrames(start, end))
    decreases if start < end then end - start else 0
  {
    if start < end {
      RangeFramesDistinct(start + PAGE_SIZE, end);
      RangeFramesExact(start + PAGE_SIZE, end, start);
    }
  }

  /** The frames on offer are exactly the page-aligned addresses of usable regions. */
  lemma {:induction false} UsableFramesExact(regions: seq<Region>, f: nat)
    requires forall r :: r in regions ==> Aligned(r)
    ensures f in UsableFrames(regions) <==> f % PAGE_SIZE == 0 && InSome(regions, f)
  {
    if regions != [] {
      var r, rest := regions[0], regions[1..];
      assert r in regions && regions == [r] + rest;
      UsableFramesExact(rest, f);
      if r.usable { RangeFramesExact(r.start, r.end, f); }
      assert InSome(regions, f) <==> InRegion(r, f) || InSome(rest, f);
    }
  }

  lemma {:induction false} UsableFramesDistinct(regions: seq<Region>)
    requires Disjoint(regions)
    ensures Distinct(UsableFrames(regions))
  {
    if regions != [] {
      var r, rest := regions[0], regions[1..];
      assert r in regions && forall i :: 0 <= i < |rest| ==> rest[i] == regions[i + 1];
      UsableFramesDistinct(rest);
      var xs := if r.usable then RangeFrames(r.start, r.end) else [];
      if r.usable { RangeFramesDistinct(r.start, r.end); }
      forall f | f in xs ensures f !in UsableFrames(rest) {
        RangeFramesExact(r.start, r.end, f);
        UsableFramesExact(rest, f);
        forall q | q in rest ensures !InRegion(q, f) {
          var j :| 0 <= j < |rest| && rest[j] == q;
          assert InRegion(regions[0], f) ==> !InRegion(regions[j + 1], f);
        }
      }
      JoinDistinct(xs, UsableFrames(rest));
    }
  }

  lemma JoinDistinct(xs: seq<nat>, ys: seq<nat>)
    requires Distinct(xs) && Distinct(ys) && forall x :: x in xs ==> x !in ys
    ensures Distinct(xs + ys)
  {
    forall i, j | 0 <= i < j < |xs + ys| ensures (xs + ys)[i] != (xs + ys)[j] {
      if i < |xs| <= j { assert xs[i] in xs && ys[j - |xs|] in ys; }
    }
  }

  predicate FrameInside(f: nat, start: nat, end: nat) {
    start <= f && f + PAGE_SIZE <= end
  }

  /** Every frame handed out for a region lies wholly inside it exactly when both ends of the region are aligned. */
  lemma {:induction false} WholeFramesInside(start: nat, end: nat)
    requires start < end
    ensures (forall f :: f in RangeFrames(start, end) ==> FrameInside(f, start, end))
            <==> start % PAGE_SIZE == 0 && end % PAGE_SIZE == 0
  {
    if start % PAGE_SIZE == 0 {
      var last := AlignDown(end - 1);
      RangeFramesExact(start, end, last);
      assert FrameInside(last, start, end) <==> end % PAGE_SIZE == 0;
      forall f | f in RangeFrames(start, end) && end % PAGE_SIZE == 0 ensures FrameInside(f, start, end) {
        RangeFramesExact(start, end, f);
      }
    } else {
      assert AlignDown(start) in RangeFrames(start, end) && !FrameInside(AlignDown(start), start, end);
    }
  }

  // ---- The allocator, on values ----

  datatype Alloc = Alloc(next: nat, buf: seq<nat>)

  const FRESH: Alloc := Alloc(1, [])

  function Min(a: nat, b: nat): nat {
    if a < b then a else b
  }

  function Reverse(xs: seq<nat>): (r: seq<nat>)
    ensures |r| == |xs|
  {
    if xs == [] then [] else Reverse(xs[1..]) + [xs[0]]
  }

  lemma {:induction false} ReverseAt(xs: seq<nat>, i: nat)
    requires i < |xs|
    ensures Reverse(xs)[i] == xs[|xs| - 1 - i]
  {
    if i < |xs| - 1 { ReverseAt(xs[1..], i); }
  }

  function Refill(frames: seq<nat>, a: Alloc): Alloc
    requires a.next >= 1
  {
    var lo := Min(a.next - 1, |frames|);
    var hi := Min(lo + BUFFER_SIZE_ADVANCE, |frames|);
    Alloc(a.next + BUFFER_SIZE_ADVANCE, Reverse(frames[lo..hi]))
  }

  /** A refill reads the next 32 frames, or all that are left, and keeps the first of them last. */
  lemma {:induction false} RefillHolds(frames: seq<nat>, a: Alloc)
    requires a.next >= 1
    ensures var a' := Refill(frames, a);
            && a'.next == a.next + 32 && |a'.buf| == Min(32, |frames| - Min(a.next - 1, |frames|))
            && forall i :: 0 <= i < |a'.buf| ==> a'.buf[i] == frames[a.next - 1 + (|a'.buf| - 1 - i)]
  {
    var lo := Min(a.next - 1, |frames|);
    var ahead := frames[lo..Min(lo + BUFFER_SIZE_ADVANCE, |frames|)];
    forall i | 0 <= i < |ahead| ensures Reverse(ahead)[i] == ahead[|ahead| - 1 - i] { ReverseAt(ahead, i); }
  }

  function Allocate(frames: seq<nat>, a: Alloc): (Alloc, Option<nat>)
    requires a.next >= 1
  {
    var a := if a.buf == [] then Refill(frames, a) else a;
    if a.buf == [] then (a, None) else (a.(buf := a.buf[..|a.buf| - 1]), Some(a.buf[|a.buf| - 1]))
  }

  /** How many frames have been handed out. */
  function Handed(frames: seq<nat>, a: Alloc): int
    requires a.next >= 1
  {
    Min(a.next - 1, |frames|) - |a.buf|
  }

  /** The buffer holds the next frames, last one first. */
  ghost predicate Buffered(frames: seq<nat>, a: Alloc) {
    && a.next >= 1 && |a.buf| <= BUFFER_SIZE_ADVANCE && Handed(frames, a) >= 0
    && a.buf == Reverse(frames[Handed(frames, a)..Min(a.next - 1, |frames|)])
  }

  function Nth(frames: seq<nat>, k: nat): Option<nat> {
    if k < |frames| then Some(frames[k]) else None
  }

  /** One call hands out the next frame, whether or not the buffer had to be refilled. */
  lemma {:induction false} AllocateNext(frames: seq<nat>, a: Alloc)
    requires Buffered(frames, a)
    ensures var (a', r) := Allocate(frames, a);
            && Buffered(frames, a') && r == Nth(frames, Handed(frames, a))
            && Handed(frames, a') == Min(Handed(frames, a) + 1, |frames|)
  {
    if a.buf == [] {
      RefillBuffered(frames, a);
      if Refill(frames, a).buf != [] { PopBuffered(frames, Refill(frames, a)); }
    } else {
      PopBuffered(frames, a);
    }
  }

  lemma RefillBuffered(frames: seq<nat>, a: Alloc)
    requires Buffered(frames, a) && a.buf == []
    ensures Buffered(frames, Refill(frames, a)) && Handed(frames, Refill(frames, a)) == Handed(frames, a)
    ensures Refill(frames, a).buf == [] <==> Handed(frames, a) == |frames|
  {
    var a' := Refill(frames, a);
    var lo := Min(a.next - 1, |frames|);
    var hi := Min(lo + BUFFER_SIZE_ADVANCE, |frames|);
    assert Min(a'.next - 1, |frames|) == hi && Handed(frames, a') == lo;
  }

  lemma PopBuffered(frames: seq<nat>, a: Alloc)
    requires Buffered(frames, a) && a.buf != []
    ensures var a' := a.(buf := a.buf[..|a.buf| - 1]);
            && Buffered(frames, a') && Handed(frames, a') == Handed(frames, a) + 1
            && Handed(frames, a) < |frames| && a.buf[|a.buf| - 1] == frames[Handed(frames, a)]
  {
    var h, hi := Handed(frames, a), Min(a.next - 1, |frames|);
    assert frames[h..hi][1..] == frames[h + 1..hi];
  }

  function Calls(frames: seq<nat>, a: Alloc, k: nat): seq<Option<nat>>
    requires a.next >= 1
    decreases k
  {
    if k == 0 then [] else var (a', r) := Allocate(frames, a); [r] + Calls(frames, a', k - 1)
  }

  /** The one-frame-a-call version: the frame at `next`, counting up. */
  function SimpleCalls(frames: seq<nat>, next: nat, k: nat): seq<Option<nat>>
    decreases k
  {
    if k == 0 then [] else [Nth(frames, next)] + SimpleCalls(frames, next + 1, k - 1)
  }

  lemma {:induction false} CallsFrom(frames: seq<nat>, a: Alloc, k: nat, next: nat)
    requires Buffered(frames, a) && Handed(frames, a) == Min(next, |frames|)
    ensures Calls(frames, a, k) == SimpleCalls(frames, next, k)
    decreases k
  {
    if k > 0 {
      AllocateNext(frames, a);
      CallsFrom(frames, Allocate(frames, a).0, k - 1, next + 1);
    }
  }

  lemma {:induction false} SimpleCallsAt(frames: seq<nat>, next: nat, k: nat, i: nat)
    requires i < k
    ensures |SimpleCalls(frames, next, k)| == k && SimpleCalls(frames, next, k)[i] == Nth(frames, next + i)
    decreases k
  {
    if k > 1 { SimpleCallsAt(frames, next + 1, k - 1, if i > 0 then i - 1 else 0); }
  }

  /** For any number of calls, the k-th answer is the k-th usable frame, and `None` from then on. */
  lemma {:induction false} BufferedIsSimple(frames: seq<nat>, k: nat, i: nat)
    requires i < k
    ensures Calls(frames, FRESH, k) == SimpleCalls(frames, 0, k)
    ensures |Calls(frames, FRESH, k)| == k && Calls(frames, FRESH, k)[i] == Nth(frames, i)
  {
    assert frames[0..0] == [];
    CallsFrom(frames, FRESH, k, 0);
    SimpleCallsAt(frames, 0, k, i);
  }

  /** The version left in a comment starts from the same `next`, 1, and so would answer one frame late. */
  lemma {:induction false} CommentedVersionSkipsFirst(frames: seq<nat>, k: nat, i: nat)
    requires i < k
    ensures |SimpleCalls(frames, FRESH.next, k)| == k && |Calls(frames, FRESH, k + 1)| == k + 1
    ensures SimpleCalls(frames, FRESH.next, k)[i] == Calls(frames, FRESH, k + 1)[i + 1]
    ensures Distinct(frames) ==> (SimpleCalls(frames, FRESH.next, k)[i] == Calls(frames, FRESH, k + 1)[i] <==> i >= |frames|)
  {
    SimpleCallsAt(frames, 1, k, i);
    BufferedIsSimple(frames, k + 1, i + 1);
    BufferedIsSimple(frames, k + 1, i);
  }

  // ---- The allocator, in place ----

  class BootInfoFrameAllocator {
    const memoryMap: seq<Region>
    var next: nat
    var buf: seq<nat>

    ghost function View(): Alloc
      reads this
    {
      Alloc(next, buf)
    }

    ghost function Frames(): seq<nat> {
      UsableFrames(memoryMap)
    }

    ghost predicate Valid()
      reads this
    {
      Buffered(Frames(), View())
    }

    /** The frames handed out so far, in order. */
    ghost function Taken(): seq<nat>
      reads this
      requires Valid()
    {
      Frames()[..Handed(Frames(), View())]
    }

    constructor (memoryMap: seq<Region>)
      ensures Valid() && View() == FRESH && this.memoryMap == memoryMap && Taken() == []
    {
      this.memoryMap := memoryMap;
      next, buf := 1, [];
      new;
      assert UsableFrames(memoryMap)[0..0] == [];
    }

    method FillBuffer()
      requires next >= 1 && buf == []
      modifies this
      ensures View() == Refill(Frames(), old(View()))
      ensures next == old(next) + 32 && |buf| == Min(32, |Frames()| - Min(old(next) - 1, |Frames()|))
      ensures forall i :: 0 <= i < |buf| ==> buf[i] == Frames()[old(next) - 1 + (|buf| - 1 - i)]
    {
      hide Reverse, UsableFrames;
      RefillHolds(Frames(), View());
      var frames := UsableFrames(memoryMap);
      var lo := Min(next - 1, |frames|);
      var hi := Min(lo + BUFFER_SIZE_ADVANCE, |frames|);
      for i := lo to hi
        invariant buf == frames[lo..i] && next == old(next)
      {
        buf := buf + [frames[i]];
      }
      buf := Reverse(buf);
      next := next + BUFFER_SIZE_ADVANCE;
    }

    method AllocateFrame() returns (r: Option<nat>)
      requires Valid()
      modifies this
      ensures Valid() && (View(), r) == Allocate(Frames(), old(View()))
      ensures r == if |old(Taken())| < |Frames()| then Some(Frames()[|old(Taken())|]) else None
      ensures r.Some? ==> Taken() == old(Taken()) + [r.value]
      ensures r.None? ==> Taken() == old(Taken()) == Frames()
    {
      AllocateNext(Frames(), View());
      TakenGrows(Frames(), Handed(Frames(), View()));
      if |buf| == 0 { FillBuffer(); }
      if |buf| == 0 {
        r := None;
      } else {
        r := Some(buf[|buf| - 1]);
        buf := buf[..|buf| - 1];
      }
    }
  }

  lemma TakenGrows(frames: seq<nat>, h: nat)
    requires h <= |frames|
    ensures h < |frames| ==> frames[..h + 1] == frames[..h] + [frames[h]]
    ensures h == |frames| ==> frames[..h] == frames
  {
  }
}
