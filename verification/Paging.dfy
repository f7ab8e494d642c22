/**
  Who owns which frame: page mapping, the identity-mapping helpers of
  bootloader/kernel/src/main.rs, the heap of allocator.rs and the queue pages of
  virtio.rs. The mapper is a table of entries, one for each page and one for each
  intermediate page table, and each entry holds one frame.
 */
module Paging {
  import opened Finite
  import opened Wrappers
  import opened Memory

  const HEAP_START: nat := 0x4444_4444_0000
  const HEAP_SIZE: nat := 128 * 1024 * 1024

  datatype Entry = Leaf(page: nat) | Table(level: nat, prefix: nat)

  datatype MapResult = Mapped | AlreadyMapped | NoFrame | Panicked

  /**
    No frame has two owners: entries hold pairwise different frames, all of them
    handed out by the allocator, and none that a caller still holds.
   */
  ghost predicate Exclusive(entries: map<Entry, nat>, held: set<nat>, taken: seq<nat>) {
    && (forall e, f :: e in entries && f in entries && e != f ==> entries[e] != entries[f])
    && (forall e :: e in entries ==> entries[e] in taken && entries[e] !in held)
    && (forall h :: h in held ==> h in taken)
  }

  /** The pages of the heap. */
  const HEAP_PAGES: nat := (HEAP_START + HEAP_SIZE - 1) / PAGE_SIZE + 1 - HEAP_START / PAGE_SIZE

  /** The address `i` pages after `start`. */
  function PageAt(start: nat, i: nat): (a: nat)
    ensures start % PAGE_SIZE == 0 ==> a % PAGE_SIZE == 0
  {
    start + i * PAGE_SIZE
  }

  ghost predicate SameLeaves(before: map<Entry, nat>, after: map<Entry, nat>) {
    forall p :: Leaf(p) in before ==> Leaf(p) in after && after[Leaf(p)] == before[Leaf(p)]
  }

  // ---- What a mapping needs ----

  function Lacks(keys: set<Entry>, e: Entry): nat {
    if e in keys then 0 else 1
  }

  /** The intermediate tables of a page. */
  function Tables(page: nat): set<Entry> {
    {Table(3, page / 0x800_0000), Table(2, page / 0x4_0000), Table(1, page / 0x200)}
  }

  /** One table for each 2 MiB, 1 GiB and 512 GiB of addresses. */
  lemma TablesOfAddress(a: nat)
    ensures Tables(a / 4096) == {Table(1, a / 0x20_0000), Table(2, a / 0x4000_0000), Table(3, a / 0x80_0000_0000)}
  {
  }

  /** How many of them are still to be made. */
  function Missing(keys: set<Entry>, page: nat): nat {
    Lacks(keys, Table(3, page / 0x800_0000)) + Lacks(keys, Table(2, page / 0x4_0000)) + Lacks(keys, Table(1, page / 0x200))
  }

  /** The tables of the first `n` pages from `start`, and how many of those are still to be made. */
  function TablesOf(start: nat, n: nat): set<Entry> {
    if n == 0 then {} else TablesOf(start, n - 1) + Tables(PageAt(start, n - 1) / PAGE_SIZE)
  }

  function MissingRun(keys: set<Entry>, start: nat, n: nat): nat {
    if n == 0 then 0
    else MissingRun(keys, start, n - 1) + Missing(keys + TablesOf(start, n - 1), PageAt(start, n - 1) / PAGE_SIZE)
  }

  /** None of the first `n` pages from `start` is mapped. */
  ghost predicate NoneMapped(keys: set<Entry>, start: nat, n: nat) {
    forall j :: 0 <= j < n ==> Leaf(PageAt(start, j) / PAGE_SIZE) !in keys
  }

  function LeavesOf(start: nat, n: nat): (r: set<Entry>)
    ensures forall e :: e in r ==> e.Leaf?
  {
    if n == 0 then {} else LeavesOf(start, n - 1) + {Leaf(PageAt(start, n - 1) / PAGE_SIZE)}
  }

  lemma {:induction false} LeavesBelow(start: nat, n: nat, i: nat)
    requires n <= i && start % PAGE_SIZE == 0
    ensures Leaf(PageAt(start, i) / PAGE_SIZE) !in LeavesOf(start, n)
  {
    if n > 0 { LeavesBelow(start, n - 1, i); }
  }

  lemma LeafIsNew(start: nat, i: nat)
    requires start % PAGE_SIZE == 0
    ensures Leaf(PageAt(start, i) / PAGE_SIZE) !in LeavesOf(start, i)
    ensures Leaf(PageAt(start, i) / PAGE_SIZE) !in TablesOf(start, i)
  {
    LeavesBelow(start, i, i);
    OnlyTables(start, i);
  }

  lemma SameMissing(keys: set<Entry>, start: nat, i: nat, page: nat)
    ensures Missing(keys + TablesOf(start, i) + LeavesOf(start, i), page) == Missing(keys + TablesOf(start, i), page)
  {
    MissingByTables(keys + TablesOf(start, i) + LeavesOf(start, i), keys + TablesOf(start, i), page);
  }

  /** After `n` pages mapped to themselves: how many frames are handed out, and what is mapped; `None` if one fails. */
  function AfterPages(frames: seq<nat>, k: nat, keys: set<Entry>, n: nat): Option<(nat, set<Entry>)> {
    if n == 0 then Some((k, keys))
    else
      match AfterPages(frames, k, keys, n - 1)
      case None => None
      case Some((k1, keys1)) => AfterPage(frames, k1, keys1)
  }

  function AfterPage(frames: seq<nat>, k: nat, keys: set<Entry>): Option<(nat, set<Entry>)> {
    if k < |frames| && Leaf(frames[k] / PAGE_SIZE) !in keys && Missing(keys, frames[k] / PAGE_SIZE) < |frames| - k
    then Some((k + 1 + Missing(keys, frames[k] / PAGE_SIZE), keys + Tables(frames[k] / PAGE_SIZE) + {Leaf(frames[k] / PAGE_SIZE)}))
    else None
  }

  lemma {:induction false} PagesStop(frames: seq<nat>, k: nat, keys: set<Entry>, i: nat, n: nat)
    requires i <= n && AfterPages(frames, k, keys, i).None?
    ensures AfterPages(frames, k, keys, n).None?
    decreases n
  {
    if i < n { PagesStop(frames, k, keys, i, n - 1); }
  }

  lemma StopsFollowing(frames: seq<nat>, k: nat, i: nat, n: nat)
    requires i < n && k <= |frames| && (k + i >= |frames| || frames[k + i] != PageAt(frames[k], i))
    ensures !Follows(frames, k, n)
  {
  }

  lemma FollowsAll(frames: seq<nat>, k: nat, n: nat)
    requires k + n <= |frames| && forall j :: 0 <= j < n ==> frames[k + j] == PageAt(frames[k], j)
    ensures Follows(frames, k, n)
  {
  }

  lemma MapStops(keys: set<Entry>, start: nat, i: nat, n: nat, left: int)
    requires i < n && (Leaf(PageAt(start, i) / PAGE_SIZE) in keys || MissingRun(keys, start, i + 1) > left)
    ensures !(NoneMapped(keys, start, n) && MissingRun(keys, start, n) <= left)
  {
    MissingRunGrows(keys, start, i + 1, n);
  }

  lemma FreshStops(keys: set<Entry>, start: nat, i: nat, n: nat, left: int)
    requires i < n && (Leaf(PageAt(start, i) / PAGE_SIZE) in keys || MissingRun(keys, start, i + 1) + i + 1 > left)
    ensures !(NoneMapped(keys, start, n) && MissingRun(keys, start, n) + n <= left)
  {
    MissingRunGrows(keys, start, i + 1, n);
  }

  lemma FollowsHasNext(frames: seq<nat>, k: nat, n: nat)
    requires Follows(frames, k, n)
    ensures n <= |frames| - k
  {
  }

  lemma {:induction false} MissingRunGrows(keys: set<Entry>, start: nat, i: nat, n: nat)
    requires i <= n
    ensures MissingRun(keys, start, i) <= MissingRun(keys, start, n)
    decreases n
  {
    if i < n { MissingRunGrows(keys, start, i, n - 1); }
  }

  lemma MissingByTables(keys: set<Entry>, keys': set<Entry>, page: nat)
    requires forall l, p :: Table(l, p) in keys <==> Table(l, p) in keys'
    ensures Missing(keys, page) == Missing(keys', page)
  {
  }

  lemma ThreeTables(keys: set<Entry>, page: nat)
    ensures var (a, b, c) := (Table(3, page / 0x800_0000), Table(2, page / 0x4_0000), Table(1, page / 0x200));
            && Missing(keys, page) == Lacks(keys, a) + Lacks(keys + {a}, b) + Lacks(keys + {a} + {b}, c)
            && keys + Tables(page) == keys + {a} + {b} + {c}
  {
  }

  lemma OnlyTablesOf(page: nat)
    ensures forall e :: e in Tables(page) ==> e.Table?
  {
  }

  lemma {:induction false} OnlyTables(start: nat, n: nat)
    ensures forall e :: e in TablesOf(start, n) ==> e.Table?
  {
    if n > 0 { OnlyTables(start, n - 1); }
  }

  /** The next `n` frames on offer, from the `k`-th on, follow one another. */
  ghost predicate Follows(frames: seq<nat>, k: nat, n: nat) {
    k + n <= |frames| && forall j :: 0 <= j < n ==> frames[k + j] == PageAt(frames[k], j)
  }

  /** The `n` frames from the `k`-th on lie in one usable, page-aligned region. */
  ghost predicate InOneRegion(regions: seq<Region>, k: nat, n: nat) {
    exists r: nat, i: nat :: RegionHolds(regions, r, i, k, n)
  }

  ghost predicate RegionHolds(regions: seq<Region>, r: nat, i: nat, k: nat, n: nat) {
    && r < |regions| && regions[r].usable && regions[r].start % 4096 == 0
    && k == OffersBefore(regions, r) + i && regions[r].start + (i + n - 1) * 4096 < regions[r].end
  }

  lemma {:induction false} FrameOfRegion(regions: seq<Region>, r: nat, i: nat, k: nat, n: nat, j: nat)
    requires RegionHolds(regions, r, i, k, n) && j < n
    ensures k + j < |UsableFrames(regions)| && UsableFrames(regions)[k + j] == regions[r].start + (i + j) * 4096
  {
    hide OffersBefore;
    UsableFramesInOrder(regions, r, i + j);
  }

  /** Frames of one region follow one another. */
  lemma {:induction false} RegionFollows(regions: seq<Region>, k: nat, n: nat)
    requires n > 0 && InOneRegion(regions, k, n)
    ensures Follows(UsableFrames(regions), k, n)
  {
    hide RegionHolds;
    var r: nat, i: nat :| RegionHolds(regions, r, i, k, n);
    FrameOfRegion(regions, r, i, k, n, 0);
    FrameOfRegion(regions, r, i, k, n, n - 1);
    forall j | 0 <= j < n ensures UsableFrames(regions)[k + j] == PageAt(UsableFrames(regions)[k], j) {
      FrameOfRegion(regions, r, i, k, n, j);
    }
  }

  lemma FirstPage(start: nat)
    ensures PageAt(start, 0) == start
  {
  }

  lemma NextIsFresh(frames: seq<nat>, taken: seq<nat>, f: nat)
    requires Distinct(frames) && taken + [f] <= frames
    ensures f !in taken
  {
    assert frames[|taken|] == f;
    forall i | 0 <= i < |taken| ensures taken[i] != f { assert frames[i] == taken[i]; }
  }

  lemma {:induction false} RangeAligned(start: nat, end: nat, f: nat)
    requires f in RangeFrames(start, end)
    ensures f % PAGE_SIZE == 0
    decreases if start < end then end - start else 0
  {
    if f != AlignDown(start) { RangeAligned(start + PAGE_SIZE, end, f); }
  }

  lemma {:induction false} UsableAligned(regions: seq<Region>, f: nat)
    requires f in UsableFrames(regions)
    ensures f % PAGE_SIZE == 0
  {
    if regions[0].usable && f in RangeFrames(regions[0].start, regions[0].end) {
      RangeAligned(regions[0].start, regions[0].end, f);
    } else {
      UsableAligned(regions[1..], f);
    }
  }

  lemma ExclusiveGrows(entries: map<Entry, nat>, held: set<nat>, taken: seq<nat>, f: nat)
    requires Exclusive(entries, held, taken) && f !in taken
    ensures Exclusive(entries, held + {f}, taken + [f]) && Exclusive(entries, held, taken + [f]) && f !in held
  {
  }

  lemma ExclusiveShrinks(entries: map<Entry, nat>, held: set<nat>, fewer: set<nat>, taken: seq<nat>)
    requires Exclusive(entries, held, taken) && fewer <= held
    ensures Exclusive(entries, fewer, taken)
  {
  }

  /** A held frame becomes the frame of a new entry. */
  lemma ExclusiveUse(entries: map<Entry, nat>, held: set<nat>, taken: seq<nat>, e: Entry, f: nat)
    requires Exclusive(entries, held, taken) && e !in entries && f in held
    ensures Exclusive(entries[e := f], held - {f}, taken)
  {
  }

  class Kernel {
    const allocator: BootInfoFrameAllocator
    var entries: map<Entry, nat>

    ghost predicate Owns(held: set<nat>)
      reads this, allocator
    {
      allocator.Valid() && Distinct(allocator.Frames()) && Exclusive(entries, held, allocator.Taken())
    }

    /** How many frames are left to hand out, and the next of them. */
    ghost function Left(): int
      requires allocator.Valid()
      reads allocator
    {
      |allocator.Frames()| - |allocator.Taken()|
    }

    ghost function Next(): nat
      requires allocator.Valid() && Left() > 0
      reads allocator
    {
      allocator.Frames()[|allocator.Taken()|]
    }

    constructor (memoryMap: seq<Region>)
      requires Disjoint(memoryMap)
      ensures fresh(allocator) && Owns({}) && entries == map[] && allocator.Taken() == []
    {
      allocator := new BootInfoFrameAllocator(memoryMap);
      entries := map[];
      UsableFramesDistinct(memoryMap);
    }

    /** `allocate_frame`: the new frame belongs to nobody. */
    method TakeFrame(ghost held: set<nat>) returns (r: Option<nat>)
      requires Owns(held)
      modifies allocator
      ensures r.Some? ==> Owns(held + {r.value}) && r.value !in old(allocator.Taken()) && r.value % PAGE_SIZE == 0
      ensures r.Some? ==> allocator.Taken() == old(allocator.Taken()) + [r.value] && r.value !in held
      ensures r.None? ==> Owns(held) && allocator.Taken() == old(allocator.Taken())
      ensures r == if old(Left()) > 0 then Some(old(Next())) else None
    {
      hide Exclusive, Distinct, UsableFrames, Allocate;
      r := allocator.AllocateFrame();
      if r.Some? {
        assert allocator.Taken()[|old(allocator.Taken())|] == r.value;
        NextIsFresh(allocator.Frames(), old(allocator.Taken()), r.value);
        assert allocator.Taken()[|allocator.Taken()| - 1] == r.value && r.value in allocator.Frames();
        UsableAligned(allocator.memoryMap, r.value);
        ExclusiveGrows(entries, held, old(allocator.Taken()), r.value);
      }
    }

    /** An intermediate page table, drawn from the same allocator when it is missing. */
    method NextTable(level: nat, prefix: nat, ghost held: set<nat>) returns (ok: bool)
      requires Owns(held)
      modifies this`entries, allocator
      ensures Owns(held) && old(allocator.Taken()) <= allocator.Taken()
      ensures SameLeaves(old(entries), entries) && SameLeaves(entries, old(entries))
      ensures ok <==> Lacks(old(entries).Keys, Table(level, prefix)) <= old(Left())
      ensures ok ==> entries.Keys == old(entries).Keys + {Table(level, prefix)}
      ensures ok ==> Left() == old(Left()) - Lacks(old(entries).Keys, Table(level, prefix))
    {
      if Table(level, prefix) in entries { return true; }
      var f := TakeFrame(held);
      if f.None? { return false; }
      ExclusiveUse(entries, held + {f.value}, allocator.Taken(), Table(level, prefix), f.value);
      entries := entries[Table(level, prefix) := f.value];
      ExclusiveShrinks(entries, held + {f.value} - {f.value}, held, allocator.Taken()) by {
        assert held <= held + {f.value} - {f.value} by { assert f.value !in old(allocator.Taken()); }
      }
      ok := true;
    }

    /** All intermediate tables of a page. */
    method MakeTables(page: nat, ghost held: set<nat>) returns (ok: bool)
      requires Owns(held)
      modifies this`entries, allocator
      ensures Owns(held) && old(allocator.Taken()) <= allocator.Taken()
      ensures SameLeaves(old(entries), entries) && SameLeaves(entries, old(entries))
      ensures ok <==> Missing(old(entries).Keys, page) <= old(Left())
      ensures ok ==> entries.Keys == old(entries).Keys + Tables(page)
      ensures ok ==> Left() == old(Left()) - Missing(old(entries).Keys, page)
    {
      hide Exclusive, Distinct, Lacks, Missing, Tables;
      ThreeTables(entries.Keys, page);
      ok := NextTable(3, page / 0x800_0000, held);
      if !ok { return; }
      ok := NextTable(2, page / 0x4_0000, held);
      if !ok { return; }
      ok := NextTable(1, page / 0x200, held);
    }

    /** `map_to` for a 4 KiB page. */
    method MapTo(page: nat, frame: nat, ghost held: set<nat>) returns (r: MapResult)
      requires Owns(held) && frame in held
      modifies this`entries, allocator
      ensures Owns(if r.Mapped? then held - {frame} else held)
      ensures old(allocator.Taken()) <= allocator.Taken() && SameLeaves(old(entries), entries) && !r.Panicked?
      ensures r.Mapped? ==> Leaf(page) !in old(entries) && Leaf(page) in entries && entries[Leaf(page)] == frame
      ensures SameLeaves(entries, if r.Mapped? then old(entries)[Leaf(page) := frame] else old(entries))
      ensures r.Mapped? <==> Leaf(page) !in old(entries) && Missing(old(entries).Keys, page) <= old(Left())
      ensures r.Mapped? ==> entries.Keys == old(entries).Keys + Tables(page) + {Leaf(page)}
      ensures r.Mapped? ==> Left() == old(Left()) - Missing(old(entries).Keys, page)
    {
      hide Distinct, Missing, Tables;
      var ok := MakeTables(page, held);
      if !ok { return NoFrame; }
      assert Leaf(page) !in Tables(page) by { OnlyTablesOf(page); }
      if Leaf(page) in entries { return AlreadyMapped; }
      ExclusiveUse(entries, held, allocator.Taken(), Leaf(page), frame);
      entries := entries[Leaf(page) := frame];
      r := Mapped;
    }

    /** `create_identity_virt_from_phys` */
    method CreateIdentity(ghost held: set<nat>) returns (r: MapResult, addr: nat)
      requires Owns(held)
      modifies this`entries, allocator
      ensures Owns(held) && old(allocator.Taken()) <= allocator.Taken() && SameLeaves(old(entries), entries)
      ensures r.Mapped? ==> Identity(addr) && addr !in old(allocator.Taken()) && addr in allocator.Taken()
      ensures r.Panicked? <==> old(Left()) == 0
      ensures r.Mapped? <==> (old(Left()) > 0 && Leaf(old(Next()) / PAGE_SIZE) !in old(entries)
                              && Missing(old(entries).Keys, old(Next()) / PAGE_SIZE) < old(Left()))
      ensures r.Mapped? ==> entries.Keys == old(entries).Keys + Tables(old(Next()) / PAGE_SIZE) + {Leaf(old(Next()) / PAGE_SIZE)}
      ensures r.Mapped? ==> Left() == old(Left()) - 1 - Missing(old(entries).Keys, old(Next()) / PAGE_SIZE)
    {
      hide Exclusive, Distinct, Missing, Tables;
      var f := TakeFrame(held);
      if f.None? { return Panicked, 0; }
      addr := f.value;
      ghost var before := allocator.Taken();
      assert addr in before by { assert before[|before| - 1] == addr; }
      r := MapTo(addr / PAGE_SIZE, addr, held + {addr});
      assert addr in allocator.Taken() by { assert allocator.Taken()[|before| - 1] == before[|before| - 1]; }
      ExclusiveShrinks(entries, if r.Mapped? then held + {addr} - {addr} else held + {addr}, held, allocator.Taken()) by {
        assert addr !in held;
      }
    }

    /** The page at this address is mapped to the frame with the same address. */
    ghost predicate Identity(addr: nat)
      reads this
    {
      addr % PAGE_SIZE == 0 && Leaf(addr / PAGE_SIZE) in entries && entries[Leaf(addr / PAGE_SIZE)] == addr
    }

    /** A fresh frame for one page. */
    method MapFresh(page: nat) returns (r: MapResult)
      requires Owns({})
      modifies this`entries, allocator
      ensures Owns({}) && SameLeaves(old(entries), entries) && old(allocator.Taken()) <= allocator.Taken()
      ensures r.Mapped? ==> Leaf(page) in entries && entries[Leaf(page)] !in old(allocator.Taken())
      ensures r.Mapped? <==> Leaf(page) !in old(entries) && Missing(old(entries).Keys, page) < old(Left())
      ensures r.Mapped? ==> entries.Keys == old(entries).Keys + Tables(page) + {Leaf(page)}
      ensures r.Mapped? ==> Left() == old(Left()) - 1 - Missing(old(entries).Keys, page)
    {
      hide Exclusive, Distinct, Missing, Tables;
      var f := TakeFrame({});
      if f.None? { return NoFrame; }
      r := MapTo(page, f.value, {} + {f.value});
      ExclusiveShrinks(entries, if r.Mapped? then {} + {f.value} - {f.value} else {} + {f.value}, {}, allocator.Taken());
    }

    /** After `i` pages from `start` got fresh frames, since the state `before`, `taken0`. */
    ghost predicate Filling(start: nat, i: nat, before: map<Entry, nat>, left: int, taken0: seq<nat>)
      reads this, allocator
    {
      && Owns({}) && SameLeaves(before, entries) && start % PAGE_SIZE == 0 && taken0 <= allocator.Taken()
      && Left() == left - i - MissingRun(before.Keys, start, i) >= 0 && NoneMapped(before.Keys, start, i)
      && entries.Keys == before.Keys + TablesOf(start, i) + LeavesOf(start, i)
      && (forall j :: 0 <= j < i ==> HasFresh(PageAt(start, j) / PAGE_SIZE, taken0))
    }

    /** The page is mapped to a frame handed out since `taken0`. */
    ghost predicate HasFresh(page: nat, taken0: seq<nat>)
      reads this
    {
      Leaf(page) in entries && entries[Leaf(page)] !in taken0
    }

    method FillNext(start: nat, i: nat, ghost before: map<Entry, nat>, ghost left: int, ghost taken0: seq<nat>)
      returns (r: MapResult)
      requires Filling(start, i, before, left, taken0)
      modifies this`entries, allocator
      ensures Owns({}) && SameLeaves(before, entries)
      ensures r.Mapped? ==> Filling(start, i + 1, before, left, taken0)
      ensures r.Mapped? <==> (Leaf(PageAt(start, i) / PAGE_SIZE) !in before && MissingRun(before.Keys, start, i + 1) + i + 1 <= left)
    {
      hide Exclusive, Distinct, Missing, Tables, PageAt;
      var page := PageAt(start, i) / PAGE_SIZE;
      ghost var taken := allocator.Taken();
      LeafIsNew(start, i);
      SameMissing(before.Keys, start, i, page);
      r := MapFresh(page);
      if r.Mapped? { NotBefore(taken0, taken, entries[Leaf(page)]); }
    }

    /** `init_heap` */
    method InitHeap() returns (r: MapResult)
      requires Owns({})
      modifies this`entries, allocator
      ensures Owns({}) && SameLeaves(old(entries), entries)
      ensures r.Mapped? ==> forall p :: 0x4_4444_4440 <= p < 0x4_4444_4440 + 0x8000 ==>
                HasFresh(p, old(allocator.Taken()))
      ensures r.Mapped? <==> (NoneMapped(old(entries).Keys, HEAP_START, HEAP_PAGES)
                              && MissingRun(old(entries).Keys, HEAP_START, HEAP_PAGES) + HEAP_PAGES <= old(Left()))
    {
      hide Exclusive, Distinct, MissingRun, NoneMapped, SameLeaves, Filling, HasFresh, PageAt;
      var first, last := HEAP_START / PAGE_SIZE, (HEAP_START + HEAP_SIZE - 1) / PAGE_SIZE;
      ghost var before, left, taken0 := entries, Left(), allocator.Taken();
      FillingStarts();
      for page := first to last + 1
        invariant Filling(HEAP_START, page - first, before, left, taken0)
      {
        r := FillNext(HEAP_START, page - first, before, left, taken0);
        if !r.Mapped? {
          FreshStops(before.Keys, HEAP_START, page - first, HEAP_PAGES, left);
          return;
        }
      }
      FillingEnds(HEAP_START, HEAP_PAGES, before, left, taken0);
      r := Mapped;
    }

    lemma FillingStarts()
      requires Owns({})
      ensures Filling(HEAP_START, 0, entries, Left(), allocator.Taken())
    {
    }

    lemma FillingEnds(start: nat, n: nat, before: map<Entry, nat>, left: int, taken0: seq<nat>)
      requires Filling(start, n, before, left, taken0)
      ensures Owns({}) && SameLeaves(before, entries)
      ensures NoneMapped(before.Keys, start, n) && MissingRun(before.Keys, start, n) + n <= left
      ensures forall p :: start / PAGE_SIZE <= p < start / PAGE_SIZE + n ==> HasFresh(p, taken0)
    {
      hide HasFresh;
      forall p | start / PAGE_SIZE <= p < start / PAGE_SIZE + n ensures HasFresh(p, taken0) {
        var j := p - start / PAGE_SIZE;
        assert PageAt(start, j) / PAGE_SIZE == p;
      }
    }

    /** After `i` turns of the first loop: the frames taken since `before` follow one another from `start`. */
    ghost predicate Taking(start: nat, i: nat, held: set<nat>, before: seq<nat>)
      reads this, allocator
    {
      && Owns(held) && before <= allocator.Taken() && |allocator.Taken()| == |before| + i
      && i > 0 && allocator.Frames()[|before|] == start && start % PAGE_SIZE == 0
      && (forall j :: 0 <= j < i ==> PageAt(start, j) in held && allocator.Frames()[|before| + j] == PageAt(start, j))
      && (forall h :: h in held ==> h !in before)
    }

    method TakeFirst(ghost before: seq<nat>) returns (ok: bool, start: nat, ghost held: set<nat>)
      requires Owns({}) && before == allocator.Taken()
      modifies allocator
      ensures Owns(held) && start % PAGE_SIZE == 0 && forall h :: h in held ==> h !in before
      ensures ok <==> old(Left()) > 0
      ensures ok ==> Taking(start, 1, held, before) && |before| < |allocator.Frames()| && allocator.Frames()[|before|] == start
    {
      hide Exclusive, Distinct;
      held, start := {}, 0;
      var first := TakeFrame(held);
      ok := first.Some?;
      if ok {
        start := first.value;
        held := {} + {start};
      }
    }

    method TakeNext(start: nat, i: nat, ghost held: set<nat>, ghost before: seq<nat>)
      returns (ok: bool, ghost held': set<nat>)
      requires Taking(start, i, held, before)
      modifies allocator
      ensures Owns(held') && forall h :: h in held' ==> h !in before
      ensures ok <==> (|before| + i < |allocator.Frames()| && allocator.Frames()[|before| + i] == PageAt(start, i))
      ensures ok ==> Taking(start, i + 1, held', before)
    {
      hide Exclusive, Distinct, PageAt;
      ghost var taken := allocator.Taken();
      held' := held;
      var f := TakeFrame(held);
      if f.None? { return false, held'; }
      NotBefore(before, taken, f.value);
      held' := held + {f.value};
      ok := PageAt(start, i) == f.value;
    }

    /** The first loop of `create_identity_virt_from_phys_n`: frames that follow one another, or a panic. */
    method TakeRun(n: nat) returns (ok: bool, start: nat, ghost held: set<nat>)
      requires Owns({})
      modifies allocator
      ensures Owns(held) && start % PAGE_SIZE == 0
      ensures ok ==> forall j :: 0 <= j < n ==> PageAt(start, j) in held
      ensures forall h :: h in held ==> h !in old(allocator.Taken())
      ensures ok <==> Follows(allocator.Frames(), |old(allocator.Taken())|, if n == 0 then 1 else n)
      ensures InOneRegion(allocator.memoryMap, |old(allocator.Taken())|, if n == 0 then 1 else n) ==> ok
      ensures ok ==> start == old(Next()) && Left() == old(Left()) - (if n == 0 then 1 else n)
    {
      hide Exclusive, Distinct, PageAt, Follows, InOneRegion, Taking, UsableFrames;
      ghost var before, m := allocator.Taken(), if n == 0 then 1 else n;
      if InOneRegion(allocator.memoryMap, |before|, m) { RegionFollows(allocator.memoryMap, |before|, m); }
      ok, start, held := TakeFirst(before);
      if !ok {
        StopsFollowing(allocator.Frames(), |before|, 0, m);
        return;
      }
      var i := 1;
      while i < n
        invariant 1 <= i <= m && Taking(start, i, held, before)
      {
        ok, held := TakeNext(start, i, held, before);
        if !ok {
          StopsFollowing(allocator.Frames(), |before|, i, m);
          return;
        }
        i := i + 1;
      }
      TakingEnds(start, m, held, before);
      ok := true;
    }

    lemma TakingEnds(start: nat, n: nat, held: set<nat>, before: seq<nat>)
      requires Taking(start, n, held, before)
      ensures Owns(held) && start % PAGE_SIZE == 0 && |allocator.Taken()| == |before| + n
      ensures forall j :: 0 <= j < n ==> PageAt(start, j) in held
      ensures forall h :: h in held ==> h !in before
      ensures Follows(allocator.Frames(), |before|, n)
    {
      hide Exclusive, Distinct, Follows, UsableFrames, PageAt;
      FollowsAll(allocator.Frames(), |before|, n);
    }

    /** After `i` turns of the second loop. */
    ghost predicate Mapping(start: nat, i: nat, n: nat, held: set<nat>, before: map<Entry, nat>, left: int)
      reads this, allocator
    {
      && Owns(held) && SameLeaves(before, entries) && start % PAGE_SIZE == 0
      && Left() == left - MissingRun(before.Keys, start, i) >= 0 && NoneMapped(before.Keys, start, i)
      && entries.Keys == before.Keys + TablesOf(start, i) + LeavesOf(start, i)
      && (forall j :: i <= j < n ==> PageAt(start, j) in held)
      && (forall j :: 0 <= j < i ==> Identity(PageAt(start, j)))
    }

    method MapNext(start: nat, i: nat, n: nat, ghost held: set<nat>, ghost before: map<Entry, nat>, ghost left: int)
      returns (r: MapResult)
      requires i < n && Mapping(start, i, n, held, before, left)
      modifies this`entries, allocator
      ensures !r.Panicked? && (r.Mapped? ==> Mapping(start, i + 1, n, held - {PageAt(start, i)}, before, left))
      ensures !r.Mapped? ==> Owns(held) && SameLeaves(before, entries)
      ensures r.Mapped? <==> (Leaf(PageAt(start, i) / PAGE_SIZE) !in before && MissingRun(before.Keys, start, i + 1) <= left)
    {
      hide Exclusive, Distinct, Missing, Tables;
      var addr := PageAt(start, i);
      LeafIsNew(start, i);
      SameMissing(before.Keys, start, i, addr / PAGE_SIZE);
      r := MapTo(addr / PAGE_SIZE, addr, held);
      assert forall j :: 0 <= j < n && j != i ==> PageAt(start, j) != addr;
    }

    /** Its second loop. */
    method MapRun(start: nat, n: nat, ghost all: set<nat>) returns (r: MapResult)
      requires Owns(all) && start % PAGE_SIZE == 0 && forall j :: 0 <= j < n ==> PageAt(start, j) in all
      modifies this`entries, allocator
      ensures Owns({}) && SameLeaves(old(entries), entries)
      ensures r.Mapped? ==> forall j :: 0 <= j < n ==> Identity(PageAt(start, j))
      ensures !r.Panicked?
      ensures r.Mapped? <==> (NoneMapped(old(entries).Keys, start, n) && MissingRun(old(entries).Keys, start, n) <= old(Left()))
    {
      hide Exclusive, Distinct, Missing, Tables, PageAt, MissingRun, NoneMapped, SameLeaves;
      ghost var held, before, left := all, entries, Left();
      MappingStarts(start, n, all);
      for i := 0 to n
        invariant Mapping(start, i, n, held, before, left)
      {
        r := MapNext(start, i, n, held, before, left);
        if !r.Mapped? {
          MapStops(before.Keys, start, i, n, left);
          ExclusiveShrinks(entries, held, {}, allocator.Taken());
          return;
        }
        held := held - {PageAt(start, i)};
      }
      ExclusiveShrinks(entries, held, {}, allocator.Taken());
      r := Mapped;
    }

    lemma MappingStarts(start: nat, n: nat, held: set<nat>)
      requires Owns(held) && start % PAGE_SIZE == 0 && forall j :: 0 <= j < n ==> PageAt(start, j) in held
      ensures Mapping(start, 0, n, held, entries, Left())
    {
    }

    /** `create_identity_virt_from_phys_n`: a successful answer is a contiguous identity-mapped run of fresh frames. */
    method CreateIdentityRun(n: nat) returns (r: MapResult, start: nat)
      requires Owns({})
      modifies this`entries, allocator
      ensures Owns({}) && SameLeaves(old(entries), entries)
      ensures r.Mapped? ==> forall j :: 0 <= j < n ==>
                Identity(PageAt(start, j)) && PageAt(start, j) !in old(allocator.Taken())
      ensures r.Panicked? <==> !Follows(allocator.Frames(), |old(allocator.Taken())|, if n == 0 then 1 else n)
      ensures InOneRegion(allocator.memoryMap, |old(allocator.Taken())|, if n == 0 then 1 else n) ==> !r.Panicked?
      ensures r.Mapped? <==> (Follows(allocator.Frames(), |old(allocator.Taken())|, if n == 0 then 1 else n)
                              && NoneMapped(old(entries).Keys, old(Next()), n)
                              && MissingRun(old(entries).Keys, old(Next()), n) <= old(Left()) - (if n == 0 then 1 else n))
    {
      hide Exclusive, Distinct, MissingRun, NoneMapped, Follows, InOneRegion;
      if Follows(allocator.Frames(), |allocator.Taken()|, if n == 0 then 1 else n) {
        FollowsHasNext(allocator.Frames(), |allocator.Taken()|, if n == 0 then 1 else n);
      }
      var ok;
      ghost var held;
      ok, start, held := TakeRun(n);
      if !ok {
        ExclusiveShrinks(entries, held, {}, allocator.Taken());
        return Panicked, 0;
      }
      r := MapRun(start, n, held);
    }

    /** Distinct, identity-mapped frames that were handed out after `before`. */
    ghost predicate Fresh(all: seq<nat>, before: seq<nat>)
      reads this, allocator
    {
      && Distinct(all) && allocator.Valid() && before <= allocator.Taken()
      && forall a :: a in all ==> Identity(a) && a in allocator.Taken() && a !in before
    }

    /** The pages `all` have been taken and mapped since the state `before`, `map0`. */
    ghost predicate Built(all: seq<nat>, before: seq<nat>, map0: map<Entry, nat>)
      reads this, allocator
    {
      && Owns({}) && Fresh(all, before) && SameLeaves(map0, entries)
      && AfterPages(allocator.Frames(), |before|, map0.Keys, |all|) == Some((|allocator.Taken()|, entries.Keys))
    }

    method NextPage(ghost all: seq<nat>, ghost before: seq<nat>, ghost map0: map<Entry, nat>) returns (ok: bool, addr: nat)
      requires Built(all, before, map0)
      modifies this`entries, allocator
      ensures Owns({}) && SameLeaves(map0, entries)
      ensures ok ==> Built(all + [addr], before, map0)
      ensures ok <==> AfterPages(allocator.Frames(), |before|, map0.Keys, |all| + 1).Some?
    {
      hide Exclusive, Missing, Tables;
      ghost var taken := allocator.Taken();
      var r;
      r, addr := CreateIdentity({});
      ok := r.Mapped?;
      if ok {
        NotBefore(before, taken, addr);
        forall a | a in all ensures a != addr && a in allocator.Taken() {
          assert a in taken;
        }
      }
    }

    /** The loop over the descriptors: each gets its own buffer. */
    method QueueBuffers(size: nat, table: nat, ghost before: seq<nat>, ghost map0: map<Entry, nat>)
      returns (ok: bool, buffers: seq<nat>)
      requires Built([table], before, map0)
      modifies this`entries, allocator
      ensures Owns({}) && SameLeaves(map0, entries)
      ensures ok ==> |buffers| == size && Built([table] + buffers, before, map0)
      ensures ok <==> AfterPages(allocator.Frames(), |before|, map0.Keys, size + 1).Some?
    {
      hide AfterPages, Fresh, Exclusive, SameLeaves, Distinct;
      buffers := [];
      assert [table] == [table] + buffers;
      for i := 0 to size
        invariant |buffers| == i && Built([table] + buffers, before, map0)
      {
        var buffer;
        ok, buffer := NextPage([table] + buffers, before, map0);
        if !ok { PagesStop(allocator.Frames(), |before|, map0.Keys, i + 2, size + 1); return; }
        assert [table] + (buffers + [buffer]) == [table] + buffers + [buffer];
        buffers := buffers + [buffer];
      }
      ok := true;
    }

    /** The pages that `Virtio::init` takes for one queue: every buffer, and the rings, apart from one another. */
    method SetupQueue(size: nat) returns (ok: bool, table: nat, buffers: seq<nat>, driver: nat, device: nat)
      requires Owns({})
      modifies this`entries, allocator
      ensures Owns({}) && SameLeaves(old(entries), entries)
      ensures ok ==> |buffers| == size && Fresh([table] + buffers + [driver] + [device], old(allocator.Taken()))
      ensures ok <==> AfterPages(allocator.Frames(), |old(allocator.Taken())|, old(entries).Keys, size + 3).Some?
    {
      hide AfterPages, Fresh, Exclusive, SameLeaves, Distinct, Built;
      ghost var before, map0 := allocator.Taken(), entries;
      buffers, driver, device := [], 0, 0;
      NothingBuilt();
      ok, table := NextPage([], before, map0);
      if !ok { PagesStop(allocator.Frames(), |before|, map0.Keys, 1, size + 3); return; }
      assert [] + [table] == [table];
      ok, buffers := QueueBuffers(size, table, before, map0);
      if !ok { PagesStop(allocator.Frames(), |before|, map0.Keys, size + 1, size + 3); return; }
      ok, driver := NextPage([table] + buffers, before, map0);
      if !ok { PagesStop(allocator.Frames(), |before|, map0.Keys, size + 2, size + 3); return; }
      ok, device := NextPage([table] + buffers + [driver], before, map0);
      if ok { BuiltIsFresh([table] + buffers + [driver] + [device], before, map0); }
    }

    lemma BuiltIsFresh(all: seq<nat>, before: seq<nat>, map0: map<Entry, nat>)
      requires Built(all, before, map0)
      ensures Fresh(all, before)
    {
    }

    lemma NothingBuilt()
      requires Owns({})
      ensures Built([], allocator.Taken(), entries)
    {
    }
  }

  lemma NotBefore(before: seq<nat>, taken: seq<nat>, f: nat)
    requires before <= taken && f !in taken
    ensures f !in before
  {
    forall i | 0 <= i < |before| ensures before[i] != f { assert taken[i] == before[i]; }
  }
}
