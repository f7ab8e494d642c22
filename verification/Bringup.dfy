/**
  From the boot memory map to a driver: the pages `Virtio::init` takes from the
  kernel's allocator are what the drivers' protocols ask of a queue.
 */
module Bringup {
  import opened Finite
  import opened Input
  import opened Paging
  import opened Virtqueue
  import opened Wrappers
  import GpuDriver
  import GpuProtocol
  import InputDriver

  /** The queue's pages are mapped to themselves, are fresh, and are all different. */
  ghost predicate OwnPages(kernel: Kernel, addrs: seq<nat>, before: seq<nat>)
    reads kernel, kernel.allocator
  {
    Distinct(addrs) && forall a :: a in addrs ==> kernel.Identity(a) && a !in before
  }

  /** The next `n` pages can be taken and mapped to themselves. */
  ghost predicate HasPages(kernel: Kernel, n: nat)
    requires kernel.allocator.Valid()
    reads kernel, kernel.allocator
  {
    AfterPages(kernel.allocator.Frames(), |kernel.allocator.Taken()|, kernel.entries.Keys, n).Some?
  }

  lemma PartDistinct(table: nat, buffers: seq<nat>, driver: nat, device: nat)
    requires Distinct([table] + buffers + [driver] + [device])
    ensures Distinct(buffers)
  {
    var all := [table] + buffers + [driver] + [device];
    forall i, j | 0 <= i < j < |buffers| ensures buffers[i] != buffers[j] {
      assert all[i + 1] == buffers[i] && all[j + 1] == buffers[j];
    }
  }

  /** The buffers of one queue, or `None` when a page could not be taken or mapped. */
  method TakeBuffers(kernel: Kernel, size: nat) returns (r: Option<seq<nat>>)
    requires kernel.Owns({})
    modifies kernel`entries, kernel.allocator
    ensures kernel.Owns({})
    ensures r.Some? ==> |r.value| == size && OwnPages(kernel, r.value, old(kernel.allocator.Taken()))
    ensures r.Some? <==> old(HasPages(kernel, size + 3))
  {
    var ok, table, buffers, driver, device := kernel.SetupQueue(size);
    if !ok { return None; }
    ghost var all := [table] + buffers + [driver] + [device];
    PartDistinct(table, buffers, driver, device);
    assert forall a :: a in buffers ==> a in all;
    r := Some(buffers);
  }

  method StartGpu(kernel: Kernel, size: nat, contents: nat -> Page, ghost k: nat) returns (r: Option<Virtio>, ghost w: Option<GpuProtocol.World>)
    requires kernel.Owns({}) && 0 < size <= 256 && U16_RANGE % size == 0 && forall a :: |contents(a)| == PAGE_LEN
    modifies kernel`entries, kernel.allocator
    ensures kernel.Owns({})
    ensures r.Some? ==>
              && w.Some? && GpuProtocol.Start(w.value, k) && w.value.link.q == r.value.View()
              && OwnPages(kernel, w.value.addrs, old(kernel.allocator.Taken()))
    ensures r.Some? <==> old(HasPages(kernel, size + 3))
  {
    hide GpuProtocol.Start, Distinct;
    var buffers := TakeBuffers(kernel, size);
    if buffers.None? { return None, None; }
    BuffersApart(buffers.value);
    var virtio;
    ghost var start;
    virtio, start := GpuDriver.Boot(size, buffers.value, map a | a in buffers.value :: contents(a), k);
    r, w := Some(virtio), Some(start);
  }

  method StartInput(kernel: Kernel, size: nat, contents: nat -> Page)
    returns (r: Option<(Virtio, InputState)>, ghost w: Option<InputDriver.World>)
    requires kernel.Owns({}) && 0 < size <= 256 && U16_RANGE % size == 0 && forall a :: |contents(a)| == PAGE_LEN
    modifies kernel`entries, kernel.allocator
    ensures kernel.Owns({})
    ensures r.Some? ==>
              && w.Some? && InputDriver.Start(w.value)
              && (w.value.link.q, w.value.input) == (r.value.0.View(), r.value.1.View())
              && OwnPages(kernel, w.value.addrs, old(kernel.allocator.Taken()))
    ensures r.Some? <==> old(HasPages(kernel, size + 3))
  {
    hide InputDriver.Start, Distinct;
    var buffers := TakeBuffers(kernel, size);
    if buffers.None? { return None, None; }
    BuffersApart(buffers.value);
    var virtio, input;
    ghost var start;
    virtio, input, start := InputDriver.Boot(size, buffers.value, map a | a in buffers.value :: contents(a));
    r, w := Some((virtio, input)), Some(start);
  }

  lemma BuffersApart(buffers: seq<nat>)
    requires Distinct(buffers)
    ensures forall d, e :: 0 <= d < e < |buffers| ==> buffers[d] != buffers[e]
  {
  }
}
