/**
  The 3D command stream of bootloader/kernel/src/drivers/virtio_gpu.rs: the
  `cmd_*` encoders, the padding to 512 words, and a decoder that relies on
  nothing but the length field in bits 16-31 of each header.
 */
module Virgl {
  import opened Arithmetic
  import opened Wrappers

  const U32_RANGE: nat := 0x1_0000_0000
  type u32 = x: int | 0 <= x < 0x1_0000_0000
  type u8 = x: int | 0 <= x < 0x100

  const CCMD_CREATE_OBJECT: u32 := 1
  const CCMD_SET_FRAMEBUFFER_STATE: u32 := 5
  const CCMD_CLEAR: u32 := 7
  const OBJECT_SURFACE: u32 := 8
  const CAPACITY: nat := 512

  datatype Command =
    | Clear(buffers: u32, red: u8, green: u8, blue: u8, alpha: u8)
    | SetFramebufferState(handles: seq<u32>)
    | CreateSurface(handle: u32, format: u32)

  /** One framed command of the stream. */
  datatype Frame = Frame(cmd: u32, obj: u32, payload: seq<u32>)

  const NOP: Frame := Frame(0, 0, [])

  /** `as u32`, and what 32-bit arithmetic keeps of a value. */
  function Low32(n: nat): u32 {
    n % U32_RANGE
  }

  function Header(len: u32, obj: u8, cmd: u8): u32 {
    len % 0x10000 * 0x10000 + obj * 0x100 + cmd
  }

  function Encode(c: Command): seq<u32> {
    match c
    case Clear(buffers, r, g, b, a) => [Header(8, 0, CCMD_CLEAR), buffers, r, g, b, a, 0, 0, 0]
    case SetFramebufferState(hs) =>
      [Header(Low32(Low32(|hs|) + 2), 0, CCMD_SET_FRAMEBUFFER_STATE), Low32(|hs|), 0] + hs
    case CreateSurface(handle, format) =>
      [Header(5, OBJECT_SURFACE, CCMD_CREATE_OBJECT), handle, handle, format, 0, 0]
  }

  function EncodeAll(cs: seq<Command>): seq<u32> {
    if cs == [] then [] else Encode(cs[0]) + EncodeAll(cs[1..])
  }

  function Zeros(n: nat): seq<u32> {
    seq(n, _ => 0)
  }

  /** The 512-word buffer that is submitted; a longer stream fails the conversion and panics. */
  function Submission(cs: seq<Command>): Option<seq<u32>> {
    var words := EncodeAll(cs);
    if |words| > CAPACITY then None else Some(words + Zeros(CAPACITY - |words|))
  }

  // ---- The other side ----

  /** Cut a stream at its headers; `None` if the last command is cut short. */
  function Decode(words: seq<u32>): Option<seq<Frame>>
    decreases |words|
  {
    if words == [] then Some([])
    else
      var len := words[0] / 0x10000;
      if 1 + len > |words| then None
      else
        match Decode(words[1 + len..])
        case None => None
        case Some(rest) =>
          Some([Frame(words[0] % 0x100, words[0] / 0x100 % 0x100, words[1..1 + len])] + rest)
  }

  /** What a frame asks for, read without knowing how it was encoded. */
  function Interpret(f: Frame): Option<Command> {
    if f.cmd == 7 && f.obj == 0 && |f.payload| == 8
       && forall i :: 1 <= i < 5 ==> f.payload[i] < 0x100
    then Some(Clear(f.payload[0], f.payload[1], f.payload[2], f.payload[3], f.payload[4]))
    else if f.cmd == 5 && |f.payload| >= 2 && f.payload[0] == |f.payload| - 2
    then Some(SetFramebufferState(f.payload[2..]))
    else if f.cmd == 1 && f.obj == 8 && |f.payload| == 5
    then Some(CreateSurface(f.payload[0], f.payload[2]))
    else None
  }

  /** Whether the number of payload words fits the 16-bit length field. */
  predicate Framed(c: Command) {
    c.SetFramebufferState? ==> |c.handles| + 2 < 0x10000
  }

  /** The command's own number, object and argument words, as the protocol defines them. */
  function FrameOf(c: Command): Frame {
    match c
    case Clear(buffers, r, g, b, a) => Frame(7, 0, [buffers, r, g, b, a, 0, 0, 0])
    case SetFramebufferState(hs) => Frame(5, 0, [Low32(|hs|), 0] + hs)
    case CreateSurface(handle, format) => Frame(1, 8, [handle, handle, format, 0, 0])
  }

  /** The frames are exactly the commands', word for word and in order, and can be read back. */
  ghost predicate Carries(fs: seq<Frame>, cs: seq<Command>) {
    && |fs| == |cs|
    && forall k :: 0 <= k < |fs| ==> fs[k] == FrameOf(cs[k]) && Interpret(fs[k]) == Some(cs[k])
  }

  lemma {:induction false} HeaderFields(len: u32, obj: u8, cmd: u8)
    ensures Header(len, obj, cmd) / 0x10000 == len % 0x10000
    ensures Header(len, obj, cmd) / 0x100 % 0x100 == obj
    ensures Header(len, obj, cmd) % 0x100 == cmd
  {
    var h, n := Header(len, obj, cmd), len % 0x10000;
    DivisionUnique(h, 0x10000, n, obj * 0x100 + cmd);
    DivisionUnique(h, 0x100, n * 0x100 + obj, cmd);
    DivisionUnique(n * 0x100 + obj, 0x100, n, obj);
  }

  lemma {:induction false} WrappedLength(n: nat)
    ensures Low32(Low32(n) + 2) % 0x10000 == (n + 2) % 0x10000
  {
    var q, m := n / U32_RANGE, n % U32_RANGE;
    var u, r := (m + 2) / 0x10000, (m + 2) % 0x10000;
    assert n + 2 == (q * 0x10000 + u) * 0x10000 + r;
    DivisionUnique(n + 2, 0x10000, q * 0x10000 + u, r);
    if m + 2 >= U32_RANGE { DivisionUnique(m + 2, U32_RANGE, 1, m + 2 - U32_RANGE); }
  }

  lemma {:induction false} ReadsBack(c: Command)
    requires Framed(c)
    ensures Interpret(FrameOf(c)) == Some(c)
  {
    if c.SetFramebufferState? { assert FrameOf(c).payload[2..] == c.handles; }
  }

  lemma {:induction false} HandlesHead(hs: seq<u32>)
    ensures var words := Encode(SetFramebufferState(hs));
            && words[0] / 0x10000 == (|hs| + 2) % 0x10000 && words[0] % 0x100 == CCMD_SET_FRAMEBUFFER_STATE
            && words[0] / 0x100 % 0x100 == 0 && |words| == |hs| + 3
            && words[1..] == FrameOf(SetFramebufferState(hs)).payload
  {
    hide Header, Low32;
    HeaderFields(Low32(Low32(|hs|) + 2), 0, CCMD_SET_FRAMEBUFFER_STATE);
    WrappedLength(|hs|);
  }

  lemma {:induction false} HeadOf(c: Command)
    ensures Encode(c) != []
    ensures Encode(c)[0] / 0x10000 == (|Encode(c)| - 1) % 0x10000
    ensures Framed(c) <==> |Encode(c)| - 1 < 0x10000
    ensures Frame(Encode(c)[0] % 0x100, Encode(c)[0] / 0x100 % 0x100, Encode(c)[1..]) == FrameOf(c)
    ensures Framed(c) ==> Interpret(FrameOf(c)) == Some(c)
  {
    hide Interpret, Header, Low32;
    if Framed(c) { ReadsBack(c); }
    match c
    case Clear(_, _, _, _, _) => HeaderFields(8, 0, CCMD_CLEAR);
    case SetFramebufferState(hs) => HandlesHead(hs);
    case CreateSurface(_, _) => HeaderFields(5, OBJECT_SURFACE, CCMD_CREATE_OBJECT);
  }

  /** With `rest` behind it, the first frame cut off is the first command's exactly when its length fits. */
  lemma {:induction false} CutsFirst(c: Command, rest: seq<u32>)
    ensures Framed(c) ==>
              Decode(Encode(c) + rest) == (match Decode(rest) case None => None case Some(fs) => Some([FrameOf(c)] + fs))
    ensures !Framed(c) && Decode(Encode(c) + rest).Some? ==>
              Decode(Encode(c) + rest).value != []
              && |Decode(Encode(c) + rest).value[0].payload| < |FrameOf(c).payload|
  {
    hide Encode, Interpret, Framed, FrameOf;
    HeadOf(c);
    var words := Encode(c) + rest;
    assert words[0] == Encode(c)[0];
    if Framed(c) {
      assert words[1..|Encode(c)|] == Encode(c)[1..];
      assert words[|Encode(c)|..] == rest;
    }
  }

  /** The stream decodes to the very commands exactly when every length fits its field. */
  lemma {:induction false} DecodesWhenFramed(cs: seq<Command>, rest: seq<u32>)
    requires Decode(rest).Some?
    ensures (forall c :: c in cs ==> Framed(c)) <==>
            var d := Decode(EncodeAll(cs) + rest);
            d.Some? && |d.value| >= |cs| && Carries(d.value[..|cs|], cs) && d.value[|cs|..] == Decode(rest).value
  {
    if cs == [] {
      assert EncodeAll(cs) + rest == rest;
    } else {
      var tail := EncodeAll(cs[1..]) + rest;
      assert EncodeAll(cs) + rest == Encode(cs[0]) + tail;
      HeadOf(cs[0]);
      CutsFirst(cs[0], tail);
      DecodesWhenFramed(cs[1..], rest);
      if Framed(cs[0]) {
        SplitsOff(cs, tail, rest);
      }
    }
  }

  lemma {:induction false} CarriesOneMore(f: Frame, fs: seq<Frame>, c: Command, cs: seq<Command>)
    requires Interpret(f) == Some(c) && f == FrameOf(c)
    ensures Carries([f] + fs, [c] + cs) <==> Carries(fs, cs)
  {
    hide Interpret, FrameOf;
    var gs, ds := [f] + fs, [c] + cs;
    if Carries(gs, ds) {
      forall k | 0 <= k < |fs| ensures fs[k] == FrameOf(cs[k]) && Interpret(fs[k]) == Some(cs[k]) {
        assert gs[k + 1] == fs[k] && ds[k + 1] == cs[k];
      }
    }
    if Carries(fs, cs) {
      forall k | 0 <= k < |gs| ensures gs[k] == FrameOf(ds[k]) && Interpret(gs[k]) == Some(ds[k]) {
        if k > 0 { assert gs[k] == fs[k - 1] && ds[k] == cs[k - 1]; }
      }
    }
  }

  lemma {:induction false} SplitsOff(cs: seq<Command>, tail: seq<u32>, rest: seq<u32>)
    requires cs != [] && Framed(cs[0]) && Decode(rest).Some?
    ensures var d, e := Decode(Encode(cs[0]) + tail), Decode(tail);
            var n := |cs| - 1;
            (d.Some? && |d.value| >= |cs| && Carries(d.value[..|cs|], cs) && d.value[|cs|..] == Decode(rest).value)
            <==>
            (e.Some? && |e.value| >= n && Carries(e.value[..n], cs[1..]) && e.value[n..] == Decode(rest).value)
  {
    hide Interpret, Encode, Carries, FrameOf;
    HeadOf(cs[0]);
    CutsFirst(cs[0], tail);
    var d, e, n := Decode(Encode(cs[0]) + tail), Decode(tail), |cs| - 1;
    if e.Some? && |e.value| >= n {
      var f := d.value[0];
      assert d.value == [f] + e.value;
      assert d.value[|cs|..] == e.value[n..];
      assert d.value[..|cs|] == [f] + e.value[..n];
      assert cs == [cs[0]] + cs[1..];
      CarriesOneMore(f, e.value[..n], cs[0], cs[1..]);
    }
  }

  function Nops(n: nat): seq<Frame> {
    seq(n, _ => NOP)
  }

  lemma {:induction false} ZerosAreNops(n: nat)
    ensures Decode(Zeros(n)) == Some(Nops(n))
  {
    if n == 0 {
      assert Zeros(n) == [] && Nops(n) == [];
    } else {
      ZerosAreNops(n - 1);
      var words := Zeros(n);
      assert words[1..] == Zeros(n - 1) && words[1..1] == [];
      assert Decode(words) == Some([NOP] + Nops(n - 1));
      assert [NOP] + Nops(n - 1) == Nops(n);
    }
  }

  lemma {:induction false} LongerThanHandles(cs: seq<Command>, c: Command)
    requires c in cs
    ensures |Encode(c)| <= |EncodeAll(cs)|
  {
    if c != cs[0] {
      LongerThanHandles(cs[1..], c);
    }
  }

  /**
    A submitted buffer decodes to the commands followed by empty NOPs, one for
    each padding word; its first `len` words decode to the commands alone.
   */
  lemma {:induction false} SubmissionDecodes(cs: seq<Command>)
    requires |EncodeAll(cs)| <= 512
    ensures Submission(cs).Some? && |Submission(cs).value| == 512
    ensures var d := Decode(Submission(cs).value);
            && d.Some? && |d.value| == |cs| + (512 - |EncodeAll(cs)|)
            && Carries(d.value[..|cs|], cs) && d.value[|cs|..] == Nops(512 - |EncodeAll(cs)|)
    ensures var e := Decode(Submission(cs).value[..|EncodeAll(cs)|]);
            e.Some? && Carries(e.value, cs)
  {
    hide Interpret, Encode, EncodeAll, Decode, Carries, Framed, FrameOf;
    var words, pad := EncodeAll(cs), CAPACITY - |EncodeAll(cs)|;
    forall c | c in cs ensures Framed(c) {
      LongerThanHandles(cs, c);
      HeadOf(c);
    }
    ZerosAreNops(pad);
    DecodesWhenFramed(cs, Zeros(pad));
    FramedDecodes(cs);
    assert (words + Zeros(pad))[..|words|] == words;
  }

  /** No two lists of commands share a stream. */
  lemma {:induction false} StreamNamesCommands(cs: seq<Command>, ds: seq<Command>)
    requires EncodeAll(cs) == EncodeAll(ds)
    requires forall c :: c in cs + ds ==> Framed(c)
    ensures cs == ds
  {
    hide Interpret, Encode, EncodeAll, Decode, Carries, Framed, FrameOf;
    forall c | c in cs ensures Framed(c) { assert c in cs + ds; }
    forall d | d in ds ensures Framed(d) { assert d in cs + ds; }
    FramedDecodes(cs);
    FramedDecodes(ds);
    CarriesOneList(Decode(EncodeAll(cs)).value, cs, ds);
  }

  lemma {:induction false} FramedDecodes(cs: seq<Command>)
    requires forall c :: c in cs ==> Framed(c)
    ensures var d := Decode(EncodeAll(cs)); d.Some? && Carries(d.value, cs)
  {
    hide Interpret, Encode, EncodeAll, Carries, Framed, FrameOf;
    DecodesWhenFramed(cs, []);
    var words := EncodeAll(cs);
    assert words + [] == words;
    var fs := Decode(words).value;
    assert fs[|cs|..] == [];
    assert fs[..|cs|] == fs;
  }

  lemma {:induction false} CarriesOneList(fs: seq<Frame>, cs: seq<Command>, ds: seq<Command>)
    requires Carries(fs, cs) && Carries(fs, ds)
    ensures cs == ds
  {
    hide Interpret, FrameOf;
    forall k | 0 <= k < |fs| ensures cs[k] == ds[k] { assert Interpret(fs[k]) == Some(cs[k]); }
  }

  lemma HandlesEncoded(handles: seq<u32>)
    ensures |Encode(SetFramebufferState(handles))| == 3 + |handles|
    ensures |handles| + 2 < 0x1_0000 ==>
              Encode(SetFramebufferState(handles)) == [(|handles| + 2) * 0x1_0000 + 5, |handles|, 0] + handles
  {
  }

  // ---- In place ----

  class CommandBuffer {
    var words: seq<u32>

    constructor ()
      ensures words == []
    {
      words := [];
    }

    /** The depth and the stencil value never reach the stream. */
    method CmdClear(buffers: u32, rgba: (u8, u8, u8, u8), depth: real, stencil: u32)
      modifies this
      ensures words == old(words) + Encode(Clear(buffers, rgba.0, rgba.1, rgba.2, rgba.3))
      ensures words == old(words) + [0x8_0007, buffers, rgba.0, rgba.1, rgba.2, rgba.3, 0, 0, 0]
    {
      ghost var before := words;
      words := words + [Header(8, 0, CCMD_CLEAR)];
      words := words + [buffers];
      words := words + [rgba.0];
      words := words + [rgba.1];
      words := words + [rgba.2];
      words := words + [rgba.3];
      assert words == before + [Header(8, 0, CCMD_CLEAR), buffers, rgba.0, rgba.1, rgba.2, rgba.3];
      words := words + [0];
      words := words + [0];
      words := words + [0];
      assert words == before + [0x8_0007, buffers, rgba.0, rgba.1, rgba.2, rgba.3, 0, 0, 0];
    }

    method CmdSetFramebufferState(handles: seq<u32>)
      modifies this
      ensures words == old(words) + Encode(SetFramebufferState(handles))
      ensures |handles| + 2 < 0x1_0000 ==> words == old(words) + [(|handles| + 2) * 0x1_0000 + 5, |handles|, 0] + handles
    {
      var len := Low32(Low32(|handles|) + 2);
      words := words + [Header(len, 0, CCMD_SET_FRAMEBUFFER_STATE)];
      words := words + [Low32(|handles|)];
      words := words + [0];
      for i := 0 to |handles|
        invariant words == old(words) + Encode(SetFramebufferState(handles))[..3 + i]
      {
        words := words + [handles[i]];
      }
      HandlesEncoded(handles);
      assert Encode(SetFramebufferState(handles))[..3 + |handles|] == Encode(SetFramebufferState(handles));
    }

    method CmdCreateSurface(handle: u32, format: u32)
      modifies this
      ensures words == old(words) + Encode(CreateSurface(handle, format))
      ensures words == old(words) + [0x5_0801, handle, handle, format, 0, 0]
    {
      words := words + [Header(5, OBJECT_SURFACE, CCMD_CREATE_OBJECT)];
      words := words + [handle];
      words := words + [handle];
      words := words + [format];
      words := words + [0];
      words := words + [0];
    }

    /** Pads and converts: the length before padding, and whether the conversion to 512 words succeeded. */
    method Seal(ghost cs: seq<Command>) returns (len: u32, ok: bool)
      requires words == EncodeAll(cs)
      modifies this
      ensures len == Low32(|EncodeAll(cs)|)
      ensures ok <==> Submission(cs).Some?
      ensures ok <==> |EncodeAll(cs)| <= 512
      ensures ok ==> words == Submission(cs).value
    {
      len := Low32(|words|);
      while |words| < CAPACITY
        invariant |words| <= if |EncodeAll(cs)| > CAPACITY then |EncodeAll(cs)| else CAPACITY
        invariant |words| >= |EncodeAll(cs)| && words == EncodeAll(cs) + Zeros(|words| - |EncodeAll(cs)|)
      {
        words := words + [0];
      }
      ok := |words| == CAPACITY;
    }
  }
}
