/**
  The input state of bootloader/kernel/src/globals.rs, the device events applied
  to it in bootloader/kernel/src/drivers/virtio_input.rs, and the polling reader
  of the event history in app_console/src/main.rs.
 */
module Input {
  import opened Arithmetic
  import opened Wrappers
  import opened Keys

  const KEYS: nat := 1024
  const HISTORY_SIZE: nat := 64
  const I32_HALF: nat := 0x8000_0000
  const U32_RANGE: nat := 0x1_0000_0000

  datatype KeyEvent = KeyEvent(on: bool, key: nat)

  /** `VirtioInputEvent` */
  datatype DeviceEvent = DeviceEvent(kind: nat, code: nat, value: nat)

  /** `Input`, and what an application is shown of it once a frame. */
  datatype Snapshot = Snapshot(mouseX: nat, mouseY: nat, keys: seq<KeyState>, last: nat, ring: seq<KeyEvent>)
  {
    ghost predicate Shape() { |keys| == KEYS && |ring| == HISTORY_SIZE }
  }

  function Initial(): (s: Snapshot)
    ensures s.Shape()
  {
    Snapshot(0, 0, seq(KEYS, _ => Off), 0, seq(HISTORY_SIZE, _ => KeyEvent(false, 0)))
  }

  // ---- Device events ----

  /** `Input::handle_incoming_state`; a key past the table panics. */
  function LogKey(s: Snapshot, key: nat, on: bool): Option<Snapshot>
    requires s.Shape()
  {
    if key >= KEYS then None
    else
      var i := s.last + 1;
      Some(s.(last := i, ring := s.ring[i % HISTORY_SIZE := KeyEvent(on, key)], keys := s.keys[key := Handle(s.keys[key], on)]))
  }

  /** A 32-bit word read as two's complement. */
  function Signed(v: int): int {
    if v % U32_RANGE < I32_HALF then v % U32_RANGE else v % U32_RANGE - U32_RANGE
  }

  /** `(m as i32 + d).max(0)`, wrapping */
  function Move(m: nat, value: nat): nat {
    var moved := Signed(Signed(m) + Signed(value));
    if moved < 0 then 0 else moved
  }

  /** The match on the event type in the driver's loop; other events are only logged. */
  function ApplyEvent(s: Snapshot, e: DeviceEvent): Option<Snapshot>
    requires s.Shape()
  {
    if e.kind == 1 then LogKey(s, e.code, e.value != 0)
    else if e.kind == 2 && e.code == 0 then Some(s.(mouseX := Move(s.mouseX, e.value)))
    else if e.kind == 2 && e.code == 1 then Some(s.(mouseY := Move(s.mouseY, e.value)))
    else Some(s)
  }

  function ApplyEvents(s: Snapshot, es: seq<DeviceEvent>): (r: Option<Snapshot>)
    requires s.Shape()
    ensures r.Some? ==> r.value.Shape()
  {
    if es == [] then Some(s)
    else
      match ApplyEvents(s, es[..|es| - 1])
      case None => None
      case Some(mid) => ApplyEvent(mid, es[|es| - 1])
  }

  /** `Input::step` */
  function StepKeys(s: Snapshot): (r: Snapshot)
    requires s.Shape()
    ensures r.Shape()
  {
    s.(keys := seq(KEYS, k requires 0 <= k < KEYS => Step(s.keys[k])))
  }

  /** The key events among the device's events, in order. */
  function KeyLog(es: seq<DeviceEvent>): seq<KeyEvent> {
    if es == [] then []
    else
      var e := es[|es| - 1];
      KeyLog(es[..|es| - 1]) + if e.kind == 1 then [KeyEvent(e.value != 0, e.code)] else []
  }

  /** The presses and releases of one key, in order. */
  function TicksOf(log: seq<KeyEvent>, key: nat): seq<Tick> {
    if log == [] then []
    else
      var e := log[|log| - 1];
      TicksOf(log[..|log| - 1], key) + if e.key == key then [Event(e.on)] else []
  }

  /** The ring holds the last 64 events of the log, each at its number modulo 64; events are numbered from 1. */
  ghost predicate RingHolds(s: Snapshot, log: seq<KeyEvent>) {
    && s.Shape() && s.last == |log|
    && forall i :: 1 <= i <= |log| < i + HISTORY_SIZE ==> s.ring[i % HISTORY_SIZE] == log[i - 1]
  }

  ghost predicate KeysFollow(s: Snapshot, s': Snapshot, log: seq<KeyEvent>)
    requires s.Shape() && s'.Shape()
  {
    forall k :: 0 <= k < KEYS ==> s'.keys[k] == After(s.keys[k], TicksOf(log, k))
  }

  lemma {:induction false} LogKeyKeepsRing(s: Snapshot, log: seq<KeyEvent>, key: nat, on: bool)
    requires RingHolds(s, log) && key < KEYS
    ensures RingHolds(LogKey(s, key, on).value, log + [KeyEvent(on, key)])
  {
    var s', n := LogKey(s, key, on).value, |log| + 1;
    forall i | 1 <= i <= n < i + HISTORY_SIZE
      ensures s'.ring[i % HISTORY_SIZE] == (log + [KeyEvent(on, key)])[i - 1]
    {
      if i < n { SlotsDiffer(i, n, HISTORY_SIZE); }
    }
  }

  /**
    Applying the device's events succeeds exactly when every key code is in the
    table; the ring then holds the last 64 key events, and every key is where its
    own events, in order, took it.
   */
  lemma {:induction false} EventsReachInput(s: Snapshot, log: seq<KeyEvent>, es: seq<DeviceEvent>)
    requires RingHolds(s, log)
    ensures ApplyEvents(s, es).Some? <==> forall e :: e in es && e.kind == 1 ==> e.code < 1024
    ensures ApplyEvents(s, es).Some? ==>
              RingHolds(ApplyEvents(s, es).value, log + KeyLog(es)) && KeysFollow(s, ApplyEvents(s, es).value, KeyLog(es))
  {
    if es == [] {
      assert log + KeyLog(es) == log;
    } else {
      var n := |es| - 1;
      var e := es[n];
      EventsReachInput(s, log, es[..n]);
      assert es == es[..n] + [e];
      if ApplyEvents(s, es).Some? {
        var mid := ApplyEvents(s, es[..n]).value;
        if e.kind == 1 {
          var one := KeyEvent(e.value != 0, e.code);
          LogKeyKeepsRing(mid, log + KeyLog(es[..n]), e.code, e.value != 0);
          assert log + KeyLog(es) == log + KeyLog(es[..n]) + [one];
          KeysFollowOne(s, mid, KeyLog(es[..n]), one);
        } else {
          assert KeyLog(es) == KeyLog(es[..n]);
        }
      }
    }
  }

  lemma {:induction false} KeysFollowOne(s: Snapshot, mid: Snapshot, log: seq<KeyEvent>, e: KeyEvent)
    requires s.Shape() && mid.Shape() && KeysFollow(s, mid, log) && e.key < KEYS
    ensures KeysFollow(s, LogKey(mid, e.key, e.on).value, log + [e])
  {
    var s' := LogKey(mid, e.key, e.on).value;
    forall k | 0 <= k < KEYS ensures s'.keys[k] == After(s.keys[k], TicksOf(log + [e], k)) {
      var ticks := TicksOf(log, k);
      assert (log + [e])[..|log|] == log;
      assert (ticks + [Event(e.on)])[..|ticks|] == ticks;
      assert ticks + [] == ticks;
    }
  }

  // ---- All updates of the shared state ----

  /** One update of `INPUT`: by the driver in view, by the driver of another device, or at the end of a frame. */
  datatype Update = Own(event: DeviceEvent) | Other(event: DeviceEvent) | EndOfFrame

  function ApplyUpdate(s: Snapshot, u: Update): (r: Option<Snapshot>)
    requires s.Shape()
    ensures r.Some? ==> r.value.Shape()
  {
    match u
    case Own(e) => ApplyEvent(s, e)
    case Other(e) => ApplyEvent(s, e)
    case EndOfFrame => Some(StepKeys(s))
  }

  function Replay(us: seq<Update>): (r: Option<Snapshot>)
    ensures r.Some? ==> r.value.Shape()
  {
    if us == [] then Some(Initial())
    else
      match Replay(us[..|us| - 1])
      case None => None
      case Some(mid) => ApplyUpdate(mid, us[|us| - 1])
  }

  /** The events of the driver in view. */
  function OwnEvents(us: seq<Update>): seq<DeviceEvent> {
    if us == [] then []
    else OwnEvents(us[..|us| - 1]) + match us[|us| - 1] { case Own(e) => [e] case _ => [] }
  }

  /** The events of all drivers, merged as they were applied. */
  function Merged(us: seq<Update>): seq<DeviceEvent> {
    if us == [] then []
    else Merged(us[..|us| - 1]) + match us[|us| - 1] { case Own(e) => [e] case Other(e) => [e] case EndOfFrame => [] }
  }

  lemma {:induction false} OneEvent(s: Snapshot, log: seq<KeyEvent>, e: DeviceEvent)
    requires RingHolds(s, log)
    ensures ApplyEvent(s, e).Some? <==> (e.kind == 1 ==> e.code < KEYS)
    ensures ApplyEvent(s, e).Some? ==> RingHolds(ApplyEvent(s, e).value, log + KeyLog([e]))
  {
    assert [e][..0] == [] && KeyLog([]) == [];
    if e.kind == 1 {
      assert KeyLog([e]) == [KeyEvent(e.value != 0, e.code)];
      if e.code < KEYS { LogKeyKeepsRing(s, log, e.code, e.value != 0); }
    } else {
      assert log + KeyLog([e]) == log;
    }
  }

  /** An event of type 1 is logged as a press of its code unless its value is 0; no other event is logged. */
  lemma {:induction false} KeyLogTakes(es: seq<DeviceEvent>, e: DeviceEvent)
    ensures KeyLog(es + [e]) == if e.kind == 1 then KeyLog(es) + [KeyEvent(e.value != 0, e.code)] else KeyLog(es)
  {
    assert (es + [e])[..|es|] == es;
  }

  lemma {:induction false} KeyLogAppends(es: seq<DeviceEvent>, fs: seq<DeviceEvent>)
    ensures KeyLog(es + fs) == KeyLog(es) + KeyLog(fs)
  {
    if fs == [] {
      assert es + fs == es;
    } else {
      assert (es + fs)[..|es + fs| - 1] == es + fs[..|fs| - 1];
      KeyLogAppends(es, fs[..|fs| - 1]);
    }
  }

  /** Whoever applies events and however many frames end between them, the ring holds the last 64 key events of all. */
  lemma {:induction false} ReplayKeepsRing(us: seq<Update>)
    ensures Replay(us).Some? <==> forall e :: e in Merged(us) && e.kind == 1 ==> e.code < 1024
    ensures Replay(us).Some? ==> RingHolds(Replay(us).value, KeyLog(Merged(us)))
  {
    if us != [] {
      var before, u := us[..|us| - 1], us[|us| - 1];
      ReplayKeepsRing(before);
      if u != EndOfFrame {
        assert Merged(us) == Merged(before) + [u.event];
        KeyLogAppends(Merged(before), [u.event]);
        if Replay(before).Some? { OneEvent(Replay(before).value, KeyLog(Merged(before)), u.event); }
      } else {
        assert Merged(us) == Merged(before);
      }
    }
  }

  /** The pointer moves by the signed amount, stopping at 0, exactly while the sum fits 32 signed bits. */
  lemma {:induction false} MoveClamps(m: nat, value: nat)
    requires m < I32_HALF && value < U32_RANGE
    ensures Move(m, value) < I32_HALF
    ensures var sum := m + Signed(value); Move(m, value) == (if sum < 0 then 0 else sum) <==> sum < I32_HALF
  {
    var sum := Signed(m) + Signed(value);
    if sum < 0 {
      DivisionUnique(sum + U32_RANGE, U32_RANGE, 0, sum + U32_RANGE);
      assert sum % U32_RANGE == sum + U32_RANGE;
    }
  }

  // ---- The pointer ----

  /** The signed amount a 32-bit word stands for. */
  function Delta(value: nat): int {
    if value < 0x8000_0000 then value else value - 0x1_0000_0000
  }

  /** Where relative events of one axis, 0 across and 1 down, take a pointer that cannot leave the screen at 0. */
  function Walk(es: seq<DeviceEvent>, axis: nat, p: int): int {
    if es == [] then p
    else
      var e, at := es[|es| - 1], Walk(es[..|es| - 1], axis, p);
      if e.kind == 2 && e.code == axis then (if at + Delta(e.value) < 0 then 0 else at + Delta(e.value)) else at
  }

  /** Every value fits 32 bits, and no step of the walk leaves 31. */
  ghost predicate Fits31(es: seq<DeviceEvent>, axis: nat, p: int) {
    forall k :: 0 <= k < |es| && es[k].kind == 2 && es[k].code == axis ==>
      es[k].value < 0x1_0000_0000 && Walk(es[..k], axis, p) + Delta(es[k].value) < 0x8000_0000
  }

  /** Both coordinates are where the device's relative events, in order, take them. */
  lemma {:induction false} PointerFollows(s: Snapshot, es: seq<DeviceEvent>)
    requires s.Shape() && ApplyEvents(s, es).Some? && s.mouseX < 0x8000_0000 && s.mouseY < 0x8000_0000
    requires Fits31(es, 0, s.mouseX) && Fits31(es, 1, s.mouseY)
    ensures var s' := ApplyEvents(s, es).value;
            && s'.mouseX == Walk(es, 0, s.mouseX) < 0x8000_0000 && s'.mouseY == Walk(es, 1, s.mouseY) < 0x8000_0000
  {
    hide Move;
    if es != [] {
      var n := |es| - 1;
      assert forall k :: 0 <= k < n ==> es[..n][..k] == es[..k];
      PointerFollows(s, es[..n]);
      var mid := ApplyEvents(s, es[..n]).value;
      if es[n].kind == 2 && es[n].code == 0 { MoveSteps(mid.mouseX, es[n].value); }
      if es[n].kind == 2 && es[n].code == 1 { MoveSteps(mid.mouseY, es[n].value); }
    }
  }

  lemma MoveSteps(m: nat, value: nat)
    requires m < 0x8000_0000 && value < 0x1_0000_0000 && m + Delta(value) < 0x8000_0000
    ensures Move(m, value) == if m + Delta(value) < 0 then 0 else m + Delta(value)
  {
    MoveClamps(m, value);
  }

  // ---- In place ----

  class InputState {
    var mouseX: nat
    var mouseY: nat
    const keys: array<KeyState>
    var last: nat
    const ring: array<KeyEvent>

    ghost function View(): Snapshot
      reads this, keys, ring
    {
      Snapshot(mouseX, mouseY, keys[..], last, ring[..])
    }

    constructor ()
      ensures View() == Initial() && fresh(keys) && fresh(ring)
      ensures mouseX == mouseY == last == 0 && keys.Length == 1024 && ring.Length == 64
      ensures forall k :: 0 <= k < keys.Length ==> keys[k] == Off
    {
      mouseX, mouseY, last := 0, 0, 0;
      keys := new KeyState[KEYS](_ => Off);
      ring := new KeyEvent[HISTORY_SIZE](_ => KeyEvent(false, 0));
    }

    /** `false` where the index into the key table panics. */
    method HandleIncomingState(key: nat, on: bool) returns (ok: bool)
      requires View().Shape()
      modifies this`last, keys, ring
      ensures ok <==> LogKey(old(View()), key, on).Some?
      ensures ok ==> View() == LogKey(old(View()), key, on).value
    {
      last := last + 1;
      ring[last % HISTORY_SIZE] := KeyEvent(on, key);
      if key >= KEYS { return false; }
      keys[key] := Handle(keys[key], on);
      return true;
    }

    method Update(e: DeviceEvent) returns (ok: bool)
      requires View().Shape()
      modifies this, keys, ring
      ensures ok <==> ApplyEvent(old(View()), e).Some?
      ensures ok ==> View() == ApplyEvent(old(View()), e).value
    {
      ok := true;
      match e.kind {
        case 0 =>
        case 1 => ok := HandleIncomingState(e.code, e.value != 0);
        case 2 =>
          match e.code {
            case 0 => mouseX := Move(mouseX, e.value);
            case 1 => mouseY := Move(mouseY, e.value);
            case _ =>
          }
        case _ =>
      }
    }

    /** The end of a frame, for every key. */
    method EndFrame()
      requires View().Shape()
      modifies keys
      ensures View() == StepKeys(old(View()))
    {
      for k := 0 to keys.Length
        invariant forall i :: 0 <= i < k ==> keys[i] == Step(old(keys[i]))
        invariant forall i :: k <= i < keys.Length ==> keys[i] == old(keys[i])
      {
        keys[k] := Step(keys[k]);
      }
      assert keys[..] == StepKeys(old(View())).keys;
    }
  }

  // ---- The reader ----

  /** What the handler of one event decides: go on, stop this frame, or drop the whole store. */
  datatype Verdict<T> = Go(rest: T) | Stop(rest: T) | Reset

  /** An event as the reader met it, with the number it was looking for. */
  datatype Handled = Handled(number: nat, event: KeyEvent)

  type Handler<!T> = (T, KeyEvent) -> Verdict<T>

  /** `for i in first..=last` over the ring, leaving early when the handler says so. */
  function ReadRing<T>(ring: seq<KeyEvent>, first: nat, last: nat, t: T, h: Handler<T>): (r: (Verdict<T>, seq<Handled>))
    requires |ring| == HISTORY_SIZE
    decreases last + 1 - first
  {
    if first > last then (Go(t), [])
    else
      var e := ring[first % HISTORY_SIZE];
      match h(t, e)
      case Go(t') => var (v, more) := ReadRing(ring, first + 1, last, t', h); (v, [Handled(first, e)] + more)
      case Stop(t') => (Stop(t'), [Handled(first, e)])
      case Reset => (Reset, [Handled(first, e)])
  }

  /** The number of the event that event `i`'s slot holds once `last` events are logged. */
  function Newest(i: nat, last: nat): nat
    requires i <= last
  {
    last - (last - i) % HISTORY_SIZE
  }

  lemma {:induction false} SlotHoldsNewest(s: Snapshot, log: seq<KeyEvent>, i: nat)
    requires RingHolds(s, log) && 1 <= i <= |log|
    ensures i <= Newest(i, |log|) <= |log| && s.ring[i % HISTORY_SIZE] == log[Newest(i, |log|) - 1]
    ensures Newest(i, |log|) == i <==> |log| - i < HISTORY_SIZE
  {
    var d := |log| - i;
    var n := Newest(i, |log|);
    assert n == i + d / HISTORY_SIZE * HISTORY_SIZE;
    assert i == i / HISTORY_SIZE * HISTORY_SIZE + i % HISTORY_SIZE;
    DivisionUnique(n, HISTORY_SIZE, i / HISTORY_SIZE + d / HISTORY_SIZE, i % HISTORY_SIZE);
  }

  /** The reader meets the numbers in order, without a gap, and each slot's newest event; it meets all of them unless the handler left early. */
  lemma {:induction false} ReaderMeets<T>(s: Snapshot, log: seq<KeyEvent>, first: nat, t: T, h: Handler<T>)
    requires RingHolds(s, log) && 1 <= first <= |log| + 1
    ensures var (v, hs) := ReadRing(s.ring, first, |log|, t, h);
            && first + |hs| <= |log| + 1
            && (forall k :: 0 <= k < |hs| ==>
                  hs[k].number == first + k && hs[k].event == log[Newest(first + k, |log|) - 1])
            && (v.Go? ==> first + |hs| == |log| + 1)
    decreases |log| + 1 - first
  {
    if first <= |log| {
      SlotHoldsNewest(s, log, first);
      var e := s.ring[first % HISTORY_SIZE];
      match h(t, e)
      case Go(t') =>
        ReaderMeets(s, log, first + 1, t', h);
        var (v, hs) := ReadRing(s.ring, first, |log|, t, h);
        var (v', more) := ReadRing(s.ring, first + 1, |log|, t', h);
        assert hs == [Handled(first, e)] + more;
        assert forall k :: 1 <= k < |hs| ==> hs[k] == more[k - 1];
      case _ =>
    }
  }

  /**
    The handler's states while it handles `hs`: it starts with `t`, goes on from
    each event to the next, and its last answer is the outcome.
   */
  ghost predicate Threads<T(!new)>(h: Handler<T>, t: T, hs: seq<Handled>, v: Verdict<T>, ts: seq<T>) {
    && |ts| == |hs| + 1 && ts[0] == t
    && (forall k :: 0 <= k < |hs| && (k < |hs| - 1 || v.Go?) ==> h(ts[k], hs[k].event) == Go(ts[k + 1]))
    && (v.Go? ==> v.rest == ts[|hs|])
    && (!v.Go? ==> hs != [] && h(ts[|hs| - 1], hs[|hs| - 1].event) == v)
  }

  /** The reader feeds the handler event by event and stops at the first answer that is not to go on. */
  lemma {:induction false} ReaderThreads<T(!new)>(ring: seq<KeyEvent>, first: nat, last: nat, t: T, h: Handler<T>) returns (ts: seq<T>)
    requires |ring| == HISTORY_SIZE
    ensures var (v, hs) := ReadRing(ring, first, last, t, h); Threads(h, t, hs, v, ts)
    decreases last + 1 - first
  {
    if first > last {
      ts := [t];
    } else {
      var e := ring[first % HISTORY_SIZE];
      match h(t, e)
      case Go(t') =>
        var rest := ReaderThreads(ring, first + 1, last, t', h);
        ts := [t] + rest;
        var (v, more) := ReadRing(ring, first + 1, last, t', h);
        var hs := [Handled(first, e)] + more;
        assert ReadRing(ring, first, last, t, h) == (v, hs);
        forall k | 0 <= k < |hs| && (k < |hs| - 1 || v.Go?) ensures h(ts[k], hs[k].event) == Go(ts[k + 1]) {
          if k > 0 { assert hs[k] == more[k - 1]; }
        }
        assert !v.Go? ==> hs[|hs| - 1] == more[|more| - 1];
      case _ =>
        ts := [t, t];
    }
  }

  /** `hs` is a prefix of the events numbered from `from + 1`, in order. */
  ghost predicate PrefixOfNew(hs: seq<Handled>, log: seq<KeyEvent>, from: nat) {
    && from + |hs| <= |log|
    && forall k :: 0 <= k < |hs| ==> hs[k] == Handled(from + 1 + k, log[from + k])
  }

  /** `n` presses, such that events 64 apart differ. */
  function Presses(n: nat): (us: seq<Update>)
    ensures |us| == n
  {
    seq(n, j => Own(DeviceEvent(1, j % KEYS, 1)))
  }

  function PressesLogged(n: nat): (log: seq<KeyEvent>)
    ensures |log| == n
  {
    seq(n, j => KeyEvent(true, j % KEYS))
  }

  lemma OnePress(key: nat)
    ensures KeyLog([DeviceEvent(1, key, 1)]) == [KeyEvent(true, key)]
  {
    assert [DeviceEvent(1, key, 1)][..0] == [];
  }

  lemma {:induction false} PressesLog(n: nat)
    ensures KeyLog(Merged(Presses(n))) == PressesLogged(n)
    ensures forall e :: e in Merged(Presses(n)) ==> e.code < KEYS
  {
    hide KeyLog;
    if n == 0 {
      NothingLogged();
      assert PressesLogged(0) == [];
    } else {
      PressesLog(n - 1);
      var before, key := Merged(Presses(n - 1)), (n - 1) % KEYS;
      var e := DeviceEvent(1, key, 1);
      assert Presses(n)[..n - 1] == Presses(n - 1) && Presses(n)[n - 1] == Own(e);
      assert Merged(Presses(n)) == before + [e];
      KeyLogAppends(before, [e]);
      OnePress(key);
      assert PressesLogged(n) == PressesLogged(n - 1) + [KeyEvent(true, key)];
    }
  }

  lemma NothingLogged()
    ensures KeyLog([]) == []
  {
  }

  /**
    Over all histories of updates with `n` key events, reading from event
    `from + 1` finds each event at its slot exactly when at most 64 are new.
   */
  lemma {:induction false} FaithfulIffSixtyFour(from: nat, n: nat)
    requires from <= n
    ensures (forall us :: Replay(us).Some? && |KeyLog(Merged(us))| == n ==> FindsNew(Replay(us).value, KeyLog(Merged(us)), from))
            <==> n - from <= 64
  {
    if n - from <= HISTORY_SIZE {
      forall us | Replay(us).Some? && |KeyLog(Merged(us))| == n
        ensures FindsNew(Replay(us).value, KeyLog(Merged(us)), from)
      { ReplayKeepsRing(us); }
    } else {
      hide Replay, Merged, KeyLog;
      var us := Presses(n);
      PressesLog(n);
      ReplayKeepsRing(us);
      PressesMissed(Replay(us).value, from, n);
      assert |KeyLog(Merged(us))| == n && Replay(us).Some?;
    }
  }

  lemma {:induction false} PressesMissed(s: Snapshot, from: nat, n: nat)
    requires RingHolds(s, PressesLogged(n)) && n - from > HISTORY_SIZE
    ensures !FindsNew(s, PressesLogged(n), from)
  {
    var log, i := PressesLogged(n), n - HISTORY_SIZE;
    SlotHoldsNewest(s, log, i);
    assert log[n - 1].key != log[i - 1].key by { SlotsDiffer(i - 1, n - 1, KEYS); }
    assert s.ring[i % HISTORY_SIZE] != log[i - 1];
  }

  /** The slots of the events after `from` hold just these. */
  ghost predicate FindsNew(s: Snapshot, log: seq<KeyEvent>, from: nat)
    requires s.Shape()
  {
    forall i :: from < i <= |log| ==> s.ring[i % HISTORY_SIZE] == log[i - 1]
  }
}
