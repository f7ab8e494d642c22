/**
  The per-key automaton of bootloader/kernel/src/globals.rs, over every schedule
  of key events and frames.
 */
module Keys {
  datatype KeyState = Off | OffFromOn | OffTransientOn | OnFromOff | OnTransientOff | On

  /** The discriminant of each state; from 128 up the key is down. */
  function Code(k: KeyState): nat {
    match k
    case Off => 0
    case OffFromOn => 1
    case OffTransientOn => 2
    case OnFromOff => 128
    case OnTransientOff => 129
    case On => 130
  }

  /** `KeyState::handle_incoming_state` */
  function Handle(k: KeyState, on: bool): KeyState {
    match (k, on)
    case (Off, true) => OnFromOff
    case (On, false) => OffFromOn
    case (OffFromOn, true) => OnTransientOff
    case (OnFromOff, false) => OffTransientOn
    case (_, false) => Off
    case (_, true) => On
  }

  /** `KeyState::step` */
  function Step(k: KeyState): KeyState {
    match k
    case OffTransientOn => Off
    case OffFromOn => Off
    case OnFromOff => On
    case OnTransientOff => On
    case _ => k
  }

  predicate Settled(k: KeyState) {
    k.Off? || k.On?
  }

  /** What can happen to a key: an event, or the end of a frame. */
  datatype Tick = Event(on: bool) | FrameEnd

  function After(k: KeyState, ticks: seq<Tick>): KeyState {
    if ticks == [] then k
    else
      var before := After(k, ticks[..|ticks| - 1]);
      match ticks[|ticks| - 1]
      case Event(on) => Handle(before, on)
      case FrameEnd => Step(before)
  }

  /** The direction of the last event, or `down` if there was none. */
  function LastEvent(ticks: seq<Tick>, down: bool): bool {
    if ticks == [] then down
    else
      match ticks[|ticks| - 1]
      case Event(on) => on
      case FrameEnd => LastEvent(ticks[..|ticks| - 1], down)
  }

  /** A state is 128 or more exactly when the key's last event was a press. */
  lemma {:induction false} DownIffLastPress(k: KeyState, ticks: seq<Tick>)
    ensures Code(After(k, ticks)) >= 128 <==> LastEvent(ticks, Code(k) >= 128)
  {
    if ticks != [] { DownIffLastPress(k, ticks[..|ticks| - 1]); }
  }

  /** After a frame, and until the next event, the state is `Off` or `On`: an edge state is shown in one frame at most. */
  lemma {:induction false} EdgeShownOnce(k: KeyState, ticks: seq<Tick>, p: nat)
    requires p < |ticks| && forall i :: p <= i < |ticks| ==> ticks[i] == FrameEnd
    ensures Settled(After(k, ticks))
  {
    var n := |ticks| - 1;
    if p < n { EdgeShownOnce(k, ticks[..n], p); }
  }

  // ---- What the states are documented to mean ----

  function Rest(down: bool): KeyState {
    if down then On else Off
  }

  /** The state a frame should show: where the key was when it began, where it is now, and whether it moved between. */
  function Documented(was: bool, events: seq<bool>): KeyState {
    var now := if events == [] then was else events[|events| - 1];
    if now != was then (if now then OnFromOff else OffFromOn)
    else if !was in events then (if now then OnTransientOff else OffTransientOn)
    else Rest(was)
  }

  function Events(events: seq<bool>): (ticks: seq<Tick>)
    ensures |ticks| == |events|
  {
    seq(|events|, i requires 0 <= i < |events| => Event(events[i]))
  }

  /** Where the key is after some events. */
  function Now(was: bool, events: seq<bool>): bool {
    if events == [] then was else events[|events| - 1]
  }

  /** How many events came after the last one that repeated the key's direction; all of them if none did. */
  function Changes(was: bool, events: seq<bool>): nat {
    if events == [] then 0
    else
      var n := |events| - 1;
      if events[n] == Now(was, events[..n]) then 0 else Changes(was, events[..n]) + 1
  }

  /** A repeated direction settles the key, and three changes bring it back to a settled state. */
  function Reached(changes: nat, now: bool): KeyState {
    match changes % 3
    case 0 => Rest(now)
    case 1 => if now then OnFromOff else OffFromOn
    case _ => if now then OnTransientOff else OffTransientOn
  }

  lemma HandleReached(changes: nat, now: bool, on: bool)
    ensures Handle(Reached(changes, now), on) == if on == now then Rest(on) else Reached(changes + 1, on)
  {
  }

  lemma {:induction false} AfterEvents(was: bool, events: seq<bool>)
    ensures After(Rest(was), Events(events)) == Reached(Changes(was, events), Now(was, events))
  {
    hide Reached, Handle;
    if events == [] {
      ReachedAtRest(was);
    } else {
      var n := |events| - 1;
      AfterEvents(was, events[..n]);
      assert Events(events)[..n] == Events(events[..n]);
      HandleReached(Changes(was, events[..n]), Now(was, events[..n]), events[n]);
      ReachedAtRest(events[n]);
    }
  }

  lemma ReachedAtRest(now: bool)
    ensures Reached(0, now) == Rest(now)
  {
  }

  lemma {:induction false} TwoChangesMoved(was: bool, events: seq<bool>)
    requires Changes(was, events) >= 2
    ensures !was in events
  {
    var n := |events| - 1;
    assert events[..n] != [];
    assert events[n] != events[n - 1];
  }

  /** Whether a frame shows the documented state can be read off its events. */
  predicate Plain(was: bool, events: seq<bool>) {
    match Changes(was, events) % 3
    case 0 => !was !in events
    case 1 => Now(was, events) != was
    case _ => Now(was, events) == was
  }

  /** For every sequence of events of a frame, the state is the documented one exactly when the events are `Plain`. */
  lemma {:induction false} MeaningExactly(was: bool, events: seq<bool>)
    ensures After(Rest(was), Events(events)) == Documented(was, events) <==> Plain(was, events)
  {
    AfterEvents(was, events);
    if Changes(was, events) % 3 == 2 { TwoChangesMoved(was, events); }
  }

  /** `n` events that each change the key. */
  function Alternating(was: bool, n: nat): (r: seq<bool>)
    ensures |r| == n
  {
    seq(n, i => was == (i % 2 == 1))
  }

  lemma {:induction false} AlternatingChanges(was: bool, n: nat)
    ensures Changes(was, Alternating(was, n)) == n && Now(was, Alternating(was, n)) == (was == (n % 2 == 0))
  {
    if n > 0 {
      AlternatingChanges(was, n - 1);
      assert Alternating(was, n)[..n - 1] == Alternating(was, n - 1);
    }
  }

  /** With `n` alternating events in a frame the state means what it is documented to mean in just these cases. */
  lemma {:induction false} AlternatingMeaning(was: bool, n: nat)
    ensures After(Rest(was), Events(Alternating(was, n))) == Documented(was, Alternating(was, n))
            <==> n == 0 || n % 6 == 1 || n % 6 == 2
  {
    hide After, Documented;
    MeaningExactly(was, Alternating(was, n));
    AlternatingChanges(was, n);
    if n > 0 { assert Alternating(was, n)[0] == !was; }
    SixthIsThird(n);
  }

  lemma SixthIsThird(n: nat)
    ensures n % 6 == 1 <==> n % 3 == 1 && n % 2 == 1
    ensures n % 6 == 2 <==> n % 3 == 2 && n % 2 == 0
  {
  }

  function Repeated(was: bool, n: nat): (r: seq<bool>)
    ensures |r| == n
  {
    seq(n, _ => !was)
  }

  lemma {:induction false} RepeatedChanges(was: bool, n: nat)
    ensures Changes(was, Repeated(was, n)) == (if n == 1 then 1 else 0)
    ensures Now(was, Repeated(was, n)) == (if n == 0 then was else !was)
  {
    if n > 0 {
      assert Repeated(was, n)[..n - 1] == Repeated(was, n - 1);
    }
  }

  /** A press that repeats in its own frame (a keyboard's auto-repeat) already loses its edge. */
  lemma {:induction false} RepeatedMeaning(was: bool, n: nat)
    ensures After(Rest(was), Events(Repeated(was, n)))
            == if n == 0 then Rest(was) else if n == 1 then Handle(Rest(was), !was) else Rest(!was)
    ensures After(Rest(was), Events(Repeated(was, n))) == Documented(was, Repeated(was, n)) <==> n <= 1
  {
    hide After, Documented;
    RepeatedChanges(was, n);
    AfterEvents(was, Repeated(was, n));
    MeaningExactly(was, Repeated(was, n));
    if n > 0 { assert Repeated(was, n)[0] == !was; }
  }
}
