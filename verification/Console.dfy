/**
  The console application's frame (app_console/src/main.rs), as far as it reads
  the event history, over whole runs of the frame loop of
  bootloader/kernel/src/main.rs.
 */
module Console {
  import opened Wrappers
  import opened Keys
  import opened Input

  /** `Store`: the last event number seen, whether the window has the focus, and everything else. */
  datatype Store<T> = Store(last: nat, active: bool, rest: T)

  /** What a frame brings: the device events since the last one, and where a click moved the focus. */
  datatype Frame = Frame(batch: seq<DeviceEvent>, focus: Option<bool>)

  /** The store the frame starts with; a missing one is created as if every event so far had been seen. */
  function Opened<T>(store: Option<Store<T>>, shown: Snapshot, focus: Option<bool>, blank: T): Store<T> {
    var s := if store.None? then Store(shown.last, false, blank) else store.value;
    if focus.Some? then s.(active := focus.value) else s
  }

  /** `_start`: the store left behind, and the events handled. */
  function Visit<T>(store: Option<Store<T>>, shown: Snapshot, focus: Option<bool>, blank: T, h: Handler<T>)
    : (Option<Store<T>>, seq<Handled>)
    requires shown.Shape()
  {
    var s := Opened(store, shown, focus, blank);
    if !s.active then (Some(s.(last := shown.last)), [])
    else
      var (v, hs) := ReadRing(shown.ring, s.last + 1, shown.last, s.rest, h);
      (if v.Reset? then None else Some(Store(shown.last, s.active, v.rest)), hs)
  }

  /** The kernel's input state and the console's store, and what the console handled frame by frame. */
  datatype Machine<T> = Machine(input: Snapshot, store: Option<Store<T>>, handled: seq<seq<Handled>>)

  function FrameStep<T>(m: Machine<T>, f: Frame, blank: T, h: Handler<T>): Option<Machine<T>>
    requires m.input.Shape()
  {
    match ApplyEvents(m.input, f.batch)
    case None => None
    case Some(shown) =>
      var (store, hs) := Visit(m.store, shown, f.focus, blank, h);
      Some(Machine(StepKeys(shown), store, m.handled + [hs]))
  }

  /** The machine after a run of frames; `None` once a key code past the table has panicked. */
  function Play<T>(frames: seq<Frame>, blank: T, h: Handler<T>): (r: Option<Machine<T>>)
    ensures r.Some? ==> r.value.input.Shape()
  {
    if frames == [] then Some(Machine(Initial(), None, []))
    else
      match Play(frames[..|frames| - 1], blank, h)
      case None => None
      case Some(m) => FrameStep(m, frames[|frames| - 1], blank, h)
  }

  /** Every key event of a run, in order. */
  function Log(frames: seq<Frame>): seq<KeyEvent> {
    if frames == [] then [] else Log(frames[..|frames| - 1]) + KeyLog(frames[|frames| - 1].batch)
  }

  lemma {:induction false} LogGrows(frames: seq<Frame>, j: nat, k: nat)
    requires j <= k <= |frames|
    ensures Log(frames[..j]) <= Log(frames[..k])
  {
    if j < k {
      LogGrows(frames, j, k - 1);
      assert frames[..k][..k - 1] == frames[..k - 1];
    }
  }

  // ---- One frame ----

  /** Numbers `from + 1`, `from + 2`, ... up to at most `to`. */
  predicate Consecutive(hs: seq<Handled>, from: nat, to: nat) {
    && from + |hs| <= to
    && forall k :: 0 <= k < |hs| ==> hs[k].number == from + 1 + k
  }

  /**
    A console that had seen the first `from` events meets the next ones in order
    without a gap; if no more than 64 are new, each is the event logged under
    that number. An active console whose handler never stops meets them all.
   */
  lemma {:induction false} VisitMeets<T>(store: Option<Store<T>>, shown: Snapshot, log: seq<KeyEvent>, from: nat,
                                         focus: Option<bool>, blank: T, h: Handler<T>)
    requires RingHolds(shown, log) && from <= |log| && (store.Some? ==> store.value.last == from)
    ensures var (store', hs) := Visit(store, shown, focus, blank, h);
            && (store'.Some? ==> store'.value.last == |log|)
            && Consecutive(hs, from, |log|)
            && (|log| - from <= HISTORY_SIZE ==> PrefixOfNew(hs, log, from))
  {
    var s := Opened(store, shown, focus, blank);
    if s.active {
      if store.None? {
        ReaderMeets(shown, log, |log| + 1, s.rest, h);
      } else {
        ReaderMeets(shown, log, from + 1, s.rest, h);
        if |log| - from <= HISTORY_SIZE {
          forall i | from < i <= |log| ensures Newest(i, |log|) == i { SlotHoldsNewest(shown, log, i); }
        }
      }
    }
  }

  /** An active console whose handler goes on for every event meets every new one. */
  lemma {:induction false} VisitMeetsAll<T>(store: Store<T>, shown: Snapshot, log: seq<KeyEvent>,
                                            focus: Option<bool>, blank: T, h: Handler<T>)
    requires RingHolds(shown, log) && store.last <= |log|
    requires Opened(Some(store), shown, focus, blank).active && forall t, e :: h(t, e).Go?
    ensures |Visit(Some(store), shown, focus, blank, h).1| == |log| - store.last
  {
    ReaderMeets(shown, log, store.last + 1, store.rest, h);
    GoesOn(shown.ring, store.last + 1, |log|, store.rest, h);
  }

  lemma {:induction false} GoesOn<T>(ring: seq<KeyEvent>, first: nat, last: nat, t: T, h: Handler<T>)
    requires |ring| == HISTORY_SIZE && forall t, e :: h(t, e).Go?
    ensures ReadRing(ring, first, last, t, h).0.Go?
    decreases last + 1 - first
  {
    if first <= last {
      GoesOn(ring, first + 1, last, h(t, ring[first % HISTORY_SIZE]).rest, h);
    }
  }

  /**
    What one frame leaves behind. A console without the focus handles nothing; one
    with it handles events up to the first answer that is not to go on, keeps the
    state of that answer, or drops its store on a reset. All events count as seen.
   */
  lemma {:induction false} VisitLeaves<T(!new)>(store: Store<T>, shown: Snapshot, focus: Option<bool>, blank: T, h: Handler<T>)
    returns (v: Verdict<T>, ts: seq<T>)
    requires shown.Shape()
    ensures var active := if focus.Some? then focus.value else store.active;
            var (store', hs) := Visit(Some(store), shown, focus, blank, h);
            if !active then hs == [] && store' == Some(Store(shown.last, false, store.rest))
            else && Threads(h, store.rest, hs, v, ts)
                 && store' == if v.Reset? then None else Some(Store(shown.last, true, v.rest))
  {
    ts := ReaderThreads(shown.ring, store.last + 1, shown.last, store.rest, h);
    v := ReadRing(shown.ring, store.last + 1, shown.last, store.rest, h).0;
  }

  /** A console that starts, or starts again, takes all events so far as seen and handles none. */
  lemma VisitStarts<T>(shown: Snapshot, focus: Option<bool>, blank: T, h: Handler<T>)
    requires shown.Shape()
    ensures Visit(None, shown, focus, blank, h) == (Some(Store(shown.last, if focus.Some? then focus.value else false, blank)), [])
  {
  }

  // ---- Whole runs ----

  ghost predicate Faithful<T>(m: Machine<T>, frames: seq<Frame>) {
    && |m.handled| == |frames|
    && forall k :: 0 <= k < |frames| ==> FrameFaithful(m.handled[k], frames, k)
  }

  ghost predicate FrameFaithful(hs: seq<Handled>, frames: seq<Frame>, k: nat)
    requires k < |frames|
  {
    var from, log := |Log(frames[..k])|, Log(frames[..k + 1]);
    && Consecutive(hs, from, |log|)
    && (|KeyLog(frames[k].batch)| <= HISTORY_SIZE ==> PrefixOfNew(hs, log, from))
  }

  /**
    In every frame of every run the console handles consecutive new event
    numbers from the first new one; in a frame with at most 64 new events,
    it handles exactly a prefix of those events, in order.
   */
  lemma {:induction false} RunIsFaithful<T>(frames: seq<Frame>, blank: T, h: Handler<T>)
    requires Play(frames, blank, h).Some?
    ensures var m := Play(frames, blank, h).value;
            && RingHolds(m.input, Log(frames))
            && (m.store.Some? ==> m.store.value.last == |Log(frames)|)
            && Faithful(m, frames)
  {
    if frames != [] {
      var n := |frames| - 1;
      RunIsFaithful(frames[..n], blank, h);
      var m := Play(frames[..n], blank, h).value;
      StepIsFaithful(m, Play(frames, blank, h).value, frames, blank, h);
    }
  }

  lemma {:induction false} StepIsFaithful<T>(m: Machine<T>, m': Machine<T>, frames: seq<Frame>, blank: T, h: Handler<T>)
    requires frames != [] && RingHolds(m.input, Log(frames[..|frames| - 1]))
    requires FrameStep(m, frames[|frames| - 1], blank, h) == Some(m')
    requires m.store.Some? ==> m.store.value.last == |Log(frames[..|frames| - 1])|
    requires Faithful(m, frames[..|frames| - 1])
    ensures RingHolds(m'.input, Log(frames)) && (m'.store.Some? ==> m'.store.value.last == |Log(frames)|)
    ensures Faithful(m', frames)
  {
    hide FrameFaithful, Visit;
    var n := |frames| - 1;
    EventsReachInput(m.input, Log(frames[..n]), frames[n].batch);
    var shown := ApplyEvents(m.input, frames[n].batch).value;
    VisitMeets(m.store, shown, Log(frames), |Log(frames[..n])|, frames[n].focus, blank, h);
    LastFrameFaithful(m'.handled[n], frames);
    forall k | 0 <= k < n ensures FrameFaithful(m'.handled[k], frames, k) {
      EarlierFrameFaithful(m.handled[k], frames, k);
    }
  }

  lemma {:induction false} LastFrameFaithful(hs: seq<Handled>, frames: seq<Frame>)
    requires frames != []
    requires var n := |frames| - 1;
             var from, log := |Log(frames[..n])|, Log(frames);
             Consecutive(hs, from, |log|) && (|log| - from <= HISTORY_SIZE ==> PrefixOfNew(hs, log, from))
    ensures FrameFaithful(hs, frames, |frames| - 1)
  {
    assert frames[..|frames|] == frames;
  }

  lemma {:induction false} EarlierFrameFaithful(hs: seq<Handled>, frames: seq<Frame>, k: nat)
    requires k < |frames| - 1 && FrameFaithful(hs, frames[..|frames| - 1], k)
    ensures FrameFaithful(hs, frames, k)
  {
    var n := |frames| - 1;
    assert frames[..n][..k] == frames[..k] && frames[..n][..k + 1] == frames[..k + 1];
  }

  /** The run panics exactly when some key event's code is past the table. */
  lemma {:induction false} PanicsOnUnknownKey<T>(frames: seq<Frame>, blank: T, h: Handler<T>)
    ensures Play(frames, blank, h).Some? <==>
            forall k, e :: 0 <= k < |frames| && e in frames[k].batch && e.kind == 1 ==> e.code < 1024
  {
    if frames != [] {
      var n := |frames| - 1;
      PanicsOnUnknownKey(frames[..n], blank, h);
      if Play(frames[..n], blank, h).Some? {
        hide RingHolds, FrameStep;
        RunIsFaithful(frames[..n], blank, h);
        FramePanics(Play(frames[..n], blank, h).value, Log(frames[..n]), frames[n], blank, h);
      }
    }
  }

  lemma {:induction false} FramePanics<T>(m: Machine<T>, log: seq<KeyEvent>, f: Frame, blank: T, h: Handler<T>)
    requires RingHolds(m.input, log)
    ensures FrameStep(m, f, blank, h).Some? <==> forall e :: e in f.batch && e.kind == 1 ==> e.code < KEYS
  {
    EventsReachInput(m.input, log, f.batch);
  }

  /** No event number is handled twice over a whole run, and the numbers only grow. */
  lemma {:induction false} HandledOnce<T>(frames: seq<Frame>, blank: T, h: Handler<T>, j: nat, k: nat, a: nat, b: nat)
    requires Play(frames, blank, h).Some? && |Play(frames, blank, h).value.handled| == |frames|
    requires j <= k < |frames|
    requires var hs := Play(frames, blank, h).value.handled; a < |hs[j]| && b < |hs[k]| && (j == k ==> a < b)
    ensures var hs := Play(frames, blank, h).value.handled; hs[j][a].number < hs[k][b].number
  {
    RunIsFaithful(frames, blank, h);
    var m := Play(frames, blank, h).value;
    assert FrameFaithful(m.handled[j], frames, j) && FrameFaithful(m.handled[k], frames, k);
    if j < k { LogGrows(frames, j + 1, k); }
  }

  // ---- The keys an application is shown ----

  /** The events and frame ends one key goes through. */
  function Schedule(frames: seq<Frame>, key: nat): seq<Tick> {
    if frames == [] then []
    else Schedule(frames[..|frames| - 1], key) + TicksOf(KeyLog(frames[|frames| - 1].batch), key) + [FrameEnd]
  }

  lemma {:induction false} AfterAppends(k: KeyState, a: seq<Tick>, b: seq<Tick>)
    ensures After(k, a + b) == After(After(k, a), b)
  {
    if b == [] {
      assert a + b == a;
    } else {
      assert (a + b)[..|a + b| - 1] == a + b[..|b| - 1];
      AfterAppends(k, a, b[..|b| - 1]);
    }
  }

  /** After any run every key is `Off` or `On`, and `On` exactly when its last event was a press. */
  lemma {:induction false} RunShowsKeys<T>(frames: seq<Frame>, blank: T, h: Handler<T>, key: nat)
    requires Play(frames, blank, h).Some? && key < KEYS
    ensures Play(frames, blank, h).value.input.keys[key] == Rest(LastEvent(Schedule(frames, key), false))
  {
    RunFollowsSchedule(frames, blank, h, key);
    DownIffLastPress(Off, Schedule(frames, key));
    if frames != [] { EdgeShownOnce(Off, Schedule(frames, key), |Schedule(frames, key)| - 1); }
  }

  lemma {:induction false} RunFollowsSchedule<T>(frames: seq<Frame>, blank: T, h: Handler<T>, key: nat)
    requires Play(frames, blank, h).Some? && key < KEYS
    ensures Play(frames, blank, h).value.input.keys[key] == After(Off, Schedule(frames, key))
  {
    if frames != [] {
      var n := |frames| - 1;
      RunFollowsSchedule(frames[..n], blank, h, key);
      RunIsFaithful(frames[..n], blank, h);
      var m := Play(frames[..n], blank, h).value;
      EventsReachInput(m.input, Log(frames[..n]), frames[n].batch);
      var ticks, before := TicksOf(KeyLog(frames[n].batch), key), Schedule(frames[..n], key);
      AfterAppends(Off, before, ticks);
      assert (before + ticks + [FrameEnd])[..|before + ticks|] == before + ticks;
    }
  }

  predicate OfKey(e: DeviceEvent, key: nat) {
    e.kind == 1 && e.code == key
  }

  lemma {:induction false} LastEventAppends(a: seq<Tick>, b: seq<Tick>, down: bool)
    ensures LastEvent(a + b, down) == LastEvent(b, LastEvent(a, down))
  {
    if b == [] {
      assert a + b == a;
    } else {
      assert (a + b)[..|a + b| - 1] == a + b[..|b| - 1];
      LastEventAppends(a, b[..|b| - 1], down);
    }
  }

  /** The last event of a key in a batch decides; without one nothing changes. */
  lemma {:induction false} LastOfBatch(es: seq<DeviceEvent>, key: nat, i: int, down: bool)
    requires -1 <= i < |es| && (i >= 0 ==> OfKey(es[i], key)) && forall j :: i < j < |es| ==> !OfKey(es[j], key)
    ensures LastEvent(TicksOf(KeyLog(es), key), down) == if i >= 0 then es[i].value != 0 else down
  {
    if es != [] {
      var n := |es| - 1;
      KeyLogTakes(es[..n], es[n]);
      assert es == es[..n] + [es[n]];
      var log := KeyLog(es[..n]);
      if es[n].kind == 1 {
        var one := KeyEvent(es[n].value != 0, es[n].code);
        assert (log + [one])[..|log|] == log;
        LastEventAppends(TicksOf(log, key), if one.key == key then [Event(one.on)] else [], down);
      }
      if i < n { LastOfBatch(es[..n], key, i, down); }
    }
  }

  lemma {:induction false} LastOfRun(frames: seq<Frame>, key: nat, k: int, i: int)
    requires -1 <= k < |frames| && (k >= 0 ==> 0 <= i < |frames[k].batch| && OfKey(frames[k].batch[i], key))
    requires k >= 0 ==> forall j :: i < j < |frames[k].batch| ==> !OfKey(frames[k].batch[j], key)
    requires forall l, e :: k < l < |frames| && e in frames[l].batch ==> !OfKey(e, key)
    ensures LastEvent(Schedule(frames, key), false) == (k >= 0 && frames[k].batch[i].value != 0)
  {
    hide Schedule, LastEvent;
    if frames == [] {
      EmptySchedule(key);
    } else {
      var n := |frames| - 1;
      FrameDecides(frames, key);
      LastOfBatch(frames[n].batch, key, if k == n then i else -1, LastEvent(Schedule(frames[..n], key), false));
      if k < n { LastOfRun(frames[..n], key, k, i); }
    }
  }

  lemma EmptySchedule(key: nat)
    ensures !LastEvent(Schedule([], key), false)
  {
  }

  lemma {:induction false} FrameDecides(frames: seq<Frame>, key: nat)
    requires frames != []
    ensures var n := |frames| - 1;
            LastEvent(Schedule(frames, key), false)
            == LastEvent(TicksOf(KeyLog(frames[n].batch), key), LastEvent(Schedule(frames[..n], key), false))
  {
    var n := |frames| - 1;
    var ticks, before := TicksOf(KeyLog(frames[n].batch), key), Schedule(frames[..n], key);
    LastEventAppends(before, ticks, false);
    assert (before + ticks + [FrameEnd])[..|before + ticks|] == before + ticks;
  }

  /**
    After any run a key is `On` or `Off` as the last event its device sent for it
    had a value other than 0 or not; `Off` if there was none (`k` is -1).
   */
  lemma {:induction false} KeyShowsLastEvent<T>(frames: seq<Frame>, blank: T, h: Handler<T>, key: nat, k: int, i: int)
    requires Play(frames, blank, h).Some? && key < 1024
    requires -1 <= k < |frames| && (k >= 0 ==> 0 <= i < |frames[k].batch| && OfKey(frames[k].batch[i], key))
    requires k >= 0 ==> forall j :: i < j < |frames[k].batch| ==> !OfKey(frames[k].batch[j], key)
    requires forall l, e :: k < l < |frames| && e in frames[l].batch ==> !OfKey(e, key)
    ensures Play(frames, blank, h).value.input.keys[key] == if k >= 0 && frames[k].batch[i].value != 0 then On else Off
  {
    hide Play, Schedule, LastEvent;
    RunShowsKeys(frames, blank, h, key);
    LastOfRun(frames, key, k, i);
  }

  // ---- In place ----

  class ConsoleStore<T> {
    var last: nat
    var active: bool
    var rest: T

    ghost function View(): Store<T>
      reads this
    {
      Store(last, active, rest)
    }

    constructor (last: nat, active: bool, rest: T)
      ensures View() == Store(last, active, rest)
    {
      this.last, this.active, this.rest := last, active, rest;
    }

    /** The part of `_start` that reads the history; `dropped` when a handler resets the store. */
    method ReadInputs(shown: Snapshot, blank: T, h: Handler<T>) returns (dropped: bool, ghost hs: seq<Handled>)
      requires shown.Shape()
      modifies this
      ensures (if dropped then None else Some(View()), hs) == Visit(Some(old(View())), shown, None, blank, h)
    {
      hs := [];
      if active {
        var i := last + 1;
        ghost var all := ReadRing(shown.ring, i, shown.last, rest, h).1;
        assert hs + all == all;
        while i <= shown.last
          invariant last == old(last) && active == old(active)
          invariant var (v, more) := ReadRing(shown.ring, i, shown.last, rest, h);
                    ReadRing(shown.ring, last + 1, shown.last, old(rest), h) == (v, hs + more)
          decreases shown.last + 1 - i
        {
          var e := shown.ring[i % HISTORY_SIZE];
          var verdict := h(rest, e);
          ghost var before, more := hs, ReadRing(shown.ring, i, shown.last, rest, h).1;
          hs := hs + [Handled(i, e)];
          if verdict.Reset? {
            assert before + more == hs;
            return true, hs;
          }
          rest := verdict.rest;
          if verdict.Stop? {
            assert before + more == hs;
            last := shown.last;
            return false, hs;
          }
          assert before + more == hs + more[1..];
          i := i + 1;
        }
        assert hs + [] == hs;
      }
      last := shown.last;
      return false, hs;
    }
  }
}
