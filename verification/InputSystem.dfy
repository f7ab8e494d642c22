/**
  Device to console: the runs of the input driver's protocol, cut at their frame
  ends, are the runs of the frame loop that the console is proved about.
 */
module InputSystem {
  import opened Wrappers
  import opened Input
  import opened Console
  import Driver = InputDriver

  /** The events between one frame end and the next, and those since the last. */
  function Batches(us: seq<Update>): (seq<seq<DeviceEvent>>, seq<DeviceEvent>) {
    if us == [] then ([], [])
    else
      var (done, open) := Batches(us[..|us| - 1]);
      match us[|us| - 1]
      case Own(e) => (done, open + [e])
      case Other(e) => (done, open + [e])
      case EndOfFrame => (done + [open], [])
  }

  /** The frames of a run, with any clicks. */
  function FramesOf(us: seq<Update>, focus: nat -> Option<bool>): (frames: seq<Frame>)
    ensures |frames| == |Batches(us).0|
  {
    var done := Batches(us).0;
    seq(|done|, k requires 0 <= k < |done| => Frame(done[k], focus(k)))
  }

  /** Nothing is lost or reordered by cutting: frames and rest make up all events applied, and lead to the same state. */
  lemma {:induction false} CutIsPlay<T>(us: seq<Update>, focus: nat -> Option<bool>, blank: T, h: Handler<T>)
    requires Replay(us).Some?
    ensures var frames, open := FramesOf(us, focus), Batches(us).1;
            && Play(frames, blank, h).Some?
            && ApplyEvents(Play(frames, blank, h).value.input, open) == Replay(us)
            && Log(frames) + KeyLog(open) == KeyLog(Merged(us))
  {
    if us == [] {
      assert FramesOf(us, focus) == [];
    } else {
      var before, u := us[..|us| - 1], us[|us| - 1];
      CutIsPlay(before, focus, blank, h);
      if u == EndOfFrame {
        CutAtFrameEnd(us, focus, blank, h);
      } else {
        CutAtEvent(us, focus, blank, h);
      }
    }
  }

  lemma {:induction false} CutAtFrameEnd<T>(us: seq<Update>, focus: nat -> Option<bool>, blank: T, h: Handler<T>)
    requires us != [] && us[|us| - 1] == EndOfFrame && Replay(us).Some?
    requires var before := us[..|us| - 1];
             var frames, open := FramesOf(before, focus), Batches(before).1;
             && Play(frames, blank, h).Some?
             && ApplyEvents(Play(frames, blank, h).value.input, open) == Replay(before)
             && Log(frames) + KeyLog(open) == KeyLog(Merged(before))
    ensures Play(FramesOf(us, focus), blank, h).Some? && Batches(us).1 == []
    ensures Some(Play(FramesOf(us, focus), blank, h).value.input) == Replay(us)
    ensures Log(FramesOf(us, focus)) + [] == KeyLog(Merged(us))
  {
    hide Replay, FrameStep, ApplyEvents;
    var before := us[..|us| - 1];
    var frames, open := FramesOf(before, focus), Batches(before).1;
    NextFrame(us, focus);
    FrameEndIsStep(before, us, Play(frames, blank, h).value, Frame(open, focus(|frames|)), blank, h);
    var all := frames + [Frame(open, focus(|frames|))];
    assert all[..|frames|] == frames;
  }

  /** A frame end closes the open batch. */
  lemma {:induction false} NextFrame(us: seq<Update>, focus: nat -> Option<bool>)
    requires us != [] && us[|us| - 1] == EndOfFrame
    ensures var before := us[..|us| - 1];
            var frames, open := FramesOf(before, focus), Batches(before).1;
            && FramesOf(us, focus) == frames + [Frame(open, focus(|frames|))] && Batches(us).1 == []
            && KeyLog(Merged(us)) == KeyLog(Merged(before))
  {
    var before := us[..|us| - 1];
    var frames, open := FramesOf(before, focus), Batches(before).1;
    assert FramesOf(us, focus) == frames + [Frame(open, focus(|frames|))];
    assert Merged(us) == Merged(before) + [] == Merged(before);
  }

  lemma FrameEndIsStep<T>(before: seq<Update>, us: seq<Update>, m: Machine<T>, f: Frame, blank: T, h: Handler<T>)
    requires us != [] && us[..|us| - 1] == before && us[|us| - 1] == EndOfFrame && Replay(us).Some?
    requires m.input.Shape() && ApplyEvents(m.input, f.batch) == Replay(before)
    ensures FrameStep(m, f, blank, h).Some? && Some(FrameStep(m, f, blank, h).value.input) == Replay(us)
  {
    hide Visit, ApplyEvents;
  }

  lemma {:induction false} CutAtEvent<T>(us: seq<Update>, focus: nat -> Option<bool>, blank: T, h: Handler<T>)
    requires us != [] && us[|us| - 1] != EndOfFrame && Replay(us).Some?
    requires var before := us[..|us| - 1];
             var frames, open := FramesOf(before, focus), Batches(before).1;
             && Play(frames, blank, h).Some?
             && ApplyEvents(Play(frames, blank, h).value.input, open) == Replay(before)
             && Log(frames) + KeyLog(open) == KeyLog(Merged(before))
    ensures var frames, open := FramesOf(us, focus), Batches(us).1;
            && frames == FramesOf(us[..|us| - 1], focus)
            && ApplyEvents(Play(frames, blank, h).value.input, open) == Replay(us)
            && Log(frames) + KeyLog(open) == KeyLog(Merged(us))
  {
    hide Play, Log;
    var before, e := us[..|us| - 1], us[|us| - 1].event;
    var open := Batches(before).1;
    assert (open + [e])[..|open|] == open;
    KeyLogAppends(open, [e]);
    KeyLogAppends(Merged(before), [e]);
  }

  lemma {:induction false} SoleDriver(us: seq<Update>)
    requires forall u :: u in us ==> !u.Other?
    ensures Merged(us) == OwnEvents(us)
  {
    if us != [] { SoleDriver(us[..|us| - 1]); }
  }

  /**
    Over every interleaving of device, driver, other drivers and frame loop, the
    console's frames carry the events applied, all of them but those since the
    last frame end. In each frame it handles consecutive new event numbers, and with at
    most 64 new events a prefix of them, in order.
   */
  lemma {:induction false} ConsoleFollowsDevices<T>(w: Driver.World, actions: seq<Driver.Action>, w': Driver.World,
                                                    focus: nat -> Option<bool>, blank: T, h: Handler<T>)
    requires Driver.Start(w) && Driver.Run(w, actions, w')
    ensures var frames, open := FramesOf(w'.updates, focus), Batches(w'.updates).1;
            && Play(frames, blank, h).Some?
            && ApplyEvents(Play(frames, blank, h).value.input, open) == Some(w'.input)
            && Log(frames) + KeyLog(open) == KeyLog(Merged(w'.updates))
            && Faithful(Play(frames, blank, h).value, frames)
    ensures OwnEvents(w'.updates) <= w'.reported
  {
    hide Driver.Start, Driver.Run, Play, Faithful;
    Driver.InputFollowsDevice(w, actions, w');
    CutIsPlay(w'.updates, focus, blank, h);
    RunIsFaithful(FramesOf(w'.updates, focus), blank, h);
  }

  /** With one input device, an event the console handles in a frame with at most 64 new ones is the one its device completed under that number. */
  lemma {:induction false} ConsoleHandlesDeviceEvents<T>(w: Driver.World, actions: seq<Driver.Action>, w': Driver.World,
                                                         focus: nat -> Option<bool>, blank: T, h: Handler<T>, k: nat, a: nat)
    requires Driver.Start(w) && Driver.Run(w, actions, w') && forall u :: u in w'.updates ==> !u.Other?
    requires k < |Batches(w'.updates).0| && |KeyLog(Batches(w'.updates).0[k])| <= HISTORY_SIZE
    requires var m := Play(FramesOf(w'.updates, focus), blank, h);
             m.Some? && k < |m.value.handled| && a < |m.value.handled[k]|
    ensures var e, log := Play(FramesOf(w'.updates, focus), blank, h).value.handled[k][a], KeyLog(w'.reported);
            1 <= e.number <= |log| && e.event == log[e.number - 1]
  {
    hide Driver.Start, Driver.Run, Play, Log, KeyLog, Batches, OwnEvents, Merged, ApplyEvents;
    ConsoleFollowsDevices(w, actions, w', focus, blank, h);
    SoleDriver(w'.updates);
    var frames, own := FramesOf(w'.updates, focus), OwnEvents(w'.updates);
    HandledFromLog(Play(frames, blank, h).value, frames, k, a);
    KeyLogAppends(own, w'.reported[|own|..]);
    assert own + w'.reported[|own|..] == w'.reported;
    PrefixOfPrefix(Log(frames), Log(frames), KeyLog(Batches(w'.updates).1), KeyLog(own), KeyLog(w'.reported[|own|..]));
  }

  /** In a faithful run whose frames bring at most 64 events each, what is handled is the log's event of that number. */
  lemma {:induction false} HandledFromLog<T>(m: Machine<T>, frames: seq<Frame>, k: nat, a: nat)
    requires Faithful(m, frames) && k < |frames| && a < |m.handled[k]| && |KeyLog(frames[k].batch)| <= HISTORY_SIZE
    ensures var e, log := m.handled[k][a], Log(frames); 1 <= e.number <= |log| && e.event == log[e.number - 1]
  {
    hide Log, KeyLog;
    assert FrameFaithful(m.handled[k], frames, k);
    LogGrows(frames, k + 1, |frames|);
    assert frames[..|frames|] == frames;
  }

  lemma PrefixOfPrefix<A>(a: seq<A>, b: seq<A>, c: seq<A>, d: seq<A>, e: seq<A>)
    requires a <= b && b + c == d
    ensures a <= d + e
  {
  }

  /** However frames and devices interleave, no event number reaches the console's handler twice. */
  lemma {:induction false} EventsHandledOnce<T>(w: Driver.World, actions: seq<Driver.Action>, w': Driver.World,
                                                focus: nat -> Option<bool>, blank: T, h: Handler<T>, j: nat, k: nat, a: nat, b: nat)
    requires Driver.Start(w) && Driver.Run(w, actions, w')
    requires var m := Play(FramesOf(w'.updates, focus), blank, h);
             && m.Some? && j <= k < |m.value.handled|
             && a < |m.value.handled[j]| && b < |m.value.handled[k]| && (j == k ==> a < b)
    ensures var hs := Play(FramesOf(w'.updates, focus), blank, h).value.handled; hs[j][a].number < hs[k][b].number
  {
    ConsoleFollowsDevices(w, actions, w', focus, blank, h);
    HandledOnce(FramesOf(w'.updates, focus), blank, h, j, k, a, b);
  }
}
