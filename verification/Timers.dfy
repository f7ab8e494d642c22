/**
  Timer wake-ups of bootloader/kernel/src/interrupts.rs: `Timer::poll` looks at
  the clock, registers its task in the first empty waker slot and looks at the
  clock again, while the tick interrupt may arrive between any two of these
  steps and empties all slots.
 */
module Timers {
  import opened Wrappers

  const SLOTS: nat := 128

  // ---- The waker table, on values ----

  /** `add_waker`: the first empty slot, or nowhere. */
  function Register(slots: seq<Option<nat>>, id: nat): seq<Option<nat>> {
    if slots == [] then []
    else if slots[0].None? then [Some(id)] + slots[1..]
    else [slots[0]] + Register(slots[1..], id)
  }

  /** The tasks the tick handler wakes, in slot order. */
  function Registered(slots: seq<Option<nat>>): seq<nat> {
    if slots == [] then []
    else (if slots[0].Some? then [slots[0].value] else []) + Registered(slots[1..])
  }

  function Full(slots: seq<Option<nat>>): bool {
    forall i :: 0 <= i < |slots| ==> slots[i].Some?
  }

  lemma {:induction false} RegisterKeepsOthers(slots: seq<Option<nat>>, id: nat)
    ensures |Register(slots, id)| == |slots|
    ensures forall t :: Some(t) in slots ==> Some(t) in Register(slots, id)
    ensures Some(id) in Register(slots, id) <==> Some(id) in slots || !Full(slots)
    ensures Full(slots) ==> Register(slots, id) == slots
  {
    if slots != [] {
      var rest, out := slots[1..], Register(slots, id);
      if slots[0].None? {
        assert out[0] == Some(id);
        forall t | Some(t) in slots ensures Some(t) in out {
          assert slots == [slots[0]] + rest;
        }
      } else {
        RegisterKeepsOthers(rest, id);
        assert slots == [slots[0]] + rest;
        assert Full(slots) <==> Full(rest) by {
          assert forall i :: 0 <= i < |rest| ==> rest[i] == slots[i + 1];
        }
      }
    }
  }

  /** The first empty slot is the one filled. */
  lemma {:induction false} RegisterAt(slots: seq<Option<nat>>, id: nat, i: nat)
    requires i < |slots| && slots[i].None? && forall j :: 0 <= j < i ==> slots[j].Some?
    ensures Register(slots, id) == slots[i := Some(id)]
  {
    if i > 0 { RegisterAt(slots[1..], id, i - 1); }
  }

  lemma FullKeeps(slots: seq<Option<nat>>, t: nat)
    requires forall i :: 0 <= i < |slots| ==> slots[i].Some?
    ensures Register(slots, t) == slots
  {
    RegisterKeepsOthers(slots, t);
  }

  lemma {:induction false} RegisteredMembers(slots: seq<Option<nat>>, t: nat)
    ensures t in Registered(slots) <==> Some(t) in slots
  {
    if slots != [] {
      RegisteredMembers(slots[1..], t);
      assert slots == [slots[0]] + slots[1..];
    }
  }

  /** Part by part: an empty slot wakes nobody, a filled one its task, once, and slots wake in order. */
  lemma {:induction false} RegisteredInOrder(a: seq<Option<nat>>, b: seq<Option<nat>>, t: nat)
    ensures Registered([None]) == [] && Registered([Some(t)]) == [t]
    ensures Registered(a + b) == Registered(a) + Registered(b)
  {
    RegisteredJoin(a, b);
    var none, one := [None], [Some(t)];
    assert none[1..] == one[1..] == [];
  }

  lemma {:induction false} RegisteredJoin(a: seq<Option<nat>>, b: seq<Option<nat>>)
    ensures Registered(a + b) == Registered(a) + Registered(b)
  {
    if a == [] {
      assert a + b == b;
    } else {
      RegisteredJoin(a[1..], b);
      assert (a + b)[1..] == a[1..] + b && (a + b)[0] == a[0];
      var head := if a[0].Some? then [a[0].value] else [];
      assert Registered(a + b) == head + (Registered(a[1..]) + Registered(b)) == head + Registered(a[1..]) + Registered(b);
    }
  }

  // ---- In place ----

  class WakerTable {
    const slots: array<Option<nat>>
    var now: nat
    var ready: seq<nat>

    constructor ()
      ensures fresh(slots) && slots[..] == seq(128, _ => None) && now == 0 && ready == []
    {
      slots := new Option<nat>[SLOTS](_ => None);
      now, ready := 0, [];
    }

    /** `lapic_timer` */
    method Tick()
      modifies this, slots
      ensures now == old(now) + 1
      ensures ready == old(ready) + Registered(old(slots[..]))
      ensures forall i :: 0 <= i < slots.Length ==> slots[i].None?
    {
      now := now + 1;
      for i := 0 to slots.Length
        invariant now == old(now) + 1
        invariant forall j :: 0 <= j < i ==> slots[j].None?
        invariant slots[i..] == old(slots[..])[i..]
        invariant ready + Registered(old(slots[..])[i..]) == old(ready) + Registered(old(slots[..]))
      {
        assert old(slots[..])[i..][1..] == old(slots[..])[i + 1..] && old(slots[..])[i..][0] == slots[i];
        if slots[i].Some? { ready := ready + [slots[i].value]; }
        slots[i] := None;
      }
      assert old(slots[..])[slots.Length..] == [];
    }

    /** `add_waker`: the slot taken, or 0 for a full table. */
    method AddWaker(id: nat) returns (index: nat)
      modifies slots
      ensures slots[..] == Register(old(slots[..]), id)
      ensures Full(old(slots[..])) ==> index == 0
      ensures !Full(old(slots[..])) ==> index < slots.Length && old(slots[..])[index].None? && slots[index] == Some(id)
      ensures !Full(old(slots[..])) ==> forall j :: 0 <= j < index ==> old(slots[..])[j].Some?
    {
      for i := 0 to slots.Length
        invariant slots[..] == old(slots[..]) && forall j :: 0 <= j < i ==> slots[j].Some?
      {
        if slots[i].None? {
          RegisterAt(slots[..], id, i);
          slots[i] := Some(id);
          return i;
        }
      }
      FullKeeps(slots[..], id);
      return 0;
    }
  }

  // ---- Tasks that sleep, again and again, under interrupts ----

  /** A task inside one `Timer`: about to poll, past the first check, past the registration, pending, or ready at some time. */
  datatype Pc = Fresh | Adding | Checking | Pending | Finished(at: nat)

  datatype Clock = Clock(now: nat, slots: seq<Option<nat>>, ready: seq<nat>, stop: seq<nat>, pcs: seq<Pc>, added: nat)

  datatype Action =
    | Interrupt
    | Sleep(t: nat, ms: nat)
    | First(t: nat, queued: bool)
    | Add(t: nat)
    | Second(t: nat)

  function Remove(xs: seq<nat>, t: nat): seq<nat> {
    if xs == [] then [] else if xs[0] == t then xs[1..] else [xs[0]] + Remove(xs[1..], t)
  }

  /** The first entry of `t` goes, all others stay in order. */
  lemma {:induction false} RemovesFirst(a: seq<nat>, t: nat, b: seq<nat>)
    requires t !in a
    ensures Remove(a + [t] + b, t) == a + b
  {
    var whole := a + [t] + b;
    if a == [] {
      assert whole[0] == t && whole[1..] == b == a + b;
    } else {
      var rest := a[1..];
      RemovesFirst(rest, t, b);
      assert whole[0] == a[0] && whole[1..] == rest + [t] + b;
      assert Remove(whole, t) == [a[0]] + (rest + b);
      assert a == [a[0]] + rest;
    }
  }

  predicate Enabled(c: Clock, a: Action, limit: nat) {
    match a
    case Interrupt => true
    case Sleep(t, ms) => t < |c.pcs| && t < |c.stop| && (c.pcs[t].Fresh? || c.pcs[t].Finished?)
    case First(t, queued) =>
      t < |c.pcs| && t < |c.stop| && (c.pcs[t].Fresh? || c.pcs[t].Pending?) && (queued ==> t in c.ready)
    case Add(t) => t < |c.pcs| && c.pcs[t].Adding? && c.added < limit
    case Second(t) => t < |c.pcs| && t < |c.stop| && c.pcs[t].Checking?
  }

  function Apply(c: Clock, a: Action, limit: nat): Clock
    requires Enabled(c, a, limit)
  {
    match a
    case Interrupt =>
      c.(now := c.now + 1, slots := seq(|c.slots|, _ => None), ready := c.ready + Registered(c.slots), added := 0)
    case Sleep(t, ms) => c.(stop := c.stop[t := c.now + ms], pcs := c.pcs[t := Fresh])
    case First(t, queued) =>
      c.(ready := if queued then Remove(c.ready, t) else c.ready,
         pcs := c.pcs[t := if c.now >= c.stop[t] then Finished(c.now) else Adding])
    case Add(t) => c.(slots := Register(c.slots, t), pcs := c.pcs[t := Checking], added := c.added + 1)
    case Second(t) => c.(pcs := c.pcs[t := if c.now >= c.stop[t] then Finished(c.now) else Pending])
  }

  predicate Start(c: Clock, k: nat) {
    && |c.stop| == k && c.pcs == seq(k, _ => Fresh)
    && c.slots == seq(SLOTS, _ => None) && c.ready == [] && c.added == 0
  }

  ghost predicate Run(c: Clock, actions: seq<Action>, limit: nat, c': Clock)
    decreases |actions|
  {
    if actions == [] then c' == c
    else Enabled(c, actions[0], limit) && Run(Apply(c, actions[0], limit), actions[1..], limit, c')
  }

  /** A pending task will be polled again: it is queued, or registered for the next tick. No timer is early. */
  ghost predicate Awake(c: Clock) {
    && (forall t :: 0 <= t < |c.pcs| && c.pcs[t].Pending? ==> Some(t) in c.slots || t in c.ready)
    && (forall t :: 0 <= t < |c.pcs| && t < |c.stop| && c.pcs[t].Finished? ==> c.stop[t] <= c.pcs[t].at <= c.now)
  }

  ghost predicate Inv(c: Clock) {
    && Awake(c) && |c.pcs| == |c.stop| && |c.slots| == SLOTS
    && (forall t :: 0 <= t < |c.pcs| && c.pcs[t].Checking? ==> Some(t) in c.slots || t in c.ready)
    && (forall i :: 0 <= i < SLOTS ==> (c.slots[i].Some? <==> i < c.added))
    && (forall i :: 0 <= i < SLOTS && c.slots[i].Some? ==> c.slots[i].value < |c.pcs|)
  }

  lemma {:induction false} RemoveKeepsOthers(xs: seq<nat>, t: nat, u: nat)
    requires u != t && u in xs
    ensures u in Remove(xs, t)
  {
    if xs[0] != t && xs[0] != u { RemoveKeepsOthers(xs[1..], t, u); }
  }

  lemma {:induction false} InterruptKeeps(c: Clock, limit: nat)
    requires Inv(c)
    ensures Inv(Apply(c, Interrupt, limit))
  {
    forall t ensures t in Registered(c.slots) <==> Some(t) in c.slots { RegisteredMembers(c.slots, t); }
  }

  lemma {:induction false} FirstKeeps(c: Clock, t: nat, queued: bool, limit: nat)
    requires Inv(c) && Enabled(c, First(t, queued), limit)
    ensures Inv(Apply(c, First(t, queued), limit))
  {
    forall u | u in c.ready && u != t ensures u in Remove(c.ready, t) { RemoveKeepsOthers(c.ready, t, u); }
  }

  /** A full table loses the registration, unless all its wakers are this very task's. */
  lemma {:induction false} AddKeeps(c: Clock, t: nat, limit: nat)
    requires Inv(c) && Enabled(c, Add(t), limit) && (c.added < SLOTS || |c.pcs| <= 1)
    ensures Inv(Apply(c, Add(t), limit))
  {
    hide Register;
    RegisterKeepsOthers(c.slots, t);
    if c.added < SLOTS {
      RegisterAt(c.slots, t, c.added);
      assert Some(t) in c.slots[c.added := Some(t)] by { assert c.slots[c.added := Some(t)][c.added] == Some(t); }
    } else {
      hide Full;
      FullKeeps(c.slots, t);
      assert c.slots[0].Some? && c.slots[0].value == t;
    }
  }

  lemma {:induction false} StepKeeps(c: Clock, a: Action, limit: nat)
    requires Inv(c) && Enabled(c, a, limit) && (limit <= SLOTS || |c.pcs| <= 1)
    ensures Inv(Apply(c, a, limit)) && |Apply(c, a, limit).pcs| == |c.pcs|
  {
    match a
    case Interrupt => InterruptKeeps(c, limit);
    case Sleep(_, _) =>
    case First(t, queued) => FirstKeeps(c, t, queued, limit);
    case Add(t) => AddKeeps(c, t, limit);
    case Second(_) =>
  }

  lemma {:induction false} RunKeeps(c: Clock, actions: seq<Action>, limit: nat, c': Clock)
    requires Inv(c) && Run(c, actions, limit, c') && (limit <= SLOTS || |c.pcs| <= 1)
    ensures Inv(c')
    decreases |actions|
  {
    hide Inv;
    if actions != [] {
      StepKeeps(c, actions[0], limit);
      RunKeeps(Apply(c, actions[0], limit), actions[1..], limit, c');
    }
  }

  // ---- When a timer is ready ----

  function Ticks(actions: seq<Action>): nat {
    if actions == [] then 0 else (if actions[0].Interrupt? then 1 else 0) + Ticks(actions[1..])
  }

  /** `t` does not begin another sleep. */
  predicate OneSleep(actions: seq<Action>, t: nat) {
    forall i :: 0 <= i < |actions| && actions[i].Sleep? ==> actions[i].t != t
  }

  /** What the polls of `t` answer now: ready exactly from clock `due` on. */
  ghost predicate ReadyFrom(c: Clock, t: nat, due: nat, limit: nat) {
    && t < |c.pcs|
    && (forall queued :: Enabled(c, First(t, queued), limit) ==>
          Apply(c, First(t, queued), limit).pcs[t] == if c.now >= due then Finished(c.now) else Adding)
    && (Enabled(c, Second(t), limit) ==>
          Apply(c, Second(t), limit).pcs[t] == if c.now >= due then Finished(c.now) else Pending)
    && (c.pcs[t].Finished? ==> due <= c.pcs[t].at <= c.now)
  }

  ghost predicate Due(c: Clock, t: nat, due: nat) {
    && t < |c.pcs| && t < |c.stop| && c.stop[t] == due
    && (c.pcs[t].Finished? ==> due <= c.pcs[t].at <= c.now)
  }

  lemma {:induction false} RunKeepsDue(c: Clock, actions: seq<Action>, limit: nat, c': Clock, t: nat, due: nat)
    requires Due(c, t, due) && Run(c, actions, limit, c') && OneSleep(actions, t)
    ensures Due(c', t, due) && c'.now == c.now + Ticks(actions)
    decreases |actions|
  {
    if actions != [] {
      hide Registered, Register, Remove;
      RunKeepsDue(Apply(c, actions[0], limit), actions[1..], limit, c', t, due);
    }
  }

  /**
    A task that begins to sleep for `ms` at time T: from then on, until it sleeps
    again, both looks at the clock answer `Ready` at T + ms and later, and not
    before, whatever happens meanwhile; the clock counts the ticks.
   */
  lemma {:induction false} ReadyExactly(c: Clock, t: nat, ms: nat, actions: seq<Action>, limit: nat, c': Clock)
    requires Enabled(c, Sleep(t, ms), limit) && Run(Apply(c, Sleep(t, ms), limit), actions, limit, c') && OneSleep(actions, t)
    ensures c'.now == c.now + Ticks(actions) && ReadyFrom(c', t, c.now + ms, limit)
  {
    hide Run;
    RunKeepsDue(Apply(c, Sleep(t, ms), limit), actions, limit, c', t, c.now + ms);
  }

  function Interrupts(n: nat): (actions: seq<Action>)
    ensures |actions| == n && forall i :: 0 <= i < n ==> actions[i] == Interrupt
  {
    seq(n, _ => Interrupt)
  }

  lemma {:induction false} RunInterrupts(c: Clock, n: nat, limit: nat) returns (c': Clock)
    requires Inv(c)
    ensures Run(c, Interrupts(n), limit, c') && Inv(c') && c'.pcs == c.pcs && c'.stop == c.stop && c'.now == c.now + n
    ensures forall t :: t in c.ready || (n > 0 && Some(t) in c.slots) ==> t in c'.ready
    decreases n
  {
    if n == 0 {
      c' := c;
    } else {
      InterruptKeeps(c, limit);
      RegisteredAll(c.slots);
      c' := RunInterrupts(Apply(c, Interrupt, limit), n - 1, limit);
      assert Interrupts(n)[1..] == Interrupts(n - 1);
    }
  }

  lemma RegisteredAll(slots: seq<Option<nat>>)
    ensures forall t :: t in Registered(slots) <==> Some(t) in slots
  {
    forall t ensures t in Registered(slots) <==> Some(t) in slots { RegisteredMembers(slots, t); }
  }

  /** No sleep goes on for ever: once ticks have brought the clock to T + ms, a pending task is queued, and its poll is ready. */
  lemma {:induction false} SleepEnds(c0: Clock, k: nat, before: seq<Action>, c: Clock, t: nat, ms: nat, actions: seq<Action>,
                                     c': Clock, n: nat, limit: nat) returns (c'': Clock)
    requires Start(c0, k) && (limit <= SLOTS || k <= 1) && Run(c0, before, limit, c)
    requires Enabled(c, Sleep(t, ms), limit) && Run(Apply(c, Sleep(t, ms), limit), actions, limit, c') && OneSleep(actions, t)
    requires t < |c'.pcs| && c'.pcs[t].Pending? && n > 0 && c'.now + n >= c.now + ms
    ensures Run(c', Interrupts(n), limit, c'') && t in c''.ready && Enabled(c'', First(t, true), limit)
    ensures Apply(c'', First(t, true), limit).pcs[t] == Finished(c'.now + n)
  {
    hide Run;
    RunKeeps(c0, before, limit, c);
    SamePcs(c0, before, limit, c);
    var c1 := Apply(c, Sleep(t, ms), limit);
    StepKeeps(c, Sleep(t, ms), limit);
    RunKeeps(c1, actions, limit, c');
    RunKeepsDue(c1, actions, limit, c', t, c.now + ms);
    c'' := RunInterrupts(c', n, limit);
  }

  lemma {:induction false} SamePcs(c: Clock, actions: seq<Action>, limit: nat, c': Clock)
    requires Inv(c) && Run(c, actions, limit, c') && (limit <= SLOTS || |c.pcs| <= 1)
    ensures |c'.pcs| == |c.pcs|
    decreases |actions|
  {
    hide Inv;
    if actions != [] {
      StepKeeps(c, actions[0], limit);
      SamePcs(Apply(c, actions[0], limit), actions[1..], limit, c');
    }
  }

  ghost predicate NeverLost(c: Clock, limit: nat) {
    forall actions, c' :: Run(c, actions, limit, c') ==> Awake(c')
  }

  /** One timer polled once fills the next slot. */
  lemma {:induction false} FillOne(c: Clock, limit: nat) returns (c': Clock)
    requires Inv(c) && |c.pcs| >= 2 && c.now < c.stop[0] && (c.pcs[0].Fresh? || c.pcs[0].Pending?)
    requires c.added < SLOTS < limit
    ensures Run(c, [First(0, false), Add(0), Second(0)], limit, c') && Inv(c')
    ensures c' == c.(slots := c.slots[c.added := Some(0)], pcs := c.pcs[0 := Pending], added := c.added + 1)
  {
    var c1 := Apply(c, First(0, false), limit);
    FirstKeeps(c, 0, false, limit);
    var c2 := Apply(c1, Add(0), limit);
    AddKeeps(c1, 0, limit);
    c' := Apply(c2, Second(0), limit);
    RegisterAt(c.slots, 0, c.added);
    assert c'.pcs == c.pcs[0 := Pending];
    var actions := [First(0, false), Add(0), Second(0)];
    assert actions[1..] == [Add(0), Second(0)] && actions[1..][1..] == [Second(0)] && [Second(0)][1..] == [];
    assert Run(c2, [Second(0)], limit, c');
    assert Run(c1, [Add(0), Second(0)], limit, c');
  }

  /** One timer polled over and over fills the table. */
  lemma {:induction false} FillTable(c: Clock, n: nat, limit: nat) returns (actions: seq<Action>, c': Clock)
    requires Inv(c) && |c.pcs| >= 2 && c.now < c.stop[0] && (c.pcs[0].Fresh? || c.pcs[0].Pending?) && c.pcs[1].Fresh?
    requires c.added + n == SLOTS < limit && c.ready == [] && forall i :: 0 <= i < c.added ==> c.slots[i] == Some(0)
    ensures Run(c, actions, limit, c') && c'.added == SLOTS == |c'.slots| && c'.ready == [] && |c'.pcs| == |c.pcs|
    ensures c'.stop == c.stop && c'.now == c.now && c'.pcs[1].Fresh? && forall i :: 0 <= i < SLOTS ==> c'.slots[i] == Some(0)
    decreases n
  {
    if n == 0 {
      actions, c' := [], c;
    } else {
      var c1 := FillOne(c, limit);
      var rest;
      rest, c' := FillTable(c1, n - 1, limit);
      actions := [First(0, false), Add(0), Second(0)] + rest;
      RunTogether(c, [First(0, false), Add(0), Second(0)], c1, rest, c', limit);
    }
  }

  lemma {:induction false} RunTogether(c: Clock, actions: seq<Action>, c1: Clock, more: seq<Action>, c': Clock, limit: nat)
    requires Run(c, actions, limit, c1) && Run(c1, more, limit, c')
    ensures Run(c, actions + more, limit, c')
    decreases |actions|
  {
    if actions == [] {
      assert actions + more == more;
    } else {
      assert (actions + more)[1..] == actions[1..] + more;
      RunTogether(Apply(c, actions[0], limit), actions[1..], c1, more, c', limit);
    }
  }

  /** Two tasks begin to sleep for a while. */
  lemma {:induction false} BothSleep(c: Clock, k: nat, limit: nat) returns (c': Clock)
    requires Start(c, k) && k >= 2
    ensures Run(c, [Sleep(0, 1), Sleep(1, 1)], limit, c')
    ensures Inv(c') && c' == c.(stop := c'.stop) && c'.now < c'.stop[0] && c'.now < c'.stop[1]
  {
    var c1 := Apply(c, Sleep(0, 1), limit);
    c' := Apply(c1, Sleep(1, 1), limit);
    assert [Sleep(0, 1), Sleep(1, 1)][1..] == [Sleep(1, 1)] && [Sleep(1, 1)][1..] == [];
    assert Run(c1, [Sleep(1, 1)], limit, c');
    assert c'.pcs == c.pcs;
  }

  /** Task 1 registers in a full table and pends. */
  lemma {:induction false} PendsUnregistered(c: Clock, limit: nat) returns (c': Clock)
    requires |c.pcs| >= 2 && |c.stop| >= 2 && c.pcs[1].Fresh? && c.now < c.stop[1] && c.ready == [] && c.added == SLOTS < limit
    requires |c.slots| == SLOTS && forall i :: 0 <= i < SLOTS ==> c.slots[i] == Some(0)
    ensures Run(c, [First(1, false), Add(1), Second(1)], limit, c') && !Awake(c')
  {
    var c1 := Apply(c, First(1, false), limit);
    var c2 := Apply(c1, Add(1), limit);
    c' := Apply(c2, Second(1), limit);
    RegisterKeepsOthers(c.slots, 1);
    var actions := [First(1, false), Add(1), Second(1)];
    assert Run(c2, actions[2..], limit, c') by { assert actions[2..][1..] == []; }
    assert Run(c1, actions[1..], limit, c') by { assert actions[1..][1..] == actions[2..]; }
  }

  /** With room for one registration more than there are slots, a run leaves a timer asleep for good. */
  lemma {:induction false} OverfullLosesOne(c: Clock, k: nat, limit: nat) returns (actions: seq<Action>, c': Clock)
    requires Start(c, k) && k >= 2 && limit > SLOTS
    ensures Run(c, actions, limit, c') && !Awake(c')
  {
    hide Run, Inv, Awake;
    var c0 := BothSleep(c, k, limit);
    var fill, c1 := FillTable(c0, SLOTS, limit);
    c' := PendsUnregistered(c1, limit);
    RunTogether(c, [Sleep(0, 1), Sleep(1, 1)], c0, fill, c1, limit);
    actions := [Sleep(0, 1), Sleep(1, 1)] + fill + [First(1, false), Add(1), Second(1)];
    RunTogether(c, [Sleep(0, 1), Sleep(1, 1)] + fill, c1, [First(1, false), Add(1), Second(1)], c', limit);
  }

  /**
    No wake-up is lost, however ticks interleave and however often tasks sleep, exactly
    when at most 128 registrations are made between two ticks or there is one task at most.
   */
  lemma {:induction false} NoLostTick(c: Clock, k: nat, limit: nat)
    requires Start(c, k)
    ensures NeverLost(c, limit) <==> limit <= 128 || k <= 1
  {
    hide Run;
    if limit <= SLOTS || k <= 1 {
      forall actions, c' | Run(c, actions, limit, c') ensures Awake(c') { RunKeeps(c, actions, limit, c'); }
    } else {
      var actions, c' := OverfullLosesOne(c, k, limit);
    }
  }
}
