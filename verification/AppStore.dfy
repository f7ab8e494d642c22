/**
  The hand-off of application stores: `App::call` of bootloader/kernel/src/app.rs
  and the frame loop of bootloader/kernel/src/main.rs.

  One static slot is lent to every application in turn. An application is any
  function of its process id, the slot and what the frame shows it, to what it
  leaves in the slot.
 */
module AppStore {
  import opened Wrappers

  type Code<!S, !E> = (nat, Option<S>, E) -> Option<S>

  /** One call of one application. */
  datatype Call<E> = Call(app: nat, shown: E)

  /** What an application found in the slot when called, and what it left there. */
  datatype Visit<S> = Visit(app: nat, pid: nat, found: Option<S>, left: Option<S>)

  datatype Program<!S, !E> = Program(pid: nat, code: Code<S, E>)

  /** The static slot `none` and every application's own store. */
  datatype Shelf<S> = Shelf(slot: Option<S>, stores: seq<Option<S>>)

  // ---- The program, assignment by assignment ----

  function Clear<S>(s: Shelf<S>): Shelf<S> {
    s.(slot := None)
  }

  function Lend<S>(s: Shelf<S>, a: nat): Shelf<S>
    requires a < |s.stores|
  {
    Shelf(s.stores[a], s.stores[a := None])
  }

  function Execute<S, E>(s: Shelf<S>, p: Program<S, E>, shown: E): Shelf<S> {
    s.(slot := p.code(p.pid, s.slot, shown))
  }

  function TakeBack<S>(s: Shelf<S>, a: nat): Shelf<S>
    requires a < |s.stores|
  {
    Shelf(None, s.stores[a := s.slot])
  }

  /** The shelf after a run of calls, and the visits the applications made. */
  function Run<S, E>(s: Shelf<S>, ps: seq<Program<S, E>>, calls: seq<Call<E>>): (r: (Shelf<S>, seq<Visit<S>>))
    requires |ps| == |s.stores| && forall c :: c in calls ==> c.app < |ps|
    ensures |r.0.stores| == |s.stores| && |r.1| == |calls|
  {
    if calls == [] then (s, [])
    else
      var n := |calls| - 1;
      var (before, visits) := Run(s, ps, calls[..n]);
      var c := calls[n];
      var lent := Lend(Clear(before), c.app);
      var ran := Execute(lent, ps[c.app], c.shown);
      (TakeBack(ran, c.app), visits + [Visit(c.app, ps[c.app].pid, lent.slot, ran.slot)])
  }

  lemma {:induction false} RunAppends<S, E>(s: Shelf<S>, ps: seq<Program<S, E>>, cs: seq<Call<E>>, ds: seq<Call<E>>)
    requires |ps| == |s.stores| && forall c :: c in cs + ds ==> c.app < |ps|
    ensures (forall c :: c in cs ==> c.app < |ps|) && (forall d :: d in ds ==> d.app < |ps|)
    ensures var (mid, first) := Run(s, ps, cs);
            Run(s, ps, cs + ds) == (Run(mid, ps, ds).0, first + Run(mid, ps, ds).1)
  {
    assert forall c :: c in cs ==> c in cs + ds;
    assert forall d :: d in ds ==> d in cs + ds;
    if ds == [] {
      assert cs + ds == cs;
      var (mid, first) := Run(s, ps, cs);
      assert first + [] == first;
    } else {
      var n := |ds| - 1;
      assert (cs + ds)[..|cs| + n] == cs + ds[..n];
      RunAppends(s, ps, cs, ds[..n]);
      var (mid, first) := Run(s, ps, cs);
      var whole, later := Run(s, ps, cs + ds), Run(mid, ps, ds);
      assert whole.0 == later.0;
      assert whole.1 == first + later.1;
    }
  }

  // ---- One application on its own ----

  /** What application `a` is shown, call by call. */
  function ShownTo<E>(calls: seq<Call<E>>, a: nat): seq<E> {
    if calls == [] then []
    else
      var n := |calls| - 1;
      ShownTo(calls[..n], a) + if calls[n].app == a then [calls[n].shown] else []
  }

  function VisitsOf<S>(visits: seq<Visit<S>>, a: nat): seq<Visit<S>> {
    if visits == [] then []
    else
      var n := |visits| - 1;
      VisitsOf(visits[..n], a) + if visits[n].app == a then [visits[n]] else []
  }

  /** The application alone, its store in its own hands throughout. */
  function Alone<S, E>(a: nat, p: Program<S, E>, store: Option<S>, shown: seq<E>): (r: (Option<S>, seq<Visit<S>>))
    ensures |r.1| == |shown|
  {
    if shown == [] then (store, [])
    else
      var n := |shown| - 1;
      var (found, visits) := Alone(a, p, store, shown[..n]);
      var left := p.code(p.pid, found, shown[n]);
      (left, visits + [Visit(a, p.pid, found, left)])
  }

  /** What the k-th call finds is what call k - 1 left. */
  lemma {:induction false} AloneChains<S, E>(a: nat, p: Program<S, E>, store: Option<S>, shown: seq<E>)
    ensures var (last, visits) := Alone(a, p, store, shown);
            && (forall k :: 0 < k < |visits| ==> visits[k].found == visits[k - 1].left)
            && (visits == [] ==> last == store)
            && (visits != [] ==> visits[0].found == store && last == visits[|visits| - 1].left)
            && (forall k :: 0 <= k < |visits| ==>
                  visits[k].app == a && visits[k].pid == p.pid
                  && visits[k].left == p.code(p.pid, visits[k].found, shown[k]))
  {
    if shown != [] { AloneChains(a, p, store, shown[..|shown| - 1]); }
  }

  // ---- Isolation ----

  /** Seen from one application, any run over the shared slot is a run of that application alone. */
  lemma {:induction false} RunsApart<S, E>(s: Shelf<S>, ps: seq<Program<S, E>>, calls: seq<Call<E>>, a: nat)
    requires |ps| == |s.stores| && (forall c :: c in calls ==> c.app < |ps|) && a < |ps|
    ensures var (s', visits) := Run(s, ps, calls);
            && (s'.stores[a], VisitsOf(visits, a)) == Alone(a, ps[a], s.stores[a], ShownTo(calls, a))
            && (calls != [] ==> s'.slot == None)
  {
    if calls != [] {
      var n := |calls| - 1;
      RunsApart(s, ps, calls[..n], a);
      var (before, made) := Run(s, ps, calls[..n]);
      var (s', visits) := Run(s, ps, calls);
      assert visits[..n] == made;
      var shown := ShownTo(calls[..n], a);
      if calls[n].app == a {
        assert (shown + [calls[n].shown])[..|shown|] == shown;
        assert Clear(before).stores[a] == before.stores[a];
      } else {
        assert s'.stores[a] == before.stores[a];
        assert VisitsOf(visits, a) == VisitsOf(made, a) && ShownTo(calls, a) == shown;
      }
    }
  }

  /** An application's store and visits do not depend on the other applications, their stores, or junk in the slot. */
  lemma {:induction false} OthersDoNotMatter<S, E>(s: Shelf<S>, t: Shelf<S>, ps: seq<Program<S, E>>, qs: seq<Program<S, E>>,
                                                   cs: seq<Call<E>>, ds: seq<Call<E>>, a: nat)
    requires |ps| == |s.stores| && (forall c :: c in cs ==> c.app < |ps|) && a < |ps|
    requires |qs| == |t.stores| && (forall d :: d in ds ==> d.app < |qs|) && a < |qs|
    requires ps[a] == qs[a] && s.stores[a] == t.stores[a] && ShownTo(cs, a) == ShownTo(ds, a)
    ensures Run(s, ps, cs).0.stores[a] == Run(t, qs, ds).0.stores[a]
    ensures VisitsOf(Run(s, ps, cs).1, a) == VisitsOf(Run(t, qs, ds).1, a)
  {
    RunsApart(s, ps, cs, a);
    RunsApart(t, qs, ds, a);
  }

  // ---- Frames ----

  function Round<E>(shown: seq<E>): (r: seq<Call<E>>)
    ensures |r| == |shown|
  {
    seq(|shown|, a requires 0 <= a < |shown| => Call(a, shown[a]))
  }

  /** The frame loop calls every application once a frame, in order. */
  function Frames<E>(shown: seq<seq<E>>): seq<Call<E>> {
    if shown == [] then []
    else Frames(shown[..|shown| - 1]) + Round(shown[|shown| - 1])
  }

  lemma ShownOneMore<E>(calls: seq<Call<E>>, c: Call<E>, a: nat)
    ensures ShownTo(calls + [c], a) == ShownTo(calls, a) + if c.app == a then [c.shown] else []
  {
    assert (calls + [c])[..|calls|] == calls;
  }

  lemma RoundOneMore<E>(shown: seq<E>, n: nat)
    requires 0 < n <= |shown|
    ensures Round(shown)[..n] == Round(shown)[..n - 1] + [Call(n - 1, shown[n - 1])]
  {
  }

  lemma {:induction false} ShownRound<E>(calls: seq<Call<E>>, shown: seq<E>, n: nat, a: nat)
    requires n <= |shown|
    ensures ShownTo(calls + Round(shown)[..n], a) == ShownTo(calls, a) + if a < n then [shown[a]] else []
  {
    if n == 0 {
      assert calls + Round(shown)[..0] == calls;
      assert ShownTo(calls, a) + [] == ShownTo(calls, a);
    } else {
      hide ShownTo, Round;
      ShownRound(calls, shown, n - 1, a);
      RoundOneMore(shown, n);
      var before, c := Round(shown)[..n - 1], Call(n - 1, shown[n - 1]);
      assert calls + (before + [c]) == calls + before + [c];
      ShownOneMore(calls + before, c, a);
      var seen := ShownTo(calls, a);
      assert seen + [] == seen;
    }
  }

  /** Application `a` is called once a frame and sees what frame `k` shows it on its k-th call. */
  lemma {:induction false} OneCallAFrame<E>(shown: seq<seq<E>>, n: nat, a: nat)
    requires (forall k :: 0 <= k < |shown| ==> |shown[k]| == n) && a < n
    ensures ShownTo(Frames(shown), a) == seq(|shown|, k requires 0 <= k < |shown| => shown[k][a])
  {
    if shown != [] {
      var k := |shown| - 1;
      OneCallAFrame(shown[..k], n, a);
      ShownRound(Frames(shown[..k]), shown[k], n, a);
      assert Round(shown[k])[..n] == Round(shown[k]);
    }
  }

  lemma {:induction false} FramesInRange<E>(shown: seq<seq<E>>, n: nat)
    requires forall k :: 0 <= k < |shown| ==> |shown[k]| == n
    ensures forall c :: c in Frames(shown) ==> c.app < n
  {
    if shown != [] { FramesInRange(shown[..|shown| - 1], n); }
  }

  /** After the calls of the frames before, frame `k` calls application 0, 1, ... with what it shows each. */
  lemma {:induction false} FramesInOrder<E>(shown: seq<seq<E>>, k: nat, a: nat)
    requires k < |shown| && a < |shown[k]|
    ensures |Frames(shown[..k])| + |shown[k]| == |Frames(shown[..k + 1])| <= |Frames(shown)|
    ensures Frames(shown)[|Frames(shown[..k])| + a] == Call(a, shown[k][a])
  {
    var last := |shown| - 1;
    assert shown[..k + 1][..k] == shown[..k];
    if k < last {
      FramesInOrder(shown[..last], k, a);
      assert shown[..last][..k] == shown[..k] && shown[..last][..k + 1] == shown[..k + 1];
    } else {
      assert shown[..k + 1] == shown;
    }
  }

  /** Visits are made in the order of the calls. */
  lemma {:induction false} VisitsInOrder<S, E>(s: Shelf<S>, ps: seq<Program<S, E>>, calls: seq<Call<E>>, i: nat)
    requires |ps| == |s.stores| && (forall c :: c in calls ==> c.app < |ps|) && i < |calls|
    ensures calls[i] in calls && Run(s, ps, calls).1[i].app == calls[i].app
    ensures var v := Run(s, ps, calls).1[i]; v.left == ps[v.app].code(v.pid, v.found, calls[i].shown) && v.pid == ps[v.app].pid
  {
    var n := |calls| - 1;
    if i < n { VisitsInOrder(s, ps, calls[..n], i); }
  }

  /** Over any number of frames each application runs as if alone, once a frame, and the slot ends empty. */
  lemma {:induction false} FramesIsolate<S, E>(s: Shelf<S>, ps: seq<Program<S, E>>, shown: seq<seq<E>>, a: nat)
    requires |ps| == |s.stores| && a < |ps| && forall k :: 0 <= k < |shown| ==> |shown[k]| == |ps|
    ensures forall c :: c in Frames(shown) ==> c.app < |ps|
    ensures var (s', visits) := Run(s, ps, Frames(shown));
            var mine := VisitsOf(visits, a);
            && |mine| == |shown| && (shown != [] ==> s'.slot == None)
            && (forall k :: 0 <= k < |mine| ==>
                  && mine[k].pid == ps[a].pid
                  && mine[k].found == (if k == 0 then s.stores[a] else mine[k - 1].left)
                  && mine[k].left == ps[a].code(ps[a].pid, mine[k].found, shown[k][a]))
            && s'.stores[a] == (if shown == [] then s.stores[a] else mine[|shown| - 1].left)
  {
    FramesInRange(shown, |ps|);
    RunsApart(s, ps, Frames(shown), a);
    OneCallAFrame(shown, |ps|, a);
    AloneChains(a, ps[a], s.stores[a], ShownTo(Frames(shown), a));
    if shown != [] { assert |Frames(shown)| >= |Round(shown[|shown| - 1])| > 0; }
  }

  // ---- In place ----

  /** `static mut none` */
  class Slot<S> {
    var content: Option<S>

    constructor ()
      ensures content == None
    {
      content := None;
    }
  }

  class App<!S, !E> {
    const program: Program<S, E>
    var store: Option<S>

    constructor (program: Program<S, E>)
      ensures this.program == program && store == None
    {
      this.program := program;
      store := None;
    }

    /** `App::call` */
    method Invoke(arg: Slot<S>, shown: E) returns (ghost visit: (Option<S>, Option<S>))
      modifies this`store, arg
      ensures arg.content == None
      ensures visit == (old(store), program.code(program.pid, old(store), shown))
      ensures store == visit.1
    {
      arg.content := None;
      var own := store;
      store := None;
      arg.content := own;
      visit := (arg.content, program.code(program.pid, arg.content, shown));
      arg.content := program.code(program.pid, arg.content, shown);
      store := arg.content;
      arg.content := None;
    }
  }

  ghost predicate Distinct<S, E>(apps: seq<App<S, E>>) {
    forall i, j :: 0 <= i < j < |apps| ==> apps[i] != apps[j]
  }

  ghost function Programs<S, E>(apps: seq<App<S, E>>): seq<Program<S, E>> {
    seq(|apps|, i requires 0 <= i < |apps| => apps[i].program)
  }

  ghost function View<S, E>(slot: Slot<S>, apps: seq<App<S, E>>): Shelf<S>
    reads slot, apps
  {
    Shelf(slot.content, seq(|apps|, i requires 0 <= i < |apps| reads apps => apps[i].store))
  }

  /** One turn of the frame loop: every application once, through the one slot. */
  method Frame<S, E>(slot: Slot<S>, apps: seq<App<S, E>>, shown: seq<E>) returns (ghost visits: seq<Visit<S>>)
    requires Distinct(apps) && |shown| == |apps|
    modifies slot, apps
    ensures (View(slot, apps), visits) == Run(old(View(slot, apps)), Programs(apps), Round(shown))
  {
    visits := [];
    ghost var start, ps, calls := View(slot, apps), Programs(apps), Round(shown);
    for a := 0 to |apps|
      invariant (View(slot, apps), visits) == Run(start, ps, calls[..a])
    {
      ghost var before := View(slot, apps);
      ghost var visit := apps[a].Invoke(slot, shown[a]);
      visits := visits + [Visit(a, apps[a].program.pid, visit.0, visit.1)];
      assert calls[..a + 1][..a] == calls[..a];
      assert View(slot, apps).stores == before.stores[a := apps[a].store];
      assert before.stores[a := None][a := apps[a].store] == before.stores[a := apps[a].store];
    }
    assert calls[..|apps|] == calls;
  }

  /** The frame loop, for as many frames as `shown` lists. */
  method Play<S, E>(slot: Slot<S>, apps: seq<App<S, E>>, shown: seq<seq<E>>) returns (ghost visits: seq<Visit<S>>)
    requires Distinct(apps) && forall k :: 0 <= k < |shown| ==> |shown[k]| == |apps|
    modifies slot, apps
    ensures forall c :: c in Frames(shown) ==> c.app < |apps|
    ensures (View(slot, apps), visits) == Run(old(View(slot, apps)), Programs(apps), Frames(shown))
  {
    visits := [];
    ghost var start := View(slot, apps);
    for k := 0 to |shown|
      invariant forall c :: c in Frames(shown[..k]) ==> c.app < |apps|
      invariant (View(slot, apps), visits) == Run(start, Programs(apps), Frames(shown[..k]))
    {
      assert shown[..k + 1][..k] == shown[..k];
      RunAppends(start, Programs(apps), Frames(shown[..k]), Round(shown[k]));
      ghost var more := Frame(slot, apps, shown[k]);
      visits := visits + more;
    }
    assert shown[..|shown|] == shown;
  }
}
