/**
 The exit latch of a bridged child: the host stores the code and then notifies the waiters; `Child::wait` makes its
 notification future, then looks for a code, then parks on the future.

 A `notified()` future is woken by any `notify_waiters` issued after the future was made, so it is modelled by the
 number of notifications issued before it. Host and waiters interleave freely and a waiter may be cancelled anywhere.
 */
module ExitLatch {
  import opened Machine

  datatype Waiter =
    | Starting            // top of the loop
    | Armed(seen: nat)    // holds a future made after `seen` notifications
    | Parked(seen: nat)   // found no code, awaits the future
    | Returned(code: int)

  /** `owed`: codes stored whose notification is still to come. `stored`: every code ever stored, in order. */
  datatype State = State(code: Option<int>, notified: nat, owed: nat, waiters: map<nat, Waiter>, stored: seq<int>)

  datatype Event =
    | Store(c: int) | Notify
    | Call(w: nat) | Arm(w: nat) | Check(w: nat) | Wake(w: nat) | Cancel(w: nat)

  const INIT := State(None, 0, 0, map[], [])

  function Step(s: State, e: Event): Option<State>
  {
    match e
    case Store(c) => Some(s.(code := Some(c), owed := s.owed + 1, stored := s.stored + [c]))
    case Notify => if s.owed > 0 then Some(s.(notified := s.notified + 1, owed := s.owed - 1)) else None
    case Call(w) => if w in s.waiters then None else Some(s.(waiters := s.waiters[w := Starting]))
    case Arm(w) =>
      if w in s.waiters && s.waiters[w] == Starting then Some(s.(waiters := s.waiters[w := Armed(s.notified)]))
      else None
    case Check(w) =>
      if w in s.waiters && s.waiters[w].Armed? then
        var next := match s.code case Some(c) => Returned(c) case None => Parked(s.waiters[w].seen);
        Some(s.(waiters := s.waiters[w := next]))
      else None
    case Wake(w) =>
      if w in s.waiters && Woken(s, w) then Some(s.(waiters := s.waiters[w := Starting])) else None
    case Cancel(w) => if w in s.waiters then Some(s.(waiters := s.waiters - {w})) else None
  }

  predicate Woken(s: State, w: nat)
    requires w in s.waiters
  {
    s.waiters[w].Parked? && s.waiters[w].seen < s.notified
  }

  ghost predicate WaiterInv(s: State, v: Waiter)
  {
    match v
    case Starting => true
    case Armed(seen) => seen <= s.notified
    case Parked(seen) => seen <= s.notified && (s.code.Some? && seen == s.notified ==> s.owed > 0)
    case Returned(c) => c in s.stored
  }

  ghost predicate Inv(s: State)
  {
    && (s.code == if s.stored == [] then None else Some(s.stored[|s.stored| - 1]))
    && s.notified + s.owed == |s.stored|
    && forall w :: w in s.waiters ==> WaiterInv(s, s.waiters[w])
  }

  lemma StepKeepsInv(s: State, e: Event)
    requires Inv(s) && Step(s, e).Some?
    ensures Inv(Step(s, e).value)
  {
    var t := Step(s, e).value;
    forall w | w in t.waiters ensures WaiterInv(t, t.waiters[w]) {
      if w in s.waiters {
        assert WaiterInv(s, s.waiters[w]);
        if e.Store? && s.waiters[w].Returned? { assert s.waiters[w].code in s.stored + [e.c]; }
      }
    }
  }

  lemma {:induction false} ReachableInv(es: seq<Event>)
    requires Run(Step, INIT, es).Some?
    ensures Inv(Run(Step, INIT, es).value)
  {
    assert Inductive(Step, Inv) by {
      forall s, e | Inv(s) && Step(s, e).Some? ensures Inv(Step(s, e).value) { StepKeepsInv(s, e); }
    }
    Invariance(Step, Inv, INIT, es);
  }

  /**
   No lost wakeup, and no made-up code: once a code is stored and its notification issued, every parked waiter has
   been woken; a waiter that returned reports a code the host stored, the only one if the host reports one exit.
   */
  lemma {:induction false} NoLostWakeup(es: seq<Event>, w: nat)
    requires Run(Step, INIT, es).Some? && w in Run(Step, INIT, es).value.waiters
    ensures var s := Run(Step, INIT, es).value;
            && (s.code.Some? && s.owed == 0 && s.waiters[w].Parked? ==> Woken(s, w))
            && (s.waiters[w].Returned? ==> s.waiters[w].code in s.stored)
            && (s.waiters[w].Returned? && |s.stored| == 1 ==> s.code == Some(s.waiters[w].code))
  {
    ReachableInv(es);
    var s := Run(Step, INIT, es).value;
    assert WaiterInv(s, s.waiters[w]);
  }

  /** The codes reported by these events, in order. */
  function Reported(es: seq<Event>): (codes: seq<int>)
  {
    if es == [] then []
    else
      var pre, e := es[..|es| - 1], es[|es| - 1];
      if e.Store? then Reported(pre) + [e.c] else Reported(pre)
  }

  /** The waiter has called wait() and was not cancelled since. */
  ghost predicate WaitsSince(es: seq<Event>, w: nat)
  {
    Since(es, false, e => e == Call(w), e => e == Cancel(w))
  }

  lemma WaitersAfter(s: State, e: Event, w: nat)
    requires Step(s, e).Some?
    ensures w in Step(s, e).value.waiters <==> e == Call(w) || (w in s.waiters && e != Cancel(w))
  {}

  /** Who has called wait() and was not cancelled is there, and nobody else. */
  lemma {:induction false} WaitersByEvents(es: seq<Event>, w: nat)
    requires Run(Step, INIT, es).Some?
    ensures w in Run(Step, INIT, es).value.waiters <==> WaitsSince(es, w)
    decreases |es|
  {
    if es == [] {
    } else {
      RunLast(Step, INIT, es);
      WaitersByEvents(es[..|es| - 1], w);
      WaitersAfter(Run(Step, INIT, es[..|es| - 1]).value, es[|es| - 1], w);
      SinceLast(es, false, e => e == Call(w), e => e == Cancel(w));
    }
  }

  lemma StoredAfter(s: State, e: Event)
    requires Step(s, e).Some?
    ensures Step(s, e).value.stored == if e.Store? then s.stored + [e.c] else s.stored
  {}

  lemma {:induction false} StoredByEvents(es: seq<Event>)
    requires Run(Step, INIT, es).Some?
    ensures Run(Step, INIT, es).value.stored == Reported(es)
    decreases |es|
  {
    if es == [] {
    } else {
      RunLast(Step, INIT, es);
      StoredByEvents(es[..|es| - 1]);
      StoredAfter(Run(Step, INIT, es[..|es| - 1]).value, es[|es| - 1]);
    }
  }

  /** The code is the last one the host has reported, and every notification given or owed is for a report. */
  lemma {:induction false} CodeByEvents(es: seq<Event>)
    requires Run(Step, INIT, es).Some?
    ensures var s, codes := Run(Step, INIT, es).value, Reported(es);
            && s.stored == codes && s.notified + s.owed == |codes|
            && s.code == if codes == [] then None else Some(codes[|codes| - 1])
  {
    ReachableInv(es);
    StoredByEvents(es);
  }

  /** What waiter w still has to do by itself once the code is there. */
  function WayOut(v: Waiter, w: nat): (es: seq<Event>)
    ensures |es| <= 3
  {
    match v
    case Starting => [Arm(w), Check(w)]
    case Armed(_) => [Check(w)]
    case Parked(_) => [Wake(w), Arm(w), Check(w)]
    case Returned(_) => []
  }

  /** So every waiter, wherever it is, can return the stored code in at most three steps of its own. */
  lemma {:induction false} EveryWaiterCanReturn(es: seq<Event>, w: nat)
    requires Run(Step, INIT, es).Some?
    requires var s := Run(Step, INIT, es).value;
             s.code.Some? && s.owed == 0 && w in s.waiters && !s.waiters[w].Returned?
    ensures var s := Run(Step, INIT, es).value;
            var r := Run(Step, s, WayOut(s.waiters[w], w));
            r.Some? && w in r.value.waiters && r.value.waiters[w] == Returned(s.code.value)
  {
    ReachableInv(es);
    TakesItsWayOut(Run(Step, INIT, es).value, w);
  }

  lemma TakesItsWayOut(s: State, w: nat)
    requires Inv(s) && s.code.Some? && s.owed == 0 && w in s.waiters && !s.waiters[w].Returned?
    ensures var r := Run(Step, s, WayOut(s.waiters[w], w));
            r.Some? && w in r.value.waiters && r.value.waiters[w] == Returned(s.code.value)
  {
    assert WaiterInv(s, s.waiters[w]);
    var way := WayOut(s.waiters[w], w);
    match s.waiters[w]
    case Starting => FromTheTop(s, w);
    case Armed(_) => assert way[1..] == [];
    case Parked(_) =>
      assert way[1..] == [Arm(w), Check(w)];
      FromTheTop(Step(s, Wake(w)).value, w);
    case Returned(_) =>
  }

  lemma FromTheTop(s: State, w: nat)
    requires s.code.Some? && w in s.waiters && s.waiters[w] == Starting
    ensures var r := Run(Step, s, [Arm(w), Check(w)]);
            r.Some? && w in r.value.waiters && r.value.waiters[w] == Returned(s.code.value)
  {
    RunTwo(Step, s, Arm(w), Check(w));
  }

  /** One exit report of the host, uninterrupted on its thread: afterwards every waiter can return the code. */
  lemma {:induction false} ReportWakesEveryWaiter(es: seq<Event>, code: int, w: nat)
    requires Run(Step, INIT, es).Some? && Run(Step, INIT, es).value.owed == 0
    requires var s := Run(Step, INIT, es).value; w in s.waiters && !s.waiters[w].Returned?
    ensures var r := Run(Step, Run(Step, INIT, es).value, [Store(code), Notify]);
            && r.Some? && r.value.code == Some(code) && r.value.waiters == Run(Step, INIT, es).value.waiters
            && var out := Run(Step, r.value, WayOut(r.value.waiters[w], w));
               out.Some? && w in out.value.waiters && out.value.waiters[w] == Returned(code)
  {
    var s := Run(Step, INIT, es).value;
    RunTwo(Step, s, Store(code), Notify);
    RunSplit(Step, INIT, es, [Store(code), Notify]);
    EveryWaiterCanReturn(es + [Store(code), Notify], w);
  }
}
