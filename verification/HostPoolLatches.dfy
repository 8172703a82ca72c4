/**
 The bridge together with the exit latches of its children, one each: the host's report stores the code and then
 notifies, in one call on its thread, while any number of waiters come, park, are woken and are cancelled.
 */
module HostPoolLatches {
  import opened Machine
  import opened HostPool
  import opened HostPoolIds
  import opened HostPoolRegistries
  import L = ExitLatch

  /** `notifying`: the child whose code is stored and whose notification the host is about to issue. */
  datatype Joint = Joint(pool: State, latches: seq<L.State>, notifying: Option<nat>)

  datatype JointEvent = Pool(e: Event) | Notify | Wait(i: nat, w: L.Event)

  const START := Joint(INIT, [], None)

  predicate OfWaiter(e: L.Event)
  {
    !e.Store? && !e.Notify?
  }

  function WithLatch(s: Joint, i: nat, l: L.State): Joint
    requires i < |s.latches|
  {
    s.(latches := s.latches[i := l])
  }

  function PoolStep(s: Joint, e: Event): Option<Joint>
  {
    if s.notifying.Some? && HostEvent(e) then None
    else match Step(s.pool, e)
      case None => None
      case Some(p) =>
        var t := s.(pool := p);
        if e.SpawnReserve? then Some(t.(latches := t.latches + [L.INIT]))
        else if e.ExitStore? && s.pool.busy.Exiting? && s.pool.busy.i < |s.latches| then
          var i := s.pool.busy.i;
          Some(WithLatch(t, i, L.Step(s.latches[i], L.Store(s.pool.busy.code)).value).(notifying := Some(i)))
        else Some(t)
  }

  function JointStep(s: Joint, e: JointEvent): Option<Joint>
  {
    match e
    case Pool(pe) => PoolStep(s, pe)
    case Notify =>
      if s.notifying.None? || s.notifying.value >= |s.latches| then None
      else (
        var i := s.notifying.value;
        match L.Step(s.latches[i], L.Notify)
        case None => None
        case Some(l) => Some(WithLatch(s, i, l).(notifying := None)))
    case Wait(i, w) =>
      if i >= |s.latches| || !OfWaiter(w) then None
      else (
        match L.Step(s.latches[i], w)
        case None => None
        case Some(l) => Some(WithLatch(s, i, l)))
  }

  // ---------------------------------------------------------------------------------------------------------
  // What every step keeps
  // ---------------------------------------------------------------------------------------------------------

  /** The latch of child i: a reachable one, with the child's code, owing a notification only within the report. */
  ghost predicate LatchInv(s: Joint, i: nat)
    requires i < |s.latches| && i < |s.pool.children|
  {
    && L.Inv(s.latches[i])
    && s.latches[i].code == s.pool.children[i].code
    && s.latches[i].owed == if s.notifying == Some(i) then 1 else 0
  }

  ghost predicate JointInv(s: Joint)
  {
    && |s.latches| == |s.pool.children|
    && (s.notifying.Some? ==> s.notifying.value < |s.latches|)
    && forall i: nat :: i < |s.latches| ==> LatchInv(s, i)
  }

  predicate SameCodes(s: State, t: State)
  {
    |t.children| == |s.children| && forall i :: 0 <= i < |s.children| ==> t.children[i].code == s.children[i].code
  }

  lemma OthersKeepCodes(s: State, e: Event)
    requires Step(s, e).Some? && !e.SpawnReserve? && !e.ExitStore?
    ensures SameCodes(s, Step(s, e).value)
  {
    if e.SpawnStreams? { SpawnFields(s, e.i); }
    else if OfChild(e) { ChildStepsKeepCodes(s, e); }
    else { OthersLeaveProcs(s, e); }
  }

  lemma ChildStepsKeepCodes(s: State, e: Event)
    requires Step(s, e).Some? && OfChild(e) && !e.SpawnStreams? && !e.ExitStore?
    ensures SameCodes(s, Step(s, e).value)
  {}

  lemma UntouchedLatch(s: Joint, t: Joint, i: nat)
    requires i < |s.latches| && i < |s.pool.children| && i < |t.latches| && i < |t.pool.children| && LatchInv(s, i)
    requires t.latches[i] == s.latches[i] && t.pool.children[i].code == s.pool.children[i].code
    requires t.notifying == Some(i) <==> s.notifying == Some(i)
    ensures LatchInv(t, i)
  {}

  lemma LatchStores(l: L.State, code: int)
    requires L.Inv(l)
    ensures var m := L.Step(l, L.Store(code)).value; L.Inv(m) && m.code == Some(code) && m.owed == l.owed + 1
  {
    L.StepKeepsInv(l, L.Store(code));
  }

  lemma LatchNotifies(l: L.State)
    requires L.Inv(l) && L.Step(l, L.Notify).Some?
    ensures var m := L.Step(l, L.Notify).value; L.Inv(m) && m.code == l.code && m.owed == l.owed - 1
  {
    L.StepKeepsInv(l, L.Notify);
  }

  lemma LatchWaits(l: L.State, w: L.Event)
    requires L.Inv(l) && OfWaiter(w) && L.Step(l, w).Some?
    ensures var m := L.Step(l, w).value; L.Inv(m) && m.code == l.code && m.owed == l.owed
  {
    L.StepKeepsInv(l, w);
  }

  /** Nothing stored, nobody waiting. */
  predicate Unused(l: L.State)
  {
    l == L.State(None, 0, 0, map[], [])
  }

  lemma UnusedIsFine(l: L.State)
    requires Unused(l)
    ensures L.Inv(l)
  {}

  lemma PoolStepKeepsInv(s: Joint, e: Event)
    requires JointInv(s) && PoolStep(s, e).Some?
    ensures JointInv(PoolStep(s, e).value)
  {
    if e.SpawnReserve? {
      ReserveKeepsInv(s);
    } else if e.ExitStore? {
      StoreKeepsInv(s);
    } else {
      OthersKeepCodes(s.pool, e);
      var t := PoolStep(s, e).value;
      forall i: nat | i < |t.latches| ensures LatchInv(t, i) { UntouchedLatch(s, t, i); }
    }
  }

  lemma ReserveAdds(s: Joint)
    requires PoolStep(s, SpawnReserve).Some?
    ensures var t := PoolStep(s, SpawnReserve).value;
            && t.latches == s.latches + [L.INIT] && t.notifying == s.notifying
            && |t.pool.children| == |s.pool.children| + 1 && t.pool.children[|s.pool.children|].code == None
            && forall i :: 0 <= i < |s.pool.children| ==> t.pool.children[i].code == s.pool.children[i].code
  {}

  lemma ReserveKeepsInv(s: Joint)
    requires JointInv(s) && PoolStep(s, SpawnReserve).Some?
    ensures JointInv(PoolStep(s, SpawnReserve).value)
  {
    ReserveAdds(s);
    OneMoreLatch(s, PoolStep(s, SpawnReserve).value, L.INIT);
  }

  lemma OneMoreLatch(s: Joint, t: Joint, l: L.State)
    requires JointInv(s) && t.latches == s.latches + [l] && t.notifying == s.notifying && Unused(l)
    requires |t.pool.children| == |s.pool.children| + 1 && t.pool.children[|s.pool.children|].code == None
    requires forall i :: 0 <= i < |s.pool.children| ==> t.pool.children[i].code == s.pool.children[i].code
    ensures JointInv(t)
  {
    forall i: nat | i < |t.latches| ensures LatchInv(t, i) {
      if i < |s.latches| { UntouchedLatch(s, t, i); } else { NewLatch(t, i); }
    }
  }

  lemma NewLatch(t: Joint, i: nat)
    requires i < |t.latches| && i < |t.pool.children| && Unused(t.latches[i]) && t.pool.children[i].code == None
    requires t.notifying != Some(i)
    ensures LatchInv(t, i)
  {
    UnusedIsFine(t.latches[i]);
  }

  lemma StoreKeepsInv(s: Joint)
    requires JointInv(s) && PoolStep(s, ExitStore).Some?
    ensures JointInv(PoolStep(s, ExitStore).value)
  {
    var t, j := PoolStep(s, ExitStore).value, s.pool.busy.i;
    assert LatchInv(s, j);
    LatchStores(s.latches[j], s.pool.busy.code);
    forall i: nat | i < |t.latches| ensures LatchInv(t, i) {
      if i != j { UntouchedLatch(s, t, i); }
    }
  }

  lemma NotifyKeepsInv(s: Joint)
    requires JointInv(s) && JointStep(s, Notify).Some?
    ensures JointInv(JointStep(s, Notify).value)
  {
    var t, j := JointStep(s, Notify).value, s.notifying.value;
    assert LatchInv(s, j);
    LatchNotifies(s.latches[j]);
    forall i: nat | i < |t.latches| ensures LatchInv(t, i) {
      if i != j { UntouchedLatch(s, t, i); }
    }
  }

  lemma WaitKeepsInv(s: Joint, j: nat, w: L.Event)
    requires JointInv(s) && JointStep(s, Wait(j, w)).Some?
    ensures JointInv(JointStep(s, Wait(j, w)).value)
  {
    var t := JointStep(s, Wait(j, w)).value;
    assert LatchInv(s, j);
    LatchWaits(s.latches[j], w);
    forall i: nat | i < |t.latches| ensures LatchInv(t, i) {
      if i != j { UntouchedLatch(s, t, i); }
    }
  }

  lemma {:induction false} ReachableJoint(es: seq<JointEvent>)
    requires Run(JointStep, START, es).Some?
    ensures JointInv(Run(JointStep, START, es).value)
  {
    assert Inductive(JointStep, JointInv) by {
      forall s, e | JointInv(s) && JointStep(s, e).Some? ensures JointInv(JointStep(s, e).value) {
        match e
        case Pool(pe) => PoolStepKeepsInv(s, pe);
        case Notify => NotifyKeepsInv(s);
        case Wait(i, w) => WaitKeepsInv(s, i, w);
      }
    }
    Invariance(JointStep, JointInv, START, es);
  }

  /** The bridge's own part of a run. */
  function PoolPart(es: seq<JointEvent>): (r: seq<Event>)
  {
    if es == [] then []
    else if es[0].Pool? then [es[0].e] + PoolPart(es[1..])
    else PoolPart(es[1..])
  }

  /** It is a run of the bridge, so everything proved of those holds here too. */
  lemma {:induction false} PoolRuns(s: Joint, es: seq<JointEvent>)
    requires Run(JointStep, s, es).Some?
    ensures Run(Step, s.pool, PoolPart(es)) == Some(Run(JointStep, s, es).value.pool)
    decreases |es|
  {
    if es == [] {
    } else {
      PoolRuns(JointStep(s, es[0]).value, es[1..]);
      if es[0].Pool? { assert PoolPart(es)[1..] == PoolPart(es[1..]); }
    }
  }

  // ---------------------------------------------------------------------------------------------------------
  // Theorems
  // ---------------------------------------------------------------------------------------------------------

  /**
   No lost wakeup, end to end: in every run of bridge, host and waiters together, once a child's code is stored and
   the report is over, no waiter of that child is parked un-woken; and a waiter that returned reports a code that was
   stored for its own child, the child's code itself when there was one report.
   */
  lemma {:induction false} NoWaiterIsForgotten(es: seq<JointEvent>, i: nat, w: nat)
    requires Run(JointStep, START, es).Some?
    requires var s := Run(JointStep, START, es).value; i < |s.latches| && w in s.latches[i].waiters
    ensures var s := Run(JointStep, START, es).value;
            && i < |s.pool.children|
            && var v := s.latches[i].waiters[w];
               && (s.pool.children[i].code.Some? && s.notifying != Some(i) && v.Parked? ==> L.Woken(s.latches[i], w))
               && (v.Returned? ==> v.code in s.latches[i].stored)
               && (v.Returned? && |s.latches[i].stored| == 1 ==> s.pool.children[i].code == Some(v.code))
  {
    ReachableJoint(es);
    var s := Run(JointStep, START, es).value;
    assert LatchInv(s, i);
    assert L.WaiterInv(s.latches[i], s.latches[i].waiters[w]);
  }

  /** The waiter has called wait() on child i and was not cancelled since. */
  ghost predicate WaitsSince(es: seq<JointEvent>, i: nat, w: nat)
  {
    Since(es, false, e => e == Wait(i, L.Call(w)), e => e == Wait(i, L.Cancel(w)))
  }

  predicate WaitsOn(s: Joint, i: nat, w: nat)
  {
    i < |s.latches| && w in s.latches[i].waiters
  }

  lemma WaitersAfter(s: Joint, e: JointEvent, i: nat, w: nat)
    requires JointStep(s, e).Some?
    ensures WaitsOn(JointStep(s, e).value, i, w) <==>
              e == Wait(i, L.Call(w)) || (WaitsOn(s, i, w) && e != Wait(i, L.Cancel(w)))
  {
    match e
    case Pool(pe) => PoolStepLeavesWaiters(s, pe);
    case Notify =>
    case Wait(j, we) => L.WaitersAfter(s.latches[j], we, w);
  }

  lemma PoolStepLeavesWaiters(s: Joint, e: Event)
    requires PoolStep(s, e).Some?
    ensures forall i: nat, w: nat :: WaitsOn(PoolStep(s, e).value, i, w) <==> WaitsOn(s, i, w)
  {
    var t := PoolStep(s, e).value;
    if e.SpawnReserve? {
      assert t.latches == s.latches + [L.INIT];
    } else if e.ExitStore? && s.pool.busy.Exiting? && s.pool.busy.i < |s.latches| {
      var j := s.pool.busy.i;
      assert t.latches == s.latches[j := L.Step(s.latches[j], L.Store(s.pool.busy.code)).value];
    } else {
      assert t.latches == s.latches;
    }
  }

  /** Whoever waits on a child is among its latch's waiters, and nobody else is. */
  lemma {:induction false} WaitersByEvents(es: seq<JointEvent>, i: nat, w: nat)
    requires Run(JointStep, START, es).Some?
    ensures WaitsOn(Run(JointStep, START, es).value, i, w) <==> WaitsSince(es, i, w)
    decreases |es|
  {
    if es == [] {
    } else {
      RunLast(JointStep, START, es);
      WaitersByEvents(es[..|es| - 1], i, w);
      WaitersAfter(Run(JointStep, START, es[..|es| - 1]).value, es[|es| - 1], i, w);
      SinceLast(es, false, e => e == Wait(i, L.Call(w)), e => e == Wait(i, L.Cancel(w)));
    }
  }

  /** The steps of one waiter of child i. */
  function WaitSteps(i: nat, ws: seq<L.Event>): (es: seq<JointEvent>)
  {
    if ws == [] then [] else [Wait(i, ws[0])] + WaitSteps(i, ws[1..])
  }

  lemma {:induction false} WaitStepsRun(s: Joint, i: nat, ws: seq<L.Event>)
    requires i < |s.latches| && Run(L.Step, s.latches[i], ws).Some?
    requires forall k :: 0 <= k < |ws| ==> OfWaiter(ws[k])
    ensures Run(JointStep, s, WaitSteps(i, ws)) == Some(WithLatch(s, i, Run(L.Step, s.latches[i], ws).value))
    decreases |ws|
  {
    if ws == [] {
      assert s.latches[i := s.latches[i]] == s.latches;
    } else {
      var l := L.Step(s.latches[i], ws[0]).value;
      assert forall k :: 0 <= k < |ws[1..]| ==> ws[1..][k] == ws[k + 1];
      WaitStepsRun(WithLatch(s, i, l), i, ws[1..]);
      assert WaitSteps(i, ws)[1..] == WaitSteps(i, ws[1..]);
      var out := Run(L.Step, l, ws[1..]).value;
      assert s.latches[i := l][i := out] == s.latches[i := out];
    }
  }

  /** The three steps of the host's call, from lookup to notification. */
  function ReportSteps(procId: nat, code: int): (es: seq<JointEvent>)
  {
    [Pool(ExitLookup(procId, code)), Pool(ExitStore)] + [Notify]
  }

  /** After a report, of the bridge only the child it names has changed, and its latch has the code and owes nothing. */
  ghost predicate Reported(s: Joint, t: Joint, i: nat, code: int)
    requires i < |s.pool.children| && i < |s.latches|
  {
    && t.pool == s.pool.(children := s.pool.children[i := s.pool.children[i].(code := Some(code))])
    && t.notifying.None? && |t.latches| == |s.latches|
    && t.latches[i].code == Some(code) && t.latches[i].owed == 0 && t.latches[i].waiters == s.latches[i].waiters
    && (forall j :: 0 <= j < |s.latches| && j != i ==> t.latches[j] == s.latches[j])
  }

  /** Within the host's call, after the store and before the notification. */
  function Storing(s: Joint, i: nat, code: int): (t: Joint)
    requires i < |s.pool.children| && i < |s.latches|
  {
    Joint(s.pool.(children := s.pool.children[i := s.pool.children[i].(code := Some(code))]),
          s.latches[i := L.Step(s.latches[i], L.Store(code)).value], Some(i))
  }

  lemma LookupFinds(s: Joint, i: nat, code: int)
    requires s.notifying.None? && i < |s.pool.children| && s.pool.busy == Free
    requires var id := s.pool.children[i].procId; id in s.pool.procs && s.pool.procs[id] == i
    ensures JointStep(s, Pool(ExitLookup(s.pool.children[i].procId, code)))
            == Some(s.(pool := s.pool.(busy := Exiting(i, code))))
  {}

  lemma StoreStores(s: Joint, i: nat, code: int)
    requires s.notifying.None? && i < |s.pool.children| && i < |s.latches| && s.pool.busy == Free
    ensures JointStep(s.(pool := s.pool.(busy := Exiting(i, code))), Pool(ExitStore)) == Some(Storing(s, i, code))
  {}

  lemma NotifyEnds(s: Joint, i: nat, code: int)
    requires i < |s.pool.children| && i < |s.latches| && s.latches[i].owed == 0 && s.notifying.None?
    ensures var r := JointStep(Storing(s, i, code), Notify); r.Some? && Reported(s, r.value, i, code)
  {}

  lemma ReportRuns(s: Joint, i: nat, code: int)
    requires JointInv(s) && s.notifying.None? && i < |s.latches| && s.pool.busy == Free
    requires var id := s.pool.children[i].procId; id in s.pool.procs && s.pool.procs[id] == i
    ensures var r := Run(JointStep, s, ReportSteps(s.pool.children[i].procId, code));
            r.Some? && Reported(s, r.value, i, code)
  {
    var look := Pool(ExitLookup(s.pool.children[i].procId, code));
    assert LatchInv(s, i);
    LookupFinds(s, i, code);
    StoreStores(s, i, code);
    NotifyEnds(s, i, code);
    RunTwo(JointStep, s, look, Pool(ExitStore));
    RunOneMore(JointStep, s, [look, Pool(ExitStore)], Notify);
  }

  /**
   An exit report for a listed child stores its code in that child and in no other, and every waiter of that child,
   parked or on its way, can return that code in at most three steps of its own.
   */
  lemma {:induction false} ReportReachesEveryWaiter(es: seq<JointEvent>, i: nat, code: int, w: nat)
    requires Run(JointStep, START, es).Some?
    requires var s := Run(JointStep, START, es).value;
             && Within(s.pool) && i < |s.pool.children| && HasExitEntry(s.pool.children[i].stage)
             && s.pool.busy == Free && s.notifying.None? && i < |s.latches|
             && w in s.latches[i].waiters && !s.latches[i].waiters[w].Returned?
    ensures var s := Run(JointStep, START, es).value;
            var r := Run(JointStep, s, ReportSteps(s.pool.children[i].procId, code));
            && r.Some? && Reported(s, r.value, i, code)
            && var out := Run(JointStep, r.value, WaitSteps(i, L.WayOut(s.latches[i].waiters[w], w)));
               && out.Some? && out.value.pool == r.value.pool && |out.value.latches| == |s.latches|
               && w in out.value.latches[i].waiters && out.value.latches[i].waiters[w] == L.Returned(code)
  {
    ReachableJoint(es);
    PoolRuns(START, es);
    ReachableRegistries(PoolPart(es));
    var s := Run(JointStep, START, es).value;
    ReportRuns(s, i, code);
    RunSplit(JointStep, START, es, ReportSteps(s.pool.children[i].procId, code));
    ReachableJoint(es + ReportSteps(s.pool.children[i].procId, code));
    ReturnsAfterReport(Run(JointStep, s, ReportSteps(s.pool.children[i].procId, code)).value, i, code, w);
  }

  lemma ReturnsAfterReport(t: Joint, i: nat, code: int, w: nat)
    requires JointInv(t) && t.notifying.None? && i < |t.latches| && t.latches[i].code == Some(code)
    requires w in t.latches[i].waiters && !t.latches[i].waiters[w].Returned?
    ensures var out := Run(JointStep, t, WaitSteps(i, L.WayOut(t.latches[i].waiters[w], w)));
            && out.Some? && out.value.pool == t.pool && |out.value.latches| == |t.latches|
            && w in out.value.latches[i].waiters && out.value.latches[i].waiters[w] == L.Returned(code)
  {
    assert LatchInv(t, i);
    L.TakesItsWayOut(t.latches[i], w);
    WaitStepsRun(t, i, L.WayOut(t.latches[i].waiters[w], w));
  }
}
