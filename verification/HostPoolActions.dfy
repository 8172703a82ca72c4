/**
 The actions Rust sends to the host, counted over whole runs: what is killed, closed and dropped, and how often.
 */
module HostPoolActions {
  import opened Machine
  import opened HostPool
  import opened HostPoolConns
  import opened HostPoolIds
  import opened HostPoolRegistries

  /** How often an action was sent for an id. */
  function Count(log: seq<Action>, op: Op, id: nat): (n: nat)
  {
    if log == [] then 0
    else Count(log[..|log| - 1], op, id) + if log[|log| - 1] == Action(op, id) then 1 else 0
  }

  lemma {:induction false} CountPush(log: seq<Action>, a: Action, op: Op, id: nat)
    ensures Count(log + [a], op, id) == Count(log, op, id) + if a == Action(op, id) then 1 else 0
  {
    assert (log + [a])[..|log|] == log;
  }

  lemma {:induction false} CountNone(log: seq<Action>, op: Op, id: nat)
    requires Action(op, id) !in log
    ensures Count(log, op, id) == 0
  {
    if log == [] {
    } else {
      CountNone(log[..|log| - 1], op, id);
    }
  }

  function Once(b: bool): (n: nat)
  {
    if b then 1 else 0
  }

  predicate Gone(c: Child)
  {
    c.stage.Dropping? || c.stage.Dropped?
  }

  /** A drop kills what was neither killed before nor known to have exited. */
  predicate ChildOk(c: Child)
  {
    && (c.dropKill ==> !c.killed && Gone(c))
    && (Gone(c) ==> c.killed || c.dropKill || c.code.Some?)
  }

  predicate ToldDropped(c: ConnStage)
  {
    c.Done? || (c.Refused? && c.told)
  }

  ghost predicate ChildActs(s: State, i: nat)
    requires i < |s.children|
  {
    var c := s.children[i];
    ChildOk(c) && Count(s.actions, Kill, c.procId) == Once(c.killed) + Once(c.dropKill)
  }

  ghost predicate ConnActs(s: State, k: nat)
    requires k < |s.conns|
  {
    var c := s.conns[k];
    && Count(s.actions, CloseWrite, c.id) == Once(c.writeClosed)
    && Count(s.actions, DropConn, c.id) == Once(ToldDropped(c.stage))
  }

  ghost predicate SockActs(s: State, j: nat)
    requires j < |s.socks|
  {
    Count(s.actions, CloseListener, s.socks[j].id) == Once(s.socks[j].stage.Closed?)
  }

  /** Every action names an id that has been given out, by the end its kind belongs to. */
  ghost predicate LogInv(s: State)
  {
    forall a :: a in s.actions ==>
      if a.op.Kill? || a.op.CloseListener? then 1 <= a.id <= RustIds(s) else a.id >= U32 - |s.conns|
  }

  ghost predicate ActInv(s: State)
  {
    && LogInv(s)
    && (forall i: nat :: i < |s.children| ==> ChildActs(s, i))
    && (forall k: nat :: k < |s.conns| ==> ConnActs(s, k))
    && (forall j: nat :: j < |s.socks| ==> SockActs(s, j))
    && (s.children != [] || s.socks != [] ==> s.bridged)
  }

  // ---------------------------------------------------------------------------------------------------------
  // Steps that tell the host nothing
  // ---------------------------------------------------------------------------------------------------------

  ghost predicate SameAccounts(s: State, t: State)
  {
    && t.actions == s.actions && (s.bridged ==> t.bridged)
    && |t.children| == |s.children| && |t.socks| == |s.socks| && |t.conns| == |s.conns|
    && (forall i :: 0 <= i < |s.children| ==>
          var a, b := s.children[i], t.children[i];
          b.procId == a.procId && b.killed == a.killed && b.dropKill == a.dropKill && (ChildOk(a) ==> ChildOk(b)))
    && (forall k :: 0 <= k < |s.conns| ==>
          var a, b := s.conns[k], t.conns[k];
          b.id == a.id && b.writeClosed == a.writeClosed && ToldDropped(b.stage) == ToldDropped(a.stage))
    && (forall j :: 0 <= j < |s.socks| ==>
          var a, b := s.socks[j], t.socks[j];
          b.id == a.id && b.stage.Closed? == a.stage.Closed?)
  }

  lemma SameAccountsKeep(s: State, t: State)
    requires ActInv(s) && SameAccounts(s, t)
    ensures ActInv(t)
  {
    forall i: nat | i < |t.children| ensures ChildActs(t, i) { assert ChildActs(s, i); }
    forall k: nat | k < |t.conns| ensures ConnActs(t, k) { assert ConnActs(s, k); }
    forall j: nat | j < |t.socks| ensures SockActs(t, j) { assert SockActs(s, j); }
  }

  predicate Tells(e: Event)
  {
    e.StartKill? || e.DropChild? || e.DropListener? || e.Shutdown? || e.DropStream? || e.AcceptRefuse?
  }

  lemma SpawnStreamsTellsNothing(s: State, i: nat)
    requires Step(s, SpawnStreams(i)).Some?
    ensures SameAccounts(s, Step(s, SpawnStreams(i)).value)
  {
    SpawnFields(s, i);
  }

  lemma ChildEventsTellNothing(s: State, e: Event)
    requires Step(s, e).Some? && OfChild(e) && !Tells(e) && !e.SpawnStreams?
    ensures SameAccounts(s, Step(s, e).value)
  {}

  lemma SockEventsTellNothing(s: State, e: Event)
    requires Step(s, e).Some? && OfSock(e) && !Tells(e)
    ensures SameAccounts(s, Step(s, e).value)
  {}

  lemma ConnEventsTellNothing(s: State, e: Event)
    requires ConnInv(s) && Step(s, e).Some? && (e.TakeConn? || e.AcceptRoute?)
    ensures SameAccounts(s, Step(s, e).value)
  {
    if e.TakeConn? { TakeKeepsConns(s, e.j); } else { assert BusyWith(s.busy, s.busy.k); }
  }

  lemma BystandersTellNothing(s: State, e: Event)
    requires Step(s, e).Some? && !OfChild(e) && !OfSock(e) && !OfConn(e) && !Allocates(e)
    ensures SameAccounts(s, Step(s, e).value)
  {}

  // ---------------------------------------------------------------------------------------------------------
  // Steps that give out an id
  // ---------------------------------------------------------------------------------------------------------

  lemma ReserveAccounts(s: State, e: Event)
    requires NumInv(s) && ActInv(s) && Step(s, e).Some? && (e.SpawnReserve? || e.BindReserve?)
    requires Within(Step(s, e).value)
    ensures ActInv(Step(s, e).value)
  {
    var t := Step(s, e).value;
    assert t.actions == s.actions && s.nextId == 1 + RustIds(s);
    CountNone(s.actions, Kill, s.nextId);
    CountNone(s.actions, CloseListener, s.nextId);
    forall i: nat | i < |t.children| ensures ChildActs(t, i) { assert i < |s.children| ==> ChildActs(s, i); }
    forall k: nat | k < |t.conns| ensures ConnActs(t, k) { assert ConnActs(s, k); }
    forall j: nat | j < |t.socks| ensures SockActs(t, j) { assert j < |s.socks| ==> SockActs(s, j); }
  }

  lemma LandAccounts(s: State, listenerId: nat)
    requires ActInv(s) && Step(s, AcceptLand(listenerId)).Some?
    ensures ActInv(Step(s, AcceptLand(listenerId)).value)
  {
    var t := Step(s, AcceptLand(listenerId)).value;
    LandLeavesBoth(s, listenerId);
    assert t.actions == s.actions;
    CountNone(s.actions, CloseWrite, HostId(|s.conns|));
    CountNone(s.actions, DropConn, HostId(|s.conns|));
    forall i: nat | i < |t.children| ensures ChildActs(t, i) { assert ChildActs(s, i); }
    forall k: nat | k < |t.conns| ensures ConnActs(t, k) { assert k < |s.conns| ==> ConnActs(s, k); }
    forall j: nat | j < |t.socks| ensures SockActs(t, j) { assert SockActs(s, j); }
  }

  // ---------------------------------------------------------------------------------------------------------
  // Steps that tell the host
  // ---------------------------------------------------------------------------------------------------------

  lemma KillAccounts(s: State, i: nat, c: Child)
    requires NumInv(s) && ActInv(s) && i < |s.children| && c.procId == s.children[i].procId && ChildOk(c)
    requires Once(c.killed) + Once(c.dropKill) == Once(s.children[i].killed) + Once(s.children[i].dropKill) + 1
    ensures ActInv(Tell(PutChild(s, i, c), Kill, c.procId))
  {
    var t := Tell(PutChild(s, i, c), Kill, c.procId);
    var a := Action(Kill, c.procId);
    forall j: nat | j < |t.children| ensures ChildActs(t, j) { KillCounts(s, i, c, j); }
    forall k: nat | k < |t.conns| ensures ConnActs(t, k) {
      assert ConnActs(s, k);
      CountPush(s.actions, a, CloseWrite, s.conns[k].id);
      CountPush(s.actions, a, DropConn, s.conns[k].id);
    }
    forall j: nat | j < |t.socks| ensures SockActs(t, j) {
      assert SockActs(s, j);
      CountPush(s.actions, a, CloseListener, s.socks[j].id);
    }
  }

  lemma KillCounts(s: State, i: nat, c: Child, j: nat)
    requires NumInv(s) && ActInv(s) && i < |s.children| && c.procId == s.children[i].procId && ChildOk(c)
    requires Once(c.killed) + Once(c.dropKill) == Once(s.children[i].killed) + Once(s.children[i].dropKill) + 1
    requires j < |s.children|
    ensures ChildActs(Tell(PutChild(s, i, c), Kill, c.procId), j)
  {
    assert ChildActs(s, j);
    CountPush(s.actions, Action(Kill, c.procId), Kill, s.children[j].procId);
    ProcIdsDiffer(s, i, j);
  }

  lemma CloseListenerAccounts(s: State, j: nat)
    requires NumInv(s) && ActInv(s) && Step(s, DropListener(j)).Some?
    ensures ActInv(Step(s, DropListener(j)).value)
  {
    var t := Step(s, DropListener(j)).value;
    var a := Action(CloseListener, s.socks[j].id);
    assert t.actions == s.actions + [a];
    forall i: nat | i < |t.children| ensures ChildActs(t, i) {
      assert ChildActs(s, i);
      CountPush(s.actions, a, Kill, s.children[i].procId);
    }
    forall k: nat | k < |t.conns| ensures ConnActs(t, k) {
      assert ConnActs(s, k);
      CountPush(s.actions, a, CloseWrite, s.conns[k].id);
      CountPush(s.actions, a, DropConn, s.conns[k].id);
    }
    forall i: nat | i < |t.socks| ensures SockActs(t, i) {
      assert SockActs(s, i);
      CountPush(s.actions, a, CloseListener, s.socks[i].id);
      SockIdsDiffer(s, i, j);
    }
  }

  /** Connection `k` becomes `c` and the host is told once: that its write side closed, or that it is gone. */
  ghost predicate TellsOfConn(s: State, t: State, k: nat, c: Conn, op: Op)
  {
    && k < |s.conns| && t.children == s.children && t.socks == s.socks && t.bridged == s.bridged
    && c.id == s.conns[k].id && t.conns == s.conns[k := c]
    && t.actions == s.actions + [Action(op, c.id)]
    && if op.CloseWrite? then
         !s.conns[k].writeClosed && c.writeClosed && ToldDropped(c.stage) == ToldDropped(s.conns[k].stage)
       else
         op.DropConn? && !ToldDropped(s.conns[k].stage) && ToldDropped(c.stage)
         && c.writeClosed == s.conns[k].writeClosed
  }

  lemma ConnTellAccounts(s: State, t: State, k: nat, c: Conn, op: Op)
    requires NumInv(s) && ActInv(s) && TellsOfConn(s, t, k, c, op)
    ensures ActInv(t)
  {
    var a := Action(op, c.id);
    forall i: nat | i < |t.children| ensures ChildActs(t, i) {
      assert ChildActs(s, i);
      CountPush(s.actions, a, Kill, s.children[i].procId);
    }
    forall i: nat | i < |t.conns| ensures ConnActs(t, i) {
      assert ConnActs(s, i);
      CountPush(s.actions, a, CloseWrite, s.conns[i].id);
      CountPush(s.actions, a, DropConn, s.conns[i].id);
    }
    forall j: nat | j < |t.socks| ensures SockActs(t, j) {
      assert SockActs(s, j);
      CountPush(s.actions, a, CloseListener, s.socks[j].id);
    }
  }

  lemma OpenIsBridged(s: State, k: nat)
    requires ConnInv(s) && k < |s.conns| && s.conns[k].stage.Open?
    ensures s.bridged
  {
    assert Settled(s.conns[k].stage, s.conns[k].stage.l);
    assert KnownTo(s, k, s.conns[k].stage.l);
  }

  lemma HangUpTells(s: State, k: nat, stage: ConnStage)
    requires k < |s.conns| && s.bridged && !ToldDropped(s.conns[k].stage) && ToldDropped(stage)
    ensures TellsOfConn(s, HangUp(s, k, stage), k, s.conns[k].(stage := stage), DropConn)
  {
    HangUpFields(s, k, stage);
  }

  lemma SilentRefusal(s: State, k: nat)
    requires k < |s.conns| && !s.bridged && s.conns[k].stage.Landing?
    ensures SameAccounts(s, HangUp(s, k, Refused(false)))
  {
    HangUpFields(s, k, Refused(false));
  }

  lemma ConnTellsAccount(s: State, e: Event)
    requires ConnInv(s) && NumInv(s) && ActInv(s) && Step(s, e).Some?
    requires e.Shutdown? || e.DropStream? || e.AcceptRefuse?
    ensures ActInv(Step(s, e).value)
  {
    var t := Step(s, e).value;
    match e
    case Shutdown(k) =>
      OpenIsBridged(s, k);
      if !s.conns[k].writeClosed {
        ConnTellAccounts(s, t, k, s.conns[k].(writeClosed := true), CloseWrite);
      }
    case DropStream(k) =>
      OpenIsBridged(s, k);
      HangUpTells(s, k, Done(s.conns[k].stage.l));
      ConnTellAccounts(s, t, k, t.conns[k], DropConn);
    case AcceptRefuse =>
      var k := s.busy.k;
      assert BusyWith(s.busy, k);
      var u := HangUp(s, k, Refused(s.bridged));
      if s.bridged {
        HangUpTells(s, k, Refused(true));
        ConnTellAccounts(s, u, k, u.conns[k], DropConn);
      } else {
        SilentRefusal(s, k);
        SameAccountsKeep(s, u);
      }
      assert SameAccounts(u, t);
      SameAccountsKeep(u, t);
  }

  lemma StartKillAccounts(s: State, i: nat)
    requires NumInv(s) && ActInv(s) && Step(s, StartKill(i)).Some?
    ensures ActInv(Step(s, StartKill(i)).value)
  {
    assert ChildActs(s, i);
    if !s.children[i].killed { KillAccounts(s, i, s.children[i].(killed := true)); }
  }

  lemma DropChildAccounts(s: State, i: nat)
    requires NumInv(s) && ActInv(s) && Step(s, DropChild(i)).Some?
    ensures ActInv(Step(s, DropChild(i)).value)
  {
    assert ChildActs(s, i);
    var c := s.children[i];
    var kill := c.code.None? && !c.killed;
    var d := c.(stage := Dropping, dropKill := kill);
    if kill {
      KillAccounts(s, i, d);
    } else {
      assert SameAccounts(s, PutChild(s, i, d));
      SameAccountsKeep(s, PutChild(s, i, d));
    }
  }

  lemma OthersTellNothing(s: State, e: Event)
    requires ConnInv(s) && Step(s, e).Some? && !Tells(e) && !Allocates(e)
    ensures SameAccounts(s, Step(s, e).value)
  {
    if e.SpawnStreams? { SpawnStreamsTellsNothing(s, e.i); }
    else if OfChild(e) { ChildEventsTellNothing(s, e); }
    else if OfSock(e) { SockEventsTellNothing(s, e); }
    else if OfConn(e) { ConnEventsTellNothing(s, e); }
    else { BystandersTellNothing(s, e); }
  }

  lemma TellKeepsAccounts(s: State, e: Event)
    requires ConnInv(s) && NumInv(s) && ActInv(s) && Step(s, e).Some? && Tells(e)
    ensures ActInv(Step(s, e).value)
  {
    match e
    case StartKill(i) => StartKillAccounts(s, i);
    case DropChild(i) => DropChildAccounts(s, i);
    case DropListener(j) => CloseListenerAccounts(s, j);
    case _ => ConnTellsAccount(s, e);
  }

  lemma StepKeepsAccounts(s: State, e: Event)
    requires ConnInv(s) && NumInv(s) && ActInv(s) && Step(s, e).Some? && Within(Step(s, e).value)
    ensures ActInv(Step(s, e).value)
  {
    if Tells(e) {
      TellKeepsAccounts(s, e);
    } else if Allocates(e) {
      if e.AcceptLand? { LandAccounts(s, e.listenerId); } else { ReserveAccounts(s, e); }
    } else {
      OthersTellNothing(s, e);
      SameAccountsKeep(s, Step(s, e).value);
    }
  }

  ghost predicate AccountInv(s: State)
  {
    IdInv(s) && (Within(s) ==> ActInv(s))
  }

  lemma InitAccounts()
    ensures AccountInv(INIT)
  {
    InitRegistries();
  }

  lemma StepKeepsAccountInv(s: State, e: Event)
    requires AccountInv(s) && Step(s, e).Some?
    ensures AccountInv(Step(s, e).value)
  {
    StepKeepsRegistries(s, e);
    if Within(Step(s, e).value) {
      StepKeepsNums(s, e);
      StepKeepsAccounts(s, e);
    }
  }

  lemma {:induction false} ReachableAccounts(es: seq<Event>)
    requires Run(Step, INIT, es).Some?
    ensures AccountInv(Run(Step, INIT, es).value)
  {
    assert Inductive(Step, AccountInv) by {
      forall s, e | AccountInv(s) && Step(s, e).Some? ensures AccountInv(Step(s, e).value) {
        StepKeepsAccountInv(s, e);
      }
    }
    InitAccounts();
    Invariance(Step, AccountInv, INIT, es);
  }

  // ---------------------------------------------------------------------------------------------------------
  // Theorems
  // ---------------------------------------------------------------------------------------------------------

  /**
   The host is told to kill a process at most once, whoever asks; a child that has been dropped was either killed,
   once, or its exit had been reported.
   */
  lemma {:induction false} KilledAtMostOnce(es: seq<Event>, i: nat)
    requires Run(Step, INIT, es).Some? && Within(Run(Step, INIT, es).value)
    requires i < |Run(Step, INIT, es).value.children|
    ensures var t := Run(Step, INIT, es).value;
            var c := t.children[i];
            && Count(t.actions, Kill, c.procId) <= 1
            && (c.killed ==> Count(t.actions, Kill, c.procId) == 1)
            && (Gone(c) && c.code.None? ==> Count(t.actions, Kill, c.procId) == 1)
  {
    ReachableAccounts(es);
    assert ChildActs(Run(Step, INIT, es).value, i);
  }

  /**
   And it is told: asking a running child to be killed always works and leaves it marked, and exactly one kill sent for
   it, by this call unless an earlier one has sent it.
   */
  lemma {:induction false} KillIsSent(es: seq<Event>, i: nat)
    requires Run(Step, INIT, es).Some? && Within(Run(Step, INIT, es).value)
    requires IsChild(Run(Step, INIT, es).value, i, Running)
    ensures var s := Run(Step, INIT, es).value;
            var r := Step(s, StartKill(i));
            && r.Some? && r.value.children == s.children[i := s.children[i].(killed := true)]
            && r.value.actions
               == s.actions + (if s.children[i].killed then [] else [Action(Kill, s.children[i].procId)])
            && Count(r.value.actions, Kill, s.children[i].procId) == 1
  {
    ReachableAccounts(es);
    var s := Run(Step, INIT, es).value;
    assert ChildActs(s, i);
    StartKillAccounts(s, i);
    assert ChildActs(Step(s, StartKill(i)).value, i);
    assert s.actions + [] == s.actions;
  }

  /** Dropping a running child always works, and leaves it killed exactly when it was before or no exit is recorded. */
  lemma {:induction false} DropKillsTheUnfinished(es: seq<Event>, i: nat)
    requires Run(Step, INIT, es).Some? && Within(Run(Step, INIT, es).value)
    requires IsChild(Run(Step, INIT, es).value, i, Running)
    ensures var s := Run(Step, INIT, es).value;
            var r := Step(s, DropChild(i));
            && r.Some? && IsChild(r.value, i, Dropping)
            && Count(r.value.actions, Kill, s.children[i].procId) ==
               Once(s.children[i].code.None? || Count(s.actions, Kill, s.children[i].procId) == 1)
  {
    ReachableAccounts(es);
    var s := Run(Step, INIT, es).value;
    assert ChildActs(s, i);
    DropChildAccounts(s, i);
    assert ChildActs(Step(s, DropChild(i)).value, i);
  }

  /** The first shutdown of an open connection tells the host, later ones find that done. */
  lemma {:induction false} ShutdownIsSent(es: seq<Event>, k: nat)
    requires Run(Step, INIT, es).Some? && Within(Run(Step, INIT, es).value)
    requires var s := Run(Step, INIT, es).value; k < |s.conns| && s.conns[k].stage.Open?
    ensures var s := Run(Step, INIT, es).value;
            var r := Step(s, Shutdown(k));
            && r.Some? && r.value.conns == s.conns[k := s.conns[k].(writeClosed := true)]
            && r.value.actions == s.actions + (if s.conns[k].writeClosed then [] else [Action(CloseWrite, HostId(k))])
            && Count(r.value.actions, CloseWrite, HostId(k)) == 1
  {
    ReachableAccounts(es);
    var s := Run(Step, INIT, es).value;
    assert ConnActs(s, k);
    OpenIsBridged(s, k);
    ConnTellsAccount(s, Shutdown(k));
    assert ConnActs(Step(s, Shutdown(k)).value, k);
    assert s.actions + [] == s.actions;
  }

  /** The drop of an open connection tells the host once that it is gone, and its registry entry goes. */
  lemma {:induction false} DropIsSent(es: seq<Event>, k: nat)
    requires Run(Step, INIT, es).Some? && Within(Run(Step, INIT, es).value)
    requires var s := Run(Step, INIT, es).value; k < |s.conns| && s.conns[k].stage.Open?
    ensures var s := Run(Step, INIT, es).value;
            var r := Step(s, DropStream(k));
            && r.Some? && k < |r.value.conns| && r.value.conns[k].stage == Done(s.conns[k].stage.l)
            && HostId(k) !in r.value.streams
            && r.value.actions == s.actions + [Action(DropConn, HostId(k))]
            && Count(r.value.actions, DropConn, HostId(k)) == 1
  {
    ReachableAccounts(es);
    var s := Run(Step, INIT, es).value;
    assert ConnActs(s, k);
    OpenIsBridged(s, k);
    HangUpFields(s, k, Done(s.conns[k].stage.l));
    ConnTellsAccount(s, DropStream(k));
    assert ConnActs(Step(s, DropStream(k)).value, k);
  }

  /** The drop of a listener that is up tells the host once, and nothing is listed under its id any more. */
  lemma {:induction false} ListenerDropIsSent(es: seq<Event>, j: nat)
    requires Run(Step, INIT, es).Some? && Within(Run(Step, INIT, es).value)
    requires IsSock(Run(Step, INIT, es).value, j, Bound)
    ensures var s := Run(Step, INIT, es).value;
            var r := Step(s, DropListener(j));
            && r.Some? && IsSock(r.value, j, Closed) && r.value.listeners == s.listeners - {s.socks[j].id}
            && r.value.actions == s.actions + [Action(CloseListener, s.socks[j].id)]
            && Count(r.value.actions, CloseListener, s.socks[j].id) == 1
  {
    ReachableAccounts(es);
    var s := Run(Step, INIT, es).value;
    assert SockActs(s, j);
    CloseListenerAccounts(s, j);
    assert SockActs(Step(s, DropListener(j)).value, j);
  }

  /**
   A connection's write side is closed at most once. The host is told a connection is gone exactly when its
   TcpStream was dropped, or it was refused, and then once.
   */
  lemma {:induction false} ConnectionClosedOnce(es: seq<Event>, k: nat)
    requires Run(Step, INIT, es).Some? && Within(Run(Step, INIT, es).value)
    requires k < |Run(Step, INIT, es).value.conns|
    ensures var t := Run(Step, INIT, es).value;
            && Count(t.actions, CloseWrite, HostId(k)) <= 1 && Count(t.actions, DropConn, HostId(k)) <= 1
            && (Count(t.actions, DropConn, HostId(k)) == 1 <==> ToldDropped(t.conns[k].stage))
            && (Count(t.actions, CloseWrite, HostId(k)) == 1 <==> t.conns[k].writeClosed)
  {
    ReachableAccounts(es);
    assert ConnActs(Run(Step, INIT, es).value, k);
  }

  /** A listener is closed at the host exactly when it was dropped, and once. */
  lemma {:induction false} ListenerClosedOnce(es: seq<Event>, j: nat)
    requires Run(Step, INIT, es).Some? && Within(Run(Step, INIT, es).value)
    requires j < |Run(Step, INIT, es).value.socks|
    ensures var t := Run(Step, INIT, es).value;
            Count(t.actions, CloseListener, t.socks[j].id) == Once(t.socks[j].stage.Closed?)
  {
    ReachableAccounts(es);
    assert SockActs(Run(Step, INIT, es).value, j);
  }
}
