/**
 The three registries of the host bridge over whole runs: inside the id bound they hold exactly the live objects,
 each under its own id, so no insert replaces an entry and everything the host says reaches the object it means.
 */
module HostPoolRegistries {
  import opened Machine
  import opened ByteRx
  import opened HostPool
  import opened HostPoolConns
  import opened HostPoolIds

  predicate HasExitEntry(c: ChildStage)
  {
    c.Registered? || c.Running? || c.Dropping?
  }

  ghost predicate ProcEntry(s: State, id: nat)
    requires id in s.procs
  {
    var i := s.procs[id];
    i < |s.children| && s.children[i].procId == id && HasExitEntry(s.children[i].stage)
  }

  ghost predicate ProcInv(s: State)
  {
    && (forall id :: id in s.procs ==> ProcEntry(s, id))
    && (forall i: nat :: i < |s.children| && HasExitEntry(s.children[i].stage) ==>
          s.children[i].procId in s.procs && s.procs[s.children[i].procId] == i)
  }

  predicate HasListenEntry(c: ListenerStage)
  {
    c.Listed? || c.Bound?
  }

  ghost predicate ListenEntry(s: State, id: nat)
    requires id in s.listeners
  {
    var j := s.listeners[id];
    j < |s.socks| && s.socks[j].id == id && HasListenEntry(s.socks[j].stage)
  }

  ghost predicate ListenInv(s: State)
  {
    && (forall id :: id in s.listeners ==> ListenEntry(s, id))
    && (forall j: nat :: j < |s.socks| && HasListenEntry(s.socks[j].stage) ==>
          s.socks[j].id in s.listeners && s.listeners[s.socks[j].id] == j)
  }

  lemma ProcIdsDiffer(s: State, i: nat, j: nat)
    requires NumInv(s) && i < |s.children| && j < |s.children|
    ensures s.children[i].procId == s.children[j].procId ==> i == j
  {}

  lemma SockIdsDiffer(s: State, i: nat, j: nat)
    requires NumInv(s) && i < |s.socks| && j < |s.socks|
    ensures s.socks[i].id == s.socks[j].id ==> i == j
  {}

  /** What the listener registry is about is the same in both states. */
  ghost predicate SameSocks(s: State, t: State)
  {
    && t.listeners == s.listeners && |t.socks| == |s.socks|
    && (forall j :: 0 <= j < |s.socks| ==> t.socks[j].id == s.socks[j].id && t.socks[j].stage == s.socks[j].stage)
  }

  lemma QueueEventsLeaveBoth(s: State, e: Event)
    requires Step(s, e).Some? && (e.TakeConn? || e.AcceptRoute? || e.Shutdown?)
    ensures var t := Step(s, e).value; t.children == s.children && t.procs == s.procs && SameSocks(s, t)
  {}

  lemma LandLeavesBoth(s: State, listenerId: nat)
    requires Step(s, AcceptLand(listenerId)).Some?
    ensures var t := Step(s, AcceptLand(listenerId)).value;
            t.children == s.children && t.procs == s.procs && t.listeners == s.listeners && t.socks == s.socks
  {
    ListFields(s, HostId(|s.conns|), ConnOf(|s.conns|));
  }

  lemma ConnEventsLeaveBoth(s: State, e: Event)
    requires Step(s, e).Some? && (OfConn(e) || e.AcceptLand?)
    ensures var t := Step(s, e).value; t.children == s.children && t.procs == s.procs && SameSocks(s, t)
  {
    match e
    case AcceptLand(l) => LandLeavesBoth(s, l);
    case DropStream(k) => HangUpFields(s, k, Done(s.conns[k].stage.l));
    case AcceptRefuse => HangUpFields(s, s.busy.k, Refused(s.bridged));
    case _ => QueueEventsLeaveBoth(s, e);
  }

  lemma SockEventsLeaveProcs(s: State, e: Event)
    requires Step(s, e).Some? && (OfSock(e) || e.BindReserve?)
    ensures var t := Step(s, e).value; t.children == s.children && t.procs == s.procs
  {}

  lemma ChildEventsLeaveSocks(s: State, e: Event)
    requires Step(s, e).Some? && (OfChild(e) || e.SpawnReserve?)
    ensures var t := Step(s, e).value; t.listeners == s.listeners && t.socks == s.socks
  {
    if e.SpawnStreams? { SpawnFields(s, e.i); }
  }

  lemma BystandersLeaveBoth(s: State, e: Event)
    requires Step(s, e).Some? && !OfChild(e) && !OfSock(e) && !OfConn(e) && !Allocates(e)
    ensures var t := Step(s, e).value;
            t.children == s.children && t.procs == s.procs && t.listeners == s.listeners && t.socks == s.socks
  {}

  lemma OthersLeaveProcs(s: State, e: Event)
    requires Step(s, e).Some? && !OfChild(e) && !e.SpawnReserve?
    ensures var t := Step(s, e).value; t.children == s.children && t.procs == s.procs
  {
    if OfConn(e) || e.AcceptLand? { ConnEventsLeaveBoth(s, e); }
    else if OfSock(e) || e.BindReserve? { SockEventsLeaveProcs(s, e); }
    else { BystandersLeaveBoth(s, e); }
  }

  lemma OthersLeaveSocks(s: State, e: Event)
    requires Step(s, e).Some? && !OfSock(e) && !e.BindReserve?
    ensures SameSocks(s, Step(s, e).value)
  {
    if OfConn(e) || e.AcceptLand? { ConnEventsLeaveBoth(s, e); }
    else if OfChild(e) || e.SpawnReserve? { ChildEventsLeaveSocks(s, e); }
    else { BystandersLeaveBoth(s, e); }
  }

  /** Child by child, the same id and the same standing in the process registry. */
  ghost predicate SameProcs(s: State, t: State)
  {
    && t.procs == s.procs && |t.children| == |s.children|
    && (forall i :: 0 <= i < |s.children| ==>
          && t.children[i].procId == s.children[i].procId
          && (HasExitEntry(t.children[i].stage) <==> HasExitEntry(s.children[i].stage)))
  }

  lemma SpawnStreamsLeavesProcs(s: State, i: nat)
    requires Step(s, SpawnStreams(i)).Some?
    ensures SameProcs(s, Step(s, SpawnStreams(i)).value)
  {
    SpawnFields(s, i);
  }

  lemma ChildEventsKeepProcs(s: State, e: Event)
    requires Step(s, e).Some? && OfChild(e) && !e.SpawnProc? && !e.UnlistChild?
    ensures SameProcs(s, Step(s, e).value)
  {
    match e
    case SpawnStreams(i) => SpawnStreamsLeavesProcs(s, i);
    case StartKill(_) =>
    case DropChild(_) =>
    case _ =>
  }

  lemma SameProcsKeepInv(s: State, t: State)
    requires ProcInv(s) && SameProcs(s, t)
    ensures ProcInv(t)
  {
    forall id | id in t.procs ensures ProcEntry(t, id) { assert ProcEntry(s, id); }
  }

  lemma SpawnProcKeepsProcs(s: State, i: nat)
    requires NumInv(s) && ProcInv(s) && Step(s, SpawnProc(i)).Some?
    ensures ProcInv(Step(s, SpawnProc(i)).value) && s.children[i].procId !in s.procs
  {
    var t := Step(s, SpawnProc(i)).value;
    var id := s.children[i].procId;
    if id in s.procs {
      assert ProcEntry(s, id);
      ProcIdsDiffer(s, i, s.procs[id]);
    }
    forall x | x in t.procs ensures ProcEntry(t, x) {
      if x != id { assert ProcEntry(s, x); }
    }
  }

  lemma UnlistKeepsProcs(s: State, i: nat)
    requires NumInv(s) && ProcInv(s) && Step(s, UnlistChild(i)).Some?
    ensures ProcInv(Step(s, UnlistChild(i)).value)
  {
    var t := Step(s, UnlistChild(i)).value;
    forall x | x in t.procs ensures ProcEntry(t, x) { assert ProcEntry(s, x); }
    forall j: nat | j < |t.children| && HasExitEntry(t.children[j].stage)
      ensures t.children[j].procId in t.procs && t.procs[t.children[j].procId] == j
    {
      ProcIdsDiffer(s, i, j);
    }
  }

  lemma ReserveKeepsProcs(s: State)
    requires ProcInv(s) && Step(s, SpawnReserve).Some?
    ensures ProcInv(Step(s, SpawnReserve).value)
  {
    var t := Step(s, SpawnReserve).value;
    forall x | x in t.procs ensures ProcEntry(t, x) { assert ProcEntry(s, x); }
  }

  lemma StepKeepsProcs(s: State, e: Event)
    requires NumInv(s) && ProcInv(s) && Step(s, e).Some?
    ensures ProcInv(Step(s, e).value)
  {
    if e.SpawnReserve? { ReserveKeepsProcs(s); }
    else if e.SpawnProc? { SpawnProcKeepsProcs(s, e.i); }
    else if e.UnlistChild? { UnlistKeepsProcs(s, e.i); }
    else {
      if OfChild(e) { ChildEventsKeepProcs(s, e); } else { OthersLeaveProcs(s, e); }
      SameProcsKeepInv(s, Step(s, e).value);
    }
  }

  lemma SameSocksKeepInv(s: State, t: State)
    requires ListenInv(s) && SameSocks(s, t)
    ensures ListenInv(t)
  {
    forall x | x in t.listeners ensures ListenEntry(t, x) { assert ListenEntry(s, x); }
  }

  lemma BindInsertKeepsListeners(s: State, j: nat)
    requires NumInv(s) && ListenInv(s) && Step(s, BindInsert(j)).Some?
    ensures ListenInv(Step(s, BindInsert(j)).value) && s.socks[j].id !in s.listeners
  {
    var t := Step(s, BindInsert(j)).value;
    var id := s.socks[j].id;
    if id in s.listeners {
      assert ListenEntry(s, id);
      SockIdsDiffer(s, j, s.listeners[id]);
    }
    forall x | x in t.listeners ensures ListenEntry(t, x) {
      if x != id { assert ListenEntry(s, x); }
    }
  }

  lemma DelistKeepsListeners(s: State, e: Event)
    requires NumInv(s) && ListenInv(s) && Step(s, e).Some? && (e.BindFailed? || e.DropListener?)
    ensures ListenInv(Step(s, e).value)
  {
    var t := Step(s, e).value;
    forall x | x in t.listeners ensures ListenEntry(t, x) { assert ListenEntry(s, x); }
    forall i: nat | i < |t.socks| && HasListenEntry(t.socks[i].stage)
      ensures t.socks[i].id in t.listeners && t.listeners[t.socks[i].id] == i
    {
      SockIdsDiffer(s, e.j, i);
    }
  }

  lemma StepKeepsListeners(s: State, e: Event)
    requires NumInv(s) && ListenInv(s) && Step(s, e).Some?
    ensures ListenInv(Step(s, e).value)
  {
    var t := Step(s, e).value;
    if e.BindInsert? { BindInsertKeepsListeners(s, e.j); }
    else if e.BindFailed? || e.DropListener? { DelistKeepsListeners(s, e); }
    else if e.BindReserve? || e.BindDone? {
      forall x | x in t.listeners ensures ListenEntry(t, x) { assert ListenEntry(s, x); }
    } else {
      OthersLeaveSocks(s, e);
      SameSocksKeepInv(s, t);
    }
  }

  // ---------------------------------------------------------------------------------------------------------
  // Whole runs
  // ---------------------------------------------------------------------------------------------------------

  ghost predicate IdInv(s: State)
  {
    ConnInv(s) && (Within(s) ==> NumInv(s) && StreamInv(s) && ProcInv(s) && ListenInv(s))
  }

  lemma StepKeepsRegistries(s: State, e: Event)
    requires IdInv(s) && Step(s, e).Some?
    ensures IdInv(Step(s, e).value)
  {
    StepKeepsConns(s, e);
    if Within(Step(s, e).value) {
      StepKeepsNums(s, e);
      StepKeepsStreams(s, e);
      StepKeepsProcs(s, e);
      StepKeepsListeners(s, e);
    }
  }

  lemma InitRegistries()
    ensures IdInv(INIT)
  {}

  lemma {:induction false} ReachableRegistries(es: seq<Event>)
    requires Run(Step, INIT, es).Some?
    ensures IdInv(Run(Step, INIT, es).value)
  {
    assert Inductive(Step, IdInv) by {
      forall s, e | IdInv(s) && Step(s, e).Some? ensures IdInv(Step(s, e).value) { StepKeepsRegistries(s, e); }
    }
    InitRegistries();
    Invariance(Step, IdInv, INIT, es);
  }

  /**
   The stream registry is exact: an id is in it only for a stream that was registered and that Rust has not taken
   out, and leads to that stream's channel; and it is in it unless the host has said EOF for it.
   */
  lemma {:induction false} StreamRegistryIsExact(es: seq<Event>, o: Owner)
    requires Run(Step, INIT, es).Some? && Within(Run(Step, INIT, es).value) && Exists(Run(Step, INIT, es).value, o)
    ensures var t := Run(Step, INIT, es).value;
            var id := KeyOf(t, o);
            && (id in t.streams ==> Active(t, o) && t.streams[id] == Slot(ChanOf(t, o), o))
            && (Active(t, o) && id !in t.eofs ==> id in t.streams)
  {
    ReachableRegistries(es);
    var t := Run(Step, INIT, es).value;
    assert OwnerInv(t, o);
    if KeyOf(t, o) in t.streams {
      assert EntryInv(t, KeyOf(t, o));
      KeysDiffer(t, o, t.streams[KeyOf(t, o)].owner);
    }
  }

  /** No insert into any registry meets an entry under its key. */
  lemma {:induction false} NoInsertOverwrites(es: seq<Event>, e: Event)
    requires Run(Step, INIT, es).Some?
    requires var s := Run(Step, INIT, es).value; Step(s, e).Some? && Within(Step(s, e).value)
    ensures var s := Run(Step, INIT, es).value;
            match e
            case SpawnStreams(i) =>
              && OutId(s.children[i]) !in s.streams && ErrId(s.children[i]) !in s.streams
              && OutId(s.children[i]) != ErrId(s.children[i])
            case SpawnProc(i) => s.children[i].procId !in s.procs
            case BindInsert(j) => s.socks[j].id !in s.listeners
            case AcceptLand(_) => HostId(|s.conns|) !in s.streams
            case _ => true
  {
    ReachableRegistries(es);
    var s := Run(Step, INIT, es).value;
    StepKeepsNums(s, e);
    match e
    case SpawnStreams(i) =>
      KeyIsFree(s, OutOf(i));
      KeyIsFree(s, ErrOf(i));
      KeysDiffer(s, OutOf(i), ErrOf(i));
    case SpawnProc(i) => SpawnProcKeepsProcs(s, i);
    case BindInsert(j) => BindInsertKeepsListeners(s, j);
    case AcceptLand(_) => NextHostIdIsFree(s);
    case _ =>
  }

  /**
   What the host pushes for a stream it has been told of, and has not ended, goes to that stream's reader and to no
   other. A spawn tells the host only after both streams are registered, an accept call before it returns, so
   nothing pushed is lost between the host's learning an id and Rust's first read.
   */
  lemma {:induction false} PushReachesItsReader(es: seq<Event>, o: Owner, chunk: seq<byte>)
    requires Run(Step, INIT, es).Some? && Within(Run(Step, INIT, es).value)
    requires var s := Run(Step, INIT, es).value;
             Active(s, o) && KeyOf(s, o) >= 0 && KeyOf(s, o) !in s.eofs && s.busy == Free
    ensures var s := Run(Step, INIT, es).value;
            var c := ChanOf(s, o);
            && c < |s.chans| && Step(s, Push(KeyOf(s, o), chunk)).Some?
            && var t := Step(s, Push(KeyOf(s, o), chunk)).value;
               && |t.chans| == |s.chans|
               && (s.chans[c].live ==> t.chans[c].pushed == s.chans[c].pushed + chunk)
               && (forall d :: 0 <= d < |s.chans| && d != c ==> t.chans[d] == s.chans[d])
  {
    ReachableRegistries(es);
    ReachableBytes(es);
    var s := Run(Step, INIT, es).value;
    assert OwnerInv(s, o);
    assert EntryInv(s, KeyOf(s, o));
    PushExtends(s, KeyOf(s, o), ChanOf(s, o), chunk);
  }

  lemma PushExtends(s: State, id: nat, c: nat, chunk: seq<byte>)
    requires s.busy == Free && id in s.streams && s.streams[id].chan == c < |s.chans|
    ensures Step(s, Push(id, chunk)) == Some(s.(chans := s.chans[c := Send(s.chans[c], chunk)]))
    ensures s.chans[c].live ==> Send(s.chans[c], chunk).pushed == s.chans[c].pushed + chunk
  {}

  lemma ExitLands(s: State, i: nat, code: int)
    requires i < |s.children| && s.busy == Free
    requires s.children[i].procId in s.procs && s.procs[s.children[i].procId] == i
    ensures Run(Step, s, [ExitLookup(s.children[i].procId, code), ExitStore]) ==
            Some(s.(children := s.children[i := s.children[i].(code := Some(code))]))
  {
    var t := s.(busy := Exiting(i, code));
    LookupStep(s, s.children[i].procId, code);
    StoreStep(t);
    assert t.(children := s.children[i := s.children[i].(code := Some(code))], busy := Free)
           == s.(children := s.children[i := s.children[i].(code := Some(code))]);
    RunTwo(Step, s, ExitLookup(s.children[i].procId, code), ExitStore);
  }

  /** An exit report reaches the child it names, and no other. */
  lemma {:induction false} ExitReachesItsChild(es: seq<Event>, i: nat, code: int)
    requires Run(Step, INIT, es).Some? && Within(Run(Step, INIT, es).value)
    requires var s := Run(Step, INIT, es).value;
             i < |s.children| && HasExitEntry(s.children[i].stage) && s.busy == Free
    ensures var s := Run(Step, INIT, es).value;
            Run(Step, s, [ExitLookup(s.children[i].procId, code), ExitStore]) ==
            Some(s.(children := s.children[i := s.children[i].(code := Some(code))]))
  {
    ReachableRegistries(es);
    ExitLands(Run(Step, INIT, es).value, i, code);
  }

  /** A connection for a listener that is up is queued on that listener. */
  lemma {:induction false} ConnectionReachesItsListener(es: seq<Event>, j: nat)
    requires Run(Step, INIT, es).Some?
    requires var s := Run(Step, INIT, es).value;
             && j < |s.socks| && HasListenEntry(s.socks[j].stage)
             && Step(s, AcceptLand(s.socks[j].id)).Some? && Within(Step(s, AcceptLand(s.socks[j].id)).value)
    ensures var s := Run(Step, INIT, es).value;
            var r := Run(Step, s, [AcceptLand(s.socks[j].id), AcceptRoute]);
            && r.Some? && r.value.busy == Free
            && r.value.socks == s.socks[j := s.socks[j].(queue := s.socks[j].queue + [|s.conns|],
                                                         arrived := s.socks[j].arrived + [|s.conns|])]
            && r.value.streams == s.streams[HostId(|s.conns|) := Slot(|s.chans|, ConnOf(|s.conns|))]
  {
    ReachableRegistries(es);
    var s := Run(Step, INIT, es).value;
    StepKeepsNums(s, AcceptLand(s.socks[j].id));
    NextHostIdIsFree(s);
    RunTwo(Step, s, AcceptLand(s.socks[j].id), AcceptRoute);
  }

  lemma Refusal(s: State, t: State, u: State)
    requires HostId(|s.conns|) !in s.streams && HostId(|s.conns|) >= 0
    requires t.streams == s.streams[HostId(|s.conns|) := Slot(|s.chans|, ConnOf(|s.conns|))]
    requires t.conns == s.conns + [Conn(HostId(|s.conns|), |s.chans|, Landing, false)]
    requires t.bridged == s.bridged && t.actions == s.actions && t.socks == s.socks
    requires u == t.(busy := Refusing(|s.conns|))
    ensures var r := Step(u, AcceptRefuse);
            && r.Some? && r.value.streams == s.streams && r.value.socks == s.socks && r.value.busy == Free
            && r.value.conns == s.conns + [Conn(HostId(|s.conns|), |s.chans|, Refused(s.bridged), false)]
            && r.value.actions == s.actions + (if s.bridged then [Action(DropConn, HostId(|s.conns|))] else [])
  {
    HangUpFields(u, |s.conns|, Refused(s.bridged));
  }

  /** A connection for a listener nobody holds leaves the stream registry as it was and is dropped, once. */
  lemma {:induction false} UnknownListenerLeavesNoTrace(es: seq<Event>, listenerId: nat)
    requires Run(Step, INIT, es).Some?
    requires var s := Run(Step, INIT, es).value;
             && listenerId !in s.listeners
             && Step(s, AcceptLand(listenerId)).Some? && Within(Step(s, AcceptLand(listenerId)).value)
    ensures var s := Run(Step, INIT, es).value;
            var r := Run(Step, s, [AcceptLand(listenerId), AcceptRoute, AcceptRefuse]);
            && r.Some? && r.value.streams == s.streams && r.value.socks == s.socks && r.value.busy == Free
            && r.value.conns == s.conns + [Conn(HostId(|s.conns|), |s.chans|, Refused(s.bridged), false)]
            && r.value.actions == s.actions + (if s.bridged then [Action(DropConn, HostId(|s.conns|))] else [])
  {
    ReachableRegistries(es);
    var s := Run(Step, INIT, es).value;
    var land := AcceptLand(listenerId);
    StepKeepsNums(s, land);
    NextHostIdIsFree(s);
    var t := Step(s, land).value;
    var u := t.(busy := Refusing(|s.conns|));
    assert Step(t, AcceptRoute) == Some(u);
    Refusal(s, t, u);
    assert [land, AcceptRoute, AcceptRefuse][1..] == [AcceptRoute, AcceptRefuse];
    RunTwo(Step, t, AcceptRoute, AcceptRefuse);
  }

  // ---------------------------------------------------------------------------------------------------------
  // How far the ids last
  // ---------------------------------------------------------------------------------------------------------

  datatype Thing = Proc(i: nat) | Out(i: nat) | Err(i: nat) | Sock(j: nat) | Host(k: nat)

  predicate Has(s: State, a: Thing)
  {
    match a
    case Proc(i) => i < |s.children|
    case Out(i) => i < |s.children|
    case Err(i) => i < |s.children|
    case Sock(j) => j < |s.socks|
    case Host(k) => k < |s.conns|
  }

  function IdOf(s: State, a: Thing): (id: nat)
    requires Has(s, a)
  {
    match a
    case Proc(i) => s.children[i].procId
    case Out(i) => OutId(s.children[i])
    case Err(i) => ErrId(s.children[i])
    case Sock(j) => s.socks[j].id
    case Host(k) => s.conns[k].id
  }

  ghost predicate Distinct(s: State)
  {
    forall a, b :: Has(s, a) && Has(s, b) && IdOf(s, a) == IdOf(s, b) ==> a == b
  }

  function RustIds(s: State): (n: nat)
  {
    3 * |s.children| + |s.socks|
  }

  ghost predicate Used(s: State, x: nat)
  {
    exists a :: Has(s, a) && !a.Host? && IdOf(s, a) == x
  }

  /** Rust has used every number up to its count, as far as u32 goes; the host works down from the top. */
  ghost predicate Gapless(s: State)
  {
    && s.nextId == (1 + RustIds(s)) % U32
    && (forall x :: 1 <= x <= RustIds(s) && x < U32 ==> Used(s, x))
    && |s.conns| <= U32 && (forall k :: 0 <= k < |s.conns| ==> s.conns[k].id == HostId(k))
  }

  /** Objects are only ever added, and keep their ids. */
  ghost predicate IdsGrow(s: State, t: State)
  {
    && |s.children| <= |t.children| && |s.socks| <= |t.socks| && |s.conns| <= |t.conns|
    && (forall i :: 0 <= i < |s.children| ==> t.children[i].procId == s.children[i].procId)
    && (forall j :: 0 <= j < |s.socks| ==> t.socks[j].id == s.socks[j].id)
  }

  lemma UsedGrows(s: State, t: State, x: nat)
    requires IdsGrow(s, t) && Used(s, x)
    ensures Used(t, x)
  {
    var a :| Has(s, a) && !a.Host? && IdOf(s, a) == x;
    assert Has(t, a) && IdOf(t, a) == x;
  }

  lemma SameIdsKeepGapless(s: State, t: State)
    requires Gapless(s) && SameIds(s, t)
    ensures Gapless(t)
  {
    forall x | 1 <= x <= RustIds(t) && x < U32 ensures Used(t, x) { UsedGrows(s, t, x); }
  }

  lemma SpawnKeepsGapless(s: State)
    requires Gapless(s) && Step(s, SpawnReserve).Some?
    ensures Gapless(Step(s, SpawnReserve).value)
  {
    var t := Step(s, SpawnReserve).value;
    forall x: nat | 1 <= x <= RustIds(t) && x < U32 ensures Used(t, x) {
      if x <= RustIds(s) { UsedGrows(s, t, x); } else { SpawnUses(s, x); }
    }
  }

  lemma SpawnUses(s: State, x: nat)
    requires s.nextId == (1 + RustIds(s)) % U32 && Step(s, SpawnReserve).Some?
    requires RustIds(s) < x <= RustIds(s) + 3 && x < U32
    ensures Used(Step(s, SpawnReserve).value, x)
  {
    var t := Step(s, SpawnReserve).value;
    var n, i := RustIds(s), |s.children|;
    assert s.nextId == 1 + n && t.children[i].procId == s.nextId;
    var a := if x == n + 1 then Proc(i) else if x == n + 2 then Out(i) else Err(i);
    assert Has(t, a) && IdOf(t, a) == x;
  }

  lemma BindKeepsGapless(s: State)
    requires Gapless(s) && Step(s, BindReserve).Some?
    ensures Gapless(Step(s, BindReserve).value)
  {
    var t := Step(s, BindReserve).value;
    forall x: nat | 1 <= x <= RustIds(t) && x < U32 ensures Used(t, x) {
      if x <= RustIds(s) {
        UsedGrows(s, t, x);
      } else {
        assert Has(t, Sock(|s.socks|)) && IdOf(t, Sock(|s.socks|)) == x;
      }
    }
  }

  lemma LandKeepsGapless(s: State, listenerId: nat)
    requires Gapless(s) && Step(s, AcceptLand(listenerId)).Some?
    ensures Gapless(Step(s, AcceptLand(listenerId)).value)
  {
    var t := Step(s, AcceptLand(listenerId)).value;
    assert t.children == s.children && t.socks == s.socks && t.nextId == s.nextId;
    forall x: nat | 1 <= x <= RustIds(t) && x < U32 ensures Used(t, x) { UsedGrows(s, t, x); }
  }

  lemma StepKeepsGapless(s: State, e: Event)
    requires Gapless(s) && Step(s, e).Some?
    ensures Gapless(Step(s, e).value)
  {
    if Allocates(e) {
      match e
      case SpawnReserve => SpawnKeepsGapless(s);
      case BindReserve => BindKeepsGapless(s);
      case AcceptLand(l) => LandKeepsGapless(s, l);
    } else {
      OthersKeepIds(s, e);
      SameIdsKeepGapless(s, Step(s, e).value);
    }
  }

  lemma {:induction false} ReachableGapless(es: seq<Event>)
    requires Run(Step, INIT, es).Some?
    ensures Gapless(Run(Step, INIT, es).value)
  {
    assert Inductive(Step, Gapless) by {
      forall s, e | Gapless(s) && Step(s, e).Some? ensures Gapless(Step(s, e).value) { StepKeepsGapless(s, e); }
    }
    Invariance(Step, Gapless, INIT, es);
  }

  lemma SpanOf(s: State, a: Thing)
    requires NumInv(s) && Has(s, a)
    ensures match a
            case Host(k) => IdOf(s, a) == U32 - 1 - k > RustIds(s)
            case Sock(j) => 1 <= IdOf(s, a) <= RustIds(s)
            case Proc(i) => IdOf(s, a) == s.children[i].procId <= RustIds(s)
            case Out(i) => IdOf(s, a) == s.children[i].procId + 1 <= RustIds(s)
            case Err(i) => IdOf(s, a) == s.children[i].procId + 2 <= RustIds(s)
  {}

  lemma ThingsDiffer(s: State, a: Thing, b: Thing)
    requires NumInv(s) && Has(s, a) && Has(s, b) && a != b
    ensures IdOf(s, a) != IdOf(s, b)
  {
    SpanOf(s, a);
    SpanOf(s, b);
    if a.Sock? && b.Sock? {
      SockIdsDiffer(s, a.j, b.j);
    } else if !a.Host? && !a.Sock? && !b.Host? && !b.Sock? {
      assert a.i < b.i ==> s.children[a.i].procId + 3 <= s.children[b.i].procId;
      assert b.i < a.i ==> s.children[b.i].procId + 3 <= s.children[a.i].procId;
    }
  }

  /**
   The bound is exact: once both ends have given out an id, all ids in use differ if and only if fewer than 2^32
   have been given out.
   */
  lemma {:induction false} IdsDistinctIffWithin(es: seq<Event>)
    requires Run(Step, INIT, es).Some?
    requires var t := Run(Step, INIT, es).value; RustIds(t) > 0 && |t.conns| > 0
    ensures var t := Run(Step, INIT, es).value; Distinct(t) <==> Within(t)
  {
    ReachableRegistries(es);
    ReachableGapless(es);
    var t := Run(Step, INIT, es).value;
    if Within(t) {
      forall a, b | Has(t, a) && Has(t, b) && a != b ensures IdOf(t, a) != IdOf(t, b) { ThingsDiffer(t, a, b); }
    } else {
      var k := if |t.conns| == U32 then |t.conns| - 2 else |t.conns| - 1;
      assert Used(t, HostId(k));
      var a :| Has(t, a) && !a.Host? && IdOf(t, a) == HostId(k);
      assert Has(t, Host(k)) && IdOf(t, Host(k)) == IdOf(t, a);
    }
  }

  /** This many spawns begin. */
  function Spawns(n: nat): (es: seq<Event>)
  {
    if n == 0 then [] else [SpawnReserve] + Spawns(n - 1)
  }

  lemma {:induction false} SpawnsRun(s: State, n: nat)
    requires s.bridged
    ensures var r := Run(Step, s, Spawns(n));
            r.Some? && |r.value.children| == |s.children| + n && r.value.socks == s.socks && r.value.conns == s.conns
    decreases n
  {
    if n == 0 {
    } else {
      assert Spawns(n)[1..] == Spawns(n - 1);
      SpawnsRun(Step(s, SpawnReserve).value, n - 1);
    }
  }

  /** The two ends do meet: after one connection, a third of 2^32 spawns make two ids equal. */
  lemma TheEndsMeet(n: nat)
    requires 3 * n >= U32 - 1
    ensures var r := Run(Step, INIT, [InitBridge, AcceptLand(0)] + Spawns(n));
            r.Some? && !Within(r.value) && !Distinct(r.value)
  {
    var s := Step(INIT, InitBridge).value;
    RunTwo(Step, INIT, InitBridge, AcceptLand(0));
    var t := Step(s, AcceptLand(0)).value;
    SpawnsRun(t, n);
    RunSplit(Step, INIT, [InitBridge, AcceptLand(0)], Spawns(n));
    IdsDistinctIffWithin([InitBridge, AcceptLand(0)] + Spawns(n));
  }
}
