/**
 The ids of the host bridge: no two objects share one, so no registry entry is ever overwritten and every entry
 belongs to the object it was made for, as long as the two ends of the u32 space have not met.
 */
module HostPoolIds {
  import opened HostPool
  import opened HostPoolConns

  /** The allocation bound: three ids a spawn, one a bind, one a connection. */
  predicate Within(s: State)
  {
    3 * |s.children| + |s.socks| + |s.conns| < U32
  }

  /** Rust's ids grow from 1 in the order of allocation; the host's shrink from the largest u32. */
  ghost predicate NumInv(s: State)
  {
    var n := 3 * |s.children| + |s.socks|;
    && Within(s)
    && s.nextId == (1 + n) % U32
    && (forall i :: 0 <= i < |s.children| ==> 1 <= s.children[i].procId && s.children[i].procId + 2 <= n)
    && (forall i, j :: 0 <= i < j < |s.children| ==> s.children[i].procId + 3 <= s.children[j].procId)
    && (forall j :: 0 <= j < |s.socks| ==> 1 <= s.socks[j].id <= n)
    && (forall i, j :: 0 <= i < j < |s.socks| ==> s.socks[i].id < s.socks[j].id)
    && (forall i, j :: 0 <= i < |s.children| && 0 <= j < |s.socks| ==>
          s.socks[j].id < s.children[i].procId || s.children[i].procId + 3 <= s.socks[j].id)
    && (forall k :: 0 <= k < |s.conns| ==> s.conns[k].id == HostId(k))
  }

  ghost predicate SameIds(s: State, t: State)
  {
    && |t.children| == |s.children| && |t.socks| == |s.socks| && |t.conns| == |s.conns| && t.nextId == s.nextId
    && (forall i :: 0 <= i < |s.children| ==> t.children[i].procId == s.children[i].procId)
    && (forall j :: 0 <= j < |s.socks| ==> t.socks[j].id == s.socks[j].id)
    && (forall k :: 0 <= k < |s.conns| ==> t.conns[k].id == s.conns[k].id)
  }

  predicate Allocates(e: Event)
  {
    e.SpawnReserve? || e.BindReserve? || e.AcceptLand?
  }

  predicate OfChild(e: Event)
  {
    || e.SpawnStreams? || e.SpawnProc? || e.SpawnCall? || e.StartKill? || e.DropChild? || e.UnlistChild? || e.ExitStore?
  }

  predicate OfSock(e: Event)
  {
    e.BindInsert? || e.BindDone? || e.BindFailed? || e.DropListener?
  }

  lemma ChildEventsKeepIds(s: State, e: Event)
    requires Step(s, e).Some? && OfChild(e)
    ensures SameIds(s, Step(s, e).value)
  {
    if e.SpawnStreams? { SpawnFields(s, e.i); }
  }

  lemma SockEventsKeepIds(s: State, e: Event)
    requires Step(s, e).Some? && OfSock(e)
    ensures SameIds(s, Step(s, e).value)
  {}

  predicate OfConn(e: Event)
  {
    e.TakeConn? || e.Shutdown? || e.DropStream? || e.AcceptRoute? || e.AcceptRefuse?
  }

  lemma HangUpKeepsIds(s: State, k: nat, stage: ConnStage)
    requires k < |s.conns|
    ensures SameIds(s, HangUp(s, k, stage))
  {
    HangUpFields(s, k, stage);
  }

  lemma ConnEventsKeepIds(s: State, e: Event)
    requires Step(s, e).Some? && OfConn(e)
    ensures SameIds(s, Step(s, e).value)
  {
    if e.DropStream? { HangUpKeepsIds(s, e.k, Done(s.conns[e.k].stage.l)); }
    if e.AcceptRefuse? { HangUpKeepsIds(s, s.busy.k, Refused(s.bridged)); }
  }

  lemma OtherEventsKeepIds(s: State, e: Event)
    requires Step(s, e).Some? && !Allocates(e) && !OfChild(e) && !OfSock(e) && !OfConn(e)
    ensures var t := Step(s, e).value;
            t.children == s.children && t.socks == s.socks && t.conns == s.conns && t.nextId == s.nextId
  {}

  lemma OthersKeepIds(s: State, e: Event)
    requires Step(s, e).Some? && !Allocates(e)
    ensures SameIds(s, Step(s, e).value)
  {
    if OfChild(e) { ChildEventsKeepIds(s, e); }
    else if OfSock(e) { SockEventsKeepIds(s, e); }
    else if OfConn(e) { ConnEventsKeepIds(s, e); }
    else { OtherEventsKeepIds(s, e); }
  }

  lemma SameIdsKeepNums(s: State, t: State)
    requires NumInv(s) && SameIds(s, t)
    ensures NumInv(t)
  {}

  lemma SpawnKeepsNums(s: State)
    requires NumInv(s) && Step(s, SpawnReserve).Some? && Within(Step(s, SpawnReserve).value)
    ensures NumInv(Step(s, SpawnReserve).value)
  {
    var n := 3 * |s.children| + |s.socks|;
    assert s.nextId == 1 + n;
    var t := Step(s, SpawnReserve).value;
    assert t.nextId == (1 + 3 * |t.children| + |t.socks|) % U32;
  }

  lemma BindKeepsNums(s: State)
    requires NumInv(s) && Step(s, BindReserve).Some? && Within(Step(s, BindReserve).value)
    ensures NumInv(Step(s, BindReserve).value)
  {
    var n := 3 * |s.children| + |s.socks|;
    assert s.nextId == 1 + n;
    var t := Step(s, BindReserve).value;
    assert t.nextId == (1 + 3 * |t.children| + |t.socks|) % U32;
  }

  lemma LandKeepsNums(s: State, listenerId: nat)
    requires NumInv(s) && Step(s, AcceptLand(listenerId)).Some? && Within(Step(s, AcceptLand(listenerId)).value)
    ensures NumInv(Step(s, AcceptLand(listenerId)).value)
  {
    var t := Step(s, AcceptLand(listenerId)).value;
    ListFields(s, HostId(|s.conns|), ConnOf(|s.conns|));
    assert t.children == s.children && t.socks == s.socks && t.nextId == s.nextId;
    OneMoreConn(s, t, t.conns[|s.conns|]);
  }

  lemma OneMoreConn(s: State, t: State, c: Conn)
    requires NumInv(s) && Within(t) && t.children == s.children && t.socks == s.socks && t.nextId == s.nextId
    requires t.conns == s.conns + [c] && c.id == HostId(|s.conns|)
    ensures NumInv(t)
  {}

  lemma StepKeepsNums(s: State, e: Event)
    requires Step(s, e).Some? && Within(Step(s, e).value)
    requires Within(s) ==> NumInv(s)
    ensures Within(s) && NumInv(Step(s, e).value)
  {
    if Allocates(e) {
      AllocationCounts(s, e);
      match e
      case SpawnReserve => SpawnKeepsNums(s);
      case BindReserve => BindKeepsNums(s);
      case AcceptLand(l) => LandKeepsNums(s, l);
    } else {
      OthersKeepIds(s, e);
      SameIdsKeepNums(s, Step(s, e).value);
    }
  }

  lemma AllocationCounts(s: State, e: Event)
    requires Allocates(e) && Step(s, e).Some?
    ensures Within(Step(s, e).value) ==> Within(s)
  {}

  // ---------------------------------------------------------------------------------------------------------
  // Who owns which stream id
  // ---------------------------------------------------------------------------------------------------------

  predicate Exists(s: State, o: Owner)
  {
    match o
    case OutOf(i) => i < |s.children|
    case ErrOf(i) => i < |s.children|
    case ConnOf(k) => k < |s.conns|
  }

  function KeyOf(s: State, o: Owner): (id: int)
    requires Exists(s, o)
  {
    match o
    case OutOf(i) => OutId(s.children[i])
    case ErrOf(i) => ErrId(s.children[i])
    case ConnOf(k) => HostId(k)
  }

  function ChanOf(s: State, o: Owner): (c: nat)
    requires Exists(s, o)
  {
    match o
    case OutOf(i) => s.children[i].out
    case ErrOf(i) => s.children[i].err
    case ConnOf(k) => s.conns[k].chan
  }

  /** The stream of this owner has been put in the registry and Rust has not taken it out. */
  predicate Active(s: State, o: Owner)
  {
    && Exists(s, o)
    && match o
       case OutOf(i) => s.children[i].stage != Reserved
       case ErrOf(i) => s.children[i].stage != Reserved
       case ConnOf(k) => var st := s.conns[k].stage; st.Landing? || st.Waiting? || st.Open?
  }

  /** Within the bound nothing wraps: a child's stream ids follow its own, a host id lies above all of Rust's. */
  lemma KeyRange(s: State, o: Owner)
    requires NumInv(s) && Exists(s, o)
    ensures match o
            case OutOf(i) => KeyOf(s, o) == s.children[i].procId + 1 < U32 - |s.conns|
            case ErrOf(i) => KeyOf(s, o) == s.children[i].procId + 2 < U32 - |s.conns|
            case ConnOf(k) => KeyOf(s, o) == U32 - 1 - k >= U32 - |s.conns|
  {
    var n := 3 * |s.children| + |s.socks|;
    assert n < U32 - |s.conns|;
  }

  lemma KeysDiffer(s: State, o: Owner, p: Owner)
    requires NumInv(s) && Exists(s, o) && Exists(s, p)
    ensures KeyOf(s, o) == KeyOf(s, p) ==> o == p
  {
    KeyRange(s, o);
    KeyRange(s, p);
    if !o.ConnOf? && !p.ConnOf? && o.i < p.i { assert s.children[o.i].procId + 3 <= s.children[p.i].procId; }
    if !o.ConnOf? && !p.ConnOf? && p.i < o.i { assert s.children[p.i].procId + 3 <= s.children[o.i].procId; }
  }

  ghost predicate EntryInv(s: State, id: nat)
    requires id in s.streams
  {
    var o := s.streams[id].owner;
    Active(s, o) && id == KeyOf(s, o) && s.streams[id].chan == ChanOf(s, o)
  }

  ghost predicate OwnerInv(s: State, o: Owner)
  {
    Active(s, o) && KeyOf(s, o) !in s.eofs ==> KeyOf(s, o) in s.streams && s.streams[KeyOf(s, o)].owner == o
  }

  ghost predicate StreamInv(s: State)
  {
    && (forall id :: id in s.streams ==> EntryInv(s, id))
    && (forall o :: OwnerInv(s, o))
  }

  /** An owner whose stream is not registered yet, or no longer, has its id to itself. */
  lemma KeyIsFree(s: State, o: Owner)
    requires NumInv(s) && StreamInv(s) && Exists(s, o) && !Active(s, o)
    ensures KeyOf(s, o) !in s.streams
  {
    if KeyOf(s, o) in s.streams {
      assert EntryInv(s, KeyOf(s, o));
      KeysDiffer(s, o, s.streams[KeyOf(s, o)].owner);
    }
  }

  lemma NextHostIdIsFree(s: State)
    requires NumInv(s) && StreamInv(s) && 3 * |s.children| + |s.socks| + |s.conns| + 1 < U32
    ensures HostId(|s.conns|) !in s.streams
  {
    var id := HostId(|s.conns|);
    if id in s.streams {
      assert EntryInv(s, id);
      KeyRange(s, s.streams[id].owner);
    }
  }

  // ---------------------------------------------------------------------------------------------------------
  // Every step keeps the stream registry
  // ---------------------------------------------------------------------------------------------------------

  /** The registry and what it is about are the same in both states. */
  ghost predicate SameView(s: State, t: State)
  {
    && t.streams == s.streams && t.eofs == s.eofs
    && (forall o :: Active(t, o) <==> Active(s, o))
    && (forall o :: Active(s, o) ==> KeyOf(t, o) == KeyOf(s, o) && ChanOf(t, o) == ChanOf(s, o))
  }

  lemma SameViewKeepsStreams(s: State, t: State)
    requires StreamInv(s) && SameView(s, t)
    ensures StreamInv(t)
  {
    forall id | id in t.streams ensures EntryInv(t, id) { assert EntryInv(s, id); }
    forall o ensures OwnerInv(t, o) { assert OwnerInv(s, o); }
  }

  predicate MovesStreams(e: Event)
  {
    e.SpawnStreams? || e.AcceptLand? || e.DropStream? || e.AcceptRefuse? || e.PushEof?
  }

  /** Child `i` moves on in its life, with the same ids and channels. */
  ghost predicate Moves(s: State, t: State, i: nat)
  {
    && i < |s.children| && |t.children| == |s.children|
    && t.streams == s.streams && t.eofs == s.eofs && t.conns == s.conns
    && (forall j :: 0 <= j < |s.children| && j != i ==> t.children[j] == s.children[j])
    && var a, b := s.children[i], t.children[i];
       (b.stage.Reserved? <==> a.stage.Reserved?) && b.procId == a.procId && b.out == a.out && b.err == a.err
  }

  lemma MovingKeepsView(s: State, t: State, i: nat)
    requires Moves(s, t, i)
    ensures SameView(s, t)
  {
    assert forall j :: 0 <= j < |s.children| ==>
        && (t.children[j].stage.Reserved? <==> s.children[j].stage.Reserved?)
        && t.children[j].procId == s.children[j].procId
        && t.children[j].out == s.children[j].out && t.children[j].err == s.children[j].err;
  }

  lemma ChildEventsKeepView(s: State, e: Event)
    requires Step(s, e).Some? && OfChild(e) && !e.SpawnStreams?
    ensures SameView(s, Step(s, e).value)
  {
    ChildMoves(s, e);
    MovingKeepsView(s, Step(s, e).value, if e.ExitStore? then s.busy.i else e.i);
  }

  lemma PutMoves(s: State, t: State, i: nat, c: Child)
    requires i < |s.children| && t.children == s.children[i := c]
    requires t.streams == s.streams && t.eofs == s.eofs && t.conns == s.conns
    requires c.procId == s.children[i].procId && c.out == s.children[i].out && c.err == s.children[i].err
    requires c.stage.Reserved? <==> s.children[i].stage.Reserved?
    ensures Moves(s, t, i)
  {}

  lemma ChildMoves(s: State, e: Event)
    requires Step(s, e).Some? && OfChild(e) && !e.SpawnStreams?
    ensures Moves(s, Step(s, e).value, if e.ExitStore? then s.busy.i else e.i) && Step(s, e).value.socks == s.socks
  {
    var t, i := Step(s, e).value, if e.ExitStore? then s.busy.i else e.i;
    PutMoves(s, t, i, t.children[i]);
  }

  lemma SockEventsKeepView(s: State, e: Event)
    requires Step(s, e).Some? && (OfSock(e) || e.BindReserve? || e.SpawnReserve?)
    ensures SameView(s, Step(s, e).value)
  {}

  lemma ConnEventsKeepView(s: State, e: Event)
    requires ConnInv(s) && Step(s, e).Some? && (e.TakeConn? || e.Shutdown? || e.AcceptRoute?)
    ensures SameView(s, Step(s, e).value)
  {
    match e
    case TakeConn(j) => TakeKeepsConns(s, j);
    case AcceptRoute => assert BusyWith(s.busy, s.busy.k);
    case Shutdown(k) => ShutdownStep(s, k);
  }

  lemma BystandersKeepView(s: State, e: Event)
    requires Step(s, e).Some? && !MovesStreams(e) && !Allocates(e) && !OfChild(e) && !OfSock(e) && !OfConn(e)
    ensures SameView(s, Step(s, e).value)
  {}

  /** A stream is registered: the owner's key was free, and now maps to its new channel. */
  lemma RegisterKeeps(s: State, t: State, o: Owner)
    requires StreamInv(s) && !Active(s, o) && Active(t, o)
    requires forall p :: Active(t, p) <==> Active(s, p) || p == o
    requires forall p :: Active(s, p) ==>
               Exists(t, p) && KeyOf(t, p) == KeyOf(s, p) != KeyOf(t, o) && ChanOf(t, p) == ChanOf(s, p)
    requires KeyOf(t, o) >= 0 && t.eofs == s.eofs
    requires t.streams == s.streams[KeyOf(t, o) := Slot(ChanOf(t, o), o)]
    ensures StreamInv(t)
  {
    forall id | id in t.streams ensures EntryInv(t, id) {
      if id != KeyOf(t, o) { assert EntryInv(s, id); }
    }
    forall p ensures OwnerInv(t, p) { assert OwnerInv(s, p); }
  }

  lemma LandKeepsStreams(s: State, listenerId: nat)
    requires NumInv(s) && StreamInv(s) && Step(s, AcceptLand(listenerId)).Some?
    requires Within(Step(s, AcceptLand(listenerId)).value)
    ensures StreamInv(Step(s, AcceptLand(listenerId)).value)
  {
    var t := Step(s, AcceptLand(listenerId)).value;
    NextHostIdIsFree(s);
    LandKeepsNums(s, listenerId);
    forall p | Active(s, p) ensures KeyOf(t, p) != KeyOf(t, ConnOf(|s.conns|)) {
      KeysDiffer(t, p, ConnOf(|s.conns|));
    }
    RegisterKeeps(s, t, ConnOf(|s.conns|));
  }

  lemma SpawnShows(s: State, t: State, i: nat)
    requires IsChild(s, i, Reserved) && t.eofs == s.eofs && t.conns == s.conns
    requires t.children == s.children[i := s.children[i].(stage := Streamed, out := |s.chans|, err := |s.chans| + 1)]
    ensures SpawnView(s, t, i)
  {}

  /** The spawn registers the two streams under one lock. */
  lemma SpawnKeepsStreams(s: State, i: nat)
    requires NumInv(s) && StreamInv(s) && Step(s, SpawnStreams(i)).Some?
    ensures StreamInv(Step(s, SpawnStreams(i)).value)
  {
    var t := Step(s, SpawnStreams(i)).value;
    var o, r := OutOf(i), ErrOf(i);
    KeyIsFree(s, o);
    KeyIsFree(s, r);
    KeysDiffer(s, o, r);
    SpawnFields(s, i);
    SpawnShows(s, t, i);
    forall id | id in t.streams ensures EntryInv(t, id) {
      if id in s.streams { assert EntryInv(s, id); }
    }
    forall p ensures OwnerInv(t, p) {
      assert OwnerInv(s, p);
      if Active(s, p) { KeysDiffer(s, p, o); KeysDiffer(s, p, r); }
    }
  }

  ghost predicate SpawnView(s: State, t: State, i: nat)
    requires i < |s.children|
  {
    && t.eofs == s.eofs
    && (forall o :: Exists(t, o) <==> Exists(s, o))
    && (forall o :: Active(t, o) <==> Active(s, o) || o == OutOf(i) || o == ErrOf(i))
    && (forall o :: Exists(s, o) ==> KeyOf(t, o) == KeyOf(s, o))
    && (forall o :: Active(s, o) ==> ChanOf(t, o) == ChanOf(s, o))
    && ChanOf(t, OutOf(i)) == |s.chans| && ChanOf(t, ErrOf(i)) == |s.chans| + 1
  }

  lemma EofKeepsStreams(s: State, id: nat)
    requires StreamInv(s) && Step(s, PushEof(id)).Some?
    ensures StreamInv(Step(s, PushEof(id)).value)
  {
    var t := Step(s, PushEof(id)).value;
    UnlistFields(s, id);
    assert t.children == s.children && t.conns == s.conns && t.eofs == s.eofs + {id};
    EndedKeepsStreams(s, t, id);
  }

  lemma EndedKeepsStreams(s: State, t: State, id: nat)
    requires StreamInv(s) && t.children == s.children && t.conns == s.conns
    requires t.streams == s.streams - {id} && t.eofs == s.eofs + {id}
    ensures StreamInv(t)
  {
    forall x | x in t.streams ensures EntryInv(t, x) { assert EntryInv(s, x); }
    forall o ensures OwnerInv(t, o) { assert OwnerInv(s, o); }
  }

  lemma HangUpView(s: State, k: nat, stage: ConnStage)
    requires NumInv(s) && k < |s.conns| && (stage.Done? || stage.Refused?)
    ensures var t := HangUp(s, k, stage);
            && t.streams == s.streams - {HostId(k)} && t.eofs == s.eofs
            && (forall o :: Active(t, o) ==> Active(s, o) && o != ConnOf(k))
            && (forall o :: Active(s, o) && o != ConnOf(k) ==> Active(t, o))
            && (forall o :: Active(t, o) ==> KeyOf(t, o) == KeyOf(s, o) && ChanOf(t, o) == ChanOf(s, o))
  {
    KeyRange(s, ConnOf(k));
    HangUpFields(s, k, stage);
    StageView(s, HangUp(s, k, stage), k, stage);
  }

  lemma StageView(s: State, t: State, k: nat, stage: ConnStage)
    requires k < |s.conns| && (stage.Done? || stage.Refused?)
    requires t.children == s.children && t.conns == s.conns[k := s.conns[k].(stage := stage)]
    ensures forall o :: Active(t, o) ==> Active(s, o) && o != ConnOf(k)
    ensures forall o :: Active(s, o) && o != ConnOf(k) ==> Active(t, o)
    ensures forall o :: Active(t, o) ==> KeyOf(t, o) == KeyOf(s, o) && ChanOf(t, o) == ChanOf(s, o)
  {}

  lemma HangUpKeepsStreams(s: State, k: nat, stage: ConnStage)
    requires NumInv(s) && StreamInv(s) && k < |s.conns| && (stage.Done? || stage.Refused?)
    ensures StreamInv(HangUp(s, k, stage))
  {
    var t := HangUp(s, k, stage);
    HangUpView(s, k, stage);
    forall id | id in t.streams ensures EntryInv(t, id) { assert EntryInv(s, id); }
    forall o ensures OwnerInv(t, o) {
      assert OwnerInv(s, o);
      if Active(t, o) { KeysDiffer(s, o, ConnOf(k)); }
    }
  }

  lemma StepKeepsStreams(s: State, e: Event)
    requires ConnInv(s) && NumInv(s) && StreamInv(s) && Step(s, e).Some? && Within(Step(s, e).value)
    ensures StreamInv(Step(s, e).value)
  {
    var t := Step(s, e).value;
    if MovesStreams(e) {
      match e
      case SpawnStreams(i) => SpawnKeepsStreams(s, i);
      case AcceptLand(l) => LandKeepsStreams(s, l);
      case DropStream(k) => HangUpKeepsStreams(s, k, Done(s.conns[k].stage.l));
      case AcceptRefuse =>
        var u := HangUp(s, s.busy.k, Refused(s.bridged));
        HangUpKeepsStreams(s, s.busy.k, Refused(s.bridged));
        assert SameView(u, t);
        SameViewKeepsStreams(u, t);
      case PushEof(id) => EofKeepsStreams(s, id);
    } else {
      if OfChild(e) { ChildEventsKeepView(s, e); }
      else if OfSock(e) || e.BindReserve? || e.SpawnReserve? { SockEventsKeepView(s, e); }
      else if OfConn(e) { ConnEventsKeepView(s, e); }
      else { BystandersKeepView(s, e); }
      SameViewKeepsStreams(s, t);
    }
  }
}
