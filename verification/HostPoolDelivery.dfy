/**
 Nothing lost: from the moment a stream is registered until the host ends it, every byte the host pushes for its id
 arrives, as long as the ids have not run out and the reader is there.
 */
module HostPoolDelivery {
  import opened Machine
  import opened ByteRx
  import opened HostPool
  import opened HostPoolConns
  import opened HostPoolIds
  import opened HostPoolBytes
  import opened HostPoolRegistries

  /** The stream has got its id and its channel. */
  predicate Made(s: State, o: Owner)
  {
    Exists(s, o) && (o.OutOf? || o.ErrOf? ==> !s.children[o.i].stage.Reserved?)
  }

  /** Streams that were made keep their id and channel; objects and EOFs only accumulate. */
  ghost predicate Later(s: State, t: State)
  {
    && |s.children| <= |t.children| && |s.socks| <= |t.socks| && |s.conns| <= |t.conns| && s.eofs <= t.eofs
    && (forall o :: Made(s, o) ==> Made(t, o) && KeyOf(t, o) == KeyOf(s, o) && ChanOf(t, o) == ChanOf(s, o))
  }

  lemma LaterTwice(s: State, t: State, u: State)
    requires Later(s, t) && Later(t, u)
    ensures Later(s, u)
  {
    forall o | Made(s, o) ensures Made(u, o) && KeyOf(u, o) == KeyOf(s, o) && ChanOf(u, o) == ChanOf(s, o) {
      assert Made(t, o);
    }
  }

  lemma ChildEventsAreLater(s: State, e: Event)
    requires Step(s, e).Some? && OfChild(e)
    ensures Later(s, Step(s, e).value)
  {
    var t := Step(s, e).value;
    if e.SpawnStreams? {
      SpawnIsLater(s, e.i);
    } else {
      ChildMoves(s, e);
      MovingIsLater(s, t, if e.ExitStore? then s.busy.i else e.i);
    }
  }

  lemma SpawnIsLater(s: State, i: nat)
    requires IsChild(s, i, Reserved)
    ensures Later(s, Step(s, SpawnStreams(i)).value)
  {
    SpawnFields(s, i);
  }

  lemma MovingIsLater(s: State, t: State, i: nat)
    requires Moves(s, t, i) && t.socks == s.socks
    ensures Later(s, t)
  {}

  lemma SockEventsAreLater(s: State, e: Event)
    requires Step(s, e).Some? && (OfSock(e) || e.BindReserve? || e.SpawnReserve?)
    ensures Later(s, Step(s, e).value)
  {}

  /** Only stages of connections change, and the queues. */
  ghost predicate SameLinks(s: State, t: State)
  {
    && t.children == s.children && t.eofs == s.eofs && |t.socks| == |s.socks| && |t.conns| == |s.conns|
    && (forall k :: 0 <= k < |s.conns| ==> t.conns[k].id == s.conns[k].id && t.conns[k].chan == s.conns[k].chan)
  }

  lemma QueueEventsKeepLinks(s: State, e: Event)
    requires Step(s, e).Some? && (e.TakeConn? || e.AcceptRoute? || e.Shutdown?)
    ensures SameLinks(s, Step(s, e).value)
  {}

  lemma HangUpKeepsLinks(s: State, k: nat, stage: ConnStage)
    requires k < |s.conns|
    ensures SameLinks(s, HangUp(s, k, stage))
  {
    HangUpFields(s, k, stage);
  }

  lemma ConnEventsAreLater(s: State, e: Event)
    requires Step(s, e).Some? && OfConn(e)
    ensures Later(s, Step(s, e).value)
  {
    if e.DropStream? { HangUpKeepsLinks(s, e.k, Done(s.conns[e.k].stage.l)); }
    else if e.AcceptRefuse? { HangUpKeepsLinks(s, s.busy.k, Refused(s.bridged)); }
    else { QueueEventsKeepLinks(s, e); }
    assert SameLinks(s, Step(s, e).value);
  }

  lemma LandIsLater(s: State, listenerId: nat)
    requires Step(s, AcceptLand(listenerId)).Some?
    ensures Later(s, Step(s, AcceptLand(listenerId)).value)
  {
    ListFields(s, HostId(|s.conns|), ConnOf(|s.conns|));
  }

  lemma BystandersAreLater(s: State, e: Event)
    requires Step(s, e).Some? && !Allocates(e) && !OfChild(e) && !OfSock(e) && !OfConn(e)
    ensures Later(s, Step(s, e).value)
  {
    OtherEventsKeepIds(s, e);
    if e.PushEof? {
      assert Step(s, e).value.eofs == s.eofs + {e.id};
    } else {
      BystandersKeepEofs(s, e);
    }
  }

  lemma BystandersKeepEofs(s: State, e: Event)
    requires Step(s, e).Some? && !Allocates(e) && !OfChild(e) && !OfSock(e) && !OfConn(e) && !e.PushEof?
    ensures Step(s, e).value.eofs == s.eofs
  {}

  lemma StepIsLater(s: State, e: Event)
    requires Step(s, e).Some?
    ensures Later(s, Step(s, e).value)
  {
    if OfChild(e) { ChildEventsAreLater(s, e); }
    else if OfSock(e) || e.BindReserve? || e.SpawnReserve? { SockEventsAreLater(s, e); }
    else if OfConn(e) { ConnEventsAreLater(s, e); }
    else if e.AcceptLand? { LandIsLater(s, e.listenerId); }
    else { BystandersAreLater(s, e); }
  }

  lemma {:induction false} RunIsLater(s: State, es: seq<Event>)
    requires Run(Step, s, es).Some?
    ensures Later(s, Run(Step, s, es).value)
    decreases |es|
  {
    if es == [] {
    } else {
      var t := Step(s, es[0]).value;
      StepIsLater(s, es[0]);
      RunIsLater(t, es[1..]);
      LaterTwice(s, t, Run(Step, s, es).value);
    }
  }

  // ---------------------------------------------------------------------------------------------------------
  // A connection that is gone has no reader
  // ---------------------------------------------------------------------------------------------------------

  ghost predicate LinkInv(s: State, k: nat)
    requires k < |s.conns|
  {
    var c := s.conns[k];
    c.chan < |s.chans| && (c.stage.Done? || c.stage.Refused? ==> !s.chans[c.chan].live)
  }

  ghost predicate LinksInv(s: State)
  {
    ByteInv(s) && ConnInv(s) && forall k: nat :: k < |s.conns| ==> LinkInv(s, k)
  }

  /** Channels stay, and a reader that is gone stays gone. */
  lemma ReadersStayGone(s: State, e: Event, c: nat)
    requires ByteInv(s) && Step(s, e).Some? && c < |s.chans|
    ensures var t := Step(s, e).value; c < |t.chans| && (t.chans[c].live ==> s.chans[c].live)
  {
    if e.Push? { PushLands(s, e.id, e.chunk); } else { StepIsQuiet(s, e); }
  }

  lemma HangUpSilences(s: State, k: nat, stage: ConnStage)
    requires k < |s.conns| && s.conns[k].chan < |s.chans|
    ensures !HangUp(s, k, stage).chans[s.conns[k].chan].live
  {
    UnlistIsQuiet(s, s.conns[k].id);
  }

  lemma OthersEndNoConn(s: State, e: Event, k: nat)
    requires ConnInv(s) && Step(s, e).Some? && k < |s.conns| && !e.DropStream? && !e.AcceptRefuse?
    ensures var t := Step(s, e).value;
            && k < |t.conns|
            && (t.conns[k].stage.Done? || t.conns[k].stage.Refused? ==> t.conns[k].stage == s.conns[k].stage)
  {
    if !MovesConns(e) { OthersKeepConns(s, e); }
    if e.TakeConn? { TakeKeepsConns(s, e.j); }
    if e.AcceptLand? { ListFields(s, HostId(|s.conns|), ConnOf(|s.conns|)); }
  }

  lemma StepKeepsLink(s: State, e: Event, k: nat)
    requires LinksInv(s) && Step(s, e).Some? && k < |s.conns|
    ensures k < |Step(s, e).value.conns| && LinkInv(Step(s, e).value, k)
  {
    assert LinkInv(s, k) && Made(s, ConnOf(k));
    StepIsLater(s, e);
    ReadersStayGone(s, e, s.conns[k].chan);
    match e
    case DropStream(j) =>
      HangUpFields(s, j, Done(s.conns[j].stage.l));
      if j == k { HangUpSilences(s, j, Done(s.conns[j].stage.l)); }
    case AcceptRefuse =>
      HangUpFields(s, s.busy.k, Refused(s.bridged));
      if s.busy.k == k { HangUpSilences(s, s.busy.k, Refused(s.bridged)); }
    case _ => OthersEndNoConn(s, e, k);
  }

  lemma StepKeepsLinks(s: State, e: Event)
    requires LinksInv(s) && Step(s, e).Some?
    ensures LinksInv(Step(s, e).value)
  {
    var t := Step(s, e).value;
    StepKeepsBytes(s, e);
    StepKeepsConns(s, e);
    forall k: nat | k < |t.conns| ensures LinkInv(t, k) {
      if k < |s.conns| { StepKeepsLink(s, e, k); } else { NewConnLinks(s, e, k); }
    }
  }

  lemma NewConnLinks(s: State, e: Event, k: nat)
    requires Step(s, e).Some? && |s.conns| <= k < |Step(s, e).value.conns|
    ensures LinkInv(Step(s, e).value, k)
  {
    if e.AcceptLand? {
      ListFields(s, HostId(|s.conns|), ConnOf(|s.conns|));
    } else {
      OnlyLandingAdds(s, e);
      assert false;
    }
  }

  lemma OnlyLandingAdds(s: State, e: Event)
    requires Step(s, e).Some? && !e.AcceptLand?
    ensures |Step(s, e).value.conns| == |s.conns|
  {
    if !Allocates(e) { OthersKeepIds(s, e); }
  }

  lemma {:induction false} ReachableLinks(es: seq<Event>)
    requires Run(Step, INIT, es).Some?
    ensures LinksInv(Run(Step, INIT, es).value)
  {
    assert Inductive(Step, LinksInv) by {
      forall s, e | LinksInv(s) && Step(s, e).Some? ensures LinksInv(Step(s, e).value) { StepKeepsLinks(s, e); }
    }
    Invariance(Step, LinksInv, INIT, es);
  }

  predicate Gone(s: State, k: nat)
  {
    k < |s.conns| && (s.conns[k].stage.Done? || s.conns[k].stage.Refused?)
  }

  lemma StepKeepsGone(s: State, e: Event, k: nat)
    requires LinksInv(s) && Step(s, e).Some? && Gone(s, k)
    ensures var t := Step(s, e).value; k < |t.conns| && t.conns[k] == s.conns[k]
  {
    if OfConn(e) {
      ConnEventsKeepGone(s, e, k);
    } else if e.AcceptLand? {
      ListFields(s, HostId(|s.conns|), ConnOf(|s.conns|));
    } else {
      OthersKeepConnsAsTheyAre(s, e);
    }
  }

  lemma ConnEventsKeepGone(s: State, e: Event, k: nat)
    requires LinksInv(s) && Step(s, e).Some? && Gone(s, k) && OfConn(e)
    ensures var t := Step(s, e).value; k < |t.conns| && t.conns[k] == s.conns[k]
  {
    match e
    case DropStream(j) => HangUpFields(s, j, Done(s.conns[j].stage.l));
    case AcceptRefuse =>
      assert BusyWith(s.busy, s.busy.k);
      HangUpFields(s, s.busy.k, Refused(s.bridged));
    case AcceptRoute => assert BusyWith(s.busy, s.busy.k);
    case TakeConn(j) => TakeKeepsConns(s, j);
    case Shutdown(_) =>
  }

  lemma OthersKeepConnsAsTheyAre(s: State, e: Event)
    requires Step(s, e).Some? && !OfConn(e) && !e.AcceptLand?
    ensures Step(s, e).value.conns == s.conns
  {
    if e.SpawnStreams? { SpawnFields(s, e.i); }
  }

  /** A connection that was dropped or refused stays so, and its channel never has a reader again. */
  lemma {:induction false} GoneStaysGone(s: State, more: seq<Event>, k: nat)
    requires LinksInv(s) && Gone(s, k) && Run(Step, s, more).Some?
    ensures var u := Run(Step, s, more).value;
            && k < |u.conns| && u.conns[k] == s.conns[k]
            && u.conns[k].chan < |u.chans| && !u.chans[u.conns[k].chan].live
    decreases |more|
  {
    if more == [] {
      assert LinkInv(s, k);
    } else {
      StepKeepsGone(s, more[0], k);
      StepKeepsLinks(s, more[0]);
      GoneStaysGone(Step(s, more[0]).value, more[1..], k);
    }
  }

  lemma {:induction false} GoneForGood(es: seq<Event>, more: seq<Event>, k: nat)
    requires Run(Step, INIT, es).Some? && Gone(Run(Step, INIT, es).value, k)
    requires Run(Step, Run(Step, INIT, es).value, more).Some?
    ensures var t := Run(Step, INIT, es).value;
            var u := Run(Step, t, more).value;
            && k < |u.conns| && u.conns[k] == t.conns[k]
            && u.conns[k].chan < |u.chans| && !u.chans[u.conns[k].chan].live
  {
    ReachableLinks(es);
    GoneStaysGone(Run(Step, INIT, es).value, more, k);
  }

  // ---------------------------------------------------------------------------------------------------------
  // Theorems
  // ---------------------------------------------------------------------------------------------------------

  /** The event in which this stream is registered: a spawn's second lock region, or the accept call's first. */
  predicate Registers(s: State, e: Event, o: Owner)
  {
    match o
    case OutOf(i) => e == SpawnStreams(i)
    case ErrOf(i) => e == SpawnStreams(i)
    case ConnOf(k) => e.AcceptLand? && k == |s.conns|
  }

  /** The host knows the id: the spawn call has been made, the connection is its own. */
  predicate Told(s: State, o: Owner)
  {
    && Exists(s, o)
    && match o
       case OutOf(i) => s.children[i].stage.Running? || s.children[i].stage.Dropping? || s.children[i].stage.Dropped?
       case ErrOf(i) => s.children[i].stage.Running? || s.children[i].stage.Dropping? || s.children[i].stage.Dropped?
       case ConnOf(k) => true
  }

  lemma {:induction false} ReaderKeepsEntry(es: seq<Event>, o: Owner)
    requires Run(Step, INIT, es).Some? && Within(Run(Step, INIT, es).value)
    requires var t := Run(Step, INIT, es).value;
             Made(t, o) && KeyOf(t, o) !in t.eofs && ChanOf(t, o) < |t.chans| && t.chans[ChanOf(t, o)].live
    ensures var t := Run(Step, INIT, es).value;
            KeyOf(t, o) >= 0 && Active(t, o) && Carries(t, KeyOf(t, o), ChanOf(t, o))
  {
    var t := Run(Step, INIT, es).value;
    ReachableRegistries(es);
    ReachableLinks(es);
    if o.ConnOf? { assert LinkInv(t, o.k); }
    assert OwnerInv(t, o);
    assert EntryInv(t, KeyOf(t, o));
  }

  /** What the host has been told of, has not ended, and Rust still reads, is in the registry under its id. */
  lemma {:induction false} ToldIsRegistered(es: seq<Event>, o: Owner)
    requires Run(Step, INIT, es).Some? && Within(Run(Step, INIT, es).value)
    requires var t := Run(Step, INIT, es).value;
             Told(t, o) && KeyOf(t, o) !in t.eofs && ChanOf(t, o) < |t.chans| && t.chans[ChanOf(t, o)].live
    ensures var t := Run(Step, INIT, es).value;
            KeyOf(t, o) in t.streams && t.streams[KeyOf(t, o)] == Slot(ChanOf(t, o), o)
  {
    ReaderKeepsEntry(es, o);
    StreamRegistryIsExact(es, o);
  }

  lemma RegistersMakes(s: State, e: Event, o: Owner)
    requires Step(s, e).Some? && Registers(s, e, o)
    ensures Made(Step(s, e).value, o) && ChanOf(Step(s, e).value, o) >= |s.chans|
  {
    match o
    case OutOf(i) => SpawnFields(s, i);
    case ErrOf(i) => SpawnFields(s, i);
    case ConnOf(k) => ListFields(s, HostId(k), o);
  }

  /** The run so far, the registering step, and the rest are one run. */
  lemma {:induction false} OneRun(pre: seq<Event>, e: Event, es: seq<Event>)
    requires Run(Step, INIT, pre).Some? && Step(Run(Step, INIT, pre).value, e).Some?
    ensures Run(Step, INIT, pre + [e] + es) == Run(Step, Step(Run(Step, INIT, pre).value, e).value, es)
    ensures Run(Step, INIT, pre + [e]) == Step(Run(Step, INIT, pre).value, e)
  {
    RunOneMore(Step, INIT, pre, e);
    RunSplit(Step, INIT, pre + [e], es);
  }

  /** At both ends of the run the stream's id leads to its channel. */
  lemma {:induction false} StaysRegistered(pre: seq<Event>, e: Event, es: seq<Event>, o: Owner)
    requires Arrives(pre, e, es, o)
    ensures var s := Run(Step, INIT, pre).value;
            var t := Step(s, e).value;
            var u := Run(Step, t, es).value;
            var id, c := KeyOf(t, o), ChanOf(t, o);
            && id >= 0 && Carries(t, id, c) && Carries(u, id, c) && c >= |s.chans| && u.chans[c].live
  {
    var s := Run(Step, INIT, pre).value;
    var t := Step(s, e).value;
    OneRun(pre, e, es);
    RegistersMakes(s, e, o);
    RunIsLater(t, es);
    ReachableBytes(pre + [e]);
    ReaderKeepsEntry(pre + [e] + es, o);
    AlreadyCarried(t, KeyOf(t, o), ChanOf(t, o), es);
  }

  lemma {:induction false} AlreadyCarried(t: State, id: nat, c: nat, es: seq<Event>)
    requires ByteInv(t) && Run(Step, t, es).Some? && c < |t.chans|
    requires Carries(Run(Step, t, es).value, id, c) && Run(Step, t, es).value.chans[c].live
    ensures Carries(t, id, c)
  {
    RunPushes(t, id, c, es);
  }

  /**
   A run in which `e` registers the stream of `o` after `pre`, `es` follows, and at the end the ids have not run out,
   the host has not ended the stream, and somebody still reads it.
   */
  ghost predicate Arrives(pre: seq<Event>, e: Event, es: seq<Event>, o: Owner)
  {
    && Run(Step, INIT, pre).Some?
    && var s := Run(Step, INIT, pre).value;
       && Step(s, e).Some? && Registers(s, e, o)
       && Made(Step(s, e).value, o)
       && Run(Step, Step(s, e).value, es).Some?
       && var t, u := Step(s, e).value, Run(Step, Step(s, e).value, es).value;
          && Within(u) && KeyOf(t, o) !in u.eofs
          && ChanOf(t, o) < |t.chans| <= |u.chans| && u.chans[ChanOf(t, o)].live
  }

  /**
   No byte is lost, repeated or reordered on a stream nobody has ended: for a child's stdout and stderr and for a
   connection alike, what has been delivered, then what is carried over and queued, is all the host pushed for the
   id since it was registered.
   */
  lemma {:induction false} NothingIsLost(pre: seq<Event>, e: Event, es: seq<Event>, o: Owner)
    requires Arrives(pre, e, es, o)
    ensures var t := Step(Run(Step, INIT, pre).value, e).value;
            var ch := Run(Step, t, es).value.chans[ChanOf(t, o)];
            KeyOf(t, o) >= 0 && ByteRx.Ok(ch.rx) && ch.delivered + Undelivered(ch.rx) == PushedTo(es, KeyOf(t, o))
  {
    StaysRegistered(pre, e, es, o);
    var t := Step(Run(Step, INIT, pre).value, e).value;
    DeliversWhatWasPushed(pre, e, es, KeyOf(t, o), ChanOf(t, o));
  }

  /** And when the host ends it, those bytes are what the reader has and will get, whatever comes after. */
  lemma {:induction false} NothingIsLostBeforeEof(pre: seq<Event>, e: Event, es: seq<Event>, o: Owner, more: seq<Event>)
    requires Arrives(pre, e, es, o)
    requires var t := Step(Run(Step, INIT, pre).value, e).value;
             var u := Run(Step, t, es).value;
             KeyOf(t, o) >= 0 && Step(u, PushEof(KeyOf(t, o))).Some?
             && Run(Step, Step(u, PushEof(KeyOf(t, o))).value, more).Some?
    ensures var t := Step(Run(Step, INIT, pre).value, e).value;
            var w := Run(Step, Step(Run(Step, t, es).value, PushEof(KeyOf(t, o))).value, more).value;
            && ChanOf(t, o) < |w.chans|
            && var ch := w.chans[ChanOf(t, o)];
               ByteRx.Ok(ch.rx) && !ch.rx.open && ch.delivered + Undelivered(ch.rx) == PushedTo(es, KeyOf(t, o))
  {
    StaysRegistered(pre, e, es, o);
    var t := Step(Run(Step, INIT, pre).value, e).value;
    EofCutsNothing(pre, e, es, KeyOf(t, o), ChanOf(t, o), more);
  }
}
