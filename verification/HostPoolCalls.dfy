/**
 The calls themselves, over the registries as fields updated in place. The object remembers the machine's steps its
 calls amount to, and `Valid` says that they lead to its fields; so what is proved about all runs holds of it after
 any sequence of calls, and every call leaves it so.
 */
module HostPoolCalls {
  import opened Machine
  import opened ByteRx
  import opened HostPool
  import opened HostPoolConns
  import opened HostPoolIds
  import opened HostPoolRegistries
  import opened HostPoolActions
  import opened HostPoolDelivery

  // ---------------------------------------------------------------------------------------------------------
  // Every registry entry leads to something, however many ids were given out
  // ---------------------------------------------------------------------------------------------------------

  ghost predicate Led(s: State)
  {
    && LinksInv(s)
    && (forall id :: id in s.procs ==> s.procs[id] < |s.children|)
    && (forall id :: id in s.listeners ==> s.listeners[id] < |s.socks|)
    && (s.children != [] ==> s.bridged)
  }

  lemma StaysBridged(s: State, e: Event)
    requires Step(s, e).Some? && s.bridged
    ensures Step(s, e).value.bridged
  {
    if !MovesConns(e) { OthersKeepConns(s, e); }
    match e
    case AcceptLand(_) => ListFields(s, HostId(|s.conns|), ConnOf(|s.conns|));
    case AcceptRefuse => HangUpFields(s, s.busy.k, Refused(s.bridged));
    case DropStream(k) => HangUpFields(s, k, Done(s.conns[k].stage.l));
    case _ =>
  }

  lemma ChildrenNeedTheBridge(s: State, e: Event)
    requires (s.children != [] ==> s.bridged) && Step(s, e).Some?
    ensures Step(s, e).value.children != [] ==> Step(s, e).value.bridged
  {
    if s.bridged { StaysBridged(s, e); }
    else if !OfChild(e) && !e.SpawnReserve? { OthersLeaveProcs(s, e); }
  }

  lemma StepKeepsProcsLed(s: State, e: Event)
    requires Led(s) && Step(s, e).Some?
    ensures var t := Step(s, e).value; forall id :: id in t.procs ==> t.procs[id] < |t.children|
  {
    if !OfChild(e) && !e.SpawnReserve? {
      OthersLeaveProcs(s, e);
    } else if e.SpawnStreams? {
      SpawnFields(s, e.i);
    }
  }

  lemma StepKeepsListenersLed(s: State, e: Event)
    requires Led(s) && Step(s, e).Some?
    ensures var t := Step(s, e).value; forall id :: id in t.listeners ==> t.listeners[id] < |t.socks|
  {
    if !OfSock(e) && !e.BindReserve? { OthersLeaveSocks(s, e); }
  }

  lemma StepKeepsLed(s: State, e: Event)
    requires Led(s) && Step(s, e).Some?
    ensures Led(Step(s, e).value)
  {
    StepKeepsLinks(s, e);
    StepKeepsProcsLed(s, e);
    StepKeepsListenersLed(s, e);
    ChildrenNeedTheBridge(s, e);
  }

  lemma {:induction false} ReachableLed(es: seq<Event>)
    requires Run(Step, INIT, es).Some?
    ensures Led(Run(Step, INIT, es).value)
  {
    assert Inductive(Step, Led) by {
      forall s, e | Led(s) && Step(s, e).Some? ensures Led(Step(s, e).value) { StepKeepsLed(s, e); }
    }
    Invariance(Step, Led, INIT, es);
  }

  lemma ReadGives(ch: Channel, room: nat)
    requires ChanInv(ch)
    ensures var (_, poll, out) := PollRead(ch.rx, room);
            && ReadFrom(ch, room).delivered == ch.delivered + out && |out| <= room
            && (poll == Pending <==> ch.rx.open && Undelivered(ch.rx) == [])
            && (room > 0 && Undelivered(ch.rx) != [] ==> out != [])
            && (room > 0 && poll == Ready && out == [] ==> ReadFrom(ch, room).delivered == ReadFrom(ch, room).pushed)
  {
    PollReadConserves(ch.rx, room);
  }

  // ---------------------------------------------------------------------------------------------------------
  // The calls
  // ---------------------------------------------------------------------------------------------------------

  class Bridge {
    var bridged: bool
    var nextId: nat
    var chans: seq<Channel>
    var streams: map<nat, Slot>
    var children: seq<Child>
    var procs: map<nat, nat>
    var socks: seq<Listener>
    var listeners: map<nat, nat>
    var conns: seq<Conn>
    var busy: Busy
    var eofs: set<nat>
    var actions: seq<Action>
    ghost var trace: seq<Event>

    function View(): (s: State)
      reads this
    {
      State(bridged, nextId, chans, streams, children, procs, socks, listeners, conns, busy, eofs, actions)
    }

    ghost predicate Valid()
      reads this
    {
      Run(Step, INIT, trace) == Some(View())
    }

    ghost predicate Bounded()
      reads this
    {
      forall id :: id in streams ==> streams[id].chan < |chans|
    }

    /** Every entry leads to something, because the fields are the end of a run. */
    lemma Facts()
      requires Valid()
      ensures Bounded()
      ensures forall id :: id in procs ==> procs[id] < |children|
      ensures forall id :: id in listeners ==> listeners[id] < |socks|
      ensures children != [] ==> bridged
    {
      ReachableLed(trace);
    }

    lemma ChanFacts(c: nat)
      requires Valid() && c < |chans|
      ensures ChanInv(chans[c])
    {
      ReachableLed(trace);
    }

    lemma ConnFacts(k: nat)
      requires Valid() && k < |conns|
      ensures conns[k].chan < |chans| && (conns[k].stage.Open? ==> bridged)
    {
      ReachableLed(trace);
      assert LinkInv(View(), k);
      if conns[k].stage.Open? { OpenIsBridged(View(), k); }
    }

    lemma BusyFacts()
      requires Valid() && (busy.Accepting? || busy.Refusing?)
      ensures busy.k < |conns|
    {
      ReachableLed(trace);
      assert BusyWith(busy, busy.k);
    }

    lemma QueueFacts(j: nat)
      requires Valid() && j < |socks| && socks[j].queue != []
      ensures socks[j].queue[0] < |conns|
    {
      ReachableLed(trace);
      assert SockInv(View(), j);
      assert socks[j].arrived[|socks[j].taken|] == socks[j].queue[0] && Placed(View(), j, |socks[j].taken|);
    }

    /** All of it: order of connections, bytes, and, inside the id bound, registries and actions. */
    lemma Theorems()
      requires Valid()
      ensures ConnInv(View()) && ByteInv(View()) && Gapless(View())
      ensures Within(View()) ==> NumInv(View()) && StreamInv(View()) && ProcInv(View()) && ListenInv(View())
      ensures Within(View()) ==> ActInv(View())
    {
      ReachableLinks(trace);
      ReachableGapless(trace);
      ReachableAccounts(trace);
    }

    lemma SocksBridged()
      requires Valid()
      ensures socks != [] ==> bridged
    {
      ReachableLed(trace);
    }

    lemma KilledOnce(i: nat)
      requires Valid() && Within(View()) && i < |children| && children[i].killed
      ensures Count(actions, Op.Kill, children[i].procId) == 1
    {
      KilledAtMostOnce(trace, i);
    }

    /** The fields have been updated by this step. */
    ghost method Record(before: State, e: Event)
      requires Run(Step, INIT, trace) == Some(before) && Step(before, e) == Some(View())
      modifies `trace
      ensures Valid() && trace == old(trace) + [e]
    {
      RunOneMore(Step, INIT, trace, e);
      trace := trace + [e];
    }

    constructor ()
      ensures Valid() && View() == INIT && trace == []
    {
      bridged, nextId, chans, streams, children, procs := false, 1, [], map[], [], map[];
      socks, listeners, conns, busy, eofs, actions := [], map[], [], Free, {}, [];
      trace := [];
    }

    /** The first registration wins and the later ones change nothing. */
    method Register()
      requires Valid()
      modifies this
      ensures Valid() && trace == old(trace) + [InitBridge] && Step(old(View()), InitBridge) == Some(View())
      ensures View() == old(View()).(bridged := true)
    {
      ghost var before := View();
      bridged := true;
      Record(before, InitBridge);
    }

    method SendAction(op: Op, id: nat)
      modifies `actions
      ensures View() == Tell(old(View()), op, id)
    {
      if bridged { actions := actions + [Action(op, id)]; }
    }

    method RemoveStream(id: nat)
      requires Bounded()
      modifies `streams, `chans
      ensures Bounded() && View() == Unlist(old(View()), id) && |chans| == old(|chans|)
    {
      if id in streams {
        var c := streams[id].chan;
        streams := streams - {id};
        chans := chans[c := chans[c].(rx := chans[c].rx.(open := false))];
      }
    }

    method InsertStream(id: nat, owner: Owner) returns (c: nat)
      requires Bounded()
      modifies `streams, `chans
      ensures Bounded() && View() == List(old(View()), id, owner) && c == old(|chans|) && |chans| == c + 1
    {
      RemoveStream(id);
      c := |chans|;
      chans := chans + [FRESH];
      streams := streams[id := Slot(c, owner)];
    }

    method PushChunk(id: nat, bytes: seq<byte>)
      requires Valid() && busy == Free
      modifies `chans, `trace
      ensures Valid() && trace == old(trace) + [Push(id, bytes)]
      ensures Step(old(View()), Push(id, bytes)) == Some(View())
      ensures id in old(streams) ==>
                var c := old(streams[id].chan);
                c < old(|chans|) == |chans| && (old(chans[c].live) ==> chans[c].pushed == old(chans[c].pushed) + bytes)
    {
      Facts();
      ghost var before := View();
      if id in streams {
        var c := streams[id].chan;
        chans := chans[c := Send(chans[c], bytes)];
      }
      Record(before, Push(id, bytes));
    }

    method PushEnd(id: nat)
      requires Valid() && busy == Free
      modifies `streams, `chans, `eofs, `trace
      ensures Valid() && trace == old(trace) + [PushEof(id)] && Step(old(View()), PushEof(id)) == Some(View())
      ensures id !in streams && id in eofs
      ensures id in old(streams) ==>
                var c := old(streams[id].chan); c < old(|chans|) == |chans| && !chans[c].rx.open
    {
      Facts();
      ghost var before := View();
      RemoveStream(id);
      eofs := eofs + {id};
      Record(before, PushEof(id));
    }

    method PushBytes(id: nat, data: Option<seq<byte>>)
      requires Valid() && busy == Free
      modifies this
      ensures Valid()
      ensures var e := if data.Some? then Push(id, data.value) else PushEof(id);
              trace == old(trace) + [e] && Step(old(View()), e) == Some(View())
      ensures id in old(streams) ==>
                var c := old(streams[id].chan);
                && c < old(|chans|) == |chans|
                && (data.Some? && old(chans[c].live) ==> chans[c].pushed == old(chans[c].pushed) + data.value)
                && (data.None? ==> id !in streams && !chans[c].rx.open)
    {
      Facts();
      match data
      case Some(bytes) => PushChunk(id, bytes);
      case None => PushEnd(id);
    }

    /** One poll of a bridged stream; the loop inside is that of the reader. */
    method ReadStream(c: nat, room: nat) returns (poll: Poll, out: seq<byte>)
      requires Valid() && c < |chans| && chans[c].live
      modifies `chans, `trace
      ensures Valid() && trace == old(trace) + [Read(c, room)] && Step(old(View()), Read(c, room)) == Some(View())
      ensures |chans| == old(|chans|) && chans[c].delivered == old(chans[c].delivered) + out
      ensures room > 0 && poll == Ready && out == [] ==> chans[c].delivered == chans[c].pushed
      ensures ByteRx.Ok(old(chans[c].rx)) && |out| <= room
      ensures poll == Pending <==> old(chans[c].rx.open) && Undelivered(old(chans[c].rx)) == []
      ensures room > 0 && Undelivered(old(chans[c].rx)) != [] ==> out != []
    {
      ChanFacts(c);
      ReadGives(chans[c], room);
      ghost var before := View();
      var (rx, p, bytes) := PollRead(chans[c].rx, room);
      poll, out := p, bytes;
      chans := chans[c := chans[c].(rx := rx, delivered := chans[c].delivered + bytes)];
      Record(before, Read(c, room));
    }

    method DropStreamReader(c: nat)
      requires Valid() && c < |chans|
      modifies `chans, `trace
      ensures Valid() && trace == old(trace) + [DropReader(c)] && Step(old(View()), DropReader(c)) == Some(View())
      ensures |chans| == old(|chans|) && !chans[c].live
    {
      ghost var before := View();
      chans := chans[c := chans[c].(live := false)];
      Record(before, DropReader(c));
    }

    method Lookup(procId: nat, code: int)
      requires Valid() && busy == Free
      modifies `busy, `trace
      ensures Valid() && trace == old(trace) + [ExitLookup(procId, code)]
      ensures busy == if procId in procs then Exiting(procs[procId], code) else Free
      ensures busy.Exiting? ==> busy.i < |children|
      ensures Step(old(View()), ExitLookup(procId, code)) == Some(View())
    {
      Facts();
      ghost var before := View();
      if procId in procs { busy := Exiting(procs[procId], code); }
      Record(before, ExitLookup(procId, code));
    }

    method StoreExit()
      requires Valid() && busy.Exiting? && busy.i < |children|
      modifies `busy, `children, `trace
      ensures Valid() && trace == old(trace) + [ExitStore] && Step(old(View()), ExitStore) == Some(View())
      ensures |children| == old(|children|) && children[old(busy).i].code == Some(old(busy).code)
    {
      ghost var before := View();
      children := children[busy.i := children[busy.i].(code := Some(busy.code))];
      busy := Free;
      StoreStep(before);
      Record(before, ExitStore);
    }

    method ProcExit(procId: nat, code: int)
      requires Valid() && busy == Free
      modifies this
      ensures Valid() && busy == Free && |children| == old(|children|)
      ensures procId in old(procs) ==>
                old(procs[procId]) < |children| && children[old(procs[procId])].code == Some(code)
      ensures var es := [ExitLookup(procId, code)] + if procId in old(procs) then [ExitStore] else [];
              trace == old(trace) + es && Run(Step, old(View()), es) == Some(View())
    {
      Facts();
      ghost var es := [ExitLookup(procId, code)] + if procId in procs then [ExitStore] else [];
      ghost var before := View();
      Lookup(procId, code);
      if busy.Exiting? { StoreExit(); }
      assert trace == old(trace) + es;
      LastPart(old(trace), es, before, View());
    }

    /** The host has numbered the connection; its channel is registered before the listener is looked up. */
    method Land(listenerId: nat) returns (k: nat)
      requires Valid() && busy == Free && |conns| < U32
      modifies this
      ensures Valid() && trace == old(trace) + [AcceptLand(listenerId)]
      ensures k == old(|conns|) && |conns| == k + 1 && listeners == old(listeners)
      ensures busy == Accepting(k, listenerId)
      ensures Step(old(View()), AcceptLand(listenerId)) == Some(View())
    {
      Facts();
      ghost var before := View();
      k := |conns|;
      var c := InsertStream(HostId(k), ConnOf(k));
      conns := conns + [Conn(HostId(k), c, Landing, false)];
      busy := Accepting(k, listenerId);
      Record(before, AcceptLand(listenerId));
    }

    /** To the listener's queue when there is one; false when nobody listens. */
    method Route() returns (queued: bool)
      requires Valid() && busy.Accepting?
      modifies `socks, `conns, `busy, `trace
      ensures Valid() && trace == old(trace) + [AcceptRoute] && Step(old(View()), AcceptRoute) == Some(View())
      ensures queued == (old(busy).listenerId in listeners)
      ensures busy == if queued then Free else Refusing(old(busy).k)
    {
      Facts();
      ghost var before := View();
      BusyFacts();
      var k := busy.k;
      queued := busy.listenerId in listeners;
      if queued {
        var j := listeners[busy.listenerId];
        socks := socks[j := socks[j].(queue := socks[j].queue + [k], arrived := socks[j].arrived + [k])];
        conns := conns[k := conns[k].(stage := Waiting(j))];
        busy := Free;
      } else {
        busy := Refusing(k);
      }
      RouteStep(before);
      Record(before, AcceptRoute);
    }

    /** The connection leaves the registry, its receiver goes, and the host is told. */
    method HangUpConn(k: nat, stage: ConnStage)
      requires Bounded() && k < |conns| && conns[k].chan < |chans|
      modifies `streams, `chans, `conns, `actions
      ensures View() == HangUp(old(View()), k, stage)
      ensures |conns| == old(|conns|) && conns[k] == old(conns[k]).(stage := stage) && conns[k].id !in streams
      ensures actions == old(actions) + if bridged then [Action(DropConn, conns[k].id)] else []
    {
      HangUpFields(View(), k, stage);
      var c := conns[k];
      RemoveStream(c.id);
      SendAction(DropConn, c.id);
      chans := chans[c.chan := chans[c.chan].(live := false)];
      conns := conns[k := c.(stage := stage)];
    }

    method Refuse()
      requires Valid() && busy.Refusing?
      modifies this
      ensures Valid() && trace == old(trace) + [AcceptRefuse] && Step(old(View()), AcceptRefuse) == Some(View())
      ensures busy == Free
    {
      Facts();
      ghost var before := View();
      BusyFacts();
      ConnFacts(busy.k);
      HangUpConn(busy.k, Refused(bridged));
      busy := Free;
      Record(before, AcceptRefuse);
    }

    method Accept(listenerId: nat)
      requires Valid() && busy == Free && |conns| < U32
      modifies this
      ensures Valid() && busy == Free
      ensures var es := AcceptSteps(listenerId, listenerId in old(listeners));
              trace == old(trace) + es && Run(Step, old(View()), es) == Some(View())
    {
      ghost var es := AcceptSteps(listenerId, listenerId in listeners);
      ghost var before := View();
      var k := Land(listenerId);
      var queued := Route();
      if !queued { Refuse(); }
      assert trace == old(trace) + es;
      LastPart(old(trace), es, before, View());
    }

    method ReserveChild() returns (i: nat)
      requires Valid() && bridged
      modifies `nextId, `children, `trace
      ensures Valid() && trace == old(trace) + [SpawnReserve] && Step(old(View()), SpawnReserve) == Some(View())
      ensures i == old(|children|) && |children| == i + 1 && children[i].stage.Reserved?
    {
      ghost var before := View();
      i := |children|;
      var child := Child(nextId, Reserved, 0, 0, false, None, false);
      children := children + [child];
      nextId := (nextId + 3) % U32;
      ReserveStep(before);
      Record(before, SpawnReserve);
    }

    method OpenStreams(i: nat)
      requires Valid() && i < |children| && children[i].stage.Reserved?
      modifies this
      ensures Valid() && trace == old(trace) + [SpawnStreams(i)]
      ensures Step(old(View()), SpawnStreams(i)) == Some(View())
      ensures |children| == old(|children|) && children[i].stage.Streamed?
    {
      Facts();
      ghost var before := View();
      var out := InsertStream(OutId(children[i]), OutOf(i));
      var err := InsertStream(ErrId(children[i]), ErrOf(i));
      children := children[i := children[i].(stage := Streamed, out := out, err := err)];
      Record(before, SpawnStreams(i));
    }

    method ListChild(i: nat)
      requires Valid() && i < |children| && children[i].stage.Streamed?
      modifies `children, `procs, `trace
      ensures Valid() && trace == old(trace) + [SpawnProc(i)] && Step(old(View()), SpawnProc(i)) == Some(View())
      ensures |children| == old(|children|) && children[i].stage.Registered?
    {
      ghost var before := View();
      procs := procs[children[i].procId := i];
      children := children[i := children[i].(stage := Registered)];
      Record(before, SpawnProc(i));
    }

    method CallHost(i: nat)
      requires Valid() && i < |children| && children[i].stage.Registered?
      modifies `children, `trace
      ensures Valid() && trace == old(trace) + [SpawnCall(i)] && Step(old(View()), SpawnCall(i)) == Some(View())
      ensures |children| == old(|children|) && children[i].stage.Running?
    {
      ghost var before := View();
      children := children[i := children[i].(stage := Running)];
      Record(before, SpawnCall(i));
    }

    /** None when no bridge is registered. */
    method Spawn() returns (child: Option<nat>)
      requires Valid()
      modifies this
      ensures Valid()
      ensures !old(bridged) ==> child.None? && View() == old(View()) && trace == old(trace)
      ensures old(bridged) ==>
        && child == Some(old(|children|)) && |children| == old(|children|) + 1 && children[child.value].stage.Running?
        && trace == old(trace) + SpawnSteps(old(|children|))
        && Run(Step, old(View()), SpawnSteps(old(|children|))) == Some(View())
    {
      if !bridged { return None; }
      ghost var before := View();
      var i := ReserveChild();
      OpenStreams(i);
      ListChild(i);
      CallHost(i);
      child := Some(i);
      SpawnTrace(old(trace), i);
      LastPart(old(trace), SpawnSteps(i), before, View());
    }

    method Kill(i: nat)
      requires Valid() && i < |children| && children[i].stage.Running?
      modifies `children, `actions, `trace
      ensures Valid() && trace == old(trace) + [StartKill(i)] && Step(old(View()), StartKill(i)) == Some(View())
      ensures |children| == old(|children|) && children[i].killed
      ensures actions ==
              old(actions) + if old(children[i].killed) then [] else [Action(Op.Kill, children[i].procId)]
      ensures Within(View()) ==> Count(actions, Op.Kill, children[i].procId) == 1
    {
      Facts();
      ghost var before := View();
      if !children[i].killed {
        children := children[i := children[i].(killed := true)];
        SendAction(Op.Kill, children[i].procId);
      }
      assert old(actions) + [] == old(actions);
      Record(before, StartKill(i));
      if Within(View()) { KilledOnce(i); }
    }

    method KillUnlessDone(i: nat)
      requires Valid() && i < |children| && children[i].stage.Running?
      modifies `children, `actions, `trace
      ensures Valid() && trace == old(trace) + [DropChild(i)] && Step(old(View()), DropChild(i)) == Some(View())
      ensures |children| == old(|children|) && children[i].stage.Dropping?
      ensures children[i].procId == old(children[i].procId)
      ensures actions == old(actions) + if old(children[i].code.None? && !children[i].killed)
                                        then [Action(Op.Kill, children[i].procId)] else []
    {
      Facts();
      ghost var before := View();
      var kill := children[i].code.None? && !children[i].killed;
      children := children[i := children[i].(stage := Dropping, dropKill := kill)];
      if kill { SendAction(Op.Kill, children[i].procId); }
      assert old(actions) + [] == old(actions);
      Record(before, DropChild(i));
    }

    method ForgetChild(i: nat)
      requires Valid() && i < |children| && children[i].stage.Dropping?
      modifies `children, `procs, `trace
      ensures Valid() && trace == old(trace) + [UnlistChild(i)] && Step(old(View()), UnlistChild(i)) == Some(View())
      ensures |children| == old(|children|) && children[i].stage.Dropped?
      ensures procs == old(procs) - {old(children[i].procId)}
    {
      ghost var before := View();
      procs := procs - {children[i].procId};
      children := children[i := children[i].(stage := Dropped)];
      Record(before, UnlistChild(i));
    }

    /** A drop kills a child that was not killed and has not exited, then forgets it. */
    method DropTheChild(i: nat)
      requires Valid() && i < |children| && children[i].stage.Running?
      modifies `children, `actions, `procs, `trace
      ensures Valid() && trace == old(trace) + [DropChild(i), UnlistChild(i)]
      ensures Run(Step, old(View()), [DropChild(i), UnlistChild(i)]) == Some(View())
      ensures |children| == old(|children|) && children[i].stage.Dropped?
      ensures procs == old(procs) - {old(children[i].procId)}
      ensures actions == old(actions) + if old(children[i].code.None? && !children[i].killed)
                                        then [Action(Op.Kill, old(children[i].procId))] else []
    {
      ghost var before := View();
      KillUnlessDone(i);
      ForgetChild(i);
      assert trace == old(trace) + [DropChild(i), UnlistChild(i)];
      LastPart(old(trace), [DropChild(i), UnlistChild(i)], before, View());
    }

    method ReserveListener() returns (j: nat)
      requires Valid() && bridged
      modifies `nextId, `socks, `trace
      ensures Valid() && trace == old(trace) + [BindReserve] && Step(old(View()), BindReserve) == Some(View())
      ensures j == old(|socks|) && |socks| == j + 1 && socks[j].stage.Numbered?
    {
      ghost var before := View();
      j := |socks|;
      socks := socks + [Listener(nextId, Numbered, [], [], [])];
      nextId := (nextId + 1) % U32;
      BindStep(before);
      Record(before, BindReserve);
    }

    method ListListener(j: nat)
      requires Valid() && j < |socks| && socks[j].stage.Numbered?
      modifies `socks, `listeners, `trace
      ensures Valid() && trace == old(trace) + [BindInsert(j)] && Step(old(View()), BindInsert(j)) == Some(View())
      ensures |socks| == old(|socks|) && socks[j].stage.Listed?
    {
      ghost var before := View();
      listeners := listeners[socks[j].id := j];
      socks := socks[j := socks[j].(stage := Listed)];
      Record(before, BindInsert(j));
    }

    /** `up` is the host's answer to the listen call. */
    method Answer(j: nat, up: bool)
      requires Valid() && j < |socks| && socks[j].stage.Listed?
      modifies `socks, `listeners, `trace
      ensures Valid() && |socks| == old(|socks|) && socks[j].stage == (if up then Bound else BindError)
      ensures var e := if up then BindDone(j) else BindFailed(j);
              trace == old(trace) + [e] && Step(old(View()), e) == Some(View())
    {
      ghost var e := if up then BindDone(j) else BindFailed(j);
      ghost var before := View();
      if up {
        socks := socks[j := socks[j].(stage := Bound)];
      } else {
        listeners := listeners - {socks[j].id};
        socks := socks[j := socks[j].(stage := BindError)];
      }
      AnswerStep(before, j, up);
      Record(before, e);
    }

    method Bind(up: bool) returns (listener: Option<nat>)
      requires Valid()
      modifies this
      ensures Valid()
      ensures !old(bridged) ==> listener.None? && View() == old(View()) && trace == old(trace)
      ensures old(bridged) ==>
        && listener == (if up then Some(old(|socks|)) else None) && |socks| == old(|socks|) + 1
        && (up ==> socks[old(|socks|)].stage.Bound?)
        && trace == old(trace) + BindSteps(old(|socks|), up)
        && Run(Step, old(View()), BindSteps(old(|socks|), up)) == Some(View())
    {
      if !bridged { return None; }
      ghost var before := View();
      var j := ReserveListener();
      ListListener(j);
      Answer(j, up);
      listener := if up then Some(j) else None;
      BindTrace(old(trace), j, up);
      LastPart(old(trace), BindSteps(j, up), before, View());
    }

    /** accept() takes the oldest queued connection. */
    method TakeOldest(j: nat) returns (k: nat)
      requires Valid() && j < |socks| && socks[j].stage.Bound? && socks[j].queue != []
      modifies `socks, `conns, `trace
      ensures Valid() && trace == old(trace) + [TakeConn(j)] && Step(old(View()), TakeConn(j)) == Some(View())
      ensures k == old(socks[j].queue[0]) && k < |conns| && conns[k].stage == Open(j)
      ensures |socks| == old(|socks|) && [k] + socks[j].queue == old(socks[j].queue)
    {
      QueueFacts(j);
      ghost var before := View();
      k := socks[j].queue[0];
      socks := socks[j := socks[j].(queue := socks[j].queue[1..], taken := socks[j].taken + [k])];
      conns := conns[k := conns[k].(stage := Open(j))];
      Record(before, TakeConn(j));
    }

    method CloseTheListener(j: nat)
      requires Valid() && j < |socks| && socks[j].stage.Bound?
      modifies `socks, `listeners, `actions, `trace
      ensures Valid() && trace == old(trace) + [DropListener(j)]
      ensures Step(old(View()), DropListener(j)) == Some(View())
      ensures |socks| == old(|socks|) && socks[j].stage.Closed? && listeners == old(listeners) - {old(socks[j].id)}
      ensures actions == old(actions) + [Action(CloseListener, old(socks[j].id))]
    {
      SocksBridged();
      ghost var before := View();
      var l := socks[j];
      listeners := listeners - {l.id};
      socks := socks[j := l.(stage := Closed)];
      ghost var mid := PutSock(before, j, l.(stage := Closed)).(listeners := before.listeners - {l.id});
      assert View() == mid;
      SendAction(CloseListener, l.id);
      assert View() == Tell(mid, CloseListener, l.id);
      Record(before, DropListener(j));
    }

    method CloseWriteSide(k: nat)
      requires Valid() && k < |conns| && conns[k].stage.Open?
      modifies `conns, `actions, `trace
      ensures Valid() && trace == old(trace) + [Shutdown(k)] && Step(old(View()), Shutdown(k)) == Some(View())
      ensures |conns| == old(|conns|) && conns[k].writeClosed
      ensures actions == old(actions) + if old(conns[k].writeClosed) then [] else [Action(CloseWrite, conns[k].id)]
    {
      ConnFacts(k);
      ghost var before := View();
      if !conns[k].writeClosed {
        conns := conns[k := conns[k].(writeClosed := true)];
        assert View() == PutConn(before, k, conns[k]);
        SendAction(CloseWrite, conns[k].id);
      }
      assert old(actions) + [] == old(actions);
      ShutdownStep(before, k);
      Record(before, Shutdown(k));
    }

    method DropTheStream(k: nat)
      requires Valid() && k < |conns| && conns[k].stage.Open?
      modifies this
      ensures Valid() && trace == old(trace) + [DropStream(k)] && Step(old(View()), DropStream(k)) == Some(View())
      ensures |conns| == old(|conns|) && conns[k].stage.Done? && conns[k].id !in streams
      ensures actions == old(actions) + [Action(DropConn, conns[k].id)]
    {
      Facts();
      ConnFacts(k);
      ghost var before := View();
      HangUpConn(k, Done(conns[k].stage.l));
      Record(before, DropStream(k));
    }
  }

  function AcceptSteps(listenerId: nat, known: bool): (es: seq<Event>)
  {
    [AcceptLand(listenerId), AcceptRoute] + if known then [] else [AcceptRefuse]
  }

  function SpawnSteps(i: nat): (es: seq<Event>)
  {
    [SpawnReserve, SpawnStreams(i), SpawnProc(i), SpawnCall(i)]
  }

  function BindSteps(j: nat, up: bool): (es: seq<Event>)
  {
    [BindReserve, BindInsert(j), if up then BindDone(j) else BindFailed(j)]
  }

  lemma {:induction false} SpawnTrace(tr: seq<Event>, i: nat)
    ensures tr + [SpawnReserve] + [SpawnStreams(i)] + [SpawnProc(i)] + [SpawnCall(i)] == tr + SpawnSteps(i)
  {}

  lemma {:induction false} BindTrace(tr: seq<Event>, j: nat, up: bool)
    ensures tr + [BindReserve] + [BindInsert(j)] + [if up then BindDone(j) else BindFailed(j)] == tr + BindSteps(j, up)
  {}

  /** The steps a call adds to the trace lead from the state before to the state after. */
  lemma {:induction false} LastPart(tr: seq<Event>, es: seq<Event>, s: State, t: State)
    requires Run(Step, INIT, tr) == Some(s) && Run(Step, INIT, tr + es) == Some(t)
    ensures Run(Step, s, es) == Some(t)
  {
    RunSplit(Step, INIT, tr, es);
  }
}
