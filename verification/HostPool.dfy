/**
 The host process and TCP bridge: global registries of byte streams, processes and listeners, the ids they go by,
 and the actions sent to the host.

 Each lock region of the source is one step. Rust threads spawn, bind, read and drop at any moment; the host's JS
 thread pushes bytes, reports exits and announces connections, one call at a time.
 */
module HostPool {
  import opened Machine
  import opened ByteRx
  import opened Sequences

  const U32: int := 0x1_0000_0000

  /** One mpsc channel: its reading end, whether that still exists, and the bytes that went in and came out. */
  datatype Channel = Channel(rx: Rx, live: bool, pushed: seq<byte>, delivered: seq<byte>)

  datatype Owner = OutOf(i: nat) | ErrOf(i: nat) | ConnOf(k: nat)

  /** A sender in the stream registry, with the object that registered it. */
  datatype Slot = Slot(chan: nat, owner: Owner)

  datatype ChildStage = Reserved | Streamed | Registered | Running | Dropping | Dropped

  /** `code` is the shared exit state; `dropKill` records that the drop sent a kill. */
  datatype Child = Child(
    procId: nat, stage: ChildStage, out: nat, err: nat, killed: bool, code: Option<int>, dropKill: bool)

  datatype ListenerStage = Numbered | Listed | Bound | BindError | Closed

  /** `arrived` and `taken` record the connections queued and the ones accept() handed out. */
  datatype Listener = Listener(id: nat, stage: ListenerStage, queue: seq<nat>, arrived: seq<nat>, taken: seq<nat>)

  datatype ConnStage = Landing | Waiting(l: nat) | Refused(told: bool) | Open(l: nat) | Done(l: nat)

  datatype Conn = Conn(id: nat, chan: nat, stage: ConnStage, writeClosed: bool)

  datatype Op = Kill | CloseWrite | DropConn | CloseListener

  datatype Action = Action(op: Op, id: nat)

  /** What the host's JS thread is in the middle of. */
  datatype Busy = Free | Accepting(k: nat, listenerId: nat) | Refusing(k: nat) | Exiting(i: nat, code: int)

  datatype State = State(
    bridged: bool, nextId: nat,
    chans: seq<Channel>, streams: map<nat, Slot>,
    children: seq<Child>, procs: map<nat, nat>,
    socks: seq<Listener>, listeners: map<nat, nat>,
    conns: seq<Conn>,
    busy: Busy, eofs: set<nat>, actions: seq<Action>)

  datatype Event =
    | InitBridge
    | SpawnReserve | SpawnStreams(i: nat) | SpawnProc(i: nat) | SpawnCall(i: nat)
    | StartKill(i: nat) | DropChild(i: nat) | UnlistChild(i: nat)
    | BindReserve | BindInsert(j: nat) | BindDone(j: nat) | BindFailed(j: nat) | DropListener(j: nat)
    | AcceptLand(listenerId: nat) | AcceptRoute | AcceptRefuse
    | TakeConn(j: nat) | Shutdown(k: nat) | DropStream(k: nat)
    | Push(id: nat, chunk: seq<byte>) | PushEof(id: nat)
    | ExitLookup(procId: nat, code: int) | ExitStore
    | Read(c: nat, room: nat) | DropReader(c: nat)

  const INIT := State(false, 1, [], map[], [], map[], [], map[], [], Free, {}, [])

  const FRESH := Channel(Rx([], true, [], 0), true, [], [])

  function OutId(c: Child): (id: nat)
  {
    (c.procId + 1) % U32
  }

  function ErrId(c: Child): (id: nat)
  {
    (c.procId + 2) % U32
  }

  /** Accepted connections are numbered by the host, downwards from the largest u32. */
  function HostId(k: nat): (id: int)
  {
    U32 - 1 - k
  }

  function Tell(s: State, op: Op, id: nat): State
  {
    if s.bridged then s.(actions := s.actions + [Action(op, id)]) else s
  }

  /** Removing or overwriting a registry entry drops the sender, which closes its channel. */
  function Unlist(s: State, id: nat): State
  {
    if id in s.streams then
      var c := s.streams[id].chan;
      s.(streams := s.streams - {id},
         chans := if c < |s.chans| then s.chans[c := s.chans[c].(rx := s.chans[c].rx.(open := false))] else s.chans)
    else s
  }

  function List(s: State, id: nat, owner: Owner): State
  {
    var t := Unlist(s, id);
    t.(streams := t.streams[id := Slot(|t.chans|, owner)], chans := t.chans + [FRESH])
  }

  function PutChild(s: State, i: nat, c: Child): State
    requires i < |s.children|
  {
    s.(children := s.children[i := c])
  }

  function PutSock(s: State, j: nat, l: Listener): State
    requires j < |s.socks|
  {
    s.(socks := s.socks[j := l])
  }

  function PutConn(s: State, k: nat, c: Conn): State
    requires k < |s.conns|
  {
    s.(conns := s.conns[k := c])
  }

  function Silence(s: State, c: nat): State
  {
    if c < |s.chans| then s.(chans := s.chans[c := s.chans[c].(live := false)]) else s
  }

  /** The connection leaves the registry, its receiver goes, and the host is told. */
  function HangUp(s: State, k: nat, stage: ConnStage): State
    requires k < |s.conns|
  {
    var c := s.conns[k];
    Tell(PutConn(Silence(Unlist(s, c.id), c.chan), k, c.(stage := stage)), DropConn, c.id)
  }

  /** Sending to a channel whose receiver is gone loses the chunk. */
  function Send(ch: Channel, chunk: seq<byte>): Channel
  {
    if !ch.live then ch else ch.(rx := ch.rx.(queue := ch.rx.queue + [chunk]), pushed := ch.pushed + chunk)
  }

  function ReadFrom(ch: Channel, room: nat): Channel
    requires ByteRx.Ok(ch.rx)
  {
    var (rx, _, out) := PollRead(ch.rx, room);
    ch.(rx := rx, delivered := ch.delivered + out)
  }

  predicate IsChild(s: State, i: nat, stage: ChildStage)
  {
    i < |s.children| && s.children[i].stage == stage
  }

  predicate IsSock(s: State, j: nat, stage: ListenerStage)
  {
    j < |s.socks| && s.socks[j].stage == stage
  }

  function StepRust(s: State, e: Event): Option<State>
  {
    match e
    case SpawnReserve =>
      if !s.bridged then None
      else Some(s.(nextId := (s.nextId + 3) % U32,
                   children := s.children + [Child(s.nextId, Reserved, 0, 0, false, None, false)]))
    case SpawnStreams(i) =>
      if !IsChild(s, i, Reserved) then None
      else
        var t := List(List(s, OutId(s.children[i]), OutOf(i)), ErrId(s.children[i]), ErrOf(i));
        Some(PutChild(t, i, s.children[i].(stage := Streamed, out := |s.chans|, err := |s.chans| + 1)))
    case SpawnProc(i) =>
      if !IsChild(s, i, Streamed) then None
      else Some(PutChild(s, i, s.children[i].(stage := Registered)).(procs := s.procs[s.children[i].procId := i]))
    case SpawnCall(i) =>
      if !IsChild(s, i, Registered) then None else Some(PutChild(s, i, s.children[i].(stage := Running)))
    case StartKill(i) =>
      if !IsChild(s, i, Running) then None
      else if s.children[i].killed then Some(s)
      else Some(Tell(PutChild(s, i, s.children[i].(killed := true)), Kill, s.children[i].procId))
    case DropChild(i) =>
      if !IsChild(s, i, Running) then None
      else
        var c := s.children[i];
        var kill := c.code.None? && !c.killed;
        var t := PutChild(s, i, c.(stage := Dropping, dropKill := kill));
        Some(if kill then Tell(t, Kill, c.procId) else t)
    case UnlistChild(i) =>
      if !IsChild(s, i, Dropping) then None
      else Some(PutChild(s, i, s.children[i].(stage := Dropped)).(procs := s.procs - {s.children[i].procId}))
    case BindReserve =>
      if !s.bridged then None
      else Some(s.(nextId := (s.nextId + 1) % U32, socks := s.socks + [Listener(s.nextId, Numbered, [], [], [])]))
    case BindInsert(j) =>
      if !IsSock(s, j, Numbered) then None
      else Some(PutSock(s, j, s.socks[j].(stage := Listed)).(listeners := s.listeners[s.socks[j].id := j]))
    case BindDone(j) =>
      if !IsSock(s, j, Listed) then None else Some(PutSock(s, j, s.socks[j].(stage := Bound)))
    case BindFailed(j) =>
      if !IsSock(s, j, Listed) then None
      else Some(PutSock(s, j, s.socks[j].(stage := BindError)).(listeners := s.listeners - {s.socks[j].id}))
    case DropListener(j) =>
      if !IsSock(s, j, Bound) then None
      else Some(Tell(PutSock(s, j, s.socks[j].(stage := Closed)).(listeners := s.listeners - {s.socks[j].id}),
                     CloseListener, s.socks[j].id))
    case TakeConn(j) =>
      if !IsSock(s, j, Bound) || s.socks[j].queue == [] then None
      else
        var l := s.socks[j];
        var k := l.queue[0];
        if k >= |s.conns| then None
        else Some(PutConn(PutSock(s, j, l.(queue := l.queue[1..], taken := l.taken + [k])),
                          k, s.conns[k].(stage := Open(j))))
    case Shutdown(k) =>
      if k >= |s.conns| || !s.conns[k].stage.Open? then None
      else if s.conns[k].writeClosed then Some(s)
      else Some(Tell(PutConn(s, k, s.conns[k].(writeClosed := true)), CloseWrite, s.conns[k].id))
    case DropStream(k) =>
      if k >= |s.conns| || !s.conns[k].stage.Open? then None
      else
        Some(HangUp(s, k, Done(s.conns[k].stage.l)))
    case Read(c, room) =>
      if c >= |s.chans| || !s.chans[c].live || !ByteRx.Ok(s.chans[c].rx) then None
      else Some(s.(chans := s.chans[c := ReadFrom(s.chans[c], room)]))
    case DropReader(c) => if c < |s.chans| then Some(Silence(s, c)) else None
    case _ => None
  }

  function StepHost(s: State, e: Event): Option<State>
  {
    match e
    case InitBridge => Some(s.(bridged := true))
    case AcceptLand(listenerId) =>
      var k := |s.conns|;
      if s.busy != Free || k >= U32 then None
      else
        var t := List(s, HostId(k), ConnOf(k));
        Some(t.(conns := t.conns + [Conn(HostId(k), |s.chans|, Landing, false)], busy := Accepting(k, listenerId)))
    case AcceptRoute =>
      if !s.busy.Accepting? || s.busy.k >= |s.conns| then None
      else
        var k := s.busy.k;
        if s.busy.listenerId in s.listeners && s.listeners[s.busy.listenerId] < |s.socks| then
          var j := s.listeners[s.busy.listenerId];
          var l := s.socks[j];
          Some(PutConn(PutSock(s, j, l.(queue := l.queue + [k], arrived := l.arrived + [k])),
                       k, s.conns[k].(stage := Waiting(j))).(busy := Free))
        else Some(s.(busy := Refusing(k)))
    case AcceptRefuse =>
      if !s.busy.Refusing? || s.busy.k >= |s.conns| then None
      else
        Some(HangUp(s, s.busy.k, Refused(s.bridged)).(busy := Free))
    case Push(id, chunk) =>
      if s.busy != Free then None
      else if id in s.streams && s.streams[id].chan < |s.chans| then
        Some(s.(chans := s.chans[s.streams[id].chan := Send(s.chans[s.streams[id].chan], chunk)]))
      else Some(s)
    case PushEof(id) => if s.busy != Free then None else Some(Unlist(s, id).(eofs := s.eofs + {id}))
    case ExitLookup(procId, code) =>
      if s.busy != Free then None
      else if procId in s.procs then Some(s.(busy := Exiting(s.procs[procId], code)))
      else Some(s)
    case ExitStore =>
      if !s.busy.Exiting? || s.busy.i >= |s.children| then None
      else Some(PutChild(s, s.busy.i, s.children[s.busy.i].(code := Some(s.busy.code))).(busy := Free))
    case _ => None
  }

  predicate HostEvent(e: Event)
  {
    || e.InitBridge? || e.AcceptLand? || e.AcceptRoute? || e.AcceptRefuse? || e.Push? || e.PushEof?
    || e.ExitLookup? || e.ExitStore?
  }

  function Step(s: State, e: Event): Option<State>
  {
    if HostEvent(e) then StepHost(s, e) else StepRust(s, e)
  }

  // ---------------------------------------------------------------------------------------------------------
  // Bytes
  // ---------------------------------------------------------------------------------------------------------

  ghost predicate ChanInv(ch: Channel)
  {
    ByteRx.Ok(ch.rx) && ch.delivered + Undelivered(ch.rx) == ch.pushed
  }

  ghost predicate ByteInv(s: State)
  {
    && (forall c :: 0 <= c < |s.chans| ==> ChanInv(s.chans[c]))
    && (forall id :: id in s.streams ==> s.streams[id].chan < |s.chans| && s.chans[s.streams[id].chan].rx.open)
    && (forall a, b :: a in s.streams && b in s.streams && s.streams[a].chan == s.streams[b].chan ==> a == b)
  }

  lemma UnlistFields(s: State, id: nat)
    ensures var t := Unlist(s, id);
            t == s.(streams := t.streams, chans := t.chans) && t.streams == s.streams - {id} && |t.chans| == |s.chans|
  {}

  lemma ReserveStep(s: State)
    requires s.bridged
    ensures var c := Child(s.nextId, Reserved, 0, 0, false, None, false);
            Step(s, SpawnReserve) == Some(s.(nextId := (s.nextId + 3) % U32, children := s.children + [c]))
  {}

  lemma BindStep(s: State)
    requires s.bridged
    ensures var l := Listener(s.nextId, Numbered, [], [], []);
            Step(s, BindReserve) == Some(s.(nextId := (s.nextId + 1) % U32, socks := s.socks + [l]))
  {}

  lemma AnswerStep(s: State, j: nat, up: bool)
    requires IsSock(s, j, Listed)
    ensures var l := s.socks[j];
            Step(s, if up then BindDone(j) else BindFailed(j))
            == Some(if up then PutSock(s, j, l.(stage := Bound))
                    else PutSock(s, j, l.(stage := BindError)).(listeners := s.listeners - {l.id}))
  {}

  /** A connection is queued on the listener its id leads to, or is to be refused. */
  lemma RouteStep(s: State)
    requires s.busy.Accepting? && s.busy.k < |s.conns|
    requires s.busy.listenerId in s.listeners ==> s.listeners[s.busy.listenerId] < |s.socks|
    ensures var k := s.busy.k;
            if s.busy.listenerId in s.listeners then
              var j := s.listeners[s.busy.listenerId];
              var l := s.socks[j].(queue := s.socks[j].queue + [k], arrived := s.socks[j].arrived + [k]);
              Step(s, AcceptRoute) == Some(s.(socks := s.socks[j := l],
                                              conns := s.conns[k := s.conns[k].(stage := Waiting(j))], busy := Free))
            else Step(s, AcceptRoute) == Some(s.(busy := Refusing(k)))
  {}

  lemma LookupStep(s: State, procId: nat, code: int)
    requires s.busy == Free && procId in s.procs
    ensures Step(s, ExitLookup(procId, code)) == Some(s.(busy := Exiting(s.procs[procId], code)))
  {}

  lemma StoreStep(s: State)
    requires s.busy.Exiting? && s.busy.i < |s.children|
    ensures var c := s.children[s.busy.i].(code := Some(s.busy.code));
            Step(s, ExitStore) == Some(s.(children := s.children[s.busy.i := c], busy := Free))
  {}

  lemma ShutdownStep(s: State, k: nat)
    requires k < |s.conns| && s.conns[k].stage.Open?
    ensures var c := s.conns[k].(writeClosed := true);
            Step(s, Shutdown(k)) == Some(if s.conns[k].writeClosed then s else Tell(PutConn(s, k, c), CloseWrite, c.id))
  {}

  /** A hang-up touches the registry, the channels, the log and the stage of the one connection. */
  lemma HangUpFields(s: State, k: nat, stage: ConnStage)
    requires k < |s.conns|
    ensures var t := HangUp(s, k, stage);
            && t == s.(streams := t.streams, chans := t.chans, conns := t.conns, actions := t.actions)
            && t.streams == s.streams - {s.conns[k].id}
            && t.conns == s.conns[k := s.conns[k].(stage := stage)]
            && t.actions == s.actions + (if s.bridged then [Action(DropConn, s.conns[k].id)] else [])
  {
    UnlistFields(s, s.conns[k].id);
  }

  /** Registering a stream touches the registry and the channels. */
  lemma ListFields(s: State, id: nat, owner: Owner)
    ensures var t := List(s, id, owner);
            && t == s.(streams := t.streams, chans := t.chans)
            && t.streams == s.streams[id := Slot(|s.chans|, owner)]
            && |t.chans| == |s.chans| + 1
  {}

  lemma SpawnFields(s: State, i: nat)
    requires IsChild(s, i, Reserved)
    ensures var t := Step(s, SpawnStreams(i)).value;
            && t == s.(streams := t.streams, chans := t.chans, children := t.children)
            && t.children == s.children[i := s.children[i].(stage := Streamed, out := |s.chans|, err := |s.chans| + 1)]
            && t.streams == s.streams[OutId(s.children[i]) := Slot(|s.chans|, OutOf(i))]
                                     [ErrId(s.children[i]) := Slot(|s.chans| + 1, ErrOf(i))]
  {
    ListFields(s, OutId(s.children[i]), OutOf(i));
    ListFields(List(s, OutId(s.children[i]), OutOf(i)), ErrId(s.children[i]), ErrOf(i));
  }

  lemma UnlistKeepsBytes(s: State, id: nat)
    requires ByteInv(s)
    ensures ByteInv(Unlist(s, id)) && |Unlist(s, id).chans| == |s.chans|
  {
    var t := Unlist(s, id);
    forall c | 0 <= c < |t.chans| ensures ChanInv(t.chans[c]) { assert ChanInv(s.chans[c]); }
  }

  lemma ListKeepsBytes(s: State, id: nat, owner: Owner)
    requires ByteInv(s)
    ensures ByteInv(List(s, id, owner)) && |List(s, id, owner).chans| == |s.chans| + 1
  {
    UnlistKeepsBytes(s, id);
    var t := Unlist(s, id);
    assert Undelivered(FRESH.rx) == [];
    assert ChanInv(FRESH);
    var u := List(s, id, owner);
    assert forall c :: 0 <= c < |t.chans| ==> u.chans[c] == t.chans[c];
  }

  lemma {:induction false} SendKeeps(ch: Channel, chunk: seq<byte>)
    requires ChanInv(ch)
    ensures ChanInv(Send(ch, chunk)) && Send(ch, chunk).rx.open == ch.rx.open
  {
    FlatAppend(ch.rx.queue, chunk);
    var t := Send(ch, chunk);
    if ch.live {
      assert Undelivered(t.rx) == Undelivered(ch.rx) + chunk;
      assert ch.delivered + (Undelivered(ch.rx) + chunk) == (ch.delivered + Undelivered(ch.rx)) + chunk;
    }
  }

  lemma ReadKeeps(ch: Channel, room: nat)
    requires ChanInv(ch)
    ensures ChanInv(ReadFrom(ch, room)) && ReadFrom(ch, room).rx.open == ch.rx.open
    ensures ReadFrom(ch, room).pushed == ch.pushed
  {
    PollReadConserves(ch.rx, room);
    var (rx, _, out) := PollRead(ch.rx, room);
    Assoc(ch.delivered, out, Undelivered(rx));
  }

  lemma UpdateKeepsBytes(s: State, c: nat, ch: Channel)
    requires ByteInv(s) && c < |s.chans| && ChanInv(ch) && ch.rx.open == s.chans[c].rx.open
    ensures ByteInv(s.(chans := s.chans[c := ch]))
  {}

  predicate TouchesChannels(e: Event)
  {
    || e.SpawnStreams? || e.AcceptLand? || e.DropStream? || e.AcceptRefuse? || e.PushEof? || e.Push? || e.Read?
    || e.DropReader?
  }

  lemma HostLeavesChannels(s: State, e: Event)
    requires StepHost(s, e).Some? && !TouchesChannels(e)
    ensures var t := StepHost(s, e).value; t.chans == s.chans && t.streams == s.streams && t.eofs == s.eofs
  {}

  lemma RustLeavesChannels(s: State, e: Event)
    requires StepRust(s, e).Some? && !TouchesChannels(e)
    ensures var t := StepRust(s, e).value; t.chans == s.chans && t.streams == s.streams && t.eofs == s.eofs
  {
    match e
    case SpawnReserve =>
    case BindReserve =>
    case TakeConn(_) =>
    case Shutdown(_) =>
    case StartKill(_) =>
    case DropChild(_) =>
    case DropListener(_) =>
    case _ =>
  }

  lemma OthersLeaveChannels(s: State, e: Event)
    requires Step(s, e).Some? && !TouchesChannels(e)
    ensures var t := Step(s, e).value; t.chans == s.chans && t.streams == s.streams && t.eofs == s.eofs
  {
    if HostEvent(e) { HostLeavesChannels(s, e); } else { RustLeavesChannels(s, e); }
  }

  lemma SilenceKeepsBytes(s: State, c: nat)
    requires ByteInv(s)
    ensures ByteInv(Silence(s, c))
  {
    if c < |s.chans| { UpdateKeepsBytes(s, c, s.chans[c].(live := false)); }
  }

  lemma HangUpKeepsBytes(s: State, k: nat, stage: ConnStage)
    requires ByteInv(s) && k < |s.conns|
    ensures ByteInv(HangUp(s, k, stage))
  {
    UnlistKeepsBytes(s, s.conns[k].id);
    SilenceKeepsBytes(Unlist(s, s.conns[k].id), s.conns[k].chan);
  }

  lemma SpawnKeepsBytes(s: State, i: nat)
    requires ByteInv(s) && IsChild(s, i, Reserved)
    ensures ByteInv(Step(s, SpawnStreams(i)).value)
  {
    var t := List(s, OutId(s.children[i]), OutOf(i));
    ListKeepsBytes(s, OutId(s.children[i]), OutOf(i));
    ListKeepsBytes(t, ErrId(s.children[i]), ErrOf(i));
    var u := List(t, ErrId(s.children[i]), ErrOf(i));
    assert Step(s, SpawnStreams(i)).value.chans == u.chans;
  }

  lemma LandKeepsBytes(s: State, listenerId: nat)
    requires ByteInv(s) && Step(s, AcceptLand(listenerId)).Some?
    ensures ByteInv(Step(s, AcceptLand(listenerId)).value)
  {
    ListKeepsBytes(s, HostId(|s.conns|), ConnOf(|s.conns|));
  }

  lemma {:induction false} PushKeepsBytes(s: State, id: nat, chunk: seq<byte>)
    requires ByteInv(s) && Step(s, Push(id, chunk)).Some?
    ensures ByteInv(Step(s, Push(id, chunk)).value)
  {
    if id in s.streams {
      SendKeeps(s.chans[s.streams[id].chan], chunk);
      UpdateKeepsBytes(s, s.streams[id].chan, Send(s.chans[s.streams[id].chan], chunk));
    }
  }

  lemma PollKeepsBytes(s: State, c: nat, room: nat)
    requires ByteInv(s) && Step(s, Read(c, room)).Some?
    ensures ByteInv(Step(s, Read(c, room)).value)
  {
    ReadKeeps(s.chans[c], room);
    UpdateKeepsBytes(s, c, ReadFrom(s.chans[c], room));
  }

  lemma StepKeepsBytes(s: State, e: Event)
    requires ByteInv(s) && Step(s, e).Some?
    ensures ByteInv(Step(s, e).value)
  {
    if !TouchesChannels(e) { OthersLeaveChannels(s, e); }
    match e
    case SpawnStreams(i) => SpawnKeepsBytes(s, i);
    case AcceptLand(l) => LandKeepsBytes(s, l);
    case DropStream(k) => HangUpKeepsBytes(s, k, Done(s.conns[k].stage.l));
    case AcceptRefuse => HangUpKeepsBytes(s, s.busy.k, Refused(s.bridged));
    case PushEof(id) => UnlistKeepsBytes(s, id);
    case Push(id, chunk) => PushKeepsBytes(s, id, chunk);
    case Read(c, room) => PollKeepsBytes(s, c, room);
    case DropReader(c) => SilenceKeepsBytes(s, c);
    case _ =>
  }

  lemma {:induction false} ReachableBytes(es: seq<Event>)
    requires Run(Step, INIT, es).Some?
    ensures ByteInv(Run(Step, INIT, es).value)
  {
    assert Inductive(Step, ByteInv) by {
      forall s, e | ByteInv(s) && Step(s, e).Some? ensures ByteInv(Step(s, e).value) { StepKeepsBytes(s, e); }
    }
    Invariance(Step, ByteInv, INIT, es);
  }

  /**
   Byte conservation: on every channel, whatever the interleaving, the bytes delivered followed by the carried and
   queued ones are the bytes accepted from the host, in order.
   */
  lemma {:induction false} BytesConserved(es: seq<Event>, c: nat)
    requires Run(Step, INIT, es).Some? && c < |Run(Step, INIT, es).value.chans|
    ensures var ch := Run(Step, INIT, es).value.chans[c];
            ByteRx.Ok(ch.rx) && ch.delivered + Undelivered(ch.rx) == ch.pushed
  {
    ReachableBytes(es);
    assert ChanInv(Run(Step, INIT, es).value.chans[c]);
  }

  /** How a channel may change: deliveries only grow, and a closed one accepts nothing more. */
  ghost predicate Evolves(a: Channel, b: Channel)
  {
    a.delivered <= b.delivered && (!a.rx.open ==> !b.rx.open && b.pushed == a.pushed)
  }

  ghost predicate AllEvolve(s: State, t: State)
  {
    |s.chans| <= |t.chans| && forall c :: 0 <= c < |s.chans| ==> Evolves(s.chans[c], t.chans[c])
  }

  lemma UnlistEvolves(s: State, id: nat)
    ensures AllEvolve(s, Unlist(s, id))
  {}

  lemma ListEvolves(s: State, id: nat, owner: Owner)
    ensures AllEvolve(s, List(s, id, owner))
  {
    UnlistEvolves(s, id);
  }

  lemma HangUpEvolves(s: State, k: nat, stage: ConnStage)
    requires k < |s.conns|
    ensures AllEvolve(s, HangUp(s, k, stage))
  {
    UnlistEvolves(s, s.conns[k].id);
  }

  lemma SpawnEvolves(s: State, i: nat)
    requires IsChild(s, i, Reserved)
    ensures AllEvolve(s, Step(s, SpawnStreams(i)).value)
  {
    var t := List(s, OutId(s.children[i]), OutOf(i));
    ListEvolves(s, OutId(s.children[i]), OutOf(i));
    ListEvolves(t, ErrId(s.children[i]), ErrOf(i));
    var u := List(t, ErrId(s.children[i]), ErrOf(i));
    assert Step(s, SpawnStreams(i)).value.chans == u.chans;
    forall c | 0 <= c < |s.chans| ensures Evolves(s.chans[c], u.chans[c]) { assert Evolves(t.chans[c], u.chans[c]); }
  }

  lemma StepEvolves(s: State, e: Event)
    requires ByteInv(s) && Step(s, e).Some?
    ensures AllEvolve(s, Step(s, e).value)
  {
    if !TouchesChannels(e) { OthersLeaveChannels(s, e); }
    match e
    case SpawnStreams(i) => SpawnEvolves(s, i);
    case AcceptLand(l) => ListEvolves(s, HostId(|s.conns|), ConnOf(|s.conns|));
    case DropStream(k) => HangUpEvolves(s, k, Done(s.conns[k].stage.l));
    case AcceptRefuse => HangUpEvolves(s, s.busy.k, Refused(s.bridged));
    case PushEof(id) => UnlistEvolves(s, id);
    case Read(c, room) => ReadKeeps(s.chans[c], room);
    case _ =>
  }

  lemma {:induction false} RunEvolves(s: State, es: seq<Event>)
    requires ByteInv(s) && Run(Step, s, es).Some?
    ensures AllEvolve(s, Run(Step, s, es).value) && ByteInv(Run(Step, s, es).value)
    decreases |es|
  {
    if es == [] {
    } else {
      var t := Step(s, es[0]).value;
      StepEvolves(s, es[0]);
      StepKeepsBytes(s, es[0]);
      RunEvolves(t, es[1..]);
      var u := Run(Step, s, es).value;
      forall c | 0 <= c < |s.chans| ensures Evolves(s.chans[c], u.chans[c]) {
        assert Evolves(s.chans[c], t.chans[c]) && Evolves(t.chans[c], u.chans[c]);
      }
    }
  }

  /**
   The end of a stream is real and final: when a poll with room reports zero bytes, the reader has everything the
   host ever pushed, and however the run goes on it will never have missed anything.
   */
  lemma {:induction false} EofIsFinal(es: seq<Event>, c: nat, room: nat, more: seq<Event>)
    requires Run(Step, INIT, es).Some?
    requires var t := Run(Step, INIT, es).value;
             c < |t.chans| && ByteRx.Ok(t.chans[c].rx) && room > 0
             && PollRead(t.chans[c].rx, room).1 == Ready && PollRead(t.chans[c].rx, room).2 == []
    requires Run(Step, Run(Step, INIT, es).value, more).Some?
    ensures var t := Run(Step, INIT, es).value;
            var u := Run(Step, t, more).value;
            && t.chans[c].delivered == t.chans[c].pushed
            && c < |u.chans| && u.chans[c].delivered == t.chans[c].delivered && u.chans[c].pushed == t.chans[c].pushed
  {
    ReachableBytes(es);
    var t := Run(Step, INIT, es).value;
    PollReadConserves(t.chans[c].rx, room);
    assert ChanInv(t.chans[c]);
    RunEvolves(t, more);
    var u := Run(Step, t, more).value;
    assert ChanInv(u.chans[c]) && Evolves(t.chans[c], u.chans[c]);
  }

  /**
   Every read of a live stream goes through, delivers what it takes off the undelivered bytes, and makes progress: with
   room and something to deliver, at least one byte.
   */
  lemma {:induction false} ReadDelivers(es: seq<Event>, c: nat, room: nat)
    requires Run(Step, INIT, es).Some?
    requires var s := Run(Step, INIT, es).value; c < |s.chans| && s.chans[c].live
    ensures var s := Run(Step, INIT, es).value;
            var r := Step(s, Read(c, room));
            && r.Some? && |r.value.chans| == |s.chans| && ByteRx.Ok(s.chans[c].rx) && ByteRx.Ok(r.value.chans[c].rx)
            && var a, b := s.chans[c], r.value.chans[c];
               && a.delivered <= b.delivered
               && b.delivered + Undelivered(b.rx) == a.delivered + Undelivered(a.rx)
               && (room > 0 && Undelivered(a.rx) != [] ==> |a.delivered| < |b.delivered| <= |a.delivered| + room)
               && forall d :: 0 <= d < |s.chans| && d != c ==> r.value.chans[d] == s.chans[d]
  {
    ReachableBytes(es);
    var s := Run(Step, INIT, es).value;
    assert ChanInv(s.chans[c]);
    PollReadConserves(s.chans[c].rx, room);
    ReadKeeps(s.chans[c], room);
  }
}
