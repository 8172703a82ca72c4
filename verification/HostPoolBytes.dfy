/**
 From the host's push to Rust's read: on every registered stream the reader gets exactly the chunks pushed for its
 id since registration, in order, whatever else the threads do meanwhile.
 */
module HostPoolBytes {
  import opened Machine
  import opened ByteRx
  import opened HostPool
  import opened Sequences

  function FirstPush(e: Event, id: nat): (b: seq<byte>)
  {
    if e.Push? && e.id == id then e.chunk else []
  }

  /** The bytes a run pushes for an id. */
  function PushedTo(es: seq<Event>, id: nat): (b: seq<byte>)
  {
    if es == [] then []
    else FirstPush(es[0], id) + PushedTo(es[1..], id)
  }

  predicate Carries(s: State, id: nat, c: nat)
  {
    id in s.streams && s.streams[id].chan == c && c < |s.chans|
  }

  /** Nothing is pushed: channels accept nothing, dead readers stay dead, and only new channels are registered. */
  ghost predicate Quiet(s: State, t: State)
  {
    && |s.chans| <= |t.chans|
    && (forall c :: 0 <= c < |s.chans| ==>
          t.chans[c].pushed == s.chans[c].pushed && (t.chans[c].live ==> s.chans[c].live))
    && (forall id :: id in t.streams && t.streams[id].chan < |s.chans| ==>
          id in s.streams && s.streams[id].chan == t.streams[id].chan)
  }

  lemma QuietTwice(s: State, t: State, u: State)
    requires Quiet(s, t) && Quiet(t, u)
    ensures Quiet(s, u)
  {
    forall c | 0 <= c < |s.chans|
      ensures u.chans[c].pushed == s.chans[c].pushed && (u.chans[c].live ==> s.chans[c].live)
    {
      assert t.chans[c].pushed == s.chans[c].pushed;
    }
  }

  lemma UnlistIsQuiet(s: State, id: nat)
    ensures Quiet(s, Unlist(s, id)) && |Unlist(s, id).chans| == |s.chans|
  {}

  lemma ListIsQuiet(s: State, id: nat, owner: Owner)
    ensures Quiet(s, List(s, id, owner))
  {
    UnlistIsQuiet(s, id);
  }

  lemma SpawnIsQuiet(s: State, i: nat)
    requires IsChild(s, i, Reserved)
    ensures Quiet(s, Step(s, SpawnStreams(i)).value)
  {
    var t := List(s, OutId(s.children[i]), OutOf(i));
    ListIsQuiet(s, OutId(s.children[i]), OutOf(i));
    ListIsQuiet(t, ErrId(s.children[i]), ErrOf(i));
    QuietTwice(s, t, List(t, ErrId(s.children[i]), ErrOf(i)));
  }

  lemma HangUpIsQuiet(s: State, k: nat, stage: ConnStage)
    requires k < |s.conns|
    ensures Quiet(s, HangUp(s, k, stage))
  {
    UnlistIsQuiet(s, s.conns[k].id);
  }

  lemma StepIsQuiet(s: State, e: Event)
    requires ByteInv(s) && Step(s, e).Some? && !e.Push?
    ensures Quiet(s, Step(s, e).value)
  {
    if !TouchesChannels(e) {
      OthersLeaveChannels(s, e);
    } else if e.Read? {
      ReadIsQuiet(s, e.c, e.room);
    } else {
      RegistryStepIsQuiet(s, e);
    }
  }

  lemma ReadIsQuiet(s: State, c: nat, room: nat)
    requires ByteInv(s) && Step(s, Read(c, room)).Some?
    ensures Quiet(s, Step(s, Read(c, room)).value)
  {
    ReadKeeps(s.chans[c], room);
  }

  lemma RegistryStepIsQuiet(s: State, e: Event)
    requires Step(s, e).Some? && TouchesChannels(e) && !e.Push? && !e.Read?
    ensures Quiet(s, Step(s, e).value)
  {
    match e
    case SpawnStreams(i) => SpawnIsQuiet(s, i);
    case AcceptLand(l) => ListIsQuiet(s, HostId(|s.conns|), ConnOf(|s.conns|));
    case DropStream(k) => HangUpIsQuiet(s, k, Done(s.conns[k].stage.l));
    case AcceptRefuse => HangUpIsQuiet(s, s.busy.k, Refused(s.bridged));
    case PushEof(id) => UnlistIsQuiet(s, id);
    case DropReader(c) =>
  }

  /** A push changes the one channel registered under its id. */
  lemma {:induction false} PushLands(s: State, id: nat, chunk: seq<byte>)
    requires ByteInv(s) && Step(s, Push(id, chunk)).Some?
    ensures var t := Step(s, Push(id, chunk)).value;
            && t.streams == s.streams && |t.chans| == |s.chans|
            && (forall c :: 0 <= c < |s.chans| ==>
                  && t.chans[c].live == s.chans[c].live
                  && t.chans[c].pushed == s.chans[c].pushed
                     + (if Carries(s, id, c) && s.chans[c].live then chunk else []))
  {}

  /** One step, seen from one channel that is registered and alive afterwards. */
  lemma StepPushes(s: State, e: Event, id: nat, c: nat)
    requires ByteInv(s) && Step(s, e).Some? && c < |s.chans|
    requires Carries(Step(s, e).value, id, c) && Step(s, e).value.chans[c].live
    ensures Carries(s, id, c) && s.chans[c].live
    ensures Step(s, e).value.chans[c].pushed == s.chans[c].pushed + FirstPush(e, id)
  {
    if e.Push? {
      PushLands(s, e.id, e.chunk);
    } else {
      StepIsQuiet(s, e);
      assert s.chans[c].pushed + [] == s.chans[c].pushed;
    }
  }

  /** As long as the id keeps its channel and the channel its reader, what is pushed for the id is what arrives. */
  lemma {:induction false} RunPushes(s: State, id: nat, c: nat, es: seq<Event>)
    requires ByteInv(s) && Run(Step, s, es).Some? && c < |s.chans|
    requires var u := Run(Step, s, es).value; Carries(u, id, c) && u.chans[c].live
    ensures Carries(s, id, c) && s.chans[c].live
    ensures Run(Step, s, es).value.chans[c].pushed == s.chans[c].pushed + PushedTo(es, id)
    decreases |es|
  {
    if es == [] {
      assert s.chans[c].pushed + [] == s.chans[c].pushed;
    } else {
      var t := Step(s, es[0]).value;
      StepKeepsBytes(s, es[0]);
      StepEvolves(s, es[0]);
      RunPushes(t, id, c, es[1..]);
      StepPushes(s, es[0], id, c);
      Assoc(s.chans[c].pushed, FirstPush(es[0], id), PushedTo(es[1..], id));
    }
  }

  lemma OthersAddNoChannel(s: State, e: Event)
    requires Step(s, e).Some? && !e.SpawnStreams? && !e.AcceptLand?
    ensures |Step(s, e).value.chans| == |s.chans|
  {
    match e
    case DropStream(k) => UnlistIsQuiet(s, s.conns[k].id);
    case AcceptRefuse => UnlistIsQuiet(s, s.conns[s.busy.k].id);
    case PushEof(id) => UnlistIsQuiet(s, id);
    case _ => if !TouchesChannels(e) { OthersLeaveChannels(s, e); }
  }

  lemma SpawnIsFresh(s: State, i: nat, c: nat)
    requires ByteInv(s) && IsChild(s, i, Reserved) && |s.chans| <= c < |Step(s, SpawnStreams(i)).value.chans|
    requires exists id :: Carries(Step(s, SpawnStreams(i)).value, id, c)
    ensures Step(s, SpawnStreams(i)).value.chans[c] == FRESH
  {
    var t := List(s, OutId(s.children[i]), OutOf(i));
    ListKeepsBytes(s, OutId(s.children[i]), OutOf(i));
    var u := List(t, ErrId(s.children[i]), ErrOf(i));
    ListKeepsBytes(t, ErrId(s.children[i]), ErrOf(i));
    assert Step(s, SpawnStreams(i)).value.chans == u.chans;
    assert t.chans[|s.chans|] == FRESH;
    ListKeepsOthers(t, ErrId(s.children[i]), ErrOf(i), |s.chans|);
  }

  lemma ListKeepsOthers(t: State, id: nat, owner: Owner, c: nat)
    requires ByteInv(t) && c < |t.chans|
    ensures (exists x :: Carries(List(t, id, owner), x, c)) ==> List(t, id, owner).chans[c] == t.chans[c]
  {}

  /** A step that registers an id starts it on an empty channel. */
  lemma RegistrationIsFresh(s: State, e: Event, id: nat, c: nat)
    requires ByteInv(s) && Step(s, e).Some? && Carries(Step(s, e).value, id, c) && c >= |s.chans|
    ensures Step(s, e).value.chans[c] == FRESH
  {
    match e
    case SpawnStreams(i) => SpawnIsFresh(s, i, c);
    case AcceptLand(l) => ListKeepsBytes(s, HostId(|s.conns|), ConnOf(|s.conns|));
    case _ => OthersAddNoChannel(s, e);
  }

  /**
   Byte conservation over runs: after the step `e` registers an id, and while it stays registered and its reader
   alive, the bytes delivered, then carried over, then queued are the chunks pushed for the id, in order.
   */
  lemma {:induction false} DeliversWhatWasPushed(pre: seq<Event>, e: Event, es: seq<Event>, id: nat, c: nat)
    requires Run(Step, INIT, pre).Some?
    requires var s := Run(Step, INIT, pre).value;
             && Step(s, e).Some? && Carries(Step(s, e).value, id, c) && c >= |s.chans|
             && Run(Step, Step(s, e).value, es).Some?
             && var u := Run(Step, Step(s, e).value, es).value;
                Carries(u, id, c) && u.chans[c].live
    ensures var ch := Run(Step, Step(Run(Step, INIT, pre).value, e).value, es).value.chans[c];
            ByteRx.Ok(ch.rx) && ch.delivered + Undelivered(ch.rx) == PushedTo(es, id)
  {
    ReachableBytes(pre);
    var s := Run(Step, INIT, pre).value;
    var t := Step(s, e).value;
    StepKeepsBytes(s, e);
    RegistrationIsFresh(s, e, id, c);
    RunPushes(t, id, c, es);
    RunEvolves(t, es);
    assert ChanInv(Run(Step, t, es).value.chans[c]);
    assert [] + PushedTo(es, id) == PushedTo(es, id);
  }

  /** And the host's EOF cuts nothing off: from then on those chunks are what the reader has and will get. */
  lemma {:induction false} EofCutsNothing(pre: seq<Event>, e: Event, es: seq<Event>, id: nat, c: nat, more: seq<Event>)
    requires Run(Step, INIT, pre).Some?
    requires var s := Run(Step, INIT, pre).value;
             && Step(s, e).Some? && Carries(Step(s, e).value, id, c) && c >= |s.chans|
             && Run(Step, Step(s, e).value, es).Some?
             && var u := Run(Step, Step(s, e).value, es).value;
                && Carries(u, id, c) && u.chans[c].live && Step(u, PushEof(id)).Some?
                && Run(Step, Step(u, PushEof(id)).value, more).Some?
    ensures var u := Run(Step, Step(Run(Step, INIT, pre).value, e).value, es).value;
            var w := Run(Step, Step(u, PushEof(id)).value, more).value;
            && c < |w.chans| && ByteRx.Ok(w.chans[c].rx) && !w.chans[c].rx.open
            && w.chans[c].delivered + Undelivered(w.chans[c].rx) == PushedTo(es, id)
  {
    DeliversWhatWasPushed(pre, e, es, id, c);
    ReachableBytes(pre);
    var s := Run(Step, INIT, pre).value;
    StepKeepsBytes(s, e);
    RunEvolves(Step(s, e).value, es);
    var u := Run(Step, Step(s, e).value, es).value;
    var v := Step(u, PushEof(id)).value;
    EofCloses(u, id, c);
    RunEvolves(v, more);
    var w := Run(Step, v, more).value;
    assert Evolves(v.chans[c], w.chans[c]) && ChanInv(w.chans[c]);
  }

  lemma EofCloses(u: State, id: nat, c: nat)
    requires ByteInv(u) && Carries(u, id, c) && Step(u, PushEof(id)).Some?
    ensures var v := Step(u, PushEof(id)).value;
            && ByteInv(v) && |v.chans| == |u.chans|
            && !v.chans[c].rx.open && v.chans[c].pushed == u.chans[c].pushed
  {
    StepKeepsBytes(u, PushEof(id));
  }
}
