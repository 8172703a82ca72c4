/**
 What becomes of accepted connections: each is handed out by at most one accept(), in the order the host announced
 them, and refused exactly when nobody listens under the id the host named.
 */
module HostPoolConns {
  import opened Machine
  import opened HostPool

  /** The connection the host's current accept call is about. */
  predicate BusyWith(b: Busy, k: nat)
  {
    (b.Accepting? || b.Refusing?) && b.k == k
  }

  predicate Settled(c: ConnStage, l: nat)
  {
    c == Waiting(l) || c == Open(l) || c == Done(l)
  }

  ghost predicate BusyInv(s: State)
  {
    && (forall k: nat :: BusyWith(s.busy, k) ==> k + 1 == |s.conns|)
    && (forall k :: 0 <= k < |s.conns| ==> (s.conns[k].stage.Landing? <==> BusyWith(s.busy, k)))
  }

  /** Entry `p` of a listener's arrivals: already handed out, or still waiting. */
  ghost predicate Placed(s: State, j: nat, p: nat)
    requires j < |s.socks| && p < |s.socks[j].arrived|
  {
    var k := s.socks[j].arrived[p];
    && k < |s.conns|
    && if p < |s.socks[j].taken| then s.conns[k].stage == Open(j) || s.conns[k].stage == Done(j)
       else s.conns[k].stage == Waiting(j)
  }

  ghost predicate SockInv(s: State, j: nat)
    requires j < |s.socks|
  {
    var l := s.socks[j];
    && l.arrived == l.taken + l.queue
    && (forall p, q :: 0 <= p < q < |l.arrived| ==> l.arrived[p] < l.arrived[q])
    && (forall p: nat :: p < |l.arrived| ==> Placed(s, j, p))
  }

  ghost predicate KnownTo(s: State, k: nat, l: nat)
  {
    l < |s.socks| && k in s.socks[l].arrived
  }

  ghost predicate ConnInv(s: State)
  {
    && BusyInv(s)
    && (forall j: nat :: j < |s.socks| ==> SockInv(s, j))
    && (forall k: nat, l: nat :: k < |s.conns| && Settled(s.conns[k].stage, l) ==> KnownTo(s, k, l))
    && (!s.bridged ==> s.socks == [])
  }

  // ---------------------------------------------------------------------------------------------------------
  // Steps
  // ---------------------------------------------------------------------------------------------------------

  predicate MovesConns(e: Event)
  {
    e.BindReserve? || e.AcceptLand? || e.AcceptRoute? || e.AcceptRefuse? || e.TakeConn? || e.DropStream?
  }

  ghost predicate SameConns(s: State, t: State)
  {
    && |t.socks| == |s.socks| && |t.conns| == |s.conns| && (s.bridged ==> t.bridged)
    && (forall j :: 0 <= j < |s.socks| ==>
          && t.socks[j].queue == s.socks[j].queue && t.socks[j].arrived == s.socks[j].arrived
          && t.socks[j].taken == s.socks[j].taken)
    && (forall k :: 0 <= k < |s.conns| ==> t.conns[k].stage == s.conns[k].stage)
    && (forall k: nat :: BusyWith(t.busy, k) <==> BusyWith(s.busy, k))
  }

  predicate StagesSock(e: Event)
  {
    e.BindInsert? || e.BindDone? || e.BindFailed? || e.DropListener?
  }

  lemma SockStagesKeepConns(s: State, e: Event)
    requires Step(s, e).Some? && StagesSock(e)
    ensures SameConns(s, Step(s, e).value)
  {}

  lemma ShutdownKeepsConns(s: State, k: nat)
    requires Step(s, Shutdown(k)).Some?
    ensures SameConns(s, Step(s, Shutdown(k)).value)
  {}

  lemma OthersKeepConns(s: State, e: Event)
    requires Step(s, e).Some? && !MovesConns(e)
    ensures SameConns(s, Step(s, e).value)
  {
    if StagesSock(e) {
      SockStagesKeepConns(s, e);
    } else if e.Shutdown? {
      ShutdownKeepsConns(s, e.k);
    } else {
      BystandersLeaveConns(s, e);
    }
  }

  lemma BystandersLeaveConns(s: State, e: Event)
    requires Step(s, e).Some? && !MovesConns(e) && !StagesSock(e) && !e.Shutdown?
    ensures var t := Step(s, e).value;
            && t.socks == s.socks && t.conns == s.conns && (s.bridged ==> t.bridged)
            && (forall k: nat :: BusyWith(t.busy, k) <==> BusyWith(s.busy, k))
  {
    if e.SpawnStreams? { SpawnFields(s, e.i); }
  }

  lemma SameConnsKeepInv(s: State, t: State)
    requires ConnInv(s) && SameConns(s, t)
    ensures ConnInv(t)
  {
    forall j: nat | j < |t.socks| ensures SockInv(t, j) {
      assert SockInv(s, j);
      forall p: nat | p < |t.socks[j].arrived| ensures Placed(t, j, p) { assert Placed(s, j, p); }
    }
    forall k: nat, l: nat | k < |t.conns| && Settled(t.conns[k].stage, l) ensures KnownTo(t, k, l) {
      assert KnownTo(s, k, l);
    }
  }

  lemma BindKeepsConns(s: State)
    requires ConnInv(s) && Step(s, BindReserve).Some?
    ensures ConnInv(Step(s, BindReserve).value)
  {
    var t := Step(s, BindReserve).value;
    forall j: nat | j < |t.socks| ensures SockInv(t, j) {
      if j < |s.socks| {
        assert SockInv(s, j);
        forall p: nat | p < |t.socks[j].arrived| ensures Placed(t, j, p) { assert Placed(s, j, p); }
      }
    }
    forall k: nat, l: nat | k < |t.conns| && Settled(t.conns[k].stage, l) ensures KnownTo(t, k, l) {
      assert KnownTo(s, k, l);
    }
  }

  lemma LandKeepsConns(s: State, listenerId: nat)
    requires ConnInv(s) && Step(s, AcceptLand(listenerId)).Some?
    ensures ConnInv(Step(s, AcceptLand(listenerId)).value)
  {
    var t := Step(s, AcceptLand(listenerId)).value;
    assert t.socks == s.socks && t.bridged == s.bridged;
    assert forall k: nat :: !BusyWith(s.busy, k);
    forall j: nat | j < |t.socks| ensures SockInv(t, j) {
      assert SockInv(s, j);
      forall p: nat | p < |t.socks[j].arrived| ensures Placed(t, j, p) { assert Placed(s, j, p); }
    }
    forall k: nat, l: nat | k < |t.conns| && Settled(t.conns[k].stage, l) ensures KnownTo(t, k, l) {
      assert KnownTo(s, k, l);
    }
  }

  /** A connection that is in no listener's list changes its stage. */
  lemma OutsiderKeepsSocks(s: State, t: State, k: nat)
    requires ConnInv(s) && k < |s.conns| && !(exists l :: Settled(s.conns[k].stage, l))
    requires t.socks == s.socks && |t.conns| == |s.conns|
    requires forall i :: 0 <= i < |s.conns| && i != k ==> t.conns[i].stage == s.conns[i].stage
    ensures forall j: nat :: j < |t.socks| ==> SockInv(t, j)
  {
    forall j: nat | j < |t.socks| ensures SockInv(t, j) {
      assert SockInv(s, j);
      forall p: nat | p < |t.socks[j].arrived| ensures Placed(t, j, p) {
        assert Placed(s, j, p);
        assert Settled(s.conns[s.socks[j].arrived[p]].stage, j);
      }
    }
  }

  lemma RefuseKeepsConns(s: State)
    requires ConnInv(s) && Step(s, AcceptRefuse).Some?
    ensures ConnInv(Step(s, AcceptRefuse).value)
  {
    var t := Step(s, AcceptRefuse).value;
    var k := s.busy.k;
    assert BusyWith(s.busy, k);
    HangUpFields(s, k, Refused(s.bridged));
    OutsiderKeepsSocks(s, t, k);
    forall i: nat, l: nat | i < |t.conns| && Settled(t.conns[i].stage, l) ensures KnownTo(t, i, l) {
      assert KnownTo(s, i, l);
    }
  }

  lemma QueueKeepsSock(s: State, t: State, k: nat, j: nat, i: nat)
    requires ConnInv(s) && BusyWith(s.busy, k) && j < |s.socks| && i < |s.socks|
    requires t.socks == s.socks[j := s.socks[j].(queue := s.socks[j].queue + [k], arrived := s.socks[j].arrived + [k])]
    requires t.conns == s.conns[k := s.conns[k].(stage := Waiting(j))]
    ensures SockInv(t, i)
  {
    assert SockInv(s, i);
    forall p: nat | p < |s.socks[i].arrived| ensures Placed(t, i, p) && s.socks[i].arrived[p] < k {
      assert Placed(s, i, p);
    }
    if i == j {
      assert t.socks[j].arrived == t.socks[j].taken + t.socks[j].queue;
      assert Placed(t, j, |s.socks[j].arrived|);
    }
  }

  lemma RouteKeepsConns(s: State)
    requires ConnInv(s) && Step(s, AcceptRoute).Some?
    ensures ConnInv(Step(s, AcceptRoute).value)
  {
    var t := Step(s, AcceptRoute).value;
    var k := s.busy.k;
    assert BusyWith(s.busy, k);
    if t.busy.Refusing? {
      assert forall i: nat :: BusyWith(t.busy, i) <==> BusyWith(s.busy, i);
      SameConnsKeepInv(s, t);
    } else {
      var j := s.listeners[s.busy.listenerId];
      forall i: nat | i < |t.socks| ensures SockInv(t, i) { QueueKeepsSock(s, t, k, j, i); }
      forall i: nat, l: nat | i < |t.conns| && Settled(t.conns[i].stage, l) ensures KnownTo(t, i, l) {
        if i == k {
          assert l == j && t.socks[j].arrived[|s.socks[j].arrived|] == k;
        } else {
          assert KnownTo(s, i, l);
          if l == j { assert s.socks[j].arrived <= t.socks[j].arrived; }
        }
      }
    }
  }

  lemma TakeKeepsConns(s: State, j: nat)
    requires ConnInv(s) && Step(s, TakeConn(j)).Some?
    ensures ConnInv(Step(s, TakeConn(j)).value)
    ensures s.conns[s.socks[j].queue[0]].stage == Waiting(j)
  {
    var t := Step(s, TakeConn(j)).value;
    var l := s.socks[j];
    var k := l.queue[0];
    var n := |l.taken|;
    assert SockInv(s, j);
    assert l.arrived[n] == k && Placed(s, j, n);
    assert t.socks[j].taken + t.socks[j].queue == l.taken + l.queue;
    forall i: nat | i < |t.socks| ensures SockInv(t, i) {
      assert SockInv(s, i);
      forall p: nat | p < |t.socks[i].arrived| ensures Placed(t, i, p) { assert Placed(s, i, p); }
    }
    forall i: nat, m: nat | i < |t.conns| && Settled(t.conns[i].stage, m) ensures KnownTo(t, i, m) {
      assert Settled(s.conns[i].stage, m);
      assert KnownTo(s, i, m);
    }
  }

  lemma DropKeepsConns(s: State, k: nat)
    requires ConnInv(s) && Step(s, DropStream(k)).Some?
    ensures ConnInv(Step(s, DropStream(k)).value)
  {
    var t := Step(s, DropStream(k)).value;
    HangUpFields(s, k, Done(s.conns[k].stage.l));
    forall i: nat | i < |t.socks| ensures SockInv(t, i) {
      assert SockInv(s, i);
      forall p: nat | p < |t.socks[i].arrived| ensures Placed(t, i, p) { assert Placed(s, i, p); }
    }
    forall i: nat, m: nat | i < |t.conns| && Settled(t.conns[i].stage, m) ensures KnownTo(t, i, m) {
      assert Settled(s.conns[i].stage, m);
      assert KnownTo(s, i, m);
    }
  }

  lemma StepKeepsConns(s: State, e: Event)
    requires ConnInv(s) && Step(s, e).Some?
    ensures ConnInv(Step(s, e).value)
  {
    if !MovesConns(e) {
      OthersKeepConns(s, e);
      SameConnsKeepInv(s, Step(s, e).value);
    } else {
      match e
      case BindReserve => BindKeepsConns(s);
      case AcceptLand(l) => LandKeepsConns(s, l);
      case AcceptRoute => RouteKeepsConns(s);
      case AcceptRefuse => RefuseKeepsConns(s);
      case TakeConn(j) => TakeKeepsConns(s, j);
      case DropStream(k) => DropKeepsConns(s, k);
    }
  }

  lemma {:induction false} ReachableConns(es: seq<Event>)
    requires Run(Step, INIT, es).Some?
    ensures ConnInv(Run(Step, INIT, es).value)
  {
    assert Inductive(Step, ConnInv) by {
      forall s, e | ConnInv(s) && Step(s, e).Some? ensures ConnInv(Step(s, e).value) { StepKeepsConns(s, e); }
    }
    Invariance(Step, ConnInv, INIT, es);
  }

  /**
   accept() hands connections out in the order they arrived, none skipped, and no two calls, on this listener or
   another, ever get the same one: the connections that became a TcpStream are exactly those that were handed out.
   */
  lemma {:induction false} AcceptedOnceInOrder(es: seq<Event>, j: nat, p: nat, i: nat, q: nat)
    requires Run(Step, INIT, es).Some?
    requires var t := Run(Step, INIT, es).value;
             j < |t.socks| && p < |t.socks[j].taken| && i < |t.socks| && q < |t.socks[i].taken|
    ensures var t := Run(Step, INIT, es).value;
            && t.socks[j].taken <= t.socks[j].arrived
            && (t.socks[j].taken[p] == t.socks[i].taken[q] ==> j == i && p == q)
            && (j == i && p < q ==> t.socks[j].taken[p] < t.socks[i].taken[q])
  {
    ReachableConns(es);
    var t := Run(Step, INIT, es).value;
    assert SockInv(t, j) && SockInv(t, i);
    assert t.socks[j].taken[p] == t.socks[j].arrived[p] && t.socks[i].taken[q] == t.socks[i].arrived[q];
    assert Placed(t, j, p) && Placed(t, i, q);
  }

  /** While connections wait, accept() on a listener that is up hands out the oldest and opens it. */
  lemma {:induction false} AcceptTakesTheOldest(es: seq<Event>, j: nat)
    requires Run(Step, INIT, es).Some? && IsSock(Run(Step, INIT, es).value, j, Bound)
    requires Run(Step, INIT, es).value.socks[j].queue != []
    ensures var s := Run(Step, INIT, es).value;
            var l := s.socks[j];
            var r := Step(s, TakeConn(j));
            && r.Some?
            && r.value.socks == s.socks[j := l.(queue := l.queue[1..], taken := l.taken + [l.queue[0]])]
            && l.queue[0] < |s.conns| && s.conns[l.queue[0]].stage == Waiting(j)
            && r.value.conns == s.conns[l.queue[0] := s.conns[l.queue[0]].(stage := Open(j))]
  {
    ReachableConns(es);
    var s := Run(Step, INIT, es).value;
    var l := s.socks[j];
    assert SockInv(s, j);
    assert l.arrived[|l.taken|] == l.queue[0] && Placed(s, j, |l.taken|);
  }

  lemma {:induction false} StreamsAreTheTaken(es: seq<Event>, k: nat, j: nat)
    requires Run(Step, INIT, es).Some?
    requires var t := Run(Step, INIT, es).value; k < |t.conns| && j < |t.socks|
    ensures var t := Run(Step, INIT, es).value;
            k in t.socks[j].taken <==> t.conns[k].stage == Open(j) || t.conns[k].stage == Done(j)
  {
    ReachableConns(es);
    var t := Run(Step, INIT, es).value;
    assert SockInv(t, j);
    var l := t.socks[j];
    if k in l.taken {
      var p: nat :| p < |l.taken| && l.taken[p] == k;
      assert l.arrived[p] == k && Placed(t, j, p);
    }
    if t.conns[k].stage == Open(j) || t.conns[k].stage == Done(j) {
      assert Settled(t.conns[k].stage, j);
      assert KnownTo(t, k, j);
      var p: nat :| p < |l.arrived| && l.arrived[p] == k;
      assert Placed(t, j, p);
      assert l.taken[p] == k;
    }
  }
}
