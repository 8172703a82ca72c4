/**
 References to one wrapped class instance, on the JS thread.

 Two counters must agree: the N-API reference count, which keeps the JS object alive, and the strong count of the
 `Rc` around the finalize callback, one of which the reference map holds. `share_with` stacks drop closures in that
 callback. The garbage collector may finalize the object only while the N-API count is 0. Finalization runs user code,
 `finalize` and the drops of the owner and of the shared objects, and is taken in the steps between them.
 */
module ClassReference {
  import opened Machine
  import opened Handles
  import opened Sequences

  /** A live Reference, or a SharedReference to the shared object `s` with its owner Reference. */
  datatype Holder = Plain | Shared(s: nat)

  datatype Life =
    | Alive
    | Finalizing              // the collector has called; `finalize` is running
    | Dying                   // it returned Ok and the owner is gone; the map still has the callback
    | Unwinding(left: nat)    // the map entry is out; so many shared objects are still to be dropped
    | FinalizedOk
    | FinalizedErr            // it returned an error: the owner is gone, the map entry stays

  datatype Death = OwnerDied | SharedDied(s: nat)

  /**
   `chain`: the shared objects whose drop closures are stacked, oldest first. `revived`: a weak reference was upgraded
   after finalization had begun.
   */
  datatype State = State(
    napiCount: nat, rc: nat, mapped: bool, life: Life,
    live: map<nat, Holder>, chain: seq<nat>, deaths: seq<Death>, revived: bool)

  datatype Event =
    | FromValue(k: nat) | CloneRef(h: nat, k: nat) | CloneOwner(h: nat, k: nat) | Upgrade(k: nat)
    | Share(h: nat, s: nat) | ShareFails(h: nat) | DropRef(h: nat)
    | StartFinalize | OwnerGone(ok: bool) | Unmap | DropNext | EndFinalize
    | PointerReused  // another instance is wrapped at the freed address and replaces a stale map entry

  const INIT := State(0, 1, true, Alive, map[], [], [], false)

  function AddHolder(s: State, k: nat, holder: Holder): State
  {
    s.(napiCount := s.napiCount + 1, rc := s.rc + 1, live := s.live[k := holder])
  }

  /** The drop of a Reference: unref while somebody else holds the callback, then the Rc goes. */
  function RemoveHolder(s: State, h: nat): State
    requires s.rc > 0
  {
    s.(napiCount := if s.rc > 1 && s.napiCount > 0 then s.napiCount - 1 else s.napiCount,
       rc := s.rc - 1, live := s.live - {h})
  }

  /** Running the closure stack drops the newest shared object first. */
  function Unwound(chain: seq<nat>): (deaths: seq<Death>)
  {
    if chain == [] then [] else [SharedDied(chain[|chain| - 1])] + Unwound(chain[..|chain| - 1])
  }

  /** The callback cell still has its closures. */
  predicate Stacked(life: Life)
  {
    !life.Unwinding? && life != FinalizedOk
  }

  function Step(s: State, e: Event): Option<State>
  {
    match e
    case FromValue(k) =>
      if s.life == Alive && k !in s.live && s.mapped then Some(AddHolder(s, k, Plain)) else None
    case CloneRef(h, k) =>
      if h in s.live && k !in s.live then Some(AddHolder(s, k, s.live[h])) else None
    case CloneOwner(h, k) =>
      if h in s.live && k !in s.live then Some(AddHolder(s, k, Plain)) else None
    case Upgrade(k) =>
      if k in s.live then None
      else if UpgradeSucceeds(s) then Some(AddHolder(s, k, Plain).(revived := s.revived || s.life != Alive))
      else Some(s)
    case Share(h, x) =>
      if h in s.live && x !in s.chain && Stacked(s.life) then
        Some(s.(live := s.live[h := Shared(x)], chain := s.chain + [x]))
      else None
    case ShareFails(h) => if h in s.live && s.rc > 0 then Some(RemoveHolder(s, h)) else None
    case DropRef(h) => if h in s.live && s.rc > 0 then Some(RemoveHolder(s, h)) else None
    case StartFinalize =>
      if s.life == Alive && s.napiCount == 0 then Some(s.(life := Finalizing)) else None
    case OwnerGone(ok) =>
      if s.life != Finalizing then None
      else Some(s.(life := if ok then Dying else FinalizedErr, deaths := s.deaths + [OwnerDied]))
    case Unmap =>
      if s.life == Dying then Some(s.(life := Unwinding(|s.chain|), mapped := false)) else None
    case DropNext =>
      if !s.life.Unwinding? || s.life.left == 0 || s.life.left > |s.chain| then None
      else Some(s.(life := Unwinding(s.life.left - 1), deaths := s.deaths + [SharedDied(s.chain[s.life.left - 1])]))
    case EndFinalize =>
      if s.life == Unwinding(0) && s.rc > 0 then Some(s.(life := FinalizedOk, rc := s.rc - 1)) else None
    case PointerReused =>
      if s.life == FinalizedErr && s.mapped && s.rc > 0 then Some(s.(mapped := false, rc := s.rc - 1)) else None
  }

  /** A weak reference upgrades, and reads, while the Rc is alive. */
  predicate UpgradeSucceeds(s: State)
  {
    s.rc > 0
  }

  // ---------------------------------------------------------------------------------------------------------
  // What every step keeps
  // ---------------------------------------------------------------------------------------------------------

  /** The map's Rc: in the map, or in the hands of the finalizer. */
  function MapHolds(s: State): (n: nat)
  {
    if s.mapped || s.life.Unwinding? then 1 else 0
  }

  ghost predicate DeathsInv(s: State)
  {
    match s.life
    case Alive => s.deaths == []
    case Finalizing => s.deaths == []
    case Dying => s.deaths == [OwnerDied]
    case Unwinding(n) => n <= |s.chain| && s.deaths == [OwnerDied] + Unwound(s.chain[n..])
    case FinalizedOk => s.deaths == [OwnerDied] + Unwound(s.chain)
    case FinalizedErr => s.deaths == [OwnerDied]
  }

  ghost predicate Inv(s: State)
  {
    && s.rc == |s.live| + MapHolds(s)
    && (s.life == Alive || s.life == Finalizing || s.life == Dying ==> s.mapped)
    && (s.life.Unwinding? || s.life == FinalizedOk ==> !s.mapped)
    && (s.life != FinalizedOk && s.life != FinalizedErr ==> s.napiCount == |s.live|)
    && (s.life != Alive && !s.revived ==> s.live == map[])
    && (s.life == Alive ==> !s.revived)
    && DeathsInv(s)
    && (forall i, j :: 0 <= i < j < |s.chain| ==> s.chain[i] != s.chain[j])
    && (forall h :: h in s.live && s.live[h].Shared? ==> s.live[h].s in s.chain)
  }

  lemma AddKeepsInv(s: State, k: nat, holder: Holder)
    requires Inv(s) && k !in s.live && (s.life == Alive || s.revived)
    requires holder.Shared? ==> holder.s in s.chain
    ensures Inv(AddHolder(s, k, holder))
  {
    SizeAfter(s.live, k, holder);
  }

  lemma RemoveKeepsInv(s: State, h: nat)
    requires Inv(s) && h in s.live
    ensures s.rc > 0 && Inv(RemoveHolder(s, h))
  {
    SizeAfter(s.live, h, s.live[h]);
    assert s.live != map[];
  }

  lemma ShareKeepsInv(s: State, h: nat, x: nat)
    requires Inv(s) && h in s.live && x !in s.chain && Stacked(s.life)
    ensures Inv(Step(s, Share(h, x)).value)
  {
    SizeAfter(s.live, h, Shared(x));
    var t := Step(s, Share(h, x)).value;
    assert s.live != map[];
    forall k | k in t.live && t.live[k].Shared? ensures t.live[k].s in t.chain {
      assert k != h ==> t.live[k] == s.live[k];
    }
  }

  lemma UpgradeKeepsInv(s: State, k: nat)
    requires Inv(s) && Step(s, Upgrade(k)).Some?
    ensures Inv(Step(s, Upgrade(k)).value)
  {
    if UpgradeSucceeds(s) { AddKeepsInv(s.(revived := s.revived || s.life != Alive), k, Plain); }
  }

  /** The oldest shared object of a stretch is dropped last. */
  lemma {:induction false} UnwoundLast(x: nat, chain: seq<nat>)
    ensures Unwound([x] + chain) == Unwound(chain) + [SharedDied(x)]
    decreases |chain|
  {
    if chain == [] {
      assert [x] + chain == [x] && [x][..0] == [];
    } else {
      var rest, last := chain[..|chain| - 1], SharedDied(chain[|chain| - 1]);
      assert ([x] + chain)[..|chain|] == [x] + rest;
      UnwoundLast(x, rest);
      assert ([last] + Unwound(rest)) + [SharedDied(x)] == [last] + (Unwound(rest) + [SharedDied(x)]);
    }
  }

  lemma StartAndEndKeepInv(s: State, e: Event)
    requires Inv(s) && Step(s, e).Some? && (e.StartFinalize? || e.OwnerGone? || e.Unmap?)
    ensures Inv(Step(s, e).value)
  {
    match e
    case StartFinalize => assert s.live == map[];
    case OwnerGone(_) =>
    case Unmap => assert s.chain[|s.chain|..] == [];
  }

  lemma EndFinalizeKeepsInv(s: State)
    requires Inv(s) && Step(s, EndFinalize).Some?
    ensures Inv(Step(s, EndFinalize).value)
  {
    assert s.chain[0..] == s.chain;
  }

  /** The next closure lengthens the unwound part by the newest object left. */
  lemma DropUnwinds(chain: seq<nat>, n: nat)
    requires 0 < n <= |chain|
    ensures [OwnerDied] + Unwound(chain[n - 1..]) == [OwnerDied] + Unwound(chain[n..]) + [SharedDied(chain[n - 1])]
  {
    UnwoundLast(chain[n - 1], chain[n..]);
    assert [chain[n - 1]] + chain[n..] == chain[n - 1..];
  }

  lemma DropNextKeepsInv(s: State)
    requires Inv(s) && Step(s, DropNext).Some?
    ensures Inv(Step(s, DropNext).value)
  {
    DropUnwinds(s.chain, s.life.left);
  }

  lemma StepKeepsInv(s: State, e: Event)
    requires Inv(s) && Step(s, e).Some?
    ensures Inv(Step(s, e).value)
  {
    match e
    case FromValue(k) => AddKeepsInv(s, k, Plain);
    case CloneRef(h, k) => assert s.live != map[]; AddKeepsInv(s, k, s.live[h]);
    case CloneOwner(h, k) => assert s.live != map[]; AddKeepsInv(s, k, Plain);
    case Upgrade(k) => UpgradeKeepsInv(s, k);
    case Share(h, x) => ShareKeepsInv(s, h, x);
    case ShareFails(h) => RemoveKeepsInv(s, h);
    case DropRef(h) => RemoveKeepsInv(s, h);
    case PointerReused =>
    case DropNext => DropNextKeepsInv(s);
    case EndFinalize => EndFinalizeKeepsInv(s);
    case _ => StartAndEndKeepInv(s, e);
  }

  lemma {:induction false} ReachableInv(es: seq<Event>)
    requires Run(Step, INIT, es).Some?
    ensures Inv(Run(Step, INIT, es).value)
  {
    assert Inductive(Step, Inv) by {
      forall s, e | Inv(s) && Step(s, e).Some? ensures Inv(Step(s, e).value) { StepKeepsInv(s, e); }
    }
    Invariance(Step, Inv, INIT, es);
  }

  // ---------------------------------------------------------------------------------------------------------
  // Theorems
  // ---------------------------------------------------------------------------------------------------------

  /**
   In every GC-driven run: until the finalizer is through, the N-API count is the number of live References and the Rc
   count is one more, so every drop of a Reference does its unref; finalization does not begin while one is live, and
   begins with an Rc count of exactly 1; nothing has died before.
   */
  lemma {:induction false} CountsTrackReferences(es: seq<Event>)
    requires Run(Step, INIT, es).Some?
    ensures var t := Run(Step, INIT, es).value;
            && (t.life != FinalizedOk && t.life != FinalizedErr ==>
                  t.napiCount == |t.live| && t.rc == |t.live| + 1)
            && (t.life == Alive ==> t.deaths == [])
            && (t.live != map[] ==> Step(t, StartFinalize).None?)
            && (Step(t, StartFinalize).Some? ==> t.rc == 1 && t.live == map[])
  {
    ReachableInv(es);
  }

  /**
   The finalizer's assert on the strong count, 1 or 2, holds exactly when at most one reference was taken, and kept,
   from inside `finalize`; always when none was.
   */
  lemma {:induction false} StrongCountAssertIff(es: seq<Event>)
    requires Run(Step, INIT, es).Some? && Run(Step, INIT, es).value.life == Dying
    ensures var t := Run(Step, INIT, es).value;
            && (t.rc == 1 || t.rc == 2 <==> |t.live| <= 1)
            && (!t.revived ==> t.rc == 1)
  {
    ReachableInv(es);
  }

  lemma {:induction false} EveryDropUnrefs(es: seq<Event>, h: nat)
    requires Run(Step, INIT, es).Some?
    requires var t := Run(Step, INIT, es).value; t.life != FinalizedOk && t.life != FinalizedErr && h in t.live
    ensures var t := Run(Step, INIT, es).value;
            var r := Step(t, DropRef(h));
            r.Some? && r.value.napiCount == t.napiCount - 1 && r.value.rc == t.rc - 1
  {
    ReachableInv(es);
    var t := Run(Step, INIT, es).value;
    RemoveKeepsInv(t, h);
    SizeAfter(t.live, h, t.live[h]);
  }

  /** The event takes a reference to the object and names it k. */
  predicate Takes(s: State, e: Event, k: nat)
  {
    match e
    case FromValue(i) => i == k && s.life == Alive
    case CloneRef(h, i) => i == k && h in s.live
    case CloneOwner(h, i) => i == k && h in s.live
    case Upgrade(i) => i == k && s.rc > 0
    case _ => false
  }

  /**
   The other half: from every reachable state each way of taking a reference works, adds that one, shared when a shared
   one is cloned and plain otherwise, and raises both counters.
   */
  lemma {:induction false} EveryTakeRefs(es: seq<Event>, e: Event, k: nat)
    requires Run(Step, INIT, es).Some?
    requires var t := Run(Step, INIT, es).value; Takes(t, e, k) && k !in t.live
    ensures var t := Run(Step, INIT, es).value;
            var r := Step(t, e);
            && r.Some? && r.value.napiCount == t.napiCount + 1 && r.value.rc == t.rc + 1
            && k in r.value.live && r.value.live[k] == (if e.CloneRef? then t.live[e.h] else Plain)
            && r.value.live - {k} == t.live && r.value.chain == t.chain && r.value.deaths == t.deaths
            && r.value.life == t.life
  {
    ReachableInv(es);
    var t := Run(Step, INIT, es).value;
    AddThenRemove(t.live, k, if e.CloneRef? then t.live[e.h] else Plain);
  }

  lemma AddThenRemove(live: map<nat, Holder>, k: nat, holder: Holder)
    requires k !in live
    ensures live[k := holder] - {k} == live
  {}

  /** Nothing but a take adds a reference, nothing but its own drop removes one, and only sharing changes one. */
  lemma {:induction false} ReferencesStay(es: seq<Event>, e: Event, h: nat)
    requires Run(Step, INIT, es).Some? && Step(Run(Step, INIT, es).value, e).Some?
    ensures var t := Run(Step, INIT, es).value;
            var u := Step(t, e).value;
            && (h in u.live <==> (h in t.live && e != DropRef(h) && e != ShareFails(h)) || Takes(t, e, h))
            && (h in t.live && h in u.live ==>
                  u.live[h] == if e.Share? && e.h == h then Shared(e.s) else t.live[h])
            && u.chain == (if e.Share? then t.chain + [e.s] else t.chain)
  {
    ReachableInv(es);
  }

  /** The owner has not been dropped. */
  predicate OwnerLives(life: Life)
  {
    life == Alive || life == Finalizing
  }

  /**
   When a weak upgrade, or a weak read, succeeds: always while the owner lives; and on a dead owner exactly from
   inside the rest of the finalizer, after a `finalize` that failed while the map or a reference still holds the
   callback, or after one that succeeded while a reference taken during it is kept.
   */
  lemma {:induction false} WeakUpgradeExact(es: seq<Event>)
    requires Run(Step, INIT, es).Some?
    ensures var t := Run(Step, INIT, es).value;
            && (OwnerLives(t.life) <==> OwnerDied !in t.deaths)
            && (UpgradeSucceeds(t) <==>
                  match t.life
                  case FinalizedOk => t.live != map[]
                  case FinalizedErr => t.mapped || t.live != map[]
                  case _ => true)
            && (t.life == FinalizedOk && !t.revived ==> !UpgradeSucceeds(t))
  {
    ReachableInv(es);
    var t := Run(Step, INIT, es).value;
    if t.live != map[] {
      var h :| h in t.live;
      SizeAfter(t.live, h, t.live[h]);
    }
  }

  /** After a `finalize` that failed, a weak reference upgrades to a dead owner. */
  lemma FailedFinalizeLeavesWeakDangling()
    ensures var r := Run(Step, INIT, [StartFinalize, OwnerGone(false)] + [Upgrade(7)]);
            r.Some? && 7 in r.value.live && OwnerDied in r.value.deaths
  {
    RunTwo(Step, INIT, StartFinalize, OwnerGone(false));
    RunOneMore(Step, INIT, [StartFinalize, OwnerGone(false)], Upgrade(7));
  }

  /** That lasts until another instance is wrapped at the same address, and any reference taken meanwhile is gone. */
  lemma {:induction false} ReuseEndsTheDangling(es: seq<Event>)
    requires Run(Step, INIT, es).Some?
    requires var t := Run(Step, INIT, es).value; t.life == FinalizedErr && t.mapped
    ensures var t := Run(Step, INIT, es).value;
            var r := Step(t, PointerReused);
            && r.Some? && !r.value.mapped && r.value.live == t.live
            && (UpgradeSucceeds(r.value) <==> t.live != map[])
  {
    ReachableInv(es);
  }

  const GONE_OWNER := INIT.(life := Dying, deaths := [OwnerDied])

  lemma OwnerGoes()
    ensures Run(Step, INIT, [StartFinalize, OwnerGone(true)]) == Some(GONE_OWNER)
  {
    RunTwo(Step, INIT, StartFinalize, OwnerGone(true));
    assert [] + [OwnerDied] == [OwnerDied];
  }

  /** A weak reference upgraded after the map entry has gone outlives the finalizer. */
  lemma UpgradeOutlives(s: State, k: nat)
    requires s.life == Dying && s.chain == [] && s.live == map[] && s.rc == 1
    ensures var r := Run(Step, s, [Unmap, Upgrade(k)]);
            && r.Some? && Step(r.value, EndFinalize).Some?
            && var t := Step(r.value, EndFinalize).value;
               t.life == FinalizedOk && k in t.live && UpgradeSucceeds(t)
  {
    RunTwo(Step, s, Unmap, Upgrade(k));
  }

  /** From inside the drop of a shared object it does, too, and the reference outlives the finalizer. */
  lemma UpgradeWhileUnwindingDangles()
    ensures var r := Run(Step, INIT, [StartFinalize, OwnerGone(true)] + [Unmap, Upgrade(7)] + [EndFinalize]);
            r.Some? && r.value.life == FinalizedOk && 7 in r.value.live && UpgradeSucceeds(r.value)
  {
    OwnerGoes();
    UpgradeOutlives(GONE_OWNER, 7);
    RunSplit(Step, INIT, [StartFinalize, OwnerGone(true)], [Unmap, Upgrade(7)]);
    RunOneMore(Step, INIT, [StartFinalize, OwnerGone(true)] + [Unmap, Upgrade(7)], EndFinalize);
  }

  /** The newest shared object is dropped first, and each one once. */
  lemma {:induction false} UnwoundReverses(chain: seq<nat>)
    ensures |Unwound(chain)| == |chain|
    ensures forall i :: 0 <= i < |chain| ==> Unwound(chain)[i] == SharedDied(chain[|chain| - 1 - i])
    decreases |chain|
  {
    if chain == [] {
    } else {
      var rest := Unwound(chain[..|chain| - 1]);
      UnwoundReverses(chain[..|chain| - 1]);
      var all := [SharedDied(chain[|chain| - 1])] + rest;
      assert Unwound(chain) == all;
      forall i | 0 < i < |chain| ensures all[i] == SharedDied(chain[|chain| - 1 - i]) {
        assert all[i] == rest[i - 1];
      }
    }
  }

  lemma {:induction false} UnwoundHas(chain: seq<nat>, x: nat)
    ensures SharedDied(x) in Unwound(chain) <==> x in chain
  {
    UnwoundReverses(chain);
    if x in chain {
      var i :| 0 <= i < |chain| && chain[i] == x;
      assert Unwound(chain)[|chain| - 1 - i] == SharedDied(x);
    }
    if SharedDied(x) in Unwound(chain) {
      var i :| 0 <= i < |chain| && Unwound(chain)[i] == SharedDied(x);
      assert chain[|chain| - 1 - i] == x;
    }
  }

  /**
   When `finalize` returns Ok, finalization drops the owner and then every shared object exactly once, in reverse
   order of creation, the newest ones first at any moment in between; when it returns an error, the shared objects are
   never dropped.
   */
  lemma {:induction false} SharedObjectsDieOnceInReverse(es: seq<Event>)
    requires Run(Step, INIT, es).Some?
    ensures var t := Run(Step, INIT, es).value;
            var n := |t.chain|;
            var left := if t.life.Unwinding? then t.life.left else 0;
            && (forall i, j :: 0 <= i < j < n ==> t.chain[i] != t.chain[j])
            && (t.life == FinalizedOk || t.life.Unwinding? ==>
                  && left <= n && |t.deaths| == n - left + 1
                  && t.deaths[0] == OwnerDied
                  && forall i :: 1 <= i <= n - left ==> t.deaths[i] == SharedDied(t.chain[n - i]))
            && (t.life == FinalizedErr || t.life == Dying ==> t.deaths == [OwnerDied])
            && (OwnerLives(t.life) ==> t.deaths == [])
  {
    ReachableInv(es);
    var t := Run(Step, INIT, es).value;
    if t.life.Unwinding? { UnwoundReverses(t.chain[t.life.left..]); } else { UnwoundReverses(t.chain); }
  }

  /**
   A live SharedReference points at a shared object that has not been dropped, except when its owner was upgraded and
   shared from inside the finalizer and the closures have got to it.
   */
  lemma {:induction false} SharedReferencesAreValid(es: seq<Event>, h: nat)
    requires Run(Step, INIT, es).Some?
    requires var t := Run(Step, INIT, es).value; h in t.live && t.live[h].Shared?
    ensures var t := Run(Step, INIT, es).value;
            && t.live[h].s in t.chain
            && (SharedDied(t.live[h].s) in t.deaths <==>
                  match t.life
                  case FinalizedOk => true
                  case Unwinding(n) => n <= |t.chain| && t.live[h].s in t.chain[n..]
                  case _ => false)
            && (!t.revived ==> SharedDied(t.live[h].s) !in t.deaths)
  {
    ReachableInv(es);
    var t := Run(Step, INIT, es).value;
    assert t.live != map[];
    if t.life.Unwinding? { UnwoundHas(t.chain[t.life.left..], t.live[h].s); } else { UnwoundHas(t.chain, t.live[h].s); }
  }

  // ---------------------------------------------------------------------------------------------------------
  // Finalization without interference
  // ---------------------------------------------------------------------------------------------------------

  function Drops(n: nat): (es: seq<Event>)
  {
    if n == 0 then [EndFinalize] else [DropNext] + Drops(n - 1)
  }

  function FinalizeSteps(n: nat, ok: bool): (es: seq<Event>)
  {
    [StartFinalize, OwnerGone(ok)] + if ok then [Unmap] + Drops(n) else []
  }

  function AfterFinalize(s: State, ok: bool): (t: State)
  {
    if !ok then s.(life := FinalizedErr, deaths := s.deaths + [OwnerDied])
    else s.(life := FinalizedOk, mapped := false, rc := if s.rc == 0 then 0 else s.rc - 1,
            deaths := s.deaths + [OwnerDied] + Unwound(s.chain))
  }

  lemma {:induction false} DropsRun(s: State, n: nat)
    requires s.life == Unwinding(n) && n <= |s.chain| && s.rc > 0
    ensures Run(Step, s, Drops(n))
            == Some(s.(life := FinalizedOk, rc := s.rc - 1, deaths := s.deaths + Unwound(s.chain[..n])))
    decreases n
  {
    if n == 0 {
      assert [EndFinalize][1..] == [];
      assert s.deaths + [] == s.deaths;
    } else {
      var t := Step(s, DropNext).value;
      assert Drops(n)[1..] == Drops(n - 1);
      DropsRun(t, n - 1);
      assert s.chain[..n][..n - 1] == s.chain[..n - 1];
      Assoc(s.deaths, [SharedDied(s.chain[n - 1])], Unwound(s.chain[..n - 1]));
    }
  }

  lemma UnmapRuns(s: State)
    requires s.life == Dying && s.rc > 0
    ensures Run(Step, s, [Unmap] + Drops(|s.chain|))
            == Some(s.(life := FinalizedOk, mapped := false, rc := s.rc - 1, deaths := s.deaths + Unwound(s.chain)))
  {
    var t := s.(life := Unwinding(|s.chain|), mapped := false);
    assert Step(s, Unmap) == Some(t);
    assert ([Unmap] + Drops(|s.chain|))[1..] == Drops(|s.chain|);
    DropsRun(t, |s.chain|);
    assert s.chain[..|s.chain|] == s.chain;
  }

  lemma OwnerGoesFrom(s: State, ok: bool)
    requires s.life == Alive && s.napiCount == 0
    ensures Run(Step, s, [StartFinalize, OwnerGone(ok)])
            == Some(s.(life := if ok then Dying else FinalizedErr, deaths := s.deaths + [OwnerDied]))
  {
    RunTwo(Step, s, StartFinalize, OwnerGone(ok));
  }

  /** Undisturbed finalization is a run of the machine. */
  lemma FinalizeIsARun(s: State, ok: bool)
    requires Inv(s) && s.life == Alive && s.napiCount == 0
    ensures Run(Step, s, FinalizeSteps(|s.chain|, ok)) == Some(AfterFinalize(s, ok))
  {
    OwnerGoesFrom(s, ok);
    if ok {
      RunSplit(Step, s, [StartFinalize, OwnerGone(ok)], [Unmap] + Drops(|s.chain|));
      UnmapRuns(s.(life := Dying, deaths := s.deaths + [OwnerDied]));
    } else {
      assert FinalizeSteps(|s.chain|, ok) == [StartFinalize, OwnerGone(ok)];
    }
  }

  lemma FinalizeKeepsInv(s: State, ok: bool)
    requires Inv(s) && s.life == Alive && s.napiCount == 0
    ensures s.rc == 1 && s.live == map[] && Inv(AfterFinalize(s, ok))
  {
    assert s.live == map[];
  }

  // ---------------------------------------------------------------------------------------------------------
  // The operations on the fields they update
  // ---------------------------------------------------------------------------------------------------------

  class WrappedObject {
    var napiCount: nat
    var rc: nat
    var mapped: bool
    var life: Life
    var live: map<nat, Holder>
    var chain: seq<nat>
    var deaths: seq<Death>
    var revived: bool

    function Abs(): (s: State)
      reads this
    {
      State(napiCount, rc, mapped, life, live, chain, deaths, revived)
    }

    /** `napi_wrap` with a weak reference, and one Rc given to the reference map. */
    constructor ()
      ensures Abs() == INIT && Inv(Abs())
    {
      napiCount, rc, mapped, life, live, chain, deaths, revived := 0, 1, true, Alive, map[], [], [], false;
    }

    /** `napi_reference_ref`, and one more Rc. */
    method AddReference(k: nat, holder: Holder)
      modifies `napiCount, `rc, `live
      ensures Abs() == AddHolder(old(Abs()), k, holder)
    {
      napiCount := napiCount + 1;
      rc := rc + 1;
      live := live[k := holder];
    }

    method FromValuePtr(k: nat) returns (found: bool)
      requires Inv(Abs()) && life == Alive && k !in live
      modifies this
      ensures found && Step(old(Abs()), FromValue(k)) == Some(Abs()) && Inv(Abs())
      ensures live == old(live)[k := Plain] && napiCount == old(napiCount) + 1 && rc == old(rc) + 1
    {
      StepKeepsInv(Abs(), FromValue(k));
      found := mapped;
      if mapped { AddReference(k, Plain); }
    }

    method Clone(h: nat, k: nat)
      requires Inv(Abs()) && h in live && k !in live
      modifies this
      ensures Step(old(Abs()), CloneRef(h, k)) == Some(Abs()) && Inv(Abs())
      ensures live == old(live)[k := old(live[h])] && napiCount == old(napiCount) + 1 && rc == old(rc) + 1
    {
      StepKeepsInv(Abs(), CloneRef(h, k));
      AddReference(k, live[h]);
    }

    method UpgradeWeak(k: nat) returns (upgraded: bool)
      requires Inv(Abs()) && k !in live
      modifies this
      ensures Step(old(Abs()), Upgrade(k)) == Some(Abs()) && Inv(Abs())
      ensures upgraded == (old(rc) > 0)
      ensures if upgraded then live == old(live)[k := Plain] && napiCount == old(napiCount) + 1 && rc == old(rc) + 1
              else Abs() == old(Abs())
    {
      UpgradeKeepsInv(Abs(), k);
      upgraded := rc > 0;
      if upgraded {
        AddReference(k, Plain);
        revived := revived || life != Alive;
      }
    }

    method ShareWith(h: nat, x: nat)
      requires Inv(Abs()) && h in live && x !in chain && Stacked(life)
      modifies this
      ensures Step(old(Abs()), Share(h, x)) == Some(Abs()) && Inv(Abs())
      ensures chain == old(chain) + [x] && live == old(live)[h := Shared(x)]
      ensures napiCount == old(napiCount) && rc == old(rc)
    {
      StepKeepsInv(Abs(), Share(h, x));
      chain := chain + [x];
      live := live[h := Shared(x)];
    }

    method DropReference(h: nat)
      requires Inv(Abs()) && h in live
      modifies this
      ensures Step(old(Abs()), DropRef(h)) == Some(Abs()) && Inv(Abs())
      ensures live == old(live) - {h} && rc == old(rc) - 1
      ensures OwnerLives(life) ==> napiCount == old(napiCount) - 1
    {
      RemoveKeepsInv(Abs(), h);
      if rc > 1 && napiCount > 0 { napiCount := napiCount - 1; }
      rc := rc - 1;
      live := live - {h};
    }

    /** The stacked closures run from the newest down: each drops its shared object and calls the one below. */
    method RunCallbacks()
      modifies `deaths
      ensures deaths == old(deaths) + Unwound(chain)
    {
      var n := |chain|;
      assert chain[..n] == chain;
      while n > 0
        invariant 0 <= n <= |chain|
        invariant deaths + Unwound(chain[..n]) == old(deaths) + Unwound(chain)
      {
        var x := SharedDied(chain[n - 1]);
        assert chain[..n][..n - 1] == chain[..n - 1];
        assert deaths + ([x] + Unwound(chain[..n - 1])) == (deaths + [x]) + Unwound(chain[..n - 1]);
        deaths := deaths + [x];
        n := n - 1;
      }
    }

    /** The finalizer, when no user code in it touches a reference to this object. */
    method RawFinalize(ok: bool)
      requires Inv(Abs()) && life == Alive && napiCount == 0
      modifies this
      ensures old(rc) == 1
      ensures Abs() == AfterFinalize(old(Abs()), ok) && Inv(Abs())
    {
      FinalizeKeepsInv(Abs(), ok);
      deaths := deaths + [OwnerDied];
      if !ok {
        life := FinalizedErr;
        return;
      }
      mapped := false;
      RunCallbacks();
      rc := rc - 1;
      life := FinalizedOk;
    }
  }
}
