/**
 Who frees the memory behind a `Buffer` made from a `Vec`, or behind a typed array made in Rust.

 All handles over one allocation share one `Arc`. A handle lives in Rust, or is boxed as the hint of an external
 JS buffer, whose finalizer later takes it back. Dropping is not atomic: the drop body first reads the strong
 count, then acts on what it read, and only afterwards is the count decremented. The machine below takes one step
 for each of these, so its runs are all the interleavings of clones, exports, drops and finalizers.
 */
module OwnedMemory {
  import opened Machine
  import opened Handles

  datatype Storage = VecBuffer | OwnedArray | ExternalArray

  /** How far the end of a handle has got. An idle hint is a live JS external buffer. */
  datatype Stage =
    | Idle
    | FinalizerRead(n: nat)  // the typed-array finalizer has read the strong count
    | FinalizerRan           // the finalizer has acted; its local handle is still to be dropped
    | Read(n: nat)           // the drop body has read the strong count
    | Leaving                // the drop body has run; the Arc is still to be decremented

  /** `hint`: boxed for JS. `noop`: carries the no-op notifier that an export by `&mut` puts in. */
  datatype Handle = Handle(hint: bool, noop: bool, stage: Stage)

  /** `released` counts frees and real notifications, `nooped` counts no-op notifications. */
  datatype State = State(
    storage: Storage, len: nat, dataNull: bool,
    handles: map<nat, Handle>, strong: nat, dropInVm: bool,
    released: nat, nooped: nat)

  datatype Event =
    | Clone(h: nat, k: nat)
    | ExportBoxed(h: nat)              // external buffer made: the handle becomes its hint
    | ExportCopied(h: nat)             // empty data, or no external buffers allowed: JS gets a copy
    | ExportMutBoxed(h: nat, k: nat)   // typed arrays: `&mut` exports a new handle k
    | ExportMutCopied(h: nat, k: nat)
    | BeginDrop(h: nat)                // the drop body reads the strong count
    | DropBody(h: nat)                 // and acts on it
    | Decrement(h: nat)                // the Arc field goes
    | BeginFinalize(h: nat)            // the typed-array finalizer reads the strong count
    | FinalizeBody(h: nat)             // and acts on it
    | DropFinalized(h: nat)            // the handle moved out of the box enters its drop body

  function Init(storage: Storage, len: nat, dataNull: bool): State
  {
    State(storage, len, dataNull, map[0 := Handle(false, false, Idle)], 1, false, 0, 0)
  }

  predicate RustIdle(s: State, h: nat)
  {
    h in s.handles && !s.handles[h].hint && s.handles[h].stage == Idle
  }

  predicate LiveJsBuffer(s: State, h: nat)
  {
    h in s.handles && s.handles[h].hint && s.handles[h].stage == Idle
  }

  function WithStage(s: State, h: nat, stage: Stage): State
    requires h in s.handles
  {
    s.(handles := s.handles[h := s.handles[h].(stage := stage)])
  }

  /** Free the vector, or run the notifier this handle carries. */
  function Release(s: State, h: nat): State
    requires h in s.handles
  {
    if s.storage == ExternalArray && s.handles[h].noop then s.(nooped := s.nooped + 1)
    else s.(released := s.released + 1)
  }

  /** What the drop body of a Rust-made handle tests besides a strong count of 1. */
  predicate DropReleases(s: State)
  {
    s.storage == VecBuffer || (!s.dropInVm && !s.dataNull)
  }

  function Step(s: State, e: Event): Option<State>
  {
    match e
    case Clone(h, k) =>
      if !RustIdle(s, h) || k in s.handles then None
      else Some(s.(handles := s.handles[k := s.handles[h]], strong := s.strong + 1))
    case ExportBoxed(h) =>
      if !RustIdle(s, h) || s.len == 0 then None
      else Some(s.(handles := s.handles[h := s.handles[h].(hint := true)],
                   dropInVm := s.dropInVm || s.storage != VecBuffer))
    case ExportCopied(h) =>
      if !RustIdle(s, h) then None
      else Some(s.(dropInVm := s.dropInVm || s.storage != VecBuffer))
    case ExportMutBoxed(h, k) =>
      if !RustIdle(s, h) || k in s.handles || s.len == 0 || s.storage == VecBuffer then None
      else Some(s.(handles := s.handles[k := Handle(true, true, Idle)], strong := s.strong + 1, dropInVm := true))
    case ExportMutCopied(h, k) =>
      if !RustIdle(s, h) || k in s.handles || s.storage == VecBuffer then None
      else Some(s.(handles := s.handles[k := Handle(false, true, Idle)], strong := s.strong + 1, dropInVm := true))
    case BeginDrop(h) =>
      if RustIdle(s, h) || (s.storage == VecBuffer && LiveJsBuffer(s, h)) then Some(WithStage(s, h, Read(s.strong)))
      else None
    case DropBody(h) =>
      if h in s.handles && s.handles[h].stage.Read? then
        var t := if s.handles[h].stage.n == 1 && DropReleases(s) then Release(s, h) else s;
        Some(WithStage(t, h, Leaving))
      else None
    case Decrement(h) =>
      if h in s.handles && s.handles[h].stage == Leaving && s.strong > 0 then
        Some(s.(handles := s.handles - {h}, strong := s.strong - 1))
      else None
    case BeginFinalize(h) =>
      if s.storage != VecBuffer && LiveJsBuffer(s, h) then Some(WithStage(s, h, FinalizerRead(s.strong)))
      else None
    case FinalizeBody(h) =>
      if h in s.handles && s.handles[h].stage.FinalizerRead? then
        var t := if s.handles[h].stage.n == 1 then Release(s, h) else s;
        Some(WithStage(t, h, FinalizerRan))
      else None
    case DropFinalized(h) =>
      if h in s.handles && s.handles[h].stage == FinalizerRan then Some(WithStage(s, h, Read(s.strong)))
      else None
  }

  // ---------------------------------------------------------------------------------------------------------
  // Memory safety over every interleaving
  // ---------------------------------------------------------------------------------------------------------

  /** After a release a handle may only be on its way out, on a path that cannot release again. */
  predicate Spent(s: State, v: Handle)
  {
    v.stage == Leaving || v.stage == FinalizerRan || (v.stage.Read? && !DropReleases(s))
  }

  ghost predicate HandleInv(s: State, v: Handle)
  {
    && (v.stage.Read? || v.stage.FinalizerRead? ==> v.stage.n >= 1 && (v.stage.n == 1 ==> s.strong == 1))
    && (v.stage.FinalizerRead? || v.stage.FinalizerRan? ==> v.hint && s.storage != VecBuffer)
    && (v.hint && s.storage != VecBuffer ==> s.dropInVm)
    && (v.noop ==> s.dropInVm && s.storage != VecBuffer)
    && (s.released + s.nooped == 1 ==> Spent(s, v))
  }

  ghost predicate Inv(s: State)
  {
    && s.strong == |s.handles|
    && s.released + s.nooped <= 1
    && (s.storage != ExternalArray ==> s.nooped == 0)
    && (s.released + s.nooped == 1 ==> s.strong <= 1)
    && (s.storage == VecBuffer ==> !s.dropInVm)
    && forall h :: h in s.handles ==> HandleInv(s, s.handles[h])
  }

  lemma CountAfter(s: State, h: nat, v: Handle)
    ensures |s.handles[h := v]| == if h in s.handles then |s.handles| else |s.handles| + 1
    ensures h in s.handles ==> |s.handles - {h}| == |s.handles| - 1
  {
    SizeAfter(s.handles, h, v);
  }

  lemma Sole(s: State, h: nat, k: nat)
    requires h in s.handles && k in s.handles
    ensures h != k ==> |s.handles| >= 2
  {
    SoleHandle(s.handles, h, k);
  }

  lemma StepKeepsCount(s: State, e: Event)
    requires s.strong == |s.handles| && Step(s, e).Some?
    ensures var t := Step(s, e).value; t.strong == |t.handles|
  {
    match e
    case Clone(h, k) => CountAfter(s, k, s.handles[h]);
    case ExportBoxed(h) => CountAfter(s, h, s.handles[h].(hint := true));
    case ExportMutBoxed(h, k) => CountAfter(s, k, Handle(true, true, Idle));
    case ExportMutCopied(h, k) => CountAfter(s, k, Handle(false, true, Idle));
    case Decrement(h) => CountAfter(s, h, s.handles[h]);
    case ExportCopied(h) =>
    case _ => StageKeepsCount(s, e);
  }

  lemma StageKeepsCount(s: State, e: Event)
    requires s.strong == |s.handles| && Step(s, e).Some? && e.h in s.handles
    requires !e.Clone? && !Exports(e) && !e.Decrement?
    ensures var t := Step(s, e).value; t.strong == |t.handles|
  {
    var t := Step(s, e).value;
    var v := t.handles[e.h];
    assert t.strong == s.strong && t.handles == s.handles[e.h := v];
    CountAfter(s, e.h, v);
  }

  lemma StepKeepsHandle(s: State, e: Event, h: nat)
    requires Inv(s) && Step(s, e).Some? && h in Step(s, e).value.handles
    ensures HandleInv(Step(s, e).value, Step(s, e).value.handles[h])
  {
    assert HandleInv(s, s.handles[e.h]);
    if h in s.handles {
      assert HandleInv(s, s.handles[h]);
      if s.strong <= 1 { Sole(s, h, e.h); }
    }
  }

  lemma StepKeepsInv(s: State, e: Event)
    requires Inv(s) && Step(s, e).Some?
    ensures Inv(Step(s, e).value)
  {
    var t := Step(s, e).value;
    StepKeepsCount(s, e);
    forall h | h in t.handles ensures HandleInv(t, t.handles[h]) { StepKeepsHandle(s, e, h); }
    assert HandleInv(s, s.handles[e.h]);
  }

  /**
   Memory safety: over every interleaving the allocation is given back at most once, and never while a Rust handle
   can still be used or a JS external buffer over it is alive. For typed arrays this rests on the flag every boxed
   hint has set.
   */
  lemma {:induction false} FreedAtMostOnceAndNeverInUse(storage: Storage, len: nat, dataNull: bool, es: seq<Event>)
    requires Run(Step, Init(storage, len, dataNull), es).Some?
    ensures var t := Run(Step, Init(storage, len, dataNull), es).value;
            && t.released + t.nooped <= 1
            && (t.released + t.nooped == 1 ==>
                  |t.handles| <= 1 && forall h :: h in t.handles ==> !RustIdle(t, h) && !LiveJsBuffer(t, h))
            && t.strong == |t.handles|
            && (forall h :: h in t.handles && t.handles[h].hint && storage != VecBuffer ==> t.dropInVm)
  {
    InvAlong(storage, len, dataNull, es);
    var t := Run(Step, Init(storage, len, dataNull), es).value;
    forall h | h in t.handles ensures HandleInv(t, t.handles[h]) {}
  }

  lemma {:induction false} StorageIsFixed(s: State, es: seq<Event>)
    requires Run(Step, s, es).Some?
    ensures var t := Run(Step, s, es).value; t.storage == s.storage && t.len == s.len && t.dataNull == s.dataNull
    decreases |es|
  {
    if es == [] {
    } else {
      StorageIsFixed(Step(s, es[0]).value, es[1..]);
    }
  }

  // ---------------------------------------------------------------------------------------------------------
  // When it is freed
  // ---------------------------------------------------------------------------------------------------------

  /** The event in which a handle first reads the strong count on its way out. */
  predicate Begins(e: Event)
  {
    e.BeginDrop? || e.BeginFinalize?
  }

  ghost predicate NoBegins(es: seq<Event>)
  {
    forall i :: 0 <= i < |es| ==> !Begins(es[i])
  }

  function LastBegin(es: seq<Event>): (i: int)
    ensures -1 <= i < |es|
    ensures 0 <= i ==> Begins(es[i])
    ensures forall j :: i < j < |es| ==> !Begins(es[j])
  {
    if es == [] then -1
    else if Begins(es[|es| - 1]) then |es| - 1
    else LastBegin(es[..|es| - 1])
  }

  predicate Idling(s: State, h: nat)
  {
    h in s.handles && s.handles[h].stage == Idle
  }

  /** A handle that nobody starts to drop stays. */
  lemma {:induction false} IdleStays(s: State, h: nat, es: seq<Event>)
    requires Idling(s, h) && NoBegins(es)
    requires Run(Step, s, es).Some?
    ensures Idling(Run(Step, s, es).value, h)
    decreases |es|
  {
    if es == [] {
    } else {
      assert !Begins(es[0]);
      IdleStays(Step(s, es[0]).value, h, es[1..]);
    }
  }

  /** This handle has read a count of 1 and is about to give the memory back. */
  predicate WillRelease(s: State, h: nat)
  {
    && h in s.handles
    && (s.handles[h].stage == FinalizerRead(1) || (s.handles[h].stage == Read(1) && DropReleases(s)))
  }

  /** This handle carries the no-op in place of the notifier of an external owner. */
  predicate Mute(s: State, h: nat)
  {
    s.storage == ExternalArray && h in s.handles && s.handles[h].noop
  }

  ghost predicate Due(s: State, mute: bool)
  {
    exists h :: WillRelease(s, h) && Mute(s, h) == mute
  }

  /** What will have been freed, or notified for real, and what will have gone to the no-op. */
  ghost function Verdict(s: State): (v: (nat, nat))
  {
    (if Due(s, false) then 1 else s.released, if Due(s, true) then 1 else s.nooped)
  }

  /** Once every handle is on its way out, what has been or will be given back no longer changes. */
  lemma {:induction false} VerdictStands(s: State, es: seq<Event>)
    requires Inv(s) && NoBegins(es) && (forall h :: h in s.handles ==> !Idling(s, h))
    requires Run(Step, s, es).Some? && Run(Step, s, es).value.handles == map[]
    ensures var t := Run(Step, s, es).value; (t.released, t.nooped) == Verdict(s)
    decreases |es|
  {
    if es == [] {
      assert forall h :: !WillRelease(s, h);
    } else {
      assert !Begins(es[0]);
      StepKeepsInv(s, es[0]);
      NoIdlersAppear(s, es[0]);
      VerdictStands(Step(s, es[0]).value, es[1..]);
      DueAcrossStep(s, es[0]);
    }
  }

  lemma NoIdlersAppear(s: State, e: Event)
    requires Step(s, e).Some? && forall h :: h in s.handles ==> !Idling(s, h)
    ensures forall h :: h in Step(s, e).value.handles ==> !Idling(Step(s, e).value, h)
  {
    assert !Idling(s, e.h);
    forall h | h in Step(s, e).value.handles ensures !Idling(Step(s, e).value, h) {
      assert h in s.handles ==> !Idling(s, h);
    }
  }

  lemma DueAcrossStep(s: State, e: Event)
    requires Inv(s) && Step(s, e).Some? && !Begins(e) && (forall h :: h in s.handles ==> !Idling(s, h))
    ensures Verdict(Step(s, e).value) == Verdict(s)
  {
    DueAcross(s, e, false);
    DueAcross(s, e, true);
  }

  lemma DueAcross(s: State, e: Event, mute: bool)
    requires Inv(s) && Step(s, e).Some? && !Begins(e) && (forall h :: h in s.handles ==> !Idling(s, h))
    ensures var t := Step(s, e).value;
            && (Due(t, mute) ==> Due(s, mute))
            && (Due(s, mute) && !Due(t, mute) ==> (if mute then t.nooped else t.released) == 1)
            && (!Due(s, mute) ==> (if mute then t.nooped == s.nooped else t.released == s.released))
  {
    var t := Step(s, e).value;
    if Due(t, mute) {
      var k :| WillRelease(t, k) && Mute(t, k) == mute;
      DueBefore(s, e, k);
    }
    if Due(s, mute) {
      var k :| WillRelease(s, k) && Mute(s, k) == mute;
      DueIsDone(s, e, k);
    } else {
      NotDueDoesNothing(s, e, mute);
    }
  }

  /** No handle becomes due but by beginning its end. */
  lemma DueBefore(s: State, e: Event, k: nat)
    requires Inv(s) && Step(s, e).Some? && !Begins(e) && WillRelease(Step(s, e).value, k)
    requires forall h :: h in s.handles ==> !Idling(s, h)
    ensures WillRelease(s, k) && Mute(s, k) == Mute(Step(s, e).value, k)
  {
    assert !Idling(s, e.h);
    assert HandleInv(s, s.handles[e.h]);
  }

  /** The handle that is due is the only one, so it stays due or acts. */
  lemma DueIsDone(s: State, e: Event, k: nat)
    requires Inv(s) && Step(s, e).Some? && !Begins(e) && WillRelease(s, k) && e.h in s.handles
    requires forall h :: h in s.handles ==> !Idling(s, h)
    ensures var t := Step(s, e).value;
            if WillRelease(t, k) then Mute(t, k) == Mute(s, k) else (if Mute(s, k) then t.nooped else t.released) == 1
  {
    assert !Idling(s, e.h);
    assert HandleInv(s, s.handles[k]);
    Sole(s, k, e.h);
  }

  lemma NotDueDoesNothing(s: State, e: Event, mute: bool)
    requires Inv(s) && Step(s, e).Some? && !Due(s, mute)
    ensures var t := Step(s, e).value; if mute then t.nooped == s.nooped else t.released == s.released
  {
    assert WillRelease(s, e.h) ==> Mute(s, e.h) != mute;
  }

  /** A complete run: from one fresh handle until no handle is left. */
  ghost predicate Complete(s0: State, es: seq<Event>)
  {
    Run(Step, s0, es).Some? && Run(Step, s0, es).value.handles == map[]
  }

  ghost function Before(s0: State, es: seq<Event>, i: nat): (s: State)
    requires i < |es| && Run(Step, s0, es).Some?
    ensures Run(Step, s0, es[..i]) == Some(s)
    ensures Step(s, es[i]).Some? && Run(Step, Step(s, es[i]).value, es[i + 1..]) == Run(Step, s0, es)
  {
    RunSplit(Step, s0, es[..i], es[i..]);
    assert es == es[..i] + es[i..];
    assert es[i..][1..] == es[i + 1..];
    Run(Step, s0, es[..i]).value
  }

  lemma {:induction false} InvAlong(storage: Storage, len: nat, dataNull: bool, es: seq<Event>)
    requires Run(Step, Init(storage, len, dataNull), es).Some?
    ensures var t := Run(Step, Init(storage, len, dataNull), es).value;
            Inv(t) && t.storage == storage && t.dataNull == dataNull
  {
    var s := Init(storage, len, dataNull);
    forall t, e | Inv(t) && Step(t, e).Some? ensures Inv(Step(t, e).value) { StepKeepsInv(t, e); }
    Invariance(Step, Inv, s, es);
    StorageIsFixed(s, es);
  }

  /** The last handle to read the strong count was alone, and takes a path that gives the memory back. */
  ghost predicate LastGivesBack(s0: State, es: seq<Event>)
    requires Run(Step, s0, es).Some? && LastBegin(es) >= 0
  {
    var s := Before(s0, es, LastBegin(es));
    |s.handles| == 1 && (es[LastBegin(es)].BeginFinalize? || DropReleases(s))
  }

  /** But all it can call is the no-op. */
  ghost predicate LastIsMute(s0: State, es: seq<Event>)
    requires Run(Step, s0, es).Some? && LastBegin(es) >= 0
  {
    Mute(Before(s0, es, LastBegin(es)), es[LastBegin(es)].h)
  }

  /**
   The exact condition for the memory of a finished family to have been freed, or its owner notified, under any
   interleaving: the last handle to read the strong count on its way out was alone when it read, was a typed-array
   finalizer or found the drop guard open, and does not carry the no-op. Overlapping drops that both read 2 leak;
   a handle with the no-op runs that instead, and the owner is never told.
   */
  lemma {:induction false} GivenBackIffLastReadWasAlone(storage: Storage, len: nat, dataNull: bool, es: seq<Event>)
    requires Complete(Init(storage, len, dataNull), es)
    ensures LastBegin(es) >= 0
    ensures var s0 := Init(storage, len, dataNull);
            var t := Run(Step, s0, es).value;
            && t.released + t.nooped <= 1
            && (t.released == 1 <==> LastGivesBack(s0, es) && !LastIsMute(s0, es))
            && (t.nooped == 1 <==> LastGivesBack(s0, es) && LastIsMute(s0, es))
  {
    var s0 := Init(storage, len, dataNull);
    var i := LastBegin(es);
    if i < 0 {
      IdleStays(s0, 0, es);
      assert false;
    }
    var s := Before(s0, es, i);
    var h := es[i].h;
    InvAlong(storage, len, dataNull, es[..i]);
    InvAlong(storage, len, dataNull, es);
    assert Idling(s, h) && HandleInv(s, s.handles[h]);
    var m := Step(s, es[i]).value;
    StepKeepsInv(s, es[i]);
    forall k | k in m.handles ensures !Idling(m, k) {
      if Idling(m, k) {
        IdleStays(m, k, es[i + 1..]);
        assert false;
      }
    }
    VerdictStands(m, es[i + 1..]);
    DueByTheLast(s, es[i], false);
    DueByTheLast(s, es[i], true);
  }

  /** The handle that begins its end is the one that releases, or nobody does. */
  lemma DueByTheLast(s: State, e: Event, mute: bool)
    requires Inv(s) && Begins(e) && Step(s, e).Some? && Idling(s, e.h)
    ensures var m := Step(s, e).value;
            && (Due(m, mute) <==>
                  |s.handles| == 1 && (e.BeginFinalize? || DropReleases(s)) && Mute(s, e.h) == mute)
            && m.released == 0 && m.nooped == 0
  {
    var m := Step(s, e).value;
    assert HandleInv(s, s.handles[e.h]);
    if Due(m, mute) {
      var k :| WillRelease(m, k) && Mute(m, k) == mute;
      assert k != e.h ==> HandleInv(s, s.handles[k]);
      Sole(s, e.h, k);
    }
    assert WillRelease(m, e.h) <==> |s.handles| == 1 && (e.BeginFinalize? || DropReleases(s));
    assert Mute(m, e.h) == Mute(s, e.h);
  }

  /** No handle starts to drop while another one is between reading the count and decrementing it. */
  ghost predicate DropsDoNotOverlap(s0: State, es: seq<Event>)
    requires Run(Step, s0, es).Some?
  {
    forall i, k :: 0 <= i < |es| && Begins(es[i]) && k in Before(s0, es, i).handles && k != es[i].h ==>
                     Idling(Before(s0, es, i), k)
  }

  predicate Exports(e: Event)
  {
    e.ExportBoxed? || e.ExportCopied? || e.ExportMutBoxed? || e.ExportMutCopied?
  }

  /** The shared flag records that a typed array was exported. */
  lemma {:induction false} FlagRecordsExport(s: State, es: seq<Event>)
    requires s.storage != VecBuffer && Run(Step, s, es).Some?
    ensures Run(Step, s, es).value.dropInVm <==> s.dropInVm || exists i :: 0 <= i < |es| && Exports(es[i])
    decreases |es|
  {
    if es == [] {
    } else {
      var t := Step(s, es[0]).value;
      FlagRecordsExport(t, es[1..]);
      assert forall i :: 1 <= i < |es| ==> es[i] == es[1..][i - 1];
      assert forall i :: 0 <= i < |es[1..]| ==> es[1..][i] == es[i + 1];
    }
  }

  /**
   When drops do not overlap, a finished family has had its memory freed, or its owner notified, exactly once:
   always for a `Vec`-backed Buffer, whatever was cloned and exported; for a typed array exactly when it was never
   exported (and has data) or the last handle to go was the hint of an external JS buffer, and, for an external
   array, that handle was not made by an export by `&mut`, which runs the no-op instead.
   */
  lemma {:induction false} SerializedDropsGiveBackOnce(storage: Storage, len: nat, dataNull: bool, es: seq<Event>)
    requires Complete(Init(storage, len, dataNull), es)
    requires DropsDoNotOverlap(Init(storage, len, dataNull), es)
    ensures LastBegin(es) >= 0
    ensures var t := Run(Step, Init(storage, len, dataNull), es).value;
            var last := LastBegin(es);
            var reached := storage == VecBuffer || es[last].BeginFinalize?
                           || (!dataNull && forall i :: 0 <= i < last ==> !Exports(es[i]));
            && t.released + t.nooped <= 1
            && (t.released == 1 <==> reached && !LastIsMute(Init(storage, len, dataNull), es))
            && (t.nooped == 1 <==> reached && LastIsMute(Init(storage, len, dataNull), es))
            && (storage != ExternalArray ==> !LastIsMute(Init(storage, len, dataNull), es))
  {
    var s0 := Init(storage, len, dataNull);
    GivenBackIffLastReadWasAlone(storage, len, dataNull, es);
    var i := LastBegin(es);
    var s := Before(s0, es, i);
    InvAlong(storage, len, dataNull, es[..i]);
    InvAlong(storage, len, dataNull, es);
    var m := Step(s, es[i]).value;
    assert s.handles.Keys == {es[i].h} by {
      forall k | k in s.handles ensures k == es[i].h {
        if k != es[i].h {
          assert Idling(s, k) && Idling(m, k);
          IdleStays(m, k, es[i + 1..]);
          assert false;
        }
      }
    }
    assert |s.handles| == |s.handles.Keys| == 1;
    if storage != VecBuffer {
      FlagRecordsExport(s0, es[..i]);
      assert forall j :: 0 <= j < i ==> es[..i][j] == es[j];
    }
  }

  /** A `Vec` buffer with two handles on their way out. */
  function Pair(a: Stage, b: Stage): (s: State)
  {
    State(VecBuffer, 4, false, map[0 := Handle(false, false, a), 1 := Handle(false, false, b)], 2, false, 0, 0)
  }

  lemma BothReadTwo()
    ensures Run(Step, Init(VecBuffer, 4, false), [Clone(0, 1), BeginDrop(0), BeginDrop(1)])
            == Some(Pair(Read(2), Read(2)))
  {
    var s := Step(Init(VecBuffer, 4, false), Clone(0, 1)).value;
    assert s == Pair(Idle, Idle);
    var idle, read := Handle(false, false, Idle), Handle(false, false, Read(2));
    assert map[0 := idle, 1 := idle][0 := read] == map[0 := read, 1 := idle];
    assert Step(s, BeginDrop(0)) == Some(Pair(Read(2), Idle));
    assert map[0 := read, 1 := idle][1 := read] == map[0 := read, 1 := read];
    assert Step(Pair(Read(2), Idle), BeginDrop(1)) == Some(Pair(Read(2), Read(2)));
    assert [Clone(0, 1), BeginDrop(0), BeginDrop(1)][1..] == [BeginDrop(0), BeginDrop(1)];
    RunTwo(Step, s, BeginDrop(0), BeginDrop(1));
  }

  /** Whoever read 2 just leaves. */
  lemma LeavesQuietly(s: State, h: nat)
    requires h in s.handles && s.handles[h].stage == Read(2) && s.strong > 0
    ensures Run(Step, s, [DropBody(h), Decrement(h)]) == Some(s.(handles := s.handles - {h}, strong := s.strong - 1))
  {
    MapFacts(s.handles, h, s.handles[h].(stage := Leaving), s.handles[h]);
    RunTwo(Step, s, DropBody(h), Decrement(h));
  }

  /** Two overlapping drops both read a count of 2, and the vector is never freed. */
  lemma OverlappingDropsLeak()
    ensures var es := [Clone(0, 1), BeginDrop(0), BeginDrop(1)] + [DropBody(0), Decrement(0)]
                      + [DropBody(1), Decrement(1)];
            && Complete(Init(VecBuffer, 4, false), es)
            && Run(Step, Init(VecBuffer, 4, false), es).value.released == 0
  {
    var head := [Clone(0, 1), BeginDrop(0), BeginDrop(1)];
    BothReadTwo();
    LeavesQuietly(Pair(Read(2), Read(2)), 0);
    var s := Run(Step, Pair(Read(2), Read(2)), [DropBody(0), Decrement(0)]).value;
    assert s.handles == map[1 := Handle(false, false, Read(2))];
    LeavesQuietly(s, 1);
    assert s.handles - {1} == map[];
    RunSplit(Step, Init(VecBuffer, 4, false), head, [DropBody(0), Decrement(0)]);
    RunSplit(Step, Init(VecBuffer, 4, false), head + [DropBody(0), Decrement(0)], [DropBody(1), Decrement(1)]);
  }

  /** An external array after an export by `&mut`. */
  function Muted(handles: map<nat, Handle>, strong: nat, nooped: nat): (s: State)
  {
    State(ExternalArray, 4, false, handles, strong, true, 0, nooped)
  }

  const RUST_HANDLE := Handle(false, false, Idle)
  const MUTE_HINT := Handle(true, true, Idle)

  lemma RustHandleGoes()
    ensures var s := Muted(map[0 := RUST_HANDLE, 1 := MUTE_HINT], 2, 0);
            Run(Step, s, [BeginDrop(0), DropBody(0), Decrement(0)]) == Some(Muted(map[1 := MUTE_HINT], 1, 0))
  {
    var s := Muted(map[0 := RUST_HANDLE, 1 := MUTE_HINT], 2, 0);
    DropIsThreeSteps(s, 0);
    assert s.handles - {0} == map[1 := MUTE_HINT];
  }

  lemma FinalizerRunsTheNoop()
    ensures Run(Step, Muted(map[1 := MUTE_HINT], 1, 0), [BeginFinalize(1), FinalizeBody(1)])
            == Some(Muted(map[1 := MUTE_HINT.(stage := FinalizerRan)], 1, 1))
  {
    var s := Muted(map[1 := MUTE_HINT], 1, 0);
    FinalizerIsTwoSteps(s, 1);
    assert s.handles[1 := MUTE_HINT.(stage := FinalizerRan)] == map[1 := MUTE_HINT.(stage := FinalizerRan)];
  }

  lemma FinalizedHandleGoes()
    ensures Run(Step, Muted(map[1 := MUTE_HINT.(stage := FinalizerRan)], 1, 1),
                [DropFinalized(1), DropBody(1), Decrement(1)]) == Some(Muted(map[], 0, 1))
  {
    var s := Muted(map[1 := MUTE_HINT.(stage := FinalizerRan)], 1, 1);
    DropIsThreeSteps(s, 1);
    assert s.handles - {1} == map[];
  }

  /** Four stretches of a run, in which handles begin their end at positions 1 and 4, with idlers around. */
  lemma {:induction false} FinishedWithoutOverlap(s0: State, a: seq<Event>, b: seq<Event>, c: seq<Event>, d: seq<Event>)
    requires |a| == 1 && |b| == 3 && Run(Step, s0, a) == Some(Muted(map[0 := RUST_HANDLE, 1 := MUTE_HINT], 2, 0))
    requires Run(Step, Muted(map[0 := RUST_HANDLE, 1 := MUTE_HINT], 2, 0), b) == Some(Muted(map[1 := MUTE_HINT], 1, 0))
    requires Run(Step, Muted(map[1 := MUTE_HINT], 1, 0), c)
             == Some(Muted(map[1 := MUTE_HINT.(stage := FinalizerRan)], 1, 1))
    requires Run(Step, Muted(map[1 := MUTE_HINT.(stage := FinalizerRan)], 1, 1), d) == Some(Muted(map[], 0, 1))
    requires forall i :: 0 <= i < |a + b + c + d| && Begins((a + b + c + d)[i]) ==> i == 1 || i == 4
    ensures Run(Step, s0, a + b + c + d) == Some(Muted(map[], 0, 1)) && DropsDoNotOverlap(s0, a + b + c + d)
  {
    RunFour(Step, s0, a, Muted(map[0 := RUST_HANDLE, 1 := MUTE_HINT], 2, 0), b, Muted(map[1 := MUTE_HINT], 1, 0),
            c, Muted(map[1 := MUTE_HINT.(stage := FinalizerRan)], 1, 1), d);
    var es := a + b + c + d;
    assert es[..1] == a && es[..4] == a + b;
    forall i, k | 0 <= i < |es| && Begins(es[i]) && k in Before(s0, es, i).handles && k != es[i].h
      ensures Idling(Before(s0, es, i), k)
    {
      assert i == 1 || i == 4;
    }
  }

  lemma MutExport()
    ensures Run(Step, Init(ExternalArray, 4, false), [ExportMutBoxed(0, 1)])
            == Some(Muted(map[0 := RUST_HANDLE, 1 := MUTE_HINT], 2, 0))
  {
    var s := Step(Init(ExternalArray, 4, false), ExportMutBoxed(0, 1)).value;
    assert s.handles == map[0 := RUST_HANDLE, 1 := MUTE_HINT];
    assert [ExportMutBoxed(0, 1)][1..] == [];
  }

  /**
   An external array exported by `&mut`: no drops overlap and the last handle is a JS finalizer hint, yet what runs
   is the no-op, and the owner is never notified.
   */
  lemma MutExportLosesTheNotifier()
    ensures var es := [ExportMutBoxed(0, 1)] + [BeginDrop(0), DropBody(0), Decrement(0)]
                      + [BeginFinalize(1), FinalizeBody(1)] + [DropFinalized(1), DropBody(1), Decrement(1)];
            var s0 := Init(ExternalArray, 4, false);
            && Complete(s0, es) && DropsDoNotOverlap(s0, es)
            && Run(Step, s0, es).value.released == 0 && Run(Step, s0, es).value.nooped == 1
  {
    MutExport();
    RustHandleGoes();
    FinalizerRunsTheNoop();
    FinalizedHandleGoes();
    FinishedWithoutOverlap(Init(ExternalArray, 4, false),
                           [ExportMutBoxed(0, 1)], [BeginDrop(0), DropBody(0), Decrement(0)],
                           [BeginFinalize(1), FinalizeBody(1)], [DropFinalized(1), DropBody(1), Decrement(1)]);
  }

  /** By these events, handle h was made by an export by `&mut`, or cloned from one that was. */
  predicate FromMutExport(es: seq<Event>, h: nat)
    decreases |es|
  {
    if es == [] then false
    else
      var pre := es[..|es| - 1];
      match es[|es| - 1]
      case Clone(a, k) => FromMutExport(pre, if k == h then a else h)
      case ExportMutBoxed(_, k) => k == h || FromMutExport(pre, h)
      case ExportMutCopied(_, k) => k == h || FromMutExport(pre, h)
      case _ => FromMutExport(pre, h)
  }

  /** The handles that carry the no-op are exactly those. */
  lemma {:induction false} NoopComesFromMutExport(s0: State, es: seq<Event>, h: nat)
    requires Run(Step, s0, es).Some? && h in Run(Step, s0, es).value.handles
    requires forall k :: k in s0.handles ==> !s0.handles[k].noop
    ensures Run(Step, s0, es).value.handles[h].noop <==> FromMutExport(es, h)
    decreases |es|
  {
    if es == [] {
    } else {
      var pre, e := es[..|es| - 1], es[|es| - 1];
      RunLast(Step, s0, es);
      if e.Clone? && e.k == h {
        NoopComesFromMutExport(s0, pre, e.h);
      } else if (e.ExportMutBoxed? || e.ExportMutCopied?) && e.k == h {
      } else {
        NoopComesFromMutExport(s0, pre, h);
      }
    }
  }

  lemma {:induction false} LastIsMuteIff(storage: Storage, len: nat, dataNull: bool, es: seq<Event>)
    requires Run(Step, Init(storage, len, dataNull), es).Some? && LastBegin(es) >= 0
    ensures LastIsMute(Init(storage, len, dataNull), es) <==>
            storage == ExternalArray && FromMutExport(es[..LastBegin(es)], es[LastBegin(es)].h)
  {
    var s0, i := Init(storage, len, dataNull), LastBegin(es);
    assert es[i].h in Before(s0, es, i).handles;
    StorageIsFixed(s0, es[..i]);
    NoopComesFromMutExport(s0, es[..i], es[i].h);
  }

  /** Without an export by `&mut` the no-op never runs. */
  lemma {:induction false} RealNotifierUnlessMutExport(s: State, es: seq<Event>)
    requires s.nooped == 0 && (forall h :: h in s.handles ==> !s.handles[h].noop)
    requires forall i :: 0 <= i < |es| ==> !es[i].ExportMutBoxed? && !es[i].ExportMutCopied?
    requires Run(Step, s, es).Some?
    ensures Run(Step, s, es).value.nooped == 0
    decreases |es|
  {
    if es == [] {
    } else {
      assert !es[0].ExportMutBoxed? && !es[0].ExportMutCopied?;
      RealNotifierUnlessMutExport(Step(s, es[0]).value, es[1..]);
    }
  }

  // ---------------------------------------------------------------------------------------------------------
  // What the events of a run say of its handles
  // ---------------------------------------------------------------------------------------------------------

  /** The handle becomes the hint of an external JS buffer. */
  predicate Boxes(e: Event, h: nat)
  {
    e == ExportBoxed(h) || (e.ExportMutBoxed? && e.k == h)
  }

  /** A handle in Rust's hands comes into being. */
  predicate Makes(e: Event, h: nat)
  {
    (e.Clone? || e.ExportMutCopied?) && e.k == h
  }

  predicate BeginsEnd(e: Event, h: nat)
  {
    Begins(e) && e.h == h
  }

  /** Boxed, and its end not begun since. */
  ghost predicate BoxedSince(es: seq<Event>, h: nat)
  {
    Since(es, false, e => Boxes(e, h), e => BeginsEnd(e, h))
  }

  /** Made, or there from the start, and since then neither boxed nor its end begun. */
  ghost predicate HeldSince(es: seq<Event>, h: nat)
  {
    Since(es, h == 0, e => Makes(e, h), e => Boxes(e, h) || BeginsEnd(e, h))
  }

  /** Made or boxed, or there from the start, and not gone since. */
  ghost predicate ThereSince(es: seq<Event>, h: nat)
  {
    Since(es, h == 0, e => Makes(e, h) || Boxes(e, h), e => e == Decrement(h))
  }

  /** Boxed, and not made anew in Rust's hands since. */
  ghost predicate HintSince(es: seq<Event>, h: nat)
  {
    Since(es, false, e => Boxes(e, h), e => Makes(e, h))
  }

  /** One step, seen from one handle. */
  lemma HandleAfter(s: State, e: Event, h: nat)
    requires Step(s, e).Some?
    ensures var t := Step(s, e).value;
            && (h in t.handles <==> Makes(e, h) || Boxes(e, h) || (h in s.handles && e != Decrement(h)))
            && (RustIdle(t, h) <==> Makes(e, h) || (RustIdle(s, h) && !Boxes(e, h) && !BeginsEnd(e, h)))
            && (LiveJsBuffer(t, h) <==> Boxes(e, h) || (LiveJsBuffer(s, h) && !BeginsEnd(e, h)))
            && (h in t.handles ==>
                  (t.handles[h].hint <==> Boxes(e, h) || (h in s.handles && s.handles[h].hint && !Makes(e, h))))
            && (Boxes(e, h) ==> s.len > 0)
  {}

  /**
   Which handles there are, which of them Rust can still use, and which are the hint of a JS buffer that is alive, told
   by the events of the run: a boxed export, and nothing else, makes a hint, and it stays one until its end begins.
   */
  lemma {:induction false} HandlesByEvents(storage: Storage, len: nat, dataNull: bool, es: seq<Event>, h: nat)
    requires Run(Step, Init(storage, len, dataNull), es).Some?
    ensures var t := Run(Step, Init(storage, len, dataNull), es).value;
            && (h in t.handles <==> ThereSince(es, h))
            && (RustIdle(t, h) <==> HeldSince(es, h))
            && (LiveJsBuffer(t, h) <==> BoxedSince(es, h))
            && (h in t.handles ==> (t.handles[h].hint <==> HintSince(es, h)))
            && (h in t.handles && t.handles[h].hint ==> len > 0)
    decreases |es|
  {
    var s0 := Init(storage, len, dataNull);
    if es == [] {
    } else {
      var pre, e := es[..|es| - 1], es[|es| - 1];
      RunLast(Step, s0, es);
      HandlesByEvents(storage, len, dataNull, pre, h);
      StorageIsFixed(s0, pre);
      HandleAfter(Run(Step, s0, pre).value, e, h);
      SinceLast(es, false, e => Boxes(e, h), e => BeginsEnd(e, h));
      SinceLast(es, h == 0, e => Makes(e, h), e => Boxes(e, h) || BeginsEnd(e, h));
      SinceLast(es, h == 0, e => Makes(e, h) || Boxes(e, h), e => e == Decrement(h));
      SinceLast(es, false, e => Boxes(e, h), e => Makes(e, h));
    }
  }

  /**
   So what JS holds is never freed: a handle the run has boxed, and not begun to finalize, is a live JS buffer over
   memory that has not been given back; Rust can neither clone nor drop it.
   */
  lemma {:induction false} BoxedMemoryStays(storage: Storage, len: nat, dataNull: bool, es: seq<Event>, h: nat)
    requires Run(Step, Init(storage, len, dataNull), es).Some? && BoxedSince(es, h)
    ensures var t := Run(Step, Init(storage, len, dataNull), es).value;
            && h in t.handles && LiveJsBuffer(t, h) && t.released + t.nooped == 0 && t.strong >= 1 && len > 0
            && (forall k :: Step(t, Clone(h, k)).None?)
            && Step(t, if storage == VecBuffer then BeginDrop(h) else BeginFinalize(h)).Some?
            && (storage != VecBuffer ==> Step(t, BeginDrop(h)).None?)
  {
    HandlesByEvents(storage, len, dataNull, es, h);
    InvAlong(storage, len, dataNull, es);
    var t := Run(Step, Init(storage, len, dataNull), es).value;
    assert HandleInv(t, t.handles[h]);
    HandleMakesCount(t, h);
  }

  // ---------------------------------------------------------------------------------------------------------
  // The operations as the source runs them, each on one thread without interference
  // ---------------------------------------------------------------------------------------------------------

  /** All handles over one allocation, with the fields they share. */
  class Family {
    const storage: Storage
    const len: nat
    const dataNull: bool
    var handles: map<nat, Handle>
    var strong: nat
    var dropInVm: bool
    var released: nat
    var nooped: nat

    function Abs(): (s: State)
      reads this
    {
      State(storage, len, dataNull, handles, strong, dropInVm, released, nooped)
    }

    constructor (storage: Storage, len: nat, dataNull: bool)
      ensures Abs() == Init(storage, len, dataNull) && Inv(Abs())
    {
      this.storage, this.len, this.dataNull := storage, len, dataNull;
      handles, strong, dropInVm, released, nooped := map[0 := Handle(false, false, Idle)], 1, false, 0, 0;
    }

    method CloneHandle(h: nat, k: nat)
      requires Inv(Abs()) && RustIdle(Abs(), h) && k !in handles
      modifies this
      ensures Step(old(Abs()), Clone(h, k)) == Some(Abs()) && Inv(Abs())
    {
      StepKeepsInv(Abs(), Clone(h, k));
      handles := handles[k := handles[h]];
      strong := strong + 1;
    }

    /** The drop body, then the drop of the shared fields. */
    method DropHandle(h: nat)
      requires Inv(Abs()) && Droppable(Abs(), h)
      modifies this
      ensures Abs() == AfterDrop(old(Abs()), h) && Inv(Abs())
    {
      DropKeepsInv(Abs(), h);
      if strong == 1 {
        if storage == VecBuffer {
          released := released + 1;
        } else if !dropInVm && !dataNull {
          GiveBack(h);
        }
      }
      strong := strong - 1;
      handles := handles - {h};
    }

    /** Free the vector of an owned array, call the notifier of an external one. */
    method GiveBack(h: nat)
      requires h in handles && storage != VecBuffer
      modifies `released, `nooped
      ensures Abs() == Release(old(Abs()), h)
    {
      if storage == OwnedArray || !handles[h].noop { released := released + 1; } else { nooped := nooped + 1; }
    }

    /** Conversion by value; `external` says whether the host allows external buffers. */
    method ToNapiValue(h: nat, external: bool) returns (boxed: bool)
      requires Inv(Abs()) && RustIdle(Abs(), h)
      modifies this
      ensures Inv(Abs())
      ensures boxed == (external && len != 0)
      ensures boxed ==> LiveJsBuffer(Abs(), h) && Step(old(Abs()), ExportBoxed(h)) == Some(Abs())
      ensures !boxed ==> h !in handles && strong == old(strong) - 1
      ensures !boxed ==> Abs() == AfterDrop(Step(old(Abs()), ExportCopied(h)).value, h)
    {
      boxed := external && len != 0;
      StepKeepsInv(Abs(), if boxed then ExportBoxed(h) else ExportCopied(h));
      if storage != VecBuffer { dropInVm := true; }
      if boxed {
        handles := handles[h := handles[h].(hint := true)];
      } else {
        DropHandle(h);
      }
    }

    /** The finalizer the host calls once the external buffer is dead. */
    method Finalize(h: nat)
      requires Inv(Abs()) && LiveJsBuffer(Abs(), h)
      modifies this
      ensures Inv(Abs())
      ensures Abs() == if storage == VecBuffer then AfterDrop(old(Abs()), h)
                       else AfterDrop(AfterFinalizer(old(Abs()), h), h)
    {
      if storage != VecBuffer {
        FinalizerKeepsInv(Abs(), h);
        if strong == 1 { GiveBack(h); }
        handles := handles[h := handles[h].(stage := FinalizerRan)];
      }
      DropHandle(h);
    }
  }

  predicate Droppable(s: State, h: nat)
  {
    || RustIdle(s, h)
    || (s.storage == VecBuffer && LiveJsBuffer(s, h))
    || (h in s.handles && s.handles[h].stage == FinalizerRan)
  }

  lemma HandleMakesCount(s: State, h: nat)
    requires Inv(s) && h in s.handles
    ensures s.strong > 0
  {
    CountAfter(s, h, s.handles[h]);
  }

  function AfterDrop(s: State, h: nat): State
    requires h in s.handles
  {
    var t := if s.strong == 1 && DropReleases(s) then Release(s, h) else s;
    t.(handles := t.handles - {h}, strong := if t.strong == 0 then 0 else t.strong - 1)
  }

  function AfterFinalizer(s: State, h: nat): State
    requires h in s.handles
  {
    WithStage(if s.strong == 1 then Release(s, h) else s, h, FinalizerRan)
  }

  lemma MapFacts(m: map<nat, Handle>, h: nat, a: Handle, b: Handle)
    ensures m[h := a][h := b] == m[h := b]
    ensures m[h := a] - {h} == m - {h}
  {}

  /** An undisturbed drop is the three steps in a row. */
  lemma DropIsThreeSteps(s: State, h: nat)
    requires s.strong > 0 && Droppable(s, h)
    ensures var first := if s.handles[h].stage == FinalizerRan then DropFinalized(h) else BeginDrop(h);
            Run(Step, s, [first, DropBody(h), Decrement(h)]) == Some(AfterDrop(s, h))
  {
    var first := if s.handles[h].stage == FinalizerRan then DropFinalized(h) else BeginDrop(h);
    var s1 := WithStage(s, h, Read(s.strong));
    assert Step(s, first) == Some(s1);
    BodyAndDecrement(s1, h);
    DropIgnoresStage(s, h, Read(s.strong));
    assert [first, DropBody(h), Decrement(h)][1..] == [DropBody(h), Decrement(h)];
    RunTwo(Step, s1, DropBody(h), Decrement(h));
  }

  lemma {:induction false} InvOver(s: State, es: seq<Event>)
    requires Inv(s) && Run(Step, s, es).Some?
    ensures Inv(Run(Step, s, es).value)
  {
    forall t, e | Inv(t) && Step(t, e).Some? ensures Inv(Step(t, e).value) { StepKeepsInv(t, e); }
    Invariance(Step, Inv, s, es);
  }

  lemma DropKeepsInv(s: State, h: nat)
    requires Inv(s) && Droppable(s, h)
    ensures s.strong > 0 && Inv(AfterDrop(s, h))
  {
    HandleMakesCount(s, h);
    DropIsThreeSteps(s, h);
    var first := if s.handles[h].stage == FinalizerRan then DropFinalized(h) else BeginDrop(h);
    InvOver(s, [first, DropBody(h), Decrement(h)]);
  }

  lemma FinalizerKeepsInv(s: State, h: nat)
    requires Inv(s) && s.storage != VecBuffer && LiveJsBuffer(s, h)
    ensures Inv(AfterFinalizer(s, h))
  {
    FinalizerIsTwoSteps(s, h);
    InvOver(s, [BeginFinalize(h), FinalizeBody(h)]);
  }

  lemma DropIgnoresStage(s: State, h: nat, stage: Stage)
    requires h in s.handles
    ensures AfterDrop(WithStage(s, h, stage), h) == AfterDrop(s, h)
  {
    MapFacts(s.handles, h, s.handles[h].(stage := stage), s.handles[h]);
  }

  lemma BodyAndDecrement(s: State, h: nat)
    requires h in s.handles && s.handles[h].stage.Read? && s.handles[h].stage.n == s.strong > 0
    ensures Step(s, DropBody(h)).Some? && Step(Step(s, DropBody(h)).value, Decrement(h)) == Some(AfterDrop(s, h))
  {
    MapFacts(s.handles, h, s.handles[h].(stage := Leaving), s.handles[h]);
  }

  lemma FinalizerActs(s: State, h: nat)
    requires s.storage != VecBuffer && LiveJsBuffer(s, h)
    ensures Step(WithStage(s, h, FinalizerRead(s.strong)), FinalizeBody(h)) == Some(AfterFinalizer(s, h))
  {
    var v := s.handles[h];
    MapFacts(s.handles, h, v.(stage := FinalizerRead(s.strong)), v.(stage := FinalizerRan));
  }

  /** An undisturbed typed-array finalizer is two steps, ahead of the drop of its local handle. */
  lemma FinalizerIsTwoSteps(s: State, h: nat)
    requires s.storage != VecBuffer && LiveJsBuffer(s, h)
    ensures Run(Step, s, [BeginFinalize(h), FinalizeBody(h)]) == Some(AfterFinalizer(s, h))
  {
    assert Step(s, BeginFinalize(h)) == Some(WithStage(s, h, FinalizerRead(s.strong)));
    FinalizerActs(s, h);
    RunTwo(Step, s, BeginFinalize(h), FinalizeBody(h));
  }
}
