/**
 The fate of the JS reference behind a `Buffer` or typed array that came from JavaScript.

 All handles of the family carry the same N-API reference, made with a count of 1, and share one `Arc`. The last
 handle has to unref and delete the reference, which only a thread that registered with the environment may do;
 any other thread posts it to the custom GC threadsafe function, which runs on the JS thread. Registration,
 removal and the finalization of that function can happen at any moment in between.
 */
module JsReference {
  import opened Machine
  import opened Handles

  type Tid = nat

  datatype Stage =
    | Idle
    | ExportRead(n: nat)         // to_napi_value has read the strong count
    | Exported                   // its local handle is still to be dropped
    | Read(n: nat, t: Tid)       // the drop body has read the strong count on thread t
    | Open(t: Tid)               // it read 1 and saw the custom GC not destroyed
    | MayTouch(t: Tid)           // it saw its thread registered
    | MustPost                   // it saw its thread unregistered
    | Unreffed(t: Tid)
    | Leaving(n: nat)            // the drop body is over after reading n; the Arc is still to be decremented

  datatype Handle = Handle(nulled: bool, stage: Stage)

  /** An unref or delete, on which thread, and whether that thread's entry was still marked as registered. */
  datatype Touch = Touch(t: Tid, live: bool)

  datatype Fate = FastDeleted | DirectlyDeleted | Posted | Abandoned

  /** The reference, the globals of the custom GC, and what an observer of the N-API calls has seen. */
  datatype Shared = Shared(
    refAlive: bool, refCount: nat,
    registered: map<Tid, bool>, gcThread: Tid, destroyed: bool,
    queued: nat, collecting: bool, skipped: bool,
    fates: seq<Fate>, unrefResults: seq<int>, touchedBy: seq<Touch>, deletes: nat, misused: bool)

  datatype State = State(handles: map<nat, Handle>, strong: nat, sh: Shared)

  datatype EnvEvent = Register(t: Tid) | Unregister(t: Tid) | GcFinalized | CollectUnref | CollectDelete

  datatype Action =
    | BeginExport | ExportBody
    | BeginDrop(t: Tid) | CheckDestroyed | CheckThread | Post(accepted: bool) | Unref | Delete

  datatype Event =
    | Env(env: EnvEvent)
    | Clone(h: nat, k: nat)
    | Act(h: nat, a: Action)
    | Decrement(h: nat)

  /**
   One handle over a fresh reference of the environment on thread `home`; `gc` is the thread that created the custom
   GC. Both have registered.
   */
  function Init(gc: Tid, home: Tid): State
  {
    State(map[0 := Handle(false, Idle)], 1,
          Shared(true, 1, map[gc := true, home := true], gc, false, 0, false, false, [], [], [], 0, false))
  }

  function Decide(sh: Shared, fate: Fate): Shared
  {
    sh.(fates := sh.fates + [fate])
  }

  /** The thread has registered and was not removed since. */
  predicate Live(sh: Shared, t: Tid)
  {
    t in sh.registered && sh.registered[t]
  }

  /** The cleanup hook has marked the thread's entry. */
  predicate Removed(sh: Shared, t: Tid)
  {
    t in sh.registered && !sh.registered[t]
  }

  function TouchedOn(sh: Shared, t: Tid): Shared
  {
    sh.(touchedBy := sh.touchedBy + [Touch(t, Live(sh, t))])
  }

  /** napi_reference_unref on thread t reports the new count; on a deleted reference it is misuse. */
  function NapiUnref(sh: Shared, t: Tid): Shared
  {
    TouchedOn(sh, t).(
        unrefResults := sh.unrefResults + [sh.refCount - 1],
        refCount := if sh.refCount > 0 then sh.refCount - 1 else 0,
        misused := sh.misused || !sh.refAlive || sh.refCount == 0)
  }

  function NapiDelete(sh: Shared): Shared
  {
    sh.(refAlive := false, deletes := sh.deletes + 1, misused := sh.misused || !sh.refAlive)
  }

  function EnvStep(sh: Shared, e: EnvEvent): Option<Shared>
  {
    match e
    case Register(t) => Some(sh.(registered := sh.registered[t := true]))
    case Unregister(t) => if t in sh.registered then Some(sh.(registered := sh.registered[t := false])) else None
    case GcFinalized => Some(sh.(destroyed := true))
    case CollectUnref =>
      if sh.queued == 0 || sh.collecting then None
      else if Removed(sh, sh.gcThread) then
        Some(sh.(queued := sh.queued - 1, skipped := true))
      else Some(NapiUnref(sh.(queued := sh.queued - 1), sh.gcThread).(collecting := true))
    case CollectDelete =>
      if !sh.collecting then None
      else Some(TouchedOn(NapiDelete(sh), sh.gcThread).(collecting := false))
  }

  /** One step of the export or of the drop body of a handle; `strong` is the count it may read. */
  function ActStep(sh: Shared, strong: nat, v: Handle, a: Action): Option<(Shared, Handle)>
  {
    match (a, v.stage)
    case (BeginExport, Idle) =>  // reads the JS value through the reference, then the strong count
      Some((sh.(misused := sh.misused || !sh.refAlive || v.nulled), v.(stage := ExportRead(strong))))
    case (ExportBody, ExportRead(n)) =>
      if n == 1 then Some((Decide(NapiDelete(sh), FastDeleted), Handle(true, Exported)))
      else Some((sh, v.(stage := Exported)))
    case (BeginDrop(t), Idle) => Some((sh, v.(stage := Read(strong, t))))
    case (BeginDrop(t), Exported) => Some((sh, v.(stage := Read(strong, t))))
    case (CheckDestroyed, Read(n, t)) =>
      if n != 1 || v.nulled then Some((sh, v.(stage := Leaving(n))))
      else if sh.destroyed then Some((Decide(sh, Abandoned), v.(stage := Leaving(n))))
      else Some((sh, v.(stage := Open(t))))
    case (CheckThread, Open(t)) =>
      if t in sh.registered then Some((Decide(sh, DirectlyDeleted), v.(stage := MayTouch(t))))
      else Some((sh, v.(stage := MustPost)))
    case (Post(accepted), MustPost) =>  // a closing or finalized function refuses the item
      if accepted && sh.destroyed then None
      else if accepted then Some((Decide(sh.(queued := sh.queued + 1), Posted), v.(stage := Leaving(1))))
      else Some((Decide(sh, Abandoned), v.(stage := Leaving(1))))
    case (Unref, MayTouch(t)) => Some((NapiUnref(sh, t), v.(stage := Unreffed(t))))
    case (Delete, Unreffed(t)) =>
      Some((TouchedOn(NapiDelete(sh), t), v.(stage := Leaving(1))))
    case _ => None
  }

  function Step(s: State, e: Event): Option<State>
  {
    match e
    case Env(env) => (
      match EnvStep(s.sh, env)
      case None => None
      case Some(sh) => Some(s.(sh := sh)))
    case Clone(h, k) =>
      if h in s.handles && s.handles[h].stage == Idle && k !in s.handles then
        Some(s.(handles := s.handles[k := s.handles[h]], strong := s.strong + 1))
      else None
    case Act(h, a) =>
      if h !in s.handles then None
      else (
        match ActStep(s.sh, s.strong, s.handles[h], a)
        case None => None
        case Some((sh, v)) => Some(s.(sh := sh, handles := s.handles[h := v])))
    case Decrement(h) =>
      if h in s.handles && s.handles[h].stage.Leaving? && s.strong > 0 then
        Some(s.(handles := s.handles - {h}, strong := s.strong - 1))
      else None
  }

  // ---------------------------------------------------------------------------------------------------------
  // What every step keeps
  // ---------------------------------------------------------------------------------------------------------

  predicate Met(sh: Shared, fate: Fate)
  {
    |sh.fates| == 1 && sh.fates[0] == fate
  }

  ghost predicate Untouched(sh: Shared)
  {
    sh.refAlive && sh.refCount == 1 && sh.unrefResults == [] && sh.touchedBy == [] && sh.deletes == 0
  }

  ghost predicate HalfDone(sh: Shared)
  {
    sh.refAlive && sh.unrefResults == [0] && |sh.touchedBy| == 1 && sh.deletes == 0
  }

  ghost predicate Collected(sh: Shared)
  {
    !sh.refAlive && sh.unrefResults == [0] && |sh.touchedBy| == 2 && sh.deletes == 1
  }

  /** How far the reference has got on the way its fate laid down. */
  ghost predicate Progress(sh: Shared, strong: nat)
  {
    && !sh.misused
    && sh.gcThread in sh.registered
    && (forall i :: 0 <= i < |sh.touchedBy| ==> sh.touchedBy[i].t in sh.registered)
    && |sh.fates| <= 1
    && (sh.fates != [] ==> strong <= 1)
    && (!Met(sh, Posted) ==> sh.queued == 0 && !sh.collecting && !sh.skipped)
    && (sh.fates == [] ==> Untouched(sh))
    && (Met(sh, Abandoned) ==> Untouched(sh))
    && (Met(sh, FastDeleted) ==> !sh.refAlive && sh.unrefResults == [] && sh.touchedBy == [] && sh.deletes == 1)
    && (Met(sh, DirectlyDeleted) && strong == 0 ==> Collected(sh))
    && (Met(sh, Posted) ==>
          if sh.queued > 0 then sh.queued == 1 && !sh.collecting && !sh.skipped && Untouched(sh)
          else if sh.collecting then !sh.skipped && HalfDone(sh)
          else if sh.skipped then Untouched(sh)
          else Collected(sh))
  }

  ghost predicate HandleInv(sh: Shared, strong: nat, v: Handle)
  {
    && (v.nulled ==> Met(sh, FastDeleted))
    && match v.stage
       case Idle => sh.fates == []
       case ExportRead(n) => sh.fates == [] && n >= 1 && (n == 1 ==> strong == 1)
       case Exported => sh.fates == [] || v.nulled
       case Read(n, t) => (sh.fates == [] || v.nulled) && n >= 1 && (n == 1 ==> strong == 1) && (v.nulled ==> n == 1)
       case Open(t) => sh.fates == [] && strong == 1
       case MustPost => sh.fates == [] && strong == 1
       case MayTouch(t) => Met(sh, DirectlyDeleted) && t in sh.registered && Untouched(sh)
       case Unreffed(t) => Met(sh, DirectlyDeleted) && t in sh.registered && HalfDone(sh)
       case Leaving(n) =>
         && n >= 1
         && (n == 1 <==> sh.fates != [])
         && (Met(sh, DirectlyDeleted) ==> Collected(sh))
  }

  ghost predicate Inv(s: State)
  {
    && s.strong == |s.handles|
    && Progress(s.sh, s.strong)
    && forall h :: h in s.handles ==> HandleInv(s.sh, s.strong, s.handles[h])
  }

  lemma EnvStepKeeps(sh: Shared, e: EnvEvent, strong: nat)
    requires Progress(sh, strong) && EnvStep(sh, e).Some?
    ensures Progress(EnvStep(sh, e).value, strong)
  {}

  lemma EnvStepKeepsHandle(sh: Shared, e: EnvEvent, strong: nat, v: Handle)
    requires Progress(sh, strong) && EnvStep(sh, e).Some? && HandleInv(sh, strong, v)
    ensures HandleInv(EnvStep(sh, e).value, strong, v)
  {}

  lemma ActStepKeeps(sh: Shared, strong: nat, v: Handle, a: Action)
    requires strong >= 1 && Progress(sh, strong) && HandleInv(sh, strong, v) && ActStep(sh, strong, v, a).Some?
    ensures var (sh', v') := ActStep(sh, strong, v, a).value;
            && Progress(sh', strong)
            && HandleInv(sh', strong, v')
            && (strong >= 2 ==> forall w :: HandleInv(sh, strong, w) ==> HandleInv(sh', strong, w))
  {}

  lemma CountChangeKeeps(sh: Shared, strong: nat, v: Handle)
    requires strong >= 1 && Progress(sh, strong) && HandleInv(sh, strong, v)
    ensures v.stage.Idle? ==> Progress(sh, strong + 1) && HandleInv(sh, strong + 1, v)
    ensures v.stage.Leaving? ==> Progress(sh, strong - 1)
    ensures v.stage.Idle? ==>
              forall w :: HandleInv(sh, strong, w) && (strong >= 2 || w == v) ==> HandleInv(sh, strong + 1, w)
  {}

  lemma StepKeepsInv(s: State, e: Event)
    requires Inv(s) && Step(s, e).Some?
    ensures Inv(Step(s, e).value)
  {
    var t := Step(s, e).value;
    match e
    case Env(env) =>
      EnvStepKeeps(s.sh, env, s.strong);
      forall h | h in s.handles ensures HandleInv(t.sh, t.strong, t.handles[h]) {
        assert HandleInv(s.sh, s.strong, s.handles[h]);
        EnvStepKeepsHandle(s.sh, env, s.strong, s.handles[h]);
      }
    case Clone(h, k) =>
      SizeAfter(s.handles, k, s.handles[h]);
      CountChangeKeeps(s.sh, s.strong, s.handles[h]);
      forall w | w in s.handles ensures HandleInv(t.sh, t.strong, s.handles[w]) { SoleHandle(s.handles, w, h); }
    case Act(h, a) => ActKeepsInv(s, h, a);
    case Decrement(h) => DecrementKeepsInv(s, h);
  }

  lemma ActKeepsInv(s: State, h: nat, a: Action)
    requires Inv(s) && Step(s, Act(h, a)).Some?
    ensures Inv(Step(s, Act(h, a)).value)
  {
    var t := Step(s, Act(h, a)).value;
    SizeAfter(s.handles, h, t.handles[h]);
    assert HandleInv(s.sh, s.strong, s.handles[h]);
    ActStepKeeps(s.sh, s.strong, s.handles[h], a);
    forall w | w in t.handles ensures HandleInv(t.sh, t.strong, t.handles[w]) {
      SoleHandle(s.handles, w, h);
      assert HandleInv(s.sh, s.strong, s.handles[w]);
    }
  }

  lemma DecrementKeepsInv(s: State, h: nat)
    requires Inv(s) && Step(s, Decrement(h)).Some?
    ensures Inv(Step(s, Decrement(h)).value)
  {
    var t := Step(s, Decrement(h)).value;
    SizeAfter(s.handles, h, s.handles[h]);
    CountChangeKeeps(s.sh, s.strong, s.handles[h]);
    forall w | w in t.handles ensures HandleInv(t.sh, t.strong, t.handles[w]) {
      SoleHandle(s.handles, w, h);
      assert HandleInv(s.sh, s.strong, s.handles[w]);
    }
  }

  /**
   Over every interleaving: the reference meets at most one fate and is deleted at most once; no N-API call is
   made on a deleted reference; every unref brings the count to exactly 0, so the count asserts cannot fail, and
   until a fate is met the count is 1; only threads that have registered, removed since or not, unref or delete on
   the drop path or in the custom GC.
   */
  lemma {:induction false} OneFate(gc: Tid, home: Tid, es: seq<Event>)
    requires Run(Step, Init(gc, home), es).Some?
    ensures var t := Run(Step, Init(gc, home), es).value;
            && |t.sh.fates| <= 1 && t.sh.deletes <= 1 && !t.sh.misused
            && (t.sh.unrefResults == [] || t.sh.unrefResults == [0])
            && (t.sh.fates == [] ==> t.sh.refAlive && t.sh.refCount == 1)
            && (t.sh.fates != [] ==> |t.handles| <= 1)
            && (forall i :: 0 <= i < |t.sh.touchedBy| ==> t.sh.touchedBy[i].t in t.sh.registered)
  {
    ReachableInv(gc, home, es);
  }

  /** A handle still in use finds its reference alive; a drop body that read a count of 1, and no other, settles it. */
  lemma {:induction false} UsableMeansAlive(gc: Tid, home: Tid, es: seq<Event>, h: nat)
    requires Run(Step, Init(gc, home), es).Some? && h in Run(Step, Init(gc, home), es).value.handles
    ensures var t := Run(Step, Init(gc, home), es).value;
            && (t.handles[h].stage.Idle? ==> t.sh.refAlive && t.sh.refCount == 1 && !t.handles[h].nulled)
            && (t.handles[h].stage.Leaving? ==> (t.handles[h].stage.n == 1 <==> t.sh.fates != []))
  {
    ReachableInv(gc, home, es);
    var t := Run(Step, Init(gc, home), es).value;
    assert HandleInv(t.sh, t.strong, t.handles[h]);
  }

  /** What a fate comes to: who is left with a deleted reference once the GC queue is empty and all handles are gone. */
  lemma {:induction false} FateOutcome(gc: Tid, home: Tid, es: seq<Event>)
    requires Run(Step, Init(gc, home), es).Some? && Run(Step, Init(gc, home), es).value.handles == map[]
    requires var sh := Run(Step, Init(gc, home), es).value.sh; sh.queued == 0 && !sh.collecting
    ensures var sh := Run(Step, Init(gc, home), es).value.sh;
            && (sh.deletes == 1 <==>
                  Met(sh, FastDeleted) || Met(sh, DirectlyDeleted) || (Met(sh, Posted) && !sh.skipped))
            && (sh.deletes == 1 <==> !sh.refAlive)
            && (sh.unrefResults == if sh.deletes == 1 && !Met(sh, FastDeleted) then [0] else [])
            && |sh.touchedBy| == 2 * |sh.unrefResults|
  {
    ReachableInv(gc, home, es);
  }

  lemma {:induction false} ReachableInv(gc: Tid, home: Tid, es: seq<Event>)
    requires Run(Step, Init(gc, home), es).Some?
    ensures Inv(Run(Step, Init(gc, home), es).value)
  {
    forall s, e | Inv(s) && Step(s, e).Some? ensures Inv(Step(s, e).value) { StepKeepsInv(s, e); }
    Invariance(Step, Inv, Init(gc, home), es);
  }

  // ---------------------------------------------------------------------------------------------------------
  // Drops that do not overlap
  // ---------------------------------------------------------------------------------------------------------

  predicate Dropping(v: Handle)
  {
    !v.stage.Idle? && !v.stage.ExportRead? && !v.stage.Exported?
  }

  /** The same machine, in which a drop body starts only while no other one is under way. */
  ghost function SerialStep(s: State, e: Event): Option<State>
  {
    if e.Act? && e.a.BeginDrop? && exists w :: w in s.handles && Dropping(s.handles[w]) then None else Step(s, e)
  }

  ghost predicate ReadMany(v: Handle)
  {
    (v.stage.Read? || v.stage.Leaving?) && v.stage.n != 1
  }

  ghost predicate SerialInv(s: State)
  {
    && Inv(s)
    && (forall h, w :: h in s.handles && w in s.handles && Dropping(s.handles[h]) && Dropping(s.handles[w]) ==> h == w)
    && (forall h :: h in s.handles && ReadMany(s.handles[h]) ==> s.strong >= 2)
    && (s.strong == 0 ==> |s.sh.fates| == 1)
  }

  lemma ActStartsDropOnlyByBegin(sh: Shared, strong: nat, v: Handle, a: Action)
    requires ActStep(sh, strong, v, a).Some?
    ensures var (_, v') := ActStep(sh, strong, v, a).value;
            && (Dropping(v') ==> Dropping(v) || a.BeginDrop?)
            && (ReadMany(v') ==> ReadMany(v) || (a.BeginDrop? && strong != 1))
  {}

  lemma SerialActKeepsInv(s: State, h: nat, a: Action)
    requires SerialInv(s) && SerialStep(s, Act(h, a)).Some?
    ensures SerialInv(SerialStep(s, Act(h, a)).value)
  {
    StepKeepsInv(s, Act(h, a));
    var t := Step(s, Act(h, a)).value;
    ActStartsDropOnlyByBegin(s.sh, s.strong, s.handles[h], a);
    assert s.strong >= 1;
    forall w | w in t.handles && ReadMany(t.handles[w]) ensures t.strong >= 2 {
      assert w != h ==> t.handles[w] == s.handles[w];
    }
    forall w, x | w in t.handles && x in t.handles && Dropping(t.handles[w]) && Dropping(t.handles[x])
      ensures w == x
    {
      assert w != h ==> Dropping(s.handles[w]);
      assert x != h ==> Dropping(s.handles[x]);
    }
  }

  lemma SerialStepKeepsInv(s: State, e: Event)
    requires SerialInv(s) && SerialStep(s, e).Some?
    ensures SerialInv(SerialStep(s, e).value)
  {
    StepKeepsInv(s, e);
    var t := Step(s, e).value;
    match e
    case Env(_) => assert t.handles == s.handles; EnvKeepsFates(s.sh, e.env);
    case Clone(_, _) =>
    case Act(h, a) => SerialActKeepsInv(s, h, a);
    case Decrement(h) =>
      assert Dropping(s.handles[h]) && HandleInv(s.sh, s.strong, s.handles[h]);
      assert s.handles[h].stage.n == 1 || ReadMany(s.handles[h]);
      forall w | w in t.handles ensures !ReadMany(t.handles[w]) {
        assert w in s.handles && w != h;
      }
  }

  lemma EnvKeepsFates(sh: Shared, e: EnvEvent)
    requires EnvStep(sh, e).Some?
    ensures EnvStep(sh, e).value.fates == sh.fates
  {}

  /** When drops do not overlap, a reference whose handles are all gone has met exactly one fate. */
  lemma {:induction false} SerializedDropsMeetOneFate(gc: Tid, home: Tid, es: seq<Event>)
    requires Run(SerialStep, Init(gc, home), es).Some? && Run(SerialStep, Init(gc, home), es).value.handles == map[]
    ensures |Run(SerialStep, Init(gc, home), es).value.sh.fates| == 1
  {
    forall s, e | SerialInv(s) && SerialStep(s, e).Some? ensures SerialInv(SerialStep(s, e).value) {
      SerialStepKeepsInv(s, e);
    }
    Invariance(SerialStep, SerialInv, Init(gc, home), es);
  }

  // ---------------------------------------------------------------------------------------------------------
  // The callbacks and the drop as the source runs them, each without interference
  // ---------------------------------------------------------------------------------------------------------

  /** The steps of one undisturbed drop body on thread t; `accepted` is what posting to the custom GC answers. */
  function DropSteps(s: State, h: nat, t: Tid, accepted: bool): (es: seq<Event>)
    requires h in s.handles
  {
    var begin := [Act(h, BeginDrop(t)), Act(h, CheckDestroyed)];
    if s.strong != 1 || s.handles[h].nulled || s.sh.destroyed then begin + [Decrement(h)]
    else if t !in s.sh.registered then begin + [Act(h, CheckThread), Act(h, Post(accepted)), Decrement(h)]
    else begin + [Act(h, CheckThread), Act(h, Unref), Act(h, Delete), Decrement(h)]
  }

  function FateOnDrop(sh: Shared, t: Tid, accepted: bool): (r: Shared)
  {
    if sh.destroyed then Decide(sh, Abandoned)
    else if t in sh.registered then TouchedOn(NapiDelete(NapiUnref(Decide(sh, DirectlyDeleted), t)), t)
    else if accepted then Decide(sh.(queued := sh.queued + 1), Posted)
    else Decide(sh, Abandoned)
  }

  function SharedAfterDrop(s: State, h: nat, t: Tid, accepted: bool): (sh: Shared)
    requires h in s.handles
  {
    if s.strong != 1 || s.handles[h].nulled then s.sh else FateOnDrop(s.sh, t, accepted)
  }

  function AfterDrop(s: State, h: nat, t: Tid, accepted: bool): (r: State)
    requires h in s.handles
  {
    State(s.handles - {h}, if s.strong == 0 then 0 else s.strong - 1, SharedAfterDrop(s, h, t, accepted))
  }

  predicate Droppable(s: State, h: nat)
  {
    h in s.handles && (s.handles[h].stage.Idle? || s.handles[h].stage.Exported?)
  }

  function Handled(s: State, h: nat, stage: Stage, sh: Shared): (r: State)
    requires h in s.handles
  {
    State(s.handles[h := s.handles[h].(stage := stage)], s.strong, sh)
  }

  lemma Leave(s: State, h: nat, n: nat, sh: Shared)
    requires h in s.handles && s.strong > 0
    ensures Run(Step, Handled(s, h, Leaving(n), sh), [Decrement(h)]) == Some(State(s.handles - {h}, s.strong - 1, sh))
  {
    var t := Handled(s, h, Leaving(n), sh);
    assert t.handles - {h} == s.handles - {h};
    assert [Decrement(h)][1..] == [];
  }

  lemma {:induction false} Advance(
    s: State, h: nat, from: Stage, sh: Shared, a: Action, to: Stage, next: Shared, es: seq<Event>)
    requires h in s.handles
    requires ActStep(sh, s.strong, s.handles[h].(stage := from), a) == Some((next, s.handles[h].(stage := to)))
    ensures Run(Step, Handled(s, h, from, sh), [Act(h, a)] + es) == Run(Step, Handled(s, h, to, next), es)
  {
    var v := s.handles[h];
    assert s.handles[h := v.(stage := from)][h := v.(stage := to)] == s.handles[h := v.(stage := to)];
    assert Step(Handled(s, h, from, sh), Act(h, a)) == Some(Handled(s, h, to, next));
    assert ([Act(h, a)] + es)[1..] == es;
  }

  lemma {:induction false} BeginsOpen(s: State, h: nat, t: Tid, es: seq<Event>)
    requires Droppable(s, h) && s.strong == 1 && !s.handles[h].nulled && !s.sh.destroyed
    ensures Run(Step, s, [Act(h, BeginDrop(t)), Act(h, CheckDestroyed)] + es) ==
            Run(Step, Handled(s, h, Open(t), s.sh), es)
  {
    var v := s.handles[h];
    assert s.handles == s.handles[h := v.(stage := v.stage)];
    assert s == Handled(s, h, v.stage, s.sh);
    Advance(s, h, Read(1, t), s.sh, CheckDestroyed, Open(t), s.sh, es);
    Advance(s, h, v.stage, s.sh, BeginDrop(t), Read(1, t), s.sh, [Act(h, CheckDestroyed)] + es);
    assert [Act(h, BeginDrop(t)), Act(h, CheckDestroyed)] + es
           == [Act(h, BeginDrop(t))] + ([Act(h, CheckDestroyed)] + es);
  }

  lemma DropOfOneOfMany(s: State, h: nat, t: Tid, accepted: bool)
    requires s.strong > 0 && Droppable(s, h) && (s.strong != 1 || s.handles[h].nulled || s.sh.destroyed)
    ensures Run(Step, s, DropSteps(s, h, t, accepted)) == Some(AfterDrop(s, h, t, accepted))
  {
    var v, sh, last := s.handles[h], s.sh, [Decrement(h)];
    assert s.handles == s.handles[h := v.(stage := v.stage)];
    assert s == Handled(s, h, v.stage, sh);
    var next := SharedAfterDrop(s, h, t, accepted);
    Leave(s, h, s.strong, next);
    Advance(s, h, Read(s.strong, t), sh, CheckDestroyed, Leaving(s.strong), next, last);
    Advance(s, h, v.stage, sh, BeginDrop(t), Read(s.strong, t), sh, [Act(h, CheckDestroyed)] + last);
    assert DropSteps(s, h, t, accepted) == [Act(h, BeginDrop(t))] + ([Act(h, CheckDestroyed)] + last);
  }

  lemma DropElsewhere(s: State, h: nat, t: Tid, accepted: bool)
    requires Droppable(s, h) && s.strong == 1 && !s.handles[h].nulled && !s.sh.destroyed && t !in s.sh.registered
    ensures Run(Step, s, DropSteps(s, h, t, accepted)) == Some(AfterDrop(s, h, t, accepted))
  {
    var sh, post := s.sh, [Act(h, Post(accepted))] + [Decrement(h)];
    var next := SharedAfterDrop(s, h, t, accepted);
    Leave(s, h, 1, next);
    Advance(s, h, MustPost, sh, Post(accepted), Leaving(1), next, [Decrement(h)]);
    Advance(s, h, Open(t), sh, CheckThread, MustPost, sh, post);
    BeginsOpen(s, h, t, [Act(h, CheckThread)] + post);
    assert DropSteps(s, h, t, accepted)
           == [Act(h, BeginDrop(t)), Act(h, CheckDestroyed)] + ([Act(h, CheckThread)] + post);
  }

  lemma DropOnJsThread(s: State, h: nat, t: Tid, accepted: bool)
    requires Droppable(s, h) && s.strong == 1 && !s.handles[h].nulled && !s.sh.destroyed && t in s.sh.registered
    ensures Run(Step, s, DropSteps(s, h, t, accepted)) == Some(AfterDrop(s, h, t, accepted))
  {
    var decided := Decide(s.sh, DirectlyDeleted);
    var unreffed := NapiUnref(decided, t);
    var next := SharedAfterDrop(s, h, t, accepted);
    var tail := [Act(h, Unref)] + ([Act(h, Delete)] + [Decrement(h)]);
    Leave(s, h, 1, next);
    Advance(s, h, Unreffed(t), unreffed, Delete, Leaving(1), next, [Decrement(h)]);
    Advance(s, h, MayTouch(t), decided, Unref, Unreffed(t), unreffed, [Act(h, Delete)] + [Decrement(h)]);
    Advance(s, h, Open(t), s.sh, CheckThread, MayTouch(t), decided, tail);
    BeginsOpen(s, h, t, [Act(h, CheckThread)] + tail);
    assert DropSteps(s, h, t, accepted)
           == [Act(h, BeginDrop(t)), Act(h, CheckDestroyed)] + ([Act(h, CheckThread)] + tail);
  }

  /** An undisturbed drop is a run of the machine. */
  lemma DropIsARun(s: State, h: nat, t: Tid, accepted: bool)
    requires Inv(s) && Droppable(s, h) && (accepted ==> !s.sh.destroyed)
    ensures Run(Step, s, DropSteps(s, h, t, accepted)) == Some(AfterDrop(s, h, t, accepted))
  {
    HandleMakesCount(s, h);
    if s.strong != 1 || s.handles[h].nulled || s.sh.destroyed { DropOfOneOfMany(s, h, t, accepted); }
    else if t !in s.sh.registered { DropElsewhere(s, h, t, accepted); }
    else { DropOnJsThread(s, h, t, accepted); }
  }

  /** Export by value: the last handle gives the reference up at once, so that its drop finds nothing to do. */
  function AfterExport(s: State, h: nat): (r: State)
    requires h in s.handles
  {
    if s.strong == 1 then
      State(s.handles[h := Handle(true, Exported)], 1, Decide(NapiDelete(s.sh), FastDeleted))
    else s.(handles := s.handles[h := s.handles[h].(stage := Exported)])
  }

  lemma ExportIsTwoSteps(s: State, h: nat)
    requires Inv(s) && h in s.handles && s.handles[h].stage.Idle?
    ensures Run(Step, s, [Act(h, BeginExport), Act(h, ExportBody)]) == Some(AfterExport(s, h))
  {
    var v := s.handles[h];
    assert HandleInv(s.sh, s.strong, v);
    var read := v.(stage := ExportRead(s.strong));
    assert Step(s, Act(h, BeginExport)) == Some(State(s.handles[h := read], s.strong, s.sh));
    var w := AfterExport(s, h).handles[h];
    assert s.handles[h := read][h := w] == s.handles[h := w];
    RunTwo(Step, s, Act(h, BeginExport), Act(h, ExportBody));
  }

  lemma HandleMakesCount(s: State, h: nat)
    requires Inv(s) && h in s.handles
    ensures s.strong > 0
  {
    SizeAfter(s.handles, h, s.handles[h]);
  }

  lemma {:induction false} InvOver(s: State, es: seq<Event>)
    requires Inv(s) && Run(Step, s, es).Some?
    ensures Inv(Run(Step, s, es).value)
  {
    forall t, e | Inv(t) && Step(t, e).Some? ensures Inv(Step(t, e).value) { StepKeepsInv(t, e); }
    Invariance(Step, Inv, s, es);
  }

  lemma LastHasReference(s: State, h: nat)
    requires Inv(s) && Droppable(s, h) && s.strong == 1 && !s.handles[h].nulled
    ensures s.sh.refAlive && s.sh.refCount == 1 && s.sh.fates == [] && s.sh.queued == 0 && s.sh.deletes == 0
  {
    assert HandleInv(s.sh, s.strong, s.handles[h]);
  }

  lemma DropKeepsInv(s: State, h: nat, t: Tid, accepted: bool)
    requires Inv(s) && Droppable(s, h) && (accepted ==> !s.sh.destroyed)
    ensures s.strong > 0 && Inv(AfterDrop(s, h, t, accepted))
  {
    HandleMakesCount(s, h);
    DropIsARun(s, h, t, accepted);
    InvOver(s, DropSteps(s, h, t, accepted));
  }

  lemma ExportKeepsInv(s: State, h: nat)
    requires Inv(s) && h in s.handles && s.handles[h].stage.Idle?
    ensures Inv(AfterExport(s, h))
  {
    ExportIsTwoSteps(s, h);
    InvOver(s, [Act(h, BeginExport), Act(h, ExportBody)]);
  }

  // ---------------------------------------------------------------------------------------------------------
  // Threads that were removed
  // ---------------------------------------------------------------------------------------------------------

  /**
   The drop asks whether its thread has an entry, not what the entry says: an undisturbed drop unrefs and deletes on
   a removed thread exactly when it is the last one, has the reference, and the custom GC is not destroyed.
   */
  lemma DropTouchesRemovedThreadIff(s: State, h: nat, t: Tid, accepted: bool)
    requires Inv(s) && Droppable(s, h)
    ensures var n, touches := |s.sh.touchedBy|, AfterDrop(s, h, t, accepted).sh.touchedBy;
            && n <= |touches|
            && ((exists i :: n <= i < |touches| && !touches[i].live) <==>
                  s.strong == 1 && !s.handles[h].nulled && !s.sh.destroyed && Removed(s.sh, t))
  {
    var n, touches := |s.sh.touchedBy|, AfterDrop(s, h, t, accepted).sh.touchedBy;
    if |touches| > n { assert touches[n] == Touch(t, Live(s.sh, t)); }
  }

  /** The cleanup hook runs, then the last handle goes on the same thread: both calls come after the removal. */
  lemma RemovedThreadTouches()
    ensures var drop := [Act(0, BeginDrop(0)), Act(0, CheckDestroyed), Act(0, CheckThread), Act(0, Unref),
                         Act(0, Delete), Decrement(0)];
            var r := Run(Step, Init(0, 0), [Env(Unregister(0))] + drop);
            r.Some? && r.value.sh.touchedBy == [Touch(0, false), Touch(0, false)]
  {
    var s := Step(Init(0, 0), Env(Unregister(0))).value;
    StepKeepsInv(Init(0, 0), Env(Unregister(0)));
    LastDropHere(s, 0, 0);
    var drop := [Act(0, BeginDrop(0)), Act(0, CheckDestroyed), Act(0, CheckThread), Act(0, Unref), Act(0, Delete),
                 Decrement(0)];
    assert ([Env(Unregister(0))] + drop)[1..] == drop;
  }

  lemma LastDropHere(s: State, h: nat, t: Tid)
    requires Inv(s) && Droppable(s, h) && s.strong == 1 && !s.handles[h].nulled && !s.sh.destroyed
    requires t in s.sh.registered && s.sh.touchedBy == []
    ensures var r := Run(Step, s, [Act(h, BeginDrop(t)), Act(h, CheckDestroyed), Act(h, CheckThread), Act(h, Unref),
                                   Act(h, Delete), Decrement(h)]);
            r.Some? && r.value.sh.touchedBy == [Touch(t, Live(s.sh, t)), Touch(t, Live(s.sh, t))]
  {
    DropIsARun(s, h, t, false);
    assert DropSteps(s, h, t, false) ==
           [Act(h, BeginDrop(t)), Act(h, CheckDestroyed), Act(h, CheckThread), Act(h, Unref), Act(h, Delete),
            Decrement(h)];
  }

  // ---------------------------------------------------------------------------------------------------------
  // Whose thread it is
  // ---------------------------------------------------------------------------------------------------------

  /**
   Nor does the drop ask whose environment the reference belongs to: an undisturbed drop unrefs and deletes away from
   the reference's own thread exactly when it is the last one, has the reference, the custom GC is not destroyed, and
   its thread has an entry but is another one.
   */
  lemma DropTouchesElsewhereIff(s: State, h: nat, t: Tid, accepted: bool, home: Tid)
    requires Inv(s) && Droppable(s, h)
    ensures var n, touches := |s.sh.touchedBy|, AfterDrop(s, h, t, accepted).sh.touchedBy;
            && n <= |touches|
            && ((exists i :: n <= i < |touches| && touches[i].t != home) <==>
                  s.strong == 1 && !s.handles[h].nulled && !s.sh.destroyed && t in s.sh.registered && t != home)
  {
    var n, touches := |s.sh.touchedBy|, AfterDrop(s, h, t, accepted).sh.touchedBy;
    if |touches| > n { assert touches[n].t == t; }
  }

  /** What is posted is collected on the thread that created the custom GC: the reference's own exactly when it is. */
  lemma CollectionTouchesOnGcThread(s: State)
    requires Inv(s) && s.sh.queued > 0 && !Removed(s.sh, s.sh.gcThread)
    ensures AfterCollection(s).sh.touchedBy ==
            s.sh.touchedBy + [Touch(s.sh.gcThread, true), Touch(s.sh.gcThread, true)]
  {
    assert Live(s.sh, s.sh.gcThread);
  }

  ghost predicate OnlyRegisters(es: seq<Event>, home: Tid)
  {
    forall i :: 0 <= i < |es| && es[i].Env? && es[i].env.Register? ==> es[i].env.t == home
  }

  lemma {:induction false} OnlyHomeHasEntry(s: State, es: seq<Event>, home: Tid)
    requires s.sh.registered.Keys == {home} && OnlyRegisters(es, home) && Run(Step, s, es).Some?
    ensures Run(Step, s, es).value.sh.registered.Keys == {home}
    decreases |es|
  {
    if es == [] {
    } else {
      var t := Step(s, es[0]).value;
      StepRegisters(s, es[0]);
      assert t.sh.registered.Keys == {home};
      assert forall i :: 0 <= i < |es[1..]| ==> es[1..][i] == es[i + 1];
      OnlyHomeHasEntry(t, es[1..], home);
    }
  }

  lemma StepRegisters(s: State, e: Event)
    requires Step(s, e).Some?
    ensures Step(s, e).value.sh.registered.Keys
            == s.sh.registered.Keys + (if e.Env? && e.env.Register? then {e.env.t} else {})
  {
    match e
    case Act(h, a) => ActStepLeavesThreads(s.sh, s.strong, s.handles[h], a);
    case Env(env) => EnvRegisters(s.sh, env);
    case _ =>
  }

  lemma EnvRegisters(sh: Shared, e: EnvEvent)
    requires EnvStep(sh, e).Some?
    ensures EnvStep(sh, e).value.registered.Keys == sh.registered.Keys + (if e.Register? then {e.t} else {})
  {
    if e.Unregister? { assert sh.registered[e.t := false].Keys == sh.registered.Keys; }
  }

  /** With one environment, every unref and delete is on its thread. */
  lemma {:induction false} OneEnvironmentStaysHome(home: Tid, es: seq<Event>)
    requires Run(Step, Init(home, home), es).Some? && OnlyRegisters(es, home)
    ensures var sh := Run(Step, Init(home, home), es).value.sh;
            forall i :: 0 <= i < |sh.touchedBy| ==> sh.touchedBy[i].t == home
  {
    OnlyHomeHasEntry(Init(home, home), es, home);
    ReachableInv(home, home, es);
    var sh := Run(Step, Init(home, home), es).value.sh;
    forall i | 0 <= i < |sh.touchedBy| ensures sh.touchedBy[i].t == home {
      assert sh.touchedBy[i].t in sh.registered.Keys;
    }
  }

  /** With a second one, a drop on its thread deletes a reference of the first there. */
  lemma ForeignThreadTouches()
    ensures var drop := [Act(0, BeginDrop(1)), Act(0, CheckDestroyed), Act(0, CheckThread), Act(0, Unref),
                         Act(0, Delete), Decrement(0)];
            var r := Run(Step, Init(0, 0), [Env(Register(1))] + drop);
            r.Some? && r.value.sh.touchedBy == [Touch(1, true), Touch(1, true)]
  {
    var s := Step(Init(0, 0), Env(Register(1))).value;
    StepKeepsInv(Init(0, 0), Env(Register(1)));
    LastDropHere(s, 0, 1);
    var drop := [Act(0, BeginDrop(1)), Act(0, CheckDestroyed), Act(0, CheckThread), Act(0, Unref), Act(0, Delete),
                 Decrement(0)];
    assert ([Env(Register(1))] + drop)[1..] == drop;
  }

  /** The drop body of this handle is under way on thread t, with calls on the reference possibly ahead. */
  predicate Works(v: Handle, t: Tid)
  {
    match v.stage
    case Read(_, u) => u == t
    case Open(u) => u == t
    case MayTouch(u) => u == t
    case Unreffed(u) => u == t
    case _ => false
  }

  /**
   The same machine, in which a thread runs one thing at a time, so that the hook does not come in the middle of a
   drop or a collection on its thread, and no drop begins on a thread after its removal.
   */
  ghost function OrderlyStep(s: State, e: Event): Option<State>
  {
    if e.Env? && e.env.Unregister? && Occupied(s, e.env.t) then None
    else if e.Act? && e.a.BeginDrop? && Removed(s.sh, e.a.t) then None
    else Step(s, e)
  }

  ghost predicate Occupied(s: State, t: Tid)
  {
    (s.sh.collecting && t == s.sh.gcThread) || exists h :: h in s.handles && Works(s.handles[h], t)
  }

  ghost predicate OrderlyInv(s: State)
  {
    && Inv(s)
    && (forall t :: Occupied(s, t) ==> !Removed(s.sh, t))
    && (forall i :: 0 <= i < |s.sh.touchedBy| ==> s.sh.touchedBy[i].live)
  }

  lemma OrderlyEnv(s: State, e: EnvEvent)
    requires OrderlyInv(s) && OrderlyStep(s, Env(e)).Some?
    ensures OrderlyInv(OrderlyStep(s, Env(e)).value)
  {
    StepKeepsInv(s, Env(e));
    var u := OrderlyStep(s, Env(e)).value;
    assert s.sh.collecting ==> Occupied(s, s.sh.gcThread);
    forall t | Occupied(u, t) ensures !Removed(u.sh, t) {
      assert Occupied(s, t) || (e.CollectUnref? && t == s.sh.gcThread);
    }
  }

  lemma OrderlyAct(s: State, h: nat, a: Action)
    requires OrderlyInv(s) && OrderlyStep(s, Act(h, a)).Some?
    ensures OrderlyInv(OrderlyStep(s, Act(h, a)).value)
  {
    StepKeepsInv(s, Act(h, a));
    var u := OrderlyStep(s, Act(h, a)).value;
    OrderlyTouch(s, h, a);
    ActLeavesThreads(s, h, a);
  }

  lemma ActStepLeavesThreads(sh: Shared, strong: nat, v: Handle, a: Action)
    requires ActStep(sh, strong, v, a).Some?
    ensures var r := ActStep(sh, strong, v, a).value.0;
            r.registered == sh.registered && r.collecting == sh.collecting && r.gcThread == sh.gcThread
  {
    match a
    case ExportBody =>
    case Unref =>
    case Delete =>
    case _ =>
  }

  lemma ActStepStaysOn(sh: Shared, strong: nat, v: Handle, a: Action, t: Tid)
    requires ActStep(sh, strong, v, a).Some? && Works(ActStep(sh, strong, v, a).value.1, t)
    ensures Works(v, t) || (a.BeginDrop? && a.t == t)
  {}

  lemma ActLeavesThreads(s: State, h: nat, a: Action)
    requires Step(s, Act(h, a)).Some?
    ensures var u := Step(s, Act(h, a)).value;
            && u.sh.registered == s.sh.registered && u.sh.collecting == s.sh.collecting
            && u.sh.gcThread == s.sh.gcThread
            && (forall t :: Occupied(u, t) ==> Occupied(s, t) || (a.BeginDrop? && a.t == t))
  {
    var u := Step(s, Act(h, a)).value;
    ActStepLeavesThreads(s.sh, s.strong, s.handles[h], a);
    forall t | Occupied(u, t) ensures Occupied(s, t) || (a.BeginDrop? && a.t == t) {
      if !u.sh.collecting || t != u.sh.gcThread {
        var k :| k in u.handles && Works(u.handles[k], t);
        if k == h { ActStepStaysOn(s.sh, s.strong, s.handles[h], a, t); } else { assert Works(s.handles[k], t); }
      }
    }
  }

  /** A drop touches the reference on the thread it works on, which was not removed. */
  lemma OrderlyTouch(s: State, h: nat, a: Action)
    requires OrderlyInv(s) && Step(s, Act(h, a)).Some?
    ensures var sh := Step(s, Act(h, a)).value.sh; forall i :: 0 <= i < |sh.touchedBy| ==> sh.touchedBy[i].live
  {
    var v := s.handles[h];
    assert HandleInv(s.sh, s.strong, v);
    if v.stage.MayTouch? || v.stage.Unreffed? {
      assert Works(v, v.stage.t);
      assert Occupied(s, v.stage.t);
      assert Live(s.sh, v.stage.t);
    }
  }

  lemma OrderlyCount(s: State, e: Event)
    requires OrderlyInv(s) && OrderlyStep(s, e).Some? && (e.Clone? || e.Decrement?)
    ensures OrderlyInv(OrderlyStep(s, e).value)
  {
    StepKeepsInv(s, e);
    var u := OrderlyStep(s, e).value;
    forall t | Occupied(u, t) ensures !Removed(u.sh, t) { assert Occupied(s, t); }
  }

  /** In such runs every unref and delete is on a thread that is registered at that moment. */
  lemma {:induction false} OrderlyTouchesAreLive(gc: Tid, home: Tid, es: seq<Event>)
    requires Run(OrderlyStep, Init(gc, home), es).Some?
    ensures var sh := Run(OrderlyStep, Init(gc, home), es).value.sh;
            forall i :: 0 <= i < |sh.touchedBy| ==> sh.touchedBy[i].live
  {
    forall s, e | OrderlyInv(s) && OrderlyStep(s, e).Some? ensures OrderlyInv(OrderlyStep(s, e).value) {
      match e
      case Env(env) => OrderlyEnv(s, env);
      case Act(h, a) => OrderlyAct(s, h, a);
      case _ => OrderlyCount(s, e);
    }
    Invariance(OrderlyStep, OrderlyInv, Init(gc, home), es);
  }

  // ---------------------------------------------------------------------------------------------------------
  // Handles, threads and fates, told by the events of the run
  // ---------------------------------------------------------------------------------------------------------

  /** The handle reads the strong count, to export or to drop. */
  predicate Starts(e: Event, h: nat)
  {
    e.Act? && e.h == h && (e.a.BeginExport? || e.a.BeginDrop?)
  }

  predicate Makes(e: Event, h: nat)
  {
    e.Clone? && e.k == h
  }

  /** Made, or there from the start, and not gone since. */
  ghost predicate ThereSince(es: seq<Event>, h: nat)
  {
    Since(es, h == 0, e => Makes(e, h), e => e == Decrement(h))
  }

  /** Made, or there from the start, and not exported or dropped since. */
  ghost predicate UsableSince(es: seq<Event>, h: nat)
  {
    Since(es, h == 0, e => Makes(e, h), e => Starts(e, h))
  }

  /** The thread has registered, and so has an entry, removed since or not. */
  ghost predicate Entered(gc: Tid, home: Tid, es: seq<Event>, t: Tid)
  {
    t == gc || t == home || Env(Register(t)) in es
  }

  /** And its last word was a registration. */
  ghost predicate RegisteredSince(gc: Tid, home: Tid, es: seq<Event>, t: Tid)
  {
    Since(es, t == gc || t == home, e => e == Env(Register(t)), e => e == Env(Unregister(t)))
  }

  /** Where handle h last read the strong count. */
  function LastStart(es: seq<Event>, h: nat): (i: int)
    ensures -1 <= i < |es|
    ensures 0 <= i ==> Starts(es[i], h)
    ensures forall j :: i < j < |es| ==> !Starts(es[j], h)
  {
    if es == [] then -1
    else if Starts(es[|es| - 1], h) then |es| - 1
    else LastStart(es[..|es| - 1], h)
  }

  /** It was the only handle when it did. */
  ghost predicate ReadAlone(s0: State, es: seq<Event>, h: nat)
  {
    var i := LastStart(es, h);
    0 <= i && var r := Run(Step, s0, es[..i]); r.Some? && |r.value.handles| == 1
  }

  /** The thread on which handle h is being dropped. */
  function DropThread(es: seq<Event>, h: nat): (t: Option<Tid>)
  {
    var i := LastStart(es, h);
    if 0 <= i && es[i].a.BeginDrop? then Some(es[i].a.t) else None
  }

  /**
   The last event decides for this fate: an export that read a count of 1; a drop on a thread with an entry; a post
   that was accepted; one that was refused, or a last drop that finds the custom GC finalized and the reference still
   there.
   */
  ghost predicate Decides(gc: Tid, home: Tid, es: seq<Event>, fate: Fate)
    requires es != []
    decreases |es|, 0
  {
    var s0, pre, e := Init(gc, home), es[..|es| - 1], es[|es| - 1];
    && e.Act?
    && match fate
       case FastDeleted => e.a.ExportBody? && ReadAlone(s0, pre, e.h)
       case DirectlyDeleted =>
         var t := DropThread(pre, e.h);
         e.a.CheckThread? && t.Some? && Entered(gc, home, pre, t.value)
       case Posted => e.a == Post(true)
       case Abandoned =>
         || e.a == Post(false)
         || (e.a.CheckDestroyed? && Env(GcFinalized) in pre && ReadAlone(s0, pre, e.h)
             && !Decided(gc, home, pre, FastDeleted))
  }

  /** Some event of the run decided for this fate. */
  ghost predicate Decided(gc: Tid, home: Tid, es: seq<Event>, fate: Fate)
    decreases |es|, 1
  {
    es != [] && (Decided(gc, home, es[..|es| - 1], fate) || Decides(gc, home, es, fate))
  }

  lemma HandleAfter(s: State, e: Event, h: nat)
    requires Step(s, e).Some?
    ensures var t := Step(s, e).value;
            && (h in t.handles <==> Makes(e, h) || (h in s.handles && e != Decrement(h)))
            && (h in t.handles && t.handles[h].stage.Idle? <==>
                  Makes(e, h) || (h in s.handles && s.handles[h].stage.Idle? && !Starts(e, h)))
  {
    if e.Act? && h == e.h { ActEndsIdle(s.sh, s.strong, s.handles[h], e.a); }
  }

  lemma ActEndsIdle(sh: Shared, strong: nat, v: Handle, a: Action)
    requires ActStep(sh, strong, v, a).Some?
    ensures !ActStep(sh, strong, v, a).value.1.stage.Idle?
    ensures v.stage.Idle? ==> a.BeginExport? || a.BeginDrop?
  {}

  /** Which handles there are, and which of them are still in use: those made and not exported or dropped since. */
  lemma {:induction false} HandlesByEvents(gc: Tid, home: Tid, es: seq<Event>, h: nat)
    requires Run(Step, Init(gc, home), es).Some?
    ensures var t := Run(Step, Init(gc, home), es).value;
            && (h in t.handles <==> ThereSince(es, h))
            && (h in t.handles && t.handles[h].stage.Idle? <==> UsableSince(es, h))
    decreases |es|
  {
    var s0 := Init(gc, home);
    if es == [] {
    } else {
      var pre, e := es[..|es| - 1], es[|es| - 1];
      RunLast(Step, s0, es);
      HandlesByEvents(gc, home, pre, h);
      HandleAfter(Run(Step, s0, pre).value, e, h);
      SinceLast(es, h == 0, e => Makes(e, h), e => e == Decrement(h));
      SinceLast(es, h == 0, e => Makes(e, h), e => Starts(e, h));
    }
  }

  /** The environment's step, seen from the globals and one thread. */
  lemma GlobalsAfterEnv(sh: Shared, e: EnvEvent, t: Tid)
    requires EnvStep(sh, e).Some?
    ensures var u := EnvStep(sh, e).value;
            && (u.destroyed <==> sh.destroyed || e.GcFinalized?)
            && (t in u.registered <==> t in sh.registered || e == Register(t))
            && (Live(u, t) <==> e == Register(t) || (Live(sh, t) && e != Unregister(t)))
  {
    if e.CollectUnref? || e.CollectDelete? { CollectingLeavesGlobals(sh, e); }
  }

  lemma CollectingLeavesGlobals(sh: Shared, e: EnvEvent)
    requires EnvStep(sh, e).Some? && (e.CollectUnref? || e.CollectDelete?)
    ensures EnvStep(sh, e).value.destroyed == sh.destroyed && EnvStep(sh, e).value.registered == sh.registered
  {}

  lemma ActLeavesGlobals(sh: Shared, strong: nat, v: Handle, a: Action)
    requires ActStep(sh, strong, v, a).Some?
    ensures ActStep(sh, strong, v, a).value.0.destroyed == sh.destroyed
  {
    match a
    case Post(_) =>
    case Unref =>
    case Delete =>
    case _ =>
  }

  lemma ActKeepsGlobals(s: State, h: nat, a: Action)
    requires Step(s, Act(h, a)).Some?
    ensures var sh := Step(s, Act(h, a)).value.sh;
            sh.destroyed == s.sh.destroyed && sh.registered == s.sh.registered
  {
    ActStepLeavesThreads(s.sh, s.strong, s.handles[h], a);
    ActLeavesGlobals(s.sh, s.strong, s.handles[h], a);
  }

  lemma GlobalsAfter(s: State, e: Event, t: Tid)
    requires Step(s, e).Some?
    ensures var u := Step(s, e).value;
            && (u.sh.destroyed <==> s.sh.destroyed || e == Env(GcFinalized))
            && (t in u.sh.registered <==> t in s.sh.registered || e == Env(Register(t)))
            && (Live(u.sh, t) <==> e == Env(Register(t)) || (Live(s.sh, t) && e != Env(Unregister(t))))
  {
    match e
    case Act(h, a) => ActKeepsGlobals(s, h, a);
    case Env(env) => GlobalsAfterEnv(s.sh, env, t);
    case _ =>
  }

  /** What the drop asks of the globals is what happened: which threads have an entry, which are registered. */
  lemma {:induction false} GlobalsByEvents(gc: Tid, home: Tid, es: seq<Event>, t: Tid)
    requires Run(Step, Init(gc, home), es).Some?
    ensures var sh := Run(Step, Init(gc, home), es).value.sh;
            && (sh.destroyed <==> Env(GcFinalized) in es)
            && (t in sh.registered <==> Entered(gc, home, es, t))
            && (Live(sh, t) <==> RegisteredSince(gc, home, es, t))
    decreases |es|
  {
    var s0 := Init(gc, home);
    if es == [] {
    } else {
      var pre, e := es[..|es| - 1], es[|es| - 1];
      RunLast(Step, s0, es);
      assert es == pre + [e];
      GlobalsByEvents(gc, home, pre, t);
      GlobalsAfter(Run(Step, s0, pre).value, e, t);
      SinceLast(es, t == gc || t == home, e => e == Env(Register(t)), e => e == Env(Unregister(t)));
    }
  }

  /** How a handle that has read the strong count stands to the events. */
  ghost predicate StageTold(s0: State, es: seq<Event>, h: nat, stage: Stage)
  {
    match stage
    case ExportRead(n) => n == 1 <==> ReadAlone(s0, es, h)
    case Read(n, t) => DropThread(es, h) == Some(t) && (n == 1 <==> ReadAlone(s0, es, h))
    case Open(t) => DropThread(es, h) == Some(t)
    case _ => true
  }

  /** Events that are no start of h leave what is told of it. */
  lemma OlderStart(s0: State, es: seq<Event>, h: nat)
    requires es != [] && !Starts(es[|es| - 1], h)
    ensures var pre := es[..|es| - 1];
            DropThread(es, h) == DropThread(pre, h) && (ReadAlone(s0, es, h) <==> ReadAlone(s0, pre, h))
  {
    var pre, i := es[..|es| - 1], LastStart(es, h);
    if i >= 0 { assert pre[..i] == es[..i]; }
  }

  lemma StartIsTold(gc: Tid, home: Tid, es: seq<Event>, h: nat)
    requires es != [] && Starts(es[|es| - 1], h) && Run(Step, Init(gc, home), es).Some?
    ensures h in Run(Step, Init(gc, home), es).value.handles
    ensures StageTold(Init(gc, home), es, h, Run(Step, Init(gc, home), es).value.handles[h].stage)
  {
    var pre := es[..|es| - 1];
    RunLast(Step, Init(gc, home), es);
    ReachableInv(gc, home, pre);
    assert LastStart(es, h) == |es| - 1;
  }

  lemma ActMovesOn(sh: Shared, strong: nat, v: Handle, a: Action)
    requires ActStep(sh, strong, v, a).Some? && !a.BeginExport? && !a.BeginDrop?
    ensures match ActStep(sh, strong, v, a).value.1.stage
            case ExportRead(_) => false
            case Read(_, _) => false
            case Open(t) => v.stage == Read(1, t)
            case _ => true
  {}

  lemma {:induction false} StagesByEvents(gc: Tid, home: Tid, es: seq<Event>, h: nat)
    requires Run(Step, Init(gc, home), es).Some? && h in Run(Step, Init(gc, home), es).value.handles
    ensures StageTold(Init(gc, home), es, h, Run(Step, Init(gc, home), es).value.handles[h].stage)
    decreases |es|
  {
    var s0 := Init(gc, home);
    if es == [] {
    } else if Starts(es[|es| - 1], h) {
      StartIsTold(gc, home, es, h);
    } else {
      var pre, e := es[..|es| - 1], es[|es| - 1];
      RunLast(Step, s0, es);
      OlderStart(s0, es, h);
      var s := Run(Step, s0, pre).value;
      if h in s.handles {
        StagesByEvents(gc, home, pre, h);
        if e.Act? && e.h == h { ActMovesOn(s.sh, s.strong, s.handles[h], e.a); }
      }
    }
  }

  /** The fate this action meets, in terms of the state it is taken in. */
  function FateMet(sh: Shared, v: Handle, a: Action): (fate: Option<Fate>)
  {
    match (a, v.stage)
    case (ExportBody, ExportRead(n)) => if n == 1 then Some(FastDeleted) else None
    case (CheckDestroyed, Read(n, _)) => if n == 1 && sh.destroyed && !v.nulled then Some(Abandoned) else None
    case (CheckThread, Open(t)) => if t in sh.registered then Some(DirectlyDeleted) else None
    case (Post(accepted), _) => Some(if accepted then Posted else Abandoned)
    case _ => None
  }

  lemma ActFates(sh: Shared, strong: nat, v: Handle, a: Action)
    requires ActStep(sh, strong, v, a).Some?
    ensures ActStep(sh, strong, v, a).value.0.fates
            == sh.fates + match FateMet(sh, v, a) case Some(f) => [f] case None => []
  {
    match a
    case CheckDestroyed =>
    case CheckThread =>
    case Post(_) =>
    case _ =>
  }

  lemma FatesAfter(s: State, e: Event)
    requires Step(s, e).Some?
    ensures Step(s, e).value.sh.fates ==
            s.sh.fates + if !e.Act? then []
                         else match FateMet(s.sh, s.handles[e.h], e.a) case Some(f) => [f] case None => []
  {
    match e
    case Env(env) => EnvKeepsFates(s.sh, env);
    case Act(h, a) => ActFates(s.sh, s.strong, s.handles[h], a);
    case _ =>
  }

  /** A run one action longer, with what is known of the run before. */
  ghost predicate OneMore(gc: Tid, home: Tid, es: seq<Event>, s: State)
  {
    && es != [] && es[|es| - 1].Act?
    && Run(Step, Init(gc, home), es[..|es| - 1]) == Some(s) && Inv(s) && Step(s, es[|es| - 1]).Some?
    && (Met(s.sh, FastDeleted) <==> Decided(gc, home, es[..|es| - 1], FastDeleted))
  }

  lemma CheckDecides(gc: Tid, home: Tid, es: seq<Event>, s: State, fate: Fate)
    requires OneMore(gc, home, es, s) && es[|es| - 1].a.CheckDestroyed?
    ensures FateMet(s.sh, s.handles[es[|es| - 1].h], CheckDestroyed) == Some(fate) <==> Decides(gc, home, es, fate)
  {
    var pre, h := es[..|es| - 1], es[|es| - 1].h;
    StagesByEvents(gc, home, pre, h);
    GlobalsByEvents(gc, home, pre, home);
    assert HandleInv(s.sh, s.strong, s.handles[h]);
  }

  lemma ThreadDecides(gc: Tid, home: Tid, es: seq<Event>, s: State, fate: Fate)
    requires OneMore(gc, home, es, s) && es[|es| - 1].a.CheckThread?
    ensures FateMet(s.sh, s.handles[es[|es| - 1].h], CheckThread) == Some(fate) <==> Decides(gc, home, es, fate)
  {
    var pre, h := es[..|es| - 1], es[|es| - 1].h;
    StagesByEvents(gc, home, pre, h);
    GlobalsByEvents(gc, home, pre, s.handles[h].stage.t);
  }

  lemma ActDecides(gc: Tid, home: Tid, es: seq<Event>, s: State, fate: Fate)
    requires OneMore(gc, home, es, s)
    ensures FateMet(s.sh, s.handles[es[|es| - 1].h], es[|es| - 1].a) == Some(fate) <==> Decides(gc, home, es, fate)
  {
    match es[|es| - 1].a
    case CheckDestroyed => CheckDecides(gc, home, es, s, fate);
    case CheckThread => ThreadDecides(gc, home, es, s, fate);
    case ExportBody => StagesByEvents(gc, home, es[..|es| - 1], es[|es| - 1].h);
    case _ =>
  }

  /** Only a handle that finds no fate meets one. */
  lemma FateMeetsNone(s: State, h: nat, a: Action)
    requires Inv(s) && Step(s, Act(h, a)).Some? && FateMet(s.sh, s.handles[h], a).Some?
    ensures s.sh.fates == []
  {
    assert HandleInv(s.sh, s.strong, s.handles[h]);
  }

  /** Which fate the reference has met is decided by the events of the run, and by nothing else. */
  lemma {:induction false} FateByEvents(gc: Tid, home: Tid, es: seq<Event>, fate: Fate)
    requires Run(Step, Init(gc, home), es).Some?
    ensures Met(Run(Step, Init(gc, home), es).value.sh, fate) <==> Decided(gc, home, es, fate)
    decreases |es|
  {
    if es == [] {
    } else {
      var pre := es[..|es| - 1];
      RunLast(Step, Init(gc, home), es);
      FateByEvents(gc, home, pre, fate);
      FateByEvents(gc, home, pre, FastDeleted);
      ReachableInv(gc, home, pre);
      var s, e := Run(Step, Init(gc, home), pre).value, es[|es| - 1];
      FatesAfter(s, e);
      OnlyFate(gc, home, es, fate);
      if e.Act? {
        ActDecides(gc, home, es, s, fate);
        if FateMet(s.sh, s.handles[e.h], e.a).Some? { FateMeetsNone(s, e.h, e.a); }
      }
    }
  }

  /** A fate once met is the only one. */
  lemma OnlyFate(gc: Tid, home: Tid, es: seq<Event>, fate: Fate)
    requires Run(Step, Init(gc, home), es).Some?
    ensures var sh := Run(Step, Init(gc, home), es).value.sh; Met(sh, fate) <==> fate in sh.fates
  {
    ReachableInv(gc, home, es);
  }

  /** The reference is queued for the custom GC if and only if the run has an accepted post. */
  lemma {:induction false} PostedIff(gc: Tid, home: Tid, es: seq<Event>)
    requires Run(Step, Init(gc, home), es).Some?
    ensures Met(Run(Step, Init(gc, home), es).value.sh, Posted) <==> exists h :: Act(h, Post(true)) in es
    decreases |es|
  {
    FateByEvents(gc, home, es, Posted);
    if es == [] {
    } else {
      var pre, e := es[..|es| - 1], es[|es| - 1];
      assert es == pre + [e];
      RunLast(Step, Init(gc, home), es);
      PostedIff(gc, home, pre);
      FateByEvents(gc, home, pre, Posted);
      assert e.Act? ==> e == Act(e.h, e.a);
    }
  }

  function AfterCollection(s: State): (r: State)
    requires s.sh.queued > 0
  {
    var sh := s.sh.(queued := s.sh.queued - 1);
    if Removed(sh, sh.gcThread) then s.(sh := sh.(skipped := true))
    else s.(sh := TouchedOn(NapiDelete(NapiUnref(sh, sh.gcThread)), sh.gcThread))
  }

  /** An undisturbed item of the custom GC is a run of the machine. */
  lemma CollectionIsARun(s: State)
    requires Inv(s) && s.sh.queued > 0 && !s.sh.collecting
    ensures s.sh.refCount == 1 && Inv(AfterCollection(s))
    ensures Run(Step, s, if Removed(s.sh, s.sh.gcThread) then [Env(CollectUnref)]
                         else [Env(CollectUnref), Env(CollectDelete)]) == Some(AfterCollection(s))
  {
    StepKeepsInv(s, Env(CollectUnref));
    if Removed(s.sh, s.sh.gcThread) {
      assert [Env(CollectUnref)][1..] == [];
    } else {
      var t := s.(sh := NapiUnref(s.sh.(queued := s.sh.queued - 1), s.sh.gcThread).(collecting := true));
      assert Step(s, Env(CollectUnref)) == Some(t);
      StepKeepsInv(t, Env(CollectDelete));
      CollectionEnds(s, t);
      RunTwo(Step, s, Env(CollectUnref), Env(CollectDelete));
    }
  }

  lemma CollectionKeepsInv(s: State)
    requires Inv(s) && s.sh.queued > 0 && !s.sh.collecting
    ensures s.sh.refCount == 1 && s.sh.gcThread in s.sh.registered && Inv(AfterCollection(s))
    ensures s.sh.unrefResults == []
  {
    CollectionIsARun(s);
  }

  lemma CollectionEnds(s: State, t: State)
    requires s.sh.queued > 0 && !s.sh.collecting && !Removed(s.sh, s.sh.gcThread)
    requires t == s.(sh := NapiUnref(s.sh.(queued := s.sh.queued - 1), s.sh.gcThread).(collecting := true))
    ensures Step(t, Env(CollectDelete)) == Some(AfterCollection(s))
  {}

  class Reference {
    const gcThread: Tid
    var handles: map<nat, Handle>
    var strong: nat
    var refAlive: bool
    var refCount: nat
    var registered: map<Tid, bool>
    var destroyed: bool
    var queued: nat
    var skipped: bool
    var fates: seq<Fate>
    var unrefResults: seq<int>
    var touchedBy: seq<Touch>
    var deletes: nat
    var misused: bool

    function Abs(): (s: State)
      reads this
    {
      State(handles, strong,
            Shared(refAlive, refCount, registered, gcThread, destroyed, queued, false, skipped,
                   fates, unrefResults, touchedBy, deletes, misused))
    }

    /** A value from JS on the thread `home` of its environment; that and the custom GC's thread have registered. */
    constructor (gc: Tid, home: Tid)
      ensures Abs() == Init(gc, home) && Inv(Abs())
    {
      gcThread := gc;
      handles, strong := map[0 := Handle(false, Idle)], 1;
      refAlive, refCount, destroyed, queued, skipped := true, 1, false, 0, false;
      registered := map[gc := true, home := true];
      fates, unrefResults, touchedBy, deletes, misused := [], [], [], 0, false;
    }

    method RegisterThread(t: Tid)
      requires Inv(Abs())
      modifies `registered
      ensures Step(old(Abs()), Env(Register(t))) == Some(Abs()) && Inv(Abs())
    {
      StepKeepsInv(Abs(), Env(Register(t)));
      registered := registered[t := true];
    }

    /** The cleanup hook keeps the entry and marks it. */
    method RemoveThreadId(t: Tid)
      requires Inv(Abs()) && t in registered
      modifies `registered
      ensures Step(old(Abs()), Env(Unregister(t))) == Some(Abs()) && Inv(Abs())
    {
      StepKeepsInv(Abs(), Env(Unregister(t)));
      registered := registered[t := false];
    }

    method CustomGcFinalize()
      requires Inv(Abs())
      modifies `destroyed
      ensures Step(old(Abs()), Env(GcFinalized)) == Some(Abs()) && Inv(Abs())
    {
      StepKeepsInv(Abs(), Env(GcFinalized));
      destroyed := true;
    }

    method TouchOn(t: Tid)
      modifies `touchedBy
      ensures Abs() == old(Abs()).(sh := TouchedOn(old(Abs()).sh, t))
    {
      touchedBy := touchedBy + [Touch(t, t in registered && registered[t])];
    }

    method UnrefReference(t: Tid) returns (count: int)
      modifies `refCount, `unrefResults, `touchedBy, `misused
      ensures Abs() == old(Abs()).(sh := NapiUnref(old(Abs()).sh, t)) && count == old(refCount) - 1
    {
      misused := misused || !refAlive || refCount == 0;
      count := refCount - 1;
      unrefResults := unrefResults + [count];
      refCount := if refCount > 0 then refCount - 1 else 0;
      TouchOn(t);
    }

    method DeleteReference()
      modifies `refAlive, `deletes, `misused
      ensures Abs() == old(Abs()).(sh := NapiDelete(old(Abs()).sh))
    {
      misused := misused || !refAlive;
      refAlive := false;
      deletes := deletes + 1;
    }

    /** Unref, and with a count of 0, as the source asserts, delete. */
    method GiveUp(t: Tid)
      requires refCount == 1
      modifies `refAlive, `refCount, `unrefResults, `touchedBy, `deletes, `misused
      ensures Abs() == old(Abs()).(sh := TouchedOn(NapiDelete(NapiUnref(old(Abs()).sh, t)), t))
    {
      var count := UnrefReference(t);
      assert count == 0;
      DeleteReference();
      TouchOn(t);
    }

    /** One queued item, on the JS thread; the count assert of the source holds. */
    method CustomGc()
      requires Inv(Abs()) && queued > 0
      modifies this
      ensures Inv(Abs()) && queued == old(queued) - 1
      ensures Abs() == AfterCollection(old(Abs()))
      ensures if registered[gcThread] then !refAlive && deletes == old(deletes) + 1 && unrefResults == [0]
              else skipped && refAlive == old(refAlive) && deletes == old(deletes)
    {
      CollectionKeepsInv(Abs());
      queued := queued - 1;
      if !registered[gcThread] { skipped := true; } else { GiveUp(gcThread); }
    }

    method ToNapiValue(h: nat)
      requires Inv(Abs()) && h in handles && handles[h].stage.Idle?
      modifies this
      ensures Abs() == AfterExport(old(Abs()), h) && Inv(Abs())
      ensures handles[h].nulled == (old(strong) == 1) && strong == old(strong)
      ensures if strong == 1 then !refAlive && deletes == 1 && fates == [FastDeleted]
              else refAlive && deletes == old(deletes) && fates == old(fates)
    {
      ExportKeepsInv(Abs(), h);
      assert HandleInv(Abs().sh, strong, handles[h]);
      if strong == 1 {
        DeleteReference();
        fates := fates + [FastDeleted];
        handles := handles[h := Handle(true, Exported)];
      } else {
        handles := handles[h := handles[h].(stage := Exported)];
      }
    }

    /** The conversion takes the handle by value, so that returning drops it, on the JS thread. */
    method ConvertAndDrop(h: nat, t: Tid)
      requires Inv(Abs()) && h in handles && handles[h].stage.Idle?
      modifies this
      ensures Inv(Abs())
      ensures Abs() == AfterDrop(AfterExport(old(Abs()), h), h, t, false)
      ensures old(strong) == 1 ==> deletes == old(deletes) + 1 && queued == old(queued) && fates == [FastDeleted]
    {
      assert HandleInv(Abs().sh, strong, handles[h]);
      ToNapiValue(h);
      DropOn(h, t, false);
    }

    /** The drop of a handle on thread t; the count assert of the source holds. */
    method DropOn(h: nat, t: Tid, accepted: bool)
      requires Inv(Abs()) && Droppable(Abs(), h) && (accepted ==> !destroyed)
      modifies this
      ensures Abs() == AfterDrop(old(Abs()), h, t, accepted) && Inv(Abs())
      ensures handles == old(handles) - {h} && strong == old(strong) - 1
      ensures old(strong) != 1 || old(handles[h].nulled) ==>
                fates == old(fates) && queued == old(queued) && deletes == old(deletes)
      ensures old(strong) == 1 && !old(handles[h].nulled) ==>
                if destroyed then fates == [Abandoned] && queued == 0 && refAlive
                else if t in registered then fates == [DirectlyDeleted] && !refAlive && deletes == 1 && queued == 0
                else if accepted then fates == [Posted] && queued == old(queued) + 1 && refAlive
                else fates == [Abandoned] && queued == 0 && refAlive
    {
      DropKeepsInv(Abs(), h, t, accepted);
      if strong == 1 && !handles[h].nulled {
        LastHasReference(Abs(), h);
        SettleFate(t, accepted);
      }
      strong := strong - 1;
      handles := handles - {h};
    }

    /** The last handle still has the reference: give it up here, post it, or abandon it. */
    method SettleFate(t: Tid, accepted: bool)
      requires refCount == 1
      modifies `fates, `queued, `refAlive, `refCount, `unrefResults, `touchedBy, `deletes, `misused
      ensures Abs() == old(Abs()).(sh := FateOnDrop(old(Abs()).sh, t, accepted))
    {
      if destroyed {
        fates := fates + [Abandoned];
      } else if t !in registered {
        if accepted { queued := queued + 1; }
        fates := fates + [if accepted then Posted else Abandoned];
      } else {
        fates := fates + [DirectlyDeleted];
        GiveUp(t);
      }
    }
  }
}
