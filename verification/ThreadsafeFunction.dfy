/**
 One threadsafe function shared by many threads: the `Arc` around its handle, the `aborted` flag behind a
 reader-writer lock, the handle's own drop, and the finalize callback that only holds a `Weak`.

 Taking a lock, what is done under it and giving it back are separate steps, so operations of different threads
 overlap as far as the lock lets them. `log` lists the N-API calls made on the raw function, and the moment the
 finalize callback marked a live handle.
 */
module ThreadsafeFunction {
  import opened Machine

  datatype Raw = CallRaw | RefRaw | UnrefRaw | ReleaseRaw | AbortRaw | Finalized

  datatype Kind = Call | Refer | Unref | CloneInto(k: nat)

  /** An operation under the read lock; `saw` is the flag it read, `store` what it will write to `referred`. */
  datatype Reader = Reader(obj: nat, kind: Kind, saw: bool, acted: bool, store: Option<bool>)

  datatype Writer = Free | Aborting(obj: nat, released: bool, done: bool) | Finalizing(done: bool)

  datatype HandleDrop = NotYet | Due | Entered(saw: bool) | Done

  datatype FinalizeCb = NotRun | Upgraded | Ran(found: bool)

  datatype State = State(
    objs: set<nat>, strong: nat, aborted: bool, referred: bool,
    readers: map<nat, Reader>, writer: Writer,
    drop: HandleDrop, fin: FinalizeCb, log: seq<Raw>)

  datatype Event =
    | ReadLock(op: nat, obj: nat, kind: Kind) | ReadAct(op: nat) | ReadUnlock(op: nat)
    | AbortLock(obj: nat) | AbortRelease | AbortSet | AbortUnlock
    | DropObject(obj: nat)
    | HandleDropLock | HandleDropAct
    | FinalizeUpgrade | FinalizeLock | FinalizeSet | FinalizeUnlock

  const INIT := State({0}, 1, false, true, map[], Free, NotYet, NotRun, [])

  /** Give up one strong reference; the last one starts the drop of the handle. */
  function DropStrong(s: State): State
    requires s.strong > 0
  {
    s.(strong := s.strong - 1, drop := if s.strong == 1 then Due else s.drop)
  }

  function Act(s: State, op: nat, r: Reader): State
  {
    var done := r.(acted := true);
    if r.saw then s.(readers := s.readers[op := done])  // Closing, or the panic of clone
    else match r.kind
      case Call => s.(readers := s.readers[op := done], log := s.log + [CallRaw])
      case Refer =>
        if s.referred then s.(readers := s.readers[op := done])
        else s.(readers := s.readers[op := done.(store := Some(true))], log := s.log + [RefRaw])
      case Unref =>
        if !s.referred then s.(readers := s.readers[op := done])
        else s.(readers := s.readers[op := done.(store := Some(false))], log := s.log + [UnrefRaw])
      case CloneInto(k) =>
        if k in s.objs then s.(readers := s.readers[op := done])
        else s.(readers := s.readers[op := done], objs := s.objs + {k}, strong := s.strong + 1)
  }

  /** A borrowed object cannot be dropped. */
  ghost predicate InUse(s: State, obj: nat)
  {
    || (s.writer.Aborting? && s.writer.obj == obj)
    || exists op :: op in s.readers && s.readers[op].obj == obj
  }

  ghost function Step(s: State, e: Event): Option<State>
  {
    match e
    case ReadLock(op, obj, kind) =>
      if s.writer == Free && obj in s.objs && op !in s.readers then
        Some(s.(readers := s.readers[op := Reader(obj, kind, s.aborted, false, None)]))
      else None
    case ReadAct(op) =>
      if op in s.readers && !s.readers[op].acted then Some(Act(s, op, s.readers[op])) else None
    case ReadUnlock(op) =>
      if op in s.readers && s.readers[op].acted then
        Some(s.(readers := s.readers - {op},
                referred := match s.readers[op].store case Some(b) => b case None => s.referred))
      else None
    case AbortLock(obj) =>
      if s.writer == Free && s.readers == map[] && obj in s.objs then Some(s.(writer := Aborting(obj, false, false)))
      else None
    case AbortRelease =>
      if s.writer.Aborting? && !s.writer.released && !s.writer.done then
        if s.aborted then Some(s.(writer := s.writer.(done := true)))
        else Some(s.(writer := s.writer.(released := true), log := s.log + [AbortRaw]))
      else None
    case AbortSet =>
      if s.writer.Aborting? && s.writer.released && !s.writer.done then
        Some(s.(writer := s.writer.(done := true), aborted := true))
      else None
    case AbortUnlock => if s.writer.Aborting? && s.writer.done then Some(s.(writer := Free)) else None
    case DropObject(obj) =>
      if obj in s.objs && !InUse(s, obj) && s.strong > 0 then Some(DropStrong(s.(objs := s.objs - {obj}))) else None
    case HandleDropLock => if s.drop == Due && s.writer == Free then Some(s.(drop := Entered(s.aborted))) else None
    case HandleDropAct =>
      if s.drop.Entered? then Some(s.(drop := Done, log := if s.drop.saw then s.log else s.log + [ReleaseRaw]))
      else None
    case FinalizeUpgrade =>
      if s.fin != NotRun then None
      else if s.strong > 0 then Some(s.(fin := Upgraded, strong := s.strong + 1))
      else Some(s.(fin := Ran(false)))
    case FinalizeLock =>
      if s.fin == Upgraded && s.writer == Free && s.readers == map[] then Some(s.(writer := Finalizing(false)))
      else None
    case FinalizeSet =>
      if s.writer == Finalizing(false) then
        Some(s.(writer := Finalizing(true), aborted := true, log := if s.aborted then s.log else s.log + [Finalized]))
      else None
    case FinalizeUnlock =>
      if s.writer == Finalizing(true) && s.strong > 0 then Some(DropStrong(s.(writer := Free, fin := Ran(true))))
      else None
  }

  // ---------------------------------------------------------------------------------------------------------

  /** Entries that leave the raw function usable. */
  predicate OpenEntry(r: Raw)
  {
    r == CallRaw || r == RefRaw || r == UnrefRaw
  }

  ghost predicate AllOpen(log: seq<Raw>)
  {
    forall i :: 0 <= i < |log| ==> OpenEntry(log[i])
  }

  /** Nothing follows a release, an abort or the finalization of a live handle. */
  ghost predicate ClosedBy(log: seq<Raw>, last: Raw)
  {
    log != [] && AllOpen(log[..|log| - 1]) && log[|log| - 1] == last
  }

  function Held(s: State): (n: nat)
  {
    if s.fin == Upgraded then 1 else 0
  }

  ghost predicate LockInv(s: State)
  {
    && (s.writer != Free ==> s.readers == map[])
    && (s.writer.Aborting? ==> s.writer.obj in s.objs)
    && (s.writer.Finalizing? ==> s.fin == Upgraded)
    && (forall op :: op in s.readers ==> s.readers[op].obj in s.objs && s.readers[op].saw == s.aborted)
  }

  ghost predicate CountInv(s: State)
  {
    && s.strong == |s.objs| + Held(s)
    && (s.drop == NotYet <==> s.strong > 0)
    && (s.drop.Entered? ==> s.drop.saw == s.aborted)
  }

  ghost predicate LogInv(s: State)
  {
    if s.aborted then ClosedBy(s.log, AbortRaw) || ClosedBy(s.log, Finalized)
    else if s.writer.Aborting? && s.writer.released then ClosedBy(s.log, AbortRaw)
    else if s.drop == Done then ClosedBy(s.log, ReleaseRaw)
    else AllOpen(s.log)
  }

  ghost predicate StageInv(s: State)
  {
    && (s.writer.Aborting? && s.writer.done ==> s.aborted)
    && (s.writer.Aborting? && s.writer.released && !s.writer.done ==> !s.aborted)
    && (s.writer == Finalizing(true) ==> s.aborted)
    && (s.fin == Ran(true) ==> s.aborted)
  }

  ghost predicate Inv(s: State)
  {
    LockInv(s) && CountInv(s) && LogInv(s) && StageInv(s)
  }

  lemma StepKeepsLocks(s: State, e: Event)
    requires Inv(s) && Step(s, e).Some?
    ensures LockInv(Step(s, e).value) && StageInv(Step(s, e).value)
  {
    var t := Step(s, e).value;
    if s.drop != NotYet { assert s.objs == {}; }
    if e.DropObject? {
      forall op | op in t.readers ensures t.readers[op].obj in t.objs { assert op in s.readers; }
    }
  }

  lemma StepKeepsCounts(s: State, e: Event)
    requires Inv(s) && Step(s, e).Some?
    ensures CountInv(Step(s, e).value)
  {
    if s.drop != NotYet { assert s.objs == {}; }
    match e
    case ReadAct(op) => ActKeepsCounts(s, op, s.readers[op]);
    case DropObject(obj) => assert |s.objs - {obj}| == |s.objs| - 1;
    case _ => OthersKeepCounts(s, e);
  }

  lemma OthersKeepCounts(s: State, e: Event)
    requires Inv(s) && Step(s, e).Some? && !e.ReadAct? && !e.DropObject?
    ensures CountInv(Step(s, e).value)
  {
    if s.drop != NotYet { assert s.objs == {}; }
    assert Step(s, e).value.objs == s.objs;
  }

  lemma ActKeepsCounts(s: State, op: nat, r: Reader)
    requires CountInv(s) && s.drop == NotYet
    ensures CountInv(Act(s, op, r))
  {
    if r.kind.CloneInto? && r.kind.k !in s.objs { assert |s.objs + {r.kind.k}| == |s.objs| + 1; }
  }

  lemma StepKeepsLog(s: State, e: Event)
    requires Inv(s) && Step(s, e).Some?
    ensures LogInv(Step(s, e).value)
  {
    if Writes(e) { WriteKeepsLog(s, e); } else { OthersKeepLog(s, e); }
  }

  /** The steps that make an N-API call, or mark the handle finalized. */
  predicate Writes(e: Event)
  {
    e.ReadAct? || e.AbortRelease? || e.HandleDropAct? || e.FinalizeSet?
  }

  lemma WriteKeepsLog(s: State, e: Event)
    requires Inv(s) && Step(s, e).Some? && Writes(e)
    ensures LogInv(Step(s, e).value)
  {
    if s.drop != NotYet { assert s.objs == {}; }
    match e
    case ReadAct(op) => ActKeepsLog(s, op);
    case AbortRelease => LogGrows(s.log, AbortRaw);
    case HandleDropAct => LogGrows(s.log, ReleaseRaw);
    case FinalizeSet => LogGrows(s.log, Finalized);
  }

  lemma LogGrows(log: seq<Raw>, r: Raw)
    ensures (log + [r])[..|log|] == log
    ensures AllOpen(log) ==> ClosedBy(log + [r], r) && (OpenEntry(r) ==> AllOpen(log + [r]))
  {
    assert (log + [r])[..|log|] == log;
  }

  lemma ActWrites(s: State, op: nat, r: Reader)
    ensures var t := Act(s, op, r);
            && t.aborted == s.aborted && t.writer == s.writer && t.drop == s.drop
            && (r.saw ==> t.log == s.log)
            && (t.log == s.log || t.log == s.log + [CallRaw] || t.log == s.log + [RefRaw]
                || t.log == s.log + [UnrefRaw])
  {}

  lemma ReaderHoldsOff(s: State, op: nat)
    requires Inv(s) && op in s.readers
    ensures s.writer == Free && s.drop == NotYet && s.readers[op].saw == s.aborted
  {
    assert s.readers[op].obj in s.objs;
  }

  lemma OpenEntryKeepsLog(s: State, t: State, r: Raw)
    requires LogInv(s) && !s.aborted && s.writer == Free && s.drop == NotYet && OpenEntry(r)
    requires !t.aborted && t.writer == Free && t.drop == NotYet && t.log == s.log + [r]
    ensures LogInv(t)
  {}

  lemma ActKeepsLog(s: State, op: nat)
    requires Inv(s) && Step(s, ReadAct(op)).Some?
    ensures LogInv(Step(s, ReadAct(op)).value)
  {
    var t := Step(s, ReadAct(op)).value;
    ReaderHoldsOff(s, op);
    ActWrites(s, op, s.readers[op]);
    if t.log == s.log + [CallRaw] { OpenEntryKeepsLog(s, t, CallRaw); }
    else if t.log == s.log + [RefRaw] { OpenEntryKeepsLog(s, t, RefRaw); }
    else if t.log == s.log + [UnrefRaw] { OpenEntryKeepsLog(s, t, UnrefRaw); }
  }

  lemma OthersKeepLog(s: State, e: Event)
    requires Inv(s) && Step(s, e).Some? && !Writes(e)
    ensures LogInv(Step(s, e).value)
  {
    if s.drop != NotYet { assert s.objs == {}; }
  }

  lemma {:induction false} ReachableInv(es: seq<Event>)
    requires Run(Step, INIT, es).Some?
    ensures Inv(Run(Step, INIT, es).value)
  {
    assert Inductive(Step, Inv) by {
      forall s, e | Inv(s) && Step(s, e).Some? ensures Inv(Step(s, e).value) {
        StepKeepsLocks(s, e);
        StepKeepsCounts(s, e);
        StepKeepsLog(s, e);
      }
    }
    Invariance(Step, Inv, INIT, es);
  }

  function Releases(log: seq<Raw>): (n: nat)
  {
    if log == [] then 0
    else Releases(log[..|log| - 1]) + if log[|log| - 1] == ReleaseRaw || log[|log| - 1] == AbortRaw then 1 else 0
  }

  lemma {:induction false} OpenLogReleasesNothing(log: seq<Raw>)
    requires AllOpen(log)
    ensures Releases(log) == 0 && Finalized !in log
  {
    if log == [] {
    } else {
      OpenLogReleasesNothing(log[..|log| - 1]);
      assert OpenEntry(log[|log| - 1]);
      assert forall i :: 0 <= i < |log| ==> OpenEntry(log[i]);
    }
  }

  lemma {:induction false} ClosedLogReleases(log: seq<Raw>, last: Raw)
    requires ClosedBy(log, last)
    ensures Releases(log) == if last == ReleaseRaw || last == AbortRaw then 1 else 0
    ensures !OpenEntry(last) ==> (Finalized in log <==> last == Finalized)
  {
    OpenLogReleasesNothing(log[..|log| - 1]);
    assert log == log[..|log| - 1] + [last];
  }

  /**
   Over all clones, threads, aborts and drops: the raw function is released at most once; the entry that ends its
   use is the last one ever made; and once the handle is gone, it was released exactly once unless the environment
   finalized it while the handle was alive.
   */
  lemma {:induction false} ReleasedOnce(es: seq<Event>)
    requires Run(Step, INIT, es).Some?
    ensures var t := Run(Step, INIT, es).value;
            && Releases(t.log) <= 1
            && (forall i :: 0 <= i < |t.log| - 1 ==> OpenEntry(t.log[i]))
            && (t.drop == Done ==> (Releases(t.log) == 1 <==> Finalized !in t.log))
  {
    ReachableInv(es);
    var log := Run(Step, INIT, es).value.log;
    if AllOpen(log) {
      OpenLogReleasesNothing(log);
    } else {
      var last := log[|log| - 1];
      assert ClosedBy(log, last);
      ClosedLogReleases(log, last);
      assert forall i :: 0 <= i < |log| - 1 ==> log[..|log| - 1][i] == log[i];
    }
  }

  /** The aborting release overlaps no call, ref, unref or clone. */
  lemma {:induction false} AbortOverlapsNothing(es: seq<Event>)
    requires Run(Step, INIT, es).Some?
    ensures var t := Run(Step, INIT, es).value;
            t.writer != Free ==> t.readers == map[] && forall op, obj, kind :: Step(t, ReadLock(op, obj, kind)).None?
  {
    ReachableInv(es);
  }

  /** After an abort, or a finalize callback that found the handle alive, no N-API call is made through it again. */
  lemma {:induction false} NoUseAfterAbort(es: seq<Event>, more: seq<Event>)
    requires Run(Step, INIT, es).Some? && Run(Step, Run(Step, INIT, es).value, more).Some?
    requires var t := Run(Step, INIT, es).value; t.aborted || t.fin == Ran(true)
    ensures Run(Step, Run(Step, INIT, es).value, more).value.log == Run(Step, INIT, es).value.log
    decreases |more|
  {
    var t := Run(Step, INIT, es).value;
    ReachableInv(es);
    if more == [] {
    } else {
      var u := Step(t, more[0]).value;
      RunSplit(Step, INIT, es, [more[0]]);
      assert Run(Step, t, [more[0]]) == Some(u) by { assert [more[0]][1..] == []; }
      AbortedStepLogsNothing(t, more[0]);
      NoUseAfterAbort(es + [more[0]], more[1..]);
    }
  }

  lemma AbortedStepLogsNothing(s: State, e: Event)
    requires Inv(s) && s.aborted && Step(s, e).Some?
    ensures Step(s, e).value.aborted && Step(s, e).value.log == s.log
  {
    if s.drop != NotYet { assert s.objs == {}; }
  }

  // ---------------------------------------------------------------------------------------------------------
  // Every N-API call, told by the events of the run
  // ---------------------------------------------------------------------------------------------------------

  /** Where operation op last took the read lock. */
  function LastLock(es: seq<Event>, op: nat): (i: int)
    ensures -1 <= i < |es|
    ensures 0 <= i ==> es[i].ReadLock? && es[i].op == op
    ensures forall j :: i < j < |es| ==> !(es[j].ReadLock? && es[j].op == op)
  {
    if es == [] then -1
    else if es[|es| - 1].ReadLock? && es[|es| - 1].op == op then |es| - 1
    else LastLock(es[..|es| - 1], op)
  }

  /** Where it last acted under that lock. */
  function LastAct(es: seq<Event>, op: nat): (i: int)
    ensures -1 <= i < |es|
    ensures 0 <= i ==> es[i] == ReadAct(op)
    ensures forall j :: i < j < |es| ==> es[j] != ReadAct(op)
  {
    if es == [] then -1
    else if es[|es| - 1] == ReadAct(op) then |es| - 1
    else LastAct(es[..|es| - 1], op)
  }

  /** An abort has set the flag, or a finalize callback has. */
  predicate Closed(es: seq<Event>)
  {
    AbortSet in es || FinalizeSet in es
  }

  /** What an operation calls on an open function: always for a call, to flip the flag for a ref or unref. */
  function Wants(kind: Kind, referred: bool): (r: Option<Raw>)
  {
    match kind
    case Call => Some(CallRaw)
    case Refer => if referred then None else Some(RefRaw)
    case Unref => if referred then Some(UnrefRaw) else None
    case CloneInto(_) => None
  }

  /** The call that operation op, acting after these events, owes: none if its lock was taken after the closing. */
  function Owed(es: seq<Event>, op: nat): (r: Option<Raw>)
    decreases |es|, 1
  {
    var i := LastLock(es, op);
    if i < 0 || Closed(es[..i]) then None else Wants(es[i].kind, Referred(es))
  }

  /** What an operation that made this call writes to the `referred` flag. */
  function Stores(r: Option<Raw>): (b: Option<bool>)
  {
    if r == Some(RefRaw) then Some(true) else if r == Some(UnrefRaw) then Some(false) else None
  }

  /** The flag after these events: what the last unref or ref to give its lock back has written. */
  function Referred(es: seq<Event>): (b: bool)
    decreases |es|, 0
  {
    if es == [] then true
    else
      var pre, e := es[..|es| - 1], es[|es| - 1];
      var a := if e.ReadUnlock? then LastAct(pre, e.op) else -1;
      if a < 0 then Referred(pre)
      else match Stores(Owed(es[..a], e.op)) case Some(b) => b case None => Referred(pre)
  }

  /** The entry that event e adds after the events before it. */
  function Entry(pre: seq<Event>, e: Event): (log: seq<Raw>)
  {
    match e
    case ReadAct(op) => (match Owed(pre, op) case Some(r) => [r] case None => [])
    case AbortRelease => if Closed(pre) then [] else [AbortRaw]
    case HandleDropAct => if Closed(pre) then [] else [ReleaseRaw]
    case FinalizeSet => if Closed(pre) then [] else [Finalized]
    case _ => []
  }

  function Entries(es: seq<Event>): (log: seq<Raw>)
  {
    if es == [] then [] else Entries(es[..|es| - 1]) + Entry(es[..|es| - 1], es[|es| - 1])
  }

  /** How a reader stands to the events. */
  ghost predicate ReaderTold(es: seq<Event>, op: nat, r: Reader)
  {
    var i, a := LastLock(es, op), LastAct(es, op);
    && 0 <= i && es[i] == ReadLock(op, r.obj, r.kind) && r.saw == Closed(es[..i])
    && r.acted == (i < a)
    && r.store == if i < a then Stores(Owed(es[..a], op)) else None
  }

  ghost predicate Told(es: seq<Event>, t: State)
  {
    && t.aborted == Closed(es) && t.referred == Referred(es) && t.log == Entries(es)
    && forall op :: op in t.readers ==> ReaderTold(es, op, t.readers[op])
  }

  /** The events of other operations leave what is told of this one. */
  lemma OtherEvents(es: seq<Event>, op: nat, r: Reader)
    requires es != [] && ReaderTold(es[..|es| - 1], op, r)
    requires var e := es[|es| - 1]; !(e.ReadLock? && e.op == op) && e != ReadAct(op)
    ensures ReaderTold(es, op, r)
  {
    var pre := es[..|es| - 1];
    var i, a := LastLock(pre, op), LastAct(pre, op);
    assert LastLock(es, op) == i && LastAct(es, op) == a;
    assert pre[..i] == es[..i];
    if i < a { assert pre[..a] == es[..a]; }
  }

  lemma LockTells(es: seq<Event>, op: nat, r: Reader)
    requires es != [] && es[|es| - 1] == ReadLock(op, r.obj, r.kind)
    requires r.saw == Closed(es[..|es| - 1]) && !r.acted && r.store == None
    ensures ReaderTold(es, op, r)
  {
    assert LastLock(es, op) == |es| - 1;
  }

  lemma ActTells(es: seq<Event>, op: nat, r: Reader)
    requires es != [] && es[|es| - 1] == ReadAct(op) && ReaderTold(es[..|es| - 1], op, r)
    ensures ReaderTold(es, op, r.(acted := true, store := Stores(Owed(es[..|es| - 1], op))))
  {
    var pre := es[..|es| - 1];
    assert LastLock(es, op) == LastLock(pre, op) && LastAct(es, op) == |es| - 1;
    assert pre[..LastLock(pre, op)] == es[..LastLock(pre, op)];
  }

  lemma ActCalls(s: State, op: nat, r: Reader)
    requires r.store == None
    ensures var t, call := Act(s, op, r), if r.saw then None else Wants(r.kind, s.referred);
            && t.log == s.log + (match call case Some(c) => [c] case None => [])
            && t.readers == s.readers[op := r.(acted := true, store := Stores(call))]
            && t.aborted == s.aborted && t.referred == s.referred && t.writer == s.writer && t.drop == s.drop
  {
    assert s.log + [] == s.log;
    match r.kind
    case Call =>
    case Refer =>
    case Unref =>
    case CloneInto(_) =>
  }

  /** Acting makes the call that is owed. */
  lemma ActPays(pre: seq<Event>, s: State, op: nat)
    requires Told(pre, s) && op in s.readers && !s.readers[op].acted
    ensures var t := Act(s, op, s.readers[op]);
            && t.log == s.log + (match Owed(pre, op) case Some(r) => [r] case None => [])
            && t.readers == s.readers[op := s.readers[op].(acted := true, store := Stores(Owed(pre, op)))]
            && t.aborted == s.aborted && t.referred == s.referred
  {
    var r := s.readers[op];
    assert ReaderTold(pre, op, r);
    NotActed(pre, op, r);
    ActCalls(s, op, r);
  }

  lemma NotActed(pre: seq<Event>, op: nat, r: Reader)
    requires ReaderTold(pre, op, r) && !r.acted
    ensures r.store == None
    ensures Owed(pre, op) == if r.saw then None else Wants(r.kind, Referred(pre))
  {}

  lemma ActStaysTold(es: seq<Event>, s: State, op: nat)
    requires es != [] && es[|es| - 1] == ReadAct(op) && Told(es[..|es| - 1], s) && Step(s, ReadAct(op)).Some?
    ensures Told(es, Step(s, ReadAct(op)).value)
  {
    var pre, t := es[..|es| - 1], Step(s, ReadAct(op)).value;
    ClosedLast(es);
    ActPays(pre, s, op);
    forall x | x in t.readers ensures ReaderTold(es, x, t.readers[x]) {
      if x == op { ActTells(es, op, s.readers[op]); } else { OtherEvents(es, x, s.readers[x]); }
    }
  }

  lemma ClosedLast(es: seq<Event>)
    requires es != []
    ensures var e := es[|es| - 1]; Closed(es) <==> Closed(es[..|es| - 1]) || e == AbortSet || e == FinalizeSet
  {
    InLast(es, AbortSet);
    InLast(es, FinalizeSet);
  }

  /** Taking a lock and giving it back call nothing. */
  lemma QuietEntry(es: seq<Event>)
    requires es != [] && (es[|es| - 1].ReadLock? || es[|es| - 1].ReadUnlock?)
    ensures Entries(es) == Entries(es[..|es| - 1]) && Closed(es) == Closed(es[..|es| - 1])
    ensures es[|es| - 1].ReadLock? ==> Referred(es) == Referred(es[..|es| - 1])
  {
    ClosedLast(es);
    assert Entries(es[..|es| - 1]) + [] == Entries(es[..|es| - 1]);
  }

  lemma OtherReaders(es: seq<Event>, s: State, t: State, op: nat)
    requires es != [] && (es[|es| - 1] == ReadUnlock(op) || (es[|es| - 1].ReadLock? && es[|es| - 1].op == op))
    requires forall x :: x in s.readers ==> ReaderTold(es[..|es| - 1], x, s.readers[x])
    requires forall x :: x in t.readers && x != op ==> x in s.readers && t.readers[x] == s.readers[x]
    ensures forall x :: x in t.readers && x != op ==> ReaderTold(es, x, t.readers[x])
  {
    forall x | x in t.readers && x != op ensures ReaderTold(es, x, t.readers[x]) { OtherEvents(es, x, s.readers[x]); }
  }

  lemma UnlockWrites(es: seq<Event>, s: State, op: nat)
    requires es != [] && es[|es| - 1] == ReadUnlock(op) && op in s.readers && s.readers[op].acted
    requires s.referred == Referred(es[..|es| - 1]) && ReaderTold(es[..|es| - 1], op, s.readers[op])
    ensures Step(s, ReadUnlock(op)).Some? && Step(s, ReadUnlock(op)).value.referred == Referred(es)
  {
    var pre := es[..|es| - 1];
    assert pre[..LastAct(pre, op)] == es[..LastAct(pre, op)];
  }

  lemma UnlockStaysTold(es: seq<Event>, s: State, op: nat)
    requires es != [] && es[|es| - 1] == ReadUnlock(op) && Told(es[..|es| - 1], s) && Step(s, ReadUnlock(op)).Some?
    ensures Told(es, Step(s, ReadUnlock(op)).value)
  {
    var t := Step(s, ReadUnlock(op)).value;
    UnlockWrites(es, s, op);
    QuietEntry(es);
    OtherReaders(es, s, t, op);
  }

  lemma LockStaysTold(es: seq<Event>, s: State, e: Event)
    requires es != [] && es[|es| - 1] == e && e.ReadLock? && Told(es[..|es| - 1], s) && Step(s, e).Some?
    ensures Told(es, Step(s, e).value)
  {
    var t := Step(s, e).value;
    QuietEntry(es);
    LockTells(es, e.op, t.readers[e.op]);
    OtherReaders(es, s, t, e.op);
  }

  /** The abort, the drop of the handle and the finalize callback. */
  lemma OthersWrite(pre: seq<Event>, s: State, e: Event)
    requires Inv(s) && Told(pre, s) && Step(s, e).Some? && !e.ReadLock? && !e.ReadAct? && !e.ReadUnlock?
    ensures var t := Step(s, e).value;
            && t.log == s.log + Entry(pre, e) && t.referred == s.referred && t.readers == s.readers
            && (t.aborted <==> s.aborted || e == AbortSet || e == FinalizeSet)
  {}

  lemma OthersStayTold(es: seq<Event>, s: State, e: Event)
    requires es != [] && es[|es| - 1] == e && Inv(s) && Told(es[..|es| - 1], s) && Step(s, e).Some?
    requires !e.ReadLock? && !e.ReadAct? && !e.ReadUnlock?
    ensures Told(es, Step(s, e).value)
  {
    var pre, t := es[..|es| - 1], Step(s, e).value;
    ClosedLast(es);
    OthersWrite(pre, s, e);
    forall x | x in t.readers ensures ReaderTold(es, x, t.readers[x]) { OtherEvents(es, x, s.readers[x]); }
  }

  /**
   The N-API calls made are exactly the ones the events ask for, in their order: one for every call whose lock was
   taken before the function was closed; one for every ref and unref so taken that finds the flag the other way; the
   release of the first abort, or of the dropped handle, or the mark of the finalize callback, whichever comes first.
   The two flags are what the events made them.
   */
  lemma {:induction false} CallsByEvents(es: seq<Event>)
    requires Run(Step, INIT, es).Some?
    ensures var t := Run(Step, INIT, es).value;
            t.log == Entries(es) && t.aborted == Closed(es) && t.referred == Referred(es)
  {
    RunIsTold(es);
  }

  lemma {:induction false} RunIsTold(es: seq<Event>)
    requires Run(Step, INIT, es).Some?
    ensures Told(es, Run(Step, INIT, es).value)
    decreases |es|
  {
    if es == [] {
    } else {
      var pre, e := es[..|es| - 1], es[|es| - 1];
      RunLast(Step, INIT, es);
      RunIsTold(pre);
      ReachableInv(pre);
      var s := Run(Step, INIT, pre).value;
      match e
      case ReadLock(_, _, _) => LockStaysTold(es, s, e);
      case ReadAct(op) => ActStaysTold(es, s, op);
      case ReadUnlock(op) => UnlockStaysTold(es, s, op);
      case _ => OthersStayTold(es, s, e);
    }
  }

  /** The object that operation op, acting after these events, makes: none if its lock was taken after the closing. */
  function Cloned(es: seq<Event>, op: nat): (objs: set<nat>)
  {
    var i := LastLock(es, op);
    if i < 0 || Closed(es[..i]) || !es[i].kind.CloneInto? then {} else {es[i].kind.k}
  }

  /** The objects these events leave: the first one and the clones, less those dropped. */
  function Objects(es: seq<Event>): (objs: set<nat>)
  {
    if es == [] then {0}
    else
      var pre, e := es[..|es| - 1], es[|es| - 1];
      match e
      case ReadAct(op) => Objects(pre) + Cloned(pre, op)
      case DropObject(obj) => Objects(pre) - {obj}
      case _ => Objects(pre)
  }

  lemma ActClones(pre: seq<Event>, s: State, op: nat)
    requires Told(pre, s) && op in s.readers
    ensures Act(s, op, s.readers[op]).objs == s.objs + Cloned(pre, op)
  {
    assert ReaderTold(pre, op, s.readers[op]);
  }

  lemma ObjectsAfter(s: State, e: Event)
    requires Step(s, e).Some? && !e.ReadAct?
    ensures Step(s, e).value.objs == if e.DropObject? then s.objs - {e.obj} else s.objs
  {}

  /**
   The objects there are, are the first one and its clones less those dropped; each of them, and a finalize callback at
   work, holds the handle, whose drop is due exactly when nobody does.
   */
  lemma {:induction false} ObjectsByEvents(es: seq<Event>)
    requires Run(Step, INIT, es).Some?
    ensures var t := Run(Step, INIT, es).value;
            && t.objs == Objects(es) && t.strong == |Objects(es)| + (if t.fin == Upgraded then 1 else 0)
            && (t.drop == NotYet <==> t.strong > 0)
    decreases |es|
  {
    ReachableInv(es);
    if es == [] {
    } else {
      var pre, e := es[..|es| - 1], es[|es| - 1];
      RunLast(Step, INIT, es);
      ObjectsByEvents(pre);
      RunIsTold(pre);
      var s := Run(Step, INIT, pre).value;
      if e.ReadAct? { ActClones(pre, s, e.op); } else { ObjectsAfter(s, e); }
    }
  }

  // ---------------------------------------------------------------------------------------------------------
  // Each operation, undisturbed
  // ---------------------------------------------------------------------------------------------------------

  /** The state after a whole operation under the read lock. */
  function AfterOperation(s: State, kind: Kind): (t: State)
  {
    if s.aborted then s
    else match kind
      case Call => s.(log := s.log + [CallRaw])
      case Refer => s.(referred := true, log := s.log + if s.referred then [] else [RefRaw])
      case Unref => s.(referred := false, log := s.log + if s.referred then [UnrefRaw] else [])
      case CloneInto(k) => if k in s.objs then s else s.(objs := s.objs + {k}, strong := s.strong + 1)
  }

  /** From every state in which nobody writes, an operation on an object that exists can run, with this effect. */
  lemma OperationRuns(s: State, op: nat, obj: nat, kind: Kind)
    requires s.writer == Free && obj in s.objs && op !in s.readers
    ensures Run(Step, s, [ReadLock(op, obj, kind), ReadAct(op)] + [ReadUnlock(op)]) == Some(AfterOperation(s, kind))
  {
    var r := Reader(obj, kind, s.aborted, false, None);
    var locked := s.(readers := s.readers[op := r]);
    RunTwo(Step, s, ReadLock(op, obj, kind), ReadAct(op));
    RunOneMore(Step, s, [ReadLock(op, obj, kind), ReadAct(op)], ReadUnlock(op));
    assert Step(locked, ReadAct(op)) == Some(Act(locked, op, r));
    LeavesNoReader(s, locked, op, r);
  }

  lemma LeavesNoReader(s: State, locked: State, op: nat, r: Reader)
    requires op !in s.readers && locked == s.(readers := s.readers[op := r]) && r.store == None && r.saw == s.aborted
    ensures Step(Act(locked, op, r), ReadUnlock(op)) == Some(AfterOperation(s, r.kind))
  {
    ActCalls(locked, op, r);
    var acted := Act(locked, op, r).readers[op];
    assert s.readers[op := r][op := acted] - {op} == s.readers;
    assert s.log + [] == s.log;
  }

  /** The steps of an abort: the release, and the flag, only when it was not set. */
  function AbortSteps(obj: nat, aborted: bool): (es: seq<Event>)
  {
    [AbortLock(obj), AbortRelease] + if aborted then [AbortUnlock] else [AbortSet, AbortUnlock]
  }

  lemma AbortRuns(s: State, obj: nat)
    requires s.writer == Free && s.readers == map[] && obj in s.objs
    ensures Run(Step, s, AbortSteps(obj, s.aborted))
            == Some(s.(aborted := true, log := s.log + if s.aborted then [] else [AbortRaw]))
  {
    RunTwo(Step, s, AbortLock(obj), AbortRelease);
    if s.aborted {
      assert s.log + [] == s.log;
      RunOneMore(Step, s, [AbortLock(obj), AbortRelease], AbortUnlock);
      assert AbortSteps(obj, true) == [AbortLock(obj), AbortRelease] + [AbortUnlock];
    } else {
      var t := s.(writer := Aborting(obj, true, false), log := s.log + [AbortRaw]);
      RunSplit(Step, s, [AbortLock(obj), AbortRelease], [AbortSet, AbortUnlock]);
      RunTwo(Step, t, AbortSet, AbortUnlock);
    }
  }

  lemma LastGoes(s: State, obj: nat)
    requires Inv(s) && s.writer == Free && s.readers == map[] && s.objs == {obj} && s.fin != Upgraded
    ensures Step(s, DropObject(obj)) == Some(s.(objs := {}, strong := 0, drop := Due))
  {
    assert !InUse(s, obj) && s.strong == 1;
    assert s.objs - {obj} == {};
  }

  lemma HandleGoes(s: State)
    requires s.drop == Due && s.writer == Free
    ensures Run(Step, s, [HandleDropLock, HandleDropAct])
            == Some(s.(drop := Done, log := s.log + if s.aborted then [] else [ReleaseRaw]))
  {
    assert s.log + [] == s.log;
    RunTwo(Step, s, HandleDropLock, HandleDropAct);
  }

  /** The last object goes, and with it the handle, which releases the function unless it was closed. */
  lemma LastDropRuns(s: State, obj: nat)
    requires Inv(s) && s.writer == Free && s.readers == map[] && s.objs == {obj} && s.fin != Upgraded
    ensures Run(Step, s, [DropObject(obj), HandleDropLock, HandleDropAct])
            == Some(s.(objs := {}, strong := 0, drop := Done, log := s.log + if s.aborted then [] else [ReleaseRaw]))
  {
    LastGoes(s, obj);
    HandleGoes(s.(objs := {}, strong := 0, drop := Due));
    assert [DropObject(obj), HandleDropLock, HandleDropAct][1..] == [HandleDropLock, HandleDropAct];
  }

  /** What the finalize callback has once it holds the lock. */
  function Finalizes(s: State): (t: State)
  {
    s.(strong := s.strong + 1, fin := Upgraded, writer := Finalizing(false))
  }

  lemma FinalizeLocks(s: State)
    requires s.writer == Free && s.readers == map[] && s.strong > 0 && s.fin == NotRun
    ensures Run(Step, s, [FinalizeUpgrade, FinalizeLock]) == Some(Finalizes(s))
  {
    RunTwo(Step, s, FinalizeUpgrade, FinalizeLock);
  }

  lemma FinalizeSets(s: State)
    requires s.writer == Free && s.strong > 0
    ensures Run(Step, Finalizes(s), [FinalizeSet, FinalizeUnlock])
            == Some(s.(aborted := true, fin := Ran(true), log := s.log + if s.aborted then [] else [Finalized]))
  {
    assert s.log + [] == s.log;
    RunTwo(Step, Finalizes(s), FinalizeSet, FinalizeUnlock);
  }

  /** The finalize callback finds the handle alive and closes it; what it upgraded it gives back. */
  lemma FinalizeRuns(s: State)
    requires s.writer == Free && s.readers == map[] && s.strong > 0 && s.fin == NotRun
    ensures Run(Step, s, [FinalizeUpgrade, FinalizeLock] + [FinalizeSet, FinalizeUnlock])
            == Some(s.(aborted := true, fin := Ran(true), log := s.log + if s.aborted then [] else [Finalized]))
  {
    FinalizeLocks(s);
    FinalizeSets(s);
    RunSplit(Step, s, [FinalizeUpgrade, FinalizeLock], [FinalizeSet, FinalizeUnlock]);
  }
}
