/**
 Async tasks and their abort signals: who settles the promise.

 The work is queued, computed on a worker thread, and completed on the JS thread; the abort callback of the signal,
 or `AsyncWorkPromise::cancel`, runs on the JS thread at any moment after submission. They share one status byte:
 0 not started, 1 completed, 2 cancelled.

 Completion calls user code three times, `resolve` or `reject`, the conversion of the output, and `finally`, and any
 of them may fire the abort. So it is taken in the steps between these calls.
 */
module AsyncTask {
  import opened Machine

  /** A task with an abort signal, one without, or one whose AsyncWorkPromise the caller kept and may cancel. */
  datatype Kind = WithSignal | Plain | Cancellable

  /** `Dequeued`: N-API cancelled the work before a worker took it. */
  datatype Stage =
    | Queued | Dequeued | Running | Computed
    | Asked(dequeued: bool)  // `complete` has called resolve or reject
    | Cleared                // it has found no cancellation; the output is being converted
    | Finishing              // it has settled, or skipped that; `finally` is running
    | Completed              // it has stored status 1

  datatype Settlement = Resolved | Rejected | AbortError

  /**
   `settled` lists the calls that settle the deferred; `abort` and `cancel` record the stage in which the abort fired
   and the first cancel came.
   */
  datatype Task = Task(
    kind: Kind, stage: Stage, status: nat, settled: seq<Settlement>,
    abort: Option<Stage>, cancel: Option<Stage>, resolvedZeroed: bool)

  datatype TaskEvent =
    | TakeWork | FinishWork | Abort | Cancel
    | Ask                 // `complete` begins: the outcome goes to resolve or reject
    | Check               // it reads the N-API status and the status byte
    | Settle(ok: bool)    // ok: converting the output gave a JS value
    | StoreStatus

  datatype Event = Submit(kind: Kind) | On(i: nat, e: TaskEvent)

  function Fresh(kind: Kind): Task
  {
    Task(kind, Queued, 0, [], None, None, false)
  }

  /** napi_cancel_async_work has an effect only on work no worker has taken. */
  function NapiCancel(stage: Stage): Stage
  {
    if stage == Queued then Dequeued else stage
  }

  function FirstOf(seen: Option<Stage>, stage: Stage): Option<Stage>
  {
    if seen.None? then Some(stage) else seen
  }

  function TaskStep(t: Task, e: TaskEvent): Option<Task>
  {
    match e
    case TakeWork => if t.stage == Queued then Some(t.(stage := Running)) else None
    case FinishWork => if t.stage == Running then Some(t.(stage := Computed)) else None
    case Abort =>
      if t.kind != WithSignal || t.abort.Some? then None
      else if t.status == 1 then Some(t.(abort := Some(t.stage)))
      else Some(t.(abort := Some(t.stage), stage := NapiCancel(t.stage), status := 2,
                   settled := t.settled + [AbortError]))
    case Cancel =>
      if t.kind != Cancellable then None
      else Some(t.(stage := NapiCancel(t.stage), status := 2, cancel := FirstOf(t.cancel, t.stage)))
    case Ask =>
      if t.stage == Computed || t.stage == Dequeued then
        Some(t.(stage := Asked(t.stage == Dequeued), resolvedZeroed := t.stage == Dequeued))
      else None
    case Check =>
      if !t.stage.Asked? then None
      else Some(t.(stage := if t.stage.dequeued || t.status == 2 then Finishing else Cleared))
    case Settle(ok) =>
      if t.stage == Cleared then
        Some(t.(stage := Finishing, settled := t.settled + [if ok then Resolved else Rejected]))
      else None
    case StoreStatus => if t.stage == Finishing then Some(t.(stage := Completed, status := 1)) else None
  }

  function Step(ts: seq<Task>, e: Event): Option<seq<Task>>
  {
    match e
    case Submit(kind) => Some(ts + [Fresh(kind)])
    case On(i, te) =>
      if i >= |ts| then None
      else match TaskStep(ts[i], te)
        case None => None
        case Some(t) => Some(ts[i := t])
  }

  /** Before `complete` reads the status byte. */
  predicate Unchecked(stage: Stage)
  {
    stage == Queued || stage == Dequeued || stage == Running || stage == Computed || stage.Asked?
  }

  /** The event came in time for `complete` to see it. */
  predicate InTime(at: Option<Stage>)
  {
    at.Some? && Unchecked(at.value)
  }

  /** The event fell between the read of the status byte and the store of 1: from the conversion or from `finally`. */
  predicate InBetween(at: Option<Stage>)
  {
    at == Some(Cleared) || at == Some(Finishing)
  }

  /** What `complete` adds of its own once it is past its settlement. */
  predicate Answer(s: Settlement)
  {
    s == Resolved || s == Rejected
  }

  ghost predicate SettledInv(t: Task)
  {
    if Unchecked(t.stage) || InTime(t.abort) || InTime(t.cancel) then
      t.settled == if InTime(t.abort) then [AbortError] else []
    else if t.stage == Cleared then
      t.settled == if t.abort == Some(Cleared) then [AbortError] else []
    else if t.abort == Some(Cleared) then
      |t.settled| == 2 && t.settled[0] == AbortError && Answer(t.settled[1])
    else if t.abort == Some(Finishing) then
      |t.settled| == 2 && Answer(t.settled[0]) && t.settled[1] == AbortError
    else
      |t.settled| == 1 && Answer(t.settled[0])
  }

  /** A recorded stage is not after the present one. */
  predicate Past(at: Option<Stage>, now: Stage)
  {
    && (Unchecked(now) ==> at.None? || Unchecked(at.value))
    && (now == Cleared ==> at.None? || at == Some(Cleared))
    && (now == Finishing ==> at != Some(Completed))
    && (now == Queued ==> at.None?)
  }

  ghost predicate TaskInv(t: Task)
  {
    && (t.abort.Some? ==> t.kind == WithSignal)
    && (t.cancel.Some? ==> t.kind == Cancellable)
    && Past(t.abort, t.stage) && Past(t.cancel, t.stage)
    && (t.stage != Completed ==> t.status == if t.abort.Some? || t.cancel.Some? then 2 else 0)
    && (t.stage == Completed && t.kind != Cancellable ==> t.status == 1)
    && SettledInv(t)
    && (t.resolvedZeroed || t.stage == Dequeued <==> t.abort == Some(Queued) || t.cancel == Some(Queued))
    && (t.resolvedZeroed ==> !Unchecked(t.stage) || t.stage == Asked(true))
    && (t.stage.Asked? ==> t.stage.dequeued == t.resolvedZeroed)
  }

  ghost predicate Inv(ts: seq<Task>)
  {
    forall i :: 0 <= i < |ts| ==> TaskInv(ts[i])
  }

  lemma TaskStepKeepsInv(t: Task, e: TaskEvent)
    requires TaskInv(t) && TaskStep(t, e).Some?
    ensures TaskInv(TaskStep(t, e).value)
  {}

  lemma StepKeepsInv(ts: seq<Task>, e: Event)
    requires Inv(ts) && Step(ts, e).Some?
    ensures Inv(Step(ts, e).value)
  {
    match e
    case Submit(kind) =>
    case On(i, te) => TaskStepKeepsInv(ts[i], te);
  }

  lemma {:induction false} ReachableInv(es: seq<Event>)
    requires Run(Step, [], es).Some?
    ensures Inv(Run(Step, [], es).value)
  {
    assert Inductive(Step, Inv) by {
      forall s, e | Inv(s) && Step(s, e).Some? ensures Inv(Step(s, e).value) { StepKeepsInv(s, e); }
    }
    Invariance(Step, Inv, [], es);
  }

  /**
   For any number of tasks, aborts and cancels at any time: a deferred is settled at most twice, and a second time
   exactly when the abort falls between `complete`'s read of the status and its store of 1, and both have had their
   turn; then the abort and the outcome each settle it.
   */
  lemma {:induction false} SettledTwiceIff(es: seq<Event>, i: nat)
    requires Run(Step, [], es).Some? && i < |Run(Step, [], es).value|
    ensures var t := Run(Step, [], es).value[i];
            && |t.settled| <= 2
            && (|t.settled| == 2 <==> InBetween(t.abort) && t.stage != Cleared)
            && (t.stage == Completed ==> (|t.settled| == 2 <==> InBetween(t.abort)))
            && (|t.settled| == 2 ==> AbortError in t.settled && (Resolved in t.settled || Rejected in t.settled))
  {
    ReachableInv(es);
    var t := Run(Step, [], es).value[i];
    assert TaskInv(t);
    if |t.settled| == 2 { assert t.settled == [t.settled[0], t.settled[1]]; }
  }

  /**
   So a promise settles at most once if and only if no abort falls in between. It settles exactly once by the time
   `complete` has run, unless its AsyncWorkPromise was cancelled in time; and with AbortError alone exactly when the
   abort came in time.
   */
  lemma {:induction false} SettledOnce(es: seq<Event>, i: nat)
    requires Run(Step, [], es).Some? && i < |Run(Step, [], es).value|
    ensures var t := Run(Step, [], es).value[i];
            && (t.stage == Completed ==> (|t.settled| <= 1 <==> !InBetween(t.abort)))
            && (t.stage == Completed && !InBetween(t.abort) ==> (|t.settled| == 1 <==> !InTime(t.cancel)))
            && (t.kind != Cancellable && t.stage == Completed && !InBetween(t.abort) ==> |t.settled| == 1)
            && (t.stage == Completed ==> (t.settled == [AbortError] <==> InTime(t.abort)))
            && (Unchecked(t.stage) ==> t.settled == if InTime(t.abort) then [AbortError] else [])
            && (AbortError in t.settled <==> InTime(t.abort) || InBetween(t.abort))
  {
    SettledTwiceIff(es, i);
    ReachableInv(es);
    assert TaskInv(Run(Step, [], es).value[i]);
  }

  /** Once `complete` has run, nothing that happens later settles the promise again. */
  lemma {:induction false} NothingSettlesAfterComplete(es: seq<Event>, more: seq<Event>, i: nat)
    requires Run(Step, [], es).Some? && i < |Run(Step, [], es).value|
    requires Run(Step, [], es).value[i].stage == Completed
    requires Run(Step, Run(Step, [], es).value, more).Some?
    ensures i < |Run(Step, Run(Step, [], es).value, more).value|
    ensures Run(Step, Run(Step, [], es).value, more).value[i].settled == Run(Step, [], es).value[i].settled
    decreases |more|
  {
    if more == [] {
    } else {
      ReachableInv(es);
      var ts := Run(Step, [], es).value;
      assert TaskInv(ts[i]);
      RunOneMore(Step, [], es, more[0]);
      NothingSettlesAfterComplete(es + [more[0]], more[1..], i);
    }
  }

  /** `complete` hands a zeroed output to `Task::resolve` exactly for work cancelled before a worker took it. */
  lemma {:induction false} ZeroedOutputIsResolvedOnlyForDequeuedWork(es: seq<Event>, i: nat)
    requires Run(Step, [], es).Some? && i < |Run(Step, [], es).value|
    ensures var t := Run(Step, [], es).value[i];
            t.stage == Completed ==> (t.resolvedZeroed <==> t.abort == Some(Queued) || t.cancel == Some(Queued))
  {
    ReachableInv(es);
    assert TaskInv(Run(Step, [], es).value[i]);
  }

  /** The abort and the cancels of task i are on record if and only if they are among the events. */
  ghost predicate OnRecord(es: seq<Event>, i: nat, t: Task)
  {
    && (t.abort.Some? <==> On(i, Abort) in es) && (t.cancel.Some? <==> On(i, Cancel) in es)
    && (Resolved in t.settled <==> On(i, Settle(true)) in es)
    && (Rejected in t.settled <==> On(i, Settle(false)) in es)
  }

  lemma TaskStepRecords(t: Task, e: TaskEvent)
    requires TaskStep(t, e).Some?
    ensures var u := TaskStep(t, e).value;
            && (u.abort.Some? <==> t.abort.Some? || e == Abort) && (u.cancel.Some? <==> t.cancel.Some? || e == Cancel)
            && (Resolved in u.settled <==> Resolved in t.settled || e == Settle(true))
            && (Rejected in u.settled <==> Rejected in t.settled || e == Settle(false))
  {}

  lemma RecordGrows(es: seq<Event>, i: nat, t: Task, u: Task)
    requires es != [] && OnRecord(es[..|es| - 1], i, t)
    requires var e := es[|es| - 1];
             if e.On? && e.i == i then TaskStep(t, e.e) == Some(u) else u == t
    ensures OnRecord(es, i, u)
  {
    var e := es[|es| - 1];
    InLast(es, On(i, Abort));
    InLast(es, On(i, Cancel));
    InLast(es, On(i, Settle(true)));
    InLast(es, On(i, Settle(false)));
    if e.On? && e.i == i { TaskStepRecords(t, e.e); }
  }

  /** Nothing has happened to a task that is not there. */
  lemma {:induction false} NoEventsAhead(es: seq<Event>, i: nat, e: TaskEvent)
    requires Run(Step, [], es).Some? && |Run(Step, [], es).value| <= i
    ensures On(i, e) !in es
    decreases |es|
  {
    if es == [] {
    } else {
      RunLast(Step, [], es);
      NoEventsAhead(es[..|es| - 1], i, e);
      InLast(es, On(i, e));
    }
  }

  /** The kinds submitted, in order. */
  function Submitted(es: seq<Event>): (kinds: seq<Kind>)
  {
    if es == [] then []
    else
      var pre, e := es[..|es| - 1], es[|es| - 1];
      if e.Submit? then Submitted(pre) + [e.kind] else Submitted(pre)
  }

  /** The tasks are those that were submitted, in that order, each with its own kind. */
  lemma {:induction false} TasksByEvents(es: seq<Event>)
    requires Run(Step, [], es).Some?
    ensures var ts := Run(Step, [], es).value;
            |ts| == |Submitted(es)| && forall i :: 0 <= i < |ts| ==> ts[i].kind == Submitted(es)[i]
    decreases |es|
  {
    if es == [] {
    } else {
      RunLast(Step, [], es);
      TasksByEvents(es[..|es| - 1]);
    }
  }

  /**
   What settles a promise is what came of the task: it has been resolved if and only if the output converted, and
   rejected with the error if and only if that failed; and an abort or cancel is on record if and only if it came.
   */
  lemma {:induction false} SettledByEvents(es: seq<Event>, i: nat)
    requires Run(Step, [], es).Some? && i < |Run(Step, [], es).value|
    ensures OnRecord(es, i, Run(Step, [], es).value[i])
    decreases |es|
  {
    if es == [] {
    } else {
      var pre, e := es[..|es| - 1], es[|es| - 1];
      RunLast(Step, [], es);
      var ts := Run(Step, [], pre).value;
      if i < |ts| {
        SettledByEvents(pre, i);
        RecordGrows(es, i, ts[i], Run(Step, [], es).value[i]);
      } else {
        NothingYet(es, i, e.kind);
      }
    }
  }

  lemma NothingYet(es: seq<Event>, i: nat, kind: Kind)
    requires es != [] && es[|es| - 1] == Submit(kind)
    requires Run(Step, [], es[..|es| - 1]).Some? && |Run(Step, [], es[..|es| - 1]).value| <= i
    ensures OnRecord(es, i, Fresh(kind))
  {
    forall e: TaskEvent ensures On(i, e) !in es {
      NoEventsAhead(es[..|es| - 1], i, e);
      InLast(es, On(i, e));
    }
  }

  // ---------------------------------------------------------------------------------------------------------
  // Runs that show it
  // ---------------------------------------------------------------------------------------------------------

  /** The events of one task, as events of the first task submitted. */
  function OnFirst(es: seq<TaskEvent>): (r: seq<Event>)
  {
    if es == [] then [] else [On(0, es[0])] + OnFirst(es[1..])
  }

  lemma {:induction false} OneTaskRuns(t: Task, es: seq<TaskEvent>)
    requires Run(TaskStep, t, es).Some?
    ensures Run(Step, [t], OnFirst(es)) == Some([Run(TaskStep, t, es).value])
    decreases |es|
  {
    if es == [] {
    } else {
      var u := TaskStep(t, es[0]).value;
      assert [t][0 := u] == [u];
      assert OnFirst(es)[1..] == OnFirst(es[1..]);
      OneTaskRuns(u, es[1..]);
    }
  }

  /** Up to the moment `complete` finds no cancellation. */
  lemma RunsToCleared()
    ensures Run(TaskStep, Fresh(WithSignal), [TakeWork, FinishWork] + [Ask, Check])
            == Some(Fresh(WithSignal).(stage := Cleared))
  {
    var t := Fresh(WithSignal);
    RunTwo(TaskStep, t, TakeWork, FinishWork);
    RunTwo(TaskStep, t.(stage := Computed), Ask, Check);
    RunSplit(TaskStep, t, [TakeWork, FinishWork], [Ask, Check]);
  }

  /** An abort from `finally`: the promise was resolved, and is rejected on top. */
  lemma AbortFromFinallySettlesTwice()
    ensures var es := [TakeWork, FinishWork] + [Ask, Check] + [Settle(true), Abort] + [StoreStatus];
            var r := Run(Step, [Fresh(WithSignal)], OnFirst(es));
            r.Some? && |r.value| == 1 && r.value[0].stage == Completed && r.value[0].settled == [Resolved, AbortError]
  {
    var t := Fresh(WithSignal).(stage := Cleared);
    RunsToCleared();
    RunTwo(TaskStep, t, Settle(true), Abort);
    var u := TaskStep(TaskStep(t, Settle(true)).value, Abort).value;
    RunFour(TaskStep, Fresh(WithSignal), [TakeWork, FinishWork] + [Ask, Check], t, [Settle(true), Abort], u,
            [StoreStatus], TaskStep(u, StoreStatus).value, []) by { assert [StoreStatus][1..] == []; }
    assert [Resolved] + [AbortError] == [Resolved, AbortError];
    OneTaskRuns(Fresh(WithSignal), [TakeWork, FinishWork] + [Ask, Check] + [Settle(true), Abort] + [StoreStatus]);
  }

  /** An abort from the conversion of the output: the promise is rejected, and then resolved on top. */
  lemma AbortFromConversionSettlesTwice()
    ensures var es := [TakeWork, FinishWork] + [Ask, Check] + [Abort, Settle(true)] + [StoreStatus];
            var r := Run(Step, [Fresh(WithSignal)], OnFirst(es));
            r.Some? && |r.value| == 1 && r.value[0].stage == Completed && r.value[0].settled == [AbortError, Resolved]
  {
    var t := Fresh(WithSignal).(stage := Cleared);
    RunsToCleared();
    RunTwo(TaskStep, t, Abort, Settle(true));
    var u := TaskStep(TaskStep(t, Abort).value, Settle(true)).value;
    RunFour(TaskStep, Fresh(WithSignal), [TakeWork, FinishWork] + [Ask, Check], t, [Abort, Settle(true)], u,
            [StoreStatus], TaskStep(u, StoreStatus).value, []) by { assert [StoreStatus][1..] == []; }
    assert [AbortError] + [Resolved] == [AbortError, Resolved];
    OneTaskRuns(Fresh(WithSignal), [TakeWork, FinishWork] + [Ask, Check] + [Abort, Settle(true)] + [StoreStatus]);
  }

  /** The abort takes the work off the queue, and `complete` resolves an output nobody computed. */
  lemma AbortedInQueueResolvesZeroed()
    ensures var r := Run(Step, [Fresh(WithSignal)], OnFirst([Abort, Ask] + [Check, StoreStatus]));
            r.Some? && |r.value| == 1 && r.value[0].stage == Completed
            && r.value[0].resolvedZeroed && r.value[0].settled == [AbortError]
  {
    var t := Fresh(WithSignal);
    RunTwo(TaskStep, t, Abort, Ask);
    var u := TaskStep(TaskStep(t, Abort).value, Ask).value;
    RunTwo(TaskStep, u, Check, StoreStatus);
    RunSplit(TaskStep, t, [Abort, Ask], [Check, StoreStatus]);
    assert [] + [AbortError] == [AbortError];
    OneTaskRuns(t, [Abort, Ask] + [Check, StoreStatus]);
  }

  // ---------------------------------------------------------------------------------------------------------
  // The callbacks on the fields they update
  // ---------------------------------------------------------------------------------------------------------

  /** One task with its shared status, updated in place by the N-API callbacks. */
  class AsyncWork {
    var kind: Kind
    var stage: Stage
    var status: nat
    var settled: seq<Settlement>
    var abort: Option<Stage>
    var cancel: Option<Stage>
    var resolvedZeroed: bool

    function Abs(): (t: Task)
      reads this
    {
      Task(kind, stage, status, settled, abort, cancel, resolvedZeroed)
    }

    constructor (kind: Kind)
      ensures Abs() == Fresh(kind) && TaskInv(Abs())
    {
      this.kind, stage, status, settled, abort, cancel, resolvedZeroed := kind, Queued, 0, [], None, None, false;
    }

    method Execute()
      requires TaskInv(Abs()) && stage == Queued
      modifies this
      ensures TaskInv(Abs()) && Run(TaskStep, old(Abs()), [TakeWork, FinishWork]) == Some(Abs())
    {
      stage := Running;
      stage := Computed;
      RunTwo(TaskStep, old(Abs()), TakeWork, FinishWork);
    }

    /** Fires at any moment, also from inside a part of `complete`. */
    method OnAbort()
      requires TaskInv(Abs()) && kind == WithSignal && abort.None?
      modifies this
      ensures TaskInv(Abs()) && TaskStep(old(Abs()), Abort) == Some(Abs())
      ensures if old(status) == 1 then settled == old(settled) && status == 1
              else settled == old(settled) + [AbortError] && status == 2
    {
      abort := Some(stage);
      if status == 1 {
        return;
      }
      stage := NapiCancel(stage);
      status := 2;
      settled := settled + [AbortError];
    }

    method CancelWork()
      requires TaskInv(Abs()) && kind == Cancellable
      modifies this
      ensures TaskInv(Abs()) && TaskStep(old(Abs()), Cancel) == Some(Abs())
      ensures status == 2 && (old(stage) == Queued ==> stage == Dequeued) && settled == old(settled)
    {
      cancel := FirstOf(cancel, stage);
      status := 2;
      stage := NapiCancel(stage);
    }

    /** The outcome goes to resolve or reject; a dequeued task's is zeroed. */
    method AskTask()
      requires TaskInv(Abs()) && (stage == Computed || stage == Dequeued)
      modifies this
      ensures TaskInv(Abs()) && TaskStep(old(Abs()), Ask) == Some(Abs())
    {
      resolvedZeroed := stage == Dequeued;
      stage := Asked(stage == Dequeued);
    }

    method CheckStatus() returns (clear: bool)
      requires TaskInv(Abs()) && stage.Asked?
      modifies this
      ensures TaskInv(Abs()) && TaskStep(old(Abs()), Check) == Some(Abs())
      ensures clear == (stage == Cleared) && (!clear ==> stage == Finishing)
    {
      clear := !stage.dequeued && status != 2;
      stage := if clear then Cleared else Finishing;
    }

    /** The converted output, or the conversion's error, settles the deferred. */
    method SettleDeferred(ok: bool)
      requires TaskInv(Abs()) && stage == Cleared
      modifies this
      ensures TaskInv(Abs()) && TaskStep(old(Abs()), Settle(ok)) == Some(Abs())
      ensures settled == old(settled) + [if ok then Resolved else Rejected]
    {
      settled := settled + [if ok then Resolved else Rejected];
      stage := Finishing;
    }

    method FinishComplete()
      requires TaskInv(Abs()) && stage == Finishing
      modifies this
      ensures TaskInv(Abs()) && TaskStep(old(Abs()), StoreStatus) == Some(Abs())
    {
      stage := Completed;
      status := 1;
    }

    /** The whole of `complete`, when no part of it fires the abort: then the promise has settled at most once. */
    method CompleteWork(ok: bool)
      requires TaskInv(Abs()) && (stage == Computed || stage == Dequeued)
      modifies this
      ensures TaskInv(Abs()) && stage == Completed
      ensures Abs() == AfterComplete(old(Abs()), ok)
      ensures |settled| <= 1 && (|settled| == 1 <==> !InTime(cancel))
      ensures old(stage) == Computed && old(status) == 0 ==> settled == [if ok then Resolved else Rejected]
    {
      ghost var t0 := Abs();
      AskTask();
      ghost var t1 := Abs();
      var clear := CheckStatus();
      ghost var t2 := Abs();
      if clear { SettleDeferred(ok); }
      ghost var t3 := Abs();
      FinishComplete();
      PartsMakeComplete(t0, t1, t2, t3, Abs(), ok);
    }
  }

  /** The steps of an undisturbed `complete`. */
  function CompleteSteps(t: Task, ok: bool): (es: seq<TaskEvent>)
  {
    [Ask, Check] + if t.stage == Dequeued || t.status == 2 then [StoreStatus] else [Settle(ok), StoreStatus]
  }

  function AfterComplete(t: Task, ok: bool): (u: Task)
  {
    t.(stage := Completed, status := 1, resolvedZeroed := t.stage == Dequeued,
       settled := if t.stage == Dequeued || t.status == 2 then t.settled
                  else t.settled + [if ok then Resolved else Rejected])
  }

  lemma PartsMakeComplete(t0: Task, t1: Task, t2: Task, t3: Task, t4: Task, ok: bool)
    requires TaskInv(t0) && TaskStep(t0, Ask) == Some(t1) && TaskStep(t1, Check) == Some(t2)
    requires if t2.stage == Cleared then TaskStep(t2, Settle(ok)) == Some(t3) else t3 == t2
    requires TaskStep(t3, StoreStatus) == Some(t4)
    ensures t4 == AfterComplete(t0, ok) && t4.stage == Completed && t4.cancel == t0.cancel
    ensures |t4.settled| <= 1 && (|t4.settled| == 1 <==> !InTime(t4.cancel))
    ensures t0.stage == Computed && t0.status == 0 ==> t4.settled == [if ok then Resolved else Rejected]
  {}

  /** An undisturbed `complete` is a run of the machine. */
  lemma CompleteIsARun(t: Task, ok: bool)
    requires t.stage == Computed || t.stage == Dequeued
    ensures Run(TaskStep, t, CompleteSteps(t, ok)) == Some(AfterComplete(t, ok))
  {
    var asked := t.(stage := Asked(t.stage == Dequeued), resolvedZeroed := t.stage == Dequeued);
    assert TaskStep(t, Ask) == Some(asked);
    RunTwo(TaskStep, t, Ask, Check);
    if t.stage == Dequeued || t.status == 2 {
      assert [StoreStatus][1..] == [];
      RunSplit(TaskStep, t, [Ask, Check], [StoreStatus]);
    } else {
      RunTwo(TaskStep, asked.(stage := Cleared), Settle(ok), StoreStatus);
      RunSplit(TaskStep, t, [Ask, Check], [Settle(ok), StoreStatus]);
    }
  }
}
