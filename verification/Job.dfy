// pkg/api/internal/jobs/jobs.go: one job, run and closed concurrently.
module Jobs {
  import opened Prelude
  import opened Proto

  // What matters of a step's error: whether it is a context error, and whether it ends in "signal: killed".
  datatype StepError = StepError(context: bool, killed: bool)

  datatype JobError =
    | NotStarted(cause: Option<StepError>)
    | NotFinished(cause: Option<StepError>)
    | JobCancelled(stepError: StepError)
    | FromStep(stepError: StepError)
    | ContextCanceled

  // The fields the mutex guards; times are only set or not set.
  datatype Record = Record(status: Status, err: Option<JobError>, started: bool, finished: bool)

  const NEW := Record(Unspecified, None, false, false)

  function Began(r: Record): Record {
    r.(status := Running, started := true)
  }

  // How a step's outcome becomes the job's; None if a nil result or a nil error is dereferenced.
  function Verdict(ctxDone: bool, result: Option<Status>, err: Option<StepError>): Option<(Status, Option<JobError>)> {
    match result
    case None => None
    case Some(Unspecified) => Some((Failure, Some(NotStarted(err))))
    case Some(Running) => Some((Failure, Some(NotFinished(err))))
    case Some(Failure) =>
      (match err
       case None => if ctxDone then None else Some((Failure, None))
       case Some(e) =>
         if e.context || (ctxDone && e.killed) then Some((Status.Cancelled, Some(JobCancelled(e))))
         else Some((Failure, Some(FromStep(e)))))
    case Some(status) => Some((status, if err.None? then None else Some(FromStep(err.value))))
  }

  function Completed(r: Record, ctxDone: bool, result: Option<Status>, err: Option<StepError>): Record {
    match Verdict(ctxDone, result, err)
    case None => r.(finished := true)
    case Some((status, e)) => r.(finished := true, status := status, err := e)
  }

  // Close gave up waiting.
  function Expired(r: Record): Record {
    r.(status := if r.status.Unspecified? then Status.Cancelled else r.status,
       err := if r.err.None? then Some(ContextCanceled) else r.err)
  }

  // The critical sections, as they update the job in place.
  class Job {
    var status: Status
    var err: Option<JobError>
    var started: bool
    var finished: bool

    function Fields(): Record
      reads this
    {
      Record(status, err, started, finished)
    }

    constructor ()
      ensures Fields() == NEW
    {
      status, err, started, finished := Unspecified, None, false, false;
    }

    method Begin()
      modifies this
      ensures Fields() == Began(old(Fields()))
    {
      started := true;
      status := Running;
    }

    // False if it panicked.
    method OnRunCompletion(ctxDone: bool, result: Option<Status>, stepErr: Option<StepError>) returns (ok: bool)
      modifies this
      ensures Fields() == Completed(old(Fields()), ctxDone, result, stepErr)
      ensures ok == Verdict(ctxDone, result, stepErr).Some?
    {
      finished := true;
      if result.None? {
        return false;
      }
      if result.value.Unspecified? {
        err, status := Some(NotStarted(stepErr)), Failure;
        return true;
      } else if result.value.Running? {
        err, status := Some(NotFinished(stepErr)), Failure;
        return true;
      } else if result.value.Failure? {
        var isContext := stepErr.Some? && stepErr.value.context;
        if !isContext && ctxDone && stepErr.None? {
          return false;
        }
        if isContext || (ctxDone && stepErr.value.killed) {
          err, status := Some(JobCancelled(stepErr.value)), Status.Cancelled;
          return true;
        }
      }
      err, status := if stepErr.None? then None else Some(FromStep(stepErr.value)), result.value;
      ok := true;
    }

    method Expire()
      modifies this
      ensures Fields() == Expired(old(Fields()))
    {
      if status.Unspecified? {
        status := Status.Cancelled;
      }
      if err.None? {
        err := Some(ContextCanceled);
      }
    }
  }

  // ---- The protocol ----

  // The one call of Run that won runOnce, and the one call of Close that won closeOnce.
  datatype RunPc = NotRun | Claimed | Stepping | Returned(result: Option<Status>, err: Option<StepError>)
    | Recorded(err: Option<StepError>) | Leaving | LogsClosed | RunExited
  datatype ClosePc = NotClosed | Cancelling | Selecting | Fired | Locked | Removing | CloseExited

  datatype State = State(
    record: Record,
    run: RunPc,
    close: ClosePc,
    ctxDone: bool,
    finishC: nat,       // messages in the channel
    stepRuns: nat,      // calls of step.Run
    logsClosed: bool,
    panicked: bool,     // Run panicked; its deferred function still runs
    expired: bool)      // Close's timer section has run

  const CAPACITY: nat := 1
  const INIT := State(NEW, NotRun, NotClosed, false, 0, 0, false, false, false)

  datatype Action =
    | RunClaim | RunBegin | StepReturns(result: Option<Status>, err: Option<StepError>) | RunComplete | RunLog
    | RunCloseLogs | RunSend
    | CloseClaim | CloseCancel | CloseReceive | CloseFire | CloseLock | CloseFinish
    | Observe           // Status, and calls of Run and Close that lost their once

  // Close keeps the mutex from its timer section to its end.
  predicate MutexFree(st: State) {
    !st.close.Locked?
  }

  function Next(st: State, a: Action): Option<State> {
    match a
    case RunClaim => if st.run.NotRun? then Some(st.(run := Claimed)) else None
    case RunBegin =>
      if st.run.Claimed? && MutexFree(st) then
        Some(st.(run := Stepping, record := Began(st.record), stepRuns := st.stepRuns + 1))
      else None
    case StepReturns(result, err) => if st.run.Stepping? then Some(st.(run := Returned(result, err))) else None
    case RunComplete =>
      if st.run.Returned? && MutexFree(st) then
        var result, err := st.run.result, st.run.err;
        var bad := Verdict(st.ctxDone, result, err).None?;
        Some(st.(record := Completed(st.record, st.ctxDone, result, err), panicked := bad,
                 run := if bad then Leaving else Recorded(err)))
      else None
    case RunLog =>
      // reads the job's error without the mutex, and formats the step's
      if st.run.Recorded? then Some(st.(run := Leaving, panicked := st.record.err.Some? && st.run.err.None?)) else None
    case RunCloseLogs => if st.run.Leaving? then Some(st.(run := LogsClosed, logsClosed := true)) else None
    case RunSend =>
      if st.run.LogsClosed? && st.finishC < CAPACITY then Some(st.(run := RunExited, finishC := st.finishC + 1)) else None
    case CloseClaim => if st.close.NotClosed? then Some(st.(close := Cancelling)) else None
    case CloseCancel => if st.close.Cancelling? then Some(st.(close := Selecting, ctxDone := true)) else None
    case CloseReceive =>
      if st.close.Selecting? && st.finishC > 0 then Some(st.(close := Removing, finishC := st.finishC - 1)) else None
    case CloseFire => if st.close.Selecting? then Some(st.(close := Fired)) else None
    case CloseLock =>
      if st.close.Fired? then Some(st.(close := Locked, record := Expired(st.record), expired := true)) else None
    case CloseFinish => if st.close.Removing? || st.close.Locked? then Some(st.(close := CloseExited)) else None
    case Observe => Some(st)
  }

  function Run(actions: seq<Action>): Option<State> {
    if actions == [] then Some(INIT)
    else match Run(actions[..|actions| - 1])
      case None => None
      case Some(st) => Next(st, actions[|actions| - 1])
  }

  predicate Terminal(s: Status) {
    !s.Unspecified? && !s.Running?
  }

  predicate BeforeBegin(st: State) {
    st.run.NotRun? || st.run.Claimed?
  }

  predicate AfterComplete(st: State) {
    !BeforeBegin(st) && !st.run.Stepping? && !st.run.Returned?
  }

  // What every reachable state satisfies.
  ghost predicate Inv(st: State) {
    && st.stepRuns == (if BeforeBegin(st) then 0 else 1)
    && (st.record.started <==> !BeforeBegin(st)) && (st.record.finished <==> AfterComplete(st))
    && (st.logsClosed <==> st.run.LogsClosed? || st.run.RunExited?)
    && (st.expired ==> st.close.Locked? || st.close.CloseExited?) && (st.close.Locked? ==> st.expired)
    && (st.close.Removing? || (st.close.CloseExited? && !st.expired) ==> st.run.RunExited? && st.finishC == 0)
    && st.finishC == (if st.run.RunExited? && !st.close.Removing? && !(st.close.CloseExited? && !st.expired) then 1 else 0)
    && (BeforeBegin(st) ==> st.record.status == if st.expired then Status.Cancelled else Unspecified)
    && (st.run.Stepping? || st.run.Returned? ==> st.record.status.Running?)
    && (AfterComplete(st) ==> Terminal(st.record.status) || (st.panicked && st.record.status.Running?))
    && (st.panicked ==> AfterComplete(st) && !st.run.Recorded?)
    && (st.ctxDone <==> !st.close.NotClosed? && !st.close.Cancelling?)
  }

  lemma NextKeepsInv(st: State, a: Action)
    requires Inv(st) && Next(st, a).Some?
    ensures Inv(Next(st, a).value)
  {
  }

  lemma {:induction false} RunKeepsInv(actions: seq<Action>)
    requires Run(actions).Some?
    ensures Inv(Run(actions).value)
  {
    hide Inv, Next;
    if actions == [] {
      assert Inv(INIT) by {
        InitInv();
      }
    } else {
      RunKeepsInv(actions[..|actions| - 1]);
      NextKeepsInv(Run(actions[..|actions| - 1]).value, actions[|actions| - 1]);
    }
  }

  lemma InitInv()
    ensures Inv(INIT)
  {
  }

  // In every interleaving: the step runs at most once, sending on finishC never blocks, an end time
  // implies a start time, the log is closed only after the step returned, and Close returns before
  // Run has left only if its timer fired.
  lemma JobSafety(actions: seq<Action>)
    requires Run(actions).Some?
    ensures var st := Run(actions).value;
      && st.stepRuns <= 1
      && (st.run.LogsClosed? ==> Next(st, RunSend).Some?)
      && (st.record.finished ==> st.record.started)
      && (st.logsClosed ==> st.record.finished)
      && (st.close.CloseExited? ==> st.run.RunExited? || st.expired)
  {
    RunKeepsInv(actions);
  }

  // Neither side is ever stuck on the other: once the step has returned, Run can go on, or Close holds
  // the mutex and can finish; and a Close that waits can always be released by its timer.
  lemma NobodyIsStuck(actions: seq<Action>)
    requires Run(actions).Some?
    ensures var st := Run(actions).value;
      && (!st.run.NotRun? && !st.run.Stepping? && !st.run.RunExited? ==>
            || Next(st, RunBegin).Some? || Next(st, RunComplete).Some? || Next(st, RunLog).Some?
            || Next(st, RunCloseLogs).Some? || Next(st, RunSend).Some?
            || Next(st, CloseFinish).Some?)
      && (!st.close.NotClosed? && !st.close.CloseExited? ==>
            || Next(st, CloseCancel).Some? || Next(st, CloseReceive).Some? || Next(st, CloseFire).Some?
            || Next(st, CloseLock).Some? || Next(st, CloseFinish).Some?)
  {
    hide Run;
    RunKeepsInv(actions);
  }

  // A job that was begun after Close gave up is the only way its status can go back.
  predicate Forward(before: Status, after: Status) {
    || before == after
    || (before.Unspecified? && !after.Unspecified?)
    || (before.Running? && Terminal(after))
  }

  // One action lets the status go back, or change once terminal, exactly if it is a begin after
  // Close's timer section.
  lemma StatusGoesBackIff(actions: seq<Action>, a: Action)
    requires Run(actions).Some? && Next(Run(actions).value, a).Some?
    ensures var st := Run(actions).value;
      !Forward(st.record.status, Next(st, a).value.record.status) <==> a.RunBegin? && st.expired
  {
    RunKeepsInv(actions);
  }

  ghost predicate BegunBeforeExpiry(actions: seq<Action>) {
    forall i, j :: 0 <= i < j < |actions| && actions[i].CloseLock? ==> !actions[j].RunBegin?
  }

  lemma {:induction false} ExpiredByLock(actions: seq<Action>)
    requires Run(actions).Some?
    ensures Run(actions).value.expired <==> exists i :: 0 <= i < |actions| && actions[i].CloseLock?
  {
    hide Next, Run;
    if actions == [] {
      NoActions();
    } else {
      var front, last := actions[..|actions| - 1], actions[|actions| - 1];
      LastAction(actions);
      ExpiredByLock(front);
      NextExpired(Run(front).value, last);
      assert forall i :: 0 <= i < |front| ==> front[i] == actions[i];
      if last.CloseLock? {
        assert actions[|actions| - 1].CloseLock?;
      }
    }
  }

  lemma NoActions()
    ensures Run([]) == Some(INIT)
  {
  }

  lemma NextExpired(st: State, a: Action)
    requires Next(st, a).Some?
    ensures Next(st, a).value.expired <==> st.expired || a.CloseLock?
  {
    hide Completed, Verdict, Expired;
  }

  // If Run begins before Close's timer section, or one of them never happens, the status goes only
  // forward from unspecified over running to one terminal value, and then never changes.
  lemma {:induction false} StatusOnlyGoesForward(actions: seq<Action>, more: seq<Action>)
    requires Run(actions).Some? && Run(actions + more).Some? && BegunBeforeExpiry(actions + more)
    ensures Forward(Run(actions).value.record.status, Run(actions + more).value.record.status)
    decreases |more|
  {
    hide Next, Run;
    if more == [] {
      assert actions + more == actions;
    } else {
      var all, front, last := actions + more, more[..|more| - 1], more[|more| - 1];
      assert all[..|all| - 1] == actions + front && all[|all| - 1] == last;
      LastAction(all);
      StatusOnlyGoesForward(actions, front);
      ExpiredByLock(actions + front);
      StatusGoesBackIff(actions + front, last);
      assert forall i :: 0 <= i < |actions + front| ==> all[i] == (actions + front)[i];
    }
  }

  lemma LastAction(all: seq<Action>)
    requires all != [] && Run(all).Some?
    ensures Run(all[..|all| - 1]).Some? && Run(all) == Next(Run(all[..|all| - 1]).value, all[|all| - 1])
  {
  }

  // ---- The verdict ----

  // What running a step yields: a result, success exactly without an error, otherwise failure.
  predicate StepContract(result: Option<Status>, err: Option<StepError>) {
    result.Some? && if err.None? then result.value.Success? else result.value.Failure?
  }

  // Such an outcome never panics in onRunCompletion; the job succeeds exactly if the step did, it is
  // cancelled exactly on a context error or when killed after a cancellation, and its error is the step's.
  lemma VerdictOnContract(ctxDone: bool, result: Option<Status>, err: Option<StepError>)
    requires StepContract(result, err)
    ensures var v := Verdict(ctxDone, result, err);
      && v.Some? && Terminal(v.value.0)
      && (v.value.0.Success? <==> err.None?) && (v.value.1.None? <==> err.None?)
      && (v.value.0.Cancelled? <==> err.Some? && (err.value.context || (ctxDone && err.value.killed)))
      && (err.Some? ==> v.value.1.value == if v.value.0.Cancelled? then JobCancelled(err.value) else FromStep(err.value))
  {
  }

  ghost predicate Contracts(actions: seq<Action>) {
    forall i :: 0 <= i < |actions| && actions[i].StepReturns? ==> StepContract(actions[i].result, actions[i].err)
  }

  ghost predicate Sound(st: State) {
    && Inv(st)
    && (st.run.Returned? ==> StepContract(st.run.result, st.run.err))
    && (st.run.Recorded? && st.run.err.None? && st.record.err.Some? ==> st.expired)
    && (st.panicked ==> st.expired)
  }

  lemma NextKeepsSound(st: State, a: Action)
    requires Sound(st) && Next(st, a).Some? && (a.StepReturns? ==> StepContract(a.result, a.err))
    ensures Sound(Next(st, a).value)
  {
    hide Inv;
    NextKeepsInv(st, a);
  }

  lemma {:induction false} RunIsSound(actions: seq<Action>)
    requires Run(actions).Some? && Contracts(actions)
    ensures Sound(Run(actions).value)
  {
    hide Next, Sound;
    if actions == [] {
      assert Sound(INIT) by {
        InitSound();
      }
    } else {
      RunIsSound(actions[..|actions| - 1]);
      NextKeepsSound(Run(actions[..|actions| - 1]).value, actions[|actions| - 1]);
    }
  }

  lemma InitSound()
    ensures Sound(INIT)
  {
  }

  // The step came back without an error.
  ghost predicate ReturnedClean(actions: seq<Action>) {
    exists i :: 0 <= i < |actions| && actions[i].StepReturns? && actions[i].err.None?
  }

  ghost predicate HasVerdict(actions: seq<Action>) {
    exists i :: 0 <= i < |actions| && actions[i].RunComplete?
  }

  // Close's timer section after the verdict.
  ghost predicate ExpiredAfterVerdict(actions: seq<Action>) {
    exists j :: 0 <= j < |actions| && actions[j].CloseLock? && HasVerdict(actions[..j])
  }

  // And Run's look at the job's error after that.
  ghost predicate LoggedAfterExpiry(actions: seq<Action>) {
    exists k :: 0 <= k < |actions| && actions[k].RunLog? && ExpiredAfterVerdict(actions[..k])
  }

  // What one more action adds to these.
  lemma OneMore(actions: seq<Action>)
    requires actions != []
    ensures var front, last := actions[..|actions| - 1], actions[|actions| - 1];
      && (ReturnedClean(actions) <==> ReturnedClean(front) || (last.StepReturns? && last.err.None?))
      && (HasVerdict(actions) <==> HasVerdict(front) || last.RunComplete?)
      && (ExpiredAfterVerdict(actions) <==> ExpiredAfterVerdict(front) || (last.CloseLock? && HasVerdict(front)))
      && (LoggedAfterExpiry(actions) <==> LoggedAfterExpiry(front) || (last.RunLog? && ExpiredAfterVerdict(front)))
  {
    var n := |actions| - 1;
    var front, last := actions[..n], actions[n];
    assert forall i :: 0 <= i <= n ==> front[..i] == actions[..i];
    hide HasVerdict, ExpiredAfterVerdict;
    assert forall i :: 0 <= i < n ==> front[i] == actions[i];
    assert HasVerdict(actions) <==> HasVerdict(front) || last.RunComplete? by {
      VerdictOneMore(actions);
    }
    assert ExpiredAfterVerdict(actions) <==> ExpiredAfterVerdict(front) || (last.CloseLock? && HasVerdict(front)) by {
      ExpiryOneMore(actions);
    }
  }

  lemma VerdictOneMore(actions: seq<Action>)
    requires actions != []
    ensures HasVerdict(actions) <==> HasVerdict(actions[..|actions| - 1]) || actions[|actions| - 1].RunComplete?
  {
    var front := actions[..|actions| - 1];
    assert forall i :: 0 <= i < |front| ==> front[i] == actions[i];
  }

  lemma ExpiryOneMore(actions: seq<Action>)
    requires actions != []
    ensures var front, last := actions[..|actions| - 1], actions[|actions| - 1];
      ExpiredAfterVerdict(actions) <==> ExpiredAfterVerdict(front) || (last.CloseLock? && HasVerdict(front))
  {
    hide HasVerdict;
    var front := actions[..|actions| - 1];
    assert forall i :: 0 <= i < |actions| ==> front[..i] == actions[..i];
    assert forall i :: 0 <= i < |front| ==> front[i] == actions[i];
  }

  // What the state still tells of the history.
  ghost predicate Tells(st: State, actions: seq<Action>) {
    && (HasVerdict(actions) <==> AfterComplete(st))
    && (BeforeBegin(st) || st.run.Stepping? ==> !ReturnedClean(actions))
    && (st.run.Returned? || st.run.Recorded? ==> (st.run.err.None? <==> ReturnedClean(actions)))
    && (st.run.Recorded? && st.run.err.None? ==> (st.record.err.Some? <==> ExpiredAfterVerdict(actions)))
    && (ExpiredAfterVerdict(actions) ==> HasVerdict(actions))
    && (!AfterComplete(st) || st.run.Recorded? ==> !LoggedAfterExpiry(actions))
    && (st.panicked <==> ReturnedClean(actions) && LoggedAfterExpiry(actions))
    && (AfterComplete(st) ==> (st.record.status.Success? <==> ReturnedClean(actions)))
  }

  lemma NextTells(st: State, front: seq<Action>, a: Action, actions: seq<Action>)
    requires Sound(st) && Tells(st, front) && Next(st, a).Some? && actions == front + [a]
    ensures Tells(Next(st, a).value, actions)
  {
    hide ReturnedClean, HasVerdict, ExpiredAfterVerdict, LoggedAfterExpiry;
    assert actions[..|actions| - 1] == front;
    OneMore(actions);
  }

  lemma {:induction false} RunTells(actions: seq<Action>)
    requires Run(actions).Some? && Contracts(actions)
    ensures Tells(Run(actions).value, actions)
  {
    hide Next, Sound, Tells, Run;
    if actions == [] {
      NoActions();
      assert Tells(INIT, []) by {
        InitTells();
      }
    } else {
      var front, last := actions[..|actions| - 1], actions[|actions| - 1];
      LastAction(actions);
      RunTells(front);
      RunIsSound(front);
      NextTells(Run(front).value, front, last, actions);
    }
  }

  lemma InitTells()
    ensures Tells(INIT, [])
  {
  }

  // With steps that keep their contract, Run panics exactly when the step came back without an
  // error and Run looks at the job's error, which it does without the mutex, after Close's timer
  // section has put one there since the verdict.
  lemma PanicIff(actions: seq<Action>)
    requires Run(actions).Some? && Contracts(actions)
    ensures var st := Run(actions).value;
      && (st.panicked <==> ReturnedClean(actions) && LoggedAfterExpiry(actions))
      && (st.panicked ==> st.expired)
      && (st.run.Returned? && MutexFree(st) ==> !Next(st, RunComplete).value.panicked)
  {
    hide ReturnedClean, LoggedAfterExpiry;
    RunTells(actions);
    RunIsSound(actions);
  }

  // A finished job is successful exactly if its step came back without an error.
  lemma SuccessIff(actions: seq<Action>)
    requires Run(actions).Some? && Contracts(actions) && Run(actions).value.record.finished
    ensures Run(actions).value.record.status.Success? <==> ReturnedClean(actions)
  {
    hide ReturnedClean, Run;
    RunTells(actions);
    RunIsSound(actions);
  }

  // Outcomes steps do not have are judged too: unfinished ones are failures with an error, others stand,
  // and a missing result, or a missing error where one is needed, is dereferenced.
  lemma VerdictInGeneral(ctxDone: bool, result: Option<Status>, err: Option<StepError>)
    ensures var v := Verdict(ctxDone, result, err);
      && (v.None? <==> result.None? || (result.value.Failure? && err.None? && ctxDone))
      && (result == Some(Unspecified) ==> v == Some((Failure, Some(NotStarted(err)))))
      && (result == Some(Running) ==> v == Some((Failure, Some(NotFinished(err)))))
      && (result == Some(Success) || result == Some(Status.Cancelled) ==>
            v == Some((result.value, if err.None? then None else Some(FromStep(err.value)))))
  {
  }

  // ---- What the record says of the history ----

  ghost predicate Did(actions: seq<Action>, a: Action) {
    exists i :: 0 <= i < |actions| && actions[i] == a
  }

  lemma DidOneMore(actions: seq<Action>, a: Action)
    requires actions != []
    ensures Did(actions, a) <==> Did(actions[..|actions| - 1], a) || actions[|actions| - 1] == a
  {
    var front := actions[..|actions| - 1];
    assert forall i :: 0 <= i < |front| ==> front[i] == actions[i];
  }

  // The start time is set exactly by the begin, the end time by the verdict; the context is cancelled by
  // Close and the log closed by Run, and the timer section ran, exactly if they did.
  lemma {:induction false} RecordOfHistory(actions: seq<Action>)
    requires Run(actions).Some?
    ensures var st := Run(actions).value;
      && (st.record.started <==> Did(actions, RunBegin)) && (st.record.finished <==> Did(actions, RunComplete))
      && (st.ctxDone <==> Did(actions, CloseCancel)) && (st.logsClosed <==> Did(actions, RunCloseLogs))
      && (st.expired <==> Did(actions, CloseLock)) && (st.stepRuns == 1 <==> Did(actions, RunBegin))
  {
    hide Next, Run, Did, Inv;
    if actions == [] {
      NoActions();
      NothingDone();
    } else {
      var front := actions[..|actions| - 1];
      LastAction(actions);
      RecordOfHistory(front);
      RunKeepsInv(front);
      RecordedByNext(Run(front).value, actions[|actions| - 1]);
      DidOneMore(actions, RunBegin);
      DidOneMore(actions, RunComplete);
      DidOneMore(actions, CloseCancel);
      DidOneMore(actions, RunCloseLogs);
      DidOneMore(actions, CloseLock);
    }
  }

  lemma NothingDone()
    ensures forall a :: !Did([], a)
  {
  }

  lemma RecordedByNext(st: State, a: Action)
    requires Inv(st) && Next(st, a).Some?
    ensures var st' := Next(st, a).value;
      && (st'.record.started <==> st.record.started || a == RunBegin)
      && (st'.record.finished <==> st.record.finished || a == RunComplete)
      && (st'.ctxDone <==> st.ctxDone || a == CloseCancel) && (st'.logsClosed <==> st.logsClosed || a == RunCloseLogs)
      && (st'.expired <==> st.expired || a == CloseLock) && (st'.stepRuns == 1 <==> st.stepRuns == 1 || a == RunBegin)
  {
  }

  // ---- The job's error ----

  // What is known of a job whose step returned this; late says that Close's timer section came after
  // the verdict.
  ghost predicate Carries(st: State, result: Option<Status>, err: Option<StepError>, late: bool) {
    && !BeforeBegin(st) && !st.run.Stepping?
    && (st.run.Returned? ==> st.run.result == result && st.run.err == err && !late)
    && (AfterComplete(st) && err.None? ==> st.record.err == if late then Some(ContextCanceled) else None)
    && (AfterComplete(st) && err.Some? ==>
          st.record.err == Some(if st.record.status.Cancelled? then JobCancelled(err.value) else FromStep(err.value)))
  }

  lemma NextCarries(st: State, a: Action, result: Option<Status>, err: Option<StepError>, late: bool)
    requires Inv(st) && Carries(st, result, err, late) && Next(st, a).Some? && StepContract(result, err)
    ensures Carries(Next(st, a).value, result, err, late || (a == CloseLock && AfterComplete(st)))
  {
  }

  lemma {:induction false} RunCarries(actions: seq<Action>, result: Option<Status>, err: Option<StepError>)
    requires Run(actions).Some? && Contracts(actions) && Did(actions, StepReturns(result, err))
    ensures Carries(Run(actions).value, result, err, ExpiredAfterVerdict(actions))
  {
    hide Next, Run, Did, Inv, Carries, StepContract, Verdict, HasVerdict, ExpiredAfterVerdict, Tells;
    if actions == [] {
      NothingDone();
    } else {
      var front, last := actions[..|actions| - 1], actions[|actions| - 1];
      LastAction(actions);
      DidOneMore(actions, StepReturns(result, err));
      ExpiryOneMore(actions);
      RunTells(front);
      RunKeepsInv(front);
      VerdictTold(Run(front).value, front);
      if Did(front, StepReturns(result, err)) {
        ReturnsKeepContract(actions, result, err);
        RunCarries(front, result, err);
        NextCarries(Run(front).value, last, result, err, ExpiredAfterVerdict(front));
      } else {
        JustReturned(Run(front).value, result, err);
      }
    }
  }

  lemma VerdictTold(st: State, actions: seq<Action>)
    requires Tells(st, actions)
    ensures HasVerdict(actions) <==> AfterComplete(st)
    ensures st.run.Stepping? ==> !ExpiredAfterVerdict(actions)
  {
    hide HasVerdict, ExpiredAfterVerdict;
  }

  lemma ReturnsKeepContract(actions: seq<Action>, result: Option<Status>, err: Option<StepError>)
    requires Contracts(actions) && Did(actions, StepReturns(result, err))
    ensures StepContract(result, err)
  {
    hide StepContract;
  }

  lemma JustReturned(st: State, result: Option<Status>, err: Option<StepError>)
    requires Next(st, StepReturns(result, err)).Some?
    ensures st.run.Stepping? && Carries(Next(st, StepReturns(result, err)).value, result, err, false)
  {
  }

  // A finished job's error is its step's, as a cancellation if it was one; without one it has none, until
  // Close's timer section puts the context's there.
  lemma ErrorOfJob(actions: seq<Action>, result: Option<Status>, err: Option<StepError>)
    requires Run(actions).Some? && Contracts(actions) && Run(actions).value.record.finished
    requires Did(actions, StepReturns(result, err))
    ensures var job := Run(actions).value.record;
      job.err ==
        match err
        case Some(e) => Some(if job.status.Cancelled? then JobCancelled(e) else FromStep(e))
        case None => if ExpiredAfterVerdict(actions) then Some(ContextCanceled) else None
  {
    hide Run, Did, StepContract, ExpiredAfterVerdict;
    RunCarries(actions, result, err);
    RunKeepsInv(actions);
  }

  // ---- Runs that show the two conditions are real ----

  lemma Then(front: seq<Action>, st: State, a: Action) returns (actions: seq<Action>)
    requires Run(front) == Some(st) && Next(st, a).Some? && Contracts(front)
    requires a.StepReturns? ==> StepContract(a.result, a.err)
    ensures Run(actions) == Next(st, a) && actions == front + [a] && Contracts(actions)
  {
    hide Next, StepContract;
    actions := front + [a];
    assert actions[..|actions| - 1] == front;
  }

  // A job closed before its goroutine got to run is cancelled, and then runs.
  lemma CancelledJobRuns()
    ensures exists actions ::
      && Run(actions).Some? && Run(actions).value.record.status.Cancelled?
      && Next(Run(actions).value, RunBegin).Some? && Next(Run(actions).value, RunBegin).value.record.status.Running?
  {
    hide Run;
    NoActions();
    var r := Then([], INIT, RunClaim);
    var st := INIT.(run := Claimed);
    r := Then(r, st, CloseClaim);
    r := Then(r, st.(close := Cancelling), CloseCancel);
    r := Then(r, st.(close := Selecting, ctxDone := true), CloseFire);
    var fired := st.(close := Fired, ctxDone := true);
    r := Then(r, fired, CloseLock);
    var locked := fired.(close := Locked, expired := true, record := Expired(NEW));
    r := Then(r, locked, CloseFinish);
  }

  // A successful job whose Close gives up between the verdict and the log line panics.
  lemma SuccessfulJobPanics()
    ensures exists actions ::
      && Run(actions).Some? && Contracts(actions) && Run(actions).value.panicked
      && Run(actions).value.record.status.Success?
  {
    hide Run;
    NoActions();
    var r := Then([], INIT, RunClaim);
    r := Then(r, INIT.(run := Claimed), RunBegin);
    var running := INIT.(run := Stepping, record := Began(NEW), stepRuns := 1);
    r := Then(r, running, StepReturns(Some(Success), None));
    r := Then(r, running.(run := Returned(Some(Success), None)), RunComplete);
    var done := running.(run := Recorded(None), record := Record(Success, None, true, true));
    r := Then(r, done, CloseClaim);
    r := Then(r, done.(close := Cancelling), CloseCancel);
    r := Then(r, done.(close := Selecting, ctxDone := true), CloseFire);
    var fired := done.(close := Fired, ctxDone := true);
    r := Then(r, fired, CloseLock);
    r := Then(r, fired.(close := Locked, expired := true, record := Expired(fired.record)), RunLog);
  }
}

// The steps of pkg/runner keep the contract jobs rely on.
module JobContract {
  import opened Prelude
  import opened StepSemantics
  import RunLaws
  import Jobs

  // The top-level step of a job: whatever its error looks like, onRunCompletion gets a result and
  // takes it without a panic, unless the step is a command whose first log line could not be written.
  lemma StepsKeepTheContract(fuel: nat, w: World, gl: Global, g: GlobalState, ctx: Ctx, p: Parsed, e: Jobs.StepError)
    requires RunParsed(fuel, w, gl, g, ctx, p).Some?
    ensures var ran := RunParsed(fuel, w, gl, g, ctx, p).value;
      var status := if ran.result.Some? then Some(ran.result.value.status) else None;
      Jobs.StepContract(status, if ran.failed then Some(e) else None) <==> p.SequenceStep? || w.log(g.tick)
  {
    hide RunParsed, RunLaws.Spine;
    RunLaws.TopLevelResult(fuel, w, gl, g, ctx, p);
    RunLaws.ParsedSpine(fuel, w, gl, g, ctx, p);
    RunLaws.FailedIsFailure(fuel, w, gl, g, ctx, p);
  }
}
