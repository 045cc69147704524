// A job together with its log: pkg/api/internal/jobs/jobs.go gives its step the log to write to, and
// closes the log when it is done. That no write follows the stop, which the followers' laws need,
// is proved of it.
module JobLog {
  import opened Prelude
  import Jobs
  import LogLines
  import LogStreamer

  // An action of the job; what its step writes; what followers do.
  datatype Event = Act(action: Jobs.Action) | StepWrites(p: LogLines.Bytes) | FollowerDoes(step: LogStreamer.Step)

  datatype State = State(job: Jobs.State, log: LogStreamer.State)

  const INIT := State(Jobs.INIT, LogStreamer.INIT)

  predicate OfFollower(step: LogStreamer.Step) {
    step.Start? || step.Cancel? || step.Follow?
  }

  // The step of the log that an event is, if it is one: closing the logs stops it.
  function LogStep(e: Event): Option<LogStreamer.Step> {
    match e
    case Act(RunCloseLogs) => Some(LogStreamer.Stop)
    case Act(_) => None
    case StepWrites(p) => Some(LogStreamer.Write(p))
    case FollowerDoes(step) => Some(step)
  }

  // The step writes only while it runs.
  predicate Possible(st: State, e: Event) {
    && (e.StepWrites? ==> st.job.run.Stepping?)
    && (e.FollowerDoes? ==> OfFollower(e.step))
  }

  function Next(st: State, e: Event): Option<State> {
    if !Possible(st, e) then None
    else
      var job := if e.Act? then Jobs.Next(st.job, e.action) else Some(st.job);
      var log := if LogStep(e).Some? then LogStreamer.Next(st.log, LogStep(e).value) else Some(st.log);
      if job.None? || log.None? then None else Some(State(job.value, log.value))
  }

  function Run(events: seq<Event>): Option<State> {
    if events == [] then Some(INIT)
    else match Run(events[..|events| - 1])
      case None => None
      case Some(st) => Next(st, events[|events| - 1])
  }

  function JobActions(events: seq<Event>): seq<Jobs.Action> {
    if events == [] then []
    else
      var last := events[|events| - 1];
      JobActions(events[..|events| - 1]) + if last.Act? then [last.action] else []
  }

  function LogSteps(events: seq<Event>): seq<LogStreamer.Step> {
    if events == [] then []
    else
      var last := LogStep(events[|events| - 1]);
      LogSteps(events[..|events| - 1]) + if last.Some? then [last.value] else []
  }

  lemma JobOneMore(actions: seq<Jobs.Action>, a: Jobs.Action)
    ensures Jobs.Run(actions + [a]) ==
      match Jobs.Run(actions) case None => None case Some(st) => Jobs.Next(st, a)
  {
    hide Jobs.Next;
    assert (actions + [a])[..|actions|] == actions;
  }

  lemma LogOneMore(steps: seq<LogStreamer.Step>, step: LogStreamer.Step)
    ensures LogStreamer.Run(steps + [step]) ==
      match LogStreamer.Run(steps) case None => None case Some(st) => LogStreamer.Next(st, step)
  {
    hide LogStreamer.Next;
    assert (steps + [step])[..|steps|] == steps;
  }

  // The log is stopped only once the logs are closed, and nothing was written after that.
  ghost predicate Disciplined(st: State, steps: seq<LogStreamer.Step>) {
    && LogStreamer.NoWriteAfterStop(steps)
    && ((exists i :: 0 <= i < |steps| && steps[i].Stop?) ==> st.job.logsClosed)
  }

  lemma DisciplinedOneMore(st: State, st': State, steps: seq<LogStreamer.Step>, e: Event)
    requires Jobs.Inv(st.job) && Disciplined(st, steps) && Next(st, e) == Some(st')
    ensures Disciplined(st', steps + if LogStep(e).Some? then [LogStep(e).value] else [])
  {
    hide LogStreamer.Next;
    var more := if LogStep(e).Some? then [LogStep(e).value] else [];
    var all := steps + more;
    assert forall i :: 0 <= i < |steps| ==> all[i] == steps[i];
    if more == [] {
      assert all == steps;
    } else {
      assert all[|steps|] == more[0];
      if st.job.run.Stepping? {
        assert !st.job.logsClosed;
      }
    }
  }

  // A job's log is used as the followers' laws ask: seen from the job and from the log, every
  // interleaving of both is one of theirs, and no write follows the stop.
  lemma {:induction false} LogIsNotWrittenAfterStop(events: seq<Event>)
    requires Run(events).Some?
    ensures Jobs.Run(JobActions(events)) == Some(Run(events).value.job)
    ensures LogStreamer.Run(LogSteps(events)) == Some(Run(events).value.log)
    ensures LogStreamer.NoWriteAfterStop(LogSteps(events))
    ensures Disciplined(Run(events).value, LogSteps(events))
  {
    hide Jobs.Next, LogStreamer.Next, Jobs.Inv, Possible, LogStep, Disciplined;
    if events == [] {
      Nothing();
    } else {
      var front, e := events[..|events| - 1], events[|events| - 1];
      LogIsNotWrittenAfterStop(front);
      var st := Run(front).value;
      Jobs.RunKeepsInv(JobActions(front));
      DisciplinedOneMore(st, Run(events).value, LogSteps(front), e);
      if e.Act? {
        JobOneMore(JobActions(front), e.action);
      } else {
        assert JobActions(front) + [] == JobActions(front);
      }
      if LogStep(e).Some? {
        LogOneMore(LogSteps(front), LogStep(e).value);
      } else {
        assert LogSteps(front) + [] == LogSteps(front);
      }
      assert LogStreamer.NoWriteAfterStop(LogSteps(events)) by {
        DisciplinedIsNoWrite(Run(events).value, LogSteps(events));
      }
    }
  }

  lemma Nothing()
    ensures Jobs.Run([]) == Some(Jobs.INIT) && LogStreamer.Run([]) == Some(LogStreamer.INIT)
    ensures Disciplined(INIT, []) && LogStreamer.NoWriteAfterStop([])
  {
  }

  lemma DisciplinedIsNoWrite(st: State, steps: seq<LogStreamer.Step>)
    requires Disciplined(st, steps)
    ensures LogStreamer.NoWriteAfterStop(steps)
  {
  }

  // So every call to follow a job shows its prefix, and once it returned nil, it has shown everything
  // the job wrote from the offset it asked for on.
  lemma FollowersOfJobs(events: seq<Event>, i: nat)
    requires Run(events).Some? && i < |LogStreamer.Starts(LogSteps(events))|
    ensures i < |Run(events).value.log.followers|
    ensures var log, f := Run(events).value.log, Run(events).value.log.followers[i];
      var steps := LogSteps(events);
      var shown := LogLines.N(LogStreamer.Tail(LogStreamer.Writes(steps), LogStreamer.Starts(steps)[i]));
      !f.broken ==>
        && f.out <= shown && (f.pc.Done? ==> f.out == shown && log.stop)
        && (Run(events).value.job.run.RunExited? ==> !f.pc.Waiting?)
  {
    hide Run, LogStreamer.Run, LogStreamer.Good, LogStreamer.Starts, LogStreamer.Writes, LogLines.N, LogLines.FirstLF, Jobs.Run;
    LogIsNotWrittenAfterStop(events);
    LogStreamer.FollowersShowTheLog(LogSteps(events), i);
    LogStreamer.RunKeepsInv(LogSteps(events));
    var st := Run(events).value;
    var f := st.log.followers[i];
    assert LogStreamer.Good(st.log.log, st.log.stop, f);
    Jobs.RunKeepsInv(JobActions(events));
    StopsWhenClosed(events);
    if !f.broken {
      GoodSays(st.log.log, st.log.stop, f);
    }
  }

  lemma GoodSays(log: LogLines.Bytes, stop: bool, f: LogStreamer.Follower)
    requires LogStreamer.Good(log, stop, f) && !f.broken
    ensures (f.pc.Done? ==> stop) && (stop ==> !f.pc.Waiting?)
  {
    hide LogLines.N, LogStreamer.Consumed;
  }

  lemma {:induction false} StopsWhenClosed(events: seq<Event>)
    requires Run(events).Some?
    ensures Run(events).value.log.stop <==> Run(events).value.job.logsClosed
  {
    hide LogStreamer.Woken, LogStreamer.Moved, Jobs.Completed, Jobs.Verdict, Jobs.Expired;
    if events != [] {
      StopsWhenClosed(events[..|events| - 1]);
    }
  }
}
