// pkg/api/service/service.go: the table of jobs, under serialized requests.
module JobTable {

  datatype JobInfo = JobInfo(id: string, closed: bool, executions: nat)

  // All jobs ever created, in order, and which of them the table holds.
  datatype Table = Table(index: map<string, nat>, jobs: seq<JobInfo>)

  const EMPTY := Table(map[], [])

  // Which stages of preparing a run succeed: reading and compiling the steps, creating the job, its
  // variables, its environment, parsing, and the steps context.
  datatype Preparation = Preparation(
    loads: bool, creates: bool, variables: bool, environment: bool, parses: bool, context: bool)

  predicate Prepared(p: Preparation) {
    p.variables && p.environment && p.parses && p.context
  }

  datatype Request = Run(id: string, prep: Preparation) | Close(id: string)

  predicate Accepted(t: Table, r: Request) {
    r.Run? && r.id !in t.index ==> r.prep.loads && r.prep.creates && Prepared(r.prep)
  }

  function Serve(t: Table, r: Request): Table
    requires forall id :: id in t.index ==> t.index[id] < |t.jobs|
  {
    match r
    case Run(id, prep) =>
      if id in t.index || !prep.loads || !prep.creates then t
      else if !Prepared(prep) then t.(jobs := t.jobs + [JobInfo(id, true, 0)])
      else Table(t.index[id := |t.jobs|], t.jobs + [JobInfo(id, false, 1)])
    case Close(id) =>
      if id !in t.index then t
      else
        var k := t.index[id];
        Table(t.index - {id}, t.jobs[k := t.jobs[k].(closed := true)])
  }

  // Every job is the table's entry for its id exactly while it is not closed; entries are executed,
  // and nothing is executed twice.
  ghost predicate Conserved(t: Table) {
    && (forall id :: id in t.index ==> t.index[id] < |t.jobs| && t.jobs[t.index[id]].id == id)
    && (forall k :: 0 <= k < |t.jobs| ==>
          var job := t.jobs[k];
          && (!job.closed <==> job.id in t.index && t.index[job.id] == k)
          && job.executions <= 1 && (!job.closed ==> job.executions == 1))
  }

  lemma ServeConserves(t: Table, r: Request)
    requires Conserved(t)
    ensures Conserved(Serve(t, r))
  {
  }

  ghost function History(requests: seq<Request>): (t: Table)
    ensures Conserved(t)
  {
    if requests == [] then EMPTY
    else
      var before := History(requests[..|requests| - 1]);
      ServeConserves(before, requests[|requests| - 1]);
      Serve(before, requests[|requests| - 1])
  }

  // A run that fails leaves the table as it was, and closes the job if it got one; a run on a live id
  // changes nothing at all. No request ever touches a job of another id.
  lemma RequestEffects(requests: seq<Request>, r: Request)
    ensures var t := History(requests);
      var t' := Serve(t, r);
      && (r.Run? && r.id in t.index ==> t' == t)
      && (r.Run? && !Accepted(t, r) ==>
            t'.index == t.index && t.jobs <= t'.jobs && forall k :: |t.jobs| <= k < |t'.jobs| ==> t'.jobs[k].closed)
      && (r.Close? ==> r.id !in t'.index)
      && (forall id :: id != r.id ==> (id in t'.index <==> id in t.index) && (id in t.index ==> t'.index[id] == t.index[id]))
      && (forall k :: 0 <= k < |t.jobs| && t.jobs[k].id != r.id ==> t'.jobs[k] == t.jobs[k])
    ensures var t := History(requests);
      var t' := Serve(t, r);
      r.Run? && r.id !in t.index ==>
        var p := r.prep;
        && (Accepted(t, r) <==> p.loads && p.creates && p.variables && p.environment && p.parses && p.context)
        && (Accepted(t, r) <==> r.id in t'.index)
        && (Accepted(t, r) ==> t'.jobs == t.jobs + [JobInfo(r.id, false, 1)])
        && (!Accepted(t, r) ==> t'.jobs == t.jobs + if p.loads && p.creates then [JobInfo(r.id, true, 0)] else [])
  {
    hide History;
  }

  // How often an id has been executed.
  function Executions(jobs: seq<JobInfo>, id: string): nat {
    if jobs == [] then 0
    else
      var last := jobs[|jobs| - 1];
      Executions(jobs[..|jobs| - 1], id) + if last.id == id then last.executions else 0
  }

  lemma {:induction false} ExecutionsAppend(jobs: seq<JobInfo>, job: JobInfo, id: string)
    ensures Executions(jobs + [job], id) == Executions(jobs, id) + if job.id == id then job.executions else 0
  {
    assert (jobs + [job])[..|jobs|] == jobs;
  }

  lemma {:induction false} ExecutionsOfClosed(jobs: seq<JobInfo>, k: nat, id: string)
    requires k < |jobs|
    ensures Executions(jobs[k := jobs[k].(closed := true)], id) == Executions(jobs, id)
  {
    var jobs' := jobs[k := jobs[k].(closed := true)];
    var n := |jobs| - 1;
    if k == n {
      assert jobs'[..n] == jobs[..n];
    } else {
      assert jobs'[..n] == jobs[..n][k := jobs[..n][k].(closed := true)];
      ExecutionsOfClosed(jobs[..n], k, id);
    }
  }

  predicate Executes(t: Table, r: Request, id: string) {
    r.Run? && r.id == id && id !in t.index && Accepted(t, r)
  }

  lemma ServeExecutes(t: Table, r: Request, id: string)
    requires Conserved(t)
    ensures Executions(Serve(t, r).jobs, id) == Executions(t.jobs, id) + if Executes(t, r, id) then 1 else 0
    ensures id in Serve(t, r).index <==> (id in t.index && r != Close(id)) || Executes(t, r, id)
  {
    hide Executions;
    match r
    case Run(x, prep) =>
      ExecutionsAppend(t.jobs, JobInfo(x, true, 0), id);
      ExecutionsAppend(t.jobs, JobInfo(x, false, 1), id);
    case Close(x) =>
      if x in t.index {
        ExecutionsOfClosed(t.jobs, t.index[x], id);
      }
  }

  // Between two closes an id is executed at most once: not at all while it is live, and otherwise
  // exactly if it is live afterwards.
  lemma {:induction false} ExecutedOnceBetweenCloses(before: seq<Request>, between: seq<Request>, id: string)
    requires Close(id) !in between
    ensures var t, t' := History(before), History(before + between);
      && (id in t.index ==> id in t'.index)
      && Executions(t'.jobs, id) == Executions(t.jobs, id) + if id !in t.index && id in t'.index then 1 else 0
    decreases |between|
  {
    hide Executions, Serve, Conserved;
    if between == [] {
      assert before + between == before;
    } else {
      var all, front, last := before + between, between[..|between| - 1], between[|between| - 1];
      assert all[..|all| - 1] == before + front && all[|all| - 1] == last;
      assert Close(id) !in front && last in between;
      ExecutedOnceBetweenCloses(before, front, id);
      ServeExecutes(History(before + front), last, id);
    }
  }
}

// The service object: its table maps ids to jobs, which it starts and closes.
module Service {
  import opened JobTable

  class Job {
    const id: string
    var closed: bool
    var executions: nat

    constructor (id: string)
      ensures this.id == id && !closed && executions == 0
    {
      this.id := id;
      closed, executions := false, 0;
    }

    function Info(): JobInfo
      reads this
    {
      JobInfo(id, closed, executions)
    }
  }

  class StepRunnerService {
    var jobs: map<string, Job>
    ghost var created: seq<Job>          // every job ever created
    ghost var index: map<string, nat>    // where the table's jobs are among them

    ghost predicate Valid()
      reads this
    {
      && jobs.Keys == index.Keys
      && (forall id :: id in index ==> index[id] < |created| && created[index[id]] == jobs[id])
      && forall i, j :: 0 <= i < j < |created| ==> created[i] != created[j]
    }

    ghost function Contents(): Table
      reads this, created
    {
      Table(index, seq(|created|, k requires 0 <= k < |created| reads this, created => created[k].Info()))
    }

    constructor ()
      ensures Valid() && Contents() == EMPTY
    {
      jobs, created, index := map[], [], map[];
    }

    // Lookup, preparation, insertion and start; a failure after the job was created closes it.
    method Run(id: string, prep: Preparation) returns (ok: bool)
      requires Valid()
      modifies this
      ensures Valid() && Contents() == Serve(old(Contents()), JobTable.Run(id, prep))
      ensures ok == Accepted(old(Contents()), JobTable.Run(id, prep))
    {
      if id in jobs {
        return true;
      }
      if !prep.loads || !prep.creates {
        return false;
      }
      var job := new Job(id);
      ghost var n, before := |created|, Contents();
      created := created + [job];
      if !prep.variables || !prep.environment || !prep.parses || !prep.context {
        job.closed := true;
        assert Contents().jobs == before.jobs + [job.Info()];
        return false;
      }
      jobs := jobs[id := job];
      index := index[id := n];
      job.executions := job.executions + 1;
      assert Contents().jobs == before.jobs + [job.Info()];
      ok := true;
    }

    method Close(id: string)
      requires Valid()
      modifies this, if id in jobs then {jobs[id]} else {}
      ensures Valid() && Contents() == Serve(old(Contents()), JobTable.Close(id))
    {
      if id !in jobs {
        return;
      }
      ghost var before, k := Contents(), index[id];
      jobs[id].closed := true;
      jobs := jobs - {id};
      index := index - {id};
      assert Contents().jobs == before.jobs[k := before.jobs[k].(closed := true)];
    }
  }
}
