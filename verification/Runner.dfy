// pkg/runner/executable_step.go, sequence_of_steps.go, lazily_loaded_step.go and
// step_result_builder.go: running steps on the shared, mutable contexts. Each Run method is proved to
// compute what the step semantics says, and to leave the global environment as it says.
module Runner {
  import opened Prelude
  import opened Values
  import opened Expressions
  import opened Interpolation
  import opened Proto
  import opened StepFiles
  import opened StepSemantics
  import EG = EnvironmentGraph
  import opened Environments
  import opened Contexts
  import opened Loading
  import RunLaws

  class StepResultBuilder {
    const parsed: Parsed
    var env: Vars
    var execResult: Option<ExecResult>
    var exports: Vars
    var outputs: Outputs
    var subStepResults: seq<StepResult>

    function Built(status: Status): StepResult
      reads this
    {
      BuildResult(parsed, status, outputs, exports, env, execResult, subStepResults)
    }

    constructor (parsed: Parsed)
      ensures this.parsed == parsed
      ensures env == map[] && execResult == None && exports == map[] && outputs == map[] && subStepResults == []
    {
      this.parsed := parsed;
      env, execResult, exports, outputs, subStepResults := map[], None, map[], map[], [];
    }

    method ObserveEnv(e: Environment?, ghost graph: set<Environment>, ghost rank: map<Environment, nat>)
      requires e != null ==> e in graph && EG.Ranked(Snap(graph), rank)
      modifies this`env
      ensures env == if e == null then old(env) else EG.Flat(Snap(graph), rank, e)
    {
      hide EG.Flat, EG.Ranked, EG.Search;
      if e != null {
        env := e.Values(graph, rank);
      }
    }

    method ObserveExecutedCmd(executed: Option<ExecResult>)
      modifies this`execResult
      ensures execResult == if executed.Some? then executed else old(execResult)
    {
      if executed.Some? {
        execResult := executed;
      }
    }

    // Outputs that could not be read are nil, which is the same as none.
    method ObserveOutputs(read: Option<Outputs>)
      modifies this`outputs
      ensures outputs == if read.Some? then read.value else map[]
    {
      outputs := if read.Some? then read.value else map[];
    }

    method ObserveExports(e: Environment?, ghost graph: set<Environment>, ghost rank: map<Environment, nat>)
      requires e != null ==> e in graph && EG.Ranked(Snap(graph), rank)
      modifies this`exports
      ensures exports == if e == null then old(exports) else EG.Flat(Snap(graph), rank, e)
    {
      hide EG.Flat, EG.Ranked, EG.Search;
      if e != null {
        exports := e.Values(graph, rank);
      }
    }

    method ObserveStepResult(result: Option<StepResult>)
      modifies this`subStepResults
      ensures subStepResults == old(subStepResults) + Reported(result)
    {
      if result.Some? {
        subStepResults := subStepResults + [result.value];
      }
    }

    method BuildFailure() returns (r: StepResult)
      ensures r == Built(Failure)
    {
      r := Built(Failure);
    }

    method Build() returns (r: StepResult)
      ensures r == Built(Success)
    {
      r := Built(Success);
    }
  }

  lemma LeafValues(e: Environment)
    requires e.parent == null && e.mutations == []
    ensures EG.Ranked(Snap({e}), map[e := 0]) && EG.Flat(Snap({e}), map[e := 0], e) == e.vars
  {
    var g, rank := Snap({e}), map[e := 0];
    assert g[e] == EG.Node(e.vars, None, []);
    assert EG.Flat(g, rank, e) == EG.FlatUpTo(g, rank, e, 0);
    assert map[] + e.vars == e.vars;
  }

  // ---- Executable steps ----

  method ReadExportedEnv(w: World, out: ExecOutcome) returns (e: Environment?)
    ensures e == null <==> ExportedEnv(w.number, Scanned(out.exportLines)).None?
    ensures e != null ==> fresh(e) && e.parent == null && e.mutations == []
    ensures e != null ==> Some(e.vars) == ExportedEnv(w.number, Scanned(out.exportLines))
  {
    hide ExportedEnv;
    var vars := ReadEnvironment(w.number, out.exportLines);
    if vars.None? {
      return null;
    }
    e := new Environment(vars.value);
  }

  method ReadExecOutputs(w: World, loaded: LoadedSpec, out: ExecOutcome) returns (outputs: Option<Outputs>)
    ensures outputs == ExecOutputs(w, loaded, out)
  {
    hide OutputsOf;
    if loaded.spec.outputMethod.DelegateMethod? {
      return out.stepResult;
    }
    outputs := ReadValues(out.outputLines, loaded.spec.outputs);
  }

  method ExpandArguments(w: World, ctx: StepsContext, arguments: seq<string>) returns (r: Option<seq<string>>)
    requires ctx.Valid()
    ensures r == ExpandAll(w.json, ViewOf(ctx.globalCtx.Constants(), ctx.globalCtx.State(), ctx.Contents()), arguments)
  {
    hide ExpandedString, ViewOf, Sound, Chain;
    ghost var view := ViewOf(ctx.globalCtx.Constants(), ctx.globalCtx.State(), ctx.Contents());
    var cmdArgs: seq<string> := [];
    for i := 0 to |arguments|
      invariant |cmdArgs| == i
      invariant forall k :: 0 <= k < i ==> ExpandedString(w.json, view, arguments[k]) == Some(cmdArgs[k])
    {
      var v := ctx.View();
      var res := ExpandString(w.json, v, arguments[i]);
      if res.None? {
        return None;
      }
      cmdArgs := cmdArgs + [res.value];
    }
    assert ExpandAll(w.json, view, arguments).value == cmdArgs;
    r := Some(cmdArgs);
  }

  method DetermineWorkDir(w: World, ctx: StepsContext, workDir: string) returns (r: Option<string>)
    requires ctx.Valid()
    ensures r == if workDir == "" then Some(ctx.globalCtx.workDir)
                 else ExpandedString(w.json, ViewOf(ctx.globalCtx.Constants(), ctx.globalCtx.State(), ctx.Contents()), workDir)
  {
    hide ExpandedString, ViewOf, Sound, Chain;
    if workDir == "" {
      return Some(ctx.globalCtx.workDir);
    }
    var v := ctx.View();
    r := ExpandString(w.json, v, workDir);
  }

  method ExpandCommand(w: World, ctx: StepsContext, d: Definition) returns (r: Option<(seq<string>, string)>)
    requires ctx.Valid()
    ensures r == Command(w, ctx.globalCtx.Constants(), ctx.globalCtx.State(), ctx.Contents(), d)
  {
    hide ExpandedString, ExpandAll, ViewOf, Sound, Chain;
    var args := ExpandArguments(w, ctx, d.command);
    if args.None? {
      return None;
    }
    var dir := DetermineWorkDir(w, ctx, d.workDir);
    r := if dir.None? then None else Some((args.value, dir.value));
  }

  // Applies the definition's environment and observes it.
  method ApplyEnv(w: World, ctx: StepsContext, bldr: StepResultBuilder, vars: Vars) returns (ok: bool)
    requires ctx.Valid()
    modifies ctx`env, ctx`scopes, ctx.globalCtx`graph, ctx.globalCtx`rank, ctx.globalCtx`locals, bldr`env
    ensures ctx.Valid() && ctx.globalCtx.State() == old(ctx.globalCtx.State()) && old(ctx.globalCtx.locals) <= ctx.globalCtx.locals
    ensures var expanded := ExpandVars(w.json, old(ViewOf(ctx.globalCtx.Constants(), ctx.globalCtx.State(), ctx.Contents())), vars);
      && ok == expanded.Some?
      && (!ok ==> ctx.Contents() == old(ctx.Contents()) && bldr.env == old(bldr.env))
      && (ok ==> ctx.Contents() == old(ctx.Contents()).(scopes := Push(old(ctx.scopes), expanded.value))
                 && bldr.env == Env(ctx.globalCtx.Constants(), ctx.globalCtx.State(), ctx.Contents()))
  {
    hide ExpandVars, ViewOf, Env, EG.Flat, EG.Ranked, Push, Sound, Chain;
    var e := ctx.ExpandAndApplyEnv(w.json, vars);
    ok := e != null;
    if ok {
      ctx.EnvIsFlat();
    }
    bldr.ObserveEnv(e, ctx.globalCtx.graph, ctx.globalCtx.rank);
  }

  method RunExecutable(w: World, p: Parsed, ctx: StepsContext) returns (result: Option<StepResult>, failed: bool)
    requires p.ExecStep? && ctx.Valid()
    modifies ctx`env, ctx`scopes, ctx.globalCtx, ctx.globalCtx.env`mutations
    ensures ctx.Valid() && old(ctx.globalCtx.locals) <= ctx.globalCtx.locals
    ensures Ran(result, failed, ctx.globalCtx.State(), ctx.Contents()) ==
      RunExec(w, ctx.globalCtx.Constants(), old(ctx.globalCtx.State()), old(ctx.Contents()), p)
  {
    hide ExpandVars, ViewOf, Env, Push, Sound, Chain, RunCommand, BuildResult;
    var globalCtx := ctx.globalCtx;
    var logged := w.log(globalCtx.tick);
    globalCtx.Advance();
    if !logged {
      return None, true;
    }
    var bldr := new StepResultBuilder(p);
    var applied := ApplyEnv(w, ctx, bldr, p.loaded.definition.env);
    if !applied {
      var r := bldr.BuildFailure();
      return Some(r), true;
    }
    result, failed := Execute(w, p, ctx, bldr);
  }

  // The command, its outputs and its exports, in the environment the step just applied.
  method Execute(w: World, p: Parsed, ctx: StepsContext, bldr: StepResultBuilder) returns (result: Option<StepResult>, failed: bool)
    requires p.ExecStep? && ctx.Valid() && bldr.parsed == p
    requires bldr.outputs == map[] && bldr.exports == map[] && bldr.execResult == None && bldr.subStepResults == []
    requires bldr.env == Env(ctx.globalCtx.Constants(), ctx.globalCtx.State(), ctx.Contents())
    modifies ctx.globalCtx, ctx.globalCtx.env`mutations, bldr
    ensures ctx.Valid() && ctx.globalCtx.locals == old(ctx.globalCtx.locals)
    ensures Ran(result, failed, ctx.globalCtx.State(), ctx.Contents()) ==
      RunCommand(w, ctx.globalCtx.Constants(), old(ctx.globalCtx.State()), old(ctx.Contents()), p)
  {
    hide ViewOf, Env, Sound, Chain, Command, Collect, BuildResult;
    var globalCtx := ctx.globalCtx;
    var command := ExpandCommand(w, ctx, p.loaded.definition);
    if command.None? {
      var r := bldr.BuildFailure();
      return Some(r), true;
    }
    var environ := ctx.GetEnvs();
    var out := w.exec(globalCtx.tick, command.value.0, command.value.1, environ);
    globalCtx.Advance();
    var executed := Some(ExecResult(command.value.0, command.value.1, out.exitCode));
    bldr.ObserveExecutedCmd(executed);
    result, failed := CollectResult(w, p, ctx, bldr, environ, executed, out);
  }

  // Reads back the outputs, then the exports, and adds the exports to the global environment.
  method CollectResult(w: World, p: Parsed, ctx: StepsContext, bldr: StepResultBuilder, ghost env: Vars,
                       ghost executed: Option<ExecResult>, out: ExecOutcome)
    returns (result: Option<StepResult>, failed: bool)
    requires ctx.Valid() && bldr.parsed == p && bldr.env == env && bldr.execResult == executed
    requires bldr.outputs == map[] && bldr.exports == map[] && bldr.subStepResults == []
    modifies ctx.globalCtx, ctx.globalCtx.env`mutations, bldr
    ensures ctx.Valid() && ctx.globalCtx.locals == old(ctx.globalCtx.locals)
    ensures Ran(result, failed, ctx.globalCtx.State(), ctx.Contents()) ==
      Collect(w, old(ctx.globalCtx.State()), old(ctx.Contents()), p, env, executed, out)
  {
    hide Sound, Chain, ExecOutputs, ExportedEnv, BuildResult, EG.Flat, EG.Ranked, Snap, Scanned, KeysAreNames;
    if !out.ok {
      var r := bldr.BuildFailure();
      return Some(r), true;
    }
    var outputs := ReadExecOutputs(w, p.loaded, out);
    bldr.ObserveOutputs(outputs);
    if outputs.None? {
      var r := bldr.BuildFailure();
      return Some(r), true;
    }
    var exports := ReadExportedEnv(w, out);
    if exports == null {
      bldr.ObserveExports(null, {}, map[]);
      var r := bldr.BuildFailure();
      return Some(r), true;
    }
    LeafValues(exports);
    bldr.ObserveExports(exports, {exports}, map[exports := 0]);
    ctx.globalCtx.AddGlobalEnv(exports);
    var r := bldr.Build();
    result, failed := Some(r), false;
  }

  // ---- Sequences ----

  method FindOutputsWithName(name: string, results: seq<StepResult>) returns (r: Option<Outputs>)
    ensures r.None? <==> forall i :: 0 <= i < |results| ==> results[i].step.name != name
    ensures r.Some? ==> exists i :: 0 <= i < |results| && results[i].step.name == name && results[i].outputs == r.value
  {
    for i := 0 to |results|
      invariant forall k :: 0 <= k < i ==> results[k].step.name != name
    {
      if results[i].step.name == name {
        return Some(results[i].outputs);
      }
    }
    r := None;
  }

  method InterpolateStepOutputs(w: World, ctx: StepsContext, exprs: map<string, Value>) returns (r: Option<Outputs>)
    requires ctx.Valid()
    ensures r == ExpandValues(w.json, ViewOf(ctx.globalCtx.Constants(), ctx.globalCtx.State(), ctx.Contents()), exprs)
  {
    hide Expanded, ViewOf, Sound, Chain;
    ghost var view := ViewOf(ctx.globalCtx.Constants(), ctx.globalCtx.State(), ctx.Contents());
    var outputs: Outputs := map[];
    var left := exprs.Keys;
    while left != {}
      invariant left <= exprs.Keys && outputs.Keys == exprs.Keys - left
      invariant forall k :: k in outputs ==> Expanded(w.json, view, exprs[k]) == Some(outputs[k])
      decreases left
    {
      var k :| k in left;
      var v := ctx.View();
      var res := Expand(w.json, v, exprs[k]);
      if res.None? {
        assert k in exprs && Expanded(w.json, view, exprs[k]).None?;
        return None;
      }
      outputs := outputs[k := res.value];
      left := left - {k};
    }
    assert ExpandValues(w.json, view, exprs).value == outputs;
    r := Some(outputs);
  }

  // Whatever order the recorded results come in, delegation finds the one recorded under the name.
  method ReadSequenceOutputs(w: World, ctx: StepsContext, loaded: LoadedSpec) returns (r: Option<Outputs>)
    requires ctx.Valid()
    ensures r == SequenceOutputs(w, ctx.globalCtx.Constants(), ctx.globalCtx.State(), ctx.Contents(), loaded)
  {
    hide ExpandValues, ViewOf, Sound, Chain;
    if loaded.spec.outputMethod.DelegateMethod? {
      var results := ctx.StepResults();
      var name := loaded.definition.delegate;
      assert name in ctx.steps ==> ctx.steps[name] in results;
      assert forall x :: x in results && x.step.name == name ==> name in ctx.steps && ctx.steps[name] == x;
      r := FindOutputsWithName(name, results);
      return;
    }
    r := InterpolateStepOutputs(w, ctx, loaded.definition.outputs);
  }

  // What the steps from the i-th on add to the results so far.
  ghost function Continued(fuel: nat, w: World, gl: Global, results: seq<StepResult>, g: GlobalState, ctx: Ctx,
                           steps: seq<LazyStep>, i: nat): Option<StepsRan>
    requires i <= |steps|
  {
    match RunSteps(fuel, w, gl, g, ctx, steps[i..])
    case None => None
    case Some(s) => Some(s.(results := results + s.results))
  }

  lemma ContinuedStart(fuel: nat, w: World, gl: Global, g: GlobalState, ctx: Ctx, steps: seq<LazyStep>)
    ensures Continued(fuel, w, gl, [], g, ctx, steps, 0) == RunSteps(fuel, w, gl, g, ctx, steps)
  {
    hide RunSteps;
    assert steps[0..] == steps;
    var s := RunSteps(fuel, w, gl, g, ctx, steps);
    if s.Some? {
      assert [] + s.value.results == s.value.results;
    }
  }

  lemma ContinuedEnd(fuel: nat, w: World, gl: Global, results: seq<StepResult>, g: GlobalState, ctx: Ctx, steps: seq<LazyStep>)
    ensures Continued(fuel, w, gl, results, g, ctx, steps, |steps|) == Some(StepsRan(results, false, g, ctx))
  {
    assert results + [] == results;
  }

  lemma ContinuedStep(fuel: nat, w: World, gl: Global, results: seq<StepResult>, g: GlobalState, ctx: Ctx,
                      steps: seq<LazyStep>, i: nat)
    requires i < |steps|
    ensures Continued(fuel, w, gl, results, g, ctx, steps, i) ==
      match RunLazy(fuel, w, gl, g, ctx, steps[i])
      case None => None
      case Some(o) =>
        if o.failed then Some(StepsRan(results + Reported(o.result), true, o.g, Record(ctx, o.result)))
        else Continued(fuel, w, gl, results + Reported(o.result), o.g, Record(ctx, o.result), steps, i + 1)
  {
    hide RunLazy, RunSteps, Record, Reported;
    TailFrom(steps, i);
    RunLaws.UnfoldSteps(fuel, w, gl, g, ctx, steps[i..]);
    var o := RunLazy(fuel, w, gl, g, ctx, steps[i]);
    if o.Some? && !o.value.failed {
      var s := RunSteps(fuel, w, gl, o.value.g, Record(ctx, o.value.result), steps[i + 1..]);
      if s.Some? {
        assert results + (Reported(o.value.result) + s.value.results) == results + Reported(o.value.result) + s.value.results;
      }
    }
  }

  method NewStepsContext(w: World, globalCtx: GlobalContext, dir: string, inputs: map<string, Value>, env: Environment,
                         ghost scopes: seq<Vars>) returns (ctx: StepsContext?)
    requires globalCtx.Valid() && Chain(env, globalCtx.env, scopes, globalCtx.locals)
    modifies globalCtx`tick
    ensures globalCtx.Valid() && globalCtx.State() == Tick(Tick(old(globalCtx.State())))
    ensures var made := NewContext(w, old(globalCtx.tick), dir, inputs, scopes);
      && (ctx == null <==> made.None?)
      && (ctx != null ==> fresh(ctx) && ctx.Valid() && ctx.globalCtx == globalCtx && ctx.Contents() == made.value)
  {
    hide Sound, Chain;
    var outputFile := w.tempFile(globalCtx.tick);
    globalCtx.Advance();
    var exportFile := w.tempFile(globalCtx.tick);
    globalCtx.Advance();
    if outputFile.None? || exportFile.None? {
      return null;
    }
    ctx := new StepsContext(globalCtx, dir, inputs, env, outputFile.value, exportFile.value, scopes);
  }

  lemma UnloadedStep(fuel: nat, w: World, gl: Global, g: GlobalState, ctx: Ctx, lazy: LazyStep)
    requires fuel > 0 && Load(w, gl, g, ctx, lazy).None?
    ensures RunLazy(fuel, w, gl, g, ctx, lazy) == Some(Outcome(None, true, Tick(g)))
  {
    RunLaws.UnfoldLazy(fuel, w, gl, g, ctx, lazy);
    hide *;
  }

  function NestedContext(w: World, g: GlobalState, ctx: Ctx, p: Parsed): Option<Ctx> {
    NewContext(w, g.tick + 1, p.loaded.dir, InputsWithDefault(p.params, p.loaded.spec.inputs), Push(ctx.scopes, p.params.env))
  }

  lemma LoadedStep(fuel: nat, w: World, gl: Global, g: GlobalState, ctx: Ctx, lazy: LazyStep, p: Parsed, ran: Option<Ran>)
    requires fuel > 0 && Load(w, gl, g, ctx, lazy) == Some(p)
    requires var nested := NestedContext(w, g, ctx, p);
      nested.Some? ==> RunParsed(fuel - 1, w, gl, Tick(Tick(Tick(g))), nested.value, p) == ran
    ensures RunLazy(fuel, w, gl, g, ctx, lazy) ==
      if NestedContext(w, g, ctx, p).None? then Some(Outcome(None, true, Tick(Tick(Tick(g)))))
      else if ran.None? then None
      else Some(Outcome(ran.value.result, ran.value.failed, ran.value.g))
  {
    RunLaws.UnfoldLazy(fuel, w, gl, g, ctx, lazy);
    hide Load, RunLazy, RunParsed, NewContext, InputsWithDefault, Push;
  }

  // Fuel bounds the nesting of lazily loaded steps; `done` is false when it ran out.
  method RunLazyStep(fuel: nat, w: World, lazy: LazyStep, parent: StepsContext)
    returns (done: bool, result: Option<StepResult>, failed: bool)
    requires parent.Valid()
    modifies parent.globalCtx, parent.globalCtx.env`mutations
    ensures parent.Valid() && old(parent.globalCtx.locals) <= parent.globalCtx.locals
    ensures RunLazy(fuel, w, parent.globalCtx.Constants(), old(parent.globalCtx.State()), old(parent.Contents()), lazy) ==
      if done then Some(Outcome(result, failed, parent.globalCtx.State())) else None
    decreases fuel, 0
  {
    hide RunLazy, RunParsed, Load, InputsWithDefault, NewContext, Push, Sound, Chain;
    done, result, failed := false, None, true;
    var globalCtx := parent.globalCtx;
    ghost var gl, g0, ctx0 := globalCtx.Constants(), globalCtx.State(), parent.Contents();
    if fuel == 0 {
      RunLaws.NoFuel(w, gl, g0, ctx0, lazy);
      return;
    }
    var step := LoadStep(w, lazy, parent);
    globalCtx.Advance();
    if step.None? {
      UnloadedStep(fuel, w, gl, g0, ctx0, lazy);
      done := true;
      return;
    }
    var params := step.value.params;
    var env := globalCtx.PushScope(parent.env, params.env, parent.scopes);
    var inputs := NewInputsWithDefault(params, step.value.loaded.spec.inputs);
    ghost var locals := globalCtx.locals;
    ChainGrows(parent.env, globalCtx.env, parent.scopes, old(globalCtx.locals), locals);
    var ctx := NewStepsContext(w, globalCtx, step.value.loaded.dir, inputs, env, Push(parent.scopes, params.env));
    if ctx == null {
      LoadedStep(fuel, w, gl, g0, ctx0, lazy, step.value, None);
      done := true;
      return;
    }
    done, result, failed := RunStep(fuel - 1, w, step.value, ctx);
    ghost var ran := if done then Some(Ran(result, failed, globalCtx.State(), ctx.Contents())) else None;
    ChainGrows(parent.env, globalCtx.env, parent.scopes, locals, globalCtx.locals);
    LoadedStep(fuel, w, gl, g0, ctx0, lazy, step.value, ran);
  }

  method RunStep(fuel: nat, w: World, p: Parsed, ctx: StepsContext)
    returns (done: bool, result: Option<StepResult>, failed: bool)
    requires ctx.Valid()
    modifies ctx, ctx.globalCtx, ctx.globalCtx.env`mutations
    ensures ctx.Valid() && old(ctx.globalCtx.locals) <= ctx.globalCtx.locals
    ensures RunParsed(fuel, w, ctx.globalCtx.Constants(), old(ctx.globalCtx.State()), old(ctx.Contents()), p) ==
      if done then Some(Ran(result, failed, ctx.globalCtx.State(), ctx.Contents())) else None
    decreases fuel, 3
  {
    hide RunExec, Sound, Chain;
    if p.ExecStep? {
      result, failed := RunExecutable(w, p, ctx);
      done := true;
    } else {
      hide RunParsed;
      done, result, failed := RunSequence(fuel, w, p, ctx);
    }
  }

  lemma UnappliedSequence(fuel: nat, w: World, gl: Global, g: GlobalState, ctx: Ctx, p: Parsed)
    requires p.SequenceStep? && ExpandVars(w.json, ViewOf(gl, g, ctx), p.loaded.definition.env).None?
    ensures RunParsed(fuel, w, gl, g, ctx, p) ==
      Some(Ran(Some(BuildResult(p, Failure, map[], map[], map[], None, [])), true, g, ctx))
  {
    RunLaws.UnfoldSequence(fuel, w, gl, g, ctx, p);
    hide *;
  }

  lemma AppliedSequence(fuel: nat, w: World, gl: Global, g: GlobalState, ctx: Ctx, p: Parsed, ctx1: Ctx, ran: Option<StepsRan>)
    requires p.SequenceStep? && ExpandVars(w.json, ViewOf(gl, g, ctx), p.loaded.definition.env).Some?
    requires ctx1 == ctx.(scopes := Push(ctx.scopes, ExpandVars(w.json, ViewOf(gl, g, ctx), p.loaded.definition.env).value))
    requires RunSteps(fuel, w, gl, g, ctx1, p.steps) == ran
    ensures RunParsed(fuel, w, gl, g, ctx, p) ==
      if ran.None? then None else Some(FinishSequence(w, gl, p, Env(gl, g, ctx1), ran.value))
  {
    RunLaws.UnfoldSequence(fuel, w, gl, g, ctx, p);
    hide *;
  }

  method RunSequence(fuel: nat, w: World, p: Parsed, ctx: StepsContext)
    returns (done: bool, result: Option<StepResult>, failed: bool)
    requires p.SequenceStep? && ctx.Valid()
    modifies ctx, ctx.globalCtx, ctx.globalCtx.env`mutations
    ensures ctx.Valid() && old(ctx.globalCtx.locals) <= ctx.globalCtx.locals
    ensures RunParsed(fuel, w, ctx.globalCtx.Constants(), old(ctx.globalCtx.State()), old(ctx.Contents()), p) ==
      if done then Some(Ran(result, failed, ctx.globalCtx.State(), ctx.Contents())) else None
    decreases fuel, 2
  {
    hide RunParsed, RunSteps, ExpandVars, ViewOf, Env, Push, Sound, Chain, BuildResult, FinishSequence;
    ghost var gl, g0, ctx0 := ctx.globalCtx.Constants(), ctx.globalCtx.State(), ctx.Contents();
    result, failed := None, true;
    var bldr := new StepResultBuilder(p);
    var applied := ApplyEnv(w, ctx, bldr, p.loaded.definition.env);
    if !applied {
      UnappliedSequence(fuel, w, gl, g0, ctx0, p);
      var r := bldr.BuildFailure();
      return true, Some(r), true;
    }
    ghost var ctx1 := ctx.Contents();
    done, failed := RunEach(fuel, w, p.steps, ctx, bldr);
    ghost var ran := if done then Some(StepsRan(bldr.subStepResults, failed, ctx.globalCtx.State(), ctx.Contents())) else None;
    AppliedSequence(fuel, w, gl, g0, ctx0, p, ctx1, ran);
    if done {
      result, failed := FinishRun(w, p, ctx, bldr, failed);
    }
  }

  // Reads the outputs of a sequence that came through and builds the result.
  method FinishRun(w: World, p: Parsed, ctx: StepsContext, bldr: StepResultBuilder, stepsFailed: bool)
    returns (result: Option<StepResult>, failed: bool)
    requires p.SequenceStep? && ctx.Valid() && bldr.parsed == p
    requires bldr.outputs == map[] && bldr.exports == map[] && bldr.execResult == None
    modifies bldr`outputs
    ensures Ran(result, failed, ctx.globalCtx.State(), ctx.Contents()) ==
      FinishSequence(w, ctx.globalCtx.Constants(), p, bldr.env, StepsRan(bldr.subStepResults, stepsFailed, ctx.globalCtx.State(), ctx.Contents()))
  {
    hide Sound, Chain, BuildResult, SequenceOutputs;
    if stepsFailed {
      var r := bldr.BuildFailure();
      return Some(r), true;
    }
    var outputs := ReadSequenceOutputs(w, ctx, p.loaded);
    bldr.ObserveOutputs(outputs);
    if outputs.None? {
      var r := bldr.BuildFailure();
      return Some(r), true;
    }
    var r := bldr.Build();
    result, failed := Some(r), false;
  }

  // One after the other; each result is observed and recorded, and the first error ends the loop.
  method RunEach(fuel: nat, w: World, steps: seq<LazyStep>, ctx: StepsContext, bldr: StepResultBuilder)
    returns (done: bool, failed: bool)
    requires ctx.Valid() && bldr.subStepResults == []
    modifies ctx`steps, bldr`subStepResults, ctx.globalCtx, ctx.globalCtx.env`mutations
    ensures ctx.Valid() && old(ctx.globalCtx.locals) <= ctx.globalCtx.locals
    ensures RunSteps(fuel, w, ctx.globalCtx.Constants(), old(ctx.globalCtx.State()), old(ctx.Contents()), steps) ==
      if done then Some(StepsRan(bldr.subStepResults, failed, ctx.globalCtx.State(), ctx.Contents())) else None
    decreases fuel, 1
  {
    hide RunSteps, RunLazy, Continued, Record, Sound, Chain;
    ghost var gl, g0, ctx0 := ctx.globalCtx.Constants(), ctx.globalCtx.State(), ctx.Contents();
    ContinuedStart(fuel, w, gl, g0, ctx0, steps);
    for i := 0 to |steps|
      invariant ctx.Valid() && old(ctx.globalCtx.locals) <= ctx.globalCtx.locals
      invariant RunSteps(fuel, w, gl, g0, ctx0, steps) ==
        Continued(fuel, w, gl, bldr.subStepResults, ctx.globalCtx.State(), ctx.Contents(), steps, i)
    {
      ContinuedStep(fuel, w, gl, bldr.subStepResults, ctx.globalCtx.State(), ctx.Contents(), steps, i);
      var finished, result, err := RunLazyStep(fuel, w, steps[i], ctx);
      if !finished {
        return false, true;
      }
      bldr.ObserveStepResult(result);
      ctx.RecordResult(result);
      if err {
        return true, true;
      }
    }
    ContinuedEnd(fuel, w, gl, bldr.subStepResults, ctx.globalCtx.State(), ctx.Contents(), steps);
    done, failed := true, false;
  }
}
