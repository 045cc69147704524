// What every run of a step tree keeps.
module RunLaws {
  import opened Prelude
  import opened Expressions
  import opened Interpolation
  import opened Proto
  import opened StepSemantics

  // ---- Unfolding ----

  lemma UnfoldSteps(fuel: nat, w: World, gl: Global, g: GlobalState, ctx: Ctx, steps: seq<LazyStep>)
    requires steps != []
    ensures RunSteps(fuel, w, gl, g, ctx, steps) ==
      match RunLazy(fuel, w, gl, g, ctx, steps[0])
      case None => None
      case Some(o) =>
        if o.failed then Some(StepsRan(Reported(o.result), true, o.g, Record(ctx, o.result)))
        else match RunSteps(fuel, w, gl, o.g, Record(ctx, o.result), steps[1..])
          case None => None
          case Some(s) => Some(s.(results := Reported(o.result) + s.results))
  {
    hide RunLazy;
  }

  lemma UnfoldLazy(fuel: nat, w: World, gl: Global, g: GlobalState, ctx: Ctx, lazy: LazyStep)
    requires fuel > 0
    ensures RunLazy(fuel, w, gl, g, ctx, lazy) ==
      match Load(w, gl, g, ctx, lazy)
      case None => Some(Outcome(None, true, Tick(g)))
      case Some(p) =>
        var inputs := InputsWithDefault(p.params, p.loaded.spec.inputs);
        match NewContext(w, g.tick + 1, p.loaded.dir, inputs, Push(ctx.scopes, p.params.env))
        case None => Some(Outcome(None, true, Tick(Tick(Tick(g)))))
        case Some(nested) =>
          match RunParsed(fuel - 1, w, gl, Tick(Tick(Tick(g))), nested, p)
          case None => None
          case Some(ran) => Some(Outcome(ran.result, ran.failed, ran.g))
  {
    hide Load, RunParsed, InputsWithDefault, NewContext;
  }

  lemma NoFuel(w: World, gl: Global, g: GlobalState, ctx: Ctx, lazy: LazyStep)
    ensures RunLazy(0, w, gl, g, ctx, lazy) == None
  {
  }

  lemma UnfoldSequence(fuel: nat, w: World, gl: Global, g: GlobalState, ctx: Ctx, p: Parsed)
    requires p.SequenceStep?
    ensures RunParsed(fuel, w, gl, g, ctx, p) ==
      match ExpandVars(w.json, ViewOf(gl, g, ctx), p.loaded.definition.env)
      case None => Some(Ran(Some(BuildResult(p, Failure, map[], map[], map[], None, [])), true, g, ctx))
      case Some(vars) =>
        var ctx1 := ctx.(scopes := Push(ctx.scopes, vars));
        match RunSteps(fuel, w, gl, g, ctx1, p.steps)
        case None => None
        case Some(s) => Some(FinishSequence(w, gl, p, Env(gl, g, ctx1), s))
  {
    hide RunSteps, FinishSequence, ExpandVars, ViewOf, Env;
  }

  // ---- Fuel ----

  // Once a run finishes, more fuel changes nothing: the outcome belongs to the step.
  lemma {:induction false} MoreFuelLazy(n: nat, m: nat, w: World, gl: Global, g: GlobalState, ctx: Ctx, lazy: LazyStep)
    requires n <= m && RunLazy(n, w, gl, g, ctx, lazy).Some?
    ensures RunLazy(m, w, gl, g, ctx, lazy) == RunLazy(n, w, gl, g, ctx, lazy)
    decreases n, 0, 0
  {
    hide Load, RunExec, FinishSequence, ExpandVars;
    var p := Load(w, gl, g, ctx, lazy);
    if p.Some? {
      var inputs := InputsWithDefault(p.value.params, p.value.loaded.spec.inputs);
      var nested := NewContext(w, g.tick + 1, p.value.loaded.dir, inputs, Push(ctx.scopes, p.value.params.env));
      if nested.Some? {
        MoreFuelParsed(n - 1, m - 1, w, gl, Tick(Tick(Tick(g))), nested.value, p.value);
      }
    }
  }

  lemma {:induction false} MoreFuelParsed(n: nat, m: nat, w: World, gl: Global, g: GlobalState, ctx: Ctx, p: Parsed)
    requires n <= m && RunParsed(n, w, gl, g, ctx, p).Some?
    ensures RunParsed(m, w, gl, g, ctx, p) == RunParsed(n, w, gl, g, ctx, p)
    decreases n, 2, 0
  {
    hide Load, RunExec, FinishSequence;
    if p.SequenceStep? {
      var vars := ExpandVars(w.json, ViewOf(gl, g, ctx), p.loaded.definition.env);
      hide ExpandVars;
      if vars.Some? {
        MoreFuelSteps(n, m, w, gl, g, ctx.(scopes := Push(ctx.scopes, vars.value)), p.steps);
      }
    }
  }

  lemma {:induction false} MoreFuelSteps(n: nat, m: nat, w: World, gl: Global, g: GlobalState, ctx: Ctx, steps: seq<LazyStep>)
    requires n <= m && RunSteps(n, w, gl, g, ctx, steps).Some?
    ensures RunSteps(m, w, gl, g, ctx, steps) == RunSteps(n, w, gl, g, ctx, steps)
    decreases n, 1, |steps|
  {
    hide RunLazy;
    if steps != [] {
      MoreFuelLazy(n, m, w, gl, g, ctx, steps[0]);
      var o := RunLazy(n, w, gl, g, ctx, steps[0]).value;
      if !o.failed {
        MoreFuelSteps(n, m, w, gl, o.g, Record(ctx, o.result), steps[1..]);
      }
    }
  }

  // ---- The failure spine ----

  ghost predicate AllSuccess(r: StepResult) {
    r.status.Success? && forall i :: 0 <= i < |r.subStepResults| ==> AllSuccess(r.subStepResults[i])
  }

  // A success has only successes below it. A failure has at most one failing child, and it is the
  // last; going down that child the same holds.
  ghost predicate Spine(r: StepResult) {
    && (r.status.Success? || r.status.Failure?)
    && (r.status.Success? ==> AllSuccess(r))
    && (forall i :: 0 <= i < |r.subStepResults| ==> Spine(r.subStepResults[i]))
    && (forall i :: 0 <= i < |r.subStepResults| - 1 ==> AllSuccess(r.subStepResults[i]))
  }

  ghost predicate GoodOutcome(result: Option<StepResult>, failed: bool) {
    && (!failed <==> result.Some? && result.value.status.Success?)
    && (result.Some? ==> Spine(result.value))
  }

  ghost predicate GoodResults(results: seq<StepResult>, failed: bool) {
    && (forall i :: 0 <= i < |results| ==> Spine(results[i]))
    && (forall i :: 0 <= i < |results| - 1 ==> AllSuccess(results[i]))
    && (!failed && results != [] ==> AllSuccess(results[|results| - 1]))
  }

  // No error exactly with a successful result; and every result is a spine.
  lemma {:induction false} LazySpine(fuel: nat, w: World, gl: Global, g: GlobalState, ctx: Ctx, lazy: LazyStep)
    ensures var o := RunLazy(fuel, w, gl, g, ctx, lazy);
      o.Some? ==> GoodOutcome(o.value.result, o.value.failed)
    decreases fuel, 0, 0
  {
    hide Load, RunLazy, RunParsed, Spine, InputsWithDefault, NewContext;
    if fuel == 0 {
      NoFuel(w, gl, g, ctx, lazy);
    } else {
      UnfoldLazy(fuel, w, gl, g, ctx, lazy);
      var p := Load(w, gl, g, ctx, lazy);
      if p.Some? {
        var inputs := InputsWithDefault(p.value.params, p.value.loaded.spec.inputs);
        var nested := NewContext(w, g.tick + 1, p.value.loaded.dir, inputs, Push(ctx.scopes, p.value.params.env));
        if nested.Some? {
          ParsedSpine(fuel - 1, w, gl, Tick(Tick(Tick(g))), nested.value, p.value);
        }
      }
    }
  }

  lemma ExecSpine(w: World, gl: Global, g: GlobalState, ctx: Ctx, p: Parsed)
    requires p.ExecStep?
    ensures var ran := RunExec(w, gl, g, ctx, p); GoodOutcome(ran.result, ran.failed)
  {
    hide ExpandVars, Command, ExecOutputs, EnvValues, ViewOf;
  }

  lemma {:induction false} ParsedSpine(fuel: nat, w: World, gl: Global, g: GlobalState, ctx: Ctx, p: Parsed)
    ensures var ran := RunParsed(fuel, w, gl, g, ctx, p);
      ran.Some? ==> GoodOutcome(ran.value.result, ran.value.failed)
    decreases fuel, 2, 0
  {
    hide RunExec, RunSteps, FinishSequence, ExpandVars, ViewOf, Env;
    if p.ExecStep? {
      ExecSpine(w, gl, g, ctx, p);
    } else {
      UnfoldSequence(fuel, w, gl, g, ctx, p);
      var vars := ExpandVars(w.json, ViewOf(gl, g, ctx), p.loaded.definition.env);
      if vars.Some? {
        var ctx1 := ctx.(scopes := Push(ctx.scopes, vars.value));
        StepsSpine(fuel, w, gl, g, ctx1, p.steps);
        var s := RunSteps(fuel, w, gl, g, ctx1, p.steps);
        if s.Some? {
          FinishSpine(w, gl, p, Env(gl, g, ctx1), s.value);
        }
      }
    }
  }

  lemma FinishSpine(w: World, gl: Global, p: Parsed, env: Vars, s: StepsRan)
    requires GoodResults(s.results, s.failed)
    ensures var ran := FinishSequence(w, gl, p, env, s); GoodOutcome(ran.result, ran.failed)
  {
    hide SequenceOutputs;
  }

  lemma {:induction false} StepsSpine(fuel: nat, w: World, gl: Global, g: GlobalState, ctx: Ctx, steps: seq<LazyStep>)
    ensures var s := RunSteps(fuel, w, gl, g, ctx, steps);
      s.Some? ==> GoodResults(s.value.results, s.value.failed) && (!s.value.failed ==> |s.value.results| == |steps|)
    decreases fuel, 1, |steps|
  {
    hide RunLazy, Spine;
    if steps != [] {
      LazySpine(fuel, w, gl, g, ctx, steps[0]);
      UnfoldSteps(fuel, w, gl, g, ctx, steps);
      hide RunSteps;
      var o := RunLazy(fuel, w, gl, g, ctx, steps[0]);
      if o.Some? && !o.value.failed {
        StepsSpine(fuel, w, gl, o.value.g, Record(ctx, o.value.result), steps[1..]);
        var r := RunSteps(fuel, w, gl, o.value.g, Record(ctx, o.value.result), steps[1..]);
        if r.Some? {
          GoodResultsCons(o.value.result.value, r.value.results, r.value.failed);
        }
      }
    }
  }

  lemma GoodResultsCons(first: StepResult, rest: seq<StepResult>, failed: bool)
    requires Spine(first) && first.status.Success? && GoodResults(rest, failed)
    ensures GoodResults([first] + rest, failed)
  {
    var all := [first] + rest;
    assert forall i :: 0 < i < |all| ==> all[i] == rest[i - 1];
  }

  // No step after the first error runs: what comes later cannot matter, neither to the results nor
  // to the environment nor to what is recorded.
  lemma {:induction false} FirstErrorEndsTheSequence(
    fuel: nat, w: World, gl: Global, g: GlobalState, ctx: Ctx, steps: seq<LazyStep>, later: seq<LazyStep>)
    requires RunSteps(fuel, w, gl, g, ctx, steps).Some? && RunSteps(fuel, w, gl, g, ctx, steps).value.failed
    ensures RunSteps(fuel, w, gl, g, ctx, steps + later) == RunSteps(fuel, w, gl, g, ctx, steps)
    decreases |steps|
  {
    hide RunLazy;
    assert (steps + later)[0] == steps[0];
    assert (steps + later)[1..] == steps[1..] + later;
    var o := RunLazy(fuel, w, gl, g, ctx, steps[0]).value;
    if !o.failed {
      FirstErrorEndsTheSequence(fuel, w, gl, o.g, Record(ctx, o.result), steps[1..], later);
    }
  }

  // A run that comes through continues from the state it left.
  lemma {:induction false} SuccessContinues(
    fuel: nat, w: World, gl: Global, g: GlobalState, ctx: Ctx, steps: seq<LazyStep>, later: seq<LazyStep>)
    requires RunSteps(fuel, w, gl, g, ctx, steps).Some? && !RunSteps(fuel, w, gl, g, ctx, steps).value.failed
    ensures var s := RunSteps(fuel, w, gl, g, ctx, steps).value;
      RunSteps(fuel, w, gl, g, ctx, steps + later) ==
        match RunSteps(fuel, w, gl, s.g, s.ctx, later)
        case None => None
        case Some(t) => Some(t.(results := s.results + t.results))
    decreases |steps|
  {
    hide RunLazy;
    if steps == [] {
      assert steps + later == later;
      var t := RunSteps(fuel, w, gl, g, ctx, later);
      if t.Some? {
        assert [] + t.value.results == t.value.results;
      }
    } else {
      assert (steps + later)[0] == steps[0];
      assert (steps + later)[1..] == steps[1..] + later;
      var o := RunLazy(fuel, w, gl, g, ctx, steps[0]).value;
      var ctx1 := Record(ctx, o.result);
      SuccessContinues(fuel, w, gl, o.g, ctx1, steps[1..], later);
      var s := RunSteps(fuel, w, gl, o.g, ctx1, steps[1..]).value;
      var t := RunSteps(fuel, w, gl, s.g, s.ctx, later);
      if t.Some? {
        assert Reported(o.result) + (s.results + t.value.results) == Reported(o.result) + s.results + t.value.results;
      }
    }
  }

  // A sequence always reports a result, even when it fails; a command reports none only if the
  // "Running step" line cannot be logged.
  lemma TopLevelResult(fuel: nat, w: World, gl: Global, g: GlobalState, ctx: Ctx, p: Parsed)
    requires RunParsed(fuel, w, gl, g, ctx, p).Some?
    ensures RunParsed(fuel, w, gl, g, ctx, p).value.result.Some? <==> p.SequenceStep? || w.log(g.tick)
  {
    hide ExpandVars, Command, ExecOutputs, RunSteps, SequenceOutputs, ViewOf, EnvValues;
  }

  lemma FailedIsFailure(fuel: nat, w: World, gl: Global, g: GlobalState, ctx: Ctx, p: Parsed)
    requires RunParsed(fuel, w, gl, g, ctx, p).Some?
    ensures var ran := RunParsed(fuel, w, gl, g, ctx, p).value;
      ran.failed && ran.result.Some? ==> ran.result.value.status.Failure?
  {
    hide ExpandVars, Command, ExecOutputs, RunSteps, SequenceOutputs, ViewOf, EnvValues;
  }

  // ---- Exports are conserved ----

  // The exports recorded in a result forest, in execution order.
  function ExportLog(results: seq<StepResult>): seq<Vars> {
    if results == [] then []
    else
      var r := results[0];
      ExportLog(r.subStepResults) + (if r.exports == map[] then [] else [r.exports]) + ExportLog(results[1..])
  }

  lemma {:induction false} ExportLogAppend(a: seq<StepResult>, b: seq<StepResult>)
    ensures ExportLog(a + b) == ExportLog(a) + ExportLog(b)
    decreases |a|
  {
    if a == [] {
      assert a + b == b;
    } else {
      assert (a + b)[1..] == a[1..] + b;
      ExportLogAppend(a[1..], b);
    }
  }

  lemma ExportLogOne(r: StepResult)
    ensures ExportLog([r]) == ExportLog(r.subStepResults) + if r.exports == map[] then [] else [r.exports]
  {
    assert [r][1..] == [];
  }

  // A run adds to the global environment exactly the exports its results record, in execution order.
  lemma {:induction false} LazyExports(fuel: nat, w: World, gl: Global, g: GlobalState, ctx: Ctx, lazy: LazyStep)
    ensures var o := RunLazy(fuel, w, gl, g, ctx, lazy);
      o.Some? ==> o.value.g.exports == g.exports + ExportLog(Reported(o.value.result))
    decreases fuel, 0, 0
  {
    hide Load, RunLazy, RunParsed, InputsWithDefault, NewContext;
    if fuel == 0 {
      NoFuel(w, gl, g, ctx, lazy);
    } else {
      UnfoldLazy(fuel, w, gl, g, ctx, lazy);
      var p := Load(w, gl, g, ctx, lazy);
      if p.Some? {
        var inputs := InputsWithDefault(p.value.params, p.value.loaded.spec.inputs);
        var nested := NewContext(w, g.tick + 1, p.value.loaded.dir, inputs, Push(ctx.scopes, p.value.params.env));
        if nested.Some? {
          ParsedExports(fuel - 1, w, gl, Tick(Tick(Tick(g))), nested.value, p.value);
        }
      }
    }
  }

  lemma CollectExports(w: World, g: GlobalState, ctx: Ctx, p: Parsed, env: Vars, executed: Option<ExecResult>, out: ExecOutcome)
    ensures var ran := Collect(w, g, ctx, p, env, executed, out);
      ran.result.Some? && ran.g.exports == g.exports + ExportLog([ran.result.value])
  {
    hide ExecOutputs, ExportLog;
    NoExports();
    ExportLogOne(Collect(w, g, ctx, p, env, executed, out).result.value);
  }

  lemma ExecExports(w: World, gl: Global, g: GlobalState, ctx: Ctx, p: Parsed)
    requires p.ExecStep?
    ensures var ran := RunExec(w, gl, g, ctx, p); ran.g.exports == g.exports + ExportLog(Reported(ran.result))
  {
    hide ExpandVars, RunCommand, ExportLog, ViewOf, EnvValues;
    NoExports();
    var ran := RunExec(w, gl, g, ctx, p);
    if ran.result.Some? {
      ExportLogOne(ran.result.value);
    }
    var vars := ExpandVars(w.json, ViewOf(gl, Tick(g), ctx), p.loaded.definition.env);
    if vars.Some? {
      CommandExports(w, gl, Tick(g), ctx.(scopes := Push(ctx.scopes, vars.value)), p);
    }
  }

  lemma CommandExports(w: World, gl: Global, g: GlobalState, ctx: Ctx, p: Parsed)
    requires p.ExecStep?
    ensures var ran := RunCommand(w, gl, g, ctx, p);
      ran.result.Some? && ran.g.exports == g.exports + ExportLog([ran.result.value])
  {
    hide Command, Collect, ExportLog, ViewOf, EnvValues;
    NoExports();
    var c := Command(w, gl, g, ctx, p.loaded.definition);
    if c.Some? {
      var out := w.exec(g.tick, c.value.0, c.value.1, Env(gl, g, ctx));
      CollectExports(w, Tick(g), ctx, p, Env(gl, g, ctx), Some(ExecResult(c.value.0, c.value.1, out.exitCode)), out);
    } else {
      ExportLogOne(RunCommand(w, gl, g, ctx, p).result.value);
    }
  }

  lemma {:induction false} ParsedExports(fuel: nat, w: World, gl: Global, g: GlobalState, ctx: Ctx, p: Parsed)
    ensures var ran := RunParsed(fuel, w, gl, g, ctx, p);
      ran.Some? ==> ran.value.g.exports == g.exports + ExportLog(Reported(ran.value.result))
    decreases fuel, 2, 0
  {
    hide RunExec, RunSteps, ExpandVars, ViewOf, Env, SequenceOutputs, ExportLog;
    if p.ExecStep? {
      ExecExports(w, gl, g, ctx, p);
    } else {
      UnfoldSequence(fuel, w, gl, g, ctx, p);
      hide RunParsed;
      var vars := ExpandVars(w.json, ViewOf(gl, g, ctx), p.loaded.definition.env);
      if vars.Some? {
        StepsExports(fuel, w, gl, g, ctx.(scopes := Push(ctx.scopes, vars.value)), p.steps);
      }
      var ran := RunParsed(fuel, w, gl, g, ctx, p);
      if ran.Some? {
        ExportLogOne(ran.value.result.value);
        NoExports();
      }
    }
  }

  lemma NoExports()
    ensures ExportLog([]) == []
  {
  }

  lemma {:induction false} StepsExports(fuel: nat, w: World, gl: Global, g: GlobalState, ctx: Ctx, steps: seq<LazyStep>)
    ensures var s := RunSteps(fuel, w, gl, g, ctx, steps);
      s.Some? ==> s.value.g.exports == g.exports + ExportLog(s.value.results) && s.value.ctx.scopes == ctx.scopes
    decreases fuel, 1, |steps|
  {
    hide RunLazy, ExportLog;
    NoExports();
    if steps != [] {
      UnfoldSteps(fuel, w, gl, g, ctx, steps);
      hide RunSteps;
      LazyExports(fuel, w, gl, g, ctx, steps[0]);
      var o := RunLazy(fuel, w, gl, g, ctx, steps[0]);
      if o.Some? && !o.value.failed {
        var ctx1 := Record(ctx, o.value.result);
        StepsExports(fuel, w, gl, o.value.g, ctx1, steps[1..]);
        var r := RunSteps(fuel, w, gl, o.value.g, ctx1, steps[1..]);
        if r.Some? {
          ExportLogAppend(Reported(o.value.result), r.value.results);
        }
      }
    }
  }

  // ---- Scoping over a whole run ----

  // The newest of the maps that binds the key.
  function Latest(maps: seq<Vars>, key: string): Option<string> {
    if maps == [] then None
    else if key in maps[|maps| - 1] then Some(maps[|maps| - 1][key])
    else Latest(maps[..|maps| - 1], key)
  }

  predicate ScopeBinds(scopes: seq<Vars>, key: string) {
    exists i :: 0 <= i < |scopes| && key in scopes[i]
  }

  lemma {:induction false} OverlayLatest(base: Vars, exports: seq<Vars>, more: seq<Vars>, key: string)
    ensures At(Overlay(base, exports + more), key) ==
      if Latest(more, key).Some? then Latest(more, key) else At(Overlay(base, exports), key)
  {
    if more == [] {
      assert exports + more == exports;
    } else {
      var all := exports + more;
      assert all[..|all| - 1] == exports + more[..|more| - 1];
      OverlayLatest(base, exports, more[..|more| - 1], key);
    }
  }

  // Keys bound by a scope do not see exports; every other key sees the latest one.
  lemma {:induction false} ScopingLaw(base: Vars, exports: seq<Vars>, more: seq<Vars>, scopes: seq<Vars>, key: string)
    ensures At(EnvValues(base, exports + more, scopes), key) ==
      if ScopeBinds(scopes, key) || Latest(more, key).None? then At(EnvValues(base, exports, scopes), key)
      else Latest(more, key)
  {
    if scopes == [] {
      OverlayLatest(base, exports, more, key);
    } else {
      ScopingLaw(base, exports, more, scopes[1..], key);
      assert ScopeBinds(scopes, key) <==> key in scopes[0] || ScopeBinds(scopes[1..], key) by {
        if ScopeBinds(scopes[1..], key) {
          var i :| 0 <= i < |scopes[1..]| && key in scopes[1..][i];
          assert key in scopes[i + 1];
        }
        if ScopeBinds(scopes, key) && key !in scopes[0] {
          var i :| 0 <= i < |scopes| && key in scopes[i];
          assert key in scopes[1..][i - 1];
        }
      }
    }
  }

  // Through any run of steps a context's scopes stay, and its values change only on keys no scope
  // below the global environment binds, to the latest export in execution order.
  lemma WholeRunScoping(fuel: nat, w: World, gl: Global, g: GlobalState, ctx: Ctx, steps: seq<LazyStep>, key: string)
    requires RunSteps(fuel, w, gl, g, ctx, steps).Some?
    ensures var s := RunSteps(fuel, w, gl, g, ctx, steps).value;
      && s.ctx.scopes == ctx.scopes
      && At(Env(gl, s.g, s.ctx), key) ==
         if ScopeBinds(ctx.scopes, key) || Latest(ExportLog(s.results), key).None? then At(Env(gl, g, ctx), key)
         else Latest(ExportLog(s.results), key)
  {
    StepsExports(fuel, w, gl, g, ctx, steps);
    hide RunSteps;
    var s := RunSteps(fuel, w, gl, g, ctx, steps).value;
    ScopingLaw(gl.base, g.exports, ExportLog(s.results), ctx.scopes, key);
  }

  lemma PushedIsOnTop(base: Vars, exports: seq<Vars>, scopes: seq<Vars>, vars: Vars)
    ensures EnvValues(base, exports, Push(scopes, vars)) == EnvValues(base, exports, scopes) + vars
  {
    if vars != map[] {
      assert ([vars] + scopes)[1..] == scopes;
    }
  }

  // A nested step starts from a snapshot of everything its caller sees, under its own variables.
  // However the global environment grows after that, those keys stay as they were when it was loaded.
  lemma SnapshotStaysFixed(w: World, gl: Global, g: GlobalState, ctx: Ctx, lazy: LazyStep, more: seq<Vars>, key: string)
    requires Load(w, gl, g, ctx, lazy).Some?
    ensures var snapshot := Load(w, gl, g, ctx, lazy).value.params.env;
      && (key in Env(gl, g, ctx) ==> key in snapshot)
      && (key in snapshot ==>
            && At(EnvValues(gl.base, g.exports + more, Push(ctx.scopes, snapshot)), key) == Some(snapshot[key])
            && Some(snapshot[key]) ==
               if key in lazy.step.env then ExpandedString(w.json, ViewOf(gl, g, ctx), lazy.step.env[key])
               else At(Env(gl, g, ctx), key))
  {
    hide ExpandedString, Fetch, ExpandValues, ViewOf;
    var snapshot := Load(w, gl, g, ctx, lazy).value.params.env;
    var vars := ExpandVars(w.json, ViewOf(gl, g, ctx), lazy.step.env).value;
    PushedIsOnTop(gl.base, g.exports, ctx.scopes, vars);
    PushedIsOnTop(gl.base, g.exports + more, ctx.scopes, snapshot);
  }

  // ---- Recorded results and delegation ----

  // The last result with a name.
  function LastNamed(results: seq<StepResult>, name: string): Option<StepResult> {
    if results == [] then None
    else if results[|results| - 1].step.name == name then Some(results[|results| - 1])
    else LastNamed(results[..|results| - 1], name)
  }

  lemma {:induction false} LastNamedCons(first: StepResult, rest: seq<StepResult>, name: string)
    ensures LastNamed([first] + rest, name) ==
      if LastNamed(rest, name).Some? then LastNamed(rest, name)
      else if first.step.name == name then Some(first) else None
  {
    var all := [first] + rest;
    if rest == [] {
      assert all[..|all| - 1] == [];
    } else {
      assert all[..|all| - 1] == [first] + rest[..|rest| - 1];
      LastNamedCons(first, rest[..|rest| - 1], name);
    }
  }

  // What is recorded under a name is the last result with it.
  lemma {:induction false} StepsRecorded(fuel: nat, w: World, gl: Global, g: GlobalState, ctx: Ctx, steps: seq<LazyStep>, name: string)
    ensures var s := RunSteps(fuel, w, gl, g, ctx, steps);
      s.Some? ==>
        && (KeysAreNames(ctx.steps) ==> KeysAreNames(s.value.ctx.steps))
        && Expressions.At(s.value.ctx.steps, name) ==
           if LastNamed(s.value.results, name).Some? then LastNamed(s.value.results, name)
           else Expressions.At(ctx.steps, name)
    decreases |steps|
  {
    hide RunLazy;
    if steps != [] {
      UnfoldSteps(fuel, w, gl, g, ctx, steps);
      hide RunSteps;
      var o := RunLazy(fuel, w, gl, g, ctx, steps[0]);
      if o.Some? {
        var ctx1 := Record(ctx, o.value.result);
        if o.value.failed {
          if o.value.result.Some? {
            LastNamedCons(o.value.result.value, [], name);
            assert [o.value.result.value] + [] == [o.value.result.value];
          }
        } else {
          StepsRecorded(fuel, w, gl, o.value.g, ctx1, steps[1..], name);
          var r := RunSteps(fuel, w, gl, o.value.g, ctx1, steps[1..]);
          if r.Some? {
            if o.value.result.Some? {
              LastNamedCons(o.value.result.value, r.value.results, name);
            } else {
              assert Reported(o.value.result) + r.value.results == r.value.results;
            }
          }
        }
      }
    }
  }

  // A delegating sequence in a fresh context whose steps all succeed returns the outputs of the
  // last sub-step with the delegate's name, and fails exactly when there is none.
  lemma DelegationIsLastWins(fuel: nat, w: World, gl: Global, g: GlobalState, ctx: Ctx, p: Parsed)
    requires p.SequenceStep? && p.loaded.spec.outputMethod.DelegateMethod? && ctx.steps == map[]
    requires RunParsed(fuel, w, gl, g, ctx, p).Some?
    requires ExpandVars(w.json, ViewOf(gl, g, ctx), p.loaded.definition.env).Some?
    ensures var ran := RunParsed(fuel, w, gl, g, ctx, p).value;
      && ran.result.Some?
      && (var r := ran.result.value;
          var last := LastNamed(r.subStepResults, p.loaded.definition.delegate);
          && (!ran.failed ==> last.Some? && r.outputs == last.value.outputs)
          && (|r.subStepResults| == |p.steps| && (forall i :: 0 <= i < |p.steps| ==> r.subStepResults[i].status.Success?) ==>
                (ran.failed <==> last.None?)))
  {
    var vars := ExpandVars(w.json, ViewOf(gl, g, ctx), p.loaded.definition.env).value;
    var ctx1 := ctx.(scopes := Push(ctx.scopes, vars));
    StepsRecorded(fuel, w, gl, g, ctx1, p.steps, p.loaded.definition.delegate);
    FailureIsVisible(fuel, w, gl, g, ctx1, p.steps);
    hide RunSteps, ExpandVars, ViewOf, EnvValues;
  }

  // A failed sequence either lacks a result or has one that is no success.
  lemma {:induction false} FailureIsVisible(fuel: nat, w: World, gl: Global, g: GlobalState, ctx: Ctx, steps: seq<LazyStep>)
    requires RunSteps(fuel, w, gl, g, ctx, steps).Some?
    ensures var s := RunSteps(fuel, w, gl, g, ctx, steps).value;
      s.failed ==> |s.results| < |steps| || exists i :: 0 <= i < |s.results| && !s.results[i].status.Success?
    decreases |steps|
  {
    hide RunLazy, Spine;
    if steps != [] {
      LazySpine(fuel, w, gl, g, ctx, steps[0]);
      UnfoldSteps(fuel, w, gl, g, ctx, steps);
      hide RunSteps;
      var o := RunLazy(fuel, w, gl, g, ctx, steps[0]).value;
      var s := RunSteps(fuel, w, gl, g, ctx, steps).value;
      if o.failed {
        if o.result.Some? {
          assert s.results[0] == o.result.value;
        }
      } else {
        FailureIsVisible(fuel, w, gl, o.g, Record(ctx, o.result), steps[1..]);
        var r := RunSteps(fuel, w, gl, o.g, Record(ctx, o.result), steps[1..]).value;
        if r.failed && |r.results| >= |steps[1..]| {
          var i :| 0 <= i < |r.results| && !r.results[i].status.Success?;
          assert s.results[i + 1] == r.results[i];
        }
      }
    }
  }

  // ---- Inputs ----

  // A loaded step's inputs have exactly the declared names, each the argument expanded in the
  // caller's view or else the default; and every argument is declared.
  lemma LoadedInputs(w: World, gl: Global, g: GlobalState, ctx: Ctx, lazy: LazyStep)
    requires Load(w, gl, g, ctx, lazy).Some?
    ensures var p := Load(w, gl, g, ctx, lazy).value;
      var specInputs := p.loaded.spec.inputs;
      var inputs := InputsWithDefault(p.params, specInputs);
      && inputs.Keys == specInputs.Keys && lazy.step.inputs.Keys <= specInputs.Keys
      && forall name :: name in inputs ==>
           if name in lazy.step.inputs
           then Expanded(w.json, ViewOf(gl, g, ctx), lazy.step.inputs[name]) == Some(inputs[name])
           else specInputs[name].default == Some(inputs[name])
  {
    hide Fetch, Expanded, ExpandVars, ViewOf, EnvValues;
  }

  // ---- Results and what was loaded ----

  // What a result says of its step: as loaded, with the arguments and the snapshot it was given.
  ghost predicate OfStep(p: Parsed, result: StepResult) {
    && result.step == Step(p.name, p.reference, p.params.env, p.params.inputs)
    && result.specDefinition == SpecDefinition(p.loaded.spec, p.loaded.definition)
  }

  lemma ParsedResult(fuel: nat, w: World, gl: Global, g: GlobalState, ctx: Ctx, p: Parsed)
    ensures var ran := RunParsed(fuel, w, gl, g, ctx, p);
      ran.Some? && ran.value.result.Some? ==> OfStep(p, ran.value.result.value)
  {
    if p.SequenceStep? {
      SequenceResult(fuel, w, gl, g, ctx, p);
    } else {
      assert RunParsed(fuel, w, gl, g, ctx, p) == Some(RunExec(w, gl, g, ctx, p));
      ResultOfExec(w, gl, g, ctx, p);
    }
    hide *;
  }

  lemma SequenceResult(fuel: nat, w: World, gl: Global, g: GlobalState, ctx: Ctx, p: Parsed)
    requires p.SequenceStep?
    ensures var ran := RunParsed(fuel, w, gl, g, ctx, p);
      ran.Some? && ran.value.result.Some? ==> OfStep(p, ran.value.result.value)
  {
    hide RunSteps, RunParsed, ExpandVars, Env, ViewOf, SequenceOutputs;
    UnfoldSequence(fuel, w, gl, g, ctx, p);
  }

  lemma ResultOfExec(w: World, gl: Global, g: GlobalState, ctx: Ctx, p: Parsed)
    requires p.ExecStep?
    ensures var ran := RunExec(w, gl, g, ctx, p);
      ran.result.Some? ==> OfStep(p, ran.result.value)
  {
    hide ExpandVars, Command, ExecOutputs, Env, ViewOf;
  }

  // A result is that of the step that was loaded.
  lemma ResultOfLoaded(fuel: nat, w: World, gl: Global, g: GlobalState, ctx: Ctx, lazy: LazyStep)
    ensures var o := RunLazy(fuel, w, gl, g, ctx, lazy);
      o.Some? && o.value.result.Some? ==>
        Load(w, gl, g, ctx, lazy).Some? && OfStep(Load(w, gl, g, ctx, lazy).value, o.value.result.value)
  {
    hide Load, RunLazy, RunParsed, OfStep, InputsWithDefault, NewContext;
    if fuel == 0 {
      NoFuel(w, gl, g, ctx, lazy);
    } else {
      UnfoldLazy(fuel, w, gl, g, ctx, lazy);
      var p := Load(w, gl, g, ctx, lazy);
      if p.Some? {
        var inputs := InputsWithDefault(p.value.params, p.value.loaded.spec.inputs);
        var nested := NewContext(w, g.tick + 1, p.value.loaded.dir, inputs, Push(ctx.scopes, p.value.params.env));
        if nested.Some? {
          ParsedResult(fuel - 1, w, gl, Tick(Tick(Tick(g))), nested.value, p.value);
        }
      }
    }
  }

  // What was loaded: the fetched definition, and arguments and snapshot expanded in the context.
  lemma LoadedSays(w: World, gl: Global, g: GlobalState, ctx: Ctx, lazy: LazyStep)
    requires Load(w, gl, g, ctx, lazy).Some?
    ensures var p := Load(w, gl, g, ctx, lazy).value;
      var view := ViewOf(gl, g, ctx);
      && p.name == lazy.step.name && Fetch(w, g.tick, lazy.resource, view) == Some(p.loaded)
      && Some(p.params.inputs) == ExpandValues(w.json, view, lazy.step.inputs)
      && ExpandVars(w.json, view, lazy.step.env).Some?
      && p.params.env == EnvValues(gl.base, g.exports, Push(ctx.scopes, ExpandVars(w.json, view, lazy.step.env).value))
  {
    hide Fetch, ExpandVars, ExpandValues, ViewOf, EnvValues, ParseSteps, ValidInputs;
  }

  // ---- The steps of a sequence, one by one ----

  // The k-th reported result is that of the k-th step, run in the context and after the exports of
  // the results before it.
  lemma {:induction false} KthStep(fuel: nat, w: World, gl: Global, g: GlobalState, ctx: Ctx, steps: seq<LazyStep>, k: nat)
    returns (gk: GlobalState, ctxk: Ctx)
    requires RunSteps(fuel, w, gl, g, ctx, steps).Some? && k < |RunSteps(fuel, w, gl, g, ctx, steps).value.results|
    ensures var results := RunSteps(fuel, w, gl, g, ctx, steps).value.results;
      && k < |steps| && RunLazy(fuel, w, gl, gk, ctxk, steps[k]).Some?
      && RunLazy(fuel, w, gl, gk, ctxk, steps[k]).value.result == Some(results[k])
      && gk.exports == g.exports + ExportLog(results[..k])
      && ctxk == ctx.(steps := ctxk.steps)
      && forall name :: Expressions.At(ctxk.steps, name) ==
           if LastNamed(results[..k], name).Some? then LastNamed(results[..k], name) else Expressions.At(ctx.steps, name)
    decreases k
  {
    hide RunLazy, RunSteps, ExportLog, LastNamed, Spine;
    if steps == [] {
      NoSteps(fuel, w, gl, g, ctx);
    }
    UnfoldSteps(fuel, w, gl, g, ctx, steps);
    var o := RunLazy(fuel, w, gl, g, ctx, steps[0]).value;
    var results := RunSteps(fuel, w, gl, g, ctx, steps).value.results;
    LazySpine(fuel, w, gl, g, ctx, steps[0]);
    NoExports();
    if k == 0 {
      gk, ctxk := g, ctx;
      assert results[..0] == [] && g.exports + [] == g.exports;
      NoneNamed();
    } else {
      var rest := RunSteps(fuel, w, gl, o.g, Record(ctx, o.result), steps[1..]).value.results;
      assert results == [o.result.value] + rest;
      gk, ctxk := KthStep(fuel, w, gl, o.g, Record(ctx, o.result), steps[1..], k - 1);
      assert results[..k] == [o.result.value] + rest[..k - 1];
      ExportLogAppend([o.result.value], rest[..k - 1]);
      LazyExports(fuel, w, gl, g, ctx, steps[0]);
      forall name ensures Expressions.At(ctxk.steps, name) ==
        if LastNamed(results[..k], name).Some? then LastNamed(results[..k], name) else Expressions.At(ctx.steps, name)
      {
        LastNamedCons(o.result.value, rest[..k - 1], name);
      }
    }
  }

  lemma NoSteps(fuel: nat, w: World, gl: Global, g: GlobalState, ctx: Ctx)
    ensures RunSteps(fuel, w, gl, g, ctx, []) == Some(StepsRan([], false, g, ctx))
  {
  }

  lemma NoneNamed()
    ensures forall name :: LastNamed([], name) == None
  {
  }
}
