// What running a step means from end to end: what its definition's expressions see, what its command
// is given and leaves behind, and what a sequence hands on. Each law is about any finished run of a
// lazily loaded step and speaks of its call, its definition, its result and the world's answers.
module StepMeaning {
  import opened Prelude
  import opened GoStrings
  import opened Values
  import opened Expressions
  import opened Templates
  import opened Interpolation
  import opened InterpolationLaws
  import opened Proto
  import opened OutputSpec
  import opened StepFiles
  import opened StepSemantics
  import opened RunLaws

  // ---- What a step sees ----

  // A view inside a step: its inputs are exactly the declared ones, each the argument expanded in the
  // caller's view or else the default; step_dir is the directory it was loaded from; output_file and
  // export_file are the first and the second temporary file made for it; job and work_dir are global.
  ghost predicate Inside(w: World, gl: Global, g: GlobalState, ctx: Ctx, lazy: LazyStep, r: StepResult, view: View) {
    var caller, spec := ViewOf(gl, g, ctx), r.specDefinition.spec;
    && view.inputs.Keys == spec.inputs.Keys && lazy.step.inputs.Keys <= spec.inputs.Keys
    && (forall name :: name in view.inputs ==>
          if name in lazy.step.inputs then Expanded(w.json, caller, lazy.step.inputs[name]) == Some(view.inputs[name])
          else spec.inputs[name].default == Some(view.inputs[name]))
    && Fetch(w, g.tick, lazy.resource, caller) == Some(LoadedSpec(spec, r.specDefinition.definition, view.stepDir))
    && w.tempFile(g.tick + 1) == Some(view.outputFile) && w.tempFile(g.tick + 2) == Some(view.exportFile)
    && view.job == gl.job && view.workDir == gl.workDir
  }

  // The variables expanded in a view, on top of its environment.
  ghost predicate OnTop(json: JsonOf, view: View, vars: Vars, env: Vars) {
    forall key ::
      Expressions.At(env, key) == if key in vars then ExpandedString(json, view, vars[key]) else Expressions.At(view.env, key)
  }

  ghost predicate Expandable(json: JsonOf, view: View, vars: Vars) {
    forall key :: key in vars ==> ExpandedString(json, view, vars[key]).Some?
  }

  // ---- How a run unfolds ----

  ghost predicate Opened(w: World, gl: Global, g: GlobalState, ctx: Ctx, lazy: LazyStep, p: Parsed, nested: Ctx) {
    && Load(w, gl, g, ctx, lazy) == Some(p)
    && NewContext(w, g.tick + 1, p.loaded.dir, InputsWithDefault(p.params, p.loaded.spec.inputs), Push(ctx.scopes, p.params.env))
       == Some(nested)
  }

  lemma RanNested(fuel: nat, w: World, gl: Global, g: GlobalState, ctx: Ctx, lazy: LazyStep, o: Outcome)
    returns (p: Parsed, nested: Ctx, ran: Ran)
    requires RunLazy(fuel, w, gl, g, ctx, lazy) == Some(o) && o.result.Some?
    ensures fuel > 0 && Opened(w, gl, g, ctx, lazy, p, nested) && OfStep(p, o.result.value)
    ensures RunParsed(fuel - 1, w, gl, Tick(Tick(Tick(g))), nested, p) == Some(ran)
    ensures o == Outcome(ran.result, ran.failed, ran.g)
  {
    hide Load, RunLazy, RunParsed, InputsWithDefault, NewContext, OfStep;
    if fuel == 0 {
      NoFuel(w, gl, g, ctx, lazy);
    }
    UnfoldLazy(fuel, w, gl, g, ctx, lazy);
    ResultOfLoaded(fuel, w, gl, g, ctx, lazy);
    p := Load(w, gl, g, ctx, lazy).value;
    nested := NewContext(w, g.tick + 1, p.loaded.dir, InputsWithDefault(p.params, p.loaded.spec.inputs), Push(ctx.scopes, p.params.env)).value;
    ran := RunParsed(fuel - 1, w, gl, Tick(Tick(Tick(g))), nested, p).value;
  }

  lemma InsideView(w: World, gl: Global, g: GlobalState, ctx: Ctx, lazy: LazyStep, p: Parsed, nested: Ctx,
                   r: StepResult, g': GlobalState, c: Ctx)
    requires Opened(w, gl, g, ctx, lazy, p, nested) && OfStep(p, r)
    requires c == nested.(scopes := c.scopes, steps := c.steps)
    ensures Inside(w, gl, g, ctx, lazy, r, ViewOf(gl, g', c))
  {
    hide Load, Fetch, Expanded, EnvValues, InputsWithDefault, ExpandValues, ExpandVars;
    LoadedInputs(w, gl, g, ctx, lazy);
    LoadedSays(w, gl, g, ctx, lazy);
  }

  // A step starts in the environment its caller sees, with its own variables on top.
  lemma SnapshotIsEnv(w: World, gl: Global, g: GlobalState, ctx: Ctx, lazy: LazyStep, p: Parsed, nested: Ctx, g': GlobalState)
    requires Opened(w, gl, g, ctx, lazy, p, nested) && g'.exports == g.exports
    ensures Env(gl, g', nested) == p.params.env
    ensures OnTop(w.json, ViewOf(gl, g, ctx), lazy.step.env, p.params.env) && Expandable(w.json, ViewOf(gl, g, ctx), lazy.step.env)
    ensures nested.steps == map[] && nested.scopes == Push(ctx.scopes, p.params.env)
  {
    hide Load, Fetch, ExpandValues, ExpandedString, EnvValues, InputsWithDefault;
    LoadedSays(w, gl, g, ctx, lazy);
    var vars := ExpandVars(w.json, ViewOf(gl, g, ctx), lazy.step.env).value;
    PushedIsOnTop(gl.base, g.exports, ctx.scopes, vars);
    PushedIsOnTop(gl.base, g.exports, ctx.scopes, p.params.env);
    var e := EnvValues(gl.base, g.exports, ctx.scopes);
    assert e + (e + vars) == e + vars;
  }

  lemma AppliedIsOnTop(w: World, gl: Global, g: GlobalState, ctx: Ctx, vars: Vars)
    requires ExpandVars(w.json, ViewOf(gl, g, ctx), vars).Some?
    ensures var ctx1 := ctx.(scopes := Push(ctx.scopes, ExpandVars(w.json, ViewOf(gl, g, ctx), vars).value));
      OnTop(w.json, ViewOf(gl, g, ctx), vars, Env(gl, g, ctx1)) && Expandable(w.json, ViewOf(gl, g, ctx), vars)
  {
    hide ExpandedString, EnvValues;
    PushedIsOnTop(gl.base, g.exports, ctx.scopes, ExpandVars(w.json, ViewOf(gl, g, ctx), vars).value);
  }

  // ---- Commands ----

  // A command that was executed: its words, its directory, its environment, and what came back.
  lemma ExecSays(w: World, gl: Global, g: GlobalState, ctx: Ctx, p: Parsed)
    requires p.ExecStep? && RunExec(w, gl, g, ctx, p).result.Some? && RunExec(w, gl, g, ctx, p).result.value.execResult.Some?
    ensures var ran := RunExec(w, gl, g, ctx, p);
      var r, executed := ran.result.value, ran.result.value.execResult.value;
      var vars := ExpandVars(w.json, ViewOf(gl, Tick(g), ctx), p.loaded.definition.env);
      && vars.Some?
      && var ctx1 := ctx.(scopes := Push(ctx.scopes, vars.value));
         var out := w.exec(g.tick + 1, executed.command, executed.workDir, r.env);
         && r.env == Env(gl, Tick(g), ctx1)
         && Command(w, gl, Tick(g), ctx1, p.loaded.definition) == Some((executed.command, executed.workDir))
         && executed.exitCode == out.exitCode
         && ran == Collect(w, Tick(Tick(g)), ctx1, p, r.env, Some(executed), out)
  {
    hide ExpandVars, Command, EnvValues, ViewOf, ExecOutputs, ExportedEnv;
  }

  lemma CommandSays(w: World, gl: Global, g: GlobalState, ctx: Ctx, d: Definition, words: seq<string>, dir: string)
    requires Command(w, gl, g, ctx, d) == Some((words, dir))
    ensures |words| == |d.command|
    ensures forall i :: 0 <= i < |words| ==> ExpandedString(w.json, ViewOf(gl, g, ctx), d.command[i]) == Some(words[i])
    ensures if d.workDir == "" then dir == gl.workDir else ExpandedString(w.json, ViewOf(gl, g, ctx), d.workDir) == Some(dir)
  {
    hide ExpandedString, ViewOf;
  }

  // Every word of an executed command, and its directory, is the definition's, expanded in a view inside
  // the step, whose environment is the reported one: the caller's, with the call's variables on top,
  // with the definition's variables on top of that.
  lemma CommandsSeeTheirArguments(fuel: nat, w: World, gl: Global, g: GlobalState, ctx: Ctx, lazy: LazyStep, o: Outcome)
    returns (before: View, view: View)
    requires RunLazy(fuel, w, gl, g, ctx, lazy) == Some(o) && o.result.Some? && o.result.value.execResult.Some?
    ensures var r := o.result.value;
      && Inside(w, gl, g, ctx, lazy, r, before) && before.steps == map[] && before.env == r.step.env
      && OnTop(w.json, ViewOf(gl, g, ctx), lazy.step.env, r.step.env)
      && view == before.(env := r.env) && OnTop(w.json, before, r.specDefinition.definition.env, r.env)
    ensures var d, executed := o.result.value.specDefinition.definition, o.result.value.execResult.value;
      && |executed.command| == |d.command|
      && (forall i :: 0 <= i < |d.command| ==> ExpandedString(w.json, view, d.command[i]) == Some(executed.command[i]))
      && (if d.workDir == "" then executed.workDir == gl.workDir
          else ExpandedString(w.json, view, d.workDir) == Some(executed.workDir))
  {
    hide RunLazy, RunParsed, RunExec, Opened, OfStep, Inside, OnTop, Expandable, ExpandVars, Command, Collect, ViewOf, Env;
    var p, nested, ran := RanNested(fuel, w, gl, g, ctx, lazy, o);
    OnlyCommandsExecute(fuel - 1, w, gl, Tick(Tick(Tick(g))), nested, p);
    var g1 := Tick(Tick(Tick(Tick(g))));
    ExecSays(w, gl, Tick(Tick(Tick(g))), nested, p);
    SnapshotIsEnv(w, gl, g, ctx, lazy, p, nested, g1);
    var vars := ExpandVars(w.json, ViewOf(gl, g1, nested), p.loaded.definition.env).value;
    var ctx1 := nested.(scopes := Push(nested.scopes, vars));
    before, view := ViewOf(gl, g1, nested), ViewOf(gl, g1, ctx1);
    InsideView(w, gl, g, ctx, lazy, p, nested, o.result.value, g1, nested);
    AppliedIsOnTop(w, gl, g1, nested, p.loaded.definition.env);
    var executed := o.result.value.execResult.value;
    CommandSays(w, gl, g1, ctx1, p.loaded.definition, executed.command, executed.workDir);
    ViewsOfContext(gl, g1, nested, ctx1);
    OfStepSays(p, o.result.value);
  }

  lemma OfStepSays(p: Parsed, r: StepResult)
    requires OfStep(p, r)
    ensures r.step.env == p.params.env && r.specDefinition.definition == p.loaded.definition
    ensures r.specDefinition.spec == p.loaded.spec
  {
  }

  // Another environment is all that further scopes change of a view.
  lemma ViewsOfContext(gl: Global, g: GlobalState, ctx: Ctx, ctx1: Ctx)
    requires ctx1 == ctx.(scopes := ctx1.scopes)
    ensures ViewOf(gl, g, ctx).env == Env(gl, g, ctx) && ViewOf(gl, g, ctx1) == ViewOf(gl, g, ctx).(env := Env(gl, g, ctx1))
    ensures ctx.steps == map[] ==> ViewOf(gl, g, ctx).steps == map[]
  {
    hide EnvValues;
  }

  lemma OnlyCommandsExecute(fuel: nat, w: World, gl: Global, g: GlobalState, ctx: Ctx, p: Parsed)
    requires RunParsed(fuel, w, gl, g, ctx, p).Some?
    ensures p.ExecStep? ==> RunParsed(fuel, w, gl, g, ctx, p).value == RunExec(w, gl, g, ctx, p)
    ensures var r := RunParsed(fuel, w, gl, g, ctx, p).value.result;
      !p.ExecStep? ==> r.Some? && r.value.execResult.None?
  {
    hide RunExec, RunSteps, ExpandVars, ViewOf, EnvValues, SequenceOutputs;
  }

  // ---- What a command leaves ----

  // The text of an exported value.
  ghost predicate TextOf(w: World, v: Value, text: string) {
    match v
    case Bool(b) => text == if b then "true" else "false"
    case Number(n) => text == w.number(n)
    case Str(s) => text == s
    case _ => false
  }

  // The exports are the last values written to the export file, as text.
  ghost predicate ExportsLeft(w: World, out: ExecOutcome, exports: Vars) {
    forall key ::
      && (key in exports <==> LastWritten(Scanned(out.exportLines), key).Some?)
      && (key in exports ==> TextOf(w, LastWritten(Scanned(out.exportLines), key).value, exports[key]))
  }

  // The outputs: what a delegating command wrote as a step result, otherwise for each declared output
  // the last value written to the output file, or else the default.
  ghost predicate OutputsLeft(spec: Spec, out: ExecOutcome, outputs: Outputs) {
    if spec.outputMethod.DelegateMethod? then out.stepResult == Some(outputs)
    else
      && outputs.Keys == spec.outputs.Keys
      && forall key :: key in outputs ==>
           var written := LastWritten(Scanned(out.outputLines), key);
           Some(outputs[key]) == if written.Some? then written else spec.outputs[key].default
  }

  // Good lines, each written key declared with its type, and a default for every other output; or,
  // for a delegating command, a step result.
  ghost predicate OutputsReadable(spec: Spec, out: ExecOutcome) {
    if spec.outputMethod.DelegateMethod? then out.stepResult.Some?
    else
      var lines := Scanned(out.outputLines);
      && AllGood(lines)
      && (forall key :: LastWritten(lines, key).Some? ==>
            key in spec.outputs && HasType(LastWritten(lines, key).value, spec.outputs[key].typ))
      && (forall key :: key in spec.outputs ==> LastWritten(lines, key).Some? || spec.outputs[key].default.Some?)
  }

  // Good lines, and under each key a boolean, a number or a string last.
  ghost predicate ExportsReadable(out: ExecOutcome) {
    var lines := Scanned(out.exportLines);
    && AllGood(lines)
    && forall key :: LastWritten(lines, key).Some? ==>
         var v := LastWritten(lines, key).value;
         v.Bool? || v.Number? || v.Str?
  }

  // The command came through exactly if it exited well and left readable files; its outputs and
  // exports are then those, and the exports are the newest of the global environment. A command
  // that did not come through exports nothing; its outputs are kept if they could be read.
  ghost predicate LeftBehind(w: World, g: GlobalState, o: Outcome, out: ExecOutcome)
    requires o.result.Some? && o.result.value.execResult.Some?
  {
    var r, spec := o.result.value, o.result.value.specDefinition.spec;
    && r.execResult.value.exitCode == out.exitCode
    && (!o.failed <==> out.ok && OutputsReadable(spec, out) && ExportsReadable(out))
    && (!o.failed ==> r.status.Success? && OutputsLeft(spec, out, r.outputs) && ExportsLeft(w, out, r.exports))
    && (o.failed ==> r.exports == map[]
                     && if out.ok && OutputsReadable(spec, out) then OutputsLeft(spec, out, r.outputs) else r.outputs == map[])
    && o.g.exports == g.exports + if r.exports == map[] then [] else [r.exports]
  }

  lemma ExportedIsLeft(w: World, out: ExecOutcome)
    requires ExportedEnv(w.number, Scanned(out.exportLines)).Some?
    ensures ExportsLeft(w, out, ExportedEnv(w.number, Scanned(out.exportLines)).value)
  {
    hide LastWritten, ExportedEnv, Scanned;
    ExportedText(w.number, Scanned(out.exportLines));
  }

  lemma OutputsReadableIff(spec: Spec, out: ExecOutcome)
    ensures OutputsReadable(spec, out) <==>
      if spec.outputMethod.DelegateMethod? then out.stepResult.Some? else OutputsOf(Scanned(out.outputLines), spec.outputs).Some?
  {
    hide LastWritten, Written, Scanned, AllGood, OutputsOf, Accepted, HasType;
    var lines := Scanned(out.outputLines);
    OutputsOfIff(lines, spec.outputs);
    if AllGood(lines) {
      AcceptedByKey(lines, spec.outputs);
    } else {
      RefusedWhole(lines, spec.outputs);
    }
  }

  lemma ExportsReadableIff(w: World, out: ExecOutcome)
    ensures ExportsReadable(out) <==> ExportedEnv(w.number, Scanned(out.exportLines)).Some?
  {
    hide LastWritten, ExportedEnv, Scanned, AllGood;
    ExportedText(w.number, Scanned(out.exportLines));
  }

  lemma OutputsAreLeft(spec: Spec, out: ExecOutcome)
    requires !spec.outputMethod.DelegateMethod? && OutputsOf(Scanned(out.outputLines), spec.outputs).Some?
    ensures OutputsLeft(spec, out, OutputsOf(Scanned(out.outputLines), spec.outputs).value)
  {
    hide LastWritten, Written, Scanned, AllGood;
    if AllGood(Scanned(out.outputLines)) {
      WrittenIsLastEverywhere(Scanned(out.outputLines));
    }
  }

  lemma CollectSays(w: World, g: GlobalState, ctx: Ctx, p: Parsed, env: Vars, executed: ExecResult, out: ExecOutcome, o: Outcome)
    requires var ran := Collect(w, g, ctx, p, env, Some(executed), out); o == Outcome(ran.result, ran.failed, ran.g)
    requires executed.exitCode == out.exitCode
    ensures o.result.Some? && o.result.value.execResult.Some? && LeftBehind(w, g, o, out)
  {
    hide OutputsOf, ExportedEnv, ExportsLeft, OutputsLeft, Scanned, OutputsReadable, ExportsReadable;
    OutputsReadableIff(p.loaded.spec, out);
    ExportsReadableIff(w, out);
    if ExportedEnv(w.number, Scanned(out.exportLines)).Some? {
      ExportedIsLeft(w, out);
    }
    if !p.loaded.spec.outputMethod.DelegateMethod? && OutputsOf(Scanned(out.outputLines), p.loaded.spec.outputs).Some? {
      OutputsAreLeft(p.loaded.spec, out);
    }
    if p.loaded.spec.outputMethod.DelegateMethod? && out.stepResult.Some? {
      DelegatedAreLeft(p.loaded.spec, out);
    }
    assert g.exports + [] == g.exports;
  }

  lemma DelegatedAreLeft(spec: Spec, out: ExecOutcome)
    requires spec.outputMethod.DelegateMethod? && out.stepResult.Some?
    ensures OutputsLeft(spec, out, out.stepResult.value)
  {
  }

  // What every executed command did, by the world's answer to the reported words, directory and
  // environment, the fourth thing asked of it since the call.
  lemma CommandsLeaveTheirOutcome(fuel: nat, w: World, gl: Global, g: GlobalState, ctx: Ctx, lazy: LazyStep, o: Outcome)
    requires RunLazy(fuel, w, gl, g, ctx, lazy) == Some(o) && o.result.Some? && o.result.value.execResult.Some?
    ensures var r, executed := o.result.value, o.result.value.execResult.value;
      LeftBehind(w, g, o, w.exec(g.tick + 4, executed.command, executed.workDir, r.env))
  {
    hide RunLazy, RunParsed, RunExec, Opened, OfStep, ExpandVars, Command, Collect, ViewOf, Env, LeftBehind;
    var p, nested, ran := RanNested(fuel, w, gl, g, ctx, lazy, o);
    OnlyCommandsExecute(fuel - 1, w, gl, Tick(Tick(Tick(g))), nested, p);
    ExecSays(w, gl, Tick(Tick(Tick(g))), nested, p);
    var g2 := Tick(Tick(Tick(Tick(Tick(g)))));
    var r, executed := o.result.value, o.result.value.execResult.value;
    var out := w.exec(g.tick + 4, executed.command, executed.workDir, r.env);
    var vars := ExpandVars(w.json, ViewOf(gl, Tick(Tick(Tick(Tick(g)))), nested), p.loaded.definition.env).value;
    CollectSays(w, g2, nested.(scopes := Push(nested.scopes, vars)), p, r.env, executed, out, o);
    assert LeftBehind(w, g, o, out) by {
      SameExports(w, g, g2, o, out);
    }
  }

  lemma SameExports(w: World, g: GlobalState, g': GlobalState, o: Outcome, out: ExecOutcome)
    requires o.result.Some? && o.result.value.execResult.Some? && LeftBehind(w, g', o, out) && g.exports == g'.exports
    ensures LeftBehind(w, g, o, out)
  {
    hide OutputsLeft, ExportsLeft, ExportsReadable, OutputsReadable;
  }

  // A command is executed exactly if the definition's variables, all words and the directory expand.
  lemma CommandsExecuteIff(fuel: nat, w: World, gl: Global, g: GlobalState, ctx: Ctx, lazy: LazyStep, o: Outcome)
    returns (before: View, view: View)
    requires RunLazy(fuel, w, gl, g, ctx, lazy) == Some(o) && o.result.Some?
    requires o.result.value.specDefinition.definition.typ.ExecDefinition?
    ensures var r, d := o.result.value, o.result.value.specDefinition.definition;
      && Inside(w, gl, g, ctx, lazy, r, before) && before.steps == map[] && before.env == r.step.env
      && view == before.(env := view.env) && r.subStepResults == [] && (!o.failed ==> r.execResult.Some?)
      && (Expandable(w.json, before, d.env) ==> OnTop(w.json, before, d.env, view.env))
      && (r.execResult.Some? <==>
            && Expandable(w.json, before, d.env)
            && (forall i :: 0 <= i < |d.command| ==> ExpandedString(w.json, view, d.command[i]).Some?)
            && (d.workDir != "" ==> ExpandedString(w.json, view, d.workDir).Some?))
      && (r.execResult.None? ==> r.outputs == map[] && r.exports == map[])
      && r.env == if Expandable(w.json, before, d.env) then view.env else map[]
  {
    hide RunLazy, RunParsed, RunExec, Opened, OfStep, Inside, OnTop, ExpandVars, Command, ViewOf, Env;
    var p, nested, ran := RanNested(fuel, w, gl, g, ctx, lazy, o);
    ParsedByType(w, gl, g, ctx, lazy, p, nested);
    OfStepSays(p, o.result.value);
    var g3 := Tick(Tick(Tick(g)));
    OnlyCommandsExecute(fuel - 1, w, gl, g3, nested, p);
    SnapshotIsEnv(w, gl, g, ctx, lazy, p, nested, Tick(g3));
    before := ViewOf(gl, Tick(g3), nested);
    InsideView(w, gl, g, ctx, lazy, p, nested, o.result.value, Tick(g3), nested);
    view := ExecReports(w, gl, g3, nested, p);
    ViewsOfContext(gl, Tick(g3), nested, nested);
  }

  lemma ParsedByType(w: World, gl: Global, g: GlobalState, ctx: Ctx, lazy: LazyStep, p: Parsed, nested: Ctx)
    requires Opened(w, gl, g, ctx, lazy, p, nested)
    ensures p.ExecStep? <==> p.loaded.definition.typ.ExecDefinition?
    ensures p.SequenceStep? <==> p.loaded.definition.typ.StepsDefinition?
    ensures p.SequenceStep? ==>
      && |p.steps| == |p.loaded.definition.steps|
      && forall k :: 0 <= k < |p.steps| ==>
           && p.steps[k].step == p.loaded.definition.steps[k]
           && ParseReference(w, p.loaded.dir, p.steps[k].step.reference) == Some(p.steps[k].resource)
  {
    hide Fetch, LoadParams, ValidInputs, ParseReference, NewContext;
  }

  lemma ExecReports(w: World, gl: Global, g: GlobalState, ctx: Ctx, p: Parsed) returns (view: View)
    requires p.ExecStep? && RunExec(w, gl, g, ctx, p).result.Some?
    ensures var ran, before, d := RunExec(w, gl, g, ctx, p), ViewOf(gl, Tick(g), ctx), p.loaded.definition;
      && view == before.(env := view.env)
      && ran.result.value.subStepResults == [] && (!ran.failed ==> ran.result.value.execResult.Some?)
      && (Expandable(w.json, before, d.env) ==> OnTop(w.json, before, d.env, view.env))
      && (ran.result.value.execResult.Some? <==>
            && Expandable(w.json, before, d.env)
            && (forall i :: 0 <= i < |d.command| ==> ExpandedString(w.json, view, d.command[i]).Some?)
            && (d.workDir != "" ==> ExpandedString(w.json, view, d.workDir).Some?))
      && (ran.result.value.execResult.None? ==> ran.result.value.outputs == map[] && ran.result.value.exports == map[])
      && ran.result.value.env == if Expandable(w.json, before, d.env) then view.env else map[]
  {
    hide ExpandedString, EnvValues, ViewOf, ExecOutputs, ExportedEnv, OnTop, Push;
    view := ViewOf(gl, Tick(g), ctx);
    var vars := ExpandVars(w.json, view, p.loaded.definition.env);
    ViewsOfContext(gl, Tick(g), ctx, ctx);
    if vars.Some? {
      var ctx1 := ctx.(scopes := Push(ctx.scopes, vars.value));
      AppliedIsOnTop(w, gl, Tick(g), ctx, p.loaded.definition.env);
      ViewsOfContext(gl, Tick(g), ctx, ctx1);
      view := ViewOf(gl, Tick(g), ctx1);
      CommandIff(w, gl, Tick(g), ctx1, p.loaded.definition);
      hide Command;
    }
  }

  lemma CommandIff(w: World, gl: Global, g: GlobalState, ctx: Ctx, d: Definition)
    ensures Command(w, gl, g, ctx, d).Some? <==>
      && (forall i :: 0 <= i < |d.command| ==> ExpandedString(w.json, ViewOf(gl, g, ctx), d.command[i]).Some?)
      && (d.workDir != "" ==> ExpandedString(w.json, ViewOf(gl, g, ctx), d.workDir).Some?)
  {
    hide ExpandedString, ViewOf;
  }

  // ---- Sequences ----

  // The recorded results of steps that have run: the outputs of the last with each name.
  ghost predicate Recorded(results: seq<StepResult>, steps: map<string, Outputs>) {
    forall name ::
      Expressions.At(steps, name) == match LastNamed(results, name) case None => None case Some(r) => Some(r.outputs)
  }

  // The environment after steps have run: what it was, and newer exports of keys it does not bind.
  ghost predicate Exported(results: seq<StepResult>, before: Vars, env: Vars) {
    forall key ::
      Expressions.At(env, key) == if key in before then Some(before[key]) else Latest(ExportLog(results), key)
  }

  lemma RecordedOutputs(gl: Global, g: GlobalState, ctx: Ctx, results: seq<StepResult>)
    requires forall name :: Expressions.At(ctx.steps, name) == LastNamed(results, name)
    ensures Recorded(results, ViewOf(gl, g, ctx).steps)
  {
    hide EnvValues, LastNamed;
    forall name ensures Expressions.At(ViewOf(gl, g, ctx).steps, name)
      == match LastNamed(results, name) case None => None case Some(r) => Some(r.outputs)
    {
      assert Expressions.At(ctx.steps, name) == LastNamed(results, name);
    }
  }

  // In a nested step every key it starts with is bound by a scope of its own.
  lemma ExportedOutside(gl: Global, g: GlobalState, g': GlobalState, scopes: seq<Vars>, results: seq<StepResult>)
    requires g'.exports == g.exports + ExportLog(results)
    requires forall key :: key in EnvValues(gl.base, g.exports, scopes) ==> ScopeBinds(scopes, key)
    ensures Exported(results, EnvValues(gl.base, g.exports, scopes), EnvValues(gl.base, g'.exports, scopes))
  {
    hide EnvValues, Latest, ExportLog, ScopeBinds;
    var before, env := EnvValues(gl.base, g.exports, scopes), EnvValues(gl.base, g'.exports, scopes);
    forall key ensures Expressions.At(env, key) == if key in before then Some(before[key]) else Latest(ExportLog(results), key) {
      ScopingLaw(gl.base, g.exports, ExportLog(results), scopes, key);
      if key !in before && ScopeBinds(scopes, key) {
        BoundIsThere(gl.base, g.exports, scopes, key);
      }
    }
  }

  lemma {:induction false} BoundIsThere(base: Vars, exports: seq<Vars>, scopes: seq<Vars>, key: string)
    requires ScopeBinds(scopes, key)
    ensures key in EnvValues(base, exports, scopes)
  {
    hide Overlay;
    if key !in scopes[0] {
      var i :| 0 <= i < |scopes| && key in scopes[i];
      assert key in scopes[1..][i - 1];
      BoundIsThere(base, exports, scopes[1..], key);
    }
  }

  // The scopes of a nested step bind all it starts with: they hold its snapshot.
  lemma SnapshotBinds(gl: Global, g: GlobalState, scopes: seq<Vars>, snapshot: Vars, vars: Vars)
    requires EnvValues(gl.base, g.exports, Push(scopes, snapshot)) == snapshot
    ensures var all := Push(Push(scopes, snapshot), vars);
      forall key :: key in EnvValues(gl.base, g.exports, all) ==> ScopeBinds(all, key)
  {
    hide EnvValues;
    var all := Push(Push(scopes, snapshot), vars);
    PushedIsOnTop(gl.base, g.exports, Push(scopes, snapshot), vars);
    forall key | key in EnvValues(gl.base, g.exports, all) ensures ScopeBinds(all, key) {
      if key in vars {
        assert key in all[0];
      } else {
        assert key in snapshot;
        var at := if vars == map[] then 0 else 1;
        assert all[at] == snapshot;
      }
    }
  }

  // How a sequence unfolds: its variables, its steps, its outputs.
  lemma SequenceSays(fuel: nat, w: World, gl: Global, g: GlobalState, nested: Ctx, p: Parsed) returns (ctx1: Ctx, s: StepsRan)
    requires p.SequenceStep? && RunParsed(fuel, w, gl, g, nested, p).Some?
    ensures var ran, vars := RunParsed(fuel, w, gl, g, nested, p).value, ExpandVars(w.json, ViewOf(gl, g, nested), p.loaded.definition.env);
      && ran.result.Some?
      && (vars.None? ==> ran.failed && ran.result.value.subStepResults == [])
      && (vars.Some? ==>
            && ctx1 == nested.(scopes := Push(nested.scopes, vars.value))
            && RunSteps(fuel, w, gl, g, ctx1, p.steps) == Some(s)
            && ran == FinishSequence(w, gl, p, Env(gl, g, ctx1), s)
            && ran.result.value.subStepResults == s.results && ran.result.value.env == Env(gl, g, ctx1))
  {
    hide RunSteps, RunParsed, ExpandVars, ViewOf, Env, SequenceOutputs;
    UnfoldSequence(fuel, w, gl, g, nested, p);
    ctx1, s := nested, StepsRan([], false, g, nested);
    var vars := ExpandVars(w.json, ViewOf(gl, g, nested), p.loaded.definition.env);
    if vars.Some? {
      ctx1 := nested.(scopes := Push(nested.scopes, vars.value));
      s := RunSteps(fuel, w, gl, g, ctx1, p.steps).value;
    }
  }

  // What the arguments of the k-th sub-step see: the sequence's own inputs and files, the outputs of
  // the steps before it, and the environment with their exports.
  lemma SubStepsSeeTheSequence(fuel: nat, w: World, gl: Global, g: GlobalState, ctx: Ctx, lazy: LazyStep, o: Outcome, k: nat)
    returns (before: View, view: View)
    requires RunLazy(fuel, w, gl, g, ctx, lazy) == Some(o) && o.result.Some? && k < |o.result.value.subStepResults|
    ensures var r, d := o.result.value, o.result.value.specDefinition.definition;
      && Inside(w, gl, g, ctx, lazy, r, before) && before.steps == map[] && before.env == r.step.env
      && OnTop(w.json, ViewOf(gl, g, ctx), lazy.step.env, r.step.env) && OnTop(w.json, before, d.env, r.env)
      && view == before.(env := view.env, steps := view.steps)
      && Recorded(r.subStepResults[..k], view.steps) && Exported(r.subStepResults[..k], r.env, view.env)
    ensures var r, d := o.result.value, o.result.value.specDefinition.definition;
      var sub := r.subStepResults[k].step;
      && k < |d.steps| && sub.name == d.steps[k].name && sub.inputs.Keys == d.steps[k].inputs.Keys
      && (forall name :: name in sub.inputs ==> Expanded(w.json, view, d.steps[k].inputs[name]) == Some(sub.inputs[name]))
      && OnTop(w.json, view, d.steps[k].env, sub.env)
    ensures var ref, sub := o.result.value.specDefinition.definition.steps[k].reference, o.result.value.subStepResults[k];
      exists tick :: FetchedFrom(w, tick, view, ref, sub)
  {
    hide RunLazy, RunParsed, RunSteps, RunExec, Opened, OfStep, Inside, OnTop, Expandable, ExpandVars, ViewOf, EnvValues,
      FinishSequence, ExportLog, LastNamed, Recorded, Exported, Load, ScopeBinds, Push;
    var p, nested, ran := RanNested(fuel, w, gl, g, ctx, lazy, o);
    var g3 := Tick(Tick(Tick(g)));
    var r := o.result.value;
    ParsedByType(w, gl, g, ctx, lazy, p, nested);
    OfStepSays(p, r);
    if p.ExecStep? {
      OnlyCommandsExecute(fuel - 1, w, gl, g3, nested, p);
      CommandsHaveNoSubSteps(w, gl, g3, nested, p);
    }
    var ctx1, s := SequenceSays(fuel - 1, w, gl, g3, nested, p);
    var gk, ctxk := KthStep(fuel - 1, w, gl, g3, ctx1, p.steps, k);
    SnapshotIsEnv(w, gl, g, ctx, lazy, p, nested, g3);
    before, view := ViewOf(gl, g3, nested), ViewOf(gl, gk, ctxk);
    InsideView(w, gl, g, ctx, lazy, p, nested, r, g3, nested);
    AppliedIsOnTop(w, gl, g3, nested, p.loaded.definition.env);
    NestedViews(gl, g3, gk, nested, ctxk);
    RecordedOutputs(gl, gk, ctxk, r.subStepResults[..k]);
    var vars := ExpandVars(w.json, before, p.loaded.definition.env).value;
    SnapshotBinds(gl, g3, ctx.scopes, p.params.env, vars);
    ExportedOutside(gl, g3, gk, ctx1.scopes, r.subStepResults[..k]);
    SubStepSays(fuel - 1, w, gl, gk, ctxk, p.steps[k]);
    NestedDir(w, gl, g, ctx, lazy, p, nested);
    SubStepFrom(fuel - 1, w, gl, gk, ctxk, p.steps[k], p.loaded.dir);
    assert FetchedFrom(w, gk.tick, view, p.steps[k].step.reference, r.subStepResults[k]);
  }

  // The step of a result was fetched by a reference in the directory of the view.
  ghost predicate FetchedFrom(w: World, tick: nat, view: View, ref: Reference, r: StepResult) {
    var resource := ParseReference(w, view.stepDir, ref);
    resource.Some?
    && var loaded := Fetch(w, tick, resource.value, view);
       loaded.Some? && r.specDefinition == SpecDefinition(loaded.value.spec, loaded.value.definition)
  }

  lemma NestedDir(w: World, gl: Global, g: GlobalState, ctx: Ctx, lazy: LazyStep, p: Parsed, nested: Ctx)
    requires Opened(w, gl, g, ctx, lazy, p, nested)
    ensures nested.dir == p.loaded.dir
  {
    hide Load, InputsWithDefault, Push;
  }

  lemma SubStepFrom(fuel: nat, w: World, gl: Global, g: GlobalState, ctx: Ctx, lazy: LazyStep, dir: string)
    requires RunLazy(fuel, w, gl, g, ctx, lazy).Some? && RunLazy(fuel, w, gl, g, ctx, lazy).value.result.Some?
    requires ctx.dir == dir && ParseReference(w, dir, lazy.step.reference) == Some(lazy.resource)
    ensures FetchedFrom(w, g.tick, ViewOf(gl, g, ctx), lazy.step.reference, RunLazy(fuel, w, gl, g, ctx, lazy).value.result.value)
  {
    hide RunLazy, Load, Fetch, ParseReference, ExpandVars, ExpandValues, Env;
    ResultOfLoaded(fuel, w, gl, g, ctx, lazy);
    LoadedSays(w, gl, g, ctx, lazy);
  }

  lemma CommandsHaveNoSubSteps(w: World, gl: Global, g: GlobalState, ctx: Ctx, p: Parsed)
    requires p.ExecStep?
    ensures RunExec(w, gl, g, ctx, p).result.Some? ==> RunExec(w, gl, g, ctx, p).result.value.subStepResults == []
  {
    hide ExpandVars, Command, EnvValues, ViewOf, ExecOutputs, ExportedEnv;
  }

  // Scopes, recorded results and exports are all that running steps changes of a view.
  lemma NestedViews(gl: Global, g: GlobalState, g': GlobalState, ctx: Ctx, ctx': Ctx)
    requires ctx' == ctx.(scopes := ctx'.scopes, steps := ctx'.steps)
    ensures var before, view := ViewOf(gl, g, ctx), ViewOf(gl, g', ctx');
      && view == before.(env := view.env, steps := view.steps)
      && before.env == Env(gl, g, ctx) && view.env == Env(gl, g', ctx') && (ctx.steps == map[] ==> before.steps == map[])
  {
    hide EnvValues;
  }

  lemma SubStepSays(fuel: nat, w: World, gl: Global, g: GlobalState, ctx: Ctx, lazy: LazyStep)
    requires RunLazy(fuel, w, gl, g, ctx, lazy).Some? && RunLazy(fuel, w, gl, g, ctx, lazy).value.result.Some?
    ensures var sub, view := RunLazy(fuel, w, gl, g, ctx, lazy).value.result.value.step, ViewOf(gl, g, ctx);
      && sub.name == lazy.step.name && sub.inputs.Keys == lazy.step.inputs.Keys
      && (forall name :: name in sub.inputs ==> Expanded(w.json, view, lazy.step.inputs[name]) == Some(sub.inputs[name]))
      && OnTop(w.json, view, lazy.step.env, sub.env)
  {
    hide RunLazy, ViewOf, ExpandVars, Expanded, OnTop, Load, Env;
    var o := RunLazy(fuel, w, gl, g, ctx, lazy).value;
    var p, nested, ran := RanNested(fuel, w, gl, g, ctx, lazy, o);
    LoadedSays(w, gl, g, ctx, lazy);
    SnapshotIsEnv(w, gl, g, ctx, lazy, p, nested, g);
  }

  // What a sequence whose steps came through returns: the delegate's outputs, or the declared ones
  // expanded.
  ghost predicate HandedOn(json: JsonOf, spec: Spec, d: Definition, results: seq<StepResult>, view: View, outputs: Outputs) {
    if spec.outputMethod.DelegateMethod? then
      LastNamed(results, d.delegate).Some? && outputs == LastNamed(results, d.delegate).value.outputs
    else
      && outputs.Keys == d.outputs.Keys
      && forall key :: key in d.outputs ==> Expanded(json, view, d.outputs[key]) == Some(outputs[key])
  }

  ghost predicate CanHandOn(json: JsonOf, spec: Spec, d: Definition, results: seq<StepResult>, view: View) {
    if spec.outputMethod.DelegateMethod? then LastNamed(results, d.delegate).Some?
    else forall key :: key in d.outputs ==> Expanded(json, view, d.outputs[key]).Some?
  }

  ghost predicate AllCameThrough(r: StepResult) {
    && |r.subStepResults| == |r.specDefinition.definition.steps|
    && forall i :: 0 <= i < |r.subStepResults| ==> r.subStepResults[i].status.Success?
  }

  // A sequence whose steps all came through succeeds exactly if its own variables and all declared
  // outputs expand, or its delegate is there; the outputs are these, in a view of the sequence's own
  // inputs, of the outputs of the last step with each name, and of the environment with all exports.
  lemma SequencesHandOn(fuel: nat, w: World, gl: Global, g: GlobalState, ctx: Ctx, lazy: LazyStep, o: Outcome)
    returns (before: View, view: View)
    requires RunLazy(fuel, w, gl, g, ctx, lazy) == Some(o) && o.result.Some?
    requires o.result.value.specDefinition.definition.typ.StepsDefinition? && AllCameThrough(o.result.value)
    ensures var r, d := o.result.value, o.result.value.specDefinition.definition;
      && Inside(w, gl, g, ctx, lazy, r, before) && before.steps == map[] && before.env == r.step.env
      && view == before.(env := view.env, steps := view.steps) && Recorded(r.subStepResults, view.steps)
      && (Expandable(w.json, before, d.env) ==> OnTop(w.json, before, d.env, r.env) && Exported(r.subStepResults, r.env, view.env))
    ensures var r, spec, d := o.result.value, o.result.value.specDefinition.spec, o.result.value.specDefinition.definition;
      && (!o.failed <==> Expandable(w.json, before, d.env) && CanHandOn(w.json, spec, d, r.subStepResults, view))
      && (!o.failed ==> HandedOn(w.json, spec, d, r.subStepResults, view, r.outputs))
  {
    hide RunLazy, RunParsed, RunSteps, Opened, OfStep, Inside, OnTop, ExpandVars, ViewOf, EnvValues,
      FinishSequence, ExportLog, LastNamed, Recorded, Exported, Load, ScopeBinds, Push, CanHandOn, HandedOn, Expandable;
    var p, nested, ran := RanNested(fuel, w, gl, g, ctx, lazy, o);
    var g3 := Tick(Tick(Tick(g)));
    var r := o.result.value;
    ParsedByType(w, gl, g, ctx, lazy, p, nested);
    OfStepSays(p, r);
    var ctx1, s := SequenceSays(fuel - 1, w, gl, g3, nested, p);
    SnapshotIsEnv(w, gl, g, ctx, lazy, p, nested, g3);
    before := ViewOf(gl, g3, nested);
    InsideView(w, gl, g, ctx, lazy, p, nested, r, g3, nested);
    NestedViews(gl, g3, g3, nested, nested);
    ExpandableIff(w.json, before, p.loaded.definition.env);
    if ExpandVars(w.json, before, p.loaded.definition.env).None? {
      view := before;
      NothingRecorded(before);
    } else {
      FailureIsVisible(fuel - 1, w, gl, g3, ctx1, p.steps);
      StepsExports(fuel - 1, w, gl, g3, ctx1, p.steps);
      RecordedLast(fuel - 1, w, gl, g3, ctx1, p.steps, s);
      view := ViewOf(gl, s.g, s.ctx);
      AppliedIsOnTop(w, gl, g3, nested, p.loaded.definition.env);
      NestedViews(gl, g3, s.g, nested, s.ctx);
      RecordedOutputs(gl, s.g, s.ctx, s.results);
      SnapshotBinds(gl, g3, ctx.scopes, p.params.env, ExpandVars(w.json, before, p.loaded.definition.env).value);
      ExportedOutside(gl, g3, s.g, ctx1.scopes, s.results);
      FinishHandsOn(w, gl, p, Env(gl, g3, ctx1), s);
    }
  }

  lemma ExpandableIff(json: JsonOf, view: View, vars: Vars)
    ensures Expandable(json, view, vars) <==> ExpandVars(json, view, vars).Some?
  {
    hide ExpandedString;
  }

  lemma NothingRecorded(view: View)
    requires view.steps == map[]
    ensures Recorded([], view.steps)
  {
  }

  lemma RecordedLast(fuel: nat, w: World, gl: Global, g: GlobalState, ctx: Ctx, steps: seq<LazyStep>, s: StepsRan)
    requires RunSteps(fuel, w, gl, g, ctx, steps) == Some(s) && ctx.steps == map[]
    ensures s.ctx == ctx.(steps := s.ctx.steps)
    ensures forall name :: Expressions.At(s.ctx.steps, name) == LastNamed(s.results, name)
  {
    hide RunSteps, LastNamed;
    forall name ensures Expressions.At(s.ctx.steps, name) == LastNamed(s.results, name) {
      StepsRecorded(fuel, w, gl, g, ctx, steps, name);
    }
    OnlyRecords(fuel, w, gl, g, ctx, steps);
  }

  lemma {:induction false} OnlyRecords(fuel: nat, w: World, gl: Global, g: GlobalState, ctx: Ctx, steps: seq<LazyStep>)
    requires RunSteps(fuel, w, gl, g, ctx, steps).Some?
    ensures var s := RunSteps(fuel, w, gl, g, ctx, steps).value; s.ctx == ctx.(steps := s.ctx.steps)
    decreases |steps|
  {
    hide RunLazy, RunSteps;
    if steps == [] {
      NoSteps(fuel, w, gl, g, ctx);
    } else {
      UnfoldSteps(fuel, w, gl, g, ctx, steps);
      var o := RunLazy(fuel, w, gl, g, ctx, steps[0]).value;
      if !o.failed {
        OnlyRecords(fuel, w, gl, o.g, Record(ctx, o.result), steps[1..]);
      }
    }
  }

  lemma FinishHandsOn(w: World, gl: Global, p: Parsed, env: Vars, s: StepsRan)
    requires !s.failed && forall name :: Expressions.At(s.ctx.steps, name) == LastNamed(s.results, name)
    ensures var ran, spec, d := FinishSequence(w, gl, p, env, s), p.loaded.spec, p.loaded.definition;
      var view := ViewOf(gl, s.g, s.ctx);
      && (!ran.failed <==> CanHandOn(w.json, spec, d, s.results, view))
      && ran.result.Some? && (!ran.failed ==> HandedOn(w.json, spec, d, s.results, view, ran.result.value.outputs))
  {
    hide LastNamed, Expanded, ViewOf;
    assert Expressions.At(s.ctx.steps, p.loaded.definition.delegate) == LastNamed(s.results, p.loaded.definition.delegate);
  }

  // ---- Expressions over steps ----

  // An output written ${{steps.a.outputs.x}} is the x of the last step a.
  lemma OutputOfLastStep(json: JsonOf, view: View, results: seq<StepResult>, a: string, x: string)
    requires Recorded(results, view.steps) && PlainKey(a) && PlainKey(x) && Word(a) && Word(x)
    ensures Expanded(json, view, Str("${{steps." + a + ".outputs." + x + "}}")) ==
      match LastNamed(results, a)
      case None => None
      case Some(r) => if x in r.outputs then Some(r.outputs[x]) else None
  {
    hide LastNamed, Interpolated, Evaluation, IsSpace, PlainKey;
    var path := "steps." + a + ".outputs." + x;
    assert "${{steps." + a + ".outputs." + x + "}}" == OPEN + path + CLOSE;
    HoleEvaluates(json, view, path);
    StepName(view, "", "", a, x);
    assert "" + path + "" == path;
    assert Expressions.At(view.steps, a) == match LastNamed(results, a) case None => None case Some(r) => Some(r.outputs);
  }

  // A hole around such text is its value, type included; as text it is a string's own, and any other
  // value's JSON.
  lemma HoleEvaluates(json: JsonOf, view: View, path: string)
    requires Word(path) && path != ""
    ensures Interpolated(json, view, "${{" + path + "}}") == Evaluation(view, path)
    ensures ExpandedString(json, view, "${{" + path + "}}") ==
      match Evaluation(view, path)
      case None => None
      case Some(Str(text)) => Some(text)
      case Some(v) => json(v)
  {
    hide Interpolated, Evaluation, Template, Spell, Yield, Lex;
    LexHole(path);
    SimpleHole(path);
    LoneHoleKeepsType(json, view, OPEN + path + CLOSE, [Run(path)]);
  }

  // What the names in an expression mean in a context.
  lemma NamesInContext(gl: Global, g: GlobalState, ctx: Ctx, a: string, b: string, key: string, step: string)
    requires AllSpace(a) && AllSpace(b) && PlainKey(key) && PlainKey(step)
    ensures var view, env := ViewOf(gl, g, ctx), Env(gl, g, ctx);
      && Evaluation(view, a + "step_dir" + b) == Some(Str(ctx.dir))
      && Evaluation(view, a + "work_dir" + b) == Some(Str(gl.workDir))
      && Evaluation(view, a + "output_file" + b) == Some(Str(ctx.outputFile))
      && Evaluation(view, a + "export_file" + b) == Some(Str(ctx.exportFile))
      && Evaluation(view, a + ("env." + key) + b) == (if key in env then Some(Str(env[key])) else None)
      && Evaluation(view, a + ("job." + key) + b) == (if key in gl.job then Some(Str(gl.job[key])) else None)
      && Evaluation(view, a + ("inputs." + key) + b) == (if key in ctx.inputs then Some(ctx.inputs[key]) else None)
      && Evaluation(view, a + ("steps." + step + ".outputs." + key) + b) ==
           if step in ctx.steps && key in ctx.steps[step].outputs then Some(ctx.steps[step].outputs[key]) else None
  {
    hide Evaluation, EnvValues, PlainKey, AllSpace;
    NamesMean(ViewOf(gl, g, ctx), a, b, key, step);
  }

  // ---- Loading ----

  // The path a reference is written with.
  ghost predicate WrittenPath(w: World, ref: Reference, path: string) {
    match ref.stepPath
    case PathExp(exp) => path == exp
    case Paths(parts) => path == w.join(parts)
    case NoStepPath => path == w.join(ref.path)
  }

  // Where the step of a reference in a definition's directory comes from. A local one is read from the
  // expanded path, as it is if it begins with a slash and else in that directory; an inlined one is
  // there already; the others are fetched with what the reference says.
  lemma ReferencesAreLoaded(w: World, dir: string, ref: Reference, path: string, tick: nat, view: View)
    requires WrittenPath(w, ref, path)
    ensures var resource := ParseReference(w, dir, ref);
      && (resource.None? <==> ref.protocol.NoProtocol? || ref.protocol.Zip? || ref.protocol.Oci?)
      && (resource.Some? ==>
            Fetch(w, tick, resource.value, view) ==
              match ref.protocol
              case Local =>
                (match ExpandedString(w.json, view, path)
                 case None => None
                 case Some(expanded) =>
                   var from := if expanded != "" && expanded[0] == '/' then expanded else w.join([dir, expanded]);
                   match w.load(tick, w.join([from, ref.filename]))
                   case None => None
                   case Some(d) => Some(LoadedSpec(d.spec, d.definition, from)))
              case Git => w.fetch(tick, GitRepo(ref.url, ref.version, path, ref.filename), view)
              case Dist => w.fetch(tick, Distributed(path, ref.filename), view)
              case Dynamic => w.fetch(tick, DynamicRef(ref.url), view)
              case Inline(d) => Some(LoadedSpec(d.spec, d.definition, path))
              case _ => None)
  {
    hide ExpandedString;
    forall s: string ensures HasPrefix(s, "/") <==> s != "" && s[0] == '/' {
      SlashFirst(s);
    }
  }

  lemma SlashFirst(s: string)
    ensures HasPrefix(s, "/") <==> s != "" && s[0] == '/'
  {
    if s != "" && s[0] == '/' {
      assert s[..1] == "/";
    }
  }

  predicate Known(p: Protocol) {
    !p.NoProtocol? && !p.Zip? && !p.Oci?
  }

  // A step loads exactly if it can be fetched, all its arguments are declared and expand, its variables
  // expand, every declared input has an argument or a default, and its definition is a command or a
  // sequence of references of a known kind.
  lemma StepsLoadIff(w: World, gl: Global, g: GlobalState, ctx: Ctx, lazy: LazyStep)
    ensures var caller := ViewOf(gl, g, ctx);
      var fetched := Fetch(w, g.tick, lazy.resource, caller);
      Load(w, gl, g, ctx, lazy).Some? <==>
        && fetched.Some?
        && var spec, d := fetched.value.spec, fetched.value.definition;
           && (forall name :: name in lazy.step.inputs ==>
                 name in spec.inputs && Expanded(w.json, caller, lazy.step.inputs[name]).Some?)
           && Expandable(w.json, caller, lazy.step.env)
           && (forall name :: name in spec.inputs ==> name in lazy.step.inputs || spec.inputs[name].default.Some?)
           && (d.typ.ExecDefinition?
               || (d.typ.StepsDefinition? && forall k :: 0 <= k < |d.steps| ==> Known(d.steps[k].reference.protocol)))
  {
    hide Fetch, ExpandedString, Expanded, EnvValues, ViewOf;
    var caller := ViewOf(gl, g, ctx);
    ExpandableIff(w.json, caller, lazy.step.env);
    forall dir, ref ensures ParseReference(w, dir, ref).Some? <==> Known(ref.protocol) {
      KnownIff(w, dir, ref);
    }
    hide ParseReference, Known;
  }

  lemma KnownIff(w: World, dir: string, ref: Reference)
    ensures ParseReference(w, dir, ref).Some? <==> Known(ref.protocol)
  {
  }

  // A finished run reports a result exactly if the step loaded, its two files could be made, and, for a
  // command, its first line could be logged.
  lemma ResultsAreReportedIff(fuel: nat, w: World, gl: Global, g: GlobalState, ctx: Ctx, lazy: LazyStep, o: Outcome)
    requires RunLazy(fuel, w, gl, g, ctx, lazy) == Some(o)
    ensures o.result.Some? <==>
      && Load(w, gl, g, ctx, lazy).Some? && w.tempFile(g.tick + 1).Some? && w.tempFile(g.tick + 2).Some?
      && (Load(w, gl, g, ctx, lazy).value.SequenceStep? || w.log(g.tick + 3))
    ensures o.result.None? ==> o.failed && o.g.exports == g.exports
  {
    hide Load, RunLazy, RunParsed, InputsWithDefault, Push, ExportLog;
    if fuel == 0 {
      NoFuel(w, gl, g, ctx, lazy);
    }
    UnfoldLazy(fuel, w, gl, g, ctx, lazy);
    LazySpine(fuel, w, gl, g, ctx, lazy);
    LazyExports(fuel, w, gl, g, ctx, lazy);
    NoExports();
    assert g.exports + [] == g.exports;
    var p := Load(w, gl, g, ctx, lazy);
    if p.Some? {
      var nested := NewContext(w, g.tick + 1, p.value.loaded.dir, InputsWithDefault(p.value.params, p.value.loaded.spec.inputs), Push(ctx.scopes, p.value.params.env));
      if nested.Some? {
        TopLevelResult(fuel - 1, w, gl, Tick(Tick(Tick(g))), nested.value, p.value);
      }
    }
  }

  // A command needs no nesting: it always finishes.
  lemma CommandsFinish(fuel: nat, w: World, gl: Global, g: GlobalState, ctx: Ctx, lazy: LazyStep)
    requires fuel > 0 && (Load(w, gl, g, ctx, lazy).Some? ==> Load(w, gl, g, ctx, lazy).value.ExecStep?)
    ensures RunLazy(fuel, w, gl, g, ctx, lazy).Some?
  {
    hide Load, RunExec, InputsWithDefault, NewContext;
    UnfoldLazy(fuel, w, gl, g, ctx, lazy);
  }

  // A sequence itself executes and exports nothing, and has no outputs when it failed.
  lemma SequencesReport(fuel: nat, w: World, gl: Global, g: GlobalState, ctx: Ctx, lazy: LazyStep, o: Outcome)
    requires RunLazy(fuel, w, gl, g, ctx, lazy) == Some(o)
    requires o.result.Some? && o.result.value.specDefinition.definition.typ.StepsDefinition?
    ensures var r := o.result.value; r.execResult.None? && r.exports == map[] && (o.failed ==> r.outputs == map[])
  {
    hide RunLazy, RunParsed, RunSteps, Opened, OfStep, ExpandVars, ViewOf, Env, Load, SequenceOutputs;
    var p, nested, ran := RanNested(fuel, w, gl, g, ctx, lazy, o);
    ParsedByType(w, gl, g, ctx, lazy, p, nested);
    OfStepSays(p, o.result.value);
    UnfoldSequence(fuel - 1, w, gl, Tick(Tick(Tick(g))), nested, p);
  }

  // A sequence succeeds only if all its steps came through.
  lemma SuccessfulSequencesRanAll(fuel: nat, w: World, gl: Global, g: GlobalState, ctx: Ctx, lazy: LazyStep, o: Outcome)
    requires RunLazy(fuel, w, gl, g, ctx, lazy) == Some(o) && !o.failed
    requires o.result.Some? && o.result.value.specDefinition.definition.typ.StepsDefinition?
    ensures AllCameThrough(o.result.value)
  {
    hide RunLazy, RunParsed, RunSteps, Opened, OfStep, ExpandVars, ViewOf, Env, Load;
    var p, nested, ran := RanNested(fuel, w, gl, g, ctx, lazy, o);
    ParsedByType(w, gl, g, ctx, lazy, p, nested);
    OfStepSays(p, o.result.value);
    var g3 := Tick(Tick(Tick(g)));
    var ctx1, s := SequenceSays(fuel - 1, w, gl, g3, nested, p);
    StepsSpine(fuel - 1, w, gl, g3, ctx1, p.steps);
    LazySpine(fuel, w, gl, g, ctx, lazy);
  }
}
