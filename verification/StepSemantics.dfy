// pkg/runner as a big-step semantics: what loading and running a step tree yields, as a function of
// the world's answers. The imperative runner is proved to compute exactly this.
module StepSemantics {
  import opened Prelude
  import opened GoStrings
  import opened Values
  import opened Expressions
  import opened Interpolation
  import opened Proto
  import opened StepFiles

  type Vars = map<string, string>

  // ---- The world ----

  // A definition with the directory it was loaded from.
  datatype LoadedSpec = LoadedSpec(spec: Spec, definition: Definition, dir: string)

  datatype Resource =
    | FileSystem(workDir: string, stepPath: string, filename: string)
    | GitRepo(url: string, version: string, path: string, filename: string)
    | Distributed(path: string, filename: string)
    | DynamicRef(shortRef: string)
    | Fixed(loaded: LoadedSpec)

  // What a command left behind: exit status and the lines it wrote to its two files. The outputs of
  // a step result are those a delegating command wrote, if its output file decodes as one.
  datatype ExecOutcome = ExecOutcome(
    ok: bool, exitCode: int, outputLines: seq<FileLine>, stepResult: Option<Outputs>, exportLines: seq<FileLine>)

  // Answers of everything outside; the ones that may vary over time take a tick.
  datatype World = World(
    json: JsonOf,
    number: real -> string,
    join: seq<string> -> string,
    load: (nat, string) -> Option<SpecDefinition>,
    fetch: (nat, Resource, View) -> Option<LoadedSpec>,
    exec: (nat, seq<string>, string, Vars) -> ExecOutcome,
    tempFile: nat -> Option<string>,
    log: nat -> bool)

  // The global context: the fixed part, and the part a run changes. `base` is what the global
  // environment holds before any export; `exports` are its mutations, oldest first.
  datatype Global = Global(workDir: string, job: Vars, base: Vars)
  datatype GlobalState = GlobalState(exports: seq<Vars>, tick: nat)

  function Tick(g: GlobalState): GlobalState {
    g.(tick := g.tick + 1)
  }

  // ---- Environments ----

  // Later maps are copied over earlier ones.
  function Overlay(base: Vars, maps: seq<Vars>): Vars {
    if maps == [] then base else Overlay(base, maps[..|maps| - 1]) + maps[|maps| - 1]
  }

  // The values of an environment: lexical scopes, innermost first, on top of the global one.
  function EnvValues(base: Vars, exports: seq<Vars>, scopes: seq<Vars>): Vars {
    if scopes == [] then Overlay(base, exports) else EnvValues(base, exports, scopes[1..]) + scopes[0]
  }

  function Push(scopes: seq<Vars>, vars: Vars): seq<Vars> {
    if vars == map[] then scopes else [vars] + scopes
  }

  // A steps context. Its environment is its scopes over the global environment.
  datatype Ctx = Ctx(
    dir: string,
    inputs: map<string, Value>,
    scopes: seq<Vars>,
    steps: map<string, StepResult>,
    outputFile: string,
    exportFile: string)

  function Env(gl: Global, g: GlobalState, ctx: Ctx): Vars {
    EnvValues(gl.base, g.exports, ctx.scopes)
  }

  function ViewOf(gl: Global, g: GlobalState, ctx: Ctx): View {
    View(Env(gl, g, ctx), ctx.exportFile, ctx.inputs, gl.job, ctx.outputFile, ctx.dir,
         map name | name in ctx.steps :: ctx.steps[name].outputs, gl.workDir)
  }

  // ---- Pointwise expansion ----

  function ExpandVars(json: JsonOf, view: View, env: Vars): Option<Vars> {
    if forall k :: k in env ==> ExpandedString(json, view, env[k]).Some? then
      Some(map k | k in env :: ExpandedString(json, view, env[k]).value)
    else None
  }

  function ExpandValues(json: JsonOf, view: View, values: map<string, Value>): Option<map<string, Value>> {
    if forall k :: k in values ==> Expanded(json, view, values[k]).Some? then
      Some(map k | k in values :: Expanded(json, view, values[k]).value)
    else None
  }

  function ExpandAll(json: JsonOf, view: View, args: seq<string>): Option<seq<string>> {
    if forall i :: 0 <= i < |args| ==> ExpandedString(json, view, args[i]).Some? then
      Some(seq(|args|, i requires 0 <= i < |args| => ExpandedString(json, view, args[i]).value))
    else None
  }

  // ---- Loading ----

  function StepPathOf(w: World, ref: Reference): string {
    match ref.stepPath
    case PathExp(exp) => exp
    case Paths(parts) => w.join(parts)
    case NoStepPath => w.join(ref.path)
  }

  function ParseReference(w: World, dir: string, ref: Reference): Option<Resource> {
    match ref.protocol
    case Local => Some(FileSystem(dir, StepPathOf(w, ref), ref.filename))
    case Git => Some(GitRepo(ref.url, ref.version, StepPathOf(w, ref), ref.filename))
    case Dist => Some(Distributed(StepPathOf(w, ref), ref.filename))
    case Dynamic => Some(DynamicRef(ref.url))
    case Inline(d) => Some(Fixed(LoadedSpec(d.spec, d.definition, StepPathOf(w, ref))))
    case _ => None
  }

  // An absolute path is used as it is, any other is joined to the working directory.
  function StepDir(w: World, workDir: string, stepPath: string): string {
    if HasPrefix(stepPath, "/") then stepPath else w.join([workDir, stepPath])
  }

  function Fetch(w: World, tick: nat, resource: Resource, view: View): Option<LoadedSpec> {
    match resource
    case Fixed(loaded) => Some(loaded)
    case FileSystem(workDir, stepPath, filename) =>
      (match ExpandedString(w.json, view, stepPath)
       case None => None
       case Some(path) =>
         var dir := StepDir(w, workDir, path);
         match w.load(tick, w.join([dir, filename]))
         case None => None
         case Some(d) => Some(LoadedSpec(d.spec, d.definition, dir)))
    case _ => w.fetch(tick, resource, view)
  }

  // The expanded arguments a step is called with, and the environment snapshot it starts from.
  datatype Params = Params(inputs: map<string, Value>, env: Vars)

  datatype LazyStep = LazyStep(step: Step, resource: Resource)

  datatype Parsed =
    | ExecStep(name: string, reference: Reference, params: Params, loaded: LoadedSpec)
    | SequenceStep(name: string, reference: Reference, params: Params, loaded: LoadedSpec, steps: seq<LazyStep>)

  predicate ValidInputs(specInputs: map<string, Input>, inputs: map<string, Value>) {
    forall key :: key in specInputs ==> key in inputs || specInputs[key].default.Some?
  }

  function ParseSteps(w: World, dir: string, steps: seq<Step>): Option<seq<LazyStep>> {
    if forall i :: 0 <= i < |steps| ==> ParseReference(w, dir, steps[i].reference).Some? then
      Some(seq(|steps|, i requires 0 <= i < |steps| =>
        LazyStep(steps[i], ParseReference(w, dir, steps[i].reference).value)))
    else None
  }

  function Parse(w: World, loaded: LoadedSpec, params: Params, name: string, reference: Reference): Option<Parsed> {
    if !ValidInputs(loaded.spec.inputs, params.inputs) then None else ParseType(w, loaded, params, name, reference)
  }

  function ParseType(w: World, loaded: LoadedSpec, params: Params, name: string, reference: Reference): Option<Parsed> {
    match loaded.definition.typ
    case ExecDefinition => Some(ExecStep(name, reference, params, loaded))
    case StepsDefinition =>
      (match ParseSteps(w, loaded.dir, loaded.definition.steps)
       case None => None
       case Some(steps) => Some(SequenceStep(name, reference, params, loaded, steps)))
    case NoDefinition => None
  }

  // Arguments must be declared; each is expanded in the caller's view, as is the step's environment,
  // whose snapshot holds everything the caller sees with the step's variables on top.
  function LoadParams(w: World, gl: Global, g: GlobalState, ctx: Ctx, step: Step, specInputs: map<string, Input>): Option<Params> {
    var view := ViewOf(gl, g, ctx);
    if !(forall name :: name in step.inputs ==> name in specInputs) then None
    else match (ExpandValues(w.json, view, step.inputs), ExpandVars(w.json, view, step.env))
      case (Some(inputs), Some(env)) =>
        Some(Params(inputs, EnvValues(gl.base, g.exports, Push(ctx.scopes, env))))
      case _ => None
  }

  function Load(w: World, gl: Global, g: GlobalState, ctx: Ctx, lazy: LazyStep): Option<Parsed> {
    match Fetch(w, g.tick, lazy.resource, ViewOf(gl, g, ctx))
    case None => None
    case Some(loaded) =>
      match LoadParams(w, gl, g, ctx, lazy.step, loaded.spec.inputs)
      case None => None
      case Some(params) => Parse(w, loaded, params, lazy.step.name, lazy.step.reference)
  }

  // The argument, or else the default; a key with neither has no value.
  function InputsWithDefault(params: Params, specInputs: map<string, Input>): map<string, Value> {
    map key | key in specInputs && (key in params.inputs || specInputs[key].default.Some?) ::
      if key in params.inputs then params.inputs[key] else specInputs[key].default.value
  }

  function NewContext(w: World, tick: nat, dir: string, inputs: map<string, Value>, scopes: seq<Vars>): Option<Ctx> {
    match (w.tempFile(tick), w.tempFile(tick + 1))
    case (Some(outputFile), Some(exportFile)) => Some(Ctx(dir, inputs, scopes, map[], outputFile, exportFile))
    case _ => None
  }

  // ---- Running ----

  // No result and an error is what a step reports that could not start.
  datatype Outcome = Outcome(result: Option<StepResult>, failed: bool, g: GlobalState)
  datatype Ran = Ran(result: Option<StepResult>, failed: bool, g: GlobalState, ctx: Ctx)
  datatype StepsRan = StepsRan(results: seq<StepResult>, failed: bool, g: GlobalState, ctx: Ctx)

  function BuildResult(p: Parsed, status: Status, outputs: Outputs, exports: Vars, env: Vars,
                       execResult: Option<ExecResult>, subStepResults: seq<StepResult>): StepResult
  {
    StepResult(Step(p.name, p.reference, p.params.env, p.params.inputs),
               SpecDefinition(p.loaded.spec, p.loaded.definition),
               status, outputs, exports, env, execResult, subStepResults)
  }

  // Results are recorded under their own names.
  ghost predicate KeysAreNames(steps: map<string, StepResult>) {
    forall k :: k in steps ==> steps[k].step.name == k
  }

  function Record(ctx: Ctx, result: Option<StepResult>): Ctx {
    match result
    case None => ctx
    case Some(r) => ctx.(steps := ctx.steps[r.step.name := r])
  }

  function ExecOutputs(w: World, loaded: LoadedSpec, out: ExecOutcome): Option<Outputs> {
    if loaded.spec.outputMethod.DelegateMethod? then out.stepResult
    else OutputsOf(Scanned(out.outputLines), loaded.spec.outputs)
  }

  function Command(w: World, gl: Global, g: GlobalState, ctx: Ctx, d: Definition): Option<(seq<string>, string)> {
    var view := ViewOf(gl, g, ctx);
    var dir := if d.workDir == "" then Some(gl.workDir) else ExpandedString(w.json, view, d.workDir);
    match (ExpandAll(w.json, view, d.command), dir)
    case (Some(args), Some(workDir)) => Some((args, workDir))
    case _ => None
  }

  function RunExec(w: World, gl: Global, g: GlobalState, ctx: Ctx, p: Parsed): Ran
    requires p.ExecStep?
  {
    var g1 := Tick(g);
    if !w.log(g.tick) then Ran(None, true, g1, ctx)
    else match ExpandVars(w.json, ViewOf(gl, g1, ctx), p.loaded.definition.env)
      case None => Ran(Some(BuildResult(p, Failure, map[], map[], map[], None, [])), true, g1, ctx)
      case Some(vars) =>
        RunCommand(w, gl, g1, ctx.(scopes := Push(ctx.scopes, vars)), p)
  }

  // The command runs in the environment the step just applied.
  function RunCommand(w: World, gl: Global, g: GlobalState, ctx: Ctx, p: Parsed): Ran
    requires p.ExecStep?
  {
    var env := Env(gl, g, ctx);
    match Command(w, gl, g, ctx, p.loaded.definition)
    case None => Ran(Some(BuildResult(p, Failure, map[], map[], env, None, [])), true, g, ctx)
    case Some((args, dir)) =>
      var out := w.exec(g.tick, args, dir, env);
      Collect(w, Tick(g), ctx, p, env, Some(ExecResult(args, dir, out.exitCode)), out)
  }

  // What the command left behind; only a step that comes through exports.
  function Collect(w: World, g: GlobalState, ctx: Ctx, p: Parsed, env: Vars, executed: Option<ExecResult>, out: ExecOutcome): Ran {
    if !out.ok then Ran(Some(BuildResult(p, Failure, map[], map[], env, executed, [])), true, g, ctx)
    else match ExecOutputs(w, p.loaded, out)
      case None => Ran(Some(BuildResult(p, Failure, map[], map[], env, executed, [])), true, g, ctx)
      case Some(outputs) =>
        match ExportedEnv(w.number, Scanned(out.exportLines))
        case None => Ran(Some(BuildResult(p, Failure, outputs, map[], env, executed, [])), true, g, ctx)
        case Some(exports) =>
          var g1 := if exports == map[] then g else g.(exports := g.exports + [exports]);
          Ran(Some(BuildResult(p, Success, outputs, exports, env, executed, [])), false, g1, ctx)
  }

  function SequenceOutputs(w: World, gl: Global, g: GlobalState, ctx: Ctx, loaded: LoadedSpec): Option<Outputs> {
    if loaded.spec.outputMethod.DelegateMethod? then
      var name := loaded.definition.delegate;
      if name in ctx.steps then Some(ctx.steps[name].outputs) else None
    else ExpandValues(w.json, ViewOf(gl, g, ctx), loaded.definition.outputs)
  }

  // Fuel bounds the nesting of lazily loaded steps; None means it ran out.
  function RunLazy(fuel: nat, w: World, gl: Global, g: GlobalState, ctx: Ctx, lazy: LazyStep): Option<Outcome>
    decreases fuel, 0, 0
  {
    if fuel == 0 then None
    else match Load(w, gl, g, ctx, lazy)
      case None => Some(Outcome(None, true, Tick(g)))
      case Some(p) => RunLoaded(fuel, w, gl, Tick(g), ctx, p)
  }

  function RunLoaded(fuel: nat, w: World, gl: Global, g: GlobalState, ctx: Ctx, p: Parsed): Option<Outcome>
    requires fuel > 0
    decreases fuel - 1, 3, 0
  {
    var inputs := InputsWithDefault(p.params, p.loaded.spec.inputs);
    match NewContext(w, g.tick, p.loaded.dir, inputs, Push(ctx.scopes, p.params.env))
    case None => Some(Outcome(None, true, Tick(Tick(g))))
    case Some(nested) =>
      match RunParsed(fuel - 1, w, gl, Tick(Tick(g)), nested, p)
      case None => None
      case Some(ran) => Some(Outcome(ran.result, ran.failed, ran.g))
  }

  function RunParsed(fuel: nat, w: World, gl: Global, g: GlobalState, ctx: Ctx, p: Parsed): Option<Ran>
    decreases fuel, 2, 0
  {
    if p.ExecStep? then Some(RunExec(w, gl, g, ctx, p))
    else match ExpandVars(w.json, ViewOf(gl, g, ctx), p.loaded.definition.env)
      case None => Some(Ran(Some(BuildResult(p, Failure, map[], map[], map[], None, [])), true, g, ctx))
      case Some(vars) =>
        var ctx1 := ctx.(scopes := Push(ctx.scopes, vars));
        match RunSteps(fuel, w, gl, g, ctx1, p.steps)
        case None => None
        case Some(s) => Some(FinishSequence(w, gl, p, Env(gl, g, ctx1), s))
  }

  function FinishSequence(w: World, gl: Global, p: Parsed, env: Vars, s: StepsRan): Ran {
    if s.failed then Ran(Some(BuildResult(p, Failure, map[], map[], env, None, s.results)), true, s.g, s.ctx)
    else match SequenceOutputs(w, gl, s.g, s.ctx, p.loaded)
      case None => Ran(Some(BuildResult(p, Failure, map[], map[], env, None, s.results)), true, s.g, s.ctx)
      case Some(outputs) => Ran(Some(BuildResult(p, Success, outputs, map[], env, None, s.results)), false, s.g, s.ctx)
  }

  function Reported(result: Option<StepResult>): seq<StepResult> {
    if result.Some? then [result.value] else []
  }

  // One step after the other; the first error ends the sequence.
  function RunSteps(fuel: nat, w: World, gl: Global, g: GlobalState, ctx: Ctx, steps: seq<LazyStep>): Option<StepsRan>
    decreases fuel, 1, |steps|
  {
    if steps == [] then Some(StepsRan([], false, g, ctx))
    else match RunLazy(fuel, w, gl, g, ctx, steps[0])
      case None => None
      case Some(o) =>
        var ctx1 := Record(ctx, o.result);
        if o.failed then Some(StepsRan(Reported(o.result), true, o.g, ctx1))
        else match RunSteps(fuel, w, gl, o.g, ctx1, steps[1..])
          case None => None
          case Some(s) => Some(s.(results := Reported(o.result) + s.results))
  }
}
