// schema/v1/reference.go, and the compilation of a step around it in schema/v1/step.go.
module LongReferences {
  import opened Prelude
  import opened GoStrings
  import opened Values
  import opened Proto
  import opened Templates
  import opened ShortReferences

  datatype GitReference = GitReference(url: string, rev: string, dir: Option<string>, file: Option<string>)
  datatype OciReference = OciReference(
    registry: string, repository: string, tag: string, dir: Option<string>, file: Option<string>)
  datatype LongReference = LongReference(git: Option<GitReference>, oci: Option<OciReference>)

  const STEP_FILE := "step.yml"
  const FETCH_PREFIX := "fetch_step_"

  function CompileGit(r: GitReference): Reference {
    PathReference(Git, DefaultHTTPS(r.url), r.rev,
                  if r.dir.Some? then Split(r.dir.value, '/') else [],
                  if r.file.Some? then r.file.value else STEP_FILE)
  }

  function FetchName(stepName: string): string {
    FETCH_PREFIX + stepName
  }

  function FetchedPath(stepName: string): string {
    "steps" + "." + FetchName(stepName) + "." + "outputs" + "." + "fetched_step_path"
  }

  // The step that fetches the image.
  function FetchStep(r: OciReference, stepName: string, env: map<string, string>): Step {
    var tag := if r.tag == "" then "latest" else r.tag;
    var dir := if r.dir.Some? then r.dir.value else "";
    Step(FetchName(stepName),
         PathReference(Dist, "", "", ["step", "oci", "fetch"], STEP_FILE),
         env,
         map["registry" := Str(r.registry), "repository" := Str(r.repository), "tag" := Str(tag), "step_path" := Str(dir)])
  }

  // The step that runs what was fetched.
  function FetchedStep(r: OciReference, stepName: string, inputs: map<string, Value>, env: map<string, string>): Step {
    Step(stepName,
         Reference(Local, "", "", [], if r.file.Some? then r.file.value else STEP_FILE,
                   PathExp(OPEN + FetchedPath(stepName) + CLOSE)),
         env, inputs)
  }

  function OciDefinition(r: OciReference, stepName: string, inputs: map<string, Value>, env: map<string, string>): SpecDefinition {
    SpecDefinition(
      Spec(map[], map[], DelegateMethod),
      Definition(StepsDefinition, [], "",
                 [FetchStep(r, stepName, env), FetchedStep(r, stepName, inputs, env)],
                 map[], map[], stepName))
  }

  function CompileOci(r: OciReference, stepName: string, inputs: map<string, Value>, env: map<string, string>): Reference {
    Reference(Inline(OciDefinition(r, stepName, inputs, env)), "", "", [], "", NoStepPath)
  }

  // Exactly one of the two forms must be given.
  function CompileReference(r: LongReference, stepName: string, inputs: map<string, Value>, env: map<string, string>): (ref: Option<Reference>)
    ensures ref.Some? <==> (r.git.Some? <==> r.oci.None?)
    ensures ref.Some? ==> (ref.value.protocol.Inline? <==> r.oci.Some?)
  {
    match r
    case LongReference(Some(git), None) => Some(CompileGit(git))
    case LongReference(None, Some(oci)) => Some(CompileOci(oci, stepName, inputs, env))
    case _ => None
  }

  // A printed short reference and the git form that spells its directory out compile to the same.
  lemma ShortAndLongAgree(url: string, segments: seq<string>, file: string, rev: string)
    requires LooksRemote(PrintRemote(url, segments, file, rev))
    requires !Contains(url, SEPARATOR) && !HasSuffix(url, "/-")
    requires GoodSegments(segments) && GoodFile(file) && '@' !in rev
    ensures CompileShortRef(PrintRemote(url, segments, file, rev))
         == Some(CompileGit(GitReference(url, rev, Some(Join(["steps"] + segments, "/")), Some(file))))
  {
    hide CompileShortRef, PrintRemote, LooksRemote, Contains, Split, Join, DefaultHTTPS;
    RemoteRoundTrip(url, segments, file, rev);
    SchemeOf(url);
    var dirs := ["steps"] + segments;
    forall i | 0 <= i < |dirs| ensures '/' !in dirs[i] {
      if i > 0 {
        assert dirs[i] == segments[i - 1];
      }
    }
    SplitJoin(dirs, '/');
    assert ['/'] == "/";
  }

  // Likewise without a file name, and a git reference to nothing but a repository.
  lemma ShortAndLongDefaults(url: string, segments: seq<string>, rev: string)
    requires segments != [] && GoodSegments(segments) && !HasSuffix(segments[|segments| - 1], ".yml") && '@' !in rev
    requires !Contains(url, SEPARATOR) && !HasSuffix(url, "/-")
    requires LooksRemote(url + SEPARATOR + Join(segments, "/") + "@" + rev)
    ensures CompileShortRef(url + SEPARATOR + Join(segments, "/") + "@" + rev)
         == Some(CompileGit(GitReference(url, rev, Some(Join(["steps"] + segments, "/")), None)))
    ensures var bare := CompileGit(GitReference(url, rev, None, None));
      && bare.protocol == Git && bare.version == rev && bare.path == [] && bare.filename == "step.yml"
      && bare.url == if "http://" <= url || "https://" <= url then url else "https://" + url
  {
    hide CompileShortRef, LooksRemote, Contains, Split, Join, DefaultHTTPS;
    RemoteWithoutFile(url, segments, rev);
    SchemeOf(url);
    var dirs := ["steps"] + segments;
    forall i | 0 <= i < |dirs| ensures '/' !in dirs[i] {
      if i > 0 {
        assert dirs[i] == segments[i - 1];
      }
    }
    SplitJoin(dirs, '/');
    assert ['/'] == "/";
  }

  // A step with an inlined definition keeps no inputs of its own.
  function CompileStep(r: LongReference, stepName: string, inputs: map<string, Value>, env: map<string, string>): Option<Step> {
    match CompileReference(r, stepName, inputs, env)
    case None => None
    case Some(ref) => Some(Step(stepName, ref, env, if ref.protocol.Inline? then map[] else inputs))
  }

  // A git step keeps its inputs. An OCI step hands them to the step inside and keeps none; both keep
  // name and environment.
  lemma StepsKeepTheirArguments(r: LongReference, stepName: string, inputs: map<string, Value>, env: map<string, string>)
    requires CompileStep(r, stepName, inputs, env).Some?
    ensures var step := CompileStep(r, stepName, inputs, env).value;
      && step.name == stepName && step.env == env
      && (r.git.Some? ==> step.inputs == inputs && step.reference.protocol == Git)
      && (r.oci.Some? ==>
            && step.inputs == map[] && step.reference.protocol.Inline?
            && var d := step.reference.protocol.specDef.definition;
               && d.delegate == stepName && d.steps[1].name == stepName && d.steps[1].inputs == inputs && d.steps[1].env == env
               && d.steps[0].env == env && d.steps[0].name == "fetch_step_" + stepName
               && d.steps[1].reference.protocol == Local
               && d.steps[1].reference.stepPath
                  == PathExp("${{" + ("steps." + ("fetch_step_" + stepName) + ".outputs.fetched_step_path") + "}}")
               && d.steps[1].reference.filename == (if r.oci.value.file.Some? then r.oci.value.file.value else "step.yml")
               && d.steps[0].reference == PathReference(Dist, "", "", ["step", "oci", "fetch"], "step.yml"))
  {
    hide DefaultHTTPS, Split, FetchName, FetchedPath;
    FetchedPathText(stepName);
  }

  lemma FetchedPathText(stepName: string)
    ensures FetchName(stepName) == "fetch_step_" + stepName
    ensures FetchedPath(stepName) == "steps." + ("fetch_step_" + stepName) + ".outputs.fetched_step_path"
  {
    var name := FetchName(stepName);
    assert "steps" + "." + name == "steps." + name;
    assert "." + "outputs" + "." + "fetched_step_path" == ".outputs.fetched_step_path";
    assert FetchedPath(stepName) == "steps." + name + ("." + "outputs" + "." + "fetched_step_path");
  }
}

// Running a compiled OCI step: fetch, then run what was fetched, then hand its outputs on.
module OciMeaning {
  import opened Prelude
  import opened GoStrings
  import opened Values
  import opened Expressions
  import opened Templates
  import opened Interpolation
  import opened InterpolationLaws
  import opened Proto
  import opened ShortReferences
  import opened LongReferences
  import opened StepSemantics
  import opened RunLaws

  predicate NameStart(c: char) {
    'a' <= c <= 'z' || 'A' <= c <= 'Z' || c == '_'
  }

  // The schema's pattern for step names; a step may also go without one.
  predicate SchemaName(name: string) {
    name == "" || (NameStart(name[0]) && forall i :: 0 <= i < |name| ==> NameStart(name[i]) || '0' <= name[i] <= '9')
  }

  lemma SplitFour(a: string, b: string, c: string, d: string)
    requires '.' !in a && '.' !in b && '.' !in c && '.' !in d
    ensures Split(a + "." + b + "." + c + "." + d, '.') == [a, b, c, d]
  {
    SplitPlain(a, '.');
    SplitPlain(b, '.');
    SplitPlain(c, '.');
    SplitPlain(d, '.');
    SplitAt(a, '.', b);
    SplitAt(a + "." + b, '.', c);
    SplitAt(a + "." + b + "." + c, '.', d);
    hide Split;
    assert "." == ['.'];
  }

  lemma SchemaNameChars(name: string)
    requires SchemaName(name)
    ensures Word(FetchName(name)) && '.' !in FetchName(name)
  {
    var f := FetchName(name);
    forall i | 0 <= i < |f| ensures f[i] !in {'$', '{', '}', '.'} {
      if i >= |FETCH_PREFIX| {
        assert f[i] == name[i - |FETCH_PREFIX|];
      }
    }
  }

  lemma FetchedPathKeys(name: string)
    requires SchemaName(name)
    ensures Word(FetchedPath(name)) && FetchedPath(name) != ""
    ensures Keys(FetchedPath(name)) == ["steps", FetchName(name), "outputs", "fetched_step_path"]
  {
    SchemaNameChars(name);
    SplitFour("steps", FetchName(name), "outputs", "fetched_step_path");
    DottedPath(FetchName(name));
    hide Split, TrimSpace, FetchName, SchemaName, Word;
  }

  lemma DottedPath(f: string)
    requires Word(f)
    ensures var path := "steps" + "." + f + "." + "outputs" + "." + "fetched_step_path";
      Word(path) && path != "" && TrimSpace(path) == path
  {
    hide TrimSpace, IsSpace;
    var head := "steps" + "." + f;
    var path := head + "." + "outputs" + "." + "fetched_step_path";
    assert Word(head + "." + "outputs");
    assert Word(head + "." + "outputs" + "." + "fetched_step_path");
    assert path[0] == "steps"[0] == 's';
    assert path[|path| - 1] == "fetched_step_path"[|"fetched_step_path"| - 1] == 'h';
    SmallLetterIsNoSpace('s');
    SmallLetterIsNoSpace('h');
    TrimTight(path);
  }

  lemma SmallLetterIsNoSpace(c: char)
    requires 'a' <= c <= 'z'
    ensures !IsSpace(c)
  {
  }

  // The path expression of the second step denotes the recorded output of the fetch step.
  lemma PathExpressionDenotesOutput(json: JsonOf, view: View, name: string)
    requires SchemaName(name)
    ensures ExpandedString(json, view, OPEN + FetchedPath(name) + CLOSE) ==
      if FetchName(name) in view.steps && "fetched_step_path" in view.steps[FetchName(name)]
      then ValueToString(json, view.steps[FetchName(name)]["fetched_step_path"])
      else None
  {
    FetchedPathKeys(name);
    LexHole(FetchedPath(name));
    SimpleHole(FetchedPath(name));
    LoneHoleKeepsType(json, view, OPEN + FetchedPath(name) + CLOSE, [Run(FetchedPath(name))]);
    EvaluationFindsTheAddressed(view, FetchedPath(name));
    hide Evaluation, Interpolated, Lex, FetchedPath, FetchName;
    var keys := Keys(FetchedPath(name));
    assert keys[4..] == [];
  }

  // Where the second step is loaded from, once the fetch step has reported.
  function FetchedDir(w: World, workDir: string, fetched: Outputs): Option<string> {
    if "fetched_step_path" !in fetched then None
    else match ValueToString(w.json, fetched["fetched_step_path"])
      case None => None
      case Some(path) => Some(StepDir(w, workDir, path))
  }

  lemma AbsoluteOrJoined(w: World, workDir: string, outputs: Outputs)
    ensures "fetched_step_path" in outputs && outputs["fetched_step_path"].Str? ==>
      var path := outputs["fetched_step_path"].text;
      FetchedDir(w, workDir, outputs) == Some(if path != "" && path[0] == '/' then path else w.join([workDir, path]))
  {
    if "fetched_step_path" in outputs && outputs["fetched_step_path"].Str? {
      var path := outputs["fetched_step_path"].text;
      if path != "" && path[0] == '/' {
        assert path[..1] == "/";
      }
    }
  }

  // Loading the second step reads its definition file under the fetched directory; an absolute
  // path is used as it is.
  lemma SecondStepIsLoadedFromFetchedPath(w: World, gl: Global, g: GlobalState, ctx: Ctx, name: string, workDir: string, filename: string)
    requires SchemaName(name) && FetchName(name) in ctx.steps
    ensures Fetch(w, g.tick, FileSystem(workDir, OPEN + FetchedPath(name) + CLOSE, filename), ViewOf(gl, g, ctx)) ==
      match FetchedDir(w, workDir, ctx.steps[FetchName(name)].outputs)
      case None => None
      case Some(dir) =>
        match w.load(g.tick, w.join([dir, filename]))
        case None => None
        case Some(d) => Some(LoadedSpec(d.spec, d.definition, dir))
    ensures var outputs := ctx.steps[FetchName(name)].outputs;
      "fetched_step_path" in outputs && outputs["fetched_step_path"].Str? ==>
        var path := outputs["fetched_step_path"].text;
        FetchedDir(w, workDir, outputs) == Some(if path != "" && path[0] == '/' then path else w.join([workDir, path]))
  {
    AbsoluteOrJoined(w, workDir, ctx.steps[FetchName(name)].outputs);
    PathExpressionDenotesOutput(w.json, ViewOf(gl, g, ctx), name);
    hide ExpandedString, FetchedPath, FetchName, StepDir, Env;
  }

  // ---- The two-step run ----

  function OciLazy(w: World, r: OciReference, name: string, inputs: map<string, Value>, env: Vars): LazyStep {
    var ref := CompileOci(r, name, inputs, env);
    LazyStep(Step(name, ref, env, map[]), Fixed(LoadedSpec(OciDefinition(r, name, inputs, env).spec,
                                                           OciDefinition(r, name, inputs, env).definition, w.join([]))))
  }

  function FetchLazy(w: World, r: OciReference, name: string, env: Vars): LazyStep {
    LazyStep(FetchStep(r, name, env), Distributed(w.join(["step", "oci", "fetch"]), STEP_FILE))
  }

  function FetchedLazy(w: World, r: OciReference, name: string, inputs: map<string, Value>, env: Vars): LazyStep {
    var step := FetchedStep(r, name, inputs, env);
    LazyStep(step, FileSystem(w.join([]), OPEN + FetchedPath(name) + CLOSE, step.reference.filename))
  }

  // What is compiled and parsed is that lazy step, whatever directory it is parsed in.
  lemma CompiledOciStep(w: World, dir: string, r: OciReference, name: string, inputs: map<string, Value>, env: Vars)
    ensures var step := CompileStep(LongReference(None, Some(r)), name, inputs, env);
      && step.Some?
      && ParseReference(w, dir, step.value.reference).Some?
      && LazyStep(step.value, ParseReference(w, dir, step.value.reference).value) == OciLazy(w, r, name, inputs, env)
  {
  }

  lemma OciSteps(w: World, r: OciReference, name: string, inputs: map<string, Value>, env: Vars)
    ensures ParseSteps(w, w.join([]), OciDefinition(r, name, inputs, env).definition.steps)
         == Some([FetchLazy(w, r, name, env), FetchedLazy(w, r, name, inputs, env)])
  {
    hide FetchedPath, FetchName;
    var steps := OciDefinition(r, name, inputs, env).definition.steps;
    assert ParseSteps(w, w.join([]), steps).value == [FetchLazy(w, r, name, env), FetchedLazy(w, r, name, inputs, env)];
  }

  function OciParsed(w: World, gl: Global, g: GlobalState, ctx: Ctx, r: OciReference, name: string,
                     inputs: map<string, Value>, env: Vars, expanded: Vars): Parsed
  {
    var lazy := OciLazy(w, r, name, inputs, env);
    SequenceStep(name, lazy.step.reference,
                 Params(map[], EnvValues(gl.base, g.exports, Push(ctx.scopes, expanded))),
                 lazy.resource.loaded,
                 [FetchLazy(w, r, name, env), FetchedLazy(w, r, name, inputs, env)])
  }

  lemma OciLoads(w: World, gl: Global, g: GlobalState, ctx: Ctx, r: OciReference, name: string, inputs: map<string, Value>, env: Vars)
    ensures Load(w, gl, g, ctx, OciLazy(w, r, name, inputs, env)) ==
      match ExpandVars(w.json, ViewOf(gl, g, ctx), env)
      case None => None
      case Some(expanded) => Some(OciParsed(w, gl, g, ctx, r, name, inputs, env, expanded))
  {
    OciSteps(w, r, name, inputs, env);
    hide ExpandVars, ViewOf, EnvValues, ParseSteps, FetchStep, FetchedStep;
    assert ExpandValues(w.json, ViewOf(gl, g, ctx), map[]).value == map[];
  }

  // The context the two steps run in: no inputs, no recorded results, the caller's snapshot as scope.
  function OciContext(w: World, gl: Global, g: GlobalState, ctx: Ctx, expanded: Vars): Option<Ctx> {
    NewContext(w, g.tick + 1, w.join([]), map[],
               Push(ctx.scopes, EnvValues(gl.base, g.exports, Push(ctx.scopes, expanded))))
  }

  // Fetch, then the second step with the fetch result recorded; the outer step fails if either does,
  // and otherwise returns exactly the second step's outputs.
  function FetchThenRun(fuel: nat, w: World, gl: Global, g: GlobalState, nested: Ctx, p: Parsed,
                        fetch: LazyStep, fetched: LazyStep): Option<Outcome>
  {
    var env := Env(gl, g, nested);
    match RunLazy(fuel, w, gl, g, nested, fetch)
    case None => None
    case Some(o1) =>
      if o1.failed then
        Some(Outcome(Some(BuildResult(p, Failure, map[], map[], env, None, Reported(o1.result))), true, o1.g))
      else match RunLazy(fuel, w, gl, o1.g, Record(nested, o1.result), fetched)
        case None => None
        case Some(o2) =>
          var results := Reported(o1.result) + Reported(o2.result);
          if o2.failed || o2.result.None? then
            Some(Outcome(Some(BuildResult(p, Failure, map[], map[], env, None, results)), true, o2.g))
          else
            Some(Outcome(Some(BuildResult(p, Success, o2.result.value.outputs, map[], env, None, results)), false, o2.g))
  }

  // A result carries the name of its step and the definition that was fetched.
  lemma ResultNamed(fuel: nat, w: World, gl: Global, g: GlobalState, ctx: Ctx, lazy: LazyStep)
    ensures var o := RunLazy(fuel, w, gl, g, ctx, lazy);
      o.Some? && o.value.result.Some? ==>
        var loaded := Fetch(w, g.tick, lazy.resource, ViewOf(gl, g, ctx));
        && o.value.result.value.step.name == lazy.step.name
        && loaded.Some?
        && o.value.result.value.specDefinition == SpecDefinition(loaded.value.spec, loaded.value.definition)
  {
    hide ExpandVars, Fetch, Load, ViewOf, RunLazy;
    ResultOfLoaded(fuel, w, gl, g, ctx, lazy);
    if Load(w, gl, g, ctx, lazy).Some? {
      LoadedSays(w, gl, g, ctx, lazy);
    }
  }

  lemma TwoSteps(fuel: nat, w: World, gl: Global, g: GlobalState, ctx: Ctx, a: LazyStep, b: LazyStep)
    ensures RunSteps(fuel, w, gl, g, ctx, [a, b]) ==
      match RunLazy(fuel, w, gl, g, ctx, a)
      case None => None
      case Some(o1) =>
        var ctx1 := Record(ctx, o1.result);
        if o1.failed then Some(StepsRan(Reported(o1.result), true, o1.g, ctx1))
        else match RunLazy(fuel, w, gl, o1.g, ctx1, b)
          case None => None
          case Some(o2) => Some(StepsRan(Reported(o1.result) + Reported(o2.result), o2.failed, o2.g, Record(ctx1, o2.result)))
  {
    hide RunLazy;
    UnfoldSteps(fuel, w, gl, g, ctx, [a, b]);
    assert [a, b][1..] == [b] && [b][1..] == [];
    var o1 := RunLazy(fuel, w, gl, g, ctx, a);
    if o1.Some? && !o1.value.failed {
      var ctx1 := Record(ctx, o1.value.result);
      UnfoldSteps(fuel, w, gl, o1.value.g, ctx1, [b]);
      var o2 := RunLazy(fuel, w, gl, o1.value.g, ctx1, b);
      if o2.Some? {
        assert Reported(o2.value.result) + [] == Reported(o2.value.result);
      }
    }
  }

  lemma OciSequence(fuel: nat, w: World, gl: Global, g: GlobalState, nested: Ctx, p: Parsed, fetch: LazyStep, fetched: LazyStep)
    requires p.SequenceStep? && p.steps == [fetch, fetched] && p.loaded.definition.env == map[]
    requires p.loaded.spec.outputMethod.DelegateMethod? && p.loaded.definition.delegate == fetched.step.name
    ensures FetchThenRun(fuel, w, gl, g, nested, p, fetch, fetched) ==
      match RunParsed(fuel, w, gl, g, nested, p)
      case None => None
      case Some(ran) => Some(Outcome(ran.result, ran.failed, ran.g))
  {
    assert ExpandVars(w.json, ViewOf(gl, g, nested), map[]).value == map[];
    UnfoldSequence(fuel, w, gl, g, nested, p);
    TwoSteps(fuel, w, gl, g, nested, fetch, fetched);
    hide RunLazy, RunSteps, RunParsed, ExpandVars, ViewOf, Env, ExpandValues;
    var o1 := RunLazy(fuel, w, gl, g, nested, fetch);
    if o1.Some? && !o1.value.failed {
      var ctx1 := Record(nested, o1.value.result);
      ResultNamed(fuel, w, gl, o1.value.g, ctx1, fetched);
      LazySpine(fuel, w, gl, o1.value.g, ctx1, fetched);
    }
  }

  // Running a compiled OCI step means: expand its environment, then fetch and run in a fresh context.
  lemma OciRunsFetchThenStep(fuel: nat, w: World, gl: Global, g: GlobalState, ctx: Ctx,
                             r: OciReference, name: string, inputs: map<string, Value>, env: Vars)
    requires fuel > 0
    ensures RunLazy(fuel, w, gl, g, ctx, OciLazy(w, r, name, inputs, env)) ==
      match ExpandVars(w.json, ViewOf(gl, g, ctx), env)
      case None => Some(Outcome(None, true, Tick(g)))
      case Some(expanded) =>
        match OciContext(w, gl, g, ctx, expanded)
        case None => Some(Outcome(None, true, Tick(Tick(Tick(g)))))
        case Some(nested) =>
          FetchThenRun(fuel - 1, w, gl, Tick(Tick(Tick(g))), nested, OciParsed(w, gl, g, ctx, r, name, inputs, env, expanded),
                       FetchLazy(w, r, name, env), FetchedLazy(w, r, name, inputs, env))
  {
    OciLoads(w, gl, g, ctx, r, name, inputs, env);
    var vars := ExpandVars(w.json, ViewOf(gl, g, ctx), env);
    if vars.Some? {
      var p := OciParsed(w, gl, g, ctx, r, name, inputs, env, vars.value);
      assert InputsWithDefault(p.params, p.loaded.spec.inputs) == map[];
      var nested := OciContext(w, gl, g, ctx, vars.value);
      if nested.Some? {
        OciSequence(fuel - 1, w, gl, Tick(Tick(Tick(g))), nested.value, p, FetchLazy(w, r, name, env), FetchedLazy(w, r, name, inputs, env));
      }
    }
    hide Load, ExpandVars, ViewOf, EnvValues, FetchThenRun, RunParsed, FetchStep, FetchedStep;
  }

  // The outer result has exactly two sub-results: the fetch under its own name, and the step under
  // the outer name, whose outputs are the outer outputs; the step's definition is the one read from
  // under the path the fetch reported.
  ghost predicate DelegatesToFetched(w: World, name: string, workDir: string, filename: string, outer: StepResult) {
    && |outer.subStepResults| == 2
    && var fetch, step := outer.subStepResults[0], outer.subStepResults[1];
    && fetch.step.name == FetchName(name) && step.step.name == name && fetch.step.name != step.step.name
    && outer.outputs == step.outputs
    && FetchedDir(w, workDir, fetch.outputs).Some?
    && exists tick ::
         w.load(tick, w.join([FetchedDir(w, workDir, fetch.outputs).value, filename])) == Some(step.specDefinition)
  }

  // The second step's arguments and snapshot are what its expressions mean beside the recorded fetch.
  ghost predicate ExpandedInside(w: World, gl: Global, nested: Ctx, inputs: map<string, Value>, env: Vars, outer: StepResult)
    requires |outer.subStepResults| == 2
  {
    var inner, step := Record(nested, Some(outer.subStepResults[0])), outer.subStepResults[1].step;
    exists g ::
      && ExpandValues(w.json, ViewOf(gl, g, inner), inputs) == Some(step.inputs)
      && ExpandVars(w.json, ViewOf(gl, g, inner), env).Some?
      && step.env == EnvValues(gl.base, g.exports, Push(nested.scopes, ExpandVars(w.json, ViewOf(gl, g, inner), env).value))
  }

  lemma OciMeaningPreserved(fuel: nat, w: World, gl: Global, g: GlobalState, ctx: Ctx,
                            r: OciReference, name: string, inputs: map<string, Value>, env: Vars, o: Outcome)
    requires SchemaName(name)
    requires RunLazy(fuel, w, gl, g, ctx, OciLazy(w, r, name, inputs, env)) == Some(o) && !o.failed
    ensures o.result.Some?
    ensures DelegatesToFetched(w, name, w.join([]), FetchedStep(r, name, inputs, env).reference.filename, o.result.value)
    ensures var expanded := ExpandVars(w.json, ViewOf(gl, g, ctx), env);
      && expanded.Some? && OciContext(w, gl, g, ctx, expanded.value).Some?
      && ExpandedInside(w, gl, OciContext(w, gl, g, ctx, expanded.value).value, inputs, env, o.result.value)
  {
    hide RunLazy, ViewOf, ExpandVars, OciContext, FetchThenRun, OciParsed, OciLazy, SchemaName, DelegatesToFetched,
      ExpandedInside, FetchedPath, FetchName, OciDefinition;
    RanHasFuel(fuel, w, gl, g, ctx, OciLazy(w, r, name, inputs, env));
    OciRunsFetchThenStep(fuel, w, gl, g, ctx, r, name, inputs, env);
    var expanded := ExpandVars(w.json, ViewOf(gl, g, ctx), env).value;
    var nested := OciContext(w, gl, g, ctx, expanded).value;
    var p := OciParsed(w, gl, g, ctx, r, name, inputs, env, expanded);
    var a, b := FetchLazy(w, r, name, env), FetchedLazy(w, r, name, inputs, env);
    TwoStepSuccess(fuel - 1, w, gl, Tick(Tick(Tick(g))), nested, p, a, b, name, o);
  }

  lemma RanHasFuel(fuel: nat, w: World, gl: Global, g: GlobalState, ctx: Ctx, lazy: LazyStep)
    requires RunLazy(fuel, w, gl, g, ctx, lazy).Some?
    ensures fuel > 0
  {
  }

  lemma TwoStepSuccess(fuel: nat, w: World, gl: Global, g: GlobalState, nested: Ctx, p: Parsed,
                       a: LazyStep, b: LazyStep, name: string, o: Outcome)
    requires FetchThenRun(fuel, w, gl, g, nested, p, a, b) == Some(o) && !o.failed
    requires SchemaName(name) && a.step.name == FetchName(name) && b.step.name == name && b.resource.FileSystem?
    requires b.resource.stepPath == OPEN + FetchedPath(name) + CLOSE
    ensures o.result.Some? && DelegatesToFetched(w, name, b.resource.workDir, b.resource.filename, o.result.value)
    ensures ExpandedInside(w, gl, nested, b.step.inputs, b.step.env, o.result.value)
  {
    hide Fetch, RunLazy, Load, ViewOf, ExpandValues, ExpandVars, EnvValues, Spine, FetchedDir, FetchedPath, SchemaName;
    var o1 := RunLazy(fuel, w, gl, g, nested, a).value;
    LazySpine(fuel, w, gl, g, nested, a);
    ResultNamed(fuel, w, gl, g, nested, a);
    var ctx1 := Record(nested, o1.result);
    assert FetchName(name) in ctx1.steps && ctx1.steps[FetchName(name)] == o1.result.value;
    ResultNamed(fuel, w, gl, o1.g, ctx1, b);
    ResultOfLoaded(fuel, w, gl, o1.g, ctx1, b);
    LoadedSays(w, gl, o1.g, ctx1, b);
    SecondStepIsLoadedFromFetchedPath(w, gl, o1.g, ctx1, name, b.resource.workDir, b.resource.filename);
    assert b.resource == FileSystem(b.resource.workDir, OPEN + FetchedPath(name) + CLOSE, b.resource.filename);
    var d := w.load(o1.g.tick, w.join([FetchedDir(w, b.resource.workDir, o1.result.value.outputs).value, b.resource.filename]));
    assert d.Some? && d.value == SpecDefinition(d.value.spec, d.value.definition);
    assert |FetchName(name)| > |name|;
  }

  // The image's coordinates reach the fetch step: each expanded, the tag "latest" and the path empty
  // if not given, and nothing else.
  lemma FetchStepArguments(w: World, gl: Global, g: GlobalState, ctx: Ctx, r: OciReference, name: string, env: Vars)
    requires Load(w, gl, g, ctx, FetchLazy(w, r, name, env)).Some?
    requires Plain(r.registry) && Plain(r.repository) && Plain(r.tag) && (r.dir.Some? ==> Plain(r.dir.value))
    ensures Load(w, gl, g, ctx, FetchLazy(w, r, name, env)).value.params.inputs ==
      map["registry" := Str(r.registry), "repository" := Str(r.repository),
          "tag" := Str(if r.tag == "" then "latest" else r.tag), "step_path" := Str(if r.dir.Some? then r.dir.value else "")]
    ensures var vars := ExpandVars(w.json, ViewOf(gl, g, ctx), env);
      && vars.Some?
      && Load(w, gl, g, ctx, FetchLazy(w, r, name, env)).value.params.env
         == EnvValues(gl.base, g.exports, Push(ctx.scopes, vars.value))
  {
    hide Plain, ViewOf, ExpandVars, EnvValues, Fetch, ExpandValues, Matches, Load, FetchName;
    LoadedSays(w, gl, g, ctx, FetchLazy(w, r, name, env));
    WordIsPlain("latest", 0);
    WordIsPlain("", 0);
    var inputs := FetchStep(r, name, env).inputs;
    assert forall k :: k in inputs ==> PlainValue(inputs[k]) by {
      assert Plain("latest") && Plain("") by {
        PlainIsNoMatch("latest");
        PlainIsNoMatch("");
      }
    }
    PlainArguments(w.json, ViewOf(gl, g, ctx), inputs);
  }

  lemma PlainIsNoMatch(s: string)
    ensures Plain(s) <==> Matches(s, 0) == []
  {
  }

  lemma PlainArguments(json: JsonOf, view: View, values: map<string, Value>)
    requires forall k :: k in values ==> PlainValue(values[k])
    ensures ExpandValues(json, view, values) == Some(values)
  {
    hide Expanded, PlainValue;
    forall k | k in values ensures Expanded(json, view, values[k]) == Some(values[k]) {
      PlainValuesExpandToThemselves(json, view, values[k]);
    }
    assert ExpandValues(json, view, values).value == values;
  }

  lemma {:induction false} WordIsPlain(s: string, i: nat)
    requires Word(s) && i <= |s|
    ensures Matches(s, i) == []
    decreases |s| - i
  {
    if i < |s| {
      assert s[i..][0] == s[i] && OPEN[0] == '$' && CLOSE[0] == '}';
      WordIsPlain(s, i + 1);
    }
  }

  // No compiled reference is refused when its step is parsed, and git, dist and local references
  // become resources with the compiled url, version, directory and file.
  lemma CompiledReferencesResolve(w: World, dir: string, sr: string)
    requires CompileShortRef(sr).Some?
    ensures var ref := CompileShortRef(sr).value;
      ParseReference(w, dir, ref) == Some(
        match ref.protocol
        case Git => GitRepo(ref.url, ref.version, w.join(ref.path), ref.filename)
        case Dist => Distributed(w.join(ref.path), ref.filename)
        case Dynamic => DynamicRef(sr)
        case _ => FileSystem(dir, w.join(ref.path), ref.filename))
  {
    hide ContainsExpression, PathOf, TrimSpace, Split, GoStrings.Join, Cut;
  }
}
