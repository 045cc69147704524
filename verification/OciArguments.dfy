// What the arguments of an OCI step mean: schema/v1/reference.go puts them, unexpanded, into a
// definition of two steps, so they are expanded beside the fetch step instead of where they stand.
module OciArguments {
  import opened Prelude
  import opened GoStrings
  import opened Values
  import opened Expressions
  import opened Templates
  import opened Interpolation
  import opened InterpolationLaws
  import opened Proto
  import opened StepFiles
  import opened LongReferences
  import opened StepSemantics
  import RunLaws
  import opened OciMeaning

  // ---- What can be addressed ----

  // In the context of the second step, once the fetch has reported, a path has a value exactly if it
  // is one of the four scalars, a bound environment or job variable, or leads into the outputs of
  // the fetch: never an input or an earlier result of the caller.
  lemma OciArgumentsSeeOnlyTheFetch(w: World, gl: Global, g: GlobalState, g': GlobalState, ctx: Ctx, expanded: Vars,
                                    name: string, fetch: StepResult, path: string)
    requires OciContext(w, gl, g, ctx, expanded).Some? && fetch.step.name == FetchName(name)
    ensures var inner := Record(OciContext(w, gl, g, ctx, expanded).value, Some(fetch));
      var keys := Keys(path);
      Evaluation(ViewOf(gl, g', inner), path).Some? <==>
        || keys == ["export_file"] || keys == ["output_file"] || keys == ["step_dir"] || keys == ["work_dir"]
        || (|keys| == 2 && keys[0] == "env" && keys[1] in Env(gl, g', inner))
        || (|keys| == 2 && keys[0] == "job" && keys[1] in gl.job)
        || (|keys| >= 4 && keys[0] == "steps" && keys[1] == FetchName(name) && keys[2] == "outputs"
            && keys[3] in fetch.outputs && Member(fetch.outputs[keys[3]], keys[4..]).Some?)
  {
    var inner := Record(OciContext(w, gl, g, ctx, expanded).value, Some(fetch));
    assert inner.inputs == map[] && inner.steps == map[FetchName(name) := fetch];
    EvaluationFindsTheAddressed(ViewOf(gl, g', inner), path);
    hide Evaluation, Keys, EnvValues, FetchName, OciContext, Member;
  }

  // ---- Arguments that ask for more ----

  // The path leads to the caller's inputs or to a step other than the fetch.
  predicate Outside(name: string, keys: seq<string>)
    requires |keys| >= 1
  {
    keys[0] == "inputs" || (keys[0] == "steps" && (|keys| == 1 || keys[1] != FetchName(name)))
  }

  ghost predicate AsksOutside(name: string, s: string) {
    Template(s).Some? && exists node :: node in Template(s).value && node.Group? && Outside(name, Keys(Spell(Yield(node.inner))))
  }

  // A string at any depth of the value does.
  ghost predicate ValueAsksOutside(name: string, v: Value)
    decreases v
  {
    match v
    case Str(s) => AsksOutside(name, s)
    case Struct(fields) => exists k :: k in fields && ValueAsksOutside(name, fields[k])
    case List(items) => exists i :: 0 <= i < |items| && ValueAsksOutside(name, items[i])
    case _ => false
  }

  ghost predicate StepAsksOutside(name: string, inputs: map<string, Value>, env: Vars) {
    || (exists k :: k in inputs && ValueAsksOutside(name, inputs[k]))
    || (exists k :: k in env && AsksOutside(name, env[k]))
  }

  ghost predicate Inside(name: string, view: View) {
    view.inputs == map[] && view.steps.Keys <= {FetchName(name)}
  }

  lemma AskingFails(json: JsonOf, view: View, name: string, s: string)
    requires Inside(name, view) && AsksOutside(name, s)
    ensures Interpolated(json, view, s) == None
  {
    hide Evaluation, Spell, Yield, Keys, Template, FetchName, Rendered;
    var nodes := Template(s).value;
    var node :| node in nodes && node.Group? && Outside(name, Keys(Spell(Yield(node.inner))));
    EvaluationFindsTheAddressed(view, Spell(Yield(node.inner)));
    assert NodeValue(view, node) == None;
    var i :| 0 <= i < |nodes| && nodes[i] == node;
    assert NodeValue(view, nodes[i]).None?;
  }

  lemma {:induction false} ValueAskingFails(json: JsonOf, view: View, name: string, v: Value)
    requires Inside(name, view) && ValueAsksOutside(name, v)
    ensures Expanded(json, view, v) == None
    decreases v
  {
    hide Inside, AsksOutside, Interpolated;
    match v
    case Str(s) => AskingFails(json, view, name, s);
    case Struct(fields) =>
      var k :| k in fields && ValueAsksOutside(name, fields[k]);
      ValueAskingFails(json, view, name, fields[k]);
    case List(items) =>
      var i :| 0 <= i < |items| && ValueAsksOutside(name, items[i]);
      ValueAskingFails(json, view, name, items[i]);
    case _ =>
  }

  lemma LoadFails(w: World, gl: Global, g: GlobalState, ctx: Ctx, lazy: LazyStep, name: string)
    requires ctx.inputs == map[] && ctx.steps.Keys <= {FetchName(name)}
    requires StepAsksOutside(name, lazy.step.inputs, lazy.step.env)
    ensures Load(w, gl, g, ctx, lazy) == None
  {
    hide Load, Expanded, ExpandedString, EnvValues, AsksOutside, ValueAsksOutside, FetchName, Fetch;
    var view := ViewOf(gl, g, ctx);
    assert Inside(name, view);
    if k :| k in lazy.step.inputs && ValueAsksOutside(name, lazy.step.inputs[k]) {
      ValueAskingFails(w.json, view, name, lazy.step.inputs[k]);
      assert ExpandValues(w.json, view, lazy.step.inputs) == None;
    } else {
      var k :| k in lazy.step.env && AsksOutside(name, lazy.step.env[k]);
      StringAskingFails(w.json, view, name, lazy.step.env[k]);
      assert ExpandVars(w.json, view, lazy.step.env) == None;
    }
    if Load(w, gl, g, ctx, lazy).Some? {
      RunLaws.LoadedSays(w, gl, g, ctx, lazy);
      assert false;
    }
  }

  lemma StringAskingFails(json: JsonOf, view: View, name: string, s: string)
    requires Inside(name, view) && AsksOutside(name, s)
    ensures ExpandedString(json, view, s) == None
  {
    AskingFails(json, view, name, s);
    hide *;
  }

  lemma RunFails(fuel: nat, w: World, gl: Global, g: GlobalState, ctx: Ctx, lazy: LazyStep)
    requires Load(w, gl, g, ctx, lazy) == None && RunLazy(fuel, w, gl, g, ctx, lazy).Some?
    ensures RunLazy(fuel, w, gl, g, ctx, lazy).value.failed
  {
    hide Load, RunLazy;
    RanHasFuel(fuel, w, gl, g, ctx, lazy);
    RunLaws.UnfoldLazy(fuel, w, gl, g, ctx, lazy);
  }

  // An OCI step whose inputs or environment ask for an input or an earlier result of the caller
  // fails, whatever these are worth there: the inputs are expanded in the second step only, and the
  // environment once where it stands and then again, unexpanded as it was, in both nested steps.
  lemma OciAskingOutsideFails(fuel: nat, w: World, gl: Global, g: GlobalState, ctx: Ctx,
                              r: OciReference, name: string, inputs: map<string, Value>, env: Vars, o: Outcome)
    requires RunLazy(fuel, w, gl, g, ctx, OciLazy(w, r, name, inputs, env)) == Some(o)
    requires StepAsksOutside(name, inputs, env)
    ensures o.failed
  {
    hide RunLazy, ViewOf, ExpandVars, OciContext, OciParsed, OciLazy, StepAsksOutside, FetchName, EnvValues, FetchThenRun;
    RanHasFuel(fuel, w, gl, g, ctx, OciLazy(w, r, name, inputs, env));
    OciRunsFetchThenStep(fuel, w, gl, g, ctx, r, name, inputs, env);
    var expanded := ExpandVars(w.json, ViewOf(gl, g, ctx), env);
    if expanded.Some? {
      var nested := OciContext(w, gl, g, ctx, expanded.value);
      if nested.Some? {
        FreshContext(w, gl, g, ctx, expanded.value);
        FetchedFails(fuel - 1, w, gl, Tick(Tick(Tick(g))), nested.value,
                     OciParsed(w, gl, g, ctx, r, name, inputs, env, expanded.value), r, name, inputs, env, o);
      }
    }
  }

  lemma FreshContext(w: World, gl: Global, g: GlobalState, ctx: Ctx, expanded: Vars)
    requires OciContext(w, gl, g, ctx, expanded).Some?
    ensures var nested := OciContext(w, gl, g, ctx, expanded).value; nested.inputs == map[] && nested.steps == map[]
  {
    hide EnvValues, Push;
  }

  lemma FetchedFails(fuel: nat, w: World, gl: Global, g: GlobalState, nested: Ctx, p: Parsed,
                     r: OciReference, name: string, inputs: map<string, Value>, env: Vars, o: Outcome)
    requires nested.inputs == map[] && nested.steps == map[] && StepAsksOutside(name, inputs, env)
    requires FetchThenRun(fuel, w, gl, g, nested, p, FetchLazy(w, r, name, env), FetchedLazy(w, r, name, inputs, env)) == Some(o)
    ensures o.failed
  {
    hide RunLazy, Load, ViewOf, EnvValues, BuildResult, FetchName, FetchedPath, StepAsksOutside;
    var a, b := FetchLazy(w, r, name, env), FetchedLazy(w, r, name, inputs, env);
    var o1 := RunLazy(fuel, w, gl, g, nested, a).value;
    if !o1.failed {
      RunLaws.LazySpine(fuel, w, gl, g, nested, a);
      ResultNamed(fuel, w, gl, g, nested, a);
      var inner := Record(nested, o1.result);
      assert inner.inputs == map[] && inner.steps.Keys == {FetchName(name)};
      LoadFails(w, gl, o1.g, inner, b, name);
      if RunLazy(fuel, w, gl, o1.g, inner, b).Some? {
        RunFails(fuel, w, gl, o1.g, inner, b);
      }
    }
  }

  // ---- A run ----

  // A world in which every image can be fetched and every command succeeds.
  function Working(): World {
    World((v: Value) => Some(""), (n: real) => "", (parts: seq<string>) => "",
          (tick: nat, path: string) => Some(SpecDefinition(
            Spec(map["x" := Input(StringType, None)], map[], OutputsMethod),
            Definition(ExecDefinition, ["run"], "", [], map[], map[], ""))),
          (tick: nat, resource: Resource, view: View) => Some(FetchSpec()),
          (tick: nat, args: seq<string>, dir: string, env: Vars) => ExecOutcome(true, 0, [], None, []),
          (tick: nat) => Some("/tmp/file"),
          (tick: nat) => true)
  }

  function FetchSpec(): LoadedSpec {
    var input := Input(StringType, None);
    LoadedSpec(
      Spec(map["registry" := input, "repository" := input, "tag" := input, "step_path" := input],
           map["fetched_step_path" := Output(StringType, Some(Str("/image")))], OutputsMethod),
      Definition(ExecDefinition, ["fetch"], "", [], map[], map[], ""), "/fetch")
  }

  function ImageReference(): OciReference {
    OciReference("registry", "image", "", None, None)
  }

  // A successful command without words to expand, that leaves both its files empty.
  lemma PlainCommandSucceeds(w: World, gl: Global, g: GlobalState, ctx: Ctx, p: Parsed)
    requires p.ExecStep? && w.log(g.tick) && p.loaded.definition.env == map[] && p.loaded.definition.workDir == ""
    requires forall i :: 0 <= i < |p.loaded.definition.command| ==> Plain(p.loaded.definition.command[i])
    requires forall t, args, dir, env :: w.exec(t, args, dir, env) == ExecOutcome(true, 0, [], None, [])
    requires OutputValues(map[], p.loaded.spec.outputs).Some? && !p.loaded.spec.outputMethod.DelegateMethod?
    ensures var ran := RunExec(w, gl, g, ctx, p); !ran.failed && ran.result.Some? && ran.result.value.status.Success?
  {
    hide ExpandedString, ViewOf, EnvValues, OutputValues, Plain;
    var g1 := Tick(g);
    assert ExpandVars(w.json, ViewOf(gl, g1, ctx), map[]).value == map[];
    var ctx1 := ctx.(scopes := Push(ctx.scopes, map[]));
    var command := p.loaded.definition.command;
    var view := ViewOf(gl, g1, ctx1);
    forall i | 0 <= i < |command| ensures ExpandedString(w.json, view, command[i]) == Some(command[i]) {
      PlainStringsExpandToThemselves(w.json, view, command[i]);
    }
    assert ExpandAll(w.json, view, command).Some?;
    EmptyFile(w.number);
  }

  lemma EmptyFile(number: real -> string)
    ensures Scanned([]) == [] && KeyValues([]) == Some(map[]) && ExportedEnv(number, []) == Some(map[])
  {
    assert KeyValues([]).value == map[];
    assert ExportedEnv(number, []).value == map[];
  }

  lemma FetchLoads(gl: Global, g: GlobalState, ctx: Ctx, name: string)
    ensures var p := Load(Working(), gl, g, ctx, FetchLazy(Working(), ImageReference(), name, map[]));
      p.Some? && p.value.ExecStep? && p.value.loaded == FetchSpec()
  {
    hide ViewOf, EnvValues, Expanded, FetchName, Matches;
    var w := Working();
    var view := ViewOf(gl, g, ctx);
    WordIsPlain("registry", 0);
    WordIsPlain("image", 0);
    WordIsPlain("latest", 0);
    WordIsPlain("", 0);
    var inputs := FetchStep(ImageReference(), name, map[]).inputs;
    assert forall k :: k in inputs ==> PlainValue(inputs[k]);
    PlainArguments(w.json, view, inputs);
    assert ExpandVars(w.json, view, map[]).value == map[];
    hide ExpandValues, ExpandVars;
  }

  // With everything working, the fetch comes through.
  lemma FetchComesThrough(gl: Global, g: GlobalState, ctx: Ctx, name: string)
    ensures var o := RunLazy(1, Working(), gl, g, ctx, FetchLazy(Working(), ImageReference(), name, map[]));
      o.Some? && !o.value.failed && o.value.result.Some? && o.value.result.value.status.Success?
  {
    hide Load, RunLazy, RunParsed, RunExec, FetchLazy, EnvValues, ImageReference;
    var w, lazy := Working(), FetchLazy(Working(), ImageReference(), name, map[]);
    FetchLoads(gl, g, ctx, name);
    RunLaws.UnfoldLazy(1, w, gl, g, ctx, lazy);
    var p := Load(w, gl, g, ctx, lazy).value;
    var inputs := InputsWithDefault(p.params, p.loaded.spec.inputs);
    var nested := NewContext(w, g.tick + 1, p.loaded.dir, inputs, Push(ctx.scopes, p.params.env)).value;
    WordIsPlain("fetch", 0);
    PlainIsNoMatch("fetch");
    PlainCommandSucceeds(w, gl, Tick(Tick(Tick(g))), nested, p);
    CommandsRunUnbounded(w, gl, Tick(Tick(Tick(g))), nested, p);
  }

  lemma CommandsRunUnbounded(w: World, gl: Global, g: GlobalState, ctx: Ctx, p: Parsed)
    requires p.ExecStep?
    ensures RunParsed(0, w, gl, g, ctx, p) == Some(RunExec(w, gl, g, ctx, p))
  {
    hide RunExec;
  }

  const ASKING := "${{inputs.x}}"

  lemma AskingIsAHole()
    ensures Template(ASKING) == Some([Group([Run("inputs.x")])]) && Spell(Yield([Run("inputs.x")])) == "inputs.x"
    ensures Keys("inputs.x") == ["inputs", "x"]
    ensures AsksOutside("build", ASKING)
  {
    hide Lex, Template, Keys, Spell, Yield;
    var path := "inputs.x";
    assert OPEN + path + CLOSE == ASKING;
    LexHole(path);
    SimpleHole(path);
    KeysOfAsking();
    var node := Group([Run(path)]);
    assert node in Template(ASKING).value && node.Group? && Outside("build", Keys(Spell(Yield(node.inner))));
  }

  lemma KeysOfAsking()
    ensures Keys("inputs.x") == ["inputs", "x"]
  {
    hide Split, TrimSpace, IsSpace;
    SmallLetterIsNoSpace('i');
    SmallLetterIsNoSpace('x');
    TrimTight("inputs.x");
    assert "inputs.x" == "inputs" + ['.'] + "x";
    SplitAt("inputs", '.', "x");
    SplitPlain("inputs", '.');
    SplitPlain("x", '.');
  }

  // An argument that has a value where it stands: the caller has an input x, and x of the image's step
  // is to be that. Everything can be fetched and every command succeeds. The image is fetched, and the
  // step fails because its own argument cannot be expanded beside the fetch.
  lemma CallersInputIsOutOfReach()
    ensures var w, gl, g := Working(), Global("/", map[], map[]), GlobalState([], 0);
      var ctx := Ctx("/", map["x" := Str("v")], [], map[], "/out", "/exports");
      var inputs := map["x" := Str(ASKING)];
      var o := RunLazy(2, w, gl, g, ctx, OciLazy(w, ImageReference(), "build", inputs, map[]));
      && ExpandValues(w.json, ViewOf(gl, g, ctx), inputs) == Some(map["x" := Str("v")])
      && o.Some? && o.value.failed && o.value.result.Some?
      && |o.value.result.value.subStepResults| == 1 && o.value.result.value.subStepResults[0].status.Success?
  {
    hide RunLazy, FetchThenRun, OciContext, OciParsed, OciLazy, EnvValues, ExpandVars, ViewOf, AsksOutside, ImageReference;
    var w, gl, g := Working(), Global("/", map[], map[]), GlobalState([], 0);
    var ctx := Ctx("/", map["x" := Str("v")], [], map[], "/out", "/exports");
    var inputs := map["x" := Str(ASKING)];
    AskingHasAValue(w.json, gl, g, ctx);
    AskingIsAHole();
    assert inputs["x"] == Str(ASKING) && ValueAsksOutside("build", inputs["x"]);
    assert StepAsksOutside("build", inputs, map[]);
    OciRunsFetchThenStep(2, w, gl, g, ctx, ImageReference(), "build", inputs, map[]);
    NothingToExpand(w.json, ViewOf(gl, g, ctx));
    ContextOpens(gl, g, ctx);
    var nested := OciContext(w, gl, g, ctx, map[]).value;
    var p := OciParsed(w, gl, g, ctx, ImageReference(), "build", inputs, map[], map[]);
    FreshContext(w, gl, g, ctx, map[]);
    FetchedFinishes(gl, Tick(Tick(Tick(g))), nested, p, inputs);
    OciAskingOutsideFails(2, w, gl, g, ctx, ImageReference(), "build", inputs, map[],
                          FetchThenRun(1, w, gl, Tick(Tick(Tick(g))), nested, p, FetchLazy(w, ImageReference(), "build", map[]),
                                       FetchedLazy(w, ImageReference(), "build", inputs, map[])).value);
  }

  lemma NothingToExpand(json: JsonOf, view: View)
    ensures ExpandVars(json, view, map[]) == Some(map[])
  {
    assert ExpandVars(json, view, map[]).value == map[];
  }

  lemma ContextOpens(gl: Global, g: GlobalState, ctx: Ctx)
    ensures OciContext(Working(), gl, g, ctx, map[]).Some?
  {
    hide EnvValues, Push;
  }

  lemma AskingHasAValue(json: JsonOf, gl: Global, g: GlobalState, ctx: Ctx)
    requires ctx.inputs == map["x" := Str("v")]
    ensures ExpandValues(json, ViewOf(gl, g, ctx), map["x" := Str(ASKING)]) == Some(map["x" := Str("v")])
  {
    hide Interpolated, EnvValues, ExpandValues, Evaluation;
    var view := ViewOf(gl, g, ctx);
    AskingIsEvaluated(json, view);
    AskingDenotes(view);
    assert Expanded(json, view, Str(ASKING)) == Some(Str("v"));
    OneValue(json, view, "x", Str(ASKING), Str("v"));
  }

  lemma OneValue(json: JsonOf, view: View, key: string, v: Value, u: Value)
    requires Expanded(json, view, v) == Some(u)
    ensures ExpandValues(json, view, map[key := v]) == Some(map[key := u])
  {
    hide Expanded;
    assert ExpandValues(json, view, map[key := v]).value == map[key := u];
  }

  lemma AskingIsEvaluated(json: JsonOf, view: View)
    ensures Interpolated(json, view, ASKING) == Evaluation(view, "inputs.x")
  {
    hide *;
    AskingIsAHole();
    LoneHoleKeepsType(json, view, ASKING, [Run("inputs.x")]);
  }

  lemma AskingDenotes(view: View)
    requires "x" in view.inputs
    ensures Evaluation(view, "inputs.x") == Some(view.inputs["x"])
  {
    hide Evaluation, Keys;
    KeysOfAsking();
    EvaluationFindsTheAddressed(view, "inputs.x");
    assert ["inputs", "x"][2..] == [];
  }

  lemma FetchedFinishes(gl: Global, g: GlobalState, nested: Ctx, p: Parsed, inputs: map<string, Value>)
    requires nested.inputs == map[] && nested.steps == map[] && StepAsksOutside("build", inputs, map[])
    ensures var w := Working();
      var o := FetchThenRun(1, w, gl, g, nested, p, FetchLazy(w, ImageReference(), "build", map[]),
                            FetchedLazy(w, ImageReference(), "build", inputs, map[]));
      && o.Some? && o.value.result.Some?
      && |o.value.result.value.subStepResults| == 1 && o.value.result.value.subStepResults[0].status.Success?
  {
    hide RunLazy, Load, ViewOf, EnvValues, FetchName, FetchedPath, StepAsksOutside, ImageReference, Working;
    var w := Working();
    var a, b := FetchLazy(w, ImageReference(), "build", map[]), FetchedLazy(w, ImageReference(), "build", inputs, map[]);
    FetchComesThrough(gl, g, nested, "build");
    var o1 := RunLazy(1, w, gl, g, nested, a).value;
    ResultNamed(1, w, gl, g, nested, a);
    var inner := Record(nested, o1.result);
    assert inner.inputs == map[] && inner.steps.Keys == {FetchName("build")};
    LoadFails(w, gl, o1.g, inner, b, "build");
    RunLaws.UnfoldLazy(1, w, gl, o1.g, inner, b);
  }
}
