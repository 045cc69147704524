// pkg/runner/lazily_loaded_step.go (loading), step_parser.go, runner.go and the file system resource:
// how a step is fetched, given its arguments and parsed. Every method computes what the semantics says.
module Loading {
  import opened Prelude
  import opened GoStrings
  import opened Values
  import opened Expressions
  import opened Interpolation
  import opened Proto
  import opened StepSemantics
  import opened Contexts

  // pkg/context/variable.go: first an expression, later its result.
  class Variable {
    var value: Value

    constructor (value: Value)
      ensures this.value == value
    {
      this.value := value;
    }

    method Assign(value: Value)
      modifies this
      ensures this.value == value
    {
      this.value := value;
    }
  }

  ghost predicate Distinct(inputs: map<string, Variable>) {
    forall a, b :: a in inputs && b in inputs && a != b ==> inputs[a] != inputs[b]
  }

  function Formatted(inputs: map<string, Variable>): map<string, Value>
    reads inputs.Values
  {
    map k | k in inputs :: inputs[k].value
  }

  method FetchResource(w: World, resource: Resource, ctx: StepsContext) returns (r: Option<LoadedSpec>)
    requires ctx.Valid()
    ensures r == Fetch(w, ctx.globalCtx.tick, resource, ViewOf(ctx.globalCtx.Constants(), ctx.globalCtx.State(), ctx.Contents()))
  {
    hide ExpandedString, ViewOf, Sound, Chain;
    var view := ctx.View();
    match resource
    case Fixed(loaded) => r := Some(loaded);
    case FileSystem(workDir, stepPath, filename) =>
      var path := ExpandString(w.json, view, stepPath);
      if path.None? {
        return None;
      }
      var dir := if HasPrefix(path.value, "/") then path.value else w.join([workDir, path.value]);
      var d := w.load(ctx.globalCtx.tick, w.join([dir, filename]));
      r := if d.None? then None else Some(LoadedSpec(d.value.spec, d.value.definition, dir));
    case _ => r := w.fetch(ctx.globalCtx.tick, resource, view);
  }

  // Arguments must be declared. They may be visited in any order.
  method BuildInputVars(args: map<string, Value>, specInputs: map<string, Input>)
    returns (ok: bool, inputs: map<string, Variable>)
    ensures ok <==> forall name :: name in args ==> name in specInputs
    ensures fresh(inputs.Values) && Distinct(inputs)
    ensures ok ==> Formatted(inputs) == args
  {
    inputs := map[];
    var left := args.Keys;
    while left != {}
      invariant left <= args.Keys && inputs.Keys == args.Keys - left
      invariant fresh(inputs.Values) && Distinct(inputs)
      invariant forall name :: name in inputs ==> name in specInputs && inputs[name].value == args[name]
      decreases left
    {
      var name :| name in left;
      if name !in specInputs {
        return false, inputs;
      }
      var input := new Variable(args[name]);
      assert inputs[name := input].Values <= inputs.Values + {input};
      inputs := inputs[name := input];
      left := left - {name};
    }
    ok := true;
  }

  // Each variable is assigned its expansion in the caller's view, in any order.
  method ExpandInputs(w: World, ctx: StepsContext, inputs: map<string, Variable>) returns (ok: bool)
    requires ctx.Valid() && Distinct(inputs)
    modifies inputs.Values
    ensures var view := ViewOf(ctx.globalCtx.Constants(), ctx.globalCtx.State(), ctx.Contents());
      var expanded := ExpandValues(w.json, view, old(Formatted(inputs)));
      ok == expanded.Some? && (ok ==> Formatted(inputs) == expanded.value)
  {
    hide Expanded, ViewOf, Sound, Chain;
    ghost var view := ViewOf(ctx.globalCtx.Constants(), ctx.globalCtx.State(), ctx.Contents());
    ghost var args := Formatted(inputs);
    var left := inputs.Keys;
    while left != {}
      invariant left <= inputs.Keys
      invariant forall name :: name in left ==> inputs[name].value == args[name]
      invariant forall name :: name in inputs && name !in left ==>
        Expanded(w.json, view, args[name]) == Some(inputs[name].value)
      decreases left
    {
      var name :| name in left;
      var v := ctx.View();
      var res := Expand(w.json, v, inputs[name].value);
      if res.None? {
        assert name in args && Expanded(w.json, view, args[name]).None?;
        return false;
      }
      inputs[name].Assign(res.value);
      left := left - {name};
    }
    assert forall name :: name in args ==> Expanded(w.json, view, args[name]).Some?;
    assert Formatted(inputs) == ExpandValues(w.json, view, args).value;
    ok := true;
  }

  method ValidateInputs(specInputs: map<string, Input>, inputs: map<string, Value>) returns (ok: bool)
    ensures ok == ValidInputs(specInputs, inputs)
  {
    var left := specInputs.Keys;
    while left != {}
      invariant left <= specInputs.Keys
      invariant forall key :: key in specInputs && key !in left ==> key in inputs || specInputs[key].default.Some?
      decreases left
    {
      var key :| key in left;
      if key !in inputs && specInputs[key].default.None? {
        return false;
      }
      left := left - {key};
    }
    ok := true;
  }

  method ParseStepType(w: World, loaded: LoadedSpec, params: Params, name: string, reference: Reference)
    returns (r: Option<Parsed>)
    ensures r == ParseType(w, loaded, params, name, reference)
  {
    hide ParseReference;
    if loaded.definition.typ.ExecDefinition? {
      return Some(ExecStep(name, reference, params, loaded));
    }
    if loaded.definition.typ.StepsDefinition? {
      var references, steps: seq<LazyStep> := loaded.definition.steps, [];
      for i := 0 to |references|
        invariant |steps| == i
        invariant forall k :: 0 <= k < i ==>
          steps[k].step == references[k] && ParseReference(w, loaded.dir, references[k].reference) == Some(steps[k].resource)
      {
        var resource := ParseReference(w, loaded.dir, references[i].reference);
        if resource.None? {
          return None;
        }
        steps := steps + [LazyStep(references[i], resource.value)];
      }
      assert ParseSteps(w, loaded.dir, references).value == steps;
      return Some(SequenceStep(name, reference, params, loaded, steps));
    }
    r := None;
  }

  method ParseStep(w: World, loaded: LoadedSpec, params: Params, name: string, reference: Reference)
    returns (r: Option<Parsed>)
    ensures r == Parse(w, loaded, params, name, reference)
  {
    var valid := ValidateInputs(loaded.spec.inputs, params.inputs);
    if !valid {
      return None;
    }
    r := ParseStepType(w, loaded, params, name, reference);
  }

  // The argument or else the default; a nil value is the same as no entry.
  method NewInputsWithDefault(params: Params, specInputs: map<string, Input>) returns (newInputs: map<string, Value>)
    ensures newInputs == InputsWithDefault(params, specInputs)
  {
    newInputs := map[];
    var left := specInputs.Keys;
    while left != {}
      invariant left <= specInputs.Keys
      invariant forall key :: key in newInputs <==>
        key in specInputs && key !in left && (key in params.inputs || specInputs[key].default.Some?)
      invariant forall key :: key in newInputs ==>
        newInputs[key] == if key in params.inputs then params.inputs[key] else specInputs[key].default.value
      decreases left
    {
      var key :| key in left;
      if key in params.inputs {
        newInputs := newInputs[key := params.inputs[key]];
      } else if specInputs[key].default.Some? {
        newInputs := newInputs[key := specInputs[key].default.value];
      }
      left := left - {key};
    }
    assert newInputs == InputsWithDefault(params, specInputs);
  }

  // Fetch, expand the arguments and the environment in the caller's view, take the snapshot, parse.
  method LoadStep(w: World, lazy: LazyStep, ctx: StepsContext) returns (p: Option<Parsed>)
    requires ctx.Valid()
    modifies ctx.globalCtx`graph, ctx.globalCtx`rank, ctx.globalCtx`locals
    ensures ctx.Valid() && ctx.globalCtx.State() == old(ctx.globalCtx.State()) && old(ctx.globalCtx.locals) <= ctx.globalCtx.locals
    ensures p == Load(w, ctx.globalCtx.Constants(), old(ctx.globalCtx.State()), old(ctx.Contents()), lazy)
  {
    hide Fetch, ViewOf, ExpandValues, ExpandVars, Parse, EnvValues, Push, Sound, Chain, Formatted;
    var loaded := FetchResource(w, lazy.resource, ctx);
    if loaded.None? {
      return None;
    }
    var declared, inputs := BuildInputVars(lazy.step.inputs, loaded.value.spec.inputs);
    if !declared {
      return None;
    }
    var expanded := ExpandInputs(w, ctx, inputs);
    if !expanded {
      return None;
    }
    var values := Formatted(inputs);
    var env := ctx.ExpandEnv(w.json, lazy.step.env);
    if env.None? {
      return None;
    }
    var snapshot := ctx.EnvWithLexicalScope(env.value);
    p := ParseStep(w, loaded.value, Params(values, snapshot), lazy.step.name, lazy.step.reference);
  }
}
