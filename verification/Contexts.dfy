// pkg/runner/global_context.go and steps_context.go: the mutable contexts, over shared environments.
// Each method is tied to the context values of the step semantics.
module Contexts {
  import opened Prelude
  import opened Values
  import opened Expressions
  import opened Interpolation
  import opened Proto
  import opened StepSemantics
  import EG = EnvironmentGraph
  import opened Environments

  // From env up its parents to root, with these variables on the way, all scopes among `locals`.
  ghost predicate Chain(env: Environment, root: Environment, scopes: seq<Vars>, locals: set<Environment>) {
    if scopes == [] then env == root
    else env in locals && env.vars == scopes[0] && env.parent != null && Chain(env.parent, root, scopes[1..], locals)
  }

  lemma {:induction false} ChainGrows(env: Environment, root: Environment, scopes: seq<Vars>, locals: set<Environment>, locals': set<Environment>)
    requires Chain(env, root, scopes, locals) && locals <= locals'
    ensures Chain(env, root, scopes, locals')
  {
    if scopes != [] {
      ChainGrows(env.parent, root, scopes[1..], locals, locals');
    }
  }

  // The values of an environment up a chain of scopes without mutations.
  lemma {:induction false} ChainFlat(G: set<Environment>, rank: map<Environment, nat>, env: Environment, root: Environment,
                                     scopes: seq<Vars>, locals: set<Environment>, base: Vars, exports: seq<Vars>)
    requires EG.Ranked(Snap(G), rank) && root in G && locals <= G && Chain(env, root, scopes, locals)
    requires forall e :: e in locals ==> e.mutations == []
    requires EG.Flat(Snap(G), rank, root) == Overlay(base, exports)
    ensures env in G && EG.Flat(Snap(G), rank, env) == EnvValues(base, exports, scopes)
  {
    if scopes != [] {
      var g := Snap(G);
      assert g[env] == EG.Node(scopes[0], Some(env.parent as Environment), []);
      ChainFlat(G, rank, env.parent, root, scopes[1..], locals, base, exports);
      assert EG.Flat(g, rank, env) == EG.FlatUpTo(g, rank, env, 0);
    }
  }

  // Exporting copies the exported variables over what the environment held.
  lemma MutatedFlat<N>(g: EG.Graph<N>, rank: map<N, nat>, rank': map<N, nat>, e: N, m: N)
    requires EG.Ranked(g, rank) && e in g && m in g && !EG.Reaches(g, rank, m, e) && EG.Ranked(EG.Mutated(g, e, m), rank')
    ensures EG.Flat(EG.Mutated(g, e, m), rank', e) == EG.Flat(g, rank, e) + EG.Flat(g, rank, m)
  {
    var g' := EG.Mutated(g, e, m);
    var after, before := EG.Flat(g', rank', e), EG.Flat(g, rank, e) + EG.Flat(g, rank, m);
    forall key ensures EG.At(after, key) == EG.At(before, key) {
      EG.FlatIsSearch(g', rank', e, key);
      EG.FlatIsSearch(g, rank, e, key);
      EG.FlatIsSearch(g, rank, m, key);
      EG.MutationVisibility(g, rank, rank', [e], m, key);
      hide EG.Search, EG.Flat;
    }
    SameLookups(after, before);
  }

  lemma SameLookups(a: Vars, b: Vars)
    requires forall key :: EG.At(a, key) == EG.At(b, key)
    ensures a == b
  {
    forall key ensures key in a <==> key in b
               ensures key in a ==> a[key] == b[key]
    {
      assert EG.At(a, key) == EG.At(b, key);
    }
  }

  lemma {:induction false} InChain(env: Environment, root: Environment, scopes: seq<Vars>, locals: set<Environment>)
    requires Chain(env, root, scopes, locals)
    ensures env == root || env in locals
  {
  }

  lemma {:induction false} FlatOfLarger<N>(g: EG.Graph<N>, rank: map<N, nat>, g': EG.Graph<N>, rank': map<N, nat>, n: N)
    requires EG.Ranked(g, rank) && EG.Ranked(g', rank') && n in g
    requires forall x :: x in g ==> x in g' && g'[x] == g[x]
    ensures EG.Flat(g', rank', n) == EG.Flat(g, rank, n)
    decreases rank[n], |g[n].mutations| + 1
  {
    FlatUpToOfLarger(g, rank, g', rank', n, |g[n].mutations|);
  }

  lemma {:induction false} FlatUpToOfLarger<N>(g: EG.Graph<N>, rank: map<N, nat>, g': EG.Graph<N>, rank': map<N, nat>, n: N, i: nat)
    requires EG.Ranked(g, rank) && EG.Ranked(g', rank') && n in g && i <= |g[n].mutations|
    requires forall x :: x in g ==> x in g' && g'[x] == g[x]
    ensures EG.FlatUpTo(g', rank', n, i) == EG.FlatUpTo(g, rank, n, i)
    decreases rank[n], i
  {
    if i == 0 {
      if g[n].parent.Some? {
        FlatOfLarger(g, rank, g', rank', g[n].parent.value);
      }
    } else {
      FlatUpToOfLarger(g, rank, g', rank', n, i - 1);
      FlatOfLarger(g, rank, g', rank', g[n].mutations[i - 1]);
    }
  }

  lemma AddedScope<N>(g: EG.Graph<N>, rank: map<N, nat>, e: N, parent: N, vars: Vars, root: N)
    requires EG.Ranked(g, rank) && e !in g && parent in g && root in g
    ensures parent in rank
    ensures var g', rank' := g[e := EG.Node(vars, Some(parent), [])], rank[e := rank[parent] + 1];
      EG.Ranked(g', rank') && EG.Flat(g', rank', root) == EG.Flat(g, rank, root)
  {
    var g', rank' := g[e := EG.Node(vars, Some(parent), [])], rank[e := rank[parent] + 1];
    assert EG.Ranked(g', rank');
    FlatOfLarger(g, rank, g', rank', root);
  }

  lemma AddedLeaf<N>(g: EG.Graph<N>, rank: map<N, nat>, e: N, vars: Vars, root: N)
    requires EG.Ranked(g, rank) && e !in g && root in g
    ensures var g', rank' := g[e := EG.Node(vars, None, [])], rank[e := 0];
      && EG.Ranked(g', rank') && EG.Flat(g', rank', root) == EG.Flat(g, rank, root) && EG.Flat(g', rank', e) == vars
  {
    var g', rank' := g[e := EG.Node(vars, None, [])], rank[e := 0];
    assert EG.Ranked(g', rank');
    FlatOfLarger(g, rank, g', rank', root);
    assert EG.Flat(g', rank', e) == EG.FlatUpTo(g', rank', e, 0);
    assert map[] + vars == vars;
  }

  lemma LeafReachesNothing<N>(g: EG.Graph<N>, rank: map<N, nat>, e: N, root: N)
    requires EG.Ranked(g, rank) && e in g && g[e].parent.None? && g[e].mutations == [] && e != root
    ensures !EG.Reaches(g, rank, e, root)
  {
  }

  // The environments of a run: free of cycles, step scopes without mutations, and the global one
  // holding its base values with the exports on top.
  ghost predicate Sound(graph: set<Environment>, rank: map<Environment, nat>, locals: set<Environment>, root: Environment,
                        base: Vars, exports: seq<Vars>)
    reads graph
  {
    && root in graph && locals <= graph && root !in locals
    && (forall e :: e in locals ==> e.mutations == [])
    && EG.Ranked(Snap(graph), rank)
    && EG.Flat(Snap(graph), rank, root) == Overlay(base, exports)
  }

  lemma SoundWithScope(graph: set<Environment>, rank: map<Environment, nat>, locals: set<Environment>, root: Environment,
                       base: Vars, exports: seq<Vars>, parent: Environment, scopes: seq<Vars>, e: Environment)
    requires Sound(graph, rank, locals, root, base, exports) && Chain(parent, root, scopes, locals)
    requires e !in graph && e.parent == parent && e.mutations == []
    ensures parent in rank && Sound(graph + {e}, rank[e := rank[parent] + 1], locals + {e}, root, base, exports)
    ensures Chain(e, root, [e.vars] + scopes, locals + {e})
  {
    hide EG.Flat, EG.Ranked, Overlay, Snap, Chain;
    InChain(parent, root, scopes, locals);
    ScopedChain(parent, root, scopes, locals, e);
    SnapWith(graph, e);
    SnapKeys(graph);
    AddedScope(Snap(graph), rank, e, parent, e.vars, root);
  }

  lemma ScopedChain(parent: Environment, root: Environment, scopes: seq<Vars>, locals: set<Environment>, e: Environment)
    requires Chain(parent, root, scopes, locals) && e.parent == parent
    ensures Chain(e, root, [e.vars] + scopes, locals + {e})
  {
    ChainGrows(parent, root, scopes, locals, locals + {e});
    assert ([e.vars] + scopes)[1..] == scopes;
  }

  lemma SnapWith(graph: set<Environment>, e: Environment)
    requires e !in graph
    ensures Snap(graph + {e}) == Snap(graph)[e := e.AsNode()]
  {
  }

  lemma SnapKeys(graph: set<Environment>)
    ensures Snap(graph).Keys == graph
  {
  }

  lemma SoundWithLeaf(graph: set<Environment>, rank: map<Environment, nat>, locals: set<Environment>, root: Environment,
                      base: Vars, exports: seq<Vars>, e: Environment)
    requires Sound(graph, rank, locals, root, base, exports)
    requires e !in graph && e.parent == null && e.mutations == []
    ensures var graph', rank' := graph + {e}, rank[e := 0];
      && Sound(graph', rank', locals, root, base, exports)
      && root in graph' && locals <= graph' && root !in locals && (forall x :: x in locals ==> x.mutations == [])
      && EG.Ranked(Snap(graph'), rank') && root in Snap(graph') && e in Snap(graph')
      && EG.Flat(Snap(graph'), rank', root) == Overlay(base, exports)
      && !EG.Reaches(Snap(graph'), rank', e, root) && EG.Flat(Snap(graph'), rank', e) == e.vars
  {
    hide EG.Flat, EG.Ranked, EG.Reaches, Overlay, Snap;
    SnapWith(graph, e);
    SnapKeys(graph);
    AddedLeaf(Snap(graph), rank, e, e.vars, root);
    LeafReachesNothing(Snap(graph + {e}), rank[e := 0], e, root);
  }

  // After the global environment took the exported variables, or left them if there were none.
  lemma SoundWithExport(g: EG.Graph<Environment>, before: map<Environment, nat>,
                        graph: set<Environment>, rank: map<Environment, nat>, locals: set<Environment>, root: Environment,
                        base: Vars, exports: seq<Vars>, e: Environment)
    requires EG.Ranked(g, before) && root in g && e in g && !EG.Reaches(g, before, e, root)
    requires EG.Flat(g, before, root) == Overlay(base, exports) && EG.Flat(g, before, e) == e.vars
    requires root in graph && locals <= graph && root !in locals && forall x :: x in locals ==> x.mutations == []
    requires EG.Ranked(Snap(graph), rank) && Snap(graph) == if e.vars == map[] then g else EG.Mutated(g, root, e)
    ensures Sound(graph, rank, locals, root, base, exports + if e.vars == map[] then [] else [e.vars])
  {
    if e.vars == map[] {
      EG.RankIrrelevant(g, before, rank, root);
      assert exports + [] == exports;
    } else {
      MutatedFlat(g, before, rank, root, e);
      hide EG.Flat;
      assert (exports + [e.vars])[..|exports|] == exports;
    }
  }

  class GlobalContext {
    const workDir: string
    const job: Vars
    const env: Environment
    var tick: nat  // how many of the world's answers have been used

    ghost const base: Vars                  // what env holds without this run's exports
    ghost var exports: seq<Vars>            // this run's exports, oldest first
    ghost var graph: set<Environment>       // all environments of the run
    ghost var rank: map<Environment, nat>   // they form no cycle
    ghost var locals: set<Environment>      // the lexical scopes of steps

    ghost predicate Valid()
      reads this, graph
    {
      Sound(graph, rank, locals, env, base, exports)
    }

    ghost function Constants(): Global {
      Global(workDir, job, base)
    }

    ghost function State(): GlobalState
      reads this
    {
      GlobalState(exports, tick)
    }

    constructor (workDir: string, job: Vars, env: Environment, ghost graph: set<Environment>, ghost rank: map<Environment, nat>)
      requires env in graph && EG.Ranked(Snap(graph), rank)
      ensures Valid() && this.env == env && this.graph == graph
      ensures Constants() == Global(workDir, job, EG.Flat(Snap(graph), rank, env)) && State() == GlobalState([], 0)
    {
      this.workDir := workDir;
      this.job := job;
      this.env := env;
      tick := 0;
      base := EG.Flat(Snap(graph), rank, env);
      exports := [];
      this.graph := graph;
      this.rank := rank;
      locals := {};
    }

    method Advance()
      requires Valid()
      modifies this`tick
      ensures Valid() && State() == Tick(old(State()))
    {
      tick := tick + 1;
    }

    // The environments scopes are pushed on stay what they are; there may be one more.
    method PushScope(parent: Environment, vars: Vars, ghost scopes: seq<Vars>) returns (e: Environment)
      requires Valid() && Chain(parent, env, scopes, locals)
      modifies this`graph, this`rank, this`locals
      ensures Valid() && State() == old(State()) && old(locals) <= locals
      ensures Chain(e, env, Push(scopes, vars), locals)
    {
      hide Sound, Chain;
      e := parent.AddLexicalScope(vars);
      if vars != map[] {
        SoundWithScope(graph, rank, locals, env, base, exports, parent, scopes, e);
        graph, rank, locals := graph + {e}, rank[e := rank[parent] + 1], locals + {e};
      }
    }

    method ValuesOf(e: Environment, ghost scopes: seq<Vars>) returns (values: Vars)
      requires Valid() && Chain(e, env, scopes, locals)
      ensures values == EnvValues(base, exports, scopes)
    {
      ChainFlat(graph, rank, e, env, scopes, locals, base, exports);
      hide Chain, EnvValues, EG.Search;
      values := e.Values(graph, rank);
    }

    // Exported variables go on top of the global environment.
    method AddGlobalEnv(exported: Environment)
      requires Valid() && exported !in graph && exported.parent == null && exported.mutations == []
      modifies this`graph, this`rank, this`exports, env`mutations
      ensures Valid() && old(locals) == locals && graph == old(graph) + {exported} && tick == old(tick)
      ensures exports == old(exports) + (if exported.vars == map[] then [] else [exported.vars])
    {
      hide EG.Flat, EG.Ranked, EG.Reaches, EG.Mutated, Overlay, Sound, Snap;
      ghost var graph', leafRank := graph + {exported}, rank[exported := 0];
      SoundWithLeaf(graph, rank, locals, env, base, exports, exported);
      ghost var g := Snap(graph');
      ghost var rank' := env.Mutate(exported, graph', leafRank);
      SoundWithExport(g, leafRank, graph', rank', locals, env, base, exports, exported);
      graph, rank := graph', rank';
      exports := exports + if exported.vars == map[] then [] else [exported.vars];
    }
  }

  class StepsContext {
    const globalCtx: GlobalContext
    const stepDir: string
    const outputFile: string
    const exportFile: string
    const inputs: map<string, Value>
    var env: Environment
    var steps: map<string, StepResult>
    ghost var scopes: seq<Vars>

    // The global environment is an ancestor, or the same, of the context's environment, and results
    // are recorded under their names.
    ghost predicate Valid()
      reads this, globalCtx, globalCtx.graph
    {
      globalCtx.Valid() && Chain(env, globalCtx.env, scopes, globalCtx.locals) && KeysAreNames(steps)
    }

    ghost function Contents(): Ctx
      reads this
    {
      Ctx(stepDir, inputs, scopes, steps, outputFile, exportFile)
    }

    constructor (globalCtx: GlobalContext, stepDir: string, inputs: map<string, Value>, env: Environment,
                 outputFile: string, exportFile: string, ghost scopes: seq<Vars>)
      requires globalCtx.Valid() && Chain(env, globalCtx.env, scopes, globalCtx.locals)
      ensures Valid() && this.globalCtx == globalCtx
      ensures Contents() == Ctx(stepDir, inputs, scopes, map[], outputFile, exportFile)
    {
      this.globalCtx := globalCtx;
      this.stepDir := stepDir;
      this.inputs := inputs;
      this.env := env;
      this.outputFile := outputFile;
      this.exportFile := exportFile;
      this.scopes := scopes;
      steps := map[];
    }

    lemma EnvIsFlat()
      requires Valid()
      ensures var g, rank := Snap(globalCtx.graph), globalCtx.rank;
        && env in globalCtx.graph && EG.Ranked(g, rank)
        && EG.Flat(g, rank, env) == Env(globalCtx.Constants(), globalCtx.State(), Contents())
    {
      ChainFlat(globalCtx.graph, globalCtx.rank, env, globalCtx.env, scopes, globalCtx.locals, globalCtx.base, globalCtx.exports);
    }

    method GetEnvs() returns (values: Vars)
      requires Valid()
      ensures values == Env(globalCtx.Constants(), globalCtx.State(), Contents())
    {
      EnvIsFlat();
      values := env.Values(globalCtx.graph, globalCtx.rank);
    }

    // The values of the environment with a scope on top, which is not kept.
    method EnvWithLexicalScope(vars: Vars) returns (values: Vars)
      requires Valid()
      modifies globalCtx`graph, globalCtx`rank, globalCtx`locals
      ensures Valid() && globalCtx.State() == old(globalCtx.State()) && old(globalCtx.locals) <= globalCtx.locals
      ensures values == EnvValues(globalCtx.base, globalCtx.exports, Push(scopes, vars))
    {
      hide Chain, Sound, EnvValues, Push;
      var e := globalCtx.PushScope(env, vars, scopes);
      ChainGrows(env, globalCtx.env, scopes, old(globalCtx.locals), globalCtx.locals);
      values := globalCtx.ValuesOf(e, Push(scopes, vars));
    }

    // The recorded results may be visited in any order.
    method View() returns (v: View)
      requires Valid()
      ensures v == ViewOf(globalCtx.Constants(), globalCtx.State(), Contents())
    {
      var stepResultViews: map<string, Outputs> := map[];
      var left := steps.Keys;
      while left != {}
        invariant left <= steps.Keys && stepResultViews.Keys == steps.Keys - left
        invariant forall name :: name in stepResultViews ==> stepResultViews[name] == steps[name].outputs
        decreases left
      {
        var name :| name in left;
        stepResultViews := stepResultViews[name := steps[name].outputs];
        left := left - {name};
      }
      var values := GetEnvs();
      v := Expressions.View.View(values, exportFile, inputs, globalCtx.job, outputFile, stepDir, stepResultViews, globalCtx.workDir);
    }

    // Every value is expanded in the view from before; the variables may be taken in any order.
    method ExpandEnv(json: JsonOf, vars: Vars) returns (r: Option<Vars>)
      requires Valid()
      ensures r == ExpandVars(json, ViewOf(globalCtx.Constants(), globalCtx.State(), Contents()), vars)
    {
      hide ExpandedString, ViewOf;
      ghost var view := ViewOf(globalCtx.Constants(), globalCtx.State(), Contents());
      var expandedEnv: Vars := map[];
      var left := vars.Keys;
      while left != {}
        invariant left <= vars.Keys && expandedEnv.Keys == vars.Keys - left
        invariant forall key :: key in expandedEnv ==> ExpandedString(json, view, vars[key]) == Some(expandedEnv[key])
        decreases left
      {
        var key :| key in left;
        var v := View();
        var expanded := ExpandString(json, v, vars[key]);
        if expanded.None? {
          assert key in vars && ExpandedString(json, view, vars[key]).None?;
          return None;
        }
        expandedEnv := expandedEnv[key := expanded.value];
        left := left - {key};
      }
      assert ExpandVars(json, view, vars).value == expandedEnv;
      r := Some(expandedEnv);
    }

    method ExpandAndApplyEnv(json: JsonOf, vars: Vars) returns (r: Environment?)
      requires Valid()
      modifies this`env, this`scopes, globalCtx`graph, globalCtx`rank, globalCtx`locals
      ensures Valid() && globalCtx.State() == old(globalCtx.State()) && old(globalCtx.locals) <= globalCtx.locals
      ensures var expanded := ExpandVars(json, old(ViewOf(globalCtx.Constants(), globalCtx.State(), Contents())), vars);
        && (expanded.None? ==> r == null && Contents() == old(Contents()))
        && (expanded.Some? ==> r == env && Contents() == old(Contents()).(scopes := Push(old(scopes), expanded.value)))
    {
      hide ExpandVars, ViewOf, Chain, Sound;
      var expandedEnv := ExpandEnv(json, vars);
      if expandedEnv.None? {
        return null;
      }
      env := globalCtx.PushScope(env, expandedEnv.value, scopes);
      scopes := Push(scopes, expandedEnv.value);
      r := env;
    }

    // Captures the result of a step even if it failed.
    method RecordResult(stepResult: Option<StepResult>)
      requires Valid()
      modifies this`steps
      ensures Valid() && Contents() == Record(old(Contents()), stepResult)
    {
      if stepResult.None? {
        return;
      }
      steps := steps[stepResult.value.step.name := stepResult.value];
    }

    // The recorded results, in no particular order.
    method StepResults() returns (results: seq<StepResult>)
      ensures forall r :: r in results <==> r in steps.Values
    {
      results := [];
      var left := steps.Keys;
      while left != {}
        invariant left <= steps.Keys
        invariant forall r :: r in results <==> exists k :: k in steps && k !in left && steps[k] == r
        decreases left
      {
        var k :| k in left;
        results := results + [steps[k]];
        left := left - {k};
      }
    }
  }
}
