// pkg/runner/environment.go: the shared, mutable environment objects.
module Environments {
  import opened Prelude
  import opened EnvironmentGraph

  // The graph the objects of G form on the heap.
  ghost function Snap(G: set<Environment>): Graph<Environment>
    reads G
  {
    map e | e in G :: e.AsNode()
  }

  class Environment {
    const vars: Vars
    const parent: Environment?
    var mutations: seq<Environment>

    ghost function AsNode(): Node<Environment>
      reads this
    {
      Node(vars, if parent == null then None else Some(parent as Environment), mutations)
    }

    constructor (vars: Vars)
      ensures this.vars == vars && parent == null && mutations == []
    {
      this.vars := vars;
      parent := null;
      mutations := [];
    }

    constructor Scope(vars: Vars, parent: Environment)
      ensures this.vars == vars && this.parent == parent && mutations == []
    {
      this.vars := vars;
      this.parent := parent;
      mutations := [];
    }

    // A scope without variables is not added.
    method AddLexicalScope(vars: Vars) returns (e: Environment)
      ensures vars == map[] ==> e == this
      ensures vars != map[] ==> fresh(e) && e.vars == vars && e.parent == this && e.mutations == []
    {
      if |vars| == 0 {
        return this;
      }
      e := new Environment.Scope(vars, this);
    }

    // Flattening by copies is, key by key, the search newest mutation, own variables, parent.
    method Values(ghost G: set<Environment>, ghost rank: map<Environment, nat>) returns (values: Vars)
      requires this in G && Ranked(Snap(G), rank)
      ensures values == Flat(Snap(G), rank, this)
      ensures forall key :: At(values, key) == Search(Snap(G), rank, this, key)
      decreases rank[this]
    {
      hide Search, Own, Bound;
      ghost var g := Snap(G);
      values := map[];
      if parent != null {
        assert g[this].parent == Some(parent as Environment);
        var inherited := parent.Values(G, rank);
        values := values + inherited;
      }
      values := values + vars;
      for i := 0 to |mutations|
        invariant values == FlatUpTo(g, rank, this, i)
      {
        assert g[this].mutations[i] == mutations[i];
        var mutation := mutations[i].Values(G, rank);
        values := values + mutation;
      }
      forall key ensures At(values, key) == Search(g, rank, this, key) {
        FlatIsSearch(g, rank, this, key);
      }
    }

    method Len(ghost G: set<Environment>, ghost rank: map<Environment, nat>) returns (n: nat)
      requires this in G && Ranked(Snap(G), rank)
      ensures n == |Flat(Snap(G), rank, this)|
    {
      var values := Values(G, rank);
      n := |values|;
    }

    // Appends, unless there is nothing to add; the graph stays free of cycles.
    method Mutate(env: Environment?, ghost G: set<Environment>, ghost rank: map<Environment, nat>)
      returns (ghost rank': map<Environment, nat>)
      requires this in G && Ranked(Snap(G), rank)
      requires env != null ==> env in G && !Reaches(Snap(G), rank, env, this)
      modifies this`mutations
      ensures var nothing := env == null || old(Flat(Snap(G), rank, env)) == map[];
        && mutations == old(mutations) + (if nothing then [] else [env])
        && Snap(G) == (if nothing then old(Snap(G)) else Mutated(old(Snap(G)), this, env))
      ensures Ranked(Snap(G), rank')
    {
      hide Flat, FlatUpTo, Reaches, Lifted;
      rank' := rank;
      if env == null {
        return;
      }
      var len := env.Len(G, rank);
      if len == 0 {
        return;
      }
      ghost var g := Snap(G);
      mutations := mutations + [env];
      assert Snap(G) == Mutated(g, this, env);
      LiftedRanks(g, rank, this, env);
      rank' := Lifted(g, rank, this, env);
    }
  }
}
