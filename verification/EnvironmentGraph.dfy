// The environment graph of pkg/runner/environment.go as a value: scopes with a parent and an
// append-only list of mutations. Flattening by copies is proved to be a lookup, and the effect of
// one mutation on every node is stated.
module EnvironmentGraph {
  import opened Prelude

  type Vars = map<string, string>

  datatype Node<N> = Node(vars: Vars, parent: Option<N>, mutations: seq<N>)

  type Graph<!N(==)> = map<N, Node<N>>

  // A rank that falls along every edge: the graph is closed and has no cycle.
  ghost predicate Ranked<N>(g: Graph<N>, rank: map<N, nat>) {
    && g.Keys <= rank.Keys
    && (forall n :: n in g && g[n].parent.Some? ==> g[n].parent.value in g && rank[g[n].parent.value] < rank[n])
    && (forall n, i :: n in g && 0 <= i < |g[n].mutations| ==>
          g[n].mutations[i] in g && rank[g[n].mutations[i]] < rank[n])
  }

  function At(vars: Vars, key: string): Option<string> {
    if key in vars then Some(vars[key]) else None
  }

  // ---- The copying form ----

  // Parent's values, then own variables, then the first i mutations, each copied over the last.
  ghost function FlatUpTo<N>(g: Graph<N>, rank: map<N, nat>, n: N, i: nat): Vars
    requires Ranked(g, rank) && n in g && i <= |g[n].mutations|
    decreases rank[n], i
  {
    if i == 0 then (if g[n].parent.Some? then Flat(g, rank, g[n].parent.value) else map[]) + g[n].vars
    else FlatUpTo(g, rank, n, i - 1) + Flat(g, rank, g[n].mutations[i - 1])
  }

  ghost function Flat<N>(g: Graph<N>, rank: map<N, nat>, n: N): Vars
    requires Ranked(g, rank) && n in g
    decreases rank[n], |g[n].mutations| + 1
  {
    FlatUpTo(g, rank, n, |g[n].mutations|)
  }

  // ---- The searching form ----

  // What a scope binds itself: the newest of its first i mutations that binds the key, else its variables.
  ghost function Own<N>(g: Graph<N>, rank: map<N, nat>, n: N, i: nat, key: string): Option<string>
    requires Ranked(g, rank) && n in g && i <= |g[n].mutations|
    decreases rank[n], i
  {
    if i == 0 then At(g[n].vars, key)
    else
      var newest := Search(g, rank, g[n].mutations[i - 1], key);
      if newest.Some? then newest else Own(g, rank, n, i - 1, key)
  }

  ghost function Bound<N>(g: Graph<N>, rank: map<N, nat>, n: N, key: string): Option<string>
    requires Ranked(g, rank) && n in g
    decreases rank[n], |g[n].mutations| + 1
  {
    Own(g, rank, n, |g[n].mutations|, key)
  }

  // Newest mutation, else own variables, else the parent.
  ghost function Search<N>(g: Graph<N>, rank: map<N, nat>, n: N, key: string): Option<string>
    requires Ranked(g, rank) && n in g
    decreases rank[n], |g[n].mutations| + 2
  {
    var own := Bound(g, rank, n, key);
    if own.Some? || g[n].parent.None? then own else Search(g, rank, g[n].parent.value, key)
  }

  // The copy loops look a key up.
  lemma {:induction false} FlatIsSearch<N>(g: Graph<N>, rank: map<N, nat>, n: N, key: string)
    requires Ranked(g, rank) && n in g
    ensures At(Flat(g, rank, n), key) == Search(g, rank, n, key)
    decreases rank[n], |g[n].mutations| + 1
  {
    FlatUpToIsSearch(g, rank, n, |g[n].mutations|, key);
  }

  lemma {:induction false} FlatUpToIsSearch<N>(g: Graph<N>, rank: map<N, nat>, n: N, i: nat, key: string)
    requires Ranked(g, rank) && n in g && i <= |g[n].mutations|
    ensures At(FlatUpTo(g, rank, n, i), key) ==
      var own := Own(g, rank, n, i, key);
      if own.Some? || g[n].parent.None? then own else Search(g, rank, g[n].parent.value, key)
    decreases rank[n], i
  {
    if i == 0 {
      if g[n].parent.Some? {
        FlatIsSearch(g, rank, g[n].parent.value, key);
      }
    } else {
      FlatUpToIsSearch(g, rank, n, i - 1, key);
      FlatIsSearch(g, rank, g[n].mutations[i - 1], key);
    }
  }

  // ---- Reachability ----

  ghost predicate Reaches<N>(g: Graph<N>, rank: map<N, nat>, n: N, target: N)
    requires Ranked(g, rank) && n in g
    decreases rank[n]
  {
    || n == target
    || (g[n].parent.Some? && Reaches(g, rank, g[n].parent.value, target))
    || exists i :: 0 <= i < |g[n].mutations| && Reaches(g, rank, g[n].mutations[i], target)
  }

  // The flattened keys are those of everything reachable.
  lemma {:induction false} DomainIsReachable<N>(g: Graph<N>, rank: map<N, nat>, n: N, key: string)
    requires Ranked(g, rank) && n in g
    ensures Search(g, rank, n, key).Some? <==>
      exists x :: x in g && Reaches(g, rank, n, x) && key in g[x].vars
    decreases rank[n], |g[n].mutations| + 2
  {
    OwnDomain(g, rank, n, |g[n].mutations|, key);
    if g[n].parent.Some? {
      DomainIsReachable(g, rank, g[n].parent.value, key);
    }
    forall i | 0 <= i < |g[n].mutations|
      ensures Search(g, rank, g[n].mutations[i], key).Some? <==>
        exists x :: x in g && Reaches(g, rank, g[n].mutations[i], x) && key in g[x].vars
    {
      DomainIsReachable(g, rank, g[n].mutations[i], key);
    }
    if Bound(g, rank, n, key).Some? && key !in g[n].vars {
      var i :| 0 <= i < |g[n].mutations| && Search(g, rank, g[n].mutations[i], key).Some?;
      var x :| x in g && Reaches(g, rank, g[n].mutations[i], x) && key in g[x].vars;
      assert Reaches(g, rank, n, x);
    } else if Bound(g, rank, n, key).Some? {
      assert Reaches(g, rank, n, n);
    } else if Search(g, rank, n, key).Some? {
      var x :| x in g && Reaches(g, rank, g[n].parent.value, x) && key in g[x].vars;
      assert Reaches(g, rank, n, x);
    }
  }

  lemma {:induction false} OwnDomain<N>(g: Graph<N>, rank: map<N, nat>, n: N, i: nat, key: string)
    requires Ranked(g, rank) && n in g && i <= |g[n].mutations|
    ensures Own(g, rank, n, i, key).Some? <==>
      key in g[n].vars || exists j :: 0 <= j < i && Search(g, rank, g[n].mutations[j], key).Some?
    decreases i
  {
    if i > 0 {
      OwnDomain(g, rank, n, i - 1, key);
    }
  }

  // Any ranking of a graph that keeps these edges falls from a node to whatever it reaches.
  lemma {:induction false} ReachingFalls<N>(g: Graph<N>, rank: map<N, nat>, g': Graph<N>, rank': map<N, nat>, n: N, target: N)
    requires Ranked(g, rank) && Ranked(g', rank') && n in g && Reaches(g, rank, n, target)
    requires forall x :: x in g ==> x in g' && g[x].parent == g'[x].parent && g[x].mutations <= g'[x].mutations
    ensures target in g && rank'[target] <= rank'[n]
    decreases rank[n]
  {
    if n != target {
      if g[n].parent.Some? && Reaches(g, rank, g[n].parent.value, target) {
        ReachingFalls(g, rank, g', rank', g[n].parent.value, target);
      } else {
        var i :| 0 <= i < |g[n].mutations| && Reaches(g, rank, g[n].mutations[i], target);
        ReachingFalls(g, rank, g', rank', g[n].mutations[i], target);
        assert g'[n].mutations[i] == g[n].mutations[i];
      }
    }
  }

  // ---- Mutation ----

  function Mutated<N>(g: Graph<N>, e: N, m: N): Graph<N>
    requires e in g
  {
    g[e := g[e].(mutations := g[e].mutations + [m])]
  }

  ghost predicate Acyclic<N(!new)>(g: Graph<N>) {
    exists rank :: Ranked(g, rank)
  }

  // Ranks after a mutation: everything that reaches e is lifted above m.
  ghost function Lifted<N>(g: Graph<N>, rank: map<N, nat>, e: N, m: N): map<N, nat>
    requires Ranked(g, rank) && e in g && m in g
  {
    map x | x in g :: if Reaches(g, rank, x, e) then rank[x] + rank[m] + 1 else rank[x]
  }

  lemma LiftedRanks<N>(g: Graph<N>, rank: map<N, nat>, e: N, m: N)
    requires Ranked(g, rank) && e in g && m in g && !Reaches(g, rank, m, e)
    ensures Ranked(Mutated(g, e, m), Lifted(g, rank, e, m))
  {
    var g', rank' := Mutated(g, e, m), Lifted(g, rank, e, m);
    forall n, i | n in g' && 0 <= i < |g'[n].mutations|
      ensures g'[n].mutations[i] in g' && rank'[g'[n].mutations[i]] < rank'[n]
    {
      if n == e && i == |g[e].mutations| {
        assert g'[n].mutations[i] == m && Reaches(g, rank, e, e);
      } else {
        assert g'[n].mutations[i] == g[n].mutations[i];
      }
    }
  }

  // A mutation keeps the graph free of cycles exactly when the mutating environment does not reach
  // the mutated one.
  lemma MutationKeepsAcyclicIff<N(!new)>(g: Graph<N>, rank: map<N, nat>, e: N, m: N)
    requires Ranked(g, rank) && e in g && m in g
    ensures Acyclic(Mutated(g, e, m)) <==> !Reaches(g, rank, m, e)
  {
    var g' := Mutated(g, e, m);
    if !Reaches(g, rank, m, e) {
      LiftedRanks(g, rank, e, m);
    } else {
      assert g'[e].mutations[|g[e].mutations|] == m;
      forall rank' ensures !Ranked(g', rank') {
        if Ranked(g', rank') {
          ReachingFalls(g, rank, g', rank', m, e);
          assert false;
        }
      }
    }
  }

  // A node that does not reach the mutated one sees no difference.
  lemma {:induction false} UnreachedUnchanged<N>(g: Graph<N>, rank: map<N, nat>, rank': map<N, nat>, e: N, m: N, n: N, key: string)
    requires Ranked(g, rank) && e in g && m in g && Ranked(Mutated(g, e, m), rank')
    requires n in g && !Reaches(g, rank, n, e)
    ensures Search(Mutated(g, e, m), rank', n, key) == Search(g, rank, n, key)
    decreases rank[n], |g[n].mutations| + 1
  {
    UnreachedOwn(g, rank, rank', e, m, n, |g[n].mutations|, key);
    if g[n].parent.Some? {
      UnreachedUnchanged(g, rank, rank', e, m, g[n].parent.value, key);
    }
  }

  lemma {:induction false} UnreachedOwn<N>(g: Graph<N>, rank: map<N, nat>, rank': map<N, nat>, e: N, m: N, n: N, i: nat, key: string)
    requires Ranked(g, rank) && e in g && m in g && Ranked(Mutated(g, e, m), rank')
    requires n in g && n != e && i <= |g[n].mutations|
    requires forall j :: 0 <= j < i ==> !Reaches(g, rank, g[n].mutations[j], e)
    ensures Own(Mutated(g, e, m), rank', n, i, key) == Own(g, rank, n, i, key)
    decreases rank[n], i
  {
    if i > 0 {
      UnreachedUnchanged(g, rank, rank', e, m, g[n].mutations[i - 1], key);
      UnreachedOwn(g, rank, rank', e, m, n, i - 1, key);
    }
  }

  // A key the mutation does not bind keeps its value everywhere.
  lemma {:induction false} UnboundUnchanged<N>(g: Graph<N>, rank: map<N, nat>, rank': map<N, nat>, e: N, m: N, n: N, key: string)
    requires Ranked(g, rank) && e in g && m in g && Ranked(Mutated(g, e, m), rank') && !Reaches(g, rank, m, e)
    requires n in g && Search(g, rank, m, key) == None
    ensures Search(Mutated(g, e, m), rank', n, key) == Search(g, rank, n, key)
    decreases rank[n], |g[n].mutations| + 1
  {
    var g' := Mutated(g, e, m);
    UnboundOwn(g, rank, rank', e, m, n, |g[n].mutations|, key);
    if n == e {
      UnreachedUnchanged(g, rank, rank', e, m, m, key);
      assert g'[e].mutations[|g[e].mutations|] == m;
      assert Bound(g', rank', e, key) == Own(g', rank', e, |g[e].mutations|, key);
    }
    if g[n].parent.Some? {
      UnboundUnchanged(g, rank, rank', e, m, g[n].parent.value, key);
    }
  }

  lemma {:induction false} UnboundOwn<N>(g: Graph<N>, rank: map<N, nat>, rank': map<N, nat>, e: N, m: N, n: N, i: nat, key: string)
    requires Ranked(g, rank) && e in g && m in g && Ranked(Mutated(g, e, m), rank') && !Reaches(g, rank, m, e)
    requires n in g && i <= |g[n].mutations| && Search(g, rank, m, key) == None
    ensures Own(Mutated(g, e, m), rank', n, i, key) == Own(g, rank, n, i, key)
    decreases rank[n], i
  {
    if i > 0 {
      UnboundUnchanged(g, rank, rank', e, m, g[n].mutations[i - 1], key);
      UnboundOwn(g, rank, rank', e, m, n, i - 1, key);
    }
  }

  // The scopes from the first node up through parents to the last.
  ghost predicate ParentPath<N>(g: Graph<N>, path: seq<N>) {
    && path != []
    && (forall i :: 0 <= i < |path| ==> path[i] in g)
    && forall i :: 0 <= i < |path| - 1 ==> g[path[i]].parent == Some(path[i + 1])
  }

  // Scopes strictly below the end of the path that bind the key.
  ghost predicate Shadowed<N>(g: Graph<N>, rank: map<N, nat>, path: seq<N>, key: string)
    requires Ranked(g, rank) && ParentPath(g, path)
  {
    exists i :: 0 <= i < |path| - 1 && Bound(g, rank, path[i], key).Some?
  }

  lemma {:induction false} SearchAlong<N>(g: Graph<N>, rank: map<N, nat>, path: seq<N>, key: string)
    requires Ranked(g, rank) && ParentPath(g, path) && !Shadowed(g, rank, path, key)
    ensures Search(g, rank, path[0], key) == Search(g, rank, path[|path| - 1], key)
    decreases |path|
  {
    if |path| > 1 {
      var rest := path[1..];
      assert forall i :: 0 <= i < |rest| ==> rest[i] == path[i + 1];
      SearchAlong(g, rank, rest, key);
      assert Bound(g, rank, path[0], key).None?;
    }
  }

  lemma {:induction false} SearchShadowed<N>(g: Graph<N>, rank: map<N, nat>, path: seq<N>, i: nat, key: string)
    requires Ranked(g, rank) && ParentPath(g, path) && i < |path| && Bound(g, rank, path[i], key).Some?
    requires forall j :: 0 <= j < i ==> Bound(g, rank, path[j], key).None?
    ensures Search(g, rank, path[0], key) == Bound(g, rank, path[i], key)
    decreases i
  {
    if i > 0 {
      var rest := path[1..];
      assert forall j :: 0 <= j < |rest| ==> rest[j] == path[j + 1];
      SearchShadowed(g, rank, rest, i - 1, key);
    }
  }

  lemma {:induction false} FirstBinder<N>(g: Graph<N>, rank: map<N, nat>, path: seq<N>, key: string) returns (i: nat)
    requires Ranked(g, rank) && ParentPath(g, path) && Shadowed(g, rank, path, key)
    ensures i < |path| - 1 && Bound(g, rank, path[i], key).Some?
    ensures forall j :: 0 <= j < i ==> Bound(g, rank, path[j], key).None?
  {
    i := 0;
    while Bound(g, rank, path[i], key).None?
      invariant i < |path| - 1
      invariant forall j :: 0 <= j < i ==> Bound(g, rank, path[j], key).None?
      decreases |path| - i
    {
      if i == |path| - 2 {
        assert false;
      }
      i := i + 1;
    }
  }

  // The mutations hanging off the scopes below the end of the path do not lead back to it, as is
  // so for fresh leaves.
  ghost predicate Apart<N>(g: Graph<N>, rank: map<N, nat>, path: seq<N>)
    requires Ranked(g, rank) && ParentPath(g, path)
  {
    forall i, j :: 0 <= i < |path| - 1 && 0 <= j < |g[path[i]].mutations| ==>
      !Reaches(g, rank, g[path[i]].mutations[j], path[|path| - 1])
  }

  // The mutation visibility law. A node that reaches e through parents takes m's value for a key m
  // binds exactly when no scope strictly below e on the way binds that key; if one does, the first
  // such scope decides. With apart scopes that is the value from before the mutation, and so is the
  // value of every key m does not bind.
  lemma MutationVisibility<N>(g: Graph<N>, rank: map<N, nat>, rank': map<N, nat>, path: seq<N>, m: N, key: string)
    requires Ranked(g, rank) && ParentPath(g, path) && m in g && !Reaches(g, rank, m, path[|path| - 1])
    requires Ranked(Mutated(g, path[|path| - 1], m), rank')
    ensures ParentPath(Mutated(g, path[|path| - 1], m), path)
    ensures var g', n := Mutated(g, path[|path| - 1], m), path[0];
      if Shadowed(g', rank', path, key) then
        exists i :: 0 <= i < |path| - 1 && Bound(g', rank', path[i], key).Some?
          && Search(g', rank', n, key) == Bound(g', rank', path[i], key)
          && forall j :: 0 <= j < i ==> Bound(g', rank', path[j], key).None?
      else
        Search(g', rank', n, key) ==
          if Search(g, rank, m, key).Some? then Search(g, rank, m, key) else Search(g, rank, n, key)
    ensures Apart(g, rank, path) ==>
      && (Shadowed(Mutated(g, path[|path| - 1], m), rank', path, key) <==> Shadowed(g, rank, path, key))
      && (Shadowed(g, rank, path, key) ==>
            Search(Mutated(g, path[|path| - 1], m), rank', path[0], key) == Search(g, rank, path[0], key))
  {
    var e := path[|path| - 1];
    var g' := Mutated(g, e, m);
    PathRanks(g, rank, path);
    assert ParentPath(g', path);
    if Shadowed(g', rank', path, key) {
      var i := FirstBinder(g', rank', path, key);
      SearchShadowed(g', rank', path, i, key);
    } else if Search(g, rank, m, key).Some? {
      SearchAlong(g', rank', path, key);
      UnreachedUnchanged(g, rank, rank', e, m, m, key);
      assert g'[e].mutations[|g'[e].mutations| - 1] == m;
      assert Bound(g', rank', e, key) == Search(g', rank', m, key);
    } else {
      UnboundUnchanged(g, rank, rank', e, m, path[0], key);
    }
    if Apart(g, rank, path) {
      ApartScopesKeepBindings(g, rank, rank', path, m, key);
      if Shadowed(g, rank, path, key) {
        var i := FirstBinder(g, rank, path, key);
        SearchShadowed(g, rank, path, i, key);
        SearchShadowed(g', rank', path, i, key);
      }
    }
  }

  lemma ApartScopesKeepBindings<N>(g: Graph<N>, rank: map<N, nat>, rank': map<N, nat>, path: seq<N>, m: N, key: string)
    requires Ranked(g, rank) && ParentPath(g, path) && m in g && Apart(g, rank, path)
    requires Ranked(Mutated(g, path[|path| - 1], m), rank')
    ensures forall i :: 0 <= i < |path| - 1 ==>
      Bound(Mutated(g, path[|path| - 1], m), rank', path[i], key) == Bound(g, rank, path[i], key)
  {
    PathRanks(g, rank, path);
    forall i | 0 <= i < |path| - 1
      ensures Bound(Mutated(g, path[|path| - 1], m), rank', path[i], key) == Bound(g, rank, path[i], key)
    {
      UnreachedOwn(g, rank, rank', path[|path| - 1], m, path[i], |g[path[i]].mutations|, key);
    }
  }

  lemma {:induction false} PathRanks<N>(g: Graph<N>, rank: map<N, nat>, path: seq<N>)
    requires Ranked(g, rank) && ParentPath(g, path)
    ensures forall i :: 0 <= i < |path| - 1 ==> rank[path[i]] > rank[path[|path| - 1]] && path[i] != path[|path| - 1]
    decreases |path|
  {
    if |path| > 1 {
      var rest := path[1..];
      assert forall i :: 0 <= i < |rest| ==> rest[i] == path[i + 1];
      PathRanks(g, rank, rest);
      forall i | 0 <= i < |path| - 1
        ensures rank[path[i]] > rank[path[|path| - 1]]
      {
        if i > 0 {
          assert path[i] == rest[i - 1];
        } else {
          assert rank[path[0]] > rank[rest[0]];
        }
      }
    }
  }

  // Which ranking witnesses acyclicity does not matter.
  lemma {:induction false} RankIrrelevant<N>(g: Graph<N>, rank: map<N, nat>, rank': map<N, nat>, n: N)
    requires Ranked(g, rank) && Ranked(g, rank') && n in g
    ensures Flat(g, rank, n) == Flat(g, rank', n)
    decreases rank[n], |g[n].mutations| + 1
  {
    RankIrrelevantUpTo(g, rank, rank', n, |g[n].mutations|);
  }

  lemma {:induction false} RankIrrelevantUpTo<N>(g: Graph<N>, rank: map<N, nat>, rank': map<N, nat>, n: N, i: nat)
    requires Ranked(g, rank) && Ranked(g, rank') && n in g && i <= |g[n].mutations|
    ensures FlatUpTo(g, rank, n, i) == FlatUpTo(g, rank', n, i)
    decreases rank[n], i
  {
    if i == 0 {
      if g[n].parent.Some? {
        RankIrrelevant(g, rank, rank', g[n].parent.value);
      }
    } else {
      RankIrrelevantUpTo(g, rank, rank', n, i - 1);
      RankIrrelevant(g, rank, rank', g[n].mutations[i - 1]);
    }
  }
}
