/**
  The layering inside `validateWorkflow` (packages/runtime-core/src/workflow-graph.ts): counters per
  node, a ready list per layer, and what the layers mean in terms of dependency chains.
 */
module Layering {
  import opened Wrappers
  import opened Text
  import opened Counting
  import opened Protocol

  /** The dependencies of each node; entries may repeat. */
  type Graph = map<NodeId, seq<NodeId>>

  // ----- reference definitions

  ghost predicate Closed(g: Graph)
  {
    forall n, d :: n in g && d in g[n] ==> d in g
  }

  /** A list of nodes in which each is a dependency of the next. */
  ghost predicate Chain(g: Graph, p: seq<NodeId>)
  {
    p != [] && (forall i :: 0 <= i < |p| ==> p[i] in g) && forall i :: 0 < i < |p| ==> p[i - 1] in g[p[i]]
  }

  ghost predicate IsCycle(g: Graph, p: seq<NodeId>)
  {
    Chain(g, p) && |p| >= 2 && p[0] == p[|p| - 1]
  }

  ghost predicate Acyclic(g: Graph)
  {
    forall p :: !IsCycle(g, p)
  }

  ghost predicate ChainTo(g: Graph, p: seq<NodeId>, n: NodeId)
  {
    Chain(g, p) && p[|p| - 1] == n
  }

  /** `n` ends a dependency chain of `k` steps, and no longer one. */
  ghost predicate LongestChain(g: Graph, n: NodeId, k: nat)
  {
    (exists p :: ChainTo(g, p, n) && |p| == k + 1) && forall p :: ChainTo(g, p, n) ==> |p| <= k + 1
  }

  /** `a` comes before `b` through one or more dependency steps. */
  ghost predicate Precedes(g: Graph, a: NodeId, b: NodeId)
  {
    exists p :: ChainTo(g, p, b) && |p| >= 2 && p[0] == a
  }

  // ----- levels: the invariant of the layering

  ghost predicate Levelled(g: Graph, level: map<NodeId, nat>)
  {
    level.Keys <= g.Keys && DependenciesLower(g, level) && ParentsJustBelow(g, level)
  }

  ghost predicate DependenciesLower(g: Graph, level: map<NodeId, nat>)
    requires level.Keys <= g.Keys
  {
    forall n, d :: n in level && d in g[n] ==> d in level && level[d] < level[n]
  }

  ghost predicate ParentsJustBelow(g: Graph, level: map<NodeId, nat>)
    requires level.Keys <= g.Keys
  {
    forall n :: n in level && level[n] > 0 ==> HasParentAt(g, level, n, level[n] - 1)
  }

  ghost predicate HasParentAt(g: Graph, level: map<NodeId, nat>, n: NodeId, k: int)
    requires n in g
  {
    exists d :: d in g[n] && d in level && level[d] == k
  }

  lemma StepRises(g: Graph, level: map<NodeId, nat>, p: seq<NodeId>, i: nat)
    requires Levelled(g, level) && Chain(g, p) && i + 1 < |p| && p[i + 1] in level
    ensures p[i] in level && level[p[i]] < level[p[i + 1]]
  {
    assert p[(i + 1) - 1] in g[p[i + 1]];
  }

  lemma {:induction false} ChainRises(g: Graph, level: map<NodeId, nat>, p: seq<NodeId>, i: nat, j: nat)
    requires Levelled(g, level) && Chain(g, p) && p[|p| - 1] in level && i <= j < |p|
    ensures p[i] in level && p[j] in level && level[p[i]] + (j - i) <= level[p[j]]
    decreases |p| - i
  {
    if i + 1 < |p| {
      ChainRises(g, level, p, i + 1, if i < j then j else |p| - 1);
      StepRises(g, level, p, i);
    }
  }

  lemma {:induction false} ChainOfLevel(g: Graph, level: map<NodeId, nat>, n: NodeId) returns (p: seq<NodeId>)
    requires Levelled(g, level) && n in level
    ensures ChainTo(g, p, n) && |p| == level[n] + 1
    decreases level[n]
  {
    if level[n] == 0 {
      p := [n];
    } else {
      assert HasParentAt(g, level, n, level[n] - 1);
      var d :| d in g[n] && d in level && level[d] == level[n] - 1;
      var q := ChainOfLevel(g, level, d);
      AppendChain(g, q, n);
      p := q + [n];
    }
  }

  lemma AppendChain(g: Graph, q: seq<NodeId>, n: NodeId)
    requires Chain(g, q) && n in g && q[|q| - 1] in g[n]
    ensures Chain(g, q + [n])
  {
    var p := q + [n];
    forall i | 0 < i < |p| ensures p[i - 1] in g[p[i]] {
      if i < |q| { assert p[i] == q[i] && p[i - 1] == q[i - 1]; }
    }
  }

  lemma LevelIsLongestChain(g: Graph, level: map<NodeId, nat>, n: NodeId)
    requires Levelled(g, level) && n in level
    ensures LongestChain(g, n, level[n])
  {
    var p := ChainOfLevel(g, level, n);
    forall q | ChainTo(g, q, n) ensures |q| <= level[n] + 1 {
      ChainRises(g, level, q, 0, |q| - 1);
    }
  }

  lemma LevelledIsAcyclic(g: Graph, level: map<NodeId, nat>)
    requires Levelled(g, level) && level.Keys == g.Keys
    ensures Acyclic(g)
  {
    forall p ensures !IsCycle(g, p) {
      if IsCycle(g, p) {
        ChainRises(g, level, p, 0, |p| - 1);
      }
    }
  }

  ghost predicate WaitsInside(g: Graph, n: NodeId, stuck: set<NodeId>)
    requires n in g
  {
    exists d :: d in g[n] && d in stuck
  }

  lemma ExtendChain(g: Graph, d: NodeId, q: seq<NodeId>)
    requires Chain(g, q) && d in g && d in g[q[0]]
    ensures Chain(g, [d] + q)
  {
    var p := [d] + q;
    forall i | 0 < i < |p| ensures p[i - 1] in g[p[i]] {
      assert p[i] == q[i - 1];
      if i > 1 { assert p[i - 1] == q[(i - 1) - 1]; }
    }
  }

  lemma SubChain(g: Graph, p: seq<NodeId>, i: nat, j: nat)
    requires Chain(g, p) && i < j < |p|
    ensures Chain(g, p[i..j + 1])
  {
    var c := p[i..j + 1];
    forall k | 0 < k < |c| ensures c[k - 1] in g[c[k]] {
      assert p[(i + k) - 1] in g[p[i + k]];
    }
  }

  /** Nodes that each wait for another one of them: walking back can go on for any number of steps. */
  lemma {:induction false} ChainInside(g: Graph, stuck: set<NodeId>, k: nat) returns (p: seq<NodeId>)
    requires stuck != {} && stuck <= g.Keys
    requires forall n :: n in stuck ==> WaitsInside(g, n, stuck)
    ensures Chain(g, p) && |p| == k + 1 && forall x :: x in p ==> x in stuck
  {
    if k == 0 {
      var n :| n in stuck;
      p := [n];
    } else {
      var q := ChainInside(g, stuck, k - 1);
      assert q[0] in q && WaitsInside(g, q[0], stuck);
      var d :| d in g[q[0]] && d in stuck;
      ExtendChain(g, d, q);
      p := [d] + q;
    }
  }

  lemma StuckMeansCycle(g: Graph, stuck: set<NodeId>)
    requires stuck != {} && stuck <= g.Keys
    requires forall n :: n in stuck ==> WaitsInside(g, n, stuck)
    ensures !Acyclic(g)
  {
    var p := ChainInside(g, stuck, |stuck|);
    Pigeonhole(p, stuck);
    var i, j :| 0 <= i < j < |p| && p[i] == p[j];
    SubChain(g, p, i, j);
    assert IsCycle(g, p[i..j + 1]);
  }

  // ----- Kahn layering

  function Children(dependents: map<NodeId, seq<NodeId>>, id: NodeId): seq<NodeId>
  {
    if id in dependents then dependents[id] else []
  }

  /** Who waits for whom, with repeats: `m` stands under `d` as often as `d` stands in `m.dependsOn`. */
  ghost predicate Mirrors(g: Graph, dependents: map<NodeId, seq<NodeId>>)
  {
    (forall d, m :: m in g ==> Count(dependents, d, m) == Occurrences(g[m], d))
    && forall d, m :: m in Children(dependents, d) ==> m in g
  }

  ghost predicate OnlyNodes(g: Graph, dependents: map<NodeId, seq<NodeId>>)
  {
    forall d, m :: m in Children(dependents, d) ==> m in g
  }

  ghost function Count(dependents: map<NodeId, seq<NodeId>>, d: NodeId, m: NodeId): nat
  {
    Occurrences(Children(dependents, d), m)
  }

  /** `after` is `before` with `id` added under each entry of `taken`. */
  ghost predicate AddedUnder(before: map<NodeId, seq<NodeId>>, after: map<NodeId, seq<NodeId>>, id: NodeId, taken: seq<NodeId>)
  {
    forall d, m :: Count(after, d, m) == Count(before, d, m) + (if m == id then Occurrences(taken, d) else 0)
  }

  lemma PushCount(dependents: map<NodeId, seq<NodeId>>, id: NodeId, dependency: NodeId, d: NodeId, m: NodeId)
    ensures Count(dependents[dependency := Children(dependents, dependency) + [id]], d, m)
         == Count(dependents, d, m) + (if d == dependency && m == id then 1 else 0)
  {
    OccurrencesAppend(Children(dependents, dependency), id, m);
  }

  lemma PushUnder(before: map<NodeId, seq<NodeId>>, after: map<NodeId, seq<NodeId>>, id: NodeId, taken: seq<NodeId>, dependency: NodeId)
    requires AddedUnder(before, after, id, taken)
    ensures AddedUnder(before, after[dependency := Children(after, dependency) + [id]], id, taken + [dependency])
  {
    var pushed := after[dependency := Children(after, dependency) + [id]];
    forall d, m ensures Count(pushed, d, m) == Count(before, d, m) + (if m == id then Occurrences(taken + [dependency], d) else 0) {
      PushCount(after, id, dependency, d, m);
      OccurrencesAppend(taken, dependency, d);
      assert Count(after, d, m) == Count(before, d, m) + (if m == id then Occurrences(taken, d) else 0);
    }
  }

  lemma PushNode(g: Graph, dependents: map<NodeId, seq<NodeId>>, id: NodeId, dependency: NodeId)
    requires OnlyNodes(g, dependents) && id in g
    ensures OnlyNodes(g, dependents[dependency := Children(dependents, dependency) + [id]])
  {
    var after := dependents[dependency := Children(dependents, dependency) + [id]];
    forall d, m | m in Children(after, d) ensures m in g {
      assert m in Children(dependents, d) || m == id;
    }
  }

  /** Enters one node under each of its dependencies, once for every entry. */
  method EnterNode(g: Graph, before: map<NodeId, seq<NodeId>>, id: NodeId) returns (dependents: map<NodeId, seq<NodeId>>)
    requires id in g && OnlyNodes(g, before)
    ensures OnlyNodes(g, dependents) && AddedUnder(before, dependents, id, g[id])
  {
    dependents := before;
    assert g[id][..0] == [] && forall d :: Occurrences(g[id][..0], d) == 0;
    for b := 0 to |g[id]|
      invariant OnlyNodes(g, dependents) && AddedUnder(before, dependents, id, g[id][..b])
    {
      var dependency := g[id][b];
      PushUnder(before, dependents, id, g[id][..b], dependency);
      PushNode(g, dependents, id, dependency);
      assert g[id][..b + 1] == g[id][..b] + [dependency];
      dependents := dependents[dependency := Children(dependents, dependency) + [id]];
    }
    assert g[id][..|g[id]|] == g[id];
  }

  /** The first `a` nodes have been entered, and nobody else. */
  ghost predicate EnteredUpTo(order: seq<NodeId>, g: Graph, dependents: map<NodeId, seq<NodeId>>, a: nat)
    requires a <= |order|
  {
    forall d, m :: m in g ==> Count(dependents, d, m) == if m in order[..a] then Occurrences(g[m], d) else 0
  }

  lemma EnteredOneMore(order: seq<NodeId>, g: Graph, before: map<NodeId, seq<NodeId>>, after: map<NodeId, seq<NodeId>>, a: nat)
    requires Distinct(order) && a < |order| && order[a] in g && EnteredUpTo(order, g, before, a)
    requires AddedUnder(before, after, order[a], g[order[a]])
    ensures EnteredUpTo(order, g, after, a + 1)
  {
    forall d, m | m in g
      ensures Count(after, d, m) == if m in order[..a + 1] then Occurrences(g[m], d) else 0
    {
      assert order[..a + 1] == order[..a] + [order[a]];
      assert order[a] !in order[..a];
    }
  }

  method Dependents(order: seq<NodeId>, g: Graph) returns (dependents: map<NodeId, seq<NodeId>>)
    requires Distinct(order) && Members(order) == g.Keys
    ensures Mirrors(g, dependents)
  {
    dependents := map[];
    for a := 0 to |order|
      invariant OnlyNodes(g, dependents) && EnteredUpTo(order, g, dependents, a)
    {
      assert order[a] in Members(order);
      var after := EnterNode(g, dependents, order[a]);
      EnteredOneMore(order, g, dependents, after, a);
      dependents := after;
    }
    assert order[..|order|] == order;
    assert forall m :: m in g ==> m in Members(order);
  }

  /** Counters during a layer: `seen` is finished, and `taken` entries of the current list are counted off. */
  ghost predicate Counted(g: Graph, indegrees: map<NodeId, int>, seen: set<NodeId>, taken: seq<NodeId>)
  {
    indegrees.Keys == g.Keys
    && forall m :: m in g ==> indegrees[m] == Remaining(g[m], seen) - Occurrences(taken, m)
  }

  /** The nodes whose counter has reached zero since the layer began at `done`. */
  ghost predicate NewlyFree(g: Graph, indegrees: map<NodeId, int>, done: set<NodeId>, next: seq<NodeId>)
    requires indegrees.Keys == g.Keys
  {
    Distinct(next) && forall m :: m in next <==> m in g && indegrees[m] == 0 && Remaining(g[m], done) > 0
  }

  lemma CountOff(g: Graph, indegrees: map<NodeId, int>, done: set<NodeId>, seen: set<NodeId>,
                 dependents: map<NodeId, seq<NodeId>>, id: NodeId, j: nat)
    requires Mirrors(g, dependents) && id !in seen && done <= seen
    requires j < |Children(dependents, id)| && Counted(g, indegrees, seen, Children(dependents, id)[..j])
    ensures var m := Children(dependents, id)[j];
            m in g && indegrees[m] >= 1 && Remaining(g[m], done) > 0
            && Counted(g, indegrees[m := indegrees[m] - 1], seen, Children(dependents, id)[..j + 1])
  {
    var children := Children(dependents, id);
    var m := children[j];
    assert m in children;
    forall x ensures Occurrences(children[..j + 1], x) == Occurrences(children[..j], x) + (if x == m then 1 else 0) {
      OccurrencesStep(children, j, x);
    }
    OccurrencesOfPrefix(children, j + 1, m);
    RemainingDrops(g[m], seen, id);
    RemainingShrinks(g[m], done, seen);
  }

  lemma NextCounter(g: Graph, indegrees: map<NodeId, int>, seen: set<NodeId>,
                    dependents: map<NodeId, seq<NodeId>>, id: NodeId)
    requires Mirrors(g, dependents) && id !in seen
    requires Counted(g, indegrees, seen, Children(dependents, id))
    ensures Counted(g, indegrees, seen + {id}, [])
  {
    forall m | m in g ensures indegrees[m] == Remaining(g[m], seen + {id}) {
      RemainingDrops(g[m], seen, id);
    }
  }

  /** Counts one finished node off its child `j`. */
  method ReleaseChild(g: Graph, dependents: map<NodeId, seq<NodeId>>, before: map<NodeId, int>, arrived: seq<NodeId>,
                      id: NodeId, j: nat, ghost done: set<NodeId>, ghost seen: set<NodeId>)
    returns (indegrees: map<NodeId, int>, next: seq<NodeId>)
    requires Mirrors(g, dependents) && id !in seen && done <= seen && j < |Children(dependents, id)|
    requires Counted(g, before, seen, Children(dependents, id)[..j]) && NewlyFree(g, before, done, arrived)
    ensures Counted(g, indegrees, seen, Children(dependents, id)[..j + 1]) && NewlyFree(g, indegrees, done, next)
  {
    CountOff(g, before, done, seen, dependents, id, j);
    var dependent := Children(dependents, id)[j];
    var remaining := before[dependent] - 1;
    indegrees := before[dependent := remaining];
    next := if remaining == 0 then arrived + [dependent] else arrived;
  }

  /** Counts one finished node off its children; a child that waits for nothing more joins `next`. */
  method ReleaseNode(g: Graph, dependents: map<NodeId, seq<NodeId>>, before: map<NodeId, int>, arrived: seq<NodeId>,
                     id: NodeId, ghost done: set<NodeId>, ghost seen: set<NodeId>)
    returns (indegrees: map<NodeId, int>, next: seq<NodeId>)
    requires Mirrors(g, dependents) && Counted(g, before, seen, []) && NewlyFree(g, before, done, arrived)
    requires id !in seen && done <= seen
    ensures Counted(g, indegrees, seen + {id}, []) && NewlyFree(g, indegrees, done, next)
  {
    indegrees, next := before, arrived;
    ghost var children := Children(dependents, id);
    assert children[..0] == [];
    for j := 0 to |Children(dependents, id)|
      invariant Counted(g, indegrees, seen, children[..j]) && NewlyFree(g, indegrees, done, next)
    {
      indegrees, next := ReleaseChild(g, dependents, indegrees, next, id, j, done, seen);
    }
    assert children[..|children|] == children;
    NextCounter(g, indegrees, seen, dependents, id);
  }

  /** One pass over a layer. */
  method ReleaseLayer(g: Graph, dependents: map<NodeId, seq<NodeId>>, before: map<NodeId, int>,
                      layer: seq<NodeId>, ghost done: set<NodeId>)
    returns (indegrees: map<NodeId, int>, next: seq<NodeId>)
    requires Mirrors(g, dependents) && Counted(g, before, done, [])
    requires Distinct(layer) && Members(layer) !! done
    ensures Counted(g, indegrees, done + Members(layer), [])
    ensures NewlyFree(g, indegrees, done, next)
  {
    indegrees, next := before, [];
    assert Members(layer[..0]) == {};
    assert done + Members(layer[..0]) == done;
    for i := 0 to |layer|
      invariant Counted(g, indegrees, done + Members(layer[..i]), []) && NewlyFree(g, indegrees, done, next)
    {
      assert layer[i] in Members(layer) && layer[i] !in layer[..i];
      indegrees, next := ReleaseNode(g, dependents, indegrees, next, layer[i], done, done + Members(layer[..i]));
      assert layer[..i + 1] == layer[..i] + [layer[i]];
      assert done + Members(layer[..i + 1]) == done + Members(layer[..i]) + {layer[i]};
    }
    assert layer[..|layer|] == layer;
  }

  /** `layers` holds each level's nodes, sorted. */
  ghost predicate LayersShow(layers: seq<seq<NodeId>>, level: map<NodeId, nat>)
  {
    (forall k :: 0 <= k < |layers| ==> layers[k] != [] && Distinct(layers[k]) && Sorted(layers[k]))
    && (forall n :: n in level ==> level[n] < |layers| && n in layers[level[n]])
    && forall k, n :: 0 <= k < |layers| && n in layers[k] ==> n in level && level[n] == k
  }

  /** `ready` holds exactly the unfinished nodes that wait for nothing more. */
  ghost predicate ReadyIs(g: Graph, indegrees: map<NodeId, int>, level: map<NodeId, nat>, ready: seq<NodeId>, depth: nat)
    requires indegrees.Keys == g.Keys
  {
    Distinct(ready) && Sorted(ready)
    && (forall m :: m in ready <==> m in g && m !in level && indegrees[m] == 0)
    && forall m :: m in ready && depth > 0 ==> HasParentAt(g, level, m, depth - 1)
  }

  ghost function Extend(level: map<NodeId, nat>, layer: seq<NodeId>, depth: nat): (next: map<NodeId, nat>)
    ensures next.Keys == level.Keys + Members(layer)
  {
    map n | n in level.Keys + Members(layer) :: if n in level then level[n] else depth
  }

  lemma ParentStays(g: Graph, level: map<NodeId, nat>, layer: seq<NodeId>, depth: nat, n: NodeId, k: int)
    requires n in g && HasParentAt(g, level, n, k)
    ensures HasParentAt(g, Extend(level, layer, depth), n, k)
  {
    var d :| d in g[n] && d in level && level[d] == k;
    assert Extend(level, layer, depth)[d] == k;
  }

  lemma LayerHasParents(g: Graph, level: map<NodeId, nat>, layer: seq<NodeId>, depth: nat)
    requires level.Keys <= g.Keys && Members(layer) <= g.Keys && ParentsJustBelow(g, level)
    requires forall m :: m in Members(layer) && depth > 0 ==> HasParentAt(g, level, m, depth - 1)
    ensures ParentsJustBelow(g, Extend(level, layer, depth))
  {
    var next := Extend(level, layer, depth);
    forall n | n in next && next[n] > 0 ensures HasParentAt(g, next, n, next[n] - 1) {
      ParentStays(g, level, layer, depth, n, next[n] - 1);
    }
  }

  lemma LayerIsLower(g: Graph, level: map<NodeId, nat>, layer: seq<NodeId>, depth: nat)
    requires level.Keys <= g.Keys && Members(layer) <= g.Keys && DependenciesLower(g, level)
    requires forall n :: n in level ==> level[n] < depth
    requires forall m :: m in Members(layer) ==> Remaining(g[m], level.Keys) == 0
    ensures DependenciesLower(g, Extend(level, layer, depth))
  {
    var next := Extend(level, layer, depth);
    forall n, d | n in next && d in g[n] ensures d in next && next[d] < next[n] {
      DependencyIsLower(g, level, layer, depth, n, d);
    }
  }

  lemma LayerIsLevelled(g: Graph, level: map<NodeId, nat>, layer: seq<NodeId>, depth: nat)
    requires Levelled(g, level) && Members(layer) !! level.Keys && Members(layer) <= g.Keys
    requires forall n :: n in level ==> level[n] < depth
    requires forall m :: m in Members(layer) ==> Remaining(g[m], level.Keys) == 0
    requires forall m :: m in Members(layer) && depth > 0 ==> HasParentAt(g, level, m, depth - 1)
    ensures Levelled(g, Extend(level, layer, depth))
  {
    LayerHasParents(g, level, layer, depth);
    LayerIsLower(g, level, layer, depth);
  }

  lemma DependencyIsLower(g: Graph, level: map<NodeId, nat>, layer: seq<NodeId>, depth: nat, n: NodeId, d: NodeId)
    requires level.Keys <= g.Keys && DependenciesLower(g, level) && n in g && d in g[n]
    requires forall x :: x in level ==> level[x] < depth
    requires n in level || (n in Members(layer) && Remaining(g[n], level.Keys) == 0)
    ensures n in Extend(level, layer, depth) && d in Extend(level, layer, depth)
    ensures Extend(level, layer, depth)[d] < Extend(level, layer, depth)[n]
  {
  }

  lemma LayerIsShown(level: map<NodeId, nat>, layer: seq<NodeId>, layers: seq<seq<NodeId>>)
    requires LayersShow(layers, level)
    requires layer != [] && Distinct(layer) && Sorted(layer) && Members(layer) !! level.Keys
    ensures LayersShow(layers + [layer], Extend(level, layer, |layers|))
  {
    var more, next := layers + [layer], Extend(level, layer, |layers|);
    assert forall k :: 0 <= k < |layers| ==> more[k] == layers[k];
    assert forall m :: m in layer <==> m in Members(layer);
    forall n | n in next ensures next[n] < |more| && n in more[next[n]] {
      if n in level { assert n in layers[level[n]]; }
    }
  }

  lemma LevelledIsFree(g: Graph, level: map<NodeId, nat>, m: NodeId)
    requires Levelled(g, level) && m in level
    ensures Remaining(g[m], level.Keys) == 0
  {
  }

  /** Who is free after a layer is released: the arrivals, and nobody else that is unfinished. */
  lemma ArrivalsAreFree(g: Graph, before: map<NodeId, int>, indegrees: map<NodeId, int>, level: map<NodeId, nat>,
                        layer: seq<NodeId>, arrivals: seq<NodeId>, m: NodeId)
    requires m in g && m in before && m in indegrees
    requires before[m] == Remaining(g[m], level.Keys)
    requires indegrees[m] == Remaining(g[m], level.Keys + Members(layer))
    requires m in layer <==> m !in level && before[m] == 0
    requires m in arrivals <==> indegrees[m] == 0 && Remaining(g[m], level.Keys) > 0
    requires m in level ==> Remaining(g[m], level.Keys) == 0
    ensures m in arrivals <==> m !in level && m !in Members(layer) && indegrees[m] == 0
  {
    RemainingShrinks(g[m], level.Keys, level.Keys + Members(layer));
  }

  lemma ArrivalHasParent(g: Graph, indegrees: map<NodeId, int>, level: map<NodeId, nat>,
                         layer: seq<NodeId>, depth: nat, m: NodeId)
    requires m in g && Counted(g, indegrees, level.Keys + Members(layer), [])
    requires indegrees[m] == 0 && Remaining(g[m], level.Keys) > 0
    ensures HasParentAt(g, Extend(level, layer, depth), m, depth)
  {
    assert Remaining(g[m], level.Keys + Members(layer)) == 0;
    var d :| d in g[m] && d !in level.Keys;
    assert d in Members(layer) && Extend(level, layer, depth)[d] == depth;
  }

  /** The sorted arrivals are the next ready list. */
  lemma ReadyAfter(g: Graph, before: map<NodeId, int>, indegrees: map<NodeId, int>, level: map<NodeId, nat>,
                   layer: seq<NodeId>, arrivals: seq<NodeId>, depth: nat)
    requires Counted(g, before, level.Keys, []) && ReadyIs(g, before, level, layer, 0) && Levelled(g, level)
    requires Counted(g, indegrees, level.Keys + Members(layer), []) && NewlyFree(g, indegrees, level.Keys, arrivals)
    ensures ReadyIs(g, indegrees, Extend(level, layer, depth), Sort(arrivals), depth + 1)
  {
    SortSorts(arrivals);
    SortDistinct(arrivals);
    SortMembers(arrivals);
    forall m | m in g ensures m in arrivals <==> m !in Extend(level, layer, depth) && indegrees[m] == 0 {
      if m in level { LevelledIsFree(g, level, m); }
      assert Occurrences([], m) == 0;
      ArrivalsAreFree(g, before, indegrees, level, layer, arrivals, m);
    }
    forall m | m in arrivals ensures HasParentAt(g, Extend(level, layer, depth), m, depth) {
      ArrivalHasParent(g, indegrees, level, layer, depth, m);
    }
  }

  /** The state between two layers. */
  ghost predicate Between(g: Graph, level: map<NodeId, nat>, layers: seq<seq<NodeId>>,
                          indegrees: map<NodeId, int>, ready: seq<NodeId>)
  {
    Levelled(g, level) && LayersShow(layers, level)
    && Counted(g, indegrees, level.Keys, []) && ReadyIs(g, indegrees, level, ready, |layers|)
  }

  lemma ReadyFacts(g: Graph, level: map<NodeId, nat>, layers: seq<seq<NodeId>>, indegrees: map<NodeId, int>, ready: seq<NodeId>)
    requires Between(g, level, layers, indegrees, ready)
    ensures Members(ready) !! level.Keys && Members(ready) <= g.Keys && Distinct(ready) && Sorted(ready)
    ensures forall n :: n in level ==> level[n] < |layers|
    ensures forall m :: m in Members(ready) ==> Remaining(g[m], level.Keys) == 0
    ensures forall m :: m in Members(ready) && |layers| > 0 ==> HasParentAt(g, level, m, |layers| - 1)
    ensures ReadyIs(g, indegrees, level, ready, 0)
  {
    forall m | m in Members(ready) ensures Remaining(g[m], level.Keys) == 0 {
      assert m in ready && Occurrences([], m) == 0;
    }
  }

  lemma NextIsLevelled(g: Graph, level: map<NodeId, nat>, layers: seq<seq<NodeId>>, before: map<NodeId, int>,
                       layer: seq<NodeId>)
    requires Between(g, level, layers, before, layer) && layer != []
    ensures Levelled(g, Extend(level, layer, |layers|))
  {
    ReadyFacts(g, level, layers, before, layer);
    LayerIsLevelled(g, level, layer, |layers|);
  }

  lemma NextIsShown(g: Graph, level: map<NodeId, nat>, layers: seq<seq<NodeId>>, before: map<NodeId, int>,
                    layer: seq<NodeId>)
    requires Between(g, level, layers, before, layer) && layer != []
    ensures LayersShow(layers + [layer], Extend(level, layer, |layers|))
  {
    ReadyFacts(g, level, layers, before, layer);
    LayerIsShown(level, layer, layers);
  }

  lemma NextIsReady(g: Graph, level: map<NodeId, nat>, layers: seq<seq<NodeId>>, before: map<NodeId, int>,
                    layer: seq<NodeId>, indegrees: map<NodeId, int>, arrivals: seq<NodeId>)
    requires Between(g, level, layers, before, layer) && layer != []
    requires Counted(g, indegrees, level.Keys + Members(layer), []) && NewlyFree(g, indegrees, level.Keys, arrivals)
    ensures ReadyIs(g, indegrees, Extend(level, layer, |layers|), Sort(arrivals), |layers| + 1)
  {
    ReadyFacts(g, level, layers, before, layer);
    ReadyAfter(g, before, indegrees, level, layer, arrivals, |layers|);
  }

  lemma NextLayer(g: Graph, level: map<NodeId, nat>, layers: seq<seq<NodeId>>, before: map<NodeId, int>,
                  layer: seq<NodeId>, indegrees: map<NodeId, int>, arrivals: seq<NodeId>)
    requires Between(g, level, layers, before, layer) && layer != []
    requires Counted(g, indegrees, level.Keys + Members(layer), []) && NewlyFree(g, indegrees, level.Keys, arrivals)
    ensures Between(g, Extend(level, layer, |layers|), layers + [layer], indegrees, Sort(arrivals))
    ensures Extend(level, layer, |layers|).Keys == level.Keys + Members(layer)
  {
    NextIsLevelled(g, level, layers, before, layer);
    NextIsShown(g, level, layers, before, layer);
    NextIsReady(g, level, layers, before, layer, indegrees, arrivals);
  }

  lemma LeftWaits(g: Graph, level: map<NodeId, nat>, indegrees: map<NodeId, int>, n: NodeId)
    requires Closed(g) && n in g && n !in level && n in indegrees
    requires indegrees[n] == Remaining(g[n], level.Keys) && indegrees[n] != 0
    ensures WaitsInside(g, n, g.Keys - level.Keys)
  {
    var d :| d in g[n] && d !in level.Keys;
    assert d in g.Keys - level.Keys;
  }

  /** Nothing is ready and something is left: what is left waits for itself. */
  lemma Blocked(g: Graph, level: map<NodeId, nat>, layers: seq<seq<NodeId>>, indegrees: map<NodeId, int>)
    requires Closed(g) && Between(g, level, layers, indegrees, []) && level.Keys != g.Keys
    ensures !Acyclic(g)
  {
    var stuck := g.Keys - level.Keys;
    SomethingLeft(level.Keys, g.Keys);
    forall n | n in stuck ensures WaitsInside(g, n, stuck) {
      var none: seq<NodeId> := [];
      assert n !in none && Occurrences(none, n) == 0;
      LeftWaits(g, level, indegrees, n);
    }
    StuckMeansCycle(g, stuck);
  }

  lemma RootsStart(order: seq<NodeId>, g: Graph, indegrees: map<NodeId, int>)
    requires Distinct(order) && Members(order) == g.Keys
    requires indegrees == map n | n in g :: |g[n]|
    requires forall n :: n in order ==> n in indegrees
    ensures Between(g, map[], [], indegrees, Sort(Roots(order, indegrees)))
  {
    var none: set<NodeId> := {};
    forall n | n in g ensures Remaining(g[n], none) == |g[n]| { RemainingOfNone(g[n]); }
    var roots := Roots(order, indegrees);
    RootsAre(order, indegrees);
    SortSorts(roots);
    SortDistinct(roots);
    SortMembers(roots);
    assert forall m :: m in order <==> m in Members(order);
    var level: map<NodeId, nat> := map[];
    assert level.Keys == none;
  }

  method KahnLayers(order: seq<NodeId>, g: Graph) returns (layers: seq<seq<NodeId>>, processed: nat)
    requires Distinct(order) && Members(order) == g.Keys && Closed(g)
    ensures processed == |order| <==> Acyclic(g)
    ensures processed == |order| ==>
        exists level: map<NodeId, nat> :: level.Keys == g.Keys && Levelled(g, level) && LayersShow(layers, level)
  {
    var indegrees: map<NodeId, int> := map n | n in g :: |g[n]|;
    assert forall n :: n in order ==> n in Members(order);
    var dependents := Dependents(order, g);
    var ready := Sort(Roots(order, indegrees));
    RootsStart(order, g, indegrees);
    layers, processed := [], 0;
    ghost var level: map<NodeId, nat> := map[];
    while ready != []
      invariant Between(g, level, layers, indegrees, ready) && processed == |level.Keys|
      decreases g.Keys - level.Keys
    {
      var layer := ready;
      ReadyFacts(g, level, layers, indegrees, layer);
      var released, arrivals := ReleaseLayer(g, dependents, indegrees, layer, level.Keys);
      NextLayer(g, level, layers, indegrees, layer, released, arrivals);
      Progress(g, level, layer, |layers|);
      level := Extend(level, layer, |layers|);
      layers := layers + [layer];
      processed := processed + |layer|;
      indegrees, ready := released, Sort(arrivals);
    }
    Finish(order, g, level, layers, indegrees);
  }

  lemma Progress(g: Graph, level: map<NodeId, nat>, layer: seq<NodeId>, depth: nat)
    requires level.Keys <= g.Keys && layer != [] && Distinct(layer) && Members(layer) !! level.Keys && Members(layer) <= g.Keys
    ensures |Extend(level, layer, depth).Keys| == |level.Keys| + |layer|
    ensures g.Keys - Extend(level, layer, depth).Keys < g.Keys - level.Keys
  {
    DistinctCount(layer);
    var left, less := g.Keys - level.Keys, g.Keys - Extend(level, layer, depth).Keys;
    assert layer[0] in Members(layer) && layer[0] in left && layer[0] !in less;
  }

  lemma Finish(order: seq<NodeId>, g: Graph, level: map<NodeId, nat>, layers: seq<seq<NodeId>>, indegrees: map<NodeId, int>)
    requires Distinct(order) && Members(order) == g.Keys && Closed(g)
    requires Between(g, level, layers, indegrees, [])
    ensures |level.Keys| == |order| <==> Acyclic(g)
    ensures |level.Keys| == |order| ==> level.Keys == g.Keys
  {
    DistinctCount(order);
    SubsetCount(level.Keys, g.Keys);
    if level.Keys == g.Keys {
      LevelledIsAcyclic(g, level);
    } else {
      Blocked(g, level, layers, indegrees);
    }
  }

  /** `[...nodes.keys()].filter((id) => indegrees.get(id) === 0)` */
  function Roots(order: seq<NodeId>, indegrees: map<NodeId, int>): seq<NodeId>
    requires forall n :: n in order ==> n in indegrees
  {
    if order == [] then []
    else (if indegrees[order[0]] == 0 then [order[0]] else []) + Roots(order[1..], indegrees)
  }

  lemma {:induction false} RootsAre(order: seq<NodeId>, indegrees: map<NodeId, int>)
    requires Distinct(order) && forall n :: n in order ==> n in indegrees
    ensures Distinct(Roots(order, indegrees))
    ensures forall n :: n in Roots(order, indegrees) <==> n in order && indegrees[n] == 0
  {
    if order != [] {
      RootsAre(order[1..], indegrees);
      assert order == [order[0]] + order[1..];
    }
  }
}
