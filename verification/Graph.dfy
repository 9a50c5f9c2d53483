/** The component graph: edges kept in both directions, and the search for a cycle. */
module ComponentGraphs {
  import opened Prelude

  type Id = nat

  datatype Component = Component(id: Id, name: string, weight: real)

  /** The edges: `deps` from a component to what it needs, `rdeps` the other way. */
  datatype Graph = Graph(nodes: set<Id>, deps: map<Id, set<Id>>, rdeps: map<Id, set<Id>>)

  function Deps(g: Graph, n: Id): set<Id> { if n in g.deps then g.deps[n] else {} }

  function Dependents(g: Graph, n: Id): set<Id> { if n in g.rdeps then g.rdeps[n] else {} }

  /** Edges join components of the graph. */
  ghost predicate Closed(g: Graph) {
    (forall n :: n in g.deps ==> n in g.nodes && g.deps[n] <= g.nodes) &&
      (forall n :: n in g.rdeps ==> n in g.nodes && g.rdeps[n] <= g.nodes)
  }

  /** The two directions agree. */
  ghost predicate Mirrored(g: Graph) {
    forall a, b :: b in Deps(g, a) <==> a in Dependents(g, b)
  }

  class ComponentGraph {
    var components: map<Id, Component>
    var nameIndex: map<string, Id>
    var dependencies: map<Id, set<Id>>
    var dependents: map<Id, set<Id>>
    var totalWeight: nat
    var componentCount: nat
    var nextId: Id

    function Value(): Graph reads this { Graph(components.Keys, dependencies, dependents) }

    ghost predicate Valid()
      reads this
    {
      Closed(Value()) && Mirrored(Value()) && componentCount == |components|
    }

    constructor ()
      ensures Valid() && components == map[]
    {
      components, nameIndex, dependencies, dependents := map[], map[], map[], map[];
      totalWeight, componentCount, nextId := 0, 0, 0;
    }

    /** The id zero asks for the next generated one. A known id loses its edges on its own side only and
        is counted again, so the graph stays valid exactly when the id is new. */
    method AddComponent(component: Component) returns (id: Id)
      requires Valid()
      modifies this
      ensures id == if component.id == 0 then old(nextId) else component.id
      ensures components == old(components)[id := component.(id := id)] &&
              nameIndex == old(nameIndex)[component.name := id]
      ensures Deps(Value(), id) == {} && Dependents(Value(), id) == {}
      ensures forall n :: n != id ==>
              Deps(Value(), n) == Deps(old(Value()), n) && Dependents(Value(), n) == Dependents(old(Value()), n)
      ensures Closed(Value()) && totalWeight >= old(totalWeight)
      ensures Valid() <==> id !in old(components)
    {
      var c := component;
      if c.id == 0 {
        c := c.(id := nextId);
        nextId := nextId + 1;
      }
      id := c.id;
      assert c == component.(id := id) && c.name == component.name;
      AddedFacts(Value(), id);
      AddedEdges(Value(), id);
      ghost var after := Added(Value(), id);
      hide *;
      nameIndex := nameIndex[c.name := id];
      dependencies := dependencies[id := {}];
      dependents := dependents[id := {}];
      ghost var was := components;
      components := components[id := c];
      componentCount := componentCount + 1;
      totalWeight := totalWeight + Hundredths(c.weight);
      assert components.Keys == was.Keys + {id};
      assert Value() == after;
      assert |components| == |components.Keys| && |was| == |was.Keys|;
    }

    /** The edge is added whether or not it closes a cycle. */
    method AddDependency(from: Id, to: Id) returns (r: Result<(), Id>)
      requires Valid()
      modifies this`dependencies, this`dependents
      ensures Valid()
      ensures r == if from !in components then Err(from) else if to !in components then Err(to) else Ok(())
      ensures forall a, b :: b in Deps(Value(), a) <==> b in Deps(old(Value()), a) || (r.Ok? && a == from && b == to)
      ensures r.Ok? ==> (Acyclic(Value()) <==> Acyclic(old(Value())) && !Reaches(old(Value()), to, from))
    {
      if from !in components {
        return Err(from);
      }
      if to !in components {
        return Err(to);
      }
      LinkedFacts(Value(), from, to);
      LinkAcyclic(Value(), from, to);
      hide Closed, Mirrored, Deps, Acyclic, Reaches;
      var out := if from in dependencies then dependencies[from] else {};
      dependencies := dependencies[from := out + {to}];
      var in' := if to in dependents then dependents[to] else {};
      dependents := dependents[to := in' + {from}];
      r := Ok(());
    }
  }

  /** The graph after `id` is inserted, and after an edge is. */
  function Hundredths(weight: real): (n: int)
    ensures n >= 0
  {
    if weight > 0.0 then (weight * 100.0).Floor else 0
  }

  function Added(g: Graph, id: Id): Graph { Graph(g.nodes + {id}, g.deps[id := {}], g.rdeps[id := {}]) }

  function Linked(g: Graph, from: Id, to: Id): Graph {
    g.(deps := g.deps[from := Deps(g, from) + {to}], rdeps := g.rdeps[to := Dependents(g, to) + {from}])
  }

  lemma {:induction false} AddedEdges(g: Graph, id: Id)
    ensures forall n :: Deps(Added(g, id), n) == if n == id then {} else Deps(g, n)
    ensures forall n :: Dependents(Added(g, id), n) == if n == id then {} else Dependents(g, n)
  {}

  lemma {:induction false} AddedFacts(g: Graph, id: Id)
    requires Closed(g) && Mirrored(g)
    ensures Closed(Added(g, id)) && (id !in g.nodes ==> Mirrored(Added(g, id)))
  {
    AddedEdges(g, id);
    if id !in g.nodes {
      Unconnected(g, id);
      var h := Added(g, id);
      forall a, b ensures b in Deps(h, a) <==> a in Dependents(h, b) {
        assert b in Deps(g, a) <==> a in Dependents(g, b);
      }
    }
  }

  lemma {:induction false} LinkedFacts(g: Graph, from: Id, to: Id)
    requires Closed(g) && Mirrored(g) && from in g.nodes && to in g.nodes
    ensures Closed(Linked(g, from, to)) && Mirrored(Linked(g, from, to))
    ensures forall a, b :: b in Deps(Linked(g, from, to), a) <==> b in Deps(g, a) || (a == from && b == to)
  {
    var h := Linked(g, from, to);
    assert forall n :: Deps(h, n) == if n == from then Deps(g, n) + {to} else Deps(g, n);
    assert forall n :: Dependents(h, n) == if n == to then Dependents(g, n) + {from} else Dependents(g, n);
    forall a, b ensures b in Deps(h, a) <==> a in Dependents(h, b) {
      assert b in Deps(g, a) <==> a in Dependents(g, b);
    }
  }

  lemma {:induction false} Unconnected(g: Graph, id: Id)
    requires Closed(g) && Mirrored(g) && id !in g.nodes
    ensures forall n :: id !in Deps(g, n) && id !in Dependents(g, n)
  {
    forall n ensures id !in Deps(g, n) && id !in Dependents(g, n) {
      assert n in g.deps ==> g.deps[n] <= g.nodes;
      assert n in g.rdeps ==> g.rdeps[n] <= g.nodes;
    }
  }

  // ---- Paths and cycles -----------------------------------------------------------------------

  /** Each step is to a dependency. */
  ghost predicate Path(g: Graph, p: seq<Id>) {
    p != [] && forall i :: 0 <= i < |p| - 1 ==> p[i + 1] in Deps(g, p[i])
  }

  ghost predicate Reaches(g: Graph, a: Id, b: Id) {
    exists p :: Path(g, p) && p[0] == a && p[|p| - 1] == b
  }

  ghost predicate Cycle(g: Graph, p: seq<Id>) { Path(g, p) && |p| > 1 && p[0] == p[|p| - 1] }

  ghost predicate Acyclic(g: Graph) { forall p :: !Cycle(g, p) }

  /** Dependencies come before their dependents. */
  ghost predicate Ordered(g: Graph, order: seq<Id>) {
    && NoDup(order)
    && forall i, d :: 0 <= i < |order| && d in Deps(g, order[i]) ==> d in order[..i]
  }

  lemma {:induction false} SubPath(g: Graph, p: seq<Id>, i: nat, j: nat)
    requires Path(g, p) && i < j <= |p|
    ensures Path(g, p[i..j])
  {
    var q := p[i..j];
    forall k | 0 <= k < |q| - 1 ensures q[k + 1] in Deps(g, q[k]) {
      assert q[k] == p[i + k] && q[k + 1] == p[i + k + 1];
    }
  }

  lemma {:induction false} PathSnoc(g: Graph, p: seq<Id>, n: Id)
    requires Path(g, p) && n in Deps(g, p[|p| - 1])
    ensures Path(g, p + [n])
  {}

  /** The path does not take the step from `from` to `to`. */
  predicate Avoids(p: seq<Id>, from: Id, to: Id) { forall i :: 0 <= i < |p| - 1 ==> !(p[i] == from && p[i + 1] == to) }

  lemma {:induction false} LinkedPath(g: Graph, from: Id, to: Id, p: seq<Id>)
    ensures Path(g, p) ==> Path(Linked(g, from, to), p)
    ensures Path(Linked(g, from, to), p) && Avoids(p, from, to) ==> Path(g, p)
  {}

  /** A way back that uses the new edge passes the near end before, so there is one that does not use it. */
  lemma {:induction false} WayBack(g: Graph, from: Id, to: Id, p: seq<Id>)
    requires Path(Linked(g, from, to), p) && p[0] == to && p[|p| - 1] == from
    ensures Reaches(g, to, from)
    decreases |p|
  {
    LinkedPath(g, from, to, p);
    if !Avoids(p, from, to) {
      var i :| 0 <= i < |p| - 1 && p[i] == from && p[i + 1] == to;
      SubPath(Linked(g, from, to), p, 0, i + 1);
      WayBack(g, from, to, p[0..i + 1]);
    }
  }

  lemma {:induction false} Rotated(g: Graph, p: seq<Id>, i: nat)
    requires Cycle(g, p) && i < |p| - 1
    ensures var q := p[i + 1..] + p[1..i + 1];
            Path(g, q) && q[0] == p[i + 1] && q[|q| - 1] == p[i]
  {
    var q, n := p[i + 1..] + p[1..i + 1], |p| - 1 - i;
    forall k | 0 <= k < |q| - 1 ensures q[k + 1] in Deps(g, q[k]) {
      assert q[k] == (if k < n then p[i + 1 + k] else p[1 + k - n]);
      assert q[k + 1] == (if k + 1 < n then p[i + 2 + k] else p[2 + k - n]);
    }
  }

  /** An edge keeps a graph acyclic exactly when its far end does not reach its near end. */
  lemma {:induction false} LinkAcyclic(g: Graph, from: Id, to: Id)
    ensures Acyclic(Linked(g, from, to)) <==> Acyclic(g) && !Reaches(g, to, from)
  {
    var h := Linked(g, from, to);
    if p :| Cycle(g, p) {
      LinkedPath(g, from, to, p);
      assert Cycle(h, p);
    } else if Reaches(g, to, from) {
      var p :| Path(g, p) && p[0] == to && p[|p| - 1] == from;
      LinkedPath(g, from, to, p);
      PathSnoc(h, p, to);
      assert Cycle(h, p + [to]);
    } else if p :| Cycle(h, p) {
      assert !Cycle(g, p);
      LinkedPath(g, from, to, p);
      if !Avoids(p, from, to) {
        var i :| 0 <= i < |p| - 1 && p[i] == from && p[i + 1] == to;
        Rotated(h, p, i);
        WayBack(g, from, to, p[i + 1..] + p[1..i + 1]);
      }
    }
  }

  /** Every component accepts an edge to itself, which is a cycle. */
  lemma {:induction false} SelfEdge(g: Graph, n: Id)
    ensures Cycle(Linked(g, n, n), [n, n]) && !Acyclic(Linked(g, n, n))
  {
    assert Cycle(Linked(g, n, n), [n, n]);
  }

  lemma {:induction false} PathEarlier(g: Graph, order: seq<Id>, p: seq<Id>, at: nat)
    requires Ordered(g, order) && Path(g, p) && at < |order| && order[at] == p[0] && |p| > 1
    ensures p[|p| - 1] in order[..at]
    decreases |p|
  {
    assert p[1] in Deps(g, p[0]);
    var k :| 0 <= k < at && order[k] == p[1];
    if |p| > 2 {
      SubPath(g, p, 1, |p|);
      PathEarlier(g, order, p[1..], k);
      assert order[..k] <= order[..at];
    }
  }

  /** A graph whose components can be put in order has no cycle. */
  lemma {:induction false} OrderedAcyclic(g: Graph, order: seq<Id>)
    requires Closed(g) && Ordered(g, order) && forall n :: n in g.nodes ==> n in order
    ensures Acyclic(g)
  {
    forall p ensures !Cycle(g, p) {
      if Cycle(g, p) {
        assert p[1] in Deps(g, p[0]);
        assert p[0] in order;
        var at :| 0 <= at < |order| && order[at] == p[0];
        PathEarlier(g, order, p, at);
      }
    }
  }

  // ---- The search -----------------------------------------------------------------------------

  /** `order` lists what is finished: visited and off the stack. `path` is the stack, oldest first. */
  ghost predicate Searching(g: Graph, visited: set<Id>, stack: set<Id>, order: seq<Id>, path: seq<Id>) {
    && visited <= g.nodes && Ordered(g, order) && (path != [] ==> Path(g, path))
    && (forall n :: n in stack <==> n in path) && (forall n :: n in visited <==> n in order || n in path)
    && (forall n :: n in order ==> n !in path)
  }

  /** An edge whose far end reaches back to its near end. */
  ghost predicate BackEdge(g: Graph, pair: seq<Id>) {
    |pair| == 2 && pair[1] in Deps(g, pair[0]) && Reaches(g, pair[1], pair[0])
  }

  method DetectCycleDfs(g: Graph, node: Id, visited: set<Id>, stack: set<Id>, ghost order: seq<Id>, ghost path: seq<Id>)
    returns (cycle: Option<seq<Id>>, visited': set<Id>, stack': set<Id>, ghost order': seq<Id>)
    requires Closed(g) && node in g.nodes && node !in visited && Searching(g, visited, stack, order, path)
    requires path != [] ==> node in Deps(g, path[|path| - 1])
    ensures cycle.Some? ==> BackEdge(g, cycle.value)
    ensures cycle.None? ==>
            Searching(g, visited', stack', order', path) && stack' == stack && node in visited' && node !in stack
    ensures visited <= visited'
    decreases |g.nodes - visited|
  {
    visited', stack', order' := visited + {node}, stack + {node}, order;
    ghost var here := path + [node];
    Entered(g, visited, stack, order, path, node);
    var deps := Deps(g, node);
    assert node !in path && node !in stack && deps <= g.nodes;
    hide Searching;
    while deps != {}
      invariant deps <= Deps(g, node) && Searching(g, visited', stack', order', here)
      invariant stack' == stack + {node} && visited + {node} <= visited'
      invariant forall d :: d in Deps(g, node) && d !in deps ==> d in visited' && d !in stack'
      decreases deps
    {
      var neighbor :| neighbor in deps;
      if neighbor !in visited' {
        Unvisited(g.nodes, visited, visited', node);
        cycle, visited', stack', order' := DetectCycleDfs(g, neighbor, visited', stack', order', here);
        if cycle.Some? {
          return;
        }
      } else if neighbor in stack' {
        OnStack(g, visited', stack', order', here, neighbor);
        return Some([node, neighbor]), visited', stack', order';
      }
      deps := deps - {neighbor};
    }
    FinishedNode(g, visited', stack', order', path, node);
    stack' := stack' - {node};
    order' := order' + [node];
    cycle := None;
  }

  lemma {:induction false} Entered(g: Graph, visited: set<Id>, stack: set<Id>, order: seq<Id>, path: seq<Id>, node: Id)
    requires Searching(g, visited, stack, order, path) && node in g.nodes && node !in visited
    requires path != [] ==> node in Deps(g, path[|path| - 1])
    ensures Searching(g, visited + {node}, stack + {node}, order, path + [node])
    ensures node !in path && node !in stack
  {
    assert forall n :: n in path + [node] <==> n in path || n == node;
  }

  lemma {:induction false} Unvisited(nodes: set<Id>, visited: set<Id>, visited': set<Id>, node: Id)
    requires node in nodes && node !in visited && visited + {node} <= visited'
    ensures |nodes - visited'| < |nodes - visited|
  {
    assert node in nodes - visited;
    SmallerSet(nodes - visited', nodes - visited);
  }

  lemma {:induction false} OnStack(g: Graph, visited: set<Id>, stack: set<Id>, order: seq<Id>, here: seq<Id>, n: Id)
    requires Searching(g, visited, stack, order, here) && here != [] && n in stack && n in Deps(g, here[|here| - 1])
    ensures BackEdge(g, [here[|here| - 1], n])
  {
    var k :| 0 <= k < |here| && here[k] == n;
    SubPath(g, here, k, |here|);
    var q := here[k..];
    assert q == here[k..|here|] && q[0] == n && q[|q| - 1] == here[|here| - 1];
  }

  lemma {:induction false} FinishedNode(g: Graph, visited: set<Id>, stack: set<Id>, order: seq<Id>, path: seq<Id>,
                                        node: Id)
    requires Searching(g, visited, stack, order, path + [node]) && node !in path
    requires forall d :: d in Deps(g, node) ==> d in visited && d !in stack
    ensures Searching(g, visited, stack - {node}, order + [node], path)
  {
    var o := order + [node];
    assert node in path + [node];
    assert forall n :: n in path + [node] <==> n in path || n == node;
    assert forall n :: n in o <==> n in order || n == node;
    if path != [] {
      SubPath(g, path + [node], 0, |path|);
      assert (path + [node])[0..|path|] == path;
    }
    forall i, d | 0 <= i < |o| && d in Deps(g, o[i]) ensures d in o[..i] {
      if i < |order| {
        assert o[..i] == order[..i];
      } else {
        assert o[..i] == order;
      }
    }
  }

  /** The graph is accepted exactly when it has no cycle; otherwise the answer is a back edge. */
  method Validate(g: Graph) returns (r: Result<(), seq<Id>>, ghost order: seq<Id>)
    requires Closed(g)
    ensures r.Ok? <==> Acyclic(g)
    ensures r.Err? ==> BackEdge(g, r.error)
    ensures r.Ok? ==> Ordered(g, order) && forall n :: n in order <==> n in g.nodes
  {
    var visited, stack: set<Id> := {}, {};
    order := [];
    var ids := g.nodes;
    while ids != {}
      invariant ids <= g.nodes && stack == {} && Searching(g, visited, stack, order, [])
      invariant forall n :: n in g.nodes && n !in ids ==> n in visited
      decreases ids
    {
      var id :| id in ids;
      if id !in visited {
        var cycle;
        cycle, visited, stack, order := DetectCycleDfs(g, id, visited, stack, order, []);
        if cycle.Some? {
          BackEdgeCycle(g, cycle.value);
          return Err(cycle.value), order;
        }
      }
      ids := ids - {id};
    }
    OrderedAcyclic(g, order);
    r := Ok(());
  }

  lemma {:induction false} BackEdgeCycle(g: Graph, pair: seq<Id>)
    requires BackEdge(g, pair)
    ensures !Acyclic(g)
  {
    var p :| Path(g, p) && p[0] == pair[1] && p[|p| - 1] == pair[0];
    PathSnoc(g, p, pair[1]);
    assert Cycle(g, p + [pair[1]]);
  }
}
