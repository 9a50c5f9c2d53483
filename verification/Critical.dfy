/** The heaviest chain of dependents: the memoised walk, and the backtracking walk it must match. */
module Critical {
  import opened Prelude
  import opened ComponentGraphs
  import opened Levels

  type Times = map<Id, real>

  function TimeOf(times: Times, n: Id): real { if n in times then times[n] else 0.0 }

  ghost predicate NonNegative(times: Times) { forall n :: n in times ==> times[n] >= 0.0 }

  function Weight(times: Times, p: seq<Id>): real {
    if p == [] then 0.0 else TimeOf(times, p[0]) + Weight(times, p[1..])
  }

  /** Each step is to a dependent. */
  ghost predicate Chain(g: Graph, p: seq<Id>) {
    p != [] && forall i :: 0 <= i < |p| - 1 ==> p[i + 1] in Dependents(g, p[i])
  }

  ghost predicate Heaviest(g: Graph, times: Times, n: Id, total: real) {
    && (exists p :: Chain(g, p) && p[0] == n && Weight(times, p) == total)
    && (forall p :: Chain(g, p) && p[0] == n ==> Weight(times, p) <= total)
  }

  // ---- Chains --------------------------------------------------------------------------------

  lemma {:induction false} WeightNonNegative(times: Times, p: seq<Id>)
    requires NonNegative(times)
    ensures Weight(times, p) >= 0.0
  {
    if p != [] {
      WeightNonNegative(times, p[1..]);
    }
  }

  lemma {:induction false} WeightAppend(times: Times, a: seq<Id>, b: seq<Id>)
    ensures Weight(times, a + b) == Weight(times, a) + Weight(times, b)
  {
    if a == [] {
      assert a + b == b;
    } else {
      assert (a + b)[1..] == a[1..] + b;
      WeightAppend(times, a[1..], b);
    }
  }

  lemma {:induction false} ChainCons(g: Graph, n: Id, p: seq<Id>)
    requires Chain(g, p) && p[0] in Dependents(g, n)
    ensures Chain(g, [n] + p) && ([n] + p)[1..] == p
  {}

  lemma {:induction false} ChainTail(g: Graph, p: seq<Id>)
    requires Chain(g, p) && |p| > 1
    ensures Chain(g, p[1..]) && p[1] in Dependents(g, p[0])
  {
    var q := p[1..];
    forall i | 0 <= i < |q| - 1 ensures q[i + 1] in Dependents(g, q[i]) {
      assert q[i] == p[i + 1] && q[i + 1] == p[i + 2];
    }
  }

  lemma {:induction false} ChainSnoc(g: Graph, p: seq<Id>, n: Id)
    requires Chain(g, p) && n in Dependents(g, p[|p| - 1])
    ensures Chain(g, p + [n])
  {}

  /** A chain that returns to a component is a cycle the other way round. */
  lemma {:induction false} NoReturn(g: Graph, p: seq<Id>, i: nat, j: nat)
    requires Mirrored(g) && Acyclic(g) && Chain(g, p) && i < j < |p|
    ensures p[i] != p[j]
  {
    var q := seq(j - i + 1, k requires 0 <= k <= j - i => p[j - k]);
    forall k | 0 <= k < |q| - 1 ensures q[k + 1] in Deps(g, q[k]) {
      assert q[k] == p[j - k - 1 + 1] && q[k + 1] == p[j - k - 1];
    }
    assert !Cycle(g, q);
  }

  lemma {:induction false} ChainDistinct(g: Graph, p: seq<Id>)
    requires Mirrored(g) && Acyclic(g) && Chain(g, p)
    ensures NoDup(p)
  {
    forall i, j | 0 <= i < j < |p| ensures p[i] != p[j] {
      NoReturn(g, p, i, j);
    }
  }

  lemma {:induction false} ChainInside(g: Graph, p: seq<Id>)
    requires Closed(g) && Chain(g, p) && p[0] in g.nodes
    ensures forall n :: n in p ==> n in g.nodes
    decreases |p|
  {
    if |p| > 1 {
      ChainTail(g, p);
      ChainInside(g, p[1..]);
    }
  }

  // ---- The memoised walk -----------------------------------------------------------------------

  type Memo = map<Id, (Option<Id>, real)>

  /** Every recorded total is the heaviest, and the recorded successor is how to get it. */
  ghost predicate Recorded(g: Graph, times: Times, memo: Memo) {
    forall n :: n in memo ==> Heaviest(g, times, n, memo[n].1) && Succeeds(g, times, memo, n)
  }

  ghost predicate Succeeds(g: Graph, times: Times, memo: Memo, n: Id)
    requires n in memo
  {
    match memo[n].0
    case None => Dependents(g, n) == {} && memo[n].1 == TimeOf(times, n)
    case Some(d) => d in Dependents(g, n) && d in memo && memo[n].1 == TimeOf(times, n) + memo[d].1
  }

  ghost predicate Extends(memo: Memo, memo': Memo) { forall n :: n in memo ==> n in memo' && memo'[n] == memo[n] }

  /** The stack is a chain down to the component being entered. */
  ghost predicate StackOf(g: Graph, stack: set<Id>, path: seq<Id>, node: Id) {
    (forall n :: n in stack <==> n in path) &&
      (path != [] ==> Chain(g, path) && node in Dependents(g, path[|path| - 1]))
  }

  /** The best of what is `done` so far. */
  ghost predicate BestOf(g: Graph, memo: Memo, done: set<Id>, best: Option<(Id, real)>) {
    && (best.None? <==> done == {})
    && (best.Some? ==> best.value.0 in done && best.value.0 in memo && memo[best.value.0].1 == best.value.1)
    && forall d :: d in done ==> d in memo && (best.Some? ==> memo[d].1 <= best.value.1)
  }

  method LongestTimeFrom(g: Graph, times: Times, node: Id, memo: Memo, stack: set<Id>, ghost path: seq<Id>)
    returns (total: real, memo': Memo)
    requires Closed(g) && Mirrored(g) && NonNegative(times) && node in g.nodes && stack <= g.nodes
    requires Acyclic(g) ==> Recorded(g, times, memo) && StackOf(g, stack, path, node)
    ensures Acyclic(g) ==> Recorded(g, times, memo') && Extends(memo, memo') && node in memo' && memo'[node].1 == total
    decreases |g.nodes - stack|
  {
    memo' := memo;
    if node in memo {
      return memo[node].1, memo;
    }
    if node in stack {
      if Acyclic(g) {
        NotOnStack(g, stack, path, node);
      }
      return 0.0, memo;
    }
    var stack' := stack + {node};
    Unvisited(g.nodes, stack, stack', node);
    var best: Option<(Id, real)> := None;
    ghost var all := Dependents(g, node);
    var dependents := Dependents(g, node);
    ghost var done: set<Id> := {};
    if Acyclic(g) {
      Stacked(g, stack, path, node);
    }
    assert all <= g.nodes;
    hide Recorded, Closed, Mirrored, Acyclic, NonNegative, BestOf, Extends, StackOf, Dependents;
    BestOfNone(g, memo);
    while dependents != {}
      invariant dependents <= all && done == all - dependents
      invariant Acyclic(g) ==> Recorded(g, times, memo') && Extends(memo, memo') && BestOf(g, memo', done, best)
      decreases dependents
    {
      var dependent :| dependent in dependents;
      ghost var before := memo';
      var time;
      time, memo' := LongestTimeFrom(g, times, dependent, memo', stack', path + [node]);
      if Acyclic(g) {
        BestMore(g, memo, before, memo', done, best, dependent);
      }
      if best.None? || time > best.value.1 {
        best := Some((dependent, time));
      }
      dependents := dependents - {dependent};
      assert done + {dependent} == all - dependents;
      done := done + {dependent};
    }
    total := TimeOf(times, node) + if best.Some? then best.value.1 else 0.0;
    if Acyclic(g) {
      RecordNode(g, times, memo, memo', node, best, total);
    }
    memo' := memo'[node := (if best.Some? then Some(best.value.0) else None, total)];
  }

  lemma {:induction false} NotOnStack(g: Graph, stack: set<Id>, path: seq<Id>, node: Id)
    requires Mirrored(g) && Acyclic(g) && StackOf(g, stack, path, node)
    ensures node !in stack
  {
    if node in path {
      var i :| 0 <= i < |path| && path[i] == node;
      ChainSnoc(g, path, node);
      NoReturn(g, path + [node], i, |path|);
    }
  }

  lemma {:induction false} Stacked(g: Graph, stack: set<Id>, path: seq<Id>, node: Id)
    requires StackOf(g, stack, path, node)
    ensures forall d :: d in Dependents(g, node) ==> StackOf(g, stack + {node}, path + [node], d)
  {
    if path != [] {
      ChainSnoc(g, path, node);
    }
  }

  lemma {:induction false} BestOfNone(g: Graph, memo: Memo)
    ensures BestOf(g, memo, {}, None) && Extends(memo, memo)
  {}

  lemma {:induction false} BestMore(g: Graph, memo: Memo, before: Memo, memo': Memo, done: set<Id>,
                                    best: Option<(Id, real)>, d: Id)
    requires Extends(memo, before) && Extends(before, memo') && BestOf(g, before, done, best) && d in memo'
    ensures Extends(memo, memo')
    ensures BestOf(g, memo', done + {d}, if best.None? || memo'[d].1 > best.value.1 then Some((d, memo'[d].1))
            else best)
  {}

  lemma {:induction false} HeaviestUnique(g: Graph, times: Times, n: Id, one: real, two: real)
    requires Heaviest(g, times, n, one) && Heaviest(g, times, n, two)
    ensures one == two
  {}

  lemma {:induction false} HeaviestNonNegative(g: Graph, times: Times, n: Id, total: real)
    requires Heaviest(g, times, n, total) && NonNegative(times)
    ensures total >= 0.0
  {
    var p :| Chain(g, p) && p[0] == n && Weight(times, p) == total;
    WeightNonNegative(times, p);
  }

  /** The heaviest chain from a component goes on with the heaviest from one of its dependents. */
  lemma {:induction false} HeaviestStep(g: Graph, times: Times, node: Id, d: Id, more: real)
    requires NonNegative(times) && d in Dependents(g, node) && Heaviest(g, times, d, more)
    requires forall e, w :: e in Dependents(g, node) && Heaviest(g, times, e, w) ==> w <= more
    requires forall e :: e in Dependents(g, node) ==> exists w :: Heaviest(g, times, e, w)
    ensures Heaviest(g, times, node, TimeOf(times, node) + more)
  {
    var q :| Chain(g, q) && q[0] == d && Weight(times, q) == more;
    ChainCons(g, node, q);
    assert Weight(times, [node] + q) == TimeOf(times, node) + more;
    HeaviestNonNegative(g, times, d, more);
    forall p | Chain(g, p) && p[0] == node ensures Weight(times, p) <= TimeOf(times, node) + more {
      if |p| > 1 {
        ChainTail(g, p);
        var w :| Heaviest(g, times, p[1], w);
        assert Weight(times, p[1..]) <= w;
      } else {
        assert p[1..] == [];
      }
    }
  }

  lemma {:induction false} HeaviestAlone(g: Graph, times: Times, node: Id)
    requires Dependents(g, node) == {}
    ensures Heaviest(g, times, node, TimeOf(times, node))
  {
    assert [node][1..] == [] && Chain(g, [node]);
    assert Weight(times, [node]) == TimeOf(times, node);
    forall p | Chain(g, p) && p[0] == node ensures Weight(times, p) <= TimeOf(times, node) {
      if |p| > 1 {
        ChainTail(g, p);
      } else {
        assert p[1..] == [];
      }
    }
  }

  lemma {:induction false} RecordNode(g: Graph, times: Times, memo: Memo, memo': Memo, node: Id,
                                      best: Option<(Id, real)>, total: real)
    requires NonNegative(times) && Recorded(g, times, memo') && Extends(memo, memo') &&
             BestOf(g, memo', Dependents(g, node), best)
    requires node !in memo && total == TimeOf(times, node) + if best.Some? then best.value.1 else 0.0
    ensures var out := memo'[node := (if best.Some? then Some(best.value.0) else None, total)];
            Recorded(g, times, out) && Extends(memo, out)
  {
    var out := memo'[node := (if best.Some? then Some(best.value.0) else None, total)];
    NodeHeaviest(g, times, memo', node, best, total);
    if node in memo' {
      HeaviestUnique(g, times, node, memo'[node].1, total);
    }
    hide Heaviest;
    forall n | n in out ensures Heaviest(g, times, n, out[n].1) && Succeeds(g, times, out, n) {
      if n != node {
        assert Succeeds(g, times, memo', n);
      }
    }
  }

  lemma {:induction false} NodeHeaviest(g: Graph, times: Times, memo': Memo, node: Id, best: Option<(Id, real)>,
                                        total: real)
    requires NonNegative(times) && Recorded(g, times, memo') && BestOf(g, memo', Dependents(g, node), best)
    requires total == TimeOf(times, node) + if best.Some? then best.value.1 else 0.0
    ensures Heaviest(g, times, node, total)
  {
    if best.None? {
      HeaviestAlone(g, times, node);
    } else {
      forall e, w | e in Dependents(g, node) && Heaviest(g, times, e, w) ensures w <= best.value.1 {
        HeaviestUnique(g, times, e, w, memo'[e].1);
      }
      HeaviestStep(g, times, node, best.value.0, best.value.1);
    }
  }

  /** Follow the recorded successors. The length guard is there for graphs with a cycle. */
  method PathFrom(g: Graph, times: Times, node: Id, memo: Memo) returns (path: seq<Id>)
    requires Closed(g) && Mirrored(g) && node in g.nodes
    ensures path != [] && path[0] == node
    ensures Acyclic(g) && Recorded(g, times, memo) && node in memo ==>
              Chain(g, path) && Weight(times, path) == memo[node].1 && Dependents(g, path[|path| - 1]) == {}
  {
    ghost var sound := Acyclic(g) && Recorded(g, times, memo) && node in memo;
    path := [node];
    var current := node;
    assert Weight(times, [node]) == TimeOf(times, node) by { assert [node][1..] == []; }
    while current in memo && memo[current].0.Some?
      invariant path != [] && path[0] == node && path[|path| - 1] == current && |path| <= |memo| + 1
      invariant sound ==> Chain(g, path) && current in memo && forall n :: n in path ==> n in memo
      invariant sound ==> Weight(times, path) + memo[current].1 == memo[node].1 + TimeOf(times, current)
      decreases |memo| + 1 - |path|
    {
      if sound {
        ChainDistinct(g, path);
        NoDupBound(path, memo.Keys);
      }
      if |path| > |memo| {
        break;
      }
      var next := memo[current].0.value;
      if sound {
        assert Succeeds(g, times, memo, current);
        ChainSnoc(g, path, next);
        WeightAppend(times, path, [next]);
        assert Weight(times, [next]) == TimeOf(times, next) by { assert [next][1..] == []; }
      }
      path := path + [next];
      current := next;
    }
    if sound {
      assert Succeeds(g, times, memo, current);
    }
  }

  method FindLongestPath(g: Graph, times: Times, node: Id) returns (path: seq<Id>, total: real)
    requires Closed(g) && Mirrored(g) && NonNegative(times) && node in g.nodes
    ensures path != [] && path[0] == node
    ensures Acyclic(g) ==> Chain(g, path) && Weight(times, path) == total && Heaviest(g, times, node, total)
    ensures Acyclic(g) ==> Dependents(g, path[|path| - 1]) == {}
  {
    var memo;
    total, memo := LongestTimeFrom(g, times, node, map[], {}, []);
    path := PathFrom(g, times, node, memo);
  }

  // ---- The whole graph -----------------------------------------------------------------------------

  /** A component that needs nothing. */
  predicate Root(g: Graph, n: Id) { n in g.nodes && Deps(g, n) == {} }

  /** Every chain can be started at a root. */
  lemma {:induction false} FromRoot(g: Graph, p: seq<Id>) returns (q: seq<Id>)
    requires Closed(g) && Mirrored(g) && Acyclic(g) && Chain(g, p) && p[0] in g.nodes
    ensures Chain(g, q + p) && Root(g, (q + p)[0])
    decreases |g.nodes| - |p|
  {
    if Deps(g, p[0]) == {} {
      q := [];
      assert q + p == p;
    } else {
      var d :| d in Deps(g, p[0]);
      ChainCons(g, d, p);
      ChainDistinct(g, [d] + p);
      ChainInside(g, [d] + p);
      NoDupBound([d] + p, g.nodes);
      var r := FromRoot(g, [d] + p);
      q := r + [d];
      assert q + p == r + ([d] + p);
    }
  }

  method FindRoots(g: Graph) returns (roots: seq<Id>)
    ensures NoDup(roots) && forall n :: n in roots <==> Root(g, n)
  {
    var degree := CalculateOutDegrees(g);
    roots := Leaves(degree);
  }

  /** From a component that needs nothing to one that nothing needs. */
  ghost predicate Complete(g: Graph, p: seq<Id>) {
    Chain(g, p) && Root(g, p[0]) && Dependents(g, p[|p| - 1]) == {}
  }

  /** The heaviest chain of the graph, empty only for an empty graph. */
  method FindCriticalPathParallel(g: Graph, times: Times) returns (path: seq<Id>)
    requires Closed(g) && Mirrored(g) && NonNegative(times)
    ensures Acyclic(g) ==> (path == [] <==> g.nodes == {})
    ensures Acyclic(g) && path != [] ==> Complete(g, path)
    ensures Acyclic(g) ==> forall p :: Chain(g, p) && p[0] in g.nodes ==> Weight(times, p) <= Weight(times, path)
  {
    var roots := FindRoots(g);
    path := [];
    var best := 0.0;
    var i := 0;
    while i < |roots|
      invariant 0 <= i <= |roots| && (path == [] <==> i == 0)
      invariant Acyclic(g) && i > 0 ==> Complete(g, path) && Weight(times, path) == best
      invariant Acyclic(g) ==> forall j, p :: 0 <= j < i && Chain(g, p) && p[0] == roots[j] ==> Weight(times, p) <= best
    {
      assert Root(g, roots[i]);
      var candidate, time := FindLongestPath(g, times, roots[i]);
      if path == [] || time >= best {
        path, best := candidate, time;
      }
      i := i + 1;
    }
    if Acyclic(g) {
      RootsSuffice(g, times, roots, path);
    }
  }

  lemma {:induction false} RootsSuffice(g: Graph, times: Times, roots: seq<Id>, path: seq<Id>)
    requires Closed(g) && Mirrored(g) && NonNegative(times) && Acyclic(g) && forall n :: n in roots <==> Root(g, n)
    requires forall j, p :: 0 <= j < |roots| && Chain(g, p) && p[0] == roots[j] ==>
             Weight(times, p) <= Weight(times, path)
    ensures g.nodes == {} <==> roots == []
    ensures forall p :: Chain(g, p) && p[0] in g.nodes ==> Weight(times, p) <= Weight(times, path)
  {
    if g.nodes != {} {
      var n :| n in g.nodes;
      assert Chain(g, [n]);
      var q := FromRoot(g, [n]);
      assert (q + [n])[0] in roots;
    }
    assert roots != [] ==> Root(g, roots[0]);
    forall p | Chain(g, p) && p[0] in g.nodes ensures Weight(times, p) <= Weight(times, path) {
      var q := FromRoot(g, p);
      WeightAppend(times, q, p);
      WeightNonNegative(times, q);
      assert (q + p)[0] in roots;
    }
  }

  // ---- The backtracking walk ----------------------------------------------------------------------------

  /** The best of what is `done`; dependents that take no time are not followed. */
  ghost predicate BestPath(g: Graph, times: Times, done: set<Id>, path: seq<Id>, time: real) {
    && time >= 0.0 && Weight(times, path) == time && (path != [] ==> Chain(g, path) && path[0] in done)
    && forall d, w :: d in done && Heaviest(g, times, d, w) ==> w <= time
  }

  ghost predicate Weighed(g: Graph, times: Times, n: Id) { exists w :: Heaviest(g, times, n, w) }

  /** `path` is a chain from `n`, of weight `total`, and none is heavier. */
  ghost predicate Found(g: Graph, times: Times, n: Id, path: seq<Id>, total: real) {
    Chain(g, path) && path[0] == n && Weight(times, path) == total && Heaviest(g, times, n, total)
  }

  method FindLongestPathFrom(g: Graph, times: Times, node: Id, visited: set<Id>, ghost stack: seq<Id>)
    returns (path: seq<Id>, time: real)
    requires Closed(g) && Mirrored(g) && NonNegative(times) && node in g.nodes && visited <= g.nodes
    requires Acyclic(g) ==> StackOf(g, visited, stack, node)
    ensures path != [] && path[0] == node
    ensures Acyclic(g) ==> Found(g, times, node, path, time)
    decreases |g.nodes - visited|
  {
    assert Dependents(g, node) <= g.nodes;
    BestPathNone(g, times);
    hide Acyclic, Heaviest, StackOf, BestPath, Chain, NonNegative, Mirrored, Weight, TimeOf, Closed, Dependents, Found;
    if node in visited {
      if Acyclic(g) {
        NotOnStack(g, visited, stack, node);
      }
      return [node], 0.0;
    }
    Unvisited(g.nodes, visited, visited + {node}, node);
    ghost var all := Dependents(g, node);
    var dependents := Dependents(g, node);
    if dependents == {} {
      FoundAlone(g, times, node);
      return [node], TimeOf(times, node);
    }
    if Acyclic(g) {
      Stacked(g, visited, stack, node);
    }
    var longest: seq<Id> := [];
    var most := 0.0;
    ghost var done: set<Id> := {};
    while dependents != {}
      invariant dependents <= all && done == all - dependents
      invariant Acyclic(g) ==> BestPath(g, times, done, longest, most) && forall d :: d in done ==> Weighed(g, times, d)
      decreases dependents
    {
      var dependent :| dependent in dependents;
      var p, t := FindLongestPathFrom(g, times, dependent, visited + {node}, stack + [node]);
      if Acyclic(g) {
        BestPathMore(g, times, done, longest, most, dependent, p, t);
      }
      if t > most {
        most, longest := t, p;
      }
      dependents := dependents - {dependent};
      assert done + {dependent} == all - dependents;
      done := done + {dependent};
    }
    path, time := [node] + longest, TimeOf(times, node) + most;
    if Acyclic(g) {
      Prepended(g, times, node, longest, most);
    }
  }

  lemma {:induction false} FoundAlone(g: Graph, times: Times, node: Id)
    requires Dependents(g, node) == {}
    ensures Found(g, times, node, [node], TimeOf(times, node))
  {
    HeaviestAlone(g, times, node);
    assert [node][1..] == [] && Weight(times, [node]) == TimeOf(times, node) + Weight(times, []);
  }

  lemma {:induction false} BestPathNone(g: Graph, times: Times)
    ensures BestPath(g, times, {}, [], 0.0)
  {}

  lemma {:induction false} BestPathMore(g: Graph, times: Times, done: set<Id>, path: seq<Id>, time: real, d: Id,
                                        p: seq<Id>, t: real)
    requires BestPath(g, times, done, path, time) && Found(g, times, d, p, t)
    ensures Weighed(g, times, d)
    ensures if t > time then BestPath(g, times, done + {d}, p, t) else BestPath(g, times, done + {d}, path, time)
  {
    forall e, w | e == d && Heaviest(g, times, e, w) ensures w == t {
      HeaviestUnique(g, times, e, w, t);
    }
  }

  lemma {:induction false} Prepended(g: Graph, times: Times, node: Id, path: seq<Id>, time: real)
    requires NonNegative(times) && BestPath(g, times, Dependents(g, node), path, time)
    requires forall d :: d in Dependents(g, node) ==> Weighed(g, times, d)
    ensures Found(g, times, node, [node] + path, TimeOf(times, node) + time)
  {
    var q := [node] + path;
    assert q[1..] == path;
    if path != [] {
      ChainCons(g, node, path);
    }
    forall p | Chain(g, p) && p[0] == node ensures Weight(times, p) <= TimeOf(times, node) + time {
      if |p| > 1 {
        ChainTail(g, p);
        var w :| Heaviest(g, times, p[1], w);
      } else {
        assert p[1..] == [];
      }
    }
  }

  /** The sequential search starts from nothing, so it answers with the empty path when no time is taken. */
  method FindCriticalPath(g: Graph, times: Times) returns (path: seq<Id>)
    requires Closed(g) && Mirrored(g) && NonNegative(times)
    ensures Acyclic(g) && path != [] ==> Chain(g, path) && Root(g, path[0])
    ensures Acyclic(g) ==> forall p :: Chain(g, p) && p[0] in g.nodes ==> Weight(times, p) <= Weight(times, path)
  {
    var roots := FindRoots(g);
    path := [];
    var most := 0.0;
    var i := 0;
    while i < |roots|
      invariant 0 <= i <= |roots|
      invariant Acyclic(g) ==> Weight(times, path) == most && (path != [] ==> Chain(g, path) && Root(g, path[0]))
      invariant Acyclic(g) ==> forall j, p :: 0 <= j < i && Chain(g, p) && p[0] == roots[j] ==> Weight(times, p) <= most
    {
      assert Root(g, roots[i]);
      var candidate, time := FindLongestPathFrom(g, times, roots[i], {}, []);
      if time > most {
        path, most := candidate, time;
      }
      i := i + 1;
    }
    if Acyclic(g) {
      RootsSuffice(g, times, roots, path);
    }
  }
}
