/** Components by level: leaves first, each level's components needing only earlier ones. */
module Levels {
  import opened Prelude
  import opened ComponentGraphs

  const PARALLEL_THRESHOLD: nat := 20

  // ---- What a level is --------------------------------------------------------------------

  /** A chain of `k` dependencies starts at `n`. */
  ghost predicate HasChain(g: Graph, n: Id, k: nat)
    decreases k
  {
    n in g.nodes && (k > 0 ==> exists d :: d in Deps(g, n) && HasChain(g, d, k - 1))
  }

  /** The longest chain of dependencies from `n` has length `k`. */
  ghost predicate AtLevel(g: Graph, n: Id, k: nat) { HasChain(g, n, k) && !HasChain(g, n, k + 1) }

  /** The components whose chains are all shorter than `k`. */
  ghost function Below(g: Graph, k: nat): set<Id> { set n | n in g.nodes && !HasChain(g, n, k) }

  lemma {:induction false} ShorterChain(g: Graph, n: Id, k: nat)
    requires Closed(g) && HasChain(g, n, k + 1)
    ensures HasChain(g, n, k)
    decreases k
  {
    if k > 0 {
      var d :| d in Deps(g, n) && HasChain(g, d, k);
      ShorterChain(g, d, k - 1);
    }
  }

  lemma {:induction false} BelowGrows(g: Graph, k: nat)
    requires Closed(g)
    ensures Below(g, k) <= Below(g, k + 1)
    ensures forall n :: n in Below(g, k + 1) && n !in Below(g, k) <==> AtLevel(g, n, k)
  {
    forall n | HasChain(g, n, k + 1) ensures HasChain(g, n, k) {
      ShorterChain(g, n, k);
    }
  }

  /** A component is below `k + 1` when everything it needs is below `k`. */
  lemma {:induction false} BelowByDeps(g: Graph, n: Id, k: nat)
    requires Closed(g) && n in g.nodes
    ensures n in Below(g, k + 1) <==> Deps(g, n) <= Below(g, k)
  {
    assert Deps(g, n) <= g.nodes;
  }

  // ---- One step of the sort ------------------------------------------------------------------

  /** How many of the components of `current` are needed by `n`, counting repetitions. */
  function Touches(g: Graph, current: seq<Id>, n: Id): nat {
    if current == [] then 0 else (if n in Dependents(g, current[0]) then 1 else 0) + Touches(g, current[1..], n)
  }

  function Lowered(degree: nat, count: nat): nat { if degree > count then degree - count else 0 }

  /** The next level, and the degrees after it, whatever the degrees were. */
  ghost predicate Follows(g: Graph, current: seq<Id>, processed: set<Id>, degree: map<Id, nat>, next: seq<Id>,
                          degree': map<Id, nat>)
  {
    && NoDup(next) && degree'.Keys == degree.Keys
    && (forall n :: n in degree ==>
      degree'[n] == if n in processed then degree[n] else Lowered(degree[n], Touches(g, current, n)))
    && (forall n :: n in next <==> n in degree && n !in processed && Touches(g, current, n) > 0 && degree'[n] == 0)
  }

  lemma {:induction false} TouchesSnoc(g: Graph, current: seq<Id>, m: Id, n: Id)
    ensures Touches(g, current + [m], n) == Touches(g, current, n) + if n in Dependents(g, m) then 1 else 0
  {
    if current == [] {
      assert [m][1..] == [];
    } else {
      assert (current + [m])[1..] == current[1..] + [m];
      TouchesSnoc(g, current[1..], m, n);
    }
  }

  /** Halfway through the dependents of a component: `seen` of them are done. */
  ghost predicate Partly(g: Graph, current: seq<Id>, node: Id, seen: set<Id>, processed: set<Id>, degree: map<Id, nat>,
                         next: seq<Id>, degree': map<Id, nat>)
  {
    && NoDup(next) && degree'.Keys == degree.Keys
    && (forall n :: n in degree ==>
      degree'[n] == if n in processed then degree[n] else Lowered(degree[n], Seen(g, current, node, seen, n)))
    && (forall n :: n in next <==>
      n in degree && n !in processed && Seen(g, current, node, seen, n) > 0 && degree'[n] == 0)
  }

  function Seen(g: Graph, current: seq<Id>, node: Id, seen: set<Id>, n: Id): nat {
    Touches(g, current, n) + if n in seen then 1 else 0
  }

  method SerialNextLevel(g: Graph, current: seq<Id>, degree: map<Id, nat>, processed: set<Id>)
    returns (next: seq<Id>, degree': map<Id, nat>)
    ensures Follows(g, current, processed, degree, next, degree')
  {
    next, degree' := [], degree;
    var i := 0;
    while i < |current|
      invariant 0 <= i <= |current| && Follows(g, current[..i], processed, degree, next, degree')
    {
      var node := current[i];
      var dependents := Dependents(g, node);
      ghost var seen: set<Id> := {};
      while dependents != {}
        invariant dependents + seen == Dependents(g, node) && dependents !! seen
        invariant Partly(g, current[..i], node, seen, processed, degree, next, degree')
        decreases dependents
      {
        var dep :| dep in dependents;
        ghost var before, degrees := next, degree';
        if dep !in processed && dep in degree' {
          if degree'[dep] > 0 {
            degree' := degree'[dep := degree'[dep] - 1];
          }
          if degree'[dep] == 0 && dep !in next {
            next := next + [dep];
          }
        }
        OneSeen(g, current[..i], node, seen, dep, processed, degree, before, degrees, next, degree');
        seen := seen + {dep};
        dependents := dependents - {dep};
      }
      assert current[..i + 1] == current[..i] + [node];
      forall n ensures Touches(g, current[..i + 1], n) == Seen(g, current[..i], node, seen, n) {
        TouchesSnoc(g, current[..i], node, n);
      }
      i := i + 1;
    }
    assert current[..i] == current;
  }

  lemma {:induction false} OneSeen(g: Graph, current: seq<Id>, node: Id, seen: set<Id>, dep: Id, processed: set<Id>,
                                   degree: map<Id, nat>,
    next: seq<Id>, degree': map<Id, nat>, next': seq<Id>, degree'': map<Id, nat>)
    requires Partly(g, current, node, seen, processed, degree, next, degree') && dep !in seen
    requires if dep in processed || dep !in degree' then degree'' == degree' && next' == next
             else degree'' == degree'[dep := Lowered(degree'[dep], 1)]
                  && next' == if degree''[dep] == 0 && dep !in next then next + [dep] else next
    ensures Partly(g, current, node, seen + {dep}, processed, degree, next', degree'')
  {
    forall n ensures Seen(g, current, node, seen + {dep}, n) == Seen(g, current, node, seen, n) + if n == dep then 1
      else 0 {
    }
  }

  /** First count, over all components of the level at once, then lower. */
  method ParallelNextLevel(g: Graph, current: seq<Id>, degree: map<Id, nat>, processed: set<Id>)
    returns (next: seq<Id>, degree': map<Id, nat>)
    ensures Follows(g, current, processed, degree, next, degree')
  {
    var counts: map<Id, nat> := map[];
    var i := 0;
    while i < |current|
      invariant 0 <= i <= |current|
      invariant forall n :: n in counts <==> n !in processed && Touches(g, current[..i], n) > 0
      invariant forall n :: n in counts ==> counts[n] == Touches(g, current[..i], n)
    {
      var node := current[i];
      var dependents := Dependents(g, node);
      ghost var seen: set<Id> := {};
      while dependents != {}
        invariant dependents + seen == Dependents(g, node) && dependents !! seen
        invariant forall n :: n in counts <==> n !in processed && Seen(g, current[..i], node, seen, n) > 0
        invariant forall n :: n in counts ==> counts[n] == Seen(g, current[..i], node, seen, n)
        decreases dependents
      {
        var dep :| dep in dependents;
        if dep !in processed {
          counts := counts[dep := (if dep in counts then counts[dep] else 0) + 1];
        }
        seen := seen + {dep};
        dependents := dependents - {dep};
      }
      assert current[..i + 1] == current[..i] + [node];
      forall n ensures Touches(g, current[..i + 1], n) == Seen(g, current[..i], node, seen, n) {
        TouchesSnoc(g, current[..i], node, n);
      }
      i := i + 1;
    }
    assert current[..i] == current;
    next, degree' := [], degree;
    var ids := counts.Keys;
    while ids != {}
      invariant ids <= counts.Keys && NoDup(next) && degree'.Keys == degree.Keys
      invariant forall n :: n in degree ==>
                degree'[n] == if n in counts && n !in ids then Lowered(degree[n], counts[n]) else degree[n]
      invariant forall n :: n in next <==> n in degree && n in counts && n !in ids && degree'[n] == 0
      decreases ids
    {
      var id :| id in ids;
      if id in degree' {
        degree' := degree'[id := Lowered(degree'[id], counts[id])];
        if degree'[id] == 0 {
          next := next + [id];
        }
      }
      ids := ids - {id};
    }
  }

  /** The serial and the parallel step give the same degrees and the same components, on any input. */
  lemma {:induction false} StepsAgree(g: Graph, current: seq<Id>, processed: set<Id>, degree: map<Id, nat>,
    next: seq<Id>, degree': map<Id, nat>, next': seq<Id>, degree'': map<Id, nat>)
    requires Follows(g, current, processed, degree, next, degree') &&
             Follows(g, current, processed, degree, next', degree'')
    ensures degree' == degree'' && |next| == |next'| && forall n :: n in next <==> n in next'
  {
    assert forall n :: n in degree ==> degree'[n] == degree''[n];
    SameSize(next, next');
  }

  lemma {:induction false} SameSize(a: seq<Id>, b: seq<Id>)
    requires NoDup(a) && NoDup(b) && forall n :: n in a <==> n in b
    ensures |a| == |b|
  {
    var u, v := set n | n in a, set n | n in b;
    assert u == v;
    NoDupCount(a, u);
    NoDupCount(b, v);
  }

  lemma {:induction false} NoDupCount(a: seq<Id>, u: set<Id>)
    requires NoDup(a) && forall n :: n in a <==> n in u
    ensures |a| == |u|
  {
    if a != [] {
      assert a[0] !in a[1..];
      NoDupCount(a[1..], u - {a[0]});
    }
  }

  // ---- The sort -------------------------------------------------------------------------------------

  datatype SortError = CircularDependency(pair: seq<Id>) | NoLeaves | Incomplete(processed: nat, total: nat)

  method CalculateOutDegrees(g: Graph) returns (degrees: map<Id, nat>)
    ensures degrees.Keys == g.nodes && forall n :: n in g.nodes ==> degrees[n] == |Deps(g, n)|
  {
    degrees := map[];
    var ids := g.nodes;
    while ids != {}
      invariant ids <= g.nodes && degrees.Keys == g.nodes - ids
      invariant forall n :: n in degrees ==> degrees[n] == |Deps(g, n)|
      decreases ids
    {
      var id :| id in ids;
      degrees := degrees[id := |Deps(g, id)|];
      ids := ids - {id};
    }
  }

  /** `level` holds exactly the components of level `k`. */
  ghost predicate IsLevel(g: Graph, level: seq<Id>, k: nat) {
    NoDup(level) && forall n :: n in level <==> AtLevel(g, n, k)
  }

  /** Degrees while level `k` is the current one: what is still to come of what a component needs. */
  ghost predicate Degrees(g: Graph, degree: map<Id, nat>, k: nat) {
    degree.Keys == g.nodes && forall n :: n in g.nodes && n !in Below(g, k) ==> degree[n] == |Deps(g, n) - Below(g, k)|
  }

  lemma {:induction false} FirstLevel(g: Graph, degree: map<Id, nat>, level: seq<Id>)
    requires Closed(g) && degree.Keys == g.nodes && forall n :: n in g.nodes ==> degree[n] == |Deps(g, n)|
    requires NoDup(level) && forall n :: n in level <==> n in degree && degree[n] == 0
    ensures Below(g, 0) == {} && Degrees(g, degree, 0) && IsLevel(g, level, 0)
  {
    assert forall n :: Deps(g, n) - {} == Deps(g, n);
    forall n ensures n in level <==> AtLevel(g, n, 0) {
      if n in g.nodes {
        assert HasChain(g, n, 1) <==> exists d :: d in Deps(g, n) && HasChain(g, d, 0);
        assert |Deps(g, n)| == 0 <==> Deps(g, n) == {};
        if d :| d in Deps(g, n) {
          assert d in g.nodes && HasChain(g, d, 0);
        }
      }
    }
  }

  ghost function Needed(g: Graph, current: seq<Id>, n: Id): set<Id> { set d | d in Deps(g, n) && d in current }

  /** Touching counts the dependencies in the level. */
  lemma {:induction false} TouchesCount(g: Graph, current: seq<Id>, n: Id)
    requires Mirrored(g) && NoDup(current)
    ensures Touches(g, current, n) == |Needed(g, current, n)|
  {
    var s := Needed(g, current, n);
    if current == [] {
      assert s == {};
    } else {
      var c := current[0];
      NoDupCons(c, current[1..]);
      assert current == [c] + current[1..];
      TouchesCount(g, current[1..], n);
      var t := Needed(g, current[1..], n);
      assert n in Dependents(g, c) <==> c in Deps(g, n);
      if c in Deps(g, n) {
        assert s == t + {c} && c !in t;
      } else {
        assert s == t;
      }
    }
  }

  lemma {:induction false} DegreesStep(g: Graph, current: seq<Id>, degree: map<Id, nat>, next: seq<Id>,
                                       degree': map<Id, nat>, k: nat)
    requires Closed(g) && Mirrored(g) && Degrees(g, degree, k) && IsLevel(g, current, k)
    requires Follows(g, current, Below(g, k + 1), degree, next, degree')
    ensures Degrees(g, degree', k + 1)
  {
    BelowGrows(g, k);
    forall n | n in g.nodes && n !in Below(g, k + 1) ensures degree'[n] == |Deps(g, n) - Below(g, k + 1)| {
      TouchesCount(g, current, n);
      var now, later := Needed(g, current, n), Deps(g, n) - Below(g, k + 1);
      assert Deps(g, n) <= g.nodes;
      assert Deps(g, n) - Below(g, k) == later + now && later !! now;
      assert |later + now| == |later| + |now|;
      assert n !in Below(g, k) && degree[n] == |later| + |now|;
    }
  }

  lemma {:induction false} LevelStep(g: Graph, current: seq<Id>, degree: map<Id, nat>, next: seq<Id>,
                                     degree': map<Id, nat>, k: nat)
    requires Closed(g) && Mirrored(g) && Degrees(g, degree, k) && IsLevel(g, current, k)
    requires Follows(g, current, Below(g, k + 1), degree, next, degree')
    ensures IsLevel(g, next, k + 1)
  {
    DegreesStep(g, current, degree, next, degree', k);
    BelowGrows(g, k);
    BelowGrows(g, k + 1);
    forall n ensures n in next <==> AtLevel(g, n, k + 1) {
      if n in g.nodes && n !in Below(g, k + 1) {
        BelowByDeps(g, n, k + 1);
        BelowByDeps(g, n, k);
        assert |Deps(g, n) - Below(g, k + 1)| == 0 <==> Deps(g, n) - Below(g, k + 1) == {};
        TouchesCount(g, current, n);
        if Deps(g, n) <= Below(g, k + 1) {
          assert Deps(g, n) <= g.nodes;
          var d :| d in Deps(g, n) && d !in Below(g, k);
          assert d in current;
          assert d in Needed(g, current, n);
        }
      }
    }
  }

  /** In an acyclic graph the first level without components comes after every component. */
  lemma {:induction false} EmptyLevelLast(g: Graph, order: seq<Id>, k: nat)
    requires Closed(g) && Ordered(g, order) && (forall n :: n in order <==> n in g.nodes) && forall n ::
             !AtLevel(g, n, k)
    ensures Below(g, k) == g.nodes
  {
    BelowGrows(g, k);
    forall i | 0 <= i < |order| ensures order[i] in Below(g, k) {
      AllBelow(g, order, k, i);
    }
  }

  lemma {:induction false} AllBelow(g: Graph, order: seq<Id>, k: nat, i: nat)
    requires Closed(g) && Ordered(g, order) && (forall n :: n in order ==> n in g.nodes) &&
             Below(g, k) == Below(g, k + 1) && i < |order|
    ensures order[i] in Below(g, k)
    decreases i
  {
    BelowByDeps(g, order[i], k);
    forall d | d in Deps(g, order[i]) ensures d in Below(g, k) {
      var j :| 0 <= j < i && order[j] == d;
      AllBelow(g, order, k, j);
    }
  }

  ghost predicate AllLevels(g: Graph, levels: seq<seq<Id>>) {
    forall k :: 0 <= k < |levels| ==> levels[k] != [] && IsLevel(g, levels[k], k)
  }

  /** Level by level. The graph counts its insertions in `count`. */
  method Sort(g: Graph, count: nat) returns (r: Result<seq<seq<Id>>, SortError>, ghost order: seq<Id>)
    requires Closed(g) && Mirrored(g)
    ensures r.Ok? <==> Acyclic(g) && count == |g.nodes|
    ensures r.Ok? ==> AllLevels(g, r.value) && Below(g, |r.value|) == g.nodes
    ensures r.Ok? ==> Ordered(g, order) && forall n :: n in order <==> n in g.nodes
    ensures r.Err? && r.error.CircularDependency? ==> BackEdge(g, r.error.pair)
  {
    var v;
    v, order := Validate(g);
    if v.Err? {
      return Err(CircularDependency(v.error)), order;
    }
    var degree := CalculateOutDegrees(g);
    var current := Leaves(degree);
    FirstLevel(g, degree, current);
    if current == [] && count != 0 {
      EmptyLevelLast(g, order, 0);
      return Err(NoLeaves), order;
    }
    var levels, processed := SortFrom(g, current, degree);
    EmptyLevelLast(g, order, |levels|);
    if |processed| != count {
      return Err(Incomplete(|processed|, count)), order;
    }
    r := Ok(levels);
  }

  method SortFrom(g: Graph, leaves: seq<Id>, degrees: map<Id, nat>) returns (levels: seq<seq<Id>>, processed: set<Id>)
    requires Closed(g) && Mirrored(g) && Degrees(g, degrees, 0) && IsLevel(g, leaves, 0)
    ensures AllLevels(g, levels) && processed == Below(g, |levels|) && forall n :: !AtLevel(g, n, |levels|)
  {
    hide Closed, Mirrored, Below, IsLevel, Degrees, AllLevels, Follows, AtLevel;
    var current, degree := leaves, degrees;
    processed, levels := {}, [];
    NoLevels(g);
    while current != []
      invariant AllLevels(g, levels) && processed == Below(g, |levels|) && processed <= g.nodes
      invariant Degrees(g, degree, |levels|) && IsLevel(g, current, |levels|)
      decreases g.nodes - processed
    {
      OneMoreLevel(g, levels, current);
      processed := MarkAll(processed, current);
      var next, degree' := NextLevel(g, current, degree, processed);
      DegreesStep(g, current, degree, next, degree', |levels|);
      LevelStep(g, current, degree, next, degree', |levels|);
      levels, current, degree := levels + [current], next, degree';
    }
    NoneAt(g, current, |levels|);
  }

  method NextLevel(g: Graph, current: seq<Id>, degree: map<Id, nat>, processed: set<Id>)
    returns (next: seq<Id>, degree': map<Id, nat>)
    ensures Follows(g, current, processed, degree, next, degree')
  {
    if |current| > PARALLEL_THRESHOLD {
      next, degree' := ParallelNextLevel(g, current, degree, processed);
    } else {
      next, degree' := SerialNextLevel(g, current, degree, processed);
    }
  }

  method Leaves(degree: map<Id, nat>) returns (leaves: seq<Id>)
    ensures NoDup(leaves) && forall n :: n in leaves <==> n in degree && degree[n] == 0
  {
    leaves := [];
    var ids := degree.Keys;
    while ids != {}
      invariant ids <= degree.Keys && NoDup(leaves)
      invariant forall n :: n in leaves <==> n in degree && n !in ids && degree[n] == 0
      decreases ids
    {
      var id :| id in ids;
      if degree[id] == 0 {
        leaves := leaves + [id];
      }
      ids := ids - {id};
    }
  }

  method MarkAll(processed: set<Id>, current: seq<Id>) returns (processed': set<Id>)
    ensures processed' == processed + set n | n in current
  {
    processed' := processed;
    var i := 0;
    while i < |current|
      invariant 0 <= i <= |current| && processed' == processed + set n | n in current[..i]
    {
      processed' := processed' + {current[i]};
      i := i + 1;
    }
    assert current[..i] == current;
  }

  lemma {:induction false} NoLevels(g: Graph)
    ensures AllLevels(g, []) && Below(g, 0) == {}
  {}

  lemma {:induction false} NoneAt(g: Graph, current: seq<Id>, k: nat)
    requires IsLevel(g, current, k) && current == []
    ensures forall n :: !AtLevel(g, n, k)
  {
    forall n ensures !AtLevel(g, n, k) {
      assert n !in current;
    }
  }

  lemma {:induction false} OneMoreLevel(g: Graph, levels: seq<seq<Id>>, current: seq<Id>)
    requires Closed(g) && AllLevels(g, levels) && IsLevel(g, current, |levels|) && current != []
    ensures AllLevels(g, levels + [current])
    ensures Below(g, |levels|) < Below(g, |levels| + 1) <= g.nodes
    ensures Below(g, |levels| + 1) == Below(g, |levels|) + set n | n in current
  {
    BelowGrows(g, |levels|);
    assert current[0] in current;
  }
}
