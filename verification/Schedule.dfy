/** Render batches and what the batched schedule costs. */
module Schedule {
  import opened Prelude
  import opened ComponentGraphs
  import opened Levels
  import opened Critical

  datatype Batch = Batch(level: nat, components: seq<Id>, time: real, canDefer: bool)

  function Larger(a: real, b: real): real { if a < b then b else a }

  /** The longest time in a level; components without an analysis take none. */
  function Longest(times: Times, level: seq<Id>): real {
    if level == [] then 0.0 else Larger(TimeOf(times, level[0]), Longest(times, level[1..]))
  }

  function SumLongest(times: Times, levels: seq<seq<Id>>): real {
    if levels == [] then 0.0 else Longest(times, levels[0]) + SumLongest(times, levels[1..])
  }

  function Flat(levels: seq<seq<Id>>): seq<Id> { if levels == [] then [] else levels[0] + Flat(levels[1..]) }

  // ---- Bounds -------------------------------------------------------------------------------

  lemma {:induction false} LongestFacts(times: Times, level: seq<Id>)
    requires NonNegative(times)
    ensures 0.0 <= Longest(times, level) <= Weight(times, level)
    ensures forall n :: n in level ==> TimeOf(times, n) <= Longest(times, level)
  {
    if level != [] {
      LongestFacts(times, level[1..]);
      WeightNonNegative(times, level[1..]);
      assert forall n :: n in level <==> n == level[0] || n in level[1..];
    }
  }

  lemma {:induction false} SumLongestFrom(times: Times, levels: seq<seq<Id>>, i: nat, j: nat)
    requires NonNegative(times) && i <= j <= |levels|
    ensures SumLongest(times, levels[j..]) <= SumLongest(times, levels[i..])
    decreases j - i
  {
    if i < j {
      LongestFacts(times, levels[i]);
      assert levels[i..][1..] == levels[i + 1..];
      SumLongestFrom(times, levels, i + 1, j);
    }
  }

  lemma {:induction false} ChainShorter(g: Graph, n: Id, j: nat, k: nat)
    requires Closed(g) && HasChain(g, n, k) && j <= k
    ensures HasChain(g, n, j)
    decreases k - j
  {
    if j < k {
      ShorterChain(g, n, k - 1);
      ChainShorter(g, n, j, k - 1);
    }
  }

  lemma {:induction false} LevelUnique(g: Graph, n: Id, j: nat, k: nat)
    requires Closed(g) && AtLevel(g, n, j) && AtLevel(g, n, k)
    ensures j == k
  {
    if j < k {
      ChainShorter(g, n, j + 1, k);
    } else if k < j {
      ChainShorter(g, n, k + 1, j);
    }
  }

  /** Every component has its level among those of the sort. */
  lemma {:induction false} LevelOf(g: Graph, levels: seq<seq<Id>>, n: Id) returns (k: nat)
    requires Closed(g) && AllLevels(g, levels) && Below(g, |levels|) == g.nodes && n in g.nodes
    ensures k < |levels| && AtLevel(g, n, k) && n in levels[k]
  {
    assert n in Below(g, |levels|);
    k := 0;
    while HasChain(g, n, k + 1)
      invariant HasChain(g, n, k)
      invariant k < |levels|
      decreases |levels| - k
    {
      k := k + 1;
    }
  }

  /** A chain meets each level at most once, so it costs no more than the longest of each. */
  lemma {:induction false} ChainWithinLevels(g: Graph, times: Times, levels: seq<seq<Id>>, p: seq<Id>, k: nat)
    requires Closed(g) && Mirrored(g) && NonNegative(times) && AllLevels(g, levels) && Below(g, |levels|) == g.nodes
    requires Chain(g, p) && k < |levels| && AtLevel(g, p[0], k)
    ensures Weight(times, p) <= SumLongest(times, levels[k..])
    decreases |p|
  {
    LongestFacts(times, levels[k]);
    assert p[0] in levels[k] && levels[k..][1..] == levels[k + 1..];
    if |p| > 1 {
      ChainTail(g, p);
      assert p[0] in Deps(g, p[1]);
      assert p[1] in g.nodes;
      assert HasChain(g, p[1], k + 1);
      var j := LevelOf(g, levels, p[1]);
      if j < k + 1 {
        ChainShorter(g, p[1], j + 1, k + 1);
      }
      ChainWithinLevels(g, times, levels, p[1..], j);
      SumLongestFrom(times, levels, k + 1, j);
    } else {
      assert p[1..] == [];
      SumLongestFrom(times, levels, k + 1, |levels|);
      assert levels[|levels|..] == [];
    }
  }

  lemma {:induction false} SumLongestFlat(times: Times, levels: seq<seq<Id>>)
    requires NonNegative(times)
    ensures 0.0 <= SumLongest(times, levels) <= Weight(times, Flat(levels))
  {
    if levels != [] {
      LongestFacts(times, levels[0]);
      SumLongestFlat(times, levels[1..]);
      WeightAppend(times, levels[0], Flat(levels[1..]));
    }
  }

  /** No component is in two levels. */
  lemma {:induction false} FlatDistinct(g: Graph, levels: seq<seq<Id>>, k: nat)
    requires Closed(g) && AllLevels(g, levels) && k <= |levels|
    ensures NoDup(Flat(levels[k..]))
    ensures forall n :: n in Flat(levels[k..]) ==> exists j :: k <= j < |levels| && AtLevel(g, n, j)
    decreases |levels| - k
  {
    if k < |levels| {
      assert levels[k..][1..] == levels[k + 1..];
      FlatDistinct(g, levels, k + 1);
      var a, b := levels[k], Flat(levels[k + 1..]);
      forall n | n in a ensures n !in b {
        if n in b {
          var j :| k + 1 <= j < |levels| && AtLevel(g, n, j);
          LevelUnique(g, n, j, k);
        }
      }
      NoDupJoin(a, b);
      forall n | n in Flat(levels[k..]) ensures exists j :: k <= j < |levels| && AtLevel(g, n, j) {
        if n in a {
          assert AtLevel(g, n, k);
        }
      }
    }
  }

  /** Distinct components cost no more than all that are analysed, in any order. */
  lemma {:induction false} WeightWithin(times: Times, a: seq<Id>, all: seq<Id>)
    requires NonNegative(times) && NoDup(a) && forall n :: n in times ==> n in all
    ensures Weight(times, a) <= Weight(times, all)
    decreases |a|
  {
    if a == [] {
      WeightNonNegative(times, all);
    } else {
      var n := a[0];
      NoDupCons(n, a[1..]);
      assert a == [n] + a[1..];
      if n in times {
        var i :| 0 <= i < |all| && all[i] == n;
        var x, y := all[..i], all[i + 1..];
        assert all == x + [n] + y;
        WeightAppend(times, x + [n], y);
        WeightAppend(times, x, [n]);
        WeightAppend(times, x, y);
        assert [n][1..] == [];
        var rest := times - {n};
        forall m | m in rest ensures m in x + y {
          assert m in all;
        }
        WeightWithin(rest, a[1..], x + y);
        WeightSkips(times, n, a[1..]);
        WeightLess(times, n, x + y);
      } else {
        WeightWithin(times, a[1..], all);
      }
    }
  }

  lemma {:induction false} WeightSkips(times: Times, n: Id, a: seq<Id>)
    requires n !in a
    ensures Weight(times - {n}, a) == Weight(times, a)
  {
    if a != [] {
      assert a[0] in a;
      WeightSkips(times, n, a[1..]);
    }
  }

  lemma {:induction false} WeightLess(times: Times, n: Id, a: seq<Id>)
    requires NonNegative(times)
    ensures Weight(times - {n}, a) <= Weight(times, a)
  {
    if a != [] {
      WeightLess(times, n, a[1..]);
    }
  }

  // ---- Batches and their cost -------------------------------------------------------------------

  /** The time of the slowest: one of them takes it, unless none takes any, and none takes longer. */
  ghost predicate Slowest(times: Times, components: seq<Id>, time: real) {
    && (time == 0.0 || exists n :: n in components && n in times && times[n] == time)
    && time >= 0.0 && forall n :: n in components && n in times ==> times[n] <= time
  }

  lemma {:induction false} LongestSlowest(times: Times, level: seq<Id>)
    requires NonNegative(times)
    ensures Slowest(times, level, Longest(times, level))
  {
    LongestFacts(times, level);
    if level != [] {
      LongestSlowest(times, level[1..]);
      var time := Longest(times, level[1..]);
      assert level[0] in level;
      if Longest(times, level) == time && time != 0.0 {
        var n :| n in level[1..] && n in times && times[n] == time;
        assert n in level;
      }
    }
  }

  method MakeBatch(idx: nat, components: seq<Id>, times: Times) returns (b: Batch)
    requires NonNegative(times)
    ensures b == Batch(idx, components, Longest(times, components), idx > 0)
    ensures Slowest(times, components, b.time)
  {
    var time := 0.0;
    var i := 0;
    while i < |components|
      invariant 0 <= i <= |components| && Larger(time, Longest(times, components[i..])) == Longest(times, components) &&
                time >= 0.0
    {
      assert components[i..][1..] == components[i + 1..];
      LongestFacts(times, components[i + 1..]);
      if components[i] in times {
        time := Larger(time, times[components[i]]);
      }
      i := i + 1;
    }
    b := Batch(idx, components, time, idx > 0);
    LongestSlowest(times, components);
  }

  method CreateBatches(levels: seq<seq<Id>>, times: Times) returns (batches: seq<Batch>)
    requires NonNegative(times)
    ensures |batches| == |levels|
    ensures forall i :: 0 <= i < |levels| ==> batches[i] == Batch(i, levels[i], Longest(times, levels[i]), i > 0)
  {
    batches := [];
    while |batches| < |levels|
      invariant |batches| <= |levels|
      invariant forall i :: 0 <= i < |batches| ==> batches[i] == Batch(i, levels[i], Longest(times, levels[i]), i > 0)
    {
      var b := MakeBatch(|batches|, levels[|batches|], times);
      batches := batches + [b];
    }
  }

  /** A batch holds exactly the components of its level and lasts as long as the slowest of them. */
  ghost predicate BatchAt(g: Graph, times: Times, b: Batch, i: nat) {
    && b.level == i && (b.canDefer <==> i > 0) && b.components != [] && NoDup(b.components)
    && (forall n :: n in b.components <==> AtLevel(g, n, i)) && Slowest(times, b.components, b.time)
  }

  /** One batch a level, and every component in exactly one of them. */
  ghost predicate Scheduled(g: Graph, times: Times, batches: seq<Batch>) {
    && (forall i :: 0 <= i < |batches| ==> BatchAt(g, times, batches[i], i))
    && (forall n :: n in g.nodes ==> exists i :: 0 <= i < |batches| && n in batches[i].components)
    && forall i, j, n :: 0 <= i < j < |batches| && n in batches[i].components ==> n !in batches[j].components
  }

  lemma {:induction false} LevelsScheduled(g: Graph, times: Times, levels: seq<seq<Id>>, batches: seq<Batch>)
    requires Closed(g) && NonNegative(times) && AllLevels(g, levels) && Below(g, |levels|) == g.nodes
    requires |batches| == |levels|
    requires forall i :: 0 <= i < |levels| ==> batches[i] == Batch(i, levels[i], Longest(times, levels[i]), i > 0)
    ensures Scheduled(g, times, batches)
  {
    hide Below, HasChain, Longest;
    forall i | 0 <= i < |batches| ensures BatchAt(g, times, batches[i], i) {
      assert IsLevel(g, levels[i], i);
      LongestSlowest(times, levels[i]);
    }
    hide Slowest;
    forall n | n in g.nodes ensures exists i :: 0 <= i < |batches| && n in batches[i].components {
      var k := LevelOf(g, levels, n);
    }
    forall i, j, n | 0 <= i < j < |batches| && n in batches[i].components ensures n !in batches[j].components {
      if n in batches[j].components {
        LevelUnique(g, n, i, j);
      }
    }
  }

  /** What the batches take, one after the other. */
  function Cost(batches: seq<Batch>): real { if batches == [] then 0.0 else batches[0].time + Cost(batches[1..]) }

  lemma {:induction false} CostSnoc(batches: seq<Batch>, b: Batch)
    ensures Cost(batches + [b]) == Cost(batches) + b.time
  {
    if batches == [] {
      assert [b][1..] == [];
    } else {
      assert (batches + [b])[1..] == batches[1..] + [b];
      CostSnoc(batches[1..], b);
    }
  }

  lemma {:induction false} CostNext(batches: seq<Batch>, i: nat)
    requires i < |batches|
    ensures Cost(batches[..i + 1]) == Cost(batches[..i]) + batches[i].time
  {
    assert batches[..i + 1] == batches[..i] + [batches[i]];
    CostSnoc(batches[..i], batches[i]);
  }

  lemma {:induction false} CostIs(times: Times, levels: seq<seq<Id>>, batches: seq<Batch>)
    requires |batches| == |levels| && forall i :: 0 <= i < |levels| ==> batches[i].time == Longest(times, levels[i])
    ensures Cost(batches) == SumLongest(times, levels)
  {
    if levels != [] {
      forall i | 0 <= i < |levels| - 1 ensures batches[1..][i].time == Longest(times, levels[1..][i]) {
        assert batches[1..][i] == batches[i + 1];
      }
      CostIs(times, levels[1..], batches[1..]);
    }
  }

  /** Critical path <= batched schedule <= rendering everything in turn. */
  lemma {:induction false} ScheduleBounds(g: Graph, times: Times, levels: seq<seq<Id>>, path: seq<Id>, all: seq<Id>)
    requires Closed(g) && Mirrored(g) && NonNegative(times) && AllLevels(g, levels) && Below(g, |levels|) == g.nodes
    requires (path != [] ==> Chain(g, path) && path[0] in g.nodes) && forall n :: n in times ==> n in all
    ensures Weight(times, path) <= SumLongest(times, levels) <= Weight(times, all)
  {
    assert levels[0..] == levels;
    FlatDistinct(g, levels, 0);
    SumLongestFlat(times, levels);
    WeightWithin(times, Flat(levels), all);
    if path != [] {
      var k := LevelOf(g, levels, path[0]);
      ChainWithinLevels(g, times, levels, path, k);
      SumLongestFrom(times, levels, 0, k);
    }
  }

  datatype Plan = Plan(criticalPath: seq<Id>, batches: seq<Batch>, sequential: real, parallel: real, improvement: real)

  /** A complete chain, and none is heavier; empty only for the empty graph. */
  ghost predicate CriticalPath(g: Graph, times: Times, path: seq<Id>) {
    && (path == [] <==> g.nodes == {}) && (path != [] ==> Complete(g, path))
    && forall p :: Chain(g, p) && p[0] in g.nodes ==> Weight(times, p) <= Weight(times, path)
  }

  /** What a plan claims: its own batches' cost against rendering every analysed component in turn. */
  ghost predicate Planned(g: Graph, times: Times, all: seq<Id>, plan: Plan) {
    && CriticalPath(g, times, plan.criticalPath) && Scheduled(g, times, plan.batches)
    && plan.parallel == Cost(plan.batches) && plan.sequential == Weight(times, all)
    && plan.improvement == plan.sequential - plan.parallel
  }

  lemma {:induction false} WeightNext(times: Times, all: seq<Id>, i: nat)
    requires i < |all| && all[i] in times
    ensures Weight(times, all[i..]) == times[all[i]] + Weight(times, all[i + 1..])
  {
    assert all[i..][1..] == all[i + 1..];
  }

  lemma {:induction false} NothingSpent(times: Times, all: seq<Id>, batches: seq<Batch>)
    ensures Weight(times, all[0..]) == Weight(times, all) && Weight(times, all[|all|..]) == 0.0
    ensures Cost(batches[..0]) == 0.0 && batches[..|batches|] == batches
  {
    assert all[0..] == all;
  }

  lemma {:induction false} CriticalIs(g: Graph, times: Times, path: seq<Id>)
    requires Acyclic(g)
    requires Acyclic(g) ==> (path == [] <==> g.nodes == {})
    requires Acyclic(g) && path != [] ==> Complete(g, path)
    requires Acyclic(g) ==> forall p :: Chain(g, p) && p[0] in g.nodes ==> Weight(times, p) <= Weight(times, path)
    ensures CriticalPath(g, times, path)
  {
    hide Chain, Complete, Weight;
  }

  lemma {:induction false} PathBounds(g: Graph, times: Times, levels: seq<seq<Id>>, path: seq<Id>, batches: seq<Batch>,
                                      all: seq<Id>)
    requires Closed(g) && Mirrored(g) && NonNegative(times) && AllLevels(g, levels) && Below(g, |levels|) == g.nodes
    requires CriticalPath(g, times, path) && Cost(batches) == SumLongest(times, levels)
    requires forall n :: n in times ==> n in all
    ensures Weight(times, path) <= Cost(batches) <= Weight(times, all)
  {
    ScheduleBounds(g, times, levels, path, all);
    hide *;
  }

  lemma {:induction false} BatchTimes(times: Times, levels: seq<seq<Id>>, batches: seq<Batch>)
    requires |batches| == |levels|
    requires forall i :: 0 <= i < |levels| ==> batches[i] == Batch(i, levels[i], Longest(times, levels[i]), i > 0)
    ensures Cost(batches) == SumLongest(times, levels)
  {
    hide Longest, Cost, SumLongest;
    CostIs(times, levels, batches);
  }

  lemma {:induction false} PlanIs(g: Graph, times: Times, all: seq<Id>, path: seq<Id>, batches: seq<Batch>,
                                  sequential: real, parallel: real)
    requires CriticalPath(g, times, path) && Scheduled(g, times, batches)
    requires parallel == Cost(batches) && sequential == Weight(times, all)
    ensures Planned(g, times, all, Plan(path, batches, sequential, parallel, sequential - parallel))
  {}

  /** The pipeline over a valid graph, given the analysed times in the order `all`. */
  method Optimize(g: Graph, count: nat, times: Times, all: seq<Id>) returns (r: Result<Plan, SortError>)
    requires Closed(g) && Mirrored(g) && NonNegative(times) && NoDup(all) && forall n :: n in all <==> n in times
    ensures r.Ok? <==> Acyclic(g) && count == |g.nodes|
    ensures r.Ok? ==> Planned(g, times, all, r.value)
    ensures r.Ok? ==> Weight(times, r.value.criticalPath) <= r.value.parallel <= r.value.sequential
  {
    hide *;
    var sorted, order := Sort(g, count);
    if sorted.Err? {
      return Err(sorted.error);
    }
    var levels := sorted.value;
    var batches := CreateBatches(levels, times);
    var path := FindCriticalPathParallel(g, times);
    LevelsScheduled(g, times, levels, batches);
    CriticalIs(g, times, path);
    BatchTimes(times, levels, batches);
    PathBounds(g, times, levels, path, batches, all);
    NothingSpent(times, all, batches);
    var sequential := 0.0;
    var i := 0;
    while i < |all|
      invariant 0 <= i <= |all| && sequential + Weight(times, all[i..]) == Weight(times, all)
    {
      WeightNext(times, all, i);
      sequential := sequential + times[all[i]];
      i := i + 1;
    }
    var parallel := 0.0;
    i := 0;
    while i < |batches|
      invariant 0 <= i <= |batches| && parallel == Cost(batches[..i])
    {
      CostNext(batches, i);
      parallel := parallel + batches[i].time;
      i := i + 1;
    }
    PlanIs(g, times, all, path, batches, sequential, parallel);
    r := Ok(Plan(path, batches, sequential, parallel, sequential - parallel));
  }
}
