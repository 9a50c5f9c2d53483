/** Delivering a batch or a rebuild again changes nothing, node for node. */
module ListReplays {
  import opened Prelude
  import opened ListSink
  import opened ListLaws
  import opened ListDelta

  // ---- A full rebuild ------------------------------------------------------------------------------

  lemma {:induction false} KeepsAll(l: List, keep: seq<Key>)
    requires forall k :: k in l.rowsByKey ==> k in keep
    ensures KeepOnly(l, keep) == l
  {
    assert (set k | k in l.rowsByKey && k !in keep) == {};
    RetainNothing(l.children);
    assert l.rowsByKey - {} == l.rowsByKey;
  }

  /** The second of two equal rebuilds finds every row as it wants it. */
  lemma {:induction false} RebuildReplays(l: List, rows: seq<Row>)
    requires Valid(l) && NoDup(RowKeys(rows))
    ensures ApplyReconcile(l, rows).Some? && Valid(ApplyReconcile(l, rows).value)
    ensures ApplyReconcile(ApplyReconcile(l, rows).value, rows) == ApplyReconcile(l, rows)
  {
    var kept := KeepOnly(l, RowKeys(rows));
    KeepFacts(l, RowKeys(rows));
    assert kept.children + [] + [] == kept.children;
    var a, q, b := FoldShape(kept, rows, None, None, kept.children, [], []);
    var out := FoldUpsert(kept, rows, None, None).value;
    assert forall k :: k in kept.rowsByKey ==> k in RowKeys(rows);
    KeepsAll(out, RowKeys(rows));
    assert b == [] && [] + q == q && q + [] == q && out.children == a + q + b;
    hide FoldUpsert, KeepOnly, RowKeys, Valid, Marks, Listed;
    Rotate(out, rows, a, q, [], b, None, None);
    assert out.(children := a + ([] + q) + b) == out;
  }

  // ---- A batch of changes --------------------------------------------------------------------------

  /** The step finds its row as it wants it. */
  predicate Idle(l: List, s: Step) {
    match s
    case Insert(k, p) => Blank(p)
    case Remove(k) => false
    case Patch(k, p) => k in Keys(l.children) && (Find(l.children, k).stamp == p || Blank(p))
  }

  lemma {:induction false} AllIdle(l: List, steps: seq<Step>)
    requires Valid(l) && Fits(l, steps) && forall s :: s in steps ==> Idle(l, s)
    ensures ApplyAll(l, steps) == l
    decreases steps
  {
    if steps != [] {
      assert steps[0] in steps;
      FitsRest(l, steps);
      ApplyFacts(l, steps[0]);
      assert Apply(l, steps[0]) == l;
      AllIdle(l, steps[1..]);
    }
  }

  /** The row a step has painted remembers what it was painted from. */
  ghost predicate Done(l: List, s: Step) {
    && (!s.Remove? && !Blank(s.payload) ==> s.key in Keys(l.children) && Find(l.children, s.key).stamp == s.payload)
    && (s.Remove? ==> s.key !in Keys(l.children))
    && (s.Patch? ==> s.key in Keys(l.children))
    && (s.Insert? && Blank(s.payload) ==> s.key !in Keys(l.children))
  }

  lemma {:induction false} StepDone(l: List, s: Step)
    requires Valid(l) && Suits(l, s)
    ensures Done(Apply(l, s), s)
  {
    ApplyFacts(l, s);
    match s
    case Insert(k, p) => if !Blank(p) { AppendedFind(l, k, p); }
    case Remove(k) => WithoutKeys(l.children, k);
    case Patch(k, p) =>
      if Find(l.children, k).stamp != p && !Blank(p) {
        SwapFacts(l.children, k, Node(l.next, Some(k), p, p));
      }
  }

  lemma {:induction false} AppendedFind(l: List, k: Key, p: Html)
    requires Valid(l) && k !in l.rowsByKey
    ensures var ch := l.children + [Node(l.next, Some(k), p, p)];
            k in Keys(ch) && Find(ch, k) == Node(l.next, Some(k), p, p)
  {
    var n := Node(l.next, Some(k), p, p);
    PutLast(l.children, n);
    PutFind(l.children, n, None, k);
  }

  lemma {:induction false} DoneKept(l: List, t: Step, s: Step)
    requires Valid(l) && Suits(l, t) && Done(l, s) && s.key != t.key
    ensures Done(Apply(l, t), s)
  {
    ApplyFacts(l, t);
    AddedOne(t);
    hide Valid, NoDup, Apply, Find;
    assert s.key in Keys(Apply(l, t).children) ==> s.key in Keys(l.children);
  }

  lemma {:induction false} AddedOne(t: Step)
    ensures forall k :: k in Added([t]) ==> k == t.key
  {
    assert [t][1..] == [];
  }

  lemma {:induction false} DoneThrough(l: List, steps: seq<Step>, s: Step)
    requires Valid(l) && Fits(l, steps) && Done(l, s) && s.key !in StepKeys(steps)
    ensures Done(ApplyAll(l, steps), s)
    decreases steps
  {
    if steps != [] {
      assert steps[0] in steps;
      FitsRest(l, steps);
      ApplyFacts(l, steps[0]);
      DoneKept(l, steps[0], s);
      DoneThrough(Apply(l, steps[0]), steps[1..], s);
    }
  }

  lemma {:induction false} AllDone(l: List, steps: seq<Step>, s: Step)
    requires Valid(l) && Fits(l, steps) && s in steps
    ensures Valid(ApplyAll(l, steps)) && Done(ApplyAll(l, steps), s)
    decreases steps
  {
    FitsRest(l, steps);
    ApplyFacts(l, steps[0]);
    NoDupCons(steps[0].key, StepKeys(steps[1..]));
    PlanLaw(l, l, steps);
    if s == steps[0] {
      StepDone(l, s);
      DoneThrough(Apply(l, s), steps[1..], s);
    } else {
      AllDone(Apply(l, steps[0]), steps[1..], s);
    }
  }

  /** The second of two equal batches finds nothing to do. */
  lemma {:induction false} DeltaReplays(l: List, changes: seq<Change>)
    requires Valid(l)
    ensures Valid(ApplyDelta(l, changes))
    ensures ApplyDelta(ApplyDelta(l, changes), changes) == ApplyDelta(l, changes)
  {
    var order, held := Order(changes), l.rowsByKey.Keys;
    var first, out := Plan(changes, held), ApplyDelta(l, changes);
    PlanFits(l, changes);
    DeltaIsReconcile(l, changes);
    OrderFacts(changes);
    PlanSteps(order, changes, held);
    PlanFits(out, changes);
    var again := Plan(changes, out.rowsByKey.Keys);
    PlanSteps(order, changes, out.rowsByKey.Keys);
    hide Valid, ApplyAll, ApplyDelta;
    forall s | s in again ensures Idle(out, s) {
      AgainIdle(l, changes, s);
    }
    AllIdle(out, again);
    assert ApplyDelta(out, changes) == ApplyAll(out, again) by { DeltaIs(out, changes); }
  }

  lemma {:induction false} DeltaIs(l: List, changes: seq<Change>)
    requires Valid(l)
    ensures Fits(l, Plan(changes, l.rowsByKey.Keys))
    ensures ApplyDelta(l, changes) == ApplyAll(l, Plan(changes, l.rowsByKey.Keys))
  {
    PlanFits(l, changes);
  }

  lemma {:induction false} AgainIdle(l: List, changes: seq<Change>, s: Step)
    requires Valid(l) && Valid(ApplyDelta(l, changes))
    requires s in Plan(changes, ApplyDelta(l, changes).rowsByKey.Keys)
    ensures Idle(ApplyDelta(l, changes), s)
  {
    var order, held, out := Order(changes), l.rowsByKey.Keys, ApplyDelta(l, changes);
    var first := Plan(changes, held);
    var k := s.key;
    DeltaIs(l, changes);
    OrderFacts(changes);
    PlanSteps(order, changes, held);
    PlanSteps(order, changes, out.rowsByKey.Keys);
    var e := EntryOf(changes, k);
    assert StepOf(e, k, k in out.rowsByKey) == [s];
    if e.insert.Some? {
      var was := if k in held then Patch(k, e.insert.value) else Insert(k, e.insert.value);
      assert StepOf(e, k, k in held) == [was];
      AllDone(l, first, was);
    } else if k in held {
      assert StepOf(e, k, true) == [Remove(k)];
      AllDone(l, first, Remove(k));
    } else {
      PlanLaw(l, l, first);
      NotAdded(l, first, k, changes);
    }
  }

  /** A key the batch only retracts does not appear. */
  lemma {:induction false} NotAdded(l: List, steps: seq<Step>, k: Key, changes: seq<Change>)
    requires Valid(l) && steps == Plan(changes, l.rowsByKey.Keys) && Fits(l, steps)
    requires EntryOf(changes, k).insert.None? && k !in l.rowsByKey
    ensures k !in Keys(ApplyAll(l, steps).children)
  {
    PlanLaw(l, l, steps);
    OrderFacts(changes);
    PlanSteps(Order(changes), changes, l.rowsByKey.Keys);
    GoneAdded(steps);
    if k in StepKeys(steps) {
      var s := StepWith(steps, k);
    }
  }
}
