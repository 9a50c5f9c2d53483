/** The signed-change operation: how a batch of changes becomes a plan, and what the plan does. */
module ListDelta {
  import opened Prelude
  import opened ListSink
  import opened ListLaws

  // ---- The plan ---------------------------------------------------------------------------

  datatype Entry = Entry(insert: Option<Html>, retract: bool)

  /** What a batch says about one key: the last payload with a positive weight, and any retraction. */
  function EntryOf(changes: seq<Change>, k: Key): Entry {
    if changes == [] then Entry(None, false)
    else
      var e, c := EntryOf(changes[..|changes| - 1], k), changes[|changes| - 1];
      if c.key != k then e
      else if c.weight > 0 then e.(insert := Some(c.payload))
      else if c.weight < 0 then e.(retract := true)
      else e
  }

  /** The keys of a batch in the order they are first named. */
  function Order(changes: seq<Change>): seq<Key> {
    if changes == [] then []
    else
      var o, c := Order(changes[..|changes| - 1]), changes[|changes| - 1];
      if c.key in o then o else o + [c.key]
  }

  lemma {:induction false} OrderFacts(changes: seq<Change>)
    ensures NoDup(Order(changes))
    ensures forall k :: k in Order(changes) <==> exists c :: c in changes && c.key == k
  {
    if changes != [] {
      var n := |changes| - 1;
      OrderFacts(changes[..n]);
      assert forall c :: c in changes <==> c in changes[..n] || c == changes[n];
      if changes[n].key in Order(changes) {
        assert changes[n] in changes;
      }
    }
  }

  function StepOf(e: Entry, k: Key, held: bool): seq<Step> {
    if e.insert.Some? then [if held then Patch(k, e.insert.value) else Insert(k, e.insert.value)]
    else if e.retract && held then [Remove(k)]
    else []
  }

  function PlanOf(order: seq<Key>, changes: seq<Change>, held: set<Key>): seq<Step> {
    if order == [] then []
    else StepOf(EntryOf(changes, order[0]), order[0], order[0] in held) + PlanOf(order[1..], changes, held)
  }

  function Plan(changes: seq<Change>, held: set<Key>): seq<Step> { PlanOf(Order(changes), changes, held) }

  lemma {:induction false} PlanSnoc(order: seq<Key>, k: Key, changes: seq<Change>, held: set<Key>)
    ensures PlanOf(order + [k], changes, held) == PlanOf(order, changes, held) +
            StepOf(EntryOf(changes, k), k, k in held)
  {
    if order == [] {
      assert [k][1..] == [];
    } else {
      assert (order + [k])[1..] == order[1..] + [k];
      PlanSnoc(order[1..], k, changes, held);
    }
  }

  lemma {:induction false} EntryUnnamed(changes: seq<Change>, k: Key)
    requires k !in Order(changes)
    ensures EntryOf(changes, k) == Entry(None, false)
  {
    if changes != [] {
      EntryUnnamed(changes[..|changes| - 1], k);
    }
  }

  /** Two passes over the batch: gather each key's entry, then decide one step per key. */
  method ReconcileSlotDelta(changes: seq<Change>, held: set<Key>) returns (plan: seq<Step>)
    ensures plan == Plan(changes, held)
  {
    var order: seq<Key> := [];
    var byKey: map<Key, Entry> := map[];
    var i := 0;
    while i < |changes|
      invariant 0 <= i <= |changes|
      invariant order == Order(changes[..i])
      invariant forall k :: k in byKey <==> k in order
      invariant forall k :: k in byKey ==> byKey[k] == EntryOf(changes[..i], k)
    {
      var change := changes[i];
      assert changes[..i + 1][..i] == changes[..i];
      if change.key !in byKey {
        EntryUnnamed(changes[..i], change.key);
        byKey := byKey[change.key := Entry(None, false)];
        order := order + [change.key];
      }
      var entry := byKey[change.key];
      if change.weight > 0 {
        entry := entry.(insert := Some(change.payload));
      } else if change.weight < 0 {
        entry := entry.(retract := true);
      }
      byKey := byKey[change.key := entry];
      i := i + 1;
    }
    assert changes[..i] == changes;
    plan := [];
    i := 0;
    while i < |order|
      invariant 0 <= i <= |order|
      invariant plan == PlanOf(order[..i], changes, held)
    {
      var key := order[i];
      assert key in byKey;
      assert order[..i + 1] == order[..i] + [key];
      PlanSnoc(order[..i], key, changes, held);
      var entry := byKey[key];
      if entry.insert.Some? {
        plan := plan + [if key in held then Patch(key, entry.insert.value) else Insert(key, entry.insert.value)];
      } else if entry.retract && key in held {
        plan := plan + [Remove(key)];
      }
      i := i + 1;
    }
    assert order[..i] == order;
  }

  /** Each key's step, in full: at most one, decided by the last insert and by what is held. */
  lemma {:induction false} PlanSteps(order: seq<Key>, changes: seq<Change>, held: set<Key>)
    requires NoDup(order)
    ensures NoDup(StepKeys(PlanOf(order, changes, held)))
    ensures forall k :: k in StepKeys(PlanOf(order, changes, held)) ==> k in order
    ensures forall s :: s in PlanOf(order, changes, held) <==>
            s.key in order && StepOf(EntryOf(changes, s.key), s.key, s.key in held) == [s]
  {
    if order != [] {
      var k, rest := order[0], order[1..];
      NoDupCons(k, rest);
      PlanSteps(rest, changes, held);
      var one := StepOf(EntryOf(changes, k), k, k in held);
      var t := PlanOf(rest, changes, held);
      assert forall x :: x in order <==> x == k || x in rest;
      if one != [] {
        assert one == [one[0]] && one[0].key == k;
        assert (one + t)[1..] == t;
        NoDupCons(k, StepKeys(t));
      } else {
        assert one + t == t;
      }
    }
  }

  // ---- Running a plan -----------------------------------------------------------------------

  function StepKeys(steps: seq<Step>): seq<Key> {
    if steps == [] then [] else [steps[0].key] + StepKeys(steps[1..])
  }

  /** An insert of a key the list does not hold; anything else of one it does. */
  predicate Suits(l: List, s: Step) { s.Insert? <==> s.key !in l.rowsByKey }

  predicate Fits(l: List, steps: seq<Step>) { NoDup(StepKeys(steps)) && forall s :: s in steps ==> Suits(l, s) }

  function ApplyAll(l: List, steps: seq<Step>): List
    requires Valid(l) && Fits(l, steps)
    decreases steps
  {
    if steps == [] then l
    else
      ApplyFacts(l, steps[0]);
      FitsRest(l, steps);
      ApplyAll(Apply(l, steps[0]), steps[1..])
  }

  function ApplyDelta(l: List, changes: seq<Change>): List
    requires Valid(l)
  {
    PlanFits(l, changes);
    ApplyAll(l, Plan(changes, l.rowsByKey.Keys))
  }

  lemma {:induction false} AppendValid(l: List, k: Key, p: Html)
    requires Valid(l) && k !in l.rowsByKey && !Blank(p)
    ensures Valid(Apply(l, Insert(k, p)))
    ensures var out := Apply(l, Insert(k, p));
            Keys(out.children) == Keys(l.children) + [k]
            && Find(out.children, k) == Node(l.next, Some(k), p, p)
            && forall j :: j in Keys(l.children) ==> Find(out.children, j) == Find(l.children, j)
  {
    var n := Node(l.next, Some(k), p, p);
    PutLast(l.children, n);
    WithoutAbsent(l.children, k);
    assert Placed(l, n, None) == Apply(l, Insert(k, p));
    PutValid(l, n, None, None);
    PutManyLast(Keys(l.children), [k]);
    MinusNone(Keys(l.children), {k});
  }

  lemma {:induction false} PutLast(ch: seq<Node>, n: Node)
    ensures Put(ch, n, None) == ch + [n]
  {
    if ch != [] {
      PutLast(ch[1..], n);
    }
  }

  lemma {:induction false} PutManyLast(ks: seq<Key>, ps: seq<Key>)
    ensures PutMany(ks, ps, None) == ks + ps
  {
    if ks != [] {
      PutManyLast(ks[1..], ps);
      assert [ks[0]] + (ks[1..] + ps) == ks + ps;
    }
  }

  lemma {:induction false} OneStep(s: Step)
    ensures Gone([s]) == if s.Remove? then {s.key} else {}
    ensures Added([s]) == if s.Insert? && !Blank(s.payload) then [s.key] else []
  {
    assert [s][1..] == [];
    assert Added([]) == [] && Gone([]) == {};
  }

  lemma {:induction false} InsertFacts(l: List, k: Key, p: Html)
    requires Valid(l) && Suits(l, Insert(k, p))
    ensures var s, m := Insert(k, p), Apply(l, Insert(k, p));
            && Valid(m) && m.next >= l.next && Keys(m.children) == Keys(l.children) + (if Blank(p) then [] else [k])
            && (forall j :: j in Keys(l.children) && j != k ==>
                  j in Keys(m.children) && Find(m.children, j) == Find(l.children, j))
            && Shown(l, m, s)
  {
    if !Blank(p) {
      AppendValid(l, k, p);
    }
    hide Valid;
  }

  lemma {:induction false} PatchFacts(l: List, k: Key, p: Html)
    requires Valid(l) && Suits(l, Patch(k, p))
    ensures var s, m := Patch(k, p), Apply(l, Patch(k, p));
            && Valid(m) && m.next >= l.next && Keys(m.children) == Keys(l.children)
            && (forall j :: j in Keys(l.children) && j != k ==>
                  j in Keys(m.children) && Find(m.children, j) == Find(l.children, j))
            && Shown(l, m, s)
  {
    if Find(l.children, k).stamp != p && !Blank(p) {
      SwapValid(l, k, Node(l.next, Some(k), p, p));
      SwapFacts(l.children, k, Node(l.next, Some(k), p, p));
    }
  }

  /** One step: which rows are left, what its own row is, and that every other row is untouched. */
  lemma {:induction false} ApplyFacts(l: List, s: Step)
    requires Valid(l) && Suits(l, s)
    ensures Valid(Apply(l, s)) && Apply(l, s).next >= l.next
    ensures Keys(Apply(l, s).children) == Minus(Keys(l.children), Gone([s])) + Added([s])
    ensures forall j :: j in Keys(l.children) && j != s.key ==>
              j in Keys(Apply(l, s).children) && Find(Apply(l, s).children, j) == Find(l.children, j)
    ensures Shown(l, Apply(l, s), s)
  {
    MinusNone(Keys(l.children), {});
    OneStep(s);
    match s
    case Insert(k, p) =>
      InsertFacts(l, k, p);
      hide *;
    case Remove(k) =>
      DropValid(l, k);
      hide Gone, Added, Valid;
    case Patch(k, p) =>
      PatchFacts(l, k, p);
      hide *;
      assert Keys(l.children) + [] == Keys(l.children);
  }

  lemma {:induction false} StepKeysOf(steps: seq<Step>)
    ensures forall s :: s in steps ==> s.key in StepKeys(steps)
  {
    if steps != [] {
      StepKeysOf(steps[1..]);
      assert forall s :: s in steps <==> s == steps[0] || s in steps[1..];
    }
  }

  lemma {:induction false} FitsRest(l: List, steps: seq<Step>)
    requires Valid(l) && steps != [] && Fits(l, steps)
    ensures Suits(l, steps[0]) && Fits(Apply(l, steps[0]), steps[1..])
  {
    assert steps[0] in steps;
    NoDupCons(steps[0].key, StepKeys(steps[1..]));
    StepKeysOf(steps[1..]);
    forall s | s in steps[1..] ensures Suits(Apply(l, steps[0]), s) {
      assert s in steps && s.key != steps[0].key;
    }
  }

  lemma {:induction false} PlanFits(l: List, changes: seq<Change>)
    requires Valid(l)
    ensures Fits(l, Plan(changes, l.rowsByKey.Keys))
  {
    OrderFacts(changes);
    PlanSteps(Order(changes), changes, l.rowsByKey.Keys);
  }

  // ---- What a plan leaves ----------------------------------------------------------------------

  /** The keys a plan removes, and those it appends. */
  function Gone(steps: seq<Step>): set<Key> {
    if steps == [] then {} else (if steps[0].Remove? then {steps[0].key} else {}) + Gone(steps[1..])
  }

  function Added(steps: seq<Step>): seq<Key> {
    if steps == [] then []
    else (if steps[0].Insert? && !Blank(steps[0].payload) then [steps[0].key] else []) + Added(steps[1..])
  }

  /** `out` holds what the step's row should be, seen from `base`. */
  ghost predicate Shown(base: List, out: List, s: Step)
    requires Valid(base)
  {
    !s.Remove? && Outcome(base, Row(s.key, s.payload)).Some? ==>
      s.key in Keys(out.children) &&
        ViewOf(Find(out.children, s.key), base.next) == Outcome(base, Row(s.key, s.payload)).value
  }

  /** `l` holds under the steps' keys what `base` held. */
  ghost predicate Unmoved(base: List, l: List, steps: seq<Step>) {
    forall s :: s in steps ==>
      (s.key in Keys(base.children) <==> s.key in Keys(l.children))
      && (s.key in Keys(base.children) ==> Find(l.children, s.key) == Find(base.children, s.key))
  }

  ghost predicate Planned(base: List, l: List, out: List, steps: seq<Step>)
    requires Valid(base)
  {
    && Valid(out) && Keys(out.children) == Minus(Keys(l.children), Gone(steps)) + Added(steps)
    && (forall s :: s in steps ==> Shown(base, out, s))
    && (forall j :: j in Keys(l.children) && j !in StepKeys(steps) ==>
          j in Keys(out.children) && Find(out.children, j) == Find(l.children, j))
  }

  lemma {:induction false} ShownFrom(base: List, l: List, out: List, s: Step)
    requires Valid(base) && Valid(l) && base.next <= l.next && Unmoved(base, l, [s]) && Shown(l, out, s)
    ensures Shown(base, out, s)
  {
    assert s in [s];
    if s.key in base.rowsByKey {
      FindIn(base, s.key);
    }
    if !s.Remove? && Outcome(base, Row(s.key, s.payload)).Some? {
      assert Outcome(l, Row(s.key, s.payload)) == Outcome(base, Row(s.key, s.payload));
    }
  }

  lemma {:induction false} GoneAdded(steps: seq<Step>)
    ensures forall k :: k in Gone(steps) || k in Added(steps) ==> k in StepKeys(steps)
    ensures NoDup(StepKeys(steps)) ==>
              forall s :: s in steps ==>
                ((s.key in Gone(steps) <==> s.Remove?) && (s.key in Added(steps) <==> s.Insert? && !Blank(s.payload)))
  {
    if steps != [] {
      GoneAdded(steps[1..]);
      NoDupCons(steps[0].key, StepKeys(steps[1..]));
      StepKeysOf(steps[1..]);
      assert forall s :: s in steps <==> s == steps[0] || s in steps[1..];
    }
  }

  lemma {:induction false} Joined(a: seq<Key>, b: seq<Key>, c: seq<Key>)
    ensures (a + b) + c == a + (b + c)
  {}

  lemma {:induction false} StepParts(s: Step, rest: seq<Step>)
    ensures Gone([s] + rest) == Gone([s]) + Gone(rest) && Added([s] + rest) == Added([s]) + Added(rest)
    ensures forall k :: k in Gone([s]) || k in Added([s]) ==> k == s.key
    ensures StepKeys([s] + rest) == [s.key] + StepKeys(rest)
  {
    assert ([s] + rest)[1..] == rest && [s][1..] == [];
  }

  lemma {:induction false} KeysPlanned(ks: seq<Key>, s: Step, rest: seq<Step>)
    requires NoDup(StepKeys([s] + rest))
    ensures Minus(Minus(ks, Gone([s])) + Added([s]), Gone(rest)) + Added(rest) == Minus(ks, Gone([s] + rest)) +
            Added([s] + rest)
  {
    StepParts(s, rest);
    NoDupCons(s.key, StepKeys(rest));
    GoneAdded(rest);
    MinusNone(Added([s]), Gone(rest));
    hide NoDup, Gone, Added, StepKeys, Minus;
    MinusAppend(Minus(ks, Gone([s])), Added([s]), Gone(rest));
    MinusTwice(ks, Gone([s]), Gone(rest));
    Joined(Minus(ks, Gone([s]) + Gone(rest)), Added([s]), Added(rest));
  }

  lemma {:induction false} UnmovedRest(base: List, l: List, m: List, s: Step, rest: seq<Step>)
    requires Unmoved(base, l, [s] + rest) && NoDup(StepKeys([s] + rest))
    requires Keys(m.children) == Minus(Keys(l.children), Gone([s])) + Added([s])
    requires forall j :: j in Keys(l.children) && j != s.key ==>
             j in Keys(m.children) && Find(m.children, j) == Find(l.children, j)
    ensures Unmoved(base, m, rest)
  {
    assert ([s] + rest)[1..] == rest && [s][1..] == [];
    NoDupCons(s.key, StepKeys(rest));
    StepKeysOf(rest);
    GoneAdded([s]);
    forall t | t in rest
      ensures t.key in Keys(base.children) <==> t.key in Keys(m.children)
      ensures t.key in Keys(base.children) ==> Find(m.children, t.key) == Find(base.children, t.key)
    {
      assert t in [s] + rest && t.key != s.key;
      assert t.key !in Gone([s]) && t.key !in Added([s]);
    }
  }

  lemma {:induction false} PlannedStep(base: List, l: List, m: List, out: List, s: Step, rest: seq<Step>)
    requires Valid(base) && NoDup(StepKeys([s] + rest)) && Planned(base, m, out, rest)
    requires Keys(m.children) == Minus(Keys(l.children), Gone([s])) + Added([s]) && Shown(base, m, s)
    requires !s.Remove? && Outcome(base, Row(s.key, s.payload)).Some? ==> s.key in Keys(m.children)
    requires forall j :: j in Keys(l.children) && j != s.key ==>
             j in Keys(m.children) && Find(m.children, j) == Find(l.children, j)
    ensures Planned(base, l, out, [s] + rest)
  {
    assert ([s] + rest)[1..] == rest;
    NoDupCons(s.key, StepKeys(rest));
    KeysPlanned(Keys(l.children), s, rest);
    hide Valid, NoDup, Outcome;
  }

  lemma {:induction false} PlanLaw(base: List, l: List, steps: seq<Step>)
    requires Valid(base) && Valid(l) && base.next <= l.next && Fits(l, steps) && Unmoved(base, l, steps)
    ensures Planned(base, l, ApplyAll(l, steps), steps)
    decreases steps
  {
    if steps == [] {
      MinusNone(Keys(l.children), {});
    } else {
      var s, rest := steps[0], steps[1..];
      assert steps == [s] + rest && s in steps;
      ApplyFacts(l, s);
      FitsRest(l, steps);
      var m := Apply(l, s);
      UnmovedRest(base, l, m, s, rest);
      PlanLaw(base, m, rest);
      assert Unmoved(base, l, [s]);
      ShownFrom(base, l, m, s);
      PlannedStep(base, l, m, ApplyAll(m, rest), s, rest);
    }
  }

  // ---- Agreement with the rebuild ------------------------------------------------------------------

  /** The current rows after a batch: retracted rows leave, inserted ones are repainted in place. */
  function Revised(rows: seq<Row>, changes: seq<Change>): seq<Row> {
    if rows == [] then []
    else
      var e := EntryOf(changes, rows[0].key);
      (if e.insert.Some? then [Row(rows[0].key, e.insert.value)] else if e.retract then [] else [rows[0]])
      + Revised(rows[1..], changes)
  }

  /** The rows a batch adds, in the order it names them. */
  function Arrivals(order: seq<Key>, changes: seq<Change>, held: set<Key>): seq<Row> {
    if order == [] then []
    else
      var e := EntryOf(changes, order[0]);
      (if e.insert.Some? && order[0] !in held then [Row(order[0], e.insert.value)] else [])
      + Arrivals(order[1..], changes, held)
  }

  function Updated(l: List, changes: seq<Change>): seq<Row> {
    Revised(CurrentRows(l.children), changes) + Arrivals(Order(changes), changes, l.rowsByKey.Keys)
  }

  ghost predicate RevisedRow(l: List, row: Row, e: Entry)
    requires Valid(l)
  {
    row.key in l.rowsByKey
    && if e.insert.Some? then row.html == e.insert.value else !e.retract && row.html == Find(l.children, row.key).stamp
  }

  lemma {:induction false} RevisedPlaced(l: List, ch: seq<Node>, changes: seq<Change>, gone: set<Key>)
    requires Valid(l) && forall n :: n in ch ==> n in l.children
    requires forall k :: k in Keys(ch) ==>
             (k in gone <==> EntryOf(changes, k).insert.None? && EntryOf(changes, k).retract)
    ensures var rows := Revised(CurrentRows(ch), changes);
            && PlacedKeys(l, rows) == RowKeys(rows) == Minus(Keys(ch), gone)
            && forall row :: row in rows ==> row.key in Keys(ch) && RevisedRow(l, row, EntryOf(changes, row.key))
  {
    if ch != [] {
      var t := CurrentRows(ch[1..]);
      assert ch[0] in ch && forall n :: n in ch[1..] ==> n in ch;
      if ch[0].key.Some? {
        assert Keys(ch)[1..] == Keys(ch[1..]);
        RevisedPlaced(l, ch[1..], changes, gone);
        FoundUnique(l.children, ch[0]);
        assert ([Row(ch[0].key.value, ch[0].stamp)] + t)[1..] == t;
        assert ch[0].key.value in Keys(ch);
        var u := Revised(t, changes);
        var e := EntryOf(changes, ch[0].key.value);
        if e.insert.Some? {
          assert ([Row(ch[0].key.value, e.insert.value)] + u)[1..] == u;
        } else if !e.retract {
          assert ([Row(ch[0].key.value, ch[0].stamp)] + u)[1..] == u;
        } else {
          assert [] + u == u;
        }
      } else {
        assert CurrentRows(ch) == t;
        assert Keys(ch) == Keys(ch[1..]);
        RevisedPlaced(l, ch[1..], changes, gone);
      }
    }
  }

  lemma {:induction false} ArrivalRows(order: seq<Key>, changes: seq<Change>, held: set<Key>)
    requires NoDup(order)
    ensures var rows := Arrivals(order, changes, held);
            && NoDup(RowKeys(rows))
            && (forall row :: row in rows ==>
              row.key in order && row.key !in held && EntryOf(changes, row.key).insert == Some(row.html))
            && (forall k :: k in RowKeys(rows) ==> k in order && k !in held)
  {
    if order != [] {
      var k, rest := order[0], order[1..];
      NoDupCons(k, rest);
      ArrivalRows(rest, changes, held);
      var e, u := EntryOf(changes, k), Arrivals(rest, changes, held);
      if e.insert.Some? && k !in held {
        assert ([Row(k, e.insert.value)] + u)[1..] == u;
        NoDupCons(k, RowKeys(u));
      } else {
        assert [] + u == u;
      }
    }
  }

  lemma {:induction false} ArrivalsPlaced(l: List, order: seq<Key>, changes: seq<Change>)
    requires Valid(l)
    ensures PlacedKeys(l, Arrivals(order, changes, l.rowsByKey.Keys)) == Added(PlanOf(order, changes, l.rowsByKey.Keys))
  {
    if order != [] {
      var k, rest := order[0], order[1..];
      var held := l.rowsByKey.Keys;
      ArrivalsPlaced(l, rest, changes);
      var e, one := EntryOf(changes, k), StepOf(EntryOf(changes, k), k, k in held);
      var t, u := PlanOf(rest, changes, held), Arrivals(rest, changes, held);
      assert e.insert.Some? && k !in held ==> Outcome(l, Row(k, e.insert.value)).Some? == !Blank(e.insert.value);
      hide Outcome, Valid;
      if one != [] {
        assert one == [one[0]] && (one + t)[1..] == t;
      } else {
        assert one + t == t;
      }
      if e.insert.Some? && k !in held {
        assert ([Row(k, e.insert.value)] + u)[1..] == u;
      } else {
        assert [] + u == u;
      }
    }
  }

  lemma {:induction false} UpdatedKeys(l: List, changes: seq<Change>)
    requires Valid(l)
    ensures NoDup(RowKeys(Updated(l, changes)))
    ensures PlacedKeys(l, Updated(l, changes))
         == Minus(Keys(l.children), Gone(Plan(changes, l.rowsByKey.Keys))) + Added(Plan(changes, l.rowsByKey.Keys))
  {
    var order, held := Order(changes), l.rowsByKey.Keys;
    var gone := Gone(Plan(changes, held));
    OrderFacts(changes);
    PlanGone(l, changes);
    RevisedPlaced(l, l.children, changes, gone);
    ArrivalRows(order, changes, held);
    ArrivalsPlaced(l, order, changes);
    var a, b := Revised(CurrentRows(l.children), changes), Arrivals(order, changes, held);
    PlacedAppend(l, a, b);
    MinusNoDup(Keys(l.children), gone);
    assert forall k :: k in RowKeys(a) ==> k in l.rowsByKey;
    NoDupJoin(RowKeys(a), RowKeys(b));
  }

  /** A batch of changes shows what rebuilding from the updated list shows: the same rows in the
      same order, with the same node for every row whose markup did not change. */
  lemma {:induction false} DeltaIsReconcile(l: List, changes: seq<Change>)
    requires Valid(l)
    ensures Valid(ApplyDelta(l, changes)) && NoDup(RowKeys(Updated(l, changes)))
    ensures ApplyReconcile(l, Updated(l, changes)).Some?
    ensures View(ApplyDelta(l, changes).children, l.next)
         == View(ApplyReconcile(l, Updated(l, changes)).value.children, l.next)
  {
    PlanFits(l, changes);
    PlanLaw(l, l, Plan(changes, l.rowsByKey.Keys));
    UpdatedKeys(l, changes);
    UpdatedSettled(l, ApplyDelta(l, changes), changes);
    var rows := Updated(l, changes);
    ReconcileLaw(l, rows);
    hide Updated, Plan, Settled;
    ViewIs(l, ApplyDelta(l, changes), rows);
  }

  lemma {:induction false} PlanGone(l: List, changes: seq<Change>)
    requires Valid(l)
    ensures forall k :: k in l.rowsByKey ==>
              (k in Gone(Plan(changes, l.rowsByKey.Keys)) <==>
                EntryOf(changes, k).insert.None? && EntryOf(changes, k).retract)
    ensures forall k :: k in l.rowsByKey && EntryOf(changes, k).insert.None? && !EntryOf(changes, k).retract ==>
              k !in StepKeys(Plan(changes, l.rowsByKey.Keys))
  {
    OrderFacts(changes);
    var steps := Plan(changes, l.rowsByKey.Keys);
    PlanSteps(Order(changes), changes, l.rowsByKey.Keys);
    GoneAdded(steps);
    forall k | k in l.rowsByKey
      ensures k in Gone(steps) <==> EntryOf(changes, k).insert.None? && EntryOf(changes, k).retract
      ensures EntryOf(changes, k).insert.None? && !EntryOf(changes, k).retract ==> k !in StepKeys(steps)
    {
      if k !in Order(changes) {
        EntryUnnamed(changes, k);
      }
      if k in StepKeys(steps) {
        var s := StepWith(steps, k);
      }
      if EntryOf(changes, k).insert.None? && EntryOf(changes, k).retract {
        assert StepOf(EntryOf(changes, k), k, true) == [Remove(k)];
        assert Remove(k) in steps;
      }
    }
  }

  lemma {:induction false} StepWith(steps: seq<Step>, k: Key) returns (s: Step)
    requires k in StepKeys(steps)
    ensures s in steps && s.key == k
  {
    if steps[0].key == k {
      s := steps[0];
    } else {
      s := StepWith(steps[1..], k);
    }
  }

  lemma {:induction false} UpdatedSettled(l: List, out: List, changes: seq<Change>)
    requires Valid(l) && Planned(l, l, out, Plan(changes, l.rowsByKey.Keys))
    ensures Settled(l, out, Updated(l, changes))
  {
    var order, held := Order(changes), l.rowsByKey.Keys;
    var steps := Plan(changes, held);
    OrderFacts(changes);
    PlanSteps(order, changes, held);
    PlanGone(l, changes);
    RevisedPlaced(l, l.children, changes, Gone(steps));
    ArrivalRows(order, changes, held);
    forall row | row in Updated(l, changes) && Outcome(l, row).Some?
      ensures row.key in Keys(out.children) && ViewOf(Find(out.children, row.key), l.next) == Outcome(l, row).value
    {
      var e := EntryOf(changes, row.key);
      if e.insert.Some? {
        if row.key !in order {
          EntryUnnamed(changes, row.key);
        }
        var s := if row.key in held then Patch(row.key, row.html) else Insert(row.key, row.html);
        assert StepOf(e, row.key, row.key in held) == [s];
        assert s in steps && Shown(l, out, s);
      } else {
        FindIn(l, row.key);
      }
    }
  }
}
