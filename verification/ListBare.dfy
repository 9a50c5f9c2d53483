/** Children without a key: where they stand after an operation, and after the rebuild it agrees with. */
module ListBare {
  import opened Prelude
  import opened ListSink
  import opened ListLaws
  import opened ListDelta
  import opened ListTwins

  /** A child as it can be told from outside: a keyed row, or a child no operation touches. */
  datatype Seen = Keyed(view: RowView) | Bare(node: Node)

  /** Every child in its place. */
  function Whole(ch: seq<Node>, base: nat): seq<Seen> {
    if ch == [] then []
    else [if ch[0].key.Some? then Keyed(ViewOf(ch[0], base)) else Bare(ch[0])] + Whole(ch[1..], base)
  }

  function Bares(ch: seq<Node>): seq<Node> {
    if ch == [] then [] else (if ch[0].key.Some? then [] else [ch[0]]) + Bares(ch[1..])
  }

  predicate AllKeyed(ch: seq<Node>) { ch == [] || (ch[0].key.Some? && AllKeyed(ch[1..])) }

  /** No child without a key stands behind one that has one. */
  predicate BareFirst(ch: seq<Node>) {
    ch == [] || if ch[0].key.Some? then AllKeyed(ch[1..]) else BareFirst(ch[1..])
  }

  // ---- What the whole is made of -----------------------------------------------------------------

  lemma {:induction false} KeyedWhole(a: seq<Node>, b: seq<Node>, base: nat)
    requires AllKeyed(a) && AllKeyed(b) && View(a, base) == View(b, base)
    ensures Whole(a, base) == Whole(b, base)
    decreases a
  {
    if a == [] {
      assert b == [];
    } else {
      assert b != [];
      assert View(a, base)[1..] == View(a[1..], base) && View(b, base)[1..] == View(b[1..], base);
      assert View(a, base)[0] == View(b, base)[0];
      KeyedWhole(a[1..], b[1..], base);
    }
  }

  lemma {:induction false} KeyedBares(ch: seq<Node>)
    requires AllKeyed(ch)
    ensures Bares(ch) == []
  {
    if ch != [] {
      KeyedBares(ch[1..]);
    }
  }

  lemma {:induction false} NoBares(ch: seq<Node>)
    requires BareFirst(ch) && Bares(ch) == []
    ensures AllKeyed(ch)
  {}

  lemma {:induction false} WholeJoin(a: seq<Node>, b: seq<Node>, base: nat)
    requires BareFirst(a) && BareFirst(b) && Bares(a) == Bares(b) && View(a, base) == View(b, base)
    ensures Whole(a, base) == Whole(b, base)
    decreases a
  {
    if Bares(a) == [] {
      NoBares(a);
      NoBares(b);
      KeyedWhole(a, b, base);
    } else {
      if a[0].key.Some? {
        KeyedBares(a[1..]);
      }
      if b[0].key.Some? {
        KeyedBares(b[1..]);
      }
      assert Bares(a)[0] == Bares(b)[0] && Bares(a)[1..] == Bares(a[1..]) && Bares(b)[1..] == Bares(b[1..]);
      assert View(a, base) == View(a[1..], base) && View(b, base) == View(b[1..], base);
      WholeJoin(a[1..], b[1..], base);
    }
  }

  lemma {:induction false} WholeShape(a: seq<Node>, b: seq<Node>, base: nat)
    requires Whole(a, base) == Whole(b, base)
    ensures (AllKeyed(a) <==> AllKeyed(b)) && (BareFirst(a) <==> BareFirst(b))
    decreases a
  {
    if a != [] {
      assert b != [];
      assert Whole(a, base)[0] == Whole(b, base)[0];
      assert Whole(a, base)[1..] == Whole(a[1..], base) && Whole(b, base)[1..] == Whole(b[1..], base);
      WholeShape(a[1..], b[1..], base);
    } else {
      assert b == [];
    }
  }

  // ---- Operations leave them alone ---------------------------------------------------------------

  lemma {:induction false} WithoutBares(ch: seq<Node>, k: Key)
    ensures Bares(Without(ch, k)) == Bares(ch)
  {
    if ch != [] {
      WithoutBares(ch[1..], k);
      assert ([ch[0]] + Without(ch[1..], k))[1..] == Without(ch[1..], k);
    }
  }

  lemma {:induction false} RetainBares(ch: seq<Node>, gone: set<Key>)
    ensures Bares(Retain(ch, gone)) == Bares(ch)
  {
    if ch != [] {
      RetainBares(ch[1..], gone);
      assert ([ch[0]] + Retain(ch[1..], gone))[1..] == Retain(ch[1..], gone);
    }
  }

  lemma {:induction false} PutBares(ch: seq<Node>, n: Node, marker: Option<nat>)
    requires n.key.Some?
    ensures Bares(Put(ch, n, marker)) == Bares(ch)
  {
    if ch == [] {
      assert [n][1..] == [];
    } else if marker == Some(ch[0].id) {
      assert ([n] + ch)[1..] == ch;
    } else {
      PutBares(ch[1..], n, marker);
      assert ([ch[0]] + Put(ch[1..], n, marker))[1..] == Put(ch[1..], n, marker);
    }
  }

  lemma {:induction false} SwapBares(ch: seq<Node>, k: Key, n: Node)
    requires n.key.Some?
    ensures Bares(Swap(ch, k, n)) == Bares(ch)
  {
    if ch != [] {
      if ch[0].key == Some(k) {
        assert ([n] + ch[1..])[1..] == ch[1..];
      } else {
        SwapBares(ch[1..], k, n);
        assert ([ch[0]] + Swap(ch[1..], k, n))[1..] == Swap(ch[1..], k, n);
      }
    }
  }

  lemma {:induction false} UpsertBares(l: List, row: Row, marker: Option<nat>)
    requires Valid(l)
    ensures Upsert(l, row, marker).Some? ==> Bares(Upsert(l, row, marker).value.children) == Bares(l.children)
  {
    if Fresh(l, row).Some? {
      var n := Fresh(l, row).value;
      SwapBares(l.children, row.key, n);
      WithoutBares(l.children, row.key);
      PutBares(Without(l.children, row.key), n, marker);
    }
  }

  lemma {:induction false} FoldBares(l: List, rows: seq<Row>, marker: Option<nat>, mk: Option<Key>)
    requires Valid(l) && Marks(l, marker, mk)
    ensures FoldUpsert(l, rows, marker, mk).Some? ==>
            Bares(FoldUpsert(l, rows, marker, mk).value.children) == Bares(l.children)
    decreases rows
  {
    if rows != [] {
      UpsertValid(l, rows[0], marker, mk);
      UpsertBares(l, rows[0], marker);
      match Upsert(l, rows[0], marker)
      case None =>
      case Some(m) => FoldBares(m, rows[1..], marker, mk);
    }
  }

  lemma {:induction false} StepsBares(l: List, steps: seq<Step>)
    requires Valid(l) && Fits(l, steps)
    ensures Bares(ApplyAll(l, steps).children) == Bares(l.children)
    decreases steps
  {
    if steps != [] {
      var s := steps[0];
      FitsRest(l, steps);
      ApplyFacts(l, s);
      StepsBares(Apply(l, s), steps[1..]);
      var n := Node(l.next, Some(s.key), if s.Remove? then "" else s.payload, if s.Remove? then "" else s.payload);
      WithoutBares(l.children, s.key);
      SwapBares(l.children, s.key, n);
      PutBares(l.children, n, None);
      PutLast(l.children, n);
    }
  }

  // ---- Where they stand --------------------------------------------------------------------------

  lemma {:induction false} RetainPut(ch: seq<Node>, n: Node, marker: Option<nat>, gone: set<Key>)
    requires n.key.Some? && n.key.value !in gone
    requires marker.Some? ==> forall m :: m in ch && m.id == marker.value ==> m.key.Some? && m.key.value !in gone
    ensures Retain(Put(ch, n, marker), gone) == Put(Retain(ch, gone), n, marker)
  {
    if ch == [] {
      assert [n][1..] == [];
    } else {
      assert ch[0] in ch;
      if marker == Some(ch[0].id) {
        assert ([n] + ch)[1..] == ch;
      } else {
        RetainPut(ch[1..], n, marker, gone);
        assert ([ch[0]] + Put(ch[1..], n, marker))[1..] == Put(ch[1..], n, marker);
        assert ([ch[0]] + Retain(ch[1..], gone))[1..] == Retain(ch[1..], gone);
      }
    }
  }

  /** A keyed node at the end, or ahead of a keyed one, changes nothing for the others. */
  lemma {:induction false} PutFirst(ch: seq<Node>, n: Node, marker: Option<nat>)
    requires n.key.Some? && (marker.Some? ==> forall m :: m in ch && m.id == marker.value ==> m.key.Some?)
    ensures (BareFirst(Put(ch, n, marker)) <==> BareFirst(ch)) && (AllKeyed(Put(ch, n, marker)) <==> AllKeyed(ch))
  {
    if ch == [] {
      assert [n][1..] == [];
    } else {
      assert ch[0] in ch;
      if marker == Some(ch[0].id) {
        assert ([n] + ch)[1..] == ch;
      } else {
        PutFirst(ch[1..], n, marker);
        assert ([ch[0]] + Put(ch[1..], n, marker))[1..] == Put(ch[1..], n, marker);
      }
    }
  }

  lemma {:induction false} RetainWithout(ch: seq<Node>, k: Key, gone: set<Key>)
    ensures Retain(Without(ch, k), gone) == Retain(ch, gone + {k})
  {
    if ch != [] {
      RetainWithout(ch[1..], k, gone);
      assert ([ch[0]] + Without(ch[1..], k))[1..] == Without(ch[1..], k);
    }
  }

  lemma {:induction false} RetainSwap(ch: seq<Node>, k: Key, n: Node, gone: set<Key>)
    requires n.key == Some(k) && k !in gone
    ensures Retain(Swap(ch, k, n), gone) == Swap(Retain(ch, gone), k, n)
  {
    if ch != [] {
      if ch[0].key == Some(k) {
        assert ([n] + ch[1..])[1..] == ch[1..];
        assert ([ch[0]] + Retain(ch[1..], gone))[1..] == Retain(ch[1..], gone);
      } else {
        RetainSwap(ch[1..], k, n, gone);
        assert ([ch[0]] + Swap(ch[1..], k, n))[1..] == Swap(ch[1..], k, n);
        assert ([ch[0]] + Retain(ch[1..], gone))[1..] == Retain(ch[1..], gone);
      }
    }
  }

  lemma {:induction false} SwapFirst(ch: seq<Node>, k: Key, n: Node)
    requires n.key.Some?
    ensures (BareFirst(Swap(ch, k, n)) <==> BareFirst(ch)) && (AllKeyed(Swap(ch, k, n)) <==> AllKeyed(ch))
  {
    if ch != [] {
      if ch[0].key == Some(k) {
        assert ([n] + ch[1..])[1..] == ch[1..];
      } else {
        SwapFirst(ch[1..], k, n);
        assert ([ch[0]] + Swap(ch[1..], k, n))[1..] == Swap(ch[1..], k, n);
      }
    }
  }

  /** A placed row leaves the others where dropping its key leaves them. */
  lemma {:induction false} UpsertFirst(l: List, row: Row, marker: Option<nat>, mk: Option<Key>, gone: set<Key>)
    requires Valid(l) && Marks(l, marker, mk) && mk != Some(row.key) && row.key !in gone
    requires mk.Some? ==> mk.value !in gone
    ensures Upsert(l, row, marker).Some?
    ensures BareFirst(Retain(Upsert(l, row, marker).value.children, gone)) <==>
            BareFirst(Retain(l.children, gone + {row.key}))
  {
    UpsertFacts(l, row, marker, mk);
    MarkedChild(l, marker, mk);
    var rest := Without(l.children, row.key);
    RetainWithout(l.children, row.key, gone);
    WithoutMembers(l.children, row.key);
    if Fresh(l, row).Some? {
      var n := Fresh(l, row).value;
      OwnIff(l, marker, mk, row.key);
      assert Upsert(l, row, marker).value.children == Put(rest, n, marker);
      hide Valid, Upsert, Fresh, Lands, Marks;
      RetainPut(rest, n, marker, gone);
      RetainMembers(rest, gone);
      PutFirst(Retain(rest, gone), n, marker);
    } else {
      WithoutAbsent(l.children, row.key);
    }
  }

  lemma {:induction false} FoldFirst(l: List, rows: seq<Row>, marker: Option<nat>, mk: Option<Key>)
    requires Valid(l) && Marks(l, marker, mk) && NoDup(RowKeys(rows)) && (mk.Some? ==> mk.value !in RowKeys(rows))
    ensures FoldUpsert(l, rows, marker, mk).Some?
    ensures BareFirst(FoldUpsert(l, rows, marker, mk).value.children) <==>
            BareFirst(Retain(l.children, KeySet(RowKeys(rows))))
    decreases rows
  {
    if rows == [] {
      assert KeySet(RowKeys(rows)) == {};
      RetainNothing(l.children);
    } else {
      var row, rest := rows[0], rows[1..];
      NoDupCons(row.key, RowKeys(rest));
      UpsertFacts(l, row, marker, mk);
      UpsertFirst(l, row, marker, mk, KeySet(RowKeys(rest)));
      assert KeySet(RowKeys(rows)) == KeySet(RowKeys(rest)) + {row.key};
      hide Valid, Upsert, Lands, Marks, BareFirst, Retain, NoDup;
      FoldFirst(Upsert(l, row, marker).value, rest, marker, mk);
    }
  }

  lemma {:induction false} AllGone(ch: seq<Node>, gone: set<Key>)
    requires forall k :: k in Keys(ch) ==> k in gone
    ensures BareFirst(Retain(ch, gone))
  {
    if ch != [] {
      AllGone(ch[1..], gone);
      assert ([ch[0]] + Retain(ch[1..], gone))[1..] == Retain(ch[1..], gone);
    }
  }

  /** A rebuild leaves the children without a key, in order, ahead of all rows. */
  lemma {:induction false} RebuildFirst(l: List, rows: seq<Row>)
    requires Valid(l) && NoDup(RowKeys(rows))
    ensures ApplyReconcile(l, rows).Some?
    ensures BareFirst(ApplyReconcile(l, rows).value.children) &&
            Bares(ApplyReconcile(l, rows).value.children) == Bares(l.children)
  {
    var kept := KeepOnly(l, RowKeys(rows));
    KeepFacts(l, RowKeys(rows));
    FoldFirst(kept, rows, None, None);
    FoldBares(kept, rows, None, None);
    AllGone(kept.children, KeySet(RowKeys(rows)));
    RetainBares(l.children, set k | k in l.rowsByKey && k !in RowKeys(rows));
  }

  lemma {:induction false} SameWhole(l: List, out: List, rows: seq<Row>)
    requires Valid(l) && NoDup(RowKeys(rows)) && Bares(out.children) == Bares(l.children) &&
             ApplyReconcile(l, rows).Some?
    requires View(out.children, l.next) == View(ApplyReconcile(l, rows).value.children, l.next)
    ensures Whole(out.children, l.next) == Whole(ApplyReconcile(l, rows).value.children, l.next) <==>
            BareFirst(out.children)
  {
    RebuildFirst(l, rows);
    var full := ApplyReconcile(l, rows).value;
    hide Valid, ApplyReconcile;
    if BareFirst(out.children) {
      WholeJoin(out.children, full.children, l.next);
    }
    if Whole(out.children, l.next) == Whole(full.children, l.next) {
      WholeShape(out.children, full.children, l.next);
    }
  }

  /** An insert leaves every child where the rebuild it agrees with leaves it if and only if, the
      inserted rows aside, no child without a key stands behind a row. */
  lemma {:induction false} InsertWhole(l: List, before: Option<Key>, rows: seq<Row>)
    requires Valid(l) && NoDup(RowKeys(rows)) && (before.Some? ==> before.value !in RowKeys(rows))
    ensures ApplyInsert(l, before, rows).Some? && ApplyReconcile(l, InsertedRows(l, before, rows)).Some?
    ensures Whole(ApplyInsert(l, before, rows).value.children, l.next)
         == Whole(ApplyReconcile(l, InsertedRows(l, before, rows)).value.children, l.next)
       <==> BareFirst(Retain(l.children, KeySet(RowKeys(rows))))
  {
    InsertIsReconcile(l, before, rows);
    InsertedDistinct(l, before, rows);
    var mk := Position(l, before);
    var marker := if mk.Some? then Some(l.rowsByKey[mk.value]) else None;
    FoldBares(l, rows, marker, mk);
    FoldFirst(l, rows, marker, mk);
    SameWhole(l, ApplyInsert(l, before, rows).value, InsertedRows(l, before, rows));
  }

  lemma {:induction false} InsertedDistinct(l: List, before: Option<Key>, rows: seq<Row>)
    requires Valid(l) && NoDup(RowKeys(rows)) && (before.Some? ==> before.value !in RowKeys(rows))
    ensures NoDup(RowKeys(InsertedRows(l, before, rows)))
  {
    var mk := Position(l, before);
    var kept := RowsExcept(CurrentRows(l.children), RowKeys(rows));
    CurrentPlaced(l, l.children, RowKeys(rows));
    PutRowsKeys(l, kept, rows, mk);
    MinusNoDup(Keys(l.children), KeySet(RowKeys(rows)));
    PutManyNoDup(RowKeys(kept), RowKeys(rows), mk);
  }

  lemma {:induction false} StepsFirst(l: List, steps: seq<Step>)
    requires Valid(l) && Fits(l, steps)
    ensures BareFirst(ApplyAll(l, steps).children) <==> BareFirst(Retain(l.children, Gone(steps)))
    decreases steps
  {
    if steps == [] {
      RetainNothing(l.children);
    } else {
      var s, rest := steps[0], steps[1..];
      FitsRest(l, steps);
      ApplyFacts(l, s);
      StepsFirst(Apply(l, s), rest);
      NoDupCons(s.key, StepKeys(rest));
      GoneKeys(rest);
      StepFirst(l, s, Gone(rest));
    }
  }

  lemma {:induction false} GoneKeys(steps: seq<Step>)
    ensures forall k :: k in Gone(steps) ==> k in StepKeys(steps)
  {
    if steps != [] {
      GoneKeys(steps[1..]);
    }
  }

  lemma {:induction false} StepFirst(l: List, s: Step, gone: set<Key>)
    requires Valid(l) && Suits(l, s) && s.key !in gone
    ensures BareFirst(Retain(Apply(l, s).children, gone))
       <==> BareFirst(Retain(l.children, (if s.Remove? then {s.key} else {}) + gone))
  {
    assert {} + gone == gone && {s.key} + gone == gone + {s.key};
    match s
    case Insert(k, p) =>
      var n := Node(l.next, Some(k), p, p);
      PutLast(l.children, n);
      RetainPut(l.children, n, None, gone);
      PutFirst(Retain(l.children, gone), n, None);
    case Remove(k) => RetainWithout(l.children, k, gone);
    case Patch(k, p) =>
      var n := Node(l.next, Some(k), p, p);
      RetainSwap(l.children, k, n, gone);
      SwapFirst(Retain(l.children, gone), k, n);
  }

  /** A batch leaves every child where the rebuild it agrees with leaves it if and only if, the
      retracted rows aside, no child without a key stands behind a row. */
  lemma {:induction false} DeltaWhole(l: List, changes: seq<Change>)
    requires Valid(l)
    ensures ApplyReconcile(l, Updated(l, changes)).Some?
    ensures Whole(ApplyDelta(l, changes).children, l.next)
         == Whole(ApplyReconcile(l, Updated(l, changes)).value.children, l.next)
       <==> BareFirst(Retain(l.children, Gone(Plan(changes, l.rowsByKey.Keys))))
  {
    DeltaIsReconcile(l, changes);
    PlanFits(l, changes);
    StepsBares(l, Plan(changes, l.rowsByKey.Keys));
    StepsFirst(l, Plan(changes, l.rowsByKey.Keys));
    SameWhole(l, ApplyDelta(l, changes), Updated(l, changes));
  }

  /** A row with such a child behind it: an empty batch leaves both, and the rebuild turns them round. */
  lemma {:induction false} BareBehind(k: Key, html: Html, bare: Html)
    ensures var l := List([Node(0, Some(k), html, html), Node(1, None, bare, bare)], map[k := 0], 2);
            && Valid(l) && ApplyReconcile(l, Updated(l, [])).Some?
            && Whole(ApplyDelta(l, []).children, l.next) != Whole(ApplyReconcile(l, Updated(l, [])).value.children,
              l.next)
  {
    var a, b := Node(0, Some(k), html, html), Node(1, None, bare, bare);
    var l := List([a, b], map[k := 0], 2);
    var behind := l.children[1..];
    assert behind == [b] && behind[1..] == [];
    assert Keys(behind[1..]) == [] && Ids(behind[1..]) == [];
    assert Keys(behind) == [] && Ids(behind) == [1];
    assert Keys(l.children) == [k] && Ids(l.children) == [0, 1] && Find(l.children, k) == a;
    DeltaWhole(l, []);
    assert Gone(Plan([], l.rowsByKey.Keys)) == {};
    RetainNothing(l.children);
  }
}
