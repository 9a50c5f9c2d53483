/** Minimal list operations against the full rebuild they stand for. */
module ListLaws {
  import opened Prelude
  import opened ListSink

  // ---- The full row list an insert asks for --------------------------------------------------

  function CurrentRows(ch: seq<Node>): seq<Row> {
    if ch == [] then []
    else (if ch[0].key.Some? then [Row(ch[0].key.value, ch[0].stamp)] else []) + CurrentRows(ch[1..])
  }

  function RowsExcept(rows: seq<Row>, gone: seq<Key>): seq<Row> {
    if rows == [] then [] else (if rows[0].key in gone then [] else [rows[0]]) + RowsExcept(rows[1..], gone)
  }

  function PutRows(rows: seq<Row>, new': seq<Row>, mk: Option<Key>): seq<Row> {
    if rows == [] then new' else if mk == Some(rows[0].key) then new' + rows
      else [rows[0]] + PutRows(rows[1..], new', mk)
  }

  /** The named position, while the list holds it. */
  function Position(l: List, before: Option<Key>): Option<Key> {
    if before.Some? && before.value in l.rowsByKey then before else None
  }

  function InsertedRows(l: List, before: Option<Key>, rows: seq<Row>): seq<Row> {
    PutRows(RowsExcept(CurrentRows(l.children), RowKeys(rows)), rows, Position(l, before))
  }

  // ---- Insert agrees with the rebuild ------------------------------------------------------------

  lemma {:induction false} PlacedAppend(l: List, a: seq<Row>, b: seq<Row>)
    requires Valid(l)
    ensures PlacedKeys(l, a + b) == PlacedKeys(l, a) + PlacedKeys(l, b)
    ensures RowKeys(a + b) == RowKeys(a) + RowKeys(b)
  {
    if a == [] {
      assert a + b == b;
    } else {
      assert (a + b)[1..] == a[1..] + b;
      PlacedAppend(l, a[1..], b);
    }
  }

  lemma {:induction false} PutRowsKeys(l: List, rows: seq<Row>, new': seq<Row>, mk: Option<Key>)
    requires Valid(l) && forall row :: row in rows ==> Outcome(l, row).Some?
    ensures PlacedKeys(l, PutRows(rows, new', mk)) == PutMany(PlacedKeys(l, rows), PlacedKeys(l, new'), mk)
    ensures RowKeys(PutRows(rows, new', mk)) == PutMany(RowKeys(rows), RowKeys(new'), mk)
    ensures forall row :: row in PutRows(rows, new', mk) <==> row in rows || row in new'
  {
    if rows == [] {
    } else {
      assert rows[0] in rows && forall row :: row in rows[1..] ==> row in rows;
      assert PlacedKeys(l, rows) == [rows[0].key] + PlacedKeys(l, rows[1..]);
      if mk == Some(rows[0].key) {
        PlacedAppend(l, new', rows);
      } else {
        PutRowsKeys(l, rows[1..], new', mk);
        var t := PutRows(rows[1..], new', mk);
        assert ([rows[0]] + t)[1..] == t;
        assert PlacedKeys(l, rows)[1..] == PlacedKeys(l, rows[1..]);
        assert RowKeys(rows)[1..] == RowKeys(rows[1..]);
      }
    }
  }

  /** Current rows are all placed, under their own keys, unchanged. */
  lemma {:induction false} CurrentPlaced(l: List, ch: seq<Node>, gone: seq<Key>)
    requires Valid(l) && forall n :: n in ch ==> n in l.children
    ensures var kept := RowsExcept(CurrentRows(ch), gone);
            && (forall row :: row in kept ==>
              row.key in l.rowsByKey && row.key !in gone && Find(l.children, row.key).stamp == row.html)
            && PlacedKeys(l, kept) == RowKeys(kept) == Minus(Keys(ch), KeySet(gone))
  {
    if ch != [] {
      assert ch[0] in ch && forall n :: n in ch[1..] ==> n in ch;
      CurrentPlaced(l, ch[1..], gone);
      if ch[0].key.Some? {
        FoundUnique(l.children, ch[0]);
        var t := CurrentRows(ch[1..]);
        assert ([Row(ch[0].key.value, ch[0].stamp)] + t)[1..] == t;
        var u := RowsExcept(t, gone);
        assert Keys(ch)[1..] == Keys(ch[1..]);
        if ch[0].key.value !in gone {
          assert ([Row(ch[0].key.value, ch[0].stamp)] + u)[1..] == u;
        } else {
          assert [] + u == u;
        }
      } else {
        assert CurrentRows(ch) == CurrentRows(ch[1..]);
        assert Keys(ch) == Keys(ch[1..]);
      }
    }
  }

  lemma {:induction false} PutManyNoDup(ks: seq<Key>, ps: seq<Key>, mk: Option<Key>)
    requires NoDup(ks) && NoDup(ps) && forall k :: k in ps ==> k !in ks
    ensures NoDup(PutMany(ks, ps, mk)) && forall k :: k in PutMany(ks, ps, mk) <==> k in ks || k in ps
  {
    if ks == [] {
    } else if mk == Some(ks[0]) {
      forall i, j | 0 <= i < |ps| && 0 <= j < |ks| ensures ps[i] != ks[j] {
        assert ps[i] in ps && ks[j] in ks;
      }
    } else {
      assert ks == [ks[0]] + ks[1..];
      NoDupCons(ks[0], ks[1..]);
      PutManyNoDup(ks[1..], ps, mk);
      assert ks[0] in ks;
      NoDupCons(ks[0], PutMany(ks[1..], ps, mk));
    }
  }

  /** `SlotInsert` at a position of its own shows what rebuilding from the spliced list shows. */
  lemma {:induction false} InsertIsReconcile(l: List, before: Option<Key>, rows: seq<Row>)
    requires Valid(l) && NoDup(RowKeys(rows)) && (before.Some? ==> before.value !in RowKeys(rows))
    ensures ApplyInsert(l, before, rows).Some? && Valid(ApplyInsert(l, before, rows).value)
    ensures ApplyReconcile(l, InsertedRows(l, before, rows)).Some?
    ensures View(ApplyInsert(l, before, rows).value.children, l.next)
         == View(ApplyReconcile(l, InsertedRows(l, before, rows)).value.children, l.next)
  {
    var mk := Position(l, before);
    var marker := if mk.Some? then Some(l.rowsByKey[mk.value]) else None;
    var kept := RowsExcept(CurrentRows(l.children), RowKeys(rows));
    var all := InsertedRows(l, before, rows);
    FoldLaw(l, l, rows, marker, mk);
    var out := FoldUpsert(l, rows, marker, mk).value;
    CurrentPlaced(l, l.children, RowKeys(rows));
    PutRowsKeys(l, kept, rows, mk);
    assert Settled(l, out, all) by {
      forall row | row in all && Outcome(l, row).Some?
        ensures row.key in Keys(out.children) && ViewOf(Find(out.children, row.key), l.next) == Outcome(l, row).value
      {
        if row in kept {
          FindIn(l, row.key);
        }
      }
    }
    ViewIs(l, out, all);
    MinusNoDup(Keys(l.children), KeySet(RowKeys(rows)));
    PutManyNoDup(RowKeys(kept), RowKeys(rows), mk);
    ReconcileLaw(l, all);
  }

  // ---- Replaying an insert --------------------------------------------------------------------------

  lemma {:induction false} WithoutAppend(a: seq<Node>, b: seq<Node>, k: Key)
    ensures Without(a + b, k) == Without(a, k) + Without(b, k)
  {
    if a == [] {
      assert a + b == b;
    } else {
      assert (a + b)[1..] == a[1..] + b;
      WithoutAppend(a[1..], b, k);
    }
  }

  lemma {:induction false} PutSplit(a: seq<Node>, b: seq<Node>, n: Node, marker: Option<nat>)
    requires (forall m :: m in a ==> marker != Some(m.id)) && (b != [] ==> marker == Some(b[0].id))
    ensures Put(a + b, n, marker) == a + [n] + b
  {
    if a == [] {
      assert a + b == b;
    } else {
      assert (a + b)[1..] == a[1..] + b && (a + b)[0] == a[0] && a[0] in a;
      PutSplit(a[1..], b, n, marker);
      assert [a[0]] + (a[1..] + [n] + b) == a + [n] + b;
    }
  }

  /** The nodes of `rows`, in order: a blank row that the list does not hold has none. */
  ghost predicate Listed(l: List, rows: seq<Row>, nodes: seq<Node>) {
    if rows == [] then nodes == []
    else if rows[0].key in l.rowsByKey then
      nodes != [] && nodes[0].key == Some(rows[0].key) && nodes[0].stamp == rows[0].html &&
        Listed(l, rows[1..], nodes[1..])
    else Blank(rows[0].html) && Listed(l, rows[1..], nodes)
  }

  lemma {:induction false} ListedFrame(l: List, m: List, rows: seq<Row>, nodes: seq<Node>)
    requires Listed(l, rows, nodes) && l.rowsByKey.Keys == m.rowsByKey.Keys
    ensures Listed(m, rows, nodes)
  {
    if rows != [] {
      ListedFrame(l, m, rows[1..], if rows[0].key in l.rowsByKey then nodes[1..] else nodes);
    }
  }

  /** The children are `a`, then `x`, then `b`, with the insertion point between `x` and `b`. */
  ghost predicate Around(l: List, a: seq<Node>, x: seq<Node>, b: seq<Node>, marker: Option<nat>) {
    && l.children == a + x + b
    && (forall m :: m in a + x ==> marker != Some(m.id)) && (if b != [] then marker == Some(b[0].id) else marker.None?)
  }

  lemma {:induction false} WithoutOne(a: seq<Node>, n: Node, z: seq<Node>, k: Key)
    requires n.key == Some(k) && NoDup(Keys(a + ([n] + z)))
    ensures Without(a + ([n] + z), k) == a + z
  {
    KeysAppend(a, [n] + z);
    KeysAppend([n], z);
    NoDupParts(Keys(a), Keys([n] + z));
    assert Keys([n]) == [k] by { assert [n][1..] == []; }
    NoDupCons(k, Keys(z));
    hide NoDup;
    WithoutAppend(a, [n] + z, k);
    WithoutAppend([n], z, k);
    assert k in Keys([n] + z);
    WithoutAbsent(a, k);
    WithoutAbsent(z, k);
    assert Without([n], k) == [] by { assert [n][1..] == []; }
    assert [] + z == z;
  }

  /** A row that is already right moves to the insertion point as the node it is. */
  lemma {:induction false} UpsertListed(l: List, n: Node, row: Row, marker: Option<nat>, mk: Option<Key>)
    requires Valid(l) && Marks(l, marker, mk) && mk != Some(row.key)
    requires n in l.children && n.key == Some(row.key) && n.stamp == row.html
    ensures row.key in l.rowsByKey
    ensures Upsert(l, row, marker) == Some(l.(children := Put(Without(l.children, row.key), n, marker)))
  {
    FoundUnique(l.children, n);
    IdsMembers(l.children);
    assert Fresh(l, row) == Some(n);
    assert l.rowsByKey[row.key := n.id] == l.rowsByKey;
  }

  lemma {:induction false} AroundMoves(l: List, a: seq<Node>, n: Node, x: seq<Node>, b: seq<Node>, marker: Option<nat>)
    requires Around(l, a, [n] + x, b, marker)
    ensures Around(l.(children := a + (x + [n]) + b), a, x + [n], b, marker)
    ensures Put(a + (x + b), n, marker) == a + (x + [n]) + b
    ensures l.children == a + ([n] + (x + b)) && n in l.children
  {
    assert l.children == a + ([n] + (x + b)) && l.children[|a|] == n;
    assert forall m :: m in a + x ==> m in a + ([n] + x);
    PutSplit(a + x, b, n, marker);
    assert a + (x + b) == (a + x) + b;
    assert (a + x) + [n] + b == a + (x + [n]) + b;
    forall m | m in a + (x + [n]) ensures marker != Some(m.id) {
      assert m in a + ([n] + x);
    }
  }

  lemma {:induction false} RotateOnce(l: List, a: seq<Node>, n: Node, x: seq<Node>, b: seq<Node>, row: Row,
                                      marker: Option<nat>, mk: Option<Key>)
    requires Valid(l) && Marks(l, marker, mk) && mk != Some(row.key)
    requires Around(l, a, [n] + x, b, marker) && n.key == Some(row.key) && n.stamp == row.html
    ensures Upsert(l, row, marker) == Some(l.(children := a + (x + [n]) + b))
    ensures Around(l.(children := a + (x + [n]) + b), a, x + [n], b, marker)
    ensures row.key in l.rowsByKey
  {
    AroundMoves(l, a, n, x, b, marker);
    hide Around;
    UpsertListed(l, n, row, marker, mk);
    WithoutOne(a, n, x + b, row.key);
  }

  lemma {:induction false} Rotate(l: List, rows: seq<Row>, a: seq<Node>, x: seq<Node>, y: seq<Node>, b: seq<Node>,
                                  marker: Option<nat>, mk: Option<Key>)
    requires Valid(l) && Marks(l, marker, mk) && NoDup(RowKeys(rows)) && (mk.Some? ==> mk.value !in RowKeys(rows))
    requires Around(l, a, x + y, b, marker) && Listed(l, rows, x)
    ensures FoldUpsert(l, rows, marker, mk) == Some(l.(children := a + (y + x) + b))
    decreases rows
  {
    if rows == [] {
      assert y + x == x + y;
    } else {
      NoDupCons(rows[0].key, RowKeys(rows[1..]));
      UpsertValid(l, rows[0], marker, mk);
      assert mk != Some(rows[0].key);
      hide NoDup, Around;
      if rows[0].key in l.rowsByKey {
        var n, t := x[0], x[1..];
        RotateSeqs(n, t, y);
        assert x == [n] + t;
        RotateOnce(l, a, n, t + y, b, rows[0], marker, mk);
        var m := l.(children := a + (t + (y + [n])) + b);
        ListedFrame(l, m, rows[1..], t);
        hide Valid, Listed, Marks, Upsert;
        Rotate(m, rows[1..], a, t, y + [n], b, marker, mk);
      } else {
        Rotate(l, rows[1..], a, x, y, b, marker, mk);
      }
    }
  }

  lemma {:induction false} RotateSeqs(n: Node, t: seq<Node>, y: seq<Node>)
    ensures ([n] + t) + y == [n] + (t + y)
    ensures (t + y) + [n] == t + (y + [n])
    ensures (y + [n]) + t == y + ([n] + t)
  {}

  lemma {:induction false} FreshStamp(l: List, row: Row)
    requires Valid(l) && Fresh(l, row).Some?
    ensures Fresh(l, row).value.key == Some(row.key) && Fresh(l, row).value.stamp == row.html
  {}

  lemma {:induction false} UpsertPlaces(l: List, row: Row, marker: Option<nat>, mk: Option<Key>)
    requires Valid(l) && Marks(l, marker, mk) && mk != Some(row.key) && Fresh(l, row).Some?
    ensures Fresh(l, row).value.key == Some(row.key) && marker != Some(Fresh(l, row).value.id)
    ensures Upsert(l, row, marker) == Some(Placed(l, Fresh(l, row).value, marker))
  {
    IdsMembers(l.children);
  }

  /** One upsert in terms of the children around the insertion point. */
  lemma {:induction false} UpsertAround(l: List, row: Row, marker: Option<nat>, mk: Option<Key>, a: seq<Node>,
                                        p: seq<Node>, b: seq<Node>)
    requires Valid(l) && Marks(l, marker, mk) && mk != Some(row.key) && Fresh(l, row).Some?
    requires Around(l, a, p, b, marker) && row.key !in Keys(p)
    ensures Upsert(l, row, marker).Some?
    ensures Around(Upsert(l, row, marker).value, Without(a, row.key), p + [Fresh(l, row).value], Without(b, row.key),
            marker)
    ensures Upsert(l, row, marker).value.rowsByKey.Keys == l.rowsByKey.Keys + {row.key}
  {
    var n, k := Fresh(l, row).value, row.key;
    UpsertPlaces(l, row, marker, mk);
    MarkedChild(l, marker, mk);
    assert b != [] ==> b[0] in l.children;
    hide Valid, Marks, Fresh, Upsert;
    AroundUpsert(l.children, a, p, b, n, k, marker);
  }

  lemma {:induction false} AroundUpsert(ch: seq<Node>, a: seq<Node>, p: seq<Node>, b: seq<Node>, n: Node, k: Key,
                                        marker: Option<nat>)
    requires ch == a + p + b && (forall m :: m in a + p ==> marker != Some(m.id)) && k !in Keys(p) &&
             marker != Some(n.id)
    requires if b != [] then marker == Some(b[0].id) && b[0].key != Some(k) else marker.None?
    ensures Put(Without(ch, k), n, marker) == Without(a, k) + (p + [n]) + Without(b, k)
    ensures forall m :: m in Without(a, k) + (p + [n]) ==> marker != Some(m.id)
    ensures if Without(b, k) != [] then marker == Some(Without(b, k)[0].id) else marker.None?
  {
    var a', b' := Without(a, k), Without(b, k);
    WithoutAppend(a + p, b, k);
    WithoutAppend(a, p, k);
    WithoutAbsent(p, k);
    WithoutMembers(a, k);
    assert forall m :: m in a' + p ==> m in a + p;
    PutSplit(a' + p, b', n, marker);
    assert (a' + p) + [n] + b' == a' + (p + [n]) + b';
    forall m | m in a' + (p + [n]) ensures marker != Some(m.id) {
      assert m in a' + p || m == n;
    }
  }

  lemma {:induction false} KeysSnoc(p: seq<Node>, n: Node)
    requires n.key.Some?
    ensures Keys(p + [n]) == Keys(p) + [n.key.value]
  {
    KeysAppend(p, [n]);
    assert [n][1..] == [];
  }

  lemma {:induction false} FoldShape(l: List, rows: seq<Row>, marker: Option<nat>, mk: Option<Key>, a: seq<Node>,
                                     p: seq<Node>, b: seq<Node>)
    returns (a': seq<Node>, q: seq<Node>, b': seq<Node>)
    requires Valid(l) && Marks(l, marker, mk) && NoDup(RowKeys(rows)) && (mk.Some? ==> mk.value !in RowKeys(rows))
    requires Around(l, a, p, b, marker) && forall k :: k in RowKeys(rows) ==> k !in Keys(p)
    ensures FoldUpsert(l, rows, marker, mk).Some?
    ensures var out := FoldUpsert(l, rows, marker, mk).value;
            && Valid(out) && Marks(out, marker, mk) && Around(out, a', p + q, b', marker) && Listed(out, rows, q)
            && forall j :: j !in RowKeys(rows) ==> (j in out.rowsByKey <==> j in l.rowsByKey)
    decreases rows
  {
    if rows == [] {
      a', q, b' := a, [], b;
      assert p + q == p;
    } else {
      var row, rest := rows[0], rows[1..];
      NoDupCons(row.key, RowKeys(rest));
      assert mk != Some(row.key);
      UpsertFacts(l, row, marker, mk);
      UpsertValid(l, row, marker, mk);
      var m := Upsert(l, row, marker).value;
      if Fresh(l, row).Some? {
        var n := Fresh(l, row).value;
        FreshStamp(l, row);
        UpsertAround(l, row, marker, mk, a, p, b);
        KeysSnoc(p, n);
        forall k | k in RowKeys(rest) ensures k !in Keys(p + [n]) {
          assert k in RowKeys(rows) && k != row.key;
        }
        hide Lands, Around, Marks, Valid, NoDup, Upsert, Fresh;
        var q';
        a', q', b' := FoldShape(m, rest, marker, mk, Without(a, row.key), p + [n], Without(b, row.key));
        q := [n] + q';
        RotateSeqs(n, q', p);
        assert q[1..] == q';
      } else {
        a', q, b' := FoldShape(l, rest, marker, mk, a, p, b);
      }
    }
  }

  lemma {:induction false} MarkerSplit(l: List, marker: Option<nat>, mk: Option<Key>)
    returns (a: seq<Node>, b: seq<Node>)
    requires Valid(l) && Marks(l, marker, mk)
    ensures Around(l, a, [], b, marker)
  {
    if mk.None? {
      a, b := l.children, [];
      assert a + [] + b == l.children;
    } else {
      var n := Find(l.children, mk.value);
      var at :| 0 <= at < |l.children| && l.children[at] == n;
      a, b := l.children[..at], l.children[at..];
      assert a + [] == a && a + b == l.children;
      forall m | m in a ensures marker != Some(m.id) {
        var i :| 0 <= i < at && l.children[i] == m;
        IdAt(l.children, i);
        IdAt(l.children, at);
        assert Ids(l.children)[i] != Ids(l.children)[at];
      }
    }
  }

  lemma {:induction false} IdAt(ch: seq<Node>, i: nat)
    requires i < |ch|
    ensures |Ids(ch)| == |ch| && Ids(ch)[i] == ch[i].id
  {
    if i > 0 {
      IdAt(ch[1..], i - 1);
    } else {
      IdsLength(ch);
    }
  }

  lemma {:induction false} IdsLength(ch: seq<Node>)
    ensures |Ids(ch)| == |ch|
  {
    if ch != [] {
      IdsLength(ch[1..]);
    }
  }

  /** Delivering the same insert twice is the same as delivering it once, node for node. */
  lemma {:induction false} InsertReplays(l: List, before: Option<Key>, rows: seq<Row>)
    requires Valid(l) && NoDup(RowKeys(rows)) && (before.Some? ==> before.value !in RowKeys(rows))
    ensures ApplyInsert(l, before, rows).Some? && Valid(ApplyInsert(l, before, rows).value)
    ensures ApplyInsert(ApplyInsert(l, before, rows).value, before, rows) == ApplyInsert(l, before, rows)
  {
    var mk := Position(l, before);
    var marker := if mk.Some? then Some(l.rowsByKey[mk.value]) else None;
    var a, b := MarkerSplit(l, marker, mk);
    var a', q, b' := FoldShape(l, rows, marker, mk, a, [], b);
    var out := FoldUpsert(l, rows, marker, mk).value;
    assert [] + q == q && q + [] == q;
    Rotate(out, rows, a', q, [], b', marker, mk);
  }
}
