/** What one list does does not depend on node identities: twins stay twins. Also exactly when an
    insert throws. */
module ListTwins {
  import opened Prelude
  import opened ListSink
  import opened ListDelta

  datatype Op =
    | SlotDelta(changes: seq<Change>)
    | SlotInsert(before: Option<Key>, rows: seq<Row>)
    | ReconcileList(rows: seq<Row>)

  /** One operation on one bound list; `None` when `insertBefore` throws. */
  function ApplyOp(l: List, op: Op): Option<List>
    requires Valid(l)
  {
    match op
    case SlotDelta(changes) => Some(ApplyDelta(l, changes))
    case SlotInsert(before, rows) => ApplyInsert(l, before, rows)
    case ReconcileList(rows) => ApplyReconcile(l, rows)
  }

  // ---- Every operation keeps the bijection ------------------------------------------------------

  lemma {:induction false} FoldValid(l: List, rows: seq<Row>, marker: Option<nat>, mk: Option<Key>)
    requires Valid(l) && Marks(l, marker, mk)
    ensures FoldUpsert(l, rows, marker, mk).Some? ==> Valid(FoldUpsert(l, rows, marker, mk).value)
    ensures mk.None? ==> FoldUpsert(l, rows, marker, mk).Some?
    decreases rows
  {
    if rows != [] {
      UpsertValid(l, rows[0], marker, mk);
      if mk.None? {
        UpsertFacts(l, rows[0], marker, mk);
      }
      match Upsert(l, rows[0], marker)
      case None =>
      case Some(m) => FoldValid(m, rows[1..], marker, mk);
    }
  }

  lemma {:induction false} AllValid(l: List, steps: seq<Step>)
    requires Valid(l) && Fits(l, steps)
    ensures Valid(ApplyAll(l, steps))
    decreases steps
  {
    if steps != [] {
      FitsRest(l, steps);
      ApplyFacts(l, steps[0]);
      AllValid(Apply(l, steps[0]), steps[1..]);
    }
  }

  lemma {:induction false} OpValid(l: List, op: Op)
    requires Valid(l)
    ensures ApplyOp(l, op).Some? ==> Valid(ApplyOp(l, op).value)
    ensures !op.SlotInsert? ==> ApplyOp(l, op).Some?
  {
    match op
    case SlotDelta(changes) =>
      PlanFits(l, changes);
      AllValid(l, Plan(changes, l.rowsByKey.Keys));
    case SlotInsert(before, rows) =>
      if before.Some? && before.value in l.rowsByKey {
        FoldValid(l, rows, Some(l.rowsByKey[before.value]), before);
      } else {
        FoldValid(l, rows, None, None);
      }
    case ReconcileList(rows) =>
      KeepFacts(l, RowKeys(rows));
      FoldValid(KeepOnly(l, RowKeys(rows)), rows, None, None);
  }

  // ---- Exactly when an insert throws ---------------------------------------------------------------

  /** Some row named `k` brings markup its node does not show, and so rebuilds that node. */
  predicate Rebuilds(rows: seq<Row>, k: Key, stamp: Html) {
    rows != []
    && if rows[0].key != k then Rebuilds(rows[1..], k, stamp)
       else (rows[0].html != stamp && !Blank(rows[0].html)) || Rebuilds(rows[1..], k, rows[0].html)
  }

  /** An insert throws if and only if it rebuilds the very row it is to land ahead of. */
  lemma {:induction false} ThrowsIffRebuilt(l: List, before: Option<Key>, rows: seq<Row>)
    requires Valid(l)
    ensures ApplyInsert(l, before, rows).None? <==>
              before.Some? && before.value in l.rowsByKey &&
                Rebuilds(rows, before.value, Find(l.children, before.value).stamp)
  {
    if before.Some? && before.value in l.rowsByKey {
      FoldThrows(l, before.value, rows);
    } else {
      FoldValid(l, rows, None, None);
    }
  }

  lemma {:induction false} ThrowStep(l: List, k: Key, row: Row)
    requires Valid(l) && k in l.rowsByKey
    ensures var stamp, out := Find(l.children, k).stamp, Upsert(l, row, Some(l.rowsByKey[k]));
            && (out.None? <==> row.key == k && row.html != stamp && !Blank(row.html))
            && (out.Some? ==> Valid(out.value) && k in out.value.rowsByKey && out.value.rowsByKey[k] == l.rowsByKey[k]
                              && Find(out.value.children, k).stamp == if row.key == k then row.html else stamp)
  {
    var marker := Some(l.rowsByKey[k]);
    UpsertValid(l, row, marker, Some(k));
    if row.key != k {
      UpsertFacts(l, row, marker, Some(k));
    } else {
      FindIn(l, k);
      var n := Fresh(l, row).value;
      assert n.id != l.next <==> !(row.html != Find(l.children, k).stamp && !Blank(row.html));
      if n.id != l.next {
        SwapFacts(l.children, k, n);
      }
    }
  }

  lemma {:induction false} FoldThrows(l: List, k: Key, rows: seq<Row>)
    requires Valid(l) && k in l.rowsByKey
    ensures FoldUpsert(l, rows, Some(l.rowsByKey[k]), Some(k)).None? <==> Rebuilds(rows, k, Find(l.children, k).stamp)
    decreases rows
  {
    if rows != [] {
      ThrowStep(l, k, rows[0]);
      var out := Upsert(l, rows[0], Some(l.rowsByKey[k]));
      hide Valid, Upsert, Find;
      if out.Some? {
        FoldThrows(out.value, k, rows[1..]);
      }
    }
  }

  /** A throwing upsert of `k` has detached the old node and registered the new one, which is nowhere. */
  function Torn(l: List, k: Key): List { List(Without(l.children, k), l.rowsByKey[k := l.next], l.next + 1) }

  /** `k` alone is registered to a node the anchor does not have. */
  ghost predicate Lost(l: List, k: Key) {
    k in l.rowsByKey && k !in Keys(l.children) && Valid(l.(rowsByKey := l.rowsByKey - {k}))
  }

  lemma {:induction false} LostInvalid(l: List, k: Key)
    requires Lost(l, k)
    ensures !Valid(l)
  {}

  lemma {:induction false} Reregistered(m: map<Key, nat>, k: Key, id: nat)
    ensures m[k := id] - {k} == m - {k}
  {}

  lemma {:induction false} LostIs(ch: seq<Node>, rows: map<Key, nat>, next: nat, k: Key, id: nat)
    requires Valid(List(ch, rows - {k}, next)) && k !in Keys(ch)
    ensures Lost(List(ch, rows[k := id], next + 1), k)
  {
    Reregistered(rows, k, id);
    hide Keys, Ids, Find, NoDup;
    assert Valid(List(ch, rows - {k}, next + 1));
  }

  lemma {:induction false} TornLost(l: List, k: Key)
    requires Valid(l) && k in l.rowsByKey
    ensures Lost(Torn(l, k), k)
  {
    DropValid(l, k);
    assert k !in Minus(Keys(l.children), {k});
    LostIs(Without(l.children, k), l.rowsByKey, l.next, k, l.next);
  }

  /** The list as a throw leaves it: the rows ahead of the throwing one are in, the rest are not. */
  function FoldTorn(l: List, rows: seq<Row>, marker: Option<nat>, mk: Option<Key>): List
    requires Valid(l) && Marks(l, marker, mk) && FoldUpsert(l, rows, marker, mk).None?
    decreases rows
  {
    UpsertValid(l, rows[0], marker, mk);
    match Upsert(l, rows[0], marker)
    case None => Torn(l, rows[0].key)
    case Some(m) => FoldTorn(m, rows[1..], marker, mk)
  }

  function TornInsert(l: List, before: Option<Key>, rows: seq<Row>): List
    requires Valid(l) && ApplyInsert(l, before, rows).None?
  {
    if before.Some? && before.value in l.rowsByKey then FoldTorn(l, rows, Some(l.rowsByKey[before.value]), before)
    else FoldTorn(l, rows, None, None)
  }

  function TornOp(l: List, op: Op): List
    requires Valid(l) && ApplyOp(l, op).None?
  {
    match op
    case SlotInsert(before, rows) => TornInsert(l, before, rows)
    case SlotDelta(_) => l
    case ReconcileList(_) => l
  }

  lemma {:induction false} FoldLost(l: List, rows: seq<Row>, marker: Option<nat>, mk: Option<Key>)
    requires Valid(l) && Marks(l, marker, mk) && FoldUpsert(l, rows, marker, mk).None?
    ensures mk.Some? && Lost(FoldTorn(l, rows, marker, mk), mk.value)
    decreases rows
  {
    UpsertValid(l, rows[0], marker, mk);
    match Upsert(l, rows[0], marker)
    case None =>
      if mk != Some(rows[0].key) {
        UpsertFacts(l, rows[0], marker, mk);
      }
      TornLost(l, rows[0].key);
    case Some(m) =>
      FoldLost(m, rows[1..], marker, mk);
  }

  /** The first `j` rows have landed, and the next one has taken its own position out. */
  ghost predicate TornAfter(l: List, rows: seq<Row>, marker: Option<nat>, mk: Option<Key>, j: nat, out: List)
    requires Valid(l) && Marks(l, marker, mk)
  {
    && j < |rows| && mk == Some(rows[j].key) && FoldUpsert(l, rows[..j], marker, mk).Some?
    && var m := FoldUpsert(l, rows[..j], marker, mk).value;
       && out.children == Without(m.children, rows[j].key)
       && out.rowsByKey == m.rowsByKey[rows[j].key := m.next] && out.next == m.next + 1
  }

  lemma {:induction false} FoldTornAfter(l: List, rows: seq<Row>, marker: Option<nat>, mk: Option<Key>) returns (j: nat)
    requires Valid(l) && Marks(l, marker, mk) && FoldUpsert(l, rows, marker, mk).None?
    ensures TornAfter(l, rows, marker, mk, j, FoldTorn(l, rows, marker, mk))
    decreases rows
  {
    UpsertValid(l, rows[0], marker, mk);
    match Upsert(l, rows[0], marker)
    case None =>
      j := 0;
      if mk != Some(rows[0].key) {
        UpsertFacts(l, rows[0], marker, mk);
      }
    case Some(m) =>
      var i := FoldTornAfter(m, rows[1..], marker, mk);
      j := i + 1;
      assert rows[..j][1..] == rows[1..][..i] && rows[..j][0] == rows[0];
  }

  /** A throw loses the row the insert was to land ahead of, and no other. */
  lemma {:induction false} ThrowLoses(l: List, op: Op)
    requires Valid(l) && ApplyOp(l, op).None?
    ensures op.SlotInsert? && op.before.Some? && op.before.value in l.rowsByKey
    ensures Lost(TornOp(l, op), op.before.value) && !Valid(TornOp(l, op))
  {
    OpValid(l, op);
    ThrowsIffRebuilt(l, op.before, op.rows);
    FoldLost(l, op.rows, Some(l.rowsByKey[op.before.value]), op.before);
    LostInvalid(TornOp(l, op), op.before.value);
  }

  /** A list of one row, and an insert ahead of that row that carries the row itself with new markup. */
  lemma {:induction false} OwnRowThrows(k: Key, html: Html, new': Html)
    requires html != new' && !Blank(new')
    ensures var l := List([Node(0, Some(k), html, html)], map[k := 0], 1);
            && Valid(l) && ApplyInsert(l, Some(k), [Row(k, new')]).None?
            && TornInsert(l, Some(k), [Row(k, new')]) == List([], map[k := 1], 2)
  {
    var n := Node(0, Some(k), html, html);
    var l := List([n], map[k := 0], 1);
    assert [n][1..] == [];
    assert Keys(l.children) == [k] && Ids(l.children) == [0] && Find(l.children, k) == n;
    assert [Row(k, new')][1..] == [];
    assert Without(l.children, k) == [];
    assert map[k := 0][k := 1] == map[k := 1];
    ThrowsIffRebuilt(l, Some(k), [Row(k, new')]);
  }

  // ---- Twins ---------------------------------------------------------------------------------------

  /** The same rows up to node identity. */
  predicate Alike(a: seq<Node>, b: seq<Node>) {
    |a| == |b|
    && (a != [] ==>
         a[0].key == b[0].key && a[0].markup == b[0].markup && a[0].stamp == b[0].stamp && Alike(a[1..], b[1..]))
  }

  predicate Twins(l: List, m: List) { Alike(l.children, m.children) }

  lemma {:induction false} AlikeKeys(a: seq<Node>, b: seq<Node>)
    requires Alike(a, b)
    ensures Keys(a) == Keys(b)
    ensures forall k :: k in Keys(a) ==>
              Find(a, k).key == Find(b, k).key && Find(a, k).markup == Find(b, k).markup &&
                Find(a, k).stamp == Find(b, k).stamp
  {
    if a != [] {
      AlikeKeys(a[1..], b[1..]);
    }
  }

  lemma {:induction false} TwinKeys(l: List, m: List)
    requires Valid(l) && Valid(m) && Twins(l, m)
    ensures l.rowsByKey.Keys == m.rowsByKey.Keys
    ensures forall k :: k in l.rowsByKey ==>
              Find(l.children, k).markup == Find(m.children, k).markup &&
                Find(l.children, k).stamp == Find(m.children, k).stamp
  {
    AlikeKeys(l.children, m.children);
    assert forall k :: k in l.rowsByKey <==> k in m.rowsByKey;
  }

  lemma {:induction false} AlikeCons(x: Node, y: Node, a: seq<Node>, b: seq<Node>)
    requires x.key == y.key && x.markup == y.markup && x.stamp == y.stamp && Alike(a, b)
    ensures Alike([x] + a, [y] + b)
  {
    assert ([x] + a)[1..] == a && ([y] + b)[1..] == b;
  }

  lemma {:induction false} AlikeWithout(a: seq<Node>, b: seq<Node>, k: Key)
    requires Alike(a, b)
    ensures Alike(Without(a, k), Without(b, k))
  {
    if a != [] {
      AlikeWithout(a[1..], b[1..], k);
      AlikeCons(a[0], b[0], Without(a[1..], k), Without(b[1..], k));
    }
  }

  lemma {:induction false} AlikeRetain(a: seq<Node>, b: seq<Node>, gone: set<Key>)
    requires Alike(a, b)
    ensures Alike(Retain(a, gone), Retain(b, gone))
  {
    if a != [] {
      AlikeRetain(a[1..], b[1..], gone);
      AlikeCons(a[0], b[0], Retain(a[1..], gone), Retain(b[1..], gone));
    }
  }

  lemma {:induction false} AlikeSwap(a: seq<Node>, b: seq<Node>, k: Key, x: Node, y: Node)
    requires Alike(a, b) && x.key == y.key && x.markup == y.markup && x.stamp == y.stamp
    ensures Alike(Swap(a, k, x), Swap(b, k, y))
  {
    if a != [] {
      AlikeSwap(a[1..], b[1..], k, x, y);
      AlikeCons(a[0], b[0], Swap(a[1..], k, x), Swap(b[1..], k, y));
      AlikeCons(x, y, a[1..], b[1..]);
    }
  }

  lemma {:induction false} AlikePut(a: seq<Node>, b: seq<Node>, x: Node, y: Node, ma: Option<nat>, mb: Option<nat>,
                                    mk: Option<Key>)
    requires Alike(a, b) && x.key == y.key && x.markup == y.markup && x.stamp == y.stamp
    requires (ma.None? <==> mk.None?) && (mb.None? <==> mk.None?)
    requires ma.Some? ==> forall m :: m in a ==> (m.id == ma.value <==> m.key == mk)
    requires mb.Some? ==> forall m :: m in b ==> (m.id == mb.value <==> m.key == mk)
    ensures Alike(Put(a, x, ma), Put(b, y, mb))
  {
    if a != [] {
      assert a[0] in a && b[0] in b;
      AlikePut(a[1..], b[1..], x, y, ma, mb, mk);
      AlikeCons(a[0], b[0], Put(a[1..], x, ma), Put(b[1..], y, mb));
    }
    AlikeCons(x, y, a, b);
  }

  lemma {:induction false} TwinFresh(l: List, m: List, row: Row)
    requires Valid(l) && Valid(m) && Twins(l, m)
    ensures Fresh(l, row).Some? <==> Fresh(m, row).Some?
    ensures Fresh(l, row).Some? ==>
              var x, y := Fresh(l, row).value, Fresh(m, row).value;
              && x.key == y.key == Some(row.key) && x.markup == y.markup && x.stamp == y.stamp &&
                (x.id == l.next <==> y.id == m.next)
  {
    TwinKeys(l, m);
    if row.key in l.rowsByKey {
      FindIn(l, row.key);
      FindIn(m, row.key);
    }
  }

  lemma {:induction false} TwinUpsert(l: List, m: List, row: Row, ml: Option<nat>, mm: Option<nat>, mk: Option<Key>)
    requires Valid(l) && Valid(m) && Twins(l, m) && Marks(l, ml, mk) && Marks(m, mm, mk)
    ensures Upsert(l, row, ml).Some? <==> Upsert(m, row, mm).Some?
    ensures Upsert(l, row, ml).Some? ==> Twins(Upsert(l, row, ml).value, Upsert(m, row, mm).value)
  {
    TwinFresh(l, m, row);
    TwinKeys(l, m);
    if Fresh(l, row).Some? {
      var x, y, k := Fresh(l, row).value, Fresh(m, row).value, row.key;
      OwnIff(l, ml, mk, k);
      OwnIff(m, mm, mk, k);
      if mk == Some(k) {
        AlikeSwap(l.children, m.children, k, x, y);
      } else {
        DropValid(l, k);
        DropValid(m, k);
        AlikeWithout(l.children, m.children, k);
        MarkedChild(Drop(l, k), ml, mk);
        MarkedChild(Drop(m, k), mm, mk);
        AlikePut(Without(l.children, k), Without(m.children, k), x, y, ml, mm, mk);
      }
    }
  }

  lemma {:induction false} OwnIff(l: List, marker: Option<nat>, mk: Option<Key>, k: Key)
    requires Valid(l) && Marks(l, marker, mk)
    ensures k in l.rowsByKey && marker == Some(l.rowsByKey[k]) <==> mk == Some(k)
  {
    IdsMembers(l.children);
  }

  lemma {:induction false} TwinFold(l: List, m: List, rows: seq<Row>, ml: Option<nat>, mm: Option<nat>, mk: Option<Key>)
    requires Valid(l) && Valid(m) && Twins(l, m) && Marks(l, ml, mk) && Marks(m, mm, mk)
    ensures FoldUpsert(l, rows, ml, mk).Some? <==> FoldUpsert(m, rows, mm, mk).Some?
    ensures FoldUpsert(l, rows, ml, mk).Some? ==>
            Twins(FoldUpsert(l, rows, ml, mk).value, FoldUpsert(m, rows, mm, mk).value)
    decreases rows
  {
    if rows != [] {
      TwinUpsert(l, m, rows[0], ml, mm, mk);
      UpsertValid(l, rows[0], ml, mk);
      UpsertValid(m, rows[0], mm, mk);
      if Upsert(l, rows[0], ml).Some? {
        TwinFold(Upsert(l, rows[0], ml).value, Upsert(m, rows[0], mm).value, rows[1..], ml, mm, mk);
      }
    }
  }

  lemma {:induction false} TwinApply(l: List, m: List, s: Step)
    requires Valid(l) && Valid(m) && Twins(l, m)
    ensures Twins(Apply(l, s), Apply(m, s))
  {
    TwinKeys(l, m);
    match s
    case Insert(k, p) =>
      var x, y := Node(l.next, Some(k), p, p), Node(m.next, Some(k), p, p);
      AlikePut(l.children, m.children, x, y, None, None, None);
      PutLast(l.children, x);
      PutLast(m.children, y);
    case Remove(k) =>
      AlikeWithout(l.children, m.children, k);
    case Patch(k, p) =>
      AlikeSwap(l.children, m.children, k, Node(l.next, Some(k), p, p), Node(m.next, Some(k), p, p));
  }

  lemma {:induction false} TwinAll(l: List, m: List, steps: seq<Step>)
    requires Valid(l) && Valid(m) && Twins(l, m) && Fits(l, steps) && Fits(m, steps)
    ensures Twins(ApplyAll(l, steps), ApplyAll(m, steps))
    decreases steps
  {
    if steps != [] {
      FitsRest(l, steps);
      FitsRest(m, steps);
      ApplyFacts(l, steps[0]);
      ApplyFacts(m, steps[0]);
      TwinApply(l, m, steps[0]);
      TwinAll(Apply(l, steps[0]), Apply(m, steps[0]), steps[1..]);
    }
  }

  /** Two renderings of one topic that agree still agree after any operation, or both throw. */
  lemma {:induction false} TwinOp(l: List, m: List, op: Op)
    requires Valid(l) && Valid(m) && Twins(l, m)
    ensures ApplyOp(l, op).Some? <==> ApplyOp(m, op).Some?
    ensures ApplyOp(l, op).Some? ==> Twins(ApplyOp(l, op).value, ApplyOp(m, op).value)
  {
    TwinKeys(l, m);
    match op
    case SlotDelta(changes) =>
      PlanFits(l, changes);
      PlanFits(m, changes);
      TwinAll(l, m, Plan(changes, l.rowsByKey.Keys));
    case SlotInsert(before, rows) =>
      if before.Some? && before.value in l.rowsByKey {
        TwinFold(l, m, rows, Some(l.rowsByKey[before.value]), Some(m.rowsByKey[before.value]), before);
      } else {
        TwinFold(l, m, rows, None, None, None);
      }
    case ReconcileList(rows) =>
      var keep := RowKeys(rows);
      KeepFacts(l, keep);
      KeepFacts(m, keep);
      AlikeRetain(l.children, m.children, set k | k in l.rowsByKey && k !in keep);
      assert (set k | k in l.rowsByKey && k !in keep) == (set k | k in m.rowsByKey && k !in keep);
      TwinFold(KeepOnly(l, keep), KeepOnly(m, keep), rows, None, None, None);
  }
}
