/** The runtime that owns the lists: bound anchors per slot, and operations that wait for one. */
module ListRuntime {
  import opened Prelude
  import opened ListSink
  import opened ListDelta
  import opened ListTwins
  import ListSeed

  /** One bound anchor, changed in place. */
  class KeyedList {
    var anchor: nat
    var children: seq<Node>
    var rowsByKey: map<Key, nat>
    var next: nat

    function Value(): List reads this { List(children, rowsByKey, next) }

    /** Bind an anchor over the rows it was rendered with. */
    constructor (anchor: nat, rendered: seq<ListSeed.Child>, next: nat)
      requires ListSeed.Distinct(rendered, next)
      ensures this.anchor == anchor && Value() == ListSeed.Seeded(rendered, next) && Valid(Value())
    {
      this.anchor := anchor;
      new;
      var l := ListSeed.SeedRowsByKey(rendered, next);
      this.children, this.rowsByKey, this.next := l.children, l.rowsByKey, l.next;
    }

    /** The list object of a binding. */
    constructor Open(anchor: nat, list: List)
      ensures this.anchor == anchor && Value() == list
    {
      this.anchor, children, rowsByKey, next := anchor, list.children, list.rowsByKey, list.next;
    }

    method ApplyStep(step: Step)
      requires Valid(Value())
      modifies this`children, this`rowsByKey, this`next
      ensures Value() == Apply(old(Value()), step)
    {
      match step {
        case Insert(key, payload) =>
          if !Blank(payload) {
            children := children + [Node(next, Some(key), payload, payload)];
            rowsByKey := rowsByKey[key := next];
            next := next + 1;
          }
        case Remove(key) =>
          children := Without(children, key);
          rowsByKey := rowsByKey - {key};
        case Patch(key, payload) =>
          if key in rowsByKey {
            var existing := Find(children, key);
            if existing.stamp != payload && !Blank(payload) {
              children := Swap(children, key, Node(next, Some(key), payload, payload));
              rowsByKey := rowsByKey[key := next];
              next := next + 1;
            }
          }
      }
    }

    method ApplySlotDelta(changes: seq<Change>)
      requires Valid(Value())
      modifies this
      ensures anchor == old(anchor) && Valid(Value()) && Value() == ApplyDelta(old(Value()), changes)
    {
      var plan := ReconcileSlotDelta(changes, rowsByKey.Keys);
      ghost var start := Value();
      PlanFits(start, changes);
      hide Valid;
      var i := 0;
      while i < |plan|
        invariant 0 <= i <= |plan| && anchor == old(anchor)
        invariant Valid(Value()) && Fits(Value(), plan[i..])
        invariant ApplyAll(Value(), plan[i..]) == ApplyDelta(start, changes)
      {
        FitsRest(Value(), plan[i..]);
        ApplyFacts(Value(), plan[i]);
        assert plan[i..][1..] == plan[i + 1..];
        ApplyStep(plan[i]);
        i := i + 1;
      }
    }

    /** Drop the rows whose key is not in `keep`, in whatever order the map yields them. */
    method DropOthers(keep: seq<Key>)
      modifies this`children, this`rowsByKey
      ensures Value() == KeepOnly(old(Value()), keep)
    {
      ghost var start := Value();
      var held := rowsByKey.Keys;
      ghost var left: set<Key> := {};
      RetainNothing(children);
      while held != {}
        invariant held <= start.rowsByKey.Keys && next == start.next
        invariant left == set k | k in start.rowsByKey && k !in held && k !in keep
        invariant children == Retain(start.children, left) && rowsByKey == start.rowsByKey - left
        decreases held
      {
        var key :| key in held;
        if key !in keep {
          RetainMore(start.children, left, key);
          children := Without(children, key);
          rowsByKey := rowsByKey - {key};
          left := left + {key};
        }
        held := held - {key};
      }
      assert left == set k | k in start.rowsByKey && k !in keep;
    }

    /** Drop the rows that are not wanted any more, then upsert the wanted ones at the tail. */
    method ApplyReconcileList(rows: seq<Row>)
      requires Valid(Value())
      modifies this
      ensures anchor == old(anchor) && Valid(Value()) && ApplyReconcile(old(Value()), rows) == Some(Value())
    {
      ghost var start := Value();
      KeepFacts(start, RowKeys(rows));
      FoldValid(KeepOnly(start, RowKeys(rows)), rows, None, None);
      hide Valid;
      DropOthers(RowKeys(rows));
      var ok := UpsertRows(rows, None, None);
    }

    /** Rows at the tail, or ahead of the row named `before` while the list holds it. */
    method ApplySlotInsert(before: Option<Key>, rows: seq<Row>) returns (ok: bool)
      requires Valid(Value())
      modifies this
      ensures anchor == old(anchor)
      ensures ok <==> ApplyInsert(old(Value()), before, rows).Some?
      ensures ok <==> Valid(Value())
      ensures ok ==> ApplyInsert(old(Value()), before, rows) == Some(Value())
      ensures !ok ==> Value() == TornInsert(old(Value()), before, rows)
    {
      var marker: Option<nat> := None;
      if before.Some? && before.value in rowsByKey {
        marker := Some(rowsByKey[before.value]);
      }
      ok := UpsertRows(rows, marker, if marker.Some? then before else None);
    }

    method UpsertRows(rows: seq<Row>, marker: Option<nat>, ghost mk: Option<Key>) returns (ok: bool)
      requires Valid(Value()) && Marks(Value(), marker, mk)
      modifies this`children, this`rowsByKey, this`next
      ensures ok <==> FoldUpsert(old(Value()), rows, marker, mk).Some?
      ensures ok <==> Valid(Value())
      ensures ok ==> FoldUpsert(old(Value()), rows, marker, mk) == Some(Value())
      ensures !ok ==> Value() == FoldTorn(old(Value()), rows, marker, mk)
    {
      ghost var start, whole := Value(), FoldUpsert(Value(), rows, marker, mk);
      hide Valid, Upsert, Marks, Torn;
      var i := 0;
      while i < |rows|
        invariant 0 <= i <= |rows|
        invariant Valid(Value()) && Marks(Value(), marker, mk)
        invariant whole == FoldUpsert(Value(), rows[i..], marker, mk)
        invariant whole.None? ==> FoldTorn(start, rows, marker, mk) == FoldTorn(Value(), rows[i..], marker, mk)
      {
        UpsertValid(Value(), rows[i], marker, mk);
        assert rows[i..][1..] == rows[i + 1..];
        ok := UpsertRow(rows[i], marker, mk);
        if !ok {
          FoldBroken(start, rows, marker, mk);
          return;
        }
        i := i + 1;
      }
      ok := true;
    }

    /** The row's node: the one there is, or a new one, for which the old one is detached. */
    method FreshNode(row: Row) returns (node: Option<Node>)
      requires Valid(Value())
      modifies this`children, this`next
      ensures node == Fresh(old(Value()), row)
      ensures var made := node.Some? && node.value.id == old(next);
              next == (if made then old(next) + 1 else old(next))
              && children == if made then Without(old(children), row.key) else old(children)
    {
      ghost var was := Value();
      FoundBelow(was, row.key);
      hide Valid, Without, Find;
      if row.key !in rowsByKey {
        if Blank(row.html) {
          return None;
        }
        node := Some(Node(next, Some(row.key), row.html, row.html));
        next := next + 1;
      } else {
        var found := Find(children, row.key);
        if found.stamp != row.html && !Blank(row.html) {
          children := Without(children, row.key);
          found := Node(next, Some(row.key), row.html, row.html);
          next := next + 1;
        }
        node := Some(found.(stamp := row.html));
      }
    }

    /** Find or build the row's node, then `insertBefore` the marker; false when that throws. */
    method UpsertRow(row: Row, marker: Option<nat>, ghost mk: Option<Key>) returns (ok: bool)
      requires Valid(Value()) && Marks(Value(), marker, mk)
      modifies this`children, this`rowsByKey, this`next
      ensures ok <==> Upsert(old(Value()), row, marker).Some?
      ensures ok ==> Value() == Upsert(old(Value()), row, marker).value
      ensures !ok ==> Value() == Torn(old(Value()), row.key)
    {
      ghost var was := Value();
      var made := FreshNode(row);
      NoneFresh(was, row, marker);
      if made.Some? {
        FreshUpsert(was, row, marker, mk, children);
      }
      hide *;
      if made.None? {
        return true;
      }
      var node := made.value;
      rowsByKey := rowsByKey[row.key := node.id];
      if marker.Some? && marker.value !in Ids(children) {
        return false;
      }
      if marker == Some(node.id) {
        children := Swap(children, row.key, node);
      } else {
        children := Put(Without(children, row.key), node, marker);
      }
      ok := true;
    }
  }

  /** A row's own node is older than any made from now on, and a row that is not held has none. */
  lemma {:induction false} FoundBelow(l: List, k: Key)
    requires Valid(l)
    ensures k in l.rowsByKey ==> Find(l.children, k).id == l.rowsByKey[k] < l.next
    ensures k !in l.rowsByKey ==> Without(l.children, k) == l.children
  {
    if k in l.rowsByKey {
      FindIn(l, k);
    } else {
      WithoutAbsent(l.children, k);
    }
  }

  lemma {:induction false} FreshKeyed(l: List, row: Row)
    requires Valid(l) && Fresh(l, row).Some?
    ensures Fresh(l, row).value.key == Some(row.key)
    ensures Fresh(l, row).value.id == l.next ||
            (row.key in l.rowsByKey && Fresh(l, row).value.id == l.rowsByKey[row.key])
  {
    FoundBelow(l, row.key);
    if row.key in l.rowsByKey {
      FindIn(l, row.key);
    }
  }

  lemma {:induction false} NoneFresh(l: List, row: Row, marker: Option<nat>)
    requires Valid(l)
    ensures Fresh(l, row).None? ==> Upsert(l, row, marker) == Some(l)
  {}

  /** From the row's node to the list, in the three ways `insertBefore` can go. */
  lemma {:induction false} FreshUpsert(l: List, row: Row, marker: Option<nat>, mk: Option<Key>, ch: seq<Node>)
    requires Valid(l) && Marks(l, marker, mk) && Fresh(l, row).Some?
    requires ch == if Fresh(l, row).value.id == l.next then Without(l.children, row.key) else l.children
    ensures var n := Fresh(l, row).value;
            var keyed, next := l.rowsByKey[row.key := n.id], if n.id == l.next then l.next + 1 else l.next;
            if marker.Some? && marker.value !in Ids(ch) then
              Upsert(l, row, marker).None? && Torn(l, row.key) == List(ch, keyed, next)
            else
              Upsert(l, row, marker)
              == Some(List(if marker == Some(n.id) then Swap(ch, row.key, n) else Put(Without(ch, row.key), n, marker),
                           keyed, next))
  {
    MarkerStays(l, row.key, marker, mk);
    OwnIff(l, marker, mk, row.key);
    FoundBelow(l, row.key);
    FreshKeyed(l, row);
    var n := Fresh(l, row).value;
    hide Valid, Marks, Fresh, Find, Ids, Without, Put, Swap;
    if n.id == l.next {
      assert marker != Some(n.id);
    } else {
      assert row.key in l.rowsByKey && n.id == l.rowsByKey[row.key];
      assert l.rowsByKey[row.key := n.id] == l.rowsByKey;
    }
  }

  lemma {:induction false} FoldBroken(l: List, rows: seq<Row>, marker: Option<nat>, mk: Option<Key>)
    requires Valid(l) && Marks(l, marker, mk) && FoldUpsert(l, rows, marker, mk).None?
    ensures !Valid(FoldTorn(l, rows, marker, mk))
  {
    FoldLost(l, rows, marker, mk);
    LostInvalid(FoldTorn(l, rows, marker, mk), mk.value);
  }

  /** Dropping a row takes the marker with it only when it is that row's. */
  lemma {:induction false} MarkerStays(l: List, k: Key, marker: Option<nat>, mk: Option<Key>)
    requires Valid(l) && Marks(l, marker, mk)
    ensures marker.Some? ==> marker.value in Ids(l.children) && marker.value < l.next
    ensures marker.Some? ==> (marker.value in Ids(Without(l.children, k)) <==> mk != Some(k))
    ensures Without(Without(l.children, k), k) == Without(l.children, k)
    ensures k in l.rowsByKey ==> Find(l.children, k).id < l.next
  {
    if marker.Some? {
      FindIn(l, mk.value);
      IdsMembers(l.children);
      IdsMembers(Without(l.children, k));
      WithoutMembers(l.children, k);
      MarkedChild(l, marker, mk);
    }
    WithoutKeys(l.children, k);
    WithoutAbsent(Without(l.children, k), k);
  }
}
