/** What a full rebuild makes an anchor show, whatever it showed before. */
module ListShown {
  import opened Prelude
  import opened ListSink
  import opened ListDelta
  import opened ListTwins
  import ListSeed

  /** The rows an anchor shows, by key and markup. */
  function Shown(ch: seq<Node>): seq<Row> {
    if ch == [] then []
    else (if ch[0].key.Some? then [Row(ch[0].key.value, ch[0].markup)] else []) + Shown(ch[1..])
  }

  /** Rows show something, and what they remember having been painted from is what they show, unless
      that was blank. */
  ghost predicate Painted(l: List) { forall n :: n in l.children ==> PaintedNode(n) }

  predicate PaintedNode(n: Node) { n.key.Some? ==> !Blank(n.markup) && (Blank(n.stamp) || n.stamp == n.markup) }

  /** Distinct keys, and markup for each. */
  predicate Plain(rows: seq<Row>) { NoDup(RowKeys(rows)) && forall row :: row in rows ==> !Blank(row.html) }

  // ---- Painted lists stay painted ---------------------------------------------------------------

  lemma {:induction false} SwapMembers(ch: seq<Node>, k: Key, n: Node)
    ensures forall m :: m in Swap(ch, k, n) ==> m == n || m in ch
  {
    if ch != [] && ch[0].key != Some(k) {
      SwapMembers(ch[1..], k, n);
    }
  }

  lemma {:induction false} UpsertPainted(l: List, row: Row, marker: Option<nat>)
    requires Valid(l) && Painted(l)
    ensures Upsert(l, row, marker).Some? ==> Painted(Upsert(l, row, marker).value)
  {
    if Fresh(l, row).Some? {
      var n := Fresh(l, row).value;
      assert PaintedNode(n) by {
        if row.key in l.rowsByKey {
          assert Find(l.children, row.key) in l.children;
        }
      }
      SwapMembers(l.children, row.key, n);
      WithoutMembers(l.children, row.key);
      PutFacts(Without(l.children, row.key), n, marker);
    }
  }

  lemma {:induction false} FoldPainted(l: List, rows: seq<Row>, marker: Option<nat>, mk: Option<Key>)
    requires Valid(l) && Marks(l, marker, mk) && Painted(l)
    ensures FoldUpsert(l, rows, marker, mk).Some? ==> Painted(FoldUpsert(l, rows, marker, mk).value)
    decreases rows
  {
    if rows != [] {
      UpsertValid(l, rows[0], marker, mk);
      UpsertPainted(l, rows[0], marker);
      match Upsert(l, rows[0], marker)
      case None =>
      case Some(m) => FoldPainted(m, rows[1..], marker, mk);
    }
  }

  // ---- What is shown -----------------------------------------------------------------------------

  function Plainly(vs: seq<RowView>): seq<Row> {
    if vs == [] then [] else [Row(vs[0].key, vs[0].markup)] + Plainly(vs[1..])
  }

  lemma {:induction false} ShownOfView(ch: seq<Node>, base: nat)
    ensures Shown(ch) == Plainly(View(ch, base))
  {
    if ch != [] {
      ShownOfView(ch[1..], base);
      if ch[0].key.Some? {
        assert View(ch, base)[1..] == View(ch[1..], base);
      } else {
        assert View(ch, base) == View(ch[1..], base);
      }
    }
  }

  lemma {:induction false} OutcomesPlain(l: List, rows: seq<Row>)
    requires Valid(l) && Painted(l) && forall row :: row in rows ==> !Blank(row.html)
    ensures Plainly(Outcomes(l, rows)) == rows
  {
    if rows != [] {
      OutcomesPlain(l, rows[1..]);
      assert rows[0] in rows;
      if rows[0].key in l.rowsByKey {
        assert Find(l.children, rows[0].key) in l.children;
      }
      assert Outcomes(l, rows)[1..] == Outcomes(l, rows[1..]);
    }
  }

  lemma {:induction false} ShownKeys(ch: seq<Node>)
    ensures RowKeys(Shown(ch)) == Keys(ch)
  {
    if ch != [] {
      ShownKeys(ch[1..]);
      if ch[0].key.Some? {
        assert Shown(ch)[1..] == Shown(ch[1..]);
      } else {
        assert Shown(ch) == Shown(ch[1..]);
      }
    }
  }

  lemma {:induction false} ShownMarkup(ch: seq<Node>)
    requires forall n :: n in ch ==> PaintedNode(n)
    ensures forall row :: row in Shown(ch) ==> !Blank(row.html)
  {
    if ch != [] {
      assert ch[0] in ch;
      ShownMarkup(ch[1..]);
    }
  }

  /** A full rebuild makes the anchor show exactly the rows it was handed if and only if their keys are
      distinct and none is blank, whatever it showed before. */
  lemma {:induction false} RebuildShows(l: List, rows: seq<Row>)
    requires Valid(l) && Painted(l)
    ensures ApplyReconcile(l, rows).Some?
    ensures var out := ApplyReconcile(l, rows).value;
            Valid(out) && Painted(out) && (Shown(out.children) == rows <==> Plain(rows))
  {
    OpValid(l, ReconcileList(rows));
    var out := ApplyReconcile(l, rows).value;
    var kept := KeepOnly(l, RowKeys(rows));
    KeepFacts(l, RowKeys(rows));
    RetainMembers(l.children, set k | k in l.rowsByKey && k !in RowKeys(rows));
    FoldPainted(kept, rows, None, None);
    ShownKeys(out.children);
    ShownMarkup(out.children);
    if Plain(rows) {
      ReconcileLaw(l, rows);
      ShownOfView(out.children, l.next);
      OutcomesPlain(l, rows);
    }
  }

  /** An anchor over rendered rows is painted when each of them shows something and remembers that. */
  lemma {:induction false} SeededPainted(ch: seq<ListSeed.Child>, next: nat)
    requires forall c :: c in ch && c.attr.Some? ==>
             !Blank(c.markup) && (c.remembered.None? || c.remembered == Some(c.markup))
    ensures Painted(ListSeed.Seeded(ch, next))
  {
    if ch != [] {
      var n := |ch| - 1;
      var l := ListSeed.Seeded(ch[..n], next);
      assert ch[n] in ch;
      SeededPainted(ch[..n], next);
      if ch[n].attr.Some? {
        ForgetPainted(l.children, ch[n].attr.value);
      }
    }
  }

  lemma {:induction false} ForgetPainted(ch: seq<Node>, k: Key)
    requires forall n :: n in ch ==> PaintedNode(n)
    ensures forall n :: n in ListSeed.Forget(ch, k) ==> PaintedNode(n)
  {
    if ch != [] {
      assert ch[0] in ch;
      ForgetPainted(ch[1..], k);
    }
  }
}
