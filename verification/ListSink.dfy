/** The keyed-list sink: one anchor's children, the rows it knows by key, and the three ways an
    operation may change them. */
module ListSink {
  import opened Prelude

  type Key = string
  type Html = string

  /** A child element of an anchor: its identity, the key it is registered under, what it shows,
      and the markup it remembers having been painted from. */
  datatype Node = Node(id: nat, key: Option<Key>, markup: Html, stamp: Html)

  /** `next` is above every identity in use. */
  datatype List = List(children: seq<Node>, rowsByKey: map<Key, nat>, next: nat)

  datatype Row = Row(key: Key, html: Html)

  datatype Change = Change(weight: int, key: Key, payload: Html)

  datatype Step = Insert(key: Key, payload: Html) | Remove(key: Key) | Patch(key: Key, payload: Html)

  // ---- Children by key ------------------------------------------------------------------

  /** The registered keys, in child order. */
  function Keys(ch: seq<Node>): seq<Key> {
    if ch == [] then [] else (if ch[0].key.Some? then [ch[0].key.value] else []) + Keys(ch[1..])
  }

  function Find(ch: seq<Node>, k: Key): (n: Node)
    requires k in Keys(ch)
    ensures n in ch && n.key == Some(k)
  {
    if ch[0].key == Some(k) then ch[0] else Find(ch[1..], k)
  }

  function Ids(ch: seq<Node>): seq<nat> {
    if ch == [] then [] else [ch[0].id] + Ids(ch[1..])
  }

  /** `rowsByKey` is a bijection onto the registered children; identities are distinct. */
  ghost predicate Valid(l: List) {
    && NoDup(Ids(l.children)) && NoDup(Keys(l.children))
    && (forall n :: n in l.children ==> n.id < l.next)
    && (forall k :: k in l.rowsByKey <==> k in Keys(l.children))
    && (forall k :: k in l.rowsByKey ==> l.rowsByKey[k] == Find(l.children, k).id)
  }

  function Without(ch: seq<Node>, k: Key): seq<Node> {
    if ch == [] then [] else if ch[0].key == Some(k) then Without(ch[1..], k) else [ch[0]] + Without(ch[1..], k)
  }

  /** `insertBefore`: ahead of the child with identity `marker`, or last. */
  function Put(ch: seq<Node>, n: Node, marker: Option<nat>): seq<Node> {
    if ch == [] then [n] else if marker == Some(ch[0].id) then [n] + ch else [ch[0]] + Put(ch[1..], n, marker)
  }

  /** `replaceChild`, by key. */
  function Swap(ch: seq<Node>, k: Key, n: Node): seq<Node> {
    if ch == [] then [] else if ch[0].key == Some(k) then [n] + ch[1..] else [ch[0]] + Swap(ch[1..], k, n)
  }

  // ---- One step of each operation ----------------------------------------------------------

  /** Markup without an element in it instantiates nothing. */
  predicate Blank(html: Html) { html == "" }

  function Apply(l: List, s: Step): List
    requires Valid(l)
  {
    match s
    case Insert(k, p) =>
      if Blank(p) then l
      else List(l.children + [Node(l.next, Some(k), p, p)], l.rowsByKey[k := l.next], l.next + 1)
    case Remove(k) => Drop(l, k)
    case Patch(k, p) =>
      if k !in l.rowsByKey || Find(l.children, k).stamp == p || Blank(p) then l
      else List(Swap(l.children, k, Node(l.next, Some(k), p, p)), l.rowsByKey[k := l.next], l.next + 1)
  }

  function Drop(l: List, k: Key): List { l.(children := Without(l.children, k), rowsByKey := l.rowsByKey - {k}) }

  /** The node a row ends as, if any, and whether it is a new one. */
  function Fresh(l: List, row: Row): Option<Node>
    requires Valid(l)
  {
    if row.key !in l.rowsByKey then
      (if Blank(row.html) then None else Some(Node(l.next, Some(row.key), row.html, row.html)))
    else
      var old' := Find(l.children, row.key);
      if old'.stamp == row.html then Some(old')
      else if Blank(row.html) then Some(old'.(stamp := row.html))
      else Some(Node(l.next, Some(row.key), row.html, row.html))
  }

  function Placed(l: List, n: Node, marker: Option<nat>): List
    requires n.key.Some?
  {
    List(Put(Without(l.children, n.key.value), n, marker), l.rowsByKey[n.key.value := n.id],
         if n.id == l.next then l.next + 1 else l.next)
  }

  /** One row upserted ahead of `marker`. A marker rebuilt by its own row is gone: `None`. */
  function Upsert(l: List, row: Row, marker: Option<nat>): Option<List>
    requires Valid(l)
  {
    match Fresh(l, row)
    case None => Some(l)
    case Some(n) =>
      var own := row.key in l.rowsByKey && marker == Some(l.rowsByKey[row.key]);
      if own && n.id == l.next then None
      else if own then Some(l.(children := Swap(l.children, row.key, n)))
      else Some(Placed(l, n, marker))
  }

  // ---- Facts about keys ----------------------------------------------------------------------

  lemma {:induction false} KeysAppend(a: seq<Node>, b: seq<Node>)
    ensures Keys(a + b) == Keys(a) + Keys(b)
  {
    if a == [] {
      assert a + b == b;
    } else {
      assert (a + b)[1..] == a[1..] + b;
      KeysAppend(a[1..], b);
    }
  }

  lemma {:induction false} IdsMembers(ch: seq<Node>)
    ensures forall i :: i in Ids(ch) <==> exists n :: n in ch && n.id == i
    ensures NoDup(Ids(ch)) ==> forall a, b :: a in ch && b in ch && a.id == b.id ==> a == b
  {
    if ch != [] {
      IdsMembers(ch[1..]);
      NoDupCons(ch[0].id, Ids(ch[1..]));
      assert forall n :: n in ch <==> n == ch[0] || n in ch[1..];
      forall i | i in Ids(ch) ensures exists n :: n in ch && n.id == i {
        if i == ch[0].id {
          assert ch[0] in ch;
        } else {
          assert i in Ids(ch[1..]);
        }
      }
    }
  }

  lemma {:induction false} KeyOf(ch: seq<Node>, n: Node)
    requires n in ch && n.key.Some?
    ensures n.key.value in Keys(ch)
  {
    if n != ch[0] {
      KeyOf(ch[1..], n);
    }
  }

  lemma {:induction false} KeysTail(ch: seq<Node>)
    requires ch != [] && NoDup(Keys(ch))
    ensures NoDup(Keys(ch[1..])) && (ch[0].key.Some? ==> ch[0].key.value !in Keys(ch[1..]))
  {
    if ch[0].key.Some? {
      NoDupCons(ch[0].key.value, Keys(ch[1..]));
    } else {
      assert Keys(ch) == Keys(ch[1..]);
    }
  }

  lemma {:induction false} WithoutKeys(ch: seq<Node>, k: Key)
    ensures Keys(Without(ch, k)) == Minus(Keys(ch), {k})
  {
    if ch != [] {
      WithoutKeys(ch[1..], k);
      var t := Without(ch[1..], k);
      assert ([ch[0]] + t)[1..] == t;
      if ch[0].key.Some? {
        var h := ch[0].key.value;
        assert ([h] + Keys(ch[1..]))[1..] == Keys(ch[1..]);
      } else {
        assert [] + Keys(ch[1..]) == Keys(ch[1..]) && [] + Keys(t) == Keys(t);
      }
    }
  }

  lemma {:induction false} WithoutMembers(ch: seq<Node>, k: Key)
    ensures forall n :: n in Without(ch, k) <==> n in ch && n.key != Some(k)
  {
    if ch != [] {
      WithoutMembers(ch[1..], k);
      assert forall n :: n in ch <==> n == ch[0] || n in ch[1..];
    }
  }

  lemma {:induction false} WithoutFind(ch: seq<Node>, k: Key, j: Key)
    requires j in Keys(ch) && j != k
    ensures j in Keys(Without(ch, k)) && Find(Without(ch, k), j) == Find(ch, j)
  {
    WithoutKeys(ch, k);
    if ch[0].key != Some(j) {
      WithoutFind(ch[1..], k, j);
    }
  }

  lemma {:induction false} WithoutIds(ch: seq<Node>, k: Key)
    requires NoDup(Ids(ch))
    ensures NoDup(Ids(Without(ch, k)))
  {
    if ch != [] {
      NoDupCons(ch[0].id, Ids(ch[1..]));
      WithoutIds(ch[1..], k);
      WithoutMembers(ch[1..], k);
      IdsMembers(ch[1..]);
      IdsMembers(Without(ch[1..], k));
      NoDupCons(ch[0].id, Ids(Without(ch[1..], k)));
    }
  }

  /** Placing a node with a new key and identity. */
  lemma {:induction false} PutFacts(ch: seq<Node>, n: Node, marker: Option<nat>)
    ensures forall m :: m in Put(ch, n, marker) <==> m == n || m in ch
    ensures NoDup(Ids(ch)) && (forall m :: m in ch ==> m.id != n.id) ==> NoDup(Ids(Put(ch, n, marker)))
  {
    if ch != [] && marker != Some(ch[0].id) {
      PutFacts(ch[1..], n, marker);
      assert forall m :: m in ch <==> m == ch[0] || m in ch[1..];
      IdsMembers(ch[1..]);
      IdsMembers(Put(ch[1..], n, marker));
      NoDupCons(ch[0].id, Ids(ch[1..]));
      NoDupCons(ch[0].id, Ids(Put(ch[1..], n, marker)));
    } else {
      IdsMembers(ch);
      NoDupCons(n.id, Ids(ch));
      assert ([n] + ch)[1..] == ch;
    }
  }

  lemma {:induction false} PutFind(ch: seq<Node>, n: Node, marker: Option<nat>, k: Key)
    requires n.key == Some(k) && k !in Keys(ch)
    ensures k in Keys(Put(ch, n, marker)) && Find(Put(ch, n, marker), k) == n
    ensures forall j :: j in Keys(ch) ==> j in Keys(Put(ch, n, marker)) && Find(Put(ch, n, marker), j) == Find(ch, j)
  {
    PutFacts(ch, n, marker);
    if ch != [] && marker != Some(ch[0].id) {
      PutFind(ch[1..], n, marker, k);
    } else {
      assert ([n] + ch)[1..] == ch;
    }
  }

  /** `ps` ahead of the key `mk`, or last. */
  function PutMany(ks: seq<Key>, ps: seq<Key>, mk: Option<Key>): seq<Key> {
    if ks == [] then ps else if mk == Some(ks[0]) then ps + ks else [ks[0]] + PutMany(ks[1..], ps, mk)
  }

  lemma {:induction false} PutKeyed(ch: seq<Node>, n: Node, marker: Option<nat>, mk: Option<Key>)
    requires n.key.Some? && (marker.None? <==> mk.None?)
    requires marker.Some? ==> forall m :: m in ch ==> (m.id == marker.value <==> m.key == mk)
    ensures Keys(Put(ch, n, marker)) == PutMany(Keys(ch), [n.key.value], mk)
  {
    if ch == [] {
      assert [n][1..] == [];
    } else if marker == Some(ch[0].id) {
      assert ch[0] in ch;
      assert ([n] + ch)[1..] == ch;
    } else {
      assert ch[0] in ch;
      PutKeyed(ch[1..], n, marker, mk);
      var t := Put(ch[1..], n, marker);
      assert ([ch[0]] + t)[1..] == t;
      if ch[0].key.Some? {
        assert Keys(ch)[1..] == Keys(ch[1..]);
      } else {
        assert Keys(ch) == Keys(ch[1..]);
      }
    }
  }

  lemma {:induction false} PutTwice(ks: seq<Key>, k: Key, ps: seq<Key>, mk: Option<Key>)
    requires mk != Some(k)
    ensures PutMany(PutMany(ks, [k], mk), ps, mk) == PutMany(ks, [k] + ps, mk)
  {
    if ks == [] {
      assert [k][1..] == [];
    } else if mk == Some(ks[0]) {
      assert ([k] + ks)[1..] == ks;
      assert [k] + (ps + ks) == ([k] + ps) + ks;
    } else {
      var t := PutMany(ks[1..], [k], mk);
      assert ([ks[0]] + t)[1..] == t;
      PutTwice(ks[1..], k, ps, mk);
    }
  }

  lemma {:induction false} MinusPut(ks: seq<Key>, k: Key, mk: Option<Key>, gone: set<Key>)
    requires k !in gone && (mk.Some? ==> mk.value !in gone)
    ensures Minus(PutMany(ks, [k], mk), gone) == PutMany(Minus(ks, gone), [k], mk)
  {
    if ks == [] {
      assert [k][1..] == [];
    } else if mk == Some(ks[0]) {
      assert ([k] + ks)[1..] == ks;
    } else {
      var t := PutMany(ks[1..], [k], mk);
      assert ([ks[0]] + t)[1..] == t;
      MinusPut(ks[1..], k, mk, gone);
    }
  }

  lemma {:induction false} SwapFacts(ch: seq<Node>, k: Key, n: Node)
    requires k in Keys(ch) && n.key == Some(k) && NoDup(Keys(ch))
    ensures Keys(Swap(ch, k, n)) == Keys(ch)
    ensures Find(Swap(ch, k, n), k) == n
    ensures forall j :: j in Keys(ch) && j != k ==> Find(Swap(ch, k, n), j) == Find(ch, j)
    ensures forall m :: m in Swap(ch, k, n) ==> m == n || (m in ch && m != Find(ch, k))
  {
    var r := Swap(ch, k, n);
    KeysTail(ch);
    if ch[0].key == Some(k) {
      assert r[1..] == ch[1..];
      forall m | m in r && m != n ensures m in ch && m != ch[0] {
        assert m in ch[1..];
        if m == ch[0] {
          KeyOf(ch[1..], m);
        }
      }
    } else {
      SwapFacts(ch[1..], k, n);
      assert r[1..] == Swap(ch[1..], k, n);
    }
  }

  lemma {:induction false} SwapIds(ch: seq<Node>, k: Key, n: Node)
    requires k in Keys(ch) && NoDup(Ids(ch)) && n.id !in Ids(Without(ch, k))
    requires NoDup(Keys(ch)) && n.key == Some(k)
    ensures NoDup(Ids(Swap(ch, k, n)))
  {
    IdsMembers(ch[1..]);
    NoDupCons(ch[0].id, Ids(ch[1..]));
    KeysTail(ch);
    if ch[0].key == Some(k) {
      assert ([n] + ch[1..])[1..] == ch[1..];
      WithoutAbsent(ch[1..], k);
      NoDupCons(n.id, Ids(ch[1..]));
    } else {
      SwapIds(ch[1..], k, n);
      SwapFacts(ch[1..], k, n);
      IdsMembers(Swap(ch[1..], k, n));
      NoDupCons(ch[0].id, Ids(Swap(ch[1..], k, n)));
    }
  }

  lemma {:induction false} WithoutAbsent(ch: seq<Node>, k: Key)
    requires k !in Keys(ch)
    ensures Without(ch, k) == ch
  {
    if ch != [] {
      WithoutAbsent(ch[1..], k);
    }
  }

  // ---- Each step keeps the bijection ------------------------------------------------------------

  lemma {:induction false} FindIn(l: List, k: Key)
    requires Valid(l) && k in l.rowsByKey
    ensures k in Keys(l.children) && Find(l.children, k).id < l.next
  {}

  lemma {:induction false} DropValid(l: List, k: Key)
    requires Valid(l)
    ensures Valid(Drop(l, k))
    ensures Keys(Drop(l, k).children) == Minus(Keys(l.children), {k})
    ensures forall j :: j in l.rowsByKey && j != k ==>
              j in Keys(Drop(l, k).children) && Find(Drop(l, k).children, j) == Find(l.children, j)
  {
    WithoutKeys(l.children, k);
    WithoutMembers(l.children, k);
    WithoutIds(l.children, k);
    MinusNoDup(Keys(l.children), {k});
    forall j | j in l.rowsByKey && j != k
      ensures j in Keys(Without(l.children, k)) && Find(Without(l.children, k), j) == Find(l.children, j) {
      WithoutFind(l.children, k, j);
    }
  }

  /** Replacing the node registered under `k` by one with a new identity, or the same one. */
  lemma {:induction false} SwapValid(l: List, k: Key, n: Node)
    requires Valid(l) && k in l.rowsByKey && n.key == Some(k) && (n.id == l.next || n.id == l.rowsByKey[k])
    ensures Valid(List(Swap(l.children, k, n), l.rowsByKey[k := n.id], if n.id == l.next then l.next + 1 else l.next))
  {
    var ch, rows, next := Swap(l.children, k, n), l.rowsByKey[k := n.id], if n.id == l.next then l.next + 1 else l.next;
    SwapFresh(l, k, n);
    SwapFacts(l.children, k, n);
    SwapIds(l.children, k, n);
    assert n.id < next by { assert Find(l.children, k) in l.children; }
    assert forall m :: m in l.children ==> m.id < l.next;
    assert forall j :: j in l.rowsByKey <==> j in Keys(l.children);
    assert forall j :: j in l.rowsByKey ==> l.rowsByKey[j] == Find(l.children, j).id;
    hide NoDup, Swap, Without, Ids, Keys, Find, Valid;
    ValidIs(ch, rows, next);
  }

  lemma {:induction false} ValidIs(ch: seq<Node>, rows: map<Key, nat>, next: nat)
    requires NoDup(Ids(ch)) && NoDup(Keys(ch)) && forall n :: n in ch ==> n.id < next
    requires (forall k :: k in rows <==> k in Keys(ch)) && forall k :: k in rows ==> rows[k] == Find(ch, k).id
    ensures Valid(List(ch, rows, next))
  {}

  lemma {:induction false} SwapFresh(l: List, k: Key, n: Node)
    requires Valid(l) && k in l.rowsByKey && n.key == Some(k) && (n.id == l.next || n.id == l.rowsByKey[k])
    ensures n.id !in Ids(Without(l.children, k))
  {
    WithoutMembers(l.children, k);
    IdsMembers(l.children);
    IdsMembers(Without(l.children, k));
  }

  lemma {:induction false} PutManyMembers(ks: seq<Key>, k: Key, mk: Option<Key>)
    ensures forall j :: j in PutMany(ks, [k], mk) <==> j == k || j in ks
    ensures NoDup(ks) && k !in ks ==> NoDup(PutMany(ks, [k], mk))
  {
    if ks == [] {
    } else if mk == Some(ks[0]) {
      NoDupCons(k, ks);
    } else {
      PutManyMembers(ks[1..], k, mk);
      assert forall j :: j in ks <==> j == ks[0] || j in ks[1..];
      NoDupCons(ks[0], ks[1..]);
      NoDupCons(ks[0], PutMany(ks[1..], [k], mk));
    }
  }

  /** The marker is the child registered under `mk`. */
  ghost predicate Marks(l: List, marker: Option<nat>, mk: Option<Key>) {
    (marker.None? <==> mk.None?) && (mk.Some? ==> mk.value in l.rowsByKey && l.rowsByKey[mk.value] == marker.value)
  }

  lemma {:induction false} MarkedChild(l: List, marker: Option<nat>, mk: Option<Key>)
    requires Valid(l) && Marks(l, marker, mk)
    ensures marker.Some? ==> forall m :: m in l.children ==> (m.id == marker.value <==> m.key == mk)
  {
    if marker.Some? {
      IdsMembers(l.children);
      forall m | m in l.children ensures m.id == marker.value <==> m.key == mk {
        if m.key == mk {
          FoundUnique(l.children, m);
        }
      }
    }
  }

  lemma {:induction false} FoundUnique(ch: seq<Node>, m: Node)
    requires m in ch && m.key.Some? && NoDup(Keys(ch))
    ensures m.key.value in Keys(ch) && Find(ch, m.key.value) == m
  {
    KeysTail(ch);
    if m != ch[0] {
      FoundUnique(ch[1..], m);
    }
  }

  lemma {:induction false} PutIds(l: List, n: Node, marker: Option<nat>)
    requires Valid(l) && n.key.Some? &&
             (n.id == l.next || (n.key.value in l.rowsByKey && n.id == l.rowsByKey[n.key.value]))
    ensures NoDup(Ids(Placed(l, n, marker).children))
    ensures forall m :: m in Placed(l, n, marker).children ==> m.id < Placed(l, n, marker).next
  {
    var k := n.key.value;
    WithoutMembers(l.children, k);
    WithoutIds(l.children, k);
    IdsMembers(l.children);
    PutFacts(Without(l.children, k), n, marker);
  }

  /** A row lands ahead of the marker and every other row stays what it was. */
  ghost predicate Lands(l: List, out: List, n: Node, mk: Option<Key>)
    requires n.key.Some?
  {
    var k := n.key.value;
    && Keys(out.children) == PutMany(Minus(Keys(l.children), {k}), [k], mk)
    && k in Keys(out.children) && Find(out.children, k) == n
    && forall j :: j in Keys(l.children) && j != k ==>
      j in Keys(out.children) && Find(out.children, j) == Find(l.children, j)
  }

  lemma {:induction false} PutLands(l: List, n: Node, marker: Option<nat>, mk: Option<Key>)
    requires Valid(l) && Marks(l, marker, mk) && n.key.Some? && mk != n.key
    ensures Lands(l, Placed(l, n, marker), n, mk)
    ensures NoDup(Keys(Placed(l, n, marker).children))
    ensures forall j :: j in Keys(Placed(l, n, marker).children) <==> j == n.key.value || j in Keys(l.children)
  {
    var k := n.key.value;
    var d := Drop(l, k);
    DropValid(l, k);
    MarkedChild(d, marker, mk);
    PutKeyed(d.children, n, marker, mk);
    PutFind(d.children, n, marker, k);
    PutManyMembers(Keys(d.children), k, mk);
  }

  lemma {:induction false} PutValid(l: List, n: Node, marker: Option<nat>, mk: Option<Key>)
    requires Valid(l) && Marks(l, marker, mk) && n.key.Some? && mk != n.key
    requires n.id == l.next || (n.key.value in l.rowsByKey && n.id == l.rowsByKey[n.key.value])
    ensures Valid(Placed(l, n, marker)) && Marks(Placed(l, n, marker), marker, mk)
    ensures Lands(l, Placed(l, n, marker), n, mk)
  {
    PutIds(l, n, marker);
    PutLands(l, n, marker, mk);
    hide NoDup;
  }

  lemma {:induction false} UpsertFacts(l: List, row: Row, marker: Option<nat>, mk: Option<Key>)
    requires Valid(l) && Marks(l, marker, mk) && mk != Some(row.key)
    ensures Upsert(l, row, marker).Some?
    ensures var out := Upsert(l, row, marker).value;
            Valid(out) && Marks(out, marker, mk) && out.next >= l.next
            && (if Fresh(l, row).None? then out == l else Lands(l, out, Fresh(l, row).value, mk))
  {
    if Fresh(l, row).Some? {
      var n := Fresh(l, row).value;
      assert marker.Some? && row.key in l.rowsByKey ==>
        marker.value != l.rowsByKey[row.key] by { IdsMembers(l.children); }
      assert Upsert(l, row, marker) == Some(Placed(l, n, marker)) && n.id <= l.next;
      hide Valid, Lands, Marks, Upsert, Fresh, Ids, Keys, Find;
      PutValid(l, n, marker, mk);
    }
  }

  lemma {:induction false} UpsertValid(l: List, row: Row, marker: Option<nat>, mk: Option<Key>)
    requires Valid(l) && Marks(l, marker, mk)
    ensures Upsert(l, row, marker).Some? ==>
              Valid(Upsert(l, row, marker).value) && Marks(Upsert(l, row, marker).value, marker, mk)
  {
    if mk != Some(row.key) {
      UpsertFacts(l, row, marker, mk);
    } else if Fresh(l, row).Some? {
      var n := Fresh(l, row).value;
      FindIn(l, row.key);
      if n.id != l.next {
        SwapValid(l, row.key, n);
        assert l.rowsByKey[row.key := n.id] == l.rowsByKey;
      }
    }
  }

  // ---- Whole operations ---------------------------------------------------------------------------

  function FoldUpsert(l: List, rows: seq<Row>, marker: Option<nat>, mk: Option<Key>): Option<List>
    requires Valid(l) && Marks(l, marker, mk)
    decreases rows
  {
    if rows == [] then Some(l)
    else
      UpsertValid(l, rows[0], marker, mk);
      match Upsert(l, rows[0], marker)
      case None => None
      case Some(m) => FoldUpsert(m, rows[1..], marker, mk)
  }

  /** Rows whose key is in `gone` are dropped. */
  function Retain(ch: seq<Node>, gone: set<Key>): seq<Node> {
    if ch == [] then []
    else if ch[0].key.Some? && ch[0].key.value in gone then Retain(ch[1..], gone)
    else [ch[0]] + Retain(ch[1..], gone)
  }

  function RowKeys(rows: seq<Row>): seq<Key> {
    if rows == [] then [] else [rows[0].key] + RowKeys(rows[1..])
  }

  ghost function KeySet(ks: seq<Key>): set<Key> { set k | k in ks }

  function KeepOnly(l: List, keep: seq<Key>): List {
    var gone := set k | k in l.rowsByKey && k !in keep;
    l.(children := Retain(l.children, gone), rowsByKey := l.rowsByKey - gone)
  }

  lemma {:induction false} RetainNothing(ch: seq<Node>)
    ensures Retain(ch, {}) == ch
  {
    if ch != [] {
      RetainNothing(ch[1..]);
    }
  }

  lemma {:induction false} RetainMembers(ch: seq<Node>, gone: set<Key>)
    ensures forall m :: m in Retain(ch, gone) <==> m in ch && !(m.key.Some? && m.key.value in gone)
  {
    if ch != [] {
      RetainMembers(ch[1..], gone);
      assert forall m :: m in ch <==> m == ch[0] || m in ch[1..];
    }
  }

  lemma {:induction false} RetainMore(ch: seq<Node>, gone: set<Key>, k: Key)
    ensures Retain(ch, gone + {k}) == Without(Retain(ch, gone), k)
  {
    if ch != [] {
      RetainMore(ch[1..], gone, k);
      var t := Retain(ch[1..], gone);
      assert ([ch[0]] + t)[1..] == t;
    }
  }

  /** `out` is `l` without the rows of `gone`. */
  ghost predicate Spared(l: List, out: List, gone: set<Key>) {
    && Valid(out) && Keys(out.children) == Minus(Keys(l.children), gone)
    && forall j :: j in Keys(l.children) && j !in gone ==>
      j in Keys(out.children) && Find(out.children, j) == Find(l.children, j)
  }

  lemma {:induction false} SparedMore(l: List, mid: List, gone: set<Key>, k: Key)
    requires Spared(l, mid, gone)
    ensures Spared(l, Drop(mid, k), gone + {k})
  {
    DropValid(mid, k);
    MinusTwice(Keys(l.children), gone, {k});
    assert forall j :: j in Keys(mid.children) ==> j in mid.rowsByKey;
    hide Valid, NoDup, Ids, Keys, Find, Minus, Drop;
  }

  function Retained(l: List, gone: set<Key>): List {
    l.(children := Retain(l.children, gone), rowsByKey := l.rowsByKey - gone)
  }

  lemma {:induction false} RetainFacts(l: List, gone: set<Key>)
    requires Valid(l)
    ensures Spared(l, Retained(l, gone), gone)
    decreases gone
  {
    if gone == {} {
      RetainNothing(l.children);
      MinusNone(Keys(l.children), {});
      assert l.rowsByKey - {} == l.rowsByKey;
    } else {
      var k :| k in gone;
      var rest := gone - {k};
      RetainFacts(l, rest);
      RetainMore(l.children, rest, k);
      assert rest + {k} == gone;
      assert l.rowsByKey - rest - {k} == l.rowsByKey - gone;
      assert Drop(Retained(l, rest), k) == Retained(l, gone);
      hide Valid, Spared, Retained, Drop;
      SparedMore(l, Retained(l, rest), rest, k);
    }
  }

  lemma {:induction false} KeepFacts(l: List, keep: seq<Key>)
    requires Valid(l)
    ensures var out := KeepOnly(l, keep);
            Valid(out) && out.next == l.next && (forall k :: k in Keys(out.children) <==> k in l.rowsByKey && k in keep)
            && forall j :: j in l.rowsByKey && j in keep ==> Find(out.children, j) == Find(l.children, j)
  {
    var gone := set k | k in l.rowsByKey && k !in keep;
    RetainFacts(l, gone);
    assert KeepOnly(l, keep) == Retained(l, gone);
  }

  function ApplyReconcile(l: List, rows: seq<Row>): Option<List>
    requires Valid(l)
  {
    KeepFacts(l, RowKeys(rows));
    FoldUpsert(KeepOnly(l, RowKeys(rows)), rows, None, None)
  }

  /** `before` is honoured only while the list holds it; otherwise the rows go to the tail. */
  function ApplyInsert(l: List, before: Option<Key>, rows: seq<Row>): Option<List>
    requires Valid(l)
  {
    if before.Some? && before.value in l.rowsByKey then FoldUpsert(l, rows, Some(l.rowsByKey[before.value]), before)
    else FoldUpsert(l, rows, None, None)
  }

  // ---- What a list looks like from outside ------------------------------------------------------------

  /** A row by key and markup; `kept` is its identity when it was there before. */
  datatype RowView = RowView(key: Key, markup: Html, kept: Option<nat>)

  function ViewOf(n: Node, base: nat): RowView
    requires n.key.Some?
  {
    RowView(n.key.value, n.markup, if n.id < base then Some(n.id) else None)
  }

  function View(ch: seq<Node>, base: nat): seq<RowView> {
    if ch == [] then [] else (if ch[0].key.Some? then [ViewOf(ch[0], base)] else []) + View(ch[1..], base)
  }

  /** What a row of the desired list becomes: the untouched row, a repainted one, or nothing. */
  function Outcome(l: List, row: Row): Option<RowView>
    requires Valid(l)
  {
    if row.key in l.rowsByKey then
      var n := Find(l.children, row.key);
      if n.stamp == row.html || Blank(row.html) then Some(RowView(row.key, n.markup, Some(n.id)))
      else Some(RowView(row.key, row.html, None))
    else if Blank(row.html) then None
    else Some(RowView(row.key, row.html, None))
  }

  function Outcomes(l: List, rows: seq<Row>): seq<RowView>
    requires Valid(l)
  {
    if rows == [] then []
    else (if Outcome(l, rows[0]).Some? then [Outcome(l, rows[0]).value] else []) + Outcomes(l, rows[1..])
  }

  function PlacedKeys(l: List, rows: seq<Row>): seq<Key>
    requires Valid(l)
  {
    if rows == [] then [] else (if Outcome(l, rows[0]).Some? then [rows[0].key] else []) + PlacedKeys(l, rows[1..])
  }

  function ViewAt(ch: seq<Node>, ks: seq<Key>, base: nat): seq<RowView>
    requires forall k :: k in ks ==> k in Keys(ch)
  {
    if ks == [] then [] else assert ks[0] in ks; [ViewOf(Find(ch, ks[0]), base)] + ViewAt(ch, ks[1..], base)
  }

  lemma {:induction false} ViewAtTail(h: Node, ch: seq<Node>, ks: seq<Key>, base: nat)
    requires forall k :: k in ks ==> k in Keys(ch) && h.key != Some(k)
    ensures forall k :: k in ks ==> k in Keys([h] + ch)
    ensures ViewAt([h] + ch, ks, base) == ViewAt(ch, ks, base)
  {
    assert ([h] + ch)[1..] == ch;
    if ks != [] {
      assert ks[0] in ks;
      ViewAtTail(h, ch, ks[1..], base);
    }
  }

  lemma {:induction false} ViewByKeys(ch: seq<Node>, base: nat)
    requires NoDup(Keys(ch))
    ensures View(ch, base) == ViewAt(ch, Keys(ch), base)
  {
    if ch != [] {
      KeysTail(ch);
      ViewByKeys(ch[1..], base);
      assert ch == [ch[0]] + ch[1..];
      ViewAtTail(ch[0], ch[1..], Keys(ch[1..]), base);
      if ch[0].key.Some? {
        assert Keys(ch)[1..] == Keys(ch[1..]);
      } else {
        assert Keys(ch) == Keys(ch[1..]);
      }
    }
  }

  /** The list shows the outcome of every row of `rows`, in whatever order its keys are in. */
  ghost predicate Settled(l: List, out: List, rows: seq<Row>)
    requires Valid(l)
  {
    forall row :: row in rows && Outcome(l, row).Some? ==>
      row.key in Keys(out.children) && ViewOf(Find(out.children, row.key), l.next) == Outcome(l, row).value
  }

  lemma {:induction false} ViewSettled(l: List, out: List, rows: seq<Row>)
    requires Valid(l) && Settled(l, out, rows)
    ensures forall k :: k in PlacedKeys(l, rows) ==> k in Keys(out.children)
    ensures ViewAt(out.children, PlacedKeys(l, rows), l.next) == Outcomes(l, rows)
  {
    if rows != [] {
      assert rows[0] in rows && forall row :: row in rows[1..] ==> row in rows;
      ViewSettled(l, out, rows[1..]);
      if Outcome(l, rows[0]).Some? {
        assert PlacedKeys(l, rows)[1..] == PlacedKeys(l, rows[1..]);
      } else {
        assert PlacedKeys(l, rows) == PlacedKeys(l, rows[1..]);
        assert Outcomes(l, rows) == Outcomes(l, rows[1..]);
      }
    }
  }

  lemma {:induction false} ViewIs(l: List, out: List, rows: seq<Row>)
    requires Valid(l) && Valid(out) && Settled(l, out, rows) && Keys(out.children) == PlacedKeys(l, rows)
    ensures View(out.children, l.next) == Outcomes(l, rows)
  {
    ViewByKeys(out.children, l.next);
    ViewSettled(l, out, rows);
  }

  /** `l` still holds, for every row of `rows`, what `base` held. */
  ghost predicate Untouched(base: List, l: List, rows: seq<Row>) {
    forall row :: row in rows ==>
      (row.key in Keys(base.children) <==> row.key in Keys(l.children))
      && (row.key in Keys(base.children) ==> Find(l.children, row.key) == Find(base.children, row.key))
  }

  ghost predicate Others(l: List, out: List, rows: seq<Row>) {
    forall j :: j in Keys(l.children) && j !in RowKeys(rows) ==>
      j in Keys(out.children) && Find(out.children, j) == Find(l.children, j)
  }

  lemma {:induction false} RowKeysOf(rows: seq<Row>)
    ensures forall row :: row in rows ==> row.key in RowKeys(rows)
  {
    if rows != [] {
      RowKeysOf(rows[1..]);
      assert forall row :: row in rows <==> row == rows[0] || row in rows[1..];
    }
  }

  lemma {:induction false} FreshOutcome(base: List, l: List, row: Row)
    requires Valid(base) && Valid(l) && base.next <= l.next && Untouched(base, l, [row])
    ensures Fresh(l, row).Some? <==> Outcome(base, row).Some?
    ensures Fresh(l, row).Some? ==>
            Fresh(l, row).value.key.Some? && ViewOf(Fresh(l, row).value, base.next) == Outcome(base, row).value
  {
    assert row in [row];
    if row.key in base.rowsByKey {
      FindIn(base, row.key);
    }
  }

  lemma {:induction false} PutNothing(ks: seq<Key>, mk: Option<Key>)
    ensures PutMany(ks, [], mk) == ks
  {
    if ks != [] && mk != Some(ks[0]) {
      PutNothing(ks[1..], mk);
    }
  }

  /** The keys after one more row, given the keys the rest of the rows lead to. */
  lemma {:induction false} KeysStep(ks: seq<Key>, k: Key, rest: set<Key>, ps: seq<Key>, mk: Option<Key>)
    requires k !in rest && (mk.Some? ==> mk.value !in rest) && mk != Some(k)
    ensures PutMany(Minus(PutMany(Minus(ks, {k}), [k], mk), rest), ps, mk)
            == PutMany(Minus(ks, {k} + rest), [k] + ps, mk)
  {
    MinusPut(Minus(ks, {k}), k, mk, rest);
    MinusTwice(ks, {k}, rest);
    PutTwice(Minus(ks, {k} + rest), k, ps, mk);
  }

  ghost predicate Folded(base: List, l: List, out: List, rows: seq<Row>, mk: Option<Key>)
    requires Valid(base)
  {
    && Valid(out) && out.next >= l.next
    && Keys(out.children) == PutMany(Minus(Keys(l.children), KeySet(RowKeys(rows))), PlacedKeys(base, rows), mk)
    && Settled(base, out, rows) && Others(l, out, rows)
  }

  lemma {:induction false} FoldLaw(base: List, l: List, rows: seq<Row>, marker: Option<nat>, mk: Option<Key>)
    requires Valid(base) && Valid(l) && Marks(l, marker, mk) && base.next <= l.next
    requires NoDup(RowKeys(rows)) && (mk.Some? ==> mk.value !in RowKeys(rows)) && Untouched(base, l, rows)
    ensures FoldUpsert(l, rows, marker, mk).Some? && Folded(base, l, FoldUpsert(l, rows, marker, mk).value, rows, mk)
    decreases rows
  {
    if rows == [] {
      MinusNone(Keys(l.children), {});
      assert KeySet([]) == {};
      PutNothing(Keys(l.children), mk);
    } else {
      var row, rest := rows[0], rows[1..];
      NoDupCons(row.key, RowKeys(rest));
      RowKeysOf(rest);
      assert mk != Some(row.key);
      UpsertFacts(l, row, marker, mk);
      UpsertValid(l, row, marker, mk);
      var m := Upsert(l, row, marker).value;
      UntouchedStep(base, l, m, rows, mk);
      FoldLaw(base, m, rest, marker, mk);
      FoldedStep(base, l, m, FoldUpsert(m, rest, marker, mk).value, rows, marker, mk);
    }
  }

  lemma {:induction false} UntouchedStep(base: List, l: List, m: List, rows: seq<Row>, mk: Option<Key>)
    requires Valid(base) && Valid(l) && rows != [] && NoDup(RowKeys(rows)) && Untouched(base, l, rows)
    requires if Fresh(l, rows[0]).None? then m == l else Lands(l, m, Fresh(l, rows[0]).value, mk)
    ensures Untouched(base, m, rows[1..])
  {
    NoDupCons(rows[0].key, RowKeys(rows[1..]));
    RowKeysOf(rows[1..]);
    if Fresh(l, rows[0]).Some? {
      PutManyMembers(Minus(Keys(l.children), {rows[0].key}), rows[0].key, mk);
    }
    forall row | row in rows[1..]
      ensures row.key in Keys(base.children) <==> row.key in Keys(m.children)
      ensures row.key in Keys(base.children) ==> Find(m.children, row.key) == Find(base.children, row.key)
    {
      assert row in rows && row.key != rows[0].key;
    }
  }

  lemma {:induction false} FoldedStep(base: List, l: List, m: List, out: List, rows: seq<Row>, marker: Option<nat>,
                                      mk: Option<Key>)
    requires Valid(base) && Valid(l) && Valid(m) && base.next <= l.next && rows != [] && NoDup(RowKeys(rows))
    requires Untouched(base, l, rows) && (mk.Some? ==> mk.value !in RowKeys(rows)) && m.next >= l.next
    requires if Fresh(l, rows[0]).None? then m == l else Lands(l, m, Fresh(l, rows[0]).value, mk)
    requires Folded(base, m, out, rows[1..], mk)
    ensures Folded(base, l, out, rows, mk)
  {
    SettledStep(base, l, m, out, rows, mk);
    KeysFolded(base, l, m, out, rows, mk);
    hide Valid, Settled, Others;
  }

  lemma {:induction false} UntouchedOne(base: List, l: List, rows: seq<Row>)
    requires rows != [] && Untouched(base, l, rows)
    ensures Untouched(base, l, [rows[0]])
  {
    assert rows[0] in rows;
  }

  lemma {:induction false} LandedKeys(l: List, m: List, row: Row, mk: Option<Key>)
    requires Valid(l)
    requires if Fresh(l, row).None? then m == l else Lands(l, m, Fresh(l, row).value, mk)
    ensures Fresh(l, row).None? ==> m == l && row.key !in Keys(l.children)
    ensures Fresh(l, row).Some? ==> Keys(m.children) == PutMany(Minus(Keys(l.children), {row.key}), [row.key], mk)
  {}

  lemma {:induction false} KeysFolded(base: List, l: List, m: List, out: List, rows: seq<Row>, mk: Option<Key>)
    requires Valid(base) && Valid(l) && base.next <= l.next && rows != [] && NoDup(RowKeys(rows))
    requires Untouched(base, l, rows) && (mk.Some? ==> mk.value !in RowKeys(rows))
    requires if Fresh(l, rows[0]).None? then m == l else Lands(l, m, Fresh(l, rows[0]).value, mk)
    requires Keys(out.children)
             == PutMany(Minus(Keys(m.children), KeySet(RowKeys(rows[1..]))), PlacedKeys(base, rows[1..]), mk)
    ensures Keys(out.children) == PutMany(Minus(Keys(l.children), KeySet(RowKeys(rows))), PlacedKeys(base, rows), mk)
  {
    var row, rest := rows[0], rows[1..];
    var gone := KeySet(RowKeys(rest));
    NoDupCons(row.key, RowKeys(rest));
    assert KeySet(RowKeys(rows)) == {row.key} + gone;
    assert row.key !in gone && mk != Some(row.key) && (mk.Some? ==> mk.value !in gone);
    assert PlacedKeys(base, rows) == (if Outcome(base, row).Some? then [row.key] else []) + PlacedKeys(base, rest);
    hide Valid, NoDup, Untouched, Lands, Fresh, Outcome, PlacedKeys, KeySet, RowKeys, Keys, Find, PutMany, Minus;
    UntouchedOne(base, l, rows);
    LandedKeys(l, m, row, mk);
    FreshOutcome(base, l, row);
    KeysOneMore(Keys(l.children), Keys(m.children), row.key, Fresh(l, row).Some?, gone, PlacedKeys(base, rest), mk);
  }

  /** The same for key sequences: one more row, placed or not, ahead of the rest. */
  lemma {:induction false} KeysOneMore(ks: seq<Key>, ms: seq<Key>, k: Key, placed: bool, gone: set<Key>, ps: seq<Key>,
                                       mk: Option<Key>)
    requires k !in gone && mk != Some(k) && (mk.Some? ==> mk.value !in gone)
    requires if placed then ms == PutMany(Minus(ks, {k}), [k], mk) else ms == ks && k !in ks
    ensures PutMany(Minus(ms, gone), ps, mk) == PutMany(Minus(ks, {k} + gone), (if placed then [k] else []) + ps, mk)
  {
    if placed {
      KeysStep(ks, k, gone, ps, mk);
    } else {
      MinusNone(ks, {k});
      MinusTwice(ks, {k}, gone);
      assert [] + ps == ps;
    }
  }

  lemma {:induction false} SettledStep(base: List, l: List, m: List, out: List, rows: seq<Row>, mk: Option<Key>)
    requires Valid(base) && Valid(l) && base.next <= l.next && rows != [] && NoDup(RowKeys(rows)) &&
             Untouched(base, l, rows)
    requires if Fresh(l, rows[0]).None? then m == l else Lands(l, m, Fresh(l, rows[0]).value, mk)
    requires Settled(base, out, rows[1..]) && Others(m, out, rows[1..])
    ensures Settled(base, out, rows) && Others(l, out, rows)
  {
    var row := rows[0];
    NoDupCons(row.key, RowKeys(rows[1..]));
    assert row in rows && Untouched(base, l, [row]);
    FreshOutcome(base, l, row);
    forall r | r in rows && Outcome(base, r).Some?
      ensures r.key in Keys(out.children) && ViewOf(Find(out.children, r.key), base.next) == Outcome(base, r).value
    {
      if r != row {
        assert r in rows[1..];
      }
    }
  }

  /** A full rebuild shows exactly the desired rows, and keeps the node of every unchanged one. */
  lemma {:induction false} ReconcileLaw(l: List, rows: seq<Row>)
    requires Valid(l) && NoDup(RowKeys(rows))
    ensures ApplyReconcile(l, rows).Some? && Valid(ApplyReconcile(l, rows).value)
    ensures View(ApplyReconcile(l, rows).value.children, l.next) == Outcomes(l, rows)
  {
    var k := KeepOnly(l, RowKeys(rows));
    KeepFacts(l, RowKeys(rows));
    RowKeysOf(rows);
    assert Untouched(l, k, rows);
    FoldLaw(l, k, rows, None, None);
    var out := FoldUpsert(k, rows, None, None).value;
    MinusAll(Keys(k.children), KeySet(RowKeys(rows)));
    ViewIs(l, out, rows);
  }
}
