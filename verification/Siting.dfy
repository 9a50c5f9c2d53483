/** Where a hydration leaves the nodes of a tree, whether or not the server markup lined up.

    A node that does not line up is replaced, and the cursor, which stood on it, is lost: the rest of
    its row is mounted at the end of the container, behind the server nodes that were not reached.
    `Layout` counts how many siblings a tree takes over in place and how many of its nodes go to the
    end. A row whose cursor starts on a kept node and comes out among other nodes is astray; a tree
    is `Smooth` when nothing is hydrated from there. `Seated` says that every container holds the
    nodes of its row, in their order. */
module Siting {
  import opened Prelude
  import opened Dom
  import opened VTree
  import opened ClientRuntime
  import opened Adoption
  import opened Depth
  import PlacementLaws

  // ---- Order ---------------------------------------------------------------------------------------

  ghost predicate Before(s: seq<Id>, x: Id, y: Id) {
    exists i, j :: 0 <= i < j < |s| && s[i] == x && s[j] == y
  }

  /** The nodes stand in `s`, one after the other. */
  ghost predicate InOrder(s: seq<Id>, ns: seq<Id>) {
    (forall n :: n in ns ==> n in s) && forall i, j :: 0 <= i < j < |ns| ==> Before(s, ns[i], ns[j])
  }

  /** Nodes of `old` only leave; those that stay keep their order. */
  ghost predicate Thins(s: seq<Id>, t: seq<Id>, old': set<Id>) {
    && (forall x :: x in old' && x in t ==> x in s)
    && forall x, y :: x in old' && y in old' && Before(t, x, y) ==> Before(s, x, y)
  }

  /** In every container, nodes that were there only leave, and the others are new. */
  ghost predicate Evolves(d: Doc, e: Doc) {
    && d.labels.Keys <= e.labels.Keys && d.kids.Keys <= e.kids.Keys
    && forall p :: p in d.kids ==> Thins(d.kids[p], e.kids[p], d.labels.Keys)
  }

  lemma {:induction false} EvolvesSame(d: Doc, e: Doc)
    requires e.kids == d.kids && d.labels.Keys <= e.labels.Keys
    ensures Evolves(d, e)
  {}

  lemma {:induction false} EvolvesTwice(d: Doc, e: Doc, f: Doc)
    requires Evolves(d, e) && Evolves(e, f)
    ensures Evolves(d, f)
  {
    forall p | p in d.kids ensures Thins(d.kids[p], f.kids[p], d.labels.Keys) {
      assert Thins(d.kids[p], e.kids[p], d.labels.Keys) && Thins(e.kids[p], f.kids[p], e.labels.Keys);
    }
  }

  lemma {:induction false} OrderThins(s: seq<Id>, t: seq<Id>, old': set<Id>, ns: seq<Id>)
    requires Thins(s, t, old') && InOrder(t, ns) && forall n :: n in ns ==> n in old'
    ensures InOrder(s, ns)
  {}

  lemma {:induction false} BeforeOnce(s: seq<Id>, x: Id, y: Id)
    requires NoDup(s) && Before(s, x, y)
    ensures x != y && !Before(s, y, x) && x in s && y in s
  {}

  lemma {:induction false} BeforeCons(h: Id, t: seq<Id>, x: Id, y: Id)
    ensures Before([h] + t, x, y) <==> (x == h && y in t) || Before(t, x, y)
  {
    var s := [h] + t;
    if Before(s, x, y) {
      var i, j :| 0 <= i < j < |s| && s[i] == x && s[j] == y;
      assert s[j] == t[j - 1];
      if i > 0 {
        assert s[i] == t[i - 1];
      }
    }
    if x == h && y in t {
      var j :| 0 <= j < |t| && t[j] == y;
      assert s[0] == x && s[j + 1] == y;
    }
    if Before(t, x, y) {
      var i, j :| 0 <= i < j < |t| && t[i] == x && t[j] == y;
      assert s[i + 1] == x && s[j + 1] == y;
    }
  }

  lemma {:induction false} BeforeSkips(a: seq<Id>, t: seq<Id>, x: Id, y: Id)
    requires x !in a && y !in a
    ensures Before(a + t, x, y) <==> Before(t, x, y)
  {
    if a == [] {
      assert a + t == t;
    } else {
      assert a + t == [a[0]] + (a[1..] + t);
      BeforeCons(a[0], a[1..] + t, x, y);
      BeforeSkips(a[1..], t, x, y);
    }
  }

  /** `s` with `ns` in the place of `n`, or at the end when `n` is not there. */
  function InPlaceOf(s: seq<Id>, n: Option<Id>, ns: seq<Id>): seq<Id> {
    if s == [] then ns else if n == Some(s[0]) then ns + s[1..] else [s[0]] + InPlaceOf(s[1..], n, ns)
  }

  lemma {:induction false} InPlaceMembers(s: seq<Id>, n: Option<Id>, ns: seq<Id>)
    ensures forall x :: x in InPlaceOf(s, n, ns) ==> x in s || x in ns
    ensures forall x :: x in s && n != Some(x) ==> x in InPlaceOf(s, n, ns)
  {
    if s != [] {
      InPlaceMembers(s[1..], n, ns);
      assert forall x :: x in s <==> x == s[0] || x in s[1..];
    }
  }

  /** New nodes in the place of one, or at the end, leave the others as they are. */
  lemma {:induction false} InPlaceThins(s: seq<Id>, n: Option<Id>, ns: seq<Id>, old': set<Id>)
    requires forall m :: m in ns ==> m !in old'
    ensures Thins(s, InPlaceOf(s, n, ns), old')
  {
    InPlaceMembers(s, n, ns);
    forall x, y | x in old' && y in old' && Before(InPlaceOf(s, n, ns), x, y) ensures Before(s, x, y) {
      InPlaceBefore(s, n, ns, x, y);
    }
  }

  lemma {:induction false} InPlaceBefore(s: seq<Id>, n: Option<Id>, ns: seq<Id>, x: Id, y: Id)
    requires x !in ns && y !in ns && Before(InPlaceOf(s, n, ns), x, y)
    ensures Before(s, x, y)
  {
    if s == [] {
      BeforeOfMembers(ns, x, y);
    } else {
      assert s == [s[0]] + s[1..];
      BeforeCons(s[0], s[1..], x, y);
      if n == Some(s[0]) {
        BeforeSkips(ns, s[1..], x, y);
      } else {
        BeforeCons(s[0], InPlaceOf(s[1..], n, ns), x, y);
        InPlaceMembers(s[1..], n, ns);
        if Before(InPlaceOf(s[1..], n, ns), x, y) {
          InPlaceBefore(s[1..], n, ns, x, y);
        }
      }
    }
  }

  lemma {:induction false} BeforeOfMembers(s: seq<Id>, x: Id, y: Id)
    requires Before(s, x, y)
    ensures x in s && y in s
  {}

  /** What stood at the replaced node or behind it stands behind the new ones. */
  lemma {:induction false} InPlaceLeads(s: seq<Id>, n: Id, m: Id, x: Id)
    requires NoDup(s) && n in s && m !in s && x != m && (x == n || Before(s, n, x))
    ensures !Before(InPlaceOf(s, Some(n), [m]), x, m)
  {
    var t := InPlaceOf(s, Some(n), [m]);
    assert s == [s[0]] + s[1..];
    NoDupCons(s[0], s[1..]);
    if s[0] == n {
      assert t == [m] + s[1..];
      BeforeCons(m, s[1..], x, m);
      if Before(s[1..], x, m) {
        BeforeOfMembers(s[1..], x, m);
      }
    } else {
      BeforeCons(s[0], InPlaceOf(s[1..], Some(n), [m]), x, m);
      BeforeCons(s[0], s[1..], n, x);
      InPlaceLeads(s[1..], n, m, x);
      if x == s[0] {
        BeforeOfMembers(s[1..], n, x);
      }
    }
  }

  // ---- Instances in their containers ---------------------------------------------------------------

  /** Every element of the instance tree holds the nodes of its children, in order. */
  ghost predicate Seated(e: Doc, i: Instance) {
    match i
    case TextInst(_, _) => true
    case GroupInst(_, _, cs) => forall k | 0 <= k < |cs| :: Seated(e, cs[k])
    case CompInst(_, _, r) => Seated(e, r)
    case HostInst(_, n, cs) =>
      n in e.kids && InOrder(e.kids[n], NodesAll(cs)) && forall k | 0 <= k < |cs| :: Seated(e, cs[k])
  }

  ghost predicate SeatedAll(e: Doc, cs: seq<Instance>) { forall k :: 0 <= k < |cs| ==> Seated(e, cs[k]) }

  /** So does its container. */
  ghost predicate InPlace(e: Doc, i: Instance, c: Id) {
    c in e.kids && InOrder(e.kids[c], Nodes(i)) && Seated(e, i)
  }

  ghost predicate RowInPlace(e: Doc, cs: seq<Instance>, c: Id) {
    c in e.kids && InOrder(e.kids[c], NodesAll(cs)) && SeatedAll(e, cs)
  }

  predicate Carries(attrs: Props, props: Props) { forall k :: k in props ==> k in attrs && attrs[k] == props[k] }

  /** Every node shows its text, or has its tag and its attributes. */
  ghost predicate Dressed(e: Doc, i: Instance) {
    match i
    case TextInst(v, n) => n in e.labels && v.Text? && e.labels[n] == TextNode(v.text)
    case GroupInst(_, _, cs) => forall k | 0 <= k < |cs| :: Dressed(e, cs[k])
    case CompInst(_, _, r) => Dressed(e, r)
    case HostInst(v, n, cs) =>
      && n in e.labels && v.Host? && e.labels[n].Element? && e.labels[n].tag == v.tag
      && Carries(e.labels[n].props, v.props) && forall k | 0 <= k < |cs| :: Dressed(e, cs[k])
  }

  ghost predicate DressedAll(e: Doc, cs: seq<Instance>) { forall k :: 0 <= k < |cs| ==> Dressed(e, cs[k]) }

  /** Nodes out of their order never come back into it. */
  lemma {:induction false} SeatedBefore(d: Doc, e: Doc, i: Instance)
    requires Evolves(d, e) && d.kids.Keys == d.labels.Keys && Owned(i) <= d.labels.Keys && Seated(e, i)
    ensures Seated(d, i)
    decreases i
  {
    match i
    case TextInst(_, _) =>
    case GroupInst(_, _, cs) => SeatedBeforeAll(d, e, cs);
    case CompInst(_, _, r) => SeatedBefore(d, e, r);
    case HostInst(_, n, cs) =>
      assert n in Owned(i);
      SeatedBeforeAll(d, e, cs);
      NodesOwnedAll(cs);
      assert Thins(d.kids[n], e.kids[n], d.labels.Keys);
      OrderThins(d.kids[n], e.kids[n], d.labels.Keys, NodesAll(cs));
  }

  lemma {:induction false} SeatedBeforeAll(d: Doc, e: Doc, cs: seq<Instance>)
    requires Evolves(d, e) && d.kids.Keys == d.labels.Keys && OwnedAll(cs) <= d.labels.Keys && SeatedAll(e, cs)
    ensures SeatedAll(d, cs)
    decreases cs, 0
  {
    forall k | 0 <= k < |cs| ensures Seated(d, cs[k]) {
      OwnedAt(cs, k);
      SeatedBefore(d, e, cs[k]);
    }
  }

  lemma {:induction false} RowBefore(d: Doc, e: Doc, cs: seq<Instance>, c: Id)
    requires Evolves(d, e) && d.kids.Keys == d.labels.Keys && OwnedAll(cs) <= d.labels.Keys && c in d.kids
    requires RowInPlace(e, cs, c)
    ensures RowInPlace(d, cs, c)
  {
    SeatedBeforeAll(d, e, cs);
    NodesOwnedAll(cs);
    assert Thins(d.kids[c], e.kids[c], d.labels.Keys);
    OrderThins(d.kids[c], e.kids[c], d.labels.Keys, NodesAll(cs));
  }

  lemma {:induction false} RowParts(e: Doc, rs: seq<Instance>, r: Instance, c: Id)
    ensures RowInPlace(e, rs + [r], c) ==> RowInPlace(e, rs, c) && InPlace(e, r, c)
  {
    NodesAllOne(rs, r);
    if RowInPlace(e, rs + [r], c) {
      var a, b := NodesAll(rs), Nodes(r);
      var ns := a + b;
      assert forall n :: n in ns <==> n in a || n in b;
      assert forall k :: 0 <= k < |rs| ==> (rs + [r])[k] == rs[k];
      assert (rs + [r])[|rs|] == r;
      forall i, j | 0 <= i < j < |a| ensures Before(e.kids[c], a[i], a[j]) {
        assert ns[i] == a[i] && ns[j] == a[j];
      }
      forall i, j | 0 <= i < j < |b| ensures Before(e.kids[c], b[i], b[j]) {
        assert ns[|a| + i] == b[i] && ns[|a| + j] == b[j];
      }
    }
  }

  /** A tree as mounted is in place and dressed. */
  lemma {:induction false} AttachedSeated(e: Doc, i: Instance, c: Id)
    requires Consistent(e) && Attached(e, i, c)
    ensures Seated(e, i) && Dressed(e, i)
    decreases i
  {
    match i
    case TextInst(_, _) =>
    case GroupInst(_, _, cs) => AttachedSeatedAll(e, cs, c);
    case CompInst(_, _, r) => AttachedSeated(e, r, c);
    case HostInst(_, n, cs) =>
      AttachedSeatedAll(e, cs, n);
      OrderSelf(e.kids[n]);
  }

  lemma {:induction false} AttachedSeatedAll(e: Doc, cs: seq<Instance>, c: Id)
    requires Consistent(e) && forall k :: 0 <= k < |cs| ==> Attached(e, cs[k], c)
    ensures SeatedAll(e, cs) && DressedAll(e, cs)
    decreases cs, 0
  {
    forall k | 0 <= k < |cs| ensures Seated(e, cs[k]) && Dressed(e, cs[k]) {
      AttachedSeated(e, cs[k], c);
    }
  }

  lemma {:induction false} OrderSelf(s: seq<Id>)
    ensures InOrder(s, s)
  {
    forall i, j | 0 <= i < j < |s| ensures Before(s, s[i], s[j]) {}
  }

  // ---- The layout ----------------------------------------------------------------------------------

  /** A tree takes over `taken` siblings in place and sends `extra` nodes to the end; `lost` when the
      first sibling was replaced, and the cursor on it with it. */
  datatype Lay = Lay(taken: nat, extra: nat, lost: bool)

  /** The cursor of a row: on the next sibling, past the last, or somewhere among other nodes. */
  datatype Cursor = At | End | Astray

  datatype RowLay = RowLay(taken: nat, extra: nat, lost: bool, at: Cursor)

  predicate LinesUp(d: Doc, v: VNode, n: Id) {
    n in d.labels && n in d.kids
    && match v
       case Text(_) => d.labels[n].TextNode?
       case Host(t, _, _) => d.labels[n].Element? && d.labels[n].tag == t
       case _ => false
  }

  function Layout(d: Doc, v: VNode, s: seq<Id>): (x: Lay)
    ensures x.taken <= |s| && (x.lost ==> x.taken > 0) && (x.extra > 0 && s != [] ==> x.taken > 0)
    decreases v, 0
  {
    match v
    case Text(_) => if s == [] then Lay(0, 1, false) else Lay(1, 0, !LinesUp(d, v, s[0]))
    case Host(_, _, _) => if s == [] then Lay(0, 1, false) else Lay(1, 0, !LinesUp(d, v, s[0]))
    case Empty => Lay(0, 0, false)
    case Component(_, r) => Layout(d, r, s)
    case Group(_, cs) => var p := LayoutRow(d, cs, s, |cs|); Lay(p.taken, p.extra, p.lost)
  }

  function LayoutRow(d: Doc, vs: seq<VNode>, s: seq<Id>, k: nat): (p: RowLay)
    requires k <= |vs|
    ensures p.taken <= |s| && (p.lost ==> p.taken > 0) && (p.extra > 0 && s != [] ==> p.taken > 0)
    ensures p.at.At? ==> p.taken < |s| && p.extra == 0
    ensures !p.at.At? && s != [] ==> p.taken > 0
    decreases vs, k
  {
    if k == 0 then RowLay(0, 0, false, if s == [] then End else At)
    else
      var p := LayoutRow(d, vs, s, k - 1);
      if !p.at.At? then p.(extra := p.extra + |Render(vs[k - 1])|)
      else
        var x := Layout(d, vs[k - 1], s[p.taken..]);
        RowLay(p.taken + x.taken, p.extra + x.extra, if p.taken == 0 then x.lost else p.lost,
               if x.taken + x.extra == 0 then At
               else if x.lost || p.taken + x.taken == |s| then End
               else if x.extra > 0 then Astray
               else At)
  }

  /** Nothing that renders a node is hydrated from a cursor that is astray. */
  ghost predicate Smooth(d: Doc, v: VNode, s: seq<Id>)
    decreases v, 0
  {
    match v
    case Component(_, r) => Smooth(d, r, s)
    case Group(_, cs) => SmoothRow(d, cs, s, |cs|)
    case Host(_, _, cs) => s != [] && LinesUp(d, v, s[0]) ==> SmoothRow(d, cs, d.kids[s[0]], |cs|)
    case _ => true
  }

  ghost predicate SmoothRow(d: Doc, vs: seq<VNode>, s: seq<Id>, k: nat)
    requires k <= |vs|
    decreases vs, k
  {
    k == 0 ||
    (&& SmoothRow(d, vs, s, k - 1)
     && var p := LayoutRow(d, vs, s, k - 1);
        match p.at
        case At => Smooth(d, vs[k - 1], s[p.taken..])
        case End => true
        case Astray => Render(vs[k - 1]) == [])
  }

  // ---- What the layout depends on --------------------------------------------------------------------

  /** Below the siblings `s` the two documents are the same. */
  ghost predicate SameBelow(d: Doc, e: Doc, depth: map<Id, nat>, s: seq<Id>, lv: nat) {
    forall m :: m in d.labels && Below(d, depth, m, s, lv) ==>
      m in e.labels && e.labels[m] == d.labels[m] && (m in d.kids ==> m in e.kids && e.kids[m] == d.kids[m])
  }

  lemma {:induction false} SameInside(d: Doc, e: Doc, depth: map<Id, nat>, s: seq<Id>, lv: nat)
    requires SameBelow(d, e, depth, s, lv) && Consistent(d) && Ranked(d, depth) && Level(depth, s, lv)
    requires s != [] && Branch(d, s[0])
    ensures Level(depth, d.kids[s[0]], lv + 1) && SameBelow(d, e, depth, d.kids[s[0]], lv + 1)
  {
    var n := s[0];
    assert n in s;
    forall m | m in d.labels && Below(d, depth, m, d.kids[n], lv + 1) ensures Below(d, depth, m, s, lv) {
      BelowParent(d, depth, m, n, lv);
    }
  }

  lemma {:induction false} SameHead(d: Doc, e: Doc, depth: map<Id, nat>, v: VNode, s: seq<Id>, lv: nat)
    requires Consistent(d) && e.kids.Keys == e.labels.Keys
    requires SameBelow(d, e, depth, s, lv) && Level(depth, s, lv) && s != [] && s[0] in d.labels
    ensures LinesUp(d, v, s[0]) <==> LinesUp(e, v, s[0])
    ensures s[0] in d.kids ==> s[0] in e.kids && e.kids[s[0]] == d.kids[s[0]]
  {
    assert s[0] in s && Below(d, depth, s[0], s, lv);
  }

  lemma {:induction false} SameRest(d: Doc, e: Doc, depth: map<Id, nat>, s: seq<Id>, lv: nat, n: nat)
    requires n <= |s| && SameBelow(d, e, depth, s, lv) && Level(depth, s, lv)
    ensures SameBelow(d, e, depth, s[n..], lv) && Level(depth, s[n..], lv)
  {
    forall m | m in d.labels && Below(d, depth, m, s[n..], lv) ensures Below(d, depth, m, s, lv) {}
  }

  lemma {:induction false} LayoutSame(d: Doc, e: Doc, depth: map<Id, nat>, v: VNode, s: seq<Id>, lv: nat)
    requires Consistent(d) && e.kids.Keys == e.labels.Keys && forall m :: m in s ==> m in d.labels
    requires SameBelow(d, e, depth, s, lv) && Level(depth, s, lv)
    ensures Layout(d, v, s) == Layout(e, v, s)
    decreases v, 0
  {
    match v
    case Text(_) => if s != [] { SameHead(d, e, depth, v, s, lv); }
    case Host(_, _, _) => if s != [] { SameHead(d, e, depth, v, s, lv); }
    case Component(_, r) => LayoutSame(d, e, depth, r, s, lv);
    case Group(_, cs) => LayoutRowSame(d, e, depth, cs, s, lv, |cs|);
    case Empty =>
  }

  lemma {:induction false} LayoutRowSame(d: Doc, e: Doc, depth: map<Id, nat>, vs: seq<VNode>, s: seq<Id>, lv: nat,
                                         k: nat)
    requires k <= |vs| && Consistent(d) && e.kids.Keys == e.labels.Keys && forall m :: m in s ==> m in d.labels
    requires SameBelow(d, e, depth, s, lv) && Level(depth, s, lv)
    ensures LayoutRow(d, vs, s, k) == LayoutRow(e, vs, s, k)
    decreases vs, k
  {
    if k > 0 {
      LayoutRowSame(d, e, depth, vs, s, lv, k - 1);
      var p := LayoutRow(d, vs, s, k - 1);
      if p.at.At? {
        SameRest(d, e, depth, s, lv, p.taken);
        LayoutSame(d, e, depth, vs[k - 1], s[p.taken..], lv);
      }
    }
  }

  lemma {:induction false} SmoothSame(d: Doc, e: Doc, depth: map<Id, nat>, v: VNode, s: seq<Id>, lv: nat)
    requires Consistent(d) && e.kids.Keys == e.labels.Keys && Ranked(d, depth) && forall m :: m in s ==> m in d.labels
    requires SameBelow(d, e, depth, s, lv) && Level(depth, s, lv)
    ensures Smooth(d, v, s) <==> Smooth(e, v, s)
    decreases v, 0
  {
    match v
    case Component(_, r) => SmoothSame(d, e, depth, r, s, lv);
    case Group(_, cs) => SmoothRowSame(d, e, depth, cs, s, lv, |cs|);
    case Host(_, _, cs) =>
      if s != [] {
        SameHead(d, e, depth, v, s, lv);
        if LinesUp(d, v, s[0]) {
          SameInside(d, e, depth, s, lv);
          SmoothRowSame(d, e, depth, cs, d.kids[s[0]], lv + 1, |cs|);
        }
      }
    case _ =>
  }

  lemma {:induction false} SmoothRowSame(d: Doc, e: Doc, depth: map<Id, nat>, vs: seq<VNode>, s: seq<Id>, lv: nat,
                                         k: nat)
    requires k <= |vs| && Consistent(d) && e.kids.Keys == e.labels.Keys && Ranked(d, depth)
    requires (forall m :: m in s ==> m in d.labels) && SameBelow(d, e, depth, s, lv) && Level(depth, s, lv)
    ensures SmoothRow(d, vs, s, k) <==> SmoothRow(e, vs, s, k)
    decreases vs, k
  {
    if k > 0 {
      SmoothRowSame(d, e, depth, vs, s, lv, k - 1);
      LayoutRowSame(d, e, depth, vs, s, lv, k - 1);
      var p := LayoutRow(d, vs, s, k - 1);
      if p.at.At? {
        SameRest(d, e, depth, s, lv, p.taken);
        SmoothSame(d, e, depth, vs[k - 1], s[p.taken..], lv);
      }
    }
  }

  // ---- Trees that are smooth ---------------------------------------------------------------------------

  /** A tree with no server node left is mounted at the end, one node after the other. */
  lemma {:induction false} NoneLeft(d: Doc, v: VNode)
    ensures Layout(d, v, []) == Lay(0, |Render(v)|, false) && Smooth(d, v, [])
    decreases v, 0
  {
    match v
    case Component(_, r) => NoneLeft(d, r);
    case Group(_, cs) =>
      NoneLeftRow(d, cs, |cs|);
      assert cs[..|cs|] == cs;
    case _ =>
  }

  lemma {:induction false} NoneLeftRow(d: Doc, vs: seq<VNode>, k: nat)
    requires k <= |vs|
    ensures LayoutRow(d, vs, [], k) == RowLay(0, |RenderAll(vs[..k])|, false, End) && SmoothRow(d, vs, [], k)
    decreases vs, k
  {
    if k > 0 {
      NoneLeftRow(d, vs, k - 1);
      RenderAllStep(vs, k);
    }
  }

  /** A tree takes over and appends as many nodes as it renders. */
  lemma {:induction false} LayoutCounts(d: Doc, v: VNode, s: seq<Id>)
    ensures Layout(d, v, s).taken + Layout(d, v, s).extra == |Render(v)|
    decreases v, 0
  {
    match v
    case Component(_, r) => LayoutCounts(d, r, s);
    case Group(_, cs) =>
      LayoutRowCounts(d, cs, s, |cs|);
      assert cs[..|cs|] == cs;
    case _ =>
  }

  lemma {:induction false} LayoutRowCounts(d: Doc, vs: seq<VNode>, s: seq<Id>, k: nat)
    requires k <= |vs|
    ensures LayoutRow(d, vs, s, k).taken + LayoutRow(d, vs, s, k).extra == |RenderAll(vs[..k])|
    decreases vs, k
  {
    if k > 0 {
      LayoutRowCounts(d, vs, s, k - 1);
      RenderAllStep(vs, k);
      var p := LayoutRow(d, vs, s, k - 1);
      if p.at.At? {
        LayoutCounts(d, vs[k - 1], s[p.taken..]);
      }
    }
  }

  /** What renders nothing is smooth wherever it is hydrated. */
  lemma {:induction false} NothingSmooth(d: Doc, v: VNode, s: seq<Id>)
    requires Render(v) == []
    ensures Smooth(d, v, s)
    decreases v, 0
  {
    match v
    case Component(_, r) => NothingSmooth(d, r, s);
    case Group(_, cs) =>
      assert cs[..|cs|] == cs;
      NothingSmoothRow(d, cs, s, |cs|);
    case _ =>
  }

  lemma {:induction false} NothingSmoothRow(d: Doc, vs: seq<VNode>, s: seq<Id>, k: nat)
    requires k <= |vs| && RenderAll(vs[..k]) == []
    ensures SmoothRow(d, vs, s, k)
    decreases vs, k
  {
    if k > 0 {
      RenderAllStep(vs, k);
      NothingSmoothRow(d, vs, s, k - 1);
      NothingSmooth(d, vs[k - 1], s[LayoutRow(d, vs, s, k - 1).taken..]);
    }
  }

  /** A tree that is no group sends nothing to the end while a sibling is left. */
  lemma {:induction false} PlainTakes(d: Doc, v: VNode, s: seq<Id>)
    requires !PlacementLaws.GroupTop(v) && s != []
    ensures Layout(d, v, s).extra == 0
    decreases v
  {
    match v
    case Component(_, r) => PlainTakes(d, r, s);
    case _ =>
  }

  /** Trees whose groups come last are smooth over any server markup. */
  lemma {:induction false} TameSmooth(d: Doc, v: VNode, s: seq<Id>)
    requires PlacementLaws.Tame(v)
    ensures Smooth(d, v, s)
    decreases v, 0
  {
    match v
    case Component(_, r) => TameSmooth(d, r, s);
    case Group(_, cs) => TameSmoothRow(d, cs, s, |cs|);
    case Host(_, _, cs) =>
      if s != [] && LinesUp(d, v, s[0]) {
        TameSmoothRow(d, cs, d.kids[s[0]], |cs|);
      }
    case _ =>
  }

  lemma {:induction false} TameSmoothRow(d: Doc, vs: seq<VNode>, s: seq<Id>, k: nat)
    requires PlacementLaws.TameAll(vs) && k <= |vs|
    ensures SmoothRow(d, vs, s, k) && (k < |vs| ==> !LayoutRow(d, vs, s, k).at.Astray?)
    decreases vs, k
  {
    if k > 0 {
      TameSmoothRow(d, vs, s, k - 1);
      var p := LayoutRow(d, vs, s, k - 1);
      if p.at.At? {
        TameSmooth(d, vs[k - 1], s[p.taken..]);
        if k < |vs| {
          PlainTakes(d, vs[k - 1], s[p.taken..]);
        }
      }
    }
  }

  /** A text, an element and a text over three texts: the element replaces the second, and the rest is lost. */
  lemma {:induction false} GroupLosesCursor(d: Doc, v: VNode, props: Props)
    requires {1, 2, 3} <= d.labels.Keys && {1, 2, 3} <= d.kids.Keys
    requires d.labels[1].TextNode? && d.labels[2].TextNode? && d.labels[3].TextNode?
    requires v == Group(FragmentType, [Text("a"), Host("b", props, []), Text("c")])
    ensures Layout(d, v, [1, 2, 3]) == Lay(2, 1, false)
  {
    var cs, s := v.children, [1, 2, 3];
    assert s[0..] == s && s[1..] == [2, 3];
    assert LayoutRow(d, cs, s, 0) == RowLay(0, 0, false, At);
    assert Layout(d, cs[0], s) == Lay(1, 0, false);
    assert LayoutRow(d, cs, s, 1) == RowLay(1, 0, false, At);
    assert Layout(d, cs[1], [2, 3]) == Lay(1, 0, true);
    assert LayoutRow(d, cs, s, 2) == RowLay(2, 0, false, End);
    assert |Render(cs[2])| == 1;
    assert LayoutRow(d, cs, s, 3) == RowLay(2, 1, false, End);
  }

  /** A nested group loses its cursor at the second of three texts the server left: its last node goes
      to the end, and the sibling of the group is hydrated from what the outer cursor then stands on. */
  lemma {:induction false} NestedGroupAstray(d: Doc, props: Props)
    requires {1, 2, 3} <= d.labels.Keys && {1, 2, 3} <= d.kids.Keys
    requires d.labels[1].TextNode? && d.labels[2].TextNode? && d.labels[3].TextNode?
    ensures var inner := Group(FragmentType, [Text("a"), Host("b", props, []), Text("c")]);
            !Smooth(d, Group(FragmentType, [inner, Text("d")]), [1, 2, 3])
            && Smooth(d, Group(FragmentType, [Text("d"), inner]), [1, 2, 3])
  {
    var inner := Group(FragmentType, [Text("a"), Host("b", props, []), Text("c")]);
    var outer, s := [inner, Text("d")], [1, 2, 3];
    GroupLosesCursor(d, inner, props);
    assert s[0..] == s;
    assert LayoutRow(d, outer, s, 0) == RowLay(0, 0, false, At);
    assert LayoutRow(d, outer, s, 1) == RowLay(2, 1, false, Astray) by { hide Layout, LinesUp; }
    assert |Render(outer[1])| == 1;
    assert !SmoothRow(d, outer, s, 2) by { hide Layout, LayoutRow; }
    var last := Group(FragmentType, [Text("d"), inner]);
    assert PlacementLaws.Tame(inner) by {
      assert PlacementLaws.Tame(inner.children[1]) && !PlacementLaws.GroupTop(inner.children[1]);
    }
    assert PlacementLaws.Tame(last) by {
      assert last.children[1] == inner && PlacementLaws.Tame(last.children[0]);
    }
    hide *;
    TameSmooth(d, last, s);
  }
}
