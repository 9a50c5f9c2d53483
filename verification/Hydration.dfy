/** Adopting server-rendered nodes instead of making new ones.

    A cursor walks the siblings of a container; `Adoptable` says when the virtual tree lines up with
    them, `Snug` when in addition no element holds nodes beyond those. `Hydrated` relates what was
    there, what is there, and the instance tree: no node is made exactly when the tree is
    adoptable, and an adopted instance stands for the first siblings in order. That adopted trees
    own no node twice comes from the depth of nodes in the document: `Hangs` places every owned
    node below one of the adopted siblings, and different siblings have different nodes below them.
    `Ready` is what a later update asks for. */
module Hydration {
  import opened Prelude
  import opened Dom
  import opened VTree
  import opened ClientRuntime
  import opened Adoption
  import opened Depth
  import opened Siting
  import opened Fallback
  import opened FallbackRows

  // ---- Cursors ---------------------------------------------------------------------------------

  /** `count` steps along `nextSibling`. */
  method Advance(d: Doc, start: Option<Id>, count: nat) returns (cursor: Option<Id>)
    requires Consistent(d) && (start.Some? ==> start.value in d.labels)
    ensures Siblings(d, cursor) == Skip(Siblings(d, start), count)
    ensures cursor.Some? ==> cursor.value in d.labels
  {
    cursor := start;
    for j := 0 to count
      invariant Siblings(d, cursor) == Skip(Siblings(d, start), j)
      invariant cursor.Some? ==> cursor.value in d.labels
    {
      SiblingsFacts(d, cursor);
      if cursor.Some? {
        NextSiblings(d, cursor.value);
        cursor := NextSibling(d, cursor.value);
      }
    }
  }

  // ---- One adoption ------------------------------------------------------------------------------

  ghost predicate Grown(d: Doc, e: Doc) { d.labels.Keys <= e.labels.Keys && d.next <= e.next }

  /** The instance stands for the first siblings and only texts and attributes it owns changed. */
  ghost predicate Adopted(d: Doc, e: Doc, v: VNode, s: seq<Id>, r: Instance) {
    && SameShape(d, e) && r.vnode == v && Shaped(r)
    && |Render(v)| <= |s| && Nodes(r) == s[..|Render(v)|]
    && forall n :: n in d.labels && n !in Owned(r) ==> e.labels[n] == d.labels[n]
  }

  ghost predicate AdoptedWell(d: Doc, e: Doc, depth: map<Id, nat>, k: nat, v: VNode, s: seq<Id>, r: Instance, c: Id) {
    Hangs(d, depth, Owned(r), Nodes(r), k) && (Attached(e, r, c) <==> Snug(d, v, s))
  }

  ghost predicate RowAdopted(d: Doc, e: Doc, vs: seq<VNode>, s: seq<Id>, rs: seq<Instance>, k: nat)
    requires k <= |vs|
  {
    && SameShape(d, e) && Matches(rs, vs[..k]) && ShapedAll(rs)
    && |RenderAll(vs[..k])| <= |s| && NodesAll(rs) == s[..|RenderAll(vs[..k])|]
    && forall n :: n in d.labels && n !in OwnedAll(rs) ==> e.labels[n] == d.labels[n]
  }

  ghost predicate RowWell(d: Doc, e: Doc, depth: map<Id, nat>, lv: nat, vs: seq<VNode>, s: seq<Id>, rs: seq<Instance>,
                          c: Id, k: nat)
    requires k <= |vs|
  {
    Hangs(d, depth, OwnedAll(rs), NodesAll(rs), lv) && (AttachedAll(e, rs, c) <==> SnugUpTo(d, vs, s, k))
  }

  /** Nothing is created exactly when all of it can be adopted, and then all of it is. */
  ghost predicate Hydrated(d: Doc, e: Doc, v: VNode, s: seq<Id>, r: Instance, depth: map<Id, nat>, lv: nat, c: Id) {
    && Grown(d, e)
    && (e.next == d.next <==> Adoptable(d, v, s))
    && (Adoptable(d, v, s) ==> Adopted(d, e, v, s, r))
    && (Adoptable(d, v, s) && Ranked(d, depth) && Level(depth, s, lv) ==> AdoptedWell(d, e, depth, lv, v, s, r, c))
  }

  ghost predicate HydratedRow(d: Doc, e: Doc, vs: seq<VNode>, s: seq<Id>, rs: seq<Instance>, depth: map<Id, nat>,
                              lv: nat, c: Id, k: nat)
    requires k <= |vs|
  {
    && Grown(d, e)
    && (e.next == d.next <==> AdoptableUpTo(d, vs, s, k))
    && (AdoptableUpTo(d, vs, s, k) ==> RowAdopted(d, e, vs, s, rs, k))
    && (AdoptableUpTo(d, vs, s, k) && Ranked(d, depth) && Level(depth, s, lv) ==>
      RowWell(d, e, depth, lv, vs, s, rs, c, k))
  }

  lemma {:induction false} RowAdoptedStep(d: Doc, e: Doc, f: Doc, vs: seq<VNode>, s: seq<Id>, rs: seq<Instance>,
                                          r: Instance, k: nat)
    requires k < |vs| && RowAdopted(d, e, vs, s, rs, k)
    requires Adopted(e, f, vs[k], Skip(s, |RenderAll(vs[..k])|), r)
    ensures RowAdopted(d, f, vs, s, rs + [r], k + 1)
  {
    RenderAllStep(vs, k + 1);
    AllOneMore(f, rs, r, 0, vs);
    OwnedAllAppend(rs, r);
    NodesAllOne(rs, r);
    var n, m := |RenderAll(vs[..k])|, |Render(vs[k])|;
    assert s[..n + m] == s[..n] + s[n..][..m];
  }

  /** Labels kept below the siblings `s` are kept below the children of their first. */
  lemma {:induction false} KeptInside(d: Doc, e: Doc, depth: map<Id, nat>, s: seq<Id>, lv: nat)
    requires SameShape(d, e) && Consistent(d) && Ranked(d, depth) && Level(depth, s, lv) && s != [] && Branch(d, s[0])
    requires forall m :: m in d.labels && Below(d, depth, m, s, lv) ==> e.labels[m] == d.labels[m]
    ensures e.labels[s[0]] == d.labels[s[0]]
    ensures Level(depth, d.kids[s[0]], lv + 1)
    ensures forall m :: m in d.labels && Below(d, depth, m, d.kids[s[0]], lv + 1) ==> e.labels[m] == d.labels[m]
  {
    var n := s[0];
    assert n in s && Below(d, depth, n, s, lv);
    forall m | m in d.labels && Below(d, depth, m, d.kids[n], lv + 1) ensures e.labels[m] == d.labels[m] {
      BelowParent(d, depth, m, n, lv);
      assert Below(d, depth, m, s, lv);
    }
  }

  /** Texts and attributes painted elsewhere do not change what a slot would find. */
  lemma {:induction false} SnugFrame(d: Doc, e: Doc, depth: map<Id, nat>, v: VNode, s: seq<Id>, lv: nat)
    requires SameShape(d, e) && Consistent(d) && Ranked(d, depth) && Level(depth, s, lv)
    requires forall m :: m in d.labels && Below(d, depth, m, s, lv) ==> e.labels[m] == d.labels[m]
    ensures Snug(d, v, s) <==> Snug(e, v, s)
    decreases v, 0
  {
    match v
    case Group(_, cs) => SnugUpToFrame(d, e, depth, cs, s, lv, |cs|);
    case Component(_, r) => SnugFrame(d, e, depth, r, s, lv);
    case Host(_, _, cs) =>
      if s != [] && Branch(d, s[0]) {
        KeptInside(d, e, depth, s, lv);
        hide Consistent, Ranked;
        SnugUpToFrame(d, e, depth, cs, d.kids[s[0]], lv + 1, |cs|);
      }
    case _ =>
  }

  lemma {:induction false} SnugUpToFrame(d: Doc, e: Doc, depth: map<Id, nat>, vs: seq<VNode>, s: seq<Id>, lv: nat,
                                         k: nat)
    requires k <= |vs| && SameShape(d, e) && Consistent(d) && Ranked(d, depth) && Level(depth, s, lv)
    requires forall m :: m in d.labels && Below(d, depth, m, s, lv) ==> e.labels[m] == d.labels[m]
    ensures SnugUpTo(d, vs, s, k) <==> SnugUpTo(e, vs, s, k)
    decreases vs, k
  {
    if k > 0 {
      SnugUpToFrame(d, e, depth, vs, s, lv, k - 1);
      var rest := Skip(s, |RenderAll(vs[..k - 1])|);
      forall m | m in d.labels && Below(d, depth, m, rest, lv) ensures e.labels[m] == d.labels[m] {
        assert Below(d, depth, m, s, lv);
      }
      SnugFrame(d, e, depth, vs[k - 1], rest, lv);
    }
  }

  lemma {:induction false} SlotsDisjoint(s: seq<Id>, n: nat)
    requires NoDup(s) && n <= |s|
    ensures forall m :: m in s[..n] ==> m !in Skip(s, n)
  {
    assert s == s[..n] + s[n..];
    NoDupParts(s[..n], s[n..]);
  }

  lemma {:induction false} SlotSnug(d: Doc, e: Doc, depth: map<Id, nat>, lv: nat, owned: set<Id>, done: seq<Id>,
                                    rest: seq<Id>, v: VNode)
    requires SameShape(d, e) && Consistent(d) && Ranked(d, depth) && Level(depth, rest, lv)
    requires Hangs(d, depth, owned, done, lv) && (forall m :: m in done ==> m !in rest)
    requires forall n :: n in d.labels && n !in owned ==> e.labels[n] == d.labels[n]
    ensures Snug(d, v, rest) <==> Snug(e, v, rest)
  {
    forall m | m in d.labels && Below(d, depth, m, rest, lv) ensures m !in owned {
      assert !Below(d, depth, m, done, lv);
    }
    SnugFrame(d, e, depth, v, rest, lv);
  }

  lemma {:induction false} SlotUnpainted(e: Doc, f: Doc, rs: seq<Instance>, r: Instance, c: Id)
    requires SameShape(e, f) && Consistent(e) && Consistent(f) && Owned(r) !! OwnedAll(rs)
    requires forall n :: n in OwnedAll(rs) ==> n in e.labels
    requires forall n :: n in e.labels && n !in Owned(r) ==> f.labels[n] == e.labels[n]
    ensures AttachedAll(e, rs, c) <==> AttachedAll(f, rs, c)
  {
    AttachedFrameAll(e, f, rs, c);
  }

  lemma {:induction false} RowHangs(d: Doc, depth: map<Id, nat>, rs: seq<Instance>, r: Instance, lv: nat)
    requires Hangs(d, depth, OwnedAll(rs), NodesAll(rs), lv) && Hangs(d, depth, Owned(r), Nodes(r), lv)
    ensures Hangs(d, depth, OwnedAll(rs + [r]), NodesAll(rs + [r]), lv)
  {
    OwnedAllAppend(rs, r);
    NodesAllOne(rs, r);
  }

  lemma {:induction false} SlotApart(d: Doc, depth: map<Id, nat>, lv: nat, s: seq<Id>, n: nat, rs: seq<Instance>,
                                     r: Instance)
    requires NoDup(s) && n <= |s| && Level(depth, s, lv) && NodesAll(rs) == s[..n] && Nodes(r) <= Skip(s, n)
    requires Hangs(d, depth, OwnedAll(rs), NodesAll(rs), lv) && Hangs(d, depth, Owned(r), Nodes(r), lv)
    ensures OwnedAll(rs) !! Owned(r) && Level(depth, Skip(s, n), lv)
    ensures forall m :: m in NodesAll(rs) ==> m !in Skip(s, n)
  {
    SlotsDisjoint(s, n);
    forall m | m in Nodes(r) ensures m in Skip(s, n) {}
    HangsApart(d, depth, OwnedAll(rs), NodesAll(rs), Owned(r), Nodes(r), lv);
  }

  lemma {:induction false} RowWellStep(d: Doc, e: Doc, f: Doc, depth: map<Id, nat>, lv: nat, vs: seq<VNode>, s: seq<Id>,
                    rs: seq<Instance>, r: Instance, c: Id, k: nat)
    requires k < |vs| && Consistent(d) && Consistent(e) && Consistent(f) && Ranked(d, depth) && NoDup(s) &&
             Level(depth, s, lv)
    requires RowAdopted(d, e, vs, s, rs, k) && RowWell(d, e, depth, lv, vs, s, rs, c, k)
    requires var rest := Skip(s, |RenderAll(vs[..k])|);
             Adopted(e, f, vs[k], rest, r) && AdoptedWell(e, f, depth, lv, vs[k], rest, r, c)
    ensures RowWell(d, f, depth, lv, vs, s, rs + [r], c, k + 1)
  {
    hide Consistent, Ranked, Snug, Attached, ShapedAll, AttachedAll, Shaped, NoDup;
    var n := |RenderAll(vs[..k])|;
    var rest := Skip(s, n);
    assert Hangs(d, depth, Owned(r), Nodes(r), lv);
    hide Below, Hangs, Level;
    SlotApart(d, depth, lv, s, n, rs, r);
    RowHangs(d, depth, rs, r, lv);
    SlotSnug(d, e, depth, lv, OwnedAll(rs), NodesAll(rs), rest, vs[k]);
    assert forall m :: m in OwnedAll(rs) ==> m in e.labels by { HangsLabels(d, depth, OwnedAll(rs), NodesAll(rs), lv); }
    SlotUnpainted(e, f, rs, r, c);
    AllOneMore(f, rs, r, c, vs);
  }

  lemma {:induction false} SlotAdoptable(d: Doc, e: Doc, vs: seq<VNode>, s: seq<Id>, k: nat)
    requires k < |vs| && SameShape(d, e)
    ensures AdoptableUpTo(d, vs, s, k + 1)
            <==> AdoptableUpTo(d, vs, s, k) && Adoptable(e, vs[k], Skip(s, |RenderAll(vs[..k])|))
  {
    AdoptableFrame(d, e, vs[k], Skip(s, |RenderAll(vs[..k])|));
  }

  lemma {:induction false} SkipStep(d: Doc, vs: seq<VNode>, s: seq<Id>, k: nat)
    requires k < |vs| && AdoptableUpTo(d, vs, s, k + 1)
    ensures Skip(Skip(s, |RenderAll(vs[..k])|), |Render(vs[k])|) == Skip(s, |RenderAll(vs[..k + 1])|)
  {
    AdoptableUpToFits(d, vs, s, k + 1);
    RenderAllStep(vs, k + 1);
  }

  lemma {:induction false} FoundAt(d: Doc, c: Id, n: Id) returns (at: nat)
    requires Consistent(d) && n in d.parent && d.parent[n] == c
    ensures c in d.kids && at < |d.kids[c]| && d.kids[c][at] == n
    ensures d.kids[c] == d.kids[c][..at] + d.kids[c][at..]
  {
    assert n in d.kids[c];
    at :| 0 <= at < |d.kids[c]| && d.kids[c][at] == n;
  }

  lemma {:induction false} MadeNew(d: Doc, e: Doc, r: Instance, v: VNode, c: Id)
    requires Built(d, e, r, v, c) && Waiting(d, e, r, v, c) && (v.Text? || v.Host?)
    ensures Consistent(e) && c in e.labels && Grown(d, e) && e.next > d.next && e.kids[c] == d.kids[c]
  {
    assert r.dom in Owned(r);
    assert d.kids[c] + [] == d.kids[c];
  }

  /** The new nodes stand ahead of `n`; once it goes they stand in its place. */
  lemma {:induction false} TakesPlace(kids: seq<Id>, at: nat, ns: seq<Id>, now: seq<Id>)
    requires NoDup(kids) && at < |kids| && NoDup(now) && now == kids[..at] + ns + kids[at..]
    ensures Minus(now, {kids[at]}) == InPlaceOf(kids, Some(kids[at]), ns)
  {
    var a, n, b := kids[..at], kids[at], kids[at + 1..];
    assert kids == a + [n] + b && now == a + ns + [n] + b;
    CutOut(a + ns, [n], b);
    assert SetOf([n]) == {n};
    assert n !in a;
    InPlaceAt(a, n, b, ns);
  }

  /** The fallback for a node that does not line up: a clean mount in its place, or at the end. */
  method MountReplace(client: Client, v: VNode, c: Id, existing: Option<Id>) returns (r: Instance)
    requires Consistent(client.dom) && c in client.dom.labels &&
             (existing.Some? ==> existing.value in client.dom.labels)
    requires v.Text? || v.Host?
    modifies client
    ensures Consistent(client.dom) && Grown(old(client.dom), client.dom) && client.dom.next > old(client.dom.next)
    ensures Built(old(client.dom), client.dom, r, v, c)
    ensures client.dom.kids[c] == InPlaceOf(old(client.dom).kids[c], existing, Nodes(r))
    ensures existing.Some? && existing.value in old(client.dom).kids[c] ==> existing.value !in client.dom.parent
  {
    hide Consistent, Built, Waiting, Movable, Minus, InPlaceOf, Nodes, NoDup;
    ghost var d := client.dom;
    r := client.Instantiate(v, c);
    WaitingMovable(d, client.dom, r, v, c);
    MadeNew(d, client.dom, r, v, c);
    ghost var built := client.dom;
    ChildOf(built, c, existing);
    if existing.Some? && existing.value in client.dom.parent && client.dom.parent[existing.value] == c {
      ghost var kids := client.dom.kids[c];
      ghost var at := FoundAt(client.dom, c, existing.value);
      client.InsertInstance(c, r, existing, kids[..at], kids[at..]);
      ghost var placed := client.dom;
      BuiltFrame(d, built, placed, r, v, c);
      DetachConsistent(placed, existing.value);
      Taken(built, placed, c, existing.value, at, Nodes(r));
      client.dom := Detach(client.dom, existing.value);
      BuiltFrame(d, placed, client.dom, r, v, c);
    } else {
      ghost var kids := client.dom.kids[c];
      assert kids + [] == kids;
      client.InsertInstance(c, r, None, kids, []);
      assert kids + Nodes(r) + [] == kids + Nodes(r);
      BuiltFrame(d, built, client.dom, r, v, c);
      InPlaceLast(kids, existing, Nodes(r));
    }
  }

  lemma {:induction false} ChildOf(d: Doc, c: Id, n: Option<Id>)
    requires Consistent(d) && c in d.kids
    ensures n.Some? && n.value in d.parent && d.parent[n.value] == c <==> n.Some? && n.value in d.kids[c]
  {}

  lemma {:induction false} Taken(d: Doc, e: Doc, c: Id, n: Id, at: nat, ns: seq<Id>)
    requires Consistent(d) && Consistent(e) && c in d.kids && c in e.kids && at < |d.kids[c]| && d.kids[c][at] == n
    requires e.kids[c] == d.kids[c][..at] + ns + d.kids[c][at..]
    ensures Detach(e, n).kids[c] == InPlaceOf(d.kids[c], Some(n), ns)
    ensures OnlyAt(e, Detach(e, n), c) && n !in Detach(e, n).parent
  {
    assert n in e.kids[c] by { assert d.kids[c][at..][0] == n; }
    TakesPlace(d.kids[c], at, ns, e.kids[c]);
  }

  /** The element or text a tree begins with, if it is one. */
  function Head(v: VNode): VNode { if v.Component? then Head(v.rendered) else v }

  /** The tree begins with a node of its own, and the cursor is not on one it can adopt. */
  predicate Misfit(d: Doc, v: VNode, node: Option<Id>) {
    (Head(v).Text? || Head(v).Host?) && (node.None? || !LinesUp(d, Head(v), node.value))
  }

  /** A clean mount in the place of the node, which is detached, or at the end. */
  ghost predicate Replaced(d: Doc, e: Doc, v: VNode, node: Option<Id>, r: Instance, c: Id) {
    && r.vnode == v && Mounted(e, r, c) && c in d.kids && c in e.kids
    && e.kids[c] == InPlaceOf(d.kids[c], node, Nodes(r))
    && (node.Some? && node.value in d.kids[c] ==> node.value !in e.parent)
  }

  /** A tree that renders nothing touches nothing. */
  lemma {:induction false} NothingTouched(d: Doc, e: Doc, v: VNode, s: seq<Id>, r: Instance, depth: map<Id, nat>,
                                          lv: nat,
                                          c: Id)
    requires Hydrated(d, e, v, s, r, depth, lv, c) && Basics(d, e, v, r) && Nodes(r) == []
    ensures e == d
  {
    RenderedCount(d, e, v, r);
    NothingAdoptable(d, v, s);
    OwnsNothing(r);
    hide Hydrated, AdoptedWell, Basics, Adoptable;
    assert Adopted(d, e, v, s, r) by { HydratedAdopted(d, e, v, s, r, depth, lv, c); }
    assert forall n :: n in d.labels ==> e.labels[n] == d.labels[n];
    assert e.labels == d.labels;
  }

  lemma {:induction false} HydratedAdopted(d: Doc, e: Doc, v: VNode, s: seq<Id>, r: Instance, depth: map<Id, nat>,
                                           lv: nat,
                                           c: Id)
    requires Hydrated(d, e, v, s, r, depth, lv, c) && Adoptable(d, v, s)
    ensures Adopted(d, e, v, s, r)
  {}

  lemma {:induction false} NothingAdoptable(d: Doc, v: VNode, s: seq<Id>)
    requires Render(v) == []
    ensures Adoptable(d, v, s)
    decreases v, 0
  {
    match v
    case Group(_, cs) =>
      assert cs[..|cs|] == cs;
      NothingAdoptableUpTo(d, cs, s, |cs|);
    case Component(_, r) => NothingAdoptable(d, r, s);
    case _ =>
  }

  lemma {:induction false} NothingAdoptableUpTo(d: Doc, vs: seq<VNode>, s: seq<Id>, k: nat)
    requires k <= |vs| && RenderAll(vs[..k]) == []
    ensures AdoptableUpTo(d, vs, s, k)
    decreases vs, k
  {
    if k > 0 {
      RenderAllStep(vs, k);
      NothingAdoptableUpTo(d, vs, s, k - 1);
      NothingAdoptable(d, vs[k - 1], Skip(s, |RenderAll(vs[..k - 1])|));
    }
  }

  lemma {:induction false} OwnsNothing(r: Instance)
    requires Nodes(r) == []
    ensures Owned(r) == {}
    decreases r
  {
    match r
    case GroupInst(_, _, cs) => OwnsNothingAll(cs);
    case CompInst(_, _, i) => OwnsNothing(i);
    case _ =>
  }

  lemma {:induction false} OwnsNothingAll(cs: seq<Instance>)
    requires NodesAll(cs) == []
    ensures OwnedAll(cs) == {}
    decreases cs
  {
    if cs != [] {
      OwnsNothing(cs[0]);
      OwnsNothingAll(cs[1..]);
    }
  }

  /** Hydrates `vs` against the siblings from `start` on. */
  method HydrateChildren(client: Client, vs: seq<VNode>, c: Id, start: Option<Id>, ghost depth: map<Id, nat>,
                         ghost lv: nat, ghost rank: map<Id, nat>)
    returns (rs: seq<Instance>, ghost rank': map<Id, nat>, ghost last: Option<Id>)
    requires Consistent(client.dom) && c in client.dom.labels && (start.Some? ==> start.value in client.dom.labels)
    modifies client
    ensures Consistent(client.dom)
    ensures HydratedRow(old(client.dom), client.dom, vs, Siblings(old(client.dom), start), rs, depth, lv, c, |vs|)
    ensures SitesRow(old(client.dom), client.dom, vs, start, Siblings(old(client.dom), start), rs, last, rank, rank',
            lv, c,
                     |vs|)
    decreases vs
  {
    hide *;
    rs := [];
    var cursor := start;
    rank' := rank;
    ghost var d := client.dom;
    ghost var s := Siblings(d, start);
    RowStarts(d, vs, s, depth, lv, c);
    RowBegins(d, vs, start, s, rank, lv, c);
    SiblingsFacts(d, start);
    for k := 0 to |vs|
      invariant Consistent(client.dom) && c in client.dom.labels && (cursor.Some? ==> cursor.value in client.dom.labels)
      invariant HydratedRow(d, client.dom, vs, s, rs, depth, lv, c, k)
      invariant AdoptableUpTo(d, vs, s, k) ==> Siblings(client.dom, cursor) == Skip(s, |RenderAll(vs[..k])|)
      invariant SitesRow(d, client.dom, vs, start, s, rs, cursor, rank, rank', lv, c, k)
    {
      ghost var e := client.dom;
      ghost var from, mid := cursor, rank';
      var r;
      r, rank' := HydrateInstance(client, cursor, vs[k], c, depth, lv, rank');
      HydratedGrown(e, client.dom, vs[k], Siblings(e, from), r, depth, lv, c);
      var consumed := CollectInstanceNodes(r, []);
      assert [] + Nodes(r) == Nodes(r);
      cursor := Advance(client.dom, cursor, |consumed|);
      HydrateStep(d, e, client.dom, depth, lv, vs, s, rs, r, c, k, from, cursor);
      SitesHas(e, client.dom, vs[k], from, Siblings(e, from), r, mid, rank', lv, c);
      if Nodes(r) == [] {
        NothingTouched(e, client.dom, vs[k], Siblings(e, from), r, depth, lv, c);
      }
      ConsistentKeys(e);
      RowGoesOn(d, e, client.dom, vs, start, s, rs, r, from, cursor, [rank, mid, rank'], lv, c, k);
      rs := rs + [r];
    }
    last := cursor;
  }

  lemma {:induction false} RowStarts(d: Doc, vs: seq<VNode>, s: seq<Id>, depth: map<Id, nat>, lv: nat, c: Id)
    ensures HydratedRow(d, d, vs, s, [], depth, lv, c, 0) && Skip(s, |RenderAll(vs[..0])|) == s
  {}

  lemma {:induction false} HydratedGrown(d: Doc, e: Doc, v: VNode, s: seq<Id>, r: Instance, depth: map<Id, nat>,
                                         lv: nat, c: Id)
    requires Hydrated(d, e, v, s, r, depth, lv, c)
    ensures d.labels.Keys <= e.labels.Keys
  {}

  lemma {:induction false} HydrateStep(d: Doc, e: Doc, f: Doc, depth: map<Id, nat>, lv: nat, vs: seq<VNode>, s: seq<Id>,
                                       rs: seq<Instance>, r: Instance, c: Id, k: nat, from: Option<Id>,
                                       cursor: Option<Id>)
    requires k < |vs| && Consistent(d) && Consistent(e) && Consistent(f) && NoDup(s)
    requires HydratedRow(d, e, vs, s, rs, depth, lv, c, k)
    requires AdoptableUpTo(d, vs, s, k) ==> Siblings(e, from) == Skip(s, |RenderAll(vs[..k])|)
    requires Hydrated(e, f, vs[k], Siblings(e, from), r, depth, lv, c)
    requires Siblings(f, cursor) == Skip(Siblings(f, from), |Nodes(r)|)
    ensures HydratedRow(d, f, vs, s, rs + [r], depth, lv, c, k + 1)
    ensures AdoptableUpTo(d, vs, s, k + 1) ==> Siblings(f, cursor) == Skip(s, |RenderAll(vs[..k + 1])|)
  {
    hide Consistent, AdoptedWell, RowWell, Level, AdoptableUpTo, Adoptable, NoDup, Nodes, Render, RenderAll;
    if !AdoptableUpTo(d, vs, s, k) {
      NotUpTo(d, vs, s, k);
    } else {
      SlotAdoptable(d, e, vs, s, k);
      if AdoptableUpTo(d, vs, s, k + 1) {
        RowAdoptedStep(d, e, f, vs, s, rs, r, k);
        SkipStep(d, vs, s, k);
        NodesRendered(r);
        if Ranked(d, depth) && Level(depth, s, lv) {
          LevelSkip(depth, s, |RenderAll(vs[..k])|, lv);
          RowWellStep(d, e, f, depth, lv, vs, s, rs, r, c, k);
        }
      }
    }
  }

  lemma {:induction false} NotUpTo(d: Doc, vs: seq<VNode>, s: seq<Id>, k: nat)
    requires k < |vs| && !AdoptableUpTo(d, vs, s, k)
    ensures !AdoptableUpTo(d, vs, s, k + 1)
  {}

  lemma {:induction false} LevelSkip(depth: map<Id, nat>, s: seq<Id>, n: nat, lv: nat)
    requires Level(depth, s, lv)
    ensures Level(depth, Skip(s, n), lv)
  {}

  lemma {:induction false} TextHydrated(d: Doc, v: VNode, s: seq<Id>, depth: map<Id, nat>, lv: nat, c: Id)
    requires Consistent(d) && v.Text? && s != [] && s[0] in d.labels && d.labels[s[0]].TextNode?
    ensures var e := d.(labels := d.labels[s[0] := TextNode(v.text)]);
            Consistent(e) && Hydrated(d, e, v, s, TextInst(v, s[0]), depth, lv, c)
  {}

  lemma {:induction false} GroupHydrated(d: Doc, e: Doc, v: VNode, s: seq<Id>, rs: seq<Instance>, depth: map<Id, nat>,
                                         lv: nat, c: Id)
    requires v.Group? && HydratedRow(d, e, v.children, s, rs, depth, lv, c, |v.children|)
    ensures Hydrated(d, e, v, s, GroupInst(v, c, rs), depth, lv, c)
  {
    assert v.children[..|v.children|] == v.children;
    hide Ranked, Level, Hangs, Snug, SameShape;
  }

  lemma {:induction false} EmptyHydrated(d: Doc, s: seq<Id>, depth: map<Id, nat>, lv: nat, c: Id)
    ensures Hydrated(d, d, Empty, s, GroupInst(Empty, c, []), depth, lv, c)
  {}

  lemma {:induction false} ComponentHydrated(d: Doc, e: Doc, v: VNode, s: seq<Id>, r: Instance, depth: map<Id, nat>,
                                             lv: nat, c: Id)
    requires v.Component? && Hydrated(d, e, v.rendered, s, r, depth, lv, c)
    ensures Hydrated(d, e, v, s, CompInst(v, c, r), depth, lv, c)
  {
    hide Ranked, Level, Hangs, SameShape;
  }

  lemma {:induction false} PropsCovered(attrs: Props, props: Props)
    ensures attrs + props == props <==> attrs.Keys <= props.Keys
  {
    assert (attrs + props).Keys == attrs.Keys + props.Keys;
  }

  /** Painting a node's own label is invisible from its children on. */
  lemma {:induction false} OwnLabel(d: Doc, e: Doc, n: Id, l: Label, vs: seq<VNode>, depth: map<Id, nat>, lv: nat)
    requires Consistent(d) && Ranked(d, depth) && Branch(d, n) && n in depth && depth[n] == lv
    requires e == d.(labels := d.labels[n := l]) && SameShape(d, e)
    ensures Level(depth, d.kids[n], lv + 1)
    ensures SnugUpTo(d, vs, d.kids[n], |vs|) <==> SnugUpTo(e, vs, d.kids[n], |vs|)
  {
    forall m | m in d.labels && Below(d, depth, m, d.kids[n], lv + 1) ensures e.labels[m] == d.labels[m] {
      BelowParent(d, depth, m, n, lv);
    }
    SnugUpToFrame(d, e, depth, vs, d.kids[n], lv + 1, |vs|);
  }

  lemma {:induction false} HostAttach(f: Doc, v: VNode, n: Id, attrs: Props, rs: seq<Instance>, c: Id)
    requires v.Host? && n in f.labels && n in f.kids && f.labels[n] == Element(v.tag, attrs + v.props)
    requires |RenderAll(v.children)| <= |f.kids[n]| && NodesAll(rs) == f.kids[n][..|RenderAll(v.children)|]
    ensures Attached(f, HostInst(v, n, rs), c)
            <==> attrs.Keys <= v.props.Keys && |f.kids[n]| == |RenderAll(v.children)| && AttachedAll(f, rs, n)
  {
    PropsCovered(attrs, v.props);
    hide NodesAll, RenderAll;
  }

  lemma {:induction false} HostWell(d: Doc, e: Doc, f: Doc, v: VNode, s: seq<Id>, rs: seq<Instance>,
                                    depth: map<Id, nat>, lv: nat, c: Id)
    requires Consistent(d) && v.Host? && s != [] && s[0] in d.labels && d.labels[s[0]].Element? &&
             d.labels[s[0]].tag == v.tag
    requires e == d.(labels := d.labels[s[0] := Element(v.tag, d.labels[s[0]].props + v.props)]) && SameShape(d, e)
    requires RowAdopted(e, f, v.children, d.kids[s[0]], rs, |v.children|) && Ranked(d, depth) && Level(depth, s, lv)
    requires RowWell(e, f, depth, lv + 1, v.children, d.kids[s[0]], rs, s[0], |v.children|)
    ensures AdoptedWell(d, f, depth, lv, v, s, HostInst(v, s[0], rs), c)
  {
    var n, vs := s[0], v.children;
    assert n in s && depth[n] == lv;
    assert vs[..|vs|] == vs;
    hide Snug, Attached, AttachedAll, Below, NoDup, OwnedAll, ShapedAll, Matches;
    OwnLabel(d, e, n, e.labels[n], vs, depth, lv);
    HostHangs(d, e, n, rs, depth, lv);
    hide Consistent, Ranked, Hangs, Level, SnugUpTo;
    HostAttach(f, v, n, d.labels[n].props, rs, c);
    HostSnug(d, v, s);
  }

  lemma {:induction false} HostSnug(d: Doc, v: VNode, s: seq<Id>)
    requires v.Host? && s != [] && s[0] in d.labels && s[0] in d.kids && d.labels[s[0]].Element?
    ensures Snug(d, v, s) <==> d.labels[s[0]].props.Keys <= v.props.Keys && |d.kids[s[0]]| == |RenderAll(v.children)|
                               && SnugUpTo(d, v.children, d.kids[s[0]], |v.children|)
  {
    hide SnugUpTo, RenderAll;
  }

  lemma {:induction false} HostHangs(d: Doc, e: Doc, n: Id, rs: seq<Instance>, depth: map<Id, nat>, lv: nat)
    requires Consistent(d) && SameShape(d, e) && Ranked(d, depth) && Branch(d, n) && n in depth && depth[n] == lv
    requires NodesAll(rs) <= d.kids[n] && Hangs(e, depth, OwnedAll(rs), NodesAll(rs), lv + 1)
    ensures n !in OwnedAll(rs) && Hangs(d, depth, {n} + OwnedAll(rs), [n], lv)
  {
    HangsWithin(d, depth, OwnedAll(rs), NodesAll(rs), d.kids[n], lv + 1);
    HangsBelow(d, depth, OwnedAll(rs), n, lv);
    assert {n} + OwnedAll(rs) == OwnedAll(rs) + {n};
  }

  lemma {:induction false} HostAdopted(d: Doc, e: Doc, f: Doc, v: VNode, s: seq<Id>, rs: seq<Instance>)
    requires Consistent(d) && v.Host? && s != [] && s[0] in d.labels && d.labels[s[0]].Element? &&
             d.labels[s[0]].tag == v.tag
    requires e == d.(labels := d.labels[s[0] := Element(v.tag, d.labels[s[0]].props + v.props)]) && SameShape(d, e)
    requires RowAdopted(e, f, v.children, d.kids[s[0]], rs, |v.children|)
    ensures Adopted(d, f, v, s, HostInst(v, s[0], rs))
  {
    assert v.children[..|v.children|] == v.children;
    assert s[..1] == [s[0]];
  }

  lemma {:induction false} HostHydrated(d: Doc, e: Doc, f: Doc, v: VNode, s: seq<Id>, rs: seq<Instance>,
                                        depth: map<Id, nat>, lv: nat, c: Id)
    requires Consistent(d) && v.Host? && s != [] && s[0] in d.labels && d.labels[s[0]].Element? &&
             d.labels[s[0]].tag == v.tag
    requires e == d.(labels := d.labels[s[0] := Element(v.tag, d.labels[s[0]].props + v.props)])
    requires HydratedRow(e, f, v.children, e.kids[s[0]], rs, depth, lv + 1, s[0], |v.children|)
    ensures Hydrated(d, f, v, s, HostInst(v, s[0], rs), depth, lv, c)
  {
    var n, vs := s[0], v.children;
    assert SameShape(d, e);
    AdoptableUpToFrame(d, e, vs, d.kids[n], |vs|);
    hide SameShape, Consistent, Adopted, AdoptedWell, RowAdopted, RowWell;
    if AdoptableUpTo(d, vs, d.kids[n], |vs|) {
      HostAdopted(d, e, f, v, s, rs);
      if Ranked(d, depth) && Level(depth, s, lv) {
        assert n in s && depth[n] == lv && Ranked(e, depth);
        OwnLabel(d, e, n, e.labels[n], vs, depth, lv);
        HostWell(d, e, f, v, s, rs, depth, lv, c);
      }
    }
  }

  lemma {:induction false} MisfitSites(d: Doc, e: Doc, v: VNode, node: Option<Id>, s: seq<Id>, r: Instance,
                                       rank: map<Id, nat>, lv: nat, c: Id)
    requires Consistent(d) && (v.Text? || v.Host?) && s == Siblings(d, node) && (node.Some? ==> node.value in d.labels)
    requires Misfit(d, v, node) && Built(d, e, r, v, c) && e.kids[c] == InPlaceOf(d.kids[c], node, Nodes(r))
    requires node.Some? && node.value in d.kids[c] ==> node.value !in e.parent
    ensures Sites(d, e, v, node, s, r, rank, rank + Depths(r, lv), lv, c) && Replaced(d, e, v, node, r, c)
  {
    ReplaceSites(d, e, v, node, s, r, rank, lv, c);
  }

  lemma {:induction false} ComponentReplaced(d: Doc, e: Doc, v: VNode, node: Option<Id>, r: Instance, c: Id)
    requires v.Component?
    ensures Misfit(d, v, node) == Misfit(d, v.rendered, node)
    ensures Replaced(d, e, v.rendered, node, r, c) ==> Replaced(d, e, v, node, CompInst(v, c, r), c)
  {}

  /** Which node is no misfit, by kind. */
  lemma {:induction false} FitsIs(d: Doc, v: VNode, node: Option<Id>)
    requires Consistent(d) && (node.Some? ==> node.value in d.labels)
    ensures v.Text? ==> (Misfit(d, v, node) <==> !(node.Some? && d.labels[node.value].TextNode?))
    ensures v.Host? ==> (Misfit(d, v, node) <==>
                           node.None? || !d.labels[node.value].Element? || d.labels[node.value].tag != v.tag)
    ensures v.Group? || v.Empty? ==> !Misfit(d, v, node)
    ensures node.Some? && (v.Text? || v.Host?) && !Misfit(d, v, node) ==> LinesUp(d, v, node.value)
  {}

  lemma {:induction false} MisfitHydrated(d: Doc, e: Doc, v: VNode, node: Option<Id>, s: seq<Id>, r: Instance,
                                          depth: map<Id, nat>, lv: nat, c: Id)
    requires Consistent(d) && (v.Text? || v.Host?) && s == Siblings(d, node) && (node.Some? ==> node.value in d.labels)
    requires Misfit(d, v, node) && Grown(d, e) && e.next > d.next
    ensures Hydrated(d, e, v, s, r, depth, lv, c)
  {
    SiblingsFacts(d, node);
    hide Adopted, AdoptedWell, Siblings, Ranked, Level, AdoptableUpTo;
  }

  lemma {:induction false} RepaintedIs(d: Doc, e: Doc, n: Id, v: VNode)
    requires Consistent(d) && v.Host? && n in d.labels && d.labels[n].Element? && d.labels[n].tag == v.tag
    requires e == d.(labels := d.labels[n := Element(v.tag, d.labels[n].props + v.props)])
    ensures Repainted(d, e, n, v) && Consistent(e) && n in e.labels
  {}

  /** The server node at the cursor is adopted when it lines up; otherwise a mount replaces it. */
  method HydrateInstance(client: Client, node: Option<Id>, v: VNode, c: Id, ghost depth: map<Id, nat>, ghost lv: nat,
                         ghost rank: map<Id, nat>)
    returns (r: Instance, ghost rank': map<Id, nat>)
    requires Consistent(client.dom) && c in client.dom.labels && (node.Some? ==> node.value in client.dom.labels)
    modifies client
    ensures Consistent(client.dom)
    ensures Hydrated(old(client.dom), client.dom, v, Siblings(old(client.dom), node), r, depth, lv, c)
    ensures Sites(old(client.dom), client.dom, v, node, Siblings(old(client.dom), node), r, rank, rank', lv, c)
    ensures Misfit(old(client.dom), v, node) ==> Replaced(old(client.dom), client.dom, v, node, r, c)
    decreases v
  {
    ghost var d := client.dom;
    ghost var s := Siblings(d, node);
    SiblingsFacts(d, node);
    FitsIs(d, v, node);
    hide *;
    rank' := rank;
    match v
    case Text(t) =>
      if node.Some? && client.dom.labels[node.value].TextNode? {
        client.dom := client.dom.(labels := client.dom.labels[node.value := TextNode(t)]);
        r := TextInst(v, node.value);
        TextHydrated(d, v, s, depth, lv, c);
        TextSites(d, v, node, s, rank, lv, c);
      } else {
        r := MountReplace(client, v, c, node);
        rank' := rank + Depths(r, lv);
        MisfitHydrated(d, client.dom, v, node, s, r, depth, lv, c);
        MisfitSites(d, client.dom, v, node, s, r, rank, lv, c);
      }
    case Group(_, vs) =>
      var rs;
      ghost var last;
      rs, rank', last := HydrateChildren(client, vs, c, node, depth, lv, rank);
      r := GroupInst(v, c, rs);
      GroupHydrated(d, client.dom, v, s, rs, depth, lv, c);
      GroupSites(d, client.dom, v, node, s, rs, last, rank, rank', lv, c);
    case Empty =>
      r := GroupInst(v, c, []);
      EmptyHydrated(d, s, depth, lv, c);
      EmptySites(d, node, s, rank, lv, c);
    case Component(_, rendered) =>
      var inner;
      inner, rank' := HydrateInstance(client, node, rendered, c, depth, lv, rank);
      r := CompInst(v, c, inner);
      ComponentHydrated(d, client.dom, v, s, inner, depth, lv, c);
      ComponentSites(d, client.dom, v, node, s, inner, rank, rank', lv, c);
      ComponentReplaced(d, client.dom, v, node, inner, c);
    case Host(tag, props, vs) =>
      if node.None? || !client.dom.labels[node.value].Element? || client.dom.labels[node.value].tag != tag {
        r := MountReplace(client, v, c, node);
        rank' := rank + Depths(r, lv);
        MisfitHydrated(d, client.dom, v, node, s, r, depth, lv, c);
        MisfitSites(d, client.dom, v, node, s, r, rank, lv, c);
      } else {
        var n := node.value;
        var painted := UpdatedProps(client.dom.labels[n].props, map[], props);
        client.dom := client.dom.(labels := client.dom.labels[n := Element(tag, painted)]);
        ghost var e := client.dom;
        RepaintedIs(d, e, n, v);
        FirstSiblings(e, n);
        var rs;
        ghost var last;
        rs, rank', last := HydrateChildren(client, vs, n, First(client.dom, n), depth, lv + 1, rank);
        r := HostInst(v, n, rs);
        HostHydrated(d, e, client.dom, v, s, rs, depth, lv, c);
        HostSites(d, e, client.dom, v, node, s, rs, last, rank, rank', lv, c);
      }
  }

  /** Nothing moved, and the instance meets every demand of a later reconcile. */
  ghost predicate Ready(d: Doc, e: Doc, v: VNode, r: Instance, c: Id) {
    && e.kids == d.kids && e.parent == d.parent && r.vnode == v
    && Mounted(e, r, c) && Apart(r) && c !in Owned(r)
    && c in e.kids && e.kids[c] == [] + Nodes(r) + Skip(e.kids[c], |Render(v)|)
    && ShowsAll(e, Nodes(r), Render(v))
  }

  lemma {:induction false} HydratedFacts(d: Doc, e: Doc, v: VNode, r: Instance, depth: map<Id, nat>, c: Id)
    requires Consistent(d) && Ranked(d, depth) && Branch(d, c) && c in depth
    requires Hydrated(d, e, v, d.kids[c], r, depth, depth[c] + 1, c) && Adoptable(d, v, d.kids[c])
    ensures e.kids == d.kids && e.parent == d.parent && Ranked(e, depth) && Shaped(r) && Branch(e, c)
    ensures Attached(e, r, c) <==> Snug(d, v, d.kids[c])
    ensures r.vnode == v && |Render(v)| <= |d.kids[c]| && Nodes(r) == d.kids[c][..|Render(v)|]
  {
    LevelKids(d, c, depth);
    hide Adoptable, Snug, Attached, Hangs, Shaped, Level, Consistent, Nodes, Render, Owned;
    assert Adopted(d, e, v, d.kids[c], r) && AdoptedWell(d, e, depth, depth[c] + 1, v, d.kids[c], r, c);
    hide AdoptedWell, Hydrated;
    AdoptedShape(d, e, v, d.kids[c], r, depth, c);
  }

  lemma {:induction false} AdoptedShape(d: Doc, e: Doc, v: VNode, s: seq<Id>, r: Instance, depth: map<Id, nat>, c: Id)
    requires Adopted(d, e, v, s, r) && Ranked(d, depth) && Branch(d, c)
    ensures e.kids == d.kids && e.parent == d.parent && Ranked(e, depth) && Branch(e, c)
  {
    hide Shaped, Nodes, Render, Owned;
  }

  lemma {:induction false} KidsSplit(kids: seq<Id>, n: nat)
    requires n <= |kids|
    ensures kids == [] + kids[..n] + Skip(kids, n)
  {}

  /** Nothing is made exactly when the tree lines up, and then the instance is ready for later updates
      exactly when no element holds more than the tree mentions. */
  ghost predicate Adopts(d: Doc, e: Doc, v: VNode, r: Instance, c: Id)
    requires c in d.kids
  {
    && (e.next == d.next <==> Adoptable(d, v, d.kids[c]))
    && (Adoptable(d, v, d.kids[c]) ==> (Ready(d, e, v, r, c) <==> Snug(d, v, d.kids[c])))
  }

  lemma {:induction false} HydratedLaw(d: Doc, e: Doc, v: VNode, r: Instance, depth: map<Id, nat>, c: Id)
    requires Consistent(d) && Consistent(e) && Ranked(d, depth) && Branch(d, c) && c in depth
    requires Hydrated(d, e, v, d.kids[c], r, depth, depth[c] + 1, c)
    ensures Adopts(d, e, v, r, c)
  {
    if Adoptable(d, v, d.kids[c]) {
      HydratedFacts(d, e, v, r, depth, c);
      KidsSplit(d.kids[c], |Render(v)|);
      hide Hydrated, Ranked, Adoptable, Snug, Apart, Owned, Attached, Shaped, Consistent, ShowsAll, NoDup, Nodes;
      if Snug(d, v, d.kids[c]) {
        AdoptedReady(e, depth, r, c, [], Skip(d.kids[c], |Render(v)|));
      }
    }
  }

  /** What a hydration leaves, adopted or not. Every container holds the nodes of its row in order if and
      only if the tree is smooth over the server markup. It then takes over the first nodes of the
      container in place, the ones it did not reach stand behind them, and its other nodes come last; every
      node shows its text, or has its tag and attributes. No server node is left exactly when it reached all. */
  ghost predicate Leaves(d: Doc, e: Doc, v: VNode, r: Instance, c: Id)
    requires c in d.kids
  {
    var s, x := d.kids[c], Layout(d, v, d.kids[c]);
    && (InPlace(e, r, c) <==> Smooth(d, v, s))
    && (Smooth(d, v, s) ==>
          && Dressed(e, r) && |Nodes(r)| == x.taken + x.extra && c in e.kids
          && e.kids[c] == Nodes(r)[..x.taken] + s[x.taken..] + Nodes(r)[x.taken..])
    && (InPlace(e, r, c) && e.kids[c] == Nodes(r) <==> Smooth(d, v, s) && x.taken == |s|)
  }

  lemma {:induction false} HydratedLeaves(d: Doc, e: Doc, v: VNode, r: Instance, rank: map<Id, nat>,
                                          rank': map<Id, nat>,
                                          lv: nat, c: Id)
    requires c in d.kids && Rooted(d, rank, c, lv, First(d, c)) &&
             Sites(d, e, v, First(d, c), d.kids[c], r, rank, rank', lv, c)
    ensures Leaves(d, e, v, r, c)
  {
    hide *;
    var s := d.kids[c];
    SitesHas(d, e, v, First(d, c), s, r, rank, rank', lv, c);
    if Smooth(d, v, s) {
      var x := SettledParts(d, e, v, s, r, rank, rank', lv, c);
      LaidFront(d, e, c, s, Nodes(r), x.taken);
      LaidOrder(d, e, c, s, Nodes(r), x.taken);
      LaidWhole(d, e, c, s, Nodes(r), x);
      InPlaceIs(e, r, c);
    }
    LeavesIs(d, e, v, r, c);
  }

  lemma {:induction false} LaidWhole(d: Doc, e: Doc, c: Id, s: seq<Id>, ns: seq<Id>, x: Lay)
    requires c in d.kids && c in e.kids && s == d.kids[c] && x.taken <= |s| && |ns| == x.taken + x.extra
    requires e.kids[c] == Front(d, c, s) + ns[..x.taken] + s[x.taken..] + ns[x.taken..]
    ensures e.kids[c] == ns[..x.taken] + s[x.taken..] + ns[x.taken..]
    ensures e.kids[c] == ns <==> x.taken == |s|
  {
    assert Front(d, c, s) == [];
    assert [] + ns[..x.taken] + s[x.taken..] + ns[x.taken..] == ns[..x.taken] + s[x.taken..] + ns[x.taken..];
    assert ns == ns[..x.taken] + ns[x.taken..];
    if x.taken == |s| {
      assert ns[..x.taken] + [] + ns[x.taken..] == ns;
    } else {
      assert |e.kids[c]| > |ns|;
    }
  }

  lemma {:induction false} InPlaceIs(e: Doc, r: Instance, c: Id)
    requires c in e.kids && InOrder(e.kids[c], Nodes(r)) && Seated(e, r)
    ensures InPlace(e, r, c)
  {}

  lemma {:induction false} LeavesIs(d: Doc, e: Doc, v: VNode, r: Instance, c: Id)
    requires c in d.kids && (InPlace(e, r, c) <==> Smooth(d, v, d.kids[c]))
    requires Smooth(d, v, d.kids[c]) ==>
               var s, x := d.kids[c], Layout(d, v, d.kids[c]);
               && Dressed(e, r) && |Nodes(r)| == x.taken + x.extra && c in e.kids
               && e.kids[c] == Nodes(r)[..x.taken] + s[x.taken..] + Nodes(r)[x.taken..]
               && (e.kids[c] == Nodes(r) <==> x.taken == |s|)
    ensures Leaves(d, e, v, r, c)
  {
    hide InOrder, Seated, Smooth, Layout, Dressed, Nodes;
  }

  function Known(d: Doc, depth: map<Id, nat>): map<Id, nat> { map n | n in depth && n in d.labels :: depth[n] }

  lemma {:induction false} KnownRooted(d: Doc, depth: map<Id, nat>, c: Id)
    requires Consistent(d) && Branch(d, c) && c in depth && Ranked(d, depth)
    ensures Rooted(d, Known(d, depth), c, depth[c] + 1, First(d, c))
  {
    assert forall p, n :: p in d.kids && n in d.kids[p] ==> n in d.labels;
  }

  /** Server markup that lines up is adopted whole; the rest falls back to mounts. */
  method Hydrate(client: Client, v: VNode, container: Id, ghost depth: map<Id, nat>) returns (r: Instance)
    requires Consistent(client.dom) && Branch(client.dom, container) && container in depth && Ranked(client.dom, depth)
    modifies client
    ensures Consistent(client.dom) && Adopts(old(client.dom), client.dom, v, r, container)
    ensures Leaves(old(client.dom), client.dom, v, r, container)
  {
    hide *;
    ghost var d := client.dom;
    BranchIn(d, container);
    FirstSiblings(d, container);
    KnownRooted(d, depth, container);
    var node := First(client.dom, container);
    ghost var rank, rank', lv := Known(d, depth), Known(d, depth), depth[container] + 1;
    r, rank' := HydrateInstance(client, node, v, container, depth, lv, rank);
    HydratedLaw(d, client.dom, v, r, depth, container);
    HydratedLeaves(d, client.dom, v, r, rank, rank', lv, container);
  }
}
