/** Virtual nodes, the instances mounted from them, and what both say about the document.

    A component is a pure render: a `Component` node carries the tree its body returned, so a
    re-render with new state is a node of the same component with another `rendered` tree. */
module VTree {
  import opened Prelude
  import opened Dom

  datatype GroupType = FragmentType | ProviderType(context: nat)

  datatype VNode =
    | Text(text: string)
    | Empty
    | Group(gtype: GroupType, children: seq<VNode>)
    | Component(component: nat, rendered: VNode)
    | Host(tag: string, props: Props, children: seq<VNode>)

  datatype Instance =
    | TextInst(vnode: VNode, dom: Id)
    | GroupInst(vnode: VNode, parentDom: Id, childInstances: seq<Instance>)
    | CompInst(vnode: VNode, parentDom: Id, renderedInstance: Instance)
    | HostInst(vnode: VNode, dom: Id, childInstances: seq<Instance>)

  /** `a.type === b.type`. */
  predicate SameType(a: VNode, b: VNode) {
    match a
    case Text(_) => b.Text?
    case Empty => b.Empty?
    case Group(g, _) => b.Group? && b.gtype == g
    case Component(c, _) => b.Component? && b.component == c
    case Host(t, _, _) => b.Host? && b.tag == t
  }

  // ---- What a fresh mount paints -------------------------------------------------------

  datatype Markup = TextMark(text: string) | ElementMark(tag: string, props: Props, kids: seq<Markup>)

  function Render(v: VNode): seq<Markup> {
    match v
    case Text(t) => [TextMark(t)]
    case Empty => []
    case Group(_, cs) => RenderAll(cs)
    case Component(_, r) => Render(r)
    case Host(t, p, cs) => [ElementMark(t, p, RenderAll(cs))]
  }

  function RenderAll(vs: seq<VNode>): seq<Markup> {
    if vs == [] then [] else Render(vs[0]) + RenderAll(vs[1..])
  }

  /** The subtree at node `n` is exactly the markup `m`. */
  ghost predicate Shows(d: Doc, n: Id, m: Markup)
    decreases m
  {
    && n in d.labels && n in d.kids
    && match m
       case TextMark(t) => d.labels[n] == TextNode(t)
       case ElementMark(t, p, ms) => d.labels[n] == Element(t, p) && ShowsAll(d, d.kids[n], ms)
  }

  ghost predicate ShowsAll(d: Doc, ns: seq<Id>, ms: seq<Markup>)
    decreases ms
  {
    |ns| == |ms| && forall k :: 0 <= k < |ms| ==> Shows(d, ns[k], ms[k])
  }

  // ---- Which nodes an instance stands for ------------------------------------------------

  /** The nodes an instance occupies in its container, in order. */
  function Nodes(i: Instance): seq<Id> {
    match i
    case TextInst(_, n) => [n]
    case GroupInst(_, _, cs) => NodesAll(cs)
    case CompInst(_, _, r) => Nodes(r)
    case HostInst(_, n, _) => [n]
  }

  function NodesAll(cs: seq<Instance>): seq<Id> {
    if cs == [] then [] else Nodes(cs[0]) + NodesAll(cs[1..])
  }

  /** Every node of the instance tree, at any depth. */
  ghost function Owned(i: Instance): set<Id> {
    match i
    case TextInst(_, n) => {n}
    case GroupInst(_, _, cs) => OwnedAll(cs)
    case CompInst(_, _, r) => Owned(r)
    case HostInst(_, n, cs) => {n} + OwnedAll(cs)
  }

  ghost function OwnedAll(cs: seq<Instance>): set<Id> {
    if cs == [] then {} else Owned(cs[0]) + OwnedAll(cs[1..])
  }

  /** No node is owned twice. */
  ghost predicate Apart(i: Instance) {
    match i
    case TextInst(_, _) => true
    case GroupInst(_, _, cs) => ApartAll(cs)
    case CompInst(_, _, r) => Apart(r)
    case HostInst(_, n, cs) => n !in OwnedAll(cs) && ApartAll(cs)
  }

  ghost predicate ApartAll(cs: seq<Instance>) {
    cs == [] || (Apart(cs[0]) && Owned(cs[0]) !! OwnedAll(cs[1..]) && ApartAll(cs[1..]))
  }

  /** The instance tree has the shape of the virtual tree it was made from. */
  ghost predicate Shaped(i: Instance) {
    match i
    case TextInst(v, _) => v.Text?
    case GroupInst(v, _, cs) =>
      if v.Group? then Matches(cs, v.children) && (forall k | 0 <= k < |cs| :: Shaped(cs[k])) else v.Empty? && cs == []
    case CompInst(v, _, r) => v.Component? && r.vnode == v.rendered && Shaped(r)
    case HostInst(v, _, cs) => v.Host? && Matches(cs, v.children) && (forall k | 0 <= k < |cs| :: Shaped(cs[k]))
  }

  ghost predicate Matches(cs: seq<Instance>, vs: seq<VNode>) {
    |cs| == |vs| && forall k :: 0 <= k < |cs| ==> cs[k].vnode == vs[k]
  }

  /** The document holds what the instance tree says: labels, child lists, recorded parents. */
  ghost predicate Attached(d: Doc, i: Instance, c: Id) {
    match i
    case TextInst(v, n) => n in d.labels && n in d.kids && v.Text? && d.labels[n] == TextNode(v.text)
    case GroupInst(_, p, cs) => p == c && forall k | 0 <= k < |cs| :: Attached(d, cs[k], c)
    case CompInst(_, p, r) => p == c && Attached(d, r, c)
    case HostInst(v, n, cs) =>
      && n in d.labels && n in d.kids
      && v.Host? && d.labels[n] == Element(v.tag, v.props)
      && d.kids[n] == NodesAll(cs)
      && forall k | 0 <= k < |cs| :: Attached(d, cs[k], n)
  }

  ghost predicate Mounted(d: Doc, i: Instance, c: Id) {
    Shaped(i) && Attached(d, i, c)
  }

  // ---- Facts about nodes and ownership -----------------------------------------------------

  lemma {:induction false} NodesAllAppend(a: seq<Instance>, b: seq<Instance>)
    ensures NodesAll(a + b) == NodesAll(a) + NodesAll(b)
  {
    if a == [] {
      assert a + b == b;
    } else {
      assert (a + b)[1..] == a[1..] + b;
      NodesAllAppend(a[1..], b);
    }
  }

  lemma {:induction false} OwnedAllAppend(a: seq<Instance>, x: Instance)
    ensures OwnedAll(a + [x]) == OwnedAll(a) + Owned(x)
    ensures ApartAll(a) && Apart(x) && Owned(x) !! OwnedAll(a) ==> ApartAll(a + [x])
  {
    if a == [] {
      assert a + [x] == [x];
      assert [x][1..] == [];
    } else {
      assert (a + [x])[1..] == a[1..] + [x];
      OwnedAllAppend(a[1..], x);
    }
  }

  lemma {:induction false} OwnedAt(cs: seq<Instance>, k: nat)
    requires k < |cs|
    ensures Owned(cs[k]) <= OwnedAll(cs)
    ensures ApartAll(cs) ==> Apart(cs[k]) && forall j :: 0 <= j < |cs| && j != k ==> Owned(cs[j]) !! Owned(cs[k])
    decreases |cs|
  {
    if k > 0 {
      OwnedAt(cs[1..], k - 1);
      if ApartAll(cs) {
        forall j | 0 <= j < |cs| && j != k ensures Owned(cs[j]) !! Owned(cs[k]) {
          if j > 0 {
            assert cs[j] == cs[1..][j - 1];
          }
        }
      }
    } else {
      forall j | 0 < j < |cs| ensures Owned(cs[j]) <= OwnedAll(cs[1..]) {
        OwnedAt(cs[1..], j - 1);
      }
    }
  }

  lemma {:induction false} NodesOwned(i: Instance)
    ensures forall n :: n in Nodes(i) ==> n in Owned(i)
    ensures Apart(i) ==> NoDup(Nodes(i))
    decreases i
  {
    match i
    case TextInst(_, _) =>
    case GroupInst(_, _, cs) => NodesOwnedAll(cs);
    case CompInst(_, _, r) => NodesOwned(r);
    case HostInst(_, _, _) =>
  }

  lemma {:induction false} NodesOwnedAll(cs: seq<Instance>)
    ensures forall n :: n in NodesAll(cs) ==> n in OwnedAll(cs)
    ensures ApartAll(cs) ==> NoDup(NodesAll(cs))
    decreases cs
  {
    if cs != [] {
      NodesOwned(cs[0]);
      NodesOwnedAll(cs[1..]);
      if ApartAll(cs) {
        var a, b := Nodes(cs[0]), NodesAll(cs[1..]);
        forall i, j | 0 <= i < j < |a + b| ensures (a + b)[i] != (a + b)[j] {
          if i < |a| <= j {
            assert a[i] in Owned(cs[0]) && b[j - |a|] in OwnedAll(cs[1..]);
          }
        }
      }
    }
  }

  lemma {:induction false} NodesRendered(i: Instance)
    requires Shaped(i)
    ensures |Nodes(i)| == |Render(i.vnode)|
    decreases i
  {
    match i
    case TextInst(_, _) =>
    case GroupInst(v, _, cs) => if v.Group? { NodesRenderedAll(cs, v.children); }
    case CompInst(_, _, r) => NodesRendered(r);
    case HostInst(_, _, _) =>
  }

  lemma {:induction false} NodesRenderedAll(cs: seq<Instance>, vs: seq<VNode>)
    requires Matches(cs, vs) && forall k :: 0 <= k < |cs| ==> Shaped(cs[k])
    ensures |NodesAll(cs)| == |RenderAll(vs)|
    decreases cs
  {
    if cs != [] {
      NodesRendered(cs[0]);
      NodesRenderedAll(cs[1..], vs[1..]);
    }
  }

  /** A document that agrees on the owned nodes holds the instance tree just as well. */
  lemma {:induction false} AttachedFrame(d: Doc, e: Doc, i: Instance, c: Id)
    requires d.kids.Keys == d.labels.Keys && e.kids.Keys == e.labels.Keys
    requires forall n :: n in Owned(i) ==>
               n in d.labels && n in e.labels && d.labels[n] == e.labels[n] && d.kids[n] == e.kids[n]
    ensures Attached(d, i, c) <==> Attached(e, i, c)
    decreases i
  {
    match i
    case TextInst(_, n) => assert n in Owned(i);
    case GroupInst(_, _, cs) => AttachedFrameAll(d, e, cs, c);
    case CompInst(_, _, r) => AttachedFrame(d, e, r, c);
    case HostInst(_, n, cs) =>
      assert n in Owned(i);
      AttachedFrameAll(d, e, cs, n);
  }

  lemma {:induction false} AttachedFrameAll(d: Doc, e: Doc, cs: seq<Instance>, c: Id)
    requires d.kids.Keys == d.labels.Keys && e.kids.Keys == e.labels.Keys
    requires forall n :: n in OwnedAll(cs) ==>
               n in d.labels && n in e.labels && d.labels[n] == e.labels[n] && d.kids[n] == e.kids[n]
    ensures forall k :: 0 <= k < |cs| ==> (Attached(d, cs[k], c) <==> Attached(e, cs[k], c))
    decreases cs, 0
  {
    forall k | 0 <= k < |cs| ensures Attached(d, cs[k], c) <==> Attached(e, cs[k], c) {
      OwnedAt(cs, k);
      AttachedFrame(d, e, cs[k], c);
    }
  }

  lemma {:induction false} AttachedOwned(d: Doc, i: Instance, c: Id)
    requires Attached(d, i, c)
    ensures forall n :: n in Owned(i) ==> n in d.labels
    decreases i
  {
    match i
    case TextInst(_, _) =>
    case GroupInst(_, _, cs) => AttachedOwnedAll(d, cs, c);
    case CompInst(_, _, r) => AttachedOwned(d, r, c);
    case HostInst(_, n, cs) => AttachedOwnedAll(d, cs, n);
  }

  lemma {:induction false} AttachedOwnedAll(d: Doc, cs: seq<Instance>, c: Id)
    requires forall k :: 0 <= k < |cs| ==> Attached(d, cs[k], c)
    ensures forall n :: n in OwnedAll(cs) ==> n in d.labels
    decreases cs
  {
    if cs != [] {
      AttachedOwned(d, cs[0], c);
      AttachedOwnedAll(d, cs[1..], c);
    }
  }

  /** A mounted instance paints exactly what a fresh mount of its virtual node paints. */
  lemma {:induction false} MountedShows(d: Doc, i: Instance, c: Id)
    requires Mounted(d, i, c)
    ensures ShowsAll(d, Nodes(i), Render(i.vnode))
    decreases i
  {
    match i
    case TextInst(_, _) =>
    case GroupInst(v, _, cs) => if v.Group? { MountedShowsAll(d, cs, v.children, c); }
    case CompInst(_, _, r) => MountedShows(d, r, c);
    case HostInst(v, n, cs) => MountedShowsAll(d, cs, v.children, n);
  }

  lemma {:induction false} MountedShowsAll(d: Doc, cs: seq<Instance>, vs: seq<VNode>, c: Id)
    requires Matches(cs, vs) && forall k :: 0 <= k < |cs| ==> Mounted(d, cs[k], c)
    ensures ShowsAll(d, NodesAll(cs), RenderAll(vs))
    decreases cs
  {
    if cs != [] {
      MountedShows(d, cs[0], c);
      MountedShowsAll(d, cs[1..], vs[1..], c);
    }
  }
}
