/** Depths of nodes: the part of the document below a container is a tree. */
module Depth {
  import opened Prelude
  import opened Dom
  import opened VTree
  import opened ClientRuntime

  // ---- Depth: the document is a tree --------------------------------------------------------

  /** An element, which may have children. */
  predicate Branch(d: Doc, n: Id) { n in d.labels && n in d.kids && d.labels[n].Element? }

  /** Below any element that has a depth, children are one deeper than their parent. */
  ghost predicate Ranked(d: Doc, depth: map<Id, nat>) {
    forall p, n :: Branch(d, p) && p in depth && n in d.kids[p] ==> n in depth && depth[n] == depth[p] + 1
  }

  /** The ancestor of `n` at depth `k`, or `n` itself when there is none. */
  ghost function Ancestor(up: map<Id, Id>, depth: map<Id, nat>, n: Id, k: nat): Id
    decreases if n in depth then depth[n] else 0
  {
    if n in depth && depth[n] > k && n in up && up[n] in depth && depth[up[n]] < depth[n]
    then Ancestor(up, depth, up[n], k) else n
  }

  lemma {:induction false} AncestorTwice(up: map<Id, Id>, depth: map<Id, nat>, n: Id, k: nat)
    ensures Ancestor(up, depth, n, k) == Ancestor(up, depth, Ancestor(up, depth, n, k + 1), k)
    decreases if n in depth then depth[n] else 0
  {
    if n in depth && depth[n] > k + 1 && n in up && up[n] in depth && depth[up[n]] < depth[n] {
      AncestorTwice(up, depth, up[n], k);
    }
  }

  /** Every owned node hangs below one of the nodes `tops`, all of them at depth `k`. */
  ghost predicate Hangs(d: Doc, depth: map<Id, nat>, owned: set<Id>, tops: seq<Id>, k: nat) {
    forall m :: m in owned ==> m in d.labels && Below(d, depth, m, tops, k)
  }

  ghost predicate Below(d: Doc, depth: map<Id, nat>, m: Id, tops: seq<Id>, k: nat) {
    m in depth && depth[m] >= k && Ancestor(d.parent, depth, m, k) in tops
  }

  ghost predicate Level(depth: map<Id, nat>, s: seq<Id>, k: nat) {
    forall n :: n in s ==> n in depth && depth[n] == k
  }

  lemma {:induction false} BelowParent(d: Doc, depth: map<Id, nat>, m: Id, n: Id, k: nat)
    requires Consistent(d) && Ranked(d, depth) && Branch(d, n) && n in depth && depth[n] == k
    requires Below(d, depth, m, d.kids[n], k + 1)
    ensures m != n && Below(d, depth, m, [n], k)
  {
    AncestorTwice(d.parent, depth, m, k);
    var q := Ancestor(d.parent, depth, m, k + 1);
    assert q in d.kids[n] && d.parent[q] == n;
    assert Ancestor(d.parent, depth, q, k) == Ancestor(d.parent, depth, n, k);
  }

  lemma {:induction false} HangsBelow(d: Doc, depth: map<Id, nat>, owned: set<Id>, n: Id, k: nat)
    requires Consistent(d) && Ranked(d, depth) && Branch(d, n) && n in depth && depth[n] == k
    requires Hangs(d, depth, owned, d.kids[n], k + 1)
    ensures n !in owned && Hangs(d, depth, owned + {n}, [n], k)
  {
    forall m | m in owned ensures m != n && Below(d, depth, m, [n], k) {
      BelowParent(d, depth, m, n, k);
    }
  }

  lemma {:induction false} HangsApart(d: Doc, depth: map<Id, nat>, a: set<Id>, s: seq<Id>, b: set<Id>, t: seq<Id>,
                                      k: nat)
    requires Hangs(d, depth, a, s, k) && Hangs(d, depth, b, t, k) && forall n :: n in s ==> n !in t
    ensures a !! b
  {
    forall m | m in a ensures m !in b {}
  }

  /** In a tree, an attached instance over distinct siblings owns no node twice. */
  lemma {:induction false} AttachedApart(d: Doc, depth: map<Id, nat>, i: Instance, c: Id, k: nat)
    requires Consistent(d) && Ranked(d, depth) && Attached(d, i, c) && NoDup(Nodes(i)) && Level(depth, Nodes(i), k)
    ensures Apart(i) && Hangs(d, depth, Owned(i), Nodes(i), k)
    decreases i
  {
    match i
    case TextInst(_, n) => assert n in Nodes(i);
    case GroupInst(_, _, cs) => AttachedApartAll(d, depth, cs, c, k);
    case CompInst(_, _, r) => AttachedApart(d, depth, r, c, k);
    case HostInst(_, n, cs) =>
      assert n in Nodes(i);
      AttachedApartAll(d, depth, cs, n, k + 1);
      HangsBelow(d, depth, OwnedAll(cs), n, k);
  }

  lemma {:induction false} AttachedApartAll(d: Doc, depth: map<Id, nat>, cs: seq<Instance>, c: Id, k: nat)
    requires Consistent(d) && Ranked(d, depth) && (forall j :: 0 <= j < |cs| ==> Attached(d, cs[j], c))
    requires NoDup(NodesAll(cs)) && Level(depth, NodesAll(cs), k)
    ensures ApartAll(cs) && Hangs(d, depth, OwnedAll(cs), NodesAll(cs), k)
    decreases cs
  {
    if cs != [] {
      var a, b := Nodes(cs[0]), NodesAll(cs[1..]);
      NoDupParts(a, b);
      AttachedApart(d, depth, cs[0], c, k);
      AttachedApartAll(d, depth, cs[1..], c, k);
      HangsApart(d, depth, Owned(cs[0]), a, OwnedAll(cs[1..]), b, k);
    }
  }

  /** What a hydration adopted is ready for every later reconcile, just like a mount. */
  lemma {:induction false} AdoptedReady(d: Doc, depth: map<Id, nat>, i: Instance, c: Id, pre: seq<Id>, post: seq<Id>)
    requires Consistent(d) && Ranked(d, depth) && Branch(d, c) && c in depth && Shaped(i) && Attached(d, i, c)
    requires d.kids[c] == pre + Nodes(i) + post
    ensures Mounted(d, i, c) && Apart(i) && c !in Owned(i)
    ensures ShowsAll(d, Nodes(i), Render(i.vnode))
  {
    NoDupParts(pre + Nodes(i), post);
    NoDupParts(pre, Nodes(i));
    forall n | n in Nodes(i) ensures n in d.kids[c] {
      assert n in pre + Nodes(i);
    }
    AttachedApart(d, depth, i, c, depth[c] + 1);
    MountedShows(d, i, c);
  }

  lemma {:induction false} HangsLabels(d: Doc, depth: map<Id, nat>, owned: set<Id>, tops: seq<Id>, lv: nat)
    requires Hangs(d, depth, owned, tops, lv)
    ensures owned <= d.labels.Keys
  {}

  lemma {:induction false} HangsWithin(d: Doc, depth: map<Id, nat>, owned: set<Id>, tops: seq<Id>, all: seq<Id>, k: nat)
    requires Hangs(d, depth, owned, tops, k) && tops <= all
    ensures Hangs(d, depth, owned, all, k)
  {
    forall m | m in owned ensures Below(d, depth, m, all, k) {
      assert Below(d, depth, m, tops, k);
      assert forall t :: t in tops ==> t in all;
    }
  }

  lemma {:induction false} LevelKids(d: Doc, c: Id, depth: map<Id, nat>)
    requires Ranked(d, depth) && Branch(d, c) && c in depth
    ensures Level(depth, d.kids[c], depth[c] + 1)
  {}

  // ---- A mounted instance is a tree ---------------------------------------------------------------

  /** The depths of an instance's nodes, its own nodes being at depth `k`. */
  ghost function Depths(i: Instance, k: nat): map<Id, nat>
    decreases i
  {
    match i
    case TextInst(_, n) => map[n := k]
    case GroupInst(_, _, cs) => DepthsAll(cs, k)
    case CompInst(_, _, r) => Depths(r, k)
    case HostInst(_, n, cs) => DepthsAll(cs, k + 1)[n := k]
  }

  ghost function DepthsAll(cs: seq<Instance>, k: nat): map<Id, nat>
    decreases cs
  {
    if cs == [] then map[] else Depths(cs[0], k) + DepthsAll(cs[1..], k)
  }

  lemma {:induction false} DepthsOwned(i: Instance, k: nat)
    ensures Depths(i, k).Keys == Owned(i)
    decreases i
  {
    match i
    case TextInst(_, _) =>
    case GroupInst(_, _, cs) => DepthsOwnedAll(cs, k);
    case CompInst(_, _, r) => DepthsOwned(r, k);
    case HostInst(_, n, cs) => DepthsOwnedAll(cs, k + 1);
  }

  lemma {:induction false} DepthsOwnedAll(cs: seq<Instance>, k: nat)
    ensures DepthsAll(cs, k).Keys == OwnedAll(cs)
    decreases cs
  {
    if cs != [] {
      DepthsOwned(cs[0], k);
      DepthsOwnedAll(cs[1..], k);
    }
  }

  lemma {:induction false} RankedJoin(d: Doc, a: map<Id, nat>, b: map<Id, nat>)
    requires Ranked(d, a) && Ranked(d, b) && a.Keys !! b.Keys
    ensures Ranked(d, a + b)
  {}

  /** The nodes of a mounted instance form a tree. */
  lemma {:induction false} MountedRanked(d: Doc, i: Instance, c: Id, k: nat)
    requires Attached(d, i, c) && Apart(i)
    ensures Ranked(d, Depths(i, k)) && Level(Depths(i, k), Nodes(i), k)
    decreases i
  {
    match i
    case TextInst(_, n) =>
    case GroupInst(_, _, cs) => MountedRankedAll(d, cs, c, k);
    case CompInst(_, _, r) => MountedRanked(d, r, c, k);
    case HostInst(_, n, cs) =>
      MountedRankedAll(d, cs, n, k + 1);
      DepthsOwnedAll(cs, k + 1);
      assert n !in DepthsAll(cs, k + 1).Keys;
  }

  lemma {:induction false} MountedRankedAll(d: Doc, cs: seq<Instance>, c: Id, k: nat)
    requires (forall j :: 0 <= j < |cs| ==> Attached(d, cs[j], c)) && ApartAll(cs)
    ensures Ranked(d, DepthsAll(cs, k)) && Level(DepthsAll(cs, k), NodesAll(cs), k)
    decreases cs
  {
    if cs != [] {
      MountedRanked(d, cs[0], c, k);
      MountedRankedAll(d, cs[1..], c, k);
      DepthsOwned(cs[0], k);
      DepthsOwnedAll(cs[1..], k);
      RankedJoin(d, Depths(cs[0], k), DepthsAll(cs[1..], k));
    }
  }

  /** A container that holds a mounted instance and nothing else is the root of a tree. */
  lemma {:induction false} LiveRanked(d: Doc, i: Instance, c: Id)
    requires Attached(d, i, c) && Apart(i) && c !in Owned(i) && Branch(d, c) && d.kids[c] == Nodes(i)
    ensures Ranked(d, Depths(i, 1)[c := 0])
  {
    MountedRanked(d, i, c, 1);
    DepthsOwned(i, 1);
  }
}
