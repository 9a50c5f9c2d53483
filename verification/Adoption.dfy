/** What server markup a hydration can adopt, and what it then stands for. */
module Adoption {
  import opened Prelude
  import opened Dom
  import opened VTree

  /** The node and its later siblings: what a hydration cursor can walk over. */
  function Siblings(d: Doc, n: Option<Id>): seq<Id>
    requires Consistent(d)
  {
    if n.None? then []
    else if n.value in d.parent then SuffixFrom(d.kids[d.parent[n.value]], n.value)
    else [n.value]
  }

  function SuffixFrom(s: seq<Id>, n: Id): seq<Id> {
    if s == [] then [n] else if s[0] == n then s else SuffixFrom(s[1..], n)
  }

  function Skip(s: seq<Id>, n: nat): seq<Id> { if n <= |s| then s[n..] else [] }

  function First(d: Doc, n: Id): Option<Id>
    requires n in d.kids
  {
    if d.kids[n] != [] then Some(d.kids[n][0]) else None
  }

  /** Every node the tree needs is there with the right kind and tag. */
  ghost predicate Adoptable(d: Doc, v: VNode, s: seq<Id>)
    decreases v, 0
  {
    match v
    case Text(_) => s != [] && s[0] in d.labels && d.labels[s[0]].TextNode?
    case Empty => true
    case Group(_, cs) => AdoptableUpTo(d, cs, s, |cs|)
    case Component(_, r) => Adoptable(d, r, s)
    case Host(t, _, cs) =>
      && s != [] && s[0] in d.labels && s[0] in d.kids && d.labels[s[0]].Element? && d.labels[s[0]].tag == t
      && AdoptableUpTo(d, cs, d.kids[s[0]], |cs|)
  }

  ghost predicate AdoptableUpTo(d: Doc, vs: seq<VNode>, s: seq<Id>, k: nat)
    requires k <= |vs|
    decreases vs, k
  {
    k == 0 || (AdoptableUpTo(d, vs, s, k - 1) && Adoptable(d, vs[k - 1], Skip(s, |RenderAll(vs[..k - 1])|)))
  }

  /** No element holds a child or an attribute that the tree does not mention. */
  ghost predicate Snug(d: Doc, v: VNode, s: seq<Id>)
    decreases v, 0
  {
    match v
    case Group(_, cs) => SnugUpTo(d, cs, s, |cs|)
    case Component(_, r) => Snug(d, r, s)
    case Host(_, p, cs) =>
      s != [] && s[0] in d.labels && s[0] in d.kids && d.labels[s[0]].Element? &&
      d.labels[s[0]].props.Keys <= p.Keys && |d.kids[s[0]]| == |RenderAll(cs)| && SnugUpTo(d, cs, d.kids[s[0]], |cs|)
    case _ => true
  }

  ghost predicate SnugUpTo(d: Doc, vs: seq<VNode>, s: seq<Id>, k: nat)
    requires k <= |vs|
    decreases vs, k
  {
    k == 0 || (SnugUpTo(d, vs, s, k - 1) && Snug(d, vs[k - 1], Skip(s, |RenderAll(vs[..k - 1])|)))
  }

  /** Only texts and attributes may differ. */
  ghost predicate SameShape(d: Doc, e: Doc) {
    && e.kids == d.kids && e.parent == d.parent && e.next == d.next && e.labels.Keys == d.labels.Keys
    && forall n :: n in d.labels ==>
         (e.labels[n].TextNode? <==> d.labels[n].TextNode?) &&
           (d.labels[n].Element? ==> e.labels[n].tag == d.labels[n].tag)
  }

  lemma {:induction false} AdoptableFrame(d: Doc, e: Doc, v: VNode, s: seq<Id>)
    requires SameShape(d, e)
    ensures Adoptable(d, v, s) <==> Adoptable(e, v, s)
    decreases v, 0
  {
    match v
    case Group(_, cs) => AdoptableUpToFrame(d, e, cs, s, |cs|);
    case Component(_, r) => AdoptableFrame(d, e, r, s);
    case Host(_, _, cs) => if s != [] && s[0] in d.kids { AdoptableUpToFrame(d, e, cs, d.kids[s[0]], |cs|); }
    case _ =>
  }

  lemma {:induction false} AdoptableUpToFrame(d: Doc, e: Doc, vs: seq<VNode>, s: seq<Id>, k: nat)
    requires SameShape(d, e) && k <= |vs|
    ensures AdoptableUpTo(d, vs, s, k) <==> AdoptableUpTo(e, vs, s, k)
    decreases vs, k
  {
    if k > 0 {
      AdoptableUpToFrame(d, e, vs, s, k - 1);
      AdoptableFrame(d, e, vs[k - 1], Skip(s, |RenderAll(vs[..k - 1])|));
    }
  }

  lemma {:induction false} RenderAllStep(vs: seq<VNode>, k: nat)
    requires 0 < k <= |vs|
    ensures |RenderAll(vs[..k])| == |RenderAll(vs[..k - 1])| + |Render(vs[k - 1])|
  {
    assert vs[..k] == vs[..k - 1] + [vs[k - 1]];
    RenderAllSum(vs[..k - 1], vs[k - 1]);
  }

  lemma {:induction false} RenderAllSum(vs: seq<VNode>, v: VNode)
    ensures |RenderAll(vs + [v])| == |RenderAll(vs)| + |Render(v)|
  {
    if vs == [] {
      assert [v][1..] == [];
    } else {
      assert (vs + [v])[1..] == vs[1..] + [v];
      RenderAllSum(vs[1..], v);
    }
  }

  lemma {:induction false} AdoptableFits(d: Doc, v: VNode, s: seq<Id>)
    requires Adoptable(d, v, s)
    ensures |Render(v)| <= |s|
    decreases v, 0
  {
    match v
    case Group(_, cs) =>
      AdoptableUpToFits(d, cs, s, |cs|);
      assert cs[..|cs|] == cs;
    case Component(_, r) => AdoptableFits(d, r, s);
    case _ =>
  }

  lemma {:induction false} AdoptableUpToFits(d: Doc, vs: seq<VNode>, s: seq<Id>, k: nat)
    requires k <= |vs| && AdoptableUpTo(d, vs, s, k)
    ensures |RenderAll(vs[..k])| <= |s|
    decreases vs, k
  {
    if k > 0 {
      AdoptableUpToFits(d, vs, s, k - 1);
      AdoptableFits(d, vs[k - 1], Skip(s, |RenderAll(vs[..k - 1])|));
      RenderAllStep(vs, k);
    }
  }

  /** The document that mounting the tree produced is adoptable as it stands. */
  lemma {:induction false} MountedAdoptable(d: Doc, i: Instance, c: Id, s: seq<Id>)
    requires Mounted(d, i, c) && Nodes(i) <= s
    ensures Adoptable(d, i.vnode, s) && Snug(d, i.vnode, s)
    decreases i, 0
  {
    match i
    case TextInst(_, _) =>
    case GroupInst(v, _, cs) =>
      if v.Group? {
        assert NodesAll(cs) <= s;
        MountedAdoptableUpTo(d, cs, v.children, c, s, |cs|);
      }
    case CompInst(_, _, r) => MountedAdoptable(d, r, c, s);
    case HostInst(v, n, cs) =>
      MountedAdoptableUpTo(d, cs, v.children, n, d.kids[n], |cs|);
      NodesRenderedAll(cs, v.children);
      assert s[0] == n;
  }

  lemma {:induction false} MountedAdoptableUpTo(d: Doc, cs: seq<Instance>, vs: seq<VNode>, c: Id, s: seq<Id>, k: nat)
    requires k <= |cs| && Matches(cs, vs) && (forall j :: 0 <= j < |cs| ==> Mounted(d, cs[j], c)) && NodesAll(cs) <= s
    ensures AdoptableUpTo(d, vs, s, k) && SnugUpTo(d, vs, s, k)
    decreases cs, k
  {
    if k > 0 {
      MountedAdoptableUpTo(d, cs, vs, c, s, k - 1);
      var a, b := cs[..k - 1], cs[k - 1..];
      assert cs == a + b;
      NodesAllAppend(a, b);
      NodesRenderedAll(a, vs[..k - 1]);
      var rest := Skip(s, |NodesAll(a)|);
      assert NodesAll(b) == Nodes(cs[k - 1]) + NodesAll(b[1..]);
      assert NodesAll(cs)[|NodesAll(a)|..] == NodesAll(b);
      assert Nodes(cs[k - 1]) <= rest;
      MountedAdoptable(d, cs[k - 1], c, rest);
    }
  }

  // ---- Cursors ---------------------------------------------------------------------------------

  lemma {:induction false} SuffixAt(s: seq<Id>, i: nat)
    requires NoDup(s) && i < |s|
    ensures SuffixFrom(s, s[i]) == s[i..]
  {
    if i > 0 {
      SuffixAt(s[1..], i - 1);
      assert s[1..][i - 1..] == s[i..];
    }
  }

  lemma {:induction false} NextSuffix(s: seq<Id>, n: Id)
    requires NoDup(s) && n in s
    ensures SuffixFrom(s, n) != []
    ensures After(s, n).Some? ==> After(s, n).value in s && SuffixFrom(s, n)[1..] == SuffixFrom(s, After(s, n).value)
    ensures After(s, n).None? ==> SuffixFrom(s, n)[1..] == []
  {
    var i :| 0 <= i < |s| && s[i] == n;
    SuffixAt(s, i);
    AfterIndex(s, i);
    if i + 1 < |s| {
      SuffixAt(s, i + 1);
    }
  }

  lemma {:induction false} NextSiblings(d: Doc, n: Id)
    requires Consistent(d) && n in d.labels
    ensures Siblings(d, Some(n)) != []
    ensures var next := NextSibling(d, n);
            Siblings(d, next) == Siblings(d, Some(n))[1..] && (next.Some? ==> next.value in d.labels)
  {
    if n in d.parent {
      NextSuffix(d.kids[d.parent[n]], n);
    }
  }

  lemma {:induction false} SuffixFacts(s: seq<Id>, n: Id)
    requires NoDup(s) && n in s
    ensures NoDup(SuffixFrom(s, n)) && SuffixFrom(s, n) != [] && SuffixFrom(s, n)[0] == n
    ensures forall m :: m in SuffixFrom(s, n) ==> m in s
  {
    var i :| 0 <= i < |s| && s[i] == n;
    SuffixAt(s, i);
  }

  lemma {:induction false} SiblingsFacts(d: Doc, n: Option<Id>)
    requires Consistent(d) && (n.Some? ==> n.value in d.labels)
    ensures NoDup(Siblings(d, n)) && (n.Some? <==> Siblings(d, n) != [])
    ensures n.Some? ==> Siblings(d, n)[0] == n.value
    ensures forall m :: m in Siblings(d, n) ==> m in d.labels
  {
    if n.Some? && n.value in d.parent {
      SuffixFacts(d.kids[d.parent[n.value]], n.value);
    }
  }

  lemma {:induction false} FirstSiblings(d: Doc, n: Id)
    requires Consistent(d) && n in d.kids
    ensures Siblings(d, First(d, n)) == d.kids[n]
    ensures First(d, n).Some? ==> First(d, n).value in d.labels
  {
    if d.kids[n] != [] {
      assert d.kids[n][0] in d.kids[n];
      SuffixAt(d.kids[n], 0);
    }
  }
}
