/** What one hydration, adopting or falling back, does to the document around it.

    `Sites` is the statement for one tree and `SitesRow` the one for a row of them. Both hold of every
    hydration in part: the instance is of the tree and its nodes are in the document (`Basics`), other
    nodes only leave or are new, and the first node of the tree comes no later than the sibling the
    cursor was on (`Leads`). When the container has a depth (`Rooted`) they go on: a smooth tree is
    `Settled`, which gives the child list of the container exactly (`Laid`), keeps everything that is
    not below the siblings taken over (`Kept`) and extends the depths to the new nodes (`Widens`); a
    tree that is not smooth leaves some row out of its order, and nothing later brings it back. The
    lemmas go kind by kind: a text, nothing, a component, a group, a replacement, an element. */
module Fallback {
  import opened Prelude
  import opened Dom
  import opened VTree
  import opened ClientRuntime
  import opened Adoption
  import opened Depth
  import opened Siting

  // ---- The frame ---------------------------------------------------------------------------------------

  ghost predicate SameParent(d: Doc, e: Doc, m: Id) {
    (m in e.parent <==> m in d.parent) && (m in d.parent ==> e.parent[m] == d.parent[m])
  }

  /** Of the nodes there were, only those below `s` and the child list of `c` may have changed. */
  ghost predicate Kept(d: Doc, e: Doc, rank: map<Id, nat>, s: seq<Id>, lv: nat, c: Id) {
    && e.next >= d.next && d.labels.Keys <= e.labels.Keys
    && (forall m :: m in e.labels && m !in d.labels ==> m >= d.next)
    && forall m :: m in d.labels && !Below(d, rank, m, s, lv) ==>
         e.labels[m] == d.labels[m] && SameParent(d, e, m) &&
           (m != c && m in d.kids ==> m in e.kids && e.kids[m] == d.kids[m])
  }

  /** Depths stay, and only new nodes get one. */
  ghost predicate Widens(d: Doc, e: Doc, rank: map<Id, nat>, rank': map<Id, nat>) {
    && rank'.Keys <= e.labels.Keys
    && (forall n :: n in rank ==> n in rank' && rank'[n] == rank[n])
    && forall n :: n in rank' && n in d.labels ==> n in rank
  }

  /** The container is an element with a depth, and the cursor is on one of its children. */
  ghost predicate Rooted(d: Doc, rank: map<Id, nat>, c: Id, lv: nat, start: Option<Id>) {
    && Ranked(d, rank) && rank.Keys <= d.labels.Keys && Branch(d, c) && c in rank && lv == rank[c] + 1
    && (start.Some? ==> start.value in d.kids[c])
  }

  lemma {:induction false} SiblingsAt(d: Doc, c: Id, n: Id) returns (i: nat)
    requires Consistent(d) && c in d.kids && n in d.kids[c]
    ensures i <= |d.kids[c]| && Siblings(d, Some(n)) == d.kids[c][i..]
  {
    var kids := d.kids[c];
    assert n in d.parent && d.parent[n] == c && NoDup(kids);
    i :| 0 <= i < |kids| && kids[i] == n;
    hide Consistent, SuffixFrom, NoDup;
    SuffixAt(kids, i);
  }

  lemma {:induction false} ChildLevel(d: Doc, rank: map<Id, nat>, c: Id, lv: nat, start: Option<Id>)
    requires Consistent(d) && Rooted(d, rank, c, lv, start)
    ensures forall m :: m in d.kids[c] ==> m in rank && rank[m] == lv && m in d.labels
  {}

  lemma {:induction false} NeverBelow(d: Doc, rank: map<Id, nat>, c: Id, lv: nat)
    requires c in rank && rank[c] < lv
    ensures forall tops, m :: m == c ==> !Below(d, rank, m, tops, lv)
  {
    hide Ancestor;
  }

  lemma {:induction false} TailOf(kids: seq<Id>, i: nat, s: seq<Id>)
    requires i <= |kids| && s == kids[i..]
    ensures |s| <= |kids| && kids == kids[..|kids| - |s|] + s && forall m :: m in s ==> m in kids
  {}

  lemma {:induction false} RootedLevel(d: Doc, rank: map<Id, nat>, c: Id, lv: nat, start: Option<Id>)
    requires Consistent(d) && Rooted(d, rank, c, lv, start)
    ensures Level(rank, Siblings(d, start), lv) &&
            (forall m :: m in Siblings(d, start) ==> m in d.labels && m in d.kids[c])
    ensures |Siblings(d, start)| <= |d.kids[c]|
    ensures d.kids[c] == d.kids[c][..|d.kids[c]| - |Siblings(d, start)|] + Siblings(d, start)
    ensures forall tops, m :: m == c ==> !Below(d, rank, m, tops, lv)
  {
    ChildLevel(d, rank, c, lv, start);
    NeverBelow(d, rank, c, lv);
    assert start.None? ==> Siblings(d, start) == d.kids[c][|d.kids[c]|..];
    hide Consistent, Siblings, Rooted, Below;
    if start.Some? {
      var i := SiblingsAt(d, c, start.value);
      TailOf(d.kids[c], i, Siblings(d, start));
    } else {
      TailOf(d.kids[c], |d.kids[c]|, Siblings(d, start));
    }
  }

  /** Parents above an untouched node are as before, and so is what it is below. */
  lemma {:induction false} AncestorSame(d: Doc, e: Doc, rank: map<Id, nat>, rank': map<Id, nat>, s: seq<Id>, lv: nat,
                                        c: Id, m: Id)
    requires Consistent(d) && Kept(d, e, rank, s, lv, c) && Widens(d, e, rank, rank')
    requires m in d.labels && !Below(d, rank, m, s, lv)
    ensures Ancestor(e.parent, rank', m, lv) == Ancestor(d.parent, rank, m, lv)
    decreases if m in rank then rank[m] else 0
  {
    assert SameParent(d, e, m);
    if m in rank && rank[m] > lv && m in d.parent && d.parent[m] in rank && rank[d.parent[m]] < rank[m] {
      var up := d.parent[m];
      assert up in d.labels;
      AncestorSame(d, e, rank, rank', s, lv, c, up);
    } else if m in rank && rank[m] > lv && m in d.parent {
      assert d.parent[m] in d.labels;
    }
  }

  lemma {:induction false} BelowSame(d: Doc, e: Doc, rank: map<Id, nat>, rank': map<Id, nat>, s: seq<Id>, lv: nat,
                                     c: Id, m: Id, tops: seq<Id>)
    requires Consistent(d) && Kept(d, e, rank, s, lv, c) && Widens(d, e, rank, rank')
    requires m in d.labels && !Below(d, rank, m, s, lv)
    ensures Below(e, rank', m, tops, lv) <==> Below(d, rank, m, tops, lv)
  {
    AncestorSame(d, e, rank, rank', s, lv, c, m);
  }

  lemma {:induction false} BelowSplit(d: Doc, rank: map<Id, nat>, m: Id, a: seq<Id>, b: seq<Id>, lv: nat)
    ensures Below(d, rank, m, a + b, lv) <==> Below(d, rank, m, a, lv) || Below(d, rank, m, b, lv)
  {}

  lemma {:induction false} KeptTwice(d: Doc, e: Doc, f: Doc, rank: map<Id, nat>, rank': map<Id, nat>, a: seq<Id>,
                                     b: seq<Id>, lv: nat, c: Id)
    requires Consistent(d) && d.kids.Keys == d.labels.Keys && e.kids.Keys == e.labels.Keys && Widens(d, e, rank, rank')
    requires Kept(d, e, rank, a, lv, c) && Kept(e, f, rank', b, lv, c)
    ensures Kept(d, f, rank, a + b, lv, c)
  {
    forall m | m in d.labels && !Below(d, rank, m, a + b, lv)
      ensures f.labels[m] == d.labels[m] && SameParent(d, f, m)
      ensures m != c && m in d.kids ==> m in f.kids && f.kids[m] == d.kids[m]
    {
      BelowSplit(d, rank, m, a, b, lv);
      BelowSame(d, e, rank, rank', a, lv, c, m, b);
      assert SameParent(d, e, m) && SameParent(e, f, m);
    }
  }

  lemma {:induction false} WidensTwice(d: Doc, e: Doc, f: Doc, a: map<Id, nat>, b: map<Id, nat>, c: map<Id, nat>)
    requires d.labels.Keys <= e.labels.Keys && Widens(d, e, a, b) && Widens(e, f, b, c)
    ensures Widens(d, f, a, c)
  {}

  /** What hangs below other nodes still does, and is in place and dressed as it was. */
  lemma {:induction false} HangsKept(d: Doc, e: Doc, rank: map<Id, nat>, rank': map<Id, nat>, s: seq<Id>, lv: nat,
                                     c: Id,
                                     owned: set<Id>, tops: seq<Id>)
    requires Consistent(d) && Kept(d, e, rank, s, lv, c) && Widens(d, e, rank, rank')
    requires Hangs(d, rank, owned, tops, lv) && forall n :: n in tops ==> n !in s
    ensures Hangs(e, rank', owned, tops, lv) && forall m :: m in owned ==> !Below(d, rank, m, s, lv)
  {
    forall m | m in owned ensures m in e.labels && Below(e, rank', m, tops, lv) && !Below(d, rank, m, s, lv) {
      assert Below(d, rank, m, tops, lv);
      BelowSame(d, e, rank, rank', s, lv, c, m, tops);
    }
  }

  /** The two documents agree on the labels and children of the owned nodes. */
  ghost predicate SameOn(d: Doc, e: Doc, owned: set<Id>) {
    forall m :: m in owned ==> m in d.labels && m in e.labels && m in d.kids && m in e.kids
                               && e.labels[m] == d.labels[m] && e.kids[m] == d.kids[m]
  }

  lemma {:induction false} SeatedKept(d: Doc, e: Doc, i: Instance)
    requires SameOn(d, e, Owned(i)) && Seated(d, i) && Dressed(d, i)
    ensures Seated(e, i) && Dressed(e, i)
    decreases i
  {
    match i
    case TextInst(_, n) => assert n in Owned(i);
    case GroupInst(_, _, cs) => SeatedKeptAll(d, e, cs);
    case CompInst(_, _, r) => SeatedKept(d, e, r);
    case HostInst(_, n, cs) =>
      assert n in Owned(i);
      SeatedKeptAll(d, e, cs);
  }

  lemma {:induction false} SeatedKeptAll(d: Doc, e: Doc, cs: seq<Instance>)
    requires SameOn(d, e, OwnedAll(cs)) && SeatedAll(d, cs) && DressedAll(d, cs)
    ensures SeatedAll(e, cs) && DressedAll(e, cs)
    decreases cs, 0
  {
    forall k | 0 <= k < |cs| ensures Seated(e, cs[k]) && Dressed(e, cs[k]) {
      OwnedAt(cs, k);
      SeatedKept(d, e, cs[k]);
    }
  }

  // ---- One tree ------------------------------------------------------------------------------------------

  /** The siblings `s` after a tree has taken over `t` of them and sent the rest of its nodes to the end. */
  ghost predicate Laid(d: Doc, e: Doc, c: Id, s: seq<Id>, ns: seq<Id>, t: nat) {
    && c in d.kids && c in e.kids && |s| <= |d.kids[c]| && t <= |s| && t <= |ns|
    && e.kids[c] == d.kids[c][..|d.kids[c]| - |s|] + ns[..t] + s[t..] + ns[t..]
  }

  /** Any hydration: an instance of the tree, over nodes of the document. */
  ghost predicate Basics(d: Doc, e: Doc, v: VNode, r: Instance) {
    Evolves(d, e) && r.vnode == v && Shaped(r) && Owned(r) <= e.labels.Keys
  }

  /** Its first node comes no later than the sibling the cursor was on. */
  ghost predicate Leads(d: Doc, e: Doc, c: Id, start: Option<Id>, ns: seq<Id>) {
    start.Some? && c in d.kids && c in e.kids && start.value in d.kids[c] && ns != [] ==>
      forall x :: x in d.labels && (x == start.value || Before(d.kids[c], start.value, x)) ==>
        !Before(e.kids[c], x, ns[0])
  }

  /** A smooth hydration: the layout has come about, and every container holds its row in order. */
  ghost predicate Settled(d: Doc, e: Doc, v: VNode, s: seq<Id>, r: Instance, rank: map<Id, nat>, rank': map<Id, nat>,
                          lv: nat, c: Id)
  {
    var x := Layout(d, v, s);
    && Laid(d, e, c, s, Nodes(r), x.taken) && |Nodes(r)| == x.taken + x.extra
    && (x.taken > 0 ==> if x.lost then s[0] !in e.parent else Nodes(r)[0] == s[0])
    && Kept(d, e, rank, s[..x.taken], lv, c) && Ranked(e, rank') && Widens(d, e, rank, rank')
    && Hangs(e, rank', Owned(r), Nodes(r), lv) && Seated(e, r) && Dressed(e, r)
  }

  ghost predicate Sites(d: Doc, e: Doc, v: VNode, start: Option<Id>, s: seq<Id>, r: Instance, rank: map<Id, nat>,
                        rank': map<Id, nat>, lv: nat, c: Id)
  {
    && Basics(d, e, v, r) && Leads(d, e, c, start, Nodes(r))
    && (Rooted(d, rank, c, lv, start) ==>
          if Smooth(d, v, s) then Settled(d, e, v, s, r, rank, rank', lv, c) else !InPlace(e, r, c))
  }

  // ---- A row ---------------------------------------------------------------------------------------------

  ghost predicate BasicsRow(d: Doc, e: Doc, vs: seq<VNode>, rs: seq<Instance>, k: nat)
    requires k <= |vs|
  {
    Evolves(d, e) && Matches(rs, vs[..k]) && ShapedAll(rs) && OwnedAll(rs) <= e.labels.Keys
  }

  ghost predicate SettledRow(d: Doc, e: Doc, vs: seq<VNode>, s: seq<Id>, rs: seq<Instance>, rank: map<Id, nat>,
                             rank': map<Id, nat>, lv: nat, c: Id, k: nat)
    requires k <= |vs|
  {
    var p, ns := LayoutRow(d, vs, s, k), NodesAll(rs);
    && Laid(d, e, c, s, ns, p.taken) && |ns| == p.taken + p.extra
    && (p.taken > 0 ==> if p.lost then s[0] !in e.parent else ns[0] == s[0])
    && Kept(d, e, rank, s[..p.taken], lv, c) && Ranked(e, rank') && Widens(d, e, rank, rank')
    && Hangs(e, rank', OwnedAll(rs), ns, lv) && SeatedAll(e, rs) && DressedAll(e, rs)
  }

  /** Where the cursor of the row is. */
  ghost predicate CursorIs(e: Doc, s: seq<Id>, p: RowLay, c: Id, ns: seq<Id>, cursor: Option<Id>) {
    && p.taken <= |s|
    && match p.at
       case At => p.taken < |s| && cursor == Some(s[p.taken])
       case End => cursor.None?
       case Astray => cursor.Some? && c in e.kids && cursor.value in e.kids[c] && p.extra > 0 && ns != []
  }

  ghost predicate SitesRow(d: Doc, e: Doc, vs: seq<VNode>, start: Option<Id>, s: seq<Id>, rs: seq<Instance>,
                           cursor: Option<Id>, rank: map<Id, nat>, rank': map<Id, nat>, lv: nat, c: Id, k: nat)
    requires k <= |vs|
  {
    && BasicsRow(d, e, vs, rs, k) && Leads(d, e, c, start, NodesAll(rs))
    && (NodesAll(rs) == [] ==> e == d && cursor == start)
    && (Rooted(d, rank, c, lv, start) ==>
          if SmoothRow(d, vs, s, k)
          then SettledRow(d, e, vs, s, rs, rank, rank', lv, c, k)
               && CursorIs(e, s, LayoutRow(d, vs, s, k), c, NodesAll(rs), cursor)
          else !RowInPlace(e, rs, c))
  }

  // ---- Single nodes ----------------------------------------------------------------------------------------

  lemma {:induction false} NotBelowSelf(d: Doc, rank: map<Id, nat>, n: Id, s: seq<Id>, lv: nat)
    requires n in rank && rank[n] == lv
    ensures Below(d, rank, n, s, lv) <==> n in s
  {}

  /** The adopted node is where it was. */
  lemma {:induction false} SelfLeads(d: Doc, e: Doc, c: Id, n: Id)
    requires Consistent(d) && Evolves(d, e)
    ensures Leads(d, e, c, Some(n), [n])
  {
    if c in d.kids && c in e.kids && n in d.kids[c] {
      var kids := d.kids[c];
      assert Thins(kids, e.kids[c], d.labels.Keys) && n in d.labels && NoDup(kids);
      hide Consistent, Evolves, Before, NoDup;
      forall x | x in d.labels && (x == n || Before(kids, n, x)) ensures !Before(e.kids[c], x, n) {
        if Before(kids, x, n) {
          BeforeOnce(kids, x, n);
        }
      }
    }
  }

  lemma {:induction false} LaidSame(d: Doc, e: Doc, c: Id, s: seq<Id>, t: nat)
    requires c in d.kids && c in e.kids && e.kids[c] == d.kids[c] && |s| <= |d.kids[c]| && t <= |s|
    requires d.kids[c] == d.kids[c][..|d.kids[c]| - |s|] + s
    ensures Laid(d, e, c, s, s[..t], t)
  {
    var front := d.kids[c][..|d.kids[c]| - |s|];
    assert s == s[..t] + s[t..];
    assert s[..t][..t] == s[..t] && s[..t][t..] == [];
    assert front + s == front + s[..t] + s[t..] + [];
  }

  lemma {:induction false} LaidOrder(d: Doc, e: Doc, c: Id, s: seq<Id>, ns: seq<Id>, t: nat)
    requires Laid(d, e, c, s, ns, t)
    ensures InOrder(e.kids[c], ns)
  {
    var a, b := d.kids[c][..|d.kids[c]| - |s|], s[t..];
    var kids := e.kids[c];
    assert forall i :: 0 <= i < t ==> kids[|a| + i] == ns[i];
    assert forall i :: t <= i < |ns| ==> kids[|a| + |b| + i] == ns[i];
    forall i | 0 <= i < |ns| ensures ns[i] in kids {
      assert ns[i] == kids[if i < t then |a| + i else |a| + |b| + i];
    }
    forall i, j | 0 <= i < j < |ns| ensures Before(kids, ns[i], ns[j]) {
      assert ns[i] == kids[if i < t then |a| + i else |a| + |b| + i];
      assert ns[j] == kids[if j < t then |a| + j else |a| + |b| + j];
    }
  }

  lemma {:induction false} RootedParts(d: Doc, rank: map<Id, nat>, c: Id, lv: nat, start: Option<Id>)
    requires Rooted(d, rank, c, lv, start)
    ensures Ranked(d, rank) && rank.Keys <= d.labels.Keys && Branch(d, c) && c in rank && lv == rank[c] + 1
    ensures c in d.labels && c in d.kids && (start.Some? ==> start.value in d.kids[c])
  {}

  /** Nothing but the text of one node has changed. */
  lemma {:induction false} TextKept(d: Doc, n: Id, text: string, rank: map<Id, nat>, lv: nat, c: Id)
    requires Consistent(d) && n in d.labels && d.labels[n].TextNode? && n in rank && rank[n] == lv
    requires Ranked(d, rank) && rank.Keys <= d.labels.Keys
    ensures var e := d.(labels := d.labels[n := TextNode(text)]);
            Kept(d, e, rank, [n], lv, c) && Ranked(e, rank) && Widens(d, e, rank, rank) && Hangs(e, rank, {n}, [n], lv)
  {
    var e := d.(labels := d.labels[n := TextNode(text)]);
    NotBelowSelf(d, rank, n, [n], lv);
    NotBelowSelf(e, rank, n, [n], lv);
    assert forall p :: Branch(e, p) ==> Branch(d, p);
  }

  lemma {:induction false} TextSettled(d: Doc, v: VNode, s: seq<Id>, rank: map<Id, nat>, lv: nat, c: Id)
    requires Consistent(d) && v.Text? && s != [] && LinesUp(d, v, s[0]) && s[0] in rank && rank[s[0]] == lv
    requires Ranked(d, rank) && rank.Keys <= d.labels.Keys && c in d.kids
    requires |s| <= |d.kids[c]| && d.kids[c] == d.kids[c][..|d.kids[c]| - |s|] + s
    ensures var e := d.(labels := d.labels[s[0] := TextNode(v.text)]);
            Settled(d, e, v, s, TextInst(v, s[0]), rank, rank, lv, c)
  {
    var n := s[0];
    var e := d.(labels := d.labels[n := TextNode(v.text)]);
    TextKept(d, n, v.text, rank, lv, c);
    hide Kept, Ranked, Widens, Hangs, Consistent;
    LaidSame(d, e, c, s, 1);
    assert s[..1] == [n];
    hide Laid;
  }

  lemma {:induction false} TextSites(d: Doc, v: VNode, start: Option<Id>, s: seq<Id>, rank: map<Id, nat>, lv: nat,
                                     c: Id)
    requires Consistent(d) && v.Text? && start.Some? && LinesUp(d, v, start.value) && s == Siblings(d, start)
    ensures var e := d.(labels := d.labels[start.value := TextNode(v.text)]);
            Consistent(e) && Sites(d, e, v, start, s, TextInst(v, start.value), rank, rank, lv, c)
  {
    var n := start.value;
    var e := d.(labels := d.labels[n := TextNode(v.text)]);
    SiblingsFacts(d, start);
    EvolvesSame(d, e);
    SelfLeads(d, e, c, n);
    assert Consistent(e);
    assert Basics(d, e, v, TextInst(v, n));
    hide Evolves, Leads, Consistent, Rooted, Settled, Siblings, Basics;
    if Rooted(d, rank, c, lv, start) {
      RootedParts(d, rank, c, lv, start);
      RootedLevel(d, rank, c, lv, start);
      assert n in s && n in rank && rank[n] == lv;
      hide Level, Ranked, Below;
      TextSettled(d, v, s, rank, lv, c);
    }
  }

  lemma {:induction false} NothingKept(d: Doc, rank: map<Id, nat>, lv: nat, c: Id)
    requires Consistent(d) && Ranked(d, rank) && rank.Keys <= d.labels.Keys
    ensures Kept(d, d, rank, [], lv, c) && Widens(d, d, rank, rank) && Hangs(d, rank, {}, [], lv)
  {}

  lemma {:induction false} EmptySettled(d: Doc, s: seq<Id>, rank: map<Id, nat>, lv: nat, c: Id)
    requires Consistent(d) && Ranked(d, rank) && rank.Keys <= d.labels.Keys && c in d.kids
    requires |s| <= |d.kids[c]| && d.kids[c] == d.kids[c][..|d.kids[c]| - |s|] + s
    ensures Settled(d, d, Empty, s, GroupInst(Empty, c, []), rank, rank, lv, c)
  {
    NothingKept(d, rank, lv, c);
    hide Kept, Ranked, Widens, Hangs, Consistent;
    LaidSame(d, d, c, s, 0);
    assert s[..0] == [];
    hide Laid;
    var r := GroupInst(Empty, c, []);
    assert NodesAll(r.childInstances) == [] && OwnedAll(r.childInstances) == {};
    assert Seated(d, r) && Dressed(d, r);
  }

  lemma {:induction false} EmptySites(d: Doc, start: Option<Id>, s: seq<Id>, rank: map<Id, nat>, lv: nat, c: Id)
    requires Consistent(d) && s == Siblings(d, start)
    ensures Sites(d, d, Empty, start, s, GroupInst(Empty, c, []), rank, rank, lv, c)
  {
    EvolvesSame(d, d);
    var r := GroupInst(Empty, c, []);
    assert NodesAll(r.childInstances) == [] && OwnedAll(r.childInstances) == {} && Shaped(r);
    assert Basics(d, d, Empty, r) && Nodes(r) == [];
    assert Leads(d, d, c, start, []);
    hide Evolves, Consistent, Rooted, Settled, Siblings, Basics, Leads, Nodes, NodesAll, Owned, OwnedAll, Shaped,
      Before;
    if Rooted(d, rank, c, lv, start) {
      RootedParts(d, rank, c, lv, start);
      RootedLevel(d, rank, c, lv, start);
      EmptySettled(d, s, rank, lv, c);
    }
  }

  lemma {:induction false} ComponentSites(d: Doc, e: Doc, v: VNode, start: Option<Id>, s: seq<Id>, r: Instance,
                                          rank: map<Id, nat>, rank': map<Id, nat>, lv: nat, c: Id)
    requires v.Component? && Sites(d, e, v.rendered, start, s, r, rank, rank', lv, c)
    ensures Sites(d, e, v, start, s, CompInst(v, c, r), rank, rank', lv, c)
  {
    hide Rooted, Laid, Kept, Hangs, Ranked, Widens, Evolves, Leads;
  }

  lemma {:induction false} GroupSites(d: Doc, e: Doc, v: VNode, start: Option<Id>, s: seq<Id>, rs: seq<Instance>,
                                      cursor: Option<Id>, rank: map<Id, nat>, rank': map<Id, nat>, lv: nat, c: Id)
    requires v.Group? && SitesRow(d, e, v.children, start, s, rs, cursor, rank, rank', lv, c, |v.children|)
    ensures Sites(d, e, v, start, s, GroupInst(v, c, rs), rank, rank', lv, c)
  {
    assert v.children[..|v.children|] == v.children;
    hide Rooted, Laid, Kept, Hangs, Ranked, Widens, Evolves, Leads, CursorIs;
  }

  // ---- A replacement -----------------------------------------------------------------------------------------

  lemma {:induction false} OneNode(r: Instance)
    requires Shaped(r) && (r.vnode.Text? || r.vnode.Host?)
    ensures |Nodes(r)| == 1
  {}

  lemma {:induction false} BuiltNew(d: Doc, e: Doc, r: Instance, v: VNode, c: Id)
    requires Built(d, e, r, v, c)
    ensures forall n :: n in Owned(r) ==> n !in d.labels && n in e.labels
    ensures forall n :: n in Nodes(r) ==> n !in d.labels && n in e.labels
  {
    NodesOwned(r);
  }

  lemma {:induction false} BuiltEvolves(d: Doc, e: Doc, r: Instance, v: VNode, c: Id, at: Option<Id>)
    requires Built(d, e, r, v, c) && e.kids[c] == InPlaceOf(d.kids[c], at, Nodes(r))
    ensures Evolves(d, e)
  {
    BuiltNew(d, e, r, v, c);
    InPlaceThins(d.kids[c], at, Nodes(r), d.labels.Keys);
    forall p | p in d.kids ensures Thins(d.kids[p], e.kids[p], d.labels.Keys) {}
  }

  /** Old nodes but the replaced one keep label, parent and, but for the container, children. */
  lemma {:induction false} BuiltKept(d: Doc, e: Doc, r: Instance, v: VNode, c: Id, at: Option<Id>, rank: map<Id, nat>,
                                     tops: seq<Id>, lv: nat)
    requires Built(d, e, r, v, c) && e.kids[c] == InPlaceOf(d.kids[c], at, Nodes(r))
    requires at.Some? && at.value in d.kids[c] ==> at.value in rank && rank[at.value] == lv && at.value in tops
    ensures Kept(d, e, rank, tops, lv, c)
  {
    BuiltNew(d, e, r, v, c);
    InPlaceMembers(d.kids[c], at, Nodes(r));
    forall m | m in d.labels && !Below(d, rank, m, tops, lv)
      ensures e.labels[m] == d.labels[m] && SameParent(d, e, m) &&
              (m != c && m in d.kids ==> m in e.kids && e.kids[m] == d.kids[m])
    {
      if at.Some? && at.value in d.kids[c] {
        NotBelowSelf(d, rank, at.value, tops, lv);
      }
      ParentSame(d, e, r, v, c, at, m);
    }
  }

  lemma {:induction false} DownOf(d: Doc, p: Id, n: Id)
    requires Consistent(d) && p in d.kids && n in d.kids[p]
    ensures n in d.labels && n in d.parent && d.parent[n] == p
  {}

  lemma {:induction false} UpOf(d: Doc, n: Id)
    requires Consistent(d) && n in d.parent
    ensures n in d.labels && d.parent[n] in d.labels && d.parent[n] in d.kids && n in d.kids[d.parent[n]]
  {}

  /** A node that was there has its parent only where it had it. */
  lemma {:induction false} KidsAround(d: Doc, e: Doc, r: Instance, v: VNode, c: Id, at: Option<Id>, p: Id, m: Id)
    requires Built(d, e, r, v, c) && e.kids[c] == InPlaceOf(d.kids[c], at, Nodes(r))
    requires m in d.labels && !(at == Some(m) && m in d.kids[c])
    ensures p in d.kids && m in d.kids[p] <==> p in e.kids && m in e.kids[p]
  {
    BuiltNew(d, e, r, v, c);
    InPlaceMembers(d.kids[c], at, Nodes(r));
    hide Mounted, Apart, Owned, Nodes, InPlaceOf;
  }

  lemma {:induction false} ParentSame(d: Doc, e: Doc, r: Instance, v: VNode, c: Id, at: Option<Id>, m: Id)
    requires Built(d, e, r, v, c) && e.kids[c] == InPlaceOf(d.kids[c], at, Nodes(r))
    requires m in d.labels && !(at == Some(m) && m in d.kids[c])
    ensures SameParent(d, e, m)
  {
    BuiltDocs(d, e, r, v, c);
    if m in d.parent {
      var q := d.parent[m];
      UpOf(d, m);
      KidsAround(d, e, r, v, c, at, q, m);
      DownOf(e, q, m);
    }
    if m in e.parent {
      var q := e.parent[m];
      UpOf(e, m);
      KidsAround(d, e, r, v, c, at, q, m);
      DownOf(d, q, m);
    }
    hide Built, Consistent, InPlaceOf, Nodes;
  }

  lemma {:induction false} BuiltDocs(d: Doc, e: Doc, r: Instance, v: VNode, c: Id)
    requires Built(d, e, r, v, c)
    ensures Consistent(d) && Consistent(e) && c in d.kids && c in e.kids
  {}

  /** Ranks of the old nodes and of the new ones go together. */
  lemma {:induction false} RanksJoin(d: Doc, e: Doc, rank: map<Id, nat>, depths: map<Id, nat>, c: Id, ns: seq<Id>)
    requires Ranked(d, rank) && Ranked(e, depths) && rank.Keys <= d.labels.Keys && c in rank
    requires (forall p :: p in depths ==> p !in d.labels && p in e.labels) && d.labels.Keys <= e.labels.Keys
    requires forall p :: p in d.labels && Branch(e, p) ==> Branch(d, p)
    requires forall p, n :: p in d.labels && p != c && p in d.kids && p in e.kids && n in e.kids[p] ==> n in d.kids[p]
    requires forall n :: c in d.kids && c in e.kids && n in e.kids[c] ==> n in d.kids[c] || n in ns
    requires forall p, n :: p in d.kids && n in d.kids[p] ==> n in d.labels
    requires Level(depths, ns, rank[c] + 1)
    ensures Ranked(e, rank + depths) && Widens(d, e, rank, rank + depths) && Level(rank + depths, ns, rank[c] + 1)
  {
    var rank' := rank + depths;
    forall p, n | Branch(e, p) && p in rank' && n in e.kids[p] ensures n in rank' && rank'[n] == rank'[p] + 1 {
      if p !in depths {
        assert p in rank && p in d.labels && Branch(d, p);
        if n !in d.kids[p] {
          assert p == c && n in ns;
        }
      }
    }
  }

  /** Around the new tree, only the children of `c` are not what they were. */
  lemma {:induction false} BuiltAround(d: Doc, e: Doc, r: Instance, v: VNode, c: Id)
    requires Built(d, e, r, v, c) && Branch(d, c)
    ensures Attached(e, r, c) && Apart(r)
    ensures (forall p :: p in Owned(r) ==> p !in d.labels && p in e.labels) && d.labels.Keys <= e.labels.Keys
    ensures forall p :: p in d.labels && Branch(e, p) ==> Branch(d, p)
    ensures forall p :: p in d.labels && p != c && p in d.kids && p in e.kids ==> e.kids[p] == d.kids[p]
    ensures forall p, n :: p in d.kids && n in d.kids[p] ==> n in d.labels
  {
    BuiltNew(d, e, r, v, c);
    assert forall p :: p in d.labels && p != c ==> e.labels[p] == d.labels[p] && e.kids[p] == d.kids[p];
    assert e.labels[c] == d.labels[c];
    hide Owned, Apart;
  }

  lemma {:induction false} BuiltRanks(d: Doc, e: Doc, r: Instance, v: VNode, c: Id, at: Option<Id>, rank: map<Id, nat>,
                                      lv: nat)
    requires Built(d, e, r, v, c) && e.kids[c] == InPlaceOf(d.kids[c], at, Nodes(r))
    requires Ranked(d, rank) && rank.Keys <= d.labels.Keys && c in rank && lv == rank[c] + 1 && Branch(d, c)
    ensures Ranked(e, rank + Depths(r, lv)) && Widens(d, e, rank, rank + Depths(r, lv))
    ensures Level(rank + Depths(r, lv), Nodes(r), lv)
  {
    BuiltAround(d, e, r, v, c);
    hide *;
    MountedRanked(e, r, c, lv);
    DepthsOwned(r, lv);
    InPlaceMembers(d.kids[c], at, Nodes(r));
    RanksJoin(d, e, rank, Depths(r, lv), c, Nodes(r));
  }

  lemma {:induction false} BuiltRanked(d: Doc, e: Doc, r: Instance, v: VNode, c: Id, at: Option<Id>, rank: map<Id, nat>,
                                       lv: nat)
    requires Built(d, e, r, v, c) && e.kids[c] == InPlaceOf(d.kids[c], at, Nodes(r))
    requires Ranked(d, rank) && rank.Keys <= d.labels.Keys && c in rank && lv == rank[c] + 1 && Branch(d, c)
    ensures var rank' := rank + Depths(r, lv);
            Ranked(e, rank') && Widens(d, e, rank, rank') && Hangs(e, rank', Owned(r), Nodes(r), lv)
  {
    BuiltRanks(d, e, r, v, c, at, rank, lv);
    NodesOwned(r);
    hide Ranked, Widens, Depths, InPlaceOf, Level, Hangs;
    AttachedApart(e, rank + Depths(r, lv), r, c, lv);
  }

  lemma {:induction false} BuiltLeads(d: Doc, e: Doc, r: Instance, v: VNode, c: Id, at: Option<Id>)
    requires Built(d, e, r, v, c) && e.kids[c] == InPlaceOf(d.kids[c], at, Nodes(r)) && |Nodes(r)| == 1
    ensures Leads(d, e, c, at, Nodes(r))
  {
    if at.Some? && at.value in d.kids[c] {
      BuiltNew(d, e, r, v, c);
      BuiltDocs(d, e, r, v, c);
      var m := Nodes(r)[0];
      assert Nodes(r) == [m] && m !in d.labels;
      KidsLabels(d, c);
      hide Built, Consistent, Before, InPlaceOf, Nodes;
      forall x | x in d.labels && (x == at.value || Before(d.kids[c], at.value, x)) ensures !Before(e.kids[c], x, m) {
        InPlaceLeads(d.kids[c], at.value, m, x);
      }
    }
  }

  lemma {:induction false} KidsLabels(d: Doc, c: Id)
    requires Consistent(d) && c in d.kids
    ensures NoDup(d.kids[c]) && forall n :: n in d.kids[c] ==> n in d.labels
  {}

  lemma {:induction false} InPlaceAt(a: seq<Id>, n: Id, b: seq<Id>, ns: seq<Id>)
    requires n !in a
    ensures InPlaceOf(a + [n] + b, Some(n), ns) == a + ns + b
  {
    var s := a + [n] + b;
    if a == [] {
      assert s[0] == n && s[1..] == b && [] + ns + b == ns + b;
    } else {
      assert s[0] == a[0] && s[1..] == a[1..] + [n] + b;
      InPlaceAt(a[1..], n, b, ns);
      assert [a[0]] + (a[1..] + ns + b) == a + ns + b;
    }
  }

  lemma {:induction false} InPlaceLast(s: seq<Id>, n: Option<Id>, ns: seq<Id>)
    requires n.None? || n.value !in s
    ensures InPlaceOf(s, n, ns) == s + ns
  {
    if s != [] {
      InPlaceLast(s[1..], n, ns);
    }
  }

  lemma {:induction false} BuiltLaid(d: Doc, e: Doc, c: Id, at: Option<Id>, s: seq<Id>, ns: seq<Id>)
    requires c in d.kids && c in e.kids && NoDup(d.kids[c]) && e.kids[c] == InPlaceOf(d.kids[c], at, ns) && |ns| == 1
    requires |s| <= |d.kids[c]| && d.kids[c] == d.kids[c][..|d.kids[c]| - |s|] + s
    requires if at.Some? then s != [] && s[0] == at.value else s == []
    ensures Laid(d, e, c, s, ns, if s == [] then 0 else 1)
  {
    var front := d.kids[c][..|d.kids[c]| - |s|];
    if at.None? {
      InPlaceLast(d.kids[c], at, ns);
      assert front == d.kids[c] && ns[0..] == ns && ns[..0] == [];
      assert front + [] + [] + ns == front + ns;
    } else {
      NoDupParts(front, s);
      assert s == [s[0]] + s[1..] && s[0] in s;
      assert d.kids[c] == front + [s[0]] + s[1..];
      assert s[0] !in front;
      InPlaceAt(front, s[0], s[1..], ns);
      assert ns[..1] == ns && ns[1..] == [];
      assert front + ns + s[1..] + [] == front + ns + s[1..];
    }
  }

  lemma {:induction false} ReplaceSettled(d: Doc, e: Doc, v: VNode, at: Option<Id>, s: seq<Id>, r: Instance,
                                          rank: map<Id, nat>, lv: nat, c: Id)
    requires Consistent(d) && (v.Text? || v.Host?) && |Nodes(r)| == 1
    requires (if at.Some? then s != [] && s[0] == at.value && !LinesUp(d, v, s[0]) && s[0] !in e.parent else s == [])
    requires Built(d, e, r, v, c) && e.kids[c] == InPlaceOf(d.kids[c], at, Nodes(r))
    requires Ranked(d, rank) && rank.Keys <= d.labels.Keys && c in rank && lv == rank[c] + 1 && Branch(d, c)
    requires |s| <= |d.kids[c]| && d.kids[c] == d.kids[c][..|d.kids[c]| - |s|] + s && Level(rank, s, lv)
    ensures Settled(d, e, v, s, r, rank, rank + Depths(r, lv), lv, c)
  {
    var t := if s == [] then 0 else 1;
    assert s != [] ==> s[0] in s && s[0] in s[..t];
    BuiltRanked(d, e, r, v, c, at, rank, lv);
    BuiltLaid(d, e, c, at, s, Nodes(r));
    BuiltKept(d, e, r, v, c, at, rank, s[..t], lv);
    hide InPlaceOf, Ranked, Hangs, Laid, Widens, Kept, Depths;
    AttachedSeated(e, r, c);
    hide Built;
  }

  /** A node that does not line up: the fresh tree in its place, or at the end. */
  lemma {:induction false} ReplaceSites(d: Doc, e: Doc, v: VNode, at: Option<Id>, s: seq<Id>, r: Instance,
                                        rank: map<Id, nat>, lv: nat, c: Id)
    requires Consistent(d) && (v.Text? || v.Host?) && s == Siblings(d, at) && (at.Some? ==> at.value in d.labels)
    requires at.Some? ==> !LinesUp(d, v, at.value)
    requires Built(d, e, r, v, c) && e.kids[c] == InPlaceOf(d.kids[c], at, Nodes(r))
    requires at.Some? && at.value in d.kids[c] ==> at.value !in e.parent
    ensures Sites(d, e, v, at, s, r, rank, rank + Depths(r, lv), lv, c)
  {
    OneNode(r);
    SiblingsFacts(d, at);
    BuiltEvolves(d, e, r, v, c, at);
    BuiltLeads(d, e, r, v, c, at);
    BuiltNew(d, e, r, v, c);
    assert Basics(d, e, v, r);
    hide InPlaceOf, Evolves, Leads, Rooted, Settled, Siblings, Basics, Depths, Smooth, LinesUp;
    assert Smooth(d, v, s) by { SingleSmooth(d, v, at, s); }
    if Rooted(d, rank, c, lv, at) {
      RootedParts(d, rank, c, lv, at);
      RootedLevel(d, rank, c, lv, at);
      ReplaceSettled(d, e, v, at, s, r, rank, lv, c);
    }
  }

  lemma {:induction false} SingleSmooth(d: Doc, v: VNode, at: Option<Id>, s: seq<Id>)
    requires (v.Text? || v.Host?) && (at.Some? ==> s != [] && s[0] == at.value && !LinesUp(d, v, at.value))
    requires at.None? ==> s == []
    ensures Smooth(d, v, s)
  {}

  // ---- An adopted element ------------------------------------------------------------------------------------

  lemma {:induction false} HangsUnder(d: Doc, rank: map<Id, nat>, owned: set<Id>, tops: seq<Id>, all: seq<Id>, k: nat)
    requires Hangs(d, rank, owned, tops, k) && forall t :: t in tops ==> t in all
    ensures Hangs(d, rank, owned, all, k)
  {}

  /** The element's own label is painted. */
  predicate Repainted(d: Doc, e: Doc, n: Id, v: VNode) {
    && v.Host? && n in d.labels && n in d.kids && d.labels[n].Element? && d.labels[n].tag == v.tag
    && e == d.(labels := d.labels[n := Element(v.tag, d.labels[n].props + v.props)])
  }

  lemma {:induction false} RepaintedRanked(d: Doc, e: Doc, n: Id, v: VNode, rank: map<Id, nat>, c: Id, lv: nat)
    requires Consistent(d) && Repainted(d, e, n, v) && n in rank && rank[n] == lv
    requires Ranked(d, rank) && rank.Keys <= d.labels.Keys
    ensures Consistent(e) && Rooted(e, rank, n, lv + 1, First(e, n))
    ensures forall m, tops :: Below(e, rank, m, tops, lv) <==> Below(d, rank, m, tops, lv)
    ensures forall m :: m in d.labels && Below(d, rank, m, d.kids[n], lv + 1) ==> m != n && Below(d, rank, m, [n], lv)
  {
    assert forall p :: Branch(e, p) <==> Branch(d, p);
    forall m | m in d.labels && Below(d, rank, m, d.kids[n], lv + 1) ensures m != n && Below(d, rank, m, [n], lv) {
      BelowParent(d, rank, m, n, lv);
    }
  }

  lemma {:induction false} RepaintedSmooth(d: Doc, e: Doc, n: Id, v: VNode, rank: map<Id, nat>, c: Id, lv: nat)
    requires Consistent(d) && Repainted(d, e, n, v) && n in rank && rank[n] == lv
    requires Ranked(d, rank) && rank.Keys <= d.labels.Keys
    ensures SmoothRow(d, v.children, d.kids[n], |v.children|) <==> SmoothRow(e, v.children, e.kids[n], |v.children|)
  {
    RepaintedRanked(d, e, n, v, rank, c, lv);
    LevelKids(d, n, rank);
    assert SameBelow(d, e, rank, d.kids[n], lv + 1);
    SmoothRowSame(d, e, rank, v.children, d.kids[n], lv + 1, |v.children|);
  }

  lemma {:induction false} ConsistentKeys(d: Doc)
    requires Consistent(d)
    ensures d.kids.Keys == d.labels.Keys
  {}

  lemma {:induction false} RepaintedKids(d: Doc, e: Doc, n: Id, v: VNode)
    requires Repainted(d, e, n, v)
    ensures n in d.kids && n in d.labels && e.kids == d.kids && d.labels.Keys == e.labels.Keys && d.labels[n].Element?
    ensures v.Host? && LinesUp(d, v, n) && n in e.labels && e.labels[n] == Element(v.tag, d.labels[n].props + v.props)
  {}

  /** Only what is below the element has changed. */
  lemma {:induction false} HostKept(d: Doc, e: Doc, f: Doc, n: Id, v: VNode, rank: map<Id, nat>, tops: seq<Id>, c: Id,
                                    lv: nat)
    requires Consistent(d) && Repainted(d, e, n, v) && n in rank && rank[n] == lv
    requires Ranked(d, rank) && rank.Keys <= d.labels.Keys && tops <= d.kids[n] && Kept(e, f, rank, tops, lv + 1, n)
    ensures Kept(d, f, rank, [n], lv, c)
  {
    RepaintedRanked(d, e, n, v, rank, c, lv);
    NotBelowSelf(d, rank, n, [n], lv);
    forall m | m in d.labels && !Below(d, rank, m, [n], lv)
      ensures f.labels[m] == d.labels[m] && SameParent(d, f, m) &&
              (m in d.kids ==> m in f.kids && f.kids[m] == d.kids[m])
    {
      if Below(e, rank, m, tops, lv + 1) {
        assert Below(d, rank, m, d.kids[n], lv + 1);
      }
      assert m != n && SameParent(e, f, m);
    }
  }

  lemma {:induction false} HostHung(f: Doc, n: Id, rs: seq<Instance>, rank': map<Id, nat>, lv: nat)
    requires Consistent(f) && Ranked(f, rank') && Branch(f, n) && n in rank' && rank'[n] == lv
    requires Hangs(f, rank', OwnedAll(rs), NodesAll(rs), lv + 1) && InOrder(f.kids[n], NodesAll(rs))
    ensures Hangs(f, rank', {n} + OwnedAll(rs), [n], lv)
  {
    HangsUnder(f, rank', OwnedAll(rs), NodesAll(rs), f.kids[n], lv + 1);
    HangsBelow(f, rank', OwnedAll(rs), n, lv);
    assert {n} + OwnedAll(rs) == OwnedAll(rs) + {n};
  }

  lemma {:induction false} HostAround(d: Doc, e: Doc, f: Doc, n: Id, v: VNode, rank: map<Id, nat>, tops: seq<Id>, c: Id,
                                      lv: nat)
    requires Repainted(d, e, n, v) && n in rank && rank[n] == lv && c in rank && lv == rank[c] + 1
    requires Branch(d, c) && Kept(e, f, rank, tops, lv + 1, n) && f.kids.Keys == f.labels.Keys
    ensures c in f.kids && f.kids[c] == d.kids[c] && n in f.labels && n in f.kids && f.labels[n] == e.labels[n] &&
            Branch(f, n)
  {
    assert !Below(e, rank, c, tops, lv + 1) && !Below(e, rank, n, tops, lv + 1) && c != n;
  }

  lemma {:induction false} RowSettledParts(e: Doc, f: Doc, vs: seq<VNode>, s: seq<Id>, rs: seq<Instance>,
                                           rank: map<Id, nat>, rank': map<Id, nat>, lv: nat, n: Id, k: nat)
                                             returns (t: nat)
    requires k <= |vs| && SettledRow(e, f, vs, s, rs, rank, rank', lv, n, k)
    ensures t == LayoutRow(e, vs, s, k).taken <= |s| && Laid(e, f, n, s, NodesAll(rs), t)
    ensures Kept(e, f, rank, s[..t], lv, n) && Ranked(f, rank') && Widens(e, f, rank, rank')
    ensures Hangs(f, rank', OwnedAll(rs), NodesAll(rs), lv) && SeatedAll(f, rs) && DressedAll(f, rs)
  {
    t := LayoutRow(e, vs, s, k).taken;
  }

  lemma {:induction false} HostDressed(e: Doc, f: Doc, v: VNode, n: Id, attrs: Props, rs: seq<Instance>)
    requires v.Host? && n in f.labels && n in f.kids && f.labels[n] == Element(v.tag, attrs + v.props)
    requires InOrder(f.kids[n], NodesAll(rs)) && SeatedAll(f, rs) && DressedAll(f, rs)
    ensures Seated(f, HostInst(v, n, rs)) && Dressed(f, HostInst(v, n, rs))
  {
    hide InOrder;
  }

  lemma {:induction false} HostHolds(d: Doc, e: Doc, f: Doc, v: VNode, n: Id, rs: seq<Instance>, rank: map<Id, nat>,
                                     rank': map<Id, nat>, c: Id, lv: nat)
    requires Consistent(d) && Consistent(f) && Repainted(d, e, n, v) && n in rank && rank[n] == lv
    requires Ranked(d, rank) && rank.Keys <= d.labels.Keys && c in rank && lv == rank[c] + 1 && Branch(d, c)
    requires n in e.kids && SettledRow(e, f, v.children, e.kids[n], rs, rank, rank', lv + 1, n, |v.children|)
    ensures c in f.kids && f.kids[c] == d.kids[c] && Branch(f, n) && f.labels[n] == e.labels[n]
    ensures Kept(d, f, rank, [n], lv, c) && Ranked(f, rank') && Widens(e, f, rank, rank')
    ensures InOrder(f.kids[n], NodesAll(rs)) && Hangs(f, rank', OwnedAll(rs), NodesAll(rs), lv + 1)
    ensures SeatedAll(f, rs) && DressedAll(f, rs)
  {
    hide *;
    ConsistentKeys(f);
    RepaintedKids(d, e, n, v);
    var kids := e.kids[n];
    var t := RowSettledParts(e, f, v.children, kids, rs, rank, rank', lv + 1, n, |v.children|);
    LaidOrder(e, f, n, kids, NodesAll(rs), t);
    HostAround(d, e, f, n, v, rank, kids[..t], c, lv);
    HostKept(d, e, f, n, v, rank, kids[..t], c, lv);
  }

  lemma {:induction false} SameRanks(d: Doc, e: Doc, f: Doc, rank: map<Id, nat>, rank': map<Id, nat>, n: Id)
    requires d.labels.Keys == e.labels.Keys && Widens(e, f, rank, rank') && n in rank
    ensures Widens(d, f, rank, rank') && n in rank' && rank'[n] == rank[n]
  {}

  lemma {:induction false} HostSettled(d: Doc, e: Doc, f: Doc, v: VNode, s: seq<Id>, rs: seq<Instance>,
                                       rank: map<Id, nat>, rank': map<Id, nat>, c: Id, lv: nat)
    requires Consistent(d) && Consistent(f) && s != [] && Repainted(d, e, s[0], v) && s[0] in rank && rank[s[0]] == lv
    requires Ranked(d, rank) && rank.Keys <= d.labels.Keys && c in rank && lv == rank[c] + 1 && Branch(d, c)
    requires |s| <= |d.kids[c]| && d.kids[c] == d.kids[c][..|d.kids[c]| - |s|] + s
    requires SettledRow(e, f, v.children, e.kids[s[0]], rs, rank, rank', lv + 1, s[0], |v.children|)
    ensures Settled(d, f, v, s, HostInst(v, s[0], rs), rank, rank', lv, c)
  {
    var n := s[0];
    var r := HostInst(v, n, rs);
    hide *;
    HostNodes(d, e, v, s, rs);
    RepaintedKids(d, e, n, v);
    BranchIn(d, c);
    HostHolds(d, e, f, v, n, rs, rank, rank', c, lv);
    SameRanks(d, e, f, rank, rank', n);
    HostHung(f, n, rs, rank', lv);
    BranchIn(f, n);
    HostDressed(e, f, v, n, d.labels[n].props, rs);
    LaidSame(d, f, c, s, 1);
    SettledIs(d, f, v, s, r, rank, rank', lv, c);
  }

  lemma {:induction false} HostNodes(d: Doc, e: Doc, v: VNode, s: seq<Id>, rs: seq<Instance>)
    requires s != [] && Repainted(d, e, s[0], v)
    ensures var r := HostInst(v, s[0], rs);
            Nodes(r) == [s[0]] && Owned(r) == {s[0]} + OwnedAll(rs) && s[..1] == [s[0]] &&
              Layout(d, v, s) == Lay(1, 0, false)
  {
    assert LinesUp(d, v, s[0]);
  }

  lemma {:induction false} SettledIs(d: Doc, e: Doc, v: VNode, s: seq<Id>, r: Instance, rank: map<Id, nat>,
                                     rank': map<Id, nat>, lv: nat, c: Id)
    requires var x := Layout(d, v, s);
             && Laid(d, e, c, s, Nodes(r), x.taken) && |Nodes(r)| == x.taken + x.extra
             && (x.taken > 0 ==> s != [] && Nodes(r) != [] && if x.lost then s[0] !in e.parent else Nodes(r)[0] == s[0])
             && x.taken <= |s| && Kept(d, e, rank, s[..x.taken], lv, c)
    requires Ranked(e, rank') && Widens(d, e, rank, rank')
    requires Hangs(e, rank', Owned(r), Nodes(r), lv) && Seated(e, r) && Dressed(e, r)
    ensures Settled(d, e, v, s, r, rank, rank', lv, c)
  {}

  lemma {:induction false} BranchIn(d: Doc, n: Id)
    requires Branch(d, n)
    ensures n in d.labels && n in d.kids
  {}

  lemma {:induction false} HostBasics(d: Doc, e: Doc, f: Doc, v: VNode, n: Id, rs: seq<Instance>)
    requires Repainted(d, e, n, v) && BasicsRow(e, f, v.children, rs, |v.children|)
    ensures Basics(d, f, v, HostInst(v, n, rs))
  {
    assert v.children[..|v.children|] == v.children;
    EvolvesSame(d, e);
    EvolvesTwice(d, e, f);
    assert n in f.labels;
    hide Evolves;
  }

  lemma {:induction false} SitesOf(d: Doc, e: Doc, v: VNode, start: Option<Id>, s: seq<Id>, r: Instance,
                                   rank: map<Id, nat>, rank': map<Id, nat>, lv: nat, c: Id)
    requires Basics(d, e, v, r) && Leads(d, e, c, start, Nodes(r))
    requires Rooted(d, rank, c, lv, start) ==>
               if Smooth(d, v, s) then Settled(d, e, v, s, r, rank, rank', lv, c) else !InPlace(e, r, c)
    ensures Sites(d, e, v, start, s, r, rank, rank', lv, c)
  {}

  lemma {:induction false} RowOf(d: Doc, e: Doc, vs: seq<VNode>, start: Option<Id>, s: seq<Id>, rs: seq<Instance>,
                                 cursor: Option<Id>, rank: map<Id, nat>, rank': map<Id, nat>, lv: nat, c: Id)
    requires SitesRow(d, e, vs, start, s, rs, cursor, rank, rank', lv, c, |vs|)
    ensures BasicsRow(d, e, vs, rs, |vs|)
    ensures Rooted(d, rank, c, lv, start) ==>
              if SmoothRow(d, vs, s, |vs|) then SettledRow(d, e, vs, s, rs, rank, rank', lv, c, |vs|)
              else !RowInPlace(e, rs, c)
  {}

  lemma {:induction false} HostOut(e: Doc, v: VNode, n: Id, rs: seq<Instance>, c: Id)
    requires !RowInPlace(e, rs, n)
    ensures !InPlace(e, HostInst(v, n, rs), c)
  {
    hide InOrder;
  }

  lemma {:induction false} HostSites(d: Doc, e: Doc, f: Doc, v: VNode, start: Option<Id>, s: seq<Id>, rs: seq<Instance>,
                                     cursor: Option<Id>, rank: map<Id, nat>, rank': map<Id, nat>, lv: nat, c: Id)
    requires Consistent(d) && Consistent(f) && start.Some? && Repainted(d, e, start.value, v) && s == Siblings(d, start)
    requires SitesRow(e, f, v.children, First(e, start.value), e.kids[start.value], rs, cursor, rank, rank', lv + 1,
                      start.value, |v.children|)
    ensures Sites(d, f, v, start, s, HostInst(v, start.value, rs), rank, rank', lv, c)
  {
    var n := start.value;
    var r := HostInst(v, n, rs);
    assert Nodes(r) == [n] && n in d.labels && n in d.kids && e.kids == d.kids;
    hide *;
    SiblingsFacts(d, start);
    RowOf(e, f, v.children, First(e, n), e.kids[n], rs, cursor, rank, rank', lv + 1, n);
    HostBasics(d, e, f, v, n, rs);
    BasicsEvolves(d, f, v, r);
    SelfLeads(d, f, c, n);
    if Rooted(d, rank, c, lv, start) {
      RootedParts(d, rank, c, lv, start);
      RootedLevel(d, rank, c, lv, start);
      LevelAt(rank, s, lv, n);
      RepaintedRanked(d, e, n, v, rank, c, lv);
      RepaintedSmooth(d, e, n, v, rank, c, lv);
      HostSmooth(d, e, v, s);
      if Smooth(d, v, s) {
        HostSettled(d, e, f, v, s, rs, rank, rank', c, lv);
      } else {
        HostOut(f, v, n, rs, c);
      }
    }
    SitesOf(d, f, v, start, s, r, rank, rank', lv, c);
  }

  lemma {:induction false} LevelAt(rank: map<Id, nat>, s: seq<Id>, lv: nat, n: Id)
    requires Level(rank, s, lv) && s != [] && s[0] == n
    ensures n in rank && rank[n] == lv
  {
    assert n in s;
  }

  lemma {:induction false} BasicsEvolves(d: Doc, e: Doc, v: VNode, r: Instance)
    requires Basics(d, e, v, r)
    ensures Evolves(d, e)
  {}

  lemma {:induction false} HostSmooth(d: Doc, e: Doc, v: VNode, s: seq<Id>)
    requires s != [] && Repainted(d, e, s[0], v)
    ensures Smooth(d, v, s) <==> SmoothRow(d, v.children, d.kids[s[0]], |v.children|)
  {
    assert LinesUp(d, v, s[0]);
    hide SmoothRow;
  }
}
