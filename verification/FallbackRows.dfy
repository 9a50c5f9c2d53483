/** One more tree of a row, from wherever the cursor stands.

    The cursor of a row is on the next sibling while every tree so far took over as many siblings as it
    has nodes. It is past the last once a node was replaced ahead of the end of a tree, or once the
    siblings are used up: from then on trees are mounted at the end. It is astray when a nested group
    has sent nodes to the end and the outer cursor, moved on by as many steps as the group has nodes,
    has come to stand on some other node of the container. `StepAt` is the step from the next sibling,
    `StepEnd` the one from past the last, and from an astray cursor only a tree without nodes keeps the
    row in order: any other one takes over or replaces a node that comes later than what the row sent
    to the end. `RowGoesOn` puts the three together, and `RowBegins` starts the row. */
module FallbackRows {
  import opened Prelude
  import opened Dom
  import opened VTree
  import opened ClientRuntime
  import opened Adoption
  import opened Depth
  import opened Siting
  import opened Fallback

  // ---- The beginning -------------------------------------------------------------------------------------

  lemma {:induction false} RowSettledIs(d: Doc, e: Doc, vs: seq<VNode>, s: seq<Id>, rs: seq<Instance>,
                                        rank: map<Id, nat>,
                                        rank': map<Id, nat>, lv: nat, c: Id, k: nat)
    requires k <= |vs|
    requires var p, ns := LayoutRow(d, vs, s, k), NodesAll(rs);
             && Laid(d, e, c, s, ns, p.taken) && |ns| == p.taken + p.extra
             && (p.taken > 0 ==> s != [] && ns != [] && if p.lost then s[0] !in e.parent else ns[0] == s[0])
             && p.taken <= |s| && Kept(d, e, rank, s[..p.taken], lv, c)
    requires Ranked(e, rank') && Widens(d, e, rank, rank')
    requires Hangs(e, rank', OwnedAll(rs), NodesAll(rs), lv) && SeatedAll(e, rs) && DressedAll(e, rs)
    ensures SettledRow(d, e, vs, s, rs, rank, rank', lv, c, k)
  {}

  lemma {:induction false} RowBegins(d: Doc, vs: seq<VNode>, start: Option<Id>, s: seq<Id>, rank: map<Id, nat>, lv: nat,
                                     c: Id)
    requires Consistent(d) && s == Siblings(d, start) && (start.Some? ==> start.value in d.labels)
    ensures SitesRow(d, d, vs, start, s, [], start, rank, rank, lv, c, 0)
  {
    EvolvesSame(d, d);
    assert BasicsRow(d, d, vs, [], 0);
    hide *;
    RowBegun(d, vs, start, s, rank, lv, c);
    SitesRowIs(d, d, vs, start, s, [], start, rank, rank, lv, c, 0);
  }

  lemma {:induction false} SitesRowIs(d: Doc, e: Doc, vs: seq<VNode>, start: Option<Id>, s: seq<Id>, rs: seq<Instance>,
                                      cursor: Option<Id>, rank: map<Id, nat>, rank': map<Id, nat>, lv: nat, c: Id,
                                        k: nat)
    requires k <= |vs| && BasicsRow(d, e, vs, rs, k) && Leads(d, e, c, start, NodesAll(rs))
    requires NodesAll(rs) == [] ==> e == d && cursor == start
    requires Rooted(d, rank, c, lv, start) ==>
               if SmoothRow(d, vs, s, k)
               then SettledRow(d, e, vs, s, rs, rank, rank', lv, c, k)
                    && CursorIs(e, s, LayoutRow(d, vs, s, k), c, NodesAll(rs), cursor)
               else !RowInPlace(e, rs, c)
    ensures SitesRow(d, e, vs, start, s, rs, cursor, rank, rank', lv, c, k)
  {}

  lemma {:induction false} RowBegun(d: Doc, vs: seq<VNode>, start: Option<Id>, s: seq<Id>, rank: map<Id, nat>, lv: nat,
                                    c: Id)
    requires Consistent(d) && s == Siblings(d, start) && (start.Some? ==> start.value in d.labels)
    ensures NodesAll([]) == [] && Leads(d, d, c, start, NodesAll([])) && SmoothRow(d, vs, s, 0)
    ensures Rooted(d, rank, c, lv, start) ==>
              SettledRow(d, d, vs, s, [], rank, rank, lv, c, 0) && CursorIs(d, s, LayoutRow(d, vs, s, 0), c, [], start)
  {
    SiblingsFacts(d, start);
    hide Siblings, Settled, SettledRow, Rooted;
    if Rooted(d, rank, c, lv, start) {
      RootedParts(d, rank, c, lv, start);
      RootedLevel(d, rank, c, lv, start);
      NothingKept(d, rank, lv, c);
      assert s[..0] == [];
      LaidSame(d, d, c, s, 0);
      assert NodesAll([]) == [] && OwnedAll([]) == {};
      hide Ranked, Level, Kept, Widens, Hangs, Laid, Consistent;
      RowSettledIs(d, d, vs, s, [], rank, rank, lv, c, 0);
    }
  }

  // ---- One more tree -------------------------------------------------------------------------------------

  /** What the row has done stays, and the next tree adds to it. */
  lemma {:induction false} JoinParts(d: Doc, e: Doc, f: Doc, rs: seq<Instance>, r: Instance, ranks: seq<map<Id, nat>>,
                                     a: seq<Id>, b: seq<Id>, lv: nat, c: Id)
    requires Consistent(d) && Consistent(e) && Consistent(f) && |ranks| == 3
    requires Kept(d, e, ranks[0], a, lv, c) && Kept(e, f, ranks[1], b, lv, c)
    requires Widens(d, e, ranks[0], ranks[1]) && Widens(e, f, ranks[1], ranks[2])
    requires Hangs(e, ranks[1], OwnedAll(rs), NodesAll(rs), lv) && Hangs(f, ranks[2], Owned(r), Nodes(r), lv)
    requires (forall n :: n in NodesAll(rs) ==> n !in b) && c in ranks[1] && ranks[1][c] < lv
    requires SeatedAll(e, rs) && DressedAll(e, rs) && Seated(f, r) && Dressed(f, r)
    ensures Kept(d, f, ranks[0], a + b, lv, c) && Widens(d, f, ranks[0], ranks[2])
    ensures Hangs(f, ranks[2], OwnedAll(rs + [r]), NodesAll(rs + [r]), lv)
    ensures SeatedAll(f, rs + [r]) && DressedAll(f, rs + [r])
  {
    hide *;
    ConsistentKeys(d);
    ConsistentKeys(e);
    ConsistentKeys(f);
    KeptTwice(d, e, f, ranks[0], ranks[1], a, b, lv, c);
    KeptLabels(d, e, ranks[0], a, lv, c);
    WidensTwice(d, e, f, ranks[0], ranks[1], ranks[2]);
    HangsKept(e, f, ranks[1], ranks[2], b, lv, c, OwnedAll(rs), NodesAll(rs));
    KeptOn(e, f, ranks[1], b, lv, c, OwnedAll(rs), NodesAll(rs));
    SeatedKeptAll(e, f, rs);
    HangsJoin(f, ranks[2], rs, r, lv);
    OneMore(f, rs, r);
  }

  lemma {:induction false} KeptLabels(d: Doc, e: Doc, rank: map<Id, nat>, s: seq<Id>, lv: nat, c: Id)
    requires Kept(d, e, rank, s, lv, c)
    ensures d.labels.Keys <= e.labels.Keys && e.next >= d.next
  {}

  lemma {:induction false} KeptOn(e: Doc, f: Doc, rank: map<Id, nat>, s: seq<Id>, lv: nat, c: Id, owned: set<Id>,
                                  tops: seq<Id>)
    requires Kept(e, f, rank, s, lv, c) && e.kids.Keys == e.labels.Keys && c in rank && rank[c] < lv
    requires Hangs(e, rank, owned, tops, lv) && forall m :: m in owned ==> !Below(e, rank, m, s, lv)
    ensures SameOn(e, f, owned)
  {
    forall m | m in owned ensures m != c && m in e.labels {
      assert Below(e, rank, m, tops, lv);
    }
  }

  lemma {:induction false} HangsJoin(f: Doc, rank: map<Id, nat>, rs: seq<Instance>, r: Instance, lv: nat)
    requires Hangs(f, rank, OwnedAll(rs), NodesAll(rs), lv) && Hangs(f, rank, Owned(r), Nodes(r), lv)
    ensures Hangs(f, rank, OwnedAll(rs + [r]), NodesAll(rs + [r]), lv)
  {
    OwnedAllAppend(rs, r);
    NodesAllOne(rs, r);
    hide OwnedAll, NodesAll, Owned, Nodes;
  }

  lemma {:induction false} OneMore(f: Doc, rs: seq<Instance>, r: Instance)
    requires SeatedAll(f, rs) && DressedAll(f, rs) && Seated(f, r) && Dressed(f, r)
    ensures SeatedAll(f, rs + [r]) && DressedAll(f, rs + [r])
  {
    hide Seated, Dressed;
  }

  lemma {:induction false} SettledParts(e: Doc, f: Doc, v: VNode, s: seq<Id>, r: Instance, rank: map<Id, nat>,
                                        rank': map<Id, nat>, lv: nat, c: Id) returns (x: Lay)
    requires Settled(e, f, v, s, r, rank, rank', lv, c)
    ensures x == Layout(e, v, s) && x.taken <= |s| && Laid(e, f, c, s, Nodes(r), x.taken) &&
            |Nodes(r)| == x.taken + x.extra
    ensures x.taken > 0 ==> s != [] && Nodes(r) != [] && if x.lost then s[0] !in f.parent else Nodes(r)[0] == s[0]
    ensures Kept(e, f, rank, s[..x.taken], lv, c) && Ranked(f, rank') && Widens(e, f, rank, rank')
    ensures Hangs(f, rank', Owned(r), Nodes(r), lv) && Seated(f, r) && Dressed(f, r)
    ensures x.lost ==> x.taken > 0
    ensures x.extra > 0 && s != [] ==> x.taken > 0
  {
    x := Layout(e, v, s);
  }

  lemma {:induction false} RowHas(d: Doc, e: Doc, vs: seq<VNode>, s: seq<Id>, rs: seq<Instance>, rank: map<Id, nat>,
                                     rank': map<Id, nat>, lv: nat, c: Id, k: nat) returns (p: RowLay)
    requires k <= |vs| && SettledRow(d, e, vs, s, rs, rank, rank', lv, c, k)
    ensures p == LayoutRow(d, vs, s, k) && p.taken <= |s| && Laid(d, e, c, s, NodesAll(rs), p.taken)
    ensures |NodesAll(rs)| == p.taken + p.extra
    ensures p.taken > 0 ==> s != [] && NodesAll(rs) != [] && if p.lost then s[0] !in e.parent
            else NodesAll(rs)[0] == s[0]
    ensures Kept(d, e, rank, s[..p.taken], lv, c) && Ranked(e, rank') && Widens(d, e, rank, rank')
    ensures Hangs(e, rank', OwnedAll(rs), NodesAll(rs), lv) && SeatedAll(e, rs) && DressedAll(e, rs)
    ensures p.at.At? ==> p.taken < |s| && p.extra == 0
  {
    p := LayoutRow(d, vs, s, k);
  }

  // ---- The cursor on the next sibling --------------------------------------------------------------------

  function Front(d: Doc, c: Id, s: seq<Id>): seq<Id>
    requires c in d.kids && |s| <= |d.kids[c]|
  {
    d.kids[c][..|d.kids[c]| - |s|]
  }

  lemma {:induction false} LaidKids(d: Doc, e: Doc, c: Id, s: seq<Id>, ns: seq<Id>, t: nat)
    requires Laid(d, e, c, s, ns, t) && |ns| == t < |s|
    ensures c in e.kids && e.kids[c] == Front(d, c, s) + ns + s[t..]
  {
    assert ns[..t] == ns && ns[t..] == [];
    assert Front(d, c, s) + ns + s[t..] + [] == Front(d, c, s) + ns + s[t..];
  }

  lemma {:induction false} TailAt(kids: seq<Id>, ahead: seq<Id>, tail: seq<Id>)
    requires NoDup(kids) && kids == ahead + tail && tail != []
    ensures kids[|ahead|] == tail[0] && kids[|ahead|..] == tail && kids[..|kids| - |tail|] == ahead && tail[0] in kids
    ensures SuffixFrom(kids, tail[0]) == tail && forall n :: n in ahead ==> n !in tail
  {
    SuffixAt(kids, |ahead|);
    NoDupParts(ahead, tail);
    hide NoDup;
  }

  lemma {:induction false} KidSiblings(e: Doc, c: Id, n: Id)
    requires Consistent(e) && c in e.kids && n in e.kids[c]
    ensures n in e.labels && NoDup(e.kids[c]) && Siblings(e, Some(n)) == SuffixFrom(e.kids[c], n)
  {}

  lemma {:induction false} AtSiblings(d: Doc, e: Doc, c: Id, s: seq<Id>, ns: seq<Id>, t: nat)
    requires Consistent(e) && Laid(d, e, c, s, ns, t) && |ns| == t < |s|
    ensures s[t] in e.labels && s[t] in e.kids[c] && Siblings(e, Some(s[t])) == s[t..]
    ensures |s[t..]| <= |e.kids[c]| && Front(e, c, s[t..]) == Front(d, c, s) + ns
    ensures forall n :: n in ns ==> n !in s[t..]
  {
    LaidKids(d, e, c, s, ns, t);
    var ahead := Front(d, c, s) + ns;
    assert c in e.kids && NoDup(e.kids[c]) && s[t..][0] == s[t];
    TailAt(e.kids[c], ahead, s[t..]);
    hide Consistent, NoDup, Siblings, Laid, SuffixFrom;
    KidSiblings(e, c, s[t]);
    assert forall n :: n in ns ==> n in ahead;
  }

  lemma {:induction false} LaidTwice(d: Doc, e: Doc, f: Doc, c: Id, s: seq<Id>, ns: seq<Id>, t: nat, new': seq<Id>,
                                     x: nat)
    requires Laid(d, e, c, s, ns, t) && |ns| == t < |s| && |s[t..]| <= |e.kids[c]| &&
             Front(e, c, s[t..]) == Front(d, c, s) + ns
    requires Laid(e, f, c, s[t..], new', x)
    ensures Laid(d, f, c, s, ns + new', t + x) && s[..t + x] == s[..t] + s[t..][..x]
  {
    var front := Front(d, c, s);
    assert (ns + new')[..t + x] == ns + new'[..x] && (ns + new')[t + x..] == new'[x..];
    assert s[t..][x..] == s[t + x..];
    assert (front + ns) + new'[..x] + s[t + x..] + new'[x..] == front + (ns + new'[..x]) + s[t + x..] + new'[x..];
  }

  /** What the row has not reached is as it was. */
  lemma {:induction false} RestSame(d: Doc, e: Doc, rank: map<Id, nat>, s: seq<Id>, t: nat, lv: nat, c: Id)
    requires t <= |s| && Kept(d, e, rank, s[..t], lv, c) && NoDup(s) && Level(rank, s, lv) && c in rank && rank[c] < lv
    ensures SameBelow(d, e, rank, s[t..], lv) && Level(rank, s[t..], lv)
  {
    assert s == s[..t] + s[t..];
    NoDupParts(s[..t], s[t..]);
    forall m | m in d.labels && Below(d, rank, m, s[t..], lv) ensures !Below(d, rank, m, s[..t], lv) && m != c {}
  }

  lemma {:induction false} CursorMoves(f: Doc, c: Id, front: seq<Id>, rest: seq<Id>, new': seq<Id>, x: Lay, y: Id,
                                       cursor: Option<Id>)
    requires Consistent(f) && c in f.kids && x.taken <= |rest| && |new'| == x.taken + x.extra && rest != [] &&
             rest[0] == y
    requires f.kids[c] == front + new'[..x.taken] + rest[x.taken..] + new'[x.taken..] && y in f.labels
    requires x.extra > 0 ==> x.taken > 0
    requires x.lost ==> x.taken > 0
    requires x.taken > 0 ==> if x.lost then y !in f.parent else new'[0] == y
    requires cursor.Some? ==> cursor.value in f.labels
    requires Siblings(f, cursor) == Skip(Siblings(f, Some(y)), |new'|)
    ensures if x.taken + x.extra == 0 then cursor == Some(y)
            else if x.lost || x.taken == |rest| then cursor.None?
            else if x.extra > 0 then cursor.Some? && cursor.value in f.kids[c]
            else cursor == Some(rest[x.taken])
  {
    SiblingsFacts(f, cursor);
    SiblingsFacts(f, Some(y));
    var kids, tail := f.kids[c], new'[..x.taken] + rest[x.taken..] + new'[x.taken..];
    if x.taken + x.extra == 0 {
      assert Siblings(f, cursor) == Siblings(f, Some(y));
    } else if x.lost {
      assert Siblings(f, Some(y)) == [y];
    } else {
      assert kids == front + tail && tail[0] == y && kids[|front|] == y;
      SuffixAt(kids, |front|);
      assert kids[|front|..] == tail;
      assert y in kids && f.parent[y] == c;
      assert Siblings(f, Some(y)) == tail;
      if x.taken < |rest| {
        assert |tail| > |new'| && tail[|new'|..][0] == tail[|new'|];
        assert tail[|new'|] == kids[|front| + |new'|];
        if x.extra == 0 {
          assert tail[|new'|] == rest[x.taken];
        }
      }
    }
  }

  lemma {:induction false} LostKept(e: Doc, f: Doc, rank: map<Id, nat>, b: seq<Id>, lv: nat, c: Id, n: Id)
    requires Kept(e, f, rank, b, lv, c) && n in e.labels && n in rank && rank[n] == lv && n !in b && n !in e.parent
    ensures n !in f.parent
  {
    NotBelowSelf(e, rank, n, b, lv);
    assert SameParent(e, f, n);
  }

  function RowMore(p: RowLay, x: Lay, n: nat): RowLay {
    RowLay(p.taken + x.taken, p.extra + x.extra, if p.taken == 0 then x.lost else p.lost,
           if x.taken + x.extra == 0 then At
           else if x.lost || p.taken + x.taken == n then End
           else if x.extra > 0 then Astray
           else At)
  }

  /** The layout of a row with one more tree, by where its cursor was. */
  lemma {:induction false} RowLayAt(d: Doc, vs: seq<VNode>, s: seq<Id>, k: nat, x: Lay)
    requires k < |vs| && LayoutRow(d, vs, s, k).at.At? && x == Layout(d, vs[k], s[LayoutRow(d, vs, s, k).taken..])
    ensures LayoutRow(d, vs, s, k + 1) == RowMore(LayoutRow(d, vs, s, k), x, |s|)
  {}

  lemma {:induction false} RowLayOff(d: Doc, vs: seq<VNode>, s: seq<Id>, k: nat)
    requires k < |vs| && !LayoutRow(d, vs, s, k).at.At?
    ensures LayoutRow(d, vs, s, k + 1)
            == LayoutRow(d, vs, s, k).(extra := LayoutRow(d, vs, s, k).extra + |Render(vs[k])|)
  {}

  /** The first node of the row is the first sibling, or that one is gone. */
  lemma {:induction false} HeadOf(f: Doc, s: seq<Id>, ns: seq<Id>, new': seq<Id>, p: RowLay, x: Lay)
    requires p.taken == |ns| <= |s| && p.taken + x.taken <= |s| && |new'| == x.taken + x.extra
    requires p.taken > 0 ==> if p.lost then s[0] !in f.parent else ns[0] == s[0]
    requires p.taken < |s| && x.taken > 0 ==>
               if x.lost then s[p.taken..][0] !in f.parent else new'[0] == s[p.taken..][0]
    ensures var q := RowMore(p, x, |s|);
            && q.taken <= |s| && |ns + new'| == q.taken + q.extra - p.extra
            && (q.taken > 0 ==>
                  s != [] && ns + new' != [] && if q.lost then s[0] !in f.parent else (ns + new')[0] == s[0])
  {}

  lemma {:induction false} StepAtLaid(d: Doc, e: Doc, f: Doc, vs: seq<VNode>, s: seq<Id>, rs: seq<Instance>,
                                      r: Instance, ranks: seq<map<Id, nat>>, lv: nat, c: Id, k: nat)
    requires k < |vs| && |ranks| == 3 && Consistent(d) && Consistent(e) && Consistent(f)
    requires NoDup(s) && Level(ranks[0], s, lv) && c in ranks[0] && ranks[0][c] < lv
    requires SettledRow(d, e, vs, s, rs, ranks[0], ranks[1], lv, c, k) && LayoutRow(d, vs, s, k).at.At?
    requires var rest := s[LayoutRow(d, vs, s, k).taken..];
             Settled(e, f, vs[k], rest, r, ranks[1], ranks[2], lv, c) &&
               Layout(e, vs[k], rest) == Layout(d, vs[k], rest)
    ensures var q, ns := LayoutRow(d, vs, s, k + 1), NodesAll(rs + [r]);
            && Laid(d, f, c, s, ns, q.taken) && |ns| == q.taken + q.extra && q.taken <= |s|
            && (q.taken > 0 ==> s != [] && ns != [] && if q.lost then s[0] !in f.parent else ns[0] == s[0])
  {
    hide *;
    var p := RowHas(d, e, vs, s, rs, ranks[0], ranks[1], lv, c, k);
    var t, ns, new' := p.taken, NodesAll(rs), Nodes(r);
    var x := SettledParts(e, f, vs[k], s[t..], r, ranks[1], ranks[2], lv, c);
    AtSiblings(d, e, c, s, ns, t);
    LaidTwice(d, e, f, c, s, ns, t, new', x.taken);
    RowLayAt(d, vs, s, k, x);
    NodesAllOne(rs, r);
    assert t > 0 && p.lost ==> s[0] !in f.parent by {
      if t > 0 && p.lost {
        HeadRank(d, e, ranks[0], ranks[1], s, lv);
        HeadAside(s, t, x.taken);
        HeadIn(e, ranks[1], s[0]);
        LostKept(e, f, ranks[1], s[t..][..x.taken], lv, c, s[0]);
      }
    }
    RowMoreIs(p, x, |s|);
    HeadOf(f, s, ns, new', p, x);
  }

  lemma {:induction false} StepAtKept(d: Doc, e: Doc, f: Doc, vs: seq<VNode>, s: seq<Id>, rs: seq<Instance>,
                                      r: Instance, ranks: seq<map<Id, nat>>, lv: nat, c: Id, k: nat)
    requires k < |vs| && |ranks| == 3 && Consistent(d) && Consistent(e) && Consistent(f)
    requires NoDup(s) && Level(ranks[0], s, lv) && c in ranks[0] && ranks[0][c] < lv
    requires SettledRow(d, e, vs, s, rs, ranks[0], ranks[1], lv, c, k) && LayoutRow(d, vs, s, k).at.At?
    requires var rest := s[LayoutRow(d, vs, s, k).taken..];
             Settled(e, f, vs[k], rest, r, ranks[1], ranks[2], lv, c) &&
               Layout(e, vs[k], rest) == Layout(d, vs[k], rest)
    ensures var q := LayoutRow(d, vs, s, k + 1);
            && q.taken <= |s| && Kept(d, f, ranks[0], s[..q.taken], lv, c) && Ranked(f, ranks[2])
            && Widens(d, f, ranks[0], ranks[2]) && Hangs(f, ranks[2], OwnedAll(rs + [r]), NodesAll(rs + [r]), lv)
            && SeatedAll(f, rs + [r]) && DressedAll(f, rs + [r])
  {
    hide *;
    var p := RowHas(d, e, vs, s, rs, ranks[0], ranks[1], lv, c, k);
    var t, ns, new' := p.taken, NodesAll(rs), Nodes(r);
    var x := SettledParts(e, f, vs[k], s[t..], r, ranks[1], ranks[2], lv, c);
    AtSiblings(d, e, c, s, ns, t);
    RowLayAt(d, vs, s, k, x);
    RowMoreIs(p, x, |s|);
    WidenedRank(d, e, ranks[0], ranks[1], c);
    assert forall n :: n in s[t..][..x.taken] ==> n in s[t..];
    JoinParts(d, e, f, rs, r, ranks, s[..t], s[t..][..x.taken], lv, c);
    assert s[..t] + s[t..][..x.taken] == s[..t + x.taken];
  }

  lemma {:induction false} StepAt(d: Doc, e: Doc, f: Doc, vs: seq<VNode>, s: seq<Id>, rs: seq<Instance>, r: Instance,
                                  ranks: seq<map<Id, nat>>, lv: nat, c: Id, k: nat)
    requires k < |vs| && |ranks| == 3 && Consistent(d) && Consistent(e) && Consistent(f)
    requires NoDup(s) && Level(ranks[0], s, lv) && c in ranks[0] && ranks[0][c] < lv
    requires SettledRow(d, e, vs, s, rs, ranks[0], ranks[1], lv, c, k) && LayoutRow(d, vs, s, k).at.At?
    requires var rest := s[LayoutRow(d, vs, s, k).taken..];
             Settled(e, f, vs[k], rest, r, ranks[1], ranks[2], lv, c) &&
               Layout(e, vs[k], rest) == Layout(d, vs[k], rest)
    ensures SettledRow(d, f, vs, s, rs + [r], ranks[0], ranks[2], lv, c, k + 1)
  {
    hide *;
    StepAtLaid(d, e, f, vs, s, rs, r, ranks, lv, c, k);
    StepAtKept(d, e, f, vs, s, rs, r, ranks, lv, c, k);
    RowSettledIs(d, f, vs, s, rs + [r], ranks[0], ranks[2], lv, c, k + 1);
  }

  lemma {:induction false} RowMoreIs(p: RowLay, x: Lay, n: nat)
    ensures var q := RowMore(p, x, n);
            q.taken == p.taken + x.taken && q.extra == p.extra + x.extra && q.lost == if p.taken == 0 then x.lost
              else p.lost
  {}

  lemma {:induction false} WidenedRank(d: Doc, e: Doc, a: map<Id, nat>, b: map<Id, nat>, n: Id)
    requires Widens(d, e, a, b) && n in a
    ensures n in b && b[n] == a[n]
  {}

  lemma {:induction false} HeadRank(d: Doc, e: Doc, a: map<Id, nat>, b: map<Id, nat>, s: seq<Id>, lv: nat)
    requires Widens(d, e, a, b) && s != [] && Level(a, s, lv)
    ensures s[0] in b && b[s[0]] == lv && b.Keys <= e.labels.Keys
  {
    assert s[0] in s;
  }

  lemma {:induction false} HeadAside(s: seq<Id>, t: nat, x: nat)
    requires NoDup(s) && 0 < t <= |s| && x <= |s[t..]|
    ensures s[0] !in s[t..][..x]
  {
    hide NoDup;
    assert s == [s[0]] + s[1..];
    NoDupCons(s[0], s[1..]);
    assert forall n :: n in s[t..][..x] ==> n in s[1..];
  }

  lemma {:induction false} HeadIn(e: Doc, rank: map<Id, nat>, n: Id)
    requires n in rank && rank.Keys <= e.labels.Keys
    ensures n in e.labels
  {}

  lemma {:induction false} StepEnd(d: Doc, e: Doc, f: Doc, vs: seq<VNode>, s: seq<Id>, rs: seq<Instance>, r: Instance,
                                   ranks: seq<map<Id, nat>>, lv: nat, c: Id, k: nat)
    requires k < |vs| && |ranks| == 3 && Consistent(d) && Consistent(e) && Consistent(f)
    requires NoDup(s) && Level(ranks[0], s, lv) && c in ranks[0] && ranks[0][c] < lv
    requires SettledRow(d, e, vs, s, rs, ranks[0], ranks[1], lv, c, k) && !LayoutRow(d, vs, s, k).at.At?
    requires exists rest ::
               Settled(e, f, vs[k], rest, r, ranks[1], ranks[2], lv, c) && Appends(e, f, vs[k], rest, c, Nodes(r))
    ensures SettledRow(d, f, vs, s, rs + [r], ranks[0], ranks[2], lv, c, k + 1)
  {
    hide *;
    var rest :| Settled(e, f, vs[k], rest, r, ranks[1], ranks[2], lv, c) && Appends(e, f, vs[k], rest, c, Nodes(r));
    var p := RowHas(d, e, vs, s, rs, ranks[0], ranks[1], lv, c, k);
    var x := SettledParts(e, f, vs[k], rest, r, ranks[1], ranks[2], lv, c);
    LaidAppends(d, e, f, vs[k], rest, c, s, NodesAll(rs), p.taken, Nodes(r));
    RowLayOff(d, vs, s, k);
    NodesAllOne(rs, r);
    WidenedRank(d, e, ranks[0], ranks[1], c);
    assert rest[..x.taken] == [];
    JoinParts(d, e, f, rs, r, ranks, s[..p.taken], rest[..x.taken], lv, c);
    assert s[..p.taken] + [] == s[..p.taken];
    if p.taken > 0 && p.lost {
      HeadRank(d, e, ranks[0], ranks[1], s, lv);
      HeadIn(e, ranks[1], s[0]);
      LostKept(e, f, ranks[1], [], lv, c, s[0]);
    }
    RowSettledIs(d, f, vs, s, rs + [r], ranks[0], ranks[2], lv, c, k + 1);
  }

  /** The tree takes over no sibling, and its nodes are the last ones. */
  ghost predicate Appends(e: Doc, f: Doc, v: VNode, rest: seq<Id>, c: Id, new': seq<Id>) {
    && Layout(e, v, rest).taken == 0 && |new'| == |Render(v)|
    && c in e.kids && c in f.kids && f.kids[c] == e.kids[c] + new'
  }

  lemma {:induction false} LaidAppends(d: Doc, e: Doc, f: Doc, v: VNode, rest: seq<Id>, c: Id, s: seq<Id>, ns: seq<Id>,
                                       t: nat, new': seq<Id>)
    requires Laid(d, e, c, s, ns, t) && Appends(e, f, v, rest, c, new')
    ensures Laid(d, f, c, s, ns + new', t) && Layout(e, v, rest).taken == 0 && |new'| == |Render(v)|
  {
    hide Layout, Render;
    var front := Front(d, c, s);
    assert (ns + new')[..t] == ns[..t] && (ns + new')[t..] == ns[t..] + new';
    assert (front + ns[..t] + s[t..] + ns[t..]) + new' == front + ns[..t] + s[t..] + (ns[t..] + new');
  }

  // ---- The step --------------------------------------------------------------------------------------------

  lemma {:induction false} StepBasics(d: Doc, e: Doc, f: Doc, vs: seq<VNode>, rs: seq<Instance>, r: Instance, k: nat)
    requires k < |vs| && BasicsRow(d, e, vs, rs, k) && Basics(e, f, vs[k], r)
    ensures BasicsRow(d, f, vs, rs + [r], k + 1)
  {
    EvolvesTwice(d, e, f);
    OwnedAllAppend(rs, r);
    assert e.labels.Keys <= f.labels.Keys by { EvolvedLabels(e, f); }
    hide Evolves, OwnedAll, Owned, Shaped;
  }

  lemma {:induction false} EvolvedLabels(e: Doc, f: Doc)
    requires Evolves(e, f)
    ensures e.labels.Keys <= f.labels.Keys && e.kids.Keys <= f.kids.Keys
  {}

  lemma {:induction false} StepLeads(d: Doc, e: Doc, f: Doc, vs: seq<VNode>, rs: seq<Instance>, r: Instance, k: nat,
                                     c: Id,
                                     start: Option<Id>, cursor: Option<Id>)
    requires k <= |vs| && BasicsRow(d, e, vs, rs, k) && Evolves(e, f) && e.kids.Keys == e.labels.Keys
    requires Leads(d, e, c, start, NodesAll(rs)) && Leads(e, f, c, cursor, Nodes(r))
    requires NodesAll(rs) == [] ==> e == d && cursor == start
    ensures Leads(d, f, c, start, NodesAll(rs + [r]))
  {
    NodesAllOne(rs, r);
    NodesOwnedAll(rs);
    var ns := NodesAll(rs);
    if ns != [] && start.Some? && c in d.kids && c in f.kids && start.value in d.kids[c] {
      assert (ns + Nodes(r))[0] == ns[0] && ns[0] in e.labels && c in e.kids;
      assert Thins(e.kids[c], f.kids[c], e.labels.Keys);
      hide Evolves, Before, NodesAll, Nodes, OwnedAll;
      forall x | x in d.labels && (x == start.value || Before(d.kids[c], start.value, x))
        ensures !Before(f.kids[c], x, ns[0]) {
        assert x in e.labels;
      }
    } else {
      assert ns + Nodes(r) == if ns == [] then Nodes(r) else ns + Nodes(r);
    }
  }

  lemma {:induction false} StepFails(d: Doc, e: Doc, f: Doc, vs: seq<VNode>, rs: seq<Instance>, r: Instance, k: nat,
                                     c: Id)
    requires k <= |vs| && BasicsRow(d, e, vs, rs, k) && Evolves(e, f) && e.kids.Keys == e.labels.Keys && c in e.kids
    requires !RowInPlace(e, rs, c) || !InPlace(f, r, c)
    ensures !RowInPlace(f, rs + [r], c)
  {
    RowParts(f, rs, r, c);
    if RowInPlace(f, rs + [r], c) && !RowInPlace(e, rs, c) {
      RowBefore(e, f, rs, c);
    }
  }

  /** A node hydrated from a cursor that is astray comes out ahead of one that should precede it. */
  lemma {:induction false} AstrayFails(d: Doc, e: Doc, f: Doc, c: Id, s: seq<Id>, rs: seq<Instance>, t: nat,
                                       r: Instance,
                                       cursor: Option<Id>)
    requires Consistent(e) && Laid(d, e, c, s, NodesAll(rs), t) && t < |NodesAll(rs)|
    requires cursor.Some? && cursor.value in e.kids[c] && Leads(e, f, c, cursor, Nodes(r)) && Nodes(r) != []
    ensures !RowInPlace(f, rs + [r], c)
  {
    NodesAllOne(rs, r);
    var ns, kids := NodesAll(rs), e.kids[c];
    var x := ns[|ns| - 1];
    var n := |kids| - 1;
    assert kids[n] == x;
    var i :| 0 <= i < |kids| && kids[i] == cursor.value;
    if i != n {
      assert Before(kids, cursor.value, x);
    }
    assert x in kids && x in e.labels;
    var all := ns + Nodes(r);
    assert all[|ns| - 1] == x && all[|ns|] == Nodes(r)[0];
  }

  lemma {:induction false} StillRooted(d: Doc, e: Doc, vs: seq<VNode>, s: seq<Id>, rs: seq<Instance>,
                                       cursor: Option<Id>,
                                       rank: map<Id, nat>, rank': map<Id, nat>, lv: nat, c: Id, k: nat,
                                         start: Option<Id>)
    requires k <= |vs| && Consistent(d) && Consistent(e) && Rooted(d, rank, c, lv, start)
    requires SettledRow(d, e, vs, s, rs, rank, rank', lv, c, k) &&
             CursorIs(e, s, LayoutRow(d, vs, s, k), c, NodesAll(rs), cursor)
    ensures Rooted(e, rank', c, lv, cursor) && c in e.kids
  {
    hide *;
    var p := RowHas(d, e, vs, s, rs, rank, rank', lv, c, k);
    RootedParts(d, rank, c, lv, start);
    ContainerKept(d, e, rank, s[..p.taken], lv, c);
    WidenedRank(d, e, rank, rank', c);
    CursorIn(d, e, s, p, c, NodesAll(rs), cursor);
    RootedIs(d, e, rank, rank', c, lv, cursor);
  }

  lemma {:induction false} ContainerKept(d: Doc, e: Doc, rank: map<Id, nat>, s: seq<Id>, lv: nat, c: Id)
    requires Kept(d, e, rank, s, lv, c) && c in rank && rank[c] < lv && Branch(d, c) && c in d.labels
    ensures c in e.labels && e.labels[c] == d.labels[c] && e.labels[c].Element?
  {}

  lemma {:induction false} CursorIn(d: Doc, e: Doc, s: seq<Id>, p: RowLay, c: Id, ns: seq<Id>, cursor: Option<Id>)
    requires Consistent(e) && Laid(d, e, c, s, ns, p.taken) && |ns| == p.taken + p.extra
    requires CursorIs(e, s, p, c, ns, cursor) && (p.at.At? ==> p.extra == 0)
    ensures c in e.kids && (cursor.Some? ==> cursor.value in e.kids[c])
  {
    if p.at.At? {
      AtSiblings(d, e, c, s, ns, p.taken);
    }
  }

  lemma {:induction false} RootedIs(d: Doc, e: Doc, rank: map<Id, nat>, rank': map<Id, nat>, c: Id, lv: nat,
                                    cursor: Option<Id>)
    requires Ranked(e, rank') && Widens(d, e, rank, rank') && c in rank' && lv == rank'[c] + 1
    requires c in e.labels && c in e.kids && e.labels[c].Element? && (cursor.Some? ==> cursor.value in e.kids[c])
    ensures Rooted(e, rank', c, lv, cursor)
  {}

  lemma {:induction false} SmoothMore(d: Doc, vs: seq<VNode>, s: seq<Id>, k: nat)
    requires k < |vs|
    ensures SmoothRow(d, vs, s, k + 1) <==>
            SmoothRow(d, vs, s, k) && SmoothNext(LayoutRow(d, vs, s, k), d, vs[k], s)
  {}

  ghost predicate SmoothNext(p: RowLay, d: Doc, v: VNode, s: seq<Id>) {
    match p.at
    case At => p.taken <= |s| && Smooth(d, v, s[p.taken..])
    case End => true
    case Astray => Render(v) == []
  }

  lemma {:induction false} StepSettledAt(d: Doc, e: Doc, f: Doc, vs: seq<VNode>, s: seq<Id>, rs: seq<Instance>,
                                         r: Instance,
                                         cursor: Option<Id>, cursor': Option<Id>, ranks: seq<map<Id, nat>>, lv: nat,
                                           c: Id,
                                         k: nat)
    requires k < |vs| && |ranks| == 3 && Consistent(d) && Consistent(e) && Consistent(f)
    requires Ranked(d, ranks[0]) && NoDup(s) && Level(ranks[0], s, lv) && c in ranks[0] && ranks[0][c] < lv
    requires forall m :: m in s ==> m in d.labels
    requires SmoothRow(d, vs, s, k) && SettledRow(d, e, vs, s, rs, ranks[0], ranks[1], lv, c, k)
    requires LayoutRow(d, vs, s, k).at.At? && CursorIs(e, s, LayoutRow(d, vs, s, k), c, NodesAll(rs), cursor)
    requires if Smooth(e, vs[k], Siblings(e, cursor)) then
             Settled(e, f, vs[k], Siblings(e, cursor), r, ranks[1], ranks[2], lv, c)
             else !InPlace(f, r, c)
    requires cursor'.Some? ==> cursor'.value in f.labels
    requires Siblings(f, cursor') == Skip(Siblings(f, cursor), |Nodes(r)|)
    ensures if SmoothRow(d, vs, s, k + 1)
            then SettledRow(d, f, vs, s, rs + [r], ranks[0], ranks[2], lv, c, k + 1)
                 && CursorIs(f, s, LayoutRow(d, vs, s, k + 1), c, NodesAll(rs + [r]), cursor')
            else !InPlace(f, r, c)
  {
    hide *;
    var p := RowHas(d, e, vs, s, rs, ranks[0], ranks[1], lv, c, k);
    var t := p.taken;
    CursorAt(e, s, p, c, NodesAll(rs), cursor);
    AtSiblings(d, e, c, s, NodesAll(rs), t);
    RestSame(d, e, ranks[0], s, t, lv, c);
    ConsistentKeys(e);
    assert forall m :: m in s[t..] ==> m in s;
    LayoutSame(d, e, ranks[0], vs[k], s[t..], lv);
    SmoothSame(d, e, ranks[0], vs[k], s[t..], lv);
    SmoothMore(d, vs, s, k);
    NextAt(p, d, vs[k], s);
    if SmoothRow(d, vs, s, k + 1) {
      StepAt(d, e, f, vs, s, rs, r, ranks, lv, c, k);
      var x := SettledParts(e, f, vs[k], s[t..], r, ranks[1], ranks[2], lv, c);
      RowLayAt(d, vs, s, k, x);
      LaidFront(e, f, c, s[t..], Nodes(r), x.taken);
      InLabels(e, f, ranks[1], s[t..][..x.taken], lv, c, s[t]);
      assert s[t..][0] == s[t];
      CursorMoves(f, c, Front(e, c, s[t..]), s[t..], Nodes(r), x, s[t], cursor');
      NodesAllOne(rs, r);
      CursorIsAt(f, s, p, x, c, NodesAll(rs), Nodes(r), cursor');
    }
  }

  lemma {:induction false} InLabels(e: Doc, f: Doc, rank: map<Id, nat>, s: seq<Id>, lv: nat, c: Id, n: Id)
    requires Kept(e, f, rank, s, lv, c) && n in e.labels
    ensures n in f.labels
  {}

  lemma {:induction false} LaidFront(e: Doc, f: Doc, c: Id, s: seq<Id>, ns: seq<Id>, t: nat)
    requires Laid(e, f, c, s, ns, t)
    ensures c in e.kids && c in f.kids && |s| <= |e.kids[c]| && t <= |s| && t <= |ns|
    ensures f.kids[c] == Front(e, c, s) + ns[..t] + s[t..] + ns[t..]
  {}

  lemma {:induction false} CursorAt(e: Doc, s: seq<Id>, p: RowLay, c: Id, ns: seq<Id>, cursor: Option<Id>)
    requires CursorIs(e, s, p, c, ns, cursor)
    ensures match p.at
            case At => p.taken < |s| && cursor == Some(s[p.taken])
            case End => cursor.None?
            case Astray => cursor.Some? && c in e.kids && cursor.value in e.kids[c] && p.extra > 0 && ns != []
  {}

  lemma {:induction false} NextAt(p: RowLay, d: Doc, v: VNode, s: seq<Id>)
    requires p.at.At? && p.taken <= |s|
    ensures SmoothNext(p, d, v, s) <==> Smooth(d, v, s[p.taken..])
  {}

  lemma {:induction false} NextOff(p: RowLay, d: Doc, v: VNode, s: seq<Id>)
    requires !p.at.At?
    ensures SmoothNext(p, d, v, s) <==> p.at.End? || Render(v) == []
  {}

  lemma {:induction false} CursorIsAt(f: Doc, s: seq<Id>, p: RowLay, x: Lay, c: Id, ns: seq<Id>, new': seq<Id>,
                                      cursor: Option<Id>)
    requires p.at.At? && p.taken < |s| && x.taken <= |s[p.taken..]| && |new'| == x.taken + x.extra && c in f.kids
    requires if x.taken + x.extra == 0 then cursor == Some(s[p.taken])
             else if x.lost || x.taken == |s[p.taken..]| then cursor.None?
             else if x.extra > 0 then cursor.Some? && cursor.value in f.kids[c]
             else cursor == Some(s[p.taken..][x.taken])
    ensures CursorIs(f, s, RowMore(p, x, |s|), c, ns + new', cursor)
  {}

  lemma {:induction false} StepSettledOff(d: Doc, e: Doc, f: Doc, vs: seq<VNode>, s: seq<Id>, rs: seq<Instance>,
                                          r: Instance,
                                          cursor: Option<Id>, cursor': Option<Id>, ranks: seq<map<Id, nat>>, lv: nat,
                                            c: Id,
                                          k: nat)
    requires k < |vs| && |ranks| == 3 && Consistent(d) && Consistent(e) && Consistent(f)
    requires NoDup(s) && Level(ranks[0], s, lv) && c in ranks[0] && ranks[0][c] < lv
    requires SmoothRow(d, vs, s, k) && SettledRow(d, e, vs, s, rs, ranks[0], ranks[1], lv, c, k)
    requires !LayoutRow(d, vs, s, k).at.At? && CursorIs(e, s, LayoutRow(d, vs, s, k), c, NodesAll(rs), cursor)
    requires Rooted(e, ranks[1], c, lv, cursor) && (cursor.Some? ==> cursor.value in e.labels)
    requires Smooth(e, vs[k], Siblings(e, cursor)) ==>
             Settled(e, f, vs[k], Siblings(e, cursor), r, ranks[1], ranks[2], lv, c)
    requires Nodes(r) == [] ==> f == e
    requires Leads(e, f, c, cursor, Nodes(r)) && |Nodes(r)| == |Render(vs[k])|
    requires cursor'.Some? ==> cursor'.value in f.labels
    requires Siblings(f, cursor') == Skip(Siblings(f, cursor), |Nodes(r)|)
    ensures if SmoothRow(d, vs, s, k + 1)
            then SettledRow(d, f, vs, s, rs + [r], ranks[0], ranks[2], lv, c, k + 1)
                 && CursorIs(f, s, LayoutRow(d, vs, s, k + 1), c, NodesAll(rs + [r]), cursor')
            else !RowInPlace(f, rs + [r], c)
  {
    hide *;
    var p := RowHas(d, e, vs, s, rs, ranks[0], ranks[1], lv, c, k);
    CursorAt(e, s, p, c, NodesAll(rs), cursor);
    SmoothMore(d, vs, s, k);
    NextOff(p, d, vs[k], s);
    var rest := Siblings(e, cursor);
    if p.at.End? || Render(vs[k]) == [] {
      NothingTaken(e, vs[k], rest, cursor);
      var x := SettledParts(e, f, vs[k], rest, r, ranks[1], ranks[2], lv, c);
      RootedLevel(e, ranks[1], c, lv, cursor);
      AppendsIs(e, f, vs[k], rest, c, Nodes(r), x);
      StepEnd(d, e, f, vs, s, rs, r, ranks, lv, c, k);
      RowLayOff(d, vs, s, k);
      NodesAllOne(rs, r);
      SameCursor(e, f, cursor, cursor', Nodes(r));
      CursorIsOff(e, f, s, p, c, NodesAll(rs), Nodes(r), cursor, cursor', |Render(vs[k])|);
    } else {
      AstrayFails(d, e, f, c, s, rs, p.taken, r, cursor);
    }
  }

  lemma {:induction false} NothingTaken(e: Doc, v: VNode, rest: seq<Id>, cursor: Option<Id>)
    requires Consistent(e) && rest == Siblings(e, cursor) && (cursor.Some? ==> cursor.value in e.labels)
    requires cursor.None? || Render(v) == []
    ensures Smooth(e, v, rest) && Layout(e, v, rest).taken == 0
  {
    if cursor.None? {
      NoneLeft(e, v);
    } else {
      NothingSmooth(e, v, rest);
      LayoutCounts(e, v, rest);
    }
  }

  lemma {:induction false} AppendsIs(e: Doc, f: Doc, v: VNode, rest: seq<Id>, c: Id, new': seq<Id>, x: Lay)
    requires x == Layout(e, v, rest) && x.taken == 0 && |new'| == |Render(v)| && Laid(e, f, c, rest, new', 0)
    requires c in e.kids && |rest| <= |e.kids[c]| && e.kids[c] == e.kids[c][..|e.kids[c]| - |rest|] + rest
    ensures Appends(e, f, v, rest, c, new')
  {
    var front := e.kids[c][..|e.kids[c]| - |rest|];
    assert new'[..0] == [] && new'[0..] == new' && rest[0..] == rest;
    assert front + [] + rest + new' == (front + rest) + new';
  }

  lemma {:induction false} SameCursor(e: Doc, f: Doc, cursor: Option<Id>, cursor': Option<Id>, new': seq<Id>)
    requires Consistent(f) && (cursor.Some? ==> cursor.value in f.labels) &&
             (cursor'.Some? ==> cursor'.value in f.labels)
    requires Siblings(f, cursor') == Skip(Siblings(f, cursor), |new'|)
    ensures cursor.None? || new' == [] ==> cursor' == cursor
  {
    SiblingsFacts(f, cursor);
    SiblingsFacts(f, cursor');
    if new' == [] {
      assert Skip(Siblings(f, cursor), 0) == Siblings(f, cursor);
    }
  }

  lemma {:induction false} CursorIsOff(e: Doc, f: Doc, s: seq<Id>, p: RowLay, c: Id, ns: seq<Id>, new': seq<Id>,
                                       cursor: Option<Id>, cursor': Option<Id>, n: nat)
    requires !p.at.At? && CursorIs(e, s, p, c, ns, cursor) && n == |new'| && (new' == [] ==> f == e)
    requires p.at.End? || new' == []
    requires cursor.None? || new' == [] ==> cursor' == cursor
    ensures CursorIs(f, s, p.(extra := p.extra + n), c, ns + new', cursor')
  {}

  lemma {:induction false} RenderedCount(e: Doc, f: Doc, v: VNode, r: Instance)
    requires Basics(e, f, v, r)
    ensures |Nodes(r)| == |Render(v)| && Evolves(e, f)
  {
    NodesRendered(r);
  }

  /** One more tree of the row. */
  lemma {:induction false} RowGoesOn(d: Doc, e: Doc, f: Doc, vs: seq<VNode>, start: Option<Id>, s: seq<Id>,
                                     rs: seq<Instance>, r: Instance, cursor: Option<Id>, cursor': Option<Id>,
                                     ranks: seq<map<Id, nat>>, lv: nat, c: Id, k: nat)
    requires k < |vs| && |ranks| == 3 && Consistent(d) && Consistent(e) && Consistent(f) && c in e.kids
    requires s == Siblings(d, start) && (start.Some? ==> start.value in d.labels)
    requires (cursor.Some? ==> cursor.value in e.labels) && (cursor'.Some? ==> cursor'.value in f.labels)
    requires SitesRow(d, e, vs, start, s, rs, cursor, ranks[0], ranks[1], lv, c, k)
    requires Sites(e, f, vs[k], cursor, Siblings(e, cursor), r, ranks[1], ranks[2], lv, c)
    requires (Nodes(r) == [] ==> f == e) && (cursor.Some? ==> cursor.value in f.labels)
    requires Siblings(f, cursor') == Skip(Siblings(f, cursor), |Nodes(r)|)
    ensures SitesRow(d, f, vs, start, s, rs + [r], cursor', ranks[0], ranks[2], lv, c, k + 1)
  {
    hide *;
    SitesRowHas(d, e, vs, start, s, rs, cursor, ranks[0], ranks[1], lv, c, k);
    SitesHas(e, f, vs[k], cursor, Siblings(e, cursor), r, ranks[1], ranks[2], lv, c);
    RenderedCount(e, f, vs[k], r);
    ConsistentKeys(e);
    StepBasics(d, e, f, vs, rs, r, k);
    StepLeads(d, e, f, vs, rs, r, k, c, start, cursor);
    NodesAllOne(rs, r);
    SameCursor(e, f, cursor, cursor', Nodes(r));
    if Rooted(d, ranks[0], c, lv, start) {
      RootedParts(d, ranks[0], c, lv, start);
      RootedLevel(d, ranks[0], c, lv, start);
      SiblingsFacts(d, start);
      SmoothMore(d, vs, s, k);
      if SmoothRow(d, vs, s, k) {
        StillRooted(d, e, vs, s, rs, cursor, ranks[0], ranks[1], lv, c, k, start);
        if LayoutRow(d, vs, s, k).at.At? {
          StepSettledAt(d, e, f, vs, s, rs, r, cursor, cursor', ranks, lv, c, k);
          if !InPlace(f, r, c) {
            StepFails(d, e, f, vs, rs, r, k, c);
          }
        } else {
          StepSettledOff(d, e, f, vs, s, rs, r, cursor, cursor', ranks, lv, c, k);
        }
      } else {
        StepFails(d, e, f, vs, rs, r, k, c);
      }
    }
    SitesRowIs(d, f, vs, start, s, rs + [r], cursor', ranks[0], ranks[2], lv, c, k + 1);
  }

  lemma {:induction false} SitesRowHas(d: Doc, e: Doc, vs: seq<VNode>, start: Option<Id>, s: seq<Id>, rs: seq<Instance>,
                                       cursor: Option<Id>, rank: map<Id, nat>, rank': map<Id, nat>, lv: nat, c: Id,
                                         k: nat)
    requires k <= |vs| && SitesRow(d, e, vs, start, s, rs, cursor, rank, rank', lv, c, k)
    ensures BasicsRow(d, e, vs, rs, k) && Leads(d, e, c, start, NodesAll(rs))
    ensures NodesAll(rs) == [] ==> e == d && cursor == start
    ensures Rooted(d, rank, c, lv, start) ==>
              if SmoothRow(d, vs, s, k)
              then SettledRow(d, e, vs, s, rs, rank, rank', lv, c, k)
                   && CursorIs(e, s, LayoutRow(d, vs, s, k), c, NodesAll(rs), cursor)
              else !RowInPlace(e, rs, c)
  {}

  lemma {:induction false} SitesHas(d: Doc, e: Doc, v: VNode, start: Option<Id>, s: seq<Id>, r: Instance,
                                    rank: map<Id, nat>,
                                    rank': map<Id, nat>, lv: nat, c: Id)
    requires Sites(d, e, v, start, s, r, rank, rank', lv, c)
    ensures Basics(d, e, v, r) && Leads(d, e, c, start, Nodes(r))
    ensures Rooted(d, rank, c, lv, start) ==>
              if Smooth(d, v, s) then Settled(d, e, v, s, r, rank, rank', lv, c) else !InPlace(e, r, c)
  {}
}
