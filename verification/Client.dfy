/** The client runtime's mount and update procedures over one mutable document.

    Every procedure is followed by two ghost sequences: `pre`, what stands before the slot in its
    container, and `post`, what stands behind it. An update leaves some nodes in place (`x`) and
    appends the others at the end of the container (`y`, the strays); `Splits` says how many go
    where, `Reconciled` what the new instance tree owns and what else in the document may differ.
    `PlacedIffSettles` turns the two into the main statement: the fresh tree, in the old one's
    place, if and only if the placement settles. */
module ClientRuntime {
  import opened Prelude
  import opened Dom
  import opened VTree
  import opened Placement

  /** Every node of `d` is still in `e` and, outside `touched`, still the same. */
  ghost predicate Extends(d: Doc, e: Doc, touched: set<Id>)
    requires d.kids.Keys == d.labels.Keys && e.kids.Keys == e.labels.Keys
  {
    && d.next <= e.next
    && (forall n :: n in d.labels ==> n in e.labels)
    && (forall n :: n in d.labels && n !in touched ==> e.labels[n] == d.labels[n] && e.kids[n] == d.kids[n])
    && (forall n :: n in e.labels && n !in d.labels ==> n >= d.next)
    && NewKids(d, e)
  }

  /** Nodes made since `d` have only such nodes for children. */
  ghost predicate NewKids(d: Doc, e: Doc) {
    forall p, n :: p in e.kids && p !in d.labels && n in e.kids[p] ==> n >= d.next
  }

  /** Only the child list of `c` may differ. */
  ghost predicate OnlyAt(d: Doc, e: Doc, c: Id) {
    && e.labels == d.labels && e.next == d.next && e.kids.Keys == d.kids.Keys
    && forall n :: n in d.kids && n != c ==> e.kids[n] == d.kids[n]
  }

  ghost function SetOf(s: seq<Id>): set<Id> { set n | n in s }

  /** `nodes` can be moved into `c`: allocated, and either detached or already there. */
  ghost predicate Movable(d: Doc, c: Id, nodes: seq<Id>) {
    NoDup(nodes) && forall n :: n in nodes ==> n in d.labels && (n in d.parent ==> d.parent[n] == c)
  }

  /** `before` is the first node of `b`, or absent when `b` is empty. */
  ghost predicate Marks(before: Option<Id>, b: seq<Id>) {
    if before.Some? then b != [] && b[0] == before.value else b == []
  }

  lemma {:induction false} PlaceStep(kids: seq<Id>, n: Id, rest: set<Id>, a: seq<Id>, b: seq<Id>, before: Option<Id>)
    requires NoDup(kids) && n !in rest
    requires Minus(kids, {n} + rest) == a + b && Marks(before, b)
    ensures before.Some? ==> before.value in kids && before.value != n
    ensures Minus(Placed(Minus(kids, {n}), n, before), rest) == a + [n] + b
  {
    var m := Minus(kids, {n} + rest);
    MinusNoDup(kids, {n} + rest);
    if before.Some? {
      assert m[|a|] == before.value;
      assert before.value in m;
      NoDupParts(a, b);
    }
    MinusTwice(kids, {n}, rest);
    MinusPlaced(Minus(kids, {n}), n, before, rest);
    PlacedAt(a, b, n, before);
  }

  lemma {:induction false} InsertKids(d: Doc, c: Id, n: Id, before: Option<Id>)
    requires Consistent(d) && c in d.labels && n in d.labels && (n in d.parent ==> d.parent[n] == c)
    requires before.Some? ==> before.value in d.kids[c] && before.value != n
    ensures InsertBefore(d, c, n, before).kids == d.kids[c := Placed(Minus(d.kids[c], {n}), n, before)]
  {
    if n !in d.parent {
      MinusNone(d.kids[c], {n});
    }
  }

  /** The state of a move of `nodes` between `a` and `b` after the first `k` of them. */
  ghost predicate Moving(start: Doc, d: Doc, c: Id, nodes: seq<Id>, k: nat, a: seq<Id>, b: seq<Id>)
    requires k <= |nodes|
  {
    && Consistent(d) && c in d.labels && OnlyAt(start, d, c)
    && Movable(d, c, nodes[k..])
    && Minus(d.kids[c], SetOf(nodes[k..])) == a + nodes[..k] + b
  }

  lemma {:induction false} MovableStep(d: Doc, c: Id, n: Id, rest: seq<Id>, before: Option<Id>)
    requires Consistent(d) && c in d.labels && Movable(d, c, [n] + rest)
    requires before.Some? ==> before.value in d.kids[c] && before.value != n
    ensures n in d.labels && (n in d.parent ==> d.parent[n] == c)
    ensures Movable(InsertBefore(d, c, n, before), c, rest)
  {
    assert ([n] + rest)[0] == n;
    NoDupCons(n, rest);
    forall m | m in rest ensures m in [n] + rest {}
  }

  lemma {:induction false} PrefixGrows(a: seq<Id>, nodes: seq<Id>, k: nat, b: seq<Id>)
    requires k < |nodes|
    ensures a + nodes[..k] + [nodes[k]] + b == a + nodes[..k + 1] + b
  {
    assert nodes[..k + 1] == nodes[..k] + [nodes[k]];
  }

  lemma {:induction false} MoveSeq(kids: seq<Id>, nodes: seq<Id>, k: nat, a: seq<Id>, b: seq<Id>, before: Option<Id>)
    requires k < |nodes| && NoDup(kids) && NoDup(nodes[k..])
    requires Minus(kids, SetOf(nodes[k..])) == a + nodes[..k] + b && Marks(before, b)
    ensures before.Some? ==> before.value in kids && before.value != nodes[k]
    ensures nodes[k..] == [nodes[k]] + nodes[k + 1..]
    ensures Minus(Placed(Minus(kids, {nodes[k]}), nodes[k], before), SetOf(nodes[k + 1..])) == a + nodes[..k + 1] + b
  {
    var n, rest := nodes[k], SetOf(nodes[k + 1..]);
    assert nodes[k..] == [n] + nodes[k + 1..];
    assert n !in nodes[k + 1..] by { NoDupCons(n, nodes[k + 1..]); }
    assert SetOf(nodes[k..]) == {n} + rest;
    PlaceStep(kids, n, rest, a + nodes[..k], b, before);
    PrefixGrows(a, nodes, k, b);
  }

  lemma {:induction false} MoveStep(start: Doc, d: Doc, c: Id, nodes: seq<Id>, k: nat, a: seq<Id>, b: seq<Id>,
                                    before: Option<Id>)
    requires k < |nodes| && Moving(start, d, c, nodes, k, a, b) && Marks(before, b)
    ensures before.Some? ==> before.value in d.kids[c] && before.value != nodes[k]
    ensures nodes[k] in d.labels
    ensures Moving(start, InsertBefore(d, c, nodes[k], before), c, nodes, k + 1, a, b)
  {
    assert NoDup(d.kids[c]) && NoDup(nodes[k..]);
    hide Consistent, Movable, NoDup, SetOf, Minus, Placed;
    MoveSeq(d.kids[c], nodes, k, a, b, before);
    MovableStep(d, c, nodes[k], nodes[k + 1..], before);
    InsertKids(d, c, nodes[k], before);
    InsertConsistent(d, c, nodes[k], before);
  }

  ghost predicate Removing(start: Doc, d: Doc, c: Id, nodes: seq<Id>, k: nat)
    requires k <= |nodes|
  {
    && Consistent(d) && c in d.kids && OnlyAt(start, d, c)
    && d.kids[c] == Minus(start.kids[c], SetOf(nodes[..k]))
  }

  lemma {:induction false} RemoveStep(start: Doc, d: Doc, c: Id, nodes: seq<Id>, k: nat)
    requires k < |nodes| && NoDup(nodes) && c in start.kids && nodes[k] in start.kids[c]
    requires Removing(start, d, c, nodes, k)
    ensures Removing(start, Detach(d, nodes[k]), c, nodes, k + 1)
  {
    assert nodes[..k + 1] == nodes[..k] + [nodes[k]];
    assert nodes[k] !in nodes[..k];
    assert SetOf(nodes[..k + 1]) == SetOf(nodes[..k]) + {nodes[k]};
    MinusTwice(start.kids[c], SetOf(nodes[..k]), {nodes[k]});
    assert nodes[k] in d.kids[c];
    DetachConsistent(d, nodes[k]);
  }

  method CollectInstanceNodes(i: Instance, sink: seq<Id>) returns (out: seq<Id>)
    ensures out == sink + Nodes(i)
    decreases i
  {
    match i
    case GroupInst(_, _, cs) =>
      out := sink;
      for k := 0 to |cs|
        invariant out + NodesAll(cs[k..]) == sink + NodesAll(cs)
      {
        ghost var was := out;
        out := CollectInstanceNodes(cs[k], out);
        assert cs[k..] == [cs[k]] + cs[k + 1..];
        assert was + (Nodes(cs[k]) + NodesAll(cs[k + 1..])) == out + NodesAll(cs[k + 1..]);
      }
    case CompInst(_, _, r) => out := CollectInstanceNodes(r, sink);
    case TextInst(_, n) => out := sink + [n];
    case HostInst(_, n, _) => out := sink + [n];
  }

  method FirstInstanceNode(i: Instance) returns (n: Option<Id>)
    ensures n == if Nodes(i) != [] then Some(Nodes(i)[0]) else None
  {
    var nodes := CollectInstanceNodes(i, []);
    n := if |nodes| > 0 then Some(nodes[0]) else None;
  }

  /** The attributes left after diffing old props against new ones. */
  function UpdatedProps(attrs: Props, old': Props, new': Props): (r: Props)
    ensures attrs == old' ==> r == new'
    ensures old' == map[] ==> r == attrs + new'
  {
    var cleared := attrs - (set k | k in old' && (k !in new' || new'[k] != old'[k]));
    cleared + map k | k in new' && (k !in old' || old'[k] != new'[k]) :: new'[k]
  }

  // ---- Mounting --------------------------------------------------------------------------

  /** Groups mount straight into the surrounding container; the rest start out detached. */
  predicate Lands(v: VNode) {
    match v
    case Group(_, _) => true
    case Component(_, r) => Lands(r)
    case _ => false
  }

  ghost predicate FreshIn(d: Doc, e: Doc, owned: set<Id>) {
    forall n :: n in owned ==> d.next <= n && n in e.labels
  }

  /** From `d` to `e` new nodes appeared and, among the old ones, only `c`'s children changed. */
  ghost predicate Grows(d: Doc, e: Doc, c: Id) {
    Consistent(d) && Consistent(e) && c in d.labels && Extends(d, e, {c}) && e.labels[c] == d.labels[c]
  }

  ghost predicate Built(d: Doc, e: Doc, r: Instance, v: VNode, c: Id) {
    Grows(d, e, c) && r.vnode == v && Mounted(e, r, c) && Apart(r) && FreshIn(d, e, Owned(r))
  }

  ghost predicate BuiltRow(d: Doc, e: Doc, rs: seq<Instance>, vs: seq<VNode>, c: Id) {
    && Matches(rs, vs) && (forall k :: 0 <= k < |rs| ==> Mounted(e, rs[k], c))
    && ApartAll(rs) && FreshIn(d, e, OwnedAll(rs))
  }

  ghost predicate BuiltAll(d: Doc, e: Doc, rs: seq<Instance>, vs: seq<VNode>, c: Id) {
    Grows(d, e, c) && BuiltRow(d, e, rs, vs, c) && e.kids[c] == d.kids[c] + NodesAll(rs)
  }

  /** Where the nodes of a tree are between being built and being inserted. */
  ghost predicate Waiting(d: Doc, e: Doc, r: Instance, v: VNode, c: Id)
    requires c in d.kids && c in e.kids
  {
    && e.kids[c] == d.kids[c] + (if Lands(v) then Nodes(r) else [])
    && (!Lands(v) ==> forall n :: n in Nodes(r) ==> n !in e.parent)
  }

  lemma {:induction false} LiftOff(kids: seq<Id>, nodes: seq<Id>, landed: bool)
    requires forall n :: n in nodes ==> n !in kids
    ensures Minus(kids + (if landed then nodes else []), SetOf(nodes)) == kids
  {
    MinusNone(kids, SetOf(nodes));
    MinusAll(nodes, SetOf(nodes));
    MinusAppend(kids, nodes, SetOf(nodes));
    assert kids + [] == kids;
  }

  lemma {:induction false} WaitingMovable(d: Doc, e: Doc, r: Instance, v: VNode, c: Id)
    requires Built(d, e, r, v, c) && Waiting(d, e, r, v, c)
    ensures Movable(e, c, Nodes(r)) && Minus(e.kids[c], SetOf(Nodes(r))) == d.kids[c]
  {
    WaitingFresh(d, e, r, v, c);
    WaitingParents(d, e, r, v, c);
    LiftOff(d.kids[c], Nodes(r), Lands(v));
    hide Built;
  }

  lemma {:induction false} WaitingFresh(d: Doc, e: Doc, r: Instance, v: VNode, c: Id)
    requires Built(d, e, r, v, c)
    ensures NoDup(Nodes(r)) && forall n :: n in Nodes(r) ==> n !in d.kids[c]
  {
    NodesOwned(r);
    KidsBelow(d, c);
    forall n | n in Nodes(r) ensures n !in d.kids[c] {
      assert n in Owned(r) && d.next <= n;
    }
  }

  lemma {:induction false} KidsBelow(d: Doc, c: Id)
    requires Consistent(d) && c in d.kids
    ensures forall n :: n in d.kids[c] ==> n in d.labels && n < d.next
  {}

  lemma {:induction false} WaitingParents(d: Doc, e: Doc, r: Instance, v: VNode, c: Id)
    requires Built(d, e, r, v, c) && Waiting(d, e, r, v, c)
    ensures forall n :: n in Nodes(r) ==> n in e.labels && (n in e.parent ==> e.parent[n] == c)
  {
    NodesOwned(r);
    forall n | n in Nodes(r) && Lands(v) ensures n in e.kids[c] {}
  }

  /** Inserting a built tree keeps it built. */
  lemma {:induction false} BuiltFrame(d: Doc, e: Doc, f: Doc, r: Instance, v: VNode, c: Id)
    requires Built(d, e, r, v, c) && Consistent(f) && OnlyAt(e, f, c)
    ensures Built(d, f, r, v, c)
  {
    assert Grows(d, f, c);
    hide Consistent;
    AttachedFrame(e, f, r, c);
  }

  lemma {:induction false} GrowsTwice(d: Doc, e: Doc, f: Doc, c: Id)
    requires Grows(d, e, c) && Grows(e, f, c)
    ensures Grows(d, f, c)
  {}

  lemma {:induction false} RowFrame(d: Doc, e: Doc, f: Doc, rs: seq<Instance>, c: Id)
    requires Grows(d, e, c) && Grows(e, f, c) && FreshIn(d, e, OwnedAll(rs))
    ensures forall k :: 0 <= k < |rs| ==> (Attached(e, rs[k], c) <==> Attached(f, rs[k], c))
  {
    AttachedFrameAll(e, f, rs, c);
  }

  lemma {:induction false} RowStep(d: Doc, e: Doc, f: Doc, rs: seq<Instance>, r: Instance, vs: seq<VNode>, c: Id)
    requires |rs| < |vs| && Grows(d, e, c) && BuiltRow(d, e, rs, vs[..|rs|], c) && Built(e, f, r, vs[|rs|], c)
    ensures BuiltRow(d, f, rs + [r], vs[..|rs| + 1], c)
  {
    RowFrame(d, e, f, rs, c);
    assert Owned(r) !! OwnedAll(rs);
    OwnedAllAppend(rs, r);
    hide Consistent, Extends, Mounted, ApartAll;
  }

  lemma {:induction false} NodesAllOne(rs: seq<Instance>, r: Instance)
    ensures NodesAll(rs + [r]) == NodesAll(rs) + Nodes(r)
  {
    NodesAllAppend(rs, [r]);
    assert [r][1..] == [];
    assert NodesAll([r]) == Nodes(r) + [];
  }

  lemma {:induction false} MountStep(d: Doc, e: Doc, f: Doc, rs: seq<Instance>, r: Instance, vs: seq<VNode>, c: Id)
    requires |rs| < |vs| && BuiltAll(d, e, rs, vs[..|rs|], c) && Built(e, f, r, vs[|rs|], c)
    requires f.kids[c] == e.kids[c] + Nodes(r)
    ensures BuiltAll(d, f, rs + [r], vs[..|rs| + 1], c)
  {
    hide Grows, BuiltRow;
    GrowsTwice(d, e, f, c);
    RowStep(d, e, f, rs, r, vs, c);
    NodesAllOne(rs, r);
  }

  lemma {:induction false} HostDetached(d: Doc, l: Label, e: Doc)
    requires Consistent(d) && Grows(Create(d, l), e, d.next)
    requires d.next !in e.kids[d.next]
    ensures d.next !in e.parent
  {
    assert forall p :: p in e.kids ==> d.next !in e.kids[p];
  }

  lemma {:induction false} HostMade(d: Doc, l: Label, e: Doc)
    requires Grows(Create(d, l), e, d.next)
    ensures d.next in e.labels && d.next in e.kids && e.labels[d.next] == l
  {}

  lemma {:induction false} HostGrows(d: Doc, l: Label, e: Doc, c: Id)
    requires Consistent(d) && c in d.labels && Grows(Create(d, l), e, d.next)
    requires forall n :: n in e.kids[d.next] ==> n >= d.next
    ensures Grows(d, e, c) && e.kids[c] == d.kids[c]
  {}

  lemma {:induction false} HostMounts(d: Doc, e: Doc, rs: seq<Instance>, v: VNode, n: Id, c: Id)
    requires v.Host? && n == d.next && n in e.labels && n in e.kids && e.labels[n] == Element(v.tag, v.props)
    requires BuiltRow(Create(d, Element(v.tag, v.props)), e, rs, v.children, n) && e.kids[n] == NodesAll(rs)
    ensures Mounted(e, HostInst(v, n, rs), c) && Apart(HostInst(v, n, rs)) && FreshIn(d, e, Owned(HostInst(v, n, rs)))
    ensures forall m :: m in NodesAll(rs) ==> m > n
  {
    NodesOwnedAll(rs);
  }

  lemma {:induction false} HostBuilt(d: Doc, e: Doc, rs: seq<Instance>, v: VNode, c: Id)
    requires Consistent(d) && c in d.labels && v.Host?
    requires BuiltAll(Create(d, Element(v.tag, v.props)), e, rs, v.children, d.next)
    ensures Built(d, e, HostInst(v, d.next, rs), v, c) && Waiting(d, e, HostInst(v, d.next, rs), v, c)
  {
    hide Grows, Consistent, BuiltRow;
    var l, n := Element(v.tag, v.props), d.next;
    HostMade(d, l, e);
    assert e.kids[n] == NodesAll(rs);
    HostMounts(d, e, rs, v, n, c);
    HostDetached(d, l, e);
    HostGrows(d, l, e, c);
    hide Mounted, Apart, FreshIn;
  }

  lemma {:induction false} TextBuilt(d: Doc, v: VNode, c: Id)
    requires Consistent(d) && c in d.labels && v.Text?
    ensures var e := Create(d, TextNode(v.text));
            Built(d, e, TextInst(v, d.next), v, c) && Waiting(d, e, TextInst(v, d.next), v, c)
  {}

  lemma {:induction false} GroupBuilt(d: Doc, e: Doc, rs: seq<Instance>, v: VNode, c: Id)
    requires v.Group? && BuiltAll(d, e, rs, v.children, c)
    ensures Built(d, e, GroupInst(v, c, rs), v, c) && Waiting(d, e, GroupInst(v, c, rs), v, c)
  {
    hide Grows;
  }

  lemma {:induction false} EmptyBuilt(d: Doc, c: Id)
    requires Consistent(d) && c in d.labels
    ensures Built(d, d, GroupInst(Empty, c, []), Empty, c) && Waiting(d, d, GroupInst(Empty, c, []), Empty, c)
  {}

  lemma {:induction false} ComponentBuilt(d: Doc, e: Doc, r: Instance, v: VNode, c: Id)
    requires v.Component? && Built(d, e, r, v.rendered, c) && Waiting(d, e, r, v.rendered, c)
    ensures Built(d, e, CompInst(v, c, r), v, c) && Waiting(d, e, CompInst(v, c, r), v, c)
  {
    hide Grows;
  }

  // ---- Updating --------------------------------------------------------------------------

  ghost function OwnedBy(i: Option<Instance>): set<Id> { if i.Some? then Owned(i.value) else {} }

  function Rest(cs: seq<Instance>, k: nat): seq<Instance> { if k <= |cs| then cs[k..] else [] }

  ghost function Done(cs: seq<Instance>, k: nat): seq<Instance> { if k <= |cs| then cs[..k] else cs }

  function VAt(vs: seq<VNode>, k: nat): Option<VNode> { if k < |vs| then Some(vs[k]) else None }

  ghost function VDone(vs: seq<VNode>, k: nat): seq<VNode> { if k <= |vs| then vs[..k] else vs }

  /** From `d` to `e`, among old nodes, only those owned by the update and `c`'s children changed. */
  ghost predicate Updated(d: Doc, e: Doc, c: Id, owned: set<Id>) {
    Consistent(d) && Consistent(e) && c in d.labels && Extends(d, e, owned + {c}) && e.labels[c] == d.labels[c]
  }

  /** Every node of the new tree was the old tree's or is new. */
  ghost predicate Sourced(d: Doc, e: Doc, owned: set<Id>, now: set<Id>) {
    forall n :: n in now ==> n in e.labels && (n in owned || d.next <= n)
  }

  ghost predicate Reconciled(d: Doc, e: Doc, i: Option<Instance>, v: VNode, r: Instance, c: Id) {
    && Updated(d, e, c, OwnedBy(i))
    && r.vnode == v && Shaped(r) && Apart(r) && Sourced(d, e, OwnedBy(i), Owned(r))
    && (Attached(e, r, c) <==> Inner(i, v))
  }

  /** `x` are the nodes left in place and `y` the strays; together in order just when predicted. */
  ghost predicate Splits(x: seq<Id>, y: seq<Id>, r: Instance, i: Option<Instance>, v: VNode, anchored: bool) {
    && |y| == Stray(i, v, anchored) && |x| + |y| == |Nodes(r)|
    && (forall n :: n in x ==> n in Nodes(r))
    && (x + y == Nodes(r) <==> InOrder(i, v, anchored))
  }

  ghost predicate RowSplits(x: seq<Id>, y: seq<Id>, rs: seq<Instance>, cs: seq<Instance>, vs: seq<VNode>, k: nat) {
    && |y| == StrayUpTo(cs, vs, k) && |x| + |y| == |NodesAll(rs)|
    && (forall n :: n in x ==> n in NodesAll(rs))
    && (x + y == NodesAll(rs) <==> InOrderUpTo(cs, vs, k))
  }

  ghost predicate Row(d: Doc, e: Doc, cs: seq<Instance>, vs: seq<VNode>, rs: seq<Instance>, c: Id, k: nat) {
    && Matches(rs, VDone(vs, k)) && ShapedAll(rs)
    && ApartAll(rs) && Sourced(d, e, OwnedAll(Done(cs, k)), OwnedAll(rs))
    && (AttachedAll(e, rs, c) <==> InnerUpTo(cs, vs, |VDone(vs, k)|))
  }

  ghost predicate AttachedAll(e: Doc, rs: seq<Instance>, c: Id) {
    forall j :: 0 <= j < |rs| ==> Attached(e, rs[j], c)
  }

  ghost predicate ShapedAll(rs: seq<Instance>) {
    forall j :: 0 <= j < |rs| ==> Shaped(rs[j])
  }

  lemma {:induction false} AllOneMore(e: Doc, rs: seq<Instance>, r: Instance, c: Id, vs: seq<VNode>)
    ensures AttachedAll(e, rs + [r], c) <==> AttachedAll(e, rs, c) && Attached(e, r, c)
    ensures ShapedAll(rs) && Shaped(r) ==> ShapedAll(rs + [r])
    ensures |rs| < |vs| && Matches(rs, vs[..|rs|]) && r.vnode == vs[|rs|] ==> Matches(rs + [r], vs[..|rs| + 1])
  {
    assert (rs + [r])[|rs|] == r;
    assert forall j :: 0 <= j < |rs| ==> (rs + [r])[j] == rs[j];
  }

  /** The slots not yet visited are as they were mounted. */
  ghost predicate Pending(e: Doc, cs: seq<Instance>, c: Id, k: nat) {
    forall j :: k <= j < |cs| ==> Mounted(e, cs[j], c)
  }

  ghost predicate RowReconciled(d: Doc, e: Doc, cs: seq<Instance>, vs: seq<VNode>, rs: seq<Instance>, c: Id, k: nat) {
    Updated(d, e, c, OwnedAll(cs)) && Row(d, e, cs, vs, rs, c, k)
  }

  lemma {:induction false} OwnedDone(cs: seq<Instance>, k: nat)
    requires k < |cs|
    ensures OwnedAll(Done(cs, k + 1)) == OwnedAll(Done(cs, k)) + Owned(cs[k])
    ensures ApartAll(cs) ==> Owned(cs[k]) !! OwnedAll(Done(cs, k))
    ensures OwnedAll(Done(cs, k + 1)) <= OwnedAll(cs)
    decreases k
  {
    assert cs[..k + 1] == [cs[0]] + cs[1..][..k];
    if k > 0 {
      assert cs[..k] == [cs[0]] + cs[1..][..k - 1];
      OwnedDone(cs[1..], k - 1);
      OwnedAt(cs[1..], k - 1);
    } else {
      assert cs[..1][1..] == [];
    }
  }

  /** A tree built anew stands in for no old tree, or for one of another type. */
  lemma {:induction false} BuiltReconciled(d: Doc, e: Doc, i: Option<Instance>, r: Instance, v: VNode, c: Id)
    requires Built(d, e, r, v, c) && (i.None? || !SameType(i.value.vnode, v))
    ensures Reconciled(d, e, i, v, r, c)
  {
    hide Consistent;
    assert Inner(i, v);
  }

  lemma {:induction false} BuiltSplits(r: Instance, i: Option<Instance>, v: VNode, anchored: bool, x: seq<Id>,
                                       y: seq<Id>)
    requires Shaped(r) && r.vnode == v && (i.None? || !SameType(i.value.vnode, v))
    requires if anchored || NodesOf(i) != [] then x == Nodes(r) && y == [] else x == [] && y == Nodes(r)
    ensures Splits(x, y, r, i, v, anchored)
  {
    NodesRendered(r);
    assert Nodes(r) + [] == Nodes(r) && [] + Nodes(r) == Nodes(r);
  }

  lemma {:induction false} CutSeq(a: seq<Id>, n: seq<Id>, b: seq<Id>)
    requires forall m :: m in n ==> m !in a && m !in b
    ensures Minus(a + n + b, SetOf(n)) == a + b
  {
    MinusAppend(a + n, b, SetOf(n));
    MinusAppend(a, n, SetOf(n));
    MinusNone(a, SetOf(n));
    MinusAll(n, SetOf(n));
    MinusNone(b, SetOf(n));
    assert a + [] == a;
  }

  lemma {:induction false} CutOut(a: seq<Id>, n: seq<Id>, b: seq<Id>)
    requires NoDup(a + n + b)
    ensures Minus(a + n + b, SetOf(n)) == a + b
    ensures NoDup(n) && forall m :: m in n ==> m in a + n + b
  {
    NoDupParts(a + n, b);
    NoDupParts(a, n);
    hide NoDup;
    forall m | m in n ensures m !in a && m !in b {
      assert m in a + n;
    }
    CutSeq(a, n, b);
  }

  lemma {:induction false} OnlyAtUpdated(d: Doc, e: Doc, c: Id, owned: set<Id>)
    requires Consistent(d) && Consistent(e) && c in d.labels && OnlyAt(d, e, c)
    ensures Updated(d, e, c, owned)
  {}

  ghost predicate Tracked(d: Doc, cs: seq<Instance>, c: Id) {
    ApartAll(cs) && c !in OwnedAll(cs) && forall n :: n in OwnedAll(cs) ==> n in d.labels
  }

  lemma {:induction false} UpdatedTwice(d: Doc, e: Doc, f: Doc, c: Id, s: set<Id>, t: set<Id>)
    requires Updated(d, e, c, s) && Updated(e, f, c, t) && t <= s
    requires forall n :: n in t ==> n in d.labels
    ensures Updated(d, f, c, s)
  {}

  /** What slot `k` did leaves the instances made so far alone. */
  lemma {:induction false} RowUntouched(d: Doc, e: Doc, f: Doc, cs: seq<Instance>, rs: seq<Instance>, c: Id, k: nat)
    requires Updated(d, e, c, OwnedAll(cs)) && Updated(e, f, c, OwnedBy(At(cs, k))) && Tracked(d, cs, c)
    requires Sourced(d, e, OwnedAll(Done(cs, k)), OwnedAll(rs))
    ensures AttachedAll(e, rs, c) <==> AttachedAll(f, rs, c)
    ensures OwnedBy(At(cs, k)) !! OwnedAll(rs)
    ensures Sourced(d, f, OwnedAll(Done(cs, k + 1)), OwnedAll(rs))
  {
    if k < |cs| {
      OwnedDone(cs, k);
      OwnedAt(cs, k);
    }
    assert OwnedBy(At(cs, k)) !! OwnedAll(rs);
    OwnedDoneAll(cs, k);
    AttachedFrameAll(e, f, rs, c);
  }

  lemma {:induction false} OwnedDoneAll(cs: seq<Instance>, k: nat)
    ensures OwnedAll(Done(cs, k)) <= OwnedAll(cs)
    ensures OwnedAll(Done(cs, k)) <= OwnedAll(Done(cs, k + 1))
  {
    if 0 < k <= |cs| {
      OwnedDone(cs, k - 1);
    }
    if k < |cs| {
      OwnedDone(cs, k);
    } else if k == |cs| {
      assert cs[..k] == cs;
    }
  }

  lemma {:induction false} RowAdvance(d: Doc, e: Doc, f: Doc, cs: seq<Instance>, vs: seq<VNode>, rs: seq<Instance>,
                                      r: Instance, c: Id, k: nat)
    requires k < |vs| && Tracked(d, cs, c)
    requires Updated(d, e, c, OwnedAll(cs)) && Row(d, e, cs, vs, rs, c, k)
    requires Reconciled(e, f, At(cs, k), vs[k], r, c)
    ensures Row(d, f, cs, vs, rs + [r], c, k + 1)
  {
    InnerMore(cs, vs, k);
    assert VDone(vs, k) == vs[..k] && VDone(vs, k + 1) == vs[..k + 1];
    hide Updated, Sourced, ApartAll, Inner, InnerUpTo, AttachedAll, ShapedAll, Matches, Attached, Shaped, Tracked,
      VDone, Done, OwnedAll, Owned;
    RowUntouched(d, e, f, cs, rs, c, k);
    SourcesAdvance(d, e, f, cs, rs, r, c, k);
    AllOneMore(f, rs, r, c, vs);
  }

  lemma {:induction false} InnerMore(cs: seq<Instance>, vs: seq<VNode>, k: nat)
    requires k < |vs|
    ensures InnerUpTo(cs, vs, k + 1) <==> InnerUpTo(cs, vs, k) && Inner(At(cs, k), vs[k])
  {}

  lemma {:induction false} SourcesAdvance(d: Doc, e: Doc, f: Doc, cs: seq<Instance>, rs: seq<Instance>, r: Instance,
                                          c: Id, k: nat)
    requires Updated(d, e, c, OwnedAll(cs)) && Updated(e, f, c, OwnedBy(At(cs, k)))
    requires Sourced(d, e, OwnedAll(Done(cs, k)), OwnedAll(rs)) && Sourced(e, f, OwnedBy(At(cs, k)), Owned(r))
    requires OwnedBy(At(cs, k)) !! OwnedAll(rs) && ApartAll(rs) && Apart(r)
    requires Sourced(d, f, OwnedAll(Done(cs, k + 1)), OwnedAll(rs))
    ensures ApartAll(rs + [r])
    ensures Sourced(d, f, OwnedAll(Done(cs, k + 1)), OwnedAll(rs + [r]))
  {
    assert Owned(r) !! OwnedAll(rs);
    OwnedAllAppend(rs, r);
    if k < |cs| { OwnedDone(cs, k); }
  }

  lemma {:induction false} RowSkip(d: Doc, e: Doc, f: Doc, cs: seq<Instance>, vs: seq<VNode>, rs: seq<Instance>, c: Id,
                                   k: nat)
    requires |vs| <= k && Tracked(d, cs, c)
    requires Updated(d, e, c, OwnedAll(cs)) && Row(d, e, cs, vs, rs, c, k)
    requires Updated(e, f, c, OwnedBy(At(cs, k)))
    ensures Row(d, f, cs, vs, rs, c, k + 1)
  {
    RowUntouched(d, e, f, cs, rs, c, k);
    assert vs[..|vs|] == vs;
    hide Updated, ApartAll;
  }

  lemma {:induction false} PendingStep(e: Doc, f: Doc, cs: seq<Instance>, c: Id, k: nat)
    requires Updated(e, f, c, OwnedBy(At(cs, k))) && Pending(e, cs, c, k) && Tracked(e, cs, c)
    ensures Pending(f, cs, c, k + 1)
  {
    forall j | k < j < |cs| ensures Mounted(f, cs[j], c) {
      OwnedAt(cs, j);
      assert Mounted(e, cs[j], c);
      AttachedFrame(e, f, cs[j], c);
    }
  }

  lemma {:induction false} RowSplitsStep(x: seq<Id>, y: seq<Id>, rs: seq<Instance>, x': seq<Id>, y': seq<Id>,
                                         r: Instance,
                      cs: seq<Instance>, vs: seq<VNode>, k: nat)
    requires k < |vs| && RowSplits(x, y, rs, cs, vs, k)
    requires Splits(x', y', r, At(cs, k), vs[k], Later(cs, k) != []) && Shaped(r) && r.vnode == vs[k]
    requires forall n :: n in NodesAll(rs) ==> n !in Nodes(r)
    ensures RowSplits(x + x', y + y', rs + [r], cs, vs, k + 1)
  {
    NodesAllOne(rs, r);
    NodesRendered(r);
    SplitOrder(x, y, NodesAll(rs), x', y', Nodes(r));
  }

  lemma {:induction false} AllDone(cs: seq<Instance>, vs: seq<VNode>)
    ensures Done(cs, Max(|cs|, |vs|)) == cs && VDone(vs, Max(|cs|, |vs|)) == vs
  {
    assert cs[..|cs|] == cs && vs[..|vs|] == vs;
  }

  lemma {:induction false} TextReconciled(d: Doc, v0: VNode, n: Id, v: VNode, c: Id, anchored: bool)
    requires Consistent(d) && c in d.labels && Mounted(d, TextInst(v0, n), c) && v.Text? && c != n
    ensures var e := d.(labels := d.labels[n := TextNode(v.text)]);
            Consistent(e) && e.kids == d.kids && Reconciled(d, e, Some(TextInst(v0, n)), v, TextInst(v, n), c)
    ensures Splits([n], [], TextInst(v, n), Some(TextInst(v0, n)), v, anchored)
  {}

  lemma {:induction false} EmptyReconciled(d: Doc, p: Id, c: Id, anchored: bool)
    requires Consistent(d) && c in d.labels
    ensures Reconciled(d, d, Some(GroupInst(Empty, p, [])), Empty, GroupInst(Empty, c, []), c)
    ensures Splits([], [], GroupInst(Empty, c, []), Some(GroupInst(Empty, p, [])), Empty, anchored)
  {}

  lemma {:induction false} GroupReconciled(d: Doc, e: Doc, i: Instance, v: VNode, rs: seq<Instance>, c: Id,
                        x: seq<Id>, y: seq<Id>, anchored: bool)
    requires i.GroupInst? && v.Group? && SameType(i.vnode, v)
    requires var cs := i.childInstances;
             var n := Max(|cs|, |v.children|);
             RowReconciled(d, e, cs, v.children, rs, c, n) && RowSplits(x, y, rs, cs, v.children, n)
    ensures Reconciled(d, e, Some(i), v, GroupInst(v, c, rs), c)
    ensures Splits(x, y, GroupInst(v, c, rs), Some(i), v, anchored)
  {
    hide Updated;
    var cs, vs := i.childInstances, v.children;
    var n := Max(|cs|, |vs|);
    AllDone(cs, vs);
  }

  lemma {:induction false} ComponentReconciled(d: Doc, e: Doc, i: Instance, v: VNode, r: Instance, c: Id,
                            x: seq<Id>, y: seq<Id>, anchored: bool)
    requires i.CompInst? && v.Component? && SameType(i.vnode, v)
    requires Reconciled(d, e, Some(i.renderedInstance), v.rendered, r, c)
    requires Splits(x, y, r, Some(i.renderedInstance), v.rendered, anchored)
    ensures Reconciled(d, e, Some(i), v, CompInst(v, c, r), c)
    ensures Splits(x, y, CompInst(v, c, r), Some(i), v, anchored)
  {
    hide Updated;
  }

  /** The host keeps its node; its props and then its children are brought up to date. */
  lemma {:induction false} HostUpdated(d: Doc, e: Doc, f: Doc, i: Instance, l: Label, c: Id)
    requires i.HostInst? && Consistent(d) && c in d.labels && c !in Owned(i) && i.dom in d.labels
    requires e == d.(labels := d.labels[i.dom := l]) && Updated(e, f, i.dom, OwnedAll(i.childInstances))
    ensures Updated(d, f, c, Owned(i)) && c in f.kids && f.kids[c] == d.kids[c] && f.labels[i.dom] == l
  {}

  lemma {:induction false} HostReconciled(d: Doc, e: Doc, f: Doc, i: Instance, v: VNode, rs: seq<Instance>, c: Id,
                       x: seq<Id>, y: seq<Id>, anchored: bool)
    requires i.HostInst? && v.Host? && SameType(i.vnode, v) && Consistent(d) && c in d.labels && c !in Owned(i)
    requires Apart(i) && Owned(i) <= d.labels.Keys
    requires e == d.(labels := d.labels[i.dom := Element(v.tag, v.props)])
    requires var cs := i.childInstances;
             var n := Max(|cs|, |v.children|);
             RowReconciled(e, f, cs, v.children, rs, i.dom, n) && RowSplits(x, y, rs, cs, v.children, n)
    requires f.kids[i.dom] == x + y
    ensures Reconciled(d, f, Some(i), v, HostInst(v, i.dom, rs), c) && c in f.kids && f.kids[c] == d.kids[c]
    ensures Splits([i.dom], [], HostInst(v, i.dom, rs), Some(i), v, anchored)
  {
    var cs, vs := i.childInstances, v.children;
    hide Updated, Consistent, Sourced, RowSplits, Inner, InnerUpTo, Attached, Tracked;
    AllDone(cs, vs);
    HostUpdated(d, e, f, i, Element(v.tag, v.props), c);
    HostSourced(d, e, f, i, rs, c);
    HostAttached(f, i, v, rs, c, x, y);
    hide Row, AttachedAll;
  }

  lemma {:induction false} HostSourced(d: Doc, e: Doc, f: Doc, i: Instance, rs: seq<Instance>, c: Id)
    requires i.HostInst? && Apart(i) && Consistent(d) && Owned(i) <= d.labels.Keys
    requires e.labels.Keys == d.labels.Keys && e.next == d.next && Updated(e, f, i.dom, OwnedAll(i.childInstances))
    requires Sourced(e, f, OwnedAll(i.childInstances), OwnedAll(rs)) && ApartAll(rs)
    ensures i.dom in f.labels && i.dom in f.kids && i.dom !in OwnedAll(rs)
    ensures Sourced(d, f, Owned(i), {i.dom} + OwnedAll(rs))
  {}

  lemma {:induction false} HostAttached(f: Doc, i: Instance, v: VNode, rs: seq<Instance>, c: Id, x: seq<Id>, y: seq<Id>)
    requires i.HostInst? && v.Host? && SameType(i.vnode, v) && i.dom in f.labels && i.dom in f.kids
    requires f.labels[i.dom] == Element(v.tag, v.props) && f.kids[i.dom] == x + y
    requires RowSplits(x, y, rs, i.childInstances, v.children, Max(|i.childInstances|, |v.children|))
    requires AttachedAll(f, rs, i.dom) <==> InnerUpTo(i.childInstances, v.children, |v.children|)
    ensures Attached(f, HostInst(v, i.dom, rs), c) <==> Inner(Some(i), v)
  {}

  ghost function Weight(v: VNode): nat {
    match v
    case Group(_, cs) => 1 + WeightAll(cs)
    case Component(_, r) => 1 + Weight(r)
    case Host(_, _, cs) => 1 + WeightAll(cs)
    case _ => 1
  }

  ghost function WeightAll(vs: seq<VNode>): nat {
    if vs == [] then 1 else Weight(vs[0]) + WeightAll(vs[1..])
  }

  lemma {:induction false} WeightAt(vs: seq<VNode>, k: nat)
    requires k < |vs|
    ensures Weight(vs[k]) < WeightAll(vs)
    decreases k
  {
    if k > 0 {
      WeightAt(vs[1..], k - 1);
    } else {
      assert WeightAll(vs[1..]) > 0;
    }
  }

  lemma {:induction false} LandsAround(pre: seq<Id>, x: seq<Id>, post: seq<Id>, y: seq<Id>, r: Instance,
                                       anchor: Option<Id>)
    requires if anchor.Some? then x == Nodes(r) && y == [] else x == [] && y == Nodes(r)
    ensures (if anchor.Some? then pre else pre + post) + (if anchor.Some? then post else []) == pre + post
    ensures (if anchor.Some? then pre else pre + post) + Nodes(r) + (if anchor.Some? then post else []) == pre + x +
            post + y
  {}

  lemma {:induction false} RestAt(cs: seq<Instance>, k: nat)
    ensures NodesAll(Rest(cs, k)) == NodesOf(At(cs, k)) + Later(cs, k)
    ensures Later(cs, k) == NodesAll(Rest(cs, k + 1))
  {
    if k < |cs| {
      assert cs[k..] == [cs[k]] + cs[k + 1..];
    }
  }

  lemma {:induction false} AnchorStep(cs: seq<Instance>, j: nat)
    requires j < |cs|
    ensures if Nodes(cs[j]) == [] then NodesAll(Rest(cs, j)) == NodesAll(Rest(cs, j + 1))
            else NodesAll(Rest(cs, j)) != [] && NodesAll(Rest(cs, j))[0] == Nodes(cs[j])[0]
  {
    RestAt(cs, j);
  }

  lemma {:induction false} AnchorEnds(cs: seq<Instance>)
    ensures forall j: nat :: j >= |cs| ==> NodesAll(Rest(cs, j)) == []
  {}

  lemma {:induction false} SlotAround(kids: seq<Id>, pre: seq<Id>, x: seq<Id>, cs: seq<Instance>, k: nat, post: seq<Id>,
                                      y: seq<Id>)
    requires kids == pre + x + NodesAll(Rest(cs, k)) + post + y
    ensures kids == (pre + x) + NodesOf(At(cs, k)) + (Later(cs, k) + post + y)
  {
    RestAt(cs, k);
  }

  lemma {:induction false} Shuffle(p: seq<Id>, x: seq<Id>, x': seq<Id>, l: seq<Id>, q: seq<Id>, y: seq<Id>, y': seq<Id>)
    ensures (p + x) + x' + (l + q + y) + y' == p + (x + x') + l + q + (y + y')
  {
    assert (p + x) + x' == p + (x + x');
    assert (l + q + y) + y' == l + q + (y + y');
  }

  lemma {:induction false} SlotBehind(pre: seq<Id>, x: seq<Id>, x': seq<Id>, cs: seq<Instance>, k: nat, post: seq<Id>,
                                      y: seq<Id>, y': seq<Id>)
    ensures (pre + x) + x' + (Later(cs, k) + post + y) + y'
         == pre + (x + x') + NodesAll(Rest(cs, k + 1)) + post + (y + y')
  {
    RestAt(cs, k);
    Shuffle(pre, x, x', Later(cs, k), post, y, y');
  }

  lemma {:induction false} SlotReady(start: Doc, d: Doc, cs: seq<Instance>, vs: seq<VNode>, rs: seq<Instance>, c: Id,
                                     k: nat)
    requires Tracked(start, cs, c) && RowReconciled(start, d, cs, vs, rs, c, k) && Pending(d, cs, c, k)
    ensures Consistent(d) && c in d.labels && Tracked(d, cs, c)
    ensures At(cs, k).Some? ==> Mounted(d, cs[k], c) && Apart(cs[k]) && c !in Owned(cs[k])
  {
    if k < |cs| {
      OwnedAt(cs, k);
    }
  }

  lemma {:induction false} SlotKept(start: Doc, d: Doc, e: Doc, cs: seq<Instance>, vs: seq<VNode>, rs: seq<Instance>,
                                    c: Id, k: nat)
    requires Tracked(start, cs, c) && Tracked(d, cs, c) && RowReconciled(start, d, cs, vs, rs, c, k)
    requires Pending(d, cs, c, k) && Updated(d, e, c, OwnedBy(At(cs, k)))
    ensures Updated(start, e, c, OwnedAll(cs)) && Pending(e, cs, c, k + 1) && c in e.kids
  {
    if k < |cs| { OwnedAt(cs, k); }
    PendingStep(d, e, cs, c, k);
    UpdatedTwice(start, d, e, c, OwnedAll(cs), OwnedBy(At(cs, k)));
  }

  lemma {:induction false} SlotFilled(start: Doc, d: Doc, e: Doc, cs: seq<Instance>, vs: seq<VNode>, rs: seq<Instance>,
                                      r: Instance, c: Id, k: nat,
                   x: seq<Id>, y: seq<Id>, x': seq<Id>, y': seq<Id>)
    requires k < |vs| && Tracked(start, cs, c) && Tracked(d, cs, c)
    requires RowReconciled(start, d, cs, vs, rs, c, k) && Pending(d, cs, c, k) && RowSplits(x, y, rs, cs, vs, k)
    requires Reconciled(d, e, At(cs, k), vs[k], r, c) && Splits(x', y', r, At(cs, k), vs[k], Later(cs, k) != [])
    ensures RowReconciled(start, e, cs, vs, rs + [r], c, k + 1) && Pending(e, cs, c, k + 1) && c in e.kids
    ensures RowSplits(x + x', y + y', rs + [r], cs, vs, k + 1)
  {
    SlotKept(start, d, e, cs, vs, rs, c, k);
    RowAdvance(start, d, e, cs, vs, rs, r, c, k);
    assert forall n :: n in NodesAll(rs) ==> n !in Nodes(r) by {
      RowUntouched(start, d, e, cs, rs, c, k);
      NodesOwnedAll(rs);
      NodesOwned(r);
    }
    hide Row, Updated, Pending, Sourced, RowSplits, Splits, Tracked;
    RowSplitsStep(x, y, rs, x', y', r, cs, vs, k);
  }

  lemma {:induction false} SlotDropped(start: Doc, d: Doc, e: Doc, cs: seq<Instance>, vs: seq<VNode>, rs: seq<Instance>,
                                       c: Id, k: nat,
                    x: seq<Id>, y: seq<Id>)
    requires |vs| <= k && Tracked(start, cs, c) && Tracked(d, cs, c)
    requires RowReconciled(start, d, cs, vs, rs, c, k) && Pending(d, cs, c, k) && RowSplits(x, y, rs, cs, vs, k)
    requires Updated(d, e, c, OwnedBy(At(cs, k)))
    ensures RowReconciled(start, e, cs, vs, rs, c, k + 1) && Pending(e, cs, c, k + 1) && c in e.kids
    ensures RowSplits(x, y, rs, cs, vs, k + 1)
  {
    SlotKept(start, d, e, cs, vs, rs, c, k);
    RowSkip(start, d, e, cs, vs, rs, c, k);
  }

  lemma {:induction false} ChildrenTracked(d: Doc, e: Doc, i: Instance, l: Label, c: Id)
    requires i.HostInst? && Consistent(d) && Mounted(d, i, c) && Apart(i)
    requires e == d.(labels := d.labels[i.dom := l])
    ensures Consistent(e) && Tracked(e, i.childInstances, i.dom) && Pending(e, i.childInstances, i.dom, 0)
    ensures e.kids[i.dom] == NodesAll(i.childInstances)
  {
    AttachedOwnedAll(d, i.childInstances, i.dom);
    AttachedFrameAll(d, e, i.childInstances, i.dom);
  }

  lemma {:induction false} BuiltInto(d: Doc, e: Doc, r: Instance, v: VNode, c: Id)
    requires Built(d, e, r, v, c)
    ensures Consistent(e) && c in e.labels && c in e.kids && r.vnode == v && Shaped(r)
  {}

  lemma {:induction false} ConsistentKids(d: Doc, c: Id)
    requires Consistent(d) && c in d.labels
    ensures c in d.kids && NoDup(d.kids[c])
  {}

  lemma {:induction false} AroundOld(pre: seq<Id>, x: seq<Id>, was: seq<Id>, post: seq<Id>, y: seq<Id>)
    ensures pre + x + (was + post) + y == (pre + x) + was + (post + y)
  {}

  lemma {:induction false} AroundGap(pre: seq<Id>, x: seq<Id>, post: seq<Id>, y: seq<Id>)
    ensures (pre + x) + (post + y) == pre + x + post + y
  {}

  lemma {:induction false} RowStart(d: Doc, cs: seq<Instance>, vs: seq<VNode>, c: Id)
    requires Consistent(d) && c in d.labels
    ensures RowReconciled(d, d, cs, vs, [], c, 0) && RowSplits([], [], [], cs, vs, 0)
    ensures Rest(cs, 0) == cs
  {
    assert cs[0..] == cs;
  }

  /** Nodes in place and strays, with `post` between them, make one run exactly when nothing has to
      pass `post`. */
  lemma {:induction false} OneRun(whole: seq<Id>, pre: seq<Id>, x: seq<Id>, post: seq<Id>, y: seq<Id>, n: seq<Id>)
    requires whole == pre + x + post + y && NoDup(whole) && |x| + |y| == |n|
    ensures whole == pre + n + post <==> x + y == n && (post == [] || y == [])
  {
    if y == [] {
      assert x + y == x;
      assert whole[|pre|..][..|x|] == x;
      assert (pre + n + post)[|pre|..][..|n|] == n;
    } else if post == [] {
      assert whole[|pre|..] == x + y;
      assert (pre + n + post)[|pre|..] == n;
    } else {
      var at := |pre + x + post| - 1;
      assert whole[at] == post[|post| - 1] && whole[|whole| - 1] == y[|y| - 1];
      assert whole[at] != whole[|whole| - 1];
      assert (pre + n + post)[|whole| - 1] == post[|post| - 1];
    }
  }

  /** The update is the fresh tree in the old tree's place exactly when the placement settles. */
  lemma {:induction false} PlacedIffSettles(d: Doc, e: Doc, i: Option<Instance>, v: VNode, r: Instance, c: Id,
                         x: seq<Id>, y: seq<Id>, anchored: bool, pre: seq<Id>, post: seq<Id>)
    requires Reconciled(d, e, i, v, r, c) && Splits(x, y, r, i, v, anchored)
    requires c in e.kids && e.kids[c] == pre + x + post + y
    ensures e.kids[c] == pre + Nodes(r) + post && Mounted(e, r, c) <==> Settles(i, v, anchored, post == [])
    ensures Mounted(e, r, c) ==> ShowsAll(e, Nodes(r), Render(v))
  {
    ConsistentKids(e, c);
    OneRun(e.kids[c], pre, x, post, y, Nodes(r));
    if Mounted(e, r, c) {
      MountedShows(e, r, c);
    }
    hide Consistent, Updated, Shaped, Attached, Inner, InOrder, Stray, Nodes, Render, ShowsAll;
  }

  lemma {:induction false} BuiltFresh(d: Doc, e: Doc, r: Instance, v: VNode, c: Id)
    requires Built(d, e, r, v, c)
    ensures r.vnode == v && FreshIn(d, e, Owned(r))
  {}

  /** The updated tree keeps what it can: under the same type an element and a text keep their node and go on
      with the children at the same positions; under another type no node is taken over. */
  ghost predicate Reuses(i: Instance, r: Instance)
    decreases i
  {
    if !SameType(i.vnode, r.vnode) then Owned(i) !! Owned(r)
    else match i
      case TextInst(_, n) => r.TextInst? && r.dom == n
      case HostInst(_, n, cs) => r.HostInst? && r.dom == n && forall k | 0 <= k < |cs| && k < |r.childInstances| ::
        Reuses(cs[k], r.childInstances[k])
      case GroupInst(_, _, cs) => r.GroupInst? && forall k | 0 <= k < |cs| && k < |r.childInstances| ::
        Reuses(cs[k], r.childInstances[k])
      case CompInst(_, _, inner) => r.CompInst? && Reuses(inner, r.renderedInstance)
  }

  ghost predicate RowReuses(cs: seq<Instance>, rs: seq<Instance>) {
    forall k :: 0 <= k < |cs| && k < |rs| ==> Reuses(cs[k], rs[k])
  }

  lemma {:induction false} RowReusesNone(cs: seq<Instance>)
    ensures RowReuses(cs, [])
  {}

  lemma {:induction false} RowReusesMore(cs: seq<Instance>, rs: seq<Instance>, r: Instance)
    requires RowReuses(cs, rs) && (|rs| < |cs| ==> Reuses(cs[|rs|], r))
    ensures RowReuses(cs, rs + [r])
  {
    hide Reuses;
  }

  /** Nodes made after the old tree was mounted are none of its. */
  lemma {:induction false} NewReuses(d: Doc, e: Doc, i: Instance, r: Instance, c: Id)
    requires Consistent(d) && Mounted(d, i, c) && !SameType(i.vnode, r.vnode) && FreshIn(d, e, Owned(r))
    ensures Reuses(i, r)
  {
    AttachedOwned(d, i, c);
    hide Mounted, Owned;
  }

  class Client {
    var dom: Doc

    constructor (d: Doc)
      ensures dom == d
    {
      dom := d;
    }

    method InsertInstance(c: Id, i: Instance, before: Option<Id>, ghost a: seq<Id>, ghost b: seq<Id>)
      requires Consistent(dom) && c in dom.labels && Movable(dom, c, Nodes(i))
      requires Minus(dom.kids[c], SetOf(Nodes(i))) == a + b && Marks(before, b)
      modifies this
      ensures Consistent(dom) && OnlyAt(old(dom), dom, c) && dom.kids[c] == a + Nodes(i) + b
    {
      var nodes := CollectInstanceNodes(i, []);
      ghost var start := dom;
      assert nodes[0..] == nodes;
      assert a + nodes[..0] == a;
      for k := 0 to |nodes|
        invariant Moving(start, dom, c, nodes, k, a, b)
      {
        MoveStep(start, dom, c, nodes, k, a, b, before);
        dom := InsertBefore(dom, c, nodes[k], before);
      }
      MinusNone(dom.kids[c], SetOf(nodes[|nodes|..]));
      assert nodes[..|nodes|] == nodes;
    }

    method RemoveInstance(i: Instance, ghost c: Id)
      requires Consistent(dom) && c in dom.labels && NoDup(Nodes(i))
      requires forall n :: n in Nodes(i) ==> n in dom.kids[c]
      modifies this
      ensures Consistent(dom) && OnlyAt(old(dom), dom, c)
      ensures dom.kids[c] == Minus(old(dom.kids[c]), SetOf(Nodes(i)))
    {
      var nodes := CollectInstanceNodes(i, []);
      assert nodes == Nodes(i);
      RemoveNodes(nodes, c);
    }

    method RemoveNodes(nodes: seq<Id>, ghost c: Id)
      requires Consistent(dom) && c in dom.labels && NoDup(nodes)
      requires forall n :: n in nodes ==> n in dom.kids[c]
      modifies this
      ensures Consistent(dom) && OnlyAt(old(dom), dom, c)
      ensures dom.kids[c] == Minus(old(dom.kids[c]), SetOf(nodes))
    {
      ghost var start := dom;
      MinusNone(dom.kids[c], SetOf(nodes[..0]));
      for k := 0 to |nodes|
        invariant Removing(start, dom, c, nodes, k)
      {
        RemoveStep(start, dom, c, nodes, k);
        dom := Detach(dom, nodes[k]);
      }
      assert nodes[..|nodes|] == nodes;
    }

    method MountChildren(vs: seq<VNode>, c: Id) returns (rs: seq<Instance>)
      requires Consistent(dom) && c in dom.labels
      modifies this
      ensures BuiltAll(old(dom), dom, rs, vs, c)
      decreases vs
    {
      rs := [];
      ghost var start := dom;
      for k := 0 to |vs|
        invariant |rs| == k && BuiltAll(start, dom, rs, vs[..k], c)
      {
        ghost var before := dom;
        var r := Instantiate(vs[k], c);
        WaitingMovable(before, dom, r, vs[k], c);
        ghost var built := dom;
        InsertInstance(c, r, None, before.kids[c], []);
        BuiltFrame(before, built, dom, r, vs[k], c);
        MountStep(start, before, dom, rs, r, vs, c);
        rs := rs + [r];
      }
      assert vs[..|vs|] == vs;
    }

    method Instantiate(v: VNode, c: Id) returns (r: Instance)
      requires Consistent(dom) && c in dom.labels
      modifies this
      ensures Built(old(dom), dom, r, v, c) && Waiting(old(dom), dom, r, v, c)
      decreases v
    {
      hide Built, Waiting, BuiltAll;
      ghost var start := dom;
      match v
      case Text(t) =>
        r := TextInst(v, dom.next);
        dom := Create(dom, TextNode(t));
        TextBuilt(start, v, c);
      case Group(_, vs) =>
        var rs := MountChildren(vs, c);
        r := GroupInst(v, c, rs);
        GroupBuilt(start, dom, rs, v, c);
      case Empty =>
        r := GroupInst(v, c, []);
        EmptyBuilt(start, c);
      case Component(_, rendered) =>
        var inner := Instantiate(rendered, c);
        r := CompInst(v, c, inner);
        ComponentBuilt(start, dom, inner, v, c);
      case Host(tag, props, vs) =>
        var n := dom.next;
        CreateConsistent(dom, Element(tag, props));
        dom := Create(dom, Element(tag, props));
        var rs := MountChildren(vs, n);
        r := HostInst(v, n, rs);
        HostBuilt(start, dom, rs, v, c);
    }

    /** The first node of a later sibling. */
    method NextAnchor(cs: seq<Instance>, k: nat) returns (anchor: Option<Id>)
      ensures anchor == if Later(cs, k) != [] then Some(Later(cs, k)[0]) else None
    {
      anchor := None;
      RestAt(cs, k);
      AnchorEnds(cs);
      hide Later, NodesAll, Rest, Nodes;
      var j := k + 1;
      while j < |cs| && anchor.None?
        invariant anchor.None? ==> Later(cs, k) == NodesAll(Rest(cs, j))
        invariant anchor.Some? ==> Later(cs, k) != [] && anchor.value == Later(cs, k)[0]
        decreases |cs| - j
      {
        AnchorStep(cs, j);
        anchor := FirstInstanceNode(cs[j]);
        j := j + 1;
      }
    }

    /** Diffs the children of `c` against `vs`, index by index. The ghosts say what stands before
        and after them in the container; the slots' nodes end up in `x`, the strays in `y`. */
    method ReconcileChildList(c: Id, cs: seq<Instance>, vs: seq<VNode>, ghost pre: seq<Id>, ghost post: seq<Id>)
      returns (rs: seq<Instance>, ghost x: seq<Id>, ghost y: seq<Id>)
      requires Consistent(dom) && c in dom.labels && Tracked(dom, cs, c) && Pending(dom, cs, c, 0)
      requires dom.kids[c] == pre + NodesAll(cs) + post
      modifies this
      ensures RowReconciled(old(dom), dom, cs, vs, rs, c, Max(|cs|, |vs|))
      ensures RowSplits(x, y, rs, cs, vs, Max(|cs|, |vs|)) && RowReuses(cs, rs)
      ensures c in dom.kids && dom.kids[c] == pre + x + post + y
      decreases WeightAll(vs), 0
    {
      RowReusesNone(cs);
      hide Reuses, RowReuses;
      hide RowReconciled, RowSplits, Pending, Reconciled, Splits, Updated, Tracked, Mounted, Apart, Owned, Consistent;
      rs, x, y := [], [], [];
      ghost var start := dom;
      var count := if |cs| > |vs| then |cs| else |vs|;
      RowStart(start, cs, vs, c);
      ConsistentKids(dom, c);
      assert WeightAll(vs) > 0;
      for k := 0 to count
        invariant RowReconciled(start, dom, cs, vs, rs, c, k)
        invariant RowSplits(x, y, rs, cs, vs, k) && RowReuses(cs, rs) && |rs| == if k < |vs| then k else |vs|
        invariant Pending(dom, cs, c, k) && c in dom.kids
        invariant dom.kids[c] == pre + x + NodesAll(Rest(cs, k)) + post + y
      {
        ghost var before := dom;
        SlotReady(start, dom, cs, vs, rs, c, k);
        SlotAround(dom.kids[c], pre, x, cs, k, post, y);
        var anchor := NextAnchor(cs, k);
        if k < |vs| { WeightAt(vs, k); }
        var child, x', y' := Reconcile(c, At(cs, k), VAt(vs, k), anchor, pre + x, Later(cs, k) + post + y);
        SlotBehind(pre, x, x', cs, k, post, y, y');
        if child.Some? {
          SlotFilled(start, before, dom, cs, vs, rs, child.value, c, k, x, y, x', y');
          RowReusesMore(cs, rs, child.value);
          rs := rs + [child.value];
        } else {
          SlotDropped(start, before, dom, cs, vs, rs, c, k, x, y);
          assert x + x' == x && y + y' == y;
        }
        x, y := x + x', y + y';
      }
      RestAt(cs, count);
    }

    method Reconcile(c: Id, i: Option<Instance>, v: Option<VNode>, anchor: Option<Id>, ghost pre: seq<Id>,
                     ghost post: seq<Id>)
      returns (r: Option<Instance>, ghost x: seq<Id>, ghost y: seq<Id>)
      requires Consistent(dom) && c in dom.labels && (i.Some? || v.Some?)
      requires i.Some? ==> Mounted(dom, i.value, c) && Apart(i.value) && c !in Owned(i.value)
      requires dom.kids[c] == pre + NodesOf(i) + post
      requires anchor.Some? ==> post != [] && anchor.value == post[0]
      modifies this
      ensures v.None? ==> r.None? && x == y == [] && Updated(old(dom), dom, c, OwnedBy(i))
      ensures v.Some? ==> r.Some? && Reconciled(old(dom), dom, i, v.value, r.value, c)
                          && Splits(x, y, r.value, i, v.value, anchor.Some?)
      ensures i.Some? && v.Some? ==> Reuses(i.value, r.value)
      ensures c in dom.kids && dom.kids[c] == pre + x + post + y
      ensures v.Some? ==>
                (dom.kids[c] == pre + Nodes(r.value) + post && Mounted(dom, r.value, c)
                 <==> Settles(i, v.value, anchor.Some?, post == []))
      ensures v.Some? && Settles(i, v.value, anchor.Some?, post == []) ==>
              ShowsAll(dom, Nodes(r.value), Render(v.value))
      decreases if v.Some? then Weight(v.value) else 0, 2
    {
      hide Consistent, Mounted, Apart, Owned, Reconciled, Splits, Updated, Settles, ShowsAll, Reuses, FreshIn;
      ghost var start := dom;
      if i.None? {
        r, x, y := Append(c, v.value, anchor, pre, post);
      } else if v.None? {
        Drop(c, i.value, pre, post);
        r, x, y := None, [], [];
        assert pre + [] + post + [] == pre + post;
      } else if !SameType(i.value.vnode, v.value) {
        r, x, y := Replace(c, i.value, v.value, anchor, pre, post);
        NewReuses(start, dom, i.value, r.value, c);
      } else {
        r, x, y := Patch(c, i.value, v.value, anchor, pre, post);
      }
      if v.Some? {
        PlacedIffSettles(start, dom, i, v.value, r.value, c, x, y, anchor.Some?, pre, post);
      }
    }

    /** A scheduled re-render of a component enters `Reconcile` with no anchor at all. */
    method Flush(fiber: Instance, v: VNode, ghost pre: seq<Id>, ghost post: seq<Id>) returns (r: Option<Instance>)
      requires Consistent(dom) && fiber.CompInst? && fiber.parentDom in dom.labels && SameType(fiber.vnode, v)
      requires Mounted(dom, fiber, fiber.parentDom) && Apart(fiber) && fiber.parentDom !in Owned(fiber)
      requires dom.kids[fiber.parentDom] == pre + Nodes(fiber) + post
      modifies this
      ensures r.Some? && Consistent(dom) && fiber.parentDom in dom.kids
      ensures (dom.kids[fiber.parentDom] == pre + Nodes(r.value) + post && Mounted(dom, r.value, fiber.parentDom))
              <==> Settles(Some(fiber), v, false, post == [])
    {
      ghost var x, y;
      r, x, y := Reconcile(fiber.parentDom, Some(fiber), Some(v), None, pre, post);
    }

    method Append(c: Id, v: VNode, anchor: Option<Id>, ghost pre: seq<Id>, ghost post: seq<Id>)
      returns (r: Option<Instance>, ghost x: seq<Id>, ghost y: seq<Id>)
      requires Consistent(dom) && c in dom.labels && dom.kids[c] == pre + post
      requires anchor.Some? ==> post != [] && anchor.value == post[0]
      modifies this
      ensures r.Some? && Reconciled(old(dom), dom, None, v, r.value, c) && Splits(x, y, r.value, None, v, anchor.Some?)
      ensures c in dom.kids && dom.kids[c] == pre + x + post + y
    {
      ghost var start := dom;
      var created := Instantiate(v, c);
      WaitingMovable(start, dom, created, v, c);
      ghost var built := dom;
      x, y := if anchor.Some? then Nodes(created) else [], if anchor.Some? then [] else Nodes(created);
      LandsAround(pre, x, post, y, created, anchor);
      InsertInstance(c, created, anchor, if anchor.Some? then pre else pre + post, if anchor.Some? then post else []);
      BuiltFrame(start, built, dom, created, v, c);
      r := Some(created);
      BuiltReconciled(start, dom, None, created, v, c);
      BuiltSplits(created, None, v, anchor.Some?, x, y);
    }

    method Drop(c: Id, i: Instance, ghost pre: seq<Id>, ghost post: seq<Id>)
      requires Consistent(dom) && c in dom.labels && dom.kids[c] == pre + Nodes(i) + post
      modifies this
      ensures Updated(old(dom), dom, c, Owned(i)) && c in dom.kids && dom.kids[c] == pre + post
    {
      ghost var start := dom;
      CutOut(pre, Nodes(i), post);
      RemoveInstance(i, c);
      OnlyAtUpdated(start, dom, c, Owned(i));
    }

    method Replace(c: Id, i: Instance, v: VNode, anchor: Option<Id>, ghost pre: seq<Id>, ghost post: seq<Id>)
      returns (r: Option<Instance>, ghost x: seq<Id>, ghost y: seq<Id>)
      requires Consistent(dom) && c in dom.labels && !SameType(i.vnode, v) && dom.kids[c] == pre + Nodes(i) + post
      requires anchor.Some? ==> post != [] && anchor.value == post[0]
      modifies this
      ensures r.Some? && Reconciled(old(dom), dom, Some(i), v, r.value, c)
              && Splits(x, y, r.value, Some(i), v, anchor.Some?)
      ensures r.value.vnode == v && FreshIn(old(dom), dom, Owned(r.value))
      ensures c in dom.kids && dom.kids[c] == pre + x + post + y
    {
      hide Built, Waiting, Consistent, OnlyAt, Reconciled, Splits;
      ghost var start := dom;
      var lead := FirstInstanceNode(i);
      var before := if lead.Some? then lead else anchor;
      ghost var old' := Nodes(i);
      assert pre + old' + post == pre + (old' + post);
      var replacement := Instantiate(v, c);
      r := Some(replacement);
      WaitingMovable(start, dom, replacement, v, c);
      ghost var built := dom;
      x, y := if before.Some? then Nodes(replacement) else [], if before.Some? then [] else Nodes(replacement);
      LandsAround(pre, x, old' + post, y, replacement, before);
      BuiltInto(start, dom, replacement, v, c);
      InsertInstance(c, replacement, before,
                     if before.Some? then pre else pre + (old' + post), if before.Some? then old' + post else []);
      ghost var placed := dom;
      BuiltFrame(start, built, placed, replacement, v, c);
      BuiltInto(start, placed, replacement, v, c);
      AroundOld(pre, x, old', post, y);
      ConsistentKids(dom, c);
      CutOut(pre + x, old', post + y);
      RemoveInstance(i, c);
      AroundGap(pre, x, post, y);
      BuiltFrame(start, placed, dom, replacement, v, c);
      BuiltFresh(start, dom, replacement, v, c);
      BuiltReconciled(start, dom, Some(i), replacement, v, c);
      BuiltSplits(replacement, Some(i), v, anchor.Some?, x, y);
    }

    /** The same type on both sides: the instance is kept and brought up to date. */
    method Patch(c: Id, i: Instance, v: VNode, anchor: Option<Id>, ghost pre: seq<Id>, ghost post: seq<Id>)
      returns (r: Option<Instance>, ghost x: seq<Id>, ghost y: seq<Id>)
      requires Consistent(dom) && c in dom.labels && SameType(i.vnode, v)
      requires Mounted(dom, i, c) && Apart(i) && c !in Owned(i)
      requires dom.kids[c] == pre + Nodes(i) + post
      requires anchor.Some? ==> post != [] && anchor.value == post[0]
      modifies this
      ensures r.Some? && Reconciled(old(dom), dom, Some(i), v, r.value, c)
              && Splits(x, y, r.value, Some(i), v, anchor.Some?)
      ensures Reuses(i, r.value)
      ensures c in dom.kids && dom.kids[c] == pre + x + post + y
      decreases Weight(v), 1
    {
      ghost var start := dom;
      AttachedOwned(dom, i, c);
      assert Owned(i) <= start.labels.Keys;
      hide Reconciled, RowReconciled, RowSplits, Splits;
      match v
      case Text(t) =>
        x, y := [i.dom], [];
        TextReconciled(start, i.vnode, i.dom, v, c, anchor.Some?);
        dom := dom.(labels := dom.labels[i.dom := TextNode(t)]);
        r := Some(TextInst(v, i.dom));
      case Group(_, vs) =>
        var rs;
        rs, x, y := ReconcileChildList(c, i.childInstances, vs, pre, post);
        r := Some(GroupInst(v, c, rs));
        GroupReconciled(start, dom, i, v, rs, c, x, y, anchor.Some?);
      case Empty =>
        x, y := [], [];
        r := Some(GroupInst(v, c, []));
        EmptyReconciled(start, i.parentDom, c, anchor.Some?);
      case Component(_, rendered) =>
        var inner;
        inner, x, y := Reconcile(c, Some(i.renderedInstance), Some(rendered), anchor, pre, post);
        r := Some(CompInst(v, c, inner.value));
        ComponentReconciled(start, dom, i, v, inner.value, c, x, y, anchor.Some?);
      case Host(_, _, _) =>
        r := PatchHost(c, i, v, anchor.Some?);
        x, y := [i.dom], [];
    }

    /** A host element keeps its node: its props are diffed, then its children. */
    method PatchHost(c: Id, i: Instance, v: VNode, ghost anchored: bool) returns (r: Option<Instance>)
      requires Consistent(dom) && c in dom.labels && SameType(i.vnode, v) && v.Host?
      requires Mounted(dom, i, c) && Apart(i) && c !in Owned(i) && Owned(i) <= dom.labels.Keys
      modifies this
      ensures r.Some? && Reconciled(old(dom), dom, Some(i), v, r.value, c)
      ensures Splits([i.dom], [], r.value, Some(i), v, anchored) && Reuses(i, r.value)
      ensures c in dom.kids && dom.kids[c] == old(dom).kids[c]
      decreases Weight(v), 0
    {
      hide Reconciled, RowReconciled, RowSplits, Splits;
      ghost var start := dom;
      var n := i.dom;
      var painted := UpdatedProps(dom.labels[n].props, i.vnode.props, v.props);
      dom := dom.(labels := dom.labels[n := Element(dom.labels[n].tag, painted)]);
      ghost var labelled := dom;
      assert labelled == start.(labels := start.labels[n := Element(v.tag, v.props)]);
      ChildrenTracked(start, labelled, i, Element(v.tag, v.props), c);
      var rs;
      ghost var x, y;
      rs, x, y := ReconcileChildList(n, i.childInstances, v.children, [], []);
      assert dom.kids[n] == x + y;
      r := Some(HostInst(v, n, rs));
      HostReconciled(start, labelled, dom, i, v, rs, c, x, y, anchored);
    }
  }
}
