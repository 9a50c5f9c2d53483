/** Where `reconcile` puts the nodes of an updated tree, decided from the old instance tree and
    the new virtual tree alone.

    A slot reconciled with an anchor, or whose old instance still owns a node, stays in place.
    A slot with neither appends its new nodes at the end of the container: they are strays. */
module Placement {
  import opened Prelude
  import opened Dom
  import opened VTree

  function Max(a: nat, b: nat): nat { if a > b then a else b }

  function At(cs: seq<Instance>, k: nat): Option<Instance> {
    if k < |cs| then Some(cs[k]) else None
  }

  function NodesOf(i: Option<Instance>): seq<Id> { if i.Some? then Nodes(i.value) else [] }

  /** The nodes of the siblings after slot `k`; the first of them is slot `k`'s anchor. */
  function Later(cs: seq<Instance>, k: nat): seq<Id> {
    if k + 1 <= |cs| then NodesAll(cs[k + 1..]) else []
  }

  /** How many nodes of the updated slot end up appended to the container. */
  function Stray(i: Option<Instance>, v: VNode, anchored: bool): nat
    decreases v, 0
  {
    if i.None? then (if anchored then 0 else |Render(v)|)
    else if !SameType(i.value.vnode, v) then (if anchored || Nodes(i.value) != [] then 0 else |Render(v)|)
    else match v
      case Component(_, r) => if i.value.CompInst? then Stray(Some(i.value.renderedInstance), r, anchored) else 0
      case Group(_, vs) =>
        if i.value.GroupInst? then StrayUpTo(i.value.childInstances, vs, Max(|i.value.childInstances|, |vs|)) else 0
      case _ => 0
  }

  function StraySlot(cs: seq<Instance>, vs: seq<VNode>, k: nat): nat
    decreases vs, k, 0
  {
    if k < |vs| then Stray(At(cs, k), vs[k], Later(cs, k) != []) else 0
  }

  function StrayUpTo(cs: seq<Instance>, vs: seq<VNode>, k: nat): nat
    decreases vs, k, 1
  {
    if k == 0 then 0 else StrayUpTo(cs, vs, k - 1) + StraySlot(cs, vs, k - 1)
  }

  /** The nodes left in place followed by the strays are the slot's nodes in tree order. */
  ghost predicate InOrder(i: Option<Instance>, v: VNode, anchored: bool)
    decreases v, 0
  {
    i.None? || !SameType(i.value.vnode, v) ||
    match v
    case Component(_, r) => i.value.CompInst? && InOrder(Some(i.value.renderedInstance), r, anchored)
    case Group(_, vs) =>
      i.value.GroupInst? && InOrderUpTo(i.value.childInstances, vs, Max(|i.value.childInstances|, |vs|))
    case _ => true
  }

  /** No slot keeps a node in place after an earlier slot has let one stray. */
  ghost predicate InOrderUpTo(cs: seq<Instance>, vs: seq<VNode>, k: nat)
    decreases vs, k
  {
    k == 0 ||
    (InOrderUpTo(cs, vs, k - 1) &&
     (k - 1 < |vs| ==>
        && InOrder(At(cs, k - 1), vs[k - 1], Later(cs, k - 1) != [])
        && (StrayUpTo(cs, vs, k - 1) == 0 || StraySlot(cs, vs, k - 1) == |Render(vs[k - 1])|)))
  }

  /** Every host element below the slot ends with its children in tree order. */
  ghost predicate Inner(i: Option<Instance>, v: VNode)
    decreases v, 0
  {
    i.None? || !SameType(i.value.vnode, v) ||
    match v
    case Component(_, r) => i.value.CompInst? && Inner(Some(i.value.renderedInstance), r)
    case Group(_, vs) => i.value.GroupInst? && InnerUpTo(i.value.childInstances, vs, |vs|)
    case Host(_, _, vs) =>
      && i.value.HostInst?
      && InOrderUpTo(i.value.childInstances, vs, Max(|i.value.childInstances|, |vs|))
      && InnerUpTo(i.value.childInstances, vs, |vs|)
    case _ => true
  }

  ghost predicate InnerUpTo(cs: seq<Instance>, vs: seq<VNode>, k: nat)
    requires k <= |vs|
    decreases vs, k
  {
    k == 0 || (InnerUpTo(cs, vs, k - 1) && Inner(At(cs, k - 1), vs[k - 1]))
  }

  /** The update lands in place. `last` says nothing follows the slot in its container. */
  ghost predicate Settles(i: Option<Instance>, v: VNode, anchored: bool, last: bool) {
    Inner(i, v) && InOrder(i, v, anchored) && (last || Stray(i, v, anchored) == 0)
  }

  lemma {:induction false} StrayBound(i: Option<Instance>, v: VNode, anchored: bool)
    ensures Stray(i, v, anchored) <= |Render(v)|
    decreases v, 0
  {
    if i.Some? && SameType(i.value.vnode, v) {
      match v
      case Component(_, r) => if i.value.CompInst? { StrayBound(Some(i.value.renderedInstance), r, anchored); }
      case Group(_, vs) =>
        if i.value.GroupInst? {
          var n := Max(|i.value.childInstances|, |vs|);
          StrayUpToBound(i.value.childInstances, vs, n);
          assert vs[..|vs|] == vs;
        }
      case _ =>
    }
  }

  lemma {:induction false} StrayUpToBound(cs: seq<Instance>, vs: seq<VNode>, k: nat)
    ensures StrayUpTo(cs, vs, k) <= |RenderAll(if k <= |vs| then vs[..k] else vs)|
    decreases vs, k
  {
    if k > 0 {
      StrayUpToBound(cs, vs, k - 1);
      if k <= |vs| {
        StrayBound(At(cs, k - 1), vs[k - 1], Later(cs, k - 1) != []);
        assert vs[..k] == vs[..k - 1] + [vs[k - 1]];
        RenderAllAppend(vs[..k - 1], vs[k - 1]);
      } else if k - 1 == |vs| {
        assert vs[..k - 1] == vs;
      }
    }
  }

  lemma {:induction false} RenderAllAppend(vs: seq<VNode>, v: VNode)
    ensures RenderAll(vs + [v]) == RenderAll(vs) + Render(v)
  {
    if vs == [] {
      assert [v][1..] == [];
    } else {
      assert (vs + [v])[1..] == vs[1..] + [v];
      RenderAllAppend(vs[1..], v);
    }
  }

  /** Splitting a list into nodes in place and strays keeps tree order exactly when both halves
      do and nothing is kept after a stray. */
  lemma {:induction false} SplitOrder<T>(x: seq<T>, y: seq<T>, n: seq<T>, x': seq<T>, y': seq<T>, n': seq<T>)
    requires |x| + |y| == |n| && |x'| + |y'| == |n'|
    requires forall e :: e in n ==> e !in x'
    ensures (x + x') + (y + y') == n + n' <==> x + y == n && x' + y' == n' && (y == [] || x' == [])
  {
    var l, r := (x + x') + (y + y'), n + n';
    if y != [] && x' != [] {
      assert l[|x|] == x'[0] && r[|x|] == n[|x|] && n[|x|] in n && x'[0] in x';
    } else {
      assert l == (x + y) + (x' + y');
      assert r[..|n|] == n && l[..|n|] == x + y;
      assert r[|n|..] == n' && l[|n|..] == x' + y';
    }
  }
}
