/** Which updates settle: every tree whose groups come last, and two that do not. */
module PlacementLaws {
  import opened Prelude
  import opened Dom
  import opened VTree
  import opened Placement

  /** The node stands, through any components, for a Fragment or a Provider. */
  predicate GroupTop(v: VNode) {
    match v
    case Group(_, _) => true
    case Component(_, r) => GroupTop(r)
    case _ => false
  }

  /** A Fragment or Provider occurs only as the last child of its parent. */
  ghost predicate Tame(v: VNode) {
    match v
    case Component(_, r) => Tame(r)
    case Group(_, cs) => forall k | 0 <= k < |cs| :: Tame(cs[k]) && (k < |cs| - 1 ==> !GroupTop(cs[k]))
    case Host(_, _, cs) => forall k | 0 <= k < |cs| :: Tame(cs[k]) && (k < |cs| - 1 ==> !GroupTop(cs[k]))
    case _ => true
  }

  ghost predicate TameAll(cs: seq<VNode>) {
    forall k :: 0 <= k < |cs| ==> Tame(cs[k]) && (k < |cs| - 1 ==> !GroupTop(cs[k]))
  }

  ghost predicate ShapedOpt(i: Option<Instance>) { i.Some? ==> Shaped(i.value) }

  lemma {:induction false} NoNodes(cs: seq<Instance>)
    requires NodesAll(cs) == []
    ensures forall k :: 0 <= k < |cs| ==> Nodes(cs[k]) == []
    decreases cs
  {
    if cs != [] {
      NoNodes(cs[1..]);
      forall k | 0 <= k < |cs| ensures Nodes(cs[k]) == [] {
        if k > 0 { assert cs[k] == cs[1..][k - 1]; }
      }
    }
  }

  lemma {:induction false} LaterEmpty(cs: seq<Instance>, j: nat, k: nat)
    requires j < k && Later(cs, j) == []
    ensures Later(cs, k) == [] && NodesOf(At(cs, k)) == []
  {
    if k < |cs| {
      NoNodes(cs[j + 1..]);
      assert cs[k] == cs[j + 1..][k - j - 1];
      NodesAllAppend(cs[j + 1..k + 1], cs[k + 1..]);
      assert cs[j + 1..] == cs[j + 1..k + 1] + cs[k + 1..];
    }
  }

  /** A slot with no anchor and no node of its own loses every node it creates to the end. */
  lemma {:induction false} AllStray(i: Option<Instance>, v: VNode)
    requires ShapedOpt(i) && NodesOf(i) == []
    ensures Stray(i, v, false) == |Render(v)|
    decreases v, 0
  {
    if i.Some? && SameType(i.value.vnode, v) {
      match v
      case Component(_, r) => AllStray(Some(i.value.renderedInstance), r);
      case Group(_, vs) =>
        var cs := i.value.childInstances;
        AllStrayUpTo(cs, vs, Max(|cs|, |vs|));
        assert vs[..|vs|] == vs;
      case _ =>
    }
  }

  lemma {:induction false} NoLater(cs: seq<Instance>, k: nat)
    requires NodesAll(cs) == []
    ensures Later(cs, k) == [] && NodesOf(At(cs, k)) == []
  {
    NoNodes(cs);
    if k < |cs| {
      NodesAllAppend(cs[..k + 1], cs[k + 1..]);
      assert cs == cs[..k + 1] + cs[k + 1..];
    }
  }

  lemma {:induction false} AllStrayUpTo(cs: seq<Instance>, vs: seq<VNode>, k: nat)
    requires (forall j :: 0 <= j < |cs| ==> Shaped(cs[j])) && NodesAll(cs) == []
    ensures StrayUpTo(cs, vs, k) == |RenderAll(if k <= |vs| then vs[..k] else vs)|
    decreases vs, k
  {
    if k > 0 {
      AllStrayUpTo(cs, vs, k - 1);
      NoLater(cs, k - 1);
      assert ShapedOpt(At(cs, k - 1));
      hide NodesAll, Later, Stray, Shaped, ShapedOpt, At, NodesOf, Render;
      if k <= |vs| {
        AllStray(At(cs, k - 1), vs[k - 1]);
        assert vs[..k] == vs[..k - 1] + [vs[k - 1]];
        RenderAllAppend(vs[..k - 1], vs[k - 1]);
        hide RenderAll;
      } else if k - 1 == |vs| {
        assert vs[..k - 1] == vs;
      }
    }
  }

  lemma {:induction false} PlainStray(i: Option<Instance>, v: VNode, anchored: bool)
    requires !GroupTop(v) && Stray(i, v, anchored) > 0
    ensures !anchored
    decreases v
  {
    if i.Some? && SameType(i.value.vnode, v) && v.Component? && i.value.CompInst? {
      PlainStray(Some(i.value.renderedInstance), v.rendered, anchored);
    }
  }

  lemma {:induction false} PlainUpTo(cs: seq<Instance>, vs: seq<VNode>, k: nat)
    requires TameAll(vs) && k < |vs| && StrayUpTo(cs, vs, k) > 0
    ensures exists j :: 0 <= j < k && Later(cs, j) == []
    decreases k
  {
    if StraySlot(cs, vs, k - 1) > 0 {
      PlainStray(At(cs, k - 1), vs[k - 1], Later(cs, k - 1) != []);
    } else {
      PlainUpTo(cs, vs, k - 1);
    }
  }

  lemma {:induction false} TameInOrder(i: Option<Instance>, v: VNode, anchored: bool)
    requires ShapedOpt(i) && Tame(v)
    ensures InOrder(i, v, anchored) && Inner(i, v)
    decreases v, 0
  {
    if i.Some? && SameType(i.value.vnode, v) {
      match v
      case Component(_, r) => TameInOrder(Some(i.value.renderedInstance), r, anchored);
      case Group(_, vs) => TameUpTo(i.value.childInstances, vs, Max(|i.value.childInstances|, |vs|));
      case Host(_, _, vs) => TameUpTo(i.value.childInstances, vs, Max(|i.value.childInstances|, |vs|));
      case _ =>
    }
  }

  lemma {:induction false} TameUpTo(cs: seq<Instance>, vs: seq<VNode>, k: nat)
    requires (forall j :: 0 <= j < |cs| ==> Shaped(cs[j])) && TameAll(vs)
    ensures InOrderUpTo(cs, vs, k)
    ensures InnerUpTo(cs, vs, if k <= |vs| then k else |vs|)
    decreases vs, k
  {
    if k > 0 {
      TameUpTo(cs, vs, k - 1);
      if k - 1 < |vs| {
        TameInOrder(At(cs, k - 1), vs[k - 1], Later(cs, k - 1) != []);
        if StrayUpTo(cs, vs, k - 1) > 0 {
          PlainUpTo(cs, vs, k - 1);
          var j :| 0 <= j < k - 1 && Later(cs, j) == [];
          LaterEmpty(cs, j, k - 1);
          AllStray(At(cs, k - 1), vs[k - 1]);
        }
      }
    }
  }

  lemma {:induction false} AnchoredStays(i: Option<Instance>, v: VNode)
    requires !GroupTop(v)
    ensures Stray(i, v, true) == 0
    decreases v
  {
    if i.Some? && SameType(i.value.vnode, v) && v.Component? && i.value.CompInst? {
      AnchoredStays(Some(i.value.renderedInstance), v.rendered);
    }
  }

  /** With its anchor, an update to a tree whose groups come last always lands in place. */
  lemma {:induction false} TameSettles(i: Option<Instance>, v: VNode, anchored: bool, last: bool)
    requires ShapedOpt(i) && Tame(v) && (anchored || last) && (GroupTop(v) ==> last)
    ensures Settles(i, v, anchored, last)
  {
    TameInOrder(i, v, anchored);
    if !last {
      AnchoredStays(i, v);
    }
  }

  /** `<div><>a</><b/></div>` becoming `<div><>ac</><b/></div>` paints `a`, `b`, `c`. */
  lemma {:induction false} GrowingFragmentStrays(p: Props)
    ensures var old' := HostInst(Host("div", p, [Group(FragmentType, [Text("a")]), Text("b")]), 1,
                          [GroupInst(Group(FragmentType, [Text("a")]), 1, [TextInst(Text("a"), 2)]),
                            TextInst(Text("b"), 3)]);
            var new' := Host("div", p, [Group(FragmentType, [Text("a"), Text("c")]), Text("b")]);
            Shaped(old') && !Settles(Some(old'), new', true, true)
  {
    var fragment := GroupInst(Group(FragmentType, [Text("a")]), 1, [TextInst(Text("a"), 2)]);
    var cs := [fragment, TextInst(Text("b"), 3)];
    var vs := [Group(FragmentType, [Text("a"), Text("c")]), Text("b")];
    var inner, grown := fragment.childInstances, vs[0].children;
    assert StraySlot(inner, grown, 0) == 0;
    assert StraySlot(inner, grown, 1) == |Render(Text("c"))| == 1;
    assert StrayUpTo(inner, grown, 1) == 0;
    assert StrayUpTo(inner, grown, 2) == 1;
    assert StraySlot(cs, vs, 0) == 1;
    assert StrayUpTo(cs, vs, 1) == 1 by { assert StrayUpTo(cs, vs, 0) == 0; }
    assert StraySlot(cs, vs, 1) == 0;
    assert !InOrderUpTo(cs, vs, 2);
  }

  /** A component that rendered nothing and now renders text, flushed while a sibling follows it. */
  lemma {:induction false} FlushedEmptyStrays()
    ensures var fiber := CompInst(Component(7, Empty), 0, GroupInst(Empty, 0, []));
            Shaped(fiber)
            && !Settles(Some(fiber), Component(7, Text("shown")), false, false)
            && Settles(Some(fiber), Component(7, Text("shown")), true, false)
  {}
}
