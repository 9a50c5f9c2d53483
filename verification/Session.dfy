/** A whole page life: hydrate once, then any number of re-renders. */
module Session {
  import opened Prelude
  import opened Dom
  import opened VTree
  import opened Placement
  import opened PlacementLaws
  import opened ClientRuntime
  import opened Adoption
  import opened Depth
  import opened Hydration

  /** The container holds the instance's nodes and nothing else, in order. */
  ghost predicate Live(d: Doc, i: Instance, c: Id) {
    && Consistent(d) && c in d.labels && c in d.kids && d.kids[c] == Nodes(i)
    && Mounted(d, i, c) && Apart(i) && c !in Owned(i)
  }

  /** A tree mounted into an empty container is live. */
  lemma {:induction false} MountLive(d: Doc, e: Doc, v: VNode, i: Instance, c: Id)
    requires Built(d, e, i, v, c) && d.kids[c] == [] && e.kids[c] == Nodes(i)
    ensures Live(e, i, c) && i.vnode == v
  {
    assert c !in Owned(i);
  }

  lemma {:induction false} LiveAdoptable(d: Doc, i: Instance, c: Id)
    requires Live(d, i, c)
    ensures Adoptable(d, i.vnode, d.kids[c]) && Snug(d, i.vnode, d.kids[c])
  {
    MountedAdoptable(d, i, c, d.kids[c]);
  }

  lemma {:induction false} ReadyLive(d: Doc, i: Instance, e: Doc, r: Instance, c: Id)
    requires Live(d, i, c) && Consistent(e) && Ready(d, e, i.vnode, r, c)
    ensures Live(e, r, c) && r.vnode == i.vnode
  {
    NodesRendered(i);
    assert Skip(e.kids[c], |Render(i.vnode)|) == [];
    assert [] + Nodes(r) + [] == Nodes(r);
  }

  /** Hydrating the page that mounting the same tree left makes no node, moves none, and takes it over live. */
  method Revive(client: Client, v: VNode, c: Id, ghost served: Instance) returns (r: Instance)
    requires Live(client.dom, served, c) && served.vnode == v && Branch(client.dom, c)
    modifies client
    ensures Live(client.dom, r, c) && r.vnode == v
    ensures client.dom.next == old(client.dom).next
    ensures client.dom.kids == old(client.dom).kids && client.dom.parent == old(client.dom).parent
  {
    ghost var d := client.dom;
    LiveRanked(d, served, c);
    LiveAdoptable(d, served, c);
    hide Mounted, Apart, Owned, ShowsAll, Consistent, Adoptable, Snug, Depths, Ranked;
    r := Hydrate(client, v, c, Depths(served, 1)[c := 0]);
    ReadyLive(d, served, client.dom, r, c);
  }

  lemma {:induction false} StaysLive(d: Doc, e: Doc, i: Instance, v: VNode, r: Instance, c: Id)
    requires Live(d, i, c) && Reconciled(d, e, Some(i), v, r, c)
    requires c in e.kids && e.kids[c] == [] + Nodes(r) + [] && Mounted(e, r, c)
    ensures Live(e, r, c) && r.vnode == v
  {
    assert [] + Nodes(r) + [] == Nodes(r);
    hide Mounted, Apart;
  }

  /** After any run of re-renders whose groups come last, the page is the last tree freshly mounted. */
  method Rerender(client: Client, c: Id, mounted: Instance, versions: seq<VNode>) returns (r: Instance)
    requires Live(client.dom, mounted, c) && forall k :: 0 <= k < |versions| ==> Tame(versions[k])
    modifies client
    ensures Live(client.dom, r, c)
    ensures r.vnode == if versions == [] then mounted.vnode else versions[|versions| - 1]
    ensures ShowsAll(client.dom, client.dom.kids[c], Render(r.vnode))
  {
    r := mounted;
    for k := 0 to |versions|
      invariant Live(client.dom, r, c)
      invariant r.vnode == if k == 0 then mounted.vnode else versions[k - 1]
    {
      ghost var d, i := client.dom, r;
      TameSettles(Some(i), versions[k], false, true);
      assert d.kids[c] == [] + Nodes(i) + [];
      hide Mounted, Apart, Owned, Settles, Reconciled, Splits, ShowsAll, Consistent;
      ghost var x, y;
      var out;
      out, x, y := client.Reconcile(c, Some(r), Some(versions[k]), None, [], []);
      r := out.value;
      StaysLive(d, client.dom, i, versions[k], r, c);
    }
    MountedShows(client.dom, r, c);
  }
}
