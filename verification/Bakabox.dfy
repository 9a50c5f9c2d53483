/** The object that routes list operations to every anchor bound to their slot. */
module BakaboxRuntime {
  import opened Prelude
  import opened ListSink
  import opened ListTwins
  import opened ListDelivery
  import opened ListRuns
  import opened ListThrows
  import opened ListRuntime
  import ListSeed

  method ApplyTo(list: KeyedList, op: Op) returns (ok: bool)
    requires Valid(list.Value())
    modifies list
    ensures list.anchor == old(list.anchor)
    ensures ok <==> ApplyOp(old(list.Value()), op).Some?
    ensures ok ==> Valid(list.Value()) && Some(list.Value()) == ApplyOp(old(list.Value()), op)
    ensures !ok ==> !Valid(list.Value()) && list.Value() == TornOp(old(list.Value()), op)
  {
    ok := true;
    match op {
      case SlotDelta(changes) => list.ApplySlotDelta(changes);
      case ReconcileList(rows) => list.ApplyReconcileList(rows);
      case SlotInsert(before, rows) => ok := list.ApplySlotInsert(before, rows);
    }
  }

  ghost function OpOn(b: Bound, op: Op): Option<List> { if Valid(b.list) then ApplyOp(b.list, op) else None }

  lemma {:induction false} EachIs(was: seq<Bound>, op: Op, now: seq<Bound>)
    requires AllSound(was) && |now| == |was|
    requires forall i :: 0 <= i < |was| ==> now[i].anchor == was[i].anchor && Some(now[i].list) == OpOn(was[i], op)
    ensures ApplyEach(was, op) == Some(now)
  {
    EachSound(was, op);
    assert forall i :: 0 <= i < |was| ==> was[i] in was && Valid(was[i].list);
    assert ApplyEach(was, op).value == now;
  }

  lemma {:induction false} SplicedAt<T>(a: seq<T>, x: T, z: seq<T>)
    ensures |a + [x] + z| == |a| + 1 + |z| && (a + [x] + z)[|a|] == x
    ensures forall i :: 0 <= i < |a| ==> (a + [x] + z)[i] == a[i]
    ensures forall i :: |a| < i < |a| + 1 + |z| ==> (a + [x] + z)[i] == z[i - |a| - 1]
  {}

  lemma {:induction false} OpOnIs(was: seq<Bound>, op: Op, i: nat)
    requires AllSound(was) && i < |was|
    ensures Valid(was[i].list) && OpOn(was[i], op) == ApplyOp(was[i].list, op)
  {
    assert was[i] in was;
  }

  /** The operation throws at the next anchor, whose list becomes `l`; those behind it are not reached. */
  lemma {:induction false} EachFails(was: seq<Bound>, op: Op, done: seq<Bound>, l: List)
    requires AllSound(was) && |done| < |was| && OpOn(was[|done|], op).None?
    requires forall i :: 0 <= i < |done| ==> done[i].anchor == was[i].anchor && Some(done[i].list) == OpOn(was[i], op)
    requires Valid(was[|done|].list) && l == TornOp(was[|done|].list, op)
    ensures ApplyEach(was, op).None?
    ensures done + [was[|done|].(list := l)] + was[|done| + 1..] == EachTorn(was, op)
  {
    var n := |done|;
    var x, z := was[n].(list := l), was[n + 1..];
    var now := done + [x] + z;
    hide ApplyOp, Valid, TornOp, ApplyEach, EachTorn, OpOn, AllSound;
    forall i | 0 <= i < |was| ensures Valid(was[i].list) && OpOn(was[i], op) == ApplyOp(was[i].list, op) {
      OpOnIs(was, op, i);
    }
    SplicedAt(done, x, z);
    assert forall i :: n < i < |was| ==> z[i - n - 1] == was[i];
    assert TornAt(was, op, n, now);
    hide TornAt;
    TornUnique(was, op, n, now);
  }

  /** Every rendering of the topic gets the operation, in turn, up to the first one that throws. */
  method ApplyToAll(bs: seq<Bound>, op: Op) returns (ok: bool, out: seq<Bound>)
    requires AllSound(bs)
    ensures ok <==> ApplyEach(bs, op).Some?
    ensures ok ==> Some(out) == ApplyEach(bs, op)
    ensures !ok ==> out == EachTorn(bs, op)
  {
    assert forall i :: 0 <= i < |bs| ==> bs[i] in bs && Valid(bs[i].list);
    hide Valid, ApplyOp, ApplyEach, AllSound, TornOp, EachTorn;
    out := [];
    var i := 0;
    while i < |bs|
      invariant 0 <= i <= |bs| && |out| == i
      invariant forall j :: 0 <= j < i ==> out[j].anchor == bs[j].anchor && Some(out[j].list) == OpOn(bs[j], op)
    {
      var list := new KeyedList.Open(bs[i].anchor, bs[i].list);
      ok := ApplyTo(list, op);
      if !ok {
        EachFails(bs, op, out, list.Value());
        out := out + [Bound(list.anchor, list.Value())] + bs[i + 1..];
        return;
      }
      out := out + [Bound(list.anchor, list.Value())];
      i := i + 1;
    }
    ok := true;
    EachIs(bs, op, out);
  }

  class Bakabox {
    var listSlots: map<nat, seq<Bound>>
    var pendingListOps: map<nat, seq<Op>>

    function Value(): Box reads this { Box(listSlots, pendingListOps) }

    constructor ()
      ensures Sound(Value()) && Value() == Box(map[], map[])
    {
      listSlots, pendingListOps := map[], map[];
    }

    method DeliverOp(slot: nat, op: Op) returns (ok: bool)
      requires Sound(Value())
      modifies this
      ensures ok <==> Deliver(old(Value()), slot, op).Some?
      ensures ok <==> Sound(Value())
      ensures ok ==> Some(Value()) == Deliver(old(Value()), slot, op)
      ensures ok ==> Delivered(old(Value()), slot, op, Value())
      ensures !ok ==> Value() == Left(Stop(old(Value()), slot, op))
      ensures !ok ==> Broken(old(Value()), slot, op, Value())
    {
      DeliverSound(Value(), slot, op);
      if Deliver(Value(), slot, op).Some? {
        DeliverReaches(Value(), slot, op);
      }
      if slot !in listSlots || listSlots[slot] == [] {
        if !op.ReconcileList? {
          var buffered := if slot in pendingListOps then pendingListOps[slot] else [];
          pendingListOps := pendingListOps[slot := buffered + [op]];
        }
        return true;
      }
      var bs;
      ok, bs := ApplyToAll(listSlots[slot], op);
      if !ok {
        StopLoses(Stop(Value(), slot, op));
        StopBreaks(Stop(Value(), slot, op));
      }
      listSlots := listSlots[slot := bs];
    }

    /** Bind an anchor over its rendered rows; the first one of a slot drains what waited for it. */
    method RegisterListAnchor(slot: nat, anchor: nat, rendered: seq<ListSeed.Child>, next: nat) returns (ok: bool)
      requires Sound(Value()) && ListSeed.Distinct(rendered, next)
      modifies this
      ensures Valid(ListSeed.Seeded(rendered, next))
      ensures ok <==> Bind(old(Value()), slot, anchor, ListSeed.Seeded(rendered, next)).Some?
      ensures ok <==> Sound(Value())
      ensures ok ==> Some(Value()) == Bind(old(Value()), slot, anchor, ListSeed.Seeded(rendered, next))
      ensures ok ==> Joined(old(Value()), slot, anchor, ListSeed.Seeded(rendered, next), Value())
      ensures !ok ==> Value() == Left(HappenStop(old(Value()), Anchor(slot, anchor, ListSeed.Seeded(rendered, next))))
    {
      ListSeed.SeededValid(rendered, next);
      ghost var was, l := Value(), ListSeed.Seeded(rendered, next);
      HappenSound(was, Anchor(slot, anchor, l));
      if Bind(was, slot, anchor, l).Some? {
        BindJoins(was, slot, anchor, l);
      }
      hide Valid, ListSeed.Seeded, Joined;
      ok := true;
      var lists := if slot in listSlots then listSlots[slot] else [];
      var i := 0;
      while i < |lists|
        invariant 0 <= i <= |lists|
        invariant forall j :: 0 <= j < i ==> lists[j].anchor != anchor
      {
        if lists[i].anchor == anchor {
          assert lists[i] in lists;
          return;
        }
        i := i + 1;
      }
      assert !IsBound(lists, anchor);
      var list := new KeyedList(anchor, rendered, next);
      listSlots := listSlots[slot := lists + [Bound(anchor, list.Value())]];
      assert lists == [] ==> lists + [Bound(anchor, l)] == [Bound(anchor, l)];
      if lists == [] && slot in pendingListOps {
        var pending := pendingListOps[slot];
        pendingListOps := pendingListOps - {slot};
        assert Value() == First(was, slot, anchor, l);
        ok := Drain(slot, pending);
      } else if lists == [] {
        assert Value() == First(was, slot, anchor, l);
      }
    }

    /** Replay, in order, what waited. */
    method Drain(slot: nat, pending: seq<Op>) returns (ok: bool)
      requires Sound(Value())
      modifies this
      ensures ok <==> DeliverAll(old(Value()), slot, pending).Some?
      ensures ok <==> Sound(Value())
      ensures ok ==> Some(Value()) == DeliverAll(old(Value()), slot, pending)
      ensures !ok ==> Value() == Left(DrainStop(old(Value()), slot, pending))
    {
      ghost var start, target := Value(), DeliverAll(Value(), slot, pending);
      var i := 0;
      while i < |pending|
        invariant 0 <= i <= |pending| && Sound(Value())
        invariant target == DeliverAll(Value(), slot, pending[i..])
        invariant target.None? ==> DrainStop(start, slot, pending) == DrainStop(Value(), slot, pending[i..])
      {
        assert pending[i..][1..] == pending[i + 1..];
        ok := DeliverOp(slot, pending[i]);
        if !ok {
          return;
        }
        i := i + 1;
      }
      ok := true;
    }
  }
}
