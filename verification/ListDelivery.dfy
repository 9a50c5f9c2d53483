/** What reaches each list: an operation changes every anchor of its slot and nothing else, and a list
    is in the end what its own operations make of it. */
module ListDelivery {
  import opened Prelude
  import opened ListSink
  import opened ListLaws
  import opened ListDelta
  import opened ListBare
  import opened ListTwins
  import opened ListRuns

  // ---- What an operation asks of a list -----------------------------------------------------------

  /** The rows an operation asks a list to show, over those it shows. */
  function Asked(l: List, op: Op): seq<Row>
    requires Valid(l)
  {
    match op
    case SlotDelta(changes) => Updated(l, changes)
    case SlotInsert(before, rows) => InsertedRows(l, before, rows)
    case ReconcileList(rows) => rows
  }

  /** No row is named twice, nor as its own position. */
  predicate Clear(op: Op) {
    match op
    case SlotDelta(_) => true
    case SlotInsert(before, rows) => NoDup(RowKeys(rows)) && (before.Some? ==> before.value !in RowKeys(rows))
    case ReconcileList(rows) => NoDup(RowKeys(rows))
  }

  /** Whatever the operation, the list then shows the rows asked for, in their order, with the node of
      every row whose markup did not change. */
  lemma {:induction false} OpShows(l: List, op: Op)
    requires Valid(l) && Clear(op)
    ensures ApplyOp(l, op).Some? && Valid(ApplyOp(l, op).value)
    ensures View(ApplyOp(l, op).value.children, l.next) == Outcomes(l, Asked(l, op))
  {
    OpValid(l, op);
    match op
    case SlotDelta(changes) =>
      DeltaIsReconcile(l, changes);
      ReconcileLaw(l, Updated(l, changes));
    case SlotInsert(before, rows) =>
      InsertIsReconcile(l, before, rows);
      InsertedDistinct(l, before, rows);
      ReconcileLaw(l, InsertedRows(l, before, rows));
    case ReconcileList(rows) => ReconcileLaw(l, rows);
  }

  // ---- One delivery -------------------------------------------------------------------------------

  /** The anchor is the same, and its list has taken the operation. */
  ghost predicate Took(was: Bound, op: Op, now: Bound) {
    Valid(was.list) && now.anchor == was.anchor && ApplyOp(was.list, op) == Some(now.list)
  }

  ghost predicate Elsewhere<T(!new)>(was: map<nat, T>, slot: nat, now: map<nat, T>) {
    forall s :: s != slot ==> (s in now <==> s in was) && (s in now ==> now[s] == was[s])
  }

  /** Every anchor of the slot has taken the operation, or it waits behind what waited before, unless
      it is a full rebuild; nothing else has changed. */
  ghost predicate Delivered(was: Box, slot: nat, op: Op, now: Box) {
    && Elsewhere(was.slots, slot, now.slots) && Elsewhere(was.pending, slot, now.pending)
    && (slot in now.slots <==> slot in was.slots)
    && if slot in was.slots then
         && |now.slots[slot]| == |was.slots[slot]| && (slot in now.pending <==> slot in was.pending)
         && (slot in now.pending ==> now.pending[slot] == was.pending[slot])
         && forall i :: 0 <= i < |was.slots[slot]| ==> Took(was.slots[slot][i], op, now.slots[slot][i])
       else
         Waiting(now, slot) == Waiting(was, slot) + if op.ReconcileList? then [] else [op]
  }

  lemma {:induction false} DeliverReaches(box: Box, slot: nat, op: Op)
    requires Sound(box) && Deliver(box, slot, op).Some?
    ensures Delivered(box, slot, op, Deliver(box, slot, op).value)
  {
    if Bindings(box, slot) != [] {
      var bs := Bindings(box, slot);
      EachSound(bs, op);
      assert forall i :: 0 <= i < |bs| ==> bs[i] in bs;
    }
  }

  // ---- Many ---------------------------------------------------------------------------------------

  /** A list after some operations, while none throws. */
  function FoldOps(l: List, ops: seq<Op>): Option<List>
    requires Valid(l)
    decreases ops
  {
    if ops == [] then Some(l)
    else
      OpValid(l, ops[0]);
      match ApplyOp(l, ops[0])
      case None => None
      case Some(m) => FoldOps(m, ops[1..])
  }

  lemma {:induction false} DrainFolds(box: Box, slot: nat, ops: seq<Op>, i: nat)
    requires Sound(box) && slot in box.slots && i < |box.slots[slot]| && DeliverAll(box, slot, ops).Some?
    ensures var now := DeliverAll(box, slot, ops).value;
            && Sound(now) && slot in now.slots && |now.slots[slot]| == |box.slots[slot]| && now.pending == box.pending
            && Elsewhere(box.slots, slot, now.slots) && now.slots[slot][i].anchor == box.slots[slot][i].anchor
            && Valid(box.slots[slot][i].list)
            && FoldOps(box.slots[slot][i].list, ops) == Some(now.slots[slot][i].list)
    decreases ops
  {
    assert box.slots[slot][i] in box.slots[slot];
    if ops != [] {
      DeliverSound(box, slot, ops[0]);
      DeliverReaches(box, slot, ops[0]);
      var mid := Deliver(box, slot, ops[0]).value;
      assert mid.pending == box.pending;
      assert Took(box.slots[slot][i], ops[0], mid.slots[slot][i]);
      DrainFolds(mid, slot, ops[1..], i);
    }
  }

  /** A second binding of one element changes nothing; a further anchor joins the ones there are, which
      keep their lists; the first one has taken what waited, in order, and nothing waits any more. */
  ghost predicate Joined(was: Box, slot: nat, anchor: nat, l: List, now: Box)
    requires Valid(l)
  {
    var bs := Bindings(was, slot);
    if IsBound(bs, anchor) then now == was
    else
      && Elsewhere(was.slots, slot, now.slots) && Elsewhere(was.pending, slot, now.pending)
      && slot in now.slots && |now.slots[slot]| == |bs| + 1 && now.slots[slot][|bs|].anchor == anchor
      && now.slots[slot][..|bs|] == bs && slot !in now.pending
      && if bs == [] then FoldOps(l, Waiting(was, slot)) == Some(now.slots[slot][0].list)
         else now.slots[slot][|bs|].list == l
  }

  lemma {:induction false} BindJoins(box: Box, slot: nat, anchor: nat, l: List)
    requires Sound(box) && Valid(l) && Bind(box, slot, anchor, l).Some?
    ensures Joined(box, slot, anchor, l, Bind(box, slot, anchor, l).value)
  {
    var bs := Bindings(box, slot);
    if !IsBound(bs, anchor) && bs == [] {
      DrainFolds(First(box, slot, anchor, l), slot, Waiting(box, slot), 0);
    }
  }

  // ---- Over runs ----------------------------------------------------------------------------------

  /** The operations that arrive for a slot. */
  function OpsFor(slot: nat, events: seq<Event>): seq<Op> {
    if events == [] then []
    else (if events[0].Arrive? && events[0].slot == slot then [events[0].op] else []) + OpsFor(slot, events[1..])
  }

  /** Over any run that ends, a bound list is what the operations of its own slot make of it, in the
      order they arrived, whatever else happened. */
  lemma {:induction false} RunFolds(box: Box, events: seq<Event>, s: nat, i: nat)
    requires Sound(box) && (forall e :: e in events ==> Legal(e)) && Run(box, events).Some?
    requires s in box.slots && i < |box.slots[s]|
    ensures var now := Run(box, events).value;
            && s in now.slots && i < |now.slots[s]| && now.slots[s][i].anchor == box.slots[s][i].anchor
            && Valid(box.slots[s][i].list)
            && FoldOps(box.slots[s][i].list, OpsFor(s, events)) == Some(now.slots[s][i].list)
    decreases events
  {
    assert box.slots[s][i] in box.slots[s];
    if events != [] {
      var e, mid := events[0], Happen(box, events[0]).value;
      HappenSound(box, e);
      HappenAt(box, e, s, i);
      hide Valid, Happen, Sound;
      RunFolds(mid, events[1..], s, i);
      var ops := OpsFor(s, events);
      if e.Arrive? && e.slot == s {
        assert ops[0] == e.op && ops[1..] == OpsFor(s, events[1..]);
      } else {
        assert ops == OpsFor(s, events[1..]);
      }
    }
  }

  lemma {:induction false} HappenAt(box: Box, e: Event, s: nat, i: nat)
    requires Sound(box) && Legal(e) && Happen(box, e).Some? && s in box.slots && i < |box.slots[s]|
    ensures var mid := Happen(box, e).value;
            && s in mid.slots && i < |mid.slots[s]| && mid.slots[s][i].anchor == box.slots[s][i].anchor
            && (if e.Arrive? && e.slot == s then Took(box.slots[s][i], e.op, mid.slots[s][i])
                else mid.slots[s][i] == box.slots[s][i])
  {
    match e
    case Arrive(slot, op) => DeliverReaches(box, slot, op);
    case Anchor(slot, anchor, l) =>
      BindJoins(box, slot, anchor, l);
      var mid := Happen(box, e).value;
      if s == slot && !IsBound(Bindings(box, slot), anchor) {
        assert mid.slots[s][i] == mid.slots[s][..|box.slots[s]|][i];
      }
  }
}
