/** Runs of list operations over every slot: bound anchors, and the operations that wait. */
module ListRuns {
  import opened Prelude
  import opened ListSink
  import opened ListDelta
  import opened ListTwins

  datatype Bound = Bound(anchor: nat, list: List)

  datatype Box = Box(slots: map<nat, seq<Bound>>, pending: map<nat, seq<Op>>)

  function Bindings(box: Box, slot: nat): seq<Bound> { if slot in box.slots then box.slots[slot] else [] }

  function Waiting(box: Box, slot: nat): seq<Op> { if slot in box.pending then box.pending[slot] else [] }

  ghost predicate AllSound(bs: seq<Bound>) { forall b :: b in bs ==> Valid(b.list) }

  /** Every bound list keeps its bijection, and a slot has waiting operations only while unbound. */
  ghost predicate Sound(box: Box) {
    && (forall s :: s in box.slots ==> box.slots[s] != [] && AllSound(box.slots[s]))
    && (forall s :: s in box.pending ==> box.pending[s] != [] && s !in box.slots)
  }

  // ---- Steps ------------------------------------------------------------------------------------

  function ApplyEach(bs: seq<Bound>, op: Op): (r: Option<seq<Bound>>)
    requires AllSound(bs)
  {
    if bs == [] then Some([])
    else
      assert bs[0] in bs && forall b :: b in bs[1..] ==> b in bs;
      match ApplyOp(bs[0].list, op)
      case None => None
      case Some(l) =>
        match ApplyEach(bs[1..], op)
        case None => None
        case Some(rest) => Some([bs[0].(list := l)] + rest)
  }

  /** An operation reaches every bound anchor, or waits; a full rebuild does not wait. */
  function Deliver(box: Box, slot: nat, op: Op): Option<Box>
    requires Sound(box)
  {
    if Bindings(box, slot) == [] then
      Some(if op.ReconcileList? then box else box.(pending := box.pending[slot := Waiting(box, slot) + [op]]))
    else
      match ApplyEach(Bindings(box, slot), op)
      case None => None
      case Some(bs) => Some(box.(slots := box.slots[slot := bs]))
  }

  function DeliverAll(box: Box, slot: nat, ops: seq<Op>): Option<Box>
    requires Sound(box)
    decreases ops
  {
    if ops == [] then Some(box)
    else
      DeliverSound(box, slot, ops[0]);
      match Deliver(box, slot, ops[0])
      case None => None
      case Some(b) => DeliverAll(b, slot, ops[1..])
  }

  predicate IsBound(bs: seq<Bound>, anchor: nat) { exists b :: b in bs && b.anchor == anchor }

  /** A second binding of one element is ignored; the first anchor of a slot drains what waited. */
  function Bind(box: Box, slot: nat, anchor: nat, l: List): Option<Box>
    requires Sound(box) && Valid(l)
  {
    var bs := Bindings(box, slot);
    if IsBound(bs, anchor) then Some(box)
    else if bs != [] then Some(box.(slots := box.slots[slot := bs + [Bound(anchor, l)]]))
    else DeliverAll(First(box, slot, anchor, l), slot, Waiting(box, slot))
  }

  function First(box: Box, slot: nat, anchor: nat, l: List): (r: Box)
    requires Sound(box) && Valid(l)
    ensures Sound(r)
  {
    Box(box.slots[slot := [Bound(anchor, l)]], box.pending - {slot})
  }

  lemma {:induction false} EachSound(bs: seq<Bound>, op: Op)
    requires AllSound(bs)
    ensures ApplyEach(bs, op).Some? ==> |ApplyEach(bs, op).value| == |bs| && AllSound(ApplyEach(bs, op).value)
    ensures ApplyEach(bs, op).Some? <==> forall i :: 0 <= i < |bs| ==> ApplyOp(bs[i].list, op).Some?
    ensures ApplyEach(bs, op).Some? ==>
              forall i :: 0 <= i < |bs| ==> Some(ApplyEach(bs, op).value[i].list) == ApplyOp(bs[i].list, op)
                                            && ApplyEach(bs, op).value[i].anchor == bs[i].anchor
  {
    if bs != [] {
      var rest := bs[1..];
      assert bs[0] in bs && forall b :: b in rest ==> b in bs;
      EachSound(rest, op);
      OpValid(bs[0].list, op);
      var h, t := ApplyOp(bs[0].list, op), ApplyEach(rest, op);
      assert ApplyEach(bs, op) == if h.None? || t.None? then None else Some([bs[0].(list := h.value)] + t.value);
      assert forall i :: 0 <= i < |rest| ==> bs[i + 1] == rest[i];
      hide Valid, ApplyOp, ApplyEach;
      if h.Some? && t.Some? {
        var r := [bs[0].(list := h.value)] + t.value;
        forall i | 0 <= i < |bs| ensures Some(r[i].list) == ApplyOp(bs[i].list, op) && r[i].anchor == bs[i].anchor {
          if i > 0 {
            assert bs[i] == rest[i - 1] && r[i] == t.value[i - 1];
          }
        }
      } else if h.Some? {
        var i :| 0 <= i < |rest| && ApplyOp(rest[i].list, op).None?;
        assert bs[i + 1] == rest[i];
      }
    }
  }

  lemma {:induction false} DeliverSound(box: Box, slot: nat, op: Op)
    requires Sound(box)
    ensures Deliver(box, slot, op).Some? ==> Sound(Deliver(box, slot, op).value)
    ensures Deliver(box, slot, op).Some? ==>
              (slot in box.slots <==> slot in Deliver(box, slot, op).value.slots)
  {
    if Bindings(box, slot) != [] {
      EachSound(Bindings(box, slot), op);
    }
  }

  // ---- Runs --------------------------------------------------------------------------------------

  datatype Event = Arrive(slot: nat, op: Op) | Anchor(slot: nat, anchor: nat, list: List)

  ghost predicate Legal(e: Event) { e.Anchor? ==> Valid(e.list) }

  function Happen(box: Box, e: Event): Option<Box>
    requires Sound(box) && Legal(e)
  {
    match e
    case Arrive(slot, op) => Deliver(box, slot, op)
    case Anchor(slot, anchor, l) => Bind(box, slot, anchor, l)
  }

  function Run(box: Box, events: seq<Event>): Option<Box>
    requires Sound(box) && forall e :: e in events ==> Legal(e)
    decreases events
  {
    if events == [] then Some(box)
    else
      HappenSound(box, events[0]);
      match Happen(box, events[0])
      case None => None
      case Some(b) => Run(b, events[1..])
  }

  lemma {:induction false} AllDelivered(box: Box, slot: nat, ops: seq<Op>)
    requires Sound(box)
    ensures DeliverAll(box, slot, ops).Some? ==> Sound(DeliverAll(box, slot, ops).value)
    decreases ops
  {
    if ops != [] {
      DeliverSound(box, slot, ops[0]);
      if Deliver(box, slot, ops[0]).Some? {
        AllDelivered(Deliver(box, slot, ops[0]).value, slot, ops[1..]);
      }
    }
  }

  lemma {:induction false} HappenSound(box: Box, e: Event)
    requires Sound(box) && Legal(e)
    ensures Happen(box, e).Some? ==> Sound(Happen(box, e).value)
  {
    match e
    case Arrive(slot, op) => DeliverSound(box, slot, op);
    case Anchor(slot, anchor, l) =>
      if Bindings(box, slot) == [] {
        AllDelivered(First(box, slot, anchor, l), slot, Waiting(box, slot));
      }
  }

  /** From an empty page, every run that does not throw keeps every bijection, and holds operations
      back only for slots without an anchor. */
  lemma {:induction false} RunSound(box: Box, events: seq<Event>)
    requires Sound(box) && forall e :: e in events ==> Legal(e)
    ensures Run(box, events).Some? ==> Sound(Run(box, events).value)
    decreases events
  {
    if events != [] {
      HappenSound(box, events[0]);
      if Happen(box, events[0]).Some? {
        RunSound(Happen(box, events[0]).value, events[1..]);
      }
    }
  }

  // ---- Binding late -------------------------------------------------------------------------------

  function Held(ops: seq<Op>): seq<Op> {
    if ops == [] then [] else (if ops[0].ReconcileList? then [] else [ops[0]]) + Held(ops[1..])
  }

  function Arrivals(slot: nat, ops: seq<Op>): (r: seq<Event>)
    ensures forall e :: e in r ==> Legal(e)
  {
    if ops == [] then [] else [Arrive(slot, ops[0])] + Arrivals(slot, ops[1..])
  }

  function Kept(box: Box, slot: nat, ops: seq<Op>): Box {
    if ops == [] then box else box.(pending := box.pending[slot := Waiting(box, slot) + ops])
  }

  lemma {:induction false} RunAppend(box: Box, a: seq<Event>, b: seq<Event>)
    requires Sound(box) && forall e :: e in a + b ==> Legal(e)
    ensures (forall e :: e in a ==> Legal(e)) && (forall e :: e in b ==> Legal(e))
    ensures Run(box, a).Some? ==> Sound(Run(box, a).value)
    ensures Run(box, a + b) == if Run(box, a).None? then None else Run(Run(box, a).value, b)
    decreases a
  {
    assert forall e :: e in a ==> e in a + b;
    assert forall e :: e in b ==> e in a + b;
    RunSound(box, a);
    if a == [] {
      assert a + b == b;
    } else {
      assert (a + b)[1..] == a[1..] + b && (a + b)[0] == a[0];
      HappenSound(box, a[0]);
      if Happen(box, a[0]).Some? {
        RunAppend(Happen(box, a[0]).value, a[1..], b);
      }
    }
  }

  lemma {:induction false} DeliverAppend(box: Box, slot: nat, a: seq<Op>, b: seq<Op>)
    requires Sound(box)
    ensures DeliverAll(box, slot, a).Some? ==> Sound(DeliverAll(box, slot, a).value)
    ensures DeliverAll(box, slot, a + b) == if DeliverAll(box, slot, a).None? then None
            else DeliverAll(DeliverAll(box, slot, a).value, slot, b)
    decreases a
  {
    AllDelivered(box, slot, a);
    if a == [] {
      assert a + b == b;
    } else {
      assert (a + b)[1..] == a[1..] + b && (a + b)[0] == a[0];
      DeliverSound(box, slot, a[0]);
      if Deliver(box, slot, a[0]).Some? {
        DeliverAppend(Deliver(box, slot, a[0]).value, slot, a[1..], b);
      }
    }
  }

  /** Without an anchor, operations only pile up. */
  lemma {:induction false} ArriveUnbound(box: Box, slot: nat, ops: seq<Op>)
    requires Sound(box) && slot !in box.slots
    ensures Run(box, Arrivals(slot, ops)) == Some(Kept(box, slot, Held(ops)))
    decreases ops
  {
    if ops != [] {
      var b := Deliver(box, slot, ops[0]).value;
      DeliverSound(box, slot, ops[0]);
      ArriveUnbound(b, slot, ops[1..]);
      var evs := Arrivals(slot, ops);
      assert evs[0] == Arrive(slot, ops[0]) && evs[1..] == Arrivals(slot, ops[1..]);
      if !ops[0].ReconcileList? {
        KeptMore(box, slot, ops[0], Held(ops[1..]));
      } else {
        assert Held(ops) == Held(ops[1..]);
      }
    }
  }

  lemma {:induction false} KeptMore(box: Box, slot: nat, op: Op, ops: seq<Op>)
    ensures Kept(box.(pending := box.pending[slot := Waiting(box, slot) + [op]]), slot, ops)
            == Kept(box, slot, [op] + ops)
  {
    var w := Waiting(box, slot);
    assert (w + [op]) + ops == w + ([op] + ops);
    assert w + ([op] + []) == w + [op];
    assert box.pending[slot := w + [op]][slot := (w + [op]) + ops] == box.pending[slot := (w + [op]) + ops];
  }

  /** Once bound, operations are delivered as they come. */
  lemma {:induction false} ArriveBound(box: Box, slot: nat, ops: seq<Op>)
    requires Sound(box)
    ensures Run(box, Arrivals(slot, ops)) == DeliverAll(box, slot, ops)
    decreases ops
  {
    if ops != [] {
      DeliverSound(box, slot, ops[0]);
      var evs := Arrivals(slot, ops);
      assert evs[0] == Arrive(slot, ops[0]) && evs[1..] == Arrivals(slot, ops[1..]);
      if Deliver(box, slot, ops[0]).Some? {
        ArriveBound(Deliver(box, slot, ops[0]).value, slot, ops[1..]);
      }
    }
  }

  /** Binding the first anchor after a stream of operations gives what binding it before them gives,
      except that full rebuilds among them are lost. */
  lemma {:induction false} LateBinding(box: Box, slot: nat, ops: seq<Op>, anchor: nat, l: List)
    requires Sound(box) && slot !in box.slots && Valid(l)
    ensures Run(box, Arrivals(slot, ops) + [Anchor(slot, anchor, l)])
            == Run(box, [Anchor(slot, anchor, l)] + Arrivals(slot, Held(ops)))
  {
    var bind, held, first := [Anchor(slot, anchor, l)], Held(ops), First(box, slot, anchor, l);
    ArriveUnbound(box, slot, ops);
    var k := Kept(box, slot, held);
    RunSound(box, Arrivals(slot, ops));
    KeptFirst(box, slot, held, anchor, l);
    assert Legal(bind[0]);
    hide Valid, Run, DeliverAll, Sound, First, Kept, Waiting, Held, Legal;
    RunAppend(box, Arrivals(slot, ops), bind);
    RunOne(k, bind[0]);
    DeliverAppend(first, slot, Waiting(box, slot), held);
    RunAppend(box, bind, Arrivals(slot, held));
    RunOne(box, bind[0]);
    var mid := DeliverAll(first, slot, Waiting(box, slot));
    if mid.Some? {
      ArriveBound(mid.value, slot, held);
    }
  }

  /** Binding finds what was kept, on top of what waited already. */
  lemma {:induction false} KeptFirst(box: Box, slot: nat, held: seq<Op>, anchor: nat, l: List)
    requires Sound(box) && slot !in box.slots && Valid(l) && Sound(Kept(box, slot, held))
    ensures Happen(box, Anchor(slot, anchor, l)) == DeliverAll(First(box, slot, anchor, l), slot, Waiting(box, slot))
    ensures Happen(Kept(box, slot, held), Anchor(slot, anchor, l))
         == DeliverAll(First(box, slot, anchor, l), slot, Waiting(box, slot) + held)
  {
    var k := Kept(box, slot, held);
    assert k.pending - {slot} == box.pending - {slot};
    assert First(k, slot, anchor, l) == First(box, slot, anchor, l);
    assert Waiting(box, slot) + [] == Waiting(box, slot);
    assert Waiting(k, slot) == Waiting(box, slot) + held;
  }

  lemma {:induction false} RunOne(box: Box, e: Event)
    requires Sound(box) && Legal(e)
    ensures Run(box, [e]) == Happen(box, e)
  {
    HappenSound(box, e);
    assert [e][1..] == [];
  }

  /** A rebuild that arrives before its anchor is lost, and the list shows it. */
  lemma {:induction false} EarlyRebuildLost()
    ensures var l := List([], map[], 0);
            var op := ReconcileList([Row("a", "<li>a</li>")]);
            var empty := Box(map[], map[]);
            && Valid(l)
            && Run(empty, [Arrive(0, op), Anchor(0, 0, l)]) == Some(Box(map[0 := [Bound(0, l)]], map[]))
            && Run(empty, [Anchor(0, 0, l), Arrive(0, op)]) != Run(empty, [Arrive(0, op), Anchor(0, 0, l)])
  {
    var l, op, empty := List([], map[], 0), ReconcileList([Row("a", "<li>a</li>")]), Box(map[], map[]);
    LateBinding(empty, 0, [op], 0, l);
    assert [op][1..] == [] && Held([op]) == [];
    assert Arrivals(0, [op]) == [Arrive(0, op)] + Arrivals(0, []);
    RunOne(empty, Anchor(0, 0, l));
    assert [Arrive(0, op)] + [Anchor(0, 0, l)] == [Arrive(0, op), Anchor(0, 0, l)];
    assert [Anchor(0, 0, l)] + [] == [Anchor(0, 0, l)];
    var b := First(empty, 0, 0, l);
    assert Run(empty, [Anchor(0, 0, l)]) == Some(b);
    RunAppend(empty, [Anchor(0, 0, l)], [Arrive(0, op)]);
    assert [Anchor(0, 0, l)] + [Arrive(0, op)] == [Anchor(0, 0, l), Arrive(0, op)];
    RunOne(b, Arrive(0, op));
    EachSound([Bound(0, l)], op);
    if Deliver(b, 0, op).Some? {
      var rows := [Row("a", "<li>a</li>")];
      assert rows[1..] == [];
      assert NoDup(RowKeys(rows));
      ReconcileLaw(l, rows);
      assert Outcomes(l, rows) == [RowView("a", "<li>a</li>", None)] + Outcomes(l, []);
    }
  }

  // ---- Twins over runs ----------------------------------------------------------------------------

  predicate TwinAt(box: Box, slot: nat, i: nat, j: nat) {
    slot in box.slots && i < |box.slots[slot]| && j < |box.slots[slot]| &&
      Twins(box.slots[slot][i].list, box.slots[slot][j].list)
  }

  lemma {:induction false} TwinDeliver(box: Box, slot: nat, op: Op, s: nat, i: nat, j: nat)
    requires Sound(box) && TwinAt(box, s, i, j)
    ensures Deliver(box, slot, op).Some? ==> TwinAt(Deliver(box, slot, op).value, s, i, j)
  {
    if slot == s {
      var bs := box.slots[s];
      assert bs[i] in bs && bs[j] in bs;
      EachSound(bs, op);
      TwinOp(bs[i].list, bs[j].list, op);
    }
  }

  lemma {:induction false} TwinDeliverAll(box: Box, slot: nat, ops: seq<Op>, s: nat, i: nat, j: nat)
    requires Sound(box) && TwinAt(box, s, i, j)
    ensures DeliverAll(box, slot, ops).Some? ==> TwinAt(DeliverAll(box, slot, ops).value, s, i, j)
    decreases ops
  {
    if ops != [] {
      TwinDeliver(box, slot, ops[0], s, i, j);
      DeliverSound(box, slot, ops[0]);
      if Deliver(box, slot, ops[0]).Some? {
        TwinDeliverAll(Deliver(box, slot, ops[0]).value, slot, ops[1..], s, i, j);
      }
    }
  }

  /** Two renderings of one topic that show the same rows show the same rows after any run. */
  lemma {:induction false} TwinRun(box: Box, events: seq<Event>, s: nat, i: nat, j: nat)
    requires Sound(box) && (forall e :: e in events ==> Legal(e)) && TwinAt(box, s, i, j)
    ensures Run(box, events).Some? ==> TwinAt(Run(box, events).value, s, i, j)
    decreases events
  {
    if events != [] {
      HappenSound(box, events[0]);
      match events[0] {
        case Arrive(slot, op) => TwinDeliver(box, slot, op, s, i, j);
        case Anchor(slot, anchor, l) =>
          if Bindings(box, slot) == [] {
            TwinDeliverAll(First(box, slot, anchor, l), slot, Waiting(box, slot), s, i, j);
          }
      }
      if Happen(box, events[0]).Some? {
        TwinRun(Happen(box, events[0]).value, events[1..], s, i, j);
      }
    }
  }
}
