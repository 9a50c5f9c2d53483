/** Where a run stops when an insert throws, and what it leaves: one lost row in one list. */
module ListThrows {
  import opened Prelude
  import opened ListSink
  import opened ListDelta
  import opened ListTwins
  import opened ListRuns
  import opened ListDelivery

  // ---- One delivery ------------------------------------------------------------------------------

  /** The insert carries new markup for the very row it is to land ahead of. */
  predicate RebuildsMarker(l: List, op: Op)
    requires Valid(l)
  {
    && op.SlotInsert? && op.before.Some? && op.before.value in l.rowsByKey
    && Rebuilds(op.rows, op.before.value, Find(l.children, op.before.value).stamp)
  }

  lemma {:induction false} OpThrows(l: List, op: Op)
    requires Valid(l)
    ensures ApplyOp(l, op).None? <==> RebuildsMarker(l, op)
  {
    OpValid(l, op);
    if op.SlotInsert? {
      ThrowsIffRebuilt(l, op.before, op.rows);
    }
  }

  /** Some anchor of the slot holds the marker, and the insert rebuilds it there. */
  predicate AnyRebuilds(bs: seq<Bound>, op: Op)
    requires AllSound(bs)
  {
    exists i :: 0 <= i < |bs| && RebuildsMarker(bs[i].list, op)
  }

  lemma {:induction false} EachThrows(bs: seq<Bound>, op: Op)
    requires AllSound(bs)
    ensures ApplyEach(bs, op).None? <==> AnyRebuilds(bs, op)
  {
    EachSound(bs, op);
    forall i | 0 <= i < |bs| ensures ApplyOp(bs[i].list, op).None? <==> RebuildsMarker(bs[i].list, op) {
      assert bs[i] in bs;
      OpThrows(bs[i].list, op);
    }
  }

  /** The first anchor at which the operation throws. */
  function Thrower(bs: seq<Bound>, op: Op): (t: nat)
    requires AllSound(bs) && ApplyEach(bs, op).None?
    ensures t < |bs| && Valid(bs[t].list)
  {
    assert bs[0] in bs && forall b :: b in bs[1..] ==> b in bs;
    if ApplyOp(bs[0].list, op).None? then 0 else 1 + Thrower(bs[1..], op)
  }

  /** Anchors ahead of that one have the operation, those behind it have not. */
  function EachTorn(bs: seq<Bound>, op: Op): seq<Bound>
    requires AllSound(bs) && ApplyEach(bs, op).None?
  {
    assert bs[0] in bs && forall b :: b in bs[1..] ==> b in bs;
    match ApplyOp(bs[0].list, op)
    case None => [bs[0].(list := TornOp(bs[0].list, op))] + bs[1..]
    case Some(l) => [bs[0].(list := l)] + EachTorn(bs[1..], op)
  }

  /** `now` is what `was` becomes when the operation throws at anchor `t`. */
  ghost predicate TornAt(was: seq<Bound>, op: Op, t: nat, now: seq<Bound>)
    requires AllSound(was)
  {
    && |now| == |was| && t < |was|
    && (forall i :: 0 <= i < t ==> Some(now[i].list) == ApplyOp(was[i].list, op) && now[i].anchor == was[i].anchor)
    && ApplyOp(was[t].list, op).None? && now[t] == was[t].(list := TornOp(was[t].list, op))
    && forall i :: t < i < |was| ==> now[i] == was[i]
  }

  lemma {:induction false} TornBehind(was: seq<Bound>, op: Op, t: nat, now: seq<Bound>, h: Bound, l: List)
    requires AllSound(was) && TornAt(was, op, t, now) && Valid(h.list) && ApplyOp(h.list, op) == Some(l)
    ensures AllSound([h] + was) && TornAt([h] + was, op, t + 1, [h.(list := l)] + now)
  {
    hide ApplyOp, Valid, TornOp;
    var was', now' := [h] + was, [h.(list := l)] + now;
    assert forall i :: 0 < i < |was'| ==> was'[i] == was[i - 1] && now'[i] == now[i - 1];
    forall b | b in was' ensures Valid(b.list) {
      assert b == h || b in was;
    }
  }

  lemma {:induction false} TornHere(bs: seq<Bound>, op: Op)
    requires AllSound(bs) && bs != [] && bs[0] in bs && Valid(bs[0].list) && ApplyOp(bs[0].list, op).None?
    ensures TornAt(bs, op, 0, [bs[0].(list := TornOp(bs[0].list, op))] + bs[1..])
  {
    hide ApplyOp, Valid, TornOp, AllSound;
    var now := [bs[0].(list := TornOp(bs[0].list, op))] + bs[1..];
    assert forall i :: 0 < i < |bs| ==> now[i] == bs[i];
  }

  lemma {:induction false} EachTornIs(bs: seq<Bound>, op: Op)
    requires AllSound(bs) && ApplyEach(bs, op).None?
    ensures TornAt(bs, op, Thrower(bs, op), EachTorn(bs, op))
  {
    assert bs[0] in bs && forall b :: b in bs[1..] ==> b in bs;
    assert AllSound(bs[1..]) && Valid(bs[0].list);
    hide TornOp, ApplyOp, Valid, TornAt, AllSound;
    if ApplyOp(bs[0].list, op).None? {
      TornHere(bs, op);
    } else {
      EachTornIs(bs[1..], op);
      TornBehind(bs[1..], op, Thrower(bs[1..], op), EachTorn(bs[1..], op), bs[0], ApplyOp(bs[0].list, op).value);
      assert bs == [bs[0]] + bs[1..];
    }
  }

  /** There is only one such outcome. */
  lemma {:induction false} TornUnique(was: seq<Bound>, op: Op, t: nat, now: seq<Bound>)
    requires AllSound(was) && TornAt(was, op, t, now)
    ensures ApplyEach(was, op).None? && now == EachTorn(was, op)
  {
    EachSound(was, op);
    EachTornIs(was, op);
    var u, r := Thrower(was, op), EachTorn(was, op);
    hide ApplyOp, Valid, EachTorn, Thrower, TornOp, ApplyEach;
    assert t == u;
    assert forall i :: 0 <= i < |was| ==> now[i] == r[i];
  }

  // ---- A run that stops ---------------------------------------------------------------------------

  /** The delivery that throws, and the lists it found. */
  datatype Stop = Stop(box: Box, slot: nat, op: Op)

  ghost predicate Stuck(s: Stop) { Sound(s.box) && Deliver(s.box, s.slot, s.op).None? }

  function Left(s: Stop): Box
    requires Stuck(s)
  {
    s.box.(slots := s.box.slots[s.slot := EachTorn(Bindings(s.box, s.slot), s.op)])
  }

  function DrainStop(box: Box, slot: nat, ops: seq<Op>): (s: Stop)
    requires Sound(box) && DeliverAll(box, slot, ops).None?
    ensures Stuck(s)
    decreases ops
  {
    DeliverSound(box, slot, ops[0]);
    match Deliver(box, slot, ops[0])
    case None => Stop(box, slot, ops[0])
    case Some(b) => DrainStop(b, slot, ops[1..])
  }

  function HappenStop(box: Box, e: Event): (s: Stop)
    requires Sound(box) && Legal(e) && Happen(box, e).None?
    ensures Stuck(s)
  {
    match e
    case Arrive(slot, op) => Stop(box, slot, op)
    case Anchor(slot, anchor, l) => DrainStop(First(box, slot, anchor, l), slot, Waiting(box, slot))
  }

  function RunStop(box: Box, events: seq<Event>): (s: Stop)
    requires Sound(box) && (forall e :: e in events ==> Legal(e)) && Run(box, events).None?
    ensures Stuck(s)
    decreases events
  {
    HappenSound(box, events[0]);
    match Happen(box, events[0])
    case None => HappenStop(box, events[0])
    case Some(b) => RunStop(b, events[1..])
  }

  /** The page a run leaves, whether it ends or throws. */
  function Reach(box: Box, events: seq<Event>): Box
    requires Sound(box) && forall e :: e in events ==> Legal(e)
  {
    if Run(box, events).Some? then Run(box, events).value else Left(RunStop(box, events))
  }

  /** List `i` of slot `s` has lost the row `k`, and every other list is as it should be. */
  ghost predicate LostAt(box: Box, s: nat, i: nat, k: Key) {
    && s in box.slots && i < |box.slots[s]| && Lost(box.slots[s][i].list, k)
    && forall r, j :: r in box.slots && 0 <= j < |box.slots[r]| && !(r == s && j == i) ==> Valid(box.slots[r][j].list)
  }

  /** The page is left with one lost row: the one the insert was to land ahead of and rebuilt instead. */
  lemma {:induction false} StopLoses(s: Stop)
    requires Stuck(s)
    ensures var bs := Bindings(s.box, s.slot);
            && AllSound(bs) && ApplyEach(bs, s.op).None? && RebuildsMarker(bs[Thrower(bs, s.op)].list, s.op)
            && LostAt(Left(s), s.slot, Thrower(bs, s.op), s.op.before.value) && !Sound(Left(s))
  {
    var bs, op := Bindings(s.box, s.slot), s.op;
    EachTornIs(bs, op);
    var t, now := Thrower(bs, op), EachTorn(bs, op);
    OpThrows(bs[t].list, op);
    ThrowLoses(bs[t].list, op);
    var box := Left(s);
    forall r, j | r in box.slots && 0 <= j < |box.slots[r]| && !(r == s.slot && j == t)
      ensures Valid(box.slots[r][j].list)
    {
      if r == s.slot {
        assert bs[j] in bs;
        OpValid(bs[j].list, op);
      } else {
        assert s.box.slots[r][j] in s.box.slots[r];
      }
    }
    assert now[t] in box.slots[s.slot];
  }

  /** The slot's anchors as a throw leaves them, and nothing else touched. */
  ghost predicate Broken(was: Box, slot: nat, op: Op, now: Box) {
    && slot in was.slots && slot in now.slots && AllSound(was.slots[slot])
    && Elsewhere(was.slots, slot, now.slots) && now.pending == was.pending
    && exists t :: TornAt(was.slots[slot], op, t, now.slots[slot])
  }

  lemma {:induction false} StopBreaks(s: Stop)
    requires Stuck(s)
    ensures Broken(s.box, s.slot, s.op, Left(s))
  {
    EachTornIs(Bindings(s.box, s.slot), s.op);
  }

  /** Over any run, every bijection is kept if and only if no insert threw; one that did has cost one row of one
      list. */
  lemma {:induction false} ReachSound(box: Box, events: seq<Event>)
    requires Sound(box) && forall e :: e in events ==> Legal(e)
    ensures Sound(Reach(box, events)) <==> Run(box, events).Some?
    ensures Run(box, events).None? ==> exists s, i, k :: LostAt(Reach(box, events), s, i, k)
  {
    RunSound(box, events);
    if Run(box, events).None? {
      StopLoses(RunStop(box, events));
    }
  }

  // ---- Exactly when a run throws -------------------------------------------------------------------

  /** Draining what waited throws at its `j`th operation. */
  ghost predicate DrainThrowsAt(box: Box, slot: nat, ops: seq<Op>, j: nat)
    requires Sound(box)
  {
    && j < |ops| && DeliverAll(box, slot, ops[..j]).Some?
    && (AllDelivered(box, slot, ops[..j]);
        AnyRebuilds(Bindings(DeliverAll(box, slot, ops[..j]).value, slot), ops[j]))
  }

  ghost predicate EventThrows(box: Box, e: Event)
    requires Sound(box) && Legal(e)
  {
    match e
    case Arrive(slot, op) => AnyRebuilds(Bindings(box, slot), op)
    case Anchor(slot, anchor, l) =>
      && Bindings(box, slot) == []
      && exists j :: DrainThrowsAt(First(box, slot, anchor, l), slot, Waiting(box, slot), j)
  }

  /** The run gets as far as its `n`th event, which throws. */
  ghost predicate ThrowsAt(box: Box, events: seq<Event>, n: nat)
    requires Sound(box) && forall e :: e in events ==> Legal(e)
  {
    && n < |events| && (assert forall e :: e in events[..n] ==> e in events; Run(box, events[..n]).Some?)
    && (RunSound(box, events[..n]); EventThrows(Run(box, events[..n]).value, events[n]))
  }

  lemma {:induction false} DeliverThrows(box: Box, slot: nat, op: Op)
    requires Sound(box)
    ensures Deliver(box, slot, op).None? <==> AnyRebuilds(Bindings(box, slot), op)
  {
    EachThrows(Bindings(box, slot), op);
  }

  lemma {:induction false} DrainThrows(box: Box, slot: nat, ops: seq<Op>)
    requires Sound(box)
    ensures DeliverAll(box, slot, ops).None? <==> exists j :: DrainThrowsAt(box, slot, ops, j)
    decreases |ops|
  {
    if ops != [] {
      var n := |ops| - 1;
      var head, last := ops[..n], ops[n];
      assert ops == head + [last];
      AllDelivered(box, slot, head);
      DeliverAppend(box, slot, head, [last]);
      DrainThrows(box, slot, head);
      assert forall j :: 0 <= j <= n ==> head[..j] == ops[..j];
      assert forall j :: 0 <= j < n ==> head[j] == ops[j];
      hide AnyRebuilds, DeliverAll, Deliver;
      assert forall j :: 0 <= j < n ==> (DrainThrowsAt(box, slot, head, j) <==> DrainThrowsAt(box, slot, ops, j));
      if DeliverAll(box, slot, head).Some? {
        var b := DeliverAll(box, slot, head).value;
        DeliverOne(b, slot, last);
        DeliverThrows(b, slot, last);
        assert DrainThrowsAt(box, slot, ops, n) <==> AnyRebuilds(Bindings(b, slot), last);
      }
    }
  }

  lemma {:induction false} DeliverOne(box: Box, slot: nat, op: Op)
    requires Sound(box)
    ensures DeliverAll(box, slot, [op]) == Deliver(box, slot, op)
  {
    DeliverSound(box, slot, op);
    assert [op][1..] == [];
  }

  lemma {:induction false} HappenThrows(box: Box, e: Event)
    requires Sound(box) && Legal(e)
    ensures Happen(box, e).None? <==> EventThrows(box, e)
  {
    match e
    case Arrive(slot, op) => DeliverThrows(box, slot, op);
    case Anchor(slot, anchor, l) => DrainThrows(First(box, slot, anchor, l), slot, Waiting(box, slot));
  }

  /** A run throws if and only if it gets to an event that rebuilds the marker of its own insert. */
  lemma {:induction false} RunThrows(box: Box, events: seq<Event>)
    requires Sound(box) && forall e :: e in events ==> Legal(e)
    ensures Run(box, events).None? <==> exists n :: ThrowsAt(box, events, n)
    decreases |events|
  {
    if events != [] {
      var n := |events| - 1;
      var head, last := events[..n], events[n];
      assert events == head + [last] && last in events;
      assert forall e :: e in head ==> e in events;
      RunSound(box, head);
      RunAppend(box, head, [last]);
      RunThrows(box, head);
      assert forall j :: 0 <= j <= n ==> head[..j] == events[..j];
      assert forall j :: 0 <= j < n ==> head[j] == events[j];
      hide EventThrows, Run, Happen;
      assert forall j :: 0 <= j < n ==> (ThrowsAt(box, head, j) <==> ThrowsAt(box, events, j));
      if Run(box, head).Some? {
        var b := Run(box, head).value;
        RunOne(b, last);
        HappenThrows(b, last);
        assert ThrowsAt(box, events, n) <==> EventThrows(b, last);
      }
    }
  }

  // ---- Twins -----------------------------------------------------------------------------------------

  lemma {:induction false} TwinDrainStop(box: Box, slot: nat, ops: seq<Op>, s: nat, i: nat, j: nat)
    requires Sound(box) && TwinAt(box, s, i, j) && DeliverAll(box, slot, ops).None?
    ensures TwinAt(DrainStop(box, slot, ops).box, s, i, j)
    decreases ops
  {
    TwinDeliver(box, slot, ops[0], s, i, j);
    DeliverSound(box, slot, ops[0]);
    hide TwinAt;
    if Deliver(box, slot, ops[0]).Some? {
      TwinDrainStop(Deliver(box, slot, ops[0]).value, slot, ops[1..], s, i, j);
    }
  }

  /** Twins are twins up to the delivery that throws. */
  lemma {:induction false} TwinStop(box: Box, events: seq<Event>, s: nat, i: nat, j: nat)
    requires Sound(box) && (forall e :: e in events ==> Legal(e)) && TwinAt(box, s, i, j) && Run(box, events).None?
    ensures TwinAt(RunStop(box, events).box, s, i, j)
    decreases events
  {
    HappenSound(box, events[0]);
    if Happen(box, events[0]).Some? {
      assert [events[0]][1..] == [];
      TwinRun(box, [events[0]], s, i, j);
      RunOne(box, events[0]);
      TwinStop(Happen(box, events[0]).value, events[1..], s, i, j);
    } else {
      match events[0]
      case Arrive(slot, op) =>
      case Anchor(slot, anchor, l) =>
        TwinDrainStop(First(box, slot, anchor, l), slot, Waiting(box, slot), s, i, j);
    }
  }

  /** A throw at the first of two twins parts them: the other still has the row, and never sees the
      operation. A throw at an anchor ahead of both or behind both does not, and the second one is
      never where it throws. */
  lemma {:induction false} TwinsPart(stop: Stop, s: nat, i: nat, j: nat)
    requires Stuck(stop) && TwinAt(stop.box, s, i, j) && i < j
    ensures stop.slot != s ==> TwinAt(Left(stop), s, i, j)
    ensures stop.slot == s ==>
              var bs := Bindings(stop.box, s);
              AllSound(bs) && ApplyEach(bs, stop.op).None? &&
              var t := Thrower(bs, stop.op);
              t != j && (t < i || j < t ==> TwinAt(Left(stop), s, i, j)) && (t == i ==> !TwinAt(Left(stop), s, i, j))
  {
    if stop.slot == s {
      var bs, op := Bindings(stop.box, s), stop.op;
      EachTornIs(bs, op);
      var t, now := Thrower(bs, op), EachTorn(bs, op);
      assert bs[i] in bs && bs[j] in bs;
      TwinOp(bs[i].list, bs[j].list, op);
      if t == i {
        ThrowLoses(bs[i].list, op);
        TwinKeys(bs[i].list, bs[j].list);
        FindIn(bs[j].list, op.before.value);
        if Twins(now[i].list, now[j].list) {
          AlikeKeys(now[i].list.children, now[j].list.children);
        }
      }
    }
  }
}
