/** Many tabs and the messages between them: arbitrary delay, reordering and repetition. */
module PhosphorRuns {
  import opened Prelude
  import opened Phosphor

  /** `top` is the newest epoch any accession has minted, `minters` the tabs that minted it. */
  datatype World = World(tabs: seq<Tab>, flight: set<(nat, Msg)>, top: nat, minters: set<nat>)

  /** `kept` is a delivery that leaves another copy in flight. */
  datatype Move = Move(tab: nat, event: Event, kept: bool)

  predicate Legal(w: World, mv: Move) {
    mv.tab < |w.tabs| && (mv.event.Deliver? ==> (mv.tab, mv.event.msg) in w.flight)
  }

  function Posted(n: nat, from: nat, msgs: set<Msg>): set<(nat, Msg)> {
    set j, m | 0 <= j < n && j != from && m in msgs :: (j, m)
  }

  function Next(w: World, mv: Move): World
    requires Legal(w, mv)
  {
    var t := Happen(w.tabs[mv.tab], mv.event);
    var left := if mv.event.Deliver? && !mv.kept then w.flight - {(mv.tab, mv.event.msg)} else w.flight;
    var flight := left + Posted(|w.tabs|, mv.tab, t.outbox);
    var tabs := w.tabs[mv.tab := t.(outbox := {})];
    if !mv.event.Accede? || t.epoch < w.top then World(tabs, flight, w.top, w.minters)
    else if t.epoch == w.top then World(tabs, flight, w.top, w.minters + {mv.tab})
    else World(tabs, flight, t.epoch, {mv.tab})
  }

  predicate LegalRun(w: World, moves: seq<Move>)
    decreases moves
  {
    moves != [] ==> Legal(w, moves[0]) && LegalRun(Next(w, moves[0]), moves[1..])
  }

  function Run(w: World, moves: seq<Move>): World
    requires LegalRun(w, moves)
    decreases moves
  {
    if moves == [] then w else Run(Next(w, moves[0]), moves[1..])
  }

  // ---- The invariant ---------------------------------------------------------------------------

  ghost predicate TabsSound(w: World) {
    forall i :: 0 <= i < |w.tabs| ==> Sound(w.tabs[i]) && w.tabs[i].outbox == {} && w.tabs[i].maxEpoch <= w.top
  }

  ghost predicate FlightBelow(w: World) {
    forall j, m :: (j, m) in w.flight && Stamped(m) ==> m.epoch <= w.top
  }

  /** Whoever has not seen the newest epoch has its announcement coming. */
  ghost predicate Announced(w: World) {
    forall i :: 0 <= i < |w.tabs| ==> w.tabs[i].maxEpoch == w.top || (i, Owner(w.top)) in w.flight
  }

  ghost predicate Minted(w: World) {
    forall i :: 0 <= i < |w.tabs| && w.tabs[i].active && w.tabs[i].epoch == w.top ==> i in w.minters
  }

  ghost predicate Inv(w: World) { TabsSound(w) && FlightBelow(w) && Announced(w) && Minted(w) }

  /** Every tab as it is when its page loads, and nothing in flight. */
  ghost predicate Initial(w: World) {
    && w.flight == {} && w.top == 0 && w.minters == {}
    && forall i :: 0 <= i < |w.tabs| ==>
         (var t := w.tabs[i]; t.maxEpoch == 0 && t.epoch == 0 && !t.active && t.trunk.None? && t.lane.None?
                              && t.claims == map[] && t.census.None? && t.outbox == {})
  }

  lemma {:induction false} InitialInv(w: World)
    requires Initial(w)
    ensures Inv(w)
  {}

  /** What one tab's event does to the epochs around it. */
  lemma {:induction false} MoveEpochs(w: World, mv: Move)
    requires Inv(w) && Legal(w, mv)
    ensures var t, u := w.tabs[mv.tab], Happen(w.tabs[mv.tab], mv.event);
            && Sound(u) && u.maxEpoch >= t.maxEpoch &&
              (forall m :: m in u.outbox && Stamped(m) ==> m.epoch == u.maxEpoch)
            && (!mv.event.Accede? ==> u.maxEpoch <= w.top)
            && (mv.event.Deliver? && mv.event.msg == Owner(w.top) ==> u.maxEpoch == w.top)
            && (mv.event.Accede? ==> u.epoch == u.maxEpoch && Owner(u.epoch) in u.outbox && u.active)
  {
    var t := w.tabs[mv.tab];
    HappenSound(t, mv.event);
    if mv.event.Accede? {
      AccedeSound(t, mv.event.clock);
    } else if mv.event.Deliver? {
      ReceiveSound(t, mv.event.msg);
    }
  }

  /** No owner appears or changes its epoch. */
  predicate Serves(t: Tab, u: Tab) { u.active ==> t.active && u.epoch == t.epoch }

  lemma {:induction false} ReceiveServes(t: Tab, m: Msg)
    ensures Serves(t, Receive(t, m))
    decreases Rank(m), 0
  {
    if !(Stamped(m) && m.epoch < t.maxEpoch) {
      var u := if Stamped(m) then Fenced(t, m.epoch) else t;
      match m
      case Attach(_, _, _, _, _) => if u.active { AttachServes(u, m); }
      case Owner(_) => ReattachServes(u, m);
      case Census(_) => ReattachServes(u, m);
      case _ =>
    }
  }

  lemma {:induction false} PublishServes(t: Tab, m: Msg)
    ensures Serves(t, Publish(t, m))
    decreases Rank(m), 1
  {
    ReceiveServes(t, m);
  }

  lemma {:induction false} ReattachServes(t: Tab, why: Msg)
    requires why.Owner? || why.Census?
    ensures Serves(t, Reattach(t, why))
    decreases Rank(why), 0, 0
  {
    PublishServes(t, AttachOf(t));
  }

  lemma {:induction false} AttachServes(t: Tab, m: Msg)
    requires m.Attach?
    ensures Serves(t, OwnerOnAttach(t, m))
    decreases 1, 0, 0
  {
    var u := if m.dev then t.(devWanted := true) else t;
    var v := if m.claim.Some? then ClaimMade(u, m.claim.value, m.tabId, Claim(m.nonce, m.pristine)) else u;
    var w := TrunkEnsured(v);
    assert w.active == t.active && w.epoch == t.epoch;
    hide ClaimMade, TrunkEnsured;
    if m.claim.Some? && w.lane.Some? {
      PublishServes(w, Attached(w.epoch, m.claim.value, m.nonce));
    }
  }

  /** An owner's epoch is only ever minted by its own accession. */
  lemma {:induction false} EpochMinted(t: Tab, e: Event)
    requires !e.Accede?
    ensures Serves(t, Happen(t, e))
  {
    match e
    case AttachRoute(route) => var u := t.(route := Some(route)); PublishServes(u, AttachOf(u));
    case DevAttach => var u := t.(dev := true); PublishServes(u, AttachOf(u));
    case Ask => PublishServes(t, AttachOf(t));
    case Deliver(msg) => ReceiveServes(t, msg);
    case Patch(route, only, data) => PublishServes(t, Frame(t.epoch, route, only, data));
    case DevEvent(name, data) => PublishServes(t, Dev(t.epoch, name, data));
    case Beat => PublishServes(t, Heartbeat(t.epoch));
    case CensusStart => PublishServes(t.(census := Some(Round(t.rounds, Ghosts(t))), rounds := t.rounds + 1),
      Census(t.epoch));
    case PageHide => if t.route.Some? { PublishServes(t, Detach(t.id, t.route.value)); }
    case _ =>
  }

  // ---- Every move keeps it ------------------------------------------------------------------------

  lemma {:induction false} NextTabs(w: World, mv: Move)
    requires Inv(w) && Legal(w, mv)
    ensures Next(w, mv).top >= w.top && |Next(w, mv).tabs| == |w.tabs|
    ensures TabsSound(Next(w, mv)) && FlightBelow(Next(w, mv))
  {
    MoveEpochs(w, mv);
    var u := Happen(w.tabs[mv.tab], mv.event);
    assert Sound(u.(outbox := {}));
    hide Sound, Happen;
  }

  lemma {:induction false} NextAnnounced(w: World, mv: Move)
    requires Inv(w) && Legal(w, mv)
    ensures Announced(Next(w, mv))
  {
    MoveEpochs(w, mv);
    NextTabs(w, mv);
    hide Sound, Happen;
  }

  lemma {:induction false} NextMinted(w: World, mv: Move)
    requires Inv(w) && Legal(w, mv)
    ensures Minted(Next(w, mv))
  {
    MoveEpochs(w, mv);
    assert forall i :: 0 <= i < |w.tabs| && w.tabs[i].active ==> w.tabs[i].epoch <= w.top;
    if !mv.event.Accede? {
      EpochMinted(w.tabs[mv.tab], mv.event);
    }
    hide Sound, Happen;
  }

  lemma {:induction false} NextInv(w: World, mv: Move)
    requires Inv(w) && Legal(w, mv)
    ensures Inv(Next(w, mv))
  {
    NextTabs(w, mv);
    NextAnnounced(w, mv);
    NextMinted(w, mv);
  }

  lemma {:induction false} RunInv(w: World, moves: seq<Move>)
    requires Inv(w) && LegalRun(w, moves)
    ensures Inv(Run(w, moves)) && |Run(w, moves).tabs| == |w.tabs|
    decreases moves
  {
    if moves != [] {
      NextInv(w, moves[0]);
      RunInv(Next(w, moves[0]), moves[1..]);
    }
  }

  // ---- Election --------------------------------------------------------------------------------------

  /** No announcement of an accession is still on its way. */
  ghost predicate Delivered(w: World) { forall i, m :: (i, m) in w.flight ==> !m.Owner? }

  /** In every run, once all announcements have arrived, every active owner holds the newest epoch
      ever minted, by an accession of its own. */
  lemma {:induction false} OwnersHoldNewest(w: World, moves: seq<Move>, i: nat)
    requires Initial(w) && LegalRun(w, moves) && Delivered(Run(w, moves))
    requires i < |Run(w, moves).tabs| && Run(w, moves).tabs[i].active
    ensures Run(w, moves).tabs[i].epoch == Run(w, moves).top && i in Run(w, moves).minters
  {
    InitialInv(w);
    RunInv(w, moves);
  }

  /** An owner that is neither hidden nor loses its lock, and meets nothing newer, stays one. */
  predicate Keeps(t: Tab, u: Tab) { t.active ==> u.active && u.epoch == t.epoch }

  lemma {:induction false} ReceiveKeeps(t: Tab, m: Msg)
    requires Stamped(m) ==> m.epoch <= t.epoch
    ensures Keeps(t, Receive(t, m))
    decreases Rank(m), 0
  {
    if t.active && !(Stamped(m) && m.epoch < t.maxEpoch) {
      var u := if Stamped(m) then Fenced(t, m.epoch) else t;
      match m
      case Attach(_, _, _, _, _) => AttachKeeping(u, m);
      case _ =>
    }
  }

  lemma {:induction false} PublishKeeps(t: Tab, m: Msg)
    requires Stamped(m) ==> m.epoch <= t.epoch
    ensures Keeps(t, Publish(t, m))
    decreases Rank(m), 1
  {
    ReceiveKeeps(t, m);
  }

  lemma {:induction false} AttachKeeping(t: Tab, m: Msg)
    requires m.Attach?
    ensures Keeps(t, OwnerOnAttach(t, m))
    decreases 1, 0, 0
  {
    var u := if m.dev then t.(devWanted := true) else t;
    var v := if m.claim.Some? then ClaimMade(u, m.claim.value, m.tabId, Claim(m.nonce, m.pristine)) else u;
    var w := TrunkEnsured(v);
    assert w.active == t.active && w.epoch == t.epoch;
    hide ClaimMade, TrunkEnsured;
    if m.claim.Some? && w.lane.Some? {
      PublishKeeps(w, Attached(w.epoch, m.claim.value, m.nonce));
    }
  }

  predicate Leaves(e: Event) { e.LockLost? || e.PageHide? }

  lemma {:induction false} HappenKeeps(t: Tab, e: Event)
    requires !e.Accede? && !Leaves(e) && (e.Deliver? && Stamped(e.msg) ==> e.msg.epoch <= t.epoch)
    ensures Keeps(t, Happen(t, e))
  {
    match e
    case AttachRoute(route) => var u := t.(route := Some(route)); PublishKeeps(u, AttachOf(u));
    case DevAttach => var u := t.(dev := true); PublishKeeps(u, AttachOf(u));
    case Ask => PublishKeeps(t, AttachOf(t));
    case Deliver(msg) => ReceiveKeeps(t, msg);
    case Patch(route, only, data) => PublishKeeps(t, Frame(t.epoch, route, only, data));
    case DevEvent(name, data) => PublishKeeps(t, Dev(t.epoch, name, data));
    case Beat => PublishKeeps(t, Heartbeat(t.epoch));
    case CensusStart => PublishKeeps(t.(census := Some(Round(t.rounds, Ghosts(t))), rounds := t.rounds + 1),
      Census(t.epoch));
    case _ =>
  }

  /** Losing the lock or hiding the page ends an ownership. */
  lemma {:induction false} LeavingEnds(t: Tab, e: Event)
    requires Leaves(e)
    ensures !Happen(t, e).active
  {}

  /** Who still stands after a move: the tabs that minted the newest epoch and have not left since. */
  function Standing(w: World, s: set<nat>, mv: Move): set<nat>
    requires Legal(w, mv)
  {
    if mv.event.Accede? then
      var e := MintEpoch(mv.event.clock, w.tabs[mv.tab].maxEpoch);
      if e > w.top then {mv.tab} else if e == w.top then s + {mv.tab} else s - {mv.tab}
    else if Leaves(mv.event) then s - {mv.tab}
    else s
  }

  function Stands(w: World, s: set<nat>, moves: seq<Move>): set<nat>
    requires LegalRun(w, moves)
    decreases moves
  {
    if moves == [] then s else Stands(Next(w, moves[0]), Standing(w, s, moves[0]), moves[1..])
  }

  /** The standing tabs are the active owners of the newest epoch. */
  ghost predicate Stood(w: World, s: set<nat>) {
    forall i :: i in s <==> 0 <= i < |w.tabs| && w.tabs[i].active && w.tabs[i].epoch == w.top
  }

  lemma {:induction false} NextStood(w: World, s: set<nat>, mv: Move)
    requires Inv(w) && Legal(w, mv) && Stood(w, s)
    ensures Stood(Next(w, mv), Standing(w, s, mv))
  {
    var t := w.tabs[mv.tab];
    MoveEpochs(w, mv);
    assert t.maxEpoch <= w.top && (t.active ==> t.epoch <= w.top);
    assert forall i :: 0 <= i < |w.tabs| && w.tabs[i].active ==> w.tabs[i].epoch <= w.top;
    if mv.event.Accede? {
      AccedeSound(t, mv.event.clock);
    } else {
      EpochMinted(t, mv.event);
      if Leaves(mv.event) {
        LeavingEnds(t, mv.event);
      } else if t.active && t.epoch == w.top {
        HappenKeeps(t, mv.event);
      }
    }
    hide Sound, Happen, Inv;
  }

  lemma {:induction false} RunStood(w: World, s: set<nat>, moves: seq<Move>)
    requires Inv(w) && LegalRun(w, moves) && Stood(w, s)
    ensures Stood(Run(w, moves), Stands(w, s, moves))
    decreases moves
  {
    if moves != [] {
      NextInv(w, moves[0]);
      NextStood(w, s, moves[0]);
      RunStood(Next(w, moves[0]), Standing(w, s, moves[0]), moves[1..]);
    }
  }

  /** In every run, once all announcements have arrived, the active owners are exactly the tabs that
      minted the newest epoch and have neither lost the lock nor been hidden since. */
  lemma {:induction false} OwnersAreStanding(w: World, moves: seq<Move>, i: nat)
    requires Initial(w) && LegalRun(w, moves) && Delivered(Run(w, moves)) && i < |w.tabs|
    ensures |Run(w, moves).tabs| == |w.tabs|
    ensures Run(w, moves).tabs[i].active <==> i in Stands(w, {}, moves)
  {
    InitialInv(w);
    RunInv(w, moves);
    RunStood(w, {}, moves);
    if Run(w, moves).tabs[i].active {
      OwnersHoldNewest(w, moves, i);
    }
  }

  ghost predicate Single(s: set<nat>) { forall i, j :: i in s && j in s ==> i == j }

  ghost predicate AtMostOneOwner(w: World) {
    forall i, j :: 0 <= i < |w.tabs| && 0 <= j < |w.tabs| && w.tabs[i].active && w.tabs[j].active ==> i == j
  }

  /** So at most one tab is an active owner if and only if at most one stands. */
  lemma {:induction false} OneOwnerIffOneStands(w: World, moves: seq<Move>)
    requires Initial(w) && LegalRun(w, moves) && Delivered(Run(w, moves))
    ensures AtMostOneOwner(Run(w, moves)) <==> Single(Stands(w, {}, moves))
  {
    InitialInv(w);
    RunInv(w, moves);
    RunStood(w, {}, moves);
    forall i | 0 <= i < |w.tabs| ensures Run(w, moves).tabs[i].active <==> i in Stands(w, {}, moves) {
      OwnersAreStanding(w, moves, i);
    }
  }

  /** The epoch an accession would mint is not the newest one already minted elsewhere. */
  predicate Untied(w: World, mv: Move)
    requires Legal(w, mv)
  {
    mv.event.Accede? ==> MintEpoch(mv.event.clock, w.tabs[mv.tab].maxEpoch) != w.top || w.minters <= {mv.tab}
  }

  predicate UntiedRun(w: World, moves: seq<Move>)
    requires LegalRun(w, moves)
    decreases moves
  {
    moves != [] ==> Untied(w, moves[0]) && UntiedRun(Next(w, moves[0]), moves[1..])
  }

  lemma {:induction false} UntiedSingle(w: World, moves: seq<Move>)
    requires Inv(w) && LegalRun(w, moves) && UntiedRun(w, moves) && Single(w.minters)
    ensures Single(Run(w, moves).minters)
    decreases moves
  {
    if moves != [] {
      var mv := moves[0];
      NextInv(w, mv);
      if mv.event.Accede? {
        AccedeSound(w.tabs[mv.tab], mv.event.clock);
      }
      UntiedSingle(Next(w, mv), moves[1..]);
    }
  }

  /** In particular one stands at most when no accession ties with the newest epoch. */
  lemma {:induction false} UntiedOneOwner(w: World, moves: seq<Move>)
    requires Initial(w) && LegalRun(w, moves) && UntiedRun(w, moves) && Delivered(Run(w, moves))
    ensures AtMostOneOwner(Run(w, moves)) && Single(Stands(w, {}, moves))
  {
    InitialInv(w);
    UntiedSingle(w, moves);
    forall i, j | 0 <= i < |Run(w, moves).tabs| && 0 <= j < |Run(w, moves).tabs| && Run(w, moves).tabs[i].active &&
      Run(w, moves).tabs[j].active
      ensures i == j
    {
      OwnersHoldNewest(w, moves, i);
      OwnersHoldNewest(w, moves, j);
    }
    OneOwnerIffOneStands(w, moves);
  }

  /** An accession beats the newest epoch of all if and only if its tab has seen that epoch or its clock
      has passed it. */
  lemma {:induction false} BeatsIffSeenOrPassed(w: World, mv: Move)
    requires Inv(w) && Legal(w, mv) && mv.event.Accede?
    ensures MintEpoch(mv.event.clock, w.tabs[mv.tab].maxEpoch) > w.top <==>
            w.tabs[mv.tab].maxEpoch >= w.top || mv.event.clock > w.top
    ensures Next(w, mv).top > w.top <==> w.tabs[mv.tab].maxEpoch >= w.top || mv.event.clock > w.top
  {
    AccedeSound(w.tabs[mv.tab], mv.event.clock);
  }

  // ---- A tie ----------------------------------------------------------------------------------------

  function Idle(id: Id): Tab {
    Tab(id, None, id, true, false, 0, [], false, 0, map[], false, None, None, None, 0, {})
  }

  lemma {:induction false} AccedeIdle(id: Id, clock: nat)
    requires clock > 1
    ensures Happen(Idle(id), Accede(clock))
            == Idle(id).(active := true, epoch := clock, maxEpoch := clock, outbox := {Owner(clock)})
  {
    var t0 := Idle(id).(active := true, epoch := clock);
    assert Receive(t0, Owner(clock)) == Reattach(Fenced(t0, clock), Owner(clock)) == t0.(maxEpoch := clock);
  }

  lemma {:induction false} OwnerStays(t: Tab)
    requires t.active && t.epoch == t.maxEpoch
    ensures Receive(t, Owner(t.epoch)) == t
  {
    assert Fenced(t, t.epoch) == t;
    assert Receive(t, Owner(t.epoch)) == Reattach(t, Owner(t.epoch));
  }

  /** Two tabs that accede on the same clock reading, neither having heard the other, both stay owners. */
  lemma {:induction false} TiedOwners(clock: nat) returns (w: World, moves: seq<Move>)
    requires clock > 1
    ensures Initial(w) && LegalRun(w, moves) && Delivered(Run(w, moves)) && !AtMostOneOwner(Run(w, moves))
    ensures |Run(w, moves).tabs| == 2 && Run(w, moves).tabs[0].active && Run(w, moves).tabs[1].active
  {
    var a, b, o := Idle("a"), Idle("b"), Owner(clock);
    var a', b' := a.(active := true, epoch := clock, maxEpoch := clock),
      b.(active := true, epoch := clock, maxEpoch := clock);
    AccedeIdle("a", clock);
    AccedeIdle("b", clock);
    OwnerStays(a');
    OwnerStays(b');
    w := World([a, b], {}, 0, {});
    var m0, m1, m2, m3 := Move(0, Accede(clock), false), Move(1, Accede(clock), false), Move(0, Deliver(o), false),
      Move(1, Deliver(o), false);
    var w1, w2 := World([a', b], {(1, o)}, clock, {0}), World([a', b'], {(0, o), (1, o)}, clock, {0, 1});
    var w3, w4 := World([a', b'], {(1, o)}, clock, {0, 1}), World([a', b'], {}, clock, {0, 1});
    hide Happen;
    assert Posted(2, 0, {o}) == {(1, o)} && Posted(2, 1, {o}) == {(0, o)};
    assert Posted(2, 0, {}) == {} && Posted(2, 1, {}) == {};
    assert Happen(a', Deliver(o)) == a' && Happen(b', Deliver(o)) == b' by { DeliverIs(a', o); DeliverIs(b', o); }
    assert Next(w, m0) == w1;
    assert Next(w1, m1) == w2;
    assert Next(w2, m2) == w3;
    assert Next(w3, m3) == w4;
    moves := [m0, m1, m2, m3];
    assert moves[1..] == [m1, m2, m3] && [m1, m2, m3][1..] == [m2, m3] && [m2, m3][1..] == [m3] && [m3][1..] == [];
    hide Next;
    assert LegalRun(w4, []) && Run(w4, []) == w4;
    assert LegalRun(w3, [m3]) && Run(w3, [m3]) == w4;
    assert LegalRun(w2, [m2, m3]) && Run(w2, [m2, m3]) == w4;
    assert LegalRun(w1, [m1, m2, m3]) && Run(w1, [m1, m2, m3]) == w4;
  }

  lemma {:induction false} DeliverIs(t: Tab, m: Msg)
    ensures Happen(t, Deliver(m)) == Receive(t, m)
  {}
}
