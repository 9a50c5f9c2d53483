/** The owner's half of a tab: the claims it keeps, the trunk it holds open, and when it is one. */
module PhosphorOwner {
  import opened Prelude
  import opened Phosphor
  import opened PhosphorCensus
  import opened PhosphorEffects

  /** The fields only an owner's handlers change. */
  predicate OwnedAlike(t: Tab, u: Tab) {
    && u.claims == t.claims && u.trunk == t.trunk && u.lane == t.lane && u.devWanted == t.devWanted
    && u.active == t.active && u.epoch == t.epoch && u.maxEpoch == t.maxEpoch
  }

  lemma {:induction false} WelcomedOwned(t: Tab, m: Msg)
    requires m.Attach?
    ensures OwnedAlike(Enrolled(t, m), Welcomed(t, m))
  {
    hide Enrolled;
  }

  // ---- Who owns -------------------------------------------------------------------------------------

  /** The event takes the ownership away: the lock, a newer epoch, or the page. */
  predicate Ends(t: Tab, e: Event) { e.LockLost? || e.PageHide? || (e.Deliver? && Deposes(t, e.msg)) }

  ghost predicate Owns(t: Tab, e: Event, u: Tab) {
    && (u.active <==> e.Accede? || (t.active && !Ends(t, e)))
    && u.epoch == (if !e.Accede? then t.epoch else if e.clock > t.maxEpoch then e.clock else t.maxEpoch + 1)
    && u.maxEpoch == (if e.Accede? then u.epoch
                      else if e.Deliver? && Stamped(e.msg) && e.msg.epoch > t.maxEpoch then e.msg.epoch else t.maxEpoch)
  }

  // ---- Claims ---------------------------------------------------------------------------------------

  /** The claim an event makes at an owner. */
  function Makes(t: Tab, e: Event): Option<(Route, Id, Claim)> {
    match e
    case AttachRoute(route) => if t.active then Some((route, t.id, Claim(t.nonce, t.pristine))) else None
    case DevAttach => if t.active && t.route.Some? then Some((t.route.value, t.id, Claim(t.nonce, t.pristine)))
      else None
    case Accede(_) => if t.route.Some? then Some((t.route.value, t.id, Claim(t.nonce, t.pristine))) else None
    case Deliver(m) =>
      if t.active && m.Attach? && m.claim.Some? then Some((m.claim.value, m.tabId, Claim(m.nonce, m.pristine)))
        else None
    case _ => None
  }

  /** The claims an event drops: a new owner starts with none, a tab that leaves takes its own along, and a
      round that ends takes its ghosts. */
  predicate Drops(t: Tab, e: Event, r: Route, i: Id) {
    match e
    case Accede(_) => true
    case Deliver(m) => t.active && m.Detach? && m.route == r && m.tabId == i
    case PageHide => t.active && t.route == Some(r) && t.id == i
    case CensusEnd(number) => t.active && t.census.Some? && t.census.value.number == number && i in GhostAt(t, r)
    case _ => false
  }

  /** The claim `i` has on `r`. */
  function ClaimOf(claims: Claims, r: Route, i: Id): Option<Claim> {
    if r in claims && i in claims[r] then Some(claims[r][i]) else None
  }

  function Kept(t: Tab, e: Event, r: Route, i: Id): Option<Claim> {
    var made := Makes(t, e);
    if made.Some? && made.value.0 == r && made.value.1 == i then Some(made.value.2)
    else if Drops(t, e, r, i) then None
    else ClaimOf(t.claims, r, i)
  }

  lemma {:induction false} EnrolledClaims(t: Tab, m: Msg, r: Route, i: Id)
    requires m.Attach?
    ensures ClaimOf(Enrolled(t, m).claims, r, i)
         == if m.claim == Some(r) && m.tabId == i then Some(Claim(m.nonce, m.pristine)) else ClaimOf(t.claims, r, i)
  {
    var u := if m.dev then t.(devWanted := true) else t;
    if m.claim.Some? {
      EnsuredClaims(ClaimMade(u, m.claim.value, m.tabId, Claim(m.nonce, m.pristine)));
    } else {
      EnsuredClaims(u);
    }
    hide TrunkEnsured;
  }

  lemma {:induction false} EnsuredClaims(t: Tab)
    ensures TrunkEnsured(t).claims == t.claims
  {}

  lemma {:induction false} DetachClaims(t: Tab, tabId: Id, route: Route, r: Route, i: Id)
    ensures ClaimOf(OwnerOnDetach(t, tabId, route).claims, r, i)
         == if r == route && i == tabId then None else ClaimOf(t.claims, r, i)
  {
    if route in t.claims {
      var left := t.claims[route] - {tabId};
      assert i in left <==> i in t.claims[route] && i != tabId;
    }
  }

  lemma {:induction false} EvictedClaims(t: Tab, r: Route, i: Id)
    requires t.census.Some?
    ensures ClaimOf(Evicted(t.claims, t.census.value.ghosts), r, i)
         == if i in GhostAt(t, r) then None else ClaimOf(t.claims, r, i)
  {
    var gone := t.census.value.ghosts;
    var left := map q | q in t.claims :: if q in gone then t.claims[q] - gone[q] else t.claims[q];
    if r in t.claims && i in t.claims[r] && i !in GhostAt(t, r) {
      assert r in left && i in left[r];
    }
  }

  lemma {:induction false} WelcomedClaims(t: Tab, m: Msg, r: Route, i: Id)
    requires m.Attach?
    ensures ClaimOf(Welcomed(t, m).claims, r, i)
         == if m.claim == Some(r) && m.tabId == i then Some(Claim(m.nonce, m.pristine)) else ClaimOf(t.claims, r, i)
  {
    WelcomedOwned(t, m);
    EnrolledClaims(t, m, r, i);
    hide Welcomed, Enrolled;
  }

  // ---- The trunk ------------------------------------------------------------------------------------

  /** The open trunk carries dev events exactly when a dev tab has asked for them. */
  predicate Tuned(t: Tab) { t.trunk.Some? ==> t.trunk.value == t.devWanted }

  /** Somebody asks an owner for the lane. */
  predicate Calls(t: Tab, e: Event) {
    match e
    case AttachRoute(_) => t.active
    case DevAttach => t.active
    case Accede(_) => t.route.Some? || t.dev
    case Deliver(m) => t.active && m.Attach?
    case _ => false
  }

  /** It is a tab that wants dev events. */
  predicate WantsDev(t: Tab, e: Event) {
    match e
    case DevAttach => true
    case Deliver(m) => m.Attach? && m.dev
    case _ => t.dev
  }

  /** An owner that is asked has a trunk, and its lane lasts until the trunk is lost or reopened for dev events. */
  ghost predicate Trunked(t: Tab, e: Event, u: Tab) {
    && Tuned(u) && (u.devWanted <==> t.devWanted || (Calls(t, e) && WantsDev(t, e)))
    && (u.trunk.Some? <==>
        u.active && (Calls(t, e) || e.LaneGone? || e.Reopen? || (t.trunk.Some? && !e.TrunkError?)))
    && u.lane == if !u.active || e.TrunkError? || e.LaneGone? || u.devWanted != t.devWanted then None
                 else if e.Hello? && t.trunk.Some? then Some(e.lane)
                 else t.lane
  }

  lemma {:induction false} EnrolledTrunk(t: Tab, m: Msg)
    requires t.active && m.Attach? && Tuned(t) && (t.lane.Some? ==> t.trunk.Some?)
    ensures var w := Enrolled(t, m);
            && w.trunk == Some(w.devWanted) && (w.devWanted <==> t.devWanted || m.dev)
            && w.lane == (if w.devWanted != t.devWanted then None else t.lane)
            && w.active && w.epoch == t.epoch && w.maxEpoch == t.maxEpoch
  {
    var u := if m.dev then t.(devWanted := true) else t;
    if m.claim.Some? {
      var v := ClaimMade(u, m.claim.value, m.tabId, Claim(m.nonce, m.pristine));
      assert v.lane == u.lane && v.trunk == u.trunk && v.devWanted == u.devWanted && v.active == u.active
             && v.epoch == u.epoch && v.maxEpoch == u.maxEpoch;
    }
    hide ClaimMade;
  }

  // ---- All of it --------------------------------------------------------------------------------------

  ghost predicate Governs(t: Tab, e: Event, u: Tab) {
    && Owns(t, e, u) && (Tuned(t) ==> Trunked(t, e, u))
    && forall r, i :: ClaimOf(u.claims, r, i) == Kept(t, e, r, i)
  }

  /** An owner that hears a claim. */
  ghost predicate Welcomes(t: Tab, m: Msg, u: Tab)
    requires m.Attach?
  {
    && u.active && u.epoch == t.epoch && u.maxEpoch == t.maxEpoch
    && (Tuned(t) ==> u.trunk == Some(u.devWanted) && (u.devWanted <==> t.devWanted || m.dev)
                     && u.lane == (if u.devWanted != t.devWanted then None else t.lane))
    && forall r, i :: ClaimOf(u.claims, r, i)
                   == if m.claim == Some(r) && m.tabId == i then Some(Claim(m.nonce, m.pristine))
                     else ClaimOf(t.claims, r, i)
  }

  lemma {:induction false} WelcomedWelcomes(t: Tab, m: Msg)
    requires t.active && m.Attach? && (t.lane.Some? ==> t.trunk.Some?)
    ensures Welcomes(t, m, Welcomed(t, m))
  {
    WelcomedOwned(t, m);
    EnrolledAlike(t, m);
    hide Welcomed, Enrolled, ClaimOf;
    if Tuned(t) {
      EnrolledTrunk(t, m);
    }
    forall r, i ensures ClaimOf(Welcomed(t, m).claims, r, i)
                     == if m.claim == Some(r) && m.tabId == i then Some(Claim(m.nonce, m.pristine))
                        else ClaimOf(t.claims, r, i)
    {
      WelcomedClaims(t, m, r, i);
    }
  }

  /** Announcing itself changes nothing at a tab that is no owner. */
  lemma {:induction false} AnnouncedOwner(t: Tab)
    requires Sound(t.(route := None, dev := false))
    ensures var u := Publish(t, AttachOf(t));
            if t.active then Welcomes(t, AttachOf(t), u) else OwnedAlike(t, u)
  {
    AnnouncedIs(t);
    hide Welcomed, Welcomes;
    if t.active {
      WelcomedWelcomes(t, AttachOf(t));
      WelcomesFrame(t, AttachOf(t), Welcomed(t, AttachOf(t)), Publish(t, AttachOf(t)));
    }
  }

  lemma {:induction false} WelcomesFrame(t: Tab, m: Msg, u: Tab, w: Tab)
    requires m.Attach? && Welcomes(t, m, u) && OwnedAlike(u, w)
    ensures Welcomes(t, m, w)
  {
    hide ClaimOf;
  }

  lemma {:induction false} AskingGoverns(t: Tab, e: Event)
    requires Sound(t) && (e.AttachRoute? || e.DevAttach? || e.Ask?)
    ensures Governs(t, e, Happen(t, e))
  {
    var v := if e.AttachRoute? then t.(route := Some(e.route)) else if e.DevAttach? then t.(dev := true) else t;
    AnnouncedOwner(v);
    hide Publish, ClaimOf;
  }

  ghost predicate ElectedFrom(t: Tab, e: nat, u: Tab) {
    && u.active && u.epoch == e && u.maxEpoch == e && u.trunk == t.trunk && u.lane == t.lane
    && u.devWanted == t.devWanted && u.route == t.route && u.nonce == t.nonce && u.pristine == t.pristine
    && u.dev == t.dev && u.id == t.id && forall r, i :: ClaimOf(u.claims, r, i) == None
  }

  lemma {:induction false} ElectedFields(t: Tab, e: nat)
    ensures ElectedFrom(t, e, Elected(t, e))
  {}

  lemma {:induction false} ElectedGoverns(t: Tab, clock: nat, u: Tab, w: Tab)
    requires ElectedFrom(t, MintEpoch(clock, t.maxEpoch), u)
    requires if u.route.Some? || u.dev then Welcomes(u, AttachOf(u), w) else w == u
    requires (t.lane.Some? ==> t.trunk.Some?) && (t.trunk.Some? ==> t.active)
    ensures Governs(t, Accede(clock), w)
  {
    hide ClaimOf;
    assert Owns(t, Accede(clock), w);
    assert forall r, i :: ClaimOf(w.claims, r, i) == Kept(t, Accede(clock), r, i);
    hide Kept, Owns;
  }

  lemma {:induction false} AccedeGoverns(t: Tab, clock: nat)
    requires Sound(t)
    ensures Governs(t, Accede(clock), Happen(t, Accede(clock)))
  {
    var e := MintEpoch(clock, t.maxEpoch);
    var u := Elected(t, e);
    AccededIs(t, clock);
    ElectedFields(t, e);
    assert Happen(t, Accede(clock)) == Acceded(t, clock);
    assert (t.lane.Some? ==> t.trunk.Some?) && (t.trunk.Some? ==> t.active);
    assert u.lane == t.lane && u.trunk == t.trunk && u.active;
    hide *;
    if u.route.Some? || u.dev {
      AttachIs(u);
      WelcomedWelcomes(u, AttachOf(u));
    }
    ElectedGoverns(t, clock, u, Acceded(t, clock));
  }

  lemma {:induction false} AttachIs(t: Tab)
    ensures AttachOf(t).Attach?
  {}

  lemma {:induction false} DeliverGoverns(t: Tab, m: Msg)
    requires Sound(t)
    ensures Governs(t, Deliver(m), Happen(t, Deliver(m)))
  {
    DeliveredIs(t, m);
    assert Happen(t, Deliver(m)) == Receive(t, m);
    hide Receive, Happen;
    if Heard(t, m) {
      DeliveredGoverns(t, m);
      hide Delivered, Governs;
    } else {
      hide ClaimOf;
    }
  }

  lemma {:induction false} DetachedClaims(t: Tab, tabId: Id, route: Route)
    ensures forall r, i :: ClaimOf(OwnerOnDetach(t, tabId, route).claims, r, i)
                        == if r == route && i == tabId then None else ClaimOf(t.claims, r, i)
  {
    forall r, i ensures ClaimOf(OwnerOnDetach(t, tabId, route).claims, r, i)
                     == if r == route && i == tabId then None else ClaimOf(t.claims, r, i)
    {
      DetachClaims(t, tabId, route, r, i);
    }
  }

  ghost predicate HeardAs(t: Tab, m: Msg, u: Tab) {
    && u.epoch == t.epoch && u.claims == t.claims && u.devWanted == t.devWanted
    && u.maxEpoch == (if Stamped(m) then m.epoch else t.maxEpoch)
    && (u.active <==> t.active && !(Stamped(m) && m.epoch > t.epoch))
    && (if t.active && !u.active then u.trunk.None? && u.lane.None? else u.trunk == t.trunk && u.lane == t.lane)
  }

  lemma {:induction false} HearingIs(t: Tab, m: Msg)
    ensures HeardAs(t, m, Hearing(t, m))
  {
    HearingKeeps(t, m);
    hide Hearing;
  }

  /** A message that makes no claim and drops none. */
  lemma {:induction false} PassGoverns(t: Tab, m: Msg, u: Tab, w: Tab)
    requires Sound(t) && Heard(t, m) && HeardAs(t, m, u) && OwnedAlike(u, w) && (m.Attach? || m.Detach? ==> !u.active)
    ensures Governs(t, Deliver(m), w)
  {
    hide ClaimOf, GhostAt;
  }

  lemma {:induction false} ClaimGoverns(t: Tab, m: Msg, u: Tab, w: Tab)
    requires Sound(t) && m.Attach? && HeardAs(t, m, u) && u.active && Welcomes(u, m, w)
    ensures Governs(t, Deliver(m), w)
  {
    hide ClaimOf, GhostAt;
  }

  lemma {:induction false} DropGoverns(t: Tab, m: Msg, u: Tab, w: Tab)
    requires Sound(t) && m.Detach? && HeardAs(t, m, u) && u.active && w == u.(claims := w.claims)
    requires forall r, i :: ClaimOf(w.claims, r, i)
                         == if r == m.route && i == m.tabId then None else ClaimOf(u.claims, r, i)
    ensures Governs(t, Deliver(m), w)
  {
    hide ClaimOf, GhostAt;
  }

  lemma {:induction false} DeliveredGoverns(t: Tab, m: Msg)
    requires Sound(t) && Heard(t, m)
    ensures Governs(t, Deliver(m), Delivered(t, m))
  {
    var u := Hearing(t, m);
    HearingIs(t, m);
    assert u.active ==> (u.lane.Some? ==> u.trunk.Some?);
    hide Welcomed, OwnerOnDetach, Hearing, ClaimOf, Governs, Sound, HeardAs, Heard, Welcomes;
    if m.Attach? && u.active {
      WelcomedWelcomes(u, m);
      ClaimGoverns(t, m, u, Delivered(t, m));
    } else if m.Detach? && u.active {
      DetachPage(u, m);
      DetachedClaims(u, m.tabId, m.route);
      DropGoverns(t, m, u, Delivered(t, m));
    } else {
      PassGoverns(t, m, u, Delivered(t, m));
    }
  }

  /** Words an owner sends change nothing at it but what it shows. */
  lemma {:induction false} SpeechGoverns(t: Tab, e: Event)
    requires Sound(t) && (e.Patch? || e.DevEvent? || e.Beat? || e.CensusStart?)
    ensures OwnedAlike(t, Happen(t, e))
  {
    match e
    case Patch(route, only, data) => if t.trunk.Some? { OwnFrame(t, route, only, data); }
    case DevEvent(name, data) => if t.trunk.Some? { OwnWord(t, Dev(t.epoch, name, data)); }
    case Beat => if t.active { OwnWord(t, Heartbeat(t.epoch)); }
    case CensusStart =>
      if t.active && Ghosts(t) != map[] {
        OwnWord(t.(census := Some(Round(t.rounds, Ghosts(t))), rounds := t.rounds + 1), Census(t.epoch));
      }
  }

  lemma {:induction false} AlikeGoverns(t: Tab, e: Event, u: Tab)
    requires Sound(t) && (e.Patch? || e.DevEvent? || e.Beat? || e.CensusStart?) && OwnedAlike(t, u)
    ensures Governs(t, e, u)
  {
    hide ClaimOf;
  }

  lemma {:induction false} HideGoverns(t: Tab)
    requires Sound(t)
    ensures Governs(t, PageHide, Happen(t, PageHide))
  {
    if t.route.Some? {
      OwnDetach(t, t.route.value);
      DetachPage(t, Detach(t.id, t.route.value));
      DetachedClaims(t, t.id, t.route.value);
    }
    hide OwnerOnDetach, ClaimOf, Publish;
  }

  lemma {:induction false} SilentGoverns(t: Tab, e: Event)
    requires Sound(t) && (e.LockLost? || e.Hello? || e.TrunkError? || e.LaneGone? || e.Reopen? || e.CensusEnd?)
    ensures Governs(t, e, Happen(t, e))
  {
    if e.CensusEnd? && t.census.Some? {
      forall r, i ensures ClaimOf(Evicted(t.claims, t.census.value.ghosts), r, i)
                       == if i in GhostAt(t, r) then None else ClaimOf(t.claims, r, i)
      {
        EvictedClaims(t, r, i);
      }
    }
    hide Evicted, ClaimOf, GhostAt;
  }

  /** What every event does to the ownership, to each claim and to the trunk. */
  lemma {:induction false} HappenGoverns(t: Tab, e: Event)
    requires Sound(t)
    ensures Governs(t, e, Happen(t, e))
  {
    hide *;
    if e.AttachRoute? || e.DevAttach? || e.Ask? {
      AskingGoverns(t, e);
    } else if e.Accede? {
      AccedeGoverns(t, e.clock);
    } else if e.Deliver? {
      DeliverGoverns(t, e.msg);
    } else if e.Patch? || e.DevEvent? || e.Beat? || e.CensusStart? {
      SpeechGoverns(t, e);
      AlikeGoverns(t, e, Happen(t, e));
    } else if e.PageHide? {
      HideGoverns(t);
    } else {
      SilentGoverns(t, e);
    }
  }

  lemma {:induction false} OwnIs(e: Event)
    ensures Own(e) <==> e.Patch? || e.DevEvent? || e.Beat? || e.CensusStart? || e.PageHide?
  {}

  /** Over any events of a tab that starts without a trunk, an open one carries dev events exactly when a dev
      tab has asked. */
  lemma {:induction false} StaysTuned(t: Tab, events: seq<Event>)
    requires Sound(t) && Tuned(t)
    ensures Tuned(Run(t, events))
    decreases events
  {
    if events != [] {
      HappenSound(t, events[0]);
      HappenGoverns(t, events[0]);
      StaysTuned(Happen(t, events[0]), events[1..]);
    }
  }

  // ---- Whether the rendered page still is the newest -----------------------------------------------------

  /** The owner confirmed this tab's claim to it. */
  predicate Confirmed(t: Tab, m: Msg) {
    m.Attached? && m.epoch >= t.maxEpoch && t.route == Some(m.route) && m.nonce == t.nonce
  }

  /** One of the messages acknowledges the tab's own claim. */
  ghost predicate Answers(t: Tab, ms: set<Msg>) {
    exists m :: m in ms && m.Attached? && t.route == Some(m.route) && m.nonce == t.nonce
  }

  /** A frame was shown, or the tab's claim acknowledged: by another owner, or by the tab itself as the owner. */
  ghost predicate Joined(t: Tab, e: Event, u: Tab) {
    Display(t, e) != [] || (e.Deliver? && Confirmed(t, e.msg)) || Answers(u, Posts(t, e))
  }

  lemma {:induction false} WelcomedPristine(t: Tab, m: Msg)
    requires t.active && m.Attach? && (t.lane.Some? ==> t.trunk.Some?)
    ensures Welcomed(t, m).pristine <==> t.pristine && !Answers(t, Ack(t, m.dev, t.epoch, m.claim, m.nonce))
  {
    EnrolledAlike(t, m);
    EnrolledLane(t, m);
    hide Enrolled, LaneStays;
    if m.claim.Some? && LaneStays(t, m.dev) {
      assert Attached(t.epoch, m.claim.value, m.nonce) in Ack(t, m.dev, t.epoch, m.claim, m.nonce);
    }
  }

  lemma {:induction false} AnnouncedPristine(t: Tab)
    requires Sound(t.(route := None, dev := false))
    ensures Publish(t, AttachOf(t)).pristine <==> t.pristine && !Answers(t, {AttachOf(t)} + OwnAck(t, t.dev, t.route))
  {
    AnnouncedIs(t);
    if t.active {
      WelcomedPristine(t, AttachOf(t));
    }
    hide Welcomed, LaneStays;
  }

  lemma {:induction false} AccededPristine(t: Tab, clock: nat)
    requires Sound(t)
    ensures Acceded(t, clock).pristine <==> t.pristine && !Answers(t, Posts(t, Accede(clock)))
  {
    AccededIs(t, clock);
    var u := Elected(t, MintEpoch(clock, t.maxEpoch));
    WelcomedPristine(u, AttachOf(u));
    assert Ack(u, u.dev, u.epoch, u.route, u.nonce) == Ack(t, t.dev, u.epoch, t.route, t.nonce);
    hide Welcomed, LaneStays;
  }

  lemma {:induction false} DeliveredPristine(t: Tab, m: Msg)
    requires Sound(t) && Heard(t, m)
    ensures Delivered(t, m).pristine <==> t.pristine && !Joined(t, Deliver(m), Delivered(t, m))
  {
    var u := Hearing(t, m);
    HearingKeeps(t, m);
    DetachPage(u, m);
    DeliveredPage(t, m);
    if m.Attach? && u.active {
      WelcomedPristine(u, m);
    }
    hide Welcomed, OwnerOnDetach, Hearing, LaneStays;
  }

  lemma {:induction false} FlushedPristine(t: Tab, lane: string)
    requires Sound(t) && t.trunk.Some?
    ensures Happen(t, Hello(lane)).pristine <==> t.pristine && !Answers(t, Posts(t, Hello(lane)))
  {
    assert Acks(t.(lane := Some(lane))) == Posts(t, Hello(lane));
  }

  lemma {:induction false} OwnPristine(t: Tab, e: Event)
    requires Sound(t) && Own(e)
    ensures Happen(t, e).pristine <==> t.pristine && Display(t, e) == []
    ensures forall m :: m in Posts(t, e) ==> !m.Attached?
  {
    match e
    case Patch(route, only, data) => if t.trunk.Some? { OwnFrame(t, route, only, data); }
    case DevEvent(name, data) => if t.trunk.Some? { OwnWord(t, Dev(t.epoch, name, data)); }
    case Beat => if t.active { OwnWord(t, Heartbeat(t.epoch)); }
    case CensusStart =>
      if t.active && Ghosts(t) != map[] {
        OwnWord(t.(census := Some(Round(t.rounds, Ghosts(t))), rounds := t.rounds + 1), Census(t.epoch));
      }
    case PageHide => if t.route.Some? { OwnDetach(t, t.route.value); }
  }

  lemma {:induction false} AskedPristine(t: Tab, e: Event)
    requires Sound(t) && (e.AttachRoute? || e.DevAttach? || e.Ask?)
    ensures Happen(t, e).pristine <==> t.pristine && !Answers(Happen(t, e), Posts(t, e))
  {
    PageIs(t, e);
    hide Publish;
    match e
    case AttachRoute(route) => AnnouncedPristine(t.(route := Some(route)));
    case DevAttach => AnnouncedPristine(t.(dev := true));
    case Ask => AnnouncedPristine(t);
  }

  lemma {:induction false} AnswersAlike(t: Tab, u: Tab, ms: set<Msg>)
    requires u.route == t.route && u.nonce == t.nonce
    ensures Answers(u, ms) == Answers(t, ms)
  {}

  lemma {:induction false} JoinedIs(t: Tab, e: Event, u: Tab)
    requires !e.Deliver? && (e.Patch? || Display(t, e) == [])
    ensures Joined(t, e, u) <==> Display(t, e) != [] || Answers(u, Posts(t, e))
  {
    hide Answers, Display, Posts;
  }

  lemma {:induction false} NoAnswers(t: Tab, ms: set<Msg>)
    requires forall m :: m in ms ==> !m.Attached?
    ensures !Answers(t, ms)
  {}

  lemma {:induction false} DeliverPristine(t: Tab, m: Msg)
    requires Sound(t)
    ensures Happen(t, Deliver(m)).pristine <==> t.pristine && !Joined(t, Deliver(m), Happen(t, Deliver(m)))
  {
    DeliveredIs(t, m);
    hide Receive;
    if Heard(t, m) {
      DeliveredPristine(t, m);
      hide Delivered, Joined;
    } else {
      assert Posts(t, Deliver(m)) == {};
    }
  }

  lemma {:induction false} QuietPristine(t: Tab, e: Event)
    requires e.LockLost? || e.TrunkError? || e.LaneGone? || e.Reopen? || e.CensusEnd? || (e.Hello? && t.trunk.None?)
    ensures Happen(t, e).pristine == t.pristine && Posts(t, e) == {} && Display(t, e) == []
  {
    hide Evicted;
  }

  /** The page stops being as rendered exactly when a frame is shown or its claim is acknowledged. */
  lemma {:induction false} PristineIs(t: Tab, e: Event)
    requires Sound(t)
    ensures Happen(t, e).pristine <==> t.pristine && !Joined(t, e, Happen(t, e))
  {
    var u := Happen(t, e);
    hide *;
    if e.Deliver? {
      DeliverPristine(t, e.msg);
    } else {
      if !e.Patch? {
        OthersShow(t, e);
      }
      JoinedIs(t, e, u);
      if e.AttachRoute? || e.DevAttach? || e.Ask? {
        AskedPristine(t, e);
      } else if e.Accede? {
        AccedePristine(t, e.clock);
      } else if e.Hello? && t.trunk.Some? {
        HelloPristine(t, e.lane);
      } else if e.Patch? || e.DevEvent? || e.Beat? || e.CensusStart? || e.PageHide? {
        OwnIs(e);
        OwnPristine(t, e);
        NoAnswers(u, Posts(t, e));
      } else {
        QuietPristine(t, e);
        NoAnswers(u, Posts(t, e));
      }
    }
  }

  lemma {:induction false} OthersShow(t: Tab, e: Event)
    requires !e.Deliver? && !e.Patch?
    ensures Display(t, e) == []
  {}

  lemma {:induction false} AccedePristine(t: Tab, clock: nat)
    requires Sound(t)
    ensures Happen(t, Accede(clock)).pristine <==>
            t.pristine && !Answers(Happen(t, Accede(clock)), Posts(t, Accede(clock)))
  {
    AccededPage(t, clock);
    AccededPristine(t, clock);
    AnswersAlike(t, Acceded(t, clock), Posts(t, Accede(clock)));
    hide Acceded, Answers, Posts;
  }

  lemma {:induction false} HelloPristine(t: Tab, lane: string)
    requires Sound(t) && t.trunk.Some?
    ensures Happen(t, Hello(lane)).pristine <==> t.pristine && !Answers(Happen(t, Hello(lane)), Posts(t, Hello(lane)))
  {
    FlushedPristine(t, lane);
    FlushedPage(t.(lane := Some(lane)));
    AnswersAlike(t, Happen(t, Hello(lane)), Posts(t, Hello(lane)));
    hide Flushed, Answers, Posts;
  }
}
