/** The lane: one tab's state, and what each message and event does to it. */
module Phosphor {
  import opened Prelude

  type Id = string
  type Route = string

  datatype Msg =
    | Attach(tabId: Id, claim: Option<Route>, nonce: Id, pristine: bool, dev: bool)
    | Detach(tabId: Id, route: Route)
    | Owner(epoch: nat)
    | Census(epoch: nat)
    | Attached(epoch: nat, route: Route, nonce: Id)
    | Frame(epoch: nat, route: Route, only: Option<Id>, data: string)
    | Dev(epoch: nat, name: string, data: string)
    | Heartbeat(epoch: nat)

  predicate Stamped(m: Msg) { !m.Attach? && !m.Detach? }

  datatype Claim = Claim(nonce: Id, pristine: bool)

  type Claims = map<Route, map<Id, Claim>>

  /** One round of the census: the claims not yet made again. */
  datatype Round = Round(number: nat, ghosts: map<Route, set<Id>>)

  /** `shown` lists the frames applied and `outbox` holds what was posted to the channel. `trunk` is
      the open source, with its dev flag. */
  datatype Tab = Tab(
    id: Id, route: Option<Route>, nonce: Id, pristine: bool, dev: bool,
    maxEpoch: nat, shown: seq<string>,
    active: bool, epoch: nat, claims: Claims, devWanted: bool,
    trunk: Option<bool>, lane: Option<string>, census: Option<Round>, rounds: nat,
    outbox: set<Msg>)

  // ---- Messages --------------------------------------------------------------------------

  function Rank(m: Msg): nat {
    match m
    case Owner(_) => 2
    case Census(_) => 2
    case Attach(_, _, _, _, _) => 1
    case _ => 0
  }

  function Demoted(t: Tab): Tab { t.(active := false, trunk := None, lane := None, census := None) }

  /** An equal or newer epoch is taken as seen; an owner that meets a newer one steps down. */
  function Fenced(t: Tab, e: nat): Tab {
    var u := t.(maxEpoch := e);
    if t.active && e > t.epoch then Demoted(u) else u
  }

  function Receive(t: Tab, m: Msg): Tab
    decreases Rank(m), 0
  {
    if Stamped(m) && m.epoch < t.maxEpoch then t
    else
      var u := if Stamped(m) then Fenced(t, m.epoch) else t;
      match m
      case Attach(_, _, _, _, _) => if u.active then OwnerOnAttach(u, m) else u
      case Detach(tabId, route) => if u.active then OwnerOnDetach(u, tabId, route) else u
      case Owner(_) => Reattach(u, m)
      case Census(_) => Reattach(u, m)
      case Attached(_, route, nonce) => if u.route == Some(route) && u.nonce == nonce then u.(pristine := false) else u
      case Frame(_, route, only, data) => OnFrame(u, route, only, data)
      case Dev(_, _, _) => u
      case Heartbeat(_) => u
  }

  function OnFrame(t: Tab, route: Route, only: Option<Id>, data: string): Tab {
    if t.route != Some(route) || (only.Some? && only.value != t.nonce) then t
    else t.(pristine := false, shown := t.shown + [data])
  }

  /** The owner is a tab too: deliver here first, then post. */
  function Publish(t: Tab, m: Msg): Tab
    decreases Rank(m), 1
  {
    var u := Receive(t, m);
    u.(outbox := u.outbox + {m})
  }

  function AttachOf(t: Tab): Msg { Attach(t.id, t.route, t.nonce, t.pristine, t.dev) }

  function Reattach(t: Tab, why: Msg): Tab
    requires why.Owner? || why.Census?
    decreases Rank(why), 0, 0
  {
    if (t.route.None? && !t.dev) || t.active then t else Publish(t, AttachOf(t))
  }

  function ClaimMade(t: Tab, route: Route, tabId: Id, claim: Claim): Tab {
    var tabs := if route in t.claims then t.claims[route] else map[];
    var u := t.(claims := t.claims[route := tabs[tabId := claim]]);
    if u.census.None? || route !in u.census.value.ghosts then u
    else
      var ghosts := u.census.value.ghosts;
      u.(census := Some(u.census.value.(ghosts := ghosts[route := ghosts[route] - {tabId}])))
  }

  /** Open the trunk if there is none; reopen it when dev events are wanted and it lacks them. */
  function TrunkEnsured(t: Tab): Tab {
    if t.trunk.None? then TrunkOpened(t)
    else if t.devWanted && t.trunk == Some(false) then TrunkOpened(t.(trunk := None, lane := None))
    else t
  }

  function TrunkOpened(t: Tab): Tab { if t.active then t.(trunk := Some(t.devWanted)) else t }

  function OwnerOnAttach(t: Tab, m: Msg): Tab
    requires m.Attach?
    decreases 1, 0, 0
  {
    var u := if m.dev then t.(devWanted := true) else t;
    var v := if m.claim.Some? then ClaimMade(u, m.claim.value, m.tabId, Claim(m.nonce, m.pristine)) else u;
    var w := TrunkEnsured(v);
    if m.claim.Some? && w.lane.Some? then Publish(w, Attached(w.epoch, m.claim.value, m.nonce)) else w
  }

  function OwnerOnDetach(t: Tab, tabId: Id, route: Route): Tab {
    if route !in t.claims then t
    else
      var tabs := t.claims[route] - {tabId};
      t.(claims := if tabs == map[] then t.claims - {route} else t.claims[route := tabs])
  }

  // ---- Events ------------------------------------------------------------------------------

  datatype Event =
    | AttachRoute(route: Route)
    | DevAttach
    | Ask
    | Accede(clock: nat)
    | LockLost
    | Deliver(msg: Msg)
    | Hello(lane: string)
    | Patch(route: Route, only: Option<Id>, data: string)
    | DevEvent(name: string, data: string)
    | TrunkError
    | LaneGone
    | Reopen
    | Beat
    | CensusStart
    | CensusEnd(number: nat)
    | PageHide

  function MintEpoch(clock: nat, seen: nat): nat { if clock > seen + 1 then clock else seen + 1 }

  function Acceded(t: Tab, clock: nat): Tab {
    var e := MintEpoch(clock, t.maxEpoch);
    var u := Publish(t.(active := true, epoch := e, claims := map[]), Owner(e));
    if u.route.Some? || u.dev then OwnerOnAttach(u, AttachOf(u)) else u
  }

  /** One acknowledgement per claim. */
  function Acks(t: Tab): set<Msg> {
    set r, i | r in t.claims && i in t.claims[r] :: Attached(t.epoch, r, t.claims[r][i].nonce)
  }

  /** The owner's own claim is acknowledged among the others. */
  function Flushed(t: Tab): Tab {
    t.(outbox := t.outbox + Acks(t),
       pristine := t.pristine && !(t.route.Some? && Attached(t.epoch, t.route.value, t.nonce) in Acks(t)))
  }

  /** Everyone's claims but the owner's own. */
  function Ghosts(t: Tab): map<Route, set<Id>> {
    map r | r in t.claims && t.claims[r].Keys - {t.id} != {} :: t.claims[r].Keys - {t.id}
  }

  function CensusBegun(t: Tab): Tab {
    if Ghosts(t) == map[] then t
    else Publish(t.(census := Some(Round(t.rounds, Ghosts(t))), rounds := t.rounds + 1), Census(t.epoch))
  }

  /** Every claim in `gone` is dropped, and every route left without one. */
  function Evicted(claims: Claims, gone: map<Route, set<Id>>): Claims {
    var left := map r | r in claims :: if r in gone then claims[r] - gone[r] else claims[r];
    map r | r in left && left[r] != map[] :: left[r]
  }

  function Happen(t: Tab, e: Event): Tab {
    match e
    case AttachRoute(route) => var u := t.(route := Some(route)); Publish(u, AttachOf(u))
    case DevAttach => var u := t.(dev := true); Publish(u, AttachOf(u))
    case Ask => if t.active then t else Publish(t, AttachOf(t))
    case Accede(clock) => Acceded(t, clock)
    case LockLost => if t.active then Demoted(t) else t
    case Deliver(msg) => Receive(t, msg)
    case Hello(lane) => if t.trunk.Some? then Flushed(t.(lane := Some(lane))) else t
    case Patch(route, only, data) => if t.trunk.Some? then Publish(t, Frame(t.epoch, route, only, data)) else t
    case DevEvent(name, data) => if t.trunk.Some? then Publish(t, Dev(t.epoch, name, data)) else t
    case TrunkError => t.(trunk := None, lane := None)
    case LaneGone => TrunkOpened(t.(trunk := None, lane := None))
    case Reopen => TrunkOpened(t)
    case Beat => if t.active then Publish(t, Heartbeat(t.epoch)) else t
    case CensusStart => if t.active then CensusBegun(t) else t
    case CensusEnd(number) =>
      if t.active && t.census.Some? && t.census.value.number == number
      then t.(claims := Evicted(t.claims, t.census.value.ghosts), census := None) else t
    case PageHide =>
      var u := if t.route.Some? then Publish(t, Detach(t.id, t.route.value)) else t;
      if u.active then Demoted(u) else u
  }

  // ---- What every event keeps -------------------------------------------------------------------

  /** An active owner's epoch is the newest its tab has seen; only an owner has a trunk, a lane or a
      census; a claimed route has a claim; the owner never counts its own claim as a ghost. */
  ghost predicate Sound(t: Tab) {
    && t.epoch <= t.maxEpoch && (t.active ==> t.epoch == t.maxEpoch)
    && (t.trunk.Some? ==> t.active) && (t.lane.Some? ==> t.trunk.Some?)
    && (t.census.Some? ==> t.active && t.census.value.number < t.rounds)
    && (forall r :: r in t.claims ==> t.claims[r] != map[])
    && (t.census.Some? ==> forall r :: r in t.census.value.ghosts ==> t.id !in t.census.value.ghosts[r])
  }

  /** What a step may do to the rest: epochs only grow, and what it posts carries the newest. */
  ghost predicate Steps(t: Tab, u: Tab) {
    && u.id == t.id && u.maxEpoch >= t.maxEpoch
    && (forall m :: m in u.outbox ==> m in t.outbox || (Stamped(m) ==> m.epoch == u.maxEpoch))
  }

  lemma {:induction false} ReceiveSound(t: Tab, m: Msg)
    requires Sound(t)
    ensures Sound(Receive(t, m)) && Steps(t, Receive(t, m))
    ensures Stamped(m) ==> Receive(t, m).maxEpoch == if m.epoch > t.maxEpoch then m.epoch else t.maxEpoch
    ensures !Stamped(m) ==> Receive(t, m).maxEpoch == t.maxEpoch
    decreases Rank(m), 0
  {
    if Stamped(m) && m.epoch < t.maxEpoch {
    } else {
      var u := if Stamped(m) then Fenced(t, m.epoch) else t;
      FencedSound(t, m);
      SoundParts(u);
      hide Sound;
      match m
      case Attach(_, _, _, _, _) => if u.active { AttachSound(u, m); }
      case Owner(_) => ReattachSound(u, m);
      case Census(_) => ReattachSound(u, m);
      case _ =>
    }
  }

  lemma {:induction false} FencedSound(t: Tab, m: Msg)
    requires Sound(t) && (Stamped(m) ==> m.epoch >= t.maxEpoch)
    ensures var u := if Stamped(m) then Fenced(t, m.epoch) else t;
            Sound(u) && u.id == t.id && u.outbox == t.outbox && u.maxEpoch >= t.maxEpoch
  {}

  /** Freshness, the frames shown, and a detached claim do not matter to soundness. */
  lemma {:induction false} SoundParts(t: Tab)
    requires Sound(t)
    ensures forall p, s :: Sound(t.(pristine := p, shown := s))
    ensures forall i, r :: t.active ==> Sound(OwnerOnDetach(t, i, r))
  {}

  lemma {:induction false} PublishSound(t: Tab, m: Msg)
    requires Sound(t) && (Stamped(m) ==> m.epoch == t.maxEpoch)
    ensures Sound(Publish(t, m)) && Steps(t, Publish(t, m)) && Publish(t, m).maxEpoch == t.maxEpoch
    decreases Rank(m), 1
  {
    ReceiveSound(t, m);
  }

  lemma {:induction false} ReattachSound(t: Tab, why: Msg)
    requires Sound(t) && (why.Owner? || why.Census?)
    ensures Sound(Reattach(t, why)) && Steps(t, Reattach(t, why)) && Reattach(t, why).maxEpoch == t.maxEpoch
    decreases Rank(why), 0, 0
  {
    PublishSound(t, AttachOf(t));
  }

  lemma {:induction false} AttachSound(t: Tab, m: Msg)
    requires Sound(t) && t.active && m.Attach?
    ensures Sound(OwnerOnAttach(t, m)) && Steps(t, OwnerOnAttach(t, m)) && OwnerOnAttach(t, m).maxEpoch == t.maxEpoch
    decreases 1, 0, 0
  {
    var u := if m.dev then t.(devWanted := true) else t;
    var v := if m.claim.Some? then ClaimMade(u, m.claim.value, m.tabId, Claim(m.nonce, m.pristine)) else u;
    if m.claim.Some? {
      ClaimSound(u, m.claim.value, m.tabId, Claim(m.nonce, m.pristine));
    }
    hide Sound;
    assert Sound(v) && v.active;
    EnsuredSound(v);
    var w := TrunkEnsured(v);
    SoundEpoch(w);
    if m.claim.Some? && w.lane.Some? {
      PublishSound(w, Attached(w.epoch, m.claim.value, m.nonce));
    }
  }

  lemma {:induction false} SoundEpoch(t: Tab)
    requires Sound(t)
    ensures t.active ==> t.epoch == t.maxEpoch
  {}

  lemma {:induction false} ClaimSound(t: Tab, route: Route, tabId: Id, claim: Claim)
    requires Sound(t)
    ensures var v := ClaimMade(t, route, tabId, claim);
            Sound(v) && v.id == t.id && v.maxEpoch == t.maxEpoch && v.outbox == t.outbox && v.active == t.active
  {
    assert tabId in ClaimMade(t, route, tabId, claim).claims[route];
  }

  lemma {:induction false} EnsuredSound(t: Tab)
    requires Sound(t) && t.active
    ensures var v := TrunkEnsured(t);
            Sound(v) && v.id == t.id && v.maxEpoch == t.maxEpoch && v.outbox == t.outbox && v.active
  {}

  /** An accession mints an epoch above everything its tab has seen. */
  lemma {:induction false} AccedeSound(t: Tab, clock: nat)
    requires Sound(t)
    ensures var u := Acceded(t, clock);
            && Sound(u) && Steps(t, u) && u.active && u.maxEpoch == u.epoch == MintEpoch(clock, t.maxEpoch) > t.maxEpoch
            && Owner(u.epoch) in u.outbox
  {
    var e := MintEpoch(clock, t.maxEpoch);
    var t0 := t.(active := true, epoch := e, claims := map[]);
    var u := Publish(t0, Owner(e));
    assert Receive(t0, Owner(e)) == Reattach(Fenced(t0, e), Owner(e)) == t0.(maxEpoch := e);
    assert u == t0.(maxEpoch := e, outbox := t.outbox + {Owner(e)});
    assert Sound(u) && Steps(t, u);
    AttachSound(u, AttachOf(u));
    AttachKeeps(u, AttachOf(u));
  }

  lemma {:induction false} AttachKeeps(t: Tab, m: Msg)
    requires t.active && t.epoch == t.maxEpoch && m.Attach?
    ensures OwnerOnAttach(t, m).active && OwnerOnAttach(t, m).epoch == t.epoch && t.outbox <= OwnerOnAttach(t, m).outbox
  {
    var u := if m.dev then t.(devWanted := true) else t;
    var v := if m.claim.Some? then ClaimMade(u, m.claim.value, m.tabId, Claim(m.nonce, m.pristine)) else u;
    var w := TrunkEnsured(v);
    assert w.active && w.epoch == t.epoch && w.outbox == t.outbox && w.maxEpoch == t.maxEpoch;
    hide ClaimMade, TrunkEnsured;
    if m.claim.Some? && w.lane.Some? {
      var ack := Attached(w.epoch, m.claim.value, m.nonce);
      assert Fenced(w, w.epoch) == w;
      assert Publish(w, ack).outbox == Receive(w, ack).outbox + {ack};
    }
  }

  lemma {:induction false} CensusSound(t: Tab)
    requires Sound(t) && t.active
    ensures Sound(CensusBegun(t)) && Steps(t, CensusBegun(t)) && CensusBegun(t).maxEpoch == t.maxEpoch
  {
    if Ghosts(t) != map[] {
      PublishSound(t.(census := Some(Round(t.rounds, Ghosts(t))), rounds := t.rounds + 1), Census(t.epoch));
    }
  }

  predicate Quiet(e: Event) { !e.Accede? && !(e.Deliver? && Stamped(e.msg)) }

  /** Every event keeps a tab sound, never lowers the epochs it has seen, and posts only messages that
      carry the newest of them. Only an accession or a message brings a newer epoch. */
  lemma {:induction false} HappenSound(t: Tab, e: Event)
    requires Sound(t)
    ensures Sound(Happen(t, e)) && Steps(t, Happen(t, e))
    ensures Quiet(e) ==> Happen(t, e).maxEpoch == t.maxEpoch
  {
    match e
    case AttachRoute(route) => var u := t.(route := Some(route)); PublishSound(u, AttachOf(u));
    case DevAttach => var u := t.(dev := true); PublishSound(u, AttachOf(u));
    case Ask => PublishSound(t, AttachOf(t));
    case Accede(clock) => AccedeSound(t, clock);
    case Deliver(msg) => ReceiveSound(t, msg);
    case Patch(route, only, data) => if t.trunk.Some? { PublishSound(t, Frame(t.epoch, route, only, data)); }
    case DevEvent(name, data) => if t.trunk.Some? { PublishSound(t, Dev(t.epoch, name, data)); }
    case Beat => if t.active { PublishSound(t, Heartbeat(t.epoch)); }
    case CensusStart => if t.active { CensusSound(t); }
    case PageHide => if t.route.Some? { PublishSound(t, Detach(t.id, t.route.value)); }
    case _ => SilentSound(t, e);
  }

  /** Events that send nothing but acknowledgements. */
  lemma {:induction false} SilentSound(t: Tab, e: Event)
    requires Sound(t) && (e.LockLost? || e.Hello? || e.TrunkError? || e.LaneGone? || e.Reopen? || e.CensusEnd?)
    ensures Sound(Happen(t, e)) && Steps(t, Happen(t, e)) && Happen(t, e).maxEpoch == t.maxEpoch
  {}

  // ---- Fencing over a tab's life -------------------------------------------------------------------

  predicate Accepts(t: Tab, m: Msg) { Stamped(m) && m.epoch >= t.maxEpoch }

  /** The epochs a tab acts on as events happen to it. */
  function ActedOn(t: Tab, events: seq<Event>): seq<nat>
    decreases events
  {
    if events == [] then []
    else (if events[0].Deliver? && Accepts(t, events[0].msg) then [events[0].msg.epoch] else [])
         + ActedOn(Happen(t, events[0]), events[1..])
  }

  predicate Ascending(s: seq<nat>, least: nat) {
    s != [] ==> s[0] >= least && Ascending(s[1..], s[0])
  }

  lemma {:induction false} AscendingFrom(s: seq<nat>, more: nat, less: nat)
    requires Ascending(s, more) && less <= more
    ensures Ascending(s, less)
  {}

  lemma {:induction false} EpochsAscend(t: Tab, events: seq<Event>)
    requires Sound(t)
    ensures Ascending(ActedOn(t, events), t.maxEpoch)
    decreases events
  {
    if events != [] {
      var e, u := events[0], Happen(t, events[0]);
      HappenSound(t, e);
      EpochsAscend(u, events[1..]);
      if e.Deliver? && Accepts(t, e.msg) {
        ReceiveSound(t, e.msg);
        var rest := ActedOn(u, events[1..]);
        assert ([e.msg.epoch] + rest)[1..] == rest;
      } else {
        AscendingFrom(ActedOn(u, events[1..]), u.maxEpoch, t.maxEpoch);
        assert ActedOn(t, events) == ActedOn(u, events[1..]);
      }
    }
  }

  /** A frame is shown only when delivered with an epoch no older than the newest seen. */
  lemma {:induction false} StaleIgnored(t: Tab, m: Msg)
    requires Stamped(m) && !Accepts(t, m)
    ensures Receive(t, m) == t
  {}
}
