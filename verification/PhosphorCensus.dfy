/** The census: which claims it evicts. */
module PhosphorCensus {
  import opened Prelude
  import opened Phosphor

  predicate Claimed(claims: Claims, r: Route, i: Id) { r in claims && i in claims[r] }

  function GhostAt(t: Tab, r: Route): set<Id> {
    if t.census.Some? && r in t.census.value.ghosts then t.census.value.ghosts[r] else {}
  }

  /** The claim a message makes. */
  function Named(m: Msg, r: Route): set<Id> { if m.Attach? && m.claim == Some(r) then {m.tabId} else {} }

  /** From `t` to `u` a running round at most loses the ghosts in `named`, and no other round appears. */
  ghost predicate Narrows(t: Tab, u: Tab, m: Msg) {
    && u.rounds == t.rounds && u.id == t.id
    && (u.census.Some? ==> t.census.Some? && u.census.value.number == t.census.value.number
                           && forall r :: GhostAt(u, r) == GhostAt(t, r) - Named(m, r))
  }

  lemma {:induction false} ReceiveNarrows(t: Tab, m: Msg)
    requires Sound(t)
    ensures Narrows(t, Receive(t, m), m)
    decreases Rank(m), 0
  {
    if !(Stamped(m) && m.epoch < t.maxEpoch) {
      var u := if Stamped(m) then Fenced(t, m.epoch) else t;
      FencedSound(t, m);
      assert m.Detach? ==> Narrows(u, OwnerOnDetach(u, m.tabId, m.route), m);
      hide Sound, ClaimMade, TrunkEnsured;
      match m
      case Attach(_, _, _, _, _) => if u.active { AttachNarrows(u, m); }
      case Owner(_) => ReattachNarrows(u, m);
      case Census(_) => ReattachNarrows(u, m);
      case _ =>
    }
  }

  lemma {:induction false} ReattachNarrows(t: Tab, why: Msg)
    requires Sound(t) && (why.Owner? || why.Census?)
    ensures Narrows(t, Reattach(t, why), why)
    decreases Rank(why), 0, 0
  {
    if !((t.route.None? && !t.dev) || t.active) {
      PublishNarrows(t, AttachOf(t));
    }
  }

  lemma {:induction false} PublishNarrows(t: Tab, m: Msg)
    requires Sound(t)
    ensures Narrows(t, Publish(t, m), m)
    decreases Rank(m), 1
  {
    ReceiveNarrows(t, m);
    var u := Receive(t, m);
    assert forall r :: GhostAt(u.(outbox := u.outbox + {m}), r) == GhostAt(u, r);
  }

  function Enrolled(t: Tab, m: Msg): Tab
    requires m.Attach?
  {
    var u := if m.dev then t.(devWanted := true) else t;
    TrunkEnsured(if m.claim.Some? then ClaimMade(u, m.claim.value, m.tabId, Claim(m.nonce, m.pristine)) else u)
  }

  lemma {:induction false} ClaimNarrows(t: Tab, m: Msg)
    requires m.Attach? && m.claim.Some?
    ensures Narrows(t, ClaimMade(t, m.claim.value, m.tabId, Claim(m.nonce, m.pristine)), m)
  {}

  lemma {:induction false} NarrowsFrame(t: Tab, v: Tab, w: Tab, m: Msg)
    requires Narrows(t, v, m) && w.census == v.census && w.rounds == v.rounds && w.id == v.id
    ensures Narrows(t, w, m)
  {}

  lemma {:induction false} NarrowsSame(t: Tab, w: Tab, m: Msg)
    requires w.census == t.census && w.rounds == t.rounds && w.id == t.id && (forall r :: Named(m, r) == {})
    ensures Narrows(t, w, m)
  {}

  lemma {:induction false} EnrolledNarrows(t: Tab, m: Msg)
    requires Sound(t) && t.active && m.Attach?
    ensures Sound(Enrolled(t, m)) && Narrows(t, Enrolled(t, m), m)
  {
    var u := if m.dev then t.(devWanted := true) else t;
    assert Sound(u);
    if m.claim.Some? {
      var v := ClaimMade(u, m.claim.value, m.tabId, Claim(m.nonce, m.pristine));
      ClaimSound(u, m.claim.value, m.tabId, Claim(m.nonce, m.pristine));
      hide Sound, ClaimMade, Narrows, GhostAt;
      EnsuredSound(v);
      ClaimNarrows(t, m);
      ClaimOfDev(t, u, m.claim.value, m.tabId, Claim(m.nonce, m.pristine));
      NarrowsFrame(t, ClaimMade(t, m.claim.value, m.tabId, Claim(m.nonce, m.pristine)), TrunkEnsured(v), m);
    } else {
      hide Sound, ClaimMade, Narrows, GhostAt;
      EnsuredSound(u);
      NarrowsSame(t, TrunkEnsured(u), m);
    }
  }

  lemma {:induction false} ClaimOfDev(t: Tab, u: Tab, route: Route, tabId: Id, claim: Claim)
    requires u == t || u == t.(devWanted := true)
    ensures ClaimMade(u, route, tabId, claim).census == ClaimMade(t, route, tabId, claim).census
    ensures ClaimMade(u, route, tabId, claim).rounds == t.rounds && ClaimMade(u, route, tabId, claim).id == t.id
    ensures ClaimMade(t, route, tabId, claim).rounds == t.rounds && ClaimMade(t, route, tabId, claim).id == t.id
  {}

  lemma {:induction false} AttachNarrows(t: Tab, m: Msg)
    requires Sound(t) && t.active && m.Attach?
    ensures Narrows(t, OwnerOnAttach(t, m), m)
    decreases 1, 0, 0
  {
    EnrolledNarrows(t, m);
    var w := Enrolled(t, m);
    assert OwnerOnAttach(t, m) == if m.claim.Some? && w.lane.Some? then
      Publish(w, Attached(w.epoch, m.claim.value, m.nonce)) else w;
    hide Sound, ClaimMade, TrunkEnsured, Publish, OwnerOnAttach, Enrolled, GhostAt;
    if m.claim.Some? && w.lane.Some? {
      PublishNarrows(w, Attached(w.epoch, m.claim.value, m.nonce));
    }
  }

  predicate Reclaims(e: Event, r: Route, i: Id) {
    e.Deliver? && e.msg.Attach? && e.msg.claim == Some(r) && e.msg.tabId == i
  }

  /** Two rounds never share a number, and while one runs only a claim made again takes a ghost out. */
  ghost predicate Remains(t: Tab, u: Tab, e: Event, n: nat) {
    && u.id == t.id && u.rounds >= t.rounds
    && (u.census.Some? && u.census.value.number == n ==>
          t.census.Some? && t.census.value.number == n
          && forall r, i :: i != t.id ==> (i in GhostAt(u, r) <==> i in GhostAt(t, r) && !Reclaims(e, r, i)))
  }

  lemma {:induction false} EventRemains(t: Tab, e: Event, n: nat)
    requires Sound(t) && n < t.rounds
    ensures Remains(t, Happen(t, e), e, n)
  {
    match e
    case AttachRoute(route) => var u := t.(route := Some(route)); PublishNarrows(u, AttachOf(u));
    case DevAttach => var u := t.(dev := true); PublishNarrows(u, AttachOf(u));
    case Ask => PublishNarrows(t, AttachOf(t));
    case Accede(clock) => AccedeRemains(t, clock, n);
    case Deliver(msg) => ReceiveNarrows(t, msg);
    case Patch(route, only, data) => PublishNarrows(t, Frame(t.epoch, route, only, data));
    case DevEvent(name, data) => PublishNarrows(t, Dev(t.epoch, name, data));
    case Beat => PublishNarrows(t, Heartbeat(t.epoch));
    case CensusStart =>
      if t.active && Ghosts(t) != map[] {
        PublishNarrows(t.(census := Some(Round(t.rounds, Ghosts(t))), rounds := t.rounds + 1), Census(t.epoch));
      }
    case PageHide => if t.route.Some? { PublishNarrows(t, Detach(t.id, t.route.value)); }
    case _ =>
  }

  lemma {:induction false} AccedeRemains(t: Tab, clock: nat, n: nat)
    requires Sound(t) && n < t.rounds
    ensures Remains(t, Happen(t, Accede(clock)), Accede(clock), n)
  {
    var e := MintEpoch(clock, t.maxEpoch);
    var t0 := t.(active := true, epoch := e, claims := map[]);
    var u := Publish(t0, Owner(e));
    assert Receive(t0, Owner(e)) == Reattach(Fenced(t0, e), Owner(e)) == t0.(maxEpoch := e);
    assert Sound(u);
    AttachNarrows(u, AttachOf(u));
  }

  function Run(t: Tab, events: seq<Event>): Tab
    decreases events
  {
    if events == [] then t else Run(Happen(t, events[0]), events[1..])
  }

  predicate Reclaimed(events: seq<Event>, r: Route, i: Id) { exists e :: e in events && Reclaims(e, r, i) }

  lemma {:induction false} RunRemains(t: Tab, events: seq<Event>, n: nat, r: Route, i: Id)
    requires Sound(t) && n < t.rounds && i != t.id
    ensures var u := Run(t, events);
            && Sound(u) && u.id == t.id
            && (u.census.Some? && u.census.value.number == n ==>
                  t.census.Some? && t.census.value.number == n
                  && (i in GhostAt(u, r) <==> i in GhostAt(t, r) && !Reclaimed(events, r, i)))
    decreases events
  {
    if events != [] {
      HappenSound(t, events[0]);
      EventRemains(t, events[0], n);
      RunRemains(Happen(t, events[0]), events[1..], n, r, i);
      assert Reclaimed(events, r, i) <==> Reclaims(events[0], r, i) || Reclaimed(events[1..], r, i);
    }
  }

  /** A census that runs to its end evicts exactly the claims of other tabs that stood when it began
      and were not made again since; nothing else is lost. */
  lemma {:induction false} CensusEvicts(t: Tab, events: seq<Event>, r: Route, i: Id)
    requires Sound(t) && t.active && Ghosts(t) != map[]
    requires var u := Run(Happen(t, CensusStart), events); u.census.Some? && u.census.value.number == t.rounds
    ensures var u := Run(Happen(t, CensusStart), events);
            Claimed(Happen(u, CensusEnd(t.rounds)).claims, r, i)
            <==> Claimed(u.claims, r, i) && !(Claimed(t.claims, r, i) && i != t.id && !Reclaimed(events, r, i))
  {
    var begun := Happen(t, CensusStart);
    HappenSound(t, CensusStart);
    var asked := t.(census := Some(Round(t.rounds, Ghosts(t))), rounds := t.rounds + 1);
    PublishNarrows(asked, Census(t.epoch));
    assert begun.rounds == t.rounds + 1;
    var u := Run(begun, events);
    RunSound(begun, events);
    if i != t.id {
      RunRemains(begun, events, t.rounds, r, i);
      assert i in GhostAt(asked, r) <==> Claimed(t.claims, r, i);
    } else {
      assert i !in GhostAt(u, r);
    }
    EvictedIff(u, r, i);
  }

  lemma {:induction false} RunSound(t: Tab, events: seq<Event>)
    requires Sound(t)
    ensures Sound(Run(t, events)) && Run(t, events).id == t.id
    decreases events
  {
    if events != [] {
      HappenSound(t, events[0]);
      RunSound(Happen(t, events[0]), events[1..]);
    }
  }

  lemma {:induction false} EvictedIff(t: Tab, r: Route, i: Id)
    requires Sound(t) && t.census.Some?
    ensures Claimed(Happen(t, CensusEnd(t.census.value.number)).claims, r, i) <==>
            Claimed(t.claims, r, i) && i !in GhostAt(t, r)
  {
    var gone := t.census.value.ghosts;
    var left := map r | r in t.claims :: if r in gone then t.claims[r] - gone[r] else t.claims[r];
    if Claimed(t.claims, r, i) && i !in GhostAt(t, r) {
      assert r in left && i in left[r];
    }
  }
}
