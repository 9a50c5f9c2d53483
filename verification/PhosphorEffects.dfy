/** What an event does to a tab, seen from outside: what reaches the page, what is posted, which
    claims stand and which trunk is open. Local delivery nests one handler in another; these laws
    say what is left once all of them have run. */
module PhosphorEffects {
  import opened Prelude
  import opened Phosphor
  import opened PhosphorCensus
  import PhosphorRuns

  // ---- The nested handlers, unfolded ------------------------------------------------------------

  /** An owner that acknowledges a claim hears it too. */
  function Acknowledged(t: Tab, route: Route, nonce: Id): Tab {
    t.(pristine := t.pristine && !(t.route == Some(route) && t.nonce == nonce),
       outbox := t.outbox + {Attached(t.epoch, route, nonce)})
  }

  function Welcomed(t: Tab, m: Msg): Tab
    requires m.Attach?
  {
    var w := Enrolled(t, m);
    if m.claim.Some? && w.lane.Some? then Acknowledged(w, m.claim.value, m.nonce) else w
  }

  /** The fields no handler of a claim touches. */
  predicate Alike(t: Tab, w: Tab) {
    && w.id == t.id && w.route == t.route && w.nonce == t.nonce && w.pristine == t.pristine && w.dev == t.dev
    && w.maxEpoch == t.maxEpoch && w.shown == t.shown && w.active == t.active && w.epoch == t.epoch
    && w.rounds == t.rounds && w.outbox == t.outbox
  }

  lemma {:induction false} ClaimAlike(t: Tab, route: Route, tabId: Id, claim: Claim)
    ensures Alike(t, ClaimMade(t, route, tabId, claim))
  {}

  lemma {:induction false} EnsuredAlike(t: Tab)
    ensures Alike(t, TrunkEnsured(t))
  {}

  lemma {:induction false} EnrolledAlike(t: Tab, m: Msg)
    requires m.Attach?
    ensures Alike(t, Enrolled(t, m))
  {
    var u := if m.dev then t.(devWanted := true) else t;
    hide ClaimMade, TrunkEnsured;
    if m.claim.Some? {
      ClaimAlike(u, m.claim.value, m.tabId, Claim(m.nonce, m.pristine));
      EnsuredAlike(ClaimMade(u, m.claim.value, m.tabId, Claim(m.nonce, m.pristine)));
    } else {
      EnsuredAlike(u);
    }
  }

  lemma {:induction false} AckIs(t: Tab, route: Route, nonce: Id)
    requires t.active && t.epoch == t.maxEpoch
    ensures Publish(t, Attached(t.epoch, route, nonce)) == Acknowledged(t, route, nonce)
  {
    assert Fenced(t, t.epoch) == t;
  }

  lemma {:induction false} WelcomeIs(t: Tab, m: Msg)
    requires t.active && t.epoch == t.maxEpoch && m.Attach?
    ensures OwnerOnAttach(t, m) == Welcomed(t, m)
  {
    var w := Enrolled(t, m);
    EnrolledAlike(t, m);
    assert OwnerOnAttach(t, m) == if m.claim.Some? && w.lane.Some? then
      Publish(w, Attached(w.epoch, m.claim.value, m.nonce)) else w;
    hide Enrolled, Publish, Acknowledged;
    if m.claim.Some? && w.lane.Some? {
      AckIs(w, m.claim.value, m.nonce);
    }
  }

  /** A message a tab sends that asks for a claim. */
  lemma {:induction false} AskIs(t: Tab, m: Msg)
    requires Sound(t) && m.Attach?
    ensures Publish(t, m) == (if t.active then Welcomed(t, m)
            else t).(outbox := (if t.active then Welcomed(t, m) else t).outbox + {m})
  {
    if t.active {
      WelcomeIs(t, m);
    }
  }

  predicate Asking(t: Tab) { !t.active && (t.route.Some? || t.dev) }

  lemma {:induction false} ReattachIs(t: Tab, why: Msg)
    requires why.Owner? || why.Census?
    ensures Reattach(t, why) == if Asking(t) then t.(outbox := t.outbox + {AttachOf(t)}) else t
  {
    assert !t.active ==> Receive(t, AttachOf(t)) == t;
    assert Asking(t) ==> Reattach(t, why) == Publish(t, AttachOf(t));
  }

  /** A tab as a message finds it, once the epoch it carries is taken as seen. */
  function Hearing(t: Tab, m: Msg): Tab { if Stamped(m) then Fenced(t, m.epoch) else t }

  predicate Heard(t: Tab, m: Msg) { Stamped(m) ==> m.epoch >= t.maxEpoch }

  /** A delivered message, unfolded. */
  function Delivered(t: Tab, m: Msg): Tab {
    var u := Hearing(t, m);
    match m
    case Attach(_, _, _, _, _) => if u.active then Welcomed(u, m) else u
    case Detach(tabId, route) => if u.active then OwnerOnDetach(u, tabId, route) else u
    case Owner(_) => if Asking(u) then u.(outbox := u.outbox + {AttachOf(u)}) else u
    case Census(_) => if Asking(u) then u.(outbox := u.outbox + {AttachOf(u)}) else u
    case Attached(_, route, nonce) => if u.route == Some(route) && u.nonce == nonce then u.(pristine := false) else u
    case Frame(_, route, only, data) => OnFrame(u, route, only, data)
    case Dev(_, _, _) => u
    case Heartbeat(_) => u
  }

  lemma {:induction false} DeliveredIs(t: Tab, m: Msg)
    requires Sound(t)
    ensures Receive(t, m) == if Heard(t, m) then Delivered(t, m) else t
  {
    if Heard(t, m) {
      var u := Hearing(t, m);
      match m
      case Attach(_, _, _, _, _) => if u.active { WelcomeIs(u, m); }
      case Owner(_) => ReattachIs(u, m);
      case Census(_) => ReattachIs(u, m);
      case _ =>
    }
  }

  /** What a tab that announces itself does, as an owner or not. */
  function Announcing(t: Tab): Tab {
    var u := if t.active then Welcomed(t, AttachOf(t)) else t;
    u.(outbox := u.outbox + {AttachOf(t)})
  }

  function Elected(t: Tab, e: nat): Tab {
    t.(active := true, epoch := e, maxEpoch := e, claims := map[], outbox := t.outbox + {Owner(e)})
  }

  lemma {:induction false} AccededIs(t: Tab, clock: nat)
    requires Sound(t)
    ensures var u := Elected(t, MintEpoch(clock, t.maxEpoch));
            && Acceded(t, clock) == (if u.route.Some? || u.dev then Welcomed(u, AttachOf(u)) else u)
            && u.active && u.epoch == u.maxEpoch
  {
    var e := MintEpoch(clock, t.maxEpoch);
    var t0 := t.(active := true, epoch := e, claims := map[]);
    assert Receive(t0, Owner(e)) == Reattach(Fenced(t0, e), Owner(e)) == t0.(maxEpoch := e);
    var u := Elected(t, e);
    assert Publish(t0, Owner(e)) == u;
    WelcomeIs(u, AttachOf(u));
  }

  lemma {:induction false} OwnFrame(t: Tab, route: Route, only: Option<Id>, data: string)
    requires t.active && t.epoch == t.maxEpoch
    ensures var u, m := OnFrame(t, route, only, data), Frame(t.epoch, route, only, data);
            Publish(t, m) == u.(outbox := u.outbox + {m})
  {
    assert Fenced(t, t.epoch) == t;
  }

  lemma {:induction false} OwnWord(t: Tab, m: Msg)
    requires t.active && t.epoch == t.maxEpoch && Stamped(m) && m.epoch == t.epoch
    requires m.Dev? || m.Heartbeat? || m.Census?
    ensures Publish(t, m) == t.(outbox := t.outbox + {m})
  {
    assert Fenced(t, t.epoch) == t;
    assert m.Census? ==> Reattach(t, m) == t;
    assert Receive(t, m) == t;
  }

  lemma {:induction false} OwnDetach(t: Tab, route: Route)
    ensures var u, m := if t.active then OwnerOnDetach(t, t.id, route) else t, Detach(t.id, route);
            Publish(t, m) == u.(outbox := u.outbox + {m})
  {}

  // ---- What reaches the page -----------------------------------------------------------------------

  /** A frame for this tab: not stale, of the route it is on, and for every tab there or for it alone. */
  predicate Meant(t: Tab, m: Msg) {
    m.Frame? && m.epoch >= t.maxEpoch && t.route == Some(m.route) && (m.only.None? || m.only.value == t.nonce)
  }

  /** The message that comes to the tab: delivered, or its own as the owner of an open trunk. */
  function Brought(t: Tab, e: Event): Option<Msg> {
    match e
    case Deliver(m) => Some(m)
    case Patch(route, only, data) => if t.trunk.Some? then Some(Frame(t.epoch, route, only, data)) else None
    case _ => None
  }

  function Display(t: Tab, e: Event): seq<string> {
    var m := Brought(t, e);
    if m.Some? && Meant(t, m.value) then [m.value.data] else []
  }

  /** What stays but for the one event that sets it. */
  predicate Placed(t: Tab, e: Event, u: Tab) {
    && u.id == t.id && u.nonce == t.nonce && (u.dev <==> t.dev || e.DevAttach?)
    && u.route == if e.AttachRoute? then Some(e.route) else t.route
  }

  lemma {:induction false} WelcomedPage(t: Tab, m: Msg)
    requires m.Attach?
    ensures var u := Welcomed(t, m);
            u.shown == t.shown && u.id == t.id && u.nonce == t.nonce && u.dev == t.dev && u.route == t.route
  {
    EnrolledAlike(t, m);
    hide Enrolled;
  }

  /** Hearing an epoch may depose an owner and changes nothing else. */
  lemma {:induction false} HearingKeeps(t: Tab, m: Msg)
    ensures var u := Hearing(t, m);
            && u.id == t.id && u.nonce == t.nonce && u.dev == t.dev && u.route == t.route && u.shown == t.shown
            && u.pristine == t.pristine && u.outbox == t.outbox && u.epoch == t.epoch && u.claims == t.claims
            && u.devWanted == t.devWanted && u.rounds == t.rounds
            && u.maxEpoch == (if Stamped(m) then m.epoch else t.maxEpoch)
            && (u.active <==> t.active && !(Stamped(m) && m.epoch > t.epoch))
            && (if t.active && !u.active then u.trunk.None? && u.lane.None? && u.census.None?
                else u.trunk == t.trunk && u.lane == t.lane && u.census == t.census)
  {}

  lemma {:induction false} DeliveredPage(t: Tab, m: Msg)
    requires m.Frame? ==> m.epoch >= t.maxEpoch
    ensures Delivered(t, m).shown == t.shown + (if Meant(t, m) then [m.data] else [])
    ensures Placed(t, Deliver(m), Delivered(t, m))
  {
    var u := Hearing(t, m);
    HearingKeeps(t, m);
    if m.Attach? && u.active {
      WelcomedPage(u, m);
    }
    DetachPage(u, m);
    hide Welcomed, OwnerOnDetach, Hearing;
  }

  lemma {:induction false} DetachPage(t: Tab, m: Msg)
    ensures m.Detach? ==>
              var u := OwnerOnDetach(t, m.tabId, m.route);
              u == t.(claims := u.claims)
  {}

  lemma {:induction false} AnnouncedIs(t: Tab)
    requires Sound(t)
    ensures Publish(t, AttachOf(t)) == Announcing(t)
  {
    AskIs(t, AttachOf(t));
  }

  lemma {:induction false} AnnouncedPage(t: Tab)
    requires Sound(t.(route := None, dev := false))
    ensures var u := Publish(t, AttachOf(t));
            u.shown == t.shown && u.id == t.id && u.nonce == t.nonce && u.dev == t.dev && u.route == t.route
  {
    AnnouncedIs(t);
    WelcomedPage(t, AttachOf(t));
    hide Welcomed;
  }

  lemma {:induction false} AccededPage(t: Tab, clock: nat)
    requires Sound(t)
    ensures var u := Acceded(t, clock);
            u.shown == t.shown && u.id == t.id && u.nonce == t.nonce && u.dev == t.dev && u.route == t.route
  {
    AccededIs(t, clock);
    var u := Elected(t, MintEpoch(clock, t.maxEpoch));
    WelcomedPage(u, AttachOf(u));
    hide Welcomed;
  }

  predicate Own(e: Event) { e.Patch? || e.DevEvent? || e.Beat? || e.CensusStart? || e.PageHide? }

  /** What an owner, or a page that goes away, says of itself. */
  lemma {:induction false} OwnPage(t: Tab, e: Event)
    requires Sound(t) && Own(e)
    ensures Happen(t, e).shown == t.shown + Display(t, e) && Placed(t, e, Happen(t, e))
  {
    match e
    case Patch(route, only, data) => if t.trunk.Some? { OwnFrame(t, route, only, data); }
    case DevEvent(name, data) => if t.trunk.Some? { OwnWord(t, Dev(t.epoch, name, data)); }
    case Beat => if t.active { OwnWord(t, Heartbeat(t.epoch)); }
    case CensusStart =>
      if t.active && Ghosts(t) != map[] {
        OwnWord(t.(census := Some(Round(t.rounds, Ghosts(t))), rounds := t.rounds + 1), Census(t.epoch));
      }
    case PageHide => if t.route.Some? { OwnDetach(t, t.route.value); }
  }

  /** An event shows the page exactly the frame it brings that is meant for it. */
  lemma {:induction false} PageIs(t: Tab, e: Event)
    requires Sound(t)
    ensures Happen(t, e).shown == t.shown + Display(t, e) && Placed(t, e, Happen(t, e))
  {
    hide Welcomed, Delivered, Acceded, Publish, Flushed;
    if Own(e) {
      OwnPage(t, e);
    } else {
      match e
      case AttachRoute(route) => AnnouncedPage(t.(route := Some(route)));
      case DevAttach => AnnouncedPage(t.(dev := true));
      case Ask => AnnouncedPage(t);
      case Accede(clock) => AccededPage(t, clock);
      case Deliver(m) =>
        DeliveredIs(t, m);
        if Heard(t, m) {
          DeliveredPage(t, m);
        }
      case Hello(lane) => FlushedPage(t.(lane := Some(lane)));
      case _ =>
    }
  }

  lemma {:induction false} FlushedPage(t: Tab)
    ensures var u := Flushed(t);
            u.shown == t.shown && u.id == t.id && u.nonce == t.nonce && u.dev == t.dev && u.route == t.route
  {}

  /** The frames meant for the tab, each at the moment it comes. */
  function Displays(t: Tab, events: seq<Event>): seq<string>
    decreases events
  {
    if events == [] then [] else Display(t, events[0]) + Displays(Happen(t, events[0]), events[1..])
  }

  /** Over any events the page is shown exactly the frames meant for it, in the order they come. */
  lemma {:induction false} RunShows(t: Tab, events: seq<Event>)
    requires Sound(t)
    ensures Run(t, events).shown == t.shown + Displays(t, events)
    decreases events
  {
    if events != [] {
      HappenSound(t, events[0]);
      PageIs(t, events[0]);
      RunShows(Happen(t, events[0]), events[1..]);
    }
  }

  // ---- What is posted ------------------------------------------------------------------------------

  /** The lane survives unless a dev tab is the first to ask over a trunk without dev events. */
  predicate LaneStays(t: Tab, dev: bool) { t.lane.Some? && !((t.devWanted || dev) && t.trunk == Some(false)) }

  /** An owner with a lane acknowledges a claim at once. */
  function Ack(t: Tab, dev: bool, epoch: nat, claim: Option<Route>, nonce: Id): set<Msg> {
    if claim.Some? && LaneStays(t, dev) then {Attached(epoch, claim.value, nonce)} else {}
  }

  function OwnAck(t: Tab, dev: bool, claim: Option<Route>): set<Msg> {
    if t.active then Ack(t, dev, t.epoch, claim, t.nonce) else {}
  }

  /** Whether a message takes the tab's ownership away. */
  predicate Deposes(t: Tab, m: Msg) { Stamped(m) && m.epoch > t.epoch && m.epoch >= t.maxEpoch }

  /** A tab claims again for an owner it takes as the newest, unless it stays the owner itself. */
  predicate ClaimsAgain(t: Tab, m: Msg) {
    && (m.Owner? || m.Census?) && m.epoch >= t.maxEpoch
    && (t.route.Some? || t.dev) && (t.active ==> Deposes(t, m))
  }

  ghost function Posts(t: Tab, e: Event): set<Msg> {
    match e
    case AttachRoute(route) =>
      {Attach(t.id, Some(route), t.nonce, t.pristine, t.dev)} + OwnAck(t, t.dev, Some(route))
    case DevAttach => {Attach(t.id, t.route, t.nonce, t.pristine, true)} + OwnAck(t, true, t.route)
    case Ask => if t.active then {} else {Attach(t.id, t.route, t.nonce, t.pristine, t.dev)}
    case Accede(clock) =>
      var epoch := if clock > t.maxEpoch then clock else t.maxEpoch + 1;
      {Owner(epoch)} + Ack(t, t.dev, epoch, t.route, t.nonce)
    case Deliver(m) =>
      if m.Attach? && t.active then Ack(t, m.dev, t.epoch, m.claim, m.nonce)
      else if ClaimsAgain(t, m) then {Attach(t.id, t.route, t.nonce, t.pristine, t.dev)}
      else {}
    case Hello(_) =>
      if t.trunk.Some? then set r, i | r in t.claims && i in t.claims[r] :: Attached(t.epoch, r, t.claims[r][i].nonce)
      else {}
    case Patch(route, only, data) => if t.trunk.Some? then {Frame(t.epoch, route, only, data)} else {}
    case DevEvent(name, data) => if t.trunk.Some? then {Dev(t.epoch, name, data)} else {}
    case Beat => if t.active then {Heartbeat(t.epoch)} else {}
    case CensusStart => if t.active && (exists r, i :: Claimed(t.claims, r, i) && i != t.id) then {Census(t.epoch)}
      else {}
    case PageHide => if t.route.Some? then {Detach(t.id, t.route.value)} else {}
    case _ => {}
  }

  lemma {:induction false} EnrolledLane(t: Tab, m: Msg)
    requires t.active && m.Attach? && (t.lane.Some? ==> t.trunk.Some?)
    ensures Enrolled(t, m).lane.Some? <==> LaneStays(t, m.dev)
  {
    var u := if m.dev then t.(devWanted := true) else t;
    if m.claim.Some? {
      var v := ClaimMade(u, m.claim.value, m.tabId, Claim(m.nonce, m.pristine));
      assert v.lane == u.lane && v.trunk == u.trunk && v.devWanted == u.devWanted && v.active == u.active;
    }
    hide ClaimMade;
  }

  lemma {:induction false} WelcomedPosts(t: Tab, m: Msg)
    requires t.active && m.Attach? && (t.lane.Some? ==> t.trunk.Some?)
    ensures Welcomed(t, m).outbox == t.outbox + Ack(t, m.dev, t.epoch, m.claim, m.nonce)
  {
    EnrolledAlike(t, m);
    EnrolledLane(t, m);
    hide Enrolled, LaneStays;
  }

  lemma {:induction false} AnnouncedPosts(t: Tab)
    requires Sound(t.(route := None, dev := false))
    ensures Publish(t, AttachOf(t)).outbox == t.outbox + ({AttachOf(t)} + OwnAck(t, t.dev, t.route))
  {
    AnnouncedIs(t);
    hide Welcomed, LaneStays;
    if t.active {
      WelcomedPosts(t, AttachOf(t));
    }
  }

  lemma {:induction false} DeliveredPosts(t: Tab, m: Msg)
    requires Sound(t) && Heard(t, m)
    ensures Delivered(t, m).outbox == t.outbox + Posts(t, Deliver(m))
  {
    var u := Hearing(t, m);
    HearingKeeps(t, m);
    DetachPage(u, m);
    hide Welcomed, OwnerOnDetach, Hearing, OnFrame;
    if m.Attach? && u.active {
      WelcomedPosts(u, m);
    }
    FramePosts(u, m);
  }

  lemma {:induction false} FramePosts(t: Tab, m: Msg)
    ensures m.Frame? ==> OnFrame(t, m.route, m.only, m.data).outbox == t.outbox
  {}

  lemma {:induction false} GhostsAny(t: Tab)
    ensures Ghosts(t) != map[] <==> exists r, i :: Claimed(t.claims, r, i) && i != t.id
  {
    if r, i :| Claimed(t.claims, r, i) && i != t.id {
      assert i in t.claims[r].Keys - {t.id};
      assert r in Ghosts(t);
    }
    if Ghosts(t) != map[] {
      var r :| r in Ghosts(t);
      var i :| i in t.claims[r].Keys - {t.id};
      assert Claimed(t.claims, r, i);
    }
  }

  /** An event posts exactly this: an owner's frames and events carry what came over the trunk under its epoch,
      a claim is acknowledged once there is a lane, and an owner that is deposed claims like any other tab. */
  lemma {:induction false} PostsAre(t: Tab, e: Event)
    requires Sound(t)
    ensures Happen(t, e).outbox == t.outbox + Posts(t, e)
  {
    hide Welcomed, Delivered;
    match e
    case AttachRoute(route) => AnnouncedPosts(t.(route := Some(route)));
    case DevAttach => AnnouncedPosts(t.(dev := true));
    case Ask => AnnouncedPosts(t);
    case Accede(clock) => AccededPosts(t, clock);
    case Deliver(m) =>
      DeliveredIs(t, m);
      if Heard(t, m) {
        DeliveredPosts(t, m);
      }
    case Patch(route, only, data) => if t.trunk.Some? { OwnFrame(t, route, only, data); }
    case DevEvent(name, data) => if t.trunk.Some? { OwnWord(t, Dev(t.epoch, name, data)); }
    case Beat => if t.active { OwnWord(t, Heartbeat(t.epoch)); }
    case CensusStart =>
      GhostsAny(t);
      if t.active && Ghosts(t) != map[] {
        OwnWord(t.(census := Some(Round(t.rounds, Ghosts(t))), rounds := t.rounds + 1), Census(t.epoch));
      }
    case PageHide => if t.route.Some? { OwnDetach(t, t.route.value); }
    case _ =>
  }

  lemma {:induction false} AccededPosts(t: Tab, clock: nat)
    requires Sound(t)
    ensures Acceded(t, clock).outbox == t.outbox + Posts(t, Accede(clock))
  {
    AccededIs(t, clock);
    var u := Elected(t, MintEpoch(clock, t.maxEpoch));
    WelcomedPosts(u, AttachOf(u));
    hide Welcomed;
  }

  /** Over any run of any tabs: what a move posts is on its way to every other tab, a delivery takes its own copy
      out unless it was repeated, and nothing else comes or goes. */
  lemma {:induction false} FlightIs(w: PhosphorRuns.World, mv: PhosphorRuns.Move, k: nat, m: Msg)
    requires PhosphorRuns.Inv(w) && PhosphorRuns.Legal(w, mv)
    ensures (k, m) in PhosphorRuns.Next(w, mv).flight <==>
            || ((k, m) in w.flight && !(mv.event == Deliver(m) && mv.tab == k && !mv.kept))
            || (k < |w.tabs| && k != mv.tab && m in Posts(w.tabs[mv.tab], mv.event))
  {
    var t := w.tabs[mv.tab];
    PostsAre(t, mv.event);
    hide Happen, Posts;
    assert t.outbox == {};
    assert (k, m) in PhosphorRuns.Posted(|w.tabs|, mv.tab, Happen(t, mv.event).outbox) <==>
           k < |w.tabs| && k != mv.tab && m in Happen(t, mv.event).outbox;
  }
}
