/** One tab's lane as the object that its events change in place. */
module PhosphorTab {
  import opened Prelude
  import opened Phosphor
  import PhosphorEffects

  class Lane {
    const id: Id
    const nonce: Id
    var route: Option<Route>
    var pristine: bool
    var dev: bool
    var maxEpoch: nat
    var shown: seq<string>
    var active: bool
    var epoch: nat
    var claims: Claims
    var devWanted: bool
    var trunk: Option<bool>
    var lane: Option<string>
    var census: Option<Round>
    var rounds: nat
    var outbox: set<Msg>

    function Value(): Tab
      reads this
    {
      Tab(id, route, nonce, pristine, dev, maxEpoch, shown, active, epoch, claims, devWanted, trunk, lane, census,
        rounds, outbox)
    }

    constructor (id: Id, nonce: Id)
      ensures Value() == Tab(id, None, nonce, true, false, 0, [], false, 0, map[], false, None, None, None, 0, {})
      ensures Sound(Value())
    {
      this.id, this.nonce := id, nonce;
      route, pristine, dev, maxEpoch, shown := None, true, false, 0, [];
      active, epoch, claims, devWanted := false, 0, map[], false;
      trunk, lane, census, rounds, outbox := None, None, None, 0, {};
    }

    /** Local delivery first, then the channel. */
    method PublishMsg(m: Msg)
      modifies this
      ensures Value() == Publish(old(Value()), m)
      decreases Rank(m), 1
    {
      HandleMessage(m);
      outbox := outbox + {m};
    }

    /** A frame is shown exactly when it is meant for this tab; other messages nest more of the same. */
    method HandleMessage(m: Msg)
      modifies this
      ensures Value() == Receive(old(Value()), m)
      ensures m.Frame? ==> shown == old(shown) + if PhosphorEffects.Meant(old(Value()), m) then [m.data] else []
      decreases Rank(m), 0
    {
      if Stamped(m) {
        if m.epoch < maxEpoch {
          return;
        }
        maxEpoch := m.epoch;
        if active && m.epoch > epoch {
          Demote();
        }
      }
      match m {
        case Attach(_, _, _, _, _) =>
          if active {
            OnAttach(m);
          }
        case Detach(tabId, r) =>
          if active {
            OnDetach(tabId, r);
          }
        case Owner(_) => Rejoin(m);
        case Census(_) => Rejoin(m);
        case Attached(_, r, n) =>
          if route == Some(r) && n == nonce {
            pristine := false;
          }
        case Frame(_, r, only, data) =>
          if route == Some(r) && (only.None? || only.value == nonce) {
            pristine := false;
            shown := shown + [data];
          }
        case Dev(_, _, _) =>
        case Heartbeat(_) =>
      }
    }

    method Demote()
      modifies this
      ensures Value() == Demoted(old(Value()))
    {
      active, trunk, lane, census := false, None, None, None;
    }

    /** A follower makes its claim again; an owner's claims include its own already. */
    method Rejoin(why: Msg)
      requires why.Owner? || why.Census?
      modifies this
      ensures Value() == Reattach(old(Value()), why)
      decreases Rank(why), 0, 0
    {
      if route.None? && !dev {
        return;
      }
      if active {
        return;
      }
      PublishMsg(AttachOf(Value()));
    }

    method OpenTrunk()
      modifies this
      ensures Value() == TrunkOpened(old(Value()))
    {
      if active {
        trunk := Some(devWanted);
      }
    }

    method EnsureTrunk()
      modifies this
      ensures Value() == TrunkEnsured(old(Value()))
    {
      if trunk.Some? {
        if devWanted && !trunk.value {
          trunk, lane := None, None;
          OpenTrunk();
        }
        return;
      }
      OpenTrunk();
    }

    method OnAttach(m: Msg)
      requires m.Attach?
      modifies this
      ensures Value() == OwnerOnAttach(old(Value()), m)
      decreases 1, 0, 0
    {
      if m.dev {
        devWanted := true;
      }
      hide ClaimMade, TrunkEnsured, Publish;
      if m.claim.Some? {
        MakeClaim(m.claim.value, m.tabId, Claim(m.nonce, m.pristine));
      }
      EnsureTrunk();
      if m.claim.Some? && lane.Some? {
        PublishMsg(Attached(epoch, m.claim.value, m.nonce));
      }
    }

    /** Who claims again is no ghost. */
    method MakeClaim(r: Route, tabId: Id, claim: Claim)
      modifies this
      ensures Value() == ClaimMade(old(Value()), r, tabId, claim)
    {
      var tabs := if r in claims then claims[r] else map[];
      claims := claims[r := tabs[tabId := claim]];
      if census.Some? && r in census.value.ghosts {
        var ghosts := census.value.ghosts;
        census := Some(Round(census.value.number, ghosts[r := ghosts[r] - {tabId}]));
      }
    }

    method OnDetach(tabId: Id, r: Route)
      modifies this
      ensures Value() == OwnerOnDetach(old(Value()), tabId, r)
    {
      if r !in claims {
        return;
      }
      var tabs := claims[r] - {tabId};
      claims := if |tabs| == 0 then claims - {r} else claims[r := tabs];
    }

    // ---- Events ---------------------------------------------------------------------------

    method AttachTo(r: Route)
      modifies this
      ensures Value() == Happen(old(Value()), AttachRoute(r))
    {
      route := Some(r);
      PublishMsg(AttachOf(Value()));
    }

    method AttachDev()
      modifies this
      ensures Value() == Happen(old(Value()), DevAttach)
    {
      dev := true;
      PublishMsg(AttachOf(Value()));
    }

    /** The lock is ours: a new epoch, no claims yet, and the announcement. */
    method AccedeAt(clock: nat)
      modifies this
      ensures Value() == Happen(old(Value()), Accede(clock))
    {
      active := true;
      epoch := if clock > maxEpoch + 1 then clock else maxEpoch + 1;
      claims := map[];
      PublishMsg(Owner(epoch));
      if route.Some? || dev {
        OnAttach(AttachOf(Value()));
      }
    }

    method OnHello(l: string)
      requires Sound(Value())
      modifies this
      ensures Value() == Happen(old(Value()), Hello(l))
    {
      if trunk.Some? {
        lane := Some(l);
        FlushClaims();
      }
    }

    /** Acknowledge every claim, in whatever order the map yields them. */
    method FlushClaims()
      requires active && epoch == maxEpoch
      modifies this
      ensures Value() == Flushed(old(Value()))
    {
      ghost var start := Value();
      var todo := Acks(Value());
      ghost var acks := todo;
      ghost var done: set<Msg> := {};
      hide Publish, Acks;
      while todo != {}
        invariant todo <= acks && done <= acks && forall m :: m in acks ==> m in todo || m in done
        invariant Value() == Acked(start, done)
        decreases todo
      {
        var ack :| ack in todo;
        AcksAre(start, ack);
        AckOwn(start, done, ack);
        PublishMsg(ack);
        done := done + {ack};
        todo := todo - {ack};
      }
      assert done == acks;
    }

    /** Every claim but our own becomes a ghost until it is made again. */
    method RunCensus()
      modifies this
      ensures Value() == Happen(old(Value()), CensusStart)
    {
      assert Happen(Value(), CensusStart) == if active then CensusBegun(Value()) else Value();
      ghost var begun := CensusBegun(Value());
      assert begun == if Ghosts(Value()) == map[] then Value()
                      else Publish(Value().(census := Some(Round(rounds, Ghosts(Value()))), rounds := rounds + 1),
                        Census(epoch));
      hide Publish, Ghosts, Happen, CensusBegun;
      if !active {
        return;
      }
      var pending := CollectGhosts();
      if pending == map[] {
        return;
      }
      StartRound(pending);
    }

    method StartRound(pending: map<Route, set<Id>>)
      modifies this
      ensures Value() == Publish(old(Value()).(census := Some(Round(old(rounds), pending)), rounds := old(rounds) + 1),
              Census(old(epoch)))
    {
      hide Publish;
      census := Some(Round(rounds, pending));
      rounds := rounds + 1;
      PublishMsg(Census(epoch));
    }

    method CollectGhosts() returns (pending: map<Route, set<Id>>)
      ensures pending == Ghosts(Value())
    {
      pending := map[];
      var todo := claims.Keys;
      while todo != {}
        invariant todo <= claims.Keys
        invariant pending == map r | r in claims && r !in todo && claims[r].Keys - {id} != {} :: claims[r].Keys - {id}
        decreases todo
      {
        var r :| r in todo;
        var ghosts := claims[r].Keys - {id};
        if ghosts != {} {
          pending := pending[r := ghosts];
        }
        todo := todo - {r};
      }
    }

    /** The grace window of round `number` is over: whoever is still a ghost is detached. */
    method EndCensus(number: nat)
      requires Sound(Value())
      modifies this
      ensures Value() == Happen(old(Value()), CensusEnd(number))
    {
      if !active || census.None? || census.value.number != number {
        return;
      }
      var pending := census.value.ghosts;
      ghost var start := Value();
      ghost var gone: map<Route, set<Id>> := map[];
      EvictedNothing(claims);
      var routes := pending.Keys;
      while routes != {}
        invariant routes <= pending.Keys && gone == map r | r in pending && r !in routes :: pending[r]
        invariant Value() == start.(claims := Evicted(start.claims, gone))
        decreases routes
      {
        var r :| r in routes;
        ghost var before := gone;
        ghost var out: set<Id> := {};
        var ghosts := pending[r];
        EvictedNone(start.claims, gone, r);
        while ghosts != {}
          invariant ghosts <= pending[r] && out == pending[r] - ghosts
          invariant Value() == start.(claims := Evicted(start.claims, before[r := out]))
          decreases ghosts
        {
          var tabId :| tabId in ghosts;
          EvictedOne(start, before, r, out, tabId);
          OnDetach(tabId, r);
          out := out + {tabId};
          ghosts := ghosts - {tabId};
        }
        assert out == pending[r];
        gone := before[r := out];
        routes := routes - {r};
      }
      assert gone == pending;
      census := None;
    }

    method HidePage()
      modifies this
      ensures Value() == Happen(old(Value()), PageHide)
    {
      if route.Some? {
        PublishMsg(Detach(id, route.value));
      }
      if active {
        Demote();
      }
    }

    method SendFrame(r: Route, only: Option<Id>, data: string)
      modifies this
      ensures Value() == Happen(old(Value()), Patch(r, only, data))
    {
      if trunk.Some? {
        PublishMsg(Frame(epoch, r, only, data));
      }
    }
  }

  /** After some of the acknowledgements. */
  ghost function Acked(t: Tab, done: set<Msg>): Tab {
    t.(outbox := t.outbox + done,
       pristine := t.pristine && !(t.route.Some? && Attached(t.epoch, t.route.value, t.nonce) in done))
  }

  lemma {:induction false} AcksAre(t: Tab, m: Msg)
    requires m in Acks(t)
    ensures m.Attached? && m.epoch == t.epoch
  {}

  lemma {:induction false} AckOwn(t: Tab, done: set<Msg>, m: Msg)
    requires t.active && t.epoch == t.maxEpoch && m.Attached? && m.epoch == t.epoch
    ensures Publish(Acked(t, done), m) == Acked(t, done + {m})
  {
    var u := Acked(t, done);
    assert Fenced(u, m.epoch) == u;
    assert u.outbox + {m} == t.outbox + (done + {m});
  }

  lemma {:induction false} EvictedNothing(claims: Claims)
    requires forall r :: r in claims ==> claims[r] != map[]
    ensures Evicted(claims, map[]) == claims
  {}

  lemma {:induction false} EvictedNone(claims: Claims, gone: map<Route, set<Id>>, r: Route)
    requires r !in gone && forall q :: q in claims ==> claims[q] != map[]
    ensures Evicted(claims, gone[r := {}]) == Evicted(claims, gone)
  {
    if r in claims {
      assert claims[r] - {} == claims[r];
    }
  }

  function LeftOf(claims: Claims, gone: map<Route, set<Id>>, r: Route): map<Id, Claim>
    requires r in claims
  {
    if r in gone then claims[r] - gone[r] else claims[r]
  }

  lemma {:induction false} EvictedIs(claims: Claims, gone: map<Route, set<Id>>)
    ensures forall r :: r in Evicted(claims, gone) <==> r in claims && LeftOf(claims, gone, r) != map[]
    ensures forall r :: r in Evicted(claims, gone) ==> Evicted(claims, gone)[r] == LeftOf(claims, gone, r)
  {}

  lemma {:induction false} LeftStep(claims: Claims, gone: map<Route, set<Id>>, r: Route, out: set<Id>, tabId: Id)
    requires r in claims
    ensures LeftOf(claims, gone[r := out], r) - {tabId} == LeftOf(claims, gone[r := out + {tabId}], r)
    ensures forall q :: q in claims && q != r ==>
            LeftOf(claims, gone[r := out], q) == LeftOf(claims, gone[r := out + {tabId}], q)
  {}

  /** A route's claims after one of them is dropped, and the route with its last. */
  function Dropped(claims: Claims, r: Route, left: map<Id, Claim>): Claims {
    if left == map[] then claims - {r} else claims[r := left]
  }

  lemma {:induction false} DetachDrops(t: Tab, tabId: Id, r: Route)
    ensures OwnerOnDetach(t, tabId, r) == if r !in t.claims then t
            else t.(claims := Dropped(t.claims, r, t.claims[r] - {tabId}))
  {}

  lemma {:induction false} EvictedDrops(claims: Claims, before: map<Route, set<Id>>, after: map<Route, set<Id>>,
                                        r: Route, left: map<Id, Claim>)
    requires r in claims && LeftOf(claims, after, r) == left && (LeftOf(claims, before, r) == map[] ==> left == map[])
    requires forall q :: q in claims && q != r ==> LeftOf(claims, before, q) == LeftOf(claims, after, q)
    ensures Evicted(claims, after) == if r in Evicted(claims, before) then Dropped(Evicted(claims, before), r, left)
            else Evicted(claims, before)
  {
    EvictedIs(claims, before);
    EvictedIs(claims, after);
    hide Evicted, LeftOf;
    var a := Evicted(claims, before);
    SameClaims(if r in a then Dropped(a, r, left) else a, Evicted(claims, after));
  }

  lemma {:induction false} EvictedAgain(claims: Claims, before: map<Route, set<Id>>, after: map<Route, set<Id>>,
                                        r: Route)
    requires r !in claims && forall q :: q != r ==>
             (q in before <==> q in after) && (q in before ==> before[q] == after[q])
    ensures Evicted(claims, after) == Evicted(claims, before)
  {
    EvictedIs(claims, before);
    EvictedIs(claims, after);
    assert forall q :: q in claims ==> LeftOf(claims, before, q) == LeftOf(claims, after, q);
    hide Evicted, LeftOf;
    SameClaims(Evicted(claims, before), Evicted(claims, after));
  }

  /** Detaching one more ghost. */
  lemma {:induction false} EvictedOne(t: Tab, gone: map<Route, set<Id>>, r: Route, out: set<Id>, tabId: Id)
    ensures var u := t.(claims := Evicted(t.claims, gone[r := out]));
            OwnerOnDetach(u, tabId, r) == t.(claims := Evicted(t.claims, gone[r := out + {tabId}]))
  {
    var before, after := gone[r := out], gone[r := out + {tabId}];
    var a := Evicted(t.claims, before);
    DetachDrops(t.(claims := a), tabId, r);
    EvictedIs(t.claims, before);
    if r in t.claims {
      LeftStep(t.claims, gone, r, out, tabId);
      hide Evicted, LeftOf, OwnerOnDetach, Dropped;
      var left := LeftOf(t.claims, before, r);
      assert left == map[] ==> left - {tabId} == map[];
      EvictedDrops(t.claims, before, after, r, left - {tabId});
    } else {
      EvictedAgain(t.claims, before, after, r);
    }
  }

  lemma {:induction false} SameClaims(a: Claims, b: Claims)
    requires forall q :: (q in a <==> q in b) && (q in a ==> a[q] == b[q])
    ensures a == b
  {}
}
