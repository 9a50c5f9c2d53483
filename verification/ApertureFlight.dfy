/** Single flight: callers of one resource share one round trip, in every interleaving. */
module ApertureFlight {
  import opened Prelude
  import opened ApertureCache
  import opened ApertureClient

  type Answer = Result<Outcome, Error>

  /** One published result, or none yet. `open` while its leader can still publish. */
  datatype Flight = Flight(key: ResourceKey, leader: nat, result: Option<Answer>, open: bool)

  /** Where a caller is. `lap` counts the laps already lost. */
  datatype Caller =
    | Trying(key: ResourceKey, lap: nat)
    | Leading(key: ResourceKey, flight: nat)
    | Landed(key: ResourceKey, flight: nat, answer: Answer)
    | Following(key: ResourceKey, flight: nat, lap: nat)
    | Alone(key: ResourceKey)
    | Done(key: ResourceKey, answer: Answer, from: Option<nat>)
    | Gone(key: ResourceKey)

  datatype State = State(callers: map<nat, Caller>, inflight: map<ResourceKey, nat>, flights: seq<Flight>)

  datatype Step =
    | Arrive(caller: nat, key: ResourceKey)
    | Board(caller: nat)
    | Publish(caller: nat, answer: Answer)
    | Remove(caller: nat)
    | Receive(caller: nat)
    | Lose(caller: nat)
    | Finish(caller: nat, answer: Answer)
    | Abandon(caller: nat)

  const Laps: nat := 2

  predicate Enabled(s: State, t: Step) {
    match t
    case Arrive(c, _) => c !in s.callers
    case Board(c) => c in s.callers && s.callers[c].Trying?
    case Publish(c, _) => c in s.callers && s.callers[c].Leading? && s.callers[c].flight < |s.flights|
    case Remove(c) => c in s.callers && s.callers[c].Landed?
    case Receive(c) => c in s.callers && s.callers[c].Following? && s.callers[c].flight < |s.flights| &&
      s.flights[s.callers[c].flight].result.Some?
    case Lose(c) => c in s.callers && s.callers[c].Following? && s.callers[c].flight < |s.flights|
                    && s.flights[s.callers[c].flight].result.None? && !s.flights[s.callers[c].flight].open
    case Finish(c, _) => c in s.callers && s.callers[c].Alone?
    case Abandon(c) => c in s.callers && !s.callers[c].Done? && !s.callers[c].Gone? && !s.callers[c].Landed?
                       && (s.callers[c].Leading? ==> s.callers[c].flight < |s.flights|)
  }

  /** Between taking the slot and giving it back. */
  predicate Holds(c: Caller) { c.Leading? || c.Landed? }

  function Next(s: State, t: Step): State
    requires Enabled(s, t)
  {
    var c := t.caller;
    match t
    case Arrive(_, key) => s.(callers := s.callers[c := Trying(key, 0)])
    case Board(_) =>
      var me := s.callers[c];
      if me.lap >= Laps then s.(callers := s.callers[c := Alone(me.key)])
      else if me.key in s.inflight then s.(callers := s.callers[c := Following(me.key, s.inflight[me.key], me.lap)])
      else State(s.callers[c := Leading(me.key, |s.flights|)], s.inflight[me.key := |s.flights|],
                 s.flights + [Flight(me.key, c, None, true)])
    case Publish(_, answer) =>
      var me := s.callers[c];
      s.(callers := s.callers[c := Landed(me.key, me.flight, answer)],
         flights := s.flights[me.flight := s.flights[me.flight].(result := Some(answer))])
    case Remove(_) =>
      var me := s.callers[c];
      s.(callers := s.callers[c := Done(me.key, me.answer, Some(me.flight))], inflight := s.inflight - {me.key})
    case Receive(_) =>
      var me := s.callers[c];
      s.(callers := s.callers[c := Done(me.key, s.flights[me.flight].result.value, Some(me.flight))])
    case Lose(_) =>
      var me := s.callers[c];
      s.(callers := s.callers[c := Trying(me.key, me.lap + 1)])
    case Finish(_, answer) => s.(callers := s.callers[c := Done(s.callers[c].key, answer, None)])
    case Abandon(_) =>
      // A dropped leader takes its sender with it, but leaves the slot taken.
      var me := s.callers[c];
      State(s.callers[c := Gone(me.key)], s.inflight,
            if me.Leading? then s.flights[me.flight := s.flights[me.flight].(open := false)] else s.flights)
  }

  /** Leaders finish; anyone else may be dropped. */
  predicate Steady(s: State, t: Step) { t.Abandon? && t.caller in s.callers ==> !s.callers[t.caller].Leading? }

  // ---- Invariant ------------------------------------------------------------------------------

  ghost predicate FlightsOk(s: State) {
    && (forall c :: c in s.callers && (Holds(s.callers[c]) || s.callers[c].Following?) ==>
          s.callers[c].flight < |s.flights| && s.flights[s.callers[c].flight].key == s.callers[c].key)
    && (forall c :: c in s.callers && Holds(s.callers[c]) && s.callers[c].flight < |s.flights| ==>
      s.flights[s.callers[c].flight].leader == c)
    && (forall c :: c in s.callers && s.callers[c].Leading? && s.callers[c].flight < |s.flights| ==>
      s.flights[s.callers[c].flight].result.None?)
  }

  /** The slot is taken exactly while its leader is at work. */
  ghost predicate SlotsOk(s: State) {
    && (forall k :: k in s.inflight ==>
      s.inflight[k] < |s.flights| && Leads(s, k, s.flights[s.inflight[k]].leader, s.inflight[k]))
    && (forall c :: c in s.callers && Holds(s.callers[c]) ==>
      s.callers[c].key in s.inflight && s.inflight[s.callers[c].key] == s.callers[c].flight)
  }

  predicate Leads(s: State, k: ResourceKey, c: nat, f: nat) {
    c in s.callers && Holds(s.callers[c]) && s.callers[c].key == k && s.callers[c].flight == f
  }

  /** Nobody is ever left without a leader. */
  ghost predicate NoneLost(s: State) {
    && (forall f :: 0 <= f < |s.flights| ==> s.flights[f].open)
    && (forall c :: c in s.callers ==> !s.callers[c].Alone? && (s.callers[c].Trying? ==> s.callers[c].lap == 0))
  }

  /** Every answer is the one its flight published, for the same resource. */
  ghost predicate AnswersOk(s: State) {
    && (forall c :: c in s.callers && s.callers[c].Done? ==>
          s.callers[c].from.Some? && Published(s, s.callers[c].from.value, s.callers[c].key, s.callers[c].answer))
    && (forall c :: c in s.callers && s.callers[c].Landed? ==>
      Published(s, s.callers[c].flight, s.callers[c].key, s.callers[c].answer))
  }

  predicate Published(s: State, f: nat, key: ResourceKey, answer: Answer) {
    f < |s.flights| && s.flights[f].key == key && s.flights[f].result == Some(answer)
  }

  ghost predicate Inv(s: State) { FlightsOk(s) && SlotsOk(s) && NoneLost(s) && AnswersOk(s) }

  lemma {:induction false} NextFlights(s: State, t: Step)
    requires Inv(s) && Enabled(s, t) && Steady(s, t)
    ensures FlightsOk(Next(s, t))
  {
    assert FlightsOk(s) && SlotsOk(s);
    hide Inv, NoneLost, AnswersOk, Published;
  }

  lemma {:induction false} NextSlots(s: State, t: Step)
    requires Inv(s) && Enabled(s, t) && Steady(s, t)
    ensures SlotsOk(Next(s, t))
  {
    if t.Board? {
      BoardSlots(s, t);
    } else if t.Remove? {
      RemoveSlots(s, t);
    } else {
      OtherSlots(s, t);
    }
  }

  lemma {:induction false} BoardSlots(s: State, t: Step)
    requires FlightsOk(s) && SlotsOk(s) && Enabled(s, t) && t.Board?
    ensures SlotsOk(Next(s, t))
  {}

  lemma {:induction false} RemoveSlots(s: State, t: Step)
    requires FlightsOk(s) && SlotsOk(s) && Enabled(s, t) && t.Remove?
    ensures SlotsOk(Next(s, t))
  {}

  lemma {:induction false} OtherSlots(s: State, t: Step)
    requires FlightsOk(s) && SlotsOk(s) && Enabled(s, t) && Steady(s, t) && !t.Board? && !t.Remove?
    ensures SlotsOk(Next(s, t))
  {}

  lemma {:induction false} NextLost(s: State, t: Step)
    requires Inv(s) && Enabled(s, t) && Steady(s, t)
    ensures NoneLost(Next(s, t))
  {}

  lemma {:induction false} NextAnswers(s: State, t: Step)
    requires Inv(s) && Enabled(s, t) && Steady(s, t)
    ensures AnswersOk(Next(s, t))
  {}

  lemma {:induction false} NextInv(s: State, t: Step)
    requires Inv(s) && Enabled(s, t) && Steady(s, t)
    ensures Inv(Next(s, t))
  {
    NextFlights(s, t);
    NextSlots(s, t);
    NextLost(s, t);
    NextAnswers(s, t);
  }

  // ---- Runs -----------------------------------------------------------------------------------

  predicate Possible(s: State, steps: seq<Step>)
    decreases steps
  {
    steps != [] ==> Enabled(s, steps[0]) && Possible(Next(s, steps[0]), steps[1..])
  }

  predicate SteadyRun(s: State, steps: seq<Step>)
    requires Possible(s, steps)
    decreases steps
  {
    steps != [] ==> Steady(s, steps[0]) && SteadyRun(Next(s, steps[0]), steps[1..])
  }

  function Run(s: State, steps: seq<Step>): State
    requires Possible(s, steps)
    decreases steps
  {
    if steps == [] then s else Run(Next(s, steps[0]), steps[1..])
  }

  const Start: State := State(map[], map[], [])

  /** A round trip is under way for the caller. */
  predicate Performing(c: Caller) { c.Leading? || c.Alone? }

  lemma {:induction false} RunInv(s: State, steps: seq<Step>)
    requires Inv(s) && Possible(s, steps) && SteadyRun(s, steps)
    ensures Inv(Run(s, steps))
    decreases steps
  {
    if steps != [] {
      NextInv(s, steps[0]);
      RunInv(Next(s, steps[0]), steps[1..]);
    }
  }

  /** While leaders finish: one round trip per resource at a time, the slot taken exactly while its
      leader works, and every answer is one that a leader of the same resource published. */
  lemma {:induction false} SingleFlight(steps: seq<Step>, a: nat, b: nat)
    requires Possible(Start, steps) && SteadyRun(Start, steps)
    requires var s := Run(Start, steps); a in s.callers && b in s.callers
    ensures var s := Run(Start, steps);
            && (Performing(s.callers[a]) && Performing(s.callers[b]) && s.callers[a].key == s.callers[b].key ==> a == b)
            && (Performing(s.callers[a]) ==> s.callers[a].key in s.inflight)
            && (forall k :: k in s.inflight <==> exists c, f :: Leads(s, k, c, f))
            && (s.callers[a].Done? ==>
              s.callers[a].from.Some? && Published(s, s.callers[a].from.value, s.callers[a].key, s.callers[a].answer))
  {
    RunInv(Start, steps);
    var s := Run(Start, steps);
    forall k ensures k in s.inflight <==> exists c, f :: Leads(s, k, c, f) {
      if k in s.inflight {
        assert Leads(s, k, s.flights[s.inflight[k]].leader, s.inflight[k]);
      }
    }
  }

  // ---- Nobody waits for ever ------------------------------------------------------------------------

  predicate Finished(c: Caller) { c.Done? || c.Gone? }

  /** A bound on the steps a caller has left: two a lap, and two of its own. */
  function Left(c: Caller): nat {
    match c
    case Trying(_, lap) => if lap < Laps then 2 * (Laps - lap) + 2 else 2
    case Following(_, _, lap) => if lap < Laps then 2 * (Laps - lap) + 1 else 1
    case Leading(_, _) => 2
    case Landed(_, _, _) => 1
    case Alone(_) => 1
    case _ => 0
  }

  /** Nobody follows once its laps are used up, and a flight without a result has a leader at work. */
  ghost predicate Crewed(s: State) {
    && (forall c :: c in s.callers && s.callers[c].Following? ==> s.callers[c].lap < Laps)
    && forall f :: 0 <= f < |s.flights| && s.flights[f].result.None? ==> Flies(s, f)
  }

  ghost predicate Flies(s: State, f: nat)
    requires f < |s.flights|
  {
    var c := s.flights[f].leader;
    c in s.callers && s.callers[c].Leading? && s.callers[c].flight == f
  }

  lemma {:induction false} NextCrewed(s: State, t: Step)
    requires Inv(s) && Crewed(s) && Enabled(s, t) && Steady(s, t)
    ensures Crewed(Next(s, t))
  {
    assert FlightsOk(s) && NoneLost(s);
    hide Inv, SlotsOk, AnswersOk, Published;
    var u := Next(s, t);
    forall f | 0 <= f < |u.flights| && u.flights[f].result.None? ensures Flies(u, f) {
      if f < |s.flights| {
        assert s.flights[f].result.None? && Flies(s, f);
      }
    }
  }

  lemma {:induction false} RunCrewed(s: State, steps: seq<Step>)
    requires Inv(s) && Crewed(s) && Possible(s, steps) && SteadyRun(s, steps)
    ensures Inv(Run(s, steps)) && Crewed(Run(s, steps))
    decreases steps
  {
    hide Inv, Crewed, Next;
    if steps != [] {
      NextInv(s, steps[0]);
      NextCrewed(s, steps[0]);
      RunCrewed(Next(s, steps[0]), steps[1..]);
    }
  }

  /** Its own steps bring a caller on; other callers, and what it asked for, stay. */
  lemma {:induction false} StepsOn(s: State, t: Step)
    requires Enabled(s, t) && !t.Arrive? && (s.callers[t.caller].Following? ==> s.callers[t.caller].lap < Laps)
    ensures var u := Next(s, t);
            && u.callers.Keys == s.callers.Keys && Left(u.callers[t.caller]) < Left(s.callers[t.caller])
            && u.callers[t.caller].key == s.callers[t.caller].key
            && forall c :: c in s.callers && c != t.caller ==> u.callers[c] == s.callers[c]
  {}

  /** While leaders finish, a caller that has no answer yet has a step to take, or the leader it follows has. */
  lemma {:induction false} NobodyStuck(steps: seq<Step>, c: nat) returns (t: Step)
    requires Possible(Start, steps) && SteadyRun(Start, steps)
    requires var s := Run(Start, steps); c in s.callers && !Finished(s.callers[c])
    ensures var s, me := Run(Start, steps), Run(Start, steps).callers[c];
            && Enabled(s, t) && Steady(s, t) && !t.Arrive? && !t.Abandon?
            && (t.caller == c || (me.Following? && Leads(s, me.key, t.caller, me.flight)))
  {
    RunCrewed(Start, steps);
    var s := Run(Start, steps);
    var me := s.callers[c];
    assert FlightsOk(s) && NoneLost(s);
    hide SlotsOk, AnswersOk, Run, Possible, SteadyRun, Next;
    var some := Ok(Outcome(Response(200, "", None, Validators(None, None)), Fetched));
    match me
    case Trying(_, _) => t := Board(c);
    case Leading(_, _) => t := Publish(c, some);
    case Landed(_, _, _) => t := Remove(c);
    case Following(_, f, _) =>
      if s.flights[f].result.Some? {
        t := Receive(c);
      } else {
        assert Flies(s, f);
        t := Publish(s.flights[f].leader, some);
      }
    case Alone(_) => t := Finish(c, some);
  }

  /** The steps all of them have left. */
  ghost function LeftOf(callers: map<nat, Caller>, ids: set<nat>): nat
    requires ids <= callers.Keys
    decreases |ids|
  {
    if ids == {} then 0 else var c :| c in ids; Left(callers[c]) + LeftOf(callers, ids - {c})
  }

  lemma {:induction false} LeftWithout(callers: map<nat, Caller>, ids: set<nat>, c: nat)
    requires ids <= callers.Keys && c in ids
    ensures LeftOf(callers, ids) == Left(callers[c]) + LeftOf(callers, ids - {c})
    decreases |ids|
  {
    var d :| d in ids && LeftOf(callers, ids) == Left(callers[d]) + LeftOf(callers, ids - {d});
    if d != c {
      LeftWithout(callers, ids - {d}, c);
      LeftWithout(callers, ids - {c}, d);
      assert ids - {d} - {c} == ids - {c} - {d};
    }
  }

  lemma {:induction false} LeftSame(a: map<nat, Caller>, b: map<nat, Caller>, ids: set<nat>)
    requires ids <= a.Keys && ids <= b.Keys && forall c :: c in ids ==> a[c] == b[c]
    ensures LeftOf(a, ids) == LeftOf(b, ids)
    decreases |ids|
  {
    if ids != {} {
      var c :| c in ids;
      LeftWithout(a, ids, c);
      LeftWithout(b, ids, c);
      LeftSame(a, b, ids - {c});
    }
  }

  /** Without newcomers, the callers there are take no more steps than they have left: with `NobodyStuck`, all
      of them are answered in the end, whatever the order. */
  lemma {:induction false} RunEnds(s: State, steps: seq<Step>)
    requires Inv(s) && Crewed(s) && Possible(s, steps) && SteadyRun(s, steps)
    requires forall t :: t in steps ==> !t.Arrive?
    ensures |steps| <= LeftOf(s.callers, s.callers.Keys)
    decreases steps
  {
    if steps != [] {
      var t := steps[0];
      var u := Next(s, t);
      assert t in steps && Enabled(s, t) && t.caller in s.callers;
      StepsOn(s, t);
      NextInv(s, t);
      NextCrewed(s, t);
      hide Inv, Crewed, Next, Enabled, Left, LeftOf;
      RunEnds(u, steps[1..]);
      LeftWithout(s.callers, s.callers.Keys, t.caller);
      LeftWithout(u.callers, s.callers.Keys, t.caller);
      LeftSame(s.callers, u.callers, s.callers.Keys - {t.caller});
    }
  }

  // ---- A dropped leader -----------------------------------------------------------------------------

  /** The slot of a resource is taken by a flight that will never land. */
  ghost predicate Stranded(s: State, k: ResourceKey) {
    && k in s.inflight && s.inflight[k] < |s.flights|
    && s.flights[s.inflight[k]].result.None? && !s.flights[s.inflight[k]].open
    && forall c :: c in s.callers && Holds(s.callers[c]) ==>
      s.callers[c].key != k && s.callers[c].flight != s.inflight[k]
  }

  lemma {:induction false} StrandedStep(s: State, k: ResourceKey, t: Step)
    requires Stranded(s, k) && Enabled(s, t)
    ensures Stranded(Next(s, t), k) && Next(s, t).inflight[k] == s.inflight[k]
  {}

  /** Once its leader is dropped mid-request, a resource is never coalesced again: its slot is never
      given back, and nobody can follow it to an answer. */
  lemma {:induction false} StrandedForever(s: State, k: ResourceKey, steps: seq<Step>)
    requires Stranded(s, k) && Possible(s, steps)
    ensures Stranded(Run(s, steps), k)
    decreases steps
  {
    if steps != [] {
      StrandedStep(s, k, steps[0]);
      StrandedForever(Next(s, steps[0]), k, steps[1..]);
    }
  }

  /** Dropping a leader strands its resource. */
  lemma {:induction false} AbandonStrands(s: State, c: nat)
    requires Inv(s) && Enabled(s, Abandon(c)) && s.callers[c].Leading?
    ensures Stranded(Next(s, Abandon(c)), s.callers[c].key)
  {}

  /** A newcomer to a stranded resource follows it twice in vain and then asks on its own. */
  lemma {:induction false} AsksAlone(s: State, k: ResourceKey, c: nat) returns (steps: seq<Step>)
    requires Stranded(s, k) && c !in s.callers
    ensures Possible(s, steps) && Stranded(Run(s, steps), k) && Run(s, steps).callers == s.callers[c := Alone(k)]
  {
    var f := s.inflight[k];
    var s1, s2, s3 := s.(callers := s.callers[c := Trying(k, 0)]), s.(callers := s.callers[c := Following(k, f, 0)]),
      s.(callers := s.callers[c := Trying(k, 1)]);
    var s4, s5, s6 := s.(callers := s.callers[c := Following(k, f, 1)]), s.(callers := s.callers[c := Trying(k, 2)]),
      s.(callers := s.callers[c := Alone(k)]);
    OneStep(s, Arrive(c, k), s1);
    OneStep(s1, Board(c), s2);
    OneStep(s2, Lose(c), s3);
    OneStep(s3, Board(c), s4);
    OneStep(s4, Lose(c), s5);
    OneStep(s5, Board(c), s6);
    var t6, t5 := [Board(c)], [Lose(c), Board(c)];
    var t4, t3 := [Board(c)] + t5, [Lose(c), Board(c)] + t5;
    var t2 := [Board(c)] + t3;
    steps := [Arrive(c, k)] + t2;
    assert steps[1..] == t2 && t2[1..] == t3 && t3[1..] == t4 && t4[1..] == t5 && t5[1..] == t6 && t6[1..] == [];
    hide Next, Enabled;
    assert Possible(s6, []) && Run(s6, []) == s6;
    assert Possible(s5, t6) && Run(s5, t6) == s6;
    assert Possible(s4, t5) && Run(s4, t5) == s6;
    assert Possible(s3, t4) && Run(s3, t4) == s6;
    assert Possible(s2, t3) && Run(s2, t3) == s6;
    assert Possible(s1, t2) && Run(s1, t2) == s6;
    assert Possible(s, steps) && Run(s, steps) == s6;
    StrandedForever(s, k, steps);
  }

  lemma {:induction false} OneStep(s: State, t: Step, u: State)
    requires Enabled(s, t) && Next(s, t).callers == u.callers && Next(s, t).inflight == u.inflight &&
             Next(s, t).flights == u.flights
    ensures Next(s, t) == u
  {}

  /** So two round trips for it can then be under way at once. */
  lemma {:induction false} TwoAtOnce(s: State, k: ResourceKey, a: nat, b: nat) returns (steps: seq<Step>)
    requires Stranded(s, k) && a !in s.callers && b !in s.callers && a != b
    ensures Possible(s, steps)
    ensures var c := Run(s, steps).callers; a in c && b in c && c[a] == Alone(k) && c[b] == Alone(k)
  {
    var first := AsksAlone(s, k, a);
    var mid := Run(s, first);
    var second := AsksAlone(mid, k, b);
    RunAppend(s, first, second);
    steps := first + second;
    assert Run(s, steps).callers[a] == Alone(k) && Run(s, steps).callers[b] == Alone(k);
  }

  lemma {:induction false} RunAppend(s: State, x: seq<Step>, y: seq<Step>)
    requires Possible(s, x) && Possible(Run(s, x), y)
    ensures Possible(s, x + y) && Run(s, x + y) == Run(Run(s, x), y)
    decreases x
  {
    if x == [] {
      assert x + y == y;
    } else {
      assert (x + y)[1..] == x[1..] + y && (x + y)[0] == x[0];
      RunAppend(Next(s, x[0]), x[1..], y);
    }
  }
}
