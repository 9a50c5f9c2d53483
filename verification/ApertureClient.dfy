/** The conditional client: what it answers, against an upstream that changes over time. */
module ApertureClient {
  import opened Prelude
  import opened ApertureCache

  /** `headers` are the caller's own, sent as they are. */
  datatype Request =
    Request(method': string, url: string, scope: CacheScope, ttl: nat, headers: seq<Header>, body: Option<string>)

  datatype Wire = Wire(method': string, url: string, headers: seq<Header>, body: Option<string>)

  datatype WireResponse =
    WireResponse(
      status: nat,
      body: string,
      contentType: Option<string>,
      etag: Option<string>,
      lastModified: Option<string>)

  datatype Error = InvalidUrl | Egress | Transport | Timeout | Throttled | DanglingRevalidation

  datatype Disposition = FreshHit | NotModified | Fetched | StaleOnError

  datatype Outcome = Outcome(response: Response, disposition: Disposition)

  /** Header names compare without case; only these two make a request conditional. */
  datatype Header = IfNoneMatch(value: string) | IfModifiedSince(value: string) | Other(name: string, value: string)

  predicate Cacheable(r: Request) { Upper(r.method') == "GET" || Upper(r.method') == "HEAD" }

  function RequestKey(r: Request): ResourceKey { KeyOf(r.method', r.url, r.scope) }

  /** The entity tag if there is one, the date only when there is none. */
  function BuildWireRequest(r: Request, v: Validators): Wire {
    var extra :=
      if !Cacheable(r) then []
      else if v.etag.Some? then [IfNoneMatch(v.etag.value)]
      else if v.lastModified.Some? then [IfModifiedSince(v.lastModified.value)]
      else [];
    Wire(Upper(r.method'), r.url, r.headers + extra, r.body)
  }

  /** The request itself, its method raised, its own headers and then the condition. */
  predicate Asks(w: Wire, r: Request, condition: seq<Header>) {
    Raised(r.method', w.method') && w.url == r.url && w.headers == r.headers + condition && w.body == r.body
  }

  /** A read over a stored entity tag asks with it alone, over a date alone with the date; everything
      else asks without a condition. */
  predicate WireOf(e: Entries, r: Request, w: Wire) {
    var key := RequestKey(r);
    if Cacheable(r) && key in e && e[key].response.validators.etag.Some? then
      Asks(w, r, [IfNoneMatch(e[key].response.validators.etag.value)])
    else if Cacheable(r) && key in e && e[key].response.validators.lastModified.Some? then
      Asks(w, r, [IfModifiedSince(e[key].response.validators.lastModified.value)])
    else Asks(w, r, [])
  }

  lemma {:induction false} WireIs(e: Entries, r: Request)
    ensures WireOf(e, r, BuildWireRequest(r, Known(e, r)))
    ensures !Cacheable(r) ==> BuildWireRequest(r, Known(e, r)) == BuildWireRequest(r, Validators(None, None))
  {
    UpperRaised(r.method');
    hide Upper, Raised, KeyOf;
  }

  /** A read is a GET or a HEAD, however it is spelled. */
  lemma {:induction false} ReadsAre(r: Request)
    ensures Cacheable(r) <==> Raised(r.method', "GET") || Raised(r.method', "HEAD")
  {
    var m := Upper(r.method');
    UpperRaised(r.method');
    hide Upper;
    if w :| w in ["GET", "HEAD"] && Raised(r.method', w) {
      assert |m| == |w| && forall i :: 0 <= i < |w| ==> m[i] == w[i];
      assert m == w;
    }
  }

  /** Two requests whose methods hold no separator share what is stored exactly when their methods agree but for
      case and they have the same address and audience, or one address absorbs the start of the other's tag. */
  lemma {:induction false} RequestsShare(r: Request, r': Request)
    requires Nul !in r.method' && Nul !in r'.method'
    ensures RequestKey(r) == RequestKey(r') <==>
            && Upper(r.method') == Upper(r'.method')
            && ((r.url == r'.url && r.scope == r'.scope) || Absorbs(r.url, r.scope, r'.url, r'.scope)
                || Absorbs(r'.url, r'.scope, r.url, r.scope))
  {
    KeysEqual(r.method', r.url, r.scope, r'.method', r'.url, r'.scope);
    hide KeyOf, Absorbs, Upper;
  }

  // ---- The upstream ---------------------------------------------------------------------------

  /** The representation of each resource at each time. */
  type Upstream = (ResourceKey, nat) -> WireResponse

  predicate Confirms(h: Header, rep: WireResponse) {
    match h
    case IfNoneMatch(tag) => rep.etag == Some(tag)
    case IfModifiedSince(date) => rep.lastModified == Some(date)
    case Other(_, _) => false
  }

  /** Some validator the request carries matches the representation. */
  predicate Matches(w: Wire, rep: WireResponse) { exists h :: h in w.headers && Confirms(h, rep) }

  /** 304 only on a match; otherwise the representation of that moment; failures at any time. */
  ghost predicate Honest(rep: WireResponse, w: Wire, answer: Result<WireResponse, Error>) {
    answer.Ok? ==> if answer.value.status == 304 then Matches(w, rep) else answer.value == rep
  }

  /** A validator is never used again for another body. */
  ghost predicate Identifies(up: Upstream) {
    && (forall k, s, t :: up(k, s).etag.Some? && up(k, s).etag == up(k, t).etag ==> up(k, s).body == up(k, t).body)
    && (forall k, s, t :: up(k, s).lastModified.Some? && up(k, s).lastModified == up(k, t).lastModified ==>
          up(k, s).body == up(k, t).body)
  }

  function Stored(w: WireResponse): Response {
    Response(w.status, w.body, w.contentType, Validators(w.etag, w.lastModified))
  }

  /** An entry is a representation the upstream once had, and its body was current when verified. */
  ghost predicate Genuine(up: Upstream, k: ResourceKey, e: Entry, now: nat) {
    && e.verifiedAt <= now && e.response.body == up(k, e.verifiedAt).body
    && exists t :: e.response == Stored(up(k, t))
  }

  ghost predicate AllGenuine(up: Upstream, e: Entries, now: nat) { forall k :: k in e ==> Genuine(up, k, e[k], now) }

  lemma {:induction false} GenuineOf(up: Upstream, e: Entries, k: ResourceKey, now: nat)
    requires AllGenuine(up, e, now) && k in e
    ensures Genuine(up, k, e[k], now)
  {}

  /** Time passing spoils nothing. */
  lemma {:induction false} GenuineLater(up: Upstream, e: Entries, now: nat, later: nat)
    requires AllGenuine(up, e, now) && now <= later
    ensures AllGenuine(up, e, later)
  {}

  // ---- One call --------------------------------------------------------------------------------

  /** `refused` is set when the address does not parse or the egress policy denies it; `answer` is
      what the transport brings back if it is asked. */
  datatype Call = Call(request: Request, now: nat, refused: Option<Error>, answer: Result<WireResponse, Error>)

  function Known(e: Entries, r: Request): Validators {
    if RequestKey(r) in e then e[RequestKey(r)].response.validators else Validators(None, None)
  }

  predicate FreshIn(e: Entries, r: Request, now: nat) {
    RequestKey(r) in e && now <= e[RequestKey(r)].verifiedAt + r.ttl
  }

  /** What goes over the wire, if anything does. */
  function Sent(e: Entries, c: Call): Option<Wire> {
    if c.refused.Some? || (Cacheable(c.request) && FreshIn(e, c.request, c.now)) then None
    else Some(BuildWireRequest(c.request, Known(e, c.request)))
  }

  function RoundTrip(e: Entries, r: Request, answer: Result<WireResponse, Error>): Result<Outcome, Error> {
    var key := RequestKey(r);
    if answer.Ok? && answer.value.status != 304 then Ok(Outcome(Stored(answer.value), Fetched))
    else if key in e then Ok(Outcome(e[key].response, if answer.Ok? then NotModified else StaleOnError))
    else Err(if answer.Ok? then DanglingRevalidation else answer.error)
  }

  function Reply(e: Entries, c: Call): Result<Outcome, Error> {
    if c.refused.Some? then Err(c.refused.value)
    else if !Cacheable(c.request) then
      if c.answer.Ok? then Ok(Outcome(Stored(c.answer.value), Fetched)) else Err(c.answer.error)
    else if FreshIn(e, c.request, c.now) then Ok(Outcome(e[RequestKey(c.request)].response, FreshHit))
    else RoundTrip(e, c.request, c.answer)
  }

  /** The entry under `key` is `response` as verified at `at`, whatever its recency. */
  predicate Holds(e: Entries, key: ResourceKey, response: Response, at: nat) {
    key in e && e[key].response == response && e[key].verifiedAt == at
  }

  predicate Differs(e: Entries, key: ResourceKey, body: string) { key in e ==> e[key].response.body != body }

  /** No other entry has changed. */
  ghost predicate Others(was: Entries, key: ResourceKey, after: Entries) {
    forall j :: j in after && j != key ==> j in was && after[j] == was[j]
  }

  /** The response went in as the most recent entry, and the evictions followed. */
  ghost predicate Inserted(was: Entries, key: ResourceKey, response: Response, now: nat, budget: nat, after: Entries) {
    exists t: nat :: InsertedAt(was, key, response, t, now, budget, after)
  }

  ghost predicate InsertedAt(was: Entries, key: ResourceKey, response: Response, t: nat, now: nat, budget: nat,
                             after: Entries) {
    var grown := was[key := Entry(response, t, now, Footprint(response) + |key|)];
    && (forall j :: j in was && j != key ==> was[j].touched < t)
    && Submap(after, grown) && Evicts(grown, budget, after.Keys)
  }

  /** What a round trip leaves of the entries. */
  ghost predicate Trips(was: Entries, r: Request, now: nat, answer: Result<WireResponse, Error>, budget: nat,
                        after: Entries)
  {
    var key := RequestKey(r);
    if answer.Ok? && answer.value.status != 304 then Inserted(was, key, Stored(answer.value), now, budget, after)
    else
      && after.Keys == was.Keys && Others(was, key, after)
      && (key in was ==> Holds(after, key, was[key].response, if answer.Ok? then now else was[key].verifiedAt))
  }

  /** What a call leaves of them. */
  ghost predicate Leaves(was: Entries, c: Call, budget: nat, after: Entries) {
    var r, key := c.request, RequestKey(c.request);
    if c.refused.Some? || !Cacheable(r) then after == was
    else if FreshIn(was, r, c.now) then
      after.Keys == was.Keys && Others(was, key, after) && Holds(after, key, was[key].response, was[key].verifiedAt)
    else Trips(was, r, c.now, c.answer, budget, after)
  }

  lemma {:induction false} InsertedLeaves(was: Entries, key: ResourceKey, response: Response, now: nat, budget: nat,
                                          after: Entries)
    requires Inserted(was, key, response, now, budget, after)
    ensures Others(was, key, after) && (key in after ==> Holds(after, key, response, now))
  {}

  /** The response is kept exactly when it fits by itself, and nothing else goes while all of it fits. */
  ghost predicate Stays(was: Entries, key: ResourceKey, response: Response, now: nat, budget: nat, after: Entries) {
    && Others(was, key, after) && (key in after ==> Holds(after, key, response, now))
    && (key in after <==> Footprint(response) + |key| <= budget)
    && (Bytes(was, was.Keys - {key}) + Footprint(response) + |key| <= budget ==> was.Keys <= after.Keys)
  }

  lemma {:induction false} GrownFacts(was: Entries, key: ResourceKey, entry: Entry)
    ensures var grown := was[key := entry];
            Bytes(grown, grown.Keys) == Bytes(was, was.Keys - {key}) + entry.footprint
  {
    var grown := was[key := entry];
    BytesMinus(grown, grown.Keys, key);
    assert grown.Keys - {key} == was.Keys - {key};
    SameBytes(was, grown, was.Keys - {key});
    hide Bytes;
  }

  lemma {:induction false} AllFit(grown: Entries, budget: nat, kept: set<ResourceKey>)
    requires Evicts(grown, budget, kept) && Bytes(grown, grown.Keys) <= budget
    ensures kept == grown.Keys
  {
    hide *;
    NothingDropped(grown, budget);
    EvictsUnique(grown, budget, kept, grown.Keys);
  }

  lemma {:induction false} InsertedFits(was: Entries, key: ResourceKey, response: Response, t: nat, now: nat,
                                        budget: nat, after: Entries)
    requires InsertedAt(was, key, response, t, now, budget, after)
    ensures key in after <==> Footprint(response) + |key| <= budget
    ensures Bytes(was, was.Keys - {key}) + Footprint(response) + |key| <= budget ==> was.Keys <= after.Keys
  {
    var entry := Entry(response, t, now, Footprint(response) + |key|);
    var grown := was[key := entry];
    assert Evicts(grown, budget, after.Keys);
    hide *;
    assert forall j :: j in grown && j != key ==> grown[j].touched < grown[key].touched;
    NewestKept(grown, budget, after.Keys, key);
    GrownFacts(was, key, entry);
    if Bytes(grown, grown.Keys) <= budget {
      AllFit(grown, budget, after.Keys);
    }
  }

  lemma {:induction false} InsertedStays(was: Entries, key: ResourceKey, response: Response, now: nat, budget: nat,
                                         after: Entries)
    requires Inserted(was, key, response, now, budget, after)
    ensures Stays(was, key, response, now, budget, after)
  {
    InsertedLeaves(was, key, response, now, budget, after);
    hide Footprint, InsertedAt, Bytes, Others, Holds;
    var t: nat :| InsertedAt(was, key, response, t, now, budget, after);
    InsertedFits(was, key, response, t, now, budget, after);
  }

  lemma {:induction false} InsertedHere(e: Entries, tick: nat, key: ResourceKey, response: Response, now: nat,
                                        budget: nat, after: Entries)
    requires Consistent(e, tick)
    requires Submap(after, e[key := Entry(response, tick, now, Footprint(response) + |key|)])
    requires Evicts(e[key := Entry(response, tick, now, Footprint(response) + |key|)], budget, after.Keys)
    ensures InsertedAt(e, key, response, tick, now, budget, after)
  {
    hide Evicts, Submap, Footprint;
  }

  /** The entry that was there before does not matter. */
  lemma {:induction false} InsertedOver(was: Entries, read: Entries, key: ResourceKey, response: Response,
                                        now: nat, budget: nat, after: Entries)
    requires Inserted(read, key, response, now, budget, after)
    requires forall j :: j != key ==> (j in was <==> j in read) && (j in was ==> read[j] == was[j])
    ensures Inserted(was, key, response, now, budget, after)
  {
    hide InsertedAt;
    var t: nat :| InsertedAt(read, key, response, t, now, budget, after);
    InsertedAtOver(was, read, key, response, t, now, budget, after);
  }

  lemma {:induction false} InsertedAtOver(was: Entries, read: Entries, key: ResourceKey, response: Response, t: nat,
                                          now: nat, budget: nat, after: Entries)
    requires InsertedAt(read, key, response, t, now, budget, after)
    requires forall j :: j != key ==> (j in was <==> j in read) && (j in was ==> read[j] == was[j])
    ensures InsertedAt(was, key, response, t, now, budget, after)
  {
    hide Evicts, Submap, Footprint;
    var entry := Entry(response, t, now, Footprint(response) + |key|);
    assert read[key := entry] == was[key := entry];
  }

  function Touched(e: Entries, key: ResourceKey, tick: nat): Entries {
    if key in e then e[key := e[key].(touched := tick)] else e
  }

  /** Recency aside, entries are what they were before a read. */
  lemma {:induction false} TripsRead(was: Entries, read: Entries, tick: nat, r: Request, now: nat,
                                     answer: Result<WireResponse, Error>, budget: nat, after: Entries)
    requires read == Touched(was, RequestKey(r), tick) && Trips(read, r, now, answer, budget, after)
    ensures Trips(was, r, now, answer, budget, after)
    ensures RoundTrip(read, r, answer) == RoundTrip(was, r, answer) && Known(read, r) == Known(was, r)
  {
    hide Evicts, Submap, KeyOf, Upper;
    var key := RequestKey(r);
    if answer.Ok? && answer.value.status != 304 {
      InsertedOver(was, read, key, Stored(answer.value), now, budget, after);
    } else {
      assert read.Keys == was.Keys;
    }
  }

  /** The entries are untouched by a call that is refused, or that writes. */
  lemma {:induction false} LeavesWhole(was: Entries, c: Call, budget: nat)
    ensures c.refused.Some? || !Cacheable(c.request) ==> Leaves(was, c, budget, was)
  {}

  /** The stored response is within the caller's window. */
  predicate Covers(e: Entries, c: Call) {
    && Cacheable(c.request) && RequestKey(c.request) in e
    && c.now <= e[RequestKey(c.request)].verifiedAt + c.request.ttl
  }

  /** What is sent, when nothing is, and what a full response to a read leaves. */
  ghost predicate Travels(was: Entries, c: Call, out: Result<Outcome, Error>, sent: Option<Wire>, budget: nat,
                          after: Entries)
  {
    var key := RequestKey(c.request);
    && (sent.None? <==> c.refused.Some? || Covers(was, c))
    && (c.refused.None? && Covers(was, c) ==> out == Ok(Outcome(was[key].response, FreshHit)))
    && (sent.Some? ==> WireOf(was, c.request, sent.value))
    && (sent.Some? && Cacheable(c.request) && c.answer.Ok? && c.answer.value.status != 304 ==>
          Stays(was, key, Stored(c.answer.value), c.now, budget, after))
  }

  lemma {:induction false} CallTravels(was: Entries, c: Call, budget: nat, after: Entries)
    requires Leaves(was, c, budget, after)
    ensures Travels(was, c, Reply(was, c), Sent(was, c), budget, after)
  {
    WireIs(was, c.request);
    hide WireOf, BuildWireRequest, Inserted, Stays, Upper, KeyOf;
    var key := RequestKey(c.request);
    if Sent(was, c).Some? && Cacheable(c.request) && c.answer.Ok? && c.answer.value.status != 304 {
      InsertedStays(was, key, Stored(c.answer.value), c.now, budget, after);
    }
  }

  lemma {:induction false} FullTrip(was: Entries, r: Request, now: nat, answer: WireResponse, budget: nat,
                                    after: Entries)
    requires answer.status != 304 && Inserted(was, RequestKey(r), Stored(answer), now, budget, after)
    ensures Trips(was, r, now, Ok(answer), budget, after)
    ensures RoundTrip(was, r, Ok(answer)) == Ok(Outcome(Stored(answer), Fetched))
  {}

  // ---- The client ------------------------------------------------------------------------------

  class Client {
    const cache: ResponseCache

    constructor (cache: ResponseCache)
      ensures this.cache == cache
    {
      this.cache := cache;
    }

    /** A 304: the body counts as verified now and is served from where it is. */
    method OnNotModified(r: Request, now: nat, ghost answer: WireResponse) returns (out: Result<Outcome, Error>)
      requires cache.Valid() && answer.status == 304
      modifies cache
      ensures cache.Valid() && out == RoundTrip(old(cache.entries), r, Ok(answer))
      ensures Trips(old(cache.entries), r, now, Ok(answer), cache.budget, cache.entries)
    {
      var key := RequestKey(r);
      hide KeyOf, Upper;
      var found := cache.MarkRevalidated(key, now);
      if !found {
        return Err(DanglingRevalidation);
      }
      var hit := cache.Get(key, r.ttl, now);
      out := if hit.None? then Err(DanglingRevalidation) else Ok(Outcome(hit.value.response, NotModified));
    }

    method Store(key: ResourceKey, response: Response, now: nat)
      requires cache.Valid()
      modifies cache
      ensures cache.Valid() && Bytes(cache.entries, cache.entries.Keys) <= cache.budget
      ensures Inserted(old(cache.entries), key, response, now, cache.budget, cache.entries)
      ensures Stays(old(cache.entries), key, response, now, cache.budget, cache.entries)
    {
      hide Evicts, Submap, Bytes, Footprint, InsertedAt, Consistent, Stays;
      ghost var was, tick := cache.entries, cache.tick;
      cache.Insert(key, response, now);
      var dropped := cache.EnforceByteBudget();
      InsertedHere(was, tick, key, response, now, cache.budget, cache.entries);
      InsertedStays(was, key, response, now, cache.budget, cache.entries);
    }

    /** A full response: compared with the last one, stored, and the cache brought back within its budget. */
    method OnResponse(r: Request, now: nat, answer: WireResponse) returns (out: Outcome, changed: bool)
      requires cache.Valid() && answer.status != 304
      modifies cache
      ensures cache.Valid() && Bytes(cache.entries, cache.entries.Keys) <= cache.budget
      ensures Ok(out) == RoundTrip(old(cache.entries), r, Ok(answer))
      ensures Trips(old(cache.entries), r, now, Ok(answer), cache.budget, cache.entries)
      ensures changed == Differs(old(cache.entries), RequestKey(r), answer.body)
    {
      var key := RequestKey(r);
      ghost var was := cache.entries;
      hide RequestKey, Bytes, Inserted, Consistent, Trips, RoundTrip;
      var stored := Stored(answer);
      var prior := cache.Get(key, 0, now);
      changed := prior.None? || prior.value.response.body != stored.body;
      ghost var read := cache.entries;
      Store(key, stored, now);
      InsertedOver(was, read, key, stored, now, cache.budget, cache.entries);
      FullTrip(was, r, now, answer, cache.budget, cache.entries);
      out := Outcome(stored, Fetched);
    }

    /** A failure: the last good body, if there is one. */
    method OnFailure(r: Request, now: nat, error: Error) returns (out: Result<Outcome, Error>)
      requires cache.Valid()
      modifies cache
      ensures cache.Valid() && out == RoundTrip(old(cache.entries), r, Err(error))
      ensures Trips(old(cache.entries), r, now, Err(error), cache.budget, cache.entries)
    {
      var key := RequestKey(r);
      hide KeyOf, Upper;
      var hit := cache.Get(key, 0, now);
      out := if hit.Some? then Ok(Outcome(hit.value.response, StaleOnError)) else Err(error);
    }

    /** One round trip. */
    method Perform(r: Request, now: nat, answer: Result<WireResponse, Error>)
      returns (out: Result<Outcome, Error>, wire: Wire)
      requires cache.Valid()
      modifies cache
      ensures cache.Valid() && wire == BuildWireRequest(r, Known(old(cache.entries), r))
      ensures WireOf(old(cache.entries), r, wire)
      ensures out == RoundTrip(old(cache.entries), r, answer)
      ensures Trips(old(cache.entries), r, now, answer, cache.budget, cache.entries)
    {
      hide KeyOf, Upper, Trips, WireOf;
      WireIs(cache.entries, r);
      var validators := cache.GetValidators(RequestKey(r));
      wire := BuildWireRequest(r, if validators.Some? then validators.value else Validators(None, None));
      if answer.Ok? && answer.value.status == 304 {
        out := OnNotModified(r, now, answer.value);
      } else if answer.Ok? {
        var fetched, changed := OnResponse(r, now, answer.value);
        out := Ok(fetched);
      } else {
        out := OnFailure(r, now, answer.error);
      }
    }

    /** A read: from the cache while it is fresh, otherwise one round trip. */
    method Read(c: Call) returns (out: Result<Outcome, Error>, sent: Option<Wire>)
      requires cache.Valid() && c.refused.None? && Cacheable(c.request)
      modifies cache
      ensures cache.Valid() && out == Reply(old(cache.entries), c) && sent == Sent(old(cache.entries), c)
      ensures Leaves(old(cache.entries), c, cache.budget, cache.entries)
    {
      var r, key := c.request, RequestKey(c.request);
      ghost var was, tick := cache.entries, cache.tick;
      hide Cacheable, BuildWireRequest, Trips, RoundTrip, RequestKey, Consistent;
      var hit := cache.Get(key, r.ttl, c.now);
      if hit.Some? && hit.value.freshness == Fresh {
        return Ok(Outcome(hit.value.response, FreshHit)), None;
      }
      ghost var read := cache.entries;
      var wire;
      out, wire := Perform(r, c.now, c.answer);
      sent := Some(wire);
      TripsRead(was, read, tick, r, c.now, c.answer, cache.budget, cache.entries);
    }

    /** A call answers `Reply`, sends `Sent` and leaves the entries as `Leaves` says. Nothing is sent for a
        refused call or for one whose stored response is within the caller's window, which is then the answer. */
    method Fetch(c: Call) returns (out: Result<Outcome, Error>, sent: Option<Wire>)
      requires cache.Valid()
      modifies cache
      ensures cache.Valid() && out == Reply(old(cache.entries), c) && sent == Sent(old(cache.entries), c)
      ensures Leaves(old(cache.entries), c, cache.budget, cache.entries)
      ensures Travels(old(cache.entries), c, out, sent, cache.budget, cache.entries)
    {
      hide Travels, Leaves;
      ghost var was := cache.entries;
      if c.refused.Some? {
        out, sent := Err(c.refused.value), None;
      } else if Cacheable(c.request) {
        out, sent := Read(c);
      } else {
        sent := Some(BuildWireRequest(c.request, Validators(None, None)));
        out := if c.answer.Ok? then Ok(Outcome(Stored(c.answer.value), Fetched)) else Err(c.answer.error);
        WireIs(was, c.request);
      }
      assert Leaves(was, c, cache.budget, cache.entries) by { LeavesWhole(was, c, cache.budget); }
      CallTravels(was, c, cache.budget, cache.entries);
    }
  }

  // ---- What a call is worth --------------------------------------------------------------------

  /** The upstream answered what was sent honestly. */
  ghost predicate Answered(up: Upstream, was: Entries, c: Call) {
    Sent(was, c).Some? ==> Honest(up(RequestKey(c.request), c.now), Sent(was, c).value, c.answer)
  }

  /** The stored response, its body the upstream's at a moment within the caller's window. */
  ghost predicate Verified(up: Upstream, was: Entries, r: Request, now: nat, response: Response) {
    var key := RequestKey(r);
    && key in was && response == was[key].response
    && was[key].verifiedAt <= now <= was[key].verifiedAt + r.ttl && response.body == up(key, was[key].verifiedAt).body
  }

  /** What the cache promises of an outcome: the body is the upstream's now, or was within the
      caller's window, or it is the last stored one because the upstream failed; and a call fails
      with the upstream's own failure and with nothing stored. Writes are passed through. */
  ghost predicate Conforms(up: Upstream, was: Entries, c: Call, out: Result<Outcome, Error>) {
    var r, key := c.request, RequestKey(c.request);
    if c.refused.Some? then out == Err(c.refused.value)
    else if !Cacheable(r) then
      out == if c.answer.Ok? then Ok(Outcome(Stored(c.answer.value), Fetched)) else Err(c.answer.error)
    else if out.Err? then c.answer.Err? && out.error == c.answer.error && key !in was
    else
      match out.value.disposition
      case FreshHit => Verified(up, was, r, c.now, out.value.response)
      case Fetched => c.answer.Ok? && out.value.response == Stored(up(key, c.now))
      case NotModified => c.answer.Ok? && key in was && out.value.response.body == up(key, c.now).body
      case StaleOnError => c.answer.Err? && key in was && out.value.response == was[key].response
  }

  /** The upstream said "not modified" while its body is not the stored one, or nothing is stored. */
  predicate Misled(up: Upstream, was: Entries, c: Call) {
    var key := RequestKey(c.request);
    && Sent(was, c).Some? && Cacheable(c.request) && c.answer.Ok? && c.answer.value.status == 304
    && !(key in was && was[key].response.body == up(key, c.now).body)
  }

  /** What becomes of the genuine entries depends on the one that was written. */
  lemma {:induction false} OwnEntry(up: Upstream, was: Entries, key: ResourceKey, after: Entries, response: Response,
                                    at: nat, t: nat, now: nat)
    requires AllGenuine(up, was, now) && Others(was, key, after) && (key in after ==> Holds(after, key, response, at))
    requires response == Stored(up(key, t)) && at <= now
    ensures AllGenuine(up, after, now) <==> (key in after ==> response.body == up(key, at).body)
  {
    if key in after {
      assert Genuine(up, key, after[key], now) <==> response.body == up(key, at).body;
    }
  }

  /** A call keeps every promise, and keeps the entries genuine, exactly when it is not misled; one
      misled over nothing stored spoils no entry. */
  lemma {:induction false} CallSound(up: Upstream, was: Entries, c: Call, budget: nat, after: Entries)
    requires AllGenuine(up, was, c.now) && Answered(up, was, c) && Leaves(was, c, budget, after)
    ensures Conforms(up, was, c, Reply(was, c)) <==> !Misled(up, was, c)
    ensures AllGenuine(up, after, c.now) <==> !(Misled(up, was, c) && RequestKey(c.request) in was)
  {
    var key, now := RequestKey(c.request), c.now;
    hide KeyOf, Upper, Cacheable, RequestKey, BuildWireRequest, AllGenuine, Others, Holds, Inserted;
    if c.refused.None? && Cacheable(c.request) {
      if key in was {
        GenuineOf(up, was, key, now);
      }
      if Sent(was, c).Some? && c.answer.Ok? && c.answer.value.status != 304 {
        InsertedLeaves(was, key, Stored(c.answer.value), now, budget, after);
        OwnEntry(up, was, key, after, Stored(c.answer.value), now, now, now);
      } else if key in was {
        var t :| was[key].response == Stored(up(key, t));
        var at := if Sent(was, c).Some? && c.answer.Ok? then now else was[key].verifiedAt;
        OwnEntry(up, was, key, after, was[key].response, at, t, now);
      } else {
        OwnEntry(up, was, key, after, Stored(up(key, 0)), now, 0, now);
      }
    }
  }

  // ---- When a call can be misled ---------------------------------------------------------------

  /** One of the caller's own headers confirms the representation. */
  predicate OwnMatch(r: Request, rep: WireResponse) { exists h :: h in r.headers && Confirms(h, rep) }

  /** A request's own headers leave the conditions to the client. */
  predicate Unconditional(r: Request) { forall h :: h in r.headers ==> h.Other? }

  /** The client's own condition confirms the body it has. */
  lemma {:induction false} MatchConfirms(up: Upstream, r: Request, e: Entry, now: nat)
    requires Identifies(up) && Genuine(up, RequestKey(r), e, now)
    requires Matches(BuildWireRequest(r, e.response.validators), up(RequestKey(r), now)) &&
             !OwnMatch(r, up(RequestKey(r), now))
    ensures e.response.body == up(RequestKey(r), now).body
  {
    var k, v := RequestKey(r), e.response.validators;
    var w := BuildWireRequest(r, v);
    var h :| h in w.headers && Confirms(h, up(k, now));
    assert h !in r.headers;
    var t :| e.response == Stored(up(k, t));
    assert up(k, t).body == e.response.body;
  }

  /** The validator a condition is made from still is the representation's. */
  predicate StillHas(v: Validators, rep: WireResponse) {
    if v.etag.Some? then rep.etag == v.etag else v.lastModified.Some? && rep.lastModified == v.lastModified
  }

  lemma {:induction false} MatchesIff(r: Request, v: Validators, rep: WireResponse)
    ensures Matches(BuildWireRequest(r, v), rep) <==> OwnMatch(r, rep) || (Cacheable(r) && StillHas(v, rep))
  {
    var headers := BuildWireRequest(r, v).headers;
    if Cacheable(r) && (v.etag.Some? || v.lastModified.Some?) {
      var h := headers[|r.headers|];
      assert headers == r.headers + [h];
      assert forall x :: x in headers <==> x in r.headers || x == h;
      assert Confirms(h, rep) <==> StillHas(v, rep);
    } else {
      assert headers == r.headers;
    }
  }

  /** A stale read may honestly be answered with a 304 exactly when the representation still has the stored
      validator, or is one the caller's own headers name; the stored response is then the answer. */
  lemma {:induction false} MayConfirm(up: Upstream, was: Entries, c: Call)
    requires c.refused.None? && Cacheable(c.request) && !Covers(was, c) && c.answer.Ok? && c.answer.value.status == 304
    ensures var key, rep := RequestKey(c.request), up(RequestKey(c.request), c.now);
            Answered(up, was, c) <==>
              OwnMatch(c.request, rep) || (key in was && StillHas(was[key].response.validators, rep))
    ensures RequestKey(c.request) in was ==>
              Reply(was, c) == Ok(Outcome(was[RequestKey(c.request)].response, NotModified))
  {
    hide Upper, KeyOf, BuildWireRequest, Matches, OwnMatch;
    MatchesIff(c.request, Known(was, c.request), up(RequestKey(c.request), c.now));
  }

  lemma {:induction false} OwnMatches(r: Request, v: Validators, rep: WireResponse)
    ensures OwnMatch(r, rep) ==> Matches(BuildWireRequest(r, v), rep)
    ensures Matches(BuildWireRequest(r, Validators(None, None)), rep) ==> OwnMatch(r, rep)
  {
    assert forall h :: h in r.headers ==> h in BuildWireRequest(r, v).headers;
    assert BuildWireRequest(r, Validators(None, None)).headers == r.headers;
  }

  /** An honest answer can mislead the call. */
  ghost predicate CanMislead(up: Upstream, was: Entries, r: Request, now: nat, answer: Result<WireResponse, Error>) {
    Answered(up, was, Call(r, now, None, answer)) && Misled(up, was, Call(r, now, None, answer))
  }

  /** Some honest answer misleads a call exactly when the caller's own header confirms the upstream's
      representation and the stored body is another, or there is none. */
  lemma {:induction false} MisledIff(up: Upstream, was: Entries, r: Request, now: nat)
    requires Identifies(up) && AllGenuine(up, was, now) && Cacheable(r) && !FreshIn(was, r, now)
    ensures (exists answer :: CanMislead(up, was, r, now, answer)) <==>
            OwnMatch(r, up(RequestKey(r), now)) &&
            !(RequestKey(r) in was && was[RequestKey(r)].response.body == up(RequestKey(r), now).body)
  {
    hide KeyOf, Upper, BuildWireRequest, Matches, OwnMatch, AllGenuine;
    var key := RequestKey(r);
    var rep := up(key, now);
    OwnMatches(r, Known(was, r), rep);
    if answer :| CanMislead(up, was, r, now, answer) {
      if key in was {
        GenuineOf(up, was, key, now);
        if !OwnMatch(r, rep) {
          MatchConfirms(up, r, was[key], now);
        }
      }
    }
    if OwnMatch(r, rep) && !(key in was && was[key].response.body == rep.body) {
      assert CanMislead(up, was, r, now, Ok(WireResponse(304, "", None, None, None)));
    }
  }

  /** A request without conditions of its own is never misled. */
  lemma {:induction false} NeverMisled(up: Upstream, was: Entries, c: Call)
    requires Identifies(up) && AllGenuine(up, was, c.now) && Answered(up, was, c) && Unconditional(c.request)
    ensures !Misled(up, was, c)
  {
    if Misled(up, was, c) {
      MisledIff(up, was, c.request, c.now);
      assert CanMislead(up, was, c.request, c.now, c.answer);
    }
  }

  /** An upstream whose first body carries no validator, and whose later one is what `h` confirms. */
  function Drift(h: Header): Upstream {
    (k, t) =>
      if t == 0 then WireResponse(200, "old", None, None, None)
      else WireResponse(200, "new", None,
                        if h.IfNoneMatch? then Some(h.value) else None,
                        if h.IfModifiedSince? then Some(h.value) else None)
  }

  /** The honest upstream confirms the caller's copy, and the client takes it for its own: over a
      stored body it serves the old one as not modified, and over nothing it fails although the
      round trip did not. */
  lemma {:induction false} OwnConditionMisleads(r: Request, h: Header)
    requires Cacheable(r) && h in r.headers && !h.Other?
    ensures var up, key, now := Drift(h), RequestKey(r), r.ttl + 1;
            var was := map[key := Entry(Stored(up(key, 0)), 0, 0, 0)];
            var c := Call(r, now, None, Ok(WireResponse(304, "", None, None, None)));
            && Identifies(up) && AllGenuine(up, was, now) && Answered(up, was, c) && Misled(up, was, c)
            && Reply(was, c) == Ok(Outcome(Response(200, "old", None, Validators(None, None)), NotModified))
            && up(key, now).body == "new"
            && Answered(up, map[], c) && Misled(up, map[], c) && Reply(map[], c) == Err(DanglingRevalidation)
  {
    var up, key, now := Drift(h), RequestKey(r), r.ttl + 1;
    var was: Entries := map[key := Entry(Stored(up(key, 0)), 0, 0, 0)];
    var c := Call(r, now, None, Ok(WireResponse(304, "", None, None, None)));
    hide KeyOf, Upper, Cacheable;
    assert was[key].response == Stored(up(key, 0));
    assert Confirms(h, up(key, now)) && h in BuildWireRequest(r, Known(was, r)).headers;
    assert h in BuildWireRequest(r, Known(map[], r)).headers;
  }

  /** No honest upstream whose validators identify its bodies can mislead the request, whatever is stored. */
  ghost predicate Trusted(r: Request) {
    forall up: Upstream, was: Entries, c: Call ::
      c.request == r && Identifies(up) && AllGenuine(up, was, c.now) && Answered(up, was, c) ==> !Misled(up, was, c)
  }

  lemma {:induction false} TrustedIff(r: Request)
    ensures Trusted(r) <==> !Cacheable(r) || Unconditional(r)
  {
    if Cacheable(r) && !Unconditional(r) {
      var h :| h in r.headers && !h.Other?;
      OwnConditionMisleads(r, h);
      assert AllGenuine(Drift(h), map[], r.ttl + 1);
    } else {
      forall up: Upstream, was: Entries, c: Call
        | c.request == r && Identifies(up) && AllGenuine(up, was, c.now) && Answered(up, was, c)
        ensures !Misled(up, was, c)
      {
        if Cacheable(r) {
          NeverMisled(up, was, c);
        }
      }
    }
  }

  // ---- A run of calls --------------------------------------------------------------------------

  ghost predicate StepAt(up: Upstream, budget: nat, states: seq<Entries>, calls: seq<Call>, i: nat)
    requires i < |calls| && |states| == |calls| + 1
  {
    && Answered(up, states[i], calls[i]) && Leaves(states[i], calls[i], budget, states[i + 1])
    && (i > 0 ==> calls[i - 1].now <= calls[i].now)
  }

  /** Calls one after the other, at growing times, to an upstream that answers honestly. */
  ghost predicate Run(up: Upstream, budget: nat, states: seq<Entries>, calls: seq<Call>) {
    |states| == |calls| + 1 && forall i :: 0 <= i < |calls| ==> StepAt(up, budget, states, calls, i)
  }

  ghost predicate Kept(up: Upstream, states: seq<Entries>, calls: seq<Call>, i: nat)
    requires i < |calls| && |states| == |calls| + 1
  {
    Conforms(up, states[i], calls[i], Reply(states[i], calls[i]))
  }

  lemma {:induction false} RunGenuine(up: Upstream, budget: nat, states: seq<Entries>, calls: seq<Call>, i: nat)
    requires Run(up, budget, states, calls) && i < |calls| && AllGenuine(up, states[0], calls[0].now)
    requires forall j :: 0 <= j < i ==> !Misled(up, states[j], calls[j])
    ensures AllGenuine(up, states[i], calls[i].now)
  {
    if i > 0 {
      RunGenuine(up, budget, states, calls, i - 1);
      assert StepAt(up, budget, states, calls, i - 1) && StepAt(up, budget, states, calls, i);
      CallSound(up, states[i - 1], calls[i - 1], budget, states[i]);
      GenuineLater(up, states[i], calls[i - 1].now, calls[i].now);
    }
  }

  /** Over any run that starts from genuine entries, every answer keeps the promises exactly when no call is misled. */
  lemma {:induction false} RunSound(up: Upstream, budget: nat, states: seq<Entries>, calls: seq<Call>)
    requires Run(up, budget, states, calls) && (calls == [] || AllGenuine(up, states[0], calls[0].now))
    ensures (forall i :: 0 <= i < |calls| ==> Kept(up, states, calls, i)) <==>
            (forall i :: 0 <= i < |calls| ==> !Misled(up, states[i], calls[i]))
  {
    hide Conforms, Reply, Misled, Leaves, Answered, AllGenuine;
    if i :| 0 <= i < |calls| && Misled(up, states[i], calls[i]) {
      var n := FirstMisled(up, states, calls, i);
      RunGenuine(up, budget, states, calls, n);
      assert StepAt(up, budget, states, calls, n);
      CallSound(up, states[n], calls[n], budget, states[n + 1]);
      assert !Kept(up, states, calls, n);
    } else {
      forall i | 0 <= i < |calls| ensures Kept(up, states, calls, i) {
        RunGenuine(up, budget, states, calls, i);
        assert StepAt(up, budget, states, calls, i);
        CallSound(up, states[i], calls[i], budget, states[i + 1]);
      }
    }
  }

  ghost function FirstMisled(up: Upstream, states: seq<Entries>, calls: seq<Call>, i: nat): (n: nat)
    requires i < |calls| && |states| == |calls| + 1 && Misled(up, states[i], calls[i])
    ensures n <= i && Misled(up, states[n], calls[n]) && forall j :: 0 <= j < n ==> !Misled(up, states[j], calls[j])
  {
    if j :| 0 <= j < i && Misled(up, states[j], calls[j]) then FirstMisled(up, states, calls, j) else i
  }

  /** While callers of reads leave the conditions to the client, every answer of every run keeps the promises. */
  lemma {:induction false} RunKept(up: Upstream, budget: nat, states: seq<Entries>, calls: seq<Call>)
    requires Run(up, budget, states, calls) && (calls == [] || AllGenuine(up, states[0], calls[0].now)) &&
             Identifies(up)
    requires forall i :: 0 <= i < |calls| ==> !Cacheable(calls[i].request) || Unconditional(calls[i].request)
    ensures forall i :: 0 <= i < |calls| ==> Kept(up, states, calls, i)
  {
    if i :| 0 <= i < |calls| && Misled(up, states[i], calls[i]) {
      var n := FirstMisled(up, states, calls, i);
      RunGenuine(up, budget, states, calls, n);
      assert StepAt(up, budget, states, calls, n);
      assert Cacheable(calls[n].request);
      NeverMisled(up, states[n], calls[n]);
    }
    RunSound(up, budget, states, calls);
  }
}
