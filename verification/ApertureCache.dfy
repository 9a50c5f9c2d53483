/** The shared response cache: keys, recency, and the byte budget. */
module ApertureCache {
  import opened Prelude

  // ---- Keys ---------------------------------------------------------------------------------

  /** Who may share an answer. Principals are named by the bytes of their id. */
  datatype CacheScope = Public | App | Principal(id: string)

  type ResourceKey = string

  const Nul: char := 0 as char

  function Tag(scope: CacheScope): string {
    match scope
    case Public => "public"
    case App => "app"
    case Principal(id) => "user:" + Decimal(|id|) + ":" + id
  }

  function UpperChar(c: char): char { if 'a' <= c <= 'z' then (c as int - 32) as char else c }

  function Upper(s: string): string { if s == "" then "" else [UpperChar(s[0])] + Upper(s[1..]) }

  /** `t` is `s` with its letters a to z raised. */
  predicate Raised(s: string, t: string) {
    |t| == |s| && forall i :: 0 <= i < |s| ==> t[i] == if 'a' <= s[i] <= 'z' then s[i] - 'a' + 'A' else s[i]
  }

  lemma {:induction false} UpperRaised(s: string)
    ensures Raised(s, Upper(s))
  {
    if s != "" {
      UpperRaised(s[1..]);
      forall i | 0 <= i < |s| ensures Upper(s)[i] == UpperChar(s[i]) {
        if i > 0 {
          assert s[i] == s[1..][i - 1];
        }
      }
    }
  }

  function KeyOf(method': string, url: string, scope: CacheScope): ResourceKey {
    Upper(method') + [Nul] + (url + [Nul] + Tag(scope))
  }

  lemma {:induction false} UpperPlain(s: string)
    requires Nul !in s
    ensures Nul !in Upper(s)
  {
    if s != "" {
      assert s[0] in s;
      UpperPlain(s[1..]);
    }
  }

  lemma {:induction false} TagHead(s: CacheScope)
    ensures |Tag(s)| > 0 && Tag(s)[0] == if s.Public? then 'p' else if s.App? then 'a' else 'u'
  {}

  lemma {:induction false} TagInjective(a: CacheScope, b: CacheScope)
    requires Tag(a) == Tag(b)
    ensures a == b
  {
    TagHead(a);
    TagHead(b);
    if a.Principal? {
      var x, y := Decimal(|a.id|), Decimal(|b.id|);
      DecimalDigits(|a.id|);
      DecimalDigits(|b.id|);
      assert Tag(a)[5..] == x + ":" + a.id && Tag(b)[5..] == y + ":" + b.id;
      SplitOnce(x, a.id, y, b.id, ':');
    }
  }

  /** The second address is the first with the start of its audience's tag drawn into it. */
  ghost predicate Absorbs(u: string, s: CacheScope, u': string, s': CacheScope) {
    exists p :: AbsorbsBy(p, u, s, u', s')
  }

  predicate AbsorbsBy(p: string, u: string, s: CacheScope, u': string, s': CacheScope) {
    u' == u + [Nul] + p && Tag(s) == p + [Nul] + Tag(s')
  }

  lemma {:induction false} TailsAbsorb(u: string, s: CacheScope, u': string, s': CacheScope)
    requires u + [Nul] + Tag(s) == u' + [Nul] + Tag(s') && |u| < |u'|
    ensures Absorbs(u, s, u', s')
  {
    hide Tag;
    SplitLater(u, Tag(s), u', Tag(s'), Nul);
    assert AbsorbsBy(u'[|u| + 1..], u, s, u', s');
  }

  /** While no method holds the separator, two requests share a key when they are alike or one address absorbs. */
  lemma {:induction false} KeysEqual(m: string, u: string, s: CacheScope, m': string, u': string, s': CacheScope)
    requires Nul !in m && Nul !in m'
    ensures KeyOf(m, u, s) == KeyOf(m', u', s') <==>
            Upper(m) == Upper(m') && ((u == u' && s == s') || Absorbs(u, s, u', s') || Absorbs(u', s', u, s))
  {
    hide Tag, Upper;
    UpperPlain(m);
    UpperPlain(m');
    var left, right := u + [Nul] + Tag(s), u' + [Nul] + Tag(s');
    assert left == u + ([Nul] + Tag(s)) && right == u' + ([Nul] + Tag(s'));
    if KeyOf(m, u, s) == KeyOf(m', u', s') {
      SplitOnce(Upper(m), left, Upper(m'), right, Nul);
      if |u| < |u'| {
        TailsAbsorb(u, s, u', s');
      } else if |u'| < |u| {
        TailsAbsorb(u', s', u, s);
      } else {
        SplitEven(u, Tag(s), u', Tag(s'), Nul);
        TagInjective(s, s');
      }
    } else if Absorbs(u, s, u', s') {
      var p :| AbsorbsBy(p, u, s, u', s');
      assert right == u + [Nul] + (p + [Nul] + Tag(s')) == left;
    } else if Absorbs(u', s', u, s) {
      var p :| AbsorbsBy(p, u', s', u, s);
      assert left == u' + [Nul] + (p + [Nul] + Tag(s)) == right;
    }
  }

  /** It takes a principal whose id holds the separator, and an address that holds it too. */
  lemma {:induction false} AbsorbsIds(u: string, s: CacheScope, u': string, s': CacheScope)
    requires Absorbs(u, s, u', s')
    ensures s.Principal? && Nul in s.id && Nul in u'
  {
    var p :| AbsorbsBy(p, u, s, u', s');
    assert u'[|u|] == Nul && Tag(s)[|p|] == Nul;
    if s.Principal? {
      DecimalDigits(|s.id|);
      var front := "user:" + Decimal(|s.id|) + ":";
      assert Tag(s) == front + s.id && Nul !in front;
      assert Tag(s)[|p|] == s.id[|p| - |front|];
    }
  }

  /** Such an address and such a principal, for every method and address. */
  lemma {:induction false} KeysMeet(m: string, u: string)
    ensures KeyOf(m, u + [Nul] + "user:8:x", Public) == KeyOf(m, u, Principal("x" + [Nul] + "public"))
  {
    var id := "x" + [Nul] + "public";
    assert |id| == 8 && Decimal(8) == "8";
    assert Tag(Principal(id)) == "user:8:x" + [Nul] + "public";
    assert (u + [Nul] + "user:8:x") + [Nul] + "public" == u + [Nul] + ("user:8:x" + [Nul] + "public");
  }

  // ---- Entries -------------------------------------------------------------------------------

  datatype Validators = Validators(etag: Option<string>, lastModified: Option<string>)

  datatype Response = Response(status: nat, body: string, contentType: Option<string>, validators: Validators)

  datatype Entry = Entry(response: Response, touched: nat, verifiedAt: nat, footprint: nat)

  datatype Freshness = Fresh | Stale

  datatype Hit = Hit(response: Response, freshness: Freshness, age: nat)

  function Length(s: Option<string>): nat { if s.Some? then |s.value| else 0 }

  function Footprint(r: Response): nat {
    |r.body| + Length(r.contentType) + Length(r.validators.etag) + Length(r.validators.lastModified)
  }

  type Entries = map<ResourceKey, Entry>

  /** Bytes held under some of the keys. */
  ghost function Bytes(e: Entries, ks: set<ResourceKey>): nat
    requires ks <= e.Keys
    decreases |ks|
  {
    if ks == {} then 0 else var k :| k in ks; e[k].footprint + Bytes(e, ks - {k})
  }

  lemma {:induction false} BytesMinus(e: Entries, ks: set<ResourceKey>, k: ResourceKey)
    requires ks <= e.Keys && k in ks
    ensures Bytes(e, ks) == e[k].footprint + Bytes(e, ks - {k})
    decreases |ks|
  {
    var j :| j in ks && Bytes(e, ks) == e[j].footprint + Bytes(e, ks - {j});
    if j != k {
      BytesMinus(e, ks - {j}, k);
      BytesMinus(e, ks - {k}, j);
      assert ks - {j} - {k} == ks - {k} - {j};
    }
  }

  lemma {:induction false} BytesWithin(e: Entries, a: set<ResourceKey>, b: set<ResourceKey>)
    requires a <= b <= e.Keys
    ensures Bytes(e, a) <= Bytes(e, b)
    decreases |b|
  {
    if a != b {
      var k :| k in b && k !in a;
      BytesMinus(e, b, k);
      BytesWithin(e, a, b - {k});
    }
  }

  /** Recency is a strict order and the clock of it is ahead; footprints are what they say. */
  ghost predicate Consistent(e: Entries, tick: nat) {
    && (forall k :: k in e ==> e[k].touched < tick && e[k].footprint == Footprint(e[k].response) + |k|)
    && (forall j, k :: j in e && k in e && e[j].touched == e[k].touched ==> j == k)
  }

  /** `kept` is what is left when exactly the shortest least-recently-used prefix that brings the
      total within the budget is dropped. */
  ghost predicate Evicts(e: Entries, budget: nat, kept: set<ResourceKey>) {
    && kept <= e.Keys && Bytes(e, kept) <= budget
    && (forall d, k :: d in e && d !in kept && k in kept ==> e[d].touched < e[k].touched)
    && (kept == e.Keys || exists d :: Newest(e, kept, d) && Bytes(e, kept + {d}) > budget)
  }

  /** `d` is the last one dropped. */
  ghost predicate Newest(e: Entries, kept: set<ResourceKey>, d: ResourceKey) {
    d in e && d !in kept && forall x :: x in e && x !in kept ==> e[x].touched <= e[d].touched
  }

  lemma {:induction false} EvictsNested(e: Entries, budget: nat, a: set<ResourceKey>, b: set<ResourceKey>)
    requires Evicts(e, budget, a) && Evicts(e, budget, b)
    ensures a <= b
  {
    if x :| x in a && x !in b {
      var d :| Newest(e, b, d) && Bytes(e, b + {d}) > budget;
      assert e[x].touched <= e[d].touched;
      forall k | k in b + {d} ensures k in a {
        assert e[x].touched <= e[k].touched;
      }
      BytesWithin(e, b + {d}, a);
    }
  }

  /** There is only one such set: the evictions are determined. */
  lemma {:induction false} EvictsUnique(e: Entries, budget: nat, a: set<ResourceKey>, b: set<ResourceKey>)
    requires Evicts(e, budget, a) && Evicts(e, budget, b)
    ensures a == b
  {
    EvictsNested(e, budget, a, b);
    EvictsNested(e, budget, b, a);
  }

  /** The most recent entry is dropped only when it does not fit by itself. */
  lemma {:induction false} NewestKept(e: Entries, budget: nat, kept: set<ResourceKey>, k: ResourceKey)
    requires Evicts(e, budget, kept) && k in e && forall j :: j in e && j != k ==> e[j].touched < e[k].touched
    ensures k in kept <==> e[k].footprint <= budget
  {
    BytesMinus(e, {k}, k);
    assert {k} - {k} == {} && Bytes(e, {}) == 0;
    if k in kept {
      BytesWithin(e, {k}, kept);
    } else {
      assert kept <= e.Keys && kept == {};
      var d :| Newest(e, kept, d) && Bytes(e, kept + {d}) > budget;
      assert d == k;
      assert kept + {d} == {k};
    }
  }

  class ResponseCache {
    var entries: Entries
    var tick: nat
    const budget: nat

    ghost predicate Valid() reads this { Consistent(entries, tick) }

    constructor (budget: nat)
      ensures Valid() && entries == map[] && this.budget == budget
    {
      this.budget, entries, tick := budget, map[], 0;
    }

    /** A read makes the entry the most recent, and judges it against the caller's own window. */
    method Get(key: ResourceKey, ttl: nat, now: nat) returns (r: Option<Hit>)
      requires Valid()
      modifies this
      ensures Valid() && r.Some? == (key in old(entries))
      ensures entries == if key in old(entries) then old(entries)[key := old(entries)[key].(touched := old(tick))]
              else old(entries)
      ensures r.Some? ==>
              r.value.response == old(entries)[key].response &&
              (r.value.freshness.Fresh? <==> now <= old(entries)[key].verifiedAt + ttl)
      ensures r.Some? && now >= old(entries)[key].verifiedAt ==> old(entries)[key].verifiedAt + r.value.age == now
    {
      if key !in entries {
        return None;
      }
      var entry := entries[key];
      entries := entries[key := entry.(touched := tick)];
      tick := tick + 1;
      var age := if now > entry.verifiedAt then now - entry.verifiedAt else 0;
      r := Some(Hit(entry.response, if age <= ttl then Fresh else Stale, age));
    }

    /** Building a conditional request is not a use. */
    method GetValidators(key: ResourceKey) returns (r: Option<Validators>)
      ensures r == if key in entries then Some(entries[key].response.validators) else None
    {
      r := if key in entries then Some(entries[key].response.validators) else None;
    }

    method Insert(key: ResourceKey, response: Response, now: nat)
      requires Valid()
      modifies this
      ensures Valid() && entries == old(entries)[key := Entry(response, old(tick), now, Footprint(response) + |key|)]
    {
      entries := entries[key := Entry(response, tick, now, Footprint(response) + |key|)];
      tick := tick + 1;
    }

    /** A confirmed body: the freshness clock starts again and nothing else changes. */
    method MarkRevalidated(key: ResourceKey, now: nat) returns (found: bool)
      requires Valid()
      modifies this
      ensures Valid() && found == (key in old(entries))
      ensures entries == if found then old(entries)[key := old(entries)[key].(touched := old(tick), verifiedAt := now)]
              else old(entries)
    {
      if key !in entries {
        return false;
      }
      entries := entries[key := entries[key].(touched := tick, verifiedAt := now)];
      tick := tick + 1;
      found := true;
    }

    method ResidentBytes() returns (total: nat)
      ensures total == Bytes(entries, entries.Keys)
    {
      total := 0;
      var left := entries.Keys;
      while left != {}
        invariant left <= entries.Keys && total + Bytes(entries, left) == Bytes(entries, entries.Keys)
        decreases left
      {
        var k :| k in left;
        BytesMinus(entries, left, k);
        total := total + entries[k].footprint;
        left := left - {k};
      }
    }

    /** Drops the least recently used until the rest fits. */
    method EnforceByteBudget() returns (dropped: nat)
      requires Valid()
      modifies this`entries
      ensures Valid() && Evicts(old(entries), budget, entries.Keys)
      ensures Submap(entries, old(entries))
      ensures Bytes(entries, entries.Keys) <= budget && dropped == |old(entries)| - |entries|
    {
      ghost var was := entries;
      hide Bytes, Evicts, Consistent, Dropping, Suffix, Ascending, BytesFrom, Submap;
      var total := ResidentBytes();
      if total <= budget {
        NothingDropped(entries, budget);
        return 0;
      }
      var candidates := SortedByTouch(entries, tick);
      BytesFromAll(was, candidates);
      Undropped(was, candidates);
      dropped := 0;
      while dropped < |candidates| && total > budget
        invariant 0 <= dropped <= |candidates| && Dropping(was, candidates, entries, dropped)
        invariant total == BytesFrom(was, candidates, dropped)
        invariant dropped > 0 ==> BytesFrom(was, candidates, dropped - 1) > budget
      {
        DropOne(was, candidates, entries, dropped);
        var key := candidates[dropped];
        total := if total > entries[key].footprint then total - entries[key].footprint else 0;
        entries := entries - {key};
        dropped := dropped + 1;
      }
      Dropped(was, budget, candidates, entries, dropped);
      DroppedRest(was, budget, entries, candidates, dropped, tick);
    }
  }

  /** Bytes under the candidates from the `n`th on. */
  ghost function BytesFrom(e: Entries, s: seq<ResourceKey>, n: nat): nat
    requires n <= |s|
    decreases |s| - n
  {
    if n == |s| then 0 else (if s[n] in e then e[s[n]].footprint else 0) + BytesFrom(e, s, n + 1)
  }

  lemma {:induction false} BytesFromIs(e: Entries, s: seq<ResourceKey>, n: nat)
    requires Ascending(e, s) && n <= |s|
    ensures Suffix(s, n) <= e.Keys && BytesFrom(e, s, n) == Bytes(e, Suffix(s, n))
    decreases |s| - n
  {
    if n < |s| {
      assert Distinct(s) by { assert forall i, j :: 0 <= i < j < |s| ==> e[s[i]].touched < e[s[j]].touched; }
      SuffixStep(s, n);
      BytesFromIs(e, s, n + 1);
      BytesMinus(e, Suffix(s, n), s[n]);
    }
  }

  lemma {:induction false} BytesFromAll(e: Entries, s: seq<ResourceKey>)
    requires Ascending(e, s) && Suffix(s, 0) == e.Keys
    ensures BytesFrom(e, s, 0) == Bytes(e, e.Keys)
  {
    BytesFromIs(e, s, 0);
  }

  /** The first `n` candidates are gone, and nothing else is. */
  ghost predicate Dropping(was: Entries, s: seq<ResourceKey>, e: Entries, n: nat)
    requires n <= |s|
  {
    forall k :: (k in e <==> k in was && k !in s[..n]) && (k in e ==> e[k] == was[k])
  }

  lemma {:induction false} Undropped(was: Entries, s: seq<ResourceKey>)
    ensures Dropping(was, s, was, 0)
  {}

  lemma {:induction false} DropOne(was: Entries, s: seq<ResourceKey>, e: Entries, n: nat)
    requires n < |s| && Ascending(was, s) && Dropping(was, s, e, n)
    ensures s[n] in e && BytesFrom(was, s, n) == e[s[n]].footprint + BytesFrom(was, s, n + 1)
    ensures Dropping(was, s, e - {s[n]}, n + 1)
  {
    assert Distinct(s) by { assert forall i, j :: 0 <= i < j < |s| ==> was[s[i]].touched < was[s[j]].touched; }
    assert forall k :: k in s[..n + 1] <==> k in s[..n] || k == s[n];
    assert s[n] !in s[..n];
  }

  lemma {:induction false} Dropped(was: Entries, budget: nat, s: seq<ResourceKey>, e: Entries, n: nat)
    requires n <= |s| && Ascending(was, s) && Suffix(s, 0) == was.Keys && Dropping(was, s, e, n)
    requires (n == |s| || BytesFrom(was, s, n) <= budget) && (n > 0 ==> BytesFrom(was, s, n - 1) > budget)
    ensures Evicts(was, budget, e.Keys) && n == |was| - |e|
  {
    AscendingDistinct(was, s);
    LeftKeys(was, s, e, n);
    BytesFromIs(was, s, n);
    if n > 0 {
      BytesFromIs(was, s, n - 1);
      SuffixStep(s, n - 1);
      SuffixLast(s, n);
      assert s[n - 1] in was;
    }
    SuffixEvicts(was, budget, s, n);
  }

  lemma {:induction false} AscendingDistinct(e: Entries, s: seq<ResourceKey>)
    requires Ascending(e, s)
    ensures Distinct(s)
  {
    assert forall i, j :: 0 <= i < j < |s| ==> e[s[i]].touched < e[s[j]].touched;
  }

  lemma {:induction false} SuffixLast(s: seq<ResourceKey>, n: nat)
    requires 0 < n <= |s|
    ensures Suffix(s, n - 1) == Suffix(s, n) + {s[n - 1]}
  {}

  lemma {:induction false} DroppedRest(was: Entries, budget: nat, e: Entries, s: seq<ResourceKey>, n: nat, tick: nat)
    requires n <= |s| && Dropping(was, s, e, n) && Consistent(was, tick) && Evicts(was, budget, e.Keys)
    ensures Consistent(e, tick) && Bytes(e, e.Keys) <= budget && Submap(e, was)
  {
    assert Submap(e, was);
    ConsistentWithin(was, e, tick);
    SameBytes(was, e, e.Keys);
  }

  lemma {:induction false} ConsistentWithin(was: Entries, e: Entries, tick: nat)
    requires Consistent(was, tick) && Submap(e, was)
    ensures Consistent(e, tick)
  {}

  lemma {:induction false} NothingDropped(e: Entries, budget: nat)
    requires Bytes(e, e.Keys) <= budget
    ensures Evicts(e, budget, e.Keys) && Submap(e, e)
  {}

  lemma {:induction false} LeftKeys(was: Entries, s: seq<ResourceKey>, e: Entries, n: nat)
    requires n <= |s| && Distinct(s) && Suffix(s, 0) == was.Keys && Dropping(was, s, e, n)
    ensures e.Keys == Suffix(s, n) && n == |was| - |e|
  {
    forall k ensures k in e.Keys <==> k in Suffix(s, n) {
      if k in was {
        assert k in Suffix(s, 0);
        var i :| 0 <= i < |s| && s[i] == k;
        assert i < n ==> s[..n][i] == k;
      } else {
        assert k !in Suffix(s, 0);
      }
    }
    SuffixSize(s, n);
    SuffixSize(s, 0);
    assert |e| == |e.Keys| && |was| == |was.Keys|;
  }

  lemma {:induction false} SuffixSize(s: seq<ResourceKey>, n: nat)
    requires n <= |s| && Distinct(s)
    ensures |Suffix(s, n)| == |s| - n
    decreases |s| - n
  {
    if n < |s| {
      SuffixStep(s, n);
      SuffixSize(s, n + 1);
    } else {
      assert Suffix(s, n) == {};
    }
  }

  ghost predicate Submap(e: Entries, f: Entries) { forall k :: k in e ==> k in f && e[k] == f[k] }

  predicate Distinct(s: seq<ResourceKey>) { forall i, j :: 0 <= i < j < |s| ==> s[i] != s[j] }

  lemma {:induction false} SameBytes(e: Entries, f: Entries, ks: set<ResourceKey>)
    requires ks <= e.Keys && ks <= f.Keys && forall k :: k in ks ==> e[k] == f[k]
    ensures Bytes(e, ks) == Bytes(f, ks)
    decreases |ks|
  {
    if ks != {} {
      var k :| k in ks;
      BytesMinus(e, ks, k);
      BytesMinus(f, ks, k);
      SameBytes(e, f, ks - {k});
    }
  }

  // ---- Recency order -------------------------------------------------------------------------------

  ghost predicate Ascending(e: Entries, s: seq<ResourceKey>) {
    && (forall i :: 0 <= i < |s| ==> s[i] in e)
    && (forall i, j :: 0 <= i < j < |s| ==> e[s[i]].touched < e[s[j]].touched)
  }

  ghost function Suffix(s: seq<ResourceKey>, n: nat): set<ResourceKey>
    requires n <= |s|
  {
    set i | n <= i < |s| :: s[i]
  }

  method Oldest(e: Entries, ks: set<ResourceKey>) returns (k: ResourceKey)
    requires ks != {} && ks <= e.Keys
    ensures k in ks && forall j :: j in ks ==> e[k].touched <= e[j].touched
  {
    k :| k in ks;
    var left := ks - {k};
    while left != {}
      invariant left <= ks && k in ks && forall j :: j in ks && j !in left ==> e[k].touched <= e[j].touched
      decreases left
    {
      var j :| j in left;
      if e[j].touched < e[k].touched {
        k := j;
      }
      left := left - {j};
    }
  }

  /** A snapshot of the keys, least recently used first. */
  method SortedByTouch(e: Entries, ghost tick: nat) returns (s: seq<ResourceKey>)
    requires Consistent(e, tick)
    ensures Ascending(e, s) && Suffix(s, 0) == e.Keys
  {
    s := [];
    var left := e.Keys;
    SortingStart(e);
    while left != {}
      invariant left <= e.Keys && Sorting(e, s, left)
      decreases left
    {
      var k := Oldest(e, left);
      SortingStep(e, tick, s, left, k);
      s := s + [k];
      left := left - {k};
    }
  }

  /** `s` holds everything outside `left`, in order, and all of it is older. */
  ghost predicate Sorting(e: Entries, s: seq<ResourceKey>, left: set<ResourceKey>) {
    && Ascending(e, s) && (forall k :: k in e <==> k in left || k in s)
    && forall j, k :: j in s && k in left ==> Older(e, j, k)
  }

  predicate Older(e: Entries, j: ResourceKey, k: ResourceKey) { j in e && k in e && e[j].touched < e[k].touched }

  lemma {:induction false} SortingStart(e: Entries)
    ensures Sorting(e, [], e.Keys)
  {}

  lemma {:induction false} SortingStep(e: Entries, tick: nat, s: seq<ResourceKey>, left: set<ResourceKey>,
                                       k: ResourceKey)
    requires Consistent(e, tick) && Sorting(e, s, left) && left <= e.Keys && k in left && forall j :: j in left ==>
             e[k].touched <= e[j].touched
    ensures Sorting(e, s + [k], left - {k})
  {
    assert forall j :: j in left && j != k ==> Older(e, k, j);
    assert forall j :: j in s + [k] <==> j in s || j == k;
    assert forall i :: 0 <= i < |s| ==> s[i] in s && Older(e, s[i], k);
  }

  lemma {:induction false} SuffixStep(s: seq<ResourceKey>, n: nat)
    requires n < |s| && Distinct(s)
    ensures Suffix(s, n + 1) == Suffix(s, n) - {s[n]} && s[n] in Suffix(s, n)
  {}

  lemma {:induction false} SuffixEvicts(e: Entries, budget: nat, s: seq<ResourceKey>, n: nat)
    requires Ascending(e, s) && Suffix(s, 0) == e.Keys && n <= |s|
    requires Suffix(s, n) <= e.Keys && Bytes(e, Suffix(s, n)) <= budget
    requires n > 0 ==> s[n - 1] in e && Bytes(e, Suffix(s, n) + {s[n - 1]}) > budget
    ensures Evicts(e, budget, Suffix(s, n))
  {
    forall d, k | d in e && d !in Suffix(s, n) && k in Suffix(s, n) ensures e[d].touched < e[k].touched {
      assert d in Suffix(s, 0);
      var i :| 0 <= i < |s| && s[i] == d;
      var j :| n <= j < |s| && s[j] == k;
    }
    if n > 0 {
      assert Newest(e, Suffix(s, n), s[n - 1]) by {
        forall x | x in e && x !in Suffix(s, n) ensures e[x].touched <= e[s[n - 1]].touched {
          assert x in Suffix(s, 0);
          var i :| 0 <= i < |s| && s[i] == x;
        }
      }
    }
  }
}
