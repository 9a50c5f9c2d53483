/** The incremental cache: what a change to some files invalidates. */
module Invalidation {
  import opened Prelude

  type Id = nat
  type Path = string

  datatype Reason = FileChanged | DependencyChanged | NewComponent | Deleted

  datatype Analysis = Analysis(component: Id, time: real, fileHash: nat)

  type Needs = map<Id, set<Id>>

  /** Who needs `id`. */
  function DependentsOf(needs: Needs, id: Id): set<Id> { set k | k in needs && id in needs[k] }

  // ---- How far an invalidation spreads --------------------------------------------------------

  ghost predicate Link(needs: Needs, known: set<Id>, a: Id, b: Id) { b in DependentsOf(needs, a) && b !in known }

  /** From each component to one that needs it, through components outside `known`. */
  ghost predicate Route(needs: Needs, known: set<Id>, p: seq<Id>) {
    p != [] && forall i :: 0 <= i < |p| - 1 ==> Link(needs, known, p[i], p[i + 1])
  }

  ghost predicate Spreads(needs: Needs, known: set<Id>, from: Id, to: Id) {
    exists p :: Route(needs, known, p) && p[0] == from && p[|p| - 1] == to
  }

  lemma {:induction false} SpreadsSelf(needs: Needs, known: set<Id>, id: Id)
    ensures Spreads(needs, known, id, id)
  {
    assert Route(needs, known, [id]) && [id][0] == id;
  }

  lemma {:induction false} SpreadsFirst(needs: Needs, known: set<Id>, more: set<Id>, id: Id, d: Id, to: Id)
    requires known <= more && d in DependentsOf(needs, id) && d !in known && Spreads(needs, more, d, to)
    ensures Spreads(needs, known, id, to)
  {
    var p :| Route(needs, more, p) && p[0] == d && p[|p| - 1] == to;
    var q := [id] + p;
    forall i | 0 <= i < |q| - 1 ensures Link(needs, known, q[i], q[i + 1]) {
      if i > 0 {
        assert Link(needs, more, p[i - 1], p[i - 1 + 1]);
      }
    }
    assert Route(needs, known, q) && q[0] == id && q[|q| - 1] == to;
  }

  lemma {:induction false} SpreadsFewer(needs: Needs, known: set<Id>, more: set<Id>, id: Id, to: Id)
    requires known <= more && Spreads(needs, more, id, to)
    ensures Spreads(needs, known, id, to)
  {
    var p :| Route(needs, more, p) && p[0] == id && p[|p| - 1] == to;
    forall i | 0 <= i < |p| - 1 ensures Link(needs, known, p[i], p[i + 1]) {
      assert Link(needs, more, p[i], p[i + 1]);
    }
    assert Route(needs, known, p);
  }

  /** Where the dependents of whatever is new are in too, everything a route leads to is in. */
  lemma {:induction false} RouteInside(needs: Needs, known: set<Id>, in': set<Id>, p: seq<Id>)
    requires Route(needs, known, p) && p[0] in in' && DependentsOf(needs, p[0]) <= in'
    requires forall x :: x in in' && x !in known ==> DependentsOf(needs, x) <= in'
    ensures p[|p| - 1] in in'
    decreases |p|
  {
    if |p| > 1 {
      assert Link(needs, known, p[0], p[0 + 1]);
      var q := p[1..];
      forall i | 0 <= i < |q| - 1 ensures Link(needs, known, q[i], q[i + 1]) {
        assert Link(needs, known, p[i + 1], p[i + 1 + 1]);
      }
      RouteInside(needs, known, in', q);
    }
  }

  lemma {:induction false} SpreadInside(needs: Needs, known: set<Id>, in': set<Id>, from: Id, to: Id)
    requires Spreads(needs, known, from, to) && from in in' && DependentsOf(needs, from) <= in'
    requires forall x :: x in in' && x !in known ==> DependentsOf(needs, x) <= in'
    ensures to in in'
  {
    var p :| Route(needs, known, p) && p[0] == from && p[|p| - 1] == to;
    RouteInside(needs, known, in', p);
  }

  // ---- One component -------------------------------------------------------------------------------

  /** Between `v` and `w`: what was invalid keeps its reason, what is new became so through a
      dependency, `id` apart. */
  ghost predicate Marked(v: map<Id, Reason>, w: map<Id, Reason>, id: Id, reason: Reason) {
    && (forall x :: x in v ==> x in w) && id in w && w[id] == reason
    && forall x :: x in w && x != id ==> w[x] == if x in v then v[x] else DependencyChanged
  }

  /** Nothing new is left with a dependent outside. */
  ghost predicate Closed(needs: Needs, known: set<Id>, in': set<Id>) {
    forall x :: x in in' && x !in known ==> DependentsOf(needs, x) <= in'
  }

  /** The whole effect of invalidating `id`: reasons, what is reached, and that nothing is missed. */
  ghost predicate Spread(needs: Needs, v: map<Id, Reason>, w: map<Id, Reason>, id: Id, reason: Reason) {
    && Marked(v, w, id, reason)
    && (forall x :: x in w && x !in v ==> Spreads(needs, v.Keys, id, x))
    && Closed(needs, v.Keys, w.Keys) && DependentsOf(needs, id) <= w.Keys
  }

  /** The same while only the dependents in `done` have been followed. */
  ghost predicate Progress(needs: Needs, v: map<Id, Reason>, w: map<Id, Reason>, id: Id, reason: Reason,
                           done: set<Id>)
  {
    && Marked(v, w, id, reason)
    && (forall x :: x in w && x !in v ==> Spreads(needs, v.Keys, id, x))
    && Closed(needs, v.Keys + {id}, w.Keys) && done <= w.Keys
  }

  ghost predicate Grew(v: map<Id, Reason>, w: map<Id, Reason>, id: Id) { id in w && forall x :: x in v ==> x in w }

  ghost function StillValid(needs: Needs, v: map<Id, Reason>, id: Id): nat { |needs.Keys - v.Keys - {id}| }

  /** What became invalid left the cache, and nothing else did. */
  ghost predicate Purged(cache: map<Id, Analysis>, cache': map<Id, Analysis>, v: map<Id, Reason>, w: map<Id, Reason>,
                         id: Id)
  {
    forall k :: (k in cache' <==> k in cache && k != id && (k in w ==> k in v)) &&
      (k in cache' ==> cache'[k] == cache[k])
  }

  lemma {:induction false} ProgressStart(needs: Needs, v: map<Id, Reason>, id: Id, reason: Reason)
    ensures Progress(needs, v, v[id := reason], id, reason, {}) && Grew(v, v[id := reason], id)
  {
    SpreadsSelf(needs, v.Keys, id);
  }

  lemma {:induction false} ProgressStep(needs: Needs, v: map<Id, Reason>, w: map<Id, Reason>, w': map<Id, Reason>,
                                        id: Id, reason: Reason, done: set<Id>, d: Id)
    requires Progress(needs, v, w, id, reason, done) && d in DependentsOf(needs, id)
    requires d !in w && Spread(needs, w, w', d, DependencyChanged)
    ensures Progress(needs, v, w', id, reason, done + {d})
    ensures Grew(v, w, id) && Grew(w, w', d) && Grew(v, w', id)
  {
    forall x | x in w' && x !in v ensures Spreads(needs, v.Keys, id, x) {
      if x !in w {
        SpreadsFirst(needs, v.Keys, w.Keys, id, d, x);
      }
    }
  }

  lemma {:induction false} ProgressKnown(needs: Needs, v: map<Id, Reason>, w: map<Id, Reason>, id: Id, reason: Reason,
                                         done: set<Id>, d: Id)
    requires Progress(needs, v, w, id, reason, done) && d in w
    ensures Progress(needs, v, w, id, reason, done + {d})
  {}

  lemma {:induction false} ProgressEnd(needs: Needs, v: map<Id, Reason>, w: map<Id, Reason>, id: Id, reason: Reason,
                                       done: set<Id>)
    requires Progress(needs, v, w, id, reason, done) && forall x :: x in DependentsOf(needs, id) ==> x in done
    ensures Spread(needs, v, w, id, reason) && Grew(v, w, id)
  {}

  class IncrementalCache {
    var fileHashes: map<Path, nat>
    var componentCache: map<Id, Analysis>
    var fileToComponents: map<Path, set<Id>>
    var dependencyGraph: Needs
    var invalidated: map<Id, Reason>

    constructor ()
      ensures fileHashes == map[] && componentCache == map[] && fileToComponents == map[]
      ensures dependencyGraph == map[] && invalidated == map[]
    {
      fileHashes, componentCache, fileToComponents, dependencyGraph, invalidated := map[], map[], map[], map[], map[];
    }

    method GetDependents(id: Id) returns (r: Option<set<Id>>)
      ensures r == if DependentsOf(dependencyGraph, id) == {} then None else Some(DependentsOf(dependencyGraph, id))
    {
      var dependents: set<Id> := {};
      var keys := dependencyGraph.Keys;
      while keys != {}
        invariant keys <= dependencyGraph.Keys
        invariant dependents == set k | k in dependencyGraph && k !in keys && id in dependencyGraph[k]
        decreases keys
      {
        var key :| key in keys;
        if id in dependencyGraph[key] {
          dependents := dependents + {key};
        }
        keys := keys - {key};
      }
      assert dependents == DependentsOf(dependencyGraph, id);
      r := if dependents == {} then None else Some(dependents);
    }

    /** Invalidates `id` and everything that comes to need it through components still valid. */
    method InvalidateComponent(id: Id, reason: Reason)
      modifies this`invalidated, this`componentCache
      ensures Spread(dependencyGraph, old(invalidated), invalidated, id, reason) &&
              Grew(old(invalidated), invalidated, id)
      ensures Purged(old(componentCache), componentCache, old(invalidated), invalidated, id)
      decreases StillValid(dependencyGraph, invalidated, id)
    {
      ghost var needs, v, cache := dependencyGraph, invalidated, componentCache;
      invalidated := invalidated[id := reason];
      componentCache := componentCache - {id};
      ProgressStart(needs, v, id, reason);
      var found := GetDependents(id);
      var dependents := if found.Some? then found.value else {};
      ghost var all := DependentsOf(needs, id);
      ghost var done: set<Id> := {};
      PurgedOne(cache, v, id, reason);
      hide DependentsOf, Progress, Spread, Purged, Grew, StillValid;
      while dependents != {}
        invariant dependents <= all && (forall x :: x in all ==> x in dependents || x in done) &&
                  Grew(v, invalidated, id)
        invariant Progress(needs, v, invalidated, id, reason, done)
        invariant Purged(cache, componentCache, v, invalidated, id)
        decreases dependents
      {
        var d :| d in dependents;
        ghost var before, kept := invalidated, componentCache;
        if d !in invalidated {
          Fewer(needs, v, before, id, d);
          InvalidateComponent(d, DependencyChanged);
          assert Spread(needs, before, invalidated, d, DependencyChanged);
          ProgressStep(needs, v, before, invalidated, id, reason, done, d);
          PurgedMore(cache, kept, componentCache, v, before, invalidated, id, d);
        } else {
          ProgressKnown(needs, v, invalidated, id, reason, done, d);
        }
        dependents := dependents - {d};
        done := done + {d};
      }
      ProgressEnd(needs, v, invalidated, id, reason, done);
    }

    /** The components of one file, in any order. `seeds` are those invalidated by name before. */
    method InvalidateIds(ids: set<Id>, reason: Reason, ghost v: map<Id, Reason>, ghost cache: map<Id, Analysis>,
                         ghost seeds: map<Id, Reason>)
      returns (ghost seeds': map<Id, Reason>)
      requires Many(dependencyGraph, v, invalidated, seeds) && Left(cache, componentCache, v, invalidated, seeds)
      modifies this`invalidated, this`componentCache
      ensures Many(dependencyGraph, v, invalidated, seeds') && Left(cache, componentCache, v, invalidated, seeds')
      ensures forall s ::
              (s in seeds' <==> s in seeds || s in ids) &&
              (s in seeds' ==> seeds'[s] == if s in ids then reason else seeds[s])
    {
      ghost var needs := dependencyGraph;
      seeds' := seeds;
      var todo := ids;
      hide Many, Left, Spread, Purged, Grew;
      while todo != {}
        invariant todo <= ids && Many(needs, v, invalidated, seeds') &&
                  Left(cache, componentCache, v, invalidated, seeds')
        invariant forall s :: (s in seeds' <==> s in seeds || (s in ids && s !in todo))
        invariant forall s :: s in seeds' ==> seeds'[s] == if s in ids && s !in todo then reason else seeds[s]
        decreases todo
      {
        var id :| id in todo;
        ghost var before, kept := invalidated, componentCache;
        InvalidateComponent(id, reason);
        assert Spread(needs, before, invalidated, id, reason);
        ManyHas(needs, v, before, seeds');
        ManyMore(needs, v, before, invalidated, seeds', id, reason);
        LeftMore(cache, kept, componentCache, v, before, invalidated, seeds', id, reason);
        seeds' := seeds'[id := reason];
        todo := todo - {id};
      }
    }

    /** Everything of a changed or deleted file, and all that comes to need it; deleted files are
        forgotten. */
    method InvalidateChangedFiles(changed: seq<Path>, deleted: seq<Path>)
      modifies this`invalidated, this`componentCache, this`fileHashes, this`fileToComponents
      ensures var c, d := SeedsOf(old(fileToComponents), changed), SeedsOf(old(fileToComponents), deleted);
              && Reached(dependencyGraph, old(invalidated), invalidated, c + d)
              && Reasons(old(invalidated), invalidated, c, d)
              && Remaining(old(componentCache), componentCache, old(invalidated), invalidated, c + d)
      ensures fileHashes == old(fileHashes) - PathSet(deleted) &&
              fileToComponents == old(fileToComponents) - PathSet(deleted)
    {
      ghost var needs, v, cache, files, hashes := dependencyGraph, invalidated, componentCache, fileToComponents,
        fileHashes;
      ghost var seeds: map<Id, Reason> := map[];
      ghost var c, d: set<Id> := {}, {};
      NothingYet(needs, v, cache, files, hashes);
      hide Many, Left, Named, SeedsOf, FileIds, PathSet, Reached, Reasons, Remaining;
      var i := 0;
      while i < |changed|
        invariant 0 <= i <= |changed| && fileToComponents == files && fileHashes == hashes
        invariant Many(needs, v, invalidated, seeds) && Left(cache, componentCache, v, invalidated, seeds)
        invariant c == SeedsOf(files, changed[..i]) && Named(seeds, c, {})
      {
        SeedsSnoc(files, changed[..i], changed[i]);
        assert changed[..i + 1] == changed[..i] + [changed[i]];
        var ids := FileIds(fileToComponents, changed[i]);
        ghost var before := seeds;
        seeds := InvalidateIds(ids, FileChanged, v, cache, seeds);
        NamedMore(before, seeds, c, {}, ids, FileChanged);
        c := c + ids;
        i := i + 1;
      }
      assert changed[..i] == changed;
      i := 0;
      while i < |deleted|
        invariant 0 <= i <= |deleted|
        invariant fileToComponents == files - PathSet(deleted[..i]) && fileHashes == hashes - PathSet(deleted[..i])
        invariant Many(needs, v, invalidated, seeds) && Left(cache, componentCache, v, invalidated, seeds)
        invariant d == SeedsOf(files, deleted[..i]) && Named(seeds, c, d)
      {
        var path := deleted[i];
        SeedsDropped(files, deleted[..i], path);
        DropMore(files, deleted[..i], path);
        DropMore(hashes, deleted[..i], path);
        assert deleted[..i + 1] == deleted[..i] + [path];
        var ids := FileIds(fileToComponents, path);
        ghost var before := seeds;
        seeds := InvalidateIds(ids, Deleted, v, cache, seeds);
        NamedMore(before, seeds, c, d, ids, Deleted);
        fileHashes := fileHashes - {path};
        fileToComponents := fileToComponents - {path};
        d := d + ids;
        i := i + 1;
      }
      assert deleted[..i] == deleted;
      ReachedEnd(needs, v, invalidated, seeds);
      NamedEnd(needs, v, invalidated, cache, componentCache, seeds, c, d);
    }

    /** Served only while valid. */
    method GetCachedAnalysis(id: Id) returns (r: Option<Analysis>)
      ensures r == if id in invalidated || id !in componentCache then None else Some(componentCache[id])
    {
      if id in invalidated {
        return None;
      }
      r := if id in componentCache then Some(componentCache[id]) else None;
    }
  }

  lemma {:induction false} Fewer(needs: Needs, v: map<Id, Reason>, w: map<Id, Reason>, id: Id, d: Id)
    requires Grew(v, w, id) && d !in w && d in DependentsOf(needs, id)
    ensures StillValid(needs, w, d) < StillValid(needs, v, id)
  {
    assert d in needs.Keys - v.Keys - {id};
    SmallerSet(needs.Keys - w.Keys - {d}, needs.Keys - v.Keys - {id});
  }

  lemma {:induction false} PurgedOne(cache: map<Id, Analysis>, v: map<Id, Reason>, id: Id, reason: Reason)
    ensures Purged(cache, cache - {id}, v, v[id := reason], id)
  {}

  lemma {:induction false} PurgedMore(cache: map<Id, Analysis>, kept: map<Id, Analysis>, now: map<Id, Analysis>,
    v: map<Id, Reason>, before: map<Id, Reason>, after: map<Id, Reason>, id: Id, d: Id)
    requires Purged(cache, kept, v, before, id) && Purged(kept, now, before, after, d)
    requires Grew(v, before, id) && Grew(before, after, d) && d !in before
    ensures Purged(cache, now, v, after, id)
  {}

  // ---- Many components ----------------------------------------------------------------------------

  ghost function PathSet(paths: seq<Path>): set<Path> { set p | p in paths }

  /** The components known to come from some of the files. */
  ghost function SeedsOf(files: map<Path, set<Id>>, paths: seq<Path>): set<Id> {
    set p, s | p in paths && p in files && s in files[p] :: s
  }

  lemma {:induction false} NothingYet(needs: Needs, v: map<Id, Reason>, cache: map<Id, Analysis>,
                                      files: map<Path, set<Id>>, hashes: map<Path, nat>)
    ensures Many(needs, v, v, map[]) && Left(cache, cache, v, v, map[]) && Named(map[], {}, {}) &&
            SeedsOf(files, []) == {}
    ensures files - PathSet([]) == files && hashes - PathSet([]) == hashes
  {}

  lemma {:induction false} SeedsSnoc(files: map<Path, set<Id>>, paths: seq<Path>, path: Path)
    ensures SeedsOf(files, paths + [path]) == SeedsOf(files, paths) + FileIds(files, path)
    ensures PathSet(paths + [path]) == PathSet(paths) + {path}
    ensures path in PathSet(paths) ==> FileIds(files, path) <= SeedsOf(files, paths)
  {
    assert forall p :: p in paths + [path] <==> p in paths || p == path;
  }

  ghost predicate ManyReasons(v: map<Id, Reason>, w: map<Id, Reason>, seeds: map<Id, Reason>) {
    && (forall x :: x in v || x in seeds ==> x in w)
    && (forall x :: x in w ==> w[x] == if x in seeds then seeds[x] else if x in v then v[x] else DependencyChanged)
  }

  ghost predicate Sown(needs: Needs, v: map<Id, Reason>, seeds: set<Id>, x: Id) {
    exists s :: s in seeds && Spreads(needs, v.Keys, s, x)
  }

  ghost predicate ManyFrom(needs: Needs, v: map<Id, Reason>, w: map<Id, Reason>, seeds: map<Id, Reason>) {
    forall x :: x in w && x !in v ==> Sown(needs, v, seeds.Keys, x)
  }

  ghost predicate ManyClosed(needs: Needs, v: map<Id, Reason>, w: map<Id, Reason>, seeds: map<Id, Reason>) {
    forall x :: x in w && (x !in v || x in seeds) ==> DependentsOf(needs, x) <= w.Keys
  }

  /** `w` after invalidating each of `seeds` in some order, the last reason given for each. */
  ghost predicate Many(needs: Needs, v: map<Id, Reason>, w: map<Id, Reason>, seeds: map<Id, Reason>) {
    ManyReasons(v, w, seeds) && ManyFrom(needs, v, w, seeds) && ManyClosed(needs, v, w, seeds)
  }

  ghost predicate Left(cache: map<Id, Analysis>, cache': map<Id, Analysis>, v: map<Id, Reason>, w: map<Id, Reason>,
                       seeds: map<Id, Reason>)
  {
    forall k :: (k in cache' <==> k in cache && k !in seeds && (k in w ==> k in v)) &&
      (k in cache' ==> cache'[k] == cache[k])
  }

  lemma {:induction false} ManyMore(needs: Needs, v: map<Id, Reason>, w: map<Id, Reason>, w': map<Id, Reason>,
                                    seeds: map<Id, Reason>, id: Id, reason: Reason)
    requires Many(needs, v, w, seeds) && Spread(needs, w, w', id, reason)
    ensures Many(needs, v, w', seeds[id := reason])
  {
    FromMore(needs, v, w, w', seeds, id, reason);
    ClosedMore(needs, v, w, w', seeds, id, reason);
    ReasonsMore(v, w, w', seeds, id, reason);
    hide ManyFrom, ManyClosed, ManyReasons, DependentsOf, Spreads, Marked, Closed, Link, Route, Sown;
  }

  lemma {:induction false} ManyHas(needs: Needs, v: map<Id, Reason>, w: map<Id, Reason>, seeds: map<Id, Reason>)
    requires Many(needs, v, w, seeds)
    ensures forall x :: x in v ==> x in w
  {}

  lemma {:induction false} FromMore(needs: Needs, v: map<Id, Reason>, w: map<Id, Reason>, w': map<Id, Reason>,
                                    seeds: map<Id, Reason>, id: Id, reason: Reason)
    requires Many(needs, v, w, seeds) && Spread(needs, w, w', id, reason)
    ensures ManyFrom(needs, v, w', seeds[id := reason])
  {
    hide DependentsOf, Spreads, ManyClosed;
    var more := seeds[id := reason];
    forall x | x in w' && x !in v ensures Sown(needs, v, more.Keys, x) {
      if x in w {
        assert Sown(needs, v, seeds.Keys, x);
        var s :| s in seeds.Keys && Spreads(needs, v.Keys, s, x);
        assert s in more.Keys;
      } else {
        SpreadsFewer(needs, v.Keys, w.Keys, id, x);
        assert id in more.Keys;
      }
    }
  }

  lemma {:induction false} ReasonsMore(v: map<Id, Reason>, w: map<Id, Reason>, w': map<Id, Reason>,
                                       seeds: map<Id, Reason>, id: Id, reason: Reason)
    requires ManyReasons(v, w, seeds) && Marked(w, w', id, reason)
    ensures ManyReasons(v, w', seeds[id := reason])
  {}

  lemma {:induction false} ClosedMore(needs: Needs, v: map<Id, Reason>, w: map<Id, Reason>, w': map<Id, Reason>,
                                      seeds: map<Id, Reason>, id: Id, reason: Reason)
    requires Many(needs, v, w, seeds) && Spread(needs, w, w', id, reason)
    ensures ManyClosed(needs, v, w', seeds[id := reason])
  {
    hide DependentsOf, Spreads, ManyFrom;
    forall x | x in w' && (x !in v || x in seeds[id := reason]) ensures DependentsOf(needs, x) <= w'.Keys {
      if x in w && x != id {
        assert DependentsOf(needs, x) <= w.Keys <= w'.Keys;
      }
    }
  }

  lemma {:induction false} LeftMore(cache: map<Id, Analysis>, kept: map<Id, Analysis>, now: map<Id, Analysis>,
    v: map<Id, Reason>, w: map<Id, Reason>, w': map<Id, Reason>, seeds: map<Id, Reason>, id: Id, reason: Reason)
    requires Left(cache, kept, v, w, seeds) && Purged(kept, now, w, w', id) && Grew(w, w', id) && forall x :: x in v ==>
             x in w
    ensures Left(cache, now, v, w', seeds[id := reason])
  {}

  ghost predicate Named(seeds: map<Id, Reason>, c: set<Id>, d: set<Id>) {
    forall s :: (s in seeds <==> s in c || s in d) &&
      (s in seeds ==> seeds[s] == if s in d then Deleted else FileChanged)
  }

  /** Exactly what was invalid before, and what some seed reaches. */
  ghost predicate Reached(needs: Needs, v: map<Id, Reason>, w: map<Id, Reason>, seeds: set<Id>) {
    forall x :: x in w <==> x in v || Sown(needs, v, seeds, x)
  }

  ghost predicate Reasons(v: map<Id, Reason>, w: map<Id, Reason>, c: set<Id>, d: set<Id>) {
    forall x :: x in w ==> w[x] == if x in d then Deleted else if x in c then FileChanged else if x in v then v[x]
      else DependencyChanged
  }

  ghost predicate Remaining(cache: map<Id, Analysis>, cache': map<Id, Analysis>, v: map<Id, Reason>, w: map<Id, Reason>,
                            seeds: set<Id>)
  {
    forall k :: (k in cache' <==> k in cache && k !in seeds && (k in w ==> k in v)) &&
      (k in cache' ==> cache'[k] == cache[k])
  }

  lemma {:induction false} ReachedEnd(needs: Needs, v: map<Id, Reason>, w: map<Id, Reason>, seeds: map<Id, Reason>)
    requires Many(needs, v, w, seeds)
    ensures Reached(needs, v, w, seeds.Keys)
  {
    hide DependentsOf, Spreads;
    forall x | Sown(needs, v, seeds.Keys, x) ensures x in w {
      var s :| s in seeds.Keys && Spreads(needs, v.Keys, s, x);
      assert s in w && DependentsOf(needs, s) <= w.Keys;
      SpreadInside(needs, v.Keys, w.Keys, s, x);
    }
  }

  lemma {:induction false} NamedEnd(needs: Needs, v: map<Id, Reason>, w: map<Id, Reason>, cache: map<Id, Analysis>,
                                    cache': map<Id, Analysis>,
    seeds: map<Id, Reason>, c: set<Id>, d: set<Id>)
    requires Many(needs, v, w, seeds) && Left(cache, cache', v, w, seeds) && Named(seeds, c, d)
    ensures seeds.Keys == c + d && Reasons(v, w, c, d) && Remaining(cache, cache', v, w, c + d)
  {
    hide ManyFrom, ManyClosed;
    assert forall s :: s in c + d <==> s in seeds;
  }

  lemma {:induction false} NamedMore(seeds: map<Id, Reason>, seeds': map<Id, Reason>, c: set<Id>, d: set<Id>,
                                     ids: set<Id>, reason: Reason)
    requires Named(seeds, c, d) && ((reason == FileChanged && d == {}) || reason == Deleted)
    requires forall s ::
             (s in seeds' <==> s in seeds || s in ids) &&
             (s in seeds' ==> seeds'[s] == if s in ids then reason else seeds[s])
    ensures if reason == Deleted then Named(seeds', c, d + ids) else Named(seeds', c + ids, d)
  {}

  /** A file listed twice brings nothing the second time. */
  lemma {:induction false} DropMore<T>(files: map<Path, T>, paths: seq<Path>, path: Path)
    ensures files - PathSet(paths) - {path} == files - PathSet(paths + [path])
  {
    assert forall p :: p in paths + [path] <==> p in paths || p == path;
  }

  function FileIds(files: map<Path, set<Id>>, path: Path): set<Id> { if path in files then files[path] else {} }

  lemma {:induction false} SeedsDropped(files: map<Path, set<Id>>, paths: seq<Path>, path: Path)
    ensures SeedsOf(files, paths + [path]) == SeedsOf(files, paths) + FileIds(files - PathSet(paths), path)
  {
    SeedsSnoc(files, paths, path);
  }

  /** Starting from nothing invalid: exactly what reaches a changed or deleted component by needing it,
      and none of it is left to be served. */
  lemma {:induction false} FromNothing(needs: Needs, w: map<Id, Reason>, cache: map<Id, Analysis>,
                                       cache': map<Id, Analysis>, seeds: set<Id>, x: Id)
    requires Reached(needs, map[], w, seeds) && Remaining(cache, cache', map[], w, seeds)
    ensures x in w <==> exists s, p :: s in seeds && p != [] && p[0] == s && p[|p| - 1] == x && NeedsPath(needs, p)
    ensures x in cache' <==> x in cache && x !in w
  {
    var none: map<Id, Reason> := map[];
    assert none.Keys == {};
    if x in w {
      assert Sown(needs, none, seeds, x);
      var s :| s in seeds && Spreads(needs, none.Keys, s, x);
      var p :| Route(needs, {}, p) && p[0] == s && p[|p| - 1] == x;
      forall i | 0 <= i < |p| - 1 ensures NeededBy(needs, p[i], p[i + 1]) {
        assert Link(needs, {}, p[i], p[i + 1]);
      }
      assert NeedsPath(needs, p);
    }
    forall s, p | s in seeds && p != [] && p[0] == s && p[|p| - 1] == x && NeedsPath(needs, p) ensures x in w {
      forall i | 0 <= i < |p| - 1 ensures Link(needs, {}, p[i], p[i + 1]) {
        assert NeededBy(needs, p[i], p[i + 1]);
      }
      assert Route(needs, {}, p);
      assert Spreads(needs, none.Keys, s, x);
      assert Sown(needs, none, seeds, x);
    }
    if x in seeds {
      SpreadsSelf(needs, {}, x);
      assert Sown(needs, none, seeds, x);
    }
  }

  ghost predicate NeededBy(needs: Needs, a: Id, b: Id) { b in needs && a in needs[b] }

  ghost predicate NeedsPath(needs: Needs, p: seq<Id>) {
    forall i :: 0 <= i < |p| - 1 ==> NeededBy(needs, p[i], p[i + 1])
  }

  /** Invalidating one component: exactly what was invalid, and what it reaches through valid ones. */
  lemma {:induction false} SpreadExact(needs: Needs, v: map<Id, Reason>, w: map<Id, Reason>, id: Id, reason: Reason)
    requires Spread(needs, v, w, id, reason)
    ensures forall x :: x in w <==> x in v || Spreads(needs, v.Keys, id, x)
  {
    forall x | Spreads(needs, v.Keys, id, x) ensures x in w {
      SpreadInside(needs, v.Keys, w.Keys, id, x);
    }
  }
}
