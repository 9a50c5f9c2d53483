/** The reactive driver: local handlers write state, and what depends on it is recomputed. */
module Reactive {
  import opened Prelude
  import opened ListShown
  import ListRuntime
  import ListSink

  type Row = ListSink.Row
  type List = ListSink.List
  type Slot = nat
  type Value = string
  type Store = map<Slot, Value>

  /** A binding computed from state, and the slots it says it reads. */
  datatype Derived = Derived(thunk: Store -> Value, deps: seq<Slot>)

  /** Rows computed from state; `None` when the thunk does not answer with an array. */
  datatype Listed = Listed(thunk: Store -> Option<seq<Row>>, deps: seq<Slot>)

  function Read(s: Store, slot: Slot): Option<Value> { if slot in s then Some(s[slot]) else None }

  ghost predicate AgreeOn(s: Store, t: Store, deps: seq<Slot>) { forall d :: d in deps ==> Read(s, d) == Read(t, d) }

  /** The thunk reads nothing it does not say. */
  ghost predicate Declares<T(!new)>(thunk: Store -> T, deps: seq<Slot>) {
    forall s, t :: AgreeOn(s, t, deps) ==> thunk(s) == thunk(t)
  }

  ghost predicate Declared(derived: seq<Derived>, lists: seq<Listed>) {
    && (forall i :: 0 <= i < |derived| ==> Declares(derived[i].thunk, derived[i].deps))
    && (forall i :: 0 <= i < |lists| ==> Declares(lists[i].thunk, lists[i].deps))
  }

  // ---- Slot names -----------------------------------------------------------------------------

  datatype SlotId = Raw(slot: Slot) | DerivedAt(index: nat) | ListAt(index: nat)

  function Local(id: SlotId): string {
    match id
    case Raw(slot) => Decimal(slot)
    case DerivedAt(index) => "d" + Decimal(index)
    case ListAt(index) => "L" + Decimal(index)
  }

  /** Each install has a scope of its own on the shared patcher. */
  function Name(install: nat, id: SlotId): string { ("r" + Decimal(install)) + ":" + Local(id) }

  lemma {:induction false} LocalHead(id: SlotId)
    ensures |Local(id)| > 0
    ensures id.Raw? ==> Local(id)[0] in Digits
    ensures !id.Raw? ==> Local(id)[0] == (if id.DerivedAt? then 'd' else 'L') && Local(id)[1..] == Decimal(id.index)
  {
    if id.Raw? {
      DecimalLong(id.slot);
      DecimalDigits(id.slot);
      assert Decimal(id.slot)[0] in Decimal(id.slot);
    }
  }

  lemma {:induction false} LocalInjective(a: SlotId, b: SlotId)
    requires Local(a) == Local(b)
    ensures a == b
  {
    LocalHead(a);
    LocalHead(b);
    assert 'd' !in Digits && 'L' !in Digits;
    if a.Raw? && b.Raw? {
      DecimalInjective(a.slot, b.slot);
    } else if !a.Raw? && !b.Raw? {
      DecimalInjective(a.index, b.index);
    }
  }

  /** No two slots meet, within an install or across installs. */
  lemma {:induction false} NameInjective(i: nat, a: SlotId, j: nat, b: SlotId)
    requires Name(i, a) == Name(j, b)
    ensures i == j && a == b
  {
    DecimalDigits(i);
    DecimalDigits(j);
    assert ':' !in Digits;
    assert ':' !in "r" + Decimal(i) && ':' !in "r" + Decimal(j);
    SplitOnce("r" + Decimal(i), Local(a), "r" + Decimal(j), Local(b), ':');
    assert ("r" + Decimal(i))[1..] == Decimal(i) && ("r" + Decimal(j))[1..] == Decimal(j);
    DecimalInjective(i, j);
    LocalInjective(a, b);
  }

  // ---- Which bindings a slot reaches --------------------------------------------------------------

  type Index = map<Slot, set<nat>>

  function Reached(index: Index, slot: Slot): set<nat> { if slot in index then index[slot] else {} }

  predicate Leads(index: Index, slot: Slot, d: nat) { slot in index && d in index[slot] }

  predicate DependsOn(deps: seq<seq<Slot>>, d: nat, slot: Slot) { d < |deps| && slot in deps[d] }

  /** `index` holds the bindings before `n` under every slot they declare. */
  ghost predicate Indexes(index: Index, deps: seq<seq<Slot>>, n: nat)
    requires n <= |deps|
  {
    forall slot: Slot, d: nat :: Leads(index, slot, d) <==> d < n && DependsOn(deps, d, slot)
  }

  method BuildIndex(deps: seq<seq<Slot>>) returns (index: Index)
    ensures Indexes(index, deps, |deps|)
  {
    index := map[];
    var d := 0;
    while d < |deps|
      invariant 0 <= d <= |deps| && Indexes(index, deps, d)
    {
      var k := 0;
      while k < |deps[d]|
        invariant 0 <= k <= |deps[d]|
        invariant forall slot: Slot, x: nat :: Leads(index, slot, x) <==>
                  (x < d && DependsOn(deps, x, slot)) || (x == d && slot in deps[d][..k])
      {
        var dep := deps[d][k];
        ghost var was := index;
        index := index[dep := Reached(index, dep) + {d}];
        assert deps[d][..k + 1] == deps[d][..k] + [dep];
        forall slot: Slot, x: nat ensures Leads(index, slot, x) <==> Leads(was, slot, x) || (slot == dep && x == d) {
        }
        k := k + 1;
      }
      assert deps[d][..k] == deps[d];
      d := d + 1;
    }
  }

  /** The bindings that some dirty slot reaches. */
  method Pending(index: Index, dirty: set<Slot>) returns (pending: set<nat>)
    ensures forall d :: d in pending <==> exists s :: s in dirty && Leads(index, s, d)
  {
    pending := {};
    var todo := dirty;
    while todo != {}
      invariant todo <= dirty
      invariant forall d :: d in pending <==> exists s :: s in dirty && s !in todo && Leads(index, s, d)
      decreases todo
    {
      var slot :| slot in todo;
      pending := pending + Reached(index, slot);
      todo := todo - {slot};
    }
  }

  // ---- The driver -----------------------------------------------------------------------------------

  /** The patcher: what it shows by slot name, and the bound list by list name. */
  class Vm {
    var slots: map<string, Value>
    var lists: map<string, List>

    constructor ()
      ensures slots == map[] && lists == map[]
    {
      slots, lists := map[], map[];
    }

    method ReconcileList(name: string, rows: seq<Row>)
      requires Bound(lists, name)
      modifies this`lists
      ensures ListSink.ApplyReconcile(old(lists)[name], rows).Some?
      ensures lists == old(lists)[name := ListSink.ApplyReconcile(old(lists)[name], rows).value]
    {
      var list := new ListRuntime.KeyedList.Open(0, lists[name]);
      list.ApplyReconcileList(rows);
      lists := lists[name := list.Value()];
    }
  }

  /** The name has an anchor, and the anchor's rows are in order. */
  ghost predicate Bound(m: map<string, List>, name: string) {
    name in m && ListSink.Valid(m[name]) && Painted(m[name])
  }

  /** The anchor shows the rows exactly when they have distinct keys and none is blank. */
  predicate ShowsRows(l: List, rows: seq<Row>) { Shown(l.children) == rows <==> Plain(rows) }

  function DerivedDeps(derived: seq<Derived>): seq<seq<Slot>> {
    seq(|derived|, i requires 0 <= i < |derived| => derived[i].deps)
  }

  function ListDeps(lists: seq<Listed>): seq<seq<Slot>> { seq(|lists|, i requires 0 <= i < |lists| => lists[i].deps) }

  function Apply(s: Store, writes: seq<(Slot, Value)>): Store {
    if writes == [] then s
    else Apply(s, writes[..|writes| - 1])[writes[|writes| - 1].0 := writes[|writes| - 1].1]
  }

  function Dirty(writes: seq<(Slot, Value)>): set<Slot> { set w | w in writes :: w.0 }

  lemma {:induction false} WritesSnoc(s: Store, writes: seq<(Slot, Value)>, i: nat)
    requires i < |writes|
    ensures Apply(s, writes[..i + 1]) == Apply(s, writes[..i])[writes[i].0 := writes[i].1]
    ensures Dirty(writes[..i + 1]) == Dirty(writes[..i]) + {writes[i].0}
  {
    assert writes[..i + 1][..i] == writes[..i] && writes[..i + 1] == writes[..i] + [writes[i]];
  }

  lemma {:induction false} NoWrites(s: Store, writes: seq<(Slot, Value)>)
    ensures Apply(s, writes[..0]) == s && Dirty(writes[..0]) == {}
  {}

  lemma {:induction false} Untouched(s: Store, writes: seq<(Slot, Value)>, slot: Slot)
    requires slot !in Dirty(writes)
    ensures Read(Apply(s, writes), slot) == Read(s, slot)
    decreases |writes|
  {
    if writes != [] {
      var n := |writes| - 1;
      assert writes[n] in writes;
      assert slot !in Dirty(writes[..n]);
      Untouched(s, writes[..n], slot);
    }
  }

  /** The last write to a slot is the one that stays. */
  lemma {:induction false} LastWriteStays(s: Store, writes: seq<(Slot, Value)>, i: nat)
    requires i < |writes| && forall j :: i < j < |writes| ==> writes[j].0 != writes[i].0
    ensures Shows(Apply(s, writes), writes[i].0, writes[i].1)
    decreases |writes|
  {
    var n := |writes| - 1;
    if i < n {
      assert writes[n].0 != writes[i].0;
      LastWriteStays(s, writes[..n], i);
    }
  }

  ghost predicate Own(install: nat, name: string) { exists id :: name == Name(install, id) }

  /** Names of other installs are left alone. */
  ghost predicate OnlyOwn<T(!new)>(install: nat, was: map<string, T>, now: map<string, T>) {
    forall n :: !Own(install, n) ==> (n in now <==> n in was) && (n in now ==> now[n] == was[n])
  }

  ghost predicate Shows<K(!new), T(!new)>(m: map<K, T>, name: K, v: T) { name in m && m[name] == v }

  /** Every derived slot but those in `todo` shows its thunk's value on `s`. */
  ghost predicate DerivedBut(install: nat, derived: seq<Derived>, s: Store, slots: map<string, Value>, todo: set<nat>) {
    forall i :: 0 <= i < |derived| && i !in todo ==> Shows(slots, Name(install, DerivedAt(i)), derived[i].thunk(s))
  }

  /** Every list is bound, and every one but those in `todo` shows its thunk's rows on `s`. */
  ghost predicate ListsBut(install: nat, lists: seq<Listed>, s: Store, shown: map<string, List>, todo: set<nat>) {
    && (forall i :: 0 <= i < |lists| ==> Bound(shown, Name(install, ListAt(i))))
    && forall i :: 0 <= i < |lists| && i !in todo && lists[i].thunk(s).Some? ==>
         ShowsRows(shown[Name(install, ListAt(i))], lists[i].thunk(s).value)
  }

  /** Every written slot shows its value. */
  ghost predicate RawsShown(install: nat, dirty: set<Slot>, s: Store, slots: map<string, Value>) {
    forall slot :: slot in dirty ==> slot in s && Shows(slots, Name(install, Raw(slot)), s[slot])
  }

  lemma {:induction false} RawsWrite(install: nat, dirty: set<Slot>, s: Store, slots: map<string, Value>, slot: Slot,
                                     v: Value)
    requires RawsShown(install, dirty, s, slots)
    ensures RawsShown(install, dirty + {slot}, s[slot := v], slots[Name(install, Raw(slot)) := v])
  {
    forall t | t in dirty && t != slot ensures Name(install, Raw(t)) != Name(install, Raw(slot)) {
      if Name(install, Raw(t)) == Name(install, Raw(slot)) {
        NameInjective(install, Raw(t), install, Raw(slot));
      }
    }
  }

  /** Every slot that was not written is as it was. */
  ghost predicate RawsLeft(install: nat, dirty: set<Slot>, was: map<string, Value>, now: map<string, Value>) {
    forall slot: Slot :: slot !in dirty ==> SameAt(was, now, Name(install, Raw(slot)))
  }

  ghost predicate SameAt(was: map<string, Value>, now: map<string, Value>, name: string) {
    (name in now <==> name in was) && (name in was ==> now[name] == was[name])
  }

  lemma {:induction false} LeftWrite(install: nat, dirty: set<Slot>, was: map<string, Value>, now: map<string, Value>,
                                     slot: Slot, v: Value)
    requires RawsLeft(install, dirty, was, now)
    ensures RawsLeft(install, dirty + {slot}, was, now[Name(install, Raw(slot)) := v])
  {
    forall t: Slot | t !in dirty + {slot} ensures Name(install, Raw(t)) != Name(install, Raw(slot)) {
      if Name(install, Raw(t)) == Name(install, Raw(slot)) {
        NameInjective(install, Raw(t), install, Raw(slot));
      }
    }
    hide Name;
  }

  lemma {:induction false} LeftDerived(install: nat, dirty: set<Slot>, was: map<string, Value>, now: map<string, Value>,
                                       i: nat, v: Value)
    requires RawsLeft(install, dirty, was, now)
    ensures RawsLeft(install, dirty, was, now[Name(install, DerivedAt(i)) := v])
  {
    forall t: Slot ensures Name(install, Raw(t)) != Name(install, DerivedAt(i)) {
      if Name(install, Raw(t)) == Name(install, DerivedAt(i)) {
        NameInjective(install, Raw(t), install, DerivedAt(i));
      }
    }
    hide Name;
  }

  lemma {:induction false} RawsKept(install: nat, dirty: set<Slot>, s: Store, slots: map<string, Value>, i: nat,
                                    v: Value)
    requires RawsShown(install, dirty, s, slots)
    ensures RawsShown(install, dirty, s, slots[Name(install, DerivedAt(i)) := v])
  {
    forall t | t in dirty ensures Name(install, Raw(t)) != Name(install, DerivedAt(i)) {
      if Name(install, Raw(t)) == Name(install, DerivedAt(i)) {
        NameInjective(install, Raw(t), install, DerivedAt(i));
      }
    }
  }

  lemma {:induction false} OwnSet<T(!new)>(install: nat, was: map<string, T>, now: map<string, T>, id: SlotId, v: T)
    requires OnlyOwn(install, was, now)
    ensures OnlyOwn(install, was, now[Name(install, id) := v])
  {
    assert Own(install, Name(install, id));
  }

  lemma {:induction false} DerivedSet(install: nat, derived: seq<Derived>, s: Store, slots: map<string, Value>,
                                      todo: set<nat>, i: nat)
    requires DerivedBut(install, derived, s, slots, todo) && i < |derived|
    ensures DerivedBut(install, derived, s, slots[Name(install, DerivedAt(i)) := derived[i].thunk(s)], todo - {i})
  {
    forall j | 0 <= j < |derived| && j != i ensures Name(install, DerivedAt(j)) != Name(install, DerivedAt(i)) {
      if Name(install, DerivedAt(j)) == Name(install, DerivedAt(i)) {
        NameInjective(install, DerivedAt(j), install, DerivedAt(i));
      }
    }
  }

  lemma {:induction false} ListSet(install: nat, lists: seq<Listed>, s: Store, shown: map<string, List>, todo: set<nat>,
                                   i: nat)
    requires ListsBut(install, lists, s, shown, todo) && i < |lists|
    ensures lists[i].thunk(s).None? ==> ListsBut(install, lists, s, shown, todo - {i})
    ensures var name := Name(install, ListAt(i));
            Bound(shown, name) &&
            (lists[i].thunk(s).Some? ==>
               var out := ListSink.ApplyReconcile(shown[name], lists[i].thunk(s).value);
               out.Some? && ListsBut(install, lists, s, shown[name := out.value], todo - {i}))
  {
    var name := Name(install, ListAt(i));
    forall j | 0 <= j < |lists| && j != i ensures Name(install, ListAt(j)) != name {
      if Name(install, ListAt(j)) == name {
        NameInjective(install, ListAt(j), install, ListAt(i));
      }
    }
    if lists[i].thunk(s).Some? {
      RebuildShows(shown[name], lists[i].thunk(s).value);
    }
  }

  /** A list that is asked and whose thunk gives rows is rebuilt to them; every other list is as it was. */
  ghost predicate Relisted(install: nat, lists: seq<Listed>, s: Store, was: map<string, List>, now: map<string, List>,
                           asked: set<nat>)
  {
    forall i :: 0 <= i < |lists| ==> RelistedAt(install, lists[i].thunk(s), was, now, i, i in asked)
  }

  ghost predicate RelistedAt(install: nat, rows: Option<seq<Row>>, was: map<string, List>, now: map<string, List>,
                             i: nat, asked: bool)
  {
    var name := Name(install, ListAt(i));
    && name in was && name in now && ListSink.Valid(was[name])
    && if asked && rows.Some? then Some(now[name]) == ListSink.ApplyReconcile(was[name], rows.value)
       else now[name] == was[name]
  }

  lemma {:induction false} RelistedNone(install: nat, lists: seq<Listed>, s: Store, shown: map<string, List>,
                                        todo: set<nat>)
    requires ListsBut(install, lists, s, shown, todo)
    ensures Relisted(install, lists, s, shown, shown, {})
  {
    forall i | 0 <= i < |lists| ensures RelistedAt(install, lists[i].thunk(s), shown, shown, i, false) {
      assert Bound(shown, Name(install, ListAt(i)));
    }
  }

  lemma {:induction false} RelistedNext(install: nat, lists: seq<Listed>, s: Store, was: map<string, List>,
                                        now: map<string, List>, asked: set<nat>, i: nat)
    requires Relisted(install, lists, s, was, now, asked) && i < |lists| && i !in asked
    ensures lists[i].thunk(s).None? ==> Relisted(install, lists, s, was, now, asked + {i})
    ensures var name := Name(install, ListAt(i));
            name in now && ListSink.Valid(now[name]) &&
            (lists[i].thunk(s).Some? ==>
               var out := ListSink.ApplyReconcile(now[name], lists[i].thunk(s).value);
               out.Some? ==> Relisted(install, lists, s, was, now[name := out.value], asked + {i}))
  {
    var name := Name(install, ListAt(i));
    assert RelistedAt(install, lists[i].thunk(s), was, now, i, false);
    hide ListSink.ApplyReconcile;
    forall j | 0 <= j < |lists| && j != i
      ensures Name(install, ListAt(j)) != name && RelistedAt(install, lists[j].thunk(s), was, now, j, j in asked)
    {
      if Name(install, ListAt(j)) == name {
        NameInjective(install, ListAt(j), install, ListAt(i));
      }
    }
    hide Name;
  }

  /** The lists that read a written slot. */
  function Readers(lists: seq<Listed>, dirty: set<Slot>): set<nat> {
    set i | 0 <= i < |lists| && exists x :: x in lists[i].deps && x in dirty
  }

  lemma {:induction false} ReadersAre(lists: seq<Listed>, index: Index, dirty: set<Slot>, pending: set<nat>)
    requires Indexes(index, ListDeps(lists), |lists|)
    requires forall d :: d in pending <==> exists x :: x in dirty && Leads(index, x, d)
    ensures pending == Readers(lists, dirty)
  {
    forall d ensures d in pending <==> d in Readers(lists, dirty) {
      if d in pending {
        var x :| x in dirty && Leads(index, x, d);
        assert DependsOn(ListDeps(lists), d, x);
      }
      if d in Readers(lists, dirty) {
        var x :| x in lists[d].deps && x in dirty;
        assert DependsOn(ListDeps(lists), d, x);
        assert Leads(index, x, d);
      }
    }
  }

  /** Lists bound so far. */
  ghost predicate BoundTo(install: nat, shown: map<string, List>, n: nat) {
    forall i :: 0 <= i < n ==> Bound(shown, Name(install, ListAt(i)))
  }

  lemma {:induction false} BindNext(install: nat, shown: map<string, List>, n: nat, l: List)
    requires BoundTo(install, shown, n) && ListSink.Valid(l) && Painted(l)
    ensures BoundTo(install, shown[Name(install, ListAt(n)) := l], n + 1)
  {
    forall j | 0 <= j < n ensures Name(install, ListAt(j)) != Name(install, ListAt(n)) {
      if Name(install, ListAt(j)) == Name(install, ListAt(n)) {
        NameInjective(install, ListAt(j), install, ListAt(n));
      }
    }
  }

  /** A raw slot is no derived one. */
  lemma {:induction false} RawSet(install: nat, derived: seq<Derived>, s: Store, slots: map<string, Value>,
                                  todo: set<nat>, slot: Slot, v: Value)
    requires DerivedBut(install, derived, s, slots, todo)
    ensures DerivedBut(install, derived, s, slots[Name(install, Raw(slot)) := v], todo)
  {
    forall j | 0 <= j < |derived| ensures Name(install, DerivedAt(j)) != Name(install, Raw(slot)) {
      if Name(install, DerivedAt(j)) == Name(install, Raw(slot)) {
        NameInjective(install, DerivedAt(j), install, Raw(slot));
      }
    }
  }

  /** What no dirty slot reaches is current already: recomputing the rest is recomputing everything. */
  lemma {:induction false} CleanDerived(install: nat, derived: seq<Derived>, s: Store, writes: seq<(Slot, Value)>,
                                        slots: map<string, Value>, index: Index, pending: set<nat>)
    requires DerivedBut(install, derived, s, slots, {}) && Indexes(index, DerivedDeps(derived), |derived|)
    requires forall i :: 0 <= i < |derived| ==> Declares(derived[i].thunk, derived[i].deps)
    requires forall d :: d in pending <==> exists x :: x in Dirty(writes) && Leads(index, x, d)
    ensures DerivedBut(install, derived, Apply(s, writes), slots, pending)
    ensures forall d :: d in pending ==> d < |derived|
  {
    forall i | 0 <= i < |derived| && i !in pending ensures derived[i].thunk(s) == derived[i].thunk(Apply(s, writes)) {
      Unread(s, writes, index, DerivedDeps(derived), pending, i);
      assert AgreeOn(s, Apply(s, writes), derived[i].deps);
    }
    forall d | d in pending ensures d < |derived| {
      var x :| x in Dirty(writes) && Leads(index, x, d);
      assert d < |DerivedDeps(derived)|;
    }
  }

  lemma {:induction false} CleanLists(install: nat, lists: seq<Listed>, s: Store, writes: seq<(Slot, Value)>,
                                      shown: map<string, List>, index: Index, pending: set<nat>)
    requires ListsBut(install, lists, s, shown, {}) && Indexes(index, ListDeps(lists), |lists|)
    requires forall i :: 0 <= i < |lists| ==> Declares(lists[i].thunk, lists[i].deps)
    requires forall d :: d in pending <==> exists x :: x in Dirty(writes) && Leads(index, x, d)
    ensures ListsBut(install, lists, Apply(s, writes), shown, pending)
    ensures forall d :: d in pending ==> d < |lists|
  {
    forall i | 0 <= i < |lists| && i !in pending ensures lists[i].thunk(s) == lists[i].thunk(Apply(s, writes)) {
      Unread(s, writes, index, ListDeps(lists), pending, i);
      assert AgreeOn(s, Apply(s, writes), lists[i].deps);
    }
    forall d | d in pending ensures d < |lists| {
      var x :| x in Dirty(writes) && Leads(index, x, d);
      assert d < |ListDeps(lists)|;
    }
  }

  lemma {:induction false} Unread(s: Store, writes: seq<(Slot, Value)>, index: Index, deps: seq<seq<Slot>>,
                                  pending: set<nat>, i: nat)
    requires i < |deps| && Indexes(index, deps, |deps|) && i !in pending
    requires forall d :: d in pending <==> exists x :: x in Dirty(writes) && Leads(index, x, d)
    ensures AgreeOn(s, Apply(s, writes), deps[i])
  {
    forall slot | slot in deps[i] ensures Read(s, slot) == Read(Apply(s, writes), slot) {
      assert Leads(index, slot, i);
      assert slot !in Dirty(writes);
      Untouched(s, writes, slot);
    }
  }

  function AllBelow(n: nat): (r: set<nat>)
    ensures forall i :: i in r <==> 0 <= i < n
  {
    if n == 0 then {} else AllBelow(n - 1) + {n - 1}
  }

  class Island {
    const install: nat
    const vm: Vm
    const derived: seq<Derived>
    const lists: seq<Listed>
    const handlers: set<nat>
    var state: Store
    var depToDerived: Index
    var depToList: Index

    /** Everything shown is what recomputing everything from the state would show. */
    ghost predicate Current()
      reads this, vm
    {
      && Indexes(depToDerived, DerivedDeps(derived), |derived|) && Indexes(depToList, ListDeps(lists), |lists|)
      && DerivedBut(install, derived, state, vm.slots, {}) && ListsBut(install, lists, state, vm.lists, {})
    }

    /** Wire the bindings, each list over the anchor it was rendered with, then compute each of them once. */
    constructor (install: nat, vm: Vm, derived: seq<Derived>, lists: seq<Listed>, anchors: seq<List>,
                 handlers: set<nat>,
                 state: Store)
      requires |anchors| == |lists|
      requires forall i :: 0 <= i < |anchors| ==> ListSink.Valid(anchors[i]) && Painted(anchors[i])
      modifies vm
      ensures this.install == install && this.vm == vm && this.derived == derived && this.lists == lists
      ensures this.handlers == handlers && this.state == state && Current()
      ensures OnlyOwn(install, old(vm.slots), vm.slots) && OnlyOwn(install, old(vm.lists), vm.lists)
    {
      this.install, this.vm, this.derived, this.lists, this.handlers, this.state := install, vm, derived, lists,
        handlers, state;
      this.depToDerived, this.depToList := map[], map[];
      new;
      depToDerived := BuildIndex(DerivedDeps(derived));
      depToList := BuildIndex(ListDeps(lists));
      BindLists(anchors);
      Repaint(AllBelow(|derived|), {}, vm.slots);
      ghost var mid := vm.lists;
      Relist(AllBelow(|lists|));
      OnlyOwnTrans(install, old(vm.lists), mid, vm.lists);
    }

    /** Register every list's anchor under its name. */
    method BindLists(anchors: seq<List>)
      requires |anchors| == |lists|
      requires forall i :: 0 <= i < |anchors| ==> ListSink.Valid(anchors[i]) && Painted(anchors[i])
      modifies vm`lists
      ensures BoundTo(install, vm.lists, |lists|) && OnlyOwn(install, old(vm.lists), vm.lists)
    {
      hide Name, OnlyOwn, Bound;
      OnlyOwnSame(install, vm.lists);
      var l := 0;
      while l < |lists|
        invariant 0 <= l <= |lists| && BoundTo(install, vm.lists, l) && OnlyOwn(install, old(vm.lists), vm.lists)
      {
        BindNext(install, vm.lists, l, anchors[l]);
        OwnSet(install, old(vm.lists), vm.lists, ListAt(l), anchors[l]);
        vm.lists := vm.lists[Name(install, ListAt(l)) := anchors[l]];
        l := l + 1;
      }
    }

    /** Recompute some derived slots, in any order. */
    method Repaint(pending: set<nat>, ghost dirty: set<Slot>, ghost was: map<string, Value>)
      requires RawsShown(install, dirty, state, vm.slots) && RawsLeft(install, dirty, was, vm.slots)
      requires DerivedBut(install, derived, state, vm.slots, pending) && forall i :: i in pending ==> i < |derived|
      modifies vm`slots
      ensures DerivedBut(install, derived, state, vm.slots, {}) && OnlyOwn(install, old(vm.slots), vm.slots)
      ensures RawsShown(install, dirty, state, vm.slots) && RawsLeft(install, dirty, was, vm.slots)
    {
      var todo := pending;
      hide DerivedBut, OnlyOwn, Name, RawsShown, RawsLeft;
      assert OnlyOwn(install, vm.slots, vm.slots) by { OnlyOwnSame(install, vm.slots); }
      while todo != {}
        invariant todo <= pending && DerivedBut(install, derived, state, vm.slots, todo) &&
                  OnlyOwn(install, old(vm.slots), vm.slots)
        invariant RawsShown(install, dirty, state, vm.slots) && RawsLeft(install, dirty, was, vm.slots)
        decreases todo
      {
        var i :| i in todo;
        LeftDerived(install, dirty, was, vm.slots, i, derived[i].thunk(state));
        DerivedSet(install, derived, state, vm.slots, todo, i);
        RawsKept(install, dirty, state, vm.slots, i, derived[i].thunk(state));
        OwnSet(install, old(vm.slots), vm.slots, DerivedAt(i), derived[i].thunk(state));
        vm.slots := vm.slots[Name(install, DerivedAt(i)) := derived[i].thunk(state)];
        todo := todo - {i};
      }
    }

    /** Hand some lists their rows again; a thunk without rows leaves its list as it is. */
    method Relist(pending: set<nat>)
      requires ListsBut(install, lists, state, vm.lists, pending) && forall i :: i in pending ==> i < |lists|
      modifies vm`lists
      ensures ListsBut(install, lists, state, vm.lists, {}) && OnlyOwn(install, old(vm.lists), vm.lists)
      ensures Relisted(install, lists, state, old(vm.lists), vm.lists, pending)
    {
      var todo := pending;
      RelistedNone(install, lists, state, vm.lists, pending);
      ghost var was, asked: set<nat> := vm.lists, {};
      hide ListsBut, OnlyOwn, Name, ListSink.ApplyReconcile, ListSink.Valid, Painted, Relisted;
      assert OnlyOwn(install, vm.lists, vm.lists) by { OnlyOwnSame(install, vm.lists); }
      while todo != {}
        invariant todo <= pending && ListsBut(install, lists, state, vm.lists, todo) &&
                  OnlyOwn(install, old(vm.lists), vm.lists)
        invariant Relisted(install, lists, state, was, vm.lists, asked)
        invariant todo !! asked && forall d :: d in pending <==> d in todo || d in asked
        decreases todo
      {
        var i :| i in todo;
        ListSet(install, lists, state, vm.lists, todo, i);
        RelistedNext(install, lists, state, was, vm.lists, asked, i);
        var rows := lists[i].thunk(state);
        if rows.Some? {
          var name := Name(install, ListAt(i));
          OwnSet(install, old(vm.lists), vm.lists, ListAt(i),
            ListSink.ApplyReconcile(vm.lists[name], rows.value).value);
          vm.ReconcileList(name, rows.value);
        }
        asked := asked + {i};
        todo := todo - {i};
      }
      assert asked == pending;
    }

    /** One interaction. `writes` is what the handler emits, in order; another's proxy is not handled here. */
    method Dispatch(proxy: nat, writes: seq<(Slot, Value)>) returns (handled: bool)
      requires Current() && Declared(derived, lists)
      modifies this`state, vm
      ensures Current() && handled == (proxy in handlers)
      ensures state == if handled then Apply(old(state), writes) else old(state)
      ensures OnlyOwn(install, old(vm.slots), vm.slots) && OnlyOwn(install, old(vm.lists), vm.lists)
      ensures !handled ==> vm.slots == old(vm.slots) && vm.lists == old(vm.lists)
      ensures handled ==> RawsShown(install, Dirty(writes), state, vm.slots)
      ensures handled ==> RawsLeft(install, Dirty(writes), old(vm.slots), vm.slots)
      ensures handled ==>
                Relisted(install, lists, state, old(vm.lists), vm.lists, Readers(lists, Dirty(writes)))
    {
      OnlyOwnSame(install, vm.slots);
      OnlyOwnSame(install, vm.lists);
      handled := proxy in handlers;
      if !handled {
        return;
      }
      var dirty := Emit(writes);
      var pending := Pending(depToDerived, dirty);
      var pendingLists := Pending(depToList, dirty);
      CleanDerived(install, derived, old(state), writes, vm.slots, depToDerived, pending);
      CleanLists(install, lists, old(state), writes, vm.lists, depToList, pendingLists);
      ReadersAre(lists, depToList, dirty, pendingLists);
      ghost var mid := vm.slots;
      Repaint(pending, dirty, old(vm.slots));
      OnlyOwnTrans(install, old(vm.slots), mid, vm.slots);
      Relist(pendingLists);
    }

    /** Each write lands in the state and in its own slot at once. */
    method Emit(writes: seq<(Slot, Value)>) returns (dirty: set<Slot>)
      requires DerivedBut(install, derived, state, vm.slots, {})
      modifies this`state, vm`slots
      ensures state == Apply(old(state), writes) && dirty == Dirty(writes) && RawsShown(install, dirty, state, vm.slots)
      ensures DerivedBut(install, derived, old(state), vm.slots, {}) && OnlyOwn(install, old(vm.slots), vm.slots)
      ensures RawsLeft(install, dirty, old(vm.slots), vm.slots)
    {
      dirty := {};
      assert RawsShown(install, dirty, state, vm.slots);
      OnlyOwnSame(install, vm.slots);
      assert RawsLeft(install, dirty, vm.slots, vm.slots);
      hide DerivedBut, OnlyOwn, Name, RawsShown, RawsLeft, Apply, Dirty;
      NoWrites(state, writes);
      var i := 0;
      while i < |writes|
        invariant 0 <= i <= |writes| && state == Apply(old(state), writes[..i]) && dirty == Dirty(writes[..i])
        invariant DerivedBut(install, derived, old(state), vm.slots, {}) && OnlyOwn(install, old(vm.slots), vm.slots)
        invariant RawsShown(install, dirty, state, vm.slots) && RawsLeft(install, dirty, old(vm.slots), vm.slots)
      {
        var slot, value := writes[i].0, writes[i].1;
        WritesSnoc(old(state), writes, i);
        RawsWrite(install, dirty, state, vm.slots, slot, value);
        LeftWrite(install, dirty, old(vm.slots), vm.slots, slot, value);
        RawSet(install, derived, old(state), vm.slots, {}, slot, value);
        OwnSet(install, old(vm.slots), vm.slots, Raw(slot), value);
        state := state[slot := value];
        dirty := dirty + {slot};
        vm.slots := vm.slots[Name(install, Raw(slot)) := value];
        i := i + 1;
      }
      assert writes[..i] == writes;
    }
  }

  lemma {:induction false} OnlyOwnSame<T(!new)>(install: nat, m: map<string, T>)
    ensures OnlyOwn(install, m, m)
  {}

  lemma {:induction false} OnlyOwnTrans<T(!new)>(install: nat, a: map<string, T>, b: map<string, T>, c: map<string, T>)
    requires OnlyOwn(install, a, b) && OnlyOwn(install, b, c)
    ensures OnlyOwn(install, a, c)
  {}

  /** What one install paints, no other install's dispatch disturbs. */
  lemma {:induction false} OthersUndisturbed(i: nat, j: nat, derived: seq<Derived>, s: Store, was: map<string, Value>,
                                             now: map<string, Value>)
    requires i != j && OnlyOwn(i, was, now) && DerivedBut(j, derived, s, was, {})
    ensures DerivedBut(j, derived, s, now, {})
  {
    forall d | 0 <= d < |derived| ensures !Own(i, Name(j, DerivedAt(d))) {
      if Own(i, Name(j, DerivedAt(d))) {
        var id :| Name(j, DerivedAt(d)) == Name(i, id);
        NameInjective(j, DerivedAt(d), i, id);
      }
    }
  }

  lemma {:induction false} OthersListsUndisturbed(i: nat, j: nat, lists: seq<Listed>, s: Store, was: map<string, List>,
                                                  now: map<string, List>)
    requires i != j && OnlyOwn(i, was, now) && ListsBut(j, lists, s, was, {})
    ensures ListsBut(j, lists, s, now, {})
  {
    forall d | 0 <= d < |lists| ensures !Own(i, Name(j, ListAt(d))) {
      if Own(i, Name(j, ListAt(d))) {
        var id :| Name(j, ListAt(d)) == Name(i, id);
        NameInjective(j, ListAt(d), i, id);
      }
    }
  }
}
