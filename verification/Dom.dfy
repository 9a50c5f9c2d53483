/** The browser document as the client runtime sees it: nodes with an identity, a label, a
    parent and an ordered child list, and the three mutations the runtime uses. */
module Dom {
  import opened Prelude

  type Id = nat
  type Props = map<string, string>

  datatype Label = TextNode(text: string) | Element(tag: string, props: Props)

  /** `next` is above every identity handed out so far; detached nodes stay allocated. */
  datatype Doc = Doc(labels: map<Id, Label>, kids: map<Id, seq<Id>>, parent: map<Id, Id>, next: Id)

  /** Parent links and child lists describe the same tree edges. */
  ghost predicate Consistent(d: Doc) {
    && d.kids.Keys == d.labels.Keys
    && (forall n :: n in d.labels ==> n < d.next)
    && (forall p :: p in d.kids ==> NoDup(d.kids[p]))
    && Down(d)
    && Up(d)
  }

  ghost predicate Down(d: Doc) {
    forall p, n :: p in d.kids && n in d.kids[p] ==> n in d.labels && n in d.parent && d.parent[n] == p
  }

  ghost predicate Up(d: Doc) {
    forall n :: n in d.parent ==> n in d.labels && d.parent[n] in d.kids && n in d.kids[d.parent[n]]
  }

  function Create(d: Doc, l: Label): Doc {
    d.(labels := d.labels[d.next := l], kids := d.kids[d.next := []], next := d.next + 1)
  }

  /** `n.parentNode.removeChild(n)`, guarded by `n.parentNode`. */
  function Detach(d: Doc, n: Id): Doc
    requires Consistent(d)
  {
    if n in d.parent then
      var p := d.parent[n];
      d.(kids := d.kids[p := Minus(d.kids[p], {n})], parent := d.parent - {n})
    else d
  }

  /** `s` with `n` placed before `ref`, or last when there is no `ref` in it. */
  function Placed(s: seq<Id>, n: Id, ref: Option<Id>): seq<Id> {
    if s == [] then [n]
    else if ref == Some(s[0]) then [n] + s
    else [s[0]] + Placed(s[1..], n, ref)
  }

  /** `p.insertBefore(n, ref)`; `p.appendChild(n)` when `ref` is absent. An attached node moves. */
  function InsertBefore(d: Doc, p: Id, n: Id, ref: Option<Id>): Doc
    requires Consistent(d) && p in d.labels && n in d.labels
    requires ref.Some? ==> ref.value in d.kids[p] && ref.value != n
  {
    var e := Detach(d, n);
    Attach(e, p, n, ref)
  }

  function NextSibling(d: Doc, n: Id): Option<Id>
    requires Consistent(d)
  {
    if n in d.parent then After(d.kids[d.parent[n]], n) else None
  }

  function After(s: seq<Id>, n: Id): Option<Id> {
    if s == [] then None
    else if s[0] == n then (if |s| > 1 then Some(s[1]) else None)
    else After(s[1..], n)
  }

  lemma {:induction false} AfterIndex(s: seq<Id>, i: nat)
    requires NoDup(s) && i < |s|
    ensures After(s, s[i]) == if i + 1 < |s| then Some(s[i + 1]) else None
  {
    if i > 0 {
      AfterIndex(s[1..], i - 1);
    }
  }

  lemma {:induction false} PlacedMembers(s: seq<Id>, n: Id, ref: Option<Id>)
    ensures forall x :: x in Placed(s, n, ref) <==> x in s || x == n
    ensures NoDup(s) && n !in s ==> NoDup(Placed(s, n, ref))
  {
    if s == [] {
    } else if ref == Some(s[0]) {
      NoDupCons(n, s);
    } else {
      assert s == [s[0]] + s[1..];
      PlacedMembers(s[1..], n, ref);
      NoDupCons(s[0], s[1..]);
      NoDupCons(s[0], Placed(s[1..], n, ref));
    }
  }

  lemma {:induction false} PlacedAt(a: seq<Id>, b: seq<Id>, n: Id, ref: Option<Id>)
    requires ref.None? ==> b == []
    requires ref.Some? ==> b != [] && b[0] == ref.value && ref.value !in a
    ensures Placed(a + b, n, ref) == a + [n] + b
  {
    if a == [] {
      assert a + b == b;
    } else {
      assert (a + b)[1..] == a[1..] + b && (a + b)[0] == a[0];
      PlacedAt(a[1..], b, n, ref);
      assert [a[0]] + (a[1..] + [n] + b) == a + [n] + b;
    }
  }

  lemma {:induction false} MinusPlaced(s: seq<Id>, n: Id, ref: Option<Id>, gone: set<Id>)
    requires n !in gone && (ref.Some? ==> ref.value !in gone)
    ensures Minus(Placed(s, n, ref), gone) == Placed(Minus(s, gone), n, ref)
  {
    if s == [] {
    } else if ref == Some(s[0]) {
      assert ([n] + s)[1..] == s;
    } else {
      var rest := Placed(s[1..], n, ref);
      assert ([s[0]] + rest)[1..] == rest;
      MinusPlaced(s[1..], n, ref, gone);
    }
  }

  lemma {:induction false} CreateConsistent(d: Doc, l: Label)
    requires Consistent(d)
    ensures Consistent(Create(d, l))
  {}

  lemma {:induction false} DetachConsistent(d: Doc, n: Id)
    requires Consistent(d)
    ensures Consistent(Detach(d, n))
  {
    if n in d.parent {
      MinusNoDup(d.kids[d.parent[n]], {n});
    }
  }

  lemma {:induction false} InsertConsistent(d: Doc, p: Id, n: Id, ref: Option<Id>)
    requires Consistent(d) && p in d.labels && n in d.labels
    requires ref.Some? ==> ref.value in d.kids[p] && ref.value != n
    ensures Consistent(InsertBefore(d, p, n, ref))
  {
    var e := Detach(d, n);
    DetachConsistent(d, n);
    AttachConsistent(e, p, n, ref);
  }

  function Attach(e: Doc, p: Id, n: Id, ref: Option<Id>): Doc
    requires p in e.kids
  {
    e.(kids := e.kids[p := Placed(e.kids[p], n, ref)], parent := e.parent[n := p])
  }

  lemma {:induction false} AttachConsistent(e: Doc, p: Id, n: Id, ref: Option<Id>)
    requires Consistent(e) && p in e.labels && n in e.labels && n !in e.parent
    ensures Consistent(Attach(e, p, n, ref))
  {
    PlacedMembers(e.kids[p], n, ref);
    var f := Attach(e, p, n, ref);
    forall q, m | q in f.kids && m in f.kids[q] ensures m in f.labels && m in f.parent && f.parent[m] == q {
      if m != n {
        assert m in e.kids[q];
      }
    }
    assert Down(f);
    forall m | m in f.parent ensures m in f.labels && f.parent[m] in f.kids && m in f.kids[f.parent[m]] {
      if m != n {
        assert m in e.kids[e.parent[m]];
      }
    }
    assert Up(f);
  }
}
