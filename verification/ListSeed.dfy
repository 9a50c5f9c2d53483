/** Binding an anchor over the rows it was rendered with. */
module ListSeed {
  import opened Prelude
  import opened ListSink
  import opened ListDelta
  import opened ListLaws

  /** A rendered child: its identity, key attribute, markup, and the markup it remembers, if any. */
  datatype Child = Child(id: nat, attr: Option<Key>, markup: Html, remembered: Option<Html>)

  predicate Distinct(ch: seq<Child>, next: nat) {
    && (forall i, j :: 0 <= i < j < |ch| ==> ch[i].id != ch[j].id)
    && (forall i :: 0 <= i < |ch| ==> ch[i].id < next)
  }

  function Stamp(c: Child): Html { if c.remembered.Some? then c.remembered.value else c.markup }

  /** A later child with the same key takes the registration over. */
  function Forget(ch: seq<Node>, k: Key): seq<Node> {
    if ch == [] then []
    else [if ch[0].key == Some(k) then ch[0].(key := None) else ch[0]] + Forget(ch[1..], k)
  }

  function Adopt(l: List, c: Child): List {
    match c.attr
    case None => l.(children := l.children + [Node(c.id, None, c.markup, Stamp(c))])
    case Some(k) => l.(children := Forget(l.children, k) + [Node(c.id, Some(k), c.markup, Stamp(c))],
                       rowsByKey := l.rowsByKey[k := c.id])
  }

  function Seeded(ch: seq<Child>, next: nat): List {
    if ch == [] then List([], map[], next) else Adopt(Seeded(ch[..|ch| - 1], next), ch[|ch| - 1])
  }

  lemma {:induction false} ForgetFacts(ch: seq<Node>, k: Key)
    ensures Ids(Forget(ch, k)) == Ids(ch) && |Forget(ch, k)| == |ch|
    ensures forall i :: 0 <= i < |ch| ==>
            Forget(ch, k)[i] == if ch[i].key == Some(k) then ch[i].(key := None) else ch[i]
    ensures Keys(Forget(ch, k)) == Minus(Keys(ch), {k})
    ensures forall j :: j in Keys(ch) && j != k ==> Find(Forget(ch, k), j) == Find(ch, j)
  {
    if ch != [] {
      ForgetFacts(ch[1..], k);
      var t := Forget(ch[1..], k);
      assert Forget(ch, k)[1..] == t;
      if ch[0].key.Some? {
        assert Keys(ch)[1..] == Keys(ch[1..]);
      } else {
        assert Keys(ch) == Keys(ch[1..]);
      }
    }
  }

  lemma {:induction false} ForgetBelow(ch: seq<Node>, k: Key, next: nat)
    requires forall n :: n in ch ==> n.id < next
    ensures forall n :: n in Forget(ch, k) ==> n.id < next
  {
    if ch != [] {
      assert ch[0] in ch;
      ForgetBelow(ch[1..], k, next);
    }
  }

  lemma {:induction false} ForgetValid(l: List, k: Key)
    requires Valid(l)
    ensures Valid(List(Forget(l.children, k), l.rowsByKey - {k}, l.next))
  {
    ForgetFacts(l.children, k);
    MinusNoDup(Keys(l.children), {k});
    ForgetBelow(l.children, k, l.next);
    hide NoDup, Forget, Find, Ids, Keys, Minus;
  }

  lemma {:induction false} SnocValid(l: List, n: Node)
    requires Valid(l) && n.id < l.next && n.id !in Ids(l.children) && (n.key.Some? ==> n.key.value !in l.rowsByKey)
    ensures Valid(List(l.children + [n], if n.key.Some? then l.rowsByKey[n.key.value := n.id] else l.rowsByKey, l.next))
  {
    IdsSnoc(l.children, n);
    AppendIds(Ids(l.children), n.id);
    if n.key.Some? {
      KeysSnoc(l.children, n);
      AppendKeys(Keys(l.children), n.key.value);
    } else {
      KeysAppend(l.children, [n]);
      assert [n][1..] == [] && Keys([n]) == [] && Keys(l.children) + [] == Keys(l.children);
    }
    SnocFind(l.children, n);
    hide NoDup;
  }

  /** One more child keeps the bijection. */
  lemma {:induction false} AdoptValid(l: List, c: Child)
    requires Valid(l) && c.id < l.next && c.id !in Ids(l.children)
    ensures Valid(Adopt(l, c)) && Ids(Adopt(l, c).children) == Ids(l.children) + [c.id]
  {
    hide Valid, Forget, Ids, Find, Keys, Minus, NoDup;
    var n := Node(c.id, c.attr, c.markup, Stamp(c));
    match c.attr
    case None =>
      IdsSnoc(l.children, n);
      SnocValid(l, n);
    case Some(k) =>
      var f := List(Forget(l.children, k), l.rowsByKey - {k}, l.next);
      ForgetFacts(l.children, k);
      ForgetValid(l, k);
      IdsSnoc(f.children, n);
      SnocValid(f, n);
      assert f.rowsByKey[k := c.id] == l.rowsByKey[k := c.id];
  }

  lemma {:induction false} IdsSnoc(ch: seq<Node>, n: Node)
    ensures Ids(ch + [n]) == Ids(ch) + [n.id]
  {
    if ch == [] {
      assert [n][1..] == [];
    } else {
      assert (ch + [n])[1..] == ch[1..] + [n];
      IdsSnoc(ch[1..], n);
    }
  }

  lemma {:induction false} AppendIds(ids: seq<nat>, i: nat)
    requires NoDup(ids) && i !in ids
    ensures NoDup(ids + [i])
  {}

  lemma {:induction false} AppendKeys(ks: seq<Key>, k: Key)
    requires NoDup(ks) && k !in ks
    ensures NoDup(ks + [k])
  {}

  lemma {:induction false} SnocFind(ch: seq<Node>, n: Node)
    requires n.key.Some? ==> n.key.value !in Keys(ch)
    ensures forall j :: j in Keys(ch) ==> j in Keys(ch + [n]) && Find(ch + [n], j) == Find(ch, j)
    ensures n.key.Some? ==> n.key.value in Keys(ch + [n]) && Find(ch + [n], n.key.value) == n
  {
    if ch == [] {
      assert [n][1..] == [];
    } else {
      assert (ch + [n])[1..] == ch[1..] + [n];
      SnocFind(ch[1..], n);
    }
  }

  /** A child's registration: the last of the children carrying a key holds it. */
  ghost predicate Holds(ch: seq<Child>, i: nat, k: Key)
    requires i < |ch|
  {
    ch[i].attr == Some(k) && forall j :: i < j < |ch| ==> ch[j].attr != Some(k)
  }

  lemma {:induction false} SeededValid(ch: seq<Child>, next: nat)
    requires Distinct(ch, next)
    ensures var l := Seeded(ch, next);
            && Valid(l) && l.next == next && |Ids(l.children)| == |ch|
            && (forall i :: 0 <= i < |ch| ==> Ids(l.children)[i] == ch[i].id)
  {
    if ch != [] {
      var n := |ch| - 1;
      SeededValid(ch[..n], next);
      AdoptValid(Seeded(ch[..n], next), ch[n]);
      hide Valid, Adopt;
    }
  }

  lemma {:induction false} HoldsSnoc(ch: seq<Child>, i: nat, k: Key)
    requires i + 1 < |ch|
    ensures Holds(ch, i, k) <==> Holds(ch[..|ch| - 1], i, k) && ch[|ch| - 1].attr != Some(k)
  {
    var rest := ch[..|ch| - 1];
    assert forall j :: 0 <= j < |rest| ==> rest[j] == ch[j];
    if Holds(rest, i, k) && ch[|ch| - 1].attr != Some(k) {
      forall j | i < j < |ch| ensures ch[j].attr != Some(k) {
        if j < |rest| {
          assert rest[j].attr != Some(k);
        }
      }
    }
  }

  lemma {:induction false} AdoptAt(l: List, c: Child, i: nat, k: Key)
    requires i <= |l.children|
    ensures |Adopt(l, c).children| == |l.children| + 1
    ensures Adopt(l, c).children[i].key == Some(k) <==>
              if i == |l.children| then c.attr == Some(k) else l.children[i].key == Some(k) && c.attr != Some(k)
    ensures if i == |l.children| then Painted(Adopt(l, c).children[i], c)
            else var was, now := l.children[i], Adopt(l, c).children[i];
                 now.id == was.id && now.markup == was.markup && now.stamp == was.stamp
  {
    if c.attr.Some? {
      ForgetFacts(l.children, c.attr.value);
    }
  }

  lemma {:induction false} SeededLength(ch: seq<Child>, next: nat)
    ensures |Seeded(ch, next).children| == |ch|
  {
    if ch != [] {
      SeededLength(ch[..|ch| - 1], next);
      AdoptAt(Seeded(ch[..|ch| - 1], next), ch[|ch| - 1], 0, "");
    }
  }

  /** The child as it was rendered; it remembers what it was painted from, or what it shows. */
  predicate Painted(n: Node, c: Child) {
    n.id == c.id && n.markup == c.markup && n.stamp == if c.remembered.Some? then c.remembered.value else c.markup
  }

  /** Every child stays in its place, and exactly the last one carrying a key is registered under it. */
  lemma {:induction false} SeededHolds(ch: seq<Child>, next: nat, i: nat, k: Key)
    requires i < |ch|
    ensures |Seeded(ch, next).children| == |ch|
    ensures Seeded(ch, next).children[i].key == Some(k) <==> Holds(ch, i, k)
    ensures Painted(Seeded(ch, next).children[i], ch[i])
  {
    SeededLength(ch, next);
    var n := |ch| - 1;
    SeededLength(ch[..n], next);
    AdoptAt(Seeded(ch[..n], next), ch[n], i, k);
    if i < n {
      SeededHolds(ch[..n], next, i, k);
      HoldsSnoc(ch, i, k);
    }
  }

  /** One pass over the rendered children. */
  method SeedRowsByKey(ch: seq<Child>, next: nat) returns (l: List)
    requires Distinct(ch, next)
    ensures l == Seeded(ch, next) && Valid(l)
  {
    var children: seq<Node> := [];
    var rowsByKey: map<Key, nat> := map[];
    var i := 0;
    while i < |ch|
      invariant 0 <= i <= |ch|
      invariant List(children, rowsByKey, next) == Seeded(ch[..i], next)
    {
      var child := ch[i];
      assert ch[..i + 1][..i] == ch[..i];
      if child.attr.Some? {
        children := Forget(children, child.attr.value);
        rowsByKey := rowsByKey[child.attr.value := child.id];
      }
      children := children + [Node(child.id, child.attr, child.markup, Stamp(child))];
      i := i + 1;
    }
    assert ch[..i] == ch;
    SeededValid(ch, next);
    l := List(children, rowsByKey, next);
  }
}
