/** Options, results and the few sequence facts that every other module uses. */
module Prelude {
  datatype Option<+T> = None | Some(value: T)

  datatype Result<+T, +E> = Ok(value: T) | Err(error: E) {
    predicate IsFailure() { Err? }
    function PropagateFailure<U>(): Result<U, E> requires Err? { Err(error) }
    function Extract(): T requires Ok? { value }
  }

  predicate NoDup<T(==)>(s: seq<T>) {
    forall i, j :: 0 <= i < j < |s| ==> s[i] != s[j]
  }

  lemma {:induction false} NoDupCons<T>(x: T, s: seq<T>)
    ensures NoDup([x] + s) <==> NoDup(s) && x !in s
  {
    if NoDup([x] + s) {
      forall i, j | 0 <= i < j < |s| ensures s[i] != s[j] {
        assert ([x] + s)[i + 1] != ([x] + s)[j + 1];
      }
      forall i | 0 <= i < |s| ensures s[i] != x {
        assert ([x] + s)[0] != ([x] + s)[i + 1];
      }
    }
  }

  lemma {:induction false} NoDupParts<T>(a: seq<T>, b: seq<T>)
    requires NoDup(a + b)
    ensures NoDup(a) && NoDup(b) && forall x :: x in a ==> x !in b
  {
    forall i, j | 0 <= i < |a| && 0 <= j < |b| ensures a[i] != b[j] {
      assert (a + b)[i] != (a + b)[|a| + j];
    }
    forall i, j | 0 <= i < j < |a| ensures a[i] != a[j] {
      assert (a + b)[i] != (a + b)[j];
    }
    forall i, j | 0 <= i < j < |b| ensures b[i] != b[j] {
      assert (a + b)[|a| + i] != (a + b)[|a| + j];
    }
  }

  /** Elements of `s` that are not in `gone`, in order. */
  function Minus<T(==,!new)>(s: seq<T>, gone: set<T>): (r: seq<T>)
    ensures forall x :: x in r <==> x in s && x !in gone
    ensures |r| <= |s|
  {
    if s == [] then []
    else if s[0] in gone then Minus(s[1..], gone)
    else [s[0]] + Minus(s[1..], gone)
  }

  lemma {:induction false} MinusNone<T(!new)>(s: seq<T>, gone: set<T>)
    requires forall x :: x in gone ==> x !in s
    ensures Minus(s, gone) == s
  {
    if s != [] {
      assert s[0] in s;
      MinusNone(s[1..], gone);
    }
  }

  lemma {:induction false} MinusAll<T(!new)>(s: seq<T>, gone: set<T>)
    requires forall x :: x in s ==> x in gone
    ensures Minus(s, gone) == []
  {
    if s != [] {
      assert s[0] in s;
      MinusAll(s[1..], gone);
    }
  }

  lemma {:induction false} MinusAppend<T(!new)>(a: seq<T>, b: seq<T>, gone: set<T>)
    ensures Minus(a + b, gone) == Minus(a, gone) + Minus(b, gone)
  {
    if a == [] {
      assert a + b == b;
    } else {
      assert (a + b)[1..] == a[1..] + b;
      MinusAppend(a[1..], b, gone);
    }
  }

  lemma {:induction false} MinusTwice<T(!new)>(s: seq<T>, one: set<T>, two: set<T>)
    ensures Minus(Minus(s, one), two) == Minus(s, one + two)
  {
    if s != [] {
      MinusTwice(s[1..], one, two);
      var t := Minus(s[1..], one);
      assert ([s[0]] + t)[1..] == t;
    }
  }

  lemma {:induction false} MinusNoDup<T(!new)>(s: seq<T>, gone: set<T>)
    requires NoDup(s)
    ensures NoDup(Minus(s, gone))
  {
    if s != [] {
      MinusNoDup(s[1..], gone);
      assert s[0] !in s[1..];
    }
  }

  /** A duplicate-free sequence drawn from `u` is no longer than `u`. */
  lemma {:induction false} NoDupBound<T>(s: seq<T>, u: set<T>)
    requires NoDup(s) && forall x :: x in s ==> x in u
    ensures |s| <= |u|
  {
    if s != [] {
      assert s[0] !in s[1..];
      NoDupBound(s[1..], u - {s[0]});
    }
  }

  lemma {:induction false} NoDupJoin<T>(a: seq<T>, b: seq<T>)
    requires NoDup(a) && NoDup(b) && forall x :: x in a ==> x !in b
    ensures NoDup(a + b)
  {
    forall i, j | 0 <= i < j < |a + b| ensures (a + b)[i] != (a + b)[j] {
      if i < |a| {
        assert a[i] in a;
      }
    }
  }

  lemma {:induction false} SubsetSize<T>(a: set<T>, b: set<T>)
    requires a <= b
    ensures |a| <= |b|
  {
    if a != {} {
      var x :| x in a;
      SubsetSize(a - {x}, b - {x});
    }
  }

  lemma {:induction false} SmallerSet<T>(a: set<T>, b: set<T>)
    requires a < b
    ensures |a| < |b|
  {
    var x :| x in b && x !in a;
    SubsetSize(a, b - {x});
  }

  // ---- Text --------------------------------------------------------------------------------

  const Digits: string := "0123456789"

  function Decimal(n: nat): string
    decreases n
  {
    if n < 10 then [Digits[n]] else Decimal(n / 10) + [Digits[n % 10]]
  }

  lemma {:induction false} DecimalDigits(n: nat)
    ensures forall c :: c in Decimal(n) ==> c in Digits
    decreases n
  {
    if n >= 10 {
      DecimalDigits(n / 10);
    }
  }

  lemma {:induction false} DecimalInjective(m: nat, n: nat)
    requires Decimal(m) == Decimal(n)
    ensures m == n
    decreases m
  {
    DecimalLong(m);
    DecimalLong(n);
    if m < 10 || n < 10 {
      assert Decimal(m)[0] == Decimal(n)[0];
    } else {
      var a, b := Decimal(m / 10), Decimal(n / 10);
      assert a == Decimal(m)[..|Decimal(m)| - 1] && b == Decimal(n)[..|Decimal(n)| - 1];
      DecimalInjective(m / 10, n / 10);
      assert Decimal(m)[|a|] == Decimal(n)[|b|];
    }
  }

  lemma {:induction false} DecimalLong(n: nat)
    ensures |Decimal(n)| >= 1 && (|Decimal(n)| > 1 <==> n >= 10)
    decreases n
  {
    if n >= 10 {
      DecimalLong(n / 10);
    }
  }

  /** Text up to the first separator is determined by the whole. */
  lemma {:induction false} SplitOnce<T>(a: seq<T>, r: seq<T>, b: seq<T>, s: seq<T>, c: T)
    requires a + [c] + r == b + [c] + s && c !in a && c !in b
    ensures a == b && r == s
  {
    var x := a + [c] + r;
    assert x[0] == (if a == [] then c else a[0]) && x[0] == (if b == [] then c else b[0]);
    if a == [] || b == [] {
      assert r == x[1..] && s == x[1..];
    } else {
      assert x[1..] == a[1..] + [c] + r && x[1..] == b[1..] + [c] + s;
      SplitOnce(a[1..], r, b[1..], s, c);
    }
  }

  lemma {:induction false} SplitEven<T>(a: seq<T>, r: seq<T>, b: seq<T>, s: seq<T>, c: T)
    requires a + [c] + r == b + [c] + s && |a| == |b|
    ensures a == b && r == s
  {
    var x := a + [c] + r;
    assert a == x[..|a|] && b == x[..|b|] && r == x[|a| + 1..] && s == x[|b| + 1..];
  }

  /** Split again at a later separator, the text in between moves to the left. */
  lemma {:induction false} SplitLater<T>(a: seq<T>, r: seq<T>, b: seq<T>, s: seq<T>, c: T)
    requires a + [c] + r == b + [c] + s && |a| < |b|
    ensures b == a + [c] + b[|a| + 1..] && r == b[|a| + 1..] + [c] + s
  {
    var x, y := a + [c] + r, b + [c] + s;
    assert a == x[..|a|] && x[|a|] == c && b == y[..|b|];
    assert r == x[|a| + 1..] && y[|a| + 1..] == b[|a| + 1..] + [c] + s;
  }

  /** Text from the last separator on is determined by the whole. */
  lemma {:induction false} SplitLast<T>(a: seq<T>, r: seq<T>, b: seq<T>, s: seq<T>, c: T)
    requires a + [c] + r == b + [c] + s && c !in r && c !in s
    ensures a == b && r == s
    decreases |r|
  {
    var x := a + [c] + r;
    var n := |x| - 1;
    assert x[n] == (if r == [] then c else r[|r| - 1]) && x[n] == (if s == [] then c else s[|s| - 1]);
    if r == [] || s == [] {
      assert a == x[..n] && b == x[..n];
    } else {
      assert x[..n] == a + [c] + r[..|r| - 1] && x[..n] == b + [c] + s[..|s| - 1];
      SplitLast(a, r[..|r| - 1], b, s[..|s| - 1], c);
      assert r == r[..|r| - 1] + [x[n]] && s == s[..|s| - 1] + [x[n]];
    }
  }
}
