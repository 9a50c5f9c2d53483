/** What the reader takes for text: exactly the encodings of sequences of Unicode scalar values. */
module WireText {
  import opened Prelude
  import opened Wire

  /** Every code point but the surrogates. */
  predicate Scalar(c: nat) { c < 0xD800 || 0xE000 <= c < 0x11_0000 }

  /** RFC 3629, section 3: six bits in each tail byte, the rest in the first. */
  function Encode(c: nat): Bytes
    requires Scalar(c)
  {
    if c < 0x80 then [c]
    else if c < 0x800 then [0xC0 + c / 0x40, 0x80 + c % 0x40]
    else if c < 0x1_0000 then [0xE0 + c / 0x1000, 0x80 + c / 0x40 % 0x40, 0x80 + c % 0x40]
    else [0xF0 + c / 0x4_0000, 0x80 + c / 0x1000 % 0x40, 0x80 + c / 0x40 % 0x40, 0x80 + c % 0x40]
  }

  function EncodeText(cs: seq<nat>): Bytes
    requires forall i :: 0 <= i < |cs| ==> Scalar(cs[i])
  {
    if cs == [] then [] else Encode(cs[0]) + EncodeText(cs[1..])
  }

  lemma {:induction false} Drops(c: nat, s: Bytes)
    requires Scalar(c)
    ensures var b := Encode(c) + s;
            |Encode(c)| > 0 && b[|Encode(c)|..] == s && forall i :: 0 <= i < |Encode(c)| ==> b[i] == Encode(c)[i]
  {}

  /** A scalar value may stand in front of any text, and of nothing else. */
  lemma {:induction false} EncodeAhead(c: nat, s: Bytes)
    requires Scalar(c)
    ensures Utf8(Encode(c) + s) <==> Utf8(s)
  {
    Drops(c, s);
    var e, b := Encode(c), Encode(c) + s;
    if c < 0x80 {
      assert |e| == 1 && b[0] == c;
    } else if c < 0x800 {
      assert |e| == 2 && b[0] == 0xC0 + c / 0x40 && b[1] == 0x80 + c % 0x40;
    } else if c < 0x1_0000 {
      assert |e| == 3 && b[0] == 0xE0 + c / 0x1000 && b[1] == 0x80 + c / 0x40 % 0x40 && b[2] == 0x80 + c % 0x40;
    } else {
      assert |e| == 4 && b[0] == 0xF0 + c / 0x4_0000 && b[1] == 0x80 + c / 0x1000 % 0x40;
      assert b[2] == 0x80 + c / 0x40 % 0x40 && b[3] == 0x80 + c % 0x40;
    }
  }

  lemma {:induction false} SixBits(x: nat, y: nat, z: nat, w: nat)
    requires y < 0x40 && z < 0x40 && w < 0x40
    ensures (x * 0x40 + w) / 0x40 == x && (x * 0x40 + w) % 0x40 == w
    ensures var c := x * 0x1000 + z * 0x40 + w; c / 0x1000 == x && c / 0x40 % 0x40 == z && c % 0x40 == w
    ensures var c := x * 0x4_0000 + y * 0x1000 + z * 0x40 + w;
            c / 0x4_0000 == x && c / 0x1000 % 0x40 == y && c / 0x40 % 0x40 == z && c % 0x40 == w
  {
    var c := x * 0x4_0000 + y * 0x1000 + z * 0x40 + w;
    assert c / 0x1000 == x * 0x40 + y && c / 0x40 == x * 0x1000 + y * 0x40 + z;
    assert (x * 0x1000 + z * 0x40 + w) / 0x40 == x * 0x40 + z;
  }

  lemma {:induction false} LeadTwo(b: Bytes) returns (c: nat)
    requires |b| >= 2 && 0xC2 <= b[0] <= 0xDF && Tail(b[1])
    ensures Scalar(c) && Encode(c) == [b[0], b[1]]
  {
    var x: nat, w: nat := b[0] - 0xC0, b[1] - 0x80;
    SixBits(x, 0, 0, w);
    c := x * 0x40 + w;
  }

  lemma {:induction false} LeadThree(b: Bytes) returns (c: nat)
    requires |b| >= 3 && 0xE0 <= b[0] <= 0xEF && Tail(b[1]) && Tail(b[2])
    requires (b[0] == 0xE0 ==> b[1] >= 0xA0) && (b[0] == 0xED ==> b[1] < 0xA0)
    ensures Scalar(c) && Encode(c) == [b[0], b[1], b[2]]
  {
    var x: nat, z: nat, w: nat := b[0] - 0xE0, b[1] - 0x80, b[2] - 0x80;
    SixBits(x, 0, z, w);
    c := x * 0x1000 + z * 0x40 + w;
  }

  lemma {:induction false} LeadFour(b: Bytes) returns (c: nat)
    requires |b| >= 4 && 0xF0 <= b[0] <= 0xF4 && Tail(b[1]) && Tail(b[2]) && Tail(b[3])
    requires (b[0] == 0xF0 ==> b[1] >= 0x90) && (b[0] == 0xF4 ==> b[1] < 0x90)
    ensures Scalar(c) && Encode(c) == [b[0], b[1], b[2], b[3]]
  {
    var x: nat, y: nat, z: nat, w: nat := b[0] - 0xF0, b[1] - 0x80, b[2] - 0x80, b[3] - 0x80;
    SixBits(x, y, z, w);
    c := x * 0x4_0000 + y * 0x1000 + z * 0x40 + w;
  }

  /** Text starts with a scalar value. */
  lemma {:induction false} Leading(b: Bytes) returns (c: nat)
    requires Utf8(b) && b != []
    ensures Scalar(c) && |Encode(c)| <= |b| && b == Encode(c) + b[|Encode(c)|..]
  {
    if b[0] < 0x80 {
      c := b[0];
      assert Encode(c) == [b[0]];
    } else if b[0] <= 0xDF {
      c := LeadTwo(b);
    } else if b[0] <= 0xEF {
      c := LeadThree(b);
    } else {
      c := LeadFour(b);
    }
    hide Encode, Scalar;
  }

  /** The reader accepts exactly the encodings of scalar values. */
  lemma {:induction false} TextIff(b: Bytes)
    ensures Utf8(b) <==> exists cs: seq<nat> :: (forall i :: 0 <= i < |cs| ==> Scalar(cs[i])) && EncodeText(cs) == b
  {
    if Utf8(b) {
      var cs := Read(b);
    }
    if cs: seq<nat> :| (forall i :: 0 <= i < |cs| ==> Scalar(cs[i])) && EncodeText(cs) == b {
      Written(cs);
    }
  }

  lemma {:induction false} Written(cs: seq<nat>)
    requires forall i :: 0 <= i < |cs| ==> Scalar(cs[i])
    ensures Utf8(EncodeText(cs))
  {
    if cs != [] {
      Written(cs[1..]);
      EncodeAhead(cs[0], EncodeText(cs[1..]));
    }
  }

  lemma {:induction false} Read(b: Bytes) returns (cs: seq<nat>)
    requires Utf8(b)
    ensures (forall i :: 0 <= i < |cs| ==> Scalar(cs[i])) && EncodeText(cs) == b
    decreases |b|
  {
    if b == [] {
      cs := [];
    } else {
      var c := Leading(b);
      var rest := b[|Encode(c)|..];
      EncodeAhead(c, rest);
      var more := Read(rest);
      cs := [c] + more;
      assert cs[1..] == more;
    }
  }
}
