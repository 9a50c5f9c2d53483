/** The action envelope: the one message the client writes. */
module WireEnvelope {
  import opened Prelude
  import opened Wire
  import opened WireLaws

  datatype EnvelopeError = BadActionId | BadEventKind

  /** Four bytes take an id modulo their span. */
  function EncVarintU32(v: nat): Bytes {
    if v < U16_MARKER then [v] else if v <= U16_MAX then [U16_MARKER] + ToLE(v, 2) else [U32_MARKER] + ToLE(v, 4)
  }

  function Envelope(actionId: nat, eventKind: byte, payload: Bytes): Bytes {
    EncVarintU32(actionId) + ([eventKind] + EncBytes(payload))
  }

  lemma {:induction false} LEBound(b: Bytes)
    ensures FromLE(b) < Span(|b|)
  {
    if b != [] {
      LEBound(b[1..]);
    }
  }

  lemma {:induction false} LELength(v: nat, n: nat)
    ensures |ToLE(v, n)| == n
    decreases n
  {
    if n > 0 {
      LELength(v / 256, n - 1);
    }
  }

  /** What four bytes keep of an id: the id itself, if and only if it fits. */
  function Kept(v: nat): nat { if v <= U16_MAX then v else FromLE(ToLE(v, 4)) }

  lemma {:induction false} KeptExactly(v: nat)
    ensures Kept(v) <= U32_MAX && (Kept(v) == v <==> v <= U32_MAX)
  {
    Spans();
    LELength(v, 4);
    LEBound(ToLE(v, 4));
    if v <= U32_MAX {
      LERoundTrip(v, 4);
    }
  }

  lemma {:induction false} U32Written(v: nat)
    ensures Reads(ParseU32, EncVarintU32(v), Kept(v))
  {
    KeptExactly(v);
    if v <= U16_MAX {
      U32Reads(v);
    } else {
      LELength(v, 4);
      var e := ToLE(v, 4);
      forall s: Bytes ensures ParseU32(EncVarintU32(v) + s) == Ok((Kept(v), s)) {
        Assoc([U32_MARKER], e, s);
        MarkerReads(U32_MARKER, e + s);
        assert (e + s)[..4] == e && (e + s)[4..] == s;
      }
    }
  }

  lemma {:induction false} KindWritten(k: byte)
    ensures Reads(ParseU8, [k], k)
  {
    forall s: Bytes ensures ParseU8([k] + s) == Ok((k, s)) {
      MarkerReads(k, s);
    }
  }

  /** The envelope reads back field by field, the id cut to 32 bits: exactly, if and only if it fits. */
  lemma {:induction false} EnvelopeReads(actionId: nat, eventKind: byte, payload: Bytes, s: Bytes)
    requires |payload| <= U64_MAX
    ensures Triple(ParseU32, ParseU8, ParseBytes, Envelope(actionId, eventKind, payload) + s)
            == Ok(((Kept(actionId), eventKind, payload), s))
    ensures Triple(ParseU32, ParseU8, ParseBytes, Envelope(actionId, eventKind, payload) + s)
            == Ok(((actionId, eventKind, payload), s))
            <==> actionId <= U32_MAX
  {
    U32Written(actionId);
    KindWritten(eventKind);
    BytesReads(payload);
    KeptExactly(actionId);
    hide Reads, Kept, EncVarintU32, EncBytes, ParseU8, ParseU32, ParseBytes, Triple;
    TripleReads(ParseU32, ParseU8, ParseBytes, EncVarintU32(actionId), [eventKind], EncBytes(payload), Kept(actionId),
      eventKind, payload);
  }

  lemma {:induction false} Joined(a: Bytes, b: Bytes, c: Bytes, d: Bytes)
    ensures a + b + c + d == a + (b + (c + d))
  {}

  /** Copy `src` into `out` from `at` on. */
  method Blit(out: array<byte>, at: nat, src: Bytes)
    requires at + |src| <= out.Length
    modifies out
    ensures out[..] == old(out[..at]) + src + old(out[at + |src|..])
  {
    var i := 0;
    while i < |src|
      invariant 0 <= i <= |src|
      invariant forall k :: 0 <= k < out.Length ==> out[k] == if at <= k < at + i then src[k - at] else old(out[k])
    {
      out[at + i] := src[i];
      i := i + 1;
    }
  }

  method EncodeActionEnvelope(actionId: int, eventKind: int, payload: Bytes)
    returns (r: Result<array<byte>, EnvelopeError>)
    ensures r.Ok? <==> actionId >= 0 && 0 <= eventKind <= 255
    ensures r.Err? ==> r.error == if actionId < 0 then BadActionId else BadEventKind
    ensures r.Ok? ==> fresh(r.value) && r.value[..] == Envelope(actionId, eventKind, payload)
  {
    if actionId < 0 {
      return Err(BadActionId);
    }
    if eventKind < 0 || eventKind > 255 {
      return Err(BadEventKind);
    }
    var id, length := EncVarintU32(actionId), EncVarint(|payload|);
    assert Envelope(actionId, eventKind, payload) == id + ([eventKind] + (length + payload));
    hide EncVarintU32, EncVarint, Envelope;
    var out := new byte[|id| + 1 + |length| + |payload|](_ => 0);
    var offset := 0;
    Blit(out, offset, id);
    offset := offset + |id|;
    assert out[..offset] == id;
    out[offset] := eventKind;
    offset := offset + 1;
    assert out[..offset] == id + [eventKind];
    Blit(out, offset, length);
    offset := offset + |length|;
    assert out[..offset] == id + [eventKind] + length;
    Blit(out, offset, payload);
    assert out[..] == id + [eventKind] + length + payload;
    Joined(id, [eventKind], length, payload);
    r := Ok(out);
  }
}
