/** The bytes themselves: markers, byte order, variant numbers and the order of fields, so that both
    ends agree with the encoder on the other side of the wire and not only with each other. */
module WireBytes {
  import opened Prelude
  import opened Wire
  import opened WireEnvelope

  // ---- Integers ---------------------------------------------------------------------------------

  /** Byte `i` of a number, counted from the least significant. */
  function ByteAt(v: nat, i: nat): byte { if i == 0 then v % 256 else ByteAt(v / 256, i - 1) }

  lemma {:induction false} BytesOf(v: nat, n: nat)
    ensures |ToLE(v, n)| == n && forall i :: 0 <= i < n ==> ToLE(v, n)[i] == ByteAt(v, i)
    decreases n
  {
    if n > 0 {
      BytesOf(v / 256, n - 1);
    }
  }

  /** Up to 250 a number is its own byte; 251, 252 and 253 announce two, four and eight bytes, least significant
      first. */
  lemma {:induction false} VarintBytes(v: nat)
    ensures v <= 250 ==> EncVarint(v) == [v]
    ensures 250 < v < 0x1_0000 ==> EncVarint(v) == [251, ByteAt(v, 0), ByteAt(v, 1)]
    ensures 0x1_0000 <= v < 0x1_0000_0000 ==>
              EncVarint(v) == [252, ByteAt(v, 0), ByteAt(v, 1), ByteAt(v, 2), ByteAt(v, 3)]
    ensures 0x1_0000_0000 <= v ==>
              EncVarint(v) == [253, ByteAt(v, 0), ByteAt(v, 1), ByteAt(v, 2), ByteAt(v, 3), ByteAt(v, 4), ByteAt(v, 5),
                                ByteAt(v, 6), ByteAt(v, 7)]
  {
    BytesOf(v, 2);
    BytesOf(v, 4);
    BytesOf(v, 8);
    hide ToLE, ByteAt;
  }

  lemma {:induction false} FromTwo(a: byte, b: byte)
    ensures FromLE([a, b]) == a + 256 * b
  {
    assert [a, b][1..] == [b] && [b][1..] == [];
    assert FromLE([b]) == b;
  }

  lemma {:induction false} FromFour(a: byte, b: byte, c: byte, d: byte)
    ensures FromLE([a, b, c, d]) == a + 256 * (b + 256 * (c + 256 * d))
  {
    assert [a, b, c, d][1..] == [b, c, d] && [b, c, d][1..] == [c, d];
    FromTwo(c, d);
    assert FromLE([b, c, d]) == b + 256 * FromLE([c, d]);
  }

  lemma {:induction false} FromEight(a: byte, b: byte, c: byte, d: byte, t: Bytes)
    requires |t| == 4
    ensures FromLE([a, b, c, d] + t) == a + 256 * (b + 256 * (c + 256 * (d + 256 * FromLE(t))))
  {
    assert ([a, b, c, d] + t)[1..] == [b, c, d] + t && ([b, c, d] + t)[1..] == [c, d] + t;
    assert ([c, d] + t)[1..] == [d] + t && ([d] + t)[1..] == t;
    assert FromLE([d] + t) == d + 256 * FromLE(t);
    assert FromLE([c, d] + t) == c + 256 * FromLE([d] + t);
    assert FromLE([b, c, d] + t) == b + 256 * FromLE([c, d] + t);
  }

  lemma {:induction false} TwoRead(a: byte, b: byte, s: Bytes)
    ensures ParseVarint([251, a, b] + s) == Ok((a + 256 * b, s))
  {
    FromTwo(a, b);
    hide FromLE;
    assert ([251, a, b] + s)[1..] == [a, b] + s && ([a, b] + s)[..2] == [a, b] && ([a, b] + s)[2..] == s;
  }

  lemma {:induction false} FourRead(a: byte, b: byte, c: byte, d: byte, s: Bytes)
    ensures ParseVarint([252, a, b, c, d] + s) == Ok((a + 256 * (b + 256 * (c + 256 * d)), s))
  {
    FromFour(a, b, c, d);
    hide FromLE;
    var four := [a, b, c, d];
    assert ([252, a, b, c, d] + s)[1..] == four + s && (four + s)[..4] == four && (four + s)[4..] == s;
  }

  lemma {:induction false} EightRead(a: byte, b: byte, c: byte, d: byte, t: Bytes, s: Bytes)
    requires |t| == 4
    ensures ParseVarint([253, a, b, c, d] + t + s)
         == Ok((a + 256 * (b + 256 * (c + 256 * (d + 256 * FromLE(t)))), s))
  {
    FromEight(a, b, c, d, t);
    hide FromLE;
    var eight := [a, b, c, d] + t;
    assert ([253, a, b, c, d] + t + s)[1..] == eight + s && (eight + s)[..8] == eight && (eight + s)[8..] == s;
  }

  /** A marker announces its bytes whether or not a shorter form would do; 254 and 255 announce nothing. */
  lemma {:induction false} MarkersRead(a: byte, b: byte, c: byte, d: byte, t: Bytes, s: Bytes)
    ensures a <= 250 ==> ParseVarint([a] + s) == Ok((a, s))
    ensures ParseVarint([251, a, b] + s) == Ok((a + 256 * b, s))
    ensures ParseVarint([252, a, b, c, d] + s) == Ok((a + 256 * (b + 256 * (c + 256 * d)), s))
    ensures |t| == 4 ==>
              ParseVarint([253, a, b, c, d] + t + s)
              == Ok((a + 256 * (b + 256 * (c + 256 * (d + 256 * FromLE(t)))), s))
    ensures ParseVarint([254] + s) == Err(U128Unsupported) && ParseVarint([255] + s) == Err(UnknownMarker)
    ensures ParseVarint([]) == Err(Truncated)
  {
    assert ([a] + s)[1..] == s;
    assert ParseVarint([254] + s) == Err(U128Unsupported) && ParseVarint([255] + s) == Err(UnknownMarker);
    TwoRead(a, b, s);
    FourRead(a, b, c, d, s);
    hide FromLE, ParseLE;
    if |t| == 4 {
      EightRead(a, b, c, d, t, s);
    }
  }

  /** Weights are folded so that a small one of either sign takes one byte. */
  lemma {:induction false} WeightBytes(n: int, s: Bytes)
    requires 0 <= n <= 124
    ensures ParseI32([2 * n] + s) == Ok((n, s)) && ParseI32([2 * n + 1] + s) == Ok((-n - 1, s))
    ensures EncVarint(ZigZag(n)) == [2 * n] && EncVarint(ZigZag(-n - 1)) == [2 * n + 1]
  {
    MarkersRead(2 * n, 0, 0, 0, [], s);
    MarkersRead(2 * n + 1, 0, 0, 0, [], s);
    hide ParseVarint;
  }

  // ---- Instructions -------------------------------------------------------------------------------

  lemma {:induction false} OneByte(v: byte)
    requires v <= 250
    ensures EncVarint(v) == [v]
  {}

  lemma {:induction false} SmallBytes()
    ensures forall v {:trigger EncVarint(v)} :: 0 <= v <= 17 ==> EncVarint(v) == [v]
    ensures forall b {:trigger EncBytes([b])} :: EncBytes([b]) == [1, b]
    ensures EncBytes([104, 105]) == [2, 104, 105]
  {}

  lemma {:induction false} EntryBytes()
    ensures EncVec(EncEntry, [Entry(4, [104, 105])]) == [1, 4, 2, 104, 105]
  {
    SmallBytes();
    assert [Entry(4, [104, 105])][1..] == [];
    assert EncAll(EncEntry, []) == [];
    hide EncVarint, EncBytes;
  }

  lemma {:induction false} OpBytes()
    ensures EncVec(EncPatchOp, [Set(4, [104]), Unset(5)]) == [2, 0, 4, 1, 104, 1, 5]
  {
    SmallBytes();
    var ops := [Set(4, [104]), Unset(5)];
    assert ops[1..] == [Unset(5)] && [Unset(5)][1..] == [];
    assert EncAll(EncPatchOp, []) == [] && EncAll(EncPatchOp, [Unset(5)]) == EncPatchOp(Unset(5));
    hide EncVarint, EncBytes;
  }

  lemma {:induction false} ChangeBytes()
    ensures EncVec(EncChange, [Change(-1, [107], [104, 105])]) == [1, 1, 1, 107, 2, 104, 105]
  {
    SmallBytes();
    assert [Change(-1, [107], [104, 105])][1..] == [];
    assert EncAll(EncChange, []) == [];
    hide EncVarint, EncBytes;
  }

  lemma {:induction false} RowBytes()
    ensures EncVec(EncRow, [Row([107], [104])]) == [1, 1, 107, 1, 104] && EncVec(EncRow, []) == [0]
  {
    SmallBytes();
    assert [Row([107], [104])][1..] == [];
    assert EncAll(EncRow, []) == [];
    hide EncVarint, EncBytes;
  }

  /** Every variant over small fields, byte by byte: its number, then its fields in order. */
  lemma {:induction false} TableBytes(kind: TableKind)
    ensures var k := match kind case Tag => 0 case Attr => 1 case EventKind => 2;
            && EncInstruction(InitInternTable(kind, [Entry(4, [104, 105])])) == [0, k, 1, 4, 2, 104, 105]
            && EncInstruction(PatchInternTable(kind, [Set(4, [104]), Unset(5)])) == [1, k, 2, 0, 4, 1, 104, 1, 5]
  {
    SmallBytes();
    EntryBytes();
    OpBytes();
    hide EncVarint, EncBytes, EncVec;
  }

  lemma {:induction false} MadeBytes(a: byte, b: byte, c: byte)
    requires a <= 250 && b <= 250 && c <= 250
    ensures EncInstruction(Create(a, b)) == [2, a, b]
    ensures EncInstruction(Append(a, b)) == [5, a, b] && EncInstruction(Remove(a)) == [6, a]
  {
    OneByte(a);
    OneByte(b);
    OneByte(c);
    SmallBytes();
    hide EncVarint, EncBytes;
  }

  lemma {:induction false} PaintBytes(a: byte, b: byte, c: byte)
    requires a <= 250 && b <= 250 && c <= 250
    ensures EncInstruction(SetAttr(a, b, [104, 105])) == [3, a, b, 2, 104, 105]
    ensures EncInstruction(SetText(a, [104, 105])) == [4, a, 2, 104, 105]
  {
    OneByte(a);
    OneByte(b);
    OneByte(c);
    SmallBytes();
    hide EncVarint, EncBytes;
  }

  lemma {:induction false} BindBytes(a: byte, b: byte, c: byte)
    requires a <= 250 && b <= 250 && c <= 250
    ensures EncInstruction(BindEvent(a, b, c)) == [7, a, b, c]
    ensures EncInstruction(BindSlot(a, b)) == [8, a, b] && EncInstruction(Placeholder(a, b)) == [9, a, b]
  {
    OneByte(a);
    OneByte(b);
    OneByte(c);
    SmallBytes();
    hide EncVarint, EncBytes;
  }

  lemma {:induction false} RefBytes(a: byte, b: byte, c: byte)
    requires a <= 250 && b <= 250 && c <= 250
    ensures EncInstruction(Patch(a, b, c)) == [10, a, b, c]
    ensures EncInstruction(SetTextRef(a, b)) == [11, a, b] && EncInstruction(SetAttrRef(a, b, c)) == [12, a, b, c]
  {
    OneByte(a);
    OneByte(b);
    OneByte(c);
    SmallBytes();
    hide EncVarint, EncBytes;
  }

  lemma {:induction false} SlotBytes(a: byte, b: byte, c: byte)
    requires a <= 250 && b <= 250 && c <= 250
    ensures EncInstruction(SlotSet(a, [104, 105])) == [13, a, 2, 104, 105]
    ensures EncInstruction(Navigate([104, 105])) == [14, 2, 104, 105]
  {
    OneByte(a);
    OneByte(b);
    OneByte(c);
    SmallBytes();
    hide EncVarint, EncBytes;
  }

  lemma {:induction false} DeltaBytes(slot: byte)
    requires slot <= 250
    ensures EncInstruction(SlotDelta(slot, [Change(-1, [107], [104, 105])])) == [15, slot, 1, 1, 1, 107, 2, 104, 105]
  {
    OneByte(slot);
    OneByte(15);
    ChangeBytes();
    hide EncVec, EncVarint;
  }

  lemma {:induction false} RebuildBytes(slot: byte)
    requires slot <= 250
    ensures EncInstruction(ReconcileList(slot, [Row([107], [104])])) == [16, slot, 1, 1, 107, 1, 104]
  {
    OneByte(slot);
    OneByte(16);
    RowBytes();
    hide EncVec, EncVarint;
  }

  lemma {:induction false} InsertBytes(slot: byte)
    requires slot <= 250
    ensures EncInstruction(SlotInsert(slot, None, [])) == [17, slot, 0, 0]
    ensures EncInstruction(SlotInsert(slot, Some([108]), [Row([107], [104])]))
            == [17, slot, 1, 1, 108, 1, 1, 107, 1, 104]
  {
    OneByte(slot);
    OneByte(17);
    SmallBytes();
    RowBytes();
    hide EncVec, EncVarint, EncBytes;
  }

  /** A frame is its number, its component if it has one, and its instructions, counted. */
  lemma {:induction false} FrameBytes(frame: byte, component: byte, node: byte)
    requires frame <= 250 && component <= 250 && node <= 250
    ensures EncFrame(Frame(frame, None, [])) == [frame, 0, 0]
    ensures EncFrame(Frame(frame, Some(component), [Remove(node)])) == [frame, 1, component, 1, 6, node]
    ensures ParseFrame([frame, 0, 1, 99]) == Err(UnknownVariant)
  {
    assert EncAll(EncInstruction, [Remove(node)]) == [6, node] by { assert [Remove(node)][1..] == []; }
    assert EncAll(EncInstruction, []) == [];
    assert ParseFrame([frame, 0, 1, 99]) == Err(UnknownVariant) by { UnknownRefused(frame); }
    hide EncAll, ParseFrame;
  }

  lemma {:induction false} UnknownRefused(frame: byte)
    requires frame <= 250
    ensures ParseFrame([frame, 0, 1, 99]) == Err(UnknownVariant)
  {
    var b := [frame, 0, 1, 99];
    assert b[1..] == [0, 1, 99] && b[1..][1..] == [1, 99] && b[1..][1..][1..] == [99] && [99][1..] == [];
    assert ParseVarint(b) == Ok((frame, b[1..]));
    assert ParseComponent([0, 1, 99]) == Ok((None, [1, 99]));
    assert ParseInstruction([99]) == Err(UnknownVariant);
    assert ParseMany(ParseInstruction, 1, [99]) == Err(UnknownVariant);
    assert ParseVarint([1, 99]) == Ok((1, [99]));
    assert ParseInstructions([1, 99]) == Err(UnknownVariant);
  }

  /** An envelope of one-byte fields: the id, the kind, the payload's length, the payload. */
  lemma {:induction false} EnvelopeBytes(actionId: byte, kind: byte, payload: Bytes)
    requires actionId <= 250 && |payload| <= 250
    ensures Envelope(actionId, kind, payload) == [actionId, kind, |payload|] + payload
  {
    assert EncBytes(payload) == [|payload|] + payload;
  }
}
