/** Round trips: every encoding reads back, whatever follows it, and none of its strict prefixes does. */
module WireLaws {
  import opened Prelude
  import opened Wire

  /** `e` reads as `v`, leaving exactly what follows. */
  ghost predicate Reads<T(!new)>(p: Bytes -> Parse<T>, e: Bytes, v: T) { forall s: Bytes :: p(e + s) == Ok((v, s)) }

  /** What is read does not depend on what lies beyond it. */
  ghost predicate Local<T(!new)>(p: Bytes -> Parse<T>) {
    forall b: Bytes, s: Bytes :: p(b).Ok? ==> p(b + s) == Ok((p(b).value.0, p(b).value.1 + s))
  }

  lemma {:induction false} Assoc(a: Bytes, b: Bytes, s: Bytes)
    ensures (a + b) + s == a + (b + s)
  {}

  // ---- Integers -------------------------------------------------------------------------------

  lemma {:induction false} LERoundTrip(v: nat, n: nat)
    requires v < Span(n)
    ensures |ToLE(v, n)| == n && FromLE(ToLE(v, n)) == v
    decreases n
  {
    if n > 0 {
      LERoundTrip(v / 256, n - 1);
      assert ToLE(v, n)[1..] == ToLE(v / 256, n - 1);
    }
  }

  lemma {:induction false} Spans()
    ensures Span(2) == U16_MAX + 1 && Span(4) == U32_MAX + 1 && Span(8) == U64_MAX + 1
  {
    assert Span(1) == 256 && Span(2) == 65536 && Span(3) == 0x100_0000 && Span(4) == 0x1_0000_0000;
    assert Span(5) == 0x100_0000_0000 && Span(6) == 0x1_0000_0000_0000 && Span(7) == 0x100_0000_0000_0000;
  }

  lemma {:induction false} LEReads(v: nat, n: nat, s: Bytes)
    requires v < Span(n)
    ensures ParseLE(ToLE(v, n) + s, n) == Ok((v, s))
  {
    LERoundTrip(v, n);
    assert (ToLE(v, n) + s)[..n] == ToLE(v, n) && (ToLE(v, n) + s)[n..] == s;
  }

  lemma {:induction false} MarkerReads(m: byte, r: Bytes)
    ensures ParseU8([m] + r) == Ok((m, r))
  {}

  lemma {:induction false} VarintReads(v: nat)
    requires v <= U64_MAX
    ensures Reads(ParseVarint, EncVarint(v), v)
  {
    Spans();
    forall s: Bytes ensures ParseVarint(EncVarint(v) + s) == Ok((v, s)) {
      if v < U16_MARKER {
        MarkerReads(v, s);
      } else if v <= U16_MAX {
        Assoc([U16_MARKER], ToLE(v, 2), s);
        MarkerReads(U16_MARKER, ToLE(v, 2) + s);
        LEReads(v, 2, s);
      } else if v <= U32_MAX {
        Assoc([U32_MARKER], ToLE(v, 4), s);
        MarkerReads(U32_MARKER, ToLE(v, 4) + s);
        LEReads(v, 4, s);
      } else {
        Assoc([U64_MARKER], ToLE(v, 8), s);
        MarkerReads(U64_MARKER, ToLE(v, 8) + s);
        LEReads(v, 8, s);
      }
    }
  }

  lemma {:induction false} U16Reads(v: nat)
    requires v <= U16_MAX
    ensures Reads(ParseU16, EncVarint(v), v)
  {
    VarintReads(v);
  }

  lemma {:induction false} U32Reads(v: nat)
    requires v <= U32_MAX
    ensures Reads(ParseU32, EncVarint(v), v)
  {
    VarintReads(v);
  }

  predicate I32(w: int) { -0x8000_0000 <= w <= 0x7fff_ffff }

  lemma {:induction false} I32Reads(w: int)
    requires I32(w)
    ensures Reads(ParseI32, EncVarint(ZigZag(w)), w)
  {
    U32Reads(ZigZag(w));
    forall s: Bytes ensures ParseI32(EncVarint(ZigZag(w)) + s) == Ok((w, s)) {
      assert ParseU32(EncVarint(ZigZag(w)) + s) == Ok((ZigZag(w), s));
    }
  }

  // ---- Text and sequences -----------------------------------------------------------------------

  lemma {:induction false} BytesReads(b: Bytes)
    requires |b| <= U64_MAX
    ensures Reads(ParseBytes, EncBytes(b), b)
  {
    VarintReads(|b|);
    forall s: Bytes ensures ParseBytes(EncBytes(b) + s) == Ok((b, s)) {
      Assoc(EncVarint(|b|), b, s);
      assert ParseVarint(EncVarint(|b|) + (b + s)) == Ok((|b|, b + s));
      assert (b + s)[..|b|] == b && (b + s)[|b|..] == s;
    }
  }

  predicate WfText(t: Text) { |t| <= U64_MAX && Utf8(t) }

  lemma {:induction false} TextReads(t: Text)
    requires WfText(t)
    ensures Reads(ParseText, EncBytes(t), Decoded(t))
  {
    BytesReads(t);
    forall s: Bytes ensures ParseText(EncBytes(t) + s) == Ok((Decoded(t), s)) {
      assert ParseBytes(EncBytes(t) + s) == Ok((t, s));
    }
  }

  lemma {:induction false} OptionReads<T(!new), U(!new)>(p: Bytes -> Parse<U>, enc: T -> Bytes, x: Option<T>,
                                         y: Option<U>)
    requires x.Some? <==> y.Some?
    requires x.Some? ==> Reads(p, enc(x.value), y.value)
    ensures forall s: Bytes :: ParseOption(p, EncOption(enc, x) + s) == Ok((y, s))
  {
    forall s: Bytes ensures ParseOption(p, EncOption(enc, x) + s) == Ok((y, s)) {
      if x.None? {
        MarkerReads(0, s);
      } else {
        Assoc([1], enc(x.value), s);
        MarkerReads(1, enc(x.value) + s);
        assert p(enc(x.value) + s) == Ok((y.value, s));
      }
    }
  }

  lemma {:induction false} ManyReads<T(!new), U(!new)>(p: Bytes -> Parse<U>, enc: T -> Bytes, xs: seq<T>, ys: seq<U>,
                                       s: Bytes)
    requires |xs| == |ys| && forall i :: 0 <= i < |xs| ==> Reads(p, enc(xs[i]), ys[i])
    ensures ParseMany(p, |xs|, EncAll(enc, xs) + s) == Ok((ys, s))
    decreases |xs|
  {
    if xs == [] {
      assert EncAll(enc, xs) + s == s;
    } else {
      var rest := EncAll(enc, xs[1..]);
      Assoc(enc(xs[0]), rest, s);
      assert p(enc(xs[0]) + (rest + s)) == Ok((ys[0], rest + s));
      ManyReads(p, enc, xs[1..], ys[1..], s);
      assert ys == [ys[0]] + ys[1..];
    }
  }

  lemma {:induction false} VecReads<T(!new), U(!new)>(p: Bytes -> Parse<U>, enc: T -> Bytes, xs: seq<T>, ys: seq<U>)
    requires |xs| == |ys| <= U32_MAX && forall i :: 0 <= i < |xs| ==> Reads(p, enc(xs[i]), ys[i])
    ensures forall s: Bytes :: ParseVec(p, EncVec(enc, xs) + s) == Ok((ys, s))
  {
    VarintReads(|xs|);
    forall s: Bytes ensures ParseVec(p, EncVec(enc, xs) + s) == Ok((ys, s)) {
      Assoc(EncVarint(|xs|), EncAll(enc, xs), s);
      assert ParseVarint(EncVarint(|xs|) + (EncAll(enc, xs) + s)) == Ok((|xs|, EncAll(enc, xs) + s));
      ManyReads(p, enc, xs, ys, s);
    }
  }

  lemma {:induction false} PairReads<A(!new), B(!new)>(p: Bytes -> Parse<A>, q: Bytes -> Parse<B>, d: Bytes, e: Bytes,
                                       a: A, b: B)
    requires Reads(p, d, a) && Reads(q, e, b)
    ensures forall s: Bytes :: Pair(p, q, (d + e) + s) == Ok(((a, b), s))
  {
    forall s: Bytes ensures Pair(p, q, (d + e) + s) == Ok(((a, b), s)) {
      Assoc(d, e, s);
      assert p(d + (e + s)) == Ok((a, e + s)) && q(e + s) == Ok((b, s));
    }
  }

  lemma {:induction false} TripleReads<A(!new), B(!new), C(!new)>(p: Bytes -> Parse<A>, q: Bytes -> Parse<B>,
                                         r: Bytes -> Parse<C>,
    d: Bytes, e: Bytes, f: Bytes, a: A, b: B, c: C)
    requires Reads(p, d, a) && Reads(q, e, b) && Reads(r, f, c)
    ensures forall s: Bytes :: Triple(p, q, r, (d + (e + f)) + s) == Ok(((a, b, c), s))
  {
    forall s: Bytes ensures Triple(p, q, r, (d + (e + f)) + s) == Ok(((a, b, c), s)) {
      Assoc(d, e + f, s);
      Assoc(e, f, s);
      assert p(d + (e + (f + s))) == Ok((a, e + (f + s))) && q(e + (f + s)) == Ok((b, f + s)) && r(f + s) == Ok((c, s));
    }
  }

  // ---- Shapes ------------------------------------------------------------------------------------

  predicate WfEntry(e: Entry) { e.id <= U16_MAX && WfText(e.value) }

  predicate WfPatchOp(o: PatchOp) { o.id <= U16_MAX && (o.Set? ==> WfText(o.value)) }

  predicate WfChange(c: Change) { I32(c.weight) && WfText(c.key) && |c.payload| <= U64_MAX }

  predicate WfRow(r: Row) { WfText(r.key) && |r.html| <= U64_MAX }

  function ReadEntry(e: Entry): Entry { e.(value := Decoded(e.value)) }

  function ReadPatchOp(o: PatchOp): PatchOp { if o.Set? then o.(value := Decoded(o.value)) else o }

  function ReadChange(c: Change): Change { c.(key := Decoded(c.key)) }

  function ReadRow(r: Row): Row { r.(key := Decoded(r.key)) }

  function Each<T, U>(f: T -> U, xs: seq<T>): (ys: seq<U>)
    ensures |ys| == |xs| && forall i :: 0 <= i < |xs| ==> ys[i] == f(xs[i])
  {
    if xs == [] then [] else [f(xs[0])] + Each(f, xs[1..])
  }

  lemma {:induction false} KindReads(k: TableKind)
    ensures Reads(ParseKind, EncKind(k), k)
  {
    U32Reads(KindIndex(k));
    forall s: Bytes ensures ParseKind(EncKind(k) + s) == Ok((k, s)) {
      assert ParseU32(EncKind(k) + s) == Ok((KindIndex(k), s));
    }
  }

  lemma {:induction false} EntryReads(e: Entry)
    requires WfEntry(e)
    ensures Reads(ParseEntry, EncEntry(e), ReadEntry(e))
  {
    U16Reads(e.id);
    TextReads(e.value);
    PairReads(ParseU16, ParseText, EncVarint(e.id), EncBytes(e.value), e.id, Decoded(e.value));
  }

  lemma {:induction false} PatchOpReads(o: PatchOp)
    requires WfPatchOp(o)
    ensures Reads(ParsePatchOp, EncPatchOp(o), ReadPatchOp(o))
  {
    U16Reads(o.id);
    U32Reads(0);
    U32Reads(1);
    if o.Set? {
      TextReads(o.value);
      PairReads(ParseU16, ParseText, EncVarint(o.id), EncBytes(o.value), o.id, Decoded(o.value));
    }
    forall s: Bytes ensures ParsePatchOp(EncPatchOp(o) + s) == Ok((ReadPatchOp(o), s)) {
      match o
      case Set(id, value) =>
        var body := EncVarint(id) + EncBytes(value);
        Assoc(EncVarint(0), body, s);
        assert ParseU32(EncVarint(0) + (body + s)) == Ok((0, body + s));
      case Unset(id) =>
        Assoc(EncVarint(1), EncVarint(id), s);
        assert ParseU32(EncVarint(1) + (EncVarint(id) + s)) == Ok((1, EncVarint(id) + s));
    }
  }

  lemma {:induction false} ChangeReads(c: Change)
    requires WfChange(c)
    ensures Reads(ParseChange, EncChange(c), ReadChange(c))
  {
    I32Reads(c.weight);
    TextReads(c.key);
    BytesReads(c.payload);
    TripleReads(ParseI32, ParseText, ParseBytes, EncVarint(ZigZag(c.weight)), EncBytes(c.key), EncBytes(c.payload),
      c.weight, Decoded(c.key), c.payload);
  }

  lemma {:induction false} RowReads(r: Row)
    requires WfRow(r)
    ensures Reads(ParseRow, EncRow(r), ReadRow(r))
  {
    TextReads(r.key);
    BytesReads(r.html);
    PairReads(ParseText, ParseBytes, EncBytes(r.key), EncBytes(r.html), Decoded(r.key), r.html);
  }

  lemma {:induction false} RowsRead(rows: seq<Row>)
    requires |rows| <= U32_MAX && forall r :: r in rows ==> WfRow(r)
    ensures Reads(ParseRows, EncVec(EncRow, rows), Each(ReadRow, rows))
  {
    forall i | 0 <= i < |rows| ensures Reads(ParseRow, EncRow(rows[i]), Each(ReadRow, rows)[i]) {
      RowReads(rows[i]);
    }
    VecReads(ParseRow, EncRow, rows, Each(ReadRow, rows));
  }

  lemma {:induction false} EntriesRead(xs: seq<Entry>)
    requires |xs| <= U32_MAX && forall x :: x in xs ==> WfEntry(x)
    ensures Reads(ParseEntries, EncVec(EncEntry, xs), Each(ReadEntry, xs))
  {
    forall i | 0 <= i < |xs| ensures Reads(ParseEntry, EncEntry(xs[i]), Each(ReadEntry, xs)[i]) {
      EntryReads(xs[i]);
    }
    VecReads(ParseEntry, EncEntry, xs, Each(ReadEntry, xs));
  }

  lemma {:induction false} PatchOpsRead(xs: seq<PatchOp>)
    requires |xs| <= U32_MAX && forall x :: x in xs ==> WfPatchOp(x)
    ensures Reads(ParsePatchOps, EncVec(EncPatchOp, xs), Each(ReadPatchOp, xs))
  {
    forall i | 0 <= i < |xs| ensures Reads(ParsePatchOp, EncPatchOp(xs[i]), Each(ReadPatchOp, xs)[i]) {
      PatchOpReads(xs[i]);
    }
    VecReads(ParsePatchOp, EncPatchOp, xs, Each(ReadPatchOp, xs));
  }

  lemma {:induction false} ChangesRead(xs: seq<Change>)
    requires |xs| <= U32_MAX && forall x :: x in xs ==> WfChange(x)
    ensures Reads(ParseChanges, EncVec(EncChange, xs), Each(ReadChange, xs))
  {
    forall i | 0 <= i < |xs| ensures Reads(ParseChange, EncChange(xs[i]), Each(ReadChange, xs)[i]) {
      ChangeReads(xs[i]);
    }
    VecReads(ParseChange, EncChange, xs, Each(ReadChange, xs));
  }

  lemma {:induction false} BeforeReads(x: Option<Text>)
    requires x.Some? ==> WfText(x.value)
    ensures Reads(ParseBefore, EncOption(EncBytes, x), ReadBefore(x))
  {
    if x.Some? {
      TextReads(x.value);
    }
    OptionReads(ParseText, EncBytes, x, ReadBefore(x));
  }

  function ReadBefore(x: Option<Text>): Option<Text> { if x.Some? then Some(Decoded(x.value)) else None }

  // ---- Instructions and frames ------------------------------------------------------------------

  /** What the producer can build: ids of their widths, valid text, lengths that fit, ranges forward. */
  predicate WfInstruction(i: Instruction) {
    match i
    case InitInternTable(_, entries) => |entries| <= U32_MAX && forall x :: x in entries ==> WfEntry(x)
    case PatchInternTable(_, ops) => |ops| <= U32_MAX && forall x :: x in ops ==> WfPatchOp(x)
    case Create(tagId, stableId) => tagId <= U16_MAX && stableId <= U32_MAX
    case SetAttr(stableId, attrId, value) => stableId <= U32_MAX && attrId <= U16_MAX && |value| <= U64_MAX
    case SetText(stableId, text) => stableId <= U32_MAX && |text| <= U64_MAX
    case Append(parentId, childId) => parentId <= U32_MAX && childId <= U32_MAX
    case Remove(stableId) => stableId <= U32_MAX
    case BindEvent(stableId, eventId, proxyId) => stableId <= U32_MAX && eventId <= U16_MAX && proxyId <= U32_MAX
    case BindSlot(stableId, slotId) => stableId <= U32_MAX && slotId <= U32_MAX
    case Placeholder(stableId, suspenseId) => stableId <= U32_MAX && suspenseId <= U32_MAX
    case Patch(suspenseId, start, end) => suspenseId <= U32_MAX && start <= end <= U32_MAX
    case SetTextRef(stableId, slotId) => stableId <= U32_MAX && slotId <= U32_MAX
    case SetAttrRef(stableId, attrId, slotId) => stableId <= U32_MAX && attrId <= U16_MAX && slotId <= U32_MAX
    case SlotSet(slotId, value) => slotId <= U32_MAX && |value| <= U64_MAX
    case Navigate(url) => WfText(url)
    case SlotDelta(slotId, changes) => slotId <= U32_MAX && |changes| <= U32_MAX && forall x :: x in changes ==>
      WfChange(x)
    case ReconcileList(slotId, rows) => slotId <= U32_MAX && |rows| <= U32_MAX && forall x :: x in rows ==> WfRow(x)
    case SlotInsert(slotId, before, rows) =>
      slotId <= U32_MAX && (before.Some? ==> WfText(before.value)) && |rows| <= U32_MAX && forall x :: x in rows ==>
        WfRow(x)
  }

  /** What comes back: the same instruction, each text without a leading byte order mark. */
  function ReadInstruction(i: Instruction): Instruction {
    match i
    case InitInternTable(kind, entries) => InitInternTable(kind, Each(ReadEntry, entries))
    case PatchInternTable(kind, ops) => PatchInternTable(kind, Each(ReadPatchOp, ops))
    case Navigate(url) => Navigate(Decoded(url))
    case SlotDelta(slotId, changes) => SlotDelta(slotId, Each(ReadChange, changes))
    case ReconcileList(slotId, rows) => ReconcileList(slotId, Each(ReadRow, rows))
    case SlotInsert(slotId, before, rows) => SlotInsert(slotId, ReadBefore(before), Each(ReadRow, rows))
    case _ => i
  }

  ghost predicate BodyReads(i: Instruction) {
    forall s: Bytes :: ParseBody(Variant(i), EncBody(i) + s) == Ok((ReadInstruction(i), s))
  }

  lemma {:induction false} TwoIds(a: nat, b: nat)
    requires a <= U32_MAX && b <= U32_MAX
    ensures Reads(ParseIds, EncVarint(a) + EncVarint(b), (a, b))
  {
    U32Reads(a);
    U32Reads(b);
    PairReads(ParseU32, ParseU32, EncVarint(a), EncVarint(b), a, b);
  }

  lemma {:induction false} MixedIds(a: nat, b: nat, c: nat)
    requires a <= U32_MAX && b <= U16_MAX && c <= U32_MAX
    ensures forall s: Bytes ::
            Triple(ParseU32, ParseU16, ParseU32, (EncVarint(a) + (EncVarint(b) + EncVarint(c))) + s)
            == Ok(((a, b, c), s))
  {
    U32Reads(a);
    U16Reads(b);
    U32Reads(c);
    TripleReads(ParseU32, ParseU16, ParseU32, EncVarint(a), EncVarint(b), EncVarint(c), a, b, c);
  }

  lemma {:induction false} IdAndBytes(a: nat, b: Bytes)
    requires a <= U32_MAX && |b| <= U64_MAX
    ensures forall s: Bytes :: Pair(ParseU32, ParseBytes, (EncVarint(a) + EncBytes(b)) + s) == Ok(((a, b), s))
  {
    U32Reads(a);
    BytesReads(b);
    PairReads(ParseU32, ParseBytes, EncVarint(a), EncBytes(b), a, b);
  }

  lemma {:induction false} ScalarBody(i: Instruction)
    requires WfInstruction(i) && 2 <= Variant(i) <= 7
    ensures BodyReads(i)
  {
    match i
    case Create(tagId, stableId) =>
      U16Reads(tagId);
      U32Reads(stableId);
      PairReads(ParseU16, ParseU32, EncVarint(tagId), EncVarint(stableId), tagId, stableId);
    case SetAttr(stableId, attrId, value) =>
      U32Reads(stableId);
      U16Reads(attrId);
      BytesReads(value);
      TripleReads(ParseU32, ParseU16, ParseBytes, EncVarint(stableId), EncVarint(attrId), EncBytes(value), stableId,
        attrId, value);
    case SetText(stableId, text) => IdAndBytes(stableId, text);
    case Append(parentId, childId) => TwoIds(parentId, childId);
    case Remove(stableId) => U32Reads(stableId);
    case BindEvent(stableId, eventId, proxyId) => MixedIds(stableId, eventId, proxyId);
  }

  lemma {:induction false} SlotBody(i: Instruction)
    requires WfInstruction(i) && 8 <= Variant(i) <= 14
    ensures BodyReads(i)
  {
    match i
    case BindSlot(stableId, slotId) => TwoIds(stableId, slotId);
    case Placeholder(stableId, suspenseId) => TwoIds(stableId, suspenseId);
    case Patch(suspenseId, start, end) =>
      U32Reads(suspenseId);
      U32Reads(start);
      U32Reads(end);
      TripleReads(ParseU32, ParseU32, ParseU32, EncVarint(suspenseId), EncVarint(start), EncVarint(end), suspenseId,
        start, end);
    case SetTextRef(stableId, slotId) => TwoIds(stableId, slotId);
    case SetAttrRef(stableId, attrId, slotId) => MixedIds(stableId, attrId, slotId);
    case SlotSet(slotId, value) => IdAndBytes(slotId, value);
    case Navigate(url) => TextReads(url);
  }

  lemma {:induction false} ListBody(i: Instruction)
    requires WfInstruction(i) && (Variant(i) < 2 || Variant(i) > 14)
    ensures BodyReads(i)
  {
    match i
    case InitInternTable(kind, entries) =>
      KindReads(kind);
      EntriesRead(entries);
      PairReads(ParseKind, ParseEntries, EncKind(kind), EncVec(EncEntry, entries), kind, Each(ReadEntry, entries));
    case PatchInternTable(kind, ops) =>
      KindReads(kind);
      PatchOpsRead(ops);
      PairReads(ParseKind, ParsePatchOps, EncKind(kind), EncVec(EncPatchOp, ops), kind, Each(ReadPatchOp, ops));
    case SlotDelta(slotId, changes) =>
      U32Reads(slotId);
      ChangesRead(changes);
      PairReads(ParseU32, ParseChanges, EncVarint(slotId), EncVec(EncChange, changes), slotId,
        Each(ReadChange, changes));
    case ReconcileList(slotId, rows) =>
      U32Reads(slotId);
      RowsRead(rows);
      PairReads(ParseU32, ParseRows, EncVarint(slotId), EncVec(EncRow, rows), slotId, Each(ReadRow, rows));
    case SlotInsert(slotId, before, rows) =>
      U32Reads(slotId);
      BeforeReads(before);
      RowsRead(rows);
      TripleReads(ParseU32, ParseBefore, ParseRows, EncVarint(slotId), EncOption(EncBytes, before),
        EncVec(EncRow, rows),
                  slotId, ReadBefore(before), Each(ReadRow, rows));
  }

  lemma {:induction false} InstructionReads(i: Instruction)
    requires WfInstruction(i)
    ensures Reads(ParseInstruction, EncInstruction(i), ReadInstruction(i))
  {
    if 2 <= Variant(i) <= 7 {
      ScalarBody(i);
    } else if 8 <= Variant(i) <= 14 {
      SlotBody(i);
    } else {
      ListBody(i);
    }
    U32Reads(Variant(i));
    hide EncBody, ParseBody, ReadInstruction;
    forall s: Bytes ensures ParseInstruction(EncInstruction(i) + s) == Ok((ReadInstruction(i), s)) {
      Assoc(EncVarint(Variant(i)), EncBody(i), s);
      assert ParseU32(EncVarint(Variant(i)) + (EncBody(i) + s)) == Ok((Variant(i), EncBody(i) + s));
    }
  }

  predicate WfFrame(f: Frame) {
    && f.frameId <= U64_MAX && (f.componentId.Some? ==> f.componentId.value <= U64_MAX)
    && |f.instructions| <= U32_MAX && forall i :: i in f.instructions ==> WfInstruction(i)
  }

  function ReadFrame(f: Frame): Frame { f.(instructions := Each(ReadInstruction, f.instructions)) }

  /** Any frame, followed by anything, reads back and leaves what followed. */
  lemma {:induction false} FrameReads(f: Frame)
    requires WfFrame(f)
    ensures Reads(ParseFrame, EncFrame(f), ReadFrame(f))
  {
    VarintReads(f.frameId);
    if f.componentId.Some? {
      VarintReads(f.componentId.value);
    }
    OptionReads(ParseVarint, EncVarint, f.componentId, f.componentId);
    forall i | 0 <= i < |f.instructions|
      ensures Reads(ParseInstruction, EncInstruction(f.instructions[i]), ReadFrame(f).instructions[i]) {
      InstructionReads(f.instructions[i]);
    }
    VecReads(ParseInstruction, EncInstruction, f.instructions, ReadFrame(f).instructions);
    TripleReads(ParseVarint, ParseComponent, ParseInstructions, EncVarint(f.frameId),
      EncOption(EncVarint, f.componentId),
                EncVec(EncInstruction, f.instructions), f.frameId, f.componentId, ReadFrame(f).instructions);
  }

  // ---- When the frame comes back unchanged ------------------------------------------------------------

  predicate Plain(i: Instruction) {
    match i
    case InitInternTable(_, entries) => forall x :: x in entries ==> !Marked(x.value)
    case PatchInternTable(_, ops) => forall x :: x in ops ==> x.Set? ==> !Marked(x.value)
    case Navigate(url) => !Marked(url)
    case SlotDelta(_, changes) => forall x :: x in changes ==> !Marked(x.key)
    case ReconcileList(_, rows) => forall x :: x in rows ==> !Marked(x.key)
    case SlotInsert(_, before, rows) => (before.Some? ==> !Marked(before.value)) && forall x :: x in rows ==>
      !Marked(x.key)
    case _ => true
  }

  lemma {:induction false} DecodedSame(t: Text)
    ensures Decoded(t) == t <==> !Marked(t)
  {
    if Marked(t) {
      assert |Decoded(t)| == |t| - 3;
    }
  }

  lemma {:induction false} EachSame<T(!new)>(f: T -> T, xs: seq<T>)
    ensures Each(f, xs) == xs <==> forall x :: x in xs ==> f(x) == x
  {
    if Each(f, xs) == xs {
      forall x | x in xs ensures f(x) == x {
        var i :| 0 <= i < |xs| && xs[i] == x;
      }
    }
  }

  lemma {:induction false} InstructionSame(i: Instruction)
    ensures ReadInstruction(i) == i <==> Plain(i)
  {
    forall t: Text ensures Decoded(t) == t <==> !Marked(t) {
      DecodedSame(t);
    }
    match i
    case InitInternTable(_, entries) => EachSame(ReadEntry, entries);
    case PatchInternTable(_, ops) => EachSame(ReadPatchOp, ops);
    case SlotDelta(_, changes) => EachSame(ReadChange, changes);
    case ReconcileList(_, rows) => EachSame(ReadRow, rows);
    case SlotInsert(_, _, rows) => EachSame(ReadRow, rows);
    case _ =>
  }

  /** A frame survives the wire exactly when none of its texts starts with a byte order mark. */
  lemma {:induction false} FrameRoundTrip(f: Frame, s: Bytes)
    requires WfFrame(f)
    ensures ParseFrame(EncFrame(f) + s).Ok? && ParseFrame(EncFrame(f) + s).value.1 == s
    ensures ParseFrame(EncFrame(f) + s) == Ok((f, s)) <==> forall i :: i in f.instructions ==> Plain(i)
  {
    FrameReads(f);
    forall i ensures ReadInstruction(i) == i <==> Plain(i) {
      InstructionSame(i);
    }
    EachSame(ReadInstruction, f.instructions);
  }

  /** Two rows whose keys differ by the mark alone, such as the empty key and the mark itself, come back under one
      key. */
  lemma {:induction false} MarkedKeysMeet(t: Text)
    requires WfText(t) && WfText(Bom + t) && !Marked(t)
    ensures var sent := Frame(0, None, [ReconcileList(0, [Row(t, []), Row(Bom + t, [])])]);
            var read := Frame(0, None, [ReconcileList(0, [Row(t, []), Row(t, [])])]);
            WfFrame(sent) && ParseFrame(EncFrame(sent)) == Ok((read, [])) && read != sent
  {
    var rows, met := [Row(t, []), Row(Bom + t, [])], [Row(t, []), Row(t, [])];
    var sent := Frame(0, None, [ReconcileList(0, rows)]);
    assert (Bom + t)[3..] == t && |Bom + t| == |t| + 3;
    assert Decoded(Bom + t) == t && Decoded(t) == t;
    assert Each(ReadRow, rows) == met;
    assert Each(ReadInstruction, sent.instructions) == [ReconcileList(0, met)];
    FrameReads(sent);
    assert EncFrame(sent) + [] == EncFrame(sent);
    assert rows[1] != met[1];
  }

  // ---- Nothing less decodes ------------------------------------------------------------------------------

  lemma {:induction false} U8Local()
    ensures Local(ParseU8)
  {
    forall b: Bytes, s: Bytes | ParseU8(b).Ok?
      ensures ParseU8(b + s) == Ok((ParseU8(b).value.0, ParseU8(b).value.1 + s)) {
      assert (b + s)[1..] == b[1..] + s;
    }
  }

  lemma {:induction false} LELocal(b: Bytes, s: Bytes, n: nat)
    requires ParseLE(b, n).Ok?
    ensures ParseLE(b + s, n) == Ok((ParseLE(b, n).value.0, ParseLE(b, n).value.1 + s))
  {
    assert (b + s)[..n] == b[..n] && (b + s)[n..] == b[n..] + s;
  }

  lemma {:induction false} VarintLocal()
    ensures Local(ParseVarint)
  {
    U8Local();
    forall b: Bytes, s: Bytes | ParseVarint(b).Ok?
      ensures ParseVarint(b + s) == Ok((ParseVarint(b).value.0, ParseVarint(b).value.1 + s)) {
      assert ParseU8(b).Ok?;
      assert ParseU8(b + s) == Ok((ParseU8(b).value.0, ParseU8(b).value.1 + s));
      var m := ParseU8(b).value;
      if m.0 == U16_MARKER {
        LELocal(m.1, s, 2);
      } else if m.0 == U32_MARKER {
        LELocal(m.1, s, 4);
      } else if m.0 == U64_MARKER {
        LELocal(m.1, s, 8);
      }
    }
  }

  lemma {:induction false} IntegersLocal()
    ensures Local(ParseVarint) && Local(ParseU16) && Local(ParseU32) && Local(ParseI32)
  {
    VarintLocal();
    forall b: Bytes, s: Bytes | ParseU16(b).Ok?
      ensures ParseU16(b + s) == Ok((ParseU16(b).value.0, ParseU16(b).value.1 + s)) {
      assert ParseVarint(b).Ok?;
    }
    forall b: Bytes, s: Bytes | ParseU32(b).Ok?
      ensures ParseU32(b + s) == Ok((ParseU32(b).value.0, ParseU32(b).value.1 + s)) {
      assert ParseVarint(b).Ok?;
    }
    forall b: Bytes, s: Bytes | ParseI32(b).Ok?
      ensures ParseI32(b + s) == Ok((ParseI32(b).value.0, ParseI32(b).value.1 + s)) {
      assert ParseU32(b).Ok?;
    }
  }

  lemma {:induction false} TextLocal()
    ensures Local(ParseBytes) && Local(ParseText)
  {
    VarintLocal();
    forall b: Bytes, s: Bytes | ParseBytes(b).Ok?
      ensures ParseBytes(b + s) == Ok((ParseBytes(b).value.0, ParseBytes(b).value.1 + s)) {
      assert ParseVarint(b).Ok?;
      var n := ParseVarint(b).value;
      assert ParseVarint(b + s) == Ok((n.0, n.1 + s));
      assert (n.1 + s)[..n.0] == n.1[..n.0] && (n.1 + s)[n.0..] == n.1[n.0..] + s;
    }
    forall b: Bytes, s: Bytes | ParseText(b).Ok?
      ensures ParseText(b + s) == Ok((ParseText(b).value.0, ParseText(b).value.1 + s)) {
      assert ParseBytes(b).Ok?;
    }
  }

  lemma {:induction false} OptionLocal<T(!new)>(p: Bytes -> Parse<T>, b: Bytes, s: Bytes)
    requires Local(p) && ParseOption(p, b).Ok?
    ensures ParseOption(p, b + s) == Ok((ParseOption(p, b).value.0, ParseOption(p, b).value.1 + s))
  {
    U8Local();
    assert ParseU8(b).Ok?;
    var tag := ParseU8(b).value;
    assert ParseU8(b + s) == Ok((tag.0, tag.1 + s));
    if tag.0 == 1 {
      assert p(tag.1).Ok?;
    }
  }

  lemma {:induction false} ManyLocal<T(!new)>(p: Bytes -> Parse<T>, n: nat, b: Bytes, s: Bytes)
    requires Local(p) && ParseMany(p, n, b).Ok?
    ensures ParseMany(p, n, b + s) == Ok((ParseMany(p, n, b).value.0, ParseMany(p, n, b).value.1 + s))
    decreases n
  {
    if n > 0 {
      assert p(b).Ok?;
      assert p(b + s) == Ok((p(b).value.0, p(b).value.1 + s));
      ManyLocal(p, n - 1, p(b).value.1, s);
    }
  }

  lemma {:induction false} VecLocal<T(!new)>(p: Bytes -> Parse<T>, b: Bytes, s: Bytes)
    requires Local(p) && ParseVec(p, b).Ok?
    ensures ParseVec(p, b + s) == Ok((ParseVec(p, b).value.0, ParseVec(p, b).value.1 + s))
  {
    VarintLocal();
    assert ParseVarint(b).Ok?;
    var n := ParseVarint(b).value;
    assert ParseVarint(b + s) == Ok((n.0, n.1 + s));
    ManyLocal(p, n.0, n.1, s);
  }

  lemma {:induction false} PairLocal<A(!new), B(!new)>(p: Bytes -> Parse<A>, q: Bytes -> Parse<B>, b: Bytes, s: Bytes)
    requires Local(p) && Local(q) && Pair(p, q, b).Ok?
    ensures Pair(p, q, b + s) == Ok((Pair(p, q, b).value.0, Pair(p, q, b).value.1 + s))
  {
    assert p(b).Ok?;
    assert p(b + s) == Ok((p(b).value.0, p(b).value.1 + s));
    assert q(p(b).value.1).Ok?;
  }

  lemma {:induction false} TripleLocal<A(!new), B(!new), C(!new)>(p: Bytes -> Parse<A>, q: Bytes -> Parse<B>,
                                         r: Bytes -> Parse<C>, b: Bytes, s: Bytes)
    requires Local(p) && Local(q) && Local(r) && Triple(p, q, r, b).Ok?
    ensures Triple(p, q, r, b + s) == Ok((Triple(p, q, r, b).value.0, Triple(p, q, r, b).value.1 + s))
  {
    assert p(b).Ok?;
    assert p(b + s) == Ok((p(b).value.0, p(b).value.1 + s));
    var y := p(b).value.1;
    assert q(y).Ok?;
    assert q(y + s) == Ok((q(y).value.0, q(y).value.1 + s));
    assert r(q(y).value.1).Ok?;
  }

  lemma {:induction false} ElementsLocal()
    ensures Local(ParseKind) && Local(ParseEntry) && Local(ParsePatchOp) && Local(ParseChange) && Local(ParseRow)
  {
    IntegersLocal();
    TextLocal();
    forall b: Bytes, s: Bytes | ParseKind(b).Ok?
      ensures ParseKind(b + s) == Ok((ParseKind(b).value.0, ParseKind(b).value.1 + s)) {
      assert ParseU32(b).Ok?;
    }
    forall b: Bytes, s: Bytes | ParseEntry(b).Ok?
      ensures ParseEntry(b + s) == Ok((ParseEntry(b).value.0, ParseEntry(b).value.1 + s)) {
      PairLocal(ParseU16, ParseText, b, s);
    }
    forall b: Bytes, s: Bytes | ParsePatchOp(b).Ok?
      ensures ParsePatchOp(b + s) == Ok((ParsePatchOp(b).value.0, ParsePatchOp(b).value.1 + s)) {
      assert ParseU32(b).Ok?;
      var v := ParseU32(b).value;
      assert ParseU32(b + s) == Ok((v.0, v.1 + s));
      if v.0 == 0 {
        PairLocal(ParseU16, ParseText, v.1, s);
      } else {
        assert ParseU16(v.1).Ok?;
      }
    }
    forall b: Bytes, s: Bytes | ParseChange(b).Ok?
      ensures ParseChange(b + s) == Ok((ParseChange(b).value.0, ParseChange(b).value.1 + s)) {
      TripleLocal(ParseI32, ParseText, ParseBytes, b, s);
    }
    forall b: Bytes, s: Bytes | ParseRow(b).Ok?
      ensures ParseRow(b + s) == Ok((ParseRow(b).value.0, ParseRow(b).value.1 + s)) {
      PairLocal(ParseText, ParseBytes, b, s);
    }
  }

  lemma {:induction false} ListsLocal()
    ensures Local(ParseEntries) && Local(ParsePatchOps) && Local(ParseChanges) && Local(ParseRows)
    ensures Local(ParseBefore) && Local(ParseComponent) && Local(ParseIds)
  {
    ElementsLocal();
    IntegersLocal();
    TextLocal();
    forall b: Bytes, s: Bytes | ParseEntries(b).Ok?
      ensures ParseEntries(b + s) == Ok((ParseEntries(b).value.0, ParseEntries(b).value.1 + s)) {
      VecLocal(ParseEntry, b, s);
    }
    forall b: Bytes, s: Bytes | ParsePatchOps(b).Ok?
      ensures ParsePatchOps(b + s) == Ok((ParsePatchOps(b).value.0, ParsePatchOps(b).value.1 + s)) {
      VecLocal(ParsePatchOp, b, s);
    }
    forall b: Bytes, s: Bytes | ParseChanges(b).Ok?
      ensures ParseChanges(b + s) == Ok((ParseChanges(b).value.0, ParseChanges(b).value.1 + s)) {
      VecLocal(ParseChange, b, s);
    }
    forall b: Bytes, s: Bytes | ParseRows(b).Ok?
      ensures ParseRows(b + s) == Ok((ParseRows(b).value.0, ParseRows(b).value.1 + s)) {
      VecLocal(ParseRow, b, s);
    }
    forall b: Bytes, s: Bytes | ParseBefore(b).Ok?
      ensures ParseBefore(b + s) == Ok((ParseBefore(b).value.0, ParseBefore(b).value.1 + s)) {
      OptionLocal(ParseText, b, s);
    }
    forall b: Bytes, s: Bytes | ParseComponent(b).Ok?
      ensures ParseComponent(b + s) == Ok((ParseComponent(b).value.0, ParseComponent(b).value.1 + s)) {
      OptionLocal(ParseVarint, b, s);
    }
    forall b: Bytes, s: Bytes | ParseIds(b).Ok?
      ensures ParseIds(b + s) == Ok((ParseIds(b).value.0, ParseIds(b).value.1 + s)) {
      PairLocal(ParseU32, ParseU32, b, s);
    }
  }

  lemma {:induction false} BodyLocal(v: nat, b: Bytes, s: Bytes)
    requires ParseBody(v, b).Ok?
    ensures ParseBody(v, b + s) == Ok((ParseBody(v, b).value.0, ParseBody(v, b).value.1 + s))
  {
    IntegersLocal();
    TextLocal();
    ElementsLocal();
    ListsLocal();
    hide Local;
    match v
    case 0 => PairLocal(ParseKind, ParseEntries, b, s);
    case 1 => PairLocal(ParseKind, ParsePatchOps, b, s);
    case 2 => PairLocal(ParseU16, ParseU32, b, s);
    case 3 => TripleLocal(ParseU32, ParseU16, ParseBytes, b, s);
    case 4 => PairLocal(ParseU32, ParseBytes, b, s);
    case 5 => OneLocal(ParseIds, b, s);
    case 6 => OneLocal(ParseU32, b, s);
    case 7 => TripleLocal(ParseU32, ParseU16, ParseU32, b, s);
    case 8 => OneLocal(ParseIds, b, s);
    case 9 => OneLocal(ParseIds, b, s);
    case 10 => TripleLocal(ParseU32, ParseU32, ParseU32, b, s);
    case 11 => OneLocal(ParseIds, b, s);
    case 12 => TripleLocal(ParseU32, ParseU16, ParseU32, b, s);
    case 13 => PairLocal(ParseU32, ParseBytes, b, s);
    case 14 => OneLocal(ParseText, b, s);
    case 15 => PairLocal(ParseU32, ParseChanges, b, s);
    case 16 => PairLocal(ParseU32, ParseRows, b, s);
    case 17 => TripleLocal(ParseU32, ParseBefore, ParseRows, b, s);
    case _ =>
  }

  lemma {:induction false} OneLocal<T(!new)>(p: Bytes -> Parse<T>, b: Bytes, s: Bytes)
    requires Local(p) && p(b).Ok?
    ensures p(b + s) == Ok((p(b).value.0, p(b).value.1 + s))
  {}

  lemma {:induction false} FrameLocal()
    ensures Local(ParseFrame)
  {
    IntegersLocal();
    ListsLocal();
    forall b: Bytes, s: Bytes | ParseInstruction(b).Ok?
      ensures ParseInstruction(b + s) == Ok((ParseInstruction(b).value.0, ParseInstruction(b).value.1 + s))
    {
      assert ParseU32(b).Ok?;
      var v := ParseU32(b).value;
      OneLocal(ParseU32, b, s);
      BodyLocal(v.0, v.1, s);
    }
    assert Local(ParseInstruction);
    forall b: Bytes, s: Bytes | ParseInstructions(b).Ok?
      ensures ParseInstructions(b + s) == Ok((ParseInstructions(b).value.0, ParseInstructions(b).value.1 + s))
    {
      VecLocal(ParseInstruction, b, s);
    }
    forall b: Bytes, s: Bytes | ParseFrame(b).Ok?
      ensures ParseFrame(b + s) == Ok((ParseFrame(b).value.0, ParseFrame(b).value.1 + s)) {
      TripleLocal(ParseVarint, ParseComponent, ParseInstructions, b, s);
    }
  }

  lemma {:induction false} CutShort<T(!new)>(p: Bytes -> Parse<T>, e: Bytes, v: T, n: nat)
    requires Local(p) && Reads(p, e, v) && n < |e|
    ensures p(e[..n]).Err?
  {
    assert e + [] == e && p(e + []) == Ok((v, []));
    assert e[..n] + e[n..] == e;
    if p(e[..n]).Ok? {
      OneLocal(p, e[..n], e[n..]);
    }
  }

  /** A frame that is cut short anywhere is refused. */
  lemma {:induction false} NoPrefixDecodes(f: Frame, n: nat)
    requires WfFrame(f) && n < |EncFrame(f)|
    ensures ParseFrame(EncFrame(f)[..n]).Err?
  {
    FrameReads(f);
    FrameLocal();
    hide ParseFrame, EncFrame, Reads, Local, WfFrame, ReadFrame;
    CutShort(ParseFrame, EncFrame(f), ReadFrame(f), n);
  }
}
