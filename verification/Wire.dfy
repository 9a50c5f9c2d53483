/** The wire form of opcode frames: what each shape is written as, and how it is read back. */
module Wire {
  import opened Prelude

  type byte = x: nat | x < 256

  type Bytes = seq<byte>

  /** Text, by its UTF-8 bytes. */
  type Text = Bytes

  datatype WireError =
    | Truncated | BadBool | OutOfRange | U128Unsupported | UnknownMarker | BadOption | TooLong | BadUtf8
    | UnknownKind | UnknownPatchOp | UnknownVariant | BackwardRange

  type Parse<+T> = Result<(T, Bytes), WireError>

  // ---- Integers ---------------------------------------------------------------------------

  const U16_MARKER: byte := 251
  const U32_MARKER: byte := 252
  const U64_MARKER: byte := 253
  const U128_MARKER: byte := 254

  const U16_MAX: nat := 0xffff
  const U32_MAX: nat := 0xffff_ffff
  const U64_MAX: nat := 0xffff_ffff_ffff_ffff

  /** `n` bytes, least significant first; what does not fit is cut off. */
  function ToLE(v: nat, n: nat): Bytes { if n == 0 then [] else [v % 256] + ToLE(v / 256, n - 1) }

  function FromLE(b: Bytes): nat { if b == [] then 0 else b[0] + 256 * FromLE(b[1..]) }

  function Span(n: nat): nat { if n == 0 then 1 else 256 * Span(n - 1) }

  /** The shortest of the four widths. */
  function EncVarint(v: nat): Bytes {
    if v < U16_MARKER then [v]
    else if v <= U16_MAX then [U16_MARKER] + ToLE(v, 2)
    else if v <= U32_MAX then [U32_MARKER] + ToLE(v, 4)
    else [U64_MARKER] + ToLE(v, 8)
  }

  function ParseU8(b: Bytes): Parse<byte> { if b == [] then Err(Truncated) else Ok((b[0], b[1..])) }

  function ParseLE(b: Bytes, n: nat): Parse<nat> { if |b| < n then Err(Truncated) else Ok((FromLE(b[..n]), b[n..])) }

  function ParseVarint(b: Bytes): Parse<nat> {
    var m :- ParseU8(b);
    if m.0 < U16_MARKER then Ok(m)
    else if m.0 == U16_MARKER then ParseLE(m.1, 2)
    else if m.0 == U32_MARKER then ParseLE(m.1, 4)
    else if m.0 == U64_MARKER then ParseLE(m.1, 8)
    else if m.0 == U128_MARKER then Err(U128Unsupported)
    else Err(UnknownMarker)
  }

  function Limited(p: Parse<nat>, max: nat): Parse<nat> {
    var x :- p;
    if x.0 > max then Err(OutOfRange) else Ok(x)
  }

  function ParseU16(b: Bytes): Parse<nat> { Limited(ParseVarint(b), U16_MAX) }

  function ParseU32(b: Bytes): Parse<nat> { Limited(ParseVarint(b), U32_MAX) }

  /** Small magnitudes of either sign first: 0, -1, 1, -2, ... */
  function ZigZag(w: int): nat { if w >= 0 then 2 * w else -2 * w - 1 }

  /** Half, complemented when odd. */
  function UnZigZag(u: nat): int { if u % 2 == 0 then u / 2 else -(u / 2) - 1 }

  function ParseI32(b: Bytes): Parse<int> {
    var x :- ParseU32(b);
    Ok((UnZigZag(x.0), x.1))
  }

  // ---- Text and sequences -------------------------------------------------------------------

  predicate Tail(b: byte) { 0x80 <= b <= 0xBF }

  /** Well-formed UTF-8. */
  predicate Utf8(b: Bytes) {
    if b == [] then true
    else if b[0] < 0x80 then Utf8(b[1..])
    else if 0xC2 <= b[0] <= 0xDF then |b| >= 2 && Tail(b[1]) && Utf8(b[2..])
    else if 0xE0 <= b[0] <= 0xEF then
      && |b| >= 3 && Tail(b[1]) && Tail(b[2]) && (b[0] == 0xE0 ==> b[1] >= 0xA0) && (b[0] == 0xED ==> b[1] < 0xA0) &&
        Utf8(b[3..])
    else if 0xF0 <= b[0] <= 0xF4 then
      && |b| >= 4 && Tail(b[1]) && Tail(b[2]) && Tail(b[3]) && (b[0] == 0xF0 ==> b[1] >= 0x90) &&
        (b[0] == 0xF4 ==> b[1] < 0x90) && Utf8(b[4..])
    else false
  }

  const Bom: Bytes := [0xEF, 0xBB, 0xBF]

  predicate Marked(t: Text) { Bom <= t }

  /** A decoder that is not told to keep it drops a leading byte order mark. */
  function Decoded(t: Text): Text { if Marked(t) then t[3..] else t }

  function EncBytes(b: Bytes): Bytes { EncVarint(|b|) + b }

  function ParseBytes(b: Bytes): Parse<Bytes> {
    var n :- ParseVarint(b);
    if n.0 > |n.1| then Err(TooLong) else Ok((n.1[..n.0], n.1[n.0..]))
  }

  function ParseText(b: Bytes): Parse<Text> {
    var x :- ParseBytes(b);
    if Utf8(x.0) then Ok((Decoded(x.0), x.1)) else Err(BadUtf8)
  }

  function EncOption<T>(enc: T -> Bytes, x: Option<T>): Bytes { if x.None? then [0] else [1] + enc(x.value) }

  function ParseOption<T>(p: Bytes -> Parse<T>, b: Bytes): Parse<Option<T>> {
    var tag :- ParseU8(b);
    if tag.0 == 0 then Ok((None, tag.1))
    else if tag.0 == 1 then
      var x :- p(tag.1);
      Ok((Some(x.0), x.1))
    else Err(BadOption)
  }

  function EncAll<T>(enc: T -> Bytes, xs: seq<T>): Bytes { if xs == [] then [] else enc(xs[0]) + EncAll(enc, xs[1..]) }

  function EncVec<T>(enc: T -> Bytes, xs: seq<T>): Bytes { EncVarint(|xs|) + EncAll(enc, xs) }

  function ParseMany<T>(p: Bytes -> Parse<T>, n: nat, b: Bytes): Parse<seq<T>>
    decreases n
  {
    if n == 0 then Ok(([], b))
    else
      var x :- p(b);
      var xs :- ParseMany(p, n - 1, x.1);
      Ok(([x.0] + xs.0, xs.1))
  }

  function ParseVec<T>(p: Bytes -> Parse<T>, b: Bytes): Parse<seq<T>> {
    var n :- ParseVarint(b);
    if n.0 > U32_MAX then Err(TooLong) else ParseMany(p, n.0, n.1)
  }

  function Pair<A, B>(p: Bytes -> Parse<A>, q: Bytes -> Parse<B>, b: Bytes): Parse<(A, B)> {
    var x :- p(b);
    var y :- q(x.1);
    Ok(((x.0, y.0), y.1))
  }

  function Triple<A, B, C>(p: Bytes -> Parse<A>, q: Bytes -> Parse<B>, r: Bytes -> Parse<C>, b: Bytes): Parse<(A, B,
                           C)>
  {
    var x :- p(b);
    var y :- q(x.1);
    var z :- r(y.1);
    Ok(((x.0, y.0, z.0), z.1))
  }

  // ---- Instructions -----------------------------------------------------------------------------

  datatype TableKind = Tag | Attr | EventKind

  datatype Entry = Entry(id: nat, value: Text)

  datatype PatchOp = Set(id: nat, value: Text) | Unset(id: nat)

  datatype Change = Change(weight: int, key: Text, payload: Bytes)

  datatype Row = Row(key: Text, html: Bytes)

  datatype Instruction =
    | InitInternTable(kind: TableKind, entries: seq<Entry>)
    | PatchInternTable(kind: TableKind, ops: seq<PatchOp>)
    | Create(tagId: nat, stableId: nat)
    | SetAttr(stableId: nat, attrId: nat, value: Bytes)
    | SetText(stableId: nat, text: Bytes)
    | Append(parentId: nat, childId: nat)
    | Remove(stableId: nat)
    | BindEvent(stableId: nat, eventId: nat, proxyId: nat)
    | BindSlot(stableId: nat, slotId: nat)
    | Placeholder(stableId: nat, suspenseId: nat)
    | Patch(suspenseId: nat, start: nat, end: nat)
    | SetTextRef(stableId: nat, slotId: nat)
    | SetAttrRef(stableId: nat, attrId: nat, slotId: nat)
    | SlotSet(slotId: nat, value: Bytes)
    | Navigate(url: Text)
    | SlotDelta(slotId: nat, changes: seq<Change>)
    | ReconcileList(slotId: nat, rows: seq<Row>)
    | SlotInsert(slotId: nat, before: Option<Text>, rows: seq<Row>)

  datatype Frame = Frame(frameId: nat, componentId: Option<nat>, instructions: seq<Instruction>)

  function KindIndex(k: TableKind): nat { match k case Tag => 0 case Attr => 1 case EventKind => 2 }

  function EncKind(k: TableKind): Bytes { EncVarint(KindIndex(k)) }

  function EncEntry(e: Entry): Bytes { EncVarint(e.id) + EncBytes(e.value) }

  function EncPatchOp(o: PatchOp): Bytes {
    match o
    case Set(id, value) => EncVarint(0) + (EncVarint(id) + EncBytes(value))
    case Unset(id) => EncVarint(1) + EncVarint(id)
  }

  function EncChange(c: Change): Bytes { EncVarint(ZigZag(c.weight)) + (EncBytes(c.key) + EncBytes(c.payload)) }

  function EncRow(r: Row): Bytes { EncBytes(r.key) + EncBytes(r.html) }

  function Variant(i: Instruction): nat {
    match i
    case InitInternTable(_, _) => 0
    case PatchInternTable(_, _) => 1
    case Create(_, _) => 2
    case SetAttr(_, _, _) => 3
    case SetText(_, _) => 4
    case Append(_, _) => 5
    case Remove(_) => 6
    case BindEvent(_, _, _) => 7
    case BindSlot(_, _) => 8
    case Placeholder(_, _) => 9
    case Patch(_, _, _) => 10
    case SetTextRef(_, _) => 11
    case SetAttrRef(_, _, _) => 12
    case SlotSet(_, _) => 13
    case Navigate(_) => 14
    case SlotDelta(_, _) => 15
    case ReconcileList(_, _) => 16
    case SlotInsert(_, _, _) => 17
  }

  function EncBody(i: Instruction): Bytes {
    match i
    case InitInternTable(kind, entries) => EncKind(kind) + EncVec(EncEntry, entries)
    case PatchInternTable(kind, ops) => EncKind(kind) + EncVec(EncPatchOp, ops)
    case Create(tagId, stableId) => EncVarint(tagId) + EncVarint(stableId)
    case SetAttr(stableId, attrId, value) => EncVarint(stableId) + (EncVarint(attrId) + EncBytes(value))
    case SetText(stableId, text) => EncVarint(stableId) + EncBytes(text)
    case Append(parentId, childId) => EncVarint(parentId) + EncVarint(childId)
    case Remove(stableId) => EncVarint(stableId)
    case BindEvent(stableId, eventId, proxyId) => EncVarint(stableId) + (EncVarint(eventId) + EncVarint(proxyId))
    case BindSlot(stableId, slotId) => EncVarint(stableId) + EncVarint(slotId)
    case Placeholder(stableId, suspenseId) => EncVarint(stableId) + EncVarint(suspenseId)
    case Patch(suspenseId, start, end) => EncVarint(suspenseId) + (EncVarint(start) + EncVarint(end))
    case SetTextRef(stableId, slotId) => EncVarint(stableId) + EncVarint(slotId)
    case SetAttrRef(stableId, attrId, slotId) => EncVarint(stableId) + (EncVarint(attrId) + EncVarint(slotId))
    case SlotSet(slotId, value) => EncVarint(slotId) + EncBytes(value)
    case Navigate(url) => EncBytes(url)
    case SlotDelta(slotId, changes) => EncVarint(slotId) + EncVec(EncChange, changes)
    case ReconcileList(slotId, rows) => EncVarint(slotId) + EncVec(EncRow, rows)
    case SlotInsert(slotId, before, rows) => EncVarint(slotId) + (EncOption(EncBytes, before) + EncVec(EncRow, rows))
  }

  function EncInstruction(i: Instruction): Bytes { EncVarint(Variant(i)) + EncBody(i) }

  function EncFrame(f: Frame): Bytes {
    EncVarint(f.frameId) + (EncOption(EncVarint, f.componentId) + EncVec(EncInstruction, f.instructions))
  }

  // ---- Reading them back ---------------------------------------------------------------------------

  function ParseKind(b: Bytes): Parse<TableKind> {
    var x :- ParseU32(b);
    if x.0 == 0 then Ok((Tag, x.1)) else if x.0 == 1 then Ok((Attr, x.1)) else if x.0 == 2 then Ok((EventKind, x.1))
    else Err(UnknownKind)
  }

  function ParseEntry(b: Bytes): Parse<Entry> {
    var x :- Pair(ParseU16, ParseText, b);
    Ok((Entry(x.0.0, x.0.1), x.1))
  }

  function ParsePatchOp(b: Bytes): Parse<PatchOp> {
    var v :- ParseU32(b);
    if v.0 == 0 then
      var x :- Pair(ParseU16, ParseText, v.1);
      Ok((Set(x.0.0, x.0.1), x.1))
    else if v.0 == 1 then
      var x :- ParseU16(v.1);
      Ok((Unset(x.0), x.1))
    else Err(UnknownPatchOp)
  }

  function ParseChange(b: Bytes): Parse<Change> {
    var x :- Triple(ParseI32, ParseText, ParseBytes, b);
    Ok((Change(x.0.0, x.0.1, x.0.2), x.1))
  }

  function ParseRow(b: Bytes): Parse<Row> {
    var x :- Pair(ParseText, ParseBytes, b);
    Ok((Row(x.0.0, x.0.1), x.1))
  }

  function ParseEntries(b: Bytes): Parse<seq<Entry>> { ParseVec(ParseEntry, b) }

  function ParsePatchOps(b: Bytes): Parse<seq<PatchOp>> { ParseVec(ParsePatchOp, b) }

  function ParseChanges(b: Bytes): Parse<seq<Change>> { ParseVec(ParseChange, b) }

  function ParseRows(b: Bytes): Parse<seq<Row>> { ParseVec(ParseRow, b) }

  function ParseBefore(b: Bytes): Parse<Option<Text>> { ParseOption(ParseText, b) }

  function ParseIds(b: Bytes): Parse<(nat, nat)> { Pair(ParseU32, ParseU32, b) }

  /** The fields of each variant, in order. */
  function ParseBody(variant: nat, b: Bytes): Parse<Instruction> {
    match variant
    case 0 => var x :- Pair(ParseKind, ParseEntries, b); Ok((InitInternTable(x.0.0, x.0.1), x.1))
    case 1 => var x :- Pair(ParseKind, ParsePatchOps, b); Ok((PatchInternTable(x.0.0, x.0.1), x.1))
    case 2 => var x :- Pair(ParseU16, ParseU32, b); Ok((Create(x.0.0, x.0.1), x.1))
    case 3 => var x :- Triple(ParseU32, ParseU16, ParseBytes, b); Ok((SetAttr(x.0.0, x.0.1, x.0.2), x.1))
    case 4 => var x :- Pair(ParseU32, ParseBytes, b); Ok((SetText(x.0.0, x.0.1), x.1))
    case 5 => var x :- ParseIds(b); Ok((Append(x.0.0, x.0.1), x.1))
    case 6 => var x :- ParseU32(b); Ok((Remove(x.0), x.1))
    case 7 => var x :- Triple(ParseU32, ParseU16, ParseU32, b); Ok((BindEvent(x.0.0, x.0.1, x.0.2), x.1))
    case 8 => var x :- ParseIds(b); Ok((BindSlot(x.0.0, x.0.1), x.1))
    case 9 => var x :- ParseIds(b); Ok((Placeholder(x.0.0, x.0.1), x.1))
    case 10 =>
      var x :- Triple(ParseU32, ParseU32, ParseU32, b);
      if x.0.1 > x.0.2 then Err(BackwardRange) else Ok((Patch(x.0.0, x.0.1, x.0.2), x.1))
    case 11 => var x :- ParseIds(b); Ok((SetTextRef(x.0.0, x.0.1), x.1))
    case 12 => var x :- Triple(ParseU32, ParseU16, ParseU32, b); Ok((SetAttrRef(x.0.0, x.0.1, x.0.2), x.1))
    case 13 => var x :- Pair(ParseU32, ParseBytes, b); Ok((SlotSet(x.0.0, x.0.1), x.1))
    case 14 => var x :- ParseText(b); Ok((Navigate(x.0), x.1))
    case 15 => var x :- Pair(ParseU32, ParseChanges, b); Ok((SlotDelta(x.0.0, x.0.1), x.1))
    case 16 => var x :- Pair(ParseU32, ParseRows, b); Ok((ReconcileList(x.0.0, x.0.1), x.1))
    case 17 => var x :- Triple(ParseU32, ParseBefore, ParseRows, b); Ok((SlotInsert(x.0.0, x.0.1, x.0.2), x.1))
    case _ => Err(UnknownVariant)
  }

  function ParseInstruction(b: Bytes): Parse<Instruction> {
    var v :- ParseU32(b);
    ParseBody(v.0, v.1)
  }

  function ParseInstructions(b: Bytes): Parse<seq<Instruction>> { ParseVec(ParseInstruction, b) }

  function ParseComponent(b: Bytes): Parse<Option<nat>> { ParseOption(ParseVarint, b) }

  function ParseFrame(b: Bytes): Parse<Frame> {
    var x :- Triple(ParseVarint, ParseComponent, ParseInstructions, b);
    Ok((Frame(x.0.0, x.0.1, x.0.2), x.1))
  }
}
