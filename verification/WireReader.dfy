/** The cursor over a frame's bytes, and the writer of the one message sent back. */
module WireReader {
  import opened Prelude
  import opened Wire
  import opened WireLaws

  /** A read did what its shape says: the same value or error, and the same bytes left. */
  ghost predicate Took<T>(spec: Parse<T>, rest: Bytes, r: Result<T, WireError>) {
    match spec
    case Err(e) => r == Err(e)
    case Ok(p) => r == Ok(p.0) && rest == p.1
  }

  /** Each of `out` was read from one of `rests`, leaving the next. */
  ghost predicate Trace<T>(p: Bytes -> Parse<T>, out: seq<T>, rests: seq<Bytes>) {
    |rests| == |out| + 1 && forall i :: 0 <= i < |out| ==> p(rests[i]) == Ok((out[i], rests[i + 1]))
  }

  lemma {:induction false} TraceMore<T>(p: Bytes -> Parse<T>, out: seq<T>, rests: seq<Bytes>, x: T, rest: Bytes)
    requires Trace(p, out, rests) && p(rests[|out|]) == Ok((x, rest))
    ensures Trace(p, out + [x], rests + [rest])
  {}

  lemma {:induction false} TraceEnds<T>(p: Bytes -> Parse<T>, out: seq<T>, rests: seq<Bytes>)
    requires Trace(p, out, rests)
    ensures ParseMany(p, |out|, rests[0]) == Ok((out, rests[|out|]))
    decreases |out|
  {
    if out != [] {
      assert forall i :: 0 <= i < |out| - 1 ==> out[1..][i] == out[i + 1] && rests[1..][i] == rests[i + 1];
      TraceEnds(p, out[1..], rests[1..]);
      assert out == [out[0]] + out[1..];
    }
  }

  lemma {:induction false} TraceFails<T>(p: Bytes -> Parse<T>, out: seq<T>, rests: seq<Bytes>, n: nat)
    requires Trace(p, out, rests) && |out| < n && p(rests[|out|]).Err?
    ensures ParseMany(p, n, rests[0]) == Err(p(rests[|out|]).error)
    decreases |out|
  {
    if out != [] {
      assert forall i :: 0 <= i < |out| - 1 ==> out[1..][i] == out[i + 1] && rests[1..][i] == rests[i + 1];
      TraceFails(p, out[1..], rests[1..], n - 1);
    }
  }

  class BincodeReader {
    const bytes: Bytes
    var offset: nat

    predicate Valid() reads this { offset <= |bytes| }

    function Rest(): Bytes
      requires Valid()
      reads this
    {
      bytes[offset..]
    }

    constructor (bytes: Bytes)
      ensures Valid() && this.bytes == bytes && offset == 0 && Rest() == bytes
    {
      this.bytes, offset := bytes, 0;
    }

    method ReadU8() returns (r: Result<byte, WireError>)
      requires Valid()
      modifies this
      ensures Valid() && Took(ParseU8(old(Rest())), Rest(), r)
    {
      if offset + 1 > |bytes| {
        return Err(Truncated);
      }
      r := Ok(bytes[offset]);
      offset := offset + 1;
    }

    method ReadBool() returns (r: Result<bool, WireError>)
      requires Valid()
      modifies this
      ensures Valid()
      ensures r == match ParseU8(old(Rest()))
                   case Err(e) => Err(e)
                   case Ok(p) => if p.0 == 0 then Ok(false) else if p.0 == 1 then Ok(true) else Err(BadBool)
    {
      var b :- ReadU8();
      r := if b == 0 then Ok(false) else if b == 1 then Ok(true) else Err(BadBool);
    }

    method ReadFixed(n: nat) returns (r: Result<nat, WireError>)
      requires Valid()
      modifies this
      ensures Valid() && Took(ParseLE(old(Rest()), n), Rest(), r)
    {
      if offset + n > |bytes| {
        return Err(Truncated);
      }
      var value: nat := 0;
      var i := n;
      ghost var field := bytes[offset..offset + n];
      while i > 0
        invariant 0 <= i <= n && value == FromLE(field[i..])
        decreases i
      {
        i := i - 1;
        assert field[i..][1..] == field[i + 1..];
        value := bytes[offset + i] + 256 * value;
      }
      assert field[0..] == field && old(Rest())[..n] == field;
      offset := offset + n;
      r := Ok(value);
    }

    method ReadVarint() returns (r: Result<nat, WireError>)
      requires Valid()
      modifies this
      ensures Valid() && Took(ParseVarint(old(Rest())), Rest(), r)
    {
      var marker :- ReadU8();
      if marker < U16_MARKER {
        return Ok(marker);
      }
      if marker == U16_MARKER {
        r := ReadFixed(2);
      } else if marker == U32_MARKER {
        r := ReadFixed(4);
      } else if marker == U64_MARKER {
        r := ReadFixed(8);
      } else if marker == U128_MARKER {
        r := Err(U128Unsupported);
      } else {
        r := Err(UnknownMarker);
      }
    }

    method ReadVarintU16() returns (r: Result<nat, WireError>)
      requires Valid()
      modifies this
      ensures Valid() && Took(ParseU16(old(Rest())), Rest(), r)
    {
      var value :- ReadVarint();
      r := if value > U16_MAX then Err(OutOfRange) else Ok(value);
    }

    method ReadVarintU32() returns (r: Result<nat, WireError>)
      requires Valid()
      modifies this
      ensures Valid() && Took(ParseU32(old(Rest())), Rest(), r)
    {
      var value :- ReadVarint();
      r := if value > U32_MAX then Err(OutOfRange) else Ok(value);
    }

    method ReadVarintI32() returns (r: Result<int, WireError>)
      requires Valid()
      modifies this
      ensures Valid() && Took(ParseI32(old(Rest())), Rest(), r)
    {
      var u :- ReadVarintU32();
      r := Ok(UnZigZag(u));
    }

    method ReadByteSlice() returns (r: Result<Bytes, WireError>)
      requires Valid()
      modifies this
      ensures Valid() && Took(ParseBytes(old(Rest())), Rest(), r)
    {
      var length :- ReadVarint();
      if length > |bytes| - offset {
        return Err(TooLong);
      }
      ghost var rest := Rest();
      r := Ok(bytes[offset..offset + length]);
      offset := offset + length;
      assert rest[..length] == bytes[offset - length..offset] && rest[length..] == bytes[offset..];
    }

    method ReadString() returns (r: Result<Text, WireError>)
      requires Valid()
      modifies this
      ensures Valid() && Took(ParseText(old(Rest())), Rest(), r)
    {
      var slice :- ReadByteSlice();
      r := if Utf8(slice) then Ok(Decoded(slice)) else Err(BadUtf8);
    }

    method ReadBefore() returns (r: Result<Option<Text>, WireError>)
      requires Valid()
      modifies this
      ensures Valid() && Took(ParseBefore(old(Rest())), Rest(), r)
    {
      var tag :- ReadU8();
      if tag == 0 {
        return Ok(None);
      }
      if tag == 1 {
        var key :- ReadString();
        return Ok(Some(key));
      }
      r := Err(BadOption);
    }

    method ReadComponent() returns (r: Result<Option<nat>, WireError>)
      requires Valid()
      modifies this
      ensures Valid() && Took(ParseComponent(old(Rest())), Rest(), r)
    {
      var tag :- ReadU8();
      if tag == 0 {
        return Ok(None);
      }
      if tag == 1 {
        var id :- ReadVarint();
        return Ok(Some(id));
      }
      r := Err(BadOption);
    }

    method ReadKind() returns (r: Result<TableKind, WireError>)
      requires Valid()
      modifies this
      ensures Valid() && Took(ParseKind(old(Rest())), Rest(), r)
    {
      var idx :- ReadVarintU32();
      r := if idx == 0 then Ok(Tag) else if idx == 1 then Ok(Attr) else if idx == 2 then Ok(EventKind)
        else Err(UnknownKind);
    }

    method ReadEntry() returns (r: Result<Entry, WireError>)
      requires Valid()
      modifies this
      ensures Valid() && Took(ParseEntry(old(Rest())), Rest(), r)
    {
      var id :- ReadVarintU16();
      var value :- ReadString();
      r := Ok(Entry(id, value));
    }

    method ReadPatchOp() returns (r: Result<PatchOp, WireError>)
      requires Valid()
      modifies this
      ensures Valid() && Took(ParsePatchOp(old(Rest())), Rest(), r)
    {
      var variant :- ReadVarintU32();
      if variant == 0 {
        var id :- ReadVarintU16();
        var value :- ReadString();
        return Ok(Set(id, value));
      }
      if variant == 1 {
        var id :- ReadVarintU16();
        return Ok(Unset(id));
      }
      r := Err(UnknownPatchOp);
    }

    method ReadChange() returns (r: Result<Change, WireError>)
      requires Valid()
      modifies this
      ensures Valid() && Took(ParseChange(old(Rest())), Rest(), r)
    {
      var weight :- ReadVarintI32();
      var key :- ReadString();
      var payload :- ReadByteSlice();
      r := Ok(Change(weight, key, payload));
    }

    method ReadRow() returns (r: Result<Row, WireError>)
      requires Valid()
      modifies this
      ensures Valid() && Took(ParseRow(old(Rest())), Rest(), r)
    {
      var key :- ReadString();
      var html :- ReadByteSlice();
      r := Ok(Row(key, html));
    }

    /** A length that an array can have. */
    method ReadLength() returns (r: Result<nat, WireError>)
      requires Valid()
      modifies this
      ensures Valid()
      ensures match ParseVarint(old(Rest()))
              case Err(e) => r == Err(e)
              case Ok(n) => r == (if n.0 > U32_MAX then Err(TooLong) else Ok(n.0)) && Rest() == n.1
    {
      var length :- ReadVarint();
      r := if length > U32_MAX then Err(TooLong) else Ok(length);
    }

    method ReadEntries() returns (r: Result<seq<Entry>, WireError>)
      requires Valid()
      modifies this
      ensures Valid() && Took(ParseEntries(old(Rest())), Rest(), r)
    {
      var length :- ReadLength();
      r := FillEntries(length);
    }

    method FillEntries(length: nat) returns (r: Result<seq<Entry>, WireError>)
      requires Valid()
      modifies this
      ensures Valid() && Took(ParseMany(ParseEntry, length, old(Rest())), Rest(), r)
    {
      ghost var rests := [Rest()];
      var out: seq<Entry> := [];
      assert Trace(ParseEntry, out, rests);
      hide *;
      while |out| < length
        invariant Valid() && |out| <= length && |rests| == |out| + 1
        invariant rests[0] == old(Rest()) && rests[|out|] == Rest() && Trace(ParseEntry, out, rests)
      {
        if ParseEntry(Rest()).Err? {
          TraceFails(ParseEntry, out, rests, length);
        }
        var x :- ReadEntry();
        TraceMore(ParseEntry, out, rests, x, Rest());
        out, rests := out + [x], rests + [Rest()];
      }
      TraceEnds(ParseEntry, out, rests);
      r := Ok(out);
    }

    method ReadPatchOps() returns (r: Result<seq<PatchOp>, WireError>)
      requires Valid()
      modifies this
      ensures Valid() && Took(ParsePatchOps(old(Rest())), Rest(), r)
    {
      var length :- ReadLength();
      r := FillPatchOps(length);
    }

    method FillPatchOps(length: nat) returns (r: Result<seq<PatchOp>, WireError>)
      requires Valid()
      modifies this
      ensures Valid() && Took(ParseMany(ParsePatchOp, length, old(Rest())), Rest(), r)
    {
      ghost var rests := [Rest()];
      var out: seq<PatchOp> := [];
      assert Trace(ParsePatchOp, out, rests);
      hide *;
      while |out| < length
        invariant Valid() && |out| <= length && |rests| == |out| + 1
        invariant rests[0] == old(Rest()) && rests[|out|] == Rest() && Trace(ParsePatchOp, out, rests)
      {
        if ParsePatchOp(Rest()).Err? {
          TraceFails(ParsePatchOp, out, rests, length);
        }
        var x :- ReadPatchOp();
        TraceMore(ParsePatchOp, out, rests, x, Rest());
        out, rests := out + [x], rests + [Rest()];
      }
      TraceEnds(ParsePatchOp, out, rests);
      r := Ok(out);
    }

    method ReadChanges() returns (r: Result<seq<Change>, WireError>)
      requires Valid()
      modifies this
      ensures Valid() && Took(ParseChanges(old(Rest())), Rest(), r)
    {
      var length :- ReadLength();
      r := FillChanges(length);
    }

    method FillChanges(length: nat) returns (r: Result<seq<Change>, WireError>)
      requires Valid()
      modifies this
      ensures Valid() && Took(ParseMany(ParseChange, length, old(Rest())), Rest(), r)
    {
      ghost var rests := [Rest()];
      var out: seq<Change> := [];
      assert Trace(ParseChange, out, rests);
      hide *;
      while |out| < length
        invariant Valid() && |out| <= length && |rests| == |out| + 1
        invariant rests[0] == old(Rest()) && rests[|out|] == Rest() && Trace(ParseChange, out, rests)
      {
        if ParseChange(Rest()).Err? {
          TraceFails(ParseChange, out, rests, length);
        }
        var x :- ReadChange();
        TraceMore(ParseChange, out, rests, x, Rest());
        out, rests := out + [x], rests + [Rest()];
      }
      TraceEnds(ParseChange, out, rests);
      r := Ok(out);
    }

    method ReadRows() returns (r: Result<seq<Row>, WireError>)
      requires Valid()
      modifies this
      ensures Valid() && Took(ParseRows(old(Rest())), Rest(), r)
    {
      var length :- ReadLength();
      r := FillRows(length);
    }

    method FillRows(length: nat) returns (r: Result<seq<Row>, WireError>)
      requires Valid()
      modifies this
      ensures Valid() && Took(ParseMany(ParseRow, length, old(Rest())), Rest(), r)
    {
      ghost var rests := [Rest()];
      var out: seq<Row> := [];
      assert Trace(ParseRow, out, rests);
      hide *;
      while |out| < length
        invariant Valid() && |out| <= length && |rests| == |out| + 1
        invariant rests[0] == old(Rest()) && rests[|out|] == Rest() && Trace(ParseRow, out, rests)
      {
        if ParseRow(Rest()).Err? {
          TraceFails(ParseRow, out, rests, length);
        }
        var x :- ReadRow();
        TraceMore(ParseRow, out, rests, x, Rest());
        out, rests := out + [x], rests + [Rest()];
      }
      TraceEnds(ParseRow, out, rests);
      r := Ok(out);
    }

    /** The reader of each variant reads its fields in order. */
    method ReadInstruction() returns (r: Result<Instruction, WireError>)
      requires Valid()
      modifies this
      ensures Valid() && Took(ParseInstruction(old(Rest())), Rest(), r)
    {
      var variant :- ReadVarintU32();
      if variant < 9 {
        r := ReadLow(variant);
      } else {
        r := ReadHigh(variant);
      }
    }

    method ReadLow(variant: nat) returns (r: Result<Instruction, WireError>)
      requires Valid() && variant < 9
      modifies this
      ensures Valid() && Took(ParseBody(variant, old(Rest())), Rest(), r)
    {
      match variant {
        case 0 => var kind :- ReadKind(); var entries :- ReadEntries(); r := Ok(InitInternTable(kind, entries));
        case 1 => var kind :- ReadKind(); var ops :- ReadPatchOps(); r := Ok(PatchInternTable(kind, ops));
        case 2 => var tag :- ReadVarintU16(); var id :- ReadVarintU32(); r := Ok(Create(tag, id));
        case 3 => var id :- ReadVarintU32(); var attr :- ReadVarintU16(); var value :- ReadByteSlice();
          r := Ok(SetAttr(id, attr, value));
        case 4 => var id :- ReadVarintU32(); var text :- ReadByteSlice(); r := Ok(SetText(id, text));
        case 5 => var parent :- ReadVarintU32(); var child :- ReadVarintU32(); r := Ok(Append(parent, child));
        case 6 => var id :- ReadVarintU32(); r := Ok(Remove(id));
        case 7 => var id :- ReadVarintU32(); var event :- ReadVarintU16(); var proxy :- ReadVarintU32();
          r := Ok(BindEvent(id, event, proxy));
        case 8 => var id :- ReadVarintU32(); var slot :- ReadVarintU32(); r := Ok(BindSlot(id, slot));
      }
    }

    method ReadHigh(variant: nat) returns (r: Result<Instruction, WireError>)
      requires Valid() && variant >= 9
      modifies this
      ensures Valid() && Took(ParseBody(variant, old(Rest())), Rest(), r)
    {
      match variant {
        case 9 => var id :- ReadVarintU32(); var suspense :- ReadVarintU32(); r := Ok(Placeholder(id, suspense));
        case 10 =>
          var suspense :- ReadVarintU32();
          var start :- ReadVarintU32();
          var end :- ReadVarintU32();
          r := if start > end then Err(BackwardRange) else Ok(Patch(suspense, start, end));
        case 11 => var id :- ReadVarintU32(); var slot :- ReadVarintU32(); r := Ok(SetTextRef(id, slot));
        case 12 => var id :- ReadVarintU32(); var attr :- ReadVarintU16(); var slot :- ReadVarintU32();
          r := Ok(SetAttrRef(id, attr, slot));
        case 13 => var slot :- ReadVarintU32(); var value :- ReadByteSlice(); r := Ok(SlotSet(slot, value));
        case 14 => var url :- ReadString(); r := Ok(Navigate(url));
        case 15 => var slot :- ReadVarintU32(); var changes :- ReadChanges(); r := Ok(SlotDelta(slot, changes));
        case 16 => var slot :- ReadVarintU32(); var rows :- ReadRows(); r := Ok(ReconcileList(slot, rows));
        case 17 => var slot :- ReadVarintU32(); var before :- ReadBefore(); var rows :- ReadRows();
          r := Ok(SlotInsert(slot, before, rows));
        case _ => r := Err(UnknownVariant);
      }
    }

    method ReadInstructions() returns (r: Result<seq<Instruction>, WireError>)
      requires Valid()
      modifies this
      ensures Valid() && Took(ParseInstructions(old(Rest())), Rest(), r)
    {
      var length :- ReadLength();
      r := FillInstructions(length);
    }

    method FillInstructions(length: nat) returns (r: Result<seq<Instruction>, WireError>)
      requires Valid()
      modifies this
      ensures Valid() && Took(ParseMany(ParseInstruction, length, old(Rest())), Rest(), r)
    {
      ghost var rests := [Rest()];
      var out: seq<Instruction> := [];
      assert Trace(ParseInstruction, out, rests);
      hide *;
      while |out| < length
        invariant Valid() && |out| <= length && |rests| == |out| + 1
        invariant rests[0] == old(Rest()) && rests[|out|] == Rest() && Trace(ParseInstruction, out, rests)
      {
        if ParseInstruction(Rest()).Err? {
          TraceFails(ParseInstruction, out, rests, length);
        }
        var x :- ReadInstruction();
        TraceMore(ParseInstruction, out, rests, x, Rest());
        out, rests := out + [x], rests + [Rest()];
      }
      TraceEnds(ParseInstruction, out, rests);
      r := Ok(out);
    }
  }

  /** One frame from the start of `bytes`, and how many bytes it took. */
  method DecodeFrame(bytes: Bytes) returns (r: Result<(Frame, nat), WireError>)
    ensures match ParseFrame(bytes)
            case Err(e) => r == Err(e)
            case Ok(p) => |p.1| <= |bytes| && r == Ok((p.0, |bytes| - |p.1|))
  {
    hide ParseVarint, ParseComponent, ParseInstructions;
    var reader := new BincodeReader(bytes);
    var frameId :- reader.ReadVarint();
    var componentId :- reader.ReadComponent();
    var instructions :- reader.ReadInstructions();
    r := Ok((Frame(frameId, componentId, instructions), reader.offset));
  }

  /** Decoding an encoded frame with anything after it: the frame, and the encoding's own length. */
  lemma {:induction false} ConsumedIsLength(f: Frame, s: Bytes)
    requires WfFrame(f)
    ensures ParseFrame(EncFrame(f) + s).Ok?
    ensures |EncFrame(f) + s| - |ParseFrame(EncFrame(f) + s).value.1| == |EncFrame(f)|
  {
    FrameRoundTrip(f, s);
  }
}
