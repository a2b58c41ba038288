/** The Writer that appends to a buffer and the Reader that moves through one, each method proved
    against the function that says what its bytes mean. */
module WireBuffers {
  import opened Prelude
  import opened Arithmetic
  import opened Base128
  import opened LittleEndian
  import opened ProtobufWire

  /** `whole` is the varint being read: `value` so far, and what byte `i` on still adds. */
  ghost predicate Progress(whole: Read<nat>, b: Bytes, i: nat, value: nat, scale: nat)
    requires i <= MAX_VARINT_BYTES
  {
    var here := ReadVarintFrom(b, i);
    && value < scale
    && (i < MAX_VARINT_BYTES ==> scale * VarintLimit(i) == TWO_TO_THE_64)
    && value <= UINT64_MAX
    && whole.ok == here.ok && whole.rest == here.rest
    && (here.ok ==> whole.value == value + scale * here.value)
  }

  lemma ProgressStarts(b: Bytes)
    ensures Progress(ReadVarintFrom(b, 0), b, 0, 0, 1)
  {
    VarintLimitIsWord();
  }

  /** One more byte joins the value read so far. */
  lemma OneByte(whole: Read<nat>, b: Bytes, i: nat, value: nat, scale: nat)
    requires i < MAX_VARINT_BYTES && |b| > 0 && Progress(whole, b, i, value, scale)
    requires i == MAX_VARINT_BYTES - 1 ==> b[0] % 0x80 <= 1
    ensures JoinGroup(value, b[0] % 0x80, scale) <= UINT64_MAX
    ensures b[0] < 0x80 ==> whole.ok && whole.value == JoinGroup(value, b[0] % 0x80, scale) && whole.rest == b[1..]
    ensures b[0] >= 0x80 ==> Progress(whole, b[1..], i + 1, JoinGroup(value, b[0] % 0x80, scale), 0x80 * scale)
  {
    var limit, payload := VarintLimit(i), b[0] % 0x80;
    if b[0] < 0x80 {
      Accumulate(TWO_TO_THE_64, value, scale, payload, limit, 0);
      assert ReadVarintFrom(b, i) == Read(true, payload, b[1..]);
    } else {
      var next := ReadVarintFrom(b[1..], i + 1);
      Accumulate(TWO_TO_THE_64, value, scale, payload, limit, next.value);
      assert ReadVarintFrom(b, i) == Read(next.ok, payload + 0x80 * next.value, next.rest);
      if i + 1 < MAX_VARINT_BYTES {
        assert limit == 0x80 * VarintLimit(i + 1);
        SwapFactors(0x80, scale, VarintLimit(i + 1));
      }
    }
  }

  lemma TooLong(whole: Read<nat>, b: Bytes, i: nat, value: nat, scale: nat)
    requires i == MAX_VARINT_BYTES - 1 && |b| > 0 && b[0] % 0x80 > 1 && Progress(whole, b, i, value, scale)
    ensures !whole.ok && whole.rest == b[1..]
  {
  }

  lemma NoMoreBytes(whole: Read<nat>, b: Bytes, i: nat, value: nat, scale: nat)
    requires i <= MAX_VARINT_BYTES && Progress(whole, b, i, value, scale) && (|b| == 0 || i == MAX_VARINT_BYTES)
    ensures !whole.ok && whole.rest == b
  {
  }

  class Writer {
    var out: Bytes

    constructor ()
      ensures out == []
    {
      out := [];
    }

    /** Masking, setting and shifting out the low seven bits, on values without a sign. */
    method AppendVarint(value: uint64)
      modifies this
      ensures out == old(out) + EncVarint(value)
    {
      var v := value;
      while v >= 0x80
        invariant 0 <= v && out + EncVarint(v) == old(out) + EncVarint(value)
      {
        assert out + EncVarint(v) == (out + [v % 0x80 + 0x80]) + EncVarint(v / 0x80);
        out := out + [v % 0x80 + 0x80];
        v := v / 0x80;
      }
      out := out + [v];
    }

    method AppendLittle(value: nat, size: nat)
      modifies this
      ensures out == old(out) + EncLittle(value, size)
    {
      var v := value;
      for i := 0 to size
        invariant out + EncLittle(v, size - i) == old(out) + EncLittle(value, size)
      {
        assert out + EncLittle(v, size - i) == (out + [v % 0x100]) + EncLittle(v / 0x100, size - i - 1);
        out := out + [v % 0x100];
        v := v / 0x100;
      }
    }

    method AppendTag(field: uint32, wire: WireType)
      modifies this
      ensures out == old(out) + EncTag(Tag(field, wire))
    {
      AppendVarint(field * 8 + wire);
    }

    method Varint(field: uint32, value: uint64)
      modifies this
      ensures out == old(out) + EncField(VarintField(field, value))
    {
      AppendTag(field, VARINT);
      AppendVarint(value);
    }

    method DoubleField(field: uint32, bits: uint64)
      modifies this
      ensures out == old(out) + EncField(Fixed64Field(field, bits))
    {
      AppendTag(field, FIXED64);
      AppendLittle(bits, 8);
    }

    method BytesField(field: uint32, data: Bytes)
      requires |data| <= UINT64_MAX
      modifies this
      ensures out == old(out) + EncField(ProtobufWire.BytesField(field, data))
    {
      AppendTag(field, LENGTH_DELIMITED);
      AppendVarint(|data|);
      if |data| != 0 {
        out := out + data;
      }
    }

    method PackedFixed32(field: uint32, values: seq<uint32>)
      requires 4 * |values| <= UINT64_MAX
      modifies this
      ensures out == old(out) + EncPacked32(field, values)
    {
      if |values| == 0 {
        return;
      }
      AppendTag(field, LENGTH_DELIMITED);
      AppendVarint(4 * |values|);
      ghost var start := out;
      for i := 0 to |values|
        invariant out + EncWords32(values[i..]) == start + EncWords32(values)
      {
        assert values[i..][0] == values[i] && values[i..][1..] == values[i + 1..];
        assert out + EncWords32(values[i..]) == (out + EncFixed32(values[i])) + EncWords32(values[i + 1..]);
        AppendLittle(values[i], 4);
      }
      assert values[0..] == values;
      assert out == start + EncWords32(values);
    }

    /** The loop that writes one message field for every element, in order. */
    method RepeatedMessages<E>(field: uint32, enc: E -> Bytes, elements: seq<E>)
      requires |EncElements(field, enc, elements)| <= UINT64_MAX
      modifies this
      ensures out == old(out) + EncElements(field, enc, elements)
    {
      for i := 0 to |elements|
        invariant out + EncElements(field, enc, elements[i..]) == old(out) + EncElements(field, enc, elements)
      {
        assert elements[i..][0] == elements[i] && elements[i..][1..] == elements[i + 1..];
        ghost var one := EncField(ProtobufWire.BytesField(field, enc(elements[i])));
        assert out + EncElements(field, enc, elements[i..]) == (out + one) + EncElements(field, enc, elements[i + 1..]);
        ElementFits(field, enc, elements, elements[i]);
        BytesField(field, enc(elements[i]));
      }
    }
  }

  class Reader {
    /** The bytes between the reader's position and its end. */
    var rest: Bytes

    /** A null buffer is an empty one: nothing can be read from either, and both are at their end. */
    constructor (data: Bytes)
      ensures rest == data
    {
      rest := data;
    }

    method ReadVarint() returns (ok: bool, value: uint64)
      modifies this
      ensures ok ==> ProtobufWire.ReadVarint(old(rest)) == Read(true, value, rest)
      ensures !ok ==> ProtobufWire.ReadVarint(old(rest)) == Read(false, 0, rest)
    {
      ok, value := false, 0;
      var index, scale := 0, 1;
      ghost var whole := ReadVarintFrom(rest, 0);
      ProgressStarts(rest);
      while |rest| > 0 && index < MAX_VARINT_BYTES
        invariant index <= MAX_VARINT_BYTES && 0 < scale && Progress(whole, rest, index, value, scale)
        decreases MAX_VARINT_BYTES - index
      {
        var byte := rest[0];
        var payload := byte % 0x80;
        if index == MAX_VARINT_BYTES - 1 && payload > 1 {
          TooLong(whole, rest, index, value, scale);
          rest := rest[1..];
          return false, 0;
        }
        OneByte(whole, rest, index, value, scale);
        value := JoinGroup(value, payload, scale);
        rest := rest[1..];
        if byte < 0x80 {
          return true, value;
        }
        scale := 0x80 * scale;
        index := index + 1;
      }
      NoMoreBytes(whole, rest, index, value, scale);
      ok, value := false, 0;
    }

    method ReadTag() returns (ok: bool, tag: Tag)
      modifies this
      ensures ProtobufWire.ReadTag(old(rest)).ok == ok && ProtobufWire.ReadTag(old(rest)).rest == rest
      ensures ok ==> ProtobufWire.ReadTag(old(rest)).value == tag
    {
      var raw;
      ok, raw := ReadVarint();
      tag := Tag(raw / 8 % TWO_TO_THE_32, raw % 8);
      ok := ok && raw != 0 && tag.field != 0;
    }

    /** Little-endian bytes, lowest first; nothing moves unless all of them are there. */
    method ReadLittle(size: nat) returns (ok: bool, value: nat)
      modifies this
      ensures ok <==> |old(rest)| >= size
      ensures ok ==> value == DecLittle(old(rest)[..size]) && rest == old(rest)[size..]
      ensures !ok ==> rest == old(rest)
    {
      ok, value := |rest| >= size, 0;
      if !ok {
        return;
      }
      ghost var word := rest[..size];
      var i := size;
      while i > 0
        invariant 0 <= i <= size && value == DecLittle(word[i..])
      {
        i := i - 1;
        assert word[i..][0] == rest[i] && word[i..][1..] == word[i + 1..];
        value := rest[i] + 0x100 * value;
      }
      assert word[0..] == word;
      rest := rest[size..];
    }

    method ReadBytes() returns (ok: bool, view: Bytes)
      modifies this
      ensures ProtobufWire.ReadBytes(old(rest)) == Read(ok, view, rest)
    {
      var size;
      ok, size := ReadVarint();
      view := [];
      if !ok || size > |rest| {
        ok := false;
        return;
      }
      view, rest := rest[..size], rest[size..];
    }

    method Skip(wire: WireType) returns (ok: bool)
      modifies this
      ensures ProtobufWire.Skip(wire, old(rest)) == Read(ok, (), rest)
      ensures wire == 5 ==> ok == (|old(rest)| >= 4) && rest == if ok then old(rest)[4..] else old(rest)
      ensures wire == 1 ==> ok == (|old(rest)| >= 8) && rest == if ok then old(rest)[8..] else old(rest)
      ensures wire in {3, 4, 6, 7} ==> !ok && rest == old(rest)
    {
      if wire == VARINT {
        var ignored;
        ok, ignored := ReadVarint();
      } else if wire == FIXED64 {
        ok := SkipBytes(8);
      } else if wire == LENGTH_DELIMITED {
        var ignored;
        ok, ignored := ReadBytes();
      } else if wire == FIXED32 {
        ok := SkipBytes(4);
      } else {
        ok := false;
      }
    }

    method SkipBytes(size: nat) returns (ok: bool)
      modifies this
      ensures ok == (|old(rest)| >= size) && rest == if ok then old(rest)[size..] else old(rest)
    {
      ok := |rest| >= size;
      if ok {
        rest := rest[size..];
      }
    }

    /** The words of a packed field join `out` one by one. */
    method ReadPackedFixed32(out: seq<uint32>) returns (ok: bool, words: seq<uint32>)
      modifies this
      ensures ReadPacked32(out, old(rest)) == Step(ok, words, rest)
    {
      var payload;
      ok, payload := ReadBytes();
      words := out;
      if !ok || |payload| % 4 != 0 {
        ok := false;
        return;
      }
      var sub := new Reader(payload);
      WordLimits();
      while |sub.rest| > 0
        invariant |sub.rest| % 4 == 0 && words + DecWords32(sub.rest) == out + DecWords32(payload)
        invariant sub != this && fresh(sub) && rest == ProtobufWire.ReadBytes(old(rest)).rest
        decreases |sub.rest|
      {
        ghost var before := sub.rest;
        var there, word := sub.ReadLittle(4);
        assert words + DecWords32(before) == (words + [word]) + DecWords32(sub.rest);
        words := words + [word];
      }
      assert words + [] == words;
    }
  }

  /** The field loop over a reader it moves. The handler is any function on the unread bytes. */
  method ParseAllFields<S(!new)>(reader: Reader, handler: Handler<S>, initial: S) returns (ok: bool, state: S)
    requires Advances(handler)
    modifies reader
    ensures Parsed(ok, state) == ParseFields(handler, initial, old(reader.rest))
  {
    state := initial;
    while |reader.rest| > 0
      invariant ParseFields(handler, state, reader.rest) == ParseFields(handler, initial, old(reader.rest))
      decreases |reader.rest|
    {
      ghost var before := reader.rest;
      var tag;
      ok, tag := reader.ReadTag();
      if !ok {
        return;
      }
      var step := handler(state, tag, reader.rest);
      reader.rest, state := step.rest, step.state;
      if !step.handled {
        ok := reader.Skip(tag.wire);
        if !ok {
          return;
        }
      }
    }
    ok := true;
  }
}
