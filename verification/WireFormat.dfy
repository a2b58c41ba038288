/** The wire format told by its bytes: every read and write of ProtobufWire, without naming the reads and writes themselves. */
module WireFormat {
  import opened Prelude
  import opened LittleEndian
  import opened Base128
  import opened ProtobufWire

  // ---------- varints ----------

  /** The first n bytes are a number of 64 bits: at most ten bytes, of which the tenth is at most one. */
  predicate IsVarint(b: Bytes, n: nat) {
    EndsAt(b, n) && n <= 10 && (n == 10 ==> b[9] <= 1)
  }

  lemma {:induction false} ReadFromExactly(b: Bytes, i: nat, n: nat)
    requires i < 10 && EndsAt(b, n) && i + n <= 10 && (i + n == 10 ==> b[n - 1] <= 1)
    ensures ReadVarintFrom(b, i) == Read(true, Base128Value(b[..n]), b[n..])
    decreases n
  {
    if n == 1 {
      OneEndsAt(b);
    } else {
      RestEndsAt(b, n);
      ReadFromExactly(b[1..], i + 1, n - 1);
    }
  }

  lemma {:induction false} ReadFromRefuses(b: Bytes, i: nat)
    requires i <= 10 && forall n: nat {:trigger EndsAt(b, n)} :: EndsAt(b, n) && i + n <= 10 ==> i + n == 10 && b[n - 1] > 1
    ensures !ReadVarintFrom(b, i).ok
    ensures ReadVarintFrom(b, i).rest == b[if |b| < 10 - i then |b| else 10 - i..]
    decreases |b|
  {
    if |b| > 0 && i < 10 {
      assert b[0] < 0x80 ==> EndsAt(b, 1);
      if i < 9 {
        LaterEnd(b, i);
        ReadFromRefuses(b[1..], i + 1);
      } else if b[0] >= 0x80 {
        assert b[1..][0..] == b[1..];
      }
    }
  }

  lemma LaterEnd(b: Bytes, i: nat)
    requires |b| > 0 && b[0] >= 0x80
    ensures forall n: nat {:trigger EndsAt(b[1..], n)} :: EndsAt(b[1..], n) ==> EndsAt(b, n + 1) && b[n] == b[1..][n - 1]
  {
  }

  /** A varint is read exactly if one is there, with its value and what is behind it. What is read of anything else is all of
      it, and ten bytes at the most. */
  lemma VarintIsRead(b: Bytes, n: nat)
    requires IsVarint(b, n)
    ensures ReadVarint(b) == Read(true, Base128Value(b[..n]), b[n..])
  {
    ReadFromExactly(b, 0, n);
  }

  lemma NoVarintIsRefused(b: Bytes)
    requires forall n: nat :: !IsVarint(b, n)
    ensures ReadVarint(b) == Read(false, 0, b[if |b| < 10 then |b| else 10..])
  {
    forall n: nat | EndsAt(b, n) && n <= 10
      ensures n == 10 && b[n - 1] > 1
    {
      assert !IsVarint(b, n);
    }
    ReadFromRefuses(b, 0);
  }

  // ---------- tags ----------

  /** A tag is the varint of the field number, eight times, and the wire type; the field number is cut to 32 bits, and zero is no
      field. */
  lemma TagIsRead(b: Bytes, n: nat)
    requires IsVarint(b, n)
    ensures var raw := Base128Value(b[..n]);
            var read := ReadTag(b);
            && read.rest == b[n..]
            && read.value == Tag(raw / 8 % TWO_TO_THE_32, raw % 8)
            && (read.ok <==> raw / 8 % TWO_TO_THE_32 != 0)
  {
    VarintIsRead(b, n);
  }

  lemma NoTagIsRefused(b: Bytes)
    requires forall n: nat :: !IsVarint(b, n)
    ensures !ReadTag(b).ok
  {
    NoVarintIsRefused(b);
  }

  // ---------- words ----------

  lemma FourBytes(v: nat)
    ensures EncLittle(v, 4) == [v % 0x100, v / 0x100 % 0x100, v / 0x1_0000 % 0x100, v / 0x100_0000 % 0x100]
  {
    assert EncLittle(v, 4) == [v % 0x100] + EncLittle(v / 0x100, 3);
    assert EncLittle(v / 0x100, 3) == [v / 0x100 % 0x100] + EncLittle(v / 0x100 / 0x100, 2);
    assert EncLittle(v / 0x1_0000, 2) == [v / 0x1_0000 % 0x100] + EncLittle(v / 0x1_0000 / 0x100, 1);
    assert EncLittle(v / 0x100_0000, 1) == [v / 0x100_0000 % 0x100] + EncLittle(v / 0x100_0000 / 0x100, 0);
  }

  /** A 32-bit word is its four bytes, lowest first, read if and only if four bytes are there; otherwise nothing moves. */
  lemma Fixed32IsRead(b: Bytes)
    ensures |b| >= 4 ==> ReadFixed32(b) == Read(true, FourAt(b, 0), b[4..])
    ensures |b| < 4 ==> ReadFixed32(b) == Read(false, 0, b)
  {
    if |b| >= 4 {
      FourBytesValue(b[..4]);
    }
  }

  /** A 64-bit word is two of 32, the lower first. */
  lemma Fixed64IsRead(b: Bytes)
    ensures |b| >= 8 ==>
              ReadFixed64(b) == Read(true, EightAt(b, 0), b[8..])
    ensures |b| < 8 ==> ReadFixed64(b) == Read(false, 0, b)
  {
    if |b| >= 8 {
      WordLimits();
      EightBytesValue(b[..8]);
    }
  }

  // ---------- payloads ----------

  /** A payload is its length and as many bytes. One that claims more bytes than there are is refused with the length read. */
  lemma BytesAreRead(b: Bytes, n: nat)
    requires IsVarint(b, n)
    ensures var size := Base128Value(b[..n]);
            ReadBytes(b) == if n + size <= |b| then Read(true, b[n..n + size], b[n + size..]) else Read(false, [], b[n..])
  {
    VarintIsRead(b, n);
    var size := Base128Value(b[..n]);
    if n + size <= |b| {
      assert b[n..][..size] == b[n..n + size] && b[n..][size..] == b[n + size..];
    }
  }

  lemma NoLengthIsRefused(b: Bytes)
    requires forall n: nat :: !IsVarint(b, n)
    ensures ReadBytes(b) == Read(false, [], b[if |b| < 10 then |b| else 10..])
  {
    NoVarintIsRefused(b);
  }

  /** A packed payload is one word for every four of its bytes. */
  lemma {:induction false} WordsAreFours(p: Bytes, i: nat)
    requires |p| % 4 == 0 && 4 * i < |p|
    ensures |DecWords32(p)| == |p| / 4
    ensures DecWords32(p)[i] == FourAt(p, 4 * i)
    decreases |p|
  {
    FourBytesValue(p[..4]);
    if i > 0 {
      WordsAreFours(p[4..], i - 1);
    } else if |p| > 4 {
      WordsAreFours(p[4..], 0);
    }
  }

  /** Reading them appends them behind what is there; a payload cut short, or one that is no whole number of words, is refused with
      nothing appended. */
  lemma PackedIsRead(out: seq<uint32>, b: Bytes, n: nat)
    requires IsVarint(b, n)
    ensures var size := Base128Value(b[..n]);
            ReadPacked32(out, b) ==
              if n + size > |b| then Step(false, out, b[n..])
              else if size % 4 != 0 then Step(false, out, b[n + size..])
              else Step(true, out + DecWords32(b[n..n + size]), b[n + size..])
  {
    BytesAreRead(b, n);
  }

  // ---------- skipping ----------

  /** A fixed 32-bit field is four bytes long, and is skipped if and only if four bytes are there. */
  lemma Fixed32IsFourBytes(b: Bytes)
    ensures FIXED32 == 5 && Skip(FIXED32, b) == if |b| >= 4 then Read(true, (), b[4..]) else Read(false, (), b)
  {
  }

  /** A fixed 64-bit field is eight. */
  lemma Fixed64IsEightBytes(b: Bytes)
    ensures FIXED64 == 1 && Skip(FIXED64, b) == if |b| >= 8 then Read(true, (), b[8..]) else Read(false, (), b)
  {
  }

  /** A varint field ends with its varint. */
  lemma VarintIsSkipped(b: Bytes, n: nat)
    requires IsVarint(b, n)
    ensures VARINT == 0 && Skip(VARINT, b) == Read(true, (), b[n..])
  {
    VarintIsRead(b, n);
  }

  /** A length-delimited field ends with the bytes it announces. */
  lemma BytesAreSkipped(b: Bytes, n: nat)
    requires IsVarint(b, n)
    ensures var size := Base128Value(b[..n]);
            Skip(LENGTH_DELIMITED, b) == if n + size <= |b| then Read(true, (), b[n + size..]) else Read(false, (), b[n..])
    ensures LENGTH_DELIMITED == 2
  {
    BytesAreRead(b, n);
  }

  lemma NoVarintIsNotSkipped(b: Bytes)
    requires forall n: nat :: !IsVarint(b, n)
    ensures !Skip(VARINT, b).ok && !Skip(LENGTH_DELIMITED, b).ok
  {
    NoVarintIsRefused(b);
  }

  /** Groups and the two wire types that are not assigned are never skipped. */
  lemma NoOtherWireType(wire: WireType, b: Bytes)
    requires wire in {3, 4, 6, 7}
    ensures Skip(wire, b) == Read(false, (), b)
  {
  }

  /** What was written is skipped to its end. */
  lemma WrittenIsSkipped(v: uint64, w: uint64, x: uint32, p: Bytes, t: Bytes)
    requires |p| <= UINT64_MAX
    ensures Skip(VARINT, EncVarint(v) + t) == Read(true, (), t)
    ensures Skip(FIXED64, EncFixed64(w) + t) == Read(true, (), t)
    ensures Skip(LENGTH_DELIMITED, EncLengthDelimited(p) + t) == Read(true, (), t)
    ensures Skip(FIXED32, EncFixed32(x) + t) == Read(true, (), t)
  {
    VarintBack(v, t);
    BytesBack(p, t);
    assert (EncFixed64(w) + t)[8..] == t && (EncFixed32(x) + t)[4..] == t;
  }

  // ---------- fields ----------

  datatype Content = Number(v: uint64) | Long(w: uint64) | Text(p: Bytes) | Short(x: uint32)

  /** Every field there can be: a number, a 64-bit word, a payload or a 32-bit word. */
  function FieldWith(field: uint32, c: Content): Field {
    match c
    case Number(v) => Field(Tag(field, 0), EncVarint(v))
    case Long(w) => Field(Tag(field, 1), EncFixed64(w))
    case Text(p) => Field(Tag(field, 2), EncLengthDelimited(p))
    case Short(x) => Field(Tag(field, 5), EncFixed32(x))
  }

  predicate Fits(c: Content) {
    c.Text? ==> |c.p| <= UINT64_MAX
  }

  /** One is passed over wherever the handler declines it without moving. */
  lemma WrittenFieldSkipped<S(!new)>(h: Handler<S>, s: S, field: uint32, c: Content, t: Bytes)
    requires Advances(h) && field != 0 && Fits(c)
    requires var f := FieldWith(field, c); h(s, f.tag, f.payload + t) == Step(false, s, f.payload + t)
    ensures ParseFields(h, s, EncField(FieldWith(field, c)) + t) == ParseFields(h, s, t)
  {
    WrittenIsPayload(field, c);
    UnknownFieldSkipped(h, s, FieldWith(field, c).tag, FieldWith(field, c).payload, t);
  }

  lemma WrittenIsPayload(field: uint32, c: Content)
    requires Fits(c)
    ensures IsPayload(FieldWith(field, c).tag.wire, FieldWith(field, c).payload)
  {
    var p := FieldWith(field, c).payload;
    assert p + [] == p;
    match c
    case Number(v) => WrittenIsSkipped(v, 0, 0, [], []);
    case Long(w) => WrittenIsSkipped(0, w, 0, [], []);
    case Text(q) => WrittenIsSkipped(0, 0, 0, q, []);
    case Short(x) => WrittenIsSkipped(0, 0, x, [], []);
  }

  /** A small field has a tag of one byte. */
  lemma TagByte(field: uint32, wire: WireType)
    requires field < 16
    ensures EncTag(Tag(field, wire)) == [8 * field + wire]
  {
    SmallVarint(field * 8 + wire);
  }
}
