/** The geometric messages shared by the builtin codecs: timestamps, vectors, quaternions, poses and
    colours. A double is its 64-bit word; only colour channels look inside one. */
module GeometryCodec {
  import opened Prelude
  import opened Base128
  import opened Arithmetic
  import opened TimeMath
  import opened ProtobufWire

  // ---------- reading one field ----------

  function Declined<S>(s: S, b: Bytes): Step<S> {
    Step(false, s, b)
  }

  function OnDouble(tag: Tag, current: uint64, b: Bytes): (r: Step<uint64>)
    ensures |r.rest| <= |b|
  {
    if tag.wire != FIXED64 then Declined(current, b)
    else
      var word := ReadFixed64(b);
      Step(word.ok, if word.ok then word.value else current, word.rest)
  }

  function OnString(tag: Tag, current: Bytes, b: Bytes): (r: Step<Bytes>)
    ensures |r.rest| <= |b|
  {
    if tag.wire != LENGTH_DELIMITED then Declined(current, b)
    else
      var text := ReadBytes(b);
      Step(text.ok, if text.ok then text.value else current, text.rest)
  }

  function OnFlag(tag: Tag, current: bool, b: Bytes): (r: Step<bool>)
    ensures |r.rest| <= |b|
  {
    if tag.wire != VARINT then Declined(current, b)
    else
      var v := ReadVarint(b);
      Step(v.ok, if v.ok then v.value != 0 else current, v.rest)
  }

  /** readMessage, then decode in place: a nested failure leaves what it had decoded and the reader past
      the message. */
  function OnMessage<S(!new)>(tag: Tag, h: Handler<S>, current: S, b: Bytes): (r: Step<S>)
    requires Advances(h)
    ensures |r.rest| <= |b|
  {
    if tag.wire != LENGTH_DELIMITED then Declined(current, b)
    else
      var nested := ReadBytes(b);
      if !nested.ok then Declined(current, nested.rest)
      else
        var parsed := ParseFields(h, current, nested.value);
        Step(parsed.ok, parsed.state, nested.rest)
  }

  function FlagField(field: uint32, value: bool): Field {
    VarintField(field, if value then 1 else 0)
  }

  lemma ShortField(f: Field)
    requires 0 < f.tag.field < 16
    ensures |EncField(f)| == 1 + |f.payload|
  {
  }

  function EncMessage(field: uint32, body: Bytes): (r: Bytes)
    ensures 0 < field < 16 && |body| < 0x80 ==> |r| == 2 + |body|
    ensures |r| > |body|
  {
    EncField(BytesField(field, body))
  }

  // What a handler reads from an encoded field, whatever it held and whatever follows.

  lemma DoubleRead(field: uint32, word: uint64)
    ensures forall current, t :: OnDouble(Tag(field, FIXED64), current, EncFixed64(word) + t) == Step(true, word, t)
  {
    forall current, t ensures OnDouble(Tag(field, FIXED64), current, EncFixed64(word) + t) == Step(true, word, t) {
      Fixed64Back(word, t);
    }
  }

  lemma FlagRead(field: uint32, value: bool)
    ensures forall current, t :: OnFlag(Tag(field, VARINT), current, FlagField(field, value).payload + t) == Step(true, value, t)
  {
    forall current, t ensures OnFlag(Tag(field, VARINT), current, FlagField(field, value).payload + t) == Step(true, value, t) {
      VarintBack(if value then 1 else 0, t);
    }
  }

  lemma StringRead(field: uint32, text: Bytes)
    requires |text| <= UINT64_MAX
    ensures forall current, t ::
              OnString(Tag(field, LENGTH_DELIMITED), current, EncLengthDelimited(text) + t) == Step(true, text, t)
  {
    forall current, t
      ensures OnString(Tag(field, LENGTH_DELIMITED), current, EncLengthDelimited(text) + t) == Step(true, text, t)
    {
      BytesBack(text, t);
    }
  }

  lemma MessageRead<S(!new)>(field: uint32, h: Handler<S>, current: S, body: Bytes, value: S)
    requires Advances(h) && |body| <= UINT64_MAX && ParseFields(h, current, body) == Parsed(true, value)
    ensures forall t ::
              OnMessage(Tag(field, LENGTH_DELIMITED), h, current, EncLengthDelimited(body) + t) == Step(true, value, t)
  {
    forall t
      ensures OnMessage(Tag(field, LENGTH_DELIMITED), h, current, EncLengthDelimited(body) + t) == Step(true, value, t)
    {
      BytesBack(body, t);
    }
  }

  // ---------- timestamps ----------

  datatype TimestampParts = TimestampParts(seconds: int64, nanos: int32)

  const NO_PARTS := TimestampParts(0, 0)

  /** Truncating division, repaired so that the nanoseconds are never negative. */
  function SplitTimestamp(timestamp: int64): TimestampParts {
    var seconds := TruncDiv(timestamp, NANOS_PER_SECOND);
    var nanos := TruncRem(timestamp, NANOS_PER_SECOND);
    if nanos < 0 then TimestampParts(seconds - 1, nanos + NANOS_PER_SECOND) else TimestampParts(seconds, nanos)
  }

  function CombineTimestamp(parts: TimestampParts): Option<int64> {
    CombineSecondsAndNanos(parts.seconds, parts.nanos)
  }

  /** Splitting is floor division: the parts are the only ones in range that sum to the timestamp. */
  lemma SplitIsFloor(timestamp: int64)
    ensures SplitTimestamp(timestamp).seconds == timestamp / NANOS_PER_SECOND
    ensures SplitTimestamp(timestamp).nanos == timestamp % NANOS_PER_SECOND
  {
  }

  /** Split and combine are inverse on every int64. */
  lemma SplitThenCombine(timestamp: int64)
    ensures CombineTimestamp(SplitTimestamp(timestamp)) == Some(timestamp)
  {
    SplitIsFloor(timestamp);
  }

  lemma CombineThenSplit(parts: TimestampParts)
    requires CombineTimestamp(parts).Some?
    ensures SplitTimestamp(CombineTimestamp(parts).value) == parts
  {
    SplitIsFloor(CombineTimestamp(parts).value);
  }

  function ToSigned32(v: uint64): int32 {
    var low := v % TWO_TO_THE_32;
    if low < 0x8000_0000 then low else low - TWO_TO_THE_32
  }

  /** Reads the varint before it looks at the field number. */
  function TimestampField(s: TimestampParts, tag: Tag, b: Bytes): (r: Step<TimestampParts>)
    ensures |r.rest| <= |b|
  {
    if tag.wire != VARINT then Declined(s, b)
    else
      var v := ReadVarint(b);
      if !v.ok then Declined(s, v.rest)
      else if tag.field == 1 then Step(true, s.(seconds := ToSigned64(v.value)), v.rest)
      else if tag.field == 2 then Step(true, s.(nanos := ToSigned32(v.value)), v.rest)
      else Declined(s, v.rest)
  }

  function SecondsField(seconds: int64): Field {
    VarintField(1, ToUnsigned64(seconds))
  }

  function EncParts(parts: TimestampParts): Bytes
    requires parts.nanos >= 0
  {
    EncField(SecondsField(parts.seconds)) + EncField(VarintField(2, parts.nanos))
  }

  function EncTimestamp(timestamp: int64): Bytes {
    SplitIsFloor(timestamp);
    EncParts(SplitTimestamp(timestamp))
  }

  function DecodeTimestamp(b: Bytes): Option<int64> {
    var parsed := ParseFields(TimestampField, NO_PARTS, b);
    if !parsed.ok then None else CombineTimestamp(parsed.state)
  }

  lemma SecondsRead(s: TimestampParts, seconds: int64)
    ensures Takes(TimestampField, s, SecondsField(seconds), s.(seconds := seconds))
  {
    var f := SecondsField(seconds);
    forall t ensures TimestampField(s, f.tag, f.payload + t) == Step(true, s.(seconds := seconds), t) {
      VarintBack(ToUnsigned64(seconds), t);
    }
  }

  lemma NanosRead(s: TimestampParts, nanos: int32)
    requires nanos >= 0
    ensures Takes(TimestampField, s, VarintField(2, nanos), s.(nanos := nanos))
  {
    var f := VarintField(2, nanos);
    NanosFit(nanos);
    forall t ensures TimestampField(s, f.tag, f.payload + t) == Step(true, s.(nanos := nanos), t) {
      VarintBack(nanos, t);
    }
  }

  lemma NanosFit(nanos: int32)
    requires nanos >= 0
    ensures ToSigned32(nanos) == nanos
  {
  }

  lemma PartsBack(parts: TimestampParts)
    requires parts.nanos >= 0
    ensures ParseFields(TimestampField, NO_PARTS, EncParts(parts)) == Parsed(true, parts)
  {
    var s1 := NO_PARTS.(seconds := parts.seconds);
    var f1, f2 := SecondsField(parts.seconds), VarintField(2, parts.nanos);
    SecondsRead(NO_PARTS, parts.seconds);
    NanosRead(s1, parts.nanos);
    FinishTwo(TimestampField, NO_PARTS, f1, s1, f2, parts);
  }

  /** Every int64 time survives the wire. */
  lemma TimestampBack(timestamp: int64)
    ensures DecodeTimestamp(EncTimestamp(timestamp)) == Some(timestamp)
  {
    SplitIsFloor(timestamp);
    PartsBack(SplitTimestamp(timestamp));
    SplitThenCombine(timestamp);
  }

  /** readTimestampMessage changes its target only when the whole message decodes. */
  function OnTimestamp(tag: Tag, current: int64, b: Bytes): (r: Step<int64>)
    ensures |r.rest| <= |b|
  {
    if tag.wire != LENGTH_DELIMITED then Declined(current, b)
    else
      var nested := ReadBytes(b);
      if !nested.ok then Declined(current, nested.rest)
      else
        var timestamp := DecodeTimestamp(nested.value);
        Step(timestamp.Some?, if timestamp.Some? then timestamp.value else current, nested.rest)
  }

  lemma TimestampRead(field: uint32, timestamp: int64)
    requires |EncTimestamp(timestamp)| <= UINT64_MAX
    ensures forall current, t ::
              OnTimestamp(Tag(field, LENGTH_DELIMITED), current, EncLengthDelimited(EncTimestamp(timestamp)) + t)
              == Step(true, timestamp, t)
  {
    TimestampBack(timestamp);
    forall current, t
      ensures OnTimestamp(Tag(field, LENGTH_DELIMITED), current, EncLengthDelimited(EncTimestamp(timestamp)) + t)
              == Step(true, timestamp, t)
    {
      BytesBack(EncTimestamp(timestamp), t);
    }
  }

  /** A complete unknown field is declined in place exactly when it is no varint. */
  lemma TimestampDeclines(tag: Tag)
    requires tag.field > 2
    ensures Declines(TimestampField, tag) <==> tag.wire != VARINT
  {
    if tag.wire == VARINT {
      var b := [7];
      assert TimestampField(NO_PARTS, tag, b).rest == [];
      assert !(TimestampField(NO_PARTS, tag, b) == Step(false, NO_PARTS, b));
    }
  }

  /** The tags whose complete fields a timestamp reads or passes over as it should. */
  predicate TimestampKnows(tag: Tag) {
    tag.wire != VARINT || tag.field == 1 || tag.field == 2
  }

  lemma TimestampLocal(s: TimestampParts, tag: Tag, a: Bytes, t: Bytes)
    requires TimestampKnows(tag) && Skip(tag.wire, a).ok
    ensures var step := TimestampField(s, tag, a);
            && TimestampField(s, tag, a + t) == step.(rest := step.rest + t)
            && if step.handled then step.rest == Skip(tag.wire, a).rest else step.rest == a && step.state == s
  {
    if tag.wire == VARINT {
      VarintExtends(a, t);
    }
  }

  lemma TimestampTidy()
    ensures Tidy(TimestampField, TimestampKnows)
  {
    forall s: TimestampParts, tag: Tag, a: Bytes, t: Bytes | TimestampKnows(tag) && Skip(tag.wire, a).ok
      ensures var step := TimestampField(s, tag, a);
              && TimestampField(s, tag, a + t) == step.(rest := step.rest + t)
              && if step.handled then step.rest == Skip(tag.wire, a).rest else step.rest == a && step.state == s
    {
      TimestampLocal(s, tag, a, t);
    }
  }

  /** An unknown varint takes the varint behind it along: the message reads as if both were not there. */
  lemma UnknownVarintTakesAnother(s: TimestampParts, tag: Tag, payload: Bytes, t: Bytes)
    requires tag.field > 2 && tag.wire == VARINT && IsPayload(VARINT, payload)
    ensures var next := ReadVarint(t);
            ParseFields(TimestampField, s, EncField(Field(tag, payload)) + t) ==
            if next.ok then ParseFields(TimestampField, s, next.rest) else Parsed(false, s)
  {
    VarintExtends(payload, t);
    assert [] + t == t;
    DeclinedFurtherOn(TimestampField, s, Field(tag, payload), t, t);
  }

  /** A complete unknown field in a message, behind any fields a timestamp knows: unless it is a varint nothing
      changes; a varint takes along the first varint of what follows, or spoils the message if there is none. */
  lemma UnknownFieldInTimestamp(a: Bytes, tag: Tag, payload: Bytes, b: Bytes)
    requires FieldsOf(TimestampKnows, a) && tag.field > 2 && IsPayload(tag.wire, payload)
    ensures DecodeTimestamp(a + (EncField(Field(tag, payload)) + b)) ==
            if tag.wire != VARINT then DecodeTimestamp(a + b)
            else if ReadVarint(b).ok then DecodeTimestamp(a + ReadVarint(b).rest)
            else None
  {
    TimestampTidy();
    if tag.wire != VARINT {
      TimestampDeclines(tag);
      UnknownFieldInserted(TimestampField, TimestampKnows, NO_PARTS, a, tag, payload, b);
    } else {
      var s := ParseFields(TimestampField, NO_PARTS, a).state;
      ParseConcat(TimestampField, TimestampKnows, NO_PARTS, a, EncField(Field(tag, payload)) + b);
      UnknownVarintTakesAnother(s, tag, payload, b);
      ParseConcat(TimestampField, TimestampKnows, NO_PARTS, a, ReadVarint(b).rest);
    }
  }

  /** A complete field with this tag can be inserted anywhere in any message without effect. */
  ghost predicate Ignorable(tag: Tag) {
    forall a: Bytes, payload: Bytes, b: Bytes {:trigger EncField(Field(tag, payload)), a + b} ::
      FieldsOf(TimestampKnows, a) && IsPayload(tag.wire, payload) ==>
        DecodeTimestamp(a + (EncField(Field(tag, payload)) + b)) == DecodeTimestamp(a + b)
  }

  /** So a timestamp tolerates an unknown field if and only if it is no varint. */
  lemma TimestampToleratesExactly(tag: Tag)
    requires tag.field > 2
    ensures Ignorable(tag) <==> tag.wire != VARINT
  {
    forall a: Bytes, payload: Bytes, b: Bytes | tag.wire != VARINT && FieldsOf(TimestampKnows, a) && IsPayload(tag.wire, payload)
      ensures DecodeTimestamp(a + (EncField(Field(tag, payload)) + b)) == DecodeTimestamp(a + b)
    {
      UnknownFieldInTimestamp(a, tag, payload, b);
    }
    if tag.wire == VARINT {
      SecondsAloneDecode();
      UnknownFieldInTimestamp([], tag, [7], [0x08, 5]);
      assert [] + [0x08, 5] == [0x08, 5] && [] + [5] == [5];
      assert ReadVarint([0x08, 5]) == Read(true, 8, [5]);
      assert ReadVarint([7]) == Read(true, 7, []);
    }
  }

  lemma SecondsAloneDecode()
    ensures DecodeTimestamp([0x08, 5]) == Some(5 * NANOS_PER_SECOND)
    ensures DecodeTimestamp([5]) == None
  {
    var known: Bytes := [0x08, 5];
    assert known[1..] == [5] && [5][1..] == [];
    assert ReadTag(known) == Read(true, Tag(1, VARINT), [5]) && ReadVarint([5]) == Read(true, 5, []);
    assert !ReadTag([5]).ok;
  }

  /** So an unknown varint field is not skipped: the loop then drops the next field's first varint, here
      the tag of the seconds, and reads their value as a tag. */
  lemma TimestampLosesFieldAfterUnknownVarint()
    ensures WellFormed([0x18, 7, 0x08, 5])
    ensures DecodeTimestamp([0x08, 5]) == Some(5 * NANOS_PER_SECOND)
    ensures DecodeTimestamp([0x18, 7, 0x08, 5]) != Some(5 * NANOS_PER_SECOND)
  {
    var known, unknown: Bytes := [0x08, 5], [0x18, 7, 0x08, 5];
    assert unknown[1..] == [7, 0x08, 5] && unknown[1..][1..] == known && known[1..] == [5];
    assert ReadTag(unknown) == Read(true, Tag(3, VARINT), [7, 0x08, 5]);
    assert ReadVarint([7, 0x08, 5]) == Read(true, 7, known);
    assert ReadTag(known) == Read(true, Tag(1, VARINT), [5]) && ReadVarint([5]) == Read(true, 5, []);
    assert WellFormed(known);
    assert ReadVarint(known) == Read(true, 8, [5]);
    assert !ReadTag([5]).ok;
  }

  // ---------- vectors, quaternions, poses ----------

  datatype Vector3 = Vector3(x: uint64, y: uint64, z: uint64)

  /** The same wire shape, a different meaning. */
  type Point3 = Vector3

  datatype Quaternion = Quaternion(x: uint64, y: uint64, z: uint64, w: uint64)
  datatype Pose = Pose(position: Vector3, orientation: Quaternion)

  function Vector3Field(s: Vector3, tag: Tag, b: Bytes): (r: Step<Vector3>)
    ensures |r.rest| <= |b|
  {
    match tag.field
    case 1 => var p := OnDouble(tag, s.x, b); Step(p.handled, s.(x := p.state), p.rest)
    case 2 => var p := OnDouble(tag, s.y, b); Step(p.handled, s.(y := p.state), p.rest)
    case 3 => var p := OnDouble(tag, s.z, b); Step(p.handled, s.(z := p.state), p.rest)
    case _ => Declined(s, b)
  }

  function EncVector3(v: Vector3): (r: Bytes)
    ensures |r| == 27
  {
    var x, y, z := Fixed64Field(1, v.x), Fixed64Field(2, v.y), Fixed64Field(3, v.z);
    ShortField(x);
    ShortField(y);
    ShortField(z);
    EncField(x) + (EncField(y) + EncField(z))
  }

  lemma Vector3Back(s: Vector3, v: Vector3)
    ensures ParseFields(Vector3Field, s, EncVector3(v)) == Parsed(true, v)
  {
    var x, y, z := Fixed64Field(1, v.x), Fixed64Field(2, v.y), Fixed64Field(3, v.z);
    var s1 := s.(x := v.x);
    var s2 := s1.(y := v.y);
    assert Takes(Vector3Field, s, x, s1) by { DoubleRead(1, v.x); }
    assert Takes(Vector3Field, s1, y, s2) by { DoubleRead(2, v.y); }
    assert Takes(Vector3Field, s2, z, v) by { DoubleRead(3, v.z); }
    FinishThree(Vector3Field, s, x, s1, y, s2, z, v);
  }

  lemma Vector3Local(s: Vector3, tag: Tag, a: Bytes, t: Bytes)
    requires Skip(tag.wire, a).ok
    ensures Vector3Field(s, tag, a + t) == Vector3Field(s, tag, a).(rest := Vector3Field(s, tag, a).rest + t)
  {
    if tag.wire == FIXED64 {
      assert (a + t)[..8] == a[..8] && (a + t)[8..] == a[8..] + t;
    }
  }

  lemma Vector3Honest()
    ensures Honest(Vector3Field)
  {
  }

  lemma Vector3Tidy()
    ensures Tidy(Vector3Field, AnyTag)
  {
    Vector3Honest();
    forall s: Vector3, tag: Tag, a: Bytes, t: Bytes | Skip(tag.wire, a).ok
      ensures Vector3Field(s, tag, a + t) == Vector3Field(s, tag, a).(rest := Vector3Field(s, tag, a).rest + t)
    {
      Vector3Local(s, tag, a, t);
    }
  }

  /** Vector decoding accepts exactly the sequences of complete fields. */
  lemma Vector3AcceptsExactly(s: Vector3, b: Bytes)
    ensures ParseFields(Vector3Field, s, b).ok <==> WellFormed(b)
  {
    Vector3Honest();
    HonestAcceptsWellFormed(Vector3Field, s, b);
  }

  /** It parses them piecewise, and a complete unknown field at any boundary changes nothing. */
  lemma UnknownFieldInVector3(s: Vector3, a: Bytes, tag: Tag, payload: Bytes, b: Bytes)
    requires WellFormed(a) && tag.field > 3 && IsPayload(tag.wire, payload)
    ensures ParseFields(Vector3Field, s, a + b) == ParseFields(Vector3Field, ParseFields(Vector3Field, s, a).state, b)
    ensures ParseFields(Vector3Field, s, a + (EncField(Field(tag, payload)) + b)) == ParseFields(Vector3Field, s, a + b)
  {
    Vector3Tidy();
    AnyFields(a);
    ParseConcat(Vector3Field, AnyTag, s, a, b);
    UnknownFieldInserted(Vector3Field, AnyTag, s, a, tag, payload, b);
  }

  function QuaternionField(s: Quaternion, tag: Tag, b: Bytes): (r: Step<Quaternion>)
    ensures |r.rest| <= |b|
  {
    match tag.field
    case 1 => var p := OnDouble(tag, s.x, b); Step(p.handled, s.(x := p.state), p.rest)
    case 2 => var p := OnDouble(tag, s.y, b); Step(p.handled, s.(y := p.state), p.rest)
    case 3 => var p := OnDouble(tag, s.z, b); Step(p.handled, s.(z := p.state), p.rest)
    case 4 => var p := OnDouble(tag, s.w, b); Step(p.handled, s.(w := p.state), p.rest)
    case _ => Declined(s, b)
  }

  function EncQuaternion(q: Quaternion): (r: Bytes)
    ensures |r| == 36
  {
    var x, y, z, w := Fixed64Field(1, q.x), Fixed64Field(2, q.y), Fixed64Field(3, q.z), Fixed64Field(4, q.w);
    ShortField(x);
    ShortField(y);
    ShortField(z);
    ShortField(w);
    EncField(x) + (EncField(y) + (EncField(z) + EncField(w)))
  }

  lemma QuaternionBack(s: Quaternion, q: Quaternion)
    ensures ParseFields(QuaternionField, s, EncQuaternion(q)) == Parsed(true, q)
  {
    var x, y, z, w := Fixed64Field(1, q.x), Fixed64Field(2, q.y), Fixed64Field(3, q.z), Fixed64Field(4, q.w);
    var s1 := s.(x := q.x);
    var s2 := s1.(y := q.y);
    var s3 := s2.(z := q.z);
    assert Takes(QuaternionField, s, x, s1) by { DoubleRead(1, q.x); }
    assert Takes(QuaternionField, s1, y, s2) by { DoubleRead(2, q.y); }
    assert Takes(QuaternionField, s2, z, s3) by { DoubleRead(3, q.z); }
    assert Takes(QuaternionField, s3, w, q) by { DoubleRead(4, q.w); }
    TakeThree(QuaternionField, s, x, s1, y, s2, z, s3, EncField(w));
    FinishOne(QuaternionField, s3, w, q);
  }

  function PoseField(s: Pose, tag: Tag, b: Bytes): (r: Step<Pose>)
    ensures |r.rest| <= |b|
  {
    match tag.field
    case 1 => var p := OnMessage(tag, Vector3Field, s.position, b); Step(p.handled, s.(position := p.state), p.rest)
    case 2 => var p := OnMessage(tag, QuaternionField, s.orientation, b); Step(p.handled, s.(orientation := p.state), p.rest)
    case _ => Declined(s, b)
  }

  function EncPose(p: Pose): (r: Bytes)
    ensures |r| == 67
  {
    EncMessage(1, EncVector3(p.position)) + EncMessage(2, EncQuaternion(p.orientation))
  }

  lemma Vector3Read(field: uint32, current: Vector3, v: Vector3)
    ensures forall t ::
              OnMessage(Tag(field, LENGTH_DELIMITED), Vector3Field, current, EncLengthDelimited(EncVector3(v)) + t) == Step(true, v, t)
  {
    Vector3Back(current, v);
    MessageRead(field, Vector3Field, current, EncVector3(v), v);
  }

  lemma PoseBack(s: Pose, p: Pose)
    ensures ParseFields(PoseField, s, EncPose(p)) == Parsed(true, p)
  {
    var position, orientation := BytesField(1, EncVector3(p.position)), BytesField(2, EncQuaternion(p.orientation));
    var s1 := s.(position := p.position);
    assert Takes(PoseField, s, position, s1) by {
      Vector3Read(1, s.position, p.position);
    }
    assert Takes(PoseField, s1, orientation, p) by {
      QuaternionBack(s.orientation, p.orientation);
      MessageRead(2, QuaternionField, s.orientation, EncQuaternion(p.orientation), p.orientation);
    }
    FinishTwo(PoseField, s, position, s1, orientation, p);
  }

  lemma PoseRead(field: uint32, current: Pose, p: Pose)
    ensures forall t ::
              OnMessage(Tag(field, LENGTH_DELIMITED), PoseField, current, EncLengthDelimited(EncPose(p)) + t) == Step(true, p, t)
  {
    PoseBack(current, p);
    MessageRead(field, PoseField, current, EncPose(p), p);
  }

  // ---------- colours ----------

  datatype ColorRGBA = ColorRGBA(r: byte, g: byte, b: byte, a: byte)

  const TWO_TO_THE_52 := 0x10_0000_0000_0000

  function Pow2(e: int): real
    decreases if e < 0 then -e else e
  {
    if e == 0 then 1.0 else if e > 0 then 2.0 * Pow2(e - 1) else Pow2(e + 1) / 2.0
  }

  /** The magnitude a sign-less double stands for: none for a NaN, and for an infinity a number past every
      finite one. */
  function Magnitude(exponent: nat, fraction: nat): Option<real>
    requires exponent < 2048 && fraction < TWO_TO_THE_52
  {
    if exponent == 2047 then
      if fraction == 0 then Some(Pow2(1024)) else None
    else if exponent == 0 then
      Some(fraction as real / TWO_TO_THE_52 as real * Pow2(-1022))
    else
      Some(Scaled(fraction, exponent - 1023))
  }

  function Scaled(fraction: nat, e: int): real {
    (1.0 + fraction as real / TWO_TO_THE_52 as real) * Pow2(e)
  }

  function DoubleValue(word: uint64): Option<real> {
    var magnitude := Magnitude(word / TWO_TO_THE_52 % 2048, word % TWO_TO_THE_52);
    if magnitude.None? then None
    else Some(if word >= TWO_TO_THE_63 then -magnitude.value else magnitude.value)
  }

  /** The number of bits of a non-zero channel, less one. */
  function TopBit(c: byte): (k: nat)
    requires c > 0
    ensures k < 8
  {
    if c >= 128 then 7 else if c >= 64 then 6 else if c >= 32 then 5 else if c >= 16 then 4
    else if c >= 8 then 3 else if c >= 4 then 2 else if c >= 2 then 1 else 0
  }

  /** c / 255 as a 53-bit significand for the exponent TopBit(c) - 8, rounded to the nearest. */
  function Significand(c: byte): (m: nat)
    requires 0 < c < 255
    ensures TWO_TO_THE_52 <= m < 2 * TWO_TO_THE_52
  {
    (2 * c * ShiftOf(c) + 255) / 510
  }

  /** 2^(60 - TopBit(c)). */
  function ShiftOf(c: byte): nat
    requires c > 0
  {
    if c >= 128 then 0x20_0000_0000_0000 else if c >= 64 then 0x40_0000_0000_0000
    else if c >= 32 then 0x80_0000_0000_0000 else if c >= 16 then 0x100_0000_0000_0000
    else if c >= 8 then 0x200_0000_0000_0000 else if c >= 4 then 0x400_0000_0000_0000
    else if c >= 2 then 0x800_0000_0000_0000 else 0x1000_0000_0000_0000
  }

  /** The double nearest to c / 255. */
  function ChannelWord(c: byte): uint64 {
    if c == 0 then 0
    else if c == 255 then 1023 * TWO_TO_THE_52
    else (1023 + TopBit(c) - 8) * TWO_TO_THE_52 + (Significand(c) - TWO_TO_THE_52)
  }

  function NormalizedToByte(value: real): (c: byte) {
    var clamped := if value < 0.0 then 0.0 else if value > 1.0 then 1.0 else value;
    (clamped * 255.0 + 0.5).Floor
  }

  /** A NaN converts to no byte in the source; zero stands for whatever it gives. */
  function ChannelOf(word: uint64): byte {
    match DoubleValue(word)
    case None => 0
    case Some(value) => NormalizedToByte(value)
  }

  lemma SmallPowers()
    ensures Pow2(-1) == 0.5 && Pow2(-2) == 0.25 && Pow2(-3) == 0.125 && Pow2(-4) == 0.0625
    ensures Pow2(-5) == 0.03125 && Pow2(-6) == 0.015625 && Pow2(-7) == 0.0078125 && Pow2(-8) == 0.00390625
  {
    assert Pow2(-2) == 0.25;
    assert Pow2(-4) == 0.0625;
    assert Pow2(-6) == 0.015625;
  }

  lemma FieldsOfWord(exponent: nat, fraction: nat)
    requires exponent < 2047 && fraction < TWO_TO_THE_52
    ensures exponent * TWO_TO_THE_52 + fraction < TWO_TO_THE_63
    ensures DoubleValue(exponent * TWO_TO_THE_52 + fraction) == Magnitude(exponent, fraction)
  {
    DivUnique(exponent * TWO_TO_THE_52 + fraction, TWO_TO_THE_52, exponent);
  }

  lemma RealMulMono(a: real, b: real, k: real)
    requires 0.0 <= k
    ensures a <= b ==> a * k <= b * k
  {
  }

  /** A significand within half a unit of c / 255 rounds back to c. */
  lemma ChannelRounds(c: byte, m: int, shift: int, value: real)
    requires c < 255 && shift >= 0x20_0000_0000_0000 && value * shift as real == m as real
    requires 510 * m <= 2 * c * shift + 255 < 510 * m + 510
    ensures NormalizedToByte(value) == c
  {
    var k := shift as real;
    var error := 255.0 * value - c as real;
    assert (c * shift) as real == c as real * k;
    assert error * k == 255.0 * (value * k) - c as real * k;
    assert -127.5 <= error * k <= 127.5;
    RealMulMono(0.25, error, k);
    RealMulMono(error, -0.25, k);
    assert -0.25 < error < 0.25;
  }

  lemma ScaleOf(c: byte)
    requires 0 < c
    ensures Pow2(TopBit(c) - 8) * ShiftOf(c) as real == TWO_TO_THE_52 as real
  {
    SmallPowers();
  }

  lemma WordBack(c: byte, k: nat, m: nat, shift: nat)
    requires c < 255 && k < 8 && TWO_TO_THE_52 <= m < 2 * TWO_TO_THE_52 && shift >= 0x20_0000_0000_0000
    requires Pow2(k - 8) * shift as real == TWO_TO_THE_52 as real
    requires 510 * m <= 2 * c * shift + 255 < 510 * m + 510
    ensures ChannelOf((1015 + k) * TWO_TO_THE_52 + (m - TWO_TO_THE_52)) == c
  {
    var value := Scaled(m - TWO_TO_THE_52, k - 8);
    SignificandTimes(m, k - 8, shift as real);
    ChannelRounds(c, m, shift, value);
    NormalValue(k, m - TWO_TO_THE_52);
    ChannelOfValue((1015 + k) * TWO_TO_THE_52 + (m - TWO_TO_THE_52), value);
  }

  lemma ChannelOfValue(word: uint64, value: real)
    requires DoubleValue(word) == Some(value)
    ensures ChannelOf(word) == NormalizedToByte(value)
  {
  }

  lemma NormalValue(k: nat, fraction: nat)
    requires k < 8 && fraction < TWO_TO_THE_52
    ensures (1015 + k) * TWO_TO_THE_52 + fraction < TWO_TO_THE_63
    ensures DoubleValue((1015 + k) * TWO_TO_THE_52 + fraction) ==
            Some(Scaled(fraction, k - 8))
  {
    FieldsOfWord(1015 + k, fraction);
  }

  /** Every channel survives: the rounding of c / 255 is far less than half a step of the byte. */
  lemma ChannelBack(c: byte)
    ensures ChannelOf(ChannelWord(c)) == c
  {
    if c == 0 {
      FieldsOfWord(0, 0);
      assert 0.0 / TWO_TO_THE_52 as real * Pow2(-1022) == 0.0;
    } else if c == 255 {
      FieldsOfWord(1023, 0);
      assert (1.0 + 0.0 / TWO_TO_THE_52 as real) * Pow2(0) == 1.0;
    } else {
      ScaleOf(c);
      WordBack(c, TopBit(c), Significand(c), ShiftOf(c));
    }
  }

  /** What is written for a channel is c / 255, to within half a unit in the last place of a double. */
  lemma ChannelIsClose(c: byte)
    ensures DoubleValue(ChannelWord(c)).Some?
    ensures -127.5 <= (255.0 * DoubleValue(ChannelWord(c)).value - c as real) * 9007199254740992.0 <= 127.5
  {
    if c == 0 {
      FieldsOfWord(0, 0);
      assert 0.0 / TWO_TO_THE_52 as real * Pow2(-1022) == 0.0;
    } else if c == 255 {
      DoublesOfNote();
    } else {
      ScaleOf(c);
      WordIsClose(c, TopBit(c), Significand(c), ShiftOf(c));
    }
  }

  lemma WordIsClose(c: byte, k: nat, m: nat, shift: nat)
    requires c < 255 && k < 8 && TWO_TO_THE_52 <= m < 2 * TWO_TO_THE_52 && shift >= 0x20_0000_0000_0000
    requires Pow2(k - 8) * shift as real == TWO_TO_THE_52 as real
    requires 510 * m <= 2 * c * shift + 255 < 510 * m + 510
    ensures var word := (1015 + k) * TWO_TO_THE_52 + (m - TWO_TO_THE_52);
            && word < TWO_TO_THE_63 && DoubleValue(word).Some?
            && -127.5 <= (255.0 * DoubleValue(word).value - c as real) * 9007199254740992.0 <= 127.5
  {
    SignificandTimes(m, k - 8, shift as real);
    NormalValue(k, m - TWO_TO_THE_52);
    CloseEnough(c, m, shift, Scaled(m - TWO_TO_THE_52, k - 8));
  }

  lemma CloseEnough(c: byte, m: int, shift: int, value: real)
    requires shift >= 0x20_0000_0000_0000 && value * shift as real == m as real
    requires 510 * m <= 2 * c * shift + 255 < 510 * m + 510
    ensures -127.5 <= (255.0 * value - c as real) * 9007199254740992.0 <= 127.5
  {
    var k := shift as real;
    var error := 255.0 * value - c as real;
    assert (c * shift) as real == c as real * k;
    assert error * k == 255.0 * (value * k) - c as real * k;
    assert -127.5 <= error * k <= 127.5;
    if error >= 0.0 {
      RealMulMono(9007199254740992.0, k, error);
    } else {
      RealMulMono(9007199254740992.0, k, -error);
    }
  }

  /** Doubles everybody knows. */
  lemma DoublesOfNote()
    ensures DoubleValue(0x3FF0_0000_0000_0000) == Some(1.0) && DoubleValue(0xBFF0_0000_0000_0000) == Some(-1.0)
    ensures DoubleValue(0x3FE0_0000_0000_0000) == Some(0.5) && DoubleValue(0x4000_0000_0000_0000) == Some(2.0)
    ensures DoubleValue(0x3FF8_0000_0000_0000) == Some(1.5) && DoubleValue(0) == Some(0.0)
    ensures DoubleValue(0x7FF8_0000_0000_0000) == None
    ensures ChannelWord(255) == 0x3FF0_0000_0000_0000 && ChannelWord(0) == 0
  {
    SmallPowers();
    assert Pow2(1) == 2.0;
    assert 0.0 * Pow2(-1022) == 0.0;
  }

  /** A value is scaled by 255, rounded half up and kept between 0 and 255. */
  lemma NormalizedIsNearest(value: real)
    ensures var c := NormalizedToByte(value) as real;
            if value <= 0.0 then c == 0.0 else if value >= 1.0 then c == 255.0 else c - 0.5 <= 255.0 * value < c + 0.5
  {
  }

  lemma SignificandTimes(m: nat, e: int, shift: real)
    requires m >= TWO_TO_THE_52 && Pow2(e) * shift == TWO_TO_THE_52 as real
    ensures Scaled(m - TWO_TO_THE_52, e) * shift == m as real
  {
    var one := 1.0 + (m - TWO_TO_THE_52) as real / TWO_TO_THE_52 as real;
    assert one * TWO_TO_THE_52 as real == m as real;
    assert one * Pow2(e) * shift == one * (Pow2(e) * shift);
  }

  /** A colour travels as four doubles, in the fields a quaternion uses. */
  function ChannelWords(c: ColorRGBA): Quaternion {
    Quaternion(ChannelWord(c.r), ChannelWord(c.g), ChannelWord(c.b), ChannelWord(c.a))
  }

  function EncColor(c: ColorRGBA): (r: Bytes)
    ensures |r| == 36
  {
    EncQuaternion(ChannelWords(c))
  }

  /** A channel that is missing is zero. */
  function DecodeColor(b: Bytes): Option<ColorRGBA> {
    var parsed := ParseFields(QuaternionField, Quaternion(0, 0, 0, 0), b);
    if !parsed.ok then None
    else Some(ColorRGBA(ChannelOf(parsed.state.x), ChannelOf(parsed.state.y), ChannelOf(parsed.state.z), ChannelOf(parsed.state.w)))
  }

  lemma ColorBack(c: ColorRGBA)
    ensures DecodeColor(EncColor(c)) == Some(c)
  {
    QuaternionBack(Quaternion(0, 0, 0, 0), ChannelWords(c));
    ChannelBack(c.r);
    ChannelBack(c.g);
    ChannelBack(c.b);
    ChannelBack(c.a);
  }

  /** readColorMessage changes its target only when the whole message decodes. */
  function OnColor(tag: Tag, current: ColorRGBA, b: Bytes): (r: Step<ColorRGBA>)
    ensures |r.rest| <= |b|
  {
    if tag.wire != LENGTH_DELIMITED then Declined(current, b)
    else
      var nested := ReadBytes(b);
      if !nested.ok then Declined(current, nested.rest)
      else
        var color := DecodeColor(nested.value);
        Step(color.Some?, if color.Some? then color.value else current, nested.rest)
  }

  lemma ColorRead(field: uint32, c: ColorRGBA)
    ensures forall current, t ::
              OnColor(Tag(field, LENGTH_DELIMITED), current, EncLengthDelimited(EncColor(c)) + t) == Step(true, c, t)
  {
    ColorBack(c);
    forall current, t
      ensures OnColor(Tag(field, LENGTH_DELIMITED), current, EncLengthDelimited(EncColor(c)) + t) == Step(true, c, t)
    {
      BytesBack(EncColor(c), t);
    }
  }
}
