/** The bytes of the scene messages, tag by tag: the field numbers and wire types that other programs rely on. A tag byte is
    eight times the field number and the wire type: 0x0A is the payload of field 1, 0x11 the double of field 2, 0x20 the number of
    field 4. A pose takes 67 bytes, a vector 27, and a quaternion or a colour 36. What is nested in a message has a layout of its
    own. The last section says what a scene does with fields it does not know, again by their bytes. */
module SceneLayout {
  import opened Prelude
  import opened LittleEndian
  import opened Base128
  import opened ProtobufWire
  import opened WireFormat
  import opened GeometryCodec
  import opened SceneEntities
  import opened ScenePrimitivesCodec
  import opened SceneEntitiesCodec

  // ---------- one field ----------

  lemma NumberBytes(field: uint32, v: nat)
    requires field < 16
    ensures EncField(VarintField(field, v)) == [8 * field] + EncVarint(v)
  {
    TagByte(field, VARINT);
  }

  /** A flag is the number one or zero. */
  function Flag(tag: byte, value: bool): Bytes {
    [tag] + EncVarint(if value then 1 else 0)
  }

  lemma FlagBytes(field: uint32, value: bool)
    requires field < 16
    ensures EncField(FlagField(field, value)) == Flag(8 * field, value)
  {
    NumberBytes(field, if value then 1 else 0);
  }

  lemma DoubleBytes(field: uint32, word: uint64)
    requires field < 16
    ensures EncField(Fixed64Field(field, word)) == [8 * field + 1] + EncFixed64(word)
  {
    TagByte(field, FIXED64);
  }

  lemma PayloadBytes(field: uint32, data: Bytes)
    requires field < 16
    ensures EncField(BytesField(field, data)) == [8 * field + 2] + (EncVarint(|data|) + data)
  {
    TagByte(field, LENGTH_DELIMITED);
  }

  lemma ShortPayloadBytes(field: uint32, data: Bytes)
    requires field < 16 && |data| < 0x80
    ensures EncField(BytesField(field, data)) == [8 * field + 2, |data|] + data
  {
    PayloadBytes(field, data);
    SmallVarint(|data|);
  }

  function Concat(parts: seq<Bytes>): Bytes {
    if |parts| == 0 then [] else parts[0] + Concat(parts[1..])
  }

  /** One payload for each element, in order. */
  function Listed<E>(tag: byte, enc: E -> Bytes, xs: seq<E>): Bytes {
    Concat(seq(|xs|, i requires 0 <= i < |xs| => [tag] + EncLengthDelimited(enc(xs[i]))))
  }

  lemma {:induction false} ListBytes<E>(field: uint32, enc: E -> Bytes, xs: seq<E>)
    requires field < 16
    ensures EncElements(field, enc, xs) == Listed(8 * field + 2, enc, xs)
  {
    if |xs| > 0 {
      PayloadBytes(field, enc(xs[0]));
      ListBytes(field, enc, xs[1..]);
      ListedFirst(8 * field + 2, enc, xs);
    }
  }

  lemma ListedFirst<E>(tag: byte, enc: E -> Bytes, xs: seq<E>)
    requires |xs| > 0
    ensures Listed(tag, enc, xs) == [tag] + EncLengthDelimited(enc(xs[0])) + Listed(tag, enc, xs[1..])
  {
    var f := i requires 0 <= i < |xs| => [tag] + EncLengthDelimited(enc(xs[i]));
    var g := i requires 0 <= i < |xs[1..]| => [tag] + EncLengthDelimited(enc(xs[1..][i]));
    assert seq(|xs|, f)[1..] == seq(|xs[1..]|, g);
  }

  // ---------- reading one field ----------

  /** A double of eight bytes, a string of its length, a flag that is set by any number but zero: each is taken with its field; and a
      field that is cut short is not, nor is what the target held changed. */
  lemma DoubleIsRead(field: uint32, current: uint64, b: Bytes)
    ensures OnDouble(Tag(field, 1), current, b) == if |b| >= 8 then Step(true, EightAt(b, 0), b[8..]) else Step(false, current, b)
  {
    Fixed64IsRead(b);
  }

  lemma FlagIsRead(field: uint32, current: bool, b: Bytes, n: nat)
    requires IsVarint(b, n)
    ensures OnFlag(Tag(field, 0), current, b) == Step(true, Base128Value(b[..n]) != 0, b[n..])
  {
    VarintIsRead(b, n);
  }

  lemma StringIsRead(field: uint32, current: Bytes, b: Bytes, n: nat)
    requires IsVarint(b, n)
    ensures var size := Base128Value(b[..n]);
            OnString(Tag(field, 2), current, b) ==
            if n + size <= |b| then Step(true, b[n..n + size], b[n + size..]) else Step(false, current, b[n..])
  {
    BytesAreRead(b, n);
  }

  /** The two kinds are numbers too; one that nobody knows is the first. */
  lemma KindsAreRead(field: uint32, line: LineType, deletion: DeletionType, b: Bytes, n: nat)
    requires IsVarint(b, n)
    ensures var v := Base128Value(b[..n]);
            && OnLineType(Tag(field, 0), line, b) ==
               Step(true, if v == 2 then LineLoop else if v == 3 then LineList else LineStrip, b[n..])
            && OnDeletionType(Tag(field, 0), deletion, b) == Step(true, if v == 1 then All else MatchingId, b[n..])
  {
    VarintIsRead(b, n);
  }

  /** Seconds are a 64-bit number in two's complement; of the nanoseconds the low 32 bits count. */
  lemma TimestampPartsAreRead(s: TimestampParts, b: Bytes, n: nat)
    requires IsVarint(b, n) && Base128Value(b[..n]) < TWO_TO_THE_64
    ensures var v, first, second := Base128Value(b[..n]), TimestampField(s, Tag(1, 0), b), TimestampField(s, Tag(2, 0), b);
            && first.handled && first.rest == b[n..] && second.handled && second.rest == b[n..]
            && first.state.nanos == s.nanos && (first.state.seconds == v || first.state.seconds == v - TWO_TO_THE_64)
            && second.state.seconds == s.seconds && (v - second.state.nanos) % TWO_TO_THE_32 == 0
  {
    VarintIsRead(b, n);
    LowBits(Base128Value(b[..n]));
  }

  lemma LowBits(v: uint64)
    ensures (v - ToSigned32(v)) % TWO_TO_THE_32 == 0
  {
  }

  /** A field of another wire type is declined as it is. */
  lemma OtherWiresDeclined<S(!new)>(tag: Tag, word: uint64, text: Bytes, flag: bool, line: LineType, deletion: DeletionType, time: int64,
                                    color: ColorRGBA, h: Handler<S>, message: S, b: Bytes)
    requires Advances(h)
    ensures tag.wire != 0 ==> OnFlag(tag, flag, b) == Step(false, flag, b) && OnLineType(tag, line, b) == Step(false, line, b)
    ensures tag.wire != 0 ==> OnDeletionType(tag, deletion, b) == Step(false, deletion, b)
    ensures tag.wire != 1 ==> OnDouble(tag, word, b) == Step(false, word, b)
    ensures tag.wire != 2 ==> OnString(tag, text, b) == Step(false, text, b) && OnTimestamp(tag, time, b) == Step(false, time, b)
    ensures tag.wire != 2 ==> OnColor(tag, color, b) == Step(false, color, b) && OnMessage(tag, h, message, b) == Step(false, message, b)
  {
  }

  // ---------- geometry ----------

  lemma VectorLayout(v: Vector3)
    ensures EncVector3(v) ==
            ([0x09] + EncFixed64(v.x)) + (
            ([0x11] + EncFixed64(v.y)) + (
            ([0x19] + EncFixed64(v.z))))
  {
    DoubleBytes(1, v.x);
    DoubleBytes(2, v.y);
    DoubleBytes(3, v.z);
  }

  lemma QuaternionLayout(q: Quaternion)
    ensures EncQuaternion(q) ==
            ([0x09] + EncFixed64(q.x)) + (
            ([0x11] + EncFixed64(q.y)) + (
            ([0x19] + EncFixed64(q.z)) + (
            ([0x21] + EncFixed64(q.w)))))
  {
    DoubleBytes(1, q.x);
    DoubleBytes(2, q.y);
    DoubleBytes(3, q.z);
    DoubleBytes(4, q.w);
  }

  lemma PoseLayout(p: Pose)
    ensures EncPose(p) ==
            ([0x0A, 27] + EncVector3(p.position)) + (
            ([0x12, 36] + EncQuaternion(p.orientation)))
  {
    ShortPayloadBytes(1, EncVector3(p.position));
    ShortPayloadBytes(2, EncQuaternion(p.orientation));
  }

  lemma ColorLayout(c: ColorRGBA)
    ensures EncColor(c) ==
            ([0x09] + EncFixed64(ChannelWord(c.r))) + (
            ([0x11] + EncFixed64(ChannelWord(c.g))) + (
            ([0x19] + EncFixed64(ChannelWord(c.b))) + (
            ([0x21] + EncFixed64(ChannelWord(c.a))))))
  {
    DoubleBytes(1, ChannelWord(c.r));
    DoubleBytes(2, ChannelWord(c.g));
    DoubleBytes(3, ChannelWord(c.b));
    DoubleBytes(4, ChannelWord(c.a));
  }

  /** Whole seconds, rounded down, and the nanoseconds beyond them; a time before 1970 has the two's complement of its seconds. */
  lemma TimestampLayout(t: int64)
    ensures EncTimestamp(t) ==
            ([0x08] + EncVarint(if t >= 0 then t / 1_000_000_000 else t / 1_000_000_000 + TWO_TO_THE_64)) +
            ([0x10] + EncVarint(t % 1_000_000_000))
  {
    SplitIsFloor(t);
    NumberBytes(1, ToUnsigned64(SplitTimestamp(t).seconds));
    NumberBytes(2, SplitTimestamp(t).nanos);
  }

  // ---------- primitives ----------

  lemma ArrowLayout(a: ArrowPrimitive)
    ensures EncArrow(a) ==
            ([0x0A, 67] + EncPose(a.pose)) + (
            ([0x11] + EncFixed64(a.shaftLength)) + (
            ([0x19] + EncFixed64(a.shaftDiameter)) + (
            ([0x21] + EncFixed64(a.headLength)) + (
            ([0x29] + EncFixed64(a.headDiameter)) + (
            ([0x32, 36] + EncColor(a.color)))))))
  {
    ShortPayloadBytes(1, EncPose(a.pose));
    DoubleBytes(2, a.shaftLength);
    DoubleBytes(3, a.shaftDiameter);
    DoubleBytes(4, a.headLength);
    DoubleBytes(5, a.headDiameter);
    ShortPayloadBytes(6, EncColor(a.color));
  }

  lemma CubeLayout(c: CubePrimitive)
    ensures EncCube(c) ==
            ([0x0A, 67] + EncPose(c.pose)) + (
            ([0x12, 27] + EncVector3(c.size)) + (
            ([0x1A, 36] + EncColor(c.color))))
  {
    ShortPayloadBytes(1, EncPose(c.pose));
    ShortPayloadBytes(2, EncVector3(c.size));
    ShortPayloadBytes(3, EncColor(c.color));
  }

  lemma CylinderLayout(c: CylinderPrimitive)
    ensures EncCylinder(c) ==
            ([0x0A, 67] + EncPose(c.pose)) + (
            ([0x12, 27] + EncVector3(c.size)) + (
            ([0x19] + EncFixed64(c.bottomScale)) + (
            ([0x21] + EncFixed64(c.topScale)) + (
            ([0x2A, 36] + EncColor(c.color))))))
  {
    ShortPayloadBytes(1, EncPose(c.pose));
    ShortPayloadBytes(2, EncVector3(c.size));
    DoubleBytes(3, c.bottomScale);
    DoubleBytes(4, c.topScale);
    ShortPayloadBytes(5, EncColor(c.color));
  }

  lemma TextLayout(x: TextPrimitive)
    ensures EncText(x) ==
            ([0x0A, 67] + EncPose(x.pose)) + (
            Flag(0x10, x.billboard) + (
            ([0x19] + EncFixed64(x.fontSize)) + (
            Flag(0x20, x.scaleInvariant) + (
            ([0x2A, 36] + EncColor(x.color)) + (
            ([0x32] + EncLengthDelimited(x.text)))))))
  {
    ShortPayloadBytes(1, EncPose(x.pose));
    DoubleBytes(3, x.fontSize);
    ShortPayloadBytes(5, EncColor(x.color));
    PayloadBytes(6, x.text);
    TwoFlags(x);
  }

  lemma TwoFlags(x: TextPrimitive)
    ensures EncField(FlagField(2, x.billboard)) == Flag(0x10, x.billboard)
    ensures EncField(FlagField(4, x.scaleInvariant)) == Flag(0x20, x.scaleInvariant)
  {
    FlagBytes(2, x.billboard);
    FlagBytes(4, x.scaleInvariant);
  }

  lemma AxesLayout(a: AxesPrimitive)
    ensures EncAxes(a) ==
            ([0x0A, 67] + EncPose(a.pose)) + (
            ([0x11] + EncFixed64(a.length)) + (
            ([0x19] + EncFixed64(a.thickness)) + (
            Flag(0x20, a.scaleInvariant))))
  {
    ShortPayloadBytes(1, EncPose(a.pose));
    DoubleBytes(2, a.length);
    DoubleBytes(3, a.thickness);
    FlagBytes(4, a.scaleInvariant);
  }

  function KindNumber(kind: LineType): byte {
    match kind
    case LineStrip => 1
    case LineLoop => 2
    case LineList => 3
  }

  /** No indices, no field; otherwise they are packed, four bytes each. */
  lemma IndicesLayout(field: uint32, indices: seq<uint32>)
    requires field < 16
    ensures EncPacked32(field, indices) == if indices == [] then [] else [8 * field + 2] + EncLengthDelimited(EncWords32(indices))
  {
    PayloadBytes(field, EncWords32(indices));
  }

  lemma LineLayout(l: LinePrimitive)
    ensures EncLine(l) ==
            ([0x08] + EncVarint(KindNumber(l.kind))) + (
            ([0x12, 67] + EncPose(l.pose)) + (
            ([0x19] + EncFixed64(l.thickness)) + (
            Flag(0x20, l.scaleInvariant) + EncLineVertices(l))))
  {
    NumberBytes(1, KindNumber(l.kind));
    ShortPayloadBytes(2, EncPose(l.pose));
    DoubleBytes(3, l.thickness);
    FlagBytes(4, l.scaleInvariant);
  }

  lemma VerticesLayout(l: LinePrimitive)
    ensures EncLineVertices(l) ==
            Listed(0x2A, EncVector3, l.points) + (
            ([0x32, 36] + EncColor(l.color)) + (
            Listed(0x3A, EncColor, l.colors) + EncPacked32(8, l.indices)))
  {
    ListBytes(5, EncVector3, l.points);
    ListBytes(7, EncColor, l.colors);
    ShortPayloadBytes(6, EncColor(l.color));
  }

  lemma TriangleLayout(x: TrianglePrimitive)
    ensures EncTriangle(x) ==
            ([0x0A, 67] + EncPose(x.pose)) + (
            Listed(0x12, EncVector3, x.points) + (
            ([0x1A, 36] + EncColor(x.color)) + (
            Listed(0x22, EncColor, x.colors) + (
            EncPacked32(5, x.indices)))))
  {
    ListBytes(2, EncVector3, x.points);
    ListBytes(4, EncColor, x.colors);
    ShortPayloadBytes(1, EncPose(x.pose));
    ShortPayloadBytes(3, EncColor(x.color));
  }

  /** Inline bytes are there only if there are any. */
  lemma ModelLayout(m: ModelPrimitive)
    ensures EncModel(m) ==
            ([0x0A, 67] + EncPose(m.pose)) + (
            ([0x12, 27] + EncVector3(m.scale)) + (
            ([0x1A, 36] + EncColor(m.color)) + (
            Flag(0x20, m.overrideColor) + (
            ([0x2A] + EncLengthDelimited(m.url)) + (
            ([0x32] + EncLengthDelimited(m.mediaType)) + (
            (if m.data == [] then [] else [0x3A] + EncLengthDelimited(m.data))))))))
  {
    ShortPayloadBytes(1, EncPose(m.pose));
    ShortPayloadBytes(2, EncVector3(m.scale));
    ShortPayloadBytes(3, EncColor(m.color));
    FlagBytes(4, m.overrideColor);
    PayloadBytes(5, m.url);
    PayloadBytes(6, m.mediaType);
    PayloadBytes(7, m.data);
  }

  // ---------- entities ----------

  lemma PairLayout(kv: KeyValuePair)
    ensures EncPair(kv) ==
            ([0x0A] + EncLengthDelimited(kv.key)) + (
            ([0x12] + EncLengthDelimited(kv.value)))
  {
    PayloadBytes(1, kv.key);
    PayloadBytes(2, kv.value);
  }

  lemma DeletionLayout(d: SceneEntityDeletion)
    ensures EncDeletion(d) ==
            ([0x0A] + EncLengthDelimited(EncTimestamp(d.timestamp))) + (
            [0x10, if d.kind == All then 1 else 0] + (
            [0x1A] + EncLengthDelimited(d.id)))
  {
    PayloadBytes(1, EncTimestamp(d.timestamp));
    NumberBytes(2, if d.kind == All then 1 else 0);
    PayloadBytes(3, d.id);
  }

  lemma EntityLayout(e: SceneEntity)
    ensures EncEntity(e) ==
            ([0x0A] + EncLengthDelimited(EncTimestamp(e.timestamp))) + (
            ([0x12] + EncLengthDelimited(e.frameId)) + (
            ([0x1A] + EncLengthDelimited(e.id)) + (
            ([0x22] + EncLengthDelimited(EncTimestamp(e.lifetime))) + (
            Flag(0x28, e.frameLocked) + EncShapes(e)))))
  {
    PayloadBytes(1, EncTimestamp(e.timestamp));
    PayloadBytes(2, e.frameId);
    PayloadBytes(3, e.id);
    PayloadBytes(4, EncTimestamp(e.lifetime));
    FlagBytes(5, e.frameLocked);
  }

  lemma ShapesLayout(e: SceneEntity)
    ensures EncShapes(e) ==
            Listed(0x32, EncPair, e.metadata) + (
            Listed(0x3A, EncArrow, e.arrows) + (
            Listed(0x42, EncCube, e.cubes) + (
            Listed(0x4A, EncCube, e.spheres) + (
            Listed(0x52, EncCylinder, e.cylinders) + (
            Listed(0x5A, EncLine, e.lines) + (
            Listed(0x62, EncTriangle, e.triangles) + (
            Listed(0x6A, EncText, e.texts) + (
            Listed(0x72, EncModel, e.models) +
            Listed(0x7A, EncAxes, e.axes)))))))))
  {
    ListBytes(6, EncPair, e.metadata);
    ListBytes(7, EncArrow, e.arrows);
    ListBytes(8, EncCube, e.cubes);
    ListBytes(9, EncCube, e.spheres);
    ListBytes(10, EncCylinder, e.cylinders);
    ListBytes(11, EncLine, e.lines);
    ListBytes(12, EncTriangle, e.triangles);
    ListBytes(13, EncText, e.texts);
    ListBytes(14, EncModel, e.models);
    ListBytes(15, EncAxes, e.axes);
  }

  lemma SceneMessageLayout(scene: Scene)
    ensures EncScene(scene) == Listed(0x0A, EncDeletion, scene.deletions) + Listed(0x12, EncEntity, scene.entities)
  {
    ListBytes(1, EncDeletion, scene.deletions);
    ListBytes(2, EncEntity, scene.entities);
  }

  // ---------- fields a scene does not know ----------

  /** Any field that was written behind bytes that decode is passed over, unless it is a payload of field 1 or 2. */
  lemma WrittenFieldInScene(a: Bytes, field: uint32, c: Content, t: Bytes, scene: Scene)
    requires field != 0 && Fits(c) && (c.Text? ==> field > 2) && DecodeScene(a, scene).Ok?
    ensures DecodeScene(a + (EncField(FieldWith(field, c)) + t), scene) == DecodeScene(a + t, scene)
  {
    WrittenIsPayload(field, c);
    UnknownFieldInScene(a, FieldWith(field, c), t, scene);
  }

  /** One 32-bit field by itself is a scene, an empty one. */
  lemma ShortFieldIsEmptyScene()
    ensures DeserializeScene([0x25, 1, 2, 3, 4]) == Ok(BLANK_SCENE)
  {
    var b: Bytes := [0x25, 1, 2, 3, 4];
    assert b[1..] == [1, 2, 3, 4] && [1, 2, 3, 4][4..] == [];
    assert ReadTag(b) == Read(true, Tag(4, FIXED32), [1, 2, 3, 4]);
    Fixed32IsFourBytes([1, 2, 3, 4]);
  }

  // ---------- defaults and errors ----------

  /** What a message leaves out: the identity pose, black that can be seen, cylinders that do not taper. */
  lemma Defaults()
    ensures DoubleValue(ORIGIN.orientation.w) == Some(1.0) && BLANK_CYLINDER.bottomScale == BLANK_CYLINDER.topScale == ORIGIN.orientation.w
    ensures ORIGIN.position == Vector3(0, 0, 0) && ORIGIN.orientation.(w := 0) == Quaternion(0, 0, 0, 0)
    ensures BLACK == ColorRGBA(0, 0, 0, 255) && BLANK_LINE.kind == LineStrip && BLANK_DELETION.kind == MatchingId
  {
    DoublesOfNote();
  }

  /** Why a scene is refused is decided at the first field that is not in order. */
  lemma ErrorsTellWhy(b: Bytes, scene: Scene)
    requires |b| > 0
    ensures !ReadTag(b).ok ==> DecodeScene(b, scene) == Err(BadTag)
    ensures ReadTag(b).ok ==>
              var tag, rest := ReadTag(b).value, ReadTag(b).rest;
              && (tag.wire != 2 && !Skip(tag.wire, rest).ok ==> DecodeScene(b, scene) == Err(SkipFailed))
              && (tag.wire == 2 && !ReadBytes(rest).ok ==> DecodeScene(b, scene) == Err(BadLength))
              && (tag.wire == 2 && ReadBytes(rest).ok ==>
                    var body := ReadBytes(rest).value;
                    && (tag.field == 1 && !ParseFields(DeletionField, BLANK_DELETION, body).ok ==> DecodeScene(b, scene) == Err(DeletionFailed))
                    && (tag.field == 2 && !ParseFields(EntityField, BLANK_ENTITY, body).ok ==> DecodeScene(b, scene) == Err(EntityFailed)))
  {
  }
}
