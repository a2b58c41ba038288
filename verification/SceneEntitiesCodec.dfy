/** The scene message: entities with their metadata and nine primitive lists, deletions, and the loop
    over the whole buffer. An entity's bytes are read field by field: one lemma for each of its fifteen fields,
    for lists by way of `ListBack`, and then the lemmas that chain them in the order in which they are written.
    The outer loop knows nothing of the messages inside a part, so its lemmas are about any part decoder; only
    `DecodePart` ties them to deletions and entities. The last section proves the loop over a reader, and the
    writer's loops, equal to those functions. */
module SceneEntitiesCodec {
  import opened Prelude
  import opened Base128
  import opened ProtobufWire
  import opened WireBuffers
  import opened GeometryCodec
  import opened SceneEntities
  import opened ScenePrimitivesCodec

  // ---------- metadata ----------

  function PairField(s: KeyValuePair, tag: Tag, b: Bytes): (r: Step<KeyValuePair>)
    ensures |r.rest| <= |b|
  {
    match tag.field
    case 1 => var p := OnString(tag, s.key, b); Step(p.handled, s.(key := p.state), p.rest)
    case 2 => var p := OnString(tag, s.value, b); Step(p.handled, s.(value := p.state), p.rest)
    case _ => Declined(s, b)
  }

  lemma PairKey(s: KeyValuePair, v: Bytes)
    requires |v| <= UINT64_MAX
    ensures Takes(PairField, s, BytesField(1, v), s.(key := v))
  {
    StringRead(1, v);
  }

  lemma PairValue(s: KeyValuePair, v: Bytes)
    requires |v| <= UINT64_MAX
    ensures Takes(PairField, s, BytesField(2, v), s.(value := v))
  {
    StringRead(2, v);
  }

  function EncPair(kv: KeyValuePair): Bytes {
    EncField(BytesField(1, kv.key)) + EncField(BytesField(2, kv.value))
  }

  lemma PairBack(s: KeyValuePair, kv: KeyValuePair)
    requires |EncPair(kv)| <= UINT64_MAX
    ensures ParseFields(PairField, s, EncPair(kv)) == Parsed(true, kv)
  {
    PairKey(s, kv.key);
    PairValue(s.(key := kv.key), kv.value);
    FinishTwo(PairField, s, BytesField(1, kv.key), s.(key := kv.key), BytesField(2, kv.value), kv);
  }

  lemma PairLocal(s: KeyValuePair, tag: Tag, a: Bytes, t: Bytes)
    requires Skip(tag.wire, a).ok
    ensures PairField(s, tag, a + t) == PairField(s, tag, a).(rest := PairField(s, tag, a).rest + t)
    ensures var step := PairField(s, tag, a);
            if step.handled then step.rest == Skip(tag.wire, a).rest else step.rest == a && step.state == s
  {
    if tag.wire == LENGTH_DELIMITED {
      BytesExtend(a, t);
    }
  }

  lemma PairTidy()
    ensures Tidy(PairField, AnyTag)
  {
    forall s: KeyValuePair, tag: Tag, a: Bytes, t: Bytes | Skip(tag.wire, a).ok
      ensures var step := PairField(s, tag, a);
              && PairField(s, tag, a + t) == step.(rest := step.rest + t)
              && if step.handled then step.rest == Skip(tag.wire, a).rest else step.rest == a && step.state == s
    {
      PairLocal(s, tag, a, t);
    }
  }

  /** The key and the value. */
  predicate PairReads(tag: Tag) {
    tag.wire == LENGTH_DELIMITED && (tag.field == 1 || tag.field == 2)
  }

  lemma PairRereads()
    ensures Rereads(PairField, PairReads)
  {
  }

  /** A complete unknown field at any boundary of a pair changes nothing. */
  lemma UnknownFieldInPair(s: KeyValuePair, a: Bytes, tag: Tag, payload: Bytes, b: Bytes)
    requires WellFormed(a) && tag.field > 2 && IsPayload(tag.wire, payload)
    ensures ParseFields(PairField, s, a + b) == ParseFields(PairField, ParseFields(PairField, s, a).state, b)
    ensures ParseFields(PairField, s, a + (EncField(Field(tag, payload)) + b)) == ParseFields(PairField, s, a + b)
  {
    PairTidy();
    AnyFields(a);
    ParseConcat(PairField, AnyTag, s, a, b);
    UnknownFieldInserted(PairField, AnyTag, s, a, tag, payload, b);
  }

  /** Exactly which inputs a pair accepts: complete fields, but a string may be cut short if the bytes behind its
      length skip as a string. */
  lemma PairAcceptsExactly(s: KeyValuePair, b: Bytes)
    ensures ParseFields(PairField, s, b).ok <==> Accepted(PairReads, b)
  {
    PairRereads();
    RereadsAcceptExactly(PairField, PairReads, s, b);
  }

  /** A cut string behind complete fields: with its length consumed, it is accepted if and only if the next bytes
      are a complete string, which is passed over, and the rest is accepted. */
  lemma TruncatedStringAcceptedExactly(s: KeyValuePair, a: Bytes, tag: Tag, rest: Bytes)
    requires WellFormed(a) && PairReads(tag) && !ReadBytes(rest).ok
    ensures var again := ReadBytes(ReadBytes(rest).rest);
            var s' := ParseFields(PairField, s, a).state;
            ParseFields(PairField, s, a + (EncTag(tag) + rest)) == if again.ok then ParseFields(PairField, s', again.rest) else Parsed(false, s')
  {
    PairTidy();
    PairRereads();
    AnyFields(a);
    IncompleteFieldReread(PairField, AnyTag, PairReads, s, a, tag, rest);
  }

  /** So a truncated string can be accepted. Here a key of five bytes has three left: reading it fails with
      its length consumed, and skipping the field then takes the next byte for a length. */
  lemma TruncatedStringCanBeAccepted()
    ensures !WellFormed([0x0A, 5, 2, 0x61, 0x62])
    ensures ParseFields(PairField, BLANK_PAIR, [0x0A, 5, 2, 0x61, 0x62]) == Parsed(true, BLANK_PAIR)
  {
    var b: Bytes := [0x0A, 5, 2, 0x61, 0x62];
    assert b[1..] == [5, 2, 0x61, 0x62] && b[1..][1..] == [2, 0x61, 0x62];
    assert ReadTag(b) == Read(true, Tag(1, LENGTH_DELIMITED), [5, 2, 0x61, 0x62]);
    assert ReadBytes([5, 2, 0x61, 0x62]) == Read(false, [], [2, 0x61, 0x62]);
    var left: Bytes := [2, 0x61, 0x62];
    assert left[1..] == [0x61, 0x62];
    assert ReadVarint(left) == Read(true, 2, [0x61, 0x62]);
    assert ReadBytes(left).rest == [];
  }

  // ---------- deletions ----------

  function DeletionTypeToWire(kind: DeletionType): nat {
    if kind.All? then 1 else 0
  }

  function OnDeletionType(tag: Tag, current: DeletionType, b: Bytes): (r: Step<DeletionType>)
    ensures |r.rest| <= |b|
  {
    if tag.wire != VARINT then Declined(current, b)
    else
      var v := ReadVarint(b);
      Step(v.ok, if !v.ok then current else if v.value == 1 then All else MatchingId, v.rest)
  }

  function DeletionField(s: SceneEntityDeletion, tag: Tag, b: Bytes): (r: Step<SceneEntityDeletion>)
    ensures |r.rest| <= |b|
  {
    match tag.field
    case 1 => var p := OnTimestamp(tag, s.timestamp, b); Step(p.handled, s.(timestamp := p.state), p.rest)
    case 2 => var p := OnDeletionType(tag, s.kind, b); Step(p.handled, s.(kind := p.state), p.rest)
    case 3 => var p := OnString(tag, s.id, b); Step(p.handled, s.(id := p.state), p.rest)
    case _ => Declined(s, b)
  }

  lemma DeletionTimestamp(s: SceneEntityDeletion, v: int64)
    requires |EncTimestamp(v)| <= UINT64_MAX
    ensures Takes(DeletionField, s, BytesField(1, EncTimestamp(v)), s.(timestamp := v))
  {
    TimestampRead(1, v);
  }

  lemma DeletionKind(s: SceneEntityDeletion, v: DeletionType)
    ensures Takes(DeletionField, s, VarintField(2, DeletionTypeToWire(v)), s.(kind := v))
  {
    forall t ensures DeletionField(s, Tag(2, VARINT), EncVarint(DeletionTypeToWire(v)) + t) == Step(true, s.(kind := v), t) {
      VarintBack(DeletionTypeToWire(v), t);
    }
  }

  lemma DeletionId(s: SceneEntityDeletion, v: Bytes)
    requires |v| <= UINT64_MAX
    ensures Takes(DeletionField, s, BytesField(3, v), s.(id := v))
  {
    StringRead(3, v);
  }

  function EncDeletion(d: SceneEntityDeletion): Bytes {
    EncField(BytesField(1, EncTimestamp(d.timestamp))) + (EncField(VarintField(2, DeletionTypeToWire(d.kind))) +
    EncField(BytesField(3, d.id)))
  }

  lemma DeletionBack(s: SceneEntityDeletion, d: SceneEntityDeletion)
    requires |EncDeletion(d)| <= UINT64_MAX
    ensures ParseFields(DeletionField, s, EncDeletion(d)) == Parsed(true, d)
  {
    var s1 := s.(timestamp := d.timestamp);
    var s2 := s1.(kind := d.kind);
    DeletionTimestamp(s, d.timestamp);
    DeletionKind(s1, d.kind);
    DeletionId(s2, d.id);
    FinishThree(DeletionField, s, BytesField(1, EncTimestamp(d.timestamp)), s1, VarintField(2, DeletionTypeToWire(d.kind)), s2,
                BytesField(3, d.id), d);
  }

  // ---------- entities ----------

  function EntityHeadField(s: SceneEntity, tag: Tag, b: Bytes): (r: Step<SceneEntity>)
    ensures |r.rest| <= |b|
  {
    match tag.field
    case 1 => var p := OnTimestamp(tag, s.timestamp, b); Step(p.handled, s.(timestamp := p.state), p.rest)
    case 2 => var p := OnString(tag, s.frameId, b); Step(p.handled, s.(frameId := p.state), p.rest)
    case 3 => var p := OnString(tag, s.id, b); Step(p.handled, s.(id := p.state), p.rest)
    case 4 => var p := OnTimestamp(tag, s.lifetime, b); Step(p.handled, s.(lifetime := p.state), p.rest)
    case 5 => var p := OnFlag(tag, s.frameLocked, b); Step(p.handled, s.(frameLocked := p.state), p.rest)
    case _ => Declined(s, b)
  }

  function EntityShapeField(s: SceneEntity, tag: Tag, b: Bytes): (r: Step<SceneEntity>)
    ensures |r.rest| <= |b|
  {
    match tag.field
    case 6 => var p := OnElement(tag, PairField, BLANK_PAIR, s.metadata, b); Step(p.handled, s.(metadata := p.state), p.rest)
    case 7 => var p := OnElement(tag, ArrowField, BLANK_ARROW, s.arrows, b); Step(p.handled, s.(arrows := p.state), p.rest)
    case 8 => var p := OnElement(tag, CubeField, BLANK_CUBE, s.cubes, b); Step(p.handled, s.(cubes := p.state), p.rest)
    case 9 => var p := OnElement(tag, CubeField, BLANK_CUBE, s.spheres, b); Step(p.handled, s.(spheres := p.state), p.rest)
    case 10 => var p := OnElement(tag, CylinderField, BLANK_CYLINDER, s.cylinders, b); Step(p.handled, s.(cylinders := p.state), p.rest)
    case _ => Declined(s, b)
  }

  function EntityMeshField(s: SceneEntity, tag: Tag, b: Bytes): (r: Step<SceneEntity>)
    ensures |r.rest| <= |b|
  {
    match tag.field
    case 11 => var p := OnElement(tag, LineField, BLANK_LINE, s.lines, b); Step(p.handled, s.(lines := p.state), p.rest)
    case 12 => var p := OnElement(tag, TriangleField, BLANK_TRIANGLE, s.triangles, b); Step(p.handled, s.(triangles := p.state), p.rest)
    case 13 => var p := OnElement(tag, TextField, BLANK_TEXT, s.texts, b); Step(p.handled, s.(texts := p.state), p.rest)
    case 14 => var p := OnElement(tag, ModelField, BLANK_MODEL, s.models, b); Step(p.handled, s.(models := p.state), p.rest)
    case 15 => var p := OnElement(tag, AxesField, BLANK_AXES, s.axes, b); Step(p.handled, s.(axes := p.state), p.rest)
    case _ => Declined(s, b)
  }

  /** One switch over all fifteen fields in the source. */
  function EntityField(s: SceneEntity, tag: Tag, b: Bytes): (r: Step<SceneEntity>)
    ensures |r.rest| <= |b|
  {
    if tag.field <= 5 then EntityHeadField(s, tag, b)
    else if tag.field <= 10 then EntityShapeField(s, tag, b)
    else EntityMeshField(s, tag, b)
  }

  lemma EntityTimestamp(s: SceneEntity, v: int64)
    requires |EncTimestamp(v)| <= UINT64_MAX
    ensures Takes(EntityField, s, BytesField(1, EncTimestamp(v)), s.(timestamp := v))
  {
    TimestampRead(1, v);
  }

  lemma EntityFrameId(s: SceneEntity, v: Bytes)
    requires |v| <= UINT64_MAX
    ensures Takes(EntityField, s, BytesField(2, v), s.(frameId := v))
  {
    StringRead(2, v);
  }

  lemma EntityId(s: SceneEntity, v: Bytes)
    requires |v| <= UINT64_MAX
    ensures Takes(EntityField, s, BytesField(3, v), s.(id := v))
  {
    StringRead(3, v);
  }

  lemma EntityLifetime(s: SceneEntity, v: int64)
    requires |EncTimestamp(v)| <= UINT64_MAX
    ensures Takes(EntityField, s, BytesField(4, EncTimestamp(v)), s.(lifetime := v))
  {
    TimestampRead(4, v);
  }

  lemma EntityFrameLocked(s: SceneEntity, v: bool)
    ensures Takes(EntityField, s, FlagField(5, v), s.(frameLocked := v))
  {
    FlagRead(5, v);
  }

  lemma MetadataHeld(s: SceneEntity)
    ensures HoldsList(EntityField, (list: seq<KeyValuePair>) => s.(metadata := list), 6, PairField, BLANK_PAIR)
  {
  }

  lemma EntityMetadata(s: SceneEntity, xs: seq<KeyValuePair>, t: Bytes)
    requires s.metadata == [] && |EncElements(6, EncPair, xs)| <= UINT64_MAX
    ensures ParseFields(EntityField, s, EncElements(6, EncPair, xs) + t) == ParseFields(EntityField, s.(metadata := xs), t)
  {
    MetadataHeld(s);
    forall x | x in xs ensures ParseFields(PairField, BLANK_PAIR, EncPair(x)) == Parsed(true, x) {
      ElementFits(6, EncPair, xs, x);
      PairBack(BLANK_PAIR, x);
    }
    ListBack(EntityField, (list: seq<KeyValuePair>) => s.(metadata := list), 6, PairField, BLANK_PAIR, EncPair, xs, t);
  }

  lemma ArrowsHeld(s: SceneEntity)
    ensures HoldsList(EntityField, (list: seq<ArrowPrimitive>) => s.(arrows := list), 7, ArrowField, BLANK_ARROW)
  {
  }

  lemma EntityArrows(s: SceneEntity, xs: seq<ArrowPrimitive>, t: Bytes)
    requires s.arrows == [] && |EncElements(7, EncArrow, xs)| <= UINT64_MAX
    ensures ParseFields(EntityField, s, EncElements(7, EncArrow, xs) + t) == ParseFields(EntityField, s.(arrows := xs), t)
  {
    ArrowsHeld(s);
    forall x | x in xs ensures ParseFields(ArrowField, BLANK_ARROW, EncArrow(x)) == Parsed(true, x) {
      ArrowBack(BLANK_ARROW, x);
    }
    ListBack(EntityField, (list: seq<ArrowPrimitive>) => s.(arrows := list), 7, ArrowField, BLANK_ARROW, EncArrow, xs, t);
  }

  lemma CubesHeld(s: SceneEntity)
    ensures HoldsList(EntityField, (list: seq<CubePrimitive>) => s.(cubes := list), 8, CubeField, BLANK_CUBE)
  {
  }

  lemma EntityCubes(s: SceneEntity, xs: seq<CubePrimitive>, t: Bytes)
    requires s.cubes == [] && |EncElements(8, EncCube, xs)| <= UINT64_MAX
    ensures ParseFields(EntityField, s, EncElements(8, EncCube, xs) + t) == ParseFields(EntityField, s.(cubes := xs), t)
  {
    CubesHeld(s);
    forall x | x in xs ensures ParseFields(CubeField, BLANK_CUBE, EncCube(x)) == Parsed(true, x) {
      CubeBack(BLANK_CUBE, x);
    }
    ListBack(EntityField, (list: seq<CubePrimitive>) => s.(cubes := list), 8, CubeField, BLANK_CUBE, EncCube, xs, t);
  }

  lemma SpheresHeld(s: SceneEntity)
    ensures HoldsList(EntityField, (list: seq<SpherePrimitive>) => s.(spheres := list), 9, CubeField, BLANK_CUBE)
  {
  }

  lemma EntitySpheres(s: SceneEntity, xs: seq<SpherePrimitive>, t: Bytes)
    requires s.spheres == [] && |EncElements(9, EncCube, xs)| <= UINT64_MAX
    ensures ParseFields(EntityField, s, EncElements(9, EncCube, xs) + t) == ParseFields(EntityField, s.(spheres := xs), t)
  {
    SpheresHeld(s);
    forall x | x in xs ensures ParseFields(CubeField, BLANK_CUBE, EncCube(x)) == Parsed(true, x) {
      CubeBack(BLANK_CUBE, x);
    }
    ListBack(EntityField, (list: seq<SpherePrimitive>) => s.(spheres := list), 9, CubeField, BLANK_CUBE, EncCube, xs, t);
  }

  lemma CylindersHeld(s: SceneEntity)
    ensures HoldsList(EntityField, (list: seq<CylinderPrimitive>) => s.(cylinders := list), 10, CylinderField, BLANK_CYLINDER)
  {
  }

  lemma EntityCylinders(s: SceneEntity, xs: seq<CylinderPrimitive>, t: Bytes)
    requires s.cylinders == [] && |EncElements(10, EncCylinder, xs)| <= UINT64_MAX
    ensures ParseFields(EntityField, s, EncElements(10, EncCylinder, xs) + t) == ParseFields(EntityField, s.(cylinders := xs), t)
  {
    CylindersHeld(s);
    forall x | x in xs ensures ParseFields(CylinderField, BLANK_CYLINDER, EncCylinder(x)) == Parsed(true, x) {
      CylinderBack(BLANK_CYLINDER, x);
    }
    ListBack(EntityField, (list: seq<CylinderPrimitive>) => s.(cylinders := list), 10, CylinderField, BLANK_CYLINDER, EncCylinder, xs, t);
  }

  lemma LinesHeld(s: SceneEntity)
    ensures HoldsList(EntityField, (list: seq<LinePrimitive>) => s.(lines := list), 11, LineField, BLANK_LINE)
  {
  }

  lemma EntityLines(s: SceneEntity, xs: seq<LinePrimitive>, t: Bytes)
    requires s.lines == [] && |EncElements(11, EncLine, xs)| <= UINT64_MAX
    ensures ParseFields(EntityField, s, EncElements(11, EncLine, xs) + t) == ParseFields(EntityField, s.(lines := xs), t)
  {
    LinesHeld(s);
    forall x | x in xs ensures ParseFields(LineField, BLANK_LINE, EncLine(x)) == Parsed(true, x) {
      ElementFits(11, EncLine, xs, x);
      LineBack(x);
    }
    ListBack(EntityField, (list: seq<LinePrimitive>) => s.(lines := list), 11, LineField, BLANK_LINE, EncLine, xs, t);
  }

  lemma TrianglesHeld(s: SceneEntity)
    ensures HoldsList(EntityField, (list: seq<TrianglePrimitive>) => s.(triangles := list), 12, TriangleField, BLANK_TRIANGLE)
  {
  }

  lemma EntityTriangles(s: SceneEntity, xs: seq<TrianglePrimitive>, t: Bytes)
    requires s.triangles == [] && |EncElements(12, EncTriangle, xs)| <= UINT64_MAX
    ensures ParseFields(EntityField, s, EncElements(12, EncTriangle, xs) + t) == ParseFields(EntityField, s.(triangles := xs), t)
  {
    TrianglesHeld(s);
    forall x | x in xs ensures ParseFields(TriangleField, BLANK_TRIANGLE, EncTriangle(x)) == Parsed(true, x) {
      ElementFits(12, EncTriangle, xs, x);
      TriangleBack(x);
    }
    ListBack(EntityField, (list: seq<TrianglePrimitive>) => s.(triangles := list), 12, TriangleField, BLANK_TRIANGLE, EncTriangle, xs, t);
  }

  lemma TextsHeld(s: SceneEntity)
    ensures HoldsList(EntityField, (list: seq<TextPrimitive>) => s.(texts := list), 13, TextField, BLANK_TEXT)
  {
  }

  lemma EntityTexts(s: SceneEntity, xs: seq<TextPrimitive>, t: Bytes)
    requires s.texts == [] && |EncElements(13, EncText, xs)| <= UINT64_MAX
    ensures ParseFields(EntityField, s, EncElements(13, EncText, xs) + t) == ParseFields(EntityField, s.(texts := xs), t)
  {
    TextsHeld(s);
    forall x | x in xs ensures ParseFields(TextField, BLANK_TEXT, EncText(x)) == Parsed(true, x) {
      ElementFits(13, EncText, xs, x);
      TextBack(BLANK_TEXT, x);
    }
    ListBack(EntityField, (list: seq<TextPrimitive>) => s.(texts := list), 13, TextField, BLANK_TEXT, EncText, xs, t);
  }

  lemma ModelsHeld(s: SceneEntity)
    ensures HoldsList(EntityField, (list: seq<ModelPrimitive>) => s.(models := list), 14, ModelField, BLANK_MODEL)
  {
  }

  lemma EntityModels(s: SceneEntity, xs: seq<ModelPrimitive>, t: Bytes)
    requires s.models == [] && |EncElements(14, EncModel, xs)| <= UINT64_MAX
    ensures ParseFields(EntityField, s, EncElements(14, EncModel, xs) + t) == ParseFields(EntityField, s.(models := xs), t)
  {
    ModelsHeld(s);
    forall x | x in xs ensures ParseFields(ModelField, BLANK_MODEL, EncModel(x)) == Parsed(true, x) {
      ElementFits(14, EncModel, xs, x);
      ModelBack(x);
    }
    ListBack(EntityField, (list: seq<ModelPrimitive>) => s.(models := list), 14, ModelField, BLANK_MODEL, EncModel, xs, t);
  }

  lemma AxesHeld(s: SceneEntity)
    ensures HoldsList(EntityField, (list: seq<AxesPrimitive>) => s.(axes := list), 15, AxesField, BLANK_AXES)
  {
  }

  lemma EntityAxes(s: SceneEntity, xs: seq<AxesPrimitive>, t: Bytes)
    requires s.axes == [] && |EncElements(15, EncAxes, xs)| <= UINT64_MAX
    ensures ParseFields(EntityField, s, EncElements(15, EncAxes, xs) + t) == ParseFields(EntityField, s.(axes := xs), t)
  {
    AxesHeld(s);
    forall x | x in xs ensures ParseFields(AxesField, BLANK_AXES, EncAxes(x)) == Parsed(true, x) {
      AxesBack(BLANK_AXES, x);
    }
    ListBack(EntityField, (list: seq<AxesPrimitive>) => s.(axes := list), 15, AxesField, BLANK_AXES, EncAxes, xs, t);
  }

  function EncShapes(e: SceneEntity): Bytes {
    EncElements(6, EncPair, e.metadata) + (EncElements(7, EncArrow, e.arrows) + (EncElements(8, EncCube, e.cubes) +
    (EncElements(9, EncCube, e.spheres) + (EncElements(10, EncCylinder, e.cylinders) + EncMeshes(e)))))
  }

  function EncMeshes(e: SceneEntity): Bytes {
    EncElements(11, EncLine, e.lines) + (EncElements(12, EncTriangle, e.triangles) + EncLabels(e))
  }

  function EncLabels(e: SceneEntity): Bytes {
    EncElements(13, EncText, e.texts) + (EncElements(14, EncModel, e.models) + EncElements(15, EncAxes, e.axes))
  }

  function EncEntity(e: SceneEntity): Bytes {
    EncField(BytesField(1, EncTimestamp(e.timestamp))) + (EncField(BytesField(2, e.frameId)) + (EncField(BytesField(3, e.id)) +
    (EncField(BytesField(4, EncTimestamp(e.lifetime))) + (EncField(FlagField(5, e.frameLocked)) + EncShapes(e)))))
  }

  lemma LabelsBack(s: SceneEntity, e: SceneEntity)
    requires |EncLabels(e)| <= UINT64_MAX
    requires s == e.(texts := [], models := [], axes := [])
    ensures ParseFields(EntityField, s, EncLabels(e)) == Parsed(true, e)
  {
    var axes := EncElements(15, EncAxes, e.axes);
    var s3 := s.(texts := e.texts);
    var s4 := s3.(models := e.models);
    EntityTexts(s, e.texts, EncElements(14, EncModel, e.models) + axes);
    EntityModels(s3, e.models, axes);
    EntityAxes(s4, e.axes, []);
    assert axes + [] == axes;
  }

  lemma MeshesBack(s: SceneEntity, e: SceneEntity)
    requires |EncMeshes(e)| <= UINT64_MAX
    requires s == e.(lines := [], triangles := [], texts := [], models := [], axes := [])
    ensures ParseFields(EntityField, s, EncMeshes(e)) == Parsed(true, e)
  {
    var s1 := s.(lines := e.lines);
    var s2 := s1.(triangles := e.triangles);
    EntityLines(s, e.lines, EncElements(12, EncTriangle, e.triangles) + EncLabels(e));
    EntityTriangles(s1, e.triangles, EncLabels(e));
    LabelsBack(s2, e);
  }

  lemma ShapesBack(s: SceneEntity, e: SceneEntity)
    requires |EncShapes(e)| <= UINT64_MAX
    requires s == BLANK_ENTITY.(timestamp := e.timestamp, frameId := e.frameId, id := e.id, lifetime := e.lifetime, frameLocked := e.frameLocked)
    ensures ParseFields(EntityField, s, EncShapes(e)) == Parsed(true, e)
  {
    var cylinders := EncElements(10, EncCylinder, e.cylinders) + EncMeshes(e);
    var spheres := EncElements(9, EncCube, e.spheres) + cylinders;
    var cubes := EncElements(8, EncCube, e.cubes) + spheres;
    var arrows := EncElements(7, EncArrow, e.arrows) + cubes;
    var s1 := s.(metadata := e.metadata);
    var s2 := s1.(arrows := e.arrows);
    var s3 := s2.(cubes := e.cubes);
    var s4 := s3.(spheres := e.spheres);
    var s5 := s4.(cylinders := e.cylinders);
    EntityMetadata(s, e.metadata, arrows);
    EntityArrows(s1, e.arrows, cubes);
    EntityCubes(s2, e.cubes, spheres);
    EntitySpheres(s3, e.spheres, cylinders);
    EntityCylinders(s4, e.cylinders, EncMeshes(e));
    MeshesBack(s5, e);
  }

  lemma EntityBack(e: SceneEntity)
    requires |EncEntity(e)| <= UINT64_MAX
    ensures ParseFields(EntityField, BLANK_ENTITY, EncEntity(e)) == Parsed(true, e)
  {
    var f1, f2, f3 := BytesField(1, EncTimestamp(e.timestamp)), BytesField(2, e.frameId), BytesField(3, e.id);
    var f4, f5 := BytesField(4, EncTimestamp(e.lifetime)), FlagField(5, e.frameLocked);
    var s1 := BLANK_ENTITY.(timestamp := e.timestamp);
    var s2 := s1.(frameId := e.frameId);
    var s3 := s2.(id := e.id);
    var s4 := s3.(lifetime := e.lifetime);
    var s5 := s4.(frameLocked := e.frameLocked);
    EntityTimestamp(BLANK_ENTITY, e.timestamp);
    EntityFrameId(s1, e.frameId);
    EntityId(s2, e.id);
    EntityLifetime(s3, e.lifetime);
    EntityFrameLocked(s4, e.frameLocked);
    TakeThree(EntityField, BLANK_ENTITY, f1, s1, f2, s2, f3, s3, EncField(f4) + (EncField(f5) + EncShapes(e)));
    TakeTwo(EntityField, s3, f4, s4, f5, s5, EncShapes(e));
    ShapesBack(s5, e);
  }

  // ---------- the whole message ----------

  function EncScene(scene: Scene): Bytes {
    EncElements(1, EncDeletion, scene.deletions) + EncElements(2, EncEntity, scene.entities)
  }

  datatype DecodeError = EmptyBuffer | BadTag | SkipFailed | BadLength | DeletionFailed | EntityFailed

  /** What a length-delimited field adds to the value decoded so far. */
  type Part<!S> = (uint32, Bytes, S) -> Result<S, DecodeError>

  /** The loop of deserializeSceneEntities, whatever its fields mean: other wire types are skipped. */
  function DecodeParts<S>(part: Part<S>, b: Bytes, s: S): Result<S, DecodeError>
    decreases |b|
  {
    if |b| == 0 then Ok(s)
    else
      var tag := ReadTag(b);
      if !tag.ok then Err(BadTag)
      else if tag.value.wire != LENGTH_DELIMITED then
        var skipped := Skip(tag.value.wire, tag.rest);
        if !skipped.ok then Err(SkipFailed) else DecodeParts(part, skipped.rest, s)
      else
        var nested := ReadBytes(tag.rest);
        if !nested.ok then Err(BadLength)
        else
          var next := part(tag.value.field, nested.value, s);
          if next.Err? then next else DecodeParts(part, nested.rest, next.value)
  }

  /** One length-delimited field of the scene; unknown numbers change nothing. */
  function DecodePart(field: uint32, body: Bytes, scene: Scene): Result<Scene, DecodeError> {
    if field == 1 then
      var d := ParseFields(DeletionField, BLANK_DELETION, body);
      if d.ok then Ok(scene.(deletions := scene.deletions + [d.state])) else Err(DeletionFailed)
    else if field == 2 then
      var e := ParseFields(EntityField, BLANK_ENTITY, body);
      if e.ok then Ok(scene.(entities := scene.entities + [e.state])) else Err(EntityFailed)
    else Ok(scene)
  }

  function DecodeScene(b: Bytes, scene: Scene): Result<Scene, DecodeError> {
    DecodeParts(DecodePart, b, scene)
  }

  function DeserializeScene(data: Bytes): Result<Scene, DecodeError> {
    if |data| == 0 then Err(EmptyBuffer) else DecodeScene(data, BLANK_SCENE)
  }

  lemma PartStep<S>(part: Part<S>, field: uint32, body: Bytes, t: Bytes, s: S, next: S)
    requires field != 0 && |body| <= UINT64_MAX && part(field, body, s) == Ok(next)
    ensures DecodeParts(part, EncField(BytesField(field, body)) + t, s) == DecodeParts(part, t, next)
  {
    var f := BytesField(field, body);
    assert EncField(f) + t == EncTag(f.tag) + (f.payload + t);
    TagBack(f.tag, f.payload + t);
    BytesBack(body, t);
  }

  /** The element joins the list that `put` places in the decoded value. */
  ghost predicate Joins<S(!new), E(!new)>(part: Part<S>, field: uint32, enc: E -> Bytes, put: seq<E> -> S, x: E) {
    && |enc(x)| <= UINT64_MAX
    && forall done: seq<E> {:trigger part(field, enc(x), put(done))} :: part(field, enc(x), put(done)) == Ok(put(done + [x]))
  }

  lemma PartJoins<S(!new), E(!new)>(part: Part<S>, field: uint32, enc: E -> Bytes, put: seq<E> -> S, done: seq<E>,
                                    xs: seq<E>, t: Bytes)
    requires field != 0 && |xs| > 0 && Joins(part, field, enc, put, xs[0])
    ensures DecodeParts(part, EncElements(field, enc, xs) + t, put(done)) ==
            DecodeParts(part, EncElements(field, enc, xs[1..]) + t, put(done + [xs[0]]))
  {
    FirstElement(field, enc, xs, t);
    assert part(field, enc(xs[0]), put(done)) == Ok(put(done + [xs[0]]));
    PartStep(part, field, enc(xs[0]), EncElements(field, enc, xs[1..]) + t, put(done), put(done + [xs[0]]));
  }

  lemma NoPartsJoin<S(!new), E(!new)>(part: Part<S>, field: uint32, enc: E -> Bytes, put: seq<E> -> S, done: seq<E>, t: Bytes)
    ensures DecodeParts(part, EncElements(field, enc, []) + t, put(done)) == DecodeParts(part, t, put(done + []))
  {
    assert EncElements(field, enc, []) + t == t && done + [] == done;
  }

  lemma {:induction false} PartsJoin<S(!new), E(!new)>(part: Part<S>, field: uint32, enc: E -> Bytes, put: seq<E> -> S,
                                                      done: seq<E>, xs: seq<E>, t: Bytes)
    requires field != 0 && forall x :: x in xs ==> Joins(part, field, enc, put, x)
    ensures DecodeParts(part, EncElements(field, enc, xs) + t, put(done)) == DecodeParts(part, t, put(done + xs))
    decreases |xs|
  {
    if |xs| == 0 {
      NoPartsJoin(part, field, enc, put, done, t);
    } else {
      PartJoins(part, field, enc, put, done, xs, t);
      PartsJoin(part, field, enc, put, done + [xs[0]], xs[1..], t);
      MoveFirst(done, xs);
    }
  }

  lemma DeletionJoins(scene: Scene, d: SceneEntityDeletion)
    requires |EncDeletion(d)| <= UINT64_MAX
    ensures Joins(DecodePart, 1, EncDeletion, (list: seq<SceneEntityDeletion>) => scene.(deletions := list), d)
  {
    DeletionBack(BLANK_DELETION, d);
  }

  lemma EntityJoins(scene: Scene, e: SceneEntity)
    requires |EncEntity(e)| <= UINT64_MAX
    ensures Joins(DecodePart, 2, EncEntity, (list: seq<SceneEntity>) => scene.(entities := list), e)
  {
    EntityBack(e);
  }

  lemma DeletionsBack(xs: seq<SceneEntityDeletion>, scene: Scene, t: Bytes)
    requires |EncElements(1, EncDeletion, xs)| <= UINT64_MAX
    ensures DecodeScene(EncElements(1, EncDeletion, xs) + t, scene) == DecodeScene(t, scene.(deletions := scene.deletions + xs))
  {
    var put := (list: seq<SceneEntityDeletion>) => scene.(deletions := list);
    forall x | x in xs ensures Joins(DecodePart, 1, EncDeletion, put, x) {
      ElementFits(1, EncDeletion, xs, x);
      DeletionJoins(scene, x);
    }
    PartsJoin(DecodePart, 1, EncDeletion, put, scene.deletions, xs, t);
  }

  lemma EntitiesBack(xs: seq<SceneEntity>, scene: Scene, t: Bytes)
    requires |EncElements(2, EncEntity, xs)| <= UINT64_MAX
    ensures DecodeScene(EncElements(2, EncEntity, xs) + t, scene) == DecodeScene(t, scene.(entities := scene.entities + xs))
  {
    var put := (list: seq<SceneEntity>) => scene.(entities := list);
    forall x | x in xs ensures Joins(DecodePart, 2, EncEntity, put, x) {
      ElementFits(2, EncEntity, xs, x);
      EntityJoins(scene, x);
    }
    PartsJoin(DecodePart, 2, EncEntity, put, scene.entities, xs, t);
  }

  lemma SceneFits(scene: Scene)
    requires |EncScene(scene)| <= UINT64_MAX
    ensures |EncElements(1, EncDeletion, scene.deletions)| <= UINT64_MAX
    ensures |EncElements(2, EncEntity, scene.entities)| <= UINT64_MAX
  {
    BothFit(EncElements(1, EncDeletion, scene.deletions), EncElements(2, EncEntity, scene.entities));
  }

  lemma BothFit(a: Bytes, b: Bytes)
    requires |a + b| <= UINT64_MAX
    ensures |a| <= UINT64_MAX && |b| <= UINT64_MAX
  {
  }

  /** Decoding an encoded scene on top of another appends both lists. */
  lemma SceneBackOnto(scene: Scene, onto: Scene, t: Bytes)
    requires |EncScene(scene)| <= UINT64_MAX
    ensures DecodeScene(EncScene(scene) + t, onto) ==
            DecodeScene(t, Scene(onto.entities + scene.entities, onto.deletions + scene.deletions))
  {
    SceneFits(scene);
    var deletions, entities := EncElements(1, EncDeletion, scene.deletions), EncElements(2, EncEntity, scene.entities);
    Regroup(deletions, entities, t);
    DeletionsBack(scene.deletions, onto, entities + t);
    EntitiesBack(scene.entities, onto.(deletions := onto.deletions + scene.deletions), t);
  }

  /** The codec alone gives back every scene but the empty one, whose encoding it refuses as no input. */
  lemma SceneBack(scene: Scene)
    requires |EncScene(scene)| <= UINT64_MAX
    ensures DeserializeScene(EncScene(scene)) == Ok(scene) <==> scene != BLANK_SCENE
    ensures scene == BLANK_SCENE ==> EncScene(scene) == []
  {
    if scene != BLANK_SCENE {
      SceneDecodes(scene);
    }
  }

  lemma SceneDecodes(scene: Scene)
    requires |EncScene(scene)| <= UINT64_MAX
    ensures DecodeScene(EncScene(scene), BLANK_SCENE) == Ok(scene)
  {
    SceneBackOnto(scene, BLANK_SCENE, []);
    assert EncScene(scene) + [] == EncScene(scene);
    assert [] + scene.entities == scene.entities && [] + scene.deletions == scene.deletions;
  }

  /** Two different scenes never share an encoding. */
  lemma SceneEncodingInjective(x: Scene, y: Scene)
    requires EncScene(x) == EncScene(y) && |EncScene(x)| <= UINT64_MAX
    ensures x == y
  {
    SceneBack(x);
    SceneBack(y);
  }

  // ---------- any input, in pieces ----------

  lemma {:induction false} PartsConcat<S>(part: Part<S>, a: Bytes, t: Bytes, s: S)
    requires DecodeParts(part, a, s).Ok?
    ensures DecodeParts(part, a + t, s) == DecodeParts(part, t, DecodeParts(part, a, s).value)
    decreases |a|
  {
    if |a| == 0 {
      assert a + t == t;
    } else {
      var tag := ReadTag(a);
      TagExtends(a, t);
      if tag.value.wire != LENGTH_DELIMITED {
        SkipExtends(tag.value.wire, tag.rest, t);
        PartsConcat(part, Skip(tag.value.wire, tag.rest).rest, t, s);
      } else {
        var nested := ReadBytes(tag.rest);
        BytesExtend(tag.rest, t);
        PartsConcat(part, nested.rest, t, part(tag.value.field, nested.value, s).value);
      }
    }
  }

  lemma UnknownPart<S>(part: Part<S>, f: Field, t: Bytes, s: S, wire: Bytes)
    requires f.tag.field != 0 && IsPayload(f.tag.wire, f.payload) && wire == EncField(f) + t
    requires f.tag.wire == LENGTH_DELIMITED ==> part(f.tag.field, ReadBytes(f.payload).value, s) == Ok(s)
    ensures DecodeParts(part, wire, s) == DecodeParts(part, t, s)
  {
    assert wire == EncTag(f.tag) + (f.payload + t);
    TagBack(f.tag, f.payload + t);
    SkipExtends(f.tag.wire, f.payload, t);
    if f.tag.wire == LENGTH_DELIMITED {
      BytesExtend(f.payload, t);
    }
    assert [] + t == t;
  }

  /** Whatever bytes decode, decoding continues after them from the scene they gave. */
  lemma SceneConcat(a: Bytes, t: Bytes, scene: Scene)
    requires DecodeScene(a, scene).Ok?
    ensures DecodeScene(a + t, scene) == DecodeScene(t, DecodeScene(a, scene).value)
  {
    PartsConcat(DecodePart, a, t, scene);
  }

  /** A complete field that is neither a deletion nor an entity. */
  predicate UnknownToScene(f: Field) {
    f.tag.field != 0 && IsPayload(f.tag.wire, f.payload) && (f.tag.wire != LENGTH_DELIMITED || f.tag.field > 2)
  }

  /** Inserting such a field after any bytes that decode changes nothing. */
  lemma UnknownFieldInScene(a: Bytes, f: Field, t: Bytes, scene: Scene)
    requires UnknownToScene(f) && DecodeScene(a, scene).Ok?
    ensures DecodeScene(a + (EncField(f) + t), scene) == DecodeScene(a + t, scene)
  {
    SceneConcat(a, EncField(f) + t, scene);
    SceneConcat(a, t, scene);
    UnknownPart(DecodePart, f, t, DecodeScene(a, scene).value, EncField(f) + t);
  }

  // ---------- the buffers ----------

  method SerializeSceneEntities(scene: Scene) returns (out: Bytes)
    requires |EncScene(scene)| <= UINT64_MAX
    ensures out == EncScene(scene)
  {
    SceneFits(scene);
    ghost var deletions, entities := EncElements(1, EncDeletion, scene.deletions), EncElements(2, EncEntity, scene.entities);
    assert EncScene(scene) == deletions + entities;
    var writer := new Writer();
    writer.RepeatedMessages(1, EncDeletion, scene.deletions);
    assert writer.out == [] + deletions == deletions;
    writer.RepeatedMessages(2, EncEntity, scene.entities);
    out := writer.out;
  }

  method DeserializeSceneEntities(data: Bytes) returns (result: Result<Scene, DecodeError>)
    ensures result == DeserializeScene(data)
  {
    if |data| == 0 {
      return Err(EmptyBuffer);
    }
    var reader := new Reader(data);
    var scene := BLANK_SCENE;
    while |reader.rest| > 0
      invariant fresh(reader) && DecodeScene(reader.rest, scene) == DecodeScene(data, BLANK_SCENE)
      decreases |reader.rest|
    {
      ghost var before := reader.rest;
      var ok, tag := reader.ReadTag();
      if !ok {
        return Err(BadTag);
      }
      if tag.wire != LENGTH_DELIMITED {
        var skipped := reader.Skip(tag.wire);
        if !skipped {
          return Err(SkipFailed);
        }
        continue;
      }
      var nested;
      ok, nested := reader.ReadBytes();
      if !ok {
        return Err(BadLength);
      }
      var body := new Reader(nested);
      if tag.field == 1 {
        var deletion;
        ok, deletion := ParseAllFields(body, DeletionField, BLANK_DELETION);
        if !ok {
          return Err(DeletionFailed);
        }
        scene := scene.(deletions := scene.deletions + [deletion]);
      } else if tag.field == 2 {
        var entity;
        ok, entity := ParseAllFields(body, EntityField, BLANK_ENTITY);
        if !ok {
          return Err(EntityFailed);
        }
        scene := scene.(entities := scene.entities + [entity]);
      }
    }
    result := Ok(scene);
  }
}
