/** Each scene primitive: the bytes its writer appends, the handler its decoder runs, and the proof that
    decoding the bytes gives the primitive back, whatever value the decoder started from.

    The proofs all have one shape. For each field a lemma says that the handler takes that field, whatever
    bytes follow and whatever the state; `TakeThree` and its like run the loop over several fields without
    looking into the handler, and the last lemma of each primitive chains them. Lists of messages, colours and
    packed indices have lemmas of their own, since a handler appends to them instead of replacing. */
module ScenePrimitivesCodec {
  import opened Prelude
  import opened Base128
  import opened ProtobufWire
  import opened GeometryCodec
  import opened SceneEntities

  // ---------- lists of messages ----------

  /** readPrimitiveIntoVector: decodes a fresh element and appends it if that succeeds. */
  function OnElement<E(!new)>(tag: Tag, h: Handler<E>, blank: E, list: seq<E>, b: Bytes): (r: Step<seq<E>>)
    requires Advances(h)
    ensures |r.rest| <= |b|
  {
    var element := OnMessage(tag, h, blank, b);
    Step(element.handled, if element.handled then list + [element.state] else list, element.rest)
  }

  function OnColorElement(tag: Tag, list: seq<ColorRGBA>, b: Bytes): (r: Step<seq<ColorRGBA>>)
    ensures |r.rest| <= |b|
  {
    var c := OnColor(tag, BLACK, b);
    Step(c.handled, if c.handled then list + [c.state] else list, c.rest)
  }

  function OnPacked32(tag: Tag, list: seq<uint32>, b: Bytes): (r: Step<seq<uint32>>)
    ensures |r.rest| <= |b|
  {
    if tag.wire != LENGTH_DELIMITED then Declined(list, b) else ReadPacked32(list, b)
  }

  lemma Packed32Read(field: uint32, list: seq<uint32>, payload: Bytes)
    requires |payload| % 4 == 0 && |payload| <= UINT64_MAX
    ensures forall t :: OnPacked32(Tag(field, LENGTH_DELIMITED), list, EncLengthDelimited(payload) + t)
                        == Step(true, list + DecWords32(payload), t)
  {
    forall t ensures OnPacked32(Tag(field, LENGTH_DELIMITED), list, EncLengthDelimited(payload) + t)
                     == Step(true, list + DecWords32(payload), t)
    {
      PackedPayloadBack(list, payload, t);
    }
  }

  /** The field of the outer message is a list of inner messages, held where `put` puts it. */
  ghost predicate HoldsList<S(!new), E(!new)>(h: Handler<S>, put: seq<E> -> S, field: uint32, inner: Handler<E>, blank: E)
    requires Advances(inner)
  {
    forall list: seq<E>, b: Bytes {:trigger h(put(list), Tag(field, LENGTH_DELIMITED), b)} ::
      var e := OnElement(Tag(field, LENGTH_DELIMITED), inner, blank, list, b);
      h(put(list), Tag(field, LENGTH_DELIMITED), b) == Step(e.handled, put(e.state), e.rest)
  }

  lemma ElementRead<S(!new), E(!new)>(h: Handler<S>, put: seq<E> -> S, field: uint32, inner: Handler<E>, blank: E,
                                      enc: E -> Bytes, x: E, done: seq<E>)
    requires Advances(h) && Advances(inner) && HoldsList(h, put, field, inner, blank)
    requires |enc(x)| <= UINT64_MAX && ParseFields(inner, blank, enc(x)) == Parsed(true, x)
    ensures Takes(h, put(done), BytesField(field, enc(x)), put(done + [x]))
  {
    MessageRead(field, inner, blank, enc(x), x);
    forall t ensures h(put(done), Tag(field, LENGTH_DELIMITED), BytesField(field, enc(x)).payload + t) == Step(true, put(done + [x]), t) {
      var b := BytesField(field, enc(x)).payload + t;
      assert OnElement(Tag(field, LENGTH_DELIMITED), inner, blank, done, b) == Step(true, done + [x], t);
    }
  }

  /** A list of messages that each read back is read back as a list. */
  lemma ListBack<S(!new), E(!new)>(h: Handler<S>, put: seq<E> -> S, field: uint32, inner: Handler<E>, blank: E,
                                   enc: E -> Bytes, xs: seq<E>, t: Bytes)
    requires Advances(h) && Advances(inner) && field != 0 && HoldsList(h, put, field, inner, blank)
    requires |EncElements(field, enc, xs)| <= UINT64_MAX
    requires forall x :: x in xs ==> ParseFields(inner, blank, enc(x)) == Parsed(true, x)
    ensures ParseFields(h, put([]), EncElements(field, enc, xs) + t) == ParseFields(h, put(xs), t)
  {
    forall x | x in xs ensures Appends(h, put, field, enc, x) {
      ElementFits(field, enc, xs, x);
      forall done ensures Takes(h, put(done), BytesField(field, enc(x)), put(done + [x])) {
        ElementRead(h, put, field, inner, blank, enc, x, done);
      }
    }
    ElementsAppend(h, put, field, enc, [], xs, t);
    assert [] + xs == xs;
  }

  // ---------- arrow ----------

  function ArrowField(s: ArrowPrimitive, tag: Tag, b: Bytes): (r: Step<ArrowPrimitive>)
    ensures |r.rest| <= |b|
  {
    match tag.field
    case 1 => var p := OnMessage(tag, PoseField, s.pose, b); Step(p.handled, s.(pose := p.state), p.rest)
    case 2 => var p := OnDouble(tag, s.shaftLength, b); Step(p.handled, s.(shaftLength := p.state), p.rest)
    case 3 => var p := OnDouble(tag, s.shaftDiameter, b); Step(p.handled, s.(shaftDiameter := p.state), p.rest)
    case 4 => var p := OnDouble(tag, s.headLength, b); Step(p.handled, s.(headLength := p.state), p.rest)
    case 5 => var p := OnDouble(tag, s.headDiameter, b); Step(p.handled, s.(headDiameter := p.state), p.rest)
    case 6 => var p := OnColor(tag, s.color, b); Step(p.handled, s.(color := p.state), p.rest)
    case _ => Declined(s, b)
  }

  lemma ArrowPose(s: ArrowPrimitive, v: Pose)
    ensures Takes(ArrowField, s, BytesField(1, EncPose(v)), s.(pose := v))
  {
    PoseRead(1, s.pose, v);
  }

  lemma ArrowShaftLength(s: ArrowPrimitive, v: uint64)
    ensures Takes(ArrowField, s, Fixed64Field(2, v), s.(shaftLength := v))
  {
    DoubleRead(2, v);
  }

  lemma ArrowShaftDiameter(s: ArrowPrimitive, v: uint64)
    ensures Takes(ArrowField, s, Fixed64Field(3, v), s.(shaftDiameter := v))
  {
    DoubleRead(3, v);
  }

  lemma ArrowHeadLength(s: ArrowPrimitive, v: uint64)
    ensures Takes(ArrowField, s, Fixed64Field(4, v), s.(headLength := v))
  {
    DoubleRead(4, v);
  }

  lemma ArrowHeadDiameter(s: ArrowPrimitive, v: uint64)
    ensures Takes(ArrowField, s, Fixed64Field(5, v), s.(headDiameter := v))
  {
    DoubleRead(5, v);
  }

  lemma ArrowColor(s: ArrowPrimitive, v: ColorRGBA)
    ensures Takes(ArrowField, s, BytesField(6, EncColor(v)), s.(color := v))
  {
    ColorRead(6, v);
  }

  function EncArrow(a: ArrowPrimitive): Bytes {
    EncField(BytesField(1, EncPose(a.pose))) + (
    EncField(Fixed64Field(2, a.shaftLength)) + (
    EncField(Fixed64Field(3, a.shaftDiameter)) + (
    EncField(Fixed64Field(4, a.headLength)) + (
    EncField(Fixed64Field(5, a.headDiameter)) + (
    EncField(BytesField(6, EncColor(a.color))))))))
  }

  lemma ArrowBack(s: ArrowPrimitive, a: ArrowPrimitive)
    ensures ParseFields(ArrowField, s, EncArrow(a)) == Parsed(true, a)
  {
    var f1 := BytesField(1, EncPose(a.pose));
    var f2 := Fixed64Field(2, a.shaftLength);
    var f3 := Fixed64Field(3, a.shaftDiameter);
    var f4 := Fixed64Field(4, a.headLength);
    var f5 := Fixed64Field(5, a.headDiameter);
    var f6 := BytesField(6, EncColor(a.color));
    var s1 := s.(pose := a.pose);
    var s2 := s1.(shaftLength := a.shaftLength);
    var s3 := s2.(shaftDiameter := a.shaftDiameter);
    var s4 := s3.(headLength := a.headLength);
    var s5 := s4.(headDiameter := a.headDiameter);
    ArrowPose(s, a.pose);
    ArrowShaftLength(s1, a.shaftLength);
    ArrowShaftDiameter(s2, a.shaftDiameter);
    ArrowHeadLength(s3, a.headLength);
    ArrowHeadDiameter(s4, a.headDiameter);
    ArrowColor(s5, a.color);
    TakeThree(ArrowField, s, f1, s1, f2, s2, f3, s3,
      EncField(f4) + (EncField(f5) + (EncField(f6))));
    FinishThree(ArrowField, s3, f4, s4, f5, s5, f6, a);
  }

  // ---------- cube, and the sphere with its wire shape ----------

  function CubeField(s: CubePrimitive, tag: Tag, b: Bytes): (r: Step<CubePrimitive>)
    ensures |r.rest| <= |b|
  {
    match tag.field
    case 1 => var p := OnMessage(tag, PoseField, s.pose, b); Step(p.handled, s.(pose := p.state), p.rest)
    case 2 => var p := OnMessage(tag, Vector3Field, s.size, b); Step(p.handled, s.(size := p.state), p.rest)
    case 3 => var p := OnColor(tag, s.color, b); Step(p.handled, s.(color := p.state), p.rest)
    case _ => Declined(s, b)
  }

  lemma CubePose(s: CubePrimitive, v: Pose)
    ensures Takes(CubeField, s, BytesField(1, EncPose(v)), s.(pose := v))
  {
    PoseRead(1, s.pose, v);
  }

  lemma CubeSize(s: CubePrimitive, v: Vector3)
    ensures Takes(CubeField, s, BytesField(2, EncVector3(v)), s.(size := v))
  {
    Vector3Read(2, s.size, v);
  }

  lemma CubeColor(s: CubePrimitive, v: ColorRGBA)
    ensures Takes(CubeField, s, BytesField(3, EncColor(v)), s.(color := v))
  {
    ColorRead(3, v);
  }

  function EncCube(c: CubePrimitive): Bytes {
    EncField(BytesField(1, EncPose(c.pose))) + (
    EncField(BytesField(2, EncVector3(c.size))) + (
    EncField(BytesField(3, EncColor(c.color)))))
  }

  lemma CubeBack(s: CubePrimitive, c: CubePrimitive)
    ensures ParseFields(CubeField, s, EncCube(c)) == Parsed(true, c)
  {
    var f1 := BytesField(1, EncPose(c.pose));
    var f2 := BytesField(2, EncVector3(c.size));
    var f3 := BytesField(3, EncColor(c.color));
    var s1 := s.(pose := c.pose);
    var s2 := s1.(size := c.size);
    CubePose(s, c.pose);
    CubeSize(s1, c.size);
    CubeColor(s2, c.color);
    FinishThree(CubeField, s, f1, s1, f2, s2, f3, c);
  }

  // ---------- cylinder ----------

  function CylinderField(s: CylinderPrimitive, tag: Tag, b: Bytes): (r: Step<CylinderPrimitive>)
    ensures |r.rest| <= |b|
  {
    match tag.field
    case 1 => var p := OnMessage(tag, PoseField, s.pose, b); Step(p.handled, s.(pose := p.state), p.rest)
    case 2 => var p := OnMessage(tag, Vector3Field, s.size, b); Step(p.handled, s.(size := p.state), p.rest)
    case 3 => var p := OnDouble(tag, s.bottomScale, b); Step(p.handled, s.(bottomScale := p.state), p.rest)
    case 4 => var p := OnDouble(tag, s.topScale, b); Step(p.handled, s.(topScale := p.state), p.rest)
    case 5 => var p := OnColor(tag, s.color, b); Step(p.handled, s.(color := p.state), p.rest)
    case _ => Declined(s, b)
  }

  lemma CylinderPose(s: CylinderPrimitive, v: Pose)
    ensures Takes(CylinderField, s, BytesField(1, EncPose(v)), s.(pose := v))
  {
    PoseRead(1, s.pose, v);
  }

  lemma CylinderSize(s: CylinderPrimitive, v: Vector3)
    ensures Takes(CylinderField, s, BytesField(2, EncVector3(v)), s.(size := v))
  {
    Vector3Read(2, s.size, v);
  }

  lemma CylinderBottomScale(s: CylinderPrimitive, v: uint64)
    ensures Takes(CylinderField, s, Fixed64Field(3, v), s.(bottomScale := v))
  {
    DoubleRead(3, v);
  }

  lemma CylinderTopScale(s: CylinderPrimitive, v: uint64)
    ensures Takes(CylinderField, s, Fixed64Field(4, v), s.(topScale := v))
  {
    DoubleRead(4, v);
  }

  lemma CylinderColor(s: CylinderPrimitive, v: ColorRGBA)
    ensures Takes(CylinderField, s, BytesField(5, EncColor(v)), s.(color := v))
  {
    ColorRead(5, v);
  }

  function EncCylinder(c: CylinderPrimitive): Bytes {
    EncField(BytesField(1, EncPose(c.pose))) + (
    EncField(BytesField(2, EncVector3(c.size))) + (
    EncField(Fixed64Field(3, c.bottomScale)) + (
    EncField(Fixed64Field(4, c.topScale)) + (
    EncField(BytesField(5, EncColor(c.color)))))))
  }

  lemma CylinderBack(s: CylinderPrimitive, c: CylinderPrimitive)
    ensures ParseFields(CylinderField, s, EncCylinder(c)) == Parsed(true, c)
  {
    var f1 := BytesField(1, EncPose(c.pose));
    var f2 := BytesField(2, EncVector3(c.size));
    var f3 := Fixed64Field(3, c.bottomScale);
    var f4 := Fixed64Field(4, c.topScale);
    var f5 := BytesField(5, EncColor(c.color));
    var s1 := s.(pose := c.pose);
    var s2 := s1.(size := c.size);
    var s3 := s2.(bottomScale := c.bottomScale);
    var s4 := s3.(topScale := c.topScale);
    CylinderPose(s, c.pose);
    CylinderSize(s1, c.size);
    CylinderBottomScale(s2, c.bottomScale);
    CylinderTopScale(s3, c.topScale);
    CylinderColor(s4, c.color);
    TakeThree(CylinderField, s, f1, s1, f2, s2, f3, s3,
      EncField(f4) + (EncField(f5)));
    FinishTwo(CylinderField, s3, f4, s4, f5, c);
  }

  // ---------- text ----------

  function TextField(s: TextPrimitive, tag: Tag, b: Bytes): (r: Step<TextPrimitive>)
    ensures |r.rest| <= |b|
  {
    match tag.field
    case 1 => var p := OnMessage(tag, PoseField, s.pose, b); Step(p.handled, s.(pose := p.state), p.rest)
    case 2 => var p := OnFlag(tag, s.billboard, b); Step(p.handled, s.(billboard := p.state), p.rest)
    case 3 => var p := OnDouble(tag, s.fontSize, b); Step(p.handled, s.(fontSize := p.state), p.rest)
    case 4 => var p := OnFlag(tag, s.scaleInvariant, b); Step(p.handled, s.(scaleInvariant := p.state), p.rest)
    case 5 => var p := OnColor(tag, s.color, b); Step(p.handled, s.(color := p.state), p.rest)
    case 6 => var p := OnString(tag, s.text, b); Step(p.handled, s.(text := p.state), p.rest)
    case _ => Declined(s, b)
  }

  lemma TextPose(s: TextPrimitive, v: Pose)
    ensures Takes(TextField, s, BytesField(1, EncPose(v)), s.(pose := v))
  {
    PoseRead(1, s.pose, v);
  }

  lemma TextBillboard(s: TextPrimitive, v: bool)
    ensures Takes(TextField, s, FlagField(2, v), s.(billboard := v))
  {
    FlagRead(2, v);
  }

  lemma TextFontSize(s: TextPrimitive, v: uint64)
    ensures Takes(TextField, s, Fixed64Field(3, v), s.(fontSize := v))
  {
    DoubleRead(3, v);
  }

  lemma TextScaleInvariant(s: TextPrimitive, v: bool)
    ensures Takes(TextField, s, FlagField(4, v), s.(scaleInvariant := v))
  {
    FlagRead(4, v);
  }

  lemma TextColor(s: TextPrimitive, v: ColorRGBA)
    ensures Takes(TextField, s, BytesField(5, EncColor(v)), s.(color := v))
  {
    ColorRead(5, v);
  }

  lemma TextText(s: TextPrimitive, v: Bytes)
    requires |v| <= UINT64_MAX
    ensures Takes(TextField, s, BytesField(6, v), s.(text := v))
  {
    StringRead(6, v);
  }

  function EncText(x: TextPrimitive): Bytes {
    EncField(BytesField(1, EncPose(x.pose))) + (
    EncField(FlagField(2, x.billboard)) + (
    EncField(Fixed64Field(3, x.fontSize)) + (
    EncField(FlagField(4, x.scaleInvariant)) + (
    EncField(BytesField(5, EncColor(x.color))) + (
    EncField(BytesField(6, x.text)))))))
  }

  lemma TextBack(s: TextPrimitive, x: TextPrimitive)
    requires |EncText(x)| <= UINT64_MAX
    ensures ParseFields(TextField, s, EncText(x)) == Parsed(true, x)
  {
    var f1 := BytesField(1, EncPose(x.pose));
    var f2 := FlagField(2, x.billboard);
    var f3 := Fixed64Field(3, x.fontSize);
    var f4 := FlagField(4, x.scaleInvariant);
    var f5 := BytesField(5, EncColor(x.color));
    var f6 := BytesField(6, x.text);
    var s1 := s.(pose := x.pose);
    var s2 := s1.(billboard := x.billboard);
    var s3 := s2.(fontSize := x.fontSize);
    var s4 := s3.(scaleInvariant := x.scaleInvariant);
    var s5 := s4.(color := x.color);
    TextPose(s, x.pose);
    TextBillboard(s1, x.billboard);
    TextFontSize(s2, x.fontSize);
    TextScaleInvariant(s3, x.scaleInvariant);
    TextColor(s4, x.color);
    TextText(s5, x.text);
    TakeThree(TextField, s, f1, s1, f2, s2, f3, s3,
      EncField(f4) + (EncField(f5) + (EncField(f6))));
    FinishThree(TextField, s3, f4, s4, f5, s5, f6, x);
  }

  // ---------- axes ----------

  function AxesField(s: AxesPrimitive, tag: Tag, b: Bytes): (r: Step<AxesPrimitive>)
    ensures |r.rest| <= |b|
  {
    match tag.field
    case 1 => var p := OnMessage(tag, PoseField, s.pose, b); Step(p.handled, s.(pose := p.state), p.rest)
    case 2 => var p := OnDouble(tag, s.length, b); Step(p.handled, s.(length := p.state), p.rest)
    case 3 => var p := OnDouble(tag, s.thickness, b); Step(p.handled, s.(thickness := p.state), p.rest)
    case 4 => var p := OnFlag(tag, s.scaleInvariant, b); Step(p.handled, s.(scaleInvariant := p.state), p.rest)
    case _ => Declined(s, b)
  }

  lemma AxesPose(s: AxesPrimitive, v: Pose)
    ensures Takes(AxesField, s, BytesField(1, EncPose(v)), s.(pose := v))
  {
    PoseRead(1, s.pose, v);
  }

  lemma AxesLength(s: AxesPrimitive, v: uint64)
    ensures Takes(AxesField, s, Fixed64Field(2, v), s.(length := v))
  {
    DoubleRead(2, v);
  }

  lemma AxesThickness(s: AxesPrimitive, v: uint64)
    ensures Takes(AxesField, s, Fixed64Field(3, v), s.(thickness := v))
  {
    DoubleRead(3, v);
  }

  lemma AxesScaleInvariant(s: AxesPrimitive, v: bool)
    ensures Takes(AxesField, s, FlagField(4, v), s.(scaleInvariant := v))
  {
    FlagRead(4, v);
  }

  function EncAxes(a: AxesPrimitive): Bytes {
    EncField(BytesField(1, EncPose(a.pose))) + (
    EncField(Fixed64Field(2, a.length)) + (
    EncField(Fixed64Field(3, a.thickness)) + (
    EncField(FlagField(4, a.scaleInvariant)))))
  }

  lemma AxesBack(s: AxesPrimitive, a: AxesPrimitive)
    ensures ParseFields(AxesField, s, EncAxes(a)) == Parsed(true, a)
  {
    var f1 := BytesField(1, EncPose(a.pose));
    var f2 := Fixed64Field(2, a.length);
    var f3 := Fixed64Field(3, a.thickness);
    var f4 := FlagField(4, a.scaleInvariant);
    var s1 := s.(pose := a.pose);
    var s2 := s1.(length := a.length);
    var s3 := s2.(thickness := a.thickness);
    AxesPose(s, a.pose);
    AxesLength(s1, a.length);
    AxesThickness(s2, a.thickness);
    AxesScaleInvariant(s3, a.scaleInvariant);
    TakeThree(AxesField, s, f1, s1, f2, s2, f3, s3,
      EncField(f4));
    FinishOne(AxesField, s3, f4, a);
  }

  // ---------- the vertex lists of lines and triangles ----------

  ghost predicate HoldsColors<S(!new)>(h: Handler<S>, put: seq<ColorRGBA> -> S, field: uint32) {
    forall list: seq<ColorRGBA>, b: Bytes {:trigger h(put(list), Tag(field, LENGTH_DELIMITED), b)} ::
      var e := OnColorElement(Tag(field, LENGTH_DELIMITED), list, b);
      h(put(list), Tag(field, LENGTH_DELIMITED), b) == Step(e.handled, put(e.state), e.rest)
  }

  lemma ColorElementRead<S(!new)>(h: Handler<S>, put: seq<ColorRGBA> -> S, field: uint32, c: ColorRGBA, done: seq<ColorRGBA>)
    requires Advances(h) && HoldsColors(h, put, field)
    ensures Takes(h, put(done), BytesField(field, EncColor(c)), put(done + [c]))
  {
    ColorRead(field, c);
    forall t ensures h(put(done), Tag(field, LENGTH_DELIMITED), BytesField(field, EncColor(c)).payload + t) == Step(true, put(done + [c]), t) {
      var b := BytesField(field, EncColor(c)).payload + t;
      assert OnColorElement(Tag(field, LENGTH_DELIMITED), done, b) == Step(true, done + [c], t);
    }
  }

  lemma ColorsBack<S(!new)>(h: Handler<S>, put: seq<ColorRGBA> -> S, field: uint32, colors: seq<ColorRGBA>, t: Bytes)
    requires Advances(h) && field != 0 && HoldsColors(h, put, field)
    ensures ParseFields(h, put([]), EncElements(field, EncColor, colors) + t) == ParseFields(h, put(colors), t)
  {
    forall c | c in colors ensures Appends(h, put, field, EncColor, c) {
      forall done ensures Takes(h, put(done), BytesField(field, EncColor(c)), put(done + [c])) {
        ColorElementRead(h, put, field, c, done);
      }
    }
    ElementsAppend(h, put, field, EncColor, [], colors, t);
    assert [] + colors == colors;
  }

  lemma PointsBack<S(!new)>(h: Handler<S>, put: seq<Point3> -> S, field: uint32, points: seq<Point3>, t: Bytes)
    requires Advances(h) && field != 0 && HoldsList(h, put, field, Vector3Field, BLANK_VECTOR)
    requires |EncElements(field, EncVector3, points)| <= UINT64_MAX
    ensures ParseFields(h, put([]), EncElements(field, EncVector3, points) + t) == ParseFields(h, put(points), t)
  {
    forall x | x in points ensures ParseFields(Vector3Field, BLANK_VECTOR, EncVector3(x)) == Parsed(true, x) {
      Vector3Back(BLANK_VECTOR, x);
    }
    ListBack(h, put, field, Vector3Field, BLANK_VECTOR, EncVector3, points, t);
  }

  /** A packed payload becomes the list that `put` places in the decoded value. */
  ghost predicate HoldsIndices<S(!new)>(h: Handler<S>, s: S, put: seq<uint32> -> S, field: uint32) {
    forall payload: Bytes {:trigger BytesField(field, payload)} ::
      |payload| % 4 == 0 && |payload| <= UINT64_MAX ==> Takes(h, s, BytesField(field, payload), put(DecWords32(payload)))
  }

  /** The packed indices close the message; an empty list is left out of it. */
  lemma IndicesFinish<S(!new)>(h: Handler<S>, s: S, put: seq<uint32> -> S, field: uint32, indices: seq<uint32>)
    requires Advances(h) && field != 0 && HoldsIndices(h, s, put, field) && s == put([])
    requires |EncPacked32(field, indices)| <= UINT64_MAX
    ensures ParseFields(h, s, EncPacked32(field, indices)) == Parsed(true, put(indices))
  {
    if |indices| != 0 {
      Words32Back(indices);
      FinishOne(h, s, BytesField(field, EncWords32(indices)), put(indices));
    }
  }

  // ---------- line ----------

  function LineTypeToWire(kind: LineType): nat {
    match kind
    case LineStrip => 1
    case LineLoop => 2
    case LineList => 3
  }

  function LineTypeFromWire(v: nat): LineType {
    if v == 2 then LineLoop else if v == 3 then LineList else LineStrip
  }

  function OnLineType(tag: Tag, current: LineType, b: Bytes): (r: Step<LineType>)
    ensures |r.rest| <= |b|
  {
    if tag.wire != VARINT then Declined(current, b)
    else
      var v := ReadVarint(b);
      Step(v.ok, if v.ok then LineTypeFromWire(v.value) else current, v.rest)
  }

  lemma LineTypeRead(field: uint32, kind: LineType)
    ensures forall current, t :: OnLineType(Tag(field, VARINT), current, VarintField(field, LineTypeToWire(kind)).payload + t)
                                 == Step(true, kind, t)
  {
    forall current, t ensures OnLineType(Tag(field, VARINT), current, VarintField(field, LineTypeToWire(kind)).payload + t)
                              == Step(true, kind, t)
    {
      VarintBack(LineTypeToWire(kind), t);
    }
  }

  function LineField(s: LinePrimitive, tag: Tag, b: Bytes): (r: Step<LinePrimitive>)
    ensures |r.rest| <= |b|
  {
    match tag.field
    case 1 => var p := OnLineType(tag, s.kind, b); Step(p.handled, s.(kind := p.state), p.rest)
    case 2 => var p := OnMessage(tag, PoseField, s.pose, b); Step(p.handled, s.(pose := p.state), p.rest)
    case 3 => var p := OnDouble(tag, s.thickness, b); Step(p.handled, s.(thickness := p.state), p.rest)
    case 4 => var p := OnFlag(tag, s.scaleInvariant, b); Step(p.handled, s.(scaleInvariant := p.state), p.rest)
    case 5 => var p := OnElement(tag, Vector3Field, BLANK_VECTOR, s.points, b); Step(p.handled, s.(points := p.state), p.rest)
    case 6 => var p := OnColor(tag, s.color, b); Step(p.handled, s.(color := p.state), p.rest)
    case 7 => var p := OnColorElement(tag, s.colors, b); Step(p.handled, s.(colors := p.state), p.rest)
    case 8 => var p := OnPacked32(tag, s.indices, b); Step(p.handled, s.(indices := p.state), p.rest)
    case _ => Declined(s, b)
  }

  lemma LineKind(s: LinePrimitive, v: LineType)
    ensures Takes(LineField, s, VarintField(1, LineTypeToWire(v)), s.(kind := v))
  {
    LineTypeRead(1, v);
  }

  lemma LinePose(s: LinePrimitive, v: Pose)
    ensures Takes(LineField, s, BytesField(2, EncPose(v)), s.(pose := v))
  {
    PoseRead(2, s.pose, v);
  }

  lemma LineThickness(s: LinePrimitive, v: uint64)
    ensures Takes(LineField, s, Fixed64Field(3, v), s.(thickness := v))
  {
    DoubleRead(3, v);
  }

  lemma LineScaleInvariant(s: LinePrimitive, v: bool)
    ensures Takes(LineField, s, FlagField(4, v), s.(scaleInvariant := v))
  {
    FlagRead(4, v);
  }

  lemma LinePoints(s: LinePrimitive)
    ensures HoldsList(LineField, (list: seq<Point3>) => s.(points := list), 5, Vector3Field, BLANK_VECTOR)
  {
  }

  lemma LineColor(s: LinePrimitive, v: ColorRGBA)
    ensures Takes(LineField, s, BytesField(6, EncColor(v)), s.(color := v))
  {
    ColorRead(6, v);
  }

  lemma LineColors(s: LinePrimitive)
    ensures HoldsColors(LineField, (list: seq<ColorRGBA>) => s.(colors := list), 7)
  {
  }

  lemma LineIndices(s: LinePrimitive)
    requires s.indices == []
    ensures HoldsIndices(LineField, s, (list: seq<uint32>) => s.(indices := list), 8)
  {
    forall payload: Bytes | |payload| % 4 == 0 && |payload| <= UINT64_MAX
      ensures Takes(LineField, s, BytesField(8, payload), s.(indices := DecWords32(payload)))
    {
      Packed32Read(8, s.indices, payload);
      assert [] + DecWords32(payload) == DecWords32(payload);
    }
  }

  function EncLineVertices(l: LinePrimitive): Bytes {
    EncElements(5, EncVector3, l.points) + (EncField(BytesField(6, EncColor(l.color))) +
    (EncElements(7, EncColor, l.colors) + EncPacked32(8, l.indices)))
  }

  function EncLine(l: LinePrimitive): Bytes {
    EncField(VarintField(1, LineTypeToWire(l.kind))) + (EncField(BytesField(2, EncPose(l.pose))) +
    (EncField(Fixed64Field(3, l.thickness)) + (EncField(FlagField(4, l.scaleInvariant)) + EncLineVertices(l))))
  }

  lemma LineVerticesBack(s: LinePrimitive, l: LinePrimitive)
    requires |EncLineVertices(l)| <= UINT64_MAX
    requires s.points == [] && s.colors == [] && s.indices == []
    requires s == BLANK_LINE.(kind := l.kind, pose := l.pose, thickness := l.thickness, scaleInvariant := l.scaleInvariant)
    ensures ParseFields(LineField, s, EncLineVertices(l)) == Parsed(true, l)
  {
    var indices := EncPacked32(8, l.indices);
    var colors := EncElements(7, EncColor, l.colors) + indices;
    var s5 := s.(points := l.points);
    var s6 := s5.(color := l.color);
    var s7 := s6.(colors := l.colors);
    LinePoints(s);
    PointsBack(LineField, (list: seq<Point3>) => s.(points := list), 5, l.points, EncField(BytesField(6, EncColor(l.color))) + colors);
    LineColor(s5, l.color);
    TakeOne(LineField, s5, BytesField(6, EncColor(l.color)), s6, colors);
    LineColors(s6);
    ColorsBack(LineField, (list: seq<ColorRGBA>) => s6.(colors := list), 7, l.colors, indices);
    LineIndices(s7);
    IndicesFinish(LineField, s7, (list: seq<uint32>) => s7.(indices := list), 8, l.indices);
  }

  lemma LineBack(l: LinePrimitive)
    requires |EncLine(l)| <= UINT64_MAX
    ensures ParseFields(LineField, BLANK_LINE, EncLine(l)) == Parsed(true, l)
  {
    var f1, f2 := VarintField(1, LineTypeToWire(l.kind)), BytesField(2, EncPose(l.pose));
    var f3, f4 := Fixed64Field(3, l.thickness), FlagField(4, l.scaleInvariant);
    var s1 := BLANK_LINE.(kind := l.kind);
    var s2 := s1.(pose := l.pose);
    var s3 := s2.(thickness := l.thickness);
    var s4 := s3.(scaleInvariant := l.scaleInvariant);
    LineKind(BLANK_LINE, l.kind);
    LinePose(s1, l.pose);
    LineThickness(s2, l.thickness);
    LineScaleInvariant(s3, l.scaleInvariant);
    TakeTwo(LineField, BLANK_LINE, f1, s1, f2, s2, EncField(f3) + (EncField(f4) + EncLineVertices(l)));
    TakeTwo(LineField, s2, f3, s3, f4, s4, EncLineVertices(l));
    LineVerticesBack(s4, l);
  }

  // ---------- triangle ----------

  function TriangleField(s: TrianglePrimitive, tag: Tag, b: Bytes): (r: Step<TrianglePrimitive>)
    ensures |r.rest| <= |b|
  {
    match tag.field
    case 1 => var p := OnMessage(tag, PoseField, s.pose, b); Step(p.handled, s.(pose := p.state), p.rest)
    case 2 => var p := OnElement(tag, Vector3Field, BLANK_VECTOR, s.points, b); Step(p.handled, s.(points := p.state), p.rest)
    case 3 => var p := OnColor(tag, s.color, b); Step(p.handled, s.(color := p.state), p.rest)
    case 4 => var p := OnColorElement(tag, s.colors, b); Step(p.handled, s.(colors := p.state), p.rest)
    case 5 => var p := OnPacked32(tag, s.indices, b); Step(p.handled, s.(indices := p.state), p.rest)
    case _ => Declined(s, b)
  }

  lemma TrianglePose(s: TrianglePrimitive, v: Pose)
    ensures Takes(TriangleField, s, BytesField(1, EncPose(v)), s.(pose := v))
  {
    PoseRead(1, s.pose, v);
  }

  lemma TrianglePoints(s: TrianglePrimitive)
    ensures HoldsList(TriangleField, (list: seq<Point3>) => s.(points := list), 2, Vector3Field, BLANK_VECTOR)
  {
  }

  lemma TriangleColor(s: TrianglePrimitive, v: ColorRGBA)
    ensures Takes(TriangleField, s, BytesField(3, EncColor(v)), s.(color := v))
  {
    ColorRead(3, v);
  }

  lemma TriangleColors(s: TrianglePrimitive)
    ensures HoldsColors(TriangleField, (list: seq<ColorRGBA>) => s.(colors := list), 4)
  {
  }

  lemma TriangleIndices(s: TrianglePrimitive)
    requires s.indices == []
    ensures HoldsIndices(TriangleField, s, (list: seq<uint32>) => s.(indices := list), 5)
  {
    forall payload: Bytes | |payload| % 4 == 0 && |payload| <= UINT64_MAX
      ensures Takes(TriangleField, s, BytesField(5, payload), s.(indices := DecWords32(payload)))
    {
      Packed32Read(5, s.indices, payload);
      assert [] + DecWords32(payload) == DecWords32(payload);
    }
  }

  function EncTriangle(x: TrianglePrimitive): Bytes {
    EncField(BytesField(1, EncPose(x.pose))) + (EncElements(2, EncVector3, x.points) +
    (EncField(BytesField(3, EncColor(x.color))) + (EncElements(4, EncColor, x.colors) + EncPacked32(5, x.indices))))
  }

  lemma TriangleBack(x: TrianglePrimitive)
    requires |EncTriangle(x)| <= UINT64_MAX
    ensures ParseFields(TriangleField, BLANK_TRIANGLE, EncTriangle(x)) == Parsed(true, x)
  {
    var indices := EncPacked32(5, x.indices);
    var colors := EncElements(4, EncColor, x.colors) + indices;
    var color := EncField(BytesField(3, EncColor(x.color))) + colors;
    var s1 := BLANK_TRIANGLE.(pose := x.pose);
    var s2 := s1.(points := x.points);
    var s3 := s2.(color := x.color);
    var s4 := s3.(colors := x.colors);
    TrianglePose(BLANK_TRIANGLE, x.pose);
    TakeOne(TriangleField, BLANK_TRIANGLE, BytesField(1, EncPose(x.pose)), s1, EncElements(2, EncVector3, x.points) + color);
    TrianglePoints(s1);
    PointsBack(TriangleField, (list: seq<Point3>) => s1.(points := list), 2, x.points, color);
    TriangleColor(s2, x.color);
    TakeOne(TriangleField, s2, BytesField(3, EncColor(x.color)), s3, colors);
    TriangleColors(s3);
    ColorsBack(TriangleField, (list: seq<ColorRGBA>) => s3.(colors := list), 4, x.colors, indices);
    TriangleIndices(s4);
    IndicesFinish(TriangleField, s4, (list: seq<uint32>) => s4.(indices := list), 5, x.indices);
  }

  // ---------- model ----------

  function ModelField(s: ModelPrimitive, tag: Tag, b: Bytes): (r: Step<ModelPrimitive>)
    ensures |r.rest| <= |b|
  {
    match tag.field
    case 1 => var p := OnMessage(tag, PoseField, s.pose, b); Step(p.handled, s.(pose := p.state), p.rest)
    case 2 => var p := OnMessage(tag, Vector3Field, s.scale, b); Step(p.handled, s.(scale := p.state), p.rest)
    case 3 => var p := OnColor(tag, s.color, b); Step(p.handled, s.(color := p.state), p.rest)
    case 4 => var p := OnFlag(tag, s.overrideColor, b); Step(p.handled, s.(overrideColor := p.state), p.rest)
    case 5 => var p := OnString(tag, s.url, b); Step(p.handled, s.(url := p.state), p.rest)
    case 6 => var p := OnString(tag, s.mediaType, b); Step(p.handled, s.(mediaType := p.state), p.rest)
    case 7 => var p := OnString(tag, s.data, b); Step(p.handled, s.(data := p.state), p.rest)
    case _ => Declined(s, b)
  }

  lemma ModelPose(s: ModelPrimitive, v: Pose)
    ensures Takes(ModelField, s, BytesField(1, EncPose(v)), s.(pose := v))
  {
    PoseRead(1, s.pose, v);
  }

  lemma ModelScale(s: ModelPrimitive, v: Vector3)
    ensures Takes(ModelField, s, BytesField(2, EncVector3(v)), s.(scale := v))
  {
    Vector3Read(2, s.scale, v);
  }

  lemma ModelColor(s: ModelPrimitive, v: ColorRGBA)
    ensures Takes(ModelField, s, BytesField(3, EncColor(v)), s.(color := v))
  {
    ColorRead(3, v);
  }

  lemma ModelOverrideColor(s: ModelPrimitive, v: bool)
    ensures Takes(ModelField, s, FlagField(4, v), s.(overrideColor := v))
  {
    FlagRead(4, v);
  }

  lemma ModelUrl(s: ModelPrimitive, v: Bytes)
    requires |v| <= UINT64_MAX
    ensures Takes(ModelField, s, BytesField(5, v), s.(url := v))
  {
    StringRead(5, v);
  }

  lemma ModelMediaType(s: ModelPrimitive, v: Bytes)
    requires |v| <= UINT64_MAX
    ensures Takes(ModelField, s, BytesField(6, v), s.(mediaType := v))
  {
    StringRead(6, v);
  }

  lemma ModelData(s: ModelPrimitive, v: Bytes)
    requires |v| <= UINT64_MAX
    ensures Takes(ModelField, s, BytesField(7, v), s.(data := v))
  {
    StringRead(7, v);
  }

  /** Inline bytes are written only when there are any. */
  function EncModelData(data: Bytes): Bytes {
    if |data| == 0 then [] else EncField(BytesField(7, data))
  }

  function EncModel(m: ModelPrimitive): Bytes {
    EncField(BytesField(1, EncPose(m.pose))) + (EncField(BytesField(2, EncVector3(m.scale))) +
    (EncField(BytesField(3, EncColor(m.color))) + (EncField(FlagField(4, m.overrideColor)) +
    (EncField(BytesField(5, m.url)) + (EncField(BytesField(6, m.mediaType)) + EncModelData(m.data))))))
  }

  lemma ModelBack(m: ModelPrimitive)
    requires |EncModel(m)| <= UINT64_MAX
    ensures ParseFields(ModelField, BLANK_MODEL, EncModel(m)) == Parsed(true, m)
  {
    var f1, f2, f3 := BytesField(1, EncPose(m.pose)), BytesField(2, EncVector3(m.scale)), BytesField(3, EncColor(m.color));
    var f4, f5, f6 := FlagField(4, m.overrideColor), BytesField(5, m.url), BytesField(6, m.mediaType);
    var s1 := BLANK_MODEL.(pose := m.pose);
    var s2 := s1.(scale := m.scale);
    var s3 := s2.(color := m.color);
    var s4 := s3.(overrideColor := m.overrideColor);
    var s5 := s4.(url := m.url);
    var s6 := s5.(mediaType := m.mediaType);
    ModelPose(BLANK_MODEL, m.pose);
    ModelScale(s1, m.scale);
    ModelColor(s2, m.color);
    ModelOverrideColor(s3, m.overrideColor);
    ModelUrl(s4, m.url);
    ModelMediaType(s5, m.mediaType);
    TakeThree(ModelField, BLANK_MODEL, f1, s1, f2, s2, f3, s3,
      EncField(f4) + (EncField(f5) + (EncField(f6) + EncModelData(m.data))));
    TakeThree(ModelField, s3, f4, s4, f5, s5, f6, s6, EncModelData(m.data));
    if |m.data| > 0 {
      ModelData(s6, m.data);
      FinishOne(ModelField, s6, BytesField(7, m.data), m);
    }
  }
}
