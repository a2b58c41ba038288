/** The 3D scene values: nine kinds of primitives, the entities that hold them and the deletions. */
module SceneEntities {
  import opened Prelude
  import opened GeometryCodec

  const DOUBLE_ONE: uint64 := 1023 * TWO_TO_THE_52

  const ORIGIN := Pose(Vector3(0, 0, 0), Quaternion(0, 0, 0, DOUBLE_ONE))
  const BLACK := ColorRGBA(0, 0, 0, 255)

  datatype LineType = LineStrip | LineLoop | LineList

  datatype ArrowPrimitive = ArrowPrimitive(pose: Pose, shaftLength: uint64, shaftDiameter: uint64, headLength: uint64, headDiameter: uint64, color: ColorRGBA)
  datatype CubePrimitive = CubePrimitive(pose: Pose, size: Vector3, color: ColorRGBA)

  /** Same fields and same wire shape as a cube. */
  type SpherePrimitive = CubePrimitive

  datatype CylinderPrimitive = CylinderPrimitive(pose: Pose, size: Vector3, bottomScale: uint64, topScale: uint64, color: ColorRGBA)
  datatype LinePrimitive = LinePrimitive(kind: LineType, pose: Pose, thickness: uint64, scaleInvariant: bool, points: seq<Point3>, color: ColorRGBA, colors: seq<ColorRGBA>, indices: seq<uint32>)
  datatype TrianglePrimitive = TrianglePrimitive(pose: Pose, points: seq<Point3>, color: ColorRGBA, colors: seq<ColorRGBA>, indices: seq<uint32>)
  datatype TextPrimitive = TextPrimitive(pose: Pose, billboard: bool, fontSize: uint64, scaleInvariant: bool, color: ColorRGBA, text: Bytes)
  datatype AxesPrimitive = AxesPrimitive(pose: Pose, length: uint64, thickness: uint64, scaleInvariant: bool)
  datatype ModelPrimitive = ModelPrimitive(pose: Pose, scale: Vector3, color: ColorRGBA, overrideColor: bool, url: Bytes, mediaType: Bytes, data: Bytes)

  datatype KeyValuePair = KeyValuePair(key: Bytes, value: Bytes)

  datatype SceneEntity = SceneEntity(
    timestamp: int64,
    frameId: Bytes,
    id: Bytes,
    lifetime: int64,
    frameLocked: bool,
    metadata: seq<KeyValuePair>,
    arrows: seq<ArrowPrimitive>,
    cubes: seq<CubePrimitive>,
    spheres: seq<SpherePrimitive>,
    cylinders: seq<CylinderPrimitive>,
    lines: seq<LinePrimitive>,
    triangles: seq<TrianglePrimitive>,
    texts: seq<TextPrimitive>,
    models: seq<ModelPrimitive>,
    axes: seq<AxesPrimitive>)

  datatype DeletionType = MatchingId | All
  datatype SceneEntityDeletion = SceneEntityDeletion(kind: DeletionType, timestamp: int64, id: Bytes)

  datatype Scene = Scene(entities: seq<SceneEntity>, deletions: seq<SceneEntityDeletion>)

  // Default-constructed values, which a decoder starts from.
  const BLANK_VECTOR := Vector3(0, 0, 0)
  const BLANK_ARROW := ArrowPrimitive(ORIGIN, 0, 0, 0, 0, BLACK)
  const BLANK_CUBE := CubePrimitive(ORIGIN, BLANK_VECTOR, BLACK)
  const BLANK_CYLINDER := CylinderPrimitive(ORIGIN, BLANK_VECTOR, DOUBLE_ONE, DOUBLE_ONE, BLACK)
  const BLANK_LINE := LinePrimitive(LineStrip, ORIGIN, 0, false, [], BLACK, [], [])
  const BLANK_TRIANGLE := TrianglePrimitive(ORIGIN, [], BLACK, [], [])
  const BLANK_TEXT := TextPrimitive(ORIGIN, false, 0, false, BLACK, [])
  const BLANK_AXES := AxesPrimitive(ORIGIN, 0, 0, false)
  const BLANK_MODEL := ModelPrimitive(ORIGIN, BLANK_VECTOR, BLACK, false, [], [], [])
  const BLANK_PAIR := KeyValuePair([], [])
  const BLANK_ENTITY := SceneEntity(0, [], [], 0, false, [], [], [], [], [], [], [], [], [], [])
  const BLANK_DELETION := SceneEntityDeletion(MatchingId, 0, [])
  const BLANK_SCENE := Scene([], [])
}
