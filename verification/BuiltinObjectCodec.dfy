/** The type-tagged dispatcher over all builtin objects. The scene codec is the one modelled here; every
    other codec is a parameter, so that what the dispatcher adds can be stated for all of them. */
module BuiltinObjectCodec {
  import opened Prelude
  import opened GeometryCodec
  import opened SceneEntities
  import opened SceneEntitiesCodec

  datatype ObjectType =
    | NoType | ImageType | PointCloudType | DepthImageType | ImageAnnotationsType | FrameTransformsType | OccupancyGridType
    | CompressedPointCloudType | Mesh3DType | VideoFrameType | SceneEntitiesType | RobotDescriptionType | CameraInfoType
    | OccupancyGridUpdateType | LogType | PosesInFrameType | VoxelGridType | PlotMarkersType | GridMapType
    | UnknownType(code: uint16)

  /** Types with a codec of their own that is not part of this model. */
  predicate IsForeign(kind: ObjectType) {
    !kind.NoType? && !kind.SceneEntitiesType? && !kind.UnknownType?
  }

  /** A value of a foreign type is named by a number. */
  datatype BuiltinObject = NoObject | SceneObject(scene: Scene) | ForeignObject(kind: ObjectType, value: nat)

  datatype Codecs = Codecs(
    blank: ObjectType -> nat,
    encode: (ObjectType, nat) -> Bytes,
    decode: (ObjectType, Bytes) -> Result<nat, string>)

  datatype DispatchError = NoneType | UnknownObjectType | SceneError(error: DecodeError) | ForeignError(message: string)

  predicate IsObject(item: BuiltinObject) {
    item.ForeignObject? ==> IsForeign(item.kind)
  }

  function TypeOf(item: BuiltinObject): ObjectType {
    match item
    case NoObject => NoType
    case SceneObject(_) => SceneEntitiesType
    case ForeignObject(kind, _) => kind
  }

  function SerializeBuiltinObject(codecs: Codecs, item: BuiltinObject): Result<Bytes, DispatchError> {
    match item
    case NoObject => Err(NoneType)
    case SceneObject(scene) => Ok(EncScene(scene))
    case ForeignObject(kind, value) => Ok(codecs.encode(kind, value))
  }

  /** An empty buffer is the encoding of a default value, whatever the codec itself makes of it. */
  function DeserializeBuiltinObject(codecs: Codecs, kind: ObjectType, data: Bytes): Result<BuiltinObject, DispatchError> {
    match kind
    case NoType => Err(NoneType)
    case UnknownType(_) => Err(UnknownObjectType)
    case SceneEntitiesType =>
      if |data| == 0 then Ok(SceneObject(BLANK_SCENE))
      else
        var decoded := DeserializeScene(data);
        if decoded.Ok? then Ok(SceneObject(decoded.value)) else Err(SceneError(decoded.error))
    case _ =>
      if |data| == 0 then Ok(ForeignObject(kind, codecs.blank(kind)))
      else
        var decoded := codecs.decode(kind, data);
        if decoded.Ok? then Ok(ForeignObject(kind, decoded.value)) else Err(ForeignError(decoded.error))
  }

  predicate RoundTrips(codecs: Codecs, item: BuiltinObject) {
    var wire := SerializeBuiltinObject(codecs, item);
    wire.Ok? && DeserializeBuiltinObject(codecs, TypeOf(item), wire.value) == Ok(item)
  }

  lemma SceneDispatched(codecs: Codecs, scene: Scene, wire: Bytes)
    requires if scene == BLANK_SCENE then wire == [] else DeserializeScene(wire) == Ok(scene)
    ensures DeserializeBuiltinObject(codecs, SceneEntitiesType, wire) == Ok(SceneObject(scene))
  {
  }

  lemma SceneSettled(scene: Scene, wire: Bytes)
    requires wire == EncScene(scene) && |wire| <= UINT64_MAX
    ensures if scene == BLANK_SCENE then wire == [] else DeserializeScene(wire) == Ok(scene)
  {
    SceneBack(scene);
  }

  lemma SceneSent(codecs: Codecs, scene: Scene, wire: Bytes)
    requires wire == EncScene(scene)
    ensures SerializeBuiltinObject(codecs, SceneObject(scene)) == Ok(wire)
  {
  }

  /** Every scene whose encoding a buffer can hold comes back from the dispatcher, the empty one included. */
  lemma SceneRoundTrips(codecs: Codecs, scene: Scene)
    requires |EncScene(scene)| <= UINT64_MAX
    ensures RoundTrips(codecs, SceneObject(scene))
  {
    var wire := EncScene(scene);
    SceneSettled(scene, wire);
    SceneSent(codecs, scene, wire);
    SceneDispatched(codecs, scene, wire);
  }

  /** For the other codecs the rule for empty buffers is sound exactly when only the default value encodes to
      nothing; beyond it their own inverse is needed and enough. */
  lemma ObjectRoundTrips(codecs: Codecs, item: BuiltinObject)
    requires IsObject(item) && (item.SceneObject? ==> |EncScene(item.scene)| <= UINT64_MAX)
    ensures RoundTrips(codecs, item) <==>
              match item
              case NoObject => false
              case SceneObject(_) => true
              case ForeignObject(kind, value) =>
                var wire := codecs.encode(kind, value);
                if wire == [] then value == codecs.blank(kind) else codecs.decode(kind, wire) == Ok(value)
  {
    if item.SceneObject? {
      SceneRoundTrips(codecs, item.scene);
    }
  }
}
