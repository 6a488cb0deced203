/** The record shapes the pipeline passes between its stages (Scripts/MiscObjects.cs and the
    request element of Scripts/ImageSerializer.cs). They carry data only. */
module Records {
  import opened Common
  import opened Linear

  /** One box of a detection response, in normalised image coordinates, in the response's
      own order: top, left, bottom, right. */
  datatype BoundingBox = BoundingBox(top: real, left: real, bottom: real, right: real)

  /** Row `i` of the three parallel response arrays `detection_scores`, `detection_classes`
      and `detection_boxes` (batch index 0). */
  datatype Detection = Detection(score: real, classId: real, box: BoundingBox)

  /** A parsed detection response together with the pose of the frame it was computed from. */
  datatype Outputs = Outputs(
    detections: seq<Detection>,
    hasWorldData: bool,
    cameraToWorld: Matrix4x4,
    projection: Matrix4x4)

  /** The wire request: a list of base64 image payloads. */
  datatype B64 = B64(b64: string)
  datatype DetectionRequest = DetectionRequest(inputs: seq<B64>)

  /** A catalog record. Every text field is a nullable C# string; `None` is a field the lookup
      never set. */
  datatype ProductDefinition = ProductDefinition(
    id: Option<string>,
    gtin: Option<string>,
    name: Option<string>,
    nutriScore: int,
    nutriLabel: Option<string>,
    calories: Option<string>,
    caloriesColor: Option<string>,
    sugar: Option<string>,
    sugarColor: Option<string>,
    fat: Option<string>,
    fatColor: Option<string>,
    protein: Option<string>,
    proteinColor: Option<string>,
    fiber: Option<string>,
    fiberColor: Option<string>)

  /** `new ProductDefinition()`: nothing set. */
  const Unset := ProductDefinition(None, None, None, 0, None, None, None, None, None,
                                   None, None, None, None, None, None)

  /** A serialised request waiting for the analyser, with the pose of its frame. */
  datatype RequestBufferElem = RequestBufferElem(
    rawRequest: seq<byte>,
    hasWorldData: bool,
    cameraToWorld: Matrix4x4,
    projection: Matrix4x4)

  /** A captured photo: the JPEG bytes and the two matrices the camera may or may not supply
      (`TryGetCameraToWorldMatrix`, `TryGetProjectionMatrix`). */
  datatype Frame = Frame(
    image: seq<byte>,
    cameraToWorld: Option<Matrix4x4>,
    projection: Option<Matrix4x4>)

  /** A display colour with components in [0, 1]. */
  datatype Color = Color(r: real, g: real, b: real, a: real)

  const White := Color(1.0, 1.0, 1.0, 1.0)
}
