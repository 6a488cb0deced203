/** The four-stage handoff capture -> serialise -> analyse -> place, as a pure state machine.
    Each stage's `Update` and each asynchronous completion is one transition:
    `ImageCapture.Update` and its camera callbacks (Scripts/ImageCapture.cs),
    `ImageSerializer.Update` and the resumed `SerializeRequest` (Scripts/ImageSerializer.cs),
    `ImageAnalyser.Update` and the response branch of `AnalyseLastImageCaptured`
    (Scripts/ImageAnalyser.cs), `SceneOrganizer.Update` and the resumed `FinaliseLabel`
    (Scripts/SceneOrganizer.cs). The `Stopwatch`es become one millisecond clock. */
module Handoff {
  import opened Common
  import opened Linear
  import opened Records
  import opened Projection
  import opened Serializer
  import opened Scene

  /** Where the camera object is in its life: being created, idle, or waiting for one of the
      three photo callbacks; `Disposed` after focus loss (the field is then null). */
  datatype CameraPhase = Creating | Ready | StartingPhotoMode | TakingPhoto | StoppingPhotoMode | Disposed

  datatype PipelineState = PipelineState(
    // ImageCapture
    camera: CameraPhase,
    captureIsActive: bool,
    photoFrameBuffer: seq<Frame>,
    photoFrameBufferEmpty: bool,
    photoFrameBufferRefill: bool,
    // ImageSerializer: the frame a started `SerializeRequest` coroutine holds
    serializing: Option<Frame>,
    rawRequestBuffer: seq<RequestBufferElem>,
    rawRequestBufferEmpty: bool,
    rawRequestBufferRefill: bool,
    // ImageAnalyser: the element of the request in flight, its stopwatch start and timestamp
    analysing: Option<RequestBufferElem>,
    outputsBuffer: seq<Outputs>,
    outputsBufferEmpty: bool,
    outputsBufferRefill: bool,
    analyserStart: int,
    timestamp: int,
    // SceneOrganizer: results whose `FinaliseLabel` coroutine has started, and the registry
    placing: seq<Outputs>,
    registry: Registry,
    // the clock, and frame accounting
    now: int,
    framesCaptured: nat,
    framesDisposed: nat)

  /** All field initialisers: buffers empty, every stage asking for input, the capture loop
      marked active until the camera exists. */
  const Initial := PipelineState(Creating, true, [], true, true,
                                 None, [], true, true,
                                 None, [], true, true, 0, 0,
                                 [], EmptyRegistry, 0, 0, 0)

  /** The camera hands out projections the unprojection can divide by. */
  predicate UsableFrame(f: Frame) { f.projection.Some? ==> UsableProjection(f.projection.value) }

  predicate UsableElem(e: RequestBufferElem) { e.hasWorldData ==> UsableProjection(e.projection) }

  // ---------------------------------------------------------------------------------------
  // ImageCapture

  /** `Update`: start a capture when a frame is wanted and none is being taken. `TakePhoto`
      asks the camera to enter photo mode; with the camera disposed it throws after the
      flags have been set. */
  function CaptureUpdate(s: PipelineState): (r: PipelineState)
    ensures r != s <==> s.photoFrameBufferRefill && !s.captureIsActive
    ensures r != s ==> && !r.photoFrameBufferRefill && r.captureIsActive
                       && (s.camera == Ready ==> r.camera == StartingPhotoMode)
    ensures r.photoFrameBuffer == s.photoFrameBuffer
  {
    if s.photoFrameBufferRefill && !s.captureIsActive then
      s.(photoFrameBufferRefill := false, captureIsActive := true,
         camera := if s.camera == Ready then StartingPhotoMode else s.camera)
    else s
  }

  /** The `CreateAsync` callback. */
  function OnCameraCreated(s: PipelineState): (r: PipelineState)
    requires s.camera == Creating
    ensures r.camera == Ready && !r.captureIsActive
    ensures r.photoFrameBufferRefill ==> CaptureUpdate(r).camera == StartingPhotoMode
  {
    s.(camera := Ready, captureIsActive := false)
  }

  /** The `StartPhotoModeAsync` callback: take the photo. */
  function OnPhotoModeStarted(s: PipelineState): (r: PipelineState)
    requires s.camera == StartingPhotoMode
    ensures forall f :: UsableFrame(f) ==> Enabled(r, PhotoCaptured(f))
    ensures r.photoFrameBuffer == s.photoFrameBuffer && r.captureIsActive == s.captureIsActive
  {
    s.(camera := TakingPhoto)
  }

  /** `OnCapturedPhotoToMemory`: enqueue the frame and leave photo mode. */
  function OnCapturedPhotoToMemory(s: PipelineState, f: Frame): (r: PipelineState)
    requires s.camera == TakingPhoto
    ensures r.photoFrameBuffer == s.photoFrameBuffer + [f] && !r.photoFrameBufferEmpty
    ensures r.framesCaptured == s.framesCaptured + 1 && Enabled(r, PhotoModeStopped)
  {
    s.(photoFrameBuffer := s.photoFrameBuffer + [f], photoFrameBufferEmpty := false,
       camera := StoppingPhotoMode, framesCaptured := s.framesCaptured + 1)
  }

  /** The `StopPhotoModeAsync` callback: the capture loop may run again. */
  function OnPhotoModeStopped(s: PipelineState): (r: PipelineState)
    requires s.camera == StoppingPhotoMode
    ensures r.camera == Ready && !r.captureIsActive
    ensures r.photoFrameBufferRefill ==> CaptureUpdate(r).camera == StartingPhotoMode
  {
    s.(camera := Ready, captureIsActive := false)
  }

  /** `OnApplicationFocus(false)`: dispose the camera and clear the active flag. Without a
      camera object the first statement throws and nothing changes. */
  function OnFocusLost(s: PipelineState): (r: PipelineState)
    ensures s.camera != Creating ==> r.camera == Disposed
    ensures s.camera != Creating && s.camera != Disposed ==> !r.captureIsActive
    ensures r.camera == Disposed ==> forall e: Event :: e.PhotoModeStarted? || e.PhotoCaptured? || e.PhotoModeStopped? ==> !Enabled(r, e)
    ensures r.photoFrameBuffer == s.photoFrameBuffer && r.rawRequestBuffer == s.rawRequestBuffer
  {
    if s.camera == Creating || s.camera == Disposed then s
    else s.(camera := Disposed, captureIsActive := false)
  }

  // ---------------------------------------------------------------------------------------
  // ImageSerializer

  /** `Update`: take the frame and re-arm capture. `Dequeue` on an empty queue throws before
      any flag changes. */
  function SerializerUpdate(s: PipelineState): (r: PipelineState)
    ensures r != s <==> s.rawRequestBufferRefill && !s.photoFrameBufferEmpty && s.photoFrameBuffer != []
    ensures r != s ==> && r.serializing.Some? && [r.serializing.value] + r.photoFrameBuffer == s.photoFrameBuffer
                       && r.photoFrameBufferRefill && !r.rawRequestBufferRefill
  {
    if s.rawRequestBufferRefill && !s.photoFrameBufferEmpty && s.photoFrameBuffer != [] then
      s.(photoFrameBuffer := s.photoFrameBuffer[1..], photoFrameBufferRefill := true,
         photoFrameBufferEmpty := true, rawRequestBufferRefill := false,
         serializing := Some(s.photoFrameBuffer[0]))
    else s
  }

  /** `SerializeRequest` after its one-frame deferral: build the element, dispose the frame,
      enqueue. */
  function ResumeSerializeRequest(s: PipelineState): (r: PipelineState)
    requires s.serializing.Some?
    ensures r.rawRequestBuffer == s.rawRequestBuffer + [SerializeRequest(s.serializing.value)]
    ensures !r.rawRequestBufferEmpty && r.serializing.None? && r.framesDisposed == s.framesDisposed + 1
  {
    s.(rawRequestBuffer := s.rawRequestBuffer + [SerializeRequest(s.serializing.value)],
       rawRequestBufferEmpty := false, serializing := None,
       framesDisposed := s.framesDisposed + 1)
  }

  // ---------------------------------------------------------------------------------------
  // ImageAnalyser

  /** More than 200 ms since the last recorded timestamp, measured on the analyser's
      stopwatch. */
  predicate RestOver(s: PipelineState) { (s.now - s.analyserStart) - s.timestamp > 200 }

  predicate AnalyserGateOpen(s: PipelineState) {
    s.outputsBufferRefill && !s.rawRequestBufferEmpty && RestOver(s)
  }

  /** `Update`: restart the stopwatch, take a request, re-arm the serializer, send. */
  function AnalyserUpdate(s: PipelineState): (r: PipelineState)
    ensures r != s ==> AnalyserGateOpen(s) && r.analyserStart == s.now
    ensures AnalyserGateOpen(s) && s.rawRequestBuffer != [] ==>
              && r.analysing == Some(s.rawRequestBuffer[0]) && r.rawRequestBuffer == s.rawRequestBuffer[1..]
              && !r.outputsBufferRefill && r.rawRequestBufferRefill
  {
    if !AnalyserGateOpen(s) then s
    else if s.rawRequestBuffer == [] then s.(analyserStart := s.now)
    else
      s.(analyserStart := s.now, rawRequestBuffer := s.rawRequestBuffer[1..],
         rawRequestBufferRefill := true, rawRequestBufferEmpty := true,
         outputsBufferRefill := false, analysing := Some(s.rawRequestBuffer[0]))
  }

  /** A successful response with the pose of the request it answers. */
  function WithWorldData(o: Outputs, e: RequestBufferElem): (r: Outputs)
    ensures r.detections == o.detections && r.hasWorldData == e.hasWorldData
    ensures e.hasWorldData ==> r.cameraToWorld == e.cameraToWorld && r.projection == e.projection
  {
    if e.hasWorldData then o.(hasWorldData := true, cameraToWorld := e.cameraToWorld, projection := e.projection)
    else o.(hasWorldData := false)
  }

  /** The success branch: enqueue, record the run time. */
  function OnResponseSucceeded(s: PipelineState, o: Outputs): (r: PipelineState)
    requires s.analysing.Some?
    ensures r.outputsBuffer == s.outputsBuffer + [WithWorldData(o, s.analysing.value)]
    ensures !r.outputsBufferEmpty && r.analysing.None? && r.outputsBufferRefill == s.outputsBufferRefill
  {
    s.(outputsBuffer := s.outputsBuffer + [WithWorldData(o, s.analysing.value)],
       outputsBufferEmpty := false, timestamp := s.now - s.analyserStart, analysing := None)
  }

  /** The failure branch as written: hibernate for 1800 ms more than the usual rest, with
      `outputsBufferRefill` left false. */
  function OnResponseFailedAsWritten(s: PipelineState): (r: PipelineState)
    requires s.analysing.Some?
    ensures r.analysing.None? && r.outputsBuffer == s.outputsBuffer
    ensures r.outputsBufferRefill == s.outputsBufferRefill
    ensures forall ms: nat :: RestOver(AdvanceClock(r, ms)) <==> ms > 2000
  {
    s.(timestamp := s.now - s.analyserStart + 1800, analysing := None)
  }

  /** The failure branch as its comment intends ("hibernate the detection for 2 sec"): the
      same timestamp, and the analyser asks for input again. */
  function OnResponseFailed(s: PipelineState): (r: PipelineState)
    requires s.analysing.Some?
    ensures r.analysing.None? && r.outputsBuffer == s.outputsBuffer && r.outputsBufferRefill
    ensures forall ms: nat :: RestOver(AdvanceClock(r, ms)) <==> ms > 2000
  {
    s.(timestamp := s.now - s.analyserStart + 1800, analysing := None, outputsBufferRefill := true)
  }

  /** The reply handler's branch on whether the service sent outputs back. */
  function OnResponse(s: PipelineState, response: Option<Outputs>): (r: PipelineState)
    requires s.analysing.Some?
    ensures r.analysing.None?
    ensures response.Some? <==> |r.outputsBuffer| == |s.outputsBuffer| + 1
    ensures response.None? ==> r.outputsBuffer == s.outputsBuffer && r.outputsBufferRefill
  {
    match response
    case Some(o) => OnResponseSucceeded(s, o)
    case None => OnResponseFailed(s)
  }

  // ---------------------------------------------------------------------------------------
  // SceneOrganizer

  /** `Update`: take the result, re-arm the analyser, start placement. */
  function SceneUpdate(s: PipelineState): (r: PipelineState)
    ensures r.placing + r.outputsBuffer == s.placing + s.outputsBuffer
    ensures r != s <==> !s.outputsBufferEmpty && s.outputsBuffer != []
    ensures r != s ==> r.outputsBufferRefill && r.outputsBufferEmpty
  {
    if !s.outputsBufferEmpty && s.outputsBuffer != [] then
      s.(outputsBuffer := s.outputsBuffer[1..], outputsBufferEmpty := true,
         outputsBufferRefill := true, placing := s.placing + [s.outputsBuffer[0]])
    else s
  }

  /** `FinaliseLabel` after its one-frame deferral, oldest first. */
  function ResumeFinaliseLabel(s: PipelineState, w: World): (r: PipelineState)
    requires s.placing != [] && s.registry.Valid() && Placeable(s.placing[0])
    ensures r.placing == s.placing[1..] && r.registry.Valid()
    ensures r.outputsBuffer == s.outputsBuffer && r.outputsBufferRefill == s.outputsBufferRefill
  {
    s.(registry := FinaliseLabel(s.registry, s.placing[0], w), placing := s.placing[1..])
  }

  function AdvanceClock(s: PipelineState, ms: nat): PipelineState {
    s.(now := s.now + ms)
  }

  // ---------------------------------------------------------------------------------------
  // Events

  datatype Event =
    | Elapse(ms: nat)
    | CaptureTick | SerializerTick | AnalyserTick | SceneTick
    | CameraCreated | PhotoModeStarted | PhotoCaptured(frame: Frame) | PhotoModeStopped
    | FocusLost
    | SerializeResumed
    | Response(response: Option<Outputs>)
    | PlacementResumed(world: World)

  /** Whether an asynchronous completion is pending (an `Update` can always run). */
  predicate Enabled(s: PipelineState, e: Event) {
    match e
    case CameraCreated => s.camera == Creating
    case PhotoModeStarted => s.camera == StartingPhotoMode
    case PhotoCaptured(f) => s.camera == TakingPhoto && UsableFrame(f)
    case PhotoModeStopped => s.camera == StoppingPhotoMode
    case SerializeResumed => s.serializing.Some?
    case Response(_) => s.analysing.Some?
    case PlacementResumed(_) => s.placing != [] && s.registry.Valid() && Placeable(s.placing[0])
    case _ => true
  }

  /** One event; an event that is not pending changes nothing. */
  function Step(s: PipelineState, e: Event): (r: PipelineState)
    ensures !Enabled(s, e) ==> r == s
  {
    if !Enabled(s, e) then s
    else match e
      case Elapse(ms) => AdvanceClock(s, ms)
      case CaptureTick => CaptureUpdate(s)
      case SerializerTick => SerializerUpdate(s)
      case AnalyserTick => AnalyserUpdate(s)
      case SceneTick => SceneUpdate(s)
      case CameraCreated => OnCameraCreated(s)
      case PhotoModeStarted => OnPhotoModeStarted(s)
      case PhotoCaptured(f) => OnCapturedPhotoToMemory(s, f)
      case PhotoModeStopped => OnPhotoModeStopped(s)
      case FocusLost => OnFocusLost(s)
      case SerializeResumed => ResumeSerializeRequest(s)
      case Response(r) => OnResponse(s, r)
      case PlacementResumed(w) => ResumeFinaliseLabel(s, w)
  }

  /** The same, with the failure branch as written. */
  function StepAsWritten(s: PipelineState, e: Event): (r: PipelineState)
    ensures !(Enabled(s, e) && e == Response(None)) ==> r == Step(s, e)
    ensures Enabled(s, e) && e == Response(None) ==>
              r == Step(s, e).(outputsBufferRefill := s.outputsBufferRefill)
  {
    if Enabled(s, e) && e == Response(None) then OnResponseFailedAsWritten(s) else Step(s, e)
  }

  function Run(s: PipelineState, es: seq<Event>): PipelineState
    decreases |es|
  {
    if es == [] then s else Run(Step(s, es[0]), es[1..])
  }

  function RunAsWritten(s: PipelineState, es: seq<Event>): PipelineState
    decreases |es|
  {
    if es == [] then s else RunAsWritten(StepAsWritten(s, es[0]), es[1..])
  }

  // ---------------------------------------------------------------------------------------
  // The invariant

  function Count(b: bool): nat { if b then 1 else 0 }

  predicate InPhotoMode(c: CameraPhase) { c == StartingPhotoMode || c == TakingPhoto }

  /** Who holds the right to produce the next frame: capture (refill), the camera (a photo
      under way), or the buffer (a frame waiting). */
  function PhotoTokens(s: PipelineState): nat {
    Count(s.photoFrameBufferRefill) + Count(InPhotoMode(s.camera)) + |s.photoFrameBuffer|
  }

  /** Who holds the right to the next request: the serializer (refill), its coroutine, or
      the buffer. */
  function RequestTokens(s: PipelineState): nat {
    Count(s.rawRequestBufferRefill) + Count(s.serializing.Some?) + |s.rawRequestBuffer|
  }

  /** Who holds the right to the next result: the analyser (refill), its request in flight,
      or the buffer. */
  function OutputTokens(s: PipelineState): nat {
    Count(s.outputsBufferRefill) + Count(s.analysing.Some?) + |s.outputsBuffer|
  }

  predicate CaptureInv(s: PipelineState) {
    && (s.photoFrameBufferEmpty <==> s.photoFrameBuffer == [])
    && PhotoTokens(s) <= 1
    && (s.camera != Disposed ==> PhotoTokens(s) == 1)
    && (!s.captureIsActive ==> s.camera == Ready || s.camera == Disposed)
    && (s.camera != Ready && s.camera != Disposed ==> s.captureIsActive)
  }

  /** The request queue: one token, an exact `Empty` flag. The result queue: an exact `Empty`
      flag and at most one token; the program as written can lose that token (see
      `AsWrittenFailureStalls`), so exactly one is only promised by `Inv`. */
  predicate HandoffInv(s: PipelineState) {
    && (s.rawRequestBufferEmpty <==> s.rawRequestBuffer == [])
    && RequestTokens(s) == 1
    && (s.outputsBufferEmpty <==> s.outputsBuffer == [])
    && OutputTokens(s) <= 1
  }

  predicate DataInv(s: PipelineState) {
    && (forall i :: 0 <= i < |s.photoFrameBuffer| ==> UsableFrame(s.photoFrameBuffer[i]))
    && (s.serializing.Some? ==> UsableFrame(s.serializing.value))
    && (forall i :: 0 <= i < |s.rawRequestBuffer| ==> UsableElem(s.rawRequestBuffer[i]))
    && (s.analysing.Some? ==> UsableElem(s.analysing.value))
    && (forall i :: 0 <= i < |s.outputsBuffer| ==> Placeable(s.outputsBuffer[i]))
    && (forall i :: 0 <= i < |s.placing| ==> Placeable(s.placing[i]))
    && s.registry.Valid() && Consistent(s.registry)
    && s.framesCaptured == s.framesDisposed + |s.photoFrameBuffer| + Count(s.serializing.Some?)
    && s.analyserStart <= s.now
  }

  /** What every state of the program as written satisfies. */
  predicate InvAsWritten(s: PipelineState) { CaptureInv(s) && HandoffInv(s) && DataInv(s) }

  /** ... and, with the corrected failure branch, the analyser's token is never lost. */
  predicate Inv(s: PipelineState) { InvAsWritten(s) && OutputTokens(s) == 1 }

  lemma InitialInv()
    ensures Inv(Initial)
  {
  }

  /** What the invariant promises, already for the program as written: no queue holds more
      than one item, each `Empty` flag is exact, a `Refill` flag is only up with the queue
      empty and nothing under way, and every frame taken out of the camera is either
      waiting, being serialised or disposed. */
  lemma InvMeaning(s: PipelineState)
    requires InvAsWritten(s)
    ensures |s.photoFrameBuffer| <= 1 && |s.rawRequestBuffer| <= 1 && |s.outputsBuffer| <= 1
    ensures s.photoFrameBufferEmpty <==> s.photoFrameBuffer == []
    ensures s.rawRequestBufferEmpty <==> s.rawRequestBuffer == []
    ensures s.outputsBufferEmpty <==> s.outputsBuffer == []
    ensures s.photoFrameBufferRefill ==> s.photoFrameBuffer == [] && !InPhotoMode(s.camera)
    ensures s.rawRequestBufferRefill ==> s.rawRequestBuffer == [] && s.serializing.None?
    ensures s.outputsBufferRefill ==> s.outputsBuffer == [] && s.analysing.None?
    ensures s.framesCaptured == s.framesDisposed + |s.photoFrameBuffer| + Count(s.serializing.Some?)
    ensures |s.registry.boxes| == |s.registry.labels|
  {
  }

  // Each transition of the corrected machine keeps `InvAsWritten` and the number of result
  // tokens, and so keeps `Inv`.

  lemma CaptureStepsKeepInv(s: PipelineState, e: Event)
    requires InvAsWritten(s) && Enabled(s, e)
    requires e.CaptureTick? || e.CameraCreated? || e.PhotoModeStarted? || e.PhotoCaptured? ||
             e.PhotoModeStopped? || e.FocusLost? || e.Elapse?
    ensures InvAsWritten(Step(s, e)) && OutputTokens(Step(s, e)) == OutputTokens(s)
  {
    match e
    case CaptureTick => CaptureUpdateKeepsInv(s);
    case CameraCreated => OnCameraCreatedKeepsInv(s);
    case PhotoModeStarted => OnPhotoModeStartedKeepsInv(s);
    case PhotoCaptured(f) => OnCapturedKeepsInv(s, f);
    case PhotoModeStopped => OnPhotoModeStoppedKeepsInv(s);
    case FocusLost => OnFocusLostKeepsInv(s);
    case Elapse(ms) => AdvanceClockKeepsInv(s, ms);
  }

  lemma CaptureUpdateKeepsInv(s: PipelineState)
    requires InvAsWritten(s)
    ensures InvAsWritten(CaptureUpdate(s)) && OutputTokens(CaptureUpdate(s)) == OutputTokens(s)
  {
  }

  lemma OnCameraCreatedKeepsInv(s: PipelineState)
    requires InvAsWritten(s) && s.camera == Creating
    ensures InvAsWritten(OnCameraCreated(s)) && OutputTokens(OnCameraCreated(s)) == OutputTokens(s)
  {
  }

  lemma OnPhotoModeStartedKeepsInv(s: PipelineState)
    requires InvAsWritten(s) && s.camera == StartingPhotoMode
    ensures InvAsWritten(OnPhotoModeStarted(s)) && OutputTokens(OnPhotoModeStarted(s)) == OutputTokens(s)
  {
  }

  lemma OnPhotoModeStoppedKeepsInv(s: PipelineState)
    requires InvAsWritten(s) && s.camera == StoppingPhotoMode
    ensures InvAsWritten(OnPhotoModeStopped(s)) && OutputTokens(OnPhotoModeStopped(s)) == OutputTokens(s)
  {
  }

  lemma OnFocusLostKeepsInv(s: PipelineState)
    requires InvAsWritten(s)
    ensures InvAsWritten(OnFocusLost(s)) && OutputTokens(OnFocusLost(s)) == OutputTokens(s)
  {
  }

  lemma AdvanceClockKeepsInv(s: PipelineState, ms: nat)
    requires InvAsWritten(s)
    ensures InvAsWritten(AdvanceClock(s, ms)) && OutputTokens(AdvanceClock(s, ms)) == OutputTokens(s)
  {
  }

  lemma OnCapturedKeepsInv(s: PipelineState, f: Frame)
    requires InvAsWritten(s) && s.camera == TakingPhoto && UsableFrame(f)
    ensures InvAsWritten(OnCapturedPhotoToMemory(s, f))
    ensures OutputTokens(OnCapturedPhotoToMemory(s, f)) == OutputTokens(s)
  {
    assert OnCapturedPhotoToMemory(s, f).photoFrameBuffer == [f];
  }

  lemma SerializerStepsKeepInv(s: PipelineState, e: Event)
    requires InvAsWritten(s) && Enabled(s, e)
    requires e.SerializerTick? || e.SerializeResumed?
    ensures InvAsWritten(Step(s, e)) && OutputTokens(Step(s, e)) == OutputTokens(s)
  {
    if e.SerializerTick? {
      SerializerUpdateKeepsInv(s);
    } else {
      ResumeSerializeKeepsInv(s);
    }
  }

  lemma SerializerUpdateKeepsInv(s: PipelineState)
    requires InvAsWritten(s)
    ensures InvAsWritten(SerializerUpdate(s)) && OutputTokens(SerializerUpdate(s)) == OutputTokens(s)
  {
    var s' := SerializerUpdate(s);
    if s' != s {
      assert s.photoFrameBuffer == [s.photoFrameBuffer[0]];
      assert s'.photoFrameBuffer == [];
    }
  }

  lemma ResumeSerializeKeepsInv(s: PipelineState)
    requires InvAsWritten(s) && s.serializing.Some?
    ensures InvAsWritten(ResumeSerializeRequest(s))
    ensures OutputTokens(ResumeSerializeRequest(s)) == OutputTokens(s)
  {
    assert s.rawRequestBuffer == [];
    assert ResumeSerializeRequest(s).rawRequestBuffer == [SerializeRequest(s.serializing.value)];
  }

  lemma AnalyserStepsKeepInv(s: PipelineState, e: Event)
    requires InvAsWritten(s) && Enabled(s, e)
    requires e.AnalyserTick? || e.Response?
    ensures InvAsWritten(Step(s, e)) && OutputTokens(Step(s, e)) == OutputTokens(s)
  {
    if e.AnalyserTick? {
      AnalyserUpdateKeepsInv(s);
    } else {
      OnResponseKeepsInv(s, e.response);
    }
  }

  lemma AnalyserUpdateKeepsInv(s: PipelineState)
    requires InvAsWritten(s)
    ensures InvAsWritten(AnalyserUpdate(s)) && OutputTokens(AnalyserUpdate(s)) == OutputTokens(s)
  {
    if AnalyserGateOpen(s) && s.rawRequestBuffer != [] {
      var s' := AnalyserUpdate(s);
      assert s.rawRequestBuffer == [s.rawRequestBuffer[0]];
      assert s'.rawRequestBuffer == [];
    }
  }

  /** Either reply, with the corrected failure branch. */
  lemma OnResponseKeepsInv(s: PipelineState, response: Option<Outputs>)
    requires InvAsWritten(s) && s.analysing.Some?
    ensures InvAsWritten(OnResponse(s, response)) && OutputTokens(OnResponse(s, response)) == OutputTokens(s)
  {
    if response.Some? {
      var s' := OnResponse(s, response);
      assert s.outputsBuffer == [];
      assert s'.outputsBuffer == [WithWorldData(response.value, s.analysing.value)];
    }
  }

  /** The failure branch as written keeps `InvAsWritten` but gives up the analyser's token. */
  lemma OnResponseFailedAsWrittenKeepsInv(s: PipelineState)
    requires InvAsWritten(s) && s.analysing.Some?
    ensures InvAsWritten(OnResponseFailedAsWritten(s))
    ensures OutputTokens(OnResponseFailedAsWritten(s)) == OutputTokens(s) - 1 == 0
  {
  }

  lemma SceneStepsKeepInv(s: PipelineState, e: Event)
    requires InvAsWritten(s) && Enabled(s, e)
    requires e.SceneTick? || e.PlacementResumed?
    ensures InvAsWritten(Step(s, e)) && OutputTokens(Step(s, e)) == OutputTokens(s)
  {
    if e.SceneTick? {
      SceneUpdateKeepsInv(s);
    } else {
      ResumeFinaliseKeepsInv(s, e.world);
    }
  }

  lemma SceneUpdateKeepsInv(s: PipelineState)
    requires InvAsWritten(s)
    ensures InvAsWritten(SceneUpdate(s)) && OutputTokens(SceneUpdate(s)) == OutputTokens(s)
  {
    var s' := SceneUpdate(s);
    if s' != s {
      assert s.outputsBuffer == [s.outputsBuffer[0]];
      assert s'.outputsBuffer == [];
      assert s'.placing == s.placing + [s.outputsBuffer[0]];
    }
  }

  lemma ResumeFinaliseKeepsInv(s: PipelineState, w: World)
    requires InvAsWritten(s) && s.placing != []
    ensures InvAsWritten(ResumeFinaliseLabel(s, w))
    ensures OutputTokens(ResumeFinaliseLabel(s, w)) == OutputTokens(s)
  {
    var s' := ResumeFinaliseLabel(s, w);
    FinaliseLabelKeeps(s.registry, s.placing[0], w);
    assert forall i :: 0 <= i < |s'.placing| ==> s'.placing[i] == s.placing[i + 1];
  }

  /** Every event of the corrected machine keeps `InvAsWritten` and the result tokens. */
  lemma StepKeepsTokens(s: PipelineState, e: Event)
    requires InvAsWritten(s)
    ensures InvAsWritten(Step(s, e)) && OutputTokens(Step(s, e)) == OutputTokens(s)
  {
    if Enabled(s, e) {
      match e
      case SerializerTick => SerializerStepsKeepInv(s, e);
      case SerializeResumed => SerializerStepsKeepInv(s, e);
      case AnalyserTick => AnalyserStepsKeepInv(s, e);
      case Response(_) => AnalyserStepsKeepInv(s, e);
      case SceneTick => SceneStepsKeepInv(s, e);
      case PlacementResumed(_) => SceneStepsKeepInv(s, e);
      case _ => CaptureStepsKeepInv(s, e);
    }
  }

  /** Every event of the corrected machine keeps the invariant. */
  lemma StepKeepsInv(s: PipelineState, e: Event)
    requires Inv(s)
    ensures Inv(Step(s, e))
  {
    StepKeepsTokens(s, e);
  }

  lemma {:induction false} RunKeepsInv(s: PipelineState, es: seq<Event>)
    requires Inv(s)
    ensures Inv(Run(s, es))
    decreases |es|
  {
    if es != [] {
      StepKeepsInv(s, es[0]);
      RunKeepsInv(Step(s, es[0]), es[1..]);
    }
  }

  /** Every state the corrected pipeline can reach satisfies the invariant. */
  lemma ReachableInv(es: seq<Event>)
    ensures Inv(Run(Initial, es))
  {
    InitialInv();
    RunKeepsInv(Initial, es);
  }

  /** Every event of the program as written keeps `InvAsWritten`, and never adds a result
      token: only the failed response takes one away. */
  lemma StepAsWrittenKeepsInv(s: PipelineState, e: Event)
    requires InvAsWritten(s)
    ensures InvAsWritten(StepAsWritten(s, e))
    ensures OutputTokens(StepAsWritten(s, e)) <= OutputTokens(s)
    ensures OutputTokens(StepAsWritten(s, e)) < OutputTokens(s) <==> Enabled(s, e) && e == Response(None)
  {
    if Enabled(s, e) && e == Response(None) {
      OnResponseFailedAsWrittenKeepsInv(s);
    } else {
      StepKeepsTokens(s, e);
    }
  }

  lemma {:induction false} RunAsWrittenKeepsInv(s: PipelineState, es: seq<Event>)
    requires InvAsWritten(s)
    ensures InvAsWritten(RunAsWritten(s, es))
    ensures OutputTokens(RunAsWritten(s, es)) <= OutputTokens(s)
    decreases |es|
  {
    if es != [] {
      StepAsWrittenKeepsInv(s, es[0]);
      RunAsWrittenKeepsInv(StepAsWritten(s, es[0]), es[1..]);
    }
  }

  /** Every state the program as written can reach keeps the queue invariant, and either
      satisfies the full invariant or is stalled. */
  lemma ReachableInvAsWritten(es: seq<Event>)
    ensures var s := RunAsWritten(Initial, es);
            InvAsWritten(s) && (Inv(s) <==> !Stalled(s))
  {
    InitialInv();
    RunAsWrittenKeepsInv(Initial, es);
  }

  // ---------------------------------------------------------------------------------------
  // The analyser's rest periods

  /** The analyser can never be starved for good: someone always holds its token. */
  predicate Stalled(s: PipelineState) {
    !s.outputsBufferRefill && s.analysing.None? && s.outputsBuffer == []
  }

  lemma NeverStalled(s: PipelineState)
    requires Inv(s)
    ensures !Stalled(s)
  {
  }

  /** After a failed response the analyser retries once more than 2000 ms have passed, as
      long as a request is waiting. */
  lemma RetryAfterFailure(s: PipelineState, ms: nat)
    requires s.analysing.Some?
    ensures AnalyserGateOpen(AdvanceClock(OnResponseFailed(s), ms)) <==>
            ms > 2000 && !s.rawRequestBufferEmpty
  {
  }

  /** After a successful response has been taken by the scene, the analyser starts again
      once more than 200 ms have passed since the response, as long as a request is waiting. */
  lemma RestAfterSuccess(s: PipelineState, o: Outputs, ms: nat)
    requires Inv(s) && s.analysing.Some?
    ensures var s' := SceneUpdate(OnResponseSucceeded(s, o));
            AnalyserGateOpen(AdvanceClock(s', ms)) <==> ms > 200 && !s.rawRequestBufferEmpty
  {
    var s1 := OnResponseSucceeded(s, o);
    assert s.outputsBuffer == [];
    assert s1.outputsBuffer == [WithWorldData(o, s.analysing.value)];
  }

  // ---------------------------------------------------------------------------------------
  // The stall as written

  /** As written, one failed response leaves nobody holding the analyser's token. */
  lemma AsWrittenFailureStalls(s: PipelineState)
    requires InvAsWritten(s) && s.analysing.Some?
    ensures Stalled(StepAsWritten(s, Response(None)))
  {
  }

  /** ... and a stalled pipeline stays stalled whatever happens next: no analysis starts and
      no result is ever placed again. */
  lemma AsWrittenStallIsPermanent(s: PipelineState, e: Event)
    requires Stalled(s)
    ensures Stalled(StepAsWritten(s, e))
  {
  }

  lemma {:induction false} AsWrittenStallForever(s: PipelineState, es: seq<Event>)
    requires Stalled(s)
    ensures Stalled(RunAsWritten(s, es))
    decreases |es|
  {
    if es != [] {
      AsWrittenStallIsPermanent(s, es[0]);
      AsWrittenStallForever(StepAsWritten(s, es[0]), es[1..]);
    }
  }

  lemma RunAsWrittenCons(s: PipelineState, e: Event, rest: seq<Event>)
    ensures RunAsWritten(s, [e] + rest) == RunAsWritten(StepAsWritten(s, e), rest)
  {
    assert ([e] + rest)[0] == e && ([e] + rest)[1..] == rest;
  }

  /** The first frame: camera created, photo taken, serialised, sent after the 200 ms rest,
      and the server fails. */
  function FirstFrameFails(f: Frame): seq<Event> {
    [CameraCreated] + ([CaptureTick] + ([PhotoModeStarted] + ([PhotoCaptured(f)] +
    ([SerializerTick] + ([SerializeResumed] + ([Elapse(201)] + ([AnalyserTick] + [Response(None)])))))))
  }

  /** The state once the first frame's request is waiting for the analyser: the camera has
      been created, one photo taken and serialised. */
  function FirstRequestQueued(f: Frame): PipelineState {
    var s2 := CaptureUpdate(OnCameraCreated(Initial));
    var s4 := OnCapturedPhotoToMemory(OnPhotoModeStarted(s2), f);
    ResumeSerializeRequest(SerializerUpdate(s4))
  }

  lemma FirstRequestQueuedState(f: Frame)
    ensures var s := FirstRequestQueued(f);
            && s.rawRequestBuffer != [] && !s.rawRequestBufferEmpty
            && s.outputsBufferRefill && s.outputsBuffer == [] && s.analysing.None?
            && s.now == 0 && s.analyserStart == 0 && s.timestamp == 0
  {
  }

  lemma FirstFailureStalls(s6: PipelineState)
    requires s6.rawRequestBuffer != [] && !s6.rawRequestBufferEmpty
    requires s6.outputsBufferRefill && s6.outputsBuffer == [] && s6.analysing.None?
    requires s6.now == 0 && s6.analyserStart == 0 && s6.timestamp == 0
    ensures Stalled(StepAsWritten(StepAsWritten(StepAsWritten(s6, Elapse(201)), AnalyserTick), Response(None)))
  {
    var s7 := StepAsWritten(s6, Elapse(201));
    assert s7 == s6.(now := 201);
    assert AnalyserGateOpen(s7);
    var s8 := StepAsWritten(s7, AnalyserTick);
    assert s8 == AnalyserUpdate(s7);
    assert s8.analysing.Some? && !s8.outputsBufferRefill && s8.outputsBuffer == [];
    assert StepAsWritten(s8, Response(None)) == OnResponseFailedAsWritten(s8);
  }

  // One step of the trace at a time, each with its transition named.

  lemma CameraCreatedStep(s: PipelineState)
    requires s.camera == Creating
    ensures StepAsWritten(s, CameraCreated) == OnCameraCreated(s)
  {
  }

  lemma CaptureTickStep(s: PipelineState)
    ensures StepAsWritten(s, CaptureTick) == CaptureUpdate(s)
  {
  }

  lemma PhotoModeStartedStep(s: PipelineState)
    requires s.camera == StartingPhotoMode
    ensures StepAsWritten(s, PhotoModeStarted) == OnPhotoModeStarted(s)
  {
  }

  lemma PhotoCapturedStep(s: PipelineState, f: Frame)
    requires s.camera == TakingPhoto && UsableFrame(f)
    ensures StepAsWritten(s, PhotoCaptured(f)) == OnCapturedPhotoToMemory(s, f)
  {
  }

  lemma SerializerTickStep(s: PipelineState)
    ensures StepAsWritten(s, SerializerTick) == SerializerUpdate(s)
  {
  }

  lemma SerializeResumedStep(s: PipelineState)
    requires s.serializing.Some?
    ensures StepAsWritten(s, SerializeResumed) == ResumeSerializeRequest(s)
  {
  }

  /** The last three events of the first frame: the rest, the analyser's start, the reply. */
  function FailedAnalysis(): seq<Event> {
    [Elapse(201)] + ([AnalyserTick] + [Response(None)])
  }

  lemma FirstRequestRun(f: Frame)
    requires UsableFrame(f)
    ensures RunAsWritten(Initial, FirstFrameFails(f)) == RunAsWritten(FirstRequestQueued(f), FailedAnalysis())
  {
    var t7 := FailedAnalysis();
    var t6 := [SerializeResumed] + t7;
    var t5 := [SerializerTick] + t6;
    var t4 := [PhotoCaptured(f)] + t5;
    var t3 := [PhotoModeStarted] + t4;
    var t2 := [CaptureTick] + t3;
    var t1 := [CameraCreated] + t2;
    assert t1 == FirstFrameFails(f);
    var s1 := OnCameraCreated(Initial);
    var s2 := CaptureUpdate(s1);
    var s3 := OnPhotoModeStarted(s2);
    var s4 := OnCapturedPhotoToMemory(s3, f);
    var s5 := SerializerUpdate(s4);
    var s6 := ResumeSerializeRequest(s5);
    assert s6 == FirstRequestQueued(f);
    CameraCreatedStep(Initial);
    CaptureTickStep(s1);
    PhotoModeStartedStep(s2);
    PhotoCapturedStep(s3, f);
    SerializerTickStep(s4);
    SerializeResumedStep(s5);
    RunAsWrittenCons(s5, SerializeResumed, t7);
    RunAsWrittenCons(s4, SerializerTick, t6);
    RunAsWrittenCons(s3, PhotoCaptured(f), t5);
    RunAsWrittenCons(s2, PhotoModeStarted, t4);
    RunAsWrittenCons(s1, CaptureTick, t3);
    RunAsWrittenCons(Initial, CameraCreated, t2);
  }

  lemma FailedAnalysisRun(s6: PipelineState)
    ensures RunAsWritten(s6, FailedAnalysis()) ==
            StepAsWritten(StepAsWritten(StepAsWritten(s6, Elapse(201)), AnalyserTick), Response(None))
  {
    var t9 := [Response(None)];
    var t8 := [AnalyserTick] + t9;
    var s7 := StepAsWritten(s6, Elapse(201));
    var s8 := StepAsWritten(s7, AnalyserTick);
    RunAsWrittenCons(s8, Response(None), []);
    assert t9 == [Response(None)] + [];
    RunAsWrittenCons(s7, AnalyserTick, t9);
    RunAsWrittenCons(s6, Elapse(201), t8);
  }

  lemma FirstFrameFailsRun(f: Frame)
    requires UsableFrame(f)
    ensures RunAsWritten(Initial, FirstFrameFails(f)) ==
            StepAsWritten(StepAsWritten(StepAsWritten(FirstRequestQueued(f), Elapse(201)), AnalyserTick), Response(None))
  {
    FirstRequestRun(f);
    FailedAnalysisRun(FirstRequestQueued(f));
  }

  /** As written, the first failure stalls the app for good: after it, whatever events
      follow, the analyser never starts again. */
  lemma AsWrittenStallFromStart(f: Frame, later: seq<Event>)
    requires UsableFrame(f)
    ensures Stalled(RunAsWritten(RunAsWritten(Initial, FirstFrameFails(f)), later))
  {
    FirstRequestQueuedState(f);
    FirstFailureStalls(FirstRequestQueued(f));
    FirstFrameFailsRun(f);
    AsWrittenStallForever(RunAsWritten(Initial, FirstFrameFails(f)), later);
  }
}
