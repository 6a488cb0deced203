/** The four MonoBehaviours of the pipeline as objects whose fields their `Update` methods
    and callbacks change in place: `ImageCapture` (Scripts/ImageCapture.cs),
    `ImageSerializer` (Scripts/ImageSerializer.cs), `ImageAnalyser`
    (Scripts/ImageAnalyser.cs) and `SceneOrganizer` (Scripts/SceneOrganizer.cs). Each
    `Instance` singleton becomes a reference to the upstream object. `App` holds the four
    and the clock; each of its methods is one engine event and is proved to perform the
    matching transition of the corrected `Handoff` state machine (`Handoff.Step`), so the
    invariant holds of these objects, which re-arm the analyser after a failed reply; the
    program as written keeps only `Handoff.InvAsWritten`. */
module Components {
  import opened Common
  import opened Linear
  import opened Records
  import opened Projection
  import opened Serializer
  import opened Dedup
  import opened Scene
  import opened Handoff
  import Catalog

  // ---------------------------------------------------------------------------------------
  // ImageCapture

  class ImageCapture {
    /** `photoCaptureObject` and which of its callbacks is pending. */
    var camera: CameraPhase
    var captureIsActive: bool
    var photoFrameBuffer: seq<Frame>
    var photoFrameBufferEmpty: bool
    var photoFrameBufferRefill: bool
    /** Frames the camera has handed over so far (accounting only). */
    ghost var framesCaptured: nat

    /** The field initialisers; `Start` has asked for the camera, which is not there yet. */
    constructor()
      ensures camera == Creating && captureIsActive
      ensures photoFrameBuffer == [] && photoFrameBufferEmpty && photoFrameBufferRefill
      ensures framesCaptured == 0
    {
      camera := Creating;
      captureIsActive := true;
      photoFrameBuffer := [];
      photoFrameBufferEmpty := true;
      photoFrameBufferRefill := true;
      framesCaptured := 0;
    }

    /** The `CreateAsync` callback. */
    method OnCameraCreated()
      requires camera == Creating
      modifies this
      ensures camera == Ready && !captureIsActive
      ensures photoFrameBuffer == old(photoFrameBuffer) && photoFrameBufferEmpty == old(photoFrameBufferEmpty)
      ensures photoFrameBufferRefill == old(photoFrameBufferRefill) && framesCaptured == old(framesCaptured)
    {
      camera := Ready;
      captureIsActive := false;
    }

    /** `TakePhoto`: ask the camera for photo mode. Without a camera object (not yet
        created, or disposed) the call throws and nothing changes. */
    method TakePhoto()
      modifies this
      ensures camera == (if old(camera) == Ready then StartingPhotoMode else old(camera))
      ensures captureIsActive == old(captureIsActive)
      ensures photoFrameBuffer == old(photoFrameBuffer) && photoFrameBufferEmpty == old(photoFrameBufferEmpty)
      ensures photoFrameBufferRefill == old(photoFrameBufferRefill) && framesCaptured == old(framesCaptured)
    {
      if camera == Ready {
        camera := StartingPhotoMode;
      }
    }

    /** `Update`: start a capture when a frame is wanted and none is under way. */
    method Update()
      modifies this
      ensures old(photoFrameBufferRefill && !captureIsActive) ==>
                && !photoFrameBufferRefill && captureIsActive
                && camera == (if old(camera) == Ready then StartingPhotoMode else old(camera))
      ensures !old(photoFrameBufferRefill && !captureIsActive) ==>
                && photoFrameBufferRefill == old(photoFrameBufferRefill)
                && captureIsActive == old(captureIsActive) && camera == old(camera)
      ensures photoFrameBuffer == old(photoFrameBuffer) && photoFrameBufferEmpty == old(photoFrameBufferEmpty)
      ensures framesCaptured == old(framesCaptured)
    {
      if photoFrameBufferRefill && !captureIsActive {
        photoFrameBufferRefill := false;
        captureIsActive := true;
        TakePhoto();
      }
    }

    /** The `StartPhotoModeAsync` callback: `TakePhotoAsync`. */
    method OnPhotoModeStarted()
      requires camera == StartingPhotoMode
      modifies this
      ensures camera == TakingPhoto && captureIsActive == old(captureIsActive)
      ensures photoFrameBuffer == old(photoFrameBuffer) && photoFrameBufferEmpty == old(photoFrameBufferEmpty)
      ensures photoFrameBufferRefill == old(photoFrameBufferRefill) && framesCaptured == old(framesCaptured)
    {
      camera := TakingPhoto;
    }

    /** `OnCapturedPhotoToMemory`: enqueue the frame and leave photo mode. */
    method OnCapturedPhotoToMemory(f: Frame)
      requires camera == TakingPhoto
      modifies this
      ensures photoFrameBuffer == old(photoFrameBuffer) + [f] && !photoFrameBufferEmpty
      ensures camera == StoppingPhotoMode && captureIsActive == old(captureIsActive)
      ensures photoFrameBufferRefill == old(photoFrameBufferRefill)
      ensures framesCaptured == old(framesCaptured) + 1
    {
      photoFrameBuffer := photoFrameBuffer + [f];
      photoFrameBufferEmpty := false;
      framesCaptured := framesCaptured + 1;
      camera := StoppingPhotoMode;
    }

    /** The `StopPhotoModeAsync` callback: the capture loop may run again. */
    method OnPhotoModeStopped()
      requires camera == StoppingPhotoMode
      modifies this
      ensures camera == Ready && !captureIsActive
      ensures photoFrameBuffer == old(photoFrameBuffer) && photoFrameBufferEmpty == old(photoFrameBufferEmpty)
      ensures photoFrameBufferRefill == old(photoFrameBufferRefill) && framesCaptured == old(framesCaptured)
    {
      camera := Ready;
      captureIsActive := false;
    }

    /** `OnApplicationFocus`: on focus loss dispose the camera and clear the active flag;
        without a camera object `Dispose` throws first and nothing changes. */
    method OnApplicationFocus(hasFocus: bool)
      modifies this
      ensures if !hasFocus && old(camera) != Creating && old(camera) != Disposed
              then camera == Disposed && !captureIsActive
              else camera == old(camera) && captureIsActive == old(captureIsActive)
      ensures photoFrameBuffer == old(photoFrameBuffer) && photoFrameBufferEmpty == old(photoFrameBufferEmpty)
      ensures photoFrameBufferRefill == old(photoFrameBufferRefill) && framesCaptured == old(framesCaptured)
    {
      if !hasFocus {
        if camera == Creating || camera == Disposed {
          return;
        }
        camera := Disposed;
        captureIsActive := false;
      }
    }
  }

  // ---------------------------------------------------------------------------------------
  // ImageSerializer

  class ImageSerializer {
    const capture: ImageCapture
    /** The frame a started `SerializeRequest` coroutine holds. */
    var serializing: Option<Frame>
    var rawRequestBuffer: seq<RequestBufferElem>
    var rawRequestBufferEmpty: bool
    var rawRequestBufferRefill: bool
    /** Frames disposed so far (accounting only). */
    ghost var framesDisposed: nat

    constructor(capture: ImageCapture)
      ensures this.capture == capture
      ensures serializing == None && rawRequestBuffer == [] && rawRequestBufferEmpty && rawRequestBufferRefill
      ensures framesDisposed == 0
    {
      this.capture := capture;
      serializing := None;
      rawRequestBuffer := [];
      rawRequestBufferEmpty := true;
      rawRequestBufferRefill := true;
      framesDisposed := 0;
    }

    /** `Update`: take a frame from `ImageCapture`, re-arm it, start `SerializeRequest`.
        `Dequeue` on an empty queue throws before any flag changes. */
    method Update()
      modifies this, capture
      ensures var go := old(rawRequestBufferRefill && !capture.photoFrameBufferEmpty && capture.photoFrameBuffer != []);
              if go then
                && capture.photoFrameBuffer == old(capture.photoFrameBuffer[1..])
                && capture.photoFrameBufferRefill && capture.photoFrameBufferEmpty
                && !rawRequestBufferRefill && serializing == Some(old(capture.photoFrameBuffer[0]))
              else
                && capture.photoFrameBuffer == old(capture.photoFrameBuffer)
                && capture.photoFrameBufferRefill == old(capture.photoFrameBufferRefill)
                && capture.photoFrameBufferEmpty == old(capture.photoFrameBufferEmpty)
                && rawRequestBufferRefill == old(rawRequestBufferRefill) && serializing == old(serializing)
      ensures capture.camera == old(capture.camera) && capture.captureIsActive == old(capture.captureIsActive)
      ensures capture.framesCaptured == old(capture.framesCaptured)
      ensures rawRequestBuffer == old(rawRequestBuffer) && rawRequestBufferEmpty == old(rawRequestBufferEmpty)
      ensures framesDisposed == old(framesDisposed)
    {
      if rawRequestBufferRefill && !capture.photoFrameBufferEmpty {
        if capture.photoFrameBuffer == [] {
          return;
        }
        var photoFrame := capture.photoFrameBuffer[0];
        capture.photoFrameBuffer := capture.photoFrameBuffer[1..];
        capture.photoFrameBufferRefill := true;
        capture.photoFrameBufferEmpty := true;
        rawRequestBufferRefill := false;
        serializing := Some(photoFrame);
      }
    }

    /** `SerializeRequest` after its one-frame deferral: build the request element, dispose
        the frame, enqueue. */
    method ResumeSerializeRequest()
      requires serializing.Some?
      modifies this
      ensures rawRequestBuffer == old(rawRequestBuffer) + [SerializeRequest(old(serializing.value))]
      ensures !rawRequestBufferEmpty && serializing == None
      ensures rawRequestBufferRefill == old(rawRequestBufferRefill)
      ensures framesDisposed == old(framesDisposed) + 1
    {
      var requestBufferElem := SerializeRequest(serializing.value);
      framesDisposed := framesDisposed + 1;
      rawRequestBuffer := rawRequestBuffer + [requestBufferElem];
      rawRequestBufferEmpty := false;
      serializing := None;
    }
  }

  // ---------------------------------------------------------------------------------------
  // ImageAnalyser

  class ImageAnalyser {
    const serializer: ImageSerializer
    /** The request element the `AnalyseLastImageCaptured` coroutine holds. */
    var analysing: Option<RequestBufferElem>
    var outputsBuffer: seq<Outputs>
    var outputsBufferEmpty: bool
    var outputsBufferRefill: bool
    /** The clock reading at which `stopwatch` was last restarted. */
    var stopwatchStart: int
    var timestamp: int

    constructor(serializer: ImageSerializer)
      ensures this.serializer == serializer
      ensures analysing == None && outputsBuffer == [] && outputsBufferEmpty && outputsBufferRefill
      ensures stopwatchStart == 0 && timestamp == 0
    {
      this.serializer := serializer;
      analysing := None;
      outputsBuffer := [];
      outputsBufferEmpty := true;
      outputsBufferRefill := true;
      stopwatchStart := 0;
      timestamp := 0;
    }

    /** `Update` at clock reading `now`: after more than 200 ms of rest, restart the stopwatch,
        take a request, re-arm the serializer and send. `Dequeue` on an empty queue throws
        after the restart. */
    method Update(now: int)
      modifies this, serializer
      ensures var go := old(outputsBufferRefill && !serializer.rawRequestBufferEmpty &&
                            (now - stopwatchStart) - timestamp > 200);
              var taken := go && old(serializer.rawRequestBuffer) != [];
              && stopwatchStart == (if go then now else old(stopwatchStart))
              && (taken ==>
                    && serializer.rawRequestBuffer == old(serializer.rawRequestBuffer[1..])
                    && serializer.rawRequestBufferRefill && serializer.rawRequestBufferEmpty
                    && !outputsBufferRefill && analysing == Some(old(serializer.rawRequestBuffer[0])))
              && (!taken ==>
                    && serializer.rawRequestBuffer == old(serializer.rawRequestBuffer)
                    && serializer.rawRequestBufferRefill == old(serializer.rawRequestBufferRefill)
                    && serializer.rawRequestBufferEmpty == old(serializer.rawRequestBufferEmpty)
                    && outputsBufferRefill == old(outputsBufferRefill) && analysing == old(analysing))
      ensures serializer.serializing == old(serializer.serializing)
      ensures serializer.framesDisposed == old(serializer.framesDisposed)
      ensures outputsBuffer == old(outputsBuffer) && outputsBufferEmpty == old(outputsBufferEmpty)
      ensures timestamp == old(timestamp)
    {
      if outputsBufferRefill && !serializer.rawRequestBufferEmpty && (now - stopwatchStart) - timestamp > 200 {
        stopwatchStart := now;
        if serializer.rawRequestBuffer == [] {
          return;
        }
        var rawRequestElem := serializer.rawRequestBuffer[0];
        serializer.rawRequestBuffer := serializer.rawRequestBuffer[1..];
        serializer.rawRequestBufferRefill := true;
        serializer.rawRequestBufferEmpty := true;
        outputsBufferRefill := false;
        analysing := Some(rawRequestElem);
      }
    }

    /** The response branch of `AnalyseLastImageCaptured` at clock reading `now`: a parsed
        result is stamped with its request's pose and enqueued; a failure hibernates the
        analyser for 1800 ms beyond the usual rest and, as the comment intends, lets it ask
        for input again. */
    method OnResponse(now: int, response: Option<Outputs>)
      requires analysing.Some?
      modifies this
      ensures analysing == None && stopwatchStart == old(stopwatchStart)
      ensures response.Some? ==>
                && outputsBuffer == old(outputsBuffer) + [WithWorldData(response.value, old(analysing.value))]
                && !outputsBufferEmpty && outputsBufferRefill == old(outputsBufferRefill)
                && timestamp == now - stopwatchStart
      ensures response.None? ==>
                && outputsBuffer == old(outputsBuffer) && outputsBufferEmpty == old(outputsBufferEmpty)
                && outputsBufferRefill && timestamp == now - stopwatchStart + 1800
    {
      var rawRequestElem := analysing.value;
      match response {
        case Some(outputs) =>
          var stamped := outputs;
          if rawRequestElem.hasWorldData {
            stamped := stamped.(hasWorldData := true, cameraToWorld := rawRequestElem.cameraToWorld,
                                projection := rawRequestElem.projection);
          } else {
            stamped := stamped.(hasWorldData := false);
          }
          outputsBuffer := outputsBuffer + [stamped];
          outputsBufferEmpty := false;
          timestamp := now - stopwatchStart;
        case None =>
          timestamp := now - stopwatchStart + 1800;
          outputsBufferRefill := true;
      }
      analysing := None;
    }
  }

  // ---------------------------------------------------------------------------------------
  // SceneOrganizer

  class SceneOrganizer {
    const analyser: ImageAnalyser
    /** Results whose `FinaliseLabel` coroutine has started and not yet run. */
    var placing: seq<Outputs>
    var boxes: seq<Box>
    var labels: seq<Label>

    constructor(analyser: ImageAnalyser)
      ensures this.analyser == analyser
      ensures placing == [] && boxes == [] && labels == []
    {
      this.analyser := analyser;
      placing := [];
      boxes := [];
      labels := [];
    }

    /** `Update`: take a result from `ImageAnalyser`, re-arm it, start `FinaliseLabel`.
        `Dequeue` on an empty queue throws before any flag changes. */
    method Update()
      modifies this, analyser
      ensures var go := old(!analyser.outputsBufferEmpty && analyser.outputsBuffer != []);
              if go then
                && analyser.outputsBuffer == old(analyser.outputsBuffer[1..])
                && analyser.outputsBufferEmpty && analyser.outputsBufferRefill
                && placing == old(placing) + [old(analyser.outputsBuffer[0])]
              else
                && analyser.outputsBuffer == old(analyser.outputsBuffer)
                && analyser.outputsBufferEmpty == old(analyser.outputsBufferEmpty)
                && analyser.outputsBufferRefill == old(analyser.outputsBufferRefill)
                && placing == old(placing)
      ensures analyser.analysing == old(analyser.analysing)
      ensures analyser.stopwatchStart == old(analyser.stopwatchStart) && analyser.timestamp == old(analyser.timestamp)
      ensures boxes == old(boxes) && labels == old(labels)
    {
      if !analyser.outputsBufferEmpty {
        if analyser.outputsBuffer == [] {
          return;
        }
        var outputs := analyser.outputsBuffer[0];
        analyser.outputsBuffer := analyser.outputsBuffer[1..];
        analyser.outputsBufferEmpty := true;
        analyser.outputsBufferRefill := true;
        placing := placing + [outputs];
      }
    }

    /** `IsBoxNew(newbox, newlabel)`: scan the registry in order; skip an entry the
        candidate misses on either axis; smooth an entry it overlaps by more than half
        towards it; stop with `false` at the first entry it overlaps by more than a tenth. */
    method IsBoxNew(nb: Box, nl: Label) returns (isNew: bool)
      requires |boxes| == |labels|
      modifies this
      ensures var r := Dedup.IsBoxNew(old(boxes), old(labels), nb, nl);
              isNew == r.isNew && boxes == r.boxes && labels == r.labels
      ensures placing == old(placing)
    {
      var n := EdgesOf(nl.position, nb.position);
      var i := 0;
      while i < |boxes|
        invariant 0 <= i <= |boxes| == |labels|
        invariant boxes == old(boxes) && labels == old(labels) && placing == old(placing)
        invariant IsBoxNewFrom(boxes, labels, nb, nl, i) == Dedup.IsBoxNew(boxes, labels, nb, nl)
      {
        var o := EdgesOf(labels[i].position, boxes[i].position);
        var xOverlap := XOverlap(n, o);
        if IsNegative(xOverlap) {
          i := i + 1;
          continue;
        }
        var yOverlap := YOverlap(n, o);
        if IsNegative(yOverlap) {
          i := i + 1;
          continue;
        }
        var product := Times(xOverlap, yOverlap);
        ghost var verdict := VerdictAt(boxes, labels, nb, nl, i);
        if Exceeds(product, MergeThreshold) {
          var merged := Merge(Entry(boxes[i], labels[i]), Entry(nb, nl));
          labels := labels[i := merged.tag];
          boxes := boxes[i := merged.box];
        }
        if Exceeds(product, DuplicateThreshold) {
          assert verdict == Duplicate(Exceeds(product, MergeThreshold));
          return false;
        }
        i := i + 1;
      }
      return true;
    }

    /** One iteration of the `FinaliseLabel` loop for a detection scoring above the
        threshold: build its label and box from the product, place them through the two
        corner raycasts (dropping both when either misses) and keep the pair when
        `IsBoxNew` says it is new. */
    method PlaceDetection(d: Detection, outputs: Outputs, w: World)
      requires |boxes| == |labels| && Placeable(outputs)
      modifies this
      ensures |boxes| == |labels| && placing == old(placing)
      ensures Registry(boxes, labels) == match Candidate(d, outputs, w)
                                         case None => old(Registry(boxes, labels))
                                         case Some(e) => Admit(old(Registry(boxes, labels)), e)
    {
      var productDefinition := Catalog.GetProductNutri(d.classId);
      var finalLabel: Placement, finalBox: Placement;
      if outputs.hasWorldData {
        finalLabel := GetFinalPosition(LabelCorner(d.box), outputs.cameraToWorld, outputs.projection, w.cast);
        finalBox := GetFinalPosition(BoxCorner(d.box), outputs.cameraToWorld, outputs.projection, w.cast);
      } else {
        finalLabel := GetFallbackPosition(w.quad(LabelLocalPosition(d.box)), w.head, w.cast);
        finalBox := GetFallbackPosition(w.quad(BoxLocalPosition(d.box)), w.head, w.cast);
      }
      if !(finalLabel.hit && finalBox.hit) {
        return;
      }
      var newLabel := Label(finalLabel.position, productDefinition.nutriLabel);
      var newBox := Box(finalBox.position, BoxScale(d.box, w.quadSize), productDefinition.id,
                        Catalog.GetNutriColor(productDefinition.nutriLabel));
      assert Candidate(d, outputs, w) == Some(Entry(newBox, newLabel));
      IsBoxNewMeaning(boxes, labels, newBox, newLabel);
      var isNew := IsBoxNew(newBox, newLabel);
      if isNew {
        boxes := boxes + [newBox];
        labels := labels + [newLabel];
      }
    }

    /** `FinaliseLabel(outputs)` after its one-frame deferral, for the oldest pending result:
        the detections in order, stopping at the first score not above the threshold. */
    method ResumeFinaliseLabel(w: World)
      requires placing != [] && |boxes| == |labels| && Placeable(placing[0])
      modifies this
      ensures Registry(boxes, labels) == FinaliseLabel(old(Registry(boxes, labels)), old(placing[0]), w)
      ensures placing == old(placing[1..])
    {
      var outputs := placing[0];
      placing := placing[1..];
      var i := 0;
      while i < |outputs.detections|
        invariant 0 <= i <= |outputs.detections| && |boxes| == |labels|
        invariant placing == old(placing[1..])
        invariant FinaliseFrom(Registry(boxes, labels), outputs, w, i) ==
                  FinaliseLabel(old(Registry(boxes, labels)), outputs, w)
      {
        if !(outputs.detections[i].score > ProbabilityThreshold) {
          break;
        }
        PlaceDetection(outputs.detections[i], outputs, w);
        i := i + 1;
      }
    }
  }

  // ---------------------------------------------------------------------------------------
  // The scene

  /** The four components wired through their `Instance` references, and the clock their
      stopwatches read. */
  class App {
    const capture: ImageCapture
    const serializer: ImageSerializer
    const analyser: ImageAnalyser
    const scene: SceneOrganizer
    var now: int

    ghost predicate Wired() {
      serializer.capture == capture && analyser.serializer == serializer && scene.analyser == analyser
    }

    /** The state of the four objects and the clock, as the `Handoff` machine sees it. */
    ghost function Snapshot(): PipelineState
      reads this, capture, serializer, analyser, scene
    {
      PipelineState(
        capture.camera, capture.captureIsActive, capture.photoFrameBuffer,
        capture.photoFrameBufferEmpty, capture.photoFrameBufferRefill,
        serializer.serializing, serializer.rawRequestBuffer,
        serializer.rawRequestBufferEmpty, serializer.rawRequestBufferRefill,
        analyser.analysing, analyser.outputsBuffer, analyser.outputsBufferEmpty,
        analyser.outputsBufferRefill, analyser.stopwatchStart, analyser.timestamp,
        scene.placing, Registry(scene.boxes, scene.labels),
        now, capture.framesCaptured, serializer.framesDisposed)
    }

    constructor()
      ensures Wired() && Snapshot() == Initial
    {
      var c := new ImageCapture();
      var s := new ImageSerializer(c);
      var a := new ImageAnalyser(s);
      var o := new SceneOrganizer(a);
      capture, serializer, analyser, scene := c, s, a, o;
      now := 0;
    }

    method Elapse(ms: nat)
      modifies this
      ensures Snapshot() == AdvanceClock(old(Snapshot()), ms)
    {
      now := now + ms;
    }

    method CaptureTick()
      modifies capture
      ensures Snapshot() == CaptureUpdate(old(Snapshot()))
    {
      capture.Update();
    }

    method SerializerTick()
      requires Wired()
      modifies serializer, capture
      ensures Snapshot() == SerializerUpdate(old(Snapshot()))
    {
      serializer.Update();
    }

    method AnalyserTick()
      requires Wired()
      modifies analyser, serializer
      ensures Snapshot() == AnalyserUpdate(old(Snapshot()))
    {
      analyser.Update(now);
    }

    method SceneTick()
      requires Wired()
      modifies scene, analyser
      ensures Snapshot() == SceneUpdate(old(Snapshot()))
    {
      scene.Update();
    }

    method CameraCreated()
      requires capture.camera == Creating
      modifies capture
      ensures Snapshot() == OnCameraCreated(old(Snapshot()))
    {
      capture.OnCameraCreated();
    }

    method PhotoModeStarted()
      requires capture.camera == StartingPhotoMode
      modifies capture
      ensures Snapshot() == OnPhotoModeStarted(old(Snapshot()))
    {
      capture.OnPhotoModeStarted();
    }

    method PhotoCaptured(f: Frame)
      requires capture.camera == TakingPhoto
      modifies capture
      ensures Snapshot() == OnCapturedPhotoToMemory(old(Snapshot()), f)
    {
      capture.OnCapturedPhotoToMemory(f);
    }

    method PhotoModeStopped()
      requires capture.camera == StoppingPhotoMode
      modifies capture
      ensures Snapshot() == OnPhotoModeStopped(old(Snapshot()))
    {
      capture.OnPhotoModeStopped();
    }

    method FocusLost()
      modifies capture
      ensures Snapshot() == OnFocusLost(old(Snapshot()))
    {
      capture.OnApplicationFocus(false);
    }

    method SerializeResumed()
      requires serializer.serializing.Some?
      modifies serializer
      ensures Snapshot() == ResumeSerializeRequest(old(Snapshot()))
    {
      serializer.ResumeSerializeRequest();
    }

    method Response(response: Option<Outputs>)
      requires analyser.analysing.Some?
      modifies analyser
      ensures Snapshot() == OnResponse(old(Snapshot()), response)
    {
      analyser.OnResponse(now, response);
    }

    method PlacementResumed(w: World)
      requires scene.placing != [] && |scene.boxes| == |scene.labels| && Placeable(scene.placing[0])
      modifies scene
      ensures Snapshot() == ResumeFinaliseLabel(old(Snapshot()), w)
    {
      scene.ResumeFinaliseLabel(w);
    }

    /** One engine event on the objects: exactly the machine's step, so every state the
        objects reach from construction satisfies the machine's invariant. */
    method Dispatch(e: Event)
      requires Wired()
      modifies this, capture, serializer, analyser, scene
      ensures Snapshot() == Step(old(Snapshot()), e)
      ensures old(Inv(Snapshot())) ==> Inv(Snapshot())
    {
      ghost var s0 := Snapshot();
      if Inv(s0) { StepKeepsInv(s0, e); }
      if e.Elapse? || e.CaptureTick? || e.SerializerTick? || e.AnalyserTick? || e.SceneTick? || e.FocusLost? {
        DispatchUpdate(e);
      } else {
        DispatchCompletion(e);
      }
    }

    /** A frame's `Update` of one component, the clock, or a loss of focus. */
    method DispatchUpdate(e: Event)
      requires Wired()
      requires e.Elapse? || e.CaptureTick? || e.SerializerTick? || e.AnalyserTick? || e.SceneTick? || e.FocusLost?
      modifies this, capture, serializer, analyser, scene
      ensures Snapshot() == Step(old(Snapshot()), e)
    {
      match e {
        case Elapse(ms) => Elapse(ms);
        case CaptureTick => CaptureTick();
        case SerializerTick => SerializerTick();
        case AnalyserTick => AnalyserTick();
        case SceneTick => SceneTick();
        case FocusLost => FocusLost();
      }
    }

    /** The completion of an asynchronous call; one that is not pending is not delivered. */
    method DispatchCompletion(e: Event)
      requires Wired()
      requires !(e.Elapse? || e.CaptureTick? || e.SerializerTick? || e.AnalyserTick? || e.SceneTick? || e.FocusLost?)
      modifies this, capture, serializer, analyser, scene
      ensures Snapshot() == Step(old(Snapshot()), e)
    {
      match e {
        case CameraCreated =>
          if capture.camera == Creating { CameraCreated(); }
        case PhotoModeStarted =>
          if capture.camera == StartingPhotoMode { PhotoModeStarted(); }
        case PhotoCaptured(f) =>
          if capture.camera == TakingPhoto && UsableFrame(f) { PhotoCaptured(f); }
        case PhotoModeStopped =>
          if capture.camera == StoppingPhotoMode { PhotoModeStopped(); }
        case SerializeResumed =>
          if serializer.serializing.Some? { SerializeResumed(); }
        case Response(r) =>
          if analyser.analysing.Some? { Response(r); }
        case PlacementResumed(w) =>
          if scene.placing != [] && |scene.boxes| == |scene.labels| && Placeable(scene.placing[0]) {
            PlacementResumed(w);
          }
      }
    }
  }
}
