/** Turning one analysis result into boxes and labels in the world: `FinaliseLabel`,
    `CreateNewLabel`, `CreateNewBox` and `CalculateBoxScale` (Scripts/SceneOrganizer.cs),
    stated as a function of the registry of placed objects. */
module Scene {
  import opened Common
  import opened Linear
  import opened Records
  import opened Projection
  import opened Dedup
  import Catalog

  /** `probabilityThreshold`: detections must score strictly above it. */
  const ProbabilityThreshold: real := 0.8

  /** `local_scale_sizer`. */
  const LocalScaleSizer: real := 0.008

  /** What placement reads from the world besides the analysis result: the spatial-mapping
      raycast, the transform of the analysis quad `quad` refers to (a new quad is created for
      every photo), the head position cached when that quad was created, and the quad
      renderer's normalised bounds size. */
  datatype World = World(cast: Raycast, quad: QuadPose, head: Vec3, quadSize: Vec2)

  /** The registry of what is on display: `boxes` and `labels`, entry by entry. */
  datatype Registry = Registry(boxes: seq<Box>, labels: seq<Label>) {
    predicate Valid() { |boxes| == |labels| }
  }

  const EmptyRegistry := Registry([], [])

  // ---------------------------------------------------------------------------------------
  // One candidate

  /** `CalculateBoxScale(bndbox)`: the bounding box's size in tenths of the image, widened
      by the quad's normalised width, heightened by its height, scaled by the sizer. */
  function BoxScale(b: BoundingBox, quadSize: Vec2): (s: Vec3)
    ensures s.z == LocalScaleSizer
    ensures b.right == b.left ==> s.x == 0.0
    ensures b.bottom == b.top ==> s.y == 0.0
  {
    var heightScaler := (b.bottom - b.top) / 0.1;
    var widthScaler := (b.right - b.left) / 0.1;
    var quadWidth := quadSize.x + widthScaler * 0.01;
    var quadHeight := quadSize.y - heightScaler * 0.01;
    Vec3(widthScaler * LocalScaleSizer * quadWidth, heightScaler * LocalScaleSizer * quadHeight,
         LocalScaleSizer)
  }

  /** A result may carry world data only with a projection the unprojection can divide by;
      the capture callback supplies no other. */
  predicate Placeable(o: Outputs) { o.hasWorldData ==> UsableProjection(o.projection) }

  /** Where the label (upper left) and the box (lower right) corner of a detection land. */
  function Corners(d: Detection, o: Outputs, w: World): (p: (Placement, Placement))
    requires Placeable(o)
    ensures !p.0.hit ==> p.0.position == Zero3
    ensures !p.1.hit ==> p.1.position == Zero3
    ensures o.hasWorldData ==>
              var camera := Vec3(o.cameraToWorld.m03, o.cameraToWorld.m13, o.cameraToWorld.m23);
              && (p.0.hit <==> w.cast(camera, CameraRay(o.cameraToWorld, Unproject(LabelCorner(d.box), o.projection)).direction, RaycastRange).Some?)
              && (p.1.hit <==> w.cast(camera, CameraRay(o.cameraToWorld, Unproject(BoxCorner(d.box), o.projection)).direction, RaycastRange).Some?)
    ensures !o.hasWorldData ==>
              && (p.0.hit <==> w.cast(w.head, w.quad(LabelLocalPosition(d.box)).Minus(w.head), RaycastRange).Some?)
              && (p.1.hit <==> w.cast(w.head, w.quad(BoxLocalPosition(d.box)).Minus(w.head), RaycastRange).Some?)
  {
    if o.hasWorldData then
      (GetFinalPosition(LabelCorner(d.box), o.cameraToWorld, o.projection, w.cast),
       GetFinalPosition(BoxCorner(d.box), o.cameraToWorld, o.projection, w.cast))
    else
      (GetFallbackPosition(w.quad(LabelLocalPosition(d.box)), w.head, w.cast),
       GetFallbackPosition(w.quad(BoxLocalPosition(d.box)), w.head, w.cast))
  }

  /** A result whose pose the unprojection as written can divide by. */
  predicate PlaceableAsWritten(o: Outputs) {
    o.hasWorldData ==> o.cameraToWorld.m22 != 0.0 && o.projection.m00 != 0.0 && o.projection.m11 != 0.0
  }

  /** The corners as the source computes them, through the depth of `UnprojectAsWritten` and
      the ray of `FallbackRayAsWritten`. */
  function CornersAsWritten(d: Detection, o: Outputs, w: World): (p: (Placement, Placement))
    requires PlaceableAsWritten(o)
    ensures !p.0.hit ==> p.0.position == Zero3
    ensures !p.1.hit ==> p.1.position == Zero3
    ensures o.hasWorldData ==>
              var camera := Vec3(o.cameraToWorld.m03, o.cameraToWorld.m13, o.cameraToWorld.m23);
              && (p.0.hit <==> w.cast(camera, CameraRay(o.cameraToWorld, UnprojectAsWritten(LabelCorner(d.box), o.cameraToWorld, o.projection)).direction, RaycastRange).Some?)
              && (p.1.hit <==> w.cast(camera, CameraRay(o.cameraToWorld, UnprojectAsWritten(BoxCorner(d.box), o.cameraToWorld, o.projection)).direction, RaycastRange).Some?)
    ensures !o.hasWorldData ==>
              && (p.0.hit <==> w.cast(w.head, w.quad(LabelLocalPosition(d.box)), RaycastRange).Some?)
              && (p.1.hit <==> w.cast(w.head, w.quad(BoxLocalPosition(d.box)), RaycastRange).Some?)
  {
    if o.hasWorldData then
      (GetFinalPositionAsWritten(LabelCorner(d.box), o.cameraToWorld, o.projection, w.cast),
       GetFinalPositionAsWritten(BoxCorner(d.box), o.cameraToWorld, o.projection, w.cast))
    else
      (GetFallbackPositionAsWritten(w.quad(LabelLocalPosition(d.box)), w.head, w.cast),
       GetFallbackPositionAsWritten(w.quad(BoxLocalPosition(d.box)), w.head, w.cast))
  }

  /** Placement through the corrected geometry is the source's own wherever the two rays
      coincide: with a pose whose `m22` is the projection's, or, without a pose, with the
      head at the world origin. */
  lemma CornersAgree(d: Detection, o: Outputs, w: World)
    requires Placeable(o) && PlaceableAsWritten(o)
    requires o.hasWorldData ==> o.cameraToWorld.m22 == o.projection.m22
    requires !o.hasWorldData ==> w.head == Zero3
    ensures CornersAsWritten(d, o, w) == Corners(d, o, w)
  {
    if o.hasWorldData {
      UnprojectionsAgree(LabelCorner(d.box), o.cameraToWorld, o.projection);
      UnprojectionsAgree(BoxCorner(d.box), o.cameraToWorld, o.projection);
    } else {
      FallbackRaysAgree(w.quad(LabelLocalPosition(d.box)), w.head);
      FallbackRaysAgree(w.quad(BoxLocalPosition(d.box)), w.head);
    }
  }

  /** The box and label `FinaliseLabel` builds for a detection, placed at the two hit
      points; `None` when either corner misses (both objects are then destroyed). */
  function Candidate(d: Detection, o: Outputs, w: World): (c: Option<Entry>)
    requires Placeable(o)
    ensures var (l, b) := Corners(d, o, w);
            c.Some? <==> l.hit && b.hit
    ensures c.Some? ==>
              var product := Catalog.GetProductNutri(d.classId);
              var (l, b) := Corners(d, o, w);
              && c.value.tag == Label(l.position, product.nutriLabel)
              && c.value.box == Box(b.position, BoxScale(d.box, w.quadSize), product.id,
                                    Catalog.GetNutriColor(product.nutriLabel))
  {
    var product := Catalog.GetProductNutri(d.classId);
    var (l, b) := Corners(d, o, w);
    if l.hit && b.hit then
      Some(Entry(Box(b.position, BoxScale(d.box, w.quadSize), product.id,
                     Catalog.GetNutriColor(product.nutriLabel)),
                 Label(l.position, product.nutriLabel)))
    else None
  }

  /** A placed candidate joins the registry when `IsBoxNew` says so; otherwise the registry
      is what `IsBoxNew` left (possibly one entry smoothed towards it). */
  function Admit(reg: Registry, e: Entry): (r: Registry)
    requires reg.Valid()
    ensures r.Valid()
    ensures IsBoxNew(reg.boxes, reg.labels, e.box, e.tag).isNew <==> |r.boxes| == |reg.boxes| + 1
    ensures !IsBoxNew(reg.boxes, reg.labels, e.box, e.tag).isNew ==> |r.boxes| == |reg.boxes|
    ensures r.boxes[..|reg.boxes|] == reg.boxes || |r.boxes| == |reg.boxes|
  {
    var d := IsBoxNew(reg.boxes, reg.labels, e.box, e.tag);
    if d.isNew then Registry(reg.boxes + [e.box], reg.labels + [e.tag])
    else Registry(d.boxes, d.labels)
  }

  // ---------------------------------------------------------------------------------------
  // The loop over detections

  /** The loop of `FinaliseLabel` from detection `i` on: stop at the first score not above
      the threshold (scores arrive sorted, highest first). */
  function FinaliseFrom(reg: Registry, o: Outputs, w: World, i: nat): (r: Registry)
    requires reg.Valid() && Placeable(o) && i <= |o.detections|
    ensures r.Valid()
    decreases |o.detections| - i
  {
    if i == |o.detections| || !(o.detections[i].score > ProbabilityThreshold) then reg
    else
      match Candidate(o.detections[i], o, w)
      case None => FinaliseFrom(reg, o, w, i + 1)
      case Some(e) =>
        IsBoxNewChangesAtMostOne(reg.boxes, reg.labels, e.box, e.tag);
        FinaliseFrom(Admit(reg, e), o, w, i + 1)
  }

  /** `FinaliseLabel(outputs)`: the registry after placing one analysis result. */
  function FinaliseLabel(reg: Registry, o: Outputs, w: World): (r: Registry)
    requires reg.Valid() && Placeable(o)
    ensures r.Valid()
  {
    FinaliseFrom(reg, o, w, 0)
  }

  /** How many detections the loop looks at: the leading run scoring above the threshold. */
  function ProcessedCount(ds: seq<Detection>): (n: nat)
    ensures n <= |ds|
    ensures forall k :: 0 <= k < n ==> ds[k].score > ProbabilityThreshold
    ensures n < |ds| ==> !(ds[n].score > ProbabilityThreshold)
  {
    if ds == [] || !(ds[0].score > ProbabilityThreshold) then 0
    else 1 + ProcessedCount(ds[1..])
  }

  // ---------------------------------------------------------------------------------------
  // Properties

  /** Every entry's colour is the colour of its label's grade, and a box has a name exactly
      when its label has a text (a known product has both, an unknown class neither). */
  predicate Consistent(reg: Registry)
    requires reg.Valid()
  {
    forall k :: 0 <= k < |reg.boxes| ==>
      && reg.boxes[k].color == Catalog.GetNutriColor(reg.labels[k].text)
      && (reg.boxes[k].name.None? <==> reg.labels[k].text.None?)
  }

  lemma AdmitKeepsConsistent(reg: Registry, d: Detection, o: Outputs, w: World)
    requires reg.Valid() && Consistent(reg) && Placeable(o) && Candidate(d, o, w).Some?
    ensures var r := Admit(reg, Candidate(d, o, w).value);
            r.Valid() && Consistent(r) && |reg.boxes| <= |r.boxes| <= |reg.boxes| + 1
  {
    var e := Candidate(d, o, w).value;
    IsBoxNewChangesAtMostOne(reg.boxes, reg.labels, e.box, e.tag);
    var product := Catalog.GetProductNutri(d.classId);
    if Catalog.Case(Catalog.Truncate(d.classId)).Some? {
      assert e.box.name.Some? && e.tag.text.Some?;
    } else {
      assert product == Unset;
    }
  }

  lemma {:induction false} FinaliseFromKeeps(reg: Registry, o: Outputs, w: World, i: nat)
    requires reg.Valid() && Consistent(reg) && Placeable(o) && i <= |o.detections|
    ensures var r := FinaliseFrom(reg, o, w, i);
            && r.Valid() && Consistent(r)
            && |reg.boxes| <= |r.boxes| <= |reg.boxes| + (|o.detections| - i)
    decreases |o.detections| - i
  {
    if i < |o.detections| && o.detections[i].score > ProbabilityThreshold {
      match Candidate(o.detections[i], o, w)
      case None => FinaliseFromKeeps(reg, o, w, i + 1);
      case Some(e) =>
        AdmitKeepsConsistent(reg, o.detections[i], o, w);
        FinaliseFromKeeps(Admit(reg, e), o, w, i + 1);
    }
  }

  /** Placing a result keeps boxes and labels paired and colour-consistent, never removes an
      entry, and adds at most one entry per detection. */
  lemma FinaliseLabelKeeps(reg: Registry, o: Outputs, w: World)
    requires reg.Valid() && Consistent(reg) && Placeable(o)
    ensures var r := FinaliseLabel(reg, o, w);
            && r.Valid() && Consistent(r)
            && |reg.boxes| <= |r.boxes| <= |reg.boxes| + |o.detections|
  {
    FinaliseFromKeeps(reg, o, w, 0);
  }

  lemma {:induction false} FinaliseFromPrefix(reg: Registry, o: Outputs, w: World, i: nat)
    requires reg.Valid() && Placeable(o) && i <= ProcessedCount(o.detections)
    ensures var o' := o.(detections := o.detections[..ProcessedCount(o.detections)]);
            FinaliseFrom(reg, o, w, i) == FinaliseFrom(reg, o', w, i)
    decreases |o.detections| - i
  {
    var n := ProcessedCount(o.detections);
    var o' := o.(detections := o.detections[..n]);
    if i < n {
      assert o'.detections[i] == o.detections[i];
      match Candidate(o.detections[i], o, w)
      case None => FinaliseFromPrefix(reg, o, w, i + 1);
      case Some(e) =>
        IsBoxNewChangesAtMostOne(reg.boxes, reg.labels, e.box, e.tag);
        FinaliseFromPrefix(Admit(reg, e), o, w, i + 1);
    }
  }

  /** The early exit: placing a result is the same as placing only its leading run of
      detections above the threshold; nothing after the first low score is looked at. */
  lemma FinaliseLabelStopsAtFirstLowScore(reg: Registry, o: Outputs, w: World)
    requires reg.Valid() && Placeable(o)
    ensures FinaliseLabel(reg, o, w) ==
            FinaliseLabel(reg, o.(detections := o.detections[..ProcessedCount(o.detections)]), w)
  {
    FinaliseFromPrefix(reg, o, w, 0);
  }

  /** Scores 0.95, 0.9, 0.5, 0.99: only the first two detections are looked at. */
  lemma SortedScoresExample(reg: Registry, o: Outputs, w: World)
    requires reg.Valid() && Placeable(o) && |o.detections| == 4
    requires o.detections[0].score == 0.95 && o.detections[1].score == 0.9
    requires o.detections[2].score == 0.5 && o.detections[3].score == 0.99
    ensures FinaliseLabel(reg, o, w) == FinaliseLabel(reg, o.(detections := o.detections[..2]), w)
  {
    var ds := o.detections;
    assert ds[1..][1..][1..] == [ds[3]] && ds[1..][1..][0] == ds[2];
    assert ProcessedCount(ds) == 2;
    FinaliseLabelStopsAtFirstLowScore(reg, o, w);
  }

  lemma {:induction false} FinaliseFromBlind(reg: Registry, o: Outputs, w: World, i: nat)
    requires reg.Valid() && Placeable(o) && i <= |o.detections|
    requires forall a: Vec3, b: Vec3, r: real :: w.cast(a, b, r).None?
    ensures FinaliseFrom(reg, o, w, i) == reg
    decreases |o.detections| - i
  {
    if i < |o.detections| && o.detections[i].score > ProbabilityThreshold {
      var (l, b) := Corners(o.detections[i], o, w);
      assert !l.hit;
      FinaliseFromBlind(reg, o, w, i + 1);
    }
  }

  /** Nothing is placed where the spatial mesh is never hit: a miss destroys both objects. */
  lemma NoHitPlacesNothing(reg: Registry, o: Outputs, w: World)
    requires reg.Valid() && Placeable(o)
    requires forall a: Vec3, b: Vec3, r: real :: w.cast(a, b, r).None?
    ensures FinaliseLabel(reg, o, w) == reg
  {
    FinaliseFromBlind(reg, o, w, 0);
  }

  /** A result with one detection above the threshold that lands is placed by one `Admit`. */
  lemma SingleDetection(reg: Registry, o: Outputs, w: World)
    requires reg.Valid() && Placeable(o) && |o.detections| == 1
    requires o.detections[0].score > ProbabilityThreshold
    requires Candidate(o.detections[0], o, w).Some?
    ensures FinaliseLabel(reg, o, w) == Admit(reg, Candidate(o.detections[0], o, w).value)
  {
    var e := Candidate(o.detections[0], o, w).value;
    IsBoxNewChangesAtMostOne(reg.boxes, reg.labels, e.box, e.tag);
    assert FinaliseFrom(Admit(reg, e), o, w, 1) == Admit(reg, e);
  }

  /** Seeing the same single detection again changes nothing: once it has been added, the
      second placement finds it as its own first duplicate and smooths it onto itself. */
  lemma RepeatedDetectionIsAbsorbed(reg: Registry, o: Outputs, w: World)
    requires reg.Valid() && Placeable(o) && |o.detections| == 1
    requires var c := Candidate(o.detections[0], o, w);
             c.Some? && c.value.tag.position.x < c.value.box.position.x &&
             c.value.box.position.y < c.value.tag.position.y
    requires |FinaliseLabel(reg, o, w).boxes| == |reg.boxes| + 1
    ensures FinaliseLabel(FinaliseLabel(reg, o, w), o, w) == FinaliseLabel(reg, o, w)
  {
    var e := Candidate(o.detections[0], o, w).value;
    assert o.detections[0].score > ProbabilityThreshold;
    SingleDetection(reg, o, w);
    var r1 := FinaliseLabel(reg, o, w);
    IsBoxNewChangesAtMostOne(reg.boxes, reg.labels, e.box, e.tag);
    assert IsBoxNew(reg.boxes, reg.labels, e.box, e.tag).isNew;
    assert r1 == Registry(reg.boxes + [e.box], reg.labels + [e.tag]);
    AppendedIsAbsorbed(reg.boxes, reg.labels, e.box, e.tag);
    SingleDetection(r1, o, w);
  }
}
