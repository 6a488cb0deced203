/** `ValuesForCalibration()` (Scripts/ImageAnalyser.cs): a fixed analysis result of nine
    detections on a 3 x 3 grid, for lining the labels up with the real world. */
module Calibration {
  import opened Linear
  import opened Records
  import Scene

  const PosL: seq<real> := [0.3, 0.5, 0.7]
  const LVar: seq<real> := [0.025, 0.05, 0.1]
  const PosH: seq<real> := [0.1, 0.5, 0.9]
  const HVar: seq<real> := [0.025, 0.05, 0.1]

  const CalibrationScore: real := 0.99
  /** The class id every calibration row carries. */
  const CalibrationClass: real := 16.0

  /** Grid cell (l, h): centred at (pos_h[h], pos_l[l]), half-extents h_var[h] and l_var[l]. */
  function CalibrationBox(l: nat, h: nat): BoundingBox
    requires l < 3 && h < 3
  {
    BoundingBox(PosH[h] - HVar[h], PosL[l] - LVar[l], PosH[h] + HVar[h], PosL[l] + LVar[l])
  }

  /** The nine rows in the order the nested loops write them: row 3l + h is cell (l, h). */
  function CalibrationOutputs(): (o: Outputs)
    ensures |o.detections| == 9 && !o.hasWorldData
  {
    Outputs(seq(9, k requires 0 <= k < 9 => Detection(CalibrationScore, CalibrationClass, CalibrationBox(k / 3, k % 3))),
            false, ZeroMatrix, ZeroMatrix)
  }

  function BoxAt(boxes: array2<real>, k: nat): BoundingBox
    requires boxes.Length0 == 9 && boxes.Length1 == 4 && k < 9
    reads boxes
  {
    BoundingBox(boxes[k, 0], boxes[k, 1], boxes[k, 2], boxes[k, 3])
  }

  /** Fills fresh score, class and box arrays row by row with a running counter and wraps
      them as an `Outputs` without world data. */
  method ValuesForCalibration() returns (o: Outputs)
    ensures o == CalibrationOutputs()
  {
    var scores := new real[9];
    var classes := new real[9];
    var boxes := new real[9, 4];
    var cnt := 0;
    var l := 0;
    while l < |PosL|
      invariant 0 <= l <= 3 && cnt == 3 * l
      invariant forall k :: 0 <= k < cnt ==>
                  scores[k] == CalibrationScore && classes[k] == CalibrationClass &&
                  BoxAt(boxes, k) == CalibrationBox(k / 3, k % 3)
    {
      var h := 0;
      while h < |PosH|
        invariant 0 <= h <= 3 && cnt == 3 * l + h
        invariant forall k :: 0 <= k < cnt ==>
                    scores[k] == CalibrationScore && classes[k] == CalibrationClass &&
                    BoxAt(boxes, k) == CalibrationBox(k / 3, k % 3)
      {
        scores[cnt] := CalibrationScore;
        classes[cnt] := CalibrationClass;
        boxes[cnt, 0] := PosH[h] - HVar[h];
        boxes[cnt, 1] := PosL[l] - LVar[l];
        boxes[cnt, 2] := PosH[h] + HVar[h];
        boxes[cnt, 3] := PosL[l] + LVar[l];
        assert cnt / 3 == l && cnt % 3 == h;
        cnt := cnt + 1;
        h := h + 1;
      }
      l := l + 1;
    }
    o := Outputs(seq(9, k requires 0 <= k < 9 reads scores, classes, boxes =>
                         Detection(scores[k], classes[k], BoxAt(boxes, k))),
                 false, ZeroMatrix, ZeroMatrix);
  }

  /** Row 3l + h holds cell (l, h) with score 0.99 and class 16; there are nine rows. */
  lemma CalibrationRows(l: nat, h: nat)
    requires l < 3 && h < 3
    ensures |CalibrationOutputs().detections| == 9
    ensures CalibrationOutputs().detections[3 * l + h] ==
            Detection(0.99, 16.0,
                      BoundingBox(PosH[h] - HVar[h], PosL[l] - LVar[l], PosH[h] + HVar[h], PosL[l] + LVar[l]))
  {
    assert (3 * l + h) / 3 == l && (3 * l + h) % 3 == h;
  }

  /** Every calibration box is a proper rectangle inside the image. */
  lemma CalibrationBoxesInImage(l: nat, h: nat)
    requires l < 3 && h < 3
    ensures var b := CalibrationBox(l, h);
            0.0 <= b.top < b.bottom <= 1.0 && 0.0 <= b.left < b.right <= 1.0
  {
  }

  /** All nine detections score above the placement threshold, so placement looks at each. */
  lemma CalibrationAllPlaced()
    ensures Scene.ProcessedCount(CalibrationOutputs().detections) == 9
  {
    var ds := CalibrationOutputs().detections;
    assert forall k :: 0 <= k < 9 ==> ds[k].score == CalibrationScore;
  }
}
