/** Recognising a detection that is already on display: the overlap test, thresholds and
    smoothing of `IsBoxNew(GameObject, GameObject)` (Scripts/SceneOrganizer.cs), stated over
    the registry of placed boxes and labels. */
module Dedup {
  import opened Common
  import opened Linear
  import opened Records

  // ---------------------------------------------------------------------------------------
  // Registry records

  /** A placed label: its world position and its text (the product's grade). */
  datatype Label = Label(position: Vec3, text: Option<string>)

  /** A placed box: world position, world scale, name (the product id) and colour. The
      source keeps the scale as `localScale` under the analysis quad; `InQuadFrame` relates
      the two. */
  datatype Box = Box(position: Vec3, scale: Vec3, name: Option<string>, color: Color)

  // ---------------------------------------------------------------------------------------
  // Float division by zero

  /** A float quotient: a real, or the infinities and NaN that division by zero gives. */
  datatype Extended = Finite(value: real) | PosInf | NegInf | NaN

  function Quotient(n: real, d: real): (q: Extended)
    ensures d != 0.0 ==> q == Finite(n / d)
    ensures d == 0.0 ==> q.Finite? == false
  {
    if d != 0.0 then Finite(n / d)
    else if n > 0.0 then PosInf
    else if n < 0.0 then NegInf
    else NaN
  }

  /** `e < 0` in float semantics. */
  predicate IsNegative(e: Extended) {
    match e
    case Finite(v) => v < 0.0
    case NegInf => true
    case _ => false
  }

  /** `e > t` in float semantics, for a finite `t`. */
  predicate Exceeds(e: Extended, t: real) {
    match e
    case Finite(v) => v > t
    case PosInf => true
    case _ => false
  }

  function Sign(v: real): int { if v > 0.0 then 1 else if v < 0.0 then -1 else 0 }

  function SignOf(e: Extended): int
    requires !e.NaN?
  {
    match e
    case Finite(v) => Sign(v)
    case PosInf => 1
    case NegInf => -1
  }

  /** `a * b` in float semantics. */
  function Times(a: Extended, b: Extended): (p: Extended)
    ensures a.Finite? && b.Finite? ==> p == Finite(a.value * b.value)
  {
    if a.NaN? || b.NaN? then NaN
    else if a.Finite? && b.Finite? then Finite(a.value * b.value)
    else
      var s := SignOf(a) * SignOf(b);
      if s > 0 then PosInf else if s < 0 then NegInf else NaN
  }

  // ---------------------------------------------------------------------------------------
  // One-dimensional overlap

  function Min(a: real, b: real): real { if a <= b then a else b }
  function Max(a: real, b: real): real { if a >= b then a else b }

  /** The overlap of the new interval [newLo, newHi] with an old one, relative to the new
      interval's length: 1 when the new interval lies strictly inside the old one or covers
      it with room to spare on the high side, and otherwise the signed length of the
      intersection divided by the new length. */
  function Overlap(newLo: real, newHi: real, oldLo: real, oldHi: real): Extended
  {
    if newLo > oldLo then
      if newHi < oldHi then Finite(1.0) else Quotient(oldHi - newLo, newHi - newLo)
    else
      if newHi > oldHi then Finite(1.0) else Quotient(newHi - oldLo, newHi - newLo)
  }

  predicate FullOverlap(newLo: real, newHi: real, oldLo: real, oldHi: real) {
    (newLo > oldLo && newHi < oldHi) || (newLo <= oldLo && newHi > oldHi)
  }

  /** The reference reading: 1 on containment, otherwise the intersection length over the
      new length, which is negative exactly when the intervals are apart, and at most 1. */
  lemma OverlapMeaning(newLo: real, newHi: real, oldLo: real, oldHi: real)
    requires newLo < newHi && oldLo <= oldHi
    ensures var o := Overlap(newLo, newHi, oldLo, oldHi);
            && o.Finite?
            && (FullOverlap(newLo, newHi, oldLo, oldHi) ==> o.value == 1.0)
            && (!FullOverlap(newLo, newHi, oldLo, oldHi) ==>
                  o.value == (Min(newHi, oldHi) - Max(newLo, oldLo)) / (newHi - newLo))
            && (o.value < 0.0 <==> newHi < oldLo || oldHi < newLo)
            && o.value <= 1.0
  {
    var w := newHi - newLo;
    var o := Overlap(newLo, newHi, oldLo, oldHi);
    if !FullOverlap(newLo, newHi, oldLo, oldHi) {
      var i := Min(newHi, oldHi) - Max(newLo, oldLo);
      assert i <= w;
      assert o.value == i / w;
      ShareAtMostOne(i, w);
      ShareNegative(i, w);
    }
  }

  /** A part of a positive length, relative to that length, is at most 1. */
  lemma ShareAtMostOne(i: real, w: real)
    requires 0.0 < w && i <= w
    ensures i / w <= 1.0
  {
    var q := i / w;
    assert q * w == i;
    assert (q - 1.0) * w == i - w;
  }

  /** Relative to a positive length, a signed length keeps its sign. */
  lemma ShareNegative(i: real, w: real)
    requires 0.0 < w
    ensures i / w < 0.0 <==> i < 0.0
  {
    var q := i / w;
    assert q * w == i;
    if q < 0.0 {
      assert (-q) * w > 0.0;
    } else {
      assert q * w >= 0.0;
    }
  }

  // ---------------------------------------------------------------------------------------
  // Comparing a candidate with one registered entry

  /** The edges `IsBoxNew` reads off a label (upper left) and a box (lower right), each
      shifted by +1 as in the source. */
  datatype Edges = Edges(left: real, top: real, right: real, bottom: real)

  function EdgesOf(corner: Vec3, opposite: Vec3): (e: Edges)
    ensures e.right - e.left == opposite.x - corner.x && e.top - e.bottom == corner.y - opposite.y
  {
    Edges(corner.x + 1.0, corner.y + 1.0, opposite.x + 1.0, opposite.y + 1.0)
  }

  /** The horizontal overlap score: for a proper new extent it is finite, at most 1, and
      negative exactly when the two extents are apart. */
  function XOverlap(n: Edges, o: Edges): (v: Extended)
    ensures n.left < n.right && o.left <= o.right ==>
              v.Finite? && v.value <= 1.0 && (v.value < 0.0 <==> n.right < o.left || o.right < n.left)
  {
    if n.left < n.right && o.left <= o.right then
      OverlapMeaning(n.left, n.right, o.left, o.right);
      Overlap(n.left, n.right, o.left, o.right)
    else Overlap(n.left, n.right, o.left, o.right)
  }

  /** The vertical overlap score, the same reading for bottom and top. */
  function YOverlap(n: Edges, o: Edges): (v: Extended)
    ensures n.bottom < n.top && o.bottom <= o.top ==>
              v.Finite? && v.value <= 1.0 && (v.value < 0.0 <==> n.top < o.bottom || o.top < n.bottom)
  {
    if n.bottom < n.top && o.bottom <= o.top then
      OverlapMeaning(n.bottom, n.top, o.bottom, o.top);
      Overlap(n.bottom, n.top, o.bottom, o.top)
    else Overlap(n.bottom, n.top, o.bottom, o.top)
  }

  const MergeThreshold: real := 0.5
  const DuplicateThreshold: real := 0.1

  /** How a candidate relates to one entry. */
  datatype Verdict =
    | Apart            // an overlap is negative, or the product is at most 0.1
    | Duplicate(merge: bool)  // the product exceeds 0.1; `merge` when it also exceeds 0.5

  function Compare(newLabel: Vec3, newBox: Vec3, oldLabel: Vec3, oldBox: Vec3): (v: Verdict)
    ensures var n, o := EdgesOf(newLabel, newBox), EdgesOf(oldLabel, oldBox);
            && (v.Duplicate? <==>
                  && !IsNegative(XOverlap(n, o)) && !IsNegative(YOverlap(n, o))
                  && Exceeds(Times(XOverlap(n, o), YOverlap(n, o)), DuplicateThreshold))
            && (v.Duplicate? ==> (v.merge <==> Exceeds(Times(XOverlap(n, o), YOverlap(n, o)), MergeThreshold)))
  {
    var n, o := EdgesOf(newLabel, newBox), EdgesOf(oldLabel, oldBox);
    var x := XOverlap(n, o);
    if IsNegative(x) then Apart
    else
      var y := YOverlap(n, o);
      if IsNegative(y) then Apart
      else
        var p := Times(x, y);
        // a product above 0.5 is also above 0.1, so the source never merges and goes on
        if Exceeds(p, DuplicateThreshold) then Duplicate(Exceeds(p, MergeThreshold)) else Apart
  }

  // ---------------------------------------------------------------------------------------
  // Smoothing

  /** `(candidate * 0.2 + old) / 1.2`. */
  function Smooth(candidate: Vec3, current: Vec3): (v: Vec3)
    ensures v == candidate.Scale(1.0 / 6.0).Plus(current.Scale(5.0 / 6.0))
  {
    candidate.Scale(0.2).Plus(current).Div(1.2)
  }

  /** An observation equal to the tracked value leaves it where it is. */
  lemma SmoothFixpoint(v: Vec3)
    ensures Smooth(v, v) == v
  {
  }

  /** The analysis quad's scale. `CreateNewBox` sets the box's scale before parenting it
      to the quad, and the parent setter keeps the world scale, so with the two rotations
      aligned the box's `localScale` is its world scale divided by this, axis by axis. */
  const QuadScale := Vec3(2.5, 1.4, 1.0)

  function InQuadFrame(v: Vec3): (u: Vec3)
    ensures u.x * QuadScale.x == v.x && u.y * QuadScale.y == v.y && u.z * QuadScale.z == v.z
  {
    Vec3(v.x / QuadScale.x, v.y / QuadScale.y, v.z / QuadScale.z)
  }

  /** Smoothing the world scale and smoothing the source's `localScale` agree: the quad's
      fixed scale factors out of the moving average. */
  lemma SmoothInQuadFrame(candidate: Vec3, current: Vec3)
    ensures InQuadFrame(Smooth(candidate, current)) == Smooth(InQuadFrame(candidate), InQuadFrame(current))
  {
  }

  datatype Entry = Entry(box: Box, tag: Label)

  /** The merge branch: label position, box position and box scale each move one sixth of
      the way towards the candidate; name, colour and text stay. */
  function Merge(prior: Entry, candidate: Entry): (e: Entry)
    ensures e.box.name == prior.box.name && e.box.color == prior.box.color
    ensures e.tag.text == prior.tag.text
  {
    Entry(
      prior.box.(position := Smooth(candidate.box.position, prior.box.position),
               scale := Smooth(candidate.box.scale, prior.box.scale)),
      prior.tag.(position := Smooth(candidate.tag.position, prior.tag.position)))
  }

  // ---------------------------------------------------------------------------------------
  // The scan over the registry

  datatype DedupResult = DedupResult(isNew: bool, boxes: seq<Box>, labels: seq<Label>)

  function VerdictAt(boxes: seq<Box>, labels: seq<Label>, nb: Box, nl: Label, k: nat): Verdict
    requires k < |boxes| && k < |labels|
  {
    Compare(nl.position, nb.position, labels[k].position, boxes[k].position)
  }

  /** Every entry other than `j` is as it was. */
  predicate OthersUnchanged(r: DedupResult, boxes: seq<Box>, labels: seq<Label>, j: int)
    requires |r.boxes| == |boxes| == |labels| == |r.labels|
  {
    forall k :: 0 <= k < |boxes| && k != j ==> r.boxes[k] == boxes[k] && r.labels[k] == labels[k]
  }

  /** The outcome once entry `j` is found to be a duplicate: merged when above 0.5, not new. */
  function AfterDuplicate(boxes: seq<Box>, labels: seq<Label>, nb: Box, nl: Label, j: nat): (r: DedupResult)
    requires j < |boxes| == |labels| && VerdictAt(boxes, labels, nb, nl, j).Duplicate?
    ensures !r.isNew && |r.boxes| == |boxes| && |r.labels| == |labels|
    ensures forall k :: 0 <= k < |boxes| ==>
              r.boxes[k].name == boxes[k].name && r.boxes[k].color == boxes[k].color &&
              r.labels[k].text == labels[k].text
    ensures OthersUnchanged(r, boxes, labels, j)
  {
    if VerdictAt(boxes, labels, nb, nl, j).merge then
      var e := Merge(Entry(boxes[j], labels[j]), Entry(nb, nl));
      DedupResult(false, boxes[j := e.box], labels[j := e.tag])
    else DedupResult(false, boxes, labels)
  }

  /** The scan from entry `i` on, in registration order; the first duplicate wins. */
  function IsBoxNewFrom(boxes: seq<Box>, labels: seq<Label>, nb: Box, nl: Label, i: nat): (r: DedupResult)
    requires |boxes| == |labels| && i <= |boxes|
    ensures |r.boxes| == |boxes| && |r.labels| == |labels|
    ensures r.isNew ==> r.boxes == boxes && r.labels == labels
    decreases |boxes| - i
  {
    if i == |boxes| then DedupResult(true, boxes, labels)
    else if VerdictAt(boxes, labels, nb, nl, i).Duplicate? then AfterDuplicate(boxes, labels, nb, nl, i)
    else IsBoxNewFrom(boxes, labels, nb, nl, i + 1)
  }

  /** `IsBoxNew(newbox, newlabel)` together with the registry it leaves behind. */
  function IsBoxNew(boxes: seq<Box>, labels: seq<Label>, nb: Box, nl: Label): (r: DedupResult)
    requires |boxes| == |labels|
    ensures |r.boxes| == |boxes| && |r.labels| == |labels|
    ensures r.isNew ==> r.boxes == boxes && r.labels == labels
  {
    IsBoxNewFrom(boxes, labels, nb, nl, 0)
  }

  predicate IsFirstDuplicate(boxes: seq<Box>, labels: seq<Label>, nb: Box, nl: Label, j: nat)
    requires |boxes| == |labels|
  {
    && j < |boxes|
    && VerdictAt(boxes, labels, nb, nl, j).Duplicate?
    && forall k :: 0 <= k < j ==> VerdictAt(boxes, labels, nb, nl, k).Apart?
  }

  lemma {:induction false} IsBoxNewFromMeaning(boxes: seq<Box>, labels: seq<Label>, nb: Box, nl: Label, i: nat)
    requires |boxes| == |labels| && i <= |boxes|
    requires forall k :: 0 <= k < i ==> VerdictAt(boxes, labels, nb, nl, k).Apart?
    ensures var r := IsBoxNewFrom(boxes, labels, nb, nl, i);
            && (r.isNew <==> forall k :: 0 <= k < |boxes| ==> VerdictAt(boxes, labels, nb, nl, k).Apart?)
            && (r.isNew ==> r.boxes == boxes && r.labels == labels)
            && (!r.isNew ==> exists j :: IsFirstDuplicate(boxes, labels, nb, nl, j) &&
                                         r == AfterDuplicate(boxes, labels, nb, nl, j))
    decreases |boxes| - i
  {
    if i < |boxes| {
      if VerdictAt(boxes, labels, nb, nl, i).Duplicate? {
        assert IsFirstDuplicate(boxes, labels, nb, nl, i);
      } else {
        IsBoxNewFromMeaning(boxes, labels, nb, nl, i + 1);
      }
    }
  }

  /** The scan's meaning: new exactly when no entry is a duplicate, and then the registry is
      untouched; otherwise the first duplicate in registration order decides, and only it
      may have been merged. */
  lemma IsBoxNewMeaning(boxes: seq<Box>, labels: seq<Label>, nb: Box, nl: Label)
    requires |boxes| == |labels|
    ensures var r := IsBoxNew(boxes, labels, nb, nl);
            && (r.isNew <==> forall k :: 0 <= k < |boxes| ==> VerdictAt(boxes, labels, nb, nl, k).Apart?)
            && (r.isNew ==> r.boxes == boxes && r.labels == labels)
            && (!r.isNew ==> exists j :: IsFirstDuplicate(boxes, labels, nb, nl, j) &&
                                         r == AfterDuplicate(boxes, labels, nb, nl, j))
  {
    IsBoxNewFromMeaning(boxes, labels, nb, nl, 0);
  }

  /** The registry keeps its size and its names and texts; at most one entry moves. */
  lemma IsBoxNewChangesAtMostOne(boxes: seq<Box>, labels: seq<Label>, nb: Box, nl: Label)
    requires |boxes| == |labels|
    ensures var r := IsBoxNew(boxes, labels, nb, nl);
            && |r.boxes| == |boxes| && |r.labels| == |labels|
            && (forall k :: 0 <= k < |boxes| ==>
                  r.boxes[k].name == boxes[k].name && r.boxes[k].color == boxes[k].color &&
                  r.labels[k].text == labels[k].text)
            && exists j :: OthersUnchanged(r, boxes, labels, j)
  {
    IsBoxNewMeaning(boxes, labels, nb, nl);
    var r := IsBoxNew(boxes, labels, nb, nl);
    if r.isNew {
      assert r.boxes == boxes && r.labels == labels;
      assert OthersUnchanged(r, boxes, labels, 0);
    } else {
      var j :| IsFirstDuplicate(boxes, labels, nb, nl, j) && r == AfterDuplicate(boxes, labels, nb, nl, j);
    }
  }

  /** A candidate with positive width and height that sits exactly on a registered entry is
      a duplicate to be merged, and so never new: identical detections do not pile up. */
  lemma SamePlaceIsNotNew(boxes: seq<Box>, labels: seq<Label>, nb: Box, nl: Label, j: nat)
    requires |boxes| == |labels| && j < |boxes|
    requires boxes[j].position == nb.position && labels[j].position == nl.position
    requires nl.position.x < nb.position.x && nb.position.y < nl.position.y
    ensures VerdictAt(boxes, labels, nb, nl, j) == Duplicate(true)
    ensures !IsBoxNew(boxes, labels, nb, nl).isNew
  {
    var n := EdgesOf(nl.position, nb.position);
    var w, h := n.right - n.left, n.top - n.bottom;
    assert w > 0.0 && h > 0.0;
    assert XOverlap(n, n) == Finite(1.0) by { assert w / w == 1.0; }
    assert YOverlap(n, n) == Finite(1.0) by { assert h / h == 1.0; }
    assert VerdictAt(boxes, labels, nb, nl, j) == Duplicate(true);
    IsBoxNewMeaning(boxes, labels, nb, nl);
  }

  /** Entries that are apart are passed over. */
  lemma {:induction false} SkipApart(boxes: seq<Box>, labels: seq<Label>, nb: Box, nl: Label, i: nat, j: nat)
    requires |boxes| == |labels| && i <= j <= |boxes|
    requires forall k :: i <= k < j ==> VerdictAt(boxes, labels, nb, nl, k).Apart?
    ensures IsBoxNewFrom(boxes, labels, nb, nl, i) == IsBoxNewFrom(boxes, labels, nb, nl, j)
    decreases j - i
  {
    if i < j {
      SkipApart(boxes, labels, nb, nl, i + 1, j);
    }
  }

  /** A candidate that was new and has just been appended is found again as its own first
      duplicate and smoothed onto itself, which leaves the registry as it is. */
  lemma AppendedIsAbsorbed(boxes: seq<Box>, labels: seq<Label>, nb: Box, nl: Label)
    requires |boxes| == |labels| && IsBoxNew(boxes, labels, nb, nl).isNew
    requires nl.position.x < nb.position.x && nb.position.y < nl.position.y
    ensures IsBoxNew(boxes + [nb], labels + [nl], nb, nl) == DedupResult(false, boxes + [nb], labels + [nl])
  {
    IsBoxNewMeaning(boxes, labels, nb, nl);
    var bs, ls := boxes + [nb], labels + [nl];
    var j := |boxes|;
    assert forall k :: 0 <= k < j ==> VerdictAt(bs, ls, nb, nl, k) == VerdictAt(boxes, labels, nb, nl, k);
    SkipApart(bs, ls, nb, nl, 0, j);
    SamePlaceIsNotNew(bs, ls, nb, nl, j);
    SmoothFixpoint(nb.position);
    SmoothFixpoint(nb.scale);
    SmoothFixpoint(nl.position);
    assert Merge(Entry(nb, nl), Entry(nb, nl)) == Entry(nb, nl);
    assert bs[j := nb] == bs && ls[j := nl] == ls;
  }
}
