/** Tap-to-inspect (Scripts/NutritionalData.cs): a tap closes an open nutrition panel, or
    opens it for the first registered product the gaze cursor rests on. */
module Panel {
  import opened Common
  import opened Linear
  import opened Records
  import opened Numerals
  import opened Dedup
  import Catalog
  import Components

  /** What `OrganizeNutriPanel` writes into the panel: five values with their colour
      swatches, the GTIN and the product name. */
  datatype PanelView = PanelView(
    calories: Option<string>, caloriesColor: Color,
    sugar: Option<string>, sugarColor: Color,
    fat: Option<string>, fatColor: Color,
    protein: Option<string>, proteinColor: Color,
    fiber: Option<string>, fiberColor: Color,
    gtin: Option<string>,
    name: Option<string>)

  /** The panel showing product `p`. */
  function ViewOf(p: ProductDefinition): PanelView {
    PanelView(p.calories, Catalog.GetNutriColor(p.caloriesColor),
              p.sugar, Catalog.GetNutriColor(p.sugarColor),
              p.fat, Catalog.GetNutriColor(p.fatColor),
              p.protein, Catalog.GetNutriColor(p.proteinColor),
              p.fiber, Catalog.GetNutriColor(p.fiberColor),
              p.gtin, p.name)
  }

  /** The hit test, inclusive on all four sides: the label marks the upper left corner, the
      box the lower right. */
  predicate Contains(c: Vec2, lt: Vec3, rb: Vec3) {
    lt.x <= c.x <= rb.x && rb.y <= c.y <= lt.y
  }

  /** Entry `i` can be inspected from cursor `c`: it contains the cursor and its box name
      parses as a product id. */
  predicate Selectable(boxes: seq<Box>, labels: seq<Label>, c: Vec2, i: nat)
    requires i < |boxes| == |labels|
  {
    Contains(c, labels[i].position, boxes[i].position) && TryParseInt32(boxes[i].name).Some?
  }

  /** The search from entry `i` on: the first selectable entry, if any. */
  function SelectFrom(boxes: seq<Box>, labels: seq<Label>, c: Vec2, i: nat): (r: Option<nat>)
    requires |boxes| == |labels| && i <= |boxes|
    ensures r.Some? ==> i <= r.value < |boxes| && Selectable(boxes, labels, c, r.value)
    ensures forall k :: i <= k < (if r.Some? then r.value else |boxes|) ==> !Selectable(boxes, labels, c, k)
    decreases |boxes| - i
  {
    if i == |boxes| then None
    else if Selectable(boxes, labels, c, i) then Some(i)
    else SelectFrom(boxes, labels, c, i + 1)
  }

  /** The entry a tap selects: the first in registration order that contains the cursor
      and carries a parsable name. */
  function Select(boxes: seq<Box>, labels: seq<Label>, c: Vec2): (r: Option<nat>)
    requires |boxes| == |labels|
    ensures r.Some? ==> r.value < |boxes| && Selectable(boxes, labels, c, r.value)
    ensures r.Some? ==> forall k :: 0 <= k < r.value ==> !Selectable(boxes, labels, c, k)
    ensures r.None? <==> forall k :: 0 <= k < |boxes| ==> !Selectable(boxes, labels, c, k)
  {
    SelectFrom(boxes, labels, c, 0)
  }

  /** A box placed for a catalogued class carries that class's id as its name, so tapping
      it shows exactly the product it was labelled with. */
  lemma TapShowsPlacedProduct(classId: real)
    requires Catalog.Case(Catalog.Truncate(classId)).Some?
    ensures var name := Catalog.GetProductNutri(classId).id;
            && TryParseInt32(name).Some?
            && Catalog.GetProductNutri(TryParseInt32(name).value as real) == Catalog.GetProductNutri(classId)
  {
    Catalog.ProductIdRoundTrip(classId);
    var n := Catalog.Truncate(classId);
    assert Catalog.Truncate(n as real) == n;
  }

  class NutritionalPanel {
    const scene: Components.SceneOrganizer
    /** `gameObject.activeSelf`. */
    var active: bool
    var view: PanelView

    /** `Awake`: the panel starts hidden, showing whatever the scene gave it. */
    constructor(scene: Components.SceneOrganizer, initial: PanelView)
      ensures this.scene == scene && !active && view == initial
    {
      this.scene := scene;
      active := false;
      view := initial;
    }

    /** `OrganizeNutriPanel`, for cursor position `cursor`: show the first selectable entry's
        product and open the panel; with none, change nothing. */
    method OrganizeNutriPanel(cursor: Vec2)
      requires |scene.boxes| == |scene.labels|
      modifies this
      ensures match Select(scene.boxes, scene.labels, cursor)
              case None => active == old(active) && view == old(view)
              case Some(i) =>
                active && view == ViewOf(Catalog.GetProductNutri(TryParseInt32(scene.boxes[i].name).value as real))
    {
      var boxes, labels := scene.boxes, scene.labels;
      var i := 0;
      while i < |boxes|
        invariant 0 <= i <= |boxes|
        invariant active == old(active) && view == old(view)
        invariant SelectFrom(boxes, labels, cursor, i) == Select(boxes, labels, cursor)
      {
        var rb := boxes[i].position;
        var lt := labels[i].position;
        if cursor.x >= lt.x && cursor.x <= rb.x && cursor.y >= rb.y && cursor.y <= lt.y {
          var objId := TryParseInt32(boxes[i].name);
          if objId.Some? {
            view := ViewOf(Catalog.GetProductNutri(objId.value as real));
            active := true;
            assert Selectable(boxes, labels, cursor, i);
            break;
          }
        }
        i := i + 1;
      }
    }

    /** `TapHandler`: an open panel only closes; a closed one runs the search. */
    method TapHandler(cursor: Vec2)
      requires |scene.boxes| == |scene.labels|
      modifies this
      ensures old(active) ==> !active && view == old(view)
      ensures !old(active) ==>
                match Select(scene.boxes, scene.labels, cursor)
                case None => !active && view == old(view)
                case Some(i) =>
                  active && view == ViewOf(Catalog.GetProductNutri(TryParseInt32(scene.boxes[i].name).value as real))
    {
      if active {
        active := false;
      } else {
        OrganizeNutriPanel(cursor);
      }
    }
  }
}
