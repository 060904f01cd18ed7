/**
  The sketch canvas: the interaction state (tool, colour, selection), the handlers
  that turn taps and drags into store writes, and the per-element drag overlay that
  is drawn on top of the canonical position until the store reports a new one.
 */
module Sketch {
  import opened Store

  /** The colour palette, in toolbar order; its first entry is the initial colour. */
  const Colors: seq<string> := ["#6366F1", "#EC4899", "#10B981", "#F59E0B", "#8B5CF6", "#EF4444"]

  /** Height of the band at the bottom of the screen that belongs to the toolbar. */
  const ToolbarBand: int := 120

  /** A tap creates a shape only above the toolbar band. */
  predicate InDrawingArea(y: int, screenHeight: int)
  {
    y < screenHeight - ToolbarBand
  }

  datatype Size = Size(width: int, height: int)

  /** The size a newly created shape of each kind gets. */
  function DefaultSize(tool: ShapeType): (size: Size)
  {
    match tool
    case Rectangle => Size(80, 60)
    case Star | Hexagon => Size(70, 70)
    case Circle | Triangle | Diamond => Size(60, 60)
  }

  /** The local drag displacement of one element (its translateX, translateY). */
  datatype Offset = Offset(dx: int, dy: int)

  const Zero: Offset := Offset(0, 0)

  datatype Point = Point(x: int, y: int)

  /** Where an element is drawn: its canonical position plus its overlay. */
  function RenderedAt(e: Element, o: Offset): (p: Point)
  {
    Point(e.x + o.dx, e.y + o.dy)
  }

  predicate SamePosition(a: Element, b: Element)
  {
    a.x == b.x && a.y == b.y
  }

  /** The overlays after the collection changes from `prev` to `next`: each element
      of `next` keeps its overlay only when it was already shown and its canonical
      position did not change; a newly shown element, or one whose `x` or `y`
      changed, has its overlay reset to zero. Elements no longer shown lose theirs. */
  function ResetOverlay(prev: Elements, next: Elements, overlay: map<Id, Offset>): (r: map<Id, Offset>)
    ensures r.Keys == next.Keys
    ensures forall id :: id in next && id !in prev ==> r[id] == Zero
    ensures forall id :: id in next && id in prev && !SamePosition(prev[id], next[id]) ==> r[id] == Zero
    ensures forall id :: id in next && id in prev && id in overlay && SamePosition(prev[id], next[id]) ==>
              r[id] == overlay[id]
  {
    map id | id in next ::
      if id in prev && id in overlay && SamePosition(prev[id], next[id]) then overlay[id] else Zero
  }

  /** Committing the move that a drag ends with leaves the dragged element where it
      was drawn, now with a zero overlay, and leaves every other element where it
      was drawn. `(tx, ty)` is the gesture's final cumulative translation, which the
      last update has already put into the overlay. */
  lemma CommitKeepsRenderedPosition(m: Elements, overlay: map<Id, Offset>, id: Id, tx: int, ty: int)
    requires id in m && id in overlay && overlay[id] == Offset(tx, ty)
    ensures var m' := ApplyTx(m, [SetPosition(id, m[id].x + tx, m[id].y + ty)]);
      var overlay' := ResetOverlay(m, m', overlay);
      && id in m' && overlay'[id] == Zero
      && RenderedAt(m'[id], overlay'[id]) == RenderedAt(m[id], overlay[id])
      && forall k :: k in m && k in overlay && k != id ==>
           k in m' && RenderedAt(m'[k], overlay'[k]) == RenderedAt(m[k], overlay[k])
  {
  }

  /** The deletion batch of "clear all": one deletion per id of `ids`, no id twice. */
  method DeleteAll(ids: set<Id>) returns (tx: Tx)
    ensures AllDeletes(tx) && Touched(tx) == ids && |tx| == |ids|
  {
    tx := [];
    var rest := ids;
    while rest != {}
      invariant rest <= ids
      invariant AllDeletes(tx)
      invariant Touched(tx) == ids - rest
      invariant |tx| + |rest| == |ids|
      decreases |rest|
    {
      var id :| id in rest;
      assert ([Delete(id)] + tx)[1..] == tx;
      tx := [Delete(id)] + tx;
      rest := rest - {id};
    }
  }

  /** The canvas screen. `elements` is the latest collection the store's live query
      delivered; `pending` holds the transactions this client has issued that that
      collection does not reflect yet, oldest first; `overlay` holds the drag
      displacement of every shown element. */
  class Canvas {
    var selectedTool: ShapeType
    var selectedColor: string
    var selectedElementId: Option<Id>
    var elements: Elements
    var pending: seq<Tx>
    var overlay: map<Id, Offset>

    /** Every shown element has exactly one overlay, and the colour is a palette entry. */
    ghost predicate Valid()
      reads this
    {
      overlay.Keys == elements.Keys && selectedColor in Colors
    }

    /** Where the element `id` is drawn. */
    function Rendered(id: Id): (p: Point)
      reads this
      requires Valid() && id in elements
    {
      RenderedAt(elements[id], overlay[id])
    }

    /** The screen before the first query result: circle tool, first palette
        colour, nothing selected, nothing shown and nothing written. */
    constructor ()
      ensures Valid()
      ensures selectedTool == Circle && selectedColor == Colors[0] && selectedElementId == None
      ensures elements == map[] && overlay == map[] && pending == []
    {
      selectedTool := Circle;
      selectedColor := "#6366F1";
      selectedElementId := None;
      elements := map[];
      pending := [];
      overlay := map[];
    }

    /** A tool button. */
    method ChooseTool(tool: ShapeType)
      requires Valid()
      modifies this
      ensures Valid()
      ensures selectedTool == tool
      ensures selectedColor == old(selectedColor) && selectedElementId == old(selectedElementId)
      ensures elements == old(elements) && pending == old(pending) && overlay == old(overlay)
    {
      selectedTool := tool;
    }

    /** A palette swatch; the palette offers only its own entries. */
    method ChooseColor(color: string)
      requires Valid() && color in Colors
      modifies this
      ensures Valid()
      ensures selectedColor == color
      ensures selectedTool == old(selectedTool) && selectedElementId == old(selectedElementId)
      ensures elements == old(elements) && pending == old(pending) && overlay == old(overlay)
    {
      selectedColor := color;
    }

    /** Creates a shape of the current tool and colour at `(x, y)` under the fresh
        id `newId`, stamped `now`, and selects it. The write is issued, not yet
        reflected in `elements`. */
    method AddElement(x: int, y: int, newId: Id, now: int)
      requires Valid() && newId !in elements
      requires forall t :: t in pending ==> newId !in Touched(t)
      modifies this
      ensures Valid()
      ensures pending == old(pending) + [[Put(newId, Element(old(selectedTool), x, y, old(selectedColor),
                DefaultSize(old(selectedTool)).width, DefaultSize(old(selectedTool)).height, now))]]
      ensures selectedElementId == Some(newId)
      ensures selectedTool == old(selectedTool) && selectedColor == old(selectedColor)
      ensures elements == old(elements) && overlay == old(overlay)
    {
      var width := 60;
      var height := 60;
      if selectedTool == Rectangle {
        width := 80;
        height := 60;
      } else if selectedTool == Star || selectedTool == Hexagon {
        width := 70;
        height := 70;
      }
      var record := Element(selectedTool, x, y, selectedColor, width, height, now);
      pending := pending + [[Put(newId, record)]];
      selectedElementId := Some(newId);
    }

    /** A tap on the canvas: above the toolbar band it creates a shape at the tap
        position; inside the band it changes nothing. */
    method Tap(x: int, y: int, screenHeight: int, newId: Id, now: int)
      requires Valid() && newId !in elements
      requires forall t :: t in pending ==> newId !in Touched(t)
      modifies this
      ensures Valid()
      ensures InDrawingArea(y, screenHeight) ==>
        && pending == old(pending) + [[Put(newId, Element(old(selectedTool), x, y, old(selectedColor),
             DefaultSize(old(selectedTool)).width, DefaultSize(old(selectedTool)).height, now))]]
        && selectedElementId == Some(newId)
      ensures !InDrawingArea(y, screenHeight) ==>
        pending == old(pending) && selectedElementId == old(selectedElementId)
      ensures selectedTool == old(selectedTool) && selectedColor == old(selectedColor)
      ensures elements == old(elements) && overlay == old(overlay)
    {
      if InDrawingArea(y, screenHeight) {
        AddElement(x, y, newId, now);
      }
    }

    /** Issues the write that moves `id` to `(x, y)`; nothing local changes. */
    method MoveElement(id: Id, x: int, y: int)
      requires Valid()
      modifies this
      ensures Valid()
      ensures pending == old(pending) + [[SetPosition(id, x, y)]]
      ensures selectedTool == old(selectedTool) && selectedColor == old(selectedColor)
      ensures selectedElementId == old(selectedElementId)
      ensures elements == old(elements) && overlay == old(overlay)
    {
      pending := pending + [[SetPosition(id, x, y)]];
    }

    method SelectElement(id: Id)
      requires Valid()
      modifies this
      ensures Valid()
      ensures selectedElementId == Some(id)
      ensures selectedTool == old(selectedTool) && selectedColor == old(selectedColor)
      ensures elements == old(elements) && pending == old(pending) && overlay == old(overlay)
    {
      selectedElementId := Some(id);
    }

    /** "Clear all": when anything is shown, issues one batch deleting exactly the
        shown ids; in every case drops the selection. */
    method ClearCanvas()
      requires Valid()
      modifies this
      ensures Valid()
      ensures old(elements) == map[] ==> pending == old(pending)
      ensures old(elements) != map[] ==>
        && |pending| == |old(pending)| + 1
        && pending[..|old(pending)|] == old(pending)
        && AllDeletes(pending[|old(pending)|])
        && Touched(pending[|old(pending)|]) == old(elements).Keys
        && |pending[|old(pending)|]| == |old(elements)|
      ensures selectedElementId == None
      ensures selectedTool == old(selectedTool) && selectedColor == old(selectedColor)
      ensures elements == old(elements) && overlay == old(overlay)
    {
      if |elements| > 0 {
        var batch := DeleteAll(elements.Keys);
        pending := pending + [batch];
      }
      selectedElementId := None;
    }

    /** A drag on the shown element `id` begins: the element becomes selected. */
    method PanStart(id: Id)
      requires Valid() && id in elements
      modifies this
      ensures Valid()
      ensures selectedElementId == Some(id)
      ensures selectedTool == old(selectedTool) && selectedColor == old(selectedColor)
      ensures elements == old(elements) && pending == old(pending) && overlay == old(overlay)
    {
      SelectElement(id);
    }

    /** The drag on `id` has moved by `(tx, ty)` since it began: the overlay takes
        that translation, so the element is drawn at its canonical position plus it;
        nothing is written. */
    method PanUpdate(id: Id, tx: int, ty: int)
      requires Valid() && id in elements
      modifies this
      ensures Valid()
      ensures overlay == old(overlay)[id := Offset(tx, ty)]
      ensures Rendered(id) == Point(elements[id].x + tx, elements[id].y + ty)
      ensures selectedTool == old(selectedTool) && selectedColor == old(selectedColor)
      ensures selectedElementId == old(selectedElementId)
      ensures elements == old(elements) && pending == old(pending)
    {
      overlay := overlay[id := Offset(tx, ty)];
    }

    /** The drag on `id` ends with translation `(tx, ty)`: exactly one move is issued,
        to the canonical position plus the translation; the overlay stays. */
    method PanEnd(id: Id, tx: int, ty: int)
      requires Valid() && id in elements
      modifies this
      ensures Valid()
      ensures pending == old(pending) + [[SetPosition(id, old(elements)[id].x + tx, old(elements)[id].y + ty)]]
      ensures selectedTool == old(selectedTool) && selectedColor == old(selectedColor)
      ensures selectedElementId == old(selectedElementId)
      ensures elements == old(elements) && overlay == old(overlay)
    {
      MoveElement(id, elements[id].x + tx, elements[id].y + ty);
    }

    /** The live query delivers the collection `next`; every shown element whose
        canonical position changed (or that is newly shown) has its overlay reset. */
    method ReceiveSnapshot(next: Elements)
      requires Valid()
      modifies this
      ensures Valid()
      ensures elements == next
      ensures overlay == ResetOverlay(old(elements), next, old(overlay))
      ensures selectedTool == old(selectedTool) && selectedColor == old(selectedColor)
      ensures selectedElementId == old(selectedElementId) && pending == old(pending)
    {
      overlay := ResetOverlay(elements, next, overlay);
      elements := next;
    }

    /** The store applies this client's oldest pending transaction and the live
        query reports the result. */
    method CommitNext()
      requires Valid()
      modifies this
      ensures Valid()
      ensures old(pending) == [] ==> elements == old(elements) && overlay == old(overlay) && pending == []
      ensures old(pending) != [] ==>
        && pending == old(pending)[1..]
        && elements == ApplyTx(old(elements), old(pending)[0])
        && overlay == ResetOverlay(old(elements), elements, old(overlay))
      ensures selectedTool == old(selectedTool) && selectedColor == old(selectedColor)
      ensures selectedElementId == old(selectedElementId)
    {
      if pending != [] {
        var next := ApplyTx(elements, pending[0]);
        pending := pending[1..];
        ReceiveSnapshot(next);
      }
    }
  }

  /** A whole drag of the shown element `id` by `(tx, ty)`, followed by the commit of
      the move it issues: the element ends selected, canonically at its old position
      plus the translation, with a zero overlay, so it is drawn where the drag left it. */
  method DragThenCommit(c: Canvas, id: Id, tx: int, ty: int)
    requires c.Valid() && id in c.elements && c.pending == []
    modifies c
    ensures c.Valid() && id in c.elements && c.pending == []
    ensures c.selectedElementId == Some(id)
    ensures c.elements[id] == old(c.elements)[id].(x := old(c.elements)[id].x + tx, y := old(c.elements)[id].y + ty)
    ensures c.overlay[id] == Zero
    ensures c.Rendered(id) == Point(old(c.elements)[id].x + tx, old(c.elements)[id].y + ty)
  {
    ghost var m := c.elements;
    c.PanStart(id);
    c.PanUpdate(id, tx, ty);
    ghost var ov := c.overlay;
    assert c.elements == m && ov[id] == Offset(tx, ty) && c.selectedElementId == Some(id);
    ghost var move := [SetPosition(id, m[id].x + tx, m[id].y + ty)];
    c.PanEnd(id, tx, ty);
    assert c.pending == [move];
    c.CommitNext();
    assert c.elements == ApplyTx(m, move) && c.overlay == ResetOverlay(m, c.elements, ov);
    CommitKeepsRenderedPosition(m, ov, id, tx, ty);
    MoveChangesOnlyPosition(m, id, m[id].x + tx, m[id].y + ty);
  }
}
