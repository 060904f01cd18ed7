# Sketch canvas: interaction and synchronisation model

A model of the interaction core of a shared sketch canvas (a React Native screen,
`components/SketchCanvas.tsx`). Users pick a shape tool and a palette colour, tap the
canvas to place a shape, drag shapes to move them, and clear the canvas. Every
change goes through a synchronised element store; the screen shows the store's latest
collection, and while a shape is dragged it is drawn displaced by a local overlay
that is reset when the store reports a new canonical position for it.

Two modules:

- `Store` (`store.dfy`): an element record (`Element`: shape type, `x`, `y`, colour,
  width, height, creation time), the canonical collection as a map from id to record,
  and a transaction as a sequence of operations (`Put`, `SetPosition`, `Delete`)
  applied to that map as one atomic batch (`ApplyTx`). Lemmas say what each kind of
  write the canvas issues does to the collection.
- `Sketch` (`sketch.dfy`): the palette and its first entry, the toolbar band that
  gates taps, the size defaults per shape, the rendered-position sum
  (`RenderedAt`: canonical position plus overlay), the overlay reset rule
  (`ResetOverlay`), the deletion batch of "clear all" (`DeleteAll`), and the class
  `Canvas` whose fields are the screen's state: selected tool, colour and element,
  the latest collection (`elements`), the transactions issued but not yet reflected
  in it (`pending`), and one overlay per shown element (`overlay`). Its methods are
  the screen's handlers and the drag handlers of each shown shape.

Store writes are asynchronous in the system: a handler only issues a transaction
(appends it to `pending`), and the collection changes later, when the live query
reports it. `CommitNext` is that moment for this client's oldest write;
`ReceiveSnapshot` is an arbitrary new collection (for example one changed by another
user). Both run the position-reset effect of every shown shape. The store's id
generator, the clock and the screen height are parameters (`newId`, `now`,
`screenHeight`); the id generator's promise is the precondition that `newId` is neither
shown in `elements` nor named by any transaction still in `pending`.

## Model

| member | source | states |
|---|---|---|
| `Sketch.Canvas.constructor` | components/SketchCanvas.tsx:195-207 | initial state: circle tool, colour `#6366F1` (the first palette entry), no selection, empty collection, no overlays, no writes |
| `Sketch.Canvas.ChooseTool` | components/SketchCanvas.tsx:311-318 | only the selected tool changes, to the chosen one (so choosing the same tool twice is the same as once) |
| `Sketch.Canvas.ChooseColor` | components/SketchCanvas.tsx:341-350 | only the selected colour changes, to the chosen palette entry; the colour stays a palette entry |
| `Sketch.Canvas.AddElement` | components/SketchCanvas.tsx:209-235 | issues exactly one write creating, under the fresh id, a record with the current tool and colour, the tap position, the tool's default size (rectangle 80×60, star and hexagon 70×70, the others 60×60) and the given time; then selects the new id; tool, colour, collection and overlays unchanged |
| `Sketch.Canvas.Tap` | components/SketchCanvas.tsx:257-262 | a tap with `y < screenHeight - 120` does exactly what `AddElement` at the tap position does; a tap in the toolbar band issues nothing and keeps the selection |
| `Sketch.Canvas.MoveElement` | components/SketchCanvas.tsx:237-239 | issues exactly one write, setting `x`/`y` of that id; selection, tool, colour and local state unchanged |
| `Sketch.Canvas.SelectElement` | components/SketchCanvas.tsx:241-243 | the selection becomes the given id and nothing else changes |
| `Sketch.Canvas.ClearCanvas` | components/SketchCanvas.tsx:245-255 | with an empty collection no write is issued; otherwise exactly one batch deleting exactly the ids shown at the call, each once; the selection is dropped in both cases |
| `Sketch.DeleteAll` | components/SketchCanvas.tsx:247-252 | the batch built for "clear all" holds only deletions, one per shown id, each id once |
| `Sketch.Canvas.PanStart` | components/SketchCanvas.tsx:63-67 | starting a drag on a shown element selects it and writes nothing |
| `Sketch.Canvas.PanUpdate` | components/SketchCanvas.tsx:68-85 | the element's overlay becomes the gesture's cumulative translation, so it is drawn at `x + tx`, `y + ty`; no write is issued and no other overlay changes |
| `Sketch.Canvas.PanEnd` | components/SketchCanvas.tsx:72-77 | ending a drag issues exactly one move, to the canonical position plus the final translation, and leaves the overlay in place |
| `Sketch.Canvas.ReceiveSnapshot` | components/SketchCanvas.tsx:57-61 | a new collection from the live query replaces the shown one and the overlays follow the reset rule |
| `Sketch.Canvas.CommitNext` | components/SketchCanvas.tsx:195-199 | the oldest pending write is applied atomically to the shown collection and removed from `pending`, and the overlays follow the reset rule; with nothing pending nothing changes |
| `Sketch.ResetOverlay` | components/SketchCanvas.tsx:57-61 | one overlay per shown element; it is zero for a newly shown element and for one whose `x` or `y` changed, and kept otherwise |
| `Sketch.CommitKeepsRenderedPosition` | components/SketchCanvas.tsx:57-85 | when the move issued at drag end is applied, the dragged element is drawn where it was before the commit, now with a zero overlay, and every other element is drawn where it was |
| `Sketch.DragThenCommit` | components/SketchCanvas.tsx:57-85 | a whole drag by `(tx, ty)` followed by the commit of its move leaves the element selected, canonically at its old position plus the translation, with a zero overlay, and drawn at that point |
| `Store.CreateAddsOne` | components/SketchCanvas.tsx:222-232 | the creating write adds exactly one record, under the fresh id, and no existing record changes |
| `Store.MoveChangesOnlyPosition` | components/SketchCanvas.tsx:237-239 | the move write changes only `x` and `y` of that id (type, colour, size, creation time and every other record stay); a missing id stays missing |
| `Store.DeletionsRemoveExactly` | components/SketchCanvas.tsx:245-255 | applied to any collection, including one another user has added to since, a deletion batch removes exactly the ids it names and nothing else |
| `Store.UntouchedUnchanged` | components/SketchCanvas.tsx:222-252 | a transaction leaves every id it does not name as it was, so writes naming different ids do not interfere |
| `Store.LocalUnderEachId` | components/SketchCanvas.tsx:222-252 | what a transaction does under one id depends only on the record under that id |
| `Store.DisjointTransactionsCommute` | components/SketchCanvas.tsx:222-252 | two transactions naming disjoint ids give the same collection in either order, so a move of one shape and a creation or move of another never conflict |

## Left out

- The scale spring of a dragged shape (`withSpring`): visual feedback without state that matters here.
- Shape drawing, tool icons and the style sheet: presentational.
- Store configuration and start-up (`db.ts`): the store is the abstract map with atomic batches described above; `db.ts` is not part of this model.
- Positions and sizes are integers; the source's numbers are floating point, and no rounding matters to the handlers.
- `width`/`height` are optional in the source's record type; the model's record always has them, as this client always writes them. Records without them, written by other clients, are not modelled.
- The live query returns an array whose order is the drawing order; the model's collection is a map, so stacking order is not modelled.
- `Store.MoveChangesOnlyPosition`: an update of a position for an id that is no longer in the store is modelled as changing nothing (so `Sketch.Canvas.MoveElement`'s write to a deleted shape is a no-op). The source issues the same `update` call for creation and for moves, so the real store may instead create a partial record; that is the external store's behaviour and is not modelled.
- `Sketch.Canvas.ReceiveSnapshot`: the reset effect is modelled as running together with the arrival of the new collection. In the source it runs after the re-render, so for that moment the element is drawn at the new position plus the old overlay; that intermediate frame is not modelled.
- Other users' writes appear only as arbitrary snapshots (`ReceiveSnapshot`); ordering between clients, eventual convergence and last-write-wins are not modelled.
- A drag that is interrupted: the source has no cancel handler, so the last overlay stays until the canonical position changes; the model has no cancel operation either.
- Deleting a selected element by another user does not clear the selection in the source, and the model keeps that: there is no invariant that the selection names a shown element.
- `Sketch.Canvas.ChooseColor` requires a palette entry: the palette's buttons are its only callers.
