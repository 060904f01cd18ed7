/**
  The shared element collection as this client sees it, and the transactions the
  canvas writes to it. The synchronised store itself is an external service; here it
  is an id-to-record map, and one transaction is a sequence of operations applied
  to that map as a single atomic batch.
 */
module Store {

  datatype Option<+T> = None | Some(value: T)

  /** Opaque element identifier, produced by the store's id generator. */
  type Id = string

  /** The closed set of shapes a user can place. */
  datatype ShapeType = Rectangle | Circle | Triangle | Diamond | Star | Hexagon

  /** One placed shape. The store keys it by its id, so the id is not repeated here. */
  datatype Element = Element(
    kind: ShapeType,
    x: int,
    y: int,
    color: string,
    width: int,
    height: int,
    createdAt: int)

  /** The canonical collection: at most one record per id. */
  type Elements = map<Id, Element>

  /** One operation of a transaction; every operation names the id it touches.
      `Put` writes a whole record (the creating update), `SetPosition` writes only
      `x` and `y`, `Delete` removes the record. */
  datatype Op =
    | Put(id: Id, element: Element)
    | SetPosition(id: Id, x: int, y: int)
    | Delete(id: Id)

  type Tx = seq<Op>

  /** The effect of one operation on the collection. Updating the position of an
      id that is no longer present changes nothing. */
  function ApplyOp(m: Elements, op: Op): (r: Elements)
  {
    match op
    case Put(id, e) => m[id := e]
    case SetPosition(id, x, y) => if id in m then m[id := m[id].(x := x, y := y)] else m
    case Delete(id) => m - {id}
  }

  /** The effect of a whole transaction, its operations applied in order. */
  function ApplyTx(m: Elements, tx: Tx): (r: Elements)
    decreases |tx|
  {
    if tx == [] then m else ApplyTx(ApplyOp(m, tx[0]), tx[1..])
  }

  /** The ids a transaction names. */
  function Touched(tx: Tx): (ids: set<Id>)
    decreases |tx|
  {
    if tx == [] then {} else {tx[0].id} + Touched(tx[1..])
  }

  /** True iff a transaction consists of deletions only. */
  predicate AllDeletes(tx: Tx)
  {
    forall i :: 0 <= i < |tx| ==> tx[i].Delete?
  }

  /** True iff `m1` and `m2` hold the same record, or both none, under `k`. */
  predicate AgreeAt(m1: Elements, m2: Elements, k: Id)
  {
    (k in m1 <==> k in m2) && (k in m1 ==> m1[k] == m2[k])
  }

  /** A transaction leaves every id it does not name exactly as it was: writes that
      name different ids do not interfere. */
  lemma {:induction false} UntouchedUnchanged(m: Elements, tx: Tx, k: Id)
    requires k !in Touched(tx)
    ensures AgreeAt(ApplyTx(m, tx), m, k)
    decreases |tx|
  {
    if tx != [] {
      UntouchedUnchanged(ApplyOp(m, tx[0]), tx[1..], k);
    }
  }

  /** What a transaction does under one id depends only on the record under that id. */
  lemma {:induction false} LocalUnderEachId(m1: Elements, m2: Elements, tx: Tx, k: Id)
    requires AgreeAt(m1, m2, k)
    ensures AgreeAt(ApplyTx(m1, tx), ApplyTx(m2, tx), k)
    decreases |tx|
  {
    if tx != [] {
      LocalUnderEachId(ApplyOp(m1, tx[0]), ApplyOp(m2, tx[0]), tx[1..], k);
    }
  }

  /** Two transactions that name disjoint sets of ids give the same collection in
      either order. */
  lemma DisjointTransactionsCommute(m: Elements, a: Tx, b: Tx)
    requires Touched(a) !! Touched(b)
    ensures ApplyTx(ApplyTx(m, a), b) == ApplyTx(ApplyTx(m, b), a)
  {
    var ab, ba := ApplyTx(ApplyTx(m, a), b), ApplyTx(ApplyTx(m, b), a);
    forall k: Id ensures (k in ab <==> k in ba) && (k in ab ==> ab[k] == ba[k]) {
      if k in Touched(b) {
        UntouchedUnchanged(ApplyTx(m, b), a, k);
        UntouchedUnchanged(m, a, k);
        LocalUnderEachId(ApplyTx(m, a), m, b, k);
      } else {
        UntouchedUnchanged(ApplyTx(m, a), b, k);
        UntouchedUnchanged(m, b, k);
        LocalUnderEachId(ApplyTx(m, b), m, a, k);
      }
    }
    assert ab.Keys == ba.Keys;
  }

  /** A transaction of deletions removes exactly the ids it names and nothing else. */
  lemma {:induction false} DeletionsRemoveExactly(m: Elements, tx: Tx)
    requires AllDeletes(tx)
    ensures ApplyTx(m, tx) == m - Touched(tx)
    decreases |tx|
  {
    if tx != [] {
      assert tx[0].Delete?;
      assert AllDeletes(tx[1..]) by {
        forall i | 0 <= i < |tx[1..]| ensures tx[1..][i].Delete? {
          assert tx[1..][i] == tx[i + 1];
        }
      }
      DeletionsRemoveExactly(m - {tx[0].id}, tx[1..]);
      assert m - {tx[0].id} - Touched(tx[1..]) == m - Touched(tx);
    }
  }

  /** The creating write adds exactly one record, under its fresh id, and leaves
      every existing record as it was. */
  lemma CreateAddsOne(m: Elements, id: Id, e: Element)
    requires id !in m
    ensures var r := ApplyTx(m, [Put(id, e)]);
      && r.Keys == m.Keys + {id}
      && |r| == |m| + 1
      && r[id] == e
      && forall k :: k in m ==> r[k] == m[k]
  {
  }

  /** The move write changes only the `x` and `y` of the named element; its type,
      colour, size and creation time, and every other element, stay as they were.
      An id that is no longer present is left absent. */
  lemma MoveChangesOnlyPosition(m: Elements, id: Id, x: int, y: int)
    ensures var r := ApplyTx(m, [SetPosition(id, x, y)]);
      && r.Keys == m.Keys
      && (forall k :: k in m && k != id ==> r[k] == m[k])
      && (id in m ==>
            && r[id].x == x && r[id].y == y
            && r[id].kind == m[id].kind && r[id].color == m[id].color
            && r[id].width == m[id].width && r[id].height == m[id].height
            && r[id].createdAt == m[id].createdAt)
  {
  }
}
