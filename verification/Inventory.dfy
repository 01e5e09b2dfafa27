/**
 Stock rows with optimistic locking: internal/domain/inventory.go and
 internal/inventory/repository_pg.go.  Each SQL statement is one function on the table.
 */
module Inventory {
  import opened Basics

  datatype Row = Row(quantity: int, reserved: int, version: int) {
    function Available(): int {
      quantity - reserved
    }
  }

  type Table = map<ProductId, Row>

  datatype StockError = NotFound | Insufficient | LockConflict | StatementFailed

  /** The upsert of SetStock; the CHECK on quantity refuses a negative one. */
  function Restocked(t: Table, p: ProductId, q: int): Table
    requires q >= 0
  {
    t[p := if p in t then t[p].(quantity := q, version := t[p].version + 1) else Row(q, 0, 1)]
  }

  /** The WHERE clause of the reservation. */
  predicate Matches(t: Table, p: ProductId, q: int, v: int) {
    p in t && t[p].version == v && t[p].Available() >= q
  }

  /** The CHECK on quantity would refuse the reservation's new value. */
  predicate Violates(t: Table, p: ProductId, q: int)
    requires p in t
  {
    t[p].quantity - q < 0
  }

  /** A row after a reservation of q. */
  function LessBy(row: Row, q: int): Row {
    Row(row.quantity - q, row.reserved, row.version + 1)
  }

  function Taken(t: Table, p: ProductId, q: int): Table
    requires p in t
  {
    t[p := LessBy(t[p], q)]
  }

  /** The error a reservation reports when its UPDATE matched no row, from a second read of the table. */
  function Diagnosis(t: Table, p: ProductId, q: int, v: int): StockError {
    if p !in t then NotFound
    else if t[p].Available() < q then Insufficient
    else LockConflict
  }

  /** Nothing but SetStock(0) writes the reserved column, and quantities never go below zero. */
  predicate Sound(t: Table) {
    forall p :: p in t ==> t[p].reserved == 0 && t[p].quantity >= 0
  }

  // ---------- reservations replayed one at a time ----------

  /**
   The reservations `qs` of one product run alone, each reading the row, checking availability and
   updating it with the version just read.  None if one of them finds too little stock.
   */
  function Replayed(row: Row, qs: seq<int>): Option<Row>
    decreases qs
  {
    if qs == [] then Some(row)
    else if row.Available() < qs[0] then None
    else Replayed(LessBy(row, qs[0]), qs[1..])
  }

  /** Replay has a closed form, which does not depend on the order of the reservations. */
  lemma {:induction false} ReplayedSum(row: Row, qs: seq<int>)
    requires forall i :: 0 <= i < |qs| ==> qs[i] >= 0
    ensures Replayed(row, qs) ==
            if qs == [] || Sum(qs) <= row.Available()
            then Some(Row(row.quantity - Sum(qs), row.reserved, row.version + |qs|))
            else None
    decreases qs
  {
    if qs != [] {
      SumNonNegative(qs[1..]);
      ReplayedSum(LessBy(row, qs[0]), qs[1..]);
    }
  }

  lemma ReplayedPermutation(row: Row, qs: seq<int>, rs: seq<int>)
    requires forall i :: 0 <= i < |qs| ==> qs[i] >= 0
    requires multiset(qs) == multiset(rs)
    ensures Replayed(row, qs) == Replayed(row, rs)
  {
    SumPermutation(qs, rs);
    forall i | 0 <= i < |rs| ensures rs[i] >= 0 {
      assert rs[i] in multiset(qs);
    }
    ReplayedSum(row, qs);
    ReplayedSum(row, rs);
  }
}
