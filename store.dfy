/**
 * The hosted row store, as an in-memory object: one sequence of rows per
 * relational table and a counter that hands out fresh row ids. Every call
 * takes a `fails` flag that stands for the store answering with an error; a
 * call that fails changes nothing. An `update(...).eq('id', x)` changes every
 * row whose id is `x` and succeeds (changing nothing) when there is none; a
 * `delete().eq('id', x)` drops every such row.
 */
module Store {
  import opened Types

  /** The patches the application sends to the `orders` table. */
  datatype OrderPatch =
    | StatusPatch(status: OrderStatus, updatedAt: Option<Time>)
    | ItemsPatch(items: seq<StoredLine>, total: int)

  function ApplyOrderPatch(row: OrderRow, patch: OrderPatch): (r: OrderRow)
    ensures r.id == row.id && r.table_id == row.table_id && r.tableId == row.tableId && r.createdAt == row.createdAt
  {
    match patch
    case StatusPatch(status, updatedAt) =>
      row.(status := status, updatedAt := if updatedAt.Some? then updatedAt else row.updatedAt)
    case ItemsPatch(items, total) =>
      row.(items := items, total := total)
  }

  /** `update(patch).eq('id', id)` on `orders`. */
  function PatchOrders(rows: seq<OrderRow>, id: Id, patch: OrderPatch): (r: seq<OrderRow>)
    ensures |r| == |rows|
    ensures forall i :: 0 <= i < |rows| ==>
      r[i] == if rows[i].id == id then ApplyOrderPatch(rows[i], patch) else rows[i]
  {
    if rows == [] then []
    else [if rows[0].id == id then ApplyOrderPatch(rows[0], patch) else rows[0]] + PatchOrders(rows[1..], id, patch)
  }

  /** `update({ status }).eq('id', id)` on `tables`. */
  function SetTableStatus(rows: seq<TableRow>, id: int, status: TableStatus): (r: seq<TableRow>)
    ensures |r| == |rows|
    ensures forall i :: 0 <= i < |rows| ==>
      r[i] == if rows[i].id == id then rows[i].(status := status) else rows[i]
  {
    if rows == [] then []
    else [if rows[0].id == id then rows[0].(status := status) else rows[0]] + SetTableStatus(rows[1..], id, status)
  }

  /** `update({ status }).eq('id', id)` on `reservations`. */
  function SetReservationStatus(rows: seq<ReservationRow>, id: Id, status: ReservationStatus): (r: seq<ReservationRow>)
    ensures |r| == |rows|
    ensures forall i :: 0 <= i < |rows| ==>
      r[i] == if rows[i].id == id then rows[i].(status := status) else rows[i]
  {
    if rows == [] then []
    else [if rows[0].id == id then rows[0].(status := status) else rows[0]] + SetReservationStatus(rows[1..], id, status)
  }

  /** `delete().eq('id', id)` on `reservations`. */
  function DeleteReservationRows(rows: seq<ReservationRow>, id: Id): (r: seq<ReservationRow>)
    ensures forall x :: x in r <==> x in rows && x.id != id
    ensures multiset(r) <= multiset(rows)
    ensures (forall i :: 0 <= i < |rows| ==> rows[i].id != id) ==> r == rows
  {
    if rows == [] then []
    else
      assert rows == [rows[0]] + rows[1..];
      if rows[0].id == id then DeleteReservationRows(rows[1..], id)
      else [rows[0]] + DeleteReservationRows(rows[1..], id)
  }

  class Store {
    var tables: seq<TableRow>
    var menu: seq<MenuItem>
    var orders: seq<OrderRow>
    var transactions: seq<TransactionRow>
    var cashouts: seq<CashOutRow>
    var reservations: seq<ReservationRow>
    var nextId: Id

    /**
     * The id counter is positive and ahead of every id it handed out, so the
     * next id is one no stored order, transaction, cash-out or reservation
     * has.
     */
    ghost predicate Valid()
      reads this
    {
      nextId >= 1 &&
      (forall r :: r in orders ==> r.id < nextId) &&
      (forall r :: r in transactions ==> r.id < nextId) &&
      (forall r :: r in cashouts ==> r.id < nextId) &&
      (forall r :: r in reservations ==> r.id < nextId)
    }

    constructor (tables: seq<TableRow>, menu: seq<MenuItem>)
      ensures this.tables == tables && this.menu == menu
      ensures orders == [] && transactions == [] && cashouts == [] && reservations == []
      ensures nextId == 1 && Valid()
    {
      this.tables := tables;
      this.menu := menu;
      orders, transactions, cashouts, reservations := [], [], [], [];
      nextId := 1;
    }

    /** `insert([row]).select().single()` on `orders`: the stored row, with a fresh id. */
    method InsertOrder(row: OrderRow, fails: bool) returns (inserted: Option<OrderRow>)
      requires Valid()
      modifies this`orders, this`nextId
      ensures Valid()
      ensures inserted == if fails then None else Some(row.(id := old(nextId)))
      ensures inserted.Some? ==> inserted.value.id >= 1 && forall r :: r in old(orders) ==> r.id != inserted.value.id
      ensures orders == if fails then old(orders) else old(orders) + [inserted.value]
      ensures nextId == if fails then old(nextId) else old(nextId) + 1
    {
      if fails {
        return None;
      }
      inserted := Some(row.(id := nextId));
      orders := orders + [inserted.value];
      nextId := nextId + 1;
    }

    method UpdateOrders(id: Id, patch: OrderPatch, fails: bool) returns (ok: bool)
      requires Valid()
      modifies this`orders
      ensures Valid()
      ensures ok == !fails
      ensures orders == if ok then PatchOrders(old(orders), id, patch) else old(orders)
    {
      ok := !fails;
      if ok {
        orders := PatchOrders(orders, id, patch);
      }
    }

    /**
     * `update({ status }).eq('id', id)` on `tables`. A null id goes out as
     * the text `null`, which the numeric id column refuses, so that call
     * fails too.
     */
    method UpdateTables(id: Option<int>, status: TableStatus, fails: bool) returns (ok: bool)
      modifies this`tables
      ensures ok == (!fails && id.Some?)
      ensures tables == if ok then SetTableStatus(old(tables), id.value, status) else old(tables)
    {
      ok := !fails && id.Some?;
      if ok {
        tables := SetTableStatus(tables, id.value, status);
      }
    }

    method InsertTransaction(row: TransactionRow, fails: bool) returns (inserted: Option<TransactionRow>)
      requires Valid()
      modifies this`transactions, this`nextId
      ensures Valid()
      ensures inserted == if fails then None else Some(row.(id := old(nextId)))
      ensures inserted.Some? ==> inserted.value.id >= 1 && forall r :: r in old(transactions) ==> r.id != inserted.value.id
      ensures transactions == if fails then old(transactions) else old(transactions) + [inserted.value]
      ensures nextId == if fails then old(nextId) else old(nextId) + 1
    {
      if fails {
        return None;
      }
      inserted := Some(row.(id := nextId));
      transactions := transactions + [inserted.value];
      nextId := nextId + 1;
    }

    method InsertCashOut(row: CashOutRow, fails: bool) returns (inserted: Option<CashOutRow>)
      requires Valid()
      modifies this`cashouts, this`nextId
      ensures Valid()
      ensures inserted == if fails then None else Some(row.(id := old(nextId)))
      ensures inserted.Some? ==> inserted.value.id >= 1 && forall r :: r in old(cashouts) ==> r.id != inserted.value.id
      ensures cashouts == if fails then old(cashouts) else old(cashouts) + [inserted.value]
      ensures nextId == if fails then old(nextId) else old(nextId) + 1
    {
      if fails {
        return None;
      }
      inserted := Some(row.(id := nextId));
      cashouts := cashouts + [inserted.value];
      nextId := nextId + 1;
    }

    method InsertReservation(row: ReservationRow, fails: bool) returns (inserted: Option<ReservationRow>)
      requires Valid()
      modifies this`reservations, this`nextId
      ensures Valid()
      ensures inserted == if fails then None else Some(row.(id := old(nextId)))
      ensures inserted.Some? ==> inserted.value.id >= 1 && forall r :: r in old(reservations) ==> r.id != inserted.value.id
      ensures reservations == if fails then old(reservations) else old(reservations) + [inserted.value]
      ensures nextId == if fails then old(nextId) else old(nextId) + 1
    {
      if fails {
        return None;
      }
      inserted := Some(row.(id := nextId));
      reservations := reservations + [inserted.value];
      nextId := nextId + 1;
    }

    method UpdateReservations(id: Id, status: ReservationStatus, fails: bool) returns (ok: bool)
      requires Valid()
      modifies this`reservations
      ensures Valid()
      ensures ok == !fails
      ensures reservations == if ok then SetReservationStatus(old(reservations), id, status) else old(reservations)
    {
      ok := !fails;
      if ok {
        reservations := SetReservationStatus(reservations, id, status);
      }
    }

    method DeleteReservations(id: Id, fails: bool) returns (ok: bool)
      requires Valid()
      modifies this`reservations
      ensures Valid()
      ensures ok == !fails
      ensures reservations == if ok then DeleteReservationRows(old(reservations), id) else old(reservations)
    {
      ok := !fails;
      if ok {
        reservations := DeleteReservationRows(reservations, id);
      }
    }
  }
}
