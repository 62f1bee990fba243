/**
 * The reservation service (project/src/lib/reservationService.ts): creating,
 * listing, re-statusing and deleting reservations, listing tables, and turning
 * a reservation into an empty pending order on its table. Each store error is
 * thrown at once, so a later step never runs after an earlier one failed, and
 * nothing an earlier step wrote is undone.
 */
module ReservationService {
  import opened Types
  import opened Sorting
  import opened Store

  /** `createReservation`: one row stamped with `created_at`; no check against other reservations. */
  method CreateReservation(store: Store, customerName: string, contactInfo: string, tableId: Option<int>,
                           reservationTime: Time, status: ReservationStatus, now: Time, fails: bool)
    returns (created: Option<ReservationRow>)
    requires store.Valid()
    modifies store`reservations, store`nextId
    ensures store.Valid()
    ensures created == if fails then None
      else Some(ReservationRow(old(store.nextId), customerName, contactInfo, tableId, reservationTime, status, now))
    ensures store.reservations == if fails then old(store.reservations) else old(store.reservations) + [created.value]
    ensures store.nextId == if fails then old(store.nextId) else old(store.nextId) + 1
  {
    var row := ReservationRow(0, customerName, contactInfo, tableId, reservationTime, status, now);
    created := store.InsertReservation(row, fails);
  }

  predicate EarlierFirst(a: ReservationRow, b: ReservationRow)
  {
    a.reservation_time <= b.reservation_time
  }

  predicate LowerNumberFirst(a: TableRow, b: TableRow)
  {
    a.table_number <= b.table_number
  }

  /** `getReservations`: every reservation, earliest `reservation_time` first. */
  function GetReservations(rows: seq<ReservationRow>): (r: seq<ReservationRow>)
    ensures multiset(r) == multiset(rows)
    ensures forall i :: 0 < i < |r| ==> r[i - 1].reservation_time <= r[i].reservation_time
  {
    assert Total(EarlierFirst);
    var sorted := SortBy(rows, EarlierFirst);
    assert forall i :: 0 < i < |sorted| ==> EarlierFirst(sorted[i - 1], sorted[i]);
    sorted
  }

  /** `getTables`: every table, lowest `table_number` first. */
  function GetTables(rows: seq<TableRow>): (r: seq<TableRow>)
    ensures multiset(r) == multiset(rows)
    ensures forall i :: 0 < i < |r| ==> r[i - 1].table_number <= r[i].table_number
  {
    assert Total(LowerNumberFirst);
    var sorted := SortBy(rows, LowerNumberFirst);
    assert forall i :: 0 < i < |sorted| ==> LowerNumberFirst(sorted[i - 1], sorted[i]);
    sorted
  }

  /** `updateReservationStatus`: the status of the reservation with the id, whatever it was. */
  method UpdateReservationStatus(store: Store, reservationId: Id, status: ReservationStatus, fails: bool)
    returns (ok: bool)
    requires store.Valid()
    modifies store`reservations
    ensures store.Valid()
    ensures ok == !fails
    ensures store.reservations ==
      if ok then SetReservationStatus(old(store.reservations), reservationId, status) else old(store.reservations)
  {
    ok := store.UpdateReservations(reservationId, status, fails);
  }

  /**
   * Any status may follow any other: the matching reservation ends with the
   * new status, and every other reservation and every other field is kept.
   */
  lemma StatusChangeAnyToAny(rows: seq<ReservationRow>, reservationId: Id, status: ReservationStatus)
    ensures var r := SetReservationStatus(rows, reservationId, status);
      forall i :: 0 <= i < |rows| ==>
        (rows[i].id == reservationId ==> r[i].status == status && r[i].(status := rows[i].status) == rows[i]) &&
        (rows[i].id != reservationId ==> r[i] == rows[i])
  {
  }

  /** `deleteReservation`: the reservations with the id are gone and no other is touched. */
  method DeleteReservation(store: Store, reservationId: Id, fails: bool) returns (ok: bool)
    requires store.Valid()
    modifies store`reservations
    ensures store.Valid()
    ensures ok == !fails
    ensures store.reservations ==
      if ok then DeleteReservationRows(old(store.reservations), reservationId) else old(store.reservations)
  {
    ok := store.DeleteReservations(reservationId, fails);
  }

  /** Deleting keeps every other reservation in its place, and drops one row per match. */
  lemma {:induction false} DeleteKeepsOthers(rows: seq<ReservationRow>, reservationId: Id)
    ensures DeleteReservationRows(rows, reservationId) ==
      RowsOtherThan(rows, reservationId)
    ensures |DeleteReservationRows(rows, reservationId)| == |rows| - Matches(rows, reservationId)
  {
    if rows != [] {
      DeleteKeepsOthers(rows[1..], reservationId);
    }
  }

  /** The rows without the id, in their order (the reference filter). */
  function RowsOtherThan(rows: seq<ReservationRow>, reservationId: Id): seq<ReservationRow>
  {
    if rows == [] then []
    else (if rows[0].id == reservationId then [] else [rows[0]]) + RowsOtherThan(rows[1..], reservationId)
  }

  function Matches(rows: seq<ReservationRow>, reservationId: Id): (n: nat)
    ensures n <= |rows|
  {
    if rows == [] then 0 else (if rows[0].id == reservationId then 1 else 0) + Matches(rows[1..], reservationId)
  }

  /** What `.select(...).eq('id', id).single()` yields: the row when exactly one matches. */
  function Single(rows: seq<ReservationRow>, reservationId: Id): (r: Option<ReservationRow>)
    ensures r.Some? <==> Matches(rows, reservationId) == 1
    ensures r.Some? ==> r.value in rows && r.value.id == reservationId
  {
    if Matches(rows, reservationId) != 1 then None else Some(TheMatch(rows, reservationId))
  }

  function TheMatch(rows: seq<ReservationRow>, reservationId: Id): (r: ReservationRow)
    requires Matches(rows, reservationId) >= 1
    ensures r in rows && r.id == reservationId
  {
    if rows[0].id == reservationId then rows[0] else TheMatch(rows[1..], reservationId)
  }

  datatype SeatError = ReservationNotRead | OrderNotCreated | TableNotUpdated

  datatype SeatResult = Created(order: OrderRow) | Failed(error: SeatError)

  /** The order `createOrderFromReservation` inserts: the reservation's table, no items, total 0, pending. */
  function SeatOrder(id: Id, tableId: Option<int>): (o: OrderRow)
    ensures o.items == [] && o.total == 0 && o.status == Pending && o.table_id == tableId
  {
    OrderRow(id, tableId, None, [], 0, Pending, None, None)
  }

  /**
   * The writes of `createOrderFromReservation` over `reservations`, from
   * `orders`, `nextId` and `tables` to `orders'`, `nextId'` and `tables'`,
   * with its result: a read that does not find exactly one reservation, or a
   * failed insert, writes nothing; otherwise the empty order is appended
   * with the next id, and the reservation's table is occupied unless that
   * update fails, which keeps the order.
   */
  ghost predicate SeatWrites(reservations: seq<ReservationRow>, reservationId: Id,
                             failRead: bool, failInsert: bool, failTable: bool,
                             orders: seq<OrderRow>, nextId: Id, tables: seq<TableRow>,
                             orders': seq<OrderRow>, nextId': Id, tables': seq<TableRow>, result: SeatResult)
  {
    var found := if failRead then None else Single(reservations, reservationId);
    var order := SeatOrder(nextId, if found.Some? then found.value.table_id else None);
    (found.None? || failInsert ==>
      result == Failed(if found.None? then ReservationNotRead else OrderNotCreated) &&
      orders' == orders && nextId' == nextId && tables' == tables) &&
    (found.Some? && !failInsert ==>
      orders' == orders + [order] && nextId' == nextId + 1 &&
      tables' == (if failTable || order.table_id.None? then tables
                  else SetTableStatus(tables, order.table_id.value, Occupied)) &&
      result == if failTable || order.table_id.None? then Failed(TableNotUpdated) else Created(order))
  }

  /**
   * `createOrderFromReservation`: read the reservation's table, insert an
   * empty pending order for it, then mark the table occupied. A read that does
   * not find exactly one reservation, or a failed insert, writes nothing; a
   * failed table update, which includes every reservation without a table,
   * leaves the new order in place.
   */
  method CreateOrderFromReservation(store: Store, reservationId: Id, failRead: bool, failInsert: bool, failTable: bool)
    returns (result: SeatResult)
    requires store.Valid()
    modifies store`orders, store`nextId, store`tables
    ensures store.Valid()
    ensures SeatWrites(old(store.reservations), reservationId, failRead, failInsert, failTable,
                       old(store.orders), old(store.nextId), old(store.tables),
                       store.orders, store.nextId, store.tables, result)
  {
    var found := if failRead then None else Single(store.reservations, reservationId);
    if found.None? {
      return Failed(ReservationNotRead);
    }
    var tableId := found.value.table_id;
    var inserted := store.InsertOrder(SeatOrder(0, tableId), failInsert);
    if inserted.None? {
      return Failed(OrderNotCreated);
    }
    var ok := store.UpdateTables(tableId, Occupied, failTable);
    if !ok {
      return Failed(TableNotUpdated);
    }
    return Created(inserted.value);
  }
}
