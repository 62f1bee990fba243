/**
 * The new-order dialog (project/src/components/NewOrderModal.tsx): it lists
 * the available tables in sections of twelve; a table is picked, the order
 * form is filled in, and submitting inserts a pending order for the table.
 * The dialog then notifies its parent and marks the table occupied.
 *
 * After the table update the handler calls a `fetchTables` that exists
 * only inside the dialog's effect. That call throws, so nothing after it
 * runs and the dialog's list is not reloaded. The model ends the handler
 * there.
 */
module NewOrder {
  import opened Types
  import opened Sorting
  import opened Store
  import opened Paging
  import opened OrderForm
  import opened OrderDetails

  predicate LowerIdFirst(a: TableRow, b: TableRow)
  {
    a.id <= b.id
  }

  /** `.order('id', { ascending: true })` on `tables`: every row, lowest id first. */
  function TablesById(rows: seq<TableRow>): (r: seq<TableRow>)
    ensures multiset(r) == multiset(rows)
    ensures forall i :: 0 < i < |r| ==> r[i - 1].id <= r[i].id
  {
    assert Total(LowerIdFirst);
    var sorted := SortBy(rows, LowerIdFirst);
    assert forall i :: 0 < i < |sorted| ==> LowerIdFirst(sorted[i - 1], sorted[i]);
    sorted
  }

  /** `.eq('status', 'available')` on `tables`. */
  function AvailableRows(rows: seq<TableRow>): (r: seq<TableRow>)
    ensures forall x :: x in r <==> x in rows && x.status == Available
  {
    if rows == [] then []
    else
      assert rows == [rows[0]] + rows[1..];
      (if rows[0].status == Available then [rows[0]] else []) + AvailableRows(rows[1..])
  }

  /** `data.map(table => table.id)`. */
  function IdsOf(rows: seq<TableRow>): (r: seq<int>)
    ensures |r| == |rows|
    ensures forall i :: 0 <= i < |rows| ==> r[i] == rows[i].id
  {
    if rows == [] then [] else [rows[0].id] + IdsOf(rows[1..])
  }

  /** The ids the dialog offers: those of the available tables, in ascending order. */
  function AvailableIds(rows: seq<TableRow>): (r: seq<int>)
    ensures forall i :: 0 < i < |r| ==> r[i - 1] <= r[i]
  {
    IdsOf(TablesById(AvailableRows(rows)))
  }

  /** A table is offered exactly when some row with its id is available. */
  lemma AvailableIdsExact(rows: seq<TableRow>, id: int)
    ensures id in AvailableIds(rows) <==>
      exists k :: 0 <= k < |rows| && rows[k].id == id && rows[k].status == Available
  {
    var sorted := TablesById(AvailableRows(rows));
    if id in AvailableIds(rows) {
      var i :| 0 <= i < |sorted| && IdsOf(sorted)[i] == id;
      assert sorted[i] in multiset(sorted);
      assert sorted[i] in AvailableRows(rows);
      var k :| 0 <= k < |rows| && rows[k] == sorted[i];
    }
    if exists k :: 0 <= k < |rows| && rows[k].id == id && rows[k].status == Available {
      var k :| 0 <= k < |rows| && rows[k].id == id && rows[k].status == Available;
      assert rows[k] in AvailableRows(rows);
      assert rows[k] in multiset(sorted);
      var i :| 0 <= i < |sorted| && sorted[i] == rows[k];
      assert IdsOf(sorted)[i] == id;
    }
  }

  /** Once a table is marked occupied it is no longer offered; every other table is offered as before. */
  lemma OccupiedNotOffered(rows: seq<TableRow>, t: int, id: int)
    ensures var after := SetTableStatus(rows, t, Occupied);
      (id == t ==> id !in AvailableIds(after)) &&
      (id != t ==> (id in AvailableIds(after) <==> id in AvailableIds(rows)))
  {
    var after := SetTableStatus(rows, t, Occupied);
    AvailableIdsExact(after, id);
    AvailableIdsExact(rows, id);
    if id != t && id in AvailableIds(rows) {
      var k :| 0 <= k < |rows| && rows[k].id == id && rows[k].status == Available;
      assert after[k] == rows[k];
    }
  }

  /** The lines the dialog stores: the menu id as a number, the quantity and the notes. */
  function OrderLines(cart: seq<CartLine>): (r: seq<StoredLine>)
    ensures |r| == |cart|
    ensures forall i :: 0 <= i < |cart| ==>
      r[i] == StoredLine(NumRef(cart[i].menuItem.id), cart[i].quantity, cart[i].notes, None)
  {
    if cart == [] then []
    else [StoredLine(NumRef(cart[0].menuItem.id), cart[0].quantity, cart[0].notes, None)] + OrderLines(cart[1..])
  }

  /** The row the dialog inserts. */
  function NewOrderRow(id: Id, t: int, cart: seq<CartLine>, total: int): (o: OrderRow)
    ensures o.table_id == Some(t) && o.status == Pending && o.total == total && o.items == OrderLines(cart)
  {
    OrderRow(id, Some(t), None, OrderLines(cart), total, Pending, None, None)
  }

  lemma {:induction false} PendingForAppend(a: seq<OrderRow>, b: seq<OrderRow>, t: int)
    ensures PendingFor(a + b, t) == PendingFor(a, t) + PendingFor(b, t)
  {
    if a == [] {
      assert a + b == b;
    } else {
      assert (a + b)[0] == a[0];
      assert (a + b)[1..] == a[1..] + b;
      PendingForAppend(a[1..], b, t);
    }
  }

  lemma {:induction false} NoPendingFor(orders: seq<OrderRow>, t: int)
    requires forall k :: 0 <= k < |orders| ==> !(orders[k].table_id == Some(t) && orders[k].status == Pending)
    ensures PendingFor(orders, t) == []
  {
    if orders != [] {
      assert forall k :: 0 <= k < |orders[1..]| ==> orders[1..][k] == orders[k + 1];
      NoPendingFor(orders[1..], t);
    }
  }

  /**
   * An order the dialog creates, for a table with no other pending order and
   * with every item on the menu at its cart price, is the one the details
   * dialog then loads, at the cart's total.
   */
  lemma {:induction false} NewOrderLoads(orders: seq<OrderRow>, menu: seq<MenuItem>, t: int, id: Id, cart: seq<CartLine>, total: int)
    requires t != 0
    requires forall k :: 0 <= k < |orders| ==> !(orders[k].table_id == Some(t) && orders[k].status == Pending)
    requires PricedByMenu(cart, menu)
    ensures LoadsWith(LoadOrder(orders + [NewOrderRow(id, t, cart, total)], menu, Some(t), false, false),
                      CalculateTotal(cart), |cart|)
  {
    var row := NewOrderRow(id, t, cart, total);
    NoPendingFor(orders, t);
    PendingForAppend(orders, [row], t);
    assert PendingFor([row], t) == [row];
    AddedLinesReference(cart, menu);
    ReferenceSameRefs(OrderLines(cart), AddedLines(cart), menu);
    LoadOfListed(orders + [row], menu, t, OrderLines(cart), CalculateTotal(cart));
  }

  class NewOrderDialog {
    var selectedTable: Option<int>
    var showOrderForm: bool
    var tables: seq<int>
    var selectedSection: int

    constructor ()
      ensures selectedTable.None? && !showOrderForm && tables == [] && selectedSection == 1
    {
      selectedTable := None;
      showOrderForm := false;
      tables := [];
      selectedSection := 1;
    }

    /** `fetchTables` on opening: the ids of the available tables, replaced only when data came back. */
    method FetchTables(store: Store, fails: bool)
      modifies this`tables
      ensures tables == if fails then old(tables) else AvailableIds(store.tables)
    {
      if !fails {
        tables := AvailableIds(store.tables);
      }
    }

    /** `handleTableSelect`: remember the table and show the order form. */
    method SelectTable(tableId: int)
      modifies this`selectedTable, this`showOrderForm
      ensures selectedTable == Some(tableId) && showOrderForm
    {
      selectedTable := Some(tableId);
      showOrderForm := true;
    }

    /** `handleCancel`, the order form's cancel: back to the table list with nothing selected. */
    method Cancel()
      modifies this`selectedTable, this`showOrderForm
      ensures selectedTable.None? && !showOrderForm
    {
      selectedTable := None;
      showOrderForm := false;
    }

    method PreviousSection()
      modifies this`selectedSection
      ensures selectedSection == Previous(old(selectedSection))
    {
      selectedSection := Previous(selectedSection);
    }

    method NextSection()
      modifies this`selectedSection
      ensures selectedSection == Next(old(selectedSection), TotalSections(|tables|))
    {
      selectedSection := Next(selectedSection, TotalSections(|tables|));
    }

    /**
     * `handleOrderSubmit`: with a selected table (0 reads as none), insert the
     * order; only if that succeeds, notify the parent and mark the table
     * occupied, whose own failure is ignored.
     */
    method HandleOrderSubmit(store: Store, cart: seq<CartLine>, total: int, failInsert: bool, failTable: bool)
      returns (notified: bool)
      requires store.Valid()
      modifies store`orders, store`nextId, store`tables
      ensures store.Valid()
      ensures var t := GetOr(selectedTable, 0);
        notified == (t != 0 && !failInsert) &&
        store.orders == (if notified then old(store.orders) + [NewOrderRow(old(store.nextId), t, cart, total)]
                         else old(store.orders)) &&
        store.nextId == (if notified then old(store.nextId) + 1 else old(store.nextId)) &&
        store.tables == if notified && !failTable then SetTableStatus(old(store.tables), t, Occupied)
                        else old(store.tables)
    {
      if selectedTable.None? || selectedTable.value == 0 {
        return false;
      }
      var t := selectedTable.value;
      var inserted := store.InsertOrder(NewOrderRow(0, t, cart, total), failInsert);
      if inserted.None? {
        return false;
      }
      notified := true;
      var _ := store.UpdateTables(Some(t), Occupied, failTable);
    }
  }
}
