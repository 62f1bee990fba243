/**
 * The table overview (project/src/components/TableManagement.tsx): every
 * table, lowest id first, in sections of twelve, green when available and red
 * when occupied. Clicking an occupied table opens its order details. After a
 * new order the overview marks the table occupied itself and attaches a
 * summary of the order; after a payment it reloads the tables.
 */
module TableManagement {
  import opened Types
  import opened Text
  import opened Store
  import opened Paging
  import opened OrderForm
  import opened NewOrder

  /** What the overview keeps of an order it was told about: one text per line and the total. */
  datatype OrderSummary = OrderSummary(items: seq<string>, total: int)

  /** A table as the overview holds it: the stored row and, after a new order, its summary. */
  datatype GridTable = GridTable(row: TableRow, order: Option<OrderSummary>)

  /** `setTables(data)`: the rows as read, with no summaries. */
  function Fresh(rows: seq<TableRow>): (r: seq<GridTable>)
    ensures |r| == |rows|
    ensures forall i :: 0 <= i < |rows| ==> r[i] == GridTable(rows[i], None)
  {
    if rows == [] then [] else [GridTable(rows[0], None)] + Fresh(rows[1..])
  }

  /** `getTableColor`. */
  function TableColor(status: TableStatus): string
  {
    if status == Occupied then "bg-red-100" else "bg-green-100"
  }

  /** The colour tells the two statuses apart. */
  lemma ColorShowsStatus(a: TableStatus, b: TableStatus)
    ensures TableColor(a) == TableColor(b) <==> a == b
  {
    if a != b {
      assert TableColor(a)[3] != TableColor(b)[3];
    }
  }

  /** Whether `item.notes` is truthy: present and not the empty string. */
  predicate HasNotes(notes: Option<string>)
  {
    notes.Some? && notes.value != ""
  }

  /** `${item.menuItem.name} x${item.quantity}` followed by ` (${item.notes})` when there are notes. */
  function SummaryLine(line: CartLine): string
  {
    line.menuItem.name + " x" + IntToString(line.quantity) +
    (if HasNotes(line.notes) then " (" + line.notes.value + ")" else "")
  }

  /**
   * A summary line starts with the item's name and " x"; it ends in ")"
   * exactly when the line has notes, since a quantity ends in a digit.
   */
  lemma SummaryLineShape(line: CartLine)
    requires line.quantity >= 0
    ensures var s := SummaryLine(line);
      |s| > |line.menuItem.name| + 2 &&
      s[..|line.menuItem.name| + 2] == line.menuItem.name + " x" &&
      (s[|s| - 1] == ')' <==> HasNotes(line.notes))
  {
    var q := IntToString(line.quantity);
    var head := line.menuItem.name + " x" + q;
    assert head[|head| - 1] == q[|q| - 1];
    assert IsDigit(q[|q| - 1]);
    if !HasNotes(line.notes) {
      assert SummaryLine(line) == head;
    }
    assert SummaryLine(line)[..|line.menuItem.name| + 2] == head[..|line.menuItem.name| + 2];
  }

  /** Empty notes are written like no notes at all. */
  lemma EmptyNotesNotShown(line: CartLine)
    ensures SummaryLine(line.(notes := Some(""))) == SummaryLine(line.(notes := None))
  {
  }

  function Summaries(cart: seq<CartLine>): (r: seq<string>)
    ensures |r| == |cart|
    ensures forall i :: 0 <= i < |cart| ==> r[i] == SummaryLine(cart[i])
  {
    if cart == [] then [] else [SummaryLine(cart[0])] + Summaries(cart[1..])
  }

  /** The `onSubmit` callback's `tables.map(...)`: the table with the id becomes occupied with the summary. */
  function WithNewOrder(tables: seq<GridTable>, tableId: int, summary: OrderSummary): (r: seq<GridTable>)
    ensures |r| == |tables|
    ensures forall i :: 0 <= i < |tables| ==>
      r[i] == if tables[i].row.id == tableId then GridTable(tables[i].row.(status := Occupied), Some(summary))
              else tables[i]
  {
    if tables == [] then []
    else
      [if tables[0].row.id == tableId then GridTable(tables[0].row.(status := Occupied), Some(summary)) else tables[0]]
      + WithNewOrder(tables[1..], tableId, summary)
  }

  /** The overview shows the stored rows, one for one. */
  ghost predicate Mirrors(tables: seq<GridTable>, rows: seq<TableRow>)
  {
    |tables| == |rows| && forall i :: 0 <= i < |rows| ==> tables[i].row == rows[i]
  }

  /**
   * The overview's own update after a new order agrees with the store's table
   * update: an overview that showed the stored rows still does.
   */
  lemma NewOrderKeepsMirror(tables: seq<GridTable>, rows: seq<TableRow>, t: int, summary: OrderSummary)
    requires Mirrors(tables, rows)
    ensures Mirrors(WithNewOrder(tables, t, summary), SetTableStatus(rows, t, Occupied))
  {
  }

  /** After a payment's reload, every table with the paid table's id shows as available, with no summary. */
  lemma PaidTableShownAvailable(rows: seq<TableRow>, t: int)
    ensures var shown := Fresh(TablesById(SetTableStatus(rows, t, Available)));
      forall i :: 0 <= i < |shown| ==>
        shown[i].order.None? && (shown[i].row.id == t ==> shown[i].row.status == Available)
  {
    var after := SetTableStatus(rows, t, Available);
    var sorted := TablesById(after);
    forall i | 0 <= i < |sorted| && sorted[i].id == t
      ensures sorted[i].status == Available
    {
      assert sorted[i] in multiset(after);
      var k :| 0 <= k < |after| && after[k] == sorted[i];
    }
  }

  class TableGrid {
    var tables: seq<GridTable>
    var selectedSection: int
    var selectedTable: Option<GridTable>
    var detailsOpen: bool
    var newOrderOpen: bool

    constructor ()
      ensures tables == [] && selectedSection == 1 && selectedTable.None? && !detailsOpen && !newOrderOpen
    {
      tables := [];
      selectedSection := 1;
      selectedTable := None;
      detailsOpen := false;
      newOrderOpen := false;
    }

    /** `fetchTables`: every table, lowest id first; an error keeps the list. */
    method FetchTables(store: Store, fails: bool)
      modifies this`tables
      ensures tables == if fails then old(tables) else Fresh(TablesById(store.tables))
    {
      if !fails {
        tables := Fresh(TablesById(store.tables));
      }
    }

    /** `handleTableClick`: only an occupied table opens its order details. */
    method HandleTableClick(table: GridTable)
      modifies this`selectedTable, this`detailsOpen
      ensures table.row.status == Occupied ==> selectedTable == Some(table) && detailsOpen
      ensures table.row.status != Occupied ==>
        selectedTable == old(selectedTable) && detailsOpen == old(detailsOpen)
    {
      if table.row.status == Occupied {
        selectedTable := Some(table);
        detailsOpen := true;
      }
    }

    /** The `tableId` handed to the details dialog: `selectedTable?.id`. */
    function DetailsTableId(): (r: Option<int>)
      reads this
      ensures r.Some? <==> selectedTable.Some?
      ensures r.Some? ==> r.value == selectedTable.value.row.id
    {
      if selectedTable.Some? then Some(selectedTable.value.row.id) else None
    }

    /** `handleProcessPayment`: reload the tables, then close the details and clear the selection. */
    method HandleProcessPayment(store: Store, fails: bool)
      modifies this`tables, this`detailsOpen, this`selectedTable
      ensures tables == if fails then old(tables) else Fresh(TablesById(store.tables))
      ensures !detailsOpen && selectedTable.None?
    {
      FetchTables(store, fails);
      detailsOpen := false;
      selectedTable := None;
    }

    method OpenNewOrder()
      modifies this`newOrderOpen
      ensures newOrderOpen
    {
      newOrderOpen := true;
    }

    /** The `onSubmit` callback: mark the table occupied with the order's summary and close the dialog. */
    method OnNewOrder(tableId: int, cart: seq<CartLine>, total: int)
      modifies this`tables, this`newOrderOpen
      ensures tables == WithNewOrder(old(tables), tableId, OrderSummary(Summaries(cart), total))
      ensures !newOrderOpen
    {
      tables := WithNewOrder(tables, tableId, OrderSummary(Summaries(cart), total));
      newOrderOpen := false;
    }

    method PreviousSection()
      modifies this`selectedSection
      ensures selectedSection == Previous(old(selectedSection))
    {
      selectedSection := Previous(selectedSection);
    }

    method NextSection()
      modifies this`selectedSection
      ensures selectedSection == Next(old(selectedSection), TotalSections(|tables|))
    {
      selectedSection := Next(selectedSection, TotalSections(|tables|));
    }

    /**
     * A submission in the new-order dialog with this overview as its parent:
     * the dialog writes the order, the overview updates itself when notified,
     * and the dialog marks the table occupied in the store.
     */
    method SubmitNewOrder(store: Store, dialog: NewOrderDialog, cart: seq<CartLine>, total: int,
                          failInsert: bool, failTable: bool) returns (notified: bool)
      requires store.Valid()
      modifies this`tables, this`newOrderOpen, store`orders, store`nextId, store`tables
      ensures store.Valid()
      ensures var t := GetOr(dialog.selectedTable, 0);
        notified == (t != 0 && !failInsert) &&
        store.orders == (if notified then old(store.orders) + [NewOrderRow(old(store.nextId), t, cart, total)]
                         else old(store.orders)) &&
        store.nextId == (if notified then old(store.nextId) + 1 else old(store.nextId)) &&
        store.tables == (if notified && !failTable then SetTableStatus(old(store.tables), t, Occupied)
                         else old(store.tables)) &&
        tables == (if notified then WithNewOrder(old(tables), t, OrderSummary(Summaries(cart), total))
                   else old(tables)) &&
        newOrderOpen == (if notified then false else old(newOrderOpen))
    {
      notified := dialog.HandleOrderSubmit(store, cart, total, failInsert, failTable);
      if notified {
        OnNewOrder(dialog.selectedTable.value, cart, total);
      }
    }
  }
}
