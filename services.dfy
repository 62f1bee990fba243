/**
 * The order, transaction and cash-out services (project/src/lib/services.ts)
 * over the row store. Writers stamp rows with the key spelling the service
 * uses (`createdAt`, `tableId`, `orderId`, `paymentMethod`); readers filter and
 * order on the column they name. A descending `order(...)` puts rows with a
 * null in that column first.
 */
module Services {
  import opened Types
  import opened Sorting
  import opened Store

  // ---------------------------------------------------------------------------
  // Orderings used by the queries

  /** `a` comes no later than `b` under a descending order with nulls first. */
  predicate LaterFirst(a: Option<Time>, b: Option<Time>)
  {
    a.None? || (b.Some? && a.value >= b.value)
  }

  predicate OrderNewerFirst(a: OrderRow, b: OrderRow)
  {
    LaterFirst(a.createdAt, b.createdAt)
  }

  predicate TransactionNewerFirst(a: TransactionRow, b: TransactionRow)
  {
    LaterFirst(a.created_at, b.created_at)
  }

  predicate CashOutLaterFirst(a: CashOutRow, b: CashOutRow)
  {
    LaterFirst(a.end_time, b.end_time)
  }

  lemma LaterFirstOrdering()
    ensures Total(OrderNewerFirst) && Transitive(OrderNewerFirst)
    ensures Total(TransactionNewerFirst) && Transitive(TransactionNewerFirst)
    ensures Total(CashOutLaterFirst) && Transitive(CashOutLaterFirst)
  {
  }

  // ---------------------------------------------------------------------------
  // orderService

  /** The `items` column `createOrder` writes: each line keyed `menu_item_id`, in order. */
  function StoredItems(items: seq<OrderItem>): (r: seq<StoredLine>)
    ensures |r| == |items|
    ensures forall i :: 0 <= i < |items| ==>
      r[i].menu_item_id == NumRef(items[i].menuItemId) && r[i].quantity == items[i].quantity &&
      r[i].notes == items[i].notes && r[i].menu_item.None?
  {
    if items == [] then []
    else [StoredLine(NumRef(items[0].menuItemId), items[0].quantity, items[0].notes, None)] + StoredItems(items[1..])
  }

  /** Reads stored lines back as order items; a line whose id is a string is not one. */
  function ItemsOf(lines: seq<StoredLine>): (r: Option<seq<OrderItem>>)
    ensures r.Some? <==> forall i :: 0 <= i < |lines| ==> lines[i].menu_item_id.NumRef?
  {
    if lines == [] then Some([])
    else match (lines[0].menu_item_id, ItemsOf(lines[1..]))
      case (NumRef(n), Some(rest)) => Some([OrderItem(n, lines[0].quantity, lines[0].notes)] + rest)
      case (NumRef(_), None) =>
        assert !lines[1..][0].menu_item_id.NumRef? ==> !lines[1].menu_item_id.NumRef?;
        None
      case (TextRef(_), _) => None
  }

  /** The item mapping of `createOrder` loses nothing: ids, quantities, notes and order come back. */
  lemma {:induction false} StoredItemsRoundTrip(items: seq<OrderItem>)
    ensures ItemsOf(StoredItems(items)) == Some(items)
  {
    if items != [] {
      StoredItemsRoundTrip(items[1..]);
      assert StoredItems(items)[1..] == StoredItems(items[1..]);
      assert items == [items[0]] + items[1..];
    }
  }

  /** `createOrder`: one row stamped with `createdAt` and `updatedAt`; the table goes under `tableId`. */
  method CreateOrder(store: Store, tableId: int, items: seq<OrderItem>, total: int, status: OrderStatus,
                     now: Time, fails: bool) returns (created: Option<OrderRow>)
    requires store.Valid()
    modifies store`orders, store`nextId
    ensures store.Valid()
    ensures created == if fails then None
      else Some(OrderRow(old(store.nextId), None, Some(tableId), StoredItems(items), total, status, Some(now), Some(now)))
    ensures store.orders == if fails then old(store.orders) else old(store.orders) + [created.value]
    ensures store.nextId == if fails then old(store.nextId) else old(store.nextId) + 1
  {
    var row := OrderRow(0, None, Some(tableId), StoredItems(items), total, status, Some(now), Some(now));
    created := store.InsertOrder(row, fails);
  }

  /** `getOrders`: every order, newest `createdAt` first. */
  function GetOrders(rows: seq<OrderRow>): (r: seq<OrderRow>)
    ensures multiset(r) == multiset(rows)
    ensures Sorted(r, OrderNewerFirst)
  {
    LaterFirstOrdering();
    SortBy(rows, OrderNewerFirst)
  }

  /** `updateOrderStatus`: the status and a fresh `updatedAt` on the order with the id. */
  method UpdateOrderStatus(store: Store, orderId: Id, status: OrderStatus, now: Time, fails: bool) returns (ok: bool)
    requires store.Valid()
    modifies store`orders
    ensures store.Valid()
    ensures ok == !fails
    ensures store.orders == if ok then PatchOrders(old(store.orders), orderId, StatusPatch(status, Some(now)))
      else old(store.orders)
  {
    ok := store.UpdateOrders(orderId, StatusPatch(status, Some(now)), fails);
  }

  /** A status update changes the status and `updatedAt` of the matching orders and nothing else. */
  lemma StatusUpdateOnlyStatus(rows: seq<OrderRow>, orderId: Id, status: OrderStatus, now: Time)
    ensures var r := PatchOrders(rows, orderId, StatusPatch(status, Some(now)));
      |r| == |rows| &&
      forall i :: 0 <= i < |rows| ==>
        (rows[i].id == orderId ==> r[i] == rows[i].(status := status, updatedAt := Some(now))) &&
        (rows[i].id != orderId ==> r[i] == rows[i])
  {
  }

  // ---------------------------------------------------------------------------
  // transactionService

  /** `createTransaction`: one row stamped with `createdAt`, with the service's camel-case keys. */
  method CreateTransaction(store: Store, orderId: Id, amount: int, paymentMethod: string,
                           status: TransactionStatus, now: Time, fails: bool) returns (created: Option<TransactionRow>)
    requires store.Valid()
    modifies store`transactions, store`nextId
    ensures store.Valid()
    ensures created == if fails then None
      else Some(TransactionRow(old(store.nextId), None, Some(orderId), amount, None, Some(paymentMethod), status, None, Some(now)))
    ensures store.transactions == if fails then old(store.transactions) else old(store.transactions) + [created.value]
    ensures store.nextId == if fails then old(store.nextId) else old(store.nextId) + 1
  {
    var row := TransactionRow(0, None, Some(orderId), amount, None, Some(paymentMethod), status, None, Some(now));
    created := store.InsertTransaction(row, fails);
  }

  /** `getTransactions`: every transaction, newest `created_at` first. */
  function GetTransactions(rows: seq<TransactionRow>): (r: seq<TransactionRow>)
    ensures multiset(r) == multiset(rows)
    ensures Sorted(r, TransactionNewerFirst)
  {
    LaterFirstOrdering();
    SortBy(rows, TransactionNewerFirst)
  }

  /** The `gte('created_at', startDate)` filter, applied only when a start date is given; a null never passes it. */
  predicate InWindow(t: TransactionRow, startDate: Option<Time>)
  {
    startDate.None? || (t.created_at.Some? && t.created_at.value >= startDate.value)
  }

  function WindowRows(rows: seq<TransactionRow>, startDate: Option<Time>): (r: seq<TransactionRow>)
    ensures multiset(r) <= multiset(rows)
    ensures forall t :: t in r <==> t in rows && InWindow(t, startDate)
    ensures startDate.None? ==> r == rows
  {
    if rows == [] then []
    else
      assert rows == [rows[0]] + rows[1..];
      if InWindow(rows[0], startDate) then [rows[0]] + WindowRows(rows[1..], startDate)
      else WindowRows(rows[1..], startDate)
  }

  /** `getPendingTransactions(startDate)`: the transactions in the window, newest `created_at` first. */
  function GetPendingTransactions(rows: seq<TransactionRow>, startDate: Option<Time>): (r: seq<TransactionRow>)
    ensures multiset(r) == multiset(WindowRows(rows, startDate))
    ensures Sorted(r, TransactionNewerFirst)
  {
    LaterFirstOrdering();
    SortBy(WindowRows(rows, startDate), TransactionNewerFirst)
  }

  /**
   * Exactly the transactions created at or after the start date are returned
   * (all of them when there is none), each as often as it is stored, newest
   * first.
   */
  lemma PendingTransactionsExact(rows: seq<TransactionRow>, startDate: Option<Time>)
    ensures forall t :: t in GetPendingTransactions(rows, startDate) <==> t in rows && InWindow(t, startDate)
    ensures startDate.None? ==> multiset(GetPendingTransactions(rows, startDate)) == multiset(rows)
    ensures forall i, j :: 0 <= i < j < |GetPendingTransactions(rows, startDate)| ==>
      TransactionNewerFirst(GetPendingTransactions(rows, startDate)[i], GetPendingTransactions(rows, startDate)[j])
  {
    var r := GetPendingTransactions(rows, startDate);
    LaterFirstOrdering();
    forall t ensures t in r <==> t in WindowRows(rows, startDate) {
      assert t in r <==> t in multiset(r);
    }
    forall i, j | 0 <= i < j < |r| ensures TransactionNewerFirst(r[i], r[j]) {
      SortedHeadFirst(r[i..], TransactionNewerFirst, r[j]);
      assert r[i..][0] == r[i];
      assert r[i..][j - i] == r[j];
      assert Sorted(r[i..], TransactionNewerFirst) by {
        forall k | 0 < k < |r[i..]| ensures TransactionNewerFirst(r[i..][k - 1], r[i..][k]) {
          assert r[i..][k - 1] == r[i + k - 1] && r[i..][k] == r[i + k];
        }
      }
    }
  }

  /** A transaction written by `createTransaction` has no `created_at`, so no bounded window contains it. */
  lemma CreatedTransactionOutsideWindows(orderId: Id, amount: int, paymentMethod: string,
                                         status: TransactionStatus, now: Time, id: Id, start: Time)
    ensures !InWindow(TransactionRow(id, None, Some(orderId), amount, None, Some(paymentMethod), status, None, Some(now)), Some(start))
  {
  }

  // ---------------------------------------------------------------------------
  // cashOutService

  /** `getCashOuts`: a select with no `order`, which gives the rows in the store's own order. */
  function GetCashOuts(rows: seq<CashOutRow>): (r: seq<CashOutRow>)
    ensures multiset(r) == multiset(rows)
  {
    rows
  }

  /** Two cash-outs stored oldest first: the first row `getCashOuts` gives is not the latest. */
  lemma GetCashOutsFirstNotLatest()
    ensures var rows := [CashOutRow(1, 0, Some(10), 0, Some(0), 0, 0), CashOutRow(2, 10, Some(20), 0, Some(0), 0, 0)];
      GetCashOuts(rows)[0].end_time.value < rows[1].end_time.value
  {
  }

  /** The cash-outs with the latest `end_time` first (`order('end_time', { ascending: false })`). */
  function GetCashOutsLatestFirst(rows: seq<CashOutRow>): (r: seq<CashOutRow>)
    ensures multiset(r) == multiset(rows)
    ensures Sorted(r, CashOutLaterFirst)
  {
    LaterFirstOrdering();
    SortBy(rows, CashOutLaterFirst)
  }

  /** The first cash-out given latest-first ends no earlier than any stored cash-out. */
  lemma LatestFirstHead(rows: seq<CashOutRow>, c: CashOutRow)
    requires c in rows
    ensures |GetCashOutsLatestFirst(rows)| > 0
    ensures CashOutLaterFirst(GetCashOutsLatestFirst(rows)[0], c)
  {
    var r := GetCashOutsLatestFirst(rows);
    LaterFirstOrdering();
    assert c in multiset(rows);
    assert c in r;
    SortedHeadFirst(r, CashOutLaterFirst, c);
  }
}
