# Restaurant-VA: a verified model of the front desk's business rules

Restaurant-VA is a restaurant front end: a React application over a hosted row
store, plus two small plain-script pages. This project models the rules that
front end applies, in Dafny, and proves what they promise:

- the order cart of the order form (merge by menu item, decrement and drop,
  notes, the total, the empty-cart guard, the category buttons);
- the order lifecycle over the row store: opening an order for an available
  table, loading an occupied table's pending order and recomputing its total,
  appending items, and paying in three writes (transaction, order
  `completed`, table `available`);
- reservations: creating, listing, cancelling, seating (status, then an
  empty pending order, then the table occupied) and deleting;
- the cash-out panel: totals by payment method, opening and final amounts,
  and the window of transactions since the previous cash-out;
- the table overview and the new-order dialog: sections of twelve tables,
  clamped navigation, which tables can be clicked, the table colour and the
  one-line order summaries;
- sign-up validation (names, then the role's access code, then the password
  confirmation);
- the inventory page (merge by name or push, delete by index) and the
  table-toggle page (class and `data-status` kept in step).

The row store is a `Store` class holding one `seq` per table
(`orders`, `transactions`, `cashouts`, `reservations`, `tables`, `menu`) and
the next id to assign. Every store call takes a `fails` flag. A failed call
changes nothing, and each handler is proved for every combination of
failures. A row keeps the keys its writer used. For example, a transaction
written by the service carries `paymentMethod` and `createdAt`, and one
written by the payment dialog carries `payment_method` and `created_at`.
Readers read the key they name. Money is an integer number of cents, and
timestamps are integers.

Objects whose fields the source updates (the dialogs, the pages, the
inventory, a table button) are classes. Their handlers are methods with
`modifies` clauses, and each method is specified against pure functions of
the old state. The pure rules (the cart, paging, queries, totals, sign-up
checks) are functions, and lemmas state their properties.

Files:

| file | module | models |
|---|---|---|
| types.dfy | Types | the records and status enumerations, and the stored row shapes |
| sorting.dfy | Sorting | insertion sort by a total order (the store's `order(...)`) |
| text.dfy | Text | decimal `toString` of an integer |
| store.dfy | Store | the row store and its insert, update and delete calls |
| services.dfy | Services | order, transaction and cash-out services |
| analytics.dfy | Analytics | the cash-out panel |
| reservation_service.dfy | ReservationService | the reservation service |
| reservation_view.dfy | ReservationView | the reservations page |
| order_form.dfy | OrderForm | the order cart |
| order_details.dfy | OrderDetails | the order-details dialog |
| new_order.dfy | NewOrder | the new-order dialog |
| table_management.dfy | TableManagement | the table overview |
| paging.dfy | Paging | sections of twelve tables |
| auth.dfy | Auth | the login and sign-up form |
| inventory.dfy | Inventory | the inventory page |
| mesas.dfy | Mesas | the table-toggle page |

## Model

| member | source | states |
|---|---|---|
| Text.IntToString | project/src/components/OrderDetailsModal.tsx:88 | the decimal numeral of an integer: it reads back as that integer (`DecimalValue`), so different ids get different text; it begins with '-' exactly when the number is negative and is digits everywhere else |
| Sorting.SortBy | project/src/lib/reservationService.ts:36 | an ordered query returns a permutation of the rows, sorted by the requested column |
| Store.ApplyOrderPatch | project/src/lib/services.ts:38-41 | an update of `orders` never changes a row's id, table or creation stamp |
| Store.PatchOrders | project/src/lib/services.ts:36-42 | `update(...).eq('id', id)` patches exactly the rows with that id and keeps the rest, in place |
| Store.SetTableStatus | project/src/lib/reservationService.ts:102-105 | only the tables with the id get the new status; every other field and row is kept |
| Store.SetReservationStatus | project/src/lib/reservationService.ts:44-49 | only the reservations with the id get the new status; every other field and row is kept |
| Store.DeleteReservationRows | project/src/lib/reservationService.ts:56-59 | the rows left are exactly those whose id differs; a missing id deletes nothing |
| Store.Store.constructor | project/src/lib/services.ts:1 | the shared store starts with the given tables and menu, no orders, transactions, cash-outs or reservations, and the id counter at 1, which establishes the id invariant `Valid` |
| Store.Store.InsertOrder | project/src/lib/services.ts:6-19 | a successful insert appends the row with the next id, which is at least 1 and differs from every stored row's id, and keeps the store's id invariant; a failed one changes nothing |
| Store.Store.UpdateOrders | project/src/lib/services.ts:36-44 | the rows with the id are patched on success and nothing changes on failure |
| Store.Store.UpdateTables | project/src/lib/reservationService.ts:102-107 | the tables with the id get the status on success; a null id is refused by the numeric id column, so the call fails and nothing changes |
| Store.Store.InsertTransaction | project/src/lib/services.ts:50-57 | a successful insert appends the transaction with the next id, which is at least 1 and differs from every stored row's id, and keeps the store's id invariant; a failed one changes nothing |
| Store.Store.InsertCashOut | project/src/lib/services.ts:85-93 | a successful insert appends the cash-out with the next id, which is at least 1 and differs from every stored row's id, and keeps the store's id invariant; a failed one changes nothing |
| Store.Store.InsertReservation | project/src/lib/reservationService.ts:7-19 | a successful insert appends the reservation with the next id, which is at least 1 and differs from every stored row's id, and keeps the store's id invariant; a failed one changes nothing |
| Store.Store.UpdateReservations | project/src/lib/reservationService.ts:44-51 | the reservations with the id get the status on success; nothing changes on failure |
| Store.Store.DeleteReservations | project/src/lib/reservationService.ts:56-61 | the reservations with the id are deleted on success; nothing changes on failure |
| Services.LaterFirstOrdering | project/src/lib/services.ts:64 | a descending order with nulls first is total and transitive, for orders, transactions and cash-outs |
| Services.StoredItems | project/src/lib/services.ts:10-14 | each item is stored under `menu_item_id` with its quantity and notes, in the same order |
| Services.ItemsOf | project/src/types/index.ts:7-11 | stored lines read back as order items exactly when every id is a number |
| Services.StoredItemsRoundTrip | project/src/lib/services.ts:10-14 | reading back the items `createOrder` stores gives the original items |
| Services.CreateOrder | project/src/lib/services.ts:5-23 | inserts one order stamped with `createdAt` and `updatedAt`, with the mapped items; a failure inserts nothing |
| Services.GetOrders | project/src/lib/services.ts:25-33 | every order, newest `createdAt` first |
| Services.UpdateOrderStatus | project/src/lib/services.ts:35-45 | sets the status and a new `updatedAt` on the order with the id; a failure changes nothing |
| Services.StatusUpdateOnlyStatus | project/src/lib/services.ts:35-42 | a status update changes only the status and `updatedAt` of the matching orders |
| Services.CreateTransaction | project/src/lib/services.ts:49-58 | inserts one transaction stamped with `createdAt`, keyed the service's way; a failure inserts nothing |
| Services.GetTransactions | project/src/lib/services.ts:60-68 | every transaction, newest `created_at` first |
| Services.WindowRows | project/src/lib/services.ts:71-75 | the `gte` filter keeps exactly the rows in the window, and all rows when no start date is given |
| Services.GetPendingTransactions | project/src/lib/services.ts:70-81 | the rows in the window, as a multiset, newest `created_at` first |
| Services.PendingTransactionsExact | project/src/lib/services.ts:70-77 | exactly the transactions created at or after the start date, all of them without one, in descending `created_at` order |
| Services.CreatedTransactionOutsideWindows | project/src/lib/services.ts:52 | a transaction written by `createTransaction` has no `created_at`, so no bounded window lists it |
| Services.GetCashOuts | project/src/lib/services.ts:96-103 | every cash-out, in the store's own order |
| Services.GetCashOutsFirstNotLatest | project/src/lib/services.ts:96-99 | with two cash-outs stored oldest first, the first row returned is not the latest |
| Services.GetCashOutsLatestFirst | project/src/lib/services.ts:96-99 | the corrected query: every cash-out, latest `end_time` first |
| Services.LatestFirstHead | project/src/lib/services.ts:96-99 | the first row of the corrected query ends no earlier than any stored cash-out |
| Analytics.SplitByMethod | project/src/components/Analytics.tsx:42-43 | every listed amount counts once: as cash, as card, or in neither total |
| Analytics.CashPlusCardIsTotal | project/src/components/Analytics.tsx:42-44 | when every transaction is cash or card, cash plus card equals the displayed total |
| Analytics.NoOther | project/src/components/Analytics.tsx:42-43 | with only cash and card transactions, nothing falls outside the two totals |
| Analytics.UnkeyedRowsCountInNeither | project/src/components/Analytics.tsx:42-43 | rows without a `paymentMethod` key count in neither total, and all their amount is outside both |
| Analytics.TotalCash | project/src/components/Analytics.tsx:42 | the sum of the amounts keyed `paymentMethod` `cash`; stated by `SplitByMethod`, `CashPlusCardIsTotal`, `UnkeyedRowsCountInNeither` and `SumForPermutation` |
| Analytics.TotalCard | project/src/components/Analytics.tsx:43 | the sum of the amounts keyed `paymentMethod` `card`; stated by the same lemmas as `TotalCash` |
| Analytics.SumForPermutation | project/src/components/Analytics.tsx:42-43 | a total does not depend on the order the transactions are listed in |
| Analytics.InitialAmount | project/src/components/Analytics.tsx:50 | the previous cash-out's final amount, or 0 when there is none or it has none |
| Analytics.CashOutFor | project/src/components/Analytics.tsx:41-53 | the settled row; stated by `CashOutArithmetic` and `ChainedFinalAmounts` |
| Analytics.CashOutArithmetic | project/src/components/Analytics.tsx:41-53 | final = initial + cash + card; the period ends now and starts at the first listed transaction's `created_at` |
| Analytics.ChainedFinalAmounts | project/src/components/Analytics.tsx:50-51 | each cash-out opens at the previous one's final amount, so the final amounts accumulate |
| Analytics.LastCashOutAsWritten | project/src/components/Analytics.tsx:17 | as written, destructuring `{ data }` from the returned array yields no previous cash-out |
| Analytics.LastCashOut | project/src/components/Analytics.tsx:17-18 | the intended reading: the first returned cash-out, or none when none is returned |
| Analytics.StartOf | project/src/components/Analytics.tsx:22 | no start without a previous cash-out; its `end_time` when it has one; the epoch when that column is null, as `new Date(null)` is |
| Analytics.NullEndStartsAtEpoch | project/src/components/Analytics.tsx:17-22 | a stored cash-out without `end_time` sorts first in the descending read, so the next window starts at the epoch |
| Analytics.AsWrittenIgnoresCashOuts | project/src/components/Analytics.tsx:17-25 | as written, the window is always unbounded, every transaction is listed, and the opening amount is 0 |
| Analytics.AsWrittenTotalsEverything | project/src/components/Analytics.tsx:17-43 | as written, the listed transactions' cash and card totals are those of every stored transaction |
| Analytics.AsWrittenCountsTwice | project/src/components/Analytics.tsx:17-51 | as written, the first cash-out totals every stored transaction; once it is stored, the reload lists them all again, so the second cash-out totals the same amounts, again from an opening amount of 0 |
| Analytics.NextWindowStartsAtLatestEnd | project/src/components/Analytics.tsx:17-25 | corrected, after the latest cash-out the window starts at its end and lists exactly the transactions from then on |
| Analytics.AnalyticsPanel.constructor | project/src/components/Analytics.tsx:7-9 | no transactions, not loading, no previous cash-out |
| Analytics.AnalyticsPanel.LoadTransactions | project/src/components/Analytics.tsx:15-31 | keeps the latest cash-out and lists the transactions of its window, from the epoch when its `end_time` is null; a failed read keeps the list |
| Analytics.AnalyticsPanel.HandleCashOut | project/src/components/Analytics.tsx:33-64 | an empty list creates nothing; otherwise inserts the settled row, reloads, and ends not loading; the id counter advances exactly when a row is inserted |
| Analytics.CashOutEnabled | project/src/components/Analytics.tsx:106 | the button is enabled only when not loading and some transaction is listed; `HandleCashOut` refuses an empty list by itself as well |
| ReservationService.CreateReservation | project/src/lib/reservationService.ts:6-21 | inserts exactly one reservation stamped with `created_at`, with no check against others |
| ReservationService.GetReservations | project/src/lib/reservationService.ts:24-40 | every reservation, earliest `reservation_time` first, assuming the select text is accepted (see Left out) |
| ReservationService.GetTables | project/src/lib/reservationService.ts:65-73 | every table, lowest `table_number` first |
| ReservationService.UpdateReservationStatus | project/src/lib/reservationService.ts:43-52 | sets the status of the reservation with the id; a failure changes nothing |
| ReservationService.StatusChangeAnyToAny | project/src/lib/reservationService.ts:43-51 | any status may follow any other; only the matching reservation's status changes |
| ReservationService.DeleteReservation | project/src/lib/reservationService.ts:55-62 | deletes the reservations with the id; a failure changes nothing |
| ReservationService.DeleteKeepsOthers | project/src/lib/reservationService.ts:55-61 | the other reservations stay in order, and one row goes per match |
| ReservationService.Single | project/src/lib/reservationService.ts:78-85 | `.single()` yields the row exactly when one reservation has the id |
| ReservationService.SeatOrder | project/src/lib/reservationService.ts:88-95 | the seated order: the reservation's table, no items, total 0, pending |
| ReservationService.CreateOrderFromReservation | project/src/lib/reservationService.ts:76-110 | read, insert, update in order; no single match or a failed insert writes nothing; a failed table update keeps the order, and a reservation without a table fails that update |
| ReservationView.EmptyForm | project/src/components/Reservation.tsx:12-18 | empty fields, no table, no time, status `confirmed` |
| ReservationView.WithInput | project/src/components/Reservation.tsx:48-51 | an input change sets its own field to the value and keeps every other field, the status included |
| ReservationView.TableNumber | project/src/components/Reservation.tsx:61 | `Number(table_id)`: the selected table, or 0 for the empty choice |
| ReservationView.NoActionsAfterStatusChange | project/src/components/Reservation.tsx:214-229 | only confirmed reservations offer Cancel and Seat; after cancelling or seating, that one no longer does |
| ReservationView.ReservationPage.constructor | project/src/components/Reservation.tsx:10-18 | the empty form, hidden, no reservations |
| ReservationView.ReservationPage.HandleInputChange | project/src/components/Reservation.tsx:48-51 | applies the input and keeps the status `confirmed` |
| ReservationView.ReservationPage.LoadReservations | project/src/components/Reservation.tsx:38-45 | the list is replaced by the ordered reservations when the read succeeds |
| ReservationView.ReservationPage.HandleSubmit | project/src/components/Reservation.tsx:54-77 | sends the form as confirmed with a numeric table; on success hides and resets the form and reloads, on failure keeps everything |
| ReservationView.ReservationPage.HandleCancel | project/src/components/Reservation.tsx:80-88 | sets `cancelled`, then reloads; a failed update changes nothing |
| ReservationView.ReservationPage.HandleSeated | project/src/components/Reservation.tsx:90-99 | sets `seated` before creating the order; a failed status update creates nothing; otherwise the orders, the id counter, the tables and the result are exactly what `createOrderFromReservation` writes for the seated rows, and the list reloads only after a created order |
| ReservationView.SeatingReadsOwnTable | project/src/lib/reservationService.ts:78-91 | after seating, the read finds the same reservation, so the order gets that reservation's table |
| OrderForm.FindLine | project/src/components/OrderForm.tsx:50 | `find`: the first line for the menu item, or none when no line has it |
| OrderForm.Bump | project/src/components/OrderForm.tsx:52-56 | the quantity `map` adds the change to exactly the lines for the item and keeps every other field and line |
| OrderForm.Without | project/src/components/OrderForm.tsx:72 | the `filter` keeps exactly the lines for other items |
| OrderForm.AddItemPresent | project/src/components/OrderForm.tsx:49-56 | adding an item already in the cart raises only its line's quantity by one |
| OrderForm.AddItemAbsent | project/src/components/OrderForm.tsx:57-58 | adding a new item appends a line of one at the end |
| OrderForm.AddItem | project/src/components/OrderForm.tsx:49-60 | one more of an item in the cart, else a new line of one; stated by `AddItemPresent`, `AddItemAbsent`, `AddItemWellFormed` and `TotalAfterAdd` |
| OrderForm.RemoveItemAbsent | project/src/components/OrderForm.tsx:62-64 | removing an item not in the cart changes nothing |
| OrderForm.RemoveItemPresent | project/src/components/OrderForm.tsx:62-75 | one fewer when there is more than one; otherwise the line goes and the rest keep their order |
| OrderForm.RemoveItem | project/src/components/OrderForm.tsx:62-75 | one fewer of an item, dropping its line at the last; stated by `RemoveItemAbsent`, `RemoveItemPresent`, `RemoveItemWellFormed` and `RemoveAfterAdd` |
| OrderForm.AddItemWellFormed | project/src/components/OrderForm.tsx:49-60 | adding keeps menu-item ids unique and every quantity at least one |
| OrderForm.RemoveItemWellFormed | project/src/components/OrderForm.tsx:62-75 | removing keeps menu-item ids unique and every quantity at least one |
| OrderForm.RemoveAfterAdd | project/src/components/OrderForm.tsx:49-75 | removing an item right after adding it restores the cart, whether or not it was there |
| OrderForm.UpdateNotesOnly | project/src/components/OrderForm.tsx:77-83 | only the notes of the item's lines change; an absent item is a no-op |
| OrderForm.UpdateNotes | project/src/components/OrderForm.tsx:77-83 | the item's lines get the notes; stated by `UpdateNotesOnly` |
| OrderForm.TotalAppend | project/src/components/OrderForm.tsx:85-89 | the total of a cart with one more line rises by that line's price times quantity |
| OrderForm.TotalUpdate | project/src/components/OrderForm.tsx:85-89 | replacing a line changes the total by the difference of the line totals |
| OrderForm.TotalAfterAdd | project/src/components/OrderForm.tsx:49-60 | adding an item raises the total by exactly its price |
| OrderForm.CalculateTotal | project/src/components/OrderForm.tsx:85-89 | Σ price × quantity over the cart; stated by `TotalAppend`, `TotalUpdate` and `TotalAfterAdd`, and equal to the reference total by `AddedLinesReference` |
| OrderForm.HandleSubmit | project/src/components/OrderForm.tsx:91-94 | nothing for an empty cart; otherwise the cart and its total |
| OrderForm.CategoryOf | project/src/components/OrderForm.tsx:96 | an absent or empty category reads as "Others"; a category is never empty |
| OrderForm.CategoriesExact | project/src/components/OrderForm.tsx:96 | the category buttons are distinct, one for each category some menu item falls under |
| OrderForm.Shown | project/src/components/OrderForm.tsx:113-120 | the items listed are those of the selected category, or every item when none is selected |
| OrderDetails.PendingForExact | project/src/components/OrderDetailsModal.tsx:36-41 | the query returns exactly the table's pending orders |
| OrderDetails.FindStrict | project/src/components/OrderDetailsModal.tsx:55 | `===` never matches a string id against a numeric menu id |
| OrderDetails.Join | project/src/components/OrderDetailsModal.tsx:53-56 | each line gets its menu item; the join exists exactly when every line finds one |
| OrderDetails.QueryKeepsFirst | project/src/components/OrderDetailsModal.tsx:45-49 | the `in` query on the ids' text keeps, for each listed id, the first menu row with that id |
| OrderDetails.JoinMatchesReference | project/src/components/OrderDetailsModal.tsx:53-61 | the join succeeds exactly when every line is on the menu, and the recomputed total is Σ price × quantity |
| OrderDetails.LoadOrderExact | project/src/components/OrderDetailsModal.tsx:33-63 | the load succeeds exactly when the table has one pending order whose lines are all on the menu; the total is recomputed |
| OrderDetails.LoadOrderErrors | project/src/components/OrderDetailsModal.tsx:33-69 | no table id reads nothing; any store error fails the load |
| OrderDetails.LoadOrder | project/src/components/OrderDetailsModal.tsx:33-63 | the load of a table's order; stated by `LoadOrderExact` and `LoadOrderErrors` |
| OrderDetails.AddedLinesAsWritten | project/src/components/OrderDetailsModal.tsx:87-92 | as written, each appended line carries its menu id as text |
| OrderDetails.AddedLines | project/src/components/OrderDetailsModal.tsx:87-92 | corrected, each appended line carries its menu id as a number, with quantity, notes and menu item |
| OrderDetails.WithAdded | project/src/components/OrderDetailsModal.tsx:87-93 | the updated order keeps id, table and status; its lines are the old ones followed by one per cart line, unmerged; its total is the old total plus the submitted one |
| OrderDetails.TextLineFails | project/src/components/OrderDetailsModal.tsx:55-61 | a line whose id is text finds no menu item, so the load fails |
| OrderDetails.PendingForItemsPatch | project/src/components/OrderDetailsModal.tsx:95-101 | an items update keeps the table's pending orders, with the updated one patched |
| OrderDetails.ReloadSeesAdded | project/src/components/OrderDetailsModal.tsx:95-101 | after the corrected update, the reload reads that one order with the old lines followed by the new |
| OrderDetails.ReloadFailsAsWritten | project/src/components/OrderDetailsModal.tsx:55-61 | as written, once any item is added the order no longer loads |
| OrderDetails.ReloadAfterAdd | project/src/components/OrderDetailsModal.tsx:87-101 | corrected, the order reloads with old plus new lines, at the old total plus the cart total |
| OrderDetails.PaymentRow | project/src/components/OrderDetailsModal.tsx:183-193 | the payment: the order's total, the selected method under `payment_method`, `completed` |
| OrderDetails.PaymentOutsideCashOutTotals | project/src/components/OrderDetailsModal.tsx:187 | a payment raises the displayed sum by its amount but neither the cash nor the card total |
| OrderDetails.PaidOrderCompleted | project/src/components/OrderDetailsModal.tsx:195-200 | after the order update only the paid order changes, to `completed` |
| OrderDetails.OrderDetailsModal.constructor | project/src/components/OrderDetailsModal.tsx:25-29 | no order, loading, no error, method `cash`, add-items closed |
| OrderDetails.OrderDetailsModal.FetchOrder | project/src/components/OrderDetailsModal.tsx:31-75 | no table id: nothing; a failure: the loading error; otherwise the joined order and no error |
| OrderDetails.OrderDetailsModal.SelectPaymentMethod | project/src/components/OrderDetailsModal.tsx:154 | the selection becomes the chosen method |
| OrderDetails.OrderDetailsModal.AddItems | project/src/components/OrderDetailsModal.tsx:85-112 | appends the lines without merging and adds the total; the dialog's order changes only when the update succeeds |
| OrderDetails.OrderDetailsModal.ProcessPayment | project/src/components/OrderDetailsModal.tsx:176-215 | no method: refused, nothing written; otherwise transaction, order, table in order, stopping at the first failure and undoing none; the id counter advances exactly when the transaction is inserted |
| NewOrder.TablesById | project/src/components/NewOrderModal.tsx:26 | every row, lowest id first |
| NewOrder.AvailableRows | project/src/components/NewOrderModal.tsx:25 | exactly the available tables |
| NewOrder.AvailableIds | project/src/components/NewOrderModal.tsx:22-29 | the offered ids are in ascending order |
| NewOrder.AvailableIdsExact | project/src/components/NewOrderModal.tsx:22-29 | an id is offered exactly when some table with it is available |
| NewOrder.OccupiedNotOffered | project/src/components/NewOrderModal.tsx:59-62 | once occupied, a table is not offered; the others are offered as before |
| NewOrder.OrderLines | project/src/components/NewOrderModal.tsx:48-52 | each cart line is stored as its menu id, quantity and notes, in order |
| NewOrder.NewOrderRow | project/src/components/NewOrderModal.tsx:44-55 | the inserted order: the selected table, `pending`, the submitted total, the mapped lines |
| NewOrder.NewOrderLoads | project/src/components/NewOrderModal.tsx:44-55 | a new order for a table with no other pending order loads in the details dialog with all its lines, at the cart total |
| NewOrder.NewOrderDialog.constructor | project/src/components/NewOrderModal.tsx:13-16 | no table selected, form hidden, no tables, section 1 |
| NewOrder.NewOrderDialog.FetchTables | project/src/components/NewOrderModal.tsx:20-33 | the ids of the available tables, replaced only when data comes back |
| NewOrder.NewOrderDialog.SelectTable | project/src/components/NewOrderModal.tsx:37-40 | remembers the table and shows the order form |
| NewOrder.NewOrderDialog.Cancel | project/src/components/NewOrderModal.tsx:68-71 | clears the selected table and hides the form |
| NewOrder.NewOrderDialog.PreviousSection | project/src/components/NewOrderModal.tsx:104 | moves to the clamped previous section |
| NewOrder.NewOrderDialog.NextSection | project/src/components/NewOrderModal.tsx:114 | moves to the clamped next section |
| NewOrder.NewOrderDialog.HandleOrderSubmit | project/src/components/NewOrderModal.tsx:42-62 | no table: nothing; otherwise inserts the pending order, then notifies and occupies the table only if the insert succeeded |
| Paging.TotalSections | project/src/components/NewOrderModal.tsx:17 | ⌈n / 12⌉ |
| Paging.SliceBound | project/src/components/NewOrderModal.tsx:18 | a `slice` bound counts negatives from the end and is clamped to the list |
| Paging.Page | project/src/components/NewOrderModal.tsx:18 | a section's tables; stated by `PageContents`, `FirstSectionsPrefix` and `SectionsPartition` |
| Paging.PageContents | project/src/components/NewOrderModal.tsx:18 | a section in range shows tables `[(s-1)·12, s·12)`, between one and twelve of them |
| Paging.FirstSectionsPrefix | project/src/components/TableManagement.tsx:24 | the first k sections are the first 12·k tables |
| Paging.SectionsPartition | project/src/components/TableManagement.tsx:23-24 | the sections laid end to end give the table list back, in order |
| Paging.NavigationClamped | project/src/components/TableManagement.tsx:77-87 | Previous and Next keep the section within [1, totalSections] |
| Paging.Previous | project/src/components/TableManagement.tsx:77 | `Math.max(1, s - 1)`; stated by `NavigationClamped` and `PreviousAtLeastOne` |
| Paging.Next | project/src/components/TableManagement.tsx:87 | `Math.min(total, s + 1)`; stated by `NavigationClamped` and `NextWithNoTables` |
| Paging.PreviousAtLeastOne | project/src/components/TableManagement.tsx:77 | Previous never goes below 1 |
| Paging.NextWithNoTables | project/src/components/TableManagement.tsx:87 | with no tables, Next moves to section 0, whose page is empty |
| TableManagement.Fresh | project/src/components/TableManagement.tsx:32-33 | the rows as read, one for one, with no summaries |
| TableManagement.ColorShowsStatus | project/src/components/TableManagement.tsx:68-70 | the colour tells occupied and available apart |
| TableManagement.TableColor | project/src/components/TableManagement.tsx:68-70 | red for occupied, green otherwise; stated by `ColorShowsStatus` |
| TableManagement.SummaryLineShape | project/src/components/TableManagement.tsx:122 | a summary reads name, " x", quantity, and ends in ")" exactly when there are notes |
| TableManagement.EmptyNotesNotShown | project/src/components/TableManagement.tsx:122 | empty notes are shown like no notes |
| TableManagement.SummaryLine | project/src/components/TableManagement.tsx:122 | the one-line summary of a cart line; stated by `SummaryLineShape` and `EmptyNotesNotShown` |
| TableManagement.Summaries | project/src/components/TableManagement.tsx:122 | one summary line per cart line, in order |
| TableManagement.WithNewOrder | project/src/components/TableManagement.tsx:120-124 | exactly the tables with the id become occupied with the summary; the others and the length are kept |
| TableManagement.NewOrderKeepsMirror | project/src/components/TableManagement.tsx:119-125 | the overview's own update agrees with the store's table update |
| TableManagement.PaidTableShownAvailable | project/src/components/TableManagement.tsx:41-56 | after a payment's reload, the paid table shows as available, with no summary |
| TableManagement.TableGrid.constructor | project/src/components/TableManagement.tsx:21-59 | no tables, section 1, nothing selected, both dialogs closed |
| TableManagement.TableGrid.FetchTables | project/src/components/TableManagement.tsx:26-35 | every table, lowest id first; an error keeps the list |
| TableManagement.TableGrid.HandleTableClick | project/src/components/TableManagement.tsx:61-66 | an occupied table is selected and opens its details; clicking another table changes nothing |
| TableManagement.TableGrid.DetailsTableId | project/src/components/TableManagement.tsx:133 | the details dialog gets the selected table's id, or none |
| TableManagement.TableGrid.HandleProcessPayment | project/src/components/TableManagement.tsx:41-56 | reloads the tables, closes the details and clears the selection |
| TableManagement.TableGrid.OpenNewOrder | project/src/components/TableManagement.tsx:95 | opens the new-order dialog |
| TableManagement.TableGrid.OnNewOrder | project/src/components/TableManagement.tsx:119-127 | marks the table occupied with the order's summary and closes the dialog |
| TableManagement.TableGrid.PreviousSection | project/src/components/TableManagement.tsx:77 | moves to the clamped previous section |
| TableManagement.TableGrid.NextSection | project/src/components/TableManagement.tsx:87 | moves to the clamped next section |
| TableManagement.TableGrid.SubmitNewOrder | project/src/components/TableManagement.tsx:116-127 | the dialog's submit, then the overview's update only when the dialog notified it; the id counter advances exactly when the order is inserted |
| Auth.TrimEmptyIffBlank | project/src/components/Auth.tsx:31 | a trimmed name is empty exactly when it is only white space |
| Auth.LoginNotValidated | project/src/components/Auth.tsx:30-46 | once the handler runs, logging in makes no check of its own and calls sign-in with the email and password |
| Auth.SignUpCheckOrder | project/src/components/Auth.tsx:31-42 | names, then access code, then password: only the first failing check is reported |
| Auth.SignUpSentIff | project/src/components/Auth.tsx:31-57 | once the handler runs, it makes a sign-up call exactly when its three checks pass, with the role and both names as metadata |
| Auth.Submit | project/src/components/Auth.tsx:88-187 | the browser's `required` and `type="email"` checks, then the handler only if they pass; stated by `LoginSubmitted`, `SignUpSubmittedIff` and `BlankNamePassesBrowser` |
| Auth.LoginSubmitted | project/src/components/Auth.tsx:119-140 | a login press calls sign-in exactly when email and password are filled and the email is well formed, and otherwise does nothing |
| Auth.SignUpSubmittedIff | project/src/components/Auth.tsx:26-187 | a sign-up press calls the service exactly when email and password are filled, the email is well formed and the handler's three checks pass |
| Auth.BlankNamePassesBrowser | project/src/components/Auth.tsx:31-34 | a name of white space only fills its `required` input, so the handler's trim check refuses it |
| Auth.OnSuccessOnlyWithoutError | project/src/components/Auth.tsx:59-64 | `onSuccess` runs only when a call was made and returned no error |
| Auth.HandleSubmit | project/src/components/Auth.tsx:26-68 | the handler once the browser lets the form through: the checks of sign-up mode, then one call; stated by `LoginNotValidated`, `SignUpCheckOrder`, `SignUpSentIff` and `OnSuccessOnlyWithoutError` |
| Inventory.IndexOfName | inventario/script.js:8 | `find`: the first row with the name, or none when no row has it |
| Inventory.Spliced | inventario/script.js:25 | `splice(index, 1)` drops row `index` when it is in range and nothing past the end |
| Inventory.Inventory.constructor | inventario/script.js:1 | an empty inventory |
| Inventory.Inventory.FindByName | inventario/script.js:8 | the scan finds the first row with the name |
| Inventory.Inventory.AddItem | inventario/script.js:3-22 | a valid input merges or pushes; an empty name or a non-numeric quantity changes nothing |
| Inventory.Inventory.DeleteItem | inventario/script.js:24-27 | the list after `splice(index, 1)` |
| Inventory.AddMergesOrAppends | inventario/script.js:8-13 | an existing name gets the quantity added in place and the length is kept; a new name is appended |
| Inventory.Added | inventario/script.js:8-13 | the list after a valid add; stated by `AddMergesOrAppends`, `AddedUniqueNames` and `AddedTotal` |
| Inventory.AddedUniqueNames | inventario/script.js:8-13 | a valid add keeps names unique |
| Inventory.AfterAddsUniqueNames | inventario/script.js:7-21 | names stay unique across any sequence of adds, valid or not |
| Inventory.AddedTotal | inventario/script.js:7-13 | a valid add raises the sum of quantities by exactly the quantity given, of any sign |
| Inventory.InvalidAddUnchanged | inventario/script.js:19-21 | after any series of submissions, a rejected last one leaves the inventory as the earlier ones left it |
| Inventory.DeleteRemovesOne | inventario/script.js:24-25 | deleting index i removes exactly row i; the others keep their order |
| Mesas.TableButton.constructor | mesas/script.js:3 | a button with the markup's class state and status |
| Mesas.TableButton.Click | mesas/script.js:6-12 | toggles `occupied`, then `data-status` mirrors it |
| Mesas.ClickOne | mesas/script.js:5-13 | a click changes only the clicked button |
| Mesas.ClickTwice | mesas/script.js:7 | two clicks restore the class state |

## Left out

- Rendering, styling, toasts, the open and closed state of modals beyond the flags the handlers set, `project/src/App.tsx` and `project/src/components/UserProfile.tsx`: these are display code with no rules to state.
- The hosted row store and the authentication client are not modelled as code. The store is an in-memory object whose calls succeed or fail by a flag. The authentication service is reduced to whether it answers with an error. Query building, the network and `onAuthStateChange` are left out.
- Asynchronous interleaving: each handler is one sequential run, and a reload it triggers without awaiting runs in place.
- Dates are integers. ISO strings, `toLocaleString`, `toFixed` and JavaScript floating point are left out, and money is an integer number of cents. A reservation time that does not parse is an absent time, which makes `handleSubmit` throw before sending.
- The `tables (...)` relation that `getReservations` selects is not modelled; the reservations are returned as stored rows.
- ReservationService.GetReservations: assumes the store accepts the select text of project/src/lib/reservationService.ts:27-35 and returns the rows. That text ends in the SQL comment `-- Relación con la tabla tables`, and the client drops only whitespace from a select string before sending it. If the server refuses the text, line 38 throws on every call: the reservation list never fills, and no reservation offers Cancel or Seated. The model does not capture that failure; a read fails only through its failure flag.
- The menu fetch of the order form (its `order('category')`) is not modelled; the order form takes the menu as given.
- The `.in('id', ids)` query of the details dialog compares stored numeric ids with their decimal text; the store's cast is not modelled beyond `IntToString`.
- A query with no `order(...)` (`getCashOuts`) returns the rows in the order they were stored; any other server order is not modelled.
- The new-order dialog calls a `fetchTables` that is not in scope at its line 63 (project/src/components/NewOrderModal.tsx:63); that call throws after both writes, so `HandleOrderSubmit` ends there and the dialog's list is not reloaded.
- The details dialog never calls its `onProcessPayment` prop. A payment ends with `refreshTables()` and `onClose()` (project/src/components/OrderDetailsModal.tsx:209-210). So `TableGrid.HandleProcessPayment` is modelled as written, but no handler in the model calls it. The `refreshTables` reloads after a payment and after adding items are also not modelled.
- `Reservation.tsx` passes the table id as a second argument to `createOrderFromReservation`, which ignores it; the model reads the table from the stored reservation, as the service does.
- The browser's `required` validation of the reservation form is not modelled; the page's own handler is modelled.
- Auth.Submit: the `type="email"` syntax check is a parameter, `emailValid`. The browser's grammar for a valid email address and its trimming of the value are not modelled. The `required` check is modelled exactly: a required input is missing only when it is empty.
- The `isOpen` gate of the dialogs' effects is not modelled; `FetchOrder` and `FetchTables` are the effect bodies.
- `project/src/types/index.ts` declares types only; its records and status enumerations are the datatypes of `types.dfy`, with no members of their own.
- Analytics.AnalyticsPanel.LoadTransactions: uses the corrected lookup of the previous cash-out (see Findings), not the one written at project/src/components/Analytics.tsx:17.
- Analytics.AnalyticsPanel.HandleCashOut: reloads through the corrected `LoadTransactions`, so its opening amount is the latest cash-out's final amount rather than the 0 the written code always uses.
- OrderDetails.OrderDetailsModal.AddItems: stores the numeric menu id (see Findings), not the text written at project/src/components/OrderDetailsModal.tsx:88.
- The store has no column defaults: a row holds exactly the keys its writer sent. So a transaction written by `createTransaction` has no `created_at`, and one written by the payment dialog has no `paymentMethod`. A `default now()` on `created_at` would put the service's transactions into the cash-out window. `Services.CreatedTransactionOutsideWindows`, `Analytics.UnkeyedRowsCountInNeither` and `OrderDetails.PaymentOutsideCashOutTotals` rest on this.
- Table and menu rows are given to the store whole; their ids do not come from the store's counter, and the id invariant says nothing about them.
- OrderDetails.MenuRowsIn: its own contract states only a length bound; what the query keeps is stated by `QueryKeepsFirst`.

## Findings

| source | as written | input that shows it | evidently intended | confidence | as-written member | corrected member |
|---|---|---|---|---|---|---|
| project/src/components/Analytics.tsx:17 | `const { data: cashouts } = await cashOutService.getCashOuts()` destructures `data` from the array that `getCashOuts` already returns (project/src/lib/services.ts:102), so `cashouts` is undefined and there is never a previous cash-out | any store with one cash-out and the transactions it settled: the next cash-out lists and totals them again, from an opening amount of 0 | take the returned array itself and its first (latest) row | not executed | Analytics.LastCashOutAsWritten | Analytics.LastCashOut |
| project/src/lib/services.ts:96-99 | `getCashOuts` applies no `order(...)`, yet its first row is used as the latest cash-out | two cash-outs stored oldest first: the first row returned ends at 10, the latest at 20 | order by `end_time`, descending | not executed | Services.GetCashOuts | Services.GetCashOutsLatestFirst |
| project/src/components/OrderDetailsModal.tsx:88 | added lines store `menu_item_id` as `item.menuItem.id.toString()`, but the join at line 55 compares with `===` against numeric menu ids | load an order, add one item, reload: the added line finds no menu item and `item.menu_item.price` at line 61 throws, so the order no longer loads | store the numeric id, as `createOrder` and the new-order dialog do | not executed | OrderDetails.ReloadFailsAsWritten | OrderDetails.ReloadAfterAdd |
