/**
 * The order-details dialog of an occupied table
 * (project/src/components/OrderDetailsModal.tsx). It loads the table's one
 * pending order and joins each line to its menu item, recomputing the total.
 * It appends the lines of a further cart to the order. It settles the bill
 * in three writes: a transaction, the order `completed`, the table
 * `available`.
 *
 * The dialog's add-items handler stores each new line's `menu_item_id` as a
 * string. The join on load compares with `===` against numeric menu ids, so
 * no such line ever finds its item, and the next load fails (see the README's
 * findings). Both the handler as written and the corrected handler, which
 * stores the number, are modelled; the dialog uses the corrected one.
 */
module OrderDetails {
  import opened Types
  import opened Text
  import opened Store
  import opened OrderForm
  import opened Analytics

  // ---------------------------------------------------------------------------
  // Loading the order

  /** `.eq('table_id', tableId).eq('status', 'pending')` on `orders`. */
  function PendingFor(rows: seq<OrderRow>, tableId: int): seq<OrderRow>
  {
    if rows == [] then []
    else (if rows[0].table_id == Some(tableId) && rows[0].status == Pending then [rows[0]] else []) + PendingFor(rows[1..], tableId)
  }

  /** The query returns exactly the table's pending orders. */
  lemma {:induction false} PendingForExact(rows: seq<OrderRow>, tableId: int)
    ensures forall o :: o in PendingFor(rows, tableId) <==> o in rows && o.table_id == Some(tableId) && o.status == Pending
  {
    if rows != [] {
      PendingForExact(rows[1..], tableId);
      assert rows == [rows[0]] + rows[1..];
    }
  }

  /** `item.menu_item_id.toString()`. */
  function RefText(ref: ItemRef): string
  {
    match ref
    case NumRef(n) => IntToString(n)
    case TextRef(s) => s
  }

  function IdTexts(lines: seq<StoredLine>): (r: seq<string>)
    ensures |r| == |lines|
    ensures forall i :: 0 <= i < |lines| ==> r[i] == RefText(lines[i].menu_item_id)
  {
    if lines == [] then [] else [RefText(lines[0].menu_item_id)] + IdTexts(lines[1..])
  }

  /**
   * `.select('id, name, price').in('id', ids)` on `menu_items`: the rows whose
   * id is one of the listed strings, in the store's order, without `category`.
   */
  function MenuRowsIn(menu: seq<MenuItem>, ids: seq<string>): (r: seq<MenuItem>)
    ensures |r| <= |menu|
  {
    if menu == [] then []
    else (if IntToString(menu[0].id) in ids then [menu[0].(category := None)] else []) + MenuRowsIn(menu[1..], ids)
  }

  /** The first menu row with the numeric id. */
  function FirstById(rows: seq<MenuItem>, n: int): (r: Option<MenuItem>)
    ensures r.Some? ==> r.value in rows && r.value.id == n
  {
    if rows == [] then None
    else if rows[0].id == n then Some(rows[0])
    else FirstById(rows[1..], n)
  }

  /** `menuItemsData.find(mi => mi.id === ref)`: a string id never equals a numeric one. */
  function FindStrict(rows: seq<MenuItem>, ref: ItemRef): (r: Option<MenuItem>)
    ensures ref.TextRef? ==> r.None?
    ensures ref.NumRef? ==> r == FirstById(rows, ref.n)
  {
    match ref
    case NumRef(n) => FirstById(rows, n)
    case TextRef(_) => None
  }

  /**
   * The lines with their `menu_item` replaced by the find, or `None` when a
   * line finds nothing (reading its price for the total then throws).
   */
  function Join(lines: seq<StoredLine>, rows: seq<MenuItem>): (r: Option<seq<StoredLine>>)
    ensures r.Some? <==> forall i :: 0 <= i < |lines| ==> FindStrict(rows, lines[i].menu_item_id).Some?
    ensures r.Some? ==> (|r.value| == |lines| &&
      forall i :: 0 <= i < |lines| ==> r.value[i] == lines[i].(menu_item := FindStrict(rows, lines[i].menu_item_id)))
  {
    if lines == [] then Some([])
    else
      var rest := Join(lines[1..], rows);
      var found := FindStrict(rows, lines[0].menu_item_id);
      if found.Some? && rest.Some? then Some([lines[0].(menu_item := found)] + rest.value)
      else
        assert found.Some? ==> exists i :: 1 <= i < |lines| && FindStrict(rows, lines[i].menu_item_id).None? by {
          if found.Some? {
            var j :| 0 <= j < |lines[1..]| && FindStrict(rows, lines[1..][j].menu_item_id).None?;
            assert lines[1..][j] == lines[j + 1];
          }
        }
        None
  }

  /** The `reduce` of price times quantity over joined lines. */
  function JoinedTotal(lines: seq<StoredLine>): int
  {
    if lines == [] then 0
    else (if lines[0].menu_item.Some? then lines[0].menu_item.value.price * lines[0].quantity else 0) + JoinedTotal(lines[1..])
  }

  datatype LoadResult = Skipped | LoadFailed | Loaded(order: OrderRow)

  /**
   * The second half of `fetchOrder` for the one order read: its lines joined
   * to the menu rows their ids select, and the total recomputed from them.
   */
  function LoadLines(o: OrderRow, menu: seq<MenuItem>): LoadResult
  {
    var joined := Join(o.items, MenuRowsIn(menu, IdTexts(o.items)));
    if joined.None? then LoadFailed else Loaded(o.(items := joined.value, total := JoinedTotal(joined.value)))
  }

  /**
   * `fetchOrder`: nothing without a table id; otherwise the one pending order
   * of the table (`.single()` fails on any other count), its lines joined to
   * the menu and its total recomputed. Either store error, or a line without
   * its menu item, fails the load.
   */
  function LoadOrder(orders: seq<OrderRow>, menu: seq<MenuItem>, tableId: Option<int>,
                     failOrder: bool, failMenu: bool): LoadResult
  {
    if tableId.None? || tableId.value == 0 then Skipped
    else if failOrder || |PendingFor(orders, tableId.value)| != 1 || failMenu then LoadFailed
    else LoadLines(PendingFor(orders, tableId.value)[0], menu)
  }

  // ---------------------------------------------------------------------------
  // The reference reading of a stored order

  /** Every line names a menu item by number, and the menu has that item. */
  ghost predicate Listed(lines: seq<StoredLine>, menu: seq<MenuItem>)
  {
    forall i :: 0 <= i < |lines| ==>
      lines[i].menu_item_id.NumRef? && FirstById(menu, lines[i].menu_item_id.n).Some?
  }

  /** Σ price × quantity with each line priced by the first menu row of its id. */
  function ReferenceTotal(lines: seq<StoredLine>, menu: seq<MenuItem>): int
  {
    if lines == [] then 0
    else
      var ref := lines[0].menu_item_id;
      (if ref.NumRef? && FirstById(menu, ref.n).Some? then FirstById(menu, ref.n).value.price * lines[0].quantity else 0)
      + ReferenceTotal(lines[1..], menu)
  }

  /** The `in` query keeps, for every listed id, the first menu row with that id. */
  lemma {:induction false} QueryKeepsFirst(menu: seq<MenuItem>, ids: seq<string>, n: int)
    requires IntToString(n) in ids
    ensures FirstById(MenuRowsIn(menu, ids), n).Some? <==> FirstById(menu, n).Some?
    ensures FirstById(menu, n).Some? ==>
      FirstById(MenuRowsIn(menu, ids), n).value.price == FirstById(menu, n).value.price
  {
    if menu != [] {
      var head := if IntToString(menu[0].id) in ids then [menu[0].(category := None)] else [];
      var q := MenuRowsIn(menu, ids);
      assert q == head + MenuRowsIn(menu[1..], ids);
      if menu[0].id == n {
        assert q[0] == menu[0].(category := None);
      } else {
        QueryKeepsFirst(menu[1..], ids, n);
        if head != [] {
          assert q[0].id != n;
          assert q[1..] == MenuRowsIn(menu[1..], ids);
        } else {
          assert q == MenuRowsIn(menu[1..], ids);
        }
      }
    }
  }

  /**
   * Joining against the queried menu rows succeeds exactly when every line is
   * listed, and then the recomputed total is the reference total.
   */
  lemma {:induction false} JoinMatchesReference(lines: seq<StoredLine>, menu: seq<MenuItem>, ids: seq<string>)
    requires forall i :: 0 <= i < |lines| ==> RefText(lines[i].menu_item_id) in ids
    ensures Join(lines, MenuRowsIn(menu, ids)).Some? <==> Listed(lines, menu)
    ensures Join(lines, MenuRowsIn(menu, ids)).Some? ==>
      JoinedTotal(Join(lines, MenuRowsIn(menu, ids)).value) == ReferenceTotal(lines, menu)
  {
    var rows := MenuRowsIn(menu, ids);
    forall i | 0 <= i < |lines|
      ensures FindStrict(rows, lines[i].menu_item_id).Some? <==>
        lines[i].menu_item_id.NumRef? && FirstById(menu, lines[i].menu_item_id.n).Some?
    {
      if lines[i].menu_item_id.NumRef? {
        QueryKeepsFirst(menu, ids, lines[i].menu_item_id.n);
      }
    }
    if lines != [] && Listed(lines, menu) {
      JoinMatchesReference(lines[1..], menu, ids);
      var ref := lines[0].menu_item_id;
      QueryKeepsFirst(menu, ids, ref.n);
      assert Listed(lines[1..], menu) by {
        forall i | 0 <= i < |lines[1..]|
          ensures lines[1..][i].menu_item_id.NumRef? && FirstById(menu, lines[1..][i].menu_item_id.n).Some?
        {
          assert lines[1..][i] == lines[i + 1];
        }
      }
      var joined := Join(lines, rows).value;
      assert joined[1..] == Join(lines[1..], rows).value;
    }
  }

  /** The reference total and listing depend only on each line's id and quantity. */
  lemma {:induction false} ReferenceSameRefs(a: seq<StoredLine>, b: seq<StoredLine>, menu: seq<MenuItem>)
    requires |a| == |b|
    requires forall i :: 0 <= i < |a| ==> a[i].menu_item_id == b[i].menu_item_id && a[i].quantity == b[i].quantity
    ensures ReferenceTotal(a, menu) == ReferenceTotal(b, menu)
    ensures Listed(a, menu) <==> Listed(b, menu)
  {
    if a != [] {
      ReferenceSameRefs(a[1..], b[1..], menu);
    }
  }

  lemma {:induction false} ReferenceTotalAppend(a: seq<StoredLine>, b: seq<StoredLine>, menu: seq<MenuItem>)
    ensures ReferenceTotal(a + b, menu) == ReferenceTotal(a, menu) + ReferenceTotal(b, menu)
  {
    if a == [] {
      assert a + b == b;
    } else {
      assert (a + b)[0] == a[0];
      assert (a + b)[1..] == a[1..] + b;
      ReferenceTotalAppend(a[1..], b, menu);
    }
  }

  /**
   * With a table id and no store error, the load succeeds exactly when the
   * table has one pending order whose every line is listed on the menu; the
   * loaded order is that row, with the same number of lines and the
   * reference total.
   */
  lemma {:induction false} LoadOrderExact(orders: seq<OrderRow>, menu: seq<MenuItem>, t: int)
    requires t != 0
    ensures var r := LoadOrder(orders, menu, Some(t), false, false);
      var pending := PendingFor(orders, t);
      (r.Loaded? <==> |pending| == 1 && Listed(pending[0].items, menu)) &&
      (r.Loaded? ==> r.order.(items := pending[0].items, total := pending[0].total) == pending[0] &&
                     |r.order.items| == |pending[0].items| &&
                     r.order.total == ReferenceTotal(pending[0].items, menu))
  {
    var pending := PendingFor(orders, t);
    if |pending| == 1 {
      var o := pending[0];
      JoinMatchesReference(o.items, menu, IdTexts(o.items));
    }
  }

  /** Without a table id nothing is read; with one, any store error fails the load. */
  lemma {:induction false} LoadOrderErrors(orders: seq<OrderRow>, menu: seq<MenuItem>, tableId: Option<int>, failOrder: bool, failMenu: bool)
    ensures tableId.None? || tableId == Some(0) <==> LoadOrder(orders, menu, tableId, failOrder, failMenu).Skipped?
    ensures tableId.Some? && tableId.value != 0 && (failOrder || failMenu) ==>
      LoadOrder(orders, menu, tableId, failOrder, failMenu) == LoadFailed
  {
  }

  /** The load succeeded, with the total and the number of lines given. */
  predicate LoadsWith(r: LoadResult, total: int, lineCount: int)
  {
    r.Loaded? && r.order.total == total && |r.order.items| == lineCount
  }

  // ---------------------------------------------------------------------------
  // Adding items

  /** The lines the add-items handler appends, as written: the menu id as a string. */
  function AddedLinesAsWritten(cart: seq<CartLine>): (r: seq<StoredLine>)
    ensures |r| == |cart|
    ensures forall i :: 0 <= i < |cart| ==>
      r[i] == StoredLine(TextRef(IntToString(cart[i].menuItem.id)), cart[i].quantity, cart[i].notes, Some(cart[i].menuItem))
  {
    if cart == [] then []
    else [StoredLine(TextRef(IntToString(cart[0].menuItem.id)), cart[0].quantity, cart[0].notes, Some(cart[0].menuItem))]
         + AddedLinesAsWritten(cart[1..])
  }

  /** The lines the corrected handler appends: the menu id as the number it is. */
  function AddedLines(cart: seq<CartLine>): (r: seq<StoredLine>)
    ensures |r| == |cart|
    ensures forall i :: 0 <= i < |cart| ==>
      r[i] == StoredLine(NumRef(cart[i].menuItem.id), cart[i].quantity, cart[i].notes, Some(cart[i].menuItem))
  {
    if cart == [] then []
    else [StoredLine(NumRef(cart[0].menuItem.id), cart[0].quantity, cart[0].notes, Some(cart[0].menuItem))]
         + AddedLines(cart[1..])
  }

  /** An items update keeps every row's table and status, so it commutes with the pending-order filter. */
  lemma {:induction false} PendingForItemsPatch(rows: seq<OrderRow>, t: int, id: Id, items: seq<StoredLine>, total: int)
    ensures PendingFor(PatchOrders(rows, id, ItemsPatch(items, total)), t) ==
      PatchOrders(PendingFor(rows, t), id, ItemsPatch(items, total))
  {
    if rows != [] {
      var p := ItemsPatch(items, total);
      var x := rows[0];
      var px := if x.id == id then ApplyOrderPatch(x, p) else x;
      var after := PatchOrders(rows, id, p);
      assert after[0] == px;
      assert after[1..] == PatchOrders(rows[1..], id, p);
      PendingForItemsPatch(rows[1..], t, id, items, total);
      var rest := PendingFor(rows[1..], t);
      if x.table_id == Some(t) && x.status == Pending {
        assert PendingFor(rows, t) == [x] + rest;
        assert PendingFor(after, t) == [px] + PatchOrders(rest, id, p);
        PatchOrdersCons(x, rest, id, p);
      } else {
        assert PendingFor(rows, t) == rest;
        assert PendingFor(after, t) == PendingFor(after[1..], t);
      }
    }
  }

  lemma {:induction false} PatchOrdersCons(x: OrderRow, rows: seq<OrderRow>, id: Id, p: OrderPatch)
    ensures PatchOrders([x] + rows, id, p) == [if x.id == id then ApplyOrderPatch(x, p) else x] + PatchOrders(rows, id, p)
  {
    assert ([x] + rows)[1..] == rows;
  }

  /** What a successful load says about the stored row it came from. */
  lemma {:induction false} LoadedFrom(orders: seq<OrderRow>, menu: seq<MenuItem>, t: int, local: OrderRow)
    requires t != 0
    requires LoadOrder(orders, menu, Some(t), false, false) == Loaded(local)
    ensures |PendingFor(orders, t)| == 1
    ensures var o := PendingFor(orders, t)[0];
      Join(o.items, MenuRowsIn(menu, IdTexts(o.items))) == Some(local.items) &&
      local == o.(items := local.items, total := JoinedTotal(local.items))
  {
  }

  /** With one pending order and no store error, the load is that order's join. */
  lemma {:induction false} LoadOfOne(orders: seq<OrderRow>, menu: seq<MenuItem>, t: int)
    requires t != 0 && |PendingFor(orders, t)| == 1
    ensures LoadOrder(orders, menu, Some(t), false, false) == LoadLines(PendingFor(orders, t)[0], menu)
  {
  }

  /** After an items update of the loaded order, the reload sees that one order with the new lines. */
  lemma {:induction false} ReloadSeesPatchedOrder(orders: seq<OrderRow>, menu: seq<MenuItem>, t: int, local: OrderRow,
                               items: seq<StoredLine>, total: int)
    requires t != 0
    requires LoadOrder(orders, menu, Some(t), false, false) == Loaded(local)
    ensures var pending := PendingFor(PatchOrders(orders, local.id, ItemsPatch(items, total)), t);
      |pending| == 1 && pending[0].items == items && pending[0].id == local.id
  {
    LoadedFrom(orders, menu, t, local);
    PendingForItemsPatch(orders, t, local.id, items, total);
  }

  /**
   * As written, adding any item makes the order unloadable: the appended
   * lines' string ids find no menu item on the next load.
   */
  lemma {:induction false} ReloadFailsAsWritten(orders: seq<OrderRow>, menu: seq<MenuItem>, t: int, local: OrderRow,
                             cart: seq<CartLine>, total: int)
    requires t != 0 && cart != []
    requires LoadOrder(orders, menu, Some(t), false, false) == Loaded(local)
    ensures LoadOrder(PatchOrders(orders, local.id, ItemsPatch(local.items + AddedLinesAsWritten(cart), local.total + total)),
                      menu, Some(t), false, false) == LoadFailed
  {
    var items := local.items + AddedLinesAsWritten(cart);
    var after := PatchOrders(orders, local.id, ItemsPatch(items, local.total + total));
    ReloadSeesPatchedOrder(orders, menu, t, local, items, local.total + total);
    LoadOfOne(after, menu, t);
    var k := |local.items|;
    assert items[k] == AddedLinesAsWritten(cart)[0];
    TextLineFails(PendingFor(after, t)[0], menu, k);
  }

  /** A line whose id is a string finds nothing, so the load fails. */
  lemma TextLineFails(o: OrderRow, menu: seq<MenuItem>, k: int)
    requires 0 <= k < |o.items| && o.items[k].menu_item_id.TextRef?
    ensures LoadLines(o, menu) == LoadFailed
  {
    assert FindStrict(MenuRowsIn(menu, IdTexts(o.items)), o.items[k].menu_item_id).None?;
  }

  /**
   * The `orders` rows after the corrected add-items update of the loaded
   * order, with the cart's own total added to the order's.
   */
  function AfterAdding(orders: seq<OrderRow>, local: OrderRow, cart: seq<CartLine>): seq<OrderRow>
  {
    PatchOrders(orders, local.id, AddingPatch(local, cart, CalculateTotal(cart)))
  }

  /** Every cart item is on the menu at the price the cart carries. */
  ghost predicate PricedByMenu(cart: seq<CartLine>, menu: seq<MenuItem>)
  {
    forall i :: 0 <= i < |cart| ==>
      FirstById(menu, cart[i].menuItem.id).Some? && FirstById(menu, cart[i].menuItem.id).value.price == cart[i].menuItem.price
  }

  lemma {:induction false} AddedLinesReference(cart: seq<CartLine>, menu: seq<MenuItem>)
    requires PricedByMenu(cart, menu)
    ensures Listed(AddedLines(cart), menu)
    ensures ReferenceTotal(AddedLines(cart), menu) == CalculateTotal(cart)
  {
    if cart != [] {
      assert PricedByMenu(cart[1..], menu) by {
        forall i | 0 <= i < |cart[1..]|
          ensures FirstById(menu, cart[1..][i].menuItem.id).Some? &&
                  FirstById(menu, cart[1..][i].menuItem.id).value.price == cart[1..][i].menuItem.price
        {
          assert cart[1..][i] == cart[i + 1];
        }
      }
      AddedLinesReference(cart[1..], menu);
      assert AddedLines(cart)[1..] == AddedLines(cart[1..]);
    }
  }

  /**
   * With the corrected handler, the order still loads after adding a cart
   * whose items are on the menu at their cart prices, and the recomputed
   * total is the old total plus the cart total: the same total the update
   * stored when the cart's own total was submitted.
   */
  lemma {:induction false} ReloadAfterAdd(orders: seq<OrderRow>, menu: seq<MenuItem>, t: int, local: OrderRow, cart: seq<CartLine>)
    requires t != 0
    requires LoadOrder(orders, menu, Some(t), false, false) == Loaded(local)
    requires PricedByMenu(cart, menu)
    ensures LoadsWith(LoadOrder(AfterAdding(orders, local, cart), menu, Some(t), false, false),
                      local.total + CalculateTotal(cart), |local.items| + |cart|)
  {
    var items := local.items + AddedLines(cart);
    var newTotal := local.total + CalculateTotal(cart);
    var after := AfterAdding(orders, local, cart);
    assert ReferenceTotal(items, menu) == newTotal && Listed(items, menu) by {
      LoadedListed(orders, menu, t, local);
      AddedLinesReference(cart, menu);
      ReferenceTotalAppend(local.items, AddedLines(cart), menu);
      ListedAppend(local.items, AddedLines(cart), menu);
    }
    ReloadSeesAdded(orders, menu, t, local, cart);
    assert |items| == |local.items| + |cart|;
    LoadOfListed(after, menu, t, items, newTotal);
  }

  /** After the corrected add-items update, the reload sees the one order with the appended lines. */
  lemma {:induction false} ReloadSeesAdded(orders: seq<OrderRow>, menu: seq<MenuItem>, t: int, local: OrderRow, cart: seq<CartLine>)
    requires t != 0
    requires LoadOrder(orders, menu, Some(t), false, false) == Loaded(local)
    ensures |PendingFor(AfterAdding(orders, local, cart), t)| == 1
    ensures PendingFor(AfterAdding(orders, local, cart), t)[0].items == local.items + AddedLines(cart)
  {
    var items, total := local.items + AddedLines(cart), local.total + CalculateTotal(cart);
    assert AddingPatch(local, cart, CalculateTotal(cart)) == ItemsPatch(items, total);
    assert AfterAdding(orders, local, cart) == PatchOrders(orders, local.id, ItemsPatch(items, total));
    ReloadSeesPatchedOrder(orders, menu, t, local, items, total);
  }

  /** A table with one pending order whose lines are all listed loads, at the reference total. */
  lemma {:induction false} LoadOfListed(orders: seq<OrderRow>, menu: seq<MenuItem>, t: int, lines: seq<StoredLine>, total: int)
    requires t != 0 && |PendingFor(orders, t)| == 1 && PendingFor(orders, t)[0].items == lines
    requires Listed(lines, menu) && ReferenceTotal(lines, menu) == total
    ensures LoadsWith(LoadOrder(orders, menu, Some(t), false, false), total, |lines|)
  {
    JoinMatchesReference(lines, menu, IdTexts(lines));
    LoadOfOne(orders, menu, t);
  }

  /** A loaded order's lines are all listed, and its total is their reference total. */
  lemma {:induction false} LoadedListed(orders: seq<OrderRow>, menu: seq<MenuItem>, t: int, local: OrderRow)
    requires t != 0
    requires LoadOrder(orders, menu, Some(t), false, false) == Loaded(local)
    ensures Listed(local.items, menu) && local.total == ReferenceTotal(local.items, menu)
  {
    LoadedFrom(orders, menu, t, local);
    var o := PendingFor(orders, t)[0];
    JoinMatchesReference(o.items, menu, IdTexts(o.items));
    ReferenceSameRefs(local.items, o.items, menu);
  }

  lemma {:induction false} ListedAppend(a: seq<StoredLine>, b: seq<StoredLine>, menu: seq<MenuItem>)
    requires Listed(a, menu) && Listed(b, menu)
    ensures Listed(a + b, menu)
  {
    forall i | 0 <= i < |a + b|
      ensures (a + b)[i].menu_item_id.NumRef? && FirstById(menu, (a + b)[i].menu_item_id.n).Some?
    {
      if i >= |a| {
        assert (a + b)[i] == b[i - |a|];
      }
    }
  }

  // ---------------------------------------------------------------------------
  // Paying

  /** The row the payment handler inserts, with its own snake-case keys. */
  function PaymentRow(id: Id, order: OrderRow, paymentMethod: string, now: Time): (t: TransactionRow)
    ensures t.order_id == Some(order.id) && t.amount == order.total && t.payment_method == Some(paymentMethod)
    ensures t.status == TxCompleted && t.created_at == Some(now)
    ensures t.paymentMethod.None? && t.orderId.None? && t.createdAt.None?
  {
    TransactionRow(id, Some(order.id), None, order.total, Some(paymentMethod), None, TxCompleted, Some(now), None)
  }

  lemma {:induction false} SumAmountsAppend(txs: seq<TransactionRow>, t: TransactionRow)
    ensures SumAmounts(txs + [t]) == SumAmounts(txs) + t.amount
  {
    if txs != [] {
      assert (txs + [t])[1..] == txs[1..] + [t];
      SumAmountsAppend(txs[1..], t);
    }
  }

  /**
   * A payment raises the displayed total by the order's total but neither
   * the cash nor the card total, since the cash-out reads `paymentMethod` and
   * the payment writes `payment_method`.
   */
  lemma {:induction false} PaymentOutsideCashOutTotals(txs: seq<TransactionRow>, id: Id, order: OrderRow, paymentMethod: string, now: Time)
    ensures var row := PaymentRow(id, order, paymentMethod, now);
      TotalCash(txs + [row]) == TotalCash(txs) && TotalCard(txs + [row]) == TotalCard(txs) &&
      SumAmounts(txs + [row]) == SumAmounts(txs) + order.total
  {
    var row := PaymentRow(id, order, paymentMethod, now);
    SumForAppend(txs, [row], "cash");
    SumForAppend(txs, [row], "card");
    SumAmountsAppend(txs, row);
  }

  /** After the order update of a payment, every row of that order is `completed`. */
  lemma {:induction false} PaidOrderCompleted(orders: seq<OrderRow>, orderId: Id)
    ensures var after := PatchOrders(orders, orderId, StatusPatch(Completed, None));
      forall i :: 0 <= i < |orders| ==>
        (orders[i].id == orderId ==> after[i] == orders[i].(status := Completed)) &&
        (orders[i].id != orderId ==> after[i] == orders[i])
  {
  }

  /**
   * The order as the add-items callback leaves it: the cart's lines after
   * the order's own, unmerged, and the submitted total added to the order's.
   */
  function WithAdded(o: OrderRow, cart: seq<CartLine>, total: int): (r: OrderRow)
    ensures r.id == o.id && r.table_id == o.table_id && r.status == o.status
    ensures |r.items| == |o.items| + |cart| && r.items[..|o.items|] == o.items
    ensures r.total == o.total + total
  {
    o.(items := o.items + AddedLines(cart), total := o.total + total)
  }

  /** The update the add-items callback sends: the new lines and the new total. */
  function AddingPatch(o: OrderRow, cart: seq<CartLine>, total: int): OrderPatch
  {
    ItemsPatch(WithAdded(o, cart, total).items, WithAdded(o, cart, total).total)
  }

  // ---------------------------------------------------------------------------
  // The dialog

  datatype DialogError = LoadingError | AddingError | NoPaymentMethod | PaymentError

  class OrderDetailsModal {
    /** The table whose order is shown (the `tableId` prop). */
    const tableId: Option<int>
    var order: Option<OrderRow>
    var loading: bool
    var error: Option<DialogError>
    var selectedPaymentMethod: string
    var showAddItems: bool

    constructor (tableId: Option<int>)
      ensures this.tableId == tableId
      ensures order.None? && loading && error.None? && selectedPaymentMethod == "cash" && !showAddItems
    {
      this.tableId := tableId;
      order := None;
      loading := true;
      error := None;
      selectedPaymentMethod := "cash";
      showAddItems := false;
    }

    /** `fetchOrder`, run when the dialog opens. */
    method FetchOrder(store: Store, failOrder: bool, failMenu: bool)
      modifies this`order, this`loading, this`error
      ensures var r := LoadOrder(store.orders, store.menu, tableId, failOrder, failMenu);
        (r.Skipped? ==> order == old(order) && loading == old(loading) && error == old(error)) &&
        (r.LoadFailed? ==> order == old(order) && !loading && error == Some(LoadingError)) &&
        (r.Loaded? ==> order == Some(r.order) && !loading && error.None?)
    {
      var r := LoadOrder(store.orders, store.menu, tableId, failOrder, failMenu);
      match r
      case Skipped =>
      case LoadFailed =>
        error := Some(LoadingError);
        loading := false;
      case Loaded(o) =>
        order := Some(o);
        error := None;
        loading := false;
    }

    method SelectPaymentMethod(paymentMethod: string)
      modifies this`selectedPaymentMethod
      ensures selectedPaymentMethod == paymentMethod
    {
      selectedPaymentMethod := paymentMethod;
    }

    /**
     * The add-items callback (corrected): append the cart's lines after the
     * order's, without merging, and add the submitted total. The dialog's
     * order changes only when the update succeeds; with no order loaded the
     * handler fails before writing.
     */
    method AddItems(store: Store, cart: seq<CartLine>, total: int, failUpdate: bool)
      requires store.Valid()
      modifies this`order, this`showAddItems, this`error, store`orders
      ensures store.Valid()
      ensures old(order).None? ==> (error == Some(AddingError) && store.orders == old(store.orders) &&
        order == old(order) && showAddItems == old(showAddItems))
      ensures old(order).Some? ==> (
        error == old(error) &&
        store.orders == (if failUpdate then old(store.orders)
                         else PatchOrders(old(store.orders), old(order).value.id, AddingPatch(old(order).value, cart, total))) &&
        order == (if failUpdate then old(order) else Some(WithAdded(old(order).value, cart, total))) &&
        showAddItems == (if failUpdate then old(showAddItems) else false))
    {
      if order.None? {
        error := Some(AddingError);
        return;
      }
      var o := order.value;
      var ok := store.UpdateOrders(o.id, AddingPatch(o, cart, total), failUpdate);
      if ok {
        order := Some(WithAdded(o, cart, total));
        showAddItems := false;
      }
    }

    /**
     * The Process Payment handler: refuse an empty method; then insert the
     * transaction, mark the order `completed` and the table `available`,
     * stopping at the first failed write and undoing none.
     */
    method ProcessPayment(store: Store, now: Time, failTransaction: bool, failOrder: bool, failTable: bool)
      returns (paid: bool)
      requires store.Valid()
      modifies this`error, store`transactions, store`nextId, store`orders, store`tables
      ensures store.Valid()
      ensures selectedPaymentMethod == "" || order.None? ==> (!paid &&
        error == Some(if selectedPaymentMethod == "" then NoPaymentMethod else PaymentError) &&
        store.transactions == old(store.transactions) && store.nextId == old(store.nextId) &&
        store.orders == old(store.orders) && store.tables == old(store.tables))
      ensures selectedPaymentMethod != "" && order.Some? ==> (
        var o := order.value;
        store.transactions == (if failTransaction then old(store.transactions)
          else old(store.transactions) + [PaymentRow(old(store.nextId), o, selectedPaymentMethod, now)]) &&
        store.nextId == (if failTransaction then old(store.nextId) else old(store.nextId) + 1) &&
        store.orders == (if failTransaction || failOrder then old(store.orders)
          else PatchOrders(old(store.orders), o.id, StatusPatch(Completed, None))) &&
        store.tables == (if failTransaction || failOrder || failTable || tableId.None? then old(store.tables)
          else SetTableStatus(old(store.tables), tableId.value, Available)) &&
        paid == !(failTransaction || failOrder || failTable || tableId.None?) &&
        error == if paid then old(error) else Some(PaymentError))
    {
      if selectedPaymentMethod == "" {
        error := Some(NoPaymentMethod);
        return false;
      }
      if order.None? {
        error := Some(PaymentError);
        return false;
      }
      var o := order.value;
      var inserted := store.InsertTransaction(PaymentRow(0, o, selectedPaymentMethod, now), failTransaction);
      if inserted.None? {
        error := Some(PaymentError);
        return false;
      }
      var ok := store.UpdateOrders(o.id, StatusPatch(Completed, None), failOrder);
      if !ok {
        error := Some(PaymentError);
        return false;
      }
      ok := store.UpdateTables(tableId, Available, failTable);
      if !ok {
        error := Some(PaymentError);
        return false;
      }
      paid := true;
    }
  }
}
