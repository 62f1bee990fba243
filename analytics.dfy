/**
 * The cash-out panel (project/src/components/Analytics.tsx). It lists the
 * transactions since the last cash-out and settles them into a new cash-out
 * row. The totals split the listed amounts by the `paymentMethod` key. The
 * opening amount is the previous cash-out's final amount. The window of
 * listed transactions starts at the previous cash-out's `end_time`.
 *
 * Two defects sit on the way to "the previous cash-out" (see the README's
 * findings). The panel destructures `{ data }` from the array the cash-out
 * service returns, so it never sees one. The service applies no order, so
 * its first row need not be the latest. Both are modelled as written. The
 * panel below uses the corrected lookup: the service's array itself, latest
 * `end_time` first.
 */
module Analytics {
  import opened Types
  import opened Sorting
  import opened Store
  import opened Services

  // ---------------------------------------------------------------------------
  // Totals

  /** The sum of the amounts of the transactions whose `paymentMethod` is the given one. */
  function SumFor(txs: seq<TransactionRow>, paymentMethod: string): int
  {
    if txs == [] then 0
    else (if txs[0].paymentMethod == Some(paymentMethod) then txs[0].amount else 0) + SumFor(txs[1..], paymentMethod)
  }

  /** `totalCash`: the filter on `'cash'` and the sum of its amounts. */
  function TotalCash(txs: seq<TransactionRow>): int
  {
    SumFor(txs, "cash")
  }

  /** `totalCard`: the filter on `'card'` and the sum of its amounts. */
  function TotalCard(txs: seq<TransactionRow>): int
  {
    SumFor(txs, "card")
  }

  /** The displayed "Total amount": every listed amount. */
  function SumAmounts(txs: seq<TransactionRow>): int
  {
    if txs == [] then 0 else txs[0].amount + SumAmounts(txs[1..])
  }

  predicate CashOrCard(t: TransactionRow)
  {
    t.paymentMethod == Some("cash") || t.paymentMethod == Some("card")
  }

  /** The amounts of transactions that are neither cash nor card. */
  function SumOther(txs: seq<TransactionRow>): int
  {
    if txs == [] then 0
    else (if CashOrCard(txs[0]) then 0 else txs[0].amount) + SumOther(txs[1..])
  }

  /** Every listed amount is counted once: as cash, as card, or in neither total. */
  lemma {:induction false} SplitByMethod(txs: seq<TransactionRow>)
    ensures SumAmounts(txs) == TotalCash(txs) + TotalCard(txs) + SumOther(txs)
  {
    if txs != [] {
      SplitByMethod(txs[1..]);
    }
  }

  /** When every transaction is cash or card, the two totals add up to the displayed total. */
  lemma {:induction false} CashPlusCardIsTotal(txs: seq<TransactionRow>)
    requires forall i :: 0 <= i < |txs| ==> CashOrCard(txs[i])
    ensures TotalCash(txs) + TotalCard(txs) == SumAmounts(txs)
  {
    SplitByMethod(txs);
    NoOther(txs);
  }

  lemma {:induction false} NoOther(txs: seq<TransactionRow>)
    requires forall i :: 0 <= i < |txs| ==> CashOrCard(txs[i])
    ensures SumOther(txs) == 0
  {
    if txs != [] {
      NoOther(txs[1..]);
    }
  }

  /**
   * A row without a `paymentMethod` key (the payment handler writes
   * `payment_method`) counts in neither total, whatever its amount.
   */
  lemma {:induction false} UnkeyedRowsCountInNeither(txs: seq<TransactionRow>)
    requires forall i :: 0 <= i < |txs| ==> txs[i].paymentMethod.None?
    ensures TotalCash(txs) == 0 && TotalCard(txs) == 0
    ensures SumOther(txs) == SumAmounts(txs)
  {
    if txs != [] {
      UnkeyedRowsCountInNeither(txs[1..]);
    }
  }

  // ---------------------------------------------------------------------------
  // The cash-out row

  /** `lastCashout?.final_amount || 0`. */
  function InitialAmount(last: Option<CashOutRow>): (r: int)
    ensures last.Some? && last.value.final_amount.Some? ==> r == last.value.final_amount.value
    ensures last.None? || last.value.final_amount.None? ==> r == 0
  {
    if last.Some? then GetOr(last.value.final_amount, 0) else 0
  }

  /** The row `handleCashOut` hands to `createCashOut` (the store assigns the id). */
  function CashOutFor(txs: seq<TransactionRow>, last: Option<CashOutRow>, now: Time): CashOutRow
  {
    var cash, card := TotalCash(txs), TotalCard(txs);
    CashOutRow(0, if txs == [] then now else GetOr(txs[0].created_at, now), Some(now),
               InitialAmount(last), Some(InitialAmount(last) + cash + card), cash, card)
  }

  /**
   * The settlement arithmetic: the opening amount carries over from the
   * previous cash-out, the final amount is opening plus cash plus card, the
   * period ends now and starts at the first listed transaction's
   * `created_at` (now when it has none).
   */
  lemma CashOutArithmetic(txs: seq<TransactionRow>, last: Option<CashOutRow>, now: Time)
    requires |txs| > 0
    ensures var c := CashOutFor(txs, last, now);
      c.final_amount == Some(c.initial_amount + c.total_cash + c.total_card) &&
      c.total_cash == TotalCash(txs) && c.total_card == TotalCard(txs) &&
      c.initial_amount == (if last.Some? && last.value.final_amount.Some? then last.value.final_amount.value else 0) &&
      c.end_time == Some(now) &&
      c.start_time == (if txs[0].created_at.Some? then txs[0].created_at.value else now)
  {
  }

  /** Final amounts chain: each cash-out closes at the previous close plus what it settled. */
  lemma ChainedFinalAmounts(txs1: seq<TransactionRow>, txs2: seq<TransactionRow>, last: Option<CashOutRow>,
                            now1: Time, now2: Time)
    ensures var c1 := CashOutFor(txs1, last, now1);
      var c2 := CashOutFor(txs2, Some(c1), now2);
      c2.initial_amount == c1.final_amount.value &&
      c2.final_amount.value == InitialAmount(last) + TotalCash(txs1) + TotalCard(txs1) + TotalCash(txs2) + TotalCard(txs2)
  {
  }

  /** The button: `disabled={loading || transactions.length === 0}`. */
  predicate CashOutEnabled(loading: bool, txs: seq<TransactionRow>)
  {
    !loading && |txs| > 0
  }

  // ---------------------------------------------------------------------------
  // The previous cash-out and the window

  /**
   * The panel's reading of the cash-out service, as written: it takes
   * `{ data }` from the returned array, which has no such property, so there
   * is never a previous cash-out.
   */
  function LastCashOutAsWritten(returned: seq<CashOutRow>): (r: Option<CashOutRow>)
    ensures r.None?
  {
    None
  }

  /** The evidently intended reading: the first row of the returned array. */
  function LastCashOut(returned: seq<CashOutRow>): (r: Option<CashOutRow>)
    ensures r.None? <==> returned == []
    ensures r.Some? ==> r.value == returned[0]
  {
    if returned == [] then None else Some(returned[0])
  }

  /**
   * `last ? new Date(last.end_time).toISOString() : undefined`: no start
   * without a previous cash-out. The query names `end_time`, so a cash-out
   * without one reads it as `null`, and `new Date(null)` is the epoch.
   */
  function StartOf(last: Option<CashOutRow>): (start: Option<Time>)
    ensures last.None? <==> start.None?
    ensures last.Some? && last.value.end_time.Some? ==> start == last.value.end_time
    ensures last.Some? && last.value.end_time.None? ==> start == Some(Epoch)
  {
    match last
    case None => None
    case Some(c) => Some(GetOr(c.end_time, Epoch))
  }

  /**
   * Cash-outs are read latest first with nulls first, so one stored without
   * an `end_time` is always the previous cash-out: every later window starts
   * at the epoch.
   */
  lemma NullEndStartsAtEpoch(cashouts: seq<CashOutRow>, c: CashOutRow)
    requires c in cashouts && c.end_time.None?
    ensures StartOf(LastCashOut(GetCashOutsLatestFirst(cashouts))) == Some(Epoch)
  {
    LatestFirstHead(cashouts, c);
  }

  /**
   * As written, every cash-out is ignored: the opening amount is always 0 and
   * the list always holds every transaction, including those a stored
   * cash-out already settled.
   */
  lemma AsWrittenIgnoresCashOuts(cashouts: seq<CashOutRow>, txs: seq<TransactionRow>, now: Time)
    ensures StartOf(LastCashOutAsWritten(GetCashOuts(cashouts))).None?
    ensures multiset(GetPendingTransactions(txs, None)) == multiset(txs)
    ensures CashOutFor(txs, LastCashOutAsWritten(GetCashOuts(cashouts)), now).initial_amount == 0
  {
    PendingTransactionsExact(txs, None);
  }

  lemma {:induction false} SumForAppend(a: seq<TransactionRow>, b: seq<TransactionRow>, paymentMethod: string)
    ensures SumFor(a + b, paymentMethod) == SumFor(a, paymentMethod) + SumFor(b, paymentMethod)
  {
    if a == [] {
      assert a + b == b;
    } else {
      assert (a + b)[1..] == a[1..] + b;
      SumForAppend(a[1..], b, paymentMethod);
    }
  }

  /** Taking out element `k` and putting it first changes no total. */
  lemma MoveToFront(b: seq<TransactionRow>, k: int, paymentMethod: string)
    requires 0 <= k < |b|
    ensures SumFor(b, paymentMethod) == SumFor([b[k]] + (b[..k] + b[k + 1..]), paymentMethod)
    ensures multiset(b) == multiset([b[k]] + (b[..k] + b[k + 1..]))
  {
    assert b == b[..k] + ([b[k]] + b[k + 1..]);
    SumForAppend(b[..k], [b[k]] + b[k + 1..], paymentMethod);
    SumForAppend([b[k]], b[k + 1..], paymentMethod);
    SumForAppend(b[..k], b[k + 1..], paymentMethod);
    SumForAppend([b[k]], b[..k] + b[k + 1..], paymentMethod);
  }

  /** A total does not depend on the order the transactions are listed in. */
  lemma {:induction false} SumForPermutation(a: seq<TransactionRow>, b: seq<TransactionRow>, paymentMethod: string)
    requires multiset(a) == multiset(b)
    ensures SumFor(a, paymentMethod) == SumFor(b, paymentMethod)
    decreases |a|
  {
    if a == [] {
      assert |b| == |multiset(b)| == 0;
    } else {
      assert a[0] in multiset(b);
      var k :| 0 <= k < |b| && b[k] == a[0];
      var rest := b[..k] + b[k + 1..];
      MoveToFront(b, k, paymentMethod);
      SameTail(a, [b[k]] + rest);
      SumForPermutation(a[1..], rest, paymentMethod);
      assert ([b[k]] + rest)[1..] == rest;
    }
  }

  lemma SameTail(a: seq<TransactionRow>, c: seq<TransactionRow>)
    requires a != [] && c != [] && a[0] == c[0] && multiset(a) == multiset(c)
    ensures multiset(a[1..]) == multiset(c[1..])
  {
    assert a == [a[0]] + a[1..];
    assert c == [c[0]] + c[1..];
    assert multiset(a[1..]) == multiset(a) - multiset{a[0]};
    assert multiset(c[1..]) == multiset(c) - multiset{c[0]};
  }

  /** The as-written panel lists every stored transaction, so its totals are those of the whole store. */
  lemma AsWrittenTotalsEverything(cashouts: seq<CashOutRow>, txs: seq<TransactionRow>)
    ensures var listed := GetPendingTransactions(txs, StartOf(LastCashOutAsWritten(GetCashOuts(cashouts))));
      TotalCash(listed) == TotalCash(txs) && TotalCard(listed) == TotalCard(txs)
  {
    var listed := GetPendingTransactions(txs, None);
    AsWrittenIgnoresCashOuts(cashouts, txs, 0);
    SumForPermutation(listed, txs, "cash");
    SumForPermutation(listed, txs, "card");
  }

  /**
   * As written, a second cash-out settles the first one's transactions again:
   * the first cash-out totals what the panel listed, and once it is stored
   * the reload lists the same transactions, so the second cash-out totals
   * them once more, again from an opening amount of 0.
   */
  lemma AsWrittenCountsTwice(cashouts: seq<CashOutRow>, txs: seq<TransactionRow>, id: Id, now1: Time, now2: Time)
    ensures var last1 := LastCashOutAsWritten(GetCashOuts(cashouts));
      var c1 := CashOutFor(GetPendingTransactions(txs, StartOf(last1)), last1, now1).(id := id);
      var last2 := LastCashOutAsWritten(GetCashOuts(cashouts + [c1]));
      var c2 := CashOutFor(GetPendingTransactions(txs, StartOf(last2)), last2, now2);
      c1.total_cash == TotalCash(txs) && c1.total_card == TotalCard(txs) &&
      c2.total_cash == c1.total_cash && c2.total_card == c1.total_card && c2.initial_amount == 0
  {
    var last1 := LastCashOutAsWritten(GetCashOuts(cashouts));
    var c1 := CashOutFor(GetPendingTransactions(txs, StartOf(last1)), last1, now1).(id := id);
    AsWrittenTotalsEverything(cashouts, txs);
    AsWrittenTotalsEverything(cashouts + [c1], txs);
  }

  /**
   * With the intended reading and the cash-outs latest first, the window
   * after a cash-out that ends at or after every stored one starts exactly at
   * its end: the next list holds only transactions created from then on.
   */
  lemma NextWindowStartsAtLatestEnd(cashouts: seq<CashOutRow>, c: CashOutRow, txs: seq<TransactionRow>)
    requires c.end_time.Some?
    requires forall i :: 0 <= i < |cashouts| ==>
      cashouts[i].end_time.Some? && cashouts[i].end_time.value <= c.end_time.value
    ensures StartOf(LastCashOut(GetCashOutsLatestFirst(cashouts + [c]))) == c.end_time
    ensures forall t :: t in GetPendingTransactions(txs, Some(c.end_time.value)) <==>
      t in txs && t.created_at.Some? && t.created_at.value >= c.end_time.value
  {
    var all := cashouts + [c];
    assert c in all;
    LatestFirstHead(all, c);
    var first := GetCashOutsLatestFirst(all)[0];
    assert first in multiset(GetCashOutsLatestFirst(all));
    assert first in all;
    PendingTransactionsExact(txs, Some(c.end_time.value));
  }

  // ---------------------------------------------------------------------------
  // The panel

  class AnalyticsPanel {
    var transactions: seq<TransactionRow>
    var loading: bool
    var lastCashout: Option<CashOutRow>

    constructor ()
      ensures transactions == [] && !loading && lastCashout.None?
    {
      transactions := [];
      loading := false;
      lastCashout := None;
    }

    /**
     * `loadTransactions`: read the cash-outs and keep the latest, then list
     * the transactions from its `end_time` on. A failed read leaves the list
     * as it was.
     */
    method LoadTransactions(store: Store, failCashOuts: bool, failTransactions: bool)
      modifies this`transactions, this`lastCashout
      ensures var last := LastCashOut(GetCashOutsLatestFirst(store.cashouts));
        lastCashout == (if failCashOuts then old(lastCashout) else last) &&
        transactions == if failCashOuts || failTransactions then old(transactions)
          else GetPendingTransactions(store.transactions, StartOf(last))
    {
      if failCashOuts {
        return;
      }
      var last := LastCashOut(GetCashOutsLatestFirst(store.cashouts));
      lastCashout := last;
      if failTransactions {
        return;
      }
      transactions := GetPendingTransactions(store.transactions, StartOf(last));
    }

    /**
     * `handleCashOut`: refuse an empty list; otherwise insert the settled row
     * and reload. Loading is off again at the end, whatever happened.
     */
    method HandleCashOut(store: Store, now: Time, failInsert: bool, failCashOuts: bool, failTransactions: bool)
      returns (created: Option<CashOutRow>)
      requires store.Valid()
      modifies this, store`cashouts, store`nextId
      ensures store.Valid()
      ensures store.nextId == if old(transactions) != [] && !failInsert then old(store.nextId) + 1 else old(store.nextId)
      ensures old(transactions) == [] ==> (created.None? && store.cashouts == old(store.cashouts) &&
        transactions == old(transactions) && loading == old(loading) && lastCashout == old(lastCashout))
      ensures old(transactions) != [] ==> (!loading &&
        created == if failInsert then None
          else Some(CashOutFor(old(transactions), old(lastCashout), now).(id := old(store.nextId))))
      ensures old(transactions) != [] && failInsert ==> (store.cashouts == old(store.cashouts) &&
        transactions == old(transactions) && lastCashout == old(lastCashout))
      ensures old(transactions) != [] && !failInsert ==> (store.cashouts == old(store.cashouts) + [created.value] &&
        var last := LastCashOut(GetCashOutsLatestFirst(store.cashouts));
        lastCashout == (if failCashOuts then old(lastCashout) else last) &&
        transactions == if failCashOuts || failTransactions then old(transactions)
          else GetPendingTransactions(store.transactions, StartOf(last)))
    {
      if transactions == [] {
        return None;
      }
      loading := true;
      var row := CashOutFor(transactions, lastCashout, now);
      created := store.InsertCashOut(row, failInsert);
      if created.Some? {
        LoadTransactions(store, failCashOuts, failTransactions);
      }
      loading := false;
    }
  }
}
