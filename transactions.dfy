/**
  Sales (`useTransactions`): recording a sale resolves its customer by name
  ignoring case, creating the customer when there is none, and derives the
  outstanding amount and the settlement status.
*/
module Transactions {
  import opened Wrappers
  import opened Types
  import opened Text
  import opened Folds
  import opened Sorting
  import opened Tables
  import opened Db
  import opened Customers
  import opened Stock

  /**
    The status of a sale with this total and this amount paid: settled when
    nothing remains, part paid when something remains and something was paid,
    otherwise unpaid.
  */
  function StatusFor(total: real, paid: real): (s: TxStatus)
    ensures s == TxStatus.Lunas <==> total - paid <= 0.0
    ensures s == TxStatus.Cicil <==> total - paid > 0.0 && paid > 0.0
    ensures s == TxStatus.Utang <==> total - paid > 0.0 && paid <= 0.0
  {
    var remaining := total - paid;
    if remaining <= 0.0 then TxStatus.Lunas
    else if remaining > 0.0 && paid > 0.0 then TxStatus.Cicil
    else TxStatus.Utang
  }

  /** What `addTransaction` is given: a sale without id, timestamp and derived fields. */
  datatype NewTransaction = NewTransaction(
    customerId: int,
    customerName: string,
    date: string,
    shrimpType: string,
    quantity: real,
    pricePerKg: real,
    totalAmount: real,
    paymentMethod: PaymentMethod,
    paidAmount: real)

  /** The stored derived fields of a sale agree with its total and paid amount. */
  predicate TxDerived(t: Transaction) {
    t.remainingDebt == t.totalAmount - t.paidAmount && t.status == StatusFor(t.totalAmount, t.paidAmount)
  }

  ghost predicate AllTxDerived(t: Table<Transaction>) {
    forall k | k in t.rows :: TxDerived(t.rows[k])
  }

  /** The row `addTransaction` writes for customer `cid`. */
  function TransactionOf(d: NewTransaction, cid: int, now: string): (t: Transaction)
    ensures TxDerived(t)
    ensures t.customerId == cid && t.createdAt == now
    ensures t.customerName == d.customerName && t.date == d.date && t.shrimpType == d.shrimpType
    ensures t.quantity == d.quantity && t.pricePerKg == d.pricePerKg && t.totalAmount == d.totalAmount
    ensures t.paymentMethod == d.paymentMethod && t.paidAmount == d.paidAmount
  {
    Transaction(cid, d.customerName, d.date, d.shrimpType, d.quantity, d.pricePerKg, d.totalAmount,
      d.paymentMethod, d.paidAmount, d.totalAmount - d.paidAmount, StatusFor(d.totalAmount, d.paidAmount), now)
  }

  /** The customer a new customer row for this sale holds: only its name and creation time. */
  function NewCustomerFor(d: NewTransaction, now: string): Customer {
    Customer(d.customerName, None, None, now)
  }

  /**
    The customers and sales tables after `addTransaction(d)`: the matching
    customer is reused, or a new one is added, and the sale is added under
    that customer's key.
  */
  function AfterAddTransaction(cs: Table<Customer>, ts: Table<Transaction>, d: NewTransaction, now: string)
    : (Table<Customer>, Table<Transaction>)
  {
    match FindCustomer(cs, d.customerName)
    case Some(k) => (cs, ts.Add(TransactionOf(d, k, now)))
    case None => (cs.Add(NewCustomerFor(d, now)), ts.Add(TransactionOf(d, cs.next, now)))
  }

  /** When a customer matches ignoring case, no customer is created and the sale gets that customer's key. */
  lemma AddTransactionReusesCustomer(cs: Table<Customer>, ts: Table<Transaction>, d: NewTransaction, now: string, k: int)
    requires cs.Valid() && CaseDistinct(cs) && ts.Valid()
    requires k in cs.rows && EqualsIgnoreCase(cs.rows[k].name, d.customerName)
    ensures AfterAddTransaction(cs, ts, d, now).0 == cs
    ensures AfterAddTransaction(cs, ts, d, now).1 == ts.Add(TransactionOf(d, k, now))
    ensures AfterAddTransaction(cs, ts, d, now).1.Values() == ts.Values() + [TransactionOf(d, k, now)]
  {
    FindCustomerUnique(cs, d.customerName, k);
    AddAppends(ts, TransactionOf(d, k, now));
  }

  /**
    When no customer matches, exactly one customer with the sale's name is
    added under a fresh key, and the sale references that key; names stay
    distinct ignoring case.
  */
  lemma AddTransactionCreatesCustomer(cs: Table<Customer>, ts: Table<Transaction>, d: NewTransaction, now: string)
    requires cs.Valid() && CaseDistinct(cs) && ts.Valid()
    requires forall k | k in cs.rows :: !EqualsIgnoreCase(cs.rows[k].name, d.customerName)
    ensures var (cs', ts') := AfterAddTransaction(cs, ts, d, now);
      && cs.next !in cs.rows
      && cs'.rows == cs.rows[cs.next := NewCustomerFor(d, now)]
      && cs'.Count() == cs.Count() + 1
      && cs'.Valid() && CaseDistinct(cs')
      && ts'.Values() == ts.Values() + [TransactionOf(d, cs.next, now)]
  {
    FindCustomerSpec(cs, d.customerName);
    AddAppends(cs, NewCustomerFor(d, now));
    AddAppends(ts, TransactionOf(d, cs.next, now));
    AddKeepsCaseDistinct(cs, NewCustomerFor(d, now));
  }

  /** A sale always references a stored customer, and every stored sale keeps consistent derived fields. */
  lemma AddTransactionKeepsInvariants(cs: Table<Customer>, ts: Table<Transaction>, d: NewTransaction, now: string)
    requires cs.Valid() && CaseDistinct(cs) && ts.Valid() && AllTxDerived(ts)
    ensures var (cs', ts') := AfterAddTransaction(cs, ts, d, now);
      && cs'.Valid() && CaseDistinct(cs') && ts'.Valid() && AllTxDerived(ts')
      && ts'.rows[ts.next].customerId in cs'.rows
      && EqualsIgnoreCase(cs'.rows[ts'.rows[ts.next].customerId].name, d.customerName)
  {
    FindCustomerSpec(cs, d.customerName);
    AddAppends(ts, TransactionOf(d, cs.next, now));
    if FindCustomer(cs, d.customerName).None? {
      AddTransactionCreatesCustomer(cs, ts, d, now);
      EqualsIgnoreCaseIsEquivalence(d.customerName, d.customerName, d.customerName);
    }
  }

  /**
    `addTransaction(data)`: look the customer up ignoring case, add one if
    none matches, read it back, then add the sale.
  */
  method AddTransaction(db: Store, d: NewTransaction, now: string)
    requires db.Valid() && CaseDistinct(db.customers)
    modifies db`customers, db`transactions
    ensures db.Valid() && CaseDistinct(db.customers)
    ensures (db.customers, db.transactions) == AfterAddTransaction(old(db.customers), old(db.transactions), d, now)
  {
    FindCustomerSpec(db.customers, d.customerName);
    var found := FindCustomer(db.customers, d.customerName);
    var cid := if found.Some? then found.value else db.customers.next;
    if found.None? {
      AddTransactionCreatesCustomer(db.customers, db.transactions, d, now);
      assert !HasName(db.customers, d.customerName) by {
        forall k | k in db.customers.rows ensures db.customers.rows[k].name != d.customerName {
          assert !EqualsIgnoreCase(db.customers.rows[k].name, d.customerName);
        }
      }
      var newId := db.customers.next;
      var added := AddCustomerRow(db.customers, NewCustomerFor(d, now));
      match added {
        case Ok(t) =>
          db.customers := t;
        case Err(_) =>
          assert false;
      }
      var reread := db.customers.Get(newId);
      if reread.None? {
        assert false;
      }
    }
    AddAppends(db.transactions, TransactionOf(d, cid, now));
    db.transactions := db.transactions.Add(TransactionOf(d, cid, now));
  }

  /** `deleteTransaction(id)`: the stock needs no adjustment, being derived from the remaining sales. */
  method DeleteTransaction(db: Store, id: int)
    requires db.Valid()
    modifies db`transactions
    ensures db.Valid()
    ensures db.transactions == old(db.transactions).Delete(id)
  {
    db.transactions := db.transactions.Delete(id);
  }

  /** Recording a sale lowers the current stock by its quantity, whichever customer branch is taken. */
  lemma SaleLowersStock(entries: Table<StockEntry>, cs: Table<Customer>, ts: Table<Transaction>, d: NewTransaction, now: string)
    requires ts.Valid()
    ensures CurrentStock(entries, AfterAddTransaction(cs, ts, d, now).1) == CurrentStock(entries, ts) - d.quantity
  {
    var cid := match FindCustomer(cs, d.customerName) case Some(k) => k case None => cs.next;
    var row := TransactionOf(d, cid, now);
    assert AfterAddTransaction(cs, ts, d, now).1 == ts.Add(row);
    CurrentStockIsDifference(entries, ts);
    CurrentStockIsDifference(entries, ts.Add(row));
    AddAppends(ts, row);
    SumOfAppend(ts.Values(), row, Quantity);
  }

  /** Deleting a sale gives its quantity back to the current stock. */
  lemma DeleteSaleRaisesStock(entries: Table<StockEntry>, ts: Table<Transaction>, id: int)
    requires ts.Valid() && id in ts.rows
    ensures CurrentStock(entries, ts.Delete(id)) == CurrentStock(entries, ts) + ts.rows[id].quantity
  {
    CurrentStockIsDifference(entries, ts);
    CurrentStockIsDifference(entries, ts.Delete(id));
    DeleteRemoves(ts, id, Quantity);
  }

  /** The fields `updateTransaction` may be given; an absent field keeps its stored value. */
  datatype TxPatch = TxPatch(
    customerId: Option<int>,
    customerName: Option<string>,
    date: Option<string>,
    shrimpType: Option<string>,
    quantity: Option<real>,
    pricePerKg: Option<real>,
    totalAmount: Option<real>,
    paymentMethod: Option<PaymentMethod>,
    paidAmount: Option<real>,
    remainingDebt: Option<real>,
    status: Option<TxStatus>,
    createdAt: Option<string>)

  /** The row `update(id, patch)` leaves: the supplied fields written as given, nothing recomputed. */
  function PatchedTransaction(t: Transaction, p: TxPatch): Transaction {
    Transaction(
      p.customerId.GetOr(t.customerId), p.customerName.GetOr(t.customerName), p.date.GetOr(t.date),
      p.shrimpType.GetOr(t.shrimpType), p.quantity.GetOr(t.quantity), p.pricePerKg.GetOr(t.pricePerKg),
      p.totalAmount.GetOr(t.totalAmount), p.paymentMethod.GetOr(t.paymentMethod), p.paidAmount.GetOr(t.paidAmount),
      p.remainingDebt.GetOr(t.remainingDebt), p.status.GetOr(t.status), p.createdAt.GetOr(t.createdAt))
  }

  /** `updateTransaction(id, patch)`: no change when the id is absent. */
  method UpdateTransaction(db: Store, id: int, p: TxPatch)
    requires db.Valid()
    modifies db`transactions
    ensures db.Valid()
    ensures id in old(db.transactions.rows) ==>
      db.transactions == old(db.transactions).Replace(id, PatchedTransaction(old(db.transactions.rows[id]), p))
    ensures id !in old(db.transactions.rows) ==> db.transactions == old(db.transactions)
  {
    var current := db.transactions.Get(id);
    if current.Some? {
      db.transactions := db.transactions.Replace(id, PatchedTransaction(current.value, p));
    }
  }

  /** The patch writes exactly the supplied fields and keeps every other one; a patch without fields leaves the row as it was. */
  lemma PatchedTransactionSpec(t: Transaction, p: TxPatch)
    ensures var r := PatchedTransaction(t, p);
      && r.customerId == (if p.customerId.Some? then p.customerId.value else t.customerId)
      && r.customerName == (if p.customerName.Some? then p.customerName.value else t.customerName)
      && r.date == (if p.date.Some? then p.date.value else t.date)
      && r.shrimpType == (if p.shrimpType.Some? then p.shrimpType.value else t.shrimpType)
      && r.quantity == (if p.quantity.Some? then p.quantity.value else t.quantity)
      && r.pricePerKg == (if p.pricePerKg.Some? then p.pricePerKg.value else t.pricePerKg)
      && r.totalAmount == (if p.totalAmount.Some? then p.totalAmount.value else t.totalAmount)
      && r.paymentMethod == (if p.paymentMethod.Some? then p.paymentMethod.value else t.paymentMethod)
      && r.paidAmount == (if p.paidAmount.Some? then p.paidAmount.value else t.paidAmount)
      && r.remainingDebt == (if p.remainingDebt.Some? then p.remainingDebt.value else t.remainingDebt)
      && r.status == (if p.status.Some? then p.status.value else t.status)
      && r.createdAt == (if p.createdAt.Some? then p.createdAt.value else t.createdAt)
    ensures PatchedTransaction(t, TxPatch(None, None, None, None, None, None, None, None, None, None, None, None)) == t
  {
  }

  /**
    Because nothing is recomputed, a patch that changes only the paid amount
    of a consistent sale leaves its stored remaining debt stale.
  */
  lemma UpdateLeavesDerivedStale(t: Transaction, paid: real)
    requires TxDerived(t) && paid != t.paidAmount
    ensures !TxDerived(PatchedTransaction(t, TxPatch(None, None, None, None, None, None, None, None, Some(paid), None, None, None)))
  {
  }

  /** The inclusive string comparison `startDate <= date <= endDate`. */
  predicate InRange(date: string, startDate: string, endDate: string) {
    StrLe(startDate, date) && StrLe(date, endDate)
  }

  /** `getTransactionsByDateRange(start, end)`: an empty list while the sales are not loaded. */
  function ByDateRange(txs: Option<seq<Transaction>>, startDate: string, endDate: string): seq<Transaction> {
    if txs.None? then []
    else Filter(txs.value, (t: Transaction) => InRange(t.date, startDate, endDate))
  }

  /** The range keeps exactly the sales dated within both bounds, inclusive. */
  lemma ByDateRangeSpec(txs: seq<Transaction>, startDate: string, endDate: string)
    ensures forall t | t in ByDateRange(Some(txs), startDate, endDate) :: t in txs && InRange(t.date, startDate, endDate)
    ensures forall i | 0 <= i < |txs| && InRange(txs[i].date, startDate, endDate) ::
      txs[i] in ByDateRange(Some(txs), startDate, endDate)
    ensures ByDateRange(None, startDate, endDate) == []
  {
    var p := (t: Transaction) => InRange(t.date, startDate, endDate);
    FilterComplete(txs, p);
    var r := ByDateRange(Some(txs), startDate, endDate);
    forall t | t in r ensures t in txs && p(t) {
      var i :| 0 <= i < |r| && r[i] == t;
    }
  }

  /** The range keeps the sales in their order: a sale appended to the list is appended to the result when it is in range. */
  lemma ByDateRangeKeepsOrder(txs: seq<Transaction>, t: Transaction, startDate: string, endDate: string)
    ensures ByDateRange(Some(txs + [t]), startDate, endDate)
      == ByDateRange(Some(txs), startDate, endDate) + (if InRange(t.date, startDate, endDate) then [t] else [])
  {
    var p := (x: Transaction) => InRange(x.date, startDate, endDate);
    FilterConcat(txs, [t], p);
    assert Filter([t], p) == (if p(t) then [t] else []) by {
      assert [t][..0] == [];
    }
  }

  /** Both bounds are inclusive: a sale dated on either bound is kept. */
  lemma ByDateRangeInclusive(t: Transaction, startDate: string, endDate: string)
    requires t.date == startDate || t.date == endDate
    requires StrLe(startDate, endDate)
    ensures ByDateRange(Some([t]), startDate, endDate) == [t]
  {
    assert InRange(t.date, startDate, endDate);
    assert [t][..0] == [];
  }

  /** `(a, b) => ...` for `orderBy('date').reverse()` on sales. */
  predicate TxBefore(a: (int, Transaction), b: (int, Transaction)) {
    DateIdDesc(a.1.date, a.0, b.1.date, b.0)
  }

  lemma TxBeforeTotal()
    ensures TotalPreorder(TxBefore)
  {
    forall a: (int, Transaction), b: (int, Transaction) ensures TxBefore(a, b) || TxBefore(b, a) {
      DateIdDescOrder(a.1.date, a.0, b.1.date, b.0, b.1.date, b.0);
    }
    forall a: (int, Transaction), b: (int, Transaction), c: (int, Transaction) | TxBefore(a, b) && TxBefore(b, c)
      ensures TxBefore(a, c)
    {
      DateIdDescOrder(a.1.date, a.0, b.1.date, b.0, c.1.date, c.0);
    }
  }

  /** `db.transactions.orderBy('date').reverse().toArray()`, each sale with its key. */
  function TransactionsByDateDesc(t: Table<Transaction>): seq<(int, Transaction)> {
    SortBy(t.Entries(), TxBefore)
  }

  /** The listing holds every stored sale once, latest date first. */
  lemma TransactionsByDateDescShape(t: Table<Transaction>)
    ensures multiset(Seconds(TransactionsByDateDesc(t))) == multiset(t.Values())
    ensures forall i, j | 0 <= i < j < |TransactionsByDateDesc(t)| ::
      StrLe(TransactionsByDateDesc(t)[j].1.date, TransactionsByDateDesc(t)[i].1.date)
  {
    var sorted := TransactionsByDateDesc(t);
    SecondsPermutation(sorted, t.Entries());
    TxBeforeTotal();
    SortBySorted(t.Entries(), TxBefore);
    forall i, j | 0 <= i < j < |sorted| ensures StrLe(sorted[j].1.date, sorted[i].1.date) {
      assert TxBefore(sorted[i], sorted[j]);
    }
  }
}
