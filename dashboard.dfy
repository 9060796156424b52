/**
  The dashboard figures (`useDashboardData`): today's revenue, expenses and
  profit, the current stock, the outstanding debt, the customer count and
  the three newest sales. Computing them sorts the loaded sales array in
  place, newest first.
*/
module Dashboard {
  import opened Wrappers
  import opened Types
  import opened Text
  import opened Folds
  import opened Sorting
  import opened Tables
  import opened Stock
  import opened Costs
  import opened Customers

  /**
    The bounds of today, as instants: `startOfDay(new Date())` and
    `endOfDay(new Date())`. Dates are turned into instants by `timeOf`
    (`new Date(s)`), which the model takes as given.
  */
  datatype Day = Day(start: int, end: int)

  predicate InDay(timeOf: string -> int, day: Day, date: string) {
    day.start <= timeOf(date) <= day.end
  }

  /** One line of `recentTransactions`; the amount and time are kept as values, not formatted. */
  datatype RecentTx = RecentTx(id: int, customer: string, amount: real, status: string, createdAt: string)

  datatype Metrics = Metrics(
    todayRevenue: real,
    todayExpenses: real,
    todayProfit: real,
    currentStock: real,
    totalCustomers: nat,
    totalDebt: real,
    recentTransactions: seq<RecentTx>)

  /** What the dashboard shows until all four lists are loaded. */
  const NoMetrics: Metrics := Metrics(0.0, 0.0, 0.0, 0.0, 0, 0.0, [])

  function TodaySales(txs: seq<Transaction>, timeOf: string -> int, day: Day): seq<Transaction> {
    Filter(txs, (t: Transaction) => InDay(timeOf, day, t.date))
  }

  function TodayCosts(costs: seq<OperationalCost>, timeOf: string -> int, day: Day): seq<OperationalCost> {
    Filter(costs, (c: OperationalCost) => InDay(timeOf, day, c.date))
  }

  function TodayPurchases(entries: seq<StockEntry>, timeOf: string -> int, day: Day): seq<StockEntry> {
    Filter(entries, (e: StockEntry) => InDay(timeOf, day, e.date))
  }

  function TotalCost(e: StockEntry): real { e.totalCost }

  /** The sort's comparator `(a, b) => time(b.createdAt) - time(a.createdAt)`: `a` may stay before `b` when it is not older. */
  function NewerFirst(timeOf: string -> int): ((int, Transaction), (int, Transaction)) -> bool {
    (a: (int, Transaction), b: (int, Transaction)) => timeOf(a.1.createdAt) >= timeOf(b.1.createdAt)
  }

  lemma NewerFirstTotal(timeOf: string -> int)
    ensures TotalPreorder(NewerFirst(timeOf))
  {
  }

  /** The displayed form of one sale; the status is capitalised (`lunas` becomes `Lunas`). */
  function RecentOf(p: (int, Transaction)): RecentTx {
    RecentTx(p.0, p.1.customerName, p.1.totalAmount, Capitalize(StatusName(p.1.status)), p.1.createdAt)
  }

  /** The sales, newest first, as the in-place sort leaves them. */
  function NewestFirst(txs: seq<(int, Transaction)>, timeOf: string -> int): seq<(int, Transaction)> {
    SortBy(txs, NewerFirst(timeOf))
  }

  /** `.slice(0, 3).map(...)` of the sorted sales. */
  function Recent(txs: seq<(int, Transaction)>, timeOf: string -> int): seq<RecentTx> {
    var top := Take(NewestFirst(txs, timeOf), 3);
    seq(|top|, i requires 0 <= i < |top| => RecentOf(top[i]))
  }

  /** The figures once everything is loaded; `txs` are the sales with their keys, in the order they were loaded. */
  function MetricsOf(txs: seq<(int, Transaction)>, costs: seq<OperationalCost>, entries: seq<StockEntry>,
                     customerCount: nat, timeOf: string -> int, day: Day): Metrics
  {
    var sales := Seconds(txs);
    var revenue := SumOf(TodaySales(sales, timeOf, day), TotalAmount);
    var expenses := SumOf(TodayCosts(costs, timeOf, day), Amount) + SumOf(TodayPurchases(entries, timeOf, day), TotalCost);
    Metrics(
      revenue, expenses, revenue - expenses,
      SumOf(entries, NetWeight) - SumOf(sales, Quantity),
      customerCount,
      SumOf(sales, RemainingDebt),
      Recent(txs, timeOf))
  }

  /**
    The `useMemo` body. `txs` is the array the live query delivered, which
    the sort reorders in place; the other lists are only read.
  */
  method ComputeMetrics(txs: Option<array<(int, Transaction)>>, costs: Option<seq<OperationalCost>>,
                        entries: Option<seq<StockEntry>>, customers: Option<seq<Customer>>,
                        timeOf: string -> int, day: Day) returns (m: Metrics)
    modifies if txs.Some? then {txs.value} else {}
    ensures txs.None? || costs.None? || entries.None? || customers.None? ==>
      m == NoMetrics && (txs.Some? ==> txs.value[..] == old(txs.value[..]))
    ensures txs.Some? && costs.Some? && entries.Some? && customers.Some? ==>
      && txs.value[..] == NewestFirst(old(txs.value[..]), timeOf)
      && m == MetricsOf(old(txs.value[..]), costs.value, entries.value, |customers.value|, timeOf, day)
  {
    if txs.None? || costs.None? || entries.None? || customers.None? {
      return NoMetrics;
    }
    m := LoadedMetrics(txs.value, costs.value, entries.value, |customers.value|, timeOf, day);
  }

  /** The loaded case of `ComputeMetrics`: the figures, with the sales array sorted newest first in place. */
  method LoadedMetrics(a: array<(int, Transaction)>, costs: seq<OperationalCost>, entries: seq<StockEntry>,
                       customerCount: nat, timeOf: string -> int, day: Day) returns (m: Metrics)
    modifies a
    ensures a[..] == NewestFirst(old(a[..]), timeOf)
    ensures m == MetricsOf(old(a[..]), costs, entries, customerCount, timeOf, day)
  {
    var loaded := a[..];
    var sales := Seconds(loaded);
    var revenue := SumOf(TodaySales(sales, timeOf, day), TotalAmount);
    var expenses := SumOf(TodayCosts(costs, timeOf, day), Amount)
      + SumOf(TodayPurchases(entries, timeOf, day), TotalCost);
    var currentStock := SumOf(entries, NetWeight) - SumOf(sales, Quantity);
    var totalDebt := SumOf(sales, RemainingDebt);

    // transactions.sort(...): the array itself is reordered.
    var sorted := NewestFirst(loaded, timeOf);
    Overwrite(a, sorted);
    var top := Take(a[..], 3);
    assert top == Take(sorted, 3);
    var recent := seq(|top|, j requires 0 <= j < |top| => RecentOf(top[j]));
    RecentLines(loaded, timeOf);
    assert recent == Recent(loaded, timeOf);
    m := Metrics(revenue, expenses, revenue - expenses, currentStock, customerCount, totalDebt, recent);
  }

  /** Writes `s` over the array, slot by slot. */
  method Overwrite<T>(a: array<T>, s: seq<T>)
    requires |s| == a.Length
    modifies a
    ensures a[..] == s
  {
    var i := 0;
    while i < a.Length
      invariant 0 <= i <= a.Length
      invariant a[..i] == s[..i]
    {
      a[i] := s[i];
      i := i + 1;
    }
  }

  /** A sale counts for today exactly when its date falls between the two bounds, both included. */
  lemma TodaySalesSpec(txs: seq<Transaction>, timeOf: string -> int, day: Day)
    ensures forall i | 0 <= i < |txs| :: txs[i] in TodaySales(txs, timeOf, day) <==> InDay(timeOf, day, txs[i].date)
    ensures forall t | t in TodaySales(txs, timeOf, day) :: t in txs && day.start <= timeOf(t.date) <= day.end
  {
    var p := (t: Transaction) => InDay(timeOf, day, t.date);
    FilterComplete(txs, p);
    var r := TodaySales(txs, timeOf, day);
    forall t | t in r ensures t in txs && day.start <= timeOf(t.date) <= day.end {
      var j :| 0 <= j < |r| && r[j] == t;
    }
  }

  /**
    A new sale raises today's revenue by its amount when dated today (and
    leaves it otherwise), lowers the stock by its quantity and raises the
    outstanding debt by its remaining debt.
  */
  lemma NewSaleMoves(txs: seq<(int, Transaction)>, costs: seq<OperationalCost>, entries: seq<StockEntry>,
                     n: nat, timeOf: string -> int, day: Day, p: (int, Transaction))
    ensures var before := MetricsOf(txs, costs, entries, n, timeOf, day);
      var after := MetricsOf(txs + [p], costs, entries, n, timeOf, day);
      && after.todayRevenue == before.todayRevenue + (if InDay(timeOf, day, p.1.date) then p.1.totalAmount else 0.0)
      && after.todayExpenses == before.todayExpenses
      && after.currentStock == before.currentStock - p.1.quantity
      && after.totalDebt == before.totalDebt + p.1.remainingDebt
  {
    var sales := Seconds(txs);
    SecondsConcat(txs, [p]);
    assert Seconds(txs + [p]) == sales + [p.1];
    var f := (t: Transaction) => InDay(timeOf, day, t.date);
    FilterConcat(sales, [p.1], f);
    assert Filter([p.1], f) == (if f(p.1) then [p.1] else []) by {
      assert [p.1][..0] == [];
    }
    SumOfConcat(TodaySales(sales, timeOf, day), Filter([p.1], f), TotalAmount);
    SumOfAppend(sales, p.1, Quantity);
    SumOfAppend(sales, p.1, RemainingDebt);
  }

  /** When every sale's remaining debt is non-negative, so is the outstanding total. */
  lemma TotalDebtNonNegative(txs: seq<(int, Transaction)>, costs: seq<OperationalCost>, entries: seq<StockEntry>,
                             n: nat, timeOf: string -> int, day: Day)
    requires forall i | 0 <= i < |txs| :: txs[i].1.remainingDebt >= 0.0
    ensures MetricsOf(txs, costs, entries, n, timeOf, day).totalDebt >= 0.0
  {
    SumOfNonNegative(Seconds(txs), RemainingDebt);
  }

  /** The dashboard's stock figure over the stored tables is the one the stock page shows. */
  lemma StockAgreesWithStockPage(st: Table<StockEntry>, tx: Table<Transaction>, costs: seq<OperationalCost>,
                                 n: nat, timeOf: string -> int, day: Day)
    ensures MetricsOf(tx.Entries(), costs, st.Values(), n, timeOf, day).currentStock == CurrentStock(st, tx)
  {
    CurrentStockIsDifference(st, tx);
  }

  /** The newest-first order read off as creation times: no later sale is newer than an earlier one. */
  lemma NewestFirstOrder(txs: seq<(int, Transaction)>, timeOf: string -> int)
    ensures multiset(NewestFirst(txs, timeOf)) == multiset(txs)
    ensures var sorted := NewestFirst(txs, timeOf);
      forall i, j | 0 <= i < j < |sorted| :: timeOf(sorted[j].1.createdAt) <= timeOf(sorted[i].1.createdAt)
  {
    var sorted := NewestFirst(txs, timeOf);
    NewerFirstTotal(timeOf);
    SortBySorted(txs, NewerFirst(timeOf));
    forall i, j | 0 <= i < j < |sorted| ensures timeOf(sorted[j].1.createdAt) <= timeOf(sorted[i].1.createdAt) {
      assert NewerFirst(timeOf)(sorted[i], sorted[j]);
    }
  }

  /**
    At most three sales are listed, newest first, each one a loaded sale, and
    every sale left off is no newer than every sale listed.
  */
  lemma RecentShape(txs: seq<(int, Transaction)>, timeOf: string -> int)
    ensures var top := Take(NewestFirst(txs, timeOf), 3);
      && |Recent(txs, timeOf)| == (if |txs| < 3 then |txs| else 3)
      && (forall i | 0 <= i < |top| :: top[i] in txs && Recent(txs, timeOf)[i] == RecentOf(top[i]))
      && (forall i, j | 0 <= i < j < |top| :: timeOf(top[j].1.createdAt) <= timeOf(top[i].1.createdAt))
      && (forall q | q in txs && q !in top :: forall i | 0 <= i < |top| :: timeOf(q.1.createdAt) <= timeOf(top[i].1.createdAt))
  {
    var sorted := NewestFirst(txs, timeOf);
    var top := Take(sorted, 3);
    NewestFirstOrder(txs, timeOf);
    LeftOffNotNewer(txs, timeOf);
    RecentLines(txs, timeOf);
    assert forall i | 0 <= i < |top| :: top[i] == sorted[i];
    forall i | 0 <= i < |top| ensures top[i] in txs {
      assert sorted[i] in multiset(sorted);
    }
  }

  /** The displayed lines are the first three sorted sales, one line each. */
  lemma RecentLines(txs: seq<(int, Transaction)>, timeOf: string -> int)
    ensures var top := Take(NewestFirst(txs, timeOf), 3);
      && |Recent(txs, timeOf)| == |top| == (if |txs| < 3 then |txs| else 3)
      && forall i | 0 <= i < |top| :: Recent(txs, timeOf)[i] == RecentOf(top[i])
  {
    var top := Take(NewestFirst(txs, timeOf), 3);
    var r := seq(|top|, i requires 0 <= i < |top| => RecentOf(top[i]));
    assert Recent(txs, timeOf) == r;
  }

  /** A loaded sale the list leaves off is no newer than any listed one. */
  lemma LeftOffNotNewer(txs: seq<(int, Transaction)>, timeOf: string -> int)
    ensures var top := Take(NewestFirst(txs, timeOf), 3);
      forall q | q in txs && q !in top :: forall i | 0 <= i < |top| :: timeOf(q.1.createdAt) <= timeOf(top[i].1.createdAt)
  {
    var sorted := NewestFirst(txs, timeOf);
    var top := Take(sorted, 3);
    NewestFirstOrder(txs, timeOf);
    forall q | q in txs && q !in top
      ensures forall i | 0 <= i < |top| :: timeOf(q.1.createdAt) <= timeOf(top[i].1.createdAt)
    {
      assert q in multiset(sorted);
      var k :| 0 <= k < |sorted| && sorted[k] == q;
      assert forall j | 0 <= j < |top| :: top[j] == sorted[j];
      assert k >= |top|;
      assert forall i | 0 <= i < |top| :: top[i] == sorted[i] && i < k;
    }
  }

  /** The statuses shown: `Lunas`, `Utang` and `Cicil`. */
  lemma RecentStatusLabels()
    ensures Capitalize(StatusName(TxStatus.Lunas)) == "Lunas"
    ensures Capitalize(StatusName(TxStatus.Utang)) == "Utang"
    ensures Capitalize(StatusName(TxStatus.Cicil)) == "Cicil"
  {
  }
}
