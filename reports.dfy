/**
  The report figures (`useReports`) over the sales, purchases and costs of
  the reporting window: a daily sales series, a summary, the split by
  payment method, the five best customers and the stock-versus-sales
  series. The window query itself is not modelled: the lists come in
  already restricted to it.
*/
module Reports {
  import opened Wrappers
  import opened Types
  import opened Text
  import opened Folds
  import opened Sorting
  import opened Tables
  import opened Stock
  import opened Costs
  import opened Customers
  import opened Dashboard

  function TxDate(t: Transaction): string { t.date }

  function EntryDate(e: StockEntry): string { e.date }

  /** One point of `dailySalesData`; the day is kept as `yyyy-MM-dd`, its `dd MMM` label is not modelled. */
  datatype DailyPoint = DailyPoint(day: string, sales: real)

  /**
    `dailySalesData()`: for each day of the window (`days`, as
    `eachDayOfInterval` lists them) the sales total of that day, 0 for a day
    without sales; nothing until the sales are loaded.
  */
  function DailySales(txs: Option<seq<Transaction>>, days: seq<string>): (r: seq<DailyPoint>)
    ensures txs.None? ==> r == []
    ensures txs.Some? ==> |r| == |days| && forall i | 0 <= i < |days| :: r[i].day == days[i]
  {
    if txs.None? then []
    else
      var byDate := GroupSum(txs.value, TxDate, TotalAmount);
      seq(|days|, i requires 0 <= i < |days| => DailyPoint(days[i], Lookup(byDate, days[i])))
  }

  /** Each day's point is the sum of that day's sale amounts, and 0 on a day without sales. */
  lemma DailySalesSpec(txs: seq<Transaction>, days: seq<string>, i: int)
    requires 0 <= i < |days|
    ensures DailySales(Some(txs), days)[i].sales == SumOf(WithKey(txs, TxDate, days[i]), TotalAmount)
    ensures (forall j | 0 <= j < |txs| :: txs[j].date != days[i]) ==> DailySales(Some(txs), days)[i].sales == 0.0
  {
    GroupSumIsSumPerKey(txs, TxDate, TotalAmount, days[i]);
    GroupSumHasKey(txs, TxDate, TotalAmount, days[i]);
  }

  datatype Summary = Summary(
    totalSales: real,
    totalPurchases: real,
    totalOperationalCosts: real,
    netProfit: real,
    totalTransactions: nat,
    totalStockEntries: nat)

  /** `monthlySummary()`: all zeros until the three lists are loaded. */
  function MonthlySummary(txs: Option<seq<Transaction>>, entries: Option<seq<StockEntry>>,
                          costs: Option<seq<OperationalCost>>): (r: Summary)
    ensures txs.None? || entries.None? || costs.None? ==> r == Summary(0.0, 0.0, 0.0, 0.0, 0, 0)
    ensures txs.Some? && entries.Some? && costs.Some? ==>
      && r.netProfit == r.totalSales - r.totalPurchases - r.totalOperationalCosts
      && r.totalTransactions == |txs.value| && r.totalStockEntries == |entries.value|
  {
    if txs.None? || entries.None? || costs.None? then Summary(0.0, 0.0, 0.0, 0.0, 0, 0)
    else
      var sales := SumOf(txs.value, TotalAmount);
      var purchases := SumOf(entries.value, TotalCost);
      var operational := SumOf(costs.value, Amount);
      Summary(sales, purchases, operational, sales - purchases - operational, |txs.value|, |entries.value|)
  }

  /** The summary of two windows put together adds up both windows' figures. */
  lemma SummaryOfJoinedWindows(t1: seq<Transaction>, t2: seq<Transaction>, e1: seq<StockEntry>, e2: seq<StockEntry>,
                               c1: seq<OperationalCost>, c2: seq<OperationalCost>)
    ensures var a := MonthlySummary(Some(t1), Some(e1), Some(c1));
      var b := MonthlySummary(Some(t2), Some(e2), Some(c2));
      var ab := MonthlySummary(Some(t1 + t2), Some(e1 + e2), Some(c1 + c2));
      && ab.totalSales == a.totalSales + b.totalSales
      && ab.netProfit == a.netProfit + b.netProfit
      && ab.totalTransactions == a.totalTransactions + b.totalTransactions
  {
    SumOfConcat(t1, t2, TotalAmount);
    SumOfConcat(e1, e2, TotalCost);
    SumOfConcat(c1, c2, Amount);
  }

  /** Over one day's lists, the summary's net profit is the dashboard's profit for that day. */
  lemma SummaryAgreesWithDashboard(txs: seq<(int, Transaction)>, costs: seq<OperationalCost>, entries: seq<StockEntry>,
                                   n: nat, timeOf: string -> int, day: Day)
    ensures MonthlySummary(Some(TodaySales(Seconds(txs), timeOf, day)), Some(TodayPurchases(entries, timeOf, day)),
                           Some(TodayCosts(costs, timeOf, day))).netProfit
      == MetricsOf(txs, costs, entries, n, timeOf, day).todayProfit
  {
  }

  function MethodKey(t: Transaction): string { MethodName(t.paymentMethod) }

  /** The label of a stored method name; any name but `tunai` and `utang` reads `Cicil`. */
  function MethodLabel(m: string): (l: string)
    ensures m == "tunai" ==> l == "Tunai"
    ensures m == "utang" ==> l == "Utang"
    ensures m != "tunai" && m != "utang" ==> l == "Cicil"
  {
    if m == "tunai" then "Tunai" else if m == "utang" then "Utang" else "Cicil"
  }

  datatype MethodShare = MethodShare(methodLabel: string, amount: real, percentage: real)

  function ShareAmount(s: MethodShare): real { s.amount }

  /** One share per listed method name, with its grouped total and a percentage of 0. */
  function Shares(ks: seq<string>, m: map<string, real>): (r: seq<MethodShare>)
    decreases |ks|
    ensures |r| == |ks|
    ensures forall i | 0 <= i < |ks| :: r[i] == MethodShare(MethodLabel(ks[i]), Lookup(m, ks[i]), 0.0)
    ensures SumOf(r, ShareAmount) == SumLookups(ks, m)
  {
    if ks == [] then []
    else
      var n := |ks| - 1;
      var init := Shares(ks[..n], m);
      var x := MethodShare(MethodLabel(ks[n]), Lookup(m, ks[n]), 0.0);
      var r := init + [x];
      assert r[..n] == init && r[n] == x;
      assert forall i | 0 <= i < n :: ks[..n][i] == ks[i];
      assert SumOf(r, ShareAmount) == SumOf(init, ShareAmount) + x.amount;
      r
  }

  /** `paymentMethodDistribution()`: methods in the order they first occur. */
  function PaymentDistribution(txs: Option<seq<Transaction>>): seq<MethodShare> {
    if txs.None? then []
    else Shares(DistinctKeys(txs.value, MethodKey), GroupSum(txs.value, MethodKey, TotalAmount))
  }

  function MethodKeys(txs: seq<Transaction>): seq<string> { DistinctKeys(txs, MethodKey) }

  function MethodTotals(txs: seq<Transaction>): map<string, real> { GroupSum(txs, MethodKey, TotalAmount) }

  /** Each entry is some sale's method, labelled, with the sum of the amounts of the sales paid that way, and a percentage of 0. */
  lemma DistributionEntries(txs: seq<Transaction>)
    ensures var r := PaymentDistribution(Some(txs));
      forall i | 0 <= i < |r| :: exists j | 0 <= j < |txs| ::
        r[i] == MethodShare(MethodLabel(MethodKey(txs[j])), SumOf(WithKey(txs, MethodKey, MethodKey(txs[j])), TotalAmount), 0.0)
  {
    var ks := MethodKeys(txs);
    var r := PaymentDistribution(Some(txs));
    forall i | 0 <= i < |r| ensures exists j | 0 <= j < |txs| ::
      r[i] == MethodShare(MethodLabel(MethodKey(txs[j])), SumOf(WithKey(txs, MethodKey, MethodKey(txs[j])), TotalAmount), 0.0)
    {
      assert ks[i] in ks;
      var j :| 0 <= j < |txs| && MethodKey(txs[j]) == ks[i];
      GroupSumIsSumPerKey(txs, MethodKey, TotalAmount, ks[i]);
    }
  }

  /** Every method some sale uses is listed. */
  lemma DistributionCovers(txs: seq<Transaction>)
    ensures var r := PaymentDistribution(Some(txs));
      forall j | 0 <= j < |txs| :: exists i | 0 <= i < |r| :: r[i].methodLabel == MethodLabel(MethodKey(txs[j]))
  {
    var ks := MethodKeys(txs);
    var r := PaymentDistribution(Some(txs));
    forall j | 0 <= j < |txs| ensures exists i | 0 <= i < |r| :: r[i].methodLabel == MethodLabel(MethodKey(txs[j])) {
      assert MethodKey(txs[j]) in ks;
      var i :| 0 <= i < |ks| && ks[i] == MethodKey(txs[j]);
      assert r[i].methodLabel == MethodLabel(ks[i]);
    }
  }

  /** The three methods get three different labels. */
  lemma MethodLabelsDistinct(a: PaymentMethod, b: PaymentMethod)
    ensures MethodLabel(MethodName(a)) == MethodLabel(MethodName(b)) ==> a == b
  {
  }

  /** No method is listed twice. */
  lemma DistributionLabelsDistinct(txs: seq<Transaction>)
    ensures var r := PaymentDistribution(Some(txs));
      forall i, j | 0 <= i < j < |r| :: r[i].methodLabel != r[j].methodLabel
  {
    var ks := MethodKeys(txs);
    var r := PaymentDistribution(Some(txs));
    forall i, j | 0 <= i < j < |r| ensures r[i].methodLabel != r[j].methodLabel {
      assert ks[i] in ks && ks[j] in ks;
      var a :| 0 <= a < |txs| && MethodKey(txs[a]) == ks[i];
      var b :| 0 <= b < |txs| && MethodKey(txs[b]) == ks[j];
      MethodLabelsDistinct(txs[a].paymentMethod, txs[b].paymentMethod);
    }
  }

  /** The amounts of the distribution add up to the total of all sales. */
  lemma DistributionTotal(txs: seq<Transaction>)
    ensures SumOf(PaymentDistribution(Some(txs)), ShareAmount) == SumOf(txs, TotalAmount)
  {
    GroupSumTotal(txs, MethodKey, TotalAmount);
  }

  function TxCustomer(t: Transaction): string { t.customerName }

  datatype CustomerTotal = CustomerTotal(name: string, amount: real)

  /** One total per listed customer name, with its grouped sum. */
  function Totals(ks: seq<string>, m: map<string, real>): (r: seq<CustomerTotal>)
    decreases |ks|
    ensures |r| == |ks|
    ensures forall i | 0 <= i < |ks| :: r[i] == CustomerTotal(ks[i], Lookup(m, ks[i]))
  {
    if ks == [] then [] else Totals(ks[..|ks| - 1], m) + [CustomerTotal(ks[|ks| - 1], Lookup(m, ks[|ks| - 1]))]
  }

  /** The comparator `([, a], [, b]) => b - a`: larger totals first, ties in their earlier order. */
  function ByAmountDesc(): (CustomerTotal, CustomerTotal) -> bool {
    (a: CustomerTotal, b: CustomerTotal) => a.amount >= b.amount
  }

  /**
    The one name a plain `{}` accumulator cannot hold: `acc["__proto__"]`
    reads `Object.prototype`, so the zero start is skipped, and the `+=`
    goes to the prototype setter, which ignores a number. No entry for it
    ever reaches `Object.entries`.
  */
  const ProtoName: string := "__proto__"

  /** The sales whose customer name the accumulator can record. */
  function KeptSales(txs: seq<Transaction>): (u: seq<Transaction>)
    ensures forall i | 0 <= i < |u| :: u[i] in txs && u[i].customerName != ProtoName
  {
    Filter(txs, (t: Transaction) => t.customerName != ProtoName)
  }

  /** `topCustomers()`: the totals per recorded customer name, largest first, at most five. */
  function TopCustomers(txs: Option<seq<Transaction>>): seq<CustomerTotal> {
    if txs.None? then []
    else Take(RankedCustomers(KeptSales(txs.value)), 5)
  }

  function CustomerTotals(txs: seq<Transaction>): seq<CustomerTotal> {
    Totals(DistinctKeys(txs, TxCustomer), GroupSum(txs, TxCustomer, TotalAmount))
  }

  function RankedCustomers(txs: seq<Transaction>): seq<CustomerTotal> {
    SortBy(CustomerTotals(txs), ByAmountDesc())
  }

  /** For any other name, dropping the `__proto__` sales leaves that name's sales as they were. */
  lemma {:induction false} KeptSalesOfName(txs: seq<Transaction>, n: string)
    requires n != ProtoName
    decreases |txs|
    ensures WithKey(KeptSales(txs), TxCustomer, n) == WithKey(txs, TxCustomer, n)
  {
    if txs != [] {
      var init, last := txs[..|txs| - 1], txs[|txs| - 1];
      var p := (t: Transaction) => t.customerName != ProtoName;
      KeptSalesOfName(init, n);
      var tail := if p(last) then [last] else [];
      assert KeptSales(txs) == KeptSales(init) + tail;
      FilterConcat(KeptSales(init), tail, KeyIs(TxCustomer, n));
      assert Filter(tail, KeyIs(TxCustomer, n)) == (if last.customerName == n then [last] else []) by {
        if p(last) {
          assert [last][..0] == [];
        }
      }
    }
  }

  /** A per-customer total belongs to a name some sale carries, and is the sum of that name's sales. */
  lemma CustomerTotalInfo(txs: seq<Transaction>, x: CustomerTotal)
    requires x in CustomerTotals(txs)
    ensures exists k | 0 <= k < |txs| :: txs[k].customerName == x.name
    ensures x.amount == SumOf(WithKey(txs, TxCustomer, x.name), TotalAmount)
  {
    var ks := DistinctKeys(txs, TxCustomer);
    var all := CustomerTotals(txs);
    var a :| 0 <= a < |all| && all[a] == x;
    assert ks[a] in ks;
    var k :| 0 <= k < |txs| && TxCustomer(txs[k]) == ks[a];
    GroupSumIsSumPerKey(txs, TxCustomer, TotalAmount, ks[a]);
  }

  /** No two per-customer totals share a name. */
  lemma CustomerTotalsDistinct(txs: seq<Transaction>)
    ensures forall x, y | x in CustomerTotals(txs) && y in CustomerTotals(txs) && x.name == y.name :: x == y
    ensures NoDuplicates(CustomerTotals(txs))
  {
    var ks := DistinctKeys(txs, TxCustomer);
    var all := CustomerTotals(txs);
    forall x, y | x in all && y in all && x.name == y.name ensures x == y {
      var a :| 0 <= a < |all| && all[a] == x;
      var b :| 0 <= b < |all| && all[b] == y;
      assert ks[a] == ks[b];
    }
    forall a, b | 0 <= a < b < |all| ensures all[a] != all[b] {
      assert ks[a] != ks[b];
    }
  }

  /** The ranking lists every per-customer total once, largest first. */
  lemma RankedShape(txs: seq<Transaction>)
    ensures multiset(RankedCustomers(txs)) == multiset(CustomerTotals(txs))
    ensures NoDuplicates(RankedCustomers(txs))
    ensures forall i, j | 0 <= i < j < |RankedCustomers(txs)| :: RankedCustomers(txs)[j].amount <= RankedCustomers(txs)[i].amount
  {
    SortBySorted(CustomerTotals(txs), ByAmountDesc());
    CustomerTotalsDistinct(txs);
    NoDuplicatesPermutation(CustomerTotals(txs), RankedCustomers(txs));
    var ranked := RankedCustomers(txs);
    forall i, j | 0 <= i < j < |ranked| ensures ranked[j].amount <= ranked[i].amount {
      assert ByAmountDesc()(ranked[i], ranked[j]);
    }
  }

  /** At most five customers are listed, largest total first. */
  lemma TopCustomersOrdered(txs: seq<Transaction>)
    ensures |TopCustomers(Some(txs))| <= 5
    ensures forall i, j | 0 <= i < j < |TopCustomers(Some(txs))| :: TopCustomers(Some(txs))[j].amount <= TopCustomers(Some(txs))[i].amount
  {
    RankedShape(KeptSales(txs));
  }

  /**
    Each listed customer is a name some sale carries, other than
    `__proto__`, shown with the sum of that name's sales.
  */
  lemma TopCustomersSums(txs: seq<Transaction>)
    ensures var r := TopCustomers(Some(txs));
      forall i | 0 <= i < |r| ::
        && r[i].name != ProtoName
        && (exists k | 0 <= k < |txs| :: txs[k].customerName == r[i].name)
        && r[i].amount == SumOf(WithKey(txs, TxCustomer, r[i].name), TotalAmount)
  {
    var u := KeptSales(txs);
    var r := TopCustomers(Some(txs));
    var ranked := RankedCustomers(u);
    RankedShape(u);
    forall i | 0 <= i < |r| ensures
      && r[i].name != ProtoName
      && (exists k | 0 <= k < |txs| :: txs[k].customerName == r[i].name)
      && r[i].amount == SumOf(WithKey(txs, TxCustomer, r[i].name), TotalAmount)
    {
      assert r[i] == ranked[i];
      assert ranked[i] in multiset(ranked);
      CustomerTotalInfo(u, r[i]);
      var k :| 0 <= k < |u| && u[k].customerName == r[i].name;
      assert u[k] in txs;
      KeptSalesOfName(txs, r[i].name);
    }
  }

  /** A sale to `__proto__` never puts that name on the list, whatever its amount. */
  lemma ProtoBuyerNeverListed(txs: seq<Transaction>, t: Transaction)
    requires t.customerName == ProtoName
    ensures forall i | 0 <= i < |TopCustomers(Some(txs))| :: TopCustomers(Some(txs))[i].name != ProtoName
    ensures TopCustomers(Some([t])) == []
  {
    TopCustomersSums(txs);
    assert KeptSales([t]) == [] by {
      assert [t][..0] == [];
    }
  }

  /** No customer is listed twice. */
  lemma TopCustomersDistinct(txs: seq<Transaction>)
    ensures var r := TopCustomers(Some(txs));
      forall i, j | 0 <= i < j < |r| :: r[i].name != r[j].name
  {
    var r := TopCustomers(Some(txs));
    var ranked := RankedCustomers(KeptSales(txs));
    RankedShape(KeptSales(txs));
    CustomerTotalsDistinct(KeptSales(txs));
    forall i, j | 0 <= i < j < |r| ensures r[i].name != r[j].name {
      assert r[i] == ranked[i] && r[j] == ranked[j];
      assert ranked[i] in multiset(ranked) && ranked[j] in multiset(ranked);
    }
  }

  /** In a list ranked largest first, an entry whose name is not in the first `m` is no larger than any of them. */
  lemma BelowPrefix(ranked: seq<CustomerTotal>, m: nat, x: CustomerTotal)
    requires x in ranked
    requires forall i, j | 0 <= i < j < |ranked| :: ranked[j].amount <= ranked[i].amount
    requires forall i | 0 <= i < |Take(ranked, m)| :: Take(ranked, m)[i].name != x.name
    ensures forall i | 0 <= i < |Take(ranked, m)| :: x.amount <= Take(ranked, m)[i].amount
  {
    var r := Take(ranked, m);
    var p :| 0 <= p < |ranked| && ranked[p] == x;
    assert forall i | 0 <= i < |r| :: r[i] == ranked[i];
    assert p >= |r|;
  }

  /** The ranked total of the name sale `k` carries: that name, with the sum of its sales. */
  lemma RankedTotalOf(u: seq<Transaction>, k: int) returns (x: CustomerTotal)
    requires 0 <= k < |u|
    ensures x in RankedCustomers(u)
    ensures x.name == u[k].customerName
    ensures x.amount == SumOf(WithKey(u, TxCustomer, u[k].customerName), TotalAmount)
  {
    var ks := DistinctKeys(u, TxCustomer);
    var all := CustomerTotals(u);
    var n := u[k].customerName;
    assert TxCustomer(u[k]) == n;
    assert n in ks;
    var a :| 0 <= a < |ks| && ks[a] == n;
    x := all[a];
    SortBySorted(all, ByAmountDesc());
    assert x in multiset(RankedCustomers(u)) by {
      assert x in multiset(all);
    }
    CustomerTotalInfo(u, x);
  }

  /** Within the recorded sales: a name not among the first five ranked totals has a total no larger than any of them. */
  lemma RankedLeftOffDominated(u: seq<Transaction>, k: int)
    requires 0 <= k < |u|
    requires forall i | 0 <= i < |Take(RankedCustomers(u), 5)| :: Take(RankedCustomers(u), 5)[i].name != u[k].customerName
    ensures forall i | 0 <= i < |Take(RankedCustomers(u), 5)| ::
      SumOf(WithKey(u, TxCustomer, u[k].customerName), TotalAmount) <= Take(RankedCustomers(u), 5)[i].amount
  {
    var x := RankedTotalOf(u, k);
    RankedShape(u);
    BelowPrefix(RankedCustomers(u), 5, x);
  }

  /** A name some sale carries, other than `__proto__`, that is not on the list has a total no larger than any listed one. */
  lemma LeftOffDominated(txs: seq<Transaction>, k: int)
    requires 0 <= k < |txs| && txs[k].customerName != ProtoName
    requires forall i | 0 <= i < |TopCustomers(Some(txs))| :: TopCustomers(Some(txs))[i].name != txs[k].customerName
    ensures forall i | 0 <= i < |TopCustomers(Some(txs))| ::
      SumOf(WithKey(txs, TxCustomer, txs[k].customerName), TotalAmount) <= TopCustomers(Some(txs))[i].amount
  {
    var u := KeptSales(txs);
    var r := TopCustomers(Some(txs));
    assert r == Take(RankedCustomers(u), 5);
    var n := txs[k].customerName;
    FilterComplete(txs, (t: Transaction) => t.customerName != ProtoName);
    assert txs[k] in u;
    var k' :| 0 <= k' < |u| && u[k'] == txs[k];
    assert u[k'].customerName == n;
    RankedLeftOffDominated(u, k');
    KeptSalesOfName(txs, n);
    assert SumOf(WithKey(u, TxCustomer, n), TotalAmount) == SumOf(WithKey(txs, TxCustomer, n), TotalAmount);
  }

  /**
    A customer left off the list has bought no more than any customer on it,
    unless the customer is named `__proto__`, which is never listed.
  */
  lemma TopCustomersDominate(txs: seq<Transaction>)
    ensures var r := TopCustomers(Some(txs));
      forall k | 0 <= k < |txs| && txs[k].customerName != ProtoName && (forall i | 0 <= i < |r| :: r[i].name != txs[k].customerName) ::
        forall i | 0 <= i < |r| :: SumOf(WithKey(txs, TxCustomer, txs[k].customerName), TotalAmount) <= r[i].amount
  {
    var r := TopCustomers(Some(txs));
    forall k | 0 <= k < |txs| && txs[k].customerName != ProtoName && (forall i | 0 <= i < |r| :: r[i].name != txs[k].customerName)
      ensures forall i | 0 <= i < |r| :: SumOf(WithKey(txs, TxCustomer, txs[k].customerName), TotalAmount) <= r[i].amount
    {
      LeftOffDominated(txs, k);
    }
  }

  datatype StockSalesPoint = StockSalesPoint(date: string, sales: real, stock: real)

  /** The dates of the sales followed by the dates of the purchases. */
  function Dates(txs: seq<Transaction>, entries: seq<StockEntry>): (ds: seq<string>)
    ensures |ds| == |txs| + |entries|
    ensures forall i | 0 <= i < |txs| :: ds[i] == txs[i].date
    ensures forall i | 0 <= i < |entries| :: ds[|txs| + i] == entries[i].date
  {
    seq(|txs|, i requires 0 <= i < |txs| => txs[i].date) + seq(|entries|, i requires 0 <= i < |entries| => entries[i].date)
  }

  function SameDate(d: string): string { d }

  /** `Array.prototype.sort()` on strings: ascending character order. */
  function Ascending(): (string, string) -> bool {
    (a: string, b: string) => StrLe(a, b)
  }

  lemma AscendingTotal()
    ensures TotalPreorder(Ascending())
  {
    forall a: string, b: string ensures Ascending()(a, b) || Ascending()(b, a) {
      StrLeTotalOrder(a, b, b);
    }
    forall a: string, b: string, c: string | Ascending()(a, b) && Ascending()(b, c) ensures Ascending()(a, c) {
      StrLeTotalOrder(a, b, c);
    }
  }

  /** The union of the two lists' dates, each once, sorted. */
  function SortedDates(txs: seq<Transaction>, entries: seq<StockEntry>): seq<string> {
    SortBy(DistinctKeys(Dates(txs, entries), SameDate), Ascending())
  }

  /** `stockVsSalesData()`: per date of either list, the quantity sold and the net weight bought. */
  function StockVsSales(txs: Option<seq<Transaction>>, entries: Option<seq<StockEntry>>): seq<StockSalesPoint> {
    if txs.None? || entries.None? then []
    else
      var ds := SortedDates(txs.value, entries.value);
      var sales := GroupSum(txs.value, TxDate, Quantity);
      var stock := GroupSum(entries.value, EntryDate, NetWeight);
      seq(|ds|, i requires 0 <= i < |ds| => StockSalesPoint(ds[i], Lookup(sales, ds[i]), Lookup(stock, ds[i])))
  }

  /** The sorted dates are exactly the dates of either list, each once, strictly ascending. */
  lemma SortedDatesShape(txs: seq<Transaction>, entries: seq<StockEntry>)
    ensures forall d :: d in SortedDates(txs, entries) <==> d in Dates(txs, entries)
    ensures forall i, j | 0 <= i < j < |SortedDates(txs, entries)| :: StrLt(SortedDates(txs, entries)[i], SortedDates(txs, entries)[j])
  {
    var all := Dates(txs, entries);
    var ks := DistinctKeys(all, SameDate);
    var ds := SortedDates(txs, entries);
    AscendingTotal();
    SortBySorted(ks, Ascending());
    NoDuplicatesPermutation(ks, ds);
    forall i, j | 0 <= i < j < |ds| ensures StrLt(ds[i], ds[j]) {
      assert Ascending()(ds[i], ds[j]);
      assert ds[i] != ds[j];
    }
    forall d ensures d in ds <==> d in all {
      assert d in ds <==> d in multiset(ds);
      assert d in ks <==> d in multiset(ks);
      if d in ks {
        var i :| 0 <= i < |all| && SameDate(all[i]) == d;
        assert all[i] == d;
      }
      if d in all {
        var i :| 0 <= i < |all| && all[i] == d;
        assert SameDate(all[i]) == d;
      }
    }
  }

  /** The points go by strictly ascending date, so no date comes twice. */
  lemma StockVsSalesAscending(txs: seq<Transaction>, entries: seq<StockEntry>)
    ensures var r := StockVsSales(Some(txs), Some(entries));
      forall i, j | 0 <= i < j < |r| :: StrLt(r[i].date, r[j].date)
  {
    SortedDatesShape(txs, entries);
  }

  /** Every date of a sale or a purchase has a point, and every point's date is one of them. */
  lemma StockVsSalesDates(txs: seq<Transaction>, entries: seq<StockEntry>)
    ensures var r := StockVsSales(Some(txs), Some(entries));
      && (forall k | 0 <= k < |txs| :: exists i | 0 <= i < |r| :: r[i].date == txs[k].date)
      && (forall k | 0 <= k < |entries| :: exists i | 0 <= i < |r| :: r[i].date == entries[k].date)
      && (forall i | 0 <= i < |r| ::
            (exists k | 0 <= k < |txs| :: txs[k].date == r[i].date) || (exists k | 0 <= k < |entries| :: entries[k].date == r[i].date))
  {
    var all := Dates(txs, entries);
    var ds := SortedDates(txs, entries);
    var r := StockVsSales(Some(txs), Some(entries));
    SortedDatesShape(txs, entries);
    forall k | 0 <= k < |txs| ensures exists i | 0 <= i < |r| :: r[i].date == txs[k].date {
      assert all[k] in all;
      var i :| 0 <= i < |ds| && ds[i] == txs[k].date;
      assert r[i].date == ds[i];
    }
    forall k | 0 <= k < |entries| ensures exists i | 0 <= i < |r| :: r[i].date == entries[k].date {
      assert all[|txs| + k] in all;
      var i :| 0 <= i < |ds| && ds[i] == entries[k].date;
      assert r[i].date == ds[i];
    }
    forall i | 0 <= i < |r| ensures
      (exists k | 0 <= k < |txs| :: txs[k].date == r[i].date) || (exists k | 0 <= k < |entries| :: entries[k].date == r[i].date)
    {
      assert ds[i] in ds;
      var a :| 0 <= a < |all| && all[a] == ds[i];
      if a >= |txs| {
        assert entries[a - |txs|].date == r[i].date;
      } else {
        assert txs[a].date == r[i].date;
      }
    }
  }

  /** Each point holds that date's sold quantity and bought net weight. */
  lemma StockVsSalesSums(txs: seq<Transaction>, entries: seq<StockEntry>)
    ensures var r := StockVsSales(Some(txs), Some(entries));
      forall i | 0 <= i < |r| ::
        && r[i].sales == SumOf(WithKey(txs, TxDate, r[i].date), Quantity)
        && r[i].stock == SumOf(WithKey(entries, EntryDate, r[i].date), NetWeight)
  {
    var ds := SortedDates(txs, entries);
    var r := StockVsSales(Some(txs), Some(entries));
    forall i | 0 <= i < |r| ensures
      && r[i].sales == SumOf(WithKey(txs, TxDate, r[i].date), Quantity)
      && r[i].stock == SumOf(WithKey(entries, EntryDate, r[i].date), NetWeight)
    {
      GroupSumIsSumPerKey(txs, TxDate, Quantity, ds[i]);
      GroupSumIsSumPerKey(entries, EntryDate, NetWeight, ds[i]);
    }
  }
}
