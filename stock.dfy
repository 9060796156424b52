/**
  The stock ledger (`useStock`): purchases of shrimp with their derived net
  weight and cost, and the current stock derived from all purchases and all
  sales.
*/
module Stock {
  import opened Wrappers
  import opened Types
  import opened Folds
  import opened Sorting
  import opened Tables
  import opened Db
  import opened Text

  /** `Math.round(x)`: the nearest integer, halves rounded up. */
  function Round(x: real): (n: int)
    ensures n as real - 0.5 <= x < n as real + 0.5
  {
    (x + 0.5).Floor
  }

  /** `Math.round(gross * (1 - shrink / 100))`. */
  function NetWeightOf(gross: real, shrink: real): real {
    Round(gross * (1.0 - shrink / 100.0)) as real
  }

  /** `Math.round(gross * buyPrice)`. */
  function TotalCostOf(gross: real, buyPrice: real): real {
    Round(gross * buyPrice) as real
  }

  /** The stored net weight and cost agree with the stored gross weight, shrinkage and price. */
  predicate Derived(e: StockEntry) {
    e.netWeight == NetWeightOf(e.grossWeight, e.shrinkagePercentage)
    && e.totalCost == TotalCostOf(e.grossWeight, e.buyPrice)
  }

  ghost predicate AllDerived(t: Table<StockEntry>) {
    forall k | k in t.rows :: Derived(t.rows[k])
  }

  /** What `addStockEntry` is given: an entry without its derived figures and timestamps. */
  datatype NewStockEntry = NewStockEntry(
    supplierName: string,
    date: string,
    grossWeight: real,
    buyPrice: real,
    shrinkagePercentage: real)

  /** The fields `updateStockEntry` may be given; an absent field keeps its stored value. */
  datatype StockPatch = StockPatch(
    supplierName: Option<string>,
    date: Option<string>,
    grossWeight: Option<real>,
    buyPrice: Option<real>,
    shrinkagePercentage: Option<real>,
    createdAt: Option<string>)

  /** The row `addStockEntry` writes. */
  function EntryOf(d: NewStockEntry, now: string): (e: StockEntry)
    ensures Derived(e)
    ensures e.supplierName == d.supplierName && e.date == d.date && e.grossWeight == d.grossWeight
    ensures e.buyPrice == d.buyPrice && e.shrinkagePercentage == d.shrinkagePercentage
    ensures e.createdAt == now && e.updatedAt == now
  {
    StockEntry(
      d.supplierName, d.date, d.grossWeight, d.buyPrice,
      NetWeightOf(d.grossWeight, d.shrinkagePercentage),
      TotalCostOf(d.grossWeight, d.buyPrice),
      d.shrinkagePercentage, now, now)
  }

  /** 100 kg at 2 % shrinkage and 20000 per kg is stored as 98 kg costing 2,000,000. */
  lemma EntryOfExample(now: string)
    ensures var e := EntryOf(NewStockEntry("Pemasok", "2024-01-01", 100.0, 20000.0, 2.0), now);
      e.netWeight == 98.0 && e.totalCost == 2000000.0
  {
    assert 100.0 * (1.0 - 2.0 / 100.0) == 98.0;
    assert (98.0 + 0.5).Floor == 98;
    assert (100.0 * 20000.0 + 0.5).Floor == 2000000;
  }

  /**
    The row `updateStockEntry` writes: supplied fields replace stored ones,
    net weight and cost are recomputed from the merged figures, and the row is
    stamped with `now`.
  */
  function PatchedEntry(e: StockEntry, p: StockPatch, now: string): (r: StockEntry)
    ensures Derived(r)
    ensures r.grossWeight == (if p.grossWeight.Some? then p.grossWeight.value else e.grossWeight)
    ensures r.shrinkagePercentage == (if p.shrinkagePercentage.Some? then p.shrinkagePercentage.value else e.shrinkagePercentage)
    ensures r.buyPrice == (if p.buyPrice.Some? then p.buyPrice.value else e.buyPrice)
    ensures r.supplierName == (if p.supplierName.Some? then p.supplierName.value else e.supplierName)
    ensures r.date == (if p.date.Some? then p.date.value else e.date)
    ensures r.createdAt == (if p.createdAt.Some? then p.createdAt.value else e.createdAt)
    ensures r.updatedAt == now
  {
    var gross := p.grossWeight.GetOr(e.grossWeight);
    var shrink := p.shrinkagePercentage.GetOr(e.shrinkagePercentage);
    var buy := p.buyPrice.GetOr(e.buyPrice);
    StockEntry(
      p.supplierName.GetOr(e.supplierName), p.date.GetOr(e.date), gross, buy,
      NetWeightOf(gross, shrink), TotalCostOf(gross, buy), shrink,
      p.createdAt.GetOr(e.createdAt), now)
  }

  /** An empty patch still recomputes the derived figures and restamps the row. */
  lemma EmptyPatchRestamps(e: StockEntry, now: string)
    requires Derived(e)
    ensures PatchedEntry(e, StockPatch(None, None, None, None, None, None), now) == e.(updatedAt := now)
  {
  }

  /** The stock table after `updateStockEntry(id, p)`, or the error it throws. */
  function UpdatedEntries(t: Table<StockEntry>, id: int, p: StockPatch, now: string): Result<Table<StockEntry>> {
    if id !in t.rows then Err("Stock entry not found")
    else Ok(t.Replace(id, PatchedEntry(t.rows[id], p, now)))
  }

  /**
    An absent id gives "Stock entry not found"; otherwise only the target row
    changes, its keys and counter stay, and every stored row still has
    consistent derived figures.
  */
  lemma UpdatedEntriesEffect(t: Table<StockEntry>, id: int, p: StockPatch, now: string)
    requires t.Valid() && AllDerived(t)
    ensures id !in t.rows <==> UpdatedEntries(t, id, p, now) == Err("Stock entry not found")
    ensures UpdatedEntries(t, id, p, now).Ok? ==>
      var t' := UpdatedEntries(t, id, p, now).value;
      && t'.Valid() && AllDerived(t') && t'.next == t.next && t'.rows.Keys == t.rows.Keys
      && t'.rows[id] == PatchedEntry(t.rows[id], p, now)
      && forall k | k in t.rows && k != id :: t'.rows[k] == t.rows[k]
  {
  }

  /** Adding an entry keeps every stored row's derived figures consistent. */
  lemma AddKeepsDerived(t: Table<StockEntry>, d: NewStockEntry, now: string)
    requires t.Valid() && AllDerived(t)
    ensures AllDerived(t.Add(EntryOf(d, now)))
  {
  }

  /** `(entry, entry) => ...` for `orderBy('date').reverse()` on stock entries. */
  predicate EntryBefore(a: (int, StockEntry), b: (int, StockEntry)) {
    DateIdDesc(a.1.date, a.0, b.1.date, b.0)
  }

  lemma EntryBeforeTotal()
    ensures TotalPreorder(EntryBefore)
  {
    forall a: (int, StockEntry), b: (int, StockEntry) ensures EntryBefore(a, b) || EntryBefore(b, a) {
      DateIdDescOrder(a.1.date, a.0, b.1.date, b.0, b.1.date, b.0);
    }
    forall a: (int, StockEntry), b: (int, StockEntry), c: (int, StockEntry) | EntryBefore(a, b) && EntryBefore(b, c)
      ensures EntryBefore(a, c)
    {
      DateIdDescOrder(a.1.date, a.0, b.1.date, b.0, c.1.date, c.0);
    }
  }

  /** `db.stockEntries.orderBy('date').reverse().toArray()`. */
  function EntriesByDateDesc(t: Table<StockEntry>): seq<StockEntry> {
    Seconds(SortBy(t.Entries(), EntryBefore))
  }

  /** The date-descending listing holds every stored entry once, latest date first. */
  lemma EntriesByDateDescShape(t: Table<StockEntry>)
    ensures multiset(EntriesByDateDesc(t)) == multiset(t.Values())
    ensures forall i, j | 0 <= i < j < |EntriesByDateDesc(t)| ::
      StrLe(EntriesByDateDesc(t)[j].date, EntriesByDateDesc(t)[i].date)
  {
    var sorted := SortBy(t.Entries(), EntryBefore);
    SecondsPermutation(sorted, t.Entries());
    EntryBeforeTotal();
    SortBySorted(t.Entries(), EntryBefore);
    forall i, j | 0 <= i < j < |sorted| ensures StrLe(sorted[j].1.date, sorted[i].1.date) {
      assert EntryBefore(sorted[i], sorted[j]);
    }
  }

  datatype StockData = StockData(currentStock: real, totalPurchased: real, totalSold: real)

  function NetWeight(e: StockEntry): real { e.netWeight }

  function Quantity(t: Transaction): real { t.quantity }

  /**
    `stockData`: all zeros until both lists are loaded, then the purchased net
    weight, the sold quantity, and their difference, which is not clamped.
  */
  function StockDataOf(entries: Option<seq<StockEntry>>, txs: Option<seq<Transaction>>): (d: StockData)
    ensures entries.None? || txs.None? ==> d == StockData(0.0, 0.0, 0.0)
    ensures entries.Some? && txs.Some? ==>
      && d.totalPurchased == SumOf(entries.value, NetWeight)
      && d.totalSold == SumOf(txs.value, Quantity)
      && d.currentStock == d.totalPurchased - d.totalSold
  {
    if entries.None? || txs.None? then StockData(0.0, 0.0, 0.0)
    else
      var purchased := SumOf(entries.value, NetWeight);
      var sold := SumOf(txs.value, Quantity);
      StockData(purchased - sold, purchased, sold)
  }

  /** The stock the page shows: `stockData` over the two tables as loaded. */
  function CurrentStock(entries: Table<StockEntry>, txs: Table<Transaction>): real {
    StockDataOf(Some(EntriesByDateDesc(entries)), Some(txs.Values())).currentStock
  }

  /** The current stock is the stored net weight minus the sold quantity, whatever the listing order. */
  lemma CurrentStockIsDifference(entries: Table<StockEntry>, txs: Table<Transaction>)
    ensures CurrentStock(entries, txs) == SumOf(entries.Values(), NetWeight) - SumOf(txs.Values(), Quantity)
  {
    EntriesByDateDescShape(entries);
    SumOfPermutation(EntriesByDateDesc(entries), entries.Values(), NetWeight);
  }

  /** The stock is not clamped: selling more than was bought shows a negative stock. */
  lemma StockCanBeNegative()
    ensures StockDataOf(Some([]), Some([Transaction(1, "A", "2024-01-01", "Udang", 5.0, 1.0, 5.0,
      PaymentMethod.Tunai, 5.0, 0.0, TxStatus.Lunas, "2024-01-01T00:00:00.000Z")])).currentStock == -5.0
  {
  }

  /** Adding a purchase raises the current stock by its net weight. */
  lemma AddRaisesStock(entries: Table<StockEntry>, txs: Table<Transaction>, d: NewStockEntry, now: string)
    requires entries.Valid()
    ensures CurrentStock(entries.Add(EntryOf(d, now)), txs)
      == CurrentStock(entries, txs) + NetWeightOf(d.grossWeight, d.shrinkagePercentage)
  {
    CurrentStockIsDifference(entries, txs);
    CurrentStockIsDifference(entries.Add(EntryOf(d, now)), txs);
    AddAppends(entries, EntryOf(d, now));
    SumOfAppend(entries.Values(), EntryOf(d, now), NetWeight);
  }

  /** Deleting a purchase lowers the current stock by its net weight. */
  lemma DeleteLowersStock(entries: Table<StockEntry>, txs: Table<Transaction>, id: int)
    requires entries.Valid() && id in entries.rows
    ensures CurrentStock(entries.Delete(id), txs) == CurrentStock(entries, txs) - entries.rows[id].netWeight
  {
    CurrentStockIsDifference(entries, txs);
    CurrentStockIsDifference(entries.Delete(id), txs);
    DeleteRemoves(entries, id, NetWeight);
  }

  /** `addStockEntry(data)`. */
  method AddStockEntry(db: Store, d: NewStockEntry, now: string)
    requires db.Valid()
    modifies db`stockEntries
    ensures db.Valid()
    ensures db.stockEntries == old(db.stockEntries).Add(EntryOf(d, now))
  {
    var row := EntryOf(d, now);
    AddAppends(db.stockEntries, row);
    db.stockEntries := db.stockEntries.Add(row);
  }

  /** `updateStockEntry(id, data)`: looks the row up, merges, recomputes and writes it back. */
  method UpdateStockEntry(db: Store, id: int, p: StockPatch, now: string) returns (o: Outcome)
    requires db.Valid()
    modifies db`stockEntries
    ensures db.Valid()
    ensures match UpdatedEntries(old(db.stockEntries), id, p, now)
      case Ok(t) => o == Pass && db.stockEntries == t
      case Err(m) => o == Fail(m) && db.stockEntries == old(db.stockEntries)
  {
    var found := db.stockEntries.Get(id);
    if found.None? {
      return Fail("Stock entry not found");
    }
    var row := PatchedEntry(found.value, p, now);
    db.stockEntries := db.stockEntries.Replace(id, row);
    o := Pass;
  }

  /** `deleteStockEntry(id)`. */
  method DeleteStockEntry(db: Store, id: int)
    requires db.Valid()
    modifies db`stockEntries
    ensures db.Valid()
    ensures db.stockEntries == old(db.stockEntries).Delete(id)
  {
    db.stockEntries := db.stockEntries.Delete(id);
  }
}
