/**
  The stock page (`StockPage`): the schemas of the purchase form and the cost
  form, the values each form starts with, the submit handlers that either add
  a record or update the one being edited, and the delete confirmation.
*/
module StockPage {
  import opened Wrappers
  import opened Types
  import opened Tables
  import opened Db
  import opened Stock
  import opened Costs

  /**
    The purchase form as entered. An absent number is one never typed
    (`undefined`), which the schema's number check rejects; an absent date is
    a date never picked.
  */
  datatype StockForm = StockForm(
    date: Option<string>,
    supplierName: string,
    grossWeight: Option<real>,
    buyPrice: Option<real>,
    shrinkagePercentage: Option<real>)

  /** `stockSchema`. */
  predicate StockSchemaAccepts(f: StockForm) {
    && f.date.Some?
    && |f.supplierName| >= 1
    && f.grossWeight.Some? && f.grossWeight.value > 0.0
    && f.buyPrice.Some? && f.buyPrice.value > 0.0
    && f.shrinkagePercentage.Some? && f.shrinkagePercentage.value >= 0.0
  }

  /** The cost form as entered. */
  datatype CostForm = CostForm(
    date: Option<string>,
    description: string,
    amount: Option<real>,
    category: string)

  /** `costSchema`. */
  predicate CostSchemaAccepts(f: CostForm) {
    && f.date.Some?
    && |f.description| >= 1
    && f.amount.Some? && f.amount.value > 0.0
    && |f.category| >= 1
  }

  /** The purchase form's starting values: the entry being edited, or today with shrinkage 2 and no figures. */
  function StockDefaults(entry: Option<StockEntry>, today: string): (f: StockForm)
    ensures entry.None? ==> f == StockForm(Some(today), "", None, None, Some(2.0))
    ensures entry.Some? ==> f.date == Some(entry.value.date) && f.supplierName == entry.value.supplierName
    ensures entry.Some? ==> f.grossWeight == Some(entry.value.grossWeight) && f.buyPrice == Some(entry.value.buyPrice)
    ensures entry.Some? ==> f.shrinkagePercentage == Some(entry.value.shrinkagePercentage)
  {
    if entry.Some? then
      var e := entry.value;
      StockForm(Some(e.date), e.supplierName, Some(e.grossWeight), Some(e.buyPrice), Some(e.shrinkagePercentage))
    else
      StockForm(Some(today), "", None, None, Some(2.0))
  }

  /** The cost form's starting values: the cost being edited, or today in category "Operasional". */
  function CostDefaults(cost: Option<OperationalCost>, today: string): (f: CostForm)
    ensures cost.None? ==> f == CostForm(Some(today), "", None, "Operasional")
    ensures cost.Some? ==> f == CostForm(Some(cost.value.date), cost.value.description, Some(cost.value.amount), cost.value.category)
  {
    if cost.Some? then
      var c := cost.value;
      CostForm(Some(c.date), c.description, Some(c.amount), c.category)
    else
      CostForm(Some(today), "", None, "Operasional")
  }

  /** A fresh purchase form cannot be saved until a weight and a price are typed in; with them and a supplier it can. */
  lemma StockDefaultsNeedFigures(today: string, supplier: string, gross: real, buy: real)
    ensures !StockSchemaAccepts(StockDefaults(None, today))
    ensures |supplier| >= 1 && gross > 0.0 && buy > 0.0 ==>
      StockSchemaAccepts(StockDefaults(None, today).(supplierName := supplier, grossWeight := Some(gross), buyPrice := Some(buy)))
  {
  }

  /** A fresh cost form needs a description and an amount; its category is already filled in. */
  lemma CostDefaultsNeedDescriptionAndAmount(today: string, description: string, amount: real)
    ensures !CostSchemaAccepts(CostDefaults(None, today))
    ensures CostSchemaAccepts(CostDefaults(None, today).(description := description, amount := Some(amount)))
      <==> |description| >= 1 && amount > 0.0
  {
  }

  /** The purchase as handed on, once the schema accepts. */
  function StockDataOfForm(f: StockForm): (d: NewStockEntry)
    requires StockSchemaAccepts(f)
    ensures d.date == f.date.value && d.supplierName == f.supplierName
    ensures d.grossWeight == f.grossWeight.value && d.buyPrice == f.buyPrice.value
    ensures d.shrinkagePercentage == f.shrinkagePercentage.value
  {
    NewStockEntry(f.supplierName, f.date.value, f.grossWeight.value, f.buyPrice.value, f.shrinkagePercentage.value)
  }

  /** `{ ...data, createdAt: entry.createdAt }`: every form field plus the entry's original creation time. */
  function EditPatch(d: NewStockEntry, createdAt: string): (p: StockPatch)
    ensures p.grossWeight == Some(d.grossWeight) && p.buyPrice == Some(d.buyPrice)
    ensures p.shrinkagePercentage == Some(d.shrinkagePercentage) && p.createdAt == Some(createdAt)
    ensures p.supplierName == Some(d.supplierName) && p.date == Some(d.date)
  {
    StockPatch(Some(d.supplierName), Some(d.date), Some(d.grossWeight), Some(d.buyPrice), Some(d.shrinkagePercentage), Some(createdAt))
  }

  /**
    A stored entry the schema accepts never has a negative cost; its net
    weight is non-negative as long as the shrinkage is at most 100 %, a bound
    the schema does not impose.
  */
  lemma AcceptedEntryFigures(f: StockForm, now: string)
    requires StockSchemaAccepts(f)
    ensures EntryOf(StockDataOfForm(f), now).totalCost >= 0.0
    ensures f.shrinkagePercentage.value <= 100.0 ==> EntryOf(StockDataOfForm(f), now).netWeight >= 0.0
  {
    var g := f.grossWeight.value;
    assert g * f.buyPrice.value > 0.0;
    var s := f.shrinkagePercentage.value;
    if s <= 100.0 {
      assert 1.0 - s / 100.0 >= 0.0;
      assert g * (1.0 - s / 100.0) >= 0.0;
    }
  }

  /** The schema lets through a shrinkage above 100 %, which stores a negative net weight. */
  lemma ShrinkageAboveHundredAccepted(now: string)
    ensures var f := StockForm(Some("2024-01-01"), "Pemasok", Some(10.0), Some(1000.0), Some(150.0));
      StockSchemaAccepts(f) && EntryOf(StockDataOfForm(f), now).netWeight == -5.0
  {
    assert 10.0 * (1.0 - 150.0 / 100.0) == -5.0;
    assert (-5.0 + 0.5).Floor == -5;
  }

  /**
    Saving an edit without changing anything puts the row back as it was,
    apart from its update time.
  */
  lemma UnchangedEditKeepsRow(t: Table<StockEntry>, id: int, now: string)
    requires t.Valid() && id in t.rows && Derived(t.rows[id]) && t.rows[id].grossWeight > 0.0
    requires t.rows[id].buyPrice > 0.0 && t.rows[id].shrinkagePercentage >= 0.0 && |t.rows[id].supplierName| >= 1
    ensures var e := t.rows[id];
      var f := StockDefaults(Some(e), now);
      && StockSchemaAccepts(f)
      && UpdatedEntries(t, id, EditPatch(StockDataOfForm(f), e.createdAt), now) == Ok(t.Replace(id, e.(updatedAt := now)))
  {
  }

  /**
    The purchase form's `handleSubmit`: an edited entry with a key is
    updated (keeping its creation time), anything else is added. `onSuccess`
    runs only when no error is thrown, which `Pass` stands for.
  */
  method SubmitStock(db: Store, entry: Option<(int, StockEntry)>, f: StockForm, now: string) returns (o: Outcome)
    requires db.Valid() && StockSchemaAccepts(f)
    modifies db`stockEntries
    ensures db.Valid()
    ensures entry.Some? && entry.value.0 != 0 ==>
      match UpdatedEntries(old(db.stockEntries), entry.value.0, EditPatch(StockDataOfForm(f), entry.value.1.createdAt), now)
      case Ok(t) => o == Pass && db.stockEntries == t
      case Err(m) => o == Fail(m) && db.stockEntries == old(db.stockEntries)
    ensures entry.None? || entry.value.0 == 0 ==>
      o == Pass && db.stockEntries == old(db.stockEntries).Add(EntryOf(StockDataOfForm(f), now))
  {
    var data := StockDataOfForm(f);
    if entry.Some? && entry.value.0 != 0 {
      o := UpdateStockEntry(db, entry.value.0, EditPatch(data, entry.value.1.createdAt), now);
    } else {
      AddStockEntry(db, data, now);
      o := Pass;
    }
  }

  /** The cost as handed on, once the schema accepts. */
  function CostDataOfForm(f: CostForm): (d: NewCost)
    requires CostSchemaAccepts(f)
    ensures d == NewCost(f.date.value, f.description, f.amount.value, f.category)
  {
    NewCost(f.date.value, f.description, f.amount.value, f.category)
  }

  function FullPatch(d: NewCost): (p: CostPatch)
    ensures p.date == Some(d.date) && p.description == Some(d.description)
    ensures p.amount == Some(d.amount) && p.category == Some(d.category)
  {
    CostPatch(Some(d.date), Some(d.description), Some(d.amount), Some(d.category))
  }

  /** The cost form's `handleSubmit`: update the cost being edited when it has a key, otherwise add. */
  method SubmitCost(db: Store, cost: Option<(int, OperationalCost)>, f: CostForm, now: string)
    requires db.Valid() && CostSchemaAccepts(f)
    modifies db`operationalCosts
    ensures db.Valid()
    ensures cost.Some? && cost.value.0 != 0 && cost.value.0 in old(db.operationalCosts.rows) ==>
      var id := cost.value.0;
      db.operationalCosts == old(db.operationalCosts).Replace(id, PatchedCost(old(db.operationalCosts.rows[id]), FullPatch(CostDataOfForm(f)), now))
    ensures cost.Some? && cost.value.0 != 0 && cost.value.0 !in old(db.operationalCosts.rows) ==>
      db.operationalCosts == old(db.operationalCosts)
    ensures cost.None? || cost.value.0 == 0 ==>
      db.operationalCosts == old(db.operationalCosts).Add(CostOf(CostDataOfForm(f), now))
  {
    var data := CostDataOfForm(f);
    if cost.Some? && cost.value.0 != 0 {
      UpdateCost(db, cost.value.0, FullPatch(data), now);
    } else {
      AddCost(db, data, now);
    }
  }

  /** Saving an edited cost replaces every user field and keeps its creation time. */
  lemma CostEditReplacesFields(c: OperationalCost, f: CostForm, now: string)
    requires CostSchemaAccepts(f)
    ensures var r := PatchedCost(c, FullPatch(CostDataOfForm(f)), now);
      && r == OperationalCost(f.date.value, f.description, f.amount.value, f.category, c.createdAt, now)
  {
  }

  datatype RecordKind = StockKind | CostKind

  /** The delete confirmation: which kind of record it is for and its key, if any. */
  class DeleteAlert {
    var kind: Option<RecordKind>
    var id: Option<int>

    constructor ()
      ensures kind.None? && id.None?
    {
      kind := None;
      id := None;
    }

    /** Opens the confirmation for one record. */
    method Open(k: RecordKind, key: int)
      modifies this
      ensures kind == Some(k) && id == Some(key)
    {
      kind := Some(k);
      id := Some(key);
    }

    /**
      The Hapus action: deletes from the table the kind names, only when a
      non-zero key is set, and closes the confirmation either way.
    */
    method Confirm(db: Store)
      requires db.Valid()
      modifies this, db`stockEntries, db`operationalCosts
      ensures db.Valid()
      ensures kind.None? && id.None?
      ensures old(id).Some? && old(id).value != 0 && old(kind) == Some(StockKind) ==>
        db.stockEntries == old(db.stockEntries).Delete(old(id).value) && db.operationalCosts == old(db.operationalCosts)
      ensures old(id).Some? && old(id).value != 0 && old(kind) == Some(CostKind) ==>
        db.operationalCosts == old(db.operationalCosts).Delete(old(id).value) && db.stockEntries == old(db.stockEntries)
      ensures old(id).None? || old(id).value == 0 || old(kind).None? ==>
        db.stockEntries == old(db.stockEntries) && db.operationalCosts == old(db.operationalCosts)
    {
      if id.Some? && id.value != 0 {
        if kind == Some(StockKind) {
          DeleteStockEntry(db, id.value);
        }
        if kind == Some(CostKind) {
          DeleteCost(db, id.value);
        }
      }
      kind := None;
      id := None;
    }
  }
}
