/**
  The local database (a Dexie database named `UdangKuDatabase`): one keyed
  table per kind of record, each with an auto-increment primary key, and a
  unique index on customer names. `initializeSettings` seeds the settings
  table when it is empty.
*/
module Db {
  import opened Wrappers
  import opened Types
  import opened Tables
  import opened Text

  /** Some stored customer has exactly this name. */
  predicate HasName(t: Table<Customer>, name: string) {
    exists k | k in t.rows :: t.rows[k].name == name
  }

  /** Some stored customer other than the one under `self` has exactly this name. */
  predicate OtherHasName(t: Table<Customer>, name: string, self: int) {
    exists k | k in t.rows :: k != self && t.rows[k].name == name
  }

  /** The unique `&name` index: no two customers have exactly the same name (case matters). */
  ghost predicate UniqueNames(t: Table<Customer>) {
    forall j, k | j in t.rows && k in t.rows && j != k :: t.rows[j].name != t.rows[k].name
  }

  /** `customers.add(c)`: rejected with a constraint error when the exact name is already indexed. */
  function AddCustomerRow(t: Table<Customer>, c: Customer): (r: Result<Table<Customer>>)
    ensures r.Err? <==> HasName(t, c.name)
    ensures r.Ok? ==> r.value == t.Add(c)
    ensures t.Valid() && UniqueNames(t) && r.Ok? ==> r.value.Valid() && UniqueNames(r.value)
  {
    if HasName(t, c.name) then Err("ConstraintError") else Ok(t.Add(c))
  }

  /**
    `customers.update(k, ...)` leaving the row equal to `c`: nothing happens on
    an absent key, and a name that another row holds exactly is rejected by
    the index.
  */
  function PutCustomerRow(t: Table<Customer>, k: int, c: Customer): (r: Result<Table<Customer>>)
    ensures r.Err? <==> k in t.rows && OtherHasName(t, c.name, k)
    ensures r.Ok? && k !in t.rows ==> r.value == t
    ensures r.Ok? && k in t.rows ==> r.value.rows == t.rows[k := c] && r.value.next == t.next
    ensures t.Valid() && UniqueNames(t) && r.Ok? ==> r.value.Valid() && UniqueNames(r.value)
  {
    if k !in t.rows then Ok(t)
    else if OtherHasName(t, c.name, k) then Err("ConstraintError")
    else Ok(t.Replace(k, c))
  }

  function EmptyTable<R>(): (t: Table<R>)
    ensures t.Valid() && t.Count() == 0 && t.Values() == []
  {
    Table(map[], 1)
  }

  class Store {
    var customers: Table<Customer>
    var transactions: Table<Transaction>
    var stockEntries: Table<StockEntry>
    var operationalCosts: Table<OperationalCost>
    var settings: Table<Settings>
    var debts: Table<Debt>
    var debtPayments: Table<DebtPayment>

    ghost predicate Valid()
      reads this
    {
      && customers.Valid() && UniqueNames(customers)
      && transactions.Valid()
      && stockEntries.Valid()
      && operationalCosts.Valid()
      && settings.Valid()
      && debts.Valid()
      && debtPayments.Valid()
    }

    /** A freshly created database: every table empty, every counter at 1. */
    constructor()
      ensures Valid()
      ensures customers == EmptyTable() && transactions == EmptyTable()
      ensures stockEntries == EmptyTable() && operationalCosts == EmptyTable()
      ensures settings == EmptyTable() && debts == EmptyTable() && debtPayments == EmptyTable()
    {
      customers := EmptyTable();
      transactions := EmptyTable();
      stockEntries := EmptyTable();
      operationalCosts := EmptyTable();
      settings := EmptyTable();
      debts := EmptyTable();
      debtPayments := EmptyTable();
    }
  }

  /**
    The order `orderBy('date').reverse()` lists rows in: later dates first,
    and among rows with the same date the higher key first (the index is
    ordered by date, then by primary key, and read backwards).
  */
  predicate DateIdDesc(da: string, ia: int, db: string, ib: int) {
    StrLt(db, da) || (da == db && ia >= ib)
  }

  /** That order relates any two rows one way or the other, and is transitive. */
  lemma DateIdDescOrder(da: string, ia: int, db: string, ib: int, dc: string, ic: int)
    ensures DateIdDesc(da, ia, db, ib) || DateIdDesc(db, ib, da, ia)
    ensures DateIdDesc(da, ia, db, ib) && DateIdDesc(db, ib, dc, ic) ==> DateIdDesc(da, ia, dc, ic)
    ensures DateIdDesc(da, ia, db, ib) && DateIdDesc(db, ib, da, ia) ==> da == db && ia == ib
  {
    StrLtTrichotomy(da, db);
    if StrLt(db, da) && StrLt(dc, db) {
      StrLtTransitive(dc, db, da);
    }
  }

  /** The row `initializeSettings` writes: only the two default values are present. */
  const InitialSettings: Settings :=
    NoSettings.(defaultShrinkagePercentage := Some(2.0), defaultDailyPrice := Some(25000.0))

  /** The settings table after `initializeSettings`: seeded under key 1 when empty, otherwise as it was. */
  function InitializedSettings(t: Table<Settings>): Table<Settings> {
    if t.Count() != 0 then t
    else
      match t.AddWithKey(1, InitialSettings)
      case Ok(t') => t'
      case Err(_) => t
  }

  /** On an empty table exactly one row is added: key 1, shrinkage 2, price 25000. */
  lemma InitializeSeedsEmpty(t: Table<Settings>)
    requires t.Valid() && t.Count() == 0
    ensures InitializedSettings(t).Valid()
    ensures InitializedSettings(t).rows == map[1 := InitialSettings]
    ensures InitializedSettings(t).Count() == 1
    ensures InitialSettings.defaultShrinkagePercentage == Some(2.0)
    ensures InitialSettings.defaultDailyPrice == Some(25000.0)
  {
    assert t.rows == map[];
    assert map[1 := InitialSettings].Keys == {1};
  }

  /** Once a settings row exists, `initializeSettings` changes nothing. */
  lemma InitializeKeepsExisting(t: Table<Settings>)
    requires t.Count() != 0
    ensures InitializedSettings(t) == t
  {
  }

  /** Running `initializeSettings` twice leaves the same table as running it once. */
  lemma InitializeIdempotent(t: Table<Settings>)
    requires t.Valid()
    ensures InitializedSettings(InitializedSettings(t)) == InitializedSettings(t)
  {
    if t.Count() == 0 {
      InitializeSeedsEmpty(t);
    }
  }

  /** `initializeSettings()`: counts the settings rows and adds the seed row when there are none. */
  method InitializeSettings(db: Store)
    requires db.Valid()
    modifies db`settings
    ensures db.Valid()
    ensures db.settings == InitializedSettings(old(db.settings))
  {
    var count := db.settings.Count();
    if count == 0 {
      var added := db.settings.AddWithKey(1, InitialSettings);
      InitializeSeedsEmpty(db.settings);
      match added
      case Ok(t) =>
        db.settings := t;
      case Err(_) =>
        assert false;
    }
  }
}
