/**
  Customers (`useCustomers`): names are kept distinct ignoring case on every
  add and rename, and per-customer figures are summed from the customer's
  sales.
*/
module Customers {
  import opened Wrappers
  import opened Types
  import opened Text
  import opened Folds
  import opened Sorting
  import opened Tables
  import opened Db

  /**
    `customers.where('name').equalsIgnoreCase(name).first()` over a listing by
    key: among the rows whose name equals `name` ignoring case, the one that
    comes first in the name index (the least name; names are unique there).
  */
  function FirstMatch(es: seq<(int, Customer)>, name: string): (r: Option<(int, Customer)>)
    decreases |es|
    ensures r.None? <==> forall i | 0 <= i < |es| :: !EqualsIgnoreCase(es[i].1.name, name)
    ensures r.Some? ==> r.value in es && EqualsIgnoreCase(r.value.1.name, name)
    ensures r.Some? ==> forall i | 0 <= i < |es| && EqualsIgnoreCase(es[i].1.name, name) ::
      StrLe(r.value.1.name, es[i].1.name)
  {
    if es == [] then None
    else
      var init := es[..|es| - 1];
      var e := es[|es| - 1];
      var rest := FirstMatch(init, name);
      assert forall i | 0 <= i < |init| :: init[i] == es[i];
      if !EqualsIgnoreCase(e.1.name, name) then rest
      else if rest.Some? && StrLe(rest.value.1.name, e.1.name) then rest
      else if rest.None? then Some(e)
      else
        StrLeTotalOrder(rest.value.1.name, e.1.name, e.1.name);
        assert forall i | 0 <= i < |init| && EqualsIgnoreCase(init[i].1.name, name) :: StrLe(e.1.name, init[i].1.name) by {
          forall i | 0 <= i < |init| && EqualsIgnoreCase(init[i].1.name, name) ensures StrLe(e.1.name, init[i].1.name) {
            StrLeTotalOrder(e.1.name, rest.value.1.name, init[i].1.name);
          }
        }
        StrLeTotalOrder(e.1.name, e.1.name, e.1.name);
        Some(e)
  }

  /** The key of the customer `equalsIgnoreCase(name).first()` finds, if any. */
  function FindCustomer(t: Table<Customer>, name: string): Option<int> {
    match FirstMatch(t.Entries(), name)
    case Some(e) => Some(e.0)
    case None => None
  }

  /** The lookup finds a customer exactly when some stored name equals `name` ignoring case, and the one it finds matches. */
  lemma FindCustomerSpec(t: Table<Customer>, name: string)
    requires t.Valid()
    ensures FindCustomer(t, name).None? <==> forall k | k in t.rows :: !EqualsIgnoreCase(t.rows[k].name, name)
    ensures FindCustomer(t, name).Some? ==>
      FindCustomer(t, name).value in t.rows && EqualsIgnoreCase(t.rows[FindCustomer(t, name).value].name, name)
  {
    EntriesBelowShape(t.rows, t.next);
    var es := t.Entries();
    if FindCustomer(t, name).None? {
      forall k | k in t.rows ensures !EqualsIgnoreCase(t.rows[k].name, name) {
        assert (k, t.rows[k]) in es;
      }
    } else {
      var e := FirstMatch(es, name).value;
      assert (e.0, e.1) in es;
    }
  }

  /** No two customers have names that are equal ignoring case. */
  ghost predicate CaseDistinct(t: Table<Customer>) {
    forall j, k | j in t.rows && k in t.rows && j != k :: !EqualsIgnoreCase(t.rows[j].name, t.rows[k].name)
  }

  /** Names distinct ignoring case are in particular distinct, as the unique index demands. */
  lemma CaseDistinctIsUnique(t: Table<Customer>)
    requires CaseDistinct(t)
    ensures UniqueNames(t)
  {
  }

  /** Under distinct names the lookup can only find the one customer whose name matches. */
  lemma FindCustomerUnique(t: Table<Customer>, name: string, k: int)
    requires t.Valid() && CaseDistinct(t)
    requires k in t.rows && EqualsIgnoreCase(t.rows[k].name, name)
    ensures FindCustomer(t, name) == Some(k)
  {
    FindCustomerSpec(t, name);
    var j := FindCustomer(t, name).value;
    EqualsIgnoreCaseIsEquivalence(t.rows[j].name, name, t.rows[k].name);
  }

  /** Adding a customer whose name matches no stored name ignoring case keeps names distinct. */
  lemma AddKeepsCaseDistinct(t: Table<Customer>, c: Customer)
    requires t.Valid() && CaseDistinct(t)
    requires forall k | k in t.rows :: !EqualsIgnoreCase(t.rows[k].name, c.name)
    ensures CaseDistinct(t.Add(c))
  {
    forall j, k | j in t.Add(c).rows && k in t.Add(c).rows && j != k
      ensures !EqualsIgnoreCase(t.Add(c).rows[j].name, t.Add(c).rows[k].name)
    {
      if j == t.next {
        EqualsIgnoreCaseIsEquivalence(c.name, t.rows[k].name, c.name);
      }
    }
  }

  /** What the customer form submits. */
  datatype CustomerData = CustomerData(name: string, phone: Option<string>, address: Option<string>)

  /** The customers table after `addCustomer(data)`, or the error it throws. */
  function AddedCustomer(t: Table<Customer>, d: CustomerData, now: string): Result<Table<Customer>> {
    if FindCustomer(t, d.name).Some? then Err("Nama pelanggan sudah ada.")
    else AddCustomerRow(t, Customer(d.name, d.phone, d.address, now))
  }

  /**
    A name equal ignoring case to a stored one is rejected and nothing changes;
    any other name adds exactly one row, under a fresh key, and the names stay
    distinct ignoring case.
  */
  lemma AddedCustomerEffect(t: Table<Customer>, d: CustomerData, now: string)
    requires t.Valid() && CaseDistinct(t)
    ensures AddedCustomer(t, d, now).Err? <==> exists k | k in t.rows :: EqualsIgnoreCase(t.rows[k].name, d.name)
    ensures AddedCustomer(t, d, now).Err? ==> AddedCustomer(t, d, now) == Err("Nama pelanggan sudah ada.")
    ensures AddedCustomer(t, d, now).Ok? ==>
      && AddedCustomer(t, d, now).value == t.Add(Customer(d.name, d.phone, d.address, now))
      && AddedCustomer(t, d, now).value.Count() == t.Count() + 1
      && AddedCustomer(t, d, now).value.Valid()
      && CaseDistinct(AddedCustomer(t, d, now).value)
  {
    FindCustomerSpec(t, d.name);
    var c := Customer(d.name, d.phone, d.address, now);
    if FindCustomer(t, d.name).None? {
      assert !HasName(t, d.name) by {
        forall k | k in t.rows ensures t.rows[k].name != d.name {
          assert !EqualsIgnoreCase(t.rows[k].name, d.name);
        }
      }
      AddKeepsCaseDistinct(t, c);
      AddAppends(t, c);
    }
  }

  /** The row `update(id, data)` leaves: supplied fields replaced, the rest (and `createdAt`) kept. */
  function RenamedRow(c: Customer, d: CustomerData): (r: Customer)
    ensures r.name == d.name && r.createdAt == c.createdAt
    ensures r.phone == (if d.phone.Some? then d.phone else c.phone)
    ensures r.address == (if d.address.Some? then d.address else c.address)
  {
    Customer(d.name, if d.phone.Some? then d.phone else c.phone, if d.address.Some? then d.address else c.address, c.createdAt)
  }

  /** The customers table after `updateCustomer(id, data)`, or the error it throws. */
  function UpdatedCustomer(t: Table<Customer>, id: int, d: CustomerData): Result<Table<Customer>> {
    var found := FindCustomer(t, d.name);
    if found.Some? && found.value != id then Err("Nama pelanggan sudah digunakan oleh data lain.")
    else if id !in t.rows then Ok(t)
    else PutCustomerRow(t, id, RenamedRow(t.rows[id], d))
  }

  /**
    With names distinct ignoring case: the update is rejected exactly when a
    customer under another key has the new name ignoring case, so renaming a
    customer to its own name in any case is accepted; an accepted update
    changes only the target row and keeps the names distinct.
  */
  lemma UpdatedCustomerEffect(t: Table<Customer>, id: int, d: CustomerData)
    requires t.Valid() && CaseDistinct(t)
    ensures UpdatedCustomer(t, id, d).Err? <==> exists k | k in t.rows :: k != id && EqualsIgnoreCase(t.rows[k].name, d.name)
    ensures UpdatedCustomer(t, id, d).Err? ==> UpdatedCustomer(t, id, d) == Err("Nama pelanggan sudah digunakan oleh data lain.")
    ensures UpdatedCustomer(t, id, d).Ok? && id !in t.rows ==> UpdatedCustomer(t, id, d).value == t
    ensures UpdatedCustomer(t, id, d).Ok? && id in t.rows ==>
      && UpdatedCustomer(t, id, d).value.rows == t.rows[id := RenamedRow(t.rows[id], d)]
      && UpdatedCustomer(t, id, d).value.next == t.next
      && CaseDistinct(UpdatedCustomer(t, id, d).value)
  {
    FindCustomerSpec(t, d.name);
    if exists k | k in t.rows :: k != id && EqualsIgnoreCase(t.rows[k].name, d.name) {
      var k :| k in t.rows && k != id && EqualsIgnoreCase(t.rows[k].name, d.name);
      FindCustomerUnique(t, d.name, k);
    } else if id in t.rows {
      assert !OtherHasName(t, d.name, id) by {
        forall k | k in t.rows && k != id ensures t.rows[k].name != d.name {
          assert !EqualsIgnoreCase(t.rows[k].name, d.name);
        }
      }
      var t' := t.Replace(id, RenamedRow(t.rows[id], d));
      forall j, k | j in t'.rows && k in t'.rows && j != k
        ensures !EqualsIgnoreCase(t'.rows[j].name, t'.rows[k].name)
      {
        if j == id {
          EqualsIgnoreCaseIsEquivalence(d.name, t.rows[k].name, d.name);
        } else if k == id {
          EqualsIgnoreCaseIsEquivalence(t.rows[j].name, d.name, t.rows[j].name);
        }
      }
    }
  }

  /** A minimal witness: a customer may be renamed to its own name in another case. */
  lemma RenameToOwnNameAccepted()
    ensures UpdatedCustomer(Table(map[1 := Customer("budi", None, None, "t0")], 2), 1, CustomerData("Budi", None, None)).Ok?
  {
    var t := Table(map[1 := Customer("budi", None, None, "t0")], 2);
    UpdatedCustomerEffect(t, 1, CustomerData("Budi", None, None));
  }

  /** Deleting a customer keeps the names distinct. */
  lemma DeleteKeepsCaseDistinct(t: Table<Customer>, id: int)
    requires CaseDistinct(t)
    ensures CaseDistinct(t.Delete(id))
  {
  }

  /** `addCustomer(data)`. */
  method AddCustomer(db: Store, d: CustomerData, now: string) returns (o: Outcome)
    requires db.Valid() && CaseDistinct(db.customers)
    modifies db`customers
    ensures db.Valid() && CaseDistinct(db.customers)
    ensures match AddedCustomer(old(db.customers), d, now)
      case Ok(t) => o == Pass && db.customers == t
      case Err(m) => o == Fail(m) && db.customers == old(db.customers)
  {
    AddedCustomerEffect(db.customers, d, now);
    var existing := FindCustomer(db.customers, d.name);
    if existing.Some? {
      return Fail("Nama pelanggan sudah ada.");
    }
    var added := AddCustomerRow(db.customers, Customer(d.name, d.phone, d.address, now));
    match added
    case Ok(t) =>
      db.customers := t;
      o := Pass;
    case Err(_) =>
      assert false;
  }

  /** `updateCustomer(id, data)`. */
  method UpdateCustomer(db: Store, id: int, d: CustomerData) returns (o: Outcome)
    requires db.Valid() && CaseDistinct(db.customers)
    modifies db`customers
    ensures db.Valid() && CaseDistinct(db.customers)
    ensures match UpdatedCustomer(old(db.customers), id, d)
      case Ok(t) => o == Pass && db.customers == t
      case Err(m) => o == Fail(m) && db.customers == old(db.customers)
  {
    UpdatedCustomerEffect(db.customers, id, d);
    var existing := FindCustomer(db.customers, d.name);
    if existing.Some? && existing.value != id {
      return Fail("Nama pelanggan sudah digunakan oleh data lain.");
    }
    var current := db.customers.Get(id);
    if current.None? {
      return Pass;
    }
    var put := PutCustomerRow(db.customers, id, RenamedRow(current.value, d));
    match put
    case Ok(t) =>
      db.customers := t;
      o := Pass;
    case Err(_) =>
      assert false;
  }

  /** `deleteCustomer(id)`: the customer's sales stay where they are. */
  method DeleteCustomer(db: Store, id: int)
    requires db.Valid() && CaseDistinct(db.customers)
    modifies db`customers
    ensures db.Valid() && CaseDistinct(db.customers)
    ensures db.customers == old(db.customers).Delete(id)
  {
    DeleteKeepsCaseDistinct(db.customers, id);
    db.customers := db.customers.Delete(id);
  }

  /** `(a, b) => ...` for `orderBy('name')`: names ascending, by key among equal names. */
  predicate NameBefore(a: (int, Customer), b: (int, Customer)) {
    StrLt(a.1.name, b.1.name) || (a.1.name == b.1.name && a.0 <= b.0)
  }

  lemma NameBeforeTotal()
    ensures TotalPreorder(NameBefore)
  {
    forall a: (int, Customer), b: (int, Customer) ensures NameBefore(a, b) || NameBefore(b, a) {
      StrLtTrichotomy(a.1.name, b.1.name);
    }
    forall a: (int, Customer), b: (int, Customer), c: (int, Customer) | NameBefore(a, b) && NameBefore(b, c)
      ensures NameBefore(a, c)
    {
      if StrLt(a.1.name, b.1.name) && StrLt(b.1.name, c.1.name) {
        StrLtTransitive(a.1.name, b.1.name, c.1.name);
      }
    }
  }

  /** `db.customers.orderBy('name').toArray()`. */
  function CustomersByName(t: Table<Customer>): seq<Customer> {
    Seconds(SortBy(t.Entries(), NameBefore))
  }

  /** The listing holds every customer once, names ascending. */
  lemma CustomersByNameShape(t: Table<Customer>)
    ensures multiset(CustomersByName(t)) == multiset(t.Values())
    ensures forall i, j | 0 <= i < j < |CustomersByName(t)| :: StrLe(CustomersByName(t)[i].name, CustomersByName(t)[j].name)
  {
    var sorted := SortBy(t.Entries(), NameBefore);
    SecondsPermutation(sorted, t.Entries());
    NameBeforeTotal();
    SortBySorted(t.Entries(), NameBefore);
    forall i, j | 0 <= i < j < |sorted| ensures StrLe(sorted[i].1.name, sorted[j].1.name) {
      assert NameBefore(sorted[i], sorted[j]);
    }
  }

  datatype CustomerStats = CustomerStats(totalTransactions: nat, totalDebt: real, totalSpent: real)

  function CustomerIdOf(t: Transaction): int { t.customerId }

  function RemainingDebt(t: Transaction): real { t.remainingDebt }

  function TotalAmount(t: Transaction): real { t.totalAmount }

  /**
    `getCustomerStats(customerId)`. `all` is the transactions table once the
    query has run (`None` while it has not); a missing or zero id queries
    nothing.
  */
  function CustomerStatsOf(customerId: Option<int>, all: Option<seq<Transaction>>): (st: CustomerStats)
    ensures all.None? ==> st == CustomerStats(0, 0.0, 0.0)
    ensures all.Some? && (customerId.None? || customerId.value == 0) ==> st == CustomerStats(0, 0.0, 0.0)
    ensures all.Some? && customerId.Some? && customerId.value != 0 ==>
      var mine := WithKey(all.value, CustomerIdOf, customerId.value);
      && st.totalTransactions == |mine|
      && st.totalDebt == SumOf(mine, RemainingDebt)
      && st.totalSpent == SumOf(mine, TotalAmount)
  {
    if all.None? then CustomerStats(0, 0.0, 0.0)
    else
      var mine := if customerId.None? || customerId.value == 0 then [] else WithKey(all.value, CustomerIdOf, customerId.value);
      CustomerStats(|mine|, SumOf(mine, RemainingDebt), SumOf(mine, TotalAmount))
  }

  /** The customer's figures count exactly that customer's sales: every sale counted is theirs, none of theirs is missed. */
  lemma StatsCountMine(all: seq<Transaction>, id: int)
    ensures forall t | t in WithKey(all, CustomerIdOf, id) :: t in all && t.customerId == id
    ensures forall i | 0 <= i < |all| && all[i].customerId == id :: all[i] in WithKey(all, CustomerIdOf, id)
  {
    var mine := WithKey(all, CustomerIdOf, id);
    forall t | t in mine ensures t in all && t.customerId == id {
      var i :| 0 <= i < |mine| && mine[i] == t;
    }
    WithKeyComplete(all, CustomerIdOf, id);
  }

  /** A sale recorded for the customer adds its amounts to the customer's figures. */
  lemma StatsGrowWithSale(all: seq<Transaction>, id: int, t: Transaction)
    requires id != 0 && t.customerId == id
    ensures var before := CustomerStatsOf(Some(id), Some(all));
      var after := CustomerStatsOf(Some(id), Some(all + [t]));
      && after.totalTransactions == before.totalTransactions + 1
      && after.totalDebt == before.totalDebt + t.remainingDebt
      && after.totalSpent == before.totalSpent + t.totalAmount
  {
    assert (all + [t])[..|all|] == all;
    var mine := WithKey(all, CustomerIdOf, id);
    SumOfAppend(mine, t, RemainingDebt);
    SumOfAppend(mine, t, TotalAmount);
  }

  /** `customers.filter(c => c.name.toLowerCase().includes(term.toLowerCase()))` on the customer page. */
  function SearchCustomers(cs: seq<Customer>, term: string): seq<Customer> {
    Filter(cs, (c: Customer) => Contains(ToLower(c.name), ToLower(term)))
  }

  /** The search keeps exactly the customers whose name contains the term ignoring case; an empty term keeps all of them. */
  lemma SearchCustomersSpec(cs: seq<Customer>, term: string)
    ensures forall c | c in SearchCustomers(cs, term) :: c in cs && Contains(ToLower(c.name), ToLower(term))
    ensures forall i | 0 <= i < |cs| && Contains(ToLower(cs[i].name), ToLower(term)) :: cs[i] in SearchCustomers(cs, term)
    ensures term == "" ==> SearchCustomers(cs, term) == cs
  {
    var p := (c: Customer) => Contains(ToLower(c.name), ToLower(term));
    FilterComplete(cs, p);
    var r := SearchCustomers(cs, term);
    forall c | c in r ensures c in cs && p(c) {
      var i :| 0 <= i < |r| && r[i] == c;
    }
    if term == "" {
      FilterAll(cs, p);
    }
  }

  /** The search keeps the customers in their order: a customer appended to the list is appended to the result when the name matches. */
  lemma SearchCustomersKeepsOrder(cs: seq<Customer>, c: Customer, term: string)
    ensures SearchCustomers(cs + [c], term)
      == SearchCustomers(cs, term) + (if Contains(ToLower(c.name), ToLower(term)) then [c] else [])
  {
    var p := (x: Customer) => Contains(ToLower(x.name), ToLower(term));
    FilterConcat(cs, [c], p);
    assert Filter([c], p) == (if p(c) then [c] else []) by {
      assert [c][..0] == [];
    }
  }
}
