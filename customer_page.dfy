/**
  The customer page (`CustomerPage`): the customer form's schema, starting
  values and submit handler, which adds or renames a customer and shows the
  error it throws, and the debt line of a customer's card.
*/
module CustomerPage {
  import opened Wrappers
  import opened Types
  import opened Folds
  import opened Tables
  import opened Db
  import opened Customers

  /** The customer form as entered; an empty phone or address is kept as the empty string. */
  datatype CustomerForm = CustomerForm(name: string, phone: string, address: string)

  /** `customerSchema`: a name is required, phone and address are optional. */
  predicate SchemaAccepts(f: CustomerForm) {
    |f.name| >= 1
  }

  /** The form's starting values: the customer being edited, with absent fields as "". */
  function FormDefaults(customer: Option<Customer>): (f: CustomerForm)
    ensures customer.None? ==> f == CustomerForm("", "", "")
    ensures customer.Some? ==> f.name == customer.value.name
    ensures customer.Some? ==> f.phone == customer.value.phone.GetOr("") && f.address == customer.value.address.GetOr("")
  {
    if customer.None? then CustomerForm("", "", "")
    else CustomerForm(customer.value.name, customer.value.phone.GetOr(""), customer.value.address.GetOr(""))
  }

  /** A new customer's form cannot be saved until a name is typed; an edited one with a name can be saved at once. */
  lemma DefaultsAgainstSchema(c: Customer)
    ensures !SchemaAccepts(FormDefaults(None))
    ensures SchemaAccepts(FormDefaults(Some(c))) <==> |c.name| >= 1
  {
  }

  /** The values handed to the hook: every field, an empty one as the empty string. */
  function DataOf(f: CustomerForm): (d: CustomerData)
    ensures d.name == f.name && d.phone == Some(f.phone) && d.address == Some(f.address)
  {
    CustomerData(f.name, Some(f.phone), Some(f.address))
  }

  /** The form's error line. */
  class CustomerFormState {
    var error: Option<string>

    constructor ()
      ensures error.None?
    {
      error := None;
    }

    /**
      `handleSubmit(values)`: renames the customer being edited when it has
      a non-zero key, otherwise adds one. Returns whether `onSuccess` was
      called; a thrown error is kept as the message instead.
    */
    method HandleSubmit(db: Store, customer: Option<(int, Customer)>, f: CustomerForm, now: string) returns (succeeded: bool)
      requires db.Valid() && CaseDistinct(db.customers)
      modifies this, db`customers
      ensures db.Valid() && CaseDistinct(db.customers)
      ensures customer.Some? && customer.value.0 != 0 ==>
        match UpdatedCustomer(old(db.customers), customer.value.0, DataOf(f))
        case Ok(t) => succeeded && error.None? && db.customers == t
        case Err(m) => !succeeded && error == Some(m) && db.customers == old(db.customers)
      ensures customer.None? || customer.value.0 == 0 ==>
        match AddedCustomer(old(db.customers), DataOf(f), now)
        case Ok(t) => succeeded && error.None? && db.customers == t
        case Err(m) => !succeeded && error == Some(m) && db.customers == old(db.customers)
    {
      error := None;
      var o: Outcome;
      if customer.Some? && customer.value.0 != 0 {
        o := UpdateCustomer(db, customer.value.0, DataOf(f));
      } else {
        o := AddCustomer(db, DataOf(f), now);
      }
      if o.Fail? {
        error := Some(o.msg);
        return false;
      }
      succeeded := true;
    }
  }

  /** The card shows the remaining-debt line when the customer's outstanding total is positive. */
  predicate ShowsDebt(stats: CustomerStats) {
    stats.totalDebt > 0.0
  }

  /**
    When no sale has a negative remaining debt, a customer's card shows the
    debt line exactly when one of that customer's sales has something left to
    pay.
  */
  lemma DebtLineIffSomeSaleOwes(id: int, all: seq<Transaction>)
    requires id != 0
    requires forall i | 0 <= i < |all| :: all[i].remainingDebt >= 0.0
    ensures ShowsDebt(CustomerStatsOf(Some(id), Some(all))) <==>
      exists i | 0 <= i < |all| :: all[i].customerId == id && all[i].remainingDebt > 0.0
  {
    var mine := WithKey(all, CustomerIdOf, id);
    assert CustomerStatsOf(Some(id), Some(all)).totalDebt == SumOf(mine, RemainingDebt);
    StatsCountMine(all, id);
    assert forall j | 0 <= j < |mine| :: mine[j].remainingDebt >= 0.0;
    SumOfPositive(mine, RemainingDebt);
    assert (exists i | 0 <= i < |all| :: all[i].customerId == id && all[i].remainingDebt > 0.0) ==>
           (exists j | 0 <= j < |mine| :: RemainingDebt(mine[j]) > 0.0) by {
      forall i | 0 <= i < |all| && all[i].customerId == id && all[i].remainingDebt > 0.0
        ensures exists j | 0 <= j < |mine| :: RemainingDebt(mine[j]) > 0.0
      {
        assert all[i] in mine;
        var j :| 0 <= j < |mine| && mine[j] == all[i];
        assert RemainingDebt(mine[j]) > 0.0;
      }
    }
    assert (exists j | 0 <= j < |mine| :: RemainingDebt(mine[j]) > 0.0) ==>
           (exists i | 0 <= i < |all| :: all[i].customerId == id && all[i].remainingDebt > 0.0) by {
      forall j | 0 <= j < |mine| && RemainingDebt(mine[j]) > 0.0
        ensures exists i | 0 <= i < |all| :: all[i].customerId == id && all[i].remainingDebt > 0.0
      {
        assert mine[j] in all;
        var i :| 0 <= i < |all| && all[i] == mine[j];
        assert all[i].customerId == id && all[i].remainingDebt > 0.0;
      }
    }
  }
}
