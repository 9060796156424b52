/**
  Operational costs (`useOperationalCosts`): added with both timestamps set,
  patched with a fresh `updatedAt`, deleted by key, listed latest date first.
*/
module Costs {
  import opened Wrappers
  import opened Types
  import opened Folds
  import opened Sorting
  import opened Tables
  import opened Text
  import opened Db

  /** `AddCostData`: a cost without id and timestamps. */
  datatype NewCost = NewCost(date: string, description: string, amount: real, category: string)

  function CostOf(d: NewCost, now: string): (c: OperationalCost)
    ensures c.date == d.date && c.description == d.description
    ensures c.amount == d.amount && c.category == d.category
    ensures c.createdAt == now && c.updatedAt == now
  {
    OperationalCost(d.date, d.description, d.amount, d.category, now, now)
  }

  /** `Partial<AddCostData>`: the fields given to `updateCost`. */
  datatype CostPatch = CostPatch(date: Option<string>, description: Option<string>, amount: Option<real>, category: Option<string>)

  /** The row after `update(id, {...data, updatedAt: now})`: given fields replaced, `createdAt` kept. */
  function PatchedCost(c: OperationalCost, p: CostPatch, now: string): (r: OperationalCost)
    ensures r.date == p.date.GetOr(c.date) && r.description == p.description.GetOr(c.description)
    ensures r.amount == p.amount.GetOr(c.amount) && r.category == p.category.GetOr(c.category)
    ensures r.createdAt == c.createdAt && r.updatedAt == now
  {
    c.(date := p.date.GetOr(c.date), description := p.description.GetOr(c.description),
       amount := p.amount.GetOr(c.amount), category := p.category.GetOr(c.category), updatedAt := now)
  }

  /** `addCost(data)`. */
  method AddCost(db: Store, d: NewCost, now: string)
    requires db.Valid()
    modifies db`operationalCosts
    ensures db.Valid()
    ensures db.operationalCosts == old(db.operationalCosts).Add(CostOf(d, now))
  {
    var row := CostOf(d, now);
    AddAppends(db.operationalCosts, row);
    db.operationalCosts := db.operationalCosts.Add(row);
  }

  /** `updateCost(id, data)`: an absent id changes nothing. */
  method UpdateCost(db: Store, id: int, p: CostPatch, now: string)
    requires db.Valid()
    modifies db`operationalCosts
    ensures db.Valid()
    ensures id in old(db.operationalCosts.rows) ==>
      db.operationalCosts == old(db.operationalCosts).Replace(id, PatchedCost(old(db.operationalCosts.rows[id]), p, now))
    ensures id !in old(db.operationalCosts.rows) ==> db.operationalCosts == old(db.operationalCosts)
  {
    var found := db.operationalCosts.Get(id);
    if found.Some? {
      db.operationalCosts := db.operationalCosts.Replace(id, PatchedCost(found.value, p, now));
    }
  }

  /** `deleteCost(id)`. */
  method DeleteCost(db: Store, id: int)
    requires db.Valid()
    modifies db`operationalCosts
    ensures db.Valid()
    ensures db.operationalCosts == old(db.operationalCosts).Delete(id)
  {
    db.operationalCosts := db.operationalCosts.Delete(id);
  }

  function Amount(c: OperationalCost): real { c.amount }

  /** The sum of every stored cost's amount. */
  function TotalCosts(t: Table<OperationalCost>): real {
    SumOf(t.Values(), Amount)
  }

  /** Adding a cost raises the total by its amount. */
  lemma AddRaisesTotal(t: Table<OperationalCost>, d: NewCost, now: string)
    requires t.Valid()
    ensures TotalCosts(t.Add(CostOf(d, now))) == TotalCosts(t) + d.amount
  {
    AddAppends(t, CostOf(d, now));
    SumOfAppend(t.Values(), CostOf(d, now), Amount);
  }

  /** Deleting a stored cost lowers the total by its amount; changing its amount shifts the total by the difference. */
  lemma DeleteAndUpdateShiftTotal(t: Table<OperationalCost>, id: int, p: CostPatch, now: string)
    requires t.Valid() && id in t.rows
    ensures TotalCosts(t.Delete(id)) == TotalCosts(t) - t.rows[id].amount
    ensures TotalCosts(t.Replace(id, PatchedCost(t.rows[id], p, now))) ==
      TotalCosts(t) - t.rows[id].amount + p.amount.GetOr(t.rows[id].amount)
  {
    DeleteRemoves(t, id, Amount);
    ReplaceChanges(t, id, PatchedCost(t.rows[id], p, now), Amount);
  }

  predicate CostBefore(a: (int, OperationalCost), b: (int, OperationalCost)) {
    DateIdDesc(a.1.date, a.0, b.1.date, b.0)
  }

  lemma CostBeforeTotal()
    ensures TotalPreorder(CostBefore)
  {
    forall a: (int, OperationalCost), b: (int, OperationalCost) ensures CostBefore(a, b) || CostBefore(b, a) {
      DateIdDescOrder(a.1.date, a.0, b.1.date, b.0, b.1.date, b.0);
    }
    forall a: (int, OperationalCost), b: (int, OperationalCost), c: (int, OperationalCost) | CostBefore(a, b) && CostBefore(b, c)
      ensures CostBefore(a, c)
    {
      DateIdDescOrder(a.1.date, a.0, b.1.date, b.0, c.1.date, c.0);
    }
  }

  /** `operationalCosts.orderBy('date').reverse().toArray()`. */
  function CostsByDateDesc(t: Table<OperationalCost>): seq<OperationalCost> {
    Seconds(SortBy(t.Entries(), CostBefore))
  }

  /** The listing holds every stored cost once, latest date first, and sums to the same total. */
  lemma CostsByDateDescShape(t: Table<OperationalCost>)
    ensures multiset(CostsByDateDesc(t)) == multiset(t.Values())
    ensures forall i, j | 0 <= i < j < |CostsByDateDesc(t)| ::
      StrLe(CostsByDateDesc(t)[j].date, CostsByDateDesc(t)[i].date)
    ensures SumOf(CostsByDateDesc(t), Amount) == TotalCosts(t)
  {
    var sorted := SortBy(t.Entries(), CostBefore);
    SecondsPermutation(sorted, t.Entries());
    CostBeforeTotal();
    SortBySorted(t.Entries(), CostBefore);
    forall i, j | 0 <= i < j < |sorted| ensures StrLe(sorted[j].1.date, sorted[i].1.date) {
      assert CostBefore(sorted[i], sorted[j]);
    }
    SumOfPermutation(CostsByDateDesc(t), t.Values(), Amount);
  }
}
