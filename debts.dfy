/**
  Debts and their payments (`useDebts`): a payment lowers the remaining
  amount, clamped at zero, and moves the debt between pending, partial and
  paid.
*/
module Debts {
  import opened Wrappers
  import opened Types
  import opened Folds
  import opened Tables
  import opened Db

  /** What `addDebt` is given: a debt without id and timestamps. */
  datatype NewDebt = NewDebt(
    customerId: int,
    customerName: string,
    transactionId: int,
    originalAmount: real,
    remainingAmount: real,
    dueDate: string,
    status: DebtStatus)

  function DebtOf(d: NewDebt, now: string): Debt {
    Debt(d.customerId, d.customerName, d.transactionId, d.originalAmount, d.remainingAmount, d.dueDate, d.status, now, now)
  }

  /** The fields `updateDebt` may be given; `updatedAt` is always overwritten. */
  datatype DebtPatch = DebtPatch(
    customerId: Option<int>,
    customerName: Option<string>,
    transactionId: Option<int>,
    originalAmount: Option<real>,
    remainingAmount: Option<real>,
    dueDate: Option<string>,
    status: Option<DebtStatus>,
    createdAt: Option<string>)

  function PatchedDebt(d: Debt, p: DebtPatch, now: string): (r: Debt)
    ensures r.customerId == (if p.customerId.Some? then p.customerId.value else d.customerId)
    ensures r.customerName == (if p.customerName.Some? then p.customerName.value else d.customerName)
    ensures r.transactionId == (if p.transactionId.Some? then p.transactionId.value else d.transactionId)
    ensures r.originalAmount == (if p.originalAmount.Some? then p.originalAmount.value else d.originalAmount)
    ensures r.remainingAmount == (if p.remainingAmount.Some? then p.remainingAmount.value else d.remainingAmount)
    ensures r.dueDate == (if p.dueDate.Some? then p.dueDate.value else d.dueDate)
    ensures r.status == (if p.status.Some? then p.status.value else d.status)
    ensures r.createdAt == (if p.createdAt.Some? then p.createdAt.value else d.createdAt)
    ensures r.updatedAt == now
    ensures p == DebtPatch(None, None, None, None, None, None, None, None) ==> r == d.(updatedAt := now)
  {
    Debt(
      p.customerId.GetOr(d.customerId), p.customerName.GetOr(d.customerName),
      p.transactionId.GetOr(d.transactionId), p.originalAmount.GetOr(d.originalAmount),
      p.remainingAmount.GetOr(d.remainingAmount), p.dueDate.GetOr(d.dueDate),
      p.status.GetOr(d.status), p.createdAt.GetOr(d.createdAt), now)
  }

  /** `addDebt(debt)`: returns the new debt's key. */
  method AddDebt(db: Store, d: NewDebt, now: string) returns (id: int)
    requires db.Valid()
    modifies db`debts
    ensures db.Valid()
    ensures id == old(db.debts.next) && id !in old(db.debts.rows)
    ensures db.debts == old(db.debts).Add(DebtOf(d, now))
  {
    AddAppends(db.debts, DebtOf(d, now));
    id := db.debts.next;
    db.debts := db.debts.Add(DebtOf(d, now));
  }

  /** `updateDebt(id, updates)`: returns how many rows were updated, 0 when the id is absent. */
  method UpdateDebt(db: Store, id: int, p: DebtPatch, now: string) returns (count: int)
    requires db.Valid()
    modifies db`debts
    ensures db.Valid()
    ensures id in old(db.debts.rows) ==>
      count == 1 && db.debts == old(db.debts).Replace(id, PatchedDebt(old(db.debts.rows[id]), p, now))
    ensures id !in old(db.debts.rows) ==> count == 0 && db.debts == old(db.debts)
  {
    var current := db.debts.Get(id);
    if current.None? {
      return 0;
    }
    db.debts := db.debts.Replace(id, PatchedDebt(current.value, p, now));
    count := 1;
  }

  /**
    The status after paying `amount` off `d`: paid once nothing remains,
    pending when the remainder is back at the original amount, otherwise
    partial.
  */
  function StatusAfter(d: Debt, amount: real): (s: DebtStatus)
    ensures s == Paid <==> d.remainingAmount - amount <= 0.0
    ensures s == Pending <==> d.remainingAmount - amount > 0.0 && d.remainingAmount - amount == d.originalAmount
    ensures s == Partial <==> d.remainingAmount - amount > 0.0 && d.remainingAmount - amount != d.originalAmount
  {
    var newRemaining := d.remainingAmount - amount;
    if newRemaining <= 0.0 then Paid
    else if newRemaining == d.originalAmount then Pending
    else Partial
  }

  function Max(a: real, b: real): (m: real)
    ensures m >= a && m >= b && (m == a || m == b)
  {
    if a >= b then a else b
  }

  /** The debt after a payment of `amount`: remaining clamped at 0, new status, stamped `now`. */
  function AppliedPayment(d: Debt, amount: real, now: string): (r: Debt)
    ensures r.remainingAmount >= 0.0
    ensures r.remainingAmount == Max(0.0, d.remainingAmount - amount)
    ensures r.status == StatusAfter(d, amount)
    ensures r.updatedAt == now
    ensures r.(remainingAmount := d.remainingAmount, status := d.status, updatedAt := d.updatedAt) == d
  {
    PatchedDebt(d, DebtPatch(None, None, None, None, Some(Max(0.0, d.remainingAmount - amount)), None, Some(StatusAfter(d, amount)), None), now)
  }

  /** The remaining amount reaches 0 exactly when the debt becomes paid. */
  lemma PaidIffNothingRemains(d: Debt, amount: real, now: string)
    ensures AppliedPayment(d, amount, now).status == Paid <==> AppliedPayment(d, amount, now).remainingAmount == 0.0
  {
  }

  /** Paying 150000 off a fresh debt of 150000 leaves 0 and marks it paid. */
  lemma FullPaymentExample(d: Debt, now: string)
    requires d.originalAmount == 150000.0 && d.remainingAmount == 150000.0
    ensures AppliedPayment(d, 150000.0, now).remainingAmount == 0.0
    ensures AppliedPayment(d, 150000.0, now).status == Paid
  {
  }

  /** The debt after a run of payments, in order. */
  function AppliedPayments(d: Debt, amounts: seq<real>, now: string): Debt
    decreases |amounts|
  {
    if amounts == [] then d else AppliedPayments(AppliedPayment(d, amounts[0], now), amounts[1..], now)
  }

  function SumReals(xs: seq<real>): real
    decreases |xs|
  {
    if xs == [] then 0.0 else xs[0] + SumReals(xs[1..])
  }

  /**
    After a run of non-negative payments the remaining amount is the starting
    amount less their total, clamped at 0, and the original amount is unchanged.
  */
  lemma {:induction false} AppliedPaymentsRemaining(d: Debt, amounts: seq<real>, now: string)
    requires amounts != [] && forall i | 0 <= i < |amounts| :: amounts[i] >= 0.0
    decreases |amounts|
    ensures AppliedPayments(d, amounts, now).remainingAmount == Max(0.0, d.remainingAmount - SumReals(amounts))
    ensures AppliedPayments(d, amounts, now).originalAmount == d.originalAmount
  {
    var d1 := AppliedPayment(d, amounts[0], now);
    if |amounts| > 1 {
      AppliedPaymentsRemaining(d1, amounts[1..], now);
      SumRealsNonNegative(amounts[1..]);
    } else {
      assert amounts[1..] == [];
    }
  }

  lemma {:induction false} SumRealsNonNegative(xs: seq<real>)
    requires forall i | 0 <= i < |xs| :: xs[i] >= 0.0
    decreases |xs|
    ensures SumReals(xs) >= 0.0
  {
    if xs != [] {
      SumRealsNonNegative(xs[1..]);
    }
  }

  /** What `addDebtPayment` is given. */
  datatype NewPayment = NewPayment(debtId: int, amount: real, paymentDate: string, notes: Option<string>)

  function PaymentOf(p: NewPayment, now: string): DebtPayment {
    DebtPayment(p.debtId, p.amount, p.paymentDate, p.notes, now)
  }

  /**
    `addDebtPayment(payment)`: an absent debt throws "Utang tidak ditemukan"
    and changes nothing; otherwise one payment row is added and the debt is
    updated.
  */
  method AddDebtPayment(db: Store, p: NewPayment, now: string) returns (o: Outcome)
    requires db.Valid()
    modifies db`debts, db`debtPayments
    ensures db.Valid()
    ensures p.debtId !in old(db.debts.rows) ==>
      o == Fail("Utang tidak ditemukan") && db.debts == old(db.debts) && db.debtPayments == old(db.debtPayments)
    ensures p.debtId in old(db.debts.rows) ==>
      && o == Pass
      && db.debtPayments == old(db.debtPayments).Add(PaymentOf(p, now))
      && db.debts == old(db.debts).Replace(p.debtId, AppliedPayment(old(db.debts.rows[p.debtId]), p.amount, now))
  {
    var debt := db.debts.Get(p.debtId);
    if debt.None? {
      return Fail("Utang tidak ditemukan");
    }
    var d := debt.value;
    var newRemaining := d.remainingAmount - p.amount;
    var newStatus := Partial;
    if newRemaining <= 0.0 {
      newStatus := Paid;
    } else if newRemaining == d.originalAmount {
      newStatus := Pending;
    }
    var patch := DebtPatch(None, None, None, None, Some(Max(0.0, newRemaining)), None, Some(newStatus), None);
    assert newStatus == StatusAfter(d, p.amount);
    assert PatchedDebt(d, patch, now) == AppliedPayment(d, p.amount, now);
    AddAppends(db.debtPayments, PaymentOf(p, now));
    db.debtPayments := db.debtPayments.Add(PaymentOf(p, now));
    var updated := UpdateDebt(db, p.debtId, patch, now);
    o := Pass;
  }

  /** A payment changes only the paid debt; every other debt is untouched and the paid one keeps its original amount. */
  lemma PaymentTouchesOnlyItsDebt(t: Table<Debt>, id: int, amount: real, now: string)
    requires t.Valid() && id in t.rows
    ensures var t' := t.Replace(id, AppliedPayment(t.rows[id], amount, now));
      && t'.rows.Keys == t.rows.Keys
      && (forall k | k in t.rows && k != id :: t'.rows[k] == t.rows[k])
      && t'.rows[id].originalAmount == t.rows[id].originalAmount
      && t'.rows[id].remainingAmount >= 0.0
  {
  }

  function DebtIdOf(p: DebtPayment): int { p.debtId }

  function CustomerIdOfDebt(d: Debt): int { d.customerId }

  /** `debtPayments.where('debtId').equals(debtId).toArray()`. */
  function PaymentsFor(t: Table<DebtPayment>, debtId: int): seq<DebtPayment> {
    WithKey(t.Values(), DebtIdOf, debtId)
  }

  /** `debts.where('customerId').equals(customerId).toArray()`. */
  function DebtsFor(t: Table<Debt>, customerId: int): seq<Debt> {
    WithKey(t.Values(), CustomerIdOfDebt, customerId)
  }

  /** The payment query returns exactly the stored payments of that debt. */
  lemma PaymentsForSpec(t: Table<DebtPayment>, debtId: int)
    requires t.Valid()
    ensures forall p | p in PaymentsFor(t, debtId) :: p.debtId == debtId && p in t.Values()
    ensures forall k | k in t.rows && t.rows[k].debtId == debtId :: t.rows[k] in PaymentsFor(t, debtId)
  {
    ValuesHoldRows(t);
    WithKeyComplete(t.Values(), DebtIdOf, debtId);
    var r := PaymentsFor(t, debtId);
    forall p | p in r ensures p.debtId == debtId && p in t.Values() {
      var i :| 0 <= i < |r| && r[i] == p;
    }
  }

  /** The customer query returns exactly the stored debts of that customer. */
  lemma DebtsForSpec(t: Table<Debt>, customerId: int)
    requires t.Valid()
    ensures forall d | d in DebtsFor(t, customerId) :: d.customerId == customerId && d in t.Values()
    ensures forall k | k in t.rows && t.rows[k].customerId == customerId :: t.rows[k] in DebtsFor(t, customerId)
  {
    ValuesHoldRows(t);
    WithKeyComplete(t.Values(), CustomerIdOfDebt, customerId);
    var r := DebtsFor(t, customerId);
    forall d | d in r ensures d.customerId == customerId && d in t.Values() {
      var i :| 0 <= i < |r| && r[i] == d;
    }
  }

  datatype DebtExport = DebtExport(debts: seq<Debt>, payments: seq<DebtPayment>, exportDate: string)

  /** `exportDebts()`: every debt and every payment as stored, and the export time; nothing changes. */
  method ExportDebts(db: Store, now: string) returns (e: DebtExport)
    ensures e.debts == db.debts.Values() && e.payments == db.debtPayments.Values() && e.exportDate == now
  {
    var allDebts := db.debts.Values();
    var allPayments := db.debtPayments.Values();
    e := DebtExport(allDebts, allPayments, now);
  }
}
