/**
  The debt page (`DebtPage`): the outstanding total and the count of unpaid
  debts, the colour and text shown for each status, which debts offer the
  pay action, and the payment handler with its three pieces of form state.
*/
module DebtPage {
  import opened Wrappers
  import opened Types
  import opened Folds
  import opened Tables
  import opened Db
  import opened Debts

  function RemainingAmount(d: Debt): real { d.remainingAmount }

  /** `debts.reduce((sum, debt) => sum + debt.remainingAmount, 0)`. */
  function TotalDebt(debts: seq<Debt>): real {
    SumOf(debts, RemainingAmount)
  }

  function Unpaid(debts: seq<Debt>): seq<Debt> {
    Filter(debts, (d: Debt) => d.status != Paid)
  }

  /** `debts.filter(d => d.status !== 'paid').length`. */
  function PendingDebts(debts: seq<Debt>): (n: nat)
    ensures n <= |debts|
    ensures (forall i | 0 <= i < |debts| :: debts[i].status == Paid) ==> n == 0
    ensures (forall i | 0 <= i < |debts| :: debts[i].status != Paid) ==> n == |debts|
  {
    UnpaidExtremes(debts);
    |Unpaid(debts)|
  }

  /** No debt is unpaid when all are paid, and every debt is when none is. */
  lemma UnpaidExtremes(debts: seq<Debt>)
    ensures (forall i | 0 <= i < |debts| :: debts[i].status == Paid) ==> Unpaid(debts) == []
    ensures (forall i | 0 <= i < |debts| :: debts[i].status != Paid) ==> Unpaid(debts) == debts
  {
    var p := (d: Debt) => d.status != Paid;
    if forall i | 0 <= i < |debts| :: debts[i].status != Paid {
      FilterAll(debts, p);
    }
    var r := Unpaid(debts);
    if |r| > 0 {
      assert r[0].status != Paid && exists i | 0 <= i < |debts| :: debts[i] == r[0];
    }
  }

  /**
    The count, one debt at a time: an empty list has none pending, and a debt
    added to the list adds one exactly when it is not paid.
  */
  lemma PendingDebtsCount(debts: seq<Debt>, d: Debt)
    ensures PendingDebts([]) == 0
    ensures PendingDebts(debts + [d]) == PendingDebts(debts) + (if d.status != Paid then 1 else 0)
  {
    assert (debts + [d])[..|debts|] == debts;
  }

  /** The pay action is offered for every debt not yet paid. */
  predicate Payable(d: Debt) {
    d.status != Paid
  }

  /** `getStatusColor`. */
  function StatusColor(status: string): string {
    match status
    case "paid" => "bg-green-500"
    case "partial" => "bg-yellow-500"
    case "pending" => "bg-red-500"
    case _ => "bg-gray-500"
  }

  /** `getStatusText`. */
  function StatusText(status: string): string {
    match status
    case "paid" => "Lunas"
    case "partial" => "Sebagian"
    case "pending" => "Menunggu"
    case _ => "Tidak Diketahui"
  }

  predicate KnownStatus(status: string) {
    status == "paid" || status == "partial" || status == "pending"
  }

  /**
    The three stored statuses get three different colours and three
    different texts, none of them the fallback; every other string gets the
    fallback.
  */
  lemma StatusMapsDistinct(a: string, b: string)
    ensures KnownStatus(a) && KnownStatus(b) && a != b ==>
      StatusColor(a) != StatusColor(b) && StatusText(a) != StatusText(b)
    ensures KnownStatus(a) <==> StatusColor(a) != "bg-gray-500"
    ensures KnownStatus(a) <==> StatusText(a) != "Tidak Diketahui"
  {
  }

  /** Every status a debt can hold is one the maps know. */
  lemma StoredStatusesKnown(s: DebtStatus)
    ensures KnownStatus(DebtStatusName(s))
    ensures StatusText(DebtStatusName(s)) == (match s case Paid => "Lunas" case Partial => "Sebagian" case Pending => "Menunggu")
  {
  }

  /** When every remaining amount is non-negative, so is the total. */
  lemma TotalDebtNonNegative(debts: seq<Debt>)
    requires forall i | 0 <= i < |debts| :: debts[i].remainingAmount >= 0.0
    ensures TotalDebt(debts) >= 0.0
  {
    SumOfNonNegative(debts, RemainingAmount);
  }

  /**
    A recorded payment lowers the total by the amount paid, or by the whole
    remaining amount when the payment exceeds it.
  */
  lemma PaymentLowersTotal(t: Table<Debt>, id: int, amount: real, now: string)
    requires t.Valid() && id in t.rows && t.rows[id].remainingAmount >= 0.0 && amount >= 0.0
    ensures var paid := if amount <= t.rows[id].remainingAmount then amount else t.rows[id].remainingAmount;
      TotalDebt(t.Replace(id, AppliedPayment(t.rows[id], amount, now)).Values()) == TotalDebt(t.Values()) - paid
  {
    ReplaceChanges(t, id, AppliedPayment(t.rows[id], amount, now), RemainingAmount);
  }

  /** After a payment the debt still offers the pay action exactly when something remains. */
  lemma PayableAfterPayment(d: Debt, amount: real, now: string)
    ensures Payable(AppliedPayment(d, amount, now)) <==> AppliedPayment(d, amount, now).remainingAmount > 0.0
  {
  }

  /** The text the failure toast puts before the error's message. */
  const PaymentErrorPrefix: string := "Gagal mencatat pembayaran: "

  datatype Toast =
    | PaymentRecorded(amount: real)
    | PaymentFailed(description: string)

  /**
    The page's form state: the debt whose dialog was opened (its key), and
    the amount and notes typed into it.
  */
  class PaymentForm {
    var selectedDebt: Option<int>
    var paymentAmount: string
    var paymentNotes: string

    constructor ()
      ensures selectedDebt.None? && paymentAmount == "" && paymentNotes == ""
    {
      selectedDebt := None;
      paymentAmount := "";
      paymentNotes := "";
    }

    /** The Bayar button: opens the dialog for a debt. */
    method Select(id: int)
      modifies this
      ensures selectedDebt == Some(id)
      ensures paymentAmount == old(paymentAmount) && paymentNotes == old(paymentNotes)
    {
      selectedDebt := Some(id);
    }

    /**
      `handlePayment()`. `parsed` is `parseFloat(paymentAmount)` and `now`
      the payment time. Nothing happens (no toast) without a selected debt
      or with an empty amount field; a success clears the three fields, a
      failure keeps them.
    */
    method HandlePayment(db: Store, parsed: real, now: string) returns (toast: Option<Toast>)
      requires db.Valid()
      modifies this, db`debts, db`debtPayments
      ensures db.Valid()
      ensures old(selectedDebt).None? || old(paymentAmount) == "" ==>
        && toast.None?
        && selectedDebt == old(selectedDebt) && paymentAmount == old(paymentAmount) && paymentNotes == old(paymentNotes)
        && db.debts == old(db.debts) && db.debtPayments == old(db.debtPayments)
      ensures old(selectedDebt).Some? && old(paymentAmount) != "" && old(selectedDebt).value !in old(db.debts.rows) ==>
        && toast == Some(PaymentFailed(PaymentErrorPrefix + "Utang tidak ditemukan"))
        && selectedDebt == old(selectedDebt) && paymentAmount == old(paymentAmount) && paymentNotes == old(paymentNotes)
        && db.debts == old(db.debts) && db.debtPayments == old(db.debtPayments)
      ensures old(selectedDebt).Some? && old(paymentAmount) != "" && old(selectedDebt).value in old(db.debts.rows) ==>
        var id := old(selectedDebt).value;
        && toast == Some(PaymentRecorded(parsed))
        && selectedDebt.None? && paymentAmount == "" && paymentNotes == ""
        && db.debtPayments == old(db.debtPayments).Add(PaymentOf(NewPayment(id, parsed, now, Some(old(paymentNotes))), now))
        && db.debts == old(db.debts).Replace(id, AppliedPayment(old(db.debts.rows[id]), parsed, now))
    {
      if selectedDebt.None? || paymentAmount == "" {
        return None;
      }
      var id := selectedDebt.value;
      var p := NewPayment(id, parsed, now, Some(paymentNotes));
      ghost var found := id in db.debts.rows;
      var o := AddDebtPayment(db, p, now);
      if o.Fail? {
        assert !found;
        return Some(PaymentFailed(PaymentErrorPrefix + o.msg));
      }
      assert found;
      assert db.debtPayments == old(db.debtPayments).Add(PaymentOf(p, now));
      assert db.debts == old(db.debts).Replace(id, AppliedPayment(old(db.debts.rows[id]), parsed, now));
      toast := Some(PaymentRecorded(parsed));
      paymentAmount := "";
      paymentNotes := "";
      selectedDebt := None;
    }
  }
}
