/**
  The new-sale form (`TransactionForm`): the schema the entered values must
  satisfy, the title-casing of the customer name, and the submit handler,
  which checks the stock and the paid amount before recording the sale.
*/
module TransactionForm {
  import opened Wrappers
  import opened Types
  import opened Text
  import opened Tables
  import opened Db
  import opened Stock
  import opened Customers
  import opened Transactions

  /** One word of the name: first character upper-cased, the rest lower-cased. */
  function TitleWord(w: string): (r: string)
    ensures |r| == |w|
    ensures |w| > 0 ==> r[0] == UpperChar(w[0]) && r[1..] == ToLower(w[1..])
    ensures ' ' !in w ==> ' ' !in r
  {
    if w == [] then ""
    else
      var r := [UpperChar(w[0])] + ToLower(w[1..]);
      assert forall i | 1 <= i < |r| :: r[i] == LowerChar(w[i]);
      r
  }

  function TitleWords(ws: seq<string>): (rs: seq<string>)
    ensures |rs| == |ws|
    ensures forall i | 0 <= i < |ws| :: rs[i] == TitleWord(ws[i])
  {
    seq(|ws|, i requires 0 <= i < |ws| => TitleWord(ws[i]))
  }

  /** `name.split(' ').map(word => ...).join(' ')`. */
  function TitleCase(s: string): string {
    Join(TitleWords(Split(s)))
  }

  lemma TitleWordIdempotent(w: string)
    ensures TitleWord(TitleWord(w)) == TitleWord(w)
  {
    if w != [] {
      var r := TitleWord(w);
      assert TitleWord(r)[1..] == ToLower(ToLower(w[1..]));
      ToLowerIdempotent(w[1..]);
    }
  }

  /** Title-casing a name twice gives what title-casing it once gives. */
  lemma TitleCaseIdempotent(s: string)
    ensures TitleCase(TitleCase(s)) == TitleCase(s)
  {
    var parts := Split(s);
    var ws := TitleWords(parts);
    assert forall w | w in ws :: ' ' !in w by {
      forall w | w in ws ensures ' ' !in w {
        var i :| 0 <= i < |ws| && ws[i] == w;
        assert parts[i] in parts;
      }
    }
    SplitJoin(ws);
    assert Split(TitleCase(s)) == ws;
    forall i | 0 <= i < |ws| ensures TitleWords(ws)[i] == ws[i] {
      TitleWordIdempotent(parts[i]);
    }
    assert TitleWords(ws) == ws;
  }

  /** Every space-separated word starts with no lower-case letter and goes on with no upper-case one. */
  predicate TitleCased(s: string) {
    forall w | w in Split(s) :: |w| > 0 ==> !IsLowerAscii(w[0]) && forall j | 1 <= j < |w| :: !IsUpperAscii(w[j])
  }

  /** A name that is already title-cased is left as it is. */
  lemma TitleCasedUnchanged(s: string)
    requires TitleCased(s)
    ensures TitleCase(s) == s
  {
    var ws := Split(s);
    forall i | 0 <= i < |ws| ensures TitleWords(ws)[i] == ws[i] {
      var w := ws[i];
      assert w in ws;
      if |w| > 0 {
        assert TitleWord(w)[1..] == w[1..] by {
          forall j | 0 <= j < |w| - 1 ensures ToLower(w[1..])[j] == w[1..][j] {
            assert !IsUpperAscii(w[j + 1]);
          }
        }
        assert TitleWord(w) == [TitleWord(w)[0]] + TitleWord(w)[1..];
        assert w == [w[0]] + w[1..];
      }
    }
    assert TitleWords(ws) == ws;
    JoinSplit(s);
  }

  /**
    The values as entered; `date` is absent when none was picked, and
    `paidAmount` when the form holds no value for it at all (`undefined`):
    `z.coerce.number()` turns an emptied field into 0, which is present.
  */
  datatype RawForm = RawForm(
    date: Option<string>,
    customerName: string,
    shrimpType: string,
    quantity: real,
    pricePerKg: real,
    paymentMethod: PaymentMethod,
    paidAmount: Option<real>)

  /** The total the form computes: quantity times price per kilogram. */
  function FormTotal(quantity: real, pricePerKg: real): real {
    quantity * pricePerKg
  }

  /** `transactionSchema`: the object's field checks and both refinements. */
  predicate SchemaAccepts(f: RawForm) {
    && f.date.Some?
    && |f.customerName| >= 1
    && f.quantity > 0.0
    && f.pricePerKg > 0.0
    && (f.paidAmount.Some? ==> f.paidAmount.value >= 0.0)
    && !(f.paymentMethod != PaymentMethod.Tunai && f.paidAmount.None?)
    && !(f.paidAmount.Some? && f.paidAmount.value > FormTotal(f.quantity, f.pricePerKg) && FormTotal(f.quantity, f.pricePerKg) > 0.0)
  }

  /** What the handler receives once the schema accepts: the same values with the name title-cased. */
  datatype FormValues = FormValues(
    date: string,
    customerName: string,
    shrimpType: string,
    quantity: real,
    pricePerKg: real,
    paymentMethod: PaymentMethod,
    paidAmount: Option<real>)

  function Parsed(f: RawForm): (v: FormValues)
    requires SchemaAccepts(f)
    ensures v.customerName == TitleCase(f.customerName)
    ensures v.quantity == f.quantity && v.pricePerKg == f.pricePerKg && v.paidAmount == f.paidAmount
  {
    FormValues(f.date.value, TitleCase(f.customerName), f.shrimpType, f.quantity, f.pricePerKg, f.paymentMethod, f.paidAmount)
  }

  /** The schema rejects a paid amount above the total, and accepts one equal to it. */
  lemma SchemaPaidBound(f: RawForm)
    requires f.date.Some? && |f.customerName| >= 1 && f.quantity > 0.0 && f.pricePerKg > 0.0
    requires f.paidAmount.Some? && f.paidAmount.value >= 0.0
    ensures SchemaAccepts(f) <==> f.paidAmount.value <= FormTotal(f.quantity, f.pricePerKg)
  {
    assert FormTotal(f.quantity, f.pricePerKg) > 0.0 by {
      assert f.quantity * f.pricePerKg > 0.0;
    }
  }

  /** The amount stored as paid: the whole total for cash, otherwise the amount entered or 0. */
  function FinalPaid(v: FormValues): (p: real)
    ensures v.paymentMethod == PaymentMethod.Tunai ==> p == FormTotal(v.quantity, v.pricePerKg)
    ensures v.paymentMethod != PaymentMethod.Tunai ==> p == v.paidAmount.GetOr(0.0)
  {
    if v.paymentMethod == PaymentMethod.Tunai then FormTotal(v.quantity, v.pricePerKg) else v.paidAmount.GetOr(0.0)
  }

  /** The sale handed to `addTransaction`: customer id 0 as a placeholder, the form's total, the final paid amount. */
  function SaleOf(v: FormValues): (d: NewTransaction)
    ensures d.customerId == 0 && d.customerName == v.customerName && d.date == v.date
    ensures d.totalAmount == FormTotal(v.quantity, v.pricePerKg) && d.paidAmount == FinalPaid(v)
  {
    NewTransaction(0, v.customerName, v.date, v.shrimpType, v.quantity, v.pricePerKg,
      FormTotal(v.quantity, v.pricePerKg), v.paymentMethod, FinalPaid(v))
  }

  datatype SubmitResult =
    | InsufficientStock(available: real)
    | Invalid(message: string)
    | Saved

  const PaidMissing: string := "Jumlah bayar harus diisi untuk metode utang atau cicil"
  const PaidTooLarge: string := "Jumlah bayar tidak boleh lebih dari total harga"

  /** The handler's checks, in order; `Saved` when they all pass. */
  function SubmitOutcome(v: FormValues, currentStock: real): SubmitResult {
    if v.quantity > currentStock then InsufficientStock(currentStock)
    else if v.paymentMethod != PaymentMethod.Tunai && (v.paidAmount.None? || v.paidAmount.value < 0.0) then Invalid(PaidMissing)
    else if v.paymentMethod != PaymentMethod.Tunai && v.paidAmount.Some? && v.paidAmount.value > FormTotal(v.quantity, v.pricePerKg) then Invalid(PaidTooLarge)
    else Saved
  }

  /**
    `handleSubmit(values)`. `stock` is what `useStock` reports at that
    moment (all zeros while its lists load). Storage errors are not
    modelled, so the `catch` branch does not arise.
  */
  method HandleSubmit(db: Store, v: FormValues, stock: StockData, now: string) returns (r: SubmitResult)
    requires db.Valid() && CaseDistinct(db.customers)
    modifies db`customers, db`transactions
    ensures db.Valid() && CaseDistinct(db.customers)
    ensures r == SubmitOutcome(v, stock.currentStock)
    ensures r.Saved? ==> (db.customers, db.transactions) == AfterAddTransaction(old(db.customers), old(db.transactions), SaleOf(v), now)
    ensures !r.Saved? ==> db.customers == old(db.customers) && db.transactions == old(db.transactions)
  {
    if v.quantity > stock.currentStock {
      return InsufficientStock(stock.currentStock);
    }
    if v.paymentMethod != PaymentMethod.Tunai && (v.paidAmount.None? || v.paidAmount.value < 0.0) {
      return Invalid(PaidMissing);
    }
    var totalAmount := v.quantity * v.pricePerKg;
    if v.paymentMethod != PaymentMethod.Tunai && v.paidAmount.Some? && v.paidAmount.value > totalAmount {
      return Invalid(PaidTooLarge);
    }
    var finalPaid := if v.paymentMethod == PaymentMethod.Tunai then totalAmount else v.paidAmount.GetOr(0.0);
    var d := NewTransaction(0, v.customerName, v.date, v.shrimpType, v.quantity, v.pricePerKg,
      totalAmount, v.paymentMethod, finalPaid);
    assert d == SaleOf(v);
    AddTransaction(db, d, now);
    r := Saved;
  }

  /** Selling exactly the stock on hand passes the stock check; selling more does not. */
  lemma StockCheckBoundary(v: FormValues, currentStock: real)
    ensures v.quantity == currentStock ==> !SubmitOutcome(v, currentStock).InsufficientStock?
    ensures v.quantity > currentStock ==> SubmitOutcome(v, currentStock) == InsufficientStock(currentStock)
  {
  }

  /** While the stock lists are loading the stock reads 0, so every sale is turned away. */
  lemma UnloadedStockRejects(v: FormValues, entries: Option<seq<StockEntry>>, txs: Option<seq<Transaction>>)
    requires entries.None? || txs.None?
    requires v.quantity > 0.0
    ensures SubmitOutcome(v, StockDataOf(entries, txs).currentStock) == InsufficientStock(0.0)
  {
  }

  /** Once the schema has accepted the values, the handler's own paid-amount checks never fire. */
  lemma SchemaMakesPaidChecksRedundant(f: RawForm, currentStock: real)
    requires SchemaAccepts(f)
    ensures SubmitOutcome(Parsed(f), currentStock) in {InsufficientStock(currentStock), Saved}
  {
    assert FormTotal(f.quantity, f.pricePerKg) > 0.0 by {
      assert f.quantity * f.pricePerKg > 0.0;
    }
  }

  /** A cash sale is recorded as settled, with nothing remaining. */
  lemma CashSaleIsSettled(v: FormValues, cid: int, now: string)
    requires v.paymentMethod == PaymentMethod.Tunai
    ensures TransactionOf(SaleOf(v), cid, now).status == TxStatus.Lunas
    ensures TransactionOf(SaleOf(v), cid, now).remainingDebt == 0.0
  {
  }

  /**
    A saved sale on credit owes between nothing and its total: unpaid when
    nothing was paid, part paid when something less than the total was,
    settled when all of it was.
  */
  lemma CreditSaleStatus(v: FormValues, currentStock: real, cid: int, now: string)
    requires SubmitOutcome(v, currentStock) == Saved && v.paymentMethod != PaymentMethod.Tunai
    ensures var t := TransactionOf(SaleOf(v), cid, now);
      && 0.0 <= t.remainingDebt <= t.totalAmount
      && (t.paidAmount == 0.0 ==> t.status == TxStatus.Utang || t.totalAmount <= 0.0)
      && (0.0 < t.paidAmount < t.totalAmount ==> t.status == TxStatus.Cicil)
      && (t.paidAmount == t.totalAmount ==> t.status == TxStatus.Lunas)
  {
  }
}
