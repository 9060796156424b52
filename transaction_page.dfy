/**
  The sales list (`TransactionPage`): the search by customer name, the badge
  class and label of each status, the remaining-debt line, and the delete
  action of one sale's card.
*/
module TransactionPage {
  import opened Types
  import opened Text
  import opened Folds
  import opened Db
  import opened Transactions

  predicate NameMatches(t: Transaction, term: string) {
    Contains(ToLower(t.customerName), ToLower(term))
  }

  /** `transactions.filter(t => t.customerName.toLowerCase().includes(searchTerm.toLowerCase()))`. */
  function SearchTransactions(ts: seq<Transaction>, term: string): seq<Transaction> {
    Filter(ts, (t: Transaction) => NameMatches(t, term))
  }

  /**
    The search keeps exactly the sales whose customer name contains the term
    ignoring case, keeps them in order, and keeps all of them for an empty
    term.
  */
  lemma SearchTransactionsSpec(ts: seq<Transaction>, term: string)
    ensures forall t | t in SearchTransactions(ts, term) :: t in ts && NameMatches(t, term)
    ensures forall i | 0 <= i < |ts| && NameMatches(ts[i], term) :: ts[i] in SearchTransactions(ts, term)
    ensures term == "" ==> SearchTransactions(ts, term) == ts
  {
    var p := (t: Transaction) => NameMatches(t, term);
    FilterComplete(ts, p);
    var r := SearchTransactions(ts, term);
    forall t | t in r ensures t in ts && p(t) {
      var i :| 0 <= i < |r| && r[i] == t;
    }
    if term == "" {
      FilterAll(ts, p);
    }
  }

  /** Searching the list with a sale appended gives the earlier result, followed by that sale when it matches. */
  lemma SearchKeepsOrder(ts: seq<Transaction>, t: Transaction, term: string)
    ensures SearchTransactions(ts + [t], term) == SearchTransactions(ts, term) + (if NameMatches(t, term) then [t] else [])
  {
    var p := (x: Transaction) => NameMatches(x, term);
    FilterConcat(ts, [t], p);
    assert Filter([t], p) == (if p(t) then [t] else []) by {
      assert [t][..0] == [];
    }
  }

  const LunasClass: string := "bg-green-100 text-green-700 dark:bg-green-900 dark:text-green-300"
  const UtangClass: string := "bg-orange-100 text-orange-700 dark:bg-orange-900 dark:text-orange-300"
  const CicilClass: string := "bg-blue-100 text-blue-700 dark:bg-blue-900 dark:text-blue-300"
  const DefaultClass: string := "bg-slate-100 text-slate-700 dark:bg-slate-700 dark:text-slate-300"

  /** `getStatusClass`. */
  function StatusClass(status: string): string {
    match status
    case "lunas" => LunasClass
    case "utang" => UtangClass
    case "cicil" => CicilClass
    case _ => DefaultClass
  }

  /** The four classes are four different strings. */
  lemma ClassesDiffer()
    ensures LunasClass != UtangClass && LunasClass != CicilClass && UtangClass != CicilClass
    ensures LunasClass != DefaultClass && UtangClass != DefaultClass && CicilClass != DefaultClass
  {
    assert |LunasClass| == 65 && |UtangClass| == 69 && |CicilClass| == 61 && |DefaultClass| == 65;
    assert LunasClass[60] == 'n' && DefaultClass[60] == 'e';
  }

  /** The three stored statuses get three different classes. */
  lemma StatusClassesDistinct(s1: TxStatus, s2: TxStatus)
    ensures s1 != s2 ==> StatusClass(StatusName(s1)) != StatusClass(StatusName(s2))
  {
    ClassesDiffer();
  }

  /** No stored status gets the fallback class, and every other string does. */
  lemma StatusClassFallback(s: TxStatus, other: string)
    ensures StatusClass(StatusName(s)) != DefaultClass
    ensures other != "lunas" && other != "utang" && other != "cicil" ==> StatusClass(other) == DefaultClass
  {
    ClassesDiffer();
  }

  /** The badge text: the status with its first letter upper-cased. */
  function StatusLabel(s: TxStatus): (r: string)
    ensures |r| > 0 && r[1..] == StatusName(s)[1..]
  {
    Capitalize(StatusName(s))
  }

  lemma StatusLabels(s1: TxStatus, s2: TxStatus)
    ensures StatusLabel(TxStatus.Lunas) == "Lunas" && StatusLabel(TxStatus.Utang) == "Utang" && StatusLabel(TxStatus.Cicil) == "Cicil"
    ensures s1 != s2 ==> StatusLabel(s1) != StatusLabel(s2)
  {
  }

  /** The "Sisa utang" line is shown for a sale with something left to pay. */
  predicate ShowsDebtLine(t: Transaction) {
    t.remainingDebt > 0.0
  }

  /** For a sale whose figures were derived when it was recorded, the line is shown exactly when the sale is not settled. */
  lemma DebtLineIffUnsettled(t: Transaction)
    requires TxDerived(t)
    ensures ShowsDebtLine(t) <==> t.status != TxStatus.Lunas
  {
  }

  /** The card's Hapus action: deletes the sale when it has a non-zero key. */
  method ConfirmDelete(db: Store, id: int)
    requires db.Valid()
    modifies db`transactions
    ensures db.Valid()
    ensures id != 0 ==> db.transactions == old(db.transactions).Delete(id)
    ensures id == 0 ==> db.transactions == old(db.transactions)
  {
    if id != 0 {
      DeleteTransaction(db, id);
    }
  }
}
