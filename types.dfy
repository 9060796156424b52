/**
  The records the ledger stores. A record's `id` is not a field here: it is the
  key the row is stored under in its table. Amounts and weights are reals,
  dates and timestamps strings (`yyyy-MM-dd` dates, ISO-8601 timestamps).
*/
module Types {
  import opened Wrappers

  datatype PaymentMethod = Tunai | Utang | Cicil

  /** Settlement state of a sale: paid off, nothing paid yet, or part paid. */
  datatype TxStatus = Lunas | Utang | Cicil

  datatype DebtStatus = Pending | Partial | Paid

  datatype BackupFrequency = Daily | Weekly | Monthly

  datatype Theme = Light | Dark | Auto

  /** The string the application stores for a payment method. */
  function MethodName(m: PaymentMethod): string {
    match m
    case Tunai => "tunai"
    case Utang => "utang"
    case Cicil => "cicil"
  }

  /** The string the application stores for a sale's status. */
  function StatusName(s: TxStatus): string {
    match s
    case Lunas => "lunas"
    case Utang => "utang"
    case Cicil => "cicil"
  }

  /** The string the application stores for a debt's status. */
  function DebtStatusName(s: DebtStatus): string {
    match s
    case Pending => "pending"
    case Partial => "partial"
    case Paid => "paid"
  }

  datatype Customer = Customer(
    name: string,
    phone: Option<string>,
    address: Option<string>,
    createdAt: string)

  /**
    A purchase of shrimp from a supplier. `netWeight` and `totalCost` are
    derived from the other figures when the row is written; `updatedAt` is
    written by every insert and update although the record type does not
    declare it.
  */
  datatype StockEntry = StockEntry(
    supplierName: string,
    date: string,
    grossWeight: real,
    buyPrice: real,
    netWeight: real,
    totalCost: real,
    shrinkagePercentage: real,
    createdAt: string,
    updatedAt: string)

  /** A sale. `remainingDebt` and `status` are derived when the row is written. */
  datatype Transaction = Transaction(
    customerId: int,
    customerName: string,
    date: string,
    shrimpType: string,
    quantity: real,
    pricePerKg: real,
    totalAmount: real,
    paymentMethod: PaymentMethod,
    paidAmount: real,
    remainingDebt: real,
    status: TxStatus,
    createdAt: string)

  datatype OperationalCost = OperationalCost(
    date: string,
    description: string,
    amount: real,
    category: string,
    createdAt: string,
    updatedAt: string)

  datatype Debt = Debt(
    customerId: int,
    customerName: string,
    transactionId: int,
    originalAmount: real,
    remainingAmount: real,
    dueDate: string,
    status: DebtStatus,
    createdAt: string,
    updatedAt: string)

  datatype DebtPayment = DebtPayment(
    debtId: int,
    amount: real,
    paymentDate: string,
    notes: Option<string>,
    createdAt: string)

  /**
    A settings row. Every field may be absent: the row `initializeSettings`
    writes holds only the two default values, and a patch holds only the
    fields it changes.
  */
  datatype Settings = Settings(
    businessName: Option<string>,
    businessAddress: Option<string>,
    businessPhone: Option<string>,
    businessEmail: Option<string>,
    defaultShrinkagePercentage: Option<real>,
    defaultDailyPrice: Option<real>,
    currency: Option<string>,
    currencySymbol: Option<string>,
    timezone: Option<string>,
    dateFormat: Option<string>,
    enableNotifications: Option<bool>,
    enableDebtReminders: Option<bool>,
    debtReminderDays: Option<int>,
    enableAutoBackup: Option<bool>,
    backupFrequency: Option<BackupFrequency>,
    theme: Option<Theme>,
    language: Option<string>,
    itemsPerPage: Option<int>,
    workingHoursStart: Option<string>,
    workingHoursEnd: Option<string>,
    workingDays: Option<seq<string>>,
    defaultDebtDueDays: Option<int>,
    enableAutoDebtReminders: Option<bool>,
    createdAt: Option<string>,
    updatedAt: Option<string>)

  /** A settings record with no field present: the empty patch. */
  const NoSettings: Settings := Settings(
    None, None, None, None, None, None, None, None, None, None, None, None, None,
    None, None, None, None, None, None, None, None, None, None, None, None)
}
