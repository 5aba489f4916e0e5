/**
 * The `Payment` row of the ledger table and its two enumerated columns.
 *
 * `amount` is a `decimal(10,2)` column: it is modelled as an integer number of
 * cents, so that sums are exact. Ten digits of which two are fractional leave
 * at most ten digits of cents.
 */
module PaymentEntity {
  import opened Wrappers

  /** The `status` column: an enum holding exactly these three values. */
  datatype PaymentStatus = Success | Failed | Pending

  /** The `method` column: an enum holding exactly these four values. */
  datatype PaymentMethod = Upi | Card | Bank | Cash

  /** One ledger row. `createdAt` is a millisecond timestamp set by the store. */
  datatype Payment = Payment(
    id: nat,
    amount: int,
    receiver: string,
    status: PaymentStatus,
    paymentMethod: PaymentMethod,
    createdAt: int)

  /** Exclusive bound on the magnitude of an amount in cents: 10^10. */
  const AmountLimit: int := 10000000000

  /** Whether an amount in cents fits a `decimal(10,2)` column. */
  predicate FitsAmountColumn(cents: int) {
    -AmountLimit < cents < AmountLimit
  }

  /** The label the database stores for a status. */
  function StatusName(s: PaymentStatus): string {
    match s
    case Success => "success"
    case Failed => "failed"
    case Pending => "pending"
  }

  /** The label the database stores for a method. */
  function MethodName(m: PaymentMethod): string {
    match m
    case Upi => "upi"
    case Card => "card"
    case Bank => "bank"
    case Cash => "cash"
  }

  /** The status a stored label denotes; the enum column accepts no other label. */
  function ParseStatus(name: string): (r: Option<PaymentStatus>)
    ensures r.Some? <==> name == "success" || name == "failed" || name == "pending"
    ensures r.Some? ==> StatusName(r.value) == name
  {
    if name == "success" then Some(Success)
    else if name == "failed" then Some(Failed)
    else if name == "pending" then Some(Pending)
    else None
  }

  /** The method a stored label denotes; the enum column accepts no other label. */
  function ParseMethod(name: string): (r: Option<PaymentMethod>)
    ensures r.Some? <==> name == "upi" || name == "card" || name == "bank" || name == "cash"
    ensures r.Some? ==> MethodName(r.value) == name
  {
    if name == "upi" then Some(Upi)
    else if name == "card" then Some(Card)
    else if name == "bank" then Some(Bank)
    else if name == "cash" then Some(Cash)
    else None
  }

  /** Every status survives a store-and-load through its label. */
  lemma StatusRoundTrip(s: PaymentStatus)
    ensures ParseStatus(StatusName(s)) == Some(s)
  {
  }

  /** Every method survives a store-and-load through its label. */
  lemma MethodRoundTrip(m: PaymentMethod)
    ensures ParseMethod(MethodName(m)) == Some(m)
  {
  }
}
