/** A payment as a row, and back. */
module PaymentRows {
  import opened Wrappers
  import opened Integers
  import opened Text
  import opened Enums
  import opened Domain
  import opened Payments

  datatype PaymentRow = PaymentRow(
    id: string,
    orderID: string,
    customerID: string,
    currency: string,
    cents: int64,
    payMethod: string,
    details: string,
    idempotencyKey: Option<string>,
    status: string,
    cancelReason: string,
    createdAt: Option<Time>,
    updatedAt: Option<Time>)

  function PayStatusValue(s: string): Option<PaymentStatus> {
    if s == "PAYMENT_STATUS_UNSPECIFIED" then Some(PayUnspecified)
    else if s == "PAYMENT_STATUS_PENDING" then Some(PayPending)
    else if s == "PAYMENT_STATUS_CAPTURED" then Some(Captured)
    else if s == "PAYMENT_STATUS_FAILED" then Some(Failed)
    else if s == "PAYMENT_STATUS_CANCELLED" then Some(PayCancelled)
    else None
  }

  lemma PayStatusRoundTrip(s: PaymentStatus)
    ensures PayStatusValue(PayStatusName(s)) == Some(s)
  {
    match s
    case PayUnspecified =>
    case PayPending => assert |PayStatusName(s)| == 22;
    case Captured => assert |PayStatusName(s)| == 23;
    case Failed => assert |PayStatusName(s)| == 21;
    case PayCancelled => assert |PayStatusName(s)| == 24;
  }

  /** `toPaymentDBParams`. The reason goes in as it is, the key trimmed. */
  function PaymentParams(p: Payment): PaymentRow {
    PaymentRow(p.id, p.orderID, p.customerID, CurrencyName(p.amount.currency), p.amount.cents,
               MethodName(p.payMethod), p.details,
               if Blank(p.idempotencyKey) then None else Some(Trim(p.idempotencyKey)),
               PayStatusName(p.status), p.cancelReason,
               if p.createdAt == 0 then None else Some(p.createdAt),
               if p.updatedAt == 0 then None else Some(p.updatedAt))
  }

  /** The row in the table. */
  function RowOf(p: Payment): PaymentRow {
    PaymentParams(p).(createdAt := Some(Stored(p.createdAt)), updatedAt := Some(Stored(p.updatedAt)))
  }

  function MapDBPayment(row: PaymentRow): Result<Payment, PaymentError> {
    match (CurrencyValue(row.currency), MethodValue(row.payMethod), PayStatusValue(row.status))
    case (Some(currency), Some(payMethod), Some(status)) =>
      Ok(Payment(row.id, row.orderID, row.customerID, Money(currency, row.cents), payMethod, row.details,
                 if row.idempotencyKey.Some? then row.idempotencyKey.value else "", status, row.cancelReason,
                 if row.createdAt.Some? then row.createdAt.value else 0,
                 if row.updatedAt.Some? then row.updatedAt.value else 0))
    case _ => Err(UnreadableRow)
  }

  /** A payment's row reads back exactly when its enumeration numbers have names, and then as the payment with its key
      trimmed and its times cut to microseconds. */
  lemma PaymentRoundTrip(p: Payment)
    ensures MapDBPayment(RowOf(p)) == if Readable(p) then Ok(AsStored(p)) else Err(UnreadableRow)
  {
    hide CurrencyName, CurrencyValue, MethodName, MethodValue, PayStatusName, PayStatusValue, KnownCurrency,
         KnownMethod, Trim, Stored;
    CurrencyRoundTrip(p.amount.currency);
    MethodRoundTrip(p.payMethod);
    PayStatusRoundTrip(p.status);
  }

  /** Writing back what was read changes no column. */
  lemma RowOfStored(p: Payment)
    ensures RowOf(AsStored(p)) == RowOf(p) && AsStored(AsStored(p)) == AsStored(p)
  {
    TrimIsTrimmed(p.idempotencyKey);
    StoredClock(p.createdAt);
    StoredClock(p.updatedAt);
    hide Trim, CurrencyName, MethodName, PayStatusName;
  }
}
