/**
 The enumerations of the protocol buffers, and the names they are stored and sent under.
 Currency and payment method come from clients and are open: any int32 can arrive, and an
 unknown number prints as its decimal text.
 */
module Enums {
  import opened Wrappers
  import opened Integers
  import opened Text

  const CURRENCY_UNSPECIFIED: int32 := 0
  const CURRENCY_USD: int32 := 1
  const CURRENCY_EUR: int32 := 2

  function CurrencyName(c: int32): string {
    if c == 0 then "CURRENCY_UNSPECIFIED"
    else if c == 1 then "CURRENCY_USD"
    else if c == 2 then "CURRENCY_EUR"
    else Decimal(c)
  }

  /** Lookup in the generated name table. */
  function CurrencyValue(s: string): Option<int32> {
    if s == "CURRENCY_UNSPECIFIED" then Some(0)
    else if s == "CURRENCY_USD" then Some(1)
    else if s == "CURRENCY_EUR" then Some(2)
    else None
  }

  const METHOD_UNSPECIFIED: int32 := 0
  const METHOD_CARD: int32 := 1
  const METHOD_CASH: int32 := 2

  function MethodName(m: int32): string {
    if m == 0 then "PAYMENT_METHOD_TYPE_UNSPECIFIED"
    else if m == 1 then "PAYMENT_METHOD_TYPE_CARD"
    else if m == 2 then "PAYMENT_METHOD_TYPE_CASH"
    else Decimal(m)
  }

  function MethodValue(s: string): Option<int32> {
    if s == "PAYMENT_METHOD_TYPE_UNSPECIFIED" then Some(0)
    else if s == "PAYMENT_METHOD_TYPE_CARD" then Some(1)
    else if s == "PAYMENT_METHOD_TYPE_CASH" then Some(2)
    else None
  }

  datatype OrderStatus = Unspecified | Pending | AwaitingPayment | Confirmed | Cancelled | Shipped | Completed

  function StatusName(s: OrderStatus): string {
    match s
    case Unspecified => "ORDER_STATUS_UNSPECIFIED"
    case Pending => "ORDER_STATUS_PENDING"
    case AwaitingPayment => "ORDER_STATUS_AWAITING_PAYMENT"
    case Confirmed => "ORDER_STATUS_CONFIRMED"
    case Cancelled => "ORDER_STATUS_CANCELLED"
    case Shipped => "ORDER_STATUS_SHIPPED"
    case Completed => "ORDER_STATUS_COMPLETED"
  }

  function StatusValue(s: string): Option<OrderStatus> {
    if s == "ORDER_STATUS_UNSPECIFIED" then Some(Unspecified)
    else if s == "ORDER_STATUS_PENDING" then Some(Pending)
    else if s == "ORDER_STATUS_AWAITING_PAYMENT" then Some(AwaitingPayment)
    else if s == "ORDER_STATUS_CONFIRMED" then Some(Confirmed)
    else if s == "ORDER_STATUS_CANCELLED" then Some(Cancelled)
    else if s == "ORDER_STATUS_SHIPPED" then Some(Shipped)
    else if s == "ORDER_STATUS_COMPLETED" then Some(Completed)
    else None
  }

  predicate KnownCurrency(c: int32) {
    0 <= c <= 2
  }

  predicate KnownMethod(m: int32) {
    0 <= m <= 2
  }

  lemma NumbersAreNoNames(n: int32)
    ensures CurrencyValue(Decimal(n)) == None
    ensures MethodValue(Decimal(n)) == None
  {
    var d := Decimal(n)[0];
    assert d != 'C' && d != 'P';
    assert "CURRENCY_UNSPECIFIED"[0] == "CURRENCY_USD"[0] == "CURRENCY_EUR"[0] == 'C';
    assert "PAYMENT_METHOD_TYPE_UNSPECIFIED"[0] == "PAYMENT_METHOD_TYPE_CARD"[0] == "PAYMENT_METHOD_TYPE_CASH"[0] ==
           'P';
  }

  /** A stored name parses exactly when the number is one the enumeration declares, and then to that number. */
  lemma CurrencyRoundTrip(c: int32)
    ensures CurrencyValue(CurrencyName(c)) == if KnownCurrency(c) then Some(c) else None
  {
    NumbersAreNoNames(c);
    assert "CURRENCY_USD"[9] == 'U' && "CURRENCY_EUR"[9] == 'E';
    assert |"CURRENCY_UNSPECIFIED"| == 20;
  }

  lemma MethodRoundTrip(m: int32)
    ensures MethodValue(MethodName(m)) == if KnownMethod(m) then Some(m) else None
  {
    NumbersAreNoNames(m);
    assert "PAYMENT_METHOD_TYPE_CARD"[22] == 'R' && "PAYMENT_METHOD_TYPE_CASH"[22] == 'S';
    assert |"PAYMENT_METHOD_TYPE_UNSPECIFIED"| == 31;
  }

  lemma StatusRoundTrip(s: OrderStatus)
    ensures StatusValue(StatusName(s)) == Some(s)
  {
    match s
    case Unspecified => assert |StatusName(s)| == 24;
    case Pending => assert |StatusName(s)| == 20 && StatusName(s)[13] == 'P';
    case AwaitingPayment => assert |StatusName(s)| == 29;
    case Confirmed => assert |StatusName(s)| == 22 && StatusName(s)[15] == 'N';
    case Cancelled =>
      assert |StatusName(s)| == 22 && StatusName(s)[14] == 'A' && StatusName(s)[15] == 'N' && StatusName(s)[13] == 'C';
    case Shipped => assert |StatusName(s)| == 20 && StatusName(s)[13] == 'S';
    case Completed => assert |StatusName(s)| == 22 && StatusName(s)[15] == 'M';
  }
}
