/** From a committed order to the payment request made for it. */
module OrderPayability {
  import opened Wrappers
  import opened Integers
  import opened Text
  import opened Enums
  import opened Domain
  import opened OrderPlacement
  import opened Payments

  lemma AcceptedNames(c: int32, m: int32)
    requires c == CURRENCY_USD || c == CURRENCY_EUR
    requires m == METHOD_CARD || m == METHOD_CASH
    ensures ParseCurrency(CurrencyName(c)) == Some(c)
    ensures ParseMethod(MethodName(m)) == Some(m)
  {
    assert "CURRENCY_EUR"[9] == 'E' && "CURRENCY_USD"[9] == 'U' && |"USD"| == 3 && |"CURRENCY_EUR"| == 12;
    assert "PAYMENT_METHOD_TYPE_CASH"[22] == 'S' && "PAYMENT_METHOD_TYPE_CARD"[22] == 'R';
    assert |"CARD"| == 4 && |"PAYMENT_METHOD_TYPE_CASH"| == 24;
  }

  /** The event chain order.created, inventory.reserved asks for the order's own amount, customer and method, under
      names that parse, and the request is valid. */
  lemma PlacedOrdersArePayable(o: Order)
    requires Placed(o)
    ensures var r := Requested(ReservedEvent(CreatedEvent(o)));
            && r.Ok? && Acceptable(r.value)
            && r.value.orderID == o.id && r.value.customerID == o.customerID
            && r.value.amount == o.total && r.value.payMethod == o.payment.payMethod
            && r.value.details == o.payment.details
  {
    hide CurrencyName, MethodName, ParseCurrency, ParseMethod, StatusName, Trim;
    AcceptedNames(o.total.currency, o.payment.payMethod);
  }

  /** So creating its payment can fail only because the payment id or the order already has a row. */
  lemma CreationFailsOnlyOnConflict(o: Order, t: Table, id: string, now: Clock, missed: bool, keyFirst: bool)
    requires Placed(o) && !Blank(id)
    ensures Requested(ReservedEvent(CreatedEvent(o))).Ok?
    ensures var r := Create(t, Requested(ReservedEvent(CreatedEvent(o))).value, id, now, missed, keyFirst);
            r.Err? ==> r.error == PaymentAlreadyExists && (id in t || OrderTaken(t, o.id))
  {
    hide CurrencyName, MethodName, ParseCurrency, ParseMethod, StatusName, Trim, PaymentKey, Stored;
    PlacedOrdersArePayable(o);
  }

  /**
   A handler whose lookup ran before another handler's insert gets an error, not the existing payment, whenever the
   database reports the order id before the key: the order is then told its payment could not be created although it
   exists. Reporting the key first, or looking up in time, yields the existing payment.
   */
  lemma LateRedeliveryFailsExactlyWhenOrderIsReported(o: Order, t: Table, id: string, now: Clock, missed: bool,
                                                      keyFirst: bool)
    requires Placed(o) && !Blank(id) && TableOK(t)
    requires exists p | p in t :: t[p].orderID == o.id
    ensures Requested(ReservedEvent(CreatedEvent(o))).Ok?
    ensures Create(t, Requested(ReservedEvent(CreatedEvent(o))).value, id, now, missed, keyFirst)
         == if missed && !keyFirst then Err(PaymentAlreadyExists) else Ok(t)
  {
    hide CurrencyName, MethodName, ParseCurrency, ParseMethod, StatusName, Trim, Stored;
    PlacedOrdersArePayable(o);
    KeyIsNotBlank(o.id);
    var p :| p in t && t[p].orderID == o.id;
    assert KeyTaken(t, Trim(PaymentKey(o.id)));
  }

  lemma KeyIsNotBlank(orderID: string)
    ensures Trim(PaymentKey(orderID)) != ""
  {
    var k := PaymentKey(orderID);
    assert k[0] == 'p';
    assert TrimLeft(k) == k;
    TrimRightKeeps(k);
  }

  lemma {:induction false} TrimRightKeeps(s: string)
    requires s != "" && !IsSpace(s[0])
    ensures TrimRight(s) != ""
    decreases |s|
  {
    if IsSpace(s[|s| - 1]) {
      TrimRightKeeps(s[..|s| - 1]);
    }
  }
}
