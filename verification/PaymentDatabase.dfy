/** The payment repository over its table, proved to be the transactions of `Payments`. */
module PaymentDatabase {
  import opened Wrappers
  import opened Text
  import opened Enums
  import opened Domain
  import opened Payments
  import opened PaymentRows

  /** What the CHECK constraint and the validation before every write leave possible. */
  predicate Storable(p: Payment) {
    !Blank(p.id) && !Blank(p.orderID) && !Blank(p.customerID) && p.amount.cents > 0
  }

  ghost predicate Represents(rows: map<string, PaymentRow>, contents: Table) {
    && rows.Keys == contents.Keys
    && (forall id | id in contents ::
          contents[id].id == id && rows[id] == RowOf(contents[id]) && AsStored(contents[id]) == contents[id])
  }

  /** Constraints of the table, seen on payments. */
  ghost predicate Constrained(contents: Table) {
    && (forall id | id in contents :: Storable(contents[id]))
    && (forall a, b | a in contents && b in contents && contents[a].orderID == contents[b].orderID :: a == b)
    && (forall a, b | a in contents && b in contents
        && contents[a].idempotencyKey == contents[b].idempotencyKey != "" :: a == b)
  }

  predicate RowOrderTaken(rows: map<string, PaymentRow>, orderID: string, except: Option<string>) {
    exists id | id in rows :: except != Some(id) && rows[id].orderID == orderID
  }

  predicate RowKeyTaken(rows: map<string, PaymentRow>, key: Option<string>, except: Option<string>) {
    key.Some? && exists id | id in rows :: except != Some(id) && rows[id].idempotencyKey == key
  }

  lemma RowsTaken(rows: map<string, PaymentRow>, contents: Table, p: Payment)
    requires Represents(rows, contents)
    ensures RowOrderTaken(rows, p.orderID, None) <==> OrderTaken(contents, p.orderID)
    ensures RowKeyTaken(rows, PaymentParams(p).idempotencyKey, None) <==> KeyTaken(contents, Trim(p.idempotencyKey))
    ensures forall id | id in contents :: RowKey(rows[id]) == contents[id].idempotencyKey
  {
    hide Trim, Stored, CurrencyName, MethodName, PayStatusName;
    forall id | id in contents ensures RowKey(rows[id]) == contents[id].idempotencyKey {
      assert rows[id] == RowOf(contents[id]);
    }
  }

  function RowKey(row: PaymentRow): string {
    if row.idempotencyKey.Some? then row.idempotencyKey.value else ""
  }

  lemma StampedKeeps(p: Payment)
    ensures Storable(AsStored(p)) <==> !Blank(p.id) && !Blank(p.orderID) && !Blank(p.customerID) && p.amount.cents > 0
    ensures Readable(AsStored(p)) <==> Readable(p)
  {
    StoredClock(p.createdAt);
    StoredClock(p.updatedAt);
    hide Trim, Stored, KnownCurrency, KnownMethod;
  }

  lemma PutRepresents(rows: map<string, PaymentRow>, contents: Table, p: Payment)
    requires Represents(rows, contents)
    ensures Represents(rows[p.id := RowOf(p)], contents[p.id := AsStored(p)])
  {
    RowOfStored(p);
    hide RowOf, Trim, Stored;
  }

  lemma ParamsNulls(p: Payment)
    ensures var r := PaymentParams(p);
            && (r.createdAt.None? <==> p.createdAt == 0) && (r.updatedAt.None? <==> p.updatedAt == 0)
            && r.(createdAt := Some(Stored(p.createdAt)), updatedAt := Some(Stored(p.updatedAt))) == RowOf(p)
            && r.cents == p.amount.cents && r.id == p.id && r.orderID == p.orderID
  {
    hide Trim, Stored, CurrencyName, MethodName, PayStatusName;
  }

  lemma InsertConstrained(contents: Table, p: Payment)
    requires Constrained(contents) && Storable(AsStored(p)) && p.id !in contents
    requires !OrderTaken(contents, p.orderID) && !KeyTaken(contents, Trim(p.idempotencyKey))
    ensures Constrained(contents[p.id := AsStored(p)])
  {
    hide Storable, Trim, Stored;
  }

  lemma UpdateConstrained(contents: Table, p: Payment)
    requires Constrained(contents) && Storable(AsStored(p)) && p.id in contents
    requires !OrderTakenByOther(contents, p) && !KeyTakenByOther(contents, p)
    ensures Constrained(contents[p.id := AsStored(p)])
  {
    hide Storable, Trim, Stored;
  }

  /** The answer of a lookup by key that finds a row. */
  ghost predicate FoundByKey(t: Table, key: string, r: Result<Payment, PaymentError>) {
    exists id :: id in t && t[id].idempotencyKey == key
      && r == if Readable(t[id]) then Ok(t[id]) else Err(UnreadableRow)
  }

  class PaymentRepository {
    var rows: map<string, PaymentRow>
    ghost var contents: Table

    ghost predicate Valid()
      reads this
    {
      Represents(rows, contents) && Constrained(contents)
    }

    ghost function View(): Table
      reads this
    {
      contents
    }

    constructor ()
      ensures Valid() && View() == map[]
    {
      rows, contents := map[], map[];
    }

    /** `keyFirst` says which of two broken unique constraints is reported. */
    method CreatePayment(p: Payment, keyFirst: bool) returns (r: Result<Payment, PaymentError>)
      requires Valid()
      modifies this
      ensures Valid()
      ensures match Insert(old(View()), p, keyFirst)
              case Ok(t) => View() == t && r == if Readable(p) then Ok(AsStored(p)) else Err(UnreadableRow)
              case Err(e) => View() == old(View()) && r == Err(e)
    {
      hide Blank, Trim, Stored, RowOf, PaymentParams, MapDBPayment, Readable, Represents, RowOrderTaken, RowKeyTaken;
      hide Storable, Constrained, AsStored, OrderTaken, KeyTaken, SameRequest;
      if Blank(p.id) {
        return Err(InvalidPaymentID);
      }
      if Blank(p.orderID) || Blank(p.customerID) {
        return Err(InvalidPayment);
      }
      RowsTaken(rows, contents, p);
      ParamsNulls(p);
      StampedKeeps(p);
      PaymentRoundTrip(p);
      var params := PaymentParams(p);
      if params.cents <= 0 || params.createdAt.None? || params.updatedAt.None? {
        return Err(ConstraintViolated);
      }
      assert p.id in rows <==> p.id in contents by {
        SameKeys(rows, contents);
      }
      var orderTaken := params.id in rows || RowOrderTaken(rows, params.orderID, None);
      if RowKeyTaken(rows, params.idempotencyKey, None) && (keyFirst || !orderTaken) {
        return Err(IdempotencyKeyAlreadyExists);
      }
      if orderTaken {
        return Err(PaymentAlreadyExists);
      }
      PutRepresents(rows, contents, p);
      InsertConstrained(contents, p);
      var row := params.(createdAt := Some(Stored(p.createdAt)), updatedAt := Some(Stored(p.updatedAt)));
      rows, contents := rows[p.id := row], contents[p.id := AsStored(p)];
      r := MapDBPayment(row);
    }

    method GetPaymentByID(id: string) returns (r: Result<Payment, PaymentError>)
      requires Valid()
      ensures r == if Blank(id) then Err(InvalidPaymentID)
                   else if id !in View() then Err(PaymentNotFound)
                   else if !Readable(View()[id]) then Err(UnreadableRow)
                   else Ok(View()[id])
    {
      hide Blank, RowOf, AsStored, MapDBPayment, Constrained, Readable;
      if Blank(id) {
        return Err(InvalidPaymentID);
      }
      if id !in rows {
        return Err(PaymentNotFound);
      }
      PaymentRoundTrip(contents[id]);
      r := MapDBPayment(rows[id]);
    }

    method GetPaymentByIdempotencyKey(idempotencyKey: string) returns (r: Result<Payment, PaymentError>)
      requires Valid()
      ensures Trim(idempotencyKey) == "" ==> r == Err(InvalidIdempotencyKey)
      ensures Trim(idempotencyKey) != "" && !KeyTaken(View(), Trim(idempotencyKey)) ==> r == Err(PaymentNotFound)
      ensures KeyTaken(View(), Trim(idempotencyKey)) ==> FoundByKey(View(), Trim(idempotencyKey), r)
    {
      var key := Trim(idempotencyKey);
      if key == "" {
        return Err(InvalidIdempotencyKey);
      }
      hide Trim, RowOf, AsStored, MapDBPayment, Constrained, Readable;
      KeysAgree(rows, contents);
      if id :| id in rows && rows[id].idempotencyKey == Some(key) {
        PaymentRoundTrip(contents[id]);
        r := MapDBPayment(rows[id]);
        assert contents[id].idempotencyKey == key;
      } else {
        r := Err(PaymentNotFound);
      }
    }

    method UpdatePayment(p: Payment) returns (r: Result<Payment, PaymentError>)
      requires Valid()
      modifies this
      ensures Valid()
      ensures match Update(old(View()), p)
              case Ok(t) => View() == t && r == if Readable(p) then Ok(AsStored(p)) else Err(UnreadableRow)
              case Err(e) => View() == old(View()) && r == Err(e)
    {
      hide Blank, Trim, Stored, RowOf, PaymentParams, MapDBPayment, Readable, Represents, RowOrderTaken, RowKeyTaken;
      hide Storable, Constrained, AsStored, OrderTakenByOther, KeyTakenByOther;
      if Blank(p.id) {
        return Err(InvalidPaymentID);
      }
      if Blank(p.orderID) || Blank(p.customerID) {
        return Err(InvalidPayment);
      }
      RowsTakenByOthers(rows, contents, p);
      ParamsNulls(p);
      PaymentRoundTrip(p);
      StampedKeeps(p);
      var params := PaymentParams(p);
      if params.id !in rows {
        return Err(PaymentNotFound);
      }
      if params.cents <= 0 || params.createdAt.None? || params.updatedAt.None? {
        return Err(ConstraintViolated);
      }
      if RowOrderTaken(rows, params.orderID, Some(params.id)) {
        return Err(PaymentAlreadyExists);
      }
      if RowKeyTaken(rows, params.idempotencyKey, Some(params.id)) {
        return Err(IdempotencyKeyAlreadyExists);
      }
      PutRepresents(rows, contents, p);
      UpdateConstrained(contents, p);
      var row := params.(createdAt := Some(Stored(p.createdAt)), updatedAt := Some(Stored(p.updatedAt)));
      rows, contents := rows[p.id := row], contents[p.id := AsStored(p)];
      r := MapDBPayment(row);
    }
  }

  lemma RowStored(rows: map<string, PaymentRow>, contents: Table, id: string)
    requires Represents(rows, contents) && Constrained(contents) && id in contents
    ensures Storable(contents[id]) && AsStored(contents[id]) == contents[id]
  {
    hide RowOf, Storable, AsStored;
  }

  lemma SameKeys(rows: map<string, PaymentRow>, contents: Table)
    requires Represents(rows, contents)
    ensures rows.Keys == contents.Keys
  {
  }

  lemma KeysAgree(rows: map<string, PaymentRow>, contents: Table)
    requires Represents(rows, contents)
    ensures forall id | id in contents :: (contents[id].idempotencyKey != "" <==> rows[id].idempotencyKey.Some?)
                                          && RowKey(rows[id]) == contents[id].idempotencyKey
  {
    hide Trim, Stored, CurrencyName, MethodName, PayStatusName;
    forall id | id in contents
      ensures (contents[id].idempotencyKey != "" <==> rows[id].idempotencyKey.Some?)
              && RowKey(rows[id]) == contents[id].idempotencyKey
    {
      assert rows[id] == RowOf(contents[id]);
    }
  }

  lemma RowsTakenByOthers(rows: map<string, PaymentRow>, contents: Table, p: Payment)
    requires Represents(rows, contents)
    ensures rows.Keys == contents.Keys
    ensures RowOrderTaken(rows, p.orderID, Some(p.id)) <==> OrderTakenByOther(contents, p)
    ensures RowKeyTaken(rows, PaymentParams(p).idempotencyKey, Some(p.id)) <==> KeyTakenByOther(contents, p)
  {
    hide Trim, Stored, CurrencyName, MethodName, PayStatusName;
    KeysAgree(rows, contents);
  }

  /** A write that leaves order and key alone meets no constraint. */
  lemma OutcomeUpdateSucceeds(rows: map<string, PaymentRow>, contents: Table, p: Payment)
    requires Represents(rows, contents) && Constrained(contents) && p.id in contents
    requires SameRequest(p, contents[p.id]) && contents[p.id].createdAt != 0 && p.updatedAt != 0
    ensures Update(contents, p) == Ok(contents[p.id := AsStored(p)]) && (Readable(p) <==> Readable(contents[p.id]))
  {
    hide RowOf, Stored;
    RowStored(rows, contents, p.id);
    assert Trim(p.idempotencyKey) == contents[p.id].idempotencyKey;
    hide Trim, Blank;
  }
}
