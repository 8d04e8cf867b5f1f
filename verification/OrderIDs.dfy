/** Order ids and outbox row ids as text. */
module OrderIDs {
  import opened Text
  import opened OrderStore

  const CREATED_PREFIX := "outbox-"
  const CANCELLED_PREFIX := "outbox-cancelled-"

  function RowText(r: RowID): string {
    match r
    case CreatedID(o) => CREATED_PREFIX + o
    case CancelledID(o) => CANCELLED_PREFIX + o
  }

  /** Ids as the service generates them: `ord-` and a clock reading. */
  function NewOrderID(nanos: int): string {
    "ord-" + Decimal(nanos)
  }

  lemma SamePrefix(p: string, a: string, b: string)
    ensures p + a == p + b <==> a == b
  {
    assert (p + a)[|p|..] == a && (p + b)[|p|..] == b;
  }

  lemma CancelledText(o: string)
    ensures CANCELLED_PREFIX + o == CREATED_PREFIX + ("cancelled-" + o)
  {
    assert "outbox-cancelled-" == "outbox-" + "cancelled-";
  }

  /** Two row ids share their text only if they are the same, or one is the created row of an order
      whose own id is `cancelled-` and the other order's id. */
  lemma RowTexts(r: RowID, q: RowID)
    ensures RowText(r) == RowText(q) <==>
            || r == q
            || (r.CreatedID? && q.CancelledID? && r.order == "cancelled-" + q.order)
            || (q.CreatedID? && r.CancelledID? && q.order == "cancelled-" + r.order)
  {
    var a := if r.CreatedID? then r.order else "cancelled-" + r.order;
    var b := if q.CreatedID? then q.order else "cancelled-" + q.order;
    CancelledText(r.order);
    CancelledText(q.order);
    SamePrefix(CREATED_PREFIX, a, b);
    SamePrefix("cancelled-", r.order, q.order);
  }

  /** Generated order ids are trimmed and not blank, and make the text of a row id determine the row id. */
  lemma GeneratedIDs(a: int, b: int, r: RowID, q: RowID)
    requires r.order == NewOrderID(a) && q.order == NewOrderID(b)
    ensures Trim(r.order) == r.order && !Blank(r.order)
    ensures RowText(r) == RowText(q) <==> r == q
  {
    var o := r.order;
    assert o[0] == 'o' && o[|o| - 1] == Decimal(a)[|Decimal(a)| - 1];
    TrimIsTrimmed(o);
    RowTexts(r, q);
    assert ("cancelled-" + q.order)[0] == 'c' && ("cancelled-" + o)[0] == 'c';
    assert NewOrderID(b)[0] == 'o';
  }
}
