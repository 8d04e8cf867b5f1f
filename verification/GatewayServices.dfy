/**
 The gateway service's cancel path: the map of records under the mutex, and the record each caller
 shares. `records` lists every record ever allocated; with it the service is the table of
 `CancelCoalescing`, and its two critical sections are that table's two operations.
 */
module GatewayServices {
  import opened Wrappers
  import opened Text
  import opened CancelCoalescing

  class CancelIdempotencyRecord {
    const fingerprint: string
    var done: bool                     // whether the channel was closed
    var result: Option<CancelResult>
    var err: Option<string>
    ghost const key: string
    ghost const serial: nat            // position in `records`

    constructor (ghost key: string, fingerprint: string, ghost serial: nat)
      ensures WellFormed() && this.key == key && this.serial == serial
              && Value() == Record(key, fingerprint, 0, None, None)
    {
      this.key, this.fingerprint, this.serial := key, fingerprint, serial;
      done, result, err := false, None, None;
    }

    /** Open and empty, or closed with a result or an error. */
    ghost predicate WellFormed()
      reads this
    {
      (done <==> result.Some? || err.Some?) && (result.None? || err.None?)
    }

    ghost function Value(): Record
      reads this
    {
      Record(key, fingerprint, if done then 1 else 0, result, err)
    }
  }

  /** What becomes of a request before any waiting or calling. */
  datatype Start =
    | BadInput
    | Uncoalesced  // no key: the caller calls downstream on its own
    | KeyReused
    | Wait
    | Own

  datatype Reply = InvalidInput | IdempotencyConflict | Answer(outcome: Outcome)

  function StartOf(role: Role): Start {
    match role
    case Conflict => KeyReused
    case Waiter(_) => Wait
    case Owner(_) => Own
  }

  ghost function Serials(index: map<string, CancelIdempotencyRecord>): map<string, nat> {
    map k | k in index :: index[k].serial
  }

  lemma SerialsUpdate(index: map<string, CancelIdempotencyRecord>, key: string, record: CancelIdempotencyRecord)
    ensures Serials(index[key := record]) == Serials(index)[key := record.serial]
    ensures Serials(index - {key}) == Serials(index) - {key}
  {
  }

  lemma SerialsAt(index: map<string, CancelIdempotencyRecord>, key: string)
    ensures key in Serials(index) <==> key in index
    ensures key in index ==> Serials(index)[key] == index[key].serial
  {
  }

  ghost function Values(records: seq<CancelIdempotencyRecord>): (values: seq<Record>)
    reads records
    ensures |values| == |records|
    ensures forall i | 0 <= i < |records| :: values[i] == records[i].Value()
  {
    if records == [] then [] else Values(records[..|records| - 1]) + [records[|records| - 1].Value()]
  }

  class GatewayService {
    var cancelIdempotency: map<string, CancelIdempotencyRecord>
    ghost var records: seq<CancelIdempotencyRecord>

    constructor ()
      ensures Valid() && View() == Table(map[], []) && records == []
    {
      cancelIdempotency, records := map[], [];
    }

    ghost predicate Valid()
      reads this, records
    {
      && (forall i | 0 <= i < |records| :: records[i].serial == i && records[i].WellFormed())
      && (forall k | k in cancelIdempotency ::
            cancelIdempotency[k].serial < |records| && records[cancelIdempotency[k].serial] == cancelIdempotency[k])
    }

    ghost function View(): Table
      reads this, records
    {
      Table(Serials(cancelIdempotency), Values(records))
    }

    lemma ViewIsOK()
      requires Valid()
      ensures TableOK(View())
    {
    }

    /** `beginCancelIdempotency`. */
    method BeginCancelIdempotency(key: string, fingerprint: string)
      returns (record: Option<CancelIdempotencyRecord>, existing: bool)
      requires Valid()
      modifies this
      ensures Valid() && TableOK(old(View()))
      ensures old(records) <= records && fresh(set r | r in records && r !in old(records))
      ensures View() == match BeginRole(old(View()), key, fingerprint)
                        case Conflict => old(View())
                        case _ => BeginTable(old(View()), key, fingerprint)
      ensures match BeginRole(old(View()), key, fingerprint)
              case Conflict => record.None? && !existing
              case Waiter(i) => record.Some? && record.value.serial == i < |records| && records[i] == record.value
                                && existing
              case Owner(i) => record.Some? && record.value.serial == i < |records| && records[i] == record.value
                               && !existing
    {
      hide Values;
      ViewIsOK();
      if key in cancelIdempotency {
        var found := cancelIdempotency[key];
        assert View().records[found.serial].fingerprint == found.fingerprint;
        if found.fingerprint != fingerprint {
          return None, false;
        }
        return Some(found), true;
      }
      ghost var before := View();
      var created := new CancelIdempotencyRecord(key, fingerprint, |records|);
      SerialsUpdate(cancelIdempotency, key, created);
      cancelIdempotency := cancelIdempotency[key := created];
      records := records + [created];
      assert View().records == before.records + [created.Value()];
      record, existing := Some(created), false;
    }

    /** `finishCancelIdempotency`. The channel must still be open: closing it twice would panic. */
    method FinishCancelIdempotency(key: string, record: CancelIdempotencyRecord, outcome: Outcome)
      requires Valid() && record in records && !record.done
      modifies this`cancelIdempotency, record
      ensures Valid() && record.serial < |records| && records[record.serial] == record
      ensures View() == FinishTable(old(View()), key, record.serial, outcome)
    {
      hide Values, Serials;
      ghost var before := View();
      ghost var i :| 0 <= i < |records| && records[i] == record;
      assert record.serial == i;
      SerialsUpdate(cancelIdempotency, key, record);
      match outcome {
        case Failure(error) =>
          record.err := Some(error);
          record.done := true;
          cancelIdempotency := cancelIdempotency - {key};
        case Success(result) =>
          record.result := Some(result);
          record.done := true;
      }
      forall j | 0 <= j < |records|
        ensures View().records[j] == if j == i then Finished(before.records[i], outcome) else before.records[j]
      {
      }
      assert View().records == before.records[i := Finished(before.records[i], outcome)];
    }

    /** Validation and the first critical section. */
    method StartCancel(orderID: string, reason: string, idempotencyKey: string)
      returns (start: Start, record: Option<CancelIdempotencyRecord>)
      requires Valid()
      modifies this
      ensures Valid() && TableOK(old(View())) && old(records) <= records
      ensures fresh(set r | r in records && r !in old(records))
      ensures Trim(orderID) == "" || Trim(reason) == "" ==> start == BadInput && View() == old(View())
      ensures Trim(orderID) != "" && Trim(reason) != "" && Trim(idempotencyKey) == "" ==>
              start == Uncoalesced && View() == old(View())
      ensures Trim(orderID) != "" && Trim(reason) != "" && Trim(idempotencyKey) != "" ==>
                var key, fingerprint := Trim(idempotencyKey), Fingerprint(Trim(orderID), Trim(reason));
                var role := BeginRole(old(View()), key, fingerprint);
                && start == StartOf(role)
                && View() == (if role.Conflict? then old(View()) else BeginTable(old(View()), key, fingerprint))
                && (!role.Conflict? ==>
                      record.Some? && record.value.serial == role.record < |records|
                      && records[role.record] == record.value)
    {
      hide Trim, BeginTable, BeginRole, Values, Serials;
      ViewIsOK();
      var order, why, key := Trim(orderID), Trim(reason), Trim(idempotencyKey);
      if order == "" || why == "" {
        return BadInput, None;
      }
      if key == "" {
        return Uncoalesced, None;
      }
      var existing;
      record, existing := BeginCancelIdempotency(key, Fingerprint(order, why));
      start := if record.None? then KeyReused else if existing then Wait else Own;
    }

    /** The read after `<-record.done`, which lets nobody past before the record is closed: a waiter gets the outcome
        that the record's owner finished it with. */
    method ReadAnswer(record: CancelIdempotencyRecord) returns (outcome: Outcome)
      requires Valid() && record in records && record.done
      ensures FinishedWith(record.Value(), outcome)
    {
      ghost var i :| 0 <= i < |records| && records[i] == record;
      assert record.WellFormed();
      outcome := if record.result.Some? then Success(record.result.value)
                 else Failure(if record.err.Some? then record.err.value else "");
    }

    /** The request would join a call that is still under way, and wait for it. */
    ghost predicate WouldWait(orderID: string, reason: string, idempotencyKey: string)
      reads this, cancelIdempotency.Values
    {
      var key := Trim(idempotencyKey);
      && Trim(orderID) != "" && Trim(reason) != "" && key != "" && key in cancelIdempotency
      && cancelIdempotency[key].fingerprint == Fingerprint(Trim(orderID), Trim(reason)) && !cancelIdempotency[key].done
    }

    /**
     A whole call that has nobody to wait for; calls for other keys may be under way. `downstream` is what a call to the
     order service would come to, `called` whether it was made. It is made unless the key already has a record, and the
     table is told its outcome.
     */
    method CancelOrder(orderID: string, reason: string, idempotencyKey: string, downstream: Outcome)
      returns (reply: Reply, called: bool)
      requires Valid() && !WouldWait(orderID, reason, idempotencyKey)
      modifies this
      ensures Valid() && TableOK(old(View()))
      ensures Trim(orderID) == "" || Trim(reason) == "" ==> reply == InvalidInput && !called && View() == old(View())
      ensures Trim(orderID) != "" && Trim(reason) != "" && Trim(idempotencyKey) == "" ==>
              reply == Answer(downstream) && called && View() == old(View())
      ensures Trim(orderID) != "" && Trim(reason) != "" && Trim(idempotencyKey) != "" ==>
                var key, fingerprint := Trim(idempotencyKey), Fingerprint(Trim(orderID), Trim(reason));
                match BeginRole(old(View()), key, fingerprint)
                case Conflict => reply == IdempotencyConflict && !called && View() == old(View())
                case Waiter(i) =>
                  reply.Answer? && FinishedWith(old(View()).records[i], reply.outcome) && !called
                  && View() == old(View())
                case Owner(i) =>
                  && reply == Answer(downstream) && called
                  && i == |old(View()).records|
                  && View() == FinishTable(BeginTable(old(View()), key, fingerprint), key, i, downstream)
      ensures Trim(orderID) != "" && Trim(reason) != "" && Trim(idempotencyKey) != "" ==>
                var (key, t) := (Trim(idempotencyKey), old(View()));
                if key !in t.index then
                  reply == Answer(downstream) && called && (key in View().index <==> downstream.Success?)
                else
                  && !called && View() == t
                  && (reply == IdempotencyConflict <==>
                      t.records[t.index[key]].fingerprint != Trim(orderID) + "\n" + Trim(reason))
    {
      hide Trim, Values, Serials, FinishedWith;
      ViewIsOK();
      SerialsAt(cancelIdempotency, Trim(idempotencyKey));
      ghost var before := View();
      ghost var (key, index) := (Trim(idempotencyKey), cancelIdempotency);
      assert key in index ==> before.records[index[key].serial].fingerprint == index[key].fingerprint;
      var start, record := StartCancel(orderID, reason, idempotencyKey);
      called := false;
      match start
      case BadInput => reply := InvalidInput;
      case KeyReused => reply := IdempotencyConflict;
      case Uncoalesced =>
        reply, called := Answer(downstream), true;
      case Wait =>
        assert key in index && record.value == index[key];
        var outcome := ReadAnswer(record.value);
        reply := Answer(outcome);
      case Own =>
        reply, called := Answer(downstream), true;
        assert View().records[record.value.serial].closes == 0;
        FinishCancelIdempotency(Trim(idempotencyKey), record.value, downstream);
    }
  }

  /** Two different requests that `StartCancel` takes for one: the second is made to wait for the first and is told that
      its own order was cancelled. */
  lemma AcceptedRequestsCollide(key: string)
    requires Trim(key) != ""
    ensures Trim("a") == "a" && Trim("b\nc") == "b\nc" && Trim("a\nb") == "a\nb" && Trim("c") == "c"
    ensures var t := BeginTable(Table(map[], []), Trim(key), Fingerprint("a", "b\nc"));
            TableOK(t) && BeginRole(t, Trim(key), Fingerprint("a\nb", "c")) == Waiter(0)
  {
    TrimIsTrimmed("a");
    TrimIsTrimmed("b\nc");
    TrimIsTrimmed("a\nb");
    TrimIsTrimmed("c");
    assert "a" + "\n" + "b\nc" == "a\nb" + "\n" + "c";
  }
}
