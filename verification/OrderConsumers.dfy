/** The order service's event consumers. */
module OrderConsumers {
  import opened Wrappers
  import opened Domain
  import opened OrderStore
  import opened OrderLifecycle
  import opened OrderDatabase
  import opened OrderServices
  import opened OrderTransitions

  datatype EventType =
    | OrderCreatedType
    | OrderCancelledType
    | InventoryReservedType
    | ReservationFailedType
    | PaymentCreatedType
    | PaymentCreationFailedType
    | PaymentCapturedType
    | PaymentFailedType

  function TypeOf(e: Event): EventType {
    match e
    case OrderCreated(_, _, _, _, _, _, _) => OrderCreatedType
    case OrderCancelled(_, _, _) => OrderCancelledType
    case InventoryReserved(_, _, _, _, _) => InventoryReservedType
    case ReservationFailed(_, _, _, _) => ReservationFailedType
    case PaymentCreated(_, _, _, _) => PaymentCreatedType
    case PaymentCreationFailed(_, _, _) => PaymentCreationFailedType
    case PaymentCaptured(_, _, _, _) => PaymentCapturedType
    case PaymentFailed(_, _, _, _, _) => PaymentFailedType
  }

  /** The types a consumer is created for. */
  predicate Consumed(t: EventType) {
    t == InventoryReservedType || t == ReservationFailedType || t == PaymentCapturedType
    || t == PaymentFailedType || t == PaymentCreationFailedType
  }

  class TopicConsumer {
    const service: OrderService
    const expected: EventType
    var processed: set<string>

    constructor (service: OrderService, expected: EventType)
      requires Consumed(expected)
      ensures this.service == service && this.expected == expected && processed == {}
    {
      this.service, this.expected, processed := service, expected, {};
    }

    /** The handler a consumer is created with. */
    method HandleEvent(event: Event, now: Clock) returns (ok: bool)
      requires service.repository.Valid() && Consumed(TypeOf(event))
      modifies service.repository
      ensures service.repository.Valid()
      ensures CommandOf(event).Some?
              && service.repository.View() ==
                 Handle(old(service.repository.View()), event.orderID, CommandOf(event).value, now)
              && ok == Reply(old(service.repository.View()), event.orderID, CommandOf(event).value, now).Ok?
      ensures Consistent(old(service.repository.View())) ==>
                && EventEffect(old(service.repository.View()), event, now, service.repository.View())
                && (ok <==> event.orderID in old(service.repository.View()).orders)
    {
      hide Represents, Handle, Reply, Consistent, EventEffect;
      if Consistent(service.repository.View()) {
        EventIs(service.repository.View(), event, now);
      }
      var r: Result<Order, OrderError> := Err(OrderNotFound);
      match event {
        case InventoryReserved(id, _, _, _, _) => r := service.MarkInventoryReserved(id, now);
        case ReservationFailed(id, _, _, reason) => r := service.MarkInventoryReservationFailed(id, reason, now);
        case PaymentCaptured(id, _, _, _) => r := service.MarkPaymentCaptured(id, now);
        case PaymentFailed(id, _, _, _, reason) => r := service.MarkPaymentFailed(id, reason, now);
        case PaymentCreationFailed(id, _, reason) => r := service.MarkPaymentCreationFailed(id, reason, now);
        case _ => assert false;
      }
      ok := r.Ok?;
    }

    /**
     One delivery. `markOk` says whether the deduplicator records it. A message is committed only if it was skipped,
     had been processed, or took effect and was recorded; the effect does not depend on the record.
     */
    method HandleMessage(eventID: string, event: Event, now: Clock, markOk: bool) returns (commit: bool)
      requires service.repository.Valid() && Consumed(expected)
      modifies this, service.repository
      ensures service.repository.Valid()
      ensures old(processed) <= processed <= old(processed) + {eventID}
      ensures TypeOf(event) != expected ==>
                commit && processed == old(processed) && service.repository.View() == old(service.repository.View())
      ensures TypeOf(event) == expected && eventID in old(processed) ==>
                commit && service.repository.View() == old(service.repository.View())
      ensures TypeOf(event) == expected && eventID !in old(processed) ==>
                && CommandOf(event).Some?
                && service.repository.View() ==
                   Handle(old(service.repository.View()), event.orderID, CommandOf(event).value, now)
                && (commit <==> eventID in processed)
                && (commit <==>
                    markOk && Reply(old(service.repository.View()), event.orderID, CommandOf(event).value, now).Ok?)
      ensures TypeOf(event) == expected && eventID !in old(processed) && Consistent(old(service.repository.View())) ==>
                && EventEffect(old(service.repository.View()), event, now, service.repository.View())
                && (commit <==> markOk && event.orderID in old(service.repository.View()).orders)
    {
      hide Represents, Handle, Reply, Consistent, EventEffect;
      if TypeOf(event) != expected {
        return true;
      }
      if eventID in processed {
        return true;
      }
      var ok := HandleEvent(event, now);
      if !ok || !markOk {
        return false;
      }
      processed := processed + {eventID};
      commit := true;
    }
  }
}
