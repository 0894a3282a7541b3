/**
 * The `IEventListener`s that the event bag and the aggregator notify. A
 * listener is identified by its registration identity; what it does with a
 * batch is outside the model, so each notification is recorded as a
 * delivery of one batch to one listener.
 */
module Listeners {
  import opened Events
  import opened Seqs

  /** A registered listener; `id` stands for the object's identity. */
  datatype Listener = Listener(id: nat)

  /** One call `listener.onChange(batch)`. */
  datatype Delivery = Delivery(listener: Listener, batch: seq<Event>)

  /** The calls made by notifying every registered listener of `batch`, in registration order. */
  function Deliveries(listeners: seq<Listener>, batch: seq<Event>): seq<Delivery> {
    Map(listeners, (l: Listener) => Delivery(l, batch))
  }

  /**
   * Notifying the registered listeners delivers the same batch to the
   * i-th registration as the i-th call, so a listener receives the batch
   * exactly as often as it is registered, and no other batch.
   */
  lemma DeliveredOncePerRegistration(listeners: seq<Listener>, batch: seq<Event>, l: Listener)
    ensures |Deliveries(listeners, batch)| == |listeners|
    ensures forall i :: 0 <= i < |listeners| ==> Deliveries(listeners, batch)[i] == Delivery(listeners[i], batch)
    ensures multiset(Deliveries(listeners, batch))[Delivery(l, batch)] == multiset(listeners)[l]
    ensures forall d :: d in Deliveries(listeners, batch) ==> d.batch == batch
  {
    MapCountUnique(listeners, (l: Listener) => Delivery(l, batch), l);
  }

  /** Notifying one more listener appends one call. */
  lemma DeliveriesAppend(listeners: seq<Listener>, l: Listener, batch: seq<Event>)
    ensures Deliveries(listeners + [l], batch) == Deliveries(listeners, batch) + [Delivery(l, batch)]
  {
    MapAppend(listeners, [l], (l: Listener) => Delivery(l, batch));
  }
}
