/** `EventQueue` (src/event-queue.ts): a synchronous publish/subscribe hub
    that freezes every event and queues the events dispatched while a
    delivery is running. */
module EventQueues {
  import opened DeepFreeze
  import opened Dispatching

  /** The fields of a queue at one moment. */
  datatype QueueState = QueueState(subscribers: seq<object>, dispatching: bool,
                                   queuedEvents: seq<Node>, delivered: seq<Delivery>)

  /** One `dispatch(e)` as a change of the queue's fields: behind a running
      delivery the event is only queued; otherwise the event and then the
      queue are delivered and drained as `Drain` describes. */
  ghost predicate DispatchStep(before: QueueState, after: QueueState, e: Node, react: Reaction, fuel: nat)
  {
    && after.subscribers == before.subscribers
    && (before.dispatching ==>
          after == before.(queuedEvents := before.queuedEvents + [e]))
    && (!before.dispatching ==>
          var d := Drain(before.subscribers, react, e, before.queuedEvents, fuel);
          && !after.dispatching && after.queuedEvents == d.rest
          && after.delivered == before.delivered + Blocks(before.subscribers, d.order))
  }

  class EventQueue {
    var subscribers: seq<object>
    var dispatching: bool
    var queuedEvents: seq<Node>
    /** Every `subscriber.next(event)` performed so far, in order. */
    ghost var delivered: seq<Delivery>

    /** Every queued event lies in `nodes` and is frozen. */
    ghost predicate QueuedWithin(nodes: set<Node>)
      reads this, nodes
    {
      forall q :: q in queuedEvents ==> q in nodes && q.frozen
    }

    /** The queue's fields at this moment. */
    ghost function Snapshot(): QueueState
      reads this
    {
      QueueState(subscribers, dispatching, queuedEvents, delivered)
    }

    /** The whole effect of one `dispatch(e)`, as promised by `Dispatch`. */
    twostate predicate Dispatched(e: Node, nodes: set<Node>, react: Reaction, fuel: nat)
      reads this, e, nodes
    {
      && DispatchStep(old(Snapshot()), Snapshot(), e, react, fuel)
      && e.frozen && QueuedWithin(nodes) && FreezingOnly(nodes)
    }

    constructor ()
      ensures subscribers == [] && !dispatching && queuedEvents == [] && delivered == []
    {
      subscribers := [];
      dispatching := false;
      queuedEvents := [];
      delivered := [];
    }

    /** Subscribing to `event$` appends the subscriber and changes nothing
        else; it receives only events dispatched afterwards. */
    method Subscribe(s: object)
      modifies this`subscribers
      ensures subscribers == old(subscribers) + [s]
    {
      subscribers := subscribers + [s];
    }

    /** The `Observer` entry point: exactly `dispatch`. */
    method Next(e: Node, ghost nodes: set<Node>, react: Reaction, fuel: nat)
      requires e in nodes && Closed(nodes) && ReactsWithin(react, subscribers, nodes) && QueuedWithin(nodes)
      modifies this, nodes
      ensures subscribers == old(subscribers) && e.frozen && QueuedWithin(nodes)
      ensures FreezingOnly(nodes)
      ensures old(dispatching) ==>
                dispatching && queuedEvents == old(queuedEvents) + [e] && delivered == old(delivered)
      ensures !old(dispatching) ==>
                var d := Drain(subscribers, react, e, old(queuedEvents), fuel);
                !dispatching && queuedEvents == d.rest && delivered == old(delivered) + Blocks(subscribers, d.order)
    {
      Dispatch(e, nodes, react, fuel);
    }

    /** `dispatch(event)`: freezes the event; while a delivery is running it
        only queues the event; otherwise it delivers the event to every
        subscriber in subscription order (each subscriber's own dispatches
        being queued meanwhile), clears the flag, and then dispatches the
        most recently queued event, if any. */
    method Dispatch(e: Node, ghost nodes: set<Node>, react: Reaction, fuel: nat)
      requires e in nodes && Closed(nodes) && ReactsWithin(react, subscribers, nodes) && QueuedWithin(nodes)
      modifies this, nodes
      decreases fuel, if dispatching then 0 else 4
      ensures subscribers == old(subscribers) && e.frozen && QueuedWithin(nodes)
      ensures FreezingOnly(nodes)
      ensures old(dispatching) ==>
                dispatching && queuedEvents == old(queuedEvents) + [e] && delivered == old(delivered)
      ensures !old(dispatching) ==>
                var d := Drain(subscribers, react, e, old(queuedEvents), fuel);
                !dispatching && queuedEvents == d.rest && delivered == old(delivered) + Blocks(subscribers, d.order)
    {
      var _ := Freeze(e, nodes);
      if dispatching {
        queuedEvents := queuedEvents + [e];
      } else {
        DeliverAndDrain(e, nodes, react, fuel);
      }
    }

    /** The idle branch of `dispatch`: set the flag, deliver to every
        subscriber, clear the flag, then dispatch the last queued event. */
    method DeliverAndDrain(e: Node, ghost nodes: set<Node>, react: Reaction, fuel: nat)
      requires !dispatching && e in nodes && e.frozen
      requires Closed(nodes) && ReactsWithin(react, subscribers, nodes) && QueuedWithin(nodes)
      modifies this, nodes
      decreases fuel, 3
      ensures subscribers == old(subscribers) && e.frozen && QueuedWithin(nodes)
      ensures FreezingOnly(nodes)
      ensures var d := Drain(subscribers, react, e, old(queuedEvents), fuel);
              !dispatching && queuedEvents == d.rest && delivered == old(delivered) + Blocks(subscribers, d.order)
    {
      dispatching := true;
      DeliverToAll(e, nodes, react, fuel);
      dispatching := false;
      ghost var delivered1 := delivered;
      DispatchLastQueued(nodes, react, fuel);
      DrainLog(subscribers, react, e, old(queuedEvents), fuel, old(delivered), delivered1, delivered);
    }

    /** `if (queuedEvents.length > 0) dispatch(queuedEvents.pop())`, once
        the delivery is over. */
    method DispatchLastQueued(ghost nodes: set<Node>, react: Reaction, fuel: nat)
      requires !dispatching
      requires Closed(nodes) && ReactsWithin(react, subscribers, nodes) && QueuedWithin(nodes)
      modifies this, nodes
      decreases fuel, 2
      ensures subscribers == old(subscribers) && !dispatching && QueuedWithin(nodes)
      ensures FreezingOnly(nodes)
      ensures var d := DrainQueue(subscribers, react, old(queuedEvents), fuel);
              queuedEvents == d.rest && delivered == old(delivered) + Blocks(subscribers, d.order)
    {
      if |queuedEvents| > 0 && fuel > 0 {
        var next := queuedEvents[|queuedEvents| - 1];
        queuedEvents := queuedEvents[..|queuedEvents| - 1];
        Dispatch(next, nodes, react, fuel - 1);
      }
    }

    /** The `forEach` over the subscribers, with `dispatching` set. */
    method DeliverToAll(e: Node, ghost nodes: set<Node>, react: Reaction, fuel: nat)
      requires dispatching && e in nodes && e.frozen
      requires Closed(nodes) && ReactsWithin(react, subscribers, nodes) && QueuedWithin(nodes)
      modifies this, nodes
      decreases fuel, 2
      ensures subscribers == old(subscribers) && dispatching && e.frozen && QueuedWithin(nodes)
      ensures FreezingOnly(nodes)
      ensures delivered == old(delivered) + Deliveries(subscribers, e)
      ensures queuedEvents == old(queuedEvents) + Reactions(subscribers, react, e)
    {
      var i := 0;
      while i < |subscribers|
        invariant 0 <= i <= |subscribers|
        invariant subscribers == old(subscribers) && dispatching && e.frozen && QueuedWithin(nodes)
        invariant FreezingOnly(nodes)
        invariant delivered == old(delivered) + Deliveries(subscribers[..i], e)
        invariant queuedEvents == old(queuedEvents) + Reactions(subscribers[..i], react, e)
      {
        Notify(subscribers[i], e, nodes, react, fuel);
        assert subscribers[..i + 1][..i] == subscribers[..i];
        i := i + 1;
      }
      assert subscribers[..i] == subscribers;
    }

    /** `subscriber.next(event)`: one delivery, during which the subscriber
        dispatches its reactions; they are queued, since `dispatching` is set. */
    method Notify(s: object, e: Node, ghost nodes: set<Node>, react: Reaction, fuel: nat)
      requires dispatching && s in subscribers && e in nodes && e.frozen
      requires Closed(nodes) && ReactsWithin(react, subscribers, nodes) && QueuedWithin(nodes)
      modifies this, nodes
      decreases fuel, 1
      ensures subscribers == old(subscribers) && dispatching && e.frozen && QueuedWithin(nodes)
      ensures FreezingOnly(nodes)
      ensures delivered == old(delivered) + [Delivery(s, e, true)]
      ensures queuedEvents == old(queuedEvents) + react(s, e)
    {
      delivered := delivered + [Delivery(s, e, e.frozen)];
      var reactions := react(s, e);
      var j := 0;
      while j < |reactions|
        invariant 0 <= j <= |reactions|
        invariant subscribers == old(subscribers) && dispatching && e.frozen && QueuedWithin(nodes)
        invariant FreezingOnly(nodes)
        invariant delivered == old(delivered) + [Delivery(s, e, true)]
        invariant queuedEvents == old(queuedEvents) + reactions[..j]
      {
        Dispatch(reactions[j], nodes, react, fuel);
        j := j + 1;
      }
      assert reactions[..j] == reactions;
    }
  }
}
