/** `Core` (src/core.ts): a registry holding one handler per event class,
    subscribed to an optional event queue. */
module Handlers {
  import opened Results
  import opened DeepFreeze
  import opened Dispatching
  import opened EventQueues

  /** A handler passed to `on`.  What it does is application code; only its
      identity matters to the registry. */
  datatype Handler = Handler(name: string)

  /** `dispatchEvent(e)` as a change of the optional queue's fields: a
      missing event makes the queue's `dispatch` throw from `freeze` before
      it changes anything. */
  ghost predicate QueueDispatched(before: Option<QueueState>, after: Option<QueueState>,
                                  e: Node?, react: Reaction, fuel: nat)
  {
    if before.None? then after.None?
    else if e == null then after == before
    else after.Some? && DispatchStep(before.value, after.value, e, react, fuel)
  }

  class Core {
    /** `eventHandlers`: from an event class (a node's `ctor`) to its handler. */
    var eventHandlers: map<nat, Handler>
    const eventQueue: EventQueue?

    /** Subscribes the new core to `eventQueue`, when there is one, exactly
        once; without a queue nothing is subscribed anywhere. */
    constructor (eventQueue: EventQueue?)
      modifies eventQueue
      ensures this.eventQueue == eventQueue && eventHandlers == map[]
      ensures eventQueue != null ==>
                && eventQueue.subscribers == old(eventQueue.subscribers) + [this]
                && eventQueue.dispatching == old(eventQueue.dispatching)
                && eventQueue.queuedEvents == old(eventQueue.queuedEvents)
                && eventQueue.delivered == old(eventQueue.delivered)
    {
      this.eventQueue := eventQueue;
      eventHandlers := map[];
      new;
      if eventQueue != null {
        eventQueue.Subscribe(this);
      }
    }

    /** What `dispatchEvent(e)` needs of the queue, when there is one and
        there is an event. */
    ghost predicate CanDispatch(e: Node?, nodes: set<Node>, react: Reaction)
      reads eventQueue, nodes
    {
      eventQueue != null && e != null ==>
        && e in nodes && Closed(nodes)
        && ReactsWithin(react, eventQueue.subscribers, nodes) && eventQueue.QueuedWithin(nodes)
    }

    /** `dispatchEvent(e)`: without a queue, nothing happens at all, whether
        or not there is an event; with one, `e` itself is handed to the
        queue's `dispatch`, whose first step, `freeze(e)`, throws when the
        event is missing. */
    method DispatchEvent(e: Node?, ghost nodes: set<Node>, react: Reaction, fuel: nat)
      returns (outcome: Outcome<FreezeError>)
      requires CanDispatch(e, nodes, react)
      modifies eventQueue, nodes
      ensures outcome == if eventQueue != null && e == null then Fail(NotAnObject) else Pass
      ensures eventQueue == null || e == null ==> unchanged(nodes)
      ensures eventQueue != null && e != null ==> eventQueue.Dispatched(e, nodes, react, fuel)
      ensures QueueDispatched(old(Queue()), Queue(), e, react, fuel)
    {
      outcome := Pass;
      if eventQueue != null {
        if e == null {
          outcome := Fail(NotAnObject);
        } else {
          eventQueue.Dispatch(e, nodes, react, fuel);
        }
      }
    }

    /** The fields of the queue, if there is one. */
    ghost function Queue(): Option<QueueState>
      reads eventQueue
    {
      if eventQueue == null then None else Some(eventQueue.Snapshot())
    }

    /** `on(cls, h)`: `h` replaces any handler of `cls`; the handlers of the
        other classes stay as they were. */
    method On(cls: nat, h: Handler)
      modifies this`eventHandlers
      ensures cls in eventHandlers && eventHandlers[cls] == h
      ensures forall c :: c != cls ==> (c in eventHandlers <==> c in old(eventHandlers))
      ensures forall c :: c != cls && c in eventHandlers ==> eventHandlers[c] == old(eventHandlers)[c]
    {
      eventHandlers := eventHandlers[cls := h];
    }

    /** `handleEvent(e)`: the handler called, with `e`, is the one registered
        for exactly the event's own class; an event of a class with no
        handler is ignored, without an error and without any change. */
    method HandleEvent(e: Node) returns (called: Option<Handler>)
      ensures called.Some? <==> e.ctor in eventHandlers
      ensures called.Some? ==> called.value == eventHandlers[e.ctor]
    {
      if e.ctor in eventHandlers {
        called := Some(eventHandlers[e.ctor]);
      } else {
        called := None;
      }
    }
  }
}
