/** The delivery discipline shared by `EventQueue` (src/event-queue.ts) and
    `EventBus` (src/event-bus.ts), stated as functions: which deliveries an
    outermost `dispatch` performs and what it leaves queued. */
module Dispatching {
  import opened DeepFreeze

  /** What a subscriber callback does, synchronously, on receiving an event:
      the events it dispatches back into the same dispatcher, in order.
      Subscribers are identified by object identity. */
  type Reaction = (object, Node) -> seq<Node>

  /** One call `subscriber.next(event)`; `frozen` records whether the event
      was frozen at the moment of delivery. */
  datatype Delivery = Delivery(subscriber: object, event: Node, frozen: bool)

  /** Every event the subscribers dispatch on receiving an event of `nodes`
      lies in `nodes`. */
  ghost predicate ReactsWithin(react: Reaction, subs: seq<object>, nodes: set<Node>)
  {
    forall s, x, y :: s in subs && x in nodes && y in react(s, x) ==> y in nodes
  }

  /** The deliveries of one frozen event: to every subscriber, once each, in
      subscription order. */
  function Deliveries(subs: seq<object>, e: Node): (r: seq<Delivery>)
    ensures |r| == |subs|
    ensures forall j :: 0 <= j < |subs| ==> r[j] == Delivery(subs[j], e, true)
  {
    if subs == [] then [] else Deliveries(subs[..|subs| - 1], e) + [Delivery(subs[|subs| - 1], e, true)]
  }

  /** The events the subscribers dispatch while `e` is being delivered, in
      the order they dispatch them. */
  function Reactions(subs: seq<object>, react: Reaction, e: Node): seq<Node>
  {
    if subs == [] then [] else Reactions(subs[..|subs| - 1], react, e) + react(subs[|subs| - 1], e)
  }

  /** The deliveries of the events of `order`, one whole block per event. */
  function Blocks(subs: seq<object>, order: seq<Node>): seq<Delivery>
  {
    if order == [] then [] else Deliveries(subs, order[0]) + Blocks(subs, order[1..])
  }

  /** All events dispatched during the deliveries of `order`. */
  function AllReactions(subs: seq<object>, react: Reaction, order: seq<Node>): seq<Node>
  {
    if order == [] then [] else Reactions(subs, react, order[0]) + AllReactions(subs, react, order[1..])
  }

  /** `order`: the events delivered, in delivery order; `rest`: what is left
      in `queuedEvents` when the outermost dispatch returns. */
  datatype Drained = Drained(order: seq<Node>, rest: seq<Node>)

  /** An outermost dispatch of `e` with `stack` already queued: deliver `e`
      to every subscriber (every event dispatched meanwhile is pushed), then
      drain the queue. */
  function Drain(subs: seq<object>, react: Reaction, e: Node, stack: seq<Node>, fuel: nat): Drained
    decreases fuel, 1
  {
    var after := DrainQueue(subs, react, stack + Reactions(subs, react, e), fuel);
    Drained([e] + after.order, after.rest)
  }

  /** What happens once a delivery is over: if events are queued, the LAST
      one is popped and dispatched as an outermost dispatch.  `fuel` bounds
      the number of pops, because subscribers may dispatch forever. */
  function DrainQueue(subs: seq<object>, react: Reaction, queued: seq<Node>, fuel: nat): Drained
    decreases fuel, 0
  {
    if queued != [] && fuel > 0 then
      Drain(subs, react, queued[|queued| - 1], queued[..|queued| - 1], fuel - 1)
    else
      Drained([], queued)
  }

  /** The delivery log is made of whole blocks: the `i`-th delivered event
      reaches subscriber `j` at position `i * |subs| + j`, so each event
      reaches every subscriber before the next event reaches any. */
  lemma {:induction false} BlocksAt(subs: seq<object>, order: seq<Node>, i: nat, j: nat)
    requires i < |order| && j < |subs|
    ensures |Blocks(subs, order)| == |order| * |subs|
    ensures i * |subs| + j < |Blocks(subs, order)|
    ensures Blocks(subs, order)[i * |subs| + j] == Delivery(subs[j], order[i], true)
  {
    BlocksLength(subs, order);
    if i > 0 {
      BlocksAt(subs, order[1..], i - 1, j);
      assert i * |subs| + j == |subs| + ((i - 1) * |subs| + j);
    }
  }

  lemma {:induction false} BlocksLength(subs: seq<object>, order: seq<Node>)
    ensures |Blocks(subs, order)| == |order| * |subs|
  {
    if order != [] {
      BlocksLength(subs, order[1..]);
      assert |order| * |subs| == |subs| + (|order| - 1) * |subs|;
    }
  }

  lemma BlocksCons(subs: seq<object>, e: Node, order: seq<Node>)
    ensures Blocks(subs, [e] + order) == Deliveries(subs, e) + Blocks(subs, order)
  {
    assert ([e] + order)[1..] == order;
  }

  /** The deliveries of an outermost dispatch: first `e` reaches every
      subscriber, then come the blocks of the drain. */
  lemma DrainBlocks(subs: seq<object>, react: Reaction, e: Node, stack: seq<Node>, fuel: nat)
    ensures Blocks(subs, Drain(subs, react, e, stack, fuel).order)
            == Deliveries(subs, e) + Blocks(subs, DrainQueue(subs, react, stack + Reactions(subs, react, e), fuel).order)
  {
    var after := DrainQueue(subs, react, stack + Reactions(subs, react, e), fuel);
    assert Drain(subs, react, e, stack, fuel).order == [e] + after.order;
    BlocksCons(subs, e, after.order);
  }

  /** The delivery log of an outermost dispatch: the block of `e` and then
      the drain's blocks together make the blocks of `Drain`'s order. */
  lemma DrainLog(subs: seq<object>, react: Reaction, e: Node, stack: seq<Node>, fuel: nat,
                 log0: seq<Delivery>, log1: seq<Delivery>, log2: seq<Delivery>)
    requires log1 == log0 + Deliveries(subs, e)
    requires log2 == log1 + Blocks(subs, DrainQueue(subs, react, stack + Reactions(subs, react, e), fuel).order)
    ensures log2 == log0 + Blocks(subs, Drain(subs, react, e, stack, fuel).order)
  {
    DrainBlocks(subs, react, e, stack, fuel);
    var first := Deliveries(subs, e);
    var rest := Blocks(subs, DrainQueue(subs, react, stack + Reactions(subs, react, e), fuel).order);
    assert (log0 + first) + rest == log0 + (first + rest);
  }

  lemma AllReactionsCons(subs: seq<object>, react: Reaction, e: Node, order: seq<Node>)
    ensures AllReactions(subs, react, [e] + order) == Reactions(subs, react, e) + AllReactions(subs, react, order)
  {
    assert ([e] + order)[1..] == order;
  }

  /** At most one event per unit of fuel is popped, and events are left
      queued only when the fuel ran out. */
  lemma {:induction false} DrainQueueBound(subs: seq<object>, react: Reaction, queued: seq<Node>, fuel: nat)
    ensures var d := DrainQueue(subs, react, queued, fuel);
            |d.order| <= fuel && (d.rest != [] ==> |d.order| == fuel)
    decreases fuel
  {
    if queued != [] && fuel > 0 {
      var last := queued[|queued| - 1];
      var front := queued[..|queued| - 1];
      DrainQueueBound(subs, react, front + Reactions(subs, react, last), fuel - 1);
    }
  }

  /** The dispatched event is delivered first; an outermost dispatch with
      enough fuel leaves nothing queued. */
  lemma DrainDeliversFirst(subs: seq<object>, react: Reaction, e: Node, stack: seq<Node>, fuel: nat)
    ensures var d := Drain(subs, react, e, stack, fuel);
            1 <= |d.order| <= fuel + 1 && d.order[0] == e
    ensures var d := Drain(subs, react, e, stack, fuel);
            d.rest != [] ==> |d.order| == fuel + 1
  {
    DrainQueueBound(subs, react, stack + Reactions(subs, react, e), fuel);
  }

  /** Last in, first out: after `e` has reached every subscriber, the next
      event delivered is the one queued most recently. */
  lemma DrainIsLifo(subs: seq<object>, react: Reaction, e: Node, stack: seq<Node>, fuel: nat)
    requires fuel > 0 && stack + Reactions(subs, react, e) != []
    ensures var queued := stack + Reactions(subs, react, e);
            var d := Drain(subs, react, e, stack, fuel);
            |d.order| >= 2 && d.order[1] == queued[|queued| - 1]
  {
    var queued := stack + Reactions(subs, react, e);
    var next := Drain(subs, react, queued[|queued| - 1], queued[..|queued| - 1], fuel - 1);
    assert DrainQueue(subs, react, queued, fuel) == next;
    assert next.order[0] == queued[|queued| - 1];
  }

  /** Fuel only bounds the drain: a drain that leaves nothing queued
      delivers the same events, in the same order, with any more fuel. */
  lemma {:induction false} DrainQueueFuel(subs: seq<object>, react: Reaction, queued: seq<Node>, fuel: nat, more: nat)
    requires DrainQueue(subs, react, queued, fuel).rest == [] && fuel <= more
    ensures DrainQueue(subs, react, queued, more) == DrainQueue(subs, react, queued, fuel)
    decreases fuel
  {
    if queued != [] {
      var last, front := queued[|queued| - 1], queued[..|queued| - 1];
      DrainQueueFuel(subs, react, front + Reactions(subs, react, last), fuel - 1, more - 1);
    }
  }

  lemma DrainFuel(subs: seq<object>, react: Reaction, e: Node, stack: seq<Node>, fuel: nat, more: nat)
    requires Drain(subs, react, e, stack, fuel).rest == [] && fuel <= more
    ensures Drain(subs, react, e, stack, more) == Drain(subs, react, e, stack, fuel)
  {
    DrainQueueFuel(subs, react, stack + Reactions(subs, react, e), fuel, more);
  }

  /** The queue is a stack: whatever lies above `below` is drained, together
      with everything it causes to be dispatched, before any event of
      `below` is popped; `below` is only reached if that drain finished. */
  lemma {:induction false} DrainQueueSplit(subs: seq<object>, react: Reaction, below: seq<Node>, above: seq<Node>, fuel: nat)
    ensures var top := DrainQueue(subs, react, above, fuel);
            var d := DrainQueue(subs, react, below + above, fuel);
            && (top.rest != [] ==> d == Drained(top.order, below + top.rest))
            && (top.rest == [] ==>
                  && |top.order| <= fuel
                  && var bottom := DrainQueue(subs, react, below, fuel - |top.order|);
                     d == Drained(top.order + bottom.order, bottom.rest))
    decreases fuel
  {
    DrainQueueBound(subs, react, above, fuel);
    if above == [] {
      assert below + above == below;
    } else if fuel > 0 {
      var last, front := above[|above| - 1], above[..|above| - 1];
      var next := front + Reactions(subs, react, last);
      assert (below + above)[|below + above| - 1] == last;
      assert (below + above)[..|below + above| - 1] + Reactions(subs, react, last) == below + next;
      DrainQueueSplit(subs, react, below, next, fuel - 1);
      var top' := DrainQueue(subs, react, next, fuel - 1);
      if top'.rest == [] {
        var bottom := DrainQueue(subs, react, below, fuel - 1 - |top'.order|);
        assert ([last] + top'.order) + bottom.order == [last] + (top'.order + bottom.order);
      }
    }
  }

  /** Last in, first out, for any two queued events: when the drain
      finishes, the event queued later is delivered before the one queued
      earlier. */
  lemma DrainQueueLifo(subs: seq<object>, react: Reaction, queued: seq<Node>, i: nat, j: nat, fuel: nat)
    requires i < j < |queued| && DrainQueue(subs, react, queued, fuel).rest == []
    ensures var d := DrainQueue(subs, react, queued, fuel);
            exists a, b :: 0 <= a < b < |d.order| && d.order[a] == queued[j] && d.order[b] == queued[i]
  {
    var below, above := queued[..i + 1], queued[i + 1..];
    assert below + above == queued;
    DrainQueueSplit(subs, react, below, above, fuel);
    var top := DrainQueue(subs, react, above, fuel);
    var bottom := DrainQueue(subs, react, below, fuel - |top.order|);
    var d := DrainQueue(subs, react, queued, fuel);
    assert top.rest == [];
    DrainQueueConserves(subs, react, above, fuel);
    assert queued[j] in multiset(above) by { assert above[j - i - 1] == queued[j]; }
    assert multiset(top.order) == multiset(above) + multiset(AllReactions(subs, react, top.order));
    assert queued[j] in multiset(top.order);
    var a :| 0 <= a < |top.order| && top.order[a] == queued[j];
    assert fuel - |top.order| > 0;
    assert bottom.order[0] == queued[i];
    assert d.order[a] == queued[j] && d.order[|top.order|] == queued[i];
  }

  /** Nothing is lost or duplicated: every event that was queued, or was
      dispatched during one of the deliveries, is delivered exactly once or
      is still queued. */
  lemma {:induction false} DrainQueueConserves(subs: seq<object>, react: Reaction, queued: seq<Node>, fuel: nat)
    ensures var d := DrainQueue(subs, react, queued, fuel);
            multiset(d.order) + multiset(d.rest)
            == multiset(queued) + multiset(AllReactions(subs, react, d.order))
    decreases fuel
  {
    if queued != [] && fuel > 0 {
      var last, front := queued[|queued| - 1], queued[..|queued| - 1];
      var next := front + Reactions(subs, react, last);
      DrainQueueConserves(subs, react, next, fuel - 1);
      ConservesStep(subs, react, queued, last, front, DrainQueue(subs, react, next, fuel - 1));
    }
  }

  lemma ConservesStep(subs: seq<object>, react: Reaction, queued: seq<Node>, last: Node, front: seq<Node>, after: Drained)
    requires queued == front + [last]
    requires multiset(after.order) + multiset(after.rest)
             == multiset(front + Reactions(subs, react, last)) + multiset(AllReactions(subs, react, after.order))
    ensures multiset([last] + after.order) + multiset(after.rest)
            == multiset(queued) + multiset(AllReactions(subs, react, [last] + after.order))
  {
    var now := multiset(Reactions(subs, react, last));
    var later := multiset(AllReactions(subs, react, after.order));
    AllReactionsCons(subs, react, last, after.order);
    calc {
      multiset([last] + after.order) + multiset(after.rest);
      multiset([last]) + (multiset(after.order) + multiset(after.rest));
      multiset([last]) + (multiset(front) + now + later);
      multiset(front + [last]) + (now + later);
      multiset(queued) + multiset(AllReactions(subs, react, [last] + after.order));
    }
  }

  /** The same for a whole outermost dispatch: when nothing is left queued,
      the delivered events are exactly `e`, the events queued before, and
      everything dispatched during the deliveries, each once. */
  lemma DrainConserves(subs: seq<object>, react: Reaction, e: Node, stack: seq<Node>, fuel: nat)
    ensures var d := Drain(subs, react, e, stack, fuel);
            multiset(d.order) + multiset(d.rest)
            == multiset([e] + stack) + multiset(AllReactions(subs, react, d.order))
  {
    var queued := stack + Reactions(subs, react, e);
    var after := DrainQueue(subs, react, queued, fuel);
    DrainQueueConserves(subs, react, queued, fuel);
    AllReactionsCons(subs, react, e, after.order);
    calc {
      multiset([e] + after.order) + multiset(after.rest);
      multiset([e]) + (multiset(after.order) + multiset(after.rest));
      multiset([e]) + multiset(stack) + multiset(Reactions(subs, react, e))
        + multiset(AllReactions(subs, react, after.order));
      multiset([e] + stack) + multiset(AllReactions(subs, react, [e] + after.order));
    }
  }

  /** Between two states, the nodes kept their properties and only gained
      frozenness. */
  twostate predicate FreezingOnly(nodes: set<Node>)
    reads nodes
  {
    forall n :: n in nodes ==> n.props == old(n.props) && (old(n.frozen) ==> n.frozen)
  }
}
