# sparix core in Dafny

sparix is a small TypeScript library for application state. It has four parts:

- An **event queue** (`EventQueue`, and its older twin `EventBus`). This is a synchronous publish/subscribe hub. It deep-freezes every event before anything sees it. It delivers an event to every subscriber in subscription order. An event dispatched while a delivery is running is queued. The queue is drained last-in-first-out once the delivery is over.
- A **core** (`Core`). It keeps one handler per event class. It subscribes to an optional event queue, and it forwards its own dispatches to that queue.
- A **store** (`Store`). It extends the core with one immutable state. Updaters are folded over the state in call order by a single `scan`. The result is published on a `BehaviorSubject`. Subscribers of `state$`, `map`, `select`, `pick` and `filter` are not notified again of a value identical (`===`) to the last one they received. The model compares values by content, so equal contents stand for the same reference. `execute` and `applyResult` apply an update first and dispatch its event second.
- **`update`**, which refuses a function passed as the whole diff and otherwise merges the diff, and **`freeze`**, a recursive in-place deep freeze.

The model is imperative wherever the source is:

- `Freeze` walks a heap of `Node` objects.
- `EventQueue`, `EventBus`, `Core` and `Store` are classes whose methods update their fields.

What they promise is proved against pure specification functions:

- `Dispatching.Drain`: the order in which an outermost dispatch delivers events, and what it leaves queued.
- `Stores.Scan`: the fold of the updaters.
- `Stores.Push`: one step of the store.
- `Streams.Distinct`: `distinctUntilChanged`.

Lemmas state the source's properties about these functions.

Modules:

- `Results`: option and result types.
- `DeepFreeze`: `src/freeze.ts`.
- `Dispatching`: the delivery order shared by both dispatchers.
- `EventQueues`: `src/event-queue.ts`.
- `EventBuses`: `src/event-bus.ts`.
- `Handlers`: `src/core.ts`.
- `Diffs`: `src/update.ts` and the `PartialDiff` shape of `src/store.ts`.
- `Streams`: the derived streams of `src/store.ts`.
- `Stores`: `src/store.ts`.

Subscribers are abstract. A `Reaction` gives, for each subscriber and event, the events that subscriber dispatches back while it handles the event. It depends on nothing else, so a subscriber that reacts differently to a second delivery of the same event (for example, dispatching it back only the first time) cannot be expressed. A `fuel` bound caps how many queued events one outermost dispatch pops, because subscribers may keep dispatching forever.

The merge itself is done by the `immupdate` library, which is not part of this model. `Diffs.Merge` is the behaviour this model assumes of it, following the `PartialDiff` type. Each key of a diff holds one of:

- a literal value that is not a plain object (`Scalar`), which replaces the key's value;
- a `ValueUpdater`, which is applied to the current value;
- a nested diff, which is merged into the current object. An object literal in a diff is always this case (`LiteralDiff` encodes it so), so each JavaScript diff has exactly one encoding.

Keys absent from the diff keep their values.

## Model

| member | source | states |
|---|---|---|
| DeepFreeze.Freeze | src/freeze.ts:1-14 | returns `o` itself and leaves it frozen; no property changes and no node is ever unfrozen; a node that was not frozen before is frozen afterwards exactly when a path of references leads to it from `o` through nodes that were all unfrozen before the call (so already-frozen nodes are not entered); every node it froze has all its children frozen |
| DeepFreeze.FrozenAlongPath | src/freeze.ts:2-11 | when `o` and every newly frozen node have all their children frozen, every node on a path from `o` is frozen (the induction behind `Freeze`'s completeness) |
| Dispatching.Deliveries | src/event-queue.ts:44-46 | one delivery of the event per subscriber, in subscription order, each with the event frozen |
| Dispatching.Drain | src/event-queue.ts:43-50 | defines an outermost dispatch of `e` over the queued `stack`: deliver `e`, push what the subscribers dispatch, then drain; its properties are the lemmas below |
| Dispatching.DrainQueue | src/event-queue.ts:48-50 | defines the drain: while events are queued and fuel remains, pop the last one and dispatch it as an outermost dispatch |
| Dispatching.BlocksAt | src/event-queue.ts:44-50 | the `i`-th delivered event reaches subscriber `j` at position `i * #subscribers + j` of the log, so each event reaches every subscriber before the next event reaches any |
| Dispatching.BlocksLength | src/event-queue.ts:44-46 | the log has one delivery per subscriber per delivered event |
| Dispatching.DrainLog | src/event-queue.ts:43-50 | delivering `e` and then draining the queue appends exactly the blocks of `Drain`'s delivery order to the log |
| Dispatching.DrainQueueBound | src/event-queue.ts:48-50 | at most one pop per unit of fuel, and events stay queued only when the fuel ran out |
| Dispatching.DrainDeliversFirst | src/event-queue.ts:43-50 | an outermost dispatch delivers `e` first; with fuel to spare it leaves nothing queued |
| Dispatching.DrainIsLifo | src/event-queue.ts:37-49 | after `e`, the next event delivered is the one queued most recently |
| Dispatching.DrainQueueSplit | src/event-queue.ts:37-49 | the queue is a stack: everything above a point is drained, with all it causes to be dispatched, before any event below it is popped, and the part below is only reached if that drain finished |
| Dispatching.DrainQueueLifo | src/event-queue.ts:37-49 | of any two queued events, once the drain finishes the one queued later was delivered before the one queued earlier |
| Dispatching.DrainQueueFuel | src/event-queue.ts:48-50 | fuel only bounds the drain: a drain that leaves nothing queued delivers the same events in the same order with any more fuel |
| Dispatching.DrainFuel | src/event-queue.ts:35-52 | the same for a whole outermost dispatch |
| Dispatching.DrainQueueConserves | src/event-queue.ts:37-49 | every event queued, or dispatched during a delivery, is delivered exactly once or is still queued |
| Dispatching.DrainConserves | src/event-queue.ts:35-52 | the same for a whole outermost dispatch, counting `e` and the events already queued |
| EventQueues.EventQueue.constructor | src/event-queue.ts:14-22 | no subscribers, not dispatching, nothing queued, nothing delivered |
| EventQueues.EventQueue.Subscribe | src/event-queue.ts:19-21 | appends the subscriber and changes nothing else |
| EventQueues.EventQueue.Next | src/event-queue.ts:24-26 | exactly the contract of `Dispatch` |
| EventQueues.EventQueue.Dispatch | src/event-queue.ts:35-52 | freezes the event; while delivering, only appends it to the queue and delivers nothing; otherwise performs exactly the deliveries of `Drain` in its order, clears the flag and leaves `Drain`'s remainder queued; only freezing happens to other nodes |
| EventQueues.EventQueue.DeliverAndDrain | src/event-queue.ts:43-50 | the idle branch: the deliveries and the remainder of `Drain` |
| EventQueues.EventQueue.DispatchLastQueued | src/event-queue.ts:48-50 | pops the last queued event and dispatches it, with the deliveries and remainder of `DrainQueue` |
| EventQueues.EventQueue.DeliverToAll | src/event-queue.ts:44-46 | delivers the event to every subscriber in order, and the queue grows by exactly what the subscribers dispatched, in order |
| EventQueues.EventQueue.Notify | src/event-queue.ts:45 | one delivery of the frozen event; the subscriber's own dispatches are queued, not delivered |
| EventBuses.EventBus.constructor | src/event-bus.ts:11-19 | no subscribers, not dispatching, nothing queued, nothing delivered |
| EventBuses.EventBus.Subscribe | src/event-bus.ts:16-18 | appends the subscriber and changes nothing else |
| EventBuses.EventBus.Dispatch | src/event-bus.ts:21-35 | the same contract as `EventQueue.Dispatch` |
| EventBuses.EventBus.DeliverAndDrain | src/event-bus.ts:26-33 | the idle branch: the deliveries and the remainder of `Drain` |
| EventBuses.EventBus.DispatchLastQueued | src/event-bus.ts:31-33 | pops and dispatches the last queued event |
| EventBuses.EventBus.DeliverToAll | src/event-bus.ts:27-29 | delivers to every subscriber in order; the queue grows by the subscribers' dispatches |
| EventBuses.EventBus.Notify | src/event-bus.ts:28 | one delivery; the subscriber's dispatches are queued |
| Handlers.Core.constructor | src/core.ts:17-21 | with a queue, the core is appended to its subscribers exactly once and nothing else of the queue changes; no handlers |
| Handlers.Core.DispatchEvent | src/core.ts:23-25 | without a queue nothing changes and nothing is thrown, event or no event; with one, a missing event throws the `TypeError` of `freeze` and changes nothing, and a present one changes the queue's fields exactly as `dispatch(e)` changes them |
| Handlers.Core.On | src/core.ts:27-30 | the class now maps to the new handler; every other class keeps its handler or its absence |
| Handlers.Core.HandleEvent | src/core.ts:32-37 | a handler is called exactly when one is registered for the event's own class, and it is that handler; otherwise nothing happens and nothing fails |
| Diffs.Merge | src/store.ts:45-47 | the keys are those of the state and the diff; every key the diff does not mention keeps its value |
| Diffs.Update | src/update.ts:4-12 | fails with the `update()`/`updateWith()` message exactly when the diff is a function; otherwise it is the merge |
| Diffs.UpdateWith | src/update.ts:14-15 | building it never fails; applied to any state it is `update(state, d)` |
| Diffs.Apply | src/store.ts:45-47 | defines the new value of one key: a literal, the updater applied to the current value, or the nested diff merged into the current object (an empty one when there is none) |
| Diffs.LiteralDiff | src/store.ts:124-126 | a value used as a diff has exactly the value's keys; object literals become nested diffs |
| Diffs.MergeReplace | src/store.ts:45-47 | a literal that is not a plain object, at a top-level key, becomes that key's value, and nothing else changes |
| Diffs.MergeTransform | src/store.ts:37-39 | a `ValueUpdater` is applied to the key's current value (`undefined` when missing) |
| Diffs.MergeNestedField | src/store.ts:41-47 | a nested diff changes only the nested field it names |
| Diffs.MergeEmpty | src/store.ts:45-47 | the empty diff changes nothing |
| Diffs.MergeDisjointLiterals | src/store.ts:45-47 | literals at new keys, object literals included, add exactly those keys with those values and keep the old ones |
| Diffs.WithinEmpty | src/store.ts:45-47 | where no object exists yet, an object literal is built afresh, with no stale key |
| Diffs.MergeLiteral | src/store.ts:124-126 | merging a state as a literal diff into a state it covers yields that state |
| Diffs.LiteralEntryApplies | src/store.ts:124-126 | each key of such a literal gets its own value |
| Diffs.WithinItself | src/store.ts:124-126 | every state is covered by itself, so re-applying the current state as a diff changes nothing |
| Streams.Distinct | src/store.ts:72 | `distinctUntilChanged()`: never more notifications than emissions, and none exactly when nothing was emitted |
| Streams.DistinctNoRepeats | src/store.ts:72 | `distinctUntilChanged` never lets the same value through twice in a row |
| Streams.DistinctEnds | src/store.ts:72 | the first value always gets through, and the last value let through is the last value emitted |
| Streams.DistinctStep | src/store.ts:72 | a new value is notified exactly when it differs from the previous one, and it is then appended |
| Streams.DistinctOnlyEmitted | src/store.ts:72 | every value let through was emitted |
| Streams.MapStreamFuses | src/store.ts:79-81 | `map(project)` notifies exactly the runs of distinct projected values of all emitted states, with projected values compared by content |
| Streams.MapStream | src/store.ts:79-81 | defines `state$.map(project).distinctUntilChanged()`; `MapStreamFuses` states what it notifies |
| Streams.Select | src/store.ts:83-85 | defines `select(key)` as `map(state => state[key])` |
| Streams.SelectNotifies | src/store.ts:83-85 | a new state notifies its value at `key` exactly when that value differs from the previous state's value there |
| Streams.Pick | src/store.ts:87-95 | defines `pick(...keys)` as the picked objects, compared field by field; `PickNotifies` states what it notifies |
| Streams.FilterStream | src/store.ts:97-99 | every value `filter(predicate)` notifies satisfies the predicate; `FilterNotifies` states which values are notified |
| Streams.FilterNotifies | src/store.ts:97-99 | a new value is notified exactly when it satisfies the predicate, differs from the previous value and differs from the last value notified; otherwise nothing is |
| Streams.PickFields | src/store.ts:87-93 | the picked object has exactly the listed keys, each with the state's value |
| Streams.ShallowEqualIsEquality | src/store.ts:94 | field-wise comparison of picked objects holds exactly for equal objects |
| Streams.DistinctShallowIsDistinct | src/store.ts:94 | `distinctUntilChanged(shallowEqual)` notifies the same values as `distinctUntilChanged()` on picked objects |
| Streams.PickNotifies | src/store.ts:87-95 | a new state notifies its picked object exactly when that object differs from the previous state's picked object |
| Streams.PickIgnoresOtherKeys | src/store.ts:87-95 | a new state that agrees with the previous one on the picked keys produces no `pick` notification |
| Stores.StateReducer | src/store.ts:57-61 | an updater returning the previous state itself keeps it; the reduction fails exactly when the updater returns a function as the diff |
| Stores.Scan | src/store.ts:65-66 | defines `scan(stateReducer, initialState)`: one state per updater until the first failure; its properties are `ScanStep`, `ScanStops`, `ScanIsFold` and `ScanExtends` |
| Stores.Push | src/store.ts:101-103 | the updater is always logged; an error is reported exactly when it closes an open pipeline; a changed state is always emitted |
| Stores.ScanStep | src/store.ts:57-66 | one more updater: ignored after a failure, otherwise reduced against the last state, either adding a state or stopping the fold with its error |
| Stores.ScanStops | src/store.ts:57-66 | without an error there is one state per updater; with one, the fold stopped at the first failing updater, with that updater's error |
| Stores.ScanIsFold | src/store.ts:57-66 | the `i`-th updater receives the state produced by those before it (the initial state for the first), and its result is the `i`-th state |
| Stores.ScanGrows | src/store.ts:57-66 | the updater that adds a state receives the state before it |
| Stores.ScanExtends | src/store.ts:65-66 | later updaters never rewrite earlier states; after a failure nothing more is produced |
| Stores.ResetRestoresInitial | src/store.ts:124-126 | `resetState`'s updater brings the initial state back whenever the current state has no key the initial state lacks |
| Stores.EmittedStatesAppend | src/store.ts:63-68 | the states emitted grow by one exactly when a state is emitted |
| Stores.PushKeepsConsistent | src/store.ts:57-103 | pushing an updater keeps the current state and the error equal to those of the fold of all updaters |
| Stores.PushNotifies | src/store.ts:71-103 | `state$` notifies a new state exactly when it differs from the current one; an ignored or failing updater notifies nothing |
| Stores.PushSame | src/store.ts:57-61 | an updater that returns the previous state itself keeps the state; it is published again, but `state$` notifies nothing |
| Stores.PushConstant | src/store.ts:105-107 | `updateState(d)` on an open pipeline closes it with the `update` error when `d` is a function, and otherwise emits the merge |
| Stores.PushAfterFailure | src/store.ts:101-103 | on a closed pipeline an updater changes nothing but the log of updaters |
| Stores.RecordKeepsConsistent | src/store.ts:109-122 | recording a dispatched event keeps the store consistent and emits no state |
| Stores.Store.constructor | src/store.ts:54-69 | the initial state is current and is the one notification a new `state$` subscriber receives; the core is subscribed to the queue when there is one |
| Stores.Store.CurrentState | src/store.ts:75-77 | the last state emitted while no updater has failed; the first error afterwards |
| Stores.Store.StateStream | src/store.ts:71-73 | what a `state$` subscriber receives starts with the initial state and ends with the last state emitted |
| Stores.Store.MapStream | src/store.ts:79-81 | `map(project)` over everything the store emitted |
| Stores.Store.SelectStream | src/store.ts:83-85 | `select(key)` over everything the store emitted |
| Stores.Store.PickStream | src/store.ts:87-95 | `pick(...keys)` over everything the store emitted |
| Stores.Store.FilterStream | src/store.ts:97-99 | every value `filter(predicate)` notifies satisfies the predicate; `Streams.FilterNotifies` states which emissions are notified |
| Stores.Store.Update | src/store.ts:101-103 | the new state is `Push` of the old; the fold invariant is kept; `state$` grows by the new state exactly when it differs from the old one |
| Stores.Store.UpdateState | src/store.ts:105-107 | exactly `update(_ => d)` |
| Stores.Store.ResetState | src/store.ts:124-126 | exactly `updateState(initialState)`, which brings the initial state back when the current state has no key the initial state lacks |
| Stores.Store.DispatchAndRecord | src/store.ts:109-122 | the queue changes as `dispatch(e)` changes it; with a queue a missing event throws the `TypeError` of `freeze` and changes nothing, and a present one ends up frozen while nodes only gain frozenness; without a queue no node changes and nothing is thrown; no state is emitted (subscribers' effects on the store are not modelled) |
| Stores.Store.Dispatch | src/store.ts:109-111 | the state never changes (subscribers' effects on the store are not modelled); the event computed from the current state is dispatched, and a missing one throws the `TypeError` of `freeze` when there is a queue; after a failure reading the state fails, nothing is dispatched and no node changes; a dispatched event is frozen and nodes only gain frozenness |
| Stores.Store.ApplyResult | src/store.ts:119-122 | the update is pushed and published first, then the event is dispatched with no check that there is one: with a queue, a missing event throws the `TypeError` of `freeze` after the state has changed; a refused update stops before the dispatch; on a closed pipeline the update is dropped and the event still dispatched; the event graph changes only when a present event is dispatched, and then only by freezing |
| Stores.Store.Execute | src/store.ts:113-117 | the operation sees the pre-update state; then exactly `applyResult` of its result, including the `TypeError` of `freeze` after the update when its event is missing and there is a queue; after a failure reading the state fails and nothing happens, to the store, the queue or any node |

## Left out

- Immupdate's merge is not part of this model. `Diffs.Merge` is an assumption shaped by `PartialDiff`. In particular, a nested diff at a key that holds no object is merged into an empty object, and a `ValueUpdater` at a missing key receives `undefined`.
- RxJS (`Subject`, `BehaviorSubject`, `Observable.create`, the operators) is modelled as what it computes synchronously. The fold is `Scan`, emissions are a log, and each derived stream is the sequence a subscriber since construction receives. Subscriptions made later, unsubscription and schedulers are not modelled.
- The `logging` flag and console output of `EventQueue` (`src/event-queue.ts:11, 28-30, 40-42`) have no effect on state and are left out, and so is its `error` and `complete`.
- Subscriber callbacks are the abstract `Reaction`. What a handler does beyond dispatching events (its effect on stores) is application code and is not modelled. A subscriber is assumed not to throw; there is no `try`/`finally` around delivery, so a throwing subscriber would leave `dispatching` set.
- EventQueues.EventQueue.Dispatch: a drain is bounded by `fuel` pops; when the fuel runs out, events stay queued instead of being delivered. The same holds for the store methods that dispatch. It takes a present event: `dispatch(undefined)` throws from `freeze` before any field changes, and that case is modelled where the core hands an event over, in `Handlers.Core.DispatchEvent`.
- EventBuses.EventBus.Dispatch: the same `fuel` bound on the drain as `EventQueue.Dispatch`, and it likewise takes a present event.
- `Object.freeze` making writes throw is not modelled; frozenness is a flag. States are immutable values, so freezing published states (`src/store.ts:63, 67`) has nothing left to model.
- Streams.MapStream: `distinctUntilChanged()` (`src/store.ts:72, 80`) compares by reference (`===`), and the model compares by value. In the source, a projector that returns a fresh object, such as `s => ({a: s.a})`, notifies on every emitted state; the model suppresses it whenever its content repeats. The same holds for `Streams.MapStreamFuses` and `Stores.Store.MapStream`. `state$`, `select` and `filter` make the same substitution: whether the assumed merge returns a new object or keeps an old one is not modelled, and states and values are compared by content.
- `shallowEqual` (`src/store.ts:14`) is not part of this model. `Streams.ShallowEqual` compares keys and values; values have no identity, so equal values stand for the same reference. Likewise a diff provider returning `previousState` itself (`src/store.ts:59`) is the `Same` result rather than a reference comparison.
- Stores.Store.Update: an updater that fails is reported to the caller as `Fail` and closes the pipeline. In RxJS 5, `scan` hands the error to the `BehaviorSubject`, which then throws it from `getValue`. Whether the error also reaches the caller of `update` depends on whether some `state$` subscriber lacks an error handler. The model always reports it. The same applies to `UpdateState` and `ResetState`.
- Stores.Store.ApplyResult: a refused update is reported as `Fail` and stops it before the event is dispatched, as under `Stores.Store.Update`; whether RxJS rethrows it to the caller is not modelled.
- Stores.Store.Execute: the same as `ApplyResult`, for the update it pushes.
- `src/hero.ts` (a demo using another constructor order and a missing module) and `src/event-class.ts` (a type) are not part of this model. The store's constructor takes `(initialState, eventQueue)` as in `src/store.ts:54`.
- Diffs.Entry: a literal that is a plain object cannot be written as a wholesale replacement (`Replace` holds a `Scalar`). The assumed merge merges an object literal into the current object, so object literals are nested diffs; a merge that replaced objects wholesale is not offered.
- Handlers.Core.HandleEvent: delivery does not call it. The core subscribes itself to the queue (`Core.constructor`), and what `handleEvent` then does is the handler's application code. The events a handler dispatches back are the core's part of the queue's `Reaction`, so routing a delivery to `handleEvent` is not stated as a lemma.
- Event classes are the `ctor` number of a node. Handlers are identified by name; calling them is reported as the handler chosen.
