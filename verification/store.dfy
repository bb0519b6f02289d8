/** `Store` (src/store.ts): a `Core` holding one state, changed only by
    diff providers folded in call order through one `scan`, published on a
    `BehaviorSubject` and bundled with event dispatches by `execute` and
    `applyResult`.

    The RxJS pipeline is synchronous, so it is modelled as the fold it
    computes (`Scan`) and the log of what the `BehaviorSubject` emitted. */
module Stores {
  import opened Results
  import opened DeepFreeze
  import opened Dispatching
  import opened EventQueues
  import opened Handlers
  import opened Diffs
  import opened Streams

  /** What a diff provider returns: `previousState` itself (compared by
      reference at line 59), or a diff. */
  datatype DiffResult = Same | Patch(diff: DiffArgument)

  /** `DiffProvider<State>`: an updater. */
  type DiffProvider = State -> DiffResult

  /** `OperationResult<State>`: an update and the event that goes with it,
      which may be missing (`undefined`). */
  datatype OperationResult = OperationResult(update: DiffArgument, event: Node?)

  /** `Operation<State>`. */
  type Operation = State -> OperationResult

  /** `updateState(diff)` pushes `state => diff`. */
  function Constant(d: DiffArgument): DiffProvider
  {
    _ => Patch(d)
  }

  /** `stateReducer`: the updater sees the previous state; when it returns
      that state itself the state is kept, otherwise its diff is merged by
      `update`, which refuses a function. */
  function StateReducer(previous: State, p: DiffProvider): (r: Result<State, UpdateError>)
    ensures r.Failure? <==> p(previous).Patch? && p(previous).diff.Callable?
    ensures p(previous).Same? ==> r == Success(previous)
  {
    match p(previous)
    case Same => Success(previous)
    case Patch(d) => Update(previous, d)
  }

  /** What `update$.scan(stateReducer, initialState)` has produced after the
      updaters `ps`: one accumulated state per updater, until an updater
      fails; the error then closes the pipeline and later updaters are not
      reduced. */
  datatype Scanned = Scanned(outputs: seq<State>, error: Option<UpdateError>)

  function Scan(initial: State, ps: seq<DiffProvider>): Scanned
  {
    if ps == [] then Scanned([], None)
    else
      var before := Scan(initial, ps[..|ps| - 1]);
      if before.error.Some? then before
      else
        var previous := if before.outputs == [] then initial else Last(before.outputs);
        match StateReducer(previous, ps[|ps| - 1])
        case Success(s) => Scanned(before.outputs + [s], None)
        case Failure(e) => Scanned(before.outputs, Some(e))
  }

  /** One more updater: after a failure it is ignored; otherwise it
      receives the last state produced (the initial one if none was) and
      either adds a state or stops the fold with its error. */
  lemma ScanStep(initial: State, ps: seq<DiffProvider>, p: DiffProvider)
    ensures var before := Scan(initial, ps);
            var previous := Last([initial] + before.outputs);
            Scan(initial, ps + [p]) ==
              if before.error.Some? then before
              else match StateReducer(previous, p)
                   case Success(s) => Scanned(before.outputs + [s], None)
                   case Failure(e) => Scanned(before.outputs, Some(e))
  {
    assert (ps + [p])[..|ps|] == ps;
    var before := Scan(initial, ps);
    assert Last([initial] + before.outputs) == if before.outputs == [] then initial else Last(before.outputs);
  }

  /** The fold produces one state per updater until an updater fails, and
      then stops at the first failing updater, with that updater's error. */
  lemma {:induction false} ScanStops(initial: State, ps: seq<DiffProvider>)
    ensures var s := Scan(initial, ps);
            && (s.error.None? ==> |s.outputs| == |ps|)
            && (s.error.Some? ==>
                  |s.outputs| < |ps| &&
                  StateReducer(([initial] + s.outputs)[|s.outputs|], ps[|s.outputs|]) == Failure(s.error.value))
  {
    if ps != [] {
      var front := ps[..|ps| - 1];
      var last := ps[|ps| - 1];
      var before := Scan(initial, front);
      ScanStops(initial, front);
      ScanStep(initial, front, last);
      assert front + [last] == ps;
      if before.error.Some? {
        assert Scan(initial, ps) == before;
        assert ps[|before.outputs|] == front[|before.outputs|];
      } else {
        var previous := Last([initial] + before.outputs);
        assert ([initial] + before.outputs)[|before.outputs|] == previous;
        match StateReducer(previous, last)
        case Success(x) =>
          assert Scan(initial, ps) == Scanned(before.outputs + [x], None);
        case Failure(e) =>
          assert Scan(initial, ps) == Scanned(before.outputs, Some(e));
          assert ps[|before.outputs|] == last;
      }
    }
  }

  /** The fold, state by state: the `i`-th updater receives the state
      produced by the updaters before it (the initial state for the first),
      and its result is the `i`-th state. */
  lemma {:induction false} ScanIsFold(initial: State, ps: seq<DiffProvider>, i: nat)
    requires i < |Scan(initial, ps).outputs|
    ensures var s := Scan(initial, ps);
            i < |ps| && StateReducer(([initial] + s.outputs)[i], ps[i]) == Success(s.outputs[i])
  {
    var front := ps[..|ps| - 1];
    var last := ps[|ps| - 1];
    assert front + [last] == ps;
    var before := Scan(initial, front);
    var s := Scan(initial, ps);
    ScanStops(initial, ps);
    ScanExtends(initial, front, [last]);
    if i < |before.outputs| {
      ScanIsFold(initial, front, i);
      assert ([initial] + s.outputs)[i] == ([initial] + before.outputs)[i];
      assert s.outputs[i] == before.outputs[i] && ps[i] == front[i];
    } else {
      ScanStops(initial, front);
      ScanGrows(initial, front, last);
    }
  }

  /** The updater that adds a state receives the state before it. */
  lemma ScanGrows(initial: State, front: seq<DiffProvider>, p: DiffProvider)
    requires |Scan(initial, front).outputs| < |Scan(initial, front + [p]).outputs|
    ensures var i := |Scan(initial, front).outputs|;
            var s := Scan(initial, front + [p]);
            i < |s.outputs| && StateReducer(([initial] + s.outputs)[i], p) == Success(s.outputs[i])
  {
    ScanStep(initial, front, p);
    var before := Scan(initial, front);
    var s := Scan(initial, front + [p]);
    var i := |before.outputs|;
    assert ([initial] + s.outputs)[i] == Last([initial] + before.outputs);
  }

  /** Later updaters never rewrite earlier states, and once an updater has
      failed nothing more is produced. */
  lemma {:induction false} ScanExtends(initial: State, ps: seq<DiffProvider>, qs: seq<DiffProvider>)
    ensures var s := Scan(initial, ps); var t := Scan(initial, ps + qs);
            && s.outputs <= t.outputs
            && (s.error.Some? ==> t == s)
    decreases |qs|
  {
    if qs != [] {
      var front := qs[..|qs| - 1];
      ScanExtends(initial, ps, front);
      assert (ps + qs)[..|ps + qs| - 1] == ps + front;
    } else {
      assert ps + qs == ps;
    }
  }

  /** `resetState()` applies the initial state as a diff; whenever the
      current state has no key the initial state lacks, at any depth, this
      brings the initial state back exactly. */
  lemma ResetRestoresInitial(initial: State, current: State)
    requires Within(current, initial)
    ensures StateReducer(current, Constant(Structural(LiteralDiff(initial)))) == Success(initial)
  {
    MergeLiteral(current, initial);
  }

  /** One step of the store's life, in the order it happened. */
  datatype Happening = Emitted(state: State) | Dispatched(event: Node?)

  function EmittedStates(t: seq<Happening>): (r: seq<State>)
    ensures |r| <= |t|
  {
    if t == [] then []
    else if Last(t).Emitted? then EmittedStates(t[..|t| - 1]) + [Last(t).state]
    else EmittedStates(t[..|t| - 1])
  }

  lemma EmittedStatesAppend(t: seq<Happening>, x: Happening)
    ensures EmittedStates(t + [x]) == EmittedStates(t) + (if x.Emitted? then [x.state] else [])
  {
    assert (t + [x])[..|t|] == t;
  }

  /** The fields of a store at one moment: the value of the `BehaviorSubject`,
      the error that closed the pipeline (if any), every updater pushed into
      `update$`, and everything emitted or dispatched after construction. */
  datatype StoreState = StoreState(current: State, failure: Option<UpdateError>,
                                   received: seq<DiffProvider>, timeline: seq<Happening>)

  /** Everything the `BehaviorSubject` emitted, starting with the initial
      state. */
  function Emissions(initial: State, st: StoreState): seq<State>
  {
    [initial] + EmittedStates(st.timeline)
  }

  /** The current state and the error are exactly what the fold of every
      updater received so far gives, and the states emitted are its outputs. */
  ghost predicate Consistent(initial: State, st: StoreState)
  {
    var s := Scan(initial, st.received);
    && s.outputs == EmittedStates(st.timeline)
    && s.error == st.failure
    && st.current == Last(Emissions(initial, st))
  }

  /** What a store operation throws: the error of a refused update, which
      reading the state of the closed pipeline throws again, or the
      `TypeError` of `freeze` on a missing event. */
  datatype StoreError = UpdateFailed(error: UpdateError) | DispatchFailed(thrown: FreezeError)

  /** The result of pushing one updater into `update$`. */
  datatype Step = Step(state: StoreState, outcome: Outcome<UpdateError>)

  /** `update(updater)`: once the pipeline is closed the updater is ignored;
      otherwise it is reduced against the current state, and either its
      state is emitted or its error closes the pipeline. */
  function Push(st: StoreState, p: DiffProvider): (r: Step)
    ensures r.state.received == st.received + [p]
    ensures r.outcome.Fail? <==> st.failure.None? && r.state.failure.Some?
    ensures r.state.current != st.current ==> r.state.timeline == st.timeline + [Emitted(r.state.current)]
  {
    var pushed := st.(received := st.received + [p]);
    if st.failure.Some? then Step(pushed, Pass)
    else match StateReducer(st.current, p)
         case Success(s) => Step(pushed.(current := s, timeline := st.timeline + [Emitted(s)]), Pass)
         case Failure(e) => Step(pushed.(failure := Some(e)), Fail(e))
  }

  /** `dispatchEvent(e)` as the store records it. */
  function Record(st: StoreState, e: Node?): StoreState
  {
    st.(timeline := st.timeline + [Dispatched(e)])
  }

  /** Pushing an updater keeps the state and the error those of the fold. */
  lemma PushKeepsConsistent(initial: State, st: StoreState, p: DiffProvider)
    requires Consistent(initial, st)
    ensures Consistent(initial, Push(st, p).state)
  {
    ScanStep(initial, st.received, p);
    if st.failure.None? && StateReducer(st.current, p).Success? {
      EmittedStatesAppend(st.timeline, Emitted(StateReducer(st.current, p).value));
    }
  }

  /** What a `state$` subscriber sees of one updater: a new state is notified
      exactly when it differs from the current one; an equal state, an
      ignored updater and a failing updater notify nothing. */
  lemma PushNotifies(initial: State, st: StoreState, p: DiffProvider)
    requires Consistent(initial, st)
    ensures var next := Push(st, p).state;
            Distinct(Emissions(initial, next)) ==
              if next.current == st.current then Distinct(Emissions(initial, st))
              else Distinct(Emissions(initial, st)) + [next.current]
  {
    var next := Push(st, p).state;
    if st.failure.None? && StateReducer(st.current, p).Success? {
      var s := StateReducer(st.current, p).value;
      EmittedStatesAppend(st.timeline, Emitted(s));
      assert Emissions(initial, next) == Emissions(initial, st) + [s];
      DistinctStep(Emissions(initial, st), s);
    } else {
      assert Emissions(initial, next) == Emissions(initial, st);
    }
  }

  /** An updater that returns the previous state itself keeps the state,
      and `state$` notifies nothing. */
  lemma PushSame(initial: State, st: StoreState, p: DiffProvider)
    requires Consistent(initial, st) && st.failure.None? && p(st.current) == Same
    ensures Push(st, p) == Step(st.(received := st.received + [p], timeline := st.timeline + [Emitted(st.current)]), Pass)
    ensures Distinct(Emissions(initial, Push(st, p).state)) == Distinct(Emissions(initial, st))
  {
    PushNotifies(initial, st, p);
  }

  /** `updateState(d)` on an open pipeline: a function passed as `d` closes
      it with the `update` error; any diff is merged into the current state
      and emitted. */
  lemma PushConstant(st: StoreState, d: DiffArgument)
    requires st.failure.None?
    ensures var step := Push(st, Constant(d));
            && step.state.received == st.received + [Constant(d)]
            && (d.Callable? ==>
                  && step.outcome == Fail(InvalidDiff(FunctionDiffMessage))
                  && step.state == st.(received := step.state.received,
                                       failure := Some(InvalidDiff(FunctionDiffMessage))))
            && (d.Structural? ==>
                  var s := Merge(st.current, d.diff);
                  && step.outcome == Pass
                  && step.state == st.(received := step.state.received, current := s,
                                       timeline := st.timeline + [Emitted(s)]))
  {
  }

  /** On a closed pipeline an updater changes nothing but the log of
      updaters, and reports no error. */
  lemma PushAfterFailure(st: StoreState, p: DiffProvider)
    requires st.failure.Some?
    ensures Push(st, p) == Step(st.(received := st.received + [p]), Pass)
  {
  }

  /** Recording a dispatched event keeps the store consistent and emits no
      state. */
  lemma RecordKeepsConsistent(initial: State, st: StoreState, e: Node?)
    requires Consistent(initial, st)
    ensures Consistent(initial, Record(st, e))
    ensures Emissions(initial, Record(st, e)) == Emissions(initial, st)
  {
    EmittedStatesAppend(st.timeline, Dispatched(e));
  }

  class Store {
    const initialState: State
    /** The `Core` this store extends: its handlers and its queue. */
    const core: Core
    /** `stateSubject$.getValue()`, while the pipeline is open. */
    var current: State
    /** The error that closed the pipeline, after which `getValue` throws. */
    var failure: Option<UpdateError>
    /** Every updater pushed into `update$`, in order. */
    ghost var received: seq<DiffProvider>
    /** Every emission of the `BehaviorSubject` after the initial one, and
        every event handed to `dispatchEvent`, in order. */
    ghost var timeline: seq<Happening>

    ghost function Model(): StoreState
      reads this
    {
      StoreState(current, failure, received, timeline)
    }

    /** What a subscriber to `state$` since construction received. */
    ghost function StateStream(): (r: seq<State>)
      reads this
      ensures r != [] && r[0] == initialState
      ensures Last(r) == Last(Emissions(initialState, Model()))
    {
      DistinctEnds(Emissions(initialState, Model()));
      Distinct(Emissions(initialState, Model()))
    }

    ghost predicate Valid()
      reads this
    {
      Consistent(initialState, Model())
    }

    /** The store starts from `initialState`, published at once, and its
        core subscribes to the queue when there is one. */
    constructor (initialState: State, eventQueue: EventQueue?)
      modifies eventQueue
      ensures Valid() && this.initialState == initialState
      ensures current == initialState && failure == None && received == [] && timeline == []
      ensures StateStream() == [initialState]
      ensures fresh(core) && core.eventQueue == eventQueue && core.eventHandlers == map[]
      ensures eventQueue != null ==>
                && eventQueue.subscribers == old(eventQueue.subscribers) + [core]
                && eventQueue.dispatching == old(eventQueue.dispatching)
                && eventQueue.queuedEvents == old(eventQueue.queuedEvents)
                && eventQueue.delivered == old(eventQueue.delivered)
    {
      core := new Core(eventQueue);
      this.initialState := initialState;
      current := initialState;
      failure := None;
      received := [];
      timeline := [];
    }

    /** `currentState`: the last state published; once an update has failed
        the pipeline is closed and reading it throws that error. */
    method CurrentState() returns (r: Result<State, UpdateError>)
      requires Valid()
      ensures r.Success? <==> Scan(initialState, received).error.None?
      ensures r.Success? ==> r.value == Last(Emissions(initialState, Model()))
      ensures r.Failure? ==> Some(r.error) == Scan(initialState, received).error
    {
      if failure.Some? {
        r := Failure(failure.value);
      } else {
        r := Success(current);
      }
    }

    /** `update(updater)`: the updater is reduced against the current state
        and the result is published; a state equal to the current one is
        published too, but `state$` does not notify it again. */
    method Update(p: DiffProvider) returns (outcome: Outcome<UpdateError>)
      requires Valid()
      modifies this`current, this`failure, this`received, this`timeline
      ensures Valid()
      ensures Model() == Push(old(Model()), p).state && outcome == Push(old(Model()), p).outcome
      ensures StateStream() == if current == old(current) then old(StateStream()) else old(StateStream()) + [current]
    {
      ghost var before := Model();
      PushKeepsConsistent(initialState, before, p);
      PushNotifies(initialState, before, p);
      received := received + [p];
      ghost var pushed := before.(received := received);
      if failure.Some? {
        outcome := Pass;
        assert Model() == pushed;
      } else {
        var next := StateReducer(current, p);
        match next
        case Success(s) =>
          current := s;
          timeline := timeline + [Emitted(s)];
          outcome := Pass;
          assert Model() == pushed.(current := s, timeline := before.timeline + [Emitted(s)]);
        case Failure(e) =>
          failure := Some(e);
          outcome := Fail(e);
          assert Model() == pushed.(failure := Some(e));
      }
    }

    /** `updateState(diff)`: `update(state => diff)`. */
    method UpdateState(d: DiffArgument) returns (outcome: Outcome<UpdateError>)
      requires Valid()
      modifies this`current, this`failure, this`received, this`timeline
      ensures Valid()
      ensures Model() == Push(old(Model()), Constant(d)).state && outcome == Push(old(Model()), Constant(d)).outcome
      ensures StateStream() == if current == old(current) then old(StateStream()) else old(StateStream()) + [current]
    {
      outcome := Update(Constant(d));
    }

    /** `resetState()`: `updateState(initialState)`, which brings the initial
        state back when the current state has no key the initial one lacks. */
    method ResetState() returns (outcome: Outcome<UpdateError>)
      requires Valid()
      modifies this`current, this`failure, this`received, this`timeline
      ensures Valid()
      ensures var step := Push(old(Model()), Constant(Structural(LiteralDiff(initialState))));
              Model() == step.state && outcome == step.outcome
      ensures old(failure).None? && Within(old(current), initialState) ==>
                current == initialState && outcome == Pass
    {
      if failure.None? && Within(current, initialState) {
        ResetRestoresInitial(initialState, current);
      }
      outcome := UpdateState(Structural(LiteralDiff(initialState)));
    }

    /** What `dispatchEvent(e)` needs of the queue. */
    ghost predicate CanDispatch(e: Node?, nodes: set<Node>, react: Reaction)
      reads core.eventQueue, nodes
    {
      core.CanDispatch(e, nodes, react)
    }

    /** `dispatchEvent(e)` throws exactly when there is a queue but no
        event. */
    predicate Throws(e: Node?)
    {
      core.eventQueue != null && e == null
    }

    /** What `dispatchEvent(e)` does to the event graph: nothing without a
        queue or without an event; otherwise `e` is frozen and nodes only
        gain frozenness. */
    twostate predicate NodesAfterDispatch(e: Node?, nodes: set<Node>)
      reads e, nodes
    {
      && (core.eventQueue == null || e == null ==> unchanged(nodes))
      && (core.eventQueue != null && e != null ==> e.frozen && FreezingOnly(nodes))
    }

    /** Hands `e` to `dispatchEvent` and records it, whether or not that
        throws; no state is emitted. */
    method DispatchAndRecord(e: Node?, ghost nodes: set<Node>, react: Reaction, fuel: nat)
      returns (outcome: Outcome<StoreError>)
      requires Valid() && CanDispatch(e, nodes, react)
      modifies this`timeline, core.eventQueue, nodes
      ensures Valid() && Model() == Record(old(Model()), e)
      ensures StateStream() == old(StateStream())
      ensures outcome == if Throws(e) then Fail(DispatchFailed(NotAnObject)) else Pass
      ensures QueueDispatched(old(core.Queue()), core.Queue(), e, react, fuel)
      ensures NodesAfterDispatch(e, nodes)
    {
      RecordKeepsConsistent(initialState, Model(), e);
      var thrown := core.DispatchEvent(e, nodes, react, fuel);
      timeline := timeline + [Dispatched(e)];
      outcome := if thrown.Fail? then Fail(DispatchFailed(thrown.error)) else Pass;
    }

    /** `dispatch(eventProvider)`: the event is computed from the current
        state, which does not change, and dispatched, which throws when the
        event is missing and there is a queue; once the pipeline is closed,
        reading the state throws and nothing is dispatched. */
    method Dispatch(provider: State -> Node?, ghost nodes: set<Node>, react: Reaction, fuel: nat)
      returns (outcome: Outcome<StoreError>)
      requires Valid() && CanDispatch(provider(current), nodes, react)
      modifies this`timeline, core.eventQueue, nodes
      ensures Valid() && StateStream() == old(StateStream())
      ensures old(failure).Some? ==>
                && outcome == Fail(UpdateFailed(old(failure).value)) && Model() == old(Model())
                && core.Queue() == old(core.Queue()) && unchanged(nodes)
      ensures old(failure).None? ==>
                var e := provider(old(current));
                && outcome == (if Throws(e) then Fail(DispatchFailed(NotAnObject)) else Pass)
                && Model() == Record(old(Model()), e)
                && QueueDispatched(old(core.Queue()), core.Queue(), e, react, fuel)
                && NodesAfterDispatch(e, nodes)
    {
      if failure.Some? {
        outcome := Fail(UpdateFailed(failure.value));
      } else {
        outcome := DispatchAndRecord(provider(current), nodes, react, fuel);
      }
    }

    /** `applyResult(result)`: the update is applied and published first, and
        only then is the event dispatched, with no check that there is one:
        a missing event throws from `freeze` when there is a queue, after the
        state has already changed.  A refused update throws before the event
        is dispatched.  It reads no state, so on a closed pipeline the update
        is dropped silently and the event is still dispatched. */
    method ApplyResult(result: OperationResult, ghost nodes: set<Node>, react: Reaction, fuel: nat)
      returns (outcome: Outcome<StoreError>)
      requires Valid() && CanDispatch(result.event, nodes, react)
      modifies this`current, this`failure, this`received, this`timeline, core.eventQueue, nodes
      ensures Valid()
      ensures var step := Push(old(Model()), Constant(result.update));
              && (step.outcome.Pass? ==>
                    && outcome == (if Throws(result.event) then Fail(DispatchFailed(NotAnObject)) else Pass)
                    && Model() == Record(step.state, result.event)
                    && QueueDispatched(old(core.Queue()), core.Queue(), result.event, react, fuel)
                    && NodesAfterDispatch(result.event, nodes))
              && (step.outcome.Fail? ==>
                    && outcome == Fail(UpdateFailed(step.outcome.error))
                    && Model() == step.state && core.Queue() == old(core.Queue()) && unchanged(nodes))
    {
      ghost var step := Push(Model(), Constant(result.update));
      var pushed := UpdateState(result.update);
      assert Model() == step.state && pushed == step.outcome;
      if pushed.Pass? {
        outcome := DispatchAndRecord(result.event, nodes, react, fuel);
      } else {
        outcome := Fail(UpdateFailed(pushed.error));
      }
    }

    /** `execute(operation)`: `applyResult` of what the operation makes of
        the current state; once the pipeline is closed, reading the state
        throws before anything is pushed or dispatched. */
    method Execute(op: Operation, ghost nodes: set<Node>, react: Reaction, fuel: nat)
      returns (outcome: Outcome<StoreError>)
      requires Valid() && CanDispatch(op(current).event, nodes, react)
      modifies this`current, this`failure, this`received, this`timeline, core.eventQueue, nodes
      ensures Valid()
      ensures old(failure).Some? ==>
                && outcome == Fail(UpdateFailed(old(failure).value)) && Model() == old(Model())
                && core.Queue() == old(core.Queue()) && unchanged(nodes)
      ensures old(failure).None? ==>
                var r := op(old(current));
                var step := Push(old(Model()), Constant(r.update));
                && (step.outcome.Pass? ==>
                      && outcome == (if Throws(r.event) then Fail(DispatchFailed(NotAnObject)) else Pass)
                      && Model() == Record(step.state, r.event)
                      && QueueDispatched(old(core.Queue()), core.Queue(), r.event, react, fuel)
                      && NodesAfterDispatch(r.event, nodes))
                && (step.outcome.Fail? ==>
                      && outcome == Fail(UpdateFailed(step.outcome.error))
                      && Model() == step.state && core.Queue() == old(core.Queue()) && unchanged(nodes))
    {
      if failure.Some? {
        outcome := Fail(UpdateFailed(failure.value));
      } else {
        outcome := ApplyResult(op(current), nodes, react, fuel);
      }
    }

    /** `map(project)`, `select(key)`, `pick(...keys)`, `filter(predicate)`:
        what a subscriber since construction received. */
    ghost function MapStream<R>(project: State -> R): seq<R>
      reads this
    {
      Streams.MapStream(project, Emissions(initialState, Model()))
    }

    ghost function SelectStream(key: string): seq<Value>
      reads this
    {
      Select(key, Emissions(initialState, Model()))
    }

    ghost function PickStream(keys: seq<string>): seq<State>
      reads this
    {
      Pick(keys, Emissions(initialState, Model()))
    }

    ghost function FilterStream(keep: State -> bool): (r: seq<State>)
      reads this
      ensures forall x :: x in r ==> keep(x)
    {
      Streams.FilterStream(keep, Emissions(initialState, Model()))
    }
  }
}
