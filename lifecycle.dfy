/**
 * The lifecycle of one asynchronous operation as values: the operation's
 * observable state, the effect of each of its entry points, and what holds
 * over any run of them.
 *
 * The hand-off body that `start` dispatches is not run inside `Start`: it is
 * counted in `pending` and runs later as a step of its own (`HandOff`).
 */
module Lifecycle {
  import opened Operation

  /**
   * One operation: its state, its cancellation flag, the number of hand-off
   * bodies dispatched but not yet run, the notifications it has emitted and
   * the lines its hand-off bodies have printed.
   */
  datatype Op = Op(
    state: State,
    cancelled: bool,
    pending: nat,
    events: seq<Event>,
    output: seq<string>)

  /** A freshly created operation. */
  function Initial(): Op
  {
    Op(Ready, false, 0, [], [])
  }

  /** The assignment `state = s`, bracketed by its observers' notifications. */
  function Assign(o: Op, s: State): Op
  {
    o.(state := s, events := o.events + Notifications(o.state, s))
  }

  /** `cancel()`: sets the cancellation flag and nothing else. */
  function Cancel(o: Op): Op
  {
    o.(cancelled := true)
  }

  /**
   * `start()`: a cancelled operation goes straight to Finished; otherwise one
   * hand-off body is dispatched and the state becomes Executing.
   */
  function Start(o: Op): Op
  {
    if o.cancelled then Assign(o, Finished)
    else Assign(o.(pending := o.pending + 1), Executing)
  }

  /**
   * One dispatched hand-off body runs: if the operation has been cancelled it
   * only finishes, otherwise it prints `greeting` and then finishes.
   */
  function HandOff(o: Op, greeting: string): Op
    requires o.pending > 0
  {
    var o' := o.(pending := o.pending - 1);
    if o'.cancelled then Assign(o', Finished)
    else Assign(o'.(output := o'.output + [greeting]), Finished)
  }

  /**
   * An assignment sets the state and appends will(new), will(old), did(old),
   * did(new) to the log; nothing else changes.
   */
  lemma AssignNotifies(o: Op, s: State)
    ensures Assign(o, s).state == s
    ensures Assign(o, s).events == o.events +
      [WillChange(KeyPath(s)), WillChange(KeyPath(o.state)), DidChange(KeyPath(o.state)), DidChange(KeyPath(s))]
    ensures Assign(o, s).(state := o.state, events := o.events) == o
  {
  }

  /**
   * Starting a cancelled operation finishes it, with `finished` true and
   * `executing` false, and dispatches no hand-off body.
   */
  lemma StartWhenCancelled(o: Op)
    requires o.cancelled
    ensures FinishedFlag(Start(o).state) && !ExecutingFlag(Start(o).state)
    ensures Start(o).pending == o.pending && Start(o).output == o.output
    ensures Start(o).cancelled
    ensures Start(o).events == o.events + Notifications(o.state, Finished)
  {
  }

  /**
   * Starting an operation that is not cancelled dispatches exactly one
   * hand-off body and returns in Executing without printing anything.
   */
  lemma StartWhenNotCancelled(o: Op)
    requires !o.cancelled
    ensures ExecutingFlag(Start(o).state) && !FinishedFlag(Start(o).state)
    ensures Start(o).pending == o.pending + 1
    ensures Start(o).output == o.output && !Start(o).cancelled
    ensures Start(o).events == o.events + Notifications(o.state, Executing)
  {
  }

  /**
   * A hand-off body always leaves the operation Finished, on the cancelled
   * early exit as on the normal path, and prints exactly when the operation
   * was not cancelled at its check.
   */
  lemma HandOffFinishes(o: Op, greeting: string)
    requires o.pending > 0
    ensures FinishedFlag(HandOff(o, greeting).state)
    ensures HandOff(o, greeting).pending == o.pending - 1
    ensures HandOff(o, greeting).cancelled == o.cancelled
    ensures o.cancelled ==> HandOff(o, greeting).output == o.output
    ensures !o.cancelled ==> HandOff(o, greeting).output == o.output + [greeting]
    ensures HandOff(o, greeting).events == o.events + Notifications(o.state, Finished)
  {
  }

  /** The entry points an operation queue and its clients drive. */
  datatype Action = StartOp | CancelOp | RunHandOff

  /**
   * One action, if it is enabled: a queue starts only a Ready operation, and
   * a hand-off body runs only once it has been dispatched. A disabled action
   * leaves the operation unchanged.
   */
  function Step(o: Op, a: Action, greeting: string): Op
  {
    match a
    case StartOp => if o.state == Ready then Start(o) else o
    case CancelOp => Cancel(o)
    case RunHandOff => if o.pending > 0 then HandOff(o, greeting) else o
  }

  /** The operation after the given actions, in order. */
  function Run(o: Op, acts: seq<Action>, greeting: string): Op
    decreases |acts|
  {
    if acts == [] then o else Run(Step(o, acts[0], greeting), acts[1..], greeting)
  }

  /**
   * What holds of every operation reachable from `Initial()`: the log is a
   * sequence of whole assignment blocks whose last did-change announces the
   * current state; a Ready operation has done nothing; an Executing one has
   * exactly one hand-off body outstanding and a Finished one none; the body's
   * effect happens at most once and only on the way to Finished.
   */
  ghost predicate Valid(o: Op)
  {
    LogAnnouncesState(o) && BodiesMatchState(o)
  }

  /**
   * The log is a sequence of whole assignment blocks, empty exactly while
   * the operation is Ready, whose last did-change announces the state.
   */
  ghost predicate LogAnnouncesState(o: Op)
  {
    && IsLog(o.events)
    && (o.events == [] <==> o.state == Ready)
    && (o.events != [] ==> o.events[|o.events| - 1] == DidChange(KeyPath(o.state)))
  }

  /**
   * One body is outstanding exactly while the operation is Executing, and
   * at most one line has been printed, only once the operation is Finished.
   */
  ghost predicate BodiesMatchState(o: Op)
  {
    && (o.state == Ready ==> o.output == [])
    && o.pending == (if o.state == Executing then 1 else 0)
    && |o.output| <= 1
    && (o.output != [] ==> o.state == Finished)
  }

  lemma InitialValid()
    ensures Valid(Initial())
    ensures ReadyFlag(true, Initial().state) && !Initial().cancelled
  {
  }

  /** An assignment keeps the log well formed and announces the new state last. */
  lemma AssignKeepsLog(o: Op, s: State)
    requires IsLog(o.events)
    ensures IsLog(Assign(o, s).events)
    ensures Assign(o, s).events != []
    ensures Assign(o, s).events[|Assign(o, s).events| - 1] == DidChange(KeyPath(s))
  {
    LogExtend(o.events, o.state, s);
  }

  /** Assigning a state other than Ready leaves a log that announces it. */
  lemma AssignAnnounces(o: Op, s: State)
    requires IsLog(o.events) && s != Ready
    ensures LogAnnouncesState(Assign(o, s))
  {
    AssignKeepsLog(o, s);
  }

  /**
   * An assignment of a state other than Ready keeps `Valid` when the fields
   * other than the log already agree with the new state.
   */
  lemma AssignValid(o: Op, s: State)
    requires IsLog(o.events) && s != Ready
    requires o.pending == (if s == Executing then 1 else 0)
    requires |o.output| <= 1 && (o.output != [] ==> s == Finished)
    ensures Valid(Assign(o, s))
  {
    AssignAnnounces(o, s);
    assert BodiesMatchState(Assign(o, s));
  }

  /** Starting a Ready operation keeps `Valid` and leaves Ready. */
  lemma StartValid(o: Op)
    requires Valid(o) && o.state == Ready
    ensures Valid(Start(o)) && Start(o).state != Ready
  {
    assert o.pending == 0 && o.output == [];
    if o.cancelled {
      assert Start(o) == Assign(o, Finished);
      AssignValid(o, Finished);
    } else {
      var o1 := o.(pending := 1);
      assert Start(o) == Assign(o1, Executing);
      AssignValid(o1, Executing);
    }
  }

  /** Running the outstanding hand-off body keeps `Valid`. */
  lemma HandOffValid(o: Op, greeting: string)
    requires Valid(o) && o.pending > 0
    ensures Valid(HandOff(o, greeting))
  {
    assert o.state == Executing && o.pending == 1 && o.output == [];
    var o' := o.(pending := 0);
    if o'.cancelled {
      assert HandOff(o, greeting) == Assign(o', Finished);
      AssignValid(o', Finished);
    } else {
      var o'' := o'.(output := [greeting]);
      assert HandOff(o, greeting) == Assign(o'', Finished);
      AssignValid(o'', Finished);
    }
  }

  /** Every enabled action keeps `Valid` and never moves the state backwards. */
  lemma StepValid(o: Op, a: Action, greeting: string)
    requires Valid(o)
    ensures Valid(Step(o, a, greeting))
    ensures Rank(o.state) <= Rank(Step(o, a, greeting).state)
    ensures o.cancelled ==> Step(o, a, greeting).cancelled
  {
    match a
    case StartOp =>
      if o.state == Ready {
        StartValid(o);
      }
    case CancelOp =>
    case RunHandOff =>
      if o.pending > 0 {
        HandOffValid(o, greeting);
      }
  }

  /**
   * Over any run, `Valid` is kept, the state never goes backwards and a
   * cancellation is never undone.
   */
  lemma {:induction false} RunValid(o: Op, acts: seq<Action>, greeting: string)
    requires Valid(o)
    ensures Valid(Run(o, acts, greeting))
    ensures Rank(o.state) <= Rank(Run(o, acts, greeting).state)
    ensures o.cancelled ==> Run(o, acts, greeting).cancelled
    decreases |acts|
  {
    if acts != [] {
      StepValid(o, acts[0], greeting);
      RunValid(Step(o, acts[0], greeting), acts[1..], greeting);
    }
  }

  /** Every state reached from a new operation satisfies `Valid`. */
  lemma ReachableValid(acts: seq<Action>, greeting: string)
    ensures Valid(Run(Initial(), acts, greeting))
  {
    InitialValid();
    RunValid(Initial(), acts, greeting);
  }

  /**
   * Finished is final: afterwards no action changes the state, the log or the
   * output, and no hand-off body is outstanding.
   */
  lemma {:induction false} FinishedIsFinal(o: Op, acts: seq<Action>, greeting: string)
    requires Valid(o) && o.state == Finished
    ensures Run(o, acts, greeting).state == Finished
    ensures Run(o, acts, greeting).events == o.events
    ensures Run(o, acts, greeting).output == o.output
    ensures Run(o, acts, greeting).pending == 0
    decreases |acts|
  {
    if acts != [] {
      FinishedIsFinal(Step(o, acts[0], greeting), acts[1..], greeting);
    }
  }

  /**
   * Once an operation is cancelled its hand-off body never performs its
   * effect, whether the cancellation came before `start` or while the body
   * was outstanding.
   */
  lemma {:induction false} CancelledPrintsNothing(o: Op, acts: seq<Action>, greeting: string)
    requires o.cancelled
    ensures Run(o, acts, greeting).output == o.output
    decreases |acts|
  {
    if acts != [] {
      CancelledPrintsNothing(Step(o, acts[0], greeting), acts[1..], greeting);
    }
  }

  /**
   * An operation that has been started never stays unfinished: either it is
   * Finished already or running its outstanding hand-off body finishes it.
   */
  lemma StartedOperationFinishes(o: Op, greeting: string)
    requires Valid(o) && o.state != Ready
    ensures FinishedFlag(Step(o, RunHandOff, greeting).state)
  {
  }

  /**
   * The notification log of any reachable operation pairs every will-change
   * with a later did-change of the same key and every did-change with an
   * earlier will-change, and opens and closes each key equally often.
   */
  lemma ReachableLogBalanced(acts: seq<Action>, greeting: string, k: string)
    ensures WillsAnswered(Run(Initial(), acts, greeting).events)
    ensures DidsPreceded(Run(Initial(), acts, greeting).events)
    ensures multiset(Run(Initial(), acts, greeting).events)[WillChange(k)]
         == multiset(Run(Initial(), acts, greeting).events)[DidChange(k)]
  {
    var ev := Run(Initial(), acts, greeting).events;
    ReachableValid(acts, greeting);
    LogWillsAnswered(ev);
    LogDidsPreceded(ev);
    LogBalanced(ev, k);
  }

  /**
   * A new operation that is started and whose hand-off body then runs ends
   * finished and not cancelled, having printed its greeting once; its log
   * announces Ready -> Executing and then Executing -> Finished.
   */
  lemma SingleOperationCompletes(greeting: string)
    ensures FinishedFlag(Run(Initial(), [StartOp, RunHandOff], greeting).state)
    ensures !Run(Initial(), [StartOp, RunHandOff], greeting).cancelled
    ensures Run(Initial(), [StartOp, RunHandOff], greeting).output == [greeting]
    ensures Run(Initial(), [StartOp, RunHandOff], greeting).events
         == Notifications(Ready, Executing) + Notifications(Executing, Finished)
  {
    var started := Start(Initial());
    assert Run(Initial(), [StartOp, RunHandOff], greeting) == Run(started, [RunHandOff], greeting);
    assert Run(started, [RunHandOff], greeting) == HandOff(started, greeting);
  }
}
