/**
 * `start()` of an operation that is not cancelled does two things: it
 * dispatches the hand-off body and it assigns Executing. The body runs on
 * another thread, so it may run between the two. This module splits `start`
 * into its two halves and lets the body run at any point after it has been
 * dispatched.
 *
 * With the order the operation is written in (dispatch, then Executing) the
 * body can finish the operation before `start` assigns Executing: the state
 * then goes back from Finished to Executing and no body is left to finish it.
 * With the order reversed (Executing, then dispatch), or when the body only
 * runs after `start` has returned, the state never goes backwards.
 */
module Interleaving {
  import opened Operation
  import L = Lifecycle

  /** Which of the two halves of `start` comes first. */
  datatype Order =
    | DispatchFirst   // dispatch the body, then assign Executing (as written)
    | ExecutingFirst  // assign Executing, then dispatch the body

  /** How far `start` has got. */
  datatype StartPc = Idle | Midway | Returned

  /** An operation together with the progress of its `start` call. */
  datatype Config = Config(op: L.Op, pc: StartPc)

  /** The moves the starting thread, the dispatched body and clients make. */
  datatype Move = CancelOp | BeginStart | EndStart | RunHandOff

  function Initial(): Config
  {
    Config(L.Initial(), Idle)
  }

  /**
   * The first half of `start`: a cancelled operation finishes and `start`
   * returns; otherwise the first action of `order` is taken.
   */
  function FirstHalf(order: Order, o: L.Op): Config
  {
    if o.cancelled then Config(L.Assign(o, Finished), Returned)
    else match order
      case DispatchFirst => Config(o.(pending := o.pending + 1), Midway)
      case ExecutingFirst => Config(L.Assign(o, Executing), Midway)
  }

  /** The second half of `start`: the other action of `order`. */
  function SecondHalf(order: Order, o: L.Op): L.Op
  {
    match order
    case DispatchFirst => L.Assign(o, Executing)
    case ExecutingFirst => o.(pending := o.pending + 1)
  }

  /**
   * When nothing runs between them, the two halves in either order amount to
   * the atomic `Lifecycle.Start`.
   */
  lemma HalvesComposeToStart(order: Order, o: L.Op)
    ensures var c := FirstHalf(order, o);
      (if c.pc == Midway then SecondHalf(order, c.op) else c.op) == L.Start(o)
  {
  }

  /**
   * One move. `start` is begun only on a Ready operation that has not been
   * started; its second half follows its first; a dispatched body may run
   * at any time, except that with `deferred` it waits until `start` has
   * returned. A move that is not enabled changes nothing.
   */
  function Step(order: Order, deferred: bool, c: Config, m: Move, greeting: string): Config
  {
    match m
    case CancelOp => c.(op := L.Cancel(c.op))
    case BeginStart =>
      if c.pc == Idle && c.op.state == Ready then FirstHalf(order, c.op) else c
    case EndStart =>
      if c.pc == Midway then Config(SecondHalf(order, c.op), Returned) else c
    case RunHandOff =>
      if c.op.pending > 0 && !(deferred && c.pc == Midway)
      then c.(op := L.HandOff(c.op, greeting)) else c
  }

  /** The configuration after the given moves, in order. */
  function Run(order: Order, deferred: bool, c: Config, ms: seq<Move>, greeting: string): Config
    decreases |ms|
  {
    if ms == [] then c else Run(order, deferred, Step(order, deferred, c, ms[0], greeting), ms[1..], greeting)
  }

  /** Running two sequences of moves is running their concatenation. */
  lemma {:induction false} RunAppend(order: Order, deferred: bool, c: Config, ms: seq<Move>, ns: seq<Move>, greeting: string)
    ensures Run(order, deferred, c, ms + ns, greeting)
         == Run(order, deferred, Run(order, deferred, c, ms, greeting), ns, greeting)
    decreases |ms|
  {
    if ms != [] {
      assert (ms + ns)[0] == ms[0];
      assert (ms + ns)[1..] == ms[1..] + ns;
      RunAppend(order, deferred, Step(order, deferred, c, ms[0], greeting), ms[1..], ns, greeting);
    } else {
      assert ms + ns == ns;
    }
  }

  /**
   * As written, the body may run between the halves of `start`: it prints,
   * finishes the operation, and then `start` assigns Executing, so the state
   * goes back from Finished to Executing with no body left to run.
   */
  lemma DispatchFirstRace(greeting: string)
    ensures Run(DispatchFirst, false, Initial(), [BeginStart, RunHandOff], greeting).op.state == Finished
    ensures var c := Run(DispatchFirst, false, Initial(), [BeginStart, RunHandOff, EndStart], greeting);
      && c.op.state == Executing && c.op.pending == 0 && c.pc == Returned
      && c.op.output == [greeting]
      && c.op.events == Notifications(Ready, Finished) + Notifications(Finished, Executing)
  {
    var c1 := Step(DispatchFirst, false, Initial(), BeginStart, greeting);
    assert c1 == Config(L.Initial().(pending := 1), Midway);
    var c2 := Step(DispatchFirst, false, c1, RunHandOff, greeting);
    assert c2.op.state == Finished && c2.op.pending == 0 && c2.op.output == [greeting];
    assert c2.op.events == Notifications(Ready, Finished);
    var c3 := Step(DispatchFirst, false, c2, EndStart, greeting);
    assert c3 == Config(L.Assign(c2.op, Executing), Returned);
    RunTwo(DispatchFirst, false, Initial(), BeginStart, RunHandOff, greeting);
    RunThree(DispatchFirst, false, Initial(), BeginStart, RunHandOff, EndStart, greeting);
  }

  lemma RunTwo(order: Order, deferred: bool, c: Config, m1: Move, m2: Move, greeting: string)
    ensures Run(order, deferred, c, [m1, m2], greeting)
         == Step(order, deferred, Step(order, deferred, c, m1, greeting), m2, greeting)
  {
    var c1 := Step(order, deferred, c, m1, greeting);
    assert [m1, m2][1..] == [m2];
    assert Run(order, deferred, c, [m1, m2], greeting) == Run(order, deferred, c1, [m2], greeting);
    assert [m2][1..] == [];
    assert Run(order, deferred, c1, [m2], greeting) == Run(order, deferred, Step(order, deferred, c1, m2, greeting), [], greeting);
  }

  lemma RunThree(order: Order, deferred: bool, c: Config, m1: Move, m2: Move, m3: Move, greeting: string)
    ensures Run(order, deferred, c, [m1, m2, m3], greeting)
         == Step(order, deferred, Step(order, deferred, Step(order, deferred, c, m1, greeting), m2, greeting), m3, greeting)
  {
    assert [m1, m2, m3][1..] == [m2, m3];
    RunTwo(order, deferred, Step(order, deferred, c, m1, greeting), m2, m3, greeting);
  }

  /**
   * An operation left Executing by a returned `start` with no body
   * outstanding stays Executing whatever happens next: it never finishes.
   */
  lemma {:induction false} StuckStaysExecuting(order: Order, deferred: bool, c: Config, ms: seq<Move>, greeting: string)
    requires c.op.state == Executing && c.op.pending == 0 && c.pc == Returned
    ensures Run(order, deferred, c, ms, greeting).op.state == Executing
    decreases |ms|
  {
    if ms != [] {
      StuckStaysExecuting(order, deferred, Step(order, deferred, c, ms[0], greeting), ms[1..], greeting);
    }
  }

  /** As written, the race leaves the operation unfinished forever. */
  lemma DispatchFirstCanHang(later: seq<Move>, greeting: string)
    ensures !FinishedFlag(Run(DispatchFirst, false, Initial(), [BeginStart, RunHandOff, EndStart] + later, greeting).op.state)
  {
    var race := [BeginStart, RunHandOff, EndStart];
    DispatchFirstRace(greeting);
    RunAppend(DispatchFirst, false, Initial(), race, later, greeting);
    StuckStaysExecuting(DispatchFirst, false, Run(DispatchFirst, false, Initial(), race, greeting), later, greeting);
  }

  /** The schedules under which `start` is safe. */
  predicate Safe(order: Order, deferred: bool)
  {
    order == ExecutingFirst || deferred
  }

  /**
   * What holds of every configuration a safe schedule reaches: before
   * `start` the operation is Ready and idle; between the halves it is still
   * Ready with its body dispatched (as written) or already Executing with no
   * body yet (reversed); after `start` it has left Ready, and it is Executing
   * exactly while one body is outstanding.
   */
  ghost predicate Valid(order: Order, c: Config)
  {
    && (c.pc == Idle ==> c.op.state == Ready && c.op.pending == 0)
    && (c.pc == Midway && order == DispatchFirst ==> c.op.state == Ready && c.op.pending == 1)
    && (c.pc == Midway && order == ExecutingFirst ==> c.op.state == Executing && c.op.pending == 0)
    && (c.pc == Returned ==> c.op.state != Ready && c.op.pending == (if c.op.state == Executing then 1 else 0))
  }

  /** Under a safe schedule every move keeps `Valid` and never regresses. */
  lemma StepSafe(order: Order, deferred: bool, c: Config, m: Move, greeting: string)
    requires Safe(order, deferred) && Valid(order, c)
    ensures Valid(order, Step(order, deferred, c, m, greeting))
    ensures Rank(c.op.state) <= Rank(Step(order, deferred, c, m, greeting).op.state)
  {
  }

  /**
   * Under a safe schedule the state never goes backwards over any run, and
   * once `start` has returned an Executing operation still has a body that
   * will finish it.
   */
  lemma {:induction false} RunSafe(order: Order, deferred: bool, c: Config, ms: seq<Move>, greeting: string)
    requires Safe(order, deferred) && Valid(order, c)
    ensures Valid(order, Run(order, deferred, c, ms, greeting))
    ensures Rank(c.op.state) <= Rank(Run(order, deferred, c, ms, greeting).op.state)
    decreases |ms|
  {
    if ms != [] {
      StepSafe(order, deferred, c, ms[0], greeting);
      RunSafe(order, deferred, Step(order, deferred, c, ms[0], greeting), ms[1..], greeting);
    }
  }

  /**
   * Assigning Executing before dispatching the body keeps the lifecycle
   * monotone under every interleaving, and a returned `start` never leaves
   * an Executing operation without a body to finish it.
   */
  lemma ExecutingFirstNeverRegresses(ms: seq<Move>, ns: seq<Move>, greeting: string)
    ensures var c := Run(ExecutingFirst, false, Initial(), ms, greeting);
      && Rank(c.op.state) <= Rank(Run(ExecutingFirst, false, c, ns, greeting).op.state)
      && (c.pc == Returned && c.op.state == Executing ==> c.op.pending == 1)
  {
    var c := Run(ExecutingFirst, false, Initial(), ms, greeting);
    RunSafe(ExecutingFirst, false, Initial(), ms, greeting);
    RunSafe(ExecutingFirst, false, c, ns, greeting);
  }

  /**
   * As written, the lifecycle is monotone as long as the body runs only
   * after `start` has returned.
   */
  lemma DispatchFirstDeferredNeverRegresses(ms: seq<Move>, ns: seq<Move>, greeting: string)
    ensures var c := Run(DispatchFirst, true, Initial(), ms, greeting);
      && Rank(c.op.state) <= Rank(Run(DispatchFirst, true, c, ns, greeting).op.state)
      && (c.pc == Returned && c.op.state == Executing ==> c.op.pending == 1)
  {
    var c := Run(DispatchFirst, true, Initial(), ms, greeting);
    RunSafe(DispatchFirst, true, Initial(), ms, greeting);
    RunSafe(DispatchFirst, true, c, ns, greeting);
  }
}
