/**
 * The asynchronous operation as an object whose fields its entry points
 * update in place. Every method is tied to the value-level lifecycle in
 * module Lifecycle through `Model()`, where the properties of the
 * lifecycle are proved.
 */
module AsyncOperation {
  import opened Operation
  import L = Lifecycle

  class AsynchronousOperation {
    /** The lifecycle state; every assignment goes through `SetState`. */
    var state: State
    /** The cancellation flag, set by `Cancel`. */
    var cancelled: bool
    /** Hand-off bodies dispatched by `Start` that have not run yet. */
    var pending: nat
    /** The change notifications sent to observers, oldest first. */
    var events: seq<Event>
    /** The lines printed by hand-off bodies. */
    var output: seq<string>
    /** What the hand-off body prints. */
    const greeting: string

    /** The operation as a value of the lifecycle model. */
    function Model(): L.Op
      reads this
    {
      L.Op(state, cancelled, pending, events, output)
    }

    constructor (greeting: string)
      ensures Model() == L.Initial() && this.greeting == greeting
    {
      state := Ready;
      cancelled := false;
      pending := 0;
      events := [];
      output := [];
      this.greeting := greeting;
    }

    /**
     * The assignment `state = s` with its observers: the will-set observer
     * announces the new key and then the current one, the did-set observer
     * closes the old key and then the new one.
     */
    method SetState(s: State)
      modifies this
      ensures state == s
      ensures events == old(events) +
        [WillChange(KeyPath(s)), WillChange(KeyPath(old(state))),
         DidChange(KeyPath(old(state))), DidChange(KeyPath(s))]
      ensures cancelled == old(cancelled) && pending == old(pending) && output == old(output)
      ensures Model() == L.Assign(old(Model()), s)
    {
      events := events + [WillChange(KeyPath(s)), WillChange(KeyPath(state))];
      var oldValue := state;
      state := s;
      events := events + [DidChange(KeyPath(oldValue)), DidChange(KeyPath(state))];
    }

    /** `cancel()`: only the cancellation flag changes. */
    method Cancel()
      modifies this
      ensures cancelled
      ensures Model() == L.Cancel(old(Model()))
    {
      cancelled := true;
    }

    /**
     * `start()`: a cancelled operation goes straight to Finished and nothing
     * is dispatched; otherwise one hand-off body is dispatched and then the
     * state becomes Executing.
     */
    method Start()
      modifies this
      ensures Model() == L.Start(old(Model()))
      ensures old(cancelled) ==> IsFinished() && !IsExecuting() && pending == old(pending)
      ensures !old(cancelled) ==> IsExecuting() && pending == old(pending) + 1
      ensures output == old(output) && cancelled == old(cancelled)
    {
      if cancelled {
        SetState(Finished);
      } else {
        pending := pending + 1;
        SetState(Executing);
      }
    }

    /**
     * One dispatched hand-off body runs: when the operation has been
     * cancelled it only finishes; otherwise it prints its greeting and
     * finishes.
     */
    method RunHandOff()
      requires pending > 0
      modifies this
      ensures Model() == L.HandOff(old(Model()), greeting)
      ensures IsFinished() && pending == old(pending) - 1
      ensures output == old(output) + (if old(cancelled) then [] else [greeting])
    {
      pending := pending - 1;
      if cancelled {
        SetState(Finished);
        return;
      }
      output := output + [greeting];
      SetState(Finished);
    }

    /** `ready`: the inherited readiness, and the operation is Ready. */
    predicate IsReady(inheritedReady: bool)
      reads this
    {
      ReadyFlag(inheritedReady, state)
    }

    /** `executing`. */
    predicate IsExecuting()
      reads this
    {
      ExecutingFlag(state)
    }

    /** `finished`. */
    predicate IsFinished()
      reads this
    {
      FinishedFlag(state)
    }

    /** `asynchronous`. */
    predicate IsAsynchronous()
    {
      AsynchronousFlag()
    }
  }

  /**
   * A new operation that is started and whose hand-off body then runs
   * completes: afterwards it is finished and not cancelled, and it has
   * printed its greeting once.
   */
  method StartThenHandOff(greeting: string) returns (finished: bool, cancelled: bool, output: seq<string>)
    ensures finished && !cancelled && output == [greeting]
  {
    var op := new AsynchronousOperation(greeting);
    op.Start();
    op.RunHandOff();
    finished, cancelled, output := op.IsFinished(), op.cancelled, op.output;
  }

  /**
   * An operation cancelled before it is started finishes at once, dispatches
   * no hand-off body and prints nothing.
   */
  method CancelThenStart(greeting: string) returns (finished: bool, executing: bool, dispatched: bool, output: seq<string>)
    ensures finished && !executing && !dispatched && output == []
  {
    var op := new AsynchronousOperation(greeting);
    op.Cancel();
    op.Start();
    finished, executing, dispatched, output := op.IsFinished(), op.IsExecuting(), op.pending > 0, op.output;
  }

  /**
   * An operation cancelled after `start` has returned but before its
   * hand-off body checks the flag finishes without printing.
   */
  method CancelWhileDispatched(greeting: string) returns (finished: bool, output: seq<string>)
    ensures finished && output == []
  {
    var op := new AsynchronousOperation(greeting);
    op.Start();
    op.Cancel();
    op.RunHandOff();
    finished, output := op.IsFinished(), op.output;
  }
}
