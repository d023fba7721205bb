# Asynchronous operation lifecycle

This project models `MyAsynchronousOperation`, the asynchronous `NSOperation` subclass of the
operation-queues demonstration. The class exists twice in the repository: once in the application
and once in the playground. The two copies differ only in the line the hand-off body prints
("Hello" and "Hello Susana"). One model covers both, and the printed line is a parameter
(`greeting`).

The operation has a three-valued `State` (Ready, Executing, Finished). Each state has a key-value
observing key (`keyPath()`). The `state` property has observers that bracket every assignment with
will-change and did-change notifications for the new and the old key. `start()` finishes an operation
that is already cancelled. Otherwise it dispatches a hand-off body to a global queue and sets
Executing. The hand-off body checks cancellation, prints its line when not cancelled, and always
finishes the operation. The `ready`, `executing`, `finished` and `asynchronous` flags are read off
the state.

Modules:

- `Operation` (`operation.dfy`): the states, their keys, the notification events, and the four
  notifications of one assignment. It also defines well-formed notification logs and proves that in
  such a log every will-change is answered by a later did-change and that each key is opened as often
  as it is closed. The derived flags are here too.
- `Lifecycle` (`lifecycle.dfy`): the operation as a value. It defines the effect of an assignment,
  of `cancel()`, of `start()` and of one run of the dispatched body. Over any sequence of these
  steps it proves an invariant, that the state never moves backwards, that Finished is final, and
  that a cancelled operation never prints.
- `Interleaving` (`interleaving.dfy`): `start()` split into its two halves, so that the dispatched
  body can run between them. It holds the race described under Findings.
- `AsyncOperation` (`async_operation.dfy`): the imperative model. A class with the mutable fields
  `state`, `cancelled`, `pending`, `events` and `output`. Its methods update the fields in place, and
  `Model()` ties every method to the value-level lifecycle. The module also has three client
  scenarios.

The dispatched body is not run inside `start`. `pending` counts the bodies dispatched and not yet run,
and a body runs later as a step of its own (`RunHandOff`). Printing appends the printed line to
`output`, and each observer notification appends an event to `events`.

The playground copy has the same code as the application copy, at line numbers 14 lower. Each
row of the table below cites one of the two copies, or the test that exercises the operation.

The usual description of an asynchronous operation sets Executing before handing the work off and
checks cancellation twice in the body. The code dispatches first and checks once. The model follows
the code.

## Model

| member | source | states |
|---|---|---|
| `Operation.KeyPath` | operationqueues/MyAsynchronousOperation.swift:50-58 | every state's key names a boolean getter: it is longer than two characters and starts with "is" |
| `Operation.KeyPathInjective` | MyOperationsPlayground.playground/Sources/MyAsynchronousOperation.swift:36-44 | two states share a key exactly when they are the same state, so the three keys are distinct |
| `Operation.Notifications` | operationqueues/MyAsynchronousOperation.swift:64-73 | one assignment emits one well-formed block: first the new key is opened, then the old key is opened, then the old key is closed, then the new key is closed |
| `Operation.LogExtend` | operationqueues/MyAsynchronousOperation.swift:64-73 | appending the block of one more assignment to a well-formed log gives a well-formed log |
| `Operation.LogWillsAnswered` | operationqueues/MyAsynchronousOperation.swift:64-73 | in a well-formed log, every will-change is followed later by a did-change of the same key |
| `Operation.LogDidsPreceded` | operationqueues/MyAsynchronousOperation.swift:64-73 | in a well-formed log, every did-change comes after a will-change of the same key |
| `Operation.BlockBalanced` | operationqueues/MyAsynchronousOperation.swift:66-71 | one assignment's block opens and closes each key equally often |
| `Operation.LogBalanced` | operationqueues/MyAsynchronousOperation.swift:64-73 | in a well-formed log, each key has as many will-changes as did-changes |
| `Operation.FlagsFollowState` | MyOperationsPlayground.playground/Sources/MyAsynchronousOperation.swift:100-114 | `executing` and `finished` are never both true; `ready` excludes both and implies the inherited readiness; with inherited readiness exactly one flag holds; `asynchronous` is always true |
| `Operation.ReadyFlag` | operationqueues/MyAsynchronousOperation.swift:114-116 | `ready` is the inherited readiness and the Ready state; its contract is in `Operation.FlagsFollowState` |
| `Operation.ExecutingFlag` | operationqueues/MyAsynchronousOperation.swift:118-120 | `executing` holds in the Executing state; its contract is in `Operation.FlagsFollowState` |
| `Operation.FinishedFlag` | operationqueues/MyAsynchronousOperation.swift:122-124 | `finished` holds in the Finished state; its contract is in `Operation.FlagsFollowState` |
| `Operation.AsynchronousFlag` | operationqueues/MyAsynchronousOperation.swift:126-128 | `asynchronous` is constantly true; its contract is in `Operation.FlagsFollowState` |
| `Lifecycle.Assign` | operationqueues/MyAsynchronousOperation.swift:64-73 | the assignment with its will-set and did-set observers; its contract is in `Lifecycle.AssignNotifies`, `Lifecycle.AssignKeepsLog` and `Lifecycle.AssignValid` |
| `Lifecycle.Cancel` | operationqueues/MyAsynchronousOperation.swift:79 | sets the flag that `start` and the body check; its contract is in `Lifecycle.StepValid` and `Lifecycle.RunValid` (never undone) and `Lifecycle.CancelledPrintsNothing` |
| `Lifecycle.Start` | operationqueues/MyAsynchronousOperation.swift:78-110 | `start()` as one step; its contract is in `Lifecycle.StartWhenCancelled`, `Lifecycle.StartWhenNotCancelled` and `Lifecycle.StartValid` |
| `Lifecycle.HandOff` | operationqueues/MyAsynchronousOperation.swift:88-99 | one run of the dispatched body; its contract is in `Lifecycle.HandOffFinishes` and `Lifecycle.HandOffValid` |
| `Lifecycle.AssignAnnounces` | operationqueues/MyAsynchronousOperation.swift:64-73 | assigning a state other than Ready leaves a well-formed, non-empty log whose last event announces that state |
| `Lifecycle.AssignValid` | operationqueues/MyAsynchronousOperation.swift:64-73 | assigning a state other than Ready keeps the lifecycle invariant when the outstanding bodies and the output already agree with that state |
| `Lifecycle.AssignNotifies` | operationqueues/MyAsynchronousOperation.swift:64-73 | an assignment sets the state and appends will(new), will(old), did(old), did(new), and nothing else changes |
| `Lifecycle.StartWhenCancelled` | operationqueues/MyAsynchronousOperation.swift:79-82 | `start` on a cancelled operation makes `finished` true and `executing` false; it dispatches nothing, prints nothing, and emits the notifications of the move to Finished |
| `Lifecycle.StartWhenNotCancelled` | operationqueues/MyAsynchronousOperation.swift:84-109 | `start` on an operation that is not cancelled dispatches exactly one body and returns with `executing` true and `finished` false; it prints nothing |
| `Lifecycle.HandOffFinishes` | operationqueues/MyAsynchronousOperation.swift:88-99 | the body always leaves the operation Finished and consumes its dispatch; it prints the greeting exactly when the operation was not cancelled at its check |
| `Lifecycle.InitialValid` | operationqueues/MyAsynchronousOperation.swift:64 | a new operation is Ready, not cancelled, and satisfies the lifecycle invariant |
| `Lifecycle.AssignKeepsLog` | operationqueues/MyAsynchronousOperation.swift:64-73 | after an assignment the log is still well formed, and its last event is the did-change of the new state's key |
| `Lifecycle.StartValid` | operationqueues/MyAsynchronousOperation.swift:78-110 | starting a Ready operation keeps the invariant and leaves Ready |
| `Lifecycle.HandOffValid` | operationqueues/MyAsynchronousOperation.swift:88-99 | running a dispatched body keeps the invariant |
| `Lifecycle.StepValid` | operationqueues/MyAsynchronousOperation.swift:78-110 | every enabled step keeps the invariant, never lowers the state's rank in Ready < Executing < Finished, and never clears `cancelled` |
| `Lifecycle.RunValid` | operationqueues/MyAsynchronousOperation.swift:78-110 | over any sequence of starts, cancels and body runs, the invariant holds, the state never goes backwards, and a cancellation is never undone |
| `Lifecycle.ReachableValid` | operationqueues/MyAsynchronousOperation.swift:64-110 | every operation reachable from a new one satisfies the invariant: Executing exactly while one body is outstanding, at most one print and only once Finished, a well-formed log whose last event announces the current state |
| `Lifecycle.FinishedIsFinal` | operationqueues/MyAsynchronousOperation.swift:92-98 | after Finished no step changes the state, the log or the output, and no body is outstanding |
| `Lifecycle.CancelledPrintsNothing` | operationqueues/MyAsynchronousOperation.swift:92-97 | once cancelled, no later step prints, whether the cancellation came before `start` or while a body was outstanding |
| `Lifecycle.StartedOperationFinishes` | operationqueues/MyAsynchronousOperation.swift:88-105 | a started operation is either Finished or has a dispatched body whose run finishes it |
| `Lifecycle.ReachableLogBalanced` | operationqueues/MyAsynchronousOperation.swift:64-73 | the log of every reachable operation answers each will-change with a later did-change, precedes each did-change with a will-change, and balances every key |
| `Lifecycle.SingleOperationCompletes` | operationqueuesTests/operationqueuesTests.swift:70-88 | a new operation started and then handed off ends finished and not cancelled, having printed once, with the notifications of Ready to Executing and then Executing to Finished |
| `Interleaving.FirstHalf` | operationqueues/MyAsynchronousOperation.swift:79-88 | the first half of `start()`: Finished when cancelled, else the first of dispatch and Executing; its contract is in `Interleaving.HalvesComposeToStart` and `Interleaving.DispatchFirstRace` |
| `Interleaving.SecondHalf` | operationqueues/MyAsynchronousOperation.swift:105 | the second half of `start()`; its contract is in `Interleaving.HalvesComposeToStart` and `Interleaving.DispatchFirstRace` |
| `Interleaving.HalvesComposeToStart` | operationqueues/MyAsynchronousOperation.swift:84-109 | when nothing runs between them, the two halves of `start` amount to the atomic `start`, in either order |
| `Interleaving.DispatchFirstRace` | operationqueues/MyAsynchronousOperation.swift:88-105 | as written, the body can run between dispatch and the assignment of Executing. The state goes Ready to Finished and then back to Executing, with no body left, after the line has been printed |
| `Interleaving.StuckStaysExecuting` | operationqueues/MyAsynchronousOperation.swift:88-105 | an operation that is Executing after `start` returned and has no outstanding body stays Executing under every later move |
| `Interleaving.DispatchFirstCanHang` | operationqueues/MyAsynchronousOperation.swift:88-105 | as written, after the race the operation is never finished, whatever happens next |
| `Interleaving.StepSafe` | operationqueues/MyAsynchronousOperation.swift:88-105 | with Executing assigned first, or with the body deferred until `start` returns, every move keeps the interleaving invariant and never lowers the state |
| `Interleaving.RunSafe` | operationqueues/MyAsynchronousOperation.swift:88-105 | the same over any sequence of moves |
| `Interleaving.ExecutingFirstNeverRegresses` | operationqueues/MyAsynchronousOperation.swift:88-105 | with Executing assigned before the dispatch, the state never goes backwards under any interleaving, and a returned `start` never leaves an Executing operation without a body |
| `Interleaving.DispatchFirstDeferredNeverRegresses` | operationqueues/MyAsynchronousOperation.swift:88-105 | as written, the state never goes backwards when the body runs only after `start` has returned |
| `AsyncOperation.AsynchronousOperation.constructor` | MyOperationsPlayground.playground/Sources/MyAsynchronousOperation.swift:50 | a new operation is Ready, not cancelled, with no body outstanding, no notifications and no output |
| `AsyncOperation.AsynchronousOperation.SetState` | MyOperationsPlayground.playground/Sources/MyAsynchronousOperation.swift:50-59 | the state becomes the new value, the log grows by will(new), will(old), did(old), did(new), and no other field changes |
| `AsyncOperation.AsynchronousOperation.Cancel` | MyOperationsPlayground.playground/Sources/MyAsynchronousOperation.swift:78 | the flag the body checks becomes true; nothing else changes |
| `AsyncOperation.AsynchronousOperation.Start` | MyOperationsPlayground.playground/Sources/MyAsynchronousOperation.swift:64-96 | cancelled: finished, not executing, nothing dispatched. Otherwise: one more body dispatched and executing. Equals the value-level `start` |
| `AsyncOperation.AsynchronousOperation.RunHandOff` | MyOperationsPlayground.playground/Sources/MyAsynchronousOperation.swift:74-85 | finished afterwards, one dispatch consumed, and the greeting printed exactly when the operation was not cancelled. Equals the value-level hand-off |
| `AsyncOperation.AsynchronousOperation.IsReady` | MyOperationsPlayground.playground/Sources/MyAsynchronousOperation.swift:100-102 | `ready` of the object, through `Operation.ReadyFlag`; its contract is in `Operation.FlagsFollowState` |
| `AsyncOperation.AsynchronousOperation.IsExecuting` | MyOperationsPlayground.playground/Sources/MyAsynchronousOperation.swift:104-106 | `executing` of the object; used in the contract of `Start` |
| `AsyncOperation.AsynchronousOperation.IsFinished` | MyOperationsPlayground.playground/Sources/MyAsynchronousOperation.swift:108-110 | `finished` of the object; used in the contracts of `Start` and `RunHandOff` |
| `AsyncOperation.AsynchronousOperation.IsAsynchronous` | MyOperationsPlayground.playground/Sources/MyAsynchronousOperation.swift:112-114 | `asynchronous` of the object, always true; its contract is in `Operation.FlagsFollowState` |
| `AsyncOperation.StartThenHandOff` | operationqueuesTests/operationqueuesTests.swift:73-77 | a started and handed-off operation reports finished and not cancelled, and has printed its greeting once |
| `AsyncOperation.CancelThenStart` | MyOperationsPlayground.playground/Sources/MyAsynchronousOperation.swift:65-68 | an operation cancelled before `start` is finished and not executing, has nothing dispatched, and prints nothing |
| `AsyncOperation.CancelWhileDispatched` | MyOperationsPlayground.playground/Sources/MyAsynchronousOperation.swift:78-81 | an operation cancelled after `start` but before its body checks finishes without printing |

## Findings

| source | as written | input that shows it | evidently intended | confidence | as-written member | corrected member |
|---|---|---|---|---|---|---|
| operationqueues/MyAsynchronousOperation.swift:88-105 (and the playground copy at 74-91) | the body is dispatched before `state = .Executing` | a new operation that is not cancelled: the global queue runs the body before `start` reaches the assignment. The body prints and sets Finished, and observers are told isFinished. Then `start` sets Executing, and observers are told isExecuting. After line 105 `finished` is false again, and no body is left to set it | set Executing before dispatching the body; then the body's Finished is always the last assignment | medium; not executed | `Interleaving.DispatchFirstCanHang` | `Interleaving.ExecutingFirstNeverRegresses` |

`Lifecycle.Start` and the class's `Start` run both halves of `start()` as one step. For such a step
the two orders give the same result (`Interleaving.HalvesComposeToStart`). The class keeps the
source's statement order.

## Left out

- The queue is not part of this model: admission, the concurrency limit, priorities, dependencies
  and completion blocks belong to Foundation's `NSOperationQueue` and `NSOperation`. The queue is
  represented only by the rule in `Lifecycle.Step` and `Interleaving.Step` that `start` is invoked
  once, on a Ready operation.
- `cancel()` and the inherited `ready` are Foundation's. They appear only as a setter of the
  `cancelled` flag (without its own notifications) and as the boolean input `inheritedReady`.
- `AsyncOperation.AsynchronousOperation.Start` has no precondition, like the source. Calling it on an
  operation that has left Ready dispatches another body. The lifecycle lemmas cover only runs in
  which a queue starts the operation once.
- Threads are not modelled: `dispatch_async` onto a global queue and the `[weak self]` capture with
  its forced unwrap. A dispatched body is a pending step, and `Interleaving` covers only the
  interleaving of that step with the two halves of `start`.
- `Lifecycle.Assign`: the source does not synchronise `state`. Here each assignment with its four
  notifications is one atomic step, in `Lifecycle`, in `Interleaving` and in the class's `SetState`.
  In the source, the body's assignment and the one `start` makes run on two threads, and their
  will-set and did-set notifications can interleave. So the log properties (`IsLog`,
  `Lifecycle.ReachableLogBalanced`) hold only under this atomicity. Torn reads of `state` by
  observers are not modelled either.
- `Lifecycle.Start`: the whole of `start()` is one atomic step here. So the `Lifecycle` lemmas
  (`StepValid`, `RunValid`, `ReachableValid`, `FinishedIsFinal`) cover only schedules in which the
  dispatched body runs after `start` has returned. The atomic step is the as-written order with the
  body deferred, and it is equally the reversed order (`Interleaving.HalvesComposeToStart`). The race
  in which the body runs inside `start` is modelled in `Interleaving` only.
- The delivery of key-value observing notifications is not modelled. This includes `SimpleObserver`
  and its registration and printing. Only the order and keys of the notifications are modelled.
- `print` is modelled as appending the line to `output`. The console is not modelled.
- `MySynchronousOperation` is not part of this model. Its state changes come from Foundation's
  inherited `start`.
- The `debugDescription` extension, the playground script and the XCTest timing harness are not
  part of this model.
