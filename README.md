# FSM — a verified model of a small finite-state-machine engine

This project models the `FSM` engine of Orion98MC/FSM, an Objective-C state
machine whose whole public surface is declared in `FSM.h`. The host registers
transitions per event (`on:transitionFromState:toState:usingBlock:`) and
enter, leave and cycle blocks per state. It sets a starting state with
`setState:options:` and then fires events with `event:userInfo:exclusive:` and
its two shorter forms. A transition's block receives a `done` callback, and
the transition settles only when `done` is called. Until then it is *in
flight*, and an event fired with `exclusive` is refused.

The model has four layers:

- `StateOptions` (`state_options.dfy`): the `FSMStateOptions` bit flags
  (Initial = 0, Enter = 1 << 0, Cycle = 1 << 1) as a 32-bit word, and what
  each bit requests.
- `Engine` (`engine.dfy`): the machine as a value (`Config`). It holds the
  rules per event in registration order, the hook tables, the current state,
  the outstanding `done` callbacks (by ticket) and a trace of every caller
  block run. Each public operation is a function from one `Config` to the
  next: `On`, `RegisterHook`, `SetState`, `Fire` (event dispatch) and `Done`.
- `Properties` (`properties.dfy`): lemmas that relate several operations.
  They cover first registered wins, last hook registration wins, which hooks
  `setState` runs and in which order, the order of hooks around a
  transition, the exclusive window, and the usage example in the header.
- `Fsm` (`fsm.dfy`): class `FSM<U>`, whose fields the methods update in
  place. Each method is proved equal to the engine function for the same
  operation through `Snapshot()`. `Lookup` scans the event's rules with a
  loop. `U` is the type of the opaque `userInfo`, and `None` stands for nil.
- `Usage` (`usage.dfy`): clients of the class that replay the header's
  example and the exclusive window.

Caller blocks are opaque. A block is known only by its identity (`BlockId`),
and running it appends one `Invocation` to the trace. The `done` callback
handed to a transition block is a `Ticket`. The caller invokes it later with
`FSM.Done(ticket)`.

Several behaviours are not visible in the interface, because the engine's
implementation file is not part of this model. They are decided as follows:

- When two rules for one event leave the same state, the first registered
  wins (`FirstMatch`).
- An event fired before any `setState` finds no rule and is refused.
- Without `exclusive`, an event is dispatched even while another
  transition is in flight. Each started transition keeps its own `done`, and
  the machine is in flight while any of them is outstanding.
- A `done` that has already been called does nothing.
- `setState:options:` is refused while a transition is in flight. It runs
  the enter block before the cycle block when both bits are set.

## Model

| member | source | states |
|---|---|---|
| StateOptions.Combine | FSM.h:43-47 | the options word for a choice of hooks requests exactly those hooks, and is Initial exactly when it requests none |
| StateOptions.FlagMeanings | FSM.h:43-47 | Initial requests no hook; Enter only the enter block; Cycle only the cycle block; Enter and Cycle together request both |
| StateOptions.FlagsIndependent | FSM.h:43-47 | setting one flag never changes whether the other is requested |
| Engine.Empty | FSM.h:13 | a new machine has no current state, no rules for any event, no enter, leave or cycle blocks, nothing in flight and has run no block |
| Engine.HookRun | FSM.h:53-55 | running a state's hook invokes its registered block once, and is a no-op when none is registered |
| Engine.FirstMatch | FSM.h:52 | the result is the lowest index of a rule leaving the state, and None exactly when no rule leaves it |
| Engine.FindRule | FSM.h:58 | a rule is found exactly when a rule for the event leaves the current state; the rule found is one of the event's registered rules, leaves the current state, and no earlier-registered rule for the event does |
| Engine.On | FSM.h:52 | registering appends the rule to that event's rules, and leaves other events' rules and all other state alone |
| Engine.RegisterHook | FSM.h:53-55 | registering a block for a state replaces that state's block of that kind only, and changes nothing else |
| Engine.SetState | FSM.h:57 | setState succeeds exactly when nothing is in flight; a refusal changes nothing; success makes the state current and only extends the trace |
| Engine.Settle | FSM.h:40-41 | settling a transition commits its destination as the current state and changes nothing but the trace |
| Engine.Fire | FSM.h:58 | an event is accepted exactly when a rule for it leaves the current state and it is not exclusive during a transition in flight; a refusal changes nothing; an accepted event hands out a `done` exactly when its rule has a block; rules and hook tables never change; with a block the found rule is added in flight under a `done` not already outstanding and the state is unchanged; with a nil block nothing is added in flight, the ticket counter is unchanged and the destination is current; the invariant is kept |
| Engine.Done | FSM.h:40-41 | calling an outstanding `done` commits its rule's destination and takes only that transition out of flight; rules, hook tables and ticket counter never change; any other call changes nothing; the invariant is kept |
| Engine.SettleKind | FSM.h:55 | a transition settles with the cycle block exactly when it loops on one state, and never with a leave block |
| Properties.FirstMatchAppend | FSM.h:52 | appending a rule keeps an earlier match, and matches the new rule only when no earlier rule leaves the state |
| Properties.FirstRegisteredWins | FSM.h:52 | after any registration, dispatch uses the first registered rule leaving the current state |
| Properties.OnOtherEventUnchanged | FSM.h:52 | registering a rule for one event never changes how another event is dispatched |
| Properties.LastHookWins | FSM.h:53-55 | a second registration of the same hook kind for a state replaces the first |
| Properties.SetStateHooks | FSM.h:57 | on an idle machine setState runs only that state's blocks; the enter block runs iff the Enter bit is set and one is registered, likewise cycle; enter comes before cycle |
| Properties.SetStateInitialRunsNoHook | FSM.h:44 | setState with Initial runs no block |
| Properties.StartOrder | FSM.h:41 | starting a transition with a block runs the source's registered leave block (if any) and then the transition block with the caller's userInfo, and nothing else; the current state is unchanged |
| Properties.SettleOrder | FSM.h:40-41 | calling an outstanding `done` runs only the destination's registered enter block, or its registered cycle block for a looping rule, and then the destination is current |
| Properties.HookOrderWithBlock | FSM.h:41 | over a whole transition: the registered leave block, then the transition block, then, only after `done`, exactly the registered enter (or cycle) block of the destination; the destination becomes current only at `done` |
| Properties.ReplacedEnterBlockRuns | FSM.h:53 | after a new enter block is registered for a state, completing a transition into it runs exactly that block |
| Properties.HookOrderNilBlock | FSM.h:21-22 | a rule with a nil block needs no `done`: the registered leave block, then the registered enter (or cycle) block run, and the destination is current when the event returns |
| Properties.ExclusiveRefusedInFlight | FSM.h:58 | while a transition is in flight an exclusive event is refused and changes nothing |
| Properties.NonExclusiveNotBlocked | FSM.h:59-60 | a non-exclusive event is accepted whenever a rule matches, in flight or not |
| Properties.ExclusiveWindow | FSM.h:58 | between a transition's start and its `done`, every exclusive event and every setState is refused; after `done` the machine is idle in the destination and exclusive events are accepted exactly when a rule matches |
| Properties.KeepsOutstanding | FSM.h:58-60 | starting a transition never displaces one in flight: every outstanding `done` stays outstanding for the same transition, and a new `done` is the only addition |
| Properties.DoneTwiceIsNoOp | FSM.h:40-41 | calling the same `done` twice has the effect of calling it once |
| Properties.UsageMachine | FSM.h:13-26 | the header's setup registers one "Power" rule with a block, one looping "InsertCoin" rule with a nil block, and PoweredDown's enter block |
| Properties.UsageScenario | FSM.h:13-36 | setState(PoweredDown, Enter) runs PoweredDown's enter block; "Power" is accepted and runs its block, and the state stays PoweredDown until `done`, then becomes PoweredUp; "InsertCoin" then completes at once in PoweredUp; "Power" is refused there |
| Properties.SelfLoopRunsCycle | FSM.h:21-22 | firing a rule that loops on a state with a nil block runs that state's cycle block and not its enter block, and the state stays current |
| Fsm.FSM.constructor | FSM.h:13 | a new FSM is the empty machine |
| Fsm.FSM.On | FSM.h:52 | the object's tables become the engine's `On` of its old value |
| Fsm.FSM.EnterState | FSM.h:53 | the object becomes the engine's enter-hook registration of its old value |
| Fsm.FSM.LeaveState | FSM.h:54 | the object becomes the engine's leave-hook registration of its old value |
| Fsm.FSM.CycleState | FSM.h:55 | the object becomes the engine's cycle-hook registration of its old value |
| Fsm.FSM.SetState | FSM.h:57 | the result and the new object state are those of the engine's SetState, and the invariant is kept |
| Fsm.FSM.Lookup | FSM.h:58 | the scan of the event's rules returns the engine's first-registered rule for the current state, without changing the object |
| Fsm.FSM.Event | FSM.h:58 | the result, the `done` handed to the block and the new object state are those of the engine's Fire, and the invariant is kept |
| Fsm.FSM.EventWithUserInfo | FSM.h:59 | behaves as Event with exclusive false |
| Fsm.FSM.EventByName | FSM.h:60 | behaves as Event with a nil userInfo and exclusive false |
| Fsm.FSM.Done | FSM.h:40-41 | the object becomes the engine's Done of its old value, and the invariant is kept |
| Usage.NewUsageMachine | FSM.h:13-26 | building the header's machine through the class gives the engine's usage machine |
| Usage.PowerUp | FSM.h:13-36 | through the class: setState succeeds, "Power" is accepted, the state is PoweredDown before `done` and PoweredUp after it, and "InsertCoin" completes at once without a `done` |
| Usage.ExclusiveWhileInFlight | FSM.h:58 | through the class: while "Power" waits for `done`, an exclusive event and setState are refused and the state stays PoweredDown; after `done` an exclusive "InsertCoin" is accepted |

## Left out

- The `name` property (FSM.h:50) is left out. It is a label with no behaviour.
- Object lifecycle (`alloc`/`init`, `retain`, NSObject) is left out. The
  constructor stands for `init`.
- The bodies of caller blocks are left out. A block is an identity, and
  running it is one trace entry. What a block does, including a block that
  calls the FSM again from inside itself, is not modelled.
- When a block calls `done` synchronously, the `done` happens before
  `event:` returns. The model calls `Done` right after `Event` returns.
  These differ only in when the caller sees the BOOL result.
- Thread safety is left out. The engine has no locking, and calls are
  modelled one at a time.
- A transition whose `done` is never called stays in flight forever. There
  is no timeout or cancellation, so none is modelled.
- Registering a nil enter, leave or cycle block is not modelled. Hook
  registration always takes a block, and only transition blocks may be nil
  (`Option<BlockId>`).
- The engine's implementation file is not part of this model.
  Tie-breaking, overlapping transitions and a repeated `done` follow the
  design described above, not code that could be cited.
