/**
 * The transition-dispatch engine behind the FSM interface, as values.
 *
 * A Config is everything the machine holds: the transition table (rules
 * per event, in registration order), the enter, leave and cycle blocks per
 * state, the current state, the transitions whose `done` has not been
 * called yet, and a trace of every caller block the engine has invoked.
 * Each public operation of FSM is one function from a Config to the next.
 * Caller blocks are opaque: a block is known by its identity alone, and
 * running it is recorded as one Invocation in the trace.
 */
module Engine {
  import opened Wrappers
  import opened StateOptions

  type State = string
  type EventName = string

  /** The identity of a block supplied by the caller. */
  type BlockId = nat

  /** The identity of one `done` callback handed to a transition block. */
  type Ticket = nat

  /** A rule registered with on:transitionFromState:toState:usingBlock:; None is a nil block. */
  datatype Rule = Rule(from: State, to: State, block: Option<BlockId>)

  /** A transition whose block has started and whose `done` has not been called. */
  datatype Transition = Transition(event: EventName, rule: Rule)

  /** The three kinds of per-state block. */
  datatype HookKind = EnterHook | LeaveHook | CycleHook

  /** One call into a caller block: a state hook, or a transition block with its userInfo. */
  datatype Invocation<U> =
    | Hook(kind: HookKind, state: State, block: BlockId)
    | Work(event: EventName, from: State, to: State, block: BlockId, userInfo: Option<U>)

  datatype Config<U> = Config(
    rules: map<EventName, seq<Rule>>,
    enterHooks: map<State, BlockId>,
    leaveHooks: map<State, BlockId>,
    cycleHooks: map<State, BlockId>,
    current: Option<State>,
    pending: map<Ticket, Transition>,
    nextTicket: Ticket,
    trace: seq<Invocation<U>>)

  /** What setState:options: returns and the machine it leaves. */
  datatype StateSet<U> = StateSet(ok: bool, next: Config<U>)

  /**
   * What event:userInfo:exclusive: returns and the machine it leaves; when the
   * rule has a block, `done` is the callback handed to that block.
   */
  datatype Dispatch<U> = Dispatch(accepted: bool, next: Config<U>, done: Option<Ticket>)

  /** A fresh machine: no rules, no hooks, no current state, nothing in flight. */
  function Empty<U>(): (c: Config<U>)
    ensures c.current == None && !InFlight(c) && Inv(c) && c.trace == []
    ensures forall e :: RulesFor(c, e) == []
    ensures c.enterHooks == map[] && c.leaveHooks == map[] && c.cycleHooks == map[]
  {
    Config(map[], map[], map[], map[], None, map[], 0, [])
  }

  /** A transition has started and its `done` has not been called yet. */
  predicate InFlight<U>(c: Config<U>) {
    c.pending != map[]
  }

  /**
   * The machine invariant: every outstanding `done` has a ticket below the
   * next one to be handed out, and belongs to a rule that has a block.
   */
  ghost predicate Inv<U>(c: Config<U>) {
    forall t :: t in c.pending ==> t < c.nextTicket && c.pending[t].rule.block.Some?
  }

  /** The rules registered for an event, oldest first; none for an unknown event. */
  function RulesFor<U>(c: Config<U>, e: EventName): seq<Rule> {
    if e in c.rules then c.rules[e] else []
  }

  /** The blocks registered for one hook kind. */
  function Hooks<U>(c: Config<U>, kind: HookKind): map<State, BlockId> {
    match kind
    case EnterHook => c.enterHooks
    case LeaveHook => c.leaveHooks
    case CycleHook => c.cycleHooks
  }

  /** Running a state's hook: its block is invoked if one is registered, else nothing happens. */
  function HookRun<U>(hooks: map<State, BlockId>, kind: HookKind, s: State): (r: seq<Invocation<U>>)
    ensures |r| <= 1
    ensures r != [] <==> s in hooks
    ensures forall i :: 0 <= i < |r| ==> r[i] == Hook(kind, s, hooks[s])
  {
    if s in hooks then [Hook(kind, s, hooks[s])] else []
  }

  /** The index of the first rule leaving state s, or None when no rule leaves s. */
  function FirstMatch(rules: seq<Rule>, s: State): (r: Option<nat>)
    ensures r.Some? ==> r.value < |rules| && rules[r.value].from == s
    ensures r.Some? ==> forall j :: 0 <= j < r.value ==> rules[j].from != s
    ensures r.None? <==> forall j :: 0 <= j < |rules| ==> rules[j].from != s
  {
    if |rules| == 0 then None
    else if rules[0].from == s then Some(0)
    else
      match FirstMatch(rules[1..], s)
      case None =>
        assert forall j :: 1 <= j < |rules| ==> rules[j] == rules[1..][j - 1];
        None
      case Some(i) =>
        assert forall j :: 1 <= j < i + 1 ==> rules[j] == rules[1..][j - 1];
        Some(i + 1)
  }

  /** Some rule for event e leaves the current state. */
  ghost predicate Handles<U>(c: Config<U>, e: EventName) {
    c.current.Some? &&
    exists j :: 0 <= j < |RulesFor(c, e)| && RulesFor(c, e)[j].from == c.current.value
  }

  /** The rule dispatch uses for event e in the current state: the first registered one. */
  function FindRule<U>(c: Config<U>, e: EventName): (r: Option<Rule>)
    ensures r.Some? <==> Handles(c, e)
    ensures r.Some? ==> r.value.from == c.current.value
    ensures r.Some? ==> exists i :: 0 <= i < |RulesFor(c, e)| && r.value == RulesFor(c, e)[i] &&
                          forall j :: 0 <= j < i ==> RulesFor(c, e)[j].from != c.current.value
  {
    match c.current
    case None => None
    case Some(s) =>
      match FirstMatch(RulesFor(c, e), s)
      case None => None
      case Some(i) => Some(RulesFor(c, e)[i])
  }

  /** on:transitionFromState:toState:usingBlock: appends a rule to the event's table. */
  function On<U>(c: Config<U>, e: EventName, from: State, to: State, block: Option<BlockId>): (r: Config<U>)
    ensures RulesFor(r, e) == RulesFor(c, e) + [Rule(from, to, block)]
    ensures forall e' :: e' != e ==> RulesFor(r, e') == RulesFor(c, e')
    ensures r.(rules := c.rules) == c
  {
    c.(rules := c.rules[e := RulesFor(c, e) + [Rule(from, to, block)]])
  }

  /** enterState:, leaveState: and cycleState: usingBlock: replace any earlier block of that kind. */
  function RegisterHook<U>(c: Config<U>, kind: HookKind, s: State, block: BlockId): (r: Config<U>)
    ensures Hooks(r, kind) == Hooks(c, kind)[s := block]
    ensures forall k :: k != kind ==> Hooks(r, k) == Hooks(c, k)
    ensures r.rules == c.rules && r.current == c.current && r.pending == c.pending
    ensures r.nextTicket == c.nextTicket && r.trace == c.trace
  {
    match kind
    case EnterHook => c.(enterHooks := c.enterHooks[s := block])
    case LeaveHook => c.(leaveHooks := c.leaveHooks[s := block])
    case CycleHook => c.(cycleHooks := c.cycleHooks[s := block])
  }

  /**
   * setState:options: makes s current without a transition, then runs s's
   * enter block if the options ask for it and then its cycle block if they
   * ask for that. It is refused, changing nothing, while a transition is in flight.
   */
  function SetState<U>(c: Config<U>, s: State, o: Options): (r: StateSet<U>)
    ensures r.ok <==> !InFlight(c)
    ensures !r.ok ==> r.next == c
    ensures r.ok ==> r.next.current == Some(s)
    ensures r.next.(current := c.current, trace := c.trace) == c
    ensures |r.next.trace| >= |c.trace| && r.next.trace[..|c.trace|] == c.trace
  {
    if InFlight(c) then StateSet(false, c)
    else
      var entered := if RequestsEnter(o) then HookRun(c.enterHooks, EnterHook, s) else [];
      var cycled := if RequestsCycle(o) then HookRun(c.cycleHooks, CycleHook, s) else [];
      StateSet(true, c.(current := Some(s), trace := c.trace + entered + cycled))
  }

  /** The hook that settles a rule: cycle for a rule that loops on one state, enter otherwise. */
  function SettleKind(rule: Rule): (k: HookKind)
    ensures k == CycleHook <==> rule.from == rule.to
    ensures k != LeaveHook
  {
    if rule.from == rule.to then CycleHook else EnterHook
  }

  /**
   * The settling half of a transition: the destination's cycle block runs
   * when the rule loops on one state and its enter block otherwise, then
   * the destination becomes current.
   */
  function Settle<U>(c: Config<U>, rule: Rule): (r: Config<U>)
    ensures r.current == Some(rule.to)
    ensures r.(current := c.current, trace := c.trace) == c
  {
    var kind := SettleKind(rule);
    c.(trace := c.trace + HookRun(Hooks(c, kind), kind, rule.to), current := Some(rule.to))
  }

  /**
   * event:userInfo:exclusive:. Refused, changing nothing, when no rule for e
   * leaves the current state, or when `exclusive` is set and a transition is
   * in flight. Otherwise the first matching rule starts: the current state's
   * leave block runs, then the rule's block with userInfo. A nil block
   * settles at once; a block receives a fresh `done`, and the transition
   * stays in flight until that `done` is called.
   */
  function Fire<U>(c: Config<U>, e: EventName, userInfo: Option<U>, exclusive: bool): (r: Dispatch<U>)
    ensures r.accepted <==> Handles(c, e) && !(exclusive && InFlight(c))
    ensures !r.accepted ==> r.next == c && r.done.None?
    ensures r.accepted ==> (r.done.Some? <==> FindRule(c, e).value.block.Some?)
    ensures r.done.Some? ==> r.done.value == c.nextTicket && r.done.value in r.next.pending
    ensures Inv(c) && r.done.Some? ==> r.done.value !in c.pending
    ensures r.done.None? ==> r.next.nextTicket == c.nextTicket
    ensures r.next.(trace := c.trace, current := c.current, pending := c.pending, nextTicket := c.nextTicket) == c
    ensures r.done.Some? ==> r.next.pending == c.pending[r.done.value := Transition(e, FindRule(c, e).value)]
    ensures r.done.Some? ==> r.next.nextTicket == c.nextTicket + 1 && r.next.current == c.current
    ensures r.accepted && r.done.None? ==> r.next.pending == c.pending && r.next.current == Some(FindRule(c, e).value.to)
    ensures Inv(c) ==> Inv(r.next)
  {
    match FindRule(c, e)
    case None => Dispatch(false, c, None)
    case Some(rule) =>
      if exclusive && InFlight(c) then Dispatch(false, c, None)
      else
        var left := c.(trace := c.trace + HookRun(c.leaveHooks, LeaveHook, rule.from));
        match rule.block
        case None => Dispatch(true, Settle(left, rule), None)
        case Some(b) =>
          var t := left.nextTicket;
          Dispatch(true,
                   left.(trace := left.trace + [Work(e, rule.from, rule.to, b, userInfo)],
                         pending := left.pending[t := Transition(e, rule)],
                         nextTicket := t + 1),
                   Some(t))
  }

  /**
   * Calling the `done` with ticket t settles its transition and takes it out
   * of flight. A `done` that is not outstanding (already called) does nothing.
   */
  function Done<U>(c: Config<U>, t: Ticket): (r: Config<U>)
    ensures t !in c.pending ==> r == c
    ensures t in c.pending ==> r.current == Some(c.pending[t].rule.to) && r.pending == c.pending - {t}
    ensures r.(current := c.current, pending := c.pending, trace := c.trace) == c
    ensures Inv(c) ==> Inv(r)
  {
    if t in c.pending then Settle(c.(pending := c.pending - {t}), c.pending[t].rule) else c
  }
}
