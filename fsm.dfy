/**
 * The FSM object: its transition table, hook tables, current state and
 * outstanding `done` callbacks are fields that its methods update in place.
 * Every method is proved against the engine function for the same
 * operation, through Snapshot(), the machine's value as an Engine.Config.
 */
module Fsm {
  import opened Wrappers
  import opened StateOptions
  import opened Engine

  class FSM<U> {
    var rules: map<EventName, seq<Rule>>
    var enterHooks: map<State, BlockId>
    var leaveHooks: map<State, BlockId>
    var cycleHooks: map<State, BlockId>
    var current: Option<State>
    /** The transitions whose `done` has not been called, by the ticket of that `done`. */
    var pending: map<Ticket, Transition>
    var nextTicket: Ticket
    /** Every caller block run so far, in order. */
    ghost var trace: seq<Invocation<U>>

    ghost function Snapshot(): Config<U>
      reads this
    {
      Config(rules, enterHooks, leaveHooks, cycleHooks, current, pending, nextTicket, trace)
    }

    ghost predicate Valid()
      reads this
    {
      Inv(Snapshot())
    }

    constructor ()
      ensures Valid() && Snapshot() == Empty()
    {
      rules, enterHooks, leaveHooks, cycleHooks := map[], map[], map[], map[];
      current, pending, nextTicket := None, map[], 0;
      trace := [];
    }

    /** on:transitionFromState:toState:usingBlock:; a nil block is None. */
    method On(e: EventName, from: State, to: State, block: Option<BlockId>)
      requires Valid()
      modifies this
      ensures Valid() && Snapshot() == Engine.On(old(Snapshot()), e, from, to, block)
    {
      var existing := if e in rules then rules[e] else [];
      rules := rules[e := existing + [Rule(from, to, block)]];
    }

    /** enterState:usingBlock: */
    method EnterState(s: State, block: BlockId)
      requires Valid()
      modifies this
      ensures Valid() && Snapshot() == RegisterHook(old(Snapshot()), EnterHook, s, block)
    {
      enterHooks := enterHooks[s := block];
    }

    /** leaveState:usingBlock: */
    method LeaveState(s: State, block: BlockId)
      requires Valid()
      modifies this
      ensures Valid() && Snapshot() == RegisterHook(old(Snapshot()), LeaveHook, s, block)
    {
      leaveHooks := leaveHooks[s := block];
    }

    /** cycleState:usingBlock: */
    method CycleState(s: State, block: BlockId)
      requires Valid()
      modifies this
      ensures Valid() && Snapshot() == RegisterHook(old(Snapshot()), CycleHook, s, block)
    {
      cycleHooks := cycleHooks[s := block];
    }

    /** setState:options: returns false, changing nothing, while a transition is in flight. */
    method SetState(s: State, o: Options) returns (ok: bool)
      requires Valid()
      modifies this
      ensures Valid()
      ensures ok == Engine.SetState(old(Snapshot()), s, o).ok
      ensures Snapshot() == Engine.SetState(old(Snapshot()), s, o).next
    {
      if pending != map[] {
        return false;
      }
      current := Some(s);
      if RequestsEnter(o) {
        trace := trace + HookRun(enterHooks, EnterHook, s);
      }
      if RequestsCycle(o) {
        trace := trace + HookRun(cycleHooks, CycleHook, s);
      }
      ok := true;
    }

    /**
     * The rule dispatch would use for event e now: the table's rules for e
     * are scanned in registration order for the first that leaves the
     * current state.
     */
    method Lookup(e: EventName) returns (r: Option<Rule>)
      ensures r == FindRule(Snapshot(), e)
      ensures r.Some? ==> r.value in RulesFor(Snapshot(), e) && Some(r.value.from) == current
    {
      if current.None? {
        return None;
      }
      var s := current.value;
      var candidates := if e in rules then rules[e] else [];
      var i := 0;
      while i < |candidates|
        invariant 0 <= i <= |candidates|
        invariant forall j :: 0 <= j < i ==> candidates[j].from != s
      {
        if candidates[i].from == s {
          return Some(candidates[i]);
        }
        i := i + 1;
      }
      return None;
    }

    /**
     * event:userInfo:exclusive:. `done` is the callback handed to the
     * rule's block, None for a nil block or a refused event.
     */
    method Event(e: EventName, userInfo: Option<U>, exclusive: bool) returns (accepted: bool, done: Option<Ticket>)
      requires Valid()
      modifies this
      ensures Valid()
      ensures accepted == Fire(old(Snapshot()), e, userInfo, exclusive).accepted
      ensures done == Fire(old(Snapshot()), e, userInfo, exclusive).done
      ensures Snapshot() == Fire(old(Snapshot()), e, userInfo, exclusive).next
    {
      var found := Lookup(e);
      if found.None? || (exclusive && pending != map[]) {
        return false, None;
      }
      var rule := found.value;
      trace := trace + HookRun(leaveHooks, LeaveHook, rule.from);
      match rule.block
      case None =>
        var settleHooks := if rule.from == rule.to then cycleHooks else enterHooks;
        trace := trace + HookRun(settleHooks, SettleKind(rule), rule.to);
        current := Some(rule.to);
        accepted, done := true, None;
      case Some(b) =>
        trace := trace + [Work(e, rule.from, rule.to, b, userInfo)];
        pending := pending[nextTicket := Transition(e, rule)];
        accepted, done := true, Some(nextTicket);
        nextTicket := nextTicket + 1;
    }

    /** event:userInfo:, the non-exclusive form. */
    method EventWithUserInfo(e: EventName, userInfo: Option<U>) returns (accepted: bool, done: Option<Ticket>)
      requires Valid()
      modifies this
      ensures Valid()
      ensures accepted == Fire(old(Snapshot()), e, userInfo, false).accepted
      ensures done == Fire(old(Snapshot()), e, userInfo, false).done
      ensures Snapshot() == Fire(old(Snapshot()), e, userInfo, false).next
    {
      accepted, done := Event(e, userInfo, false);
    }

    /** event:, the non-exclusive form with a nil userInfo. */
    method EventByName(e: EventName) returns (accepted: bool, done: Option<Ticket>)
      requires Valid()
      modifies this
      ensures Valid()
      ensures accepted == Fire(old(Snapshot()), e, None, false).accepted
      ensures done == Fire(old(Snapshot()), e, None, false).done
      ensures Snapshot() == Fire(old(Snapshot()), e, None, false).next
    {
      accepted, done := Event(e, None, false);
    }

    /** Calls the `done` callback with ticket t; a `done` already called does nothing. */
    method Done(t: Ticket)
      requires Valid()
      modifies this
      ensures Valid() && Snapshot() == Engine.Done(old(Snapshot()), t)
    {
      if t in pending {
        var transition := pending[t];
        pending := pending - {t};
        var rule := transition.rule;
        var settleHooks := if rule.from == rule.to then cycleHooks else enterHooks;
        trace := trace + HookRun(settleHooks, SettleKind(rule), rule.to);
        current := Some(rule.to);
      }
    }
  }
}
