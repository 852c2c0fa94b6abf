/**
 * Properties of the engine that relate several operations: first
 * registration wins, last hook registration wins, the hooks setState runs,
 * the order of hooks around a transition, the exclusive in-flight window,
 * and the usage scenario written in the interface's header.
 */
module Properties {
  import opened Wrappers
  import opened StateOptions
  import opened Engine

  /** Every entry of s is a run of the `kind` block registered for `state` in `hooks`. */
  ghost predicate OnlyHooks<U>(s: seq<Invocation<U>>, kind: HookKind, state: State, hooks: map<State, BlockId>) {
    forall i :: 0 <= i < |s| ==> state in hooks && s[i] == Hook(kind, state, hooks[state])
  }

  /** Appending a rule never changes the first match of a state an earlier rule already leaves. */
  lemma {:induction false} FirstMatchAppend(rules: seq<Rule>, x: Rule, s: State)
    ensures FirstMatch(rules + [x], s) ==
      if FirstMatch(rules, s).Some? then FirstMatch(rules, s)
      else if x.from == s then Some(|rules|)
      else None
  {
    if |rules| > 0 && rules[0].from != s {
      assert (rules + [x])[1..] == rules[1..] + [x];
      FirstMatchAppend(rules[1..], x, s);
    }
  }

  /**
   * For any sequence of registrations, dispatch picks the first registered
   * rule: a new rule takes effect for the current state only when no earlier
   * rule for the same event leaves it.
   */
  lemma FirstRegisteredWins<U>(c: Config<U>, e: EventName, from: State, to: State, block: Option<BlockId>)
    ensures FindRule(On(c, e, from, to, block), e) ==
      if FindRule(c, e).Some? then FindRule(c, e)
      else if c.current == Some(from) then Some(Rule(from, to, block))
      else None
  {
    if c.current.Some? {
      FirstMatchAppend(RulesFor(c, e), Rule(from, to, block), c.current.value);
    }
  }

  /** Rules registered for other events never change how event e is dispatched. */
  lemma OnOtherEventUnchanged<U>(c: Config<U>, e: EventName, e': EventName, from: State, to: State, block: Option<BlockId>)
    requires e' != e
    ensures FindRule(On(c, e, from, to, block), e') == FindRule(c, e')
  {
  }

  /** A second registration of the same kind of block for the same state replaces the first. */
  lemma LastHookWins<U>(c: Config<U>, kind: HookKind, s: State, first: BlockId, second: BlockId)
    ensures RegisterHook(RegisterHook(c, kind, s, first), kind, s, second) == RegisterHook(c, kind, s, second)
  {
  }

  /**
   * The blocks `added` are the ones setState(s, o) must run: at most the
   * enter and the cycle block of s, each exactly when its bit is set in o
   * and a block is registered, and the enter block first.
   */
  ghost predicate RunsRequestedHooks<U>(added: seq<Invocation<U>>, c: Config<U>, s: State, o: Options) {
    && |added| <= 2
    && (forall i :: 0 <= i < |added| ==>
          added[i].Hook? && added[i].state == s && added[i].kind != LeaveHook &&
          s in Hooks(c, added[i].kind) && added[i].block == Hooks(c, added[i].kind)[s])
    && ((exists i :: 0 <= i < |added| && added[i].kind == EnterHook) <==> RequestsEnter(o) && s in c.enterHooks)
    && ((exists i :: 0 <= i < |added| && added[i].kind == CycleHook) <==> RequestsCycle(o) && s in c.cycleHooks)
    && (|added| == 2 ==> added[0].kind == EnterHook && added[1].kind == CycleHook)
  }

  /** setState:options: on an idle machine runs exactly the blocks its options request, enter before cycle. */
  lemma {:induction false} SetStateHooks<U>(c: Config<U>, s: State, o: Options)
    requires !InFlight(c)
    ensures RunsRequestedHooks(SetState(c, s, o).next.trace[|c.trace|..], c, s, o)
  {
    var enter := RequestsEnter(o) && s in c.enterHooks;
    var cycle := RequestsCycle(o) && s in c.cycleHooks;
    var added := SetState(c, s, o).next.trace[|c.trace|..];
    if !enter && !cycle {
      assert added == [];
    } else if !enter {
      assert added == [Hook(CycleHook, s, c.cycleHooks[s])];
      assert added[0].kind == CycleHook;
    } else if !cycle {
      assert added == [Hook(EnterHook, s, c.enterHooks[s])];
      assert added[0].kind == EnterHook;
    } else {
      assert added == [Hook(EnterHook, s, c.enterHooks[s]), Hook(CycleHook, s, c.cycleHooks[s])];
      assert added[0].kind == EnterHook && added[1].kind == CycleHook;
    }
  }

  /** With the Initial option setState runs no hook at all. */
  lemma SetStateInitialRunsNoHook<U>(c: Config<U>, s: State)
    requires !InFlight(c)
    ensures SetState(c, s, Initial).next.trace == c.trace
  {
  }

  /**
   * Starting a transition with a block: the trace grows by the source
   * state's leave block (when one is registered) and then the rule's block,
   * which receives the caller's userInfo; the current state is unchanged.
   */
  lemma {:induction false} StartOrder<U>(c: Config<U>, e: EventName, userInfo: Option<U>, exclusive: bool)
    requires Fire(c, e, userInfo, exclusive).accepted && FindRule(c, e).value.block.Some?
    ensures var rule := FindRule(c, e).value;
      var mid := Fire(c, e, userInfo, exclusive).next;
      var n := |c.trace|;
      && rule.block.Some?
      && |mid.trace| == n + (if rule.from in c.leaveHooks then 1 else 0) + 1
      && mid.trace[..n] == c.trace
      && OnlyHooks(mid.trace[n..|mid.trace| - 1], LeaveHook, rule.from, c.leaveHooks)
      && mid.trace[|mid.trace| - 1] == Work(e, rule.from, rule.to, rule.block.value, userInfo)
      && mid.current == c.current
  {
    var rule := FindRule(c, e).value;
    var left: seq<Invocation<U>> := HookRun(c.leaveHooks, LeaveHook, rule.from);
    var mid := Fire(c, e, userInfo, exclusive).next;
    assert mid.trace == c.trace + left + [Work(e, rule.from, rule.to, rule.block.value, userInfo)];
    assert mid.trace[|c.trace|..|mid.trace| - 1] == left;
  }

  /**
   * Calling an outstanding `done`: the trace grows only by the destination's
   * enter block, or its cycle block for a rule that loops (when one is
   * registered), and the destination becomes current.
   */
  lemma {:induction false} SettleOrder<U>(c: Config<U>, t: Ticket)
    requires t in c.pending
    ensures var rule := c.pending[t].rule;
      var fin := Done(c, t);
      && |fin.trace| == |c.trace| + (if rule.to in Hooks(c, SettleKind(rule)) then 1 else 0)
      && fin.trace[..|c.trace|] == c.trace
      && OnlyHooks(fin.trace[|c.trace|..], SettleKind(rule), rule.to, Hooks(c, SettleKind(rule)))
      && fin.current == Some(rule.to)
  {
    var rule := c.pending[t].rule;
    var settled: seq<Invocation<U>> := HookRun(Hooks(c, SettleKind(rule)), SettleKind(rule), rule.to);
    assert Done(c, t).trace == c.trace + settled;
    assert Done(c, t).trace[|c.trace|..] == settled;
  }

  /**
   * A whole transition with a block: the source's leave block, then the
   * rule's block, then, only once `done` is called, the destination's enter
   * (or cycle) block; the destination is current only after `done`.
   */
  lemma {:induction false} HookOrderWithBlock<U>(c: Config<U>, e: EventName, userInfo: Option<U>, exclusive: bool)
    requires Fire(c, e, userInfo, exclusive).accepted && FindRule(c, e).value.block.Some?
    ensures var rule := FindRule(c, e).value;
      var mid := Fire(c, e, userInfo, exclusive).next;
      var fin := Done(mid, Fire(c, e, userInfo, exclusive).done.value);
      var n := |c.trace|;
      && mid.current == c.current
      && |mid.trace| == n + (if rule.from in c.leaveHooks then 1 else 0) + 1
      && OnlyHooks(mid.trace[n..|mid.trace| - 1], LeaveHook, rule.from, c.leaveHooks)
      && mid.trace[|mid.trace| - 1] == Work(e, rule.from, rule.to, rule.block.value, userInfo)
      && |fin.trace| == |mid.trace| + (if rule.to in Hooks(c, SettleKind(rule)) then 1 else 0)
      && fin.trace[..|mid.trace|] == mid.trace
      && OnlyHooks(fin.trace[|mid.trace|..], SettleKind(rule), rule.to, Hooks(c, SettleKind(rule)))
      && fin.current == Some(rule.to)
  {
    var d := Fire(c, e, userInfo, exclusive);
    StartOrder(c, e, userInfo, exclusive);
    assert d.next.pending[d.done.value].rule == FindRule(c, e).value;
    SettleOrder(d.next, d.done.value);
  }

  /**
   * The block that replaced an earlier registration is the one a
   * transition runs: after enterState:usingBlock: registers `block` for s,
   * calling the `done` of a transition into s from another state runs
   * exactly that block.
   */
  lemma {:induction false} ReplacedEnterBlockRuns<U>(c: Config<U>, t: Ticket, block: BlockId)
    requires t in c.pending && c.pending[t].rule.from != c.pending[t].rule.to
    ensures var c1 := RegisterHook(c, EnterHook, c.pending[t].rule.to, block);
      Done(c1, t).trace == c.trace + [Hook(EnterHook, c.pending[t].rule.to, block)]
  {
    var c1 := RegisterHook(c, EnterHook, c.pending[t].rule.to, block);
    SettleOrder(c1, t);
    assert Done(c1, t).trace == Done(c1, t).trace[..|c.trace|] + Done(c1, t).trace[|c.trace|..];
  }

  /**
   * A transition registered with a nil block needs no `done`: the leave
   * block of the source runs, then the enter (or cycle) block of the
   * destination, and the destination is current when event: returns.
   */
  lemma {:induction false} HookOrderNilBlock<U>(c: Config<U>, e: EventName, userInfo: Option<U>, exclusive: bool)
    requires Fire(c, e, userInfo, exclusive).accepted
    requires FindRule(c, e).value.block.None?
    ensures var rule := FindRule(c, e).value;
      var r := Fire(c, e, userInfo, exclusive);
      var n := |c.trace|;
      var k := n + (if rule.from in c.leaveHooks then 1 else 0);
      && r.done.None?
      && r.next.current == Some(rule.to)
      && r.next.pending == c.pending
      && |r.next.trace| == k + (if rule.to in Hooks(c, SettleKind(rule)) then 1 else 0)
      && r.next.trace[..n] == c.trace
      && OnlyHooks(r.next.trace[n..k], LeaveHook, rule.from, c.leaveHooks)
      && OnlyHooks(r.next.trace[k..], SettleKind(rule), rule.to, Hooks(c, SettleKind(rule)))
  {
    var rule := FindRule(c, e).value;
    var left: seq<Invocation<U>> := HookRun(c.leaveHooks, LeaveHook, rule.from);
    var settled: seq<Invocation<U>> := HookRun(Hooks(c, SettleKind(rule)), SettleKind(rule), rule.to);
    var r := Fire(c, e, userInfo, exclusive);
    var n := |c.trace|;
    assert r.next.trace == c.trace + left + settled;
    assert r.next.trace[n..n + |left|] == left;
    assert r.next.trace[n + |left|..] == settled;
  }

  /** While a transition is in flight every exclusive event is refused and changes nothing. */
  lemma ExclusiveRefusedInFlight<U>(c: Config<U>, e: EventName, userInfo: Option<U>)
    requires InFlight(c)
    ensures Fire(c, e, userInfo, true) == Dispatch(false, c, None)
  {
  }

  /** Without `exclusive` an event is dispatched whenever a rule matches, in flight or not. */
  lemma NonExclusiveNotBlocked<U>(c: Config<U>, e: EventName, userInfo: Option<U>)
    ensures Fire(c, e, userInfo, false).accepted <==> Handles(c, e)
  {
  }

  /**
   * The exclusive window: once a transition with a block has started on an
   * idle machine, exclusive events and setState are refused until its
   * `done` is called; after that the machine is idle again in the
   * destination state, so exclusive events are accepted exactly when a
   * rule matches.
   */
  lemma {:induction false} ExclusiveWindow<U>(c: Config<U>, e: EventName, userInfo: Option<U>, exclusive: bool)
    requires !InFlight(c)
    requires Fire(c, e, userInfo, exclusive).accepted && FindRule(c, e).value.block.Some?
    ensures var mid := Fire(c, e, userInfo, exclusive).next;
      && InFlight(mid)
      && (forall e2, u2 :: Fire(mid, e2, u2, true) == Dispatch(false, mid, None))
      && (forall s, o :: !SetState(mid, s, o).ok)
    ensures var mid := Fire(c, e, userInfo, exclusive).next;
      var fin := Done(mid, Fire(c, e, userInfo, exclusive).done.value);
      && !InFlight(fin)
      && fin.current == Some(FindRule(c, e).value.to)
      && (forall e2, u2 :: Fire(fin, e2, u2, true).accepted <==> Handles(fin, e2))
  {
    var d := Fire(c, e, userInfo, exclusive);
    var t := d.done.value;
    assert d.next.pending == map[t := Transition(e, FindRule(c, e).value)];
    assert Done(d.next, t).pending == map[];
  }

  /**
   * Starting a transition never displaces one already in flight: every
   * outstanding `done` stays outstanding, for the same transition, and a
   * new `done` is one more.
   */
  lemma KeepsOutstanding<U>(c: Config<U>, e: EventName, userInfo: Option<U>, exclusive: bool)
    requires Inv(c)
    ensures var r := Fire(c, e, userInfo, exclusive);
      && (forall t :: t in c.pending ==> t in r.next.pending && r.next.pending[t] == c.pending[t])
      && (r.done.Some? ==> r.next.pending.Keys == c.pending.Keys + {r.done.value} && r.done.value !in c.pending)
      && (r.done.None? ==> r.next.pending == c.pending)
  {
  }

  /** A `done` called a second time does nothing. */
  lemma DoneTwiceIsNoOp<U>(c: Config<U>, t: Ticket)
    ensures Done(Done(c, t), t) == Done(c, t)
  {
  }

  /**
   * The machine set up as in the header's usage example: "Power" leads from
   * PoweredDown to PoweredUp through a block, "InsertCoin" loops on
   * PoweredUp with a nil block, and PoweredDown has an enter block.
   */
  function UsageMachine<U>(powerBlock: BlockId, enterBlock: BlockId): (c: Config<U>)
    ensures c.current == None && !InFlight(c) && c.trace == []
    ensures RulesFor(c, "Power") == [Rule("PoweredDown", "PoweredUp", Some(powerBlock))]
    ensures RulesFor(c, "InsertCoin") == [Rule("PoweredUp", "PoweredUp", None)]
    ensures c.enterHooks == map["PoweredDown" := enterBlock]
  {
    var c0: Config<U> := Empty();
    var c1 := On(c0, "Power", "PoweredDown", "PoweredUp", Some(powerBlock));
    var c2 := On(c1, "InsertCoin", "PoweredUp", "PoweredUp", None);
    RegisterHook(c2, EnterHook, "PoweredDown", enterBlock)
  }

  /**
   * Starting in PoweredDown with the Enter option runs PoweredDown's enter
   * block. "Power" is then accepted and runs its block, but the machine
   * stays in PoweredDown until `done`; after `done` it is in PoweredUp,
   * where "InsertCoin" completes at once and "Power" is refused.
   */
  lemma UsageScenario<U>(powerBlock: BlockId, enterBlock: BlockId)
    ensures var c := UsageMachine<U>(powerBlock, enterBlock);
      var started := SetState(c, "PoweredDown", Enter);
      var power := Fire(started.next, "Power", None, false);
      var up := Done(power.next, power.done.value);
      var coin := Fire(up, "InsertCoin", None, false);
      && started.ok
      && started.next.current == Some("PoweredDown")
      && started.next.trace == [Hook(EnterHook, "PoweredDown", enterBlock)]
      && power.accepted && power.done.Some?
      && power.next.current == Some("PoweredDown")
      && power.next.trace == started.next.trace + [Work("Power", "PoweredDown", "PoweredUp", powerBlock, None)]
      && up.current == Some("PoweredUp") && !InFlight(up)
      && up.trace == power.next.trace
      && coin.accepted && coin.done.None?
      && coin.next.current == Some("PoweredUp") && !InFlight(coin.next)
      && !Fire(up, "Power", None, false).accepted
  {
    var c := UsageMachine<U>(powerBlock, enterBlock);
    assert "PoweredDown" != "PoweredUp";
    var started := SetState(c, "PoweredDown", Enter);
    assert RequestsEnter(Enter) && !RequestsCycle(Enter);
    assert FirstMatch(RulesFor(started.next, "Power"), "PoweredDown") == Some(0);
    var power := Fire(started.next, "Power", None, false);
    var up := Done(power.next, power.done.value);
    assert FirstMatch(RulesFor(up, "InsertCoin"), "PoweredUp") == Some(0);
  }

  /**
   * A rule that loops on one state with a nil block: firing it in that
   * state runs the state's cycle block, not its enter block, and the state
   * stays current.
   */
  lemma SelfLoopRunsCycle<U>(c: Config<U>, s: State, e: EventName, enterBlock: BlockId, cycleBlock: BlockId)
    requires !InFlight(c) && RulesFor(c, e) == []
    ensures var c1 := RegisterHook(RegisterHook(On(c, e, s, s, None), EnterHook, s, enterBlock), CycleHook, s, cycleBlock);
      var c2 := SetState(c1, s, Initial).next;
      var r := Fire(c2, e, None, false);
      && r.accepted && r.done.None?
      && r.next.current == Some(s)
      && r.next.trace == c2.trace + HookRun(c.leaveHooks, LeaveHook, s) + [Hook(CycleHook, s, cycleBlock)]
  {
    var c1 := RegisterHook(RegisterHook(On(c, e, s, s, None), EnterHook, s, enterBlock), CycleHook, s, cycleBlock);
    var c2 := SetState(c1, s, Initial).next;
    assert FirstMatch(RulesFor(c2, e), s) == Some(0);
  }
}
