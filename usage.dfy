/**
 * Clients of the FSM class: the usage example written in the interface's
 * header, and the exclusive in-flight window seen from a caller.
 */
module Usage {
  import opened Wrappers
  import opened StateOptions
  import opened Engine
  import Properties
  import opened Fsm

  const PowerBlock: BlockId := 1
  const PoweredDownEnterBlock: BlockId := 2

  /** Builds the header's machine: "Power" with a block, "InsertCoin" with a nil block, PoweredDown's enter block. */
  method NewUsageMachine() returns (m: FSM<string>)
    ensures fresh(m) && m.Valid()
    ensures m.Snapshot() == Properties.UsageMachine(PowerBlock, PoweredDownEnterBlock)
  {
    m := new FSM<string>();
    m.On("Power", "PoweredDown", "PoweredUp", Some(PowerBlock));
    m.On("InsertCoin", "PoweredUp", "PoweredUp", None);
    m.EnterState("PoweredDown", PoweredDownEnterBlock);
  }

  /**
   * The header's example run: setState with Enter succeeds, "Power" is
   * accepted but leaves the machine in PoweredDown until `done`, after
   * which it is in PoweredUp; "InsertCoin" there completes at once.
   */
  method PowerUp() returns (started: bool, powered: bool, beforeDone: Option<State>, afterDone: Option<State>,
                            coin: bool, coinDone: Option<Ticket>, final: Option<State>)
    ensures started && powered && coin && coinDone.None?
    ensures beforeDone == Some("PoweredDown")
    ensures afterDone == Some("PoweredUp") && final == Some("PoweredUp")
  {
    var m := NewUsageMachine();
    Properties.UsageScenario<string>(PowerBlock, PoweredDownEnterBlock);
    started := m.SetState("PoweredDown", Enter);
    var done;
    powered, done := m.EventByName("Power");
    beforeDone := m.current;
    m.Done(done.value);
    afterDone := m.current;
    coin, coinDone := m.EventByName("InsertCoin");
    final := m.current;
  }

  /**
   * An exclusive event fired while "Power" waits for `done` is refused and
   * changes nothing, and so is setState; once `done` is called an
   * exclusive "InsertCoin" is accepted.
   */
  method ExclusiveWhileInFlight() returns (refused: bool, stateSetRefused: bool, stayedDown: bool, acceptedAfter: bool)
    ensures refused && stateSetRefused && stayedDown && acceptedAfter
  {
    var m := NewUsageMachine();
    Properties.UsageScenario<string>(PowerBlock, PoweredDownEnterBlock);
    var started := m.SetState("PoweredDown", Enter);
    var powered, done := m.Event("Power", None, true);
    ghost var inFlight := m.Snapshot();
    Properties.ExclusiveRefusedInFlight(inFlight, "Power", None);
    var again, _ := m.Event("Power", None, true);
    refused := !again;
    stayedDown := m.current == Some("PoweredDown");
    var ok := m.SetState("PoweredUp", Initial);
    stateSetRefused := !ok;
    m.Done(done.value);
    var coin, _ := m.Event("InsertCoin", Some("coin"), true);
    acceptedAfter := coin;
  }
}
