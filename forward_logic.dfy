/** ForwardLogic: one prompt, then the call is bridged with `bridge_action`. */
module ForwardLogic {
  import opened Wrappers
  import opened States
  import Base

  /** As in the hangup unit, the answer is always None and the only row is keyed by it. */
  const Transitions: Base.Table<(), ForwardState, State> := map[() := map[Base.DefaultKey := None]]

  /** The unit does not listen: its `answer` property is the constant None. */
  function Answer(): () {
    ()
  }

  function Prompt(s: ForwardState): string {
    "forward"
  }

  /** The `forward` handler: no next state, callback `bridge_action`, whatever was heard. */
  function Handle(s: ForwardState): (r: Step)
    ensures r.next == None && r.callback == BridgeAction
  {
    Step(Base.NextAction(Transitions, Answer(), s), BridgeAction)
  }
}
