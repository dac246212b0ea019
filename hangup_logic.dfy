/** HangupLogic: four closing prompts, each ending the call with `hangup_action`. */
module HangupLogic {
  import opened Wrappers
  import opened States
  import Base

  /** The unit's answer is always None, so its only row is keyed by None (here `()`). */
  const Transitions: Base.Table<(), HangupState, State> := map[() := map[Base.DefaultKey := None]]

  /** The unit does not listen: its `answer` property is the constant None. */
  function Answer(): () {
    ()
  }

  /** The prompt name each handler passes to `say`. */
  function Prompt(s: HangupState): string {
    match s
    case HangupPositive => "hangup_positive"
    case HangupNegative => "hangup_negative"
    case HangupWrongTime => "hangup_wrong_time"
    case HangupNull => "hangup_null"
  }

  /** Every handler of the unit: no next state, callback `hangup_action`, whatever was heard. */
  function Handle(s: HangupState): (r: Step)
    ensures r.next == None && r.callback == HangupAction
  {
    Step(Base.NextAction(Transitions, Answer(), s), HangupAction)
  }
}
