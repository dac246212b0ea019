/**
 * The dialog's states, one enumeration per logic unit, and what a handler
 * returns. A state is the handler method of one unit (`hello_logic.hello`,
 * `main_logic.recommend_main`, ...); here it is a tag of the unit's own type.
 */
module States {
  import opened Wrappers

  datatype HelloState = Hello | HelloRepeat | HelloNull

  datatype MainState =
    | RecommendMain
    | RecommendRepeat
    | RecommendRepeat2
    | RecommendScoreNegative
    | RecommendScoreNeutral
    | RecommendScorePositive
    | RecommendNull
    | RecommendDefault

  datatype HangupState = HangupPositive | HangupNegative | HangupWrongTime | HangupNull

  datatype ForwardState = Forward

  /** Any state of any unit: the targets of the transition tables and the dialog's current action. */
  datatype State =
    | InHello(hello: HelloState)
    | InMain(main: MainState)
    | InHangup(hangup: HangupState)
    | InForward(forward: ForwardState)

  /** The call-control callback a handler returns: None, `hangup_action` or `bridge_action`. */
  datatype Callback = NoCallback | HangupAction | BridgeAction

  /** A handler's result: the next state (None ends the dialog) and the callback. */
  datatype Step = Step(next: Option<State>, callback: Callback)

  /** Hangup and Forward states end the call. */
  predicate IsTerminal(s: State) {
    s.InHangup? || s.InForward?
  }
}
