/**
 * The dialog driver (class Dialog in logic.py): it calls the current
 * state's handler until a handler returns no next state, keeping the state
 * it last ran and the callback that handler returned.
 */
module Dialog {
  import opened Wrappers
  import opened States
  import Base
  import HangupLogic
  import ForwardLogic
  import MainLogic
  import HelloLogic
  import NeuroVoice

  /** Hello and main handlers listen; hangup and forward handlers only speak. */
  predicate Listens(s: State) {
    s.InHello? || s.InMain?
  }

  /** The prompt name the state's handler speaks. */
  function Prompt(s: State): string {
    match s
    case InHello(h) => HelloLogic.Prompt(h)
    case InMain(m) => MainLogic.Prompt(m)
    case InHangup(k) => HangupLogic.Prompt(k)
    case InForward(f) => ForwardLogic.Prompt(f)
  }

  /** The callback a terminal state returns. */
  function TerminalCallback(s: State): Callback {
    if s.InForward? then BridgeAction else HangupAction
  }

  /** What calling a state does: it returns the next state and callback, or raises. */
  type Handler = (State, Base.Recognition) -> Result<Step, MainLogic.ValueError>

  /**
   * What the driver relies on from the handlers: terminal states end the
   * dialog with their callback, other states name a next state and return
   * no callback, and only main states raise.
   */
  ghost predicate WellBehaved(handle: Handler) {
    forall s: State, rec: Base.Recognition ::
      && (IsTerminal(s) ==> handle(s, rec) == Ok(Step(None, TerminalCallback(s))))
      && (!IsTerminal(s) && handle(s, rec).Ok? ==>
            handle(s, rec).value.next.Some? && handle(s, rec).value.callback == NoCallback)
      && (handle(s, rec).Err? ==> s.InMain?)
  }

  /**
   * Calling the state's handler with what it heard; the hangup and
   * forward handlers do not listen and ignore it.
   */
  function Handle(s: State, heard: Base.Recognition): Result<Step, MainLogic.ValueError> {
    match s
    case InHello(h) => Ok(HelloLogic.Handle(h, heard))
    case InMain(m) => MainLogic.Handle(m, heard)
    case InHangup(k) => Ok(HangupLogic.Handle(k))
    case InForward(f) => Ok(ForwardLogic.Handle(f))
  }

  /** The four units' handlers behave as the driver relies on. */
  lemma HandleWellBehaved()
    ensures WellBehaved(Handle)
  {
  }

  /**
   * Everything one step reads and writes: the dialog's three fields and
   * the library's trace of prompts and remaining script.
   */
  datatype Config = Config(
    current: Option<State>,
    endAction: State,
    callback: Callback,
    said: seq<string>,
    pending: seq<Base.Recognition>)

  /** The dialog at `Dialog(start)`. */
  function Start(start: State, said: seq<string>, pending: seq<Base.Recognition>): Config {
    Config(Some(start), start, NoCallback, said, pending)
  }

  /** A step can run: there is a current state, and input for it if it listens. */
  predicate CanStep(c: Config) {
    c.current.Some? && (Listens(c.current.value) ==> c.pending != [])
  }

  /** Each step either consumes an input or ends the dialog. */
  function Measure(c: Config): nat {
    2 * |c.pending| + if c.current.Some? then 1 else 0
  }

  /**
   * One `next_step`: the current state becomes the end state, its prompt
   * is spoken, it hears the next input if it listens, and the handler's
   * result replaces the current state and the callback. When the handler
   * raises, those two are left as they were.
   */
  function Advance(handle: Handler, c: Config): (r: (Config, Option<MainLogic.ValueError>))
    requires WellBehaved(handle) && CanStep(c)
    ensures r.0.endAction == c.current.value
    ensures r.0.said == c.said + [Prompt(c.current.value)]
    ensures r.0.pending == if Listens(c.current.value) then c.pending[1..] else c.pending
    ensures r.1.Some? ==> r.0.current == c.current && r.0.callback == c.callback && c.current.value.InMain?
    ensures r.1.None? && IsTerminal(c.current.value) ==>
              r.0.current.None? && r.0.callback == TerminalCallback(c.current.value)
    ensures r.1.None? && !IsTerminal(c.current.value) ==> r.0.current.Some? && r.0.callback == NoCallback
    ensures r.1.None? ==> Measure(r.0) < Measure(c)
  {
    var s := c.current.value;
    var said := c.said + [Prompt(s)];
    var heard := if Listens(s) then c.pending[0] else map[];
    var pending := if Listens(s) then c.pending[1..] else c.pending;
    match handle(s, heard)
    case Err(e) => (Config(c.current, s, c.callback, said, pending), Some(e))
    case Ok(step) => (Config(step.next, s, step.callback, said, pending), None)
  }

  /**
   * A step takes its new current state and callback from what the handler
   * returned for the current state and the input it heard, and reports the
   * handler's own error when it raised.
   */
  lemma AdvanceFollowsHandler(handle: Handler, c: Config)
    requires WellBehaved(handle) && CanStep(c)
    ensures var r := Advance(handle, c);
      var heard := if Listens(c.current.value) then c.pending[0] else map[];
      match handle(c.current.value, heard)
      case Ok(step) => r.1.None? && r.0.current == step.next && r.0.callback == step.callback
      case Err(e) => r.1 == Some(e)
  {
  }

  /** How a run over a finite script stops. */
  datatype Status =
    | Finished                              // no current state: the loop of `run` ended
    | Exhausted                             // a listening state found the script empty
    | Failed(error: MainLogic.ValueError)   // a handler raised

  /** `run`: step until there is no current state, a step has no input, or a step raises. */
  function RunFrom(handle: Handler, c: Config): (Config, Status)
    requires WellBehaved(handle)
    decreases Measure(c)
  {
    if c.current.None? then (c, Finished)
    else if Listens(c.current.value) && c.pending == [] then (c, Exhausted)
    else
      var (next, error) := Advance(handle, c);
      if error.Some? then (next, Failed(error.value)) else RunFrom(handle, next)
  }

  /**
   * A run stops for exactly the reason its status names: `Finished` with
   * no current state, `Exhausted` in a listening state with no input left,
   * `Failed` in the main state that raised, which is left current.
   */
  lemma {:induction false} RunStopsForItsStatus(handle: Handler, c: Config)
    requires WellBehaved(handle)
    ensures var (f, status) := RunFrom(handle, c);
      && (status == Finished <==> f.current.None?)
      && (status == Exhausted ==> f.current.Some? && Listens(f.current.value) && f.pending == [])
      && (status.Failed? ==> f.current == Some(f.endAction) && f.endAction.InMain?)
    decreases Measure(c)
  {
    if c.current.Some? && !(Listens(c.current.value) && c.pending == []) {
      var (next, error) := Advance(handle, c);
      if error.None? {
        RunStopsForItsStatus(handle, next);
      }
    }
  }

  /**
   * A dialog that starts in some state and finishes has last run a hangup
   * or forward state, and the callback it keeps is that state's, never
   * None: hello and main states always name a next state.
   */
  lemma {:induction false} FinishedRunEndsTerminal(handle: Handler, c: Config)
    requires WellBehaved(handle)
    requires c.current.Some?
    ensures var (f, status) := RunFrom(handle, c);
      status == Finished ==>
        IsTerminal(f.endAction) && f.callback == TerminalCallback(f.endAction) && f.callback != NoCallback
    decreases Measure(c)
  {
    if !(Listens(c.current.value) && c.pending == []) {
      var (next, error) := Advance(handle, c);
      if error.None? && next.current.Some? {
        FinishedRunEndsTerminal(handle, next);
      }
    }
  }

  /**
   * The run only appends: the prompts spoken extend the trace, and the
   * script left is a suffix of the one given, each input heard having
   * been preceded by a prompt.
   */
  lemma {:induction false} RunAppends(handle: Handler, c: Config)
    requires WellBehaved(handle)
    ensures var (f, _) := RunFrom(handle, c);
      && c.said <= f.said
      && |f.pending| <= |c.pending| && f.pending == c.pending[|c.pending| - |f.pending|..]
      && |f.said| - |c.said| >= |c.pending| - |f.pending|
    decreases Measure(c)
  {
    if c.current.Some? && !(Listens(c.current.value) && c.pending == []) {
      var (next, error) := Advance(handle, c);
      if error.None? {
        RunAppends(handle, next);
      }
    }
  }

  class Dialog {
    var currentAction: Option<State>
    var endAction: State
    var callback: Callback

    /** `Dialog(start_action)`. */
    constructor (start: State)
      ensures currentAction == Some(start) && endAction == start && callback == NoCallback
    {
      currentAction, endAction, callback := Some(start), start, NoCallback;
    }

    /** The dialog's fields together with the library's trace and script. */
    function Snapshot(nv: NeuroVoice.Library): Config
      reads this, nv
    {
      Config(currentAction, endAction, callback, nv.said, nv.pending)
    }

    /** `next_step`: run the current state's handler once. */
    method NextStep(nv: NeuroVoice.Library) returns (error: Option<MainLogic.ValueError>)
      requires CanStep(Snapshot(nv))
      modifies this, nv
      ensures (HandleWellBehaved(); (Snapshot(nv), error) == Advance(Handle, old(Snapshot(nv))))
      ensures nv.performed == old(nv.performed)
    {
      var s := currentAction.value;
      endAction := s;
      nv.Say(Prompt(s));
      var heard := map[];
      if Listens(s) {
        heard := nv.Listen();
      }
      match Handle(s, heard)
      case Err(e) =>
        error := Some(e);
      case Ok(step) =>
        currentAction, callback := step.next, step.callback;
        error := None;
    }

    /** `run`: call `next_step` while there is a current state. */
    method Run(nv: NeuroVoice.Library) returns (status: Status)
      modifies this, nv
      ensures (HandleWellBehaved(); (Snapshot(nv), status) == RunFrom(Handle, old(Snapshot(nv))))
      ensures nv.performed == old(nv.performed)
    {
      while currentAction.Some?
        invariant (HandleWellBehaved(); RunFrom(Handle, Snapshot(nv)) == RunFrom(Handle, old(Snapshot(nv))))
        invariant nv.performed == old(nv.performed)
        decreases Measure(Snapshot(nv))
      {
        if Listens(currentAction.value) && nv.pending == [] {
          return Exhausted;
        }
        var error := NextStep(nv);
        if error.Some? {
          return Failed(error.value);
        }
      }
      return Finished;
    }
  }
}
