/**
 * The entry point (script.py): wire the four units, run one dialog from
 * the greeting, then invoke the callback it kept, if any.
 */
module Script {
  import opened Wrappers
  import opened States
  import Base
  import NeuroVoice
  import D = Dialog

  /** Every call starts at the greeting, `hello_logic.hello`. */
  const First: State := InHello(Hello)

  /**
   * `main()`: the callback is read only once `run` has returned, and is
   * invoked once exactly when the run finished; a finished run always has
   * one to invoke.
   */
  method RunCall(nv: NeuroVoice.Library) returns (status: D.Status)
    modifies nv
    ensures (D.HandleWellBehaved();
      var (f, st) := D.RunFrom(D.Handle, D.Start(First, old(nv.said), old(nv.pending)));
      && status == st
      && nv.said == f.said && nv.pending == f.pending
      && nv.performed == old(nv.performed) + (if st == D.Finished then [f.callback] else []))
    ensures status == D.Finished ==> |nv.performed| == |old(nv.performed)| + 1
  {
    ghost var c := D.Start(First, nv.said, nv.pending);
    D.HandleWellBehaved();
    D.FinishedRunEndsTerminal(D.Handle, c);
    var dialog := new D.Dialog(First);
    status := dialog.Run(nv);
    if status == D.Finished {
      var action := dialog.callback;
      if action != NoCallback {
        nv.Invoke(action);
      }
    }
  }

  /**
   * Two silent results: the greeting, its retry for silence, then the
   * hangup for silence, which ends the call with `hangup_action`.
   */
  lemma TwoSilences()
    ensures (D.HandleWellBehaved(); D.RunFrom(D.Handle, D.Start(First, [], [map[], map[]])) ==
      (D.Config(None, InHangup(HangupNull), HangupAction, ["hello", "hello_null", "hangup_null"], []), D.Finished))
  {
    D.HandleWellBehaved();
    var c0 := D.Start(First, [], [map[], map[]]);
    var a0 := D.Advance(D.Handle, c0);
    assert a0.0.current == Some(InHello(HelloNull)) && a0.1 == None;
    assert a0.0.said == ["hello"] && a0.0.pending == [map[]];
    var a1 := D.Advance(D.Handle, a0.0);
    assert a1.0.current == Some(InHangup(HangupNull)) && a1.1 == None;
    assert a1.0.said == ["hello", "hello_null"] && a1.0.pending == [];
    var a2 := D.Advance(D.Handle, a1.0);
    assert a2.0.current == None && a2.0.callback == HangupAction && a2.1 == None;
    assert a2.0.said == ["hello", "hello_null", "hangup_null"];
    assert D.RunFrom(D.Handle, c0) == D.RunFrom(D.Handle, a0.0) == D.RunFrom(D.Handle, a1.0)
      == D.RunFrom(D.Handle, a2.0);
  }
}
