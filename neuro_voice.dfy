/**
 * The speech and telephony library the logic units call. Speaking appends
 * the prompt name to a trace, listening takes the next recognition result
 * of a finite script, and a call-control action is recorded when invoked.
 */
module NeuroVoice {
  import opened States
  import Base

  class Library {
    /** The prompt names spoken so far, oldest first. */
    var said: seq<string>
    /** The recognition results the caller will still produce, next first. */
    var pending: seq<Base.Recognition>
    /** The call-control actions invoked so far. */
    var performed: seq<Callback>

    constructor (script: seq<Base.Recognition>)
      ensures said == [] && pending == script && performed == []
    {
      said, pending, performed := [], script, [];
    }

    /** `say(name=...)`. */
    method Say(name: string)
      modifies this
      ensures said == old(said) + [name]
      ensures pending == old(pending) && performed == old(performed)
    {
      said := said + [name];
    }

    /** `listen(entities=...)`: the next recognition result of the script. */
    method Listen() returns (rec: Base.Recognition)
      requires pending != []
      modifies this
      ensures rec == old(pending)[0] && pending == old(pending)[1..]
      ensures said == old(said) && performed == old(performed)
    {
      rec := pending[0];
      pending := pending[1..];
    }

    /** Calling `hangup_action` or `bridge_action`. */
    method Invoke(action: Callback)
      requires action != NoCallback
      modifies this
      ensures performed == old(performed) + [action]
      ensures said == old(said) && pending == old(pending)
    {
      performed := performed + [action];
    }
  }
}
