/** One object of the ownership tree: the handlers of its commands, as functions of its
    fields. Objects are named by numbers. */
module Own {
  import opened Options

  datatype Object = Object(
    owner: Option<nat>, terminating: bool, sent: nat, processed: nat, owned: set<nat>, termAcks: nat, alive: bool)

  const NEW := Object(None, false, 0, 0, {}, 0, true)

  /** What an object tells its owner. */
  datatype Upward = TermReq | TermAck

  /** The new object, the children told to terminate, and what the owner is told; or a
      failed assertion. */
  datatype Effect = Done(own: Object, terms: set<nat>, told: seq<Upward>) | Crash

  function CheckTermAcks(o: Object): Effect {
    if o.terminating && o.processed == o.sent && o.termAcks == 0 then
      if o.owned != {} then Crash
      else Done(o.(alive := false), {}, if o.owner.Some? then [TermAck] else [])
    else
      Done(o, {}, [])
  }

  function ProcessSeqnum(o: Object): Effect {
    CheckTermAcks(o.(processed := o.processed + 1))
  }

  /** Launching child `c`; the plug command that goes first is not listed. */
  function LaunchChild(o: Object, c: nat): Effect {
    if o.terminating then Done(o.(termAcks := o.termAcks + 1), {c}, [])
    else Done(o.(owned := o.owned + {c}), {}, [])
  }

  function ProcessTermReq(o: Object, c: nat): Effect {
    if o.terminating || c !in o.owned then Done(o, {}, [])
    else Done(o.(owned := o.owned - {c}, termAcks := o.termAcks + 1), {c}, [])
  }

  function ProcessTerm(o: Object): Effect {
    if o.terminating then Crash
    else
      match CheckTermAcks(o.(termAcks := o.termAcks + |o.owned|, owned := {}, terminating := true))
      case Done(o', _, told) => Done(o', o.owned, told)
      case Crash => Crash
  }

  function Terminate(o: Object): Effect {
    if o.terminating then Done(o, {}, [])
    else if o.owner.None? then ProcessTerm(o)
    else Done(o, {}, [TermReq])
  }

  function RegisterTermAcks(o: Object, n: nat): Effect {
    Done(o.(termAcks := o.termAcks + n), {}, [])
  }

  function UnregisterTermAck(o: Object): Effect {
    if o.termAcks == 0 then Crash else CheckTermAcks(o.(termAcks := o.termAcks - 1))
  }
}
