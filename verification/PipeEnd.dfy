/** One end of a message pipe: what each call or command does to the end itself,
    to the two queues it holds and to the peer's mailbox. */
module PipeEnd {
  import opened Options
  import opened UPipe

  type Body = seq<char>

  datatype Msg = Msg(body: Body, more: bool) | Delimiter

  type Pipe = Queue<Msg>
  type PipeId = nat

  datatype State = Active | Delimited | Pending | Terminating | Terminated | DoubleTerminated

  datatype Command =
    | ActivateRead
    | ActivateWrite(msgsRead: nat)
    | Hiccup(pipe: PipeId)
    | PipeTerm
    | PipeTermAck

  /** Work left in the middle of a call, after an action the other thread can see:
      write the delimiter (`terminate`), or wake the sleeping peer (`flush`). */
  datatype Todo = Nothing | MustDelimit | MustWake

  datatype End = End(
    alive: bool, state: State, todo: Todo,
    inActive: bool, outActive: bool,
    hwm: nat, lwm: nat,
    msgsRead: nat, msgsWritten: nat, peersMsgsRead: nat,
    delay: bool,
    inpipe: PipeId, outpipe: Option<PipeId>)
  {
    predicate CanRead() {
      inActive && (state == Active || state == Pending)
    }

    predicate Full() {
      hwm > 0 && msgsWritten - peersMsgsRead == hwm
    }
  }

  /** What a call leaves behind: the end and the commands sent to the peer.
      `Crash` is a failed assertion. */
  datatype Effect = Done(end: End, sent: seq<Command>) | Crash

  const MAX_WM_DELTA := 1024

  function ComputeLwm(hwm: nat): nat {
    if hwm > MAX_WM_DELTA * 2 then hwm - MAX_WM_DELTA else (hwm + 1) / 2
  }

  function NewEnd(inpipe: PipeId, outpipe: PipeId, inHwm: nat, outHwm: nat, delay: bool): End {
    End(true, Active, Nothing, true, true, outHwm, ComputeLwm(inHwm), 0, 0, 0, delay, inpipe, Some(outpipe))
  }

  function AckPeer(e: End, state: State): Effect {
    Done(e.(outpipe := None, state := state), [PipeTermAck])
  }

  function Delimit(e: End): Effect {
    match e.state
    case Active => Done(e.(state := Delimited), [])
    case Pending => AckPeer(e, Terminating)
    case _ => Crash
  }

  // ---- Reading ----

  datatype Read = Read(effect: Effect, inp: Pipe, got: Option<Msg>)

  /** `check_read` and `read` in one: with `check` a message is looked at and left in
      the queue, but a delimiter is consumed either way. */
  function ReadMsg(e: End, inp: Pipe, check: bool): Read {
    if !e.CanRead() then Read(Done(e, []), inp, None)
    else if inp.flushed == [] then Read(Done(e.(inActive := false), []), inp.CheckRead().0, None)
    else
      var m := inp.flushed[0];
      if m == Delimiter then Read(Delimit(e), inp.Pop(), None)
      else if check then Read(Done(e, []), inp, Some(m))
      else
        var n := if m.more then e.msgsRead else e.msgsRead + 1;
        var sent := if e.lwm > 0 && n % e.lwm == 0 then [ActivateWrite(n)] else [];
        Read(Done(e.(msgsRead := n), sent), inp.Pop(), Some(m))
  }

  // ---- Writing ----

  function CheckWrite(e: End): (End, bool) {
    if !e.outActive || e.state != Active then (e, false)
    else if e.Full() then (e.(outActive := false), false)
    else (e, true)
  }

  function WriteMsg(e: End, outp: Pipe, m: Msg): (End, Pipe, bool)
    requires m.Msg?
  {
    var (e1, ok) := CheckWrite(e);
    if !ok then (e1, outp, false)
    else (e1.(msgsWritten := if m.more then e1.msgsWritten else e1.msgsWritten + 1), outp.Write(m, m.more), true)
  }

  /** Drops the unfinished message; `None` if a part without the more flag turns up. */
  function Rollback(outp: Pipe): Option<Pipe>
    decreases |outp.partial|
  {
    if outp.partial == [] then Some(outp)
    else
      var m := outp.partial[|outp.partial| - 1];
      if m.Msg? && m.more then Rollback(outp.Unwrite()) else None
  }

  /** First half of `flush`: publish. The wake-up command follows as `MustWake`. */
  function Flush(e: End, outp: Pipe): (End, Pipe) {
    if e.state == Terminated || e.state == DoubleTerminated || e.state == Terminating then (e, outp)
    else Publish(e, outp)
  }

  function Publish(e: End, outp: Pipe): (End, Pipe) {
    var (p, awake) := outp.Flush();
    (e.(todo := if awake then Nothing else MustWake), p)
  }

  // ---- Terminating ----

  function Terminate(e: End, delay: bool): Effect {
    var e := e.(delay := delay);
    match e.state
    case Terminated => Done(e, [])
    case DoubleTerminated => Done(e, [])
    case Terminating => Done(e, [])
    case Active => SyncTerminate(e)
    case Delimited => SyncTerminate(e)
    case Pending =>
      if !delay then AckPeer(e.(outActive := false), Terminating)
      else Done(StopOutput(e), [])
  }

  function StopOutput(e: End): End {
    e.(outActive := false, todo := if e.outpipe.Some? then MustDelimit else Nothing)
  }

  function SyncTerminate(e: End): Effect {
    Done(StopOutput(e.(state := Terminated)), [PipeTerm])
  }

  /** Second half of `terminate`: roll back, push the delimiter past the
      watermark, publish. */
  function PushDelimiter(e: End, outp: Pipe): Option<(End, Pipe)> {
    match Rollback(outp)
    case None => None
    case Some(p) => Some(Publish(e, p.Write(Delimiter, false)))
  }

  // ---- Commands ----

  function ProcessActivateRead(e: End): End {
    if !e.inActive && (e.state == Active || e.state == Pending) then e.(inActive := true) else e
  }

  function ProcessActivateWrite(e: End, msgsRead: nat): End {
    var e := e.(peersMsgsRead := msgsRead);
    if !e.outActive && e.state == Active then e.(outActive := true) else e
  }

  function ProcessHiccup(e: End, pipe: PipeId): End {
    e.(outpipe := Some(pipe), outActive := true)
  }

  function ProcessPipeTerm(e: End): Effect {
    match e.state
    case Active => if e.delay then Done(e.(state := Pending), []) else AckPeer(e, Terminating)
    case Delimited => AckPeer(e, Terminating)
    case Terminated => AckPeer(e, DoubleTerminated)
    case _ => Crash
  }

  function ProcessPipeTermAck(e: End): Effect {
    match e.state
    case Terminating => Done(e.(alive := false), [])
    case DoubleTerminated => Done(e.(alive := false), [])
    case Terminated => AckPeer(e.(alive := false), Terminated)
    case _ => Crash
  }
}
