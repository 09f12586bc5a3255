/** Two pipe ends, their mailboxes and the heap of queues as one transition
    system. A step is always taken by `me`; `Flip` exchanges the roles. */
module PipePair {
  import opened Options
  import opened UPipe
  import opened PipeEnd

  /** `toMe` and `toPeer` are the FIFO mailboxes. A queue that is not in `heap`
      is not allocated: touching it is a fault. Queue names are never reused. */
  datatype Pair = Pair(
    me: End, peer: End, toMe: seq<Command>, toPeer: seq<Command>,
    heap: map<PipeId, Pipe>, next: PipeId)

  function Flip(s: Pair): Pair {
    Pair(s.peer, s.me, s.toPeer, s.toMe, s.heap, s.next)
  }

  function Init(hwm0: nat, hwm1: nat, delay0: bool, delay1: bool): Pair {
    Pair(NewEnd(0, 1, hwm1, hwm0, delay0), NewEnd(1, 0, hwm0, hwm1, delay1),
         [], [], map[0 := Fresh(), 1 := Fresh()], 2)
  }

  datatype Op =
    | CheckReadOp
    | ReadOp
    | CheckWriteOp
    | WriteOp(body: Body, more: bool)
    | RollbackOp
    | FlushOp
    | TerminateOp(delay: bool)
    | HiccupOp
    | DeliverOp
    | ContinueOp

  /** A vanished end does nothing; an end in the middle of a call finishes it
      before it does anything else; a command can be delivered if there is one. */
  predicate Enabled(s: Pair, op: Op) {
    && s.me.alive
    && (op == ContinueOp <==> s.me.todo != Nothing)
    && (op == DeliverOp ==> s.toMe != [])
  }

  // `None` is a failed assertion or a touched dead queue.

  function Perform(s: Pair, effect: Effect): Option<Pair> {
    match effect
    case Crash => None
    case Done(end, sent) => Some(s.(me := end, toPeer := s.toPeer + sent))
  }

  /** The queues `me` reads from and writes to are allocated. */
  predicate InOk(s: Pair) {
    s.me.inpipe in s.heap
  }

  predicate OutOk(s: Pair) {
    s.me.outpipe.Some? && s.me.outpipe.value in s.heap
  }

  function SetIn(s: Pair, p: Pipe): Pair {
    s.(heap := s.heap[s.me.inpipe := p])
  }

  function SetOut(s: Pair, e: End, p: Pipe): Pair
    requires s.me.outpipe.Some?
  {
    s.(me := e, heap := s.heap[s.me.outpipe.value := p])
  }

  function ReadStep(s: Pair, check: bool): Option<Pair> {
    if !s.me.CanRead() then Some(s)
    else if !InOk(s) then None
    else
      var r := ReadMsg(s.me, s.heap[s.me.inpipe], check);
      Perform(SetIn(s, r.inp), r.effect)
  }

  function CheckWriteStep(s: Pair): Option<Pair> {
    Some(s.(me := CheckWrite(s.me).0))
  }

  function WriteStep(s: Pair, m: Msg): Option<Pair>
    requires m.Msg?
  {
    if !CheckWrite(s.me).1 then CheckWriteStep(s)
    else if !OutOk(s) then None
    else
      var (e, p, _) := WriteMsg(s.me, s.heap[s.me.outpipe.value], m);
      Some(SetOut(s, e, p))
  }

  function RollbackStep(s: Pair): Option<Pair> {
    if s.me.outpipe.None? then Some(s)
    else if !OutOk(s) || Rollback(s.heap[s.me.outpipe.value]).None? then None
    else Some(SetOut(s, s.me, Rollback(s.heap[s.me.outpipe.value]).value))
  }

  function FlushStep(s: Pair): Option<Pair> {
    if s.me.outpipe.None? then Some(s)
    else if !OutOk(s) then None
    else
      var (e, p) := Flush(s.me, s.heap[s.me.outpipe.value]);
      Some(SetOut(s, e, p))
  }

  function TerminateStep(s: Pair, delay: bool): Option<Pair> {
    Perform(s, Terminate(s.me, delay))
  }

  function HiccupStep(s: Pair): Option<Pair> {
    if s.me.state != Active then Some(s)
    else
      Some(s.(me := s.me.(inpipe := s.next, inActive := true),
              toPeer := s.toPeer + [Hiccup(s.next)],
              heap := s.heap[s.next := Fresh()], next := s.next + 1))
  }

  function DeliverStep(s: Pair): Option<Pair> {
    if s.toMe == [] then Some(s) else Process(s.(toMe := s.toMe[1..]), s.toMe[0])
  }

  function ContinueStep(s: Pair): Option<Pair> {
    match s.me.todo
    case Nothing => Some(s)
    case MustWake => Some(s.(me := s.me.(todo := Nothing), toPeer := s.toPeer + [ActivateRead]))
    case MustDelimit =>
      if !OutOk(s) || PushDelimiter(s.me, s.heap[s.me.outpipe.value]).None? then None
      else
        var (e, p) := PushDelimiter(s.me, s.heap[s.me.outpipe.value]).value;
        Some(SetOut(s, e, p))
  }

  function Step(s: Pair, op: Op): Option<Pair> {
    match op
    case CheckReadOp => ReadStep(s, true)
    case ReadOp => ReadStep(s, false)
    case CheckWriteOp => CheckWriteStep(s)
    case WriteOp(body, more) => WriteStep(s, Msg(body, more))
    case RollbackOp => RollbackStep(s)
    case FlushOp => FlushStep(s)
    case TerminateOp(delay) => TerminateStep(s, delay)
    case HiccupOp => HiccupStep(s)
    case DeliverOp => DeliverStep(s)
    case ContinueOp => ContinueStep(s)
  }

  function Process(s: Pair, c: Command): Option<Pair> {
    match c
    case ActivateRead => Some(s.(me := ProcessActivateRead(s.me)))
    case ActivateWrite(n) => Some(s.(me := ProcessActivateWrite(s.me, n)))
    case Hiccup(id) =>
      // The old queue is drained and freed, the new one takes its place.
      if !OutOk(s) then None
      else Some(s.(me := ProcessHiccup(s.me, id), heap := s.heap - {s.me.outpipe.value}))
    case PipeTerm => Perform(s, ProcessPipeTerm(s.me))
    case PipeTermAck =>
      // The inbound queue is drained and freed together with the end.
      if !InOk(s) then None
      else Perform(s.(heap := s.heap - {s.me.inpipe}), ProcessPipeTermAck(s.me))
  }

  /** One move of a run: which side moves (`true` is the side `Init` calls `me`)
      and what it does. A move that is not enabled leaves the pair as it is. */
  datatype Move = Move(first: bool, op: Op)

  function Next(s: Pair, m: Move): Option<Pair> {
    if m.first then (if Enabled(s, m.op) then Step(s, m.op) else Some(s))
    else if !Enabled(Flip(s), m.op) then Some(s)
    else
      match Step(Flip(s), m.op)
      case None => None
      case Some(t) => Some(Flip(t))
  }

  function Run(s: Pair, moves: seq<Move>): Option<Pair>
    decreases |moves|
  {
    if moves == [] then Some(s)
    else
      match Next(s, moves[0])
      case None => None
      case Some(t) => Run(t, moves[1..])
  }
}
