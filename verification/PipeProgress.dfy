/** What flow control and termination promise in every run without hiccups. */
module PipeProgress {
  import opened Options
  import opened UPipe
  import opened PipeEnd
  import opened PipePair
  import opened PipeHandshake
  import opened PipeFlow

  // ---- Runs ----

  lemma StepFlows(s: Pair, op: Op)
    requires FlowInv(s) && Enabled(s, op) && op != HiccupOp
    ensures Step(s, op).Some? && FlowInv(Step(s, op).value)
  {
    StepKeeps(s, op);
    InvLinked(s);
    AckMeansAcked(s);
    RolesOf(Step(s, op).value);
    hide Inv, Linked, FlowsBoth, NoHiccups, Roles;
    match op {
      case CheckReadOp => ReadFlows(s, true);
      case ReadOp => ReadFlows(s, false);
      case CheckWriteOp => CheckWriteFlows(s);
      case WriteOp(body, more) => WriteFlows(s, Msg(body, more));
      case RollbackOp => RollbackFlows(s);
      case FlushOp => FlushFlows(s);
      case TerminateOp(delay) => TerminateFlows(s, delay);
      case DeliverOp => DeliverFlows(s);
      case ContinueOp => ContinueFlows(s);
    }
  }

  lemma AckMeansAcked(s: Pair)
    requires Shakes(s)
    ensures s.toMe != [] && s.toMe[0] == PipeTermAck ==> s.peer.outpipe.None?
  {
  }

  lemma RolesOf(s: Pair)
    requires Inv(s)
    ensures Roles(Out(s))
  {
  }

  lemma FlowFlip(s: Pair)
    requires FlowInv(s)
    ensures FlowInv(Flip(s)) && Flip(Flip(s)) == s
  {
    InvFlip(s);
  }

  lemma InitFlows(hwm0: nat, hwm1: nat, delay0: bool, delay1: bool)
    ensures FlowInv(Init(hwm0, hwm1, delay0, delay1))
  {
    InitInv(hwm0, hwm1, delay0, delay1);
    var s := Init(hwm0, hwm1, delay0, delay1);
    NewWayFlows(Out(s));
    NewWayFlows(In(s));
  }

  lemma NewWayFlows(d: Way)
    requires d.toW == [] && d.toR == [] && d.p == Fresh()
    requires d.w.state == Active && d.r.state == Active && d.w.outActive && d.r.inActive && d.w.todo == Nothing
    requires d.w.msgsWritten == 0 && d.w.peersMsgsRead == 0 && d.r.msgsRead == 0 && d.r.lwm == ComputeLwm(d.w.hwm)
    ensures Flows(d)
  {
  }

  lemma NextFlows(s: Pair, m: Move)
    requires FlowInv(s) && m.op != HiccupOp
    ensures Next(s, m).Some? && FlowInv(Next(s, m).value)
  {
    if m.first {
      if Enabled(s, m.op) { StepFlows(s, m.op); }
    } else if Enabled(Flip(s), m.op) {
      FlowFlip(s);
      StepFlows(Flip(s), m.op);
      FlowFlip(Step(Flip(s), m.op).value);
    }
  }

  lemma {:induction false} RunFlows(s: Pair, moves: seq<Move>)
    requires FlowInv(s) && forall i :: 0 <= i < |moves| ==> moves[i].op != HiccupOp
    ensures Run(s, moves).Some? && FlowInv(Run(s, moves).value)
    decreases |moves|
  {
    hide FlowInv, Next;
    if moves != [] {
      NextFlows(s, moves[0]);
      RunFlows(Next(s, moves[0]).value, moves[1..]);
    }
  }

  // ---- Flow control ----

  /** The writer never runs more than the high watermark ahead of what it knows
      was read, so the queue never holds more unread messages than that. */
  lemma WatermarkBound(s: Pair)
    requires FlowInv(s)
    ensures s.me.peersMsgsRead <= s.peer.msgsRead <= s.me.msgsWritten
    ensures s.me.hwm > 0 ==> s.me.msgsWritten <= s.me.peersMsgsRead + s.me.hwm
    ensures s.me.hwm > 0 && s.me.outpipe.Some? ==> Msgs(Out(s).p.flushed) + Msgs(Out(s).p.ready) <= s.me.hwm
  {
    NotesBounds(s.toMe, s.me.peersMsgsRead, s.peer.msgsRead);
  }

  /** Once the first part of a message is in, an active end takes all the others. */
  lemma NoPartRefused(s: Pair)
    requires FlowInv(s) && s.me.state == Active && Out(s).p.partial != []
    ensures CheckWrite(s.me) == (s.me, true)
  {
    InvLinked(s);
  }

  /** A blocked writer has unread messages in the queue, or news of more read
      messages than it knows of is on its way. */
  lemma NeverStalls(s: Pair)
    requires FlowInv(s) && s.me.state == Active && !s.me.outActive
    ensures s.peer.msgsRead < s.me.msgsWritten || NewsComing(s)
  {
    if s.peer.msgsRead == s.me.msgsWritten {
      LwmInRange(s.me.hwm);
      NewsInMail(s.toMe, s.me.peersMsgsRead, s.me.peersMsgsRead);
    }
  }

  ghost predicate NewsComing(s: Pair) {
    exists i :: 0 <= i < |s.toMe| && s.toMe[i].ActivateWrite? && s.toMe[i].msgsRead > s.me.peersMsgsRead
  }

  lemma {:induction false} NewsInMail(q: seq<Command>, k: nat, known: nat)
    requires k <= known < LastNote(q, k)
    ensures exists i :: 0 <= i < |q| && q[i].ActivateWrite? && q[i].msgsRead > known
    decreases |q|
  {
    if q[0].ActivateWrite? && q[0].msgsRead > known {
    } else {
      var r := q[1..];
      NewsInMail(r, if q[0].ActivateWrite? then q[0].msgsRead else k, known);
      var i :| 0 <= i < |r| && r[i].ActivateWrite? && r[i].msgsRead > known;
      assert q[i + 1] == r[i];
    }
  }

  /** A sleeping reader with something to read has exactly one wake-up coming. */
  lemma OneWakeUp(s: Pair)
    requires FlowInv(s) && Readable(s.peer) && !s.peer.inActive && Out(s).p.flushed != []
    ensures Wakes(s.toPeer) + Bit(s.me.todo == MustWake) == 1
  {
    InvLinked(s);
  }

  // ---- Termination ----

  predicate Still(s: Pair) {
    s.toMe == [] && s.toPeer == [] && s.me.todo == Nothing && s.peer.todo == Nothing
  }

  /** Somebody has asked for termination. */
  predicate Ending(s: Pair) {
    SentTerm(s.me) || SentTerm(s.peer)
  }

  /** The peer still has messages to read before it may go: it is awake, and the
      delimiter lies flushed at the end of its queue. */
  predicate Draining(s: Pair) {
    && s.me.state == Terminated && s.me.alive && OutOk(s)
    && s.peer.state == Pending && s.peer.alive && s.peer.CanRead()
    && EndsDelimited(Out(s).p)
  }

  predicate Gone(s: Pair) {
    !s.me.alive && !s.peer.alive
  }

  /** Termination cannot get stuck: when nothing moves any more, both ends are
      gone or one of them still has its messages to read. */
  lemma NotStuck(s: Pair)
    requires FlowInv(s) && Ending(s) && Still(s)
    ensures Gone(s) || Draining(s) || Draining(Flip(s))
  {
    InvLinked(s);
    FlowFlip(s);
    InvLinked(Flip(s));
  }

  // ---- Termination can always be completed ----

  /** Work left in one direction: unread and unflushed items, the writer's
      unfinished call, its commands under way and its acknowledgement. */
  function Work(d: Way): nat {
    (if d.w.outpipe.None? then 0
     else 2 + 2 * (|d.p.flushed| + |d.p.ready|)
          + (match d.w.todo case Nothing => 0 case MustWake => 2 case MustDelimit => 5))
    + |d.toR|
  }

  function Left(s: Pair): nat {
    Work(Out(s)) + Work(In(s))
  }

  lemma EndingFlip(s: Pair)
    ensures Ending(Flip(s)) == Ending(s)
  {
  }

  lemma LeftFlip(s: Pair)
    ensures Left(Flip(s)) == Left(s)
  {
    assert Flip(Flip(s)) == s;
  }

  predicate Internal(op: Op) {
    op == ReadOp || op == DeliverOp || op == ContinueOp
  }

  /** A handler that sends an acknowledgement lets go of its queue. */
  predicate Lighter(e: End, f: Effect) {
    f.Done? ==>
      && f.end.todo == e.todo && f.end.inpipe == e.inpipe && (SentTerm(e) ==> SentTerm(f.end))
      && (f.end.outpipe == e.outpipe || f.end.outpipe.None?)
      && (f.sent == [] || (|f.sent| == 1 && e.outpipe.Some? && f.end.outpipe.None?))
  }

  lemma HandlersLighten(e: End, n: nat)
    requires e.alive && (e.outpipe.None? <==> e.state == Terminating || e.state == DoubleTerminated)
    ensures Lighter(e, Done(ProcessActivateRead(e), [])) && Lighter(e, Done(ProcessActivateWrite(e, n), []))
    ensures Lighter(e, ProcessPipeTerm(e)) && Lighter(e, ProcessPipeTermAck(e))
  {
  }

  /** Taking a command off and handling it lowers the work left. */
  lemma LighterShrinks(s: Pair, f: Effect, t: Pair)
    requires s.toMe != [] && f.Done? && Lighter(s.me, f)
    requires t == s.(me := f.end, toMe := s.toMe[1..], toPeer := s.toPeer + f.sent, heap := t.heap)
    requires f.end.outpipe.Some? ==> Out(t).p == Out(s).p
    requires s.peer.outpipe.Some? ==> In(t).p == In(s).p
    ensures Left(t) < Left(s) && (Ending(s) ==> Ending(t))
  {
  }

  lemma DeliverShrinks(s: Pair)
    requires Linked(s) && s.me.alive && s.toMe != [] && DeliverStep(s).Some?
    requires s.toMe[0] == PipeTermAck ==> s.peer.outpipe.None?
    ensures Left(DeliverStep(s).value) < Left(s)
    ensures Ending(s) ==> Ending(DeliverStep(s).value)
  {
    hide Roles, Lighter, Left, Ending, ProcessPipeTerm, ProcessPipeTermAck, ProcessActivateRead, ProcessActivateWrite;
    var c, t := s.toMe[0], DeliverStep(s).value;
    HandlersLighten(s.me, if c.ActivateWrite? then c.msgsRead else 0);
    var f := match c
      case ActivateRead => Done(ProcessActivateRead(s.me), [])
      case ActivateWrite(n) => Done(ProcessActivateWrite(s.me, n), [])
      case PipeTerm => ProcessPipeTerm(s.me)
      case _ => ProcessPipeTermAck(s.me);
    assert s.toPeer + [] == s.toPeer;
    LighterShrinks(s, f, t);
  }

  lemma ContinueShrinks(s: Pair)
    requires Linked(s) && s.me.alive && s.me.todo != Nothing && ContinueStep(s).Some?
    ensures Left(ContinueStep(s).value) < Left(s)
    ensures Ending(s) ==> Ending(ContinueStep(s).value)
  {
    RollbackDropsPartial(Out(s).p);
    var t := ContinueStep(s).value;
    assert In(t) == In(s).(r := t.me, toW := t.toPeer);
  }

  lemma ReadShrinks(s: Pair)
    requires Linked(s) && s.me.alive && s.me.todo == Nothing && ReadStep(s, false).Some?
    requires s.me.CanRead() && In(s).p.flushed != []
    ensures Left(ReadStep(s, false).value) < Left(s)
    ensures Ending(s) ==> Ending(ReadStep(s, false).value)
  {
    hide NoHiccups;
    var t := ReadStep(s, false).value;
    assert t.me.outpipe.Some? ==> Out(t).p == Out(s).p;
  }

  lemma IdleRead(s: Pair)
    requires Linked(s) && s.me.alive && ReadStep(s, false).Some?
    requires !(s.me.CanRead() && In(s).p.flushed != [])
    ensures Left(ReadStep(s, false).value) == Left(s)
    ensures Ending(ReadStep(s, false).value) == Ending(s)
  {
    var t := ReadStep(s, false).value;
    assert t.me.outpipe.Some? ==> Out(t).p == Out(s).p;
    assert s.toPeer + [] == s.toPeer;
  }

  /** A move of `me` that brings the end closer: to finish a call, to take a command or
      to read a message. */
  predicate CanHelp(s: Pair, op: Op) {
    Enabled(s, op) && (op == ContinueOp || op == DeliverOp || (op == ReadOp && s.me.CanRead() && In(s).p.flushed != []))
  }

  lemma InternalStep(s: Pair, op: Op)
    requires FlowInv(s) && Ending(s) && Enabled(s, op) && Internal(op)
    ensures Step(s, op).Some?
    ensures var t := Step(s, op).value; FlowInv(t) && Ending(t) && Left(t) + Bit(CanHelp(s, op)) <= Left(s)
  {
    StepFlows(s, op);
    InvLinked(s);
    AckMeansAcked(s);
    hide FlowInv, Linked, Left, Ending;
    match op {
      case ContinueOp => ContinueShrinks(s);
      case DeliverOp => DeliverShrinks(s);
      case ReadOp => if CanHelp(s, op) { ReadShrinks(s); } else { IdleRead(s); }
    }
  }

  ghost predicate Closer(s: Pair, m: Move) {
    Internal(m.op) && Next(s, m).Some? &&
    var t := Next(s, m).value; FlowInv(t) && Ending(t) && Left(t) + Bit(Helps(s, m)) <= Left(s)
  }

  predicate Helps(s: Pair, m: Move) {
    CanHelp(if m.first then s else Flip(s), m.op)
  }

  lemma InternalMine(s: Pair, op: Op)
    requires FlowInv(s) && Ending(s) && Internal(op)
    ensures Closer(s, Move(true, op))
  {
    hide FlowInv, Left, Step, Ending;
    if Enabled(s, op) { InternalStep(s, op); }
  }

  lemma InternalPeers(s: Pair, op: Op)
    requires FlowInv(s) && Ending(s) && Internal(op)
    ensures Closer(s, Move(false, op))
  {
    hide FlowInv, Left, Step, Ending;
    if Enabled(Flip(s), op) {
      FlowFlip(s);
      EndingFlip(s);
      InternalStep(Flip(s), op);
      var t := Step(Flip(s), op).value;
      LeftFlip(s);
      LeftFlip(t);
      FlowFlip(t);
      EndingFlip(t);
    }
  }

  /** Whichever side has a move that helps. */
  lemma Helpful(s: Pair) returns (m: Move)
    requires FlowInv(s) && Ending(s) && !Gone(s)
    ensures Closer(s, m) && Helps(s, m)
  {
    Chosen(s);
    hide FlowInv, Closer, CanHelp, Ending;
    if CanHelp(s, Urgent(s)) {
      m := Move(true, Urgent(s));
      InternalMine(s, Urgent(s));
    } else {
      m := Move(false, Urgent(Flip(s)));
      InternalPeers(s, Urgent(Flip(s)));
    }
  }

  function Urgent(s: Pair): Op {
    if s.me.todo != Nothing then ContinueOp else if s.toMe != [] then DeliverOp else ReadOp
  }

  lemma Chosen(s: Pair)
    requires FlowInv(s) && Ending(s) && !Gone(s)
    ensures CanHelp(s, Urgent(s)) || CanHelp(Flip(s), Urgent(Flip(s)))
  {
    assert Flip(Flip(s)) == s;
    DrainingHelps(s);
    DrainingHelps(Flip(s));
    hide FlowInv, Shakes, Owned;
    if Still(s) {
      NotStuck(s);
    } else {
      AliveWithWork(s);
    }
  }

  lemma DrainingHelps(s: Pair)
    requires FlowInv(s) || FlowInv(Flip(s))
    ensures Draining(Flip(s)) && s.me.todo == Nothing ==> CanHelp(s, ReadOp)
  {
    if Draining(Flip(s)) {
      assert Flip(Flip(s)) == s;
      if FlowInv(s) { FlowFlip(s); }
      InvLinked(Flip(s));
    }
  }

  lemma AliveWithWork(s: Pair)
    requires Shakes(s)
    ensures s.me.todo != Nothing || s.toMe != [] ==> s.me.alive
    ensures s.peer.todo != Nothing || s.toPeer != [] ==> s.peer.alive
  {
  }

  lemma GoneFrees(s: Pair)
    requires FlowInv(s) && Gone(s)
    ensures s.heap == map[]
  {
    HandshakeMeaning(s);
  }

  /** From every state after a call to `terminate`, delivering the commands,
      finishing the calls and reading what is pending leads to the end of both
      sides, with every queue freed. */
  lemma {:induction false} CanFinish(s: Pair) returns (moves: seq<Move>)
    requires FlowInv(s) && Ending(s)
    ensures forall i :: 0 <= i < |moves| ==> Internal(moves[i].op)
    ensures Run(s, moves).Some? && Gone(Run(s, moves).value) && Run(s, moves).value.heap == map[]
    decreases Left(s)
  {
    hide FlowInv, Left, Next, Ending;
    if Gone(s) {
      moves := [];
      GoneFrees(s);
    } else {
      var m := Helpful(s);
      var rest := CanFinish(Next(s, m).value);
      moves := [m] + rest;
      RunCons(s, m, rest);
    }
  }

  /** How many moves of a schedule help. */
  function Progress(s: Pair, moves: seq<Move>): nat
    decreases |moves|
  {
    if moves == [] then 0
    else
      Bit(Helps(s, moves[0])) +
      match Next(s, moves[0])
      case None => 0
      case Some(t) => Progress(t, moves[1..])
  }

  /** Every schedule of such moves, in any order: at most `Left(s)` of them help, and as
      long as an end is there one that helps is left. */
  lemma {:induction false} EverySchedule(s: Pair, moves: seq<Move>)
    requires FlowInv(s) && Ending(s)
    requires forall i :: 0 <= i < |moves| ==> Internal(moves[i].op)
    ensures Run(s, moves).Some?
    ensures var t := Run(s, moves).value; FlowInv(t) && Ending(t) && Progress(s, moves) + Left(t) <= Left(s)
    ensures var t := Run(s, moves).value; (forall m :: !Helps(t, m)) ==> Gone(t) && t.heap == map[]
    decreases |moves|
  {
    hide FlowInv, Left, Next, Ending, Helps;
    if moves == [] {
      if Gone(s) {
        GoneFrees(s);
      } else {
        var m := Helpful(s);
      }
    } else {
      var m := moves[0];
      if m.first { InternalMine(s, m.op); } else { InternalPeers(s, m.op); }
      EverySchedule(Next(s, m).value, moves[1..]);
    }
  }

  lemma RunCons(s: Pair, m: Move, rest: seq<Move>)
    requires Next(s, m).Some?
    ensures Run(s, [m] + rest) == Run(Next(s, m).value, rest)
  {
    assert ([m] + rest)[1..] == rest;
  }

  // ---- All of it, from a new pipe on ----

  /** What flow control promises one side as a writer. */
  ghost predicate FlowPromise(s: Pair) {
    && s.me.peersMsgsRead <= s.peer.msgsRead <= s.me.msgsWritten
    && (s.me.hwm > 0 ==> s.me.msgsWritten <= s.me.peersMsgsRead + s.me.hwm)
    && (s.me.state == Active && Out(s).p.partial != [] ==> CheckWrite(s.me) == (s.me, true))
    && (s.me.state == Active && !s.me.outActive ==> s.peer.msgsRead < s.me.msgsWritten || NewsComing(s))
    && (Readable(s.peer) && !s.peer.inActive && Out(s).p.flushed != [] ==> Wakes(s.toPeer) + Bit(s.me.todo == MustWake) == 1)
  }

  lemma Promised(s: Pair)
    requires FlowInv(s)
    ensures FlowPromise(s)
  {
    hide FlowInv;
    WatermarkBound(s);
    if s.me.state == Active && Out(s).p.partial != [] { NoPartRefused(s); }
    if s.me.state == Active && !s.me.outActive { NeverStalls(s); }
    if Readable(s.peer) && !s.peer.inActive && Out(s).p.flushed != [] { OneWakeUp(s); }
  }

  /** From a new pipe on, in every run without hiccups: the watermark is kept, no later
      part of a message is refused, no writer stalls, no reader sleeps through its mail,
      and termination does not get stuck. */
  lemma EveryFlow(hwm0: nat, hwm1: nat, delay0: bool, delay1: bool, moves: seq<Move>)
    requires forall i :: 0 <= i < |moves| ==> moves[i].op != HiccupOp
    ensures var r := Run(Init(hwm0, hwm1, delay0, delay1), moves);
      && r.Some? && FlowPromise(r.value) && FlowPromise(Flip(r.value))
      && (Ending(r.value) && Still(r.value) ==> Gone(r.value) || Draining(r.value) || Draining(Flip(r.value)))
  {
    hide FlowInv, FlowPromise;
    InitFlows(hwm0, hwm1, delay0, delay1);
    RunFlows(Init(hwm0, hwm1, delay0, delay1), moves);
    var t := Run(Init(hwm0, hwm1, delay0, delay1), moves).value;
    Promised(t);
    FlowFlip(t);
    Promised(Flip(t));
    if Ending(t) && Still(t) { NotStuck(t); }
  }

  /** From a new pipe on: whatever the two ends do without hiccups, once one of them has
      asked for termination every schedule of deliveries, unfinished calls and reads that
      runs out of useful moves has ended both and freed every queue, within a fixed bound. */
  lemma EveryEnding(hwm0: nat, hwm1: nat, delay0: bool, delay1: bool, moves: seq<Move>, later: seq<Move>)
    requires forall i :: 0 <= i < |moves| ==> moves[i].op != HiccupOp
    requires forall i :: 0 <= i < |later| ==> Internal(later[i].op)
    ensures var r := Run(Init(hwm0, hwm1, delay0, delay1), moves);
      r.Some? && (Ending(r.value) ==>
        Run(r.value, later).Some? && (var t := Run(r.value, later).value;
          && Progress(r.value, later) <= Left(r.value)
          && ((forall m :: !Helps(t, m)) ==> Gone(t) && t.heap == map[])))
  {
    hide FlowInv, Left, Next, Ending, Helps, Progress;
    InitFlows(hwm0, hwm1, delay0, delay1);
    RunFlows(Init(hwm0, hwm1, delay0, delay1), moves);
    var s := Run(Init(hwm0, hwm1, delay0, delay1), moves).value;
    if Ending(s) { EverySchedule(s, later); }
  }

  // ---- When a pipe stops being readable ----

  /** An end with a part to read stays so in every step but two: a call to `terminate`, if it
      is active or the call is without delay, and the peer's termination, if it is active and
      set not to delay. The part is still in the queue then. */
  lemma StopsReadingIff(s: Pair, op: Op)
    requires Enabled(s, op) && Step(s, op).Some? && s.me.CanRead() && InOk(s) && s.heap[s.me.inpipe].flushed != []
    requires s.heap[s.me.inpipe].flushed[0] != Delimiter
    ensures !Step(s, op).value.me.CanRead() <==>
      || (op.TerminateOp? && (s.me.state == Active || !op.delay))
      || (op == DeliverOp && s.toMe[0] == PipeTerm && s.me.state == Active && !s.me.delay)
    ensures !Step(s, op).value.me.CanRead() ==> Step(s, op).value.heap == s.heap && Step(Step(s, op).value, ReadOp) == Step(s, op)
  {
    match op
    case DeliverOp => DeliveredReading(s);
    case RollbackOp => hide Rollback;
    case ContinueOp => hide Rollback;
    case _ =>
  }

  lemma DeliveredReading(s: Pair)
    requires s.toMe != [] && DeliverStep(s).Some? && s.me.CanRead()
    ensures !DeliverStep(s).value.me.CanRead() <==> s.toMe[0] == PipeTerm && s.me.state == Active && !s.me.delay
    ensures s.toMe[0] == PipeTerm ==> DeliverStep(s).value.heap == s.heap
  {
  }
}
