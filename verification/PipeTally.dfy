/** Flow control in runs with hiccups: what a hiccup drops is never given back to the
    writer's watermark. */
module PipeTally {
  import opened Options
  import opened UPipe
  import opened PipeEnd
  import opened PipePair
  import opened PipeHandshake
  import opened PipeFlow
  import opened PipeProgress
  import opened PipeHiccup

  function Unread(p: Pipe): nat {
    Msgs(p.flushed) + Msgs(p.ready)
  }

  /** One direction in which `dropped` whole messages went with replaced queues. */
  predicate Tally(d: Way, dropped: nat) {
    && d.r.lwm == ComputeLwm(d.w.hwm)
    && (d.w.hwm > 0 ==> d.w.msgsWritten <= d.w.peersMsgsRead + d.w.hwm)
    && NotesRise(d.toW, d.w.peersMsgsRead, d.r.msgsRead)
    && (d.r.lwm > 0 ==> LastNote(d.toW, d.w.peersMsgsRead) == d.r.msgsRead - d.r.msgsRead % d.r.lwm)
    && (d.w.outpipe.Some? ==> Unread(d.p) + dropped + d.r.msgsRead == d.w.msgsWritten)
    && (d.w.state == Active && !d.w.outActive ==> d.w.Full())
  }

  // ---- The writer moves ----

  lemma WriterKeeps(d: Way, d': Way, n: nat)
    requires Tally(d, n) && d'.r == d.r && d'.toW == d.toW
    requires d'.w.hwm == d.w.hwm && d'.w.msgsWritten == d.w.msgsWritten && d'.w.peersMsgsRead == d.w.peersMsgsRead
    requires d'.w.outpipe.Some? ==> d.w.outpipe.Some? && Unread(d'.p) == Unread(d.p)
    requires d'.w.state == Active ==> d.w.state == Active && (d'.w.outActive == d.w.outActive || d.w.Full())
    ensures Tally(d', n)
  {
  }

  lemma WriterAdds(d: Way, n: nat, m: Msg)
    requires Tally(d, n) && d.w.outpipe.Some? && OnlyParts(d.p.partial) && m.Msg? && CheckWrite(d.w).1
    ensures var (e, p, _) := WriteMsg(d.w, d.p, m); Tally(d.(w := e, p := p), n)
  {
    if !m.more {
      PartsAreNoMsgs(d.p.partial);
      MsgsConcat(d.p.ready, d.p.partial);
      MsgsConcat(d.p.ready + d.p.partial, [m]);
    }
  }

  lemma PublishUnread(p: Pipe)
    ensures Unread(p.Flush().0) == Unread(p)
  {
    MsgsConcat(p.flushed, p.ready);
  }

  lemma DelimiterUnread(p: Pipe)
    ensures Unread(p.(partial := []).Write(Delimiter, false)) == Unread(p)
  {
    var q := p.(partial := []);
    assert q.ready + q.partial + [Delimiter] == p.ready + [Delimiter];
    MsgsConcat(p.ready, [Delimiter]);
  }

  lemma WriterHears(d: Way, n: nat)
    requires Tally(d, n) && d.toW != [] && d.toW[0].ActivateWrite?
    ensures Tally(d.(w := ProcessActivateWrite(d.w, d.toW[0].msgsRead), toW := d.toW[1..]), n)
  {
    NotesBounds(d.toW[1..], d.toW[0].msgsRead, d.r.msgsRead);
  }

  // ---- The reader moves ----

  lemma ReaderKeeps(d: Way, d': Way, n: nat, sent: seq<Command>)
    requires Tally(d, n) && d'.w == d.w && Unread(d'.p) == Unread(d.p) && d'.r.lwm == d.r.lwm && d'.r.msgsRead == d.r.msgsRead
    requires d'.toW == d.toW + sent && (sent == [] || (|sent| == 1 && !sent[0].ActivateWrite?))
    ensures Tally(d', n)
  {
    if sent == [] {
      assert d'.toW == d.toW;
    } else {
      assert sent == [sent[0]];
      MailAppend(d.toW, sent[0], d.w.peersMsgsRead, d.r.msgsRead, d.r.msgsRead);
    }
  }

  /** Taking a message off the writer's queue. */
  lemma ReaderCounts(d: Way, n: nat)
    requires Tally(d, n) && d.r.CanRead() && d.p.flushed != [] && d.p.flushed[0].Msg?
    ensures var r := ReadMsg(d.r, d.p, false);
      r.effect.Done? && Tally(d.(r := r.effect.end, toW := d.toW + r.effect.sent, p := r.inp), n)
  {
    var r := ReadMsg(d.r, d.p, false);
    var m := r.effect.end.msgsRead;
    NotesBounds(d.toW, d.w.peersMsgsRead, d.r.msgsRead);
    if r.effect.sent == [] {
      assert d.toW + [] == d.toW;
      NotesWiden(d.toW, d.w.peersMsgsRead, d.r.msgsRead, m);
      if d.r.lwm > 0 { ModStep(d.r.msgsRead, d.r.lwm); }
    } else {
      MailAppend(d.toW, ActivateWrite(m), d.w.peersMsgsRead, d.r.msgsRead, m);
    }
  }

  // ---- Steps of the pair ----

  ghost predicate TallyBoth(s: Pair, mine: nat, peers: nat) {
    Tally(Out(s), mine) && Tally(In(s), peers)
  }

  lemma DelimiterTaken(p: Pipe)
    requires p.flushed != [] && p.flushed[0] == Delimiter
    ensures Unread(p.Pop()) == Unread(p)
  {
  }

  /** Reading from the queue the peer writes to. */
  lemma ReadLinked(d: Way, n: nat, check: bool)
    requires Tally(d, n) && d.r.CanRead()
    ensures var r := ReadMsg(d.r, d.p, check);
      r.effect.Done? && Tally(d.(r := r.effect.end, toW := d.toW + r.effect.sent, p := r.inp), n)
  {
    var r := ReadMsg(d.r, d.p, check);
    if d.p.flushed != [] && d.p.flushed[0].Msg? && !check {
      ReaderCounts(d, n);
    } else {
      if d.p.flushed != [] && d.p.flushed[0] == Delimiter { DelimiterTaken(d.p); }
      ReaderKeeps(d, d.(r := r.effect.end, toW := d.toW + r.effect.sent, p := r.inp), n, r.effect.sent);
    }
  }

  lemma ReadIn(s: Pair, peers: nat, check: bool)
    requires Placed(s) && Placed(Flip(s)) && Unused(s.heap, HiccupIds(s.toPeer)) && Tally(In(s), peers)
    requires s.me.alive && s.me.CanRead() && ReadStep(s, check).Some?
    ensures Tally(In(ReadStep(s, check).value), peers)
  {
    var t, d := ReadStep(s, check).value, In(s);
    var q := s.heap[s.me.inpipe];
    var r := ReadMsg(s.me, q, check);
    if HiccupIds(s.toPeer) == [] {
      assert s.peer.outpipe == Some(s.me.inpipe);
      ReadLinked(d, peers, check);
      assert In(t) == d.(r := r.effect.end, toW := d.toW + r.effect.sent, p := r.inp);
    } else {
      assert s.me.inpipe in HiccupIds(s.toPeer) && Empty(q);
      ReaderKeeps(d, In(t), peers, []);
    }
  }

  /** `me` moves in a way its readers do not notice. */
  lemma OutKeeps(s: Pair, t: Pair, n: nat)
    requires Tally(Out(s), n) && t.peer == s.peer && t.toMe == s.toMe
    requires t.me.hwm == s.me.hwm && t.me.msgsWritten == s.me.msgsWritten && t.me.peersMsgsRead == s.me.peersMsgsRead
    requires t.me.outpipe.Some? ==> t.me.outpipe == s.me.outpipe && Unread(Out(t).p) == Unread(Out(s).p)
    requires t.me.state == Active ==> s.me.state == Active && (t.me.outActive == s.me.outActive || s.me.Full())
    ensures Tally(Out(t), n)
  {
    WriterKeeps(Out(s), Out(t), n);
  }

  /** `me` moves in a way its writer does not notice. */
  lemma InKeeps(s: Pair, t: Pair, n: nat, sent: seq<Command>)
    requires Tally(In(s), n) && t.peer == s.peer && t.toPeer == s.toPeer + sent && In(t).p == In(s).p
    requires t.me.lwm == s.me.lwm && t.me.msgsRead == s.me.msgsRead
    requires sent == [] || (|sent| == 1 && !sent[0].ActivateWrite?)
    ensures Tally(In(t), n)
  {
    ReaderKeeps(In(s), In(t), n, sent);
  }

  lemma ReadTally(s: Pair, mine: nat, peers: nat, check: bool)
    requires Placed(s) && Placed(Flip(s)) && Unused(s.heap, HiccupIds(s.toPeer)) && TallyBoth(s, mine, peers)
    requires s.me.alive && ReadStep(s, check).Some?
    ensures TallyBoth(ReadStep(s, check).value, mine, peers)
  {
    if s.me.CanRead() {
      ReadIn(s, peers, check);
      ReadLeaves(s.me, s.heap[s.me.inpipe], check);
      var t := ReadStep(s, check).value;
      assert t.me.outpipe.Some? ==> Out(t).p == Out(s).p;
      hide Tally, ReadMsg;
      OutKeeps(s, t, mine);
    }
  }

  lemma CheckWriteTally(s: Pair, mine: nat, peers: nat)
    requires TallyBoth(s, mine, peers)
    ensures TallyBoth(CheckWriteStep(s).value, mine, peers)
  {
    var t := CheckWriteStep(s).value;
    assert s.toPeer + [] == s.toPeer;
    hide Tally;
    OutKeeps(s, t, mine);
    InKeeps(s, t, peers, []);
  }

  lemma WriteTally(s: Pair, mine: nat, peers: nat, m: Msg)
    requires Placed(s) && TallyBoth(s, mine, peers) && m.Msg? && WriteStep(s, m).Some?
    requires OutOk(s) ==> OnlyParts(Out(s).p.partial)
    ensures TallyBoth(WriteStep(s, m).value, mine, peers)
  {
    var t := WriteStep(s, m).value;
    if CheckWrite(s.me).1 {
      var (e, p, _) := WriteMsg(s.me, Out(s).p, m);
      assert Out(t) == Out(s).(w := e, p := p);
      assert s.toPeer + [] == s.toPeer;
      hide Tally;
      WriterAdds(Out(s), mine, m);
      InKeeps(s, t, peers, []);
    } else {
      CheckWriteTally(s, mine, peers);
    }
  }

  /** `me` rearranges its queue. */
  lemma QueueTally(s: Pair, t: Pair, mine: nat, peers: nat, p: Pipe)
    requires Placed(s) && TallyBoth(s, mine, peers) && OutOk(s) && Unread(p) == Unread(Out(s).p)
    requires t == s.(me := t.me, heap := s.heap[s.me.outpipe.value := p])
    requires t.me == s.me.(todo := t.me.todo)
    ensures TallyBoth(t, mine, peers)
  {
    assert s.toPeer + [] == s.toPeer;
    hide Tally;
    OutKeeps(s, t, mine);
    InKeeps(s, t, peers, []);
  }

  lemma FlushTally(s: Pair, mine: nat, peers: nat)
    requires Placed(s) && TallyBoth(s, mine, peers) && OutOk(s)
    ensures FlushStep(s).Some? && TallyBoth(FlushStep(s).value, mine, peers)
  {
    var t, q := FlushStep(s).value, s.heap[s.me.outpipe.value];
    PublishUnread(q);
    assert s.heap[s.me.outpipe.value := q] == s.heap;
    QueueTally(s, t, mine, peers, t.heap[s.me.outpipe.value]);
  }

  lemma RollbackTally(s: Pair, mine: nat, peers: nat)
    requires Placed(s) && TallyBoth(s, mine, peers) && OutOk(s) && OnlyParts(s.heap[s.me.outpipe.value].partial)
    ensures RollbackStep(s).Some? && TallyBoth(RollbackStep(s).value, mine, peers)
  {
    var q := s.heap[s.me.outpipe.value];
    RollbackDropsPartial(q);
    QueueTally(s, RollbackStep(s).value, mine, peers, q.(partial := []));
  }

  lemma DelimitTally(s: Pair, mine: nat, peers: nat)
    requires Placed(s) && TallyBoth(s, mine, peers) && OutOk(s) && OnlyParts(s.heap[s.me.outpipe.value].partial) && s.me.todo == MustDelimit
    ensures ContinueStep(s).Some? && TallyBoth(ContinueStep(s).value, mine, peers)
  {
    var q := s.heap[s.me.outpipe.value];
    RollbackDropsPartial(q);
    DelimiterUnread(q);
    PublishUnread(q.(partial := []).Write(Delimiter, false));
    var t := ContinueStep(s).value;
    QueueTally(s, t, mine, peers, t.heap[s.me.outpipe.value]);
  }

  lemma WakeTally(s: Pair, mine: nat, peers: nat)
    requires TallyBoth(s, mine, peers) && s.me.todo == MustWake
    ensures TallyBoth(ContinueStep(s).value, mine, peers)
  {
    hide Tally;
    OutKeeps(s, ContinueStep(s).value, mine);
    InKeeps(s, ContinueStep(s).value, peers, [ActivateRead]);
  }

  lemma TerminateTally(s: Pair, mine: nat, peers: nat, delay: bool)
    requires TallyBoth(s, mine, peers) && TerminateStep(s, delay).Some?
    ensures TallyBoth(TerminateStep(s, delay).value, mine, peers)
  {
    var t := TerminateStep(s, delay).value;
    hide Tally;
    OutKeeps(s, t, mine);
    InKeeps(s, t, peers, Terminate(s.me, delay).sent);
  }

  lemma HiccupTally(s: Pair, mine: nat, peers: nat)
    requires Placed(s) && Placed(Flip(s)) && TallyBoth(s, mine, peers) && s.me.state == Active
    ensures TallyBoth(HiccupStep(s).value, mine, peers)
  {
    var t := HiccupStep(s).value;
    hide Tally;
    OutKeeps(s, t, mine);
    InKeeps(s, t, peers, [Hiccup(s.next)]);
  }

  // ---- Commands ----

  lemma HeadDrops(d: Way, n: nat)
    requires Tally(d, n) && d.toW != [] && !d.toW[0].ActivateWrite?
    ensures Tally(d.(toW := d.toW[1..]), n)
  {
  }

  /** What the handlers of wake-ups and termination commands leave alone. */
  lemma PlainHandlers(e: End)
    ensures ProcessActivateRead(e) == e.(inActive := ProcessActivateRead(e).inActive)
    ensures var f := ProcessPipeTerm(e); f.Done? ==>
      && (f.sent == [] || f.sent == [PipeTermAck])
      && f.end == e.(state := f.end.state, outpipe := f.end.outpipe) && f.end.state != Active
      && (f.end.outpipe.Some? ==> f.end.outpipe == e.outpipe)
  {
  }

  lemma DeliverPlainTally(s: Pair, mine: nat, peers: nat)
    requires TallyBoth(s, mine, peers) && s.toMe != [] && (s.toMe[0] == ActivateRead || s.toMe[0] == PipeTerm) && DeliverStep(s).Some?
    ensures TallyBoth(DeliverStep(s).value, mine, peers)
  {
    var t, u := DeliverStep(s).value, s.(toMe := s.toMe[1..]);
    var sent := if s.toMe[0] == PipeTerm then ProcessPipeTerm(s.me).sent else [];
    PlainHandlers(s.me);
    hide Tally, ProcessPipeTerm, ProcessActivateRead;
    assert Out(u) == Out(s).(toW := s.toMe[1..]);
    assert s.toPeer + [] == s.toPeer;
    HeadDrops(Out(s), mine);
    OutKeeps(u, t, mine);
    InKeeps(s, t, peers, sent);
  }

  lemma DeliverNewsTally(s: Pair, mine: nat, peers: nat)
    requires TallyBoth(s, mine, peers) && s.toMe != [] && s.toMe[0].ActivateWrite?
    ensures TallyBoth(DeliverStep(s).value, mine, peers)
  {
    var t := DeliverStep(s).value;
    assert Out(t) == Out(s).(w := t.me, toW := t.toMe);
    assert s.toPeer + [] == s.toPeer;
    WriterHears(Out(s), mine);
    hide Tally;
    InKeeps(s, t, peers, []);
  }

  /** A replaced queue takes its unread messages with it. */
  lemma DeliverHiccupTally(s: Pair, mine: nat, peers: nat)
    requires Placed(s) && Placed(Flip(s)) && Unused(s.heap, HiccupIds(s.toMe)) && TallyBoth(s, mine, peers)
    requires s.toMe != [] && s.toMe[0].Hiccup? && DeliverStep(s).Some?
    ensures TallyBoth(DeliverStep(s).value, mine + Unread(Out(s).p), peers)
  {
    var t := DeliverStep(s).value;
    assert s.toMe[0].pipe in HiccupIds(s.toMe);
    assert Empty(Out(t).p);
    HeadDrops(Out(s), mine);
    assert Tally(Out(t), mine + Unread(Out(s).p));
    assert s.toPeer + [] == s.toPeer;
    assert In(t).p == In(s).p;
    hide Tally;
    InKeeps(s, t, peers, []);
  }

  lemma DeliverAckTally(s: Pair, mine: nat, peers: nat)
    requires TallyBoth(s, mine, peers) && s.toMe != [] && s.toMe[0] == PipeTermAck && DeliverStep(s).Some? && s.peer.outpipe.None?
    requires s.me.state == Terminating || SentTerm(s.me)
    requires s.me.outpipe.None? || s.me.state == Terminated
    ensures TallyBoth(DeliverStep(s).value, mine, peers)
  {
    var t, u := DeliverStep(s).value, s.(toMe := s.toMe[1..]);
    HeadDrops(Out(s), mine);
    assert Out(u) == Out(s).(toW := s.toMe[1..]);
    hide Tally;
    OutKeeps(u, t, mine);
    InKeeps(s, t, peers, ProcessPipeTermAck(s.me).sent);
  }

  // ---- Runs ----

  /** What `me` drops in a step: the unread messages of a replaced queue. */
  function Drops(s: Pair, op: Op): nat {
    if op == DeliverOp && s.toMe != [] && s.toMe[0].Hiccup? then Unread(Out(s).p) else 0
  }

  lemma AckRole(s: Pair)
    requires Inv(s) && s.me.alive && s.toMe != [] && s.toMe[0] == PipeTermAck
    ensures s.me.outpipe.None? || s.me.state == Terminated
  {
    AckExpected(s);
  }

  lemma DeliverTally(s: Pair, mine: nat, peers: nat)
    requires Inv(s) && Placed(s) && Placed(Flip(s)) && Unused(s.heap, HiccupIds(s.toMe)) && TallyBoth(s, mine, peers)
    requires Enabled(s, DeliverOp) && DeliverStep(s).Some?
    ensures TallyBoth(DeliverStep(s).value, mine + Drops(s, DeliverOp), peers)
  {
    hide Shakes, Owned, Placed, TallyBoth, Unused, Process;
    if s.toMe[0] == PipeTermAck {
      AckExpected(s);
      AckMeansAcked(s);
      AckRole(s);
    }
    match s.toMe[0] {
      case ActivateRead => DeliverPlainTally(s, mine, peers);
      case ActivateWrite(_) => DeliverNewsTally(s, mine, peers);
      case Hiccup(_) => DeliverHiccupTally(s, mine, peers);
      case PipeTerm => DeliverPlainTally(s, mine, peers);
      case PipeTermAck => DeliverAckTally(s, mine, peers);
    }
  }

  lemma NoDrops(s: Pair, op: Op)
    ensures op != DeliverOp ==> Drops(s, op) == 0
  {
  }

  /** Without a queue there is nothing to roll back or to flush. */
  predicate Rolled(s: Pair) {
    RollbackStep(s) == Some(s) && FlushStep(s) == Some(s)
  }

  ghost predicate Uses(s: Pair) {
    Unused(s.heap, HiccupIds(s.toMe)) && Unused(s.heap, HiccupIds(s.toPeer))
  }

  lemma HeldQueue(s: Pair)
    requires Inv(s)
    ensures s.me.outpipe.Some? ==> OutOk(s) && OnlyParts(s.heap[s.me.outpipe.value].partial)
    ensures s.me.outpipe.None? ==> Rolled(s)
    ensures s.me.todo != Nothing ==> s.me.outpipe.Some?
  {
    HeldQueuesLive(s);
    HeldPartsOnly(s);
  }

  lemma WriterTally(s: Pair, op: Op, mine: nat, peers: nat)
    requires Inv(s) && Placed(s) && TallyBoth(s, mine, peers) && Enabled(s, op) && Step(s, op).Some?
    requires op == CheckWriteOp || op.WriteOp? || op == RollbackOp || op == FlushOp
    ensures TallyBoth(Step(s, op).value, mine, peers)
  {
    hide Inv, Placed, TallyBoth, CheckWriteStep, WriteStep, RollbackStep, FlushStep;
    HeldQueue(s);
    match op {
      case CheckWriteOp => CheckWriteTally(s, mine, peers);
      case WriteOp(body, more) => WriteTally(s, mine, peers, Msg(body, more));
      case RollbackOp => if s.me.outpipe.Some? { RollbackTally(s, mine, peers); }
      case FlushOp => if s.me.outpipe.Some? { FlushTally(s, mine, peers); }
    }
  }

  lemma ContinueTally(s: Pair, mine: nat, peers: nat)
    requires Inv(s) && Placed(s) && TallyBoth(s, mine, peers) && s.me.todo != Nothing && ContinueStep(s).Some?
    ensures TallyBoth(ContinueStep(s).value, mine, peers)
  {
    hide Inv, Placed, TallyBoth, ContinueStep;
    HeldQueue(s);
    if s.me.todo == MustWake { WakeTally(s, mine, peers); } else { DelimitTally(s, mine, peers); }
  }

  lemma StepTally(s: Pair, op: Op, mine: nat, peers: nat)
    requires Inv(s) && Placed(s) && Placed(Flip(s)) && Uses(s) && TallyBoth(s, mine, peers) && Enabled(s, op) && Step(s, op).Some?
    ensures TallyBoth(Step(s, op).value, mine + Drops(s, op), peers)
  {
    hide Inv, Placed, TallyBoth, Unused, Drops, ReadStep, TerminateStep, DeliverStep, ContinueStep, WriteStep;
    NoDrops(s, op);
    match op {
      case CheckReadOp => ReadTally(s, mine, peers, true);
      case ReadOp => ReadTally(s, mine, peers, false);
      case TerminateOp(delay) => TerminateTally(s, mine, peers, delay);
      case HiccupOp => if s.me.state == Active { HiccupTally(s, mine, peers); }
      case DeliverOp => DeliverTally(s, mine, peers);
      case ContinueOp => ContinueTally(s, mine, peers);
      case _ => WriterTally(s, op, mine, peers);
    }
  }

  ghost predicate TallyInv(s: Pair, mine: nat, peers: nat) {
    && TallyBoth(s, mine, peers)
    && exists a, b :: HiccupInv(s, a, b)
  }

  lemma StepTallied(s: Pair, op: Op, mine: nat, peers: nat)
    requires TallyInv(s, mine, peers) && Enabled(s, op)
    ensures Step(s, op).Some? && TallyInv(Step(s, op).value, mine + Drops(s, op), peers)
  {
    var a, b :| HiccupInv(s, a, b);
    StepHiccups(s, op, a, b);
    PlacedAll(s);
    InvFlip(s);
    PlacedAll(Flip(s));
    hide Inv, Placed, Step, TallyBoth, Drops;
    StepTally(s, op, mine, peers);
    assert HiccupInv(Step(s, op).value, a || Loses(s, op), b);
  }

  lemma TallyFlip(s: Pair, mine: nat, peers: nat)
    requires TallyInv(s, mine, peers)
    ensures TallyInv(Flip(s), peers, mine) && Flip(Flip(s)) == s
  {
    var a, b :| HiccupInv(s, a, b);
    HiccupFlip(s, a, b);
    hide HiccupInv;
    assert HiccupInv(Flip(s), b, a);
  }

  /** Whole messages one side drops in a move, and in a run. */
  function DropsIn(s: Pair, m: Move, first: bool): nat {
    var side := if first then s else Flip(s);
    if m.first == first && Enabled(side, m.op) then Drops(side, m.op) else 0
  }

  function DroppedBy(s: Pair, moves: seq<Move>, first: bool): nat
    decreases |moves|
  {
    if moves == [] then 0
    else
      DropsIn(s, moves[0], first) +
      match Next(s, moves[0])
      case None => 0
      case Some(t) => DroppedBy(t, moves[1..], first)
  }

  lemma NextTally(s: Pair, m: Move, mine: nat, peers: nat)
    requires TallyInv(s, mine, peers)
    ensures Next(s, m).Some?
    ensures TallyInv(Next(s, m).value, mine + DropsIn(s, m, true), peers + DropsIn(s, m, false))
  {
    hide TallyInv, Step, Drops;
    if m.first {
      if Enabled(s, m.op) { StepTallied(s, m.op, mine, peers); }
    } else if Enabled(Flip(s), m.op) {
      TallyFlip(s, mine, peers);
      StepTallied(Flip(s), m.op, peers, mine);
      TallyFlip(Step(Flip(s), m.op).value, peers + Drops(Flip(s), m.op), mine);
    }
  }

  lemma {:induction false} RunTally(s: Pair, moves: seq<Move>, mine: nat, peers: nat)
    requires TallyInv(s, mine, peers)
    ensures Run(s, moves).Some?
    ensures TallyInv(Run(s, moves).value, mine + DroppedBy(s, moves, true), peers + DroppedBy(s, moves, false))
    decreases |moves|
  {
    hide TallyInv, Next, DropsIn;
    if moves != [] {
      NextTally(s, moves[0], mine, peers);
      RunTally(Next(s, moves[0]).value, moves[1..], mine + DropsIn(s, moves[0], true), peers + DropsIn(s, moves[0], false));
    }
  }

  lemma InitTally(hwm0: nat, hwm1: nat, delay0: bool, delay1: bool)
    ensures TallyInv(Init(hwm0, hwm1, delay0, delay1), 0, 0)
  {
    InitHiccups(hwm0, hwm1, delay0, delay1);
    var s := Init(hwm0, hwm1, delay0, delay1);
    NewTally(Out(s));
    NewTally(In(s));
    hide HiccupInv;
    assert HiccupInv(s, false, false);
  }

  lemma NewTally(d: Way)
    requires d.r.lwm == ComputeLwm(d.w.hwm) && d.w.msgsWritten == d.w.peersMsgsRead == d.r.msgsRead == 0 && d.toW == [] && d.p == Fresh()
    requires d.w.outActive
    ensures Tally(d, 0)
  {
  }

  // ---- When a writer stalls ----

  /** An active writer with nothing unread and no command on its way. */
  predicate Drained(s: Pair) {
    s.me.state == Active && s.me.outpipe.Some? && s.toMe == [] && Unread(Out(s).p) == 0
  }

  /** Such a writer is refused exactly if what hiccups dropped, with what was read since the
      last notification, fills its watermark. */
  lemma RefusedIff(s: Pair, n: nat)
    requires Tally(Out(s), n) && Drained(s)
    ensures s.peer.lwm == 0 <==> s.me.hwm == 0
    ensures !CheckWrite(s.me).1 <==> s.me.hwm > 0 && n + s.peer.msgsRead % s.peer.lwm == s.me.hwm
    ensures n == 0 ==> CheckWrite(s.me).1
  {
    LwmInRange(s.me.hwm);
  }

  /** A drained writer is refused exactly if `n` and the reads not yet notified fill its watermark. */
  predicate RefusedExactly(s: Pair, n: nat)
    requires Drained(s)
  {
    && (s.me.hwm > 0 <==> s.peer.lwm > 0)
    && (!CheckWrite(s.me).1 <==> s.me.hwm > 0 && n + s.peer.msgsRead % s.peer.lwm == s.me.hwm)
    && (n == 0 ==> CheckWrite(s.me).1)
  }

  /** Over every run with any hiccups: a writer whose reader has drained the pipe, with
      nothing on its way, is refused if and only if the messages dropped by the hiccups it
      processed and those read since the last notification add up to its watermark; so
      never, if none were dropped. */
  lemma StallsIff(hwm0: nat, hwm1: nat, delay0: bool, delay1: bool, moves: seq<Move>)
    ensures var s := Init(hwm0, hwm1, delay0, delay1); var r := Run(s, moves);
      && r.Some? && r.value.me.hwm == hwm0 && r.value.peer.hwm == hwm1
      && (Drained(r.value) ==> RefusedExactly(r.value, DroppedBy(s, moves, true)))
      && (Drained(Flip(r.value)) ==> RefusedExactly(Flip(r.value), DroppedBy(s, moves, false)))
  {
    var s := Init(hwm0, hwm1, delay0, delay1);
    hide TallyInv, RefusedExactly, Run, Init, DroppedBy;
    InitTally(hwm0, hwm1, delay0, delay1);
    InitWatermarks(hwm0, hwm1, delay0, delay1);
    RunTally(s, moves, 0, 0);
    WatermarksStay(s, moves);
    var t := Run(s, moves).value;
    RefusedBoth(t, DroppedBy(s, moves, true), DroppedBy(s, moves, false));
  }

  lemma RefusedBoth(s: Pair, mine: nat, peers: nat)
    requires TallyInv(s, mine, peers)
    ensures (Drained(s) ==> RefusedExactly(s, mine)) && (Drained(Flip(s)) ==> RefusedExactly(Flip(s), peers))
  {
    hide HiccupInv, Tally, CheckWrite;
    if Drained(s) { RefusedIff(s, mine); }
    if Drained(Flip(s)) { RefusedIff(Flip(s), peers); }
  }

  lemma InitWatermarks(hwm0: nat, hwm1: nat, delay0: bool, delay1: bool)
    ensures var s := Init(hwm0, hwm1, delay0, delay1); s.me.hwm == hwm0 && s.peer.hwm == hwm1
  {
  }

  // ---- A stalled writer stays so ----

  /** All the writer's watermark has room for is written, and none of it is there to read. */
  predicate Jammed(s: Pair) {
    && s.me.hwm > 0 && s.peer.lwm > 0
    && (s.me.state == Active && s.me.outpipe.Some? ==>
      && Unread(Out(s).p) == 0
      && s.me.msgsWritten == s.peer.msgsRead - s.peer.msgsRead % s.peer.lwm + s.me.hwm)
  }

  lemma JammedIff(s: Pair, n: nat)
    requires Tally(Out(s), n) && Drained(s)
    ensures !CheckWrite(s.me).1 <==> Jammed(s)
  {
    LwmInRange(s.me.hwm);
  }

  lemma JammedRefused(s: Pair, n: nat)
    requires Tally(Out(s), n) && Jammed(s) && (s.me.state == Active ==> s.me.outpipe.Some?)
    ensures !CheckWrite(s.me).1
  {
    NotesBounds(s.toMe, s.me.peersMsgsRead, s.peer.msgsRead);
  }

  /** What one end's step does to its counters. */
  predicate Counts(e: End, f: End) {
    && f.hwm == e.hwm && f.lwm == e.lwm
    && f.msgsRead >= e.msgsRead
    && (!CheckWrite(e).1 ==> f.msgsWritten == e.msgsWritten)
    && (f.state == Active ==> e.state == Active)
    && (f.outpipe.Some? ==> e.outpipe.Some?)
  }

  lemma TerminateCounts(e: End, delay: bool)
    ensures Terminate(e, delay).Done? ==> Counts(e, Terminate(e, delay).end)
  {
  }

  lemma ReadCounts(e: End, p: Pipe, check: bool)
    ensures var f := ReadMsg(e, p, check).effect; f.Done? ==> Counts(e, f.end)
  {
  }

  lemma HandlerCounts(e: End, n: nat, id: PipeId)
    ensures Counts(e, ProcessActivateRead(e)) && Counts(e, ProcessActivateWrite(e, n))
    ensures e.outpipe.Some? ==> Counts(e, ProcessHiccup(e, id))
    ensures ProcessPipeTerm(e).Done? ==> Counts(e, ProcessPipeTerm(e).end)
    ensures ProcessPipeTermAck(e).Done? ==> Counts(e, ProcessPipeTermAck(e).end)
  {
  }

  lemma DeliverCounts(s: Pair)
    requires DeliverStep(s).Some?
    ensures Counts(s.me, DeliverStep(s).value.me) && DeliverStep(s).value.peer == s.peer
  {
    hide Counts, ProcessPipeTerm, ProcessPipeTermAck, ProcessActivateRead, ProcessActivateWrite, ProcessHiccup;
    if s.toMe == [] {
      SameCounts(s.me);
    } else {
      var c := s.toMe[0];
      HandlerCounts(s.me, if c.ActivateWrite? then c.msgsRead else 0, if c.Hiccup? then c.pipe else 0);
    }
  }

  lemma SameCounts(e: End)
    ensures Counts(e, e)
  {
  }

  lemma StepCounts(s: Pair, op: Op)
    requires Step(s, op).Some?
    ensures Counts(s.me, Step(s, op).value.me) && Step(s, op).value.peer == s.peer
  {
    match op
    case DeliverOp => DeliverCounts(s);
    case TerminateOp(delay) =>
      TerminateCounts(s.me, delay);
      hide Terminate, Counts;
    case CheckReadOp =>
      if s.me.CanRead() { ReadCounts(s.me, s.heap[s.me.inpipe], true); }
      hide ReadMsg, Counts;
    case ReadOp =>
      if s.me.CanRead() { ReadCounts(s.me, s.heap[s.me.inpipe], false); }
      hide ReadMsg, Counts;
    case RollbackOp => hide Rollback;
    case _ =>
  }

  /** Each end keeps its watermarks. */
  lemma {:induction false} WatermarksStay(s: Pair, moves: seq<Move>)
    requires Run(s, moves).Some?
    ensures var t := Run(s, moves).value;
      t.me.hwm == s.me.hwm && t.me.lwm == s.me.lwm && t.peer.hwm == s.peer.hwm && t.peer.lwm == s.peer.lwm
    decreases |moves|
  {
    hide Step, Enabled;
    if moves != [] {
      var m := moves[0];
      if m.first && Enabled(s, m.op) { StepCounts(s, m.op); }
      if !m.first && Enabled(Flip(s), m.op) { StepCounts(Flip(s), m.op); }
      WatermarksStay(Next(s, m).value, moves[1..]);
    }
  }

  lemma ActiveWrites(s: Pair)
    requires Inv(s)
    ensures s.me.state == Active ==> s.me.outpipe.Some?
  {
  }

  /** The conservation law leaves a jammed writer no way out. */
  lemma JammedStays(s: Pair, t: Pair, n: nat, m: nat)
    requires Tally(Out(s), n) && Jammed(s) && Tally(Out(t), m) && n <= m
    requires t.me.hwm == s.me.hwm && t.peer.lwm == s.peer.lwm && t.me.msgsWritten == s.me.msgsWritten
    requires t.peer.msgsRead >= s.peer.msgsRead
    requires t.me.state == Active ==> s.me.state == Active
    requires t.me.outpipe.Some? ==> s.me.outpipe.Some?
    ensures Jammed(t)
  {
  }

  lemma NextJammed(s: Pair, m: Move, mine: nat, peers: nat)
    requires TallyInv(s, mine, peers) && Jammed(s)
    ensures Next(s, m).Some? && Jammed(Next(s, m).value) && !CheckWrite(s.me).1
  {
    assert !CheckWrite(s.me).1 by {
      ActiveWrites(s);
      JammedRefused(s, mine);
    }
    NextTally(s, m, mine, peers);
    var t := Next(s, m).value;
    assert Tally(Out(s), mine) && Tally(Out(t), mine + DropsIn(s, m, true));
    hide TallyInv, Step, Tally, Jammed, DropsIn, CheckWrite;
    if m.first && Enabled(s, m.op) { StepCounts(s, m.op); }
    if !m.first && Enabled(Flip(s), m.op) { StepCounts(Flip(s), m.op); }
    JammedStays(s, t, mine, mine + DropsIn(s, m, true));
  }

  /** Once jammed a writer is refused for ever, whatever the two ends do. */
  lemma {:induction false} JammedForGood(s: Pair, moves: seq<Move>, mine: nat, peers: nat)
    requires TallyInv(s, mine, peers) && Jammed(s)
    ensures Run(s, moves).Some? && Jammed(Run(s, moves).value) && !CheckWrite(Run(s, moves).value.me).1
    decreases |moves|
  {
    hide TallyInv, Next, Jammed, DropsIn, CheckWrite;
    if moves == [] {
      NextJammed(s, Move(true, ContinueOp), mine, peers);
    } else {
      NextJammed(s, moves[0], mine, peers);
      NextTally(s, moves[0], mine, peers);
      JammedForGood(Next(s, moves[0]).value, moves[1..], mine + DropsIn(s, moves[0], true), peers + DropsIn(s, moves[0], false));
    }
  }

  /** Over every run from `Init`: a writer refused with its pipe drained is refused ever after. */
  lemma StallForGood(hwm0: nat, hwm1: nat, delay0: bool, delay1: bool, moves: seq<Move>, later: seq<Move>)
    requires Run(Init(hwm0, hwm1, delay0, delay1), moves).Some?
    requires var t := Run(Init(hwm0, hwm1, delay0, delay1), moves).value; Drained(t) && !CheckWrite(t.me).1
    ensures var r := Run(Run(Init(hwm0, hwm1, delay0, delay1), moves).value, later);
      r.Some? && !CheckWrite(r.value.me).1
  {
    var s := Init(hwm0, hwm1, delay0, delay1);
    InitTally(hwm0, hwm1, delay0, delay1);
    hide Init, DroppedBy, CheckWrite, Tally, HiccupInv;
    RunTally(s, moves, 0, 0);
    var t := Run(s, moves).value;
    JammedIff(t, DroppedBy(s, moves, true));
    JammedForGood(t, later, DroppedBy(s, moves, true), DroppedBy(s, moves, false));
  }

  const JAM := [Move(true, WriteOp([], false)), Move(true, FlushOp), Move(false, HiccupOp), Move(true, DeliverOp)]

  /** After two moves: one message is written and flushed. */
  function Offered(): Pair {
    var s := Init(1, 1, true, true);
    s.(me := s.me.(msgsWritten := 1), heap := map[0 := Fresh(), 1 := Queue([Msg([], false)], [], [], false)])
  }

  /** After all four: its queue is gone and the writer writes to an empty one. */
  function Lost(): Pair {
    var s := Offered();
    s.(me := s.me.(outpipe := Some(2)), peer := s.peer.(inpipe := 2), heap := map[0 := Fresh(), 2 := Fresh()], next := 3)
  }

  lemma JamOpening()
    ensures var s := Init(1, 1, true, true); Run(s, JAM) == Run(Offered(), JAM[2..]) && DroppedBy(s, JAM, true) == DroppedBy(Offered(), JAM[2..], true)
  {
    var s0 := Init(1, 1, true, true);
    var p: Pipe := Fresh();
    var q := Queue([], [Msg([], false)], [], false);
    assert p.Write(Msg([], false), false) == q;
    var s1 := s0.(me := s0.me.(msgsWritten := 1), heap := map[0 := Fresh(), 1 := q]);
    assert s0.heap[1 := q] == s1.heap;
    assert Next(s0, JAM[0]) == Some(s1);
    assert q.Flush().0 == Queue([Msg([], false)], [], [], false);
    assert s1.heap[1 := Queue([Msg([], false)], [], [], false)] == Offered().heap;
    assert Next(s1, JAM[1]) == Some(Offered());
    RunCons(s1, JAM[1], JAM[2..]);
    RunCons(s0, JAM[0], JAM[1..]);
    assert JAM[1..] == [JAM[1]] + JAM[2..] && JAM == [JAM[0]] + JAM[1..] && JAM[1..][1..] == JAM[2..];
    assert DropsIn(s0, JAM[0], true) == 0 && DropsIn(s1, JAM[1], true) == 0;
  }

  lemma JamEnding()
    ensures var s := Offered(); Run(s, JAM[2..]) == Some(Lost()) && DroppedBy(s, JAM[2..], true) == 1
  {
    var s2 := Offered();
    var s3 := s2.(peer := s2.peer.(inpipe := 2), toMe := [Hiccup(2)], heap := s2.heap[2 := Fresh()], next := 3);
    assert s2.toMe + [Hiccup(2)] == [Hiccup(2)];
    assert Next(s2, JAM[2]) == Some(s3);
    assert s3.toMe[1..] == [] && s3.heap - {1} == Lost().heap;
    assert Next(s3, JAM[3]) == Some(Lost());
    RunCons(s3, JAM[3], []);
    RunCons(s2, JAM[2], JAM[3..]);
    assert JAM[3..] == [JAM[3]] + [] && JAM[2..] == [JAM[2]] + JAM[3..] && JAM[2..][1..] == JAM[3..] && JAM[3..][1..] == [];
    assert DropsIn(s2, JAM[2], true) == 0;
    assert DropsIn(s3, JAM[3], true) == Unread(Out(s3).p) == 1;
    assert DroppedBy(s3, JAM[3..], true) == 1;
  }

  /** A hiccup can jam a writer: one message at watermark one, dropped with its queue. */
  lemma HiccupJams()
    ensures Run(Init(1, 1, true, true), JAM) == Some(Lost()) && DroppedBy(Init(1, 1, true, true), JAM, true) == 1
    ensures Drained(Lost()) && Still(Lost()) && !CheckWrite(Lost().me).1
  {
    JamOpening();
    JamEnding();
    hide Run, DroppedBy;
  }
}
