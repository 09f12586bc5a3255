/** What goes through a pipe, part by part: what was read is what was written, in order,
    less what was rolled back and what hiccups dropped. */
module PipeContents {
  import opened Options
  import opened UPipe
  import opened PipeEnd
  import opened PipePair
  import opened PipeHandshake
  import opened PipeFlow
  import opened PipeProgress
  import opened PipeHiccup

  /** The history of one direction. `kept` are the parts written, the delimiter included,
      less those rolled back or dropped; `got` are the answers of `read`, and `met` says that
      a read ended at the delimiter. The writer is in mid-message (`mid`); and a hiccup has
      dropped all it had written of that message (`torn`). */
  datatype Log = Log(kept: seq<Msg>, got: seq<Msg>, met: bool, mid: bool, torn: bool)

  const NOTHING := Log([], [], false, false, false)

  /** What left the queue on the reader's side. */
  function Taken(l: Log): seq<Msg> {
    if l.met then l.got + [Delimiter] else l.got
  }

  function Items(p: Pipe): seq<Msg> {
    p.flushed + p.ready + p.partial
  }

  /** All but the last `n`. */
  function Trim(s: seq<Msg>, n: nat): seq<Msg> {
    if n <= |s| then s[..|s| - n] else []
  }

  /** What a step of `me` does to the history of what it writes. */
  function WriterLog(s: Pair, op: Op, l: Log): Log {
    var p := Out(s).p;
    match op
    case WriteOp(body, more) =>
      if WriteMsg(s.me, p, Msg(body, more)).2 then l.(kept := l.kept + [Msg(body, more)], mid := more, torn := false) else l
    case RollbackOp =>
      if s.me.outpipe.None? then l else l.(kept := Trim(l.kept, |p.partial|), mid := false, torn := false)
    case ContinueOp =>
      if s.me.todo != MustDelimit then l else l.(kept := Trim(l.kept, |p.partial|) + [Delimiter], mid := false, torn := false)
    case DeliverOp =>
      if s.toMe == [] || !s.toMe[0].Hiccup? then l
      else l.(kept := Trim(l.kept, |Items(p)|), torn := l.torn || p.partial != [])
    case _ => l
  }

  /** And of what it reads: answers are collected, and a read that changes the state of the end
      has met the delimiter. */
  function ReaderLog(s: Pair, op: Op, l: Log): Log {
    if (op == ReadOp || op == CheckReadOp) && InOk(s) then
      var r := ReadMsg(s.me, s.heap[s.me.inpipe], op == CheckReadOp);
      l.(got := if op == ReadOp && r.got.Some? then l.got + [r.got.value] else l.got,
         met := l.met || (r.effect.Done? && r.effect.end.state != s.me.state))
    else l
  }

  /** The item `m` left the queue. */
  function Take(l: Log, m: Msg): Log {
    if m == Delimiter then l.(met := true) else l.(got := l.got + [m])
  }

  /** The writer has written its delimiter. */
  predicate Shut(e: End) {
    SentTerm(e) && e.todo != MustDelimit
  }

  /** The queue holds what was kept and not read; nothing was written after a delimiter that
      can still be read, or was; and the writer has nothing of its message in the queue
      exactly if a hiccup tore it. */
  ghost predicate Carried(d: Way, l: Log) {
    && Taken(l) <= l.kept && Delimiter !in l.got
    && (d.w.outpipe.Some? ==> l.kept == Taken(l) + Items(d.p) && (l.mid <==> d.p.partial != [] || l.torn) && (l.torn ==> d.p.partial == []))
    && (l.met ==> Taken(l) == l.kept && !Readable(d.r) && Shut(d.w))
    && (Delimiter in l.kept && Readable(d.r) ==> Shut(d.w) && Delimiter !in l.kept[..|l.kept| - 1])
  }

  // ---- One direction ----

  predicate SameItems(p: Pipe, q: Pipe) {
    Items(q) == Items(p) && q.partial == p.partial
  }

  lemma CarriedSame(d: Way, d': Way, l: Log)
    requires Carried(d, l) && (d'.w.outpipe.Some? ==> d.w.outpipe.Some? && SameItems(d.p, d'.p))
    requires (Readable(d'.r) ==> Readable(d.r)) && (Shut(d.w) ==> Shut(d'.w))
    ensures Carried(d', l)
  {
  }

  lemma FlushItems(p: Pipe)
    ensures SameItems(p, p.Flush().0)
  {
  }

  lemma WriteCarried(d: Way, l: Log, m: Msg, e: End)
    requires Carried(d, l) && d.w.outpipe.Some? && d.w.state == Active && m.Msg?
    requires e == d.w.(msgsWritten := e.msgsWritten)
    ensures Carried(d.(w := e, p := d.p.Write(m, m.more)), l.(kept := l.kept + [m], mid := m.more, torn := false))
  {
    var q := d.p.Write(m, m.more);
    assert Items(q) == Items(d.p) + [m];
    assert Taken(l) + Items(d.p) + [m] == Taken(l) + (Items(d.p) + [m]);
  }

  /** A delimiter is followed by nothing. */
  lemma NoPartAfter(d: Way, l: Log)
    requires Carried(d, l) && d.w.outpipe.Some? && OnlyParts(d.p.partial)
    ensures l.met || (Delimiter in l.kept && Readable(d.r)) ==> d.p.partial == []
  {
    if d.p.partial != [] {
      var m := d.p.partial[|d.p.partial| - 1];
      assert m in d.p.partial && l.kept[|l.kept| - 1] == m;
    }
  }

  lemma RollbackCarried(d: Way, l: Log)
    requires Carried(d, l) && d.w.outpipe.Some? && OnlyParts(d.p.partial)
    ensures Carried(d.(p := d.p.(partial := [])), l.(kept := Trim(l.kept, |d.p.partial|), mid := false, torn := false))
  {
    NoPartAfter(d, l);
    var q := d.p.(partial := []);
    assert Items(d.p) == Items(q) + d.p.partial;
    assert Trim(l.kept, |d.p.partial|) == Taken(l) + Items(q);
  }

  lemma DelimitCarried(d: Way, l: Log, e: End, q: Pipe)
    requires Carried(d, l) && d.w.outpipe.Some? && OnlyParts(d.p.partial) && d.w.todo == MustDelimit
    requires Readable(d.r) ==> SentTerm(d.w)
    requires e == d.w.(todo := e.todo) && e.todo != MustDelimit
    requires q.partial == [] && Items(q) == d.p.flushed + d.p.ready + [Delimiter]
    ensures Carried(d.(w := e, p := q), l.(kept := Trim(l.kept, |d.p.partial|) + [Delimiter], mid := false, torn := false))
  {
    var front := d.p.flushed + d.p.ready;
    assert Items(d.p) == front + d.p.partial;
    assert Trim(l.kept, |d.p.partial|) == Taken(l) + front;
    assert Taken(l) + front + [Delimiter] == Taken(l) + (front + [Delimiter]);
    var k := Taken(l) + front + [Delimiter];
    assert k[..|k| - 1] == Taken(l) + front;
    assert forall m :: m in Taken(l) + front ==> m in l.kept;
  }

  lemma HiccupCarried(d: Way, d': Way, l: Log)
    requires Carried(d, l) && d.w.outpipe.Some? && Empty(d'.p) && d'.r == d.r
    requires d'.w == d.w.(outpipe := d'.w.outpipe, outActive := d'.w.outActive)
    ensures Carried(d', l.(kept := Trim(l.kept, |Items(d.p)|), torn := l.torn || d.p.partial != []))
  {
    assert Trim(l.kept, |Items(d.p)|) == Taken(l);
    assert Items(d'.p) == [] && Taken(l) + [] == Taken(l);
  }

  lemma TakeTaken(l: Log, m: Msg)
    requires !l.met
    ensures Taken(l) == l.got && Taken(Take(l, m)) == l.got + [m]
  {
  }

  lemma PopCarried(d: Way, l: Log, r: End)
    requires Carried(d, l) && d.w.outpipe.Some? && d.p.flushed != [] && Readable(d.r)
    requires Readable(r) ==> d.p.flushed[0] != Delimiter
    ensures Carried(d.(r := r, p := d.p.Pop()), Take(l, d.p.flushed[0]))
  {
    var m, q := d.p.flushed[0], d.p.Pop();
    assert Items(d.p) == [m] + Items(q);
    TakeTaken(l, m);
    assert l.got + [m] + Items(q) == l.got + ([m] + Items(q));
    assert l.kept[|l.got|] == m;
    assert |l.kept| > |l.got| + 1 ==> m in l.kept[..|l.kept| - 1];
  }

  // ---- Steps of the pair ----

  ghost predicate CarriedBoth(s: Pair, mine: Log, peers: Log) {
    Carried(Out(s), mine) && Carried(In(s), peers)
  }

  /** What a step may do to the end that takes it. */
  predicate Onward(e: End, f: End) {
    && (Readable(f) ==> Readable(e)) && (Shut(e) ==> Shut(f))
    && (f.outpipe.Some? ==> e.outpipe.Some?)
  }

  /** A step that neither writes nor reads. */
  lemma PlainCarried(s: Pair, t: Pair, mine: Log, peers: Log)
    requires CarriedBoth(s, mine, peers) && Onward(s.me, t.me) && t.peer == s.peer
    requires t.me.outpipe.Some? ==> SameItems(Out(s).p, Out(t).p)
    requires t.peer.outpipe.Some? ==> SameItems(In(s).p, In(t).p)
    ensures CarriedBoth(t, mine, peers)
  {
    hide Carried, SameItems, Readable, Shut;
    CarriedSame(Out(s), Out(t), mine);
    CarriedSame(In(s), In(t), peers);
  }

  /** Where the other direction's queue is untouched, only the reader's end counts. */
  lemma OtherCarried(s: Pair, t: Pair, peers: Log)
    requires Carried(In(s), peers) && Onward(s.me, t.me) && t.peer == s.peer
    requires t.peer.outpipe.Some? ==> In(t).p == In(s).p
    ensures Carried(In(t), peers)
  {
    hide Carried, Readable, Shut;
    CarriedSame(In(s), In(t), peers);
  }

  lemma CheckWriteCarried(s: Pair, mine: Log, peers: Log)
    requires CarriedBoth(s, mine, peers)
    ensures CarriedBoth(CheckWriteStep(s).value, mine, peers)
  {
    hide CarriedBoth, Items;
    PlainCarried(s, CheckWriteStep(s).value, mine, peers);
  }

  lemma WriteStepCarried(s: Pair, mine: Log, peers: Log, m: Msg)
    requires Placed(s) && CarriedBoth(s, mine, peers) && m.Msg? && CheckWrite(s.me).1 && OutOk(s)
    ensures CarriedBoth(WriteStep(s, m).value, mine.(kept := mine.kept + [m], mid := m.more, torn := false), peers)
  {
    var t := WriteStep(s, m).value;
    assert Out(t) == Out(s).(w := t.me, p := Out(s).p.Write(m, m.more));
    assert In(t).p == In(s).p;
    hide Placed, Carried;
    WriteCarried(Out(s), mine, m, t.me);
    OtherCarried(s, t, peers);
  }

  lemma RollbackStepCarried(s: Pair, mine: Log, peers: Log)
    requires Placed(s) && CarriedBoth(s, mine, peers) && OutOk(s) && OnlyParts(Out(s).p.partial)
    ensures RollbackStep(s).Some?
    ensures CarriedBoth(RollbackStep(s).value, mine.(kept := Trim(mine.kept, |Out(s).p.partial|), mid := false, torn := false), peers)
  {
    RollbackDropsPartial(Out(s).p);
    hide Rollback;
    var t := RollbackStep(s).value;
    assert Out(t) == Out(s).(p := Out(s).p.(partial := []));
    assert In(t).p == In(s).p;
    hide Placed, Carried;
    RollbackCarried(Out(s), mine);
    OtherCarried(s, t, peers);
  }

  lemma FlushStepCarried(s: Pair, mine: Log, peers: Log)
    requires Placed(s) && CarriedBoth(s, mine, peers) && OutOk(s)
    ensures CarriedBoth(FlushStep(s).value, mine, peers)
  {
    var t := FlushStep(s).value;
    FlushItems(Out(s).p);
    assert In(t).p == In(s).p;
    assert SameItems(Out(s).p, Out(t).p);
    hide Placed, CarriedBoth, Items;
    PlainCarried(s, t, mine, peers);
  }

  lemma TerminateOnward(e: End, delay: bool)
    requires e.todo == Nothing
    ensures Terminate(e, delay).Done? ==> Onward(e, Terminate(e, delay).end)
    ensures Terminate(e, delay).Done? ==> var f := Terminate(e, delay).end; f.inpipe == e.inpipe && (f.outpipe.Some? ==> f.outpipe == e.outpipe)
  {
  }

  lemma TerminateCarried(s: Pair, mine: Log, peers: Log, delay: bool)
    requires CarriedBoth(s, mine, peers) && s.me.todo == Nothing && TerminateStep(s, delay).Some?
    ensures CarriedBoth(TerminateStep(s, delay).value, mine, peers)
  {
    TerminateOnward(s.me, delay);
    hide CarriedBoth, Items, Onward, Terminate;
    PlainCarried(s, TerminateStep(s, delay).value, mine, peers);
  }

  lemma HiccupStepCarried(s: Pair, mine: Log, peers: Log)
    requires Placed(s) && CarriedBoth(s, mine, peers)
    ensures CarriedBoth(HiccupStep(s).value, mine, peers)
  {
    var t := HiccupStep(s).value;
    assert t.me.outpipe.Some? ==> Out(t).p == Out(s).p;
    assert t.peer.outpipe.Some? ==> In(t).p == In(s).p;
    hide Placed, CarriedBoth, Items;
    PlainCarried(s, t, mine, peers);
  }

  lemma WakeCarried(s: Pair, mine: Log, peers: Log)
    requires CarriedBoth(s, mine, peers) && s.me.todo == MustWake
    ensures CarriedBoth(ContinueStep(s).value, mine, peers)
  {
    hide CarriedBoth, Items;
    PlainCarried(s, ContinueStep(s).value, mine, peers);
  }

  lemma DelimitItems(p: Pipe)
    ensures var q := p.(partial := []).Write(Delimiter, false).Flush().0;
      q.partial == [] && Items(q) == p.flushed + p.ready + [Delimiter]
  {
    var w := p.(partial := []).Write(Delimiter, false);
    assert w.ready == p.ready + [Delimiter];
    assert p.flushed + (p.ready + [Delimiter]) == p.flushed + p.ready + [Delimiter];
  }

  lemma DelimitStepCarried(s: Pair, mine: Log, peers: Log)
    requires Placed(s) && CarriedBoth(s, mine, peers) && OutOk(s) && OnlyParts(Out(s).p.partial) && s.me.todo == MustDelimit
    requires Readable(s.peer) ==> SentTerm(s.me)
    ensures ContinueStep(s).Some?
    ensures CarriedBoth(ContinueStep(s).value, mine.(kept := Trim(mine.kept, |Out(s).p.partial|) + [Delimiter], mid := false, torn := false), peers)
  {
    RollbackDropsPartial(Out(s).p);
    hide Rollback;
    var t := ContinueStep(s).value;
    DelimitItems(Out(s).p);
    assert Out(t) == Out(s).(w := t.me, p := Out(t).p);
    assert In(t).p == In(s).p;
    hide Placed, Carried, Items;
    DelimitCarried(Out(s), mine, t.me, Out(t).p);
    OtherCarried(s, t, peers);
  }

  lemma HandlersOnward(e: End, n: nat)
    ensures Onward(e, ProcessActivateRead(e)) && Onward(e, ProcessActivateWrite(e, n))
    ensures ProcessActivateRead(e).outpipe == ProcessActivateWrite(e, n).outpipe == e.outpipe
    ensures var f := ProcessPipeTerm(e); f.Done? ==> Onward(e, f.end) && (f.end.outpipe.Some? ==> f.end.outpipe == e.outpipe)
    ensures var f := ProcessPipeTermAck(e); f.Done? && (e.outpipe.None? || e.state == Terminated) ==> Onward(e, f.end) && f.end.outpipe.None?
  {
  }

  lemma DeliverPlainCarried(s: Pair, mine: Log, peers: Log)
    requires CarriedBoth(s, mine, peers) && s.toMe != [] && DeliverStep(s).Some?
    requires s.toMe[0] == ActivateRead || s.toMe[0].ActivateWrite? || s.toMe[0] == PipeTerm
    ensures CarriedBoth(DeliverStep(s).value, mine, peers)
  {
    hide CarriedBoth, Items, Onward, ProcessActivateRead, ProcessActivateWrite, ProcessPipeTerm;
    HandlersOnward(s.me, if s.toMe[0].ActivateWrite? then s.toMe[0].msgsRead else 0);
    PlainCarried(s, DeliverStep(s).value, mine, peers);
  }

  lemma DeliverAckCarried(s: Pair, mine: Log, peers: Log)
    requires CarriedBoth(s, mine, peers) && s.toMe != [] && DeliverStep(s).Some? && s.toMe[0] == PipeTermAck
    requires s.peer.outpipe.None? && (s.me.outpipe.None? || s.me.state == Terminated)
    ensures CarriedBoth(DeliverStep(s).value, mine, peers)
  {
    hide CarriedBoth, Items, Onward, ProcessPipeTermAck;
    HandlersOnward(s.me, 0);
    PlainCarried(s, DeliverStep(s).value, mine, peers);
  }

  lemma DeliverHiccupCarried(s: Pair, mine: Log, peers: Log)
    requires Placed(s) && Placed(Flip(s)) && CarriedBoth(s, mine, peers) && s.toMe != [] && s.toMe[0].Hiccup? && DeliverStep(s).Some?
    requires Unused(s.heap, HiccupIds(s.toMe))
    ensures CarriedBoth(DeliverStep(s).value,
      mine.(kept := Trim(mine.kept, |Items(Out(s).p)|), torn := mine.torn || Out(s).p.partial != []), peers)
  {
    var t := DeliverStep(s).value;
    assert s.toMe[0].pipe in HiccupIds(s.toMe);
    assert Empty(Out(t).p) && t.me == s.me.(outpipe := t.me.outpipe, outActive := t.me.outActive);
    assert t.peer.outpipe.Some? ==> In(t).p == In(s).p;
    hide Placed, Carried, Items, Unused;
    HiccupCarried(Out(s), Out(t), mine);
    OtherCarried(s, t, peers);
  }

  lemma DeliverCarried(s: Pair, mine: Log, peers: Log)
    requires Inv(s) && Placed(s) && Placed(Flip(s)) && Unused(s.heap, HiccupIds(s.toMe)) && CarriedBoth(s, mine, peers)
    requires Enabled(s, DeliverOp) && DeliverStep(s).Some?
    ensures CarriedBoth(DeliverStep(s).value, WriterLog(s, DeliverOp, mine), peers)
  {
    hide Shakes, Owned, Placed, CarriedBoth, Unused, Process, Items, Trim;
    if s.toMe[0] == PipeTermAck {
      AckExpected(s);
      AckMeansAcked(s);
      AckHeld(s);
      DeliverAckCarried(s, mine, peers);
    } else if s.toMe[0].Hiccup? {
      DeliverHiccupCarried(s, mine, peers);
    } else {
      DeliverPlainCarried(s, mine, peers);
    }
  }

  lemma AckHeld(s: Pair)
    requires Inv(s) && s.me.alive && s.toMe != [] && s.toMe[0] == PipeTermAck
    ensures s.me.outpipe.None? || s.me.state == Terminated
  {
    AckExpected(s);
  }

  // ---- Reading ----

  lemma ReadOnward(e: End, p: Pipe, check: bool)
    requires e.CanRead()
    ensures var r := ReadMsg(e, p, check);
      && r.effect.Done? && Onward(e, r.effect.end)
      && (r.effect.end.outpipe.Some? ==> r.effect.end.outpipe == e.outpipe) && r.effect.end.inpipe == e.inpipe
    ensures p.flushed != [] && p.flushed[0] == Delimiter ==> !Readable(ReadMsg(e, p, check).effect.end)
  {
  }

  /** The queue `me` reads is the one the peer writes to, or has nothing in it. */
  lemma ReadPlace(s: Pair)
    requires Placed(Flip(s)) && s.me.CanRead() && Unused(s.heap, HiccupIds(s.toPeer))
    ensures s.me.inpipe in s.heap && s.peer.outpipe.Some?
    ensures s.peer.outpipe.value != s.me.inpipe ==> Empty(s.heap[s.me.inpipe])
  {
    if HiccupIds(s.toPeer) != [] {
      assert Last([s.peer.outpipe.value] + HiccupIds(s.toPeer)) in HiccupIds(s.toPeer);
    }
  }

  lemma ReadStepCarried(s: Pair, mine: Log, peers: Log, check: bool)
    requires Placed(s) && Placed(Flip(s)) && CarriedBoth(s, mine, peers) && Unused(s.heap, HiccupIds(s.toPeer))
    ensures ReadStep(s, check).Some?
    ensures CarriedBoth(ReadStep(s, check).value, mine, ReaderLog(s, if check then CheckReadOp else ReadOp, peers))
  {
    if s.me.CanRead() {
      ReadPlace(s);
      var p := s.heap[s.me.inpipe];
      ReadOnward(s.me, p, check);
      var t, r := ReadStep(s, check).value, ReadMsg(s.me, p, check);
      assert t.me == r.effect.end && t.peer == s.peer;
      assert t.me.outpipe.Some? ==> Out(t).p == Out(s).p;
      assert In(t).p == if s.peer.outpipe.value == s.me.inpipe then r.inp else In(s).p;
      hide Placed, Unused;
      ReadEither(s, t, mine, peers, check);
    }
  }

  /** What a read answers, and what it does to the state of the end. */
  lemma ReadAnswers(e: End, p: Pipe, check: bool)
    requires e.CanRead()
    ensures var r := ReadMsg(e, p, check);
      if p.flushed == [] then r.got.None? && r.effect.end.state == e.state && Items(r.inp) == Items(p) && r.inp.partial == p.partial
      else if p.flushed[0] == Delimiter then r.got.None? && r.effect.end.state != e.state && r.inp == p.Pop()
      else r.got == Some(p.flushed[0]) && r.effect.end.state == e.state && r.inp == if check then p else p.Pop()
  {
    ReadOnward(e, p, check);
  }

  lemma ReadEither(s: Pair, t: Pair, mine: Log, peers: Log, check: bool)
    requires CarriedBoth(s, mine, peers) && s.me.CanRead() && InOk(s) && s.peer.outpipe.Some? && OutOk(Flip(s))
    requires s.peer.outpipe.value != s.me.inpipe ==> Empty(s.heap[s.me.inpipe])
    requires var r := ReadMsg(s.me, s.heap[s.me.inpipe], check);
      && r.effect.Done? && t.me == r.effect.end && t.peer == s.peer && (t.me.outpipe.Some? ==> Out(t).p == Out(s).p)
      && In(t).p == (if s.peer.outpipe.value == s.me.inpipe then r.inp else In(s).p)
    ensures CarriedBoth(t, mine, ReaderLog(s, if check then CheckReadOp else ReadOp, peers))
  {
    hide ReadMsg, Carried, Items, Onward;
    var p := s.heap[s.me.inpipe];
    ReadOnward(s.me, p, check);
    ReadAnswers(s.me, p, check);
    if p.flushed == [] || (check && p.flushed[0] != Delimiter) {
      PlainCarried(s, t, mine, peers);
    } else {
      ReadTakes(s, t, mine, peers);
    }
  }

  lemma ReadTakes(s: Pair, t: Pair, mine: Log, peers: Log)
    requires CarriedBoth(s, mine, peers) && s.peer.outpipe.Some? && OutOk(Flip(s)) && Readable(s.me)
    requires In(s).p.flushed != [] && In(t).p == In(s).p.Pop() && (Readable(t.me) ==> In(s).p.flushed[0] != Delimiter)
    requires Onward(s.me, t.me) && t.peer == s.peer && (t.me.outpipe.Some? ==> Out(t).p == Out(s).p)
    ensures CarriedBoth(t, mine, Take(peers, In(s).p.flushed[0]))
  {
    hide Carried, Items;
    var p := In(s).p;
    PopCarried(In(s), peers, t.me);
    CarriedSame(In(s).(r := t.me, p := p.Pop()), In(t), Take(peers, p.flushed[0]));
    CarriedSame(Out(s), Out(t), mine);
  }

  // ---- Every step ----

  lemma WriterStepCarried(s: Pair, op: Op, mine: Log, peers: Log)
    requires Inv(s) && Placed(s) && CarriedBoth(s, mine, peers) && Enabled(s, op) && Step(s, op).Some?
    requires op == CheckWriteOp || op.WriteOp? || op == RollbackOp || op == FlushOp
    ensures CarriedBoth(Step(s, op).value, WriterLog(s, op, mine), peers)
  {
    HeldQueuesLive(s);
    HeldPartsOnly(s);
    if s.me.state == Active { WritersHoldQueue(s); }
    hide Inv, Placed, CarriedBoth, Rollback, Trim;
    match op {
      case CheckWriteOp => CheckWriteCarried(s, mine, peers);
      case WriteOp(body, more) =>
        if CheckWrite(s.me).1 { WriteStepCarried(s, mine, peers, Msg(body, more)); } else { CheckWriteCarried(s, mine, peers); }
      case RollbackOp => if s.me.outpipe.Some? { RollbackStepCarried(s, mine, peers); }
      case FlushOp => if s.me.outpipe.Some? { FlushStepCarried(s, mine, peers); }
    }
  }

  lemma ContinueCarried(s: Pair, mine: Log, peers: Log, lost: bool)
    requires Inv(s) && Placed(s) && Delimiting(s, lost) && CarriedBoth(s, mine, peers) && s.me.todo != Nothing && ContinueStep(s).Some?
    ensures CarriedBoth(ContinueStep(s).value, WriterLog(s, ContinueOp, mine), peers)
  {
    hide Inv, Placed, CarriedBoth, ContinueStep, Trim, Delimiting;
    if s.me.todo == MustWake {
      WakeCarried(s, mine, peers);
    } else {
      MayDelimit(s, lost);
      DelimitStepCarried(s, mine, peers);
    }
  }

  lemma MayDelimit(s: Pair, lost: bool)
    requires Inv(s) && Delimiting(s, lost) && s.me.todo == MustDelimit
    ensures OutOk(s) && OnlyParts(Out(s).p.partial) && (Readable(s.peer) ==> SentTerm(s.me))
  {
    HeldQueuesLive(s);
    HeldPartsOnly(s);
    RolesOf(s);
    hide Inv;
  }

  ghost predicate Used(s: Pair, lost: bool) {
    Unused(s.heap, HiccupIds(s.toMe)) && Unused(s.heap, HiccupIds(s.toPeer)) && Delimiting(s, lost)
  }

  lemma StepCarried(s: Pair, op: Op, mine: Log, peers: Log, lost: bool)
    requires Inv(s) && Placed(s) && Placed(Flip(s)) && Used(s, lost) && CarriedBoth(s, mine, peers) && Enabled(s, op) && Step(s, op).Some?
    ensures CarriedBoth(Step(s, op).value, WriterLog(s, op, mine), ReaderLog(s, op, peers))
  {
    hide Inv, Placed, CarriedBoth, Unused, Delimiting, ReadStep, TerminateStep, DeliverStep, ContinueStep, WriteStep, HiccupStep;
    match op {
      case CheckReadOp => ReadStepCarried(s, mine, peers, true);
      case ReadOp => ReadStepCarried(s, mine, peers, false);
      case TerminateOp(delay) => TerminateCarried(s, mine, peers, delay);
      case HiccupOp => HiccupStepCarried(s, mine, peers);
      case DeliverOp => DeliverCarried(s, mine, peers);
      case ContinueOp => ContinueCarried(s, mine, peers, lost);
      case _ => WriterStepCarried(s, op, mine, peers);
    }
  }

  // ---- Runs ----

  ghost predicate CarryInv(s: Pair, mine: Log, peers: Log) {
    CarriedBoth(s, mine, peers) && exists a, b :: HiccupInv(s, a, b)
  }

  lemma StepCarries(s: Pair, op: Op, mine: Log, peers: Log)
    requires CarryInv(s, mine, peers) && Enabled(s, op)
    ensures Step(s, op).Some? && CarryInv(Step(s, op).value, WriterLog(s, op, mine), ReaderLog(s, op, peers))
  {
    var a, b :| HiccupInv(s, a, b);
    StepHiccups(s, op, a, b);
    PlacedAll(s);
    InvFlip(s);
    PlacedAll(Flip(s));
    assert Used(s, a);
    hide Inv, Placed, Step, CarriedBoth, WriterLog, ReaderLog, Used;
    StepCarried(s, op, mine, peers, a);
    assert HiccupInv(Step(s, op).value, a || Loses(s, op), b);
  }

  lemma CarryFlip(s: Pair, mine: Log, peers: Log)
    requires CarryInv(s, mine, peers)
    ensures CarryInv(Flip(s), peers, mine) && Flip(Flip(s)) == s
  {
    var a, b :| HiccupInv(s, a, b);
    HiccupFlip(s, a, b);
    hide HiccupInv, Carried;
    assert HiccupInv(Flip(s), b, a);
  }

  /** The histories of both directions, that of what the first end writes first. */
  function NextLogs(s: Pair, m: Move, a: Log, b: Log): (Log, Log) {
    if m.first then (if Enabled(s, m.op) then (WriterLog(s, m.op, a), ReaderLog(s, m.op, b)) else (a, b))
    else if Enabled(Flip(s), m.op) then (ReaderLog(Flip(s), m.op, a), WriterLog(Flip(s), m.op, b))
    else (a, b)
  }

  function Logs(s: Pair, moves: seq<Move>, a: Log, b: Log): (Log, Log)
    decreases |moves|
  {
    if moves == [] then (a, b)
    else
      match Next(s, moves[0])
      case None => (a, b)
      case Some(t) =>
        var (c, d) := NextLogs(s, moves[0], a, b);
        Logs(t, moves[1..], c, d)
  }

  lemma NextCarries(s: Pair, m: Move, a: Log, b: Log)
    requires CarryInv(s, a, b)
    ensures Next(s, m).Some? && CarryInv(Next(s, m).value, NextLogs(s, m, a, b).0, NextLogs(s, m, a, b).1)
  {
    hide CarryInv, Step, WriterLog, ReaderLog;
    if m.first {
      if Enabled(s, m.op) { StepCarries(s, m.op, a, b); }
    } else if Enabled(Flip(s), m.op) {
      CarryFlip(s, a, b);
      StepCarries(Flip(s), m.op, b, a);
      CarryFlip(Step(Flip(s), m.op).value, WriterLog(Flip(s), m.op, b), ReaderLog(Flip(s), m.op, a));
    }
  }

  lemma {:induction false} RunCarries(s: Pair, moves: seq<Move>, a: Log, b: Log)
    requires CarryInv(s, a, b)
    ensures Run(s, moves).Some? && CarryInv(Run(s, moves).value, Logs(s, moves, a, b).0, Logs(s, moves, a, b).1)
    decreases |moves|
  {
    hide CarryInv, Next, NextLogs;
    if moves != [] {
      NextCarries(s, moves[0], a, b);
      var l := NextLogs(s, moves[0], a, b);
      RunCarries(Next(s, moves[0]).value, moves[1..], l.0, l.1);
    }
  }

  lemma InitCarries(hwm0: nat, hwm1: nat, delay0: bool, delay1: bool)
    ensures CarryInv(Init(hwm0, hwm1, delay0, delay1), NOTHING, NOTHING)
  {
    hide HiccupInv, Carried;
    InitHiccups(hwm0, hwm1, delay0, delay1);
    var s := Init(hwm0, hwm1, delay0, delay1);
    NewCarried(Out(s));
    NewCarried(In(s));
    assert HiccupInv(s, false, false);
  }

  lemma NewCarried(d: Way)
    requires d.p == Fresh()
    ensures Carried(d, NOTHING)
  {
  }

  /** What a direction promises its reader: the answers of `read` are a beginning of those kept, and
      with the parts in the queue all of them, as long as the writer holds it; a reader that
      met the delimiter has them all; and the next part written continues a message of which
      nothing is in the queue if and only if a hiccup tore it. */
  ghost predicate Delivers(d: Way, l: Log) {
    && l.got <= l.kept && Delimiter !in l.got
    && (d.w.outpipe.Some? ==> l.kept == (if l.met then l.got + [Delimiter] else l.got) + Items(d.p))
    && (l.met ==> l.kept == l.got + [Delimiter])
    && (d.w.outpipe.Some? ==> (l.mid && d.p.partial == [] <==> l.torn))
  }

  /** From a new pipe on, in every run with any hiccups, in both directions. */
  lemma EveryContent(hwm0: nat, hwm1: nat, delay0: bool, delay1: bool, moves: seq<Move>)
    ensures var s := Init(hwm0, hwm1, delay0, delay1); var r := Run(s, moves); var l := Logs(s, moves, NOTHING, NOTHING);
      r.Some? && Delivers(Out(r.value), l.0) && Delivers(In(r.value), l.1)
  {
    InitCarries(hwm0, hwm1, delay0, delay1);
    hide Init, Logs, HiccupInv, Items;
    RunCarries(Init(hwm0, hwm1, delay0, delay1), moves, NOTHING, NOTHING);
  }

  // ---- Without hiccups ----

  /** The parts one end has written, less those rolled back. */
  function WroteNext(s: Pair, op: Op, w: seq<Msg>): seq<Msg> {
    if op == DeliverOp then w else WriterLog(s, op, Log(w, [], false, false, false)).kept
  }

  function Wrote(s: Pair, moves: seq<Move>, first: bool, w: seq<Msg>): seq<Msg>
    decreases |moves|
  {
    if moves == [] then w
    else
      var side := if first then s else Flip(s);
      var v := if moves[0].first == first && Enabled(side, moves[0].op) then WroteNext(side, moves[0].op, w) else w;
      match Next(s, moves[0])
      case None => v
      case Some(t) => Wrote(t, moves[1..], first, v)
  }

  lemma NoneDropped(s: Pair, op: Op, l: Log)
    requires HiccupIds(s.toMe) == []
    ensures WriterLog(s, op, l).kept == WroteNext(s, op, l.kept) && ReaderLog(s, op, l).kept == l.kept
  {
  }

  lemma NoMail(s: Pair)
    requires FlowInv(s)
    ensures HiccupIds(s.toMe) == [] && HiccupIds(s.toPeer) == []
  {
    InvLinked(s);
  }

  lemma NextDropped(s: Pair, m: Move, a: Log, b: Log)
    requires HiccupIds(s.toMe) == [] && HiccupIds(s.toPeer) == []
    ensures var l := NextLogs(s, m, a, b);
      && l.0.kept == (if m.first && Enabled(s, m.op) then WroteNext(s, m.op, a.kept) else a.kept)
      && l.1.kept == (if !m.first && Enabled(Flip(s), m.op) then WroteNext(Flip(s), m.op, b.kept) else b.kept)
  {
    hide WriterLog, ReaderLog, WroteNext;
    NoneDropped(s, m.op, a);
    NoneDropped(s, m.op, b);
    NoneDropped(Flip(s), m.op, a);
    NoneDropped(Flip(s), m.op, b);
  }

  lemma {:induction false} NothingDropped(s: Pair, moves: seq<Move>, a: Log, b: Log)
    requires FlowInv(s) && forall i :: 0 <= i < |moves| ==> moves[i].op != HiccupOp
    ensures var l := Logs(s, moves, a, b); l.0.kept == Wrote(s, moves, true, a.kept) && l.1.kept == Wrote(s, moves, false, b.kept)
    decreases |moves|
  {
    hide FlowInv, Next, NextLogs, Enabled, WroteNext;
    if moves != [] {
      NoMail(s);
      NextFlows(s, moves[0]);
      NextDropped(s, moves[0], a, b);
      var l := NextLogs(s, moves[0], a, b);
      NothingDropped(Next(s, moves[0]).value, moves[1..], l.0, l.1);
    }
  }

  /** From a new pipe on, in every run without hiccups: what one end read, and then the queue,
      is what the other wrote less what it rolled back; and an end that met the delimiter has
      read all of it. */
  lemma NothingLost(hwm0: nat, hwm1: nat, delay0: bool, delay1: bool, moves: seq<Move>)
    requires forall i :: 0 <= i < |moves| ==> moves[i].op != HiccupOp
    ensures var s := Init(hwm0, hwm1, delay0, delay1); var r := Run(s, moves); var l := Logs(s, moves, NOTHING, NOTHING);
      && r.Some?
      && (r.value.me.outpipe.Some? && !l.0.met ==> l.0.got + Items(Out(r.value).p) == Wrote(s, moves, true, []))
      && (r.value.peer.outpipe.Some? && !l.1.met ==> l.1.got + Items(In(r.value).p) == Wrote(s, moves, false, []))
      && (l.0.met ==> l.0.got + [Delimiter] == Wrote(s, moves, true, []))
      && (l.1.met ==> l.1.got + [Delimiter] == Wrote(s, moves, false, []))
  {
    EveryContent(hwm0, hwm1, delay0, delay1, moves);
    InitFlows(hwm0, hwm1, delay0, delay1);
    hide Init, Logs, Wrote, Run, FlowInv, Items;
    NothingDropped(Init(hwm0, hwm1, delay0, delay1), moves, NOTHING, NOTHING);
  }

  // ---- A torn message ----

  const TEAR := [
    Move(true, WriteOp([], true)), Move(false, HiccupOp), Move(true, DeliverOp),
    Move(true, WriteOp([], false)), Move(true, FlushOp), Move(false, ReadOp)]

  /** After three moves: the first part went with its queue. */
  function Torn(): Pair {
    var s := Init(0, 0, true, true);
    s.(me := s.me.(outpipe := Some(2)), peer := s.peer.(inpipe := 2), heap := map[0 := Fresh(), 2 := Fresh()], next := 3)
  }

  /** After one: the first part is in the queue. */
  function Begun(): Pair {
    Init(0, 0, true, true).(heap := map[0 := Fresh(), 1 := Queue([], [], [Msg([], true)], false)])
  }

  /** After two: the reader has asked for another. */
  function Asked(): Pair {
    var s := Begun();
    s.(peer := s.peer.(inpipe := 2), toMe := [Hiccup(2)], heap := s.heap[2 := Fresh()], next := 3)
  }

  const FIRST := Log([Msg([], true)], [], false, true, false)

  lemma TearBegins()
    ensures var s := Init(0, 0, true, true); Next(s, TEAR[0]) == Some(Begun()) && NextLogs(s, TEAR[0], NOTHING, NOTHING) == (FIRST, NOTHING)
  {
    var s, m := Init(0, 0, true, true), Msg([], true);
    var p: Pipe := Fresh();
    assert p.Write(m, true) == Queue([], [], [m], false);
    assert s.heap[1 := Queue([], [], [m], false)] == Begun().heap;
  }

  lemma TearAsks()
    ensures Next(Begun(), TEAR[1]) == Some(Asked()) && NextLogs(Begun(), TEAR[1], FIRST, NOTHING) == (FIRST, NOTHING)
  {
    assert Begun().toMe + [Hiccup(2)] == [Hiccup(2)];
  }

  lemma TearReplaces()
    ensures Next(Asked(), TEAR[2]) == Some(Torn())
  {
    hide WriterLog, ReaderLog, Items, Trim;
    var s := Asked();
    assert s.toMe[1..] == [] && s.heap - {1} == Torn().heap;
  }

  lemma TearDrops()
    ensures NextLogs(Asked(), TEAR[2], FIRST, NOTHING) == (Log([], [], false, true, true), NOTHING)
  {
    hide Step;
    var q := Queue([], [], [Msg([], true)], false);
    assert Out(Asked()).p == q && Items(q) == [Msg([], true)];
  }

  lemma TearOpening()
    ensures var s := Init(0, 0, true, true);
      && Run(s, TEAR) == Run(Torn(), TEAR[3..])
      && Logs(s, TEAR, NOTHING, NOTHING) == Logs(Torn(), TEAR[3..], Log([], [], false, true, true), NOTHING)
  {
    hide Next, NextLogs, Init, Begun, Asked, Torn;
    TearBegins();
    TearAsks();
    TearReplaces();
    TearDrops();
    LogsCons(Init(0, 0, true, true), TEAR[0], TEAR[1..], NOTHING, NOTHING);
    LogsCons(Begun(), TEAR[1], TEAR[2..], FIRST, NOTHING);
    LogsCons(Asked(), TEAR[2], TEAR[3..], FIRST, NOTHING);
    assert TEAR == [TEAR[0]] + TEAR[1..] && TEAR[1..] == [TEAR[1]] + TEAR[2..] && TEAR[2..] == [TEAR[2]] + TEAR[3..];
  }

  /** Then the second part is written, and flushed. */
  function Rest(p: Pipe): Pair {
    var s := Torn();
    s.(me := s.me.(msgsWritten := 1), heap := s.heap[2 := p])
  }

  const LAST := Log([Msg([], false)], [], false, false, false)

  lemma TearWrites()
    ensures Next(Torn(), TEAR[3]) == Some(Rest(Queue([], [Msg([], false)], [], false)))
    ensures NextLogs(Torn(), TEAR[3], Log([], [], false, true, true), NOTHING) == (LAST, NOTHING)
  {
    var p: Pipe := Fresh();
    assert p.Write(Msg([], false), false) == Queue([], [Msg([], false)], [], false);
  }

  lemma TearFlushes()
    ensures var q := Queue([], [Msg([], false)], [], false);
      Next(Rest(q), TEAR[4]) == Some(Rest(Queue([Msg([], false)], [], [], false))) && NextLogs(Rest(q), TEAR[4], LAST, NOTHING) == (LAST, NOTHING)
  {
    var q, q' := Queue([], [Msg([], false)], [], false), Queue([Msg([], false)], [], [], false);
    assert q.Flush().0 == q' && q.Flush().1;
    assert Rest(q).heap[2 := q'] == Rest(q').heap;
  }

  lemma TearReads()
    ensures var s := Rest(Queue([Msg([], false)], [], [], false));
      Next(s, TEAR[5]).Some? && NextLogs(s, TEAR[5], LAST, NOTHING).0 == LAST.(got := LAST.kept)
  {
  }

  lemma LogsCons(s: Pair, m: Move, rest: seq<Move>, a: Log, b: Log)
    requires Next(s, m).Some?
    ensures Run(s, [m] + rest) == Run(Next(s, m).value, rest)
    ensures var l := NextLogs(s, m, a, b); Logs(s, [m] + rest, a, b) == Logs(Next(s, m).value, rest, l.0, l.1)
  {
    assert ([m] + rest)[1..] == rest;
  }

  lemma TearEnding()
    ensures Run(Torn(), TEAR[3..]).Some?
    ensures Logs(Torn(), TEAR[3..], Log([], [], false, true, true), NOTHING).0 == LAST.(got := LAST.kept)
  {
    hide Next, NextLogs, Rest, Torn;
    TearWrites();
    TearFlushes();
    TearReads();
    var q, q' := Queue([], [Msg([], false)], [], false), Queue([Msg([], false)], [], [], false);
    LogsCons(Torn(), TEAR[3], TEAR[4..], Log([], [], false, true, true), NOTHING);
    LogsCons(Rest(q), TEAR[4], TEAR[5..], LAST, NOTHING);
    LogsCons(Rest(q'), TEAR[5], [], LAST, NOTHING);
    assert TEAR[3..] == [TEAR[3]] + TEAR[4..] && TEAR[4..] == [TEAR[4]] + TEAR[5..] && TEAR[5..] == [TEAR[5]] + [];
  }

  /** The reader gets the second part of a message alone: a hiccup dropped the first. */
  lemma HiccupTears()
    ensures var s := Init(0, 0, true, true); Run(s, TEAR).Some? && Logs(s, TEAR, NOTHING, NOTHING).0.got == [Msg([], false)]
  {
    TearOpening();
    TearEnding();
    hide Run, Logs;
  }
}
