/** Flow control and progress of a pipe pair in runs without hiccups: the
    watermark bound, no lost wake-up, no stalled writer, no stuck termination. */
module PipeFlow {
  import opened Options
  import opened UPipe
  import opened PipeEnd
  import opened PipePair
  import opened PipeHandshake

  /** One direction of a pair: its writer and reader, the commands on their way to
      each, and the queue between them (meaningful while the writer holds it). */
  datatype Way = Way(w: End, r: End, toW: seq<Command>, toR: seq<Command>, p: Pipe)

  function Out(s: Pair): Way {
    Way(s.me, s.peer, s.toMe, s.toPeer, if OutOk(s) then s.heap[s.me.outpipe.value] else Fresh())
  }

  function In(s: Pair): Way {
    Out(Flip(s))
  }

  /** Complete messages in a stretch of queue. The delimiter is not one. */
  function Msgs(items: seq<Msg>): nat {
    if items == [] then 0 else Bit(items[0].Msg? && !items[0].more) + Msgs(items[1..])
  }

  /** Wake-up commands for the reader in a mailbox. */
  function Wakes(q: seq<Command>): nat {
    if q == [] then 0 else Bit(q[0] == ActivateRead) + Wakes(q[1..])
  }

  /** The read count the writer will know once `q` is processed. */
  function LastNote(q: seq<Command>, known: nat): nat {
    if q == [] then known
    else LastNote(q[1..], if q[0].ActivateWrite? then q[0].msgsRead else known)
  }

  /** The read counts in `q` never decrease and stay between `lo` and `hi`. */
  predicate NotesRise(q: seq<Command>, lo: nat, hi: nat) {
    if q == [] then lo <= hi
    else if q[0].ActivateWrite? then lo <= q[0].msgsRead && NotesRise(q[1..], q[0].msgsRead, hi)
    else NotesRise(q[1..], lo, hi)
  }

  predicate Readable(e: End) {
    e.state == Active || e.state == Pending
  }

  // ---- The invariant of one direction ----

  /** Watermarks: what the writer knows, what was read, what was written. */
  predicate Counted(d: Way) {
    && d.r.lwm == ComputeLwm(d.w.hwm)
    && d.r.msgsRead <= d.w.msgsWritten
    && (d.w.hwm > 0 ==> d.w.msgsWritten <= d.w.peersMsgsRead + d.w.hwm)
    && NotesRise(d.toW, d.w.peersMsgsRead, d.r.msgsRead)
    && (d.r.lwm > 0 ==> LastNote(d.toW, d.w.peersMsgsRead) == d.r.msgsRead - d.r.msgsRead % d.r.lwm)
    && (d.w.outpipe.Some? ==> Msgs(d.p.flushed) + Msgs(d.p.ready) == d.w.msgsWritten - d.r.msgsRead)
  }

  /** An active writer is blocked only at the watermark, and never in mid-message. */
  predicate Blocked(d: Way) {
    d.w.state == Active ==>
      && (!d.w.outActive ==> d.w.Full())
      && (d.w.outpipe.Some? && d.p.partial != [] ==> d.w.outActive && !d.w.Full())
  }

  /** A reader that may read is asleep, awake, or has exactly one wake-up coming. */
  predicate Woken(d: Way) {
    Readable(d.r) && d.w.outpipe.Some? ==>
      && Wakes(d.toR) + Bit(d.w.todo == MustWake) == Bit(!d.r.inActive && !d.p.asleep)
      && (d.r.inActive ==> !d.p.asleep)
      && (d.p.asleep ==> d.p.flushed == [])
  }

  predicate NoDelimiter(items: seq<Msg>) {
    Delimiter !in items
  }

  predicate EndsDelimited(p: Pipe) {
    && p.flushed != [] && p.flushed[|p.flushed| - 1] == Delimiter
    && p.ready == [] && p.partial == []
  }

  /** The delimiter is in the queue once the writer has terminated, not earlier. */
  predicate Closed(d: Way) {
    && (d.w.todo == MustDelimit ==> d.w.state == Terminated || d.w.state == Pending)
    && (d.r.state == Delimited ==> SentTerm(d.w))
    && (Readable(d.r) && d.w.outpipe.Some? ==>
          if SentTerm(d.w) then d.w.todo == MustDelimit || EndsDelimited(d.p)
          else NoDelimiter(d.p.flushed) && NoDelimiter(d.p.ready) && NoDelimiter(d.p.partial))
  }

  predicate Flows(d: Way) {
    Counted(d) && Blocked(d) && Woken(d) && Closed(d)
  }

  /** What the handshake says about one direction when there are no hiccups. */
  predicate Roles(d: Way) {
    && (Readable(d.r) ==> d.w.outpipe.Some? && !GotTerm(d.w))
    && (d.r.state == Delimited ==> !GotTerm(d.w))
  }

  // ---- Arithmetic of queues and mailboxes ----

  lemma {:induction false} MsgsConcat(a: seq<Msg>, b: seq<Msg>)
    ensures Msgs(a + b) == Msgs(a) + Msgs(b)
  {
    if a == [] {
      assert a + b == b;
    } else {
      assert (a + b)[1..] == a[1..] + b;
      MsgsConcat(a[1..], b);
    }
  }

  lemma {:induction false} PartsAreNoMsgs(a: seq<Msg>)
    requires OnlyParts(a)
    ensures Msgs(a) == 0
  {
    if a != [] {
      assert a[0] in a;
      PartsAreNoMsgs(a[1..]);
    }
  }

  lemma {:induction false} MailAppend(q: seq<Command>, c: Command, lo: nat, mid: nat, hi: nat)
    requires NotesRise(q, lo, mid) && mid <= hi
    requires c.ActivateWrite? ==> LastNote(q, lo) <= c.msgsRead <= hi
    ensures Wakes(q + [c]) == Wakes(q) + Bit(c == ActivateRead)
    ensures LastNote(q + [c], lo) == if c.ActivateWrite? then c.msgsRead else LastNote(q, lo)
    ensures NotesRise(q + [c], lo, hi)
  {
    if q == [] {
      assert q + [c] == [c];
    } else {
      assert (q + [c])[1..] == q[1..] + [c];
      MailAppend(q[1..], c, if q[0].ActivateWrite? then q[0].msgsRead else lo, mid, hi);
    }
  }

  lemma {:induction false} WakesAppend(q: seq<Command>, c: Command)
    ensures Wakes(q + [c]) == Wakes(q) + Bit(c == ActivateRead)
  {
    if q == [] {
      assert q + [c] == [c];
    } else {
      assert (q + [c])[1..] == q[1..] + [c];
      WakesAppend(q[1..], c);
    }
  }

  lemma {:induction false} NotesBounds(q: seq<Command>, lo: nat, hi: nat)
    requires NotesRise(q, lo, hi)
    ensures lo <= LastNote(q, lo) <= hi
  {
    if q != [] {
      NotesBounds(q[1..], if q[0].ActivateWrite? then q[0].msgsRead else lo, hi);
    }
  }

  lemma {:induction false} NotesWiden(q: seq<Command>, lo: nat, mid: nat, hi: nat)
    requires NotesRise(q, lo, mid) && mid <= hi
    ensures NotesRise(q, lo, hi)
  {
    if q != [] {
      NotesWiden(q[1..], if q[0].ActivateWrite? then q[0].msgsRead else lo, mid, hi);
    }
  }

  lemma ModStep(n: nat, m: nat)
    requires m > 0
    ensures (n + 1) % m == 0 || (n + 1) % m == n % m + 1
  {
    var k := (n + 1) / m - n / m;
    assert m * k == m * ((n + 1) / m) - m * (n / m);
    assert m * k == n % m + 1 - (n + 1) % m;
    MulSmall(m, k);
  }

  lemma MulSmall(m: int, k: int)
    requires m > 0 && -m < m * k <= m
    ensures k == 0 || k == 1
  {
    if k < 0 {
      MulMonotone(m, k, -1);
    } else if k > 1 {
      MulMonotone(m, 2, k);
    }
  }

  lemma {:induction false} MulMonotone(m: int, a: int, b: int)
    requires m >= 0 && a <= b
    ensures m * a <= m * b
    decreases m
  {
    if m > 0 {
      MulMonotone(m - 1, a, b);
      assert m * a == (m - 1) * a + a && m * b == (m - 1) * b + b;
    }
  }

  /** The low watermark is usable whenever there is a high watermark. The design
      asks for less than the high watermark, which holds except for 1. */
  lemma LwmInRange(hwm: nat)
    ensures hwm == 0 <==> ComputeLwm(hwm) == 0
    ensures ComputeLwm(hwm) <= hwm
    ensures ComputeLwm(hwm) < hwm <==> hwm > 1
    ensures hwm - ComputeLwm(hwm) <= MAX_WM_DELTA
    ensures hwm <= 2048 ==> hwm <= 2 * ComputeLwm(hwm) <= hwm + 1
    ensures hwm > 2048 ==> hwm - ComputeLwm(hwm) == 1024
  {
  }

  // ---- Steps seen from one direction ----

  /** The reader's side moves in a way this direction does not care about. */
  lemma ReaderAside(d: Way, d': Way, sent: seq<Command>)
    requires Flows(d) && d'.w == d.w && d'.p == d.p
    requires d'.r.lwm == d.r.lwm && d'.r.msgsRead == d.r.msgsRead
    requires Readable(d'.r) ==> Readable(d.r) && d'.r.inActive == d.r.inActive && Wakes(d'.toR) == Wakes(d.toR)
    requires d'.r.state == Delimited ==> d.r.state == Delimited
    requires d'.toW == d.toW + sent && (sent == [] || (|sent| == 1 && !sent[0].ActivateWrite?))
    ensures Flows(d')
  {
    if sent == [] {
      assert d'.toW == d.toW;
    } else {
      assert sent == [sent[0]];
      MailAppend(d.toW, sent[0], d.w.peersMsgsRead, d.r.msgsRead, d.r.msgsRead);
    }
  }

  /** The writer's side moves in a way this direction does not care about. */
  lemma WriterAside(d: Way, d': Way)
    requires Flows(d) && Roles(d') && d'.r == d.r
    requires d'.w.hwm == d.w.hwm && d'.w.msgsWritten == d.w.msgsWritten && d'.w.peersMsgsRead == d.w.peersMsgsRead
    requires d'.w.outpipe.Some? ==> d.w.outpipe.Some? && d'.p == d.p && d'.w.todo == d.w.todo
    requires d'.w.outpipe.None? ==> d'.w.todo == Nothing
    requires d'.w.state == Active ==> d.w.state == Active && d'.w.outActive == d.w.outActive
    requires d'.w.todo == MustDelimit ==> d'.w.state == d.w.state
    requires SentTerm(d'.w) == SentTerm(d.w) || GotTerm(d'.w)
    requires d'.toW == d.toW || (d.toW != [] && !d.toW[0].ActivateWrite? && d'.toW == d.toW[1..])
    requires Wakes(d'.toR) == Wakes(d.toR)
    ensures Flows(d')
  {
  }

  lemma WriterWrites(d: Way, m: Msg)
    requires Flows(d) && d.w.outpipe.Some? && OnlyParts(d.p.partial) && m.Msg? && CheckWrite(d.w).1
    ensures var (e, p, _) := WriteMsg(d.w, d.p, m); Flows(d.(w := e, p := p))
  {
    if !m.more {
      PartsAreNoMsgs(d.p.partial);
      MsgsConcat(d.p.ready, d.p.partial);
      MsgsConcat(d.p.ready + d.p.partial, [m]);
    }
  }

  lemma WriterRefused(d: Way)
    requires Flows(d)
    ensures Flows(d.(w := CheckWrite(d.w).0))
  {
  }

  lemma WriterPublishes(d: Way)
    requires Flows(d) && d.w.outpipe.Some? && d.w.todo == Nothing && !SentTerm(d.w)
    ensures var (e, p) := Publish(d.w, d.p); Flows(d.(w := e, p := p))
  {
    MsgsConcat(d.p.flushed, d.p.ready);
    MsgsConcat(d.p.flushed + d.p.ready, []);
  }

  /** The delimiter goes behind everything complete, past the watermark. */
  lemma WriterDelimits(d: Way)
    requires Flows(d) && Roles(d) && d.w.outpipe.Some? && d.w.todo == MustDelimit && OnlyParts(d.p.partial)
    ensures PushDelimiter(d.w, d.p).Some?
    ensures var (e, p) := PushDelimiter(d.w, d.p).value; Flows(d.(w := e, p := p))
  {
    RollbackDropsPartial(d.p);
    var items := d.p.ready + [Delimiter];
    assert d.p.ready + [] + [Delimiter] == items;
    MsgsConcat(d.p.ready, [Delimiter]);
    MsgsConcat(d.p.flushed, items);
    assert (d.p.flushed + items)[|d.p.flushed + items| - 1] == Delimiter;
  }

  lemma WriterWakes(d: Way)
    requires Flows(d) && d.w.todo == MustWake
    ensures Flows(d.(w := d.w.(todo := Nothing), toR := d.toR + [ActivateRead]))
  {
    WakesAppend(d.toR, ActivateRead);
  }

  lemma WriterTerminates(d: Way, e: End)
    requires Flows(d) && (d.w.state == Active || d.w.state == Delimited) && d.w.outpipe.Some? && d.w.todo == Nothing
    requires e == d.w.(state := Terminated, outActive := false, todo := MustDelimit, delay := e.delay)
    ensures Flows(d.(w := e, toR := d.toR + [PipeTerm]))
  {
    WakesAppend(d.toR, PipeTerm);
  }

  lemma WriterLearns(d: Way)
    requires Flows(d) && d.toW != [] && d.toW[0].ActivateWrite?
    ensures Flows(d.(w := ProcessActivateWrite(d.w, d.toW[0].msgsRead), toW := d.toW[1..]))
  {
    NotesBounds(d.toW[1..], d.toW[0].msgsRead, d.r.msgsRead);
  }

  lemma ReaderReads(d: Way, check: bool)
    requires Flows(d) && Roles(d) && d.r.CanRead()
    ensures var r := ReadMsg(d.r, d.p, check);
      r.effect.Done? && Flows(d.(r := r.effect.end, toW := d.toW + r.effect.sent, p := r.inp))
  {
    if d.p.flushed == [] {
      assert d.toW + [] == d.toW;
    } else if d.p.flushed[0] == Delimiter {
      if d.r.state == Active {
        assert d.toW + [] == d.toW;
      } else {
        MailAppend(d.toW, PipeTermAck, d.w.peersMsgsRead, d.r.msgsRead, d.r.msgsRead);
      }
      ClosedByDelimiter(d);
    } else if check {
      assert d.toW + [] == d.toW;
    } else {
      ReaderTakes(d);
    }
  }

  lemma ClosedByDelimiter(d: Way)
    requires Flows(d) && Roles(d) && d.r.CanRead() && d.p.flushed != [] && d.p.flushed[0] == Delimiter
    ensures SentTerm(d.w) && Msgs(d.p.flushed) == Msgs(d.p.flushed[1..])
  {
  }

  lemma ReaderTakes(d: Way)
    requires Flows(d) && Roles(d) && d.r.CanRead() && d.p.flushed != [] && d.p.flushed[0].Msg?
    ensures var r := ReadMsg(d.r, d.p, false);
      r.effect.Done? && Flows(d.(r := r.effect.end, toW := d.toW + r.effect.sent, p := r.inp))
  {
    var r := ReadMsg(d.r, d.p, false);
    var n := r.effect.end.msgsRead;
    NotesBounds(d.toW, d.w.peersMsgsRead, d.r.msgsRead);
    if r.effect.sent == [] {
      assert d.toW + [] == d.toW;
      NotesWiden(d.toW, d.w.peersMsgsRead, d.r.msgsRead, n);
      if d.r.lwm > 0 {
        ModStep(d.r.msgsRead, d.r.lwm);
      }
    } else {
      MailAppend(d.toW, ActivateWrite(n), d.w.peersMsgsRead, d.r.msgsRead, n);
    }
    var rest := d.p.flushed[1..];
    assert rest != [] ==> rest[|rest| - 1] == d.p.flushed[|d.p.flushed| - 1];
  }

  lemma ReaderWoken(d: Way)
    requires Flows(d) && d.toR != [] && d.toR[0] == ActivateRead
    ensures Flows(d.(r := ProcessActivateRead(d.r), toR := d.toR[1..]))
  {
  }

  // ---- Steps of the pair ----

  predicate NoHiccups(s: Pair) {
    HiccupIds(s.toMe) == [] && HiccupIds(s.toPeer) == []
  }

  /** Without hiccups the two ends share one queue in each direction. */
  ghost predicate Linked(s: Pair) {
    && NoHiccups(s) && Roles(Out(s)) && Roles(In(s))
    && (s.me.alive ==> InOk(s))
    && (s.me.outpipe.Some? ==> OutOk(s) && s.me.outpipe.value == s.peer.inpipe && OnlyParts(Out(s).p.partial))
    && (s.peer.outpipe.Some? ==> s.peer.outpipe.value == s.me.inpipe)
    && (s.me.outpipe.Some? ==> s.me.outpipe.value != s.me.inpipe)
    && (s.me.todo != Nothing ==> s.me.outpipe.Some?)
    && (s.me.outpipe.None? <==> s.me.state == Terminating || s.me.state == DoubleTerminated || !s.me.alive)
  }

  ghost predicate FlowsBoth(s: Pair) {
    Flows(Out(s)) && Flows(In(s))
  }

  ghost predicate FlowInv(s: Pair) {
    Inv(s) && NoHiccups(s) && FlowsBoth(s)
  }

  lemma InvLinked(s: Pair)
    requires Inv(s) && NoHiccups(s)
    ensures Linked(s)
  {
    HeldQueuesLive(s);
    InvFlip(s);
    HeldQueuesLive(Flip(s));
    if s.me.outpipe.Some? {
      assert s.me.inpipe in Inbound(s) && s.me.outpipe.value in Inbound(Flip(s));
      DistinctInbound(Inbound(s), Inbound(Flip(s)), s.heap.Keys, s.me.inpipe, s.me.outpipe.value);
    }
  }

  lemma DistinctInbound(a: seq<PipeId>, b: seq<PipeId>, keys: set<PipeId>, x: PipeId, y: PipeId)
    requires multiset(a) + multiset(b) == multiset(keys) && x in a && y in b
    ensures x != y
  {
    assert multiset(a)[x] >= 1 && multiset(b)[y] >= 1;
    assert (multiset(a) + multiset(b))[x] <= 1;
  }

  lemma ReadFlows(s: Pair, check: bool)
    requires Linked(s) && FlowsBoth(s) && s.me.alive && s.me.todo == Nothing
    requires ReadStep(s, check).Some? && Roles(Out(ReadStep(s, check).value))
    ensures NoHiccups(ReadStep(s, check).value) && FlowsBoth(ReadStep(s, check).value)
  {
    if s.me.CanRead() {
      var d, t := In(s), ReadStep(s, check).value;
      var r := ReadMsg(d.r, d.p, check);
      assert In(t) == d.(r := r.effect.end, toW := d.toW + r.effect.sent, p := r.inp);
      hide Flows;
      ReaderReads(d, check);
      ReadWriter(s, check);
    }
  }

  /** What reading does to the end that reads. */
  lemma ReadLeaves(e: End, p: Pipe, check: bool)
    requires e.CanRead()
    ensures var r := ReadMsg(e, p, check).effect;
      && r.Done? && (r.sent == [] || (|r.sent| == 1 && (r.sent[0].ActivateWrite? || r.sent[0] == PipeTermAck)))
      && (r.end == e.(inActive := r.end.inActive, msgsRead := r.end.msgsRead)
          || (e.state == Active && r.end == e.(state := Delimited))
          || (e.state == Pending && r.end == e.(state := Terminating, outpipe := None)))
  {
  }

  lemma ReadWriter(s: Pair, check: bool)
    requires Linked(s) && Flows(Out(s)) && s.me.alive && s.me.todo == Nothing && s.me.CanRead()
    requires ReadStep(s, check).Some? && Roles(Out(ReadStep(s, check).value))
    ensures NoHiccups(ReadStep(s, check).value) && Flows(Out(ReadStep(s, check).value))
  {
    ReadLeaves(s.me, s.heap[s.me.inpipe], check);
    hide Flows, ReadMsg;
    SentKeeps(s.toPeer, ReadMsg(s.me, s.heap[s.me.inpipe], check).effect.sent);
    WriterAside(Out(s), Out(ReadStep(s, check).value));
  }

  lemma SentKeeps(q: seq<Command>, sent: seq<Command>)
    requires sent == [] || (|sent| == 1 && !sent[0].ActivateRead? && !sent[0].Hiccup?)
    ensures Wakes(q + sent) == Wakes(q) && HiccupIds(q + sent) == HiccupIds(q)
  {
    if sent == [] {
      assert q + sent == q;
    } else {
      assert sent == [sent[0]];
      WakesAppend(q, sent[0]);
      Append(q, sent[0]);
    }
  }

  /** The other direction sees nothing of a step that only writes. */
  lemma InUntouched(s: Pair, t: Pair)
    requires Flows(In(s)) && t == s.(me := t.me, heap := t.heap)
    requires t.me.lwm == s.me.lwm && t.me.msgsRead == s.me.msgsRead && t.me.inActive == s.me.inActive
    requires t.me.state == s.me.state
    requires In(t).p == In(s).p
    ensures Flows(In(t))
  {
    assert In(t).toW == In(s).toW + [];
    ReaderAside(In(s), In(t), []);
  }

  lemma WriteFlows(s: Pair, m: Msg)
    requires Linked(s) && FlowsBoth(s) && m.Msg? && WriteStep(s, m).Some?
    ensures NoHiccups(WriteStep(s, m).value) && FlowsBoth(WriteStep(s, m).value)
  {
    var d, t := Out(s), WriteStep(s, m).value;
    hide Flows;
    InUntouched(s, t);
    if CheckWrite(d.w).1 {
      WriterWrites(d, m);
      assert Out(t) == d.(w := t.me, p := Out(t).p);
    } else {
      WriterRefused(d);
      assert Out(t) == d.(w := t.me);
    }
  }

  lemma CheckWriteFlows(s: Pair)
    requires Linked(s) && FlowsBoth(s)
    ensures NoHiccups(CheckWriteStep(s).value) && FlowsBoth(CheckWriteStep(s).value)
  {
    var d, t := Out(s), CheckWriteStep(s).value;
    InUntouched(s, t);
    WriterRefused(d);
    assert Out(t) == d.(w := t.me);
  }

  lemma RollbackFlows(s: Pair)
    requires Linked(s) && FlowsBoth(s) && RollbackStep(s).Some?
    ensures NoHiccups(RollbackStep(s).value) && FlowsBoth(RollbackStep(s).value)
  {
    if s.me.outpipe.Some? {
      var d, t := Out(s), RollbackStep(s).value;
      RollbackDropsPartial(d.p);
      InUntouched(s, t);
      assert Out(t) == d.(p := d.p.(partial := []));
    }
  }

  lemma FlushFlows(s: Pair)
    requires Linked(s) && FlowsBoth(s) && s.me.todo == Nothing && FlushStep(s).Some?
    ensures NoHiccups(FlushStep(s).value) && FlowsBoth(FlushStep(s).value)
  {
    if s.me.outpipe.Some? {
      var d, t := Out(s), FlushStep(s).value;
      hide Flows;
      InUntouched(s, t);
      if d.w.state == Terminated {
        assert Out(t) == d;
      } else {
        WriterPublishes(d);
        assert Out(t) == d.(w := t.me, p := Out(t).p);
      }
    }
  }

  lemma TerminateFlows(s: Pair, delay: bool)
    requires Linked(s) && FlowsBoth(s) && s.me.alive && s.me.todo == Nothing
    requires TerminateStep(s, delay).Some? && Roles(Out(TerminateStep(s, delay).value))
    ensures NoHiccups(TerminateStep(s, delay).value) && FlowsBoth(TerminateStep(s, delay).value)
  {
    var t := TerminateStep(s, delay).value;
    var sent := Terminate(s.me, delay).sent;
    hide Flows;
    SentKeeps(s.toPeer, sent);
    TerminatedReader(s, delay);
    if s.me.state == Active || s.me.state == Delimited {
      WriterTerminates(Out(s), t.me);
    } else if s.me.state == Pending && delay {
      PendingDelimits(Out(s), t.me);
    } else {
      assert sent == [] || sent == [PipeTermAck];
      TerminatedAside(s, delay);
    }
  }

  lemma TerminatedReader(s: Pair, delay: bool)
    requires Flows(In(s)) && TerminateStep(s, delay).Some?
    ensures Flows(In(TerminateStep(s, delay).value))
  {
    hide Flows;
    var t := TerminateStep(s, delay).value;
    assert In(t).p == In(s).p;
    ReaderAside(In(s), In(t), Terminate(s.me, delay).sent);
  }

  lemma TerminatedAside(s: Pair, delay: bool)
    requires Linked(s) && Flows(Out(s)) && s.me.alive && s.me.todo == Nothing
    requires s.me.state != Active && s.me.state != Delimited && !(s.me.state == Pending && delay)
    requires TerminateStep(s, delay).Some? && Roles(Out(TerminateStep(s, delay).value))
    ensures Flows(Out(TerminateStep(s, delay).value))
  {
    SentKeeps(s.toPeer, Terminate(s.me, delay).sent);
    hide Flows;
    WriterAside(Out(s), Out(TerminateStep(s, delay).value));
  }

  lemma PendingDelimits(d: Way, e: End)
    requires Flows(d) && Roles(d) && d.w.state == Pending
    requires e == d.w.(outActive := false, delay := true, todo := e.todo) && e.todo != MustWake && d.w.todo == Nothing
    ensures Flows(d.(w := e))
  {
  }

  lemma ContinueFlows(s: Pair)
    requires Linked(s) && FlowsBoth(s) && s.me.alive && s.me.todo != Nothing && ContinueStep(s).Some?
    ensures NoHiccups(ContinueStep(s).value) && FlowsBoth(ContinueStep(s).value)
  {
    var d, t := Out(s), ContinueStep(s).value;
    hide Flows;
    if s.me.todo == MustWake {
      WriterWakes(d);
      Append(s.toPeer, ActivateRead);
      ReaderAside(In(s), In(t), [ActivateRead]);
    } else {
      WriterDelimits(d);
      assert In(t).toW == In(s).toW + [];
      ReaderAside(In(s), In(t), []);
    }
  }

  lemma DeliverFlows(s: Pair)
    requires Linked(s) && FlowsBoth(s) && s.me.alive && s.me.todo == Nothing && s.toMe != []
    requires DeliverStep(s).Some? && Roles(Out(DeliverStep(s).value))
    requires s.toMe[0] == PipeTermAck ==> s.peer.outpipe.None?
    ensures NoHiccups(DeliverStep(s).value) && FlowsBoth(DeliverStep(s).value)
  {
    var t := DeliverStep(s).value;
    hide Flows;
    if s.toMe[0] == ActivateRead {
      ReaderWoken(In(s));
      assert In(t) == In(s).(r := t.me, toR := t.toMe);
      WriterAside(Out(s), Out(t));
    } else if s.toMe[0].ActivateWrite? {
      WriterLearns(Out(s));
      assert Out(t) == Out(s).(w := t.me, toW := t.toMe);
      assert In(t).toW == In(s).toW + [];
      ReaderAside(In(s), In(t), []);
    } else {
      DeliverTermFlows(s);
    }
  }

  function Answer(s: Pair): seq<Command>
    requires s.toMe != []
  {
    var e := if s.toMe[0] == PipeTerm then ProcessPipeTerm(s.me) else ProcessPipeTermAck(s.me);
    if e.Done? then e.sent else []
  }

  lemma DeliverTermFlows(s: Pair)
    requires Linked(s) && FlowsBoth(s) && s.me.alive && s.me.todo == Nothing && s.toMe != []
    requires s.toMe[0] == PipeTerm || s.toMe[0] == PipeTermAck
    requires DeliverStep(s).Some? && Roles(Out(DeliverStep(s).value))
    requires s.toMe[0] == PipeTermAck ==> s.peer.outpipe.None?
    ensures NoHiccups(DeliverStep(s).value) && FlowsBoth(DeliverStep(s).value)
  {
    SentKeeps(s.toPeer, Answer(s));
    hide Flows;
    DeliverTermReader(s);
    DeliverTermWriter(s);
  }

  lemma DeliverTermReader(s: Pair)
    requires Flows(In(s)) && s.toMe != [] && (s.toMe[0] == PipeTerm || s.toMe[0] == PipeTermAck) && DeliverStep(s).Some?
    requires s.toMe[0] == PipeTermAck ==> s.peer.outpipe.None?
    ensures Flows(In(DeliverStep(s).value))
  {
    var t := DeliverStep(s).value;
    assert In(t).p == In(s).p;
    hide Flows;
    ReaderAside(In(s), In(t), Answer(s));
  }

  lemma DeliverTermWriter(s: Pair)
    requires Linked(s) && Flows(Out(s)) && s.me.alive && s.me.todo == Nothing
    requires s.toMe != [] && (s.toMe[0] == PipeTerm || s.toMe[0] == PipeTermAck)
    requires DeliverStep(s).Some? && Roles(Out(DeliverStep(s).value))
    ensures Flows(Out(DeliverStep(s).value))
  {
    SentKeeps(s.toPeer, Answer(s));
    hide Flows;
    WriterAside(Out(s), Out(DeliverStep(s).value));
  }
}
