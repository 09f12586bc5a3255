/** Runs with hiccups: when termination gets stuck, for how long, and what gets it going
    again. */
module PipeHiccup {
  import opened Options
  import opened UPipe
  import opened PipeEnd
  import opened PipePair
  import opened PipeHandshake
  import opened PipeFlow
  import opened PipeProgress

  // ---- What hiccups leave of the invariant ----

  predicate Empty(p: Pipe) {
    p.flushed == [] && p.ready == [] && p.partial == []
  }

  /** Replacement queues the writer has not heard of hold nothing. */
  ghost predicate Unused(heap: map<PipeId, Pipe>, ids: seq<PipeId>) {
    forall id :: id in ids ==> id in heap && Empty(heap[id])
  }

  /** `me` as writer. If it processed a hiccup after it had terminated (`lost`), its queue
      is empty for good; if not, the delimiter it has written is still to be read. */
  predicate Delimiting(s: Pair, lost: bool) {
    && (s.me.todo == MustDelimit ==> s.me.state == Terminated || s.me.state == Pending)
    && (lost ==> SentTerm(s.me) && s.me.todo == Nothing && (OutOk(s) ==> Empty(s.heap[s.me.outpipe.value])))
    && (!lost && s.me.state == Terminated && s.me.todo != MustDelimit && Readable(s.peer) && OutOk(s) ==>
          EndsDelimited(s.heap[s.me.outpipe.value]))
  }

  /** The peer as reader: asleep only on an empty queue, and inactive only if asleep or with
      a wake-up coming. */
  predicate Wakeable(s: Pair) {
    Readable(s.peer) && s.peer.inpipe in s.heap ==>
      var q := s.heap[s.peer.inpipe];
      && (q.asleep ==> q.flushed == [])
      && (!s.peer.inActive && !q.asleep ==> Wakes(s.toPeer) + Bit(s.me.todo == MustWake) >= 1)
  }

  ghost predicate Loose(s: Pair, lost: bool) {
    Unused(s.heap, HiccupIds(s.toMe)) && Delimiting(s, lost) && Wakeable(s)
  }

  ghost predicate HiccupInv(s: Pair, mine: bool, peers: bool) {
    Inv(s) && Loose(s, mine) && Loose(Flip(s), peers)
  }

  // ---- Which queue is which ----

  /** What ownership says about the queues of the two directions. */
  ghost predicate Placed(s: Pair) {
    && (s.me.alive ==> InOk(s)) && (s.me.outpipe.Some? ==> OutOk(s) && s.peer.alive)
    && (s.me.outpipe.Some? ==> s.me.outpipe.value != s.me.inpipe && s.peer.outpipe != s.me.outpipe)
    && (s.me.outpipe.Some? ==> s.me.outpipe.value !in HiccupIds(s.toMe) && s.me.outpipe.value !in HiccupIds(s.toPeer))
    && (s.me.outpipe.Some? ==> s.peer.inpipe == Last([s.me.outpipe.value] + HiccupIds(s.toMe)))
    && (s.me.alive ==> s.me.inpipe !in HiccupIds(s.toMe))
    && (s.me.outpipe.None? ==> HiccupIds(s.toMe) == []) && (Readable(s.peer) ==> s.me.outpipe.Some?)
    && (s.me.alive ==> s.me.inpipe < s.next) && (forall id :: id in s.heap ==> id < s.next)
  }

  /** The inbound queues of the two ends are all different. */
  ghost predicate Different(a: seq<PipeId>, b: seq<PipeId>) {
    && (forall x :: x in a ==> x !in b)
    && (a != [] ==> a[0] !in a[1..]) && (b != [] ==> b[0] !in b[1..])
  }

  lemma AllDifferent(s: Pair)
    requires Owned(s)
    ensures Different(Inbound(s), Inbound(Flip(s)))
  {
    var a, b := Inbound(s), Inbound(Flip(s));
    hide Inbound;
    forall x | x in a ensures x !in b {
      if x in b { DistinctInbound(a, b, s.heap.Keys, x, x); }
    }
    NoRepeats(a, b, s.heap.Keys);
    NoRepeats(b, a, s.heap.Keys);
  }

  lemma PlacedAll(s: Pair)
    requires Inv(s)
    ensures Placed(s)
  {
    HeldQueuesLive(s);
    AllDifferent(s);
    RolesOf(s);
    hide Owned;
    var a, b := Inbound(s), Inbound(Flip(s));
    InboundPlaces(s);
    assert s.heap == Flip(s).heap;
    BelowNext(s);
    if s.me.outpipe.Some? {
      assert b[1..] == HiccupIds(s.toMe);
      assert s.me.outpipe.value in b && s.me.outpipe.value !in a;
    }
  }

  lemma BelowNext(s: Pair)
    requires Owned(s)
    ensures forall id :: id in s.heap ==> id < s.next
  {
  }

  lemma InboundPlaces(s: Pair)
    requires Shakes(s)
    ensures var a, b := Inbound(s), Inbound(Flip(s));
      && (s.me.alive ==> s.me.inpipe in a)
      && (s.peer.outpipe.Some? ==> a != [] && a[0] == s.peer.outpipe.value && forall id :: id in HiccupIds(s.toPeer) ==> id in a)
      && (s.me.outpipe.Some? ==> s.me.alive && s.peer.alive && b == [s.me.outpipe.value] + HiccupIds(s.toMe) && Last(b) == s.peer.inpipe)
      && (s.me.outpipe.None? ==> HiccupIds(s.toMe) == [])
      && (s.peer.outpipe.None? ==> HiccupIds(s.toPeer) == [])
  {
  }

  lemma NoRepeats(a: seq<PipeId>, b: seq<PipeId>, keys: set<PipeId>)
    requires multiset(a) + multiset(b) == multiset(keys)
    ensures a != [] ==> a[0] !in a[1..]
  {
    if a != [] {
      assert a == [a[0]] + a[1..];
      assert multiset(a) == multiset{a[0]} + multiset(a[1..]);
      assert (multiset(a) + multiset(b))[a[0]] <= 1;
    }
  }

  // ---- Steps ----

  /** At most the contents of queue `id` changed. */
  ghost predicate OnlyAt(heap: map<PipeId, Pipe>, heap': map<PipeId, Pipe>, id: Option<PipeId>) {
    heap' == heap || (id.Some? && id.value in heap && id.value in heap' && heap' == heap[id.value := heap'[id.value]])
  }

  /** A step of `me` that is no reading: the other direction does not notice. */
  lemma ReaderAlike(s: Pair, t: Pair, peers: bool)
    requires Placed(s) && Loose(Flip(s), peers) && s.me.alive && t.peer == s.peer && OnlyAt(s.heap, t.heap, s.me.outpipe)
    requires HiccupIds(t.toPeer) == HiccupIds(s.toPeer) && Wakes(t.toMe) == Wakes(s.toMe) && t.me.inpipe == s.me.inpipe
    requires Readable(t.me) ==> Readable(s.me) && t.me.inActive == s.me.inActive
    ensures Loose(Flip(t), peers)
  {
  }

  /** A step of `me` that leaves what it has written alone. */
  lemma WriterAlike(s: Pair, t: Pair, lost: bool)
    requires Placed(s) && Loose(s, lost) && t.peer == s.peer && OnlyAt(s.heap, t.heap, if s.me.alive then Some(s.me.inpipe) else None)
    requires HiccupIds(t.toMe) == HiccupIds(s.toMe) && Wakes(t.toPeer) == Wakes(s.toPeer)
    requires t.me.outpipe == s.me.outpipe || t.me.outpipe.None?
    requires t.me.todo == s.me.todo || (t.me.todo == MustDelimit && s.me.todo == Nothing)
    requires t.me.todo == MustDelimit ==> t.me.state == Terminated || t.me.state == Pending
    requires SentTerm(s.me) ==> SentTerm(t.me) && t.me.todo == s.me.todo
    requires t.me.state == Terminated && t.me.todo != MustDelimit ==> s.me.state == Terminated
    ensures Loose(t, lost)
  {
  }

  /** Both directions at once. */
  ghost predicate LooseBoth(s: Pair, mine: bool, peers: bool) {
    Loose(s, mine) && Loose(Flip(s), peers)
  }

  lemma CheckWriteLoose(s: Pair, mine: bool, peers: bool)
    requires Placed(s) && LooseBoth(s, mine, peers) && s.me.alive && s.me.todo == Nothing
    ensures LooseBoth(CheckWriteStep(s).value, mine, peers)
  {
    hide Loose, Placed;
    ReaderAlike(s, CheckWriteStep(s).value, peers);
    WriterAlike(s, CheckWriteStep(s).value, mine);
  }

  /** What a change of `me` alone must leave for both directions to stay loose. */
  predicate Alike(e: End, f: End) {
    && f.inpipe == e.inpipe && (Readable(f) ==> Readable(e) && f.inActive == e.inActive)
    && (f.outpipe == e.outpipe || f.outpipe.None?)
    && (f.todo == e.todo || (f.todo == MustDelimit && e.todo == Nothing))
    && (f.todo == MustDelimit ==> f.state == Terminated || f.state == Pending)
    && (SentTerm(e) ==> SentTerm(f) && f.todo == e.todo)
    && (f.state == Terminated && f.todo != MustDelimit ==> e.state == Terminated)
  }

  lemma AlikeLoose(s: Pair, t: Pair, mine: bool, peers: bool)
    requires Placed(s) && LooseBoth(s, mine, peers) && s.me.alive && Alike(s.me, t.me)
    requires t.peer == s.peer && t.heap == s.heap
    requires HiccupIds(t.toPeer) == HiccupIds(s.toPeer) && Wakes(t.toPeer) == Wakes(s.toPeer)
    requires HiccupIds(t.toMe) == HiccupIds(s.toMe) && Wakes(t.toMe) == Wakes(s.toMe)
    ensures LooseBoth(t, mine, peers)
  {
    hide Loose, Placed;
    ReaderAlike(s, t, peers);
    WriterAlike(s, t, mine);
  }

  lemma TerminateAlike(e: End, delay: bool)
    requires e.todo == Nothing && (e.outpipe.Some? || e.state == Terminating || SentTerm(e))
    ensures var f := Terminate(e, delay); f.Done? ==> Alike(e, f.end) && (f.sent == [] || f.sent == [PipeTerm] || f.sent == [PipeTermAck])
  {
  }

  lemma TerminateLoose(s: Pair, mine: bool, peers: bool, delay: bool)
    requires Placed(s) && LooseBoth(s, mine, peers) && s.me.alive && s.me.todo == Nothing && TerminateStep(s, delay).Some?
    requires s.me.outpipe.Some? || s.me.state == Terminating || SentTerm(s.me)
    ensures LooseBoth(TerminateStep(s, delay).value, mine, peers)
  {
    TerminateAlike(s.me, delay);
    hide Loose, LooseBoth, Placed, Terminate, Alike;
    SentKeeps(s.toPeer, Terminate(s.me, delay).sent);
    AlikeLoose(s, TerminateStep(s, delay).value, mine, peers);
  }

  lemma PlainAlike(e: End, n: nat)
    requires e.todo == Nothing
    ensures Alike(e, ProcessActivateWrite(e, n))
    ensures var f := ProcessPipeTerm(e); f.Done? ==> Alike(e, f.end) && (f.sent == [] || f.sent == [PipeTermAck])
  {
  }

  /** A command that concerns neither queue. */
  lemma DeliverPlainLoose(s: Pair, mine: bool, peers: bool)
    requires Placed(s) && LooseBoth(s, mine, peers) && s.me.alive && s.me.todo == Nothing && s.toMe != []
    requires (s.toMe[0].ActivateWrite? || s.toMe[0] == PipeTerm) && DeliverStep(s).Some?
    ensures LooseBoth(DeliverStep(s).value, mine, peers)
  {
    hide Loose, LooseBoth, Placed, ProcessPipeTerm, ProcessActivateWrite, Alike;
    PlainAlike(s.me, if s.toMe[0].ActivateWrite? then s.toMe[0].msgsRead else 0);
    if s.toMe[0] == PipeTerm { SentKeeps(s.toPeer, ProcessPipeTerm(s.me).sent); }
    AlikeLoose(s, DeliverStep(s).value, mine, peers);
  }

  lemma DeliverWakeLoose(s: Pair, mine: bool, peers: bool)
    requires Placed(s) && LooseBoth(s, mine, peers) && s.me.alive && s.toMe != [] && s.toMe[0] == ActivateRead
    ensures LooseBoth(DeliverStep(s).value, mine, peers)
  {
    var t := DeliverStep(s).value;
    assert Loose(Flip(t), peers);
    hide Loose, Placed;
    WriterAlike(s, t, mine);
  }

  lemma WakeLoose(s: Pair, mine: bool, peers: bool)
    requires Placed(s) && LooseBoth(s, mine, peers) && s.me.alive && s.me.todo == MustWake
    ensures LooseBoth(ContinueStep(s).value, mine, peers)
  {
    var t := ContinueStep(s).value;
    WakesAppend(s.toPeer, ActivateRead);
    Append(s.toPeer, ActivateRead);
    assert Loose(t, mine);
    hide Loose, Placed;
    ReaderAlike(s, t, peers);
  }

  lemma HiccupLoose(s: Pair, mine: bool, peers: bool)
    requires Placed(s) && Placed(Flip(s)) && LooseBoth(s, mine, peers) && s.me.alive && s.me.state == Active
    ensures LooseBoth(HiccupStep(s).value, mine, peers)
  {
    var t := HiccupStep(s).value;
    Append(s.toPeer, Hiccup(s.next));
    WakesAppend(s.toPeer, Hiccup(s.next));
    assert Loose(t, mine);
    assert Loose(Flip(t), peers);
  }

  /** `me` writes to its queue: reader and unread replacements are as they were, unless
      the reader reads this queue. */
  lemma WriterWrote(s: Pair, t: Pair, lost: bool, p: Pipe)
    requires Placed(s) && Loose(s, lost) && s.me.outpipe.Some? && !SentTerm(s.me) && t.heap == s.heap[s.me.outpipe.value := p]
    requires t == s.(me := t.me, heap := t.heap) && t.me.outpipe == s.me.outpipe && t.me.state == s.me.state && s.me.todo == Nothing
    requires var q := s.heap[s.me.outpipe.value];
      || (p.flushed == q.flushed && p.asleep == q.asleep && t.me.todo == Nothing)
      || (!p.asleep && t.me.todo == if q.asleep then MustWake else Nothing)
    ensures Loose(t, lost)
  {
  }

  lemma WriteLoose(s: Pair, mine: bool, peers: bool, m: Msg)
    requires Placed(s) && LooseBoth(s, mine, peers) && s.me.alive && s.me.todo == Nothing && m.Msg? && WriteStep(s, m).Some?
    ensures LooseBoth(WriteStep(s, m).value, mine, peers)
  {
    hide Loose, Placed;
    var t := WriteStep(s, m).value;
    if CheckWrite(s.me).1 {
      WriterWrote(s, t, mine, t.heap[s.me.outpipe.value]);
      ReaderAlike(s, t, peers);
    } else {
      CheckWriteLoose(s, mine, peers);
    }
  }

  lemma FlushLoose(s: Pair, mine: bool, peers: bool)
    requires Placed(s) && LooseBoth(s, mine, peers) && s.me.alive && s.me.todo == Nothing && FlushStep(s).Some?
    requires s.me.outpipe.Some? && OutOk(s) && OnlyParts(s.heap[s.me.outpipe.value].partial)
    ensures LooseBoth(FlushStep(s).value, mine, peers)
  {
    hide Loose, Placed;
    var t := FlushStep(s).value;
    if s.me.state == Terminated || s.me.state == DoubleTerminated || s.me.state == Terminating {
      assert t == s;
    } else {
      WriterWrote(s, t, mine, t.heap[s.me.outpipe.value]);
      ReaderAlike(s, t, peers);
    }
  }

  /** Rolling back changes nothing that a terminated end has delimited, or lost. */
  lemma RollbackLoose(s: Pair, mine: bool, peers: bool)
    requires Placed(s) && LooseBoth(s, mine, peers) && s.me.alive && s.me.todo == Nothing && RollbackStep(s).Some?
    requires s.me.outpipe.Some? && OutOk(s) && OnlyParts(s.heap[s.me.outpipe.value].partial)
    ensures LooseBoth(RollbackStep(s).value, mine, peers)
  {
    var t, q := RollbackStep(s).value, s.heap[s.me.outpipe.value];
    RollbackDropsPartial(q);
    assert t == s.(heap := s.heap[s.me.outpipe.value := q.(partial := [])]);
    assert Loose(t, mine);
    hide Loose, Placed;
    ReaderAlike(s, t, peers);
  }

  /** After the delimiter was pushed it lies at the end of the queue, published. */
  lemma DelimitLoose(s: Pair, mine: bool, peers: bool)
    requires Placed(s) && LooseBoth(s, mine, peers) && s.me.alive && s.me.todo == MustDelimit && OutOk(s) && ContinueStep(s).Some?
    requires OnlyParts(s.heap[s.me.outpipe.value].partial)
    ensures LooseBoth(ContinueStep(s).value, mine, peers)
  {
    var t, q := ContinueStep(s).value, s.heap[s.me.outpipe.value];
    RollbackDropsPartial(q);
    var p := t.heap[s.me.outpipe.value];
    var items := q.ready + [Delimiter];
    assert q.ready + [] + [Delimiter] == items;
    assert p == Queue(q.flushed + items, [], [], false);
    assert p.flushed[|p.flushed| - 1] == Delimiter;
    assert Loose(t, mine);
    hide Loose, Placed;
    ReaderAlike(s, t, peers);
  }

  /** What reading does to the queue read: something is taken off its front, or it is
      found empty and put to sleep. */
  lemma ReadQueue(e: End, q: Pipe, check: bool)
    requires e.CanRead()
    ensures var r := ReadMsg(e, q, check); var e' := r.effect.end;
      && r.effect.Done? && r.inp.ready == q.ready && r.inp.partial == q.partial
      && (q.flushed == [] ==> r.inp == q.(asleep := true) && !e'.inActive)
      && (q.flushed != [] ==> r.inp.asleep == q.asleep && e'.inActive)
      && (q.flushed != [] && Readable(e') ==> r.inp.flushed == q.flushed || (q.flushed[0] != Delimiter && r.inp.flushed == q.flushed[1..]))
  {
  }

  lemma ReaderRead(s: Pair, t: Pair, peers: bool, check: bool)
    requires Placed(s) && Placed(Flip(s)) && Loose(Flip(s), peers) && s.me.alive && s.me.CanRead()
    requires ReadStep(s, check) == Some(t) && HiccupIds(t.toPeer) == HiccupIds(s.toPeer)
    ensures Loose(Flip(t), peers)
  {
    var q := s.heap[s.me.inpipe];
    ReadQueue(s.me, q, check);
    var r := ReadMsg(s.me, q, check);
    ReadLeaves(s.me, q, check);
    assert t.heap == s.heap[s.me.inpipe := r.inp] && t.me == r.effect.end;
    hide ReadMsg;
    assert Unused(t.heap, HiccupIds(t.toPeer));
    if EndsDelimited(q) && Readable(t.me) && r.inp.flushed != q.flushed {
      assert r.inp.flushed[|r.inp.flushed| - 1] == q.flushed[|q.flushed| - 1];
    }
    assert Delimiting(Flip(t), peers);
    assert Wakeable(Flip(t));
  }

  lemma ReadLoose(s: Pair, mine: bool, peers: bool, check: bool)
    requires Placed(s) && Placed(Flip(s)) && LooseBoth(s, mine, peers) && s.me.alive && s.me.todo == Nothing && ReadStep(s, check).Some?
    ensures LooseBoth(ReadStep(s, check).value, mine, peers)
  {
    var t := ReadStep(s, check).value;
    if s.me.CanRead() {
      var q := s.heap[s.me.inpipe];
      ReadLeaves(s.me, q, check);
      SentKeeps(s.toPeer, ReadMsg(s.me, q, check).effect.sent);
      hide Loose, Placed, ReadMsg;
      ReaderRead(s, t, peers, check);
      WriterAlike(s, t, mine);
    }
  }

  // ---- Replacement and death ----

  lemma DeliverHiccupLoose(s: Pair, mine: bool, peers: bool)
    requires Placed(s) && Placed(Flip(s)) && LooseBoth(s, mine, peers) && s.me.alive && s.me.todo == Nothing
    requires s.toMe != [] && s.toMe[0].Hiccup? && DeliverStep(s).Some?
    ensures LooseBoth(DeliverStep(s).value, mine || s.me.state == Terminated, peers)
  {
    var t := DeliverStep(s).value;
    assert Unused(t.heap, HiccupIds(t.toMe));
    assert Delimiting(t, mine || s.me.state == Terminated);
    assert Wakeable(t);
    assert Loose(Flip(t), peers);
  }

  lemma AckAlike(e: End)
    requires e.todo == Nothing && (e.state == Terminating || SentTerm(e))
    ensures var f := ProcessPipeTermAck(e); f.Done? ==>
      Alike(e, f.end) && !Readable(f.end) && (f.sent == [] || f.sent == [PipeTermAck])
  {
  }

  /** The peer has nothing to write to any more, so `me` may free its queue. */
  lemma FreedLoose(s: Pair, t: Pair, mine: bool, peers: bool)
    requires Placed(s) && Placed(Flip(s)) && LooseBoth(s, mine, peers) && s.me.alive && Alike(s.me, t.me)
    requires t.peer == s.peer && s.peer.outpipe.None? && t.heap == s.heap - {s.me.inpipe} && !Readable(t.me)
    requires HiccupIds(t.toPeer) == HiccupIds(s.toPeer) && Wakes(t.toPeer) == Wakes(s.toPeer) && HiccupIds(t.toMe) == HiccupIds(s.toMe)
    ensures LooseBoth(t, mine, peers)
  {
    assert Unused(t.heap, HiccupIds(t.toMe));
    assert Delimiting(t, mine);
    assert Wakeable(t);
  }

  lemma DeliverAckLoose(s: Pair, mine: bool, peers: bool)
    requires Placed(s) && Placed(Flip(s)) && LooseBoth(s, mine, peers) && s.me.alive && s.me.todo == Nothing
    requires s.toMe != [] && s.toMe[0] == PipeTermAck && s.toMe[1..] == [] && DeliverStep(s).Some?
    requires s.me.state == Terminating || SentTerm(s.me)
    requires s.peer.outpipe.None?
    ensures LooseBoth(DeliverStep(s).value, mine, peers)
  {
    hide LooseBoth, Placed, ProcessPipeTermAck, Alike;
    AckAlike(s.me);
    SentKeeps(s.toPeer, ProcessPipeTermAck(s.me).sent);
    FreedLoose(s, DeliverStep(s).value, mine, peers);
  }

  // ---- Runs ----

  /** `me` processes a hiccup after it has terminated: its delimiter goes with the queue. */
  predicate Loses(s: Pair, op: Op) {
    op == DeliverOp && s.toMe != [] && s.toMe[0].Hiccup? && s.me.state == Terminated
  }

  lemma DeliverLoose(s: Pair, mine: bool, peers: bool)
    requires Inv(s) && Placed(s) && Placed(Flip(s)) && LooseBoth(s, mine, peers) && Enabled(s, DeliverOp) && DeliverStep(s).Some?
    ensures LooseBoth(DeliverStep(s).value, mine || Loses(s, DeliverOp), peers)
  {
    if s.toMe[0] == PipeTermAck {
      AckExpected(s);
      AckMeansAcked(s);
    }
    hide Inv, Placed, LooseBoth;
    match s.toMe[0] {
      case ActivateRead => DeliverWakeLoose(s, mine, peers);
      case ActivateWrite(_) => DeliverPlainLoose(s, mine, peers);
      case Hiccup(_) => DeliverHiccupLoose(s, mine, peers);
      case PipeTerm => DeliverPlainLoose(s, mine, peers);
      case PipeTermAck => DeliverAckLoose(s, mine, peers);
    }
  }

  lemma MayTerminate(s: Pair)
    requires Inv(s) && s.me.alive
    ensures s.me.outpipe.Some? || s.me.state == Terminating || SentTerm(s.me)
  {
  }

  lemma StepLoose(s: Pair, op: Op, mine: bool, peers: bool)
    requires Inv(s) && Placed(s) && Placed(Flip(s)) && LooseBoth(s, mine, peers) && Enabled(s, op) && Step(s, op).Some?
    ensures LooseBoth(Step(s, op).value, mine || Loses(s, op), peers)
  {
    HeldQueuesLive(s);
    HeldPartsOnly(s);
    MayTerminate(s);
    hide Inv, Placed, LooseBoth;
    match op {
      case CheckReadOp => ReadLoose(s, mine, peers, true);
      case ReadOp => ReadLoose(s, mine, peers, false);
      case CheckWriteOp => CheckWriteLoose(s, mine, peers);
      case WriteOp(body, more) => WriteLoose(s, mine, peers, Msg(body, more));
      case RollbackOp => if s.me.outpipe.Some? { RollbackLoose(s, mine, peers); }
      case FlushOp => if s.me.outpipe.Some? { FlushLoose(s, mine, peers); }
      case TerminateOp(delay) => TerminateLoose(s, mine, peers, delay);
      case HiccupOp => if s.me.state == Active { HiccupLoose(s, mine, peers); }
      case DeliverOp => DeliverLoose(s, mine, peers);
      case ContinueOp => if s.me.todo == MustWake { WakeLoose(s, mine, peers); } else { DelimitLoose(s, mine, peers); }
    }
  }

  lemma StepHiccups(s: Pair, op: Op, mine: bool, peers: bool)
    requires HiccupInv(s, mine, peers) && Enabled(s, op)
    ensures Step(s, op).Some? && HiccupInv(Step(s, op).value, mine || Loses(s, op), peers)
  {
    StepKeeps(s, op);
    PlacedAll(s);
    InvFlip(s);
    PlacedAll(Flip(s));
    hide Inv, Placed, Loose, Step;
    StepLoose(s, op, mine, peers);
  }

  lemma HiccupFlip(s: Pair, mine: bool, peers: bool)
    requires HiccupInv(s, mine, peers)
    ensures HiccupInv(Flip(s), peers, mine) && Flip(Flip(s)) == s
  {
    InvFlip(s);
  }

  /** Whether one side loses its delimiter in a move, and in a run. */
  predicate LosesIn(s: Pair, m: Move, first: bool) {
    var side := if first then s else Flip(s);
    m.first == first && Enabled(side, m.op) && Loses(side, m.op)
  }

  predicate LostBy(s: Pair, moves: seq<Move>, first: bool)
    decreases |moves|
  {
    moves != [] && (LosesIn(s, moves[0], first) ||
      match Next(s, moves[0])
      case None => false
      case Some(t) => LostBy(t, moves[1..], first))
  }

  lemma NextHiccups(s: Pair, m: Move, mine: bool, peers: bool)
    requires HiccupInv(s, mine, peers)
    ensures Next(s, m).Some?
    ensures HiccupInv(Next(s, m).value, mine || LosesIn(s, m, true), peers || LosesIn(s, m, false))
  {
    hide HiccupInv, Step, Loses;
    if m.first {
      if Enabled(s, m.op) { StepHiccups(s, m.op, mine, peers); }
    } else if Enabled(Flip(s), m.op) {
      HiccupFlip(s, mine, peers);
      StepHiccups(Flip(s), m.op, peers, mine);
      HiccupFlip(Step(Flip(s), m.op).value, peers || Loses(Flip(s), m.op), mine);
    }
  }

  lemma {:induction false} RunHiccups(s: Pair, moves: seq<Move>, mine: bool, peers: bool)
    requires HiccupInv(s, mine, peers)
    ensures Run(s, moves).Some?
    ensures HiccupInv(Run(s, moves).value, mine || LostBy(s, moves, true), peers || LostBy(s, moves, false))
    decreases |moves|
  {
    hide HiccupInv, Next, LosesIn;
    if moves != [] {
      NextHiccups(s, moves[0], mine, peers);
      RunHiccups(Next(s, moves[0]).value, moves[1..], mine || LosesIn(s, moves[0], true), peers || LosesIn(s, moves[0], false));
    }
  }

  lemma InitHiccups(hwm0: nat, hwm1: nat, delay0: bool, delay1: bool)
    ensures HiccupInv(Init(hwm0, hwm1, delay0, delay1), false, false)
  {
    InitInv(hwm0, hwm1, delay0, delay1);
  }

  // ---- When termination is stuck ----

  /** At rest after a call to `terminate`, and yet neither gone nor going on. */
  predicate Stuck(s: Pair) {
    Ending(s) && Still(s) && !Gone(s) && !Draining(s) && !Draining(Flip(s))
  }

  lemma RestsStuck(s: Pair, mine: bool, peers: bool)
    requires HiccupInv(s, mine, peers) && Ending(s) && Still(s)
    ensures Stuck(s) <==> (mine && s.peer.state == Pending) || (peers && s.me.state == Pending)
  {
    PlacedAll(s);
    InvFlip(s);
    PlacedAll(Flip(s));
  }

  /** Over every run with any hiccups: at rest, termination is stuck if and only if one
      end is pending and the other has processed a hiccup after it had terminated. */
  lemma StuckIff(hwm0: nat, hwm1: nat, delay0: bool, delay1: bool, moves: seq<Move>)
    ensures var s := Init(hwm0, hwm1, delay0, delay1); var r := Run(s, moves);
      && r.Some?
      && (Ending(r.value) && Still(r.value) ==>
            (Stuck(r.value) <==>
              || (r.value.peer.state == Pending && LostBy(s, moves, true))
              || (r.value.me.state == Pending && LostBy(s, moves, false))))
  {
    hide HiccupInv, Still, Ending, LostBy;
    var s := Init(hwm0, hwm1, delay0, delay1);
    InitHiccups(hwm0, hwm1, delay0, delay1);
    RunHiccups(s, moves, false, false);
    var t := Run(s, moves).value;
    if Ending(t) && Still(t) { RestsStuck(t, LostBy(s, moves, true), LostBy(s, moves, false)); }
  }

  // ---- For how long, and the way out ----

  /** A stuck pair has nothing to deliver and nothing to read. */
  lemma StuckRead(s: Pair, mine: bool, peers: bool)
    requires HiccupInv(s, mine, peers) && Stuck(s) && s.me.alive
    ensures ReadStep(s, false).Some?
    ensures var t := ReadStep(s, false).value; Ending(t) && Still(t) && t.me.state == s.me.state && t.peer == s.peer
  {
    RestsStuck(s, mine, peers);
    PlacedAll(s);
    InvFlip(s);
    PlacedAll(Flip(s));
    if s.me.CanRead() {
      assert Empty(s.heap[s.me.inpipe]);
      assert s.toPeer + [] == s.toPeer;
    }
  }

  lemma StuckStep(s: Pair, m: Move, mine: bool, peers: bool)
    requires HiccupInv(s, mine, peers) && Stuck(s) && Internal(m.op)
    ensures Next(s, m).Some? && HiccupInv(Next(s, m).value, mine, peers) && Stuck(Next(s, m).value)
  {
    hide HiccupInv, ReadStep, Draining;
    NextHiccups(s, m, mine, peers);
    HiccupFlip(s, mine, peers);
    RestsStuck(s, mine, peers);
    var t := Next(s, m).value;
    if m.op == ReadOp && m.first && Enabled(s, ReadOp) {
      StuckRead(s, mine, peers);
      RestsStuck(t, mine, peers);
    } else if m.op == ReadOp && !m.first && Enabled(Flip(s), ReadOp) {
      StuckRead(Flip(s), peers, mine);
      RestsStuck(t, mine, peers);
    }
  }

  /** No deliveries, continued calls or reads ever lead out of a stuck pair. */
  lemma {:induction false} StuckForGood(s: Pair, moves: seq<Move>, mine: bool, peers: bool)
    requires HiccupInv(s, mine, peers) && Stuck(s) && forall i :: 0 <= i < |moves| ==> Internal(moves[i].op)
    ensures Run(s, moves).Some? && Stuck(Run(s, moves).value)
    decreases |moves|
  {
    hide HiccupInv, Next, Stuck;
    if moves != [] {
      StuckStep(s, moves[0], mine, peers);
      StuckForGood(Next(s, moves[0]).value, moves[1..], mine, peers);
    }
  }

  lemma PendingMeans(s: Pair)
    requires Inv(s) && Ending(s) && Still(s) && s.peer.state == Pending
    ensures s.peer.alive && s.me.state == Terminated && s.me.alive
  {
  }

  lemma PendingAcks(s: Pair)
    requires Inv(s) && Ending(s) && Still(s) && s.peer.state == Pending
    ensures var m := Move(false, TerminateOp(false)); Next(s, m).Some? && (var t := Next(s, m).value;
      Inv(t) && t.me == s.me && t.me.state == Terminated && t.me.alive && t.peer.state == Terminating && t.peer.alive
      && t.toMe == [PipeTermAck] && t.toPeer == [] && t.me.todo == Nothing && t.peer.todo == Nothing)
  {
    hide Inv, Ending;
    NextKeeps(s, Move(false, TerminateOp(false)));
    PendingMeans(s);
    assert s.toMe + [PipeTermAck] == [PipeTermAck];
    assert Next(s, Move(false, TerminateOp(false))) == Some(Flip(TerminateStep(Flip(s), false).value));
  }

  lemma TerminatedAcks(s: Pair)
    requires Inv(s) && s.me.state == Terminated && s.me.alive && s.peer.state == Terminating && s.peer.alive
    requires s.toMe == [PipeTermAck] && s.toPeer == [] && s.me.todo == Nothing && s.peer.todo == Nothing
    ensures var m := Move(true, DeliverOp); Next(s, m).Some? && (var t := Next(s, m).value;
      Inv(t) && !t.me.alive && t.peer == s.peer && t.toPeer == [PipeTermAck])
  {
    hide Inv;
    NextKeeps(s, Move(true, DeliverOp));
    HeldQueuesLive(s);
    assert s.toPeer + [PipeTermAck] == [PipeTermAck];
    assert Next(s, Move(true, DeliverOp)) == DeliverStep(s);
  }

  lemma TerminatingGoes(s: Pair)
    requires Inv(s) && !s.me.alive && s.peer.state == Terminating && s.peer.alive && s.toPeer == [PipeTermAck] && s.peer.todo == Nothing
    ensures var m := Move(false, DeliverOp); Next(s, m).Some? && Gone(Next(s, m).value) && Next(s, m).value.heap == map[]
  {
    NextKeeps(s, Move(false, DeliverOp));
    HandshakeMeaning(Next(s, Move(false, DeliverOp)).value);
    InvFlip(s);
    HeldQueuesLive(Flip(s));
  }

  lemma PeerFrees(s: Pair)
    requires Inv(s) && Ending(s) && Still(s) && s.peer.state == Pending
    ensures var r := Run(s, [Move(false, TerminateOp(false)), Move(true, DeliverOp), Move(false, DeliverOp)]);
      r.Some? && Gone(r.value) && r.value.heap == map[]
  {
    hide Inv, Next;
    var a, b, c := Move(false, TerminateOp(false)), Move(true, DeliverOp), Move(false, DeliverOp);
    PendingAcks(s);
    var s1 := Next(s, a).value;
    TerminatedAcks(s1);
    var s2 := Next(s1, b).value;
    TerminatingGoes(s2);
    RunCons(s, a, [b, c]);
    RunCons(s1, b, [c]);
    RunCons(s2, c, []);
    assert [a] + [b, c] == [a, b, c] && [b] + [c] == [b, c] && [c] + [] == [c];
  }

  function Mirror(moves: seq<Move>): (r: seq<Move>)
    ensures |r| == |moves|
  {
    seq(|moves|, i requires 0 <= i < |moves| => Move(!moves[i].first, moves[i].op))
  }

  /** The two ends are alike. */
  lemma {:induction false} RunMirror(s: Pair, moves: seq<Move>)
    requires Run(s, moves).Some?
    ensures Run(Flip(s), Mirror(moves)) == Some(Flip(Run(s, moves).value))
    decreases |moves|
  {
    hide Step, Enabled;
    assert Flip(Flip(s)) == s;
    if moves != [] {
      var m, t := moves[0], Next(s, moves[0]).value;
      assert Flip(Flip(t)) == t;
      assert Next(Flip(s), Mirror(moves)[0]) == Some(Flip(t));
      RunMirror(t, moves[1..]);
      assert Mirror(moves)[1..] == Mirror(moves[1..]);
    }
  }

  /** The pending end's user can: terminating it without delay ends both. */
  lemma TerminateFrees(s: Pair, first: bool)
    requires Inv(s) && Ending(s) && Still(s) && (if first then s.me else s.peer).state == Pending
    ensures var r := Run(s, [Move(first, TerminateOp(false)), Move(!first, DeliverOp), Move(first, DeliverOp)]);
      r.Some? && Gone(r.value) && r.value.heap == map[]
  {
    hide Inv, Next;
    if first {
      InvFlip(s);
      PeerFrees(Flip(s));
      var moves := [Move(false, TerminateOp(false)), Move(true, DeliverOp), Move(false, DeliverOp)];
      RunMirror(Flip(s), moves);
      assert Mirror(moves) == [Move(true, TerminateOp(false)), Move(false, DeliverOp), Move(true, DeliverOp)];
    } else {
      PeerFrees(s);
    }
  }

  // ---- A run that gets stuck ----

  const STUCK := [
    Move(false, TerminateOp(true)), Move(false, ContinueOp), Move(true, HiccupOp), Move(true, DeliverOp),
    Move(false, DeliverOp), Move(true, ReadOp)]

  /** A hiccup can drop the delimiter the other side waits for: the run ends with
      empty mailboxes, one end pending on an empty queue and the other waiting for
      its acknowledgement. */
  lemma HiccupLosesDelimiter()
    ensures Run(Init(1, 1, true, true), STUCK) == Some(Frozen())
    ensures Ending(Frozen()) && Still(Frozen())
    ensures Stuck(Frozen())
    ensures Frozen().me.state == Pending && !Frozen().me.inActive
  {
    StuckOpening();
    StuckMiddle();
    StuckEnding();
  }

  function Frozen(): Pair {
    var s := Replaced();
    s.(me := s.me.(inActive := false), peer := s.peer.(outpipe := Some(2), outActive := true), toPeer := [],
       heap := map[1 := Fresh(), 2 := Queue([], [], [], true)])
  }

  lemma StuckEnding()
    ensures Run(Replaced(), STUCK[4..]) == Some(Frozen())
  {
    var s4 := Replaced();
    var s5 := s4.(peer := s4.peer.(outpipe := Some(2), outActive := true), toPeer := [],
                  heap := map[1 := Fresh(), 2 := Fresh()]);
    assert s4.heap - {0} == s5.heap && s4.toPeer[1..] == [];
    assert Step(Flip(s4), DeliverOp) == Some(Flip(s5));
    assert s5.heap[2 := Queue([], [], [], true)] == Frozen().heap;
    assert s5.toPeer + [] == s5.toPeer;
    assert Next(s5, Move(true, ReadOp)) == Some(Frozen());
    RunCons(s5, STUCK[5], []);
    RunCons(s4, STUCK[4], STUCK[5..]);
    assert STUCK[5..] == [STUCK[5]] + [] && STUCK[4..] == [STUCK[4]] + STUCK[5..];
  }

  /** After four moves: the first end has asked for a fresh queue and is pending. */
  function Replaced(): Pair {
    var s := Opened();
    s.(me := s.me.(inpipe := 2, state := Pending), toMe := [], toPeer := [Hiccup(2)],
       heap := s.heap[2 := Fresh()], next := 3)
  }

  lemma StuckMiddle()
    ensures Run(Opened(), STUCK[2..]) == Run(Replaced(), STUCK[4..])
  {
    var s2 := Opened();
    var s3 := s2.(me := s2.me.(inpipe := 2), toPeer := [Hiccup(2)], heap := s2.heap[2 := Fresh()], next := 3);
    assert s2.toPeer + [Hiccup(2)] == [Hiccup(2)] && s3.toMe[1..] == [] && s3.toPeer + [] == s3.toPeer;
    assert Next(s2, Move(true, HiccupOp)) == Some(s3);
    assert Next(s3, Move(true, DeliverOp)) == Some(Replaced());
    RunCons(s3, STUCK[3], STUCK[4..]);
    RunCons(s2, STUCK[2], STUCK[3..]);
    assert STUCK[3..] == [STUCK[3]] + STUCK[4..] && STUCK[2..] == [STUCK[2]] + STUCK[3..];
  }

  /** After the first two moves: the second end has terminated and flushed its delimiter. */
  function Opened(): Pair {
    var s := Init(1, 1, true, true);
    s.(peer := s.peer.(state := Terminated, outActive := false), toMe := [PipeTerm],
       heap := s.heap[0 := Queue([Delimiter], [], [], false)])
  }

  lemma StuckOpening()
    ensures Run(Init(1, 1, true, true), STUCK) == Run(Opened(), STUCK[2..])
  {
    var s0 := Init(1, 1, true, true);
    var s1 := s0.(peer := s0.peer.(state := Terminated, outActive := false, todo := MustDelimit), toMe := [PipeTerm]);
    assert s0.toMe + [PipeTerm] == [PipeTerm];
    assert Step(Flip(s0), TerminateOp(true)) == Some(Flip(s1));
    var p: Pipe := Fresh();
    assert p.Write(Delimiter, false) == Queue([], [Delimiter], [], false);
    assert p.flushed + [Delimiter] == [Delimiter];
    assert Step(Flip(s1), ContinueOp) == Some(Flip(Opened()));
    RunCons(s1, STUCK[1], STUCK[2..]);
    RunCons(s0, STUCK[0], STUCK[1..]);
    assert STUCK[1..] == [STUCK[1]] + STUCK[2..] && STUCK == [STUCK[0]] + STUCK[1..];
  }
}
