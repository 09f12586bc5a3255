/** Safety of the termination handshake, with queue replacement (hiccup): no
    assertion fails, no dead queue is touched, no command reaches a vanished end,
    and every queue is freed exactly once. */
module PipeHandshake {
  import opened Options
  import opened UPipe
  import opened PipeEnd
  import opened PipePair

  function Bit(b: bool): nat {
    if b then 1 else 0
  }

  predicate GotTerm(e: End) {
    e.state == Pending || e.state == Terminating || e.state == DoubleTerminated
  }

  predicate SentTerm(e: End) {
    e.state == Terminated || e.state == DoubleTerminated
  }

  // ---- Mailboxes ----

  function Terms(q: seq<Command>): nat {
    if q == [] then 0 else Bit(q[0] == PipeTerm) + Terms(q[1..])
  }

  function Acks(q: seq<Command>): nat {
    if q == [] then 0 else Bit(q[0] == PipeTermAck) + Acks(q[1..])
  }

  function HiccupIds(q: seq<Command>): seq<PipeId> {
    if q == [] then []
    else if q[0].Hiccup? then [q[0].pipe] + HiccupIds(q[1..])
    else HiccupIds(q[1..])
  }

  /** Nothing follows an acknowledgement, and no replacement queue is announced
      after a termination command. */
  predicate Ordered(q: seq<Command>) {
    q == [] ||
    (&& Ordered(q[1..])
     && (q[0] == PipeTerm ==> HiccupIds(q[1..]) == [])
     && (q[0] == PipeTermAck ==> q[1..] == []))
  }

  lemma {:induction false} Append(q: seq<Command>, c: Command)
    ensures Terms(q + [c]) == Terms(q) + Bit(c == PipeTerm)
    ensures Acks(q + [c]) == Acks(q) + Bit(c == PipeTermAck)
    ensures HiccupIds(q + [c]) == HiccupIds(q) + (if c.Hiccup? then [c.pipe] else [])
    ensures Ordered(q) && Acks(q) == 0 && (c.Hiccup? ==> Terms(q) == 0) ==> Ordered(q + [c])
  {
    if q == [] {
      assert q + [c] == [c];
    } else {
      assert (q + [c])[1..] == q[1..] + [c];
      Append(q[1..], c);
    }
  }

  // ---- The invariant ----

  /** What `me` has sent, against what the peer has seen. */
  predicate Shake(s: Pair) {
    && Terms(s.toPeer) + Bit(GotTerm(s.peer)) == Bit(SentTerm(s.me))
    && Acks(s.toPeer) + Bit(!s.peer.alive) == Bit(s.me.outpipe.None?)
    && (s.me.outpipe.None? <==> s.me.state == Terminating || s.me.state == DoubleTerminated || !s.me.alive)
    && (!s.me.alive ==> s.me.state == Terminating || s.me.state == DoubleTerminated || s.me.state == Terminated)
    && (s.me.todo != Nothing ==> s.me.outpipe.Some?)
    && (!s.peer.alive ==> s.toPeer == [])
    && Ordered(s.toPeer)
    && (GotTerm(s.peer) || !s.peer.alive ==> HiccupIds(s.toPeer) == [])
    && (s.peer.outpipe.Some? ==> s.me.alive && Last(Inbound(s)) == s.me.inpipe)
  }

  function Last(ids: seq<PipeId>): PipeId
    requires ids != []
  {
    ids[|ids| - 1]
  }

  /** The queues that carry messages to `me`, oldest first: the one the peer
      writes to, then the replacements it has not heard of yet. */
  function Inbound(s: Pair): seq<PipeId> {
    if s.peer.outpipe.Some? then [s.peer.outpipe.value] + HiccupIds(s.toPeer)
    else if s.me.alive then [s.me.inpipe]
    else []
  }

  /** Allocated are exactly the queues on their way to one of the ends, each once. */
  ghost predicate Owned(s: Pair) {
    && multiset(Inbound(s)) + multiset(Inbound(Flip(s))) == multiset(s.heap.Keys)
    && (forall id :: id in s.heap ==> id < s.next && OnlyParts(s.heap[id].partial))
  }

  ghost predicate OnlyParts(items: seq<Msg>) {
    forall m :: m in items ==> m.Msg? && m.more
  }

  ghost predicate Inv(s: Pair) {
    Shakes(s) && Owned(s)
  }

  /** Rolling back removes the unfinished message and nothing else. */
  lemma {:induction false} RollbackDropsPartial(p: Pipe)
    requires OnlyParts(p.partial)
    ensures Rollback(p) == Some(p.(partial := []))
    decreases |p.partial|
  {
    if p.partial != [] {
      var m := p.partial[|p.partial| - 1];
      assert m in p.partial;
      RollbackDropsPartial(p.Unwrite());
    }
  }

  // ---- Who owns which queue ----

  lemma OwnedAlike(s: Pair, t: Pair)
    requires Owned(s) && Inbound(t) == Inbound(s) && Inbound(Flip(t)) == Inbound(Flip(s))
    requires t.heap == s.heap && t.next == s.next
    ensures Owned(t)
  {
  }

  lemma OwnedGrows(s: Pair, t: Pair)
    requires Owned(s) && Inbound(t) == Inbound(s) + [s.next] && Inbound(Flip(t)) == Inbound(Flip(s))
    requires t.heap == s.heap[s.next := Fresh()] && t.next == s.next + 1
    ensures Owned(t)
  {
    assert multiset(t.heap.Keys) == multiset(s.heap.Keys) + multiset{s.next};
  }

  lemma OwnedShrinks(s: Pair, t: Pair, id: PipeId, rest: seq<PipeId>)
    requires Owned(s) && Inbound(s) == [id] + rest
    requires Inbound(t) == rest && Inbound(Flip(t)) == Inbound(Flip(s))
    requires t.heap == s.heap - {id} && t.next == s.next
    ensures Owned(t)
  {
    assert multiset(Inbound(s)) == multiset{id} + multiset(rest);
    assert id in multiset(s.heap.Keys);
    assert multiset(s.heap.Keys) == multiset(t.heap.Keys) + multiset{id};
    Cancel(id, multiset(rest), multiset(Inbound(Flip(s))), multiset(t.heap.Keys));
  }

  lemma Cancel(x: PipeId, a: multiset<PipeId>, b: multiset<PipeId>, c: multiset<PipeId>)
    requires multiset{x} + a + b == c + multiset{x}
    ensures a + b == c
  {
    forall y ensures (a + b)[y] == c[y] {
      assert (multiset{x} + a + b)[y] == (c + multiset{x})[y];
    }
  }

  /** The queues an end holds are allocated. */
  lemma HeldQueuesLive(s: Pair)
    requires Inv(s)
    ensures s.me.alive ==> InOk(s)
    ensures s.me.outpipe.Some? ==> OutOk(s)
  {
    if s.me.alive {
      assert s.me.inpipe in Inbound(s);
      assert s.me.inpipe in multiset(s.heap.Keys);
    }
    if s.me.outpipe.Some? {
      assert s.me.outpipe.value in Inbound(Flip(s));
      assert s.me.outpipe.value in multiset(s.heap.Keys);
    }
  }

  lemma OwnedContents(s: Pair, t: Pair, id: PipeId, p: Pipe)
    requires Owned(s) && Inbound(t) == Inbound(s) && Inbound(Flip(t)) == Inbound(Flip(s))
    requires id in s.heap && OnlyParts(p.partial)
    requires t.heap == s.heap[id := p] && t.next == s.next
    ensures Owned(t)
  {
    assert t.heap.Keys == s.heap.Keys;
  }

  // ---- The handshake, by what a step sends ----

  predicate Shakes(s: Pair) {
    Shake(s) && Shake(Flip(s))
  }

  lemma SendNothing(s: Pair, t: Pair)
    requires Shakes(s) && s.me.alive
    requires t == s.(me := t.me, heap := t.heap)
    requires SameRole(s.me, t.me) || (s.me.state == Active && SameRole(s.me.(state := Delimited), t.me))
    ensures Shakes(t) && SameInbound(s, t)
  {
  }

  lemma SendActivate(s: Pair, t: Pair, c: Command)
    requires Shakes(s) && s.me.outpipe.Some?
    requires c.ActivateRead? || c.ActivateWrite?
    requires t == s.(me := t.me, heap := t.heap, toPeer := s.toPeer + [c])
    requires SameRole(s.me, t.me)
    ensures Shakes(t) && SameInbound(s, t)
  {
    Append(s.toPeer, c);
  }

  predicate SameRole(e: End, f: End) {
    e.alive == f.alive && e.state == f.state && e.inpipe == f.inpipe && e.outpipe == f.outpipe
    && (f.todo == Nothing || e.outpipe.Some?)
  }

  predicate SameInbound(s: Pair, t: Pair) {
    Inbound(t) == Inbound(s) && Inbound(Flip(t)) == Inbound(Flip(s))
  }

  lemma SendTerm(s: Pair, e: End)
    requires Shakes(s) && s.me.alive && (s.me.state == Active || s.me.state == Delimited)
    requires SameRole(s.me.(state := Terminated), e)
    ensures var t := s.(me := e, toPeer := s.toPeer + [PipeTerm]); Shakes(t) && SameInbound(s, t)
  {
    Append(s.toPeer, PipeTerm);
  }

  /** Acknowledging gives up the outbound queue, which by now is the peer's
      inbound queue and no other. */
  lemma SendAck(s: Pair, t: Pair)
    requires Shakes(s) && s.me.alive && s.me.state == Pending
    requires SameRole(s.me.(state := Terminating, outpipe := None), t.me)
    requires t == s.(me := t.me, heap := t.heap, toPeer := s.toPeer + [PipeTermAck])
    ensures Shakes(t) && SameInbound(s, t)
  {
    Append(s.toPeer, PipeTermAck);
  }

  lemma SendHiccup(s: Pair)
    requires Shakes(s) && s.me.alive && s.me.state == Active
    ensures var t := HiccupStep(s).value;
      Shakes(t) && Inbound(t) == Inbound(s) + [s.next] && Inbound(Flip(t)) == Inbound(Flip(s))
  {
    Append(s.toPeer, Hiccup(s.next));
  }

  // ---- The handshake, by what is delivered ----

  lemma DeliverActivate(s: Pair, t: Pair)
    requires Shakes(s) && s.me.alive && s.toMe != []
    requires s.toMe[0].ActivateRead? || s.toMe[0].ActivateWrite?
    requires t == s.(me := t.me, toMe := s.toMe[1..]) && SameRole(s.me, t.me)
    ensures Shakes(t) && SameInbound(s, t)
  {
  }

  /** The announced queue takes the place of the one it replaces. */
  lemma DeliverHiccup(s: Pair)
    requires Shakes(s) && s.me.alive && s.toMe != [] && s.toMe[0].Hiccup?
    ensures s.me.outpipe.Some?
    ensures var t := s.(toMe := s.toMe[1..], me := ProcessHiccup(s.me, s.toMe[0].pipe), heap := s.heap - {s.me.outpipe.value});
      && Shakes(t) && Inbound(t) == Inbound(s)
      && Inbound(Flip(s)) == [s.me.outpipe.value] + Inbound(Flip(t))
  {
  }

  lemma AckOnTerm(s: Pair, t: Pair)
    requires Shakes(s) && s.me.alive && s.me.todo == Nothing && s.toMe != [] && s.toMe[0] == PipeTerm
    requires s.me.state == Active || s.me.state == Delimited || s.me.state == Terminated
    requires t == s.(toMe := s.toMe[1..], toPeer := s.toPeer + [PipeTermAck],
        me := s.me.(outpipe := None, state := if s.me.state == Terminated then DoubleTerminated else Terminating))
    ensures Shakes(t) && SameInbound(s, t)
  {
    Append(s.toPeer, PipeTermAck);
  }

  lemma PendOnTerm(s: Pair, t: Pair)
    requires Shakes(s) && s.me.alive && s.toMe != [] && s.toMe[0] == PipeTerm && s.me.state == Active
    requires t == s.(toMe := s.toMe[1..], me := s.me.(state := Pending))
    ensures Shakes(t) && SameInbound(s, t)
  {
  }

  lemma TermExpected(s: Pair)
    requires Shakes(s) && s.toMe != [] && s.toMe[0] == PipeTerm
    ensures s.me.state == Active || s.me.state == Delimited || s.me.state == Terminated
  {
  }

  lemma AckExpected(s: Pair)
    requires Shakes(s) && s.me.alive && s.toMe != [] && s.toMe[0] == PipeTermAck
    ensures s.me.state == Terminating || s.me.state == DoubleTerminated || s.me.state == Terminated
    ensures Inbound(s) == [s.me.inpipe] && s.toMe[1..] == []
  {
  }

  lemma GoOnAck(s: Pair, t: Pair)
    requires Shakes(s) && s.me.alive && s.me.todo == Nothing && s.toMe != [] && s.toMe[0] == PipeTermAck
    requires t == s.(me := t.me, toMe := [], toPeer := t.toPeer, heap := t.heap)
    requires t.me == s.me.(alive := false, outpipe := None)
    requires t.toPeer == if s.me.state == Terminated then s.toPeer + [PipeTermAck] else s.toPeer
    ensures Shakes(t) && Inbound(t) == [] && Inbound(Flip(t)) == Inbound(Flip(s))
  {
    if s.me.state == Terminated {
      Append(s.toPeer, PipeTermAck);
    }
  }

  lemma DeliverTerm(s: Pair)
    requires Shakes(s) && s.me.alive && s.me.todo == Nothing && s.toMe != [] && s.toMe[0] == PipeTerm
    ensures DeliverStep(s).Some?
    ensures var t := DeliverStep(s).value;
      && Shakes(t) && SameInbound(s, t)
      && t.heap == s.heap && t.next == s.next
  {
    TermExpected(s);
    var t := DeliverStep(s).value;
    hide Shakes, SameInbound;
    if s.me.state == Active && s.me.delay {
      assert t.toPeer == s.toPeer;
      PendOnTerm(s, t);
    } else {
      AckOnTerm(s, t);
    }
  }

  /** The acknowledgement is the last thing an end sees: its inbound queue, which
      the peer no longer writes to, goes with it. */
  lemma DeliverAck(s: Pair)
    requires Shakes(s) && InOk(s) && s.me.alive && s.me.todo == Nothing && s.toMe != [] && s.toMe[0] == PipeTermAck
    ensures DeliverStep(s).Some?
    ensures var t := DeliverStep(s).value;
      && Shakes(t) && Inbound(s) == [s.me.inpipe] + Inbound(t) && Inbound(Flip(t)) == Inbound(Flip(s))
      && t.heap == s.heap - {s.me.inpipe} && t.next == s.next
  {
    AckExpected(s);
    assert Shake(s) && (s.me.outpipe.None? <==> s.me.state != Terminated);
    var t := DeliverStep(s).value;
    hide Shakes, Inbound;
    if s.me.state != Terminated {
      assert t.toPeer == s.toPeer;
    }
    GoOnAck(s, t);
  }

  // ---- Every step keeps the invariant ----

  /** At most the contents of queue `id` changed. */
  ghost predicate Touches(s: Pair, t: Pair, id: PipeId) {
    && SameInbound(s, t) && t.next == s.next
    && (t.heap == s.heap ||
        (id in s.heap && id in t.heap && OnlyParts(t.heap[id].partial) && t.heap == s.heap[id := t.heap[id]]))
  }

  lemma OwnedTouches(s: Pair, t: Pair, id: PipeId)
    requires Owned(s) && Touches(s, t, id)
    ensures Owned(t)
  {
    if t.heap == s.heap {
      OwnedAlike(s, t);
    } else {
      OwnedContents(s, t, id, t.heap[id]);
    }
  }

  lemma ReadKeeps(s: Pair, check: bool)
    requires Shakes(s) && s.me.alive && s.me.todo == Nothing
    requires InOk(s) && OnlyParts(s.heap[s.me.inpipe].partial)
    ensures ReadStep(s, check).Some? && Shakes(ReadStep(s, check).value) && Touches(s, ReadStep(s, check).value, s.me.inpipe)
  {
    var t := ReadStep(s, check).value;
    assert Shake(s) && s.me.CanRead() ==> s.me.outpipe.Some?;
    hide Shakes, SameInbound;
    if s.me.CanRead() {
      var p := s.heap[s.me.inpipe];
      var p' := t.heap[s.me.inpipe];
      assert p'.partial == p.partial;
      if p.flushed != [] && p.flushed[0] == Delimiter && s.me.state == Pending {
        SendAck(s, t);
      } else if p.flushed != [] && p.flushed[0] != Delimiter && |t.toPeer| > |s.toPeer| {
        SendActivate(s, t, t.toPeer[|s.toPeer|]);
      } else {
        assert t.toPeer == s.toPeer;
        SendNothing(s, t);
      }
    } else {
      SendNothing(s, t);
    }
  }

  /** A step of `me` as writer: its own fields and the contents of its queue. */
  lemma WriteKeeps(s: Pair, t: Pair)
    requires Shakes(s) && s.me.alive && SameRole(s.me, t.me) && t == s.(me := t.me, heap := t.heap)
    requires t.heap == s.heap || (OutOk(s) && s.me.outpipe.value in t.heap
      && t.heap == s.heap[s.me.outpipe.value := t.heap[s.me.outpipe.value]] && OnlyParts(t.heap[s.me.outpipe.value].partial))
    ensures Shakes(t) && Touches(s, t, if s.me.outpipe.Some? then s.me.outpipe.value else 0)
  {
    hide Shakes, SameInbound;
    SendNothing(s, t);
  }

  lemma TerminateKeeps(s: Pair, delay: bool)
    requires Shakes(s) && s.me.alive && s.me.todo == Nothing
    ensures TerminateStep(s, delay).Some? && Shakes(TerminateStep(s, delay).value)
    ensures Touches(s, TerminateStep(s, delay).value, 0)
  {
    var t := TerminateStep(s, delay).value;
    hide Shakes, SameInbound;
    if s.me.state == Active || s.me.state == Delimited {
      SendTerm(s, t.me);
    } else if s.me.state == Pending && !delay {
      SendAck(s, t);
    } else {
      assert t.toPeer == s.toPeer;
      SendNothing(s, t);
    }
  }

  lemma ContinueKeeps(s: Pair)
    requires Shakes(s) && s.me.alive && s.me.todo != Nothing
    requires OutOk(s) && OnlyParts(s.heap[s.me.outpipe.value].partial)
    ensures ContinueStep(s).Some? && Shakes(ContinueStep(s).value)
    ensures Touches(s, ContinueStep(s).value, s.me.outpipe.value)
  {
    RollbackDropsPartial(s.heap[s.me.outpipe.value]);
    hide Shakes, SameInbound;
    if s.me.todo == MustWake {
      SendActivate(s, ContinueStep(s).value, ActivateRead);
    } else {
      WriteKeeps(s, ContinueStep(s).value);
    }
  }

  lemma HiccupKeeps(s: Pair)
    requires Inv(s) && OutOk(s) && s.me.alive && s.toMe != [] && s.toMe[0].Hiccup?
    ensures DeliverStep(s).Some? && Inv(DeliverStep(s).value)
  {
    hide Owned, Shakes, Inbound;
    DeliverHiccup(s);
    var t := DeliverStep(s).value;
    OwnedFlip(s);
    OwnedShrinks(Flip(s), Flip(t), s.me.outpipe.value, Inbound(Flip(t)));
    OwnedFlip(Flip(t));
  }

  lemma OwnedFlip(s: Pair)
    requires Owned(s)
    ensures Owned(Flip(s)) && Flip(Flip(s)) == s
  {
    assert Flip(Flip(s)) == s;
    assert multiset(Inbound(Flip(s))) + multiset(Inbound(s)) == multiset(Inbound(s)) + multiset(Inbound(Flip(s)));
  }

  lemma AckKeeps(s: Pair)
    requires Inv(s) && InOk(s) && s.me.alive && s.me.todo == Nothing && s.toMe != [] && s.toMe[0] == PipeTermAck
    ensures DeliverStep(s).Some? && Inv(DeliverStep(s).value)
  {
    hide Owned, Shakes, Inbound;
    DeliverAck(s);
    var t := DeliverStep(s).value;
    OwnedShrinks(s, t, s.me.inpipe, Inbound(t));
  }

  lemma DeliverKeeps(s: Pair)
    requires Inv(s) && s.me.alive && s.me.todo == Nothing && s.toMe != []
    ensures DeliverStep(s).Some? && Inv(DeliverStep(s).value)
  {
    HeldQueuesLive(s);
    if s.toMe[0].Hiccup? {
      HiccupFindsQueue(s);
    }
    hide Shakes, Owned, Inbound;
    if s.toMe[0].Hiccup? {
      HiccupKeeps(s);
    } else if s.toMe[0] == PipeTerm {
      DeliverTerm(s);
      OwnedAlike(s, DeliverStep(s).value);
    } else if s.toMe[0] == PipeTermAck {
      AckKeeps(s);
    } else {
      var t := DeliverStep(s).value;
      DeliverActivate(s, t);
      OwnedAlike(s, t);
    }
  }

  lemma HiccupFindsQueue(s: Pair)
    requires Shakes(s) && s.me.alive && s.toMe != [] && s.toMe[0].Hiccup?
    ensures s.me.outpipe.Some?
  {
  }

  /** No step of a live end fails an assertion or touches a dead queue. */
  lemma StepKeeps(s: Pair, op: Op)
    requires Inv(s) && Enabled(s, op)
    ensures Step(s, op).Some? && Inv(Step(s, op).value)
  {
    HeldQueuesLive(s);
    HeldPartsOnly(s);
    match op {
      case CheckReadOp => ReadKeeps(s, true); OwnedTouches(s, ReadStep(s, true).value, s.me.inpipe);
      case ReadOp => ReadKeeps(s, false); OwnedTouches(s, ReadStep(s, false).value, s.me.inpipe);
      case TerminateOp(delay) => TerminateKeeps(s, delay); OwnedTouches(s, TerminateStep(s, delay).value, 0);
      case HiccupOp =>
        if s.me.state == Active {
          SendHiccup(s);
          OwnedGrows(s, HiccupStep(s).value);
        }
      case DeliverOp => DeliverKeeps(s);
      case ContinueOp => ContinueKeeps(s); OwnedTouches(s, ContinueStep(s).value, s.me.outpipe.value);
      case _ => WriterStepKeeps(s, op);
    }
  }

  lemma HeldPartsOnly(s: Pair)
    requires Inv(s)
    ensures s.me.alive && InOk(s) ==> OnlyParts(s.heap[s.me.inpipe].partial)
    ensures OutOk(s) ==> OnlyParts(s.heap[s.me.outpipe.value].partial)
    ensures s.me.todo != Nothing ==> s.me.outpipe.Some?
  {
  }

  lemma WriterStepKeeps(s: Pair, op: Op)
    requires Inv(s) && Enabled(s, op) && (op == CheckWriteOp || op.WriteOp? || op == RollbackOp || op == FlushOp)
    ensures Step(s, op).Some? && Inv(Step(s, op).value)
  {
    hide Shakes, Owned, Rollback;
    HeldQueuesLive(s);
    HeldPartsOnly(s);
    if s.me.outpipe.Some? {
      RollbackDropsPartial(s.heap[s.me.outpipe.value]);
    }
    if s.me.state == Active {
      WritersHoldQueue(s);
    }
    var t := Step(s, op).value;
    WriteKeeps(s, t);
    OwnedTouches(s, t, if s.me.outpipe.Some? then s.me.outpipe.value else 0);
  }

  lemma WritersHoldQueue(s: Pair)
    requires Inv(s) && s.me.alive && s.me.state == Active
    ensures s.me.outpipe.Some?
  {
  }

  // ---- Whole runs ----

  lemma InvFlip(s: Pair)
    requires Inv(s)
    ensures Inv(Flip(s)) && Flip(Flip(s)) == s
  {
    OwnedFlip(s);
  }

  lemma InitInv(hwm0: nat, hwm1: nat, delay0: bool, delay1: bool)
    ensures Inv(Init(hwm0, hwm1, delay0, delay1))
  {
    var s := Init(hwm0, hwm1, delay0, delay1);
    assert Inbound(s) == [0] && Inbound(Flip(s)) == [1];
    assert s.heap.Keys == {0, 1};
  }

  lemma NextKeeps(s: Pair, m: Move)
    requires Inv(s)
    ensures Next(s, m).Some? && Inv(Next(s, m).value)
  {
    if m.first {
      if Enabled(s, m.op) { StepKeeps(s, m.op); }
    } else if Enabled(Flip(s), m.op) {
      InvFlip(s);
      StepKeeps(Flip(s), m.op);
      InvFlip(Step(Flip(s), m.op).value);
    }
  }

  /** In every interleaving of the two ends, with any calls and any hiccups, no
      assertion fails and no freed queue is touched. */
  lemma {:induction false} HandshakeSafe(s: Pair, moves: seq<Move>)
    requires Inv(s)
    ensures Run(s, moves).Some? && Inv(Run(s, moves).value)
    decreases |moves|
  {
    hide Inv, Next;
    if moves != [] {
      NextKeeps(s, moves[0]);
      HandshakeSafe(Next(s, moves[0]).value, moves[1..]);
    }
  }

  /** The side-by-side reading of the invariant: a vanished end has nothing in its
      mailbox and nobody left to write to it; an end has sent its one
      acknowledgement exactly when it has given up its outbound queue; and when
      both are gone so are all queues. */
  lemma HandshakeMeaning(s: Pair)
    requires Inv(s)
    ensures !s.peer.alive ==> s.toPeer == [] && s.me.outpipe.None?
    ensures Acks(s.toPeer) + Bit(!s.peer.alive) == Bit(s.me.outpipe.None?)
    ensures s.me.outpipe.None? <==> s.me.state == Terminating || s.me.state == DoubleTerminated || !s.me.alive
    ensures !s.me.alive && !s.peer.alive ==> s.heap == map[]
  {
    if !s.me.alive && !s.peer.alive {
      assert Inbound(s) == [] && Inbound(Flip(s)) == [];
      assert multiset(s.heap.Keys) == multiset{};
      assert forall id :: id in s.heap ==> id in multiset(s.heap.Keys);
    }
  }

  /** Acknowledgements one side takes out of its mailbox during a run. */
  function AcksTaken(s: Pair, moves: seq<Move>, first: bool): nat
    decreases |moves|
  {
    if moves == [] then 0
    else
      var side := if first then s else Flip(s);
      var here := moves[0] == Move(first, DeliverOp) && Enabled(side, DeliverOp) && side.toMe[0] == PipeTermAck;
      match Next(s, moves[0])
      case None => Bit(here)
      case Some(t) => Bit(here) + AcksTaken(t, moves[1..], first)
  }

  function Side(s: Pair, first: bool): End {
    if first then s.me else s.peer
  }

  /** An end vanishes with the one acknowledgement it receives, and not before. */
  lemma {:induction false} OneAckEach(s: Pair, moves: seq<Move>, first: bool)
    requires Inv(s)
    ensures Run(s, moves).Some?
    ensures AcksTaken(s, moves, first) + Bit(!Side(s, first).alive) == Bit(!Side(Run(s, moves).value, first).alive)
    decreases |moves|
  {
    hide Inv, Next;
    if moves != [] {
      NextKeeps(s, moves[0]);
      AliveStep(s, moves[0], first);
      OneAckEach(Next(s, moves[0]).value, moves[1..], first);
    }
  }

  lemma StepAlive(s: Pair, op: Op)
    requires Enabled(s, op) && Step(s, op).Some?
    ensures Step(s, op).value.peer == s.peer
    ensures Step(s, op).value.me.alive == !(op == DeliverOp && s.toMe[0] == PipeTermAck)
  {
  }

  lemma AliveStep(s: Pair, m: Move, first: bool)
    requires Next(s, m).Some?
    ensures var side := if first then s else Flip(s);
      var here := m == Move(first, DeliverOp) && Enabled(side, DeliverOp) && side.toMe[0] == PipeTermAck;
      Bit(here) + Bit(!Side(s, first).alive) == Bit(!Side(Next(s, m).value, first).alive)
  {
    var side := if m.first then s else Flip(s);
    if Enabled(side, m.op) {
      StepAlive(side, m.op);
    }
  }

  lemma StepFreed(s: Pair, op: Op, id: PipeId)
    requires Step(s, op).Some? && id < s.next && id !in s.heap
    ensures id < Step(s, op).value.next && id !in Step(s, op).value.heap
  {
  }

  /** A freed queue is never allocated again: names only grow, so together with
      `HandshakeMeaning` every queue ever made is freed exactly once by the time
      both ends are gone. */
  lemma {:induction false} FreedForGood(s: Pair, moves: seq<Move>, id: PipeId)
    requires Inv(s) && id < s.next && id !in s.heap
    ensures Run(s, moves).Some? && id < Run(s, moves).value.next && id !in Run(s, moves).value.heap
    decreases |moves|
  {
    if moves != [] {
      NextKeeps(s, moves[0]);
      var side := if moves[0].first then s else Flip(s);
      if Enabled(side, moves[0].op) {
        StepFreed(side, moves[0].op, id);
      }
      FreedForGood(Next(s, moves[0]).value, moves[1..], id);
    }
  }

  /** One side's view after any run. */
  predicate Settled(s: Pair) {
    && (!s.peer.alive ==> s.toPeer == [] && s.me.outpipe.None?)
    && Acks(s.toPeer) + Bit(!s.peer.alive) == Bit(s.me.outpipe.None?)
    && (!s.me.alive && !s.peer.alive ==> s.heap == map[])
  }

  /** From a new pipe on, whatever both sides do in whatever order: no assertion fails and
      no freed queue is touched; nothing is under way to a vanished end; an end's one
      acknowledgement is under way or taken exactly when it has given up its outbound
      queue; each end that vanished took exactly one; and all queues are freed when both
      are gone. */
  lemma EveryHandshake(hwm0: nat, hwm1: nat, delay0: bool, delay1: bool, moves: seq<Move>)
    ensures var s := Init(hwm0, hwm1, delay0, delay1); var r := Run(s, moves);
      && r.Some? && Settled(r.value) && Settled(Flip(r.value))
      && AcksTaken(s, moves, true) == Bit(!r.value.me.alive) && AcksTaken(s, moves, false) == Bit(!r.value.peer.alive)
  {
    hide Inv, Next;
    var s := Init(hwm0, hwm1, delay0, delay1);
    InitInv(hwm0, hwm1, delay0, delay1);
    HandshakeSafe(s, moves);
    var t := Run(s, moves).value;
    HandshakeMeaning(t);
    InvFlip(t);
    HandshakeMeaning(Flip(t));
    OneAckEach(s, moves, true);
    OneAckEach(s, moves, false);
  }
}
