/** One end of a message pipe as the program keeps it, changed in place. Commands to
    the peer are appended to `sent`. */
module PipeObject {
  import opened Options
  import opened UPipe
  import P = PipeEnd
  import PipePair
  import opened YPipeObject
  import Y = YPipe

  /** A whole call of `flush` or `terminate`: what is left to do is done at once. */
  function Woken(e: P.End): P.End {
    e.(todo := P.Nothing)
  }

  function WakeUp(e: P.End): seq<P.Command> {
    if e.todo == P.MustWake then [P.ActivateRead] else []
  }

  /** All of `terminate`: the end, its outbound queue and the commands. None if rolling
      back meets a part without the more flag. */
  function TerminateWhole(e: P.End, outp: Option<P.Pipe>, delay: bool): Option<(P.End, Option<P.Pipe>, seq<P.Command>)> {
    match P.Terminate(e, delay)
    case Crash => None
    case Done(e1, sent) =>
      if e1.todo != P.MustDelimit || outp.None? then Some((Woken(e1), outp, sent))
      else
        match P.PushDelimiter(e1, outp.value)
        case None => None
        case Some((e2, q)) => Some((Woken(e2), Some(q), sent + WakeUp(e2)))
  }

  lemma TodoForgotten(e: P.End, q: Option<P.Pipe>)
    ensures q.Some? ==> P.PushDelimiter(Woken(e), q.value) == P.PushDelimiter(e, q.value)
  {
  }

  /** From `q` to `r` all complete items became visible, and `added` after them, while a reader
      that slept was woken by the commands `sent`. */
  predicate Published(q: P.Pipe, r: P.Pipe, added: seq<P.Msg>, sent: seq<P.Command>) {
    && r.flushed == q.flushed + q.ready + added && r.ready == []
    && sent == if q.ready + added != [] && q.asleep then [P.ActivateRead] else []
  }

  class Pipe {
    var alive: bool
    var state: P.State
    var inActive: bool
    var outActive: bool
    const hwm: nat
    const lwm: nat
    var msgsRead: nat
    var msgsWritten: nat
    var peersMsgsRead: nat
    var delay: bool
    var inpipe: YPipe<P.Msg>
    var outpipe: YPipe?<P.Msg>
    var sent: seq<P.Command>

    ghost function View(): P.End
      reads this
    {
      P.End(alive, state, P.Nothing, inActive, outActive, hwm, lwm, msgsRead, msgsWritten, peersMsgsRead, delay,
            inpipe.id, if outpipe == null then None else Some(outpipe.id))
    }

    ghost predicate Valid()
      reads this, inpipe, outpipe
    {
      inpipe.Valid() && (outpipe != null ==> outpipe.Valid() && outpipe != inpipe)
    }

    constructor (inpipe: YPipe<P.Msg>, outpipe: YPipe<P.Msg>, inHwm: nat, outHwm: nat, delay: bool)
      requires inpipe.Valid() && outpipe.Valid() && inpipe != outpipe
      ensures Valid() && this.inpipe == inpipe && this.outpipe == outpipe && sent == []
      ensures View() == P.NewEnd(inpipe.id, outpipe.id, inHwm, outHwm, delay)
      ensures state == P.Active && inActive && outActive && this.delay == delay && hwm == outHwm
      ensures msgsRead == 0 && msgsWritten == 0 && peersMsgsRead == 0
      ensures if inHwm > 2048 then lwm == inHwm - 1024 else inHwm <= 2 * lwm <= inHwm + 1
    {
      this.inpipe, this.outpipe, this.delay := inpipe, outpipe, delay;
      alive, state, inActive, outActive := true, P.Active, true, true;
      hwm, lwm := outHwm, if inHwm > P.MAX_WM_DELTA * 2 then inHwm - P.MAX_WM_DELTA else (inHwm + 1) / 2;
      msgsRead, msgsWritten, peersMsgsRead, sent := 0, 0, 0, [];
    }

    /** The end did `e` and touched neither queue. */
    twostate predicate Did(e: P.Effect)
      reads this
    {
      e.Done? && View() == e.end && sent == old(sent) + e.sent && inpipe == old(inpipe) && (outpipe == old(outpipe) || outpipe == null)
    }

    method Send(c: P.Command)
      modifies `sent
      ensures sent == old(sent) + [c]
    {
      sent := sent + [c];
    }

    /** Gives up the outbound queue and acknowledges. */
    method AckPeer()
      modifies `outpipe, `sent
      ensures outpipe == null && sent == old(sent) + [P.PipeTermAck]
    {
      outpipe := null;
      Send(P.PipeTermAck);
    }

    method Delimit()
      requires P.Delimit(View()).Done?
      modifies this
      ensures Did(P.Delimit(old(View())))
      ensures old(state) == P.Active ==> state == P.Delimited && outpipe == old(outpipe) && sent == old(sent)
      ensures old(state) == P.Pending ==> state == P.Terminating && outpipe == null && sent == old(sent) + [P.PipeTermAck]
    {
      if state == P.Active {
        state := P.Delimited;
        return;
      }
      assert state == P.Pending;
      AckPeer();
      state := P.Terminating;
    }

    /** What there is to read: the first item that is visible, unless it is the delimiter or
        the end is not to be read. */
    ghost function Offer(): Option<P.Msg>
      requires inpipe.Valid()
      reads this, inpipe
    {
      var q := inpipe.View().flushed;
      if inActive && (state == P.Active || state == P.Pending) && q != [] && q[0].Msg? then Some(q[0]) else None
    }

    method CheckRead() returns (ok: bool)
      requires Valid()
      modifies this, inpipe
      ensures var r := P.ReadMsg(old(View()), old(inpipe.View()), true);
        Did(r.effect) && inpipe.Valid() && inpipe.View() == r.inp && ok == r.got.Some?
      ensures ok <==> old(Offer()).Some?
      ensures ok ==> View() == old(View()) && inpipe.View() == old(inpipe.View())
    {
      hide Contents, Y.Inv;
      if !inActive || (state != P.Active && state != P.Pending) { return false; }
      ok := inpipe.CheckRead();
      if !ok {
        inActive := false;
        return;
      }
      var m := inpipe.Peek();
      if m == P.Delimiter {
        var d := inpipe.Read();
        Delimit();
        return false;
      }
    }

    /** Whole messages are counted; at every multiple of the low watermark the peer is told. */
    method Read() returns (m: Option<P.Msg>)
      requires Valid()
      modifies this, inpipe
      ensures var r := P.ReadMsg(old(View()), old(inpipe.View()), false);
        Did(r.effect) && inpipe.Valid() && inpipe.View() == r.inp && m == r.got
      ensures m == old(Offer())
      ensures m.Some? ==> inpipe.View().flushed == old(inpipe.View().flushed)[1..] && state == old(state)
      ensures msgsRead == old(msgsRead) + if m.Some? && !m.value.more then 1 else 0
      ensures m.Some? ==> sent == old(sent) + if lwm > 0 && msgsRead % lwm == 0 then [P.ActivateWrite(msgsRead)] else []
    {
      hide Contents, Y.Inv;
      if !inActive || (state != P.Active && state != P.Pending) { return None; }
      m := inpipe.Read();
      if m.None? {
        inActive := false;
        return;
      }
      if m.value == P.Delimiter {
        Delimit();
        return None;
      }
      if !m.value.more { msgsRead := msgsRead + 1; }
      if lwm > 0 && msgsRead % lwm == 0 { Send(P.ActivateWrite(msgsRead)); }
    }

    method CheckWrite() returns (ok: bool)
      modifies `outActive
      ensures (View(), ok) == P.CheckWrite(old(View()))
      ensures ok <==> old(outActive) && state == P.Active && !(hwm > 0 && msgsWritten - peersMsgsRead == hwm)
      ensures outActive == (old(outActive) && (state == P.Active ==> ok))
    {
      if !outActive || state != P.Active { return false; }
      var full := hwm > 0 && msgsWritten - peersMsgsRead == hwm;
      if full {
        outActive := false;
        return false;
      }
      return true;
    }

    /** An active end has its outbound queue. */
    method Write(m: P.Msg) returns (ok: bool)
      requires Valid() && m.Msg? && (state == P.Active ==> outpipe != null)
      modifies this, outpipe
      ensures Valid() && sent == old(sent) && inpipe == old(inpipe) && outpipe == old(outpipe)
      ensures ok == P.CheckWrite(old(View())).1
      ensures if ok then (View(), outpipe.View(), true) == P.WriteMsg(old(View()), old(outpipe.View()), m)
              else View() == P.CheckWrite(old(View())).0 && (outpipe != null ==> outpipe.View() == old(outpipe.View()))
      ensures ok <==> old(outActive) && state == P.Active && !(hwm > 0 && old(msgsWritten) - peersMsgsRead == hwm)
      ensures msgsWritten == old(msgsWritten) + if ok && !m.more then 1 else 0
      ensures ok ==> var q, q' := old(outpipe.View()), outpipe.View();
        q'.flushed == q.flushed && q'.ready + q'.partial == q.ready + q.partial + [m] && (q'.partial == [] <==> !m.more)
    {
      hide Contents, Y.Inv;
      ok := CheckWrite();
      if !ok { return; }
      outpipe.Write(m, m.more);
      if !m.more { msgsWritten := msgsWritten + 1; }
    }

    /** Every part taken back has the more flag. */
    method Rollback()
      requires Valid() && (outpipe != null ==> P.Rollback(outpipe.View()).Some?)
      modifies outpipe
      ensures Valid() && (outpipe != null ==> P.Rollback(old(outpipe.View())) == Some(outpipe.View()))
      ensures outpipe != null ==> outpipe.View() == old(outpipe.View()).(partial := [])
    {
      if outpipe != null {
        while true
          invariant Valid() && P.Rollback(outpipe.View()) == P.Rollback(old(outpipe.View()))
          invariant outpipe.View() == old(outpipe.View()).(partial := outpipe.View().partial)
          decreases |outpipe.View().partial|
        {
          var m := outpipe.Unwrite();
          if m.None? { return; }
          assert m.value.Msg? && m.value.more;
        }
      }
    }

    method Flush()
      requires Valid()
      modifies `sent, outpipe
      ensures Valid()
      ensures if outpipe == null then sent == old(sent)
        else var (e, q) := P.Flush(old(View()), old(outpipe.View())); outpipe.View() == q && View() == Woken(e) && sent == old(sent) + WakeUp(e)
      ensures outpipe != null && (state == P.Active || state == P.Delimited || state == P.Pending) ==>
        |old(sent)| <= |sent| && Published(old(outpipe.View()), outpipe.View(), [], sent[|old(sent)|..]) && outpipe.View().partial == old(outpipe.View()).partial
      ensures outpipe != null && !(state == P.Active || state == P.Delimited || state == P.Pending) ==>
        outpipe.View() == old(outpipe.View()) && sent == old(sent)
    {
      if state == P.Terminated || state == P.DoubleTerminated { return; }
      if state == P.Terminating { return; }
      if outpipe != null {
        var awake := outpipe.Flush();
        if !awake { Send(P.ActivateRead); }
      }
    }

    ghost function OutView(): Option<P.Pipe>
      requires Valid()
      reads this, inpipe, outpipe
    {
      if outpipe == null then None else Some(outpipe.View())
    }

    method Terminate(delay: bool)
      requires Valid() && TerminateWhole(View(), OutView(), delay).Some?
      modifies this, outpipe
      ensures Valid() && inpipe == old(inpipe) && (outpipe == old(outpipe) || outpipe == null)
      ensures var (e, q, c) := TerminateWhole(old(View()), old(OutView()), delay).value;
        View() == e && sent == old(sent) + c && (outpipe != null ==> OutView() == q)
      ensures state == (match old(state)
        case Active => P.Terminated
        case Delimited => P.Terminated
        case Pending => if delay then P.Pending else P.Terminating
        case s => s)
      ensures old(state) == P.Pending && !delay ==> outpipe == null && sent == old(sent) + [P.PipeTermAck]
      ensures (old(state) == P.Active || old(state) == P.Delimited || (old(state) == P.Pending && delay)) && old(outpipe) != null ==>
        var told := if old(state) == P.Pending then [] else [P.PipeTerm];
        && outpipe == old(outpipe) && old(sent) + told <= sent && outpipe.View().partial == []
        && Published(old(outpipe.View()), outpipe.View(), [P.Delimiter], sent[|old(sent) + told|..])
      ensures old(state) == P.Terminated || old(state) == P.DoubleTerminated || old(state) == P.Terminating ==>
        sent == old(sent) && outpipe == old(outpipe) && (outpipe != null ==> outpipe.View() == old(outpipe.View()))
    {
      hide Contents, Y.Inv, P.PushDelimiter;
      TodoForgotten(P.Terminate(View(), delay).end, OutView());
      var go := StopOutput(delay);
      if go && outpipe != null { PushDelimiter(); }
    }

    /** The first half of `Terminate`; false if there is nothing more to do. */
    method StopOutput(delay: bool) returns (go: bool)
      modifies this
      ensures var e := P.Terminate(old(View()), delay);
        && e.Done? && View() == Woken(e.end) && sent == old(sent) + e.sent && inpipe == old(inpipe)
        && (outpipe == old(outpipe) || outpipe == null) && (go && outpipe != null <==> e.end.todo == P.MustDelimit)
        && (go ==> state != P.Terminating || outpipe == null)
      ensures go <==> old(state) == P.Active || old(state) == P.Delimited || old(state) == P.Pending
      ensures go ==> !outActive
      ensures old(state) == P.Active || old(state) == P.Delimited ==> state == P.Terminated && outpipe == old(outpipe) && sent == old(sent) + [P.PipeTerm]
      ensures old(state) == P.Pending && delay ==> state == P.Pending && outpipe == old(outpipe) && sent == old(sent)
      ensures old(state) == P.Pending && !delay ==> state == P.Terminating && outpipe == null && sent == old(sent) + [P.PipeTermAck]
      ensures !go ==> state == old(state) && outpipe == old(outpipe) && sent == old(sent)
    {
      this.delay := delay;
      if state == P.Terminated || state == P.DoubleTerminated {
        return false;
      } else if state == P.Terminating {
        return false;
      } else if state == P.Active || state == P.Delimited {
        Send(P.PipeTerm);
        state := P.Terminated;
      } else if !delay {
        AckPeer();
        state := P.Terminating;
      }
      outActive := false;
      return true;
    }

    /** The delimiter is written past the watermark. */
    method PushDelimiter()
      requires Valid() && outpipe != null && state != P.Terminating && P.PushDelimiter(View(), outpipe.View()).Some?
      modifies `sent, outpipe
      ensures Valid()
      ensures var (e, q) := P.PushDelimiter(old(View()), old(outpipe.View())).value;
        outpipe.View() == q && View() == Woken(e) && sent == old(sent) + WakeUp(e)
      ensures |old(sent)| <= |sent| && Published(old(outpipe.View()), outpipe.View(), [P.Delimiter], sent[|old(sent)|..]) && outpipe.View().partial == []
    {
      Rollback();
      outpipe.Write(P.Delimiter, false);
      if state != P.Terminating {
        var awake := outpipe.Flush();
        if !awake { Send(P.ActivateRead); }
      }
    }

    /** `id` names the new inbound queue; the old one is left to the peer. */
    method Hiccup(id: nat)
      requires Valid()
      modifies this
      ensures Valid() && outpipe == old(outpipe)
      ensures old(state) != P.Active ==> View() == old(View()) && sent == old(sent) && inpipe == old(inpipe)
      ensures old(state) == P.Active ==> fresh(inpipe) && inpipe.View() == Fresh() && sent == old(sent) + [P.Hiccup(id)]
      ensures old(state) == P.Active ==> View() == old(View()).(inpipe := id, inActive := true)
    {
      if state != P.Active { return; }
      inpipe := new YPipe(id);
      inActive := true;
      Send(P.Hiccup(id));
    }

    method ProcessActivateRead()
      modifies `inActive
      ensures View() == P.ProcessActivateRead(old(View()))
      ensures inActive == (old(inActive) || state == P.Active || state == P.Pending)
    {
      if !inActive && (state == P.Active || state == P.Pending) { inActive := true; }
    }

    method ProcessActivateWrite(msgsRead: nat)
      modifies `peersMsgsRead, `outActive
      ensures View() == P.ProcessActivateWrite(old(View()), msgsRead)
      ensures peersMsgsRead == msgsRead && outActive == (old(outActive) || state == P.Active)
    {
      peersMsgsRead := msgsRead;
      if !outActive && state == P.Active { outActive := true; }
    }

    /** The old outbound queue is emptied before it is dropped. */
    method ProcessHiccup(pipe: YPipe<P.Msg>)
      requires Valid() && outpipe != null && pipe.Valid() && pipe != inpipe && pipe != outpipe
      modifies this, outpipe
      ensures Valid() && View() == P.ProcessHiccup(old(View()), pipe.id)
      ensures outpipe == pipe && outActive && inpipe == old(inpipe) && sent == old(sent)
      ensures old(outpipe).Valid() && old(outpipe).View().flushed == [] && old(outpipe).View().ready == []
    {
      var awake := outpipe.Flush();
      outpipe.Drain();
      outpipe := pipe;
      outActive := true;
    }

    method ProcessPipeTerm()
      requires P.ProcessPipeTerm(View()).Done?
      modifies this
      ensures Did(P.ProcessPipeTerm(old(View())))
      ensures state == (if old(state) == P.Active && delay then P.Pending else if old(state) == P.Terminated then P.DoubleTerminated else P.Terminating)
      ensures if state == P.Pending then outpipe == old(outpipe) && sent == old(sent) else outpipe == null && sent == old(sent) + [P.PipeTermAck]
    {
      if state == P.Active {
        if !delay {
          state := P.Terminating;
          AckPeer();
          return;
        } else {
          state := P.Pending;
          return;
        }
      }
      if state == P.Delimited {
        state := P.Terminating;
        AckPeer();
        return;
      }
      assert state == P.Terminated;
      state := P.DoubleTerminated;
      AckPeer();
    }

    /** The end vanishes, with all that is left in its inbound queue. */
    method ProcessPipeTermAck()
      requires Valid() && P.ProcessPipeTermAck(View()).Done?
      modifies this, inpipe
      ensures Did(P.ProcessPipeTermAck(old(View()))) && !alive
      ensures sent == old(sent) + if old(state) == P.Terminated then [P.PipeTermAck] else []
      ensures inpipe.Valid() && inpipe.View().flushed == []
    {
      hide Contents, Y.Inv;
      if state == P.Terminated {
        AckPeer();
      } else {
        assert state == P.Terminating || state == P.DoubleTerminated;
      }
      inpipe.Drain();
      alive := false;
    }
  }

  /** Two ends crosswise on two queues: the first high watermark is for what the first
      end sends. */
  method Pipepair(hwm0: nat, hwm1: nat, delay0: bool, delay1: bool) returns (a: Pipe, b: Pipe)
    ensures a.Valid() && b.Valid() && fresh(a) && fresh(b) && a != b
    ensures a.inpipe == b.outpipe && b.inpipe == a.outpipe && a.inpipe.View() == b.inpipe.View() == Fresh()
    ensures var s := PipePair.Init(hwm0, hwm1, delay0, delay1); a.View() == s.me && b.View() == s.peer
    ensures a.hwm == hwm0 && b.hwm == hwm1 && a.delay == delay0 && b.delay == delay1
    ensures if hwm1 > 2048 then a.lwm == hwm1 - 1024 else hwm1 <= 2 * a.lwm <= hwm1 + 1
    ensures if hwm0 > 2048 then b.lwm == hwm0 - 1024 else hwm0 <= 2 * b.lwm <= hwm0 + 1
  {
    var q0 := new YPipe<P.Msg>(0);
    var q1 := new YPipe<P.Msg>(1);
    a := new Pipe(q0, q1, hwm1, hwm0, delay0);
    b := new Pipe(q1, q0, hwm0, hwm1, delay1);
  }
}
