/** The command mailbox: any number of senders, one receiver, a lock-free pipe and an
    eventfd counter. Every action another thread can see is a step of its own. */
module Mailbox {
  import opened Options
  import opened UPipe
  import Y = YPipe

  /** Where the sender that holds the lock stands. */
  datatype Lock = Free | Written

  /** Where the receiver stands inside `mailbox_recv`; `Out` is outside of it. */
  datatype At = Out | Reading | TakeSignal | PutBack | Waiting | MustRead

  /** `signals` is the eventfd counter, `unsent` the number of senders that have left
      the lock with a failed flush and not signalled yet. */
  datatype State<C> = State(
    pipe: Y.State<C>, lock: Lock, unsent: nat, signals: nat, active: bool, at: At)

  datatype Step<C> =
    | SendWrite(cmd: C)
    | SendCas
    | SendSet
    | SendSignal
    | RecvStart
    | RecvCheck
    | RecvPop
    | RecvTake
    | RecvPutBack
    | RecvWait
    | RecvGiveUp

  /** `mailbox_init`: the first read fails and puts the pipe to sleep. */
  function Init<C>(): State<C> {
    State(Y.Next(Y.Init(), Y.Check), Free, 0, 0, false, Out)
  }

  predicate Enabled<C>(s: State<C>, step: Step<C>) {
    match step
    case SendWrite(_) => s.lock == Free
    case SendCas => s.lock == Written && s.pipe.wAt == Y.WIdle
    case SendSet => s.lock == Written && s.pipe.wAt == Y.Failed
    case SendSignal => s.unsent > 0
    case RecvStart => s.at == Out
    case RecvCheck => (s.at == Reading || s.at == MustRead) && s.pipe.rAt == Y.RIdle
    case RecvPop => (s.at == Reading || s.at == MustRead) && s.pipe.rAt == Y.Sure
    case RecvTake => s.at == TakeSignal
    case RecvPutBack => s.at == PutBack
    case RecvWait => s.at == Waiting && s.signals > 0
    case RecvGiveUp => s.at == Waiting
  }

  /** `None` is a failed assertion. */
  function Next<C>(s: State<C>, step: Step<C>): Option<State<C>> {
    match step
    case SendWrite(cmd) => Some(s.(pipe := Y.Next(s.pipe, Y.Write(cmd, false)), lock := Written))
    case SendCas =>
      var p := Y.Next(s.pipe, Y.FlushCas);
      Some(s.(pipe := p, lock := if p.wAt == Y.Failed then Written else Free))
    case SendSet => Some(s.(pipe := Y.Next(s.pipe, Y.FlushSet), lock := Free, unsent := s.unsent + 1))
    case SendSignal => if s.unsent == 0 then None else Some(s.(unsent := s.unsent - 1, signals := s.signals + 1))
    case RecvStart => Some(s.(at := if s.active then Reading else Waiting))
    case RecvCheck =>
      var p := Y.Next(s.pipe, Y.Check);
      if p.rAt == Y.Sure then Some(s.(pipe := p))
      else if s.at == MustRead then None
      else Some(s.(pipe := p, active := false, at := TakeSignal))
    case RecvPop =>
      if s.pipe.front >= |s.pipe.log| then None else Some(s.(pipe := Y.Next(s.pipe, Y.Pop), at := Out))
    case RecvTake =>
      // The counter is read and cleared; it must hold one signal or two.
      if s.signals == 2 then Some(s.(signals := 0, at := PutBack))
      else if s.signals == 1 then Some(s.(signals := 0, at := Waiting))
      else None
    case RecvPutBack => Some(s.(signals := s.signals + 1, at := Waiting))
    case RecvWait => Some(s.(active := true, at := MustRead))
    case RecvGiveUp => Some(s.(at := Out))
  }

  function Bit(b: bool): nat {
    if b then 1 else 0
  }

  /** Commands flushed and not yet taken. */
  predicate HasMail<C>(s: State<C>) {
    s.pipe.front < s.pipe.w
  }

  ghost predicate Inv<C>(s: State<C>) {
    && Y.Inv(s.pipe)
    && (s.pipe.wAt == Y.Failed ==> s.lock == Written)
    && (s.lock == Free ==> s.pipe.w == s.pipe.f)
    && (s.lock == Written ==> s.pipe.w < s.pipe.f)
    && (s.pipe.rAt == Y.Sure ==> s.at == Reading || s.at == MustRead)
    && (s.active <==> s.at == Reading || s.at == MustRead || (s.at == Out && s.active))
    && (s.active ==> s.signals == 1 && s.unsent == 0 && s.pipe.c.Some?)
    && (!s.active ==> (HasMail(s) <==> s.pipe.c.Some?))
    && (!s.active && (s.at == Out || s.at == Waiting) ==> s.signals + s.unsent == Bit(HasMail(s)))
    && (s.at == TakeSignal ==> !s.active && s.signals >= 1 && s.signals + s.unsent == 1 + Bit(HasMail(s)))
    && (s.at == PutBack ==> !s.active && s.signals == 0 && s.unsent == 0 && HasMail(s))
    && (s.at == MustRead ==> HasMail(s))
  }

  lemma InitInv<C>()
    ensures Inv(Init<C>())
  {
  }

  lemma SenderInv<C>(s: State<C>, step: Step<C>)
    requires Inv(s) && Enabled(s, step) && (step.SendWrite? || step == SendCas || step == SendSet || step == SendSignal)
    ensures Next(s, step).Some? && Inv(Next(s, step).value)
  {
    match step {
      case SendWrite(cmd) => Y.NextInv(s.pipe, Y.Write(cmd, false));
      case SendCas => Y.NextInv(s.pipe, Y.FlushCas);
      case SendSet => Y.NextInv(s.pipe, Y.FlushSet);
      case SendSignal =>
    }
  }

  lemma ReaderInv<C>(s: State<C>, step: Step<C>)
    requires Inv(s) && Enabled(s, step) && (step == RecvCheck || step == RecvPop)
    ensures Next(s, step).Some? && Inv(Next(s, step).value)
  {
    Y.NextInv(s.pipe, if step == RecvCheck then Y.Check else Y.Pop);
  }

  /** No assertion fails: the counter read finds one signal or two, and the read
      after a successful wait finds a command. */
  lemma NextInv<C>(s: State<C>, step: Step<C>)
    requires Inv(s) && Enabled(s, step)
    ensures Next(s, step).Some? && Inv(Next(s, step).value)
  {
    if step.SendWrite? || step == SendCas || step == SendSet || step == SendSignal {
      SenderInv(s, step);
    } else if step == RecvCheck || step == RecvPop {
      ReaderInv(s, step);
    }
  }

  function Run<C>(s: State<C>, steps: seq<Step<C>>): Option<State<C>>
    decreases |steps|
  {
    if steps == [] then Some(s)
    else if !Enabled(s, steps[0]) then Run(s, steps[1..])
    else
      match Next(s, steps[0])
      case None => None
      case Some(t) => Run(t, steps[1..])
  }

  /** In every interleaving of the senders with the receiver, from a new mailbox on:
      a receiver that does not hold a signal has commands waiting exactly when one
      signal is there or about to be sent, and there are never more than two. */
  lemma {:induction false} NoLostWakeup<C>(s: State<C>, steps: seq<Step<C>>)
    requires Inv(s)
    ensures Run(s, steps).Some? && Inv(Run(s, steps).value)
    ensures var t := Run(s, steps).value;
      && (!t.active && (t.at == Out || t.at == Waiting) ==> t.signals + t.unsent == Bit(HasMail(t)))
      && t.signals + t.unsent <= 2
    decreases |steps|
  {
    if steps != [] {
      if Enabled(s, steps[0]) {
        NextInv(s, steps[0]);
        NoLostWakeup(Next(s, steps[0]).value, steps[1..]);
      } else {
        NoLostWakeup(s, steps[1..]);
      }
    }
  }

  // ---- Conservation of commands ----

  function Commands<C>(items: seq<Y.Item<C>>): seq<C> {
    if items == [] then [] else [items[0].value] + Commands(items[1..])
  }

  /** Commands written and not yet taken, flushed or not, oldest first. */
  function Mail<C>(s: State<C>): seq<C>
    requires Inv(s)
  {
    Commands(s.pipe.log[s.pipe.front..])
  }

  function SentBy<C>(step: Step<C>): seq<C> {
    if step.SendWrite? then [step.cmd] else []
  }

  function TakenBy<C>(s: State<C>, step: Step<C>): seq<C> {
    if step.RecvPop? && s.pipe.front < |s.pipe.log| then [s.pipe.log[s.pipe.front].value] else []
  }

  /** The commands sent and the commands received during a run. */
  function Traffic<C>(s: State<C>, steps: seq<Step<C>>): (seq<C>, seq<C>)
    decreases |steps|
  {
    if steps == [] then ([], [])
    else if !Enabled(s, steps[0]) then Traffic(s, steps[1..])
    else
      match Next(s, steps[0])
      case None => ([], [])
      case Some(t) =>
        var (sent, got) := Traffic(t, steps[1..]);
        (SentBy(steps[0]) + sent, TakenBy(s, steps[0]) + got)
  }

  lemma {:induction false} CommandsAppend<C>(items: seq<Y.Item<C>>, x: Y.Item<C>)
    ensures Commands(items + [x]) == Commands(items) + [x.value]
  {
    if items == [] {
      assert items + [x] == [x];
    } else {
      assert (items + [x])[1..] == items[1..] + [x];
      CommandsAppend(items[1..], x);
    }
  }

  lemma StepMail<C>(s: State<C>, step: Step<C>)
    requires Inv(s) && Enabled(s, step) && Next(s, step).Some? && Inv(Next(s, step).value)
    ensures Mail(s) + SentBy(step) == TakenBy(s, step) + Mail(Next(s, step).value)
  {
    var t := Next(s, step).value;
    var before, after := s.pipe.log[s.pipe.front..], t.pipe.log[t.pipe.front..];
    if step.SendWrite? {
      assert after == before + [Y.Item(step.cmd, false)];
      CommandsAppend(before, Y.Item(step.cmd, false));
    } else if step.RecvPop? {
      assert before[1..] == after;
    } else {
      SilentStep(s, step);
    }
  }

  lemma SilentStep<C>(s: State<C>, step: Step<C>)
    requires Next(s, step).Some? && !step.SendWrite? && !step.RecvPop?
    ensures Next(s, step).value.pipe.log == s.pipe.log && Next(s, step).value.pipe.front == s.pipe.front
  {
  }

  lemma Splice<C>(a: seq<C>, x: seq<C>, y: seq<C>, b: seq<C>, sent: seq<C>, got: seq<C>, end: seq<C>)
    requires a + x == y + b && b + sent == got + end
    ensures a + (x + sent) == (y + got) + end
  {
    calc {
      a + (x + sent);
      (a + x) + sent;
      y + b + sent;
      y + (b + sent);
      y + (got + end);
      (y + got) + end;
    }
  }

  /** Commands are received in the order the senders got the lock, none lost, none
      twice: what was there and what was sent is what was received and what is left. */
  lemma {:induction false} CommandsConserved<C>(s: State<C>, steps: seq<Step<C>>)
    requires Inv(s)
    ensures Run(s, steps).Some? && Inv(Run(s, steps).value)
    ensures var (sent, got) := Traffic(s, steps); Mail(s) + sent == got + Mail(Run(s, steps).value)
    decreases |steps|
  {
    if steps != [] {
      if Enabled(s, steps[0]) {
        NextInv(s, steps[0]);
        StepMail(s, steps[0]);
        var t := Next(s, steps[0]).value;
        CommandsConserved(t, steps[1..]);
        var (sent, got) := Traffic(t, steps[1..]);
        Splice(Mail(s), SentBy(steps[0]), TakenBy(s, steps[0]), Mail(t), sent, got, Mail(Run(t, steps[1..]).value));
      } else {
        CommandsConserved(s, steps[1..]);
      }
    }
  }

  lemma NewPipe<C>()
    ensures Init<C>().pipe.log == [] && Init<C>().pipe.front == 0
  {
  }

  lemma NoMail<C>()
    ensures Inv(Init<C>()) && Mail(Init<C>()) == []
  {
    hide Init, Inv;
    InitInv<C>();
    NewPipe<C>();
  }

  /** From a new mailbox on, with any number of senders. */
  lemma EveryMailbox<C>(steps: seq<Step<C>>)
    ensures Run(Init<C>(), steps).Some?
    ensures var t := Run(Init<C>(), steps).value; var (sent, got) := Traffic(Init<C>(), steps);
      && Inv(t) && sent == got + Mail(t) && t.signals + t.unsent <= 2
      && (!t.active && (t.at == Out || t.at == Waiting) ==> t.signals + t.unsent == Bit(HasMail(t)))
  {
    hide Init, Inv, Mail, Run, Traffic;
    NoMail<C>();
    NoLostWakeup(Init<C>(), steps);
    CommandsConserved(Init<C>(), steps);
    assert [] + Traffic(Init<C>(), steps).0 == Traffic(Init<C>(), steps).0;
  }
}
