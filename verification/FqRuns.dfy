/** Fair queueing over whole runs: messages arrive whole, are handed out whole and in
    order, and no pipe starves; and where that ends. */
module FqRuns {
  import opened Options
  import D = Dist
  import opened Fq

  type Pipe = nat
  datatype Part = Part(id: nat, more: bool)
  datatype Delivery = Delivery(pipe: Pipe, part: Part)

  /** `queue` holds what lies in each attached pipe, `sent` all that ever arrived on it,
      `got` all that was handed out. A pipe in `closed` cannot be read any more, whatever
      lies in it. */
  datatype World = World(
    f: Robin<Pipe>, queue: map<Pipe, seq<Part>>, sent: map<Pipe, seq<Part>>, closed: set<Pipe>, got: seq<Delivery>)

  const START := World(Robin([], 0, 0, false), map[], map[], {}, [])

  datatype Op =
    | AttachOp(p: Pipe)
    | ActivatedOp(i: nat)
    | ArriveOp(p: Pipe, msg: seq<Part>)
    | CloseOp(p: Pipe)
    | TerminatedOp(i: nat)
    | RecvOp
    | HasInOp

  /** Ends between messages. */
  predicate Ended(s: seq<Part>) {
    s == [] || !s[|s| - 1].more
  }

  /** A pipe is attached once and activated when passive; its peer flushes whole
      messages only. */
  predicate Legal(w: World, op: Op)
    requires Bounded(w.f)
  {
    match op
    case AttachOp(p) => p !in w.sent && p !in w.queue
    case ActivatedOp(i) => w.f.active <= i < |w.f.pipes|
    case ArriveOp(p, msg) => p in w.queue && p in w.sent && Ended(msg)
    case CloseOp(p) => p in w.queue
    case TerminatedOp(i) => i < |w.f.pipes|
    case RecvOp => true
    case HasInOp => true
  }

  /** The pipes whose `read` succeeds. */
  function Ready(w: World): set<Pipe> {
    set p | p in w.queue && w.queue[p] != [] && p !in w.closed
  }

  /** In mid-message `recvpipe` asserts that the current pipe can be read. */
  predicate Aborts(w: World)
    requires Bounded(w.f)
  {
    w.f.more && w.f.active > 0 && w.f.pipes[w.f.current] !in Ready(w)
  }

  function Recv(w: World): (r: Option<World>)
    requires Bounded(w.f)
    ensures r.Some? ==> Bounded(r.value.f)
  {
    var g := Scan(w.f, Ready(w));
    if Aborts(w) then None
    else if g.active == 0 then Some(w.(f := g))
    else
      var p := g.pipes[g.current];
      var part := w.queue[p][0];
      Some(w.(f := Served(g, part.more), queue := w.queue[p := w.queue[p][1..]], got := w.got + [Delivery(p, part)]))
  }

  function HasIn(w: World): (World, bool)
    requires Bounded(w.f)
  {
    if w.f.more then (w, true)
    else
      var g := Scan(w.f, Ready(w));
      (w.(f := g), g.active > 0)
  }

  /** None is the failed assertion. */
  function Step(w: World, op: Op): (r: Option<World>)
    requires Bounded(w.f) && Legal(w, op)
    ensures r.Some? ==> Bounded(r.value.f)
  {
    match op
    case AttachOp(p) => Some(w.(f := Attach(w.f, p), queue := w.queue[p := []], sent := w.sent[p := []]))
    case ActivatedOp(i) => Some(w.(f := Activated(w.f, i)))
    case ArriveOp(p, msg) => Some(w.(queue := w.queue[p := w.queue[p] + msg], sent := w.sent[p := w.sent[p] + msg]))
    case CloseOp(p) => Some(w.(closed := w.closed + {p}))
    case TerminatedOp(i) => Some(w.(f := Terminated(w.f, i), queue := w.queue - {w.f.pipes[i]}))
    case RecvOp => Recv(w)
    case HasInOp => Some(HasIn(w).0)
  }

  predicate LegalRun(w: World, ops: seq<Op>)
    requires Bounded(w.f)
    decreases |ops|
  {
    ops == [] || (Legal(w, ops[0]) && (Step(w, ops[0]).Some? ==> LegalRun(Step(w, ops[0]).value, ops[1..])))
  }

  function Run(w: World, ops: seq<Op>): (r: Option<World>)
    requires Bounded(w.f) && LegalRun(w, ops)
    ensures r.Some? ==> Bounded(r.value.f)
    decreases |ops|
  {
    if ops == [] then Some(w)
    else
      match Step(w, ops[0])
      case None => None
      case Some(v) => Run(v, ops[1..])
  }

  // ---- The invariant ----

  /** A part that announces more is followed by a part of the same pipe. */
  ghost predicate Unsplit(got: seq<Delivery>) {
    forall k :: 0 <= k < |got| - 1 && got[k].part.more ==> got[k + 1].pipe == got[k].pipe
  }

  function Of(got: seq<Delivery>, p: Pipe): seq<Part> {
    if got == [] then []
    else Of(got[..|got| - 1], p) + if got[|got| - 1].pipe == p then [got[|got| - 1].part] else []
  }

  /** Of every pipe what was handed out and what lies in it is what arrived; of one that
      has left, what was handed out is a beginning of that. */
  ghost predicate Queues(w: World) {
    && w.queue.Keys == AllPipes(w.f) && w.queue.Keys <= w.sent.Keys
    && (forall d :: d in w.got ==> d.pipe in w.sent)
    && (forall p :: p in w.queue ==> Ended(w.queue[p]) && Of(w.got, p) + w.queue[p] == w.sent[p])
    && (forall p :: p in w.sent ==> Of(w.got, p) <= w.sent[p])
  }

  /** Between two parts of a message, the current pipe is the one that is being read and the
      next part lies in it. */
  ghost predicate Midway(w: World)
    requires Bounded(w.f)
  {
    && (w.f.more <==> w.got != [] && w.got[|w.got| - 1].part.more)
    && (w.f.more ==> var p := w.got[|w.got| - 1].pipe;
          w.f.active > 0 && w.f.pipes[w.f.current] == p && p in w.queue && w.queue[p] != [])
  }

  ghost predicate Inv(w: World) {
    Valid(w.f) && Queues(w) && Midway(w) && Unsplit(w.got)
  }

  lemma StartInv()
    ensures Inv(START)
  {
  }

  lemma InPipes(f: Robin<Pipe>, p: Pipe)
    ensures p in AllPipes(f) <==> p in f.pipes
  {
    assert f.pipes[..|f.pipes|] == f.pipes;
  }

  lemma CurrentAttached(f: Robin<Pipe>)
    requires Bounded(f) && f.active > 0
    ensures f.pipes[f.current] in AllPipes(f)
  {
    assert f.pipes[..|f.pipes|][f.current] == f.pipes[f.current];
  }

  lemma {:induction false} OfNobody(got: seq<Delivery>, p: Pipe)
    requires forall d :: d in got ==> d.pipe != p
    ensures Of(got, p) == []
  {
    if got != [] { OfNobody(got[..|got| - 1], p); }
  }

  lemma OfOneMore(got: seq<Delivery>, d: Delivery, p: Pipe)
    ensures Of(got + [d], p) == Of(got, p) + if d.pipe == p then [d.part] else []
  {
    assert (got + [d])[..|got|] == got;
  }

  lemma AttachInv(w: World, p: Pipe)
    requires Inv(w) && Legal(w, AttachOp(p))
    ensures Inv(Step(w, AttachOp(p)).value)
  {
    hide D.Group, D.NoDup;
    InPipes(w.f, p);
    AttachRobin(w.f, p);
    OfNobody(w.got, p);
  }

  lemma ActivatedInv(w: World, i: nat)
    requires Inv(w) && Legal(w, ActivatedOp(i))
    ensures Inv(Step(w, ActivatedOp(i)).value)
  {
    hide D.Group, D.NoDup;
    ActivatedRobin(w.f, i);
  }

  lemma ArriveInv(w: World, p: Pipe, msg: seq<Part>)
    requires Inv(w) && Legal(w, ArriveOp(p, msg))
    ensures Inv(Step(w, ArriveOp(p, msg)).value)
  {
    hide D.Group, D.NoDup, Of, Unsplit;
    Joined(Of(w.got, p), w.queue[p], msg);
  }

  lemma Joined(a: seq<Part>, b: seq<Part>, c: seq<Part>)
    ensures a + (b + c) == a + b + c && a <= a + b + c
  {
  }

  /** The fair queue loses track of a half-read message. */
  predicate Deserts(w: World, op: Op) {
    op.TerminatedOp? && w.f.more && Unseats(w.f, op.i)
  }

  /** Removal leaves the queues of the others alone. */
  lemma LeaverQueues(w: World, i: nat)
    requires Inv(w) && i < |w.f.pipes|
    ensures var v := Step(w, TerminatedOp(i)).value; Valid(v.f) && Queues(v)
  {
    hide D.Group, D.NoDup, Of;
    TerminatedAll(w.f, i);
  }

  /** In mid-message, removal keeps the invariant exactly if it does not unseat the current
      pipe. */
  lemma TerminatedInvIff(w: World, i: nat)
    requires Inv(w) && Legal(w, TerminatedOp(i))
    ensures Inv(Step(w, TerminatedOp(i)).value) <==> !Deserts(w, TerminatedOp(i))
  {
    LeaverQueues(w, i);
    if w.f.more { TerminatedUnseatsIff(w.f, i); }
    hide D.Group, Queues, Unsplit;
  }

  lemma HasInInv(w: World)
    requires Inv(w)
    ensures Inv(HasIn(w).0)
  {
    hide D.Group, D.NoDup, Scan;
    ScanGroups(w.f, Ready(w));
  }

  /** The part that `recv` hands out, and where it leaves the queues. */
  lemma TakeQueues(w: World, g: Robin<Pipe>)
    requires Queues(w) && Valid(g) && AllPipes(g) == AllPipes(w.f) && g.active > 0 && g.pipes[g.current] in Ready(w)
    ensures var p := g.pipes[g.current]; var part := w.queue[p][0];
      && Queues(World(Served(g, part.more), w.queue[p := w.queue[p][1..]], w.sent, w.closed, w.got + [Delivery(p, part)]))
      && (part.more ==> w.queue[p][1..] != [])
  {
    hide D.Group, D.NoDup;
    var p := g.pipes[g.current];
    var d := Delivery(p, w.queue[p][0]);
    CurrentAttached(g);
    forall q { OfOneMore(w.got, d, q); }
    assert w.queue[p] == [d.part] + w.queue[p][1..];
    assert Of(w.got, p) + [d.part] + w.queue[p][1..] == Of(w.got, p) + w.queue[p];
  }

  /** In mid-message the scan stops at once. */
  lemma RecvInv(w: World)
    requires Inv(w) && Recv(w).Some?
    ensures Inv(Recv(w).value)
  {
    hide D.Group, D.NoDup, Of, Queues;
    var g := Scan(w.f, Ready(w));
    ScanGroups(w.f, Ready(w));
    if g.active > 0 { TakeQueues(w, g); } else { SameQueues(w, g); }
  }

  lemma SameQueues(w: World, g: Robin<Pipe>)
    requires Queues(w) && AllPipes(g) == AllPipes(w.f)
    ensures Queues(w.(f := g))
  {
    hide D.Group;
  }

  lemma StepInv(w: World, op: Op)
    requires Inv(w) && Legal(w, op) && !Deserts(w, op) && Step(w, op).Some?
    ensures Inv(Step(w, op).value)
  {
    hide Recv, HasIn, D.NoDup, D.Group;
    match op
    case AttachOp(p) => AttachInv(w, p);
    case ActivatedOp(i) => ActivatedInv(w, i);
    case ArriveOp(p, msg) => ArriveInv(w, p, msg);
    case CloseOp(p) =>
    case TerminatedOp(i) => TerminatedInvIff(w, i);
    case RecvOp => RecvInv(w);
    case HasInOp => HasInInv(w);
  }

  // ---- Runs ----

  /** No removal in mid-message unseats the current pipe. */
  predicate Loyal(w: World, ops: seq<Op>)
    requires Bounded(w.f) && LegalRun(w, ops)
    decreases |ops|
  {
    ops == [] || (!Deserts(w, ops[0]) && (Step(w, ops[0]).Some? ==> Loyal(Step(w, ops[0]).value, ops[1..])))
  }

  lemma {:induction false} RunInv(w: World, ops: seq<Op>)
    requires Inv(w) && LegalRun(w, ops) && Loyal(w, ops) && Run(w, ops).Some?
    ensures Inv(Run(w, ops).value)
    decreases |ops|
  {
    hide Queues, Midway, Unsplit, D.NoDup, Step, Deserts;
    if ops != [] {
      StepInv(w, ops[0]);
      RunInv(Step(w, ops[0]).value, ops[1..]);
    }
  }

  /** In every run: no message is split, and each pipe's parts come out in the order they
      arrived with nothing lost or doubled. */
  lemma RunsInOrder(ops: seq<Op>)
    requires LegalRun(START, ops) && Loyal(START, ops) && Run(START, ops).Some?
    ensures var w := Run(START, ops).value;
      && Unsplit(w.got)
      && (forall p :: p in w.queue ==> p in w.sent && Of(w.got, p) + w.queue[p] == w.sent[p])
      && (forall p :: p in w.sent ==> Of(w.got, p) <= w.sent[p])
  {
    StartInv();
    RunInv(START, ops);
  }

  // ---- When the assertion fails ----

  /** After `op`: the pipe of a half-read message stopped being readable since its last part
      was handed out (`cut`, before). */
  predicate CutNow(w: World, op: Op, cut: bool) {
    match op
    case RecvOp => false
    case CloseOp(p) => cut || (w.f.more && w.got != [] && w.got[|w.got| - 1].pipe == p)
    case _ => cut
  }

  predicate Cut(w: World, ops: seq<Op>, cut: bool)
    requires Bounded(w.f) && LegalRun(w, ops)
    decreases |ops|
  {
    if ops == [] then cut
    else
      match Step(w, ops[0])
      case None => cut
      case Some(v) => Cut(v, ops[1..], CutNow(w, ops[0], cut))
  }

  /** The history agrees with the state. */
  ghost predicate CutInv(w: World, cut: bool) {
    Inv(w) && (cut <==> w.f.more && w.got[|w.got| - 1].pipe in w.closed)
  }

  lemma RecvCut(w: World, cut: bool)
    requires CutInv(w, cut)
    ensures Recv(w).None? <==> cut
    ensures Recv(w).Some? ==> CutInv(Recv(w).value, false)
  {
    if Recv(w).Some? {
      RecvInv(w);
      hide D.Group, D.NoDup, Queues;
      ScanGroups(w.f, Ready(w));
    }
  }

  lemma StepCut(w: World, op: Op, cut: bool)
    requires CutInv(w, cut) && Legal(w, op) && !Deserts(w, op)
    ensures Step(w, op).None? <==> op == RecvOp && cut
    ensures Step(w, op).Some? ==> CutInv(Step(w, op).value, CutNow(w, op, cut))
  {
    hide D.NoDup, Queues, Unsplit, Recv, HasIn, D.Group;
    if op == RecvOp {
      RecvCut(w, cut);
    } else {
      StepInv(w, op);
      OthersKeepGot(w, op);
    }
  }

  lemma OthersKeepGot(w: World, op: Op)
    requires Bounded(w.f) && Legal(w, op) && op != RecvOp
    ensures Step(w, op).Some? && (var v := Step(w, op).value;
      v.got == w.got && v.f.more == w.f.more && v.closed == w.closed + if op.CloseOp? then {op.p} else {})
  {
  }

  lemma {:induction false} RunCut(w: World, ops: seq<Op>, cut: bool)
    requires CutInv(w, cut) && LegalRun(w, ops) && Loyal(w, ops)
    ensures Run(w, ops).Some? ==> CutInv(Run(w, ops).value, Cut(w, ops, cut))
    decreases |ops|
  {
    hide Queues, Midway, Unsplit, D.NoDup, Step, Deserts, CutNow;
    if ops != [] {
      StepCut(w, ops[0], cut);
      if Step(w, ops[0]).Some? {
        RunCut(Step(w, ops[0]).value, ops[1..], CutNow(w, ops[0], cut));
      }
    }
  }

  /** After every run: a `recv` fails its assertion if and only if the pipe of the half-read
      message stopped being readable after its last part was handed out. */
  lemma AbortsIffCut(ops: seq<Op>)
    requires LegalRun(START, ops) && Loyal(START, ops) && Run(START, ops).Some?
    ensures Step(Run(START, ops).value, RecvOp).None? <==> Cut(START, ops, false)
  {
    StartInv();
    RunCut(START, ops, false);
    RecvCut(Run(START, ops).value, Cut(START, ops, false));
  }

  /** Some `recv` of the run comes after such a cut. */
  predicate Fatal(w: World, ops: seq<Op>, cut: bool)
    requires Bounded(w.f) && LegalRun(w, ops)
    decreases |ops|
  {
    ops != [] &&
    match Step(w, ops[0])
    case None => ops[0] == RecvOp && cut
    case Some(v) => (ops[0] == RecvOp && cut) || Fatal(v, ops[1..], CutNow(w, ops[0], cut))
  }

  lemma {:induction false} RunFatal(w: World, ops: seq<Op>, cut: bool)
    requires CutInv(w, cut) && LegalRun(w, ops) && Loyal(w, ops)
    ensures Run(w, ops).None? <==> Fatal(w, ops, cut)
    decreases |ops|
  {
    hide Queues, Midway, Unsplit, D.NoDup, Step, Deserts, CutNow;
    if ops != [] {
      StepCut(w, ops[0], cut);
      if Step(w, ops[0]).Some? {
        RunFatal(Step(w, ops[0]).value, ops[1..], CutNow(w, ops[0], cut));
      }
    }
  }

  /** So a run fails an assertion if and only if some `recv` in it comes after a cut. */
  lemma RunAbortsIff(ops: seq<Op>)
    requires LegalRun(START, ops) && Loyal(START, ops)
    ensures Run(START, ops).None? <==> Fatal(START, ops, false)
  {
    StartInv();
    RunFatal(START, ops, false);
  }

  /** Pipes 1 and 2 with a message each, of which pipe 1's has two parts. */
  const OPENING := [AttachOp(1), AttachOp(2), ArriveOp(1, [Part(0, true), Part(1, false)]), ArriveOp(2, [Part(2, false)])]

  function Opened(): World {
    var all := map[1 := [Part(0, true), Part(1, false)], 2 := [Part(2, false)]];
    World(Robin([1, 2], 2, 0, false), all, all, {}, [])
  }

  lemma OpeningRun(rest: seq<Op>)
    requires LegalRun(Opened(), rest)
    ensures LegalRun(START, OPENING + rest) && Run(START, OPENING + rest) == Run(Opened(), rest)
    ensures Loyal(Opened(), rest) ==> Loyal(START, OPENING + rest)
  {
    var none: Robin<Pipe> := Robin([], 0, 0, false);
    assert Attach(none, 1) == Robin([1], 1, 0, false);
    assert Attach(Robin([1], 1, 0, false), 2) == Robin([1, 2], 2, 0, false);
    var a, b := [Part(0, true), Part(1, false)], [Part(2, false)];
    var q1: map<Pipe, seq<Part>> := map[1 := []];
    var w1 := World(Robin([1], 1, 0, false), q1, q1, {}, []);
    assert START.queue[1 := []] == q1;
    assert Step(START, OPENING[0]) == Some(w1);
    var q2: map<Pipe, seq<Part>> := map[1 := [], 2 := []];
    var w2 := World(Robin([1, 2], 2, 0, false), q2, q2, {}, []);
    assert q1[2 := []] == q2;
    assert Step(w1, OPENING[1]) == Some(w2);
    var q3 := q2[1 := a];
    var w3 := w2.(queue := q3, sent := q3);
    assert q2[1] + a == a;
    assert Step(w2, OPENING[2]) == Some(w3);
    assert q3[2] + b == b && q3[2 := b] == Opened().queue;
    assert Step(w3, OPENING[3]) == Some(Opened());
    RunCons(w3, OPENING[3], rest);
    RunCons(w2, OPENING[2], [OPENING[3]] + rest);
    RunCons(w1, OPENING[1], [OPENING[2]] + ([OPENING[3]] + rest));
    RunCons(START, OPENING[0], [OPENING[1]] + ([OPENING[2]] + ([OPENING[3]] + rest)));
    assert OPENING + rest == [OPENING[0]] + ([OPENING[1]] + ([OPENING[2]] + ([OPENING[3]] + rest)));
  }

  /** After the first part of pipe 1's message. */
  function HalfRead(): World {
    var w := Opened();
    w.(f := Robin([1, 2], 2, 0, true), queue := map[1 := [Part(1, false)], 2 := [Part(2, false)]], got := [Delivery(1, Part(0, true))])
  }

  lemma FirstPart()
    ensures Step(Opened(), RecvOp) == Some(HalfRead())
  {
    var w, v := Opened(), HalfRead();
    assert 1 in Ready(w) && w.queue[1][1..] == [Part(1, false)];
    assert w.queue[1 := [Part(1, false)]] == v.queue;
    assert w.got + [Delivery(1, Part(0, true))] == v.got;
  }

  /** A pipe closed between the two parts of its message. */
  lemma CloseAborts()
    ensures var ops := OPENING + [RecvOp, CloseOp(1), RecvOp]; LegalRun(START, ops) && Loyal(START, ops) && Run(START, ops).None?
  {
    FirstPart();
    RunTwo(HalfRead(), CloseOp(1), RecvOp);
    RunCons(Opened(), RecvOp, [CloseOp(1), RecvOp]);
    assert [RecvOp] + [CloseOp(1), RecvOp] == [RecvOp, CloseOp(1), RecvOp];
    OpeningRun([RecvOp, CloseOp(1), RecvOp]);
  }

  lemma RunCons(w: World, op: Op, rest: seq<Op>)
    requires Bounded(w.f) && Legal(w, op) && Step(w, op).Some? && LegalRun(Step(w, op).value, rest)
    ensures LegalRun(w, [op] + rest) && Run(w, [op] + rest) == Run(Step(w, op).value, rest)
    ensures !Deserts(w, op) && Loyal(Step(w, op).value, rest) ==> Loyal(w, [op] + rest)
  {
    assert ([op] + rest)[1..] == rest;
  }

  lemma RunTwo(w: World, a: Op, b: Op)
    requires Bounded(w.f) && Legal(w, a) && Step(w, a).Some? && Legal(Step(w, a).value, b)
    ensures LegalRun(w, [a, b]) && Run(w, [a, b]) == Step(Step(w, a).value, b)
    ensures !Deserts(w, a) && !Deserts(Step(w, a).value, b) ==> Loyal(w, [a, b])
  {
    RunOne(Step(w, a).value, b);
    RunCons(w, a, [b]);
    assert [a] + [b] == [a, b];
  }

  lemma RunOne(w: World, op: Op)
    requires Bounded(w.f) && Legal(w, op)
    ensures LegalRun(w, [op]) && Run(w, [op]) == Step(w, op) && (!Deserts(w, op) ==> Loyal(w, [op]))
  {
    assert [op][1..] == [];
  }

  // ---- Removal in mid-message ----

  /** From every reachable state in mid-message: a removal and then a part handed out split
      the message if and only if the removal unseats the current pipe. */
  lemma SplitsIff(w: World, i: nat)
    requires Inv(w) && w.f.more && Legal(w, TerminatedOp(i))
    requires Recv(Step(w, TerminatedOp(i)).value).Some?
    ensures var v := Recv(Step(w, TerminatedOp(i)).value).value;
      v.got != w.got ==> (Unsplit(v.got) <==> !Unseats(w.f, i))
  {
    var u := Step(w, TerminatedOp(i)).value;
    TerminatedUnseatsIff(w.f, i);
    TerminatedInvIff(w, i);
    if !Unseats(w.f, i) {
      RecvInv(u);
    } else {
      hide D.NoDup, D.Group, Queues, Unseats;
      var v, n := Recv(u).value, |w.got|;
      if v.got != w.got {
        assert v.got[n - 1] == w.got[n - 1] && v.got[n].pipe != w.got[n - 1].pipe;
      }
    }
  }

  /** Pipe 1 leaves between the two parts of its message; the next part is pipe 2's. */
  lemma RemovalSplits()
    ensures var ops := OPENING + [RecvOp, TerminatedOp(0), RecvOp];
      LegalRun(START, ops) && Run(START, ops).Some? && Run(START, ops).value.got == [Delivery(1, Part(0, true)), Delivery(2, Part(2, false))]
  {
    FirstPart();
    var u, v := HalfRead(), Step(HalfRead(), TerminatedOp(0)).value;
    assert [1, 2][0 := 2][..1] == [2];
    assert 2 in Ready(v) && v.queue[2] == [Part(2, false)];
    RunTwo(u, TerminatedOp(0), RecvOp);
    RunCons(Opened(), RecvOp, [TerminatedOp(0), RecvOp]);
    assert [RecvOp] + [TerminatedOp(0), RecvOp] == [RecvOp, TerminatedOp(0), RecvOp];
    OpeningRun([RecvOp, TerminatedOp(0), RecvOp]);
  }

  /** `recv` comes back empty-handed, and `has_in` says no, exactly if no message is half
      read and no active pipe can be read. */
  lemma RecvFailsIff(w: World)
    requires Inv(w)
    ensures Recv(w).Some? && Recv(w).value.got == w.got <==> ActivePipes(w.f) !! Ready(w) && !w.f.more
    ensures HasIn(w).1 <==> w.f.more || !(ActivePipes(w.f) !! Ready(w))
  {
    hide D.Group, D.NoDup, Scan;
    ScanGroups(w.f, Ready(w));
    if w.f.more { CurrentActive(w.f); }
  }

  // ---- No starvation ----

  /** Whole messages handed out. */
  function Finished(got: seq<Delivery>): nat {
    if got == [] then 0 else Finished(got[..|got| - 1]) + if got[|got| - 1].part.more then 0 else 1
  }

  lemma {:induction false} FinishedSum(a: seq<Delivery>, b: seq<Delivery>)
    ensures Finished(a + b) == Finished(a) + Finished(b)
  {
    if b == [] {
      assert a + b == a;
    } else {
      FinishedSum(a, b[..|b| - 1]);
      assert (a + b)[..|a + b| - 1] == a + b[..|b| - 1];
    }
  }

  /** Nothing handed out since `w` finished a message of `p`. */
  ghost predicate Waits(w: World, v: World, p: Pipe) {
    |w.got| <= |v.got| && v.got[..|w.got|] == w.got
    && forall k :: |w.got| <= k < |v.got| && v.got[k].pipe == p ==> v.got[k].part.more
  }

  ghost predicate Waiting(w: World, p: Pipe, k: int) {
    Within(w.f, p, k) && p in Ready(w)
  }

  /** No pipe is removed, and `p` stays readable. */
  predicate Stays(op: Op, p: Pipe) {
    !op.TerminatedOp? && op != CloseOp(p)
  }

  lemma WithinActive(f: Robin<Pipe>, p: Pipe, k: int)
    requires Within(f, p, k)
    ensures Valid(f) && f.active > 0 && k >= 0
  {
  }

  lemma FinishedOne(d: Delivery)
    ensures Finished([d]) == if d.part.more then 0 else 1
  {
    assert [d][..0] == [];
  }

  /** `recv` hands out one part of whatever pipe the scan stopped at. */
  lemma RecvOne(w: World, g: Robin<Pipe>)
    requires Inv(w) && g == Scan(w.f, Ready(w)) && g.active > 0 && Recv(w).Some?
    ensures var q := g.pipes[g.current]; q in Ready(w) && (var part := w.queue[q][0];
      && Recv(w) == Some(World(Served(g, part.more), w.queue[q := w.queue[q][1..]], w.sent, w.closed, w.got + [Delivery(q, part)]))
      && (part.more ==> w.queue[q][1..] != []))
  {
    hide D.Group, D.NoDup, Of, Scan;
    ScanGroups(w.f, Ready(w));
    TakeQueues(w, g);
  }

  lemma RecvWaiting(w: World, p: Pipe, k: int)
    requires Inv(w) && Waiting(w, p, k) && Recv(w).Some? && Waits(w, Recv(w).value, p)
    ensures var v := Recv(w).value; |v.got| == |w.got| + 1 && Waiting(v, p, k - Finished(v.got[|w.got|..]))
  {
    hide Queues, Midway, Unsplit, D.NoDup, Scan, Within, Served, Recv, Finished;
    var g := Scan(w.f, Ready(w));
    ScanWithin(w.f, p, k, Ready(w));
    WithinActive(g, p, k);
    RecvOne(w, g);
    var d := Delivery(g.pipes[g.current], w.queue[g.pipes[g.current]][0]);
    var v := Recv(w).value;
    assert v.got[|w.got|] == d && v.got[|w.got|..] == [d];
    FinishedOne(d);
    ServedWithin(g, p, k, d.part.more);
  }

  /** One step takes `p` closer by the messages it finished, and further by the pipes
      it attached. */
  lemma StepWaiting(w: World, op: Op, p: Pipe, k: int)
    requires Inv(w) && Legal(w, op) && Stays(op, p) && Waiting(w, p, k) && Step(w, op).Some? && Waits(w, Step(w, op).value, p)
    ensures var v := Step(w, op).value;
      Waiting(v, p, k + |v.f.pipes| - |w.f.pipes| - Finished(v.got[|w.got|..]))
  {
    hide Recv, Within, Finished, Scan, D.Group;
    match op {
      case AttachOp(q) =>
        InPipes(w.f, q);
        AttachWithin(w.f, p, k, q);
        NoneFinished(w.got);
      case ActivatedOp(i) => ActivatedWithin(w.f, p, k, i); NoneFinished(w.got);
      case ArriveOp(q, msg) => NoneFinished(w.got);
      case CloseOp(q) => NoneFinished(w.got);
      case RecvOp => RecvWaiting(w, p, k); RecvSize(w);
      case HasInOp => ScanWithin(w.f, p, k, Ready(w)); NoneFinished(w.got);
    }
  }

  lemma NoneFinished(got: seq<Delivery>)
    ensures Finished(got[|got|..]) == 0
  {
  }

  lemma RecvSize(w: World)
    requires Bounded(w.f) && Recv(w).Some?
    ensures |Recv(w).value.f.pipes| == |w.f.pipes|
  {
  }

  lemma WaitsSplit(w: World, u: World, v: World, p: Pipe)
    requires w.got <= u.got <= v.got && Waits(w, v, p)
    ensures Waits(w, u, p) && Waits(u, v, p)
    ensures Finished(v.got[|w.got|..]) == Finished(u.got[|w.got|..]) + Finished(v.got[|u.got|..])
  {
    assert forall k :: |w.got| <= k < |u.got| ==> u.got[k] == v.got[k];
    assert v.got[|w.got|..] == u.got[|w.got|..] + v.got[|u.got|..];
    FinishedSum(u.got[|w.got|..], v.got[|u.got|..]);
  }

  lemma StepGrows(w: World, op: Op)
    requires Bounded(w.f) && Legal(w, op) && Step(w, op).Some?
    ensures w.got <= Step(w, op).value.got
  {
  }

  lemma {:induction false} GotGrows(w: World, ops: seq<Op>)
    requires Bounded(w.f) && LegalRun(w, ops) && Run(w, ops).Some?
    ensures w.got <= Run(w, ops).value.got
    decreases |ops|
  {
    if ops != [] { GotGrows(Step(w, ops[0]).value, ops[1..]); }
  }

  lemma {:induction false} RunWaiting(w: World, ops: seq<Op>, p: Pipe, k: int)
    requires Inv(w) && LegalRun(w, ops) && (forall op :: op in ops ==> Stays(op, p))
    requires Waiting(w, p, k) && Run(w, ops).Some? && Waits(w, Run(w, ops).value, p)
    ensures var v := Run(w, ops).value;
      Waiting(v, p, k + |v.f.pipes| - |w.f.pipes| - Finished(v.got[|w.got|..]))
    decreases |ops|
  {
    hide Queues, Midway, Unsplit, D.NoDup, Waiting, Waits, Finished, Step;
    if ops == [] {
      NoneFinished(w.got);
    } else {
      var u, v := Step(w, ops[0]).value, Run(w, ops).value;
      StepGrows(w, ops[0]);
      GotGrows(u, ops[1..]);
      WaitsSplit(w, u, v, p);
      assert Stays(ops[0], p);
      StepInv(w, ops[0]);
      StepWaiting(w, ops[0], p, k);
      RunWaiting(u, ops[1..], p, k + |u.f.pipes| - |w.f.pipes| - Finished(u.got[|w.got|..]));
    }
  }

  /** From any reachable state on, an active pipe with a message to read sees at most
      n - 1 whole messages of other pipes handed out before its own message is
      finished, n being the pipes attached in the end. */
  lemma NoStarvation(w: World, ops: seq<Op>, p: Pipe)
    requires Inv(w) && LegalRun(w, ops) && (forall op :: op in ops ==> Stays(op, p))
    requires p in ActivePipes(w.f) && p in Ready(w) && Run(w, ops).Some? && Waits(w, Run(w, ops).value, p)
    ensures var v := Run(w, ops).value; Finished(v.got[|w.got|..]) <= |v.f.pipes| - 1
  {
    hide Queues, Midway, Unsplit, D.NoDup, Waits, Finished, LegalRun, Run, Within, Stays, D.Group;
    AnywhereWithin(w.f, p);
    GotGrows(w, ops);
    RunWaiting(w, ops, p, |w.f.pipes| - 1);
    var v := Run(w, ops).value;
    WithinActive(v.f, p, |v.f.pipes| - 1 - Finished(v.got[|w.got|..]));
  }

  lemma AnywhereWithin(f: Robin<Pipe>, p: Pipe)
    requires Valid(f) && p in ActivePipes(f)
    ensures Within(f, p, |f.pipes| - 1)
  {
    var i :| 0 <= i < f.active && f.pipes[..f.active][i] == p;
    assert Behind(f, i) <= |f.pipes| - 1;
  }
}
