/** Multipart atomicity of distribution, over every run: no pipe gets a later part of
    a message whose earlier parts it did not get. */
module DistRuns {
  import opened Dist

  type Pipe = nat

  /** What happened to a pipe when it was tried. */
  datatype Entry = Part(msg: nat, part: nat, last: bool) | Refused

  /** `msg` and `part` number the part to be sent next; `logs` remembers every pipe
      ever attached. */
  datatype World = World(d: Array<Pipe>, logs: map<Pipe, seq<Entry>>, msg: nat, part: nat)

  const START := World(Array([], 0, 0, 0, false), map[], 0, 0)

  datatype Op =
    | AttachOp(p: Pipe)
    | ActivatedOp(p: Pipe)
    | TerminatedOp(p: Pipe)
    | MatchOp(p: Pipe)
    | UnmatchOp
    | SendMatchingOp(open: set<Pipe>, last: bool)
    | SendAllOp(open: set<Pipe>, last: bool)

  /** What the sockets owe: a pipe is attached once, activated when passive, matched
      only between messages; a message begun with `send_to_all` goes on with it. */
  predicate Legal(w: World, op: Op)
    requires Ordered(w.d)
  {
    match op
    case AttachOp(p) => p !in w.logs
    case ActivatedOp(p) => p in AllSet(w.d) - EligibleSet(w.d)
    case TerminatedOp(p) => p in AllSet(w.d)
    case MatchOp(p) => p in AllSet(w.d) && !w.d.more
    case UnmatchOp => !w.d.more
    case SendMatchingOp(_, _) => true
    case SendAllOp(_, _) => w.d.more ==> w.d.matching == w.d.active
  }

  function Index(s: seq<Pipe>, p: Pipe): (i: nat)
    requires p in s
    ensures i < |s| && s[i] == p
  {
    if s[0] == p then 0 else 1 + Index(s[1..], p)
  }

  lemma InAll(d: Array<Pipe>, p: Pipe)
    ensures p in AllSet(d) <==> p in d.pipes
  {
    assert d.pipes[..|d.pipes|] == d.pipes;
  }

  lemma PastGroup(d: Array<Pipe>, p: Pipe)
    requires Ordered(d) && p !in EligibleSet(d) && p in d.pipes
    ensures Index(d.pipes, p) >= d.eligible
  {
    hide Group;
    if Index(d.pipes, p) < d.eligible {
      MemberAt(d.pipes, Index(d.pipes, p), d.eligible);
    }
  }

  lemma MemberAt(s: seq<Pipe>, i: nat, n: nat)
    requires i < n <= |s|
    ensures s[i] in Group(s, n)
  {
    assert s[..n][i] == s[i];
  }

  function Record(logs: map<Pipe, seq<Entry>>, tried: seq<Pipe>, open: set<Pipe>, e: Entry): map<Pipe, seq<Entry>>
    decreases |tried|
  {
    if tried == [] then logs
    else
      var p := tried[0];
      var log := (if p in logs then logs[p] else []) + [if p in open then e else Refused];
      Record(logs[p := log], tried[1..], open, e)
  }

  function Sent(w: World, sent: (Array<Pipe>, seq<Pipe>), open: set<Pipe>, last: bool): World {
    World(sent.0, Record(w.logs, sent.1, open, Part(w.msg, w.part, last)),
          if last then w.msg + 1 else w.msg, if last then 0 else w.part + 1)
  }

  ghost function Step(w: World, op: Op): World
    requires Valid(w.d) && Legal(w, op)
  {
    match op
    case AttachOp(p) => w.(d := Attach(w.d, p), logs := w.logs[p := []])
    case ActivatedOp(p) => InAll(w.d, p); PastGroup(w.d, p); w.(d := Activated(w.d, Index(w.d.pipes, p)))
    case TerminatedOp(p) => InAll(w.d, p); w.(d := Terminated(w.d, Index(w.d.pipes, p)))
    case MatchOp(p) => InAll(w.d, p); w.(d := Match(w.d, Index(w.d.pipes, p)))
    case UnmatchOp => w.(d := Unmatch(w.d))
    case SendMatchingOp(open, last) => Sent(w, SendToMatching(w.d, open, last), open, last)
    case SendAllOp(open, last) => Sent(w, SendToAll(w.d, open, last), open, last)
  }

  // ---- The invariant ----

  /** A later part directly follows the part before it; a first part follows a
      finished message, a refusal, or nothing. */
  predicate Follows(before: seq<Entry>, e: Entry) {
    e.Part? ==>
      if e.part > 0 then before != [] && before[|before| - 1] == Part(e.msg, e.part - 1, false)
      else Closed(before)
  }

  predicate WholeMessages(log: seq<Entry>) {
    log == [] || (WholeMessages(log[..|log| - 1]) && Follows(log[..|log| - 1], log[|log| - 1]))
  }

  predicate Closed(log: seq<Entry>) {
    log == [] || log[|log| - 1].Refused? || log[|log| - 1].last
  }

  predicate Midway(w: World, log: seq<Entry>) {
    w.part > 0 && log != [] && log[|log| - 1] == Part(w.msg, w.part - 1, false)
  }

  ghost predicate Inv(w: World) {
    && Valid(w.d) && AllSet(w.d) <= w.logs.Keys
    && (w.d.more <==> w.part > 0)
    && (forall p :: p in w.logs ==> WholeMessages(w.logs[p]))
    && (forall p :: p in AllSet(w.d) ==>
          if w.d.more && p in MatchingSet(w.d) then Midway(w, w.logs[p]) else Closed(w.logs[p]))
  }

  lemma {:induction false} RecordAt(logs: map<Pipe, seq<Entry>>, tried: seq<Pipe>, open: set<Pipe>, e: Entry)
    requires NoDup(tried) && Elements(tried) <= logs.Keys
    ensures var r := Record(logs, tried, open, e);
      && r.Keys == logs.Keys
      && forall p :: p in logs ==>
           r[p] == logs[p] + if p !in Elements(tried) then [] else if p in open then [e] else [Refused]
    decreases |tried|
  {
    if tried == [] {
      assert forall p :: p in logs ==> logs[p] + [] == logs[p];
    } else {
      var x, rest := tried[0], tried[1..];
      assert x in Elements(tried);
      var log := logs[x] + [if x in open then e else Refused];
      assert Elements(rest) == Elements(tried) - {x};
      RecordAt(logs[x := log], rest, open, e);
      assert log + [] == log;
    }
  }

  lemma ExtendWhole(log: seq<Entry>, e: Entry)
    requires WholeMessages(log) && Follows(log, e)
    ensures WholeMessages(log + [e])
  {
    assert (log + [e])[..|log|] == log;
  }

  // ---- Preservation ----

  /** Regrouping the pipes: between messages anything goes, in the middle of one the
      matching pipes stay the same. A newcomer has an empty log. */
  lemma Regroup(w: World, t: World)
    requires Inv(w) && Valid(t.d) && t.d.more == w.d.more && t.msg == w.msg && t.part == w.part
    requires w.logs.Keys <= t.logs.Keys && AllSet(t.d) <= t.logs.Keys
    requires forall p :: p in t.logs ==> t.logs[p] == if p in w.logs then w.logs[p] else []
    requires forall p :: p in AllSet(t.d) ==> p in AllSet(w.d) || p !in w.logs
    requires w.d.more ==> forall p :: p in AllSet(t.d) ==> (p in MatchingSet(t.d) <==> p in MatchingSet(w.d))
    ensures Inv(t)
  {
    hide Group;
    MatchingInAll(w.d);
  }

  /** Sending the next part to the matching pipes. */
  lemma SendKeeps(w: World, open: set<Pipe>, last: bool)
    requires Inv(w)
    ensures Inv(Sent(w, SendToMatching(w.d, open, last), open, last))
  {
    hide Group, NoDup, Distribute, Record, WholeMessages;
    var (e, tried) := SendToMatching(w.d, open, last);
    SendGroups(w.d, open, last);
    RecordAt(w.logs, tried, open, Part(w.msg, w.part, last));
    var t := Sent(w, (e, tried), open, last);
    forall p | p in w.logs
      ensures WholeMessages(t.logs[p])
      ensures p in AllSet(e) ==> if !last && p in MatchingSet(e) then Midway(t, t.logs[p]) else Closed(t.logs[p])
    {
      LogKeeps(w, p, open, last);
    }
  }

  /** What one pipe's log looks like after a part was sent. */
  lemma LogKeeps(w: World, p: Pipe, open: set<Pipe>, last: bool)
    requires Inv(w) && p in w.logs
    ensures var entry := Part(w.msg, w.part, last); var part := if last then 0 else w.part + 1;
      var log := w.logs[p] + (if p !in MatchingSet(w.d) then [] else if p in open then [entry] else [Refused]);
      && WholeMessages(log)
      && (p in AllSet(w.d) ==>
            if p in MatchingSet(w.d) && p in open then log[|log| - 1] == entry else Closed(log))
  {
    hide Group, NoDup;
    var log := w.logs[p];
    MatchingInAll(w.d);
    if p in MatchingSet(w.d) {
      ExtendWhole(log, if p in open then Part(w.msg, w.part, last) else Refused);
    } else {
      assert log + [] == log;
    }
  }

  lemma StepKeeps(w: World, op: Op)
    requires Inv(w) && Legal(w, op)
    ensures Inv(Step(w, op))
  {
    if op.SendMatchingOp? {
      SendKeeps(w, op.open, op.last);
    } else if op.SendAllOp? {
      MatchingInAll(w.d);
      var u := w.(d := w.d.(matching := w.d.active));
      Regroup(w, u);
      SendKeeps(u, op.open, op.last);
    } else {
      GroupStep(w, op);
      hide Inv;
      Regroup(w, Step(w, op));
    }
  }

  lemma GroupStep(w: World, op: Op)
    requires Inv(w) && Legal(w, op) && !op.SendMatchingOp? && !op.SendAllOp?
    ensures var t := Step(w, op);
      && Valid(t.d) && t.d.more == w.d.more && t.msg == w.msg && t.part == w.part
      && w.logs.Keys <= t.logs.Keys && AllSet(t.d) <= t.logs.Keys
      && (forall p :: p in t.logs ==> t.logs[p] == if p in w.logs then w.logs[p] else [])
      && (forall p :: p in AllSet(t.d) ==> p in AllSet(w.d) || p !in w.logs)
      && (w.d.more ==> forall p :: p in AllSet(t.d) ==> (p in MatchingSet(t.d) <==> p in MatchingSet(w.d)))
  {
    hide Group, NoDup, Attach, Activated, Terminated, Match, Index;
    MatchingInAll(w.d);
    match op {
      case AttachOp(p) =>
        InAll(w.d, p);
        AttachGroups(w.d, p);
      case ActivatedOp(p) =>
        InAll(w.d, p);
        PastGroup(w.d, p);
        ActivatedGroups(w.d, Index(w.d.pipes, p));
      case TerminatedOp(p) =>
        InAll(w.d, p);
        TerminatedGroups(w.d, Index(w.d.pipes, p));
      case MatchOp(p) =>
        InAll(w.d, p);
        MatchGroups(w.d, Index(w.d.pipes, p));
      case UnmatchOp =>
    }
  }

  /** Runs the legal operations. */
  ghost function Run(w: World, ops: seq<Op>): World
    requires Inv(w)
    decreases |ops|
  {
    if ops == [] then w
    else if !Legal(w, ops[0]) then Run(w, ops[1..])
    else StepKeeps(w, ops[0]); Run(Step(w, ops[0]), ops[1..])
  }

  /** In every run what was written to each pipe, dead or alive, is whole messages,
      except where a write was refused; and between messages no live pipe is left
      with half of one. */
  lemma {:induction false} MultipartAtomic(w: World, ops: seq<Op>)
    requires Inv(w)
    ensures var t := Run(w, ops);
      && (forall p :: p in t.logs ==> WholeMessages(t.logs[p]))
      && (forall p :: p in AllSet(t.d) && !t.d.more ==> p in t.logs && Closed(t.logs[p]))
      && Ordered(t.d)
    decreases |ops|
  {
    if ops != [] {
      if Legal(w, ops[0]) {
        StepKeeps(w, ops[0]);
        MultipartAtomic(Step(w, ops[0]), ops[1..]);
      } else {
        MultipartAtomic(w, ops[1..]);
      }
    }
  }

  lemma StartInv()
    ensures Inv(START)
  {
  }

  // ---- Sockets that always send to all ----

  predicate AllMode(op: Op) {
    op.AttachOp? || op.ActivatedOp? || op.TerminatedOp? || op.SendAllOp?
  }

  /** In a socket that only ever sends to all, the matching pipes in mid-message are
      the active ones, so every send is legal. */
  lemma AllModeKeeps(w: World, op: Op)
    requires Inv(w) && AllMode(op) && Legal(w, op) && (w.d.more ==> w.d.matching == w.d.active)
    ensures Step(w, op).d.more ==> Step(w, op).d.matching == Step(w, op).d.active
  {
    if op.SendAllOp? {
      DistributeCounts(w.d.(matching := w.d.active), 0, op.open);
    }
  }

  lemma {:induction false} DistributeCounts(d: Array<Pipe>, i: nat, open: set<Pipe>)
    requires Ordered(d) && d.matching == d.active
    ensures var e := Distribute(d, i, open).0; e.matching == e.active
    decreases d.matching - i
  {
    if i < d.matching {
      if d.pipes[i] in open {
        DistributeCounts(d, i + 1, open);
      } else {
        DistributeCounts(Refuse(d, i), i, open);
      }
    }
  }

  /** From an empty distributor on. */
  lemma EveryDistribution(ops: seq<Op>)
    ensures Inv(START)
    ensures var t := Run(START, ops);
      && (forall p :: p in t.logs ==> WholeMessages(t.logs[p]))
      && (forall p :: p in AllSet(t.d) && !t.d.more ==> p in t.logs && Closed(t.logs[p]))
      && Ordered(t.d)
  {
    StartInv();
    MultipartAtomic(START, ops);
  }

  // ---- Who is eligible ----

  /** A history: the pipes attached and not terminated, those that refused a part and were not
      activated since, and those attached or activated since the current message began. */
  datatype History = History(members: set<Pipe>, passive: set<Pipe>, late: set<Pipe>)

  const NOBODY := History({}, {}, {})

  function Remember(w: World, op: Op, h: History): History
    requires Ordered(w.d)
  {
    match op
    case AttachOp(p) => History(h.members + {p}, h.passive, if w.d.more then h.late + {p} else h.late)
    case ActivatedOp(p) => History(h.members, h.passive - {p}, if w.d.more then h.late + {p} else h.late)
    case TerminatedOp(p) => History(h.members - {p}, h.passive - {p}, h.late - {p})
    case SendMatchingOp(open, last) => h.(passive := h.passive + (MatchingSet(w.d) - open), late := if last then {} else h.late)
    case SendAllOp(open, last) => h.(passive := h.passive + (ActiveSet(w.d) - open), late := if last then {} else h.late)
    case _ => h
  }

  /** The groups agree with the history. */
  ghost predicate Grouped(d: Array<Pipe>, h: History) {
    && Ordered(d) && AllSet(d) == h.members && h.passive <= h.members && h.late <= h.members - h.passive
    && EligibleSet(d) == h.members - h.passive && ActiveSet(d) == h.members - h.passive - h.late
    && (!d.more ==> h.late == {})
  }

  ghost predicate Remembered(w: World, h: History) {
    Inv(w) && Grouped(w.d, h)
  }

  lemma SendRemembers(w: World, open: set<Pipe>, last: bool, h: History)
    requires Valid(w.d) && Grouped(w.d, h)
    ensures Grouped(SendToMatching(w.d, open, last).0, Remember(w, SendMatchingOp(open, last), h))
    ensures Grouped(SendToAll(w.d, open, last).0, Remember(w, SendAllOp(open, last), h))
  {
    hide Group, NoDup, SendToMatching, SendToAll;
    MatchingInAll(w.d);
    SendGroups(w.d, open, last);
    SendAllGroups(w.d, open, last);
  }

  lemma StepRemembers(w: World, op: Op, h: History)
    requires Remembered(w, h) && Legal(w, op)
    ensures Remembered(Step(w, op), Remember(w, op, h))
  {
    hide Inv, Grouped, Remember;
    StepKeeps(w, op);
    ValidOf(w);
    hide SendToMatching, SendToAll;
    match op {
      case SendMatchingOp(open, last) => SendRemembers(w, open, last, h);
      case SendAllOp(open, last) => SendRemembers(w, open, last, h);
      case _ => GroupRemembers(w, op, h);
    }
  }

  /** Steps that send nothing. */
  lemma GroupRemembers(w: World, op: Op, h: History)
    requires Remembered(w, h) && Legal(w, op) && !op.SendMatchingOp? && !op.SendAllOp?
    ensures Grouped(Step(w, op).d, Remember(w, op, h))
  {
    hide Group, NoDup, Attach, Activated, Terminated, Match, Index, Midway, Closed, WholeMessages;
    match op {
      case AttachOp(p) =>
        InAll(w.d, p);
        AttachGroups(w.d, p);
      case ActivatedOp(p) =>
        InAll(w.d, p);
        PastGroup(w.d, p);
        ActivatedGroups(w.d, Index(w.d.pipes, p));
      case TerminatedOp(p) =>
        InAll(w.d, p);
        TerminatedGroups(w.d, Index(w.d.pipes, p));
      case MatchOp(p) =>
        InAll(w.d, p);
        MatchGroups(w.d, Index(w.d.pipes, p));
      case UnmatchOp =>
    }
  }

  lemma ValidOf(w: World)
    requires Inv(w)
    ensures Valid(w.d)
  {
  }

  ghost function HistoryOf(w: World, ops: seq<Op>, h: History): History
    requires Inv(w)
    decreases |ops|
  {
    if ops == [] then h
    else if !Legal(w, ops[0]) then HistoryOf(w, ops[1..], h)
    else StepKeeps(w, ops[0]); HistoryOf(Step(w, ops[0]), ops[1..], Remember(w, ops[0], h))
  }

  lemma {:induction false} RunRemembers(w: World, ops: seq<Op>, h: History)
    requires Remembered(w, h)
    ensures Remembered(Run(w, ops), HistoryOf(w, ops, h))
    decreases |ops|
  {
    hide Inv, Legal, Step, Remember;
    if ops != [] {
      InvOf(w, h);
      if Legal(w, ops[0]) {
        StepRemembers(w, ops[0], h);
        RunRemembers(Step(w, ops[0]), ops[1..], Remember(w, ops[0], h));
      } else {
        RunRemembers(w, ops[1..], h);
      }
    }
  }

  lemma InvOf(w: World, h: History)
    requires Remembered(w, h)
    ensures Inv(w) && Ordered(w.d)
  {
  }

  /** In every run: the attached pipes are those not terminated; of these the eligible ones are
      all but those that refused a part and were not activated since; and of these the active
      ones are all but those that came since the current message began. */
  lemma EveryGroup(ops: seq<Op>)
    ensures Inv(START)
    ensures var t, h := Run(START, ops), HistoryOf(START, ops, NOBODY);
      && Ordered(t.d) && AllSet(t.d) == h.members && EligibleSet(t.d) == h.members - h.passive
      && ActiveSet(t.d) == h.members - h.passive - h.late && (!t.d.more ==> h.late == {})
  {
    StartInv();
    RunRemembers(START, ops, NOBODY);
  }
}
