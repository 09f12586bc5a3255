/** The publisher socket: filters fed by the pipes, and a distributor that sends each
    message to the pipes whose filters match. */
module XPub {
  import opened Options
  import opened Bytes
  import opened Trie
  import opened TrieRemoval
  import opened TrieRemoveAll
  import TrieRuns
  import D = Dist
  import DistRuns
  import XSub
  import opened PubSub

  type Pipe = nat

  /** Reading messages of pipe `s` until there are none or one is malformed, which is
      dropped; the second result is what is left unread. */
  ghost function Reading(f: Filters, s: Pipe, inbox: seq<bytes>, known: set<nat>): (r: Option<(Filters, seq<bytes>)>)
    requires Trie.Valid(f.prefix)
    decreases |inbox|
  {
    if inbox == [] then Some((f, []))
    else if XSub.Decode(inbox[0]).None? then Some((f, inbox[1..]))
    else
      HeedValid(f, s, inbox[0], known);
      match Heed(f, s, inbox[0], known)
      case None => None
      case Some(g) => Reading(g, s, inbox[1..], known)
  }

  /** The filters once `s` is attached, if it wants everything. */
  function Implied(f: Filters, s: Pipe, all: bool): (g: Filters)
    requires Trie.Valid(f.prefix)
    ensures Trie.Valid(g.prefix)
  {
    AddValid(f.prefix, [], s);
    if all then Filters(f.created + {PREFIX}, Add(f.prefix, [], s).0) else f
  }

  /** That is one reference to the empty prefix more, which every message begins with. */
  lemma ImpliedMeans(f: Filters, s: Pipe, all: bool, data: bytes)
    requires Trie.Valid(f.prefix)
    ensures forall p, t :: Refs(Implied(f, s, all).prefix, p, t) == Refs(f.prefix, p, t) + if all && t == s && p == [] then 1 else 0
    ensures all ==> Wanted(Implied(f, s, all).prefix, data, s)
  {
    hide Trie.Valid, Subs, Add;
    var g := Implied(f, s, all);
    if all {
      forall p, t ensures Refs(g.prefix, p, t) == Refs(f.prefix, p, t) + if t == s && p == [] then 1 else 0 {
        if t == s { AddRefs(f.prefix, [], p, s); } else { TheirsKeepRefs(f.prefix, TrieRuns.AddOp([], s), p, t); }
      }
      assert Refs(g.prefix, [], s) > 0;
      assert data[..0] == [];
    }
  }

  lemma ImpliedIs(f: Filters, s: Pipe, all: bool)
    requires Trie.Valid(f.prefix)
    ensures Implied(f, s, all) == if all then Filters(f.created + {PREFIX}, Add(f.prefix, [], s).0) else f
  {
  }

  /** The filters that well-formed messages at the front of an inbox create. */
  function Creates(inbox: seq<bytes>): set<nat> {
    if inbox == [] then {}
    else
      var c := XSub.Decode(inbox[0]);
      (if c.Some? && c.value.Subscribe? then {c.value.key.filter} else {}) + Creates(inbox[1..])
  }

  /** Message `i` is the first that an assertion rejects: all before it are well-formed, and
      its filter, not created by then, is unknown or has a subscription withdrawn. */
  predicate Rejected(created: set<nat>, inbox: seq<bytes>, i: nat, known: set<nat>)
    requires i < |inbox|
  {
    && (forall j :: 0 <= j <= i ==> XSub.Decode(inbox[j]).Some?)
    && (var c := XSub.Decode(inbox[i]).value;
        c.key.filter !in created + Creates(inbox[..i]) && (c.Unsubscribe? || c.key.filter !in known))
  }

  /** Reading fails an assertion exactly on an inbox with such a message. */
  lemma {:induction false} ReadingFailsIff(f: Filters, s: Pipe, inbox: seq<bytes>, known: set<nat>)
    requires Trie.Valid(f.prefix)
    ensures Reading(f, s, inbox, known).None? <==> exists i :: 0 <= i < |inbox| && Rejected(f.created, inbox, i, known)
    decreases |inbox|
  {
    hide Trie.Valid, Add, Rm;
    if inbox == [] {
    } else if XSub.Decode(inbox[0]).None? {
      forall i | 0 <= i < |inbox| ensures !Rejected(f.created, inbox, i, known) {}
    } else {
      HeedValid(f, s, inbox[0], known);
      FirstRejected(f, s, inbox, known);
      if Heed(f, s, inbox[0], known).Some? {
        var g := Heed(f, s, inbox[0], known).value;
        ReadingFailsIff(g, s, inbox[1..], known);
        forall i | 0 <= i < |inbox| - 1 ensures Rejected(g.created, inbox[1..], i, known) <==> Rejected(f.created, inbox, i + 1, known) {
          LaterRejected(f, s, inbox, i, known);
        }
        if Reading(f, s, inbox, known).None? {
          var i :| 0 <= i < |inbox[1..]| && Rejected(g.created, inbox[1..], i, known);
          assert Rejected(f.created, inbox, i + 1, known);
        }
        if i :| 0 < i < |inbox| && Rejected(f.created, inbox, i, known) {
          assert Rejected(g.created, inbox[1..], i - 1, known);
        }
      }
    }
  }

  /** What is left unread: what follows the first malformed message, if there is one. */
  lemma {:induction false} ReadingLeaves(f: Filters, s: Pipe, inbox: seq<bytes>, known: set<nat>)
    requires Trie.Valid(f.prefix) && Reading(f, s, inbox, known).Some?
    ensures var rest := Reading(f, s, inbox, known).value.1; var n := |inbox| - |rest|;
      && n >= 0 && rest == inbox[n..]
      && (forall i :: 0 <= i < n - 1 ==> XSub.Decode(inbox[i]).Some?)
      && (n > 0 && n < |inbox| ==> XSub.Decode(inbox[n - 1]).None?)
      && (inbox != [] ==> n > 0)
    decreases |inbox|
  {
    hide Trie.Valid, Heed, XSub.Decode;
    if inbox != [] && XSub.Decode(inbox[0]).Some? {
      HeedValid(f, s, inbox[0], known);
      var g, later := Heed(f, s, inbox[0], known).value, inbox[1..];
      ReadingLeaves(g, s, later, known);
      var m := |later| - |Reading(g, s, later, known).value.1|;
      assert later[m..] == inbox[m + 1..];
      forall i | 0 <= i < m ensures XSub.Decode(inbox[i]).Some? {
        if i > 0 { assert later[i - 1] == inbox[i]; }
      }
      if m > 0 { assert later[m - 1] == inbox[m]; }
    }
  }

  lemma FirstRejected(f: Filters, s: Pipe, inbox: seq<bytes>, known: set<nat>)
    requires Trie.Valid(f.prefix) && inbox != [] && XSub.Decode(inbox[0]).Some?
    ensures Heed(f, s, inbox[0], known).None? <==> Rejected(f.created, inbox, 0, known)
  {
    assert inbox[..0] == [];
  }

  lemma LaterRejected(f: Filters, s: Pipe, inbox: seq<bytes>, i: nat, known: set<nat>)
    requires Trie.Valid(f.prefix) && i + 1 < |inbox| && XSub.Decode(inbox[0]).Some? && Heed(f, s, inbox[0], known).Some?
    ensures Rejected(Heed(f, s, inbox[0], known).value.created, inbox[1..], i, known) <==> Rejected(f.created, inbox, i + 1, known)
  {
    var r, c := inbox[1..], XSub.Decode(inbox[0]).value;
    assert inbox[..i + 1][1..] == r[..i] && inbox[..i + 1][0] == inbox[0];
    assert Creates(inbox[..i + 1]) == (if c.Subscribe? then {c.key.filter} else {}) + Creates(r[..i]);
    assert forall j :: 0 <= j <= i ==> r[j] == inbox[j + 1];
    if Rejected(f.created, inbox, i + 1, known) {
      assert forall j :: 0 <= j <= i ==> XSub.Decode(r[j]).Some?;
    }
    if Rejected(Heed(f, s, inbox[0], known).value.created, r, i, known) {
      forall j | 0 <= j <= i + 1 ensures XSub.Decode(inbox[j]).Some? {
        if j > 0 { assert r[j - 1] == inbox[j]; }
      }
    }
  }

  /** The shortest such inbox, for a publisher to which nobody has subscribed yet. */
  lemma ReadingFails(s: Pipe, known: set<nat>)
    ensures Trie.Valid(EMPTY) && Reading(Filters({}, EMPTY), s, [[0, 2, 0, 1]], known).None?
  {
    EmptyValid();
    var msg: bytes := [0, 2, 0, 1];
    assert XSub.Decode(msg) == Some(XSub.Unsubscribe(XSub.Key(1, []))) by {
      assert msg[..2] == [0, 2] && msg[2..4] == [0, 1] && msg[4..] == [];
    }
  }

  /** Only pipes in `pipes` have subscriptions. */
  ghost predicate Attached(t: Node, pipes: seq<Pipe>) {
    forall p, s :: s in Subs(t, p) ==> s in pipes
  }

  lemma AddAttached(t: Node, q: bytes, s: Pipe, pipes: seq<Pipe>)
    requires Trie.Valid(t) && Attached(t, pipes) && s in pipes
    ensures Trie.Valid(Add(t, q, s).0) && Attached(Add(t, q, s).0, pipes)
  {
    hide Trie.Valid, Subs, Add;
    AddValid(t, q, s);
    forall p { AddSubs(t, q, s, p); }
  }

  lemma RmAttached(t: Node, q: bytes, s: Pipe, pipes: seq<Pipe>)
    requires Trie.Valid(t) && Attached(t, pipes)
    ensures Trie.Valid(Rm(t, q, s).0) && Attached(Rm(t, q, s).0, pipes)
  {
    hide Trie.Valid, Subs, Rm;
    RmValid(t, q, s);
    forall p { RmSubs(t, q, s, p); }
  }

  class XPub {
    const known: set<nat>
    var filters: Filters
    var dist: D.Array<Pipe>
    var more: bool

    /** Between messages no pipe is marked as matching. */
    ghost predicate Valid()
      reads this
    {
      && Trie.Valid(filters.prefix) && Attached(filters.prefix, dist.pipes)
      && D.Valid(dist) && more == dist.more && (!more ==> dist.matching == 0) && PREFIX in known
    }

    constructor (known: set<nat>)
      requires PREFIX in known
      ensures Valid() && dist.pipes == [] && this.known == known
    {
      EmptyValid();
      this.known, filters, more := known, Filters({}, EMPTY), false;
      dist := D.Array([], 0, 0, 0, false);
    }

    /** A pipe that wants everything is subscribed to the empty prefix; then the messages
        that wait on the pipe are read. */
    method AttachPipe(s: Pipe, all: bool, inbox: seq<bytes>) returns (aborted: bool, rest: seq<bytes>)
      requires Valid() && s !in dist.pipes
      modifies this
      ensures Valid() && dist == D.Attach(old(dist), s)
      ensures var r := Reading(Implied(old(filters), s, all), s, inbox, known);
        (aborted <==> r.None?) && (!aborted ==> r == Some((filters, rest)))
      ensures inbox == [] ==> !aborted && rest == []
      ensures inbox == [] ==>
        forall p, t :: Refs(filters.prefix, p, t) == Refs(old(filters).prefix, p, t) + if all && t == s && p == [] then 1 else 0
      ensures inbox == [] && all ==> forall data :: Wanted(filters.prefix, data, s)
    {
      hide Trie.Valid, Subs, Add, Refs, Wanted, Implied;
      ghost var f := filters;
      forall data { ImpliedMeans(f, s, all, data); }
      ImpliedMeans(f, s, all, []);
      D.AttachGroups(dist, s);
      StillAttached(dist, s);
      dist := D.Attach(dist, s);
      if all {
        AddAttached(filters.prefix, [], s, dist.pipes);
        filters := Filters(filters.created + {PREFIX}, Add(filters.prefix, [], s).0);
      }
      ImpliedIs(f, s, all);
      aborted, rest := ReadActivated(s, inbox);
    }

    /** Reads subscriptions until there are none or one is malformed; an assertion fails on
        an unknown filter and on an unsubscription from a filter never created. */
    method ReadActivated(s: Pipe, inbox: seq<bytes>) returns (aborted: bool, rest: seq<bytes>)
      requires Valid() && s in dist.pipes
      modifies `filters
      ensures Valid()
      ensures var r := Reading(old(filters), s, inbox, known);
        (aborted <==> r.None?) && (!aborted ==> r == Some((filters, rest)))
    {
      hide Trie.Valid, Subs, Add, Rm, Attached;
      rest := inbox;
      while rest != []
        invariant Valid() && Reading(filters, s, rest, known) == Reading(old(filters), s, inbox, known)
        decreases |rest|
      {
        var msg := rest[0];
        rest := rest[1..];
        var c := XSub.Decode(msg);
        if c.None? { return false, rest; }
        var k := c.value.key;
        if c.value.Unsubscribe? {
          if k.filter !in filters.created { return true, rest; }
          if k.filter == PREFIX {
            RmAttached(filters.prefix, k.data, s, dist.pipes);
            filters := filters.(prefix := Rm(filters.prefix, k.data, s).0);
          }
        } else {
          if k.filter !in filters.created && k.filter !in known { return true, rest; }
          if k.filter == PREFIX {
            AddAttached(filters.prefix, k.data, s, dist.pipes);
            filters := filters.(prefix := Add(filters.prefix, k.data, s).0);
          }
          filters := filters.(created := filters.created + {k.filter});
        }
      }
      return false, rest;
    }

    /** The pipe's references go, one of each. It leaves none behind exactly if it held no
        prefix twice; otherwise a pipe that is gone stays subscribed. */
    method Terminated(s: Pipe)
      requires Valid() && s in dist.pipes
      modifies this
      ensures dist == D.Terminated(old(dist), DistRuns.Index(old(dist).pipes, s))
      ensures filters == old(filters).(prefix := RmAll(old(filters).prefix, s, []).0)
      ensures Valid() <==> forall p :: Refs(old(filters).prefix, p, s) <= 1
    {
      hide Trie.Valid, Subs, RmAll, Attached;
      ghost var t, d := filters.prefix, dist;
      var i := DistRuns.Index(dist.pipes, s);
      D.TerminatedGroups(dist, i);
      RmAllValid(t, s, []);
      LeavesNoneIff(t, d, s);
      filters := filters.(prefix := RmAll(filters.prefix, s, []).0);
      dist := D.Terminated(dist, i);
    }

    /** The first part of a message goes to the pipes that can take a new message and hold
        a prefix of it, each once; a later part to those the part before it went to.
        Pipes that are not in `open` refuse. */
    method Send(data: bytes, msgMore: bool, open: set<Pipe>) returns (tried: seq<Pipe>)
      requires Valid()
      modifies this
      ensures Valid() && more == msgMore && filters == old(filters) && D.AllSet(dist) == D.AllSet(old(dist))
      ensures D.NoDup(tried)
      ensures old(more) ==> D.Elements(tried) == D.MatchingSet(old(dist))
      ensures !old(more) ==> forall s :: s in tried <==> s in D.EligibleSet(old(dist)) && Wanted(filters.prefix, data, s)
      ensures msgMore ==> D.MatchingSet(dist) == D.Elements(tried) * open
      ensures D.EligibleSet(dist) == D.EligibleSet(old(dist)) - (D.Elements(tried) - open)
      ensures !msgMore ==> D.ActiveSet(dist) == D.EligibleSet(dist)
    {
      hide Trie.Valid, Subs, Attached, Wanted, D.Group, D.NoDup, D.SendToMatching;
      if !more { MatchPipes(data); }
      D.SendGroups(dist, open, !msgMore);
      SamePipes(dist, D.SendToMatching(dist, open, !msgMore).0, filters.prefix);
      var sent := D.SendToMatching(dist, open, !msgMore);
      dist, tried := sent.0, sent.1;
      if !msgMore { dist := D.Unmatch(dist); }
      more := msgMore;
    }

    /** Marks as matching whoever the filters signal. */
    method MatchPipes(data: bytes)
      requires Valid() && !more
      modifies `dist
      ensures Trie.Valid(filters.prefix) && Attached(filters.prefix, dist.pipes) && D.Valid(dist) && !dist.more
      ensures D.AllSet(dist) == D.AllSet(old(dist)) && D.EligibleSet(dist) == D.EligibleSet(old(dist))
      ensures forall s :: s in D.MatchingSet(dist) <==> s in D.EligibleSet(old(dist)) && Wanted(filters.prefix, data, s)
    {
      hide Trie.Valid, Subs, Attached, Wanted, D.Group, D.NoDup;
      ghost var d := dist;
      NobodyMatching(d);
      var signals := TrieRuns.Match(filters.prefix, data);
      forall s ensures signals[s] > 0 <==> Wanted(filters.prefix, data, s) { WantedIff(filters.prefix, data, s); }
      while signals != multiset{}
        invariant D.Valid(dist) && !dist.more && D.AllSet(dist) == D.AllSet(d) && D.EligibleSet(dist) == D.EligibleSet(d)
        invariant forall s :: s in signals ==> Wanted(filters.prefix, data, s)
        invariant forall s :: s in D.MatchingSet(dist) ==> s in D.EligibleSet(d) && Wanted(filters.prefix, data, s)
        invariant forall s :: s in D.EligibleSet(d) && Wanted(filters.prefix, data, s) ==> s in D.MatchingSet(dist) || s in signals
        decreases signals
      {
        var s :| s in signals;
        WantedAttached(filters.prefix, data, s, d, dist);
        var i := DistRuns.Index(dist.pipes, s);
        MatchOne(dist, s);
        dist := D.Match(dist, i);
        signals := signals - multiset{s};
      }
      SamePipes(d, dist, filters.prefix);
    }
  }

  /** Pipe `s` subscribed to some prefix of `data`. */
  predicate Wanted(t: Node, data: bytes, s: Pipe) {
    exists n :: 0 <= n <= |data| && s in Subs(t, data[..n])
  }

  lemma WantedIff(t: Node, data: bytes, s: Pipe)
    ensures TrieRuns.Occurrences(t, data, s, |data|) > 0 <==> Wanted(t, data, s)
  {
    OccursIff(t, data, s, |data|);
  }

  lemma WantedAttached(t: Node, data: bytes, s: Pipe, d: D.Array<Pipe>, e: D.Array<Pipe>)
    requires Attached(t, d.pipes) && Wanted(t, data, s) && D.AllSet(d) == D.AllSet(e)
    ensures s in e.pipes
  {
    DistRuns.InAll(d, s);
    DistRuns.InAll(e, s);
  }

  lemma NobodyMatching(d: D.Array<Pipe>)
    requires D.Ordered(d) && d.matching == 0
    ensures D.MatchingSet(d) == {}
  {
  }

  lemma MatchOne(d: D.Array<Pipe>, s: Pipe)
    requires D.Valid(d) && !d.more && s in d.pipes
    ensures var r := D.Match(d, DistRuns.Index(d.pipes, s));
      && D.Valid(r) && !r.more && D.AllSet(r) == D.AllSet(d) && D.EligibleSet(r) == D.EligibleSet(d)
      && D.MatchingSet(r) == D.MatchingSet(d) + (if s in D.EligibleSet(d) then {s} else {})
  {
    var i := DistRuns.Index(d.pipes, s);
    D.MatchGroups(d, i);
    hide D.Group, D.NoDup, D.Match;
    if i < d.eligible {
      DistRuns.MemberAt(d.pipes, i, d.eligible);
    } else {
      NotAmong(d.pipes, i, d.eligible);
    }
  }

  lemma NotAmong(s: seq<Pipe>, i: nat, n: nat)
    requires D.NoDup(s) && n <= i < |s|
    ensures s[i] !in D.Group(s, n)
  {
  }

  lemma SamePipes(d: D.Array<Pipe>, e: D.Array<Pipe>, t: Node)
    requires D.AllSet(d) == D.AllSet(e) && Attached(t, d.pipes)
    ensures Attached(t, e.pipes)
  {
    forall s ensures s in d.pipes <==> s in e.pipes {
      DistRuns.InAll(d, s);
      DistRuns.InAll(e, s);
    }
  }

  lemma LeavesNoneIff(t: Node, d: D.Array<Pipe>, s: Pipe)
    requires Trie.Valid(t) && D.Valid(d) && s in d.pipes && Attached(t, d.pipes)
    ensures Attached(RmAll(t, s, []).0, D.Terminated(d, DistRuns.Index(d.pipes, s)).pipes) <==> forall p :: Refs(t, p, s) <= 1
  {
    hide Trie.Valid, Subs, RmAll, D.Group, D.Terminated, D.NoDup;
    var e, u := D.Terminated(d, DistRuns.Index(d.pipes, s)), RmAll(t, s, []).0;
    GoneFrom(d, s);
    forall p ensures Subs(u, p) == Drop(Subs(t, p), s) { RmAllSubs(t, s, [], p); }
    if p :| Refs(t, p, s) > 1 {
      assert s in Subs(u, p) && s !in e.pipes;
    } else {
      forall p, q | q in Subs(u, p) ensures q in e.pipes {
        assert Refs(t, p, s) <= 1 && q in Subs(t, p);
      }
    }
  }

  /** In every state: a pipe that subscribes to a prefix twice and then leaves stays
      subscribed, and the next message that begins so is signalled to it. */
  lemma GoneButSubscribed(f: Filters, d: D.Array<Pipe>, s: Pipe, msg: bytes, p: bytes, known: set<nat>, data: bytes)
    requires Trie.Valid(f.prefix) && PREFIX in known && D.Valid(d) && s in d.pipes
    requires XSub.Decode(msg) == Some(XSub.Subscribe(XSub.Key(PREFIX, p))) && p <= data
    ensures var r := Reading(f, s, [msg, msg], known);
      && r.Some? && Trie.Valid(r.value.0.prefix)
      && (var t := RmAll(r.value.0.prefix, s, []).0;
          && s in Subs(t, p) && s !in D.Terminated(d, DistRuns.Index(d.pipes, s)).pipes
          && TrieRuns.Occurrences(t, data, s, |data|) > 0)
  {
    TwiceHeeded(f, s, msg, p, known);
    hide Reading, Trie.Valid, Subs, RmAll, D.Terminated;
    var u := Reading(f, s, [msg, msg], known).value.0.prefix;
    RmAllSubs(u, s, [], p);
    GoneFrom(d, s);
    assert data[..|p|] == p;
    WantedIff(RmAll(u, s, []).0, data, s);
  }

  lemma TwiceHeeded(f: Filters, s: Pipe, msg: bytes, p: bytes, known: set<nat>)
    requires Trie.Valid(f.prefix) && PREFIX in known && XSub.Decode(msg) == Some(XSub.Subscribe(XSub.Key(PREFIX, p)))
    ensures var r := Reading(f, s, [msg, msg], known); r.Some? && Trie.Valid(r.value.0.prefix) && Refs(r.value.0.prefix, p, s) >= 2
  {
    hide Trie.Valid, Add, XSub.Decode;
    HeedValid(f, s, msg, known);
    var g := Heed(f, s, msg, known).value;
    HeedValid(g, s, msg, known);
    AddRefs(f.prefix, p, p, s);
    AddRefs(g.prefix, p, p, s);
    assert [msg, msg][1..] == [msg] && [msg][1..] == [];
    assert Reading(g, s, [msg], known) == Reading(Heed(g, s, msg, known).value, s, [], known);
  }

  lemma GoneFrom(d: D.Array<Pipe>, s: Pipe)
    requires D.Valid(d) && s in d.pipes
    ensures forall q :: q in D.Terminated(d, DistRuns.Index(d.pipes, s)).pipes <==> q in d.pipes && q != s
  {
    hide D.Group, D.Terminated, D.NoDup;
    var e := D.Terminated(d, DistRuns.Index(d.pipes, s));
    D.TerminatedGroups(d, DistRuns.Index(d.pipes, s));
    forall q ensures q in e.pipes <==> q in d.pipes && q != s {
      DistRuns.InAll(d, q);
      DistRuns.InAll(e, q);
    }
  }

  lemma StillAttached(d: D.Array<Pipe>, s: Pipe)
    requires D.Valid(d) && s !in d.pipes
    ensures forall q :: q in D.Attach(d, s).pipes <==> q in d.pipes || q == s
  {
    D.AttachGroups(d, s);
    forall q ensures q in D.Attach(d, s).pipes <==> q in d.pipes || q == s {
      DistRuns.InAll(d, q);
      DistRuns.InAll(D.Attach(d, s), q);
    }
  }
}
