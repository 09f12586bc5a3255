/** One publisher and any number of subscribers: subscriptions travel up the pipes one
    message at a time, and messages come down to whoever subscribed. */
module Forwarding {
  import opened Options
  import opened Bytes
  import opened Trie
  import opened TrieRemoveAll
  import TrieRuns
  import D = Dist
  import DistRuns
  import S = XSub
  import opened PubSub
  import P = XPub

  type Pipe = nat

  // ---- What a publisher has heard of a subscriber ----

  /** The filters hold for pipe `s` just what the first `n` messages of `log` announce. */
  ghost predicate Heard(f: Filters, s: Pipe, log: seq<bytes>, n: nat) {
    n <= |log| && exists keys :: S.Announces(log[..n], keys) && Agrees(f, s, keys)
  }

  lemma {:induction false} OneMeaning(log: seq<bytes>, a: set<S.Key>, b: set<S.Key>)
    requires S.Announces(log, a) && S.Announces(log, b)
    ensures a == b
    decreases |log|
  {
    if log != [] {
      var n := |log| - 1;
      match S.Decode(log[n]).value
      case Subscribe(k) =>
        OneMeaning(log[..n], a - {k}, b - {k});
        assert a == a - {k} + {k} && b == b - {k} + {k};
      case Unsubscribe(k) =>
        OneMeaning(log[..n], a + {k}, b + {k});
        assert a == a + {k} - {k} && b == b + {k} - {k};
    }
  }

  /** Every beginning of such a log announces something. */
  lemma {:induction false} Beginning(log: seq<bytes>, keys: set<S.Key>, n: nat) returns (some: set<S.Key>)
    requires S.Announces(log, keys) && n <= |log|
    ensures S.Announces(log[..n], some)
    decreases |log|
  {
    if n == |log| {
      some := keys;
      assert log[..n] == log;
    } else {
      var m, k := |log| - 1, S.Decode(log[|log| - 1]).value.key;
      some := Beginning(log[..m], if S.Decode(log[m]).value.Subscribe? then keys - {k} else keys + {k}, n);
      assert log[..m][..n] == log[..n];
    }
  }

  lemma NothingHeard(f: Filters, s: Pipe, log: seq<bytes>)
    requires forall p :: s !in Subs(f.prefix, p)
    ensures Heard(f, s, log, 0)
  {
    NoRefs(f, s);
    assert log[..0] == [] && S.Announces([], {});
  }

  lemma AllHeard(f: Filters, s: Pipe, log: seq<bytes>, keys: set<S.Key>)
    requires Heard(f, s, log, |log|) && S.Announces(log, keys)
    ensures Agrees(f, s, keys)
  {
    assert log[..|log|] == log;
    var some :| S.Announces(log[..|log|], some) && Agrees(f, s, some);
    OneMeaning(log, keys, some);
  }

  lemma HeardOnce(f: Filters, s: Pipe, log: seq<bytes>, n: nat)
    requires Heard(f, s, log, n)
    ensures forall p :: Refs(f.prefix, p, s) <= 1
  {
    var keys :| S.Announces(log[..n], keys) && Agrees(f, s, keys);
  }

  /** A longer log that begins alike. */
  lemma LogGrows(f: Filters, s: Pipe, log: seq<bytes>, n: nat, longer: seq<bytes>)
    requires Heard(f, s, log, n) && log <= longer
    ensures Heard(f, s, longer, n)
  {
    assert longer[..n] == log[..n];
  }

  /** The publisher reads the next message. */
  lemma HearsNext(f: Filters, s: Pipe, log: seq<bytes>, n: nat, known: set<nat>, keys: set<S.Key>)
    requires Trie.Valid(f.prefix) && Heard(f, s, log, n) && n < |log| && S.Announces(log, keys)
    ensures S.Decode(log[n]).Some?
    ensures AllKnown([log[n]], known) ==> Heed(f, s, log[n], known).Some?
    ensures Heed(f, s, log[n], known).Some? ==> Heard(Heed(f, s, log[n], known).value, s, log, n + 1)
  {
    hide Trie.Valid, Agrees, Heed, S.Announces, S.Decode;
    var some := Beginning(log, keys, n + 1);
    assert log[..n + 1] == log[..n] + [log[n]];
    LastAnnounced(log[..n], log[n], some);
    var c := S.Decode(log[n]).value;
    var now := if c.Subscribe? then some - {c.key} else some + {c.key};
    var before :| S.Announces(log[..n], before) && Agrees(f, s, before);
    OneMeaning(log[..n], now, before);
    assert (if c.key in now then now - {c.key} else now + {c.key}) == some;
    if AllKnown([log[n]], known) { HeedAgrees(f, s, log[n], known, now); }
    if Heed(f, s, log[n], known).Some? {
      var wide := known + {c.key.filter};
      HeedKnown(f, s, log[n], known, wide);
      HeedAgrees(f, s, log[n], wide, now);
    }
  }

  lemma LastAnnounced(log: seq<bytes>, msg: bytes, keys: set<S.Key>)
    requires S.Announces(log + [msg], keys)
    ensures S.Decode(msg).Some?
    ensures var c := S.Decode(msg).value;
      if c.Subscribe? then c.key in keys && S.Announces(log, keys - {c.key}) else c.key !in keys && S.Announces(log, keys + {c.key})
  {
    assert (log + [msg])[..|log|] == log;
  }

  lemma HeedKnown(f: Filters, s: Pipe, msg: bytes, known: set<nat>, wide: set<nat>)
    requires Trie.Valid(f.prefix) && known <= wide && Heed(f, s, msg, known).Some?
    ensures Heed(f, s, msg, wide) == Heed(f, s, msg, known)
    ensures S.Decode(msg).Some? && S.Decode(msg).value.key.filter in wide ==> AllKnown([msg], wide)
  {
  }

  /** The publisher reads messages `n` to `m`: it stops only at a filter it does not know. */
  lemma {:induction false} HearsSome(f: Filters, s: Pipe, log: seq<bytes>, n: nat, m: nat, known: set<nat>, keys: set<S.Key>)
    requires Trie.Valid(f.prefix) && Heard(f, s, log, n) && n <= m <= |log| && S.Announces(log, keys)
    ensures var r := P.Reading(f, s, log[n..m], known);
      && (r.None? ==> !AllKnown(log[n..m], known))
      && (r.Some? ==> r.value.1 == [] && Heard(r.value.0, s, log, m))
    decreases m - n
  {
    hide Trie.Valid, Heard, Heed, S.Announces, S.Decode;
    var piece := log[n..m];
    if n < m {
      HearsNext(f, s, log, n, known, keys);
      HeedValid(f, s, log[n], known);
      assert piece[1..] == log[n + 1..m] && piece[0] == log[n];
      if AllKnown(piece, known) { KnownParts(piece, known); }
      if Heed(f, s, log[n], known).Some? {
        HearsSome(Heed(f, s, log[n], known).value, s, log, n + 1, m, known, keys);
      }
    }
  }

  lemma KnownParts(piece: seq<bytes>, known: set<nat>)
    requires AllKnown(piece, known) && piece != []
    ensures AllKnown([piece[0]], known) && AllKnown(piece[1..], known)
  {
    assert forall i :: 0 <= i < |piece| - 1 ==> piece[1..][i] == piece[i + 1];
  }

  // ---- What others do meanwhile ----

  /** As far as `s` is concerned `g` says what `f` says. */
  ghost predicate SameFor(f: Filters, g: Filters, s: Pipe) {
    f.created <= g.created && forall p :: Refs(g.prefix, p, s) == Refs(f.prefix, p, s)
  }

  lemma StillHeard(f: Filters, g: Filters, s: Pipe, log: seq<bytes>, n: nat)
    requires Heard(f, s, log, n) && SameFor(f, g, s)
    ensures Heard(g, s, log, n)
  {
    var keys :| S.Announces(log[..n], keys) && Agrees(f, s, keys);
    assert Agrees(g, s, keys);
  }

  lemma OtherHeed(f: Filters, q: Pipe, msg: bytes, known: set<nat>, s: Pipe)
    requires Trie.Valid(f.prefix) && q != s && Heed(f, q, msg, known).Some?
    ensures SameFor(f, Heed(f, q, msg, known).value, s)
  {
    hide Trie.Valid, Subs, Add, Rm;
    if S.Decode(msg).Some? && S.Decode(msg).value.key.filter == PREFIX {
      var k := S.Decode(msg).value.key;
      forall p ensures Refs(Heed(f, q, msg, known).value.prefix, p, s) == Refs(f.prefix, p, s) {
        TheirsKeepRefs(f.prefix, if S.Decode(msg).value.Subscribe? then TrieRuns.AddOp(k.data, q) else TrieRuns.RmOp(k.data, q), p, s);
      }
    }
  }

  lemma {:induction false} OtherReading(f: Filters, q: Pipe, inbox: seq<bytes>, known: set<nat>, s: Pipe)
    requires Trie.Valid(f.prefix) && q != s && P.Reading(f, q, inbox, known).Some?
    ensures SameFor(f, P.Reading(f, q, inbox, known).value.0, s)
    decreases |inbox|
  {
    hide Trie.Valid, Heed, S.Decode;
    if inbox != [] && S.Decode(inbox[0]).Some? {
      HeedValid(f, q, inbox[0], known);
      OtherHeed(f, q, inbox[0], known, s);
      OtherReading(Heed(f, q, inbox[0], known).value, q, inbox[1..], known, s);
    }
  }

  lemma OtherLeaves(f: Filters, q: Pipe, s: Pipe)
    requires Trie.Valid(f.prefix) && q != s
    ensures SameFor(f, f.(prefix := RmAll(f.prefix, q, []).0), s)
  {
    hide Trie.Valid, Subs, RmAll;
    forall p ensures Refs(RmAll(f.prefix, q, []).0, p, s) == Refs(f.prefix, p, s) {
      TheirsKeepRefs(f.prefix, TrieRuns.RmAllOp(q), p, s);
    }
  }

  // ---- The loop of the publisher, and single messages ----

  predicate WellFormed(inbox: seq<bytes>) {
    forall i :: 0 <= i < |inbox| ==> S.Decode(inbox[i]).Some?
  }

  function Mines(inbox: seq<bytes>): (r: seq<Event>)
    ensures |r| == |inbox|
  {
    seq(|inbox|, i requires 0 <= i < |inbox| => Mine(inbox[i]))
  }

  ghost function Then(r: Option<(Filters, seq<bytes>)>, s: Pipe, msg: bytes, known: set<nat>): Option<(Filters, seq<bytes>)>
    requires r.Some? ==> Trie.Valid(r.value.0.prefix)
  {
    if r.None? || Heed(r.value.0, s, msg, known).None? then None else Some((Heed(r.value.0, s, msg, known).value, []))
  }

  lemma {:induction false} ReadingValid(f: Filters, s: Pipe, inbox: seq<bytes>, known: set<nat>)
    requires Trie.Valid(f.prefix)
    ensures P.Reading(f, s, inbox, known).Some? ==> Trie.Valid(P.Reading(f, s, inbox, known).value.0.prefix)
    decreases |inbox|
  {
    hide Trie.Valid, Heed, S.Decode;
    if inbox != [] && S.Decode(inbox[0]).Some? {
      HeedValid(f, s, inbox[0], known);
      if Heed(f, s, inbox[0], known).Some? { ReadingValid(Heed(f, s, inbox[0], known).value, s, inbox[1..], known); }
    }
  }

  lemma {:induction false} ReadingThen(f: Filters, s: Pipe, inbox: seq<bytes>, msg: bytes, known: set<nat>)
    requires Trie.Valid(f.prefix) && WellFormed(inbox + [msg])
    ensures var r := P.Reading(f, s, inbox, known);
      (r.Some? ==> Trie.Valid(r.value.0.prefix)) && P.Reading(f, s, inbox + [msg], known) == Then(r, s, msg, known)
    decreases |inbox|
  {
    hide Trie.Valid, Heed, S.Decode;
    ReadingValid(f, s, inbox, known);
    var all := inbox + [msg];
    assert S.Decode(all[0]).Some?;
    HeedValid(f, s, all[0], known);
    if inbox == [] {
      assert all[1..] == [];
    } else if Heed(f, s, all[0], known).Some? {
      assert all[0] == inbox[0] && all[1..] == inbox[1..] + [msg];
      assert forall i :: 0 <= i < |all| - 1 ==> all[1..][i] == all[i + 1];
      ReadingThen(Heed(f, s, all[0], known).value, s, inbox[1..], msg, known);
    }
  }

  /** Reading an inbox of well-formed messages is taking them one after the other. */
  lemma {:induction false} ReadingIsRun(f: Filters, s: Pipe, inbox: seq<bytes>, known: set<nat>)
    requires Trie.Valid(f.prefix) && WellFormed(inbox)
    ensures var r := Run(f, s, Mines(inbox), known);
      P.Reading(f, s, inbox, known) == if r.None? then None else Some((r.value, []))
    decreases |inbox|
  {
    hide Trie.Valid, Heed, S.Decode;
    if inbox != [] {
      var n := |inbox| - 1;
      assert inbox == inbox[..n] + [inbox[n]];
      ReadingThen(f, s, inbox[..n], inbox[n], known);
      ReadingIsRun(f, s, inbox[..n], known);
      assert Mines(inbox)[..n] == Mines(inbox[..n]);
    }
  }

  // ---- The network ----

  /** The publisher's pipe ends at pipe `p` of a subscriber, and `heard` of the messages
      written there were read. */
  datatype Link = Link(x: S.XSub, p: Pipe, heard: nat)

  ghost predicate Up(f: Filters, s: Pipe, l: Link)
    reads l.x
  {
    l.x.Valid() && l.p in l.x.logs && Heard(f, s, l.x.logs[l.p], l.heard)
  }

  class Network {
    const pub: P.XPub
    var links: map<Pipe, Link>

    ghost function Subscribers(): set<S.XSub>
      reads this
    {
      set s | s in links :: links[s].x
    }

    /** Every pipe of the publisher is one end of a link, and no two links share their other
        end. */
    ghost predicate Paired()
      reads this, pub
    {
      && (forall s :: s in links <==> s in pub.dist.pipes)
      && (forall s, t :: s in links && t in links && s != t ==> links[s].x != links[t].x || links[s].p != links[t].p)
    }

    ghost predicate Valid()
      reads this, pub, Subscribers()
    {
      pub.Valid() && Paired() && forall s :: s in links ==> Up(pub.filters, s, links[s])
    }

    constructor (known: set<nat>)
      requires PREFIX in known
      ensures Valid() && fresh(pub) && links == map[] && pub.known == known
    {
      pub := new P.XPub(known);
      links := map[];
    }

    /** All links but one are up, with filters `f`. */
    ghost predicate UpBut(f: Filters, s: Pipe)
      reads this, Subscribers()
    {
      forall t :: t in links && t != s ==> Up(f, t, links[t])
    }

    lemma UpButSame(f: Filters, g: Filters, s: Pipe)
      requires UpBut(f, s) && forall t :: t != s ==> SameFor(f, g, t)
      ensures UpBut(g, s)
    {
      hide Heard, SameFor, S.Announces;
      forall t | t in links && t != s ensures Up(g, t, links[t]) {
        StillHeard(f, g, t, links[t].x.logs[links[t].p], links[t].heard);
      }
    }

    /** The subscriber's half of a new link. */
    method Greet(x: S.XSub, p: Pipe, s: Pipe)
      requires UpBut(pub.filters, s) && x.Valid() && p !in x.logs
      modifies x
      ensures UpBut(pub.filters, s) && x.Valid() && x.logs.Keys == old(x.logs.Keys) + {p} && x.subscriptions == old(x.subscriptions)
    {
      hide Heard, S.Announces;
      x.AttachPipe(p, 2);
    }

    /** A subscriber connects: it announces what it has cached. */
    method Join(x: S.XSub, p: Pipe, s: Pipe)
      requires Valid() && x.Valid() && p !in x.logs && s !in links
      modifies this, pub, x
      ensures Valid() && links == old(links)[s := Link(x, p, 0)] && x.subscriptions == old(x.subscriptions)
    {
      hide Up, P.XPub.Valid, Subs, S.XSub.Valid;
      EndsTaken();
      Greet(x, p, s);
      Enter(pub, s);
      links := links[s := Link(x, p, 0)];
      FreshLink(pub.filters, s, links[s]);
    }

    lemma EndsTaken()
      requires Valid()
      ensures forall s :: s in links ==> links[s].p in links[s].x.logs
    {
    }

    /** A user subscribes or unsubscribes. */
    method UserSend(x: S.XSub, msg: bytes) returns (ok: bool)
      requires Valid() && x in Subscribers()
      modifies x
      ensures Valid() && ok == S.Decode(msg).Some?
      ensures ok ==> var c, n := S.Decode(msg).value, old(x.Count(S.Decode(msg).value.key));
        && x.Count(c.key) == (if c.Subscribe? then n + 1 else if n > 0 then n - 1 else 0)
        && forall k :: k != c.key ==> x.Count(k) == old(x.Count(k))
    {
      hide Heard, S.Announces, S.Decode;
      ok := x.Send(msg);
      forall s | s in links ensures Up(pub.filters, s, links[s]) {
        var l := links[s];
        if l.x == x { LogGrows(pub.filters, s, old(x.logs)[l.p], l.heard, x.logs[l.p]); }
      }
    }

    /** The publisher reads the next `n` messages of a link. */
    method Pass(s: Pipe, n: nat) returns (aborted: bool)
      requires Valid() && s in links && links[s].heard + n <= |links[s].x.logs[links[s].p]|
      modifies this, pub
      ensures !aborted ==> Valid() && links == old(links)[s := old(links)[s].(heard := old(links)[s].heard + n)]
      ensures aborted ==> var l := old(links)[s]; !AllKnown(l.x.logs[l.p][l.heard..l.heard + n], pub.known)
      ensures pub.dist == old(pub.dist)
    {
      hide Up, P.XPub.Valid, AllKnown;
      var l := links[s];
      aborted := Feed(s, l, n);
      if !aborted { links := links[s := l.(heard := l.heard + n)]; }
    }

    method Feed(s: Pipe, l: Link, n: nat) returns (aborted: bool)
      requires pub.Valid() && s in pub.dist.pipes && Up(pub.filters, s, l) && l.heard + n <= |l.x.logs[l.p]| && UpBut(pub.filters, s)
      modifies pub
      ensures aborted ==> !AllKnown(l.x.logs[l.p][l.heard..l.heard + n], pub.known)
      ensures !aborted ==> pub.Valid() && Up(pub.filters, s, l.(heard := l.heard + n)) && UpBut(pub.filters, s)
      ensures pub.dist == old(pub.dist)
    {
      hide Heard, S.Announces, P.Reading, SameFor, Trie.Valid, D.Valid;
      ghost var f := pub.filters;
      var piece := l.x.logs[l.p][l.heard..l.heard + n];
      HearsSome(f, s, l.x.logs[l.p], l.heard, l.heard + n, pub.known, l.x.subscriptions.Keys);
      var rest;
      aborted, rest := pub.ReadActivated(s, piece);
      if !aborted {
        forall t | t != s ensures SameFor(f, pub.filters, t) { OtherReading(f, s, piece, pub.known, t); }
        UpButSame(f, pub.filters, s);
      }
    }

    /** The publisher's half of losing a link. */
    method Lose(s: Pipe)
      requires pub.Valid() && Paired() && UpBut(pub.filters, s) && s in links && forall p :: Refs(pub.filters.prefix, p, s) <= 1
      modifies pub
      ensures pub.Valid() && UpBut(pub.filters, s) && forall q :: q in pub.dist.pipes <==> q in links && q != s
    {
      hide P.XPub.Valid, Up;
      ghost var f := pub.filters;
      Exit(pub, s);
      UpButSame(f, pub.filters, s);
    }

    /** The subscriber's: its pipe goes, or is announced to anew. */
    method Forget(s: Pipe, again: bool)
      requires Valid() && s in links
      modifies links[s].x
      ensures UpBut(pub.filters, s) && links[s].x.subscriptions == old(links[s].x.subscriptions)
      ensures again ==> links[s].x.Valid() && links[s].p in links[s].x.logs
    {
      hide Heard, S.Announces, P.XPub.Valid;
      var l := links[s];
      if again { l.x.Hiccuped(l.p, 2); } else { l.x.Terminated(l.p, 2); }
    }

    lemma LinkOnce(s: Pipe)
      requires Valid() && s in links
      ensures forall p :: Refs(pub.filters.prefix, p, s) <= 1
    {
      HeardOnce(pub.filters, s, links[s].x.logs[links[s].p], links[s].heard);
    }

    /** A subscriber disconnects. It held no prefix twice, so nothing of it is left. */
    method Leave(s: Pipe)
      requires Valid() && s in links
      modifies this, pub, links[s].x
      ensures Valid() && links == old(links) - {s} && old(links)[s].x.subscriptions == old(links[s].x.subscriptions)
    {
      hide Up, P.XPub.Valid;
      LinkOnce(s);
      Forget(s, false);
      Lose(s);
      links := links - {s};
    }

    /** The connection breaks and comes back: the publisher starts anew, the subscriber
        announces what it has cached again. */
    method Reconnect(s: Pipe)
      requires Valid() && s in links
      modifies this, pub, links[s].x
      ensures Valid() && links == old(links)[s := old(links)[s].(heard := 0)]
      ensures links[s].x.subscriptions == old(links[s].x.subscriptions)
    {
      hide Up, P.XPub.Valid;
      LinkOnce(s);
      Forget(s, true);
      Lose(s);
      Enter(pub, s);
      var l := links[s].(heard := 0);
      links := links[s := l];
      FreshLink(pub.filters, s, l);
    }

    /** The first part of a message goes, among the pipes that can take one, to exactly those
        whose subscriber has cached a prefix of it, if the publisher has heard all that the
        subscriber wrote. */
    method Publish(data: bytes, more: bool, open: set<Pipe>) returns (tried: seq<Pipe>)
      requires Valid()
      modifies pub
      ensures Valid() && D.NoDup(tried)
      ensures !old(pub.more) ==> forall s :: s in links && links[s].heard == |links[s].x.logs[links[s].p]| ==>
        (s in tried <==> s in old(D.EligibleSet(pub.dist)) && Cached(links[s].x, data))
      ensures D.EligibleSet(pub.dist) == old(D.EligibleSet(pub.dist)) - (D.Elements(tried) - open)
    {
      hide Heard, S.Announces, Trie.Valid, P.Wanted, Cached, D.NoDup, P.Attached;
      ghost var f, d := pub.filters, pub.dist;
      tried := pub.Send(data, more, open);
      forall s ensures s in pub.dist.pipes <==> s in d.pipes {
        DistRuns.InAll(d, s);
        DistRuns.InAll(pub.dist, s);
      }
      forall s | s in links && links[s].heard == |links[s].x.logs[links[s].p]| ensures P.Wanted(f.prefix, data, s) <==> Cached(links[s].x, data) {
        WantedIffCached(f, s, links[s], data);
      }
    }
  }

  lemma FreshLink(f: Filters, s: Pipe, l: Link)
    requires l.x.Valid() && l.p in l.x.logs && l.heard == 0 && forall q :: s !in Subs(f.prefix, q)
    ensures Up(f, s, l)
  {
    NothingHeard(f, s, l.x.logs[l.p]);
  }

  /** A subscriber has cached a prefix of the message. */
  predicate Cached(x: S.XSub, data: bytes)
    reads x
  {
    exists n :: 0 <= n <= |data| && S.Key(PREFIX, data[..n]) in x.subscriptions
  }

  lemma WantedIffCached(f: Filters, s: Pipe, l: Link, data: bytes)
    requires Trie.Valid(f.prefix) && Up(f, s, l) && l.heard == |l.x.logs[l.p]|
    ensures P.Wanted(f.prefix, data, s) <==> Cached(l.x, data)
  {
    hide Trie.Valid, Heard, S.Announces, Subs, Agrees, P.Wanted;
    AllHeard(f, s, l.x.logs[l.p], l.x.subscriptions.Keys);
    P.WantedIff(f.prefix, data, s);
    MatchesIffCached(f, s, l.x.subscriptions.Keys, data);
  }

  method Enter(pub: P.XPub, s: Pipe)
    requires pub.Valid() && s !in pub.dist.pipes
    modifies pub
    ensures pub.Valid() && pub.filters == old(pub.filters) && (forall q :: s !in Subs(pub.filters.prefix, q))
    ensures forall q :: q in pub.dist.pipes <==> q in old(pub.dist.pipes) || q == s
  {
    hide D.Valid, D.Attach, Trie.Valid;
    P.StillAttached(pub.dist, s);
    assert forall q :: s !in Subs(pub.filters.prefix, q);
    var aborted, rest := pub.AttachPipe(s, false, []);
  }

  method Exit(pub: P.XPub, s: Pipe)
    requires pub.Valid() && s in pub.dist.pipes && forall p :: Refs(pub.filters.prefix, p, s) <= 1
    modifies pub
    ensures pub.Valid() && (forall t :: t != s ==> SameFor(old(pub.filters), pub.filters, t))
    ensures forall q :: q in pub.dist.pipes <==> q in old(pub.dist.pipes) && q != s
  {
    hide D.Valid, D.Terminated, Trie.Valid, RmAll, SameFor;
    P.GoneFrom(pub.dist, s);
    ghost var f := pub.filters;
    forall t | t != s ensures SameFor(f, f.(prefix := RmAll(f.prefix, s, []).0), t) { OtherLeaves(f, s, t); }
    pub.Terminated(s);
  }
}
