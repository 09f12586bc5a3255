/** Agreement of the two ends of subscription forwarding: what the subscriber wrote to a
    pipe makes the publisher's filters hold just what the subscriber's cache holds. */
module PubSub {
  import opened Options
  import opened Bytes
  import opened Trie
  import opened TrieRemoval
  import opened TrieRemoveAll
  import TrieRuns
  import opened XSub

  const PREFIX := 1

  /** The publisher's filters: the ids of those created, and the prefix filter. */
  datatype Filters = Filters(created: set<nat>, prefix: Node)

  /** One message of pipe `s`. None is a failed assertion: an unknown filter, or an
      unsubscription from a filter never created. `known` are the filters registered. */
  ghost function Heed(f: Filters, s: Subscriber, msg: bytes, known: set<nat>): Option<Filters>
    requires Valid(f.prefix)
  {
    match Decode(msg)
    case None => Some(f)
    case Some(Subscribe(k)) =>
      if k.filter !in f.created && k.filter !in known then None
      else Some(Filters(f.created + {k.filter}, if k.filter == PREFIX then Add(f.prefix, k.data, s).0 else f.prefix))
    case Some(Unsubscribe(k)) =>
      if k.filter !in f.created then None
      else Some(f.(prefix := if k.filter == PREFIX then Rm(f.prefix, k.data, s).0 else f.prefix))
  }

  lemma HeedValid(f: Filters, s: Subscriber, msg: bytes, known: set<nat>)
    requires Valid(f.prefix)
    ensures Heed(f, s, msg, known).Some? ==> Valid(Heed(f, s, msg, known).value.prefix)
  {
    match Decode(msg)
    case None =>
    case Some(Subscribe(k)) => AddValid(f.prefix, k.data, s);
    case Some(Unsubscribe(k)) => RmValid(f.prefix, k.data, s);
  }

  /** A message of the pipe in question, or anything other pipes do meanwhile: they
      create filters and change their own references. */
  datatype Event = Mine(msg: bytes) | Theirs(op: TrieRuns.Op, filters: set<nat>)

  ghost function Run(f: Filters, s: Subscriber, trace: seq<Event>, known: set<nat>): (r: Option<Filters>)
    requires Valid(f.prefix)
    ensures r.Some? ==> Valid(r.value.prefix)
    decreases |trace|
  {
    if trace == [] then Some(f)
    else
      match Run(f, s, trace[..|trace| - 1], known)
      case None => None
      case Some(g) =>
        match trace[|trace| - 1]
        case Mine(msg) => HeedValid(g, s, msg, known); Heed(g, s, msg, known)
        case Theirs(op, filters) => TrieRuns.ApplyValid(g.prefix, op); Some(Filters(g.created + filters, TrieRuns.Apply(g.prefix, op)))
  }

  function Messages(trace: seq<Event>): seq<bytes> {
    if trace == [] then []
    else
      var e := trace[|trace| - 1];
      Messages(trace[..|trace| - 1]) + if e.Mine? then [e.msg] else []
  }

  /** The pipe's references to a prefix. */
  function Refs(t: Node, p: bytes, s: Subscriber): nat {
    var m := Subs(t, p);
    if s in m then m[s] else 0
  }

  lemma TheirsKeepRefs(t: Node, op: TrieRuns.Op, p: bytes, s: Subscriber)
    requires Valid(t) && op.s != s
    ensures Refs(TrieRuns.Apply(t, op), p, s) == Refs(t, p, s)
  {
    match op
    case AddOp(q, _) => AddSubs(t, q, op.s, p);
    case RmOp(q, _) => RmSubs(t, q, op.s, p);
    case RmAllOp(_) => RmAllSubs(t, op.s, [], p);
  }

  lemma AddRefs(t: Node, q: bytes, p: bytes, s: Subscriber)
    requires Valid(t)
    ensures Refs(Add(t, q, s).0, p, s) == Refs(t, p, s) + if p == q then 1 else 0
  {
    AddSubs(t, q, s, p);
  }

  lemma RmRefs(t: Node, q: bytes, p: bytes, s: Subscriber)
    requires Valid(t) && Refs(t, q, s) == 1
    ensures Refs(Rm(t, q, s).0, p, s) == if p == q then 0 else Refs(t, p, s)
  {
    RmSubs(t, q, s, p);
  }

  /** The filters hold one reference of `s` to each of `keys` and no other. */
  ghost predicate Agrees(f: Filters, s: Subscriber, keys: set<Key>) {
    && (forall k :: k in keys ==> k.filter in f.created)
    && forall p :: Refs(f.prefix, p, s) == if Key(PREFIX, p) in keys then 1 else 0
  }

  predicate AllKnown(log: seq<bytes>, known: set<nat>) {
    forall i :: 0 <= i < |log| ==> Decode(log[i]).Some? && Decode(log[i]).value.Subscribe? ==> Decode(log[i]).value.key.filter in known
  }

  lemma HeedAgrees(f: Filters, s: Subscriber, msg: bytes, known: set<nat>, keys: set<Key>)
    requires Valid(f.prefix) && Agrees(f, s, keys) && Decode(msg).Some? && AllKnown([msg], known)
    requires Decode(msg).value.Subscribe? <==> Decode(msg).value.key !in keys
    ensures var k := Decode(msg).value.key; var r := Heed(f, s, msg, known);
      r.Some? && Agrees(r.value, s, if k in keys then keys - {k} else keys + {k})
  {
    hide Valid, Subs, Add, Rm;
    var k := Decode(msg).value.key;
    assert [msg][0] == msg;
    var r := Heed(f, s, msg, known);
    if k.filter == PREFIX {
      assert k == Key(PREFIX, k.data);
      forall p ensures Refs(r.value.prefix, p, s) == if Key(PREFIX, p) in (if k in keys then keys - {k} else keys + {k}) then 1 else 0 {
        if k in keys { RmRefs(f.prefix, k.data, p, s); } else { AddRefs(f.prefix, k.data, p, s); }
      }
    }
  }

  /** Start from filters without a reference of `s`. Let the pipe deliver messages that
      announce `keys`, with anything of other pipes in between: no assertion fails, and
      the filters hold exactly one reference of `s` to each of `keys`. */
  lemma {:induction false} Agreement(f: Filters, s: Subscriber, trace: seq<Event>, known: set<nat>, keys: set<Key>)
    requires Valid(f.prefix) && (forall p :: s !in Subs(f.prefix, p))
    requires forall e :: e in trace && e.Theirs? ==> e.op.s != s
    requires Announces(Messages(trace), keys) && AllKnown(Messages(trace), known)
    ensures var r := Run(f, s, trace, known); r.Some? && Agrees(r.value, s, keys)
    decreases |trace|
  {
    hide Valid, Subs;
    if trace == [] {
      NoRefs(f, s);
    } else {
      var n := |trace| - 1;
      var log := Messages(trace[..n]);
      match trace[n] {
        case Mine(msg) =>
          assert Messages(trace) == log + [msg];
          LastMessage(log, msg, keys, known);
          var k := Decode(msg).value.key;
          var before := if Decode(msg).value.Subscribe? then keys - {k} else keys + {k};
          Agreement(f, s, trace[..n], known, before);
          var g := Run(f, s, trace[..n], known).value;
          HeedAgrees(g, s, msg, known, before);
          assert (if k in before then before - {k} else before + {k}) == keys;
        case Theirs(op, filters) =>
          assert Messages(trace) == log;
          assert trace[n] in trace;
          Agreement(f, s, trace[..n], known, keys);
          var g := Run(f, s, trace[..n], known).value;
          forall p { TheirsKeepRefs(g.prefix, op, p, s); }
      }
    }
  }

  lemma NoRefs(f: Filters, s: Subscriber)
    requires forall p :: s !in Subs(f.prefix, p)
    ensures Agrees(f, s, {})
  {
  }

  lemma LastMessage(log: seq<bytes>, msg: bytes, keys: set<Key>, known: set<nat>)
    requires Announces(log + [msg], keys) && AllKnown(log + [msg], known)
    ensures Decode(msg).Some? && AllKnown(log, known) && AllKnown([msg], known)
    ensures var c := Decode(msg).value;
      if c.Subscribe? then c.key in keys && Announces(log, keys - {c.key}) else c.key !in keys && Announces(log, keys + {c.key})
  {
    var all := log + [msg];
    assert all[..|log|] == log && all[|log|] == msg;
    assert forall i :: 0 <= i < |log| ==> all[i] == log[i];
  }

  /** So the publisher signals the pipe for a message if and only if a cached prefix
      matches it. */
  lemma MatchesIffCached(f: Filters, s: Subscriber, keys: set<Key>, data: bytes)
    requires Valid(f.prefix) && Agrees(f, s, keys)
    ensures TrieRuns.Occurrences(f.prefix, data, s, |data|) > 0 <==> exists n :: 0 <= n <= |data| && Key(PREFIX, data[..n]) in keys
  {
    OccursIff(f.prefix, data, s, |data|);
    forall n | 0 <= n <= |data| ensures s in Subs(f.prefix, data[..n]) <==> Key(PREFIX, data[..n]) in keys {
      TrieRuns.PositiveSubs(f.prefix, data[..n]);
      assert Refs(f.prefix, data[..n], s) == if Key(PREFIX, data[..n]) in keys then 1 else 0;
    }
  }

  lemma {:induction false} OccursIff(t: Node, data: bytes, s: Subscriber, m: nat)
    requires m <= |data|
    ensures TrieRuns.Occurrences(t, data, s, m) > 0 <==> exists n :: 0 <= n <= m && s in Subs(t, data[..n])
  {
    if m > 0 { OccursIff(t, data, s, m - 1); }
  }
}
