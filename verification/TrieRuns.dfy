/** What the prefix filter promises, over every sequence of operations: it holds what
    a plain map would hold, it matches accordingly, and its shape is determined by
    its contents. */
module TrieRuns {
  import opened Options
  import opened Bytes
  import opened Trie
  import opened TrieRemoval
  import opened TrieRemoveAll

  // ---- Matching ----

  /** The subscribers signalled for `data`, each as often as it is signalled. */
  method Match(root: Node, data: bytes) returns (signals: multiset<Subscriber>)
    requires Valid(root)
    ensures forall s :: signals[s] == Occurrences(root, data, s, |data|)
  {
    var current, i := root, 0;
    signals := multiset{};
    assert forall q: bytes :: data[..0] + q == q;
    while true
      invariant 0 <= i <= |data| && Valid(current)
      invariant forall q :: Subs(current, q) == Subs(root, data[..i] + q)
      invariant forall s :: signals[s] == if i == 0 then 0 else Occurrences(root, data, s, i - 1)
      decreases |data| - i
    {
      signals := signals + multiset(Contents(current.subscribers).Keys);
      assert data[..i] + [] == data[..i];
      assert Subs(current, []) == Subs(root, data[..i]);
      assert forall s :: signals[s] == Occurrences(root, data, s, i);
      if i == |data| || Child(current, data[i]).None? {
        forall s ensures signals[s] == Occurrences(root, data, s, |data|) {
          NothingBelow(root, current, data, i, s, |data|);
        }
        return;
      }
      StepDown(root, current, data, i);
      ChildValid(current, data[i]);
      current, i := Child(current, data[i]).value, i + 1;
    }
  }

  /** How many prefixes of `data`, up to length `n`, the subscriber holds. */
  function Occurrences(t: Node, data: bytes, s: Subscriber, n: nat): nat
    requires n <= |data|
  {
    (if n == 0 then 0 else Occurrences(t, data, s, n - 1)) + Bit(s in Subs(t, data[..n]))
  }

  lemma StepDown(root: Node, current: Node, data: bytes, i: nat)
    requires i < |data| && Child(current, data[i]).Some?
    requires forall q :: Subs(current, q) == Subs(root, data[..i] + q)
    ensures forall q :: Subs(Child(current, data[i]).value, q) == Subs(root, data[..i + 1] + q)
  {
    forall q ensures Subs(Child(current, data[i]).value, q) == Subs(root, data[..i + 1] + q) {
      var r := [data[i]] + q;
      assert r[1..] == q;
      assert data[..i] + r == data[..i + 1] + q;
      assert Subs(current, r) == Subs(root, data[..i] + r);
    }
  }

  lemma {:induction false} NothingBelow(root: Node, current: Node, data: bytes, i: nat, s: Subscriber, n: nat)
    requires i <= n <= |data| && (i == |data| || Child(current, data[i]).None?)
    requires forall q :: Subs(current, q) == Subs(root, data[..i] + q)
    ensures Occurrences(root, data, s, n) == Occurrences(root, data, s, i)
  {
    if i < n {
      NothingBelow(root, current, data, i, s, n - 1);
      var q := data[i..n];
      assert data[..i] + q == data[..n];
      assert Subs(current, q) == map[];
    }
  }

  // ---- Canonical shape ----

  /** The same shape and contents; `min` says nothing where there is no child. */
  ghost predicate Same(t: Node, u: Node)
    decreases t
  {
    && t.subscribers == u.subscribers && t.live == u.live && |t.kids| == |u.kids|
    && (t.kids != [] ==> t.min == u.min)
    && forall i :: 0 <= i < |t.kids| ==>
         && (t.kids[i].Some? <==> u.kids[i].Some?)
         && (t.kids[i].Some? && u.kids[i].Some? ==> Same(t.kids[i].value, u.kids[i].value))
  }

  lemma SameChildren(t: Node, u: Node, c: byte)
    requires Valid(t) && Valid(u) && forall p :: Subs(t, p) == Subs(u, p)
    ensures Child(t, c).Some? ==> Child(u, c).Some?
    ensures Child(t, c).Some? ==> forall p :: Subs(Child(t, c).value, p) == Subs(Child(u, c).value, p)
  {
    if Child(t, c).Some? {
      var k := Child(t, c).value;
      ChildValid(t, c);
      var q := Witness(k);
      var r := [c] + q;
      assert r[1..] == q && Subs(t, r) == Subs(k, q);
      assert Subs(u, r) != map[];
      forall p ensures Subs(k, p) == Subs(Child(u, c).value, p) {
        var r := [c] + p;
        assert r[1..] == p && Subs(t, r) == Subs(u, r);
      }
    }
  }

  lemma EndsLive(t: Node)
    requires Valid(t) && t.kids != []
    ensures t.kids[0].Some? && t.kids[|t.kids| - 1].Some? && t.min + |t.kids| <= 256
    ensures Child(t, t.min as byte).Some? && Child(t, (t.min + |t.kids| - 1) as byte).Some?
  {
  }

  lemma RangeWithin(t: Node, u: Node)
    requires Valid(t) && Valid(u) && forall p :: Subs(t, p) == Subs(u, p)
    ensures t.kids != [] ==> u.min <= t.min && t.min + |t.kids| <= u.min + |u.kids|
  {
    hide Valid, Subs;
    if t.kids != [] {
      EndsLive(t);
      SameChildren(t, u, t.min as byte);
      SameChildren(t, u, (t.min + |t.kids| - 1) as byte);
    }
  }

  lemma SameRange(t: Node, u: Node)
    requires Valid(t) && Valid(u) && forall p :: Subs(t, p) == Subs(u, p)
    ensures |t.kids| == |u.kids| && (t.kids != [] ==> t.min == u.min)
  {
    RangeWithin(t, u);
    RangeWithin(u, t);
  }

  lemma {:induction false} SameCount(a: seq<Option<Node>>, b: seq<Option<Node>>)
    requires |a| == |b| && forall i :: 0 <= i < |a| ==> (a[i].Some? <==> b[i].Some?)
    ensures CountLive(a) == CountLive(b)
  {
    if a != [] {
      SameCount(a[1..], b[1..]);
    }
  }

  /** Equal contents, equal shape: the trie does not remember how it was built. */
  lemma {:induction false} Canonical(t: Node, u: Node)
    requires Valid(t) && Valid(u) && forall p :: Subs(t, p) == Subs(u, p)
    ensures Same(t, u)
    decreases t
  {
    SameRange(t, u);
    assert Subs(t, []) == Subs(u, []);
    forall i | 0 <= i < |t.kids|
      ensures t.kids[i].Some? <==> u.kids[i].Some?
      ensures t.kids[i].Some? && u.kids[i].Some? ==> Same(t.kids[i].value, u.kids[i].value)
    {
      var c := (t.min + i) as byte;
      assert Child(t, c) == t.kids[i] && Child(u, c) == u.kids[i];
      SameChildren(t, u, c);
      SameChildren(u, t, c);
      if t.kids[i].Some? {
        ChildValid(t, c);
        ChildValid(u, c);
        Canonical(t.kids[i].value, u.kids[i].value);
      }
    }
    SameCount(t.kids, u.kids);
  }

  /** Removing what was added leads back to the trie before, shape included. */
  lemma RmUndoesAdd(t: Node, p: bytes, s: Subscriber)
    requires Valid(t)
    ensures Valid(Add(t, p, s).0) && Same(Rm(Add(t, p, s).0, p, s).0, t)
  {
    hide Valid, Subs, Same, Add, Rm;
    AddValid(t, p, s);
    var u := Add(t, p, s).0;
    RmValid(u, p, s);
    forall q ensures Subs(Rm(u, p, s).0, q) == Subs(t, q) {
      UndoneSubs(t, p, s, q);
    }
    Canonical(Rm(u, p, s).0, t);
  }

  lemma UndoneSubs(t: Node, p: bytes, s: Subscriber, q: bytes)
    requires Valid(t) && Valid(Add(t, p, s).0)
    ensures Subs(Rm(Add(t, p, s).0, p, s).0, q) == Subs(t, q)
  {
    hide Valid, Subs, Add, Rm;
    AddSubs(t, p, s, q);
    AddSubs(t, p, s, p);
    RmSubs(Add(t, p, s).0, p, s, q);
    PositiveSubs(t, p);
    assert Drop(Bump(Subs(t, p), s), s) == Subs(t, p);
  }

  lemma {:induction false} PositiveSubs(t: Node, p: bytes)
    requires Valid(t)
    ensures forall s :: s in Subs(t, p) ==> Subs(t, p)[s] > 0
    decreases |p|
  {
    if p != [] && Child(t, p[0]).Some? {
      ChildValid(t, p[0]);
      PositiveSubs(Child(t, p[0]).value, p[1..]);
    }
  }

  // ---- Runs ----

  datatype Op = AddOp(p: bytes, s: Subscriber) | RmOp(p: bytes, s: Subscriber) | RmAllOp(s: Subscriber)

  /** The plain map the trie stands for: prefix to subscriber to references. */
  type Table = map<bytes, map<Subscriber, nat>>

  function Get(m: Table, p: bytes): map<Subscriber, nat> {
    if p in m then m[p] else map[]
  }

  function Plain(m: Table, op: Op): Table {
    match op
    case AddOp(p, s) => m[p := Bump(Get(m, p), s)]
    case RmOp(p, s) => m[p := Drop(Get(m, p), s)]
    case RmAllOp(s) => map p | p in m :: Drop(m[p], s)
  }

  function PlainRun(ops: seq<Op>): Table {
    if ops == [] then map[] else Plain(PlainRun(ops[..|ops| - 1]), ops[|ops| - 1])
  }

  ghost function Apply(t: Node, op: Op): Node
    requires Valid(t)
  {
    match op
    case AddOp(p, s) => Add(t, p, s).0
    case RmOp(p, s) => Rm(t, p, s).0
    case RmAllOp(s) => RmAll(t, s, []).0
  }

  lemma ApplyValid(t: Node, op: Op)
    requires Valid(t)
    ensures Valid(Apply(t, op))
  {
    match op {
      case AddOp(p, s) => AddValid(t, p, s);
      case RmOp(p, s) => RmValid(t, p, s);
      case RmAllOp(s) => RmAllValid(t, s, []);
    }
  }

  ghost function Run(ops: seq<Op>): (t: Node)
    ensures Valid(t)
  {
    if ops == [] then EMPTY
    else
      var t := Run(ops[..|ops| - 1]);
      ApplyValid(t, ops[|ops| - 1]);
      Apply(t, ops[|ops| - 1])
  }

  /** After any operations the trie is canonical and holds what the map holds. */
  lemma {:induction false} RunRefinesMap(ops: seq<Op>, p: bytes)
    ensures Valid(Run(ops)) && Subs(Run(ops), p) == Get(PlainRun(ops), p)
  {
    if ops == [] {
      EmptyValid();
    } else {
      var t, op := Run(ops[..|ops| - 1]), ops[|ops| - 1];
      RunRefinesMap(ops[..|ops| - 1], p);
      match op {
        case AddOp(q, s) => RunRefinesMap(ops[..|ops| - 1], q); AddSubs(t, q, s, p);
        case RmOp(q, s) => RunRefinesMap(ops[..|ops| - 1], q); RmSubs(t, q, s, p);
        case RmAllOp(s) => RmAllSubs(t, s, [], p);
      }
    }
  }

  /** Two histories that leave the same map leave the same trie. */
  lemma HistoryForgotten(ops: seq<Op>, others: seq<Op>)
    requires forall p :: Get(PlainRun(ops), p) == Get(PlainRun(others), p)
    ensures Same(Run(ops), Run(others))
  {
    forall p ensures Subs(Run(ops), p) == Subs(Run(others), p) {
      RunRefinesMap(ops, p);
      RunRefinesMap(others, p);
    }
    Canonical(Run(ops), Run(others));
  }
}
