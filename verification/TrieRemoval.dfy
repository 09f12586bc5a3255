/** Unsubscribing: one reference of one prefix, or one of every prefix. */
module TrieRemoval {
  import opened Options
  import opened Bytes
  import opened Trie

  // ---- Cutting a table down to its live range ----

  function Cut(t: Node, from: nat, to: nat): Node
    requires from <= to <= |t.kids|
  {
    t.(min := t.min + from, kids := t.kids[from..to])
  }

  /** Only null slots lie outside the cut. */
  ghost predicate Covers(kids: seq<Option<Node>>, from: nat, to: nat) {
    && from <= to <= |kids|
    && (forall i :: 0 <= i < from ==> kids[i].None?)
    && (forall i :: to <= i < |kids| ==> kids[i].None?)
  }

  lemma CutChild(t: Node, from: nat, to: nat, x: byte)
    requires Covers(t.kids, from, to)
    ensures Child(Cut(t, from, to), x) == Child(t, x)
  {
  }

  /** The live range of a table that has a child. */
  lemma CutValid(t: Node, from: nat, to: nat)
    requires Covers(t.kids, from, to) && from < to && t.kids[from].Some? && t.kids[to - 1].Some?
    requires ValidSubscribers(t.subscribers) && ValidKids(t.kids) && t.live == CountLive(t.kids)
    requires t.min + |t.kids| <= 256
    ensures Valid(Cut(t, from, to))
  {
    var r := Cut(t, from, to);
    CountSlice(t.kids, from, to);
    CountNone(r.kids);
    if |r.kids| >= 2 {
      TwoLive(r.kids);
    }
    assert ValidKids(r.kids);
  }

  lemma TwoLive(kids: seq<Option<Node>>)
    requires |kids| >= 2 && kids[0].Some? && kids[|kids| - 1].Some?
    ensures CountLive(kids) >= 2
  {
    assert kids == [kids[0]] + kids[1..];
    CountConcat([kids[0]], kids[1..]);
    CountNone(kids[1..]);
    assert kids[1..][|kids| - 2].Some?;
  }

  /** A table with one child has only that one. */
  lemma OneLive(kids: seq<Option<Node>>)
    requires CountLive(kids) == 1
    ensures var j := FirstLive(kids, 0); j < |kids| && Covers(kids, j, j + 1)
  {
    CountNone(kids);
    var j := FirstLive(kids, 0);
    CountUpdate(kids, j, None);
    CountNone(kids[j := None]);
    assert forall k :: 0 <= k < |kids| && k != j ==> kids[k] == kids[j := None][k];
  }

  // ---- Pruning one child ----

  /** The slots that stay when child `i` is taken out. */
  function Kept(t: Node, i: nat): (r: (nat, nat))
    requires i < |t.kids| && |t.kids| > 1
  {
    var kids := t.kids[i := None];
    if t.live == 2 then (FirstLive(kids, 0), FirstLive(kids, 0) + 1)
    else (if i == 0 then FirstLive(kids, 1) else 0, if i == |kids| - 1 then LastLive(kids, |kids| - 1) else |kids|)
  }

  lemma KeptCovers(t: Node, i: nat)
    requires ValidTable(t) && i < |t.kids| && t.kids[i].Some? && |t.kids| > 1
    ensures var kids := t.kids[i := None]; var (from, to) := Kept(t, i);
      && CountLive(kids) == t.live - 1
      && from < to <= |kids| && Covers(kids, from, to) && kids[from].Some? && kids[to - 1].Some?
  {
    var kids := t.kids[i := None];
    CountUpdate(t.kids, i, None);
    CountNone(kids);
    hide CountLive;
    if t.live == 2 {
      OneLive(kids);
    } else if i == 0 {
      assert kids[|kids| - 1].Some?;
    } else {
      assert kids[0].Some?;
    }
  }

  lemma KeptInRange(t: Node, i: nat)
    requires ValidTable(t) && i < |t.kids| && t.kids[i].Some? && |t.kids| > 1
    ensures Kept(t, i).0 < Kept(t, i).1 <= |t.kids| && t.live >= 2
  {
    KeptCovers(t, i);
  }

  /** The table that pruning leaves, by where the child was. */
  lemma PruneCases(t: Node, i: nat)
    requires ValidTable(t) && i < |t.kids| && t.kids[i].Some? && |t.kids| > 1 && Kept(t, i).0 < Kept(t, i).1 <= |t.kids| && t.live >= 2
    ensures Prune(t, i) == var kids, k := t.kids[i := None], Kept(t, i);
      Node(t.subscribers, t.min + k.0, t.live - 1, if k == (0, |kids|) && t.live > 2 && 0 < i < |kids| - 1 then kids else kids[k.0..k.1])
  {
    hide ValidTable, FirstLive, LastLive;
  }

  lemma PruneIsCut(t: Node, i: nat)
    requires ValidTable(t) && i < |t.kids| && t.kids[i].Some? && |t.kids| > 1
    ensures var u := t.(kids := t.kids[i := None], live := t.live - 1); var (from, to) := Kept(t, i);
      from <= to <= |u.kids| && Prune(t, i) == Cut(u, from, to)
  {
    hide ValidTable, Kept, Prune, Cut;
    KeptInRange(t, i);
    PruneCases(t, i);
    var kids := t.kids[i := None];
    CutIs(t.(kids := kids, live := t.live - 1), Kept(t, i).0, Kept(t, i).1);
    WholeSlice(kids);
  }

  lemma CutIs(t: Node, from: nat, to: nat)
    requires from <= to <= |t.kids|
    ensures Cut(t, from, to) == Node(t.subscribers, t.min + from, t.live, t.kids[from..to])
  {
  }

  lemma WholeSlice(kids: seq<Option<Node>>)
    ensures kids[0..|kids|] == kids
  {
  }

  lemma PruneTable(t: Node, i: nat, x: byte)
    requires Valid(t) && i < |t.kids| && t.kids[i].Some? && |t.kids| > 1
    ensures Child(Prune(t, i), x) == if x as nat == t.min + i then None else Child(t, x)
    ensures Valid(Prune(t, i))
  {
    hide Prune, Kept, Valid, CountLive, Cut, Child, ValidKids, Covers, ValidSubscribers;
    PulledOut(t, i, x);
    KeptCovers(t, i);
    PruneIsCut(t, i);
    var u := t.(kids := t.kids[i := None], live := t.live - 1);
    SameChild(u, t.(kids := t.kids[i := None]), x);
    CutChild(u, Kept(t, i).0, Kept(t, i).1, x);
    CutValid(u, Kept(t, i).0, Kept(t, i).1);
  }

  lemma SameChild(t: Node, u: Node, x: byte)
    requires t.min == u.min && t.kids == u.kids
    ensures Child(t, x) == Child(u, x)
  {
  }

  lemma PulledOut(t: Node, i: nat, x: byte)
    requires Valid(t) && i < |t.kids|
    ensures ValidTable(t) && ValidSubscribers(t.subscribers) && ValidKids(t.kids[i := None])
    ensures var u := t.(kids := t.kids[i := None]);
      Child(u, x) == if x as nat == t.min + i then None else Child(t, x)
  {
    hide CountLive;
  }

  lemma PruneChild(t: Node, i: nat, x: byte)
    requires Valid(t) && i < |t.kids| && t.kids[i].Some?
    ensures Child(Prune(t, i), x) == if x as nat == t.min + i then None else Child(t, x)
    ensures Valid(Prune(t, i))
  {
    if |t.kids| > 1 {
      PruneTable(t, i, x);
    } else {
      assert t.kids[1..] == [];
      assert CountLive(t.kids) == 1;
    }
  }

  // ---- Removing one reference ----

  lemma DropValid(m: map<Subscriber, nat>, s: Subscriber)
    requires forall x :: x in m ==> m[x] > 0
    ensures ValidSubscribers(Pack(Drop(m, s)))
  {
  }

  lemma RmChild(t: Node, p: bytes, s: Subscriber, x: byte)
    requires Valid(t) && p != [] && Child(t, p[0]).Some?
    requires Valid(Rm(Child(t, p[0]).value, p[1..], s).0)
    ensures var (r, last) := Rm(t, p, s); var (k, below) := Rm(Child(t, p[0]).value, p[1..], s);
      && r.subscribers == t.subscribers && last == below && Valid(r)
      && Child(r, x) == if x != p[0] then Child(t, x) else if Redundant(k) then None else Some(k)
  {
    hide Rm, Prune, ValidTable, Valid, Redundant;
    ChildValid(t, p[0]);
    var i, k := p[0] as nat - t.min, Rm(Child(t, p[0]).value, p[1..], s).0;
    RmIs(t, p, s);
    if Redundant(k) {
      PruneChild(t, i, x);
    } else {
      ReplaceValid(t, i, k);
    }
  }

  lemma RmIs(t: Node, p: bytes, s: Subscriber)
    requires Valid(t) && p != [] && Child(t, p[0]).Some?
    ensures var i := p[0] as nat - t.min; var (k, below) := Rm(Child(t, p[0]).value, p[1..], s);
      && ValidTable(t)
      && Rm(t, p, s) == (if Redundant(k) then Prune(t, i) else t.(kids := t.kids[i := Some(k)]), below)
      && Prune(t, i).subscribers == t.subscribers
  {
    hide CountLive, FirstLive, LastLive;
  }

  lemma ReplaceValid(t: Node, i: nat, k: Node)
    requires Valid(t) && i < |t.kids| && t.kids[i].Some? && Valid(k) && !Redundant(k)
    ensures Valid(t.(kids := t.kids[i := Some(k)]))
  {
    assert ValidKids(t.kids);
    SetChild(t, i, k);
  }

  lemma {:induction false} RmValid(t: Node, p: bytes, s: Subscriber)
    requires Valid(t)
    ensures Valid(Rm(t, p, s).0)
    decreases |p|
  {
    if p == [] {
      DropValid(Contents(t.subscribers), s);
      SubscribersValid(t, Pack(Drop(Contents(t.subscribers), s)));
    } else if Child(t, p[0]).Some? {
      RmValid(Child(t, p[0]).value, p[1..], s);
      RmChild(t, p, s, p[0]);
    }
  }

  lemma RedundantEmpty(t: Node, p: bytes)
    requires Valid(t) && Redundant(t)
    ensures Subs(t, p) == map[]
  {
    CountNone(t.kids);
  }

  /** Removing drops one reference at the prefix and touches nothing else. */
  lemma {:induction false} RmSubs(t: Node, p: bytes, s: Subscriber, q: bytes)
    requires Valid(t)
    ensures Subs(Rm(t, p, s).0, q) == if q == p then Drop(Subs(t, p), s) else Subs(t, q)
    decreases |p|
  {
    hide Rm, Child, Valid, Redundant, Drop, Subs;
    if p == [] {
      RmHereSubs(t, s, q);
    } else if Child(t, p[0]).None? {
      NoChildSubs(t, p, s);
    } else {
      var k := Child(t, p[0]).value;
      ChildValid(t, p[0]);
      RmValid(k, p[1..], s);
      ChildSubs(t, t, p);
      if q == [] {
        RmChild(t, p, s, p[0]);
        HereSubs(t, Rm(t, p, s).0);
      } else {
        RmChild(t, p, s, q[0]);
        RmSubs(k, p[1..], s, q[1..]);
        ChildSubs(Rm(t, p, s).0, t, q);
        ChildSubs(t, t, q);
        assert q == p <==> q[0] == p[0] && q[1..] == p[1..] by {
          assert p == [p[0]] + p[1..] && q == [q[0]] + q[1..];
        }
        if Redundant(Rm(k, p[1..], s).0) {
          RedundantEmpty(Rm(k, p[1..], s).0, q[1..]);
        }
      }
    }
  }

  lemma ChildValid(t: Node, c: byte)
    requires Valid(t) && Child(t, c).Some?
    ensures Valid(Child(t, c).value) && !Redundant(Child(t, c).value)
  {
  }

  lemma NoChildSubs(t: Node, p: bytes, s: Subscriber)
    requires Valid(t) && p != [] && Child(t, p[0]).None?
    ensures Rm(t, p, s).0 == t && Subs(t, p) == Drop(Subs(t, p), s)
  {
  }

  lemma RmHereSubs(t: Node, s: Subscriber, q: bytes)
    requires Valid(t)
    ensures Subs(Rm(t, [], s).0, q) == if q == [] then Drop(Subs(t, []), s) else Subs(t, q)
  {
  }

  // ---- The answer of a removal ----

  /** There is a node for prefix `p`. */
  predicate HasNode(t: Node, p: bytes)
    decreases |p|
  {
    p == [] || (Child(t, p[0]).Some? && HasNode(Child(t, p[0]).value, p[1..]))
  }

  /** A node that is not redundant leads to a subscription. */
  lemma {:induction false} Witness(t: Node) returns (q: bytes)
    requires Valid(t) && !Redundant(t)
    ensures Subs(t, q) != map[]
    decreases t
  {
    if t.subscribers.Some? {
      q := [];
    } else {
      CountNone(t.kids);
      var i :| 0 <= i < |t.kids| && t.kids[i].Some?;
      var rest := Witness(t.kids[i].value);
      q := [(t.min + i) as byte] + rest;
      assert q[1..] == rest;
    }
  }

  predicate Held(t: Node, q: bytes) {
    Subs(t, q) != map[]
  }

  lemma {:induction false} NodeLeads(t: Node, p: bytes) returns (q: bytes)
    requires Valid(t) && HasNode(t, p) && (p == [] ==> !Redundant(t))
    ensures p <= q && Held(t, q)
    decreases |p|
  {
    if p == [] {
      q := Witness(t);
    } else {
      ChildValid(t, p[0]);
      var r := NodeLeads(Child(t, p[0]).value, p[1..]);
      q := [p[0]] + r;
      assert q[1..] == r;
    }
  }

  lemma {:induction false} HeldHasNode(t: Node, p: bytes, q: bytes)
    requires Valid(t) && p <= q && Held(t, q)
    ensures HasNode(t, p)
    decreases |p|
  {
    if p != [] {
      ChildValid(t, p[0]);
      HeldHasNode(Child(t, p[0]).value, p[1..], q[1..]);
    }
  }

  /** A node is there exactly when it is the root or some subscribed prefix passes
      through it. */
  lemma NodeIffSubscribed(t: Node, p: bytes)
    requires Valid(t)
    ensures HasNode(t, p) <==> p == [] || exists q :: p <= q && Held(t, q)
  {
    if p != [] && HasNode(t, p) {
      var q := NodeLeads(t, p);
    }
    forall q | p <= q && Held(t, q) ensures HasNode(t, p) {
      HeldHasNode(t, p, q);
    }
  }

  lemma {:induction false} RmAnswer(t: Node, p: bytes, s: Subscriber)
    requires Valid(t)
    ensures Rm(t, p, s).1 <==> HasNode(t, p) && Drop(Subs(t, p), s) == map[]
    decreases |p|
  {
    if p != [] && Child(t, p[0]).Some? {
      ChildValid(t, p[0]);
      RmAnswer(Child(t, p[0]).value, p[1..], s);
    }
  }

  /** Removal answers true exactly when nobody holds the prefix afterwards and, but
      for the empty prefix, somebody held it or a longer one before: so also for a
      prefix that was never subscribed, if it is the beginning of one that was. */
  lemma RmTrueIff(t: Node, p: bytes, s: Subscriber)
    requires Valid(t)
    ensures Rm(t, p, s).1 <==>
      !Held(Rm(t, p, s).0, p) && (p == [] || exists q :: p <= q && Held(t, q))
  {
    RmAnswer(t, p, s);
    NodeIffSubscribed(t, p);
    RmSubs(t, p, s, p);
  }

  /** So it answers true for whoever removes a proper prefix of the only one subscribed. */
  lemma RmOfStranger(p: bytes, q: bytes, s: Subscriber, r: Subscriber)
    requires p < q
    ensures var t := Add(EMPTY, q, s).0; Valid(t) && !Held(t, p) && Rm(t, p, r).1
  {
    hide Add, Rm, Valid, Subs;
    EmptyValid();
    AddValid(EMPTY, q, s);
    var t := Add(EMPTY, q, s).0;
    AddSubs(EMPTY, q, s, p);
    AddSubs(EMPTY, q, s, q);
    RmTrueIff(t, p, r);
    RmSubs(t, p, r, p);
    assert p <= q && Held(t, q);
  }
}
