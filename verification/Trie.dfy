/** The prefix-subscription trie as a value: each node is empty, has a single child
    or a dense table of children, grows on both sides and is pruned and compacted.
    `|kids|` is the node's `count`; a single child is a table of one. */
module Trie {
  import opened Options
  import opened Bytes

  type Subscriber = nat

  datatype Node = Node(subscribers: Option<map<Subscriber, nat>>, min: nat, live: nat, kids: seq<Option<Node>>)

  const EMPTY := Node(None, 0, 0, [])

  predicate Redundant(t: Node) {
    t.subscribers.None? && t.live == 0
  }

  // ---- Subscribers of one node ----

  function Bump(m: map<Subscriber, nat>, s: Subscriber): map<Subscriber, nat> {
    m[s := if s in m then m[s] + 1 else 1]
  }

  function Drop(m: map<Subscriber, nat>, s: Subscriber): map<Subscriber, nat> {
    if s !in m then m
    else if m[s] <= 1 then m - {s}
    else m[s := m[s] - 1]
  }

  function Contents(o: Option<map<Subscriber, nat>>): map<Subscriber, nat> {
    if o.Some? then o.value else map[]
  }

  function Pack(m: map<Subscriber, nat>): Option<map<Subscriber, nat>> {
    if m == map[] then None else Some(m)
  }

  // ---- Children ----

  function Child(t: Node, c: byte): Option<Node> {
    if t.min <= c as nat < t.min + |t.kids| then t.kids[c as nat - t.min] else None
  }

  function Nulls(n: nat): seq<Option<Node>> {
    seq(n, _ => None)
  }

  /** Makes room for character `c`. */
  function Grow(t: Node, c: nat): (g: Node)
    ensures g.min <= c < g.min + |g.kids|
  {
    var count := |t.kids|;
    if t.min <= c < t.min + count then t
    else if count == 0 then t.(min := c, kids := [None])
    else if count == 1 then
      var min := if t.min < c then t.min else c;
      var n := (if t.min < c then c - t.min else t.min - c) + 1;
      t.(min := min, kids := Nulls(n)[t.min - min := t.kids[0]])
    else if t.min < c then t.(kids := t.kids + Nulls(c - t.min + 1 - count))
    else t.(min := c, kids := Nulls(t.min - c) + t.kids)
  }

  /** The first non-null child at or after `i`; the length if there is none. */
  function FirstLive(kids: seq<Option<Node>>, i: nat): (j: nat)
    requires i <= |kids|
    ensures i <= j <= |kids| && (j < |kids| ==> kids[j].Some?)
    ensures forall k :: i <= k < j ==> kids[k].None?
    decreases |kids| - i
  {
    if i == |kids| || kids[i].Some? then i else FirstLive(kids, i + 1)
  }

  /** One past the last non-null child before `i`; 0 if there is none. */
  function LastLive(kids: seq<Option<Node>>, i: nat): (j: nat)
    requires i <= |kids|
    ensures j <= i && (j > 0 ==> kids[j - 1].Some?)
    ensures forall k :: j <= k < i ==> kids[k].None?
  {
    if i == 0 || kids[i - 1].Some? then i else LastLive(kids, i - 1)
  }

  function Bit(b: bool): nat {
    if b then 1 else 0
  }

  function CountLive(kids: seq<Option<Node>>): nat {
    if kids == [] then 0 else Bit(kids[0].Some?) + CountLive(kids[1..])
  }

  // ---- Shape ----

  /** Canonical shape: no redundant child, `live` counts the children, a single
      child is real, a table has at least two children and one at each end. */
  ghost predicate Valid(t: Node) {
    && ValidSubscribers(t.subscribers)
    && ValidTable(t)
    && (forall i :: 0 <= i < |t.kids| && t.kids[i].Some? ==> Valid(t.kids[i].value) && !Redundant(t.kids[i].value))
  }

  predicate ValidTable(t: Node) {
    && t.min < 256 && t.min + |t.kids| <= 256
    && t.live == CountLive(t.kids)
    && (|t.kids| == 1 ==> t.kids[0].Some?)
    && (|t.kids| >= 2 ==> t.live >= 2 && t.kids[0].Some? && t.kids[|t.kids| - 1].Some?)
  }

  // ---- Adding ----

  /** The new trie, and whether the prefix had no subscriber before. */
  function Add(t: Node, p: bytes, s: Subscriber): (Node, bool)
    decreases |p|
  {
    if p == [] then (t.(subscribers := Some(Bump(Contents(t.subscribers), s))), t.subscribers.None?)
    else
      var g := Grow(t, p[0] as nat);
      var i := p[0] as nat - g.min;
      var kid := if g.kids[i].Some? then g.kids[i].value else EMPTY;
      var (k, first) := Add(kid, p[1..], s);
      (g.(kids := g.kids[i := Some(k)], live := if g.kids[i].Some? then g.live else g.live + 1), first)
  }

  // ---- Removing ----

  /** Takes child `i` out and compacts the table from whichever side it can. */
  function Prune(t: Node, i: nat): Node
    requires ValidTable(t) && i < |t.kids| && t.kids[i].Some?
  {
    LiveChild(t.kids, i);
    if |t.kids| == 1 then t.(kids := [], live := t.live - 1)
    else
      var kids := t.kids[i := None];
      var live := t.live - 1;
      if live == 1 then
        var j := FirstLive(kids, 0);
        if j == |kids| then t else t.(min := t.min + j, live := live, kids := kids[j..j + 1])
      else if i == 0 then
        var j := FirstLive(kids, 1);
        t.(min := t.min + j, live := live, kids := kids[j..|kids|])
      else if i == |kids| - 1 then t.(live := live, kids := kids[0..LastLive(kids, |kids| - 1)])
      else t.(live := live, kids := kids)
  }

  /** The new trie, and whether the prefix has a node and no subscriber now. */
  function Rm(t: Node, p: bytes, s: Subscriber): (Node, bool)
    requires Valid(t)
    decreases |p|
  {
    if p == [] then
      var left := Pack(Drop(Contents(t.subscribers), s));
      (t.(subscribers := left), left.None?)
    else if Child(t, p[0]).None? then (t, false)
    else
      var i := p[0] as nat - t.min;
      var (k, last) := Rm(t.kids[i].value, p[1..], s);
      LiveChild(t.kids, i);
      if Redundant(k) then (Prune(t, i), last)
      else (t.(kids := t.kids[i := Some(k)]), last)
  }

  /** Drops one reference of `s` everywhere. `buff` is the way from the root; the
      second result lists the prefixes that lost their last subscriber. */
  function RmAll(t: Node, s: Subscriber, buff: bytes): (Node, seq<bytes>)
    requires Valid(t)
    decreases t, 1
  {
    var left := Pack(Drop(Contents(t.subscribers), s));
    var gone := if t.subscribers.Some? && left.None? then [buff] else [];
    var rest := t.(subscribers := left);
    if |t.kids| == 0 then (rest, gone)
    else if |t.kids| == 1 then
      var (k, below) := RmAll(t.kids[0].value, s, buff + [t.min as byte]);
      (if Redundant(k) then rest.(kids := [], live := 0) else rest.(kids := [Some(k)]), gone + below)
    else
      var (kids, below) := RmAllFrom(t, 0, s, buff);
      (Compact(rest.(kids := kids, live := CountLive(kids))), gone + below)
  }

  /** The loop over the table, from slot `i` on. */
  function RmAllFrom(t: Node, i: nat, s: Subscriber, buff: bytes): (r: (seq<Option<Node>>, seq<bytes>))
    requires Valid(t) && i <= |t.kids|
    ensures |r.0| == |t.kids| - i
    decreases t, 0, |t.kids| - i
  {
    if i == |t.kids| then ([], [])
    else
      var (rest, later) := RmAllFrom(t, i + 1, s, buff);
      if t.kids[i].None? then ([None] + rest, later)
      else
        var (k, below) := RmAll(t.kids[i].value, s, buff + [(t.min + i) as byte]);
        ([if Redundant(k) then None else Some(k)] + rest, below + later)
  }

  /** Shrinks a table to its live range, to a single child or to nothing. */
  function Compact(t: Node): Node {
    var first, last := FirstLive(t.kids, 0), LastLive(t.kids, |t.kids|);
    if t.live == 0 || first >= last then t.(kids := [])
    else if t.live == 1 then t.(min := t.min + first, kids := [t.kids[first]])
    else t.(min := t.min + first, kids := t.kids[first..last])
  }

  // ---- Counting children ----

  lemma {:induction false} CountConcat(a: seq<Option<Node>>, b: seq<Option<Node>>)
    ensures CountLive(a + b) == CountLive(a) + CountLive(b)
  {
    if a == [] {
      assert a + b == b;
    } else {
      assert (a + b)[1..] == a[1..] + b;
      CountConcat(a[1..], b);
    }
  }

  lemma CountUpdate(kids: seq<Option<Node>>, i: nat, x: Option<Node>)
    requires i < |kids|
    ensures CountLive(kids[i := x]) == CountLive(kids) - Bit(kids[i].Some?) + Bit(x.Some?)
  {
    assert kids == kids[..i] + ([kids[i]] + kids[i + 1..]);
    assert kids[i := x] == kids[..i] + ([x] + kids[i + 1..]);
    CountConcat(kids[..i], [kids[i]] + kids[i + 1..]);
    CountConcat(kids[..i], [x] + kids[i + 1..]);
    CountConcat([kids[i]], kids[i + 1..]);
    CountConcat([x], kids[i + 1..]);
  }

  lemma {:induction false} CountNone(kids: seq<Option<Node>>)
    ensures CountLive(kids) <= |kids|
    ensures CountLive(kids) == 0 <==> forall i :: 0 <= i < |kids| ==> kids[i].None?
  {
    if kids != [] {
      CountNone(kids[1..]);
      if CountLive(kids) == 0 {
        forall i | 0 <= i < |kids| ensures kids[i].None? {
          assert i > 0 ==> kids[i] == kids[1..][i - 1];
        }
      } else if CountLive(kids[1..]) != 0 {
        var i :| 0 <= i < |kids[1..]| && kids[1..][i].Some?;
        assert kids[i + 1].Some?;
      }
    }
  }

  lemma LiveChild(kids: seq<Option<Node>>, i: nat)
    requires i < |kids| && kids[i].Some?
    ensures CountLive(kids) > 0
  {
    CountNone(kids);
  }

  /** Null slots at either side do not count. */
  lemma CountSlice(kids: seq<Option<Node>>, from: nat, to: nat)
    requires from <= to <= |kids|
    requires forall i :: 0 <= i < from ==> kids[i].None?
    requires forall i :: to <= i < |kids| ==> kids[i].None?
    ensures CountLive(kids[from..to]) == CountLive(kids)
  {
    hide CountLive;
    assert kids == kids[..from] + (kids[from..to] + kids[to..]);
    CountConcat(kids[..from], kids[from..to] + kids[to..]);
    CountConcat(kids[from..to], kids[to..]);
    CountNone(kids[..from]);
    CountNone(kids[to..]);
  }

  // ---- What the trie holds ----

  /** The subscribers of prefix `p` with their reference counts. */
  function Subs(t: Node, p: bytes): map<Subscriber, nat>
    decreases |p|
  {
    if p == [] then Contents(t.subscribers)
    else
      match Child(t, p[0])
      case None => map[]
      case Some(k) => Subs(k, p[1..])
  }

  lemma EmptyValid()
    ensures Valid(EMPTY) && forall p :: Subs(EMPTY, p) == map[]
  {
  }

  // ---- Adding ----

  lemma GrowChild(t: Node, c: byte, x: byte)
    ensures Child(Grow(t, c as nat), x) == Child(t, x)
  {
  }

  /** Few children are easily counted. */
  lemma FewLive(t: Node)
    requires ValidTable(t)
    ensures |t.kids| == 0 ==> t.live == 0
    ensures |t.kids| == 1 ==> t.live == 1
  {
    if |t.kids| == 1 { assert CountLive(t.kids[1..]) == 0; }
  }

  lemma GrowTable(t: Node, c: byte)
    requires ValidTable(t)
    ensures Grow(t, c as nat).min < 256 && Grow(t, c as nat).min + |Grow(t, c as nat).kids| <= 256
    ensures var g := Grow(t, c as nat); var i := c as nat - g.min;
      && g.live == t.live && g.subscribers == t.subscribers
      && (|g.kids| >= 2 ==> t.live + Bit(g.kids[i].None?) >= 2)
      && (|g.kids| >= 2 ==> (i == 0 || g.kids[0].Some?) && (i == |g.kids| - 1 || g.kids[|g.kids| - 1].Some?))
  {
    hide CountLive;
    FewLive(t);
  }

  lemma SingleCount(k: Option<Node>, n: nat, i: nat)
    requires i < n
    ensures CountLive(Nulls(n)[i := k]) == Bit(k.Some?)
  {
    CountNone(Nulls(n));
    CountUpdate(Nulls(n), i, k);
  }

  lemma PaddedCount(n: nat, kids: seq<Option<Node>>)
    ensures CountLive(Nulls(n) + kids) == CountLive(kids) && CountLive(kids + Nulls(n)) == CountLive(kids)
  {
    CountNone(Nulls(n));
    CountConcat(Nulls(n), kids);
    CountConcat(kids, Nulls(n));
  }

  lemma GrowCount(t: Node, c: byte)
    requires ValidTable(t)
    ensures CountLive(Grow(t, c as nat).kids) == t.live
  {
    FewLive(t);
    hide CountLive;
    var g := Grow(t, c as nat);
    if t.min <= c as nat < t.min + |t.kids| {
    } else if |t.kids| == 0 {
      CountNone(g.kids);
    } else if |t.kids| == 1 {
      SingleCount(t.kids[0], |g.kids|, t.min - g.min);
    } else if t.min < c as nat {
      PaddedCount(c as nat - t.min + 1 - |t.kids|, t.kids);
    } else {
      PaddedCount(t.min - c as nat, t.kids);
    }
  }

  /** A growing table gains no children. */
  lemma GrowMember(t: Node, c: byte, i: nat)
    requires i < |Grow(t, c as nat).kids| && Grow(t, c as nat).kids[i].Some?
    ensures var j := Grow(t, c as nat).min + i - t.min; 0 <= j < |t.kids| && t.kids[j] == Grow(t, c as nat).kids[i]
  {
  }

  lemma GrowKids(t: Node, c: byte)
    requires Valid(t)
    ensures ValidKids(Grow(t, c as nat).kids) && ValidSubscribers(Grow(t, c as nat).subscribers)
  {
    assert ValidKids(t.kids) && Grow(t, c as nat).subscribers == t.subscribers;
    hide Grow, Redundant, ValidSubscribers;
    var g := Grow(t, c as nat);
    forall i | 0 <= i < |g.kids| && g.kids[i].Some? ensures Valid(g.kids[i].value) && !Redundant(g.kids[i].value) {
      GrowMember(t, c, i);
    }
  }

  /** The child for `c`, or a new node. */
  function Kid(t: Node, c: byte): Node {
    if Child(t, c).Some? then Child(t, c).value else EMPTY
  }

  lemma KidValid(t: Node, c: byte)
    requires Valid(t)
    ensures Valid(Kid(t, c))
    ensures Child(t, c).Some? ==> !Redundant(Kid(t, c))
  {
  }

  lemma AddChild(t: Node, p: bytes, s: Subscriber, x: byte)
    requires p != []
    ensures var (r, first) := Add(t, p, s); var (k, below) := Add(Kid(t, p[0]), p[1..], s);
      && r.subscribers == t.subscribers && first == below
      && Child(r, x) == if x == p[0] then Some(k) else Child(t, x)
  {
    GrowChild(t, p[0], p[0]);
    GrowChild(t, p[0], x);
  }

  ghost predicate ValidSubscribers(o: Option<map<Subscriber, nat>>) {
    o.Some? ==> o.value != map[] && forall s :: s in o.value ==> o.value[s] > 0
  }

  ghost predicate ValidKids(kids: seq<Option<Node>>) {
    forall i :: 0 <= i < |kids| && kids[i].Some? ==> Valid(kids[i].value) && !Redundant(kids[i].value)
  }

  /** A child put into a table that has room for it makes the table canonical. */
  lemma SetChild(g: Node, i: nat, k: Node)
    requires ValidSubscribers(g.subscribers) && ValidKids(g.kids) && i < |g.kids| && Valid(k) && !Redundant(k)
    requires CountLive(g.kids) == g.live && g.min < 256 && g.min + |g.kids| <= 256
    requires |g.kids| >= 2 ==> g.live + Bit(g.kids[i].None?) >= 2
    requires |g.kids| >= 2 ==> (i == 0 || g.kids[0].Some?) && (i == |g.kids| - 1 || g.kids[|g.kids| - 1].Some?)
    ensures var r := g.(kids := g.kids[i := Some(k)], live := if g.kids[i].Some? then g.live else g.live + 1);
      Valid(r) && !Redundant(r)
  {
    CountUpdate(g.kids, i, Some(k));
    CountNone(g.kids[i := Some(k)]);
    hide CountLive;
    var r := g.(kids := g.kids[i := Some(k)], live := if g.kids[i].Some? then g.live else g.live + 1);
    assert ValidTable(r);
    assert ValidKids(r.kids);
  }

  lemma SubscribersValid(t: Node, o: Option<map<Subscriber, nat>>)
    requires Valid(t) && ValidSubscribers(o)
    ensures Valid(t.(subscribers := o))
  {
  }

  lemma AddHereValid(t: Node, s: Subscriber)
    requires Valid(t)
    ensures Valid(Add(t, [], s).0) && !Redundant(Add(t, [], s).0)
  {
    var m := Bump(Contents(t.subscribers), s);
    assert s in m;
    SubscribersValid(t, Some(m));
  }

  lemma AddIsSet(t: Node, p: bytes, s: Subscriber)
    requires p != []
    ensures var g := Grow(t, p[0] as nat); var i := p[0] as nat - g.min;
      Add(t, p, s).0 == g.(kids := g.kids[i := Some(Add(Kid(t, p[0]), p[1..], s).0)],
                           live := if g.kids[i].Some? then g.live else g.live + 1)
  {
    GrowChild(t, p[0], p[0]);
  }

  lemma TableValid(t: Node)
    requires Valid(t)
    ensures ValidTable(t)
  {
  }

  lemma {:induction false} AddValid(t: Node, p: bytes, s: Subscriber)
    requires Valid(t)
    ensures Valid(Add(t, p, s).0) && !Redundant(Add(t, p, s).0)
    decreases |p|
  {
    hide Valid, ValidTable, ValidKids, ValidSubscribers, CountLive, Grow, Add, Redundant;
    if p == [] {
      AddHereValid(t, s);
    } else {
      TableValid(t);
      GrowCount(t, p[0]);
      GrowTable(t, p[0]);
      GrowKids(t, p[0]);
      KidValid(t, p[0]);
      AddIsSet(t, p, s);
      AddValid(Kid(t, p[0]), p[1..], s);
      SetChild(Grow(t, p[0] as nat), p[0] as nat - Grow(t, p[0] as nat).min, Add(Kid(t, p[0]), p[1..], s).0);
    }
  }

  /** Adding counts one reference at the prefix and touches nothing else; it is
      reported as new exactly when the prefix had no subscriber. */
  lemma {:induction false} AddSubs(t: Node, p: bytes, s: Subscriber, q: bytes)
    requires Valid(t)
    ensures Subs(Add(t, p, s).0, q) == if q == p then Bump(Subs(t, p), s) else Subs(t, q)
    ensures Add(t, p, s).1 <==> Subs(t, p) == map[]
    decreases |p|
  {
    hide Add, Child, Valid, Kid, Bump, Subs;
    if p == [] {
      AddHereSubs(t, s, q);
    } else {
      var x, rest := if q == [] then p[0] else q[0], if q == [] then [] else q[1..];
      AddChild(t, p, s, x);
      AddChild(t, p, s, p[0]);
      KidValid(t, p[0]);
      AddSubs(Kid(t, p[0]), p[1..], s, rest);
      KidSubs(t, p);
      if q != [] {
        assert q == p <==> q[0] == p[0] && q[1..] == p[1..] by {
          assert p == [p[0]] + p[1..] && q == [q[0]] + q[1..];
        }
        KidSubs(t, q);
        ChildSubs(Add(t, p, s).0, t, q);
      }
      HereSubs(t, Add(t, p, s).0);
    }
  }

  lemma AddHereSubs(t: Node, s: Subscriber, q: bytes)
    requires Valid(t)
    ensures Subs(Add(t, [], s).0, q) == if q == [] then Bump(Subs(t, []), s) else Subs(t, q)
    ensures Add(t, [], s).1 <==> Subs(t, []) == map[]
  {
    if q != [] { assert Child(Add(t, [], s).0, q[0]) == Child(t, q[0]); }
  }

  lemma HereSubs(t: Node, r: Node)
    ensures t.subscribers == r.subscribers ==> Subs(r, []) == Subs(t, [])
  {
  }

  /** A trie is read through its children. */
  lemma ChildSubs(r: Node, t: Node, q: bytes)
    requires q != []
    ensures Subs(r, q) == if Child(r, q[0]).None? then map[] else Subs(Child(r, q[0]).value, q[1..])
    ensures Child(r, q[0]) == Child(t, q[0]) ==> Subs(r, q) == Subs(t, q)
  {
  }

  lemma KidSubs(t: Node, p: bytes)
    requires p != []
    ensures Subs(t, p) == Subs(Kid(t, p[0]), p[1..])
  {
    EmptyValid();
  }
}
