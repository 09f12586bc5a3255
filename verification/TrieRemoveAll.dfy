/** Unsubscribing a subscriber from everything: one reference off every prefix, with
    a report of the prefixes nobody holds any more. */
module TrieRemoveAll {
  import opened Options
  import opened Bytes
  import opened Trie
  import opened TrieRemoval

  // ---- What happens to the table ----

  /** What the loop leaves in slot `j`. */
  function NewKid(t: Node, j: nat, s: Subscriber, buff: bytes): Option<Node>
    requires Valid(t) && j < |t.kids|
  {
    if t.kids[j].None? then None
    else
      var k := RmAll(t.kids[j].value, s, buff + [(t.min + j) as byte]).0;
      if Redundant(k) then None else Some(k)
  }

  lemma {:induction false} LoopKids(t: Node, i: nat, s: Subscriber, buff: bytes, j: nat)
    requires Valid(t) && i <= j < |t.kids|
    ensures RmAllFrom(t, i, s, buff).0[j - i] == NewKid(t, j, s, buff)
    decreases j - i
  {
    hide RmAll, Redundant;
    if i < j {
      LoopKids(t, i + 1, s, buff, j);
    }
  }

  lemma CompactIsCut(t: Node)
    requires t.live == CountLive(t.kids) && t.live > 0
    ensures var first, last := FirstLive(t.kids, 0), LastLive(t.kids, |t.kids|);
      && Covers(t.kids, first, last) && first < last && t.kids[first].Some? && t.kids[last - 1].Some?
      && Compact(t) == Cut(t, first, last)
  {
    CountNone(t.kids);
    var first, last := FirstLive(t.kids, 0), LastLive(t.kids, |t.kids|);
    if t.live == 1 {
      OneLive(t.kids);
      assert t.kids[first..last] == [t.kids[first]];
    }
  }

  lemma CompactChild(t: Node, x: byte)
    requires t.live == CountLive(t.kids) && ValidSubscribers(t.subscribers) && ValidKids(t.kids)
    requires t.min < 256 && t.min + |t.kids| <= 256
    ensures Valid(Compact(t)) && Child(Compact(t), x) == Child(t, x) && Compact(t).subscribers == t.subscribers
  {
    CountNone(t.kids);
    if t.live > 0 {
      CompactIsCut(t);
      var first, last := FirstLive(t.kids, 0), LastLive(t.kids, |t.kids|);
      CutChild(t, first, last, x);
      CutValid(t, first, last);
    }
  }

  /** What is left of every child is a canonical trie again. */
  ghost predicate KidsStayValid(t: Node, s: Subscriber, buff: bytes)
    requires Valid(t)
  {
    forall j :: 0 <= j < |t.kids| && t.kids[j].Some? ==>
      Valid(RmAll(t.kids[j].value, s, buff + [(t.min + j) as byte]).0)
  }

  lemma NewKidValid(t: Node, j: nat, s: Subscriber, buff: bytes)
    requires Valid(t) && KidsStayValid(t, s, buff) && j < |t.kids|
    ensures var k := NewKid(t, j, s, buff); (k.Some? ==> Valid(k.value) && !Redundant(k.value)) && (t.kids[j].None? ==> k.None?)
  {
    hide RmAll;
  }

  lemma LoopTable(t: Node, s: Subscriber, buff: bytes, x: byte)
    requires Valid(t) && KidsStayValid(t, s, buff)
    ensures var u := t.(kids := RmAllFrom(t, 0, s, buff).0);
      ValidKids(u.kids) && Child(u, x) == if Child(t, x).None? then None else NewKid(t, x as nat - t.min, s, buff)
  {
    hide RmAll, RmAllFrom, Redundant, KidsStayValid, NewKid, Valid;
    var kids := RmAllFrom(t, 0, s, buff).0;
    forall j | 0 <= j < |t.kids|
      ensures kids[j] == NewKid(t, j, s, buff) && (kids[j].Some? ==> Valid(kids[j].value) && !Redundant(kids[j].value))
      ensures t.kids[j].None? ==> kids[j].None?
    {
      LoopKids(t, 0, s, buff, j);
      NewKidValid(t, j, s, buff);
    }
  }

  /** Every child is replaced by what is left of it. */
  lemma RmAllChild(t: Node, s: Subscriber, buff: bytes, x: byte)
    requires Valid(t) && KidsStayValid(t, s, buff)
    ensures var r := RmAll(t, s, buff).0;
      && Valid(r) && r.subscribers == Pack(Drop(Contents(t.subscribers), s))
      && Child(r, x) == if Child(t, x).None? then None else NewKid(t, x as nat - t.min, s, buff)
  {
    DropValid(Contents(t.subscribers), s);
    var rest := t.(subscribers := Pack(Drop(Contents(t.subscribers), s)));
    if |t.kids| == 0 {
    } else if |t.kids| == 1 {
      OneKidLeft(t, rest, NewKid(t, 0, s, buff));
    } else {
      RmAllTable(t, s, buff, x);
    }
  }

  lemma RmAllTable(t: Node, s: Subscriber, buff: bytes, x: byte)
    requires Valid(t) && KidsStayValid(t, s, buff) && |t.kids| > 1
    ensures var r := RmAll(t, s, buff).0;
      && Valid(r) && r.subscribers == Pack(Drop(Contents(t.subscribers), s))
      && Child(r, x) == if Child(t, x).None? then None else NewKid(t, x as nat - t.min, s, buff)
  {
    hide RmAll, RmAllFrom, Compact, Valid, ValidKids, NewKid, KidsStayValid, CountLive, Child, ValidSubscribers;
    SweptTable(t, s, buff, x);
    RmAllCompacts(t, s, buff);
    CompactChild(Swept(t, s, buff), x);
  }

  lemma SweptTable(t: Node, s: Subscriber, buff: bytes, x: byte)
    requires Valid(t) && KidsStayValid(t, s, buff)
    ensures var u := Swept(t, s, buff);
      && u.min == t.min && u.min < 256 && u.min + |u.kids| <= 256
      && ValidKids(u.kids) && ValidSubscribers(u.subscribers)
      && Child(u, x) == if Child(t, x).None? then None else NewKid(t, x as nat - t.min, s, buff)
  {
    DropValid(Contents(t.subscribers), s);
    hide RmAll, RmAllFrom, ValidKids, NewKid, KidsStayValid, CountLive;
    LoopTable(t, s, buff, x);
    SameChild(Swept(t, s, buff), t.(kids := RmAllFrom(t, 0, s, buff).0), x);
  }

  /** The node after the loop, before the table is compacted. */
  function Swept(t: Node, s: Subscriber, buff: bytes): Node
    requires Valid(t)
  {
    var kids := RmAllFrom(t, 0, s, buff).0;
    t.(subscribers := Pack(Drop(Contents(t.subscribers), s)), kids := kids, live := CountLive(kids))
  }

  lemma RmAllCompacts(t: Node, s: Subscriber, buff: bytes)
    requires Valid(t) && |t.kids| > 1
    ensures RmAll(t, s, buff).0 == Compact(Swept(t, s, buff))
  {
    hide RmAllFrom, Compact, CountLive;
  }

  lemma OneKidLeft(t: Node, rest: Node, k: Option<Node>)
    requires Valid(t) && |t.kids| == 1 && ValidSubscribers(rest.subscribers) && rest == t.(subscribers := rest.subscribers)
    requires k.Some? ==> Valid(k.value) && !Redundant(k.value)
    ensures var r := if k.None? then rest.(kids := [], live := 0) else rest.(kids := [k]);
      Valid(r)
  {
    assert t.kids[1..] == [];
    assert CountLive(t.kids) == 1;
    assert CountLive([k]) == if k.Some? then 1 else 0;
  }

  lemma {:induction false} KidsKeptValid(t: Node, s: Subscriber, buff: bytes)
    requires Valid(t)
    ensures KidsStayValid(t, s, buff)
    decreases t, 0
  {
    forall j | 0 <= j < |t.kids| && t.kids[j].Some?
      ensures Valid(RmAll(t.kids[j].value, s, buff + [(t.min + j) as byte]).0)
    {
      RmAllValid(t.kids[j].value, s, buff + [(t.min + j) as byte]);
    }
  }

  lemma {:induction false} RmAllValid(t: Node, s: Subscriber, buff: bytes)
    requires Valid(t)
    ensures Valid(RmAll(t, s, buff).0)
    decreases t, 1
  {
    KidsKeptValid(t, s, buff);
    RmAllChild(t, s, buff, 0);
  }

  /** One reference of the subscriber comes off every prefix, and nothing else. */
  lemma {:induction false} RmAllSubs(t: Node, s: Subscriber, buff: bytes, q: bytes)
    requires Valid(t)
    ensures Subs(RmAll(t, s, buff).0, q) == Drop(Subs(t, q), s)
    decreases |q|
  {
    hide RmAll, RmAllFrom, Valid, KidsStayValid, Redundant;
    KidsKeptValid(t, s, buff);
    if q == [] {
      RmAllChild(t, s, buff, 0);
    } else {
      RmAllChild(t, s, buff, q[0]);
      if Child(t, q[0]).Some? {
        var k := Child(t, q[0]).value;
        var way := buff + [q[0]];
        ChildValid(t, q[0]);
        RmAllValid(k, s, way);
        RmAllSubs(k, s, way, q[1..]);
        if Redundant(RmAll(k, s, way).0) {
          RedundantEmpty(RmAll(k, s, way).0, q[1..]);
        }
      }
    }
  }

  // ---- The report ----

  /** Prefix `q` loses its last subscriber when `s` goes. */
  predicate Lost(t: Node, s: Subscriber, q: bytes) {
    Held(t, q) && Drop(Subs(t, q), s) == map[]
  }

  predicate Reported(t: Node, s: Subscriber, buff: bytes, p: bytes) {
    buff <= p && Lost(t, s, p[|buff|..])
  }

  lemma ReportedBelow(t: Node, s: Subscriber, buff: bytes, p: bytes)
    requires buff <= p && |buff| < |p|
    ensures Reported(t, s, buff, p) <==>
      Child(t, p[|buff|]).Some? && Reported(Child(t, p[|buff|]).value, s, buff + [p[|buff|]], p)
  {
    assert p[|buff|..][1..] == p[|buff| + 1..];
    assert buff + [p[|buff|]] <= p;
  }

  lemma ReportParts(t: Node, s: Subscriber, buff: bytes)
    requires Valid(t)
    ensures RmAll(t, s, buff).1 == (if Lost(t, s, []) then [buff] else []) + RmAllFrom(t, 0, s, buff).1
  {
    if |t.kids| == 1 {
      assert RmAllFrom(t, 1, s, buff) == ([], []);
    }
  }

  lemma LoopParts(t: Node, i: nat, s: Subscriber, buff: bytes)
    requires Valid(t) && i < |t.kids|
    ensures RmAllFrom(t, i, s, buff).1 ==
      (if t.kids[i].None? then [] else RmAll(t.kids[i].value, s, buff + [(t.min + i) as byte]).1)
      + RmAllFrom(t, i + 1, s, buff).1
  {
    hide RmAll, Redundant;
  }

  /** Below slot `i` lie the prefixes that go on with its character. */
  lemma SlotReport(t: Node, i: nat, s: Subscriber, buff: bytes, p: bytes)
    requires Valid(t) && i < |t.kids|
    ensures t.kids[i].Some? && Reported(t.kids[i].value, s, buff + [(t.min + i) as byte], p) <==>
      buff < p && p[|buff|] as nat == t.min + i && Reported(t, s, buff, p)
  {
    TableValid(t);
    hide Valid, Lost, CountLive;
    var c := (t.min + i) as byte;
    if buff < p {
      ReportedBelow(t, s, buff, p);
    }
    if buff + [c] <= p {
      assert (buff + [c])[..|buff|] == buff && (buff + [c])[|buff|] == c;
      assert buff < p && p[|buff|] == c;
    }
  }

  lemma NotBeyond(t: Node, s: Subscriber, buff: bytes, p: bytes)
    requires Valid(t) && buff < p && (p[|buff|] as nat < t.min || p[|buff|] as nat >= t.min + |t.kids|)
    ensures !Reported(t, s, buff, p)
  {
    ReportedBelow(t, s, buff, p);
  }

  /** The loop reports the lost prefixes of the slots it has to go through. */
  lemma {:induction false} LoopReport(t: Node, i: nat, s: Subscriber, buff: bytes, p: bytes)
    requires Valid(t) && i <= |t.kids|
    ensures p in RmAllFrom(t, i, s, buff).1 <==>
      buff < p && p[|buff|] as nat >= t.min + i && Reported(t, s, buff, p)
    decreases t, 0, |t.kids| - i
  {
    if i < |t.kids| {
      LoopReport(t, i + 1, s, buff, p);
      if t.kids[i].Some? {
        KidValidAt(t, i);
        RmAllReport(t.kids[i].value, s, buff + [(t.min + i) as byte], p);
      }
      LoopParts(t, i, s, buff);
      hide Valid, RmAll, RmAllFrom, Reported;
      SlotReport(t, i, s, buff, p);
    } else if buff < p && p[|buff|] as nat >= t.min + i {
      NotBeyond(t, s, buff, p);
    }
  }

  lemma KidValidAt(t: Node, i: nat)
    requires Valid(t) && i < |t.kids| && t.kids[i].Some?
    ensures Valid(t.kids[i].value)
  {
  }

  /** The report lists exactly the prefixes whose last reference vanished, each with
      its exact bytes. */
  lemma {:induction false} RmAllReport(t: Node, s: Subscriber, buff: bytes, p: bytes)
    requires Valid(t)
    ensures p in RmAll(t, s, buff).1 <==> Reported(t, s, buff, p)
    decreases t, 1
  {
    LoopReport(t, 0, s, buff, p);
    ReportParts(t, s, buff);
    if buff < p && (p[|buff|] as nat < t.min) {
      NotBeyond(t, s, buff, p);
    }
    if buff <= p && !(buff < p) {
      assert p == buff && p[|buff|..] == [];
    }
  }

  // ---- Each prefix once ----

  ghost predicate NoDup(ps: seq<bytes>) {
    forall i, j :: 0 <= i < j < |ps| ==> ps[i] != ps[j]
  }

  lemma NoDupConcat(a: seq<bytes>, b: seq<bytes>)
    requires NoDup(a) && NoDup(b) && forall p :: p in a ==> p !in b
    ensures NoDup(a + b)
  {
    var c := a + b;
    forall i, j | 0 <= i < j < |c| ensures c[i] != c[j] {
      if i < |a| <= j {
        assert c[i] in a && c[j] in b;
      }
    }
  }

  lemma LoopEnd(t: Node, s: Subscriber, buff: bytes)
    requires Valid(t)
    ensures RmAllFrom(t, |t.kids|, s, buff).1 == []
  {
  }

  /** What is reported below slot `i` is not reported by the slots after it. */
  lemma SlotsApart(t: Node, i: nat, s: Subscriber, buff: bytes, p: bytes)
    requires Valid(t) && i < |t.kids| && t.kids[i].Some? && Valid(t.kids[i].value)
    requires p in RmAll(t.kids[i].value, s, buff + [(t.min + i) as byte]).1
    ensures p !in RmAllFrom(t, i + 1, s, buff).1
  {
    TableValid(t);
    hide Valid, RmAll, RmAllFrom, Reported;
    RmAllReport(t.kids[i].value, s, buff + [(t.min + i) as byte], p);
    LoopReport(t, i + 1, s, buff, p);
    SlotReport(t, i, s, buff, p);
  }

  lemma {:induction false} LoopOnce(t: Node, i: nat, s: Subscriber, buff: bytes)
    requires Valid(t) && i <= |t.kids|
    ensures NoDup(RmAllFrom(t, i, s, buff).1)
    decreases t, 0, |t.kids| - i
  {
    TableValid(t);
    hide Valid, ValidTable, RmAll, RmAllFrom, NoDup;
    if i == |t.kids| {
      LoopEnd(t, s, buff);
      NoDupEmpty();
    } else {
      LoopOnce(t, i + 1, s, buff);
      LoopParts(t, i, s, buff);
      var later := RmAllFrom(t, i + 1, s, buff).1;
      if t.kids[i].Some? {
        KidValidAt(t, i);
        var k, way := t.kids[i].value, buff + [(t.min + i) as byte];
        RmAllOnce(k, s, way);
        forall p | p in RmAll(k, s, way).1 ensures p !in later { SlotsApart(t, i, s, buff, p); }
        NoDupConcat(RmAll(k, s, way).1, later);
      } else {
        assert [] + later == later;
      }
    }
  }

  lemma NoDupEmpty()
    ensures NoDup([])
  {
  }

  lemma {:induction false} RmAllOnce(t: Node, s: Subscriber, buff: bytes)
    requires Valid(t)
    ensures NoDup(RmAll(t, s, buff).1)
    decreases t, 1
  {
    LoopOnce(t, 0, s, buff);
    ReportParts(t, s, buff);
    var below := RmAllFrom(t, 0, s, buff).1;
    LoopReport(t, 0, s, buff, buff);
    NoDupConcat(if Lost(t, s, []) then [buff] else [], below);
  }

  /** A subscriber that holds each prefix at most once is gone from all of them. */
  lemma SubscriberGone(t: Node, s: Subscriber, q: bytes)
    requires Valid(t) && (s in Subs(t, q) ==> Subs(t, q)[s] <= 1)
    ensures s !in Subs(RmAll(t, s, []).0, q)
  {
    RmAllSubs(t, s, [], q);
  }
}
