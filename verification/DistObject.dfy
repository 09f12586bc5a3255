/** The distributor as the program keeps it: an array of pipe pointers in which every
    pipe stores its own position, changed in place. */
module DistObject {
  import D = Dist
  import opened PtrArray

  class Dist {
    const pipes: PipeArray
    var matching: nat
    var active: nat
    var eligible: nat
    var more: bool

    ghost function View(): D.Array<Pipe?>
      reads this, pipes
    {
      D.Array(pipes.items, matching, active, eligible, more)
    }

    ghost predicate Valid()
      reads this, pipes, pipes.Members()
    {
      pipes.Valid() && null !in pipes.items && D.Valid(View())
    }

    constructor ()
      ensures Valid() && fresh(pipes) && View() == D.Array([], 0, 0, 0, false)
    {
      pipes := new PipeArray();
      matching, active, eligible, more := 0, 0, 0, false;
    }

    method Attach(p: Pipe)
      requires Valid() && p !in pipes.items
      modifies this, pipes, pipes.Members()`index, p`index
      ensures Valid() && View() == D.Attach(old(View()), p)
    {
      hide D.Group, D.NoDup, D.Swap;
      ghost var d := View();
      pipes.PushBack(p);
      if more {
        pipes.Swap(eligible, |pipes.items| - 1);
        eligible := eligible + 1;
      } else {
        pipes.Swap(active, |pipes.items| - 1);
        active := active + 1;
        eligible := eligible + 1;
      }
      D.AttachGroups(d, p);
      NoNull(d.pipes + [p], if d.more then d.eligible else d.active, |d.pipes|);
    }

    method Match(p: Pipe)
      requires Valid() && p in pipes.items
      modifies this, pipes, pipes.Members()`index
      ensures 0 <= old(p.index) < |old(pipes.items)| && View() == D.Match(old(View()), old(p.index))
      ensures pipes.Valid() && null !in pipes.items && (!(active <= old(p.index) < eligible) ==> Valid())
    {
      if p.index < matching { return; }
      if p.index >= eligible { return; }
      ghost var d, i := View(), p.index;
      D.MatchGroups(d, i);
      NoNull(pipes.items, i, matching);
      pipes.Swap(p.index, matching);
      matching := matching + 1;
    }

    method Unmatch()
      requires Valid()
      modifies `matching
      ensures Valid() && View() == D.Unmatch(old(View())) && D.MatchingSet(View()) == {}
    {
      matching := 0;
    }

    method Activated(p: Pipe)
      requires Valid() && p in pipes.items && p.index >= eligible
      modifies this, pipes, pipes.Members()`index
      ensures Valid() && eligible > 0 && 0 <= old(p.index) < |old(pipes.items)|
      ensures View() == D.Activated(old(View()), old(p.index))
    {
      hide D.Group, D.NoDup, D.Swap;
      ghost var d, i := View(), p.index;
      D.ActivatedGroups(d, i);
      NoNull(pipes.items, i, eligible);
      pipes.Swap(p.index, eligible);
      eligible := eligible + 1;
      if !more {
        NoNull(pipes.items, eligible - 1, active);
        pipes.Swap(eligible - 1, active);
        active := active + 1;
      }
    }

    /** Every pipe knows its position, and only slot `h` may be NULL. */
    ghost predicate Holed(h: nat)
      reads this, pipes, pipes.Members()
    {
      && h < |pipes.items| && pipes.Valid()
      && forall i :: 0 <= i < |pipes.items| && i != h ==> pipes.items[i] != null
    }

    /** One of the three stages of `Terminated`: if slot `i` is among the first `n`, the
        last of them fills it and leaves the hole. */
    method MoveHole(i: nat, n: nat) returns (h: nat, m: nat)
      requires n <= |pipes.items| && Holed(i)
      modifies pipes, pipes.Members()`index
      ensures h == D.Hole(i, n) && m == D.Less(n, i) && Holed(h) && |pipes.items| == |old(pipes.items)|
      ensures D.AgreeBut(pipes.items, D.Fill(old(pipes.items), i, n), h)
      ensures pipes.Members() <= old(pipes.Members())
    {
      if i >= n { return i, n; }
      var q := pipes.items[n - 1];
      pipes.items := pipes.items[i := q];
      pipes.items := pipes.items[n - 1 := null];
      if pipes.items[i] != null { pipes.items[i].index := i; }
      return n - 1, n - 1;
    }

    method Terminated(p: Pipe)
      requires Valid() && p in pipes.items
      modifies this, pipes, pipes.Members()`index
      ensures Valid() && 0 <= old(p.index) < |old(pipes.items)|
      ensures View() == D.Terminated(old(View()), old(p.index))
    {
      hide D.Terminated, D.Fill, D.AgreeBut, D.Group, D.NoDup, D.Hole, D.Less;
      ghost var d, start := View(), p.index;
      var i := MoveHoles(p.index);
      D.TerminatedGroups(d, start);
      pipes.Erase(i);
    }

    method MoveHoles(start: nat) returns (i: nat)
      requires Valid() && start < |pipes.items|
      modifies this, pipes, pipes.Members()`index
      ensures Holed(i) && |pipes.items| == |old(pipes.items)|
      ensures pipes.Members() <= old(pipes.Members())
      ensures var n := |pipes.items| - 1;
        D.Terminated(old(View()), start) == D.Array(pipes.items[i := pipes.items[n]][..n], matching, active, eligible, more)
    {
      hide D.Terminated, D.Fill, D.Group, D.NoDup, D.Hole, D.Less, D.AgreeBut;
      ghost var d := View();
      i, matching := MoveHole(start, matching);
      ghost var u1 := pipes.items;
      i, active := MoveHole(i, active);
      ghost var u2 := pipes.items;
      i, eligible := MoveHole(i, eligible);
      Stages(d, start, u1, u2, pipes.items);
    }

    /** Offers the part to one matching pipe; a pipe that refuses leaves all groups. */
    method Write(p: Pipe, m: Message) returns (ok: bool)
      requires Valid() && p in pipes.items && p.index < matching
      modifies this, pipes, pipes.Members()`index, p`parts, p`flushed
      ensures Valid() && ok == p.accepts && p.Offered(m) && 0 <= old(p.index) && pipes.Members() == old(pipes.Members())
      ensures View() == if ok then old(View()) else D.Refuse(old(View()), old(p.index))
    {
      ok := p.Write(m);
      if !ok {
        Refuse(p);
      } else if !m.more {
        p.Flush();
      }
    }

    method Refuse(p: Pipe)
      requires Valid() && p in pipes.items && p.index < matching
      modifies this, pipes, pipes.Members()`index
      ensures Valid() && 0 <= old(p.index) && View() == D.Refuse(old(View()), old(p.index))
      ensures pipes.Members() == old(pipes.Members())
    {
      hide D.Refuse, D.Swap, D.Group, D.NoDup;
      ghost var d, i := View(), p.index;
      D.RefuseGroups(d, i);
      RefuseSwaps(d, i);
      pipes.Swap(p.index, matching - 1);
      matching := matching - 1;
      pipes.Swap(p.index, active - 1);
      active := active - 1;
      pipes.Swap(active, eligible - 1);
      eligible := eligible - 1;
    }

    /** The pipes that accept what is written. */
    ghost function Open(): set<Pipe?>
      reads pipes, pipes.Members()
    {
      set p: Pipe | p in pipes.Members() && p.accepts
    }

    /** One turn of the loop of `Distribute`. */
    method OfferNext(i: nat, p: Pipe, m: Message) returns (j: nat)
      requires Valid() && i < matching && pipes.items[i] == p
      modifies this, pipes, pipes.Members()`index, p`parts, p`flushed
      ensures Valid() && j <= matching && matching - j < old(matching) - i
      ensures pipes.Members() == old(pipes.Members()) && Open() == old(Open())
      ensures D.Distribute(View(), j, Open()).0 == D.Distribute(old(View()), i, Open()).0
      ensures p in old(D.Rest(View(), i)) && p.Offered(m)
      ensures D.Rest(View(), j) == old(D.Rest(View(), i)) - {p}
    {
      hide D.Group, D.NoDup, D.Refuse;
      ghost var d := View();
      D.NextTry(d, i);
      D.RefuseGroups(d, i);
      D.SamePrefixGroup(D.Refuse(d, i).pipes, d.pipes, i);
      var ok := Write(p, m);
      j := if ok then i + 1 else i;
    }

    method Distribute(m: Message)
      requires Valid()
      modifies this, pipes, pipes.Members()`index, pipes.Members()`parts, pipes.Members()`flushed
      ensures Valid() && View() == D.Distribute(old(View()), 0, Open()).0
      ensures pipes.Members() == old(pipes.Members()) && Open() == old(Open())
      ensures forall p: Pipe :: p in pipes.Members() ==>
        if p in old(D.MatchingSet(View())) then p.Offered(m) else unchanged(p`parts, p`flushed)
    {
      hide D.Group, D.NoDup, D.Rest, D.MatchingSet, D.Distribute;
      ghost var d, all := View(), pipes.Members();
      D.AllRest(d, Open());
      var i := 0;
      while i < matching
        invariant Valid() && 0 <= i <= matching
        invariant pipes.Members() == all && Open() == old(Open())
        invariant D.Distribute(View(), i, Open()).0 == D.Distribute(d, 0, Open()).0
        invariant D.Rest(View(), i) <= D.MatchingSet(d)
        invariant forall p: Pipe :: p in all ==>
          if p in D.MatchingSet(d) - D.Rest(View(), i) then p.Offered(m) else unchanged(p`parts, p`flushed)
        decreases matching - i
      {
        i := OfferNext(i, pipes.items[i], m);
      }
      D.AllRest(View(), Open());
    }

    method SendToMatching(m: Message)
      requires Valid()
      modifies this, pipes, pipes.Members()`index, pipes.Members()`parts, pipes.Members()`flushed
      ensures Valid() && View() == D.SendToMatching(old(View()), Open(), !m.more).0
      ensures pipes.Members() == old(pipes.Members()) && Open() == old(Open())
      ensures forall p: Pipe :: p in pipes.Members() ==>
        if p in old(D.MatchingSet(View())) then p.Offered(m) else unchanged(p`parts, p`flushed)
      ensures D.EligibleSet(View()) == old(D.EligibleSet(View())) - (old(D.MatchingSet(View())) - Open())
      ensures D.ActiveSet(View()) == if !m.more then D.EligibleSet(View()) else old(D.ActiveSet(View())) - (old(D.MatchingSet(View())) - Open())
    {
      hide D.Distribute, D.Group, D.NoDup;
      D.SendGroups(View(), Open(), !m.more);
      Distribute(m);
      if !m.more { active := eligible; }
      more := m.more;
    }

    method SendToAll(m: Message)
      requires Valid()
      modifies this, pipes, pipes.Members()`index, pipes.Members()`parts, pipes.Members()`flushed
      ensures Valid() && View() == D.SendToAll(old(View()), Open(), !m.more).0
      ensures pipes.Members() == old(pipes.Members()) && Open() == old(Open())
      ensures forall p: Pipe :: p in pipes.Members() ==>
        if p in old(D.ActiveSet(View())) then p.Offered(m) else unchanged(p`parts, p`flushed)
      ensures D.EligibleSet(View()) == old(D.EligibleSet(View())) - (old(D.ActiveSet(View())) - Open())
      ensures D.ActiveSet(View()) == if !m.more then D.EligibleSet(View()) else old(D.ActiveSet(View())) - (old(D.ActiveSet(View())) - Open())
    {
      matching := active;
      SendToMatching(m);
    }
  }

  /** Three fills that leave garbage in the hole end like three fills that do not. */
  lemma Stages(d: D.Array<Pipe?>, i: nat, u1: seq<Pipe?>, u2: seq<Pipe?>, u3: seq<Pipe?>)
    requires D.Ordered(d) && i < |d.pipes|
    requires D.AgreeBut(u1, D.Fill(d.pipes, i, d.matching), D.Hole(i, d.matching))
    requires D.AgreeBut(u2, D.Fill(u1, D.Hole(i, d.matching), d.active), D.Hole(D.Hole(i, d.matching), d.active))
    requires var h2 := D.Hole(D.Hole(i, d.matching), d.active); D.AgreeBut(u3, D.Fill(u2, h2, d.eligible), D.Hole(h2, d.eligible))
    ensures var n, h1 := |u3| - 1, D.Hole(i, d.matching); var h2 := D.Hole(h1, d.active); var h3 := D.Hole(h2, d.eligible);
      h3 <= n && D.Terminated(d, i) == D.Array(u3[h3 := u3[n]][..n],
        D.Less(d.matching, i), D.Less(d.active, h1), D.Less(d.eligible, h2), d.more)
  {
    var n, h1 := |u3| - 1, D.Hole(i, d.matching);
    var h2 := D.Hole(h1, d.active);
    var h3 := D.Hole(h2, d.eligible);
    var s1 := D.Fill(d.pipes, i, d.matching);
    var s2 := D.Fill(s1, h1, d.active);
    FillAgrees(u1, s1, h1, d.active);
    FillAgrees(u2, s2, h2, d.eligible);
    var s3 := D.Fill(s2, h2, d.eligible);
    assert u3[h3 := u3[n]][..n] == s3[h3 := s3[n]][..n];
  }

  lemma FillAgrees(u: seq<Pipe?>, s: seq<Pipe?>, h: nat, n: nat)
    requires D.AgreeBut(u, s, h) && h < |u| && n <= |u|
    ensures D.AgreeBut(D.Fill(u, h, n), D.Fill(s, h, n), D.Hole(h, n))
  {
  }

  lemma RefuseSwaps(d: D.Array<Pipe?>, i: nat)
    requires D.Ordered(d) && i < d.matching && null !in d.pipes
    ensures var s1 := D.Swap(d.pipes, i, d.matching - 1); var s2 := D.Swap(s1, d.matching - 1, d.active - 1);
      && D.Refuse(d, i) == D.Array(D.Swap(s2, d.active - 1, d.eligible - 1), d.matching - 1, d.active - 1, d.eligible - 1, d.more)
      && s1[d.matching - 1] == d.pipes[i] && null !in D.Refuse(d, i).pipes
  {
    NoNull(d.pipes, i, d.matching - 1);
    var s1 := D.Swap(d.pipes, i, d.matching - 1);
    NoNull(s1, d.matching - 1, d.active - 1);
    NoNull(D.Swap(s1, d.matching - 1, d.active - 1), d.active - 1, d.eligible - 1);
  }
}
