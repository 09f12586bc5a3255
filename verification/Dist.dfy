/** Distribution of messages to many pipes. One array holds all pipes, in the order
    matching, active, eligible, passive; three counters say where each group ends. */
module Dist {

  /** `more` is set between the parts of one message. */
  datatype Array<P> = Array(pipes: seq<P>, matching: nat, active: nat, eligible: nat, more: bool)

  function Swap<P>(s: seq<P>, i: nat, j: nat): (r: seq<P>)
    requires i < |s| && j < |s|
    ensures |r| == |s|
  {
    s[i := s[j]][j := s[i]]
  }

  predicate Ordered<P>(d: Array<P>) {
    d.matching <= d.active <= d.eligible <= |d.pipes| && (!d.more ==> d.active == d.eligible)
  }

  ghost predicate NoDup<P>(s: seq<P>) {
    forall i, j :: 0 <= i < j < |s| ==> s[i] != s[j]
  }

  ghost predicate Valid<P>(d: Array<P>) {
    Ordered(d) && NoDup(d.pipes)
  }

  // ---- Operations ----

  function Attach<P>(d: Array<P>, p: P): Array<P>
    requires Ordered(d)
  {
    var s := d.pipes + [p];
    if d.more then d.(pipes := Swap(s, d.eligible, |s| - 1), eligible := d.eligible + 1)
    else d.(pipes := Swap(s, d.active, |s| - 1), active := d.active + 1, eligible := d.eligible + 1)
  }

  function Match<P>(d: Array<P>, i: nat): Array<P>
    requires Ordered(d) && i < |d.pipes|
  {
    if i < d.matching || i >= d.eligible then d
    else d.(pipes := Swap(d.pipes, i, d.matching), matching := d.matching + 1)
  }

  function Unmatch<P>(d: Array<P>): Array<P> {
    d.(matching := 0)
  }

  /** Moves passive pipe `i` to the eligible ones, and on to the active ones unless a
      message is half sent. */
  function Activated<P>(d: Array<P>, i: nat): Array<P>
    requires Ordered(d) && d.eligible <= i < |d.pipes|
  {
    var d := d.(pipes := Swap(d.pipes, i, d.eligible), eligible := d.eligible + 1);
    if d.more then d else d.(pipes := Swap(d.pipes, d.eligible - 1, d.active), active := d.active + 1)
  }

  /** Filling hole `i` with the last pipe of the first `n`, if it lies among them: the
      new hole, the pipes that remain of the group, and the array. */
  function Hole(i: nat, n: nat): nat {
    if i < n then n - 1 else i
  }

  function Less(n: nat, i: nat): nat {
    if i < n then n - 1 else n
  }

  function Fill<P>(s: seq<P>, i: nat, n: nat): (r: seq<P>)
    requires i < |s| && n <= |s|
    ensures |r| == |s|
  {
    if i < n then s[i := s[n - 1]] else s
  }

  /** The hole of the leaver moves outwards through the groups it belongs to, and is
      filled at last with the last pipe of all. */
  function Terminated<P>(d: Array<P>, i: nat): Array<P>
    requires Ordered(d) && i < |d.pipes|
  {
    var s1, h1 := Fill(d.pipes, i, d.matching), Hole(i, d.matching);
    var s2, h2 := Fill(s1, h1, d.active), Hole(h1, d.active);
    var s3, h3 := Fill(s2, h2, d.eligible), Hole(h2, d.eligible);
    Array(s3[h3 := s3[|s3| - 1]][..|s3| - 1],
          Less(d.matching, i), Less(d.active, h1), Less(d.eligible, h2), d.more)
  }

  /** A refused write: the pipe moves behind the last one of each group. */
  function Refuse<P>(d: Array<P>, i: nat): (r: Array<P>)
    requires Ordered(d) && i < d.matching
    ensures |r.pipes| == |d.pipes| && r.matching == d.matching - 1
  {
    var s := Swap(d.pipes, i, d.matching - 1);
    var s := Swap(s, d.matching - 1, d.active - 1);
    var s := Swap(s, d.active - 1, d.eligible - 1);
    d.(pipes := s, matching := d.matching - 1, active := d.active - 1, eligible := d.eligible - 1)
  }

  /** The loop of `distribute` from index `i` on. `open` are the pipes that accept.
      The second result lists the pipes in the order they are tried. */
  function Distribute<P(==)>(d: Array<P>, i: nat, open: set<P>): (r: (Array<P>, seq<P>))
    requires Ordered(d)
    decreases d.matching - i
  {
    if i >= d.matching then (d, [])
    else if d.pipes[i] in open then
      var (e, tried) := Distribute(d, i + 1, open);
      (e, [d.pipes[i]] + tried)
    else
      var (e, tried) := Distribute(Refuse(d, i), i, open);
      (e, [d.pipes[i]] + tried)
  }

  /** `send_to_matching`; `last` says that no part follows. */
  function SendToMatching<P(==)>(d: Array<P>, open: set<P>, last: bool): (Array<P>, seq<P>)
    requires Ordered(d)
  {
    var (e, tried) := Distribute(d, 0, open);
    (e.(active := if last then e.eligible else e.active, more := !last), tried)
  }

  function SendToAll<P(==)>(d: Array<P>, open: set<P>, last: bool): (Array<P>, seq<P>)
    requires Ordered(d)
  {
    SendToMatching(d.(matching := d.active), open, last)
  }

  // ---- Groups ----

  function Group<P>(s: seq<P>, n: nat): set<P>
    requires n <= |s|
  {
    set x | x in s[..n]
  }

  /** Moving the pipe at `i` to the end of the first `n`: it leaves the first `n - 1`,
      and no group that ends at or before `i`, or at or after `n`, changes. */
  lemma SwapOut<P>(s: seq<P>, i: nat, n: nat)
    requires NoDup(s) && i < n <= |s|
    ensures NoDup(Swap(s, i, n - 1)) && Swap(s, i, n - 1)[n - 1] == s[i]
    ensures Group(Swap(s, i, n - 1), n - 1) == Group(s, n) - {s[i]}
    ensures forall k :: 0 <= k <= i || n <= k <= |s| ==> Group(Swap(s, i, n - 1), k) == Group(s, k)
  {
    var r := Swap(s, i, n - 1);
    forall k, x | 0 <= k <= i || n <= k <= |s| ensures x in r[..k] <==> x in s[..k] {
      SwapMember(s, i, n - 1, k, x);
    }
    forall x ensures x in r[..n - 1] <==> x in s[..n] && x != s[i] {
      SwapMember(s, i, n - 1, n, x);
      assert r[..n] == r[..n - 1] + [r[n - 1]];
    }
  }

  lemma SwapMember<P>(s: seq<P>, i: nat, j: nat, k: nat, x: P)
    requires i <= j < |s| && k <= |s| && (k <= i || j < k)
    ensures x in Swap(s, i, j)[..k] <==> x in s[..k]
  {
    var r := Swap(s, i, j);
    if x in s[..k] {
      var a :| 0 <= a < k && s[a] == x;
      assert r[if a == i then j else if a == j then i else a] == x;
    }
    if x in r[..k] {
      var a :| 0 <= a < k && r[a] == x;
      assert s[if a == i then j else if a == j then i else a] == x;
    }
  }

  /** Moving the pipe at `i` to position `n` before it: it joins the first `n + 1`. */
  lemma SwapIn<P>(s: seq<P>, i: nat, n: nat)
    requires NoDup(s) && n <= i < |s|
    ensures NoDup(Swap(s, i, n)) && Swap(s, i, n)[n] == s[i]
    ensures Group(Swap(s, i, n), n + 1) == Group(s, n) + {s[i]}
    ensures forall k :: 0 <= k <= n || i < k <= |s| ==> Group(Swap(s, i, n), k) == Group(s, k)
  {
    var r := Swap(s, i, n);
    assert r == Swap(s, n, i);
    forall k, x | 0 <= k <= n || i < k <= |s| ensures x in r[..k] <==> x in s[..k] {
      SwapMember(s, n, i, k, x);
    }
    assert r[..n + 1] == r[..n] + [s[i]];
    assert r[..n] == s[..n];
  }

  function MatchingSet<P>(d: Array<P>): set<P> requires Ordered(d) { Group(d.pipes, d.matching) }
  function ActiveSet<P>(d: Array<P>): set<P> requires Ordered(d) { Group(d.pipes, d.active) }
  function EligibleSet<P>(d: Array<P>): set<P> requires Ordered(d) { Group(d.pipes, d.eligible) }
  function AllSet<P>(d: Array<P>): set<P> { Group(d.pipes, |d.pipes|) }

  // ---- What each operation does to the groups ----

  lemma AppendGroups<P>(s: seq<P>, p: P)
    requires NoDup(s) && p !in s
    ensures NoDup(s + [p]) && Group(s + [p], |s| + 1) == Group(s, |s|) + {p}
    ensures forall k :: 0 <= k <= |s| ==> Group(s + [p], k) == Group(s, k)
  {
    var u := s + [p];
    assert forall k :: 0 <= k <= |s| ==> u[..k] == s[..k];
    assert u[..|s| + 1] == u;
    assert s[..|s|] == s;
  }

  lemma SwapSym<P>(s: seq<P>, i: nat, j: nat)
    requires i < |s| && j < |s|
    ensures Swap(s, i, j) == Swap(s, j, i)
    ensures i == j ==> Swap(s, i, j) == s
  {
  }

  /** A new pipe is active at once, or eligible while a message is half sent. */
  lemma AttachGroups<P>(d: Array<P>, p: P)
    requires Valid(d) && p !in d.pipes
    ensures var r := Attach(d, p);
      && Valid(r) && r.more == d.more && MatchingSet(r) == MatchingSet(d)
      && ActiveSet(r) == ActiveSet(d) + (if d.more then {} else {p})
      && EligibleSet(r) == EligibleSet(d) + {p} && AllSet(r) == AllSet(d) + {p}
  {
    hide NoDup, Swap, Group;
    var s := d.pipes + [p];
    var n := if d.more then d.eligible else d.active;
    AppendGroups(d.pipes, p);
    SwapIn(s, |s| - 1, n);
    SwapSym(s, n, |s| - 1);
  }

  /** `match` on a pipe that joined in mid-message would take an active pipe out of its
      group, or make the matching pipes outnumber the active ones. */
  lemma MatchKeepsIff<P>(d: Array<P>, i: nat)
    requires Valid(d) && i < |d.pipes|
    ensures var r := Match(d, i);
      Ordered(r) && ActiveSet(r) == ActiveSet(d) <==> !(d.active <= i < d.eligible)
  {
    if d.active <= i < d.eligible {
      var r := Match(d, i);
      if d.matching < d.active {
        assert r.pipes[..r.active][d.matching] == d.pipes[i];
        assert d.pipes[i] in ActiveSet(r) && d.pipes[i] !in ActiveSet(d);
      }
    } else {
      MatchGroups(d, i);
    }
  }

  /** Such a pipe: one message is half sent when the second pipe is attached and matched. */
  lemma MatchBreaks()
    ensures var d := Attach(SendToMatching(Match(Attach(Array([], 0, 0, 0, false), 1), 0), {1}, false).0, 2);
      Valid(d) && d.pipes == [1, 2] && !Ordered(Match(d, 1))
  {
    var d0: Array<int> := Array([], 0, 0, 0, false);
    var d1 := Attach(d0, 1);
    assert d1 == Array([1], 0, 1, 1, false);
    var d2 := Match(d1, 0);
    assert d2 == Array([1], 1, 1, 1, false);
    var d3 := SendToMatching(d2, {1}, false).0;
    assert Distribute(d2, 1, {1}).0 == d2;
    assert d3 == Array([1], 1, 1, 1, true);
    assert Attach(d3, 2) == Array([1, 2], 1, 1, 2, true);
  }

  /** An eligible pipe joins the matching ones; the other groups stay, but for a pipe that
      joined in mid-message. */
  lemma MatchGroups<P>(d: Array<P>, i: nat)
    requires Valid(d) && i < |d.pipes|
    ensures var r := Match(d, i);
      && NoDup(r.pipes) && r.more == d.more && r.active == d.active && r.eligible == d.eligible
      && Group(r.pipes, r.matching) == MatchingSet(d) + (if i < d.eligible then {d.pipes[i]} else {})
      && Group(r.pipes, r.eligible) == EligibleSet(d) && AllSet(r) == AllSet(d)
      && (!(d.active <= i < d.eligible) ==> Valid(r) && ActiveSet(r) == ActiveSet(d))
  {
    if d.matching <= i < d.eligible {
      SwapIn(d.pipes, i, d.matching);
    } else if i < d.matching {
      assert d.pipes[..d.matching][i] == d.pipes[i];
    }
  }

  /** A pipe that can be written again is active at once, or eligible while a message
      is half sent. */
  lemma ActivatedGroups<P>(d: Array<P>, i: nat)
    requires Valid(d) && d.eligible <= i < |d.pipes|
    ensures var r := Activated(d, i); var p := d.pipes[i];
      && Valid(r) && r.more == d.more && MatchingSet(r) == MatchingSet(d)
      && ActiveSet(r) == ActiveSet(d) + (if d.more then {} else {p})
      && EligibleSet(r) == EligibleSet(d) + {p} && AllSet(r) == AllSet(d)
  {
    hide NoDup, Swap, Group;
    SwapIn(d.pipes, i, d.eligible);
    SwapSym(Swap(d.pipes, i, d.eligible), d.eligible, d.active);
  }

  /** A refused pipe is in no group any more. */
  lemma RefuseGroups<P>(d: Array<P>, i: nat)
    requires Valid(d) && i < d.matching
    ensures var r := Refuse(d, i); var p := d.pipes[i];
      && Valid(r) && r.more == d.more && MatchingSet(r) == MatchingSet(d) - {p}
      && ActiveSet(r) == ActiveSet(d) - {p} && EligibleSet(r) == EligibleSet(d) - {p} && AllSet(r) == AllSet(d)
      && r.pipes[..i] == d.pipes[..i]
  {
    hide NoDup, Swap, Group, Refuse;
    RefusePrefix(d, i);
    var s1 := Swap(d.pipes, i, d.matching - 1);
    var s2 := Swap(s1, d.matching - 1, d.active - 1);
    SwapOut(d.pipes, i, d.matching);
    SwapOut(s1, d.matching - 1, d.active);
    SwapOut(s2, d.active - 1, d.eligible);
  }

  lemma RefusePrefix<P>(d: Array<P>, i: nat)
    requires Ordered(d) && i < d.matching
    ensures Refuse(d, i).pipes[..i] == d.pipes[..i]
    ensures var s1 := Swap(d.pipes, i, d.matching - 1); var s2 := Swap(s1, d.matching - 1, d.active - 1);
      Refuse(d, i) == Array(Swap(s2, d.active - 1, d.eligible - 1), d.matching - 1, d.active - 1, d.eligible - 1, d.more)
  {
  }

  // ---- Removal through three holes ----

  ghost predicate AgreeBut<P>(u: seq<P>, v: seq<P>, h: nat) {
    |u| == |v| && forall k :: 0 <= k < |u| && k != h ==> u[k] == v[k]
  }

  function SwapTo<P>(s: seq<P>, i: nat, n: nat): (r: seq<P>)
    requires i < |s| && n <= |s|
    ensures |r| == |s|
  {
    if i < n then Swap(s, i, n - 1) else s
  }

  /** Filling a hole from the end of a group is swapping the leaver there. */
  lemma FillIsSwap<P>(u: seq<P>, v: seq<P>, h: nat, n: nat)
    requires AgreeBut(u, v, h) && h < |u| && n <= |u|
    ensures AgreeBut(Fill(u, h, n), SwapTo(v, h, n), Hole(h, n))
  {
  }

  lemma SwapToGroups<P>(s: seq<P>, i: nat, n: nat)
    requires NoDup(s) && i < |s| && n <= |s|
    ensures var r := SwapTo(s, i, n);
      && NoDup(r) && Hole(i, n) < |r| && r[Hole(i, n)] == s[i] && Group(r, Less(n, i)) == Group(s, n) - {s[i]}
      && forall k :: 0 <= k <= i || n <= k <= |s| ==> Group(r, k) == Group(s, k)
  {
    if i < n {
      SwapOut(s, i, n);
    } else {
      assert s[i] !in s[..n];
    }
  }

  /** The array after the leaver was moved outwards through the three groups. */
  function Outward<P>(d: Array<P>, i: nat): (r: (seq<P>, nat))
    requires Ordered(d) && i < |d.pipes|
    ensures |r.0| == |d.pipes| && r.1 < |d.pipes|
  {
    var h1, h2 := Hole(i, d.matching), Hole(Hole(i, d.matching), d.active);
    (SwapTo(SwapTo(SwapTo(d.pipes, i, d.matching), h1, d.active), h2, d.eligible), Hole(h2, d.eligible))
  }

  lemma TerminatedSwaps<P>(d: Array<P>, i: nat)
    requires Ordered(d) && i < |d.pipes|
    ensures var h1 := Hole(i, d.matching); var h2 := Hole(h1, d.active); var (s, h) := Outward(d, i);
      Terminated(d, i) == Array(SwapTo(s, h, |s|)[..|s| - 1],
        Less(d.matching, i), Less(d.active, h1), Less(d.eligible, h2), d.more)
  {
    hide Fill, SwapTo, AgreeBut;
    AgreeSelf(d.pipes, i);
    var n, h1, h2, h3 := |d.pipes|, Hole(i, d.matching), Hole(Hole(i, d.matching), d.active), Outward(d, i).1;
    var u1, s1 := Fill(d.pipes, i, d.matching), SwapTo(d.pipes, i, d.matching);
    var u2, s2 := Fill(u1, h1, d.active), SwapTo(s1, h1, d.active);
    var u3, s3 := Fill(u2, h2, d.eligible), SwapTo(s2, h2, d.eligible);
    FillIsSwap(d.pipes, d.pipes, i, d.matching);
    FillIsSwap(u1, s1, h1, d.active);
    FillIsSwap(u2, s2, h2, d.eligible);
    FillIsSwap(u3, s3, h3, n);
    LastFill(u3, h3);
    SameFront(Fill(u3, h3, n), SwapTo(s3, h3, n));
  }

  lemma AgreeSelf<P>(s: seq<P>, i: nat)
    ensures AgreeBut(s, s, i)
  {
  }

  lemma SameFront<P>(u: seq<P>, s: seq<P>)
    requires 0 < |u| == |s| && AgreeBut(u, s, |u| - 1)
    ensures u[..|u| - 1] == s[..|s| - 1]
  {
  }

  lemma LastFill<P>(u: seq<P>, h: nat)
    requires h < |u|
    ensures Fill(u, h, |u|) == u[h := u[|u| - 1]]
  {
  }

  /** The leaver is gone from every group it was in, and nobody else is. */
  lemma TerminatedGroups<P>(d: Array<P>, i: nat)
    requires Valid(d) && i < |d.pipes|
    ensures var r := Terminated(d, i); var p := d.pipes[i];
      && Valid(r) && r.more == d.more && MatchingSet(r) == MatchingSet(d) - {p}
      && ActiveSet(r) == ActiveSet(d) - {p} && EligibleSet(r) == EligibleSet(d) - {p} && AllSet(r) == AllSet(d) - {p}
  {
    hide Terminated, SwapTo, NoDup, Group, Outward;
    TerminatedSwaps(d, i);
    OutwardGroups(d, i);
    var (s, h) := Outward(d, i);
    SwapToGroups(s, h, |s|);
    TakeGroups(SwapTo(s, h, |s|));
  }

  lemma OutwardGroups<P>(d: Array<P>, i: nat)
    requires Valid(d) && i < |d.pipes|
    ensures var h1 := Hole(i, d.matching); var h2 := Hole(h1, d.active); var (s, h) := Outward(d, i); var p := d.pipes[i];
      && NoDup(s) && s[h] == p && Group(s, |s|) == AllSet(d)
      && Less(d.matching, i) <= Less(d.active, h1) <= Less(d.eligible, h2) <= h
      && Group(s, Less(d.matching, i)) == MatchingSet(d) - {p}
      && Group(s, Less(d.active, h1)) == ActiveSet(d) - {p}
      && Group(s, Less(d.eligible, h2)) == EligibleSet(d) - {p}
  {
    hide SwapTo, NoDup, Group;
    var h1, h2 := Hole(i, d.matching), Hole(Hole(i, d.matching), d.active);
    var s1 := SwapTo(d.pipes, i, d.matching);
    SwapToGroups(d.pipes, i, d.matching);
    SwapToGroups(s1, h1, d.active);
    SwapToGroups(SwapTo(s1, h1, d.active), h2, d.eligible);
  }

  lemma TakeGroups<P>(s: seq<P>)
    requires NoDup(s) && s != []
    ensures NoDup(s[..|s| - 1])
    ensures forall k :: 0 <= k < |s| ==> Group(s[..|s| - 1], k) == Group(s, k)
  {
    assert forall k :: 0 <= k < |s| ==> s[..|s| - 1][..k] == s[..k];
  }

  // ---- Sending one part ----

  /** The matching pipes from position `i` on. */
  function Rest<P>(d: Array<P>, i: nat): set<P>
    requires Ordered(d) && i <= d.matching
  {
    MatchingSet(d) - Group(d.pipes, i)
  }

  lemma AllRest<P>(d: Array<P>, open: set<P>)
    requires Ordered(d)
    ensures Rest(d, 0) == MatchingSet(d) && Rest(d, d.matching) == {} && Distribute(d, d.matching, open).0 == d
  {
  }

  function Elements<P>(s: seq<P>): set<P> {
    set x | x in s
  }

  lemma NextTry<P>(d: Array<P>, i: nat)
    requires Valid(d) && i < d.matching
    ensures d.pipes[i] in Rest(d, i) && d.pipes[i] in MatchingSet(d)
    ensures Rest(d, i + 1) == Rest(d, i) - {d.pipes[i]}
    ensures var r := Refuse(d, i);
      Ordered(r) && i <= r.matching && (Group(r.pipes, i) == Group(d.pipes, i) ==>
        MatchingSet(r) == MatchingSet(d) - {d.pipes[i]} ==> Rest(r, i) == Rest(d, i) - {d.pipes[i]})
  {
    assert d.pipes[..d.matching][i] == d.pipes[i];
    assert d.pipes[..i + 1] == d.pipes[..i] + [d.pipes[i]];
  }

  lemma ConsTried<P>(x: P, tried: seq<P>)
    requires NoDup(tried) && x !in tried
    ensures NoDup([x] + tried) && Elements([x] + tried) == {x} + Elements(tried)
  {
  }

  /** Every matching pipe is tried exactly once; those that refuse, and no others,
      leave the groups. */
  lemma {:induction false} DistributeGroups<P>(d: Array<P>, i: nat, open: set<P>)
    requires Valid(d) && i <= d.matching
    ensures var (e, tried) := Distribute(d, i, open); var gone := Rest(d, i) - open;
      && Valid(e) && e.more == d.more && AllSet(e) == AllSet(d)
      && MatchingSet(e) == MatchingSet(d) - gone && ActiveSet(e) == ActiveSet(d) - gone
      && EligibleSet(e) == EligibleSet(d) - gone
      && NoDup(tried) && Elements(tried) == Rest(d, i)
    decreases d.matching - i
  {
    hide Refuse, Group;
    if i == d.matching {
      assert Rest(d, i) == {};
    } else {
      var p := d.pipes[i];
      NextTry(d, i);
      if p in open {
        DistributeGroups(d, i + 1, open);
        ConsTried(p, Distribute(d, i + 1, open).1);
      } else {
        RefuseGroups(d, i);
        SamePrefixGroup(Refuse(d, i).pipes, d.pipes, i);
        DistributeGroups(Refuse(d, i), i, open);
        ConsTried(p, Distribute(Refuse(d, i), i, open).1);
      }
    }
  }

  lemma SamePrefixGroup<P>(s: seq<P>, u: seq<P>, i: nat)
    requires i <= |s| && i <= |u| && s[..i] == u[..i]
    ensures Group(s, i) == Group(u, i)
  {
  }

  lemma MatchingInAll<P>(d: Array<P>)
    requires Ordered(d)
    ensures MatchingSet(d) <= ActiveSet(d) <= EligibleSet(d) <= AllSet(d)
  {
    assert forall m, n :: 0 <= m <= n <= |d.pipes| ==> d.pipes[..n][..m] == d.pipes[..m];
  }

  /** A part goes to the matching pipes, each once. Those that refuse leave all groups, and
      nobody else does; after a last part every eligible pipe is active. */
  lemma SendGroups<P>(d: Array<P>, open: set<P>, last: bool)
    requires Valid(d)
    ensures var (e, tried) := SendToMatching(d, open, last); var gone := MatchingSet(d) - open;
      && Valid(e) && e.more == !last && AllSet(e) == AllSet(d) && MatchingSet(d) <= AllSet(d)
      && MatchingSet(e) == MatchingSet(d) - gone && EligibleSet(e) == EligibleSet(d) - gone
      && ActiveSet(e) == (if last then EligibleSet(e) else ActiveSet(d) - gone)
      && NoDup(tried) && Elements(tried) == MatchingSet(d)
  {
    hide Distribute;
    DistributeGroups(d, 0, open);
    assert Rest(d, 0) == MatchingSet(d);
    MatchingInAll(d);
  }

  /** Sending to all begins with the active pipes. */
  lemma SendAllGroups<P>(d: Array<P>, open: set<P>, last: bool)
    requires Valid(d)
    ensures var (e, tried) := SendToAll(d, open, last); var gone := ActiveSet(d) - open;
      && Valid(e) && e.more == !last && AllSet(e) == AllSet(d)
      && MatchingSet(e) == ActiveSet(d) - gone && EligibleSet(e) == EligibleSet(d) - gone
      && ActiveSet(e) == (if last then EligibleSet(e) else ActiveSet(d) - gone)
      && NoDup(tried) && Elements(tried) == ActiveSet(d)
  {
    hide NoDup, Group, Distribute;
    SendGroups(d.(matching := d.active), open, last);
  }
}
