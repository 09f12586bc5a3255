/** Fair queueing: round robin over the active pipes, one whole message at a time. One
    array holds all pipes, the active ones first. */
module Fq {
  import opened Dist

  /** `more` is set between the parts of one message. */
  datatype Robin<P> = Robin(pipes: seq<P>, active: nat, current: nat, more: bool)

  predicate Bounded<P>(f: Robin<P>) {
    f.active <= |f.pipes| && (if f.active == 0 then f.current == 0 else f.current < f.active)
  }

  ghost predicate Valid<P>(f: Robin<P>) {
    Bounded(f) && NoDup(f.pipes)
  }

  // ---- Operations ----

  function Attach<P>(f: Robin<P>, p: P): (r: Robin<P>)
    requires Bounded(f)
    ensures Bounded(r)
  {
    var s := f.pipes + [p];
    f.(pipes := Swap(s, f.active, |s| - 1), active := f.active + 1)
  }

  function Activated<P>(f: Robin<P>, i: nat): (r: Robin<P>)
    requires Bounded(f) && f.active <= i < |f.pipes|
    ensures Bounded(r)
  {
    f.(pipes := Swap(f.pipes, i, f.active), active := f.active + 1)
  }

  /** The current pipe had nothing to read: the last active pipe takes its place. */
  function Deactivate<P>(f: Robin<P>): (r: Robin<P>)
    requires Bounded(f) && f.active > 0
    ensures Bounded(r) && |r.pipes| == |f.pipes|
  {
    var n := f.active - 1;
    f.(pipes := Swap(f.pipes, f.current, n), active := n, current := if f.current == n then 0 else f.current)
  }

  /** The loop shared by `recvpipe` and `has_in`: deactivate until the current pipe is
      one of those that have something to read. */
  function Scan<P(==)>(f: Robin<P>, ready: set<P>): (r: Robin<P>)
    requires Bounded(f)
    ensures Bounded(r) && |r.pipes| == |f.pipes| && r.more == f.more
    ensures r.active > 0 ==> r.pipes[r.current] in ready
    decreases f.active
  {
    if f.active == 0 || f.pipes[f.current] in ready then f else Scan(Deactivate(f), ready)
  }

  /** A part was read from the current pipe. */
  function Served<P>(f: Robin<P>, more: bool): (r: Robin<P>)
    requires Bounded(f) && f.active > 0
    ensures Bounded(r)
  {
    f.(more := more, current := if more then f.current else if f.current + 1 >= f.active then 0 else f.current + 1)
  }

  function Terminated<P>(f: Robin<P>, i: nat): (r: Robin<P>)
    requires Bounded(f) && i < |f.pipes|
    ensures Bounded(r)
  {
    var n := |f.pipes| - 1;
    var s := f.pipes[i := f.pipes[n]][..n];
    if i < f.active then
      f.(pipes := s, active := f.active - 1, current := if f.current == f.active - 1 then 0 else f.current)
    else
      f.(pipes := s)
  }

  // ---- Where one pipe stands ----

  /** How far behind `current` position `i` is, going round the whole array. */
  function Behind<P>(f: Robin<P>, i: nat): (r: nat)
    requires Bounded(f) && i < f.active
    ensures r < |f.pipes| && (r == 0 <==> i == f.current)
  {
    if i >= f.current then i - f.current else i + |f.pipes| - f.current
  }

  /** Active pipe `p` is at most `k` messages away from its turn. */
  ghost predicate Within<P(!new)>(f: Robin<P>, p: P, k: int) {
    Valid(f) && exists i :: 0 <= i < f.active && f.pipes[i] == p && Behind(f, i) <= k
  }

  lemma AttachWithin<P(!new)>(f: Robin<P>, p: P, k: int, q: P)
    requires Within(f, p, k) && q !in f.pipes
    ensures Within(Attach(f, q), p, k + 1)
  {
    var i :| 0 <= i < f.active && f.pipes[i] == p && Behind(f, i) <= k;
    var s := f.pipes + [q];
    var g := Attach(f, q);
    NoDupSwap(s, f.active, |s| - 1);
    assert g.pipes[i] == p && Behind(g, i) <= k + 1;
  }

  lemma NoDupSwap<P>(s: seq<P>, i: nat, j: nat)
    requires NoDup(s) && i < |s| && j < |s|
    ensures NoDup(Swap(s, i, j))
  {
    if i <= j { SwapOut(s, i, j + 1); } else { SwapIn(s, i, j); }
  }

  lemma ActivatedWithin<P(!new)>(f: Robin<P>, p: P, k: int, j: nat)
    requires Within(f, p, k) && f.active <= j < |f.pipes|
    ensures Within(Activated(f, j), p, k)
  {
    var i :| 0 <= i < f.active && f.pipes[i] == p && Behind(f, i) <= k;
    NoDupSwap(f.pipes, j, f.active);
    assert Activated(f, j).pipes[i] == p && Behind(Activated(f, j), i) <= k;
  }

  /** Deactivating another pipe never takes `p` further from its turn. */
  lemma DeactivateWithin<P(!new)>(f: Robin<P>, p: P, k: int)
    requires Within(f, p, k) && f.pipes[f.current] != p
    ensures Within(Deactivate(f), p, k)
  {
    var i :| 0 <= i < f.active && f.pipes[i] == p && Behind(f, i) <= k;
    var g := Deactivate(f);
    NoDupSwap(f.pipes, f.current, f.active - 1);
    var j := if i == f.active - 1 then f.current else i;
    assert g.pipes[j] == p && Behind(g, j) <= k;
  }

  lemma {:induction false} ScanWithin<P(!new)>(f: Robin<P>, p: P, k: int, ready: set<P>)
    requires Within(f, p, k) && p in ready
    ensures Within(Scan(f, ready), p, k)
    decreases f.active
  {
    if f.pipes[f.current] !in ready {
      DeactivateWithin(f, p, k);
      ScanWithin(Deactivate(f), p, k, ready);
    }
  }

  /** A whole message from another pipe brings `p` one closer. */
  lemma ServedWithin<P(!new)>(f: Robin<P>, p: P, k: int, more: bool)
    requires Within(f, p, k) && (!more ==> f.pipes[f.current] != p)
    ensures Within(Served(f, more), p, if more then k else k - 1)
  {
    var i :| 0 <= i < f.active && f.pipes[i] == p && Behind(f, i) <= k;
    assert Behind(Served(f, more), i) <= if more then k else k - 1;
  }

  // ---- Groups ----

  function ActivePipes<P>(f: Robin<P>): set<P>
    requires Bounded(f)
  {
    Group(f.pipes, f.active)
  }

  function AllPipes<P>(f: Robin<P>): set<P> {
    Group(f.pipes, |f.pipes|)
  }

  lemma DeactivateGroups<P>(f: Robin<P>)
    requires Valid(f) && f.active > 0
    ensures var r := Deactivate(f); Valid(r) && AllPipes(r) == AllPipes(f) && ActivePipes(r) == ActivePipes(f) - {f.pipes[f.current]}
  {
    hide NoDup, Swap, Group;
    SwapOut(f.pipes, f.current, f.active);
  }

  lemma CurrentActive<P>(f: Robin<P>)
    requires Bounded(f) && f.active > 0
    ensures f.pipes[f.current] in ActivePipes(f)
  {
    assert f.pipes[..f.active][f.current] == f.pipes[f.current];
  }

  /** The scan drops only pipes with nothing to read; it stops empty-handed exactly if
      no active pipe has anything, with no pipe active and `current` back at zero. */
  lemma {:induction false} ScanGroups<P>(f: Robin<P>, ready: set<P>)
    requires Valid(f)
    ensures var r := Scan(f, ready);
      && Valid(r) && AllPipes(r) == AllPipes(f) && ActivePipes(r) <= ActivePipes(f)
      && ActivePipes(f) * ready <= ActivePipes(r)
      && (r.active == 0 <==> ActivePipes(f) !! ready)
    decreases f.active
  {
    hide NoDup, Group, Deactivate;
    if f.active == 0 {
      assert ActivePipes(f) == {} by { NobodyActive(f); }
    } else if f.pipes[f.current] in ready {
      CurrentActive(f);
    } else {
      DeactivateGroups(f);
      DeactivateCounts(f);
      ScanGroups(Deactivate(f), ready);
    }
  }

  lemma NobodyActive<P>(f: Robin<P>)
    requires Bounded(f) && f.active == 0
    ensures ActivePipes(f) == {}
  {
  }

  lemma DeactivateCounts<P>(f: Robin<P>)
    requires Bounded(f) && f.active > 0
    ensures Deactivate(f).active == f.active - 1
  {
  }

  lemma AttachRobin<P>(f: Robin<P>, p: P)
    requires Valid(f) && p !in f.pipes
    ensures var r := Attach(f, p);
      Valid(r) && AllPipes(r) == AllPipes(f) + {p} && ActivePipes(r) == ActivePipes(f) + {p}
  {
    hide NoDup, Swap, Group;
    var s := f.pipes + [p];
    AppendGroups(f.pipes, p);
    SwapIn(s, |s| - 1, f.active);
    SwapSym(s, f.active, |s| - 1);
  }

  lemma ActivatedRobin<P>(f: Robin<P>, i: nat)
    requires Valid(f) && f.active <= i < |f.pipes|
    ensures var r := Activated(f, i);
      Valid(r) && AllPipes(r) == AllPipes(f) && ActivePipes(r) == ActivePipes(f) + {f.pipes[i]}
  {
    hide NoDup, Swap, Group;
    SwapIn(f.pipes, i, f.active);
  }

  // ---- Removal ----

  /** `terminated` fills the leaver's slot with the last pipe of the whole array. That
      keeps the active group, less the leaver, exactly if the leaver was passive, was
      the last active pipe, or every pipe was active. */
  lemma TerminatedKeepsIff<P>(f: Robin<P>, i: nat)
    requires Valid(f) && i < |f.pipes|
    ensures Valid(Terminated(f, i))
    ensures ActivePipes(Terminated(f, i)) == ActivePipes(f) - {f.pipes[i]}
      <==> f.active <= i || i == f.active - 1 || f.active == |f.pipes|
  {
    var r, n := Terminated(f, i), |f.pipes| - 1;
    if i < f.active - 1 && f.active <= n {
      assert r.pipes[..r.active][i] == f.pipes[n];
      assert f.pipes[n] in ActivePipes(r) && f.pipes[n] !in ActivePipes(f);
    } else {
      forall x ensures x in r.pipes[..r.active] <==> x in f.pipes[..f.active] && x != f.pipes[i] {
        if x in f.pipes[..f.active] && x != f.pipes[i] {
          var k :| 0 <= k < f.active && f.pipes[k] == x;
          assert r.pipes[..r.active][if k == n then i else k] == x;
        }
      }
    }
  }

  /** Everybody else is still attached. */
  lemma TerminatedAll<P>(f: Robin<P>, i: nat)
    requires Valid(f) && i < |f.pipes|
    ensures Valid(Terminated(f, i)) && AllPipes(Terminated(f, i)) == AllPipes(f) - {f.pipes[i]}
  {
    var r, n := Terminated(f, i), |f.pipes| - 1;
    forall x ensures x in r.pipes[..|r.pipes|] <==> x in f.pipes[..|f.pipes|] && x != f.pipes[i] {
      if x in f.pipes[..|f.pipes|] && x != f.pipes[i] {
        var k :| 0 <= k < |f.pipes| && f.pipes[k] == x;
        assert r.pipes[..|r.pipes|][if k == n then i else k] == x;
      }
    }
  }

  /** `terminated` of pipe `i` takes the turn away from the current pipe: it is the one that
      leaves, or it stands last among the active ones, where `current` goes back to zero, and
      is not moved there itself. */
  predicate Unseats<P>(f: Robin<P>, i: nat) {
    i == f.current || (i < f.active && f.current == f.active - 1 && !(i == 0 && f.active == |f.pipes|))
  }

  lemma TerminatedUnseatsIff<P>(f: Robin<P>, i: nat)
    requires Valid(f) && i < |f.pipes| && f.active > 0
    ensures var r := Terminated(f, i);
      Unseats(f, i) <==> r.active == 0 || r.pipes[r.current] != f.pipes[f.current]
    ensures Terminated(f, i).more == f.more
  {
  }

  /** Pipe 3 has nothing to read when its turn comes and falls passive; when pipe 1 leaves,
      pipe 2 falls passive unasked and pipe 3 takes its place. */
  lemma TerminatedLosesActive()
    ensures var all := Attach(Attach(Attach(Robin([], 0, 0, false), 1), 2), 3);
      var f := Scan(Served(Served(all, false), false), {1, 2});
      f == Robin([1, 2, 3], 2, 0, false) && ActivePipes(f) == {1, 2} && ActivePipes(Terminated(f, 0)) == {3}
  {
    ThreeAttached();
    assert Deactivate(Robin([1, 2, 3], 3, 2, false)) == Robin([1, 2, 3], 2, 0, false);
    assert [1, 2, 3][0 := 3][..2] == [3, 2];
    assert [3, 2][..1] == [3];
    assert [1, 2, 3][..2] == [1, 2];
  }

  /** A part of pipe 3's message has been read when pipe 2 leaves: it is pipe 1's turn. */
  lemma TerminatedUnseatsBystander()
    ensures var all := Attach(Attach(Attach(Robin([], 0, 0, false), 1), 2), 3);
      var f := Served(Served(Served(all, false), false), true);
      f == Robin([1, 2, 3], 3, 2, true) && Terminated(f, 1) == Robin([1, 3], 2, 0, true)
  {
    ThreeAttached();
    assert [1, 2, 3][1 := 3][..2] == [1, 3];
  }

  lemma ThreeAttached()
    ensures Attach(Attach(Attach(Robin([], 0, 0, false), 1), 2), 3) == Robin([1, 2, 3], 3, 0, false)
  {
    var none: Robin<int> := Robin([], 0, 0, false);
    assert Attach(none, 1) == Robin([1], 1, 0, false);
    assert Attach(Robin([1], 1, 0, false), 2) == Robin([1, 2], 2, 0, false);
    assert Attach(Robin([1, 2], 2, 0, false), 3) == Robin([1, 2, 3], 3, 0, false);
  }
}
