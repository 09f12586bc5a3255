/** The fair queue as the program keeps it, changed in place. */
module FqObject {
  import D = Dist
  import F = Fq
  import opened PtrArray

  class Fq {
    const pipes: PipeArray
    var active: nat
    var current: nat
    var more: bool

    ghost function View(): F.Robin<Pipe?>
      reads this, pipes
    {
      F.Robin(pipes.items, active, current, more)
    }

    ghost predicate Valid()
      reads this, pipes, pipes.Members()
    {
      pipes.Valid() && null !in pipes.items && F.Valid(View())
    }

    constructor ()
      ensures Valid() && fresh(pipes) && View() == F.Robin([], 0, 0, false)
    {
      pipes := new PipeArray();
      active, current, more := 0, 0, false;
    }

    method Attach(p: Pipe)
      requires Valid() && p !in pipes.items
      modifies this, pipes, pipes.Members()`index, p`index
      ensures Valid() && View() == F.Attach(old(View()), p)
    {
      hide D.Group, D.NoDup, D.Swap;
      ghost var f := View();
      pipes.PushBack(p);
      pipes.Swap(active, |pipes.items| - 1);
      active := active + 1;
      F.AttachRobin(f, p);
      NoNull(f.pipes + [p], f.active, |f.pipes|);
    }

    method Activated(p: Pipe)
      requires Valid() && p in pipes.items && p.index >= active
      modifies this, pipes, pipes.Members()`index
      ensures Valid() && 0 <= old(p.index) < |old(pipes.items)| && View() == F.Activated(old(View()), old(p.index))
    {
      hide D.Group, D.NoDup, D.Swap;
      ghost var f, i := View(), p.index;
      F.ActivatedRobin(f, i);
      NoNull(f.pipes, i, f.active);
      pipes.Swap(p.index, active);
      active := active + 1;
    }

    method Terminated(p: Pipe)
      requires Valid() && p in pipes.items
      modifies this, pipes, pipes.Members()`index
      ensures Valid() && 0 <= old(p.index) < |old(pipes.items)| && View() == F.Terminated(old(View()), old(p.index))
    {
      hide D.NoDup, D.Group;
      F.TerminatedKeepsIff(View(), p.index);
      if p.index < active {
        active := active - 1;
        if current == active { current := 0; }
      }
      pipes.Erase(p.index);
    }

    /** The pipes whose `read` succeeds. */
    ghost function Ready(): set<Pipe?>
      reads this, pipes, pipes.Members()
    {
      set p: Pipe | p in pipes.Members() && p.inbound != [] && p.readable
    }

    method Deactivate()
      requires Valid() && active > 0
      modifies this, pipes, pipes.Members()`index
      ensures Valid() && View() == F.Deactivate(old(View())) && pipes.Members() == old(pipes.Members())
    {
      hide D.Group, D.NoDup, D.Swap;
      F.DeactivateGroups(View());
      NoNull(pipes.items, current, active - 1);
      active := active - 1;
      pipes.Swap(current, active);
      if current == active { current := 0; }
    }

    /** Tries to read one part of the current pipe. */
    method ReadCurrent() returns (fetched: bool, p: Pipe, m: Message)
      requires Valid() && active > 0
      modifies this, pipes.Members()`inbound
      ensures Valid() && p == old(pipes.items[current])
      ensures forall q: Pipe :: q in pipes.Members() && q != p ==> unchanged(q`inbound)
      ensures fetched == (old(p.inbound) != [] && p.readable)
      ensures if fetched then old(p.inbound) == [m] + p.inbound && View() == F.Served(old(View()), m.more)
              else p.inbound == old(p.inbound) && View() == old(View())
    {
      p := pipes.items[current];
      fetched, m := p.Read();
      if fetched {
        more := m.more;
        if !more {
          current := current + 1;
          if current >= active { current := 0; }
        }
      }
    }

    /** One turn of the loop of `RecvPipe`. */
    method Turn() returns (aborted: bool, fetched: bool, p: Pipe, m: Message)
      requires Valid() && active > 0
      modifies this, pipes, pipes.Members()`index, pipes.Members()`inbound
      ensures Valid() && pipes.Members() == old(pipes.Members()) && p == old(pipes.items[current]) && p in pipes.Members()
      ensures fetched == (p in old(Ready())) && aborted == (old(more) && !fetched)
      ensures fetched ==> old(p.inbound) == [m] + p.inbound && View() == F.Served(old(View()), m.more)
      ensures !fetched ==> p.inbound == old(p.inbound) && Ready() == old(Ready())
      ensures !fetched ==> View() == if aborted then old(View()) else F.Deactivate(old(View()))
      ensures forall q: Pipe :: q in pipes.Members() && q != p ==> unchanged(q`inbound)
    {
      hide D.NoDup, F.Served, F.Deactivate;
      fetched, p, m := ReadCurrent();
      aborted := more && !fetched;
      if !fetched && !aborted { Deactivate(); }
    }

    /** In mid-message the assertion fails if the current pipe cannot be read. Nothing is read
        (`p` is NULL) if no active pipe can be. */
    method RecvPipe() returns (aborted: bool, p: Pipe?, m: Message)
      requires Valid()
      modifies this, pipes, pipes.Members()`index, pipes.Members()`inbound
      ensures Valid() && pipes.Members() == old(pipes.Members())
      ensures aborted <==> old(more) && old(active) > 0 && old(pipes.items[current]) !in old(Ready())
      ensures aborted ==> p == null && View() == old(View())
      ensures var g := F.Scan(old(View()), old(Ready()));
        && (!aborted && g.active == 0 ==> p == null && View() == g)
        && (!aborted && g.active > 0 ==>
              p == g.pipes[g.current] && p in pipes.Members() && old(p.inbound) == [m] + p.inbound && View() == F.Served(g, m.more))
      ensures forall q: Pipe :: q in pipes.Members() && q != p ==> unchanged(q`inbound)
    {
      hide D.NoDup, F.Served;
      ghost var f, all := View(), pipes.Members();
      var count := active;
      while count != 0
        invariant Valid() && count == active && pipes.Members() == all && Ready() == old(Ready())
        invariant if old(more) then View() == f else !more
        invariant F.Scan(View(), Ready()) == F.Scan(f, Ready())
        invariant forall q: Pipe :: q in all ==> unchanged(q`inbound)
      {
        var fetched: bool;
        aborted, fetched, p, m := Turn();
        if aborted { return true, null, m; }
        if fetched { return; }
        count := count - 1;
      }
      aborted, p, m := false, null, Message([], false);
    }

    method HasIn() returns (r: bool)
      requires Valid()
      modifies this, pipes, pipes.Members()`index
      ensures Valid() && pipes.Members() == old(pipes.Members())
      ensures View() == (if old(more) then old(View()) else F.Scan(old(View()), old(Ready())))
      ensures r == (more || active > 0)
    {
      hide D.NoDup, F.Deactivate;
      if more { return true; }
      ghost var f, ready, all := View(), Ready(), pipes.Members();
      var count := active;
      while count != 0
        invariant Valid() && count == active && pipes.Members() == all && Ready() == ready && !more
        invariant F.Scan(View(), ready) == F.Scan(f, ready)
      {
        if pipes.items[current].inbound != [] && pipes.items[current].readable { return true; }
        F.DeactivateCounts(View());
        Deactivate();
        count := count - 1;
      }
      return false;
    }
  }
}
