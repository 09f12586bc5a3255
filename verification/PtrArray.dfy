/** Array of pointers with constant-time removal: every item stores its own position. */
module PtrArray {
  import D = Dist

  datatype Message = Message(body: seq<char>, more: bool)

  /** What a distributor or a fair queue sees of a pipe: the parts it wrote and flushed, the
      parts that lie in it, and whether they can still be read. `index` is the pipe's own record of its array slot. */
  class Pipe {
    var index: int
    var accepts: bool
    var parts: seq<Message>
    var flushed: nat
    var inbound: seq<Message>
    var readable: bool

    constructor (accepts: bool)
      ensures this.accepts == accepts && parts == [] && flushed == 0 && inbound == [] && readable
    {
      this.accepts := accepts;
      parts, flushed, inbound, index, readable := [], 0, [], -1, true;
    }

    method Write(m: Message) returns (ok: bool)
      modifies `parts
      ensures ok == accepts && parts == old(parts) + if ok then [m] else []
    {
      ok := accepts;
      if ok { parts := parts + [m]; }
    }

    method Flush()
      modifies `flushed
      ensures flushed == |parts|
    {
      flushed := |parts|;
    }

    method Read() returns (ok: bool, m: Message)
      modifies `inbound
      ensures ok == (old(inbound) != [] && readable)
      ensures if ok then old(inbound) == [m] + inbound else inbound == old(inbound)
    {
      ok, m := inbound != [] && readable, Message([], false);
      if ok { m, inbound := inbound[0], inbound[1..]; }
    }

    /** What one part does to a pipe it was offered. */
    twostate predicate Offered(m: Message)
      reads this
    {
      && parts == old(parts) + (if accepts then [m] else [])
      && flushed == if accepts && !m.more then |parts| else old(flushed)
    }
  }

  /** A slot may be NULL while an item is being taken out. */
  class PipeArray {
    var items: seq<Pipe?>

    ghost function Members(): set<Pipe>
      reads this
    {
      set p: Pipe | p in items
    }

    ghost predicate Valid()
      reads this, Members()
    {
      forall i :: 0 <= i < |items| && items[i] != null ==> items[i].index == i
    }

    constructor ()
      ensures Valid() && items == []
    {
      items := [];
    }

    method PushBack(p: Pipe)
      requires Valid() && p !in items
      modifies this, p`index
      ensures Valid() && items == old(items) + [p]
    {
      p.index := |items|;
      items := items + [p];
    }

    method Erase(i: nat)
      requires Valid() && i < |items|
      modifies this, Members()`index
      ensures |items| == |old(items)| - 1
      ensures Valid() && items == old(items)[i := old(items)[|items|]][..|items|]
    {
      var back := items[|items| - 1];
      if back != null { back.index := i; }
      items := items[i := back];
      items := items[..|items| - 1];
    }

    lemma SameMembers(i: nat, j: nat)
      requires i < |items| && j < |items|
      ensures var r := items[i := items[j]][j := items[i]]; (set p: Pipe | p in r) == Members()
    {
      var r := items[i := items[j]][j := items[i]];
      forall p | p in items ensures p in r {
        var k :| 0 <= k < |items| && items[k] == p;
        assert r[if k == i then j else if k == j then i else k] == p;
      }
    }

    method Swap(i: nat, j: nat)
      requires Valid() && i < |items| && j < |items|
      modifies this, Members()`index
      ensures Valid() && items == D.Swap(old(items), i, j) && Members() == old(Members())
    {
      SameMembers(i, j);
      var a, b := items[i], items[j];
      if a != null { a.index := j; }
      if b != null { b.index := i; }
      items := items[i := b][j := a];
    }
  }

  lemma NoNull(s: seq<Pipe?>, i: nat, j: nat)
    requires i < |s| && j < |s| && null !in s
    ensures null !in D.Swap(s, i, j)
  {
  }
}
