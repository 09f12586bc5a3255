/** The prefix trie as the program keeps it: nodes on the heap, changed in place. Each
    node carries the value it stands for; every method does to that value what the
    functions of module Trie do. */
module TrieObject {
  import opened Options
  import opened Bytes
  import opened Trie
  import opened TrieRemoval
  import opened TrieRemoveAll
  import TrieRuns

  /** The subtrees do not overlap. */
  ghost predicate Apart(a: PfxNode?, b: PfxNode?)
    reads a, b
  {
    a == null || b == null || (a != b && a.repr !! b.repr)
  }

  /** Slot of the table of `owner`: a NULL, or a child in its subtree `r`. */
  ghost predicate Slot(owner: PfxNode, r: set<PfxNode>, k: PfxNode?, m: Option<Node>)
    reads r - {owner}
    decreases r, 0
  {
    if k == null then m.None?
    else owner in r && k in r - {owner} && k in k.repr && k.repr <= r - {owner} && k.Valid() && m == Some(k.model)
  }

  /** The table of `owner`, the values its children stand for, and that the subtrees of
      the children do not overlap. */
  ghost predicate Slots(owner: PfxNode, r: set<PfxNode>, kids: seq<PfxNode?>, models: seq<Option<Node>>)
    reads r - {owner}
    decreases r, 1
  {
    |models| == |kids| && forall i :: 0 <= i < |kids| ==> Slot(owner, r, kids[i], models[i])
  }

  ghost predicate AllApart(owner: PfxNode, r: set<PfxNode>, kids: seq<PfxNode?>)
    reads r - {owner}
  {
    forall i, j {:trigger Apart(kids[i], kids[j])} :: 0 <= i < j < |kids| && kids[i] in r - {owner} && kids[j] in r - {owner} ==> Apart(kids[i], kids[j])
  }

  function KidAt(kids: seq<PfxNode?>, min: nat, c: nat): PfxNode? {
    if min <= c < min + |kids| then kids[c - min] else null
  }

  /** `table` holds the children of `kids` for the characters from `low` on. */
  predicate Moved(kids: seq<PfxNode?>, min: nat, table: seq<PfxNode?>, low: nat) {
    forall i :: 0 <= i < |table| ==> table[i] == KidAt(kids, min, low + i)
  }

  lemma SlotsMove(owner: PfxNode, r: set<PfxNode>, kids: seq<PfxNode?>, t: Node, low: nat, table: seq<PfxNode?>)
    requires Slots(owner, r, kids, t.kids) && Moved(kids, t.min, table, low)
    ensures Slots(owner, r, table, Located(t, low, |table|).kids)
  {
    hide Slot, ChildAt, KidAt;
    var u := Located(t, low, |table|);
    forall i | 0 <= i < |table| ensures Slot(owner, r, table[i], u.kids[i]) {
      assert table[i] == KidAt(kids, t.min, low + i) && u.kids[i] == ChildAt(t, low + i);
      SlotAt(owner, r, kids, t, low + i);
    }
  }

  lemma SlotAt(owner: PfxNode, r: set<PfxNode>, kids: seq<PfxNode?>, t: Node, c: nat)
    requires Slots(owner, r, kids, t.kids)
    ensures Slot(owner, r, KidAt(kids, t.min, c), ChildAt(t, c))
  {
    hide Slot;
    NullSlot(owner, r);
    if t.min <= c < t.min + |kids| { assert Slot(owner, r, kids[c - t.min], t.kids[c - t.min]); }
  }

  lemma ApartMoves(owner: PfxNode, r: set<PfxNode>, kids: seq<PfxNode?>, min: nat, low: nat, table: seq<PfxNode?>)
    requires AllApart(owner, r, kids) && Moved(kids, min, table, low)
    ensures AllApart(owner, r, table)
  {
    hide Apart;
    forall i, j | 0 <= i < j < |table| && table[i] in r - {owner} && table[j] in r - {owner} ensures Apart(table[i], table[j]) {
      assert table[i] == kids[low + i - min] && table[j] == kids[low + j - min];
    }
  }

  // ---- One slot changes ----

  lemma SlotGrows(owner: PfxNode, r: set<PfxNode>, more: set<PfxNode>, k: PfxNode?, m: Option<Node>)
    requires Slot(owner, r, k, m) && owner !in more
    ensures Slot(owner, r + more, k, m)
  {
  }

  lemma Inserted(owner: PfxNode, r: set<PfxNode>, kids: seq<PfxNode?>, models: seq<Option<Node>>, i: nat, k: PfxNode)
    requires Slots(owner, r, kids, models) && AllApart(owner, r, kids) && owner in r && i < |kids|
    requires k.Valid() && k.repr !! r
    ensures Slots(owner, r + k.repr, kids[i := k], models[i := Some(k.model)]) && AllApart(owner, r + k.repr, kids[i := k])
  {
    var table, all := kids[i := k], r + k.repr;
    forall j | 0 <= j < |kids| ensures Slot(owner, all, table[j], models[i := Some(k.model)][j]) {
      if j != i { SlotGrows(owner, r, k.repr, kids[j], models[j]); }
    }
    forall j, l | 0 <= j < l < |table| && table[j] in all - {owner} && table[l] in all - {owner} ensures Apart(table[j], table[l]) {
      InRepr(owner, r, kids, models, j);
      InRepr(owner, r, kids, models, l);
      if j != i && l != i { assert Apart(kids[j], kids[l]); }
    }
  }

  lemma InRepr(owner: PfxNode, r: set<PfxNode>, kids: seq<PfxNode?>, models: seq<Option<Node>>, j: nat)
    requires Slots(owner, r, kids, models) && j < |kids|
    ensures kids[j] != null ==> kids[j] in r - {owner} && kids[j].repr <= r - {owner} && kids[j] in kids[j].repr
  {
    assert Slot(owner, r, kids[j], models[j]);
  }

  lemma Cleared(owner: PfxNode, r: set<PfxNode>, kids: seq<PfxNode?>, models: seq<Option<Node>>, i: nat)
    requires Slots(owner, r, kids, models) && AllApart(owner, r, kids) && i < |kids|
    ensures Slots(owner, r, kids[i := null], models[i := None]) && AllApart(owner, r, kids[i := null])
  {
    hide Slot, Apart;
    NullSlot(owner, r);
    var table := kids[i := null];
    forall j, l | 0 <= j < l < |table| && table[j] in r - {owner} && table[l] in r - {owner} ensures Apart(table[j], table[l]) {
      assert table[j] == kids[j] && table[l] == kids[l];
    }
  }

  /** All is as it should be but for child `i`, whose subtree lies apart from the rest. */
  ghost predicate SlotsBut(owner: PfxNode, r: set<PfxNode>, kids: seq<PfxNode?>, models: seq<Option<Node>>, i: nat, touched: set<PfxNode>)
    reads r - {owner}
  {
    && |models| == |kids| && owner in r && i < |kids|
    && (forall j :: 0 <= j < |kids| && j != i ==> SlotApart(owner, r, kids[j], models[j], touched))
    && (forall j, l {:trigger Apart(kids[j], kids[l])} :: 0 <= j < l < |kids| && j != i && l != i && kids[j] in r - {owner} && kids[l] in r - {owner} ==>
         Apart(kids[j], kids[l]))
  }

  ghost predicate SlotApart(owner: PfxNode, r: set<PfxNode>, k: PfxNode?, m: Option<Node>, touched: set<PfxNode>)
    reads r - {owner}
  {
    Slot(owner, r, k, m) && (k in r - {owner} ==> k.repr !! touched)
  }

  lemma Detach(owner: PfxNode, r: set<PfxNode>, kids: seq<PfxNode?>, models: seq<Option<Node>>, i: nat)
    requires Slots(owner, r, kids, models) && AllApart(owner, r, kids) && owner in r && i < |kids| && kids[i] != null
    ensures kids[i] in r && SlotsBut(owner, r, kids, models, i, kids[i].repr)
  {
    assert Slot(owner, r, kids[i], models[i]);
    forall j | 0 <= j < |kids| && j != i ensures SlotApart(owner, r, kids[j], models[j], kids[i].repr) {
      assert Slot(owner, r, kids[j], models[j]);
      if kids[j] != null {
        if j < i { assert Apart(kids[j], kids[i]); } else { assert Apart(kids[i], kids[j]); }
      }
    }
  }

  lemma Rejoin(owner: PfxNode, r: set<PfxNode>, kids: seq<PfxNode?>, models: seq<Option<Node>>, i: nat)
    requires i < |kids| && kids[i] != null && kids[i] in kids[i].repr && kids[i].Valid() && owner !in kids[i].repr
    requires SlotsBut(owner, r, kids, models, i, kids[i].repr)
    ensures Slots(owner, r + kids[i].repr, kids, models[i := Some(kids[i].model)])
    ensures AllApart(owner, r + kids[i].repr, kids)
  {
    var k := kids[i];
    var all, news := r + k.repr, models[i := Some(k.model)];
    forall j | 0 <= j < |kids| ensures Slot(owner, all, kids[j], news[j]) {
      if j != i {
        assert SlotApart(owner, r, kids[j], models[j], k.repr);
        SlotGrows(owner, r, k.repr, kids[j], models[j]);
      }
    }
    forall j, l | 0 <= j < l < |kids| && kids[j] in all - {owner} && kids[l] in all - {owner} ensures Apart(kids[j], kids[l]) {
      if j != i { assert SlotApart(owner, r, kids[j], models[j], k.repr); }
      if l != i { assert SlotApart(owner, r, kids[l], models[l], k.repr); }
    }
  }

  class PfxNode {
    var subscribers: Option<map<Subscriber, nat>>
    var min: nat
    var live: nat
    var kids: seq<PfxNode?>

    /** The nodes of the subtree, and the value it stands for. */
    ghost var repr: set<PfxNode>
    ghost var model: Node

    ghost predicate Valid()
      reads this, repr
      decreases repr, 2
    {
      && this in repr && model == Node(subscribers, min, live, model.kids) && |model.kids| == |kids|
      && Slots(this, repr, kids, model.kids) && AllApart(this, repr, kids)
    }

    constructor ()
      ensures Valid() && fresh(repr) && repr == {this} && model == EMPTY
    {
      subscribers, min, live, kids := None, 0, 0, [];
      repr, model := {this}, EMPTY;
    }

    /** Replaces the table by one for another range of characters. */
    method Relocate(low: nat, table: seq<PfxNode?>)
      requires Valid() && Moved(kids, min, table, low)
      modifies this
      ensures Valid() && repr == old(repr) && kids == table && live == old(live) && model == Located(old(model), low, |table|)
    {
      hide Slots, AllApart, Moved;
      SlotsMove(this, repr, kids, model, low, table);
      ApartMoves(this, repr, kids, min, low, table);
      model := Located(model, low, |table|);
      min, kids := low, table;
    }

    method Grow(c: nat)
      requires Valid()
      modifies this
      ensures Valid() && repr == old(repr) && model == Trie.Grow(old(model), c)
    {
      hide Trie.Grow, Located;
      var count := |kids|;
      GrowLocates(model, c);
      if min <= c < min + count { return; }
      if count == 0 {
        Relocate(c, [null]);
      } else if count == 1 {
        var low := if min < c then min else c;
        var n := (if min < c then c - min else min - c) + 1;
        var table := NullTable(n);
        table := table[min - low := kids[0]];
        Relocate(low, table);
      } else if min < c {
        var table := NullTable(c - min + 1 - count);
        Relocate(min, kids + table);
      } else {
        var table := NullTable(min - c);
        Relocate(c, table + kids);
      }
    }

    method AddKid(i: nat, p: bytes, s: Subscriber) returns (first: bool)
      requires Valid() && i < |kids| && kids[i] != null && model.kids[i].Some?
      modifies repr
      ensures Valid() && fresh(repr - old(repr))
      ensures var (k, new') := Trie.Add(old(model).kids[i].value, p, s);
        model == old(model).(kids := old(model).kids[i := Some(k)]) && first == new'
      decreases |p|, 1
    {
      hide Trie.Add;
      Detach(this, repr, kids, model.kids, i);
      assert Slot(this, repr, kids[i], model.kids[i]);
      ghost var touched := kids[i].repr;
      first := kids[i].Add(p, s);
      assert SlotsBut(this, repr, kids, model.kids, i, kids[i].repr);
      Rejoin(this, repr, kids, model.kids, i);
      repr := repr + kids[i].repr;
      model := model.(kids := model.kids[i := Some(kids[i].model)]);
    }

    method Add(p: bytes, s: Subscriber) returns (first: bool)
      requires Valid()
      modifies repr
      ensures Valid() && fresh(repr - old(repr)) && (model, first) == Trie.Add(old(model), p, s)
      decreases |p|, 0
    {
      ghost var t := model;
      if p == [] {
        first := subscribers.None?;
        subscribers := Some(Bump(Contents(subscribers), s));
        model := model.(subscribers := subscribers);
        return;
      }
      Grow(p[0] as nat);
      var i := p[0] as nat - min;
      hide Trie.Grow, Trie.Add;
      AddUnfolds(t, p, s);
      assert Slot(this, repr, kids[i], model.kids[i]);
      if kids[i] == null { NewKid(i); }
      assert Slot(this, repr, kids[i], model.kids[i]);
      first := AddKid(i, p[1..], s);
    }

    method NewKid(i: nat)
      requires Valid() && i < |kids| && kids[i] == null
      modifies this
      ensures Valid() && fresh(repr - old(repr)) && |kids| == |old(kids)| && kids == old(kids)[i := kids[i]] && kids[i] != null
      ensures model == old(model).(live := old(model).live + 1, kids := old(model).kids[i := Some(EMPTY)])
    {
      var k := new PfxNode();
      Inserted(this, repr, kids, model.kids, i, k);
      repr := repr + k.repr;
      kids := kids[i := k];
      live := live + 1;
      model := model.(live := live, kids := model.kids[i := Some(EMPTY)]);
    }

    // ---- Removing ----

    predicate Redundant()
      reads this
    {
      subscribers.None? && live == 0
    }

    lemma RedundantModel()
      requires Valid()
      ensures Redundant() == Trie.Redundant(model)
    {
    }

    /** Takes one reference of `s` off this node. */
    method DropHere(s: Subscriber)
      requires Valid() && ValidSubscribers(subscribers)
      modifies this
      ensures Valid() && repr == old(repr) && kids == old(kids) && subscribers == Pack(Drop(Contents(old(subscribers)), s))
      ensures model == old(model).(subscribers := subscribers)
    {
      if subscribers.Some? {
        var m := subscribers.value;
        if s in m {
          assert m[s] > 0;
          if m[s] - 1 == 0 {
            m := m - {s};
            subscribers := if m == map[] then None else Some(m);
          } else {
            subscribers := Some(m[s := m[s] - 1]);
          }
        }
      }
      model := model.(subscribers := subscribers);
    }

    method RmKid(i: nat, p: bytes, s: Subscriber) returns (last: bool)
      requires Valid() && Trie.Valid(model) && i < |kids| && kids[i] != null && model.kids[i].Some?
      modifies repr
      ensures Valid() && repr == old(repr) && kids == old(kids)
      ensures var (k, ret) := Trie.Rm(old(model).kids[i].value, p, s);
        model == old(model).(kids := old(model).kids[i := Some(k)]) && last == ret
      decreases |p|, 1
    {
      assert Trie.Valid(model.kids[i].value);
      hide Trie.Rm, Trie.Valid;
      Detach(this, repr, kids, model.kids, i);
      assert Slot(this, repr, kids[i], model.kids[i]);
      last := kids[i].Rm(p, s);
      assert SlotsBut(this, repr, kids, model.kids, i, kids[i].repr);
      Rejoin(this, repr, kids, model.kids, i);
      assert repr + kids[i].repr == repr;
      model := model.(kids := model.kids[i := Some(kids[i].model)]);
    }

    method Rm(p: bytes, s: Subscriber) returns (last: bool)
      requires Valid() && Trie.Valid(model)
      modifies repr
      ensures Valid() && repr == old(repr) && (model, last) == Trie.Rm(old(model), p, s)
      decreases |p|, 0
    {
      ghost var t := model;
      if p == [] {
        DropHere(s);
        return subscribers.None?;
      }
      RmUnfolds(t, p, s);
      var c := p[0] as nat;
      if |kids| == 0 || c < min || c >= min + |kids| { return false; }
      var i := c - min;
      assert Slot(this, repr, kids[i], model.kids[i]);
      if kids[i] == null { return false; }
      hide Trie.Rm, Trie.Valid, Trie.Prune;
      last := RmKid(i, p[1..], s);
      assert Slot(this, repr, kids[i], model.kids[i]);
      kids[i].RedundantModel();
      if kids[i].Redundant() {
        PruneKid(i);
      }
    }

    method PruneKid(i: nat)
      requires Valid() && ValidTable(model) && i < |kids| && kids[i] != null && model.kids[i].Some?
      modifies this
      ensures Valid() && repr == old(repr) && model == Trie.Prune(old(model), i)
    {
      hide Trie.Prune, ValidTable, Located, Moved, Slots, AllApart, Covers, FirstLive, LastLive, CountLive;
      PruneOnly(model, i);
      if |kids| == 1 {
        Narrow(0, 0);
        live := live - 1;
        model := model.(live := live);
        return;
      }
      PruneIsCut(model, i);
      KeptCovers(model, i);
      ghost var kept := Kept(model, i);
      ClearSlot(i);
      Compress(i, kept);
    }

    /** Cuts the table down, from whichever side it can, after child `i` was taken out. */
    method Compress(i: nat, ghost kept: (nat, nat))
      requires Valid() && i < |kids| && live > 0 && kept.0 < kept.1 <= |kids|
      requires kept == if live == 1 then (FirstLive(model.kids, 0), FirstLive(model.kids, 0) + 1)
        else (if i == 0 then FirstLive(model.kids, 1) else 0, if i == |kids| - 1 then LastLive(model.kids, |kids| - 1) else |kids|)
      requires |kids| > 1
      modifies this
      ensures Valid() && repr == old(repr) && model == Cut(old(model), kept.0, kept.1)
    {
      hide Slots, AllApart, FirstLive, LastLive;
      if live == 1 {
        var j := FindFirst(0);
        Narrow(j, j + 1);
      } else if i == 0 {
        var j := FindFirst(1);
        Narrow(j, |kids|);
      } else if i == |kids| - 1 {
        var j := FindLast(|kids| - 1);
        Narrow(0, j);
      } else {
        WholeSlice(model.kids);
      }
    }

    /** Cuts the table down. */
    method Narrow(from: nat, to: nat)
      requires Valid() && from <= to <= |kids|
      modifies this
      ensures Valid() && repr == old(repr) && kids == old(kids)[from..to] && live == old(live) && model == Cut(old(model), from, to)
    {
      hide Located, Moved, Slots, AllApart;
      SliceMoves(kids, min, from, to - from);
      LocatedSlice(model, from, to - from);
      Relocate(min + from, kids[from..to]);
    }

    /** Puts NULL in the place of a child. */
    method ClearSlot(i: nat)
      requires Valid() && i < |kids| && live > 0
      modifies this
      ensures Valid() && repr == old(repr) && kids == old(kids)[i := null] && live == old(live) - 1 && min == old(min)
      ensures model == old(model).(live := live, kids := old(model).kids[i := None])
    {
      Cleared(this, repr, kids, model.kids, i);
      kids := kids[i := null];
      live := live - 1;
      model := model.(live := live, kids := model.kids[i := None]);
    }

    lemma SlotSome(i: nat)
      requires Valid() && i < |kids|
      ensures kids[i] == null <==> model.kids[i].None?
    {
      assert Slot(this, repr, kids[i], model.kids[i]);
    }

    /** The first child from slot `i` on. */
    method FindFirst(i: nat) returns (j: nat)
      requires Valid() && i <= |kids|
      ensures j == FirstLive(model.kids, i)
    {
      j := i;
      while j < |kids|
        invariant i <= j <= |kids| && FirstLive(model.kids, i) == FirstLive(model.kids, j)
      {
        SlotSome(j);
        if kids[j] != null { return; }
        j := j + 1;
      }
    }

    /** One past the last child before slot `i`. */
    method FindLast(i: nat) returns (j: nat)
      requires Valid() && i <= |kids|
      ensures j == LastLive(model.kids, i)
    {
      j := i;
      while j > 0
        invariant j <= i && LastLive(model.kids, i) == LastLive(model.kids, j)
      {
        SlotSome(j - 1);
        if kids[j - 1] != null { return; }
        j := j - 1;
      }
    }

    // ---- Removing from all prefixes ----

    method RmAllKid(i: nat, s: Subscriber, buff: bytes) returns (gone: seq<bytes>)
      requires Valid() && i < |kids| && kids[i] != null && model.kids[i].Some? && Trie.Valid(model.kids[i].value)
      modifies repr
      ensures Valid() && repr == old(repr) && kids == old(kids) && kids[i] in repr
      ensures var (k, below) := Trie.RmAll(old(model).kids[i].value, s, buff);
        model == old(model).(kids := old(model).kids[i := Some(k)]) && gone == below && kids[i].Redundant() == Trie.Redundant(k)
      decreases repr, 0
    {
      hide Trie.RmAll, Trie.Valid;
      Detach(this, repr, kids, model.kids, i);
      assert Slot(this, repr, kids[i], model.kids[i]);
      gone := kids[i].RmAll(s, buff);
      assert SlotsBut(this, repr, kids, model.kids, i, kids[i].repr);
      Rejoin(this, repr, kids, model.kids, i);
      assert repr + kids[i].repr == repr;
      kids[i].RedundantModel();
      model := model.(kids := model.kids[i := Some(kids[i].model)]);
    }

    method RmAll(s: Subscriber, buff: bytes) returns (gone: seq<bytes>)
      requires Valid() && Trie.Valid(model)
      modifies repr
      ensures Valid() && repr == old(repr) && (model, gone) == Trie.RmAll(old(model), s, buff)
      decreases repr, 3
    {
      ghost var t := model;
      var had := subscribers.Some?;
      DropHere(s);
      gone := if had && subscribers.None? then [buff] else [];
      if |kids| == 0 { return; }
      if |kids| == 1 {
        var below := RmAllOnly(s, buff, t);
        gone := gone + below;
        return;
      }
      var below, newMin, newMax := Sweep(s, buff, t);
      gone := gone + below;
      CompactTable(newMin, newMax);
    }

    /** One turn of the loop over the table; `t` is the node as it was. */
    method SweepSlot(c: nat, s: Subscriber, buff: bytes, ghost t: Node) returns (gone: seq<bytes>, kept: bool)
      requires Valid() && Trie.Valid(t) && c < |kids| == |t.kids| && min == t.min && model.kids[c] == t.kids[c] && live == CountLive(model.kids)
      modifies repr
      ensures Valid() && repr == old(repr) && |kids| == |old(kids)| && min == old(min) && kids == old(kids)[c := kids[c]]
      ensures live == CountLive(model.kids) && kept == (kids[c] != null)
      ensures model == old(model).(live := live, kids := old(model).kids[c := TrieRemoveAll.NewKid(t, c, s, buff)])
      ensures gone == if t.kids[c].None? then [] else Trie.RmAll(t.kids[c].value, s, buff + [(t.min + c) as byte]).1
      decreases repr, 1
    {
      hide Trie.RmAll, CountLive, Slots, AllApart;
      SlotSome(c);
      if kids[c] == null {
        assert model.kids[c := None] == model.kids;
        return [], false;
      }
      assert Trie.Valid(t.kids[c].value);
      gone := RmAllKid(c, s, buff + [(min + c) as byte]);
      ghost var u := model;
      CountUpdate(old(model).kids, c, u.kids[c]);
      kept := !kids[c].Redundant();
      if !kept {
        LiveChild(u.kids, c);
        CountUpdate(u.kids, c, None);
        ClearSlot(c);
        assert u.kids[c := None] == old(model).kids[c := None];
      }
    }

    /** The single child, which goes if it became redundant. */
    method RmAllOnly(s: Subscriber, buff: bytes, ghost t: Node) returns (gone: seq<bytes>)
      requires Valid() && Trie.Valid(t) && |kids| == 1 && model == t.(subscribers := subscribers)
      modifies repr
      ensures Valid() && repr == old(repr)
      ensures |t.kids| == 1 && var (k, below) := Trie.RmAll(t.kids[0].value, s, buff + [t.min as byte]);
        gone == below && model == if Trie.Redundant(k) then old(model).(kids := [], live := 0) else old(model).(kids := [Some(k)])
      decreases repr, 1
    {
      assert Trie.Valid(t.kids[0].value) && t.live == CountLive(t.kids) && t.kids[1..] == [];
      hide Trie.RmAll, Trie.Valid, Slots, AllApart;
      SlotSome(0);
      gone := RmAllKid(0, s, buff + [min as byte]);
      if kids[0].Redundant() {
        Narrow(0, 0);
        live := live - 1;
        assert live == 0;
        model := model.(live := live);
      }
    }

    /** The least and greatest live slots, as the loop collects them: after `c` slots. */
    predicate Range(c: nat, newMin: nat, newMax: nat)
      reads this
    {
      && c <= |kids| && kids != [] && min <= newMin < min + |kids| && min <= newMax < min + |kids|
      && (newMin == min + |kids| - 1 || (newMin < min + c && kids[newMin - min] != null))
      && (newMax == min || (newMax < min + c && kids[newMax - min] != null))
      && forall j :: 0 <= j < c && kids[j] != null ==> newMin <= min + j <= newMax
    }

    method Sweep(s: Subscriber, buff: bytes, ghost t: Node) returns (gone: seq<bytes>, newMin: nat, newMax: nat)
      requires Valid() && Trie.Valid(t) && |kids| > 1 && model == t.(subscribers := subscribers)
      modifies repr
      ensures Valid() && repr == old(repr) && live == CountLive(model.kids) && kids != [] && Range(|kids|, newMin, newMax)
      ensures model == old(model).(live := live, kids := RmAllFrom(t, 0, s, buff).0) && gone == RmAllFrom(t, 0, s, buff).1
      decreases repr, 2
    {
      hide Trie.RmAll, CountLive, RmAllFrom, Slots, AllApart, TrieRemoveAll.NewKid;
      assert ValidTable(t);
      gone, newMin, newMax := [], min + |kids| - 1, min;
      var c := 0;
      while c < |kids|
        invariant Valid() && repr == old(repr) && c <= |kids| == |t.kids| && min == t.min && live == CountLive(model.kids)
        invariant model == old(model).(live := live, kids := model.kids)
        invariant forall j :: 0 <= j < c ==> model.kids[j] == TrieRemoveAll.NewKid(t, j, s, buff)
        invariant forall j :: c <= j < |kids| ==> model.kids[j] == t.kids[j]
        invariant gone + RmAllFrom(t, c, s, buff).1 == RmAllFrom(t, 0, s, buff).1
        invariant Range(c, newMin, newMax)
        decreases |kids| - c
      {
        var below, kept := SweepSlot(c, s, buff, t);
        FromUnfolds(t, c, s, buff, gone);
        gone := gone + below;
        if kept {
          if min + c < newMin { newMin := min + c; }
          if min + c > newMax { newMax := min + c; }
        }
        c := c + 1;
      }
      SweptKids(t, s, buff, model.kids);
    }

    /** Shrinks the table to its live range. */
    method CompactTable(newMin: nat, newMax: nat)
      requires Valid() && |kids| > 1 && live == CountLive(model.kids) && Range(|kids|, newMin, newMax)
      modifies this
      ensures Valid() && repr == old(repr) && model == Compact(old(model))
    {
      hide Slots, AllApart, CountLive, Range, Compact, FirstLive, LastLive, Covers, Cut;
      if live == 0 {
        CompactEmpty(model);
        Narrow(0, 0);
        return;
      }
      CompactIsCut(model);
      RangeIsLive(newMin, newMax);
      if live == 1 {
        Narrow(newMin - min, newMin - min + 1);
      } else if newMin > min || newMax < min + |kids| - 1 {
        Narrow(newMin - min, newMax - min + 1);
      } else {
        CutWhole(model);
      }
    }

    lemma RangeIsLive(newMin: nat, newMax: nat)
      requires Valid() && live == CountLive(model.kids) && live > 0 && kids != [] && Range(|kids|, newMin, newMax)
      ensures newMin - min == FirstLive(model.kids, 0) && newMax - min + 1 == LastLive(model.kids, |kids|)
      ensures live == 1 ==> newMin == newMax
    {
      hide CountLive, Slots, AllApart, FirstLive, LastLive;
      forall j | 0 <= j < |kids| ensures kids[j] == null <==> model.kids[j].None? { SlotSome(j); }
      LiveRange(model.kids, newMin - min, newMax - min);
    }

    // ---- Matching ----

    /** The child for the next character. */
    method Next(c: byte) returns (k: PfxNode?)
      requires Valid()
      ensures k == null <==> Child(model, c).None?
      ensures k != null ==> k in repr && k.Valid() && k.repr <= repr && k.model == Child(model, c).value
    {
      if c as nat < min || c as nat >= min + |kids| { return null; }
      k := kids[c as nat - min];
      assert Slot(this, repr, k, model.kids[c as nat - min]);
    }

    /** The subscribers signalled for `data`: each once for every prefix it holds. */
    method Match(data: bytes) returns (signals: multiset<Subscriber>)
      requires Valid() && Trie.Valid(model)
      ensures forall s :: signals[s] == TrieRuns.Occurrences(model, data, s, |data|)
    {
      hide Trie.Valid, Subs, Child, Slots, AllApart;
      var current, i := this, 0;
      signals := multiset{};
      assert forall q: bytes :: data[..0] + q == q;
      while true
        invariant 0 <= i <= |data| && current in repr && current.repr <= repr && current.Valid() && Trie.Valid(current.model)
        invariant forall q :: Subs(current.model, q) == Subs(model, data[..i] + q)
        invariant forall s :: signals[s] == if i == 0 then 0 else TrieRuns.Occurrences(model, data, s, i - 1)
        decreases |data| - i
      {
        if current.subscribers.Some? {
          signals := signals + multiset(current.subscribers.value.Keys);
        }
        SubsHere(current.model);
        assert data[..i] + [] == data[..i];
        assert Subs(current.model, []) == Subs(model, data[..i]);
        assert forall s :: signals[s] == TrieRuns.Occurrences(model, data, s, i);
        var k: PfxNode? := null;
        if i < |data| { k := current.Next(data[i]); }
        if k == null {
          forall s ensures signals[s] == TrieRuns.Occurrences(model, data, s, |data|) {
            TrieRuns.NothingBelow(model, current.model, data, i, s, |data|);
          }
          return;
        }
        TrieRuns.StepDown(model, current.model, data, i);
        ChildValid(current.model, data[i]);
        current, i := k, i + 1;
      }
    }

    /** Whether some prefix of `data` is subscribed. */
    method SfMatch(data: bytes) returns (hit: bool)
      requires Valid() && Trie.Valid(model)
      ensures hit <==> exists n :: 0 <= n <= |data| && Held(model, data[..n])
    {
      hide Trie.Valid, Subs, Child, Slots, AllApart;
      var current, i := this, 0;
      assert forall q: bytes :: data[..0] + q == q;
      while true
        invariant 0 <= i <= |data| && current in repr && current.repr <= repr && current.Valid() && Trie.Valid(current.model)
        invariant forall q :: Subs(current.model, q) == Subs(model, data[..i] + q)
        invariant forall n :: 0 <= n < i ==> !Held(model, data[..n])
        decreases |data| - i
      {
        SubsHere(current.model);
        assert data[..i] + [] == data[..i];
        assert Subs(current.model, []) == Subs(model, data[..i]);
        HeldHere(current.model);
        if current.subscribers.Some? {
          assert Held(model, data[..i]);
          return true;
        }
        if i == |data| { return false; }
        var k := current.Next(data[i]);
        if k == null {
          forall n | 0 <= n <= |data| ensures !Held(model, data[..n]) {
            if n > i { NotBelow(model, current.model, data, i, n); }
          }
          return false;
        }
        TrieRuns.StepDown(model, current.model, data, i);
        ChildValid(current.model, data[i]);
        current, i := k, i + 1;
      }
    }
  }

  lemma HeldHere(t: Node)
    requires Trie.Valid(t)
    ensures t.subscribers.Some? <==> Subs(t, []) != map[]
  {
  }

  lemma NotBelow(root: Node, current: Node, data: bytes, i: nat, n: nat)
    requires i < n <= |data| && Child(current, data[i]).None? && forall q :: Subs(current, q) == Subs(root, data[..i] + q)
    ensures !Held(root, data[..n])
  {
    assert data[..i] + data[i..n] == data[..n];
    assert Subs(current, data[i..n]) == map[];
  }

  lemma SubsHere(t: Node)
    ensures Subs(t, []) == Contents(t.subscribers)
  {
  }

  lemma FromUnfolds(t: Node, c: nat, s: Subscriber, buff: bytes, gone: seq<bytes>)
    requires Trie.Valid(t) && c < |t.kids|
    ensures var below := if t.kids[c].None? then [] else Trie.RmAll(t.kids[c].value, s, buff + [(t.min + c) as byte]).1;
      gone + below + RmAllFrom(t, c + 1, s, buff).1 == gone + RmAllFrom(t, c, s, buff).1
  {
    hide Trie.RmAll, Trie.Redundant;
  }

  lemma SweptKids(t: Node, s: Subscriber, buff: bytes, kids: seq<Option<Node>>)
    requires Trie.Valid(t) && |kids| == |t.kids| && forall j :: 0 <= j < |kids| ==> kids[j] == TrieRemoveAll.NewKid(t, j, s, buff)
    ensures kids == RmAllFrom(t, 0, s, buff).0
    ensures RmAllFrom(t, |t.kids|, s, buff).1 == []
  {
    hide TrieRemoveAll.NewKid, Trie.RmAll;
    forall j | 0 <= j < |kids| ensures kids[j] == RmAllFrom(t, 0, s, buff).0[j] {
      LoopKids(t, 0, s, buff, j);
    }
  }

  lemma PruneOnly(t: Node, i: nat)
    requires ValidTable(t) && i < |t.kids| && t.kids[i].Some?
    ensures t.live > 0 && (|t.kids| == 1 ==> Trie.Prune(t, i) == t.(kids := [], live := t.live - 1))
    ensures |t.kids| > 1 ==> t.live > 1
  {
    LiveChild(t.kids, i);
  }

  lemma LocatedSlice(t: Node, j: nat, n: nat)
    requires j + n <= |t.kids|
    ensures Located(t, t.min + j, n) == t.(min := t.min + j, kids := t.kids[j..j + n])
  {
  }

  lemma SliceMoves(kids: seq<PfxNode?>, min: nat, j: nat, n: nat)
    requires j + n <= |kids|
    ensures Moved(kids, min, kids[j..j + n], min + j)
  {
  }

  lemma RmUnfolds(t: Node, p: bytes, s: Subscriber)
    requires Trie.Valid(t) && p != []
    ensures Child(t, p[0]).None? ==> Trie.Rm(t, p, s) == (t, false)
    ensures Child(t, p[0]).Some? ==>
      var i := p[0] as nat - t.min;
      var (k, last) := Trie.Rm(t.kids[i].value, p[1..], s);
      var u := t.(kids := t.kids[i := Some(k)]);
      ValidTable(u) && Trie.Rm(t, p, s) == (if Trie.Redundant(k) then Trie.Prune(u, i) else u, last)
  {
    if Child(t, p[0]).Some? {
      var i := p[0] as nat - t.min;
      var (k, last) := Trie.Rm(t.kids[i].value, p[1..], s);
      CountUpdate(t.kids, i, Some(k));
      PruneAny(t, i, k);
    }
  }

  /** It does not matter what the child was that is pruned. */
  lemma PruneAny(t: Node, i: nat, k: Node)
    requires ValidTable(t) && i < |t.kids| && t.kids[i].Some?
    ensures var u := t.(kids := t.kids[i := Some(k)]); ValidTable(u) && Trie.Prune(u, i) == Trie.Prune(t, i)
  {
    var u := t.(kids := t.kids[i := Some(k)]);
    CountUpdate(t.kids, i, Some(k));
    var kids := t.kids[i := None];
    assert u.kids[i := None] == kids;
    CountUpdate(t.kids, i, None);
    CountNone(kids);
  }

  lemma AddUnfolds(t: Node, p: bytes, s: Subscriber)
    requires p != []
    ensures var g := Trie.Grow(t, p[0] as nat); var i := p[0] as nat - g.min;
      var h := if g.kids[i].Some? then g else g.(live := g.live + 1, kids := g.kids[i := Some(EMPTY)]);
      var (k, first) := Trie.Add(h.kids[i].value, p[1..], s);
      Trie.Add(t, p, s) == (h.(kids := h.kids[i := Some(k)]), first)
  {
    var g := Trie.Grow(t, p[0] as nat);
    var i := p[0] as nat - g.min;
    var k := Trie.Add(if g.kids[i].Some? then g.kids[i].value else EMPTY, p[1..], s).0;
    assert g.kids[i := Some(EMPTY)][i := Some(k)] == g.kids[i := Some(k)];
  }

  function ChildAt(t: Node, c: nat): Option<Node> {
    if t.min <= c < t.min + |t.kids| then t.kids[c - t.min] else None
  }

  /** The table of `t` for `n` characters from `low` on. */
  function Located(t: Node, low: nat, n: nat): (r: Node)
    ensures r == t.(min := low, kids := r.kids)
    ensures |r.kids| == n && forall i :: 0 <= i < n ==> r.kids[i] == ChildAt(t, low + i)
  {
    t.(min := low, kids := seq(n, i requires 0 <= i => ChildAt(t, low + i)))
  }

  lemma GrowLocates(t: Node, c: nat)
    ensures var g := Trie.Grow(t, c); g == if t.min <= c < t.min + |t.kids| then t else Located(t, g.min, |g.kids|)
    ensures var g := Trie.Grow(t, c);
      if t.min <= c < t.min + |t.kids| then g == t
      else if |t.kids| == 0 then g.min == c && |g.kids| == 1
      else if t.min < c then g.min == t.min && |g.kids| == c - t.min + 1
      else g.min == c && |g.kids| == t.min - c + |t.kids|
  {
    var g := Trie.Grow(t, c);
    if !(t.min <= c < t.min + |t.kids|) {
      assert g.kids == Located(t, g.min, |g.kids|).kids;
    }
  }

  lemma NullSlot(owner: PfxNode, r: set<PfxNode>)
    ensures Slot(owner, r, null, None)
  {
  }

  method NullTable(n: nat) returns (t: seq<PfxNode?>)
    ensures |t| == n && forall i :: 0 <= i < n ==> t[i] == null
  {
    t := [];
    while |t| < n
      invariant |t| <= n && forall i :: 0 <= i < |t| ==> t[i] == null
    {
      t := t + [null];
    }
  }

  lemma CompactEmpty(t: Node)
    requires t.live == 0
    ensures Compact(t) == Cut(t, 0, 0)
  {
    assert t.kids[0..0] == [] && t.min + 0 == t.min;
  }

  lemma CutWhole(t: Node)
    ensures Cut(t, 0, |t.kids|) == t
  {
    WholeSlice(t.kids);
  }

  /** Bounds that are met, or never moved, around all children of a table. */
  lemma LiveRange(kids: seq<Option<Node>>, a: nat, b: nat)
    requires CountLive(kids) > 0 && a < |kids| && b < |kids|
    requires (a == |kids| - 1 || kids[a].Some?) && (b == 0 || kids[b].Some?)
    requires forall j :: 0 <= j < |kids| && kids[j].Some? ==> a <= j <= b
    ensures a == FirstLive(kids, 0) && b + 1 == LastLive(kids, |kids|)
    ensures CountLive(kids) == 1 ==> a == b
  {
    hide CountLive, FirstLive, LastLive;
    CountNone(kids);
    var j :| 0 <= j < |kids| && kids[j].Some?;
    var first, last := FirstLive(kids, 0), LastLive(kids, |kids|);
    assert kids[first].Some? && kids[last - 1].Some?;
    if CountLive(kids) == 1 { OneLive(kids); }
  }
}
