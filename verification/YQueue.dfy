/** The lock-free pipe on top of the chunked queue: the pointers are chunk addresses,
    chunks are linked both ways, the one most recently emptied is kept as a spare.
    Memory is explicit, so that a NULL, a freed chunk or a leak can be told. */
module YQueue {
  import opened Options
  import opened UPipe
  import Y = YPipe

  type ChunkId = nat

  /** The values a chunk holds, by slot; slots never written are absent. */
  datatype Chunk<T> = Chunk(values: map<nat, T>, prev: Option<ChunkId>, next: Option<ChunkId>)

  datatype Ptr = Ptr(chunk: ChunkId, pos: nat)

  /** A push that runs off its chunk takes the spare (`Growing`) and links it or a
      new chunk (`Linking`); a pop that empties its chunk then makes it the spare. */
  datatype WriterAt = WIdle | Growing(incomplete: bool) | Linking(taken: Option<ChunkId>, incomplete: bool) | Failed
  datatype ReaderAt = RIdle | Sure | Recycling(emptied: ChunkId)

  /** `n` is the number of slots in a chunk; chunk names at or above `unused` were
      never handed out. */
  datatype State<T> = State(
    n: nat, mem: map<ChunkId, Chunk<T>>, unused: ChunkId,
    begin: Ptr, back: Ptr, end: Ptr, spare: Option<ChunkId>,
    w: Ptr, f: Ptr, r: Option<Ptr>, c: Option<Ptr>,
    wAt: WriterAt, rAt: ReaderAt)

  /** A new pipe: one chunk (two when a chunk is a single slot), with the terminator
      pushed and all pointers on it. */
  function Init<T>(n: nat): State<T>
    requires n > 0
  {
    var p := Ptr(0, 0);
    if n == 1 then
      State(n, map[0 := Chunk(map[], None, Some(1)), 1 := Chunk(map[], Some(0), None)], 2,
            p, p, Ptr(1, 0), None, p, p, Some(p), Some(p), WIdle, RIdle)
    else
      State(n, map[0 := Chunk(map[], None, None)], 1,
            p, p, Ptr(0, 1), None, p, p, Some(p), Some(p), WIdle, RIdle)
  }

  datatype Step<T> =
    | Write(value: T, incomplete: bool)
    | GrowXchg
    | Link
    | Unwrite
    | FlushCas
    | FlushSet
    | Check
    | Pop
    | RecycleXchg

  predicate Enabled<T>(s: State<T>, step: Step<T>) {
    match step
    case GrowXchg => s.wAt.Growing?
    case Link => s.wAt.Linking?
    case FlushSet => s.wAt == Failed
    case Check => s.rAt == RIdle
    case Pop => s.rAt == Sure
    case RecycleXchg => s.rAt.Recycling?
    case _ => s.wAt == WIdle
  }

  // `None` is a NULL or freed chunk followed, or a slot read before it was written.

  function Next<T>(s: State<T>, step: Step<T>): Option<State<T>>
    requires Enabled(s, step)
  {
    match step
    case Write(v, incomplete) => WriteStep(s, v, incomplete)
    case GrowXchg => Some(s.(spare := None, wAt := Linking(s.spare, s.wAt.incomplete)))
    case Link => LinkStep(s)
    case Unwrite => if s.f == s.back then Some(s) else Unpush(s)
    case FlushCas =>
      if s.w == s.f then Some(s)
      else if s.c == Some(s.w) then Some(s.(c := Some(s.f), w := s.f))
      else Some(s.(wAt := Failed))
    case FlushSet => Some(s.(c := Some(s.f), w := s.f, wAt := WIdle))
    case Check =>
      if s.r.Some? && s.r.value != s.begin then Some(s.(rAt := Sure))
      else
        var got := s.c;
        var s := s.(c := if s.c == Some(s.begin) then None else s.c, r := got);
        Some(if got.None? || got.value == s.begin then s else s.(rAt := Sure))
    case Pop => PopStep(s)
    case RecycleXchg =>
      var s' := s.(spare := Some(s.rAt.emptied), rAt := RIdle);
      if s.spare.None? then Some(s')
      else if s.spare.value !in s.mem then None
      else Some(s'.(mem := s.mem - {s.spare.value}))
  }

  function WriteStep<T>(s: State<T>, v: T, incomplete: bool): Option<State<T>> {
    if s.back.chunk !in s.mem then None
    else
      var chunk := s.mem[s.back.chunk];
      var s' := s.(mem := s.mem[s.back.chunk := chunk.(values := chunk.values[s.back.pos := v])],
                   back := s.end, end := s.end.(pos := s.end.pos + 1));
      if s'.end.pos != s.n then Some(s'.(f := if incomplete then s.f else s'.back))
      else Some(s'.(wAt := Growing(incomplete)))
  }

  function LinkStep<T>(s: State<T>): Option<State<T>>
    requires s.wAt.Linking?
  {
    if s.end.chunk !in s.mem || (s.wAt.taken.Some? && s.wAt.taken.value !in s.mem) then None
    else
      var id := if s.wAt.taken.Some? then s.wAt.taken.value else s.unused;
      var chunk := if s.wAt.taken.Some? then s.mem[id] else Chunk(map[], None, None);
      var mem := s.mem[id := chunk.(prev := Some(s.end.chunk))];
      Some(s.(mem := mem[s.end.chunk := mem[s.end.chunk].(next := Some(id))],
              unused := if s.wAt.taken.Some? then s.unused else s.unused + 1,
              end := Ptr(id, 0), f := if s.wAt.incomplete then s.f else s.back, wAt := WIdle))
  }

  function Unpush<T>(s: State<T>): Option<State<T>> {
    if s.back.pos == 0 && (s.back.chunk !in s.mem || s.mem[s.back.chunk].prev.None?) then None
    else if s.n == 0 then None
    else
      var back := if s.back.pos > 0 then s.back.(pos := s.back.pos - 1) else Ptr(s.mem[s.back.chunk].prev.value, s.n - 1);
      if s.end.pos > 0 then Some(s.(back := back, end := s.end.(pos := s.end.pos - 1)))
      else if s.end.chunk !in s.mem || s.mem[s.end.chunk].prev.None? then None
      else
        var last := s.mem[s.end.chunk].prev.value;
        if last !in s.mem || s.mem[last].next.None? || s.mem[last].next.value !in s.mem then None
        else
          var mem := s.mem - {s.mem[last].next.value};
          if last !in mem then None
          else Some(s.(back := back, end := Ptr(last, s.n - 1), mem := mem[last := mem[last].(next := None)]))
  }

  function PopStep<T>(s: State<T>): Option<State<T>> {
    if s.begin.chunk !in s.mem || s.begin.pos !in s.mem[s.begin.chunk].values then None
    else if s.begin.pos + 1 != s.n then Some(s.(begin := s.begin.(pos := s.begin.pos + 1), rAt := RIdle))
    else if s.mem[s.begin.chunk].next.None? || s.mem[s.begin.chunk].next.value !in s.mem then None
    else
      var next := s.mem[s.begin.chunk].next.value;
      Some(s.(mem := s.mem[next := s.mem[next].(prev := None)], begin := Ptr(next, 0), rAt := Recycling(s.begin.chunk)))
  }

  /** The item `front()` refers to. */
  function Front<T>(s: State<T>): Option<T> {
    if s.begin.chunk in s.mem && s.begin.pos in s.mem[s.begin.chunk].values
    then Some(s.mem[s.begin.chunk].values[s.begin.pos]) else None
  }

  // ---- Where a position lives ----

  /** Slot and chunk number of the `p`-th position, walked the way the queue walks. */
  function Slot(n: nat, p: nat): (m: nat)
    requires n > 0
    ensures m < n
  {
    if p == 0 || Slot(n, p - 1) + 1 == n then 0 else Slot(n, p - 1) + 1
  }

  function Nth(n: nat, p: nat): nat
    requires n > 0
  {
    if p == 0 then 0 else if Slot(n, p - 1) + 1 == n then Nth(n, p - 1) + 1 else Nth(n, p - 1)
  }

  /** Positions are laid out in order, so no two share a place. */
  lemma {:induction false} PlacesOrdered(n: nat, p: nat, q: nat)
    requires n > 0 && p <= q
    ensures Nth(n, p) <= Nth(n, q)
    ensures p < q && Nth(n, p) == Nth(n, q) ==> Slot(n, p) < Slot(n, q)
  {
    if p < q {
      PlacesOrdered(n, p, q - 1);
    }
  }

  // ---- The chunk machine against positions ----

  /** The chunk, in the list of live chunks, that holds position `p`. */
  function Idx(n: nat, front: nat, p: nat): int
    requires n > 0
  {
    Nth(n, p) - Nth(n, front)
  }

  predicate Holds(n: nat, front: nat, chunks: seq<ChunkId>, p: nat) {
    n > 0 && front <= p && 0 <= Idx(n, front, p) < |chunks|
  }

  function Place(n: nat, front: nat, chunks: seq<ChunkId>, p: nat): Ptr
    requires Holds(n, front, chunks, p)
  {
    Ptr(chunks[Idx(n, front, p)], Slot(n, p))
  }

  predicate Growth(w: WriterAt) {
    w.Growing? || w.Linking?
  }

  function Bag(id: Option<ChunkId>): multiset<ChunkId> {
    if id.Some? then multiset{id.value} else multiset{}
  }

  /** Chunks in nobody's list: the spare, and those a thread has in its hands. */
  function Loose<T>(k: State<T>): multiset<ChunkId> {
    Bag(k.spare)
    + (if k.wAt.Linking? then Bag(k.wAt.taken) else multiset{})
    + (if k.rAt.Recycling? then multiset{k.rAt.emptied} else multiset{})
  }

  /** Every allocated chunk is in exactly one place, once. */
  ghost predicate Accounted<T>(k: State<T>, chunks: seq<ChunkId>) {
    && multiset(chunks) + Loose(k) == multiset(k.mem.Keys)
    && (forall id :: id in k.mem ==> id < k.unused)
  }

  ghost predicate Linked<T>(mem: map<ChunkId, Chunk<T>>, chunks: seq<ChunkId>) {
    && (forall i :: 0 <= i < |chunks| ==> chunks[i] in mem)
    && (forall i :: 0 <= i < |chunks| - 1 ==>
          mem[chunks[i]].next == Some(chunks[i + 1]) && mem[chunks[i + 1]].prev == Some(chunks[i]))
  }

  ghost predicate StoredAt<T>(k: State<T>, y: Y.State<T>, chunks: seq<ChunkId>, p: nat)
    requires Linked(k.mem, chunks) && p < |y.log|
  {
    && Holds(k.n, y.front, chunks, p)
    && Slot(k.n, p) in k.mem[Place(k.n, y.front, chunks, p).chunk].values
    && k.mem[Place(k.n, y.front, chunks, p).chunk].values[Slot(k.n, p)] == y.log[p].value
  }

  ghost predicate Stored<T>(k: State<T>, y: Y.State<T>, chunks: seq<ChunkId>)
    requires Linked(k.mem, chunks)
  {
    forall p :: y.front <= p < |y.log| ==>
      && Holds(k.n, y.front, chunks, p)
      && Slot(k.n, p) in k.mem[Place(k.n, y.front, chunks, p).chunk].values
      && k.mem[Place(k.n, y.front, chunks, p).chunk].values[Slot(k.n, p)] == y.log[p].value
  }

  /** The three ends of the queue and the list of live chunks between them. */
  ghost predicate Ends<T>(k: State<T>, y: Y.State<T>, chunks: seq<ChunkId>) {
    var back := |y.log|;
    && k.n > 0
    && Holds(k.n, y.front, chunks, y.front) && k.begin == Place(k.n, y.front, chunks, y.front)
    && Holds(k.n, y.front, chunks, back) && k.back == Place(k.n, y.front, chunks, back)
    && (if Growth(k.wAt)
        then Idx(k.n, y.front, back) == |chunks| - 1 && Slot(k.n, back) == k.n - 1 && k.end == Ptr(k.back.chunk, k.n)
        else Idx(k.n, y.front, back + 1) == |chunks| - 1 && k.end == Place(k.n, y.front, chunks, back + 1))
  }

  ghost predicate Points<T>(k: State<T>, y: Y.State<T>, chunks: seq<ChunkId>, ptr: Ptr, p: nat) {
    Holds(k.n, y.front, chunks, p) && ptr == Place(k.n, y.front, chunks, p)
  }

  ghost predicate Pointers<T>(k: State<T>, y: Y.State<T>, chunks: seq<ChunkId>) {
    && Points(k, y, chunks, k.w, y.w)
    && (!(Growth(k.wAt) && !k.wAt.incomplete) ==> Points(k, y, chunks, k.f, y.f))
    && (Growth(k.wAt) && !k.wAt.incomplete ==> y.f == |y.log|)
    && (k.r.Some? <==> y.r.Some?) && (k.r.Some? ==> Points(k, y, chunks, k.r.value, y.r.value))
    && (k.c.Some? <==> y.c.Some?) && (k.c.Some? ==> Points(k, y, chunks, k.c.value, y.c.value))
    && (k.wAt == Failed <==> y.wAt == Y.Failed)
    && (k.rAt == Sure <==> y.rAt == Y.Sure)
  }

  ghost predicate Rel<T>(k: State<T>, y: Y.State<T>, chunks: seq<ChunkId>) {
    Y.Inv(y) && Shape(k, y, chunks) && Pointers(k, y, chunks)
  }

  /** The live positions, the terminator and the slot after it have distinct
      addresses, so comparing pointers is comparing positions. */
  lemma DistinctPlaces<T>(k: State<T>, y: Y.State<T>, chunks: seq<ChunkId>, p: nat, q: nat)
    requires Accounted(k, chunks)
    requires Holds(k.n, y.front, chunks, p) && Holds(k.n, y.front, chunks, q)
    ensures Place(k.n, y.front, chunks, p) == Place(k.n, y.front, chunks, q) <==> p == q
  {
    PlacesOrdered(k.n, if p < q then p else q, if p < q then q else p);
    NoDup(k, chunks);
  }

  lemma NoDup<T>(k: State<T>, chunks: seq<ChunkId>)
    requires Accounted(k, chunks)
    ensures forall i, j :: 0 <= i < j < |chunks| ==> chunks[i] != chunks[j]
  {
    forall i, j | 0 <= i < j < |chunks| ensures chunks[i] != chunks[j] {
      var id := chunks[i];
      assert multiset(k.mem.Keys)[id] <= 1;
      assert multiset(chunks)[id] <= (multiset(chunks) + Loose(k))[id];
      assert chunks == chunks[..j] + chunks[j..];
      assert multiset(chunks)[id] == multiset(chunks[..j])[id] + multiset(chunks[j..])[id];
      assert chunks[..j][i] == id && id in chunks[..j];
      assert chunks[j] in chunks[j..] by { assert chunks[j..][0] == chunks[j]; }
    }
  }

  // ---- Simulation, step by step ----

  ghost predicate Shape<T>(k: State<T>, y: Y.State<T>, chunks: seq<ChunkId>) {
    Linked(k.mem, chunks) && Accounted(k, chunks) && Ends(k, y, chunks) && Stored(k, y, chunks)
  }

  /** Moving the pointers leaves the queue as it is. */
  lemma ShapeKept<T>(k: State<T>, k': State<T>, y: Y.State<T>, y': Y.State<T>, chunks: seq<ChunkId>)
    requires Shape(k, y, chunks)
    requires k' == k.(w := k'.w, f := k'.f, r := k'.r, c := k'.c, wAt := k'.wAt, rAt := k'.rAt)
    requires k'.wAt == k.wAt || (!Growth(k.wAt) && !Growth(k'.wAt))
    requires k'.rAt == k.rAt || (!k.rAt.Recycling? && !k'.rAt.Recycling?)
    requires y'.log == y.log && y'.front == y.front
    ensures Shape(k', y', chunks)
  {
  }

  lemma FlushSimulates<T>(k: State<T>, y: Y.State<T>, chunks: seq<ChunkId>, step: Step<T>, ystep: Y.Step<T>)
    requires Rel(k, y, chunks) && Enabled(k, step)
    requires (step == FlushCas && ystep == Y.FlushCas) || (step == FlushSet && ystep == Y.FlushSet)
    ensures Next(k, step).Some? && Rel(Next(k, step).value, Y.Next(y, ystep), chunks)
  {
    FlushPointers(k, y, chunks, step, ystep);
    var k', y' := Next(k, step).value, Y.Next(y, ystep);
    ShapeKept(k, k', y, y', chunks);
    Y.NextInv(y, ystep);
  }

  lemma FlushPointers<T>(k: State<T>, y: Y.State<T>, chunks: seq<ChunkId>, step: Step<T>, ystep: Y.Step<T>)
    requires Pointers(k, y, chunks) && Accounted(k, chunks) && Enabled(k, step)
    requires (step == FlushCas && ystep == Y.FlushCas) || (step == FlushSet && ystep == Y.FlushSet)
    ensures Next(k, step).Some? && Pointers(Next(k, step).value, Y.Next(y, ystep), chunks)
    ensures Y.Enabled(y, ystep)
    ensures var k' := Next(k, step).value;
      k' == k.(w := k'.w, c := k'.c, wAt := k'.wAt) && !Growth(k.wAt) && !Growth(k'.wAt)
    ensures Y.Next(y, ystep).log == y.log && Y.Next(y, ystep).front == y.front
  {
    DistinctPlaces(k, y, chunks, y.w, y.f);
    if y.c.Some? {
      DistinctPlaces(k, y, chunks, y.c.value, y.w);
    }
  }

  lemma CheckSimulates<T>(k: State<T>, y: Y.State<T>, chunks: seq<ChunkId>)
    requires Rel(k, y, chunks) && Enabled(k, Check)
    ensures Next(k, Check).Some? && Rel(Next(k, Check).value, Y.Next(y, Y.Check), chunks)
  {
    Y.NextInv(y, Y.Check);
    CheckPointers(k, y, chunks);
    hide Next, Pointers, Y.Inv, Shape;
    ShapeKept(k, Next(k, Check).value, y, Y.Next(y, Y.Check), chunks);
  }

  lemma CheckPointers<T>(k: State<T>, y: Y.State<T>, chunks: seq<ChunkId>)
    requires Pointers(k, y, chunks) && Accounted(k, chunks) && Enabled(k, Check)
    requires Holds(k.n, y.front, chunks, y.front) && k.begin == Place(k.n, y.front, chunks, y.front)
    ensures Next(k, Check).Some? && Pointers(Next(k, Check).value, Y.Next(y, Y.Check), chunks)
    ensures var k' := Next(k, Check).value;
      k' == k.(r := k'.r, c := k'.c, rAt := k'.rAt) && !k.rAt.Recycling? && !k'.rAt.Recycling?
  {
    if y.r.Some? {
      DistinctPlaces(k, y, chunks, y.r.value, y.front);
    }
    if y.c.Some? {
      DistinctPlaces(k, y, chunks, y.c.value, y.front);
    }
  }

  lemma GrowSimulates<T>(k: State<T>, y: Y.State<T>, chunks: seq<ChunkId>)
    requires Rel(k, y, chunks) && Enabled(k, GrowXchg)
    ensures Next(k, GrowXchg).Some? && Rel(Next(k, GrowXchg).value, y, chunks)
  {
    var k' := Next(k, GrowXchg).value;
    assert Loose(k') == Loose(k);
  }

  lemma RecycleSimulates<T>(k: State<T>, y: Y.State<T>, chunks: seq<ChunkId>)
    requires Rel(k, y, chunks) && Enabled(k, RecycleXchg)
    ensures Next(k, RecycleXchg).Some? && Rel(Next(k, RecycleXchg).value, y, chunks)
  {
    RecycleAccounted(k, chunks);
    var k' := Next(k, RecycleXchg).value;
    EndsAlike(k, k', y, chunks);
    hide Accounted, Ends, Pointers, Y.Inv, Next;
    OthersStay(k, k', y, chunks);
  }

  lemma RecycleAccounted<T>(k: State<T>, chunks: seq<ChunkId>)
    requires Accounted(k, chunks) && Linked(k.mem, chunks) && Enabled(k, RecycleXchg)
    ensures Next(k, RecycleXchg).Some? && Accounted(Next(k, RecycleXchg).value, chunks)
    ensures var k' := Next(k, RecycleXchg).value;
      && k' == k.(mem := k'.mem, spare := k'.spare, rAt := RIdle)
      && (forall i :: 0 <= i < |chunks| ==> chunks[i] in k'.mem && k'.mem[chunks[i]] == k.mem[chunks[i]])
  {
    if k.spare.Some? {
      assert k.spare.value in multiset(k.mem.Keys);
    }
    var k' := Next(k, RecycleXchg).value;
    if k.spare.Some? {
      SpareFreed(k, k', chunks);
    } else {
      assert Loose(k') == Loose(k);
    }
  }

  lemma EndsAlike<T>(k: State<T>, k': State<T>, y: Y.State<T>, chunks: seq<ChunkId>)
    requires Ends(k, y, chunks) && Pointers(k, y, chunks) && k' == k.(mem := k'.mem, spare := k'.spare, rAt := k'.rAt)
    requires k.rAt != Sure && k'.rAt != Sure
    ensures Ends(k', y, chunks) && Pointers(k', y, chunks)
  {
  }

  lemma OthersStay<T>(k: State<T>, k': State<T>, y: Y.State<T>, chunks: seq<ChunkId>)
    requires Linked(k.mem, chunks) && Stored(k, y, chunks) && k'.n == k.n
    requires forall i :: 0 <= i < |chunks| ==> chunks[i] in k'.mem && k'.mem[chunks[i]] == k.mem[chunks[i]]
    ensures Linked(k'.mem, chunks) && Stored(k', y, chunks)
  {
  }

  lemma SpareFreed<T>(k: State<T>, k': State<T>, chunks: seq<ChunkId>)
    requires Accounted(k, chunks) && k.spare.Some? && k.rAt.Recycling?
    requires k' == k.(spare := Some(k.rAt.emptied), rAt := RIdle, mem := k.mem - {k.spare.value})
    ensures Accounted(k', chunks) && k.spare.value !in chunks
  {
    var id := k.spare.value;
    assert Loose(k) == Loose(k') + multiset{id};
    assert multiset(k.mem.Keys)[id] <= 1 && (multiset(chunks) + Loose(k))[id] >= multiset(chunks)[id] + 1;
    assert multiset(k.mem.Keys) == multiset(k'.mem.Keys) + multiset{id};
    forall x ensures (multiset(chunks) + Loose(k'))[x] == multiset(k'.mem.Keys)[x] {
      assert (multiset(chunks) + Loose(k))[x] == multiset(k.mem.Keys)[x];
    }
  }

  // ---- Push ----

  lemma WriteSimulates<T>(k: State<T>, y: Y.State<T>, chunks: seq<ChunkId>, v: T, incomplete: bool)
    requires Rel(k, y, chunks) && Enabled(k, Write(v, incomplete))
    ensures Next(k, Write(v, incomplete)).Some?
    ensures Rel(Next(k, Write(v, incomplete)).value, Y.Next(y, Y.Write(v, incomplete)), chunks)
  {
    Y.NextInv(y, Y.Write(v, incomplete));
    WriteLinked(k, y, chunks, v, incomplete);
    WriteEnds(k, y, chunks, v, incomplete);
    WritePointers(k, y, chunks, v, incomplete);
    WriteStored(k, y, chunks, v, incomplete);
    WriteAccounted(k, y, chunks, v, incomplete);
  }

  lemma WriteLinked<T>(k: State<T>, y: Y.State<T>, chunks: seq<ChunkId>, v: T, incomplete: bool)
    requires Linked(k.mem, chunks) && Ends(k, y, chunks)
    ensures WriteStep(k, v, incomplete).Some? && Linked(WriteStep(k, v, incomplete).value.mem, chunks)
  {
  }

  lemma WriteEnds<T>(k: State<T>, y: Y.State<T>, chunks: seq<ChunkId>, v: T, incomplete: bool)
    requires Ends(k, y, chunks) && k.wAt == WIdle && WriteStep(k, v, incomplete).Some? && y.front <= |y.log|
    ensures Ends(WriteStep(k, v, incomplete).value, Y.Next(y, Y.Write(v, incomplete)), chunks)
  {
    PlacesOrdered(k.n, y.front, |y.log| + 1);
    var n, back := k.n, |y.log| + 1;
    assert Slot(n, back + 1) == if Slot(n, back) + 1 == n then 0 else Slot(n, back) + 1;
    assert Nth(n, back + 1) == if Slot(n, back) + 1 == n then Nth(n, back) + 1 else Nth(n, back);
  }

  lemma WritePointers<T>(k: State<T>, y: Y.State<T>, chunks: seq<ChunkId>, v: T, incomplete: bool)
    requires Pointers(k, y, chunks) && k.wAt == WIdle && WriteStep(k, v, incomplete).Some? && y.wAt == Y.WIdle
    requires Ends(WriteStep(k, v, incomplete).value, Y.Next(y, Y.Write(v, incomplete)), chunks)
    ensures Pointers(WriteStep(k, v, incomplete).value, Y.Next(y, Y.Write(v, incomplete)), chunks)
  {
  }

  lemma WriteStored<T>(k: State<T>, y: Y.State<T>, chunks: seq<ChunkId>, v: T, incomplete: bool)
    requires Linked(k.mem, chunks) && Accounted(k, chunks) && Ends(k, y, chunks) && Stored(k, y, chunks)
    requires WriteStep(k, v, incomplete).Some? && Linked(WriteStep(k, v, incomplete).value.mem, chunks)
    ensures Stored(WriteStep(k, v, incomplete).value, Y.Next(y, Y.Write(v, incomplete)), chunks)
  {
    var k', y' := WriteStep(k, v, incomplete).value, Y.Next(y, Y.Write(v, incomplete));
    forall p | y'.front <= p < |y'.log|
      ensures Holds(k'.n, y'.front, chunks, p)
      ensures var at := Place(k'.n, y'.front, chunks, p);
        at.pos in k'.mem[at.chunk].values && k'.mem[at.chunk].values[at.pos] == y'.log[p].value
    {
      assert p < |y.log| ==> Holds(k.n, y.front, chunks, p);
      WriteStoredAt(k, y, chunks, v, incomplete, p);
    }
  }

  lemma WriteStoredAt<T>(k: State<T>, y: Y.State<T>, chunks: seq<ChunkId>, v: T, incomplete: bool, p: nat)
    requires Linked(k.mem, chunks) && Accounted(k, chunks) && Ends(k, y, chunks)
    requires WriteStep(k, v, incomplete).Some? && Linked(WriteStep(k, v, incomplete).value.mem, chunks)
    requires y.front <= p <= |y.log| && (p < |y.log| ==> StoredAt(k, y, chunks, p))
    ensures StoredAt(WriteStep(k, v, incomplete).value, Y.Next(y, Y.Write(v, incomplete)), chunks, p)
  {
    if p < |y.log| {
      DistinctPlaces(k, y, chunks, p, |y.log|);
    }
  }

  lemma WriteAccounted<T>(k: State<T>, y: Y.State<T>, chunks: seq<ChunkId>, v: T, incomplete: bool)
    requires Accounted(k, chunks) && k.wAt == WIdle && WriteStep(k, v, incomplete).Some?
    ensures Accounted(WriteStep(k, v, incomplete).value, chunks)
  {
    hide Accounted;
    var k' := WriteStep(k, v, incomplete).value;
    assert k'.mem.Keys == k.mem.Keys;
    SameAccount(k, k', chunks);
  }

  lemma SameAccount<T>(k: State<T>, k': State<T>, chunks: seq<ChunkId>)
    requires Accounted(k, chunks) && k'.mem.Keys == k.mem.Keys && k'.unused == k.unused && Loose(k') == Loose(k)
    ensures Accounted(k', chunks)
  {
    hide Loose;
    forall id | id in k'.mem ensures id < k'.unused {
      assert id in k'.mem.Keys;
    }
  }

  /** The chunk that continues the queue: the spare that was taken, or a new one. */
  function Continuation<T>(k: State<T>): ChunkId
    requires k.wAt.Linking?
  {
    if k.wAt.taken.Some? then k.wAt.taken.value else k.unused
  }

  lemma LinkSimulates<T>(k: State<T>, y: Y.State<T>, chunks: seq<ChunkId>)
    requires Rel(k, y, chunks) && Enabled(k, Link)
    ensures Next(k, Link).Some? && Rel(Next(k, Link).value, y, chunks + [Continuation(k)])
  {
    hide Y.Inv;
    LinkAccounted(k, chunks);
    NoDup(k, chunks);
    LinkLinked(k, chunks);
    LinkEnds(k, y, chunks);
    LinkStored(k, y, chunks);
  }

  lemma LinkAccounted<T>(k: State<T>, chunks: seq<ChunkId>)
    requires Accounted(k, chunks) && k.wAt.Linking? && k.end.chunk in k.mem
    ensures LinkStep(k).Some? && Accounted(LinkStep(k).value, chunks + [Continuation(k)])
    ensures Continuation(k) !in chunks
  {
    var id := Continuation(k);
    if k.wAt.taken.Some? {
      assert (multiset(chunks) + Loose(k))[id] >= multiset(chunks)[id] + 1;
      assert multiset(k.mem.Keys)[id] <= 1;
      var k' := LinkStep(k).value;
      assert k'.mem.Keys == k.mem.Keys;
      assert Loose(k) == Loose(k') + multiset{id};
    } else {
      assert id !in k.mem;
      assert id !in multiset(chunks);
      var k' := LinkStep(k).value;
      assert k'.mem.Keys == k.mem.Keys + {id};
      assert multiset(k'.mem.Keys) == multiset(k.mem.Keys) + multiset{id};
      assert Loose(k) == Loose(k');
    }
  }

  lemma LinkLinked<T>(k: State<T>, chunks: seq<ChunkId>)
    requires Linked(k.mem, chunks) && chunks != [] && k.wAt.Linking? && k.end.chunk == chunks[|chunks| - 1]
    requires forall i, j :: 0 <= i < j < |chunks| ==> chunks[i] != chunks[j]
    requires LinkStep(k).Some? && Continuation(k) !in chunks
    ensures Linked(LinkStep(k).value.mem, chunks + [Continuation(k)])
    ensures forall i :: 0 <= i < |chunks| ==> LinkStep(k).value.mem[chunks[i]].values == k.mem[chunks[i]].values
  {
  }

  lemma LinkEnds<T>(k: State<T>, y: Y.State<T>, chunks: seq<ChunkId>)
    requires Ends(k, y, chunks) && Pointers(k, y, chunks) && k.wAt.Linking? && LinkStep(k).Some? && y.front <= |y.log|
    ensures var k' := LinkStep(k).value; var all := chunks + [Continuation(k)];
      Ends(k', y, all) && Pointers(k', y, all)
  {
    PlacesOrdered(k.n, y.front, |y.log|);
    var n, back, all := k.n, |y.log|, chunks + [Continuation(k)];
    assert Slot(n, back + 1) == 0 && Nth(n, back + 1) == Nth(n, back) + 1;
    assert forall i :: 0 <= i < |chunks| ==> all[i] == chunks[i];
  }

  lemma LinkStored<T>(k: State<T>, y: Y.State<T>, chunks: seq<ChunkId>)
    requires Linked(k.mem, chunks) && Stored(k, y, chunks) && k.wAt.Linking? && LinkStep(k).Some?
    requires Linked(LinkStep(k).value.mem, chunks + [Continuation(k)])
    requires forall i :: 0 <= i < |chunks| ==> LinkStep(k).value.mem[chunks[i]].values == k.mem[chunks[i]].values
    ensures Stored(LinkStep(k).value, y, chunks + [Continuation(k)])
  {
    var all := chunks + [Continuation(k)];
    forall p | y.front <= p < |y.log| ensures Holds(k.n, y.front, all, p)
      ensures Place(k.n, y.front, all, p) == Place(k.n, y.front, chunks, p) {
      assert Holds(k.n, y.front, chunks, p);
    }
  }

  // ---- Unpush ----

  /** The chunks that stay when the last position is taken back. */
  function Remaining<T>(k: State<T>, chunks: seq<ChunkId>): seq<ChunkId> {
    if k.f != k.back && k.end.pos == 0 && chunks != [] then chunks[..|chunks| - 1] else chunks
  }

  lemma UnwriteSimulates<T>(k: State<T>, y: Y.State<T>, chunks: seq<ChunkId>)
    requires Rel(k, y, chunks) && Enabled(k, Unwrite)
    ensures Next(k, Unwrite).Some? && Rel(Next(k, Unwrite).value, Y.Next(y, Y.Unwrite), Remaining(k, chunks))
  {
    Y.NextInv(y, Y.Unwrite);
    DistinctPlaces(k, y, chunks, y.f, |y.log|);
    if y.f < |y.log| {
      NoDup(k, chunks);
      UnpushEnds(k, y, chunks);
      UnpushLinked(k, chunks);
      UnpushAccounted(k, chunks);
      UnpushStored(k, y, chunks);
      UnpushPointers(k, y, chunks);
    }
  }

  /** Going back one position crosses into the previous chunk exactly from slot 0. */
  lemma StepBack(n: nat, p: nat)
    requires n > 0 && p > 0
    ensures Slot(n, p) == 0 ==> Slot(n, p - 1) == n - 1 && Nth(n, p - 1) == Nth(n, p) - 1
    ensures Slot(n, p) > 0 ==> Slot(n, p - 1) == Slot(n, p) - 1 && Nth(n, p - 1) == Nth(n, p)
  {
  }

  lemma UnpushEnds<T>(k: State<T>, y: Y.State<T>, chunks: seq<ChunkId>)
    requires Linked(k.mem, chunks) && Ends(k, y, chunks) && k.wAt == WIdle && k.f != k.back && y.front < |y.log|
    requires y.front <= y.f < |y.log|
    requires forall i, j :: 0 <= i < j < |chunks| ==> chunks[i] != chunks[j]
    ensures k.end.pos == 0 ==> |chunks| > 1 && k.end.chunk == chunks[|chunks| - 1]
    ensures Unpush(k).Some? && Ends(Unpush(k).value, Y.Next(y, Y.Unwrite), Remaining(k, chunks))
    ensures Unpush(k).value.mem.Keys == k.mem.Keys - (if k.end.pos == 0 then {chunks[|chunks| - 1]} else {})
    ensures forall id :: id in Unpush(k).value.mem ==> Unpush(k).value.mem[id].values == k.mem[id].values
    ensures Unpush(k).value == k.(back := Unpush(k).value.back, end := Unpush(k).value.end, mem := Unpush(k).value.mem)
  {
    hide Slot, Nth;
    var n, back := k.n, |y.log|;
    StepBack(n, back);
    StepBack(n, back + 1);
    PlacesOrdered(n, y.front, back - 1);
    var i := Idx(n, y.front, back);
    if Slot(n, back) == 0 {
      assert k.mem[chunks[i]].prev == Some(chunks[i - 1]);
    }
    if k.end.pos == 0 {
      var e := |chunks| - 1;
      assert i == e - 1;
      assert k.mem[chunks[e]].prev == Some(chunks[e - 1]) && k.mem[chunks[e - 1]].next == Some(chunks[e]);
    }
  }

  lemma UnpushLinked<T>(k: State<T>, chunks: seq<ChunkId>)
    requires Linked(k.mem, chunks) && chunks != [] && k.f != k.back && Unpush(k).Some?
    requires k.end.pos == 0 ==> |chunks| > 1 && k.end.chunk == chunks[|chunks| - 1]
    requires forall i, j :: 0 <= i < j < |chunks| ==> chunks[i] != chunks[j]
    ensures Linked(Unpush(k).value.mem, Remaining(k, chunks))
  {
    if k.end.pos == 0 {
      var e := |chunks| - 1;
      assert k.mem[chunks[e]].prev == Some(chunks[e - 1]) && k.mem[chunks[e - 1]].next == Some(chunks[e]);
    }
  }

  lemma UnpushAccounted<T>(k: State<T>, chunks: seq<ChunkId>)
    requires Accounted(k, chunks) && chunks != [] && Unpush(k).Some? && k.f != k.back && k.wAt == WIdle
    requires chunks[|chunks| - 1] in k.mem
    requires Unpush(k).value.mem.Keys == k.mem.Keys - (if k.end.pos == 0 then {chunks[|chunks| - 1]} else {})
    requires Unpush(k).value == k.(back := Unpush(k).value.back, end := Unpush(k).value.end, mem := Unpush(k).value.mem)
    ensures Accounted(Unpush(k).value, Remaining(k, chunks))
  {
    var k', left, id := Unpush(k).value, Remaining(k, chunks), chunks[|chunks| - 1];
    assert Loose(k') == Loose(k);
    if k.end.pos == 0 {
      assert chunks == left + [id];
      assert multiset(k.mem.Keys) == multiset(k'.mem.Keys) + multiset{id};
      forall x ensures (multiset(left) + Loose(k'))[x] == multiset(k'.mem.Keys)[x] {
        assert (multiset(chunks) + Loose(k))[x] == multiset(k.mem.Keys)[x];
      }
    }
  }

  lemma UnpushStored<T>(k: State<T>, y: Y.State<T>, chunks: seq<ChunkId>)
    requires Linked(k.mem, chunks) && Stored(k, y, chunks) && chunks != [] && k.f != k.back
    requires y.f < |y.log| && Unpush(k).Some? && Linked(Unpush(k).value.mem, Remaining(k, chunks))
    requires forall id :: id in Unpush(k).value.mem ==> Unpush(k).value.mem[id].values == k.mem[id].values
    requires Ends(Unpush(k).value, Y.Next(y, Y.Unwrite), Remaining(k, chunks)) && Unpush(k).value.n == k.n
    ensures Stored(Unpush(k).value, Y.Next(y, Y.Unwrite), Remaining(k, chunks))
  {
    var y', left := Y.Next(y, Y.Unwrite), Remaining(k, chunks);
    forall p | y.front <= p < |y'.log|
      ensures Holds(k.n, y.front, left, p) && Place(k.n, y.front, left, p) == Place(k.n, y.front, chunks, p)
    {
      PlacesOrdered(k.n, p, |y'.log|);
      assert Holds(k.n, y.front, chunks, p);
    }
  }

  lemma UnpushPointers<T>(k: State<T>, y: Y.State<T>, chunks: seq<ChunkId>)
    requires Pointers(k, y, chunks) && chunks != [] && k.f != k.back && k.wAt == WIdle
    requires Y.Inv(y) && y.f < |y.log| && Unpush(k).Some? && Ends(Unpush(k).value, Y.Next(y, Y.Unwrite), Remaining(k, chunks))
    requires Unpush(k).value == k.(back := Unpush(k).value.back, end := Unpush(k).value.end, mem := Unpush(k).value.mem)
    ensures Pointers(Unpush(k).value, Y.Next(y, Y.Unwrite), Remaining(k, chunks))
  {
    var last := |y.log| - 1;
    PlacesOrdered(k.n, y.w, last);
    PlacesOrdered(k.n, y.f, last);
    if y.r.Some? { PlacesOrdered(k.n, y.r.value, last); }
  }

  // ---- Pop ----

  function Popped<T>(k: State<T>, chunks: seq<ChunkId>): seq<ChunkId> {
    if k.begin.pos + 1 == k.n && chunks != [] then chunks[1..] else chunks
  }

  /** The reader finds in the front slot the value that was written for it. */
  lemma FrontStored<T>(k: State<T>, y: Y.State<T>, chunks: seq<ChunkId>)
    requires Rel(k, y, chunks) && y.front < y.w
    ensures y.front < |y.log| && Front(k) == Some(y.log[y.front].value)
  {
    assert Holds(k.n, y.front, chunks, y.front);
  }

  lemma PopSimulates<T>(k: State<T>, y: Y.State<T>, chunks: seq<ChunkId>)
    requires Rel(k, y, chunks) && Enabled(k, Pop)
    ensures y.front < |y.log| && Front(k) == Some(y.log[y.front].value)
    ensures Next(k, Pop).Some? && Rel(Next(k, Pop).value, Y.Next(y, Y.Pop), Popped(k, chunks))
  {
    FrontStored(k, y, chunks);
    NoDup(k, chunks);
    Y.NextInv(y, Y.Pop);
    PopIsNext(k);
    hide Rel;
    PopRel(k, y, chunks);
  }

  lemma EndsFacts<T>(k: State<T>, y: Y.State<T>, chunks: seq<ChunkId>)
    requires Ends(k, y, chunks)
    ensures k.n > 0 && chunks != [] && k.begin == Ptr(chunks[0], Slot(k.n, y.front))
  {
  }

  lemma PopIsNext<T>(k: State<T>)
    requires Enabled(k, Pop)
    ensures k.rAt == Sure && PopStep(k) == Next(k, Pop)
  {
  }

  lemma PopShape<T>(k: State<T>, y: Y.State<T>, chunks: seq<ChunkId>)
    requires Shape(k, y, chunks) && k.rAt == Sure && y.front < |y.log| && Front(k).Some?
    requires forall i, j :: 0 <= i < j < |chunks| ==> chunks[i] != chunks[j]
    ensures PopStep(k).Some? && Shape(PopStep(k).value, Y.Next(y, Y.Pop), Popped(k, chunks))
  {
    EndsFacts(k, y, chunks);
    hide Stored, Accounted, Linked, Ends, Popped;
    PopLinked(k, y, chunks);
    PopEnds(k, y, chunks);
    PopStored(k, PopStep(k).value, y, chunks);
    PopAccounted(k, chunks);
  }

  lemma PopRel<T>(k: State<T>, y: Y.State<T>, chunks: seq<ChunkId>)
    requires Rel(k, y, chunks) && k.rAt == Sure && y.front < |y.log| && Front(k).Some? && Y.Inv(Y.Next(y, Y.Pop))
    requires forall i, j :: 0 <= i < j < |chunks| ==> chunks[i] != chunks[j]
    ensures PopStep(k).Some? && Rel(PopStep(k).value, Y.Next(y, Y.Pop), Popped(k, chunks))
  {
    EndsFacts(k, y, chunks);
    hide Shape, Pointers, Y.Inv, Popped, PopStep;
    PopShape(k, y, chunks);
    PopPointers(k, y, chunks);
  }

  lemma PopLinked<T>(k: State<T>, y: Y.State<T>, chunks: seq<ChunkId>)
    requires Linked(k.mem, chunks) && Ends(k, y, chunks) && Front(k).Some? && y.front < |y.log|
    requires forall i, j :: 0 <= i < j < |chunks| ==> chunks[i] != chunks[j]
    ensures PopStep(k).Some? && Linked(PopStep(k).value.mem, Popped(k, chunks))
    ensures PopStep(k).value.mem.Keys == k.mem.Keys
    ensures forall id :: id in k.mem ==> PopStep(k).value.mem[id].values == k.mem[id].values
    ensures k.begin.pos + 1 == k.n ==> |chunks| > 1 && PopStep(k).value.begin.chunk == chunks[1]
  {
    PlacesOrdered(k.n, y.front + 1, |y.log|);
    if k.begin.pos + 1 == k.n {
      assert k.mem[chunks[0]].next == Some(chunks[1]);
      var left := chunks[1..];
      assert forall i :: 0 <= i < |left| ==> left[i] == chunks[i + 1];
    }
  }

  /** Dropping the front position moves no other. */
  lemma PopPlace<T>(k: State<T>, y: Y.State<T>, chunks: seq<ChunkId>, p: nat)
    requires chunks != [] && k.n > 0 && k.begin.pos == Slot(k.n, y.front)
    requires p > y.front && Holds(k.n, y.front, chunks, p)
    ensures Holds(k.n, y.front + 1, Popped(k, chunks), p)
    ensures Place(k.n, y.front + 1, Popped(k, chunks), p) == Place(k.n, y.front, chunks, p)
  {
    PlacesOrdered(k.n, y.front + 1, p);
  }

  lemma PopEnds<T>(k: State<T>, y: Y.State<T>, chunks: seq<ChunkId>)
    requires Ends(k, y, chunks) && y.front < |y.log| && PopStep(k).Some?
    requires k.begin.pos + 1 == k.n ==> |chunks| > 1 && PopStep(k).value.begin.chunk == chunks[1]
    ensures Ends(PopStep(k).value, Y.Next(y, Y.Pop), Popped(k, chunks))
  {
    PlacesOrdered(k.n, y.front + 1, |y.log|);
    PopPlace(k, y, chunks, |y.log|);
    if !Growth(k.wAt) {
      PlacesOrdered(k.n, y.front, |y.log| + 1);
      PopPlace(k, y, chunks, |y.log| + 1);
    }
  }

  lemma PopStored<T>(k: State<T>, k': State<T>, y: Y.State<T>, chunks: seq<ChunkId>)
    requires Linked(k.mem, chunks) && Stored(k, y, chunks) && y.front < |y.log|
    requires chunks != [] && k.n > 0 && k.begin.pos == Slot(k.n, y.front)
    requires k'.n == k.n && Linked(k'.mem, Popped(k, chunks))
    requires forall id :: id in k.mem ==> id in k'.mem && k'.mem[id].values == k.mem[id].values
    ensures Stored(k', Y.Next(y, Y.Pop), Popped(k, chunks))
  {
    var y', left := Y.Next(y, Y.Pop), Popped(k, chunks);
    forall p | y'.front <= p < |y'.log|
      ensures Holds(k'.n, y'.front, left, p)
      ensures var at := Place(k'.n, y'.front, left, p);
        at.pos in k'.mem[at.chunk].values && k'.mem[at.chunk].values[at.pos] == y'.log[p].value
    {
      assert Holds(k.n, y.front, chunks, p);
      PopPlace(k, y, chunks, p);
    }
  }

  lemma PopPointers<T>(k: State<T>, y: Y.State<T>, chunks: seq<ChunkId>)
    requires Pointers(k, y, chunks) && Y.Inv(y) && k.rAt == Sure && PopStep(k).Some? && y.front < |y.log|
    requires chunks != [] && k.n > 0 && k.begin.pos == Slot(k.n, y.front)
    ensures Pointers(PopStep(k).value, Y.Next(y, Y.Pop), Popped(k, chunks))
  {
    PopPlace(k, y, chunks, y.w);
    if !(Growth(k.wAt) && !k.wAt.incomplete) {
      PopPlace(k, y, chunks, y.f);
    }
    PopPlace(k, y, chunks, y.r.value);
  }

  lemma PopAccounted<T>(k: State<T>, chunks: seq<ChunkId>)
    requires Accounted(k, chunks) && chunks != [] && k.begin.chunk == chunks[0] && k.rAt == Sure && PopStep(k).Some?
    requires PopStep(k).value.mem.Keys == k.mem.Keys
    ensures Accounted(PopStep(k).value, Popped(k, chunks))
  {
    assert chunks == [chunks[0]] + chunks[1..];
  }

  // ---- Whole runs ----

  /** The step of the position machine that a step on chunks amounts to. */
  function Seen<T>(step: Step<T>): Option<Y.Step<T>> {
    match step
    case Write(v, incomplete) => Some(Y.Write(v, incomplete))
    case Unwrite => Some(Y.Unwrite)
    case FlushCas => Some(Y.FlushCas)
    case FlushSet => Some(Y.FlushSet)
    case Check => Some(Y.Check)
    case Pop => Some(Y.Pop)
    case _ => None
  }

  function After<T>(k: State<T>, step: Step<T>, chunks: seq<ChunkId>): seq<ChunkId>
    requires Enabled(k, step)
  {
    match step
    case Link => chunks + [Continuation(k)]
    case Unwrite => Remaining(k, chunks)
    case Pop => Popped(k, chunks)
    case _ => chunks
  }

  lemma SeenEnabled<T>(k: State<T>, y: Y.State<T>, chunks: seq<ChunkId>, step: Step<T>)
    requires Rel(k, y, chunks) && Enabled(k, step)
    ensures Seen(step).Some? ==> Y.Enabled(y, Seen(step).value)
  {
  }

  /** No step follows a NULL or a freed chunk, and what it does to the contents is
      what the position machine does. */
  lemma Simulates<T>(k: State<T>, y: Y.State<T>, chunks: seq<ChunkId>, step: Step<T>)
    requires Rel(k, y, chunks) && Enabled(k, step)
    ensures Seen(step).Some? ==> Y.Enabled(y, Seen(step).value)
    ensures Next(k, step).Some?
    ensures Rel(Next(k, step).value, if Seen(step).Some? then Y.Next(y, Seen(step).value) else y, After(k, step, chunks))
    ensures step == Pop ==> y.front < |y.log| && Front(k) == Some(y.log[y.front].value)
  {
    hide Rel, WriteStep, LinkStep, Unpush, PopStep, Y.Enabled, Y.Next;
    SeenEnabled(k, y, chunks, step);
    match step {
      case Write(v, incomplete) => WriteSimulates(k, y, chunks, v, incomplete);
      case GrowXchg => GrowSimulates(k, y, chunks);
      case Link => LinkSimulates(k, y, chunks);
      case Unwrite => UnwriteSimulates(k, y, chunks);
      case FlushCas => FlushSimulates(k, y, chunks, step, Y.FlushCas);
      case FlushSet => FlushSimulates(k, y, chunks, step, Y.FlushSet);
      case Check => CheckSimulates(k, y, chunks);
      case Pop => PopSimulates(k, y, chunks);
      case RecycleXchg => RecycleSimulates(k, y, chunks);
    }
  }

  lemma InitRel<T>(n: nat)
    requires n > 0
    ensures Rel(Init<T>(n), Y.Init<T>(), if n == 1 then [0, 1] else [0])
  {
    hide Accounted, Ends, Pointers, Rel, Linked;
    InitAccounted(Init<T>(n), n);
    InitEnds(Init<T>(n), Y.Init<T>(), n);
    Y.InitInv<T>();
    NewRel(Init<T>(n), Y.Init<T>(), if n == 1 then [0, 1] else [0]);
  }

  lemma NewRel<T>(k: State<T>, y: Y.State<T>, chunks: seq<ChunkId>)
    requires Linked(k.mem, chunks) && Accounted(k, chunks) && Ends(k, y, chunks) && Pointers(k, y, chunks) && Y.Inv(y)
    requires y.front == |y.log|
    ensures Rel(k, y, chunks)
  {
    hide Accounted, Ends, Pointers, Y.Inv;
  }

  lemma InitAccounted<T>(k: State<T>, n: nat)
    requires n > 0 && k == Init(n)
    ensures Accounted(k, if n == 1 then [0, 1] else [0]) && Linked(k.mem, if n == 1 then [0, 1] else [0])
  {
    assert k.mem.Keys == if n == 1 then {0, 1} else {0};
    assert Loose(k) == multiset{};
  }

  lemma InitEnds<T>(k: State<T>, y: Y.State<T>, n: nat)
    requires n > 0 && k == Init(n) && y == Y.Init()
    ensures Ends(k, y, if n == 1 then [0, 1] else [0]) && Pointers(k, y, if n == 1 then [0, 1] else [0])
  {
    assert Slot(n, 0) == 0 && Nth(n, 0) == 0;
    assert Slot(n, 1) == (if n == 1 then 0 else 1) && Nth(n, 1) == (if n == 1 then 1 else 0);
  }

  /** Runs the enabled steps and collects the items read through `front()`. */
  function Run<T>(k: State<T>, steps: seq<Step<T>>): Option<(State<T>, seq<T>)>
    decreases |steps|
  {
    if steps == [] then Some((k, []))
    else if !Enabled(k, steps[0]) then Run(k, steps[1..])
    else
      match Next(k, steps[0])
      case None => None
      case Some(k') =>
        match Run(k', steps[1..])
        case None => None
        case Some((end, got)) =>
          Some((end, (if steps[0] == Pop && Front(k).Some? then [Front(k).value] else []) + got))
  }

  /** The steps of the position machine behind a run on chunks. */
  function Shadow<T>(k: State<T>, steps: seq<Step<T>>): seq<Y.Step<T>>
    decreases |steps|
  {
    if steps == [] then []
    else if !Enabled(k, steps[0]) then Shadow(k, steps[1..])
    else
      match Next(k, steps[0])
      case None => []
      case Some(k') => (if Seen(steps[0]).Some? then [Seen(steps[0]).value] else []) + Shadow(k', steps[1..])
  }

  function ValuesOf<T>(items: seq<Y.Item<T>>): seq<T> {
    if items == [] then [] else [items[0].value] + ValuesOf(items[1..])
  }

  lemma ShadowRun<T>(y: Y.State<T>, seen: Option<Y.Step<T>>, rest: seq<Y.Step<T>>)
    requires seen.Some? ==> Y.Enabled(y, seen.value)
    ensures var all := (if seen.Some? then [seen.value] else []) + rest;
      Y.Run(y, all) ==
        if seen.None? then Y.Run(y, rest)
        else var (t, got) := Y.Run(Y.Next(y, seen.value), rest);
          (t, (if seen.value.Pop? then [y.log[y.front]] else []) + got)
  {
    if seen.Some? {
      assert ([seen.value] + rest)[1..] == rest;
    } else {
      assert [] + rest == rest;
    }
  }

  /** Every interleaving on chunks is an interleaving on positions with the same
      items read: the spare chunk's reuse is invisible, nothing leaks, and at every
      moment each allocated chunk has exactly one owner. */
  lemma {:induction false} ChunksAreInvisible<T>(k: State<T>, y: Y.State<T>, chunks: seq<ChunkId>, steps: seq<Step<T>>)
    returns (left: seq<ChunkId>)
    requires Rel(k, y, chunks)
    ensures Run(k, steps).Some?
    ensures Rel(Run(k, steps).value.0, Y.Run(y, Shadow(k, steps)).0, left)
    ensures Run(k, steps).value.1 == ValuesOf(Y.Run(y, Shadow(k, steps)).1)
    decreases |steps|
  {
    hide Rel, Next, After, Enabled, Y.Next, Y.Enabled;
    if steps == [] {
      left := chunks;
    } else if !Enabled(k, steps[0]) {
      left := ChunksAreInvisible(k, y, chunks, steps[1..]);
    } else {
      Simulates(k, y, chunks, steps[0]);
      var k', seen := Next(k, steps[0]).value, Seen(steps[0]);
      var y' := if seen.Some? then Y.Next(y, seen.value) else y;
      left := ChunksAreInvisible(k', y', After(k, steps[0], chunks), steps[1..]);
      ReadsAgree(k, y, y', steps);
    }
  }

  lemma ReadsAgree<T>(k: State<T>, y: Y.State<T>, y': Y.State<T>, steps: seq<Step<T>>)
    requires steps != [] && Enabled(k, steps[0]) && Next(k, steps[0]).Some?
    requires Seen(steps[0]).Some? ==> Y.Enabled(y, Seen(steps[0]).value)
    requires y' == if Seen(steps[0]).Some? then Y.Next(y, Seen(steps[0]).value) else y
    requires steps[0] == Pop ==> y.front < |y.log| && Front(k) == Some(y.log[y.front].value)
    requires var k' := Next(k, steps[0]).value;
      Run(k', steps[1..]).Some? && Run(k', steps[1..]).value.1 == ValuesOf(Y.Run(y', Shadow(k', steps[1..])).1)
    ensures var k' := Next(k, steps[0]).value;
      && Run(k, steps).Some? && Run(k, steps).value.0 == Run(k', steps[1..]).value.0
      && Y.Run(y, Shadow(k, steps)).0 == Y.Run(y', Shadow(k', steps[1..])).0
    ensures Run(k, steps).value.1 == ValuesOf(Y.Run(y, Shadow(k, steps)).1)
  {
    hide Next, Enabled, Y.Next, Y.Enabled;
    var rest := Shadow(Next(k, steps[0]).value, steps[1..]);
    ShadowRun(y, Seen(steps[0]), rest);
    var got := Y.Run(y', rest).1;
    if steps[0] == Pop {
      ValuesCons(y.log[y.front], got);
    } else {
      assert [] + got == got;
    }
  }

  lemma ValuesCons<T>(x: Y.Item<T>, got: seq<Y.Item<T>>)
    ensures ValuesOf([x] + got) == [x.value] + ValuesOf(got)
  {
    assert ([x] + got)[1..] == got;
  }

  /** From a new queue with chunks of any size on, in every interleaving: no NULL or freed
      chunk is followed, and the items read are those the position machine reads. */
  lemma EveryQueue<T>(n: nat, steps: seq<Step<T>>)
    requires n > 0
    ensures Run(Init<T>(n), steps).Some?
    ensures Run(Init<T>(n), steps).value.1 == ValuesOf(Y.Run(Y.Init<T>(), Shadow(Init<T>(n), steps)).1)
  {
    hide Rel, Next;
    InitRel<T>(n);
    var left := ChunksAreInvisible(Init<T>(n), Y.Init<T>(), if n == 1 then [0, 1] else [0], steps);
  }
}
