/** The lock-free pipe as interleaved steps of one writer and one reader. Positions
    are natural numbers here; module YQueue replaces them by chunk addresses. Each
    compare-and-swap, each plain store to the shared word and each call that stays
    within one thread is a step of its own. */
module YPipe {
  import opened Options
  import opened UPipe

  datatype Item<T> = Item(value: T, incomplete: bool)

  /** `Failed`: the writer's compare-and-swap found NULL, its store is still to come.
      `Sure`: the reader's check succeeded, its pop is still to come. */
  datatype WriterAt = WIdle | Failed
  datatype ReaderAt = RIdle | Sure

  /** `log` holds every item written and not taken back; its length is the position
      of the terminator. `front` counts the items popped. */
  datatype State<T> = State(
    log: seq<Item<T>>, front: nat,
    w: nat, f: nat, r: Option<nat>, c: Option<nat>,
    wAt: WriterAt, rAt: ReaderAt)

  function Init<T>(): State<T> {
    State([], 0, 0, 0, Some(0), Some(0), WIdle, RIdle)
  }

  datatype Step<T> =
    | Write(value: T, incomplete: bool)
    | Unwrite
    | FlushCas
    | FlushSet
    | Check
    | Pop

  predicate Enabled<T>(s: State<T>, step: Step<T>) {
    match step
    case FlushSet => s.wAt == Failed
    case Check => s.rAt == RIdle
    case Pop => s.rAt == Sure && s.front < |s.log|
    case _ => s.wAt == WIdle
  }

  function Next<T>(s: State<T>, step: Step<T>): State<T>
    requires step.Pop? ==> s.front < |s.log|
  {
    match step
    case Write(v, incomplete) =>
      var log := s.log + [Item(v, incomplete)];
      s.(log := log, f := if incomplete then s.f else |log|)
    case Unwrite => if s.f >= |s.log| then s else s.(log := s.log[..|s.log| - 1])
    case FlushCas =>
      if s.w == s.f then s
      else if s.c == Some(s.w) then s.(c := Some(s.f), w := s.f)
      else s.(wAt := Failed)
    case FlushSet => s.(c := Some(s.f), w := s.f, wAt := WIdle)
    case Check =>
      if s.r.Some? && s.r.value != s.front then s.(rAt := Sure)
      else
        var got := s.c;
        var s := s.(c := if s.c == Some(s.front) then None else s.c, r := got);
        if got.None? || got.value == s.front then s else s.(rAt := Sure)
    case Pop => s.(front := s.front + 1, rAt := RIdle)
  }

  // ---- What every step keeps ----

  /** Position `n` lies between messages. */
  predicate Boundary<T>(log: seq<Item<T>>, n: nat) {
    n <= |log| && (n == 0 || !log[n - 1].incomplete)
  }

  ghost predicate Inv<T>(s: State<T>) {
    && s.front <= s.w <= s.f <= |s.log|
    && Boundary(s.log, s.w) && Boundary(s.log, s.f)
    && (forall i :: s.f <= i < |s.log| ==> s.log[i].incomplete)
    && (s.r.Some? ==> s.front <= s.r.value <= s.w && Boundary(s.log, s.r.value))
    && (s.c.Some? ==> s.c.value == s.w)
    && (s.c.None? ==> s.front == s.w)
    && (s.wAt == Failed ==> s.c.None? && s.w < s.f)
    && (s.rAt == Sure ==> s.r.Some? && s.front < s.r.value)
  }

  lemma NextInv<T>(s: State<T>, step: Step<T>)
    requires Inv(s) && Enabled(s, step)
    ensures Inv(Next(s, step))
  {
  }

  // ---- The step machine is the atomic queue ----

  function Abs<T>(s: State<T>): Queue<Item<T>>
    requires Inv(s)
  {
    Queue(s.log[s.front..s.w], s.log[s.w..s.f], s.log[s.f..], s.c.None?)
  }

  /** A failed compare-and-swap is not yet a flush; the store after it is. */
  predicate CasFails<T>(s: State<T>) {
    s.w != s.f && s.c != Some(s.w)
  }

  /** What the atomic queue does at the same moment. */
  function Effect<T>(q: Queue<Item<T>>, s: State<T>, step: Step<T>): Queue<Item<T>> {
    match step
    case Write(v, incomplete) => q.Write(Item(v, incomplete), incomplete)
    case Unwrite => if q.partial == [] then q else q.Unwrite()
    case FlushCas => if CasFails(s) then q else q.Flush().0
    case FlushSet => q.Flush().0
    case Check => q.CheckRead().0
    case Pop => if q.flushed == [] then q else q.Pop()
  }

  lemma AppendSlices<A>(s: seq<A>, x: A, i: nat, j: nat, k: nat)
    requires i <= j <= k <= |s|
    ensures (s + [x])[i..j] == s[i..j] && (s + [x])[j..k] == s[j..k] && (s + [x])[k..] == s[k..] + [x]
    ensures (s + [x])[j..|s| + 1] == s[j..k] + s[k..] + [x] && (s + [x])[|s| + 1..] == []
  {
  }

  lemma WriteRefines<T>(s: State<T>, v: T, incomplete: bool)
    requires Inv(s) && Inv(Next(s, Write(v, incomplete)))
    ensures Abs(Next(s, Write(v, incomplete))) == Abs(s).Write(Item(v, incomplete), incomplete)
  {
    AppendSlices(s.log, Item(v, incomplete), s.front, s.w, s.f);
  }

  lemma DropSlices<A>(s: seq<A>, i: nat, j: nat, k: nat)
    requires i <= j <= k < |s|
    ensures var u := s[..|s| - 1];
      u[i..j] == s[i..j] && u[j..k] == s[j..k] && u[k..] == s[k..][..|s| - k - 1]
  {
  }

  lemma UnwriteRefines<T>(s: State<T>)
    requires Inv(s) && s.f < |s.log| && Inv(Next(s, Unwrite))
    ensures Abs(s).partial != [] && Abs(Next(s, Unwrite)) == Abs(s).Unwrite()
  {
    DropSlices(s.log, s.front, s.w, s.f);
  }

  lemma WriterRefines<T>(s: State<T>, step: Step<T>)
    requires Inv(s) && Enabled(s, step) && (step.Write? || step == Unwrite) && Inv(Next(s, step))
    ensures Abs(Next(s, step)) == Effect(Abs(s), s, step)
    ensures step == Unwrite ==> (s.f < |s.log| <==> Abs(s).partial != [])
  {
    if step.Write? {
      WriteRefines(s, step.value, step.incomplete);
    } else if s.f < |s.log| {
      UnwriteRefines(s);
    }
  }

  lemma FlushRefines<T>(s: State<T>, step: Step<T>)
    requires Inv(s) && Enabled(s, step) && (step == FlushCas || step == FlushSet) && Inv(Next(s, step))
    ensures Abs(Next(s, step)) == Effect(Abs(s), s, step)
    ensures step == FlushSet ==> !Abs(s).Flush().1
    ensures step == FlushCas && !CasFails(s) ==> Abs(s).Flush().1
  {
    var t := Next(s, step);
    if step == FlushSet || !CasFails(s) {
      assert t.log[t.front..t.w] == s.log[s.front..s.w] + s.log[s.w..s.f];
      assert s.w == s.f || Abs(s).ready != [];
    }
  }

  lemma ReaderRefines<T>(s: State<T>, step: Step<T>)
    requires Inv(s) && Enabled(s, step) && (step == Check || step == Pop) && Inv(Next(s, step))
    ensures Abs(Next(s, step)) == Effect(Abs(s), s, step)
    ensures step == Check ==> (Next(s, step).rAt == Sure <==> Abs(s).CheckRead().1)
    ensures step == Pop ==> Abs(s).flushed != [] && Abs(s).flushed[0] == s.log[s.front]
  {
    var t := Next(s, step);
    if step == Pop {
      assert t.log[t.front..t.w] == s.log[s.front..s.w][1..];
    } else {
      assert s.front < s.w <==> Abs(s).flushed != [];
    }
  }

  /** Step by step the pointer machine does to its contents what the atomic queue
      does, and answers alike: `flush` is false exactly at the plain store, `check`
      is true exactly when something is flushed, `pop` returns the oldest item. */
  lemma Refines<T>(s: State<T>, step: Step<T>)
    requires Inv(s) && Enabled(s, step)
    ensures Inv(Next(s, step)) && Abs(Next(s, step)) == Effect(Abs(s), s, step)
    ensures step == FlushSet ==> !Abs(s).Flush().1
    ensures step == FlushCas && !CasFails(s) ==> Abs(s).Flush().1
    ensures step == Unwrite ==> (s.f < |s.log| <==> Abs(s).partial != [])
    ensures step == Check ==> (Next(s, step).rAt == Sure <==> Abs(s).CheckRead().1)
    ensures step == Pop ==> Abs(s).flushed != [] && Abs(s).flushed[0] == s.log[s.front]
  {
    NextInv(s, step);
    match step {
      case FlushCas => FlushRefines(s, step);
      case FlushSet => FlushRefines(s, step);
      case Check => ReaderRefines(s, step);
      case Pop => ReaderRefines(s, step);
      case _ => WriterRefines(s, step);
    }
  }

  // ---- Whole runs ----

  /** Runs the steps that are enabled and collects the items popped. */
  function Run<T>(s: State<T>, steps: seq<Step<T>>): (State<T>, seq<Item<T>>)
    decreases |steps|
  {
    if steps == [] then (s, [])
    else if !Enabled(s, steps[0]) then Run(s, steps[1..])
    else
      var (t, got) := Run(Next(s, steps[0]), steps[1..]);
      (t, (if steps[0].Pop? then [s.log[s.front]] else []) + got)
  }

  lemma StepStable<T>(s: State<T>, step: Step<T>)
    requires Inv(s) && Enabled(s, step)
    ensures var u := Next(s, step);
      && Inv(u) && s.w <= u.w <= |u.log| && u.log[..s.w] == s.log[..s.w]
      && u.front == s.front + (if step.Pop? then 1 else 0)
      && (step.Pop? ==> s.front < s.w)
  {
    NextInv(s, step);
  }

  lemma InBounds<T>(s: State<T>)
    requires Inv(s)
    ensures s.front <= s.w <= |s.log|
  {
  }

  lemma Stitch<A>(a: seq<A>, b: seq<A>, c: seq<A>, i: nat, j: nat, from: nat, to: nat)
    requires i <= |a| && i <= j <= |b| && j <= |c| && b[..i] == a[..i] && c[..j] == b[..j] && to <= |c|
    ensures c[..i] == a[..i]
    ensures from < i && from < to ==> c[from..to] == [a[from]] + c[from + 1..to]
  {
    assert c[..i] == c[..j][..i] && b[..i] == b[..j][..i];
    if from < i && from < to {
      assert c[..i][from] == a[..i][from];
    }
  }

  /** In every interleaving the reader gets, in order, exactly the items from where
      it stood; what has been flushed is never taken back or changed; and what the
      reader has got ends within the flushed items. */
  lemma {:induction false} LinearFifo<T>(s: State<T>, steps: seq<Step<T>>)
    requires Inv(s)
    ensures var (t, got) := Run(s, steps);
      && Inv(t) && s.front <= t.front <= t.w && s.w <= t.w
      && t.log[..s.w] == s.log[..s.w]
      && got == t.log[s.front..t.front]
    decreases |steps|
  {
    hide Inv, Next;
    InBounds(s);
    if steps != [] {
      if Enabled(s, steps[0]) {
        StepStable(s, steps[0]);
        var u := Next(s, steps[0]);
        LinearFifo(u, steps[1..]);
        InBounds(Run(u, steps[1..]).0);
        Stitch(s.log, u.log, Run(u, steps[1..]).0.log, s.w, u.w, s.front, Run(u, steps[1..]).0.front);
      } else {
        LinearFifo(s, steps[1..]);
      }
    }
  }

  /** A reader never sees half a message: whatever it may still pop without asking
      again ends with a complete item, as does everything flushed. */
  lemma NoHalfMessage<T>(s: State<T>)
    requires Inv(s)
    ensures s.r.Some? && s.front < s.r.value ==> !s.log[s.r.value - 1].incomplete
    ensures s.front < s.w ==> !s.log[s.w - 1].incomplete
    ensures s.rAt == Sure ==> s.front < s.w
  {
  }

  lemma InitInv<T>()
    ensures Inv(Init<T>())
  {
  }

  /** From a new pipe on, in every interleaving: the items read are the first of those
      flushed, and those end with a complete one. */
  lemma EveryRead<T>(steps: seq<Step<T>>)
    ensures var (t, got) := Run(Init<T>(), steps);
      && t.front <= t.w <= |t.log| && got == t.log[..t.front] && (t.w > 0 ==> !t.log[t.w - 1].incomplete)
      && (t.c.None? ==> t.front == t.w) && (t.r.Some? ==> t.front <= t.r.value <= t.w)
  {
    InitInv<T>();
    LinearFifo(Init<T>(), steps);
  }
}
