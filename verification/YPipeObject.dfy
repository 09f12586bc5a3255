/** The lock-free pipe as an object whose calls are not interleaved: each does to the
    pointers what the program does, and to the contents what the atomic queue does. */
module YPipeObject {
  import opened Options
  import opened UPipe
  import Y = YPipe

  function Values<T>(s: seq<Y.Item<T>>): seq<T> {
    seq(|s|, i requires 0 <= i < |s| => s[i].value)
  }

  lemma ValuesLast<T>(s: seq<Y.Item<T>>, x: Y.Item<T>)
    ensures Values(s + [x]) == Values(s) + [x.value]
  {
  }

  lemma ValuesConcat<T>(s: seq<Y.Item<T>>, t: seq<Y.Item<T>>)
    ensures Values(s + t) == Values(s) + Values(t)
  {
  }

  lemma ValuesSlice<T>(s: seq<Y.Item<T>>, i: nat, j: nat)
    requires i <= j <= |s|
    ensures Values(s[i..j]) == Values(s)[i..j]
  {
  }

  /** The contents of the pointer machine as an atomic queue. */
  ghost function Contents<T>(s: Y.State<T>): Queue<T>
    requires Y.Inv(s)
  {
    var q := Y.Abs(s);
    Queue(Values(q.flushed), Values(q.ready), Values(q.partial), q.asleep)
  }

  lemma WriteContents<T>(s: Y.State<T>, v: T, incomplete: bool)
    requires Y.Inv(s) && s.wAt == Y.WIdle
    ensures var t := Y.Next(s, Y.Write(v, incomplete)); Y.Inv(t) && Contents(t) == Contents(s).Write(v, incomplete)
  {
    hide Y.Inv, Y.Abs, Values;
    Y.Refines(s, Y.Write(v, incomplete));
    var q := Y.Abs(s);
    ValuesLast(q.partial, Y.Item(v, incomplete));
    ValuesConcat(q.ready, q.partial);
    ValuesLast(q.ready + q.partial, Y.Item(v, incomplete));
    NoValues<T>();
  }

  lemma NoValues<T>()
    ensures Values<T>([]) == []
  {
  }

  lemma UnwriteContents<T>(s: Y.State<T>)
    requires Y.Inv(s) && s.wAt == Y.WIdle
    ensures var t, q := Y.Next(s, Y.Unwrite), Contents(s);
      && Y.Inv(t) && (s.f < |s.log| <==> q.partial != [])
      && (s.f < |s.log| ==> Contents(t) == q.Unwrite() && q.partial[|q.partial| - 1] == s.log[|s.log| - 1].value)
  {
    Y.Refines(s, Y.Unwrite);
    if s.f < |s.log| {
      var p := Y.Abs(s).partial;
      assert p[|p| - 1] == s.log[|s.log| - 1];
      hide Y.Inv, Y.Abs;
      ValuesSlice(p, 0, |p| - 1);
    }
  }

  lemma FlushContents<T>(s: Y.State<T>, step: Y.Step<T>)
    requires Y.Inv(s) && (if step == Y.FlushSet then s.wAt == Y.Failed else step == Y.FlushCas && s.wAt == Y.WIdle && !Y.CasFails(s))
    ensures var t := Y.Next(s, step); Y.Inv(t) && (Contents(t), step == Y.FlushCas) == Contents(s).Flush()
  {
    Y.Refines(s, step);
    var q := Y.Abs(s);
    hide Y.Inv, Y.Abs;
    ValuesConcat(q.flushed, q.ready);
    NoValues<T>();
    assert |Values(q.ready)| == |q.ready|;
  }

  lemma CheckContents<T>(s: Y.State<T>)
    requires Y.Inv(s) && s.rAt == Y.RIdle
    ensures var t := Y.Next(s, Y.Check); Y.Inv(t) && (Contents(t), t.rAt == Y.Sure) == Contents(s).CheckRead()
  {
    Y.Refines(s, Y.Check);
    hide Y.Inv, Y.Abs;
  }

  lemma PopContents<T>(s: Y.State<T>)
    requires Y.Inv(s) && s.rAt == Y.Sure
    ensures s.front < |s.log| && Contents(s).flushed != [] && Contents(s).flushed[0] == s.log[s.front].value
    ensures var t := Y.Next(s, Y.Pop); Y.Inv(t) && Contents(t) == Contents(s).Pop()
  {
    Y.Refines(s, Y.Pop);
    var q := Y.Abs(s);
    hide Y.Inv, Y.Abs;
    ValuesSlice(q.flushed, 1, |q.flushed|);
  }

  class YPipe<T> {
    const id: nat
    var log: seq<Y.Item<T>>
    var front: nat
    var w: nat
    var f: nat
    var r: Option<nat>
    var c: Option<nat>

    ghost function State(): Y.State<T>
      reads this
    {
      Y.State(log, front, w, f, r, c, Y.WIdle, Y.RIdle)
    }

    ghost predicate Valid()
      reads this
    {
      Y.Inv(State())
    }

    ghost function View(): Queue<T>
      reads this
      requires Valid()
    {
      Contents(State())
    }

    constructor (id: nat)
      ensures Valid() && View() == Fresh() && this.id == id
    {
      this.id, log, front, w, f, r, c := id, [], 0, 0, 0, Some(0), Some(0);
    }

    method Write(v: T, incomplete: bool)
      requires Valid()
      modifies this
      ensures Valid() && View() == old(View()).Write(v, incomplete)
    {
      hide Contents, Y.Inv;
      WriteContents(State(), v, incomplete);
      log := log + [Y.Item(v, incomplete)];
      if !incomplete { f := |log|; }
    }

    method Unwrite() returns (v: Option<T>)
      requires Valid()
      modifies this
      ensures Valid()
      ensures if old(View()).partial == [] then v.None? && View() == old(View())
              else v == Some(old(View()).partial[|old(View()).partial| - 1]) && View() == old(View()).Unwrite()
    {
      UnwriteContents(State());
      assert f <= |log|;
      hide Contents, Y.Inv;
      if f == |log| { return None; }
      v := Some(log[|log| - 1].value);
      log := log[..|log| - 1];
    }

    /** False if the reader sleeps; the caller must then wake it. */
    method Flush() returns (awake: bool)
      requires Valid()
      modifies this
      ensures Valid() && (View(), awake) == old(View()).Flush()
    {
      ghost var s := State();
      if Y.CasFails(s) {
        assert Y.Inv(s.(wAt := Y.Failed)) && Contents(s.(wAt := Y.Failed)) == Contents(s);
        FlushContents(s.(wAt := Y.Failed), Y.FlushSet);
      } else {
        FlushContents(s, Y.FlushCas);
      }
      hide Contents, Y.Inv;
      if w == f { return true; }
      if c != Some(w) {
        c := Some(f);
        w := f;
        return false;
      }
      c := Some(f);
      w := f;
      return true;
    }

    /** True if `r` is ahead of `front`, perhaps after a fresh look at `c`. */
    method CheckRead() returns (ok: bool)
      requires Valid()
      modifies this
      ensures Valid() && (View(), ok) == old(View()).CheckRead()
      ensures ok ==> Y.Inv(State().(rAt := Y.Sure)) && Contents(State().(rAt := Y.Sure)) == View()
    {
      CheckContents(State());
      if r.Some? && front != r.value { return true; }
      r := c;
      if c == Some(front) { c := None; }
      if r.None? || front == r.value { return false; }
      return true;
    }

    method Read() returns (v: Option<T>)
      requires Valid()
      modifies this
      ensures Valid()
      ensures if old(View()).flushed == [] then v.None? && View() == old(View()).CheckRead().0
              else v == Some(old(View()).flushed[0]) && View() == old(View()).Pop()
    {
      hide Contents, Y.Inv;
      var ok := CheckRead();
      if !ok { return None; }
      PopContents(State().(rAt := Y.Sure));
      v := Some(log[front].value);
      front := front + 1;
    }

    /** The first item, which stays. */
    method Peek() returns (v: T)
      requires Valid() && View().flushed != []
      modifies this
      ensures Valid() && View() == old(View()) && v == View().flushed[0]
    {
      hide Contents, Y.Inv;
      var ok := CheckRead();
      PopContents(State().(rAt := Y.Sure));
      v := log[front].value;
    }

    /** Reads and drops all there is. */
    method Drain()
      requires Valid()
      modifies this
      ensures Valid() && View() == old(View()).(flushed := [], asleep := true)
    {
      hide Contents, Y.Inv;
      while true
        invariant Valid() && View() == old(View()).(flushed := View().flushed)
        decreases |View().flushed|
      {
        var v := Read();
        if v.None? { return; }
      }
    }
  }
}
