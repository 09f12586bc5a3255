/** The message queue between two threads, seen from its two users: every
    operation is one indivisible step. Module YPipe shows that the lock-free
    pointer machine behaves like this. */
module UPipe {

  /** `flushed` is what the reader can see, `ready` what is complete but not yet
      flushed, `partial` the parts of a message still being written. `asleep`
      says that the reader found nothing and waits to be woken. */
  datatype Queue<T> = Queue(flushed: seq<T>, ready: seq<T>, partial: seq<T>, asleep: bool) {

    function Write(v: T, incomplete: bool): Queue<T> {
      if incomplete then this.(partial := partial + [v])
      else this.(ready := ready + partial + [v], partial := [])
    }

    function Unwrite(): Queue<T>
      requires partial != []
    {
      this.(partial := partial[..|partial| - 1])
    }

    /** False when the reader sleeps and has to be woken by the caller. */
    function Flush(): (Queue<T>, bool) {
      if ready == [] then (this, true)
      else (Queue(flushed + ready, [], partial, false), !asleep)
    }

    function CheckRead(): (Queue<T>, bool) {
      if flushed != [] then (this, true) else (this.(asleep := true), false)
    }

    function Pop(): Queue<T>
      requires flushed != []
    {
      this.(flushed := flushed[1..])
    }
  }

  function Fresh<T>(): Queue<T> {
    Queue([], [], [], false)
  }
}
