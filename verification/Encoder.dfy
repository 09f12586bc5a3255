/** The encoder as the program keeps it: messages taken from a session are turned into
    bytes, handed out in buffers of any size, or straight from where they lie. */
module Encoder {
  import opened Options
  import opened Bytes
  import opened Wire
  import opened Frames

  class Session {
    var queue: seq<Msg>

    constructor (queue: seq<Msg>)
      ensures this.queue == queue
    {
      this.queue := queue;
    }

    method Push(m: Msg)
      modifies this
      ensures queue == old(queue) + [m]
    {
      queue := queue + [m];
    }

    method Read() returns (m: Option<Msg>)
      modifies this
      ensures if m.None? then old(queue) == queue == [] else old(queue) == [m.value] + queue
    {
      if queue == [] { return None; }
      m, queue := Some(queue[0]), queue[1..];
    }
  }

  datatype Step = SizeReady | MessageReady

  class Encoder {
    const bufsize: nat
    const buf: array<byte>
    const tmpbuf: array<byte>
    const session: Session

    // The message in progress.
    var body: array<byte>

    // The next step, and the bytes to write before it.
    var next: Step
    var src: array<byte>
    var writePos: nat
    var toWrite: nat

    /** The messages taken and the bytes handed out so far. */
    ghost var taken: seq<Msg>
    ghost var emitted: bytes

    /** The bytes of the messages taken that were not handed out yet. */
    ghost function Pending(): bytes
      requires writePos + toWrite <= src.Length
      reads this, src, body
    {
      src[writePos..writePos + toWrite] + if next == SizeReady then body[..] else []
    }

    ghost predicate Valid()
      reads this, src, body, session
    {
      && buf.Length == bufsize && tmpbuf.Length == 10 && tmpbuf != buf && body != buf && body != tmpbuf
      && (src == tmpbuf || src == body) && (next == SizeReady ==> src == tmpbuf) && writePos + toWrite <= src.Length
      && (forall m :: m in session.queue || m in taken ==> |m.body| + 1 < TOP)
      && Stream(taken) == emitted + Pending()
    }

    constructor (bufsize: nat, session: Session)
      requires forall m :: m in session.queue ==> |m.body| + 1 < TOP
      ensures Valid() && this.session == session && this.bufsize == bufsize && taken == [] && emitted == []
      ensures fresh(buf) && fresh(tmpbuf) && fresh(body) && src == tmpbuf
    {
      this.bufsize, this.session := bufsize, session;
      buf := new byte[bufsize];
      tmpbuf := new byte[10];
      body := new byte[0];
      next, src, writePos, toWrite := MessageReady, tmpbuf, 0, 0;
      taken, emitted := [], [];
    }

    method NextStep(src: array<byte>, toWrite: nat, next: Step)
      modifies `src, `writePos, `toWrite, `next
      ensures this.src == src && writePos == 0 && this.toWrite == toWrite && this.next == next
    {
      this.src, writePos, this.toWrite, this.next := src, 0, toWrite, next;
    }

    method BodyStep()
      requires Valid() && next == SizeReady && toWrite == 0
      modifies this
      ensures Valid() && next == MessageReady && body == old(body)
      ensures taken == old(taken) && emitted == old(emitted)
    {
      hide Stream;
      NextStep(body, body.Length, MessageReady);
    }

    /** Writes the length field and the flags of a message: one byte or an escape and eight for
        the length, which includes the flags, then the flags without bit 7. */
    method PutHeader(m: Msg) returns (n: nat)
      requires tmpbuf.Length == 10 && |m.body| + 1 < TOP
      modifies tmpbuf
      ensures n <= 10 && tmpbuf[..n] == Header(m)
      ensures (n == 2 || n == 10) && (n == 2 <==> |m.body| < 254)
      ensures n == 2 ==> tmpbuf[0] as nat == |m.body| + 1
      ensures n == 10 ==> tmpbuf[0] == 0xff && Digits(tmpbuf[1..9], |m.body| + 1)
      ensures tmpbuf[n - 1] < 128 && (m.flags == tmpbuf[n - 1] || m.flags as nat == tmpbuf[n - 1] as nat + 128)
    {
      var size := |m.body| + 1;
      if size < 255 {
        tmpbuf[0] := size as byte;
        tmpbuf[1] := m.flags % 128;
        return 2;
      } else {
        tmpbuf[0] := ESCAPE;
        PutUint64(tmpbuf, 1, size);
        tmpbuf[9] := m.flags % 128;
        SameDigits(tmpbuf[1..9], Encoded64(size), size);
        assert tmpbuf[..10] == [tmpbuf[0]] + tmpbuf[1..9] + [tmpbuf[9]];
        return 10;
      }
    }

    method MessageStep() returns (ok: bool)
      requires Valid() && next == MessageReady && toWrite == 0
      modifies this, tmpbuf, session
      ensures Valid() && emitted == old(emitted) && (body == old(body) || fresh(body))
      ensures if ok then next == SizeReady && |old(session.queue)| > 0 && session.queue == old(session.queue)[1..]
                && taken == old(taken) + [old(session.queue)[0]]
              else old(session.queue) == session.queue == [] && next == MessageReady && toWrite == 0 && taken == old(taken)
    {
      var r := session.Read();
      if r.None? { return false; }
      assert r.value in old(session.queue) && forall m :: m in session.queue ==> m in old(session.queue);
      Load(r.value);
      return true;
    }

    /** Makes `m` the message in progress. */
    method Load(m: Msg)
      requires Valid() && next == MessageReady && toWrite == 0 && |m.body| + 1 < TOP
      modifies this, tmpbuf
      ensures Valid() && fresh(body) && next == SizeReady && taken == old(taken) + [m] && emitted == old(emitted)
    {
      hide Stream, Header;
      assert Stream(taken) == emitted by { assert emitted + ([] + []) == emitted; }
      body := new byte[|m.body|](i requires 0 <= i < |m.body| => m.body[i]);
      assert body[..] == m.body;
      var n := PutHeader(m);
      NextStep(tmpbuf, n, SizeReady);
      StreamMore(taken, m);
      taken := taken + [m];
    }

    /** Hands out the next `n` pending bytes. */
    method Emit(n: nat)
      requires Valid() && n <= toWrite
      modifies `writePos, `toWrite, `emitted
      ensures Valid() && writePos == old(writePos) + n && toWrite == old(toWrite) - n
      ensures emitted == old(emitted) + src[old(writePos)..old(writePos) + n]
    {
      hide Stream;
      ghost var rest := if next == SizeReady then body[..] else [];
      Split(src[..], writePos, n, toWrite, emitted, rest);
      emitted := emitted + src[writePos..writePos + n];
      writePos := writePos + n;
      toWrite := toWrite - n;
    }

    /** Copies pending bytes to a buffer. */
    method CopyOut(buffer: array<byte>, pos: nat, n: nat)
      requires Valid() && n <= toWrite && pos + n <= buffer.Length && buffer != tmpbuf && buffer != body
      modifies `writePos, `toWrite, `emitted, buffer
      ensures Valid() && toWrite == old(toWrite) - n
      ensures buffer[..pos] == old(buffer[..pos]) && emitted == old(emitted) + buffer[pos..pos + n]
    {
      hide Stream;
      Memcpy(buffer, pos, src, writePos, n);
      Emit(n);
    }

    /** Runs the state machine once if there is nothing to write. */
    method Refill() returns (ok: bool)
      requires Valid()
      modifies this, tmpbuf, session
      ensures Valid() && emitted == old(emitted) && (body == old(body) || fresh(body))
      ensures writePos + toWrite <= src.Length && (src == tmpbuf || src == body)
      ensures taken + session.queue == old(taken + session.queue)
      ensures !ok ==> session.queue == [] && emitted == Stream(taken)
      ensures ok && old(toWrite) > 0 ==> toWrite == old(toWrite) && next == old(next) && session.queue == old(session.queue)
      ensures old(toWrite) > 0 ==> ok && src == old(src) && writePos == old(writePos)
      ensures ok && old(toWrite) == 0 && |session.queue| >= |old(session.queue)| ==>
        session.queue == old(session.queue) && next == MessageReady && old(next) == SizeReady
    {
      hide Stream;
      if toWrite > 0 { return true; }
      if next == SizeReady {
        BodyStep();
        return true;
      }
      ghost var q := session.queue;
      ok := MessageStep();
      if ok {
        assert q == [q[0]] + q[1..];
        assert taken + session.queue == old(taken) + ([q[0]] + q[1..]);
      } else {
        assert emitted + ([] + []) == emitted;
      }
    }

    /** Fills the supplied buffer, or else the encoder's own; a chunk no smaller than that
        is handed out where it lies. The answer is false if nothing is left to write. */
    method GetData(out: array?<byte>, outSize: nat) returns (data: array<byte>, start: nat, size: nat, full: bool)
      requires Valid() && (out != null ==> outSize <= out.Length && out != buf && out != tmpbuf && out != body)
      modifies this, tmpbuf, buf, session, out
      ensures Valid() && start + size <= data.Length && emitted == old(emitted) + data[start..start + size]
      ensures taken + session.queue == old(taken + session.queue)
      ensures !full ==> session.queue == [] && emitted == Stream(taken)
      ensures out != null ==> data == out && start == 0 && size <= outSize && (full ==> size == outSize)
      ensures out == null && full ==> size >= bufsize
      ensures (body == old(body) || fresh(body)) && (out == null ==> data == buf || data == tmpbuf || data == body)
      ensures src == tmpbuf || src == body
      ensures out == null && old(toWrite) > 0 && old(toWrite) >= bufsize ==>
        full && data == old(src) && start == old(writePos) && size == old(toWrite)
    {
      hide Stream, Pending;
      if out == null {
        data, start, size, full := Produce(buf, bufsize, true);
      } else {
        data, start, size, full := Produce(out, outSize, false);
      }
    }

    method Produce(buffer: array<byte>, buffersize: nat, own: bool) returns (data: array<byte>, start: nat, size: nat, full: bool)
      requires Valid() && buffersize <= buffer.Length && buffer != tmpbuf && buffer != body
      modifies this, tmpbuf, buffer, session
      ensures Valid() && start + size <= data.Length && emitted == old(emitted) + data[start..start + size]
      ensures taken + session.queue == old(taken + session.queue)
      ensures !full ==> session.queue == [] && emitted == Stream(taken)
      ensures !own ==> data == buffer && start == 0 && size <= buffersize
      ensures full ==> size >= buffersize
      ensures (body == old(body) || fresh(body)) && (data == buffer || data == tmpbuf || data == body)
      ensures own && old(toWrite) > 0 && old(toWrite) >= buffersize ==>
        full && data == old(src) && start == old(writePos) && size == old(toWrite)
    {
      hide Stream, Pending, Valid;
      var pos := 0;
      while true
        invariant Valid() && 0 <= pos <= buffersize && buffer != body && (body == old(body) || fresh(body))
        invariant taken + session.queue == old(taken + session.queue)
        invariant emitted == old(emitted) + buffer[..pos]
        invariant pos == buffersize ==> pos == 0
        invariant own && old(toWrite) > 0 && old(toWrite) >= buffersize ==>
          pos == 0 && toWrite == old(toWrite) && src == old(src) && writePos == old(writePos)
        decreases |session.queue|, if next == SizeReady then 1 else 0, toWrite
      {
        var ok := Refill();
        if !ok {
          return buffer, 0, pos, false;
        }
        if pos == 0 && own && toWrite >= buffersize {
          data, start, size, full := src, writePos, toWrite, true;
          Emit(toWrite);
          return;
        }
        var toCopy := if toWrite < buffersize - pos then toWrite else buffersize - pos;
        CopyOut(buffer, pos, toCopy);
        Joined(buffer[..], pos, toCopy, old(emitted));
        pos := pos + toCopy;
        if pos == buffersize {
          return buffer, 0, pos, true;
        }
      }
    }
  }

  lemma Joined(s: bytes, pos: nat, n: nat, before: bytes)
    requires pos + n <= |s|
    ensures before + s[..pos] + s[pos..pos + n] == before + s[..pos + n]
  {
  }

  lemma Split(s: bytes, at: nat, n: nat, m: nat, before: bytes, rest: bytes)
    requires n <= m && at + m <= |s|
    ensures before + (s[at..at + m] + rest) == before + s[at..at + n] + (s[at + n..at + m] + rest)
  {
  }

  lemma StreamMore(ms: seq<Msg>, m: Msg)
    ensures Stream(ms + [m]) == Stream(ms) + (Header(m) + m.body)
  {
    assert (ms + [m])[..|ms|] == ms;
  }

  lemma SameDigits(a: bytes, b: bytes, v: nat)
    requires |a| == |b| && Digits(a, v) && Digits(b, v)
    ensures a == b
  {
    forall i | 0 <= i < |a| ensures a[i] == b[i] {
      var k := |a| - 1 - i;
      assert a[|a| - 1 - k] == Digit(v, k) == b[|b| - 1 - k];
    }
  }
}
