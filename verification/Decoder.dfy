/** The decoder as the program keeps it: it is handed bytes in pieces of any size, copies
    them to where they belong or finds them there already, and pushes whole messages to
    a session that may refuse. */
module Decoder {
  import opened Options
  import opened Bytes
  import opened Wire
  import opened Frames

  datatype Answer = Accept | Again | Fail

  function Accepts(answers: seq<Answer>): nat {
    if answers == [] then 0 else Accepts(answers[..|answers| - 1]) + if answers[|answers| - 1] == Accept then 1 else 0
  }

  /** Takes messages as `script` says, and refuses for now when that is used up. */
  class Session {
    const script: seq<Answer>
    var answers: seq<Answer>
    var taken: seq<Part>
    var broken: bool

    /** The answers given so far. */
    ghost function Given(): seq<Answer>
      reads this
      requires |answers| <= |script|
    {
      script[..|script| - |answers|]
    }

    ghost predicate Valid()
      reads this
    {
      && |answers| <= |script| && answers == script[|script| - |answers|..]
      && |taken| == Accepts(Given()) && (broken <==> Fail in Given())
    }

    constructor (script: seq<Answer>)
      ensures Valid() && this.script == answers == script && taken == [] && !broken
    {
      this.script, answers, taken, broken := script, script, [], false;
    }

    method Write(p: Part) returns (a: Answer)
      requires Valid()
      modifies this
      ensures Valid() && a == (if old(answers) == [] then Again else old(answers)[0])
      ensures answers == if old(answers) == [] then [] else old(answers)[1..]
      ensures taken == old(taken) + if a == Accept then [p] else []
      ensures broken == (old(broken) || a == Fail)
    {
      a := Again;
      if answers != [] {
        ghost var given := Given();
        a, answers := answers[0], answers[1..];
        assert Given() == given + [a] && Given()[..|given|] == given;
      }
      if a == Accept { taken := taken + [p]; }
      if a == Fail { broken := true; }
    }
  }

  datatype Step = OneByteSize | EightByteSize | Flags | Message | Dead

  /** The current message so far is `frame`: its length field is `head`, if known, and
      `got` are the bytes of the current step. */
  predicate Holds(next: Step, frame: bytes, head: bytes, got: bytes, size: nat, more: bool, max: nat) {
    match next
    case OneByteSize => frame == got
    case EightByteSize => frame == [ESCAPE] + got
    case Flags => frame == head + got && ReadHead(head, max) == Sized(|head|, size)
    case Message =>
      && ReadHead(head, max) == Sized(|head|, size)
      && |frame| == |head| + 1 + |got| && frame[..|head|] == head
      && more == (frame[|head|] % 2 == 1) && frame[|head| + 1..] == got
    case Dead => true
  }

  lemma HoldsMore(next: Step, frame: bytes, head: bytes, got: bytes, size: nat, more: bool, max: nat, piece: bytes)
    requires Holds(next, frame, head, got, size, more, max)
    ensures Holds(next, frame + piece, head, got + piece, size, more, max)
  {
    match next
    case EightByteSize => Append3([ESCAPE], got, piece);
    case Flags => Append3(head, got, piece);
    case Message => Append(frame, piece, |head|);
    case _ =>
  }

  class Decoder {
    const bufsize: nat
    const maxmsgsize: nat
    const buf: array<byte>
    const tmpbuf: array<byte>
    const session: Session

    // The message in progress.
    var body: array<byte>
    var more: bool

    // The next step, and where the bytes it needs are to be stored.
    var next: Step
    var dest: array<byte>
    var readPos: nat
    var toRead: nat

    /** All bytes processed: those of messages the session took, the length field of the
        current message, and all of the current message so far. */
    ghost var before: bytes
    ghost var head: bytes
    ghost var frame: bytes

    ghost function Fed(): bytes
      reads this
    {
      before + frame
    }

    ghost predicate Apart()
      reads this
    {
      tmpbuf != buf && body != buf && body != tmpbuf && tmpbuf.Length == 8
    }

    /** The bytes of the current step are at the front of where they belong. */
    ghost predicate Stored()
      requires Apart()
      reads this, tmpbuf, body, session
    {
      if next == Dead then Parse(frame, maxmsgsize) == Parsed([], Bad) || session.broken
      else
        && dest == (if next == Message then body else tmpbuf)
        && readPos + toRead == (if next == Message then body.Length else if next == EightByteSize then 8 else 1)
        && Holds(next, frame, head, dest[..readPos], body.Length, more, maxmsgsize)
    }

    ghost predicate Valid()
      reads this, tmpbuf, body, session
    {
      && Apart() && buf.Length == bufsize && Stored() && session.Valid() && (session.broken ==> next == Dead)
      && Parse(before, maxmsgsize) == Parsed(session.taken, More([]))
    }

    /** A whole message that the session refused for now. */
    predicate Refused()
      reads this
    {
      next == Message && toRead == 0
    }

    constructor (bufsize: nat, maxmsgsize: nat, session: Session)
      requires session.Valid() && session.taken == [] && !session.broken
      ensures Valid() && this.session == session && this.bufsize == bufsize && this.maxmsgsize == maxmsgsize
      ensures Fed() == [] && next == OneByteSize && toRead == 1
      ensures fresh(buf) && fresh(tmpbuf) && fresh(body)
    {
      this.bufsize, this.maxmsgsize, this.session := bufsize, maxmsgsize, session;
      buf := new byte[bufsize];
      tmpbuf := new byte[8];
      body := new byte[0];
      more := false;
      before, head, frame := [], [], [];
      next, dest, readPos, toRead := OneByteSize, tmpbuf, 0, 1;
    }

    method NextStep(dest: array<byte>, toRead: nat, next: Step)
      modifies `dest, `readPos, `toRead, `next
      ensures this.dest == dest && readPos == 0 && this.toRead == toRead && this.next == next
    {
      this.dest, readPos, this.toRead, this.next := dest, 0, toRead, next;
    }

    method DecodingError()
      modifies `next
      ensures next == Dead
    {
      next := Dead;
    }

    /** What an action of the state machine does: it moves on, stops at a refusal, or
        gives up; the bytes processed stay the same. */
    twostate predicate Acted(ok: bool)
      reads this, tmpbuf, body, session
    {
      && Valid() && Fed() == old(Fed())
      && (ok ==> next != Dead && next != old(next) && (toRead > 0 || next == Message))
      && (!ok ==> next == Dead || (next == old(next) == Message && toRead == 0))
      && (body == old(body) || fresh(body)) && Spent(old(next) == Message)
    }

    /** Answers are only used up; one is, by a message that is `tried`, if there is one. */
    twostate predicate Spent(tried: bool)
      reads session
    {
      |session.answers| <= |old(session.answers)| && (tried && old(session.answers) != [] ==> |session.answers| < |old(session.answers)|)
    }

    method OneByteSizeReady() returns (ok: bool)
      requires Valid() && next == OneByteSize && toRead == 0
      modifies this
      ensures Acted(ok)
      ensures ok <==> tmpbuf[0] == 0xff || 1 <= tmpbuf[0] as nat <= maxmsgsize + 1
      ensures ok && tmpbuf[0] == 0xff ==> next == EightByteSize && toRead == 8
      ensures ok && tmpbuf[0] != 0xff ==> next == Flags && toRead == 1 && body.Length == tmpbuf[0] as nat - 1
    {
      hide Parse, Session.Valid;
      ParseNone(frame, maxmsgsize);
      ghost var b := tmpbuf[0];
      assert frame == [b];
      if tmpbuf[0] == ESCAPE {
        NextStep(tmpbuf, 8, EightByteSize);
      } else {
        if tmpbuf[0] == 0 || (tmpbuf[0] - 1) as nat > maxmsgsize {
          DecodingError();
          return false;
        }
        body := new byte[(tmpbuf[0] - 1) as nat];
        head := frame;
        NextStep(tmpbuf, 1, Flags);
      }
      return true;
    }

    method EightByteSizeReady() returns (ok: bool)
      requires Valid() && next == EightByteSize && toRead == 0
      modifies this
      ensures Acted(ok)
      ensures ok <==> 1 <= Value(tmpbuf[..8]) <= maxmsgsize + 1
      ensures ok ==> next == Flags && toRead == 1 && body.Length == Value(tmpbuf[..8]) - 1
    {
      hide Parse, Session.Valid;
      ParseNone(frame, maxmsgsize);
      var length := GetUint64(tmpbuf[..8]);
      assert frame[1..9] == tmpbuf[..8];
      if length == 0 {
        DecodingError();
        return false;
      }
      if length - 1 > maxmsgsize {
        DecodingError();
        return false;
      }
      body := new byte[length - 1];
      head := frame;
      NextStep(tmpbuf, 1, Flags);
      return true;
    }

    method FlagsReady() returns (ok: bool)
      requires Valid() && next == Flags && toRead == 0
      modifies this
      ensures Acted(ok) && ok && next == Message && toRead == body.Length && body == old(body)
      ensures more <==> tmpbuf[0] % 2 == 1
    {
      hide Parse, ReadHead, Session.Valid;
      more := tmpbuf[0] % 2 == 1;
      NextStep(body, body.Length, Message);
      return true;
    }

    method MessageReady() returns (ok: bool)
      requires Valid() && next == Message && toRead == 0
      modifies this, session
      ensures Acted(ok) && (ok ==> toRead > 0)
      ensures var a := if old(session.answers) == [] then Again else old(session.answers)[0];
        (ok <==> a == Accept) && (next == Dead <==> a == Fail)
      ensures session.taken == old(session.taken) + if ok then [Part(old(body[..]), old(more))] else []
    {
      hide Parse, ReadHead, Session.Valid;
      FrameWhole(head, frame, body[..], more, maxmsgsize);
      OnePartMore(before, frame, session.taken, Part(body[..], more), maxmsgsize);
      var a := session.Write(Part(body[..], more));
      if a != Accept {
        if a != Again { DecodingError(); }
        return false;
      }
      before, head, frame := before + frame, [], [];
      body := new byte[0];
      NextStep(tmpbuf, 1, OneByteSize);
      return true;
    }

    method Act() returns (ok: bool)
      requires Valid() && next != Dead && toRead == 0
      modifies this, session
      ensures Acted(ok)
    {
      match next {
        case OneByteSize => ok := OneByteSizeReady();
        case EightByteSize => ok := EightByteSizeReady();
        case Flags => ok := FlagsReady();
        case Message => ok := MessageReady();
      }
    }

    /** Runs the state machine until it wants bytes. */
    method RunSteps() returns (ok: bool)
      requires Valid() && next != Dead
      modifies this, session
      ensures Valid() && Fed() == old(Fed()) && (body == old(body) || fresh(body))
      ensures ok ==> next != Dead && toRead > 0 && dest != buf && (dest == tmpbuf || dest == body)
      ensures !ok ==> next == Dead || Refused()
      ensures Spent(old(Refused())) && (old(toRead) > 0 ==> next == old(next) && toRead == old(toRead))
    {
      hide Parse, ReadHead, Session.Valid;
      while toRead == 0
        invariant Valid() && next != Dead && Fed() == old(Fed()) && (body == old(body) || fresh(body))
        invariant Spent(false) && (Spent(old(Refused())) || Refused())
        invariant old(toRead) > 0 ==> next == old(next) && toRead == old(toRead)
        decreases if toRead > 0 then 0 else if next == Message then 1 else 2
      {
        ok := Act();
        if !ok { return; }
      }
      return true;
    }

    /** The next `n` bytes are where they belong. */
    method Advance(n: nat)
      requires Valid() && next != Dead && n <= toRead
      modifies this
      ensures Valid() && next == old(next) && toRead == old(toRead) - n && body == old(body) && dest == old(dest)
      ensures Fed() == old(Fed()) + dest[old(readPos)..old(readPos) + n]
    {
      hide Parse, ReadHead, Holds, Session.Valid;
      ghost var piece := dest[readPos..readPos + n];
      assert dest[..readPos + n] == dest[..readPos] + piece;
      Append3(before, frame, piece);
      HoldsMore(next, frame, head, dest[..readPos], body.Length, more, maxmsgsize, piece);
      frame := frame + piece;
      readPos := readPos + n;
      toRead := toRead - n;
    }

    method Copy(data: array<byte>, start: nat, n: nat)
      requires Valid() && next != Dead && n <= toRead && data != dest && start + n <= data.Length
      modifies dest
      ensures Valid() && dest[readPos..readPos + n] == data[start..start + n]
    {
      hide Parse, ReadHead, Session.Valid;
      Memcpy(dest, readPos, data, start, n);
    }

    /** A buffer to fill: the message itself if a whole buffer is wanted. */
    method GetBuffer() returns (data: array<byte>, start: nat, size: nat)
      requires Valid() && next != Dead
      ensures start + size <= data.Length && (data == buf || data == tmpbuf || data == body)
      ensures if toRead >= bufsize then data == dest && start == readPos && size == toRead
              else data == buf && start == 0 && size == bufsize
    {
      if toRead >= bufsize {
        return dest, readPos, toRead;
      }
      return buf, 0, bufsize;
    }

    /** Between calls: dead, wanting bytes, or stopped at a refusal. */
    ghost predicate Ready()
      reads this, tmpbuf, body, session
    {
      Valid() && (next == Dead || toRead > 0 || Refused())
    }

    /** Processes `n` bytes filled into a buffer obtained before. Fewer are processed only
        if the session refused a message, and none is the answer on an error. */
    method ProcessBuffer(data: array<byte>, start: nat, n: nat) returns (r: Option<nat>)
      requires Ready() && start + n <= data.Length
      requires data == buf || (data == dest && start == readPos && n <= toRead)
      modifies this, tmpbuf, body, session
      ensures Ready()
      ensures r.Some? ==> next != Dead && r.value <= n && (r.value < n ==> Refused())
      ensures r.Some? ==> Fed() == old(Fed()) + old(data[start..start + r.value])
      ensures r.None? ==> next == Dead && old(Fed()) <= Fed() <= old(Fed()) + old(data[start..start + n])
      ensures (body == old(body) || fresh(body)) && buf[..] == old(buf[..]) && (r.Some? && r.value < n ==> data == buf)
      ensures Spent(old(Refused())) && (n == 0 && old(toRead) > 0 ==> next == old(next) && toRead == old(toRead))
    {
      hide Parse, ReadHead, Session.Valid;
      if next == Dead { return None; }
      if data == dest && start == readPos {
        Advance(n);
        var ok := RunSteps();
        if next == Dead { return None; }
        return Some(n);
      }
      r := ProcessCopied(start, n);
    }

    /** The branch for bytes in the decoder's own buffer. */
    method ProcessCopied(start: nat, n: nat) returns (r: Option<nat>)
      requires Valid() && next != Dead && start + n <= buf.Length
      modifies this, tmpbuf, body, session
      ensures Ready() && buf[..] == old(buf[..])
      ensures r.Some? ==> next != Dead && r.value <= n && (r.value < n ==> Refused())
      ensures r.Some? ==> Fed() == old(Fed()) + buf[start..start + r.value]
      ensures r.None? ==> next == Dead && old(Fed()) <= Fed() <= old(Fed()) + buf[start..start + n]
      ensures body == old(body) || fresh(body)
      ensures Spent(old(Refused())) && (n == 0 && old(toRead) > 0 ==> next == old(next) && toRead == old(toRead))
    {
      hide Parse, ReadHead, Stored, Session.Valid, Fed;
      var pos := 0;
      assert buf[start..start + 0] == [];
      while true
        invariant Spent(pos > 0 && old(Refused())) && (pos == 0 ==> next == old(next) && toRead == old(toRead) && Spent(false))
        invariant Valid() && next != Dead && 0 <= pos <= n && buf[..] == old(buf[..])
        invariant Fed() == old(Fed()) + buf[start..start + pos] && (body == old(body) || fresh(body))
        decreases n - pos
      {
        var ok := RunSteps();
        if !ok {
          if next == Dead { return None; }
          return Some(pos);
        }
        if pos == n { return Some(pos); }
        var toCopy := if toRead < n - pos then toRead else n - pos;
        Take(start + pos, toCopy);
        Onward(old(Fed()), buf[..], start, start + pos, toCopy);
        pos := pos + toCopy;
      }
    }

    /** Copies `n` bytes to where they belong. */
    method Take(start: nat, n: nat)
      requires Valid() && next != Dead && n <= toRead && start + n <= buf.Length && dest != buf && (dest == tmpbuf || dest == body)
      modifies this, dest
      ensures Valid() && next == old(next) && body == old(body) && buf[..] == old(buf[..])
      ensures Fed() == old(Fed()) + buf[start..start + n]
    {
      hide Parse, ReadHead, Stored, Session.Valid;
      Copy(buf, start, n);
      Advance(n);
    }

    /** Whatever the pieces and refusals were, the session has taken exactly the messages
        that the bytes processed so far hold, but for one it refused; and the decoder
        is dead only if those bytes are bad or the session failed. */
    lemma TakenIsParsed()
      requires Ready()
      ensures var whole := if Refused() then [Part(body[..], more)] else [];
        next != Dead ==> Parse(Fed(), maxmsgsize) == Parsed(session.taken + whole, More(if Refused() then [] else frame))
      ensures next == Dead && !session.broken ==> Parse(Fed(), maxmsgsize) == Parsed(session.taken, Bad)
    {
      hide Parse, ReadHead, Session.Valid;
      if next == Dead {
        if !session.broken { NoneMore(before, frame, session.taken, Bad, maxmsgsize); }
      } else if Refused() {
        FrameWhole(head, frame, body[..], more, maxmsgsize);
        OnePartMore(before, frame, session.taken, Part(body[..], more), maxmsgsize);
      } else {
        StillPartial();
        ParseNone(frame, maxmsgsize);
        NoneMore(before, frame, session.taken, More(frame), maxmsgsize);
        assert session.taken + [] == session.taken;
      }
    }

    lemma StillPartial()
      requires Valid() && next != Dead && toRead > 0
      ensures Partial(frame, maxmsgsize)
    {
      if next == Flags || next == Message {
        assert frame == head + frame[|head|..];
        HeadExtends(head, frame[|head|..], maxmsgsize);
      }
    }
  }

  lemma Onward(a: bytes, s: bytes, i: nat, j: nat, n: nat)
    requires i <= j && j + n <= |s|
    ensures a + s[i..j] + s[j..j + n] == a + s[i..j + n]
  {
  }

  lemma Append3(a: bytes, b: bytes, c: bytes)
    ensures a + (b + c) == a + b + c
  {
  }

  lemma Append(s: bytes, t: bytes, n: nat)
    requires n < |s|
    ensures (s + t)[..n] == s[..n] && (s + t)[n] == s[n] && (s + t)[n + 1..] == s[n + 1..] + t
  {
  }

  /** A length field, the flags and as many bytes as announced are one message. */
  lemma FrameWhole(head: bytes, frame: bytes, body: bytes, more: bool, max: nat)
    requires ReadHead(head, max) == Sized(|head|, |body|)
    requires |frame| == |head| + 1 + |body| && frame[..|head|] == head
    requires more == (frame[|head|] % 2 == 1) && frame[|head| + 1..] == body
    ensures Parse(frame, max) == Parsed([Part(body, more)], More([]))
  {
    hide Parse, ReadHead;
    assert frame == head + frame[|head|..];
    HeadExtends(head, frame[|head|..], max);
    ParseFirst(frame, max, |head|, |body|);
    ParseEmpty(max);
    assert frame[|frame|..] == [] && frame[|head| + 1..|frame|] == body;
    assert [Part(body, more)] + [] == [Part(body, more)];
  }

  lemma NoneMore(before: bytes, frame: bytes, taken: seq<Part>, tail: Tail, max: nat)
    requires Parse(before, max) == Parsed(taken, More([])) && Parse(frame, max) == Parsed([], tail)
    ensures Parse(before + frame, max) == Parsed(taken, tail)
  {
    hide Parse;
    ParseExtends(before, frame, max);
    assert [] + frame == frame && taken + [] == taken;
  }

  lemma OnePartMore(before: bytes, frame: bytes, taken: seq<Part>, p: Part, max: nat)
    requires Parse(before, max) == Parsed(taken, More([])) && Parse(frame, max) == Parsed([p], More([]))
    ensures Parse(before + frame, max) == Parsed(taken + [p], More([]))
  {
    hide Parse;
    ParseExtends(before, frame, max);
    assert [] + frame == frame;
  }
}
