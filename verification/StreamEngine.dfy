/** The two directions of a stream engine: it writes to its socket what the encoder hands
    out, from where it lies, and reads from its socket to where the decoder wants it. */
module StreamEngine {
  import opened Options
  import opened Bytes
  import opened Wire
  import opened Frames
  import Encoder
  import Decoder
  import Codec

  class Outbound {
    const encoder: Encoder.Encoder

    // The bytes handed out and not yet written.
    var outData: array<byte>
    var outPos: nat
    var outSize: nat

    /** All bytes written to the socket. */
    ghost var sent: bytes

    ghost function Repr(): set<object>
      reads this, encoder
    {
      {this, encoder, encoder.session, encoder.buf, encoder.tmpbuf, encoder.body, encoder.src, outData}
    }

    ghost predicate Valid()
      reads this, encoder, encoder.src, encoder.body, encoder.session, outData
    {
      && encoder.Valid() && outPos + outSize <= outData.Length
      && encoder.emitted == sent + outData[outPos..outPos + outSize]
    }

    /** An engine plugged into a session with `messages` to send. */
    constructor (bufsize: nat, messages: seq<Msg>)
      requires forall m :: m in messages ==> |m.body| + 1 < TOP
      ensures Valid() && encoder.session.queue == messages && encoder.taken == [] && sent == [] && fresh(Repr())
      ensures encoder.bufsize == bufsize
    {
      hide Encoder.Encoder.Valid;
      var session := new Encoder.Session(messages);
      encoder := new Encoder.Encoder(bufsize, session);
      outData := new byte[0];
      outPos, outSize, sent := 0, 0, [];
    }

    /** Everything the session had is written. */
    ghost predicate AllSent()
      reads this, encoder, encoder.session
    {
      encoder.session.queue == [] && sent == Stream(encoder.taken)
    }

    /** The session gets one more message. */
    method Submit(m: Msg)
      requires Valid() && |m.body| + 1 < TOP
      modifies encoder.session
      ensures Valid() && encoder.session.queue == old(encoder.session.queue) + [m]
    {
      hide Stream;
      encoder.session.Push(m);
    }

    /** The socket takes up to `room` bytes; `piece` is what it took. That is nothing only if
        there is nothing left to write; and all it can take, or all that was handed out. */
    method OutEvent(room: nat) returns (piece: bytes)
      requires Valid()
      modifies Repr()
      ensures Valid() && fresh(Repr() - old(Repr()))
      ensures sent == old(sent) + piece && |piece| <= room
      ensures encoder.taken + encoder.session.queue == old(encoder.taken + encoder.session.queue)
      ensures room > 0 && encoder.bufsize > 0 && piece == [] ==> AllSent()
      ensures |piece| == room || outSize == 0
    {
      hide Encoder.Encoder.Valid, Stream;
      if outSize == 0 {
        Fetch();
        if outSize == 0 { return []; }
      }
      piece := Write(if room < outSize then room else outSize);
    }

    method Fetch()
      requires Valid() && outSize == 0
      modifies Repr()
      ensures Valid() && fresh(Repr() - old(Repr())) && sent == old(sent)
      ensures encoder.taken + encoder.session.queue == old(encoder.taken + encoder.session.queue)
      ensures encoder.bufsize > 0 && outSize == 0 ==> AllSent()
    {
      hide Stream, Encoder.Encoder.Valid;
      assert encoder.emitted == sent;
      var data, start, size, full := encoder.GetData(null, 0);
      outData, outPos, outSize := data, start, size;
      assert size == 0 ==> data[start..start + size] == [];
    }

    method Write(n: nat) returns (piece: bytes)
      requires Valid() && n <= outSize
      modifies `outPos, `outSize, `sent
      ensures Valid() && sent == old(sent) + piece && piece == old(outData[outPos..outPos + n])
    {
      hide Encoder.Encoder.Valid;
      piece := outData[outPos..outPos + n];
      Cut(sent, outData[..], outPos, n, outSize);
      sent := sent + piece;
      outPos, outSize := outPos + n, outSize - n;
    }
  }

  class Inbound {
    const decoder: Decoder.Decoder

    // The bytes read and not yet processed.
    var inData: array<byte>
    var inPos: nat
    var inSize: nat
    var closed: bool

    /** All bytes read from the socket. */
    ghost var received: bytes

    ghost function Repr(): set<object>
      reads this, decoder
    {
      {this, decoder, decoder.session, decoder.buf, decoder.tmpbuf, decoder.body, inData}
    }

    ghost predicate Valid()
      reads this, decoder, decoder.tmpbuf, decoder.body, decoder.session, inData
    {
      && decoder.Ready() && inPos + inSize <= inData.Length
      && (!closed && inSize > 0 ==> inData == decoder.buf && decoder.Refused())
      && closed == (decoder.next == Decoder.Dead)
      && (if closed then decoder.Fed() <= received
          else received == decoder.Fed() + inData[inPos..inPos + inSize])
    }

    /** An engine plugged into a session that answers as `answers` says. */
    constructor (bufsize: nat, maxmsgsize: nat, answers: seq<Decoder.Answer>)
      ensures Valid() && decoder.maxmsgsize == maxmsgsize && received == [] && fresh(Repr())
      ensures decoder.bufsize == bufsize && decoder.session.script == decoder.session.answers == answers && inSize == 0
    {
      hide Decoder.Decoder.Valid, Decoder.Session.Valid;
      var session := new Decoder.Session(answers);
      decoder := new Decoder.Decoder(bufsize, maxmsgsize, session);
      inData := new byte[0];
      inPos, inSize, closed, received := 0, 0, false, [];
    }

    /** Bytes are where the decoder wants them or in its buffer. */
    ghost predicate Loaded()
      reads this, decoder, decoder.tmpbuf, decoder.body, decoder.session, inData
    {
      && decoder.Ready() && !closed && decoder.next != Decoder.Dead && inPos + inSize <= inData.Length
      && (inData == decoder.buf || (inData == decoder.dest && inPos == decoder.readPos && inSize <= decoder.toRead))
      && received == decoder.Fed() + inData[inPos..inPos + inSize]
    }

    /** Bytes to process, bytes still to read from `wire`, and answers of the session left. */
    function Rank(wire: bytes): nat
      reads this, decoder.session
    {
      2 * |wire| + inSize + |decoder.session.answers|
    }

    /** Nothing is left to read or process, or the session refuses for good. */
    ghost predicate Idle(wire: bytes)
      reads this, decoder, decoder.session
    {
      if decoder.Refused() then decoder.session.answers == [] else wire == [] && inSize == 0
    }

    /** The socket has `wire` to read and gives at most `n` bytes of it; `left` is the rest.
        Something moves unless nothing can. */
    method InEvent(wire: bytes, n: nat) returns (left: bytes)
      requires Valid()
      modifies Repr()
      ensures Valid() && fresh(Repr() - old(Repr()))
      ensures received + left == old(received) + wire
      ensures |wire| - |left| == if old(closed) || old(inSize) > 0 then 0
        else Least(n, |wire|, if old(decoder.toRead) >= decoder.bufsize then old(decoder.toRead) else decoder.bufsize)
      ensures Rank(left) <= old(Rank(wire))
      ensures n > 0 && decoder.bufsize > 0 && Rank(left) == old(Rank(wire)) ==> closed || Idle(left)
    {
      hide Decoder.Decoder.Ready, Decoder.Decoder.Fed;
      if closed { return wire; }
      left := wire;
      if inSize == 0 { left := Read(wire, n); }
      Process();
    }

    method Read(wire: bytes, n: nat) returns (left: bytes)
      requires Valid() && !closed && inSize == 0
      modifies Repr()
      ensures Loaded() && Repr() <= old(Repr()) && received + left == old(received) + wire
      ensures inSize == |wire| - |left|
      ensures inSize == Least(n, |wire|, if decoder.toRead >= decoder.bufsize then decoder.toRead else decoder.bufsize)
      ensures unchanged(decoder) && unchanged(decoder.session)
    {
      hide Decoder.Decoder.Ready, Decoder.Decoder.Fed, Decoder.Decoder.Refused;
      NothingRead();
      var data, start, k := Pull(decoder, wire, n);
      Rejoined(received, wire, k);
      inData, inPos, inSize, received, left := data, start, k, received + wire[..k], wire[k..];
    }

    lemma NothingRead()
      requires Valid() && !closed && inSize == 0
      ensures received == decoder.Fed()
    {
      hide Decoder.Decoder.Ready, Decoder.Decoder.Fed;
      assert decoder.Fed() + [] == decoder.Fed();
    }

    method Process()
      requires Loaded()
      modifies Repr()
      ensures Valid() && fresh(Repr() - old(Repr())) && received == old(received) && inSize <= old(inSize)
      ensures |decoder.session.answers| <= |old(decoder.session.answers)|
      ensures old(decoder.Refused()) && old(decoder.session.answers) != [] ==> |decoder.session.answers| < |old(decoder.session.answers)|
      ensures old(inSize) == 0 && !old(decoder.Refused()) ==> !decoder.Refused()
    {
      hide Decoder.Decoder.Ready, Decoder.Decoder.Fed;
      var r := Push(decoder, inData, inPos, inSize);
      if r.None? {
        closed := true;
      } else {
        inPos, inSize := inPos + r.value, inSize - r.value;
      }
    }
  }

  /** Has a decoder process `n` bytes: what it leaves is still there. */
  method Push(d: Decoder.Decoder, data: array<byte>, start: nat, n: nat) returns (r: Option<nat>)
    requires d.Ready() && start + n <= data.Length
    requires data == d.buf || (data == d.dest && start == d.readPos && n <= d.toRead)
    modifies d, d.tmpbuf, d.body, d.session
    ensures d.Ready() && (d.body == old(d.body) || fresh(d.body))
    ensures r.None? ==> d.next == Decoder.Dead && d.Fed() <= old(d.Fed() + data[start..start + n])
    ensures r.Some? ==> d.next != Decoder.Dead && r.value <= n && (r.value < n ==> data == d.buf && d.Refused())
    ensures |d.session.answers| <= |old(d.session.answers)|
    ensures old(d.Refused()) && old(d.session.answers) != [] ==> |d.session.answers| < |old(d.session.answers)|
    ensures n == 0 && old(d.next) != Decoder.Dead && !old(d.Refused()) ==> !d.Refused()
    ensures r.Some? ==> d.Fed() + data[start + r.value..start + n] == old(d.Fed() + data[start..start + n])
  {
    hide Decoder.Decoder.Ready, Decoder.Decoder.Fed;
    Wants(d);
    ghost var all := data[start..start + n];
    r := d.ProcessBuffer(data, start, n);
    if r.Some? {
      Rejoined(old(d.Fed()), all, r.value);
      assert data[start + r.value..start + n] == all[r.value..];
    }
  }

  function Least(a: nat, b: nat, c: nat): (m: nat)
    ensures m <= a && m <= b && m <= c && (m == a || m == b || m == c)
  {
    var m := if a < b then a else b;
    if m < c then m else c
  }

  lemma Wants(d: Decoder.Decoder)
    requires d.Ready()
    ensures d.next != Decoder.Dead && !d.Refused() ==> d.toRead > 0
  {
    hide Decoder.Decoder.Valid;
  }

  lemma Cut(a: bytes, s: bytes, at: nat, n: nat, m: nat)
    requires n <= m && at + m <= |s|
    ensures a + s[at..at + m] == a + s[at..at + n] + s[at + n..at + m]
  {
  }

  lemma Rejoined(a: bytes, b: bytes, k: nat)
    requires k <= |b|
    ensures a + b[..k] + b[k..] == a + b
  {
  }

  /** Reads up to `n` bytes to where the decoder asks for them. */
  method Pull(d: Decoder.Decoder, wire: bytes, n: nat) returns (data: array<byte>, start: nat, k: nat)
    requires d.Ready() && d.next != Decoder.Dead
    modifies d.buf, d.tmpbuf, d.body
    ensures d.Ready() && k <= n && k <= |wire| && start + k <= data.Length && data[start..start + k] == wire[..k]
    ensures data == d.buf || (data == d.dest && start == d.readPos && k <= d.toRead)
    ensures data == d.buf || data == d.tmpbuf || data == d.body
    ensures k == Least(n, |wire|, if d.toRead >= d.bufsize then d.toRead else d.bufsize)
  {
    hide Decoder.Decoder.Valid;
    var size;
    data, start, size := d.GetBuffer();
    k := if n < size then n else size;
    if |wire| < k { k := |wire|; }
    Fill(d, data, start, wire[..k]);
  }

  /** Bytes put into the buffer a decoder asked for do not disturb it. */
  method Fill(d: Decoder.Decoder, data: array<byte>, at: nat, piece: bytes)
    requires d.Ready() && d.next != Decoder.Dead && at + |piece| <= data.Length
    requires data == d.buf || (data == d.dest && at == d.readPos)
    modifies data
    ensures d.Ready() && data[at..at + |piece|] == piece
  {
    hide Parse, ReadHead, Decoder.Holds, Decoder.Session.Valid;
    Receive(data, at, piece);
  }

  /** What a socket does with the bytes it gives. */
  method Receive(data: array<byte>, at: nat, piece: bytes)
    requires at + |piece| <= data.Length
    modifies data
    ensures data[..at] == old(data[..at]) && data[at..at + |piece|] == piece
  {
    var i := 0;
    while i < |piece|
      invariant 0 <= i <= |piece| && data[..at] == old(data[..at]) && data[at..at + i] == piece[..i]
    {
      data[at + i] := piece[i];
      i := i + 1;
    }
  }

  // ---- Two engines and a stream ----

  /** The sending engine's session gets a message, its socket takes bytes, or the receiving
      one's gives some. */
  datatype Event = Submit(m: Msg) | Out(room: nat) | In(n: nat)

  function Submitted(events: seq<Event>): seq<Msg> {
    if events == [] then [] else (if events[0].Submit? then [events[0].m] else []) + Submitted(events[1..])
  }

  /** What the two engines and the stream between them keep. */
  ghost predicate Linked(o: Outbound, i: Inbound, wire: bytes, messages: seq<Msg>)
    reads o.Repr(), i.Repr()
  {
    && o.Valid() && i.Valid() && o.Repr() !! i.Repr() && o.encoder.bufsize > 0 && i.decoder.bufsize > 0
    && o.sent == i.received + wire
    && o.encoder.taken + o.encoder.session.queue == messages
  }

  /** Falls with every byte written, read or processed and with every answer of the session. */
  ghost function Rank(o: Outbound, i: Inbound, wire: bytes): int
    reads o, i, i.decoder.session
  {
    i.Rank(wire) - 3 * |o.sent|
  }

  /** Whether the event changed anything; nothing is idle but an engine that is done. */
  method Handle(o: Outbound, i: Inbound, wire: bytes, ghost messages: seq<Msg>, e: Event) returns (wire': bytes, moved: bool)
    requires Linked(o, i, wire, messages) && (e.Submit? ==> |e.m.body| + 1 < TOP)
    modifies o.Repr(), i.Repr()
    ensures Linked(o, i, wire', if e.Submit? then messages + [e.m] else messages)
    ensures fresh(o.Repr() - old(o.Repr())) && fresh(i.Repr() - old(i.Repr()))
    ensures Rank(o, i, wire') <= old(Rank(o, i, wire)) - if moved then 1 else 0
    ensures e.Out? && e.room > 0 && !moved ==> o.AllSent()
    ensures e.In? && e.n > 0 && !moved ==> i.closed || i.Idle(wire')
    ensures e.In? && old(o.AllSent()) ==> o.AllSent()
  {
    hide Outbound.Valid, Inbound.Valid, Outbound.AllSent, Inbound.Idle;
    match e
    case Submit(m) =>
      wire', moved := wire, false;
      o.Submit(m);
    case Out(room) =>
      var piece := o.OutEvent(room);
      wire', moved := wire + piece, piece != [];
      assert i.received + wire' == i.received + wire + piece;
    case In(n) =>
      var before := i.Rank(wire);
      wire' := i.InEvent(wire, n);
      moved := i.Rank(wire') < before;
  }

  ghost predicate Fit(messages: seq<Msg>, max: nat) {
    forall m :: m in messages ==> |m.body| <= max && |m.body| + 1 < TOP
  }

  /** At any time the session has taken a part of the messages, and the receiving engine has
      given up only if that session failed. Once both are idle it has taken all of them, or
      refused one with no answer left. */
  lemma LinkedMeans(o: Outbound, i: Inbound, wire: bytes, messages: seq<Msg>)
    requires Linked(o, i, wire, messages) && Fit(messages, i.decoder.maxmsgsize)
    ensures i.decoder.session.taken <= AllReceived(messages) && (i.closed ==> i.decoder.session.broken)
    ensures i.decoder.Refused() ==> |i.decoder.session.taken| < |messages|
    ensures !i.closed && o.AllSent() && i.Idle(wire) && !i.decoder.Refused() ==> i.decoder.session.taken == AllReceived(messages)
  {
    var e, d := o.encoder, i.decoder;
    assert d.Fed() <= i.received <= o.sent <= e.emitted;
    assert forall m :: m in e.taken ==> m in messages;
    hide Parse, Stream, Decoder.Session.Valid;
    Codec.EndToEnd(e, d);
    assert AllReceived(e.taken) <= AllReceived(messages);
  }

  lemma RankBound(o: Outbound, i: Inbound, wire: bytes, messages: seq<Msg>)
    requires Linked(o, i, wire, messages)
    ensures Rank(o, i, wire) + 3 * |Stream(messages)| >= 0
  {
    hide Parse, Inbound.Valid;
    assert o.sent <= o.encoder.emitted <= Stream(o.encoder.taken);
    hide Outbound.Valid;
    StreamLonger(o.encoder.taken, o.encoder.session.queue);
  }

  lemma {:induction false} StreamLonger(a: seq<Msg>, b: seq<Msg>)
    ensures |Stream(a)| <= |Stream(a + b)|
    decreases |b|
  {
    if b == [] {
      assert a + b == a;
    } else {
      var n := |b| - 1;
      StreamLonger(a, b[..n]);
      assert a + b == (a + b[..n]) + [b[n]];
      Encoder.StreamMore(a + b[..n], b[n]);
    }
  }

  method Connect(messages: seq<Msg>, outBufsize: nat, inBufsize: nat, max: nat, answers: seq<Decoder.Answer>)
    returns (o: Outbound, i: Inbound)
    requires Fit(messages, max) && outBufsize > 0 && inBufsize > 0
    ensures Linked(o, i, [], messages) && fresh(o.Repr()) && fresh(i.Repr()) && i.decoder.maxmsgsize == max
    ensures Rank(o, i, []) == |answers| && i.decoder.session.script == answers
  {
    hide Outbound.Valid, Inbound.Valid;
    o := new Outbound(outBufsize, messages);
    i := new Inbound(inBufsize, max, answers);
  }

  lemma NextSubmitted(messages: seq<Msg>, events: seq<Event>, max: nat)
    requires events != [] && Fit(Submitted(events), max)
    ensures events[0].Submit? ==> |events[0].m.body| + 1 < TOP
    ensures Fit(Submitted(events[1..]), max)
    ensures messages + Submitted(events) == (if events[0].Submit? then messages + [events[0].m] else messages) + Submitted(events[1..])
  {
    var rest := Submitted(events[1..]);
    assert forall m :: m in rest ==> m in Submitted(events);
    if events[0].Submit? {
      assert Submitted(events)[0] == events[0].m;
    } else {
      assert Submitted(events) == rest;
    }
  }

  /** Any events, of which `useful` changed something. */
  method Drive(o: Outbound, i: Inbound, wire: bytes, ghost messages: seq<Msg>, events: seq<Event>) returns (wire': bytes, useful: nat)
    requires Linked(o, i, wire, messages) && Fit(Submitted(events), i.decoder.maxmsgsize)
    modifies o.Repr(), i.Repr()
    ensures Linked(o, i, wire', messages + Submitted(events))
    ensures useful + Rank(o, i, wire') <= old(Rank(o, i, wire))
    decreases |events|
  {
    hide Linked, Rank, Stream, Outbound.Repr, Inbound.Repr, Outbound.AllSent, Inbound.Idle, Fit, Submitted;
    if events == [] {
      NoneSubmitted(messages);
      return wire, 0;
    }
    NextSubmitted(messages, events, i.decoder.maxmsgsize);
    var moved;
    wire', moved := Handle(o, i, wire, messages, events[0]);
    wire', useful := Drive(o, i, wire', if events[0].Submit? then messages + [events[0].m] else messages, events[1..]);
    if moved { useful := useful + 1; }
  }

  lemma NoneSubmitted(messages: seq<Msg>)
    ensures messages + Submitted([]) == messages
  {
  }

  /** Rounds of any sizes, until nothing moves. */
  method Settle(o: Outbound, i: Inbound, wire: bytes, ghost messages: seq<Msg>, sizes: nat -> nat, k: nat) returns (wire': bytes)
    requires Linked(o, i, wire, messages) && forall k :: sizes(k) > 0
    modifies o.Repr(), i.Repr()
    ensures Linked(o, i, wire', messages) && o.AllSent() && (i.closed || i.Idle(wire'))
    decreases Rank(o, i, wire) + 3 * |Stream(messages)|
  {
    hide Linked, Rank, Stream, Outbound.AllSent, Inbound.Idle, Outbound.Repr, Inbound.Repr;
    RankBound(o, i, wire, messages);
    var a, b;
    wire', a := Handle(o, i, wire, messages, Out(sizes(k)));
    wire', b := Handle(o, i, wire', messages, In(sizes(k + 1)));
    if a || b {
      RankBound(o, i, wire', messages);
      wire' := Settle(o, i, wire', messages, sizes, k + 2);
    }
  }

  /** Any events, and then rounds until nothing moves. */
  method Finish(o: Outbound, i: Inbound, wire: bytes, ghost messages: seq<Msg>, events: seq<Event>, sizes: nat -> nat) returns (wire': bytes)
    requires Linked(o, i, wire, messages) && Fit(Submitted(events), i.decoder.maxmsgsize) && forall k :: sizes(k) > 0
    modifies o.Repr(), i.Repr()
    ensures Linked(o, i, wire', messages + Submitted(events)) && o.AllSent() && (i.closed || i.Idle(wire'))
    decreases |events|
  {
    hide Linked, Rank, Stream, Outbound.Repr, Inbound.Repr, Outbound.AllSent, Inbound.Idle, Fit, Submitted;
    if events == [] {
      NoneSubmitted(messages);
      wire' := Settle(o, i, wire, messages, sizes, 0);
      return;
    }
    NextSubmitted(messages, events, i.decoder.maxmsgsize);
    var moved;
    wire', moved := Handle(o, i, wire, messages, events[0]);
    wire' := Finish(o, i, wire', if events[0].Submit? then messages + [events[0].m] else messages, events[1..], sizes);
  }

  /** Messages carried from one engine to another, whatever the sizes of the buffers, of
      what the sockets take and give, and whatever the receiving session answers. The events
      that do anything are bounded by the bytes to carry and the answers of the session. */
  method Transfer(messages: seq<Msg>, outBufsize: nat, inBufsize: nat, max: nat, answers: seq<Decoder.Answer>, events: seq<Event>)
    returns (o: Outbound, i: Inbound, wire: bytes, useful: nat)
    requires Fit(messages, max) && Fit(Submitted(events), max) && outBufsize > 0 && inBufsize > 0
    ensures var all := messages + Submitted(events);
      && Linked(o, i, wire, all) && useful <= 3 * |Stream(all)| + |answers|
      && i.decoder.session.taken <= AllReceived(all) && (i.closed ==> i.decoder.session.broken)
  {
    hide Linked, Rank, Stream, AllReceived, Outbound.Repr, Inbound.Repr, Outbound.AllSent, Inbound.Idle, Submitted;
    o, i := Connect(messages, outBufsize, inBufsize, max, answers);
    wire, useful := Drive(o, i, [], messages, events);
    RankBound(o, i, wire, messages + Submitted(events));
    LinkedMeans(o, i, wire, messages + Submitted(events));
  }

  /** And delivered: after any events, rounds of any sizes come to an end. If the session does
      not fail and accepts often enough, it has all the messages then; if it has not, it
      failed, or has used up its answers. */
  method Deliver(messages: seq<Msg>, outBufsize: nat, inBufsize: nat, max: nat, answers: seq<Decoder.Answer>,
                 events: seq<Event>, sizes: nat -> nat) returns (taken: seq<Part>)
    requires Fit(messages, max) && Fit(Submitted(events), max) && outBufsize > 0 && inBufsize > 0 && forall k :: sizes(k) > 0
    ensures var all := AllReceived(messages + Submitted(events));
      && taken <= all
      && (taken != all ==> Decoder.Fail in answers || |taken| == Decoder.Accepts(answers) < |all|)
  {
    hide Linked, Rank, Stream, AllReceived, Outbound.Repr, Inbound.Repr, Outbound.AllSent, Submitted;
    var o, i := Connect(messages, outBufsize, inBufsize, max, answers);
    var wire := Finish(o, i, [], messages, events, sizes);
    LinkedMeans(o, i, wire, messages + Submitted(events));
    Answered(o, i, wire, messages + Submitted(events));
    taken := i.decoder.session.taken;
  }

  /** What the session did is what it was asked to do. */
  lemma Answered(o: Outbound, i: Inbound, wire: bytes, messages: seq<Msg>)
    requires Linked(o, i, wire, messages)
    ensures var s := i.decoder.session;
      (s.broken ==> Decoder.Fail in s.script) && (s.answers == [] ==> |s.taken| == Decoder.Accepts(s.script))
    ensures |AllReceived(messages)| == |messages|
  {
    var s := i.decoder.session;
    if s.answers == [] { assert s.script[..|s.script|] == s.script; }
  }
}
