/** The framing format: what the encoder writes and, as a grammar over whole streams,
    what the decoder must make of any bytes. */
module Frames {
  import opened Bytes
  import opened Wire

  const ESCAPE: byte := 0xff
  const TOP: nat := 0x1_0000_0000_0000_0000

  /** A message to send; its flags have bit 0 for `more` and bit 7 for `shared`. */
  datatype Msg = Msg(body: bytes, flags: byte)

  /** A message as the decoder hands it on. */
  datatype Part = Part(body: bytes, more: bool)

  function Encoded64(v: nat): (b: bytes)
    ensures |b| == 8 && Digits(b, v)
  {
    seq(8, i requires 0 <= i < 8 => Digit(v, 7 - i))
  }

  /** The flags without `shared`. */
  function WireFlags(f: byte): byte {
    f % 128
  }

  function Header(m: Msg): bytes {
    var size := |m.body| + 1;
    if size < 255 then [size as byte, WireFlags(m.flags)]
    else [ESCAPE] + Encoded64(size) + [WireFlags(m.flags)]
  }

  /** What lies on the wire: the length of flags and body, in one byte or after an escape in
      eight, the flags without bit 7, the body. */
  lemma OnTheWire(m: Msg)
    requires |m.body| + 1 < TOP
    ensures var h, n := Header(m), |Header(m)|; var flags := h[n - 1];
      && (if |m.body| < 254 then n == 2 && h[0] as nat == |m.body| + 1
          else n == 10 && h[0] == 0xff && Value(h[1..9]) == |m.body| + 1)
      && flags < 128 && (m.flags == flags || m.flags as nat == flags as nat + 128)
      && Frame(m) == h + m.body
  {
    if |m.body| >= 254 {
      var size := |m.body| + 1;
      assert Header(m)[1..9] == Encoded64(size);
      Powers();
      DigitsValue(Encoded64(size), size);
    }
  }

  function Frame(m: Msg): bytes {
    Header(m) + m.body
  }

  function Stream(ms: seq<Msg>): bytes {
    if ms == [] then [] else Stream(ms[..|ms| - 1]) + Frame(ms[|ms| - 1])
  }

  function Received(m: Msg): Part {
    Part(m.body, m.flags % 2 == 1)
  }

  function AllReceived(ms: seq<Msg>): seq<Part> {
    seq(|ms|, i requires 0 <= i < |ms| => Received(ms[i]))
  }

  // ---- The grammar ----

  /** The length field at the start of `s`: not all there, inadmissible, or `at` bytes
      long for a body of `size` bytes. */
  datatype Head = Short | Wrong | Sized(at: nat, size: nat)

  function Sizing(n: nat, at: nat, max: nat): Head {
    if n == 0 || n - 1 > max then Wrong else Sized(at, n - 1)
  }

  function ReadHead(s: bytes, max: nat): Head {
    if s == [] then Short
    else if s[0] != ESCAPE then Sizing(s[0] as nat, 1, max)
    else if |s| < 9 then Short
    else Sizing(Value(s[1..9]), 9, max)
  }

  /** What is left over after the last whole message, or that the stream is bad. */
  datatype Tail = More(rest: bytes) | Bad

  datatype Parsed = Parsed(parts: seq<Part>, tail: Tail)

  function Parse(s: bytes, max: nat): Parsed
    decreases |s|
  {
    match ReadHead(s, max)
    case Short => Parsed([], More(s))
    case Wrong => Parsed([], Bad)
    case Sized(at, size) =>
      if |s| < at + 1 + size then Parsed([], More(s))
      else
        var p := Parse(s[at + 1 + size..], max);
        Parsed([Part(s[at + 1..at + 1 + size], s[at] % 2 == 1)] + p.parts, p.tail)
  }

  lemma HeadExtends(s: bytes, t: bytes, max: nat)
    requires ReadHead(s, max) != Short
    ensures ReadHead(s + t, max) == ReadHead(s, max)
  {
    if s[0] == ESCAPE { assert (s + t)[1..9] == s[1..9]; }
  }

  function Join(parts: seq<Part>, p: Parsed): Parsed {
    Parsed(parts + p.parts, p.tail)
  }

  /** The first whole message of a stream. */
  lemma ParseFirst(s: bytes, max: nat, at: nat, size: nat)
    requires ReadHead(s, max) == Sized(at, size) && |s| >= at + 1 + size
    ensures Parse(s, max) == Join([Part(s[at + 1..at + 1 + size], s[at] % 2 == 1)], Parse(s[at + 1 + size..], max))
  {
  }

  /** No whole message at the start of a stream. */
  predicate Partial(s: bytes, max: nat) {
    var h := ReadHead(s, max);
    h.Short? || (h.Sized? && |s| < h.at + 1 + h.size)
  }

  lemma ParseNone(s: bytes, max: nat)
    ensures Partial(s, max) ==> Parse(s, max) == Parsed([], More(s))
    ensures ReadHead(s, max).Wrong? ==> Parse(s, max) == Parsed([], Bad)
  {
  }

  /** A stream can be parsed piece by piece. */
  lemma {:induction false} ParseExtends(s: bytes, t: bytes, max: nat)
    ensures var p := Parse(s, max);
      Parse(s + t, max) == if p.tail.Bad? then p else Join(p.parts, Parse(p.tail.rest + t, max))
    decreases |s|
  {
    hide Parse, Join;
    ParseNone(s, max);
    var h := ReadHead(s, max);
    if Partial(s, max) {
      JoinNone(Parse(s + t, max));
    } else if h.Wrong? {
      HeadExtends(s, t, max);
      ParseNone(s + t, max);
    } else {
      var n := h.at + 1 + h.size;
      ParseExtends(s[n..], t, max);
      ParseExtendsFirst(s, t, max);
    }
  }

  lemma ParseExtendsFirst(s: bytes, t: bytes, max: nat)
    requires ReadHead(s, max).Sized? && !Partial(s, max)
    requires var h := ReadHead(s, max); var q := Parse(s[h.at + 1 + h.size..], max);
      Parse(s[h.at + 1 + h.size..] + t, max) == if q.tail.Bad? then q else Join(q.parts, Parse(q.tail.rest + t, max))
    ensures var p := Parse(s, max);
      Parse(s + t, max) == if p.tail.Bad? then p else Join(p.parts, Parse(p.tail.rest + t, max))
  {
    hide Parse, ReadHead, Join;
    HeadExtends(s, t, max);
    var Sized(at, size) := ReadHead(s, max);
    var n := at + 1 + size;
    Slices(s, t, at + 1, n);
    ParseFirst(s, max, at, size);
    ParseFirst(s + t, max, at, size);
    var q, x := Parse(s[n..], max), [Part(s[at + 1..n], s[at] % 2 == 1)];
    JoinFields(x, q);
    if q.tail.More? {
      JoinJoin(x, q.parts, Parse(q.tail.rest + t, max));
    }
  }

  lemma Slices(s: bytes, t: bytes, i: nat, n: nat)
    requires 0 < i <= n <= |s|
    ensures (s + t)[i..n] == s[i..n] && (s + t)[n..] == s[n..] + t && (s + t)[i - 1] == s[i - 1]
  {
  }

  lemma JoinFields(x: seq<Part>, p: Parsed)
    ensures Join(x, p).tail == p.tail && Join(x, p).parts == x + p.parts
  {
  }

  lemma JoinJoin(x: seq<Part>, y: seq<Part>, p: Parsed)
    ensures Join(x, Join(y, p)) == Join(x + y, p)
  {
    assert x + (y + p.parts) == x + y + p.parts;
  }

  lemma JoinNone(p: Parsed)
    ensures Join([], p) == p
  {
    assert [] + p.parts == p.parts;
  }

  // ---- Round trip ----

  predicate Fits(m: Msg, max: nat) {
    |m.body| <= max && |m.body| + 1 < TOP
  }

  lemma HeaderReads(m: Msg, t: bytes, max: nat)
    requires Fits(m, max)
    ensures ReadHead(Header(m) + t, max) == Sized(|Header(m)| - 1, |m.body|)
    ensures Header(m)[|Header(m)| - 1] == WireFlags(m.flags)
  {
    var h, size := Header(m), |m.body| + 1;
    if size >= 255 {
      assert (h + t)[1..9] == Encoded64(size);
      Powers();
      DigitsValue(Encoded64(size), size);
    }
  }

  lemma FrameParses(m: Msg, t: bytes, max: nat)
    requires Fits(m, max)
    ensures Parse(Frame(m) + t, max) == Join([Received(m)], Parse(t, max))
  {
    hide Parse, Header, ReadHead, Fits;
    var h := Header(m);
    HeaderReads(m, m.body + t, max);
    var s := Frame(m) + t;
    FrameSlices(h, m.body, t);
    ParseFirst(s, max, |h| - 1, |m.body|);
  }

  lemma FrameSlices(h: bytes, b: bytes, t: bytes)
    ensures h + b + t == h + (b + t)
    ensures (h + b + t)[|h|..|h| + |b|] == b && (h + b + t)[|h| + |b|..] == t
    ensures h != [] ==> (h + b + t)[|h| - 1] == h[|h| - 1]
  {
  }

  lemma ParseEmpty(max: nat)
    ensures Parse([], max) == Parsed([], More([]))
  {
  }

  /** The decoder's grammar undoes the encoder's format for every list of messages. */
  lemma {:induction false} RoundTrip(ms: seq<Msg>, max: nat)
    requires forall m :: m in ms ==> Fits(m, max)
    ensures Parse(Stream(ms), max) == Parsed(AllReceived(ms), More([]))
  {
    hide Parse, Frame, Fits;
    ParseEmpty(max);
    if ms != [] {
      var n := |ms| - 1;
      RoundTrip(ms[..n], max);
      OneMore(Stream(ms[..n]), ms[n], max);
      assert AllReceived(ms) == AllReceived(ms[..n]) + [Received(ms[n])];
    }
  }

  lemma OneMore(s: bytes, m: Msg, max: nat)
    requires Fits(m, max) && Parse(s, max).tail == More([])
    ensures Parse(s + Frame(m), max) == Parsed(Parse(s, max).parts + [Received(m)], More([]))
  {
    hide Parse, Frame, Fits;
    ParseExtends(s, Frame(m), max);
    FrameParses(m, [], max);
    ParseEmpty(max);
    assert Frame(m) + [] == Frame(m) && [] + Frame(m) == Frame(m);
  }

  /** After any part of the stream, a part of the messages is there and nothing else. */
  lemma PrefixParses(s: bytes, ms: seq<Msg>, max: nat)
    requires s <= Stream(ms) && forall m :: m in ms ==> Fits(m, max)
    ensures var p := Parse(s, max); p.parts <= AllReceived(ms) && p.tail.More?
  {
    var t := Stream(ms)[|s|..];
    assert s + t == Stream(ms);
    RoundTrip(ms, max);
    ParseExtends(s, t, max);
  }
}
