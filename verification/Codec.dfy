/** An encoder and a decoder at the two ends of a byte stream. */
module Codec {
  import opened Bytes
  import opened Frames
  import Encoder
  import Decoder

  /** Whatever buffers the encoder was given, however the bytes were cut up on their way
      and whichever messages the session refused: as long as the decoder has processed a
      part of what the encoder handed out, the session has taken a part of the messages
      sent, in order, with their bodies and `more` bits, and the decoder has met no error
      of its own. Once it has processed all and nothing is refused, the session has taken
      them all. */
  lemma EndToEnd(e: Encoder.Encoder, d: Decoder.Decoder)
    requires e.Valid() && d.Ready() && d.Fed() <= e.emitted
    requires forall m :: m in e.taken ==> |m.body| <= d.maxmsgsize
    ensures d.session.taken <= AllReceived(e.taken) && (d.next == Decoder.Dead ==> d.session.broken)
    ensures d.Refused() ==> |d.session.taken| < |e.taken|
    ensures d.Fed() == Stream(e.taken) && !d.Refused() && !d.session.broken ==> d.session.taken == AllReceived(e.taken)
  {
    hide Parse, Stream;
    assert e.emitted <= Stream(e.taken);
    d.TakenIsParsed();
    PrefixParses(d.before, e.taken, d.maxmsgsize);
    PrefixParses(d.Fed(), e.taken, d.maxmsgsize);
    if d.Fed() == Stream(e.taken) {
      RoundTrip(e.taken, d.maxmsgsize);
    }
  }
}
