// The frame format of the stream relay: one kind octet, a 32-bit big-endian payload length, and
// the payload. Half-close travels as a frame of its own.
module FrameCodec {
  import opened Bytes

  const FRAME_DATA: Byte := 0
  const FRAME_CLOSE_WRITE: Byte := 1
  const MAX_FRAME_PAYLOAD := 64 * 1024
  const HEADER_SIZE := 5

  datatype Frame = Frame(kind: Byte, payload: seq<Byte>) {
    predicate Fits() { |payload| <= MAX_FRAME_PAYLOAD }
  }

  const CloseFrame := Frame(FRAME_CLOSE_WRITE, [])

  function BigEndian32(n: nat): (b: seq<Byte>)
    requires n < 0x1_0000_0000
    ensures |b| == 4
  {
    [n / 256 / 256 / 256, n / 256 / 256 % 256, n / 256 % 256, n % 256]
  }

  function FromBigEndian32(b: seq<Byte>): (n: nat)
    requires |b| == 4
    ensures n < 0x1_0000_0000
  {
    ((b[0] as int * 256 + b[1]) * 256 + b[2]) * 256 + b[3]
  }

  lemma BigEndianRoundTrip(n: nat)
    requires n < 0x1_0000_0000
    ensures FromBigEndian32(BigEndian32(n)) == n
  {
    var high := n / 256 / 256;
    assert high == high / 256 * 256 + high % 256;
    assert n / 256 == high * 256 + n / 256 % 256;
    assert n == n / 256 * 256 + n % 256;
  }

  lemma BigEndianInverse(b: seq<Byte>)
    requires |b| == 4
    ensures BigEndian32(FromBigEndian32(b)) == b
  {
    var n := FromBigEndian32(b);
    assert n / 256 == (b[0] as int * 256 + b[1]) * 256 + b[2];
    assert n / 256 / 256 == b[0] as int * 256 + b[1];
  }

  function Header(f: Frame): (h: seq<Byte>)
    requires f.Fits()
    ensures |h| == HEADER_SIZE
  {
    [f.kind] + BigEndian32(|f.payload|)
  }

  function Encode(f: Frame): (s: seq<Byte>)
    requires f.Fits()
    ensures |s| == HEADER_SIZE + |f.payload|
  {
    Header(f) + f.payload
  }

  /** The wire format octet by octet: kind, length from the highest octet down, payload; at most 64 KiB. */
  lemma WireFormat(f: Frame)
    ensures f.Fits() <==> |f.payload| <= 65536
    ensures f.Fits() ==>
              var s := Encode(f);
              && |s| == 5 + |f.payload| && s[0] == f.kind && s[5..] == f.payload
              && 16777216 * s[1] as int + 65536 * s[2] as int + 256 * s[3] as int + s[4] as int == |f.payload|
    ensures Encode(CloseFrame) == [1, 0, 0, 0, 0] && Encode(Frame(FRAME_DATA, [7])) == [0, 0, 0, 0, 1, 7]
  {
    if f.Fits() {
      BigEndianRoundTrip(|f.payload|);
    }
  }

  /** What the first octets of a stream say: too few for a frame, a header whose length is over the
      limit, or a whole frame followed by the rest. */
  datatype Parsed = NeedMore | Oversized(size: nat) | Complete(frame: Frame, rest: seq<Byte>)

  function Parse(s: seq<Byte>): (p: Parsed)
    ensures p.Complete? ==> p.frame.Fits() && |p.rest| < |s|
  {
    if |s| < HEADER_SIZE then NeedMore
    else
      var size := FromBigEndian32(s[1..HEADER_SIZE]);
      if size > MAX_FRAME_PAYLOAD then Oversized(size)
      else if |s| < HEADER_SIZE + size then NeedMore
      else Complete(Frame(s[0], s[HEADER_SIZE..HEADER_SIZE + size]), s[HEADER_SIZE + size..])
  }

  /** Reading undoes writing, whatever follows the frame. */
  lemma ParseEncode(f: Frame, rest: seq<Byte>)
    requires f.Fits()
    ensures Parse(Encode(f) + rest) == Complete(f, rest)
  {
    var s := Encode(f) + rest;
    assert s[1..HEADER_SIZE] == BigEndian32(|f.payload|);
    BigEndianRoundTrip(|f.payload|);
    assert s[HEADER_SIZE..HEADER_SIZE + |f.payload|] == f.payload;
    assert s[HEADER_SIZE + |f.payload|..] == rest;
  }

  /** Writing undoes reading: a frame is only ever taken from its own encoding. */
  lemma EncodeParse(s: seq<Byte>)
    requires Parse(s).Complete?
    ensures s == Encode(Parse(s).frame) + Parse(s).rest
  {
    var p := Parse(s);
    BigEndianInverse(s[1..HEADER_SIZE]);
    assert s == [s[0]] + s[1..HEADER_SIZE] + s[HEADER_SIZE..HEADER_SIZE + |p.frame.payload|] + p.rest;
  }

  /** More input never changes a frame that was complete, nor a length that was too large. */
  lemma ParseExtends(s: seq<Byte>, more: seq<Byte>)
    ensures Parse(s).Complete? ==> Parse(s + more) == Complete(Parse(s).frame, Parse(s).rest + more)
    ensures Parse(s).Oversized? ==> Parse(s + more) == Parse(s)
  {
    if Parse(s).Complete? {
      EncodeParse(s);
      var f, rest := Parse(s).frame, Parse(s).rest;
      assert s + more == Encode(f) + (rest + more);
      ParseEncode(f, rest + more);
    } else if Parse(s).Oversized? {
      assert (s + more)[1..HEADER_SIZE] == s[1..HEADER_SIZE];
    }
  }

  /** A truncated frame is never mistaken for a frame. */
  lemma TruncatedNeedsMore(f: Frame, s: seq<Byte>)
    requires f.Fits()
    requires s < Encode(f)
    ensures Parse(s) == NeedMore
  {
    var tail := Encode(f)[|s|..];
    assert s + tail == Encode(f) == Encode(f) + [];
    ParseEncode(f, []);
    ParseExtends(s, tail);
  }

  function EncodeAll(frames: seq<Frame>): (s: seq<Byte>)
    requires forall f :: f in frames ==> f.Fits()
  {
    if frames == [] then [] else Encode(frames[0]) + EncodeAll(frames[1..])
  }

  /** The frames at the front of a stream, at most `n` of them, and what follows. */
  function ParseMany(s: seq<Byte>, n: nat): (r: (seq<Frame>, seq<Byte>))
    decreases n
  {
    if n == 0 then ([], s)
    else match Parse(s)
      case Complete(f, rest) =>
        var (fs, tail) := ParseMany(rest, n - 1);
        ([f] + fs, tail)
      case _ => ([], s)
  }

  lemma ParseManyFirst(s: seq<Byte>, n: nat, f: Frame, rest: seq<Byte>)
    requires n > 0 && Parse(s) == Complete(f, rest)
    ensures ParseMany(s, n) == ([f] + ParseMany(rest, n - 1).0, ParseMany(rest, n - 1).1)
  {
  }

  /** Reading as many frames as were written gives exactly those frames and leaves the rest alone. */
  lemma {:induction false} FramesRoundTrip(frames: seq<Frame>, rest: seq<Byte>)
    requires forall f :: f in frames ==> f.Fits()
    ensures ParseMany(EncodeAll(frames) + rest, |frames|) == (frames, rest)
    decreases |frames|
  {
    if frames == [] {
      assert EncodeAll(frames) + rest == rest;
    } else {
      hide Encode, Parse, ParseMany;
      var f, more := frames[0], frames[1..];
      var tail := EncodeAll(more) + rest;
      assert EncodeAll(frames) + rest == Encode(f) + tail;
      ParseEncode(f, tail);
      ParseManyFirst(Encode(f) + tail, |frames|, f, tail);
      FramesRoundTrip(more, rest);
      assert [f] + more == frames;
    }
  }

  // ---- What a receiver makes of a stream of frames ----

  /** `Open`: only data frames so far, `tail` is the start of the next frame. `Closed`: a close
      frame was reached, `tail` was not looked at. `Bad`: an unknown kind or an oversized length. */
  datatype Decoded =
    | Open(data: seq<Byte>, tail: seq<Byte>)
    | Closed(data: seq<Byte>, tail: seq<Byte>)
    | Bad(data: seq<Byte>)
  {
    function Prepend(d: seq<Byte>): Decoded {
      match this
      case Open(data, tail) => Open(d + data, tail)
      case Closed(data, tail) => Closed(d + data, tail)
      case Bad(data) => Bad(d + data)
    }
  }

  function Decode(s: seq<Byte>): (d: Decoded)
    decreases |s|
  {
    match Parse(s)
    case NeedMore => Open([], s)
    case Oversized(_) => Bad([])
    case Complete(f, rest) =>
      if f.kind == FRAME_DATA then Decode(rest).Prepend(f.payload)
      else if f.kind == FRAME_CLOSE_WRITE then Closed([], rest)
      else Bad([])
  }

  /** Fragmentation does not matter: what a receiver has made of `a` only needs its unfinished tail
      to go on with `b`; a receiver that has stopped does not look at `b`. */
  lemma {:induction false} DecodeSplit(a: seq<Byte>, b: seq<Byte>)
    ensures match Decode(a)
            case Open(d, t) => Decode(a + b) == Decode(t + b).Prepend(d)
            case Closed(d, t) => Decode(a + b) == Closed(d, t + b)
            case Bad(d) => Decode(a + b) == Bad(d)
    decreases |a|
  {
    ParseExtends(a, b);
    match Parse(a)
    case NeedMore =>
      assert Decode(a + b).Prepend([]) == Decode(a + b);
    case Oversized(_) =>
    case Complete(f, rest) =>
      if f.kind == FRAME_DATA {
        DecodeSplit(rest, b);
        if Decode(rest).Open? {
          var d, t := Decode(rest).data, Decode(rest).tail;
          PrependTwice(Decode(t + b), d, f.payload);
        }
      }
  }

  /** A receiver's view of a stream, given the frame at its front and what it had before it. */
  lemma DecodeFront(s: seq<Byte>, before: seq<Byte>)
    ensures match Parse(s)
            case NeedMore => Decode(s).Prepend(before) == Open(before, s)
            case Oversized(_) => Decode(s).Prepend(before) == Bad(before)
            case Complete(f, rest) =>
              if f.kind == FRAME_DATA then Decode(s).Prepend(before) == Decode(rest).Prepend(before + f.payload)
              else if f.kind == FRAME_CLOSE_WRITE then Decode(s).Prepend(before) == Closed(before, rest)
              else Decode(s).Prepend(before) == Bad(before)
  {
    assert before + [] == before;
    if Parse(s).Complete? {
      PrependTwice(Decode(Parse(s).rest), Parse(s).frame.payload, before);
    }
  }

  lemma PrependTwice(d: Decoded, inner: seq<Byte>, outer: seq<Byte>)
    ensures d.Prepend(inner).Prepend(outer) == d.Prepend(outer + inner)
  {
    assert outer + (inner + d.data) == outer + inner + d.data;
  }

  lemma DecodeNothing()
    ensures Decode([]) == Open([], [])
  {
  }

  lemma DecodeOneFrame(f: Frame)
    requires f.Fits()
    ensures f.kind == FRAME_DATA ==> Decode(Encode(f)) == Open(f.payload, [])
    ensures f.kind == FRAME_CLOSE_WRITE ==> Decode(Encode(f)) == Closed([], [])
  {
    assert Encode(f) + [] == Encode(f);
    ParseEncode(f, []);
    assert f.payload + [] == f.payload;
  }

  /** Writing one more frame after whole data frames. */
  lemma DecodeAppendFrame(s: seq<Byte>, f: Frame)
    requires f.Fits()
    requires Decode(s).Open? && Decode(s).tail == []
    ensures f.kind == FRAME_DATA ==> Decode(s + Encode(f)) == Open(Decode(s).data + f.payload, [])
    ensures f.kind == FRAME_CLOSE_WRITE ==> Decode(s + Encode(f)) == Closed(Decode(s).data, [])
  {
    DecodeSplit(s, Encode(f));
    assert [] + Encode(f) == Encode(f);
    DecodeOneFrame(f);
    assert Decode(s).data + [] == Decode(s).data;
  }

  /** A receiver never runs ahead of the stream: what it makes of a prefix is a prefix of what it
      makes of the whole, and only the whole decides how it ends. */
  lemma DecodePrefix(a: seq<Byte>, whole: seq<Byte>)
    requires a <= whole
    ensures Decode(a).data <= Decode(whole).data
    ensures !Decode(whole).Bad? ==> !Decode(a).Bad?
    ensures Decode(a).Closed? ==> Decode(whole) == Closed(Decode(a).data, Decode(a).tail + whole[|a|..])
  {
    assert whole == a + whole[|a|..];
    DecodeSplit(a, whole[|a|..]);
  }

  // ---- What the relay's workers promise ----

  /** What a sending worker promises when it ends: what it put on the transport decodes to a prefix of
      what it read. Unless a write went wrong that is all of it, closed exactly when the end was seen;
      and it succeeds exactly when the end was seen and no write went wrong. */
  predicate SendContract(read: seq<Byte>, sent: seq<Byte>, eof: bool, fault: bool, ok: bool) {
    && !Decode(sent).Bad? && Decode(sent).data <= read
    && (!fault ==> Decode(sent) == if eof then Closed(read, []) else Open(read, []))
    && (ok <==> eof && !fault)
  }

  /** What a receiving worker promises when it ends: it delivers a prefix of what the stream decodes
      to, all of it unless a write or the close went wrong; it closes the write side at most once and
      only after all of it; and it succeeds exactly when the stream is closed and nothing went wrong. */
  predicate DeliverContract(stream: seq<Byte>, delivered: seq<Byte>, closes: nat, fault: bool, ok: bool) {
    && delivered <= Decode(stream).data && closes <= 1
    && (!fault ==> delivered == Decode(stream).data && (closes == 1 <==> Decode(stream).Closed?))
    && (closes == 1 ==> Decode(stream).Closed? && delivered == Decode(stream).data)
    && (ok <==> Decode(stream).Closed? && !fault)
  }

  // ---- The Swift runner's codec ----

  /** One step of the fold the Swift reader uses on its 32-bit accumulator: shift left by eight,
      dropping what overflows, and or in the next octet. */
  function ShiftIn(acc: nat, b: Byte): (r: nat)
    requires acc < 0x1_0000_0000
    ensures r < 0x1_0000_0000
  {
    acc * 256 % 0x1_0000_0000 + b
  }

  function SwiftSize(h: seq<Byte>): (n: nat)
    requires |h| == HEADER_SIZE
    ensures n < 0x1_0000_0000
  {
    ShiftIn(ShiftIn(ShiftIn(ShiftIn(0, h[1]), h[2]), h[3]), h[4])
  }

  /** The Swift reader and the Go reader take the same length from every header. */
  lemma SwiftSizeAgrees(h: seq<Byte>)
    requires |h| == HEADER_SIZE
    ensures SwiftSize(h) == FromBigEndian32(h[1..HEADER_SIZE])
  {
    var a := ShiftIn(0, h[1]);
    var b := ShiftIn(a, h[2]);
    var c := ShiftIn(b, h[3]);
    assert a == h[1];
    assert b == h[1] as int * 256 + h[2];
    assert c == (h[1] as int * 256 + h[2]) * 256 + h[3] < 0x100_0000;
  }
}
