// The loops that move bytes over one connection: reading and writing in full, one frame at a
// time, and the two copy workers of the framed relay.
module StreamWorkers {
  import opened Bytes
  import opened FrameCodec

  datatype Ending = AtEof | AtFault

  /** What one write call does: it accepts some octets and returns with or without an error. */
  datatype WriteOutcome = Accepted(n: nat) | Failed(n: nat)

  datatype WriteRun = WriteRun(accepted: nat, ok: bool, rest: seq<WriteOutcome>)

  /** What a loop of writes comes to when `remaining` octets are left. The Go loop reports a write
      that accepts nothing as an error; the Swift loop returns without one. */
  function RunWrites(outcomes: seq<WriteOutcome>, remaining: nat, emptyWriteIsError: bool): (r: WriteRun)
    ensures r.accepted <= remaining
    decreases |outcomes|
  {
    if remaining == 0 then WriteRun(0, true, outcomes)
    else if outcomes == [] then WriteRun(0, false, [])
    else match outcomes[0]
      case Failed(n) => WriteRun(Min(n, remaining), false, outcomes[1..])
      case Accepted(n) =>
        if n == 0 then WriteRun(0, !emptyWriteIsError, outcomes[1..])
        else
          var now := Min(n, remaining);
          var later := RunWrites(outcomes[1..], remaining - now, emptyWriteIsError);
          WriteRun(now + later.accepted, later.ok, later.rest)
  }

  /** When the Go loop says success every octet was accepted. */
  lemma {:induction false} GoWritesAllOrFails(outcomes: seq<WriteOutcome>, remaining: nat)
    ensures RunWrites(outcomes, remaining, true).ok ==> RunWrites(outcomes, remaining, true).accepted == remaining
    decreases |outcomes|
  {
    if remaining != 0 && outcomes != [] && outcomes[0].Accepted? && outcomes[0].n != 0 {
      GoWritesAllOrFails(outcomes[1..], remaining - Min(outcomes[0].n, remaining));
    }
  }

  /** A write that makes progress. */
  predicate Progress(o: WriteOutcome) { o.Accepted? && 0 < o.n }

  /** A transport on which every write makes progress, often enough, takes everything. */
  lemma {:induction false} ProgressIsEnough(outcomes: seq<WriteOutcome>, remaining: nat)
    requires remaining <= |outcomes| && forall o :: o in outcomes ==> Progress(o)
    ensures var run := RunWrites(outcomes, remaining, true);
            && run.ok && |outcomes| - remaining <= |run.rest|
            && forall o :: o in run.rest ==> Progress(o)
    decreases |outcomes|
  {
    if remaining != 0 {
      assert Progress(outcomes[0]);
      ProgressIsEnough(outcomes[1..], remaining - Min(outcomes[0].n, remaining));
    }
  }

  /** The two loops accept the same octets from every transport; only about success they disagree. */
  lemma {:induction false} SwiftWritesLikeGo(outcomes: seq<WriteOutcome>, remaining: nat)
    ensures var swift := RunWrites(outcomes, remaining, false);
            var go := RunWrites(outcomes, remaining, true);
            && swift.accepted == go.accepted
            && swift.rest == go.rest
            && (go.ok ==> swift.ok)
            && (swift.ok ==> (go.ok <==> swift.accepted == remaining))
    decreases |outcomes|
  {
    GoWritesAllOrFails(outcomes, remaining);
    if remaining != 0 && outcomes != [] && outcomes[0].Accepted? && outcomes[0].n != 0 {
      SwiftWritesLikeGo(outcomes[1..], remaining - Min(outcomes[0].n, remaining));
    }
  }

  function Total(outcomes: seq<WriteOutcome>): nat {
    if outcomes == [] then 0 else outcomes[0].n + Total(outcomes[1..])
  }

  /** Write `k` is the first to accept nothing, after writes that accepted something and were not
      enough. */
  ghost predicate EmptyWriteAt(outcomes: seq<WriteOutcome>, remaining: nat, k: nat) {
    && k < |outcomes| && outcomes[k] == Accepted(0)
    && (forall j :: 0 <= j < k ==> outcomes[j].Accepted? && 0 < outcomes[j].n)
    && Total(outcomes[..k]) < remaining
  }

  ghost predicate StopsEarly(outcomes: seq<WriteOutcome>, remaining: nat) {
    exists k :: EmptyWriteAt(outcomes, remaining, k)
  }

  lemma LaterEmptyWrite(outcomes: seq<WriteOutcome>, remaining: nat, k: nat)
    requires outcomes != [] && outcomes[0].Accepted? && 0 < outcomes[0].n
    ensures var now := Min(outcomes[0].n, remaining);
            EmptyWriteAt(outcomes, remaining, k + 1) <==> EmptyWriteAt(outcomes[1..], remaining - now, k)
  {
    if k + 1 < |outcomes| {
      assert outcomes[..k + 1][1..] == outcomes[1..][..k];
      assert Total(outcomes[..k + 1]) == outcomes[0].n + Total(outcomes[1..][..k]);
      assert outcomes[1..][k] == outcomes[k + 1];
      assert (forall j :: 0 <= j < k + 1 ==> outcomes[j].Accepted? && 0 < outcomes[j].n)
          <==> (forall j :: 0 <= j < k ==> outcomes[1..][j].Accepted? && 0 < outcomes[1..][j].n) by {
        assert forall j :: 0 <= j < k ==> outcomes[1..][j] == outcomes[j + 1];
        assert forall j :: 0 < j < k + 1 ==> outcomes[j] == outcomes[1..][j - 1];
      }
    }
  }

  lemma StopsEarlyLater(outcomes: seq<WriteOutcome>, remaining: nat)
    requires outcomes != [] && outcomes[0].Accepted? && 0 < outcomes[0].n
    ensures StopsEarly(outcomes, remaining) <==> StopsEarly(outcomes[1..], remaining - Min(outcomes[0].n, remaining))
  {
    var now := Min(outcomes[0].n, remaining);
    if StopsEarly(outcomes, remaining) {
      var k: nat :| EmptyWriteAt(outcomes, remaining, k);
      LaterEmptyWrite(outcomes, remaining, k - 1);
    }
    if StopsEarly(outcomes[1..], remaining - now) {
      var k: nat :| EmptyWriteAt(outcomes[1..], remaining - now, k);
      LaterEmptyWrite(outcomes, remaining, k);
    }
  }

  /** What success of the Swift loop is worth: it means that every octet was accepted exactly unless
      the transport answers some write with nothing before it has taken them all. */
  lemma {:induction false} SwiftSuccessMeansAllIff(outcomes: seq<WriteOutcome>, remaining: nat)
    ensures var run := RunWrites(outcomes, remaining, false);
            (run.ok ==> run.accepted == remaining) <==> !StopsEarly(outcomes, remaining)
    decreases |outcomes|
  {
    if remaining != 0 && outcomes != [] {
      if outcomes[0] == Accepted(0) {
        assert EmptyWriteAt(outcomes, remaining, 0);
      } else if outcomes[0].Accepted? {
        StopsEarlyLater(outcomes, remaining);
        SwiftSuccessMeansAllIff(outcomes[1..], remaining - Min(outcomes[0].n, remaining));
      }
    }
  }

  /** A transport on which the Swift loop reports success with half of the octets written. */
  lemma SwiftShortWriteIsSilent()
    ensures RunWrites([Accepted(1), Accepted(0)], 2, false) == WriteRun(1, true, [])
    ensures RunWrites([Accepted(1), Accepted(0)], 2, true) == WriteRun(1, false, [])
  {
    assert RunWrites([Accepted(0)], 1, false) == WriteRun(0, true, []);
    assert RunWrites([Accepted(0)], 1, true) == WriteRun(0, false, []);
    assert [Accepted(1), Accepted(0)][1..] == [Accepted(0)];
  }

  /** One end of a byte stream. `unread` is everything that will still arrive before the stream
      ends the way `ending` says; how reads cut it up is left open. */
  class Conn {
    var unread: seq<Byte>
    var ending: Ending
    var outcomes: seq<WriteOutcome>
    var written: seq<Byte>
    /** Whether the write side can be closed alone, and how often that was asked. */
    const closable: bool
    var closeWrites: nat
    /** Writes that failed or took nothing, and closes of the write side that failed. */
    var faults: nat

    constructor (unread: seq<Byte>, ending: Ending, outcomes: seq<WriteOutcome>, closable: bool)
      ensures this.unread == unread && this.ending == ending && this.outcomes == outcomes && this.closable == closable
      ensures written == [] && closeWrites == 0 && faults == 0
    {
      this.unread, this.ending, this.outcomes, this.closable := unread, ending, outcomes, closable;
      written, closeWrites, faults := [], 0, 0;
    }

    method Read(max: nat) returns (chunk: seq<Byte>, status: ReadStatus)
      requires 0 < max
      modifies this`unread
      ensures old(unread) == chunk + unread && |chunk| <= max
      ensures status.Good? ==> chunk != []
      ensures !status.Good? ==> unread == [] && (status.Eof? <==> ending.AtEof?)
    {
      var n: nat := 0;
      if unread != [] {
        n :| 0 < n <= max && n <= |unread|;
      }
      chunk, unread := unread[..n], unread[n..];
      status := Good;
      if unread == [] {
        // The end may come with the last octets or only after them.
        var together: bool := *;
        if chunk == [] || together {
          status := if ending.AtEof? then Eof else Fault;
        }
      }
    }

    method Write(buffer: seq<Byte>) returns (n: nat, ok: bool)
      requires buffer != []
      modifies this`outcomes, this`written, this`faults
      ensures n <= |buffer| && written == old(written) + buffer[..n]
      ensures if old(outcomes) == [] then n == 0 && !ok && outcomes == []
              else n == Min(old(outcomes)[0].n, |buffer|) && ok == old(outcomes)[0].Accepted? && outcomes == old(outcomes)[1..]
      ensures faults == if ok && n != 0 then old(faults) else old(faults) + 1
    {
      if outcomes == [] {
        n, ok := 0, false;
      } else {
        n, ok := Min(outcomes[0].n, |buffer|), outcomes[0].Accepted?;
        outcomes := outcomes[1..];
      }
      written := written + buffer[..n];
      if !ok || n == 0 {
        faults := faults + 1;
      }
    }

    method CloseWrite() returns (ok: bool)
      modifies this`closeWrites, this`faults
      ensures closeWrites == old(closeWrites) + 1 && ok == closable
      ensures faults == if ok then old(faults) else old(faults) + 1
    {
      closeWrites, ok := closeWrites + 1, closable;
      if !ok {
        faults := faults + 1;
      }
    }
  }

  /** What the next write call does to the run. */
  lemma OneWrite(outcomes: seq<WriteOutcome>, remaining: nat, emptyWriteIsError: bool)
    ensures var run := RunWrites(outcomes, remaining, emptyWriteIsError);
            if remaining == 0 then run == WriteRun(0, true, outcomes)
            else if outcomes == [] then run == WriteRun(0, false, [])
            else
              var n := Min(outcomes[0].n, remaining);
              if outcomes[0].Failed? || outcomes[0].n == 0 then
                run == WriteRun(n, outcomes[0].Accepted? && !emptyWriteIsError, outcomes[1..])
              else
                var later := RunWrites(outcomes[1..], remaining - n, emptyWriteIsError);
                run == WriteRun(n + later.accepted, later.ok, later.rest)
  {
  }

  lemma SentMore<T>(before: seq<T>, sent: seq<T>, rest: seq<T>, n: nat)
    requires n <= |rest|
    ensures before + sent + rest[..n] == before + (sent + rest[..n])
    ensures sent + rest[..n] + rest[n..] == sent + rest
  {
  }

  method WriteFull(w: Conn, buffer: seq<Byte>) returns (ok: bool)
    modifies w`outcomes, w`written, w`faults
    ensures var run := RunWrites(old(w.outcomes), |buffer|, true);
            ok == run.ok && w.outcomes == run.rest && w.written == old(w.written) + buffer[..run.accepted]
    ensures old(w.faults) <= w.faults && (ok <==> w.faults == old(w.faults))
  {
    hide RunWrites;
    ok := true;
    var rest := buffer;
    ghost var sent := [];
    while 0 < |rest|
      invariant w.faults == old(w.faults)
      invariant sent + rest == buffer && w.written == old(w.written) + sent
      invariant var all := RunWrites(old(w.outcomes), |buffer|, true);
                var left := RunWrites(w.outcomes, |rest|, true);
                all == WriteRun(|sent| + left.accepted, left.ok, left.rest)
      decreases |rest|
    {
      OneWrite(w.outcomes, |rest|, true);
      var n, good := w.Write(rest);
      SentMore(old(w.written), sent, rest, n);
      sent, rest := sent + rest[..n], rest[n..];
      if !good || n == 0 {
        ok := false;
        assert sent == buffer[..|sent|];
        return;
      }
    }
    OneWrite(w.outcomes, 0, true);
    assert sent == buffer && buffer[..|sent|] == sent;
  }

  lemma TakeMore<T>(s: seq<T>, offset: nat, n: nat)
    requires offset + n <= |s|
    ensures s[..offset] + s[offset..][..n] == s[..offset + n]
  {
  }

  /** The Swift loop: an empty write ends it without an error. */
  method SwiftWriteFull(w: Conn, buffer: seq<Byte>) returns (ok: bool)
    modifies w`outcomes, w`written, w`faults
    ensures var run := RunWrites(old(w.outcomes), |buffer|, false);
            ok == run.ok && w.outcomes == run.rest && w.written == old(w.written) + buffer[..run.accepted]
  {
    hide RunWrites;
    ok := true;
    var offset: nat := 0;
    while offset < |buffer|
      invariant offset <= |buffer| && w.written == old(w.written) + buffer[..offset]
      invariant var all := RunWrites(old(w.outcomes), |buffer|, false);
                var left := RunWrites(w.outcomes, |buffer| - offset, false);
                all == WriteRun(offset + left.accepted, left.ok, left.rest)
      decreases |buffer| - offset
    {
      OneWrite(w.outcomes, |buffer| - offset, false);
      var rest := buffer[offset..];
      var n, good := w.Write(rest);
      TakeMore(buffer, offset, n);
      offset := offset + n;
      if !good {
        ok := false;
        return;
      }
      if n == 0 {
        return;
      }
    }
    OneWrite(w.outcomes, 0, false);
  }

  method ReadFull(r: Conn, n: nat) returns (data: seq<Byte>, ok: bool)
    modifies r`unread
    ensures ok <==> n <= |old(r.unread)|
    ensures ok ==> |data| == n && old(r.unread) == data + r.unread
    ensures !ok ==> r.unread == []
  {
    data, ok := [], true;
    while |data| < n
      invariant |data| <= n && old(r.unread) == data + r.unread
      decreases n - |data|
    {
      var chunk, status := r.Read(n - |data|);
      data := data + chunk;
      if !status.Good? && |data| < n {
        ok := false;
        return;
      }
    }
  }

  /** One frame: header, then payload. Everything that reaches the transport is a prefix of the
      frame's encoding, all of it exactly when no write failed or took nothing. */
  method WriteFrame(w: Conn, f: Frame) returns (ok: bool)
    modifies w`outcomes, w`written, w`faults
    ensures ok ==> f.Fits() && w.written == old(w.written) + Encode(f)
    ensures !f.Fits() ==> !ok && w.written == old(w.written) && w.faults == old(w.faults)
    ensures f.Fits() ==> old(w.written) <= w.written <= old(w.written) + Encode(f)
    ensures f.Fits() ==> old(w.faults) <= w.faults && (ok <==> w.faults == old(w.faults))
    ensures f.Fits() && TakesAll(old(w.outcomes), |Encode(f)|) ==>
              ok && forall n: nat :: TakesAll(old(w.outcomes), |Encode(f)| + n) ==> TakesAll(w.outcomes, n)
  {
    if |f.payload| > MAX_FRAME_PAYLOAD {
      return false;
    }
    GoWritesAllOrFails(w.outcomes, HEADER_SIZE);
    StillTakesAll(w.outcomes, HEADER_SIZE);
    ok := WriteFull(w, Header(f));
    assert old(w.written) + Encode(f) == old(w.written) + Header(f) + f.payload;
    if !ok {
      return;
    }
    if f.payload == [] {
      return;
    }
    GoWritesAllOrFails(w.outcomes, |f.payload|);
    StillTakesAll(w.outcomes, |f.payload|);
    ok := WriteFull(w, f.payload);
  }

  /** Every write makes progress, and there are enough of them for so many octets. */
  predicate TakesAll(outcomes: seq<WriteOutcome>, octets: nat) {
    octets <= |outcomes| && forall o :: o in outcomes ==> Progress(o)
  }

  lemma StillTakesAll(outcomes: seq<WriteOutcome>, octets: nat)
    ensures TakesAll(outcomes, octets) ==> RunWrites(outcomes, octets, true).ok
    ensures forall n: nat :: TakesAll(outcomes, octets + n) ==> TakesAll(RunWrites(outcomes, octets, true).rest, n)
  {
    if TakesAll(outcomes, octets) {
      ProgressIsEnough(outcomes, octets);
    }
  }

  /** The Swift writer. An error ends it, but a short header goes unnoticed and the payload follows. When
      it reports success the encoding of the frame is out exactly if neither of its two writes was
      stopped early by a transport that accepted nothing. */
  method SwiftWriteFrame(w: Conn, f: Frame) returns (ok: bool)
    modifies w`outcomes, w`written, w`faults
    ensures !f.Fits() ==> !ok && w.written == old(w.written) && w.outcomes == old(w.outcomes)
    ensures f.Fits() ==>
              var header := RunWrites(old(w.outcomes), HEADER_SIZE, false);
              var payload := RunWrites(header.rest, |f.payload|, false);
              if !header.ok then !ok && w.written == old(w.written) + Header(f)[..header.accepted]
              else ok == payload.ok && w.written == old(w.written) + (Header(f)[..header.accepted] + f.payload[..payload.accepted])
    ensures f.Fits() && ok ==>
              (w.written == old(w.written) + Encode(f)
               <==> !StopsEarly(old(w.outcomes), HEADER_SIZE)
                    && !StopsEarly(RunWrites(old(w.outcomes), HEADER_SIZE, false).rest, |f.payload|))
  {
    hide RunWrites, StopsEarly;
    if |f.payload| > MAX_FRAME_PAYLOAD {
      return false;
    }
    SwiftSuccessMeansAllIff(w.outcomes, HEADER_SIZE);
    ghost var before, header := w.written, RunWrites(w.outcomes, HEADER_SIZE, false);
    ok := SwiftWriteFull(w, Header(f));
    if !ok {
      return;
    }
    SwiftSuccessMeansAllIff(w.outcomes, |f.payload|);
    ghost var payload := RunWrites(w.outcomes, |f.payload|, false);
    if f.payload == [] {
      NothingToWrite(w.outcomes);
      ShortIsNotWhole(before, Header(f), f.payload, header.accepted, payload.accepted, w.written);
      return;
    }
    ok := SwiftWriteFull(w, f.payload);
    ShortIsNotWhole(before, Header(f), f.payload, header.accepted, payload.accepted, w.written);
  }

  lemma NothingToWrite(outcomes: seq<WriteOutcome>)
    ensures RunWrites(outcomes, 0, false) == WriteRun(0, true, outcomes)
  {
  }

  lemma ShortIsNotWhole(before: seq<Byte>, header: seq<Byte>, payload: seq<Byte>, h: nat, p: nat, now: seq<Byte>)
    requires h <= |header| && p <= |payload| && now == before + header[..h] + payload[..p]
    ensures now == before + (header[..h] + payload[..p])
    ensures now == before + (header + payload) <==> h == |header| && p == |payload|
  {
    if h == |header| && p == |payload| {
      assert header[..h] == header && payload[..p] == payload;
    } else {
      assert |now| == |before| + h + p < |before + (header + payload)|;
    }
  }

  /** Such a success desynchronises the stream: the frame after it is read as the rest of its payload,
      and octets are delivered that nobody sent. */
  lemma ShortPayloadDesynchronises()
    ensures var short := Header(Frame(FRAME_DATA, [1, 2])) + [1];
            Decode(short + Encode(Frame(FRAME_DATA, [7]))).data == [1, 0]
  {
    hide Decode;
    var first, second := Frame(FRAME_DATA, [1, 2]), Frame(FRAME_DATA, [7]);
    var stream := Header(first) + [1] + Encode(second);
    var bogus, rest := Frame(FRAME_DATA, [1, 0]), [0, 0, 0, 1, 7];
    assert stream == [0, 0, 0, 0, 2, 1, 0, 0, 0, 0, 1, 7];
    assert stream == Encode(bogus) + rest;
    ParseEncode(bogus, rest);
    DecodeFront(stream, []);
    DecodeFront(rest, [1, 0]);
    assert [] + Decode(stream).data == Decode(stream).data;
    assert FromBigEndian32(rest[1..HEADER_SIZE]) == 263;
  }

  lemma TooShort(s: seq<Byte>)
    requires |s| < HEADER_SIZE
    ensures Parse(s).NeedMore?
  {
  }

  /** What the header says about the stream it begins. */
  lemma HeaderDecides(s: seq<Byte>, header: seq<Byte>, rest: seq<Byte>)
    requires |header| == HEADER_SIZE && s == header + rest
    ensures var size := FromBigEndian32(header[1..]);
            && rest == s[HEADER_SIZE..]
            && (size > MAX_FRAME_PAYLOAD ==> Parse(s).Oversized?)
            && (size <= MAX_FRAME_PAYLOAD && |rest| < size ==> Parse(s).NeedMore?)
  {
    assert s[1..HEADER_SIZE] == header[1..];
  }

  lemma PayloadCompletes(s: seq<Byte>, header: seq<Byte>, payload: seq<Byte>, rest: seq<Byte>)
    requires |header| == HEADER_SIZE && s == header + (payload + rest)
    requires |payload| == FromBigEndian32(header[1..]) <= MAX_FRAME_PAYLOAD
    ensures Parse(s) == Complete(Frame(header[0], payload), rest)
  {
    assert s[1..HEADER_SIZE] == header[1..];
    assert s[HEADER_SIZE..HEADER_SIZE + |payload|] == payload && s[HEADER_SIZE + |payload|..] == rest;
  }

  datatype FrameRead = Got(frame: Frame) | ReadError

  /** One frame from the stream, however it is fragmented: exactly the frame at the front of what
      will arrive. An oversized length is refused after the header; a truncated frame is an error. */
  method ReadFrame(r: Conn) returns (result: FrameRead)
    modifies r`unread
    ensures match Parse(old(r.unread))
            case Complete(f, rest) => result == Got(f) && r.unread == rest
            case Oversized(_) => result.ReadError? && r.unread == old(r.unread)[HEADER_SIZE..]
            case NeedMore => result.ReadError? && r.unread == []
  {
    hide Parse;
    ghost var s := r.unread;
    if |s| < HEADER_SIZE {
      TooShort(s);
    }
    var header, ok := ReadFull(r, HEADER_SIZE);
    if !ok {
      return ReadError;
    }
    HeaderDecides(s, header, r.unread);
    var size := FromBigEndian32(header[1..]);
    if size > MAX_FRAME_PAYLOAD {
      return ReadError;
    }
    var payload := [];
    if size > 0 {
      payload, ok := ReadFull(r, size);
      if !ok {
        return ReadError;
      }
    }
    PayloadCompletes(s, header, payload, r.unread);
    return Got(Frame(header[0], payload));
  }

  method SwiftFold(header: seq<Byte>) returns (size: nat)
    requires |header| == HEADER_SIZE
    ensures size == SwiftSize(header)
  {
    size := 0;
    for i := 1 to HEADER_SIZE
      invariant 0 <= size < 0x1_0000_0000
      invariant i == 1 ==> size == 0
      invariant i == 2 ==> size == ShiftIn(0, header[1])
      invariant i == 3 ==> size == ShiftIn(ShiftIn(0, header[1]), header[2])
      invariant i == 4 ==> size == ShiftIn(ShiftIn(ShiftIn(0, header[1]), header[2]), header[3])
      invariant i == 5 ==> size == SwiftSize(header)
    {
      size := ShiftIn(size, header[i]);
    }
  }

  /** The Swift reader, whose length is folded octet by octet, meets the same contract. */
  method SwiftReadFrame(r: Conn) returns (result: FrameRead)
    modifies r`unread
    ensures match Parse(old(r.unread))
            case Complete(f, rest) => result == Got(f) && r.unread == rest
            case Oversized(_) => result.ReadError? && r.unread == old(r.unread)[HEADER_SIZE..]
            case NeedMore => result.ReadError? && r.unread == []
  {
    hide Parse;
    ghost var s := r.unread;
    if |s| < HEADER_SIZE {
      TooShort(s);
    }
    var header, ok := ReadFull(r, HEADER_SIZE);
    if !ok {
      return ReadError;
    }
    HeaderDecides(s, header, r.unread);
    var size := SwiftFold(header);
    SwiftSizeAgrees(header);
    if size > MAX_FRAME_PAYLOAD {
      return ReadError;
    }
    var payload := [];
    if size > 0 {
      payload, ok := ReadFull(r, size);
      if !ok {
        return ReadError;
      }
    }
    PayloadCompletes(s, header, payload, r.unread);
    return Got(Frame(header[0], payload));
  }

  /** What a worker has put on the transport while it writes one more frame decodes to a prefix of
      the data so far, that frame's included. */
  lemma FrameInProgress(before: seq<Byte>, sent: seq<Byte>, f: Frame, now: seq<Byte>)
    requires f.Fits() && (f.kind == FRAME_DATA || f == CloseFrame)
    requires Decode(sent).Open? && Decode(sent).tail == []
    requires before + sent <= now <= before + sent + Encode(f)
    ensures !Decode(now[|before|..]).Bad?
    ensures Decode(now[|before|..]).data <= Decode(sent).data + f.payload
    ensures f.kind == FRAME_DATA ==> Decode(sent + Encode(f)) == Open(Decode(sent).data + f.payload, [])
    ensures f == CloseFrame ==> Decode(sent + Encode(f)) == Closed(Decode(sent).data, [])
    ensures now == before + sent + Encode(f) ==> now[|before|..] == sent + Encode(f)
  {
    hide Decode, Encode;
    var part := now[|before|..];
    assert before + sent + Encode(f) == before + (sent + Encode(f));
    assert part == now[|before|..] <= (before + (sent + Encode(f)))[|before|..] == sent + Encode(f);
    DecodeAppendFrame(sent, f);
    DecodePrefix(part, sent + Encode(f));
    assert Decode(sent).data + [] == Decode(sent).data;
  }

  /** The local-to-framed worker. Whatever it has put on the transport decodes to a prefix of what
      the local side sent. It succeeds exactly when the local side ends and no write goes wrong, and
      then it has sent all of it, closed, with nothing after the close frame. */
  method CopyLocalToFramed(local: Conn, framed: Conn) returns (ok: bool)
    requires local != framed
    modifies local`unread, framed`outcomes, framed`written, framed`faults
    ensures old(framed.written) <= framed.written
    ensures SendContract(old(local.unread), framed.written[|old(framed.written)|..], local.ending.AtEof?,
                         framed.faults != old(framed.faults), ok)
    ensures TakesAll(old(framed.outcomes), 6 * |old(local.unread)| + HEADER_SIZE) ==> framed.faults == old(framed.faults)
  {
    hide Decode, Encode, TakesAll;
    ghost var before, all := framed.written, local.unread;
    ghost var sent := [];
    DecodeNothing();
    while true
      invariant framed.written == before + sent
      invariant Decode(sent).Open? && Decode(sent).tail == []
      invariant all == Decode(sent).data + local.unread
      invariant framed.faults == old(framed.faults)
      invariant TakesAll(old(framed.outcomes), 6 * |all| + HEADER_SIZE) ==> TakesAll(framed.outcomes, 6 * |local.unread| + HEADER_SIZE)
      decreases |local.unread|
    {
      ghost var left := |local.unread|;
      var chunk, status := local.Read(MAX_FRAME_PAYLOAD);
      EnoughForOne(framed.outcomes, left, |chunk|);
      assert framed.written[|before|..] == sent;
      if |chunk| > 0 {
        ok := WriteFrame(framed, Frame(FRAME_DATA, chunk));
        FrameInProgress(before, sent, Frame(FRAME_DATA, chunk), framed.written);
        if !ok {
          return;
        }
        sent := sent + Encode(Frame(FRAME_DATA, chunk));
      }
      if !status.Good? {
        if status.Eof? {
          ok := WriteFrame(framed, CloseFrame);
          FrameInProgress(before, sent, CloseFrame, framed.written);
          return;
        }
        return false;
      }
    }
  }

  lemma EnoughForOne(outcomes: seq<WriteOutcome>, left: nat, n: nat)
    requires n <= left
    ensures TakesAll(outcomes, 6 * left + HEADER_SIZE) ==>
              && TakesAll(outcomes, HEADER_SIZE)
              && (0 < n ==> TakesAll(outcomes, HEADER_SIZE + n) && TakesAll(outcomes, (HEADER_SIZE + n) + (6 * (left - n) + HEADER_SIZE)))
  {
  }

  /** The framed-to-local worker. It delivers what the framed stream decodes to and nothing else:
      all of it unless a write goes wrong, then one close of the write side exactly when the stream ends
      with a close frame. */
  method CopyFramedToLocal(local: Conn, framed: Conn) returns (ok: bool)
    requires local != framed
    modifies framed`unread, local`outcomes, local`written, local`closeWrites, local`faults
    ensures old(local.written) <= local.written && old(local.closeWrites) <= local.closeWrites
    ensures DeliverContract(old(framed.unread), local.written[|old(local.written)|..], local.closeWrites - old(local.closeWrites),
                            local.faults != old(local.faults), ok)
    ensures local.closable && TakesAll(old(local.outcomes), |Decode(old(framed.unread)).data|) ==> local.faults == old(local.faults)
    ensures local.closeWrites != old(local.closeWrites) ==>
              Decode(old(framed.unread)).Closed? && framed.unread == Decode(old(framed.unread)).tail
  {
    hide Decode, Parse, TakesAll;
    ghost var before, all := local.written, Decode(framed.unread);
    ghost var data := [];
    while true
      invariant local.written == before + data
      invariant local.closeWrites == old(local.closeWrites) && local.faults == old(local.faults)
      invariant |data| <= |all.data|
      invariant TakesAll(old(local.outcomes), |all.data|) ==> TakesAll(local.outcomes, |all.data| - |data|)
      invariant all == Decode(framed.unread).Prepend(data)
      decreases |framed.unread|
    {
      DecodeFront(framed.unread, data);
      assert data <= all.data;
      var result := ReadFrame(framed);
      if result.ReadError? {
        return false;
      }
      var f := result.frame;
      if f.kind == FRAME_DATA {
        assert data + f.payload <= all.data;
        if |f.payload| == 0 {
          assert data + f.payload == data;
          continue;
        }
        ok := Deliver(local, f.payload, before, data, all.data);
        if !ok {
          return;
        }
        data := data + f.payload;
      } else if f.kind == FRAME_CLOSE_WRITE {
        ok := local.CloseWrite();
        return;
      } else {
        return false;
      }
    }
  }

  /** The next octets of `all` handed to the local side. */
  method Deliver(local: Conn, payload: seq<Byte>, ghost before: seq<Byte>, ghost data: seq<Byte>, ghost all: seq<Byte>) returns (ok: bool)
    requires local.written == before + data && data + payload <= all
    modifies local`outcomes, local`written, local`faults
    ensures before <= local.written <= before + all
    ensures ok ==> local.written == before + (data + payload)
    ensures old(local.faults) <= local.faults && (ok <==> local.faults == old(local.faults))
    ensures TakesAll(old(local.outcomes), |all| - |data|) ==> ok && TakesAll(local.outcomes, |all| - |data + payload|)
  {
    StillTakesAll(local.outcomes, |payload|);
    assert |all| - |data| == |payload| + (|all| - |data + payload|);
    GoWritesAllOrFails(local.outcomes, |payload|);
    ok := WriteFull(local, payload);
    assert local.written <= before + (data + payload);
  }
}
