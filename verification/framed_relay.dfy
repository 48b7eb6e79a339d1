// Two framed relays back to back over a transport that fragments and coalesces at will. Each relay
// runs two concurrent workers, a result channel of capacity two and a close-once rule. One step of
// the system is one system call of one worker, or one step of a relay's main routine.
module FramedRelay {
  import opened Bytes
  import opened FrameCodec

  const WORKERS := 2

  // ---- One direction: the sending worker, the transport, the receiving worker ----

  /** What the sending worker does once the frame it is writing is out. */
  datatype After = Continue | SendClose | Fail | Finish

  datatype Sender = Reading | Writing(rest: seq<Byte>, after: After) | SenderDone(ok: bool)

  datatype Receiver = Collecting(buf: seq<Byte>) | Delivering(rest: seq<Byte>) | ClosingWrite | ReceiverDone(ok: bool)

  /** `read`: everything the sending worker has read from its local connection; `eof`: it has seen
      the end of it. `consumed` + `inFlight`: everything the transport accepted. `delivered`:
      everything the far local connection accepted; `closeWrites`: calls of CloseWrite on it.
      `sendFault` and `localFault`: a write to the transport, or a write to or the close of the far
      local connection, has failed or made no progress. */
  datatype Pipe = Pipe(
    read: seq<Byte>, eof: bool, sender: Sender,
    consumed: seq<Byte>, inFlight: seq<Byte>,
    receiver: Receiver, delivered: seq<Byte>, closeWrites: nat,
    sendFault: bool, localFault: bool)
  {
    function Sent(): seq<Byte> { consumed + inFlight }
  }

  const FreshPipe := Pipe([], false, Reading, [], [], Collecting([]), [], 0, false, false)

  function DoRead(p: Pipe, chunk: seq<Byte>, status: ReadStatus): Pipe
    requires p.sender.Reading? && |chunk| <= MAX_FRAME_PAYLOAD
  {
    var q := p.(read := p.read + chunk, eof := status.Eof?);
    if chunk != [] then
      q.(sender := Writing(Encode(Frame(FRAME_DATA, chunk)),
                           match status case Good => Continue case Eof => SendClose case Fault => Fail))
    else match status
      case Good => q
      case Eof => q.(sender := Writing(Encode(CloseFrame), Finish))
      case Fault => q.(sender := SenderDone(false))
  }

  function NextSender(after: After): Sender {
    match after
    case Continue => Reading
    case SendClose => Writing(Encode(CloseFrame), Finish)
    case Fail => SenderDone(false)
    case Finish => SenderDone(true)
  }

  function DoWrite(p: Pipe, n: nat, ok: bool): Pipe
    requires p.sender.Writing? && n <= |p.sender.rest|
  {
    var rest := p.sender.rest;
    var q := p.(inFlight := p.inFlight + rest[..n]);
    if !ok || n == 0 then q.(sender := SenderDone(false), sendFault := true)
    else if n < |rest| then q.(sender := Writing(rest[n..], p.sender.after))
    else q.(sender := NextSender(p.sender.after))
  }

  /** How many more octets the reader of a frame asks for: the header first, then the payload. */
  function Need(buf: seq<Byte>): int {
    if |buf| < HEADER_SIZE then HEADER_SIZE - |buf|
    else HEADER_SIZE + FromBigEndian32(buf[1..HEADER_SIZE]) - |buf|
  }

  function Classify(buf: seq<Byte>): Receiver {
    match Parse(buf)
    case NeedMore => Collecting(buf)
    case Oversized(_) => ReceiverDone(false)
    case Complete(f, _) =>
      if f.kind == FRAME_DATA then (if f.payload == [] then Collecting([]) else Delivering(f.payload))
      else if f.kind == FRAME_CLOSE_WRITE then ClosingWrite
      else ReceiverDone(false)
  }

  predicate CanTake(p: Pipe, n: nat) {
    p.receiver.Collecting? && 0 < n <= |p.inFlight| && n <= Need(p.receiver.buf)
  }

  function DoTake(p: Pipe, n: nat): Pipe
    requires CanTake(p, n)
  {
    p.(consumed := p.consumed + p.inFlight[..n], inFlight := p.inFlight[n..],
       receiver := Classify(p.receiver.buf + p.inFlight[..n]))
  }

  function DoDeliver(p: Pipe, n: nat, ok: bool): Pipe
    requires p.receiver.Delivering? && n <= |p.receiver.rest|
  {
    var rest := p.receiver.rest;
    var q := p.(delivered := p.delivered + rest[..n]);
    if !ok || n == 0 then q.(receiver := ReceiverDone(false), localFault := true)
    else if n < |rest| then q.(receiver := Delivering(rest[n..]))
    else q.(receiver := Collecting([]))
  }

  // ---- The invariant of one direction ----

  /** What is on the transport, with what the worker still has to write, is the encoding of exactly
      what was read; a close frame ends it exactly when the end was seen. */
  ghost predicate SenderInv(p: Pipe) {
    match p.sender
    case Reading => !p.eof && !p.sendFault && Decode(p.Sent()) == Open(p.read, [])
    case Writing(rest, after) =>
      && rest != [] && !p.sendFault
      && (p.eof <==> after.SendClose? || after.Finish?)
      && Decode(p.Sent() + rest) == if after.Finish? then Closed(p.read, []) else Open(p.read, [])
    case SenderDone(ok) =>
      && !Decode(p.Sent()).Bad? && Decode(p.Sent()).data <= p.read
      && (Decode(p.Sent()).Closed? ==> p.eof && Decode(p.Sent()) == Closed(p.read, []))
      && (!p.sendFault ==> Decode(p.Sent()) == if p.eof then Closed(p.read, []) else Open(p.read, []))
      && (ok <==> p.eof && !p.sendFault)
  }

  /** What has been delivered, with what the worker holds, is what the consumed octets decode to. */
  ghost predicate ReceiverInv(p: Pipe) {
    match p.receiver
    case Collecting(buf) =>
      Decode(p.consumed) == Open(p.delivered, buf) && Parse(buf).NeedMore? && p.closeWrites == 0 && !p.localFault
    case Delivering(rest) =>
      rest != [] && Decode(p.consumed) == Open(p.delivered + rest, []) && p.closeWrites == 0 && !p.localFault
    case ClosingWrite => Decode(p.consumed) == Closed(p.delivered, []) && p.closeWrites == 0 && !p.localFault
    case ReceiverDone(ok) =>
      && p.delivered <= Decode(p.consumed).data
      && p.closeWrites <= 1
      && (p.closeWrites == 1 ==> Decode(p.consumed) == Closed(p.delivered, []))
      && (!p.localFault ==> p.delivered == Decode(p.consumed).data && (p.closeWrites == 1 <==> Decode(p.consumed).Closed?))
      && (ok <==> Decode(p.consumed).Closed? && !p.localFault)
  }

  ghost predicate PipeInv(p: Pipe) { SenderInv(p) && ReceiverInv(p) }

  /** The invariant says what a caller wants to know: only a prefix is ever delivered, and the write
      side is closed only after everything was read, sent, consumed and delivered. */
  lemma PipeSafety(p: Pipe)
    requires PipeInv(p)
    ensures p.delivered <= p.read
    ensures p.closeWrites <= 1
    ensures p.closeWrites == 1 || p.receiver.ClosingWrite? ==>
              p.delivered == p.read && p.eof && p.inFlight == [] && p.sender.SenderDone?
  {
    hide Decode, Parse;
    var rest := if p.sender.Writing? then p.sender.rest else [];
    var whole := p.Sent() + rest;
    assert p.Sent() + [] == p.Sent();
    assert p.consumed <= whole && whole[|p.consumed|..] == p.inFlight + rest;
    DecodePrefix(p.consumed, whole);
    if p.closeWrites == 1 || p.receiver.ClosingWrite? {
      assert Decode(whole) == Closed(p.delivered, [] + (p.inFlight + rest));
      assert |p.inFlight + rest| == 0;
    }
  }

  lemma ReadKeepsPipe(p: Pipe, chunk: seq<Byte>, status: ReadStatus)
    requires PipeInv(p) && p.sender.Reading? && |chunk| <= MAX_FRAME_PAYLOAD
    ensures PipeInv(DoRead(p, chunk, status))
  {
    hide Decode, Parse;
    if chunk != [] {
      DecodeAppendFrame(p.Sent(), Frame(FRAME_DATA, chunk));
    } else {
      assert p.read + chunk == p.read;
      DecodeAppendFrame(p.Sent(), CloseFrame);
    }
  }

  lemma WriteKeepsPipe(p: Pipe, n: nat, ok: bool)
    requires PipeInv(p) && p.sender.Writing? && n <= |p.sender.rest|
    ensures PipeInv(DoWrite(p, n, ok))
  {
    hide Decode, Parse;
    var rest := p.sender.rest;
    var q := DoWrite(p, n, ok);
    assert q.Sent() + rest[n..] == p.Sent() + rest;
    DecodePrefix(q.Sent(), p.Sent() + rest);
    if n == |rest| {
      assert q.Sent() == p.Sent() + rest;
      if p.sender.after.SendClose? {
        DecodeAppendFrame(q.Sent(), CloseFrame);
      }
    }
  }

  /** Octets arriving: the worker's own buffer is all it needs to know of what came before. */
  lemma TakeKeepsPipe(p: Pipe, n: nat)
    requires PipeInv(p) && CanTake(p, n)
    ensures PipeInv(DoTake(p, n))
  {
    hide Decode, Parse, Need;
    var buf := p.receiver.buf;
    var more := p.inFlight[..n];
    assert DoTake(p, n).Sent() == p.Sent();
    NeedIsExact(buf, more);
    DecodeSplit(p.consumed, more);
    DecodeFront(buf + more, p.delivered);
    ParseNothing();
    if Parse(buf + more).Complete? {
      DecodeNothing();
      var f := Parse(buf + more).frame;
      assert p.delivered + f.payload + [] == p.delivered + f.payload;
    }
  }

  lemma ParseNothing()
    ensures Parse([]).NeedMore?
  {
  }

  /** The reader never takes an octet of the following frame. */
  lemma NeedIsExact(buf: seq<Byte>, more: seq<Byte>)
    requires Parse(buf).NeedMore? && |more| <= Need(buf)
    ensures Parse(buf + more).Complete? ==> Parse(buf + more).rest == []
  {
    if HEADER_SIZE <= |buf| {
      assert (buf + more)[1..HEADER_SIZE] == buf[1..HEADER_SIZE];
    }
  }

  lemma DeliverKeepsPipe(p: Pipe, n: nat, ok: bool)
    requires PipeInv(p) && p.receiver.Delivering? && n <= |p.receiver.rest|
    ensures PipeInv(DoDeliver(p, n, ok))
  {
    hide Decode, Parse;
    var rest := p.receiver.rest;
    assert p.delivered + rest == p.delivered + rest[..n] + rest[n..];
    ParseNothing();
  }

  // ---- Two relays and the two directions between them ----

  datatype Side = A | B

  /** One relay: how often each of its connections was closed, which worker has reported, the
      result channel, and how many results the main routine has taken from it. `halfClose` says
      whether the local connection can close its write side alone; if not, CloseWrite closes it. */
  datatype Relay = Relay(
    halfClose: bool, localCloses: nat, framedCloses: nat,
    senderReported: bool, receiverReported: bool,
    results: seq<bool>, got: nat, returned: bool)

  datatype System = System(a: Relay, b: Relay, ab: Pipe, ba: Pipe) {
    function RelayAt(side: Side): Relay { if side.A? then a else b }

    /** The direction `side` sends on. */
    function Outgoing(side: Side): Pipe { if side.A? then ab else ba }

    /** The direction `side` receives on. */
    function Incoming(side: Side): Pipe { if side.A? then ba else ab }

    function WithRelay(side: Side, r: Relay): System { if side.A? then this.(a := r) else this.(b := r) }

    function WithOutgoing(side: Side, p: Pipe): System { if side.A? then this.(ab := p) else this.(ba := p) }

    function WithIncoming(side: Side, p: Pipe): System { if side.A? then this.(ba := p) else this.(ab := p) }
  }

  function FreshRelay(halfClose: bool): Relay { Relay(halfClose, 0, 0, false, false, [], 0, false) }

  function Init(halfA: bool, halfB: bool): System {
    System(FreshRelay(halfA), FreshRelay(halfB), FreshPipe, FreshPipe)
  }

  datatype Step =
    | Read(side: Side, chunk: seq<Byte>, status: ReadStatus)
    | Write(side: Side, n: nat, ok: bool)
    | Take(side: Side, n: nat)
    | TakeFails(side: Side)
    | Deliver(side: Side, n: nat, ok: bool)
    | CloseWrite(side: Side, ok: bool)
    | ReportSender(side: Side)
    | ReportReceiver(side: Side)
    | Collect(side: Side)
    | Return(side: Side)

  /** Which steps can happen. Calls on a connection that this relay has closed return at once with
      an error; everything else the transport and the local peers do is unconstrained. */
  predicate Enabled(s: System, step: Step) {
    var r := s.RelayAt(step.side);
    var outgoing := s.Outgoing(step.side);
    var incoming := s.Incoming(step.side);
    match step
    case Read(_, chunk, status) =>
      outgoing.sender.Reading? && |chunk| <= MAX_FRAME_PAYLOAD && (0 < r.localCloses ==> chunk == [] && status.Fault?)
    case Write(_, n, ok) =>
      outgoing.sender.Writing? && n <= |outgoing.sender.rest| && (0 < r.framedCloses ==> n == 0 && !ok)
    case Take(_, n) => CanTake(incoming, n) && r.framedCloses == 0
    case TakeFails(_) => incoming.receiver.Collecting?
    case Deliver(_, n, ok) =>
      incoming.receiver.Delivering? && n <= |incoming.receiver.rest| && (0 < r.localCloses ==> n == 0 && !ok)
    case CloseWrite(_, ok) => incoming.receiver.ClosingWrite? && (0 < r.localCloses ==> !ok)
    case ReportSender(_) => outgoing.sender.SenderDone? && !r.senderReported && |r.results| < WORKERS
    case ReportReceiver(_) => incoming.receiver.ReceiverDone? && !r.receiverReported && |r.results| < WORKERS
    case Collect(_) => r.results != [] && r.got < WORKERS
    case Return(_) => r.got == WORKERS && !r.returned
  }

  /** closeBoth: the body runs the first time only. */
  function CloseBoth(r: Relay): Relay {
    if r.framedCloses == 0 then r.(localCloses := r.localCloses + 1, framedCloses := 1) else r
  }

  function Apply(s: System, step: Step): System
    requires Enabled(s, step)
  {
    var side := step.side;
    var r := s.RelayAt(side);
    var outgoing := s.Outgoing(side);
    var incoming := s.Incoming(side);
    match step
    case Read(_, chunk, status) => s.WithOutgoing(side, DoRead(outgoing, chunk, status))
    case Write(_, n, ok) => s.WithOutgoing(side, DoWrite(outgoing, n, ok))
    case Take(_, n) => s.WithIncoming(side, DoTake(incoming, n))
    case TakeFails(_) => s.WithIncoming(side, incoming.(receiver := ReceiverDone(false)))
    case Deliver(_, n, ok) => s.WithIncoming(side, DoDeliver(incoming, n, ok))
    case CloseWrite(_, ok) =>
      s.WithIncoming(side, incoming.(closeWrites := incoming.closeWrites + 1, receiver := ReceiverDone(ok), localFault := !ok))
       .WithRelay(side, if r.halfClose then r else r.(localCloses := r.localCloses + 1))
    case ReportSender(_) =>
      s.WithRelay(side, r.(senderReported := true, results := r.results + [outgoing.sender.ok]))
    case ReportReceiver(_) =>
      s.WithRelay(side, r.(receiverReported := true, results := r.results + [incoming.receiver.ok]))
    case Collect(_) =>
      var taken := r.(results := r.results[1..], got := r.got + 1);
      s.WithRelay(side, if r.results[0] then taken else CloseBoth(taken))
    case Return(_) => s.WithRelay(side, CloseBoth(r).(returned := true))
  }

  predicate ValidRun(s: System, steps: seq<Step>)
    decreases |steps|
  {
    steps == [] || (Enabled(s, steps[0]) && ValidRun(Apply(s, steps[0]), steps[1..]))
  }

  function Exec(s: System, steps: seq<Step>): System
    requires ValidRun(s, steps)
    decreases |steps|
  {
    if steps == [] then s else Exec(Apply(s, steps[0]), steps[1..])
  }

  // ---- The invariant of the system ----

  function Count(b: bool): nat { if b then 1 else 0 }

  /** One of a relay's two workers has ended with an error. */
  predicate WorkerFailed(sender: Sender, receiver: Receiver) {
    sender == SenderDone(false) || receiver == ReceiverDone(false)
  }

  /** A relay's bookkeeping, given how its two workers and its local connection's write side stand. */
  predicate RelayOk(r: Relay, sender: Sender, receiver: Receiver, closeWrites: nat) {
    && |r.results| + r.got == Count(r.senderReported) + Count(r.receiverReported)
    && (r.senderReported ==> sender.SenderDone?)
    && (r.receiverReported ==> receiver.ReceiverDone?)
    && (false in r.results ==> WorkerFailed(sender, receiver))
    && (r.senderReported && sender == SenderDone(false) ==> false in r.results || r.framedCloses == 1)
    && (r.receiverReported && receiver == ReceiverDone(false) ==> false in r.results || r.framedCloses == 1)
    && r.framedCloses <= 1
    && (r.framedCloses == 1 ==> r.returned || WorkerFailed(sender, receiver))
    && (r.returned ==> r.got == WORKERS && r.framedCloses == 1)
    && r.localCloses == r.framedCloses + (if r.halfClose then 0 else closeWrites)
  }

  predicate RelayInv(s: System, side: Side) {
    RelayOk(s.RelayAt(side), s.Outgoing(side).sender, s.Incoming(side).receiver, s.Incoming(side).closeWrites)
  }

  ghost predicate Inv(s: System) {
    PipeInv(s.ab) && PipeInv(s.ba) && RelayInv(s, A) && RelayInv(s, B)
  }

  lemma InitInv(halfA: bool, halfB: bool)
    ensures Inv(Init(halfA, halfB))
  {
    DecodeNothing();
    ParseNothing();
  }

  lemma StepKeepsPipes(s: System, step: Step)
    requires PipeInv(s.ab) && PipeInv(s.ba) && Enabled(s, step)
    ensures var t := Apply(s, step); PipeInv(t.ab) && PipeInv(t.ba)
  {
    hide Decode, Parse, Classify, DoTake, DoRead, DoWrite, DoDeliver;
    var outgoing := s.Outgoing(step.side);
    var incoming := s.Incoming(step.side);
    match step
    case Read(_, chunk, status) => ReadKeepsPipe(outgoing, chunk, status);
    case Write(_, n, ok) => WriteKeepsPipe(outgoing, n, ok);
    case Take(_, n) => TakeKeepsPipe(incoming, n);
    case TakeFails(_) =>
    case Deliver(_, n, ok) => DeliverKeepsPipe(incoming, n, ok);
    case CloseWrite(_, _) =>
    case _ =>
  }

  function Other(side: Side): Side { if side.A? then B else A }

  /** Nothing one relay does touches the other relay's bookkeeping, its workers or its local side. */
  lemma OtherSideUntouched(s: System, step: Step)
    requires Enabled(s, step)
    ensures var t, o := Apply(s, step), Other(step.side);
            && t.RelayAt(o) == s.RelayAt(o)
            && t.Outgoing(o).sender == s.Outgoing(o).sender
            && t.Incoming(o).receiver == s.Incoming(o).receiver
            && t.Incoming(o).closeWrites == s.Incoming(o).closeWrites
            && t.Incoming(o).delivered == s.Incoming(o).delivered
            && t.Outgoing(o).read == s.Outgoing(o).read
  {
    hide Classify, Encode;
  }

  /** A worker that moves has not reported yet, so it may end in any way. */
  lemma WorkerMoves(r: Relay, sender: Sender, receiver: Receiver, closeWrites: nat, sender': Sender, receiver': Receiver)
    requires RelayOk(r, sender, receiver, closeWrites)
    requires sender' == sender || !sender.SenderDone?
    requires receiver' == receiver || !receiver.ReceiverDone?
    ensures RelayOk(r, sender', receiver', closeWrites)
  {
  }

  lemma WorkerStepKeepsRelay(s: System, step: Step)
    requires RelayInv(s, step.side) && Enabled(s, step)
    requires step.Read? || step.Write? || step.Take? || step.TakeFails? || step.Deliver? || step.CloseWrite?
    ensures RelayInv(Apply(s, step), step.side)
  {
    hide Classify, Encode, RelayOk;
    var t := Apply(s, step);
    WorkerMoves(s.RelayAt(step.side), s.Outgoing(step.side).sender, s.Incoming(step.side).receiver,
                s.Incoming(step.side).closeWrites, t.Outgoing(step.side).sender, t.Incoming(step.side).receiver);
    if step.CloseWrite? {
      LocalSideCloses(s.RelayAt(step.side), t.Outgoing(step.side).sender, t.Incoming(step.side).receiver,
                      s.Incoming(step.side).closeWrites);
    }
  }

  lemma LocalSideCloses(r: Relay, sender: Sender, receiver: Receiver, closeWrites: nat)
    requires RelayOk(r, sender, receiver, closeWrites)
    ensures RelayOk(if r.halfClose then r else r.(localCloses := r.localCloses + 1), sender, receiver, closeWrites + 1)
  {
  }

  lemma MainStepKeepsRelay(s: System, step: Step)
    requires RelayInv(s, step.side) && Enabled(s, step)
    requires step.ReportSender? || step.ReportReceiver? || step.Collect? || step.Return?
    ensures RelayInv(Apply(s, step), step.side)
  {
    hide DoTake, DoRead, DoWrite, DoDeliver;
    var r := s.RelayAt(step.side);
    if step.Collect? {
      assert r.results == [r.results[0]] + r.results[1..];
    }
  }

  lemma StepKeepsInv(s: System, step: Step)
    requires Inv(s) && Enabled(s, step)
    ensures Inv(Apply(s, step))
  {
    hide PipeInv, RelayOk, Apply, Enabled;
    StepKeepsPipes(s, step);
    OtherSideUntouched(s, step);
    if step.ReportSender? || step.ReportReceiver? || step.Collect? || step.Return? {
      MainStepKeepsRelay(s, step);
    } else {
      WorkerStepKeepsRelay(s, step);
    }
  }

  lemma {:induction false} RunKeepsInv(s: System, steps: seq<Step>)
    requires Inv(s) && ValidRun(s, steps)
    ensures Inv(Exec(s, steps))
    decreases |steps|
  {
    if steps != [] {
      StepKeepsInv(s, steps[0]);
      RunKeepsInv(Apply(s, steps[0]), steps[1..]);
    }
  }

  // ---- What holds over every run ----

  /** `s` is the state after some run from a fresh start. */
  ghost predicate Reachable(s: System) {
    exists halfA: bool, halfB: bool, steps: seq<Step> ::
      ValidRun(Init(halfA, halfB), steps) && Exec(Init(halfA, halfB), steps) == s
  }

  lemma ReachableInv(s: System)
    requires Reachable(s)
    ensures Inv(s)
  {
    hide Init, Inv;
    var halfA: bool, halfB: bool, steps: seq<Step> :|
      ValidRun(Init(halfA, halfB), steps) && Exec(Init(halfA, halfB), steps) == s;
    InitInv(halfA, halfB);
    RunKeepsInv(Init(halfA, halfB), steps);
  }

  /** Under every interleaving, fragmentation and failure: what has been delivered on a direction is
      a prefix of what was read on it, its write side is closed at most once, and only when all of
      it was delivered and nothing is left on the way. */
  lemma DeliveryOverEveryRun(s: System, side: Side)
    requires Reachable(s)
    ensures var p := s.Outgoing(side);
            && p.delivered <= p.read
            && p.closeWrites <= 1
            && (p.closeWrites == 1 ==> p.delivered == p.read && p.eof && p.inFlight == [])
            && (p.receiver == ReceiverDone(true) ==> p.closeWrites == 1)
  {
    ReachableInv(s);
    hide Reachable, Classify, Encode, Decode, Parse;
    PipeSafety(s.Outgoing(side));
  }

  lemma ClosedDirectionStepsIdle(s: System, step: Step, side: Side)
    requires Enabled(s, step) && PipeOver(s.Outgoing(side))
    ensures Apply(s, step).Outgoing(side) == s.Outgoing(side)
  {
    hide Classify, Encode, Need;
  }

  /** Once its write side is closed a direction is over: nothing about it changes any more. */
  lemma {:induction false} CloseWriteIsFinal(s: System, steps: seq<Step>, side: Side)
    requires Inv(s) && ValidRun(s, steps)
    requires s.Outgoing(side).closeWrites == 1
    ensures Exec(s, steps).Outgoing(side) == s.Outgoing(side)
    decreases |steps|
  {
    if steps != [] {
      ClosedPipeIsDone(s.Outgoing(side));
      hide PipeInv, RelayOk, Apply, Enabled;
      ClosedDirectionStepsIdle(s, steps[0], side);
      StepKeepsInv(s, steps[0]);
      CloseWriteIsFinal(Apply(s, steps[0]), steps[1..], side);
    }
  }

  lemma ClosedPipeIsDone(p: Pipe)
    requires PipeInv(p) && p.closeWrites == 1
    ensures p.sender.SenderDone? && p.receiver.ReceiverDone?
  {
    PipeSafety(p);
  }

  /** A relay returns only after both workers have reported, with its channel empty; its framed
      connection is closed exactly once, and so is its local one, except that a local connection
      that cannot close its write side alone is closed a second time when CloseWrite was reached. */
  lemma ReturnsAfterBothWorkers(s: System, side: Side)
    requires Reachable(s)
    ensures var r := s.RelayAt(side);
            r.returned ==>
              && s.Outgoing(side).sender.SenderDone? && s.Incoming(side).receiver.ReceiverDone?
              && r.senderReported && r.receiverReported && r.results == []
              && r.framedCloses == 1
              && (r.localCloses == 1 <==> r.halfClose || s.Incoming(side).closeWrites == 0)
  {
    ReachableInv(s);
    hide Reachable, Classify, Encode, Decode, Parse;
    PipeSafety(s.Incoming(side));
  }

  /** A relay that has not returned has closed its connections only if one of its workers failed. */
  lemma EarlyCloseNeedsFailure(s: System, side: Side)
    requires Reachable(s)
    ensures 0 < s.RelayAt(side).framedCloses && !s.RelayAt(side).returned ==>
              WorkerFailed(s.Outgoing(side).sender, s.Incoming(side).receiver)
  {
    ReachableInv(s);
    hide Reachable, Classify, Encode, Decode, Parse;
  }

  /** A relay that returns without a failure has sent all it read, closed by a close frame, has
      delivered all its peer read, and leaves nothing unread on the connection it closes. */
  lemma CleanReturnIsComplete(s: System, side: Side)
    requires Reachable(s)
    ensures var outgoing, incoming := s.Outgoing(side), s.Incoming(side);
            s.RelayAt(side).returned && !WorkerFailed(outgoing.sender, incoming.receiver) ==>
              && Decode(outgoing.Sent()) == Closed(outgoing.read, []) && outgoing.eof
              && incoming.delivered == incoming.read && incoming.eof && incoming.inFlight == []
  {
    ReachableInv(s);
    hide Reachable, Classify, Encode, Decode, Parse;
    PipeSafety(s.Incoming(side));
  }

  /** The end of one direction leaves the other one open exactly when the local connection can close
      its write side alone: then, and only then, the sending worker can still read anything. */
  lemma OtherDirectionStaysOpen(s: System, side: Side, chunk: seq<Byte>)
    requires Inv(s) && s.Outgoing(side).sender.Reading?
    requires !WorkerFailed(s.Outgoing(side).sender, s.Incoming(side).receiver)
    requires |chunk| <= MAX_FRAME_PAYLOAD
    ensures Enabled(s, Read(side, chunk, Good)) <==> s.RelayAt(side).halfClose || s.Incoming(side).closeWrites == 0
  {
  }

  predicate WorkerStep(step: Step) {
    step.Read? || step.Write? || step.Take? || step.TakeFails? || step.Deliver? || step.CloseWrite?
  }

  /** The side that sends on the direction a worker's step belongs to. */
  function DirectionOf(step: Step): Side {
    if step.Read? || step.Write? then step.side else Other(step.side)
  }

  /** Closes the whole local connection although only its write side was meant. */
  predicate ClosesTooMuch(s: System, step: Step) { step.CloseWrite? && !s.RelayAt(step.side).halfClose }

  predicate ReadsSomething(step: Step) { step.Read? && !(step.chunk == [] && step.status.Fault?) }

  /** The workers that take these steps end as the loops promise that `StreamWorkers` proves: the same
      two contracts hold of what each has read, sent, consumed and delivered when it is done. */
  lemma WorkersKeepTheirContracts(s: System, side: Side)
    requires Reachable(s)
    ensures var p := s.Outgoing(side);
            && (p.sender.SenderDone? ==> SendContract(p.read, p.Sent(), p.eof, p.sendFault, p.sender.ok))
            && (p.receiver.ReceiverDone? ==> DeliverContract(p.consumed, p.delivered, p.closeWrites, p.localFault, p.receiver.ok))
  {
    ReachableInv(s);
    hide Reachable, Classify, Encode, Decode, Parse;
  }

  /** Nothing that a worker of one direction does changes the other direction: what it holds stays as it
      is, the same steps can happen on it, and they do the same. The only exception is the CloseWrite of
      a local connection that cannot half-close, and all it takes away is to read from that connection. */
  lemma DirectionsAreIndependent(s: System, x: Step, y: Step)
    requires WorkerStep(x) && WorkerStep(y) && Enabled(s, x) && DirectionOf(x) != DirectionOf(y)
    ensures Apply(s, x).Outgoing(DirectionOf(y)) == s.Outgoing(DirectionOf(y))
    ensures Enabled(Apply(s, x), y) <==>
              Enabled(s, y) && !(ClosesTooMuch(s, x) && y.side == x.side && ReadsSomething(y))
    ensures Enabled(s, y) && Enabled(Apply(s, x), y) ==>
              Apply(Apply(s, x), y).Outgoing(DirectionOf(y)) == Apply(s, y).Outgoing(DirectionOf(y))
  {
    hide DoTake, DoRead, DoWrite, DoDeliver, CanTake;
  }

  /** The result channel always has room for a worker that has ended. */
  lemma ReportNeverBlocks(s: System, side: Side)
    requires RelayInv(s, side)
    ensures s.Outgoing(side).sender.SenderDone? && !s.RelayAt(side).senderReported ==> Enabled(s, ReportSender(side))
    ensures s.Incoming(side).receiver.ReceiverDone? && !s.RelayAt(side).receiverReported ==> Enabled(s, ReportReceiver(side))
  {
  }

  // ---- Winding down after a failure ----

  function Rank(s: System, side: Side): nat {
    var r := s.RelayAt(side);
    Count(!s.Outgoing(side).sender.SenderDone?) + Count(!s.Incoming(side).receiver.ReceiverDone?)
    + 2 * Count(!r.senderReported) + 2 * Count(!r.receiverReported) + |r.results| + Count(!r.returned)
  }

  lemma ClosedWorkerStops(s: System, step: Step)
    requires RelayInv(s, step.side) && Enabled(s, step) && 0 < s.RelayAt(step.side).framedCloses
    requires step.Read? || step.Write? || step.Take? || step.TakeFails? || step.Deliver? || step.CloseWrite?
    ensures Rank(Apply(s, step), step.side) < Rank(s, step.side)
    ensures 0 < Apply(s, step).RelayAt(step.side).framedCloses
  {
    var localCloses := s.RelayAt(step.side).localCloses;
    assert 0 < localCloses;
    hide RelayOk, Classify, Encode, Need;
  }

  lemma ClosedMainMovesOn(s: System, step: Step)
    requires Enabled(s, step) && 0 < s.RelayAt(step.side).framedCloses
    requires step.ReportSender? || step.ReportReceiver? || step.Collect? || step.Return?
    ensures Rank(Apply(s, step), step.side) < Rank(s, step.side)
    ensures 0 < Apply(s, step).RelayAt(step.side).framedCloses
  {
    hide DoTake, DoRead, DoWrite, DoDeliver;
  }

  /** Once its connections are closed, every step a relay takes brings it closer to returning, and
      nothing the other relay does sets it back. */
  lemma ClosedRelayWindsDown(s: System, step: Step, side: Side)
    requires RelayInv(s, side) && Enabled(s, step) && 0 < s.RelayAt(side).framedCloses
    ensures step.side == side ==> Rank(Apply(s, step), side) < Rank(s, side)
    ensures step.side != side ==> Rank(Apply(s, step), side) == Rank(s, side)
    ensures 0 < Apply(s, step).RelayAt(side).framedCloses
  {
    hide Enabled, Apply, RelayOk;
    if step.side != side {
      OtherSideUntouched(s, step);
      assert side == Other(step.side);
    } else if step.ReportSender? || step.ReportReceiver? || step.Collect? || step.Return? {
      ClosedMainMovesOn(s, step);
    } else {
      ClosedWorkerStops(s, step);
    }
  }

  /** And until it has returned it always has a step to take: closing has unblocked every call. */
  lemma ClosedRelayCanStep(s: System, side: Side) returns (step: Step)
    requires Inv(s) && 0 < s.RelayAt(side).framedCloses && !s.RelayAt(side).returned
    ensures step.side == side && Enabled(s, step)
  {
    hide PipeInv, Classify, Encode;
    var sender, receiver, r := s.Outgoing(side).sender, s.Incoming(side).receiver, s.RelayAt(side);
    step := if sender.Reading? then Read(side, [], Fault)
    else if sender.Writing? then Write(side, 0, false)
    else if receiver.Collecting? then TakeFails(side)
    else if receiver.Delivering? then Deliver(side, 0, false)
    else if receiver.ClosingWrite? then CloseWrite(side, false)
    else if !r.senderReported then ReportSender(side)
    else if !r.receiverReported then ReportReceiver(side)
    else if r.results != [] then Collect(side)
    else Return(side);
  }

  /** A failure never waits for the other worker: the relay's own steps report it, take it from the
      channel, close both connections and so bring the relay to its return; the peer need not move. */
  lemma {:induction false} FailedRelayCanReturn(s: System, side: Side) returns (steps: seq<Step>)
    requires Inv(s)
    requires WorkerFailed(s.Outgoing(side).sender, s.Incoming(side).receiver) || 0 < s.RelayAt(side).framedCloses
    ensures forall step :: step in steps ==> step.side == side
    ensures ValidRun(s, steps) && Exec(s, steps).RelayAt(side).returned
    decreases Rank(s, side)
  {
    hide PipeInv, Classify, Encode, Need, DoTake, DoRead, DoWrite, DoDeliver, Rank;
    if s.RelayAt(side).returned {
      return [];
    }
    var step;
    if 0 < s.RelayAt(side).framedCloses {
      step := ClosedRelayCanStep(s, side);
      ClosedRelayWindsDown(s, step, side);
    } else {
      step := FailureMovesOn(s, side);
    }
    StepKeepsInv(s, step);
    var later := FailedRelayCanReturn(Apply(s, step), side);
    steps := [step] + later;
    assert steps[1..] == later;
  }

  /** The worker that failed reports, or what is in the channel is taken. */
  lemma FailureMovesOn(s: System, side: Side) returns (step: Step)
    requires RelayInv(s, side) && s.RelayAt(side).framedCloses == 0
    requires WorkerFailed(s.Outgoing(side).sender, s.Incoming(side).receiver)
    ensures step.side == side && Enabled(s, step) && Rank(Apply(s, step), side) < Rank(s, side)
    ensures var t := Apply(s, step);
            WorkerFailed(t.Outgoing(side).sender, t.Incoming(side).receiver) || 0 < t.RelayAt(side).framedCloses
  {
    hide Classify, Encode, Need, DoTake, DoRead, DoWrite, DoDeliver;
    var r := s.RelayAt(side);
    step := if s.Outgoing(side).sender == SenderDone(false) && !r.senderReported then ReportSender(side)
    else if s.Incoming(side).receiver == ReceiverDone(false) && !r.receiverReported then ReportReceiver(side)
    else Collect(side);
  }

  // ---- No dead ends without a failure ----

  /** Neither worker of a direction has failed or is about to. */
  predicate FaultFreePipe(p: Pipe) {
    !WorkerFailed(p.sender, p.receiver) && (p.sender.Writing? ==> !p.sender.after.Fail?)
  }

  predicate FaultFree(s: System) { FaultFreePipe(s.ab) && FaultFreePipe(s.ba) }

  /** The transport holds at most `capacity` octets each way. */
  predicate WithinCapacity(s: System, capacity: nat) {
    |s.ab.inFlight| <= capacity && |s.ba.inFlight| <= capacity
  }

  predicate PipeOver(p: Pipe) { p.sender.SenderDone? && p.receiver.ReceiverDone? }

  /** Nothing is left of a direction but to close its write side. */
  predicate PipeQuiet(p: Pipe) { PipeOver(p) || p.receiver.ClosingWrite? }

  /** The sending worker has not seen the end of its local connection. */
  predicate NeedsToRead(sender: Sender) { sender.Reading? || (sender.Writing? && sender.after.Continue?) }

  /** The local connection is still open for what the sending worker has to read from it. */
  predicate CanFinish(s: System, side: Side) {
    s.RelayAt(side).halfClose || s.Incoming(side).closeWrites == 0 || !NeedsToRead(s.Outgoing(side).sender)
  }

  /** A step the transport and the local peers allow when nothing goes wrong and the peers finish. */
  function PipeMove(s: System, side: Side): Step {
    var p := s.Outgoing(side);
    if p.receiver.Delivering? then Deliver(Other(side), |p.receiver.rest|, true)
    else if p.receiver.Collecting? && p.inFlight != [] then Take(Other(side), 1)
    else if p.sender.Reading? then Read(side, [], Eof)
    else Write(side, 1, true)
  }

  function RelayMove(s: System, side: Side): Step {
    var r := s.RelayAt(side);
    if !r.senderReported then ReportSender(side)
    else if !r.receiverReported then ReportReceiver(side)
    else if r.results != [] then Collect(side)
    else Return(side)
  }

  /** Write sides are closed last, so that a connection without a half-close of its own is not closed
      under a worker that still reads from it. */
  function NextMove(s: System): Step {
    if !PipeQuiet(s.ab) then PipeMove(s, A)
    else if !PipeQuiet(s.ba) then PipeMove(s, B)
    else if s.ab.receiver.ClosingWrite? then CloseWrite(B, true)
    else if s.ba.receiver.ClosingWrite? then CloseWrite(A, true)
    else if !s.a.returned then RelayMove(s, A)
    else RelayMove(s, B)
  }

  function SenderWork(sender: Sender): nat {
    match sender
    case Reading => 3 * HEADER_SIZE + 1
    case Writing(rest, after) =>
      3 * |rest| + (if after.Continue? then 3 * HEADER_SIZE + 1 else if after.SendClose? then 3 * HEADER_SIZE else 0)
    case SenderDone(_) => 0
  }

  function ReceiverWork(receiver: Receiver): nat {
    match receiver
    case Delivering(_) => 3
    case Collecting(_) => 2
    case ClosingWrite => 1
    case ReceiverDone(_) => 0
  }

  function PipeWork(p: Pipe): nat { SenderWork(p.sender) + 2 * |p.inFlight| + ReceiverWork(p.receiver) }

  function RelayWork(r: Relay): nat {
    2 * Count(!r.senderReported) + 2 * Count(!r.receiverReported) + |r.results| + Count(!r.returned)
  }

  function Work(s: System): nat { PipeWork(s.ab) + PipeWork(s.ba) + RelayWork(s.a) + RelayWork(s.b) }

  /** Nothing has failed, and no relay has closed its connections but one that has returned. */
  predicate Unharmed(s: System, capacity: nat) {
    && FaultFree(s) && WithinCapacity(s, capacity)
    && (s.a.framedCloses == 1 ==> s.a.returned) && (s.b.framedCloses == 1 ==> s.b.returned)
  }

  predicate Running(s: System, capacity: nat) {
    Unharmed(s, capacity) && CanFinish(s, A) && CanFinish(s, B)
  }

  /** A pipe that is not quiet is never stuck: a consumed stream that is still open cannot belong to
      a sender that has finished with nothing in flight. */
  lemma PipeNotStuck(p: Pipe)
    requires PipeInv(p) && !PipeQuiet(p)
    requires p.sender != SenderDone(false) && p.receiver != ReceiverDone(false)
    ensures p.sender.SenderDone? && p.receiver.Collecting? ==> p.inFlight != []
    ensures !p.receiver.ReceiverDone?
    ensures p.receiver.Collecting? ==> 0 < Need(p.receiver.buf)
  {
    if p.receiver.Collecting? && p.inFlight == [] {
      assert p.Sent() == p.consumed;
    }
    if p.receiver.ReceiverDone? {
      ClosedPipeIsDone(p);
    }
  }

  lemma PipeMoveEnabled(s: System, side: Side, capacity: nat)
    requires Inv(s) && Running(s, capacity) && 0 < capacity && !PipeQuiet(s.Outgoing(side))
    ensures Enabled(s, PipeMove(s, side))
  {
    hide Decode, Parse, Classify, Encode;
    PipeNotStuck(s.Outgoing(side));
  }

  /** Taking one octet of what a sound sender put on the transport never ends in an error. */
  lemma TakeIsClean(p: Pipe)
    requires PipeInv(p) && CanTake(p, 1)
    ensures DoTake(p, 1).receiver != ReceiverDone(false)
  {
    hide Decode, Parse, Need;
    var rest := if p.sender.Writing? then p.sender.rest else [];
    var buf := p.receiver.buf + p.inFlight[..1];
    assert p.Sent() + [] == p.Sent();
    DecodeSplit(p.consumed, p.inFlight[..1]);
    DecodeFront(buf, p.delivered);
    assert p.consumed + p.inFlight[..1] <= p.Sent() + rest;
    DecodePrefix(p.consumed + p.inFlight[..1], p.Sent() + rest);
  }

  lemma SenderMoveProgress(p: Pipe)
    requires FaultFreePipe(p)
    ensures p.sender.Reading? ==>
              var q := DoRead(p, [], Eof);
              PipeWork(q) < PipeWork(p) && FaultFreePipe(q) && q.read == p.read && q.inFlight == p.inFlight
    ensures p.sender.Writing? && p.sender.rest != [] ==>
              var q := DoWrite(p, 1, true);
              PipeWork(q) < PipeWork(p) && FaultFreePipe(q) && q.read == p.read && |q.inFlight| == |p.inFlight| + 1
  {
    hide Encode;
    CloseFrameSize();
    assert p.read + [] == p.read;
  }

  lemma ReceiverMoveProgress(p: Pipe)
    requires FaultFreePipe(p)
    ensures p.receiver.Delivering? && p.receiver.rest != [] ==>
              var q := DoDeliver(p, |p.receiver.rest|, true);
              PipeWork(q) < PipeWork(p) && FaultFreePipe(q) && q.read == p.read && q.inFlight == p.inFlight
    ensures CanTake(p, 1) && PipeInv(p) ==>
              var q := DoTake(p, 1);
              PipeWork(q) < PipeWork(p) && FaultFreePipe(q) && q.read == p.read && |q.inFlight| < |p.inFlight|
  {
    hide Classify, Need, PipeInv;
    if CanTake(p, 1) && PipeInv(p) {
      TakeIsClean(p);
      ClassifyWork(p.receiver.buf + p.inFlight[..1]);
    }
  }

  lemma ClosingProgress(p: Pipe)
    requires FaultFreePipe(p) && p.receiver.ClosingWrite?
    ensures var q := p.(closeWrites := p.closeWrites + 1, receiver := ReceiverDone(true));
            PipeWork(q) < PipeWork(p) && FaultFreePipe(q)
  {
  }

  /** What such a step does to the direction it belongs to; it touches nothing else. */
  function MovedPipe(p: Pipe): Pipe
    requires Movable(p)
  {
    if p.receiver.Delivering? then DoDeliver(p, |p.receiver.rest|, true)
    else if p.inFlight != [] then DoTake(p, 1)
    else if p.sender.Reading? then DoRead(p, [], Eof)
    else DoWrite(p, 1, true)
  }

  lemma MovedPipeProgress(p: Pipe, capacity: nat)
    requires PipeInv(p) && FaultFreePipe(p) && Movable(p) && |p.inFlight| <= capacity && 0 < capacity
    ensures var q := MovedPipe(p);
            PipeWork(q) < PipeWork(p) && FaultFreePipe(q) && q.read == p.read && |q.inFlight| <= capacity
  {
    assert p.receiver.Delivering? ==> p.receiver.rest != [];
    hide PipeInv, DoTake, DoRead, DoWrite, DoDeliver, PipeWork, CanTake;
    SenderMoveProgress(p);
    ReceiverMoveProgress(p);
  }

  predicate Movable(p: Pipe) {
    && !p.receiver.ReceiverDone? && !p.receiver.ClosingWrite?
    && (p.sender.Writing? ==> p.sender.rest != [])
    && (p.receiver.Collecting? && p.inFlight != [] ==> CanTake(p, 1))
    && (p.sender.SenderDone? ==> !p.receiver.Collecting? || p.inFlight != [])
  }

  lemma PipeMoveEffect(s: System, side: Side)
    requires Movable(s.Outgoing(side)) && Enabled(s, PipeMove(s, side))
    ensures Apply(s, PipeMove(s, side)) == s.WithOutgoing(side, MovedPipe(s.Outgoing(side)))
  {
    hide CanTake, DoTake, DoRead, DoWrite, DoDeliver;
  }

  /** Reading is over for good once it is over, and only CloseWrite counts as one. */
  lemma MovedPipeStillFinishes(p: Pipe)
    requires Movable(p)
    ensures MovedPipe(p).closeWrites == p.closeWrites
    ensures NeedsToRead(MovedPipe(p).sender) ==> NeedsToRead(p.sender)
  {
    hide CanTake, Classify, Encode;
  }

  lemma PipeMoveProgress(s: System, side: Side, capacity: nat)
    requires Inv(s) && Running(s, capacity) && 0 < capacity && !PipeQuiet(s.Outgoing(side))
    requires Enabled(s, PipeMove(s, side))
    ensures var t := Apply(s, PipeMove(s, side));
            Work(t) < Work(s) && Running(t, capacity) && t.ab.read == s.ab.read && t.ba.read == s.ba.read
  {
    var p := s.Outgoing(side);
    PipeNotStuck(p);
    assert Movable(p);
    hide Inv, PipeInv, Movable, PipeWork, RelayWork, FaultFreePipe, Apply, MovedPipe, NeedsToRead, Enabled, PipeMove, CanFinish;
    MovedPipeProgress(p, capacity);
    PipeMoveEffect(s, side);
    MovedPipeLeavesCanFinish(s, side);
  }

  lemma MovedPipeLeavesCanFinish(s: System, side: Side)
    requires Movable(s.Outgoing(side)) && CanFinish(s, A) && CanFinish(s, B)
    ensures var t := s.WithOutgoing(side, MovedPipe(s.Outgoing(side))); CanFinish(t, A) && CanFinish(t, B)
  {
    hide Movable, MovedPipe, NeedsToRead;
    MovedPipeStillFinishes(s.Outgoing(side));
  }

  /** Both directions are quiet: both senders have ended, and closing cannot get in their way. */
  lemma CloseMoveProgress(s: System, side: Side, capacity: nat)
    requires Inv(s) && Running(s, capacity) && PipeQuiet(s.ab) && PipeQuiet(s.ba)
    requires s.Outgoing(side).receiver.ClosingWrite?
    ensures Enabled(s, CloseWrite(Other(side), true))
    ensures var t := Apply(s, CloseWrite(Other(side), true));
            Work(t) < Work(s) && Running(t, capacity) && t.ab.read == s.ab.read && t.ba.read == s.ba.read
  {
    hide Decode, Parse, Classify, Encode;
    PipeSafety(s.ab);
    PipeSafety(s.ba);
    ClosingProgress(s.Outgoing(side));
    hide PipeInv, PipeWork, RelayWork, FaultFreePipe, NeedsToRead;
    assert !NeedsToRead(s.ab.sender) && !NeedsToRead(s.ba.sender) by { DoneNeedsNothing(s.ab.sender); DoneNeedsNothing(s.ba.sender); }
  }

  lemma DoneNeedsNothing(sender: Sender)
    ensures sender.SenderDone? ==> !NeedsToRead(sender)
  {
  }

  lemma CloseFrameSize()
    ensures |Encode(CloseFrame)| == HEADER_SIZE
  {
  }

  lemma ClassifyWork(buf: seq<Byte>)
    ensures ReceiverWork(Classify(buf)) <= 3
  {
  }

  lemma RelayMoveProgress(s: System, side: Side, capacity: nat)
    requires Inv(s) && Running(s, capacity) && PipeOver(s.ab) && PipeOver(s.ba) && !s.RelayAt(side).returned
    ensures Enabled(s, RelayMove(s, side))
    ensures var t := Apply(s, RelayMove(s, side));
            Work(t) < Work(s) && Running(t, capacity) && t.ab.read == s.ab.read && t.ba.read == s.ba.read
  {
    hide PipeInv, Classify, Encode, Need, DoTake, DoRead, DoWrite, DoDeliver, NeedsToRead, PipeWork;
    var r := s.RelayAt(side);
    assert RelayInv(s, A) && RelayInv(s, B);
    if RelayMove(s, side).Collect? {
      assert r.results[0] in r.results;
      assert r.results[0];
    }
    var t := Apply(s, RelayMove(s, side));
    assert t.ab == s.ab && t.ba == s.ba;
    assert FaultFree(t) && WithinCapacity(t, capacity);
    assert (t.a.framedCloses == 1 ==> t.a.returned) && (t.b.framedCloses == 1 ==> t.b.returned);
  }

  /** The transport is within its capacity before and after every step. */
  predicate RunWithin(s: System, steps: seq<Step>, capacity: nat)
    requires ValidRun(s, steps)
    decreases |steps|
  {
    WithinCapacity(s, capacity) && (steps != [] ==> RunWithin(Apply(s, steps[0]), steps[1..], capacity))
  }

  /** A run to the end of both relays without a failure, in which everything that was read is
      delivered, over a transport of that capacity. */
  predicate Completes(s: System, steps: seq<Step>, capacity: nat) {
    && ValidRun(s, steps) && RunWithin(s, steps, capacity)
    && var t := Exec(s, steps);
       && t.a.returned && t.b.returned && FaultFree(t)
       && t.ab.delivered == t.ab.read && t.ba.delivered == t.ba.read
  }

  /** From every state of a run in which nothing has failed, over a transport of any capacity and
      without ever exceeding it, both relays can still return with exactly what was read so far
      delivered: there is no deadlock. */
  lemma {:induction false} CompletionStaysPossible(s: System, capacity: nat) returns (steps: seq<Step>)
    requires Inv(s) && Running(s, capacity) && 0 < capacity
    ensures Completes(s, steps, capacity)
    ensures Exec(s, steps).ab.read == s.ab.read && Exec(s, steps).ba.read == s.ba.read
    decreases Work(s)
  {
    hide PipeInv, RelayOk, Classify, Encode, Need, DoTake, DoRead, DoWrite, DoDeliver, NeedsToRead;
    if PipeOver(s.ab) && PipeOver(s.ba) && s.a.returned && s.b.returned {
      OverIsDelivered(s.ab);
      OverIsDelivered(s.ba);
      return [];
    }
    var step := NextMove(s);
    MoveProgress(s, capacity);
    StepKeepsInv(s, step);
    var later := CompletionStaysPossible(Apply(s, step), capacity);
    steps := [step] + later;
    assert steps[1..] == later;
  }

  lemma MoveProgress(s: System, capacity: nat)
    requires Inv(s) && Running(s, capacity) && 0 < capacity
    requires !(PipeOver(s.ab) && PipeOver(s.ba) && s.a.returned && s.b.returned)
    ensures Enabled(s, NextMove(s))
    ensures var t := Apply(s, NextMove(s));
            Work(t) < Work(s) && Running(t, capacity) && t.ab.read == s.ab.read && t.ba.read == s.ba.read
  {
    hide Inv, Running, Work, Enabled, Apply, PipeMove;
    if !PipeQuiet(s.ab) {
      PipeMoveEnabled(s, A, capacity);
      PipeMoveProgress(s, A, capacity);
    } else if !PipeQuiet(s.ba) {
      PipeMoveEnabled(s, B, capacity);
      PipeMoveProgress(s, B, capacity);
    } else if s.ab.receiver.ClosingWrite? {
      CloseMoveProgress(s, A, capacity);
    } else if s.ba.receiver.ClosingWrite? {
      CloseMoveProgress(s, B, capacity);
    } else {
      RelayMoveProgress(s, NextMove(s).side, capacity);
    }
  }

  /** A worker that has to read from a connection that is closed can only end in a failure. */
  predicate Doomed(s: System, side: Side) {
    && 0 < s.RelayAt(side).localCloses
    && (NeedsToRead(s.Outgoing(side).sender) || s.Outgoing(side).sender == SenderDone(false))
  }

  lemma DoomedStays(s: System, step: Step, side: Side)
    requires Doomed(s, side) && Enabled(s, step)
    ensures Doomed(Apply(s, step), side)
  {
    hide Classify, Encode, Need;
  }

  lemma {:induction false} DoomedToTheEnd(s: System, steps: seq<Step>, side: Side)
    requires Doomed(s, side) && ValidRun(s, steps)
    ensures Doomed(Exec(s, steps), side)
    decreases |steps|
  {
    hide Doomed, Enabled, Apply;
    if steps != [] {
      DoomedStays(s, steps[0], side);
      DoomedToTheEnd(Apply(s, steps[0]), steps[1..], side);
    }
  }

  lemma CompletionNeedsReading(s: System, steps: seq<Step>, capacity: nat, side: Side)
    requires Inv(s) && Completes(s, steps, capacity)
    ensures CanFinish(s, side)
  {
    hide PipeInv, Classify, Encode, Need, Enabled, Apply;
    RunKeepsInv(s, steps);
    if !CanFinish(s, side) {
      assert RelayInv(s, side);
      DoomedToTheEnd(s, steps, side);
    }
  }

  /** While nothing has failed, completion over a bounded transport is possible exactly as long as no
      local connection that cannot half-close was closed under a worker that still reads from it. */
  lemma CompletionPossibleIff(s: System, capacity: nat)
    requires Inv(s) && Unharmed(s, capacity) && 0 < capacity
    ensures (exists steps :: Completes(s, steps, capacity)) <==> CanFinish(s, A) && CanFinish(s, B)
  {
    hide Inv, Unharmed, Completes, CanFinish;
    if CanFinish(s, A) && CanFinish(s, B) {
      var steps := CompletionStaysPossible(s, capacity);
    }
    forall steps | Completes(s, steps, capacity) ensures CanFinish(s, A) && CanFinish(s, B) {
      CompletionNeedsReading(s, steps, capacity, A);
      CompletionNeedsReading(s, steps, capacity, B);
    }
  }

  /** The peer closes its side before the local connection has sent anything. */
  function CloseFirst(): seq<Step> {
    [Read(B, [], Eof), Write(B, HEADER_SIZE, true), Take(A, HEADER_SIZE), CloseWrite(A, true)]
  }

  /** The direction from the peer, after so many of these steps. */
  function CloseFirstPipe(k: nat): Pipe
    requires k <= 4
  {
    var close := Encode(CloseFrame);
    if k == 0 then FreshPipe
    else if k == 1 then Pipe([], true, Writing(close, Finish), [], [], Collecting([]), [], 0, false, false)
    else if k == 2 then Pipe([], true, SenderDone(true), [], close, Collecting([]), [], 0, false, false)
    else if k == 3 then Pipe([], true, SenderDone(true), close, [], ClosingWrite, [], 0, false, false)
    else Pipe([], true, SenderDone(true), close, [], ReceiverDone(true), [], 1, false, false)
  }

  function CloseFirstState(k: nat): System
    requires k <= 4
  {
    System(FreshRelay(false).(localCloses := if k == 4 then 1 else 0), FreshRelay(true), FreshPipe, CloseFirstPipe(k))
  }

  lemma CloseFirstStep(k: nat)
    requires k < 4
    ensures Enabled(CloseFirstState(k), CloseFirst()[k]) && Apply(CloseFirstState(k), CloseFirst()[k]) == CloseFirstState(k + 1)
  {
    var close := Encode(CloseFrame);
    ParseEncode(CloseFrame, []);
    hide Encode, Parse;
    assert close + [] == close && [] + close == close && close[..HEADER_SIZE] == close && close[HEADER_SIZE..] == [];
  }

  lemma {:induction false} CloseFirstRun(k: nat)
    requires k <= 4
    ensures ValidRun(CloseFirstState(k), CloseFirst()[k..]) && Exec(CloseFirstState(k), CloseFirst()[k..]) == CloseFirstState(4)
    decreases 4 - k
  {
    if k < 4 {
      CloseFirstStep(k);
      CloseFirstRun(k + 1);
      hide Enabled, Apply, CloseFirstState;
      assert CloseFirst()[k..][1..] == CloseFirst()[k + 1..];
    }
  }

  lemma CloseFirstEnds(capacity: nat)
    ensures CloseFirst()[0..] == CloseFirst() && CloseFirstState(0) == Init(false, true)
    ensures Unharmed(CloseFirstState(4), capacity) && !CanFinish(CloseFirstState(4), A)
  {
    hide Encode;
  }

  /** A run without a failure after which no completion is possible: the local connection cannot
      half-close, and CloseWrite ended it under the worker that reads from it. */
  lemma CloseWriteStrandsReader(capacity: nat)
    requires 0 < capacity
    ensures ValidRun(Init(false, true), CloseFirst())
    ensures var s := Exec(Init(false, true), CloseFirst());
            && Unharmed(s, capacity) && !CanFinish(s, A)
            && !exists steps :: Completes(s, steps, capacity)
  {
    hide *;
    CloseFirstRun(0);
    CloseFirstEnds(capacity);
    InitInv(false, true);
    RunKeepsInv(Init(false, true), CloseFirst());
    CompletionPossibleIff(CloseFirstState(4), capacity);
  }

  lemma OverIsDelivered(p: Pipe)
    requires PipeInv(p) && PipeOver(p) && p.sender.ok && p.receiver.ok
    ensures p.delivered == p.read
  {
    PipeSafety(p);
  }
}
