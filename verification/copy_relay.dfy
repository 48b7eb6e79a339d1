// Relays that copy two raw streams in both directions: one kind closes both connections when the
// first direction has ended, the other when both have.
module CopyRelay {
  import opened Bytes

  datatype Copier = Copying | Ended | Broken

  /** One direction: `sent` is what its source sends before it half-closes, `held` what has been read
      and not written yet. */
  datatype Direction = Direction(sent: seq<Byte>, delivered: seq<Byte>, held: seq<Byte>, copier: Copier, halfClosed: bool)

  datatype System = System(there: Direction, back: Direction, closed: bool)

  datatype Step =
    | Read(back: bool, n: nat)
    | Write(back: bool, n: nat)
    | End(back: bool)
    | Break(back: bool)
    | Close

  function Of(s: System, back: bool): Direction { if back then s.back else s.there }

  function With(s: System, back: bool, d: Direction): System { if back then s.(back := d) else s.(there := d) }

  predicate Done(d: Direction) { !d.copier.Copying? }

  predicate Enabled(s: System, waitBoth: bool, step: Step) {
    match step
    case Read(b, n) =>
      var d := Of(s, b);
      !s.closed && d.copier.Copying? && d.held == [] && 0 < n && |d.delivered| + n <= |d.sent|
    case Write(b, n) => !s.closed && Of(s, b).copier.Copying? && 0 < n <= |Of(s, b).held|
    case End(b) => !s.closed && Of(s, b).copier.Copying? && Of(s, b).held == [] && |Of(s, b).delivered| == |Of(s, b).sent|
    case Break(b) => Of(s, b).copier.Copying?
    case Close => !s.closed && if waitBoth then Done(s.there) && Done(s.back) else Done(s.there) || Done(s.back)
  }

  function Apply(s: System, waitBoth: bool, step: Step): System
    requires Enabled(s, waitBoth, step)
  {
    match step
    case Read(b, n) => var d := Of(s, b); With(s, b, d.(held := (d.sent[|d.delivered|..])[..n]))
    case Write(b, n) => var d := Of(s, b); With(s, b, d.(delivered := d.delivered + d.held[..n], held := d.held[n..]))
    case End(b) => With(s, b, Of(s, b).(copier := Ended, halfClosed := true))
    case Break(b) => With(s, b, Of(s, b).(copier := Broken, halfClosed := true))
    case Close => s.(closed := true)
  }

  function Start(there: seq<Byte>, back: seq<Byte>): System {
    System(Direction(there, [], [], Copying, false), Direction(back, [], [], Copying, false), false)
  }

  ghost predicate ValidRun(s: System, waitBoth: bool, steps: seq<Step>)
    decreases |steps|
  {
    steps == [] || (Enabled(s, waitBoth, steps[0]) && ValidRun(Apply(s, waitBoth, steps[0]), waitBoth, steps[1..]))
  }

  ghost function Exec(s: System, waitBoth: bool, steps: seq<Step>): System
    requires ValidRun(s, waitBoth, steps)
    decreases |steps|
  {
    if steps == [] then s else Exec(Apply(s, waitBoth, steps[0]), waitBoth, steps[1..])
  }

  predicate Sound(d: Direction) {
    && d.delivered + d.held <= d.sent
    && (d.copier.Ended? ==> d.delivered == d.sent)
    && (d.halfClosed <==> Done(d))
  }

  predicate Inv(s: System, waitBoth: bool) {
    && Sound(s.there) && Sound(s.back)
    && (s.closed ==> if waitBoth then Done(s.there) && Done(s.back) else Done(s.there) || Done(s.back))
  }

  lemma StepKeepsInv(s: System, waitBoth: bool, step: Step)
    requires Inv(s, waitBoth) && Enabled(s, waitBoth, step)
    ensures Inv(Apply(s, waitBoth, step), waitBoth)
  {
    match step
    case Read(b, n) =>
      var d := Of(s, b);
      assert d.delivered + d.sent[|d.delivered|..][..n] == d.sent[..|d.delivered| + n];
    case Write(b, n) =>
      var d := Of(s, b);
      assert d.delivered + d.held[..n] + d.held[n..] == d.delivered + d.held;
    case _ =>
  }

  lemma {:induction false} RunKeepsInv(s: System, waitBoth: bool, steps: seq<Step>)
    requires Inv(s, waitBoth) && ValidRun(s, waitBoth, steps)
    ensures Inv(Exec(s, waitBoth, steps), waitBoth)
    ensures Exec(s, waitBoth, steps).there.sent == s.there.sent && Exec(s, waitBoth, steps).back.sent == s.back.sent
    decreases |steps|
  {
    hide Inv;
    if steps != [] {
      StepKeepsInv(s, waitBoth, steps[0]);
      RunKeepsInv(Apply(s, waitBoth, steps[0]), waitBoth, steps[1..]);
    }
  }

  /** Either kind of relay delivers a prefix, and all of it by the time it passes the end on without
      a failure. */
  lemma PrefixDelivery(there: seq<Byte>, back: seq<Byte>, waitBoth: bool, steps: seq<Step>)
    requires ValidRun(Start(there, back), waitBoth, steps)
    ensures var e := Exec(Start(there, back), waitBoth, steps);
            && e.there.delivered <= there && e.back.delivered <= back
            && (e.there.halfClosed && !e.there.copier.Broken? ==> e.there.delivered == there)
            && (e.back.halfClosed && !e.back.copier.Broken? ==> e.back.delivered == back)
  {
    RunKeepsInv(Start(there, back), waitBoth, steps);
  }

  lemma {:induction false} NothingBroken(s: System, waitBoth: bool, steps: seq<Step>)
    requires ValidRun(s, waitBoth, steps) && forall step :: step in steps ==> !step.Break?
    requires !s.there.copier.Broken? && !s.back.copier.Broken?
    ensures var e := Exec(s, waitBoth, steps); !e.there.copier.Broken? && !e.back.copier.Broken?
    decreases |steps|
  {
    if steps != [] {
      assert steps[0] in steps;
      NothingBroken(Apply(s, waitBoth, steps[0]), waitBoth, steps[1..]);
    }
  }

  /** For these two streams: in every run in which no copy failed, closing the connections came after
      all data. */
  ghost predicate ClosesAfterAllData(there: seq<Byte>, back: seq<Byte>, waitBoth: bool) {
    forall steps: seq<Step> ::
      ValidRun(Start(there, back), waitBoth, steps) && (forall step :: step in steps ==> !step.Break?) ==>
        AllDelivered(Exec(Start(there, back), waitBoth, steps))
  }

  predicate AllDelivered(s: System) {
    s.closed ==> s.there.delivered == s.there.sent && s.back.delivered == s.back.sent
  }

  /** Whatever the two sides send: that is exactly what waiting for both directions buys, unless there
      is nothing to lose. */
  lemma CompleteIffWaitsForBoth(there: seq<Byte>, back: seq<Byte>, waitBoth: bool)
    ensures ClosesAfterAllData(there, back, waitBoth) <==> waitBoth || (there == [] && back == [])
  {
    var s := Start(there, back);
    if waitBoth || (there == [] && back == []) {
      forall steps: seq<Step> | ValidRun(s, waitBoth, steps) && (forall step :: step in steps ==> !step.Break?)
        ensures AllDelivered(Exec(s, waitBoth, steps))
      {
        RunKeepsInv(s, waitBoth, steps);
        NothingBroken(s, waitBoth, steps);
      }
    } else {
      var steps := FirstEndCutsOff(there, back, back == []);
    }
  }

  /** What it takes for one direction to deliver everything and end. */
  function WholeCopy(d: seq<Byte>, back: bool): seq<Step> {
    if d == [] then [End(back)] else [Read(back, |d|), Write(back, |d|), End(back)]
  }

  /** The one direction ends before the other has begun, which is then cut off: a client that
      half-closes after its request loses the answer. */
  lemma FirstEndCutsOff(there: seq<Byte>, back: seq<Byte>, first: bool) returns (steps: seq<Step>)
    requires (if first then there else back) != []
    ensures steps == WholeCopy(if first then back else there, first) + [Close]
    ensures ValidRun(Start(there, back), false, steps) && forall step :: step in steps ==> !step.Break?
    ensures !AllDelivered(Exec(Start(there, back), false, steps))
  {
    var d := if first then back else there;
    var s := Start(there, back);
    var copied := if d == [] then s else Apply(Apply(s, false, Read(first, |d|)), false, Write(first, |d|));
    assert d == [] || d[..|d|] == d;
    var ended := Apply(copied, false, End(first));
    steps := [Close];
    assert ValidRun(Apply(ended, false, Close), false, []);
    OneMore(ended, false, Close, []);
    OneMore(copied, false, End(first), steps);
    steps := [End(first), Close];
    if d != [] {
      var held := Apply(s, false, Read(first, |d|));
      OneMore(held, false, Write(first, |d|), steps);
      OneMore(s, false, Read(first, |d|), [Write(first, |d|)] + steps);
      steps := [Read(first, |d|)] + ([Write(first, |d|)] + steps);
    }
  }

  /** Both directions can be copied whole, one after the other, and then either kind of relay closes. */
  lemma BothCanComplete(there: seq<Byte>, back: seq<Byte>, waitBoth: bool)
    ensures var s, steps := Start(there, back), WholeCopy(there, false) + (WholeCopy(back, true) + [Close]);
            && ValidRun(s, waitBoth, steps)
            && var e := Exec(s, waitBoth, steps);
               e.closed && e.there.delivered == there && e.back.delivered == back
  {
    var s := Start(there, back);
    var t := s.(there := Direction(there, there, [], Ended, true));
    var u := t.(back := Direction(back, back, [], Ended, true));
    assert ValidRun(Apply(u, waitBoth, Close), waitBoth, []);
    OneMore(u, waitBoth, Close, []);
    WholeCopyRuns(t, waitBoth, true, u, [Close]);
    WholeCopyRuns(s, waitBoth, false, t, WholeCopy(back, true) + [Close]);
  }

  lemma WholeCopyRuns(s: System, waitBoth: bool, back: bool, t: System, rest: seq<Step>)
    requires var d := Of(s, back); d == Direction(d.sent, [], [], Copying, false) && !s.closed
    requires t == With(s, back, Direction(Of(s, back).sent, Of(s, back).sent, [], Ended, true)) && ValidRun(t, waitBoth, rest)
    ensures var steps := WholeCopy(Of(s, back).sent, back) + rest;
            ValidRun(s, waitBoth, steps) && Exec(s, waitBoth, steps) == Exec(t, waitBoth, rest)
  {
    var d := Of(s, back).sent;
    var copied := if d == [] then s else Apply(Apply(s, waitBoth, Read(back, |d|)), waitBoth, Write(back, |d|));
    assert d == [] || (d[..|d|] == d && d[|d|..] == [] && [] + d == d);
    assert Apply(copied, waitBoth, End(back)) == t;
    OneMore(copied, waitBoth, End(back), rest);
    if d == [] {
      assert WholeCopy(d, back) + rest == [End(back)] + rest;
    } else {
      var held := Apply(s, waitBoth, Read(back, |d|));
      OneMore(held, waitBoth, Write(back, |d|), [End(back)] + rest);
      OneMore(s, waitBoth, Read(back, |d|), [Write(back, |d|)] + ([End(back)] + rest));
      assert WholeCopy(d, back) + rest == [Read(back, |d|)] + ([Write(back, |d|)] + ([End(back)] + rest));
    }
  }

  lemma OneMore(s: System, waitBoth: bool, step: Step, steps: seq<Step>)
    requires Enabled(s, waitBoth, step) && ValidRun(Apply(s, waitBoth, step), waitBoth, steps)
    ensures ValidRun(s, waitBoth, [step] + steps)
    ensures Exec(s, waitBoth, [step] + steps) == Exec(Apply(s, waitBoth, step), waitBoth, steps)
  {
    assert ([step] + steps)[1..] == steps;
  }
}
