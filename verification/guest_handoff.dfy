// Handing guest connections to waiting clients: a queue under a lock and a semaphore that counts
// what is in it. Any number of guests connect and any number of clients wait, all concurrently.
module GuestHandoff {
  import opened Wrappers

  /** A connection on its way in; the lock is held while `InLock` and `Appended`. */
  datatype Producer = Arriving | InLock | Appended | Unlocked | Signalled

  /** A client; the lock is held while `Looking`, `Took` and `FoundNothing`. */
  datatype Consumer = Waiting | Woken | Looking | Took(connection: nat) | FoundNothing | Serving(connection: nat)

  datatype Thread = OfProducer(p: nat) | OfConsumer(c: nat)

  /** Connections are numbered like the producers that bring them. `arrived` and `removed` list the
      connections appended to and removed from the queue, `takers` the clients that removed them. */
  datatype System = System(
    producers: seq<Producer>, consumers: seq<Consumer>,
    owner: Option<Thread>, count: nat, queue: seq<nat>,
    ghost arrived: seq<nat>, ghost removed: seq<nat>, ghost takers: seq<nat>)

  datatype Step = Produce(p: nat) | Consume(c: nat)

  predicate Enabled(s: System, step: Step) {
    match step
    case Produce(p) =>
      p < |s.producers| && !s.producers[p].Signalled? && (s.producers[p].Arriving? ==> s.owner.None?)
    case Consume(c) =>
      && c < |s.consumers| && !s.consumers[c].Serving?
      && (s.consumers[c].Waiting? ==> s.count > 0)
      && (s.consumers[c].Woken? ==> s.owner.None?)
  }

  ghost function Produced(s: System, p: nat): System
    requires Enabled(s, Produce(p))
  {
    match s.producers[p]
    case Arriving => s.(producers := s.producers[p := InLock], owner := Some(OfProducer(p)))
    case InLock => s.(producers := s.producers[p := Appended], queue := s.queue + [p], arrived := s.arrived + [p])
    case Appended => s.(producers := s.producers[p := Unlocked], owner := None)
    case Unlocked => s.(producers := s.producers[p := Signalled], count := s.count + 1)
    case Signalled => s
  }

  ghost function Consumed(s: System, c: nat): System
    requires Enabled(s, Consume(c))
  {
    match s.consumers[c]
    case Waiting => s.(consumers := s.consumers[c := Woken], count := s.count - 1)
    case Woken => s.(consumers := s.consumers[c := Looking], owner := Some(OfConsumer(c)))
    case Looking =>
      if s.queue == [] then s.(consumers := s.consumers[c := FoundNothing])
      else s.(consumers := s.consumers[c := Took(s.queue[0])], queue := s.queue[1..],
              removed := s.removed + [s.queue[0]], takers := s.takers + [c])
    case Took(connection) => s.(consumers := s.consumers[c := Serving(connection)], owner := None)
    case FoundNothing => s.(consumers := s.consumers[c := Waiting], owner := None)
    case Serving(_) => s
  }

  ghost function Apply(s: System, step: Step): System
    requires Enabled(s, step)
  {
    match step
    case Produce(p) => Produced(s, p)
    case Consume(c) => Consumed(s, c)
  }

  predicate Start(s: System) {
    && (forall p :: 0 <= p < |s.producers| ==> s.producers[p].Arriving?)
    && (forall c :: 0 <= c < |s.consumers| ==> s.consumers[c].Waiting?)
    && s.owner.None? && s.count == 0 && s.queue == []
  }

  // ---- Counting ----

  function Count<T>(s: seq<T>, f: T -> bool): nat {
    if s == [] then 0 else Count(s[..|s| - 1], f) + if f(s[|s| - 1]) then 1 else 0
  }

  lemma {:induction false} CountOfUpdate<T>(s: seq<T>, i: nat, x: T, f: T -> bool)
    requires i < |s|
    ensures Count(s[i := x], f) == Count(s, f) - (if f(s[i]) then 1 else 0) + (if f(x) then 1 else 0)
  {
    var k := |s| - 1;
    if i == k {
      assert s[i := x][..k] == s[..k];
    } else {
      assert s[i := x][..k] == s[..k][i := x];
      CountOfUpdate(s[..k], i, x, f);
    }
  }

  lemma {:induction false} CountOfSome<T>(s: seq<T>, i: nat, f: T -> bool)
    requires i < |s| && f(s[i])
    ensures Count(s, f) > 0
  {
    if i < |s| - 1 {
      CountOfSome(s[..|s| - 1], i, f);
    }
  }

  lemma {:induction false} CountOfNone<T>(s: seq<T>, f: T -> bool)
    ensures (forall x :: x in s ==> !f(x)) ==> Count(s, f) == 0
    ensures (forall x :: x in s ==> f(x)) ==> Count(s, f) == |s|
  {
    if s != [] {
      CountOfNone(s[..|s| - 1], f);
    }
  }

  /** In the queue, but not counted by the semaphore yet. */
  predicate Unsignalled(p: Producer) { p.Appended? || p.Unlocked? }

  /** Counted off the semaphore, but the connection is still in the queue. */
  predicate Claims(c: Consumer) { c.Woken? || c.Looking? }

  // ---- What holds at every step ----

  ghost predicate Balance(s: System) {
    |s.queue| == s.count + Count(s.producers, Unsignalled) + Count(s.consumers, Claims)
  }

  predicate Inside(p: Producer) { p.InLock? || p.Appended? }

  predicate InsideToo(c: Consumer) { c.Looking? || c.Took? || c.FoundNothing? }

  /** Threads between lock and unlock own the lock, and so there is at most one of them. */
  ghost predicate Mutex(s: System) {
    && (forall p :: 0 <= p < |s.producers| && Inside(s.producers[p]) ==> s.owner == Some(OfProducer(p)))
    && (forall c :: 0 <= c < |s.consumers| && InsideToo(s.consumers[c]) ==> s.owner == Some(OfConsumer(c)))
    && (s.owner.Some? ==>
          match s.owner.value
          case OfProducer(p) => p < |s.producers| && Inside(s.producers[p])
          case OfConsumer(c) => c < |s.consumers| && InsideToo(s.consumers[c]))
  }

  predicate HasArrived(p: Producer) { Unsignalled(p) || p.Signalled? }

  /** Connections leave the queue in the order in which they came, each to the client that took it. */
  ghost predicate Fifo(s: System) {
    && s.arrived == s.removed + s.queue
    && (forall i, j :: 0 <= i < j < |s.arrived| ==> s.arrived[i] != s.arrived[j])
    && (forall i :: 0 <= i < |s.arrived| ==> s.arrived[i] < |s.producers| && HasArrived(s.producers[s.arrived[i]]))
    && (forall p :: 0 <= p < |s.producers| && HasArrived(s.producers[p]) ==> p in s.arrived)
  }

  ghost predicate Delivered(s: System) {
    && |s.takers| == |s.removed|
    && (forall k :: 0 <= k < |s.takers| ==>
          s.takers[k] < |s.consumers| && s.consumers[s.takers[k]] in {Took(s.removed[k]), Serving(s.removed[k])})
    && (forall i, j :: 0 <= i < j < |s.takers| ==> s.takers[i] != s.takers[j])
    && (forall c :: 0 <= c < |s.consumers| && (s.consumers[c].Took? || s.consumers[c].Serving?) ==> c in s.takers)
    && (forall c :: 0 <= c < |s.consumers| ==> !s.consumers[c].FoundNothing?)
  }

  ghost predicate Inv(s: System) { Balance(s) && Mutex(s) && Fifo(s) && Delivered(s) }

  lemma StartHasInv(s: System)
    requires Start(s) && s.arrived == [] && s.removed == [] && s.takers == []
    ensures Inv(s)
  {
    StartIsBalanced(s);
    hide Balance, Count;
  }

  lemma StartIsBalanced(s: System)
    requires Start(s)
    ensures Balance(s)
  {
    CountOfNone(s.producers, Unsignalled);
    CountOfNone(s.consumers, Claims);
    hide Count;
  }

  /** A client that was woken finds a connection in the queue, whoever else is about. */
  lemma WokenFindsOne(s: System, c: nat)
    requires Balance(s) && c < |s.consumers| && Claims(s.consumers[c])
    ensures s.queue != []
  {
    CountOfSome(s.consumers, c, Claims);
  }

  lemma StepKeepsBalance(s: System, step: Step)
    requires Balance(s) && Enabled(s, step)
    requires step.Consume? ==> !s.consumers[step.c].FoundNothing?
    ensures Balance(Apply(s, step))
  {
    var s' := Apply(s, step);
    match step
    case Produce(p) => CountOfUpdate(s.producers, p, s'.producers[p], Unsignalled);
    case Consume(c) =>
      if s.consumers[c].Looking? {
        WokenFindsOne(s, c);
      }
      CountOfUpdate(s.consumers, c, s'.consumers[c], Claims);
  }

  lemma StepKeepsMutex(s: System, step: Step)
    requires Mutex(s) && Enabled(s, step)
    ensures Mutex(Apply(s, step))
  {
  }

  lemma ProducerKeepsFifo(s: System, p: nat)
    requires Fifo(s) && Enabled(s, Produce(p))
    ensures Fifo(Produced(s, p))
  {
    if s.producers[p].InLock? {
      assert p !in s.arrived;
      assert Produced(s, p).arrived == s.removed + (s.queue + [p]);
    }
  }

  lemma ConsumerKeepsFifo(s: System, c: nat)
    requires Fifo(s) && Enabled(s, Consume(c))
    ensures Fifo(Consumed(s, c))
  {
    if s.consumers[c].Looking? && s.queue != [] {
      assert s.queue == [s.queue[0]] + s.queue[1..];
    }
  }

  lemma StepKeepsDelivered(s: System, step: Step)
    requires Delivered(s) && Balance(s) && Enabled(s, step)
    ensures Delivered(Apply(s, step))
  {
    if step.Consume? && s.consumers[step.c].Looking? {
      WokenFindsOne(s, step.c);
      hide Balance;
      TakingKeepsDelivered(s, step.c);
    } else {
      hide Balance;
    }
  }

  lemma TakingKeepsDelivered(s: System, c: nat)
    requires Delivered(s) && Enabled(s, Consume(c)) && s.consumers[c].Looking? && s.queue != []
    ensures Delivered(Consumed(s, c))
  {
    assert c !in s.takers;
  }

  lemma StepKeepsInv(s: System, step: Step)
    requires Inv(s) && Enabled(s, step)
    ensures Inv(Apply(s, step))
  {
    hide Produced, Consumed, Balance, Mutex, Fifo;
    StepKeepsBalance(s, step);
    StepKeepsMutex(s, step);
    match step {
      case Produce(p) => ProducerKeepsFifo(s, p);
      case Consume(c) => ConsumerKeepsFifo(s, c);
    }
    StepKeepsDelivered(s, step);
  }

  // ---- Whole runs ----

  ghost predicate ValidRun(s: System, steps: seq<Step>)
    decreases |steps|
  {
    steps == [] || (Enabled(s, steps[0]) && ValidRun(Apply(s, steps[0]), steps[1..]))
  }

  ghost function Exec(s: System, steps: seq<Step>): System
    requires ValidRun(s, steps)
    decreases |steps|
  {
    if steps == [] then s else Exec(Apply(s, steps[0]), steps[1..])
  }

  lemma {:induction false} RunKeepsInv(s: System, steps: seq<Step>)
    requires Inv(s) && ValidRun(s, steps)
    ensures Inv(Exec(s, steps))
    decreases |steps|
  {
    hide Inv;
    if steps != [] {
      StepKeepsInv(s, steps[0]);
      RunKeepsInv(Apply(s, steps[0]), steps[1..]);
    }
  }

  /** After every run a woken client finds a connection, so that nobody ever looks in vain. */
  lemma NoVainWakeup(s: System, steps: seq<Step>, c: nat)
    requires Start(s) && s.arrived == [] && s.removed == [] && s.takers == [] && ValidRun(s, steps)
    ensures var e := Exec(s, steps);
            c < |e.consumers| ==> (Claims(e.consumers[c]) ==> e.queue != []) && !e.consumers[c].FoundNothing?
  {
    StartHasInv(s);
    RunKeepsInv(s, steps);
    var e := Exec(s, steps);
    if c < |e.consumers| && Claims(e.consumers[c]) {
      WokenFindsOne(e, c);
    }
  }

  /** After every run the clients that were served have the first connections in order of arrival,
      each connection went to one client, and each client has one. */
  lemma ServedInOrder(s: System, steps: seq<Step>)
    requires Start(s) && s.arrived == [] && s.removed == [] && s.takers == [] && ValidRun(s, steps)
    ensures var e := Exec(s, steps);
            && e.arrived == e.removed + e.queue && |e.takers| == |e.removed|
            && (forall k :: 0 <= k < |e.takers| ==>
                  && e.takers[k] < |e.consumers|
                  && e.consumers[e.takers[k]] in {Took(e.arrived[k]), Serving(e.arrived[k])})
            && (forall c, d :: 0 <= c < d < |e.consumers| && e.consumers[c].Serving? && e.consumers[d].Serving? ==>
                  e.consumers[c].connection != e.consumers[d].connection)
  {
    StartHasInv(s);
    RunKeepsInv(s, steps);
    var e := Exec(s, steps);
    hide Exec, ValidRun, Balance, Mutex, Start;
    forall c, d | 0 <= c < d < |e.consumers| && e.consumers[c].Serving? && e.consumers[d].Serving?
      ensures e.consumers[c].connection != e.consumers[d].connection
    {
      var i :| 0 <= i < |e.takers| && e.takers[i] == c;
      var j :| 0 <= j < |e.takers| && e.takers[j] == d;
      assert e.removed[i] == e.arrived[i] && e.removed[j] == e.arrived[j];
    }
  }

  // ---- Nobody waits who could be served ----

  predicate Idle(c: Consumer) { c.Waiting? || c.Serving? }

  /** When nothing can move any more, every guest has been queued and signalled, and either every
      client is served or there is no connection left to serve one with. */
  lemma StuckMeansServed(s: System)
    requires Inv(s) && forall step :: !Enabled(s, step)
    ensures forall p :: 0 <= p < |s.producers| ==> s.producers[p].Signalled?
    ensures s.queue == [] || forall c :: 0 <= c < |s.consumers| ==> s.consumers[c].Serving?
  {
    LockIsFree(s);
    forall p | 0 <= p < |s.producers| ensures s.producers[p].Signalled? {
      assert !Enabled(s, Produce(p));
    }
    forall c | 0 <= c < |s.consumers|
      ensures Idle(s.consumers[c]) && (s.consumers[c].Waiting? ==> s.count == 0)
    {
      assert !Enabled(s, Consume(c));
    }
    CountOfNone(s.producers, Unsignalled);
    CountOfNone(s.consumers, Claims);
  }

  lemma LockIsFree(s: System)
    requires Inv(s) && forall step :: !Enabled(s, step)
    ensures s.owner.None?
  {
    if s.owner.Some? {
      match s.owner.value
      case OfProducer(p) => assert Enabled(s, Produce(p));
      case OfConsumer(c) => assert Enabled(s, Consume(c));
    }
  }

  function StepsLeft(p: Producer): nat {
    match p case Arriving => 4 case InLock => 3 case Appended => 2 case Unlocked => 1 case Signalled => 0
  }

  function StepsLeftToo(c: Consumer): nat {
    match c case Waiting => 4 case Woken => 3 case Looking => 2 case FoundNothing => 0 case Took(_) => 1 case Serving(_) => 0
  }

  ghost function Left(s: System): nat { Sum(s.producers, StepsLeft) + Sum(s.consumers, StepsLeftToo) }

  function Sum<T>(s: seq<T>, f: T -> nat): nat {
    if s == [] then 0 else Sum(s[..|s| - 1], f) + f(s[|s| - 1])
  }

  lemma {:induction false} SumOfUpdate<T>(s: seq<T>, i: nat, x: T, f: T -> nat)
    requires i < |s|
    ensures Sum(s[i := x], f) == Sum(s, f) - f(s[i]) + f(x)
  {
    var k := |s| - 1;
    if i == k {
      assert s[i := x][..k] == s[..k];
    } else {
      assert s[i := x][..k] == s[..k][i := x];
      SumOfUpdate(s[..k], i, x, f);
    }
  }

  /** Every run comes to such an end: no client goes back to waiting, so each step uses one up. */
  lemma EveryStepCounts(s: System, step: Step)
    requires Inv(s) && Enabled(s, step)
    ensures Left(Apply(s, step)) == Left(s) - 1
  {
    hide Sum, Inv;
    match step
    case Produce(p) => SumOfUpdate(s.producers, p, Produced(s, p).producers[p], StepsLeft);
    case Consume(c) =>
      NeverInVain(s, c);
      SumOfUpdate(s.consumers, c, Consumed(s, c).consumers[c], StepsLeftToo);
  }

  lemma NeverInVain(s: System, c: nat)
    requires Inv(s) && c < |s.consumers|
    ensures !s.consumers[c].FoundNothing? && (s.consumers[c].Looking? ==> s.queue != [])
  {
    if s.consumers[c].Looking? {
      WokenFindsOne(s, c);
    }
  }

  lemma {:induction false} RunsAreBounded(s: System, steps: seq<Step>)
    requires Inv(s) && ValidRun(s, steps)
    ensures Left(Exec(s, steps)) + |steps| == Left(s)
    decreases |steps|
  {
    hide Inv, Left;
    if steps != [] {
      StepKeepsInv(s, steps[0]);
      EveryStepCounts(s, steps[0]);
      RunsAreBounded(Apply(s, steps[0]), steps[1..]);
    }
  }
}
