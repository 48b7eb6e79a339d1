// Any number of processes that merge into and unmerge from one kubeconfig under its lock file. Every
// step of every process is a step of the system, in any order; any of them may fail, and a process
// may be killed anywhere.
module KubeconfigLock {
  import opened Wrappers
  import opened Kubeconfig

  /** Where a process is. `Computed` has the document to put in place; `Succeeded` and `Failing` still
      hold the lock. */
  datatype Phase =
    | Idle
    | Locked
    | HasRead(document: Document)
    | Computed(document: Document)
    | Succeeded
    | Failing
    | Reported(success: bool)
    | Killed

  /** `granted` lists the processes in the order in which they created the lock file, `done` those
      whose operation took effect, in the order in which it did. */
  datatype System = System(
    ops: seq<Op>, phases: seq<Phase>,
    file: Option<Document>, lockFile: bool,
    ghost granted: seq<nat>, ghost done: seq<nat>, ghost start: Option<Document>)

  datatype Step =
    | FindNoFile(p: nat)
    | CreateLock(p: nat)
    | Read(p: nat)
    | Compute(p: nat)
    | Replace(p: nat)
    | Fail(p: nat)
    | RemoveLock(p: nat)
    | Kill(p: nat)

  function Contents(file: Option<Document>): Document { if file.None? then EMPTY else file.value }

  predicate Holds(phase: Phase) {
    phase.Locked? || phase.HasRead? || phase.Computed? || phase.Succeeded? || phase.Failing?
  }

  predicate Enabled(s: System, step: Step) {
    && |s.phases| == |s.ops| && step.p < |s.phases|
    && var phase := s.phases[step.p];
       match step
       case FindNoFile(p) => phase.Idle? && s.ops[p].Unmerge? && s.file.None?
       case CreateLock(p) => phase.Idle?
       case Read(_) => phase.Locked?
       case Compute(_) => phase.HasRead?
       case Replace(_) => phase.Computed?
       case Fail(_) => phase.Idle? || phase.Locked? || phase.HasRead? || phase.Computed?
       case RemoveLock(_) => phase.Succeeded? || phase.Failing?
       case Kill(_) => !phase.Reported?
  }

  /** A merge is written out always, an unmerge only if it changed something. */
  predicate Writes(d: Document, op: Op) { op.Merge? || Changes(d, op.name) }

  ghost function Next(s: System, step: Step): System
    requires Enabled(s, step)
  {
    var p := step.p;
    match step
    case FindNoFile(_) => s.(phases := s.phases[p := Reported(true)])
    case CreateLock(_) =>
      if s.lockFile then s.(phases := s.phases[p := Reported(false)])
      else s.(phases := s.phases[p := Locked], lockFile := true, granted := s.granted + [p])
    case Read(_) => s.(phases := s.phases[p := HasRead(Contents(s.file))])
    case Compute(_) =>
      var d := s.phases[p].document;
      var r := Apply(d, s.ops[p]);
      if r.Failed? then s.(phases := s.phases[p := Failing])
      else if Writes(d, s.ops[p]) then s.(phases := s.phases[p := Computed(r.value)])
      else s.(phases := s.phases[p := Succeeded], done := s.done + [p])
    case Replace(_) =>
      s.(phases := s.phases[p := Succeeded], file := Some(s.phases[p].document), done := s.done + [p])
    case Fail(_) => s.(phases := s.phases[p := if s.phases[p].Idle? then Reported(false) else Failing])
    case RemoveLock(_) => s.(phases := s.phases[p := Reported(s.phases[p].Succeeded?)], lockFile := false)
    case Kill(_) => s.(phases := s.phases[p := Killed])
  }

  /** Nobody has begun, and nobody left a lock behind. */
  ghost predicate Start(s: System) {
    && |s.phases| == |s.ops| && (forall p :: 0 <= p < |s.phases| ==> s.phases[p].Idle?)
    && !s.lockFile && s.granted == [] && s.done == [] && s.start == s.file
  }

  // ---- What holds at every step ----

  ghost function OpsOf(ops: seq<Op>, order: seq<nat>): seq<Op>
    requires forall p :: p in order ==> p < |ops|
  {
    seq(|order|, i requires 0 <= i < |order| => assert order[i] in order; ops[order[i]])
  }

  /** The processes of `granted` that are also in `done`, in the order of `granted`. */
  ghost function InLockOrder(granted: seq<nat>, done: seq<nat>): seq<nat> {
    if granted == [] then []
    else
      var k := |granted| - 1;
      InLockOrder(granted[..k], done) + if granted[k] in done then [granted[k]] else []
  }

  predicate Distinct(ps: seq<nat>) { forall i, j :: 0 <= i < j < |ps| ==> ps[i] != ps[j] }

  ghost predicate Shape(s: System) {
    && |s.phases| == |s.ops|
    && Distinct(s.granted)
    && (forall p :: p in s.done ==> p in s.granted)
    && (forall p :: p in s.granted ==> p < |s.phases| && !s.phases[p].Idle?)
    && (forall p :: 0 <= p < |s.phases| && s.phases[p].Succeeded? ==> p in s.done)
    && (forall p :: p in s.done ==> s.phases[p] in {Succeeded, Reported(true), Killed})
    && (forall p :: p in s.granted && s.phases[p] == Reported(true) ==> p in s.done)
    && (forall p :: 0 <= p < |s.phases| && s.phases[p] == Reported(true) && p !in s.granted ==> s.ops[p].Unmerge?)
  }

  /** The lock file is there while a process holds it, that process is the last one it was granted
      to, and what it has read is what the file still says. */
  ghost predicate Exclusive(s: System) {
    && |s.phases| == |s.ops|
    && forall p :: 0 <= p < |s.phases| && Holds(s.phases[p]) ==>
         && s.lockFile && s.granted != [] && s.granted[|s.granted| - 1] == p
         && (s.phases[p].HasRead? ==> s.phases[p].document == Contents(s.file))
         && (s.phases[p].Computed? ==> Apply(Contents(s.file), s.ops[p]) == Ok(s.phases[p].document))
  }

  ghost predicate Serial(s: System) {
    && (forall p :: p in s.done ==> p < |s.ops|)
    && s.done == InLockOrder(s.granted, s.done)
    && Contents(s.file) == ApplyAll(Contents(s.start), OpsOf(s.ops, s.done))
    && AllAccepted(Contents(s.start), OpsOf(s.ops, s.done))
  }

  /** None of the operations is refused when its turn comes. */
  ghost predicate AllAccepted(d: Document, ops: seq<Op>) {
    ops == [] || (AllAccepted(d, ops[..|ops| - 1]) && Apply(ApplyAll(d, ops[..|ops| - 1]), ops[|ops| - 1]).Ok?)
  }

  ghost predicate Inv(s: System) { Shape(s) && Exclusive(s) && Serial(s) }

  lemma {:induction false} OrderIgnores(granted: seq<nat>, done: seq<nat>, p: nat)
    requires p !in granted
    ensures InLockOrder(granted, done + [p]) == InLockOrder(granted, done)
  {
    if granted != [] {
      OrderIgnores(granted[..|granted| - 1], done, p);
    }
  }

  /** The holder's operation takes effect: it is applied to what all before it left. */
  lemma EffectIsSerial(s: System, p: nat, file: Option<Document>)
    requires Shape(s) && Exclusive(s) && Serial(s) && p < |s.phases| && Holds(s.phases[p]) && !s.phases[p].Succeeded?
    requires Apply(Contents(s.file), s.ops[p]) == Ok(Contents(file))
    ensures p !in s.done
    ensures Serial(s.(file := file, done := s.done + [p]))
  {
    hide Apply, InLockOrder;
    EffectIsLast(s, p);
    var after := OpsOf(s.ops, s.done + [p]);
    assert after[..|s.done|] == OpsOf(s.ops, s.done) && after[|s.done|] == s.ops[p];
  }

  lemma EffectIsLast(s: System, p: nat)
    requires Shape(s) && Exclusive(s) && p < |s.phases| && Holds(s.phases[p]) && !s.phases[p].Succeeded?
    requires s.done == InLockOrder(s.granted, s.done)
    ensures p !in s.done && InLockOrder(s.granted, s.done + [p]) == s.done + [p]
  {
    var k := |s.granted| - 1;
    assert s.granted == s.granted[..k] + [p];
    assert p !in s.granted[..k];
    OrderIgnores(s.granted[..k], s.done, p);
    NotYetDone(s, p);
  }

  lemma NotYetDone(s: System, p: nat)
    requires Shape(s) && p < |s.phases| && Holds(s.phases[p]) && !s.phases[p].Succeeded? && s.granted != []
    requires s.granted[|s.granted| - 1] == p
    ensures p !in s.done
    ensures InLockOrder(s.granted, s.done) == InLockOrder(s.granted[..|s.granted| - 1], s.done)
  {
  }

  lemma {:induction false} OrderOfGrant(granted: seq<nat>, done: seq<nat>, p: nat)
    requires p !in done
    ensures InLockOrder(granted + [p], done) == InLockOrder(granted, done)
  {
    assert (granted + [p])[..|granted|] == granted;
  }

  lemma StepKeepsInv(s: System, step: Step)
    requires Inv(s) && Enabled(s, step)
    ensures Inv(Next(s, step))
  {
    hide Shape, Exclusive, Serial, Next;
    if Holds(s.phases[step.p]) {
      HolderWasGranted(s, step.p);
    }
    StepKeepsShape(s, step);
    StepKeepsExclusive(s, step);
    StepKeepsSerial(s, step);
  }

  lemma StepKeepsShape(s: System, step: Step)
    requires Shape(s) && Enabled(s, step) && (Holds(s.phases[step.p]) ==> step.p in s.granted)
    ensures Shape(Next(s, step))
  {
    hide Apply, Writes, Shape;
    var p, s' := step.p, Next(s, step);
    if s'.done != s.done {
      TakesEffect(s, p, s'.file);
    } else if s'.granted != s.granted {
      Grants(s, p);
    } else {
      MovesOn(s, p, s'.phases[p], s'.lockFile);
    }
  }

  lemma TakesEffect(s: System, p: nat, file: Option<Document>)
    requires Shape(s) && p < |s.phases| && p in s.granted
    ensures Shape(s.(phases := s.phases[p := Succeeded], file := file, done := s.done + [p]))
  {
  }

  lemma Grants(s: System, p: nat)
    requires Shape(s) && p < |s.phases| && s.phases[p].Idle?
    ensures Shape(s.(phases := s.phases[p := Locked], lockFile := true, granted := s.granted + [p]))
  {
    assert p !in s.granted && p !in s.done;
  }

  lemma MovesOn(s: System, p: nat, phase: Phase, lockFile: bool)
    requires Shape(s) && p < |s.phases| && !phase.Idle? && !phase.Succeeded?
    requires s.phases[p].Succeeded? ==> phase in {Reported(true), Killed}
    requires s.phases[p] in {Reported(true), Killed} ==> phase == s.phases[p] || phase.Killed?
    requires phase == Reported(true) ==> s.phases[p].Succeeded? || (s.phases[p].Idle? && s.ops[p].Unmerge?)
    ensures Shape(s.(phases := s.phases[p := phase], lockFile := lockFile))
  {
  }

  lemma HolderWasGranted(s: System, p: nat)
    requires Exclusive(s) && p < |s.phases| && Holds(s.phases[p])
    ensures p in s.granted
  {
  }

  lemma StepKeepsExclusive(s: System, step: Step)
    requires Inv(s) && Enabled(s, step)
    ensures Exclusive(Next(s, step))
  {
    hide Apply, ApplyAll, Serial, OpsOf, InLockOrder, Writes;
  }

  lemma StepKeepsSerial(s: System, step: Step)
    requires Inv(s) && Enabled(s, step)
    ensures Serial(Next(s, step))
  {
    hide Apply, ApplyAll;
    var p := step.p;
    match step
    case CreateLock(_) =>
      if !s.lockFile {
        OrderOfGrant(s.granted, s.done, p);
      }
    case Compute(_) =>
      var d := s.phases[p].document;
      var r := Apply(d, s.ops[p]);
      if r.Ok? && !Writes(d, s.ops[p]) {
        UnchangedIsNothing(d, s.ops[p].name);
        EffectIsSerial(s, p, s.file);
      }
    case Replace(_) => EffectIsSerial(s, p, Some(s.phases[p].document));
    case _ =>
  }

  lemma UnchangedIsNothing(d: Document, name: string)
    requires !Changes(d, name) && Apply(d, Unmerge(name)).Ok?
    ensures Apply(d, Unmerge(name)) == Ok(d)
  {
    ChangesWhen(d, name);
  }

  // ---- Whole runs ----

  ghost predicate ValidRun(s: System, steps: seq<Step>)
    decreases |steps|
  {
    steps == [] || (Enabled(s, steps[0]) && ValidRun(Next(s, steps[0]), steps[1..]))
  }

  ghost function Exec(s: System, steps: seq<Step>): System
    requires ValidRun(s, steps)
    decreases |steps|
  {
    if steps == [] then s else Exec(Next(s, steps[0]), steps[1..])
  }

  lemma OneMore(s: System, step: Step, steps: seq<Step>)
    requires Enabled(s, step) && ValidRun(Next(s, step), steps)
    ensures ValidRun(s, [step] + steps) && Exec(s, [step] + steps) == Exec(Next(s, step), steps)
  {
    assert ([step] + steps)[1..] == steps;
  }

  /** A process that reports success without ever having had the lock is an unmerge that found no file,
      so that there was nothing to take out. */
  lemma SkippedOnlyWithoutFile(s: System, step: Step)
    requires Enabled(s, step) && s.phases[step.p].Idle? && Next(s, step).phases[step.p] == Reported(true)
    ensures s.file.None? && s.ops[step.p].Unmerge? && Next(s, step).file.None?
    ensures !Writes(EMPTY, s.ops[step.p]) || s.ops[step.p].name == ""
  {
  }

  /** What a process does when nothing goes wrong. */
  function OwnSteps(p: nat, writes: bool): seq<Step> {
    if writes then [CreateLock(p), Read(p), Compute(p), Replace(p), RemoveLock(p)]
    else [CreateLock(p), Read(p), Compute(p), RemoveLock(p)]
  }

  /** When nobody has the lock, a process can go through with its operation by its own steps: it reports
      success exactly if the operation is not refused, the file is what it makes of it, and the lock is
      free again. */
  lemma FreeLockIsEnough(s: System, p: nat)
    requires |s.phases| == |s.ops| && p < |s.phases| && s.phases[p].Idle? && !s.lockFile
    ensures var r := Apply(Contents(s.file), s.ops[p]);
            var steps := OwnSteps(p, r.Ok? && Writes(Contents(s.file), s.ops[p]));
            && ValidRun(s, steps)
            && var e := Exec(s, steps);
               && e.phases == s.phases[p := Reported(r.Ok?)] && !e.lockFile
               && Contents(e.file) == (if r.Ok? then r.value else Contents(s.file))
  {
    var d := Contents(s.file);
    var r := Apply(d, s.ops[p]);
    NothingToWrite(d, s.ops[p]);
    hide Writes, Contents;
    var s1 := Next(s, CreateLock(p));
    var s2 := Next(s1, Read(p));
    var s3 := Next(s2, Compute(p));
    var s4 := if r.Ok? && Writes(d, s.ops[p]) then Next(s3, Replace(p)) else s3;
    var e := Next(s4, RemoveLock(p));
    assert e.phases == s.phases[p := Reported(r.Ok?)];
    assert ValidRun(e, []) && Exec(e, []) == e;
    OneMore(s4, RemoveLock(p), []);
    var steps := [RemoveLock(p)];
    if r.Ok? && Writes(d, s.ops[p]) {
      OneMore(s3, Replace(p), steps);
      steps := [Replace(p)] + steps;
      assert Contents(e.file) == r.value by { ContentsOfSome(r.value); }
    }
    OneMore(s2, Compute(p), steps);
    OneMore(s1, Read(p), [Compute(p)] + steps);
    OneMore(s, CreateLock(p), [Read(p)] + ([Compute(p)] + steps));
    assert [CreateLock(p)] + ([Read(p)] + ([Compute(p)] + steps)) == OwnSteps(p, r.Ok? && Writes(d, s.ops[p]));
  }

  lemma ContentsOfSome(d: Document)
    ensures Contents(Some(d)) == d
  {
  }

  /** What is not written would not change anything. */
  lemma NothingToWrite(d: Document, op: Op)
    ensures Apply(d, op).Ok? && !Writes(d, op) ==> Apply(d, op).value == d
  {
    if op.Unmerge? {
      ChangesWhen(d, op.name);
    }
  }

  /** A process that has the lock and is not killed can always give it back by its own steps. */
  lemma HolderCanLetGo(s: System, p: nat) returns (steps: seq<Step>)
    requires |s.phases| == |s.ops| && p < |s.phases| && Holds(s.phases[p])
    ensures forall step :: step in steps ==> step.p == p
    ensures ValidRun(s, steps)
    ensures var e := Exec(s, steps); !e.lockFile && p < |e.phases| && e.phases[p].Reported?
  {
    var t := s;
    steps := [];
    if !s.phases[p].Succeeded? && !s.phases[p].Failing? {
      t := Next(s, Fail(p));
      steps := [Fail(p)];
    }
    var e := Next(t, RemoveLock(p));
    assert ValidRun(e, []) && Exec(e, []) == e;
    OneMore(t, RemoveLock(p), []);
    if steps == [] {
      steps := [RemoveLock(p)];
    } else {
      OneMore(s, Fail(p), [RemoveLock(p)]);
      steps := steps + [RemoveLock(p)];
    }
  }

  lemma {:induction false} RunKeepsInv(s: System, steps: seq<Step>)
    requires Inv(s) && ValidRun(s, steps)
    ensures Inv(Exec(s, steps)) && Exec(s, steps).ops == s.ops && Exec(s, steps).start == s.start
    decreases |steps|
  {
    hide Inv;
    if steps != [] {
      StepKeepsInv(s, steps[0]);
      RunKeepsInv(Next(s, steps[0]), steps[1..]);
    }
  }

  lemma StartHasInv(s: System)
    requires Start(s)
    ensures Inv(s)
  {
  }

  /** After every run the file says what the operations that took effect say when they are applied one
      by one in the order of their locks. None of them was refused or is lost; an operation that was
      reported successful is among them, or was an unmerge that found no file; one that was reported
      failed is not. */
  lemma NoLostUpdate(s: System, steps: seq<Step>)
    requires Start(s) && ValidRun(s, steps)
    ensures var e := Exec(s, steps);
            && (forall p :: p in e.done ==> p < |s.ops|)
            && Contents(e.file) == ApplyAll(Contents(s.file), OpsOf(s.ops, e.done))
            && AllAccepted(Contents(s.file), OpsOf(s.ops, e.done))
            && Distinct(e.granted) && e.done == InLockOrder(e.granted, e.done)
    ensures var e := Exec(s, steps);
            && |e.phases| == |s.ops|
            && forall p :: 0 <= p < |e.phases| ==>
                 && (e.phases[p] == Reported(true) ==> p in e.done || (s.ops[p].Unmerge? && p !in e.granted))
                 && (e.phases[p] == Reported(false) ==> p !in e.done)
  {
    hide ApplyAll, OpsOf, InLockOrder;
    StartHasInv(s);
    RunKeepsInv(s, steps);
  }

  /** The lock file is only ever removed by the process that created it, while nobody else holds it. */
  lemma OnlyHolderRemovesLock(s: System, steps: seq<Step>, step: Step)
    requires Start(s) && ValidRun(s, steps) && Enabled(Exec(s, steps), step)
    requires Exec(s, steps).lockFile && !Next(Exec(s, steps), step).lockFile
    ensures var e := Exec(s, steps);
            && step.RemoveLock? && e.granted != [] && step.p == e.granted[|e.granted| - 1]
            && forall q :: 0 <= q < |e.phases| && Holds(e.phases[q]) ==> q == step.p
  {
    StartHasInv(s);
    RunKeepsInv(s, steps);
  }

  /** Only a rename by the holder changes the file. */
  lemma OnlyHolderWrites(s: System, steps: seq<Step>, step: Step)
    requires Start(s) && ValidRun(s, steps) && Enabled(Exec(s, steps), step)
    requires Next(Exec(s, steps), step).file != Exec(s, steps).file
    ensures var e := Exec(s, steps);
            && step.Replace? && e.lockFile && e.granted != [] && step.p == e.granted[|e.granted| - 1]
            && |s.ops| == |e.phases| && Apply(Contents(e.file), s.ops[step.p]) == Ok(Contents(Next(e, step).file))
  {
    hide Apply;
    StartHasInv(s);
    RunKeepsInv(s, steps);
  }

  lemma OpsAreThose(ops: seq<Op>, order: seq<nat>)
    requires forall p :: p in order ==> p < |ops|
    ensures forall op :: op in OpsOf(ops, order) ==> op in ops
  {
    forall op | op in OpsOf(ops, order) ensures op in ops {
      var i :| 0 <= i < |order| && OpsOf(ops, order)[i] == op;
      assert order[i] in order;
    }
  }

  /** However the processes interleave, every reference in the file resolves at every step. */
  lemma FileAlwaysResolves(s: System, steps: seq<Step>)
    requires Start(s) && ValidRun(s, steps) && Resolves(Contents(s.file))
    requires forall op :: op in s.ops && op.Merge? ==> SelfConsistent(op.source, op.name)
    ensures Resolves(Contents(Exec(s, steps).file))
  {
    hide Resolves, SelfConsistent, ApplyAll, OpsOf, InLockOrder, Exec, ValidRun, AllAccepted;
    NoLostUpdate(s, steps);
    var e := Exec(s, steps);
    OpsAreThose(s.ops, e.done);
    AlwaysResolves(Contents(s.file), OpsOf(s.ops, e.done));
  }
}
