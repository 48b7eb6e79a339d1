// Starting, stopping, deleting and snapshotting VMs: the state record kept beside each VM and the
// hypervisor processes it speaks about. Every external call may fail, and processes may die at any
// time; a process that was signalled or asked to shut down may take any time to do so.
module Lifecycle {
  import opened Wrappers

  /** state.json; any status other than "running" counts as stopped. */
  datatype Record = Stopped | Running(pid: nat, ready: bool, api: bool)

  datatype Vm = Vm(cloud: bool, fromSnapshot: bool, metadata: bool, record: Option<Record>)

  /** What a hypervisor process can be asked, the ways to end it from the mildest on. */
  datatype Request = PauseVm | ResumeVm | ShutDownGuest | ShutDownVmm | Terminate | Kill

  function Rank(r: Request): nat {
    match r
    case PauseVm => 0 case ResumeVm => 0 case ShutDownGuest => 0
    case ShutDownVmm => 1 case Terminate => 2 case Kill => 3
  }

  predicate IsSignal(r: Request) { r.Terminate? || r.Kill? }

  /** What a start waits for, one after the other; the last of all is the guest, over SSH. */
  datatype Endpoint = Api | VsockSocket | RestoreCompleted | ResumeCompleted | RelayReady | ExecRelay | Guest

  const EVERYTHING: set<Endpoint> := {Api, VsockSocket, RestoreCompleted, ResumeCompleted, RelayReady, ExecRelay, Guest}

  lemma IsEverything(e: Endpoint)
    ensures e in EVERYTHING
  {
  }

  /** What must work before the guest is tried. */
  function Needed(vm: Vm): set<Endpoint> {
    if vm.cloud then {Api, VsockSocket}
    else if vm.fromSnapshot then {RestoreCompleted, ResumeCompleted, RelayReady, ExecRelay}
    else {ExecRelay}
  }

  /** A hypervisor process. `heard`: the ways to end it that reached it; `lost`: the requests that got no
      good reply and the signals that could not be sent; `up`: what of it has been seen to work. */
  datatype Process = Process(
    vm: string, alive: bool, heard: seq<Request>, lost: seq<Request>, paused: bool, up: set<Endpoint>)
  {
    predicate Answered() { Guest in up }
  }

  datatype Part = Memory | Disks

  /** A part of a VM written out for a snapshot, and how its process stood at that time. */
  datatype Copy = Copy(snapshot: string, pid: nat, part: Part, process: Process) {
    /** The guest could not write meanwhile. */
    predicate Still() { process.paused || !process.alive }
  }

  /** `next` is the process number the kernel hands out next; numbers are not used again. `copies` lists
      what was ever written out for a snapshot, in order; `unrecorded` counts the state records that could
      not be written and the processes that could not be let go of. */
  datatype World = World(vms: map<string, Vm>, procs: map<nat, Process>, next: nat, snapshots: set<string>, copies: seq<Copy>, unrecorded: nat) {
    predicate Alive(p: nat) { p in procs && procs[p].alive }

    predicate Untold(p: nat) { Alive(p) && procs[p].heard == [] }

    /** Neither was it told to end nor was a SIGTERM for it refused. */
    predicate Undisturbed(p: nat) { Untold(p) && Terminate !in procs[p].lost }

    predicate RecordsRunning(vm: string, p: nat) {
      vm in vms && vms[vm].record.Some? && vms[vm].record.value.Running? && vms[vm].record.value.pid == p
    }

    /** What most calls need to find: metadata and a state record. */
    predicate Complete(vm: string) { vm in vms && vms[vm].metadata && vms[vm].record.Some? }

    /** The VM is recorded running by a process that is alive. */
    predicate Up(vm: string) {
      vm in vms && vms[vm].record.Some? && vms[vm].record.value.Running? && Alive(vms[vm].record.value.pid)
    }
  }

  /** Process numbers are in use, and a VM is only ever recorded with a process of its own, and as ready
      only when its guest has answered. */
  ghost predicate Sound(w: World) {
    && 0 < w.next
    && (forall p :: p in w.procs ==> 0 < p < w.next)
    && (forall v :: v in w.vms && w.vms[v].record.Some? && w.vms[v].record.value.Running? ==>
          RecordFits(w, v, w.vms[v].record.value))
  }

  predicate RecordFits(w: World, vm: string, r: Record) {
    r.Running? ==> r.pid in w.procs && w.procs[r.pid].vm == vm && (r.ready ==> w.procs[r.pid].Answered())
  }

  // ---- What a call may do ----

  /** Existing processes only die; only those of `vm` are told anything, paused or resumed. */
  ghost predicate Drifts(a: World, b: World, vm: string) {
    && a.next <= b.next
    && forall p :: p in a.procs ==>
         && p in b.procs && b.procs[p].vm == a.procs[p].vm
         && (b.procs[p].alive ==> a.procs[p].alive)
         && a.procs[p].heard <= b.procs[p].heard && a.procs[p].lost <= b.procs[p].lost
         && a.procs[p].up <= b.procs[p].up
         && (a.procs[p].vm != vm ==>
               && b.procs[p].heard == a.procs[p].heard && b.procs[p].lost == a.procs[p].lost
               && b.procs[p].paused == a.procs[p].paused)
  }

  predicate SameProcesses(a: World, b: World) { b.procs.Keys == a.procs.Keys && b.next == a.next }

  /** Nothing but the state of existing processes is different. */
  predicate OnlyProcs(a: World, b: World) { b == a.(procs := b.procs) && b.procs.Keys == a.procs.Keys }

  lemma OnlyProcsOn(a: World, b: World, c: World)
    requires OnlyProcs(a, b) && OnlyProcs(b, c)
    ensures OnlyProcs(a, c)
  {
  }

  predicate SameSnapshots(a: World, b: World) { b.snapshots == a.snapshots && b.copies == a.copies }

  /** Nothing but the record of one VM is different in the stores. */
  predicate OnlyRecord(a: World, b: World, vm: string) {
    && vm in a.vms && vm in b.vms && SameSnapshots(a, b)
    && b.vms[vm] == a.vms[vm].(record := b.vms[vm].record)
    && b.vms.Keys == a.vms.Keys && forall v :: v in a.vms && v != vm ==> b.vms[v] == a.vms[v]
  }

  /** The process that `vm` was recorded running with, if any, is dead. */
  predicate RecordedGone(a: World, b: World, vm: string) {
    vm in a.vms && a.vms[vm].record.Some? && a.vms[vm].record.value.Running? ==> !b.Alive(a.vms[vm].record.value.pid)
  }

  ghost predicate Launched(a: World, vm: string, started: bool, ok: bool, b: World) {
    && Drifts(a, b, vm) && OnlyRecord(a, b, vm)
    && (|| (SameProcesses(a, b) && !started && !ok && b.vms == a.vms)
        || (&& b.procs.Keys == a.procs.Keys + {a.next} && b.next == a.next + 1 && b.procs[a.next].vm == vm
            && LaunchOutcome(a, vm, started, ok, b)))
  }

  /** Either the VM is left running with all that was waited for, and recorded so; or the new process was
      told to stop, as far as the signal could be sent, and the VM recorded stopped, as far as that could. */
  predicate LaunchOutcome(a: World, vm: string, started: bool, ok: bool, b: World)
    requires a.next in b.procs && vm in a.vms && vm in b.vms
  {
    if started then
      && b.RecordsRunning(vm, a.next) && b.procs[a.next].heard == [] && !b.procs[a.next].paused
      && Needed(a.vms[vm]) <= b.procs[a.next].up
      && (ok ==> b.vms[vm].record.value.ready && b.procs[a.next].Answered())
    else
      && !ok && (b.procs[a.next].heard != [] || Terminate in b.procs[a.next].lost)
      && (|| b.vms[vm].record == Some(Stopped)
          || (a.unrecorded < b.unrecorded && (b.vms[vm].record == a.vms[vm].record || b.RecordsRunning(vm, a.next))))
  }

  /** During a launch: the new process is recorded and has not been told anything. */
  ghost predicate InFlight(a: World, b: World, vm: string, paused: bool) {
    && Drifts(a, b, vm) && OnlyRecord(a, b, vm)
    && b.procs.Keys == a.procs.Keys + {a.next} && b.next == a.next + 1 && b.procs[a.next].vm == vm
    && b.RecordsRunning(vm, a.next) && b.procs[a.next].heard == [] && b.procs[a.next].paused == paused
    && b.unrecorded == a.unrecorded
  }

  /** A start does nothing for a VM without metadata or a state record. */
  ghost predicate StartStep(a: World, vm: string, started: bool, ok: bool, b: World) {
    || (Drifts(a, b, vm) && SameProcesses(a, b) && b.vms == a.vms && SameSnapshots(a, b) && !started && (ok ==> a.Up(vm)))
    || (a.Complete(vm) && Launched(a, vm, started, ok, b) && RecordedGone(a, b, vm))
  }

  /** Nothing has happened but to processes. */
  ghost predicate Unchanged(a: World, b: World, vm: string) {
    Drifts(a, b, vm) && SameProcesses(a, b) && b.vms == a.vms && SameSnapshots(a, b) && b.unrecorded == a.unrecorded
  }

  ghost predicate StopStep(a: World, vm: string, stopped: bool, ok: bool, b: World) {
    && Drifts(a, b, vm) && SameProcesses(a, b)
    && (|| (b.vms == a.vms && SameSnapshots(a, b) && !ok)
        || (OnlyRecord(a, b, vm) && b.vms[vm].record == Some(Stopped) && ok && RecordedGone(a, b, vm)))
    && (stopped ==> RecordedGone(a, b, vm))
  }

  ghost predicate DeleteStep(a: World, vm: string, force: bool, ok: bool, b: World) {
    && (!force ==> b.procs == a.procs)
    && Drifts(a, b, vm) && SameProcesses(a, b) && SameSnapshots(a, b)
    && (|| (ok && vm in a.vms && b.vms == a.vms - {vm} && RecordedGone(a, b, vm))
        || (!ok && b.vms == a.vms)
        || (!ok && vm in a.vms && vm in b.vms && RecordedGone(a, b, vm) && b.vms == a.vms[vm := b.vms[vm]]
            && (b.vms[vm].record == a.vms[vm].record || b.vms[vm].record == Some(Stopped) || b.vms[vm].record == None)))
  }

  /** What was copied for the snapshot on top of what had been copied before, all of it while the guest
      could not write; on success first the memory, then the disks. */
  predicate CopiesMade(before: seq<Copy>, after: seq<Copy>, name: string, pid: nat, ok: bool) {
    && before <= after
    && (forall i :: |before| <= i < |after| ==> after[i].snapshot == name && after[i].pid == pid && after[i].Still())
    && (ok ==> |after| == |before| + 2 && after[|before|].part.Memory? && after[|before| + 1].part.Disks?)
  }

  predicate MemoryMade(before: seq<Copy>, after: seq<Copy>) {
    |after| == |before| + 1 && before <= after && after[|before|].part.Memory?
  }

  lemma NothingMade(copies: seq<Copy>, name: string, pid: nat)
    ensures CopiesMade(copies, copies, name, pid, false)
  {
  }

  lemma OneMade(before: seq<Copy>, c: Copy)
    requires c.Still()
    ensures CopiesMade(before, before + [c], c.snapshot, c.pid, false) && (c.part.Memory? ==> MemoryMade(before, before + [c]))
  {
  }

  lemma DisksMade(before: seq<Copy>, saved: seq<Copy>, c: Copy)
    requires CopiesMade(before, saved, c.snapshot, c.pid, false) && MemoryMade(before, saved) && c.part.Disks? && c.Still()
    ensures CopiesMade(before, saved + [c], c.snapshot, c.pid, true)
    ensures !c.process.alive ==> DisksWhenDead(before, saved + [c])
  {
  }

  /** The disks were copied when there was no process any more. */
  predicate DisksWhenDead(before: seq<Copy>, after: seq<Copy>) {
    forall i :: |before| <= i < |after| && after[i].part.Disks? ==> !after[i].process.alive
  }

  lemma MadeAnyway(before: seq<Copy>, after: seq<Copy>, name: string, pid: nat)
    requires CopiesMade(before, after, name, pid, true)
    ensures CopiesMade(before, after, name, pid, false)
  {
  }

  /** The machine state has been written and its process is gone, or nothing is recorded. */
  ghost predicate Saved(a: World, vm: string, ok: bool, b: World) {
    && Drifts(a, b, vm) && SameProcesses(a, b) && b.snapshots == a.snapshots
    && if ok then OnlyRecord(a.(copies := b.copies), b, vm) && b.vms[vm].record == Some(Stopped) && RecordedGone(a, b, vm)
       else b.vms == a.vms
  }

  ghost predicate SnapshotStep(a: World, vm: string, name: string, ok: bool, b: World) {
    && Drifts(a, b, vm) && SameProcesses(a, b)
    && b.snapshots == (if ok then a.snapshots + {name} else a.snapshots)
    && (ok ==> name !in a.snapshots && a.Complete(vm))
    && (b.copies != a.copies || ok ==> a.Up(vm) && CopiesMade(a.copies, b.copies, name, a.vms[vm].record.value.pid, ok))
    && (|| (b.vms == a.vms && !ok)
        || (&& a.Up(vm) && a.vms[vm].record.value.ready && vm in b.vms
            && b.vms == a.vms[vm := b.vms[vm]] && b.vms[vm] == a.vms[vm].(record := Some(Stopped)) && RecordedGone(a, b, vm)))
  }

  ghost predicate CreateStep(a: World, vm: string, ok: bool, b: World) {
    && Drifts(a, b, vm) && SameProcesses(a, b) && SameSnapshots(a, b)
    && (|| (!ok && b.vms == a.vms)
        || (vm !in a.vms && vm in b.vms && b.vms == a.vms[vm := b.vms[vm]]
            && b.vms[vm].record == (if ok then Some(Stopped) else None)))
  }

  /** What one request or signal, sent to a process, leaves recorded. */
  predicate Asked(before: Process, request: Request, ok: bool, after: Process) {
    && (ok ==> after.heard == before.heard + [request] && after.lost == before.lost)
    && (!ok ==> after.lost == before.lost + [request])
    && (!ok ==> after.heard == before.heard || (!IsSignal(request) && after.heard == before.heard + [request]))
  }

  lemma AskedStays(before: Process, request: Request, ok: bool, after: Process, later: Process)
    requires Asked(before, request, ok, after) && later == after.(alive := later.alive, up := later.up)
    ensures Asked(before, request, ok, later)
  {
  }

  lemma DriftsOn(a: World, b: World, c: World, vm: string)
    requires Drifts(a, b, vm) && Drifts(b, c, vm)
    ensures Drifts(a, c, vm)
  {
  }

  // ---- The client ----

  datatype Mode = Graceful | ForDelete

  class Host {
    var w: World
    /** Whether every call succeeds that can, guests answer, and processes end when they are told to;
        stubborn ones only by SIGKILL. */
    const reliable: bool
    const stubborn: bool

    /** This process is certain to end. */
    predicate Ends(p: Process) { reliable && (Kill in p.heard || (!stubborn && p.heard != [])) }

    ghost predicate Valid()
      reads this
    {
      Sound(w)
    }

    constructor (reliable: bool, stubborn: bool)
      ensures Valid() && w == World(map[], map[], 1, {}, [], 0) && this.reliable == reliable && this.stubborn == stubborn
    {
      w, this.reliable, this.stubborn := World(map[], map[], 1, {}, [], 0), reliable, stubborn;
    }

    /** Time passes: those processes and any others may die, and guests may answer. */
    method Elapse(ghost vm: string, gone: set<nat>)
      requires Valid()
      modifies this
      ensures Valid() && Drifts(old(w), w, vm) && OnlyProcs(old(w), w)
      ensures forall p :: p in w.procs ==>
                w.procs[p] == old(w).procs[p].(alive := w.procs[p].alive, up := w.procs[p].up)
      ensures forall p :: p in gone ==> !w.Alive(p)
    {
      var survivors: set<nat>, news: map<nat, set<Endpoint>> := *, *;
      survivors := survivors - gone;
      w := w.(procs := map p | p in w.procs ::
                w.procs[p].(alive := w.procs[p].alive && p in survivors, up := w.procs[p].up + if p in news then news[p] else {}));
    }

    method ProcessAlive(pid: nat) returns (alive: bool)
      ensures alive <==> pid != 0 && w.Alive(pid)
    {
      alive := pid != 0 && pid in w.procs && w.procs[pid].alive;
    }

    method Mark(vm: string, pid: nat, heard: seq<Request>, lost: seq<Request>, paused: bool)
      requires Valid() && pid in w.procs && w.procs[pid].vm == vm
      requires w.procs[pid].heard <= heard && w.procs[pid].lost <= lost
      modifies this
      ensures Valid() && Drifts(old(w), w, vm) && OnlyProcs(old(w), w)
      ensures w.procs == old(w).procs[pid := old(w).procs[pid].(heard := heard, lost := lost, paused := paused)]
    {
      w := w.(procs := w.procs[pid := w.procs[pid].(heard := heard, lost := lost, paused := paused)]);
    }

    /** A signal that cannot be sent has not arrived; a request without a good reply may have. */
    method Deliver(vm: string, pid: nat, request: Request) returns (ok: bool)
      requires Valid() && pid in w.procs && w.procs[pid].vm == vm
      modifies this
      ensures Valid() && Drifts(old(w), w, vm) && OnlyProcs(old(w), w)
      ensures w.procs[pid].vm == vm && Asked(old(w).procs[pid], request, ok, w.procs[pid])
      ensures reliable ==> ok
    {
      hide Drifts, Sound, OnlyProcs;
      ok := *;
      ok := ok || reliable;
      var arrived: bool := *;
      arrived := ok || (arrived && !IsSignal(request));
      var p := w.procs[pid];
      Mark(vm, pid, if arrived then p.heard + [request] else p.heard, if ok then p.lost else p.lost + [request], p.paused);
    }

    method Ask(vm: string, pid: nat, request: Request) returns (ok: bool)
      requires Valid() && pid in w.procs && w.procs[pid].vm == vm
      modifies this
      ensures Valid() && Drifts(old(w), w, vm) && OnlyProcs(old(w), w)
      ensures w.procs[pid].vm == vm && Asked(old(w).procs[pid], request, ok, w.procs[pid])
      ensures reliable ==> ok
    {
      hide Drifts, Sound, Asked;
      ghost var a := w;
      ok := Deliver(vm, pid, request);
      ghost var b := w;
      Elapse(vm, {});
      DriftsOn(a, b, w, vm);
      AskedStays(a.procs[pid], request, ok, b.procs[pid], w.procs[pid]);
    }

    method SetPaused(vm: string, pid: nat, paused: bool) returns (ok: bool)
      requires Valid() && pid in w.procs && w.procs[pid].vm == vm
      modifies this
      ensures Valid() && Drifts(old(w), w, vm) && OnlyProcs(old(w), w)
      ensures w.procs[pid].heard == old(w).procs[pid].heard && w.procs[pid].vm == vm
      ensures ok ==> w.procs[pid].paused == paused && w.procs[pid].lost == old(w).procs[pid].lost
      ensures !ok ==> w.procs[pid].lost == old(w).procs[pid].lost + [if paused then PauseVm else ResumeVm]
      ensures reliable ==> ok
    {
      hide Drifts, OnlyProcs;
      ghost var a := w;
      ok := *;
      ok := ok || reliable;
      var arrived: bool := *;
      var p := w.procs[pid];
      Mark(vm, pid, p.heard, if ok then p.lost else p.lost + [if paused then PauseVm else ResumeVm],
           if ok || arrived then paused else p.paused);
      ghost var b := w;
      Elapse(vm, {});
      DriftsOn(a, b, w, vm);
      OnlyProcsOn(a, b, w);
    }

    method WaitForExit(vm: string, pid: nat) returns (exited: bool)
      requires Valid()
      modifies this
      ensures Valid() && Drifts(old(w), w, vm) && OnlyProcs(old(w), w)
      ensures forall p :: p in w.procs ==>
                w.procs[p] == old(w).procs[p].(alive := w.procs[p].alive, up := w.procs[p].up)
      ensures exited ==> !w.Alive(pid)
      ensures pid in w.procs && Ends(w.procs[pid]) ==> exited
    {
      var ends := pid in w.procs && Ends(w.procs[pid]);
      Elapse(vm, if ends then {pid} else {});
      exited := *;
      exited := (exited || ends) && !(pid in w.procs && w.procs[pid].alive);
    }

    method Spawn(vm: string, paused: bool) returns (ok: bool, pid: nat)
      requires Valid()
      modifies this
      ensures Valid() && Drifts(old(w), w, vm) && w.vms == old(w).vms && SameSnapshots(old(w), w) && w.unrecorded == old(w).unrecorded
      ensures pid == old(w).next && (reliable ==> ok)
      ensures !ok ==> SameProcesses(old(w), w)
      ensures ok ==> w.next == pid + 1 && w.procs.Keys == old(w).procs.Keys + {pid}
      ensures ok ==> w.procs[pid] == Process(vm, true, [], [], paused, {})
    {
      ok := *;
      ok := ok || reliable;
      pid := w.next;
      if ok {
        w := w.(procs := w.procs[pid := Process(vm, true, [], [], paused, {})], next := pid + 1);
      }
    }

    method ReadRecord(vm: string) returns (record: Option<Record>)
      requires vm in w.vms
      ensures record.Some? || reliable ==> record == w.vms[vm].record
    {
      record := *;
      if record.Some? || reliable {
        record := w.vms[vm].record;
      }
    }

    /** A temporary file renamed over the record: all or nothing. */
    method WriteRecord(vm: string, record: Record) returns (ok: bool)
      requires Valid() && vm in w.vms
      requires RecordFits(w, vm, record)
      modifies this
      ensures Valid() && Drifts(old(w), w, vm)
      ensures w == if ok then old(w).(vms := old(w).vms[vm := old(w).vms[vm].(record := Some(record))])
                   else old(w).(unrecorded := old(w).unrecorded + 1)
      ensures reliable ==> ok
    {
      ok := *;
      ok := ok || reliable;
      if ok {
        w := w.(vms := w.vms[vm := w.vms[vm].(record := Some(record))]);
      } else {
        w := w.(unrecorded := w.unrecorded + 1);
      }
    }

    method Wait(ghost vm: string) returns (ok: bool)
      requires Valid()
      modifies this
      ensures Valid() && Drifts(old(w), w, vm) && OnlyProcs(old(w), w)
      ensures forall p :: p in w.procs ==>
                w.procs[p] == old(w).procs[p].(alive := w.procs[p].alive, up := w.procs[p].up)
      ensures reliable ==> ok && forall p :: p in w.procs ==> EVERYTHING <= w.procs[p].up
    {
      Elapse(vm, {});
      ok := *;
      if reliable {
        w, ok := w.(procs := map p | p in w.procs :: w.procs[p].(up := w.procs[p].up + EVERYTHING)), true;
      }
    }

    // ---- Starting ----

    /** Spawns the hypervisor, records it and lets go of the handle on it. */
    method Launch(vm: string, paused: bool, api: bool) returns (ok: bool, pid: nat)
      requires Valid() && vm in w.vms
      modifies this
      ensures Valid() && pid == old(w).next
      ensures ok ==> InFlight(old(w), w, vm, paused) && pid in w.procs && vm in old(w).vms
      ensures !ok ==> Launched(old(w), vm, false, false, w)
      ensures reliable ==> ok
    {
      hide Drifts;
      ghost var a := w;
      ok, pid := Spawn(vm, paused);
      if !ok {
        return;
      }
      ghost var b := w;
      ok := WriteRecord(vm, Running(pid, false, api));
      DriftsOn(a, b, w, vm);
      if !ok {
        b := w;
        var _ := Ask(vm, pid, Terminate);
        DriftsOn(a, b, w, vm);
        return;
      }
      ok := *;
      ok := ok || reliable;
      if !ok {
        w := w.(unrecorded := w.unrecorded + 1);
        StoresDrift(a, w, w, vm);
        b := w;
        var _ := Ask(vm, pid, Terminate);
        DriftsOn(a, b, w, vm);
      }
    }

    method Await(ghost a: World, ghost vm: string, ghost paused: bool, pid: nat, e: Endpoint) returns (ok: bool)
      requires Valid() && InFlight(a, w, vm, paused) && pid == a.next && pid in w.procs
      modifies this
      ensures Valid() && InFlight(a, w, vm, paused) && pid in w.procs && old(w).procs[pid].up <= w.procs[pid].up
      ensures ok ==> e in w.procs[pid].up
      ensures reliable ==> ok
    {
      hide Drifts;
      ghost var b := w;
      ok := Wait(vm);
      IsEverything(e);
      ok := ok && e in w.procs[pid].up;
      DriftsOn(a, b, w, vm);
      UpGrows(b, w, vm, pid);
    }

    /** All of these, in this order. */
    method AwaitAll(ghost a: World, ghost vm: string, pid: nat, es: seq<Endpoint>) returns (ok: bool)
      requires Valid() && InFlight(a, w, vm, false) && pid == a.next && pid in w.procs
      modifies this
      ensures Valid() && InFlight(a, w, vm, false) && pid in w.procs && old(w).procs[pid].up <= w.procs[pid].up
      ensures ok ==> forall e :: e in es ==> e in w.procs[pid].up
      ensures reliable ==> ok
    {
      hide InFlight, Sound;
      for i := 0 to |es|
        invariant Valid() && InFlight(a, w, vm, false) && pid in w.procs && old(w).procs[pid].up <= w.procs[pid].up
        invariant forall j :: 0 <= j < i ==> es[j] in w.procs[pid].up
      {
        ok := Await(a, vm, false, pid, es[i]);
        if !ok {
          return;
        }
      }
      ok := true;
    }

    /** The new process will not do: it is told to stop and, as far as that works, the VM is
        recorded stopped. */
    method Abandon(ghost a: World, vm: string, pid: nat, ghost paused: bool)
      requires Valid() && InFlight(a, w, vm, paused) && pid == a.next
      modifies this
      ensures Valid() && Launched(a, vm, false, false, w)
    {
      hide Drifts;
      ghost var b := w;
      var _ := Ask(vm, pid, Terminate);
      DriftsOn(a, b, w, vm);
      b := w;
      var _ := WriteRecord(vm, Stopped);
      DriftsOn(a, b, w, vm);
    }

    method RecordReady(ghost a: World, vm: string, pid: nat, api: bool) returns (ok: bool)
      requires Valid() && InFlight(a, w, vm, false) && pid == a.next && pid in w.procs && w.procs[pid].Answered()
      requires vm in a.vms && Needed(a.vms[vm]) <= w.procs[pid].up
      modifies this
      ensures Valid() && Launched(a, vm, true, ok, w)
      ensures reliable ==> ok
    {
      hide Drifts;
      ghost var b := w;
      ok := WriteRecord(vm, Running(pid, true, api));
      DriftsOn(a, b, w, vm);
    }

    method StartVirtualizationFramework(vm: string) returns (started: bool, ok: bool)
      requires Valid() && vm in w.vms && !w.vms[vm].cloud && !w.vms[vm].fromSnapshot
      modifies this
      ensures Valid() && Launched(old(w), vm, started, ok, w)
      ensures reliable ==> started && ok
    {
      hide Drifts, Launched, InFlight, OnlyRecord, Sound;
      ghost var a := w;
      var prepared: bool := *;
      if !prepared && !reliable {
        LaunchesNothing(a, vm);
        return false, false;
      }
      var pid;
      ok, pid := Launch(vm, false, false);
      if !ok {
        return false, false;
      }
      ok := AwaitAll(a, vm, pid, [ExecRelay]);
      if !ok {
        Abandon(a, vm, pid, false);
        return false, false;
      }
      ok := Await(a, vm, false, pid, Guest);
      if !ok {
        StartedUnready(a, w, vm);
        return true, false;
      }
      ok := RecordReady(a, vm, pid, false);
      started := true;
    }

    method StartVirtualizationFrameworkRestore(vm: string) returns (started: bool, ok: bool)
      requires Valid() && vm in w.vms && !w.vms[vm].cloud && w.vms[vm].fromSnapshot
      modifies this
      ensures Valid() && Launched(old(w), vm, started, ok, w)
      ensures reliable ==> started && ok
    {
      hide Drifts, Launched, InFlight, OnlyRecord, Sound;
      ghost var a := w;
      var prepared: bool := *;
      if !prepared && !reliable {
        LaunchesNothing(a, vm);
        return false, false;
      }
      var pid;
      ok, pid := Launch(vm, false, false);
      if !ok {
        return false, false;
      }
      ok := AwaitAll(a, vm, pid, [RestoreCompleted, ResumeCompleted, RelayReady, ExecRelay]);
      if !ok {
        Abandon(a, vm, pid, false);
        return false, false;
      }
      ok := Await(a, vm, false, pid, Guest);
      if !ok {
        StartedUnready(a, w, vm);
        return true, false;
      }
      ok := RecordReady(a, vm, pid, false);
      started := true;
    }

    method StartCloudHypervisor(vm: string) returns (started: bool, ok: bool)
      requires Valid() && vm in w.vms && w.vms[vm].cloud && !w.vms[vm].fromSnapshot
      modifies this
      ensures Valid() && Launched(old(w), vm, started, ok, w)
      ensures reliable ==> started && ok
    {
      hide Drifts, Launched, InFlight, OnlyRecord, Sound;
      ghost var a := w;
      var prepared: bool := *;
      if !prepared && !reliable {
        LaunchesNothing(a, vm);
        return false, false;
      }
      var pid;
      ok, pid := Launch(vm, false, true);
      if !ok {
        return false, false;
      }
      ok := AwaitAll(a, vm, pid, [Api, VsockSocket, Guest]);
      if !ok {
        Abandon(a, vm, pid, false);
        return false, false;
      }
      ok := RecordReady(a, vm, pid, true);
      started := true;
    }

    /** A restored hypervisor comes up paused. */
    method StartCloudHypervisorRestore(vm: string) returns (started: bool, ok: bool)
      requires Valid() && vm in w.vms && w.vms[vm].cloud && w.vms[vm].fromSnapshot
      modifies this
      ensures Valid() && Launched(old(w), vm, started, ok, w)
      ensures reliable ==> started && ok
    {
      hide Drifts, Launched, InFlight, OnlyRecord, Sound;
      ghost var a := w;
      var prepared: bool := *;
      if !prepared && !reliable {
        LaunchesNothing(a, vm);
        return false, false;
      }
      var pid;
      ok, pid := Launch(vm, true, true);
      if !ok {
        return false, false;
      }
      ok := Await(a, vm, true, pid, Api);
      if !ok {
        Abandon(a, vm, pid, true);
        return false, false;
      }
      ghost var paused;
      ok, paused := Resume(a, vm, pid);
      if !ok {
        Abandon(a, vm, pid, paused);
        return false, false;
      }
      ok := AwaitAll(a, vm, pid, [VsockSocket, Guest]);
      if !ok {
        Abandon(a, vm, pid, false);
        return false, false;
      }
      ok := RecordReady(a, vm, pid, true);
      started := true;
    }

    method Resume(ghost a: World, vm: string, pid: nat) returns (ok: bool, ghost paused: bool)
      requires Valid() && InFlight(a, w, vm, true) && pid == a.next && pid in w.procs
      modifies this
      ensures pid in w.procs && old(w).procs[pid].up <= w.procs[pid].up
      ensures Valid() && InFlight(a, w, vm, paused) && (ok ==> !paused) && (reliable ==> ok)
    {
      hide Drifts;
      ghost var b := w;
      ok := SetPaused(vm, pid, false);
      paused := w.procs[pid].paused;
      DriftsOn(a, b, w, vm);
      UpGrows(b, w, vm, pid);
    }

    method Start(vm: string) returns (started: bool, ok: bool)
      requires Valid()
      modifies this
      ensures Valid() && StartStep(old(w), vm, started, ok, w)
      ensures ok ==> old(w).Complete(vm)
      ensures reliable && old(w).Complete(vm) ==> ok && (!old(w).Up(vm) ==> started)
    {
      hide Drifts, Launched;
      ghost var a := w;
      Elapse(vm, {});
      ghost var b := w;
      DriftsAlive(a, b, vm);
      if vm !in w.vms || !w.vms[vm].metadata {
        return false, false;
      }
      var admitted: bool := *;
      if !admitted && !reliable {
        return false, false;
      }
      var record := ReadRecord(vm);
      if record.None? {
        return false, false;
      }
      if record.value.Running? {
        var alive := ProcessAlive(record.value.pid);
        if alive {
          return false, true;
        }
      }
      if !w.vms[vm].cloud && w.vms[vm].fromSnapshot {
        started, ok := StartVirtualizationFrameworkRestore(vm);
      } else if !w.vms[vm].cloud {
        started, ok := StartVirtualizationFramework(vm);
      } else if w.vms[vm].fromSnapshot {
        started, ok := StartCloudHypervisorRestore(vm);
      } else {
        started, ok := StartCloudHypervisor(vm);
      }
      DeadStaysDead(b, vm, started, ok, w);
      LaunchedLater(a, b, vm, started, ok, w);
    }

    // ---- Stopping ----

    method Signal(ghost a: World, vm: string, pid: nat, request: Request) returns (ok: bool)
      requires Valid() && Unchanged(a, w, vm) && pid in w.procs && w.procs[pid].vm == vm
      modifies this
      ensures Valid() && Unchanged(a, w, vm) && pid in w.procs && w.procs[pid].vm == vm
      ensures Asked(old(w).procs[pid], request, ok, w.procs[pid]) && (reliable ==> ok)
    {
      hide Drifts;
      ghost var b := w;
      ok := Ask(vm, pid, request);
      DriftsOn(a, b, w, vm);
    }

    method AwaitExit(ghost a: World, vm: string, pid: nat) returns (exited: bool)
      requires Valid() && Unchanged(a, w, vm)
      modifies this
      ensures Valid() && Unchanged(a, w, vm) && (exited ==> !w.Alive(pid))
      ensures pid in w.procs && Ends(w.procs[pid]) ==> exited
      ensures w.procs.Keys == old(w).procs.Keys
      ensures forall p :: p in w.procs ==>
                w.procs[p] == old(w).procs[p].(alive := w.procs[p].alive, up := w.procs[p].up)
    {
      hide Drifts;
      ghost var b := w;
      exited := WaitForExit(vm, pid);
      DriftsOn(a, b, w, vm);
    }

    /** The recorded process is dead. */
    method RecordStopped(ghost a: World, vm: string) returns (ok: bool)
      requires Valid() && Unchanged(a, w, vm) && vm in w.vms && RecordedGone(a, w, vm)
      modifies this
      ensures Valid() && RecordedGone(a, w, vm) && Drifts(a, w, vm) && SameProcesses(a, w)
      ensures if ok then OnlyRecord(a, w, vm) && w.vms[vm].record == Some(Stopped) else w.vms == a.vms && SameSnapshots(a, w)
      ensures SameSnapshots(a, w)
      ensures w.procs == old(w).procs && (reliable ==> ok)
    {
      hide Drifts;
      ghost var b := w;
      ok := WriteRecord(vm, Stopped);
      DriftsOn(a, b, w, vm);
    }

    method RecordExit(ghost a: World, vm: string, pid: nat) returns (ok: bool)
      requires Valid() && Unchanged(a, w, vm) && !w.Alive(pid)
      requires vm in a.vms && a.vms[vm].record.Some? && a.vms[vm].record.value.Running? && a.vms[vm].record.value.pid == pid
      modifies this
      ensures Valid() && StopStep(a, vm, true, ok, w) && w.procs == old(w).procs && (reliable ==> ok)
    {
      hide Drifts;
      ok := RecordStopped(a, vm);
    }

    /** One more request, firmer than those before. */
    method Press(ghost a: World, vm: string, pid: nat, request: Request, ghost before: seq<Request>, ghost top: nat, ghost mode: Mode)
      returns (asked: bool)
      requires Valid() && Unchanged(a, w, vm) && pid in w.procs && w.procs[pid].vm == vm
      requires Rising(before, w.procs[pid].heard, top, mode) && top <= Rank(request)
      requires !(mode == ForDelete && request == ShutDownGuest) && !request.PauseVm? && !request.ResumeVm?
      modifies this
      ensures Valid() && Unchanged(a, w, vm) && pid in w.procs && w.procs[pid].vm == vm
      ensures Rising(before, w.procs[pid].heard, Rank(request) + 1, mode)
      ensures Asked(old(w).procs[pid], request, asked, w.procs[pid]) && (reliable ==> asked)
    {
      hide Unchanged, Rising;
      ghost var heard := w.procs[pid].heard;
      asked := Signal(a, vm, pid, request);
      RisesOn(before, heard, w.procs[pid].heard, top, request, mode);
    }

    /** The requests that go over the hypervisor's API socket. */
    method AskByApi(ghost a: World, vm: string, pid: nat, mode: Mode) returns (exited: bool)
      requires Valid() && w == a && pid in w.procs && w.procs[pid].vm == vm
      modifies this
      ensures Valid() && Unchanged(a, w, vm) && pid in a.procs && pid in w.procs && w.procs[pid].vm == vm
      ensures Rising(a.procs[pid].heard, w.procs[pid].heard, 2, mode) && (exited ==> !w.Alive(pid))
      ensures TriedByApi(a.procs[pid], w.procs[pid], mode) || (exited && !Tried(a.procs[pid], w.procs[pid], Terminate))
      ensures mode == Graceful ==> Tried(a.procs[pid], w.procs[pid], ShutDownGuest)
      ensures reliable && !stubborn ==> exited
    {
      hide Rising, Unchanged, Sound, Tried;
      UnchangedAtFirst(a, vm);
      ghost var before, asking := a.procs[pid], a.procs[pid];
      NothingAsked(before.heard, mode);
      NothingTried(before);
      if mode == Graceful {
        var asked := Press(a, vm, pid, ShutDownGuest, before.heard, 0, mode);
        exited := AwaitExit(a, vm, pid);
        asking := w.procs[pid];
        NowTried(before, before, ShutDownGuest, asked, asking);
        if exited {
          RisesFurther(before.heard, w.procs[pid].heard, 1, 2, mode);
          return;
        }
      }
      var asked := Press(a, vm, pid, ShutDownVmm, before.heard, 1, mode);
      exited := AwaitExit(a, vm, pid);
      NowTried(before, asking, ShutDownVmm, asked, w.procs[pid]);
    }

    /** Asks more and more firmly: the guest, the hypervisor, SIGTERM, SIGKILL. Nothing is asked twice or
        out of turn, a VM that is being deleted is not asked to shut down its guest, no signal is sent
        before the milder requests were tried, and it only gives up on a process that was told the last
        of these or that a signal could not be sent to. */
    method StopCloudHypervisor(ghost a: World, vm: string, record: Record, mode: Mode) returns (stopped: bool, ok: bool)
      requires Valid() && w == a && vm in a.vms && a.vms[vm].record == Some(record) && record.Running?
      modifies this
      ensures Valid() && StopStep(a, vm, stopped, ok, w)
      ensures record.pid in a.procs && record.pid in w.procs
      ensures Escalation(a.procs[record.pid], w.procs[record.pid], mode, stopped)
      ensures record.api && Tried(a.procs[record.pid], w.procs[record.pid], Terminate) ==>
                TriedByApi(a.procs[record.pid], w.procs[record.pid], mode)
      ensures record.api && mode == Graceful ==> Tried(a.procs[record.pid], w.procs[record.pid], ShutDownGuest)
      ensures reliable ==> stopped && ok
    {
      hide Rising, Escalation, Unchanged, StopStep, Sound, Drifts, Tried;
      NothingHappened(a, vm, record.pid);
      ghost var before := a.procs[record.pid];
      NothingAsked(before.heard, mode);
      stopped := false;
      if record.api {
        stopped := AskByApi(a, vm, record.pid, mode);
      }
      BothGrow(a, w, vm, record.pid);
      if stopped {
        EndsRising(before, w.procs[record.pid], 2, mode);
      } else {
        stopped := SignalToStop(a, vm, record.pid, before, mode);
        if !stopped {
          StopGaveUp(a, vm, w);
          return false, false;
        }
      }
      ok := RecordExit(a, vm, record.pid);
    }

    /** SIGTERM, then SIGKILL. */
    method SignalToStop(ghost a: World, vm: string, pid: nat, ghost before: Process, ghost mode: Mode) returns (exited: bool)
      requires Valid() && Unchanged(a, w, vm) && pid in w.procs && w.procs[pid].vm == vm
      requires Rising(before.heard, w.procs[pid].heard, 2, mode) && before.heard <= w.procs[pid].heard && before.lost <= w.procs[pid].lost
      modifies this
      ensures Valid() && Unchanged(a, w, vm) && pid in w.procs && w.procs[pid].vm == vm
      ensures Escalation(before, w.procs[pid], mode, exited) && (exited ==> !w.Alive(pid))
      ensures forall r :: Tried(before, old(w).procs[pid], r) ==> Tried(before, w.procs[pid], r)
      ensures reliable ==> exited
    {
      hide Rising, Escalation, Unchanged, Sound, Drifts, Tried;
      ghost var milder := w.procs[pid];
      var sent := Press(a, vm, pid, Terminate, before.heard, 2, mode);
      if !sent {
        NowTried(before, milder, Terminate, sent, w.procs[pid]);
        EndsRising(before, w.procs[pid], 3, mode);
        EndsRefused(before, milder, w.procs[pid], Terminate, mode);
        return false;
      }
      exited := AwaitExit(a, vm, pid);
      NowTried(before, milder, Terminate, sent, w.procs[pid]);
      if exited {
        EndsRising(before, w.procs[pid], 3, mode);
        return;
      }
      ghost var terminated := w.procs[pid];
      var killed := Press(a, vm, pid, Kill, before.heard, 3, mode);
      exited := AwaitExit(a, vm, pid);
      NowTried(before, terminated, Kill, killed, w.procs[pid]);
      EndsKilled(before, milder, terminated, killed, w.procs[pid], mode);
    }

    method Stop(vm: string, mode: Mode) returns (stopped: bool, ok: bool)
      requires Valid()
      modifies this
      ensures Valid() && StopStep(old(w), vm, stopped, ok, w)
      ensures stopped || ok ==> old(w).Complete(vm)
      ensures reliable && old(w).Complete(vm) && (!stubborn || old(w).vms[vm].cloud) ==> ok && (stopped <==> old(w).Up(vm))
      ensures stopped ==> old(w).Up(vm) && StoppedBy(old(w), w, vm, mode)
    {
      hide Drifts, Escalation, Tried, TriedByApi;
      ghost var a := w;
      DriftsNothing(a, vm);
      if vm !in w.vms || !w.vms[vm].metadata {
        return false, false;
      }
      var record := ReadRecord(vm);
      if record.None? {
        return false, false;
      }
      var alive := false;
      if record.value.Running? {
        alive := ProcessAlive(record.value.pid);
      }
      if !alive {
        ok := RecordStopped(a, vm);
        return false, ok;
      }
      if w.vms[vm].cloud {
        stopped, ok := StopCloudHypervisor(a, vm, record.value, mode);
        return;
      }
      ok := Signal(a, vm, record.value.pid, Terminate);
      if !ok {
        return false, false;
      }
      var exited := AwaitExit(a, vm, record.value.pid);
      if !exited {
        return false, false;
      }
      ok := RecordStopped(a, vm);
      stopped := true;
    }

    // ---- Creating and deleting ----

    /** The record is written last; a failed creation may leave a directory without one behind. */
    method Create(vm: string, cloud: bool, fromSnapshot: bool) returns (ok: bool)
      requires Valid()
      modifies this
      ensures Valid() && CreateStep(old(w), vm, ok, w)
      ensures reliable ==> (ok <==> vm !in old(w).vms)
    {
      ok := *;
      if vm in w.vms || (!ok && !reliable) {
        return false;
      }
      ok := *;
      ok := ok || reliable;
      var cleaned: bool := *;
      if ok {
        w := w.(vms := w.vms[vm := Vm(cloud, fromSnapshot, true, Some(Stopped))]);
      } else if !cleaned {
        var metadata: bool := *;
        w := w.(vms := w.vms[vm := Vm(cloud, fromSnapshot, metadata, None)]);
      }
    }

    method Delete(vm: string, force: bool) returns (ok: bool)
      requires Valid()
      modifies this
      ensures Valid() && DeleteStep(old(w), vm, force, ok, w)
      ensures reliable && !stubborn ==>
                (ok <==> vm in old(w).vms && old(w).vms[vm].record.Some? && (old(w).Up(vm) ==> force && old(w).vms[vm].metadata))
    {
      hide Drifts;
      ghost var a := w;
      DriftsNothing(a, vm);
      if vm !in w.vms {
        return false;
      }
      var record := ReadRecord(vm);
      if record.None? {
        return false;
      }
      var running := false;
      if record.value.Running? {
        running := ProcessAlive(record.value.pid);
      }
      if running {
        if !force {
          return false;
        }
        var _, stopped := Stop(vm, ForDelete);
        if !stopped {
          return false;
        }
      }
      ok := *;
      if ok || reliable {
        ok := RemoveDirectory(a, vm, force);
      }
    }

    /** A failed removal may have taken some of the files. */
    method RemoveDirectory(ghost a: World, vm: string, ghost force: bool) returns (ok: bool)
      requires Valid() && vm in w.vms && vm in a.vms && RecordedGone(a, w, vm)
      requires Unchanged(a, w, vm) || StopStep(a, vm, true, true, w) || StopStep(a, vm, false, true, w)
      requires !force ==> w.procs == a.procs
      modifies this
      ensures Valid() && DeleteStep(a, vm, force, ok, w) && (reliable ==> ok)
    {
      hide Sound, StopStep, Unchanged, DeleteStep, Drifts, RecordedGone;
      ghost var b := w;
      ok := *;
      ok := ok || reliable;
      if ok {
        w := w.(vms := w.vms - {vm});
        RemovedWhole(a, b, vm, force, w);
      } else {
        var metadata: bool, kept: bool := *, *;
        var left := w.vms[vm];
        var rest := left.(metadata := left.metadata && metadata, record := if kept then left.record else None);
        w := w.(vms := w.vms[vm := rest]);
        RemovedPartly(a, b, vm, force, w, rest);
      }
    }

    // ---- Snapshots ----

    /** The copies are made only while the VM is paused. A VM that an error leaves paused is one whose pause
        or resume request got no good reply. */
    method SnapshotCloudHypervisor(name: string, vm: string, record: Record) returns (ok: bool)
      requires Valid() && w.Up(vm) && w.vms[vm].record == Some(record) && record.ready
      modifies this
      ensures Valid() && Saved(old(w), vm, ok, w) && CopiesMade(old(w).copies, w.copies, name, record.pid, ok)
      ensures forall i :: |old(w).copies| <= i < |w.copies| ==> w.copies[i].process.paused
      ensures record.pid in w.procs && old(w).procs[record.pid].lost <= w.procs[record.pid].lost
      ensures !old(w).procs[record.pid].paused && w.Alive(record.pid) && w.procs[record.pid].paused ==>
                PauseVm in NewlyLost(old(w).procs[record.pid], w.procs[record.pid])
                || ResumeVm in NewlyLost(old(w).procs[record.pid], w.procs[record.pid])
      ensures reliable && !stubborn ==> (ok <==> record.api)
    {
      hide CopiesMade, Drifts, Saved, Sound, Unchanged, RecordedGone, OnlyRecord, MemoryMade, DisksWhenDead;
      ghost var a := w;
      NothingHappened(a, vm, record.pid);
      NothingMade(a.copies, name, record.pid);
      NotSaved(a, a, w, vm);
      var prepared: bool := *;
      if !record.api || (!prepared && !reliable) {
        return false;
      }
      ok := Pause(a, vm, record.pid, true);
      NotSaved(a, a, w, vm);
      BothGrow(a, w, vm, record.pid);
      if !ok {
        return;
      }
      ok := CopyBoth(a, name, vm, record.pid);
      ghost var now := a.(copies := w.copies);
      if ok {
        ok := Signal(now, vm, record.pid, ShutDownVmm);
      }
      if ok {
        ok := AwaitExit(now, vm, record.pid);
      }
      UnchangedKeeps(now, w, vm);
      BothGrow(now, w, vm, record.pid);
      if !ok {
        ghost var asking := w.procs[record.pid];
        var resumed := Pause(now, vm, record.pid, false);
        BothGrow(now, w, vm, record.pid);
        if !resumed {
          LastIsLost(a.procs[record.pid], asking, ResumeVm, w.procs[record.pid]);
        }
        NotSaved(a, now, w, vm);
        return;
      }
      UnchangedKeeps(now, w, vm);
      GoneNow(now, w, vm, record.pid);
      ok := RecordStopped(now, vm);
      SavedNow(a, now, w, vm, ok);
    }

    /** Memory, then disks, of a paused VM. */
    method CopyBoth(ghost a: World, name: string, vm: string, pid: nat) returns (ok: bool)
      requires Valid() && Unchanged(a, w, vm) && pid in w.procs && w.procs[pid].vm == vm && w.procs[pid].paused
      modifies this
      ensures Valid() && Unchanged(a.(copies := w.copies), w, vm) && pid in w.procs && w.procs[pid].vm == vm
      ensures CopiesMade(a.copies, w.copies, name, pid, false) && (ok ==> CopiesMade(a.copies, w.copies, name, pid, true))
      ensures forall i :: |a.copies| <= i < |w.copies| ==> w.copies[i].process.paused
      ensures w.procs[pid] == old(w).procs[pid].(alive := w.procs[pid].alive, up := w.procs[pid].up)
      ensures reliable ==> ok
    {
      hide Drifts, Sound, CopiesMade, MemoryMade;
      ghost var first := Copy(name, pid, Memory, w.procs[pid]);
      OneMade(a.copies, first);
      ok := CopyPart(a, name, vm, pid, Memory);
      if ok {
        ghost var saved := w.copies;
        ghost var second := Copy(name, pid, Disks, w.procs[pid]);
        DisksMade(a.copies, saved, second);
        ok := CopyPart(a.(copies := saved), name, vm, pid, Disks);
        MadeAnyway(a.copies, w.copies, name, pid);
      }
    }

    /** Writes out a part of the VM. What it finds is what the process leaves there. */
    method CopyPart(ghost a: World, name: string, vm: string, pid: nat, part: Part) returns (ok: bool)
      requires Valid() && Unchanged(a, w, vm) && pid in w.procs && w.procs[pid].vm == vm
      modifies this
      ensures Valid() && Unchanged(a.(copies := w.copies), w, vm) && pid in w.procs && w.procs[pid].vm == vm
      ensures w.copies == old(w).copies + [Copy(name, pid, part, old(w).procs[pid])]
      ensures w.procs[pid] == old(w).procs[pid].(alive := w.procs[pid].alive, up := w.procs[pid].up)
      ensures !old(w).Alive(pid) ==> !w.Alive(pid)
      ensures reliable ==> ok
    {
      hide Drifts;
      ghost var b := w;
      w := w.(copies := w.copies + [Copy(name, pid, part, w.procs[pid])]);
      StoresDrift(a, b, w, vm);
      CopiesDrift(a.(copies := w.copies), a, w, vm);
      b := w;
      ok := Wait(vm);
      DriftsOn(a.(copies := w.copies), b, w, vm);
    }

    method Pause(ghost a: World, vm: string, pid: nat, paused: bool) returns (ok: bool)
      requires Valid() && Unchanged(a, w, vm) && pid in w.procs && w.procs[pid].vm == vm
      modifies this
      ensures Valid() && Unchanged(a, w, vm) && pid in w.procs && w.procs[pid].vm == vm
      ensures ok ==> w.procs[pid].paused == paused && w.procs[pid].lost == old(w).procs[pid].lost
      ensures !ok ==> w.procs[pid].lost == old(w).procs[pid].lost + [if paused then PauseVm else ResumeVm]
      ensures w.copies == old(w).copies && w.procs[pid].heard == old(w).procs[pid].heard && (reliable ==> ok)
    {
      hide Drifts;
      ghost var b := w;
      ok := SetPaused(vm, pid, paused);
      DriftsOn(a, b, w, vm);
    }

    /** The runner pauses the machine, saves it and exits; only then are its disks copied. */
    method SnapshotVirtualizationFramework(name: string, vm: string, record: Record) returns (ok: bool)
      requires Valid() && w.Up(vm) && w.vms[vm].record == Some(record) && record.ready
      modifies this
      ensures Valid() && Saved(old(w), vm, ok, w) && CopiesMade(old(w).copies, w.copies, name, record.pid, ok)
      ensures DisksWhenDead(old(w).copies, w.copies)
      ensures reliable && !stubborn ==> ok
    {
      hide CopiesMade, Drifts, Saved, Sound, Unchanged, RecordedGone, OnlyRecord, MemoryMade, DisksWhenDead;
      ghost var a := w;
      NothingHappened(a, vm, record.pid);
      ok := SaveByRunner(a, name, vm, record.pid);
      ghost var now := a.(copies := w.copies);
      NotSaved(a, now, w, vm);
      if !ok {
        return;
      }
      ok := AwaitExit(now, vm, record.pid);
      UnchangedKeeps(now, w, vm);
      NotSaved(a, now, w, vm);
      if !ok {
        return;
      }
      DisksMade(a.copies, w.copies, Copy(name, record.pid, Disks, w.procs[record.pid]));
      ok := CopyPart(now, name, vm, record.pid, Disks);
      MadeAnyway(a.copies, w.copies, name, record.pid);
      now := a.(copies := w.copies);
      NotSaved(a, now, w, vm);
      if !ok {
        return;
      }
      UnchangedKeeps(now, w, vm);
      GoneNow(now, w, vm, record.pid);
      ok := RecordStopped(now, vm);
      SavedNow(a, now, w, vm, ok);
    }

    /** What the runner does when it is asked to save. */
    method SaveByRunner(ghost a: World, name: string, vm: string, pid: nat) returns (ok: bool)
      requires Valid() && Unchanged(a, w, vm) && pid in w.procs && w.procs[pid].vm == vm
      modifies this
      ensures Valid() && Unchanged(a.(copies := w.copies), w, vm) && pid in w.procs && w.procs[pid].vm == vm
      ensures CopiesMade(a.copies, w.copies, name, pid, false)
      ensures DisksWhenDead(a.copies, w.copies)
      ensures ok ==> MemoryMade(a.copies, w.copies) && w.procs[pid].heard != []
      ensures reliable ==> ok
    {
      hide Drifts, CopiesMade, MemoryMade, Sound;
      NothingMade(a.copies, name, pid);
      ok := Pause(a, vm, pid, true);
      if !ok {
        return;
      }
      OneMade(a.copies, Copy(name, pid, Memory, w.procs[pid]));
      ok := CopyPart(a, name, vm, pid, Memory);
      if ok {
        ok := Signal(a.(copies := w.copies), vm, pid, ShutDownVmm);
      }
    }

    method Snapshot(name: string, vm: string) returns (ok: bool)
      requires Valid()
      modifies this
      ensures Valid() && SnapshotStep(old(w), vm, name, ok, w)
      ensures reliable && !stubborn ==>
                (ok <==> && old(w).Complete(vm) && old(w).Up(vm) && old(w).vms[vm].record.value.ready && name !in old(w).snapshots
                         && (old(w).vms[vm].cloud ==> old(w).vms[vm].record.value.api))
    {
      hide Drifts;
      ghost var a := w;
      DriftsNothing(a, vm);
      if vm !in w.vms || !w.vms[vm].metadata {
        return false;
      }
      var record := ReadRecord(vm);
      if record.None? || record.value.Stopped? || !record.value.ready {
        return false;
      }
      var alive := ProcessAlive(record.value.pid);
      if !alive {
        return false;
      }
      ok := *;
      if name in w.snapshots || (!ok && !reliable) {
        return false;
      }
      if w.vms[vm].cloud {
        ok := SnapshotCloudHypervisor(name, vm, record.value);
      } else {
        ok := SnapshotVirtualizationFramework(name, vm, record.value);
      }
      ghost var b := w;
      var published: bool := *;
      ok := ok && (published || reliable);
      if ok {
        w := w.(snapshots := w.snapshots + {name});
      }
      StoresDrift(a, b, w, vm);
    }
  }

  /** How a VM that was up has been stopped. */
  ghost predicate StoppedBy(a: World, b: World, vm: string, mode: Mode)
    requires a.Up(vm)
  {
    var record := a.vms[vm].record.value;
    && record.pid in b.procs
    && var before, after := a.procs[record.pid], b.procs[record.pid];
       if a.vms[vm].cloud then
         && Escalation(before, after, mode, true)
         && (record.api && mode == Graceful ==> Tried(before, after, ShutDownGuest))
         && (record.api && Tried(before, after, Terminate) ==> TriedByApi(before, after, mode))
       else after.heard == before.heard + [Terminate]
  }

  function Newly(before: seq<Request>, after: seq<Request>): seq<Request> {
    if before <= after then after[|before|..] else []
  }

  /** What was lost on top of what had been lost before. */
  function NewlyLost(before: Process, after: Process): seq<Request> { Newly(before.lost, after.lost) }

  /** It was asked, with or without a good reply. */
  ghost predicate Tried(before: Process, after: Process, r: Request) {
    r in Newly(before.heard, after.heard) || r in Newly(before.lost, after.lost)
  }

  ghost predicate TriedByApi(before: Process, after: Process, mode: Mode) {
    Tried(before, after, ShutDownVmm) && (mode == Graceful ==> Tried(before, after, ShutDownGuest))
  }

  lemma NowTried(before: Process, asking: Process, r: Request, ok: bool, after: Process)
    requires before.heard <= asking.heard && before.lost <= asking.lost && Asked(asking, r, ok, after)
    ensures before.heard <= after.heard && before.lost <= after.lost && Tried(before, after, r)
    ensures forall q :: Tried(before, asking, q) ==> Tried(before, after, q)
    ensures forall q :: Tried(before, after, q) ==> Tried(before, asking, q) || q == r
  {
    NewlyMore(before.heard, asking.heard, r);
    NewlyMore(before.lost, asking.lost, r);
    hide Newly;
  }

  lemma NewlyMore(before: seq<Request>, asking: seq<Request>, r: Request)
    requires before <= asking
    ensures before <= asking + [r] && Newly(before, asking + [r]) == Newly(before, asking) + [r]
  {
  }

  lemma NothingTried(before: Process)
    ensures forall r :: !Tried(before, before, r)
  {
  }

  lemma UnchangedAtFirst(a: World, vm: string)
    ensures Unchanged(a, a, vm)
  {
  }

  /** What a stop asked: milder requests first and none twice; and it gave up only after SIGKILL, or
      when SIGTERM or SIGKILL could not be sent. */
  ghost predicate Escalation(before: Process, after: Process, mode: Mode, stopped: bool) {
    && Rising(before.heard, after.heard, 4, mode)
    && (Kill in after.heard[|before.heard|..] ==> Terminate in after.heard[|before.heard|..])
    && (!stopped ==>
          || Kill in after.heard[|before.heard|..]
          || Terminate in NewlyLost(before, after) || Kill in NewlyLost(before, after))
  }

  /** The guest first, then the hypervisor, then SIGTERM, then SIGKILL. */
  predicate Firmer(mild: Request, firm: Request) {
    match mild
    case ShutDownGuest => firm.ShutDownVmm? || firm.Terminate? || firm.Kill?
    case ShutDownVmm => firm.Terminate? || firm.Kill?
    case Terminate => firm.Kill?
    case _ => false
  }

  ghost predicate Rising(before: seq<Request>, after: seq<Request>, top: nat, mode: Mode) {
    && before <= after
    && var asked := after[|before|..];
       && (forall i :: 0 <= i < |asked| ==> Rank(asked[i]) < top)
       && (forall i :: 0 <= i < |asked| ==> !asked[i].PauseVm? && !asked[i].ResumeVm?)
       && (forall i, j :: 0 <= i < j < |asked| ==> Firmer(asked[i], asked[j]))
       && (mode == ForDelete ==> ShutDownGuest !in asked)
  }

  lemma NothingAsked(before: seq<Request>, mode: Mode)
    ensures Rising(before, before, 0, mode) && Rising(before, before, 1, mode) && Rising(before, before, 2, mode)
  {
  }

  lemma RisesFurther(before: seq<Request>, after: seq<Request>, top: nat, more: nat, mode: Mode)
    requires Rising(before, after, top, mode) && top <= more
    ensures Rising(before, after, more, mode)
  {
  }

  lemma RisesOn(before: seq<Request>, heard: seq<Request>, after: seq<Request>, top: nat, request: Request, mode: Mode)
    requires Rising(before, heard, top, mode) && top <= Rank(request) && !(mode == ForDelete && request == ShutDownGuest)
    requires !request.PauseVm? && !request.ResumeVm?
    requires after == heard + [request] || after == heard
    ensures Rising(before, after, Rank(request) + 1, mode)
  {
    if after == heard + [request] {
      assert after[|before|..] == heard[|before|..] + [request];
    }
  }

  lemma EndsRising(before: Process, after: Process, top: nat, mode: Mode)
    requires Rising(before.heard, after.heard, top, mode) && top <= 3
    ensures Escalation(before, after, mode, true)
  {
    var asked := after.heard[|before.heard|..];
    forall r | r in asked ensures r != Kill {
      var i :| 0 <= i < |asked| && asked[i] == r;
    }
  }

  lemma LastIsLost(before: Process, milder: Process, request: Request, after: Process)
    requires before.lost <= milder.lost && after.lost == milder.lost + [request]
    ensures request in NewlyLost(before, after)
  {
    assert NewlyLost(before, after)[|milder.lost| - |before.lost|] == request;
  }

  lemma EndsRefused(before: Process, milder: Process, after: Process, signal: Request, mode: Mode)
    requires Escalation(before, after, mode, true) && before.lost <= milder.lost
    requires IsSignal(signal) && Asked(milder, signal, false, after)
    ensures Escalation(before, after, mode, false)
  {
    LastIsLost(before, milder, signal, after);
    hide Rising, NewlyLost;
  }

  lemma EndsKilled(before: Process, milder: Process, terminated: Process, killed: bool, after: Process, mode: Mode)
    requires Rising(before.heard, after.heard, 4, mode) && Rising(before.heard, milder.heard, 2, mode)
    requires terminated.heard == milder.heard + [Terminate] && before.lost <= terminated.lost
    requires Asked(terminated, Kill, killed, after)
    ensures Escalation(before, after, mode, false) && Escalation(before, after, mode, true)
  {
    var asked, k := after.heard[|before.heard|..], |milder.heard| - |before.heard|;
    assert asked[k] == Terminate;
    if killed {
      assert asked[k + 1] == Kill;
    } else {
      LastIsLost(before, terminated, Kill, after);
    }
  }

  lemma BothGrow(a: World, b: World, vm: string, pid: nat)
    requires Unchanged(a, b, vm) && pid in a.procs
    ensures pid in b.procs && a.procs[pid].heard <= b.procs[pid].heard && a.procs[pid].lost <= b.procs[pid].lost
  {
  }

  lemma NothingHappened(a: World, vm: string, pid: nat)
    requires Sound(a) && vm in a.vms && a.vms[vm].record.Some? && a.vms[vm].record.value.Running? && a.vms[vm].record.value.pid == pid
    ensures Unchanged(a, a, vm) && pid in a.procs && a.procs[pid].vm == vm
  {
  }

  lemma StopGaveUp(a: World, vm: string, b: World)
    requires Unchanged(a, b, vm)
    ensures StopStep(a, vm, false, false, b)
  {
  }

  /** The stores as a deletion finds them: as they were, or with the VM recorded stopped. */
  ghost predicate Deletable(a: World, vm: string, b: World) {
    && vm in b.vms && vm in a.vms && RecordedGone(a, b, vm)
    && (Unchanged(a, b, vm) || StopStep(a, vm, true, true, b) || StopStep(a, vm, false, true, b))
  }

  lemma DeletableStores(a: World, b: World, vm: string)
    requires Deletable(a, vm, b)
    ensures Drifts(a, b, vm) && SameProcesses(a, b) && SameSnapshots(a, b) && b.vms == a.vms[vm := b.vms[vm]]
    ensures RecordedGone(a, b, vm)
    ensures b.vms[vm].record == a.vms[vm].record || b.vms[vm].record == Some(Stopped)
  {
    hide Drifts, RecordedGone;
  }

  lemma RemovedWhole(a: World, b: World, vm: string, force: bool, c: World)
    requires Sound(b) && Deletable(a, vm, b) && (!force ==> b.procs == a.procs)
    requires c == b.(vms := b.vms - {vm})
    ensures Sound(c) && DeleteStep(a, vm, force, true, c)
  {
    DeletableStores(a, b, vm);
    StoresDrift(a, b, c, vm);
    hide Drifts, Unchanged, StopStep;
  }

  lemma RemovedPartly(a: World, b: World, vm: string, force: bool, c: World, rest: Vm)
    requires Sound(b) && Deletable(a, vm, b) && (!force ==> b.procs == a.procs)
    requires rest.record == b.vms[vm].record || rest.record == None
    requires c == b.(vms := b.vms[vm := rest])
    ensures Sound(c) && DeleteStep(a, vm, force, false, c)
  {
    DeletableStores(a, b, vm);
    StoresDrift(a, b, c, vm);
    RestIsSound(b, vm, rest, c);
    hide Drifts, Sound, Unchanged, StopStep, Deletable;
  }

  lemma RestIsSound(b: World, vm: string, rest: Vm, c: World)
    requires Sound(b) && vm in b.vms && (rest.record == b.vms[vm].record || rest.record == None)
    requires c == b.(vms := b.vms[vm := rest])
    ensures Sound(c)
  {
  }

  lemma DriftsNothing(a: World, vm: string)
    ensures Drifts(a, a, vm)
  {
  }

  lemma StoresDrift(a: World, b: World, c: World, vm: string)
    requires Drifts(a, b, vm) && c.procs == b.procs && c.next == b.next
    ensures Drifts(a, c, vm)
  {
  }

  lemma UnchangedKeeps(a: World, b: World, vm: string)
    requires Unchanged(a, b, vm)
    ensures b.vms == a.vms && SameSnapshots(a, b) && b.procs.Keys == a.procs.Keys
  {
  }

  lemma NotSaved(a: World, now: World, b: World, vm: string)
    requires now == a.(copies := b.copies) && Unchanged(now, b, vm)
    ensures Saved(a, vm, false, b)
  {
    CopiesDrift(a, now, b, vm);
    hide Drifts;
  }

  lemma GoneNow(a: World, b: World, vm: string, pid: nat)
    requires vm in a.vms && (a.vms[vm].record.Some? && a.vms[vm].record.value.Running? ==> a.vms[vm].record.value.pid == pid)
    requires !b.Alive(pid)
    ensures RecordedGone(a, b, vm)
  {
  }

  lemma SavedNow(a: World, now: World, b: World, vm: string, ok: bool)
    requires now == a.(copies := now.copies) && b.copies == now.copies && RecordedGone(now, b, vm) && Drifts(now, b, vm) && SameProcesses(now, b)
    requires if ok then OnlyRecord(now, b, vm) && b.vms[vm].record == Some(Stopped) else b.vms == now.vms && SameSnapshots(now, b)
    ensures Saved(a, vm, ok, b)
  {
    CopiesDrift(a, now, b, vm);
    hide Drifts;
  }

  /** What is copied is no matter of processes. */
  lemma CopiesDrift(a: World, b: World, c: World, vm: string)
    requires Drifts(b, c, vm) && a.procs == b.procs && a.next == b.next
    ensures Drifts(a, c, vm)
  {
  }

  lemma LaunchesNothing(a: World, vm: string)
    requires vm in a.vms
    ensures Launched(a, vm, false, false, a)
  {
  }

  lemma UpGrows(a: World, b: World, vm: string, pid: nat)
    requires Drifts(a, b, vm) && pid in a.procs
    ensures pid in b.procs && a.procs[pid].up <= b.procs[pid].up
  {
  }

  lemma StartedUnready(a: World, b: World, vm: string)
    requires InFlight(a, b, vm, false) && vm in a.vms && a.next in b.procs && Needed(a.vms[vm]) <= b.procs[a.next].up
    ensures Launched(a, vm, true, false, b)
  {
  }

  lemma DriftsAlive(a: World, b: World, vm: string)
    requires Drifts(a, b, vm) && b.procs.Keys == a.procs.Keys && b.vms == a.vms
    ensures b.Up(vm) ==> a.Up(vm)
  {
  }

  lemma LaunchedLater(a: World, b: World, vm: string, started: bool, ok: bool, c: World)
    requires Unchanged(a, b, vm) && Launched(b, vm, started, ok, c)
    ensures Launched(a, vm, started, ok, c)
  {
    DriftsOn(a, b, c, vm);
    hide Drifts;
  }

  lemma DeadStaysDead(a: World, vm: string, started: bool, ok: bool, b: World)
    requires Launched(a, vm, started, ok, b)
    requires Sound(a) && !a.Up(vm)
    ensures RecordedGone(a, b, vm)
  {
  }

  // ---- Whole runs ----

  /** `Pass` is time between calls, in which processes die. */
  datatype Call =
    | CallCreate(vm: string)
    | CallStart(vm: string)
    | CallStop(vm: string)
    | CallDelete(vm: string, force: bool)
    | CallSnapshot(vm: string, name: string)
    | Pass(vm: string)

  /** `acted`: Start started the VM, Stop stopped it; `ok`: no error was returned. */
  datatype Outcome = Outcome(acted: bool, ok: bool)

  ghost predicate Step(a: World, call: Call, r: Outcome, b: World) {
    && Sound(b)
    && match call
       case CallCreate(vm) => CreateStep(a, vm, r.ok, b)
       case CallStart(vm) => StartStep(a, vm, r.acted, r.ok, b)
       case CallStop(vm) => StopStep(a, vm, r.acted, r.ok, b) && (r.acted || r.ok ==> a.Complete(vm))
       case CallDelete(vm, force) => DeleteStep(a, vm, force, r.ok, b)
       case CallSnapshot(vm, name) => SnapshotStep(a, vm, name, r.ok, b)
       case Pass(vm) => Unchanged(a, b, vm)
  }

  /** Every hypervisor that was not told to stop, and that no SIGTERM failed to reach, is the one its
      VM is recorded running with. */
  ghost predicate Inv(w: World) {
    Sound(w) && forall p :: w.Undisturbed(p) ==> w.RecordsRunning(w.procs[p].vm, p)
  }

  /** What is dead stays dead and what was told stays told: a step can only break the promise for the
      VM it is about. */
  lemma StaysUntold(a: World, b: World, vm: string, p: nat)
    requires Drifts(a, b, vm) && p in a.procs && b.Untold(p)
    ensures a.Untold(p) && b.procs[p].vm == a.procs[p].vm && (b.Undisturbed(p) ==> a.Undisturbed(p))
  {
    if Terminate in a.procs[p].lost {
      var i :| 0 <= i < |a.procs[p].lost| && a.procs[p].lost[i] == Terminate;
      assert b.procs[p].lost[i] == Terminate;
    }
  }

  /** A process that was recorded running and is untold afterwards is recorded running afterwards. */
  lemma RecordedRemains(a: World, call: Call, r: Outcome, b: World, p: nat)
    requires Step(a, call, r, b) && p in a.procs && b.Untold(p) && a.RecordsRunning(a.procs[p].vm, p)
    ensures b.procs[p].vm == a.procs[p].vm && b.RecordsRunning(b.procs[p].vm, p)
  {
    StepDrifts(a, call, r, b);
    StaysUntold(a, b, call.vm, p);
    hide Drifts;
  }

  lemma StepDrifts(a: World, call: Call, r: Outcome, b: World)
    requires Step(a, call, r, b)
    ensures Drifts(a, b, call.vm)
  {
    hide Drifts;
  }

  /** Only a start adds a process, and only one. */
  lemma OnlyStartAdds(a: World, call: Call, r: Outcome, b: World, p: nat)
    requires Step(a, call, r, b) && p in b.procs && p !in a.procs
    ensures call.CallStart? && p == a.next && b.procs[p].vm == call.vm
    ensures b.RecordsRunning(call.vm, p) || b.procs[p].heard != [] || Terminate in b.procs[p].lost
  {
    hide Drifts;
  }

  lemma StepKeepsInv(a: World, call: Call, r: Outcome, b: World)
    requires Inv(a) && Step(a, call, r, b)
    ensures Inv(b)
  {
    StepDrifts(a, call, r, b);
    forall p | b.Undisturbed(p) ensures b.RecordsRunning(b.procs[p].vm, p) {
      if p in a.procs {
        StaysUntold(a, b, call.vm, p);
        RecordedRemains(a, call, r, b, p);
      } else {
        OnlyStartAdds(a, call, r, b, p);
      }
    }
  }

  datatype Event = Event(call: Call, outcome: Outcome)

  ghost predicate Run(worlds: seq<World>, events: seq<Event>) {
    && |worlds| == |events| + 1 && worlds[0] == World(map[], map[], 1, {}, [], 0)
    && (events != [] ==>
          var k := |events| - 1;
          Run(worlds[..k + 1], events[..k]) && Step(worlds[k], events[k].call, events[k].outcome, worlds[k + 1]))
  }

  lemma {:induction false} RunKeepsInv(worlds: seq<World>, events: seq<Event>)
    requires Run(worlds, events)
    ensures Inv(worlds[|events|])
    decreases |events|
  {
    hide Step;
    if events != [] {
      var k := |events| - 1;
      RunKeepsInv(worlds[..k + 1], events[..k]);
      StepKeepsInv(worlds[k], events[k].call, events[k].outcome, worlds[k + 1]);
    }
  }

  /** After every run, whatever failed in it, a VM has at most one live hypervisor that was neither
      told to stop nor refused a SIGTERM, and that one is recorded running. */
  lemma AtMostOneHypervisor(worlds: seq<World>, events: seq<Event>, p: nat, q: nat)
    requires Run(worlds, events)
    requires var w := worlds[|events|]; w.Undisturbed(p) && w.Undisturbed(q) && w.procs[p].vm == w.procs[q].vm
    ensures p == q && worlds[|events|].RecordsRunning(worlds[|events|].procs[p].vm, p)
  {
    RunKeepsInv(worlds, events);
  }

  /** Memory and disks of one snapshot, one after the other. */
  predicate PairAt(copies: seq<Copy>, i: nat, name: string) {
    && i + 1 < |copies| && copies[i].snapshot == name && copies[i + 1].snapshot == name && copies[i].pid == copies[i + 1].pid
    && copies[i].part.Memory? && copies[i + 1].part.Disks?
  }

  /** Nothing was ever copied for a snapshot while its guest could write, and every snapshot has its copies. */
  ghost predicate AllStill(w: World) {
    && (forall i :: 0 <= i < |w.copies| ==> w.copies[i].Still())
    && forall n :: n in w.snapshots ==> exists i :: PairAt(w.copies, i, n)
  }

  lemma StepKeepsStill(a: World, call: Call, r: Outcome, b: World)
    requires AllStill(a) && Step(a, call, r, b)
    ensures AllStill(b)
  {
    StepCopies(a, call, r, b);
    hide Step;
    forall n | n in b.snapshots ensures exists i :: PairAt(b.copies, i, n) {
      if n in a.snapshots {
        var i :| PairAt(a.copies, i, n);
        assert PairAt(b.copies, i, n);
      } else {
        assert PairAt(b.copies, |a.copies|, n);
      }
    }
  }

  lemma StepCopies(a: World, call: Call, r: Outcome, b: World)
    requires Step(a, call, r, b)
    ensures a.copies <= b.copies
    ensures forall i :: |a.copies| <= i < |b.copies| ==> b.copies[i].Still()
    ensures forall n :: n in b.snapshots && n !in a.snapshots ==> PairAt(b.copies, |a.copies|, n)
  {
    hide Drifts, Sound;
  }

  /** After every run: each published snapshot consists of memory and disks that were copied from one
      process while that was paused or dead. */
  lemma {:induction false} SnapshotsAreStill(worlds: seq<World>, events: seq<Event>)
    requires Run(worlds, events)
    ensures AllStill(worlds[|events|])
    decreases |events|
  {
    hide Step, AllStill;
    if events == [] {
      assert AllStill(World(map[], map[], 1, {}, [], 0)) by { NothingCopied(); }
    } else {
      var k := |events| - 1;
      SnapshotsAreStill(worlds[..k + 1], events[..k]);
      StepKeepsStill(worlds[k], events[k].call, events[k].outcome, worlds[k + 1]);
    }
  }

  lemma NothingCopied()
    ensures AllStill(World(map[], map[], 1, {}, [], 0))
  {
  }

  /** The promise without the words about SIGTERM: what was not told to stop is recorded running. */
  ghost predicate AllRecorded(w: World) {
    Sound(w) && forall p :: w.Untold(p) ==> w.RecordsRunning(w.procs[p].vm, p)
  }

  /** A start gave up, could not send SIGTERM to the process it had spawned and left no record of it. */
  ghost predicate Escapes(a: World, call: Call, b: World) {
    call.CallStart? && b.Untold(a.next) && Terminate in b.procs[a.next].lost && !b.RecordsRunning(call.vm, a.next)
  }

  /** The one thing that breaks the stronger promise, for every call and outcome. */
  lemma StepKeepsAllRecordedIff(a: World, call: Call, r: Outcome, b: World)
    requires AllRecorded(a) && Step(a, call, r, b)
    ensures AllRecorded(b) <==> !Escapes(a, call, b)
  {
    StepDrifts(a, call, r, b);
    if Escapes(a, call, b) {
      OnlyStartAdds(a, call, r, b, a.next);
    } else {
      forall p | b.Untold(p) ensures b.RecordsRunning(b.procs[p].vm, p) {
        if p in a.procs {
          StaysUntold(a, b, call.vm, p);
          RecordedRemains(a, call, r, b, p);
        } else {
          OnlyStartAdds(a, call, r, b, p);
        }
      }
    }
  }

  /** After every run a VM is recorded as ready only if the guest of the recorded process has answered. */
  lemma ReadyMeansAnswered(worlds: seq<World>, events: seq<Event>, vm: string)
    requires Run(worlds, events)
    ensures var w := worlds[|events|];
            vm in w.vms && w.vms[vm].record.Some? && w.vms[vm].record.value.Running? && w.vms[vm].record.value.ready ==>
              w.vms[vm].record.value.pid in w.procs && w.procs[w.vms[vm].record.value.pid].Answered()
  {
    RunKeepsInv(worlds, events);
  }

  /** Once Stop, Delete or Snapshot has reported success the process the VM was recorded with is dead,
      and nothing runs the VM but what has been told to stop or was refused a SIGTERM before. */
  lemma SuccessLeavesNothing(a: World, call: Call, r: Outcome, b: World)
    requires Inv(a) && Step(a, call, r, b) && r.ok
    requires call.CallStop? || call.CallDelete? || call.CallSnapshot?
    ensures RecordedGone(a, b, call.vm)
    ensures forall p :: p in b.procs && b.procs[p].vm == call.vm ==> !b.Undisturbed(p)
    ensures AllRecorded(a) ==> forall p :: p in b.procs && b.procs[p].vm == call.vm ==> !b.Untold(p)
  {
    StepKeepsInv(a, call, r, b);
    if AllRecorded(a) {
      StepKeepsAllRecordedIff(a, call, r, b);
    }
    hide Drifts;
  }

  /** A Start that reports it started the VM leaves exactly one hypervisor at work, and one that
      reports it did not leaves none that it spawned itself, unless SIGTERM could not be sent to it. */
  lemma StartReportsTruth(a: World, vm: string, r: Outcome, b: World)
    requires Inv(a) && Step(a, CallStart(vm), r, b)
    ensures r.acted ==> b.RecordsRunning(vm, a.next) && b.procs[a.next].vm == vm && b.procs[a.next].heard == []
    ensures r.acted && r.ok ==> b.procs[a.next].Answered() && !b.procs[a.next].paused
    ensures r.acted ==> forall p :: b.Undisturbed(p) && b.procs[p].vm == vm ==> p == a.next
    ensures !r.acted ==> forall p :: b.Undisturbed(p) && b.procs[p].vm == vm ==> p in a.procs && a.Undisturbed(p)
    ensures a.Up(vm) && b.Up(vm) && b.vms == a.vms ==> !r.acted && SameProcesses(a, b)
  {
    StepKeepsInv(a, CallStart(vm), r, b);
    forall p | b.Undisturbed(p) && p in a.procs ensures a.Undisturbed(p) {
      StepDrifts(a, CallStart(vm), r, b);
      StaysUntold(a, b, vm, p);
    }
    hide Drifts;
  }

  /** No call touches the record or the processes of another VM. */
  lemma OthersUntouched(a: World, call: Call, r: Outcome, b: World, v: string)
    requires Step(a, call, r, b) && v != call.vm
    ensures v in b.vms <==> v in a.vms
    ensures v in a.vms ==> b.vms[v] == a.vms[v]
    ensures forall p :: p in a.procs && a.procs[p].vm == v ==>
              p in b.procs && b.procs[p] == a.procs[p].(alive := b.procs[p].alive, up := b.procs[p].up)
    ensures forall p :: p in b.procs && b.procs[p].vm == v ==> p in a.procs
  {
  }

  // ---- Two processes of one VM ----

  ghost predicate OneAlive(w: World, vm: string) {
    forall p, q :: w.Alive(p) && w.Alive(q) && w.procs[p].vm == vm && w.procs[q].vm == vm ==> p == q
  }

  /** A start ends so, while every process lives on but the recorded one. */
  function Beside(a: World, vm: string, record: Option<Record>, process: Process, lost: nat): World
    requires vm in a.vms
  {
    var procs := map p | p in a.procs :: a.procs[p].(alive := a.procs[p].alive && !a.RecordsRunning(vm, p));
    World(a.vms[vm := a.vms[vm].(record := record)], procs[a.next := process], a.next + 1, a.snapshots, a.copies, a.unrecorded + lost)
  }

  /** A start that succeeds. */
  function Started(a: World, vm: string): World
    requires vm in a.vms
  {
    Beside(a, vm, Some(Running(a.next, true, true)), Process(vm, true, [], [], false, EVERYTHING), 0)
  }

  lemma StartedIsPossible(a: World, vm: string)
    requires Sound(a) && a.Complete(vm)
    ensures Step(a, CallStart(vm), Outcome(true, true), Started(a, vm))
  {
    var b := Started(a, vm);
    BesideDrifts(a, vm, b.vms[vm].record, b.procs[a.next], b.unrecorded - a.unrecorded);
    hide Drifts, Sound;
    assert Launched(a, vm, true, true, b);
  }

  /** A start that fails, whose SIGTERM is refused. */
  function Escaped(a: World, vm: string): World
    requires vm in a.vms
  {
    Beside(a, vm, a.vms[vm].record, Process(vm, true, [], [Terminate], false, {}), 1)
  }

  lemma EscapeIsPossible(a: World, vm: string)
    requires Sound(a) && a.Complete(vm)
    ensures Step(a, CallStart(vm), Outcome(false, false), Escaped(a, vm))
  {
    var b := Escaped(a, vm);
    BesideDrifts(a, vm, b.vms[vm].record, b.procs[a.next], b.unrecorded - a.unrecorded);
    assert b.vms == a.vms;
    hide Drifts, Sound;
    assert Launched(a, vm, false, false, b);
  }

  lemma BesideDrifts(a: World, vm: string, record: Option<Record>, process: Process, lost: nat)
    requires Sound(a) && vm in a.vms && process.vm == vm
    requires record == a.vms[vm].record || record == Some(Running(a.next, process.Answered(), true))
    ensures Drifts(a, Beside(a, vm, record, process, lost), vm) && Sound(Beside(a, vm, record, process, lost))
  {
  }

  /** No process runs the VM but, if that is alive, the one it is recorded running with. */
  ghost predicate OnlyRecordedAlive(w: World, vm: string) {
    forall p :: w.Alive(p) && w.procs[p].vm == vm ==> w.RecordsRunning(vm, p)
  }

  lemma StartedAmongDead(a: World, vm: string, r: Outcome, b: World)
    requires OnlyRecordedAlive(a, vm) && Step(a, CallStart(vm), r, b) && r.acted
    ensures OneAlive(b, vm)
  {
    forall p | b.Alive(p) && b.procs[p].vm == vm ensures p == a.next {
      if p in a.procs {
        StepDrifts(a, CallStart(vm), r, b);
        assert a.Alive(p);
      } else {
        OnlyStartAdds(a, CallStart(vm), r, b, p);
      }
    }
  }

  /** A start looks at the recorded process only, so that it puts a second process beside any other
      that still lives: it leaves at most one for certain exactly when no other is alive before, or
      the start is refused. */
  lemma StartLeavesOneIff(a: World, vm: string)
    requires Sound(a)
    ensures (forall r, b :: Step(a, CallStart(vm), r, b) && r.acted ==> OneAlive(b, vm))
            <==> OnlyRecordedAlive(a, vm) || !a.Complete(vm)
  {
    hide Step;
    if !a.Complete(vm) {
      forall r, b | Step(a, CallStart(vm), r, b) ensures !r.acted {
        RefusedStart(a, vm, r, b);
      }
    } else if OnlyRecordedAlive(a, vm) {
      forall r, b | Step(a, CallStart(vm), r, b) && r.acted ensures OneAlive(b, vm) {
        StartedAmongDead(a, vm, r, b);
      }
    } else {
      var p :| a.Alive(p) && a.procs[p].vm == vm && !a.RecordsRunning(vm, p);
      var b := Started(a, vm);
      StartedIsPossible(a, vm);
      assert Outcome(true, true).acted;
      assert b.Alive(p) && b.Alive(a.next) && !OneAlive(b, vm);
    }
  }

  lemma RefusedStart(a: World, vm: string, r: Outcome, b: World)
    requires Step(a, CallStart(vm), r, b) && !a.Complete(vm)
    ensures !r.acted && b.vms == a.vms && SameProcesses(a, b)
  {
  }

  /** What a caller can tell before the call: of all calls only the start of a VM that has metadata and
      a record can break the promise that what was not told to stop is recorded running. */
  lemma CallKeepsAllRecordedIff(a: World, call: Call)
    requires AllRecorded(a)
    ensures (forall r, b :: Step(a, call, r, b) ==> AllRecorded(b)) <==> !(call.CallStart? && a.Complete(call.vm))
  {
    hide Step;
    if call.CallStart? && a.Complete(call.vm) {
      var b := Escaped(a, call.vm);
      EscapeIsPossible(a, call.vm);
      assert b.Untold(a.next) && !b.RecordsRunning(call.vm, a.next);
    } else {
      forall r, b | Step(a, call, r, b) ensures AllRecorded(b) {
        StepKeepsAllRecordedIff(a, call, r, b);
        if call.CallStart? {
          RefusedStart(a, call.vm, r, b);
        }
      }
    }
  }

  const STOPPED_VM := Vm(true, false, true, Some(Stopped))
  const LINGERING := Process("vm", true, [Terminate], [], false, {})
  const ESCAPED := Process("vm", true, [], [Terminate], false, {})
  const RUNNING := Process("vm", true, [], [], false, EVERYTHING)

  lemma GivingUpLeavesProcess(a: World, b: World, left: Process)
    requires a == World(map["vm" := STOPPED_VM], map[], 1, {}, [], 0) && (left == LINGERING || left == ESCAPED)
    requires b == World(map["vm" := STOPPED_VM], map[1 := left], 2, {}, [], 0)
    ensures Step(a, CallStart("vm"), Outcome(false, false), b)
  {
    assert Launched(a, "vm", false, false, b);
  }

  lemma CreatingFirst(a: World, b: World)
    requires a == World(map[], map[], 1, {}, [], 0) && b == World(map["vm" := STOPPED_VM], map[], 1, {}, [], 0)
    ensures Step(a, CallCreate("vm"), Outcome(false, true), b)
  {
  }

  /** Creating a VM, a start that gives up, and a start that succeeds while the first process lives. */
  lemma TwoStarts(left: Process) returns (worlds: seq<World>, events: seq<Event>)
    requires left == LINGERING || left == ESCAPED
    ensures Run(worlds, events) && |events| == 3
    ensures worlds[3].procs == map[1 := left, 2 := RUNNING]
  {
    hide Step;
    var w0 := World(map[], map[], 1, {}, [], 0);
    var w1 := World(map["vm" := STOPPED_VM], map[], 1, {}, [], 0);
    var w2 := World(map["vm" := STOPPED_VM], map[1 := left], 2, {}, [], 0);
    var w3 := Started(w2, "vm");
    var e1 := Event(CallCreate("vm"), Outcome(false, true));
    var e2 := Event(CallStart("vm"), Outcome(false, false));
    var e3 := Event(CallStart("vm"), Outcome(true, true));
    CreatingFirst(w0, w1);
    GivingUpLeavesProcess(w1, w2, left);
    StartedIsPossible(w2, "vm");
    RunOfThree(w0, w1, w2, w3, e1, e2, e3);
    worlds, events := [w0, w1, w2, w3], [e1, e2, e3];
  }

  /** Why "not told" is needed: a start that gives up does not wait for its process. */
  lemma ToldProcessMayLinger()
    ensures exists worlds: seq<World>, events: seq<Event> :: Run(worlds, events) && |events| == 3
              && var w := worlds[3]; w.Alive(1) && w.Untold(2) && w.procs[1].vm == w.procs[2].vm && w.procs[1].heard != []
  {
    var worlds, events := TwoStarts(LINGERING);
  }

  /** Why "no SIGTERM refused" is needed: a start that gives up does not look at what its signal met. */
  lemma RefusedSignalLeavesTwo()
    ensures exists worlds: seq<World>, events: seq<Event> :: Run(worlds, events) && |events| == 3
              && var w := worlds[3]; w.Untold(1) && w.Untold(2) && w.procs[1].vm == w.procs[2].vm
  {
    var worlds, events := TwoStarts(ESCAPED);
  }

  lemma RunOfThree(w0: World, w1: World, w2: World, w3: World, e1: Event, e2: Event, e3: Event)
    requires w0 == World(map[], map[], 1, {}, [], 0)
    requires Step(w0, e1.call, e1.outcome, w1) && Step(w1, e2.call, e2.outcome, w2) && Step(w2, e3.call, e3.outcome, w3)
    ensures Run([w0, w1, w2, w3], [e1, e2, e3])
  {
    hide Step;
    assert Run([w0], []);
    assert [w0, w1][..1] == [w0] && [e1][..0] == [];
    assert Run([w0, w1], [e1]);
    assert [w0, w1, w2][..2] == [w0, w1] && [e1, e2][..1] == [e1];
    assert Run([w0, w1, w2], [e1, e2]);
    assert [w0, w1, w2, w3][..3] == [w0, w1, w2] && [e1, e2, e3][..2] == [e1, e2];
  }
}
