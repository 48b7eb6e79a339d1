// Bringing a project up: its provisioning VM, the snapshot taken from that, and its work VM, in
// stores it shares with other projects and with VMs that belong to no project.
module ProjectUp {

  datatype Role = NoRole | Work | Provisioning | Provisioned

  /** A VM or a snapshot: the project root its metadata names, if the metadata can be read, the setup
      commands that have run in it, whether it is running, and what else there is to it. */
  datatype Object = Object(readable: bool, root: string, role: Role, ran: seq<nat>, running: bool, content: nat)

  datatype Stores = Stores(vms: map<string, Object>, snapshots: map<string, Object>, images: set<string>)

  datatype Project = Project(root: string, name: string, image: string, setup: nat) {
    function Vm(): string { name }
    function ProvisioningVm(): string { name + "-provisioning" }
    function Snapshot(): string { name + "-provisioned" }
  }

  /** What the names of a project called `name` are. */
  lemma ProjectNames(p: Project)
    ensures p.Vm() == p.name && p.ProvisioningVm() == p.name + "-provisioning" && p.Snapshot() == p.name + "-provisioned"
  {
  }

  predicate SameOwner(a: Object, b: Object) { a.readable == b.readable && a.root == b.root }

  predicate Owned(o: Object, root: string) { o.readable && o.root == root }

  /** There is nothing of that name, or it belongs to the project. */
  predicate Free(objects: map<string, Object>, name: string, root: string) {
    name in objects ==> Owned(objects[name], root)
  }

  predicate NoConflict(s: Stores, p: Project) {
    && Free(s.vms, p.Vm(), p.root) && Free(s.vms, p.ProvisioningVm(), p.root)
    && Free(s.snapshots, p.Snapshot(), p.root)
  }

  /** The objects under all other names are the same. */
  ghost predicate SameBut(a: map<string, Object>, b: map<string, Object>, names: set<string>) {
    forall n :: n !in names ==> (n in a <==> n in b) && (n in a ==> a[n] == b[n])
  }

  /** Nothing differs but under the names of the project. */
  ghost predicate SameElse(a: Stores, b: Stores, p: Project) {
    && SameBut(a.vms, b.vms, {p.Vm(), p.ProvisioningVm()})
    && SameBut(a.snapshots, b.snapshots, {p.Snapshot()})
  }

  /** Nothing is created or deleted, but for an image that is gone, and no snapshot differs; the work VM
      may have been started. */
  ghost predicate Quiet(a: Stores, b: Stores, p: Project) {
    && (p.image in a.images ==> b.images == a.images)
    && b.snapshots == a.snapshots && b.vms.Keys == a.vms.Keys
    && (forall n :: n in a.vms && n != p.Vm() ==> b.vms[n] == a.vms[n])
    && (p.Vm() in a.vms ==> b.vms[p.Vm()] == a.vms[p.Vm()].(content := b.vms[p.Vm()].content, running := b.vms[p.Vm()].running))
  }

  /** The project's setup commands, each once and in order. */
  function SetupSteps(n: nat): seq<nat> { seq(n, i => i) }

  /** What one `up` may do. */
  ghost predicate UpStep(a: Stores, p: Project, reprovision: bool, ok: bool, b: Stores) {
    && (!NoConflict(a, p) ==> b == a && !ok)
    && SameElse(a, b, p)
    && a.images <= b.images <= a.images + {p.image}
    && (!reprovision && p.Snapshot() in a.snapshots ==> SameBut(a.vms, b.vms, {p.Vm()}))
    && (ok ==>
          && p.image in b.images
          && p.Snapshot() in b.snapshots && Owned(b.snapshots[p.Snapshot()], p.root)
          && p.Vm() in b.vms && Owned(b.vms[p.Vm()], p.root)
          && (p.Snapshot() !in a.snapshots || reprovision ==>
                && p.ProvisioningVm() !in b.vms && b.snapshots[p.Snapshot()].role == Provisioned
                && b.snapshots[p.Snapshot()].ran == SetupSteps(p.setup))
          && b.vms[p.Vm()].running
          && (p.Vm() !in a.vms || reprovision ==>
                b.vms[p.Vm()].role == Work && b.vms[p.Vm()].ran == b.snapshots[p.Snapshot()].ran))
    && (!reprovision && p.Snapshot() in a.snapshots && p.Vm() in a.vms ==> Quiet(a, b, p))
  }

  // ---- The run ----

  class Host {
    var s: Stores
    /** How many creations, removals and markings have failed, which may leave something that no project
        owns. */
    var spoiled: nat
    /** Whether every call succeeds that can. */
    const reliable: bool

    constructor (s: Stores, reliable: bool)
      ensures this.s == s && this.reliable == reliable && spoiled == 0
    {
      this.s, this.reliable, spoiled := s, reliable, 0;
    }

    /** A new VM names no project yet, and has what its image or snapshot has. A failed creation may
        leave a directory without metadata. */
    method CreateVm(name: string, ran: seq<nat>) returns (ok: bool)
      modifies this
      ensures s == old(s).(vms := s.vms)
      ensures SameBut(old(s).vms, s.vms, {name})
      ensures name in old(s).vms ==> !ok && s == old(s)
      ensures ok ==> name in s.vms && s.vms[name].readable && s.vms[name].ran == ran
      ensures reliable && name !in old(s).vms ==> ok
      ensures old(spoiled) <= spoiled && (!ok || spoiled == old(spoiled))
      ensures !ok && spoiled == old(spoiled) ==> s == old(s)
    {
      ok := *;
      ok := ok || reliable;
      var cleaned: bool := *;
      var content: nat := *;
      if name in s.vms {
        ok := false;
      } else if ok {
        s := s.(vms := s.vms[name := Object(true, "", NoRole, ran, false, content)]);
      } else if !cleaned {
        s, spoiled := s.(vms := s.vms[name := Object(false, "", NoRole, [], false, content)]), spoiled + 1;
      }
    }

    /** A failed removal may have taken files, the metadata among them. */
    method DeleteVm(name: string) returns (ok: bool)
      modifies this
      ensures s == old(s).(vms := s.vms)
      ensures SameBut(old(s).vms, s.vms, {name})
      ensures ok ==> name !in s.vms
      ensures name !in old(s).vms ==> !ok && s == old(s)
      ensures reliable && name in old(s).vms ==> ok
      ensures old(spoiled) <= spoiled && (!ok || spoiled == old(spoiled))
      ensures !ok && spoiled == old(spoiled) ==> s == old(s)
    {
      ok := *;
      ok := ok || reliable;
      if name !in s.vms {
        ok := false;
      } else if ok {
        s := s.(vms := s.vms - {name});
      } else {
        var kept: bool, content: nat := *, *;
        s := s.(vms := s.vms[name := s.vms[name].(readable := s.vms[name].readable && kept, content := content)]);
        spoiled := spoiled + 1;
      }
    }

    method StartVm(name: string) returns (ok: bool)
      modifies this
      ensures name !in old(s).vms ==> !ok && s == old(s)
      ensures name in old(s).vms ==>
                && s == old(s).(vms := s.vms) && s.vms.Keys == old(s).vms.Keys && SameBut(old(s).vms, s.vms, {name})
                && s.vms[name] == old(s).vms[name].(content := s.vms[name].content, running := s.vms[name].running)
      ensures ok ==> s.vms[name].running
      ensures reliable && name in old(s).vms ==> ok
      ensures spoiled == old(spoiled)
    {
      ok := *;
      ok := ok || reliable;
      if name !in s.vms {
        return false;
      }
      var content: nat, running: bool := *, *;
      s := s.(vms := s.vms[name := s.vms[name].(content := content, running := ok || running)]);
    }

    /** A setup command that fails may have had its effect. */
    method RunSetup(name: string, step: nat) returns (ok: bool)
      requires name in s.vms
      modifies this
      ensures s == old(s).(vms := s.vms) && s.vms.Keys == old(s).vms.Keys && SameBut(old(s).vms, s.vms, {name})
      ensures ok ==> s.vms[name] == old(s).vms[name].(content := s.vms[name].content, ran := old(s).vms[name].ran + [step])
      ensures reliable ==> ok && s.vms[name].running == old(s).vms[name].running && s.vms[name].readable == old(s).vms[name].readable
      ensures spoiled == old(spoiled) && SameOwner(old(s).vms[name], s.vms[name])
    {
      ok := *;
      ok := ok || reliable;
      var effect: bool, content: nat := *, *;
      var vm := s.vms[name];
      s := s.(vms := s.vms[name := vm.(content := content, ran := if ok || effect then vm.ran + [step] else vm.ran)]);
    }

    /** Published by a rename; it names no project yet. Its VM is stopped on the way. */
    method TakeSnapshot(snapshot: string, vm: string) returns (ok: bool)
      requires vm in s.vms
      modifies this
      ensures s == old(s).(vms := s.vms, snapshots := s.snapshots)
      ensures s.vms.Keys == old(s).vms.Keys && SameBut(old(s).vms, s.vms, {vm})
      ensures SameBut(old(s).snapshots, s.snapshots, {snapshot})
      ensures ok ==> snapshot !in old(s).snapshots && snapshot in s.snapshots && s.snapshots[snapshot].readable
      ensures ok ==> old(s).vms[vm].running && s.snapshots[snapshot].ran == old(s).vms[vm].ran
      ensures !ok ==> s.snapshots == old(s).snapshots
      ensures reliable && snapshot !in old(s).snapshots && old(s).vms[vm].running ==> ok
      ensures spoiled == old(spoiled) && SameOwner(old(s).vms[vm], s.vms[vm])
    {
      ok := *;
      ok := ok || reliable;
      if snapshot in s.snapshots || !s.vms[vm].running {
        return false;
      }
      var running: bool, content: nat, saved: nat := *, *, *;
      s := s.(vms := s.vms[vm := s.vms[vm].(content := content, running := running && !ok)]);
      if ok {
        s := s.(snapshots := s.snapshots[snapshot := Object(true, "", NoRole, s.vms[vm].ran, false, saved)]);
      }
    }

    method DeleteSnapshot(name: string) returns (ok: bool)
      modifies this
      ensures s == old(s).(snapshots := s.snapshots)
      ensures SameBut(old(s).snapshots, s.snapshots, {name})
      ensures ok ==> name !in s.snapshots
      ensures reliable ==> ok
      ensures old(spoiled) <= spoiled && (!ok || spoiled == old(spoiled))
      ensures !ok ==> spoiled != old(spoiled)
    {
      ok := *;
      ok := ok || reliable;
      if name !in s.snapshots {
        return true;
      }
      if ok {
        s := s.(snapshots := s.snapshots - {name});
      } else {
        var kept: bool, content: nat := *, *;
        s := s.(snapshots := s.snapshots[name := s.snapshots[name].(readable := s.snapshots[name].readable && kept, content := content)]);
        spoiled := spoiled + 1;
      }
    }

    method ValidateVm(name: string, root: string) returns (ok: bool)
      ensures ok ==> Free(s.vms, name, root)
      ensures reliable && Free(s.vms, name, root) ==> ok
    {
      ok := *;
      ok := ok || reliable;
      ok := ok && (name !in s.vms || Owned(s.vms[name], root));
    }

    method ValidateSnapshot(name: string, root: string) returns (ok: bool)
      ensures ok ==> Free(s.snapshots, name, root)
      ensures reliable && Free(s.snapshots, name, root) ==> ok
    {
      ok := *;
      ok := ok || reliable;
      ok := ok && (name !in s.snapshots || Owned(s.snapshots[name], root));
    }

    method MarkVm(name: string, p: Project, role: Role) returns (ok: bool)
      modifies this
      ensures s == old(s).(vms := s.vms)
      ensures SameBut(old(s).vms, s.vms, {name})
      ensures s.vms.Keys == old(s).vms.Keys
      ensures ok ==> name in s.vms && Owned(s.vms[name], p.root) && s.vms[name].role == role
      ensures ok ==> s.vms[name].ran == old(s).vms[name].ran
      ensures reliable && name in old(s).vms && old(s).vms[name].readable ==> ok
      ensures old(spoiled) <= spoiled && (!ok || spoiled == old(spoiled))
      ensures !ok ==> spoiled != old(spoiled)
    {
      ok := *;
      ok := ok || reliable;
      ok := ok && name in s.vms && s.vms[name].readable;
      if ok {
        s := s.(vms := s.vms[name := s.vms[name].(root := p.root, role := role)]);
      } else {
        spoiled := spoiled + 1;
      }
    }

    method MarkSnapshot(name: string, p: Project, role: Role) returns (ok: bool)
      modifies this
      ensures s == old(s).(snapshots := s.snapshots)
      ensures SameBut(old(s).snapshots, s.snapshots, {name})
      ensures s.snapshots.Keys == old(s).snapshots.Keys
      ensures ok ==> name in s.snapshots && Owned(s.snapshots[name], p.root) && s.snapshots[name].role == role
      ensures ok ==> s.snapshots[name].ran == old(s).snapshots[name].ran
      ensures reliable && name in old(s).snapshots && old(s).snapshots[name].readable ==> ok
      ensures old(spoiled) <= spoiled && (!ok || spoiled == old(spoiled))
      ensures !ok ==> spoiled != old(spoiled)
    {
      ok := *;
      ok := ok || reliable;
      ok := ok && name in s.snapshots && s.snapshots[name].readable;
      if ok {
        s := s.(snapshots := s.snapshots[name := s.snapshots[name].(root := p.root, role := role)]);
      } else {
        spoiled := spoiled + 1;
      }
    }

    method DeleteProjectVmIfExists(name: string, root: string) returns (ok: bool)
      modifies this
      ensures s == old(s).(vms := s.vms)
      ensures SameBut(old(s).vms, s.vms, {name})
      ensures ok ==> name !in s.vms
      ensures reliable && Free(old(s).vms, name, root) ==> ok
      ensures !Free(old(s).vms, name, root) ==> s == old(s)
      ensures old(spoiled) <= spoiled && (spoiled == old(spoiled) ==> s.vms == old(s).vms || name !in s.vms)
    {
      ok := ValidateVm(name, root);
      if !ok || name !in s.vms {
        return;
      }
      ok := DeleteVm(name);
    }

    method DeleteProjectSnapshotIfExists(name: string, root: string) returns (ok: bool)
      modifies this
      ensures s == old(s).(snapshots := s.snapshots)
      ensures SameBut(old(s).snapshots, s.snapshots, {name})
      ensures ok ==> name !in s.snapshots
      ensures reliable && Free(old(s).snapshots, name, root) ==> ok
      ensures !Free(old(s).snapshots, name, root) ==> s == old(s)
      ensures old(spoiled) <= spoiled && (spoiled == old(spoiled) ==> s.snapshots == old(s).snapshots || name !in s.snapshots)
    {
      ok := ValidateSnapshot(name, root);
      if !ok {
        return;
      }
      ok := DeleteSnapshot(name);
    }

    method RunAllSetup(p: Project, vm: string) returns (ok: bool)
      requires vm in s.vms && s.vms[vm].ran == []
      modifies this
      ensures s == old(s).(vms := s.vms) && s.vms.Keys == old(s).vms.Keys && SameBut(old(s).vms, s.vms, {vm})
      ensures ok ==> s.vms[vm].ran == SetupSteps(p.setup)
      ensures reliable ==> ok && s.vms[vm].running == old(s).vms[vm].running && s.vms[vm].readable == old(s).vms[vm].readable
      ensures spoiled == old(spoiled) && SameOwner(old(s).vms[vm], s.vms[vm])
    {
      ok := true;
      for i := 0 to p.setup
        invariant s == old(s).(vms := s.vms) && s.vms.Keys == old(s).vms.Keys && SameBut(old(s).vms, s.vms, {vm})
        invariant s.vms[vm].ran == SetupSteps(i) && spoiled == old(spoiled) && SameOwner(old(s).vms[vm], s.vms[vm])
        invariant reliable ==> s.vms[vm].running == old(s).vms[vm].running && s.vms[vm].readable == old(s).vms[vm].readable
      {
        ok := RunSetup(vm, i);
        if !ok {
          return;
        }
      }
      ok := true;
    }

    method Provision(p: Project) returns (ok: bool)
      modifies this
      ensures SameBut(old(s).vms, s.vms, {p.ProvisioningVm()}) && SameBut(old(s).snapshots, s.snapshots, {p.Snapshot()})
      ensures s.images == old(s).images
      ensures ok ==> p.Snapshot() in s.snapshots && Owned(s.snapshots[p.Snapshot()], p.root)
      ensures ok ==> s.snapshots[p.Snapshot()].role == Provisioned && s.snapshots[p.Snapshot()].ran == SetupSteps(p.setup)
      ensures ok ==> p.ProvisioningVm() !in s.vms
      ensures old(spoiled) <= spoiled
      ensures spoiled == old(spoiled) && Free(old(s).vms, p.ProvisioningVm(), p.root) && Free(old(s).snapshots, p.Snapshot(), p.root) ==>
                Free(s.vms, p.ProvisioningVm(), p.root) && Free(s.snapshots, p.Snapshot(), p.root)
      ensures reliable && Free(old(s).vms, p.ProvisioningVm(), p.root) && p.Snapshot() !in old(s).snapshots ==> ok
    {
      NamesDiffer(p);
      var vm := p.ProvisioningVm();
      var _ := DeleteProjectVmIfExists(vm, p.root);
      ok := CreateVm(vm, []);
      if !ok {
        return;
      }
      ok := MarkVm(vm, p, Provisioning);
      if !ok {
        return;
      }
      ok := StartVm(vm);
      if !ok {
        return;
      }
      ok := RunAllSetup(p, vm);
      if !ok {
        return;
      }
      ok := TakeSnapshot(p.Snapshot(), vm);
      if !ok {
        return;
      }
      ok := MarkSnapshot(p.Snapshot(), p, Provisioned);
      if !ok {
        return;
      }
      ok := DeleteVm(vm);
    }

    method CheckNames(p: Project) returns (ok: bool)
      ensures ok ==> NoConflict(s, p)
      ensures reliable && NoConflict(s, p) ==> ok
    {
      ok := ValidateVm(p.Vm(), p.root);
      if !ok {
        return;
      }
      ok := ValidateVm(p.ProvisioningVm(), p.root);
      if !ok {
        return;
      }
      ok := ValidateSnapshot(p.Snapshot(), p.root);
    }

    /** Before provisioning anew, the work VM goes and then the snapshot. */
    method Clear(p: Project) returns (ok: bool)
      requires NoConflict(s, p)
      modifies this
      ensures s == old(s).(vms := s.vms, snapshots := s.snapshots)
      ensures SameBut(old(s).vms, s.vms, {p.Vm()}) && SameBut(old(s).snapshots, s.snapshots, {p.Snapshot()})
      ensures ok ==> p.Vm() !in s.vms && p.Snapshot() !in s.snapshots
      ensures reliable ==> ok
      ensures old(spoiled) <= spoiled && (spoiled == old(spoiled) ==> NoConflict(s, p))
    {
      NamesDiffer(p);
      ok := DeleteProjectVmIfExists(p.Vm(), p.root);
      if ok {
        ok := DeleteProjectSnapshotIfExists(p.Snapshot(), p.root);
      }
    }

    /** Where no call fails, this succeeds exactly without a conflict. What a failure leaves behind does not
        stand in the way of the next attempt, unless a creation, a removal or a marking failed halfway. */
    method Up(p: Project, reprovision: bool) returns (ok: bool)
      modifies this
      ensures UpStep(old(s), p, reprovision, ok, s)
      ensures reliable ==> (ok <==> NoConflict(old(s), p))
      ensures spoiled == old(spoiled) && NoConflict(old(s), p) ==> NoConflict(s, p)
    {
      NamesDiffer(p);
      ok := *;
      ok := ok || reliable;
      if !ok {
        return;
      }
      ok := CheckNames(p);
      if !ok {
        return;
      }
      if reprovision {
        ok := Clear(p);
        if !ok {
          return;
        }
      }
      if p.image !in s.images {
        ok := *;
        ok := ok || reliable;
        if !ok {
          return;
        }
        s := s.(images := s.images + {p.image});
      }
      if p.Snapshot() !in s.snapshots {
        ok := Provision(p);
        if !ok {
          return;
        }
      }
      ok := BringUp(p);
    }

    /** The work VM: created from the snapshot if there is none, and started. */
    method BringUp(p: Project) returns (ok: bool)
      requires p.Snapshot() in s.snapshots
      modifies this
      ensures s == old(s).(vms := s.vms) && SameBut(old(s).vms, s.vms, {p.Vm()})
      ensures p.Vm() in old(s).vms ==>
                && p.Vm() in s.vms
                && s.vms[p.Vm()] == old(s).vms[p.Vm()].(content := s.vms[p.Vm()].content, running := s.vms[p.Vm()].running)
      ensures ok ==> p.Vm() in s.vms && s.vms[p.Vm()].running
      ensures ok && p.Vm() !in old(s).vms ==>
                Owned(s.vms[p.Vm()], p.root) && s.vms[p.Vm()].role == Work && s.vms[p.Vm()].ran == old(s).snapshots[p.Snapshot()].ran
      ensures reliable ==> ok
      ensures old(spoiled) <= spoiled
      ensures spoiled == old(spoiled) && Free(old(s).vms, p.Vm(), p.root) ==> Free(s.vms, p.Vm(), p.root)
    {
      if p.Vm() !in s.vms {
        ok := CreateVm(p.Vm(), s.snapshots[p.Snapshot()].ran);
        if !ok {
          return;
        }
        ok := MarkVm(p.Vm(), p, Work);
        if !ok {
          return;
        }
      }
      ok := StartVm(p.Vm());
    }
  }

  lemma NamesDiffer(p: Project)
    ensures p.Vm() != p.ProvisioningVm()
  {
    assert |p.ProvisioningVm()| > |p.Vm()|;
  }

  // ---- What follows for the stores ----

  /** Whichever step fails, what the project does not own is as it was. */
  lemma OwnershipIsRespected(a: Stores, p: Project, reprovision: bool, ok: bool, b: Stores)
    requires UpStep(a, p, reprovision, ok, b)
    ensures forall n :: n in a.vms && !Owned(a.vms[n], p.root) ==> n in b.vms && b.vms[n] == a.vms[n]
    ensures forall n :: n in a.snapshots && !Owned(a.snapshots[n], p.root) ==> n in b.snapshots && b.snapshots[n] == a.snapshots[n]
  {
    if NoConflict(a, p) {
      forall n | n in a.vms && !Owned(a.vms[n], p.root)
        ensures n in b.vms && b.vms[n] == a.vms[n]
      {
        assert n !in {p.Vm(), p.ProvisioningVm()};
      }
    }
  }

  datatype Event = Event(project: Project, reprovision: bool, ok: bool)

  ghost predicate Run(stores: seq<Stores>, events: seq<Event>) {
    && |stores| == |events| + 1
    && forall i {:trigger events[i]} :: 0 <= i < |events| ==>
         UpStep(stores[i], events[i].project, events[i].reprovision, events[i].ok, stores[i + 1])
  }

  /** However many projects are brought up one after the other, in whatever names they collide: a VM or
      snapshot that none of them owns is the same at the end. */
  lemma {:induction false} OthersSurviveRuns(stores: seq<Stores>, events: seq<Event>, k: nat, n: string)
    requires Run(stores, events) && k <= |events|
    ensures n in stores[0].vms && (forall e :: e in events ==> !Owned(stores[0].vms[n], e.project.root)) ==>
              n in stores[k].vms && stores[k].vms[n] == stores[0].vms[n]
    ensures n in stores[0].snapshots && (forall e :: e in events ==> !Owned(stores[0].snapshots[n], e.project.root)) ==>
              n in stores[k].snapshots && stores[k].snapshots[n] == stores[0].snapshots[n]
  {
    hide UpStep, Owned;
    if k > 0 {
      OthersSurviveRuns(stores, events, k - 1, n);
      var e := events[k - 1];
      assert UpStep(stores[k - 1], e.project, e.reprovision, e.ok, stores[k - 1 + 1]);
      OwnershipIsRespected(stores[k - 1], e.project, e.reprovision, e.ok, stores[k]);
    }
  }

  /** Once a project is up, bringing it up again creates and deletes nothing. */
  lemma SecondUpIsQuiet(a: Stores, p: Project, reprovision: bool, b: Stores, ok: bool, c: Stores)
    requires UpStep(a, p, reprovision, true, b) && UpStep(b, p, false, ok, c)
    ensures Quiet(b, c, p) && c.images == b.images
    ensures p.Vm() in c.vms && Owned(c.vms[p.Vm()], p.root) && Owned(c.snapshots[p.Snapshot()], p.root)
  {
  }

  lemma NamesAreDistinct(p: Project, q: Project)
    requires p.name != q.name
    ensures p.ProvisioningVm() != q.ProvisioningVm() && p.Snapshot() != q.Snapshot()
  {
    assert p.ProvisioningVm()[..|p.name|] == p.name && q.ProvisioningVm()[..|q.name|] == q.name;
    assert p.Snapshot()[..|p.name|] == p.name && q.Snapshot()[..|q.name|] == q.name;
  }

  /** Two different projects never share an object: when both are up, each owns its own. The name of
      the first one's provisioning VM is only free to the second if that VM is gone; the first project
      can be brought up again exactly if the second has not taken it. */
  lemma BothUpMeansDistinct(a: Stores, p: Project, again: bool, q: Project, anew: bool, b: Stores, c: Stores)
    requires UpStep(a, p, again, true, b) && UpStep(b, q, anew, true, c) && p.root != q.root
    ensures p.Vm() != q.Vm() && p.Snapshot() != q.Snapshot()
    ensures p.ProvisioningVm() != q.ProvisioningVm() && p.Vm() != q.ProvisioningVm()
    ensures p.Vm() in c.vms && c.vms[p.Vm()] == b.vms[p.Vm()]
    ensures p.Snapshot() in c.snapshots && c.snapshots[p.Snapshot()] == b.snapshots[p.Snapshot()]
    ensures p.ProvisioningVm() != q.Vm() <==> NoConflict(c, p)
  {
    OwnershipIsRespected(b, q, anew, true, c);
    assert p.Vm() != q.Vm() && p.Vm() != q.ProvisioningVm();
    NamesAreDistinct(p, q);
    NamesDiffer(p);
  }
}
