// Building VMs from a snapshot with hard links where files are not written and copies where they
// are: paths, inodes, contents, and which writes can be seen where.
module LinkedDisks {
  import opened Paths
  import SnapshotRewrite

  type Content = seq<int>

  /** A file of a snapshot, of a VM's restore directory, or of the VM directory itself. */
  datatype Path =
    | SnapshotFile(snapshot: string, name: string)
    | RestoreFile(vm: string, name: string)
    | VmFile(vm: string, name: string)

  /** The restore directory's own place in the VM directory; it is there before anything is put in it. */
  predicate IsRestoreDir(p: Path) { p.VmFile? && p.name == RESTORE_DIR_NAME }

  predicate OfVm(p: Path, vm: string) { !p.SnapshotFile? && p.vm == vm }

  /** The file system. Inodes are numbered in order of creation; `next` is the first unused one. */
  datatype Store = Store(names: map<Path, nat>, inodes: map<nat, Content>, next: nat) {
    predicate Valid() {
      && (forall p :: p in names ==> names[p] in inodes)
      && (forall i :: i in inodes ==> i < next)
    }

    predicate Has(p: Path) { p in names }

    function Read(p: Path): Content
      requires Valid() && Has(p)
    {
      inodes[names[p]]
    }

    function Copied(src: Path, dst: Path): (s: Store)
      requires Valid() && Has(src) && !Has(dst)
      ensures s.Valid()
    {
      Store(names[dst := next], inodes[next := Read(src)], next + 1)
    }

    function Linked(src: Path, dst: Path): (s: Store)
      requires Valid() && Has(src) && !Has(dst)
      ensures s.Valid()
    {
      this.(names := names[dst := names[src]])
    }

    /** A write through one path. */
    function Written(p: Path, c: Content): (s: Store)
      requires Valid() && Has(p)
      ensures s.Valid()
    {
      this.(inodes := inodes[names[p] := c])
    }

    function Removed(gone: set<Path>): (s: Store)
      requires Valid()
      ensures s.Valid()
    {
      this.(names := names - gone)
    }
  }

  datatype Disk = Disk(name: string, readOnly: bool)

  const KERNEL := "kernel"
  const INITRAMFS := "initramfs"

  function DiskNames(disks: seq<Disk>): (names: seq<string>)
    ensures |names| == |disks|
  {
    seq(|disks|, i requires 0 <= i < |disks| => disks[i].name)
  }

  /** The files of a snapshot before its disks. Like a read-only disk, a file is linked if it can be
      when nothing will write it; the others are copied. */
  const FIXED_FILES: seq<Disk> := [
    Disk("config.json", false), Disk("memory-ranges", true), Disk("state.json", false), Disk(KERNEL, true), Disk(INITRAMFS, true)
  ]

  function Writable(disks: seq<Disk>): set<string> {
    set d | d in disks && !d.readOnly :: d.name
  }

  // ---- What creating a VM from a snapshot does ----

  /** Nothing that was there has changed, and every new path belongs to the VM. */
  ghost predicate Adds(before: Store, after: Store, vm: string) {
    && before.Valid() && after.Valid() && before.next <= after.next
    && (forall p :: p in before.names ==> p in after.names && after.names[p] == before.names[p])
    && (forall i :: i in before.inodes ==> i in after.inodes && after.inodes[i] == before.inodes[i])
    && (forall p :: p in after.names && p !in before.names ==> OfVm(p, vm))
  }

  /** Everything new is on a new inode or on one that some snapshot file had before. */
  ghost predicate Sourced(before: Store, after: Store) {
    forall p :: p in after.names && p !in before.names ==>
      before.next <= after.names[p] || OnSnapshotInode(before, after.names[p])
  }

  ghost predicate OnSnapshotInode(s: Store, inode: nat) {
    exists p :: p in s.names && p.SnapshotFile? && s.names[p] == inode
  }

  /** A path made by copying has an inode of its own, or one shared with a given other path only. */
  ghost predicate Private(s: Store, p: Path, partner: Path) {
    s.Has(p) && forall q :: q in s.names && s.names[q] == s.names[p] ==> q == p || q == partner
  }

  /** The VM's copy of a writable disk: two paths with the snapshot's contents that nothing else can
      reach, on one inode if the second was linked. */
  ghost predicate DiskReady(before: Store, after: Store, snapshot: string, vm: string, name: string, linked: bool) {
    && before.Valid() && after.Valid()
    && before.Has(SnapshotFile(snapshot, name)) && after.Has(RestoreFile(vm, name)) && after.Has(VmFile(vm, name))
    && after.Read(RestoreFile(vm, name)) == before.Read(SnapshotFile(snapshot, name))
    && after.Read(VmFile(vm, name)) == before.Read(SnapshotFile(snapshot, name))
    && Private(after, RestoreFile(vm, name), VmFile(vm, name))
    && Private(after, VmFile(vm, name), RestoreFile(vm, name))
    && (linked <==> after.names[VmFile(vm, name)] == after.names[RestoreFile(vm, name)])
  }

  ghost predicate CreatedFrom(before: Store, after: Store, snapshot: string, vm: string, disks: seq<Disk>, linked: set<string>) {
    && Adds(before, after, vm) && Sourced(before, after)
    && (forall n :: n in Writable(disks) ==> DiskReady(before, after, snapshot, vm, n, n in linked))
    && (forall d :: d in disks ==>
          && before.Has(SnapshotFile(snapshot, d.name)) && after.Has(RestoreFile(vm, d.name)) && after.Has(VmFile(vm, d.name))
          && after.Read(RestoreFile(vm, d.name)) == before.Read(SnapshotFile(snapshot, d.name))
          && after.Read(VmFile(vm, d.name)) == before.Read(SnapshotFile(snapshot, d.name)))
  }

  /** The files that are not disks: all are there with the snapshot's contents, and writing one of
      those that are rewritten later reaches no file of any snapshot. */
  ghost predicate FixedReady(before: Store, after: Store, snapshot: string, vm: string) {
    && before.Valid() && after.Valid()
    && (forall d :: d in FIXED_FILES ==>
          && before.Has(SnapshotFile(snapshot, d.name)) && after.Has(RestoreFile(vm, d.name))
          && after.Read(RestoreFile(vm, d.name)) == before.Read(SnapshotFile(snapshot, d.name))
          && (!d.readOnly ==> Private(after, RestoreFile(vm, d.name), VmFile(vm, d.name))))
    && (forall n :: n in [KERNEL, INITRAMFS] ==>
          && before.Has(SnapshotFile(snapshot, n)) && after.Has(VmFile(vm, n))
          && after.Read(VmFile(vm, n)) == before.Read(SnapshotFile(snapshot, n)))
  }

  /** The same by name: everything that a restore reads, and that the rewritten configuration may refer
      to, is in the restore directory with the snapshot's contents; the two files that are rewritten
      later are the VM's own; kernel and initramfs are in the VM directory too. */
  ghost predicate Restorable(before: Store, after: Store, snapshot: string, vm: string) {
    && before.Valid() && after.Valid()
    && (forall n :: n in {"config.json", "memory-ranges", "state.json", "kernel", "initramfs"} + SnapshotRewrite.RESTORE_FILES ==>
          && before.Has(SnapshotFile(snapshot, n)) && after.Has(RestoreFile(vm, n))
          && after.Read(RestoreFile(vm, n)) == before.Read(SnapshotFile(snapshot, n)))
    && (forall n :: n in {"config.json", "state.json"} ==> Private(after, RestoreFile(vm, n), VmFile(vm, n)))
    && (forall n :: n in {"kernel", "initramfs"} ==>
          && before.Has(SnapshotFile(snapshot, n)) && after.Has(VmFile(vm, n))
          && after.Read(VmFile(vm, n)) == before.Read(SnapshotFile(snapshot, n)))
  }

  lemma FixedByName(n: string)
    requires n in {"config.json", "memory-ranges", "state.json", "kernel", "initramfs"} + SnapshotRewrite.RESTORE_FILES
    ensures exists d :: d in FIXED_FILES && d.name == n && (n in {"config.json", "state.json"} ==> !d.readOnly)
  {
    var f := FIXED_FILES;
    var k := if n == "config.json" then 0 else if n == "memory-ranges" then 1 else if n == "state.json" then 2
             else if n == "kernel" then 3 else 4;
    assert f[k].name == n && f[k] in f;
  }

  lemma FixedReadyByName(before: Store, after: Store, snapshot: string, vm: string)
    requires FixedReady(before, after, snapshot, vm)
    ensures Restorable(before, after, snapshot, vm)
  {
    hide FIXED_FILES, Private;
    forall n | n in {"config.json", "memory-ranges", "state.json", "kernel", "initramfs"} + SnapshotRewrite.RESTORE_FILES
      ensures before.Has(SnapshotFile(snapshot, n)) && after.Has(RestoreFile(vm, n))
      ensures after.Read(RestoreFile(vm, n)) == before.Read(SnapshotFile(snapshot, n))
      ensures n in {"config.json", "state.json"} ==> Private(after, RestoreFile(vm, n), VmFile(vm, n))
    {
      FixedByName(n);
    }
    assert KERNEL in [KERNEL, INITRAMFS] && INITRAMFS in [KERNEL, INITRAMFS];
  }

  // ---- Inside the creation ----

  /** The first phase, when the writable disks among `done` have been copied. */
  ghost predicate Restoring(before: Store, now: Store, snapshot: string, vm: string, done: seq<Disk>) {
    && Adds(before, now, vm) && Sourced(before, now)
    && (forall n :: !now.Has(VmFile(vm, n)))
    && (forall d :: d in done ==>
          && before.Has(SnapshotFile(snapshot, d.name)) && now.Has(RestoreFile(vm, d.name))
          && now.Read(RestoreFile(vm, d.name)) == before.Read(SnapshotFile(snapshot, d.name))
          && (!d.readOnly ==>
                && Private(now, RestoreFile(vm, d.name), RestoreFile(vm, d.name))
                && before.next <= now.names[RestoreFile(vm, d.name)]))
  }

  lemma CopyAdds(before: Store, now: Store, vm: string, src: Path, dst: Path)
    requires Adds(before, now, vm) && Sourced(before, now)
    requires now.Has(src) && !now.Has(dst) && OfVm(dst, vm)
    ensures Adds(before, now.Copied(src, dst), vm) && Sourced(before, now.Copied(src, dst))
  {
  }

  lemma LinkAdds(before: Store, now: Store, vm: string, src: Path, dst: Path)
    requires Adds(before, now, vm) && Sourced(before, now)
    requires before.Has(src) && src.SnapshotFile? && !now.Has(dst) && OfVm(dst, vm)
    ensures now.Has(src) && Adds(before, now.Linked(src, dst), vm) && Sourced(before, now.Linked(src, dst))
  {
  }

  lemma SnapshotIsThere(before: Store, now: Store, vm: string, src: Path)
    requires Adds(before, now, vm) && src.SnapshotFile? && now.Has(src)
    ensures before.Has(src) && now.Read(src) == before.Read(src) && now.names[src] == before.names[src] < before.next
  {
  }

  lemma RestoreLinks(before: Store, now: Store, snapshot: string, vm: string, done: seq<Disk>, name: string)
    requires Restoring(before, now, snapshot, vm, done)
    requires now.Has(SnapshotFile(snapshot, name)) && !now.Has(RestoreFile(vm, name))
    ensures Restoring(before, now.Linked(SnapshotFile(snapshot, name), RestoreFile(vm, name)), snapshot, vm, done)
    ensures Restoring(before, now.Linked(SnapshotFile(snapshot, name), RestoreFile(vm, name)), snapshot, vm, done + [Disk(name, true)])
  {
    var src, dst := SnapshotFile(snapshot, name), RestoreFile(vm, name);
    SnapshotIsThere(before, now, vm, src);
    LinkAdds(before, now, vm, src, dst);
    hide Adds, Sourced;
    assert forall d :: d in done ==> d.name != name;
  }

  lemma RestoreCopies(before: Store, now: Store, snapshot: string, vm: string, done: seq<Disk>, name: string)
    requires Restoring(before, now, snapshot, vm, done)
    requires now.Has(SnapshotFile(snapshot, name)) && !now.Has(RestoreFile(vm, name))
    ensures Restoring(before, now.Copied(SnapshotFile(snapshot, name), RestoreFile(vm, name)), snapshot, vm, done)
    ensures forall readOnly ::
              Restoring(before, now.Copied(SnapshotFile(snapshot, name), RestoreFile(vm, name)), snapshot, vm, done + [Disk(name, readOnly)])
  {
    var src, dst := SnapshotFile(snapshot, name), RestoreFile(vm, name);
    SnapshotIsThere(before, now, vm, src);
    CopyAdds(before, now, vm, src, dst);
    assert before.next <= now.next;
    hide Adds, Sourced;
    assert forall d :: d in done ==> d.name != name;
    assert forall p :: p in now.names ==> now.names[p] < now.next;
  }

  /** The second phase, when the VM directory's own files of the names in `done` are in place. */
  ghost predicate Filling(restored: Store, now: Store, vm: string, done: set<string>, linked: set<string>) {
    && Adds(restored, now, vm)
    && (forall p :: p in now.names && p !in restored.names ==> p.VmFile? && p.name in done)
    && (forall n :: n in done ==> Filled(restored, now, vm, n, n in linked))
  }

  ghost predicate Filled(restored: Store, now: Store, vm: string, n: string, linked: bool) {
    && restored.Valid() && now.Valid() && restored.Has(RestoreFile(vm, n)) && now.Has(VmFile(vm, n))
    && if linked then now.names[VmFile(vm, n)] == restored.names[RestoreFile(vm, n)]
       else restored.next <= now.names[VmFile(vm, n)] && Private(now, VmFile(vm, n), VmFile(vm, n))
            && now.Read(VmFile(vm, n)) == restored.Read(RestoreFile(vm, n))
  }

  lemma FillAdds(restored: Store, now: Store, vm: string, src: Path, dst: Path)
    requires Adds(restored, now, vm) && now.Has(src) && !now.Has(dst) && OfVm(dst, vm)
    ensures Adds(restored, now.Copied(src, dst), vm) && Adds(restored, now.Linked(src, dst), vm)
  {
  }

  /** What is linked or copied from was there when the second phase began. */
  lemma FillSource(restored: Store, now: Store, vm: string, done: set<string>, linked: set<string>, n: string)
    requires Filling(restored, now, vm, done, linked)
    requires now.Has(RestoreFile(vm, n)) && !now.Has(VmFile(vm, n))
    ensures var r := RestoreFile(vm, n);
            restored.Has(r) && now.names[r] == restored.names[r] < restored.next <= now.next && now.Read(r) == restored.Read(r)
    ensures n !in done
  {
  }

  /** One more name on an old inode or on a new one leaves the others as they were. */
  lemma FilledStays(restored: Store, now: Store, vm: string, m: string, linked: bool, n: string)
    requires Filled(restored, now, vm, m, linked) && m != n
    requires now.Has(RestoreFile(vm, n)) && !now.Has(VmFile(vm, n)) && now.names[RestoreFile(vm, n)] < restored.next
    ensures Filled(restored, now.Linked(RestoreFile(vm, n), VmFile(vm, n)), vm, m, linked)
    ensures Filled(restored, now.Copied(RestoreFile(vm, n), VmFile(vm, n)), vm, m, linked)
  {
    assert forall p :: p in now.names ==> now.names[p] < now.next;
  }

  lemma FilledNow(restored: Store, now: Store, vm: string, n: string)
    requires restored.Valid() && now.Valid() && restored.next <= now.next
    requires now.Has(RestoreFile(vm, n)) && !now.Has(VmFile(vm, n)) && restored.Has(RestoreFile(vm, n))
    requires now.names[RestoreFile(vm, n)] == restored.names[RestoreFile(vm, n)]
    requires now.Read(RestoreFile(vm, n)) == restored.Read(RestoreFile(vm, n))
    ensures Filled(restored, now.Linked(RestoreFile(vm, n), VmFile(vm, n)), vm, n, true)
    ensures Filled(restored, now.Copied(RestoreFile(vm, n), VmFile(vm, n)), vm, n, false)
  {
    assert forall p :: p in now.names ==> now.names[p] < now.next;
  }

  lemma FillLinks(restored: Store, now: Store, vm: string, done: set<string>, linked: set<string>, n: string, after: Store)
    requires Filling(restored, now, vm, done, linked)
    requires now.Has(RestoreFile(vm, n)) && !now.Has(VmFile(vm, n)) && after == now.Linked(RestoreFile(vm, n), VmFile(vm, n))
    ensures Filling(restored, after, vm, done + {n}, linked + {n})
  {
    FillSource(restored, now, vm, done, linked, n);
    FillAdds(restored, now, vm, RestoreFile(vm, n), VmFile(vm, n));
    FilledNow(restored, now, vm, n);
    hide Adds, Filled;
    var more := linked + {n};
    forall m | m in done + {n}
      ensures Filled(restored, after, vm, m, m in more)
    {
      if m != n {
        FilledStays(restored, now, vm, m, m in linked, n);
      }
    }
  }

  lemma FillCopies(restored: Store, now: Store, vm: string, done: set<string>, linked: set<string>, n: string, after: Store)
    requires Filling(restored, now, vm, done, linked)
    requires now.Has(RestoreFile(vm, n)) && !now.Has(VmFile(vm, n)) && after == now.Copied(RestoreFile(vm, n), VmFile(vm, n))
    ensures Filling(restored, after, vm, done + {n}, linked - {n})
  {
    FillSource(restored, now, vm, done, linked, n);
    FillAdds(restored, now, vm, RestoreFile(vm, n), VmFile(vm, n));
    FilledNow(restored, now, vm, n);
    hide Adds, Filled;
    var fewer := linked - {n};
    forall m | m in done + {n}
      ensures Filled(restored, after, vm, m, m in fewer)
    {
      if m != n {
        FilledStays(restored, now, vm, m, m in linked, n);
      }
    }
  }

  /** Both phases together make what creation promises. */
  lemma PhasesCompose(before: Store, restored: Store, now: Store, snapshot: string, vm: string,
                      disks: seq<Disk>, done: set<string>, linked: set<string>)
    requires Restoring(before, restored, snapshot, vm, disks)
    requires Filling(restored, now, vm, done, linked)
    requires forall d :: d in disks ==> d.name in done
    requires forall p :: p in before.names ==> !OfVm(p, vm)
    ensures CreatedFrom(before, now, snapshot, vm, disks, linked)
  {
    FilledFromRestored(before, restored, now, snapshot, vm, disks, done, linked);
    forall d | d in disks
      ensures now.Has(VmFile(vm, d.name)) && now.Read(VmFile(vm, d.name)) == before.Read(SnapshotFile(snapshot, d.name))
      ensures !d.readOnly ==> DiskReady(before, now, snapshot, vm, d.name, d.name in linked)
    {
      var n := d.name;
      assert Filled(restored, now, vm, n, n in linked);
      assert now.names[RestoreFile(vm, n)] == restored.names[RestoreFile(vm, n)] < restored.next;
      if !d.readOnly {
        WritableStaysPrivate(restored, now, vm, done, linked, n);
      }
    }
  }

  lemma FilledFromRestored(before: Store, restored: Store, now: Store, snapshot: string, vm: string,
                           disks: seq<Disk>, done: set<string>, linked: set<string>)
    requires Restoring(before, restored, snapshot, vm, disks)
    requires Filling(restored, now, vm, done, linked)
    requires forall p :: p in before.names ==> !OfVm(p, vm)
    ensures Adds(before, now, vm) && Sourced(before, now)
  {
    AddsTwice(before, restored, now, vm);
    forall p | p in now.names && p !in before.names
      ensures before.next <= now.names[p] || OnSnapshotInode(before, now.names[p])
    {
      if p !in restored.names {
        assert p == VmFile(vm, p.name);
        assert Filled(restored, now, vm, p.name, p.name in linked);
        if p.name in linked {
          assert RestoreFile(vm, p.name) !in before.names;
        }
      }
    }
  }

  lemma RestoredStaysPrivate(restored: Store, now: Store, vm: string, done: set<string>, linked: set<string>, n: string)
    requires Filling(restored, now, vm, done, linked)
    requires restored.Has(RestoreFile(vm, n)) && Private(restored, RestoreFile(vm, n), RestoreFile(vm, n))
    ensures now.Has(RestoreFile(vm, n)) && Private(now, RestoreFile(vm, n), VmFile(vm, n))
  {
    var r := RestoreFile(vm, n);
    forall q | q in now.names && now.names[q] == now.names[r]
      ensures q == r || q == VmFile(vm, n)
    {
      if q !in restored.names {
        assert q == VmFile(vm, q.name);
        assert Filled(restored, now, vm, q.name, q.name in linked);
      }
    }
  }

  lemma WritableStaysPrivate(restored: Store, now: Store, vm: string, done: set<string>, linked: set<string>, n: string)
    requires Filling(restored, now, vm, done, linked) && n in done
    requires restored.Has(RestoreFile(vm, n)) && Private(restored, RestoreFile(vm, n), RestoreFile(vm, n))
    ensures Private(now, RestoreFile(vm, n), VmFile(vm, n)) && Private(now, VmFile(vm, n), RestoreFile(vm, n))
  {
    RestoredStaysPrivate(restored, now, vm, done, linked, n);
    assert Filled(restored, now, vm, n, n in linked);
  }

  lemma LessIsRestored(before: Store, restored: Store, snapshot: string, vm: string, disks: seq<Disk>)
    requires Restoring(before, restored, snapshot, vm, FIXED_FILES + disks)
    ensures Restoring(before, restored, snapshot, vm, FIXED_FILES) && Restoring(before, restored, snapshot, vm, disks)
  {
    hide Adds, Sourced, FIXED_FILES;
  }

  lemma BootFileReady(before: Store, restored: Store, now: Store, snapshot: string, vm: string, done: set<string>, linked: set<string>, n: string)
    requires Restoring(before, restored, snapshot, vm, FIXED_FILES)
    requires Filling(restored, now, vm, done, linked) && n in done && n in [KERNEL, INITRAMFS]
    ensures before.Valid() && now.Valid()
    ensures before.Has(SnapshotFile(snapshot, n)) && now.Has(VmFile(vm, n))
    ensures now.Read(VmFile(vm, n)) == before.Read(SnapshotFile(snapshot, n))
  {
    assert Disk(KERNEL, true) == FIXED_FILES[3] && Disk(INITRAMFS, true) == FIXED_FILES[4];
    assert Disk(n, true) in FIXED_FILES;
    hide FIXED_FILES;
    assert Filled(restored, now, vm, n, n in linked);
  }

  lemma FixedFileReady(before: Store, restored: Store, now: Store, snapshot: string, vm: string, done: set<string>, linked: set<string>, d: Disk)
    requires Restoring(before, restored, snapshot, vm, FIXED_FILES)
    requires Filling(restored, now, vm, done, linked) && d in FIXED_FILES
    ensures before.Valid() && now.Valid()
    ensures before.Has(SnapshotFile(snapshot, d.name)) && now.Has(RestoreFile(vm, d.name))
    ensures now.Read(RestoreFile(vm, d.name)) == before.Read(SnapshotFile(snapshot, d.name))
    ensures !d.readOnly ==> Private(now, RestoreFile(vm, d.name), VmFile(vm, d.name))
  {
    hide FIXED_FILES, Private, Filled;
    if !d.readOnly {
      RestoredStaysPrivate(restored, now, vm, done, linked, d.name);
    }
  }

  lemma FixedFilesReady(before: Store, restored: Store, now: Store, snapshot: string, vm: string, done: set<string>, linked: set<string>)
    requires Restoring(before, restored, snapshot, vm, FIXED_FILES)
    requires Filling(restored, now, vm, done, linked) && KERNEL in done && INITRAMFS in done
    ensures FixedReady(before, now, snapshot, vm)
  {
    hide FIXED_FILES, Restoring, Filling, KERNEL, INITRAMFS, Private;
    forall n | n in [KERNEL, INITRAMFS]
      ensures before.Has(SnapshotFile(snapshot, n)) && now.Has(VmFile(vm, n))
      ensures before.Valid() && now.Valid() && now.Read(VmFile(vm, n)) == before.Read(SnapshotFile(snapshot, n))
    {
      BootFileReady(before, restored, now, snapshot, vm, done, linked, n);
    }
    forall d | d in FIXED_FILES
      ensures before.Valid() && now.Valid()
      ensures before.Has(SnapshotFile(snapshot, d.name)) && now.Has(RestoreFile(vm, d.name))
      ensures now.Read(RestoreFile(vm, d.name)) == before.Read(SnapshotFile(snapshot, d.name))
      ensures !d.readOnly ==> Private(now, RestoreFile(vm, d.name), VmFile(vm, d.name))
    {
      FixedFileReady(before, restored, now, snapshot, vm, done, linked, d);
    }
    assert KERNEL in [KERNEL, INITRAMFS];
  }

  // ---- When it succeeds ----

  function NameSet(files: seq<Disk>): set<string> { set f | f in files :: f.name }

  /** There is room for every file under its own name, and something to put there. */
  ghost predicate Fillable(before: Store, snapshot: string, done: seq<Disk>, files: seq<Disk>) {
    forall i :: 0 <= i < |files| ==>
      before.Has(SnapshotFile(snapshot, files[i].name)) && files[i].name !in NameSet(done + files[..i])
  }

  /** The restore directory holds these files and no others. */
  ghost predicate Holds(s: Store, vm: string, files: seq<Disk>) {
    forall n :: s.Has(RestoreFile(vm, n)) <==> n in NameSet(files)
  }

  function FilesByName(disks: seq<Disk>): seq<string> {
    ["config.json", "memory-ranges", "state.json", "kernel", "initramfs"] + DiskNames(disks)
  }

  /** Nothing of the VM is there, the snapshot is complete, and its files have names of their own. */
  ghost predicate Creatable(s: Store, snapshot: string, vm: string, disks: seq<Disk>) {
    && (forall p :: p in s.names ==> !OfVm(p, vm))
    && (forall n :: n in FilesByName(disks) ==> s.Has(SnapshotFile(snapshot, n)))
    && (forall d :: d in disks ==> d.name != RESTORE_DIR_NAME)
    && (forall i, j :: 0 <= i < j < |FilesByName(disks)| ==> FilesByName(disks)[i] != FilesByName(disks)[j])
  }

  lemma HoldsOneMore(s: Store, vm: string, files: seq<Disk>, i: nat, now: Store, done: seq<Disk>)
    requires i < |files| && Holds(s, vm, done + files[..i]) && now.names.Keys == s.names.Keys + {RestoreFile(vm, files[i].name)}
    ensures Holds(now, vm, done + files[..i + 1])
  {
    var more := done + files[..i + 1];
    assert more == done + files[..i] + [files[i]];
    forall n ensures n in NameSet(more) <==> n in NameSet(done + files[..i]) || n == files[i].name {
      if n == files[i].name {
        assert files[i] in more;
      }
    }
  }

  /** Whether the next file has something to be made from and a place to go to. */
  lemma RoomForNext(before: Store, s: Store, snapshot: string, vm: string, done: seq<Disk>, files: seq<Disk>, i: nat)
    requires i < |files| && Adds(before, s, vm) && Holds(s, vm, done + files[..i]) && Fillable(before, snapshot, done, files[..i])
    ensures var free := s.Has(SnapshotFile(snapshot, files[i].name)) && !s.Has(RestoreFile(vm, files[i].name));
            (free <==> Fillable(before, snapshot, done, files[..i + 1])) && (Fillable(before, snapshot, done, files) ==> free)
  {
    hide NameSet;
    var more := files[..i + 1];
    assert more[i] == files[i] && forall j :: 0 <= j <= i ==> more[..j] == files[..j] && (j < i ==> more[j] == files[..i][j]);
    assert forall j :: 0 <= j < i ==> files[..i][..j] == files[..j];
  }

  lemma FillableInTwo(before: Store, snapshot: string, first: seq<Disk>, second: seq<Disk>)
    ensures Fillable(before, snapshot, [], first + second)
            <==> Fillable(before, snapshot, [], first) && Fillable(before, snapshot, first, second)
  {
    hide NameSet;
    var files := first + second;
    forall i | 0 <= i < |first| ensures files[i] == first[i] && [] + files[..i] == [] + first[..i] {
    }
    forall i | 0 <= i < |second| ensures files[|first| + i] == second[i] && [] + files[..|first| + i] == first + second[..i] {
    }
    if Fillable(before, snapshot, [], files) {
      forall i | 0 <= i < |second|
        ensures before.Has(SnapshotFile(snapshot, second[i].name)) && second[i].name !in NameSet(first + second[..i])
      {
        assert files[|first| + i].name !in NameSet([] + files[..|first| + i]);
      }
    }
    if Fillable(before, snapshot, [], first) && Fillable(before, snapshot, first, second) {
      forall i | 0 <= i < |files|
        ensures before.Has(SnapshotFile(snapshot, files[i].name)) && files[i].name !in NameSet([] + files[..i])
      {
        if |first| <= i {
          assert second[i - |first|].name !in NameSet(first + second[..i - |first|]);
        }
      }
    }
  }

  lemma DistinctNames(files: seq<Disk>, names: seq<string>)
    requires |files| == |names| && forall i :: 0 <= i < |files| ==> files[i].name == names[i]
    ensures (forall i :: 0 <= i < |files| ==> files[i].name !in NameSet([] + files[..i]))
            <==> forall i, j :: 0 <= i < j < |names| ==> names[i] != names[j]
  {
    if forall i :: 0 <= i < |files| ==> files[i].name !in NameSet([] + files[..i]) {
      forall i, j | 0 <= i < j < |names| ensures names[i] != names[j] {
        assert ([] + files[..j])[i] == files[i];
        NameAt([] + files[..j], i);
      }
    }
    if forall i, j :: 0 <= i < j < |names| ==> names[i] != names[j] {
      forall i | 0 <= i < |files| ensures files[i].name !in NameSet([] + files[..i]) {
        forall d | d in [] + files[..i] ensures d.name != files[i].name {
          var k :| 0 <= k < i && files[k] == d;
        }
      }
    }
  }

  lemma NameAt(files: seq<Disk>, i: nat)
    requires i < |files|
    ensures files[i].name in NameSet(files)
  {
    assert files[i] in files;
  }

  lemma FixedNames(disks: seq<Disk>)
    ensures var files := FIXED_FILES + disks;
            |files| == |FilesByName(disks)| && forall i :: 0 <= i < |files| ==> files[i].name == FilesByName(disks)[i]
    ensures forall n :: n in {KERNEL, INITRAMFS} ==> n in NameSet(FIXED_FILES)
  {
    var f := FIXED_FILES;
    assert f[3].name == KERNEL && f[4].name == INITRAMFS && f[3] in f && f[4] in f;
  }

  lemma CreatableIff(s: Store, snapshot: string, vm: string, disks: seq<Disk>)
    requires forall p :: p in s.names ==> !OfVm(p, vm)
    ensures Creatable(s, snapshot, vm, disks)
            <==> Fillable(s, snapshot, [], FIXED_FILES + disks) && forall d :: d in disks ==> d.name != RESTORE_DIR_NAME
  {
    var files, names := FIXED_FILES + disks, FilesByName(disks);
    FixedNames(disks);
    hide FIXED_FILES, FilesByName, RESTORE_DIR_NAME;
    assert Fillable(s, snapshot, [], files) <==>
             (forall i :: 0 <= i < |names| ==> s.Has(SnapshotFile(snapshot, names[i])))
             && forall i, j :: 0 <= i < j < |names| ==> names[i] != names[j] by {
      DistinctNames(files, names);
      hide NameSet;
    }
    assert forall i :: 0 <= i < |names| ==> names[i] in names;
  }

  /** Each file of the second phase is there to be linked, and nothing is in its place. */
  lemma LinkIsPossible(before: Store, restored: Store, now: Store, snapshot: string, vm: string, disks: seq<Disk>,
                       names: seq<string>, i: nat, done: set<string>, linked: set<string>)
    requires Fillable(before, snapshot, [], FIXED_FILES + disks) && Holds(restored, vm, FIXED_FILES + disks)
    requires Restoring(before, restored, snapshot, vm, FIXED_FILES + disks) && Filling(restored, now, vm, done, linked)
    requires names == [KERNEL, INITRAMFS] + DiskNames(disks) && i < |names|
    requires forall n :: n in done ==> exists j :: 0 <= j < i && names[j] == n
    ensures now.Has(RestoreFile(vm, names[i])) && !now.Has(VmFile(vm, names[i]))
    ensures IsRestoreDir(VmFile(vm, names[i])) ==> exists d :: d in disks && d.name == RESTORE_DIR_NAME
  {
    FixedFour();
    NamesOfSecondPhase(disks, names);
    hide FIXED_FILES, NameSet, Sourced, Filled, RESTORE_DIR_NAME;
    var files := FIXED_FILES + disks;
    NamesDiffer(before, snapshot, files, names, i);
    NameAt(files, i + 3);
    assert restored.Has(RestoreFile(vm, names[i]));
    hide Fillable, Holds;
  }

  lemma NamesOfSecondPhase(disks: seq<Disk>, names: seq<string>)
    requires names == [KERNEL, INITRAMFS] + DiskNames(disks)
    ensures var files := FIXED_FILES + disks;
            |files| == |names| + 3 && forall i :: 0 <= i < |names| ==> files[i + 3].name == names[i]
    ensures forall i :: 0 <= i < |names| && names[i] == RESTORE_DIR_NAME ==> exists d :: d in disks && d.name == RESTORE_DIR_NAME
  {
    FixedFour();
    forall i | 0 <= i < |names| && names[i] == RESTORE_DIR_NAME
      ensures exists d :: d in disks && d.name == RESTORE_DIR_NAME
    {
      assert 2 <= i && disks[i - 2].name == names[i] && disks[i - 2] in disks;
    }
  }

  lemma NamesDiffer(before: Store, snapshot: string, files: seq<Disk>, names: seq<string>, i: nat)
    requires Fillable(before, snapshot, [], files) && |files| == |names| + 3 && i < |names|
    requires forall k :: 0 <= k < |names| ==> files[k + 3].name == names[k]
    ensures forall j :: 0 <= j < i ==> names[j] != names[i]
  {
    forall j | 0 <= j < i ensures names[j] != names[i] {
      assert ([] + files[..i + 3])[j + 3] == files[j + 3];
      NameAt([] + files[..i + 3], j + 3);
      hide NameSet;
      assert files[i + 3].name !in NameSet([] + files[..i + 3]);
    }
  }

  lemma OnlyNewIsCreatable(s: Store, snapshot: string, vm: string, disks: seq<Disk>)
    ensures Creatable(s, snapshot, vm, disks) ==> forall p :: p in s.names ==> !OfVm(p, vm)
  {
  }

  lemma FixedFour()
    ensures |FIXED_FILES| == 5 && FIXED_FILES[3].name == KERNEL && FIXED_FILES[4].name == INITRAMFS
    ensures KERNEL == "kernel" && INITRAMFS == "initramfs" && KERNEL != RESTORE_DIR_NAME && INITRAMFS != RESTORE_DIR_NAME
  {
    assert |RESTORE_DIR_NAME| == 25 && |KERNEL| == 6 && |INITRAMFS| == 9;
  }

  class FileSystem {
    var s: Store
    /** Whether every call succeeds that can, and whether there are hard links at all. */
    const reliable: bool
    const links: bool

    constructor (reliable: bool, links: bool)
      ensures s == Store(map[], map[], 0) && this.reliable == reliable && this.links == links
    {
      s, this.reliable, this.links := Store(map[], map[], 0), reliable, links;
    }

    method Link(src: Path, dst: Path) returns (ok: bool)
      requires s.Valid()
      modifies this
      ensures ok ==> old(s).Has(src) && !old(s).Has(dst) && !IsRestoreDir(dst) && s == old(s).Linked(src, dst)
      ensures !ok ==> s == old(s)
      ensures ok ==> links
      ensures reliable && links && old(s).Has(src) && !old(s).Has(dst) && !IsRestoreDir(dst) ==> ok
    {
      ok := *;
      ok := (ok || reliable) && links && src in s.names && dst !in s.names && !IsRestoreDir(dst);
      if ok {
        s := s.Linked(src, dst);
      }
    }

    /** A failed copy removes what it had created. */
    method Copy(src: Path, dst: Path) returns (ok: bool)
      requires s.Valid()
      modifies this
      ensures ok ==> old(s).Has(src) && !old(s).Has(dst) && !IsRestoreDir(dst) && s == old(s).Copied(src, dst)
      ensures !ok ==> s == old(s)
      ensures reliable && old(s).Has(src) && !old(s).Has(dst) && !IsRestoreDir(dst) ==> ok
    {
      ok := *;
      ok := (ok || reliable) && src in s.names && dst !in s.names && !IsRestoreDir(dst);
      if ok {
        s := s.Copied(src, dst);
      }
    }

    /** Whatever made the link fail, the copy is tried; it reports the errors that matter. */
    method LinkOrCopy(src: Path, dst: Path) returns (ok: bool, ghost linked: bool)
      requires s.Valid()
      modifies this
      ensures ok ==> old(s).Has(src) && !old(s).Has(dst) && !IsRestoreDir(dst)
      ensures ok ==> s == if linked then old(s).Linked(src, dst) else old(s).Copied(src, dst)
      ensures !ok ==> s == old(s)
      ensures reliable && old(s).Has(src) && !old(s).Has(dst) && !IsRestoreDir(dst) ==> ok && (links ==> linked)
    {
      ok := Link(src, dst);
      linked := ok;
      if ok {
        return;
      }
      ok := Copy(src, dst);
    }

    method RemoveVm(vm: string)
      requires s.Valid()
      modifies this
      ensures s == old(s).Removed(set p | p in old(s).names && OfVm(p, vm))
    {
      s := s.Removed(set p | p in s.names && OfVm(p, vm));
    }

    /** Files of the snapshot's restore data, then its disks. */
    method FillRestoreDir(snapshot: string, vm: string, disks: seq<Disk>) returns (ok: bool)
      requires s.Valid() && forall p :: p in s.names ==> !OfVm(p, vm)
      modifies this
      ensures s.Valid() && Adds(old(s), s, vm)
      ensures ok ==> Restoring(old(s), s, snapshot, vm, FIXED_FILES + disks) && Holds(s, vm, FIXED_FILES + disks)
      ensures ok ==> Fillable(old(s), snapshot, [], FIXED_FILES + disks)
      ensures reliable ==> (ok <==> Fillable(old(s), snapshot, [], FIXED_FILES + disks))
    {
      hide Adds, FIXED_FILES;
      AddsNothing(s, vm);
      assert Sourced(s, s);
      assert Restoring(s, s, snapshot, vm, []);
      FillableInTwo(s, snapshot, FIXED_FILES, disks);
      ok := FillWith(snapshot, vm, FIXED_FILES, s, []);
      assert [] + FIXED_FILES == FIXED_FILES;
      if ok {
        ok := FillWith(snapshot, vm, disks, old(s), FIXED_FILES);
      }
    }

    /** One file after the other, on top of those that are `done`. */
    method FillWith(snapshot: string, vm: string, files: seq<Disk>, ghost before: Store, ghost done: seq<Disk>) returns (ok: bool)
      requires s.Valid() && Restoring(before, s, snapshot, vm, done) && Holds(s, vm, done)
      modifies this
      ensures s.Valid() && Adds(before, s, vm)
      ensures ok ==> Restoring(before, s, snapshot, vm, done + files) && Holds(s, vm, done + files)
      ensures ok ==> Fillable(before, snapshot, done, files)
      ensures reliable ==> (ok <==> Fillable(before, snapshot, done, files))
    {
      hide Adds, Holds, NameSet;
      assert done + files[..0] == done;
      for i := 0 to |files|
        invariant s.Valid() && Restoring(before, s, snapshot, vm, done + files[..i]) && Holds(s, vm, done + files[..i])
        invariant Fillable(before, snapshot, done, files[..i])
      {
        var name := files[i].name;
        ghost var now := s;
        RoomForNext(before, s, snapshot, vm, done, files, i);
        ghost var linked := false;
        if files[i].readOnly {
          ok, linked := LinkOrCopy(SnapshotFile(snapshot, name), RestoreFile(vm, name));
        } else {
          ok := Copy(SnapshotFile(snapshot, name), RestoreFile(vm, name));
        }
        if !ok {
          return;
        }
        assert done + files[..i + 1] == done + files[..i] + [files[i]];
        HoldsOneMore(now, vm, files, i, s, done);
        if linked {
          assert files[i] == Disk(name, true);
          RestoreLinks(before, now, snapshot, vm, done + files[..i], name);
        } else {
          assert files[i] == Disk(name, files[i].readOnly);
          RestoreCopies(before, now, snapshot, vm, done + files[..i], name);
        }
      }
      assert files[..|files|] == files;
      ok := true;
    }

    /** Creates a VM from a snapshot. When any step fails the VM directory is removed again and the
        file system has the paths and contents it had before. It succeeds only if the snapshot is
        complete, the VM new and every file has a name of its own; where no call fails it does so exactly
        then, and everything that may be linked is, if there are hard links. */
    method CreateFromSnapshot(snapshot: string, vm: string, disks: seq<Disk>) returns (ok: bool, ghost linked: set<string>)
      requires s.Valid()
      modifies this
      ensures s.Valid()
      ensures ok ==> CreatedFrom(old(s), s, snapshot, vm, disks, linked) && Restorable(old(s), s, snapshot, vm)
      ensures ok ==> Creatable(old(s), snapshot, vm, disks)
      ensures reliable ==> (ok <==> Creatable(old(s), snapshot, vm, disks))
      ensures reliable && links && ok ==> "kernel" in linked && "initramfs" in linked && forall d :: d in disks ==> d.name in linked
      ensures !ok ==> s.names == old(s).names && forall p :: p in s.names ==> s.Read(p) == old(s).Read(p)
    {
      hide Adds, Restoring, Filling, CreatedFrom, FixedReady, Restorable, FIXED_FILES, Creatable, Fillable, Holds, NameSet;
      linked := {};
      OnlyNewIsCreatable(s, snapshot, vm, disks);
      if exists p :: p in s.names && OfVm(p, vm) {
        return false, {};
      }
      ghost var before := s;
      CreatableIff(before, snapshot, vm, disks);
      ok := FillRestoreDir(snapshot, vm, disks);
      if !ok {
        RemovingUndoes(before, s, vm);
        RemoveVm(vm);
        return;
      }
      ghost var restored := s;
      var names := [KERNEL, INITRAMFS] + DiskNames(disks);
      ghost var done := {};
      FillNothing(s, vm);
      for i := 0 to |names|
        invariant s.Valid() && Filling(restored, s, vm, done, linked)
        invariant forall j :: 0 <= j < i ==> names[j] in done && names[j] != RESTORE_DIR_NAME
        invariant forall n :: n in done ==> exists j :: 0 <= j < i && names[j] == n
        invariant reliable && links ==> done <= linked
      {
        ghost var now := s;
        LinkIsPossible(before, restored, s, snapshot, vm, disks, names, i, done, linked);
        var good, one := LinkOrCopy(RestoreFile(vm, names[i]), VmFile(vm, names[i]));
        if !good {
          FillingAdds(before, restored, s, vm, done, linked);
          RemovingUndoes(before, s, vm);
          RemoveVm(vm);
          return false, {};
        }
        if one {
          FillLinks(restored, now, vm, done, linked, names[i], s);
          linked := linked + {names[i]};
        } else {
          FillCopies(restored, now, vm, done, linked, names[i], s);
          linked := linked - {names[i]};
        }
        done := done + {names[i]};
      }
      forall d | d in disks
        ensures d.name in done && d.name != RESTORE_DIR_NAME
      {
        var i :| 0 <= i < |disks| && disks[i] == d;
        assert names[i + 2] == d.name;
      }
      assert KERNEL == names[0] && INITRAMFS == names[1];
      FixedFour();
      LessIsRestored(before, restored, snapshot, vm, disks);
      PhasesCompose(before, restored, s, snapshot, vm, disks, done, linked);
      FixedFilesReady(before, restored, s, snapshot, vm, done, linked);
      FixedReadyByName(before, s, snapshot, vm);
    }
  }

  lemma FillNothing(s: Store, vm: string)
    requires s.Valid()
    ensures Filling(s, s, vm, {}, {})
  {
  }

  lemma FillingAdds(before: Store, restored: Store, now: Store, vm: string, done: set<string>, linked: set<string>)
    requires Adds(before, restored, vm) && Filling(restored, now, vm, done, linked)
    ensures Adds(before, now, vm)
  {
    AddsTwice(before, restored, now, vm);
  }

  lemma AddsNothing(s: Store, vm: string)
    requires s.Valid()
    ensures Adds(s, s, vm)
  {
  }

  lemma AddsTwice(a: Store, b: Store, c: Store, vm: string)
    requires Adds(a, b, vm) && Adds(b, c, vm)
    ensures Adds(a, c, vm)
  {
  }

  lemma RemovingUndoes(before: Store, now: Store, vm: string)
    requires Adds(before, now, vm) && forall p :: p in before.names ==> !OfVm(p, vm)
    ensures var after := now.Removed(set p | p in now.names && OfVm(p, vm));
            after.names == before.names && forall p :: p in before.names ==> after.Read(p) == before.Read(p)
  {
  }

  // ---- A host with VMs and snapshots ----

  datatype Vm = Vm(restored: bool, disks: seq<Disk>)

  datatype Host = Host(store: Store, vms: map<string, Vm>, snapshots: map<string, seq<Disk>>)

  /** The file the hypervisor runs a disk from: a restored VM runs from its restore directory. */
  function Live(vm: string, info: Vm, name: string): Path {
    if info.restored then RestoreFile(vm, name) else VmFile(vm, name)
  }

  ghost predicate VmInv(s: Store, vm: string, info: Vm) {
    && s.Valid()
    && (forall d :: d in info.disks ==> s.Has(Live(vm, info, d.name)) && s.Has(VmFile(vm, d.name)))
    && (forall n :: n in Writable(info.disks) ==>
          && Private(s, Live(vm, info, n), VmFile(vm, n))
          && Private(s, VmFile(vm, n), Live(vm, info, n)))
  }

  ghost predicate Inv(h: Host) {
    && h.store.Valid()
    && (forall v :: v in h.vms ==> VmInv(h.store, v, h.vms[v]))
    && (forall s, d :: s in h.snapshots && d in h.snapshots[s] ==> h.store.Has(SnapshotFile(s, d.name)))
  }

  /** What can happen on a host; failed operations leave no trace (see `CreateFromSnapshot`). */
  datatype Op =
    | CreateFromImage(vm: string, disks: seq<Disk>, contents: map<string, Content>)
    | CreateFromSnapshot(vm: string, snapshot: string, linked: set<string>)
    | GuestWrite(vm: string, name: string, c: Content)
    | TakeSnapshot(vm: string, snapshot: string)
    | DeleteSnapshot(snapshot: string)
    | DeleteVm(vm: string)

  /** New paths are copies: each has an inode of its own. */
  ghost predicate AddsCopies(before: Store, after: Store, added: set<Path>) {
    && before.Valid() && after.Valid()
    && after.names.Keys == before.names.Keys + added && before.names.Keys !! added
    && (forall p :: p in before.names ==> after.names[p] == before.names[p])
    && (forall i :: i in before.inodes ==> i in after.inodes && after.inodes[i] == before.inodes[i])
    && (forall p :: p in added ==> before.next <= after.names[p] && Private(after, p, p))
  }

  function VmFiles(vm: string, disks: seq<Disk>): set<Path> { set d | d in disks :: VmFile(vm, d.name) }

  function SnapshotFiles(snapshot: string, disks: seq<Disk>): set<Path> { set d | d in disks :: SnapshotFile(snapshot, d.name) }

  ghost predicate Step(h: Host, op: Op, h': Host)
    requires Inv(h)
  {
    match op
    case CreateFromImage(vm, disks, contents) =>
      && vm !in h.vms
      && AddsCopies(h.store, h'.store, VmFiles(vm, disks))
      && (forall d :: d in disks ==>
            d.name in contents && h'.store.Has(VmFile(vm, d.name)) && h'.store.Read(VmFile(vm, d.name)) == contents[d.name])
      && h' == Host(h'.store, h.vms[vm := Vm(false, disks)], h.snapshots)
    case CreateFromSnapshot(vm, snapshot, linked) =>
      && vm !in h.vms && snapshot in h.snapshots
      && CreatedFrom(h.store, h'.store, snapshot, vm, h.snapshots[snapshot], linked)
      && h' == Host(h'.store, h.vms[vm := Vm(true, h.snapshots[snapshot])], h.snapshots)
    case GuestWrite(vm, name, c) =>
      && vm in h.vms && name in Writable(h.vms[vm].disks)
      && h' == h.(store := h.store.Written(Live(vm, h.vms[vm], name), c))
    case TakeSnapshot(vm, snapshot) =>
      && vm in h.vms && snapshot !in h.snapshots
      && AddsCopies(h.store, h'.store, SnapshotFiles(snapshot, h.vms[vm].disks))
      && (forall d :: d in h.vms[vm].disks ==> h'.store.Read(SnapshotFile(snapshot, d.name)) == h.store.Read(VmFile(vm, d.name)))
      && h' == Host(h'.store, h.vms, h.snapshots[snapshot := h.vms[vm].disks])
    case DeleteSnapshot(snapshot) =>
      h' == Host(h.store.Removed(set p | p in h.store.names && p.SnapshotFile? && p.snapshot == snapshot),
                 h.vms, h.snapshots - {snapshot})
    case DeleteVm(vm) =>
      h' == Host(h.store.Removed(set p | p in h.store.names && OfVm(p, vm)), h.vms - {vm}, h.snapshots)
  }

  /** Adding paths on new inodes keeps every VM's disks as private as they were. */
  lemma AddingKeepsVm(before: Store, after: Store, vm: string, info: Vm)
    requires VmInv(before, vm, info) && after.Valid()
    requires forall p :: p in before.names ==> p in after.names && after.names[p] == before.names[p]
    requires forall p, n :: p in after.names && p !in before.names && n in Writable(info.disks) ==>
               after.names[p] != before.names[Live(vm, info, n)] && after.names[p] != before.names[VmFile(vm, n)]
    ensures VmInv(after, vm, info)
  {
  }

  lemma CopiesKeepVm(before: Store, after: Store, added: set<Path>, vm: string, info: Vm)
    requires VmInv(before, vm, info) && AddsCopies(before, after, added)
    ensures VmInv(after, vm, info)
  {
    forall p, n | p in after.names && p !in before.names && n in Writable(info.disks)
      ensures after.names[p] != before.names[Live(vm, info, n)] && after.names[p] != before.names[VmFile(vm, n)]
    {
      assert p in added;
      assert before.names[Live(vm, info, n)] < before.next;
    }
    AddingKeepsVm(before, after, vm, info);
  }

  /** Creating a VM from a snapshot never links to another VM's writable disk: it only links to
      snapshot files, and those share no inode with a writable disk. */
  lemma CreationKeepsVm(before: Store, after: Store, snapshot: string, created: string,
                        disks: seq<Disk>, linked: set<string>, vm: string, info: Vm)
    requires VmInv(before, vm, info)
    requires CreatedFrom(before, after, snapshot, created, disks, linked)
    ensures VmInv(after, vm, info)
  {
    forall p, n | p in after.names && p !in before.names && n in Writable(info.disks)
      ensures after.names[p] != before.names[Live(vm, info, n)] && after.names[p] != before.names[VmFile(vm, n)]
    {
      assert before.names[Live(vm, info, n)] < before.next && before.names[VmFile(vm, n)] < before.next;
      if after.names[p] < before.next {
        assert OnSnapshotInode(before, after.names[p]);
      }
    }
    AddingKeepsVm(before, after, vm, info);
  }

  lemma CreatedVmInv(before: Store, after: Store, snapshot: string, vm: string, disks: seq<Disk>, linked: set<string>)
    requires CreatedFrom(before, after, snapshot, vm, disks, linked)
    ensures VmInv(after, vm, Vm(true, disks))
  {
  }

  lemma ImageVmInv(before: Store, after: Store, vm: string, disks: seq<Disk>)
    requires AddsCopies(before, after, VmFiles(vm, disks))
    ensures VmInv(after, vm, Vm(false, disks))
  {
    forall d | d in disks
      ensures VmFile(vm, d.name) in VmFiles(vm, disks)
    {
    }
  }

  /** Every operation keeps writable disks private to their VM. */
  lemma StepKeepsInv(h: Host, op: Op, h': Host)
    requires Inv(h) && Step(h, op, h')
    ensures Inv(h')
  {
    hide VmInv, CreatedFrom, AddsCopies;
    match op
    case CreateFromImage(vm, disks, _) =>
      ImageVmInv(h.store, h'.store, vm, disks);
      forall v | v in h.vms ensures VmInv(h'.store, v, h.vms[v]) {
        CopiesKeepVm(h.store, h'.store, VmFiles(vm, disks), v, h.vms[v]);
      }
      CopiesKeepSnapshots(h, h'.store, VmFiles(vm, disks));
    case CreateFromSnapshot(vm, snapshot, linked) =>
      CreatedVmInv(h.store, h'.store, snapshot, vm, h.snapshots[snapshot], linked);
      forall v | v in h.vms ensures VmInv(h'.store, v, h.vms[v]) {
        CreationKeepsVm(h.store, h'.store, snapshot, vm, h.snapshots[snapshot], linked, v, h.vms[v]);
      }
      CreationKeepsSnapshots(h, h'.store, vm, snapshot, linked);
    case GuestWrite(vm, name, c) =>
      WritableIsThere(h.store, vm, h.vms[vm], name);
      forall v | v in h.vms ensures VmInv(h'.store, v, h.vms[v]) {
        WriteKeepsVm(h.store, Live(vm, h.vms[vm], name), c, v, h.vms[v]);
      }
    case TakeSnapshot(vm, snapshot) =>
      forall v | v in h.vms ensures VmInv(h'.store, v, h.vms[v]) {
        CopiesKeepVm(h.store, h'.store, SnapshotFiles(snapshot, h.vms[vm].disks), v, h.vms[v]);
      }
      CopiesKeepSnapshots(h, h'.store, SnapshotFiles(snapshot, h.vms[vm].disks));
      NewSnapshotFiles(h.store, h'.store, snapshot, h.vms[vm].disks);
    case DeleteSnapshot(snapshot) =>
      forall v | v in h'.vms ensures VmInv(h'.store, v, h.vms[v]) {
        RemovalKeepsVm(h.store, (set p | p in h.store.names && p.SnapshotFile? && p.snapshot == snapshot), v, h.vms[v]);
      }
    case DeleteVm(vm) =>
      forall v | v in h'.vms ensures VmInv(h'.store, v, h.vms[v]) {
        RemovalKeepsVm(h.store, (set p | p in h.store.names && OfVm(p, vm)), v, h.vms[v]);
      }
  }

  lemma CopiesKeepSnapshots(h: Host, after: Store, added: set<Path>)
    requires Inv(h) && AddsCopies(h.store, after, added)
    ensures after.Valid()
    ensures forall s, d :: s in h.snapshots && d in h.snapshots[s] ==> after.Has(SnapshotFile(s, d.name))
  {
  }

  lemma CreationKeepsSnapshots(h: Host, after: Store, vm: string, snapshot: string, linked: set<string>)
    requires Inv(h) && snapshot in h.snapshots
    requires CreatedFrom(h.store, after, snapshot, vm, h.snapshots[snapshot], linked)
    ensures after.Valid()
    ensures forall s, d :: s in h.snapshots && d in h.snapshots[s] ==> after.Has(SnapshotFile(s, d.name))
  {
  }

  lemma NewSnapshotFiles(before: Store, after: Store, snapshot: string, disks: seq<Disk>)
    requires AddsCopies(before, after, SnapshotFiles(snapshot, disks))
    ensures forall d :: d in disks ==> after.Has(SnapshotFile(snapshot, d.name))
  {
    forall d | d in disks
      ensures SnapshotFile(snapshot, d.name) in SnapshotFiles(snapshot, disks)
    {
    }
  }

  lemma WritableIsThere(s: Store, vm: string, info: Vm, name: string)
    requires VmInv(s, vm, info) && name in Writable(info.disks)
    ensures s.Has(Live(vm, info, name))
  {
  }

  lemma WriteKeepsVm(s: Store, p: Path, c: Content, vm: string, info: Vm)
    requires VmInv(s, vm, info) && s.Has(p)
    ensures VmInv(s.Written(p, c), vm, info)
  {
  }

  lemma RemovalKeepsVm(s: Store, gone: set<Path>, vm: string, info: Vm)
    requires VmInv(s, vm, info)
    requires forall p :: p in gone ==> !OfVm(p, vm)
    ensures VmInv(s.Removed(gone), vm, info)
  {
  }

  // ---- What can be seen: refinement of plain copying ----

  /** A VM's disks as its guest sees them. */
  ghost function VmView(h: Host, vm: string): map<string, Content>
    requires Inv(h) && vm in h.vms
  {
    map n | n in DiskNames(h.vms[vm].disks) :: LiveContent(h, vm, n)
  }

  ghost function LiveContent(h: Host, vm: string, name: string): Content
    requires Inv(h) && vm in h.vms && name in DiskNames(h.vms[vm].disks)
  {
    NamedDisk(h.vms[vm].disks, name);
    h.store.Read(Live(vm, h.vms[vm], name))
  }

  ghost function SnapshotView(h: Host, snapshot: string): map<string, Content>
    requires Inv(h) && snapshot in h.snapshots
  {
    map n | n in DiskNames(h.snapshots[snapshot]) :: SavedContent(h, snapshot, n)
  }

  ghost function SavedContent(h: Host, snapshot: string, name: string): Content
    requires Inv(h) && snapshot in h.snapshots && name in DiskNames(h.snapshots[snapshot])
  {
    NamedDisk(h.snapshots[snapshot], name);
    h.store.Read(SnapshotFile(snapshot, name))
  }

  lemma NamedDisk(disks: seq<Disk>, name: string)
    requires name in DiskNames(disks)
    ensures exists d :: d in disks && d.name == name
  {
    var i :| 0 <= i < |disks| && DiskNames(disks)[i] == name;
    assert disks[i] in disks;
  }

  lemma WritableIsNamed(disks: seq<Disk>, name: string)
    requires name in Writable(disks)
    ensures name in DiskNames(disks)
  {
    var d :| d in disks && !d.readOnly && d.name == name;
    var i :| 0 <= i < |disks| && disks[i] == d;
    assert DiskNames(disks)[i] == name;
  }

  /** A guest's write reaches its own disk and nothing else: no other disk of any VM, no snapshot. */
  lemma WriteIsIsolated(h: Host, vm: string, name: string, c: Content, h': Host)
    requires Inv(h) && Step(h, GuestWrite(vm, name, c), h')
    ensures Inv(h') && name in DiskNames(h.vms[vm].disks)
    ensures VmView(h', vm) == VmView(h, vm)[name := c]
    ensures forall v :: v in h.vms && v != vm ==> VmView(h', v) == VmView(h, v)
    ensures forall s :: s in h.snapshots ==> SnapshotView(h', s) == SnapshotView(h, s)
  {
    StepKeepsInv(h, GuestWrite(vm, name, c), h');
    WritableIsNamed(h.vms[vm].disks, name);
    var p := Live(vm, h.vms[vm], name);
    assert VmInv(h.store, vm, h.vms[vm]);
    forall v, n | v in h.vms && n in DiskNames(h.vms[v].disks) && (v != vm || n != name)
      ensures LiveContent(h', v, n) == LiveContent(h, v, n)
    {
      NamedDisk(h.vms[v].disks, n);
      assert VmInv(h.store, v, h.vms[v]);
      assert h.store.names[Live(v, h.vms[v], n)] != h.store.names[p];
    }
    forall s, n | s in h.snapshots && n in DiskNames(h.snapshots[s])
      ensures SavedContent(h', s, n) == SavedContent(h, s, n)
    {
      NamedDisk(h.snapshots[s], n);
      assert h.store.names[SnapshotFile(s, n)] != h.store.names[p];
    }
  }

  /** A VM created from a snapshot starts from the snapshot's disks, whatever was linked and whatever
      was copied, and no other VM and no snapshot changes. */
  lemma CreationStartsFromSnapshot(h: Host, vm: string, snapshot: string, linked: set<string>, h': Host)
    requires Inv(h) && Step(h, CreateFromSnapshot(vm, snapshot, linked), h')
    ensures Inv(h') && VmView(h', vm) == SnapshotView(h, snapshot)
    ensures forall v :: v in h.vms ==> VmView(h', v) == VmView(h, v)
    ensures forall s :: s in h.snapshots ==> SnapshotView(h', s) == SnapshotView(h, s)
  {
    StepKeepsInv(h, CreateFromSnapshot(vm, snapshot, linked), h');
    UntouchedViews(h, h');
    forall n | n in DiskNames(h.snapshots[snapshot])
      ensures LiveContent(h', vm, n) == SavedContent(h, snapshot, n)
    {
      NamedDisk(h.snapshots[snapshot], n);
    }
  }

  /** Paths that keep their inodes, and inodes that keep their contents, keep every view. */
  lemma UntouchedViews(h: Host, h': Host)
    requires Inv(h) && Inv(h')
    requires forall p :: p in h.store.names ==> p in h'.store.names && h'.store.names[p] == h.store.names[p]
    requires forall i :: i in h.store.inodes ==> i in h'.store.inodes && h'.store.inodes[i] == h.store.inodes[i]
    ensures forall v :: v in h.vms && v in h'.vms && h'.vms[v] == h.vms[v] ==> VmView(h', v) == VmView(h, v)
    ensures forall s :: s in h.snapshots && s in h'.snapshots && h'.snapshots[s] == h.snapshots[s] ==>
              SnapshotView(h', s) == SnapshotView(h, s)
  {
    forall v, n | v in h.vms && v in h'.vms && h'.vms[v] == h.vms[v] && n in DiskNames(h.vms[v].disks)
      ensures LiveContent(h', v, n) == LiveContent(h, v, n)
    {
      NamedDisk(h.vms[v].disks, n);
      assert VmInv(h.store, v, h.vms[v]);
    }
    forall s, n | s in h.snapshots && s in h'.snapshots && h'.snapshots[s] == h.snapshots[s] && n in DiskNames(h.snapshots[s])
      ensures SavedContent(h', s, n) == SavedContent(h, s, n)
    {
      NamedDisk(h.snapshots[s], n);
    }
  }

  /** Deleting a snapshot takes nothing away from the VMs that were created from it. */
  lemma DeletionIsIsolated(h: Host, op: Op, h': Host)
    requires Inv(h) && (op.DeleteSnapshot? || op.DeleteVm?) && Step(h, op, h')
    ensures Inv(h')
    ensures forall v :: v in h'.vms ==> v in h.vms && VmView(h', v) == VmView(h, v)
    ensures forall s :: s in h'.snapshots ==> s in h.snapshots && SnapshotView(h', s) == SnapshotView(h, s)
  {
    StepKeepsInv(h, op, h');
    forall v, n | v in h'.vms && n in DiskNames(h.vms[v].disks)
      ensures LiveContent(h', v, n) == LiveContent(h, v, n)
    {
      NamedDisk(h.vms[v].disks, n);
    }
    forall s, n | s in h'.snapshots && n in DiskNames(h.snapshots[s])
      ensures SavedContent(h', s, n) == SavedContent(h, s, n)
    {
      NamedDisk(h.snapshots[s], n);
    }
  }

  lemma ImageIsAdded(h: Host, vm: string, disks: seq<Disk>, contents: map<string, Content>, h': Host)
    requires Inv(h) && Step(h, CreateFromImage(vm, disks, contents), h')
    ensures Inv(h') && VmView(h', vm) == ImageView(disks, contents)
    ensures forall v :: v in h.vms ==> VmView(h', v) == VmView(h, v)
    ensures forall s :: s in h.snapshots ==> SnapshotView(h', s) == SnapshotView(h, s)
  {
    StepKeepsInv(h, CreateFromImage(vm, disks, contents), h');
    UntouchedViews(h, h');
    forall n | n in DiskNames(disks)
      ensures n in contents && LiveContent(h', vm, n) == contents[n]
    {
      NamedDisk(disks, n);
    }
  }

  // ---- Taking a snapshot of a restored VM ----

  /** The two paths of a VM's disk are one file. */
  ghost predicate OneInode(h: Host, vm: string, name: string)
    requires Inv(h) && vm in h.vms && name in Writable(h.vms[vm].disks)
  {
    WritableIsNamed(h.vms[vm].disks, name);
    NamedDisk(h.vms[vm].disks, name);
    h.store.names[VmFile(vm, name)] == h.store.names[Live(vm, h.vms[vm], name)]
  }

  /** A snapshot is taken from the VM directory. It captures the disk as the guest sees it after
      every possible write exactly when that file and the live one share an inode: always for a VM
      made from an image, and for a restored VM when the link succeeded. */
  lemma SnapshotCapturesIff(h: Host, vm: string, name: string)
    requires Inv(h) && vm in h.vms && name in Writable(h.vms[vm].disks)
    ensures (forall c, h' :: Step(h, GuestWrite(vm, name, c), h') ==>
               h'.store.Has(VmFile(vm, name)) && h'.store.Valid() && h'.store.Read(VmFile(vm, name)) == c)
            <==> OneInode(h, vm, name)
  {
    WritableIsNamed(h.vms[vm].disks, name);
    NamedDisk(h.vms[vm].disks, name);
    assert VmInv(h.store, vm, h.vms[vm]);
    if !OneInode(h, vm, name) {
      var c := h.store.Read(VmFile(vm, name)) + [0];
      var h' := h.(store := h.store.Written(Live(vm, h.vms[vm], name), c));
      assert Step(h, GuestWrite(vm, name, c), h');
      assert h'.store.Read(VmFile(vm, name)) == h.store.Read(VmFile(vm, name)) != c;
    }
  }

  /** The store of a snapshot with one disk; then a VM made from it, nothing linked, whose disk is `live`;
      then a snapshot `taken` of that VM. */
  function OneSnapshot(from: Path, c: Content): Store { Store(map[from := 0], map[0 := c], 1) }

  function OneVm(from: Path, vm: string, name: string, c: Content, live: Content): Store {
    Store(map[from := 0, RestoreFile(vm, name) := 1, VmFile(vm, name) := 2], map[0 := c, 1 := live, 2 := c], 3)
  }

  function Retaken(from: Path, vm: string, name: string, c: Content, live: Content, taken: Path): Store {
    var s := OneVm(from, vm, name, c, live);
    Store(s.names[taken := 3], s.inodes[3 := c], 4)
  }

  lemma SingleDisk(name: string)
    ensures Writable([Disk(name, false)]) == {name} && name in DiskNames([Disk(name, false)])
  {
    assert [Disk(name, false)][0] == Disk(name, false);
    assert DiskNames([Disk(name, false)])[0] == name;
  }

  lemma OneVmIsCreated(snapshot: string, vm: string, name: string, c: Content)
    ensures var from := SnapshotFile(snapshot, name);
            CreatedFrom(OneSnapshot(from, c), OneVm(from, vm, name, c, c), snapshot, vm, [Disk(name, false)], {})
  {
    SingleDisk(name);
    var from := SnapshotFile(snapshot, name);
    var a, b := OneSnapshot(from, c), OneVm(from, vm, name, c, c);
    assert b.names.Keys == {from, RestoreFile(vm, name), VmFile(vm, name)};
    assert DiskReady(a, b, snapshot, vm, name, false);
  }

  lemma OneVmIsSaved(snapshot: string, again: string, vm: string, name: string, c: Content, live: Content)
    requires snapshot != again
    ensures var from := SnapshotFile(snapshot, name);
            AddsCopies(OneVm(from, vm, name, c, live), Retaken(from, vm, name, c, live, SnapshotFile(again, name)),
                       SnapshotFiles(again, [Disk(name, false)]))
  {
    assert SnapshotFiles(again, [Disk(name, false)]) == {SnapshotFile(again, name)} by {
      assert [Disk(name, false)][0] == Disk(name, false);
    }
  }

  /** A restored VM whose disk was copied: whatever its guest writes, a snapshot of it holds what the
      disk was when the VM was made. */
  lemma StaleSnapshot(snapshot: string, again: string, vm: string, name: string, c: Content, live: Content)
    returns (hosts: seq<Host>)
    requires snapshot != again
    ensures Runs(hosts, [CreateFromSnapshot(vm, snapshot, {}), GuestWrite(vm, name, live), TakeSnapshot(vm, again)])
    ensures Inv(hosts[3]) && vm in hosts[3].vms && again in hosts[3].snapshots
    ensures name in DiskNames(hosts[3].vms[vm].disks) && LiveContent(hosts[3], vm, name) == live
    ensures name in DiskNames(hosts[3].snapshots[again]) && SavedContent(hosts[3], again, name) == c
  {
    var from, disks := SnapshotFile(snapshot, name), [Disk(name, false)];
    var vms, snapshots := map[vm := Vm(true, disks)], map[snapshot := disks];
    var h0 := Host(OneSnapshot(from, c), map[], snapshots);
    var h1 := Host(OneVm(from, vm, name, c, c), vms, snapshots);
    var h2 := Host(OneVm(from, vm, name, c, live), vms, snapshots);
    var h3 := Host(Retaken(from, vm, name, c, live, SnapshotFile(again, name)), vms, snapshots[again := disks]);
    SingleDisk(name);
    OneVmIsCreated(snapshot, vm, name, c);
    OneVmIsSaved(snapshot, again, vm, name, c, live);
    assert Inv(h0);
    hide CreatedFrom, AddsCopies, Inv, Writable, DiskNames;
    var create, write, take := CreateFromSnapshot(vm, snapshot, {}), GuestWrite(vm, name, live), TakeSnapshot(vm, again);
    assert Step(h0, create, h1);
    StepKeepsInv(h0, create, h1);
    assert h1.store.Valid() && h2.store == h1.store.Written(RestoreFile(vm, name), live);
    assert Step(h1, write, h2);
    StepKeepsInv(h1, write, h2);
    assert Step(h2, take, h3);
    StepKeepsInv(h2, take, h3);
    hosts := [h0, h1, h2, h3];
    RunOfThree(h0, h1, h2, h3, create, write, take);
  }

  lemma RunOfThree(h0: Host, h1: Host, h2: Host, h3: Host, x: Op, y: Op, z: Op)
    requires Inv(h0) && Inv(h1) && Inv(h2) && Step(h0, x, h1) && Step(h1, y, h2) && Step(h2, z, h3)
    ensures Runs([h0, h1, h2, h3], [x, y, z])
  {
    hide Step, Inv;
    assert Runs([h0], []);
    assert [h0, h1][..1] == [h0] && [x][..0] == [];
    assert Runs([h0, h1], [x]);
    assert [h0, h1, h2][..2] == [h0, h1] && [x, y][..1] == [x];
    assert Runs([h0, h1, h2], [x, y]);
    assert [h0, h1, h2, h3][..3] == [h0, h1, h2] && [x, y, z][..2] == [x, y];
  }

  /** What the VM directory holds is what the guest sees. */
  ghost predicate Faithful(h: Host, vm: string)
    requires Inv(h)
  {
    vm in h.vms ==> forall n :: n in DiskNames(h.vms[vm].disks) ==> SavesLive(h, vm, n)
  }

  ghost predicate SavesLive(h: Host, vm: string, name: string)
    requires Inv(h) && vm in h.vms && name in DiskNames(h.vms[vm].disks)
  {
    NamedDisk(h.vms[vm].disks, name);
    h.store.Read(VmFile(vm, name)) == LiveContent(h, vm, name)
  }

  lemma SnapshotIsTaken(h: Host, vm: string, snapshot: string, h': Host)
    requires Inv(h) && Step(h, TakeSnapshot(vm, snapshot), h')
    ensures Inv(h') && (SnapshotView(h', snapshot) == VmView(h, vm) <==> Faithful(h, vm))
    ensures forall v :: v in h.vms ==> VmView(h', v) == VmView(h, v)
    ensures forall s :: s in h.snapshots ==> SnapshotView(h', s) == SnapshotView(h, s)
  {
    StepKeepsInv(h, TakeSnapshot(vm, snapshot), h');
    UntouchedViews(h, h');
    forall n | n in DiskNames(h.vms[vm].disks)
      ensures SavedContent(h', snapshot, n) == VmView(h, vm)[n] <==> SavesLive(h, vm, n)
    {
      NamedDisk(h.vms[vm].disks, n);
    }
    if SnapshotView(h', snapshot) == VmView(h, vm) {
      forall n | n in DiskNames(h.vms[vm].disks) ensures SavesLive(h, vm, n) {
        assert SnapshotView(h', snapshot)[n] == SavedContent(h', snapshot, n);
      }
    }
  }

  // ---- The run as plain copying would have it ----

  /** What guests and snapshots hold, without paths or inodes. */
  datatype View = View(vms: map<string, map<string, Content>>, snapshots: map<string, map<string, Content>>)

  function ImageView(disks: seq<Disk>, contents: map<string, Content>): map<string, Content> {
    map n | n in DiskNames(disks) && n in contents :: contents[n]
  }

  ghost function Observed(h: Host): View
    requires Inv(h)
  {
    View(map v | v in h.vms :: VmView(h, v), map s | s in h.snapshots :: SnapshotView(h, s))
  }

  /** Every creation and every snapshot copies all disks. */
  function Plain(v: View, op: Op): View {
    match op
    case CreateFromImage(vm, disks, contents) => v.(vms := v.vms[vm := ImageView(disks, contents)])
    case CreateFromSnapshot(vm, snapshot, _) =>
      if snapshot in v.snapshots then v.(vms := v.vms[vm := v.snapshots[snapshot]]) else v
    case GuestWrite(vm, name, c) => if vm in v.vms then v.(vms := v.vms[vm := v.vms[vm][name := c]]) else v
    case TakeSnapshot(vm, snapshot) => if vm in v.vms then v.(snapshots := v.snapshots[snapshot := v.vms[vm]]) else v
    case DeleteSnapshot(snapshot) => v.(snapshots := v.snapshots - {snapshot})
    case DeleteVm(vm) => v.(vms := v.vms - {vm})
  }

  lemma DeletionRefinesPlain(h: Host, op: Op, h': Host)
    requires Inv(h) && (op.DeleteSnapshot? || op.DeleteVm?) && Step(h, op, h')
    ensures Inv(h') && Observed(h') == Plain(Observed(h), op)
  {
    hide VmView, SnapshotView, Inv, OfVm;
    DeletionIsIsolated(h, op, h');
  }

  lemma TakingRefinesPlainIff(h: Host, vm: string, snapshot: string, h': Host)
    requires Inv(h) && Step(h, TakeSnapshot(vm, snapshot), h')
    ensures Inv(h') && (Observed(h') == Plain(Observed(h), TakeSnapshot(vm, snapshot)) <==> Faithful(h, vm))
  {
    hide VmView, SnapshotView, Inv, Faithful, AddsCopies;
    SnapshotIsTaken(h, vm, snapshot, h');
    assert Observed(h').snapshots[snapshot] == SnapshotView(h', snapshot);
    assert Plain(Observed(h), TakeSnapshot(vm, snapshot)).snapshots[snapshot] == VmView(h, vm);
  }

  lemma CreatingRefinesPlain(h: Host, op: Op, h': Host)
    requires Inv(h) && (op.CreateFromImage? || op.CreateFromSnapshot?) && Step(h, op, h')
    ensures Inv(h') && Observed(h') == Plain(Observed(h), op)
  {
    hide VmView, SnapshotView, Inv, CreatedFrom, AddsCopies, ImageView;
    match op
    case CreateFromImage(vm, disks, contents) => ImageIsAdded(h, vm, disks, contents, h');
    case CreateFromSnapshot(vm, snapshot, linked) => CreationStartsFromSnapshot(h, vm, snapshot, linked, h');
  }

  lemma WritingRefinesPlain(h: Host, vm: string, name: string, c: Content, h': Host)
    requires Inv(h) && Step(h, GuestWrite(vm, name, c), h')
    ensures Inv(h') && Observed(h') == Plain(Observed(h), GuestWrite(vm, name, c))
  {
    hide VmView, SnapshotView, Inv, Live;
    WriteIsIsolated(h, vm, name, c, h');
  }

  /** One step on linked files shows what copying would show, exactly unless it is a snapshot of a
      VM whose directory no longer holds what the guest sees. */
  lemma StepRefinesPlainIff(h: Host, op: Op, h': Host)
    requires Inv(h) && Step(h, op, h')
    ensures Inv(h') && (Observed(h') == Plain(Observed(h), op) <==> (op.TakeSnapshot? ==> Faithful(h, op.vm)))
  {
    hide *;
    match op
    case CreateFromImage(_, _, _) => CreatingRefinesPlain(h, op, h');
    case CreateFromSnapshot(_, _, _) => CreatingRefinesPlain(h, op, h');
    case GuestWrite(vm, name, c) => WritingRefinesPlain(h, vm, name, c, h');
    case TakeSnapshot(vm, snapshot) => TakingRefinesPlainIff(h, vm, snapshot, h');
    case DeleteSnapshot(_) => DeletionRefinesPlain(h, op, h');
    case DeleteVm(_) => DeletionRefinesPlain(h, op, h');
  }

  /** The directory and the live file of every disk agree, and are one file where the guest writes. */
  ghost predicate Mirrored(h: Host)
    requires Inv(h)
  {
    forall v :: v in h.vms ==> MirroredVm(h.store, v, h.vms[v])
  }

  ghost predicate MirroredVm(s: Store, vm: string, info: Vm)
    requires VmInv(s, vm, info)
  {
    forall d :: d in info.disks ==>
      && s.Read(VmFile(vm, d.name)) == s.Read(Live(vm, info, d.name))
      && (d.name in Writable(info.disks) ==> s.names[VmFile(vm, d.name)] == s.names[Live(vm, info, d.name)])
  }

  lemma MirroredIsFaithful(h: Host, vm: string)
    requires Inv(h) && Mirrored(h)
    ensures Faithful(h, vm)
  {
    if vm in h.vms {
      forall n | n in DiskNames(h.vms[vm].disks) ensures SavesLive(h, vm, n) {
        NamedDisk(h.vms[vm].disks, n);
      }
    }
  }

  /** Every writable disk of a restored VM was linked to its live file. */
  ghost predicate Links(h: Host, op: Op)
    requires Inv(h)
  {
    op.CreateFromSnapshot? && op.snapshot in h.snapshots ==> Writable(h.snapshots[op.snapshot]) <= op.linked
  }

  lemma LinkingKeepsMirrored(h: Host, op: Op, h': Host)
    requires Inv(h) && Mirrored(h) && Step(h, op, h') && Links(h, op)
    ensures Inv(h') && Mirrored(h')
  {
    StepKeepsInv(h, op, h');
    forall v | v in h'.vms ensures MirroredVm(h'.store, v, h'.vms[v]) {
      assert VmInv(h'.store, v, h'.vms[v]);
      if v in h.vms {
        assert MirroredVm(h.store, v, h.vms[v]) && VmInv(h.store, v, h.vms[v]);
        OldVmStaysMirrored(h, op, h', v);
      } else if op.CreateFromSnapshot? {
        assert h'.vms[v] == Vm(true, h.snapshots[op.snapshot]);
      }
    }
  }

  lemma OldVmStaysMirrored(h: Host, op: Op, h': Host, v: string)
    requires Inv(h) && Step(h, op, h') && Inv(h')
    requires v in h.vms && v in h'.vms && MirroredVm(h.store, v, h.vms[v])
    ensures h'.vms[v] == h.vms[v] && MirroredVm(h'.store, v, h.vms[v])
  {
    assert VmInv(h.store, v, h.vms[v]) && VmInv(h'.store, v, h'.vms[v]);
    if op.GuestWrite? {
      var p := Live(op.vm, h.vms[op.vm], op.name);
      WritableIsThere(h.store, op.vm, h.vms[op.vm], op.name);
      assert Private(h.store, p, VmFile(op.vm, op.name));
    }
  }

  ghost predicate Runs(hosts: seq<Host>, ops: seq<Op>) {
    && |hosts| == |ops| + 1 && Inv(hosts[0])
    && (ops != [] ==>
          var k := |ops| - 1;
          Runs(hosts[..k + 1], ops[..k]) && Inv(hosts[k]) && Step(hosts[k], ops[k], hosts[k + 1]))
  }

  function PlainRun(v: View, ops: seq<Op>): View {
    if ops == [] then v else Plain(PlainRun(v, ops[..|ops| - 1]), ops[|ops| - 1])
  }

  ghost predicate AllLink(hosts: seq<Host>, ops: seq<Op>)
    requires |hosts| == |ops| + 1
  {
    forall i :: 0 <= i < |ops| ==> Inv(hosts[i]) && Links(hosts[i], ops[i])
  }

  /** Over every run in which links succeed where the hypervisor writes, building VMs with links shows
      exactly what building them with copies would, snapshots of restored VMs included. */
  lemma {:induction false} LinkedRunsRefinePlain(hosts: seq<Host>, ops: seq<Op>)
    requires Runs(hosts, ops) && AllLink(hosts, ops) && Mirrored(hosts[0])
    ensures Inv(hosts[|ops|]) && Mirrored(hosts[|ops|])
    ensures Observed(hosts[|ops|]) == PlainRun(Observed(hosts[0]), ops)
    decreases |ops|
  {
    hide Inv, Mirrored, Observed, Plain, Step, Links, Faithful;
    if ops != [] {
      var k := |ops| - 1;
      LinkedRunsRefinePlain(hosts[..k + 1], ops[..k]);
      LinkingKeepsMirrored(hosts[k], ops[k], hosts[k + 1]);
      if ops[k].TakeSnapshot? {
        MirroredIsFaithful(hosts[k], ops[k].vm);
      }
      StepRefinesPlainIff(hosts[k], ops[k], hosts[k + 1]);
    }
  }

  /** Without snapshots of VMs it does not matter which links succeed. */
  lemma {:induction false} RunsWithoutSnapshotsRefinePlain(hosts: seq<Host>, ops: seq<Op>)
    requires Runs(hosts, ops) && forall op :: op in ops ==> !op.TakeSnapshot?
    ensures Inv(hosts[|ops|])
    ensures Observed(hosts[|ops|]) == PlainRun(Observed(hosts[0]), ops)
    decreases |ops|
  {
    hide Inv, Observed, Plain, Step;
    if ops != [] {
      var k := |ops| - 1;
      RunsWithoutSnapshotsRefinePlain(hosts[..k + 1], ops[..k]);
      StepRefinesPlainIff(hosts[k], ops[k], hosts[k + 1]);
    }
  }
}
