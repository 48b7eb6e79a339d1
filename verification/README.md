# spind: protocols and transformations, modelled and proved

spind runs development VMs on a host: it starts hypervisors, relays streams between host and guest,
copies and partitions disk images, snapshots VMs and builds new ones from snapshots, and keeps
project VMs, published ports and kubeconfig entries in step. This project models the parts of it
that carry protocol or transformation logic, one module for each, with every external call allowed
to fail, and proves what they promise.

| module | what it models |
|---|---|
| `FrameCodec`, `StreamWorkers`, `FramedRelay` | the framed stream relay: wire format, worker loops, and two relays back to back as a step system |
| `CopyRelay`, `Connect` | the raw relays, and the nested CONNECT handshakes with their read buffer |
| `Files`, `SparseCopy`, `DiskImage` | sparse copies over files with holes, MBR images, partition extraction and write-back |
| `Paths`, `SnapshotRewrite` | retargeting a hypervisor's saved configuration, a JSON tree, to another VM |
| `LinkedDisks` | VMs built from snapshots with hard links: paths, inodes, contents |
| `Lifecycle` | starting, stopping, deleting and snapshotting VMs: state records and processes |
| `Kubeconfig`, `KubeconfigLock` | merging and unmerging entries, and any number of processes doing it under a lock file |
| `GuestHandoff` | the queue and semaphore between guest connections and clients |
| `ShellQuoting`, `KernelCommandLine`, `FieldLists` | quoting against what shells read back, and the kernel command line's normal form |
| `PortRelay` | listeners for published container ports |
| `ProjectUp` | bringing a project up in stores shared with others |
| `Bytes`, `Sequences`, `Wrappers` | shared helpers |

Code that works in steps is modelled as classes and methods with loops, each proved against a
specification function or a step relation; the laws are lemmas about those. Systems with several
actors are step systems, and their main results hold for every run. `reliable` on a file, a host or a
file system means that no call on it fails that could succeed: it lets contracts say when an operation
must succeed, beside what every success and every failure leaves.

Some obvious claims are false of the code. There the model keeps the code as it is, a lemma gives an
input, and another says exactly when the claim holds:

| claim | input | exact condition |
|---|---|---|
| The Swift loop's success means that all is written | `SwiftShortWriteIsSilent`, and `ShortPayloadDesynchronises` for a frame | `SwiftSuccessMeansAllIff` |
| A raw relay closes after all data | `FirstEndCutsOff` | `CompleteIffWaitsForBoth` |
| A framed relay can complete while nothing has failed | `CloseWriteStrandsReader` | `CompletionPossibleIff` |
| The partition found is the partition written | `SectorCountWraps` | `PartitionRoundTrip` |
| The partition holds the whole file system | `PartialSectorIsLost` | `PartitionHoldsRootfs` |
| Extracting a partition gives the partition | `ExtractedTwice` | `ExtractionRightIff` |
| Retargeting a configuration keeps nothing of the first VM | `DirectoryLeafStays` | `RetargetsIff` |
| Rewriting a configuration twice is rewriting it once (for all VMs that can be created it is: `RewriteAtStartIsHarmless`) | `UnsettledTarget` | `IdempotentIff` |
| A snapshot of a restored VM captures its disk | `StaleSnapshot` | `SnapshotCapturesIff` |
| A start leaves one process of the VM | `ToldProcessMayLinger` | `StartLeavesOneIff` |
| A process that was not told to stop is recorded running | `RefusedSignalLeavesTwo` | `CallKeepsAllRecordedIff` |
| Arguments reach the guest as they are | `LatinNameIsChanged` | `CommandReadsBackIff` |
| A second pass leaves a kernel command line alone | `BlankIsNotStable` | `SecondPassIsHarmlessIff` |

Verify with `dafny verify dfyconfig.toml` (Dafny 4.11).

## Model

| member | source | states |
|---|---|---|
| `FrameCodec.ParseEncode` | internal/shared/streamrelay/framed.go:103-134 | Reading a frame that was written gives that frame and leaves what follows it untouched |
| `FrameCodec.EncodeParse` | internal/shared/streamrelay/framed.go:118-134 | Whatever reads as a frame is the encoding of that frame: the wire format has one spelling per frame |
| `FrameCodec.ParseExtends` | internal/shared/streamrelay/framed.go:118-134 | More input changes neither a complete frame nor the verdict on an oversized length, however the bytes are cut up |
| `FrameCodec.TruncatedNeedsMore` | internal/shared/streamrelay/framed.go:118-134 | A truncated frame is never delivered as data |
| `FrameCodec.WireFormat` | internal/shared/streamrelay/framed.go:12-16 | The encoding octet by octet: kind, big-endian length, payload; data is kind 0, the half-close is five octets of kind 1; the limit is 64 KiB |
| `FrameCodec.FramesRoundTrip` | internal/shared/streamrelay/framed.go:103-134 | For every list of frames that fit, repeated reading returns exactly those frames and leaves the rest |
| `FrameCodec.DecodeSplit` | internal/shared/streamrelay/framed.go:81-101 | What a stream of frames means can be computed in two parts, cut at any byte |
| `FrameCodec.DecodePrefix` | internal/shared/streamrelay/framed.go:81-101 | A prefix of a stream never delivers anything the whole stream would not |
| `FrameCodec.SwiftSizeAgrees` | swift/spind-vz/main.swift:808-824 | The Swift loop that shifts the length in byte by byte reads the same big-endian number as the Go reader |
| `StreamWorkers.WriteFull` | internal/shared/streamrelay/framed.go:143-156 | The loop accepts exactly what the transport accepts, in order, and its verdict is that of the run of writes |
| `StreamWorkers.GoWritesAllOrFails` | internal/shared/streamrelay/framed.go:143-156 | A reported success means that every octet was accepted |
| `StreamWorkers.ProgressIsEnough` | internal/shared/streamrelay/framed.go:143-156 | A transport on which every write makes progress, often enough, takes everything: the loop does not fail by itself |
| `StreamWorkers.SwiftWriteFull` | swift/spind-vz/main.swift:848-866 | The Swift loop, as it is written: an empty write ends it without an error |
| `StreamWorkers.SwiftWritesLikeGo` | swift/spind-vz/main.swift:848-866 | On every transport both loops accept the same octets and leave it in the same state; they can only disagree about success |
| `StreamWorkers.SwiftSuccessMeansAllIff` | swift/spind-vz/main.swift:848-866 | For every transport and length: success of the Swift loop means that everything was accepted, exactly unless a write accepts nothing before all is out |
| `StreamWorkers.SwiftShortWriteIsSilent` | swift/spind-vz/main.swift:848-866 | A transport on which the Swift loop reports success with half of the octets written |
| `StreamWorkers.ReadFull` | internal/shared/streamrelay/framed.go:118-134 | Succeeds exactly when enough octets are to come, and then takes exactly those |
| `StreamWorkers.WriteFrame` | internal/shared/streamrelay/framed.go:103-116 | The whole encoding is out exactly when no write failed or took nothing, and otherwise a prefix of it; an oversized payload writes nothing |
| `StreamWorkers.ReadFrame` | internal/shared/streamrelay/framed.go:118-134 | Reads what the codec reads from the front of the stream, whatever the chunks |
| `StreamWorkers.SwiftReadFrame` | swift/spind-vz/main.swift:808-824 | The Swift reader, against the same specification |
| `StreamWorkers.SwiftWriteFrame` | swift/spind-vz/main.swift:787-806 | The Swift frame writer puts a prefix of the encoding out; its success means the whole encoding exactly unless a write of the header or of the payload stops early |
| `StreamWorkers.ShortPayloadDesynchronises` | swift/spind-vz/main.swift:787-806 | What a short payload does that is reported as success: the reader takes the next frame for the rest of this one |
| `StreamWorkers.CopyLocalToFramed` | internal/shared/streamrelay/framed.go:63-79 | Succeeds exactly when the local side ends and no write goes wrong; then all it read is out, closed by a frame; without a wrong write all it read is out in any case; otherwise a prefix decodes |
| `StreamWorkers.CopyFramedToLocal` | internal/shared/streamrelay/framed.go:81-101 | Succeeds exactly when the framed stream is closed by a frame and no write or close goes wrong; delivers a prefix of what the stream decodes to, all of it unless a write goes wrong; closes the write side at most once, after all of it |
| `FramedRelay.StepKeepsInv` | internal/shared/streamrelay/framed.go:23-101 | Every step of two relays back to back, failures included, keeps the invariant that ties read, sent, in-flight and delivered octets together |
| `FramedRelay.RunKeepsInv` | internal/shared/streamrelay/framed.go:23-101 | So does every run, under every interleaving, fragmentation and partial write |
| `FramedRelay.DeliveryOverEveryRun` | internal/shared/streamrelay/framed.go:63-101 | Delivered is a prefix of read on each direction; the write side is closed at most once, and only when all was delivered and nothing is on the way |
| `FramedRelay.WorkersKeepTheirContracts` | internal/shared/streamrelay/framed.go:63-101 | In every reachable state a worker of the step system that has ended meets the same contract as the worker loop, success and failure included |
| `FramedRelay.CloseWriteIsFinal` | internal/shared/streamrelay/framed.go:81-101 | Once a write side is closed nothing about that direction changes in any run |
| `FramedRelay.ReturnsAfterBothWorkers` | internal/shared/streamrelay/framed.go:23-45 | RelayFramed returns only after both workers reported; each connection is closed once (a local one without half-close a second time, exactly then) |
| `FramedRelay.EarlyCloseNeedsFailure` | internal/shared/streamrelay/framed.go:23-45 | Connections are closed before the return only if a worker failed |
| `FramedRelay.CleanReturnIsComplete` | internal/shared/streamrelay/framed.go:23-101 | A return without a failure has sent all it read, closed by a frame, and delivered all its peer read |
| `FramedRelay.OtherDirectionStaysOpen` | internal/shared/streamrelay/framed.go:136-141 | The end of one direction leaves the other able to read exactly when the local connection can half-close or was not asked to |
| `FramedRelay.DirectionsAreIndependent` | internal/shared/streamrelay/framed.go:136-141 | No worker step of one direction changes the other direction, what can happen on it, or what that does, except that CloseWrite on a connection without half-close ends reading from it |
| `FramedRelay.ReportNeverBlocks` | internal/shared/streamrelay/framed.go:32-44 | The result channel always has room for a worker that has ended |
| `FramedRelay.ClosedRelayWindsDown` | internal/shared/streamrelay/framed.go:23-45 | After closing, each own step brings a relay closer to its return and no step of the peer sets it back |
| `FramedRelay.ClosedRelayCanStep` | internal/shared/streamrelay/framed.go:23-45 | And it always has a step to take until it has returned |
| `FramedRelay.FailedRelayCanReturn` | internal/shared/streamrelay/framed.go:23-45 | A relay with a failed worker, collected or not, can return by its own steps, without the peer or the other worker |
| `FramedRelay.CompletionStaysPossible` | internal/shared/streamrelay/framed.go:23-101 | From every such state, and without the transport ever exceeding its capacity, whatever that is, both relays can still return with exactly what was read delivered: no deadlock |
| `FramedRelay.CompletionPossibleIff` | internal/shared/streamrelay/framed.go:136-141 | While nothing has failed, such a completion exists exactly as long as on each side the local connection can half-close, or was not closed for writing, or has been read to its end |
| `FramedRelay.CloseWriteStrandsReader` | internal/shared/streamrelay/framed.go:136-141 | A run without a failure to a state from which no completion is possible |
| `CopyRelay.PrefixDelivery` | internal/shared/streamrelay/framed.go:47-61 | RelayRaw, Plain and Buffered deliver prefixes, and the whole where the end was passed on without a failure |
| `CopyRelay.CompleteIffWaitsForBoth` | internal/agent/relay/relay.go:9-34 | Whatever both sides send: in every run without failed copies closing comes after all data exactly for the relay that waits for both, or when there is nothing to send |
| `CopyRelay.BothCanComplete` | internal/agent/relay/relay.go:9-34 | For every pair of streams there is a run to the close of either kind of relay in which everything is delivered |
| `CopyRelay.FirstEndCutsOff` | internal/agent/relay/relay.go:9-17 | Whatever the first side sends: a run of the other kind that loses all of what the second one sends |
| `Files.File.SeekData` | internal/spind/filecopy/copy_file_sparse_unix.go:25-46 | lseek SEEK_DATA as the copies rely on it: the next data, or none |
| `SparseCopy.AllZeroLoop` | internal/spind/filecopy/copy_file_sparse_unix.go:107-114 | Says zero exactly for blocks of zeros |
| `SparseCopy.CopySparseData` | internal/spind/filecopy/copy_file_sparse_unix.go:76-105 | A run of data is copied exactly, zero blocks only by moving the output position; a failure stays inside the run and needs a call that fails |
| `SparseCopy.SparseCopyRange` | internal/spind/filecopy/copy_file_sparse_unix.go:19-74 | For every file, layout and range over a zeroed output, success means byte for byte a dense copy, made without ever writing a block of zeros; it gives up exactly when a probe is answered with EINVAL, and that leaves a dense prefix, as long as the answers before say, and zeros |
| `SparseCopy.CopyRun` | internal/spind/filecopy/copy_file_sparse_unix.go:38-60 | One turn of the loop: asks for the end of a run of data and copies the run; EINVAL leaves the output as it is |
| `SparseCopy.GivesUpMidwayIff` | internal/spind/filecopy/copy_file_sparse_unix.go:25-71 | Whatever a file system answers: when the loop gives up it has copied nothing exactly if that was its first probe for data or its first for a hole |
| `SparseCopy.HolesAreZero` | internal/spind/filecopy/copy_file_sparse_unix.go:25-71 | What the layout shows as holes is zero in a dense copy |
| `SparseCopy.CopyAll` | internal/spind/filecopy/copy_file.go:71-87 | The plain loop copies from the input position to the end, or leaves a prefix |
| `SparseCopy.Directory.CloneFile` | internal/spind/filecopy/copy_file_clone_linux.go:13-49 | A clone under a new name has equal contents; an existing name or a missing source is an error; otherwise the new file is taken away again |
| `SparseCopy.Fill` | internal/spind/filecopy/copy_file.go:57-87 | Whatever a sparse attempt left behind, success means equal contents: a sparse copy, or a plain one started over; it fails only when a call does |
| `SparseCopy.Directory.Copy` | internal/spind/filecopy/copy_file.go:21-88 | Succeeds only under a name that was free, with a new file of equal contents and nothing else different, and does so whenever no call fails; a failure leaves the directory as it was, unless the removal itself failed |
| `DiskImage.BuildMbr` | internal/spind/diskimage/diskimage.go:52-59 | The sector filled in place is the specified MBR with one Linux partition entry |
| `DiskImage.MbrLayout` | internal/spind/diskimage/diskimage.go:52-59 | The sector octet by octet, and the default start sector |
| `DiskImage.ParseWrittenMbr` | internal/spind/diskimage/diskimage.go:98-124 | The reader finds what the writer recorded; a zero sector count is refused |
| `DiskImage.ParseIs` | internal/spind/diskimage/diskimage.go:98-124 | What the reader makes of every first sector, octet by octet |
| `DiskImage.CreateMBRDisk` | internal/spind/diskimage/diskimage.go:22-83 | Success means exactly the specified image, whether or not the sparse copy gave up midway; where no call fails, it succeeds exactly for the accepted sizes |
| `DiskImage.WriteRootfs` | internal/spind/diskimage/diskimage.go:69-96 | The partition area ends up equal to the file system over zeros |
| `DiskImage.FirstPartition` | internal/spind/diskimage/diskimage.go:98-124 | Returns what the table in the first sector says |
| `DiskImage.PartitionRoundTrip` | internal/spind/diskimage/diskimage.go:22-124 | The partition found is start and floor of the rest in sectors exactly when the count is between 1 and 2^32 - 1; otherwise the count has wrapped around, and the lemma says to what |
| `DiskImage.SectorCountWraps` | internal/spind/diskimage/diskimage.go:42-58 | An image of 2^32 + 1 sectors after its start on which the reader finds a partition of one |
| `DiskImage.PartitionHoldsRootfs` | internal/spind/diskimage/diskimage.go:22-124 | The partition lies inside the image and holds the file system padded with zeros; the whole of it exactly when it is no longer than the whole sectors after the start, modulo 2^32 |
| `DiskImage.PartialSectorIsLost` | internal/spind/diskimage/diskimage.go:39-42 | The size check accepts a file system whose tail lies in the last partial sector, outside the recorded partition |
| `DiskImage.CopyDiskPartition` | internal/spind/vm/start/manager.go:1609-1634 | What is extracted is determined by what SEEK_DATA and SEEK_HOLE answered; on success it is the partition exactly unless a probe after the first two was answered with EINVAL (zeros at the end of a truncated image excepted) |
| `DiskImage.ExtractionRightIff` | internal/spind/vm/start/manager.go:1609-1634 | For every image, layout and partition and all answers a file system can give: the extraction is right exactly unless one after the first two is EINVAL, because the fallback does not seek the output back; for a partition past the end of its image also if all there is of it is zeros and fits twice |
| `DiskImage.ExtractedTwice` | internal/spind/vm/start/manager.go:1622-1632 | A layout and a list of answers for which a partition comes out twice |
| `DiskImage.WriteDiskPartition` | internal/spind/vm/start/manager.go:1636-1661 | Refuses what does not fit and then changes nothing; writes the file system at the start, the image growing if the partition reaches past its end; changes no octet outside the partition even when it fails; what fits fails only when a call does |
| `DiskImage.WriteBackRoundTrip` | internal/spind/vm/start/manager.go:1609-1661 | Extract and write back is the identity; writing another file system keeps the partition table readable |
| `SnapshotRewrite.OnlyOneKeyMatches` | internal/spind/vm/start/snapshot.go:581-588 | A path can match only one key of the replacement table |
| `SnapshotRewrite.RewritePathLoop` | internal/spind/vm/start/snapshot.go:561-590 | The loop over the unordered map computes one function, in whatever order it visits the keys |
| `SnapshotRewrite.OrderDoesNotMatter` | internal/spind/vm/start/snapshot.go:581-590 | Every order of iteration rewrites every string alike |
| `SnapshotRewrite.RewriteInPlace` | internal/spind/vm/start/snapshot.go:485-509 | The recursion that updates objects and arrays entry by entry computes the tree rewrite, objects in any order |
| `SnapshotRewrite.PathsGoWhereFilesAre` | internal/spind/vm/start/snapshot.go:561-590 | Name by name, under any directories, with or without the scheme: sockets and logs go to the VM directory, restore files and disks to the restore directory, the snapshot directory becomes the restore directory, every other path stays |
| `SnapshotRewrite.PartsOf` | internal/spind/vm/start/snapshot.go:561-590 | Every string is such a path, but the empty one and the bare scheme, which stay as they are |
| `SnapshotRewrite.NetDeviceKeys` | internal/spind/vm/start/snapshot.go:543-559 | What is taken for a network device, key by key |
| `SnapshotRewrite.NetDeviceBecomes` | internal/spind/vm/start/snapshot.go:511-541 | After the rewrite a device has the MAC, the one connection the settings ask for, and no key of another |
| `SnapshotRewrite.NetDeviceKeeps` | internal/spind/vm/start/snapshot.go:511-541 | All its other keys stay |
| `SnapshotRewrite.NetDeviceIdempotent` | internal/spind/vm/start/snapshot.go:511-541 | Rewriting a network device twice is rewriting it once |
| `SnapshotRewrite.NetDeviceRetargetsIff` | internal/spind/vm/start/snapshot.go:511-541 | Nothing of the first target shows through on any network device exactly when the second settings override the first |
| `SnapshotRewrite.HiddenIff` | internal/spind/vm/start/snapshot.go:511-541 | For every single device and any two settings: exactly when the second settings replace what the first ones set and dropped, or it was so before |
| `SnapshotRewrite.TreeIdempotent` | internal/spind/vm/start/snapshot.go:485-590 | On every JSON tree the second rewrite (at start) of the first one (at creation) changes nothing |
| `SnapshotRewrite.IdempotentIff` | internal/spind/vm/start/snapshot.go:485-590 | That holds for all trees exactly when the restore directory is not named like a file of the table |
| `SnapshotRewrite.ManagersTargetSettledIff` | internal/spind/vm/start/snapshot.go:575-580 | For the targets that creation and start build it holds exactly when no disk has the name of the restore directory |
| `SnapshotRewrite.RewriteAtStartIsHarmless` | internal/spind/vm/start/snapshot.go:335-337 | So for every VM that can be created the rewrite at start changes nothing on any tree |
| `SnapshotRewrite.UnsettledTarget` | internal/spind/vm/start/snapshot.go:575-580 | In every VM directory, a disk with the name of the restore directory gives a target for which it would fail |
| `SnapshotRewrite.Retargets` | internal/spind/vm/start/snapshot.go:485-590 | For trees without a directory leaf and overriding network settings, rewriting for VM A and then for VM B equals rewriting for B alone |
| `SnapshotRewrite.RetargetsIff` | internal/spind/vm/start/snapshot.go:485-590 | For every tree and any two targets with the same disks, whatever their network settings: it does exactly when no leaf refers to the directory itself (or both have one directory) and every network device hides the first settings |
| `SnapshotRewrite.TracelessIfOverridden` | internal/spind/vm/start/snapshot.go:485-590 | Where the second network settings override the first, that comes down to the directory leaves |
| `SnapshotRewrite.ManagersRetargetIff` | internal/spind/vm/start/snapshot.go:485-590 | The same for the targets that creation and start build; with overriding network settings exactly without directory leaves or with one restore directory |
| `SnapshotRewrite.DirectoryLeafStays` | internal/spind/vm/start/snapshot.go:575-580 | Two such targets and a tree that keeps the directory of the first |
| `SnapshotRewrite.DirectoryLeafRetargetsIff` | internal/spind/vm/start/snapshot.go:575 | A reference to the snapshot directory itself, in any spelling, is retargeted exactly when both directories are the same |
| `LinkedDisks.FileSystem.LinkOrCopy` | internal/spind/filecopy/copy_file.go:10-19 | A link or else a copy, and nothing at all on failure; where no call fails it succeeds whenever there is a source and a free place, by a link if there are hard links |
| `LinkedDisks.FileSystem.CreateFromSnapshot` | internal/spind/vm/start/snapshot.go:267-321 | Contents equal the snapshot; writable disks are private to the VM, one inode when linked; by name, the five restore files are there, the two that are rewritten private; a failure leaves the file system as it was. Where no call fails it succeeds exactly for a new VM and a complete snapshot whose files have names of their own, no disk that of the restore directory, and links all that may be if there are hard links |
| `LinkedDisks.StepKeepsInv` | internal/spind/vm/start/snapshot.go:267-321 | Every operation keeps each writable disk out of reach of all other VMs and all snapshots |
| `LinkedDisks.WriteIsIsolated` | internal/spind/vm/start/snapshot.go:304-316 | A guest write changes its own disk and no other disk of any VM or snapshot |
| `LinkedDisks.CreationStartsFromSnapshot` | internal/spind/vm/start/snapshot.go:267-321 | A new VM sees the snapshot, whatever was linked, and nobody else sees a change |
| `LinkedDisks.DeletionIsIsolated` | internal/spind/snapshot/store.go:76-95 | Deleting a snapshot takes nothing from the VMs made from it |
| `LinkedDisks.SnapshotCapturesIff` | internal/spind/vm/start/snapshot.go:134-137 | A snapshot of a VM captures the disk being written after every possible write exactly when vmDir and restoreDir share an inode |
| `LinkedDisks.StaleSnapshot` | internal/spind/vm/start/snapshot.go:134-137 | A run in which nothing is linked: the snapshot of the restored VM holds what the disk was before its guest wrote |
| `LinkedDisks.StepRefinesPlainIff` | internal/spind/vm/start/snapshot.go:104-150 | One step on linked files shows what plain copying would, exactly unless it is a snapshot of a VM whose directory differs from its live disks |
| `LinkedDisks.LinkedRunsRefinePlain` | internal/spind/vm/start/snapshot.go:104-321 | Over every run in which writable disks are linked, building with links refines building with copies, re-snapshots included |
| `LinkedDisks.RunsWithoutSnapshotsRefinePlain` | internal/spind/filecopy/copy_file.go:10-19 | Without re-snapshots it refines plain copying whichever links succeed |
| `Lifecycle.Host.StartVirtualizationFramework` | internal/spind/vm/start/manager.go:912-998 | Leaves the VM recorded with its running process, whose exec relay was seen to work; or has sent SIGTERM to the process it spawned, which may fail, and recorded the VM stopped, unless a record could not be written; ready only after the guest answered; succeeds where no call fails |
| `Lifecycle.Host.StartVirtualizationFrameworkRestore` | internal/spind/vm/start/manager.go:1000-1106 | The same for a restored VM, after the three lifecycle events and the exec relay |
| `Lifecycle.Host.StartCloudHypervisor` | internal/spind/vm/start/cloud_hypervisor.go:35-195 | The same on Cloud Hypervisor, after its API and its vsock socket; an unready guest is given up |
| `Lifecycle.Host.StartCloudHypervisorRestore` | internal/spind/vm/start/cloud_hypervisor.go:197-388 | The same for a restored VM, which is not left paused |
| `Lifecycle.Host.Start` | internal/spind/vm/start/manager.go:479-528 | A VM that is up is left alone and one without metadata or record is refused; otherwise one launch, and only when the recorded process is dead; where no call fails it succeeds for every other VM |
| `Lifecycle.Host.StopCloudHypervisor` | internal/spind/vm/start/cloud_hypervisor.go:390-421 | Requests rise strictly from guest shutdown to SIGKILL, none twice; a graceful stop asks the guest, SIGTERM is sent only after the API requests of the mode were tried; it gives up only after SIGKILL, or when SIGTERM or SIGKILL could not be sent |
| `Lifecycle.Host.Stop` | internal/spind/vm/start/manager.go:1112-1163 | Succeeds only with the recorded process dead and the VM recorded stopped; what it stopped was asked in that way, or by one SIGTERM; where no call fails it succeeds for every VM with metadata and a record, on Cloud Hypervisor even if the process heeds only SIGKILL |
| `Lifecycle.Host.Delete` | internal/spind/vm/start/manager.go:678-732 | Succeeds only with the recorded process dead; without force it tells no process anything; a failed removal may lose files but never a live process; where no call fails and processes heed what they are told it succeeds exactly for a VM with a record that is not up, or is forced and has metadata |
| `Lifecycle.Host.SnapshotCloudHypervisor` | internal/spind/vm/start/snapshot.go:104-190 | Memory, then disks are copied, all while the VM is paused; success means the process is gone and recorded so; a live VM that was not paused before is left paused only if its pause or resume request got no good reply |
| `Lifecycle.Host.SnapshotVirtualizationFramework` | internal/spind/vm/start/snapshot.go:192-265 | The runner saves the paused machine; disks are copied only when its process is dead |
| `Lifecycle.Host.Snapshot` | internal/spind/vm/start/snapshot.go:27-102 | Published exactly on success, never over an existing snapshot, and only of a VM that was up and ready; where no call fails and processes heed what they are told it succeeds exactly then |
| `Lifecycle.StepKeepsInv` | internal/spind/vm/start/manager.go:479-528 | Every call, with a failure at any step, keeps: a live process neither told to stop nor refused a SIGTERM is the one its VM is recorded running with |
| `Lifecycle.StepKeepsAllRecordedIff` | internal/spind/vm/start/cloud_hypervisor.go:164-187 | Without the words about SIGTERM: exactly unless a start gives up on a process that SIGTERM could not be sent to and leaves no record of it |
| `Lifecycle.CallKeepsAllRecordedIff` | internal/spind/vm/start/cloud_hypervisor.go:164-187 | Before the call: every outcome keeps it exactly unless the call starts a VM that has metadata and a record |
| `Lifecycle.RefusedSignalLeavesTwo` | internal/spind/vm/start/cloud_hypervisor.go:164-187 | A run that ends so, with two live processes of one VM that nobody told to stop: the error of the signal is ignored |
| `Lifecycle.AtMostOneHypervisor` | internal/spind/vm/start/manager.go:479-528 | After every run each VM has at most one such process |
| `Lifecycle.ReadyMeansAnswered` | internal/spind/vm/start/manager.go:968-997 | After every run a VM is recorded ready only if its guest has answered |
| `Lifecycle.SnapshotsAreStill` | internal/spind/vm/start/snapshot.go:120-190 | After every run each published snapshot consists of memory and disks that were copied from one process while it was paused or dead |
| `Lifecycle.SuccessLeavesNothing` | internal/spind/vm/start/manager.go:678-724 | After a successful Stop, Delete or Snapshot the recorded process is dead and nothing untold runs the VM, unless a SIGTERM was refused before |
| `Lifecycle.StartReportsTruth` | internal/spind/vm/start/manager.go:479-528 | A Start that says it started leaves exactly one process at work, one that does not leaves none of its own that its SIGTERM reached |
| `Lifecycle.OthersUntouched` | internal/spind/vm/start/manager.go:479-528 | No call touches the record or the processes of another VM |
| `Lifecycle.ToldProcessMayLinger` | internal/spind/vm/start/cloud_hypervisor.go:158-170 | A run that ends with two live processes of one VM: a start that gives up does not wait for the process it told to stop |
| `Lifecycle.StartLeavesOneIff` | internal/spind/vm/start/manager.go:479-528 | For every VM: starting it leaves at most one live process for certain exactly when none but the recorded one was alive before, or the start is refused for missing metadata or record |
| `Kubeconfig.FindEntries` | internal/spind/kubeconfig/mergefile.go:372-408 | The find loops return the entries of a name, in order |
| `Kubeconfig.FilterEntries` | internal/spind/kubeconfig/mergefile.go:414-442 | The filter loops return the others, in order |
| `Kubeconfig.EntryReferencedByOtherContext` | internal/spind/kubeconfig/mergefile.go:351-361 | True exactly when some context of another name refers to the name |
| `Kubeconfig.File.Merge` | internal/spind/kubeconfig/mergefile.go:191-215 | The file becomes the specified merge, or nothing changes; a readable and writable file refuses exactly what the merge refuses |
| `Kubeconfig.File.Unmerge` | internal/spind/kubeconfig/mergefile.go:217-247 | The file becomes the specified unmerge, or nothing changes; changed is reported exactly when there was something to do; a readable and writable file refuses exactly what the unmerge refuses |
| `Kubeconfig.MergeRefusedIff` | internal/spind/kubeconfig/mergefile.go:197-207 | Refused exactly without just one cluster, user and context of the name in the source, or with one in the target that is not to be replaced |
| `Kubeconfig.UnmergeRefusedIff` | internal/spind/kubeconfig/mergefile.go:351-361 | Refused exactly when a context of another name uses the cluster or the user |
| `Kubeconfig.MergeBringsEntry` | internal/spind/kubeconfig/mergefile.go:200-214 | The entries of the name are the source ones, exactly one of each; the current context is as asked, and a blank header becomes v1 and Config |
| `Kubeconfig.UnmergeDropsEntry` | internal/spind/kubeconfig/mergefile.go:235-245 | Nothing of the name is left, not even as current context; a changed document has a header |
| `Kubeconfig.UnmergeUndoesMergeIff` | internal/spind/kubeconfig/mergefile.go:191-247 | Unmerging takes a merge back, header defaults aside, exactly when the name was absent, unreferenced and not current, and no current context was lost to it |
| `Kubeconfig.OtherNamesKept` | internal/spind/kubeconfig/mergefile.go:336-349 | Entries of every other name keep all fields and their order, and so does the rest of the document |
| `Kubeconfig.MergeKeepsResolves` | internal/spind/kubeconfig/mergefile.go:191-215 | Merging a self-consistent source keeps every context and current-context reference resolvable |
| `Kubeconfig.UnmergeKeepsResolves` | internal/spind/kubeconfig/mergefile.go:217-247 | So does unmerging |
| `Kubeconfig.AlwaysResolves` | internal/spind/kubeconfig/mergefile.go:191-247 | And so does any sequence of both |
| `KubeconfigLock.StepKeepsInv` | internal/spind/kubeconfig/mergefile.go:249-263 | Every step of any number of processes keeps exclusion and serial order |
| `KubeconfigLock.NoLostUpdate` | internal/spind/kubeconfig/mergefile.go:191-319 | After every run the file equals the successful operations applied one by one in lock order; reports agree with it |
| `KubeconfigLock.OnlyHolderRemovesLock` | internal/spind/kubeconfig/mergefile.go:249-263 | The lock file is only removed by its holder, while nobody else holds it |
| `KubeconfigLock.OnlyHolderWrites` | internal/spind/kubeconfig/mergefile.go:283-319 | Only a rename by the holder changes the file, to its operation applied to what the file says now |
| `KubeconfigLock.SkippedOnlyWithoutFile` | internal/spind/kubeconfig/mergefile.go:217-225 | Success without the lock is reported only by an unmerge that found no file |
| `KubeconfigLock.FreeLockIsEnough` | internal/spind/kubeconfig/mergefile.go:191-263 | When nobody has the lock, a process can go through with its operation by its own steps, reports truly, and leaves the lock free |
| `KubeconfigLock.HolderCanLetGo` | internal/spind/kubeconfig/mergefile.go:249-263 | A process that has the lock and is not killed can always give it back by its own steps |
| `KubeconfigLock.FileAlwaysResolves` | internal/spind/kubeconfig/mergefile.go:191-263 | References in the file resolve at every step of every interleaving |
| `GuestHandoff.StepKeepsBalance` | swift/spind-vz/main.swift:624-647 | Queue length equals semaphore count plus appended-not-signalled producers plus woken-not-removed clients, for any number of both |
| `GuestHandoff.StepKeepsInv` | swift/spind-vz/main.swift:624-647 | Together with mutual exclusion, order of arrival and one client per connection |
| `GuestHandoff.NoVainWakeup` | swift/spind-vz/main.swift:636-647 | In every run a woken client finds a connection: the retry branch is never taken |
| `GuestHandoff.ServedInOrder` | swift/spind-vz/main.swift:624-647 | In every run connections leave in order of arrival, each to exactly one client |
| `GuestHandoff.StuckMeansServed` | swift/spind-vz/main.swift:624-647 | When nothing can move, all guests are queued and signalled and no client waits beside a queued connection |
| `GuestHandoff.RunsAreBounded` | swift/spind-vz/main.swift:624-647 | Every run is as long as the steps it uses up, so that each comes to such an end |
| `ShellQuoting.EncodeDecoded` | internal/spind/vm/start/exec.go:193-199 | Ranging over a string and appending the rune gives back its bytes, or the replacement character for a malformed byte |
| `ShellQuoting.DecodeEncoded` | internal/spind/vm/start/exec.go:193-199 | Every code point that has an encoding is read back from it, whatever follows |
| `ShellQuoting.MalformedIff` | internal/spind/vm/start/exec.go:193-199 | A byte counts as malformed exactly when no code point is encoded there |
| `ShellQuoting.ShellQuote` | internal/spind/vm/start/exec.go:188-201 | The rune loop computes: safe text as it is, else the repaired text between quotes with quotes escaped |
| `ShellQuoting.BareIff` | internal/spind/vm/start/exec.go:21 | An argument goes out bare exactly when it has only letters, digits and _ @ % + = : , . / - and is not empty |
| `ShellQuoting.ShellCommand` | internal/spind/vm/start/exec.go:180-186 | The arguments quoted one by one, a space between |
| `ShellQuoting.CommandReadsBackIff` | internal/spind/vm/start/exec.go:180-201 | A POSIX shell, in which operators, expansions, patterns, control characters and non-ASCII bytes are read only when quoted (Shell Command Language 2.2, 2.2.1, 2.2.2), reads back exactly the arguments exactly when all are well-formed UTF-8, and else the repaired ones |
| `ShellQuoting.LatinNameIsChanged` | internal/spind/vm/start/exec.go:193-199 | A Latin-1 file name arrives as another name |
| `ShellQuoting.PosixReadsBack` | internal/spind/up/run.go:185-187 | A POSIX shell reads the printed value back, whatever bytes are in it |
| `ShellQuoting.FishReadsBack` | internal/spind/up/run.go:189-193 | So does fish, under its single-quote rules |
| `Connect.LineParsesBack` | internal/agent/tcpforward/tcpforward.go:45-55 | The printed CONNECT line parses back to the port exactly for 1 to 65535 |
| `Connect.VsockLineReads` | internal/spind/backend/cloudhypervisor/api.go:110-113 | The line to the hypervisor is two words, CONNECT and the port, and a newline |
| `Connect.AcceptsVsockIff` | internal/spind/backend/cloudhypervisor/api.go:119-123 | Accepting is OK, alone or with a space behind it, letter by letter |
| `Connect.TowardsGuest` | internal/agent/tcpforward/tcpforward.go:22-43 | The agent dials the printed port and passes on exactly what follows the line |
| `Connect.TowardsHost` | internal/spind/docker/relay.go:175-188 | The host has exactly what follows both replies |
| `Connect.BufferedConn.ReadLine` | internal/spind/backend/cloudhypervisor/api.go:114-120 | Cuts the stream behind its first newline, however the bytes come in; nothing is lost or read twice |
| `Connect.BufferedConn.Read` | internal/spind/backend/cloudhypervisor/api.go:128-135 | Hands out the stream in order, buffered bytes first |
| `Connect.DialVsock` | internal/spind/backend/cloudhypervisor/api.go:101-126 | Writes the one line; succeeds exactly when it goes out whole and the reply accepts, with all the rest still to be read |
| `Connect.DialGuest` | internal/spind/docker/relay.go:157-189 | The same for the second handshake on the same connection, exactly when OK follows |
| `Connect.DialThroughHypervisor` | internal/spind/docker/relay.go:157-189 | Both in a row: succeeds exactly when both lines go out and both replies accept; what is left to read is what the guest sent behind them |
| `Connect.HandleConnection` | internal/agent/tcpforward/tcpforward.go:22-43 | The agent answers exactly a line it accepts for a target it reaches, and relays from the same buffer |
| `PortRelay.PublishedPortsRaw` | internal/spind/docker/ports.go:19-41 | The published TCP ports, each once, ascending |
| `PortRelay.CountsIff` | internal/spind/docker/ports.go:29-34 | A port counts if it is published and its type is tcp in any case of the letters |
| `PortRelay.AscendingIsUnique` | internal/spind/docker/ports.go:32-41 | There is only one such list, whatever the order of the map |
| `PortRelay.Relay.Reconcile` | internal/spind/docker/relay.go:114-136 | Open listeners are exactly those in the map, each is closed at most once, wanted ports keep theirs; every wanted port without one was refused by Listen in this round, and refusals are of wanted ports without a listener only |
| `PortRelay.Relay.CloseAll` | internal/spind/docker/relay.go:191-196 | None stays open |
| `PortRelay.Relay.Run` | internal/spind/docker/relay.go:98-112 | After any rounds every listener ever opened has been closed exactly once |
| `PortRelay.ListensOnWantedIff` | internal/spind/docker/relay.go:114-136 | A round listens on a subset of the wanted ports, on all exactly when Listen refused none |
| `PortRelay.KeptWhileWanted` | internal/spind/docker/relay.go:114-136 | A port wanted in consecutive rounds keeps the same listener |
| `PortRelay.DroppedForGood` | internal/spind/docker/relay.go:128-135 | The listener of a port no longer wanted is closed and never open again |
| `KernelCommandLine.EnsureCommaListValue` | internal/spind/vm/start/manager.go:1510-1524 | The loop computes the specified field |
| `KernelCommandLine.ValueIsEnsured` | internal/spind/vm/start/manager.go:1510-1524 | The value is listed afterwards, the key is kept, and doing it again changes nothing |
| `KernelCommandLine.CloudHypervisorKernelCommandLine` | internal/spind/vm/start/manager.go:1482-1508 | The loop computes the specified normal form |
| `KernelCommandLine.OtherFieldsKept` | internal/spind/vm/start/manager.go:1490-1508 | All fields but those for console, root, rw, ro, the network markers and modules are kept as they are and in order |
| `KernelCommandLine.NormalFormSets` | internal/spind/vm/start/manager.go:1490-1508 | The five fixed settings stand in front, nothing behind them sets one of those parameters again, and modules is set and lists virtio_net |
| `KernelCommandLine.ModulesListDriver` | internal/spind/vm/start/manager.go:1499-1507 | There is a modules field and every one lists virtio_net |
| `KernelCommandLine.SecondPassIsHarmlessIff` | internal/spind/vm/start/snapshot.go:323-328 | The second pass through a snapshot changes nothing exactly when the command line was not blank (or the image brings its own) |
| `KernelCommandLine.BlankIsNotStable` | internal/spind/vm/start/manager.go:1482-1489 | A blank command line becomes the default, which the second pass changes |
| `KernelCommandLine.KeySurvivesSecondPassIff` | internal/spind/vm/start/manager.go:1474-1508 | With the authorized key appended too, exactly when its field is none that the normal form sets or rewrites |
| `ProjectUp.Host.Provision` | internal/spind/up/run.go:195-234 | Changes only the provisioning VM and the snapshot; success means an owned snapshot of a VM in which every setup command ran once and in order, and that VM gone; it fails only when a call does or a name is taken |
| `ProjectUp.Host.Up` | internal/spind/up/run.go:61-139 | With a conflict nothing changes; success means an owned snapshot and an owned, started work VM made from it; where no call fails it succeeds exactly without a conflict; what a failure leaves is no conflict for the next attempt, unless a creation, removal or marking failed halfway |
| `ProjectUp.OwnershipIsRespected` | internal/spind/up/run.go:394-437 | Whichever step fails, what the project does not own is as it was |
| `ProjectUp.OthersSurviveRuns` | internal/spind/up/run.go:61-139 | However many projects are brought up, in whatever names they collide, objects of no project among them survive unchanged |
| `ProjectUp.SecondUpIsQuiet` | internal/spind/up/run.go:61-139 | A second plain up creates and deletes nothing |
| `ProjectUp.BothUpMeansDistinct` | internal/spind/up/run.go:439-444 | Two projects that are both up share no VM or snapshot; the first can be brought up again exactly if the second has not taken the free name of its provisioning VM |

## Left out

- Command-line wiring, tables and JSON output, doctor checks, image building and template discovery: they would only add easy members.
- SSH, HTTP, vsock sockets, Virtualization.framework, docker, kubectl, debugfs, passt and virtiofsd: foreign calls, kept as success or failure, with or without their effect.
- Helper processes (passt, virtiofsd, docker and Kubernetes endpoints): claims are about hypervisor processes only; failing to open the VMM log leaves helpers of a start running.
- Parsing YAML and JSON text: documents and trees are parsed already; fields that are never looked at are kept as maps of strings.
- Wall-clock timeouts, retry sleeps, EINTR and reads that return nothing without an end: a wait ends at any time, a read makes progress or ends.
- The two closes in `closeBoth` are one step, and so is each iteration of a copy worker's read or write call; everything between them interleaves.
- Aliasing inside JSON trees: the rewrite works on values, which the source's trees without shared parts allow.
- The two Go copies of the data/hole loop (`filecopy` and `diskimage`) are one method here, over an input range and an output position.
- Disk paths and directories are taken as `filepath.Join` leaves them, and disk names as ordinary file names.
- Which word of a command line a shell takes as an assignment, a reserved word or an alias: quoting is about words. An unquoted first argument such as `A=b` is still read as the word it is.
- Non-ASCII blanks in a CONNECT line, and Go strings in a kernel command line that are not UTF-8.
- The size of bufio's buffer, but for where reads go past it.
- Concurrent `spind` commands on one VM, reuse of process numbers, and a client killed in the middle of a call: the source makes no claim there. A killed kubeconfig process is modelled; the lock file it leaves is never removed.
- `setup` commands of a project are taken to act on the provisioning VM only.
- A snapshot's kernel, initramfs and SSH keys are copied together with its disks; that the process is paused or dead then is proved, what a guest could write otherwise is not modelled.
- A snapshot whose metadata lists no disks: the default disk is put in by the caller.
- RemoveAll of a VM directory and of a snapshot directory may fail halfway in the lifecycle and in `up`; in `LinkedDisks` removal is all or nothing.
- SparseCopy.Directory.Copy: file modes and fsync are left out, because contents are the point; the clone is Linux's.
- Lifecycle.Host.Start: requirement checks and the preparations before a process is spawned are one step that may fail, because they leave nothing behind that the model speaks about.
