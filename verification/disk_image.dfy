// Disk images with one Linux partition: the MBR that describes it (section 5.2.1 of the UEFI
// Specification), the writer and the reader of that MBR, and taking the partition out of the image
// and putting it back.
module DiskImage {
  import opened Bytes
  import opened Files
  import opened SparseCopy

  const SECTOR_SIZE := 512
  const DEFAULT_START_SECTOR := 2048
  const LINUX_PARTITION_TYPE: Byte := 0x83
  const ENTRY := 446
  const UINT32 := 0x1_0000_0000

  type Uint32 = n: int | 0 <= n < UINT32

  datatype Partition = Partition(start: nat, size: nat)

  datatype PartitionResult = Found(partition: Partition) | ReadFailed | NoSignature | EmptyEntry | InvalidBounds

  function LittleEndian32(n: Uint32): (b: seq<Byte>)
    ensures |b| == 4
  {
    [n % 256, n / 256 % 256, n / 256 / 256 % 256, n / 256 / 256 / 256]
  }

  function FromLittleEndian32(b: seq<Byte>): (n: Uint32)
    requires |b| == 4
  {
    b[0] as int + 256 * (b[1] as int + 256 * (b[2] as int + 256 * b[3] as int))
  }

  lemma LittleEndianRoundTrip(n: Uint32)
    ensures FromLittleEndian32(LittleEndian32(n)) == n
  {
    var high := n / 256 / 256;
    assert high == high / 256 * 256 + high % 256;
    assert n / 256 == high * 256 + n / 256 % 256;
    assert n == n / 256 * 256 + n % 256;
  }

  /** The 16 octets that describe the first partition. */
  function Entry(startSector: Uint32, sectors: Uint32): (e: seq<Byte>)
    ensures |e| == 16
  {
    [0, 0x00, 0x02, 0x00, LINUX_PARTITION_TYPE, 0xfe, 0xff, 0xff] + LittleEndian32(startSector) + LittleEndian32(sectors)
  }

  function Mbr(startSector: Uint32, sectors: Uint32): (m: seq<Byte>)
    ensures |m| == SECTOR_SIZE
  {
    Zeros(ENTRY) + Entry(startSector, sectors) + Zeros(48) + [0x55, 0xaa]
  }

  /** The sector octet by octet: an empty boot area, one entry that is not bootable and has Linux's type,
      start and count in little-endian order, three empty entries, and the signature. */
  lemma MbrLayout(startSector: Uint32, sectors: Uint32)
    ensures var m := Mbr(startSector, sectors);
            && |m| == 512 && (forall i :: 0 <= i <= 446 || 462 <= i < 510 ==> m[i] == 0)
            && m[447] == 0 && m[448] == 2 && m[449] == 0 && m[450] == 0x83 && m[451] == 0xfe && m[452] == 0xff && m[453] == 0xff
            && m[454] as int + 256 * m[455] as int + 65536 * m[456] as int + 16777216 * m[457] as int == startSector
            && m[458] as int + 256 * m[459] as int + 65536 * m[460] as int + 16777216 * m[461] as int == sectors
            && m[510] == 0x55 && m[511] == 0xaa
    ensures StartSector(0) == 2048 && (startSector != 0 ==> StartSector(startSector) == startSector)
  {
    LittleEndianRoundTrip(startSector);
    LittleEndianRoundTrip(sectors);
    hide LittleEndian32;
    var m, e := Mbr(startSector, sectors), Entry(startSector, sectors);
    assert forall i :: 0 <= i < 16 ==> m[446 + i] == e[i];
    assert m[454] == e[8] && m[455] == e[9] && m[456] == e[10] && m[457] == e[11];
    assert m[458] == e[12] && m[459] == e[13] && m[460] == e[14] && m[461] == e[15];
  }

  /** What the reader makes of the first sector. */
  function ParseMbr(m: seq<Byte>): PartitionResult
    requires |m| == SECTOR_SIZE
  {
    if m[510] != 0x55 || m[511] != 0xaa then NoSignature
    else if m[ENTRY + 4] == 0 then EmptyEntry
    else
      var startSector := FromLittleEndian32(m[ENTRY + 8..ENTRY + 12]);
      var sectors := FromLittleEndian32(m[ENTRY + 12..ENTRY + 16]);
      if startSector == 0 || sectors == 0 then InvalidBounds
      else Found(Partition(startSector * SECTOR_SIZE, sectors * SECTOR_SIZE))
  }

  /** For every sector, octet by octet: no signature, no entry, an entry without start or size, or one. */
  lemma ParseIs(m: seq<Byte>)
    requires |m| == 512
    ensures var start := m[454] as int + 256 * m[455] as int + 65536 * m[456] as int + 16777216 * m[457] as int;
            var count := m[458] as int + 256 * m[459] as int + 65536 * m[460] as int + 16777216 * m[461] as int;
            ParseMbr(m) ==
              if m[510] != 0x55 || m[511] != 0xaa then NoSignature
              else if m[450] == 0 then EmptyEntry
              else if start == 0 || count == 0 then InvalidBounds
              else Found(Partition(start * 512, count * 512))
  {
    assert m[454..458] == [m[454], m[455], m[456], m[457]];
    assert m[458..462] == [m[458], m[459], m[460], m[461]];
  }

  /** What the reader makes of a whole image. */
  function PartitionOf(disk: seq<Byte>): PartitionResult {
    if |disk| < SECTOR_SIZE then ReadFailed else ParseMbr(disk[..SECTOR_SIZE])
  }

  lemma ParseWrittenMbr(startSector: Uint32, sectors: Uint32)
    requires startSector != 0
    ensures ParseMbr(Mbr(startSector, sectors))
         == if sectors == 0 then InvalidBounds else Found(Partition(startSector * SECTOR_SIZE, sectors * SECTOR_SIZE))
  {
    var m := Mbr(startSector, sectors);
    assert m[ENTRY + 8..ENTRY + 12] == LittleEndian32(startSector);
    assert m[ENTRY + 12..ENTRY + 16] == LittleEndian32(sectors);
    LittleEndianRoundTrip(startSector);
    LittleEndianRoundTrip(sectors);
  }

  /** The sector the partition starts at; zero asks for the default. */
  function StartSector(requested: Uint32): (s: Uint32)
    ensures s != 0
  {
    if requested == 0 then DEFAULT_START_SECTOR else requested
  }

  /** How many whole sectors fit after the start, before the conversion to 32 bits. */
  function Capacity(diskSize: nat, startSector: Uint32): nat
    requires startSector * SECTOR_SIZE <= diskSize
  {
    (diskSize - startSector * SECTOR_SIZE) / SECTOR_SIZE
  }

  /** The writer accepts these sizes and no others. */
  predicate Accepted(rootfs: seq<Byte>, diskSize: nat, startSector: Uint32) {
    startSector * SECTOR_SIZE < diskSize && |rootfs| <= diskSize - startSector * SECTOR_SIZE
  }

  /** The image the writer makes: zeros, the MBR in the first sector, the file system after it. */
  function DiskOf(rootfs: seq<Byte>, diskSize: nat, startSector: Uint32): (disk: seq<Byte>)
    requires startSector != 0 && Accepted(rootfs, diskSize, startSector)
    ensures |disk| == diskSize
  {
    Overlay(Overlay(Zeros(diskSize), 0, Mbr(startSector, Capacity(diskSize, startSector) % UINT32)),
            startSector * SECTOR_SIZE, rootfs)
  }

  /** The file system never reaches into the first sector, nor the MBR into the partition. */
  lemma DiskParts(rootfs: seq<Byte>, diskSize: nat, startSector: Uint32)
    requires startSector != 0 && Accepted(rootfs, diskSize, startSector)
    ensures var disk := DiskOf(rootfs, diskSize, startSector);
            && disk[..SECTOR_SIZE] == Mbr(startSector, Capacity(diskSize, startSector) % UINT32)
            && forall i {:trigger disk[i]} :: startSector * SECTOR_SIZE <= i < diskSize ==>
                 disk[i] == if i - startSector * SECTOR_SIZE < |rootfs| then rootfs[i - startSector * SECTOR_SIZE] else 0
  {
    hide Mbr;
  }

  /** The reader finds what the writer was asked for exactly when the sector count is between 1 and
      2^32 - 1. Beyond that the count wraps around: the reader sees a smaller partition, or none. */
  lemma PartitionRoundTrip(rootfs: seq<Byte>, diskSize: nat, startSector: Uint32)
    requires startSector != 0 && Accepted(rootfs, diskSize, startSector)
    ensures var found := PartitionOf(DiskOf(rootfs, diskSize, startSector));
            var sectors := Capacity(diskSize, startSector);
            && (found == Found(Partition(startSector * SECTOR_SIZE, sectors * SECTOR_SIZE)) <==> 1 <= sectors < UINT32)
            && (sectors % UINT32 == 0 ==> found == InvalidBounds)
            && (sectors % UINT32 != 0 ==> found == Found(Partition(startSector * SECTOR_SIZE, sectors % UINT32 * SECTOR_SIZE)))
  {
    hide DiskOf, ParseMbr, Mbr;
    DiskParts(rootfs, diskSize, startSector);
    ParseWrittenMbr(startSector, Capacity(diskSize, startSector) % UINT32);
  }

  /** An image on which it does: one sector more than 2^32 after the start is recorded as one sector. */
  lemma SectorCountWraps()
    ensures var diskSize := (UINT32 + 2) * SECTOR_SIZE;
            && Accepted([], diskSize, 1) && Capacity(diskSize, 1) == UINT32 + 1
            && PartitionOf(DiskOf([], diskSize, 1)) == Found(Partition(SECTOR_SIZE, SECTOR_SIZE))
  {
    hide DiskOf, PartitionOf;
    PartitionRoundTrip([], (UINT32 + 2) * SECTOR_SIZE, 1);
  }

  /** The partition found on a written image lies inside it, and taking it out gives the file system
      padded with zeros, cut off where the partition ends: nothing is lost exactly when the file system
      is no longer than the whole sectors counted, modulo 2^32, after the start. */
  lemma PartitionHoldsRootfs(rootfs: seq<Byte>, diskSize: nat, startSector: Uint32, p: Partition)
    requires startSector != 0 && Accepted(rootfs, diskSize, startSector)
    requires PartitionOf(DiskOf(rootfs, diskSize, startSector)) == Found(p)
    ensures p.start + p.size <= diskSize
    ensures Dense(DiskOf(rootfs, diskSize, startSector), p.start, p.size) == Dense(rootfs, 0, p.size)
    ensures rootfs <= Dense(DiskOf(rootfs, diskSize, startSector), p.start, p.size) <==>
              |rootfs| <= (diskSize - startSector * SECTOR_SIZE) / SECTOR_SIZE % UINT32 * SECTOR_SIZE
  {
    hide Mbr, ParseMbr, DiskOf;
    PartitionRoundTrip(rootfs, diskSize, startSector);
    DiskParts(rootfs, diskSize, startSector);
    var sectors := Capacity(diskSize, startSector);
    assert sectors * SECTOR_SIZE <= diskSize - startSector * SECTOR_SIZE;
    assert sectors % UINT32 <= sectors;
  }

  /** The writer's own size check lets a file system through that reaches into the last, partial
      sector of the image, outside the partition it records. */
  lemma PartialSectorIsLost()
    ensures var rootfs := Zeros(512) + [7];
            && Accepted(rootfs, 1025, 1)
            && PartitionOf(DiskOf(rootfs, 1025, 1)) == Found(Partition(512, 512))
            && !(rootfs <= Dense(DiskOf(rootfs, 1025, 1), 512, 512))
  {
    var rootfs := Zeros(512) + [7];
    assert Capacity(1025, 1) == 1;
    PartitionRoundTrip(rootfs, 1025, 1);
    PartitionHoldsRootfs(rootfs, 1025, 1, Partition(512, 512));
  }

  // ---- The operations ----

  /** Fills the first sector in place. */
  method BuildMbr(startSector: Uint32, sectors: Uint32) returns (mbr: array<Byte>)
    ensures fresh(mbr) && mbr[..] == Mbr(startSector, sectors)
  {
    hide LittleEndian32;
    mbr := new Byte[SECTOR_SIZE](_ => 0);
    mbr[ENTRY + 4] := LINUX_PARTITION_TYPE;
    mbr[ENTRY + 1], mbr[ENTRY + 2], mbr[ENTRY + 3] := 0x00, 0x02, 0x00;
    mbr[ENTRY + 5], mbr[ENTRY + 6], mbr[ENTRY + 7] := 0xfe, 0xff, 0xff;
    PutLittleEndian32(mbr, ENTRY + 8, startSector);
    PutLittleEndian32(mbr, ENTRY + 12, sectors);
    mbr[510], mbr[511] := 0x55, 0xaa;
    MbrFromParts(mbr[..], startSector, sectors);
  }

  lemma MbrFromParts(m: seq<Byte>, startSector: Uint32, sectors: Uint32)
    requires |m| == SECTOR_SIZE
    requires forall i :: 0 <= i <= ENTRY || ENTRY + 16 <= i < 510 ==> m[i] == 0
    requires m[ENTRY + 1] == 0x00 && m[ENTRY + 2] == 0x02 && m[ENTRY + 3] == 0x00
    requires m[ENTRY + 4] == LINUX_PARTITION_TYPE
    requires m[ENTRY + 5] == 0xfe && m[ENTRY + 6] == 0xff && m[ENTRY + 7] == 0xff
    requires forall i :: 0 <= i < 4 ==> m[ENTRY + 8 + i] == LittleEndian32(startSector)[i]
    requires forall i :: 0 <= i < 4 ==> m[ENTRY + 12 + i] == LittleEndian32(sectors)[i]
    requires m[510] == 0x55 && m[511] == 0xaa
    ensures m == Mbr(startSector, sectors)
  {
    hide LittleEndian32;
    assert m[ENTRY + 8..ENTRY + 12] == LittleEndian32(startSector);
    assert m[ENTRY + 12..ENTRY + 16] == LittleEndian32(sectors);
    assert m[..ENTRY] == Zeros(ENTRY);
    assert m[ENTRY + 16..510] == Zeros(48);
    assert m[ENTRY..ENTRY + 16] == Entry(startSector, sectors);
    assert m == m[..ENTRY] + m[ENTRY..ENTRY + 16] + m[ENTRY + 16..510] + m[510..];
  }

  method PutLittleEndian32(a: array<Byte>, at: nat, n: Uint32)
    requires at + 4 <= a.Length
    modifies a
    ensures forall i :: 0 <= i < 4 ==> a[at + i] == LittleEndian32(n)[i]
    ensures forall i :: 0 <= i < a.Length && !(at <= i < at + 4) ==> a[i] == old(a[i])
  {
    var b := LittleEndian32(n);
    a[at], a[at + 1], a[at + 2], a[at + 3] := b[0], b[1], b[2], b[3];
  }

  /** Writes a partitioned image. It fails on sizes it does not accept; when it succeeds the image is
      exactly the specified one, whether or not the sparse copy gave up on the way. `reliable` says
      whether every call on the image succeeds; then only the sizes decide. */
  method CreateMBRDisk(rootfs: File, diskSize: nat, requested: Uint32, reliable: bool) returns (disk: File?, ok: bool)
    requires rootfs.Valid()
    modifies rootfs`pos, rootfs`probes
    ensures ok ==> Accepted(rootfs.content, diskSize, StartSector(requested))
    ensures reliable && rootfs.reliable ==> (ok <==> Accepted(rootfs.content, diskSize, StartSector(requested)))
    ensures ok ==> disk != null && fresh(disk)
    ensures ok ==> disk.content == DiskOf(rootfs.content, diskSize, StartSector(requested))
  {
    hide Overlay, WriteAt, Dense, AllZero, Mbr;
    disk := null;
    var startSector := StartSector(requested);
    var start := startSector * SECTOR_SIZE;
    if diskSize <= start {
      return null, false;
    }
    if |rootfs.content| > diskSize - start {
      return null, false;
    }
    var sectors := (diskSize - start) / SECTOR_SIZE % UINT32;
    var image := new File([], [], reliable);
    ok := image.Truncate(diskSize);
    if !ok {
      return;
    }
    ZeroFile(diskSize);
    var mbr := BuildMbr(startSector, sectors);
    ok := image.Write(mbr[..]);
    if !ok {
      return;
    }
    ghost var base := Overlay(Zeros(diskSize), 0, Mbr(startSector, sectors));
    assert image.content == base;
    AfterMbrIsZero(base, diskSize, start, startSector, sectors, |rootfs.content|);
    ok := WriteRootfs(rootfs, image, start);
    if !ok {
      return;
    }
    disk := image;
  }

  lemma AfterMbrIsZero(base: seq<Byte>, diskSize: nat, start: nat, startSector: Uint32, sectors: Uint32, n: nat)
    requires SECTOR_SIZE <= start && start + n <= diskSize
    requires base == Overlay(Zeros(diskSize), 0, Mbr(startSector, sectors))
    ensures AllZero(base[start..start + n])
  {
    hide Mbr;
  }

  /** The part of the writer that fills the partition: sparse first, plain if that gives up. */
  method WriteRootfs(rootfs: File, image: File, start: nat) returns (ok: bool)
    requires rootfs != image && rootfs.Valid()
    requires start + |rootfs.content| <= |image.content|
    requires AllZero(image.content[start..start + |rootfs.content|])
    modifies rootfs`pos, rootfs`probes, image
    ensures old(rootfs.probes) <= rootfs.probes
    ensures NotSupported !in rootfs.probes[|old(rootfs.probes)|..] ==> image.zeroWrites == old(image.zeroWrites)
    ensures rootfs.reliable && image.reliable ==> ok
    ensures ok ==> image.content == Overlay(old(image.content), start, rootfs.content)
  {
    hide Overlay, WriteAt, Dense, AllZero, SameOutside, Probed, Reached;
    DenseAll(rootfs.content);
    ghost var base := image.content;
    ghost var asked := rootfs.probes;
    var outcome, answers := SparseCopyRange(rootfs, image, 0, start, |rootfs.content|);
    assert rootfs.probes[|asked|..] == answers;
    if outcome.Copied? {
      return true;
    }
    if outcome.CopyFailed? {
      return false;
    }
    ok := rootfs.SeekTo(0);
    if !ok {
      return;
    }
    ok := image.SeekTo(start);
    if !ok {
      return;
    }
    assert rootfs.content[0..] == rootfs.content;
    OverlayAgain(base, start, rootfs.content[..Reached(0, |rootfs.content|, answers)], rootfs.content);
    ok := CopyAll(image, rootfs);
  }

  /** Writing all of it over a part of it. */
  lemma OverlayAgain(base: seq<Byte>, at: nat, part: seq<Byte>, whole: seq<Byte>)
    requires |part| <= |whole| && at + |whole| <= |base|
    ensures WriteAt(Overlay(base, at, part), at, whole) == Overlay(base, at, whole)
  {
  }

  method FirstPartition(disk: File) returns (result: PartitionResult)
    modifies disk`pos
    requires disk.pos == 0
    ensures result == PartitionOf(disk.content) || (result == ReadFailed && !disk.reliable)
  {
    hide ParseMbr;
    var mbr, ok := disk.ReadFull(SECTOR_SIZE);
    if !ok || |mbr| < SECTOR_SIZE {
      return ReadFailed;
    }
    DenseInside(disk.content, 0, SECTOR_SIZE);
    return ParseMbr(mbr);
  }

  /** Takes a partition out of an image. When the sparse copy gives up, the plain loop goes on at the
      output's position instead of its start. The result is right exactly unless a probe after the
      first one for data and the first one for a hole is answered with EINVAL; of a partition that
      reaches past the end of its image, zeros may also come out right. It fails only when a call on
      the image or on the output does. */
  method CopyDiskPartition(disk: File, p: Partition, reliable: bool) returns (rootfs: File?, ok: bool)
    requires disk.Valid()
    modifies disk`pos, disk`probes
    ensures disk.reliable && reliable ==> ok
    ensures old(disk.probes) <= disk.probes
    ensures var answers := disk.probes[|old(disk.probes)|..];
            && Probed(disk.layout, p.start, p.size, answers)
            && (ok ==> rootfs != null && rootfs.content == Extraction(disk.content, disk.layout, p, answers))
            && (ok ==>
                  (rootfs.content == Dense(disk.content, p.start, p.size)
                   <==> NotSupported !in answers || |answers| <= 2
                        || (0 <= Reached(p.start, p.size, answers) && HarmlessTwice(disk.content, p, Reached(p.start, p.size, answers)))))
            && (ok && p.start + p.size <= |disk.content| ==>
                  (rootfs.content == Dense(disk.content, p.start, p.size) <==> NotSupported !in answers || |answers| <= 2))
            && (ok && NotSupported !in answers ==> rootfs.zeroWrites == 0)
  {
    hide Dense, WriteAt, Overlay, SameOutside, Probed, Reached, Section;
    ghost var asked := disk.probes;
    var out := new File([], [], reliable);
    ok := out.Truncate(p.size);
    if !ok {
      assert disk.probes[|asked|..] == [];
      NothingAsked(disk.layout, p.start, p.size);
      return null, false;
    }
    ZeroFile(p.size);
    var outcome, answers := SparseCopyRange(disk, out, p.start, 0, p.size);
    assert disk.probes[|asked|..] == answers;
    OverlayWhole(Zeros(p.size), Dense(disk.content, p.start, p.size));
    GivesUpMidwayIff(disk.layout, p.start, p.size, answers);
    if outcome.CopyFailed? {
      return null, false;
    }
    if !outcome.Copied? {
      ok := CopySection(out, disk, p.start, p.size);
      if !ok {
        return null, false;
      }
    }
    ExtractionRightIff(disk.content, disk.layout, p, answers);
    rootfs := out;
  }

  lemma ZeroFile(size: nat)
    ensures Dense([], 0, size) == Zeros(size)
    ensures AllZero(Zeros(size)[0..0 + size])
  {
  }

  lemma OverlayWhole(base: seq<Byte>, data: seq<Byte>)
    requires |data| == |base|
    ensures Overlay(base, 0, data) == data
  {
  }

  /** What comes out when the sparse copy gave up after `done` octets (0: at its first probes). */
  function Extracted(disk: seq<Byte>, p: Partition, done: nat): seq<Byte>
    requires done <= p.size
  {
    WriteAt(Overlay(Zeros(p.size), 0, Dense(disk, p.start, p.size)[..done]), done, Section(disk, p.start, p.size))
  }

  /** What comes out, by what the image's file system answered. */
  ghost function Extraction(disk: seq<Byte>, layout: seq<bool>, p: Partition, answers: seq<Seek>): seq<Byte>
    requires Probed(layout, p.start, p.size, answers)
  {
    GivesUpMidwayIff(layout, p.start, p.size, answers);
    if GaveUp(answers) then Extracted(disk, p, Reached(p.start, p.size, answers)) else Dense(disk, p.start, p.size)
  }

  lemma ExtractedFromStart(disk: seq<Byte>, p: Partition)
    ensures Extracted(disk, p, 0) == Dense(disk, p.start, p.size)
  {
    assert Dense(disk, p.start, p.size)[..0] == [];
    OverlayNothing(Zeros(p.size), 0);
    var s := Section(disk, p.start, p.size);
    assert |s| == 0 ==> Zeros(p.size) == Dense(disk, p.start, p.size);
  }

  /** An octet equals the one so much further on, or is zero where there is none. */
  predicate Shifted(s: seq<Byte>, gap: nat, i: nat)
    requires i < |s|
  {
    s[i] == if i + gap < |s| then s[i + gap] else 0
  }

  lemma {:induction false} ShiftedIsZero(s: seq<Byte>, gap: nat, i: nat)
    requires 0 < gap && i < |s| && forall j :: 0 <= j < |s| ==> Shifted(s, gap, j)
    ensures s[i] == 0
    decreases |s| - i
  {
    assert Shifted(s, gap, i);
    if i + gap < |s| {
      ShiftedIsZero(s, gap, i + gap);
    }
  }

  /** What a partition should be: what there is of it, then zeros. */
  lemma SectionAndZeros(disk: seq<Byte>, p: Partition)
    ensures var part := Section(disk, p.start, p.size);
            Dense(disk, p.start, p.size) == part + Zeros(p.size - |part|)
  {
  }

  /** A late fallback puts what there is of the partition behind the first `done` octets. */
  lemma ExtractedIs(disk: seq<Byte>, p: Partition, done: nat)
    requires 0 < done <= p.size
    ensures var part, whole := Section(disk, p.start, p.size), Dense(disk, p.start, p.size);
            if done + |part| <= p.size then Extracted(disk, p, done) == whole[..done] + part + Zeros(p.size - done - |part|)
            else |Extracted(disk, p, done)| == done + |part|
  {
    var part, whole := Section(disk, p.start, p.size), Dense(disk, p.start, p.size);
    hide Dense, Section;
    var base := Overlay(Zeros(p.size), 0, whole[..done]);
    assert base == whole[..done] + Zeros(p.size - done);
    if done + |part| <= p.size {
      assert base[..done] == whole[..done];
      assert base[done + |part|..] == Zeros(p.size - done - |part|);
      if part == [] {
        assert base == whole[..done] + part + Zeros(p.size - done - |part|);
      }
    }
  }

  lemma ExtractedRightIff(disk: seq<Byte>, p: Partition, done: nat)
    requires done <= p.size
    ensures Extracted(disk, p, done) == Dense(disk, p.start, p.size)
            <==> done == 0 || HarmlessTwice(disk, p, done)
  {
    ExtractedFromStart(disk, p);
    SectionAndZeros(disk, p);
    if 0 < done {
      ExtractedIs(disk, p, done);
      hide Extracted, Dense, Section;
      var part, whole := Section(disk, p.start, p.size), Dense(disk, p.start, p.size);
      if done + |part| <= p.size {
        TwiceIsOnceIff(part, done, p.size, whole);
      }
    }
  }

  lemma TwiceIsOnceIff(part: seq<Byte>, done: nat, size: nat, whole: seq<Byte>)
    requires 0 < done && done + |part| <= size && whole == part + Zeros(size - |part|)
    ensures whole[..done] + part + Zeros(size - done - |part|) == whole <==> AllZero(part)
  {
    var twice := whole[..done] + part + Zeros(size - done - |part|);
    if twice == whole {
      forall i | 0 <= i < |part| ensures Shifted(part, done, i) {
        assert part[i] == twice[done + i] == whole[done + i];
      }
      forall i | 0 <= i < |part| ensures part[i] == 0 {
        ShiftedIsZero(part, done, i);
      }
    }
    if AllZero(part) {
      assert forall i :: 0 <= i < size ==> whole[i] == 0 && twice[i] == 0;
    }
  }

  /** What there is of the partition is zeros, and fits twice: possible only for one that reaches past
      the end of its image. */
  predicate HarmlessTwice(disk: seq<Byte>, p: Partition, done: nat) {
    AllZero(Section(disk, p.start, p.size)) && done + |Section(disk, p.start, p.size)| <= p.size
  }

  /** For every image, layout and partition, and all answers a file system can give: the extraction is
      right exactly unless one after the first two is EINVAL, or there is nothing but zeros to double. */
  lemma ExtractionRightIff(disk: seq<Byte>, layout: seq<bool>, p: Partition, answers: seq<Seek>)
    requires Probed(layout, p.start, p.size, answers)
    ensures Extraction(disk, layout, p, answers) == Dense(disk, p.start, p.size)
            <==> NotSupported !in answers || |answers| <= 2
                 || (0 <= Reached(p.start, p.size, answers) && HarmlessTwice(disk, p, Reached(p.start, p.size, answers)))
    ensures p.start + p.size <= |disk| ==>
              (Extraction(disk, layout, p, answers) == Dense(disk, p.start, p.size)
               <==> NotSupported !in answers || |answers| <= 2)
  {
    hide Probed, Reached, Extracted, Dense, AllZero;
    GivesUpMidwayIff(layout, p.start, p.size, answers);
    if GaveUp(answers) {
      ExtractedRightIff(disk, p, Reached(p.start, p.size, answers));
    }
  }

  /** Such a one: the second sector is the partition and all data, and after it has been copied its
      file system does not know SEEK_DATA any more. The partition comes out twice. */
  lemma ExtractedTwice(disk: seq<Byte>)
    requires |disk| == 2 * SECTOR_SIZE
    ensures var layout := seq(|disk|, _ => true);
            var p := Partition(SECTOR_SIZE, SECTOR_SIZE);
            var answers := [At(SECTOR_SIZE), At(2 * SECTOR_SIZE), NotSupported];
            && Probed(layout, p.start, p.size, answers)
            && Extraction(disk, layout, p, answers) == disk[SECTOR_SIZE..] + disk[SECTOR_SIZE..]
            && Extraction(disk, layout, p, answers) != Dense(disk, p.start, p.size)
  {
    var layout, p := seq(|disk|, _ => true), Partition(SECTOR_SIZE, SECTOR_SIZE);
    var answers := [At(SECTOR_SIZE), At(2 * SECTOR_SIZE), NotSupported];
    assert forall k :: 0 <= k < 3 ==> ProbedAt(layout, p.start, p.size, answers, k);
    ExtractionRightIff(disk, layout, p, answers);
    var part := disk[SECTOR_SIZE..];
    assert Dense(disk, p.start, p.size) == part && part[..SECTOR_SIZE] == part;
    OverlayWhole(Zeros(p.size), part);
  }

  /** Puts a file system back. Whether or not it succeeds, no octet outside the partition changes. A
      partition that reaches past the end of the image makes the image grow. */
  method WriteDiskPartition(disk: File, rootfs: File, p: Partition) returns (ok: bool)
    requires disk != rootfs && rootfs.pos == 0
    modifies disk, rootfs`pos
    ensures |rootfs.content| > p.size ==> !ok && disk.content == old(disk.content)
    ensures disk.reliable && rootfs.reliable && |rootfs.content| <= p.size ==> ok
    ensures ok ==> disk.content == WriteAt(old(disk.content), p.start, rootfs.content)
    ensures GrownOutside(old(disk.content), disk.content, p.start, p.size)
    ensures p.start + p.size <= |old(disk.content)| ==> SameOutside(old(disk.content), disk.content, p.start, p.size)
  {
    hide WriteAt;
    if |rootfs.content| > p.size {
      return false;
    }
    ok := disk.SeekTo(p.start);
    if !ok {
      return;
    }
    ghost var base := disk.content;
    assert rootfs.content[0..] == rootfs.content;
    ok := CopyAll(disk, rootfs);
    ghost var k :| 0 <= k <= |rootfs.content| && disk.content == WriteAt(base, p.start, rootfs.content[..k]);
    WriteIsInside(base, p.start, rootfs.content[..k], p.size);
  }

  /** Contents that differ at most within `length` octets from `at`, may have grown up to there, and
      are zero where they grew before `at`. */
  predicate GrownOutside(a: seq<Byte>, b: seq<Byte>, at: nat, length: nat) {
    && |a| <= |b| && (|a| < |b| ==> |b| <= at + length)
    && (forall i :: 0 <= i < |a| && !(at <= i < at + length) ==> b[i] == a[i])
    && (forall i :: |a| <= i < at && i < |b| ==> b[i] == 0)
  }

  lemma WriteIsInside(base: seq<Byte>, at: nat, data: seq<Byte>, length: nat)
    requires |data| <= length
    ensures GrownOutside(base, WriteAt(base, at, data), at, length)
    ensures at + length <= |base| ==> SameOutside(base, WriteAt(base, at, data), at, length)
  {
  }

  /** Taking a partition out and putting it back changes nothing; putting another file system in
      leaves the partition table readable as before, and taking it out again gives that file system
      followed by what was there. */
  lemma WriteBackRoundTrip(disk: seq<Byte>, p: Partition, rootfs: seq<Byte>)
    requires PartitionOf(disk) == Found(p) && p.start + p.size <= |disk| && |rootfs| <= p.size
    ensures Overlay(disk, p.start, Dense(disk, p.start, p.size)) == disk
    ensures var written := Overlay(disk, p.start, rootfs);
            && PartitionOf(written) == Found(p)
            && Dense(written, p.start, p.size) == rootfs + Dense(disk, p.start, p.size)[|rootfs|..]
  {
    var written := Overlay(disk, p.start, rootfs);
    StartIsAfterMbr(disk, p);
    hide ParseMbr;
    assert written[..SECTOR_SIZE] == disk[..SECTOR_SIZE];
  }

  lemma StartIsAfterMbr(disk: seq<Byte>, p: Partition)
    requires PartitionOf(disk) == Found(p)
    ensures SECTOR_SIZE <= p.start
  {
  }
}
