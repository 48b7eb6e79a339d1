// Files as the copying code sees them: contents, a position, and the data/hole layout that
// SEEK_DATA and SEEK_HOLE report. Every call may fail.
module Files {
  import opened Bytes

  predicate AllZero(s: seq<Byte>) { forall i :: 0 <= i < |s| ==> s[i] == 0 }

  /** `size` octets of `s` from `start` on; past the end of `s` they read as zero. */
  function Dense(s: seq<Byte>, start: nat, size: nat): (d: seq<Byte>)
    ensures |d| == size
  {
    seq(size, i requires 0 <= i < size => if start + i < |s| then s[start + i] else 0)
  }

  /** `base` with `data` in place of what was at `at`. */
  function Overlay(base: seq<Byte>, at: nat, data: seq<Byte>): (r: seq<Byte>)
    requires at + |data| <= |base|
    ensures |r| == |base|
  {
    base[..at] + data + base[at + |data|..]
  }

  /** A write at `at`: past the end the file grows, and a gap reads as zero. */
  function WriteAt(base: seq<Byte>, at: nat, data: seq<Byte>): (r: seq<Byte>)
    ensures at + |data| <= |base| ==> r == Overlay(base, at, data)
  {
    if data == [] then base
    else if at + |data| <= |base| then Overlay(base, at, data)
    else if at <= |base| then base[..at] + data
    else base + Zeros(at - |base|) + data
  }

  /** Part of a dense copy is a dense copy of the part. */
  lemma DensePart(s: seq<Byte>, start: nat, size: nat, from: nat, upto: nat)
    requires from <= upto <= size
    ensures Dense(s, start + from, upto - from) == Dense(s, start, size)[from..upto]
  {
  }

  lemma DenseInside(s: seq<Byte>, start: nat, size: nat)
    requires start + size <= |s|
    ensures Dense(s, start, size) == s[start..start + size]
  {
  }

  lemma WriteNothing(base: seq<Byte>, at: nat)
    ensures WriteAt(base, at, []) == base
  {
  }

  lemma DenseAll(s: seq<Byte>)
    ensures Dense(s, 0, |s|) == s
  {
  }

  lemma OverlayNothing(base: seq<Byte>, at: nat)
    requires at <= |base|
    ensures Overlay(base, at, []) == base
  {
  }

  lemma OverlayMore(base: seq<Byte>, at: nat, d: seq<Byte>, e: seq<Byte>)
    requires at + |d| + |e| <= |base|
    ensures Overlay(Overlay(base, at, d), at + |d|, e) == Overlay(base, at, d + e)
  {
  }

  /** Leaving zeros alone is writing zeros. */
  lemma OverlaySkip(base: seq<Byte>, at: nat, d: seq<Byte>, e: seq<Byte>)
    requires at + |d| + |e| <= |base|
    requires AllZero(e) && AllZero(base[at + |d|..at + |d| + |e|])
    ensures Overlay(base, at, d) == Overlay(base, at, d + e)
  {
    var l, r := Overlay(base, at, d), Overlay(base, at, d + e);
    forall i | 0 <= i < |base|
      ensures l[i] == r[i]
    {
      if at + |d| <= i < at + |d| + |e| {
        assert base[i] == base[at + |d|..at + |d| + |e|][i - at - |d|];
        assert (d + e)[i - at] == e[i - at - |d|];
      }
    }
  }

  /** Writing piece by piece is writing at once. */
  lemma WriteAtMore(base: seq<Byte>, at: nat, d: seq<Byte>, e: seq<Byte>)
    ensures WriteAt(WriteAt(base, at, d), at + |d|, e) == WriteAt(base, at, d + e)
  {
    if d == [] {
      assert d + e == e;
    } else if e == [] {
      assert d + e == d;
    } else {
      var l, r := WriteAt(WriteAt(base, at, d), at + |d|, e), WriteAt(base, at, d + e);
      assert |l| == |r| && forall i :: 0 <= i < |l| ==> l[i] == r[i];
    }
  }

  datatype Seek = At(offset: nat) | Beyond | NotSupported | SeekFailed

  /** Holes read as zeros. Data may be zeros too: a file system may report any such layout. */
  predicate LayoutFits(content: seq<Byte>, layout: seq<bool>) {
    |layout| == |content| && forall i :: 0 <= i < |content| && !layout[i] ==> content[i] == 0
  }

  /** ENXIO (`Beyond`) means that there is no data at or after `offset`. */
  predicate DataAnswer(layout: seq<bool>, offset: nat, r: Seek) {
    && (r.At? ==> offset <= r.offset < |layout| && layout[r.offset] && forall i :: offset <= i < r.offset ==> !layout[i])
    && (r.Beyond? ==> forall i :: offset <= i < |layout| ==> !layout[i])
  }

  /** The end of the file counts as a hole; at or after it the call gives ENXIO. */
  predicate HoleAnswer(layout: seq<bool>, offset: nat, r: Seek) {
    && (r.At? ==> offset <= r.offset <= |layout| && (r.offset < |layout| ==> !layout[r.offset]) && forall i :: offset <= i < r.offset ==> layout[i])
    && (r.Beyond? ==> |layout| <= offset)
  }

  class File {
    var content: seq<Byte>
    var pos: nat
    /** What the file system reports as data; everything else is a hole. */
    var layout: seq<bool>
    /** What SEEK_DATA and SEEK_HOLE have answered so far. */
    ghost var probes: seq<Seek>
    /** How often nothing but zeros was written to it. */
    var zeroWrites: nat

    /** Whether every call on it succeeds. */
    const reliable: bool

    constructor (content: seq<Byte>, layout: seq<bool>, reliable: bool)
      requires |layout| == |content|
      requires forall i :: 0 <= i < |content| && !layout[i] ==> content[i] == 0
      ensures Valid() && this.content == content && this.layout == layout && this.reliable == reliable && pos == 0 && probes == [] && zeroWrites == 0
    {
      this.content, this.layout, this.reliable, pos, probes, zeroWrites := content, layout, reliable, 0, [], 0;
    }

    predicate Valid()
      reads this
    {
      LayoutFits(content, layout)
    }

    method SeekData(offset: nat) returns (r: Seek)
      requires Valid()
      modifies this`pos, this`probes
      ensures DataAnswer(layout, offset, r) && probes == old(probes) + [r] && (reliable ==> !r.SeekFailed?)
    {
      r := *;
      if r.NotSupported? || (r.SeekFailed? && !reliable) {
        probes := probes + [r];
        return;
      }
      var p := offset;
      while p < |content| && !layout[p]
        invariant offset <= p && forall i :: offset <= i < p && i < |content| ==> !layout[i]
        decreases |content| - p
      {
        p := p + 1;
      }
      r := Beyond;
      if p < |content| {
        pos := p;
        r := At(p);
      }
      probes := probes + [r];
    }

    method SeekHole(offset: nat) returns (r: Seek)
      requires Valid()
      modifies this`pos, this`probes
      ensures HoleAnswer(layout, offset, r) && probes == old(probes) + [r] && (reliable ==> !r.SeekFailed?)
    {
      r := *;
      if r.NotSupported? || (r.SeekFailed? && !reliable) {
        probes := probes + [r];
        return;
      }
      if |content| <= offset {
        probes := probes + [Beyond];
        return Beyond;
      }
      var p := offset;
      while p < |content| && layout[p]
        invariant offset <= p <= |content| && forall i :: offset <= i < p ==> layout[i]
        decreases |content| - p
      {
        p := p + 1;
      }
      pos, probes := p, probes + [At(p)];
      return At(p);
    }

    method SeekTo(offset: nat) returns (ok: bool)
      modifies this`pos
      ensures ok ==> pos == offset
      ensures !ok ==> pos == old(pos) && !reliable
    {
      ok := *;
      ok := ok || reliable;
      if ok {
        pos := offset;
      }
    }

    /** Up to `n` octets from the current position; fewer only at the end of the file. */
    method ReadFull(n: nat) returns (data: seq<Byte>, ok: bool)
      modifies this`pos
      ensures ok ==> data == Dense(content, old(pos), |data|) && pos == old(pos) + |data| && |data| <= n
      ensures ok ==> old(pos) + |data| <= |content| || data == []
      ensures ok ==> |data| == n || |content| <= pos
      ensures reliable ==> ok
    {
      ok := *;
      ok := ok || reliable;
      data := [];
      if ok && pos < |content| {
        data := content[pos..Min(pos + n, |content|)];
        pos := pos + |data|;
      }
    }

    /** A positioned read: the file position stays where it is. */
    method ReadAt(offset: nat, n: nat) returns (data: seq<Byte>, ok: bool)
      ensures ok && offset < |content| ==> data == content[offset..Min(offset + n, |content|)]
      ensures ok && |content| <= offset ==> data == []
      ensures reliable ==> ok
    {
      ok := *;
      ok := ok || reliable;
      data := [];
      if ok && offset < |content| {
        data := content[offset..Min(offset + n, |content|)];
      }
    }

    method Write(data: seq<Byte>) returns (ok: bool)
      modifies this`content, this`pos, this`layout, this`zeroWrites
      ensures ok ==> content == WriteAt(old(content), old(pos), data) && pos == old(pos) + |data|
      ensures !ok ==> !reliable && exists k :: 0 <= k < |data| && content == WriteAt(old(content), old(pos), data[..k])
      ensures zeroWrites == if data != [] && AllZero(data) then old(zeroWrites) + 1 else old(zeroWrites)
    {
      if data != [] && AllZero(data) {
        zeroWrites := zeroWrites + 1;
      }
      ok := *;
      ok := ok || data == [] || reliable;
      var k: nat := |data|;
      if !ok {
        k :| 0 <= k < |data|;
      }
      assert ok ==> data[..k] == data;
      content, pos := WriteAt(content, pos, data[..k]), pos + k;
      layout := seq(|content|, _ => true);
    }

    method Truncate(size: nat) returns (ok: bool)
      modifies this`content, this`layout
      ensures ok ==> content == Dense(old(content), 0, size)
      ensures !ok ==> content == old(content) && layout == old(layout) && !reliable
    {
      ok := *;
      ok := ok || reliable;
      if ok {
        content := Dense(content, 0, size);
        layout := seq(|content|, _ => true);
      }
    }
  }
}
