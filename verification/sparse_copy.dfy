// Copying files without writing their zeros: the SEEK_DATA/SEEK_HOLE loop, the plain loop it falls
// back to, and the copy that combines them.
module SparseCopy {
  import opened Bytes
  import opened Files

  const CHUNK := 256 * 1024
  const PLAIN_CHUNK := 32 * 1024

  /** The two Go copies report `Unsupported` differently (an error value, or a plain false). */
  datatype Outcome = Copied | Unsupported | CopyFailed

  method AllZeroLoop(data: seq<Byte>) returns (zero: bool)
    ensures zero <==> AllZero(data)
  {
    for i := 0 to |data|
      invariant forall k :: 0 <= k < i ==> data[k] == 0
    {
      if data[i] != 0 {
        return false;
      }
    }
    return true;
  }

  /** Two contents of equal length that differ at most within `length` octets from `at`. */
  predicate SameOutside(a: seq<Byte>, b: seq<Byte>, at: nat, length: nat) {
    |a| == |b| && forall i :: 0 <= i < |a| && !(at <= i < at + length) ==> a[i] == b[i]
  }

  lemma OverlayIsInside(base: seq<Byte>, at: nat, data: seq<Byte>, length: nat)
    requires |data| <= length && at + length <= |base|
    ensures SameOutside(base, Overlay(base, at, data), at, length)
  {
  }

  lemma PartialWriteIsInside(base: seq<Byte>, at: nat, before: seq<Byte>, data: seq<Byte>, now: seq<Byte>, length: nat)
    requires |before| + |data| <= length && at + length <= |base|
    requires exists k :: 0 <= k < |data| && now == WriteAt(Overlay(base, at, before), at + |before|, data[..k])
    ensures SameOutside(base, now, at, length)
  {
    var k :| 0 <= k < |data| && now == WriteAt(Overlay(base, at, before), at + |before|, data[..k]);
    OverlayMore(base, at, before, data[..k]);
    OverlayIsInside(base, at, before + data[..k], length);
  }

  lemma ZeroStays(base: seq<Byte>, at: nat, length: nat, done: nat, n: nat)
    requires at + length <= |base| && done + n <= length
    requires AllZero(base[at..at + length])
    ensures AllZero(base[at + done..at + done + n])
  {
    var part := base[at + done..at + done + n];
    forall i | 0 <= i < n
      ensures part[i] == 0
    {
      assert part[i] == base[at..at + length][done + i];
    }
  }

  /** The next `n` octets of a run, written or, when they are zero, skipped. */
  lemma NextChunk(base: seq<Byte>, at: nat, whole: seq<Byte>, done: nat, n: nat)
    requires at + |whole| <= |base| && done + n <= |whole|
    requires AllZero(base[at..at + |whole|])
    ensures WriteAt(Overlay(base, at, whole[..done]), at + done, whole[done..done + n]) == Overlay(base, at, whole[..done + n])
    ensures AllZero(whole[done..done + n]) ==> Overlay(base, at, whole[..done]) == Overlay(base, at, whole[..done + n])
  {
    assert whole[..done] + whole[done..done + n] == whole[..done + n];
    OverlayMore(base, at, whole[..done], whole[done..done + n]);
    if AllZero(whole[done..done + n]) {
      ZeroStays(base, at, |whole|, done, n);
      OverlaySkip(base, at, whole[..done], whole[done..done + n]);
    }
  }

  /** One run of data: the output, zero there before, holds the input's octets afterwards; no zeros are
      written. On failure nothing outside the run has changed. */
  method CopySparseData(out: File, in_: File, length: nat) returns (ok: bool)
    requires out != in_
    requires in_.pos + length <= |in_.content| && out.pos + length <= |out.content|
    requires AllZero(out.content[out.pos..out.pos + length])
    modifies out, in_`pos
    ensures ok ==> out.content == Overlay(old(out.content), old(out.pos), Dense(in_.content, old(in_.pos), length))
    ensures ok ==> out.pos == old(out.pos) + length
    ensures SameOutside(old(out.content), out.content, old(out.pos), length)
    ensures in_.reliable && out.reliable ==> ok
    ensures out.zeroWrites == old(out.zeroWrites)
  {
    hide Overlay, Dense, WriteAt, AllZero, SameOutside;
    ghost var base, at, from := out.content, out.pos, in_.pos;
    ghost var whole := Dense(in_.content, from, length);
    ghost var done := 0;
    var remaining := length;
    OverlayNothing(base, at);
    assert whole[..0] == [];
    while remaining > 0
      invariant 0 <= remaining <= length && done == length - remaining
      invariant out.zeroWrites == old(out.zeroWrites)
      invariant in_.pos == from + done && out.pos == at + done
      invariant out.content == Overlay(base, at, whole[..done])
      decreases remaining
    {
      OverlayIsInside(base, at, whole[..done], length);
      var chunk := Min(remaining, CHUNK);
      var data, read := in_.ReadFull(chunk);
      if !read {
        return false;
      }
      if |data| == 0 {
        break;
      }
      DensePart(in_.content, from, length, done, done + |data|);
      NextChunk(base, at, whole, done, |data|);
      var zero := AllZeroLoop(data);
      if zero {
        var moved := out.SeekTo(out.pos + |data|);
        if !moved {
          return false;
        }
      } else {
        var written := out.Write(data);
        if !written {
          PartialWriteIsInside(base, at, whole[..done], data, out.content, length);
          return false;
        }
      }
      remaining, done := remaining - |data|, done + |data|;
    }
    assert whole[..length] == whole;
    OverlayIsInside(base, at, whole, length);
    return true;
  }

  /** The body of the data/hole loop: seek both files to an extent and copy it. */
  method CopyExtent(in_: File, out: File, srcStart: nat, dstStart: nat, size: nat, data: nat, hole: nat, ghost base: seq<Byte>)
    returns (ok: bool)
    requires in_ != out
    requires srcStart <= data < hole <= srcStart + size && hole <= |in_.content|
    requires dstStart + size <= |base| && AllZero(base[dstStart..dstStart + size])
    requires out.content == Overlay(base, dstStart, Dense(in_.content, srcStart, size)[..data - srcStart])
    modifies in_`pos, out
    ensures ok ==> out.content == Overlay(base, dstStart, Dense(in_.content, srcStart, size)[..hole - srcStart])
    ensures ok ==> out.pos == dstStart + (hole - srcStart)
    ensures SameOutside(base, out.content, dstStart, size)
    ensures in_.reliable && out.reliable ==> ok
    ensures out.zeroWrites == old(out.zeroWrites)
  {
    hide Overlay, Dense, WriteAt, AllZero, SameOutside;
    ghost var before, whole := out.content, Dense(in_.content, srcStart, size);
    ghost var from, upto := data - srcStart, hole - srcStart;
    OverlayIsInside(base, dstStart, whole[..from], size);
    OverlayIsInside(base, dstStart, whole[..upto], size);
    ok := in_.SeekTo(data);
    if !ok {
      return;
    }
    ok := out.SeekTo(dstStart + (data - srcStart));
    if !ok {
      return;
    }
    RestIsZero(base, dstStart, whole, from, upto);
    ok := CopySparseData(out, in_, hole - data);
    InsideTwice(base, before, out.content, dstStart, size, from, upto);
    RunIsCopied(in_.content, base, dstStart, srcStart, size, from, upto);
  }

  // ---- The data/hole loop ----

  /** These can be the answers that the loop gets: the first one to SEEK_DATA at the start, then in turn
      one to SEEK_HOLE where there is data and one to SEEK_DATA behind that run, as long as it goes on. */
  ghost predicate Probed(layout: seq<bool>, start: nat, size: nat, answers: seq<Seek>) {
    && (size == 0 ==> answers == [])
    && forall k :: 0 <= k < |answers| ==> ProbedAt(layout, start, size, answers, k)
  }

  ghost predicate ProbedAt(layout: seq<bool>, start: nat, size: nat, answers: seq<Seek>, k: nat)
    requires k < |answers|
  {
    if k == 0 then DataAnswer(layout, start, answers[0])
    else
      && answers[k - 1].At?
      && var last := answers[k - 1].offset;
         if k % 2 == 1 then last < start + size && HoleAnswer(layout, last, answers[k])
         else DataAnswer(layout, Min(last, start + size), answers[k])
  }

  /** The last probe was answered with EINVAL, which ends the loop. */
  predicate GaveUp(answers: seq<Seek>) { answers != [] && answers[|answers| - 1] == NotSupported }

  /** How much had been copied when the last of these answers came: up to the end of the last run. */
  function Reached(start: nat, size: nat, answers: seq<Seek>): int {
    var runs := (|answers| - 1) / 2;
    if 0 < runs && answers[2 * runs - 1].At? then Min(answers[2 * runs - 1].offset, start + size) - start else 0
  }

  lemma AskedFirst(layout: seq<bool>, start: nat, size: nat, r: Seek)
    requires 0 < size && DataAnswer(layout, start, r)
    ensures Probed(layout, start, size, [r]) && Reached(start, size, [r]) == 0
  {
  }

  lemma AskedForHole(layout: seq<bool>, start: nat, size: nat, answers: seq<Seek>, data: nat, r: Seek)
    requires Probed(layout, start, size, answers) && |answers| % 2 == 1 && answers[|answers| - 1] == At(data)
    requires data < start + size && HoleAnswer(layout, data, r)
    ensures Probed(layout, start, size, answers + [r]) && Reached(start, size, answers + [r]) == Reached(start, size, answers)
  {
    AskedMore(layout, start, size, answers, r);
  }

  lemma AskedForData(layout: seq<bool>, start: nat, size: nat, answers: seq<Seek>, hole: nat, r: Seek)
    requires Probed(layout, start, size, answers) && 0 < |answers| && |answers| % 2 == 0 && answers[|answers| - 1] == At(hole)
    requires DataAnswer(layout, Min(hole, start + size), r)
    ensures Probed(layout, start, size, answers + [r]) && Reached(start, size, answers + [r]) == Min(hole, start + size) - start
  {
    AskedMore(layout, start, size, answers, r);
  }

  lemma AskedMore(layout: seq<bool>, start: nat, size: nat, answers: seq<Seek>, r: Seek)
    requires Probed(layout, start, size, answers) && answers != []
    requires ProbedAt(layout, start, size, answers + [r], |answers|)
    ensures Probed(layout, start, size, answers + [r])
  {
    forall k | 0 <= k < |answers| + 1 ensures ProbedAt(layout, start, size, answers + [r], k) {
      if k < |answers| {
        assert ProbedAt(layout, start, size, answers, k);
        hide DataAnswer, HoleAnswer;
      }
    }
  }

  /** Every run of data lies behind the ones before it, and no run is empty. */
  lemma {:induction false} ProbesAdvance(layout: seq<bool>, start: nat, size: nat, answers: seq<Seek>, k: nat)
    requires Probed(layout, start, size, answers) && k < |answers| && answers[k].At?
    ensures if k % 2 == 0 then start <= answers[k].offset < |layout| && layout[answers[k].offset] else start < answers[k].offset
  {
    assert ProbedAt(layout, start, size, answers, k);
    if 0 < k {
      ProbesAdvance(layout, start, size, answers, k - 1);
    }
  }

  /** The loop has copied nothing when it gives up at its first probe for data or its first for a hole,
      and something at every later one; and EINVAL is the last thing it hears. */
  lemma GivesUpMidwayIff(layout: seq<bool>, start: nat, size: nat, answers: seq<Seek>)
    requires Probed(layout, start, size, answers)
    ensures NotSupported in answers <==> GaveUp(answers)
    ensures GaveUp(answers) ==>
              && 0 <= Reached(start, size, answers) <= size
              && (Reached(start, size, answers) == 0 <==> |answers| <= 2)
  {
    forall k | 0 <= k < |answers| - 1 ensures answers[k].At? {
      assert ProbedAt(layout, start, size, answers, k + 1);
    }
    var runs := (|answers| - 1) / 2;
    if 0 < runs {
      ProbesAdvance(layout, start, size, answers, 2 * runs - 1);
    }
  }

  /** One turn of the data/hole loop, up to the end of the run of data at `data`. */
  method CopyRun(in_: File, out: File, srcStart: nat, dstStart: nat, size: nat, data: nat,
                 ghost base: seq<Byte>, ghost done: nat, ghost answers: seq<Seek>)
    returns (outcome: Outcome, hole: nat, found: Seek)
    requires in_ != out && in_.Valid() && |in_.layout| == |in_.content| && srcStart + done <= data < srcStart + size
    requires data < |in_.layout| && in_.layout[data]
    requires dstStart + size <= |base| && AllZero(base[dstStart..dstStart + size])
    requires out.content == Overlay(base, dstStart, Dense(in_.content, srcStart, size)[..done])
    requires AllZero(Dense(in_.content, srcStart, size)[done..data - srcStart])
    requires Probed(in_.layout, srcStart, size, answers) && |answers| % 2 == 1 && answers[|answers| - 1] == At(data)
    modifies in_`pos, in_`probes, out
    ensures in_.probes == old(in_.probes) + [found] && Probed(in_.layout, srcStart, size, answers + [found])
    ensures outcome.Copied? ==>
              && found.At? && data < hole == Min(found.offset, srcStart + size) && hole <= |in_.content|
              && out.content == Overlay(base, dstStart, Dense(in_.content, srcStart, size)[..hole - srcStart])
              && out.pos == dstStart + (hole - srcStart)
    ensures outcome.Unsupported? <==> found.NotSupported?
    ensures outcome.Unsupported? ==>
              && out.content == old(out.content) && out.pos == old(out.pos)
              && Reached(srcStart, size, answers + [found]) == Reached(srcStart, size, answers)
    ensures SameOutside(base, out.content, dstStart, size)
    ensures in_.reliable && out.reliable ==> !outcome.CopyFailed?
    ensures out.zeroWrites == old(out.zeroWrites)
  {
    hide Overlay, Dense, WriteAt, AllZero, SameOutside, Probed, Reached, DataAnswer, HoleAnswer;
    ghost var whole := Dense(in_.content, srcStart, size);
    OverlayIsInside(base, dstStart, whole[..done], size);
    var end := srcStart + size;
    hole := data;
    found := in_.SeekHole(data);
    AskedForHole(in_.layout, srcStart, size, answers, data, found);
    if found.NotSupported? || found.SeekFailed? {
      outcome := if found.NotSupported? then Unsupported else CopyFailed;
      return;
    }
    var behind: int := if found.Beyond? then end else found.offset;
    HoleFollows(in_.layout, data, found);
    hole := if behind > end then end else behind;
    HoleIsSkipped(base, dstStart, whole, done, data - srcStart);
    var ok := CopyExtent(in_, out, srcStart, dstStart, size, data, hole, base);
    outcome := if ok then Copied else CopyFailed;
  }

  /** The data/hole loop over `size` octets of the input from `srcStart` on, written to the output
      from `dstStart` on, where the output is zero before. `Copied` means exactly a dense copy.
      Giving up or failing midway leaves everything outside that range alone. It gives up exactly when
      a probe is answered with EINVAL; that leaves a dense prefix up to the last run it heard of,
      followed by zeros, and the output positioned after it if any data was copied. */
  method SparseCopyRange(in_: File, out: File, srcStart: nat, dstStart: nat, size: nat) returns (outcome: Outcome, ghost answers: seq<Seek>)
    requires in_ != out && in_.Valid()
    requires dstStart + size <= |out.content| && AllZero(out.content[dstStart..dstStart + size])
    modifies in_`pos, in_`probes, out
    ensures outcome.Copied? ==> out.content == Overlay(old(out.content), dstStart, Dense(in_.content, srcStart, size))
    ensures SameOutside(old(out.content), out.content, dstStart, size)
    ensures in_.probes == old(in_.probes) + answers && Probed(in_.layout, srcStart, size, answers)
    ensures outcome.Unsupported? <==> GaveUp(answers)
    ensures outcome.Unsupported? ==>
              var done := Reached(srcStart, size, answers);
              && 0 <= done <= size
              && out.content == Overlay(old(out.content), dstStart, Dense(in_.content, srcStart, size)[..done])
              && out.pos == if done == 0 then old(out.pos) else dstStart + done
    ensures in_.reliable && out.reliable ==> !outcome.CopyFailed?
    ensures out.zeroWrites == old(out.zeroWrites)
  {
    hide Overlay, Dense, WriteAt, AllZero, SameOutside, Probed, Reached, DataAnswer, HoleAnswer, LayoutFits;
    ghost var base, whole := out.content, Dense(in_.content, srcStart, size);
    ghost var done: nat := 0;
    answers := [];
    OverlayNothing(base, dstStart);
    if size == 0 {
      assert whole == [];
      OverlayIsInside(base, dstStart, [], size);
      NothingAsked(in_.layout, srcStart, size);
      return Copied, [];
    }
    var end := srcStart + size;
    assert whole[..0] == [];
    OverlayIsInside(base, dstStart, whole[..0], size);
    var found := in_.SeekData(srcStart);
    answers := [found];
    AskedFirst(in_.layout, srcStart, size, found);
    HolesAreZero(in_.content, in_.layout, srcStart, size, 0, found);
    if found.Beyond? {
      HoleIsSkipped(base, dstStart, whole, 0, size);
      assert whole[..size] == whole;
      return Copied, answers;
    }
    if !found.At? {
      return (if found.NotSupported? then Unsupported else CopyFailed), answers;
    }
    var data := found.offset;
    while data < end
      invariant out.zeroWrites == old(out.zeroWrites)
      invariant srcStart + done <= data && done <= size
      invariant data < |in_.layout| && in_.layout[data]
      invariant out.content == Overlay(base, dstStart, whole[..done])
      invariant AllZero(whole[done..Min(data - srcStart, size)])
      invariant out.pos == if done == 0 then old(out.pos) else dstStart + done
      invariant in_.probes == old(in_.probes) + answers && Probed(in_.layout, srcStart, size, answers)
      invariant |answers| % 2 == 1 && answers[|answers| - 1] == At(data) && done == Reached(srcStart, size, answers)
      decreases end - data
    {
      var hole;
      outcome, hole, found := CopyRun(in_, out, srcStart, dstStart, size, data, base, done, answers);
      ghost var run := found;
      answers := answers + [found];
      if !outcome.Copied? {
        return outcome, answers;
      }
      done := hole - srcStart;
      found := in_.SeekData(hole);
      AskedForData(in_.layout, srcStart, size, answers, run.offset, found);
      answers := answers + [found];
      HolesAreZero(in_.content, in_.layout, srcStart, size, done, found);
      if found.Beyond? {
        break;
      }
      if !found.At? {
        return (if found.NotSupported? then Unsupported else CopyFailed), answers;
      }
      data := found.offset;
    }
    HoleIsSkipped(base, dstStart, whole, done, size);
    assert whole[..size] == whole;
    OverlayIsInside(base, dstStart, whole, size);
    return Copied, answers;
  }

  /** Where there is data the next hole is further on. */
  lemma HoleFollows(layout: seq<bool>, data: nat, r: Seek)
    requires data < |layout| && layout[data] && HoleAnswer(layout, data, r)
    ensures !r.Beyond? && (r.At? ==> data < r.offset <= |layout|)
  {
  }

  lemma NothingAsked(layout: seq<bool>, start: nat, size: nat)
    ensures Probed(layout, start, size, [])
  {
  }

  /** Up to the next data, a dense copy has only zeros. */
  lemma HolesAreZero(content: seq<Byte>, layout: seq<bool>, srcStart: nat, size: nat, from: nat, next: Seek)
    requires LayoutFits(content, layout) && from <= size && DataAnswer(layout, srcStart + from, next)
    ensures |layout| == |content|
    ensures next.At? ==>
              && srcStart + from <= next.offset < |layout| && layout[next.offset]
              && AllZero(Dense(content, srcStart, size)[from..Min(next.offset - srcStart, size)])
    ensures next.Beyond? ==> AllZero(Dense(content, srcStart, size)[from..size])
  {
  }

  lemma InsideTwice(base: seq<Byte>, before: seq<Byte>, now: seq<Byte>, at: nat, size: nat, from: nat, upto: nat)
    requires from <= upto <= size
    requires SameOutside(base, before, at, size) && SameOutside(before, now, at + from, upto - from)
    ensures SameOutside(base, now, at, size)
  {
  }

  lemma HoleIsSkipped(base: seq<Byte>, at: nat, whole: seq<Byte>, done: nat, from: nat)
    requires done <= from <= |whole| && at + |whole| <= |base|
    requires AllZero(base[at..at + |whole|]) && AllZero(whole[done..from])
    ensures Overlay(base, at, whole[..done]) == Overlay(base, at, whole[..from])
  {
    ZeroStays(base, at, |whole|, done, from - done);
    OverlaySkip(base, at, whole[..done], whole[done..from]);
    assert whole[..done] + whole[done..from] == whole[..from];
  }

  lemma RestIsZero(base: seq<Byte>, at: nat, whole: seq<Byte>, from: nat, upto: nat)
    requires from <= upto <= |whole| && at + |whole| <= |base|
    requires AllZero(base[at..at + |whole|])
    ensures AllZero(Overlay(base, at, whole[..from])[at + from..at + upto])
  {
    var now := Overlay(base, at, whole[..from]);
    forall i | at + from <= i < at + upto
      ensures now[i] == 0
    {
      assert now[i] == base[at + from..][i - at - from];
      assert base[i] == base[at..at + |whole|][i - at];
    }
  }

  lemma RunIsCopied(content: seq<Byte>, base: seq<Byte>, at: nat, srcStart: nat, size: nat, from: nat, upto: nat)
    requires from <= upto <= size && at + size <= |base|
    ensures var whole := Dense(content, srcStart, size);
            Overlay(Overlay(base, at, whole[..from]), at + from, Dense(content, srcStart + from, upto - from))
            == Overlay(base, at, whole[..upto])
  {
    var whole := Dense(content, srcStart, size);
    var run := Dense(content, srcStart + from, upto - from);
    OverlayMore(base, at, whole[..from], run);
    assert whole[..from] + run == whole[..upto];
  }

  /** What a write loop that fails leaves behind: some prefix of `data` is in place. */
  ghost predicate PrefixWritten(base: seq<Byte>, at: nat, data: seq<Byte>, now: seq<Byte>) {
    exists k :: 0 <= k <= |data| && now == WriteAt(base, at, data[..k])
  }

  lemma PrefixAfter(base: seq<Byte>, at: nat, data: seq<Byte>, done: nat, chunk: seq<Byte>, now: seq<Byte>)
    requires done + |chunk| <= |data| && data[done..done + |chunk|] == chunk
    requires exists k :: 0 <= k < |chunk| && now == WriteAt(WriteAt(base, at, data[..done]), at + done, chunk[..k])
    ensures PrefixWritten(base, at, data, now)
  {
    hide WriteAt;
    var k :| 0 <= k < |chunk| && now == WriteAt(WriteAt(base, at, data[..done]), at + done, chunk[..k]);
    WriteAtMore(base, at, data[..done], chunk[..k]);
    assert data[..done] + chunk[..k] == data[..done + k];
  }

  lemma NextWrite(base: seq<Byte>, at: nat, data: seq<Byte>, done: nat, n: nat)
    requires done + n <= |data|
    ensures WriteAt(WriteAt(base, at, data[..done]), at + done, data[done..done + n]) == WriteAt(base, at, data[..done + n])
  {
    WriteAtMore(base, at, data[..done], data[done..done + n]);
    assert data[..done] + data[done..done + n] == data[..done + n];
  }

  /** The plain loop: everything from the input's position to its end. */
  method CopyAll(out: File, in_: File) returns (ok: bool)
    requires out != in_ && in_.pos <= |in_.content|
    modifies out, in_`pos
    ensures ok ==> out.content == WriteAt(old(out.content), old(out.pos), in_.content[old(in_.pos)..])
    ensures PrefixWritten(old(out.content), old(out.pos), in_.content[old(in_.pos)..], out.content)
    ensures in_.reliable && out.reliable ==> ok
  {
    hide WriteAt, Dense;
    ghost var base, at, from := out.content, out.pos, in_.pos;
    ghost var whole := in_.content[from..];
    WriteNothing(base, at);
    assert whole[..0] == [];
    while true
      invariant from <= in_.pos <= |in_.content| && out.pos == at + (in_.pos - from)
      invariant out.content == WriteAt(base, at, whole[..in_.pos - from])
      decreases |in_.content| - in_.pos
    {
      ghost var done := in_.pos - from;
      var data, read := in_.ReadFull(PLAIN_CHUNK);
      if !read {
        return false;
      }
      if |data| == 0 {
        assert whole[..done] == whole;
        return true;
      }
      DenseInside(in_.content, from + done, |data|);
      SliceOfTail(in_.content, from, done, |data|);
      NextWrite(base, at, whole, done, |data|);
      var written := out.Write(data);
      if !written {
        PrefixAfter(base, at, whole, done, data, out.content);
        return false;
      }
    }
  }

  /** The plain loop over a section of the input, read in place: `size` octets from `start`, or as
      many as there are. It writes wherever the output happens to be positioned. */
  method CopySection(out: File, in_: File, start: nat, size: nat) returns (ok: bool)
    requires out != in_
    modifies out
    ensures ok ==> out.content == WriteAt(old(out.content), old(out.pos), Section(in_.content, start, size))
    ensures in_.reliable && out.reliable ==> ok
  {
    hide WriteAt;
    ghost var base, at := out.content, out.pos;
    ghost var whole := Section(in_.content, start, size);
    WriteNothing(base, at);
    var done := 0;
    assert whole[..0] == [];
    while true
      invariant 0 <= done <= |whole| && out.pos == at + done
      invariant out.content == WriteAt(base, at, whole[..done])
      decreases |whole| - done
    {
      var data, read := in_.ReadAt(start + done, Min(PLAIN_CHUNK, size - done));
      if !read {
        return false;
      }
      if |data| == 0 {
        assert whole[..done] == whole;
        return true;
      }
      SliceOfSection(in_.content, start, size, done, |data|);
      NextWrite(base, at, whole, done, |data|);
      var written := out.Write(data);
      if !written {
        return false;
      }
      done := done + |data|;
    }
  }

  lemma SliceOfTail(s: seq<Byte>, from: nat, done: nat, n: nat)
    requires from + done + n <= |s|
    ensures s[from..][done..done + n] == s[from + done..from + done + n]
  {
  }

  lemma SliceOfSection(s: seq<Byte>, start: nat, size: nat, done: nat, n: nat)
    requires done + n <= |Section(s, start, size)|
    ensures n == 0 || Section(s, start, size)[done..done + n] == s[start + done..start + done + n]
  {
    if n != 0 {
      SliceOfTail(s[..Min(start + size, |s|)], start, done, n);
    }
  }

  function Section(s: seq<Byte>, start: nat, size: nat): (r: seq<Byte>)
    ensures |r| <= size
    ensures start + size <= |s| ==> r == Dense(s, start, size)
  {
    if |s| <= start then [] else s[start..Min(start + size, |s|)]
  }

  /** The files by name, and the names that could not be removed. */
  class Directory {
    var files: map<string, File>
    var stuck: seq<string>
    /** Whether every call succeeds that can. */
    const reliable: bool

    constructor (reliable: bool)
      ensures files == map[] && stuck == [] && this.reliable == reliable
    {
      files, stuck, this.reliable := map[], [], reliable;
    }

    /** A file system may report any layout whose holes are zero. */
    method Open(name: string) returns (file: File?, ok: bool)
      modifies files.Values`pos, files.Values`layout
      ensures ok ==> name in files && file == files[name] && file.Valid() && file.pos == 0
      ensures reliable && name in files ==> ok
    {
      ok := *;
      ok := ok || reliable;
      if !ok || name !in files {
        return null, false;
      }
      file := files[name];
      ghost var content := file.content;
      assert |seq(|content|, _ => true)| == |content|;
      var layout: seq<bool> :| |layout| == |file.content| && forall i :: 0 <= i < |layout| && !layout[i] ==> file.content[i] == 0;
      file.pos, file.layout := 0, layout;
    }

    /** Creates a file only where there is none of the name. */
    method CreateNew(name: string) returns (file: File?, ok: bool)
      modifies this`files
      ensures ok ==> name !in old(files) && file != null && fresh(file) && file.content == [] && file.layout == [] && file.pos == 0
      ensures ok ==> files == old(files)[name := file]
      ensures ok ==> file.reliable == reliable
      ensures !ok ==> files == old(files) && (reliable ==> name in files)
    {
      ok := *;
      ok := ok || reliable;
      if !ok || name in files {
        return null, false;
      }
      file := new File([], [], reliable);
      files := files[name := file];
    }

    /** Nobody looks at whether a removal worked. */
    method Remove(name: string)
      modifies this
      ensures || (files == old(files) - {name} && stuck == old(stuck))
              || (files == old(files) && stuck == old(stuck) + [name] && !reliable)
    {
      var ok: bool := *;
      if ok || reliable {
        files := files - {name};
      } else {
        stuck := stuck + [name];
      }
    }

    /** A clone shares the source's contents. Where there is no cloning the new file is taken away
        again, which is no error. */
    method CloneFile(src: string, dst: string) returns (cloned: bool, ok: bool)
      modifies this, files.Values`pos, files.Values`layout
      ensures src !in old(files) || dst in old(files) ==> !ok
      ensures cloned ==> ok && NewCopy(old(files), src, dst)
      ensures !cloned ==> Undone(old(files), old(stuck), dst)
      ensures reliable ==> stuck == old(stuck) && (src in old(files) && dst !in old(files) ==> ok)
      ensures forall n :: n in files && n !in old(files) ==> fresh(files[n])
    {
      var source, found := Open(src);
      if !found {
        return false, false;
      }
      var out, created := CreateNew(dst);
      if !created {
        return false, false;
      }
      var shared: bool, supported: bool, finished: bool := *, *, *;
      supported, finished := supported && (shared || !reliable), finished || reliable;
      if shared {
        out.content, out.layout := source.content, source.layout;
        if finished {
          return true, true;
        }
      }
      Remove(dst);
      return false, !shared && !supported;
    }

    /** A new file has the contents of `src`, and nothing else is different. */
    ghost predicate NewCopy(before: map<string, File>, src: string, dst: string)
      reads this, files.Values
    {
      && src in before && src in files && dst !in before && dst in files && files == before[dst := files[dst]]
      && files[dst] !in before.Values && files[dst].content == files[src].content
    }

    /** Nothing is left, unless a removal failed. */
    ghost predicate Undone(before: map<string, File>, stuckBefore: seq<string>, dst: string)
      reads this
    {
      if stuck == stuckBefore then files == before
      else stuck == stuckBefore + [dst] && dst !in before && files.Keys == before.Keys + {dst}
           && forall n :: n in before ==> files[n] == before[n]
    }

    /** Copying a file: a clone, or a sparse copy, or a plain copy started over. Whatever the sparse
        attempt left behind, success means that the new file has the old one's contents; and where
        no call fails it succeeds exactly when there is a source and the new name is free. */
    method Copy(src: string, dst: string) returns (ok: bool)
      modifies this, files.Values`pos, files.Values`layout, files.Values`probes
      ensures src !in old(files) || dst in old(files) ==> !ok
      ensures ok ==> NewCopy(old(files), src, dst)
      ensures !ok ==> Undone(old(files), old(stuck), dst)
      ensures reliable && src in old(files) && old(files)[src].reliable && dst !in old(files) ==> ok
      ensures forall n :: n in files && n !in old(files) ==> fresh(files[n])
    {
      var cloned, went := CloneFile(src, dst);
      if cloned || !went {
        return cloned;
      }
      var in_, found := Open(src);
      if !found {
        return false;
      }
      var out, created := CreateNew(dst);
      if !created {
        return false;
      }
      var regular: bool := *;
      ok := Fill(in_, out, regular);
      if !ok {
        Remove(dst);
      }
    }
  }

  /** Fills a new file. */
  method Fill(in_: File, out: File, regular: bool) returns (ok: bool)
    requires in_ != out && in_.Valid() && in_.pos == 0 && out.content == [] && out.pos == 0
    modifies in_`pos, in_`probes, out
    ensures ok ==> out.content == in_.content
    ensures in_.reliable && out.reliable ==> ok
    ensures old(in_.probes) <= in_.probes
    ensures ok && regular && NotSupported !in in_.probes[|old(in_.probes)|..] ==> out.zeroWrites == old(out.zeroWrites)
  {
    if regular {
      ok := out.Truncate(|in_.content|);
      if !ok {
        return;
      }
      assert AllZero(out.content[0..0 + |in_.content|]);
      ghost var asked := in_.probes;
      var outcome, answers := SparseCopyRange(in_, out, 0, 0, |in_.content|);
      assert in_.probes[|asked|..] == answers;
      if outcome.CopyFailed? {
        return false;
      }
      if outcome.Copied? {
        assert out.content == in_.content;
        ok := *;
        ok := ok || out.reliable;
        return;
      }
    }
    var a := in_.SeekTo(0);
    var b := out.SeekTo(0);
    var c := out.Truncate(0);
    if !a || !b || !c {
      return false;
    }
    assert out.content == [];
    var copied := CopyAll(out, in_);
    var synced: bool := *;
    ok := copied && (synced || out.reliable);
  }
}
