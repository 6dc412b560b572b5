/** Reading a range of a seekable stream: directly, and in runs of frames fetched together. */
module SeekRange {
  import opened Base
  import opened Seekable

  /** The decompressor and the frame checksum. */
  datatype Zstd = Zstd(unzip: bytes -> Option<bytes>, sum: bytes -> nat)

  /** `decompress_frame`: checks the sizes and, if the table has one, the checksum. */
  function DecompressFrame(z: Zstd, f: FrameEntry, compressed: bytes): Result<bytes> {
    if |compressed| != f.cSize then Err(Corrupt)
    else
      match z.unzip(compressed)
      case None => Err(Corrupt)
      case Some(c) =>
        if |c| != f.dSize then Err(Corrupt)
        else if f.checksum.Some? && z.sum(c) != f.checksum.value then Err(Corrupt)
        else Ok(c)
  }

  function DecompressedLen(frames: seq<FrameEntry>): nat {
    if frames == [] then 0 else frames[|frames| - 1].DEnd()
  }

  // ---- Which frames a range touches ----

  /** `partition_point` of a sequence whose first elements satisfy the test and whose others do not. */
  function EndsBy(frames: seq<FrameEntry>, start: nat): (n: nat)
    ensures n <= |frames|
    ensures forall i :: 0 <= i < n ==> frames[i].DEnd() <= start
    ensures n < |frames| ==> frames[n].DEnd() > start
  {
    if frames == [] || frames[0].DEnd() > start then 0 else 1 + EndsBy(frames[1..], start)
  }

  function StartsBefore(frames: seq<FrameEntry>, end: nat): (n: nat)
    ensures n <= |frames|
    ensures forall i :: 0 <= i < n ==> frames[i].dOff < end
    ensures n < |frames| ==> frames[n].dOff >= end
  {
    if frames == [] || frames[0].dOff >= end then 0 else 1 + StartsBefore(frames[1..], end)
  }

  function NonEmpty(frames: seq<FrameEntry>): seq<FrameEntry> {
    if frames == [] then []
    else if frames[0].dSize > 0 then [frames[0]] + NonEmpty(frames[1..]) else NonEmpty(frames[1..])
  }

  function FramesForRange(frames: seq<FrameEntry>, start: nat, end: nat): Result<seq<FrameEntry>> {
    if start > end || end > DecompressedLen(frames) then Err(Corrupt)
    else if start == end then Ok([])
    else
      var first, last := EndsBy(frames, start), StartsBefore(frames, end);
      Ok(if first <= last then NonEmpty(frames[first..last]) else [])
  }

  /** Offsets grow along a chain, so both tests split it in two. */
  lemma {:induction false} ChainMono(frames: seq<FrameEntry>, i: nat, j: nat)
    requires Chained(frames) && i < j < |frames|
    ensures frames[i].DEnd() <= frames[j].dOff && frames[i].dOff <= frames[j].dOff && frames[i].DEnd() <= frames[j].DEnd()
    decreases j
  {
    if i < j - 1 { ChainMono(frames, i, j - 1); }
    ChainOff(frames, j);
  }

  // ---- The content ----

  /** The bytes of frame `f` inside the range. */
  function Part(f: FrameEntry, content: bytes, start: nat, end: nat): bytes
    requires |content| == f.dSize
  {
    var from, to := Max(start, f.dOff), Min(end, f.DEnd());
    if from < to then content[from - f.dOff..to - f.dOff] else []
  }

  /** Per frame its content, as long as the table says. */
  ghost predicate Sized(frames: seq<FrameEntry>, contents: seq<bytes>) {
    |contents| == |frames| && forall i :: 0 <= i < |frames| ==> |contents[i]| == frames[i].dSize
  }

  function Concat(contents: seq<bytes>): bytes {
    if contents == [] then [] else Concat(contents[..|contents| - 1]) + contents[|contents| - 1]
  }

  /** The parts of the first `n` frames, joined. */
  ghost function Parts(frames: seq<FrameEntry>, contents: seq<bytes>, start: nat, end: nat, n: nat): bytes
    requires Sized(frames, contents) && n <= |frames|
  {
    if n == 0 then []
    else Parts(frames, contents, start, end, n - 1) + Part(frames[n - 1], contents[n - 1], start, end)
  }

  lemma {:induction false} ConcatLen(frames: seq<FrameEntry>, contents: seq<bytes>, n: nat)
    requires Chained(frames) && Sized(frames, contents) && n <= |frames|
    ensures |Concat(contents[..n])| == if n == 0 then 0 else frames[n - 1].DEnd()
  {
    if n > 0 {
      ConcatLen(frames, contents, n - 1);
      assert contents[..n][..n - 1] == contents[..n - 1];
      ChainOff(frames, n - 1);
    }
  }

  /** A slice, cut to what is there. */
  function Clip(whole: bytes, start: nat, end: nat): bytes
    requires start <= end
  {
    whole[Min(start, |whole|)..Min(end, |whole|)]
  }

  lemma ClipJoin(a: bytes, f: FrameEntry, b: bytes, start: nat, end: nat)
    requires start <= end && f.dOff == |a| && |b| == f.dSize
    ensures Clip(a, start, end) + Part(f, b, start, end) == Clip(a + b, start, end)
  {
    if end <= |a| { ClipBefore(a, f, b, start, end); }
    else if start <= |a| { ClipAcross(a, f, b, start, end); }
    else { ClipAfter(a, f, b, start, end); }
  }

  lemma ClipBefore(a: bytes, f: FrameEntry, b: bytes, start: nat, end: nat)
    requires start <= end <= |a| && f.dOff == |a| && |b| == f.dSize
    ensures Clip(a, start, end) + Part(f, b, start, end) == Clip(a + b, start, end)
  {
    assert Part(f, b, start, end) == [];
    assert (a + b)[start..end] == a[start..end];
  }

  lemma ClipAcross(a: bytes, f: FrameEntry, b: bytes, start: nat, end: nat)
    requires start <= |a| < end && f.dOff == |a| && |b| == f.dSize
    ensures Clip(a, start, end) + Part(f, b, start, end) == Clip(a + b, start, end)
  {
    var n := Min(end - |a|, |b|);
    assert Clip(a, start, end) == a[start..];
    assert Part(f, b, start, end) == b[..n];
    assert Clip(a + b, start, end) == (a + b)[start..|a| + n];
    assert (a + b)[start..|a| + n] == a[start..] + b[..n];
  }

  lemma ClipAfter(a: bytes, f: FrameEntry, b: bytes, start: nat, end: nat)
    requires |a| < start <= end && f.dOff == |a| && |b| == f.dSize
    ensures Clip(a, start, end) + Part(f, b, start, end) == Clip(a + b, start, end)
  {
    var m, n := Min(start - |a|, |b|), Min(end - |a|, |b|);
    assert Clip(a, start, end) == [];
    assert Part(f, b, start, end) == b[m..n];
    assert Clip(a + b, start, end) == (a + b)[|a| + m..|a| + n] == b[m..n];
  }

  lemma ConcatLast(contents: seq<bytes>, n: nat)
    requires 0 < n <= |contents|
    ensures Concat(contents[..n]) == Concat(contents[..n - 1]) + contents[n - 1]
  {
    assert contents[..n][..n - 1] == contents[..n - 1];
  }

  /** The parts of all frames are the slice of the whole content. */
  lemma {:induction false} PartsAreSlice(frames: seq<FrameEntry>, contents: seq<bytes>, start: nat, end: nat, n: nat)
    requires Chained(frames) && Sized(frames, contents) && n <= |frames| && start <= end
    ensures Parts(frames, contents, start, end, n) == Clip(Concat(contents[..n]), start, end)
    decreases n
  {
    hide Clip, Part, Concat, Chained;
    if n == 0 { ClipNone(start, end); assert contents[..0] == []; }
    else {
      PartsAreSlice(frames, contents, start, end, n - 1);
      ConcatLen(frames, contents, n - 1);
      ConcatLast(contents, n);
      assert frames[n - 1].dOff == |Concat(contents[..n - 1])| by { ChainOff(frames, n - 1); }
      ClipJoin(Concat(contents[..n - 1]), frames[n - 1], contents[n - 1], start, end);
    }
  }

  lemma ClipNone(start: nat, end: nat)
    requires start <= end
    ensures Clip(Concat([]), start, end) == []
  {
  }

  lemma ChainOff(frames: seq<FrameEntry>, i: nat)
    requires Chained(frames) && i < |frames|
    ensures frames[i].dOff == if i == 0 then 0 else frames[i - 1].DEnd()
  {
    assert Linked(frames, 0, 0, 0, i);
  }

  // ---- A selection of frames ----

  /** The selected frames are frames of the table, with their contents at hand. */
  ghost predicate SelOk(sel: seq<FrameEntry>, contents: seq<bytes>) {
    forall i :: 0 <= i < |sel| ==> sel[i].index < |contents| && |contents[sel[i].index]| == sel[i].dSize
  }

  ghost function PartsOf(sel: seq<FrameEntry>, contents: seq<bytes>, start: nat, end: nat): bytes
    requires SelOk(sel, contents)
  {
    if sel == [] then []
    else Part(sel[0], contents[sel[0].index], start, end) + PartsOf(sel[1..], contents, start, end)
  }

  lemma {:induction false} PartsOfLast(sel: seq<FrameEntry>, contents: seq<bytes>, start: nat, end: nat)
    requires SelOk(sel, contents) && sel != []
    ensures var n := |sel| - 1;
            PartsOf(sel, contents, start, end)
            == PartsOf(sel[..n], contents, start, end) + Part(sel[n], contents[sel[n].index], start, end)
    decreases |sel|
  {
    hide Part;
    var n := |sel| - 1;
    if n > 0 {
      var tail := sel[1..];
      PartsOfLast(tail, contents, start, end);
      assert sel[..n][1..] == tail[..n - 1];
    }
  }

  lemma {:induction false} PartsOfAppend(a: seq<FrameEntry>, b: seq<FrameEntry>, contents: seq<bytes>, start: nat, end: nat)
    requires SelOk(a, contents) && SelOk(b, contents)
    ensures SelOk(a + b, contents)
    ensures PartsOf(a + b, contents, start, end) == PartsOf(a, contents, start, end) + PartsOf(b, contents, start, end)
    decreases |a|
  {
    hide Part;
    if a == [] { assert a + b == b; }
    else {
      PartsOfAppend(a[1..], b, contents, start, end);
      assert (a + b)[1..] == a[1..] + b;
    }
  }

  lemma {:induction false} PartsOfFrames(frames: seq<FrameEntry>, contents: seq<bytes>, start: nat, end: nat, n: nat)
    requires Chained(frames) && Sized(frames, contents) && n <= |frames|
    ensures SelOk(frames[..n], contents)
    ensures PartsOf(frames[..n], contents, start, end) == Parts(frames, contents, start, end, n)
    decreases n
  {
    hide Part;
    forall i | 0 <= i < n ensures frames[..n][i].index == i { ChainIndex(frames, i); }
    if n > 0 {
      hide Chained;
      PartsOfFrames(frames, contents, start, end, n - 1);
      PartsOfLast(frames[..n], contents, start, end);
      assert frames[..n][..n - 1] == frames[..n - 1];
    }
  }

  lemma ChainIndex(frames: seq<FrameEntry>, i: nat)
    requires Chained(frames) && i < |frames|
    ensures frames[i].index == i
  {
    assert Linked(frames, 0, 0, 0, i);
  }

  lemma PartNone(f: FrameEntry, content: bytes, start: nat, end: nat)
    requires |content| == f.dSize && (f.DEnd() <= start || f.dOff >= end || f.dSize == 0)
    ensures Part(f, content, start, end) == []
  {
  }

  /** Leading frames that end before the range give nothing. */
  lemma {:induction false} DropEarly(sel: seq<FrameEntry>, contents: seq<bytes>, start: nat, end: nat, n: nat)
    requires SelOk(sel, contents) && n <= |sel| && forall i :: 0 <= i < n ==> sel[i].DEnd() <= start
    ensures PartsOf(sel, contents, start, end) == PartsOf(sel[n..], contents, start, end)
    decreases n
  {
    hide Part;
    if n == 0 { assert sel[n..] == sel; }
    else {
      PartNone(sel[0], contents[sel[0].index], start, end);
      DropEarly(sel[1..], contents, start, end, n - 1);
      assert sel[1..][n - 1..] == sel[n..];
    }
  }

  /** Trailing frames that start after the range give nothing. */
  lemma {:induction false} DropLate(sel: seq<FrameEntry>, contents: seq<bytes>, start: nat, end: nat, n: nat)
    requires SelOk(sel, contents) && n <= |sel| && forall i :: n <= i < |sel| ==> sel[i].dOff >= end
    ensures PartsOf(sel, contents, start, end) == PartsOf(sel[..n], contents, start, end)
    decreases |sel|
  {
    hide Part, PartsOf;
    if n == |sel| { assert sel[..n] == sel; }
    else {
      var m := |sel| - 1;
      PartNone(sel[m], contents[sel[m].index], start, end);
      PartsOfLast(sel, contents, start, end);
      DropLate(sel[..m], contents, start, end, n);
      assert sel[..m][..n] == sel[..n];
    }
  }

  /** Dropping empty frames drops nothing. */
  lemma {:induction false} PartsOfNonEmpty(sel: seq<FrameEntry>, contents: seq<bytes>, start: nat, end: nat)
    requires SelOk(sel, contents)
    ensures SelOk(NonEmpty(sel), contents)
    ensures PartsOf(NonEmpty(sel), contents, start, end) == PartsOf(sel, contents, start, end)
  {
    hide Part;
    if sel != [] {
      if sel[0].dSize == 0 { PartNone(sel[0], contents[sel[0].index], start, end); }
      PartsOfNonEmpty(sel[1..], contents, start, end);
      if sel[0].dSize > 0 { assert NonEmpty(sel)[1..] == NonEmpty(sel[1..]); }
    }
  }

  /** The frames of a range give exactly the range. */
  lemma SelectedParts(frames: seq<FrameEntry>, contents: seq<bytes>, start: nat, end: nat)
    requires Chained(frames) && Sized(frames, contents) && start <= end <= DecompressedLen(frames)
    ensures FramesForRange(frames, start, end).Ok? && SelOk(FramesForRange(frames, start, end).value, contents)
    ensures PartsOf(FramesForRange(frames, start, end).value, contents, start, end)
            == Parts(frames, contents, start, end, |frames|)
  {
    hide Part, Parts, PartsOf, NonEmpty, Chained, EndsBy, StartsBefore;
    PartsOfFrames(frames, contents, start, end, |frames|);
    assert frames[..|frames|] == frames;
    if start == end {
      AllEmpty(frames, contents, start);
    } else {
      var first, last := EndsBy(frames, start), StartsBefore(frames, end);
      Bracket(frames, start, end, first, last);
      AfterRange(frames, end, last);
      MiddleParts(frames, contents, start, end, first, last);
    }
  }

  lemma MiddleParts(frames: seq<FrameEntry>, contents: seq<bytes>, start: nat, end: nat, first: nat, last: nat)
    requires SelOk(frames, contents) && first <= last <= |frames|
    requires forall i :: 0 <= i < first ==> frames[i].DEnd() <= start
    requires forall i :: last <= i < |frames| ==> frames[i].dOff >= end
    ensures SelOk(NonEmpty(frames[first..last]), contents)
    ensures PartsOf(NonEmpty(frames[first..last]), contents, start, end) == PartsOf(frames, contents, start, end)
  {
    hide Part, PartsOf, NonEmpty;
    DropLate(frames, contents, start, end, last);
    DropEarly(frames[..last], contents, start, end, first);
    assert frames[..last][first..] == frames[first..last];
    PartsOfNonEmpty(frames[first..last], contents, start, end);
  }

  lemma {:induction false} AllEmpty(frames: seq<FrameEntry>, contents: seq<bytes>, at: nat)
    requires SelOk(frames, contents)
    ensures SelOk([], contents) && PartsOf(frames, contents, at, at) == [] == PartsOf([], contents, at, at)
    decreases |frames|
  {
    if frames != [] { AllEmpty(frames[1..], contents, at); }
  }

  lemma AfterRange(frames: seq<FrameEntry>, end: nat, last: nat)
    requires Chained(frames) && last <= |frames| && (last < |frames| ==> frames[last].dOff >= end)
    ensures forall i :: last <= i < |frames| ==> frames[i].dOff >= end
  {
    forall i | last <= i < |frames| ensures frames[i].dOff >= end {
      if last < i { ChainMono(frames, last, i); }
    }
  }

  /** The first frame of a range comes before its end. */
  lemma Bracket(frames: seq<FrameEntry>, start: nat, end: nat, first: nat, last: nat)
    requires start < end && first == EndsBy(frames, start) && last == StartsBefore(frames, end)
    ensures first <= last
  {
  }

  // ---- Reading ----

  /** The compressed bytes of `f` decode to `c`. */
  ghost predicate DecodesTo(z: Zstd, data: bytes, f: FrameEntry, c: bytes) {
    f.CEnd() <= |data| && DecompressFrame(z, f, data[f.cOff..f.CEnd()]) == Ok(c)
  }

  /** `data` is a stream whose frames hold `contents`; empty frames are never looked at. */
  ghost predicate Stream(z: Zstd, data: bytes, frames: seq<FrameEntry>, contents: seq<bytes>) {
    && Chained(frames) && Sized(frames, contents)
    && forall i :: 0 <= i < |frames| && frames[i].dSize > 0 ==> DecodesTo(z, data, frames[i], contents[i])
  }

  /** The frame lies in the data and decodes. */
  predicate Decodes(z: Zstd, data: bytes, f: FrameEntry) {
    f.CEnd() <= |data| && DecompressFrame(z, f, data[f.cOff..f.CEnd()]).Ok?
  }

  /** What frame `f` decodes to, and zeros of its length if it does not. */
  function DecodedOr(z: Zstd, data: bytes, f: FrameEntry): (c: bytes)
    ensures |c| == f.dSize
  {
    if f.dSize > 0 && Decodes(z, data, f) then DecompressFrame(z, f, data[f.cOff..f.CEnd()]).value
    else seq(f.dSize, _ => 0)
  }

  function ContentsOf(z: Zstd, data: bytes, frames: seq<FrameEntry>): seq<bytes> {
    seq(|frames|, i requires 0 <= i < |frames| => DecodedOr(z, data, frames[i]))
  }

  lemma ContentsSized(z: Zstd, data: bytes, frames: seq<FrameEntry>)
    ensures Sized(frames, ContentsOf(z, data, frames))
  {
    hide DecodedOr;
  }

  /** The contents of a stream are what its frames decode to. */
  lemma StreamContents(z: Zstd, data: bytes, frames: seq<FrameEntry>, contents: seq<bytes>)
    requires Stream(z, data, frames, contents)
    ensures ContentsOf(z, data, frames) == contents
  {
    hide DecompressFrame;
    var got := ContentsOf(z, data, frames);
    forall i | 0 <= i < |frames| ensures got[i] == contents[i] {
      if frames[i].dSize > 0 { assert DecodesTo(z, data, frames[i], contents[i]); }
    }
  }

  /** The content of `f` meets the range. */
  predicate Overlaps(f: FrameEntry, start: nat, end: nat) {
    f.dSize > 0 && start < end && start < f.DEnd() && f.dOff < end
  }

  /** Every frame whose content meets the range decodes. */
  ghost predicate RangeDecodes(z: Zstd, data: bytes, frames: seq<FrameEntry>, start: nat, end: nat) {
    forall i :: 0 <= i < |frames| && Overlaps(frames[i], start, end) ==> Decodes(z, data, frames[i])
  }

  /** All of the selected frames decode. */
  ghost predicate SelDecodes(z: Zstd, data: bytes, sel: seq<FrameEntry>) {
    forall i :: 0 <= i < |sel| ==> Decodes(z, data, sel[i])
  }

  /** Frames of the table, at their places in it and none of them empty. */
  ghost predicate FromTable(frames: seq<FrameEntry>, sel: seq<FrameEntry>) {
    forall i :: 0 <= i < |sel| ==> sel[i].index < |frames| && frames[sel[i].index] == sel[i] && sel[i].dSize > 0
  }

  lemma DecodedIs(z: Zstd, data: bytes, frames: seq<FrameEntry>, f: FrameEntry)
    requires f.index < |frames| && frames[f.index] == f && f.dSize > 0 && Decodes(z, data, f)
    ensures DecompressFrame(z, f, data[f.cOff..f.CEnd()]) == Ok(ContentsOf(z, data, frames)[f.index])
    ensures DecodesTo(z, data, f, ContentsOf(z, data, frames)[f.index])
  {
    hide DecompressFrame;
  }

  lemma {:induction false} NonEmptyFrom(frames: seq<FrameEntry>)
    ensures forall f :: f in NonEmpty(frames) ==> f in frames && f.dSize > 0
  {
    if frames != [] { NonEmptyFrom(frames[1..]); }
  }

  lemma {:induction false} NonEmptyHas(frames: seq<FrameEntry>, f: FrameEntry)
    requires f in frames && f.dSize > 0
    ensures f in NonEmpty(frames)
  {
    if f != frames[0] { NonEmptyHas(frames[1..], f); }
  }

  /** The selected frames are exactly those that meet the range. */
  lemma SelIsOverlap(frames: seq<FrameEntry>, start: nat, end: nat, i: nat)
    requires Chained(frames) && start <= end <= DecompressedLen(frames) && i < |frames|
    ensures FramesForRange(frames, start, end).Ok?
    ensures frames[i] in FramesForRange(frames, start, end).value <==> Overlaps(frames[i], start, end)
  {
    hide NonEmpty;
    if start < end {
      SelMeets(frames, start, end);
      var first, last := EndsBy(frames, start), StartsBefore(frames, end);
      Bracket(frames, start, end, first, last);
      if Overlaps(frames[i], start, end) {
        if i >= last && last < |frames| && last < i { ChainMono(frames, last, i); }
        assert first <= i < last;
        assert frames[i] == frames[first..last][i - first];
        NonEmptyHas(frames[first..last], frames[i]);
      }
    }
  }

  lemma SelFromTable(frames: seq<FrameEntry>, start: nat, end: nat)
    requires Chained(frames) && start <= end <= DecompressedLen(frames)
    ensures FramesForRange(frames, start, end).Ok? && FromTable(frames, FramesForRange(frames, start, end).value)
  {
    hide FramesForRange;
    RangeErr(frames, start, end);
    var sel := FramesForRange(frames, start, end).value;
    if start < end {
      SelMeets(frames, start, end);
      forall i | 0 <= i < |sel| ensures sel[i].index < |frames| && frames[sel[i].index] == sel[i] && sel[i].dSize > 0 {
        assert sel[i] in sel;
        var j :| 0 <= j < |frames| && frames[j] == sel[i];
        ChainIndex(frames, j);
      }
    }
  }

  /** The selected frames decode exactly if every frame that meets the range does. */
  lemma SelDecodesIff(z: Zstd, data: bytes, frames: seq<FrameEntry>, start: nat, end: nat)
    requires Chained(frames) && start <= end <= DecompressedLen(frames)
    ensures FramesForRange(frames, start, end).Ok?
    ensures SelDecodes(z, data, FramesForRange(frames, start, end).value) <==> RangeDecodes(z, data, frames, start, end)
  {
    hide FramesForRange, Decodes, Overlaps, Chained;
    RangeErr(frames, start, end);
    SelFromTable(frames, start, end);
    var sel := FramesForRange(frames, start, end).value;
    if SelDecodes(z, data, sel) {
      forall i | 0 <= i < |frames| && Overlaps(frames[i], start, end) ensures Decodes(z, data, frames[i]) {
        SelIsOverlap(frames, start, end, i);
        var k :| 0 <= k < |sel| && sel[k] == frames[i];
      }
    }
    if RangeDecodes(z, data, frames, start, end) {
      forall i | 0 <= i < |sel| ensures Decodes(z, data, sel[i]) {
        assert sel[i] in sel;
        SelIsOverlap(frames, start, end, sel[i].index);
      }
    }
  }

  lemma WholeSlice(frames: seq<FrameEntry>, contents: seq<bytes>, start: nat, end: nat)
    requires Chained(frames) && Sized(frames, contents) && start <= end <= DecompressedLen(frames)
    ensures |Concat(contents)| == DecompressedLen(frames)
    ensures Parts(frames, contents, start, end, |frames|) == Concat(contents)[start..end]
  {
    PartsAreSlice(frames, contents, start, end, |frames|);
    ConcatLen(frames, contents, |frames|);
    assert contents[..|frames|] == contents;
  }

  /** The bytes of one frame that `read_range` keeps are its part. */
  lemma PartIs(f: FrameEntry, content: bytes, start: nat, end: nat)
    requires |content| == f.dSize && start < f.DEnd() && f.dOff < end && start <= end && f.dSize > 0
    ensures var from, to := Max(start, f.dOff) - f.dOff, Min(end, f.DEnd()) - f.dOff;
            0 <= from <= to <= |content| && content[from..to] == Part(f, content, start, end)
  {
    var from, to := Max(start, f.dOff) - f.dOff, Min(end, f.DEnd()) - f.dOff;
    if from == to { assert content[from..to] == []; }
  }

  /** Every selected frame meets the range. */
  lemma SelMeets(frames: seq<FrameEntry>, start: nat, end: nat)
    requires Chained(frames) && start < end <= DecompressedLen(frames)
    ensures FramesForRange(frames, start, end).Ok?
    ensures forall f :: f in FramesForRange(frames, start, end).value ==>
              f in frames && f.dSize > 0 && start < f.DEnd() && f.dOff < end
  {
    hide NonEmpty;
    var first, last := EndsBy(frames, start), StartsBefore(frames, end);
    Bracket(frames, start, end, first, last);
    var sel := frames[first..last];
    NonEmptyFrom(sel);
    forall f | f in sel ensures start < f.DEnd() && f.dOff < end {
      var j :| first <= j < last && frames[j] == f;
      if first < j { ChainMono(frames, first, j); }
    }
  }

  /** `read_range`: frame by frame. It succeeds exactly if the range lies in the content and every frame
      that meets it decodes, and then it is the slice of what the frames decode to. */
  method ReadRange(z: Zstd, data: bytes, frames: seq<FrameEntry>, start: nat, end: nat)
    returns (r: Result<bytes>)
    requires Chained(frames)
    ensures r.Ok? <==> start <= end <= DecompressedLen(frames) && RangeDecodes(z, data, frames, start, end)
    ensures start > end || end > DecompressedLen(frames) ==> r == Err(Corrupt)
    ensures r.Ok? ==> end <= |Concat(ContentsOf(z, data, frames))|
                      && r.value == Concat(ContentsOf(z, data, frames))[start..end]
  {
    hide Chained, FramesForRange, DecompressFrame, Concat, Parts, PartsOf, Part, DecompressedLen, ContentsOf, Decodes,
         RangeDecodes, SelDecodes;
    var sel := FramesForRange(frames, start, end);
    RangeErr(frames, start, end);
    if sel.Err? { return Err(Corrupt); }
    ghost var contents := ContentsOf(z, data, frames);
    RangeParts(z, data, frames, start, end);
    SelDecodesIff(z, data, frames, start, end);
    if start < end { SelMeets(frames, start, end); }
    var fs := sel.value;
    var out: bytes := [];
    NoParts(fs, contents, start, end);
    SelNone(z, data, fs);
    var k := 0;
    while k < |fs|
      invariant 0 <= k <= |fs| && SelOk(fs[..k], contents) && out == PartsOf(fs[..k], contents, start, end)
      invariant SelDecodes(z, data, fs[..k])
    {
      var f := fs[k];
      assert f in fs;
      SelNext(z, data, fs, k);
      if f.CEnd() > |data| { return Err(Corrupt); }
      var c := DecompressFrame(z, f, data[f.cOff..f.CEnd()]);
      if c.Err? { return Err(c.error); }
      DecodedIs(z, data, frames, f);
      DecompressedLength(z, f, data[f.cOff..f.CEnd()]);
      PartIs(f, c.value, start, end);
      var from, to := Max(start, f.dOff) - f.dOff, Min(end, f.DEnd()) - f.dOff;
      out := out + c.value[from..to];
      NextPart(fs, contents, start, end, k);
      k := k + 1;
    }
    assert fs[..k] == fs;
    return Ok(out);
  }

  lemma SelNone(z: Zstd, data: bytes, sel: seq<FrameEntry>)
    ensures SelDecodes(z, data, sel[..0])
  {
  }

  lemma SelNext(z: Zstd, data: bytes, sel: seq<FrameEntry>, k: nat)
    requires k < |sel|
    ensures Decodes(z, data, sel[k])
            == (sel[k].CEnd() <= |data| && DecompressFrame(z, sel[k], data[sel[k].cOff..sel[k].CEnd()]).Ok?)
    ensures SelDecodes(z, data, sel[..k + 1]) <==> SelDecodes(z, data, sel[..k]) && Decodes(z, data, sel[k])
    ensures SelDecodes(z, data, sel) ==> Decodes(z, data, sel[k])
  {
    hide DecompressFrame;
    assert sel[..k + 1] == sel[..k] + [sel[k]];
  }

  lemma RangeErr(frames: seq<FrameEntry>, start: nat, end: nat)
    ensures FramesForRange(frames, start, end).Ok? <==> start <= end <= DecompressedLen(frames)
    ensures start == end <= DecompressedLen(frames) ==> FramesForRange(frames, start, end) == Ok([])
  {
  }

  lemma DecompressedLength(z: Zstd, f: FrameEntry, compressed: bytes)
    ensures DecompressFrame(z, f, compressed).Ok? ==> |DecompressFrame(z, f, compressed).value| == f.dSize
  {
  }

  /** What a range read must return. */
  lemma RangeParts(z: Zstd, data: bytes, frames: seq<FrameEntry>, start: nat, end: nat)
    requires Chained(frames) && start <= end <= DecompressedLen(frames)
    ensures FramesForRange(frames, start, end).Ok? && end <= |Concat(ContentsOf(z, data, frames))|
    ensures var sel, contents := FramesForRange(frames, start, end).value, ContentsOf(z, data, frames);
            && SelOk(sel, contents) && FromTable(frames, sel)
            && PartsOf(sel, contents, start, end) == Concat(contents)[start..end]
  {
    hide Concat, Parts, PartsOf, Part, FramesForRange, ContentsOf, Chained;
    var contents := ContentsOf(z, data, frames);
    ContentsSized(z, data, frames);
    SelFromTable(frames, start, end);
    SelectedParts(frames, contents, start, end);
    WholeSlice(frames, contents, start, end);
  }

  lemma NoParts(fs: seq<FrameEntry>, contents: seq<bytes>, start: nat, end: nat)
    ensures SelOk(fs[..0], contents) && PartsOf(fs[..0], contents, start, end) == []
  {
  }

  lemma NextPart(fs: seq<FrameEntry>, contents: seq<bytes>, start: nat, end: nat, k: nat)
    requires SelOk(fs, contents) && k < |fs|
    ensures SelOk(fs[..k], contents) && SelOk(fs[..k + 1], contents)
    ensures PartsOf(fs[..k + 1], contents, start, end)
            == PartsOf(fs[..k], contents, start, end) + Part(fs[k], contents[fs[k].index], start, end)
  {
    hide PartsOf, Part;
    PartsOfLast(fs[..k + 1], contents, start, end);
    assert fs[..k + 1][..k] == fs[..k];
  }
}
