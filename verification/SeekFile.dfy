/** A whole seekable stream: opening it, and that what was written is what a range read returns. */
module SeekFile {
  import opened Base
  import opened Seekable
  import opened SeekRange

  function CompressedLen(frames: seq<FrameEntry>): nat {
    if frames == [] then 0 else frames[|frames| - 1].CEnd()
  }

  /** `read_from`: the table at the end, which with the frames must account for every byte. */
  function ReadFrom(stream: bytes): Result<SeekTable> {
    if |stream| < FOOTER_LEN then Err(Corrupt)
    else
      var len := TableFrameLen(stream[|stream| - FOOTER_LEN..]);
      if len.Err? then Err(len.error)
      else if len.value > |stream| then Err(Corrupt)
      else
        var table := ParseTable(stream[|stream| - len.value..]);
        if table.Err? then table
        else if CompressedLen(table.value.frames) + len.value != |stream| then Err(Corrupt)
        else table
  }

  lemma TableLenBound(footer: bytes)
    ensures TableFrameLen(footer).Ok? ==> TableFrameLen(footer).value >= FRAME_HEADER_LEN + FOOTER_LEN
  {
    hide FromLE;
  }

  /** What does not parse does not open. */
  lemma NoTable(stream: bytes)
    ensures |stream| < FOOTER_LEN ==> ParseTable(stream) == Err(Corrupt)
    ensures |stream| >= FOOTER_LEN ==>
              var len := TableFrameLen(stream[|stream| - FOOTER_LEN..]);
              && (len.Err? ==> ParseTable(stream) == Err(len.error))
              && (len.Ok? && len.value > |stream| ==> ParseTable(stream) == Err(Corrupt))
  {
    hide FromLE, ParseEntries, TableFrameLen;
    if |stream| >= FOOTER_LEN { TableLenBound(stream[|stream| - FOOTER_LEN..]); }
  }

  /** Parsing looks at the table only. */
  lemma ParseSuffix(stream: bytes, tail: bytes, footer: bytes, len: nat)
    requires FRAME_HEADER_LEN + FOOTER_LEN <= len <= |stream| && tail == stream[|stream| - len..]
    requires footer == stream[|stream| - FOOTER_LEN..] && TableFrameLen(footer) == Ok(len)
    ensures ParseTable(tail) == ParseTable(stream)
    ensures ParseTable(tail).Ok? ==> ParseTable(tail).value.tableLen == len
  {
    hide FromLE, ParseEntries;
    assert tail[|tail| - FOOTER_LEN..] == footer;
    assert tail[|tail| - len..] == tail;
  }

  /** Fetching only the table finds the table that parsing the whole stream finds. */
  lemma ReadFromParses(stream: bytes)
    ensures var t := ParseTable(stream);
            ReadFrom(stream)
            == if t.Ok? && CompressedLen(t.value.frames) + t.value.tableLen != |stream| then Err(Corrupt) else t
  {
    hide ParseTable, TableFrameLen;
    NoTable(stream);
    if |stream| >= FOOTER_LEN {
      var footer := stream[|stream| - FOOTER_LEN..];
      var len := TableFrameLen(footer);
      TableLenBound(footer);
      if len.Ok? && len.value <= |stream| {
        ParseSuffix(stream, stream[|stream| - len.value..], footer, len.value);
      }
    }
  }

  /** Every frame of an opened stream lies inside it, before the table. */
  lemma OpenedInside(stream: bytes, i: nat)
    requires ReadFrom(stream).Ok? && i < |ReadFrom(stream).value.frames|
    ensures var t := ReadFrom(stream).value;
            Chained(t.frames) && t.frames[i].CEnd() + t.tableLen <= |stream|
  {
    ReadFromParses(stream);
    TableChained(stream);
    hide ReadFrom, ParseTable, Chained;
    var frames := ReadFrom(stream).value.frames;
    CEndMono(frames, i, |frames| - 1);
  }

  lemma {:induction false} CEndMono(frames: seq<FrameEntry>, i: nat, j: nat)
    requires Chained(frames) && i <= j < |frames|
    ensures frames[i].CEnd() <= frames[j].CEnd()
  {
    if i < j {
      CEndMono(frames, i, j - 1);
      assert Linked(frames, 0, 0, 0, j);
    }
  }

  // ---- Written streams ----

  /** Frame by frame, `packed` decompresses to `contents`. */
  ghost predicate Packs(z: Zstd, packed: seq<bytes>, contents: seq<bytes>) {
    |packed| == |contents| && forall i :: 0 <= i < |packed| ==> z.unzip(packed[i]) == Some(contents[i])
  }

  function SizesOf(z: Zstd, packed: seq<bytes>, contents: seq<bytes>): (r: seq<FrameSize>)
    requires |packed| == |contents|
    ensures |r| == |packed|
  {
    seq(|packed|, i requires 0 <= i < |packed| => FrameSize(|packed[i]|, |contents[i]|, z.sum(contents[i])))
  }

  /** The format can hold the frames. */
  predicate Storable(sizes: seq<FrameSize>, checksums: bool) {
    SizesFit(sizes) && |sizes| < Pow256(4) && EntriesLen(|sizes|, checksums) + FOOTER_LEN < Pow256(4)
  }

  function StreamBytes(packed: seq<bytes>, sizes: seq<FrameSize>, checksums: bool): bytes
    requires Storable(sizes, checksums)
  {
    Concat(packed) + TableBytes(sizes, checksums, 0)
  }

  lemma {:induction false} EntryAt(sizes: seq<FrameSize>, checksums: bool, index: nat, c: nat, d: nat, i: nat)
    requires i < |sizes|
    ensures var es := Entries(sizes, checksums, index, c, d);
            && |es| == |sizes| && es[i].cSize == sizes[i].c && es[i].dSize == sizes[i].d
            && es[i].checksum == if checksums then Some(sizes[i].sum) else None
    decreases |sizes|
  {
    var z := sizes[0];
    if i > 0 { EntryAt(sizes[1..], checksums, index + 1, c + z.c, d + z.d, i - 1); }
    else if |sizes| > 1 { EntryAt(sizes[1..], checksums, index + 1, c + z.c, d + z.d, 0); }
  }

  lemma {:induction false} ConcatAt(parts: seq<bytes>, i: nat)
    requires i < |parts|
    ensures var at := |Concat(parts[..i])|;
            at + |parts[i]| <= |Concat(parts)| && Concat(parts)[at..at + |parts[i]|] == parts[i]
    decreases |parts|
  {
    var n := |parts| - 1;
    var at := |Concat(parts[..i])|;
    if i < n {
      ConcatAt(parts[..n], i);
      assert parts[..n][..i] == parts[..i];
      assert Concat(parts)[at..at + |parts[i]|] == Concat(parts[..n])[at..at + |parts[i]|];
    }
  }

  /** Compressed offsets are where the frames were put. */
  lemma {:induction false} PlacedAt(frames: seq<FrameEntry>, packed: seq<bytes>, n: nat)
    requires Chained(frames) && |packed| == |frames| && n <= |frames|
    requires forall i :: 0 <= i < |frames| ==> frames[i].cSize == |packed[i]|
    ensures |Concat(packed[..n])| == if n == 0 then 0 else frames[n - 1].CEnd()
    ensures n < |frames| ==> frames[n].cOff == |Concat(packed[..n])|
  {
    if n < |frames| { assert Linked(frames, 0, 0, 0, n); }
    if n > 0 {
      PlacedAt(frames, packed, n - 1);
      assert packed[..n][..n - 1] == packed[..n - 1];
    }
  }

  lemma EntriesSized(z: Zstd, packed: seq<bytes>, contents: seq<bytes>, checksums: bool, frames: seq<FrameEntry>)
    requires |packed| == |contents| && frames == Entries(SizesOf(z, packed, contents), checksums, 0, 0, 0)
    ensures Sized(frames, contents) && |frames| == |packed|
    ensures forall i :: 0 <= i < |frames| ==>
              && frames[i].cSize == |packed[i]|
              && frames[i].checksum == if checksums then Some(z.sum(contents[i])) else None
  {
    hide Entries;
    var sizes := SizesOf(z, packed, contents);
    if packed == [] { NoEntries(checksums); }
    else { EntryAt(sizes, checksums, 0, 0, 0, 0); }
    forall i | 0 <= i < |frames|
      ensures frames[i].cSize == |packed[i]| && frames[i].dSize == |contents[i]|
      ensures frames[i].checksum == if checksums then Some(z.sum(contents[i])) else None
    {
      EntryAt(sizes, checksums, 0, 0, 0, i);
    }
  }

  lemma NoEntries(checksums: bool)
    ensures Entries([], checksums, 0, 0, 0) == []
  {
  }

  /** A frame of the written stream decodes to its content. */
  lemma FrameDecodes(z: Zstd, packed: seq<bytes>, contents: seq<bytes>, table: bytes, frames: seq<FrameEntry>, i: nat)
    requires Packs(z, packed, contents) && Chained(frames) && Sized(frames, contents) && i < |frames|
    requires forall k :: 0 <= k < |frames| ==> frames[k].cSize == |packed[k]|
    requires frames[i].checksum.Some? ==> frames[i].checksum.value == z.sum(contents[i])
    ensures DecodesTo(z, Concat(packed) + table, frames[i], contents[i])
  {
    PlacedAt(frames, packed, i);
    ConcatAt(packed, i);
    hide Concat, Chained;
    var f := frames[i];
    assert (Concat(packed) + table)[f.cOff..f.CEnd()] == Concat(packed)[f.cOff..f.CEnd()] == packed[i];
  }

  /** A written stream opens, and its frames hold what was written. */
  lemma StreamOpens(z: Zstd, packed: seq<bytes>, contents: seq<bytes>, checksums: bool, stream: bytes)
    requires Packs(z, packed, contents) && Storable(SizesOf(z, packed, contents), checksums)
    requires stream == StreamBytes(packed, SizesOf(z, packed, contents), checksums)
    ensures ReadFrom(stream).Ok? && ReadFrom(stream).value.hasChecksums == checksums
    ensures Stream(z, stream, ReadFrom(stream).value.frames, contents)
    ensures DecompressedLen(ReadFrom(stream).value.frames) == |Concat(contents)|
  {
    hide Concat, Entries, ReadFrom, ParseTable, TableBytes, Chained, SizesOf, SizesFit;
    var sizes := SizesOf(z, packed, contents);
    var table := TableBytes(sizes, checksums, 0);
    var frames := Entries(sizes, checksums, 0, 0, 0);
    TableRoundTrip(Concat(packed), sizes, checksums, 0, table);
    ReadFromParses(stream);
    TableChained(stream);
    EntriesSized(z, packed, contents, checksums, frames);
    PlacedAt(frames, packed, |frames|);
    assert packed[..|frames|] == packed && contents[..|frames|] == contents;
    ConcatLen(frames, contents, |frames|);
    forall i | 0 <= i < |frames| && frames[i].dSize > 0
      ensures DecodesTo(z, stream, frames[i], contents[i])
    {
      FrameDecodes(z, packed, contents, table, frames, i);
    }
  }

  /** Opens a stream and reads a range of it: exactly that range of what was written. */
  method OpenAndRead(z: Zstd, stream: bytes, start: nat, end: nat,
                     ghost packed: seq<bytes>, ghost contents: seq<bytes>, ghost checksums: bool)
    returns (r: Result<bytes>)
    requires Packs(z, packed, contents) && Storable(SizesOf(z, packed, contents), checksums)
    requires stream == StreamBytes(packed, SizesOf(z, packed, contents), checksums)
    ensures r == if start <= end <= |Concat(contents)| then Ok(Concat(contents)[start..end]) else Err(Corrupt)
  {
    StreamOpens(z, packed, contents, checksums, stream);
    hide ReadFrom, Stream, Concat, DecompressedLen, RangeDecodes, ContentsOf, StreamBytes, SizesOf, Storable, Packs;
    var t := ReadFrom(stream).value;
    assert Chained(t.frames) by { StreamChained(z, stream, t.frames, contents); }
    StreamContents(z, stream, t.frames, contents);
    StreamDecodes(z, stream, t.frames, contents, start, end);
    r := ReadRange(z, stream, t.frames, start, end);
  }

  lemma StreamDecodes(z: Zstd, stream: bytes, frames: seq<FrameEntry>, contents: seq<bytes>, start: nat, end: nat)
    requires Stream(z, stream, frames, contents)
    ensures RangeDecodes(z, stream, frames, start, end)
  {
    hide DecompressFrame;
    forall i | 0 <= i < |frames| && Overlaps(frames[i], start, end) ensures Decodes(z, stream, frames[i]) {
      assert DecodesTo(z, stream, frames[i], contents[i]);
    }
  }

  lemma StreamChained(z: Zstd, stream: bytes, frames: seq<FrameEntry>, contents: seq<bytes>)
    requires Stream(z, stream, frames, contents)
    ensures Chained(frames)
  {
  }
}
