/** Seekable zstd streams (zstd seekable format v0.1.0): the seek table, and reading a range. */
module Seekable {
  import opened Base

  const SKIPPABLE_MAGIC: nat := 0x184D_2A5E
  const SEEKABLE_MAGIC: nat := 0x8F92_EAB1
  const FOOTER_LEN: nat := 9
  const FRAME_HEADER_LEN: nat := 8
  const MAX_FRAME_DECOMPRESSED: nat := 0x4000_0000

  /** One frame, and where it lies in the stream and in the content. */
  datatype FrameEntry = FrameEntry(index: nat, cOff: nat, cSize: nat, dOff: nat, dSize: nat, checksum: Option<nat>)
  {
    function CEnd(): nat { cOff + cSize }

    function DEnd(): nat { dOff + dSize }
  }

  datatype SeekTable = SeekTable(frames: seq<FrameEntry>, hasChecksums: bool, tableLen: nat)

  // ---- The table's bytes ----

  predicate ChecksumFlag(descriptor: byte) { descriptor >= 128 }

  predicate ReservedBits(descriptor: byte) { descriptor % 128 >= 4 }

  function EntryLen(checksums: bool): nat { if checksums then 12 else 8 }

  function EntriesLen(n: nat, checksums: bool): nat { if checksums then 12 * n else 8 * n }

  /** Length of the whole seek-table frame, from the last bytes of the stream. */
  function TableFrameLen(footer: bytes): Result<nat> {
    if |footer| != FOOTER_LEN then Err(Corrupt)
    else if FromLE(footer[5..9]) != SEEKABLE_MAGIC then Err(Corrupt)
    else if ReservedBits(footer[4]) then Err(Unsupported)
    else Ok(FRAME_HEADER_LEN + EntriesLen(FromLE(footer[0..4]), ChecksumFlag(footer[4])) + FOOTER_LEN)
  }

  /** The entries from `at` on, `n` of them, with running offsets. */
  function ParseEntries(table: bytes, checksums: bool, at: nat, index: nat, n: nat, cOff: nat, dOff: nat)
    : Result<seq<FrameEntry>>
    requires at + EntriesLen(n, checksums) <= |table|
    decreases n
  {
    if n == 0 then Ok([])
    else
      var c, d := FromLE(table[at..at + 4]), FromLE(table[at + 4..at + 8]);
      var sum := if checksums then Some(FromLE(table[at + 8..at + 12])) else None;
      if d > MAX_FRAME_DECOMPRESSED then Err(Unsupported)
      else
        var rest := ParseEntries(table, checksums, at + EntryLen(checksums), index + 1, n - 1, cOff + c, dOff + d);
        if rest.Err? then rest else Ok([FrameEntry(index, cOff, c, dOff, d, sum)] + rest.value)
  }

  /** What `parse` makes of bytes that end where the stream ends. */
  function ParseTable(tail: bytes): Result<SeekTable> {
    if |tail| < FOOTER_LEN then Err(Corrupt)
    else
      var footer := tail[|tail| - FOOTER_LEN..];
      var len := TableFrameLen(footer);
      if len.Err? then Err(len.error)
      else if |tail| < len.value then Err(Corrupt)
      else
        var table := tail[|tail| - len.value..];
        if FromLE(table[0..4]) != SKIPPABLE_MAGIC then Err(Corrupt)
        else if FromLE(table[4..8]) != len.value - FRAME_HEADER_LEN then Err(Corrupt)
        else
          var checksums := ChecksumFlag(footer[4]);
          var frames := ParseEntries(table, checksums, FRAME_HEADER_LEN, 0, FromLE(footer[0..4]), 0, 0);
          if frames.Err? then Err(frames.error) else Ok(SeekTable(frames.value, checksums, len.value))
  }

  /** One more entry parsed. */
  lemma ParseStep(table: bytes, checksums: bool, at: nat, i: nat, n: nat, cOff: nat, dOff: nat, frames: seq<FrameEntry>)
    requires n > 0 && at + EntriesLen(n, checksums) <= |table|
    ensures var c, d := FromLE(table[at..at + 4]), FromLE(table[at + 4..at + 8]);
            var sum := if checksums then Some(FromLE(table[at + 8..at + 12])) else None;
            var all := ParseEntries(table, checksums, at, i, n, cOff, dOff);
            if d > MAX_FRAME_DECOMPRESSED then all == Err(Unsupported)
            else
              var rest := ParseEntries(table, checksums, at + EntryLen(checksums), i + 1, n - 1, cOff + c, dOff + d);
              Onto(frames, all) == Onto(frames + [FrameEntry(i, cOff, c, dOff, d, sum)], rest)
  {
    hide FromLE;
    var c, d := FromLE(table[at..at + 4]), FromLE(table[at + 4..at + 8]);
    var sum := if checksums then Some(FromLE(table[at + 8..at + 12])) else None;
    if d <= MAX_FRAME_DECOMPRESSED {
      var rest := ParseEntries(table, checksums, at + EntryLen(checksums), i + 1, n - 1, cOff + c, dOff + d);
      var f := FrameEntry(i, cOff, c, dOff, d, sum);
      assert rest.Ok? ==> frames + ([f] + rest.value) == frames + [f] + rest.value;
    }
  }

  ghost function Onto(frames: seq<FrameEntry>, rest: Result<seq<FrameEntry>>): Result<seq<FrameEntry>> {
    if rest.Err? then rest else Ok(frames + rest.value)
  }

  method ParseFrames(table: bytes, checksums: bool, count: nat) returns (r: Result<seq<FrameEntry>>)
    requires FRAME_HEADER_LEN + EntriesLen(count, checksums) <= |table|
    ensures r == ParseEntries(table, checksums, FRAME_HEADER_LEN, 0, count, 0, 0)
  {
    hide FromLE, ParseEntries;
    var frames: seq<FrameEntry> := [];
    var at: nat, cOff: nat, dOff: nat, i: nat := FRAME_HEADER_LEN, 0, 0, 0;
    ghost var all := ParseEntries(table, checksums, at, 0, count, 0, 0);
    assert all.Ok? ==> frames + all.value == all.value;
    while i < count
      invariant 0 <= i <= count && at + EntriesLen(count - i, checksums) <= |table|
      invariant all == Onto(frames, ParseEntries(table, checksums, at, i, count - i, cOff, dOff))
    {
      ParseStep(table, checksums, at, i, count - i, cOff, dOff, frames);
      var c, d := FromLE(table[at..at + 4]), FromLE(table[at + 4..at + 8]);
      var sum := if checksums then Some(FromLE(table[at + 8..at + 12])) else None;
      if d > MAX_FRAME_DECOMPRESSED { return Err(Unsupported); }
      frames := frames + [FrameEntry(i, cOff, c, dOff, d, sum)];
      at, cOff, dOff, i := at + EntryLen(checksums), cOff + c, dOff + d, i + 1;
    }
    ParseNone(table, checksums, at, i, cOff, dOff);
    assert frames + [] == frames;
    return Ok(frames);
  }

  lemma ParseNone(table: bytes, checksums: bool, at: nat, i: nat, cOff: nat, dOff: nat)
    requires at <= |table|
    ensures ParseEntries(table, checksums, at, i, 0, cOff, dOff) == Ok([])
  {
  }

  /** `SeekTable::parse`. */
  method Parse(tail: bytes) returns (r: Result<SeekTable>)
    ensures r == ParseTable(tail)
  {
    hide FromLE, ParseEntries;
    if |tail| < FOOTER_LEN { return Err(Corrupt); }
    var footer := tail[|tail| - FOOTER_LEN..];
    var len := TableFrameLen(footer);
    if len.Err? { return Err(len.error); }
    if |tail| < len.value { return Err(Corrupt); }
    var table := tail[|tail| - len.value..];
    if FromLE(table[0..4]) != SKIPPABLE_MAGIC { return Err(Corrupt); }
    if FromLE(table[4..8]) != len.value - FRAME_HEADER_LEN { return Err(Corrupt); }
    var checksums := ChecksumFlag(footer[4]);
    var frames := ParseFrames(table, checksums, FromLE(footer[0..4]));
    if frames.Err? { return Err(frames.error); }
    return Ok(SeekTable(frames.value, checksums, len.value));
  }

  // ---- What a parsed table looks like ----

  /** Frames follow each other in the stream and in the content, from `(c, d)` on. */
  ghost predicate ChainedFrom(frames: seq<FrameEntry>, index: nat, c: nat, d: nat) {
    forall i :: 0 <= i < |frames| ==> Linked(frames, index, c, d, i)
  }

  /** Frame `i` starts where the one before it ends. */
  ghost predicate Linked(frames: seq<FrameEntry>, index: nat, c: nat, d: nat, i: nat)
    requires i < |frames|
  {
    && frames[i].index == index + i
    && frames[i].cOff == (if i == 0 then c else frames[i - 1].CEnd())
    && frames[i].dOff == (if i == 0 then d else frames[i - 1].DEnd())
  }

  ghost predicate Chained(frames: seq<FrameEntry>) { ChainedFrom(frames, 0, 0, 0) }

  lemma {:induction false} ParsedChained(table: bytes, checksums: bool, at: nat, index: nat, n: nat, cOff: nat, dOff: nat)
    requires at + EntriesLen(n, checksums) <= |table|
    ensures var r := ParseEntries(table, checksums, at, index, n, cOff, dOff);
            r.Ok? ==> |r.value| == n && ChainedFrom(r.value, index, cOff, dOff)
    decreases n
  {
    hide FromLE;
    if n > 0 {
      var c, d := FromLE(table[at..at + 4]), FromLE(table[at + 4..at + 8]);
      ParsedChained(table, checksums, at + EntryLen(checksums), index + 1, n - 1, cOff + c, dOff + d);
      hide ChainedFrom;
      var r := ParseEntries(table, checksums, at, index, n, cOff, dOff);
      if r.Ok? {
        assert r.value == [r.value[0]] + r.value[1..];
        ChainCons(r.value[0], r.value[1..], index, cOff, dOff);
      }
    } else {
      assert ChainedFrom([], index, cOff, dOff);
    }
  }

  lemma ChainCons(f: FrameEntry, rest: seq<FrameEntry>, index: nat, c: nat, d: nat)
    requires f.index == index && f.cOff == c && f.dOff == d && ChainedFrom(rest, index + 1, f.CEnd(), f.DEnd())
    ensures ChainedFrom([f] + rest, index, c, d)
  {
    var all := [f] + rest;
    forall i | 0 <= i < |all| ensures Linked(all, index, c, d, i) {
      if i > 0 {
        assert Linked(rest, index + 1, f.CEnd(), f.DEnd(), i - 1);
        assert all[i] == rest[i - 1] && all[i - 1] == if i == 1 then f else rest[i - 2];
      }
    }
  }

  /** Every parsed table's frames tile the stream and the content. */
  lemma TableChained(tail: bytes)
    ensures ParseTable(tail).Ok? ==> Chained(ParseTable(tail).value.frames)
  {
    hide FromLE, ParseEntries;
    var r := ParseTable(tail);
    if r.Ok? {
      var footer := tail[|tail| - FOOTER_LEN..];
      var len := TableFrameLen(footer).value;
      ParsedChained(tail[|tail| - len..], ChecksumFlag(footer[4]), FRAME_HEADER_LEN, 0, FromLE(footer[0..4]), 0, 0);
    }
  }

  // ---- The format, and the round trip ----

  /** A frame as the format records it. */
  datatype FrameSize = FrameSize(c: nat, d: nat, sum: nat)

  predicate SizeFits(z: FrameSize) {
    z.c < Pow256(4) && z.d <= 0x4000_0000 && z.d < Pow256(4) && z.sum < Pow256(4)
  }

  predicate SizesFit(sizes: seq<FrameSize>) {
    forall i :: 0 <= i < |sizes| ==> SizeFits(sizes[i])
  }

  function EntryBytes(z: FrameSize, checksums: bool): (b: bytes)
    requires SizeFits(z)
    ensures |b| == EntryLen(checksums)
  {
    ToLE(z.c, 4) + ToLE(z.d, 4) + if checksums then ToLE(z.sum, 4) else []
  }

  function EntriesBytes(sizes: seq<FrameSize>, checksums: bool): (b: bytes)
    requires SizesFit(sizes)
    ensures |b| == EntriesLen(|sizes|, checksums)
  {
    if sizes == [] then [] else EntryBytes(sizes[0], checksums) + EntriesBytes(sizes[1..], checksums)
  }

  function Entries(sizes: seq<FrameSize>, checksums: bool, index: nat, cOff: nat, dOff: nat): seq<FrameEntry> {
    if sizes == [] then []
    else
      var z := sizes[0];
      [FrameEntry(index, cOff, z.c, dOff, z.d, if checksums then Some(z.sum) else None)]
      + Entries(sizes[1..], checksums, index + 1, cOff + z.c, dOff + z.d)
  }

  /** The seek-table frame: header, entries, footer. A reader takes any value of the two `unused` bits. */
  function TableBytes(sizes: seq<FrameSize>, checksums: bool, unused: nat): bytes
    requires SizesFit(sizes) && |sizes| < Pow256(4) && EntriesLen(|sizes|, checksums) + FOOTER_LEN < Pow256(4)
    requires unused < 4
  {
    [0x5E, 0x2A, 0x4D, 0x18] + ToLE(EntriesLen(|sizes|, checksums) + FOOTER_LEN, 4) + EntriesBytes(sizes, checksums)
    + (ToLE(|sizes|, 4) + [(if checksums then 128 else 0) + unused] + [0xB1, 0xEA, 0x92, 0x8F])
  }

  lemma Magics()
    ensures FromLE([0x5E, 0x2A, 0x4D, 0x18]) == SKIPPABLE_MAGIC && FromLE([0xB1, 0xEA, 0x92, 0x8F]) == SEEKABLE_MAGIC
  {
    FourBytes(0x5E, 0x2A, 0x4D, 0x18);
    FourBytes(0xB1, 0xEA, 0x92, 0x8F);
  }

  lemma FourBytes(a: byte, b: byte, c: byte, d: byte)
    ensures FromLE([a, b, c, d]) == a + 256 * b + 0x1_0000 * c + 0x100_0000 * d
  {
    var s: bytes := [a, b, c, d];
    assert s[1..] == [b, c, d] && s[1..][1..] == [c, d] && s[1..][1..][1..] == [d];
    assert FromLE([d]) == d && FromLE([c, d]) == c + 256 * d;
  }

  lemma EntryParsed(z: FrameSize, checksums: bool, table: bytes, at: nat)
    requires SizeFits(z) && at + EntryLen(checksums) <= |table|
    requires table[at..at + EntryLen(checksums)] == EntryBytes(z, checksums)
    ensures FromLE(table[at..at + 4]) == z.c && FromLE(table[at + 4..at + 8]) == z.d
    ensures checksums ==> FromLE(table[at + 8..at + 12]) == z.sum
  {
    hide ToLE, FromLE, Pow256;
    var e, c, d := EntryBytes(z, checksums), ToLE(z.c, 4), ToLE(z.d, 4);
    var tail: bytes := if checksums then ToLE(z.sum, 4) else [];
    SliceHead(c, d, 0, 4);
    SliceTail(c, d);
    SliceHead(c + d, tail, 0, 4);
    SliceHead(c + d, tail, 4, 8);
    SliceTail(c + d, tail);
    SubSlice(table, at, at + |e|, 0, 4);
    SubSlice(table, at, at + |e|, 4, 8);
    if checksums { SubSlice(table, at, at + |e|, 8, 12); }
    LittleEndianRoundTrip(z.c, 4);
    LittleEndianRoundTrip(z.d, 4);
    if checksums { LittleEndianRoundTrip(z.sum, 4); }
  }

  lemma {:induction false} EntriesParsed(sizes: seq<FrameSize>, checksums: bool, table: bytes, at: nat, index: nat,
                                         cOff: nat, dOff: nat)
    requires SizesFit(sizes) && at + EntriesLen(|sizes|, checksums) <= |table|
    requires table[at..at + EntriesLen(|sizes|, checksums)] == EntriesBytes(sizes, checksums)
    ensures ParseEntries(table, checksums, at, index, |sizes|, cOff, dOff)
            == Ok(Entries(sizes, checksums, index, cOff, dOff))
    decreases |sizes|
  {
    hide EntryBytes, FromLE, Pow256;
    if sizes != [] {
      var z, w, n := sizes[0], EntryLen(checksums), EntriesLen(|sizes|, checksums);
      var all := EntriesBytes(sizes, checksums);
      assert table[at..at + w] == table[at..at + n][..w] == all[..w] == EntryBytes(z, checksums);
      EntryParsed(z, checksums, table, at);
      assert table[at + w..at + n] == table[at..at + n][w..] == all[w..] == EntriesBytes(sizes[1..], checksums);
      EntriesParsed(sizes[1..], checksums, table, at + w, index + 1, cOff + z.c, dOff + z.d);
    }
  }

  lemma FooterParsed(n: nat, checksums: bool, unused: nat, footer: bytes)
    requires n < Pow256(4) && unused < 4
    requires footer == ToLE(n, 4) + [(if checksums then 128 else 0) + unused] + [0xB1, 0xEA, 0x92, 0x8F]
    ensures TableFrameLen(footer) == Ok(FRAME_HEADER_LEN + EntriesLen(n, checksums) + FOOTER_LEN)
    ensures |footer| == FOOTER_LEN && FromLE(footer[0..4]) == n && ChecksumFlag(footer[4]) == checksums
  {
    hide ToLE, FromLE, Pow256;
    Magics();
    assert footer[0..4] == ToLE(n, 4) && footer[5..9] == [0xB1, 0xEA, 0x92, 0x8F];
    LittleEndianRoundTrip(n, 4);
  }

  /** The table of any stream reads back, whatever precedes it. */
  lemma TableRoundTrip(before: bytes, sizes: seq<FrameSize>, checksums: bool, unused: nat, t: bytes)
    requires SizesFit(sizes) && |sizes| < Pow256(4) && EntriesLen(|sizes|, checksums) + FOOTER_LEN < Pow256(4)
    requires unused < 4 && t == TableBytes(sizes, checksums, unused)
    ensures ParseTable(before + t) == Ok(SeekTable(Entries(sizes, checksums, 0, 0, 0), checksums, |t|))
  {
    hide ToLE, FromLE, ParseEntries, EntriesBytes, TableFrameLen, TableBytes;
    var tail, n := before + t, EntriesLen(|sizes|, checksums);
    TableParts(sizes, checksums, unused, t);
    assert tail[|tail| - |t|..] == t;
    assert tail[|tail| - FOOTER_LEN..] == t[|t| - FOOTER_LEN..];
    EntriesParsed(sizes, checksums, t, FRAME_HEADER_LEN, 0, 0, 0);
  }

  lemma TableParts(sizes: seq<FrameSize>, checksums: bool, unused: nat, t: bytes)
    requires SizesFit(sizes) && |sizes| < Pow256(4) && EntriesLen(|sizes|, checksums) + FOOTER_LEN < Pow256(4)
    requires unused < 4 && t == TableBytes(sizes, checksums, unused)
    ensures var n := EntriesLen(|sizes|, checksums);
            && |t| == FRAME_HEADER_LEN + n + FOOTER_LEN
            && FromLE(t[0..4]) == SKIPPABLE_MAGIC && FromLE(t[4..8]) == n + FOOTER_LEN
            && t[FRAME_HEADER_LEN..FRAME_HEADER_LEN + n] == EntriesBytes(sizes, checksums)
            && TableFrameLen(t[|t| - FOOTER_LEN..]) == Ok(|t|)
            && FromLE(t[|t| - FOOTER_LEN..][0..4]) == |sizes| && ChecksumFlag(t[|t| - FOOTER_LEN..][4]) == checksums
  {
    hide ToLE, FromLE, Pow256, EntriesBytes, TableFrameLen;
    Magics();
    var n := EntriesLen(|sizes|, checksums);
    var footer := ToLE(|sizes|, 4) + [(if checksums then 128 else 0) + unused] + [0xB1, 0xEA, 0x92, 0x8F];
    FooterParsed(|sizes|, checksums, unused, footer);
    assert t[|t| - FOOTER_LEN..] == footer;
    assert t[0..4] == [0x5E, 0x2A, 0x4D, 0x18] && t[4..8] == ToLE(n + FOOTER_LEN, 4);
    LittleEndianRoundTrip(n + FOOTER_LEN, 4);
    assert t[FRAME_HEADER_LEN..FRAME_HEADER_LEN + n] == EntriesBytes(sizes, checksums);
  }

  // ---- Only written tables are read ----

  function SizeOf(f: FrameEntry): FrameSize {
    FrameSize(f.cSize, f.dSize, if f.checksum.Some? then f.checksum.value else 0)
  }

  function EntrySizes(frames: seq<FrameEntry>): seq<FrameSize> {
    if frames == [] then [] else [SizeOf(frames[0])] + EntrySizes(frames[1..])
  }

  lemma EntryWritten(table: bytes, checksums: bool, at: nat, z: FrameSize)
    requires at + EntryLen(checksums) <= |table|
    requires z.c == FromLE(table[at..at + 4]) && z.d == FromLE(table[at + 4..at + 8]) <= MAX_FRAME_DECOMPRESSED
    requires z.sum == if checksums then FromLE(table[at + 8..at + 12]) else 0
    ensures SizeFits(z) && table[at..at + EntryLen(checksums)] == EntryBytes(z, checksums)
  {
    LittleEndianBack(table[at..at + 4]);
    LittleEndianBack(table[at + 4..at + 8]);
    if checksums { LittleEndianBack(table[at + 8..at + 12]); }
    hide FromLE, ToLE, Pow256;
    assert table[at..at + 8] == table[at..at + 4] + table[at + 4..at + 8];
    if checksums { assert table[at..at + 12] == table[at..at + 8] + table[at + 8..at + 12]; }
  }

  lemma {:induction false} EntriesWritten(table: bytes, checksums: bool, at: nat, index: nat, n: nat, cOff: nat, dOff: nat,
                                          frames: seq<FrameEntry>)
    requires at + EntriesLen(n, checksums) <= |table|
    requires ParseEntries(table, checksums, at, index, n, cOff, dOff) == Ok(frames)
    ensures |frames| == |EntrySizes(frames)| == n && SizesFit(EntrySizes(frames))
    ensures table[at..at + EntriesLen(n, checksums)] == EntriesBytes(EntrySizes(frames), checksums)
    decreases n
  {
    hide FromLE, EntryBytes, SizeFits;
    if n > 0 {
      var w, m, f := EntryLen(checksums), EntriesLen(n, checksums), frames[0];
      assert frames == [f] + frames[1..];
      EntriesWritten(table, checksums, at + w, index + 1, n - 1, cOff + f.cSize, dOff + f.dSize, frames[1..]);
      EntryWritten(table, checksums, at, SizeOf(f));
      assert table[at..at + m] == table[at..at + w] + table[at + w..at + m];
    }
  }

  /** Whatever parses as a table is the encoding of the frames it parses to. */
  lemma TableCanonical(tail: bytes)
    requires ParseTable(tail).Ok?
    ensures var r := ParseTable(tail).value;
            var sizes := EntrySizes(r.frames);
            && SizesFit(sizes) && |sizes| < Pow256(4) && EntriesLen(|sizes|, r.hasChecksums) + FOOTER_LEN < Pow256(4)
            && 17 <= r.tableLen <= |tail|
            && tail[|tail| - r.tableLen..] == TableBytes(sizes, r.hasChecksums, tail[|tail| - 5] % 4)
  {
    hide FromLE, ToLE, ParseTable, EntriesBytes, EntrySizes, SizesFit, ReservedBits, ChecksumFlag;
    TableFields(tail);
    var r, footer := ParseTable(tail).value, tail[|tail| - 9..];
    var t, n := tail[|tail| - r.tableLen..], FromLE(footer[0..4]);
    EntriesWritten(t, r.hasChecksums, 8, 0, n, 0, 0, r.frames);
    LittleEndianBack(t[4..8]);
    FooterWritten(footer, n, r.hasChecksums, tail[|tail| - 5] % 4);
    TableJoined(t, EntriesLen(n, r.hasChecksums));
  }

  /** The parts of bytes that parse. */
  lemma TableFields(tail: bytes)
    requires ParseTable(tail).Ok?
    ensures var r := ParseTable(tail).value;
            && 17 <= r.tableLen <= |tail|
            && var t, footer := tail[|tail| - r.tableLen..], tail[|tail| - 9..];
               var n := FromLE(footer[0..4]);
               && r.tableLen == 17 + EntriesLen(n, r.hasChecksums) && t[|t| - 9..] == footer
               && t[0..4] == [0x5E, 0x2A, 0x4D, 0x18] && footer[5..9] == [0xB1, 0xEA, 0x92, 0x8F]
               && FromLE(t[4..8]) == EntriesLen(n, r.hasChecksums) + 9
               && footer[4] == tail[|tail| - 5] && !ReservedBits(footer[4]) && ChecksumFlag(footer[4]) == r.hasChecksums
               && ParseEntries(t, r.hasChecksums, 8, 0, n, 0, 0) == Ok(r.frames)
  {
    hide FromLE, ParseEntries, ReservedBits, ChecksumFlag;
    var r, footer := ParseTable(tail).value, tail[|tail| - 9..];
    var t := tail[|tail| - r.tableLen..];
    Magics();
    LittleEndianSame(t[0..4], [0x5E, 0x2A, 0x4D, 0x18]);
    LittleEndianSame(footer[5..9], [0xB1, 0xEA, 0x92, 0x8F]);
  }

  lemma FooterWritten(footer: bytes, n: nat, checksums: bool, unused: nat)
    requires |footer| == 9 && n == FromLE(footer[0..4]) && footer[5..9] == [0xB1, 0xEA, 0x92, 0x8F]
    requires unused == footer[4] % 4 && !ReservedBits(footer[4]) && checksums == ChecksumFlag(footer[4])
    ensures footer == ToLE(n, 4) + [(if checksums then 128 else 0) + unused] + [0xB1, 0xEA, 0x92, 0x8F]
  {
    hide ToLE, FromLE, Pow256;
    LittleEndianBack(footer[0..4]);
    assert footer == footer[0..4] + [footer[4]] + footer[5..9];
  }

  lemma TableJoined(t: bytes, n: nat)
    requires |t| == 17 + n
    ensures t == t[0..4] + t[4..8] + t[8..8 + n] + t[|t| - 9..]
  {
  }
}
