/** The byte forms of index rows: manifest segments, block locations and pack rows. */
module Rows {
  import opened Base
  import opened Manifest
  import opened Ledger
  import opened Segments

  predicate IdsFit(ids: seq<nat>) { forall i :: 0 <= i < |ids| ==> ids[i] < Pow256(8) }

  function IdBytes(ids: seq<nat>): (b: bytes)
    requires IdsFit(ids)
    ensures |b| == 8 * |ids|
  {
    if ids == [] then [] else IdBytes(ids[..|ids| - 1]) + ToLE(ids[|ids| - 1], 8)
  }

  /** A segment's value: segment 0 starts with the file's length and eight zero bytes. */
  function SegmentBytes(s: Segment): bytes
    requires IdsFit(s.ids) && (s.len.Some? ==> s.len.value < Pow256(8))
  {
    (if s.len.Some? then ToLE(s.len.value, 8) + [0, 0, 0, 0, 0, 0, 0, 0] else []) + IdBytes(s.ids)
  }

  /** `encode_segment`. */
  method EncodeSegment(s: Segment) returns (out: bytes)
    requires IdsFit(s.ids) && (s.len.Some? ==> s.len.value < Pow256(8))
    ensures out == SegmentBytes(s)
  {
    hide ToLE, Pow256;
    out := if s.len.Some? then ToLE(s.len.value, 8) + [0, 0, 0, 0, 0, 0, 0, 0] else [];
    ghost var head := out;
    for i := 0 to |s.ids|
      invariant out == head + IdBytes(s.ids[..i])
    {
      assert s.ids[..i + 1][..i] == s.ids[..i];
      out := out + ToLE(s.ids[i], 8);
    }
    assert s.ids[..|s.ids|] == s.ids;
  }

  /** The ids in a segment's value; a trailing partial id is ignored. */
  function DecodeIds(value: bytes, seg: nat): seq<nat>
    requires seg == 0 ==> |value| >= FILE_HEADER_LEN
  {
    var b := if seg == 0 then value[FILE_HEADER_LEN..] else value;
    seq(|b| / 8, i requires 0 <= i < |b| / 8 => FromLE(b[8 * i..8 * i + 8]))
  }

  function StoredLen(seg0: bytes): nat
    requires |seg0| >= 8
  {
    FromLE(seg0[0..8])
  }

  lemma {:induction false} IdAt(ids: seq<nat>, i: nat)
    requires IdsFit(ids) && i < |ids|
    ensures IdBytes(ids)[8 * i..8 * i + 8] == ToLE(ids[i], 8)
    decreases |ids|
  {
    hide ToLE, Pow256;
    var n := |ids| - 1;
    var front := IdBytes(ids[..n]);
    if i < n {
      IdAt(ids[..n], i);
      assert IdBytes(ids)[8 * i..8 * i + 8] == front[8 * i..8 * i + 8];
    } else {
      assert IdBytes(ids)[8 * n..8 * n + 8] == ToLE(ids[n], 8);
    }
  }

  lemma SegmentRoundTrip(s: Segment, seg: nat)
    requires IdsFit(s.ids) && (s.len.Some? ==> s.len.value < Pow256(8)) && (s.len.Some? <==> seg == 0)
    ensures seg == 0 ==> |SegmentBytes(s)| >= FILE_HEADER_LEN && StoredLen(SegmentBytes(s)) == s.len.value
    ensures DecodeIds(SegmentBytes(s), seg) == s.ids
  {
    hide ToLE, FromLE, Pow256;
    var value := SegmentBytes(s);
    var b := IdBytes(s.ids);
    assert (if seg == 0 then value[FILE_HEADER_LEN..] else value) == b;
    if seg == 0 {
      LittleEndianRoundTrip(s.len.value, 8);
      assert value[0..8] == ToLE(s.len.value, 8);
    }
    forall i | 0 <= i < |s.ids| ensures FromLE(b[8 * i..8 * i + 8]) == s.ids[i] {
      IdAt(s.ids, i);
      LittleEndianRoundTrip(s.ids[i], 8);
    }
  }

  // ---- Block locations ----

  predicate LocFits(loc: BlockLoc) {
    && loc.pack < Pow256(4) && loc.offset < Pow256(8) && loc.storedLen < Pow256(4) && loc.rawLen < Pow256(4)
    && loc.refcount < Pow256(4) && |loc.hash.digest| == 16
  }

  function EncodeLoc(loc: BlockLoc): (b: bytes)
    requires LocFits(loc)
    ensures |b| == 40
  {
    ToLE(loc.pack, 4) + ToLE(loc.offset, 8) + ToLE(loc.storedLen, 4) + ToLE(loc.rawLen, 4) + ToLE(loc.refcount, 4)
    + loc.hash.digest
  }

  function DecodeLoc(b: bytes): BlockLoc
    requires |b| >= 40
  {
    BlockLoc(FromLE(b[0..4]), FromLE(b[4..12]), FromLE(b[12..16]), FromLE(b[16..20]), FromLE(b[20..24]),
             Hash(b[24..40]))
  }

  lemma LocRoundTrip(loc: BlockLoc)
    requires LocFits(loc)
    ensures DecodeLoc(EncodeLoc(loc)) == loc
  {
    hide ToLE, FromLE, Pow256;
    var b := EncodeLoc(loc);
    LittleEndianRoundTrip(loc.pack, 4);
    LittleEndianRoundTrip(loc.offset, 8);
    LittleEndianRoundTrip(loc.storedLen, 4);
    LittleEndianRoundTrip(loc.rawLen, 4);
    LittleEndianRoundTrip(loc.refcount, 4);
    var p, o, s := ToLE(loc.pack, 4), ToLE(loc.offset, 8), ToLE(loc.storedLen, 4);
    var r, c, d := ToLE(loc.rawLen, 4), ToLE(loc.refcount, 4), loc.hash.digest;
    FiveParts(p, o, s, r, c);
    SliceTail(p + o + s + r + c, d);
    SliceHead(p + o + s + r + c, d, 0, 4);
    SliceHead(p + o + s + r + c, d, 4, 12);
    SliceHead(p + o + s + r + c, d, 12, 16);
    SliceHead(p + o + s + r + c, d, 16, 20);
    SliceHead(p + o + s + r + c, d, 20, 24);
  }

  lemma FiveParts(p: bytes, o: bytes, s: bytes, r: bytes, c: bytes)
    requires |p| == |s| == |r| == |c| == 4 && |o| == 8
    ensures var b := p + o + s + r + c;
            && b[0..4] == p && b[4..12] == o && b[12..16] == s && b[16..20] == r && b[20..24] == c
  {
  }

  // ---- Pack rows ----

  function EncodePack(info: PackInfo): bytes
    requires info.live < Pow256(8)
  {
    ToLE(info.live, 8) + [match info.state case Active => 0 case Sealed => 1 case Retired => 2]
  }

  /** An unknown state byte reads as retired. */
  function DecodePack(b: bytes): PackInfo
    requires |b| >= 9
  {
    PackInfo(FromLE(b[0..8]), if b[8] == 0 then Active else if b[8] == 1 then Sealed else Retired)
  }

  lemma PackRoundTrip(info: PackInfo)
    requires info.live < Pow256(8)
    ensures DecodePack(EncodePack(info)) == info
  {
    hide ToLE, FromLE, Pow256;
    LittleEndianRoundTrip(info.live, 8);
    assert EncodePack(info)[0..8] == ToLE(info.live, 8);
  }
}
