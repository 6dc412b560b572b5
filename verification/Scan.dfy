/** The sequential scan of a pack file, and which scanned records compaction moves. */
module Scan {
  import opened Base
  import opened Ledger
  import opened Codec

  datatype Scanned = Scanned(offset: nat, header: RecordHeader, data: bytes)

  /** No whole record starts here: too short, no header, or a header that promises more bytes. */
  predicate Torn(rest: bytes) {
    || |rest| < HEADER_LEN
    || DecodeHeader(rest[..HEADER_LEN]).Err?
    || DecodeHeader(rest[..HEADER_LEN]).value.RecordLen() > |rest|
  }

  predicate Whole(e: EncodedBlock) { e.header.Fits() && |e.payload| == e.header.storedLen }

  predicate AllWhole(records: seq<EncodedBlock>) {
    forall i :: 0 <= i < |records| ==> Whole(records[i])
  }

  /** The records one after the other. */
  function Packed(records: seq<EncodedBlock>): (b: bytes)
    requires AllWhole(records)
  {
    if records == [] then [] else RecordBytes(records[0]) + Packed(records[1..])
  }

  /** The records with the offsets they have when packed from `offset` on. */
  function Located(records: seq<EncodedBlock>, offset: nat): (s: seq<Scanned>)
    requires AllWhole(records)
    ensures |s| == |records|
  {
    if records == [] then []
    else [Scanned(offset, records[0].header, RecordBytes(records[0]))]
         + Located(records[1..], offset + records[0].header.RecordLen())
  }

  /** The records found from `offset` on. */
  function ScanFrom(file: bytes, offset: nat): seq<Scanned>
    requires offset <= |file|
    decreases |file| - offset
  {
    if Torn(file[offset..]) then []
    else
      var h := DecodeHeader(file[offset..][..HEADER_LEN]).value;
      [Scanned(offset, h, file[offset..offset + h.RecordLen()])] + ScanFrom(file, offset + h.RecordLen())
  }

  /** One round of the scan, in terms of the file. */
  lemma ScanStep(file: bytes, offset: nat)
    requires offset + HEADER_LEN <= |file|
    ensures var header := DecodeHeader(file[offset..offset + HEADER_LEN]);
            if header.Err? || offset + header.value.RecordLen() > |file| then ScanFrom(file, offset) == []
            else
              ScanFrom(file, offset)
              == [Scanned(offset, header.value, file[offset..offset + header.value.RecordLen()])]
                 + ScanFrom(file, offset + header.value.RecordLen())
  {
    hide DecodeHeader;
    assert file[offset..][..HEADER_LEN] == file[offset..offset + HEADER_LEN];
  }

  /** What `compact_pack` reads from a pack file: it stops at the first torn place. */
  method ScanPack(file: bytes) returns (found: seq<Scanned>)
    ensures found == ScanFrom(file, 0)
  {
    hide DecodeHeader, Torn;
    found := [];
    var offset := 0;
    while offset + HEADER_LEN <= |file|
      invariant offset <= |file|
      invariant ScanFrom(file, 0) == found + ScanFrom(file, offset)
      decreases |file| - offset
    {
      hide ScanFrom;
      ScanStep(file, offset);
      var header := DecodeHeader(file[offset..offset + HEADER_LEN]);
      if header.Err? { return; }
      var h := header.value;
      if offset + h.RecordLen() > |file| { return; }
      found := found + [Scanned(offset, h, file[offset..offset + h.RecordLen()])];
      offset := offset + h.RecordLen();
    }
    ScanEnd(file, offset);
  }

  lemma ScanEnd(file: bytes, offset: nat)
    requires offset <= |file| < offset + HEADER_LEN
    ensures ScanFrom(file, offset) == []
  {
  }

  lemma HeaderFirst(e: EncodedBlock, more: bytes)
    requires Whole(e)
    ensures var rest := RecordBytes(e) + more;
            && DecodeHeader(rest[..HEADER_LEN]) == Ok(e.header) && !Torn(rest)
            && rest[..e.header.RecordLen()] == RecordBytes(e)
  {
    hide DecodeHeader, EncodeHeader;
    assert (RecordBytes(e) + more)[..HEADER_LEN] == EncodeHeader(e.header) == EncodeHeader(e.header) + [];
    HeaderRoundTrip(e.header, []);
  }

  /** A crash can only leave a torn tail: no proper prefix of a record passes for one. */
  lemma PrefixIsTorn(e: EncodedBlock, n: nat)
    requires Whole(e) && n < |RecordBytes(e)|
    ensures Torn(RecordBytes(e)[..n])
  {
    hide DecodeHeader, EncodeHeader;
    if n >= HEADER_LEN {
      assert RecordBytes(e)[..n][..HEADER_LEN] == EncodeHeader(e.header) == EncodeHeader(e.header) + [];
      HeaderRoundTrip(e.header, []);
    }
  }

  lemma ScanFirst(before: bytes, e: EncodedBlock, more: bytes)
    requires Whole(e)
    ensures ScanFrom(before + (RecordBytes(e) + more), |before|)
            == [Scanned(|before|, e.header, RecordBytes(e))]
               + ScanFrom(before + (RecordBytes(e) + more), |before + RecordBytes(e)|)
  {
    hide DecodeHeader, EncodeHeader, Torn;
    var rest := RecordBytes(e) + more;
    var file := before + rest;
    assert file[|before|..] == rest;
    HeaderFirst(e, more);
    assert file[|before|..|before| + e.header.RecordLen()] == rest[..e.header.RecordLen()];
  }

  /** A pack of whole records with a torn tail is scanned into exactly those records. */
  lemma {:induction false} ScanExact(before: bytes, records: seq<EncodedBlock>, tail: bytes)
    requires AllWhole(records) && Torn(tail)
    ensures ScanFrom(before + (Packed(records) + tail), |before|) == Located(records, |before|)
    decreases |records|
  {
    hide DecodeHeader, EncodeHeader, Torn, RecordBytes;
    var file := before + (Packed(records) + tail);
    if records == [] {
      assert file[|before|..] == tail;
    } else {
      hide ScanFrom;
      var bytes := RecordBytes(records[0]);
      var more := Packed(records[1..]) + tail;
      assert Packed(records) + tail == bytes + more;
      ScanFirst(before, records[0], more);
      assert file == (before + bytes) + more;
      WholeLen(records[0]);
      ScanExact(before + bytes, records[1..], tail);
    }
  }

  lemma WholeLen(e: EncodedBlock)
    requires Whole(e)
    ensures |RecordBytes(e)| == e.header.RecordLen()
  {
  }
}
