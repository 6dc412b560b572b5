/** Pack records: header encoding, payloads, reading a record back, and the sequential scan. */
module Codec {
  import opened Base
  import opened Ledger

  /** "SBLK". */
  const MAGIC: bytes := [0x53, 0x42, 0x4C, 0x4B]
  const FLAG_COMPRESSED: byte := 1

  datatype RecordHeader = RecordHeader(flags: byte, rawLen: nat, storedLen: nat, hash: Hash, sum: nat)
  {
    function RecordLen(): nat { HEADER_LEN + storedLen }

    /** Every field fits its width, and no unknown flag is set. */
    predicate Fits() {
      && flags <= 1 && rawLen < Pow256(4) && storedLen < Pow256(4)
      && |hash.digest| == 16 && sum < Pow256(8)
    }
  }

  function EncodeHeader(h: RecordHeader): (b: bytes)
    requires h.Fits()
    ensures |b| == HEADER_LEN
  {
    MAGIC + [h.flags, 0, 0, 0] + ToLE(h.rawLen, 4) + ToLE(h.storedLen, 4) + h.hash.digest
    + ToLE(h.sum, 8)
  }

  function DecodeHeader(b: bytes): Result<RecordHeader> {
    if |b| < HEADER_LEN then Err(Corrupt)
    else if b[0..4] != MAGIC then Err(Corrupt)
    else if b[4] > 1 || b[5..8] != [0, 0, 0] then Err(Corrupt)
    else Ok(RecordHeader(b[4], FromLE(b[8..12]), FromLE(b[12..16]), Hash(b[16..32]), FromLE(b[32..40])))
  }

  lemma HeaderRoundTrip(h: RecordHeader, rest: bytes)
    requires h.Fits()
    ensures DecodeHeader(EncodeHeader(h) + rest) == Ok(h)
  {
    var b := EncodeHeader(h) + rest;
    LittleEndianRoundTrip(h.rawLen, 4);
    LittleEndianRoundTrip(h.storedLen, 4);
    LittleEndianRoundTrip(h.sum, 8);
    assert b[0..4] == MAGIC && b[5..8] == [0, 0, 0] && b[4] == h.flags;
    assert b[8..12] == ToLE(h.rawLen, 4);
    assert b[12..16] == ToLE(h.storedLen, 4);
    assert b[16..32] == h.hash.digest;
    assert b[32..40] == ToLE(h.sum, 8);
  }

  /** Whatever decodes is the encoding of the header it decodes to: other magic, flags or reserved bytes are refused. */
  lemma HeaderCanonical(b: bytes)
    requires DecodeHeader(b).Ok?
    ensures DecodeHeader(b).value.Fits() && b[..40] == EncodeHeader(DecodeHeader(b).value)
    ensures b[..4] == [0x53, 0x42, 0x4C, 0x4B]
  {
    LittleEndianBack(b[8..12]);
    LittleEndianBack(b[12..16]);
    LittleEndianBack(b[32..40]);
    hide ToLE, FromLE, Pow256;
    assert b[..40] == b[0..4] + [b[4]] + b[5..8] + b[8..12] + b[12..16] + b[16..32] + b[32..40];
  }

  /** A block ready to be appended. */
  datatype EncodedBlock = EncodedBlock(header: RecordHeader, payload: bytes)

  /** The record for `data` from a frame of it: the frame if that is smaller, else `data` raw. */
  function FromFrame(env: Env, data: bytes, hash: Hash, frame: bytes): EncodedBlock {
    var compressed := |frame| < |data|;
    var payload := if compressed then frame else data;
    EncodedBlock(
      RecordHeader(if compressed then FLAG_COMPRESSED else 0, |data|, |payload|, hash, env.sum(payload)),
      payload)
  }

  /** A record is never longer than its block stored raw, nor than the frame it was made from. */
  lemma StoredSmallest(env: Env, data: bytes, hash: Hash, frame: bytes)
    ensures var e := FromFrame(env, data, hash, frame);
            |e.payload| == Min(|frame|, |data|) && (e.header.flags == 1 <==> |frame| < |data|)
  {
  }

  /** Checks `payload` against its header and decodes it to `outLen` bytes. */
  function DecodePayload(env: Env, h: RecordHeader, payload: bytes, outLen: nat): Result<bytes> {
    if |payload| != h.storedLen then Err(Corrupt)
    else if outLen != h.rawLen then Err(Corrupt)
    else if env.sum(payload) != h.sum then Err(Corrupt)
    else if h.flags == FLAG_COMPRESSED then
      match env.unzip(payload)
      case Some(c) => if |c| == outLen then Ok(c) else Err(Corrupt)
      case None => Err(Corrupt)
    else if |payload| != outLen then Err(Corrupt)
    else Ok(payload)
  }

  /** A frame of exactly the block decodes to the block, however it is stored. */
  lemma FrameRoundTrip(env: Env, data: bytes, hash: Hash, frame: bytes)
    requires env.unzip(frame) == Some(data)
    ensures var e := FromFrame(env, data, hash, frame);
            DecodePayload(env, e.header, e.payload, |data|) == Ok(data)
  {
  }

  /** Reads the record at `loc` in a pack file, checks its header against `loc` and decodes it. */
  function ReadRecord(env: Env, file: bytes, loc: BlockLoc): Result<bytes> {
    if loc.offset + loc.RecordLen() > |file| then Err(Corrupt)
    else
      var rec := file[loc.offset..loc.offset + loc.RecordLen()];
      var header := DecodeHeader(rec[..HEADER_LEN]);
      if header.Err? then Err(Corrupt)
      else
        var h := header.value;
        if h.storedLen != loc.storedLen || h.rawLen != loc.rawLen || h.hash != loc.hash
        then Err(Corrupt)
        else DecodePayload(env, h, rec[HEADER_LEN..], h.rawLen)
  }

  /** The record at `loc` is there and holds the block of its hash. */
  ghost predicate RecordOk(env: Env, file: bytes, loc: BlockLoc) {
    ReadRecord(env, file, loc) == Ok(env.content(loc.hash))
  }

  /** The record's payload has the stored length and the checksum of its header. */
  ghost predicate Checked(env: Env, rec: bytes, storedLen: nat) {
    && |rec| == HEADER_LEN + storedLen && DecodeHeader(rec[..HEADER_LEN]).Ok?
    && DecodeHeader(rec[..HEADER_LEN]).value.storedLen == storedLen
    && DecodeHeader(rec[..HEADER_LEN]).value.sum == env.sum(rec[HEADER_LEN..])
  }

  /** The file has such a record at `loc`, of the block's hash. */
  ghost predicate Vouched(env: Env, file: bytes, loc: BlockLoc) {
    && loc.offset + loc.RecordLen() <= |file|
    && var rec := file[loc.offset..loc.offset + loc.RecordLen()];
       Checked(env, rec, loc.storedLen) && DecodeHeader(rec[..HEADER_LEN]).value.hash == loc.hash
  }

  /** A record that can be read is vouched for, and has the block's length. */
  lemma ReadIsChecked(env: Env, file: bytes, loc: BlockLoc)
    requires ReadRecord(env, file, loc).Ok?
    ensures Vouched(env, file, loc) && |ReadRecord(env, file, loc).value| == loc.rawLen
    ensures DecodeHeader(file[loc.offset..loc.offset + loc.RecordLen()][..HEADER_LEN]).value.rawLen == loc.rawLen
  {
    hide DecodeHeader;
  }

  /** What is appended after a record does not matter to it. */
  lemma RecordStays(env: Env, file: bytes, longer: bytes, loc: BlockLoc)
    requires file <= longer && loc.offset + loc.RecordLen() <= |file|
    ensures ReadRecord(env, longer, loc) == ReadRecord(env, file, loc)
  {
    assert longer[loc.offset..loc.offset + loc.RecordLen()]
           == file[loc.offset..loc.offset + loc.RecordLen()];
  }

  lemma RecordOkStays(env: Env, file: bytes, longer: bytes, loc: BlockLoc)
    requires file <= longer && RecordOk(env, file, loc)
    ensures RecordOk(env, longer, loc)
  {
    RecordStays(env, file, longer, loc);
  }

  /** The refcount is no part of the record. */
  lemma RecordOkSame(env: Env, file: bytes, a: BlockLoc, b: BlockLoc)
    requires a.offset == b.offset && a.storedLen == b.storedLen && a.rawLen == b.rawLen && a.hash == b.hash
    ensures RecordOk(env, file, a) <==> RecordOk(env, file, b)
  {
  }

  /** One place holds one record. */
  lemma RecordsAgree(env: Env, file: bytes, a: BlockLoc, b: BlockLoc)
    requires RecordOk(env, file, a) && RecordOk(env, file, b) && a.offset == b.offset
    ensures a.storedLen == b.storedLen && a.rawLen == b.rawLen && a.hash == b.hash
  {
    assert file[a.offset..a.offset + a.RecordLen()][..HEADER_LEN]
           == file[a.offset..a.offset + HEADER_LEN]
           == file[b.offset..b.offset + b.RecordLen()][..HEADER_LEN];
  }

  function RecordBytes(e: EncodedBlock): bytes
    requires e.header.Fits()
  {
    EncodeHeader(e.header) + e.payload
  }

  /** An appended record reads back as its block. */
  lemma AppendedReads(env: Env, file: bytes, data: bytes, frame: bytes, loc: BlockLoc)
    requires CollisionFree(env) && env.known(data) && env.unzip(frame) == Some(data)
    requires var e := FromFrame(env, data, env.hash(data), frame);
             && e.header.Fits()
             && loc.hash == e.header.hash && loc.rawLen == e.header.rawLen
             && loc.storedLen == e.header.storedLen
             && loc.offset <= |file| && RecordBytes(e) <= file[loc.offset..]
    ensures RecordOk(env, file, loc) && Genuine(loc, env)
  {
    var e := FromFrame(env, data, env.hash(data), frame);
    FrameRoundTrip(env, data, env.hash(data), frame);
    HeaderRoundTrip(e.header, []);
    var rec := file[loc.offset..loc.offset + loc.RecordLen()];
    assert |RecordBytes(e)| == loc.RecordLen();
    assert rec == file[loc.offset..][..loc.RecordLen()] == RecordBytes(e);
    assert rec[..HEADER_LEN] == EncodeHeader(e.header) == EncodeHeader(e.header) + [];
    assert rec[HEADER_LEN..] == e.payload;
  }
}
