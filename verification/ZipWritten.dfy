/** Zip files as a writer lays them out (sections 4.3.7 and 4.3.14 to 4.3.16 of PKWARE APPNOTE 6.3.10), and what
    reading them finds. */
module ZipWritten {
  import opened Base
  import opened Zip
  import opened Archive

  // ---- Reading back one field ----

  lemma FieldAt(a: bytes, v: nat, w: nat, b: bytes)
    requires v < Pow256(w)
    ensures |ToLE(v, w)| == w && At(a + ToLE(v, w) + b, |a|, w) == v
  {
    hide FromLE, ToLE, Pow256;
    LittleEndianRoundTrip(v, w);
    SliceHead(a + ToLE(v, w), b, |a|, |a| + w);
    SliceTail(a, ToLE(v, w));
  }

  /** A field of a record that lies between other bytes. */
  lemma FieldIn(before: bytes, rec: bytes, after: bytes, at: nat, w: nat)
    requires at + w <= |rec|
    ensures At(before + rec + after, |before| + at, w) == At(rec, at, w)
  {
    hide FromLE;
    var file := before + rec + after;
    assert file[|before| + at..|before| + at + w] == rec[at..at + w];
  }

  /** The signatures as they stand in a file. */
  lemma Signatures()
    ensures FromLE([0x50, 0x4b, 3, 4]) == SIG_LOCAL && FromLE([0x50, 0x4b, 5, 6]) == SIG_EOCD
    ensures FromLE([0x50, 0x4b, 6, 6]) == SIG_ZIP64_EOCD && FromLE([0x50, 0x4b, 6, 7]) == SIG_ZIP64_LOCATOR
  {
    SignatureOf(3, 4);
    SignatureOf(5, 6);
    SignatureOf(6, 6);
    SignatureOf(6, 7);
  }

  lemma SignatureOf(c: byte, d: byte)
    ensures FromLE([0x50, 0x4b, c, d]) == 0x4b50 + 0x1_0000 * c + 0x100_0000 * d
  {
    var b: bytes := [0x50, 0x4b, c, d];
    assert b[1..] == [0x4b, c, d] && b[1..][1..] == [c, d] && b[1..][1..][1..] == [d];
    assert FromLE([d]) == d && FromLE([c, d]) == c + 256 * d;
  }

  lemma SignatureAt(sig: bytes, rest: bytes)
    requires |sig| == 4
    ensures At(sig + rest, 0, 4) == FromLE(sig)
  {
    SliceHead(sig, rest, 0, 4);
    assert sig[0..4] == sig;
  }

  // ---- Local headers ----

  /** A local header: signature, 22 bytes of other fields, the lengths of name and extra field, and these. */
  function LocalHeaderBytes(other: bytes, name: bytes, extra: bytes): bytes
    requires |other| == 22 && |name| < 0x1_0000 && |extra| < 0x1_0000
  {
    [0x50, 0x4b, 3, 4] + other + ToLE(|name|, 2) + ToLE(|extra|, 2) + name + extra
  }

  lemma LocalFields(other: bytes, name: bytes, extra: bytes)
    requires |other| == 22 && |name| < 0x1_0000 && |extra| < 0x1_0000
    ensures var h := LocalHeaderBytes(other, name, extra);
            && |h| == 30 + |name| + |extra|
            && At(h, 0, 4) == SIG_LOCAL && At(h, 26, 2) == |name| && At(h, 28, 2) == |extra|
  {
    Widths();
    Signatures();
    hide FromLE, ToLE, Pow256, At;
    var sig: bytes := [0x50, 0x4b, 3, 4];
    var n, x := ToLE(|name|, 2), ToLE(|extra|, 2);
    var h := LocalHeaderBytes(other, name, extra);
    SignatureAt(sig, other + n + x + name + extra);
    FieldAt(sig + other, |name|, 2, x + name + extra);
    FieldAt(sig + other + n, |extra|, 2, name + extra);
    assert h == sig + (other + n + x + name + extra);
    assert h == sig + other + n + (x + name + extra);
    assert h == sig + other + n + x + (name + extra);
  }

  /** Reading a local header: the range follows its lengths, unless it does not fit 64 bits. */
  lemma LocalRangeRead(other: bytes, name: bytes, extra: bytes, rest: bytes, e: Entry)
    requires |other| == 22 && |name| < 0x1_0000 && |extra| < 0x1_0000
    ensures var start := e.offset + 30 + |name| + |extra|;
            LocalDataRange(LocalHeaderBytes(other, name, extra) + rest, e)
            == if e.encrypted then Err(Unsupported)
               else if start + e.compressedSize < 0x1_0000_0000_0000_0000 then Ok((start, start + e.compressedSize))
               else Err(Corrupt)
  {
    Widths();
    LocalFields(other, name, extra);
    hide FromLE, ToLE, Pow256, LocalHeaderBytes;
    HeaderStart(LocalHeaderBytes(other, name, extra), rest);
  }

  /** An entry written with its local header and its data. */
  ghost predicate EntryWritten(file: bytes, e: Entry, before: bytes, other: bytes, name: bytes, extra: bytes, data: bytes,
                               after: bytes) {
    && |other| == 22 && |name| < 0x1_0000 && |extra| < 0x1_0000
    && file == before + LocalHeaderBytes(other, name, extra) + data + after && |file| < 0x1_0000_0000_0000_0000
    && e.offset == |before| && e.compressedSize == |data| && !e.encrypted
  }

  /** The data of an entry starts behind its local header, name and extra field. */
  lemma WrittenDataRange(file: bytes, e: Entry, before: bytes, other: bytes, name: bytes, extra: bytes, data: bytes,
                         after: bytes)
    requires EntryWritten(file, e, before, other, name, extra, data, after)
    ensures var start := |before| + 30 + |name| + |extra|;
            && start + |data| <= |file| && DataRange(file, e) == Ok((start, start + |data|))
            && file[start..start + |data|] == data
  {
    hide LocalDataRange, LocalHeaderBytes;
    var h := LocalHeaderBytes(other, name, extra);
    LocalFields(other, name, extra);
    FourParts(before, h, data, after);
    LocalRangeRead(other, name, extra, data + after, e);
  }

  lemma FourParts(a: bytes, b: bytes, c: bytes, d: bytes)
    ensures (a + b + c + d)[|a|..] == b + (c + d) && (a + b + c + d)[|a| + |b|..|a| + |b| + |c|] == c
  {
    SliceHead(a + b + c, d, |a| + |b|, |a| + |b| + |c|);
    SliceTail(a + b, c);
  }

  lemma HeaderStart(h: bytes, rest: bytes)
    requires |h| >= 30
    ensures At(h + rest, 0, 4) == At(h, 0, 4) && At(h + rest, 26, 2) == At(h, 26, 2) && At(h + rest, 28, 2) == At(h, 28, 2)
  {
    hide FromLE;
    SliceHead(h, rest, 0, 4);
    SliceHead(h, rest, 26, 28);
    SliceHead(h, rest, 28, 30);
  }

  /** Fetching a part of a written entry gives that part of its data, whatever its name and extra field. */
  method FetchWritten(file: bytes, e: Entry, from: nat, to: nat, ghost before: bytes, ghost other: bytes, ghost name: bytes,
                      ghost extra: bytes, ghost data: bytes, ghost after: bytes)
    returns (r: Result<((nat, nat), bytes)>, again: bool)
    requires EntryWritten(file, e, before, other, name, extra, data, after) && from <= to
    ensures r.Ok? <==> to <= |data| && e.offset + 30 + e.nameLen + 256 + to < 0x1_0000_0000_0000_0000
    ensures r.Ok? ==> r.value.0 == (|before| + 30 + |name| + |extra|, |before| + 30 + |name| + |extra| + |data|)
    ensures r.Ok? ==> r.value.1 == data[from..to]
    ensures r.Ok? && |name| == e.nameLen && |extra| <= 256 ==> !again
  {
    hide DataRange, LocalHeaderBytes;
    WrittenDataRange(file, e, before, other, name, extra, data, after);
    r, again := FetchWithHeader(file, e, from, to);
    if r.Ok? { SubSlice(file, r.value.0.0, r.value.0.1, from, to); }
  }

  // ---- End records ----

  /** An end record: the disk it is on and the one the directory starts on, the directory's entries, size and
      offset, and a comment. */
  datatype EndRecord = EndRecord(disk: nat, cdDisk: nat, entries: nat, size: nat, offset: nat, comment: bytes) {
    predicate Fits() {
      && disk < 0x1_0000 && cdDisk < 0x1_0000 && entries < 0x1_0000 && size < 0x1_0000_0000 && offset < 0x1_0000_0000
      && |comment| < 0x1_0000
    }

    function Bytes(): bytes
      requires Fits()
    {
      [0x50, 0x4b, 5, 6] + ToLE(disk, 2) + ToLE(cdDisk, 2) + ToLE(entries, 2) + ToLE(entries, 2) + ToLE(size, 4)
      + ToLE(offset, 4) + ToLE(|comment|, 2) + comment
    }

    /** The archive goes over several disks. */
    predicate Spanned() { (disk != 0 || cdDisk != 0) && disk != 0xFFFF && cdDisk != 0xFFFF }
  }

  /** The record at `i` of the file has the fields of `d`. */
  ghost predicate HasEnd(file: bytes, i: nat, d: EndRecord) {
    && i + 22 + |d.comment| <= |file| && At(file, i, 4) == SIG_EOCD && At(file, i + 4, 2) == d.disk
    && At(file, i + 6, 2) == d.cdDisk && At(file, i + 10, 2) == d.entries && At(file, i + 12, 4) == d.size
    && At(file, i + 16, 4) == d.offset && At(file, i + 20, 2) == |d.comment|
  }

  lemma EndFields(d: EndRecord)
    requires d.Fits()
    ensures |d.Bytes()| == 22 + |d.comment| && HasEnd(d.Bytes(), 0, d)
  {
    EndFront(d);
    EndBack(d);
    hide FromLE, ToLE, Pow256, At;
  }

  lemma EndFront(d: EndRecord)
    requires d.Fits()
    ensures var r := d.Bytes();
            && |r| == 22 + |d.comment| && At(r, 0, 4) == SIG_EOCD && At(r, 4, 2) == d.disk && At(r, 6, 2) == d.cdDisk
            && At(r, 10, 2) == d.entries
  {
    Widths();
    Signatures();
    hide FromLE, ToLE, Pow256, At;
    var g: bytes := [0x50, 0x4b, 5, 6];
    var k, q, e, r := ToLE(d.disk, 2), ToLE(d.cdDisk, 2), ToLE(d.entries, 2), d.Bytes();
    var rest := ToLE(d.size, 4) + ToLE(d.offset, 4) + ToLE(|d.comment|, 2) + d.comment;
    SignatureAt(g, k + q + e + e + rest);
    FieldAt(g, d.disk, 2, q + e + e + rest);
    FieldAt(g + k, d.cdDisk, 2, e + e + rest);
    FieldAt(g + k + q + e, d.entries, 2, rest);
    assert r == g + (k + q + e + e + rest);
    assert r == g + k + (q + e + e + rest);
    assert r == g + k + q + (e + e + rest);
    assert r == g + k + q + e + e + rest;
  }

  lemma EndBack(d: EndRecord)
    requires d.Fits()
    ensures var r := d.Bytes();
            && |r| == 22 + |d.comment| && At(r, 12, 4) == d.size && At(r, 16, 4) == d.offset
            && At(r, 20, 2) == |d.comment|
  {
    Widths();
    hide FromLE, ToLE, Pow256, At;
    var front := [0x50, 0x4b, 5, 6] + ToLE(d.disk, 2) + ToLE(d.cdDisk, 2) + ToLE(d.entries, 2) + ToLE(d.entries, 2);
    var s, o, c, r := ToLE(d.size, 4), ToLE(d.offset, 4), ToLE(|d.comment|, 2), d.Bytes();
    FieldAt(front, d.size, 4, o + c + d.comment);
    FieldAt(front + s, d.offset, 4, c + d.comment);
    FieldAt(front + s + o, |d.comment|, 2, d.comment);
    assert r == front + s + (o + c + d.comment);
    assert r == front + s + o + (c + d.comment);
    assert r == front + s + o + c + d.comment;
  }

  /** The end record is the last one in the file whose comment ends the file. */
  ghost predicate LastRecord(file: bytes, i: nat) {
    forall j :: i < j && j + EOCD_LEN <= |file| ==> !IsEocd(file, j, true)
  }

  lemma EndInFile(body: bytes, d: EndRecord, file: bytes)
    requires d.Fits() && file == body + d.Bytes()
    ensures HasEnd(file, |body|, d) && IsEocd(file, |body|, true)
  {
    EndFields(d);
    hide FromLE, At;
    var r := d.Bytes();
    assert file == body + r + [];
    FieldIn(body, r, [], 0, 4);
    FieldIn(body, r, [], 4, 2);
    FieldIn(body, r, [], 6, 2);
    FieldIn(body, r, [], 10, 2);
    FieldIn(body, r, [], 12, 4);
    FieldIn(body, r, [], 16, 4);
    FieldIn(body, r, [], 20, 2);
  }

  lemma EocdIs(file: bytes, i: nat)
    requires IsEocd(file, i, true) && LastRecord(file, i)
    ensures |file| >= EOCD_LEN && Eocd(file) == Some(i)
  {
    hide At;
    var n := |file| - EOCD_LEN + 1;
    var e := FindEocd(file, true, n);
    assert e.Some?;
  }

  /** A file without the 64-bit records: its last bytes name the directory that was written. */
  lemma ClassicLocated(body: bytes, d: EndRecord, file: bytes, n: nat)
    requires d.Fits() && file == body + d.Bytes() && LastRecord(file, |body|)
    requires |body| < 20 || At(file, |body| - 20, 4) != SIG_ZIP64_LOCATOR
    requires n == |file| || MAX_TAIL <= n <= |file|
    ensures LocateFromTail(file, n)
            == if d.Spanned() then Err(Unsupported)
               else if d.entries == 0xFFFF || d.size == 0xFFFF_FFFF || d.offset == 0xFFFF_FFFF then Err(Corrupt)
               else if d.offset + d.size <= |file| then Ok(CentralDirectory(d.offset, d.size, d.entries))
               else Err(Corrupt)
  {
    hide FromLE, LocateFromTail, Eocd, At, LastRecord, IsEocd;
    EndInFile(body, d, file);
    EocdIs(file, |body|);
    FoundClassic(file, |body|, d);
    if n < |file| { UsualTail(file, n, |body|); }
  }

  lemma FoundClassic(file: bytes, i: nat, d: EndRecord)
    requires HasEnd(file, i, d) && |file| >= EOCD_LEN && Eocd(file) == Some(i)
    requires i < 20 || At(file, i - 20, 4) != SIG_ZIP64_LOCATOR
    ensures LocateFromTail(file, |file|)
            == if d.Spanned() then Err(Unsupported)
               else if d.entries == 0xFFFF || d.size == 0xFFFF_FFFF || d.offset == 0xFFFF_FFFF then Err(Corrupt)
               else if d.offset + d.size <= |file| then Ok(CentralDirectory(d.offset, d.size, d.entries))
               else Err(Corrupt)
  {
    hide At, Eocd;
    assert file[0..] == file;
  }

  // ---- The 64-bit records ----

  /** A ZIP64 end record: its own size and versions, the two disks, then the directory's entries, size and offset. */
  datatype Zip64Record =
    Zip64Record(versions: bytes, disk: nat, cdDisk: nat, entries: nat, size: nat, offset: nat) {
    predicate Fits() {
      && |versions| == 12 && disk < 0x1_0000_0000 && cdDisk < 0x1_0000_0000 && entries < 0x1_0000_0000_0000_0000
      && size < 0x1_0000_0000_0000_0000 && offset < 0x1_0000_0000_0000_0000
    }

    function Bytes(): bytes
      requires Fits()
    {
      Widths();
      [0x50, 0x4b, 6, 6] + versions + ToLE(disk, 4) + ToLE(cdDisk, 4) + ToLE(entries, 8) + ToLE(entries, 8) + ToLE(size, 8)
      + ToLE(offset, 8)
    }
  }

  /** Its locator: the record's disk and position, and the number of disks. */
  function LocatorBytes(disk: nat, pos: nat, disks: nat): bytes
    requires disk < 0x1_0000_0000 && pos < 0x1_0000_0000_0000_0000 && disks < 0x1_0000_0000
  {
    Widths();
    [0x50, 0x4b, 6, 7] + ToLE(disk, 4) + ToLE(pos, 8) + ToLE(disks, 4)
  }

  ghost predicate HasZip64(rec: bytes, z: Zip64Record) {
    && |rec| >= 56 && At(rec, 0, 4) == SIG_ZIP64_EOCD && At(rec, 16, 4) == z.disk && At(rec, 20, 4) == z.cdDisk
    && At(rec, 32, 8) == z.entries && At(rec, 40, 8) == z.size && At(rec, 48, 8) == z.offset
  }

  lemma Zip64Fields(z: Zip64Record)
    requires z.Fits()
    ensures |z.Bytes()| == 56 && HasZip64(z.Bytes(), z)
  {
    Widths();
    Signatures();
    hide FromLE, ToLE, Pow256, At;
    var g: bytes := [0x50, 0x4b, 6, 6];
    var k, q, e, s, o := ToLE(z.disk, 4), ToLE(z.cdDisk, 4), ToLE(z.entries, 8), ToLE(z.size, 8), ToLE(z.offset, 8);
    var v, r := z.versions, z.Bytes();
    SignatureAt(g, v + k + q + e + e + s + o);
    FieldAt(g + v, z.disk, 4, q + e + e + s + o);
    FieldAt(g + v + k, z.cdDisk, 4, e + e + s + o);
    FieldAt(g + v + k + q + e, z.entries, 8, s + o);
    FieldAt(g + v + k + q + e + e, z.size, 8, o);
    FieldAt(g + v + k + q + e + e + s, z.offset, 8, []);
    assert r == g + (v + k + q + e + e + s + o);
    assert r == g + v + k + (q + e + e + s + o);
    assert r == g + v + k + q + (e + e + s + o);
    assert r == g + v + k + q + e + e + (s + o);
    assert r == g + v + k + q + e + e + s + (o);
    assert r == g + v + k + q + e + e + s + o + [];
  }

  /** The record alone, as it is read when it lies before the tail. */
  lemma Zip64Alone(z: Zip64Record, fileLen: nat)
    requires z.Fits()
    ensures FromZip64Record(z.Bytes(), fileLen)
            == if z.disk != 0 || z.cdDisk != 0 then Err(Unsupported)
               else if z.offset + z.size <= fileLen then Ok(CentralDirectory(z.offset, z.size, z.entries))
               else Err(Corrupt)
  {
    Zip64Fields(z);
    hide At;
  }

  lemma LocatorFields(disk: nat, pos: nat, disks: nat)
    requires disk < 0x1_0000_0000 && pos < 0x1_0000_0000_0000_0000 && disks < 0x1_0000_0000
    ensures var r := LocatorBytes(disk, pos, disks);
            |r| == 20 && At(r, 0, 4) == SIG_ZIP64_LOCATOR && At(r, 8, 8) == pos && At(r, 16, 4) == disks
  {
    Widths();
    Signatures();
    hide FromLE, ToLE, Pow256, At;
    var g: bytes := [0x50, 0x4b, 6, 7];
    var k, p, d := ToLE(disk, 4), ToLE(pos, 8), ToLE(disks, 4);
    var r := LocatorBytes(disk, pos, disks);
    SignatureAt(g, k + p + d);
    FieldAt(g + k, pos, 8, d);
    FieldAt(g + k + p, disks, 4, []);
    assert r == g + (k + p + d);
    assert r == g + k + p + d + [];
  }

  /** A file with the 64-bit records: its last bytes name the directory that was written there, whatever the
      classic record says of it. */
  lemma Zip64Located(body: bytes, z: Zip64Record, disk: nat, disks: nat, d: EndRecord, file: bytes, n: nat)
    requires z.Fits() && d.Fits() && disk < 0x1_0000_0000 && disks < 0x1_0000_0000 && |body| < 0x1_0000_0000_0000_0000
    requires file == body + z.Bytes() + LocatorBytes(disk, |body|, disks) + d.Bytes()
    requires LastRecord(file, |body| + 76) && (n == |file| || MAX_TAIL <= n <= |file|)
    ensures LocateFromTail(file, n)
            == if d.Spanned() || disks > 1 || z.disk != 0 || z.cdDisk != 0 then Err(Unsupported)
               else if z.offset + z.size <= |file| then Ok(CentralDirectory(z.offset, z.size, z.entries))
               else Err(Corrupt)
  {
    hide LocatorBytes, FromLE, LocateFromTail, Eocd, At, LastRecord, IsEocd, HasEnd, HasZip64;
    var rec, loc, end := z.Bytes(), LocatorBytes(disk, |body|, disks), d.Bytes();
    Zip64Fields(z);
    LocatorFields(disk, |body|, disks);
    EndInFile(body + rec + loc, d, file);
    EocdIs(file, |body| + 76);
    LocatorInFile(body, rec, loc, end, file);
    assert file == body + rec + (loc + end);
    RecordInFile(body, rec, loc + end, file, z);
    Found64(file, |body|, z, disks, d);
    if n < |file| { UsualTail(file, n, |body| + 76); }
  }

  lemma LocatorInFile(body: bytes, rec: bytes, loc: bytes, end: bytes, file: bytes)
    requires |rec| == 56 && |loc| == 20 && file == body + rec + loc + end
    ensures var i := |body| + 56;
            && At(file, i, 4) == At(loc, 0, 4) && At(file, i + 8, 8) == At(loc, 8, 8) && At(file, i + 16, 4) == At(loc, 16, 4)
  {
    hide At;
    FieldIn(body + rec, loc, end, 0, 4);
    FieldIn(body + rec, loc, end, 8, 8);
    FieldIn(body + rec, loc, end, 16, 4);
  }

  lemma RecordInFile(body: bytes, rec: bytes, rest: bytes, file: bytes, z: Zip64Record)
    requires |rec| == 56 && file == body + rec + rest && HasZip64(rec, z)
    ensures HasZip64(file[|body|..], z)
  {
    hide FromLE;
    assert file[|body|..] == rec + rest;
    SliceHead(rec, rest, 0, 4);
    SliceHead(rec, rest, 16, 20);
    SliceHead(rec, rest, 20, 24);
    SliceHead(rec, rest, 32, 40);
    SliceHead(rec, rest, 40, 48);
    SliceHead(rec, rest, 48, 56);
  }

  lemma Found64(file: bytes, pos: nat, z: Zip64Record, disks: nat, d: EndRecord)
    requires HasEnd(file, pos + 76, d) && |file| >= EOCD_LEN && Eocd(file) == Some(pos + 76)
    requires At(file, pos + 56, 4) == SIG_ZIP64_LOCATOR && At(file, pos + 64, 8) == pos && At(file, pos + 72, 4) == disks
    requires HasZip64(file[pos..], z)
    ensures LocateFromTail(file, |file|)
            == if d.Spanned() || disks > 1 || z.disk != 0 || z.cdDisk != 0 then Err(Unsupported)
               else if z.offset + z.size <= |file| then Ok(CentralDirectory(z.offset, z.size, z.entries))
               else Err(Corrupt)
  {
    hide At, Eocd;
    assert file[0..] == file;
  }
}
