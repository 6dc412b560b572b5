/** Zip end records, local headers and extra fields (sections 4.3.7, 4.3.14 to 4.3.16 and 4.5 of PKWARE
    APPNOTE 6.3.10). */
module Zip {
  import opened Base

  const SIG_LOCAL: nat := 0x0403_4b50
  const SIG_EOCD: nat := 0x0605_4b50
  const SIG_ZIP64_EOCD: nat := 0x0606_4b50
  const SIG_ZIP64_LOCATOR: nat := 0x0706_4b50
  const EOCD_LEN: nat := 22
  const LOCATOR_LEN: nat := 20
  const ZIP64_EOCD_LEN: nat := 56
  const LOCAL_HEADER_LEN: nat := 30
  const MAX_COMMENT: nat := 0xFFFF
  /** Bytes from the end of a zip that always contain its end records. */
  const MAX_TAIL: nat := EOCD_LEN + MAX_COMMENT + LOCATOR_LEN + ZIP64_EOCD_LEN

  /** The little-endian integer of `w` bytes at `at`. */
  function At(b: bytes, at: nat, w: nat): nat
    requires at + w <= |b|
  {
    FromLE(b[at..at + w])
  }

  // ---- Where the central directory is ----

  datatype CentralDirectory = CentralDirectory(offset: nat, size: nat, entries: nat)

  function Within(cd: CentralDirectory, fileLen: nat): Result<CentralDirectory> {
    if cd.offset + cd.size <= fileLen then Ok(cd) else Err(Corrupt)
  }

  function FromZip64Record(rec: bytes, fileLen: nat): Result<CentralDirectory> {
    if |rec| < ZIP64_EOCD_LEN || At(rec, 0, 4) != SIG_ZIP64_EOCD then Err(Corrupt)
    else if At(rec, 16, 4) != 0 || At(rec, 20, 4) != 0 then Err(Unsupported)
    else Within(CentralDirectory(At(rec, 48, 8), At(rec, 40, 8), At(rec, 32, 8)), fileLen)
  }

  datatype EndRecords = Found(cd: CentralDirectory) | NeedZip64Record(pos: nat)

  /** An end record at `i`, its comment ending at the end (`exact`) or before it. */
  predicate IsEocd(tail: bytes, i: nat, exact: bool) {
    && i + EOCD_LEN <= |tail| && At(tail, i, 4) == SIG_EOCD
    && var end := i + EOCD_LEN + At(tail, i + 20, 2);
       if exact then end == |tail| else end <= |tail|
  }

  /** The last end record that starts before `n`. */
  function FindEocd(tail: bytes, exact: bool, n: nat): (r: Option<nat>)
    ensures r.Some? ==> r.value < n && IsEocd(tail, r.value, exact)
    ensures forall i :: (if r.Some? then r.value else -1) < i < n ==> !IsEocd(tail, i, exact)
  {
    if n == 0 then None else if IsEocd(tail, n - 1, exact) then Some(n - 1) else FindEocd(tail, exact, n - 1)
  }

  function Eocd(tail: bytes): Option<nat>
    requires |tail| >= EOCD_LEN
  {
    var n := |tail| - EOCD_LEN + 1;
    var exact := FindEocd(tail, true, n);
    if exact.Some? then exact else FindEocd(tail, false, n)
  }

  /** `locate_central_directory` on the last bytes of a zip. */
  function Locate(tail: bytes, tailStart: nat): Result<EndRecords> {
    var fileLen := tailStart + |tail|;
    if |tail| < EOCD_LEN then Err(Corrupt)
    else if tailStart != 0 && |tail| < MAX_TAIL then Err(Corrupt)
    else
      var at := Eocd(tail);
      if at.None? then Err(Corrupt) else FromEocd(tail, tailStart, at.value)
  }

  /** The rest of the search once the end record is found at `i`. */
  function FromEocd(tail: bytes, tailStart: nat, i: nat): Result<EndRecords>
    requires i + EOCD_LEN <= |tail|
  {
    var fileLen := tailStart + |tail|;
    var disk, cdDisk := At(tail, i + 4, 2), At(tail, i + 6, 2);
    if (disk != 0 || cdDisk != 0) && disk != 0xFFFF && cdDisk != 0xFFFF then Err(Unsupported)
    else
      var classic := CentralDirectory(At(tail, i + 16, 4), At(tail, i + 12, 4), At(tail, i + 10, 2));
      if i < LOCATOR_LEN || At(tail, i - LOCATOR_LEN, 4) != SIG_ZIP64_LOCATOR then
        if classic.entries == 0xFFFF || classic.size == 0xFFFF_FFFF || classic.offset == 0xFFFF_FFFF then Err(Corrupt)
        else
          var cd := Within(classic, fileLen);
          if cd.Err? then Err(cd.error) else Ok(Found(cd.value))
      else if At(tail, i - LOCATOR_LEN + 16, 4) > 1 then Err(Unsupported)
      else
        var pos := At(tail, i - LOCATOR_LEN + 8, 8);
        if pos + ZIP64_EOCD_LEN > fileLen then Err(Corrupt)
        else if pos < tailStart then Ok(NeedZip64Record(pos))
        else
          var cd := FromZip64Record(tail[pos - tailStart..], fileLen);
          if cd.Err? then Err(cd.error) else Ok(Found(cd.value))
  }

  /** The central directory from the last `n` bytes, with the one extra read when it is asked for. */
  function LocateFromTail(file: bytes, n: nat): Result<CentralDirectory>
    requires n <= |file|
  {
    var start := |file| - n;
    match Locate(file[start..], start)
    case Err(e) => Err(e)
    case Ok(Found(cd)) => Ok(cd)
    case Ok(NeedZip64Record(pos)) =>
      if pos + ZIP64_EOCD_LEN > |file| then Err(Corrupt)
      else FromZip64Record(file[pos..pos + ZIP64_EOCD_LEN], |file|)
  }

  /** Any directory returned lies inside the file. */
  lemma DirectoryInside(file: bytes, n: nat)
    requires n <= |file|
    ensures var r := LocateFromTail(file, n);
            r.Ok? ==> r.value.offset + r.value.size <= |file|
  {
    hide FromLE, Eocd;
  }

  // ---- The tail is enough ----

  lemma AtSuffix(file: bytes, start: nat, at: nat, w: nat)
    requires start <= at && at + w <= |file|
    ensures At(file[start..], at - start, w) == At(file, at, w)
  {
    hide FromLE;
    assert file[start..][at - start..at - start + w] == file[at..at + w];
  }

  lemma EocdSuffix(file: bytes, start: nat, i: nat, exact: bool)
    requires start <= i <= |file|
    ensures IsEocd(file[start..], i - start, exact) <==> IsEocd(file, i, exact)
  {
    hide FromLE;
    if i + EOCD_LEN <= |file| {
      AtSuffix(file, start, i, 4);
      AtSuffix(file, start, i + 20, 2);
    }
  }

  /** An end record whose comment ends the file starts in the last bytes. */
  lemma ExactIsLate(file: bytes, i: nat)
    requires IsEocd(file, i, true)
    ensures i + EOCD_LEN + MAX_COMMENT >= |file|
  {
    hide FromLE;
    Widths();
  }

  /** The search in the tail finds the same end record. */
  lemma SameEocd(file: bytes, start: nat, i: nat)
    requires start + MAX_TAIL <= |file| && IsEocd(file, i, true)
    ensures Eocd(file).Some? && Eocd(file).value >= start + LOCATOR_LEN + ZIP64_EOCD_LEN
    ensures Eocd(file[start..]) == Some(Eocd(file).value - start)
    ensures Eocd(file).value + EOCD_LEN <= |file|
  {
    hide IsEocd;
    var tail := file[start..];
    var n := |file| - EOCD_LEN + 1;
    InRange(file, i);
    var a, b := FindEocd(file, true, n), FindEocd(tail, true, n - start);
    ExactIsLate(file, a.value);
    InRange(file, a.value);
    EocdSuffix(file, start, a.value, true);
    assert b.Some?;
    EocdSuffix(file, start, b.value + start, true);
  }

  lemma InRange(file: bytes, i: nat)
    requires IsEocd(file, i, true)
    ensures i + EOCD_LEN <= |file|
  {
  }

  lemma Zip64Prefix(rec: bytes, fileLen: nat)
    requires |rec| >= ZIP64_EOCD_LEN
    ensures FromZip64Record(rec[..ZIP64_EOCD_LEN], fileLen) == FromZip64Record(rec, fileLen)
  {
    hide FromLE;
    var head := rec[..ZIP64_EOCD_LEN];
    assert head[0..4] == rec[0..4] && head[16..20] == rec[16..20] && head[20..24] == rec[20..24];
    assert head[32..40] == rec[32..40] && head[40..48] == rec[40..48] && head[48..56] == rec[48..56];
  }

  /** What follows from the end record is the same read from the tail and from the whole file. */
  lemma SameFromEocd(file: bytes, start: nat, i: nat)
    requires start + LOCATOR_LEN <= i && i + EOCD_LEN <= |file|
    ensures var t, w := FromEocd(file[start..], start, i - start), FromEocd(file, 0, i);
            || (t.Ok? && t.value.NeedZip64Record? && t.value.pos + ZIP64_EOCD_LEN <= |file|
                && (var cd := FromZip64Record(file[t.value.pos..], |file|);
                    w == if cd.Err? then Err(cd.error) else Ok(Found(cd.value))))
            || (t == w && (t.Ok? ==> t.value.Found?))
  {
    hide FromLE, At, FromZip64Record;
    AtSuffix(file, start, i + 4, 2);
    AtSuffix(file, start, i + 6, 2);
    AtSuffix(file, start, i + 10, 2);
    AtSuffix(file, start, i + 12, 4);
    AtSuffix(file, start, i + 16, 4);
    AtSuffix(file, start, i - LOCATOR_LEN, 4);
    AtSuffix(file, start, i - LOCATOR_LEN + 8, 8);
    AtSuffix(file, start, i - LOCATOR_LEN + 16, 4);
    var pos := At(file, i - LOCATOR_LEN + 8, 8);
    if start <= pos <= |file| { assert file[start..][pos - start..] == file[pos..]; }
    assert file[0..] == file;
  }

  // ---- Exactly when the tail is enough ----

  /** The search in the tail finds the file's end record, unless that lies before the tail. */
  lemma TailEocd(file: bytes, start: nat)
    requires start + MAX_TAIL <= |file|
    ensures var e := Eocd(file);
            Eocd(file[start..]) == if e.Some? && e.value >= start then Some(e.value - start) else None
    ensures Eocd(file).Some? ==> Eocd(file).value + EOCD_LEN <= |file|
  {
    hide IsEocd;
    var tail, n := file[start..], |file| - EOCD_LEN + 1;
    var exact := FindEocd(file, true, n);
    if exact.Some? { SameEocd(file, start, exact.value); }
    else {
      var a, b := FindEocd(file, false, n), FindEocd(tail, false, n - start);
      forall i, x | 0 <= i < n - start ensures IsEocd(tail, i, x) <==> IsEocd(file, i + start, x) {
        EocdSuffix(file, start, i + start, x);
      }
      if b.Some? { EocdSuffix(file, start, b.value + start, false); }
      if a.Some? && a.value >= start { EocdSuffix(file, start, a.value, false); }
    }
  }

  /** A ZIP64 locator directly before the end record. */
  predicate HasLocator(file: bytes, e: nat)
    requires e + EOCD_LEN <= |file|
  {
    e >= LOCATOR_LEN && At(file, e - LOCATOR_LEN, 4) == SIG_ZIP64_LOCATOR
  }

  predicate MultiDisk(file: bytes, e: nat)
    requires e + EOCD_LEN <= |file|
  {
    var disk, cdDisk := At(file, e + 4, 2), At(file, e + 6, 2);
    (disk != 0 || cdDisk != 0) && disk != 0xFFFF && cdDisk != 0xFFFF
  }

  /** The directory the end record itself names. */
  function Classic(file: bytes, e: nat): Result<CentralDirectory>
    requires e + EOCD_LEN <= |file|
  {
    var cd := CentralDirectory(At(file, e + 16, 4), At(file, e + 12, 4), At(file, e + 10, 2));
    if cd.entries == 0xFFFF || cd.size == 0xFFFF_FFFF || cd.offset == 0xFFFF_FFFF then Err(Corrupt)
    else Within(cd, |file|)
  }

  /** The directory the ZIP64 record behind the locator names. */
  function Zip64(file: bytes, e: nat): Result<CentralDirectory>
    requires e + EOCD_LEN <= |file| && HasLocator(file, e)
  {
    var pos := At(file, e - LOCATOR_LEN + 8, 8);
    if At(file, e - LOCATOR_LEN + 16, 4) > 1 then Err(Unsupported)
    else if pos + ZIP64_EOCD_LEN > |file| then Err(Corrupt)
    else FromZip64Record(file[pos..], |file|)
  }

  /** The directory named by the end record at `e` and what precedes it. */
  function Named(file: bytes, e: nat): Result<CentralDirectory>
    requires e + EOCD_LEN <= |file|
  {
    if MultiDisk(file, e) then Err(Unsupported)
    else if HasLocator(file, e) then Zip64(file, e)
    else Classic(file, e)
  }

  function AsRecords(cd: Result<CentralDirectory>): Result<EndRecords> {
    if cd.Err? then Err(cd.error) else Ok(Found(cd.value))
  }

  lemma WholeFromEocd(file: bytes, e: nat)
    requires e + EOCD_LEN <= |file|
    ensures FromEocd(file, 0, e) == AsRecords(Named(file, e))
  {
    hide FromLE, At, FromZip64Record, Within;
  }

  /** Without a look at the bytes before the tail a locator there is not seen. */
  lemma BandFromEocd(file: bytes, start: nat, e: nat)
    requires start <= e < start + LOCATOR_LEN && e + EOCD_LEN <= |file|
    ensures FromEocd(file[start..], start, e - start)
            == AsRecords(if MultiDisk(file, e) then Err(Unsupported) else Classic(file, e))
  {
    hide FromLE, At, FromZip64Record, Within;
    AtSuffix(file, start, e + 4, 2);
    AtSuffix(file, start, e + 6, 2);
    AtSuffix(file, start, e + 10, 2);
    AtSuffix(file, start, e + 12, 4);
    AtSuffix(file, start, e + 16, 4);
  }

  /** The whole file shows what its end record names. */
  lemma WholeLocates(file: bytes)
    requires |file| >= EOCD_LEN && (Eocd(file).Some? ==> Eocd(file).value + EOCD_LEN <= |file|)
    ensures LocateFromTail(file, |file|)
            == if Eocd(file).None? then Err(Corrupt) else Named(file, Eocd(file).value)
  {
    hide FromLE, At, IsEocd, Eocd, FromEocd, FromZip64Record, Named;
    assert file[0..] == file;
    if Eocd(file).Some? { WholeFromEocd(file, Eocd(file).value); }
  }

  lemma TailLocates(file: bytes, start: nat, e: nat)
    requires start + MAX_TAIL <= |file| && start + LOCATOR_LEN <= e && e + EOCD_LEN <= |file|
    requires Eocd(file[start..]) == Some(e - start)
    ensures LocateFromTail(file, |file| - start) == Named(file, e)
  {
    hide FromLE, At, IsEocd, Eocd, FromEocd, FromZip64Record, Named;
    SameFromEocd(file, start, e);
    WholeFromEocd(file, e);
    var t := FromEocd(file[start..], start, e - start);
    if t.Ok? && t.value.NeedZip64Record? {
      Zip64Prefix(file[t.value.pos..], |file|);
      assert file[t.value.pos..][..ZIP64_EOCD_LEN] == file[t.value.pos..t.value.pos + ZIP64_EOCD_LEN];
    }
  }

  /** The condition on the file's records: an end record before the tail must be a corrupt one, and one
      so close to the start of the tail that a locator lies outside must not need that locator. */
  predicate TailShows(file: bytes, n: nat)
    requires EOCD_LEN <= |file| && n <= |file| && (Eocd(file).Some? ==> Eocd(file).value + EOCD_LEN <= |file|)
  {
    var start := |file| - n;
    Eocd(file).Some? ==>
      var e := Eocd(file).value;
      if e < start then Named(file, e) == Err(Corrupt)
      else e < start + LOCATOR_LEN && HasLocator(file, e) && !MultiDisk(file, e) ==> Classic(file, e) == Zip64(file, e)
  }

  /** Locating from a long enough tail gives what locating in the whole file gives exactly then. */
  lemma TailIsEnough(file: bytes, n: nat)
    requires MAX_TAIL <= n <= |file|
    ensures Eocd(file).Some? ==> Eocd(file).value + EOCD_LEN <= |file|
    ensures LocateFromTail(file, n) == LocateFromTail(file, |file|) <==> TailShows(file, n)
  {
    hide FromLE, At, IsEocd, Eocd, FromEocd, FromZip64Record, Classic, Zip64, HasLocator, MultiDisk;
    var start := |file| - n;
    TailEocd(file, start);
    WholeLocates(file);
    var e := Eocd(file);
    if e.Some? && e.value >= start + LOCATOR_LEN { TailLocates(file, start, e.value); }
    else if e.Some? && e.value >= start { BandFromEocd(file, start, e.value); }
  }

  /** In particular when the comment ends the file, and when the end record, padded or not, starts at
      least a locator's length inside the tail. */
  lemma UsualTail(file: bytes, n: nat, i: nat)
    requires MAX_TAIL <= n <= |file|
    requires IsEocd(file, i, true) || (Eocd(file) == Some(i) && i >= |file| - n + LOCATOR_LEN)
    ensures LocateFromTail(file, n) == LocateFromTail(file, |file|)
  {
    hide FromLE, At, IsEocd, Eocd, LocateFromTail, Named;
    if IsEocd(file, i, true) { SameEocd(file, |file| - n, i); }
    TailIsEnough(file, n);
  }

  // ---- Without such a record the tail can miss ----

  lemma FirstByte(b: bytes, at: nat)
    requires at + 4 <= |b|
    ensures At(b, at, 4) % 256 == b[at]
  {
    assert b[at..at + 4][0] == b[at];
  }

  lemma NoEocd(b: bytes, i: nat, exact: bool)
    requires i < |b| && b[i] != 0x50
    ensures !IsEocd(b, i, exact)
  {
    hide FromLE;
    if i + EOCD_LEN <= |b| { FirstByte(b, i); }
  }

  /** An end record of an empty archive, without a comment. */
  const EMPTY_EOCD: bytes :=
    [0x50, 0x4b, 0x05, 0x06, 0, 0, 0, 0, 0, 0, 0, 0, 0, 0, 0, 0, 0, 0, 0, 0, 0, 0]

  lemma EmptyEocd(file: bytes)
    requires EMPTY_EOCD <= file
    ensures At(file, 0, 4) == SIG_EOCD
    ensures forall at, w :: 4 <= at && 0 <= w <= 4 && at + w <= 22 ==> At(file, at, w) == 0
  {
    assert file[0..4] == [0x50, 0x4b, 0x05, 0x06];
    assert FromLE([0x05, 0x06]) == 0x0605 && FromLE([0x4b, 0x05, 0x06]) == 0x06054b;
    assert [0x50, 0x4b, 0x05, 0x06][1..] == [0x4b, 0x05, 0x06] && [0x4b, 0x05, 0x06][1..] == [0x05, 0x06];
    forall at, w | 4 <= at && 0 <= w <= 4 && at + w <= 22 ensures At(file, at, w) == 0 {
      ZeroBytes(file[at..at + w]);
    }
  }

  lemma {:induction false} ZeroBytes(b: bytes)
    requires forall i :: 0 <= i < |b| ==> b[i] == 0
    ensures FromLE(b) == 0
  {
    if b != [] { ZeroBytes(b[1..]); }
  }

  /** Padding after the end record hides it from the tail, though the whole file still shows it. */
  lemma TailCanMiss(padding: bytes)
    requires |padding| >= MAX_TAIL && forall i :: 0 <= i < |padding| ==> padding[i] == 0
    ensures var file := EMPTY_EOCD + padding;
            LocateFromTail(file, |file|) == Ok(CentralDirectory(0, 0, 0)) && LocateFromTail(file, MAX_TAIL).Err?
  {
    hide FromLE;
    var file := EMPTY_EOCD + padding;
    var tail := file[|file| - MAX_TAIL..];
    EmptyEocd(file);
    forall i, exact | 0 < i < |file| ensures !IsEocd(file, i, exact) { NoEocd(file, i, exact); }
    forall i, exact | 0 <= i < |tail| ensures !IsEocd(tail, i, exact) { NoEocd(tail, i, exact); }
    assert file[0..] == file;
    assert !IsEocd(file, 0, true) && IsEocd(file, 0, false);
    assert Eocd(file) == Some(0);
    assert Eocd(tail) == None;
  }

  // ---- Extra fields ----

  datatype Field = Field(id: nat, data: bytes)

  predicate FieldFits(f: Field) { f.id < Pow256(2) && |f.data| < Pow256(2) }

  /** The data of the first extra field with this id, up to the first field that runs past the end. */
  function FindExtra(extra: bytes, id: nat): Option<bytes>
    decreases |extra|
  {
    if |extra| < 4 then None
    else
      var size := At(extra, 2, 2);
      if 4 + size > |extra| then None
      else if At(extra, 0, 2) == id then Some(extra[4..4 + size])
      else FindExtra(extra[4 + size..], id)
  }

  method FindExtraField(extra: bytes, id: nat) returns (r: Option<bytes>)
    ensures r == FindExtra(extra, id)
  {
    hide FromLE;
    var rest := extra;
    while |rest| >= 4
      invariant FindExtra(rest, id) == FindExtra(extra, id)
      decreases |rest|
    {
      var hid, size := At(rest, 0, 2), At(rest, 2, 2);
      if 4 + size > |rest| { return None; }
      if hid == id { return Some(rest[4..4 + size]); }
      rest := rest[4 + size..];
    }
    return None;
  }

  function FieldBytes(f: Field): (b: bytes)
    requires FieldFits(f)
    ensures |b| == 4 + |f.data|
  {
    ToLE(f.id, 2) + ToLE(|f.data|, 2) + f.data
  }

  function FieldsBytes(fs: seq<Field>): bytes
    requires forall i :: 0 <= i < |fs| ==> FieldFits(fs[i])
  {
    if fs == [] then [] else FieldBytes(fs[0]) + FieldsBytes(fs[1..])
  }

  lemma FieldFirst(f: Field, rest: bytes, b: bytes)
    requires FieldFits(f) && b == FieldBytes(f) + rest
    ensures |b| >= 4 && At(b, 0, 2) == f.id && At(b, 2, 2) == |f.data|
    ensures 4 + |f.data| <= |b| && b[4..4 + |f.data|] == f.data && b[4 + |f.data|..] == rest
  {
    hide FromLE, ToLE, Pow256;
    assert b[0..2] == ToLE(f.id, 2) && b[2..4] == ToLE(|f.data|, 2);
    LittleEndianRoundTrip(f.id, 2);
    LittleEndianRoundTrip(|f.data|, 2);
  }

  /** Well-formed fields are found: the first with the id, whatever follows them. */
  lemma {:induction false} ExtraFound(fs: seq<Field>, rest: bytes, k: nat)
    requires (forall i :: 0 <= i < |fs| ==> FieldFits(fs[i])) && k < |fs|
    requires forall i :: 0 <= i < k ==> fs[i].id != fs[k].id
    ensures FindExtra(FieldsBytes(fs) + rest, fs[k].id) == Some(fs[k].data)
    decreases k
  {
    hide FromLE, At, FieldBytes;
    var b := FieldsBytes(fs) + rest;
    var more := FieldsBytes(fs[1..]) + rest;
    assert b == FieldBytes(fs[0]) + more;
    FieldFirst(fs[0], more, b);
    if k > 0 { ExtraFound(fs[1..], rest, k - 1); }
  }

  // ---- Local headers ----

  /** What the directory says of an entry; `nameLen` is the length of its decoded name. */
  datatype Entry = Entry(offset: nat, nameLen: nat, compressedSize: nat, encrypted: bool)

  /** Where an entry's data lies, from at least the fixed part of its local header. */
  function LocalDataRange(header: bytes, e: Entry): Result<(nat, nat)> {
    if e.encrypted then Err(Unsupported)
    else if |header| < LOCAL_HEADER_LEN || At(header, 0, 4) != SIG_LOCAL then Err(Corrupt)
    else
      var start := e.offset + LOCAL_HEADER_LEN + At(header, 26, 2) + At(header, 28, 2);
      if start + e.compressedSize >= Pow256(8) then Err(Corrupt) else Ok((start, start + e.compressedSize))
  }

  /** Only the fixed part of the header counts. */
  lemma HeaderPrefix(header: bytes, longer: bytes, e: Entry)
    requires header <= longer && |header| >= LOCAL_HEADER_LEN
    ensures LocalDataRange(header, e) == LocalDataRange(longer, e)
  {
    hide FromLE, Pow256;
    assert header[0..4] == longer[0..4] && header[26..28] == longer[26..28] && header[28..30] == longer[28..30];
  }
}
