/** Reading entries of a remote archive: frames fetched in runs, prefetched spans, and the local header
    fetched together with a guess at the data. */
module Archive {
  import opened Base
  import opened Seekable
  import opened SeekRange
  import opened Zip

  const MAX_REQUEST: nat := 0x200_0000
  const LOCAL_EXTRA_GUESS: nat := 256
  const HEADER_JOIN: nat := 0x10_0000

  // ---- Runs of frames ----

  function Flatten(runs: seq<seq<FrameEntry>>): seq<FrameEntry> {
    if runs == [] then [] else Flatten(runs[..|runs| - 1]) + runs[|runs| - 1]
  }

  /** Frames that lie one after the other and are not too long to fetch together. */
  ghost predicate RunOk(run: seq<FrameEntry>) {
    && run != []
    && (forall i :: 0 <= i < |run| - 1 ==> run[i].CEnd() == run[i + 1].cOff)
    && (|run| > 1 ==> run[|run| - 1].CEnd() - run[0].cOff <= 0x200_0000)
  }

  ghost predicate RunsOk(runs: seq<seq<FrameEntry>>) {
    forall k :: 0 <= k < |runs| ==> RunOk(runs[k])
  }

  /** The frame is not adjacent to the run, or would make it too long. */
  ghost predicate Apart(run: seq<FrameEntry>, f: FrameEntry)
    requires run != []
  {
    run[|run| - 1].CEnd() != f.cOff || f.CEnd() - run[0].cOff > 0x200_0000
  }

  /** No run could have taken the first frame of the next. */
  ghost predicate Maximal(runs: seq<seq<FrameEntry>>)
    requires RunsOk(runs)
  {
    forall k :: 0 < k < |runs| ==> Apart(runs[k - 1], runs[k][0])
  }

  predicate Joins(run: seq<FrameEntry>, f: FrameEntry)
    requires run != []
  {
    run[|run| - 1].CEnd() == f.cOff && f.CEnd() - run[0].cOff <= MAX_REQUEST
  }

  function AddToRuns(runs: seq<seq<FrameEntry>>, f: FrameEntry): seq<seq<FrameEntry>> {
    var n := |runs| - 1;
    if n >= 0 && runs[n] != [] && Joins(runs[n], f) then runs[..n] + [runs[n] + [f]] else runs + [[f]]
  }

  lemma AddRunOk(runs: seq<seq<FrameEntry>>, f: FrameEntry)
    requires RunsOk(runs)
    ensures RunsOk(AddToRuns(runs, f)) && Flatten(AddToRuns(runs, f)) == Flatten(runs) + [f]
  {
    var n, now := |runs| - 1, AddToRuns(runs, f);
    if n >= 0 && runs[n] != [] && Joins(runs[n], f) {
      assert RunOk(runs[n]);
      assert now[..n] == runs[..n];
      forall k | 0 <= k < |now| ensures RunOk(now[k]) { if k < n { assert RunOk(runs[k]); } }
      assert Flatten(runs[..n]) + (runs[n] + [f]) == Flatten(runs) + [f];
    } else {
      assert now[..|runs|] == runs;
      forall k | 0 <= k < |now| ensures RunOk(now[k]) { if k < |runs| { assert RunOk(runs[k]); } }
    }
  }

  lemma AddMaximal(runs: seq<seq<FrameEntry>>, f: FrameEntry)
    requires RunsOk(runs) && Maximal(runs) && RunsOk(AddToRuns(runs, f))
    ensures Maximal(AddToRuns(runs, f))
  {
    var n, now := |runs| - 1, AddToRuns(runs, f);
    forall k | 0 < k < |now| ensures Apart(now[k - 1], now[k][0]) {
      if k <= n { assert Apart(runs[k - 1], runs[k][0]); }
    }
  }

  /** `runs`: the frames in order, cut exactly where they are not adjacent or a request would get too long. */
  method Runs(frames: seq<FrameEntry>) returns (out: seq<seq<FrameEntry>>)
    ensures RunsOk(out) && Flatten(out) == frames && Maximal(out)
  {
    out := [];
    for i := 0 to |frames|
      invariant RunsOk(out) && Flatten(out) == frames[..i] && Maximal(out)
    {
      AddRunOk(out, frames[i]);
      AddMaximal(out, frames[i]);
      assert frames[..i + 1] == frames[..i] + [frames[i]];
      out := AddToRuns(out, frames[i]);
    }
    assert frames[..|frames|] == frames;
  }

  /** In a run of frames of a stream, every frame lies between the first and the last. */
  lemma {:induction false} RunSpan(run: seq<FrameEntry>, i: nat, j: nat)
    requires RunOk(run) && i <= j < |run|
    ensures run[i].cOff <= run[j].cOff && run[i].CEnd() <= run[j].CEnd()
    decreases j
  {
    if i < j {
      RunSpan(run, i, j - 1);
      assert run[j - 1].CEnd() == run[j - 1 + 1].cOff;
    }
  }

  /** The frame lies in the bytes fetched from `base` on and decodes. */
  predicate FetchedOk(z: Zstd, f: FrameEntry, fetched: bytes, base: nat) {
    && base <= f.cOff && f.CEnd() - base <= |fetched|
    && DecompressFrame(z, f, fetched[f.cOff - base..f.CEnd() - base]).Ok?
  }

  /** The frames that were fetched and decode are the given contents. */
  ghost predicate Holds(z: Zstd, run: seq<FrameEntry>, fetched: bytes, base: nat, contents: seq<bytes>)
    requires SelOk(run, contents)
  {
    forall i :: 0 <= i < |run| && run[i].dSize > 0 && FetchedOk(z, run[i], fetched, base) ==>
      FetchedIs(z, run[i], fetched, base, contents[run[i].index])
  }

  ghost predicate FetchedIs(z: Zstd, f: FrameEntry, fetched: bytes, base: nat, c: bytes) {
    && base <= f.cOff && f.CEnd() - base <= |fetched|
    && DecompressFrame(z, f, fetched[f.cOff - base..f.CEnd() - base]) == Ok(c)
  }

  /** `decode`: the parts of `run` inside the range, from bytes that start at `base`. It succeeds exactly if
      every frame with content is in those bytes and decodes. */
  method Decode(z: Zstd, run: seq<FrameEntry>, fetched: bytes, base: nat, start: nat, end: nat, ghost contents: seq<bytes>)
    returns (r: Result<bytes>)
    requires start <= end && SelOk(run, contents) && forall i :: 0 <= i < |run| ==> base <= run[i].cOff
    requires Holds(z, run, fetched, base, contents)
    ensures r.Ok? <==> forall i :: 0 <= i < |run| && run[i].dSize > 0 ==> FetchedOk(z, run[i], fetched, base)
    ensures r.Ok? ==> r.value == PartsOf(run, contents, start, end)
  {
    hide DecompressFrame, PartsOf, Part;
    var out: bytes := [];
    NoParts(run, contents, start, end);
    var k := 0;
    while k < |run|
      invariant 0 <= k <= |run|
      invariant SelOk(run[..k], contents) && out == PartsOf(run[..k], contents, start, end)
      invariant forall i :: 0 <= i < k && run[i].dSize > 0 ==> FetchedOk(z, run[i], fetched, base)
    {
      var f := run[k];
      NextPart(run, contents, start, end, k);
      if f.dSize != 0 {
        var a, b := f.cOff - base, f.CEnd() - base;
        if b > |fetched| { return Err(Corrupt); }
        var c := DecompressFrame(z, f, fetched[a..b]);
        if c.Err? { return Err(c.error); }
        DecompressedLength(z, f, fetched[a..b]);
        var from, to := Max(start, f.dOff) - f.dOff, Min(end, f.DEnd()) - f.dOff;
        PartCases(f, c.value, start, end);
        if from < to { out := out + c.value[from..to]; }
      } else {
        EmptyPart(run, contents, start, end, k);
      }
      k := k + 1;
    }
    assert run[..k] == run;
    return Ok(out);
  }

  lemma PartCases(f: FrameEntry, content: bytes, start: nat, end: nat)
    requires |content| == f.dSize
    ensures var from, to := Max(start, f.dOff) - f.dOff, Min(end, f.DEnd()) - f.dOff;
            && (from < to ==> 0 <= from <= to <= |content| && Part(f, content, start, end) == content[from..to])
            && (from >= to ==> Part(f, content, start, end) == [])
  {
  }

  lemma EmptyPart(run: seq<FrameEntry>, contents: seq<bytes>, start: nat, end: nat, k: nat)
    requires k < |run| && run[k].dSize == 0
    ensures SelOk(run, contents) ==> Part(run[k], contents[run[k].index], start, end) == []
  {
  }

  lemma {:induction false} FlattenHas(runs: seq<seq<FrameEntry>>, k: nat, f: FrameEntry)
    requires k < |runs| && f in runs[k]
    ensures f in Flatten(runs)
    decreases |runs|
  {
    var n := |runs| - 1;
    if k < n { FlattenHas(runs[..n], k, f); }
  }

  /** A frame of a run decodes from the fetched bytes exactly if it decodes from the data. */
  lemma RunDecodes(z: Zstd, data: bytes, run: seq<FrameEntry>, fetched: bytes, i: nat)
    requires RunOk(run) && i < |run| && run[0].cOff <= run[|run| - 1].CEnd() <= |data|
    requires fetched == data[run[0].cOff..run[|run| - 1].CEnd()]
    ensures FetchedOk(z, run[i], fetched, run[0].cOff) <==> Decodes(z, data, run[i])
    ensures forall c :: FetchedIs(z, run[i], fetched, run[0].cOff, c) <==> DecodesTo(z, data, run[i], c)
  {
    hide DecompressFrame, RunOk;
    var n := |run| - 1;
    RunSpan(run, 0, i);
    RunSpan(run, i, n);
    SameFetched(z, data, run[0].cOff, run[n].CEnd(), run[i], fetched);
  }

  lemma SameFetched(z: Zstd, data: bytes, base: nat, to: nat, f: FrameEntry, fetched: bytes)
    requires base <= f.cOff && f.CEnd() <= to <= |data| && fetched == data[base..to]
    ensures FetchedOk(z, f, fetched, base) <==> Decodes(z, data, f)
    ensures forall c :: FetchedIs(z, f, fetched, base, c) <==> DecodesTo(z, data, f, c)
  {
    hide DecompressFrame;
    SubSlice(data, base, to, f.cOff - base, f.CEnd() - base);
  }

  lemma RunHolds(z: Zstd, data: bytes, frames: seq<FrameEntry>, runs: seq<seq<FrameEntry>>, k: nat, fetched: bytes)
    requires k < |runs| && RunOk(runs[k]) && FromTable(frames, Flatten(runs))
    requires var run := runs[k];
             run[0].cOff <= run[|run| - 1].CEnd() <= |data| && fetched == data[run[0].cOff..run[|run| - 1].CEnd()]
    ensures SelOk(runs[k], ContentsOf(z, data, frames))
    ensures Holds(z, runs[k], fetched, runs[k][0].cOff, ContentsOf(z, data, frames))
    ensures (forall i :: 0 <= i < |runs[k]| && runs[k][i].dSize > 0 ==> FetchedOk(z, runs[k][i], fetched, runs[k][0].cOff))
            <==> SelDecodes(z, data, runs[k])
  {
    hide DecompressFrame, RunOk, Flatten, ContentsOf, FetchedOk, Decodes, FetchedIs, DecodesTo;
    RunNonEmpty(runs[k]);
    var run, contents := runs[k], ContentsOf(z, data, frames);
    ContentsSized(z, data, frames);
    forall i | 0 <= i < |run|
      ensures run[i].index < |frames| && frames[run[i].index] == run[i] && run[i].dSize > 0
      ensures FetchedOk(z, run[i], fetched, run[0].cOff) <==> Decodes(z, data, run[i])
    {
      RunDecodes(z, data, run, fetched, i);
      InTable(frames, runs, k, i);
    }
    forall i | 0 <= i < |run| && run[i].dSize > 0 && FetchedOk(z, run[i], fetched, run[0].cOff)
      ensures FetchedIs(z, run[i], fetched, run[0].cOff, contents[run[i].index])
    {
      RunDecodes(z, data, run, fetched, i);
      DecodedIs(z, data, frames, run[i]);
      assert DecodesTo(z, data, run[i], contents[run[i].index]);
    }
  }

  lemma InTable(frames: seq<FrameEntry>, runs: seq<seq<FrameEntry>>, k: nat, i: nat)
    requires k < |runs| && i < |runs[k]| && FromTable(frames, Flatten(runs))
    ensures var f := runs[k][i]; f.index < |frames| && frames[f.index] == f && f.dSize > 0
  {
    FlattenHas(runs, k, runs[k][i]);
    var sel := Flatten(runs);
    var j :| 0 <= j < |sel| && sel[j] == runs[k][i];
  }

  lemma RunEnd(z: Zstd, data: bytes, runs: seq<seq<FrameEntry>>, k: nat)
    requires k < |runs| && RunOk(runs[k])
    ensures runs[k][0].cOff <= runs[k][|runs[k]| - 1].CEnd()
    ensures SelDecodes(z, data, runs[k]) ==> runs[k][|runs[k]| - 1].CEnd() <= |data|
    ensures SelDecodes(z, data, Flatten(runs)) ==> SelDecodes(z, data, runs[k])
    ensures forall i :: 0 <= i < |runs[k]| ==> runs[k][0].cOff <= runs[k][i].cOff
  {
    hide DecompressFrame;
    var run := runs[k];
    RunSpan(run, 0, |run| - 1);
    forall i | 0 <= i < |run| ensures run[0].cOff <= run[i].cOff { RunSpan(run, 0, i); }
    if SelDecodes(z, data, Flatten(runs)) {
      forall i | 0 <= i < |run| ensures Decodes(z, data, run[i]) {
        FlattenHas(runs, k, run[i]);
        var sel := Flatten(runs);
        var j :| 0 <= j < |sel| && sel[j] == run[i];
      }
    }
  }

  lemma SelJoin(z: Zstd, data: bytes, a: seq<FrameEntry>, b: seq<FrameEntry>)
    requires SelDecodes(z, data, a) && SelDecodes(z, data, b)
    ensures SelDecodes(z, data, a + b)
  {
  }

  lemma FlattenNext(runs: seq<seq<FrameEntry>>, k: nat)
    requires k < |runs|
    ensures Flatten(runs[..k + 1]) == Flatten(runs[..k]) + runs[k]
  {
    assert runs[..k + 1][..k] == runs[..k];
  }

  /** The range read of an archive entry, run by run: it succeeds when reading frame by frame does, with the
      same slice. */
  method ReadByRuns(z: Zstd, data: bytes, frames: seq<FrameEntry>, start: nat, end: nat)
    returns (r: Result<bytes>)
    requires Chained(frames)
    ensures r.Ok? <==> start <= end <= DecompressedLen(frames) && RangeDecodes(z, data, frames, start, end)
    ensures start > end || end > DecompressedLen(frames) ==> r == Err(Corrupt)
    ensures r.Ok? ==> end <= |Concat(ContentsOf(z, data, frames))|
                      && r.value == Concat(ContentsOf(z, data, frames))[start..end]
  {
    hide Chained, FramesForRange, DecompressFrame, Concat, Parts, PartsOf, Part, DecompressedLen, RunOk, SelDecodes,
         Flatten, ContentsOf, RangeDecodes, Holds, FetchedOk, FromTable;
    var sel := FramesForRange(frames, start, end);
    RangeErr(frames, start, end);
    if sel.Err? { return Err(Corrupt); }
    ghost var contents := ContentsOf(z, data, frames);
    RangeParts(z, data, frames, start, end);
    SelDecodesIff(z, data, frames, start, end);
    var runs := Runs(sel.value);
    var out: bytes := [];
    FlattenNone(z, data, runs, contents, start, end);
    var k := 0;
    while k < |runs|
      invariant 0 <= k <= |runs|
      invariant SelOk(Flatten(runs[..k]), contents) && out == PartsOf(Flatten(runs[..k]), contents, start, end)
      invariant SelDecodes(z, data, Flatten(runs[..k]))
    {
      var run := runs[k];
      RunNonEmpty(run);
      RunEnd(z, data, runs, k);
      var base, to := run[0].cOff, run[|run| - 1].CEnd();
      if to > |data| { return Err(Corrupt); }
      var fetched := data[base..to];
      RunHolds(z, data, frames, runs, k, fetched);
      PartsOfAppend(Flatten(runs[..k]), run, contents, start, end);
      FlattenNext(runs, k);
      var part := Decode(z, run, fetched, base, start, end, contents);
      if part.Err? { return Err(part.error); }
      SelJoin(z, data, Flatten(runs[..k]), run);
      out := out + part.value;
      k := k + 1;
    }
    assert runs[..k] == runs;
    return Ok(out);
  }

  lemma RunNonEmpty(run: seq<FrameEntry>)
    requires RunOk(run)
    ensures run != []
  {
  }

  lemma FlattenNone(z: Zstd, data: bytes, runs: seq<seq<FrameEntry>>, contents: seq<bytes>, start: nat, end: nat)
    ensures SelDecodes(z, data, Flatten(runs[..0]))
    ensures SelOk(Flatten(runs[..0]), contents) && PartsOf(Flatten(runs[..0]), contents, start, end) == []
  {
  }

  // ---- Prefetched spans ----

  /** A prefetched span of the file; no data if its download failed. */
  datatype Span = Span(start: nat, end: nat, data: Option<bytes>)

  /** The spans that arrived hold the file's bytes. */
  ghost predicate Genuine(spans: seq<Span>, file: bytes) {
    forall i :: 0 <= i < |spans| && spans[i].data.Some? ==>
      spans[i].start <= spans[i].end <= |file| && spans[i].data.value == file[spans[i].start..spans[i].end]
  }

  predicate Covers(s: Span, pos: nat) { s.start <= pos < s.end }

  /** The first span that covers `pos`. */
  function FindSpan(spans: seq<Span>, pos: nat): (r: Option<Span>)
    ensures r.Some? ==> r.value in spans && Covers(r.value, pos)
    ensures r.None? ==> forall i :: 0 <= i < |spans| ==> !Covers(spans[i], pos)
  {
    if spans == [] then None else if Covers(spans[0], pos) then Some(spans[0]) else FindSpan(spans[1..], pos)
  }

  /** A span, and the part of the range it supplies. */
  datatype Link = Link(span: Span, from: nat, to: nat)

  ghost predicate Covered(spans: seq<Span>, pos: nat) {
    exists i :: 0 <= i < |spans| && spans[i].start <= pos < spans[i].end
  }

  /** A span with bytes of the range that did not arrive. */
  ghost predicate Missing(spans: seq<Span>, start: nat, end: nat) {
    exists i :: 0 <= i < |spans| && spans[i].data.None? && spans[i].start < end && start < spans[i].end
  }

  /** Link `k` is part of its span and starts where the one before it ends. */
  ghost predicate LinkOk(chain: seq<Link>, spans: seq<Span>, start: nat, k: nat)
    requires k < |chain|
  {
    && chain[k].span in spans && chain[k].span.start <= chain[k].from < chain[k].to <= chain[k].span.end
    && chain[k].from == (if k == 0 then start else chain[k - 1].to)
  }

  /** The links run from `start` to `pos` without gaps. */
  ghost predicate ChainTo(chain: seq<Link>, spans: seq<Span>, start: nat, pos: nat) {
    && (forall k :: 0 <= k < |chain| ==> LinkOk(chain, spans, start, k))
    && pos == (if chain == [] then start else chain[|chain| - 1].to)
  }

  lemma ChainGrows(chain: seq<Link>, spans: seq<Span>, start: nat, pos: nat, l: Link)
    requires ChainTo(chain, spans, start, pos) && l.from == pos
    requires l.span in spans && l.span.start <= l.from < l.to <= l.span.end
    ensures ChainTo(chain + [l], spans, start, l.to)
  {
    var now := chain + [l];
    forall k | 0 <= k < |now| ensures LinkOk(now, spans, start, k) {
      if k < |chain| { assert LinkOk(chain, spans, start, k); }
    }
  }

  /** Every link ends before the chain does. */
  lemma {:induction false} LinkBefore(chain: seq<Link>, spans: seq<Span>, start: nat, end: nat, k: nat)
    requires ChainTo(chain, spans, start, end) && k < |chain|
    ensures chain[k].to <= end
    decreases |chain| - k
  {
    if k + 1 < |chain| {
      assert LinkOk(chain, spans, start, k + 1);
      LinkBefore(chain, spans, start, end, k + 1);
    }
  }

  /** Which spans supply which parts; `None` if a byte is in no span. */
  method CoverChain(spans: seq<Span>, start: nat, end: nat) returns (r: Option<seq<Link>>)
    requires start < end
    ensures r.None? ==> exists p :: start <= p < end && !Covered(spans, p)
    ensures r.Some? ==> ChainTo(r.value, spans, start, end)
  {
    hide ChainTo;
    var chain: seq<Link> := [];
    assert ChainTo(chain, spans, start, start) by { NoChain(spans, start); }
    var pos := start;
    while pos < end
      invariant start <= pos <= end && ChainTo(chain, spans, start, pos)
      decreases end - pos
    {
      var s := FindSpan(spans, pos);
      if s.None? {
        assert !Covered(spans, pos);
        return None;
      }
      var to := Min(s.value.end, end);
      ChainGrows(chain, spans, start, pos, Link(s.value, pos, to));
      chain := chain + [Link(s.value, pos, to)];
      pos := to;
    }
    return Some(chain);
  }

  lemma NoChain(spans: seq<Span>, start: nat)
    ensures ChainTo([], spans, start, start)
  {
  }

  /** `buffered`: the range put together from prefetched spans. Whatever it returns is the file's bytes;
      it returns nothing only if a byte is in no span or a span it needs failed. */
  method Buffered(spans: seq<Span>, start: nat, end: nat, ghost file: bytes) returns (r: Option<bytes>)
    requires Genuine(spans, file)
    ensures r.Some? ==> start < end <= |file| && r.value == file[start..end]
    ensures r.None? ==>
              start >= end || Missing(spans, start, end) || exists p :: start <= p < end && !Covered(spans, p)
  {
    if start >= end || spans == [] {
      assert spans == [] ==> !Covered(spans, start);
      return None;
    }
    var chain := CoverChain(spans, start, end);
    if chain.None? { return None; }
    var out: bytes := [];
    var k := 0;
    while k < |chain.value|
      invariant 0 <= k <= |chain.value|
      invariant var pos := if k == 0 then start else chain.value[k - 1].to;
                && start <= pos
                && (k > 0 ==> pos <= |file| && out == file[start..pos]) && (k == 0 ==> out == [])
    {
      var l := chain.value[k];
      assert LinkOk(chain.value, spans, start, k);
      if l.span.data.None? {
        LinkBefore(chain.value, spans, start, end, k);
        assert Missing(spans, start, end);
        return None;
      }
      var data := l.span.data.value;
      LinkBytes(spans, file, l);
      if l.to - l.span.start > |data| { return None; }
      out := out + data[l.from - l.span.start..l.to - l.span.start];
      k := k + 1;
    }
    return Some(out);
  }

  lemma LinkBytes(spans: seq<Span>, file: bytes, l: Link)
    requires Genuine(spans, file) && l.span in spans && l.span.data.Some?
    requires l.span.start <= l.from <= l.to <= l.span.end
    ensures l.to <= |file| && l.to - l.span.start <= |l.span.data.value|
    ensures l.span.data.value[l.from - l.span.start..l.to - l.span.start] == file[l.from..l.to]
  {
    var i :| 0 <= i < |spans| && spans[i] == l.span;
    SubSlice(file, l.span.start, l.span.end, l.from - l.span.start, l.to - l.span.start);
  }

  // ---- The local header with the data ----

  /** `Remote::get`: a range past the end is refused, an empty one needs no request. */
  function Get(file: bytes, from: nat, to: nat): Result<bytes> {
    if to > |file| then Err(Unsupported) else if from >= to then Ok([]) else Ok(file[from..to])
  }

  /** The simple form: the data range from the header in the file. */
  function DataRange(file: bytes, e: Entry): Result<(nat, nat)> {
    if e.offset >= |file| then Err(Corrupt)
    else
      var data := LocalDataRange(file[e.offset..], e);
      if data.Err? then data else if data.value.1 > |file| then Err(Corrupt) else data
  }

  /** The sums of `fetch_with_header` fit 64 bits. */
  predicate GuessFits(e: Entry, to: nat) {
    e.offset + LOCAL_HEADER_LEN + e.nameLen + LOCAL_EXTRA_GUESS + to < Pow256(8)
  }

  lemma GuessIs(e: Entry, to: nat)
    ensures GuessFits(e, to) <==> e.offset + 30 + e.nameLen + 256 + to < 0x1_0000_0000_0000_0000
  {
    Widths();
  }

  /** Cuts bytes that start at `at` down to the wanted range, fetching what the guess missed: `again` says whether
      it missed any. */
  method Trim(file: bytes, guess: bytes, at: nat, from: nat, to: nat) returns (r: Result<bytes>, again: bool)
    requires at + |guess| <= |file| && guess == file[at..at + |guess|] && from <= to <= |file|
    ensures r == Ok(file[from..to]) && (again <==> from < at || to > at + |guess|)
  {
    var buf, start := guess, at;
    var bufEnd := at + |guess|;
    again := false;
    if from < at || from > bufEnd {
      var got := Get(file, from, to);
      if got.Err? { return Err(Error.Io), true; }
      buf, start, again := got.value, from, true;
    } else if to > bufEnd {
      var got := Get(file, bufEnd, to);
      if got.Err? { return Err(Error.Io), true; }
      buf, again := buf + got.value, true;
    }
    if to - start < |buf| { buf := buf[..to - start]; }
    assert buf == file[start..to];
    return Ok(buf[from - start..]), again;
  }

  /** `fetch_with_header`: the data range and exactly the wanted bytes of the data, whatever the local
      header's name and extra lengths are. One more request (`again`) is needed only if the local name and extra
      field are not as the guess has them. */
  method FetchWithHeader(file: bytes, e: Entry, from: nat, to: nat)
    returns (r: Result<((nat, nat), bytes)>, again: bool)
    requires from <= to
    ensures r.Ok? <==> DataRange(file, e).Ok? && e.offset + 30 + e.nameLen + 256 + to < 0x1_0000_0000_0000_0000
                       && to <= DataRange(file, e).value.1 - DataRange(file, e).value.0
    ensures r.Err? ==> !again
    ensures r.Ok? ==>
              var data := DataRange(file, e).value;
              && r.value.0 == data && data.0 + to <= |file|
              && r.value.1 == file[data.0 + from..data.0 + to]
              && (e.offset + 30 + e.nameLen <= data.0 <= e.offset + 30 + e.nameLen + 256 ==> !again)
              && (from <= 0x10_0000 ==> (again <==> data.0 > e.offset + 30 + e.nameLen + 256))
  {
    hide FromLE, Pow256, LocalDataRange, GuessFits;
    GuessIs(e, to);
    if e.offset >= |file| { return Err(Corrupt), false; }
    if !GuessFits(e, to) { return Err(Corrupt), false; }
    var minData := e.offset + LOCAL_HEADER_LEN + e.nameLen;
    var maxData := minData + LOCAL_EXTRA_GUESS;
    var guessEnd := Min(maxData + to, |file|);
    var headerEnd := if from <= HEADER_JOIN then guessEnd else Min(maxData, |file|);
    var bodyStart := if from <= HEADER_JOIN then e.offset else Min(minData + from, guessEnd);
    HeaderRead(file, e, headerEnd);
    var header := Get(file, e.offset, headerEnd);
    var body := Get(file, bodyStart, guessEnd);
    if header.Err? || body.Err? { return Err(Error.Io), false; }
    var data := LocalDataRange(header.value, e);
    if data.Err? { return Err(data.error), false; }
    if data.value.1 > |file| { return Err(Corrupt), false; }
    RangeOrder(header.value, e);
    if to > data.value.1 - data.value.0 { return Err(Corrupt), false; }
    var got, missed := Trim(file, body.value, bodyStart, data.value.0 + from, data.value.0 + to);
    if got.Err? { return Err(Error.Io), missed; }
    return Ok((data.value, got.value)), missed;
  }

  lemma RangeOrder(header: bytes, e: Entry)
    ensures LocalDataRange(header, e).Ok? ==>
              e.offset + 30 <= LocalDataRange(header, e).value.0 <= LocalDataRange(header, e).value.1
  {
  }

  /** The bytes fetched for the header show the same data range as the file. */
  lemma HeaderRead(file: bytes, e: Entry, to: nat)
    requires e.offset < |file| && to <= |file| && (to == |file| || to >= e.offset + LOCAL_HEADER_LEN)
    ensures Get(file, e.offset, to).Ok?
    ensures LocalDataRange(Get(file, e.offset, to).value, e) == LocalDataRange(file[e.offset..], e)
  {
    hide At;
    if to < |file| {
      assert file[e.offset..to] <= file[e.offset..];
      HeaderPrefix(file[e.offset..to], file[e.offset..], e);
    } else {
      assert file[e.offset..to] == file[e.offset..];
    }
  }
}
