/** Lists of byte ranges that merge when they touch. */
module Ranges {

  datatype Range = Range(start: nat, end: nat)

  ghost predicate InRanges(out: seq<Range>, k: nat) {
    exists i :: 0 <= i < |out| && out[i].start <= k < out[i].end
  }

  /** Not empty, in order, and with gaps between them. */
  ghost predicate Merged(out: seq<Range>) {
    && (forall i :: 0 <= i < |out| ==> out[i].start < out[i].end)
    && (forall i, j :: 0 <= i < j < |out| ==> out[i].end < out[j].start)
  }

  /** Appends `r`, merging it with the last range when they touch. */
  function PushRange(out: seq<Range>, r: Range): seq<Range> {
    if out != [] && out[|out| - 1].end == r.start
    then out[..|out| - 1] + [out[|out| - 1].(end := r.end)]
    else out + [r]
  }

  ghost predicate EndsBy(out: seq<Range>, k: nat) {
    forall i :: 0 <= i < |out| ==> out[i].end <= k
  }

  lemma PushMerged(out: seq<Range>, r: Range)
    requires Merged(out) && EndsBy(out, r.start) && r.start < r.end
    ensures Merged(PushRange(out, r)) && EndsBy(PushRange(out, r), r.end)
  {
  }

  lemma PushPoints(out: seq<Range>, r: Range, k: nat)
    requires Merged(out) && EndsBy(out, r.start) && r.start < r.end
    ensures InRanges(PushRange(out, r), k) <==> InRanges(out, k) || r.start <= k < r.end
  {
    var now := PushRange(out, r);
    var n := |out|;
    if InRanges(out, k) {
      var i :| 0 <= i < n && out[i].start <= k < out[i].end;
      assert now[i].start <= k < now[i].end;
    }
    if r.start <= k < r.end {
      assert now[|now| - 1].start <= k < now[|now| - 1].end;
    }
    if InRanges(now, k) {
      var i :| 0 <= i < |now| && now[i].start <= k < now[i].end;
      if i < n && (i < n - 1 || |now| > n) { assert out[i].start <= k < out[i].end; }
      else if |now| == n && k < r.start { assert out[i].start <= k < out[i].end; }
    }
  }

  /** A merged list is determined by the points it covers. */
  lemma {:induction false} MergedUnique(a: seq<Range>, b: seq<Range>)
    requires Merged(a) && Merged(b) && forall k :: InRanges(a, k) <==> InRanges(b, k)
    ensures a == b
    decreases |a|
  {
    if a == [] {
      if b != [] { HasPoint(b); }
    } else {
      HasPoint(a);
      assert b != [];
      HasPoint(b);
      FirstSame(a, b);
      forall k ensures InRanges(a[1..], k) <==> InRanges(b[1..], k) {
        TailPoints(a, k);
        TailPoints(b, k);
      }
      MergedUnique(a[1..], b[1..]);
      assert a == [a[0]] + a[1..] && b == [b[0]] + b[1..];
    }
  }

  lemma HasPoint(a: seq<Range>)
    requires Merged(a) && a != []
    ensures InRanges(a, a[0].start)
  {
  }

  lemma NotAtEnd(a: seq<Range>)
    requires Merged(a) && a != []
    ensures !InRanges(a, a[0].end)
  {
  }

  lemma TailPoints(a: seq<Range>, k: nat)
    requires Merged(a) && a != []
    ensures InRanges(a[1..], k) <==> InRanges(a, k) && k >= a[0].end
  {
    if InRanges(a, k) && k >= a[0].end {
      var i :| 0 <= i < |a| && a[i].start <= k < a[i].end;
      assert a[1..][i - 1] == a[i];
    }
    if InRanges(a[1..], k) {
      var i :| 0 <= i < |a[1..]| && a[1..][i].start <= k < a[1..][i].end;
      assert a[i + 1] == a[1..][i];
    }
  }

  lemma FirstSame(a: seq<Range>, b: seq<Range>)
    requires Merged(a) && Merged(b) && a != [] && b != [] && forall k :: InRanges(a, k) <==> InRanges(b, k)
    ensures a[0] == b[0]
  {
    StartLeast(a, b);
    StartLeast(b, a);
    EndLeast(a, b);
    EndLeast(b, a);
  }

  lemma StartLeast(a: seq<Range>, b: seq<Range>)
    requires Merged(a) && Merged(b) && a != [] && b != [] && forall k :: InRanges(a, k) <==> InRanges(b, k)
    ensures b[0].start <= a[0].start
  {
    HasPoint(a);
    var i :| 0 <= i < |b| && b[i].start <= a[0].start < b[i].end;
  }

  lemma EndLeast(a: seq<Range>, b: seq<Range>)
    requires Merged(a) && Merged(b) && a != [] && b != [] && forall k :: InRanges(a, k) <==> InRanges(b, k)
    requires a[0].start == b[0].start
    ensures b[0].end <= a[0].end
  {
    NotAtEnd(a);
    assert InRanges(b, a[0].end) || b[0].end <= a[0].end;
  }
}
