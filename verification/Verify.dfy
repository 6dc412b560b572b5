/** The consistency check: it reports no problem exactly if the store is in order. */
module Verify {
  import opened Base
  import opened Manifest
  import opened Ledger
  import opened Segments
  import opened Codec

  datatype Problem =
    | SlotCount(f: FileId, seg: nat) | UnexpectedSegment(f: FileId, seg: nat) | SegmentTotal(f: FileId)
    | Refcount(id: nat) | DedupWrong(id: nat) | BadRecord(id: nat)
    | DedupEntry(hash: Hash) | LiveBytes(pack: nat) | FileMissing(pack: nat) | NotRegistered(pack: nat)

  type Key = (FileId, nat)

  // ---- Manifests ----

  /** The order in which a table of segments is walked: file by file, segments ascending. */
  ghost predicate Listing(segs: SegmentRows, keys: seq<Key>) {
    && (forall i :: 0 <= i < |keys| ==> keys[i] in segs)
    && (forall k :: k in segs ==> exists i :: 0 <= i < |keys| && keys[i] == k)
    && (forall i, j :: 0 <= i < j < |keys| && keys[i].0 == keys[j].0 ==> keys[i].1 < keys[j].1)
    && (forall i, j, k :: 0 <= i < j < k < |keys| && keys[i].0 == keys[k].0 ==> keys[j].0 == keys[i].0)
  }

  /** Segment 0 carries the file's length; the others do not. */
  ghost predicate Typed(segs: SegmentRows) {
    forall k :: k in segs ==> (segs[k].len.Some? <==> k.1 == 0)
  }

  predicate SlotsRight(segs: SegmentRows, bs: nat, k: Key)
    requires bs > 0 && k in segs
  {
    |segs[k].ids| == SlotsInSegment(BlockCount(FileLen(segs, k.0), bs), k.1)
  }

  predicate LastSegment(segs: SegmentRows, bs: nat, k: Key)
    requires bs > 0
  {
    k.1 + 1 == SegmentCount(BlockCount(FileLen(segs, k.0), bs))
  }

  /** Entry `j` of the walk is where it belongs and of the right size. */
  ghost predicate EntryOk(segs: SegmentRows, bs: nat, keys: seq<Key>, j: nat)
    requires bs > 0 && j < |keys| && forall i :: 0 <= i < |keys| ==> keys[i] in segs
  {
    && SlotsRight(segs, bs, keys[j])
    && if keys[j].1 == 0 then j > 0 ==> LastSegment(segs, bs, keys[j - 1])
       else j > 0 && keys[j - 1] == (keys[j].0, keys[j].1 - 1)
  }

  ghost predicate WalkOk(segs: SegmentRows, bs: nat, keys: seq<Key>)
    requires bs > 0 && forall i :: 0 <= i < |keys| ==> keys[i] in segs
  {
    && (forall j :: 0 <= j < |keys| ==> EntryOk(segs, bs, keys, j))
    && (keys != [] ==> LastSegment(segs, bs, keys[|keys| - 1]))
  }

  /** Slots holding `id` in the segments listed. */
  ghost function RefCount(segs: SegmentRows, keys: seq<Key>, id: nat): nat
    requires forall i :: 0 <= i < |keys| ==> keys[i] in segs
  {
    if keys == [] then 0
    else RefCount(segs, keys[..|keys| - 1], id) + Count(segs[keys[|keys| - 1]].ids, id)
  }

  function RefsOf(refs: map<nat, nat>, id: nat): nat { if id in refs then refs[id] else 0 }

  method CountIds(ids: seq<nat>, refs0: map<nat, nat>) returns (refs: map<nat, nat>)
    ensures forall id :: id != MISSING ==> RefsOf(refs, id) == RefsOf(refs0, id) + Count(ids, id)
    ensures RefsOf(refs, MISSING) == RefsOf(refs0, MISSING)
  {
    refs := refs0;
    var i := 0;
    while i < |ids|
      invariant 0 <= i <= |ids|
      invariant forall id :: id != MISSING ==> RefsOf(refs, id) == RefsOf(refs0, id) + Count(ids[..i], id)
      invariant RefsOf(refs, MISSING) == RefsOf(refs0, MISSING)
    {
      if ids[i] != MISSING { refs := refs[ids[i] := RefsOf(refs, ids[i]) + 1]; }
      assert ids[..i + 1] == ids[..i] + [ids[i]];
      i := i + 1;
    }
    assert ids[..i] == ids;
  }

  /** The file being checked: its id, its block count, and the next segment expected. */
  datatype Cursor = Cursor(f: FileId, blocks: nat, next: nat)

  function FinishFile(current: Option<Cursor>): seq<Problem> {
    if current.Some? && current.value.next != SegmentCount(current.value.blocks)
    then [SegmentTotal(current.value.f)] else []
  }

  ghost predicate Consistent(segs: SegmentRows, bs: nat, current: Option<Cursor>)
    requires bs > 0
  {
    current.Some? ==> current.value.blocks == BlockCount(FileLen(segs, current.value.f), bs)
  }

  /** One entry of the walk; `counted` tells whether its ids are counted. */
  method Visit(segs: SegmentRows, bs: nat, k: Key, was: Option<Cursor>)
    returns (current: Option<Cursor>, problems: seq<Problem>, counted: bool)
    requires bs > 0 && k in segs && Consistent(segs, bs, was)
    ensures Consistent(segs, bs, current)
    ensures problems == [] <==>
              && SlotsRight(segs, bs, k)
              && if k.1 == 0 then FinishFile(was) == []
                 else was.Some? && was.value.f == k.0 && was.value.next == k.1
    ensures problems == [] ==>
              counted && current.Some? && current.value.f == k.0 && current.value.next == k.1 + 1
  {
    current, problems, counted := was, [], false;
    if k.1 == 0 {
      problems := FinishFile(was);
      current := Some(Cursor(k.0, BlockCount(FileLen(segs, k.0), bs), 0));
    }
    if current.Some? && current.value.f == k.0 && current.value.next == k.1 {
      counted := true;
      if |segs[k].ids| != SlotsInSegment(current.value.blocks, k.1) { problems := problems + [SlotCount(k.0, k.1)]; }
      current := Some(current.value.(next := k.1 + 1));
    } else {
      problems := problems + [UnexpectedSegment(k.0, k.1)];
    }
  }

  /** The cursor stands after entry `i - 1`. */
  ghost predicate CursorAt(keys: seq<Key>, i: nat, current: Option<Cursor>)
    requires i <= |keys|
  {
    if i == 0 then current.None?
    else current.Some? && current.value.f == keys[i - 1].0 && current.value.next == keys[i - 1].1 + 1
  }

  lemma FinishIs(segs: SegmentRows, bs: nat, keys: seq<Key>, i: nat, current: Option<Cursor>)
    requires bs > 0 && i <= |keys| && Consistent(segs, bs, current) && CursorAt(keys, i, current)
    ensures FinishFile(current) == [] <==> i == 0 || LastSegment(segs, bs, keys[i - 1])
  {
  }

  ghost predicate EntriesOk(segs: SegmentRows, bs: nat, keys: seq<Key>, i: nat)
    requires bs > 0 && i <= |keys| && forall j :: 0 <= j < |keys| ==> keys[j] in segs
  {
    forall j :: 0 <= j < i ==> EntryOk(segs, bs, keys, j)
  }

  lemma EntryStep(segs: SegmentRows, bs: nat, keys: seq<Key>, i: nat, was: Option<Cursor>)
    requires bs > 0 && i < |keys| && forall j :: 0 <= j < |keys| ==> keys[j] in segs
    requires Consistent(segs, bs, was)
    ensures !EntriesOk(segs, bs, keys, i) ==> !EntriesOk(segs, bs, keys, i + 1)
    ensures EntriesOk(segs, bs, keys, i) && CursorAt(keys, i, was) ==>
              (EntriesOk(segs, bs, keys, i + 1) <==>
               && SlotsRight(segs, bs, keys[i])
               && if keys[i].1 == 0 then FinishFile(was) == []
                  else was.Some? && was.value.f == keys[i].0 && was.value.next == keys[i].1)
  {
    hide SlotsRight, LastSegment, Consistent, FinishFile;
    if CursorAt(keys, i, was) { FinishIs(segs, bs, keys, i, was); }
    assert EntriesOk(segs, bs, keys, i + 1) <==> EntriesOk(segs, bs, keys, i) && EntryOk(segs, bs, keys, i);
  }

  /** The walk over the manifests. */
  method VerifySegments(segs: SegmentRows, bs: nat, keys: seq<Key>)
    returns (problems: seq<Problem>, refs: map<nat, nat>)
    requires bs > 0 && forall j :: 0 <= j < |keys| ==> keys[j] in segs
    ensures problems == [] <==> WalkOk(segs, bs, keys)
    ensures problems == [] ==> forall id :: id != MISSING ==> RefsOf(refs, id) == RefCount(segs, keys, id)
    ensures RefsOf(refs, MISSING) == 0
  {
    hide SlotsRight, LastSegment, EntriesOk, Consistent, FinishFile, EntryOk;
    problems, refs := [], map[];
    var current: Option<Cursor> := None;
    assert EntriesOk(segs, bs, keys, 0) && Consistent(segs, bs, current) by { WalkStart(segs, bs, keys); }
    var i := 0;
    while i < |keys|
      invariant 0 <= i <= |keys| && Consistent(segs, bs, current) && RefsOf(refs, MISSING) == 0
      invariant problems == [] <==> EntriesOk(segs, bs, keys, i)
      invariant problems == [] ==> CursorAt(keys, i, current)
      invariant problems == [] ==>
                  forall id :: id != MISSING ==> RefsOf(refs, id) == RefCount(segs, keys[..i], id)
    {
      EntryStep(segs, bs, keys, i, current);
      var now, found, counted := Visit(segs, bs, keys[i], current);
      problems, current := problems + found, now;
      if counted { refs := CountIds(segs[keys[i]].ids, refs); }
      assert keys[..i + 1][..i] == keys[..i];
      i := i + 1;
    }
    assert keys[..i] == keys;
    if problems == [] { FinishIs(segs, bs, keys, i, current); }
    problems := problems + FinishFile(current);
    WalkEnd(segs, bs, keys);
  }

  lemma WalkStart(segs: SegmentRows, bs: nat, keys: seq<Key>)
    requires bs > 0 && forall j :: 0 <= j < |keys| ==> keys[j] in segs
    ensures EntriesOk(segs, bs, keys, 0) && Consistent(segs, bs, None)
  {
  }

  lemma WalkEnd(segs: SegmentRows, bs: nat, keys: seq<Key>)
    requires bs > 0 && forall j :: 0 <= j < |keys| ==> keys[j] in segs
    ensures WalkOk(segs, bs, keys)
            <==> EntriesOk(segs, bs, keys, |keys|) && (keys == [] || LastSegment(segs, bs, keys[|keys| - 1]))
  {
  }

  // ---- A clean walk means whole manifests ----

  lemma {:induction false} EarlierSegments(segs: SegmentRows, bs: nat, keys: seq<Key>, j: nat, s: nat)
    requires bs > 0 && Listing(segs, keys) && EntriesOk(segs, bs, keys, |keys|) && j < |keys| && s <= keys[j].1
    ensures (keys[j].0, s) in segs
    decreases j
  {
    hide SlotsRight, LastSegment;
    assert EntryOk(segs, bs, keys, j);
    if s < keys[j].1 { EarlierSegments(segs, bs, keys, j - 1, s); }
    else { assert keys[j] == (keys[j].0, s); }
  }

  /** The last index of a file. */
  lemma LastOf(keys: seq<Key>, j: nat) returns (k: nat)
    requires j < |keys|
    ensures j <= k < |keys| && keys[k].0 == keys[j].0
    ensures forall i :: k < i < |keys| ==> keys[i].0 != keys[j].0
  {
    k := |keys| - 1;
    while keys[k].0 != keys[j].0
      invariant j <= k < |keys| && forall i :: k < i < |keys| ==> keys[i].0 != keys[j].0
      decreases k
    {
      k := k - 1;
    }
  }

  lemma LastIsComplete(segs: SegmentRows, bs: nat, keys: seq<Key>, k: nat)
    requires bs > 0 && Listing(segs, keys) && WalkOk(segs, bs, keys) && k < |keys|
    requires forall i :: k < i < |keys| ==> keys[i].0 != keys[k].0
    ensures LastSegment(segs, bs, keys[k])
  {
    hide SlotsRight, LastSegment;
    if k + 1 < |keys| { assert EntryOk(segs, bs, keys, k + 1); }
  }

  lemma WalkedSegment(segs: SegmentRows, bs: nat, keys: seq<Key>, k: nat, s: nat)
    requires bs > 0 && Listing(segs, keys) && Typed(segs) && EntriesOk(segs, bs, keys, |keys|) && k < |keys|
    requires forall i :: k < i < |keys| ==> keys[i].0 != keys[k].0
    ensures (keys[k].0, s) in segs <==> s <= keys[k].1
    ensures (keys[k].0, s) in segs ==>
              SlotsRight(segs, bs, (keys[k].0, s)) && (segs[(keys[k].0, s)].len.Some? <==> s == 0)
  {
    hide SlotsRight, LastSegment;
    var f := keys[k].0;
    if (f, s) in segs {
      var i :| 0 <= i < |keys| && keys[i] == (f, s);
      assert EntryOk(segs, bs, keys, i);
    }
    if s <= keys[k].1 { EarlierSegments(segs, bs, keys, k, s); }
  }

  lemma WalkedFileOk(segs: SegmentRows, bs: nat, keys: seq<Key>, j: nat)
    requires bs > 0 && Listing(segs, keys) && Typed(segs) && WalkOk(segs, bs, keys) && j < |keys|
    ensures FileOk(segs, bs, keys[j].0)
  {
    hide SegmentCount, SlotsInSegment, BlockCount, FileLen, Listing, Typed, WalkOk, EntriesOk;
    var k := LastOf(keys, j);
    assert forall i :: 0 <= i < |keys| ==> keys[i] in segs by { ListingIn(segs, keys); }
    LastIsComplete(segs, bs, keys, k);
    WalkEnd(segs, bs, keys);
    forall s: nat
      ensures (keys[k].0, s) in segs <==> s <= keys[k].1
      ensures (keys[k].0, s) in segs ==>
                SlotsRight(segs, bs, (keys[k].0, s)) && (segs[(keys[k].0, s)].len.Some? <==> s == 0)
    {
      WalkedSegment(segs, bs, keys, k, s);
    }
  }

  lemma Neighbours(segs: SegmentRows, keys: seq<Key>, i: nat, j: nat)
    requires Listing(segs, keys) && i < |keys| && j < |keys|
    requires keys[i].0 == keys[j].0 && keys[i].1 + 1 == keys[j].1
    ensures i == j - 1
  {
    assert i < j;
    if i < j - 1 { Within(segs, keys, i, j - 1, j); }
  }

  lemma Within(segs: SegmentRows, keys: seq<Key>, i: nat, m: nat, j: nat)
    requires Listing(segs, keys) && i < m < j < |keys| && keys[i].0 == keys[j].0
    ensures keys[m].0 == keys[i].0 && keys[i].1 < keys[m].1 < keys[j].1
  {
  }

  lemma KeyOk(segs: SegmentRows, bs: nat, f: FileId, s: nat)
    requires SegsOk(segs, bs) && (f, s) in segs
    ensures bs > 0 && FileOk(segs, bs, f)
  {
    hide FileOk;
  }

  /** A segment of the file lies somewhere in the listing. */
  lemma KeyAt(segs: SegmentRows, keys: seq<Key>, k: Key) returns (i: nat)
    requires Listing(segs, keys) && k in segs
    ensures i < |keys| && keys[i] == k
  {
    i :| 0 <= i < |keys| && keys[i] == k;
  }

  /** The file's segments in the rows, and the sizes of their slots. */
  lemma SegmentsOf(segs: SegmentRows, bs: nat, f: FileId, s: nat)
    requires SegsOk(segs, bs) && (f, s) in segs
    ensures bs > 0 && SlotsRight(segs, bs, (f, s)) && forall t: nat :: t <= s ==> (f, t) in segs
    ensures var n := SegmentCount(BlockCount(FileLen(segs, f), bs)); s < n && (f, n - 1) in segs
  {
    hide SegmentCount, SlotsInSegment, BlockCount, FileLen;
    KeyOk(segs, bs, f, s);
  }

  lemma OkFileEntry(segs: SegmentRows, bs: nat, keys: seq<Key>, j: nat)
    requires SegsOk(segs, bs) && Listing(segs, keys) && j < |keys|
    ensures EntryOk(segs, bs, keys, j)
  {
    hide Listing, LastSegment, SegsOk, SlotsRight;
    ListedKeys(segs, keys);
    var (f, s) := keys[j];
    SegmentsOf(segs, bs, f, s);
    if s == 0 {
      if j > 0 { OkFileLast(segs, bs, keys, j - 1); }
    } else {
      var i := KeyAt(segs, keys, (f, s - 1));
      Neighbours(segs, keys, i, j);
    }
  }

  lemma ListedKeys(segs: SegmentRows, keys: seq<Key>)
    requires Listing(segs, keys)
    ensures forall i :: 0 <= i < |keys| ==> keys[i] in segs
  {
  }

  /** Where one file ends in the walk, its last segment stands. */
  lemma OkFileLast(segs: SegmentRows, bs: nat, keys: seq<Key>, j: nat)
    requires SegsOk(segs, bs) && Listing(segs, keys) && j < |keys|
    requires j + 1 < |keys| ==> keys[j + 1].1 == 0
    ensures LastSegment(segs, bs, keys[j])
  {
    hide Listing, SegsOk, SlotsRight, SegmentCount, BlockCount, FileLen;
    ListedKeys(segs, keys);
    var (g, s) := keys[j];
    SegmentsOf(segs, bs, g, s);
    var last := SegmentCount(BlockCount(FileLen(segs, g), bs)) - 1;
    var i := KeyAt(segs, keys, (g, last));
    LaterSegment(segs, keys, j, i);
  }

  /** A later segment of a file starts right behind the one before it. */
  lemma LaterSegment(segs: SegmentRows, keys: seq<Key>, j: nat, i: nat)
    requires Listing(segs, keys) && i < |keys| && j < |keys| && keys[i].0 == keys[j].0 && keys[j].1 <= keys[i].1
    requires j + 1 < |keys| ==> keys[j + 1].1 == 0
    ensures i == j
  {
    hide Listing;
    if i < j { Ordered(segs, keys, i, j); } else if j < i { Ordered(segs, keys, j, i); }
  }

  lemma Ordered(segs: SegmentRows, keys: seq<Key>, i: nat, j: nat)
    requires Listing(segs, keys) && i < j < |keys| && keys[i].0 == keys[j].0
    ensures keys[i].1 < keys[j].1 && keys[i].1 < keys[i + 1].1
  {
    hide Listing;
    Ascending(segs, keys, i, j);
    if i + 1 < j { Within(segs, keys, i, i + 1, j); }
  }

  lemma Ascending(segs: SegmentRows, keys: seq<Key>, i: nat, j: nat)
    requires Listing(segs, keys) && i < j < |keys| && keys[i].0 == keys[j].0
    ensures keys[i].1 < keys[j].1
  {
  }

  /** The walk finds no problem exactly if every file has exactly the segments its length asks for. */
  lemma WalkExact(segs: SegmentRows, bs: nat, keys: seq<Key>)
    requires bs > 0 && Listing(segs, keys) && Typed(segs)
    ensures WalkOk(segs, bs, keys) <==> SegsOk(segs, bs)
  {
    hide FileOk, EntryOk, LastSegment;
    if WalkOk(segs, bs, keys) {
      forall f, s | (f, s) in segs ensures FileOk(segs, bs, f) {
        var j :| 0 <= j < |keys| && keys[j] == (f, s);
        WalkedFileOk(segs, bs, keys, j);
      }
    }
    if SegsOk(segs, bs) {
      forall j | 0 <= j < |keys| ensures EntryOk(segs, bs, keys, j) { OkFileEntry(segs, bs, keys, j); }
      if keys != [] { OkFileLast(segs, bs, keys, |keys| - 1); }
    }
  }

  // ---- Counted references are manifest references ----

  lemma {:induction false} SameSize<A, B>(a: set<A>, b: set<B>, g: A -> B)
    requires forall x :: x in a ==> g(x) in b
    requires forall x, y :: x in a && y in a && g(x) == g(y) ==> x == y
    requires forall z :: z in b ==> exists x :: x in a && g(x) == z
    ensures |a| == |b|
    decreases a
  {
    if a == {} {
      assert b == {};
    } else {
      var x :| x in a;
      forall z | z in b - {g(x)} ensures exists y :: y in a - {x} && g(y) == z {
        var y :| y in a && g(y) == z;
        assert y in a - {x};
      }
      SameSize(a - {x}, b - {g(x)}, g);
    }
  }

  ghost function KeyRefs(segs: SegmentRows, keys: seq<Key>, id: nat): set<(Key, nat)> {
    set j, x | 0 <= j < |keys| && keys[j] in segs && 0 <= x < |segs[keys[j]].ids| && segs[keys[j]].ids[x] == id
      :: (keys[j], x)
  }

  lemma OneKey(k: Key, ids: seq<nat>, id: nat)
    ensures |set x | 0 <= x < |ids| && ids[x] == id :: (k, x)| == Count(ids, id)
  {
    var a, b := SlotSet(ids, id), set x | 0 <= x < |ids| && ids[x] == id :: (k, x);
    var g := (x: nat) => (k, x);
    SlotSetCount(ids, id);
    forall z | z in b ensures exists x :: x in a && g(x) == z {
      assert z.1 in a && g(z.1) == z;
    }
    SameSize(a, b, g);
  }

  lemma {:induction false} RefCountSet(segs: SegmentRows, keys: seq<Key>, id: nat)
    requires forall i :: 0 <= i < |keys| ==> keys[i] in segs
    requires forall i, j :: 0 <= i < j < |keys| ==> keys[i] != keys[j]
    ensures RefCount(segs, keys, id) == |KeyRefs(segs, keys, id)|
    decreases |keys|
  {
    if keys == [] {
      assert KeyRefs(segs, keys, id) == {};
    } else {
      var n := |keys| - 1;
      var ids := segs[keys[n]].ids;
      RefCountSet(segs, keys[..n], id);
      OneKey(keys[n], ids, id);
      var mine := set x | 0 <= x < |ids| && ids[x] == id :: (keys[n], x);
      LastKeyRefs(segs, keys, id, mine);
    }
  }

  lemma LastKeyRefs(segs: SegmentRows, keys: seq<Key>, id: nat, mine: set<(Key, nat)>)
    requires keys != [] && forall i :: 0 <= i < |keys| ==> keys[i] in segs
    requires forall i, j :: 0 <= i < j < |keys| ==> keys[i] != keys[j]
    requires var ids := segs[keys[|keys| - 1]].ids;
             mine == set x | 0 <= x < |ids| && ids[x] == id :: (keys[|keys| - 1], x)
    ensures |KeyRefs(segs, keys, id)| == |KeyRefs(segs, keys[..|keys| - 1], id)| + |mine|
  {
    var n := |keys| - 1;
    var before := KeyRefs(segs, keys[..n], id);
    assert before !! mine;
    forall q | q in KeyRefs(segs, keys, id) ensures q in before + mine {
      var j, x :| 0 <= j < |keys| && 0 <= x < |segs[keys[j]].ids| && segs[keys[j]].ids[x] == id && q == (keys[j], x);
      if j < n { assert keys[..n][j] == keys[j]; }
    }
    forall q | q in before ensures q in KeyRefs(segs, keys, id) {
      var j, x :| 0 <= j < n && 0 <= x < |segs[keys[..n][j]].ids| && segs[keys[..n][j]].ids[x] == id
                  && q == (keys[..n][j], x);
      assert keys[j] == keys[..n][j];
    }
    assert KeyRefs(segs, keys, id) == before + mine;
  }

  /** The place of a slot in its file. */
  function SlotPlaceOf(q: (Key, nat)): (FileId, nat) { (q.0.0, q.0.1 * 4096 + q.1) }

  lemma FewSlots(segs: SegmentRows, bs: nat, k: Key)
    requires SegsOk(segs, bs) && k in segs
    ensures |segs[k].ids| <= 4096 && (k.0, 0) in segs
    ensures forall x :: 0 <= x < |segs[k].ids| ==>
              k.1 * 4096 + x < BlockCount(FileLen(segs, k.0), bs) && SlotAt(segs, k.0, k.1 * 4096 + x) == segs[k].ids[x]
  {
    hide BlockCount, FileLen;
    var (f, s) := k;
    assert (f, s) in segs && FileOk(segs, bs, f);
    forall x | 0 <= x < |segs[k].ids| ensures SlotAt(segs, f, s * 4096 + x) == segs[k].ids[x] {
      assert (s * 4096 + x) / 4096 == s && (s * 4096 + x) % 4096 == x;
    }
  }

  /** The references counted by the walk are those of the manifests. */
  lemma RefCountIs(segs: SegmentRows, bs: nat, keys: seq<Key>, id: nat)
    requires bs > 0 && SegsOk(segs, bs) && Listing(segs, keys)
    ensures RefCount(segs, keys, id) == |Refs(Flat(segs, bs), id)|
  {
    hide SegsOk, FileLen, BlockCount;
    assert forall i, j :: 0 <= i < j < |keys| ==> keys[i] != keys[j];
    RefCountSet(segs, keys, id);
    var a, b := KeyRefs(segs, keys, id), Refs(Flat(segs, bs), id);
    SlotsToRefs(segs, bs, keys, id, a, b);
    RefsToSlots(segs, bs, keys, id, a, b);
    SameSize(a, b, SlotPlaceOf);
  }

  lemma SlotsToRefs(segs: SegmentRows, bs: nat, keys: seq<Key>, id: nat, a: set<(Key, nat)>, b: set<(FileId, nat)>)
    requires bs > 0 && SegsOk(segs, bs) && Listing(segs, keys)
    requires a == KeyRefs(segs, keys, id) && b == Refs(Flat(segs, bs), id)
    ensures forall q :: q in a ==> SlotPlaceOf(q) in b && q.1 < 4096
    ensures forall q, r :: q in a && r in a && SlotPlaceOf(q) == SlotPlaceOf(r) ==> q == r
  {
    hide SegsOk, FileLen, BlockCount, SlotAt, Listing;
    forall q | q in a ensures SlotPlaceOf(q) in b && q.1 < 4096 {
      FewSlots(segs, bs, q.0);
      FlatHas(segs, bs, q.0.0);
    }
  }

  lemma RefsToSlots(segs: SegmentRows, bs: nat, keys: seq<Key>, id: nat, a: set<(Key, nat)>, b: set<(FileId, nat)>)
    requires bs > 0 && SegsOk(segs, bs) && Listing(segs, keys)
    requires a == KeyRefs(segs, keys, id) && b == Refs(Flat(segs, bs), id)
    ensures forall z :: z in b ==> exists q :: q in a && SlotPlaceOf(q) == z
  {
    hide SegsOk, Flat, Listing, KeyRefs;
    forall z | z in b ensures exists q :: q in a && SlotPlaceOf(q) == z {
      RefToSlot(segs, bs, keys, id, z.0, z.1);
      assert SlotPlaceOf(((z.0, z.1 / 4096), z.1 % 4096)) == z;
    }
  }

  lemma RefToSlot(segs: SegmentRows, bs: nat, keys: seq<Key>, id: nat, f: FileId, i: nat)
    requires bs > 0 && SegsOk(segs, bs) && Listing(segs, keys)
    requires f in Flat(segs, bs) && i < |Flat(segs, bs)[f].slots| && Flat(segs, bs)[f].slots[i] == id
    ensures ((f, i / 4096), i % 4096) in KeyRefs(segs, keys, id)
  {
    hide SegsOk, FileLen, BlockCount, FileOk, Flat;
    FlatHas(segs, bs, f);
    FileThere(segs, bs, f);
    BlockInSegs(segs, bs, f, i);
    assert SlotAt(segs, f, i) == id;
    var j :| 0 <= j < |keys| && keys[j] == (f, i / 4096);
  }

  // ---- Blocks, dedup rows and packs ----

  /** The record of a block reads back and decodes. */
  predicate RecordReads(env: Env, files: map<nat, bytes>, loc: BlockLoc) {
    loc.pack in files && ReadRecord(env, files[loc.pack], loc).Ok?
  }

  predicate BlockOk(env: Env, db: Db, files: map<nat, bytes>, refs: map<nat, nat>, id: nat)
    requires id in db.blocks
  {
    && RefsOf(refs, id) == db.blocks[id].refcount
    && db.blocks[id].hash in db.dedup && db.dedup[db.blocks[id].hash] == id
    && RecordReads(env, files, db.blocks[id])
  }

  /** The walk over the blocks, which also sums each pack's bytes. */
  method VerifyBlocks(env: Env, db: Db, files: map<nat, bytes>, refs: map<nat, nat>, top: nat)
    returns (problems: seq<Problem>, live: map<nat, nat>)
    requires forall id :: id in db.blocks ==> id < top
    ensures problems == [] <==> forall id :: id in db.blocks ==> BlockOk(env, db, files, refs, id)
    ensures forall p :: RefsOf(live, p) == LiveBelow(db.blocks, p, top)
    ensures forall p :: p in live <==> exists id :: id in db.blocks && db.blocks[id].pack == p
  {
    hide RecordReads;
    problems, live := [], map[];
    var id := 0;
    while id < top
      invariant 0 <= id <= top
      invariant problems == [] <==> forall j :: j in db.blocks && j < id ==> BlockOk(env, db, files, refs, j)
      invariant forall p :: RefsOf(live, p) == LiveBelow(db.blocks, p, id)
      invariant forall p :: p in live <==> exists j :: j in db.blocks && j < id && db.blocks[j].pack == p
    {
      if id in db.blocks {
        var loc := db.blocks[id];
        if RefsOf(refs, id) != loc.refcount { problems := problems + [Refcount(id)]; }
        if loc.hash !in db.dedup || db.dedup[loc.hash] != id { problems := problems + [DedupWrong(id)]; }
        live := live[loc.pack := RefsOf(live, loc.pack) + loc.RecordLen()];
        if !RecordReads(env, files, loc) { problems := problems + [BadRecord(id)]; }
      }
      id := id + 1;
    }
  }

  method VerifyDedup(db: Db) returns (problems: seq<Problem>)
    ensures problems == [] <==>
            forall h :: h in db.dedup ==> db.dedup[h] in db.blocks && db.blocks[db.dedup[h]].hash == h
  {
    problems := [];
    var todo := db.dedup.Keys;
    while todo != {}
      invariant todo <= db.dedup.Keys
      invariant problems == [] <==> forall h :: h in db.dedup && h !in todo ==>
                  db.dedup[h] in db.blocks && db.blocks[db.dedup[h]].hash == h
      decreases |todo|
    {
      var h :| h in todo;
      if db.dedup[h] !in db.blocks || db.blocks[db.dedup[h]].hash != h { problems := problems + [DedupEntry(h)]; }
      todo := todo - {h};
    }
  }

  predicate PackOk(db: Db, files: map<nat, bytes>, live: map<nat, nat>, p: nat)
    requires p in db.packs
  {
    db.packs[p].state != Retired ==> db.packs[p].live == RefsOf(live, p) && p in files
  }

  method VerifyPacks(db: Db, files: map<nat, bytes>, live: map<nat, nat>) returns (problems: seq<Problem>)
    ensures problems == [] <==>
              && (forall p :: p in db.packs ==> PackOk(db, files, live, p))
              && (forall p :: p in live ==> Accepts(db, p))
  {
    problems := [];
    var left, todo := live.Keys, db.packs.Keys;
    while todo != {}
      invariant todo <= db.packs.Keys
      invariant problems == [] <==> forall p :: p in db.packs && p !in todo ==> PackOk(db, files, live, p)
      invariant forall p :: p in left <==> p in live && (p in todo || !Accepts(db, p))
      decreases |todo|
    {
      var p :| p in todo;
      todo := todo - {p};
      if db.packs[p].state != Retired {
        left := left - {p};
        if db.packs[p].live != RefsOf(live, p) { problems := problems + [LiveBytes(p)]; }
        if p !in files { problems := problems + [FileMissing(p)]; }
      }
    }
    while left != {}
      invariant left <= live.Keys && forall p :: p in left ==> !Accepts(db, p)
      invariant problems == [] <==>
                  && (forall p :: p in db.packs ==> PackOk(db, files, live, p))
                  && (forall p :: p in live && p !in left ==> Accepts(db, p))
      decreases |left|
    {
      var p :| p in left;
      left := left - {p};
      problems := problems + [NotRegistered(p)];
    }
  }

  // ---- The whole check ----

  /** The slots that refer to block `id`; the slot value of a missing block refers to none. */
  ghost function References(files: map<FileId, FileRow>, id: nat): nat {
    if id == MISSING then 0 else |Refs(files, id)|
  }

  /** A store in order, as a reader of its tables and files would say it. Ids of healed blocks may
      still stand in manifests. */
  ghost predicate InOrder(env: Env, segs: SegmentRows, db: Db, files: map<nat, bytes>, top: nat)
    requires env.bs > 0
  {
    && SegsOk(segs, env.bs)
    && (forall id :: id in db.blocks ==> db.blocks[id].refcount == References(Flat(segs, env.bs), id))
    && Inverse(db)
    && (forall id :: id in db.blocks ==> RecordReads(env, files, db.blocks[id]) && Accepts(db, db.blocks[id].pack))
    && (forall p :: p in db.packs && db.packs[p].state != Retired ==>
          db.packs[p].live == LiveBelow(db.blocks, p, top) && p in files)
  }

  /** `verify`: no problem is reported exactly if the store is in order. */
  method VerifyStore(env: Env, segs: SegmentRows, keys: seq<Key>, db: Db, files: map<nat, bytes>, top: nat)
    returns (problems: seq<Problem>)
    requires env.bs > 0 && Listing(segs, keys) && Typed(segs)
    requires forall id :: id in db.blocks ==> id < top
    ensures problems == [] <==> InOrder(env, segs, db, files, top)
  {
    hide Listing, Typed, WalkOk, BlockOk, PackOk, InOrder, Accepts;
    assert forall i :: 0 <= i < |keys| ==> keys[i] in segs by { ListingIn(segs, keys); }
    var a, refs := VerifySegments(segs, env.bs, keys);
    var b, live := VerifyBlocks(env, db, files, refs, top);
    var c := VerifyDedup(db);
    var d := VerifyPacks(db, files, live);
    problems := a + b + c + d;
    WalkExact(segs, env.bs, keys);
    if a == [] { Together(env, segs, keys, db, files, top, refs, live); }
    else { NotWalked(env, segs, db, files, top); }
  }

  lemma ListingIn(segs: SegmentRows, keys: seq<Key>)
    requires Listing(segs, keys)
    ensures forall i :: 0 <= i < |keys| ==> keys[i] in segs
  {
  }

  lemma NotWalked(env: Env, segs: SegmentRows, db: Db, files: map<nat, bytes>, top: nat)
    requires env.bs > 0 && !SegsOk(segs, env.bs)
    ensures !InOrder(env, segs, db, files, top)
  {
  }

  lemma Together(env: Env, segs: SegmentRows, keys: seq<Key>, db: Db, files: map<nat, bytes>, top: nat,
                 refs: map<nat, nat>, live: map<nat, nat>)
    requires env.bs > 0 && Listing(segs, keys) && SegsOk(segs, env.bs)
    requires forall id :: id in db.blocks ==> id < top
    requires RefsOf(refs, MISSING) == 0 && forall id :: id != MISSING ==> RefsOf(refs, id) == RefCount(segs, keys, id)
    requires forall p :: RefsOf(live, p) == LiveBelow(db.blocks, p, top)
    requires forall p :: p in live <==> exists id :: id in db.blocks && db.blocks[id].pack == p
    ensures InOrder(env, segs, db, files, top) <==>
              && (forall id :: id in db.blocks ==> BlockOk(env, db, files, refs, id))
              && (forall h :: h in db.dedup ==> db.dedup[h] in db.blocks && db.blocks[db.dedup[h]].hash == h)
              && (forall p :: p in db.packs ==> PackOk(db, files, live, p))
              && (forall p :: p in live ==> Accepts(db, p))
  {
    hide SegsOk, RecordReads, RefCount, Flat, Refs, LiveBelow, Accepts, BlockOk, PackOk, RefsOf, Listing;
    forall id | id in db.blocks
      ensures BlockOk(env, db, files, refs, id) <==>
                && db.blocks[id].refcount == References(Flat(segs, env.bs), id)
                && db.blocks[id].hash in db.dedup && db.dedup[db.blocks[id].hash] == id
                && RecordReads(env, files, db.blocks[id])
    {
      RefCountIs(segs, env.bs, keys, id);
      BlockOkIs(env, db, files, refs, id);
    }
    forall p | p in db.packs
      ensures PackOk(db, files, live, p) <==>
              (db.packs[p].state != Retired ==> db.packs[p].live == LiveBelow(db.blocks, p, top) && p in files)
    {
      PackOkIs(db, files, live, p);
    }
    assert (forall p :: p in live ==> Accepts(db, p))
           <==> (forall id :: id in db.blocks ==> Accepts(db, db.blocks[id].pack));
  }

  lemma BlockOkIs(env: Env, db: Db, files: map<nat, bytes>, refs: map<nat, nat>, id: nat)
    requires id in db.blocks
    ensures BlockOk(env, db, files, refs, id) <==>
              && RefsOf(refs, id) == db.blocks[id].refcount
              && db.blocks[id].hash in db.dedup && db.dedup[db.blocks[id].hash] == id
              && RecordReads(env, files, db.blocks[id])
  {
    hide RecordReads;
  }

  lemma PackOkIs(db: Db, files: map<nat, bytes>, live: map<nat, nat>, p: nat)
    requires p in db.packs
    ensures PackOk(db, files, live, p) <==>
            (db.packs[p].state != Retired ==> db.packs[p].live == RefsOf(live, p) && p in files)
  {
  }

  /** A store that keeps its invariant and has its records in place passes. */
  lemma InvariantPasses(env: Env, segs: SegmentRows, db: Db, files: map<nat, bytes>)
    requires SegsOk(segs, env.bs) && db.files == Flat(segs, env.bs) && Inv(db, env) && NoneRetired(db)
    requires forall id :: id in db.blocks ==> RecordReads(env, files, db.blocks[id])
    ensures InOrder(env, segs, db, files, db.nextBlock)
            <==> forall p :: p in db.packs && db.packs[p].state != Retired ==> p in files
  {
    hide SegsOk, RecordReads, Flat, Refs, LiveBelow, Lengths;
  }
}
