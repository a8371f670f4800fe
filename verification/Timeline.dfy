/** The editor's track: regions moved and resized, laid out on a timeline, and selections resolved to source ranges. */
module Timeline {
  import opened Wrappers
  import opened Sorting

  const RANGE_EDGE_PADDING_MS: int := 100
  const MIN_RANGE_DELETE_MS: int := 100
  const CLIP_LAYOUT_GAP_MS: int := 60

  type Id = string

  datatype Region = Region(id: Id, startMs: int, endMs: int, orderIndex: int)

  datatype Operation =
    | ResizeTrackRegion(regionId: Id, startMs: int, endMs: int)
    | MoveTrackRegion(regionId: Id, targetIndex: int)
    | OtherOperation

  // ----- the track after a list of operations -----

  function OrderIndex(): Region -> int { (r: Region) => r.orderIndex }

  function IndexOf(track: seq<Region>, id: Id): (r: Option<nat>)
    ensures r.Some? ==> r.value < |track| && track[r.value].id == id && forall k :: 0 <= k < r.value ==> track[k].id != id
    ensures r.None? ==> forall k :: 0 <= k < |track| ==> track[k].id != id
  {
    if |track| == 0 then None
    else if track[0].id == id then Some(0)
    else match IndexOf(track[1..], id) case None => None case Some(k) => Some(k + 1)
  }

  /** Where a splice at this index puts an element: negative indices count from the end. */
  function SpliceAt(index: int, length: nat): nat {
    if index < 0 then (if length + index < 0 then 0 else length + index) else if index > length then length else index
  }

  function Without(track: seq<Region>, i: nat): seq<Region>
    requires i < |track|
  {
    track[..i] + track[i + 1..]
  }

  function Reindexed(track: seq<Region>): (r: seq<Region>)
    ensures |r| == |track|
  {
    seq(|track|, i requires 0 <= i < |track| => track[i].(orderIndex := i))
  }

  function MoveTo(track: seq<Region>, i: nat, targetIndex: int): seq<Region>
    requires i < |track|
  {
    var target := if targetIndex <= |track| - 1 then targetIndex else |track| - 1;
    var rest := Without(track, i);
    var k := SpliceAt(target, |rest|);
    Reindexed(rest[..k] + [track[i]] + rest[k..])
  }

  function ApplyOperation(track: seq<Region>, op: Operation): seq<Region> {
    match op
    case ResizeTrackRegion(id, startMs, endMs) =>
      (match IndexOf(track, id)
       case None => track
       case Some(i) => track[i := track[i].(startMs := startMs, endMs := endMs)])
    case MoveTrackRegion(id, targetIndex) =>
      (match IndexOf(track, id)
       case None => track
       case Some(i) => MoveTo(track, i, targetIndex))
    case OtherOperation => track
  }

  function ApplyAll(track: seq<Region>, ops: seq<Operation>): seq<Region> {
    if |ops| == 0 then track else ApplyOperation(ApplyAll(track, ops[..|ops| - 1]), ops[|ops| - 1])
  }

  function TrackRegions(regions: seq<Region>, ops: seq<Operation>): seq<Region> { ApplyAll(SortBy(regions, OrderIndex()), ops) }

  /** The track as it is computed: one pass over the operations, rewriting the list in place. */
  method ResolveTrackRegions(regions: seq<Region>, ops: seq<Operation>) returns (track: seq<Region>)
    ensures track == TrackRegions(regions, ops)
  {
    track := SortBy(regions, OrderIndex());
    var n := 0;
    while n < |ops|
      invariant 0 <= n <= |ops|
      invariant track == ApplyAll(SortBy(regions, OrderIndex()), ops[..n])
    {
      assert ops[..n + 1][..n] == ops[..n];
      match ops[n] {
        case ResizeTrackRegion(id, startMs, endMs) =>
          var found := IndexOf(track, id);
          if found.Some? {
            track := track[found.value := track[found.value].(startMs := startMs, endMs := endMs)];
          }
        case MoveTrackRegion(id, targetIndex) =>
          var found := IndexOf(track, id);
          if found.Some? {
            var moved := track[found.value];
            var target := if targetIndex <= |track| - 1 then targetIndex else |track| - 1;
            track := Without(track, found.value);
            var k := SpliceAt(target, |track|);
            track := Reindexed(track[..k] + [moved] + track[k..]);
          }
        case OtherOperation =>
      }
      n := n + 1;
    }
    assert ops[..n] == ops;
  }

  // ----- nothing is lost or duplicated -----

  function Ids(track: seq<Region>): (ids: seq<Id>)
    ensures |ids| == |track|
  {
    seq(|track|, i requires 0 <= i < |track| => track[i].id)
  }

  lemma PutIn<T>(s: seq<T>, k: nat, x: T)
    requires k <= |s|
    ensures multiset(s[..k] + [x] + s[k..]) == multiset(s) + multiset{x}
  {
    assert s == s[..k] + s[k..];
  }

  lemma TakenOut<T>(s: seq<T>, i: nat)
    requires i < |s|
    ensures multiset(s) == multiset(s[..i] + s[i + 1..]) + multiset{s[i]}
  {
    assert s == s[..i] + [s[i]] + s[i + 1..];
  }

  lemma WithoutIds(track: seq<Region>, i: nat)
    requires i < |track|
    ensures Ids(Without(track, i)) == Ids(track)[..i] + Ids(track)[i + 1..]
  {
  }

  lemma MovedIds(track: seq<Region>, i: nat, targetIndex: int)
    requires i < |track|
    ensures multiset(Ids(MoveTo(track, i, targetIndex))) == multiset(Ids(track))
  {
    var target := if targetIndex <= |track| - 1 then targetIndex else |track| - 1;
    var rest := Without(track, i);
    var k := SpliceAt(target, |rest|);
    assert Ids(MoveTo(track, i, targetIndex)) == Ids(rest)[..k] + [track[i].id] + Ids(rest)[k..];
    PutIn(Ids(rest), k, track[i].id);
    WithoutIds(track, i);
    TakenOut(Ids(track), i);
  }

  lemma OperationKeepsIds(track: seq<Region>, op: Operation)
    ensures multiset(Ids(ApplyOperation(track, op))) == multiset(Ids(track))
  {
    match op
    case ResizeTrackRegion(id, startMs, endMs) => assert Ids(ApplyOperation(track, op)) == Ids(track);
    case MoveTrackRegion(id, targetIndex) => if IndexOf(track, id).Some? { MovedIds(track, IndexOf(track, id).value, targetIndex); }
    case OtherOperation =>
  }

  lemma {:induction false} OperationsKeepIds(track: seq<Region>, ops: seq<Operation>)
    ensures multiset(Ids(ApplyAll(track, ops))) == multiset(Ids(track))
  {
    if |ops| > 0 {
      OperationsKeepIds(track, ops[..|ops| - 1]);
      OperationKeepsIds(ApplyAll(track, ops[..|ops| - 1]), ops[|ops| - 1]);
    }
  }

  lemma {:induction false} InsertIds(rows: seq<Region>, row: Region)
    ensures multiset(Ids(Insert(rows, row, OrderIndex()))) == multiset(Ids(rows)) + multiset{row.id}
  {
    var n := |rows| - 1;
    if |rows| == 0 || rows[n].orderIndex <= row.orderIndex {
      assert Ids(rows + [row]) == Ids(rows) + [row.id];
    } else {
      InsertIds(rows[..n], row);
      assert Ids(Insert(rows, row, OrderIndex())) == Ids(Insert(rows[..n], row, OrderIndex())) + [rows[n].id];
      assert Ids(rows) == Ids(rows[..n]) + [rows[n].id];
    }
  }

  lemma {:induction false} SortIds(rows: seq<Region>)
    ensures multiset(Ids(SortBy(rows, OrderIndex()))) == multiset(Ids(rows))
  {
    if |rows| > 0 {
      var n := |rows| - 1;
      SortIds(rows[..n]);
      InsertIds(SortBy(rows[..n], OrderIndex()), rows[n]);
      assert Ids(rows) == Ids(rows[..n]) + [rows[n].id];
    }
  }

  /** After any operations the track is a permutation of its regions. */
  lemma TrackIsPermutation(regions: seq<Region>, ops: seq<Operation>)
    ensures multiset(Ids(TrackRegions(regions, ops))) == multiset(Ids(regions))
  {
    SortIds(regions);
    OperationsKeepIds(SortBy(regions, OrderIndex()), ops);
  }

  /**
   * A move lands at its target, and keeps the order of all the others: targets beyond the track
   * land at its end, negative ones count back from the last place and stop at the first.
   */
  lemma MoveLands(track: seq<Region>, i: nat, targetIndex: int)
    requires i < |track|
    ensures var after := MoveTo(track, i, targetIndex);
      var last := |track| - 1;
      var k := if targetIndex > last then last else if targetIndex >= 0 then targetIndex else if last + targetIndex >= 0 then last + targetIndex else 0;
      && |after| == |track| && after[k] == track[i].(orderIndex := k)
      && Ids(Without(after, k)) == Ids(Without(track, i))
      && forall n :: 0 <= n < |after| ==> after[n].orderIndex == n
  {
  }

  // ----- operations change ranges only as the last resize says -----

  /** The source range a region ends up with. */
  function RangeAfter(ops: seq<Operation>, id: Id, startMs: int, endMs: int): (int, int) {
    if |ops| == 0 then (startMs, endMs)
    else
      var last := ops[|ops| - 1];
      if last.ResizeTrackRegion? && last.regionId == id then (last.startMs, last.endMs)
      else RangeAfter(ops[..|ops| - 1], id, startMs, endMs)
  }

  ghost predicate DistinctIds(track: seq<Region>) {
    forall i, j :: 0 <= i < j < |track| ==> track[i].id != track[j].id
  }

  /** The region is on the track with this range. */
  ghost predicate Holds(track: seq<Region>, id: Id, startMs: int, endMs: int) {
    exists k :: 0 <= k < |track| && track[k].id == id && track[k].startMs == startMs && track[k].endMs == endMs
  }

  lemma MoveKeepsDistinct(track: seq<Region>, i: nat, targetIndex: int)
    requires i < |track| && DistinctIds(track)
    ensures DistinctIds(MoveTo(track, i, targetIndex))
  {
  }

  lemma MoveKeepsRange(track: seq<Region>, i: nat, targetIndex: int, k: nat)
    requires i < |track| && k < |track|
    ensures Holds(MoveTo(track, i, targetIndex), track[k].id, track[k].startMs, track[k].endMs)
  {
    var after := MoveTo(track, i, targetIndex);
    var target := if targetIndex <= |track| - 1 then targetIndex else |track| - 1;
    var s := SpliceAt(target, |track| - 1);
    var at := if k == i then s else (var r := if k < i then k else k - 1; if r < s then r else r + 1);
    assert after[at] == track[k].(orderIndex := at);
  }

  lemma OperationKeepsDistinct(track: seq<Region>, op: Operation)
    requires DistinctIds(track)
    ensures DistinctIds(ApplyOperation(track, op))
  {
    if op.MoveTrackRegion? && IndexOf(track, op.regionId).Some? {
      MoveKeepsDistinct(track, IndexOf(track, op.regionId).value, op.targetIndex);
    }
  }

  lemma OperationRange(track: seq<Region>, op: Operation, id: Id, startMs: int, endMs: int)
    requires DistinctIds(track) && Holds(track, id, startMs, endMs)
    ensures var (s, e) := if op.ResizeTrackRegion? && op.regionId == id then (op.startMs, op.endMs) else (startMs, endMs);
      Holds(ApplyOperation(track, op), id, s, e)
  {
    var k :| 0 <= k < |track| && track[k].id == id && track[k].startMs == startMs && track[k].endMs == endMs;
    var after := ApplyOperation(track, op);
    match op
    case ResizeTrackRegion(other, s, e) => assert after[k].id == id;
    case MoveTrackRegion(other, targetIndex) =>
      if IndexOf(track, other).Some? { MoveKeepsRange(track, IndexOf(track, other).value, targetIndex, k); }
    case OtherOperation =>
  }

  lemma {:induction false} OperationsRange(track: seq<Region>, ops: seq<Operation>, id: Id, startMs: int, endMs: int)
    requires DistinctIds(track) && Holds(track, id, startMs, endMs)
    ensures DistinctIds(ApplyAll(track, ops))
    ensures Holds(ApplyAll(track, ops), id, RangeAfter(ops, id, startMs, endMs).0, RangeAfter(ops, id, startMs, endMs).1)
  {
    if |ops| > 0 {
      var before := ops[..|ops| - 1];
      OperationsRange(track, before, id, startMs, endMs);
      OperationKeepsDistinct(ApplyAll(track, before), ops[|ops| - 1]);
      OperationRange(ApplyAll(track, before), ops[|ops| - 1], id, RangeAfter(before, id, startMs, endMs).0, RangeAfter(before, id, startMs, endMs).1);
    }
  }

  /** Moves never touch a range: each region ends with its last resize, or the range it had. */
  lemma LastResizeWins(regions: seq<Region>, ops: seq<Operation>, k: nat)
    requires DistinctIds(regions) && k < |regions|
    ensures var (s, e) := RangeAfter(ops, regions[k].id, regions[k].startMs, regions[k].endMs);
      Holds(TrackRegions(regions, ops), regions[k].id, s, e)
  {
    var sorted := SortBy(regions, OrderIndex());
    SortPermutes(regions, OrderIndex());
    SortedDistinct(regions);
    assert regions[k] in multiset(sorted);
    var j :| 0 <= j < |sorted| && sorted[j] == regions[k];
    OperationsRange(sorted, ops, regions[k].id, regions[k].startMs, regions[k].endMs);
  }

  lemma SortedDistinct(regions: seq<Region>)
    requires DistinctIds(regions)
    ensures DistinctIds(SortBy(regions, OrderIndex()))
  {
    var sorted := SortBy(regions, OrderIndex());
    SortIds(regions);
    forall i, j | 0 <= i < j < |sorted| ensures sorted[i].id != sorted[j].id {
      OnceEach(Ids(regions), Ids(sorted)[i]);
      if sorted[i].id == sorted[j].id { TwiceAt(Ids(sorted), i, j); }
    }
  }

  lemma {:induction false} OnceEach(ids: seq<Id>, id: Id)
    requires forall i, j :: 0 <= i < j < |ids| ==> ids[i] != ids[j]
    ensures multiset(ids)[id] <= 1
  {
    if |ids| > 0 {
      var n := |ids| - 1;
      assert ids == ids[..n] + [ids[n]];
      OnceEach(ids[..n], id);
    }
  }

  lemma TwiceAt(ids: seq<Id>, i: nat, j: nat)
    requires i < j < |ids| && ids[i] == ids[j]
    ensures multiset(ids)[ids[i]] >= 2
  {
    assert ids == ids[..i] + [ids[i]] + ids[i + 1..j] + [ids[j]] + ids[j + 1..];
  }

  // ----- the layout -----

  datatype LayoutRange = LayoutRange(regionId: Id, startMs: int, endMs: int)

  function LayoutDuration(r: Region): int { if r.endMs - r.startMs > 100 then r.endMs - r.startMs else 100 }

  /** Regions one after another from a cursor, a gap between any two. */
  function LayoutFrom(track: seq<Region>, cursorMs: int): seq<LayoutRange> {
    if |track| == 0 then []
    else
      var endMs := cursorMs + LayoutDuration(track[0]);
      [LayoutRange(track[0].id, cursorMs, endMs)] + LayoutFrom(track[1..], endMs + CLIP_LAYOUT_GAP_MS)
  }

  function LayoutRanges(regions: seq<Region>, ops: seq<Operation>): seq<LayoutRange> { LayoutFrom(TrackRegions(regions, ops), 0) }

  method BuildRegionLayoutRanges(regions: seq<Region>, ops: seq<Operation>) returns (ranges: seq<LayoutRange>)
    ensures ranges == LayoutRanges(regions, ops)
  {
    var track := ResolveTrackRegions(regions, ops);
    var cursorMs := 0;
    ranges := [];
    var n := 0;
    while n < |track|
      invariant 0 <= n <= |track|
      invariant ranges + LayoutFrom(track[n..], cursorMs) == LayoutFrom(track, 0)
    {
      var endMs := cursorMs + LayoutDuration(track[n]);
      var range := LayoutRange(track[n].id, cursorMs, endMs);
      assert track[n..][1..] == track[n + 1..];
      assert ranges + ([range] + LayoutFrom(track[n + 1..], endMs + CLIP_LAYOUT_GAP_MS))
          == (ranges + [range]) + LayoutFrom(track[n + 1..], endMs + CLIP_LAYOUT_GAP_MS);
      ranges := ranges + [range];
      cursorMs := endMs + CLIP_LAYOUT_GAP_MS;
      n := n + 1;
    }
  }

  ghost predicate LaidOut(ranges: seq<LayoutRange>, fromMs: int) {
    && (forall i :: 0 <= i < |ranges| ==> ranges[i].startMs >= fromMs && ranges[i].endMs - ranges[i].startMs >= 100)
    && (forall i, j :: 0 <= i < j < |ranges| ==> ranges[i].endMs + CLIP_LAYOUT_GAP_MS <= ranges[j].startMs)
  }

  lemma {:induction false} LayoutIsLaidOut(track: seq<Region>, cursorMs: int)
    ensures |LayoutFrom(track, cursorMs)| == |track| && LaidOut(LayoutFrom(track, cursorMs), cursorMs)
    ensures forall i :: 0 <= i < |track| ==>
      LayoutFrom(track, cursorMs)[i].regionId == track[i].id
      && LayoutFrom(track, cursorMs)[i].endMs - LayoutFrom(track, cursorMs)[i].startMs == LayoutDuration(track[i])
  {
    if |track| > 0 {
      LayoutIsLaidOut(track[1..], cursorMs + LayoutDuration(track[0]) + CLIP_LAYOUT_GAP_MS);
    }
  }

  /** A region takes its own length, but at least 100 ms. */
  ghost function LengthOnTimeline(r: Region): int {
    var length := r.endMs - r.startMs;
    if length < 100 then 100 else length
  }

  /** One after another, 60 ms apart. */
  lemma {:induction false} LayoutFollows(track: seq<Region>, cursorMs: int, i: nat)
    requires i < |track|
    ensures |LayoutFrom(track, cursorMs)| == |track|
    ensures LayoutFrom(track, cursorMs)[i].startMs == if i == 0 then cursorMs else LayoutFrom(track, cursorMs)[i - 1].endMs + 60
  {
    LayoutIsLaidOut(track, cursorMs);
    if i > 0 {
      LayoutFollows(track[1..], cursorMs + LayoutDuration(track[0]) + CLIP_LAYOUT_GAP_MS, i - 1);
    }
  }

  predicate Covers(range: LayoutRange, layoutMs: real) { range.startMs as real <= layoutMs < range.endMs as real }

  function FindIn(ranges: seq<LayoutRange>, layoutMs: real): Option<LayoutRange> {
    if |ranges| == 0 then None else if Covers(ranges[0], layoutMs) then Some(ranges[0]) else FindIn(ranges[1..], layoutMs)
  }

  function FindRegionAtLayoutMs(regions: seq<Region>, ops: seq<Operation>, layoutMs: real): Option<LayoutRange> {
    FindIn(LayoutRanges(regions, ops), layoutMs)
  }

  lemma {:induction false} FoundIsOnly(ranges: seq<LayoutRange>, fromMs: int, layoutMs: real, k: nat)
    requires LaidOut(ranges, fromMs) && k < |ranges|
    ensures FindIn(ranges, layoutMs) == Some(ranges[k]) <==> Covers(ranges[k], layoutMs)
  {
    if k > 0 {
      if Covers(ranges[0], layoutMs) {
        assert ranges[0].endMs + CLIP_LAYOUT_GAP_MS <= ranges[k].startMs;
      } else {
        FoundIsOnly(ranges[1..], fromMs, layoutMs, k - 1);
      }
    } else if !Covers(ranges[0], layoutMs) {
      NotFoundTwice(ranges[1..], layoutMs, ranges[0]);
    }
  }

  lemma {:induction false} NotFoundTwice(ranges: seq<LayoutRange>, layoutMs: real, range: LayoutRange)
    requires !Covers(range, layoutMs)
    ensures FindIn(ranges, layoutMs) != Some(range)
  {
    if |ranges| > 0 { NotFoundTwice(ranges[1..], layoutMs, range); }
  }

  /**
   * Layout intervals follow one another from zero, 60 ms apart and one per region of the track, as
   * long as the region but at least 100 ms; so a position is found in a region exactly when it lies
   * in that region's interval.
   */
  lemma LayoutIsDisjoint(regions: seq<Region>, ops: seq<Operation>, layoutMs: real, i: nat)
    requires i < |TrackRegions(regions, ops)|
    ensures var ranges := LayoutRanges(regions, ops);
      && |ranges| == |TrackRegions(regions, ops)|
      && ranges[i].regionId == TrackRegions(regions, ops)[i].id
      && ranges[i].endMs - ranges[i].startMs == LengthOnTimeline(TrackRegions(regions, ops)[i])
      && ranges[i].startMs == (if i == 0 then 0 else ranges[i - 1].endMs + 60)
      && (forall j :: i < j < |ranges| ==> ranges[i].endMs + 60 <= ranges[j].startMs)
      && (FindRegionAtLayoutMs(regions, ops, layoutMs) == Some(ranges[i]) <==> ranges[i].startMs as real <= layoutMs < ranges[i].endMs as real)
  {
    var track := TrackRegions(regions, ops);
    LayoutIsLaidOut(track, 0);
    LayoutFollows(track, 0, i);
    FoundIsOnly(LayoutFrom(track, 0), 0, layoutMs, i);
  }
}
