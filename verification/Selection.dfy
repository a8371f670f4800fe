/** Timeline selections resolved to source ranges of a region. */
module Selection {
  import opened Wrappers
  import opened Timeline

  datatype Refusal = TooShortOrOutside | RangeTooShort | TooCloseToEdge | NoLayout

  datatype Resolution = FullRegion | Range(startMs: int, endMs: int) | Refused(why: Refusal)

  /** Rounding to the nearest integer, halves up. */
  function Round(x: real): int { (x + 0.5).Floor }

  function Min(a: real, b: real): real { if a <= b then a else b }

  function Max(a: real, b: real): real { if a <= b then b else a }

  function SourceAt(region: Region, layoutStartMs: int, layoutEndMs: int, layoutMs: real): real
    requires layoutStartMs != layoutEndMs
  {
    var ratio := (layoutMs - layoutStartMs as real) / (layoutEndMs - layoutStartMs) as real;
    region.startMs as real + ratio * (region.endMs - region.startMs) as real
  }

  function LayoutMsToSourceMs(region: Region, layoutStartMs: int, layoutEndMs: int, layoutMs: real): int
    requires layoutStartMs != layoutEndMs
  {
    Round(SourceAt(region, layoutStartMs, layoutEndMs, layoutMs))
  }

  predicate CoversRegion(region: Region, startMs: int, endMs: int) {
    startMs <= region.startMs + RANGE_EDGE_PADDING_MS && endMs >= region.endMs - RANGE_EDGE_PADDING_MS
  }

  function ResolveSourceRange(region: Region, layoutStartMs: int, layoutEndMs: int, selectionStart: real, selectionEnd: real): Resolution {
    var from := Max(Min(selectionStart, selectionEnd), layoutStartMs as real);
    var to := Min(Max(selectionStart, selectionEnd), layoutEndMs as real);
    if to - from < MIN_RANGE_DELETE_MS as real then Refused(TooShortOrOutside)
    else
      var startMs := LayoutMsToSourceMs(region, layoutStartMs, layoutEndMs, from);
      var endMs := LayoutMsToSourceMs(region, layoutStartMs, layoutEndMs, to);
      if endMs - startMs < MIN_RANGE_DELETE_MS then Refused(RangeTooShort)
      else if CoversRegion(region, startMs, endMs) then FullRegion
      else Range(startMs, endMs)
  }

  /** The delete tool's resolution, with its further edge checks. */
  function ResolveDeleteRange(region: Region, layoutStartMs: int, layoutEndMs: int, selectionStart: real, selectionEnd: real): Resolution {
    var from := Max(Min(selectionStart, selectionEnd), layoutStartMs as real);
    var to := Min(Max(selectionStart, selectionEnd), layoutEndMs as real);
    if to - from < MIN_RANGE_DELETE_MS as real then Refused(TooShortOrOutside)
    else
      var startMs := LayoutMsToSourceMs(region, layoutStartMs, layoutEndMs, from);
      var endMs := LayoutMsToSourceMs(region, layoutStartMs, layoutEndMs, to);
      if endMs - startMs < MIN_RANGE_DELETE_MS then Refused(RangeTooShort)
      else if CoversRegion(region, startMs, endMs) then FullRegion
      else
        var nearStart, nearEnd := startMs <= region.startMs + RANGE_EDGE_PADDING_MS, endMs >= region.endMs - RANGE_EDGE_PADDING_MS;
        var removesFromStart, removesFromEnd, removesMiddle := nearStart && !nearEnd, nearEnd && !nearStart, !nearStart && !nearEnd;
        if !removesFromStart && !removesFromEnd && !removesMiddle then Refused(TooCloseToEdge)
        else if removesFromStart && nearEnd then Refused(TooCloseToEdge)
        else if removesFromEnd && nearStart then Refused(TooCloseToEdge)
        else Range(startMs, endMs)
  }

  /** The layout interval of the first region with this id. */
  function RegionLayoutRange(ranges: seq<LayoutRange>, id: Id): Option<LayoutRange> {
    if |ranges| == 0 then None else if ranges[0].regionId == id then Some(ranges[0]) else RegionLayoutRange(ranges[1..], id)
  }

  function ResolveDeleteRangeForEditor(regions: seq<Region>, ops: seq<Operation>, region: Region, selectionStart: real, selectionEnd: real): Resolution {
    match RegionLayoutRange(LayoutRanges(regions, ops), region.id)
    case None => Refused(NoLayout)
    case Some(l) => ResolveDeleteRange(region, l.startMs, l.endMs, selectionStart, selectionEnd)
  }

  function ResolveSourceRangeForEditor(regions: seq<Region>, ops: seq<Operation>, region: Region, selectionStart: real, selectionEnd: real): Resolution {
    match RegionLayoutRange(LayoutRanges(regions, ops), region.id)
    case None => Refused(NoLayout)
    case Some(l) => ResolveSourceRange(region, l.startMs, l.endMs, selectionStart, selectionEnd)
  }

  // ----- the mapping from layout to source -----

  lemma ScaledBetween(part: real, whole: real, length: real)
    requires whole > 0.0 && 0.0 <= part <= whole
    ensures length >= 0.0 ==> 0.0 <= part / whole * length <= length
    ensures length <= 0.0 ==> length <= part / whole * length <= 0.0
  {
  }

  lemma Scale(a: real, b: real, c: real)
    requires a <= b && c >= 0.0
    ensures a * c <= b * c
  {
  }

  /** A position inside the layout interval maps inside the region. */
  lemma MapsInside(region: Region, layoutStartMs: int, layoutEndMs: int, layoutMs: real)
    requires layoutStartMs < layoutEndMs && layoutStartMs as real <= layoutMs <= layoutEndMs as real
    ensures region.startMs <= region.endMs ==> region.startMs <= LayoutMsToSourceMs(region, layoutStartMs, layoutEndMs, layoutMs) <= region.endMs
    ensures region.startMs >= region.endMs ==> region.endMs <= LayoutMsToSourceMs(region, layoutStartMs, layoutEndMs, layoutMs) <= region.startMs
  {
    ScaledBetween(layoutMs - layoutStartMs as real, (layoutEndMs - layoutStartMs) as real, (region.endMs - region.startMs) as real);
  }

  /** The mapping never reverses two positions of a region that runs forward, nor keeps their order in one that does not. */
  lemma MapsInOrder(region: Region, layoutStartMs: int, layoutEndMs: int, a: real, b: real)
    requires layoutStartMs < layoutEndMs && a <= b
    ensures region.startMs <= region.endMs ==>
      LayoutMsToSourceMs(region, layoutStartMs, layoutEndMs, a) <= LayoutMsToSourceMs(region, layoutStartMs, layoutEndMs, b)
    ensures region.startMs >= region.endMs ==>
      LayoutMsToSourceMs(region, layoutStartMs, layoutEndMs, b) <= LayoutMsToSourceMs(region, layoutStartMs, layoutEndMs, a)
  {
    var whole, length := (layoutEndMs - layoutStartMs) as real, (region.endMs - region.startMs) as real;
    var x, y := (a - layoutStartMs as real) / whole, (b - layoutStartMs as real) / whole;
    Divide(a - layoutStartMs as real, b - layoutStartMs as real, whole);
    if length >= 0.0 { Scale(x, y, length); } else { Scale(x, y, -length); }
  }

  lemma Divide(a: real, b: real, c: real)
    requires a <= b && c > 0.0
    ensures a / c <= b / c
  {
  }

  // ----- exactly what a selection resolves to -----

  /** Where a layout position lies in the source, on the straight line through both ends of the interval. */
  ghost predicate LiesAt(region: Region, layoutStartMs: int, layoutEndMs: int, layoutMs: real, sourceMs: real) {
    (sourceMs - region.startMs as real) * (layoutEndMs - layoutStartMs) as real
      == (layoutMs - layoutStartMs as real) * (region.endMs - region.startMs) as real
  }

  ghost predicate NearestMs(x: real, ms: int) { ms as real - 0.5 <= x < ms as real + 0.5 }

  /** The mapped position is the nearest millisecond, halves up, to the one source position on that line. */
  lemma MapsToNearest(region: Region, layoutStartMs: int, layoutEndMs: int, layoutMs: real, sourceMs: real)
    requires layoutStartMs < layoutEndMs && LiesAt(region, layoutStartMs, layoutEndMs, layoutMs, sourceMs)
    ensures NearestMs(sourceMs, LayoutMsToSourceMs(region, layoutStartMs, layoutEndMs, layoutMs))
  {
    var whole, length, part := (layoutEndMs - layoutStartMs) as real, (region.endMs - region.startMs) as real, layoutMs - layoutStartMs as real;
    CrossDivide(part, whole, length, sourceMs - region.startMs as real);
  }

  lemma CrossDivide(part: real, whole: real, length: real, x: real)
    requires whole > 0.0 && x * whole == part * length
    ensures part / whole * length == x
  {
    var r := part / whole;
    assert r * whole == part;
    assert (r * length) * whole == x * whole;
    Cancel(r * length, x, whole);
  }

  lemma Cancel(a: real, b: real, c: real)
    requires c > 0.0 && a * c == b * c
    ensures a == b
  {
  }

  /**
   * A selection from a to b, cut down to the layout interval: refused when less than 100 ms of it,
   * or of the source behind it, is left; the whole region when both ends come within 100 ms of the
   * region's; and otherwise the source range between its ends.
   */
  lemma ResolvesExactly(region: Region, layoutStartMs: int, layoutEndMs: int, a: real, b: real, startMs: int, endMs: int)
    requires layoutStartMs < layoutEndMs && a <= b
    requires var from := if a < layoutStartMs as real then layoutStartMs as real else a;
      startMs == LayoutMsToSourceMs(region, layoutStartMs, layoutEndMs, from)
    requires var to := if b > layoutEndMs as real then layoutEndMs as real else b;
      endMs == LayoutMsToSourceMs(region, layoutStartMs, layoutEndMs, to)
    ensures var from := if a < layoutStartMs as real then layoutStartMs as real else a;
      var to := if b > layoutEndMs as real then layoutEndMs as real else b;
      ResolveSourceRange(region, layoutStartMs, layoutEndMs, a, b)
        == if to - from < 100.0 then Refused(TooShortOrOutside)
           else if endMs - startMs < 100 then Refused(RangeTooShort)
           else if startMs <= region.startMs + 100 && endMs >= region.endMs - 100 then FullRegion
           else Range(startMs, endMs)
  {
  }

  // ----- main results -----

  /** Deleting resolves a selection exactly as selecting does; its extra edge checks never fire. */
  lemma DeleteAgreesWithSource(region: Region, layoutStartMs: int, layoutEndMs: int, selectionStart: real, selectionEnd: real)
    ensures ResolveDeleteRange(region, layoutStartMs, layoutEndMs, selectionStart, selectionEnd)
         == ResolveSourceRange(region, layoutStartMs, layoutEndMs, selectionStart, selectionEnd)
  {
  }

  /**
   * An accepted range lies inside its region, is at least 100 ms long, and leaves more than
   * 100 ms on at least one side; a whole region is only accepted when it is at least 100 ms long.
   */
  lemma AcceptedRangeFits(region: Region, layoutStartMs: int, layoutEndMs: int, selectionStart: real, selectionEnd: real)
    ensures var r := ResolveDeleteRange(region, layoutStartMs, layoutEndMs, selectionStart, selectionEnd);
      && (r.Range? ==> region.startMs <= r.startMs && r.endMs <= region.endMs && r.endMs - r.startMs >= MIN_RANGE_DELETE_MS)
      && (r.Range? ==> r.startMs - region.startMs > RANGE_EDGE_PADDING_MS || region.endMs - r.endMs > RANGE_EDGE_PADDING_MS)
      && (r.FullRegion? ==> region.endMs - region.startMs >= MIN_RANGE_DELETE_MS)
  {
    var from := Max(Min(selectionStart, selectionEnd), layoutStartMs as real);
    var to := Min(Max(selectionStart, selectionEnd), layoutEndMs as real);
    if to - from >= MIN_RANGE_DELETE_MS as real {
      MapsInside(region, layoutStartMs, layoutEndMs, from);
      MapsInside(region, layoutStartMs, layoutEndMs, to);
      MapsInOrder(region, layoutStartMs, layoutEndMs, from, to);
    }
  }

  /** The order in which a selection was dragged does not matter. */
  lemma SelectionIsUndirected(region: Region, layoutStartMs: int, layoutEndMs: int, a: real, b: real)
    ensures ResolveDeleteRange(region, layoutStartMs, layoutEndMs, a, b) == ResolveDeleteRange(region, layoutStartMs, layoutEndMs, b, a)
  {
  }

  lemma {:induction false} LayoutOfId(ranges: seq<LayoutRange>, id: Id)
    ensures RegionLayoutRange(ranges, id).None? <==> forall k :: 0 <= k < |ranges| ==> ranges[k].regionId != id
    ensures RegionLayoutRange(ranges, id).Some? ==> RegionLayoutRange(ranges, id).value in ranges && RegionLayoutRange(ranges, id).value.regionId == id
  {
    if |ranges| > 0 {
      LayoutOfId(ranges[1..], id);
      if ranges[0].regionId != id && RegionLayoutRange(ranges, id).None? {
        forall k | 0 <= k < |ranges| ensures ranges[k].regionId != id { assert k > 0 ==> ranges[1..][k - 1] == ranges[k]; }
      }
    }
  }

  /**
   * In the editor, after any list of operations: a selection is refused for lack of a layout
   * exactly when the region is not among the track's, and otherwise delete and source resolution
   * coincide and what they accept fits the region.
   */
  lemma EditorResolutionsFit(regions: seq<Region>, ops: seq<Operation>, region: Region, a: real, b: real)
    ensures var r := ResolveDeleteRangeForEditor(regions, ops, region, a, b);
      && r == ResolveSourceRangeForEditor(regions, ops, region, a, b)
      && (r == Refused(NoLayout) <==> region.id !in Ids(regions))
      && (r.Range? ==> region.startMs <= r.startMs && r.endMs <= region.endMs && r.endMs - r.startMs >= MIN_RANGE_DELETE_MS)
  {
    hide ResolveDeleteRange;
    hide ResolveSourceRange;
    var ranges, track := LayoutRanges(regions, ops), TrackRegions(regions, ops);
    LayoutIsLaidOut(track, 0);
    LayoutOfId(ranges, region.id);
    TrackIsPermutation(regions, ops);
    assert region.id in Ids(regions) <==> region.id in multiset(Ids(regions));
    assert region.id in Ids(track) <==> region.id in multiset(Ids(track));
    if region.id in Ids(track) {
      var k :| 0 <= k < |track| && Ids(track)[k] == region.id;
      assert ranges[k].regionId == region.id;
    } else {
      forall k | 0 <= k < |ranges| ensures ranges[k].regionId != region.id { assert Ids(track)[k] == ranges[k].regionId; }
    }
    if RegionLayoutRange(ranges, region.id).Some? {
      var l := RegionLayoutRange(ranges, region.id).value;
      DeleteAgreesWithSource(region, l.startMs, l.endMs, a, b);
      AcceptedRangeFits(region, l.startMs, l.endMs, a, b);
      NeverNoLayout(region, l.startMs, l.endMs, a, b);
    }
  }

  lemma NeverNoLayout(region: Region, layoutStartMs: int, layoutEndMs: int, a: real, b: real)
    ensures ResolveDeleteRange(region, layoutStartMs, layoutEndMs, a, b) != Refused(NoLayout)
  {
  }
}
