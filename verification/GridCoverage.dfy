/** The boot-time decision procedure that certifies that a union of operating boxes covers the certified domain. */
module GridCoverage {
  import opened Numeric

  /** An axis-aligned box over speed, DC-bus voltage, inverter temperature and motor temperature. */
  datatype Domain = Domain(speed: Interval, vdc: Interval, inverterTemp: Interval, motorTemp: Interval)

  datatype Point = Point(speed: real, vdc: real, inverterTemp: real, motorTemp: real)

  const MAX_REGIONS: nat := 4
  const MAX_BOUNDARIES: nat := 2 + 2 * MAX_REGIONS

  predicate Proper(i: Interval) {
    i.lo < i.hi
  }

  predicate DomainValid(d: Domain) {
    Proper(d.speed) && d.vdc.lo > 0.0 && Proper(d.vdc) && Proper(d.inverterTemp) && Proper(d.motorTemp)
  }

  predicate InInterval(i: Interval, x: real) {
    i.lo <= x <= i.hi
  }

  predicate ContainsPoint(d: Domain, p: Point) {
    && InInterval(d.speed, p.speed)
    && InInterval(d.vdc, p.vdc)
    && InInterval(d.inverterTemp, p.inverterTemp)
    && InInterval(d.motorTemp, p.motorTemp)
  }

  /** The outer box contains the whole inner box. */
  predicate Includes(outer: Domain, inner: Domain) {
    && Within(inner.speed, outer.speed)
    && Within(inner.vdc, outer.vdc)
    && Within(inner.inverterTemp, outer.inverterTemp)
    && Within(inner.motorTemp, outer.motorTemp)
  }

  predicate SomeRegionContains(regions: seq<Domain>, p: Point) {
    exists i :: 0 <= i < |regions| && ContainsPoint(regions[i], p)
  }

  /** Every real point of the closed global box lies in some region. */
  ghost predicate Covers(regions: seq<Domain>, global: Domain) {
    forall p :: ContainsPoint(global, p) ==> SomeRegionContains(regions, p)
  }

  function Axis(d: Domain, dimension: nat): Interval {
    if dimension == 0 then d.speed
    else if dimension == 1 then d.vdc
    else if dimension == 2 then d.inverterTemp
    else d.motorTemp
  }

  /** A grid line of one axis: an end of the global interval, or a clipped end of a region that meets it. */
  ghost predicate IsBoundary(x: real, regions: seq<Domain>, dimension: nat, global: Interval) {
    || x == global.lo
    || x == global.hi
    || exists i :: 0 <= i < |regions| && ClippedEnd(x, Axis(regions[i], dimension), global)
  }

  predicate ClippedEnd(x: real, axis: Interval, global: Interval) {
    Overlap(axis, global) && (x == Max(axis.lo, global.lo) || x == Min(axis.hi, global.hi))
  }

  /** A complete grid axis: the boundaries of the regions, all of them and nothing else, in strict order. */
  ghost predicate IsGridAxis(values: seq<real>, regions: seq<Domain>, dimension: nat, global: Interval) {
    && StrictlyIncreasing(values)
    && forall x :: x in values <==> IsBoundary(x, regions, dimension, global)
  }

  // ---------------------------------------------------------------------------------------------
  // Building one axis in a fixed ten-slot array
  // ---------------------------------------------------------------------------------------------

  ghost predicate Distinct(s: seq<real>) {
    forall i, j :: 0 <= i < j < |s| ==> s[i] != s[j]
  }

  /** Appends a value the array does not hold yet; a full array would silently drop it. */
  method AddUniqueBoundary(values: array<real>, count: nat, value: real) returns (newCount: nat)
    requires count <= values.Length == MAX_BOUNDARIES
    requires Distinct(values[..count])
    modifies values
    ensures count <= newCount <= values.Length && newCount <= count + 1
    ensures values[..count] == old(values[..count])
    ensures Distinct(values[..newCount])
    ensures value in old(values[..count]) ==> newCount == count
    ensures value !in old(values[..count]) && count < MAX_BOUNDARIES ==>
        values[..newCount] == old(values[..count]) + [value]
    ensures count == MAX_BOUNDARIES ==> newCount == count
  {
    var i := 0;
    while i < count
      invariant 0 <= i <= count
      invariant value !in values[..i]
    {
      if values[i] == value {
        return count;
      }
      i := i + 1;
    }
    if count < MAX_BOUNDARIES {
      values[count] := value;
      return count + 1;
    }
    return count;
  }

  ghost predicate Sorted(s: seq<real>) {
    forall i, j :: 0 <= i < j < |s| ==> s[i] <= s[j]
  }

  /** Insertion sort of the first count slots, in place. */
  method SortBoundaries(values: array<real>, count: nat)
    requires count <= values.Length
    modifies values
    ensures Sorted(values[..count])
    ensures multiset(values[..count]) == multiset(old(values[..count]))
    ensures values[count..] == old(values[count..])
  {
    var i := 1;
    while i < count
      invariant 1 <= i
      invariant Sorted(values[..if i <= count then i else count])
      invariant multiset(values[..count]) == multiset(old(values[..count]))
      invariant values[count..] == old(values[count..])
    {
      InsertAt(values, i, count);
      i := i + 1;
    }
  }

  /** One pass of the sort: slot i sinks to its place among the sorted slots before it. */
  method InsertAt(values: array<real>, i: nat, count: nat)
    requires 1 <= i < count <= values.Length
    requires Sorted(values[..i])
    modifies values
    ensures Sorted(values[..i + 1])
    ensures multiset(values[..count]) == multiset(old(values[..count]))
    ensures values[count..] == old(values[count..])
  {
    ghost var was := values[..];
    var value := values[i];
    var j := i;
    while j > 0 && values[j - 1] > value
      invariant 0 <= j <= i
      invariant forall k :: j <= k < i ==> values[k + 1] == was[k] && was[k] > value
      invariant forall k :: 0 <= k < values.Length && (k <= j < i || k < j || k > i) ==> values[k] == was[k]
    {
      values[j] := values[j - 1];
      j := j - 1;
    }
    values[j] := value;
    ghost var now := values[..];
    SinkKeepsOrder(was, now, i, j, count);
    assert values[..i + 1] == now[..i + 1] && values[..count] == now[..count] && values[count..] == now[count..];
  }

  lemma SinkKeepsOrder(was: seq<real>, now: seq<real>, i: nat, j: nat, count: nat)
    requires j <= i < count <= |was| == |now|
    requires Sorted(was[..i])
    requires j > 0 ==> was[j - 1] <= was[i]
    requires forall k :: j <= k < i ==> now[k + 1] == was[k] && was[k] > was[i]
    requires forall k :: 0 <= k < |was| && (k < j || k > i) ==> now[k] == was[k]
    requires now[j] == was[i]
    ensures Sorted(now[..i + 1])
    ensures multiset(now[..count]) == multiset(was[..count])
    ensures now[count..] == was[count..]
  {
    forall k | j < k <= i
      ensures now[k] == was[j..i][k - j - 1]
    {
      assert now[(k - 1) + 1] == was[k - 1];
    }
    assert now[..i + 1] == Sunk(was, i, j);
    assert now[..count] == Sunk(was, i, j) + was[i + 1..count];
    SunkIsPermutation(was, i, j, count);
    SunkIsSorted(was, i, j);
  }

  /** The first i + 1 slots after slot i has moved down to slot j. */
  function Sunk(s: seq<real>, i: nat, j: nat): seq<real>
    requires j <= i < |s|
  {
    s[..j] + [s[i]] + s[j..i]
  }

  lemma SunkIsPermutation(s: seq<real>, i: nat, j: nat, count: nat)
    requires j <= i < count <= |s|
    ensures multiset(Sunk(s, i, j) + s[i + 1..count]) == multiset(s[..count])
  {
    assert s[..count] == s[..j] + s[j..i] + [s[i]] + s[i + 1..count];
  }

  lemma SunkIsSorted(s: seq<real>, i: nat, j: nat)
    requires j <= i < |s|
    requires Sorted(s[..i])
    requires j > 0 ==> s[j - 1] <= s[i]
    requires forall k :: j <= k < i ==> s[k] > s[i]
    ensures Sorted(Sunk(s, i, j))
  {
    var t := Sunk(s, i, j);
    forall a, b | 0 <= a < b < |t|
      ensures t[a] <= t[b]
    {
      assert forall x, y :: 0 <= x <= y < i ==> s[..i][x] <= s[..i][y];
      assert forall x, y :: 0 <= x <= y < i ==> s[x] <= s[y];
    }
  }

  method BuildBoundaries(global: Interval, regions: seq<Domain>, dimension: nat, values: array<real>)
    returns (count: nat)
    requires values.Length == MAX_BOUNDARIES
    requires |regions| <= MAX_REGIONS
    requires Proper(global)
    modifies values
    ensures 2 <= count <= MAX_BOUNDARIES
    ensures IsGridAxis(values[..count], regions, dimension, global)
  {
    count := AddUniqueBoundary(values, 0, global.lo);
    count := AddUniqueBoundary(values, count, global.hi);
    var i := 0;
    assert values[..count] == [global.lo, global.hi];
    while i < |regions|
      invariant 0 <= i <= |regions|
      invariant 2 <= count <= 2 + 2 * i
      invariant Distinct(values[..count])
      invariant forall x :: x in values[..count] <==> IsBoundary(x, regions[..i], dimension, global)
    {
      var axis := Axis(regions[i], dimension);
      ghost var held := values[..count];
      assert regions[..i + 1] == regions[..i] + [regions[i]];
      assert forall x :: IsBoundary(x, regions[..i + 1], dimension, global) <==>
          IsBoundary(x, regions[..i], dimension, global) || ClippedEnd(x, axis, global) by {
        BoundaryOfOneMore(regions, i, dimension, global);
      }
      if !(axis.hi < global.lo || axis.lo > global.hi) {
        count := AddUniqueBoundary(values, count, Max(axis.lo, global.lo));
        assert forall x :: x in values[..count] <==> x in held || x == Max(axis.lo, global.lo);
        count := AddUniqueBoundary(values, count, Min(axis.hi, global.hi));
      }
      i := i + 1;
    }
    assert regions[..i] == regions;
    ghost var unsorted := values[..count];
    assert unsorted[0] != unsorted[1];
    SortBoundaries(values, count);
    PermutationKeepsElements(unsorted, values[..count]);
  }

  lemma BoundaryOfOneMore(regions: seq<Domain>, i: nat, dimension: nat, global: Interval)
    requires i < |regions|
    ensures forall x :: IsBoundary(x, regions[..i + 1], dimension, global) <==>
        IsBoundary(x, regions[..i], dimension, global) || ClippedEnd(x, Axis(regions[i], dimension), global)
  {
    forall x
      ensures IsBoundary(x, regions[..i + 1], dimension, global) <==>
        IsBoundary(x, regions[..i], dimension, global) || ClippedEnd(x, Axis(regions[i], dimension), global)
    {
      if k :| 0 <= k < i && ClippedEnd(x, Axis(regions[..i][k], dimension), global) {
        assert regions[..i + 1][k] == regions[..i][k];
      }
      if ClippedEnd(x, Axis(regions[i], dimension), global) {
        assert regions[..i + 1][i] == regions[i];
      }
      if IsBoundary(x, regions[..i + 1], dimension, global) && x != global.lo && x != global.hi {
        var more := regions[..i + 1];
        var k :| 0 <= k < |more| && ClippedEnd(x, Axis(more[k], dimension), global);
        assert k == i || regions[..i][k] == more[k];
      }
    }
  }

  /** Sorting a duplicate-free sequence gives the same elements in strict order. */
  lemma PermutationKeepsElements(before: seq<real>, after: seq<real>)
    requires Distinct(before) && Sorted(after) && multiset(before) == multiset(after)
    ensures StrictlyIncreasing(after)
    ensures forall x :: x in after <==> x in before
  {
    forall x
      ensures x in after <==> x in before
    {
      assert x in before <==> x in multiset(before);
      assert x in after <==> x in multiset(after);
    }
    forall i, j | 0 <= i < j < |after|
      ensures after[i] < after[j]
    {
      if after[i] == after[j] {
        CountTwice(after, i, j);
        DistinctCountsOnce(before, after[i]);
      }
    }
  }

  lemma CountTwice(s: seq<real>, i: nat, j: nat)
    requires i < j < |s| && s[i] == s[j]
    ensures multiset(s)[s[i]] >= 2
  {
    assert s == s[..j] + s[j..];
    assert s[i] in s[..j] && s[i] in s[j..] by {
      assert s[..j][i] == s[i] && s[j..][0] == s[i];
    }
    assert multiset(s) == multiset(s[..j]) + multiset(s[j..]);
  }

  lemma {:induction false} DistinctCountsOnce(s: seq<real>, x: real)
    requires Distinct(s)
    ensures multiset(s)[x] <= 1
  {
    if s == [] {
    } else {
      var t := s[..|s| - 1];
      assert s == t + [s[|s| - 1]];
      DistinctCountsOnce(t, x);
      if s[|s| - 1] == x {
        assert x !in t;
        assert x !in multiset(t);
      }
    }
  }

  // ---------------------------------------------------------------------------------------------
  // The midpoint test
  // ---------------------------------------------------------------------------------------------

  /** The four grid axes. */
  datatype Grid = Grid(speed: seq<real>, vdc: seq<real>, inverterTemp: seq<real>, motorTemp: seq<real>)

  function Midpoint(s: seq<real>, k: nat): real
    requires k + 1 < |s|
  {
    0.5 * (s[k] + s[k + 1])
  }

  ghost predicate GridFor(g: Grid, regions: seq<Domain>, global: Domain) {
    && IsGridAxis(g.speed, regions, 0, global.speed)
    && IsGridAxis(g.vdc, regions, 1, global.vdc)
    && IsGridAxis(g.inverterTemp, regions, 2, global.inverterTemp)
    && IsGridAxis(g.motorTemp, regions, 3, global.motorTemp)
  }

  predicate CellIndex(g: Grid, si: int, vi: int, ii: int, mi: int) {
    && 0 <= si && si + 1 < |g.speed|
    && 0 <= vi && vi + 1 < |g.vdc|
    && 0 <= ii && ii + 1 < |g.inverterTemp|
    && 0 <= mi && mi + 1 < |g.motorTemp|
  }

  function CellMidpoint(g: Grid, si: nat, vi: nat, ii: nat, mi: nat): Point
    requires CellIndex(g, si, vi, ii, mi)
  {
    Point(Midpoint(g.speed, si), Midpoint(g.vdc, vi), Midpoint(g.inverterTemp, ii), Midpoint(g.motorTemp, mi))
  }

  ghost predicate MidpointCovered(regions: seq<Domain>, g: Grid, si: int, vi: int, ii: int, mi: int) {
    CellIndex(g, si, vi, ii, mi) ==> SomeRegionContains(regions, CellMidpoint(g, si, vi, ii, mi))
  }

  lemma GridAxisSpans(values: seq<real>, regions: seq<Domain>, dimension: nat, global: Interval)
    requires Proper(global) && IsGridAxis(values, regions, dimension, global)
    requires forall i :: 0 <= i < |regions| ==> Ordered(Axis(regions[i], dimension))
    ensures |values| >= 2 && values[0] == global.lo && values[|values| - 1] == global.hi
  {
    assert IsBoundary(global.lo, regions, dimension, global) && IsBoundary(global.hi, regions, dimension, global);
    var a :| 0 <= a < |values| && values[a] == global.lo;
    var b :| 0 <= b < |values| && values[b] == global.hi;
    assert values[0] in values && values[|values| - 1] in values;
    assert IsBoundary(values[0], regions, dimension, global);
    assert IsBoundary(values[|values| - 1], regions, dimension, global);
    assert values[0] >= global.lo;
    assert values[|values| - 1] <= global.hi;
  }

  /** A region that holds the middle of a grid cell holds the whole closed cell: none of its ends can fall inside. */
  lemma MidpointDecidesCell(values: seq<real>, regions: seq<Domain>, dimension: nat, global: Interval, k: nat, r: nat)
    requires Proper(global) && IsGridAxis(values, regions, dimension, global)
    requires forall i :: 0 <= i < |regions| ==> Ordered(Axis(regions[i], dimension))
    requires k + 1 < |values| && r < |regions|
    requires InInterval(Axis(regions[r], dimension), Midpoint(values, k))
    ensures Axis(regions[r], dimension).lo <= values[k] && values[k + 1] <= Axis(regions[r], dimension).hi
  {
    GridAxisSpans(values, regions, dimension, global);
    var axis := Axis(regions[r], dimension);
    var m := Midpoint(values, k);
    assert values[0] <= values[k] < m < values[k + 1] <= values[|values| - 1];
    var lower, upper := Max(axis.lo, global.lo), Min(axis.hi, global.hi);
    assert ClippedEnd(lower, axis, global) && ClippedEnd(upper, axis, global);
    assert IsBoundary(lower, regions, dimension, global) && IsBoundary(upper, regions, dimension, global);
    var a :| 0 <= a < |values| && values[a] == lower;
    var b :| 0 <= b < |values| && values[b] == upper;
    assert a < k + 1 && k < b;
  }

  /** Soundness of the finite test: covered midpoints mean that every real point is covered. */
  lemma CoveredMidpointsSuffice(regions: seq<Domain>, global: Domain, g: Grid)
    requires DomainValid(global) && GridFor(g, regions, global)
    requires forall i :: 0 <= i < |regions| ==> DomainValid(regions[i])
    requires forall si, vi, ii, mi :: MidpointCovered(regions, g, si, vi, ii, mi)
    ensures Covers(regions, global)
  {
    forall p | ContainsPoint(global, p)
      ensures SomeRegionContains(regions, p)
    {
      GridAxisSpans(g.speed, regions, 0, global.speed);
      GridAxisSpans(g.vdc, regions, 1, global.vdc);
      GridAxisSpans(g.inverterTemp, regions, 2, global.inverterTemp);
      GridAxisSpans(g.motorTemp, regions, 3, global.motorTemp);
      var si := FindGridCell(g.speed, p.speed);
      var vi := FindGridCell(g.vdc, p.vdc);
      var ii := FindGridCell(g.inverterTemp, p.inverterTemp);
      var mi := FindGridCell(g.motorTemp, p.motorTemp);
      assert MidpointCovered(regions, g, si, vi, ii, mi);
      var r :| 0 <= r < |regions| && ContainsPoint(regions[r], CellMidpoint(g, si, vi, ii, mi));
      MidpointDecidesCell(g.speed, regions, 0, global.speed, si, r);
      MidpointDecidesCell(g.vdc, regions, 1, global.vdc, vi, r);
      MidpointDecidesCell(g.inverterTemp, regions, 2, global.inverterTemp, ii, r);
      MidpointDecidesCell(g.motorTemp, regions, 3, global.motorTemp, mi, r);
      assert ContainsPoint(regions[r], p);
    }
  }

  /** Completeness: a midpoint that no region contains is itself an uncovered point of the global box. */
  lemma UncoveredMidpoint(regions: seq<Domain>, global: Domain, g: Grid, si: nat, vi: nat, ii: nat, mi: nat)
    requires DomainValid(global) && GridFor(g, regions, global)
    requires forall i :: 0 <= i < |regions| ==> DomainValid(regions[i])
    requires CellIndex(g, si, vi, ii, mi)
    requires !SomeRegionContains(regions, CellMidpoint(g, si, vi, ii, mi))
    ensures !Covers(regions, global)
  {
    GridAxisSpans(g.speed, regions, 0, global.speed);
    GridAxisSpans(g.vdc, regions, 1, global.vdc);
    GridAxisSpans(g.inverterTemp, regions, 2, global.inverterTemp);
    GridAxisSpans(g.motorTemp, regions, 3, global.motorTemp);
    assert ContainsPoint(global, CellMidpoint(g, si, vi, ii, mi));
  }

  /** The finite test is exact: the midpoints of the grid cells are all covered exactly when every real point is. */
  lemma MidpointsDecideCoverage(regions: seq<Domain>, global: Domain, g: Grid)
    requires DomainValid(global) && GridFor(g, regions, global)
    requires forall i :: 0 <= i < |regions| ==> DomainValid(regions[i])
    ensures Covers(regions, global) <==> forall si, vi, ii, mi :: MidpointCovered(regions, g, si, vi, ii, mi)
  {
    if si, vi, ii, mi :| !MidpointCovered(regions, g, si, vi, ii, mi) {
      UncoveredMidpoint(regions, global, g, si, vi, ii, mi);
    } else {
      CoveredMidpointsSuffice(regions, global, g);
    }
  }

  /** The regions are scanned in order: a region that contains the whole domain settles the question before any
      malformed region behind it is seen. */
  predicate IncludedBeforeMalformed(regions: seq<Domain>, global: Domain) {
    exists i :: 0 <= i < |regions| && Includes(regions[i], global) && forall j :: 0 <= j <= i ==>
        DomainValid(regions[j])
  }

  predicate AllValid(regions: seq<Domain>) {
    forall i :: 0 <= i < |regions| ==> DomainValid(regions[i])
  }

  lemma OneRegionCovers(regions: seq<Domain>, global: Domain, i: nat)
    requires i < |regions| && Includes(regions[i], global)
    ensures Covers(regions, global)
  {
    forall p | ContainsPoint(global, p)
      ensures SomeRegionContains(regions, p)
    {
      assert ContainsPoint(regions[i], p);
    }
  }

  /** The decision procedure. For well-formed regions its answer is exactly geometric coverage. */
  method RegionsCoverDomain(regions: seq<Domain>, global: Domain) returns (covered: bool)
    requires |regions| <= MAX_REGIONS
    ensures covered <==> DomainValid(global) && (IncludedBeforeMalformed(regions, global)
                                                 || (AllValid(regions) && Covers(regions, global)))
    ensures DomainValid(global) && AllValid(regions) ==> (covered <==> Covers(regions, global))
  {
    if |regions| == 0 || !DomainValid(global) {
      if DomainValid(global) {
        NoRegionsCoverNothing(global);
      }
      return false;
    }
    var i := 0;
    while i < |regions|
      invariant 0 <= i <= |regions|
      invariant forall j :: 0 <= j < i ==> DomainValid(regions[j]) && !Includes(regions[j], global)
    {
      if !DomainValid(regions[i]) {
        return false;
      }
      if Includes(regions[i], global) {
        OneRegionCovers(regions, global, i);
        return true;
      }
      i := i + 1;
    }
    covered := MidpointsCovered(regions, global);
  }

  lemma NoRegionsCoverNothing(global: Domain)
    requires DomainValid(global)
    ensures !Covers([], global)
  {
    var p := Point(global.speed.lo, global.vdc.lo, global.inverterTemp.lo, global.motorTemp.lo);
    assert ContainsPoint(global, p) && !SomeRegionContains([], p);
  }

  /** Builds the four grid axes and tests every cell midpoint. */
  method MidpointsCovered(regions: seq<Domain>, global: Domain) returns (covered: bool)
    requires 0 < |regions| <= MAX_REGIONS && DomainValid(global) && AllValid(regions)
    ensures covered <==> Covers(regions, global)
  {
    var speed, vdc := new real[MAX_BOUNDARIES], new real[MAX_BOUNDARIES];
    var inverterTemp, motorTemp := new real[MAX_BOUNDARIES], new real[MAX_BOUNDARIES];
    var speedCount := BuildBoundaries(global.speed, regions, 0, speed);
    var vdcCount := BuildBoundaries(global.vdc, regions, 1, vdc);
    var inverterCount := BuildBoundaries(global.inverterTemp, regions, 2, inverterTemp);
    var motorCount := BuildBoundaries(global.motorTemp, regions, 3, motorTemp);
    covered := GridMidpointsCovered(regions, global, speed, speedCount, vdc, vdcCount,
                                    inverterTemp, inverterCount, motorTemp, motorCount);
  }

  /** The four nested midpoint loops. */
  method GridMidpointsCovered(
    regions: seq<Domain>, global: Domain,
    speed: array<real>, speedCount: nat, vdc: array<real>, vdcCount: nat,
    inverterTemp: array<real>, inverterCount: nat, motorTemp: array<real>, motorCount: nat)
    returns (covered: bool)
    requires DomainValid(global) && AllValid(regions)
    requires 2 <= speedCount <= speed.Length && 2 <= vdcCount <= vdc.Length
    requires 2 <= inverterCount <= inverterTemp.Length && 2 <= motorCount <= motorTemp.Length
    requires GridFor(Grid(speed[..speedCount], vdc[..vdcCount], inverterTemp[..inverterCount],
                          motorTemp[..motorCount]), regions, global)
    ensures covered <==> Covers(regions, global)
  {
    ghost var g := Grid(speed[..speedCount], vdc[..vdcCount], inverterTemp[..inverterCount], motorTemp[..motorCount]);
    var si := 0;
    while si + 1 < speedCount
      invariant 0 <= si < speedCount
      invariant forall a, b, c, d :: a < si ==> MidpointCovered(regions, g, a, b, c, d)
    {
      var s := 0.5 * (speed[si] + speed[si + 1]);
      var vi := 0;
      while vi + 1 < vdcCount
        invariant 0 <= vi < vdcCount
        invariant forall b, c, d :: b < vi ==> MidpointCovered(regions, g, si, b, c, d)
      {
        var v := 0.5 * (vdc[vi] + vdc[vi + 1]);
        var ii := 0;
        while ii + 1 < inverterCount
          invariant 0 <= ii < inverterCount
          invariant forall c, d :: c < ii ==> MidpointCovered(regions, g, si, vi, c, d)
        {
          var it := 0.5 * (inverterTemp[ii] + inverterTemp[ii + 1]);
          var mi := 0;
          while mi + 1 < motorCount
            invariant 0 <= mi < motorCount
            invariant forall d :: d < mi ==> MidpointCovered(regions, g, si, vi, ii, d)
          {
            var mt := 0.5 * (motorTemp[mi] + motorTemp[mi + 1]);
            assert CellMidpoint(g, si, vi, ii, mi) == Point(s, v, it, mt);
            var found := AnyRegionContains(regions, Point(s, v, it, mt));
            if !found {
              UncoveredMidpoint(regions, global, g, si, vi, ii, mi);
              return false;
            }
            mi := mi + 1;
          }
          ii := ii + 1;
        }
        vi := vi + 1;
      }
      si := si + 1;
    }
    MidpointsDecideCoverage(regions, global, g);
    return true;
  }

  /** The innermost loop, which stops at the first region that contains the midpoint. */
  method AnyRegionContains(regions: seq<Domain>, p: Point) returns (found: bool)
    ensures found <==> SomeRegionContains(regions, p)
  {
    found := false;
    var region := 0;
    while region < |regions|
      invariant 0 <= region <= |regions|
      invariant forall j :: 0 <= j < region ==> !ContainsPoint(regions[j], p)
    {
      if ContainsPoint(regions[region], p) {
        return true;
      }
      region := region + 1;
    }
  }
}
