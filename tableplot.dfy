/**
 * TablePlot from src/tableplot.cpp: a point plot whose positions, colours and
 * scales are read from columns of a SimpleTable. The point, colour and scale
 * caches are fields of the plot; the instance rebuild it triggers is recorded
 * as a log entry and the bounds it reports go to the SharedDomain.
 */
module TablePlots {
  import opened Vectors
  import opened Domains
  import opened Sequences
  import opened Utility
  import opened SimpleTables
  import opened ScatterCores

  // ------------------------------------------------------- colour map lookup

  /** std::upper_bound with comparator f < key: the first index whose key exceeds f. */
  function UpperBound(cmap: seq<(real, Vec3)>, f: real): (b: nat)
    ensures b <= |cmap|
    ensures forall i :: 0 <= i < b ==> cmap[i].0 <= f
    ensures b < |cmap| ==> f < cmap[b].0
    decreases |cmap|
  {
    if cmap == [] then 0
    else if f < cmap[0].0 then 0
    else 1 + UpperBound(cmap[1..], f)
  }

  predicate SortedByKey(cmap: seq<(real, Vec3)>) {
    forall i, j :: 0 <= i < j < |cmap| ==> cmap[i].0 <= cmap[j].0
  }

  /**
   * color_map_sample: white for an empty map, the first colour below the first
   * key, the last colour at or above the last key, and otherwise the colour
   * interpolation (a parameter: it goes through QColor's HSV conversion)
   * between the neighbours around f.
   */
  function ColorMapSample(cmap: seq<(real, Vec3)>, f: real, interp: (Vec3, Vec3, real, real, real) -> Vec3): Vec3 {
    if cmap == [] then Splat(1.0)
    else
      var b := UpperBound(cmap, f);
      if b == 0 then cmap[0].1
      else if b == |cmap| then cmap[|cmap| - 1].1
      else interp(cmap[b - 1].1, cmap[b].1, f, cmap[b - 1].0, cmap[b].0)
  }

  /** The four cases of color_map_sample on a map sorted by key. */
  lemma ColorMapSampleCases(cmap: seq<(real, Vec3)>, f: real, interp: (Vec3, Vec3, real, real, real) -> Vec3)
    requires SortedByKey(cmap)
    ensures cmap == [] ==> ColorMapSample(cmap, f, interp) == Splat(1.0)
    ensures cmap != [] && f < cmap[0].0 ==> ColorMapSample(cmap, f, interp) == cmap[0].1
    ensures cmap != [] && cmap[|cmap| - 1].0 <= f ==> ColorMapSample(cmap, f, interp) == cmap[|cmap| - 1].1
    ensures cmap != [] && cmap[0].0 <= f < cmap[|cmap| - 1].0 ==>
      exists b :: 0 < b < |cmap| && cmap[b - 1].0 <= f < cmap[b].0 &&
        ColorMapSample(cmap, f, interp) == interp(cmap[b - 1].1, cmap[b].1, f, cmap[b - 1].0, cmap[b].0)
  {
    if cmap != [] {
      var b := UpperBound(cmap, f);
      if cmap[|cmap| - 1].0 <= f {
        assert forall i :: 0 <= i < |cmap| ==> cmap[i].0 <= f;
        assert b == |cmap|;
      }
      if cmap[0].0 <= f < cmap[|cmap| - 1].0 {
        assert 0 < b < |cmap| && cmap[b - 1].0 <= f < cmap[b].0;
      }
    }
  }

  // ------------------------------------------------------ sources and ranges

  /** are_sources_valid: x, y, z are columns; colour and size are each negative or a column. */
  function AreSourcesValid(cols: seq<TableColumn>, x: int, y: int, z: int, color: int, size: int): (b: bool)
    ensures b <==> 0 <= x < |cols| && 0 <= y < |cols| && 0 <= z < |cols| &&
                   (color < 0 || color < |cols|) && (size < 0 || size < |cols|)
  {
    var xyz := x >= 0 && y >= 0 && z >= 0;
    var xyzMax := x < |cols| && y < |cols| && z < |cols|;
    var colorOk := if color < 0 then true else color < |cols|;
    var sizeOk := if size < 0 then true else size < |cols|;
    xyz && xyzMax && colorOk && sizeOk
  }

  /** std::numeric_limits<float>::max(). */
  const FloatMax: real := 340282346638528859811704183484516925440.0

  /** The seat_source lambda: a string column reads as one 0.0, a real column as its reals. */
  function SeatSource(c: TableColumn): (r: seq<real>)
    ensures c.StringColumn? ==> r == [0.0]
    ensures c.RealColumn? ==> r == c.reals
  {
    match c
    case StringColumn(_, _) => [0.0]
    case RealColumn(_, reals) => reals
  }

  function Min(a: nat, b: nat): nat {
    if a < b then a else b
  }

  /** std::clamp(v, lo, hi). */
  function Clamp(v: nat, lo: nat, hi: nat): (r: nat)
    requires lo <= hi
    ensures lo <= r <= hi
    ensures lo <= v <= hi ==> r == v
  {
    if v < lo then lo else if hi < v then hi else v
  }

  /** The clamped rebuild range [from', from' + count') within [0, numRows). */
  function ClampedRange(from: nat, count: nat, numRows: nat): (r: (nat, nat))
    ensures r.0 + r.1 <= numRows
    ensures from <= numRows ==> r.0 == from
    ensures from + count <= numRows ==> r == (from, count)
    ensures from <= numRows <= from + count ==> r == (from, numRows - from)
  {
    var f := Clamp(from, 0, numRows);
    (f, Clamp(count, 0, numRows - f))
  }

  /** The caches grow to n when shorter and are never shrunk here. */
  function Grown(s: seq<Vec3>, n: nat): (r: seq<Vec3>)
    ensures |r| == if n > |s| then n else |s|
    ensures forall i :: 0 <= i < |r| ==> r[i] == if i < |s| then s[i] else Zero3
  {
    if n > |s| then Fit(s, n, Zero3) else s
  }

  /** The point rebuilt for row r from the seated position spans. */
  function PointAt(xs: seq<real>, ys: seq<real>, zs: seq<real>, r: nat): Vec3
    requires |xs| > 0 && |ys| > 0 && |zs| > 0
  {
    Vec3(ModulusIndexed(xs, r), ModulusIndexed(ys, r), ModulusIndexed(zs, r))
  }

  /** The points of rows lo .. hi-1. */
  function RangePoints(xs: seq<real>, ys: seq<real>, zs: seq<real>, lo: nat, hi: nat): (r: seq<Vec3>)
    requires |xs| > 0 && |ys| > 0 && |zs| > 0 && lo <= hi
    ensures |r| == hi - lo && forall k :: 0 <= k < hi - lo ==> r[k] == PointAt(xs, ys, zs, lo + k)
  {
    seq(hi - lo, k requires 0 <= k < hi - lo => PointAt(xs, ys, zs, lo + k))
  }

  /**
   * The min fold from the FLT_MAX sentinel is the componentwise minimum of the
   * rebuilt points: below every one of them, and when there is at least one
   * point within float range each component is that of some point.
   */
  lemma SentinelMinIsMinimum(pts: seq<Vec3>)
    requires pts != [] && forall e :: e in pts ==> LessEq(e, Splat(FloatMax))
    ensures var m := MinFold(Splat(FloatMax), pts);
      (forall e :: e in pts ==> LessEq(m, e)) &&
      (exists e :: e in pts && m.x == e.x) && (exists e :: e in pts && m.y == e.y) && (exists e :: e in pts && m.z == e.z)
  {
    MinFoldProperties(Splat(FloatMax), pts);
    var m := MinFold(Splat(FloatMax), pts);
    var e0 := pts[0];
    assert e0 in pts;
    if m.x == FloatMax { assert m.x == e0.x; }
    if m.y == FloatMax { assert m.y == e0.y; }
    if m.z == FloatMax { assert m.z == e0.z; }
  }

  lemma SentinelMaxIsMaximum(pts: seq<Vec3>)
    requires pts != [] && forall e :: e in pts ==> LessEq(Splat(-FloatMax), e)
    ensures var m := MaxFold(Splat(-FloatMax), pts);
      (forall e :: e in pts ==> LessEq(e, m)) &&
      (exists e :: e in pts && m.x == e.x) && (exists e :: e in pts && m.y == e.y) && (exists e :: e in pts && m.z == e.z)
  {
    MaxFoldProperties(Splat(-FloatMax), pts);
    var m := MaxFold(Splat(-FloatMax), pts);
    var e0 := pts[0];
    assert e0 in pts;
    if m.x == -FloatMax { assert m.x == e0.x; }
    if m.y == -FloatMax { assert m.y == e0.y; }
    if m.z == -FloatMax { assert m.z == e0.z; }
  }

  /** The colour rebuilt for row r: white without a colour column, the grey level of a real column, or a parsed string. */
  function ColorAt(cols: seq<TableColumn>, colorCol: int, parse: string -> Vec3, r: nat): Vec3
    requires colorCol < |cols| && (colorCol >= 0 ==> ColumnSize(cols[colorCol]) > 0)
  {
    if colorCol < 0 then ModulusIndexed([Splat(1.0)], r)
    else match cols[colorCol]
      case RealColumn(_, reals) => Splat(ModulusIndexed(reals, r))
      case StringColumn(_, strings) => parse(ModulusIndexed(strings, r))
  }

  const DefaultTableScale: real := 0.05

  /** Whether rebuilt rows get a scale: always, except from a string size column. */
  predicate ScalesWritten(cols: seq<TableColumn>, sizeCol: int)
    requires sizeCol < |cols|
  {
    sizeCol < 0 || cols[sizeCol].RealColumn?
  }

  function ScaleAt(cols: seq<TableColumn>, sizeCol: int, r: nat): Vec3
    requires sizeCol < |cols| && ScalesWritten(cols, sizeCol) && (sizeCol >= 0 ==> ColumnSize(cols[sizeCol]) > 0)
  {
    if sizeCol < 0 then ModulusIndexed([Splat(DefaultTableScale)], r)
    else Splat(ModulusIndexed(cols[sizeCol].reals, r))
  }

  /** Overwrite rows lo .. hi-1 of s with f(row); the other rows keep their value. */
  method FillRange(s: seq<Vec3>, lo: nat, hi: nat, f: nat -> Vec3) returns (t: seq<Vec3>)
    requires lo <= hi <= |s|
    ensures |t| == |s|
    ensures forall r :: 0 <= r < |s| ==> t[r] == if lo <= r < hi then f(r) else s[r]
  {
    t := s;
    var row := lo;
    while row < hi
      invariant lo <= row <= hi && |t| == |s|
      invariant forall r :: 0 <= r < |s| ==> t[r] == if lo <= r < row then f(r) else s[r]
    {
      t := t[row := f(row)];
      row := row + 1;
    }
  }

  /** The rows the three position columns share. */
  function NumRowsOf(cols: seq<TableColumn>, x: nat, y: nat, z: nat): nat
    requires x < |cols| && y < |cols| && z < |cols|
  {
    Min(ColumnSize(cols[x]), Min(ColumnSize(cols[y]), ColumnSize(cols[z])))
  }

  /**
   * A colour or size column that rebuild_cache(from, count) reads is not empty
   * (a read from an empty one would be a modulus by zero).
   */
  predicate AttributesReadable(cols: seq<TableColumn>, x: int, y: int, z: int, color: int, size: int, from: nat, count: nat) {
    AreSourcesValid(cols, x, y, z, color, size) && NumRowsOf(cols, x, y, z) > 0 &&
    ClampedRange(from, count, NumRowsOf(cols, x, y, z)).1 > 0
    ==>
    (color >= 0 ==> ColumnSize(cols[color]) > 0) && (size >= 0 ==> ColumnSize(cols[size]) > 0)
  }

  /** A request to rebuild the instances: of a row range, or (from set_clear) of everything. */
  datatype InstanceRebuild = RangeRebuild(from: nat, count: nat) | FullRebuild

  /** The instance rebuild rebuild_cache asks for after a table change: from 0, every row. */
  const AllRows: nat := 0xFFFF_FFFF_FFFF_FFFF

  class TablePlot {
    const table: SimpleTable
    const domain: SharedDomain
    /** QColor's parsing of a colour name, which is not modelled. */
    const parseColor: string -> Vec3
    var points: seq<Vec3>
    var colors: seq<Vec3>
    var scales: seq<Vec3>
    var xcol: int
    var ycol: int
    var zcol: int
    var colorCol: int
    var sizeCol: int
    var colorMap: seq<(real, Vec3)>
    var rebuilds: seq<InstanceRebuild>

    /** The three caches are parallel. */
    ghost predicate Valid()
      reads this
    {
      |colors| == |points| && |scales| == |points|
    }

    /** The current sources are valid and readable for rebuild_cache(from, count). */
    ghost predicate Readable(from: nat, count: nat)
      reads this, table
    {
      AttributesReadable(table.columns, xcol, ycol, zcol, colorCol, sizeCol, from, count)
    }

    /**
     * The caches, the log and the domain after the rows lo .. hi-1 of n were
     * rebuilt from the position spans xs, ys, zs: the caches have grown to n
     * rows if shorter, the rows in the range hold the rebuilt values (a string
     * size column leaves scales alone), the other rows keep theirs, the range's
     * instances are rebuilt and its bounds, folded from the FLT_MAX sentinels,
     * go to the domain.
     */
    twostate predicate RangeRebuilt(n: nat, lo: nat, hi: nat, xs: seq<real>, ys: seq<real>, zs: seq<real>)
      reads this, table, domain
      requires lo <= hi <= n && |xs| > 0 && |ys| > 0 && |zs| > 0
      requires colorCol < |table.columns| && sizeCol < |table.columns|
      requires lo < hi ==> (colorCol >= 0 ==> ColumnSize(table.columns[colorCol]) > 0) &&
                           (sizeCol >= 0 ==> ColumnSize(table.columns[sizeCol]) > 0)
    {
      && (|points| == |Grown(old(points), n)| && |colors| == |Grown(old(colors), n)| && |scales| == |Grown(old(scales), n)|)
      && (forall r :: 0 <= r < |points| ==>
        points[r] == (if lo <= r < hi then PointAt(xs, ys, zs, r) else Grown(old(points), n)[r]))
      && (forall r :: 0 <= r < |colors| ==>
        colors[r] == (if lo <= r < hi then ColorAt(table.columns, colorCol, parseColor, r) else Grown(old(colors), n)[r]))
      && (forall r :: 0 <= r < |scales| ==>
        scales[r] == (if lo <= r < hi && ScalesWritten(table.columns, sizeCol) then ScaleAt(table.columns, sizeCol, r)
                      else Grown(old(scales), n)[r]))
      && (rebuilds == old(rebuilds) + [RangeRebuild(lo, hi - lo)])
      && (domain.current == UpdatedBounds(old(domain.current), old(domain.auto),
          MinFold(Splat(FloatMax), RangePoints(xs, ys, zs, lo, hi)),
          MaxFold(Splat(-FloatMax), RangePoints(xs, ys, zs, lo, hi))))
      && (domain.domainSignals == old(domain.domainSignals) +
          if BoundsUpdateApplies(old(domain.current), old(domain.auto),
               MinFold(Splat(FloatMax), RangePoints(xs, ys, zs, lo, hi)),
               MaxFold(Splat(-FloatMax), RangePoints(xs, ys, zs, lo, hi))) then 1 else 0)
    }

    /**
     * The caches, the rebuild log and the domain after rebuild_cache(from, count):
     * with invalid sources nothing changes; with no rows the caches are
     * cleared and a full rebuild is asked for. Otherwise [from, from + count)
     * is clamped to the rows the three position columns share and rebuilt
     * from the seated sources (a string position column reads as 0.0).
     */
    twostate predicate CacheRebuilt(from: nat, count: nat)
      reads this, table, domain
    {
      && (!AreSourcesValid(table.columns, xcol, ycol, zcol, colorCol, sizeCol) ==>
        points == old(points) && colors == old(colors) && scales == old(scales) &&
        rebuilds == old(rebuilds) && domain.current == old(domain.current) && domain.domainSignals == old(domain.domainSignals))
      && (AreSourcesValid(table.columns, xcol, ycol, zcol, colorCol, sizeCol) && NumRowsOf(table.columns, xcol, ycol, zcol) == 0 ==>
        points == [] && rebuilds == old(rebuilds) + [FullRebuild] &&
        domain.current == old(domain.current) && domain.domainSignals == old(domain.domainSignals))
      && (AreSourcesValid(table.columns, xcol, ycol, zcol, colorCol, sizeCol) && NumRowsOf(table.columns, xcol, ycol, zcol) > 0 &&
          Readable(from, count) ==>
        var n := NumRowsOf(table.columns, xcol, ycol, zcol);
        var range := ClampedRange(from, count, n);
        var lo, hi := range.0, range.0 + range.1;
        var xs, ys, zs := SeatSource(table.columns[xcol]), SeatSource(table.columns[ycol]), SeatSource(table.columns[zcol]);
        RangeRebuilt(n, lo, hi, xs, ys, zs))
    }

    /** set_clear: empty the caches and ask for a full instance rebuild. */
    method SetClear()
      modifies this`points, this`colors, this`scales, this`rebuilds
      ensures Valid() && points == [] && colors == [] && scales == []
      ensures rebuilds == old(rebuilds) + [FullRebuild]
    {
      points, colors, scales := [], [], [];
      rebuilds := rebuilds + [FullRebuild];
    }

    /** The position loop of rebuild_cache: write rows lo .. hi-1 and fold their bounds from the sentinels. */
    method RebuildPoints(xs: seq<real>, ys: seq<real>, zs: seq<real>, lo: nat, hi: nat) returns (newMin: Vec3, newMax: Vec3)
      requires |xs| > 0 && |ys| > 0 && |zs| > 0 && lo <= hi <= |points|
      modifies this`points
      ensures |points| == |old(points)|
      ensures forall r :: 0 <= r < |points| ==> points[r] == if lo <= r < hi then PointAt(xs, ys, zs, r) else old(points[r])
      ensures newMin == MinFold(Splat(FloatMax), RangePoints(xs, ys, zs, lo, hi))
      ensures newMax == MaxFold(Splat(-FloatMax), RangePoints(xs, ys, zs, lo, hi))
    {
      newMin := Splat(FloatMax);
      newMax := Splat(-FloatMax);
      var row := lo;
      while row < hi
        invariant lo <= row <= hi && |points| == |old(points)|
        invariant forall r :: 0 <= r < |points| ==> points[r] == if lo <= r < row then PointAt(xs, ys, zs, r) else old(points[r])
        invariant newMin == MinFold(Splat(FloatMax), RangePoints(xs, ys, zs, lo, row))
        invariant newMax == MaxFold(Splat(-FloatMax), RangePoints(xs, ys, zs, lo, row))
      {
        var p := Vec3(ModulusIndexed(xs, row), ModulusIndexed(ys, row), ModulusIndexed(zs, row));
        points := points[row := p];
        assert RangePoints(xs, ys, zs, lo, row + 1) == RangePoints(xs, ys, zs, lo, row) + [p];
        newMin := Min3(newMin, p);
        newMax := Max3(newMax, p);
        row := row + 1;
      }
    }

    /** Grow the three caches to n rows when they are shorter. */
    method GrowCaches(n: nat)
      requires Valid()
      modifies this`points, this`colors, this`scales
      ensures Valid()
      ensures points == Grown(old(points), n) && colors == Grown(old(colors), n) && scales == Grown(old(scales), n)
    {
      if n > |points| {
        points := Fit(points, n, Zero3);
        colors := Fit(colors, n, Zero3);
        scales := Fit(scales, n, Zero3);
      }
    }

    /** The colour loops of rebuild_cache over rows lo .. hi-1. */
    method RebuildColors(lo: nat, hi: nat)
      requires lo < hi <= |colors| && colorCol < |table.columns|
      requires colorCol >= 0 ==> ColumnSize(table.columns[colorCol]) > 0
      modifies this`colors
      ensures |colors| == |old(colors)|
      ensures forall r :: 0 <= r < |colors| ==>
        colors[r] == if lo <= r < hi then ColorAt(table.columns, colorCol, parseColor, r) else old(colors[r])
    {
      var cols, cc, parse := table.columns, colorCol, parseColor;
      if cc < 0 {
        colors := FillRange(colors, lo, hi, (r: nat) => ModulusIndexed([Splat(1.0)], r));
      } else if cols[cc].RealColumn? {
        var reals := cols[cc].reals;
        colors := FillRange(colors, lo, hi, (r: nat) => Splat(ModulusIndexed(reals, r)));
      } else {
        var strings := cols[cc].strings;
        colors := FillRange(colors, lo, hi, (r: nat) => parse(ModulusIndexed(strings, r)));
      }
    }

    /** The scale loops of rebuild_cache over rows lo .. hi-1; a string size column writes nothing. */
    method RebuildScales(lo: nat, hi: nat)
      requires lo < hi <= |scales| && sizeCol < |table.columns|
      requires sizeCol >= 0 ==> ColumnSize(table.columns[sizeCol]) > 0
      modifies this`scales
      ensures |scales| == |old(scales)|
      ensures forall r :: 0 <= r < |scales| ==>
        scales[r] == if lo <= r < hi && ScalesWritten(table.columns, sizeCol) then ScaleAt(table.columns, sizeCol, r) else old(scales[r])
    {
      var cols, sc := table.columns, sizeCol;
      if sc < 0 {
        scales := FillRange(scales, lo, hi, (r: nat) => ModulusIndexed([Splat(DefaultTableScale)], r));
      } else if cols[sc].RealColumn? {
        var reals := cols[sc].reals;
        scales := FillRange(scales, lo, hi, (r: nat) => Splat(ModulusIndexed(reals, r)));
      }
    }

    /** rebuild_cache(from, count), as CacheRebuilt states. */
    method RebuildCache(from: nat, count: nat)
      requires Valid()
      requires Readable(from, count)
      modifies this`points, this`colors, this`scales, this`rebuilds, domain`current, domain`domainSignals
      ensures Valid() && CacheRebuilt(from, count)
    {
      var cols := table.columns;
      if !AreSourcesValid(cols, xcol, ycol, zcol, colorCol, sizeCol) {
        return;
      }
      // The num_cols == 0 branch of the source is unreachable: valid sources name a column.
      var xRaw, yRaw, zRaw := cols[xcol], cols[ycol], cols[zcol];
      var numRows := Min(ColumnSize(xRaw), Min(ColumnSize(yRaw), ColumnSize(zRaw)));
      assert numRows == NumRowsOf(table.columns, xcol, ycol, zcol);
      if numRows == 0 {
        SetClear();
        return;
      }
      RebuildRows(from, count, numRows);
    }

    /** rebuild_cache once the sources are valid and the position columns share numRows > 0 rows. */
    method RebuildRows(from: nat, count: nat, numRows: nat)
      requires Valid() && Readable(from, count)
      requires AreSourcesValid(table.columns, xcol, ycol, zcol, colorCol, sizeCol)
      requires numRows == NumRowsOf(table.columns, xcol, ycol, zcol) && numRows > 0
      modifies this`points, this`colors, this`scales, this`rebuilds, domain`current, domain`domainSignals
      ensures Valid() && CacheRebuilt(from, count)
    {
      var cols := table.columns;
      var range := ClampedRange(from, count, numRows);
      var lo, hi := range.0, range.0 + range.1;
      var xs, ys, zs := SeatSource(cols[xcol]), SeatSource(cols[ycol]), SeatSource(cols[zcol]);
      RebuildRange(numRows, lo, hi, xs, ys, zs);
    }

    /** The body of rebuild_cache once the range [lo, hi) within n rows is known. */
    method RebuildRange(n: nat, lo: nat, hi: nat, xs: seq<real>, ys: seq<real>, zs: seq<real>)
      requires Valid() && lo <= hi <= n && |xs| > 0 && |ys| > 0 && |zs| > 0
      requires colorCol < |table.columns| && sizeCol < |table.columns|
      requires lo < hi ==> (colorCol >= 0 ==> ColumnSize(table.columns[colorCol]) > 0) &&
                           (sizeCol >= 0 ==> ColumnSize(table.columns[sizeCol]) > 0)
      modifies this`points, this`colors, this`scales, this`rebuilds, domain`current, domain`domainSignals
      ensures Valid() && RangeRebuilt(n, lo, hi, xs, ys, zs)
    {
      GrowCaches(n);
      RewriteRange(lo, hi, xs, ys, zs);
    }

    /**
     * The caches, the log and the domain after rows lo .. hi-1 of caches at
     * least hi long were rewritten: the rows in the range hold the rebuilt
     * values (a string size column leaves scales alone), the other rows keep
     * theirs, the range's instances are rebuilt and its bounds go to the domain.
     */
    twostate predicate RangeWritten(lo: nat, hi: nat, xs: seq<real>, ys: seq<real>, zs: seq<real>)
      reads this, table, domain
      requires lo <= hi && |xs| > 0 && |ys| > 0 && |zs| > 0
      requires colorCol < |table.columns| && sizeCol < |table.columns|
      requires lo < hi ==> (colorCol >= 0 ==> ColumnSize(table.columns[colorCol]) > 0) &&
                           (sizeCol >= 0 ==> ColumnSize(table.columns[sizeCol]) > 0)
    {
      && (|points| == |old(points)| && |colors| == |old(colors)| && |scales| == |old(scales)|)
      && (forall r :: 0 <= r < |points| ==>
        points[r] == (if lo <= r < hi then PointAt(xs, ys, zs, r) else old(points[r])))
      && (forall r :: 0 <= r < |colors| ==>
        colors[r] == (if lo <= r < hi then ColorAt(table.columns, colorCol, parseColor, r) else old(colors[r])))
      && (forall r :: 0 <= r < |scales| ==>
        scales[r] == (if lo <= r < hi && ScalesWritten(table.columns, sizeCol) then ScaleAt(table.columns, sizeCol, r)
                      else old(scales[r])))
      && (rebuilds == old(rebuilds) + [RangeRebuild(lo, hi - lo)])
      && (domain.current == UpdatedBounds(old(domain.current), old(domain.auto),
          MinFold(Splat(FloatMax), RangePoints(xs, ys, zs, lo, hi)),
          MaxFold(Splat(-FloatMax), RangePoints(xs, ys, zs, lo, hi))))
      && (domain.domainSignals == old(domain.domainSignals) +
          if BoundsUpdateApplies(old(domain.current), old(domain.auto),
               MinFold(Splat(FloatMax), RangePoints(xs, ys, zs, lo, hi)),
               MaxFold(Splat(-FloatMax), RangePoints(xs, ys, zs, lo, hi))) then 1 else 0)
    }

    /** The loops of rebuild_cache over rows lo .. hi-1 once the caches have grown, then the rebuild request and the bounds. */
    method RewriteRange(lo: nat, hi: nat, xs: seq<real>, ys: seq<real>, zs: seq<real>)
      requires Valid() && lo <= hi <= |points| && |xs| > 0 && |ys| > 0 && |zs| > 0
      requires colorCol < |table.columns| && sizeCol < |table.columns|
      requires lo < hi ==> (colorCol >= 0 ==> ColumnSize(table.columns[colorCol]) > 0) &&
                           (sizeCol >= 0 ==> ColumnSize(table.columns[sizeCol]) > 0)
      modifies this`points, this`colors, this`scales, this`rebuilds, domain`current, domain`domainSignals
      ensures Valid() && RangeWritten(lo, hi, xs, ys, zs)
    {
      var newMin, newMax := RebuildPoints(xs, ys, zs, lo, hi);
      if lo < hi {
        RebuildColors(lo, hi);
        RebuildScales(lo, hi);
      }
      rebuilds := rebuilds + [RangeRebuild(lo, hi - lo)];
      domain.AskUpdateInputBounds(newMin, newMax);
    }

    /**
     * set_columns: store the sources and the colour map, then rebuild every
     * row (rebuild_cache's default count is size_t(-1)).
     */
    method SetColumns(x: int, y: int, z: int, color: int, size: int, cmap: seq<(real, Vec3)>)
      requires Valid()
      requires AttributesReadable(table.columns, x, y, z, color, size, 0, AllRows)
      modifies this, domain`current, domain`domainSignals
      ensures Valid()
      ensures xcol == x && ycol == y && zcol == z && colorCol == color && sizeCol == size && colorMap == cmap
      ensures CacheRebuilt(0, AllRows)
    {
      xcol, ycol, zcol := x, y, z;
      colorCol, sizeCol := color, size;
      colorMap := cmap;
      assert points == old(points) && colors == old(colors) && scales == old(scales) && rebuilds == old(rebuilds);
      RebuildCache(0, AllRows);
    }

    /** on_table_updated: a row change in the source table rebuilds every row. */
    method OnTableUpdated()
      requires Valid() && Readable(0, AllRows)
      modifies this`points, this`colors, this`scales, this`rebuilds, domain`current, domain`domainSignals
      ensures Valid() && CacheRebuilt(0, AllRows)
    {
      RebuildCache(0, AllRows);
    }

    /**
     * The caches of the default sources x, y, z = columns 0, 1, 2 with no
     * colour or size column: empty without valid sources or rows, else one
     * entry per shared row, rows below m holding their point, white and the
     * default scale (m is the row count clamped to AllRows; rows beyond it
     * keep the zeros the caches grew with).
     */
    ghost predicate HoldsDefaultRows()
      reads this, table
    {
      var cols := table.columns;
      && Valid() && xcol == 0 && ycol == 1 && zcol == 2 && colorCol == -1 && sizeCol == -1 && colorMap == []
      && (!AreSourcesValid(cols, 0, 1, 2, -1, -1) || NumRowsOf(cols, 0, 1, 2) == 0 ==> points == [])
      && (AreSourcesValid(cols, 0, 1, 2, -1, -1) && NumRowsOf(cols, 0, 1, 2) > 0 ==>
        var n := NumRowsOf(cols, 0, 1, 2);
        var m := Min(n, AllRows);
        var xs, ys, zs := SeatSource(cols[0]), SeatSource(cols[1]), SeatSource(cols[2]);
        && |points| == n
        && (forall r :: 0 <= r < n ==> points[r] == if r < m then PointAt(xs, ys, zs, r) else Zero3)
        && (forall r :: 0 <= r < n ==> colors[r] == if r < m then Splat(1.0) else Zero3)
        && (forall r :: 0 <= r < n ==> scales[r] == if r < m then Splat(DefaultTableScale) else Zero3))
    }

    /**
     * One rebuild of every row with the default sources: the caches hold the
     * default rows, and the log entry and the domain's bounds request are
     * those of rebuild_cache(0, AllRows).
     */
    twostate predicate DefaultRowsRebuilt()
      reads this, table, domain
    {
      var cols := table.columns;
      && HoldsDefaultRows()
      && (!AreSourcesValid(cols, 0, 1, 2, -1, -1) ==>
        rebuilds == old(rebuilds) && domain.current == old(domain.current) && domain.domainSignals == old(domain.domainSignals))
      && (AreSourcesValid(cols, 0, 1, 2, -1, -1) && NumRowsOf(cols, 0, 1, 2) == 0 ==>
        rebuilds == old(rebuilds) + [FullRebuild] &&
        domain.current == old(domain.current) && domain.domainSignals == old(domain.domainSignals))
      && (AreSourcesValid(cols, 0, 1, 2, -1, -1) && NumRowsOf(cols, 0, 1, 2) > 0 ==>
        var m := Min(NumRowsOf(cols, 0, 1, 2), AllRows);
        var xs, ys, zs := SeatSource(cols[0]), SeatSource(cols[1]), SeatSource(cols[2]);
        && rebuilds == old(rebuilds) + [RangeRebuild(0, m)]
        && domain.current == UpdatedBounds(old(domain.current), old(domain.auto),
             MinFold(Splat(FloatMax), RangePoints(xs, ys, zs, 0, m)),
             MaxFold(Splat(-FloatMax), RangePoints(xs, ys, zs, 0, m)))
        && domain.domainSignals == old(domain.domainSignals) +
             if BoundsUpdateApplies(old(domain.current), old(domain.auto),
                  MinFold(Splat(FloatMax), RangePoints(xs, ys, zs, 0, m)),
                  MaxFold(Splat(-FloatMax), RangePoints(xs, ys, zs, 0, m))) then 1 else 0)
    }

    /** The constructor's set_columns(0, 1, 2, -1, -1, {}) on empty caches. */
    method SelectDefaultColumns()
      requires points == [] && colors == [] && scales == []
      modifies this, domain`current, domain`domainSignals
      ensures DefaultRowsRebuilt()
    {
      SetColumns(0, 1, 2, -1, -1, []);
      var cols := table.columns;
      if AreSourcesValid(cols, 0, 1, 2, -1, -1) && NumRowsOf(cols, 0, 1, 2) > 0 {
        assert ClampedRange(0, AllRows, NumRowsOf(cols, 0, 1, 2)) == (0, Min(NumRowsOf(cols, 0, 1, 2), AllRows));
      }
    }

    /** The constructor's on_table_updated() over the default rows: the same rows again. */
    method RebuildDefaultRows()
      requires HoldsDefaultRows()
      modifies this`points, this`colors, this`scales, this`rebuilds, domain`current, domain`domainSignals
      ensures DefaultRowsRebuilt()
    {
      OnTableUpdated();
      var cols := table.columns;
      if AreSourcesValid(cols, 0, 1, 2, -1, -1) && NumRowsOf(cols, 0, 1, 2) > 0 {
        assert ClampedRange(0, AllRows, NumRowsOf(cols, 0, 1, 2)) == (0, Min(NumRowsOf(cols, 0, 1, 2), AllRows));
      }
    }

    /**
     * The constructor: empty caches, the sources x, y, z = columns 0, 1, 2
     * with no colour or size column and an empty colour map, then two
     * rebuilds of every row (set_columns and on_table_updated each run
     * rebuild_cache); the second asks the domain for the same bounds again,
     * which leaves it unchanged and emits no second domain_updated.
     */
    constructor (t: SimpleTable, d: SharedDomain, parse: string -> Vec3)
      modifies d`current, d`domainSignals
      ensures table == t && domain == d && parseColor == parse
      ensures HoldsDefaultRows()
      ensures |points| == |colors| == |scales| == (if AreSourcesValid(t.columns, 0, 1, 2, -1, -1) then NumRowsOf(t.columns, 0, 1, 2) else 0)
      ensures !AreSourcesValid(t.columns, 0, 1, 2, -1, -1) ==>
        rebuilds == [] && d.current == old(d.current) && d.domainSignals == old(d.domainSignals)
      ensures AreSourcesValid(t.columns, 0, 1, 2, -1, -1) && NumRowsOf(t.columns, 0, 1, 2) == 0 ==>
        rebuilds == [FullRebuild, FullRebuild] && d.current == old(d.current) && d.domainSignals == old(d.domainSignals)
      ensures AreSourcesValid(t.columns, 0, 1, 2, -1, -1) && NumRowsOf(t.columns, 0, 1, 2) > 0 ==>
        var m := Min(NumRowsOf(t.columns, 0, 1, 2), AllRows);
        var xs, ys, zs := SeatSource(t.columns[0]), SeatSource(t.columns[1]), SeatSource(t.columns[2]);
        && rebuilds == [RangeRebuild(0, m), RangeRebuild(0, m)]
        && d.current == UpdatedBounds(old(d.current), old(d.auto),
             MinFold(Splat(FloatMax), RangePoints(xs, ys, zs, 0, m)),
             MaxFold(Splat(-FloatMax), RangePoints(xs, ys, zs, 0, m)))
        && d.domainSignals == old(d.domainSignals) +
             if BoundsUpdateApplies(old(d.current), old(d.auto),
                  MinFold(Splat(FloatMax), RangePoints(xs, ys, zs, 0, m)),
                  MaxFold(Splat(-FloatMax), RangePoints(xs, ys, zs, 0, m))) then 1 else 0
    {
      table, domain, parseColor := t, d, parse;
      points, colors, scales := [], [], [];
      xcol, ycol, zcol, colorCol, sizeCol := 0, 0, 0, -1, -1;
      colorMap := [];
      rebuilds := [];
      new;
      SelectDefaultColumns();
      RebuildDefaultRows();
      if AreSourcesValid(t.columns, 0, 1, 2, -1, -1) && NumRowsOf(t.columns, 0, 1, 2) > 0 {
        var m := Min(NumRowsOf(t.columns, 0, 1, 2), AllRows);
        var xs, ys, zs := SeatSource(t.columns[0]), SeatSource(t.columns[1]), SeatSource(t.columns[2]);
        UpdatedBoundsIdempotent(old(d.current), d.auto,
          MinFold(Splat(FloatMax), RangePoints(xs, ys, zs, 0, m)),
          MaxFold(Splat(-FloatMax), RangePoints(xs, ys, zs, 0, m)));
      }
    }
  }
}
