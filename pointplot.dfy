/**
 * PointPlot from src/pointplot.cpp: a scatter plot that stores its points in a
 * nine-column SimpleTable (positions, colour channels, scale channels) and
 * builds one instance per row from those columns.
 */
module PointPlots {
  import opened Vectors
  import opened Domains
  import opened Utility
  import opened SimpleTables
  import opened DataSources
  import opened ScatterCores

  /** The attribute slots of the column mapping. */
  datatype Slot = PX | PY | PZ | CR | CG | CB | SX | SY | SZ

  /** m_column_mapping[s]: operator[] of an unordered_map reads an absent slot as column 0. */
  function Mapped(mapping: map<Slot, int>, s: Slot): int {
    if s in mapping then mapping[s] else 0
  }

  /** The mapping the constructor assigns, 0 .. 8 in slot order. */
  const StandardMapping: map<Slot, int> :=
    map[PX := 0, PY := 1, PZ := 2, CR := 3, CG := 4, CB := 5, SX := 6, SY := 7, SZ := 8]

  const DefaultPointColor: Vec3 := Splat(1.0)
  const DefaultPointScale: Vec3 := Splat(0.02)

  function Component(v: Vec3, k: nat): real {
    if k == 0 then v.x else if k == 1 then v.y else v.z
  }

  /** Channel k of a table column: entry i is component k of src[i % |src|]. */
  function Channel(src: seq<Vec3>, n: nat, k: nat): (r: seq<real>)
    requires |src| > 0
    ensures |r| == n && forall i :: 0 <= i < n ==> r[i] == Component(src[i % |src|], k)
  {
    seq(n, i requires 0 <= i < n => Component(src[i % |src|], k))
  }

  /** The loop that fills the three channel columns of one attribute. */
  method FillChannels(src: seq<Vec3>, n: nat) returns (a: seq<real>, b: seq<real>, c: seq<real>)
    requires |src| > 0
    ensures a == Channel(src, n, 0) && b == Channel(src, n, 1) && c == Channel(src, n, 2)
  {
    a, b, c := seq(n, _ => 0.0), seq(n, _ => 0.0), seq(n, _ => 0.0);
    var i := 0;
    while i < n
      invariant 0 <= i <= n && |a| == n && |b| == n && |c| == n
      invariant forall j :: 0 <= j < i ==>
        a[j] == Component(src[j % |src|], 0) && b[j] == Component(src[j % |src|], 1) && c[j] == Component(src[j % |src|], 2)
    {
      var v := src[i % |src|];
      a, b, c := a[i := v.x], b[i := v.y], c[i := v.z];
      i := i + 1;
    }
  }

  /**
   * The nine columns the constructor hands to the table, in the order
   * x, y, z, r, g, b, sx, sy, sz; an empty colour or scale list is first
   * replaced by the single default.
   */
  function PointColumns(px: seq<real>, py: seq<real>, pz: seq<real>, colors: seq<Vec3>, scales: seq<Vec3>): (r: seq<LoadColumn>)
    ensures |r| == 9
  {
    var cs, ss := SeatSpan(colors, DefaultPointColor), SeatSpan(scales, DefaultPointScale);
    var n := |px|;
    [LoadColumn("x", px, []), LoadColumn("y", py, []), LoadColumn("z", pz, []),
     LoadColumn("r", Channel(cs, n, 0), []), LoadColumn("g", Channel(cs, n, 1), []), LoadColumn("b", Channel(cs, n, 2), []),
     LoadColumn("sx", Channel(ss, n, 0), []), LoadColumn("sy", Channel(ss, n, 1), []), LoadColumn("sz", Channel(ss, n, 2), [])]
  }

  function Stored(cols: seq<LoadColumn>): (r: seq<TableColumn>)
    ensures |r| == |cols| && forall i :: 0 <= i < |cols| ==> r[i] == StoredColumn(cols[i])
  {
    seq(|cols|, i requires 0 <= i < |cols| => StoredColumn(cols[i]))
  }

  /** The nine spans rebuild_instances reads from cols through a column mapping. */
  function MappedRef(cols: seq<TableColumn>, mapping: map<Slot, int>): ArrayRef {
    ArrayRef(GetDoublesAt(cols, Mapped(mapping, PX)), GetDoublesAt(cols, Mapped(mapping, PY)), GetDoublesAt(cols, Mapped(mapping, PZ)),
             GetDoublesAt(cols, Mapped(mapping, CR)), GetDoublesAt(cols, Mapped(mapping, CG)), GetDoublesAt(cols, Mapped(mapping, CB)),
             GetDoublesAt(cols, Mapped(mapping, SX)), GetDoublesAt(cols, Mapped(mapping, SY)), GetDoublesAt(cols, Mapped(mapping, SZ)))
  }

  /**
   * Read through the standard mapping, the stored table gives back the
   * positions, and for every colour and scale channel exactly |px| entries,
   * entry i being that component of colour or scale i modulo the list's
   * length (after the defaulting of an empty list).
   */
  lemma PointColumnsReadBack(px: seq<real>, py: seq<real>, pz: seq<real>, colors: seq<Vec3>, scales: seq<Vec3>)
    ensures var cs, ss := SeatSpan(colors, DefaultPointColor), SeatSpan(scales, DefaultPointScale);
      MappedRef(Stored(PointColumns(px, py, pz, colors, scales)), StandardMapping) ==
      ArrayRef(px, py, pz, Channel(cs, |px|, 0), Channel(cs, |px|, 1), Channel(cs, |px|, 2),
               Channel(ss, |px|, 0), Channel(ss, |px|, 1), Channel(ss, |px|, 2))
  {
    var cols := PointColumns(px, py, pz, colors, scales);
    var m := StandardMapping;
    assert Mapped(m, PX) == 0 && Mapped(m, PY) == 1 && Mapped(m, PZ) == 2;
    assert Mapped(m, CR) == 3 && Mapped(m, CG) == 4 && Mapped(m, CB) == 5;
    assert Mapped(m, SX) == 6 && Mapped(m, SY) == 7 && Mapped(m, SZ) == 8;
    StoredReals(cols, 0); StoredReals(cols, 1); StoredReals(cols, 2);
    StoredReals(cols, 3); StoredReals(cols, 4); StoredReals(cols, 5);
    StoredReals(cols, 6); StoredReals(cols, 7); StoredReals(cols, 8);
  }

  /** A stored load column reads back as its reals: a column without reals is stored as strings and reads as none. */
  lemma StoredReals(cols: seq<LoadColumn>, k: nat)
    requires k < |cols|
    ensures GetDoublesAt(Stored(cols), k) == cols[k].reals
  {
  }

  /** std::to_string of a non-negative integer. */
  function NatString(n: nat): string
    decreases n
  {
    var digit := ['0', '1', '2', '3', '4', '5', '6', '7', '8', '9'][n % 10];
    if n < 10 then [digit] else NatString(n / 10) + [digit]
  }

  function IntString(i: int): string {
    if i < 0 then "-" + NatString(-i) else NatString(i)
  }

  /** The column list and the mapping the constructor builds, next_column counting up from 3. */
  method Layout(px: seq<real>, py: seq<real>, pz: seq<real>, colors: seq<Vec3>, scales: seq<Vec3>)
    returns (columns: seq<LoadColumn>, m: map<Slot, int>)
    ensures columns == PointColumns(px, py, pz, colors, scales) && m == StandardMapping
  {
    var n := |px|;
    columns := [LoadColumn("x", px, []), LoadColumn("y", py, []), LoadColumn("z", pz, [])];
    m := map[PX := 0, PY := 1, PZ := 2];
    var nextColumn := 3;
    var cs := if colors == [] then [DefaultPointColor] else colors;
    var r, g, b := FillChannels(cs, n);
    columns := columns + [LoadColumn("r", r, []), LoadColumn("g", g, []), LoadColumn("b", b, [])];
    m := m[CR := nextColumn][CG := nextColumn + 1][CB := nextColumn + 2];
    nextColumn := nextColumn + 3;
    var ss := if scales == [] then [DefaultPointScale] else scales;
    var sx, sy, sz := FillChannels(ss, n);
    columns := columns + [LoadColumn("sx", sx, []), LoadColumn("sy", sy, []), LoadColumn("sz", sz, [])];
    m := m[SX := nextColumn][SY := nextColumn + 1][SZ := nextColumn + 2];
  }

  /**
   * The table the constructor creates and the mapping it assigns: the nine
   * columns stored under "Point Table <id>", read back through the mapping as
   * the positions.
   */
  method MakeTable(plotId: int, px: seq<real>, py: seq<real>, pz: seq<real>, colors: seq<Vec3>, scales: seq<Vec3>)
    returns (t: SimpleTable, m: map<Slot, int>)
    requires |py| >= |px| && |pz| >= |px|
    ensures fresh(t) && t.name == "Point Table " + IntString(plotId) && m == StandardMapping
    ensures t.columns == Stored(PointColumns(px, py, pz, colors, scales))
    ensures var ref := MappedRef(t.columns, m); ref.px == px && ref.py == py && ref.pz == pz && PositionsCover(ref)
  {
    var columns;
    columns, m := Layout(px, py, pz, colors, scales);
    t := new SimpleTable("Point Table " + IntString(plotId), columns);
    PointColumnsReadBack(px, py, pz, colors, scales);
  }

  /** The domain the constructor leaves: with points, the bounds of (px, py, pz) merged into cur. */
  function PointBounds(cur: Domain, auto: bool, px: seq<real>, py: seq<real>, pz: seq<real>): Domain
    requires |py| >= |px| && |pz| >= |px|
  {
    if px == [] then cur
    else UpdatedBounds(cur, auto, MinMax(Zip3(px, py, pz)).0, MinMax(Zip3(px, py, pz)).1)
  }

  /** The constructor's bounds request: with points, ask the domain for the bounds of (px, py, pz). */
  method AskPointBounds(d: SharedDomain, px: seq<real>, py: seq<real>, pz: seq<real>)
    requires |py| >= |px| && |pz| >= |px|
    modifies d`current, d`domainSignals
    ensures d.auto == old(d.auto)
    ensures d.current == PointBounds(old(d.current), d.auto, px, py, pz)
    ensures d.domainSignals == old(d.domainSignals) +
      if px != [] && BoundsUpdateApplies(old(d.current), d.auto, MinMax(Zip3(px, py, pz)).0, MinMax(Zip3(px, py, pz)).1) then 1 else 0
    ensures px != [] ==>
      UpdatedBounds(d.current, d.auto, MinMax(Zip3(px, py, pz)).0, MinMax(Zip3(px, py, pz)).1) == d.current
    ensures px != [] ==> !BoundsUpdateApplies(d.current, d.auto, MinMax(Zip3(px, py, pz)).0, MinMax(Zip3(px, py, pz)).1)
  {
    if |px| > 0 {
      var l, h := MinMaxOf(Zip3(px, py, pz));
      d.AskUpdateInputBounds(l, h);
      UpdatedBoundsIdempotent(old(d.current), d.auto, l, h);
    }
  }

  class PointPlot {
    const domain: SharedDomain
    const id: int
    const table: SimpleTable
    const scatter: ScatterCore
    var mapping: map<Slot, int>

    /** The nine spans rebuild_instances reads through the column mapping. */
    function Ref(): ArrayRef
      reads this, table
    {
      MappedRef(table.columns, mapping)
    }

    /** The position spans cover px, and the domain can be applied when there are rows. */
    ghost predicate Renderable()
      reads this, table, domain
    {
      PositionsCover(Ref()) && (Ref().px != [] ==> NonDegenerate(domain.current))
    }

    /**
     * The instances as the ArrayRef build leaves them for the mapped columns
     * and domain d: one blank instance without rows, else one per px row.
     */
    ghost predicate Built(d: Domain)
      reads this, table, scatter
    {
      var ref := Ref();
      && (ref.px == [] ==> scatter.instances == [Blank])
      && (ref.px != [] ==>
            PositionsCover(ref) && NonDegenerate(d) && |scatter.instances| == |ref.px| &&
            (forall i :: 0 <= i < |ref.px| ==> scatter.instances[i] == ArrayInstance(ref, d, i)))
    }

    /**
     * rebuild_instances: build the instances from the mapped columns with the
     * current domain, then, only when px is non-empty and auto updates are on,
     * ask the domain for the bounds of the points.
     */
    method RebuildInstances()
      requires Renderable()
      modifies scatter, domain`current, domain`domainSignals
      ensures Built(old(domain.current))
      ensures var ref := Ref();
        domain.current == (if ref.px != [] && old(domain.auto)
                              then UpdatedBounds(old(domain.current), old(domain.auto), MinMax(Zip3(ref.px, ref.py, ref.pz)).0, MinMax(Zip3(ref.px, ref.py, ref.pz)).1)
                              else old(domain.current))
      ensures var ref := Ref();
        domain.domainSignals == old(domain.domainSignals) +
          if ref.px != [] && BoundsUpdateApplies(old(domain.current), old(domain.auto), MinMax(Zip3(ref.px, ref.py, ref.pz)).0, MinMax(Zip3(ref.px, ref.py, ref.pz)).1) then 1 else 0
      ensures domain.auto == old(domain.auto)
    {
      var d := domain.current;
      var ref := Ref();
      scatter.BuildFromArrays(ref, d);
      if |ref.px| > 0 && domain.auto {
        var l, h := MinMaxOf(Zip3(ref.px, ref.py, ref.pz));
        domain.AskUpdateInputBounds(l, h);
      }
    }

    /** domain_updated: rebuild the instances (the new domain is read from the host). */
    method DomainUpdated(d: Domain)
      requires Renderable()
      modifies scatter, domain`current, domain`domainSignals
      ensures Built(old(domain.current))
      ensures var ref := Ref();
        domain.current == (if ref.px != [] && old(domain.auto)
                              then UpdatedBounds(old(domain.current), old(domain.auto), MinMax(Zip3(ref.px, ref.py, ref.pz)).0, MinMax(Zip3(ref.px, ref.py, ref.pz)).1)
                              else old(domain.current))
      ensures var ref := Ref();
        domain.domainSignals == old(domain.domainSignals) +
          if ref.px != [] && BoundsUpdateApplies(old(domain.current), old(domain.auto), MinMax(Zip3(ref.px, ref.py, ref.pz)).0, MinMax(Zip3(ref.px, ref.py, ref.pz)).1) then 1 else 0
      ensures domain.auto == old(domain.auto)
    {
      RebuildInstances();
    }

    /** on_table_updated: rebuild the instances from the changed table. */
    method OnTableUpdated()
      requires Renderable()
      modifies scatter, domain`current, domain`domainSignals
      ensures Built(old(domain.current))
      ensures var ref := Ref();
        domain.current == (if ref.px != [] && old(domain.auto)
                              then UpdatedBounds(old(domain.current), old(domain.auto), MinMax(Zip3(ref.px, ref.py, ref.pz)).0, MinMax(Zip3(ref.px, ref.py, ref.pz)).1)
                              else old(domain.current))
      ensures var ref := Ref();
        domain.domainSignals == old(domain.domainSignals) +
          if ref.px != [] && BoundsUpdateApplies(old(domain.current), old(domain.auto), MinMax(Zip3(ref.px, ref.py, ref.pz)).0, MinMax(Zip3(ref.px, ref.py, ref.pz)).1) then 1 else 0
      ensures domain.auto == old(domain.auto)
    {
      RebuildInstances();
    }

    /**
     * The constructor: the nine columns x, y, z, r, g, b, sx, sy, sz go to a
     * table named "Point Table <id>" and the mapping is PX..SZ = 0..8; with
     * points the bounds of (px, py, pz) are asked for, and the instances are
     * built once.
     */
    constructor (d: SharedDomain, plotId: int, px: seq<real>, py: seq<real>, pz: seq<real>, colors: seq<Vec3>, scales: seq<Vec3>)
      requires |py| >= |px| && |pz| >= |px|
      requires px != [] ==> NonDegenerate(PointBounds(d.current, d.auto, px, py, pz))
      modifies d
      ensures d.auto == old(d.auto) && d.labelSignals == old(d.labelSignals)
      ensures d.xTitle == old(d.xTitle) && d.yTitle == old(d.yTitle) && d.zTitle == old(d.zTitle)
      ensures domain == d && id == plotId && mapping == StandardMapping && fresh(table) && fresh(scatter)
      ensures table.name == "Point Table " + IntString(plotId)
      ensures table.columns == Stored(PointColumns(px, py, pz, colors, scales))
      ensures Ref().px == px && Ref().py == py && Ref().pz == pz
      ensures Renderable()
      ensures d.current == PointBounds(old(d.current), d.auto, px, py, pz)
      ensures d.domainSignals == old(d.domainSignals) +
        if px != [] && BoundsUpdateApplies(old(d.current), d.auto, MinMax(Zip3(px, py, pz)).0, MinMax(Zip3(px, py, pz)).1) then 1 else 0
      ensures Built(d.current)
      ensures px == [] ==> scatter.instances == [Blank]
    {
      var t, m := MakeTable(plotId, px, py, pz, colors, scales);
      domain, id, mapping, table := d, plotId, m, t;
      scatter := new ScatterCore();
      new;
      ghost var cols := table.columns;
      Start(px, py, pz);
      assert table.columns == cols;
    }

    /** The end of the constructor: with points ask for their bounds, then build the instances once. */
    method Start(px: seq<real>, py: seq<real>, pz: seq<real>)
      requires Ref().px == px && Ref().py == py && Ref().pz == pz && PositionsCover(Ref())
      requires px != [] ==> NonDegenerate(PointBounds(domain.current, domain.auto, px, py, pz))
      modifies scatter, domain
      ensures domain.auto == old(domain.auto) && domain.labelSignals == old(domain.labelSignals)
      ensures domain.xTitle == old(domain.xTitle) && domain.yTitle == old(domain.yTitle) && domain.zTitle == old(domain.zTitle)
      ensures domain.current == PointBounds(old(domain.current), old(domain.auto), px, py, pz)
      ensures domain.domainSignals == old(domain.domainSignals) +
        if px != [] && BoundsUpdateApplies(old(domain.current), old(domain.auto), MinMax(Zip3(px, py, pz)).0, MinMax(Zip3(px, py, pz)).1) then 1 else 0
      ensures Renderable() && Built(domain.current)
      ensures px == [] ==> scatter.instances == [Blank]
    {
      AskPointBounds(domain, px, py, pz);
      ghost var asked := domain.current;
      assert Renderable();
      RebuildInstances();
      assert domain.current == asked;
    }
  }
}
