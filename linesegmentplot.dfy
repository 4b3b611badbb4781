/**
 * LineSegmentPlot from src/linesegmentplot.cpp: a plot of tube instances, one
 * per pair of points, and the shared tube mesh whose 1-based face table is
 * rebased to 0-based triangles.
 */
module LineSegmentPlots {
  import opened Vectors
  import opened Domains
  import opened Sequences
  import opened Utility
  import opened ScatterCores

  // ------------------------------------------------------------- tube mesh

  const TubeVertices: seq<Vec3> := [
    Vec3(-0.5, 0.0, -1.0), Vec3(0.5, 0.0, -1.0),
    Vec3(0.5, -0.866025, -0.5), Vec3(-0.5, -0.866026, -0.5),
    Vec3(0.5, -0.866025, 0.5), Vec3(-0.5, -0.866026, 0.5),
    Vec3(0.5, 0.0, 1.0), Vec3(-0.5, 0.0, 1.0),
    Vec3(0.5, 0.866026, 0.5), Vec3(-0.5, 0.866025, 0.5),
    Vec3(0.5, 0.866026, -0.5), Vec3(-0.5, 0.866025, -0.5)]

  const TubeNormals: seq<Vec3> := [
    Vec3(0.0, 0.0, -1.0), Vec3(0.0, -0.5, -0.866),
    Vec3(0.0, -1.0, 0.0), Vec3(0.0, -0.866, 0.5),
    Vec3(0.0, 0.0, 1.0), Vec3(0.0, 0.866, 0.5),
    Vec3(0.0, 0.866, -0.5)]

  /** One face row: 1-based (vertex, normal) pairs for the three corners. */
  const TubeFaces: seq<seq<int>> := [
    [1, 1, 3, 2, 4, 2], [3, 3, 6, 4, 4, 3], [5, 4, 8, 5, 6, 4],
    [7, 5, 10, 6, 8, 5], [9, 6, 12, 7, 10, 6], [12, 7, 2, 1, 1, 1],
    [1, 1, 2, 1, 3, 2], [3, 3, 5, 4, 6, 4], [5, 4, 7, 5, 8, 5],
    [7, 5, 9, 6, 10, 6], [9, 6, 11, 7, 12, 7], [12, 7, 11, 7, 2, 1]]

  /** Every 1-based vertex entry names one of nv vertices and every normal entry one of nn normals. */
  predicate FaceInRange(a: seq<int>, nv: nat, nn: nat) {
    |a| == 6 &&
    1 <= a[0] <= nv && 1 <= a[2] <= nv && 1 <= a[4] <= nv &&
    1 <= a[1] <= nn && 1 <= a[3] <= nn && 1 <= a[5] <= nn
  }

  predicate FacesInRange(faces: seq<seq<int>>, nv: nat, nn: nat) {
    forall f :: 0 <= f < |faces| ==> FaceInRange(faces[f], nv, nn)
  }

  /** The face table indexes only the tube's 12 vertices and 7 normals, so rebasing by one stays in bounds. */
  lemma TubeFacesInRange()
    ensures |TubeVertices| == 12 && |TubeNormals| == 7 && |TubeFaces| == 12
    ensures FacesInRange(TubeFaces, |TubeVertices|, |TubeNormals|)
  {
    forall f | 0 <= f < |TubeFaces| ensures FaceInRange(TubeFaces[f], 12, 7) {
      TubeFaceInRange(f);
    }
  }

  /** One row of the face table indexes only the tube's 12 vertices and 7 normals. */
  lemma TubeFaceInRange(f: nat)
    requires f < 12
    ensures FaceInRange(TubeFaces[f], 12, 7)
  {
    if f < 4 {
      assert FaceInRange(TubeFaces[0], 12, 7) && FaceInRange(TubeFaces[1], 12, 7);
      assert FaceInRange(TubeFaces[2], 12, 7) && FaceInRange(TubeFaces[3], 12, 7);
    } else if f < 8 {
      assert FaceInRange(TubeFaces[4], 12, 7) && FaceInRange(TubeFaces[5], 12, 7);
      assert FaceInRange(TubeFaces[6], 12, 7) && FaceInRange(TubeFaces[7], 12, 7);
    } else {
      assert FaceInRange(TubeFaces[8], 12, 7) && FaceInRange(TubeFaces[9], 12, 7);
      assert FaceInRange(TubeFaces[10], 12, 7) && FaceInRange(TubeFaces[11], 12, 7);
    }
  }

  /** The triangle of a face row: its three vertex entries rebased to 0. */
  function Triangle(a: seq<int>): (int, int, int)
    requires |a| == 6
  {
    (a[0] - 1, a[2] - 1, a[4] - 1)
  }

  /** The normal list after one face row: each corner's vertex gets its corner's normal. */
  function WriteFace(ns: seq<Vec3>, a: seq<int>, normals: seq<Vec3>): (r: seq<Vec3>)
    requires FaceInRange(a, |ns|, |normals|)
    ensures |r| == |ns|
  {
    ns[a[0] - 1 := normals[a[1] - 1]][a[2] - 1 := normals[a[3] - 1]][a[4] - 1 := normals[a[5] - 1]]
  }

  /** The normal list after the face rows in order; a later row overwrites an earlier one. */
  function NormalsAfter(ns: seq<Vec3>, faces: seq<seq<int>>, normals: seq<Vec3>): (r: seq<Vec3>)
    requires FacesInRange(faces, |ns|, |normals|)
    ensures |r| == |ns|
    decreases |faces|
  {
    if faces == [] then ns
    else WriteFace(NormalsAfter(ns, faces[..|faces| - 1], normals), faces[|faces| - 1], normals)
  }

  predicate Touches(a: seq<int>, v: int)
    requires |a| == 6
  {
    a[0] - 1 == v || a[2] - 1 == v || a[4] - 1 == v
  }

  /**
   * A vertex some face row touches ends with a normal from the table, the one
   * its last touching corner names; an untouched one keeps its initial value.
   */
  lemma {:induction false} NormalsFromTable(ns: seq<Vec3>, faces: seq<seq<int>>, normals: seq<Vec3>, v: nat)
    requires FacesInRange(faces, |ns|, |normals|) && v < |ns|
    ensures (exists f :: 0 <= f < |faces| && Touches(faces[f], v)) ==> NormalsAfter(ns, faces, normals)[v] in normals
    ensures (forall f :: 0 <= f < |faces| ==> !Touches(faces[f], v)) ==> NormalsAfter(ns, faces, normals)[v] == ns[v]
    decreases |faces|
  {
    if faces != [] {
      var init := faces[..|faces| - 1];
      assert FacesInRange(init, |ns|, |normals|) by {
        forall f | 0 <= f < |init| ensures FaceInRange(init[f], |ns|, |normals|) {
          assert init[f] == faces[f];
        }
      }
      NormalsFromTable(ns, init, normals, v);
      var last := faces[|faces| - 1];
      if !Touches(last, v) {
        if exists f :: 0 <= f < |faces| && Touches(faces[f], v) {
          var f :| 0 <= f < |faces| && Touches(faces[f], v);
          assert f < |init| && init[f] == faces[f];
        }
        if forall f :: 0 <= f < |faces| ==> !Touches(faces[f], v) {
          forall f | 0 <= f < |init| ensures !Touches(init[f], v) {
            assert init[f] == faces[f];
          }
        }
      } else {
        assert !(forall f :: 0 <= f < |faces| ==> !Touches(faces[f], v)) by {
          assert Touches(faces[|faces| - 1], v);
        }
      }
    }
  }

  /** Every tube vertex is a corner of some face, so each ends with a normal from the normal table. */
  lemma TubeNormalsAssigned(v: nat)
    requires v < 12
    ensures FacesInRange(TubeFaces, 12, 7) && NormalsAfter(seq(12, _ => Zero3), TubeFaces, TubeNormals)[v] in TubeNormals
  {
    TubeFacesInRange();
    var f := if v in {0, 2, 3} then 0 else if v in {5} then 1 else if v in {4, 7} then 2
      else if v in {6, 9} then 3 else if v in {8, 11} then 4 else if v == 1 then 5 else 10;
    assert Touches(TubeFaces[f], v);
    NormalsFromTable(seq(12, _ => Zero3), TubeFaces, TubeNormals, v);
  }

  /** Extending the processed prefix of the face rows by one row applies that row's writes. */
  lemma NormalsAfterPrefix(ns: seq<Vec3>, faces: seq<seq<int>>, normals: seq<Vec3>, k: nat)
    requires FacesInRange(faces, |ns|, |normals|) && k < |faces|
    ensures FacesInRange(faces[..k], |ns|, |normals|) && FacesInRange(faces[..k + 1], |ns|, |normals|)
    ensures NormalsAfter(ns, faces[..k + 1], normals) == WriteFace(NormalsAfter(ns, faces[..k], normals), faces[k], normals)
  {
    assert faces[..k + 1][..k] == faces[..k];
    assert faces[..k + 1][k] == faces[k];
  }

  /** One face row of the mesh loop: each corner's vertex gets its corner's normal. */
  method WriteCorners(ns: seq<Vec3>, a: seq<int>, normals: seq<Vec3>) returns (r: seq<Vec3>, t: (int, int, int))
    requires FaceInRange(a, |ns|, |normals|)
    ensures r == WriteFace(ns, a, normals) && t == Triangle(a)
  {
    var va, na := a[0] - 1, a[1] - 1;
    var vb, nb := a[2] - 1, a[3] - 1;
    var vc, nc := a[4] - 1, a[5] - 1;
    r := ns[va := normals[na]];
    r := r[vb := normals[nb]];
    r := r[vc := normals[nc]];
    t := (va, vb, vc);
  }

  /** The mesh loop over a face table: the normals after every row's writes, and one rebased triangle per row. */
  method MeshLoop(ns0: seq<Vec3>, faces: seq<seq<int>>, normals: seq<Vec3>) returns (ns: seq<Vec3>, fs: seq<(int, int, int)>)
    requires FacesInRange(faces, |ns0|, |normals|)
    ensures ns == NormalsAfter(ns0, faces, normals)
    ensures |fs| == |faces| && forall f :: 0 <= f < |faces| ==> fs[f] == Triangle(faces[f])
  {
    ns, fs := ns0, [];
    var k := 0;
    while k < |faces|
      invariant 0 <= k <= |faces| && |ns| == |ns0| && |fs| == k
      invariant FacesInRange(faces[..k], |ns0|, |normals|)
      invariant ns == NormalsAfter(ns0, faces[..k], normals)
      invariant forall f :: 0 <= f < k ==> fs[f] == Triangle(faces[f])
    {
      NormalsAfterPrefix(ns0, faces, normals, k);
      var t;
      ns, t := WriteCorners(ns, faces[k], normals);
      fs := fs + [t];
      k := k + 1;
    }
    assert faces[..k] == faces;
  }

  /**
   * build_common_tube's mesh: the normals list is resized to the vertex count,
   * then every face row writes the normals of its three corners and emits one
   * triangle with its vertex entries rebased to 0, each naming a tube vertex.
   */
  method BuildCommonTube() returns (ns: seq<Vec3>, fs: seq<(int, int, int)>)
    ensures |ns| == |TubeVertices| && |fs| == |TubeFaces|
    ensures FacesInRange(TubeFaces, 12, 7) && ns == NormalsAfter(seq(12, _ => Zero3), TubeFaces, TubeNormals)
    ensures forall f :: 0 <= f < |fs| ==> fs[f] == Triangle(TubeFaces[f])
    ensures forall f :: 0 <= f < |fs| ==>
      0 <= fs[f].0 < |TubeVertices| && 0 <= fs[f].1 < |TubeVertices| && 0 <= fs[f].2 < |TubeVertices|
  {
    TubeFacesInRange();
    ns := Fit([], |TubeVertices|, Zero3);
    assert ns == seq(12, _ => Zero3);
    ns, fs := MeshLoop(ns, TubeFaces, TubeNormals);
    forall f | 0 <= f < |fs|
      ensures 0 <= fs[f].0 < 12 && 0 <= fs[f].1 < 12 && 0 <= fs[f].2 < 12
    {
      assert FaceInRange(TubeFaces[f], 12, 7);
    }
  }

  // ---------------------------------------------------------------- the plot

  /** Instance i: the transformed point with w 1, the colour with w 0, the reserved column, and (sx, sy, 1, 1). */
  function SegmentInstance(d: Domain, p: Vec3, color: Vec3, scale: Vec2): (m: Mat4)
    requires NonDegenerate(d)
    ensures m.c0 == Extend(Transform(d, p), 1.0) && m.c1 == Extend(color, 0.0) && m.c2 == Reserved
    ensures m.c3 == Vec4(scale.x, scale.y, 1.0, 1.0)
  {
    Mat4(Extend(Transform(d, p), 1.0), Extend(color, 0.0), Reserved, Vec4(scale.x, scale.y, 1.0, 1.0))
  }

  const DefaultSegmentColor: Vec3 := Splat(1.0)
  const DefaultSegmentScale: Vec2 := Vec2(1.0, 1.0)

  class LineSegmentPlot {
    const domain: SharedDomain
    var points: seq<Vec3>
    var colors: seq<Vec3>
    var scales: seq<Vec2>
    var instances: seq<Mat4>

    /** The instance rebuild_instances leaves at row i: the i-th point, not a pair, with broadcast colour and scale. */
    function InstanceAt(d: Domain, i: nat): Mat4
      reads this
      requires NonDegenerate(d) && i < |points|
    {
      SegmentInstance(d, points[i], ModulusIndexed(SeatSpan(colors, DefaultSegmentColor), i),
                      ModulusIndexed(SeatSpan(scales, DefaultSegmentScale), i))
    }

    /**
     * rebuild_instances: one instance per pair of points (integer division),
     * none and an early return when there is less than a pair; instance i is
     * built from point i with the current domain.
     */
    method RebuildInstances()
      requires |points| / 2 > 0 ==> NonDegenerate(domain.current)
      modifies this`instances
      ensures |instances| == |points| / 2
      ensures forall i :: 0 <= i < |instances| ==> instances[i] == InstanceAt(domain.current, i)
    {
      var numRows := |points| / 2;
      instances := Fit(instances, numRows, Blank);
      if |instances| == 0 {
        return;
      }
      var colArray := if |colors| > 0 then colors else [DefaultSegmentColor];
      var scaleArray := if |scales| > 0 then scales else [DefaultSegmentScale];
      var d := domain.current;
      var i := 0;
      while i < numRows
        invariant 0 <= i <= numRows && |instances| == numRows
        invariant forall j :: 0 <= j < i ==> instances[j] == InstanceAt(d, j)
      {
        var m := Mat4(Extend(Transform(d, points[i]), 1.0), Extend(colArray[i % |colArray|], 0.0), Reserved,
                      Vec4(scaleArray[i % |scaleArray|].x, scaleArray[i % |scaleArray|].y, 1.0, 1.0));
        instances := instances[i := m];
        i := i + 1;
      }
    }

    /** domain_updated: rebuild the instances with the host's current domain. */
    method DomainUpdated(d: Domain)
      requires |points| / 2 > 0 ==> NonDegenerate(domain.current)
      modifies this`instances
      ensures |instances| == |points| / 2
      ensures forall i :: 0 <= i < |instances| ==> instances[i] == InstanceAt(domain.current, i)
    {
      RebuildInstances();
    }

    /** The point packing loop of the constructor. */
    static method PackPoints(px: seq<real>, py: seq<real>, pz: seq<real>) returns (pts: seq<Vec3>)
      requires |py| >= |px| && |pz| >= |px|
      ensures pts == Zip3(px, py, pz)
    {
      pts := Fit([], |px|, Zero3);
      var i := 0;
      while i < |px|
        invariant 0 <= i <= |px| && |pts| == |px|
        invariant forall j :: 0 <= j < i ==> pts[j] == Vec3(px[j], py[j], pz[j])
      {
        pts := pts[i := Vec3(px[i], py[i], pz[i])];
        i := i + 1;
      }
    }

    /**
     * The constructor: point i is (px[i], py[i], pz[i]); the bounds of the
     * points are asked for unconditionally (zero vectors when there are none),
     * then the instances are built.
     */
    constructor (d: SharedDomain, px: seq<real>, py: seq<real>, pz: seq<real>, cols: seq<Vec3>, scls: seq<Vec2>)
      requires |py| >= |px| && |pz| >= |px|
      requires |px| / 2 > 0 ==> NonDegenerate(UpdatedBounds(d.current, d.auto, MinMax(Zip3(px, py, pz)).0, MinMax(Zip3(px, py, pz)).1))
      modifies d`current, d`domainSignals
      ensures domain == d && points == Zip3(px, py, pz) && colors == cols && scales == scls
      ensures d.current == UpdatedBounds(old(d.current), old(d.auto), MinMax(points).0, MinMax(points).1)
      ensures d.domainSignals == old(d.domainSignals) +
        if BoundsUpdateApplies(old(d.current), old(d.auto), MinMax(points).0, MinMax(points).1) then 1 else 0
      ensures |instances| == |px| / 2
      ensures forall i :: 0 <= i < |instances| ==> instances[i] == InstanceAt(d.current, i)
    {
      domain := d;
      colors, scales := cols, scls;
      instances := [];
      var pts := PackPoints(px, py, pz);
      points := pts;
      new;
      var l, h := MinMaxOf(points);
      d.AskUpdateInputBounds(l, h);
      RebuildInstances();
    }
  }
}
