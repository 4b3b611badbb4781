/**
 * ScatterCore from src/scattercore.cpp: the per-instance records (position,
 * colour, reserved column, scale) a point plot sends for rendering, with the
 * broadcast rule that reads a short attribute list at i modulo its length.
 */
module ScatterCores {
  import opened Vectors
  import opened Domains
  import opened Sequences

  /** modulus_indexed: t[index % |t|]; the span must not be empty. */
  function ModulusIndexed<T>(t: seq<T>, index: nat): (r: T)
    requires |t| > 0
    ensures r in t
    ensures index < |t| ==> r == t[index]
    ensures |t| == 1 ==> r == t[0]
  {
    t[index % |t|]
  }

  /** seat_span: the source when it is non-empty, else a one-element span holding def. */
  function SeatSpan<T>(source: seq<T>, def: T): (r: seq<T>)
    ensures |r| > 0
    ensures source != [] ==> r == source
    ensures source == [] ==> r == [def]
  {
    if |source| > 0 then source else [def]
  }

  /** Reading count rows from a span of exactly count values is the span itself, one value per row. */
  lemma BroadcastOneToOne<T>(t: seq<T>)
    requires |t| > 0
    ensures seq(|t|, i requires 0 <= i < |t| => ModulusIndexed(t, i)) == t
  {
  }

  /** A filler for freshly resized instance slots; every slot is overwritten before use. */
  const Blank: Mat4 := Mat4(Reserved, Reserved, Reserved, Reserved)

  /** The record of one instance: position (transformed, w 1), colour (w 1), the reserved column, scale (w 1). */
  function InstanceOf(d: Domain, p: Vec3, color: Vec3, scale: Vec3): (m: Mat4)
    requires NonDegenerate(d)
    ensures m.c0.w == 1.0 && m.c1.w == 1.0 && m.c2 == Reserved && m.c3.w == 1.0
    ensures m.c1 == Extend(color, 1.0) && m.c3 == Extend(scale, 1.0)
    ensures p == d.inputMin ==> m.c0 == Extend(d.outputMin, 1.0)
  {
    Mat4(Extend(Transform(d, p), 1.0), Extend(color, 1.0), Reserved, Extend(scale, 1.0))
  }

  /** The per-axis spans of the ArrayRef overload. */
  datatype ArrayRef = ArrayRef(px: seq<real>, py: seq<real>, pz: seq<real>,
                               cr: seq<real>, cg: seq<real>, cb: seq<real>,
                               sx: seq<real>, sy: seq<real>, sz: seq<real>)

  /** Every position span covers the px rows the ArrayRef overload reads. */
  predicate PositionsCover(ref: ArrayRef) {
    |ref.py| >= |ref.px| && |ref.pz| >= |ref.px|
  }

  const DefaultColor: real := 1.0
  const DefaultArrayScale: real := 0.05

  /** Instance i of the ArrayRef overload: every colour and scale channel broadcast on its own. */
  function ArrayInstance(ref: ArrayRef, d: Domain, i: nat): Mat4
    requires PositionsCover(ref) && i < |ref.px| && NonDegenerate(d)
  {
    InstanceOf(d, Vec3(ref.px[i], ref.py[i], ref.pz[i]),
      Vec3(ModulusIndexed(SeatSpan(ref.cr, DefaultColor), i),
           ModulusIndexed(SeatSpan(ref.cg, DefaultColor), i),
           ModulusIndexed(SeatSpan(ref.cb, DefaultColor), i)),
      Vec3(ModulusIndexed(SeatSpan(ref.sx, DefaultArrayScale), i),
           ModulusIndexed(SeatSpan(ref.sy, DefaultArrayScale), i),
           ModulusIndexed(SeatSpan(ref.sz, DefaultArrayScale), i)))
  }

  class ScatterCore {
    var instances: seq<Mat4>

    constructor ()
      ensures instances == []
    {
      instances := [];
    }

    /**
     * The vec3 overload: no points clears the instances; otherwise there is one
     * instance per point, and an empty colour or scale list is replaced by the
     * single default 1, read at i modulo the list's length.
     */
    method BuildFromVectors(points: seq<Vec3>, colors: seq<Vec3>, scales: seq<Vec3>, d: Domain)
      requires points != [] ==> NonDegenerate(d)
      modifies this`instances
      ensures |instances| == |points|
      ensures forall i :: 0 <= i < |points| ==>
        instances[i] == InstanceOf(d, points[i], ModulusIndexed(SeatSpan(colors, Splat(1.0)), i),
                                   ModulusIndexed(SeatSpan(scales, Splat(1.0)), i))
    {
      var count := |points|;
      if count == 0 {
        instances := [];
        return;
      }
      instances := Fit(instances, count, Blank);
      var colArray := if |colors| > 0 then colors else [Splat(1.0)];
      var scaleArray := if |scales| > 0 then scales else [Splat(1.0)];
      var i := 0;
      while i < count
        invariant 0 <= i <= count && |instances| == count
        invariant forall j :: 0 <= j < i ==>
          instances[j] == InstanceOf(d, points[j], ModulusIndexed(SeatSpan(colors, Splat(1.0)), j),
                                     ModulusIndexed(SeatSpan(scales, Splat(1.0)), j))
      {
        instances := instances[i := InstanceOf(d, points[i], colArray[i % |colArray|], scaleArray[i % |scaleArray|])];
        i := i + 1;
      }
    }

    /**
     * The ArrayRef overload: no px rows leaves exactly one instance whose four
     * columns are (0,0,0,1); otherwise the instances are replaced by one per px
     * row, each channel defaulting to colour 1 and scale 0.05 on its own.
     */
    method BuildFromArrays(ref: ArrayRef, d: Domain)
      requires PositionsCover(ref)
      requires ref.px != [] ==> NonDegenerate(d)
      modifies this`instances
      ensures ref.px == [] ==> instances == [Blank]
      ensures ref.px != [] ==> |instances| == |ref.px| && forall i :: 0 <= i < |ref.px| ==> instances[i] == ArrayInstance(ref, d, i)
    {
      var count := |ref.px|;
      if count == 0 {
        instances := [];
        instances := instances + [Mat4(Reserved, Reserved, Reserved, Reserved)];
        return;
      }
      instances := Fit(instances, count, Blank);
      var colR := SeatSpan(ref.cr, DefaultColor);
      var colG := SeatSpan(ref.cg, DefaultColor);
      var colB := SeatSpan(ref.cb, DefaultColor);
      var scaleX := SeatSpan(ref.sx, DefaultArrayScale);
      var scaleY := SeatSpan(ref.sy, DefaultArrayScale);
      var scaleZ := SeatSpan(ref.sz, DefaultArrayScale);
      var i := 0;
      while i < count
        invariant 0 <= i <= count && |instances| == count
        invariant forall j :: 0 <= j < i ==> instances[j] == ArrayInstance(ref, d, j)
      {
        var p := Vec3(ref.px[i], ref.py[i], ref.pz[i]);
        var c := Vec3(ModulusIndexed(colR, i), ModulusIndexed(colG, i), ModulusIndexed(colB, i));
        var s := Vec3(ModulusIndexed(scaleX, i), ModulusIndexed(scaleY, i), ModulusIndexed(scaleZ, i));
        instances := instances[i := InstanceOf(d, p, c, s)];
        i := i + 1;
      }
    }
  }
}
