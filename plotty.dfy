/**
 * The method-argument decoders of src/plotty.cpp: colours, colour lists,
 * scale lists and forced vec3 values. The reals a CBOR value is coerced to
 * (noo::coerce_to_real_list) arrive as a list of reals.
 */
module Arguments {
  import opened Vectors
  import opened Cbor

  /**
   * The value decode_color reads for channel k of an array: entry k's double,
   * its integer as a real (not scaled by 255), or 0 when the entry is missing
   * or not a number.
   */
  function Channel(items: seq<Value>, k: nat): real {
    if k >= |items| then 0.0
    else if items[k].Double? then items[k].d
    else if items[k].Integer? then items[k].i as real
    else 0.0
  }

  /**
   * decode_color: a string is parsed as a colour name (QColor's parser, a
   * parameter here); an array gives its first three elements as doubles, 0
   * for a missing or non-number one; an integer v gives v/255 in every
   * channel, a double d gives d; anything else is white.
   */
  function DecodeColor(v: Value, parse: string -> Vec3): (c: Vec3)
    ensures v.Integer? ==> c == Splat(v.i as real / 255.0)
    ensures v.Double? ==> c == Splat(v.d)
    ensures v.Text? ==> c == parse(v.s)
    ensures v.Array? ==> c == Vec3(Channel(v.items, 0), Channel(v.items, 1), Channel(v.items, 2))
    ensures !(v.Integer? || v.Double? || v.Text? || v.Array?) ==> c == Splat(1.0)
  {
    match v
    case Text(s) => parse(s)
    case Array(_) =>
      var arr := ToArray(v);
      Vec3(ToDouble(At(arr, 0), 0.0), ToDouble(At(arr, 1), 0.0), ToDouble(At(arr, 2), 0.0))
    case Integer(i) => Splat(i as real / 255.0)
    case Double(d) => Splat(d)
    case _ => Splat(1.0)
  }

  /** A colour given as three doubles decodes to itself. */
  lemma DecodeColorRoundTrip(c: Vec3, parse: string -> Vec3)
    ensures DecodeColor(Array([Double(c.x), Double(c.y), Double(c.z)]), parse) == c
  {
  }

  /**
   * An array's integer entries are taken as they are, while a bare integer is
   * divided by 255; a short array is padded with 0.
   */
  lemma DecodeColorArrayEntries(parse: string -> Vec3)
    ensures DecodeColor(Array([Integer(255), Integer(0), Integer(0)]), parse) == Vec3(255.0, 0.0, 0.0)
    ensures DecodeColor(Integer(255), parse) == Splat(1.0)
    ensures DecodeColor(Array([Double(0.5)]), parse) == Vec3(0.5, 0.0, 0.0)
    ensures DecodeColor(Array([Text("red"), Null, Double(1.0)]), parse) == Vec3(0.0, 0.0, 1.0)
  {
  }

  /**
   * ColorListArgument: a non-array value gives the single decoded colour; an
   * array gives one decoded colour per element, in order.
   */
  method ColorList(av: Value, parse: string -> Vec3) returns (colors: seq<Vec3>)
    ensures !av.Array? ==> colors == [DecodeColor(av, parse)]
    ensures av.Array? ==>
      |colors| == |av.items| && forall k :: 0 <= k < |colors| ==> colors[k] == DecodeColor(av.items[k], parse)
  {
    colors := [];
    if !av.Array? {
      colors := colors + [DecodeColor(av, parse)];
      return;
    }
    var localArr := ToArray(av);
    var k := 0;
    while k < |localArr|
      invariant 0 <= k <= |localArr| && |colors| == k
      invariant forall j :: 0 <= j < k ==> colors[j] == DecodeColor(localArr[j], parse)
    {
      colors := colors + [DecodeColor(localArr[k], parse)];
      k := k + 1;
    }
  }

  // ------------------------------------------------------- 3D scale lists

  /** The reals of a list of vec3, x, y, z after one another. */
  function Flatten(vs: seq<Vec3>): (r: seq<real>)
    ensures |r| == 3 * |vs|
    ensures forall p :: 0 <= p < |vs| ==> r[3 * p] == vs[p].x && r[3 * p + 1] == vs[p].y && r[3 * p + 2] == vs[p].z
  {
    if vs == [] then [] else [vs[0].x, vs[0].y, vs[0].z] + Flatten(vs[1..])
  }

  /**
   * The writes make_scale_vector as written performs stay inside the result
   * and the source: in the packed branch ret[i] and source[i + 2] for every
   * multiple i of 3 below |source|, otherwise ret[i] for every i below |source|.
   */
  predicate AsWrittenInBounds(source: seq<real>, numPoints: nat) {
    if numPoints == |source| / 3 then
      forall i :: 0 <= i < |source| && i % 3 == 0 ==> i < numPoints && i + 2 < |source|
    else |source| <= numPoints
  }

  /**
   * make_scale_vector as written: the packed branch stores the triple at
   * source index i in ret[i] rather than ret[i / 3], and the other branch
   * writes one entry per source real whatever the number of points. Where the
   * writes stay in bounds (one point given as three reals, or no more reals
   * than points) it computes the intended ScaleVector.
   */
  method MakeScaleVectorAsWritten(source: seq<real>, numPoints: nat) returns (ret: seq<Vec3>)
    requires AsWrittenInBounds(source, numPoints)
    ensures ret == ScaleVector(source, numPoints)
  {
    if source == [] {
      return [];
    }
    ret := seq(numPoints, _ => Zero3);
    if numPoints == |source| / 3 {
      PackedInBoundsIsOneTriple(source, numPoints);
      var i := 0;
      while i < |source|
        invariant 0 <= i <= 3 && i % 3 == 0 && |ret| == 1
        invariant ret[0] == if i == 0 then Zero3 else Vec3(source[0], source[1], source[2])
        decreases |source| - i
      {
        ret := ret[i := Vec3(source[i], source[i + 1], source[i + 2])];
        i := i + 3;
      }
    } else {
      var i := 0;
      while i < |source|
        invariant 0 <= i <= |source| <= numPoints && |ret| == numPoints
        invariant forall p :: 0 <= p < numPoints ==> ret[p] == if p < i then Splat(source[p]) else Zero3
      {
        ret := ret[i := Splat(source[i])];
        i := i + 1;
      }
    }
  }

  /**
   * The packed branch keeps its writes in bounds only for one point given as
   * three reals: any second triple would land at ret[3] or later.
   */
  lemma PackedInBoundsIsOneTriple(source: seq<real>, numPoints: nat)
    requires source != [] && numPoints == |source| / 3 && AsWrittenInBounds(source, numPoints)
    ensures |source| == 3 && numPoints == 1
  {
    assert 0 % 3 == 0;
    var last := 3 * (numPoints - 1);
    assert last % 3 == 0 && last < |source|;
    assert 3 % 3 == 0;
    assert 3 < |source| ==> 3 < numPoints;
  }

  /**
   * Six reals for two points take the packed branch, whose second write is to
   * ret[3] of a two-element vector; seven reals for one point overrun the
   * other branch.
   */
  lemma AsWrittenWritesOutside()
    ensures !AsWrittenInBounds([1.0, 2.0, 3.0, 4.0, 5.0, 6.0], 2)
    ensures !AsWrittenInBounds([1.0, 2.0, 3.0, 4.0, 5.0, 6.0, 7.0], 1)
  {
    var six := [1.0, 2.0, 3.0, 4.0, 5.0, 6.0];
    assert 0 <= 3 < |six| && 3 % 3 == 0 && !(3 < 2);
  }

  /**
   * The scale vector as intended: empty for an empty source; with exactly
   * |source| / 3 points, point p is the triple at 3p; otherwise point p is
   * glm::vec3(source[p]) for the reals there are, and zero after them.
   */
  function ScaleVector(source: seq<real>, numPoints: nat): (r: seq<Vec3>)
    ensures source == [] ==> r == []
    ensures source != [] ==> |r| == numPoints
  {
    if source == [] then []
    else if numPoints == |source| / 3 then
      seq(numPoints, p requires 0 <= p < numPoints => Vec3(source[3 * p], source[3 * p + 1], source[3 * p + 2]))
    else
      seq(numPoints, p requires 0 <= p < numPoints => if p < |source| then Splat(source[p]) else Zero3)
  }

  /** A flattened list of points, shaped for that many points, gives back the points. */
  lemma ScaleVectorRoundTrip(vs: seq<Vec3>)
    ensures ScaleVector(Flatten(vs), |vs|) == vs
  {
    if vs != [] {
      PackedShape(Flatten(vs), vs);
    }
  }

  /** Shaping reals laid out as the triples of vs, for |vs| points, gives vs. */
  lemma PackedShape(f: seq<real>, vs: seq<Vec3>)
    requires vs != [] && |f| == 3 * |vs|
    requires forall p :: 0 <= p < |vs| ==> f[3 * p] == vs[p].x && f[3 * p + 1] == vs[p].y && f[3 * p + 2] == vs[p].z
    ensures ScaleVector(f, |vs|) == vs
  {
    ThirdOfTriple(|vs|);
    var r := ScaleVector(f, |vs|);
    forall p | 0 <= p < |vs| ensures r[p] == vs[p] {
      assert r[p] == Vec3(f[3 * p], f[3 * p + 1], f[3 * p + 2]);
    }
  }

  lemma ThirdOfTriple(n: nat)
    ensures (3 * n) / 3 == n
  {
  }

  /** One real per point broadcast to all three axes. */
  lemma ScaleVectorUniform(source: seq<real>)
    requires source != [] && |source| != |source| / 3
    ensures ScaleVector(source, |source|) == seq(|source|, p requires 0 <= p < |source| => Splat(source[p]))
  {
  }

  /** make_scale_vector with the packed branch writing ret[i / 3] and the other branch kept inside the result. */
  method MakeScaleVector(source: seq<real>, numPoints: nat) returns (ret: seq<Vec3>)
    ensures ret == ScaleVector(source, numPoints)
  {
    if source == [] {
      return [];
    }
    ret := seq(numPoints, _ => Zero3);
    if numPoints == |source| / 3 {
      var i := 0;
      while i + 2 < |source|
        invariant 0 <= i && i % 3 == 0 && i / 3 <= numPoints && |ret| == numPoints
        invariant forall p :: 0 <= p < numPoints ==>
          ret[p] == if p < i / 3 then Vec3(source[3 * p], source[3 * p + 1], source[3 * p + 2]) else Zero3
        decreases |source| - i
      {
        ret := ret[i / 3 := Vec3(source[i], source[i + 1], source[i + 2])];
        i := i + 3;
      }
    } else {
      var i := 0;
      while i < |source| && i < numPoints
        invariant 0 <= i <= numPoints && i <= |source| && |ret| == numPoints
        invariant forall p :: 0 <= p < numPoints ==> ret[p] == if p < i then Splat(source[p]) else Zero3
      {
        ret := ret[i := Splat(source[i])];
        i := i + 1;
      }
    }
  }

  // ------------------------------------------------------- 2D scale lists

  /**
   * Scale2DListArgument as written: |reals| / 2 scales, of which only the
   * even-indexed ones are written, scale i taking the pair at reals[i].
   */
  function Scale2DAsWritten(reals: seq<real>): (r: seq<Vec2>)
    ensures |r| == |reals| / 2
  {
    var n := |reals| / 2;
    seq(n, i requires 0 <= i < n => if i % 2 == 0 then Vec2(reals[i], reals[i + 1]) else Vec2(0.0, 0.0))
  }

  method Scale2DListAsWritten(reals: seq<real>) returns (scales: seq<Vec2>)
    ensures scales == Scale2DAsWritten(reals)
  {
    scales := [];
    if |reals| > 0 {
      scales := seq(|reals| / 2, _ => Vec2(0.0, 0.0));
      var i := 0;
      while i < |scales|
        invariant 0 <= i && i % 2 == 0 && |scales| == |reals| / 2
        invariant forall k :: 0 <= k < |scales| && (i <= k || k % 2 == 1) ==> scales[k] == Vec2(0.0, 0.0)
        invariant forall k :: 0 <= k < |scales| && k < i && k % 2 == 0 ==> k + 1 < |reals| && scales[k] == Vec2(reals[k], reals[k + 1])
        decreases |scales| - i
      {
        scales := scales[i := Vec2(reals[i], reals[i + 1])];
        assert (i + 1) % 2 == 1;
        i := i + 2;
      }
    }
  }

  /** Four reals give a second scale of (0, 0) instead of (3, 4). */
  lemma Scale2DAsWrittenDropsPairs()
    ensures Scale2DAsWritten([1.0, 2.0, 3.0, 4.0]) == [Vec2(1.0, 2.0), Vec2(0.0, 0.0)]
  {
  }

  /** The intended shaping: scale p is the pair at 2p and 2p + 1. */
  function Scale2D(reals: seq<real>): (r: seq<Vec2>)
    ensures |r| == |reals| / 2
  {
    var n := |reals| / 2;
    seq(n, p requires 0 <= p < n => Vec2(reals[2 * p], reals[2 * p + 1]))
  }

  function Flatten2(vs: seq<Vec2>): (r: seq<real>)
    ensures |r| == 2 * |vs|
    ensures forall p :: 0 <= p < |vs| ==> r[2 * p] == vs[p].x && r[2 * p + 1] == vs[p].y
  {
    if vs == [] then [] else [vs[0].x, vs[0].y] + Flatten2(vs[1..])
  }

  /** Pairs flattened and shaped again are the same pairs. */
  lemma Scale2DRoundTrip(vs: seq<Vec2>)
    ensures Scale2D(Flatten2(vs)) == vs
  {
    var r := Scale2D(Flatten2(vs));
    forall p | 0 <= p < |vs| ensures r[p] == vs[p] {
    }
  }

  /** Scale2DListArgument with scale i / 2 taking the pair at i. */
  method Scale2DList(reals: seq<real>) returns (scales: seq<Vec2>)
    ensures scales == Scale2D(reals)
  {
    scales := [];
    if |reals| > 0 {
      var n := |reals| / 2;
      scales := seq(n, _ => Vec2(0.0, 0.0));
      var i := 0;
      while i + 1 < |reals|
        invariant 0 <= i && i % 2 == 0 && i / 2 <= n && |scales| == n
        invariant forall p :: 0 <= p < n ==> scales[p] == if p < i / 2 then Vec2(reals[2 * p], reals[2 * p + 1]) else Vec2(0.0, 0.0)
        decreases |reals| - i
      {
        scales := scales[i / 2 := Vec2(reals[i], reals[i + 1])];
        i := i + 2;
      }
    }
  }

  // ------------------------------------------------------- forced vec3

  /** QList<double>::value(i): the element, or 0 past the end. */
  function ValueAt(reals: seq<real>, i: nat): (r: real)
    ensures i < |reals| ==> r == reals[i]
    ensures i >= |reals| ==> r == 0.0
  {
    if i < |reals| then reals[i] else 0.0
  }

  /** ForceToGLMVec3: the first three reals, a missing one read as 0. */
  function ForceToVec3(reals: seq<real>): Vec3 {
    Vec3(ValueAt(reals, 0), ValueAt(reals, 1), ValueAt(reals, 2))
  }

  /** Extra reals are ignored, and a vector's own reals give it back. */
  lemma ForceToVec3Properties(v: Vec3, reals: seq<real>, rest: seq<real>)
    ensures ForceToVec3([v.x, v.y, v.z] + rest) == v
    ensures |reals| >= 3 ==> ForceToVec3(reals + rest) == ForceToVec3(reals)
    ensures ForceToVec3([]) == Zero3
  {
    var s := [v.x, v.y, v.z] + rest;
    assert s[0] == v.x && s[1] == v.y && s[2] == v.z;
    if |reals| >= 3 {
      var t := reals + rest;
      assert t[0] == reals[0] && t[1] == reals[1] && t[2] == reals[2];
    }
  }
}

/** Plot registration in Plotty (src/plotty.h, src/plotty.cpp): id allocation and lookup. */
module PlotRegistry {
  import opened Options

  /** The plots by id; a plot value stands for the constructed plot object. */
  class Plotty<P> {
    var counter: int
    var plots: map<int, P>

    /** The counter starts at 1 and only grows, so id 0 is never handed out. */
    ghost predicate Valid()
      reads this
    {
      counter >= 1
    }

    constructor ()
      ensures Valid() && counter == 1 && plots == map[]
    {
      counter := 1;
      plots := map[];
    }

    /**
     * append: a negative request takes the counter as the id and increments
     * it; otherwise the requested id is used and the counter is left as it is.
     * try_emplace keeps a plot already stored at the id, yet the id is returned.
     */
    method Append(req: int, plot: P) returns (place: int)
      requires Valid()
      modifies this
      ensures Valid()
      ensures req < 0 ==> place == old(counter) && counter == old(counter) + 1 && place >= 1
      ensures req >= 0 ==> place == req && counter == old(counter)
      ensures plots == if place in old(plots) then old(plots) else old(plots)[place := plot]
      ensures place in plots && GetPlot(place) != None
    {
      place := req;
      if req < 0 {
        place := counter;
        counter := counter + 1;
      }
      if place !in plots {
        plots := plots[place := plot];
      }
    }

    /** get_plot: nothing for an unknown id, else the stored plot. */
    function GetPlot(i: int): (r: Option<P>)
      reads this
      ensures i !in plots <==> r == None
      ensures i in plots ==> r == Some(plots[i])
    {
      if i !in plots then None else Some(plots[i])
    }
  }

  /** Two auto-assigned ids in a row are increasing, hence distinct. */
  method AutoIdsIncrease<P>(host: Plotty<P>, a: P, b: P) returns (first: int, second: int)
    requires host.Valid()
    modifies host
    ensures 1 <= first < second
  {
    first := host.Append(-1, a);
    second := host.Append(-1, b);
  }
}
