/**
 * The Domain (an affine map from a data-space box to a render-space box) and
 * the SharedDomain every plot observes, from src/plotty.h and src/plotty.cpp.
 */
module Domains {
  import opened Vectors
  import opened Interpolation

  datatype Domain = Domain(inputMin: Vec3, inputMax: Vec3, outputMin: Vec3, outputMax: Vec3)

  /** The default Domain: input and output are both [-0.5, 0.5] on every axis. */
  const DefaultDomain: Domain := Domain(Splat(-0.5), Splat(0.5), Splat(-0.5), Splat(0.5))

  /** Every input axis has distinct ends, so the per-axis division is defined. */
  predicate NonDegenerate(d: Domain) {
    d.inputMin.x != d.inputMax.x && d.inputMin.y != d.inputMax.y && d.inputMin.z != d.inputMax.z
  }

  /** Domain::transform: Lerp on each axis from the input box to the output box. */
  function Transform(d: Domain, p: Vec3): (q: Vec3)
    requires NonDegenerate(d)
    ensures p == d.inputMin ==> q == d.outputMin
    ensures p == d.inputMax ==> q == d.outputMax
  {
    Vec3(Lerp(p.x, d.inputMin.x, d.inputMax.x, d.outputMin.x, d.outputMax.x),
         Lerp(p.y, d.inputMin.y, d.inputMax.y, d.outputMin.y, d.outputMax.y),
         Lerp(p.z, d.inputMin.z, d.inputMax.z, d.outputMin.z, d.outputMax.z))
  }

  /** A point inside the input box lands inside the output box. */
  lemma TransformKeepsBox(d: Domain, p: Vec3)
    requires LessEq(d.inputMin, p) && LessEq(p, d.inputMax) && NonDegenerate(d)
    ensures var q := Transform(d, p);
      Between(q.x, d.outputMin.x, d.outputMax.x) &&
      Between(q.y, d.outputMin.y, d.outputMax.y) &&
      Between(q.z, d.outputMin.z, d.outputMax.z)
  {
    LerpWithinRange(p.x, d.inputMin.x, d.inputMax.x, d.outputMin.x, d.outputMax.x);
    LerpWithinRange(p.y, d.inputMin.y, d.inputMax.y, d.outputMin.y, d.outputMax.y);
    LerpWithinRange(p.z, d.inputMin.z, d.inputMax.z, d.outputMin.z, d.outputMax.z);
  }

  /** The default domain maps every point to itself. */
  lemma DefaultTransformIsIdentity(p: Vec3)
    ensures NonDegenerate(DefaultDomain) && Transform(DefaultDomain, p) == p
  {
    LerpIdentity(p.x, -0.5, 0.5);
    LerpIdentity(p.y, -0.5, 0.5);
    LerpIdentity(p.z, -0.5, 0.5);
  }

  /** std::numeric_limits<float>::epsilon(), 2^-23. */
  const FloatEpsilon: real := 1.0 / 8388608.0

  /** glm::distance(a, b) <= FloatEpsilon, stated on the squared distance. */
  predicate WithinEpsilon(a: Vec3, b: Vec3) {
    SqDist(a, b) <= FloatEpsilon * FloatEpsilon
  }

  /** Whether ask_update_input_bounds(l, h) changes a domain d under the auto flag. */
  predicate BoundsUpdateApplies(d: Domain, auto: bool, l: Vec3, h: Vec3) {
    auto && !(WithinEpsilon(d.inputMin, l) && WithinEpsilon(d.inputMax, h))
  }

  /** The domain after ask_update_input_bounds(l, h). */
  function UpdatedBounds(d: Domain, auto: bool, l: Vec3, h: Vec3): Domain {
    if BoundsUpdateApplies(d, auto, l, h) then d.(inputMin := l, inputMax := h) else d
  }

  /** The three cases of the update gate, and that the output box never moves. */
  lemma UpdatedBoundsCases(d: Domain, auto: bool, l: Vec3, h: Vec3)
    ensures var r := UpdatedBounds(d, auto, l, h);
      r.outputMin == d.outputMin && r.outputMax == d.outputMax &&
      (!auto ==> r == d) &&
      (WithinEpsilon(d.inputMin, l) && WithinEpsilon(d.inputMax, h) ==> r == d) &&
      (BoundsUpdateApplies(d, auto, l, h) ==> r.inputMin == l && r.inputMax == h)
  {
  }

  /**
   * Asking twice for the same bounds changes nothing the second time, so the
   * redundant requests the plots make are harmless.
   */
  lemma UpdatedBoundsIdempotent(d: Domain, auto: bool, l: Vec3, h: Vec3)
    ensures UpdatedBounds(UpdatedBounds(d, auto, l, h), auto, l, h) == UpdatedBounds(d, auto, l, h)
    ensures !BoundsUpdateApplies(UpdatedBounds(d, auto, l, h), auto, l, h)
  {
    var r := UpdatedBounds(d, auto, l, h);
    if BoundsUpdateApplies(d, auto, l, h) {
      assert SqDist(r.inputMin, l) == 0.0 && SqDist(r.inputMax, h) == 0.0;
    }
  }

  /**
   * SharedDomain: the current domain, the auto-update flag, the axis titles,
   * and a count of the domain_updated / labels_updated signals emitted.
   */
  class SharedDomain {
    var current: Domain
    var auto: bool
    var xTitle: string
    var yTitle: string
    var zTitle: string
    var domainSignals: nat
    var labelSignals: nat

    constructor ()
      ensures current == DefaultDomain && auto
      ensures xTitle == "x" && yTitle == "y" && zTitle == "z"
      ensures domainSignals == 0 && labelSignals == 0
    {
      current := DefaultDomain;
      auto := true;
      xTitle, yTitle, zTitle := "x", "y", "z";
      domainSignals, labelSignals := 0, 0;
    }

    method SetDomainAutoUpdates(b: bool)
      modifies this`auto
      ensures auto == b
    {
      auto := b;
    }

    /** ask_set_domain: ignored unless auto updates are on; otherwise the whole domain is replaced. */
    method AskSetDomain(d: Domain)
      modifies this`current, this`domainSignals
      ensures current == (if auto then d else old(current))
      ensures domainSignals == old(domainSignals) + (if auto then 1 else 0)
    {
      if !auto {
        return;
      }
      current := d;
      domainSignals := domainSignals + 1;
    }

    /**
     * ask_update_input_bounds: ignored unless auto updates are on, ignored when
     * both bounds are within FloatEpsilon of the current ones, and otherwise sets
     * the input box only.
     */
    method AskUpdateInputBounds(l: Vec3, h: Vec3)
      modifies this`current, this`domainSignals
      ensures current == UpdatedBounds(old(current), auto, l, h)
      ensures domainSignals == old(domainSignals) + (if BoundsUpdateApplies(old(current), auto, l, h) then 1 else 0)
    {
      if !auto {
        return;
      }
      var lOk := WithinEpsilon(current.inputMin, l);
      var hOk := WithinEpsilon(current.inputMax, h);
      if lOk && hOk {
        return;
      }
      current := current.(inputMin := l, inputMax := h);
      domainSignals := domainSignals + 1;
    }

    method SetAxisLabels(x: string, y: string, z: string)
      modifies this`xTitle, this`yTitle, this`zTitle, this`labelSignals
      ensures xTitle == x && yTitle == y && zTitle == z
      ensures labelSignals == old(labelSignals) + 1
    {
      xTitle, yTitle, zTitle := x, y, z;
      labelSignals := labelSignals + 1;
    }
  }

  /** QStringList::value(i): the i-th string, or an empty string when there is none. */
  function StringAt(names: seq<string>, i: nat): string {
    if i < |names| then names[i] else ""
  }

  /**
   * The body of the set_domain method: it switches auto updates off and THEN
   * asks to set the domain, so the request is always ignored and the stored
   * domain stays as it was; only the axis titles change.
   */
  method SetDomainRequest(sd: SharedDomain, inputMin: Vec3, inputMax: Vec3,
                          outputMin: Vec3, outputMax: Vec3, names: seq<string>)
    modifies sd
    ensures sd.current == old(sd.current) && !sd.auto
    ensures sd.domainSignals == old(sd.domainSignals)
    ensures sd.xTitle == StringAt(names, 0) && sd.yTitle == StringAt(names, 1) && sd.zTitle == StringAt(names, 2)
    ensures sd.labelSignals == old(sd.labelSignals) + 1
  {
    var d := Domain(inputMin, inputMax, outputMin, outputMax);
    sd.SetDomainAutoUpdates(false);
    sd.AskSetDomain(d);
    sd.SetAxisLabels(StringAt(names, 0), StringAt(names, 1), StringAt(names, 2));
  }
}
