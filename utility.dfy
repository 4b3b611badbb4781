/** min_max_of from src/utility.cpp, with the componentwise folds it computes. */
module Utility {
  import opened Vectors

  /** Componentwise minimum of acc and every element of s, folded left to right. */
  function MinFold(acc: Vec3, s: seq<Vec3>): Vec3
    decreases |s|
  {
    if s == [] then acc else Min3(s[|s| - 1], MinFold(acc, s[..|s| - 1]))
  }

  function MaxFold(acc: Vec3, s: seq<Vec3>): Vec3
    decreases |s|
  {
    if s == [] then acc else Max3(s[|s| - 1], MaxFold(acc, s[..|s| - 1]))
  }

  /** Each component of a min fold is that of acc or of some element, and below all of them. */
  lemma {:induction false} MinFoldProperties(acc: Vec3, s: seq<Vec3>)
    ensures var m := MinFold(acc, s);
      LessEq(m, acc) && (forall e :: e in s ==> LessEq(m, e)) &&
      (m.x == acc.x || exists e :: e in s && m.x == e.x) &&
      (m.y == acc.y || exists e :: e in s && m.y == e.y) &&
      (m.z == acc.z || exists e :: e in s && m.z == e.z)
    decreases |s|
  {
    if s != [] {
      var init := s[..|s| - 1];
      MinFoldProperties(acc, init);
      assert forall e :: e in s ==> e in init || e == s[|s| - 1];
      assert forall e :: e in init ==> e in s;
    }
  }

  lemma {:induction false} MaxFoldProperties(acc: Vec3, s: seq<Vec3>)
    ensures var m := MaxFold(acc, s);
      LessEq(acc, m) && (forall e :: e in s ==> LessEq(e, m)) &&
      (m.x == acc.x || exists e :: e in s && m.x == e.x) &&
      (m.y == acc.y || exists e :: e in s && m.y == e.y) &&
      (m.z == acc.z || exists e :: e in s && m.z == e.z)
    decreases |s|
  {
    if s != [] {
      var init := s[..|s| - 1];
      MaxFoldProperties(acc, init);
      assert forall e :: e in s ==> e in init || e == s[|s| - 1];
      assert forall e :: e in init ==> e in s;
    }
  }

  /** The pair min_max_of returns, as a function of its input. */
  function MinMax(v: seq<Vec3>): (Vec3, Vec3) {
    if v == [] then (Zero3, Zero3) else (MinFold(v[0], v), MaxFold(v[0], v))
  }

  /**
   * min_max_of: a pair of zero vectors for an empty span; otherwise the
   * componentwise minimum and maximum, each component attained by some element.
   */
  method MinMaxOf(v: seq<Vec3>) returns (lmin: Vec3, lmax: Vec3)
    ensures (lmin, lmax) == MinMax(v)
    ensures v == [] ==> lmin == Zero3 && lmax == Zero3
    ensures forall e :: e in v ==> LessEq(lmin, e) && LessEq(e, lmax)
    ensures v != [] ==> LessEq(lmin, lmax)
    ensures v != [] ==> (exists e :: e in v && lmin.x == e.x) && (exists e :: e in v && lmax.x == e.x)
    ensures v != [] ==> (exists e :: e in v && lmin.y == e.y) && (exists e :: e in v && lmax.y == e.y)
    ensures v != [] ==> (exists e :: e in v && lmin.z == e.z) && (exists e :: e in v && lmax.z == e.z)
  {
    if v == [] {
      return Zero3, Zero3;
    }
    lmin := v[0];
    lmax := v[0];
    var i := 0;
    while i < |v|
      invariant 0 <= i <= |v|
      invariant lmin == MinFold(v[0], v[..i])
      invariant lmax == MaxFold(v[0], v[..i])
    {
      assert v[..i + 1][..i] == v[..i];
      lmin := Min3(v[i], lmin);
      lmax := Max3(v[i], lmax);
      i := i + 1;
    }
    assert v[..i] == v;
    MinFoldProperties(v[0], v);
    MaxFoldProperties(v[0], v);
  }
}
