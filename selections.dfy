/**
 * The selection algebra shared by SpecificTable::modify_selection
 * (src/simpletable.h) and SimpleTable::modify_selection (src/simpletable.cpp):
 * replace (action 0), subtract (action < 0) and sorted union (action > 0).
 */
module Selections {
  import opened Options

  predicate StrictlyIncreasing(s: seq<int>) {
    forall i, j :: 0 <= i < j < |s| ==> s[i] < s[j]
  }

  function Elems(s: seq<int>): set<int> {
    set x | x in s
  }

  /** Insert x into a strictly increasing list, keeping it strictly increasing and duplicate free. */
  function InsertSorted(x: int, s: seq<int>): (r: seq<int>)
    requires StrictlyIncreasing(s)
    ensures StrictlyIncreasing(r)
    ensures Elems(r) == Elems(s) + {x}
    decreases |s|
  {
    if s == [] then [x]
    else if x < s[0] then [x] + s
    else if x == s[0] then s
    else
      var rest := InsertSorted(x, s[1..]);
      InsertBehindHead(x, s, rest);
      [s[0]] + rest
  }

  /** Putting the head back in front of the tail with x inserted gives s with x inserted. */
  lemma InsertBehindHead(x: int, s: seq<int>, rest: seq<int>)
    requires StrictlyIncreasing(s) && s != [] && s[0] < x
    requires StrictlyIncreasing(rest) && Elems(rest) == Elems(s[1..]) + {x}
    ensures StrictlyIncreasing([s[0]] + rest) && Elems([s[0]] + rest) == Elems(s) + {x}
  {
    assert Elems(s) == {s[0]} + Elems(s[1..]) by {
      assert s == [s[0]] + s[1..];
    }
    HeadBelowTail(s);
    ConsIncreasing(s[0], rest);
  }

  /** The elements of a suffix are its first element and the elements of the rest. */
  lemma ElemsCons(s: seq<int>, n: nat)
    requires n < |s|
    ensures Elems(s[n..]) == Elems(s[n + 1..]) + {s[n]}
  {
    assert s[n..] == [s[n]] + s[n + 1..];
  }

  /** The head of a strictly increasing list is below every element of its tail. */
  lemma HeadBelowTail(s: seq<int>)
    requires StrictlyIncreasing(s) && s != []
    ensures forall y :: y in Elems(s[1..]) ==> s[0] < y
  {
    forall y | y in Elems(s[1..]) ensures s[0] < y {
      var j :| 0 <= j < |s[1..]| && s[1..][j] == y;
      assert s[j + 1] == y;
    }
  }

  /** A value below every element of a strictly increasing list can be put in front of it. */
  lemma ConsIncreasing(h: int, r: seq<int>)
    requires StrictlyIncreasing(r) && forall y :: y in Elems(r) ==> h < y
    ensures StrictlyIncreasing([h] + r) && Elems([h] + r) == {h} + Elems(r)
  {
    var c := [h] + r;
    forall i, j | 0 <= i < j < |c| ensures c[i] < c[j] {
      assert c[j] == r[j - 1] && r[j - 1] in Elems(r);
      if i > 0 {
        assert c[i] == r[i - 1];
      }
    }
    assert Elems(c) == {h} + Elems(r) by {
      forall y | y in Elems(c) ensures y in {h} + Elems(r) {
        var k :| 0 <= k < |c| && c[k] == y;
        if k > 0 { assert r[k - 1] == y; }
      }
      forall y | y in Elems(r) ensures y in Elems(c) {
        var k :| 0 <= k < |r| && r[k] == y;
        assert c[k + 1] == y;
      }
    }
  }

  /**
   * std::sort followed by std::unique and erase: the strictly increasing list
   * of the distinct elements of s.
   */
  function SortUnique(s: seq<int>): (r: seq<int>)
    ensures StrictlyIncreasing(r)
    ensures Elems(r) == Elems(s)
    decreases |s|
  {
    if s == [] then []
    else
      var init := s[..|s| - 1];
      assert Elems(s) == Elems(init) + {s[|s| - 1]};
      InsertSorted(s[|s| - 1], SortUnique(init))
  }

  /** A non-empty list has a non-empty set of elements. */
  lemma ElemsNonEmpty(b: seq<int>)
    ensures b != [] ==> b[0] in Elems(b)
  {
  }

  /** A strictly increasing list is determined by its set of elements. */
  lemma {:induction false} StrictlyIncreasingCanonical(a: seq<int>, b: seq<int>)
    requires StrictlyIncreasing(a) && StrictlyIncreasing(b) && Elems(a) == Elems(b)
    ensures a == b
    decreases |a|
  {
    if a == [] {
      ElemsNonEmpty(b);
    } else {
      assert a[0] in Elems(b);
      assert b != [];
      assert b[0] in Elems(a);
      var j :| 0 <= j < |a| && a[j] == b[0];
      assert a[0] <= a[j];
      var k :| 0 <= k < |b| && b[k] == a[0];
      assert b[0] <= b[k];
      assert Elems(a[1..]) == Elems(a) - {a[0]} by {
        assert a == [a[0]] + a[1..];
        assert forall y :: y in a[1..] ==> a[0] < y;
      }
      assert Elems(b[1..]) == Elems(b) - {b[0]} by {
        assert b == [b[0]] + b[1..];
        assert forall y :: y in b[1..] ==> b[0] < y;
      }
      StrictlyIncreasingCanonical(a[1..], b[1..]);
      assert a == [a[0]] + a[1..] && b == [b[0]] + b[1..];
    }
  }

  /** The sorted, deduplicated list depends only on the set of inputs, not their order or repetitions. */
  lemma SortUniqueDeterministic(s: seq<int>, t: seq<int>)
    requires Elems(s) == Elems(t)
    ensures SortUnique(s) == SortUnique(t)
  {
    StrictlyIncreasingCanonical(SortUnique(s), SortUnique(t));
  }

  /** The elements of s not in del, in their original order. */
  function Filter(s: seq<int>, del: set<int>): seq<int>
    decreases |s|
  {
    if s == [] then []
    else Filter(s[..|s| - 1], del) + (if s[|s| - 1] in del then [] else [s[|s| - 1]])
  }

  /** a can be obtained from b by dropping elements. */
  predicate Subsequence(a: seq<int>, b: seq<int>)
    decreases |b|
  {
    if a == [] then true
    else if b == [] then false
    else (a[|a| - 1] == b[|b| - 1] && Subsequence(a[..|a| - 1], b[..|b| - 1]))
         || Subsequence(a, b[..|b| - 1])
  }

  lemma {:induction false} FilterProperties(s: seq<int>, del: set<int>)
    ensures Subsequence(Filter(s, del), s)
    ensures forall x :: x in Filter(s, del) <==> x in s && x !in del
    decreases |s|
  {
    if s != [] {
      var init := s[..|s| - 1];
      var last := s[|s| - 1];
      FilterProperties(init, del);
      var f := Filter(s, del);
      assert forall x :: x in s <==> x in init || x == last by {
        assert s == init + [last];
      }
      if last in del {
        assert f == Filter(init, del);
        assert Elems(f) == Elems(Filter(init, del));
        if f != [] {
          assert Subsequence(f, s[..|s| - 1]);
        }
      } else {
        assert f == Filter(init, del) + [last];
        assert f[..|f| - 1] == Filter(init, del);
        assert forall x :: x in f <==> x in Filter(init, del) || x == last;
      }
    }
  }

  /** Filtering keeps strict increase. */
  lemma {:induction false} FilterStrictlyIncreasing(s: seq<int>, del: set<int>)
    requires StrictlyIncreasing(s)
    ensures StrictlyIncreasing(Filter(s, del))
    decreases |s|
  {
    if s != [] {
      var init := s[..|s| - 1];
      var last := s[|s| - 1];
      assert StrictlyIncreasing(init);
      FilterStrictlyIncreasing(init, del);
      FilterProperties(init, del);
      if last !in del {
        var f := Filter(init, del);
        forall y | y in f ensures y < last {
          var k :| 0 <= k < |init| && init[k] == y;
        }
        SnocIncreasing(f, last);
      }
    }
  }

  /** A value above every element of a strictly increasing list can be put behind it. */
  lemma SnocIncreasing(f: seq<int>, last: int)
    requires StrictlyIncreasing(f) && forall y :: y in f ==> y < last
    ensures StrictlyIncreasing(f + [last])
  {
    var r := f + [last];
    forall i, j | 0 <= i < j < |r| ensures r[i] < r[j] {
      if j == |f| {
        assert r[i] == f[i] && f[i] in f;
      }
    }
  }

  /**
   * The list a modify_selection call stores (or asks the table to store) for
   * slot contents current (None: no such slot), request keys and action;
   * None means no update is issued.
   */
  function NextSelection(current: Option<seq<int>>, keys: seq<int>, action: int): Option<seq<int>> {
    match current
    case None => if action < 0 then None else Some(keys)
    case Some(rows) =>
      if action == 0 then Some(keys)
      else if action < 0 then Some(Filter(rows, Elems(keys)))
      else Some(SortUnique(keys + rows))
  }

  /** With no slot, subtracting issues nothing and any other action stores the keys verbatim. */
  lemma NextSelectionAbsent(keys: seq<int>, action: int)
    ensures action < 0 <==> NextSelection(None, keys, action) == None
    ensures action >= 0 ==> NextSelection(None, keys, action) == Some(keys)
  {
  }

  /** Replacing stores exactly the keys, so replacing twice with the same keys is idempotent. */
  lemma NextSelectionReplace(current: Option<seq<int>>, keys: seq<int>)
    ensures NextSelection(current, keys, 0) == Some(keys)
    ensures NextSelection(NextSelection(current, keys, 0), keys, 0) == NextSelection(current, keys, 0)
  {
  }

  /**
   * Subtracting keeps, in their original order, exactly the current keys that
   * are not being removed.
   */
  lemma NextSelectionSubtract(rows: seq<int>, keys: seq<int>, action: int)
    requires action < 0
    ensures NextSelection(Some(rows), keys, action).Some?
    ensures var r := NextSelection(Some(rows), keys, action).value;
      Subsequence(r, rows) &&
      (forall x :: x in r <==> x in rows && x !in keys)
  {
    FilterProperties(rows, Elems(keys));
  }

  /** Union stores the strictly increasing list whose elements are the keys and the current rows. */
  lemma NextSelectionUnion(rows: seq<int>, keys: seq<int>, action: int)
    requires action > 0
    ensures NextSelection(Some(rows), keys, action).Some?
    ensures var r := NextSelection(Some(rows), keys, action).value;
      StrictlyIncreasing(r) && (forall x :: x in r <==> x in keys || x in rows)
  {
    var r := SortUnique(keys + rows);
    assert Elems(keys + rows) == Elems(keys) + Elems(rows);
    assert forall x :: x in r <==> x in Elems(r);
  }

  /** The union result does not depend on the order or repetitions of either input. */
  lemma NextSelectionUnionCanonical(rows: seq<int>, keys: seq<int>, rows': seq<int>, keys': seq<int>, action: int)
    requires action > 0
    requires Elems(rows) + Elems(keys) == Elems(rows') + Elems(keys')
    ensures NextSelection(Some(rows), keys, action) == NextSelection(Some(rows'), keys', action)
  {
    assert Elems(keys + rows) == Elems(keys) + Elems(rows);
    assert Elems(keys' + rows') == Elems(keys') + Elems(rows');
    SortUniqueDeterministic(keys + rows, keys' + rows');
  }

  /**
   * A union followed by a subtraction of the same keys leaves the current keys
   * minus those keys; when the slot was already sorted, duplicate free and
   * disjoint from the keys, it is restored exactly.
   */
  lemma UnionThenSubtract(rows: seq<int>, keys: seq<int>)
    ensures var u := NextSelection(Some(rows), keys, 1).value;
      var r := NextSelection(Some(u), keys, -1).value;
      Elems(r) == Elems(rows) - Elems(keys) &&
      (StrictlyIncreasing(rows) && Elems(rows) !! Elems(keys) ==> r == rows)
  {
    var u := SortUnique(keys + rows);
    assert NextSelection(Some(rows), keys, 1) == Some(u);
    var r := Filter(u, Elems(keys));
    assert NextSelection(Some(u), keys, -1) == Some(r);
    FilterElems(u, Elems(keys));
    ElemsConcat(keys, rows);
    assert Elems(r) == Elems(rows) - Elems(keys);
    if StrictlyIncreasing(rows) && Elems(rows) !! Elems(keys) {
      FilterStrictlyIncreasing(u, Elems(keys));
      StrictlyIncreasingCanonical(r, rows);
    }
  }

  lemma FilterElems(s: seq<int>, del: set<int>)
    ensures Elems(Filter(s, del)) == Elems(s) - del
  {
    FilterProperties(s, del);
    forall x ensures x in Elems(Filter(s, del)) <==> x in Elems(s) - del {
      assert x in Elems(Filter(s, del)) <==> x in Filter(s, del);
      assert x in Elems(s) <==> x in s;
    }
  }

  lemma ElemsConcat(a: seq<int>, b: seq<int>)
    ensures Elems(a + b) == Elems(a) + Elems(b)
  {
  }

  /**
   * The subtraction loop of modify_selection: walk the current rows and keep
   * each one that is not in the set of keys to delete.
   */
  method Difference(rows: seq<int>, keys: seq<int>) returns (newList: seq<int>)
    ensures newList == Filter(rows, Elems(keys))
  {
    var toDel := Elems(keys);
    newList := [];
    var i := 0;
    while i < |rows|
      invariant 0 <= i <= |rows|
      invariant newList == Filter(rows[..i], toDel)
    {
      assert rows[..i + 1][..i] == rows[..i];
      if rows[i] in toDel {
        i := i + 1;
        continue;
      }
      newList := newList + [rows[i]];
      i := i + 1;
    }
    assert rows[..i] == rows;
  }
}
