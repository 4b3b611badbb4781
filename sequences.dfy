/** The std::vector / QVector edits the core performs: resize, pad-and-truncate, erase. */
module Sequences {

  /**
   * Pad s with filler and truncate it so that it has exactly n elements; this is
   * also std::vector::resize(n) with filler as the value appended.
   */
  function Fit<T>(s: seq<T>, n: nat, filler: T): (r: seq<T>)
    ensures |r| == n
    ensures forall i :: 0 <= i < n ==> r[i] == if i < |s| then s[i] else filler
  {
    if |s| >= n then s[..n] else s + seq(n - |s|, _ => filler)
  }

  /**
   * The pop_back / append loops the constructors and handle_update run to bring a
   * list to exactly n elements (pad and truncate commute, so one order serves both).
   */
  method FitLoop<T>(s: seq<T>, n: nat, filler: T) returns (r: seq<T>)
    ensures r == Fit(s, n, filler)
  {
    r := s;
    while |r| > n
      invariant r == s[..|r|]
      invariant |r| >= n || |r| == |s|
    {
      r := r[..|r| - 1];
    }
    while |r| < n
      invariant |r| <= n
      invariant |r| >= |s| || |r| == n
      invariant forall i :: 0 <= i < |r| ==> r[i] == if i < |s| then s[i] else filler
      decreases n - |r|
    {
      r := r + [filler];
    }
  }

  /** Updating a union at one key is updating its right operand there. */
  lemma MapUnionUpdate<K, V>(m0: map<K, V>, m1: map<K, V>, k: K, v: V)
    ensures (m0 + m1)[k := v] == m0 + m1[k := v]
  {
  }

  /** l.erase(l.begin() + i). */
  function Erase<T>(s: seq<T>, i: nat): (r: seq<T>)
    requires i < |s|
    ensures |r| == |s| - 1
    ensures forall k :: 0 <= k < |r| ==> r[k] == if k < i then s[k] else s[k + 1]
  {
    s[..i] + s[i + 1..]
  }

  /** The elements of s whose indices are not in rows, in their original order. */
  function Keep<T>(s: seq<T>, rows: set<int>): seq<T>
    decreases |s|
  {
    if s == [] then []
    else Keep(s[..|s| - 1], rows) + (if |s| - 1 in rows then [] else [s[|s| - 1]])
  }

  /** Keeping every index leaves the sequence as it is. */
  lemma {:induction false} KeepNone<T>(s: seq<T>, rows: set<int>)
    requires forall x :: x in rows ==> x < 0 || x >= |s|
    ensures Keep(s, rows) == s
    decreases |s|
  {
    if s != [] {
      KeepNone(s[..|s| - 1], rows);
    }
  }

  /**
   * Erasing index r from a sequence from which only larger indices have been
   * erased so far removes index r of the original: the descending erase order
   * of handle_deletion computes Keep.
   */
  lemma {:induction false} KeepErase<T>(s: seq<T>, rows: set<int>, r: nat)
    requires r < |s| && r !in rows
    requires forall x :: x in rows ==> x > r
    ensures r < |Keep(s, rows)|
    ensures Keep(s, rows + {r}) == Erase(Keep(s, rows), r)
    decreases |s|
  {
    var n := |s| - 1;
    var init := s[..n];
    if n == r {
      KeepNone(init, rows);
      KeepNone(init, rows + {r});
      assert Keep(s, rows) == init + [s[n]];
      assert Keep(s, rows + {r}) == init;
      assert Erase(init + [s[n]], n) == init;
    } else {
      KeepErase(init, rows, r);
      var t := Keep(init, rows);
      var tail := if n in rows then [] else [s[n]];
      assert Keep(s, rows) == t + tail;
      assert Keep(s, rows + {r}) == Erase(t, r) + tail;
      EraseAppend(t, tail, r);
    }
  }

  lemma EraseAppend<T>(t: seq<T>, tail: seq<T>, r: nat)
    requires r < |t|
    ensures Erase(t + tail, r) == Erase(t, r) + tail
  {
    assert (t + tail)[..r] == t[..r];
    assert (t + tail)[r + 1..] == t[r + 1..] + tail;
  }

  /** Keep removes exactly the indices in range that are listed. */
  lemma {:induction false} KeepLength<T>(s: seq<T>, rows: seq<int>)
    requires forall i, j :: 0 <= i < j < |rows| ==> rows[i] < rows[j]
    requires forall i :: 0 <= i < |rows| ==> 0 <= rows[i] < |s|
    ensures |Keep(s, set x | x in rows)| == |s| - |rows|
    decreases |rows|
  {
    if rows == [] {
      assert (set x | x in rows) == {};
      KeepNone(s, {});
    } else {
      var r := rows[0];
      var rest := rows[1..];
      KeepLength(s, rest);
      assert (set x | x in rows) == (set x | x in rest) + {r};
      assert forall x :: x in rest ==> x > r;
      KeepErase(s, (set x | x in rest), r);
    }
  }
}
