/**
 * DataSource from src/datasource.h and src/datasource.cpp: column lookups on a
 * SimpleTable and the for_columns broadcast loop. The callback for_columns
 * invokes is modelled by the list of argument tuples it is invoked with.
 */
module DataSources {
  import opened SimpleTables

  /** has_column: false for a negative index or one past the last column, true otherwise. */
  function HasColumn(cols: seq<TableColumn>, i: int): (b: bool)
    ensures b <==> 0 <= i < |cols|
  {
    if i < 0 then false
    else if i >= |cols| then false
    else true
  }

  /**
   * get_doubles_at: empty for an absent column, else the column's doubles. The
   * doubles of a string column are taken to be empty (TableColumn::as_doubles
   * is not part of this model).
   */
  function GetDoublesAt(cols: seq<TableColumn>, i: int): (r: seq<real>)
    ensures !HasColumn(cols, i) ==> r == []
    ensures HasColumn(cols, i) && cols[i].RealColumn? ==> r == cols[i].reals
  {
    if !HasColumn(cols, i) then []
    else match cols[i]
      case RealColumn(_, reals) => reals
      case StringColumn(_, _) => []
  }

  /** The span for_columns reads argument c from: the column's doubles, or a one-element span of its missing value. */
  function SpanFor(cols: seq<TableColumn>, column: int, missing: real): seq<real> {
    if HasColumn(cols, column) then GetDoublesAt(cols, column) else [missing]
  }

  function Spans(cols: seq<TableColumn>, columns: seq<int>, missing: seq<real>): (r: seq<seq<real>>)
    requires |missing| == |columns|
    ensures |r| == |columns| && forall c :: 0 <= c < |columns| ==> r[c] == SpanFor(cols, columns[c], missing[c])
  {
    seq(|columns|, c requires 0 <= c < |columns| => SpanFor(cols, columns[c], missing[c]))
  }

  /** The length of the longest span, 0 for none. */
  function MaxLength(spans: seq<seq<real>>): (n: nat)
    ensures forall c :: 0 <= c < |spans| ==> |spans[c]| <= n
    ensures n == 0 || exists c :: 0 <= c < |spans| && |spans[c]| == n
    decreases |spans|
  {
    if spans == [] then 0
    else
      var rest := MaxLength(spans[..|spans| - 1]);
      if |spans[|spans| - 1]| > rest then |spans[|spans| - 1]| else rest
  }

  /** Argument c of invocation i: spans[c] read at i modulo its length. */
  function Broadcast(spans: seq<seq<real>>, i: nat): (r: seq<real>)
    requires forall c :: 0 <= c < |spans| ==> |spans[c]| > 0
    ensures |r| == |spans| && forall c :: 0 <= c < |spans| ==> r[c] == spans[c][i % |spans[c]|]
  {
    seq(|spans|, c requires 0 <= c < |spans| => spans[c][i % |spans[c]|])
  }

  /** Appending one span extends the maximum by that span's length. */
  lemma MaxLengthSnoc(spans: seq<seq<real>>, x: seq<real>)
    ensures MaxLength(spans + [x]) == if |x| > MaxLength(spans) then |x| else MaxLength(spans)
  {
    assert (spans + [x])[..|spans|] == spans;
  }

  /** The first loop of for_columns: seat a span per column and take the longest length. */
  method SeatSpans(cols: seq<TableColumn>, columns: seq<int>, missing: seq<real>) returns (spans: seq<seq<real>>, numRows: nat)
    requires |missing| == |columns|
    ensures spans == Spans(cols, columns, missing) && numRows == MaxLength(spans)
  {
    spans := [];
    numRows := 0;
    var i := 0;
    while i < |columns|
      invariant 0 <= i <= |columns|
      invariant |spans| == i
      invariant forall k :: 0 <= k < i ==> spans[k] == SpanFor(cols, columns[k], missing[k])
      invariant numRows == MaxLength(spans)
    {
      var column := columns[i];
      var span: seq<real>;
      if !HasColumn(cols, column) {
        span := [missing[i]];
      } else {
        span := GetDoublesAt(cols, column);
      }
      assert span == SpanFor(cols, column, missing[i]);
      MaxLengthSnoc(spans, span);
      spans := spans + [span];
      numRows := if numRows < |span| then |span| else numRows;
      i := i + 1;
    }
    ghost var want := Spans(cols, columns, missing);
    assert |want| == |spans|;
    assert forall k :: 0 <= k < |spans| ==> spans[k] == want[k];
  }

  /** The second loop of for_columns: one invocation per row, argument c read at the row modulo its span length. */
  method InvokeRows(spans: seq<seq<real>>, numRows: nat) returns (calls: seq<seq<real>>)
    requires numRows == 0 || forall c :: 0 <= c < |spans| ==> |spans[c]| > 0
    ensures |calls| == numRows
    ensures forall i :: 0 <= i < numRows ==> calls[i] == Broadcast(spans, i)
  {
    calls := [];
    var row := 0;
    while row < numRows
      invariant 0 <= row <= numRows
      invariant |calls| == row
      invariant forall j :: 0 <= j < row ==> calls[j] == Broadcast(spans, j)
    {
      var cache: seq<real> := [];
      var c := 0;
      while c < |spans|
        invariant 0 <= c <= |spans|
        invariant |cache| == c && forall k :: 0 <= k < c ==> cache[k] == spans[k][row % |spans[k]|]
      {
        var spSize := |spans[c]|;
        cache := cache + [spans[c][row % spSize]];
        c := c + 1;
      }
      calls := calls + [cache];
      row := row + 1;
    }
  }

  /**
   * for_columns: one invocation per row index in ascending order, as many as the
   * longest span (at least one when a column is missing); argument c of
   * invocation i is spans[c] at i modulo its length, so a missing column always
   * passes its missing value. A present but empty column read while there are
   * rows would take a modulus by zero, so that is excluded.
   */
  method ForColumns(cols: seq<TableColumn>, columns: seq<int>, missing: seq<real>) returns (calls: seq<seq<real>>)
    requires |missing| == |columns|
    requires var spans := Spans(cols, columns, missing);
      MaxLength(spans) == 0 || forall c :: 0 <= c < |spans| ==> |spans[c]| > 0
    ensures var spans := Spans(cols, columns, missing);
      && |calls| == MaxLength(spans)
      && forall i :: 0 <= i < |calls| ==> Broadcast(spans, i) == calls[i]
    ensures (exists c :: 0 <= c < |columns| && !HasColumn(cols, columns[c])) ==> |calls| >= 1
    ensures forall i, c :: 0 <= i < |calls| && 0 <= c < |columns| && !HasColumn(cols, columns[c]) ==> calls[i][c] == missing[c]
  {
    var spans, numRows := SeatSpans(cols, columns, missing);
    calls := InvokeRows(spans, numRows);
    if exists c :: 0 <= c < |columns| && !HasColumn(cols, columns[c]) {
      var c :| 0 <= c < |columns| && !HasColumn(cols, columns[c]);
      assert |spans[c]| == 1;
    }
    forall i, c | 0 <= i < |calls| && 0 <= c < |columns| && !HasColumn(cols, columns[c])
      ensures calls[i][c] == missing[c]
    {
      assert spans[c] == [missing[c]];
      assert calls[i][c] == spans[c][i % 1];
    }
  }
}
