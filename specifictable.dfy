/**
 * SpecificTable from src/simpletable.h: a row store with stable keys, parallel
 * per-column vectors, row caches, named selection slots, and the signals it
 * emits (recorded as an event log).
 *
 * The column element types of the template are not modelled: every column holds
 * the CBOR values it was given (the noo::from_cbor conversion is the identity
 * here), and a read past the end of a row yields Undefined as QCborArray does.
 */
module SpecificTables {
  import opened Cbor
  import opened Options
  import opened Sequences
  import opened Selections

  /** noo::Selection: a named slot with row keys and key ranges. */
  datatype Selection = Selection(name: string, rows: seq<int>, rowRanges: seq<(int, int)>)

  /** The signals the table emits: table_row_updated, table_row_deleted, table_reset, table_selection_updated. */
  datatype TableEvent =
    | RowsUpdated(keys: seq<Value>, rows: seq<seq<Value>>)
    | RowsDeleted(deletedKeys: seq<int>)
    | TableReset
    | SelectionUpdated(selection: Selection)

  /** LoadTableColumn as the column constructor reads it: a name and its values. */
  datatype LoadTableColumn = LoadTableColumn(name: string, values: seq<Value>)

  const EmptyColumn: LoadTableColumn := LoadTableColumn("", [])

  /** The int64 -> uint64 conversion applied when a key indexes m_key_to_row_map. */
  const U64Modulus: nat := 0x1_0000_0000_0000_0000

  function AsKey(k: int): (r: nat)
    ensures r < U64Modulus
    ensures 0 <= k < U64Modulus ==> r == k
    ensures -(U64Modulus as int) <= k < 0 ==> r as int == k + U64Modulus as int
  {
    k % U64Modulus
  }

  /** Column c of an incoming row (the row value converted with toArray). */
  function Cell(row: Value, c: nat): Value {
    At(ToArray(row), c)
  }

  /** The values a batch of incoming rows adds to column c. */
  function NewColumn(rows: seq<Value>, c: nat): (r: seq<Value>)
    ensures |r| == |rows|
    ensures forall j :: 0 <= j < |rows| ==> r[j] == Cell(rows[j], c)
  {
    seq(|rows|, j requires 0 <= j < |rows| => Cell(rows[j], c))
  }

  /** An incoming row padded with Undefined and truncated to n columns. */
  function FitRow(row: Value, n: nat): seq<Value> {
    Fit(ToArray(row), n, Undefined)
  }

  /** Keys firstKey .. firstKey+n-1 mapped to rows firstRow .. firstRow+n-1. */
  function NewKeyMap(firstKey: nat, firstRow: nat, n: nat): (m: map<nat, nat>)
    ensures forall k :: k in m <==> firstKey <= k < firstKey + n
    ensures forall k :: k in m ==> m[k] == firstRow + (k - firstKey)
    decreases n
  {
    if n == 0 then map[]
    else NewKeyMap(firstKey, firstRow, n - 1)[firstKey + n - 1 := firstRow + n - 1]
  }

  /** The keys next_counter hands out for n rows when the counter starts at first. */
  function NewKeys(first: nat, n: nat): seq<nat> {
    seq(n, i => first + i)
  }

  /** The rows as common_insert stores and reports them. */
  function FittedRows(rows: seq<Value>, n: nat): (r: seq<seq<Value>>)
    ensures |r| == |rows| && forall i :: 0 <= i < |rows| ==> r[i] == FitRow(rows[i], n)
  {
    seq(|rows|, i requires 0 <= i < |rows| => FitRow(rows[i], n))
  }

  /** One more incoming row appended to every column extends each column's new values by that row's cell. */
  lemma ColumnsStep(d0: seq<seq<Value>>, before: seq<seq<Value>>, after: seq<seq<Value>>, rows: seq<Value>, v: Value, n: nat)
    requires |d0| >= n && |before| >= n && |after| >= n
    requires forall c :: 0 <= c < n ==> before[c] == d0[c] + NewColumn(rows, c)
    requires forall c :: 0 <= c < n ==> after[c] == before[c] + [Cell(v, c)]
    ensures forall c :: 0 <= c < n ==> after[c] == d0[c] + NewColumn(rows + [v], c)
  {
    forall c | 0 <= c < n
      ensures after[c] == d0[c] + NewColumn(rows + [v], c)
    {
      assert NewColumn(rows + [v], c) == NewColumn(rows, c) + [Cell(v, c)];
    }
  }

  /** Mapping the next key to the next row extends a key map that already holds a batch of new keys. */
  lemma KeyMapStep(m0: map<nat, nat>, before: map<nat, nat>, after: map<nat, nat>, firstKey: nat, firstRow: nat, n: nat)
    requires before == m0 + NewKeyMap(firstKey, firstRow, n)
    requires after == before[firstKey + n := firstRow + n]
    ensures after == m0 + NewKeyMap(firstKey, firstRow, n + 1)
  {
    MapUnionUpdate(m0, NewKeyMap(firstKey, firstRow, n), firstKey + n, firstRow + n);
  }

  /** One more incoming row extends the new keys and the stored rows by one entry. */
  lemma BatchStep(rows: seq<Value>, v: Value, keys: seq<nat>, stored: seq<seq<Value>>, firstKey: nat, n: nat)
    requires keys == NewKeys(firstKey, |rows|) && stored == FittedRows(rows, n)
    ensures keys + [firstKey + |rows|] == NewKeys(firstKey, |rows| + 1)
    ensures stored + [FitRow(v, n)] == FittedRows(rows + [v], n)
  {
  }

  function AsValues(keys: seq<nat>): seq<Value> {
    seq(|keys|, i requires 0 <= i < |keys| => Integer(keys[i]))
  }

  // ---------------------------------------------------------------- update

  /** The map key handle_update looks up for entry i: toInteger(-1) of raw_keys[i], as uint64. */
  function UpdateKey(rawKeys: seq<Value>, i: nat): nat {
    AsKey(ToInteger(At(rawKeys, i), -1))
  }

  /** The row entry i of an update writes, if its key is in the key->row map. */
  function UpdateTarget(keyToRow: map<nat, nat>, rawKeys: seq<Value>, i: nat): Option<nat> {
    var k := UpdateKey(rawKeys, i);
    if k in keyToRow then Some(keyToRow[k]) else None
  }

  /** The last of the first n update entries that writes row r (later entries overwrite earlier ones). */
  function LastWriter(keyToRow: map<nat, nat>, rawKeys: seq<Value>, n: nat, r: nat): (w: Option<nat>)
    ensures w.Some? ==> w.value < n && UpdateTarget(keyToRow, rawKeys, w.value) == Some(r)
    ensures w.Some? ==> forall i :: w.value < i < n ==> UpdateTarget(keyToRow, rawKeys, i) != Some(r)
    ensures w.None? ==> forall i :: 0 <= i < n ==> UpdateTarget(keyToRow, rawKeys, i) != Some(r)
    decreases n
  {
    if n == 0 then None
    else if UpdateTarget(keyToRow, rawKeys, n - 1) == Some(r) then Some(n - 1)
    else LastWriter(keyToRow, rawKeys, n - 1, r)
  }

  /** Cell (r, c) after the first n update entries: the last entry naming row r wins, otherwise the old cell stays. */
  function UpdatedCell(keyToRow: map<nat, nat>, rawKeys: seq<Value>, rawRows: seq<Value>, n: nat, numCols: nat,
                       r: nat, c: nat, oldCell: Value): Value
    requires n <= |rawRows| && c < numCols
  {
    match LastWriter(keyToRow, rawKeys, n, r)
    case Some(j) => FitRow(rawRows[j], numCols)[c]
    case None => oldCell
  }

  /**
   * The columns d0 after the first n update entries, applied in order: an entry
   * whose key is in the key->row map overwrites that row with its fitted row.
   */
  function ApplyUpdates(d0: seq<seq<Value>>, keyToRow: map<nat, nat>, rawKeys: seq<Value>, rawRows: seq<Value>,
                        n: nat, numCols: nat, numRows: nat): (r: seq<seq<Value>>)
    requires n <= |rawRows| && |d0| == numCols && (forall c :: 0 <= c < numCols ==> |d0[c]| == numRows)
    requires UpdateInRange(keyToRow, rawKeys, n, numRows)
    ensures |r| == numCols && forall c :: 0 <= c < numCols ==> |r[c]| == numRows
    decreases n
  {
    if n == 0 then d0
    else
      var prev := ApplyUpdates(d0, keyToRow, rawKeys, rawRows, n - 1, numCols, numRows);
      match UpdateTarget(keyToRow, rawKeys, n - 1)
      case None => prev
      case Some(row) =>
        var fitted := FitRow(rawRows[n - 1], numCols);
        seq(numCols, c requires 0 <= c < numCols => prev[c][row := fitted[c]])
  }

  /**
   * Applying the first n update entries in order leaves every cell as
   * UpdatedCell describes it: the last entry that names its row wins, and a row
   * no entry names keeps its old cells.
   */
  lemma {:induction false} ApplyUpdatesCells(d0: seq<seq<Value>>, keyToRow: map<nat, nat>, rawKeys: seq<Value>,
                                             rawRows: seq<Value>, n: nat, numCols: nat, numRows: nat)
    requires n <= |rawRows| && |d0| == numCols && (forall c :: 0 <= c < numCols ==> |d0[c]| == numRows)
    requires UpdateInRange(keyToRow, rawKeys, n, numRows)
    ensures forall r, c :: 0 <= r < numRows && 0 <= c < numCols ==>
      ApplyUpdates(d0, keyToRow, rawKeys, rawRows, n, numCols, numRows)[c][r] ==
      UpdatedCell(keyToRow, rawKeys, rawRows, n, numCols, r, c, d0[c][r])
    decreases n
  {
    if n > 0 {
      ApplyUpdatesCells(d0, keyToRow, rawKeys, rawRows, n - 1, numCols, numRows);
      var t := UpdateTarget(keyToRow, rawKeys, n - 1);
      forall r, c | 0 <= r < numRows && 0 <= c < numCols
        ensures ApplyUpdates(d0, keyToRow, rawKeys, rawRows, n, numCols, numRows)[c][r] ==
                UpdatedCell(keyToRow, rawKeys, rawRows, n, numCols, r, c, d0[c][r])
      {
        if t == Some(r) {
          assert LastWriter(keyToRow, rawKeys, n, r) == Some(n - 1);
        } else {
          assert LastWriter(keyToRow, rawKeys, n, r) == LastWriter(keyToRow, rawKeys, n - 1, r);
        }
      }
    }
  }

  /** The fixed rows handle_update reports: one per entry whose key was found, in order. */
  function FixedRows(keyToRow: map<nat, nat>, rawKeys: seq<Value>, rawRows: seq<Value>, n: nat, numCols: nat): seq<seq<Value>>
    requires n <= |rawRows|
    decreases n
  {
    if n == 0 then []
    else FixedRows(keyToRow, rawKeys, rawRows, n - 1, numCols) +
         (if UpdateTarget(keyToRow, rawKeys, n - 1).Some? then [FitRow(rawRows[n - 1], numCols)] else [])
  }

  /** Every found key of the first n entries maps to an existing row (otherwise the write is out of bounds). */
  predicate UpdateInRange(keyToRow: map<nat, nat>, rawKeys: seq<Value>, n: nat, numRows: nat) {
    forall i :: 0 <= i < n && UpdateTarget(keyToRow, rawKeys, i).Some? ==> UpdateTarget(keyToRow, rawKeys, i).value < numRows
  }

  // -------------------------------------------------------------- deletion

  /** m_key_to_row_map[key]: operator[] yields 0 for a key that is not in the map. */
  function Resolve(keyToRow: map<nat, nat>, k: int): nat {
    if AsKey(k) in keyToRow then keyToRow[AsKey(k)] else 0
  }

  function ResolvedRows(keyToRow: map<nat, nat>, keys: seq<int>): (r: seq<int>)
    ensures |r| == |keys|
    ensures forall i :: 0 <= i < |keys| ==> r[i] == Resolve(keyToRow, keys[i])
  {
    seq(|keys|, i requires 0 <= i < |keys| => Resolve(keyToRow, keys[i]))
  }

  /** The distinct rows handle_deletion erases, ascending. */
  function DeletedRows(keyToRow: map<nat, nat>, keys: seq<int>): seq<int> {
    SortUnique(ResolvedRows(keyToRow, keys))
  }

  /** The entries operator[] inserts: every unknown key maps to row 0. */
  function DefaultEntries(keyToRow: map<nat, nat>, keys: seq<int>): map<nat, nat> {
    map k | k in KeySet(keys) && k !in keyToRow :: 0
  }

  /** The map keys a list of int64 keys converts to. */
  function KeySet(keys: seq<int>): set<nat> {
    set j | j in keys :: AsKey(j)
  }

  /** Every key names a row that exists (an erase past the end is undefined behaviour). */
  predicate DeletionInRange(keyToRow: map<nat, nat>, keys: seq<int>, numRows: nat) {
    forall i :: 0 <= i < |keys| ==> Resolve(keyToRow, keys[i]) < numRows
  }

  // ------------------------------------------------- deletion, two defects

  /**
   * handle_deletion as written never touches the key->row map again: after
   * deleting key 0 of the keys 0, 1, 2, key 1 still maps to row 1, which now
   * holds key 2, so a later handle_update of key 1 overwrites key 2's row.
   */
  lemma StaleMapAfterDeletion()
    ensures var m: map<nat, nat> := map[0 := 0, 1 := 1, 2 := 2];
      var kept := Keep<nat>([0, 1, 2], Elems(DeletedRows(m, [0])));
      && kept == [1, 2]
      && m + DefaultEntries(m, [0]) == m
      && UpdateTarget(m, [Integer(1)], 0) == Some(1)
      && kept[1] == 2
  {
    var m: map<nat, nat> := map[0 := 0, 1 := 1, 2 := 2];
    DeleteOneKnownKey(m, 0);
    KeepFirstOfThree(0, 1, 2);
    assert UpdateKey([Integer(1)], 0) == 1;
  }

  /** Deleting one key the map knows erases exactly its row and adds no map entry. */
  lemma DeleteOneKnownKey(m: map<nat, nat>, k: int)
    requires AsKey(k) in m
    ensures Elems(DeletedRows(m, [k])) == {m[AsKey(k)]}
    ensures m + DefaultEntries(m, [k]) == m
  {
    assert ResolvedRows(m, [k]) == [m[AsKey(k)]];
    assert SortUnique([m[AsKey(k)]]) == InsertSorted(m[AsKey(k)], []) == [m[AsKey(k)]];
    assert KeySet([k]) == {AsKey(k)};
    assert DefaultEntries(m, [k]) == map[];
  }

  lemma KeepFirstOfThree(a: nat, b: nat, c: nat)
    ensures Keep<nat>([a, b, c], {0}) == [b, c]
  {
    var s: seq<nat> := [a, b, c];
    assert s[..2] == [a, b] && s[..2][..1] == [a] && s[..2][..1][..0] == [];
    assert Keep<nat>([a], {0}) == Keep<nat>([], {0}) == [];
    assert Keep<nat>([a, b], {0}) == Keep<nat>([a], {0}) + [b];
  }

  /** operator[] resolves a key the map does not know to row 0, so deleting key 5 erases row 0. */
  lemma UnknownKeyErasesRowZero()
    ensures DeletedRows(map[0 := 0, 1 := 1], [5]) == [0]
    ensures Keep([7, 8], Elems(DeletedRows(map[0 := 0, 1 := 1], [5]))) == [8]
  {
    DeleteOneUnknownKey(map[0 := 0, 1 := 1], 5);
    assert Elems([0]) == {0};
    var s: seq<int> := [7, 8];
    assert s[..1] == [7] && s[..1][..0] == [];
    assert Keep(s[..1], {0}) == [];
  }

  /** Deleting one key the map does not know resolves to row 0. */
  lemma DeleteOneUnknownKey(m: map<nat, nat>, k: int)
    requires AsKey(k) !in m
    ensures DeletedRows(m, [k]) == [0]
  {
    assert ResolvedRows(m, [k]) == [0];
    assert SortUnique([0]) == InsertSorted(0, []) == [0];
  }

  /** The keys of a deletion that the key->row map knows, in order. */
  function KnownKeys(keyToRow: map<nat, nat>, keys: seq<int>): (r: seq<int>)
    ensures forall k :: k in r <==> k in keys && AsKey(k) in keyToRow
    ensures Subsequence(r, keys)
    decreases |keys|
  {
    if keys == [] then []
    else
      var init, last := keys[..|keys| - 1], keys[|keys| - 1];
      var known := KnownKeys(keyToRow, init);
      assert keys == init + [last];
      if AsKey(last) in keyToRow then
        assert (known + [last])[..|known|] == known;
        known + [last]
      else known
  }

  /** The rows a deletion is evidently meant to erase: those of the known keys, ascending and distinct. */
  function KnownDeletedRows(keyToRow: map<nat, nat>, keys: seq<int>): seq<int> {
    SortUnique(ResolvedRows(keyToRow, KnownKeys(keyToRow, keys)))
  }

  /** Only the rows of keys the map knows are erased, each once, and an unknown key erases nothing. */
  lemma KnownDeletedRowsExact(keyToRow: map<nat, nat>, keys: seq<int>)
    ensures StrictlyIncreasing(KnownDeletedRows(keyToRow, keys))
    ensures forall r :: r in Elems(KnownDeletedRows(keyToRow, keys)) <==>
      exists k :: k in keys && AsKey(k) in keyToRow && keyToRow[AsKey(k)] == r
  {
    var known := KnownKeys(keyToRow, keys);
    var resolved := ResolvedRows(keyToRow, known);
    forall r ensures r in Elems(resolved) <==> exists k :: k in keys && AsKey(k) in keyToRow && keyToRow[AsKey(k)] == r {
      if r in Elems(resolved) {
        var i :| 0 <= i < |resolved| && resolved[i] == r;
        assert known[i] in known;
      }
      if exists k :: k in keys && AsKey(k) in keyToRow && keyToRow[AsKey(k)] == r {
        var k :| k in keys && AsKey(k) in keyToRow && keyToRow[AsKey(k)] == r;
        var i :| 0 <= i < |known| && known[i] == k;
        assert resolved[i] == r;
      }
    }
  }

  /** The key->row map rebuilt from a key list: key kl[r] maps to row r. */
  function KeyMapOf(kl: seq<nat>): (m: map<nat, nat>)
    requires StrictlyIncreasing(kl)
    ensures forall r :: 0 <= r < |kl| ==> kl[r] in m && m[kl[r]] == r
    ensures forall k :: k in m ==> k in kl
    decreases |kl|
  {
    if kl == [] then map[]
    else KeyMapOf(kl[..|kl| - 1])[kl[|kl| - 1] := |kl| - 1]
  }

  /** Keeping some entries of a strictly increasing key list keeps it strictly increasing. */
  lemma {:induction false} KeepIncreasing(kl: seq<nat>, rows: set<int>)
    requires StrictlyIncreasing(kl)
    ensures StrictlyIncreasing(Keep(kl, rows))
    ensures forall k :: k in Keep(kl, rows) ==> k in kl
    decreases |kl|
  {
    if kl != [] {
      var init, last := kl[..|kl| - 1], kl[|kl| - 1];
      KeepIncreasing(init, rows);
      var t := Keep(init, rows);
      var r := Keep(kl, rows);
      if |kl| - 1 !in rows {
        assert r == t + [last];
        forall i, j | 0 <= i < j < |r| ensures r[i] < r[j] {
          if j == |t| {
            assert r[i] == t[i] && t[i] in t;
            var q :| 0 <= q < |init| && init[q] == t[i];
          }
        }
      }
    }
  }

  /**
   * With the map rebuilt from the surviving key list after a deletion, every
   * surviving key finds its own row and a deleted key finds none, so a later
   * update writes the row that holds its key.
   */
  lemma RebuiltMapFindsOwnRow(kl: seq<nat>, rows: set<int>)
    requires StrictlyIncreasing(kl)
    ensures StrictlyIncreasing(Keep(kl, rows))
    ensures var kept := Keep(kl, rows);
      && (forall r :: 0 <= r < |kept| ==> kept[r] in KeyMapOf(kept) && KeyMapOf(kept)[kept[r]] == r)
      && (forall k :: k in KeyMapOf(kept) ==> k in kept)
  {
    KeepIncreasing(kl, rows);
  }

  // ------------------------------------------------------------ selections

  /** The rows of a slot, or None when there is no such slot. */
  function CurrentRows(selections: map<string, Selection>, slot: string): Option<seq<int>> {
    if slot in selections then Some(selections[slot].rows) else None
  }

  /** handle_set_selection stores s under its name, then drops the slot again when s is empty. */
  function StoredSelection(selections: map<string, Selection>, s: Selection): (r: map<string, Selection>)
    ensures s.name in r <==> !(s.rows == [] && s.rowRanges == [])
    ensures s.name in r ==> r[s.name] == s
    ensures forall n :: n != s.name ==> (n in r <==> n in selections) && (n in r ==> r[n] == selections[n])
  {
    if s.rows == [] && s.rowRanges == [] then selections - {s.name} else selections[s.name := s]
  }

  /** A modify_selection whose result is empty removes the slot, and a non-empty one stores it. */
  lemma ModifiedSlot(selections: map<string, Selection>, slot: string, keys: seq<int>, action: int)
    requires NextSelection(CurrentRows(selections, slot), keys, action).Some?
    ensures var rows := NextSelection(CurrentRows(selections, slot), keys, action).value;
      var r := StoredSelection(selections, Selection(slot, rows, []));
      (slot in r <==> rows != []) && (rows != [] ==> r[slot].rows == rows)
  {
  }

  // ------------------------------------------------------ column transpose

  /** The header list the column constructor collects: the name of every column, in order. */
  method ColumnNames(cols: seq<LoadTableColumn>) returns (hs: seq<string>)
    ensures |hs| == |cols| && forall c :: 0 <= c < |cols| ==> hs[c] == cols[c].name
  {
    hs := [];
    var k := 0;
    while k < |cols|
      invariant 0 <= k <= |cols|
      invariant |hs| == k && forall c :: 0 <= c < k ==> hs[c] == cols[c].name
    {
      hs := hs + [cols[k].name];
      k := k + 1;
    }
  }

  /** Row j of a set of columns: entry j of every column, Undefined past a column's end. */
  function ColumnsRow(cols: seq<LoadTableColumn>, j: nat): (row: seq<Value>)
    ensures |row| == |cols| && forall c :: 0 <= c < |cols| ==> row[c] == At(cols[c].values, j)
  {
    seq(|cols|, c requires 0 <= c < |cols| => At(cols[c].values, j))
  }

  /** The column constructor's transpose: one array row per row index below numRows. */
  method TransposeColumns(cols: seq<LoadTableColumn>, numRows: nat) returns (datas: seq<Value>)
    ensures |datas| == numRows && forall j :: 0 <= j < numRows ==> datas[j] == Array(ColumnsRow(cols, j))
  {
    datas := [];
    var i := 0;
    while i < numRows
      invariant 0 <= i <= numRows
      invariant |datas| == i && forall j :: 0 <= j < i ==> datas[j] == Array(ColumnsRow(cols, j))
    {
      var row: seq<Value> := [];
      var hi := 0;
      while hi < |cols|
        invariant 0 <= hi <= |cols|
        invariant |row| == hi && forall c :: 0 <= c < hi ==> row[c] == At(cols[c].values, i)
      {
        row := row + [At(cols[hi].values, i)];
        hi := hi + 1;
      }
      datas := datas + [Array(row)];
      i := i + 1;
    }
  }

  /** Inserting the transposed rows gives every column back its own values, padded with Undefined to numRows. */
  lemma TransposedColumns(cols: seq<LoadTableColumn>, numRows: nat, datas: seq<Value>)
    requires |datas| == numRows && forall j :: 0 <= j < numRows ==> datas[j] == Array(ColumnsRow(cols, j))
    ensures forall c :: 0 <= c < |cols| ==> NewColumn(datas, c) == seq(numRows, j => At(cols[c].values, j))
  {
    forall c | 0 <= c < |cols|
      ensures NewColumn(datas, c) == seq(numRows, j => At(cols[c].values, j))
    {
      assert forall j :: 0 <= j < numRows ==> NewColumn(datas, c)[j] == ColumnsRow(cols, j)[c];
    }
  }

  class SpecificTable {
    const numCols: nat
    var name: string
    var headers: seq<string>
    var keyList: seq<nat>
    var data: seq<seq<Value>>
    var keyToRow: map<nat, nat>
    var selections: map<string, Selection>
    var counter: nat
    var cachedKeys: seq<nat>
    var cachedRows: seq<seq<Value>>
    var events: seq<TableEvent>

    /**
     * The columns, the key list and both caches are parallel, the cached row r
     * is data row r, and the keys are strictly increasing and below the counter.
     * The key->row map is deliberately not part of this: deletion leaves it stale.
     */
    ghost predicate Valid()
      reads this
    {
      && numCols >= 1
      && |headers| == numCols
      && |data| == numCols
      && (forall c :: 0 <= c < numCols ==> |data[c]| == |keyList|)
      && cachedKeys == keyList
      && |cachedRows| == |keyList|
      && (forall r :: 0 <= r < |keyList| ==> |cachedRows[r]| == numCols)
      && (forall r, c :: 0 <= r < |keyList| && 0 <= c < numCols ==> cachedRows[r][c] == data[c][r])
      && StrictlyIncreasing(keyList)
      && (forall i :: 0 <= i < |keyList| ==> keyList[i] < counter)
    }

    /** The state after common_insert(newRows) relative to the state before it. */
    twostate predicate Appended(newRows: seq<Value>)
      reads this`counter, this`keyList, this`data, this`keyToRow, this`headers, this`selections
    {
      && counter == old(counter) + |newRows|
      && keyList == old(keyList) + NewKeys(old(counter), |newRows|)
      && |data| == |old(data)|
      && (forall c :: 0 <= c < |data| ==> data[c] == old(data[c]) + NewColumn(newRows, c))
      && keyToRow == old(keyToRow) + NewKeyMap(old(counter), |old(keyList)|, |newRows|)
      && headers == old(headers) && selections == old(selections)
    }

    /** fill_array: row r read across all columns. */
    function RowAt(r: nat): (row: seq<Value>)
      reads this
      requires |data| == numCols && forall c :: 0 <= c < numCols ==> r < |data[c]|
      ensures |row| == numCols && forall c :: 0 <= c < numCols ==> row[c] == data[c][r]
    {
      seq(numCols, c requires 0 <= c < numCols && c < |data| && r < |data[c]| reads this => data[c][r])
    }

    /** next_counter: hand out the current counter and increment it. */
    method NextCounter() returns (key: nat)
      modifies this`counter
      ensures key == old(counter) && counter == old(counter) + 1
    {
      key := counter;
      counter := counter + 1;
    }

    /** decode_array: append entry c of arr (Undefined past its end) to every column c. */
    method DecodeArray(arr: seq<Value>)
      requires |data| == numCols
      modifies this`data
      ensures |data| == numCols
      ensures forall c :: 0 <= c < numCols ==> data[c] == old(data[c]) + [At(arr, c)]
    {
      var d, n := data, numCols;
      data := seq(n, c requires 0 <= c < n && c < |d| => d[c] + [At(arr, c)]);
    }

    /** decode_array_at: overwrite row r of every column c with entry c of arr. */
    method DecodeArrayAt(r: nat, arr: seq<Value>)
      requires |data| == numCols && forall c :: 0 <= c < numCols ==> r < |data[c]|
      modifies this`data
      ensures |data| == numCols
      ensures forall c :: 0 <= c < numCols ==> data[c] == old(data[c])[r := At(arr, c)]
    {
      var d, n := data, numCols;
      data := seq(n, c requires 0 <= c < n && c < |d| && r < |d[c]| => d[c][r := At(arr, c)]);
    }

    /** One iteration of common_insert: append row v under the next key. */
    method InsertRow(v: Value) returns (key: nat, stored: seq<Value>)
      requires Valid()
      modifies this`counter, this`keyList, this`cachedKeys, this`keyToRow, this`data, this`cachedRows
      ensures Valid()
      ensures key == old(counter) && counter == old(counter) + 1
      ensures keyList == old(keyList) + [key]
      ensures |data| == numCols && forall c :: 0 <= c < numCols ==> data[c] == old(data[c]) + [Cell(v, c)]
      ensures keyToRow == old(keyToRow)[key := |old(keyList)|]
      ensures stored == FitRow(v, numCols)
    {
      key := NextCounter();
      keyList := keyList + [key];
      cachedKeys := cachedKeys + [key];

      var row := |data[0]|;
      keyToRow := keyToRow[key := row];

      DecodeArray(ToArray(v));
      stored := RowAt(row);
      cachedRows := cachedRows + [stored];
    }

    /**
     * The state after common_insert has handled the incoming rows `rows`, from a
     * start with counter c0, key list k0, columns d0 and key->row map m0, having
     * returned the keys retKeys and the rows retRows so far.
     */
    ghost predicate InsertedSoFar(rows: seq<Value>, c0: nat, k0: seq<nat>, d0: seq<seq<Value>>, m0: map<nat, nat>,
                                  retKeys: seq<nat>, retRows: seq<seq<Value>>)
      reads this
    {
      && Valid()
      && counter == c0 + |rows|
      && retKeys == NewKeys(c0, |rows|)
      && keyList == k0 + retKeys
      && |data| == |d0|
      && (forall c :: 0 <= c < numCols ==> data[c] == d0[c] + NewColumn(rows, c))
      && keyToRow == m0 + NewKeyMap(c0, |k0|, |rows|)
      && retRows == FittedRows(rows, numCols)
    }

    /** common_insert's loop body: one more incoming row inserted keeps InsertedSoFar, one row longer. */
    method InsertNext(rows: seq<Value>, v: Value, ghost c0: nat, ghost k0: seq<nat>, ghost d0: seq<seq<Value>>,
                      ghost m0: map<nat, nat>, keys: seq<nat>, stored: seq<seq<Value>>)
      returns (keys': seq<nat>, stored': seq<seq<Value>>)
      requires InsertedSoFar(rows, c0, k0, d0, m0, keys, stored)
      modifies this`counter, this`keyList, this`cachedKeys, this`keyToRow, this`data, this`cachedRows
      ensures InsertedSoFar(rows + [v], c0, k0, d0, m0, keys', stored')
    {
      ghost var data0, map0 := data, keyToRow;
      var key, row := InsertRow(v);
      keys' := keys + [key];
      stored' := stored + [row];
      ColumnsStep(d0, data0, data, rows, v, numCols);
      KeyMapStep(m0, map0, keyToRow, c0, |k0|, |rows|);
      BatchStep(rows, v, keys, stored, c0, numCols);
    }

    /** Keys handed out from a counter above every existing key are new, and they map to the rows they were appended at. */
    lemma NewKeysPlaced(c0: nat, k0: seq<nat>, m0: map<nat, nat>, n: nat,
                        keys: seq<nat>, allKeys: seq<nat>, keyMap: map<nat, nat>)
      requires forall i :: 0 <= i < |k0| ==> k0[i] < c0
      requires keys == NewKeys(c0, n) && allKeys == k0 + keys && keyMap == m0 + NewKeyMap(c0, |k0|, n)
      ensures forall k :: k in keys ==> k !in k0
      ensures forall i :: 0 <= i < |keys| ==> keyMap[keys[i]] == |k0| + i && allKeys[keyMap[keys[i]]] == keys[i]
    {
      forall i | 0 <= i < |keys|
        ensures keys[i] in keyMap && keyMap[keys[i]] == |k0| + i && allKeys[keyMap[keys[i]]] == keys[i]
      {
        assert keys[i] == c0 + i;
        assert keys[i] in NewKeyMap(c0, |k0|, n);
      }
    }

    /** common_insert's loop: the incoming rows inserted one after the other. */
    method InsertAll(newRows: seq<Value>) returns (retKeys: seq<nat>, retRows: seq<seq<Value>>)
      requires Valid()
      modifies this`counter, this`keyList, this`cachedKeys, this`keyToRow, this`data, this`cachedRows
      ensures InsertedSoFar(newRows, old(counter), old(keyList), old(data), old(keyToRow), retKeys, retRows)
    {
      ghost var c0, k0, d0, m0 := counter, keyList, data, keyToRow;
      retKeys, retRows := [], [];
      assert newRows[..0] == [];
      assert m0 + NewKeyMap(c0, |k0|, 0) == m0;
      var i := 0;
      while i < |newRows|
        invariant 0 <= i <= |newRows|
        invariant InsertedSoFar(newRows[..i], c0, k0, d0, m0, retKeys, retRows)
      {
        retKeys, retRows := InsertNext(newRows[..i], newRows[i], c0, k0, d0, m0, retKeys, retRows);
        assert newRows[..i] + [newRows[i]] == newRows[..i + 1];
        i := i + 1;
      }
      assert newRows[..i] == newRows;
    }

    /**
     * common_insert: every incoming row gets the next key, is appended to the
     * key list, the key cache and every column, and its key is mapped to the row
     * where its data went. Returns the new keys and the rows as stored.
     */
    method CommonInsert(newRows: seq<Value>) returns (retKeys: seq<nat>, retRows: seq<seq<Value>>)
      requires Valid()
      modifies this`counter, this`keyList, this`cachedKeys, this`keyToRow, this`data, this`cachedRows
      ensures Valid()
      ensures Appended(newRows)
      ensures retKeys == NewKeys(old(counter), |newRows|) && retRows == FittedRows(newRows, numCols)
      ensures forall k :: k in retKeys ==> k !in old(keyList)
      ensures forall i :: 0 <= i < |retKeys| ==> keyToRow[retKeys[i]] == |old(keyList)| + i && keyList[keyToRow[retKeys[i]]] == retKeys[i]
    {
      ghost var c0, k0, m0 := counter, keyList, keyToRow;
      retKeys, retRows := InsertAll(newRows);
      assert Valid() && Appended(newRows);
      NewKeysPlaced(c0, k0, m0, |newRows|, retKeys, keyList, keyToRow);
    }

    /**
     * The header constructor: the headers are truncated or padded with empty
     * names to the column count, then the initial rows are inserted.
     */
    constructor FromHeaders(n: nat, headers0: seq<string>, initRows: seq<Value>)
      requires n >= 1
      ensures Valid() && numCols == n
      ensures headers == Fit(headers0, n, "")
      ensures counter == |initRows| && keyList == seq(|initRows|, i => i)
      ensures forall c :: 0 <= c < n ==> data[c] == NewColumn(initRows, c)
      ensures keyToRow == NewKeyMap(0, 0, |initRows|)
      ensures selections == map[] && events == []
    {
      var hs := FitLoop(headers0, n, "");
      numCols := n;
      name := "";
      headers := hs;
      keyList, cachedKeys, cachedRows := [], [], [];
      data := seq(n, _ => []);
      keyToRow := map[];
      selections := map[];
      counter := 0;
      events := [];
      new;
      var _, _ := CommonInsert(initRows);
    }

    /**
     * The column constructor: the columns are truncated or padded with empty
     * columns to the column count, their names become the headers, the row count
     * is the length of the first column, and the columns are transposed into rows
     * that are then inserted.
     */
    constructor FromColumns(n: nat, name0: string, rawCols: seq<LoadTableColumn>)
      requires n >= 1
      ensures Valid() && numCols == n && name == name0
      ensures var cols := Fit(rawCols, n, EmptyColumn);
        && headers == seq(n, c requires 0 <= c < n => cols[c].name)
        && counter == |cols[0].values|
        && keyList == seq(|cols[0].values|, i => i)
        && (forall c :: 0 <= c < n ==> data[c] == seq(|cols[0].values|, i => At(cols[c].values, i)))
        && keyToRow == NewKeyMap(0, 0, |cols[0].values|)
      ensures selections == map[] && events == []
    {
      var localC := FitLoop(rawCols, n, EmptyColumn);
      var hs := ColumnNames(localC);
      var numRows := |localC[0].values|;
      var datas := TransposeColumns(localC, numRows);

      numCols := n;
      name := name0;
      headers := hs;
      keyList, cachedKeys, cachedRows := [], [], [];
      data := seq(n, _ => []);
      keyToRow := map[];
      selections := map[];
      counter := 0;
      events := [];
      new;
      var _, _ := CommonInsert(datas);
      TransposedColumns(localC, numRows, datas);
    }

    /** handle_insert: common_insert, then signal the new keys and the rows as stored. */
    method HandleInsert(newRows: seq<Value>)
      requires Valid()
      modifies this`counter, this`keyList, this`cachedKeys, this`keyToRow, this`data, this`cachedRows, this`events
      ensures Valid()
      ensures Appended(newRows)
      ensures events == old(events) + [RowsUpdated(AsValues(NewKeys(old(counter), |newRows|)), FittedRows(newRows, numCols))]
    {
      var keys, rows := CommonInsert(newRows);
      events := events + [RowsUpdated(AsValues(keys), rows)];
    }

    /**
     * handle_update: for each entry whose key is in the key->row map, pad and
     * truncate the row to the header count and overwrite that row's data and
     * cached row. Unknown keys are skipped; a row named twice keeps the last
     * entry; rows no entry names are unchanged.
     */
    method HandleUpdate(rawKeys: seq<Value>, rawRows: seq<Value>)
      requires Valid()
      requires UpdateInRange(keyToRow, rawKeys, |rawRows|, |keyList|)
      modifies this`data, this`cachedRows, this`events
      ensures Valid()
      ensures forall r, c :: 0 <= r < |keyList| && 0 <= c < numCols ==>
        data[c][r] == UpdatedCell(keyToRow, rawKeys, rawRows, |rawRows|, numCols, r, c, old(data[c][r]))
      ensures events == old(events) + [RowsUpdated(rawKeys, FixedRows(keyToRow, rawKeys, rawRows, |rawRows|, numCols))]
    {
      ghost var d0 := data;
      var fixedRows: seq<seq<Value>> := [];
      var i := 0;
      while i < |rawRows|
        invariant 0 <= i <= |rawRows|
        invariant Valid()
        invariant data == ApplyUpdates(d0, keyToRow, rawKeys, rawRows, i, numCols, |keyList|)
        invariant fixedRows == FixedRows(keyToRow, rawKeys, rawRows, i, numCols)
        invariant events == old(events)
      {
        fixedRows := UpdateEntry(rawKeys, rawRows, i, d0, fixedRows);
        i := i + 1;
      }
      ApplyUpdatesCells(d0, keyToRow, rawKeys, rawRows, |rawRows|, numCols, |keyList|);
      events := events + [RowsUpdated(rawKeys, fixedRows)];
    }

    /**
     * One iteration of handle_update's loop: an entry whose key is not in the
     * key->row map is skipped; otherwise its row, padded and truncated to the
     * header count, overwrites the data and cached row its key maps to.
     */
    method UpdateEntry(rawKeys: seq<Value>, rawRows: seq<Value>, i: nat, ghost d0: seq<seq<Value>>, fixedRows: seq<seq<Value>>)
      returns (fixedRows': seq<seq<Value>>)
      requires Valid() && i < |rawRows|
      requires UpdateInRange(keyToRow, rawKeys, |rawRows|, |keyList|)
      requires |d0| == numCols && forall c :: 0 <= c < numCols ==> |d0[c]| == |keyList|
      requires data == ApplyUpdates(d0, keyToRow, rawKeys, rawRows, i, numCols, |keyList|)
      requires fixedRows == FixedRows(keyToRow, rawKeys, rawRows, i, numCols)
      modifies this`data, this`cachedRows
      ensures Valid()
      ensures data == ApplyUpdates(d0, keyToRow, rawKeys, rawRows, i + 1, numCols, |keyList|)
      ensures fixedRows' == FixedRows(keyToRow, rawKeys, rawRows, i + 1, numCols)
    {
      var k := UpdateKey(rawKeys, i);
      if k !in keyToRow {
        fixedRows' := fixedRows;
        return;
      }
      var actualRow := keyToRow[k];
      assert UpdateTarget(keyToRow, rawKeys, i) == Some(actualRow);
      var rawRow := FitLoop(ToArray(rawRows[i]), |headers|, Undefined);
      assert rawRow == FitRow(rawRows[i], numCols);
      WriteRow(actualRow, rawRow);
      fixedRows' := fixedRows + [rawRow];
    }

    /** m_cached_rows[row] = raw_row followed by decode_array_at. */
    method WriteRow(r: nat, row: seq<Value>)
      requires Valid() && r < |keyList| && |row| == numCols
      modifies this`data, this`cachedRows
      ensures Valid()
      ensures |data| == numCols && forall c :: 0 <= c < numCols ==> data[c] == old(data[c])[r := row[c]]
      ensures cachedRows == old(cachedRows)[r := row]
    {
      cachedRows := cachedRows[r := row];
      DecodeArrayAt(r, row);
    }

    /** The body of the erase loop of handle_deletion: remove row r from the caches, the key list and every column. */
    method EraseRow(r: nat)
      requires Valid() && r < |keyList|
      modifies this`cachedKeys, this`cachedRows, this`keyList, this`data
      ensures Valid()
      ensures keyList == Erase(old(keyList), r) && cachedRows == Erase(old(cachedRows), r)
      ensures |data| == numCols && forall c :: 0 <= c < numCols ==> data[c] == Erase(old(data[c]), r)
    {
      cachedKeys := Erase(cachedKeys, r);
      cachedRows := Erase(cachedRows, r);
      keyList := Erase(keyList, r);
      var d, n := data, numCols;
      data := seq(n, c requires 0 <= c < n && c < |d| && r < |d[c]| => Erase(d[c], r));
    }

    /** The first loop of handle_deletion: look each key up with operator[], which inserts unknown keys as row 0. */
    method ResolveKeys(keys: seq<int>) returns (rowIds: seq<int>)
      modifies this`keyToRow
      ensures rowIds == ResolvedRows(old(keyToRow), keys)
      ensures keyToRow == old(keyToRow) + DefaultEntries(old(keyToRow), keys)
    {
      rowIds := [];
      var i := 0;
      while i < |keys|
        invariant 0 <= i <= |keys|
        invariant rowIds == ResolvedRows(old(keyToRow), keys[..i])
        invariant forall x :: x in keyToRow <==> x in old(keyToRow) || x in KeySet(keys[..i])
        invariant forall x :: x in keyToRow ==> keyToRow[x] == if x in old(keyToRow) then old(keyToRow)[x] else 0
      {
        var k := AsKey(keys[i]);
        if k !in keyToRow {
          keyToRow := keyToRow[k := 0];
        }
        rowIds := rowIds + [keyToRow[k]];
        assert keys[..i + 1] == keys[..i] + [keys[i]];
        assert KeySet(keys[..i + 1]) == KeySet(keys[..i]) + {k};
        i := i + 1;
      }
      assert keys[..i] == keys;
      assert forall x :: x in keyToRow <==> x in old(keyToRow) + DefaultEntries(old(keyToRow), keys);
    }

    /**
     * One iteration of handle_deletion's erase loop: with only rows above row
     * erased so far, erasing row from the key list, the cached rows and every
     * column leaves exactly the rows of the original not erased.
     */
    method EraseNext(row: int, ghost done: set<int>, ghost k0: seq<nat>, ghost cr0: seq<seq<Value>>, ghost d0: seq<seq<Value>>)
      requires Valid() && 0 <= row < |k0| && forall x :: x in done ==> x > row
      requires |cr0| == |k0| && |d0| == numCols && forall c :: 0 <= c < numCols ==> |d0[c]| == |k0|
      requires keyList == Keep(k0, done) && cachedRows == Keep(cr0, done)
      requires forall c :: 0 <= c < numCols ==> data[c] == Keep(d0[c], done)
      modifies this`cachedKeys, this`cachedRows, this`keyList, this`data
      ensures Valid()
      ensures keyList == Keep(k0, done + {row}) && cachedRows == Keep(cr0, done + {row})
      ensures forall c :: 0 <= c < numCols ==> data[c] == Keep(d0[c], done + {row})
    {
      KeepErase(k0, done, row);
      KeepErase(cr0, done, row);
      forall c | 0 <= c < numCols
        ensures Keep(d0[c], done + {row}) == Erase(Keep(d0[c], done), row)
      {
        KeepErase(d0[c], done, row);
      }
      EraseRow(row);
    }

    /** The erase loop of handle_deletion: erase the given ascending rows, largest first. */
    method EraseRows(rowIds: seq<int>)
      requires Valid()
      requires StrictlyIncreasing(rowIds)
      requires forall i :: 0 <= i < |rowIds| ==> 0 <= rowIds[i] < |keyList|
      modifies this`cachedKeys, this`cachedRows, this`keyList, this`data
      ensures Valid()
      ensures keyList == Keep(old(keyList), Elems(rowIds))
      ensures |keyList| == |old(keyList)| - |rowIds|
      ensures cachedRows == Keep(old(cachedRows), Elems(rowIds))
      ensures forall c :: 0 <= c < numCols ==> data[c] == Keep(old(data[c]), Elems(rowIds))
    {
      ghost var k0, cr0, d0 := keyList, cachedRows, data;
      KeepNone(k0, {});
      KeepNone(cr0, {});
      forall c | 0 <= c < numCols
        ensures Keep(d0[c], {}) == d0[c]
      {
        KeepNone(d0[c], {});
      }
      ghost var done: set<int> := {};
      var n := |rowIds|;
      assert Elems(rowIds[n..]) == {};
      while n > 0
        invariant 0 <= n <= |rowIds|
        invariant Valid()
        invariant done == Elems(rowIds[n..])
        invariant 0 < n ==> forall x :: x in done ==> x > rowIds[n - 1]
        invariant keyList == Keep(k0, done)
        invariant cachedRows == Keep(cr0, done)
        invariant forall c :: 0 <= c < numCols ==> data[c] == Keep(d0[c], done)
      {
        n := n - 1;
        var row := rowIds[n];
        EraseNext(row, done, k0, cr0, d0);
        ElemsCons(rowIds, n);
        done := done + {row};
      }
      assert rowIds[0..] == rowIds;
      KeepLength(k0, rowIds);
    }

    /**
     * handle_deletion: resolve the keys to rows (an unknown key resolves to row 0
     * and gains a map entry), sort and deduplicate the rows, and erase them in
     * descending order. What remains are the rows not erased, in order; the
     * key->row map is not recomputed.
     */
    method HandleDeletion(keys: seq<int>)
      requires Valid()
      requires DeletionInRange(keyToRow, keys, |keyList|)
      modifies this`cachedKeys, this`cachedRows, this`keyList, this`data, this`keyToRow, this`events
      ensures Valid()
      ensures var rows := DeletedRows(old(keyToRow), keys);
        && keyList == Keep(old(keyList), Elems(rows))
        && |keyList| == |old(keyList)| - |rows|
        && cachedRows == Keep(old(cachedRows), Elems(rows))
        && forall c :: 0 <= c < numCols ==> data[c] == Keep(old(data[c]), Elems(rows))
      ensures keyToRow == old(keyToRow) + DefaultEntries(old(keyToRow), keys)
      ensures events == old(events) + [RowsDeleted(keys)]
    {
      var resolved := ResolveKeys(keys);
      var rowIds := SortUnique(resolved);
      forall i | 0 <= i < |rowIds|
        ensures 0 <= rowIds[i] < |keyList|
      {
        assert rowIds[i] in Elems(rowIds);
        var q :| 0 <= q < |resolved| && resolved[q] == rowIds[i];
      }
      EraseRows(rowIds);
      events := events + [RowsDeleted(keys)];
    }

    /** rebuild_cache: the key cache becomes the key list and cached row r becomes data row r. */
    method RebuildCache()
      requires |data| == numCols && forall c :: 0 <= c < numCols ==> |keyList| <= |data[c]|
      modifies this`cachedKeys, this`cachedRows
      ensures cachedKeys == keyList && |cachedRows| == |keyList|
      ensures forall r :: 0 <= r < |keyList| ==> cachedRows[r] == RowAt(r)
    {
      cachedKeys := [];
      cachedRows := [];
      var i := 0;
      while i < |keyList|
        invariant 0 <= i <= |keyList|
        invariant cachedKeys == keyList[..i] && cachedRows == []
      {
        cachedKeys := cachedKeys + [keyList[i]];
        i := i + 1;
      }
      var ri := 0;
      while ri < |keyList|
        invariant 0 <= ri <= |keyList|
        invariant cachedKeys == keyList
        invariant |cachedRows| == ri && forall r :: 0 <= r < ri ==> cachedRows[r] == RowAt(r)
      {
        var row := RowAt(ri);
        cachedRows := cachedRows + [row];
        ri := ri + 1;
      }
    }

    /**
     * handle_reset: every column and the key list are cleared and the caches
     * rebuilt (so empty). The counter and the key->row map are left as they were.
     */
    method HandleReset()
      requires Valid()
      modifies this`data, this`keyList, this`cachedKeys, this`cachedRows, this`events
      ensures Valid()
      ensures keyList == [] && cachedKeys == [] && cachedRows == []
      ensures |data| == numCols && forall c :: 0 <= c < numCols ==> data[c] == []
      ensures counter == old(counter) && keyToRow == old(keyToRow)
      ensures events == old(events) + [TableReset]
    {
      data := seq(numCols, _ => []);
      keyList := [];
      RebuildCache();
      events := events + [TableReset];
    }

    /** handle_set_selection: store the selection, signal it, and drop the slot if it is empty. */
    method HandleSetSelection(s: Selection)
      modifies this`selections, this`events
      ensures selections == StoredSelection(old(selections), s)
      ensures events == old(events) + [SelectionUpdated(s)]
    {
      selections := selections[s.name := s];
      events := events + [SelectionUpdated(s)];
      if s.rowRanges == [] && s.rows == [] {
        selections := selections - {s.name};
      }
    }

    /**
     * modify_selection: a subtraction from a missing slot does nothing; otherwise
     * the slot is set to the keys (replace, or a missing slot), the current rows
     * without the keys (subtract), or the sorted union (union).
     */
    method ModifySelection(slot: string, keys: seq<int>, action: int)
      modifies this`selections, this`events
      ensures match NextSelection(CurrentRows(old(selections), slot), keys, action)
        case None => selections == old(selections) && events == old(events)
        case Some(rows) =>
          selections == StoredSelection(old(selections), Selection(slot, rows, [])) &&
          events == old(events) + [SelectionUpdated(Selection(slot, rows, []))]
    {
      if slot !in selections {
        if action < 0 {
          return;
        }
        HandleSetSelection(Selection(slot, keys, []));
        return;
      }
      var current := selections[slot];
      if action == 0 {
        HandleSetSelection(Selection(slot, keys, []));
        return;
      }
      if action < 0 {
        var newList := Difference(current.rows, keys);
        HandleSetSelection(Selection(slot, newList, []));
        return;
      }
      var newList := SortUnique(keys + current.rows);
      HandleSetSelection(Selection(slot, newList, []));
    }
  }
}
