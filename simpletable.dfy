/**
 * SimpleTable from src/simpletable.cpp: the table plots read their columns
 * from. Only its constructor (columns and the initial key maps) and
 * modify_selection are modelled; the selection update it asks for goes to the
 * table host, recorded here as a request log.
 */
module SimpleTables {
  import opened Options
  import opened Selections

  /** A column as stored: a list of reals or a list of strings, with a name. */
  datatype TableColumn =
    | RealColumn(name: string, reals: seq<real>)
    | StringColumn(name: string, strings: seq<string>)

  function ColumnSize(c: TableColumn): nat {
    match c
    case RealColumn(_, r) => |r|
    case StringColumn(_, s) => |s|
  }

  /** A column as handed to the constructor: its name, its reals and its strings. */
  datatype LoadColumn = LoadColumn(name: string, reals: seq<real>, strings: seq<string>)

  /** One ask_update_selection call: the slot and the rows asked for. */
  datatype SelectionRequest = SelectionRequest(slot: string, rows: seq<int>)

  /** The column the constructor stores for a loaded column: its reals if it has any, else its strings. */
  function StoredColumn(a: LoadColumn): (c: TableColumn)
    ensures c.name == a.name
    ensures c.RealColumn? <==> a.reals != []
    ensures c.RealColumn? ==> c.reals == a.reals
    ensures c.StringColumn? ==> c.strings == a.strings
  {
    if |a.reals| > 0 then RealColumn(a.name, a.reals) else StringColumn(a.name, a.strings)
  }

  /** The key map after the constructor has written m_key_to_row_map[i] = i for every i < n. */
  function IdentityMap(n: nat): (m: map<nat, nat>)
    ensures forall k :: k in m <==> 0 <= k < n
    ensures forall k :: k in m ==> m[k] == k
    decreases n
  {
    if n == 0 then map[] else IdentityMap(n - 1)[n - 1 := n - 1]
  }

  /** The row->key list and the key->row map are mutually inverse. */
  predicate Inverse(rowToKey: seq<nat>, keyToRow: map<nat, nat>) {
    && (forall r :: 0 <= r < |rowToKey| ==> rowToKey[r] in keyToRow && keyToRow[rowToKey[r]] == r)
    && (forall k :: k in keyToRow ==> keyToRow[k] < |rowToKey| && rowToKey[keyToRow[k]] == k)
  }

  class SimpleTable {
    var name: string
    var columns: seq<TableColumn>
    var counter: nat
    var rowToKey: seq<nat>
    var keyToRow: map<nat, nat>
    var selections: map<string, seq<int>>
    var requests: seq<SelectionRequest>

    /**
     * The (name, columns) constructor. An empty column list leaves the table
     * without columns or keys. Otherwise each column is stored by StoredColumn,
     * the counter is the first column's size, and row i has key i.
     */
    constructor (n: string, cols: seq<LoadColumn>)
      ensures name == n && selections == map[] && requests == []
      ensures cols == [] ==> columns == [] && counter == 0 && rowToKey == [] && keyToRow == map[]
      ensures cols != [] ==>
        && |columns| == |cols|
        && (forall i :: 0 <= i < |cols| ==> columns[i] == StoredColumn(cols[i]))
        && counter == ColumnSize(columns[0])
        && rowToKey == seq(counter, i => i)
        && keyToRow == IdentityMap(counter)
      ensures Inverse(rowToKey, keyToRow)
    {
      name := n;
      columns := [];
      counter := 0;
      rowToKey := [];
      keyToRow := map[];
      selections := map[];
      requests := [];
      new;
      if cols == [] {
        return;
      }
      var cs: seq<TableColumn> := [];
      var j := 0;
      while j < |cols|
        invariant 0 <= j <= |cols|
        invariant |cs| == j && forall i :: 0 <= i < j ==> cs[i] == StoredColumn(cols[i])
      {
        cs := cs + [StoredColumn(cols[j])];
        j := j + 1;
      }
      columns := cs;
      counter := ColumnSize(cs[0]);

      // m_row_to_key_map.resize(m_counter), then std::iota
      var rk: seq<nat> := seq(counter, _ => 0);
      var r := 0;
      while r < counter
        invariant 0 <= r <= counter && |rk| == counter
        invariant forall i :: 0 <= i < r ==> rk[i] == i
      {
        rk := rk[r := r];
        r := r + 1;
      }
      rowToKey := rk;

      var m: map<nat, nat> := map[];
      var i := 0;
      while i < |rk|
        invariant 0 <= i <= |rk|
        invariant m == IdentityMap(i)
      {
        m := m[i := i];
        i := i + 1;
      }
      keyToRow := m;
    }

    /**
     * modify_selection: a subtraction from a missing slot asks for nothing;
     * otherwise one update is asked for, with the keys (replace, or a missing
     * slot), the current rows without the keys (subtract) or the sorted union
     * (union).
     */
    method ModifySelection(slot: string, keys: seq<int>, action: int)
      modifies this`requests
      ensures match NextSelection(if slot in selections then Some(selections[slot]) else None, keys, action)
        case None => requests == old(requests)
        case Some(rows) => requests == old(requests) + [SelectionRequest(slot, rows)]
    {
      if slot !in selections {
        if action < 0 {
          return;
        }
        requests := requests + [SelectionRequest(slot, keys)];
        return;
      }
      var current := selections[slot];
      if action == 0 {
        requests := requests + [SelectionRequest(slot, keys)];
        return;
      }
      if action < 0 {
        var newList := Difference(current, keys);
        requests := requests + [SelectionRequest(slot, newList)];
        return;
      }
      var newList := SortUnique(keys + current);
      requests := requests + [SelectionRequest(slot, newList)];
    }
  }
}
