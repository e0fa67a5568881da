/** Rules shared by the two label loaders (the React app's `loadCSV` and the
    desktop tool's `load_labels`): rows arrive already tokenised by a CSV
    library, field 0 is parsed as an integer class id by a parser supplied
    from outside (JavaScript `parseInt` and Python `int` differ at the edges),
    rows whose id does not parse are skipped, and a later row with the same
    id overwrites an earlier one. */
module LabelRows {

  datatype Option<T> = None | Some(value: T)

  /** Field `i` of a row; a field the row does not have reads as "". */
  function Field(row: seq<string>, i: nat): string
  {
    if i < |row| then row[i] else ""
  }

  /** The class id of a row: its first field parsed as an integer, or None
      for an empty row or a first field that does not parse. */
  function RowId(parse: string -> Option<int>, row: seq<string>): Option<int>
  {
    if |row| == 0 then None else parse(row[0])
  }

  /** The table obtained by visiting the rows in order and, for each row with
      an id, storing `value(row)` under that id. */
  function Build<V>(parse: string -> Option<int>, value: seq<string> -> V, rows: seq<seq<string>>): map<int, V>
    decreases |rows|
  {
    if |rows| == 0 then map[]
    else
      var table := Build(parse, value, rows[..|rows| - 1]);
      var row := rows[|rows| - 1];
      match RowId(parse, row)
      case None => table
      case Some(id) => table[id := value(row)]
  }

  /** A row without an id leaves the table unchanged. */
  lemma BuildSkip<V>(parse: string -> Option<int>, value: seq<string> -> V, rows: seq<seq<string>>, row: seq<string>)
    requires RowId(parse, row).None?
    ensures Build(parse, value, rows + [row]) == Build(parse, value, rows)
  {
  }

  /** A row with an id stores its value under that id and changes nothing else. */
  lemma BuildKeep<V>(parse: string -> Option<int>, value: seq<string> -> V, rows: seq<seq<string>>, row: seq<string>)
    requires RowId(parse, row).Some?
    ensures Build(parse, value, rows + [row]) == Build(parse, value, rows)[RowId(parse, row).value := value(row)]
  {
  }

  /** The table holds exactly the ids of the rows that have one. */
  lemma {:induction false} BuildDomain<V>(parse: string -> Option<int>, value: seq<string> -> V, rows: seq<seq<string>>, id: int)
    ensures id in Build(parse, value, rows) <==> exists i :: 0 <= i < |rows| && RowId(parse, rows[i]) == Some(id)
    decreases |rows|
  {
    if |rows| > 0 {
      var n := |rows| - 1;
      var init := rows[..n];
      BuildDomain(parse, value, init, id);
      if exists i :: 0 <= i < |init| && RowId(parse, init[i]) == Some(id) {
        var i :| 0 <= i < |init| && RowId(parse, init[i]) == Some(id);
        assert rows[i] == init[i];
      }
      if exists i :: 0 <= i < |rows| && RowId(parse, rows[i]) == Some(id) {
        var i :| 0 <= i < |rows| && RowId(parse, rows[i]) == Some(id);
        if i < n {
          assert init[i] == rows[i];
        }
      }
    }
  }

  /** For an id shared by several rows, the value stored is that of the last
      such row. */
  lemma {:induction false} BuildLastWins<V>(parse: string -> Option<int>, value: seq<string> -> V, rows: seq<seq<string>>, i: nat)
    requires i < |rows| && RowId(parse, rows[i]).Some?
    requires forall j :: i < j < |rows| ==> RowId(parse, rows[j]) != RowId(parse, rows[i])
    ensures RowId(parse, rows[i]).value in Build(parse, value, rows)
    ensures Build(parse, value, rows)[RowId(parse, rows[i]).value] == value(rows[i])
    decreases |rows|
  {
    var n := |rows| - 1;
    if i < n {
      var init := rows[..n];
      forall j | i < j < |init|
        ensures RowId(parse, init[j]) != RowId(parse, init[i])
      {
        assert init[j] == rows[j];
      }
      BuildLastWins(parse, value, init, i);
      assert init[i] == rows[i];
    }
  }
}
