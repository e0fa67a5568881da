/** The React app's label table (`loadCSV` in NatureShieldReact/App.js): each
    row with an integer id maps that id to "common (scientific)", or to the
    scientific name alone when the common-name field is empty or missing. */
module ReactLabels {
  import opened LabelRows

  /** The display string of one row: `com ? "com (sci)" : sci`, where a
      missing field reads as "" (the source's `row[k] || ''`). */
  function DisplayName(row: seq<string>): string
  {
    var sci := Field(row, 1);
    var com := Field(row, 2);
    if com != "" then com + " (" + sci + ")" else sci
  }

  /** The table built from the rows, last row winning for a repeated id. */
  function LabelTable(parse: string -> Option<int>, rows: seq<seq<string>>): map<int, string>
  {
    Build(parse, DisplayName, rows)
  }

  /** `loadCSV`: `recs` is None when reading the resource or parsing it as CSV
      failed; the table is published only after the whole loop, so a failure
      yields the empty table and never a partial one. */
  method LoadCsv(parse: string -> Option<int>, recs: Option<seq<seq<string>>>) returns (table: map<int, string>)
    ensures recs.None? ==> table == map[]
    ensures recs.Some? ==> table == LabelTable(parse, recs.value)
  {
    table := map[];
    if recs.Some? {
      var rows := recs.value;
      var m: map<int, string> := map[];
      var i := 0;
      while i < |rows|
        invariant 0 <= i <= |rows|
        invariant m == LabelTable(parse, rows[..i])
      {
        var row := rows[i];
        var id := RowId(parse, row);
        if id.Some? {
          m := m[id.value := DisplayName(row)];
        }
        assert rows[..i + 1][..i] == rows[..i];
        i := i + 1;
      }
      assert rows[..|rows|] == rows;
      table := m;
    }
  }

  /** A row whose first field does not parse leaves the table unchanged. */
  lemma SkippedRowUnchanged(parse: string -> Option<int>, rows: seq<seq<string>>, row: seq<string>)
    requires RowId(parse, row).None?
    ensures LabelTable(parse, rows + [row]) == LabelTable(parse, rows)
  {
  }

  /** A row with an id stores "com (sci)" when its third field is present and
      non-empty and `sci` otherwise, a missing second field reading as "";
      no other entry changes. */
  lemma KeptRowLabel(parse: string -> Option<int>, rows: seq<seq<string>>, row: seq<string>, id: int)
    requires RowId(parse, row) == Some(id)
    ensures var sci := if |row| >= 2 then row[1] else "";
            LabelTable(parse, rows + [row]) == LabelTable(parse, rows)[id :=
              if |row| >= 3 && row[2] != "" then row[2] + " (" + sci + ")" else sci]
  {
  }

  /** The table contains exactly the ids of the kept rows, and an id maps to
      the display string of the last row carrying it. */
  lemma LabelTableLookup(parse: string -> Option<int>, rows: seq<seq<string>>, id: int)
    ensures id in LabelTable(parse, rows) <==> exists i :: 0 <= i < |rows| && RowId(parse, rows[i]) == Some(id)
    ensures forall i :: 0 <= i < |rows| && RowId(parse, rows[i]) == Some(id) &&
                        (forall j :: i < j < |rows| ==> RowId(parse, rows[j]) != Some(id))
                    ==> id in LabelTable(parse, rows) && LabelTable(parse, rows)[id] == DisplayName(rows[i])
  {
    BuildDomain(parse, DisplayName, rows, id);
    forall i | 0 <= i < |rows| && RowId(parse, rows[i]) == Some(id) &&
               (forall j :: i < j < |rows| ==> RowId(parse, rows[j]) != Some(id))
      ensures id in LabelTable(parse, rows) && LabelTable(parse, rows)[id] == DisplayName(rows[i])
    {
      BuildLastWins(parse, DisplayName, rows, i);
    }
  }
}
