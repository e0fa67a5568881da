/** The desktop tool's label table (`load_labels` in identify.py) and the text
    its `upload` handler shows for a predicted class index. */
module DesktopLabels {
  import opened LabelRows
  import ReactLabels

  /** The exception that escapes `load_labels`: `row[1]` on a row whose only
      field is an integer raises IndexError, which nothing catches. `row` is
      the position of that row among the CSV records. */
  datatype LoadError = IndexError(row: nat)

  datatype Result<T> = Ok(value: T) | Err(error: LoadError)

  /** (scientific, common) of a row: fields 1 and 2, the common name "" when
      the row has only two fields; fields beyond the third are ignored. */
  function Entry(row: seq<string>): (string, string)
  {
    (Field(row, 1), Field(row, 2))
  }

  /** A row that makes `load_labels` raise: an integer id and nothing else. */
  predicate MissingName(parse: string -> Option<int>, row: seq<string>)
  {
    |row| == 1 && parse(row[0]).Some?
  }

  /** The table of a file none of whose rows raise. */
  function Labels(parse: string -> Option<int>, rows: seq<seq<string>>): map<int, (string, string)>
  {
    Build(parse, Entry, rows)
  }

  /** `load_labels` over the rows the CSV reader yields: empty rows and rows
      whose first field is not an integer are skipped, the last row with an
      id wins, and the first row holding only an integer id aborts the load
      with IndexError. */
  method LoadLabels(parse: string -> Option<int>, rows: seq<seq<string>>) returns (r: Result<map<int, (string, string)>>)
    ensures r.Err? <==> exists i :: 0 <= i < |rows| && MissingName(parse, rows[i])
    ensures r.Err? ==> r.error.row < |rows| && MissingName(parse, rows[r.error.row])
                       && forall j :: 0 <= j < r.error.row ==> !MissingName(parse, rows[j])
    ensures r.Ok? ==> r.value == Labels(parse, rows)
  {
    var labels: map<int, (string, string)> := map[];
    var i := 0;
    while i < |rows|
      invariant 0 <= i <= |rows|
      invariant forall j :: 0 <= j < i ==> !MissingName(parse, rows[j])
      invariant labels == Labels(parse, rows[..i])
    {
      var row := rows[i];
      if |row| != 0 {
        var id := parse(row[0]);
        if id.Some? {
          var sci, com;
          if |row| >= 3 {
            sci, com := row[1], row[2];
          } else if |row| == 2 {
            sci, com := row[1], "";
          } else {
            return Err(IndexError(i));
          }
          labels := labels[id.value := (sci, com)];
        }
      }
      assert rows[..i + 1][..i] == rows[..i];
      i := i + 1;
    }
    assert rows[..|rows|] == rows;
    return Ok(labels);
  }

  /** `f"{com} ({sci})"` for the entry of `idx`, with ("Unknown", "Unknown")
      standing in for an absent index. */
  function DisplayText(labels: map<int, (string, string)>, idx: int): string
  {
    var (sci, com) := if idx in labels then labels[idx] else ("Unknown", "Unknown");
    com + " (" + sci + ")"
  }

  /** The label lookup of `upload`: load the table, then format the entry of
      the predicted index. A row that raises leaves the display unchanged
      (Err); otherwise the text comes from the last row carrying `idx`, or is
      "Unknown (Unknown)" when no row does. */
  method Upload(parse: string -> Option<int>, rows: seq<seq<string>>, idx: int) returns (r: Result<string>)
    ensures r.Err? <==> exists i :: 0 <= i < |rows| && MissingName(parse, rows[i])
    ensures r.Ok? && (forall i :: 0 <= i < |rows| ==> RowId(parse, rows[i]) != Some(idx))
            ==> r.value == "Unknown (Unknown)"
    ensures r.Ok? ==> forall i :: 0 <= i < |rows| && RowId(parse, rows[i]) == Some(idx) &&
                                  (forall j :: i < j < |rows| ==> RowId(parse, rows[j]) != Some(idx))
                              ==> r.value == Field(rows[i], 2) + " (" + Field(rows[i], 1) + ")"
  {
    var loaded := LoadLabels(parse, rows);
    match loaded
    case Err(e) =>
      r := Err(e);
    case Ok(labels) =>
      BuildDomain(parse, Entry, rows, idx);
      forall i | 0 <= i < |rows| && RowId(parse, rows[i]) == Some(idx) &&
                 (forall j :: i < j < |rows| ==> RowId(parse, rows[j]) != Some(idx))
        ensures idx in labels && labels[idx] == Entry(rows[i])
      {
        BuildLastWins(parse, Entry, rows, i);
      }
      r := Ok(DisplayText(labels, idx));
  }

  /** Where the two applications differ: for a row with an empty common name
      the React app shows the scientific name alone, the desktop tool shows
      " (sci)". */
  lemma EmptyCommonContrast(parse: string -> Option<int>, idField: string, sci: string, id: int)
    requires parse(idField) == Some(id)
    ensures ReactLabels.LabelTable(parse, [[idField, sci]]) == map[id := sci]
    ensures ReactLabels.LabelTable(parse, [[idField, sci, ""]]) == map[id := sci]
    ensures DisplayText(Labels(parse, [[idField, sci]]), id) == " (" + sci + ")"
    ensures DisplayText(Labels(parse, [[idField, sci, ""]]), id) == " (" + sci + ")"
  {
    BuildKeep(parse, ReactLabels.DisplayName, [], [idField, sci]);
    BuildKeep(parse, ReactLabels.DisplayName, [], [idField, sci, ""]);
    BuildKeep(parse, Entry, [], [idField, sci]);
    BuildKeep(parse, Entry, [], [idField, sci, ""]);
  }
}
