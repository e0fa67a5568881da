/** The `runModelOnImage` callback of the React app's `Classify`
    (NatureShieldReact/App.js): the engine's answer is turned into the text
    shown under "Result:". */
module ReactInference {
  import opened LabelRows
  import opened ReactLabels

  const ErrorText := "Error"
  const UnknownText := "Unknown"
  const NoResultText := "No result"

  /** What the engine passes to the callback: an error, or a (possibly null)
      list of recognitions, each reduced to its class index. */
  datatype EngineReply = EngineError | Recognitions(indices: Option<seq<int>>)

  /** The top class index of a successful, non-empty reply. */
  function TopIndex(reply: EngineReply): Option<int>
  {
    if reply.Recognitions? && reply.indices.Some? && |reply.indices.value| > 0
    then Some(reply.indices.value[0])
    else None
  }

  /** The displayed text: "Error" on an engine error; for a non-empty list,
      the label of the first index, "Unknown" only when that key is absent
      (`??` does not replace a present empty label); otherwise "No result". */
  function Resolve(labels: map<int, string>, reply: EngineReply): (shown: string)
    ensures reply.EngineError? ==> shown == ErrorText
    ensures !reply.EngineError? && TopIndex(reply).None? ==> shown == NoResultText
    ensures TopIndex(reply).Some? && TopIndex(reply).value in labels ==> shown == labels[TopIndex(reply).value]
    ensures TopIndex(reply).Some? && TopIndex(reply).value !in labels ==> shown == UnknownText
  {
    match reply
    case EngineError => ErrorText
    case Recognitions(res) =>
      if res.Some? && |res.value| > 0 then
        var idx := res.value[0];
        if idx in labels then labels[idx] else UnknownText
      else NoResultText
  }

  /** Resolution against a table loaded from rows: the top index shows the
      display string of the last row carrying it, or "Unknown" when no row
      carries it. */
  lemma ResolveAgainstRows(parse: string -> Option<int>, rows: seq<seq<string>>, reply: EngineReply)
    ensures reply.EngineError? ==> Resolve(LabelTable(parse, rows), reply) == ErrorText
    ensures !reply.EngineError? && TopIndex(reply).None? ==> Resolve(LabelTable(parse, rows), reply) == NoResultText
    ensures TopIndex(reply).Some? && (forall i :: 0 <= i < |rows| ==> RowId(parse, rows[i]) != TopIndex(reply))
            ==> Resolve(LabelTable(parse, rows), reply) == UnknownText
    ensures forall i :: 0 <= i < |rows| && TopIndex(reply).Some? && RowId(parse, rows[i]) == TopIndex(reply) &&
                        (forall j :: i < j < |rows| ==> RowId(parse, rows[j]) != TopIndex(reply))
                    ==> Resolve(LabelTable(parse, rows), reply) == DisplayName(rows[i])
  {
    if TopIndex(reply).Some? {
      LabelTableLookup(parse, rows, TopIndex(reply).value);
    }
  }

  /** Three rows, one with a non-numeric id, and four engine replies against
      the resulting table. Both integer parsers agree on these fields. */
  lemma ExampleTableAndReplies(parse: string -> Option<int>)
    requires parse("12") == Some(12) && parse("x") == None && parse("7") == Some(7)
    ensures var rows := [["12", "Rosa gallica", "French rose"], ["x", "bad", "bad"], ["7", "Quercus robur", ""]];
            var table := LabelTable(parse, rows);
            && table == map[12 := "French rose (Rosa gallica)", 7 := "Quercus robur"]
            && Resolve(table, Recognitions(Some([7]))) == "Quercus robur"
            && Resolve(table, Recognitions(Some([99]))) == "Unknown"
            && Resolve(table, Recognitions(Some([]))) == "No result"
            && Resolve(table, EngineError) == "Error"
  {
    var r0 := ["12", "Rosa gallica", "French rose"];
    var r1 := ["x", "bad", "bad"];
    var r2 := ["7", "Quercus robur", ""];
    var rose := "French rose (Rosa gallica)";
    var oak := "Quercus robur";
    assert DisplayName(r0) == rose;
    assert DisplayName(r2) == oak;
    assert LabelTable(parse, []) == map[];
    KeptRowLabel(parse, [], r0, 12);
    assert [] + [r0] == [r0];
    assert LabelTable(parse, [r0]) == map[12 := rose];
    SkippedRowUnchanged(parse, [r0], r1);
    assert [r0] + [r1] == [r0, r1];
    assert LabelTable(parse, [r0, r1]) == map[12 := rose];
    KeptRowLabel(parse, [r0, r1], r2, 7);
    assert [r0, r1] + [r2] == [r0, r1, r2];
    var table := LabelTable(parse, [r0, r1, r2]);
    assert table == map[12 := rose, 7 := oak];
    assert 99 !in table;
  }
}
