/**
 * The detection task's evaluation: accuracy over the rows of the results file that have at
 * least five fields, the truth and prediction being the last two; with no such row the
 * result carries nothing but an error. The classification report is not modelled.
 */
module DetectionEvaluation {
  import opened Wrappers
  import opened PyStr
  import opened PyIO
  import opened RecordStore
  import opened Metrics
  import DetectionModels
  import DetectionData

  /** The fewest fields a row must have to be evaluated. */
  const MinFields := 5

  /** The dictionary evaluate_results returns: an "error" entry only, or the accuracy and the row count. */
  datatype Report = ErrorOnly(error: string) | Scored(accuracy: real, totalSamples: nat)

  /** What evaluate_results makes of the lines of a results file. */
  function Evaluation(lines: seq<string>): (r: Report)
    ensures r.ErrorOnly? <==> Pairs(lines, MinFields) == []
    ensures r.ErrorOnly? ==> r.error == "No valid results found"
    ensures r.Scored? ==> r.totalSamples == |Pairs(lines, MinFields)| >= 1
                          && r.accuracy == Matches(Pairs(lines, MinFields)) as real / r.totalSamples as real
  {
    var pairs := Pairs(lines, MinFields);
    if pairs == [] then ErrorOnly("No valid results found") else Scored(Accuracy(pairs), |pairs|)
  }

  /**
   * evaluate_results: the line loop gathers y_true and y_pred; opening a missing file
   * raises FileNotFoundError, whose text names the path.
   */
  method EvaluateResults(saveFile: string, f: File) returns (r: Result<Report>)
    ensures f.None? ==> r == Err(NotFound(saveFile))
    ensures f.Some? ==> r == Ok(Evaluation(ReadLines(f.value)))
  {
    if f.None? {
      return Err(NotFound(saveFile));
    }
    var yTrue, yPred := ExtractPairs(PairReader(MinFields), ReadLines(f.value));
    if yTrue == [] {
      return Ok(ErrorOnly("No valid results found"));
    }
    var pairs := Zip(yTrue, yPred);
    r := Ok(Scored(Accuracy(pairs), |yTrue|));
  }

  /**
   * display_metrics: only the error line when the report is an error; otherwise the total
   * and the accuracy, shown with four decimals by `show4` (the per-class lines are not modelled).
   */
  function DisplayMetrics(report: Report, show4: real -> string): (lines: seq<string>)
    ensures report.ErrorOnly? ==> lines == ["[ERROR] " + report.error]
    ensures report.Scored? ==> lines == ["Total samples evaluated: " + NatStr(report.totalSamples),
                                         "Accuracy Score: " + show4(report.accuracy)]
  {
    match report
    case ErrorOnly(e) => ["[ERROR] " + e]
    case Scored(accuracy, total) => ["Total samples evaluated: " + NatStr(total), "Accuracy Score: " + show4(accuracy)]
  }

  /** A file without a qualifying row is reported by its error alone. */
  lemma NoRowsOnlyError(lines: seq<string>, show4: real -> string)
    requires Pairs(lines, MinFields) == []
    ensures DisplayMetrics(Evaluation(lines), show4) == ["[ERROR] No valid results found"]
  {
    assert Evaluation(lines) == ErrorOnly("No valid results found");
    assert "[ERROR] " + "No valid results found" == "[ERROR] No valid results found";
  }

  /** A file whose qualifying rows read as `pairs` is scored over those pairs. */
  lemma ScoredOver(lines: seq<string>, pairs: seq<(string, string)>)
    requires Pairs(lines, MinFields) == pairs && pairs != []
    ensures Evaluation(lines) == Scored(Accuracy(pairs), |pairs|)
  {
  }

  /**
   * Rows appended by a run are scored after what the file held before: the total grows by
   * their count, and the accuracy is over the earlier pairs followed by theirs.
   */
  lemma EvaluatesAppendedRows(content: string, rows: seq<seq<string>>)
    requires content == [] || content[|content| - 1] == '\n'
    requires rows != [] && forall i :: 0 <= i < |rows| ==> |rows[i]| >= 2 && Readable(rows[i], MinFields)
    ensures var before := Pairs(ReadLines(content), MinFields);
            Evaluation(ReadLines(content + Written(rows))) == Scored(Accuracy(before + RowPairs(rows)), |before| + |rows|)
  {
    WrittenPairs(content, rows, MinFields);
    ScoredOver(ReadLines(content + Written(rows)), Pairs(ReadLines(content), MinFields) + RowPairs(rows));
  }

  /** Two saved rows of which one agrees score 0.5 over 2 samples. */
  lemma HalfOfTwoRows(id1: string, id2: string, text: string, reason: string, a: string, b: string)
    requires IsKey(id1) && IsKey(id2)
    requires a in DetectionModels.ValidAnswers && b in DetectionModels.ValidAnswers && a != b
    ensures var r1 := DetectionData.ResultRow(id1, text, reason, a, a);
            var r2 := DetectionData.ResultRow(id2, text, reason, a, b);
            Evaluation(ReadLines(Row(r1) + Row(r2))) == Scored(0.5, 2)
  {
    var r1 := DetectionData.ResultRow(id1, text, reason, a, a);
    var r2 := DetectionData.ResultRow(id2, text, reason, a, b);
    DetectionData.ResultRowReadable(id1, text, reason, a, a);
    DetectionData.ResultRowReadable(id2, text, reason, a, b);
    TwoRowsRead(r1, r2);
    HalfAgree((a, a), (a, b));
    ScoredOver(ReadLines(Row(r1) + Row(r2)), [(a, a), (a, b)]);
  }

  /** Two readable rows written to an empty file read back as their two pairs. */
  lemma TwoRowsRead(r1: seq<string>, r2: seq<string>)
    requires Readable(r1, MinFields) && Readable(r2, MinFields)
    ensures Pairs(ReadLines(Row(r1) + Row(r2)), MinFields) == [LastTwo(r1), LastTwo(r2)]
  {
    AppendRowPairs("", r1, MinFields);
    assert "" + Row(r1) == Row(r1);
    assert Pairs(ReadLines(""), MinFields) == [];
    RowEndsWithNewline(r1);
    AppendRowPairs(Row(r1), r2, MinFields);
  }
}
