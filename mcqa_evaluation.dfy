/**
 * The multiple-choice evaluation: accuracy over the rows of the results file that have at
 * least eight fields (so both the nine-field easy rows and the eight-field hard rows), the
 * truth and prediction being the last two. With no such row nothing is computed. Precision,
 * recall, F1, the report and the confusion matrix are not modelled.
 */
module McqaEvaluation {
  import opened Wrappers
  import opened PyStr
  import opened PyIO
  import opened RecordStore
  import opened Metrics
  import McqaModels
  import McqaData

  /** The fewest fields a row must have to be evaluated. */
  const MinFields := 8

  /** What calculate_metrics arrives at: nothing to score, or the accuracy over the (truth, prediction) pairs. */
  datatype Summary = NoValidData | Scored(accuracy: real, pairs: seq<(string, string)>)

  /** What calculate_metrics makes of the lines of a results file. */
  function Evaluation(lines: seq<string>): (r: Summary)
    ensures r.NoValidData? <==> Pairs(lines, MinFields) == []
    ensures r.Scored? ==> r.pairs == Pairs(lines, MinFields)
                          && r.accuracy == Matches(r.pairs) as real / |r.pairs| as real
  {
    var pairs := Pairs(lines, MinFields);
    if pairs == [] then NoValidData else Scored(Accuracy(pairs), pairs)
  }

  /** calculate_metrics on an existing file: the line loop gathers y_true and y_pred, then scores them. */
  method CalculateMetrics(content: string) returns (r: Summary)
    ensures r == Evaluation(ReadLines(content))
  {
    var yTrue, yPred := ExtractPairs(PairReader(MinFields), ReadLines(content));
    if yTrue == [] {
      return NoValidData;
    }
    var pairs := Zip(yTrue, yPred);
    r := Scored(Accuracy(pairs), pairs);
  }

  /** A row of fewer than eight clean fields, such as a detection row, is not evaluated. */
  lemma ShortRowIgnored(fields: seq<string>)
    requires 1 <= |fields| < MinFields
    requires forall i :: 0 <= i < |fields| ==> IsClean(fields[i])
    requires fields[0] != [] && !IsSpace(fields[0][0])
    requires var l := fields[|fields| - 1]; l != [] && !IsSpace(l[|l| - 1])
    ensures Pairs(ReadLines(Row(fields)), MinFields) == []
  {
    RowRoundTrip(fields);
    assert PairReader(MinFields)(Row(fields)) == None;
    assert Gather(PairReader(MinFields), [Row(fields)]) == Listed(PairReader(MinFields)(Row(fields))) + Gather(PairReader(MinFields), []);
  }

  /** An easy row followed by a hard row: both are evaluated, in that order. */
  lemma EasyAndHardRowsRead(easy: seq<string>, hard: seq<string>)
    requires |easy| == 9 && |hard| == 8
    requires Readable(easy, MinFields) && Readable(hard, MinFields)
    ensures Pairs(ReadLines(Row(easy) + Row(hard)), MinFields) == [LastTwo(easy), LastTwo(hard)]
  {
    AppendRowPairs("", easy, MinFields);
    assert "" + Row(easy) == Row(easy);
    assert Pairs(ReadLines(""), MinFields) == [];
    RowEndsWithNewline(easy);
    AppendRowPairs(Row(easy), hard, MinFields);
  }

  /** Saved easy and hard rows score by their letters: one right answer out of the two is 0.5. */
  lemma HalfOfEasyAndHard(id1: string, id2: string, text: string, options: seq<string>, a: string, b: string)
    requires |options| >= 5 && IsKey(id1) && IsKey(id2)
    requires a in McqaModels.Letters && b in McqaModels.Letters && a != b
    ensures var easy := McqaData.EasyRow(id1, text, options, a, a);
            var hard := McqaData.HardRow(id2, text, options, a, b);
            Evaluation(ReadLines(Row(easy) + Row(hard))) == Scored(0.5, [(a, a), (a, b)])
  {
    var easy := McqaData.EasyRow(id1, text, options, a, a);
    var hard := McqaData.HardRow(id2, text, options, a, b);
    McqaData.EasyRowReadable(id1, text, options, a, a);
    McqaData.HardRowReadable(id2, text, options, a, b);
    EasyAndHardRowsRead(easy, hard);
    HalfAgree((a, a), (a, b));
  }

  /**
   * Rows appended by a run are scored after what the file held before: the pairs are the
   * earlier ones followed by the truth and prediction of each new row.
   */
  lemma EvaluatesAppendedRows(content: string, rows: seq<seq<string>>)
    requires content == [] || content[|content| - 1] == '\n'
    requires rows != [] && forall i :: 0 <= i < |rows| ==> |rows[i]| >= 2 && Readable(rows[i], MinFields)
    ensures var before := Pairs(ReadLines(content), MinFields);
            Evaluation(ReadLines(content + Written(rows))) == Scored(Accuracy(before + RowPairs(rows)), before + RowPairs(rows))
  {
    WrittenPairs(content, rows, MinFields);
  }
}
