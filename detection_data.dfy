/**
 * The detection task's data handling: the dataset's 0/1 label as one of the two answers,
 * and the five-column row save_result appends for each classified text.
 */
module DetectionData {
  import opened Wrappers
  import opened PyStr
  import opened PyIO
  import opened RecordStore
  import opened Metrics
  import DetectionModels

  /** convert_label: 0 is Drivelology, 1 is non-Drivelology, and any other label raises. */
  function ConvertLabel(datasetLabel: int): (r: Result<string>)
    ensures r.Ok? <==> datasetLabel == 0 || datasetLabel == 1
    ensures r.Ok? ==> r.value == DetectionModels.ValidAnswers[datasetLabel]
    ensures r.Err? ==> r.error == "Unknown label: " + IntStr(datasetLabel)
  {
    if datasetLabel == 0 then Ok("Drivelology")
    else if datasetLabel == 1 then Ok("non-Drivelology")
    else Err("Unknown label: " + IntStr(datasetLabel))
  }

  /** Each of the two answers is the image of exactly one label. */
  lemma ConvertLabelBijective(a: int, b: int)
    ensures ConvertLabel(a).Ok? && ConvertLabel(a) == ConvertLabel(b) ==> a == b
    ensures forall answer <- DetectionModels.ValidAnswers :: ConvertLabel(0) == Ok(answer) || ConvertLabel(1) == Ok(answer)
  {
    assert DetectionModels.ValidAnswers[0] != DetectionModels.ValidAnswers[1] by {
      assert DetectionModels.ValidAnswers[0][0] != DetectionModels.ValidAnswers[1][0];
    }
  }

  /** The fields of the line save_result writes: id, sanitised text and reason, truth, prediction. */
  function ResultRow(textId: string, text: string, reason: string, answer: string, prediction: string): (fields: seq<string>)
    ensures |fields| == 5 && fields[0] == textId && fields[3] == answer && fields[4] == prediction
    ensures IsClean(fields[1]) && IsClean(fields[2])
  {
    [textId, Sanitize(text), Sanitize(reason), answer, prediction]
  }

  /** save_result: one row appended to the results file, which is created when missing. */
  method SaveResult(file: TextFile, textId: string, text: string, reason: string, answer: string, prediction: string)
    modifies file
    ensures file.content == Some(Contents(old(file.content)) + Row(ResultRow(textId, text, reason, answer, prediction)))
  {
    file.Append(Row(ResultRow(textId, text, reason, answer, prediction)));
  }

  /**
   * A row whose id is a key and whose answer and prediction are among the two labels is
   * read back whole: it records its id, and the evaluation takes (answer, prediction) from it.
   */
  lemma ResultRowReadable(textId: string, text: string, reason: string, answer: string, prediction: string)
    requires IsKey(textId) && answer in DetectionModels.ValidAnswers && prediction in DetectionModels.ValidAnswers
    ensures var fields := ResultRow(textId, text, reason, answer, prediction);
            Keyed(fields) && Readable(fields, 5) && LastTwo(fields) == (answer, prediction)
  {
    AnswersAreKeys();
    var fields := ResultRow(textId, text, reason, answer, prediction);
    assert IsKey(fields[0]) && IsKey(fields[3]) && IsKey(fields[4]);
  }

  /** Both labels are clean and neither begins nor ends with whitespace. */
  lemma AnswersAreKeys()
    ensures forall a <- DetectionModels.ValidAnswers :: IsKey(a)
  {
    var d, n := DetectionModels.ValidAnswers[0], DetectionModels.ValidAnswers[1];
    assert IsKey(d) by {
      assert d[0] == 'D' && d[|d| - 1] == 'y';
      assert forall c <- d :: 'A' <= c <= 'z';
    }
    assert IsKey(n) by {
      assert n[0] == 'n' && n[|n| - 1] == 'y';
      assert forall c <- n :: c == '-' || 'A' <= c <= 'z';
    }
  }
}
