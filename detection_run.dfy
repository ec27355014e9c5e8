/**
 * The detection driver: main of the detection script. After the prompt-version check, an
 * evaluation-only run of an existing results file just evaluates it; otherwise the test
 * split, cut to max_samples when that is set, is classified text by text. A text whose id
 * the results file held when the run began is skipped, a label other than 0 or 1 ends the
 * run with its error, a text the model cannot classify is passed over, and every other text
 * gets a row appended at once. The run ends by evaluating the file.
 */
module DetectionRun {
  import opened Wrappers
  import opened PyIO
  import opened Retry
  import opened RecordStore
  import opened Metrics
  import opened TaskPrompts
  import opened DetectionModels
  import opened DetectionData
  import opened DetectionEvaluation
  import DetectionUtils

  /** A row of the test split: its text and its 0/1 label. */
  datatype Sample = Sample(text: string, datasetLabel: int)

  /** The model session, SHA-256, and template.format(text=...) of the chosen prompt. */
  datatype Backend = Backend(llm: Llm<(string, string)>, sha256: string -> Digest, render: string -> string)

  /** What the loop has done so far: the rows saved in order, the counters, and the error that ended it. */
  datatype Sweep = Sweep(rows: seq<seq<string>>, processed: nat, skipped: nat, failure: Option<string>)

  /** How main ends without an exception. */
  datatype Finish = Evaluated(report: Report) | NoDataset | Completed(processed: nat, skipped: nat, report: Report)

  /** `if max_samples: dataset.select(range(min(max_samples, len(dataset))))`: None and 0 keep every sample. */
  function Selected(samples: seq<Sample>, maxSamples: Option<int>): (ys: seq<Sample>)
    ensures |ys| <= |samples| && ys == samples[..|ys|]
    ensures maxSamples.None? || maxSamples.value == 0 ==> ys == samples
    ensures maxSamples.Some? && maxSamples.value != 0 ==>
              |ys| == if maxSamples.value < 0 then 0 else if maxSamples.value <= |samples| then maxSamples.value else |samples|
  {
    if maxSamples.None? || maxSamples.value == 0 then samples
    else if maxSamples.value < 0 then []
    else if maxSamples.value <= |samples| then samples[..maxSamples.value]
    else samples
  }

  /** The loop body on one sample, given what the loop has done before it. */
  function Visit(s: Sweep, sample: Sample, existIds: set<string>, b: Backend, think: bool): (s': Sweep)
    ensures s.failure.Some? ==> s' == s
    ensures s'.processed + s'.skipped <= s.processed + s.skipped + 1
    ensures FiveFields(s.rows) && |s.rows| == s.processed ==> FiveFields(s'.rows) && |s'.rows| == s'.processed
  {
    if s.failure.Some? then s
    else
      var textId := TextId(b.sha256, sample.text);
      if textId in existIds then s.(skipped := s.skipped + 1)
      else match ConvertLabel(sample.datasetLabel)
        case Err(e) => s.(failure := Some(e))
        case Ok(answer) =>
          match Run(ClassifyVerdicts(b.llm, b.render(sample.text), think), MaxRetries).result
          case None => s
          case Some(verdict) =>
            s.(rows := s.rows + [ResultRow(textId, sample.text, verdict.1, answer, verdict.0)], processed := s.processed + 1)
  }

  /** Rows of the five fields save_result writes. */
  predicate FiveFields(rows: seq<seq<string>>) {
    forall i :: 0 <= i < |rows| ==> |rows[i]| == 5
  }

  /** What the loop does over the samples in order. */
  function Detect(samples: seq<Sample>, existIds: set<string>, b: Backend, think: bool): (s: Sweep)
    ensures FiveFields(s.rows) && |s.rows| == s.processed
    decreases |samples|
  {
    if samples == [] then Sweep([], 0, 0, None)
    else Visit(Detect(samples[..|samples| - 1], existIds, b, think), samples[|samples| - 1], existIds, b, think)
  }

  /**
   * The sample loop: ids are checked against the ids loaded before it, not against the rows
   * it saves itself. It stops at the first label convert_label rejects.
   */
  method ProcessDataset(samples: seq<Sample>, existIds: set<string>, b: Backend, think: bool, file: TextFile)
    returns (processed: nat, skipped: nat, failure: Option<string>)
    modifies file
    ensures var s := Detect(samples, existIds, b, think);
            processed == s.processed && skipped == s.skipped && failure == s.failure
    ensures file.content == AfterRows(old(file.content), Detect(samples, existIds, b, think).rows)
  {
    ghost var f0 := file.content;
    ghost var rows: seq<seq<string>> := [];
    processed, skipped, failure := 0, 0, None;
    for i := 0 to |samples|
      invariant Detect(samples[..i], existIds, b, think) == Sweep(rows, processed, skipped, failure)
      invariant failure.None? && file.content == AfterRows(f0, rows)
    {
      DetectNext(samples, i, existIds, b, think);
      rows, processed, skipped, failure := ProcessSample(samples[i], existIds, b, think, file, f0, rows, processed, skipped);
      if failure.Some? {
        FailureStays(samples, i + 1, existIds, b, think);
        return;
      }
    }
    assert samples[..|samples|] == samples;
  }

  /** The loop body: skip a known id, raise on a bad label, pass over a failed classification, else save a row. */
  method ProcessSample(sample: Sample, existIds: set<string>, b: Backend, think: bool, file: TextFile,
                       ghost f0: File, ghost rows: seq<seq<string>>, processed: nat, skipped: nat)
    returns (ghost rows': seq<seq<string>>, processed': nat, skipped': nat, failure: Option<string>)
    requires file.content == AfterRows(f0, rows)
    modifies file
    ensures Sweep(rows', processed', skipped', failure) == Visit(Sweep(rows, processed, skipped, None), sample, existIds, b, think)
    ensures file.content == AfterRows(f0, rows')
  {
    rows', processed', skipped', failure := rows, processed, skipped, None;
    var textId := TextId(b.sha256, sample.text);
    if textId in existIds {
      skipped' := skipped + 1;
      return;
    }
    var answer := ConvertLabel(sample.datasetLabel);
    if answer.Err? {
      failure := Some(answer.error);
      return;
    }
    var result: Option<(string, string)>;
    ghost var sent: seq<string>;
    result, sent := ClassifyText(b.llm, b.render(sample.text), think, textId);
    if result.None? {
      return;
    }
    var (prediction, reason) := result.value;
    AfterRowsStep(f0, rows, ResultRow(textId, sample.text, reason, answer.value, prediction));
    SaveResult(file, textId, sample.text, reason, answer.value, prediction);
    rows' := rows + [ResultRow(textId, sample.text, reason, answer.value, prediction)];
    processed' := processed + 1;
  }

  lemma DetectNext(samples: seq<Sample>, i: nat, existIds: set<string>, b: Backend, think: bool)
    requires i < |samples|
    ensures Detect(samples[..i + 1], existIds, b, think) == Visit(Detect(samples[..i], existIds, b, think), samples[i], existIds, b, think)
  {
    assert samples[..i + 1][..i] == samples[..i];
  }

  /** Once a label has ended the loop, the later samples change nothing. */
  lemma {:induction false} FailureStays(samples: seq<Sample>, k: nat, existIds: set<string>, b: Backend, think: bool)
    requires k <= |samples| && Detect(samples[..k], existIds, b, think).failure.Some?
    ensures Detect(samples, existIds, b, think) == Detect(samples[..k], existIds, b, think)
    decreases |samples|
  {
    if k == |samples| {
      assert samples[..k] == samples;
    } else {
      var init := samples[..|samples| - 1];
      assert init[..k] == samples[..k];
      FailureStays(init, k, existIds, b, think);
    }
  }

  /**
   * main, from the version check on. The file is the results file at the returned path;
   * an exception the run raises is the error it ends with.
   */
  method RunDetection(promptVersion: string, llmModel: string, outputDir: string, think: bool,
                      maxSamples: Option<int>, evalOnly: bool, dataset: Option<seq<Sample>>, b: Backend, file: TextFile)
    returns (saveFile: string, r: Result<Finish>)
    modifies file
    ensures PromptLanguage(promptVersion).Err? ==> r == Err(PromptLanguage(promptVersion).error)
    ensures PromptLanguage(promptVersion).Ok? ==> saveFile == DetectionUtils.GetSaveFilePath(llmModel, promptVersion, outputDir)
    ensures (PromptLanguage(promptVersion).Err? || (evalOnly && old(file.content).Some?) || dataset.None?) ==>
              file.content == old(file.content)
    ensures (PromptLanguage(promptVersion).Ok? && evalOnly && old(file.content).Some?) ==>
              r == Ok(Evaluated(Evaluation(ReadLines(old(file.content).value))))
    ensures (PromptLanguage(promptVersion).Ok? && !(evalOnly && old(file.content).Some?) && dataset.None?) ==>
              r == Ok(NoDataset)
    ensures (PromptLanguage(promptVersion).Ok? && !(evalOnly && old(file.content).Some?) && dataset.Some?) ==>
              var s := Detect(Selected(dataset.value, maxSamples), FileIds(old(file.content)), b, think);
              && file.content == AfterRows(old(file.content), s.rows)
              && r == if s.failure.Some? then Err(s.failure.value)
                      else if file.content.None? then Err(NotFound(saveFile))
                      else Ok(Completed(s.processed, s.skipped, Evaluation(ReadLines(file.content.value))))
  {
    saveFile := "";
    var language := PromptLanguage(promptVersion);
    if language.Err? {
      return saveFile, Err(language.error);
    }
    var saveDir := DetectionUtils.SetupOutputDirectory(outputDir);
    saveFile := DetectionUtils.GetSaveFilePath(llmModel, promptVersion, saveDir);
    if evalOnly && file.content.Some? {
      var report := EvaluateResults(saveFile, file.content);
      return saveFile, Ok(Evaluated(report.value));
    }
    if dataset.None? {
      return saveFile, Ok(NoDataset);
    }
    var samples := Selected(dataset.value, maxSamples);
    var existIds := LoadExistingIds(file.content);
    var processed, skipped, failure := ProcessDataset(samples, existIds, b, think, file);
    if failure.Some? {
      return saveFile, Err(failure.value);
    }
    var report := EvaluateResults(saveFile, file.content);
    if report.Err? {
      return saveFile, Err(report.error);
    }
    r := Ok(Completed(processed, skipped, report.value));
  }

  // ----- what a run leaves in the results file -----

  /** Every row a run saves has a fresh 16-digit id, the sample's label as truth and a valid prediction. */
  lemma {:induction false} DetectRows(samples: seq<Sample>, existIds: set<string>, b: Backend, think: bool)
    ensures var s := Detect(samples, existIds, b, think);
            |s.rows| == s.processed && s.processed + s.skipped <= |samples|
            && forall i :: 0 <= i < |s.rows| ==>
                 && Keyed(s.rows[i]) && |s.rows[i]| >= 2 && Readable(s.rows[i], MinFields)
                 && |s.rows[i][0]| == 16 && s.rows[i][0] !in existIds
                 && s.rows[i][3] in ValidAnswers && s.rows[i][4] in ValidAnswers
    decreases |samples|
  {
    if samples != [] {
      var init := samples[..|samples| - 1];
      DetectRows(init, existIds, b, think);
      var before := Detect(init, existIds, b, think);
      var sample := samples[|samples| - 1];
      var textId := TextId(b.sha256, sample.text);
      var s := Detect(samples, existIds, b, think);
      if s.rows != before.rows {
        var answer := ConvertLabel(sample.datasetLabel).value;
        var (prediction, reason) := Run(ClassifyVerdicts(b.llm, b.render(sample.text), think), MaxRetries).result.value;
        ClassifiedValid(b, sample.text, think);
        ResultRowReadable(textId, sample.text, reason, answer, prediction);
        assert s.rows == before.rows + [ResultRow(textId, sample.text, reason, answer, prediction)];
      }
    }
  }

  /** A classification the retry loop returns carries one of the two labels. */
  lemma ClassifiedValid(b: Backend, text: string, think: bool)
    ensures var o := Run(ClassifyVerdicts(b.llm, b.render(text), think), MaxRetries);
            o.result.Some? ==> o.result.value.0 in ValidAnswers
  {
    var v := ClassifyVerdicts(b.llm, b.render(text), think);
    var o := Run(v, MaxRetries);
    if o.result.Some? {
      assert ClassifyVerdict(b.llm(SentPrompt(b.render(text), think), o.calls - 1)) == Ok(o.result.value);
    }
  }

  /**
   * Resuming: after a run over a file that ends a line, the file's ids are the old ones and
   * the ids of the saved rows, and none of those rows repeats an id the file held before.
   */
  lemma ResumeIds(f: File, samples: seq<Sample>, b: Backend, think: bool)
    requires Contents(f) == [] || Contents(f)[|Contents(f)| - 1] == '\n'
    ensures var s := Detect(samples, FileIds(f), b, think);
            && FileIds(AfterRows(f, s.rows)) == FileIds(f) + FirstFields(s.rows)
            && forall i :: 0 <= i < |s.rows| ==> |s.rows[i]| >= 1 && s.rows[i][0] !in FileIds(f)
  {
    var s := Detect(samples, FileIds(f), b, think);
    DetectRows(samples, FileIds(f), b, think);
    if s.rows != [] {
      WrittenIds(Contents(f), s.rows);
      if f.None? {
        assert FileIds(f) == {} == FileIds(Some(""));
      }
    }
  }

  /** The evaluation at the end of a run counts the rows the file held and every row the run saved. */
  lemma FinalEvaluation(f: File, samples: seq<Sample>, b: Backend, think: bool)
    requires Contents(f) == [] || Contents(f)[|Contents(f)| - 1] == '\n'
    requires Detect(samples, FileIds(f), b, think).processed > 0
    ensures var s := Detect(samples, FileIds(f), b, think);
            var before := Pairs(ReadLines(Contents(f)), MinFields);
            Evaluation(ReadLines(Contents(AfterRows(f, s.rows))))
              == Scored(Accuracy(before + RowPairs(s.rows)), |before| + s.processed)
  {
    var s := Detect(samples, FileIds(f), b, think);
    DetectRows(samples, FileIds(f), b, think);
    EvaluatesAppendedRows(Contents(f), s.rows);
  }

  /** A run over samples whose ids are all in the file saves nothing and skips every sample. */
  lemma {:induction false} AllKnownSkipped(samples: seq<Sample>, existIds: set<string>, b: Backend, think: bool)
    requires forall i :: 0 <= i < |samples| ==> TextId(b.sha256, samples[i].text) in existIds
    ensures Detect(samples, existIds, b, think) == Sweep([], 0, |samples|, None)
    decreases |samples|
  {
    if samples != [] {
      var init := samples[..|samples| - 1];
      AllKnownSkipped(init, existIds, b, think);
    }
  }
}
