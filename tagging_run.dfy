/**
 * The tagging driver: main of the tagging script. After the prompt-version check, an
 * evaluation-only run of an existing results file just computes its metrics; otherwise
 * every row of the dataset split is tagged in turn. A row whose id the results file held
 * when the run began is skipped, so is one without taggings and one the model cannot tag
 * (its last error going to the error log); every other row gets a results row at once.
 * The run ends by computing the metrics when the results file exists.
 */
module TaggingRun {
  import opened Wrappers
  import opened PyStr
  import opened PyIO
  import opened Retry
  import opened RecordStore
  import opened Metrics
  import opened TaskPrompts
  import opened TaggingModels
  import opened TaggingData
  import opened TaggingEvaluation
  import DetectionData

  /** A dataset row: str() of its truthy id, its text, and its taggings column when present. */
  datatype Sample = Sample(rowId: Option<string>, text: string, taggings: Option<seq<string>>)

  /** The model session, SHA-256, and template.format(text=...) of the chosen prompt. */
  datatype Backend = Backend(llm: Llm<(string, string)>, sha256: string -> Digest, render: string -> string)

  /** What the loop has done so far: the rows saved in order, the counter, and the error-log text. */
  datatype Sweep = Sweep(rows: seq<seq<string>>, processed: nat, errors: string)

  /** The truth and prediction vectors calculate_metrics gathers, or None when no line qualifies. */
  type Vectors = Option<(seq<seq<int>>, seq<seq<int>>)>

  /** How main ends without an exception. */
  datatype Finish = Evaluated(vectors: Vectors) | NoDataset | NoResults | Completed(processed: nat, vectors: Vectors)

  /** The results file name: the model's last '/' segment as it is, then the version. */
  function SaveFileName(llmModel: string, promptVersion: string): (name: string)
    ensures name != [] && name[0] != '/'
  {
    LastSegment(llmModel, '/') + "_" + promptVersion + "_multilabel.tsv"
  }

  /** A model name without '/' is used whole, ':' included. */
  lemma ModelNameKept(llmModel: string, promptVersion: string)
    requires '/' !in llmModel
    ensures SaveFileName(llmModel, promptVersion) == llmModel + "_" + promptVersion + "_multilabel.tsv"
  {
    LastSegmentWhole(llmModel, '/');
  }

  /** The error log of a results file: the same path with ".errors.log" added. */
  function ErrorLogPath(saveFile: string): string {
    saveFile + ".errors.log"
  }

  /** The loop body on one row, given what the loop has done before it. */
  function Visit(s: Sweep, sample: Sample, existIds: set<string>, b: Backend, think: bool): Sweep {
    var dataId := DataId(sample.rowId, sample.text, b.sha256);
    if dataId in existIds then s
    else
      match ExtractLabels(sample.taggings)
      case Err(_) => s
      case Ok(labels) => Tagged(s, dataId, Sanitize(sample.text), CommaJoin(labels), b, think)
  }

  /** Tagging a row that is to be tagged: its last error logged on failure, its results row saved on success. */
  function Tagged(s: Sweep, dataId: string, text: string, answer: string, b: Backend, think: bool): Sweep {
    var v := TaggingVerdicts(b.llm, b.render(text), think);
    var logged := s.(errors := s.errors + ErrorLog(dataId, v, DefaultRetries));
    match Run(v, DefaultRetries).result
    case None => logged
    case Some(verdict) =>
      logged.(rows := logged.rows + [DetectionData.ResultRow(dataId, text, verdict.1, answer, verdict.0)],
              processed := logged.processed + 1)
  }

  /** Rows of the five fields save_result writes. */
  predicate FiveFields(rows: seq<seq<string>>) {
    forall i :: 0 <= i < |rows| ==> |rows[i]| == 5
  }

  /** What the loop does over the rows in order. */
  function Tag(samples: seq<Sample>, existIds: set<string>, b: Backend, think: bool): (s: Sweep)
    ensures FiveFields(s.rows) && |s.rows| == s.processed <= |samples|
    decreases |samples|
  {
    if samples == [] then Sweep([], 0, "")
    else
      var before := Tag(samples[..|samples| - 1], existIds, b, think);
      var s := Visit(before, samples[|samples| - 1], existIds, b, think);
      assert s.rows == before.rows || |s.rows| == |before.rows| + 1;
      s
  }

  /** The row loop: ids are checked against the ids loaded before it, not against the rows it saves itself. */
  method ProcessDataset(samples: seq<Sample>, existIds: set<string>, b: Backend, think: bool,
                        file: TextFile, errorLog: TextFile)
    returns (processed: nat)
    requires file != errorLog
    modifies file, errorLog
    ensures processed == Tag(samples, existIds, b, think).processed
    ensures file.content == AfterRows(old(file.content), Tag(samples, existIds, b, think).rows)
    ensures errorLog.content == AfterText(old(errorLog.content), Tag(samples, existIds, b, think).errors)
  {
    ghost var f0, e0 := file.content, errorLog.content;
    ghost var rows: seq<seq<string>> := [];
    ghost var errors := "";
    processed := 0;
    for i := 0 to |samples|
      invariant Tag(samples[..i], existIds, b, think) == Sweep(rows, processed, errors)
      invariant file.content == AfterRows(f0, rows)
      invariant errorLog.content == AfterText(e0, errors)
    {
      TagNext(samples, i, existIds, b, think);
      rows, processed, errors := ProcessSample(samples[i], existIds, b, think, file, errorLog, f0, e0, rows, processed, errors);
    }
    assert samples[..|samples|] == samples;
  }

  /** The loop body: skip a known id or a row without taggings; else tag it, and save a row when that succeeds. */
  method ProcessSample(sample: Sample, existIds: set<string>, b: Backend, think: bool, file: TextFile, errorLog: TextFile,
                       ghost f0: File, ghost e0: File, ghost rows: seq<seq<string>>, processed: nat, ghost errors: string)
    returns (ghost rows': seq<seq<string>>, processed': nat, ghost errors': string)
    requires file != errorLog
    requires file.content == AfterRows(f0, rows) && errorLog.content == AfterText(e0, errors)
    modifies file, errorLog
    ensures Sweep(rows', processed', errors') == Visit(Sweep(rows, processed, errors), sample, existIds, b, think)
    ensures file.content == AfterRows(f0, rows') && errorLog.content == AfterText(e0, errors')
  {
    rows', processed', errors' := rows, processed, errors;
    var dataId := DataId(sample.rowId, sample.text, b.sha256);
    if dataId in existIds {
      return;
    }
    var text := Sanitize(sample.text);
    var labels := ExtractLabels(sample.taggings);
    if labels.Err? {
      return;
    }
    rows', processed', errors' := TagOne(dataId, text, CommaJoin(labels.value), b, think, file, errorLog,
                                         f0, e0, rows, processed, errors);
  }

  /** Tagging one row: generate_prediction, then save_result when it returns an answer. */
  method TagOne(dataId: string, text: string, answer: string, b: Backend, think: bool, file: TextFile, errorLog: TextFile,
                ghost f0: File, ghost e0: File, ghost rows: seq<seq<string>>, processed: nat, ghost errors: string)
    returns (ghost rows': seq<seq<string>>, processed': nat, ghost errors': string)
    requires file != errorLog
    requires file.content == AfterRows(f0, rows) && errorLog.content == AfterText(e0, errors)
    modifies file, errorLog
    ensures Sweep(rows', processed', errors') == Tagged(Sweep(rows, processed, errors), dataId, text, answer, b, think)
    ensures file.content == AfterRows(f0, rows') && errorLog.content == AfterText(e0, errors')
  {
    var result: Option<(string, string)>;
    ghost var sent: seq<string>;
    ghost var v := TaggingVerdicts(b.llm, b.render(text), think);
    result, sent := GeneratePrediction(b.llm, b.render(text), think, dataId, errorLog);
    AfterTextStep(e0, errors, ErrorLog(dataId, v, DefaultRetries));
    rows', processed', errors' := rows, processed, errors + ErrorLog(dataId, v, DefaultRetries);
    if result.None? {
      return;
    }
    var (prediction, reason) := result.value;
    AfterRowsStep(f0, rows, DetectionData.ResultRow(dataId, text, reason, answer, prediction));
    SaveResult(file, dataId, text, reason, answer, prediction);
    rows' := rows + [DetectionData.ResultRow(dataId, text, reason, answer, prediction)];
    processed' := processed + 1;
  }

  lemma TagNext(samples: seq<Sample>, i: nat, existIds: set<string>, b: Backend, think: bool)
    requires i < |samples|
    ensures Tag(samples[..i + 1], existIds, b, think) == Visit(Tag(samples[..i], existIds, b, think), samples[i], existIds, b, think)
  {
    assert samples[..i + 1][..i] == samples[..i];
  }

  /**
   * main, from the version check on. `file` is the results file at the returned path and
   * `errorLog` the file at ErrorLogPath of it.
   */
  method RunTagging(promptVersion: string, llmModel: string, outputDir: string, think: bool, evalOnly: bool,
                    dataset: Option<seq<Sample>>, b: Backend, file: TextFile, errorLog: TextFile)
    returns (saveFile: string, r: Result<Finish>)
    requires file != errorLog
    modifies file, errorLog
    ensures PromptLanguage(promptVersion).Err? ==> r == Err(PromptLanguage(promptVersion).error)
    ensures PromptLanguage(promptVersion).Ok? ==> saveFile == PathJoin(outputDir, SaveFileName(llmModel, promptVersion))
    ensures (PromptLanguage(promptVersion).Err? || (evalOnly && old(file.content).Some?) || dataset.None?) ==>
              file.content == old(file.content) && errorLog.content == old(errorLog.content)
    ensures (PromptLanguage(promptVersion).Ok? && evalOnly && old(file.content).Some?) ==>
              r.Ok? && r.value.Evaluated? && (r.value.vectors.None? <==> Pairs(ReadLines(old(file.content).value), MinFields) == [])
    ensures (PromptLanguage(promptVersion).Ok? && !(evalOnly && old(file.content).Some?) && dataset.None?) ==>
              r == Ok(NoDataset)
    ensures (PromptLanguage(promptVersion).Ok? && !(evalOnly && old(file.content).Some?) && dataset.Some?) ==>
              var s := Tag(dataset.value, FileIds(old(file.content)), b, think);
              && file.content == AfterRows(old(file.content), s.rows)
              && errorLog.content == AfterText(old(errorLog.content), s.errors)
              && r.Ok? && (r.value.NoResults? <==> file.content.None?)
              && (r.value.Completed? ==> r.value.processed == s.processed
                                         && (r.value.vectors.None? <==> Pairs(ReadLines(file.content.value), MinFields) == []))
  {
    saveFile := "";
    var language := PromptLanguage(promptVersion);
    if language.Err? {
      return saveFile, Err(language.error);
    }
    saveFile := PathJoin(outputDir, SaveFileName(llmModel, promptVersion));
    if evalOnly && file.content.Some? {
      var vectors := CalculateMetrics(file.content.value);
      return saveFile, Ok(Evaluated(vectors));
    }
    if dataset.None? {
      return saveFile, Ok(NoDataset);
    }
    var existIds := LoadExistingIds(file.content);
    var processed := ProcessDataset(dataset.value, existIds, b, think, file, errorLog);
    if file.content.None? {
      return saveFile, Ok(NoResults);
    }
    var vectors := CalculateMetrics(file.content.value);
    r := Ok(Completed(processed, vectors));
  }

  // ----- what a run leaves in the results file -----

  /** The (id, joined taggings) of every row that has taggings: the truths a run may save. */
  function Truths(samples: seq<Sample>, sha256: string -> Digest): set<(string, string)>
    decreases |samples|
  {
    if samples == [] then {}
    else
      var sample := samples[|samples| - 1];
      Truths(samples[..|samples| - 1], sha256)
        + (if ExtractLabels(sample.taggings).Ok?
           then {(DataId(sample.rowId, sample.text, sha256), CommaJoin(sample.taggings.value))} else {})
  }

  /**
   * A row as the loop saves it: an id of 16 characters new to the file, sanitised text and
   * reason, the joined taggings of the row with that id as truth, and a valid prediction.
   */
  predicate SavedRow(row: seq<string>, existIds: set<string>, truths: set<(string, string)>) {
    && |row| == 5 && |row[0]| == 16 && row[0] !in existIds
    && IsClean(row[1]) && IsClean(row[2])
    && (row[0], row[3]) in truths
    && ValidatePrediction(row[4])
  }

  predicate AllSaved(rows: seq<seq<string>>, existIds: set<string>, truths: set<(string, string)>) {
    forall i :: 0 <= i < |rows| ==> SavedRow(rows[i], existIds, truths)
  }

  /** Every row a run saves is a SavedRow. */
  lemma {:induction false} TagRows(samples: seq<Sample>, existIds: set<string>, b: Backend, think: bool)
    ensures AllSaved(Tag(samples, existIds, b, think).rows, existIds, Truths(samples, b.sha256))
    decreases |samples|
  {
    if samples != [] {
      var init := samples[..|samples| - 1];
      TagRows(init, existIds, b, think);
      TagRowsStep(Tag(init, existIds, b, think), samples[|samples| - 1], existIds, b, think, Truths(init, b.sha256));
    }
  }

  lemma TagRowsStep(before: Sweep, sample: Sample, existIds: set<string>, b: Backend, think: bool, truths: set<(string, string)>)
    requires AllSaved(before.rows, existIds, truths)
    ensures var more := if ExtractLabels(sample.taggings).Ok?
                        then {(DataId(sample.rowId, sample.text, b.sha256), CommaJoin(sample.taggings.value))} else {};
            AllSaved(Visit(before, sample, existIds, b, think).rows, existIds, truths + more)
  {
    var s := Visit(before, sample, existIds, b, think);
    if |s.rows| != |before.rows| {
      var v := TaggingVerdicts(b.llm, b.render(Sanitize(sample.text)), think);
      var o := Run(v, DefaultRetries);
      assert TaggingVerdict(b.llm(SentPrompt(b.render(Sanitize(sample.text)), think), o.calls - 1)) == Ok(o.result.value);
      SanitizeIdempotent(sample.text);
    }
  }

  /**
   * Resuming: when the saved rows are keyed (dataset ids and model answers free of tabs,
   * newlines and outer spaces), the file's ids after the run are the old ones and those of
   * the saved rows, none of which the file held before.
   */
  lemma ResumeIds(f: File, samples: seq<Sample>, b: Backend, think: bool)
    requires Contents(f) == [] || Contents(f)[|Contents(f)| - 1] == '\n'
    requires AllKeyed(Tag(samples, FileIds(f), b, think).rows)
    ensures var s := Tag(samples, FileIds(f), b, think);
            && FileIds(AfterRows(f, s.rows)) == FileIds(f) + FirstFields(s.rows)
            && forall i :: 0 <= i < |s.rows| ==> |s.rows[i]| >= 1 && s.rows[i][0] !in FileIds(f)
  {
    var s := Tag(samples, FileIds(f), b, think);
    TagRows(samples, FileIds(f), b, think);
    if s.rows != [] {
      WrittenIds(Contents(f), s.rows);
      if f.None? {
        assert FileIds(f) == {} == FileIds(Some(""));
      }
    }
  }

  predicate AllKeyed(rows: seq<seq<string>>) {
    forall i :: 0 <= i < |rows| ==> Keyed(rows[i])
  }

  /** A run over rows whose ids are all in the file saves nothing and logs nothing. */
  lemma {:induction false} AllKnownSkipped(samples: seq<Sample>, existIds: set<string>, b: Backend, think: bool)
    requires forall i :: 0 <= i < |samples| ==> DataId(samples[i].rowId, samples[i].text, b.sha256) in existIds
    ensures Tag(samples, existIds, b, think) == Sweep([], 0, "")
    decreases |samples|
  {
    if samples != [] {
      AllKnownSkipped(samples[..|samples| - 1], existIds, b, think);
    }
  }
}
