/**
 * The multiple-choice driver (easy variant): main of the mcqa_easy script. After the
 * prompt-version check the results go to a file under the fixed directory
 * "outputs/mcqa_easy". An evaluation-only run of an existing file just computes its
 * metrics; otherwise every dataset row is answered in turn. A row whose id the file held
 * when the run began is skipped, so is one lacking a narrative column of the prompt's
 * language and one the model cannot answer (its last error going to the error log); every
 * other row gets its shuffled options and answer letter saved at once. The run ends by
 * computing the metrics of the file.
 */
module McqaRun {
  import opened Wrappers
  import opened PyStr
  import opened PyIO
  import opened Retry
  import opened RecordStore
  import opened Metrics
  import opened TaskPrompts
  import opened McqaModels
  import opened McqaData
  import opened McqaEvaluation
  import McqaUtils

  /** The directory every run of the easy variant writes to. */
  const OutputDir := "outputs/mcqa_easy"

  /** A dataset row: str(row['id']), row['text'], and the row's columns. */
  datatype Sample = Sample(rowId: string, text: string, row: DataRow)

  /**
   * The model session; template.format(text=..., narrative_1=options[0], ..., narrative_5=options[4])
   * of the chosen prompt; and the draws random.shuffle makes for the row at each position.
   */
  datatype Backend = Backend(llm: Llm<string>, render: (string, seq<string>) -> string, draws: nat -> RandBelow)

  /** What the loop has done so far: the rows saved in order, the counter, and the error-log text. */
  datatype Sweep = Sweep(rows: seq<seq<string>>, processed: nat, errors: string)

  /** How main ends without an exception. */
  datatype Finish = Evaluated(summary: Summary) | NoDataset | Completed(processed: nat, summary: Summary)

  /** `all(field in row for field in [pos_field] + neg_fields)` */
  predicate HasFields(row: DataRow, language: string) {
    var (pos, negs) := GetNarrativeFields(language);
    pos in row && forall f <- negs :: f in row
  }

  /** The loop body on the row at position idx, given what the loop has done before it. */
  function Visit(s: Sweep, idx: nat, sample: Sample, existIds: set<string>, language: string, b: Backend, think: bool): (s': Sweep)
    ensures Grows(s, s')
  {
    if sample.rowId in existIds || !HasFields(sample.row, language) then s
    else
      var (pos, negs) := GetNarrativeFields(language);
      var (options, answer) := EasyOptions(sample.row, pos, negs, b.draws(idx));
      Answered(s, sample.rowId, sample.text, options, answer, b, think)
  }

  /** Asking for the letter: the last error logged on failure, the row saved on success. */
  function Answered(s: Sweep, dataId: string, text: string, options: seq<string>, answer: string, b: Backend, think: bool): (s': Sweep)
    requires |options| == 5
    ensures Grows(s, s')
  {
    var v := AnswerVerdicts(b.llm, b.render(text, options), think);
    var logged := s.(errors := s.errors + ErrorLog(dataId, v, DefaultRetries));
    match Run(v, DefaultRetries).result
    case None => logged
    case Some(prediction) =>
      logged.(rows := logged.rows + [EasyRow(dataId, text, options, answer, prediction)], processed := logged.processed + 1)
  }

  /** One loop step saves at most one row, of nine fields, after the earlier ones, and counts it. */
  predicate Grows(s: Sweep, s': Sweep) {
    && (s'.rows == s.rows || (|s'.rows| == |s.rows| + 1 && s'.rows[..|s.rows|] == s.rows && |s'.rows[|s.rows|]| == 9))
    && s'.processed == s.processed + (|s'.rows| - |s.rows|)
  }

  /** Rows of the nine fields save_result_easy writes. */
  predicate NineFields(rows: seq<seq<string>>) {
    forall i :: 0 <= i < |rows| ==> |rows[i]| == 9
  }

  /** What the loop does over the rows in order. */
  function Answer(samples: seq<Sample>, existIds: set<string>, language: string, b: Backend, think: bool): (s: Sweep)
    ensures NineFields(s.rows) && |s.rows| == s.processed <= |samples|
    decreases |samples|
  {
    if samples == [] then Sweep([], 0, "")
    else
      var before := Answer(samples[..|samples| - 1], existIds, language, b, think);
      var s := Visit(before, |samples| - 1, samples[|samples| - 1], existIds, language, b, think);
      GrowsNine(before, s);
      s
  }

  /** A step that Grows keeps the rows nine-field and counted. */
  lemma GrowsNine(before: Sweep, s: Sweep)
    requires NineFields(before.rows) && |before.rows| == before.processed && Grows(before, s)
    ensures NineFields(s.rows) && |s.rows| == s.processed <= before.processed + 1
  {
    if s.rows != before.rows {
      forall i | 0 <= i < |s.rows|
        ensures |s.rows[i]| == 9
      {
        if i < |before.rows| {
          assert s.rows[i] == s.rows[..|before.rows|][i];
        }
      }
    }
  }

  lemma AnswerNext(samples: seq<Sample>, i: nat, existIds: set<string>, language: string, b: Backend, think: bool)
    requires i < |samples|
    ensures Answer(samples[..i + 1], existIds, language, b, think)
            == Visit(Answer(samples[..i], existIds, language, b, think), i, samples[i], existIds, language, b, think)
  {
    assert samples[..i + 1][..i] == samples[..i];
  }

  /** The row loop: ids are checked against the ids loaded before it, not against the rows it saves itself. */
  method ProcessDataset(samples: seq<Sample>, existIds: set<string>, language: string, b: Backend, think: bool,
                        file: TextFile, errorLog: TextFile)
    returns (processed: nat)
    requires file != errorLog
    modifies file, errorLog
    ensures processed == Answer(samples, existIds, language, b, think).processed
    ensures file.content == AfterRows(old(file.content), Answer(samples, existIds, language, b, think).rows)
    ensures errorLog.content == AfterText(old(errorLog.content), Answer(samples, existIds, language, b, think).errors)
  {
    ghost var f0, e0 := file.content, errorLog.content;
    ghost var rows: seq<seq<string>> := [];
    ghost var errors := "";
    processed := 0;
    for i := 0 to |samples|
      invariant Answer(samples[..i], existIds, language, b, think) == Sweep(rows, processed, errors)
      invariant file.content == AfterRows(f0, rows)
      invariant errorLog.content == AfterText(e0, errors)
    {
      AnswerNext(samples, i, existIds, language, b, think);
      rows, processed, errors := ProcessSample(i, samples[i], existIds, language, b, think, file, errorLog,
                                               f0, e0, rows, processed, errors);
    }
    assert samples[..|samples|] == samples;
  }

  /** The loop body: skip a known id or a row lacking a column; else shuffle the options and ask. */
  method ProcessSample(idx: nat, sample: Sample, existIds: set<string>, language: string, b: Backend, think: bool,
                       file: TextFile, errorLog: TextFile,
                       ghost f0: File, ghost e0: File, ghost rows: seq<seq<string>>, processed: nat, ghost errors: string)
    returns (ghost rows': seq<seq<string>>, processed': nat, ghost errors': string)
    requires file != errorLog
    requires file.content == AfterRows(f0, rows) && errorLog.content == AfterText(e0, errors)
    modifies file, errorLog
    ensures Sweep(rows', processed', errors') == Visit(Sweep(rows, processed, errors), idx, sample, existIds, language, b, think)
    ensures file.content == AfterRows(f0, rows') && errorLog.content == AfterText(e0, errors')
  {
    rows', processed', errors' := rows, processed, errors;
    var dataId := sample.rowId;
    if dataId in existIds {
      return;
    }
    var (posField, negFields) := GetNarrativeFields(language);
    if !(posField in sample.row && forall f <- negFields :: f in sample.row) {
      return;
    }
    var options, correctAnswer := PrepareOptionsEasy(sample.row, posField, negFields, b.draws(idx));
    rows', processed', errors' := AskOne(dataId, sample.text, options, correctAnswer, b, think, file, errorLog,
                                         f0, e0, rows, processed, errors);
  }

  /** Asking one row: generate_prediction, then save_result_easy when it returns a letter. */
  method AskOne(dataId: string, text: string, options: seq<string>, answer: string, b: Backend, think: bool,
                file: TextFile, errorLog: TextFile,
                ghost f0: File, ghost e0: File, ghost rows: seq<seq<string>>, processed: nat, ghost errors: string)
    returns (ghost rows': seq<seq<string>>, processed': nat, ghost errors': string)
    requires |options| == 5 && file != errorLog
    requires file.content == AfterRows(f0, rows) && errorLog.content == AfterText(e0, errors)
    modifies file, errorLog
    ensures Sweep(rows', processed', errors') == Answered(Sweep(rows, processed, errors), dataId, text, options, answer, b, think)
    ensures file.content == AfterRows(f0, rows') && errorLog.content == AfterText(e0, errors')
  {
    var prompt := b.render(text, options);
    var prediction: Option<string>;
    ghost var sent: seq<string>;
    ghost var v := AnswerVerdicts(b.llm, prompt, think);
    prediction, sent := GeneratePrediction(b.llm, prompt, think, dataId, errorLog);
    assert Run(v, DefaultRetries).result == prediction;
    ghost var after := Answered(Sweep(rows, processed, errors), dataId, text, options, answer, b, think);
    AfterTextStep(e0, errors, ErrorLog(dataId, v, DefaultRetries));
    rows', processed', errors' := rows, processed, errors + ErrorLog(dataId, v, DefaultRetries);
    if prediction.None? {
      assert after == Sweep(rows', processed', errors');
      return;
    }
    var row := EasyRow(dataId, text, options, answer, prediction.value);
    assert after == Sweep(rows + [row], processed + 1, errors');
    AfterRowsStep(f0, rows, row);
    SaveResultEasy(file, dataId, text, options, answer, prediction.value);
    rows' := rows + [row];
    processed' := processed + 1;
  }

  /**
   * main, from the version check on. `file` is the results file at the returned path and
   * `errorLog` the file at that path with ".errors.log" added. Computing the metrics of a
   * file that does not exist raises FileNotFoundError.
   */
  method RunMcqaEasy(promptVersion: string, llmModel: string, think: bool, evalOnly: bool,
                     dataset: Option<seq<Sample>>, b: Backend, file: TextFile, errorLog: TextFile)
    returns (saveFile: string, r: Result<Finish>)
    requires file != errorLog
    modifies file, errorLog
    ensures PromptLanguage(promptVersion).Err? ==> r == Err(PromptLanguage(promptVersion).error)
    ensures PromptLanguage(promptVersion).Ok? ==> saveFile == McqaUtils.GetSaveFilePath(llmModel, promptVersion, OutputDir)
    ensures (PromptLanguage(promptVersion).Err? || (evalOnly && old(file.content).Some?) || dataset.None?) ==>
              file.content == old(file.content) && errorLog.content == old(errorLog.content)
    ensures (PromptLanguage(promptVersion).Ok? && evalOnly && old(file.content).Some?) ==>
              r == Ok(Evaluated(Evaluation(ReadLines(old(file.content).value))))
    ensures (PromptLanguage(promptVersion).Ok? && !(evalOnly && old(file.content).Some?) && dataset.None?) ==>
              r == Ok(NoDataset)
    ensures (PromptLanguage(promptVersion).Ok? && !(evalOnly && old(file.content).Some?) && dataset.Some?) ==>
              var s := Answer(dataset.value, FileIds(old(file.content)), PromptLanguage(promptVersion).value, b, think);
              && file.content == AfterRows(old(file.content), s.rows)
              && errorLog.content == AfterText(old(errorLog.content), s.errors)
              && r == if file.content.None? then Err(NotFound(saveFile))
                      else Ok(Completed(s.processed, Evaluation(ReadLines(file.content.value))))
  {
    saveFile := "";
    var language := PromptLanguage(promptVersion);
    if language.Err? {
      return saveFile, Err(language.error);
    }
    var saveDir := McqaUtils.SetupOutputDirectory(OutputDir);
    saveFile := McqaUtils.GetSaveFilePath(llmModel, promptVersion, saveDir);
    if evalOnly && file.content.Some? {
      var summary := CalculateMetrics(file.content.value);
      return saveFile, Ok(Evaluated(summary));
    }
    if dataset.None? {
      return saveFile, Ok(NoDataset);
    }
    var existIds := LoadExistingIds(file.content);
    var processed := ProcessDataset(dataset.value, existIds, language.value, b, think, file, errorLog);
    if file.content.None? {
      return saveFile, Err(NotFound(saveFile));
    }
    var summary := CalculateMetrics(file.content.value);
    r := Ok(Completed(processed, summary));
  }

  // ----- what a run leaves in the results file -----

  /** (id, sanitised positive narrative) of every row that has the columns of the language. */
  function Positives(samples: seq<Sample>, language: string): set<(string, string)>
    decreases |samples|
  {
    if samples == [] then {}
    else
      var sample := samples[|samples| - 1];
      Positives(samples[..|samples| - 1], language)
        + (if HasFields(sample.row, language)
           then {(sample.rowId, Sanitize(sample.row[GetNarrativeFields(language).0]))} else {})
  }

  /**
   * A row as the loop saves it: an id new to the file, clean text and options, a letter as
   * truth that names the option holding the positive narrative of the row with that id,
   * and a letter as prediction.
   */
  predicate SavedRow(row: seq<string>, existIds: set<string>, positives: set<(string, string)>) {
    && |row| == 9 && row[0] !in existIds
    && (forall i :: 1 <= i < 7 ==> IsClean(row[i]))
    && row[7] in Letters && row[8] in Letters
    && (row[0], row[2 + (row[7][0] as int - 'A' as int)]) in positives
  }

  predicate AllSaved(rows: seq<seq<string>>, existIds: set<string>, positives: set<(string, string)>) {
    forall i :: 0 <= i < |rows| ==> SavedRow(rows[i], existIds, positives)
  }

  /** Every row a run saves is a SavedRow. */
  lemma {:induction false} AnswerRows(samples: seq<Sample>, existIds: set<string>, language: string, b: Backend, think: bool)
    ensures AllSaved(Answer(samples, existIds, language, b, think).rows, existIds, Positives(samples, language))
    decreases |samples|
  {
    if samples != [] {
      var init := samples[..|samples| - 1];
      AnswerRows(init, existIds, language, b, think);
      AnswerRowsStep(Answer(init, existIds, language, b, think), |init|, samples[|samples| - 1], existIds, language, b, think,
                     Positives(init, language));
    }
  }

  lemma AnswerRowsStep(before: Sweep, idx: nat, sample: Sample, existIds: set<string>, language: string, b: Backend, think: bool,
                       positives: set<(string, string)>)
    requires AllSaved(before.rows, existIds, positives)
    ensures var more := if HasFields(sample.row, language)
                        then {(sample.rowId, Sanitize(sample.row[GetNarrativeFields(language).0]))} else {};
            AllSaved(Visit(before, idx, sample, existIds, language, b, think).rows, existIds, positives + more)
  {
    if sample.rowId !in existIds && HasFields(sample.row, language) {
      var (pos, negs) := GetNarrativeFields(language);
      var (options, answer) := EasyOptions(sample.row, pos, negs, b.draws(idx));
      var more := {(sample.rowId, Sanitize(sample.row[pos]))};
      var k := answer[0] as int - 'A' as int;
      assert options[k] == sample.row[pos];
      AllSavedWider(before.rows, existIds, positives, more);
      AnsweredSaved(before, sample.rowId, sample.text, options, answer, b, think, existIds, positives + more);
    }
  }

  lemma AllSavedWider(rows: seq<seq<string>>, existIds: set<string>, positives: set<(string, string)>, more: set<(string, string)>)
    requires AllSaved(rows, existIds, positives)
    ensures AllSaved(rows, existIds, positives + more)
  {
    forall i | 0 <= i < |rows|
      ensures SavedRow(rows[i], existIds, positives + more)
    {
      assert SavedRow(rows[i], existIds, positives);
    }
  }

  /** A row saved for an unseen id whose answer letter names the positive option is a SavedRow. */
  lemma AnsweredSaved(s: Sweep, dataId: string, text: string, options: seq<string>, answer: string, b: Backend, think: bool,
                      existIds: set<string>, positives: set<(string, string)>)
    requires |options| == 5 && AllSaved(s.rows, existIds, positives) && dataId !in existIds
    requires |answer| == 1 && 0 <= answer[0] as int - 'A' as int < 5
    requires (dataId, Sanitize(options[answer[0] as int - 'A' as int])) in positives
    ensures AllSaved(Answered(s, dataId, text, options, answer, b, think).rows, existIds, positives)
  {
    var o := Run(AnswerVerdicts(b.llm, b.render(text, options), think), DefaultRetries);
    if o.result.Some? {
      AcceptedLetter(b.llm, b.render(text, options), think, DefaultRetries);
      var row := EasyRow(dataId, text, options, answer, o.result.value);
      EasyRowSaved(dataId, text, options, answer, o.result.value, existIds, positives);
      assert Answered(s, dataId, text, options, answer, b, think).rows == s.rows + [row];
      AllSavedSnoc(s.rows, row, existIds, positives);
    }
  }

  /** What the retry loop accepts is a letter A to E. */
  lemma AcceptedLetter(llm: Llm<string>, prompt: string, think: bool, n: int)
    ensures var o := Run(AnswerVerdicts(llm, prompt, think), n); o.result.Some? ==> o.result.value in Letters
  {
    var o := Run(AnswerVerdicts(llm, prompt, think), n);
    if o.result.Some? {
      assert AnswerVerdict(llm(SentPrompt(prompt, think), o.calls - 1)) == Ok(o.result.value);
    }
  }

  /** The easy row of an unseen id, with the positive under its answer letter and a letter predicted. */
  lemma EasyRowSaved(dataId: string, text: string, options: seq<string>, answer: string, prediction: string,
                     existIds: set<string>, positives: set<(string, string)>)
    requires |options| == 5 && dataId !in existIds && prediction in Letters
    requires |answer| == 1 && 0 <= answer[0] as int - 'A' as int < 5
    requires (dataId, Sanitize(options[answer[0] as int - 'A' as int])) in positives
    ensures SavedRow(EasyRow(dataId, text, options, answer, prediction), existIds, positives)
  {
    var k := answer[0] as int - 'A' as int;
    LettersOfFive(k);
    assert answer == Letter(k);
  }

  lemma AllSavedSnoc(rows: seq<seq<string>>, row: seq<string>, existIds: set<string>, positives: set<(string, string)>)
    requires AllSaved(rows, existIds, positives) && SavedRow(row, existIds, positives)
    ensures AllSaved(rows + [row], existIds, positives)
  {
    forall i | 0 <= i < |rows| + 1
      ensures SavedRow((rows + [row])[i], existIds, positives)
    {
      if i < |rows| {
        assert (rows + [row])[i] == rows[i];
      }
    }
  }

  /** Rows whose id is a key and whose fields are all clean. */
  predicate AllKeyed(rows: seq<seq<string>>) {
    forall i :: 0 <= i < |rows| ==> Keyed(rows[i])
  }

  /**
   * Resuming: when the saved rows are keyed (dataset ids free of tabs, newlines and outer
   * spaces), the file's ids after the run are the old ones and those of the saved rows,
   * none of which the file held before.
   */
  lemma ResumeIds(f: File, samples: seq<Sample>, language: string, b: Backend, think: bool)
    requires Contents(f) == [] || Contents(f)[|Contents(f)| - 1] == '\n'
    requires AllKeyed(Answer(samples, FileIds(f), language, b, think).rows)
    ensures var s := Answer(samples, FileIds(f), language, b, think);
            && FileIds(AfterRows(f, s.rows)) == FileIds(f) + FirstFields(s.rows)
            && forall i :: 0 <= i < |s.rows| ==> s.rows[i][0] !in FileIds(f)
  {
    var s := Answer(samples, FileIds(f), language, b, think);
    AnswerRows(samples, FileIds(f), language, b, think);
    if s.rows != [] {
      WrittenIds(Contents(f), s.rows);
      if f.None? {
        assert FileIds(f) == {} == FileIds(Some(""));
      }
    }
  }

  /**
   * The metrics at the end of a run take the pairs the file held, then the (answer,
   * prediction) of every saved row, when those rows are keyed.
   */
  lemma FinalEvaluation(f: File, samples: seq<Sample>, language: string, b: Backend, think: bool)
    requires Contents(f) == [] || Contents(f)[|Contents(f)| - 1] == '\n'
    requires Answer(samples, FileIds(f), language, b, think).processed > 0
    requires AllKeyed(Answer(samples, FileIds(f), language, b, think).rows)
    ensures var s := Answer(samples, FileIds(f), language, b, think);
            var before := Pairs(ReadLines(Contents(f)), MinFields);
            Evaluation(ReadLines(Contents(AfterRows(f, s.rows)))) == Scored(Accuracy(before + RowPairs(s.rows)), before + RowPairs(s.rows))
  {
    var s := Answer(samples, FileIds(f), language, b, think);
    AnswerRows(samples, FileIds(f), language, b, think);
    forall i | 0 <= i < |s.rows|
      ensures |s.rows[i]| >= 2 && Readable(s.rows[i], MinFields)
    {
      SavedReadable(s.rows[i], FileIds(f), Positives(samples, language));
    }
    EvaluatesAppendedRows(Contents(f), s.rows);
  }

  lemma SavedReadable(row: seq<string>, existIds: set<string>, positives: set<(string, string)>)
    requires SavedRow(row, existIds, positives) && Keyed(row)
    ensures |row| >= 2 && Readable(row, MinFields)
  {
    LettersAreKeys();
    assert IsKey(row[8]);
  }

  /** A run over rows whose ids are all in the file saves nothing and logs nothing. */
  lemma {:induction false} AllKnownSkipped(samples: seq<Sample>, existIds: set<string>, language: string, b: Backend, think: bool)
    requires forall i :: 0 <= i < |samples| ==> samples[i].rowId in existIds
    ensures Answer(samples, existIds, language, b, think) == Sweep([], 0, "")
    decreases |samples|
  {
    if samples != [] {
      AllKnownSkipped(samples[..|samples| - 1], existIds, language, b, think);
    }
  }
}
