/**
 * The narrative driver: run_evaluation_pipeline and the evaluation-only branch of main.
 * A run skips the samples whose ids the results file already holds, generates and judges
 * a narrative for each remaining sample with a reference, appends each result at once (the
 * header only before the first row of a new file), scores the new rows with BERTScore in
 * batches, then scores the old rows that lack BERTScore, and reads the file back.
 *
 * The file is changed only through append_result and update_results_with_bertscore; the
 * ghost log `writes` lists those calls in order, and the file is the log replayed.
 */
module NarrativeRun {
  import opened Wrappers
  import opened PyStr
  import opened PyIO
  import opened Retry
  import Config = NarrativeConfig
  import opened NarrativeData
  import opened NarrativeModels
  import opened NarrativeEvaluation

  /** A dataset row: str() of its id and of its text, and its other columns. */
  datatype Sample = Sample(id: string, text: string, columns: map<string, string>)

  /**
   * The two model sessions, the BERTScore scorer, and template.format() of the generation
   * prompt (given the text) and of the evaluation prompt (given candidate and reference).
   */
  datatype Backends = Backends(
    generator: Llm<string>, judge: Llm<int>, scorer: BertScorer,
    formatGeneration: (Config.PromptVersion, string) -> string,
    formatEvaluation: (Config.PromptVersion, string, string) -> string)

  /** What a run fixes before its sample loop. */
  datatype Setup = Setup(languageCode: string, generation: Config.PromptVersion,
                         evaluation: Config.PromptVersion, think: bool, backends: Backends)

  /** One change to the results file: a row appended (after the header when `header`), or a batch scored. */
  datatype Write = Appended(result: EvaluationResult, header: bool) | Scored(batch: seq<EvaluationResult>)

  // ----- before the loop -----

  /** df.head(n): the first n rows; a negative n drops the last -n rows. */
  function Head<T>(xs: seq<T>, n: int): (ys: seq<T>)
    ensures |ys| <= |xs| && ys == xs[..|ys|]
    ensures n >= 0 ==> |ys| == if n <= |xs| then n else |xs|
    ensures n < 0 ==> |ys| == if |xs| + n >= 0 then |xs| + n else 0
  {
    if n >= 0 then (if n <= |xs| then xs[..n] else xs)
    else if |xs| + n >= 0 then xs[..|xs| + n] else []
  }

  /** `if max_samples: df = df.head(max_samples)`: no limit and a limit of 0 keep every sample. */
  function Limited(samples: seq<Sample>, maxSamples: Option<int>): (ys: seq<Sample>)
    ensures |ys| <= |samples| && ys == samples[..|ys|]
    ensures maxSamples.None? || maxSamples.value == 0 ==> ys == samples
    ensures maxSamples.Some? && maxSamples.value > 0 ==> |ys| == if maxSamples.value <= |samples| then maxSamples.value else |samples|
  {
    if maxSamples.None? || maxSamples.value == 0 then samples else Head(samples, maxSamples.value)
  }

  /**
   * The language code and the two prompts: extract_language_code raises on either version
   * without '_', get_prompt raises on a version the registry lacks. Codes that differ only
   * draw a warning; the generation version's code is the one used.
   */
  function Prepare(generationVersion: string, evaluationVersion: string, think: bool, backends: Backends): (r: Result<Setup>)
    ensures r.Ok? <==> '_' in generationVersion && '_' in evaluationVersion
                       && Config.Key(Config.NarrativeGeneration, generationVersion) in Config.DefaultRegistry()
                       && Config.Key(Config.NarrativeEvaluation, evaluationVersion) in Config.DefaultRegistry()
    ensures r.Ok? ==> r.value.languageCode == generationVersion[IndexOf(generationVersion, '_') + 1..]
    ensures r.Ok? ==> r.value.generation == Config.DefaultRegistry()[Config.Key(Config.NarrativeGeneration, generationVersion)]
    ensures r.Ok? ==> r.value.evaluation == Config.DefaultRegistry()[Config.Key(Config.NarrativeEvaluation, evaluationVersion)]
    ensures r.Ok? ==> r.value.think == think && r.value.backends == backends
  {
    var code := ExtractLanguageCode(generationVersion);
    var evalCode := ExtractLanguageCode(evaluationVersion);
    var generation := Config.Lookup(Config.DefaultRegistry(), Config.NarrativeGeneration, generationVersion);
    var evaluation := Config.Lookup(Config.DefaultRegistry(), Config.NarrativeEvaluation, evaluationVersion);
    if code.Err? then Err(code.error)
    else if evalCode.Err? then Err(evalCode.error)
    else if generation.Err? then Err(generation.error)
    else if evaluation.Err? then Err(evaluation.error)
    else Ok(Setup(code.value, generation.value, evaluation.value, think, backends))
  }

  /** The results that lack one of the three BERTScore values, in file order. */
  predicate LacksBert(r: EvaluationResult) {
    r.bertF1.None? || r.bertPrecision.None? || r.bertRecall.None?
  }

  function MissingBert(rs: seq<EvaluationResult>): (ms: seq<EvaluationResult>)
    ensures forall r <- ms :: r in rs && LacksBert(r)
    ensures forall r <- rs :: LacksBert(r) ==> r in ms
    ensures |ms| <= |rs|
  {
    if rs == [] then []
    else (if LacksBert(rs[0]) then [rs[0]] else []) + MissingBert(rs[1..])
  }

  /** The ids of a list of results. */
  function ResultIds(rs: seq<EvaluationResult>): set<string>
    decreases |rs|
  {
    if rs == [] then {} else ResultIds(rs[..|rs| - 1]) + {rs[|rs| - 1].id}
  }

  // ----- one sample -----

  /**
   * What the loop body makes of a sample whose id is new: nothing when the row has no
   * reference narrative or generation fails; otherwise a result carrying the judged
   * G-Eval score (None when judging fails) and no BERTScore yet.
   */
  function Attempt(s: Sample, st: Setup): (r: Option<EvaluationResult>)
    ensures GetReferenceNarrative(s.columns, st.languageCode) == "" ==> r.None?
    ensures r.Some? ==> r.value.id == s.id && r.value.text == Replace(s.text, '\n', ' ')
                        && r.value.reference == GetReferenceNarrative(s.columns, st.languageCode) != ""
                        && r.value.candidate != "" && IsNarrative(r.value.candidate)
                        && r.value.bertPrecision.None? && r.value.bertRecall.None? && r.value.bertF1.None?
    ensures r.Some? ==> '\n' !in r.value.text
  {
    var text := Replace(s.text, '\n', ' ');
    var reference := GetReferenceNarrative(s.columns, st.languageCode);
    if reference == "" then None
    else
      var verdicts := NarrativeVerdicts(st.backends.generator, st.backends.formatGeneration(st.generation, text), st.think);
      var candidate := Run(verdicts, Config.MaxRetries).result;
      if candidate.None? || candidate.value == "" then None
      else
        GeneratedIsNarrative(st.backends.generator, st.backends.formatGeneration(st.generation, text), st.think, Config.MaxRetries);
        var prompt := st.backends.formatEvaluation(st.evaluation, candidate.value, reference);
        var score := Run(GevalVerdicts(st.backends.judge, prompt), Config.MaxRetries).result;
        Some(EvaluationResult(s.id, text, reference, candidate.value, score, None, None, None))
  }

  /** The results the sample loop collects from the samples, given the ids already processed. */
  function Admitted(samples: seq<Sample>, seen: set<string>, st: Setup): seq<EvaluationResult>
    decreases |samples|
  {
    if samples == [] then []
    else
      var before := Admitted(samples[..|samples| - 1], seen, st);
      var s := samples[|samples| - 1];
      if s.id in seen + ResultIds(before) then before
      else match Attempt(s, st)
        case None => before
        case Some(r) => before + [r]
  }

  // ----- the writes of a run -----

  /** The flush threshold: len(pending) >= b holds after every append when b <= 1. */
  function Width(batchSize: int): (w: nat)
    ensures w >= 1
  {
    if batchSize < 1 then 1 else batchSize
  }

  /** How many results are pending after n appends with flush threshold w. */
  function Fill(n: nat, w: nat): (p: nat)
    requires w >= 1
    ensures p < w && p <= n
  {
    if n == 0 then 0
    else if Fill(n - 1, w) + 1 == w then 0
    else Fill(n - 1, w) + 1
  }

  /**
   * The writes of the sample loop once it has admitted the first k results of rs: one
   * append per result, the header only on the first when the file was missing, and a
   * scored batch of the last w results whenever the pending count is back to 0.
   */
  function LoopWrites(rs: seq<EvaluationResult>, k: nat, w: nat, header: bool): seq<Write>
    requires w >= 1 && k <= |rs|
  {
    if k == 0 then []
    else
      LoopWrites(rs, k - 1, w, header) + [Appended(rs[k - 1], header && k == 1)]
        + (if Fill(k, w) == 0 then [Scored(rs[k - w..k])] else [])
  }

  /** The results still waiting for BERTScore once all of rs has been appended. */
  function Pending(rs: seq<EvaluationResult>, w: nat): (p: seq<EvaluationResult>)
    requires w >= 1
    ensures |p| == Fill(|rs|, w)
  {
    rs[|rs| - Fill(|rs|, w)..]
  }

  /** The loop's writes, then the batch still pending after it. */
  function NewWrites(rs: seq<EvaluationResult>, w: nat, header: bool): seq<Write>
    requires w >= 1
  {
    LoopWrites(rs, |rs|, w, header) + (if Fill(|rs|, w) != 0 then [Scored(Pending(rs, w))] else [])
  }

  /** The batches `for i in range(0, len(xs), b)` cuts as xs[i:i+b], from index i on. */
  function SlicesFrom<T>(xs: seq<T>, b: nat, i: nat): seq<seq<T>>
    requires b >= 1
    decreases |xs| - i
  {
    if i >= |xs| then []
    else [xs[i..if i + b <= |xs| then i + b else |xs|]] + SlicesFrom(xs, b, i + b)
  }

  function ScoredEach(bs: seq<seq<EvaluationResult>>): (ws: seq<Write>)
    ensures |ws| == |bs| && forall i :: 0 <= i < |bs| ==> ws[i] == Scored(bs[i])
  {
    seq(|bs|, i requires 0 <= i < |bs| => Scored(bs[i]))
  }

  /** The writes of the loop over the old rows missing BERTScore; a negative step gives no batch. */
  function SliceWrites(xs: seq<EvaluationResult>, b: int): seq<Write> {
    if b < 1 then [] else ScoredEach(SlicesFrom(xs, b, 0))
  }

  /** The results the writes append, in order, with their header flags. */
  function Appends(ws: seq<Write>): seq<Write>
    decreases |ws|
  {
    if ws == [] then []
    else Appends(ws[..|ws| - 1]) + (if ws[|ws| - 1].Appended? then [ws[|ws| - 1]] else [])
  }

  /** The batches the writes score, in order. */
  function Batches(ws: seq<Write>): seq<seq<EvaluationResult>>
    decreases |ws|
  {
    if ws == [] then []
    else Batches(ws[..|ws| - 1]) + (if ws[|ws| - 1].Scored? then [ws[|ws| - 1].batch] else [])
  }

  function Flatten<T>(bs: seq<seq<T>>): seq<T>
    decreases |bs|
  {
    if bs == [] then [] else Flatten(bs[..|bs| - 1]) + bs[|bs| - 1]
  }

  /** The appends a list of results is due: the k-th appends the k-th result, the header only with the first. */
  function AppendedRows(rs: seq<EvaluationResult>, header: bool): (ws: seq<Write>)
    ensures |ws| == |rs|
    ensures forall k :: 0 <= k < |rs| ==> ws[k] == Appended(rs[k], header && k == 0)
  {
    seq(|rs|, k requires 0 <= k < |rs| => Appended(rs[k], header && k == 0))
  }

  /** What one write does to the file: append_result, or update_results_with_bertscore. */
  function Step(f: File, fmt: FloatFormat, scorer: BertScorer, languageCode: string, w: Write): File {
    match w
    case Appended(r, header) =>
      if header then Some(HeaderLine() + ResultRow(fmt, r)) else Some(Contents(f) + ResultRow(fmt, r))
    case Scored(batch) => Scoring(f, fmt, scorer, languageCode, batch)
  }

  /** The file after the writes, one after the other. */
  function Replay(f: File, fmt: FloatFormat, scorer: BertScorer, languageCode: string, ws: seq<Write>): File
    decreases |ws|
  {
    if ws == [] then f
    else Step(Replay(f, fmt, scorer, languageCode, ws[..|ws| - 1]), fmt, scorer, languageCode, ws[|ws| - 1])
  }

  // ----- the driver -----

  /**
   * The loop body for a sample whose id is new: the text with newlines made spaces, the
   * reference narrative (none: skip), the generated candidate (none or empty: skip), and
   * its G-Eval score.
   */
  method TrySample(s: Sample, st: Setup) returns (result: Option<EvaluationResult>)
    ensures result == Attempt(s, st)
  {
    var text := Replace(s.text, '\n', ' ');
    var reference := GetReferenceNarrative(s.columns, st.languageCode);
    if reference == "" {
      return None;
    }
    var candidate: Option<string>;
    ghost var sent: seq<string>;
    candidate, sent := GenerateNarrative(st.backends.generator, st.backends.formatGeneration(st.generation, text),
                                         st.think, Config.MaxRetries);
    if candidate.None? || candidate.value == "" {
      return None;
    }
    var score: Option<int>;
    ghost var calls: nat;
    score, calls := EvaluateWithGeval(st.backends.judge,
                                      st.backends.formatEvaluation(st.evaluation, candidate.value, reference),
                                      Config.MaxRetries);
    result := Some(EvaluationResult(s.id, text, reference, candidate.value, score, None, None, None));
  }

  /** update_results_with_bertscore on one batch, as the write log records it; an empty batch changes nothing. */
  method ScoreBatch(batch: seq<EvaluationResult>, languageCode: string, scorer: BertScorer,
                    fmt: FloatFormat, file: TextFile, ghost f0: File, ghost writes: seq<Write>)
    returns (ghost writes': seq<Write>)
    requires file.content == Replay(f0, fmt, scorer, languageCode, writes)
    modifies file
    ensures writes' == writes + (if batch != [] then [Scored(batch)] else [])
    ensures file.content == Replay(f0, fmt, scorer, languageCode, writes')
  {
    writes' := writes;
    if batch != [] {
      var _ := UpdateResultsWithBertScore(batch, languageCode, file, fmt, scorer);
      ReplayStep(f0, fmt, scorer, languageCode, writes, Scored(batch));
      writes' := writes + [Scored(batch)];
    } else {
      assert writes' == writes + [];
    }
  }

  /**
   * What the loop does with a new result: append_result (with the header when asked),
   * then, once the pending results number batchSize, update_results_with_bertscore on
   * them and an empty pending list.
   */
  method Record(r: EvaluationResult, writeHeader: bool, pending: seq<EvaluationResult>, batchSize: int,
                languageCode: string, scorer: BertScorer, fmt: FloatFormat, file: TextFile,
                ghost rs: seq<EvaluationResult>, ghost header: bool, ghost f0: File, ghost writes: seq<Write>)
    returns (pending': seq<EvaluationResult>, ghost writes': seq<Write>)
    requires writeHeader == (header && rs == [])
    requires pending == Pending(rs, Width(batchSize))
    requires writes == LoopWrites(rs, |rs|, Width(batchSize), header)
    requires file.content == Replay(f0, fmt, scorer, languageCode, writes)
    modifies file
    ensures pending' == Pending(rs + [r], Width(batchSize))
    ensures writes' == LoopWrites(rs + [r], |rs + [r]|, Width(batchSize), header)
    ensures file.content == Replay(f0, fmt, scorer, languageCode, writes')
  {
    LogStep(rs, r, Width(batchSize), batchSize, header);
    pending' := pending + [r];
    AppendResult(file, fmt, r, writeHeader);
    ReplayStep(f0, fmt, scorer, languageCode, writes, Appended(r, writeHeader));
    writes' := writes + [Appended(r, writeHeader)];
    if |pending'| >= batchSize {
      writes' := ScoreBatch(pending', languageCode, scorer, fmt, file, f0, writes');
      pending' := [];
    }
  }

  /**
   * One pass of the sample loop: a sample whose id is already processed is skipped, so
   * is one the body gives nothing for; otherwise its result is recorded and its id joins
   * the processed ids.
   */
  method ProcessSample(s: Sample, st: Setup, batchSize: int, fmt: FloatFormat, file: TextFile,
                       rs: seq<EvaluationResult>, processedIds: set<string>, writeHeader: bool,
                       pending: seq<EvaluationResult>,
                       ghost seen: set<string>, ghost header: bool, ghost f0: File, ghost writes: seq<Write>)
    returns (rs': seq<EvaluationResult>, processedIds': set<string>, writeHeader': bool,
             pending': seq<EvaluationResult>, ghost writes': seq<Write>)
    requires processedIds == seen + ResultIds(rs)
    requires writeHeader == (header && rs == [])
    requires pending == Pending(rs, Width(batchSize))
    requires writes == LoopWrites(rs, |rs|, Width(batchSize), header)
    requires file.content == Replay(f0, fmt, st.backends.scorer, st.languageCode, writes)
    modifies file
    ensures rs' == if s.id in seen + ResultIds(rs) || Attempt(s, st).None? then rs else rs + [Attempt(s, st).value]
    ensures processedIds' == seen + ResultIds(rs')
    ensures writeHeader' == (header && rs' == [])
    ensures pending' == Pending(rs', Width(batchSize))
    ensures writes' == LoopWrites(rs', |rs'|, Width(batchSize), header)
    ensures file.content == Replay(f0, fmt, st.backends.scorer, st.languageCode, writes')
  {
    rs', processedIds', writeHeader', pending', writes' := rs, processedIds, writeHeader, pending, writes;
    if s.id in processedIds {
      return;
    }
    var result := TrySample(s, st);
    if result.None? {
      return;
    }
    var r := result.value;
    IdsStep(rs, r);
    pending', writes' := Record(r, writeHeader, pending, batchSize, st.languageCode, st.backends.scorer,
                                fmt, file, rs, header, f0, writes);
    rs' := rs + [r];
    processedIds' := processedIds + {s.id};
    writeHeader' := false;
  }

  /**
   * The sample loop and the flush after it: every sample whose id is new is tried; each
   * result is appended at once and remembered, and the pending results are scored as a
   * batch once there are batchSize of them, and once more at the end if any are left.
   */
  method ProcessSamples(samples: seq<Sample>, seen: set<string>, header: bool, st: Setup,
                        batchSize: int, fmt: FloatFormat, file: TextFile)
    returns (newResults: seq<EvaluationResult>, ghost writes: seq<Write>)
    modifies file
    ensures newResults == Admitted(samples, seen, st)
    ensures writes == NewWrites(newResults, Width(batchSize), header)
    ensures file.content == Replay(old(file.content), fmt, st.backends.scorer, st.languageCode, writes)
  {
    ghost var f0 := file.content;
    ghost var w := Width(batchSize);
    var processedIds := seen;
    var writeHeader := header;
    var pending := [];
    newResults := [];
    writes := [];
    SampleLoopStart(samples, seen, header, st, w, fmt, f0);
    for i := 0 to |samples|
      invariant SampleLoop(samples, i, seen, header, st, w, fmt, f0, file.content,
                           newResults, processedIds, writeHeader, pending, writes)
    {
      newResults, processedIds, writeHeader, pending, writes :=
        SampleStep(samples, i, seen, header, st, batchSize, fmt, file, f0,
                   newResults, processedIds, writeHeader, pending, writes);
    }
    writes := FlushPending(samples, seen, header, st, batchSize, fmt, file, f0,
                           newResults, processedIds, writeHeader, pending, writes);
  }

  /** The sample loop's invariant after the first i samples. */
  ghost predicate SampleLoop(samples: seq<Sample>, i: nat, seen: set<string>, header: bool, st: Setup, w: nat,
                             fmt: FloatFormat, f0: File, c: File, rs: seq<EvaluationResult>, processedIds: set<string>,
                             writeHeader: bool, pending: seq<EvaluationResult>, writes: seq<Write>)
    requires w >= 1
  {
    && i <= |samples|
    && rs == Admitted(samples[..i], seen, st)
    && processedIds == seen + ResultIds(rs)
    && writeHeader == (header && rs == [])
    && pending == Pending(rs, w)
    && writes == LoopWrites(rs, |rs|, w, header)
    && c == Replay(f0, fmt, st.backends.scorer, st.languageCode, writes)
  }

  lemma SampleLoopStart(samples: seq<Sample>, seen: set<string>, header: bool, st: Setup, w: nat,
                        fmt: FloatFormat, f0: File)
    requires w >= 1
    ensures SampleLoop(samples, 0, seen, header, st, w, fmt, f0, f0, [], seen, header, [], [])
  {
    assert samples[..0] == [];
  }

  /** One pass of the sample loop, on the invariant. */
  method SampleStep(samples: seq<Sample>, i: nat, seen: set<string>, header: bool, st: Setup, batchSize: int,
                    fmt: FloatFormat, file: TextFile, ghost f0: File, rs: seq<EvaluationResult>,
                    processedIds: set<string>, writeHeader: bool, pending: seq<EvaluationResult>, ghost writes: seq<Write>)
    returns (rs': seq<EvaluationResult>, processedIds': set<string>, writeHeader': bool,
             pending': seq<EvaluationResult>, ghost writes': seq<Write>)
    requires i < |samples|
    requires SampleLoop(samples, i, seen, header, st, Width(batchSize), fmt, f0, file.content,
                        rs, processedIds, writeHeader, pending, writes)
    modifies file
    ensures SampleLoop(samples, i + 1, seen, header, st, Width(batchSize), fmt, f0, file.content,
                       rs', processedIds', writeHeader', pending', writes')
  {
    AdmittedNext(samples, i, seen, st);
    rs', processedIds', writeHeader', pending', writes' :=
      ProcessSample(samples[i], st, batchSize, fmt, file, rs, processedIds, writeHeader, pending,
                    seen, header, f0, writes);
  }

  /** The flush after the sample loop: the results still pending are scored as one batch. */
  method FlushPending(samples: seq<Sample>, seen: set<string>, header: bool, st: Setup, batchSize: int,
                      fmt: FloatFormat, file: TextFile, ghost f0: File, rs: seq<EvaluationResult>,
                      processedIds: set<string>, writeHeader: bool, pending: seq<EvaluationResult>, ghost writes: seq<Write>)
    returns (ghost writes': seq<Write>)
    requires SampleLoop(samples, |samples|, seen, header, st, Width(batchSize), fmt, f0, file.content,
                        rs, processedIds, writeHeader, pending, writes)
    modifies file
    ensures rs == Admitted(samples, seen, st)
    ensures writes' == NewWrites(rs, Width(batchSize), header)
    ensures file.content == Replay(f0, fmt, st.backends.scorer, st.languageCode, writes')
  {
    assert samples[..|samples|] == samples;
    writes' := writes;
    if pending != [] {
      writes' := ScoreBatch(pending, st.languageCode, st.backends.scorer, fmt, file, f0, writes);
    } else {
      assert writes' == writes + [];
    }
  }

  /** The loop over the old rows missing BERTScore: each slice xs[i:i+b] is scored in turn. */
  method ScoreSlices(xs: seq<EvaluationResult>, b: int, languageCode: string, scorer: BertScorer,
                     fmt: FloatFormat, file: TextFile)
    returns (ghost writes: seq<Write>)
    requires b >= 1
    modifies file
    ensures writes == SliceWrites(xs, b)
    ensures file.content == Replay(old(file.content), fmt, scorer, languageCode, writes)
  {
    ghost var f0 := file.content;
    writes := [];
    var i: nat := 0;
    ProgressStart(xs, b, f0, fmt, scorer, languageCode);
    while i < |xs|
      invariant Progress(xs, b, i, writes, file.content, f0, fmt, scorer, languageCode)
      decreases |xs| - i
    {
      writes := ScoreSlice(xs, b, i, languageCode, scorer, fmt, file, f0, writes);
      i := i + b;
    }
    ProgressDone(xs, b, i, writes, file.content, f0, fmt, scorer, languageCode);
  }

  lemma ProgressStart(xs: seq<EvaluationResult>, b: nat, f0: File, fmt: FloatFormat, scorer: BertScorer, languageCode: string)
    requires b >= 1
    ensures Progress(xs, b, 0, [], f0, f0, fmt, scorer, languageCode)
  {
    assert [] + ScoredEach(SlicesFrom(xs, b, 0)) == ScoredEach(SlicesFrom(xs, b, 0));
  }

  lemma ProgressDone(xs: seq<EvaluationResult>, b: nat, i: nat, writes: seq<Write>, c: File, f0: File,
                     fmt: FloatFormat, scorer: BertScorer, languageCode: string)
    requires b >= 1 && i >= |xs| && Progress(xs, b, i, writes, c, f0, fmt, scorer, languageCode)
    ensures writes == SliceWrites(xs, b) && c == Replay(f0, fmt, scorer, languageCode, SliceWrites(xs, b))
  {
    SlicedAll(xs, b, i, writes);
  }

  ghost predicate Progress(xs: seq<EvaluationResult>, b: nat, i: nat, writes: seq<Write>, c: File, f0: File,
                           fmt: FloatFormat, scorer: BertScorer, languageCode: string)
    requires b >= 1
  {
    SlicedSoFar(xs, b, i, writes) && c == Replay(f0, fmt, scorer, languageCode, writes)
  }

  /** The writes so far are the batches before i: with those from i on they make all of them. */
  ghost predicate SlicedSoFar(xs: seq<EvaluationResult>, b: nat, i: nat, writes: seq<Write>)
    requires b >= 1
  {
    writes + ScoredEach(SlicesFrom(xs, b, i)) == ScoredEach(SlicesFrom(xs, b, 0))
  }

  lemma SlicedAll(xs: seq<EvaluationResult>, b: nat, i: nat, writes: seq<Write>)
    requires b >= 1 && i >= |xs| && SlicedSoFar(xs, b, i, writes)
    ensures writes == SliceWrites(xs, b)
  {
    assert writes + ScoredEach(SlicesFrom(xs, b, i)) == writes + [];
  }

  /** One pass of that loop: the batch starting at i. */
  method ScoreSlice(xs: seq<EvaluationResult>, b: nat, i: nat, languageCode: string, scorer: BertScorer,
                    fmt: FloatFormat, file: TextFile, ghost f0: File, ghost writes: seq<Write>)
    returns (ghost writes': seq<Write>)
    requires b >= 1 && i < |xs| && Progress(xs, b, i, writes, file.content, f0, fmt, scorer, languageCode)
    modifies file
    ensures Progress(xs, b, i + b, writes', file.content, f0, fmt, scorer, languageCode)
  {
    var batch := xs[i..if i + b <= |xs| then i + b else |xs|];
    SlicesStep(xs, b, i, writes);
    writes' := ScoreBatch(batch, languageCode, scorer, fmt, file, f0, writes);
  }

  lemma SlicesStep(xs: seq<EvaluationResult>, b: nat, i: nat, writes: seq<Write>)
    requires b >= 1 && i < |xs|
    ensures (writes + [Scored(xs[i..if i + b <= |xs| then i + b else |xs|])]) + ScoredEach(SlicesFrom(xs, b, i + b))
            == writes + ScoredEach(SlicesFrom(xs, b, i))
  {
    var batch := xs[i..if i + b <= |xs| then i + b else |xs|];
    assert SlicesFrom(xs, b, i) == [batch] + SlicesFrom(xs, b, i + b);
    assert ScoredEach(SlicesFrom(xs, b, i)) == [Scored(batch)] + ScoredEach(SlicesFrom(xs, b, i + b));
  }

  /** The writes of a whole run: the new samples', then the old rows' BERTScore batches. */
  function RunWrites(rs: seq<EvaluationResult>, existing: seq<EvaluationResult>, batchSize: int, header: bool): seq<Write> {
    NewWrites(rs, Width(batchSize), header) + SliceWrites(MissingBert(existing), batchSize)
  }

  /**
   * The checks before the sample loop: both versions' language codes, then the two
   * prompts from a fresh prompt manager.
   */
  method PrepareRun(generationVersion: string, evaluationVersion: string, think: bool, backends: Backends)
    returns (r: Result<Setup>)
    ensures r == Prepare(generationVersion, evaluationVersion, think, backends)
  {
    var code := ExtractLanguageCode(generationVersion);
    if code.Err? {
      return Err(code.error);
    }
    var evalCode := ExtractLanguageCode(evaluationVersion);
    if evalCode.Err? {
      return Err(evalCode.error);
    }
    var manager := new Config.PromptManager();
    var generation := manager.GetPrompt(Config.NarrativeGeneration, generationVersion);
    if generation.Err? {
      return Err(generation.error);
    }
    var evaluation := manager.GetPrompt(Config.NarrativeEvaluation, evaluationVersion);
    if evaluation.Err? {
      return Err(evaluation.error);
    }
    r := Ok(Setup(code.value, generation.value, evaluation.value, think, backends));
  }

  /**
   * What a prepared run does to the results file f0, leaving f1: it admits the new samples
   * (those whose ids the file does not hold), and the file ends as the replay of the writes.
   * A step of 0 with old rows to score fails after the sample loop; otherwise the writes
   * are the run's and the result is the file read back, or the new results when no file exists.
   */
  ghost predicate RunOutcome(st: Setup, samples: seq<Sample>, batchSize: int, fmt: FloatFormat,
                             f0: File, f1: File, results: Result<seq<EvaluationResult>>, writes: seq<Write>)
  {
    var existing := ProcessedResults(fmt, f0);
    var rs := Admitted(samples, ResultIds(existing), st);
    var header := f0.None?;
    f1 == Replay(f0, fmt, st.backends.scorer, st.languageCode, writes)
    && (batchSize == 0 && MissingBert(existing) != [] ==>
          results.Err? && writes == NewWrites(rs, 1, header))
    && (batchSize != 0 || MissingBert(existing) == [] ==>
          writes == RunWrites(rs, existing, batchSize, header)
          && results == Ok(if f1.Some? then ProcessedResults(fmt, f1) else rs))
  }

  /**
   * run_evaluation_pipeline on the rows of the dataset's test split and the results file
   * of the run. The ids already in the file (as load_processed_results reads them) are
   * skipped; the run returns the file read back, or the new results when no file exists.
   * A step of 0 with old rows to score makes range() raise after the sample loop.
   */
  method RunEvaluationPipeline(generationVersion: string, evaluationVersion: string, dataset: seq<Sample>,
                               maxSamples: Option<int>, think: bool, batchSize: int, backends: Backends,
                               fmt: FloatFormat, file: TextFile)
    returns (results: Result<seq<EvaluationResult>>, stats: Option<Statistics>, ghost writes: seq<Write>)
    modifies file
    ensures Prepare(generationVersion, evaluationVersion, think, backends).Err? ==>
              results == Err(Prepare(generationVersion, evaluationVersion, think, backends).error)
              && writes == [] && file.content == old(file.content)
    ensures Prepare(generationVersion, evaluationVersion, think, backends).Ok? ==>
              RunOutcome(Prepare(generationVersion, evaluationVersion, think, backends).value,
                         Limited(dataset, maxSamples), batchSize, fmt, old(file.content), file.content, results, writes)
    ensures results.Ok? ==> stats == if results.value == [] then None else Some(ResultStatistics(results.value))
  {
    writes := [];
    stats := None;
    var prepared := PrepareRun(generationVersion, evaluationVersion, think, backends);
    if prepared.Err? {
      return Err(prepared.error), None, [];
    }
    var st := prepared.value;
    var samples := Limited(dataset, maxSamples);
    var existing := [];
    if file.content.Some? {
      existing := LoadProcessedResults(fmt, file.content);
    }
    var missing := MissingBert(existing);
    var header := file.content.None?;
    ghost var f0 := file.content;
    var newResults;
    newResults, writes := ProcessSamples(samples, ResultIds(existing), header, st, batchSize, fmt, file);
    var zeroStep;
    zeroStep, writes := ScoreMissing(missing, batchSize, st.languageCode, backends.scorer, fmt, file, f0, writes);
    if zeroStep {
      return Err("range() arg 3 must not be zero"), None, writes;
    }
    var all := newResults;
    if file.content.Some? {
      all := LoadProcessedResults(fmt, file.content);
    }
    if all != [] {
      stats := Some(ResultStatistics(all));
    }
    results := Ok(all);
  }

  /**
   * The loop over the old rows missing BERTScore, after the sample loop: nothing when
   * there are none; a zero batch size makes range() raise before any batch.
   */
  method ScoreMissing(missing: seq<EvaluationResult>, batchSize: int, languageCode: string, scorer: BertScorer,
                      fmt: FloatFormat, file: TextFile, ghost f0: File, ghost writes: seq<Write>)
    returns (zeroStep: bool, ghost writes': seq<Write>)
    requires file.content == Replay(f0, fmt, scorer, languageCode, writes)
    modifies file
    ensures zeroStep <==> missing != [] && batchSize == 0
    ensures writes' == if zeroStep then writes else writes + SliceWrites(missing, batchSize)
    ensures file.content == Replay(f0, fmt, scorer, languageCode, writes')
  {
    zeroStep := false;
    writes' := writes;
    if missing != [] {
      if batchSize == 0 {
        return true, writes;
      }
      if batchSize > 0 {
        ghost var more := ScoreSlices(missing, batchSize, languageCode, scorer, fmt, file);
        ReplayConcat(f0, fmt, scorer, languageCode, writes, more);
        writes' := writes + more;
        return;
      }
    }
    assert SliceWrites(missing, batchSize) == [] by {
      if batchSize >= 1 {
        assert SlicesFrom(missing, batchSize, 0) == [];
      }
    }
    assert writes' == writes + [];
  }

  /**
   * The evaluation-only branch of main: with no results file an error is reported;
   * otherwise the rows missing BERTScore are scored in batches (with the generation
   * version's language code), the file is read again if any were, and the statistics of
   * every row are printed.
   */
  method EvaluateOnly(outputDir: string, llmModel: string, generationVersion: string, evaluationVersion: string,
                      batchSize: int, scorer: BertScorer, fmt: FloatFormat, file: TextFile)
    returns (stats: Result<Statistics>, ghost writes: seq<Write>)
    modifies file
    ensures old(file.content).None? ==>
              stats == Err("Results file not found: " + GetResultFilepath(outputDir, llmModel, generationVersion, evaluationVersion))
              && writes == [] && file.content == old(file.content)
    ensures old(file.content).Some? ==>
              var results := ProcessedResults(fmt, old(file.content));
              var missing := MissingBert(results);
              var code := ExtractLanguageCode(generationVersion);
              (missing == [] ==> stats == Ok(ResultStatistics(results)) && writes == [] && file.content == old(file.content))
              && (missing != [] && code.Err? ==> stats == Err(code.error) && writes == [] && file.content == old(file.content))
              && (missing != [] && code.Ok? && batchSize == 0 ==> stats.Err? && writes == [] && file.content == old(file.content))
              && (missing != [] && code.Ok? && batchSize != 0 ==>
                    writes == SliceWrites(missing, batchSize)
                    && file.content == Replay(old(file.content), fmt, scorer, code.value, writes)
                    && stats == Ok(ResultStatistics(ProcessedResults(fmt, file.content))))
  {
    writes := [];
    if file.content.None? {
      return Err("Results file not found: " + GetResultFilepath(outputDir, llmModel, generationVersion, evaluationVersion)), [];
    }
    var results := LoadProcessedResults(fmt, file.content);
    var missing := MissingBert(results);
    if missing != [] {
      var code := ExtractLanguageCode(generationVersion);
      if code.Err? {
        return Err(code.error), [];
      }
      if batchSize == 0 {
        return Err("range() arg 3 must not be zero"), [];
      }
      if batchSize > 0 {
        writes := ScoreSlices(missing, batchSize, code.value, scorer, fmt, file);
      }
      results := LoadProcessedResults(fmt, file.content);
    }
    stats := Ok(ResultStatistics(results));
  }

  // ----- lemmas -----

  /** One more sample: skipped when its id is known or the body gives nothing, added otherwise. */
  lemma AdmittedNext(samples: seq<Sample>, i: nat, seen: set<string>, st: Setup)
    requires i < |samples|
    ensures var before := Admitted(samples[..i], seen, st);
            var s := samples[i];
            Admitted(samples[..i + 1], seen, st)
            == if s.id in seen + ResultIds(before) || Attempt(s, st).None? then before else before + [Attempt(s, st).value]
  {
    assert samples[..i + 1][..i] == samples[..i];
  }

  /**
   * One more result: its id joins the set; it joins the pending results, which are then
   * flushed exactly when there are batchSize of them (or batchSize <= 1); and the loop's
   * writes grow by its append, and by the flush when there is one.
   */
  lemma IdsStep(rs: seq<EvaluationResult>, r: EvaluationResult)
    ensures ResultIds(rs + [r]) == ResultIds(rs) + {r.id}
  {
    assert (rs + [r])[..|rs|] == rs;
  }

  lemma LogStep(rs: seq<EvaluationResult>, r: EvaluationResult, w: nat, batchSize: int, header: bool)
    requires w == Width(batchSize)
    ensures var ts := rs + [r];
            var pending := Pending(rs, w) + [r];
            var ws := LoopWrites(rs, |rs|, w, header) + [Appended(r, header && rs == [])];
            (|pending| >= batchSize ==> LoopWrites(ts, |ts|, w, header) == ws + [Scored(pending)]
                                        && Pending(ts, w) == [])
            && (|pending| < batchSize ==> LoopWrites(ts, |ts|, w, header) == ws
                                          && Pending(ts, w) == pending)
  {
    FlushStep(|rs|, w, batchSize);
    if Fill(|rs| + 1, w) == 0 {
      LogFlush(rs, r, w, header);
    } else {
      LogHold(rs, r, w, header);
    }
  }

  /** The result that fills the batch: its append, then the batch. */
  lemma LogFlush(rs: seq<EvaluationResult>, r: EvaluationResult, w: nat, header: bool)
    requires w >= 1 && Fill(|rs| + 1, w) == 0
    ensures LoopWrites(rs + [r], |rs| + 1, w, header)
            == LoopWrites(rs, |rs|, w, header) + [Appended(r, header && rs == [])] + [Scored(Pending(rs, w) + [r])]
    ensures Pending(rs + [r], w) == []
  {
    AppendedLast(rs, r, w, header);
    SliceAppend(rs, r, |rs| + 1 - w);
  }

  /** A result that does not fill the batch: only its append. */
  lemma LogHold(rs: seq<EvaluationResult>, r: EvaluationResult, w: nat, header: bool)
    requires w >= 1 && Fill(|rs| + 1, w) != 0
    ensures LoopWrites(rs + [r], |rs| + 1, w, header) == LoopWrites(rs, |rs|, w, header) + [Appended(r, header && rs == [])]
    ensures Pending(rs + [r], w) == Pending(rs, w) + [r]
  {
    AppendedLast(rs, r, w, header);
    SliceAppend(rs, r, |rs| - Fill(|rs|, w));
  }

  /** The loop's writes up to one more result: those up to rs, that result's append, and its flush if any. */
  lemma AppendedLast(rs: seq<EvaluationResult>, r: EvaluationResult, w: nat, header: bool)
    requires w >= 1
    ensures LoopWrites(rs + [r], |rs| + 1, w, header)
            == LoopWrites(rs, |rs|, w, header) + [Appended(r, header && rs == [])]
               + (if Fill(|rs| + 1, w) == 0 then [Scored((rs + [r])[|rs| + 1 - w..|rs| + 1])] else [])
  {
    assert (rs + [r])[..|rs|] == rs;
    LoopWritesPrefix(rs, rs + [r], |rs|, w, header);
  }

  lemma SliceAppend<T>(xs: seq<T>, x: T, i: nat)
    requires i <= |xs|
    ensures (xs + [x])[i..|xs| + 1] == (xs + [x])[i..] == xs[i..] + [x]
  {
  }

  lemma ReplayStep(f: File, fmt: FloatFormat, scorer: BertScorer, code: string, ws: seq<Write>, w: Write)
    ensures Replay(f, fmt, scorer, code, ws + [w]) == Step(Replay(f, fmt, scorer, code, ws), fmt, scorer, code, w)
  {
    assert (ws + [w])[..|ws|] == ws;
  }

  lemma {:induction false} ReplayConcat(f: File, fmt: FloatFormat, scorer: BertScorer, code: string, a: seq<Write>, b: seq<Write>)
    ensures Replay(f, fmt, scorer, code, a + b) == Replay(Replay(f, fmt, scorer, code, a), fmt, scorer, code, b)
    decreases |b|
  {
    if b == [] {
      assert a + b == a;
    } else {
      var b' := b[..|b| - 1];
      ReplayConcat(f, fmt, scorer, code, a, b');
      assert (a + b)[..|a + b| - 1] == a + b';
      assert (a + b)[|a + b| - 1] == b[|b| - 1];
    }
  }

  /** When the batch is flushed: the pending count reaches the threshold exactly when the count after the append is back to 0. */
  lemma FlushStep(k: nat, w: nat, batchSize: int)
    requires w == Width(batchSize)
    ensures (Fill(k, w) + 1 >= batchSize) <==> Fill(k + 1, w) == 0
  {
  }

  /** The pending count is the number of results modulo the threshold. */
  lemma {:induction false} FillIsMod(n: nat, w: nat)
    requires w >= 1
    ensures Fill(n, w) == n % w
  {
    if n > 0 {
      FillIsMod(n - 1, w);
      ModStep(n - 1, w);
    }
  }

  lemma ModStep(k: nat, w: nat)
    requires w >= 1
    ensures (k + 1) % w == if k % w + 1 == w then 0 else k % w + 1
  {
    if k % w + 1 == w {
      DivUnique(k + 1, w, k / w + 1, 0);
    } else {
      DivUnique(k + 1, w, k / w, k % w + 1);
    }
  }

  lemma DivShift(m: nat, b: nat)
    requires b >= 1
    ensures (m + b) / b == m / b + 1
  {
    DivUnique(m + b, b, m / b + 1, m % b);
  }

  /** Euclidean division has one quotient and remainder. */
  lemma DivUnique(a: int, b: int, q: int, r: int)
    requires b >= 1 && 0 <= r < b && a == q * b + r
    ensures a / b == q && a % b == r
  {
    var quotient := a / b;
    var rest := a % b;
    assert (quotient - q) * b == r - rest;
    assert (q - quotient) * b == rest - r;
    if quotient - q >= 1 {
      MulAtLeast(quotient - q, b);
    } else if q - quotient >= 1 {
      MulAtLeast(q - quotient, b);
    }
  }

  lemma MulAtLeast(d: int, b: int)
    requires d >= 1 && b >= 1
    ensures d * b >= b
  {
  }

  lemma IdsListed(rs: seq<EvaluationResult>)
    ensures forall i :: 0 <= i < |rs| ==> rs[i].id in ResultIds(rs)
    ensures forall x :: x in ResultIds(rs) ==> exists i :: 0 <= i < |rs| && rs[i].id == x
    decreases |rs|
  {
    if rs != [] {
      IdsListed(rs[..|rs| - 1]);
    }
  }

  /** No new result carries an id that was already in the results file. */
  lemma {:induction false} AdmittedUnseen(samples: seq<Sample>, seen: set<string>, st: Setup)
    ensures forall r <- Admitted(samples, seen, st) :: r.id !in seen
    decreases |samples|
  {
    if samples != [] {
      var before := Admitted(samples[..|samples| - 1], seen, st);
      var s := samples[|samples| - 1];
      AdmittedUnseen(samples[..|samples| - 1], seen, st);
      if s.id !in seen + ResultIds(before) && Attempt(s, st).Some? {
        assert Admitted(samples, seen, st) == before + [Attempt(s, st).value];
      }
    }
  }

  predicate DistinctIds(rs: seq<EvaluationResult>) {
    forall i, j :: 0 <= i < j < |rs| ==> rs[i].id != rs[j].id
  }

  /** No two new results share an id. */
  lemma {:induction false} AdmittedDistinct(samples: seq<Sample>, seen: set<string>, st: Setup)
    ensures DistinctIds(Admitted(samples, seen, st))
    decreases |samples|
  {
    if samples != [] {
      var before := Admitted(samples[..|samples| - 1], seen, st);
      var s := samples[|samples| - 1];
      AdmittedDistinct(samples[..|samples| - 1], seen, st);
      if s.id !in seen + ResultIds(before) && Attempt(s, st).Some? {
        var rs := before + [Attempt(s, st).value];
        assert Admitted(samples, seen, st) == rs;
        IdsListed(before);
        forall i, j | 0 <= i < j < |rs|
          ensures rs[i].id != rs[j].id
        {
          if j == |before| {
            assert rs[i] == before[i];
            assert rs[i].id in ResultIds(before);
            assert rs[j].id == s.id;
          } else {
            assert rs[i] == before[i] && rs[j] == before[j];
          }
        }
      } else {
        assert Admitted(samples, seen, st) == before;
      }
    }
  }

  /** Every new result is what the loop body makes of one of the samples. */
  lemma {:induction false} AdmittedSources(samples: seq<Sample>, seen: set<string>, st: Setup)
    ensures forall r <- Admitted(samples, seen, st) :: exists s <- samples :: Attempt(s, st) == Some(r)
    decreases |samples|
  {
    if samples != [] {
      var init := samples[..|samples| - 1];
      AdmittedSources(init, seen, st);
      forall r <- Admitted(samples, seen, st)
        ensures exists s <- samples :: Attempt(s, st) == Some(r)
      {
        if r in Admitted(init, seen, st) {
          var s :| s in init && Attempt(s, st) == Some(r);
          assert s in samples;
        } else {
          assert Attempt(samples[|samples| - 1], st) == Some(r);
        }
      }
    }
  }

  /** No sample is lost: every sample with a new id that the loop body accepts has its id among the new results. */
  lemma {:induction false} AdmittedComplete(samples: seq<Sample>, seen: set<string>, st: Setup)
    ensures forall s <- samples :: s.id !in seen && Attempt(s, st).Some? ==> s.id in ResultIds(Admitted(samples, seen, st))
    decreases |samples|
  {
    if samples != [] {
      var init := samples[..|samples| - 1];
      var before := Admitted(init, seen, st);
      AdmittedComplete(init, seen, st);
      var rs := Admitted(samples, seen, st);
      assert ResultIds(before) <= ResultIds(rs) by {
        if rs != before {
          assert rs[..|rs| - 1] == before;
        }
      }
      forall s <- samples | s.id !in seen && Attempt(s, st).Some?
        ensures s.id in ResultIds(rs)
      {
        if s !in init {
          assert s == samples[|samples| - 1];
          if s.id !in ResultIds(before) {
            assert rs == before + [Attempt(s, st).value];
            assert rs[..|rs| - 1] == before;
          }
        }
      }
    }
  }

  lemma {:induction false} FlattenConcat<T>(a: seq<seq<T>>, b: seq<seq<T>>)
    ensures Flatten(a + b) == Flatten(a) + Flatten(b)
    decreases |b|
  {
    if b == [] {
      assert a + b == a;
    } else {
      var init, last := b[..|b| - 1], b[|b| - 1];
      FlattenConcat(a, init);
      assert a + b == (a + init) + [last];
      FlattenSnoc(a + init, last);
      FlattenSnoc(init, last);
      assert init + [last] == b;
      calc {
        Flatten(a + b);
        Flatten(a + init) + last;
        (Flatten(a) + Flatten(init)) + last;
        { AppendAssoc(Flatten(a), Flatten(init), last); }
        Flatten(a) + (Flatten(init) + last);
        Flatten(a) + Flatten(b);
      }
    }
  }

  lemma FlattenSnoc<T>(bs: seq<seq<T>>, x: seq<T>)
    ensures Flatten(bs + [x]) == Flatten(bs) + x
  {
    assert (bs + [x])[..|bs|] == bs;
  }

  lemma {:induction false} BatchesConcat(a: seq<Write>, b: seq<Write>)
    ensures Batches(a + b) == Batches(a) + Batches(b)
    decreases |b|
  {
    if b == [] {
      assert a + b == a;
    } else {
      BatchesConcat(a, b[..|b| - 1]);
      assert (a + b)[..|a + b| - 1] == a + b[..|b| - 1];
    }
  }

  lemma {:induction false} AppendsConcat(a: seq<Write>, b: seq<Write>)
    ensures Appends(a + b) == Appends(a) + Appends(b)
    decreases |b|
  {
    if b == [] {
      assert a + b == a;
    } else {
      AppendsConcat(a, b[..|b| - 1]);
      assert (a + b)[..|a + b| - 1] == a + b[..|b| - 1];
    }
  }

  /** The loop's writes after k results depend on the first k results only. */
  lemma {:induction false} LoopWritesPrefix(rs: seq<EvaluationResult>, ts: seq<EvaluationResult>, k: nat, w: nat, header: bool)
    requires w >= 1 && k <= |rs| && k <= |ts| && rs[..k] == ts[..k]
    ensures LoopWrites(rs, k, w, header) == LoopWrites(ts, k, w, header)
  {
    if k > 0 {
      assert rs[..k - 1] == rs[..k][..k - 1] == ts[..k][..k - 1] == ts[..k - 1];
      LoopWritesPrefix(rs, ts, k - 1, w, header);
      assert rs[k - 1] == rs[..k][k - 1] == ts[..k][k - 1] == ts[k - 1];
      if Fill(k, w) == 0 {
        assert rs[k - w..k] == rs[..k][k - w..] == ts[..k][k - w..] == ts[k - w..k];
      }
    }
  }

  /** One more result adds its flush, if any, to the loop's batches. */
  lemma LoopBatchesStep(rs: seq<EvaluationResult>, k: nat, w: nat, header: bool)
    requires w >= 1 && 1 <= k <= |rs|
    ensures Batches(LoopWrites(rs, k, w, header))
            == Batches(LoopWrites(rs, k - 1, w, header)) + (if Fill(k, w) == 0 then [rs[k - w..k]] else [])
  {
    var appended := Appended(rs[k - 1], header && k == 1);
    var tail := if Fill(k, w) == 0 then [Scored(rs[k - w..k])] else [];
    var before := LoopWrites(rs, k - 1, w, header);
    BatchesConcat(before, [appended]);
    BatchesConcat(before + [appended], tail);
    assert [appended][..0] == [];
    if tail != [] {
      assert tail[..0] == [];
    }
  }

  /** The batches the sample loop scores, joined, are its results up to the last flush. */
  lemma {:induction false} LoopBatches(rs: seq<EvaluationResult>, k: nat, w: nat, header: bool)
    requires w >= 1 && k <= |rs|
    ensures Flatten(Batches(LoopWrites(rs, k, w, header))) == rs[..k - Fill(k, w)]
  {
    if k > 0 {
      var before := Batches(LoopWrites(rs, k - 1, w, header));
      LoopBatches(rs, k - 1, w, header);
      LoopBatchesStep(rs, k, w, header);
      if Fill(k, w) == 0 {
        var last := rs[k - w..k];
        assert Fill(k - 1, w) + 1 == w;
        assert (before + [last])[..|before|] == before;
        assert Flatten(before + [last]) == rs[..k - w] + last;
        assert rs[..k - w] + last == rs[..k];
      } else {
        assert before + [] == before;
      }
    }
  }

  /** Every batch the sample loop scores holds w results. */
  lemma {:induction false} LoopBatchSizes(rs: seq<EvaluationResult>, k: nat, w: nat, header: bool)
    requires w >= 1 && k <= |rs|
    ensures forall b <- Batches(LoopWrites(rs, k, w, header)) :: |b| == w
  {
    if k > 0 {
      LoopBatchSizes(rs, k - 1, w, header);
      LoopBatchesStep(rs, k, w, header);
    }
  }

  /** Every new result lands in exactly one BERTScore batch: the batches, joined in order, are the new results. */
  lemma NewBatches(rs: seq<EvaluationResult>, w: nat, header: bool)
    requires w >= 1
    ensures Flatten(Batches(NewWrites(rs, w, header))) == rs
  {
    var loop := LoopWrites(rs, |rs|, w, header);
    var n := |rs|;
    var p := Fill(n, w);
    LoopBatches(rs, n, w, header);
    if p != 0 {
      BatchesConcat(loop, [Scored(rs[n - p..])]);
      assert [Scored(rs[n - p..])][..0] == [];
      assert (Batches(loop) + [rs[n - p..]])[..|Batches(loop)|] == Batches(loop);
      assert rs[..n - p] + rs[n - p..] == rs;
    } else {
      assert NewWrites(rs, w, header) == loop by {
        assert loop + [] == loop;
      }
      assert rs[..n - p] == rs;
    }
  }

  /** Each batch holds between 1 and w results, and all but the last hold exactly w. */
  lemma NewBatchSizes(rs: seq<EvaluationResult>, w: nat, header: bool)
    requires w >= 1
    ensures var bs := Batches(NewWrites(rs, w, header));
            forall i :: 0 <= i < |bs| ==> 1 <= |bs[i]| <= w && (i < |bs| - 1 ==> |bs[i]| == w)
  {
    var loop := LoopWrites(rs, |rs|, w, header);
    var n := |rs|;
    var p := Fill(n, w);
    LoopBatchSizes(rs, n, w, header);
    var bs := Batches(loop);
    assert forall i :: 0 <= i < |bs| ==> |bs[i]| == w by {
      forall i | 0 <= i < |bs|
        ensures |bs[i]| == w
      {
        assert bs[i] in bs;
      }
    }
    if p != 0 {
      BatchesConcat(loop, [Scored(rs[n - p..])]);
      assert [Scored(rs[n - p..])][..0] == [];
    } else {
      assert NewWrites(rs, w, header) == loop by {
        assert loop + [] == loop;
      }
    }
  }

  lemma AppendsStep(rs: seq<EvaluationResult>, k: nat, w: nat, header: bool)
    requires w >= 1 && 1 <= k <= |rs|
    ensures Appends(LoopWrites(rs, k, w, header))
            == Appends(LoopWrites(rs, k - 1, w, header)) + [Appended(rs[k - 1], header && k == 1)]
  {
    var appended := Appended(rs[k - 1], header && k == 1);
    var tail := if Fill(k, w) == 0 then [Scored(rs[k - w..k])] else [];
    var before := LoopWrites(rs, k - 1, w, header);
    AppendsConcat(before, [appended]);
    AppendsConcat(before + [appended], tail);
    assert [appended][..0] == [];
    if tail != [] {
      assert tail[..0] == [];
    }
  }

  /** The sample loop appends the results in order, the header before the first only when the file was missing. */
  lemma {:induction false} LoopAppends(rs: seq<EvaluationResult>, k: nat, w: nat, header: bool)
    requires w >= 1 && k <= |rs|
    ensures Appends(LoopWrites(rs, k, w, header)) == AppendedRows(rs, header)[..k]
  {
    if k > 0 {
      LoopAppends(rs, k - 1, w, header);
      AppendsStep(rs, k, w, header);
      assert AppendedRows(rs, header)[..k] == AppendedRows(rs, header)[..k - 1] + [Appended(rs[k - 1], header && k == 1)];
    }
  }

  lemma NewAppends(rs: seq<EvaluationResult>, w: nat, header: bool)
    requires w >= 1
    ensures Appends(NewWrites(rs, w, header)) == AppendedRows(rs, header)
  {
    var tail := if Fill(|rs|, w) != 0 then [Scored(Pending(rs, w))] else [];
    LoopAppends(rs, |rs|, w, header);
    AppendsConcat(LoopWrites(rs, |rs|, w, header), tail);
    if tail != [] {
      assert tail[..0] == [];
    }
    assert AppendedRows(rs, header)[..|rs|] == AppendedRows(rs, header);
  }

  /** The slices of the old rows, joined in order, are those rows, and all but the last hold b. */
  lemma {:induction false} SlicesCover<T>(xs: seq<T>, b: nat, i: nat)
    requires b >= 1 && i <= |xs|
    ensures Flatten(SlicesFrom(xs, b, i)) == xs[i..]
    ensures var bs := SlicesFrom(xs, b, i);
            forall k :: 0 <= k < |bs| ==> 1 <= |bs[k]| <= b && (k < |bs| - 1 ==> |bs[k]| == b)
    decreases |xs| - i
  {
    if i < |xs| {
      var first := xs[i..if i + b <= |xs| then i + b else |xs|];
      FlattenConcat([first], SlicesFrom(xs, b, i + b));
      assert Flatten([first]) == first by {
        assert [first][..0] == [];
      }
      if i + b <= |xs| {
        SlicesCover(xs, b, i + b);
        assert first + xs[i + b..] == xs[i..];
      } else {
        assert SlicesFrom(xs, b, i + b) == [];
      }
    }
  }

  /** The number of slices is the total the progress message prints: (len - 1) // b + 1. */
  lemma {:induction false} SliceCount<T>(xs: seq<T>, b: nat, i: nat)
    requires b >= 1 && i < |xs|
    ensures |SlicesFrom(xs, b, i)| == (|xs| - i - 1) / b + 1
    decreases |xs| - i
  {
    if i + b < |xs| {
      SliceCount(xs, b, i + b);
      assert (|xs| - i - 1) / b == (|xs| - (i + b) - 1) / b + 1 by {
        DivShift(|xs| - (i + b) - 1, b);
      }
    } else {
      assert SlicesFrom(xs, b, i + b) == [];
      assert (|xs| - i - 1) / b == 0;
    }
  }

  lemma BackfillAllExists(f: File, fmt: FloatFormat, rs: seq<EvaluationResult>)
    ensures BackfillAll(f, fmt, rs).Some? <==> f.Some?
    decreases |rs|
  {
    if rs != [] {
      BackfillAllExists(f, fmt, rs[..|rs| - 1]);
    }
  }

  /** Scoring a batch never creates nor removes the file. */
  lemma ScoringExists(f: File, fmt: FloatFormat, scorer: BertScorer, code: string, batch: seq<EvaluationResult>)
    ensures Scoring(f, fmt, scorer, code, batch).Some? <==> f.Some?
  {
    if batch != [] {
      var s := BatchScores(scorer, batch, code);
      var n := if |batch| <= |s.precision| then |batch| else |s.precision|;
      BackfillAllExists(f, fmt, ScoredBatch(batch, s)[..n]);
    }
  }

  /** After the writes the file exists exactly when it existed before or a row was appended. */
  lemma {:induction false} ReplayExists(f: File, fmt: FloatFormat, scorer: BertScorer, code: string, ws: seq<Write>)
    ensures Replay(f, fmt, scorer, code, ws).Some? <==> f.Some? || Appends(ws) != []
    decreases |ws|
  {
    if ws != [] {
      var init := ws[..|ws| - 1];
      var w := ws[|ws| - 1];
      ReplayExists(f, fmt, scorer, code, init);
      if w.Scored? {
        ScoringExists(Replay(f, fmt, scorer, code, init), fmt, scorer, code, w.batch);
      }
    }
  }

  /**
   * A run returns its new results only when there is no results file at the end, and
   * then there are none: a run that admits a sample always leaves a file to read back.
   */
  lemma NoFileNoResults(f: File, fmt: FloatFormat, scorer: BertScorer, code: string,
                        rs: seq<EvaluationResult>, existing: seq<EvaluationResult>, batchSize: int)
    requires Replay(f, fmt, scorer, code, RunWrites(rs, existing, batchSize, f.None?)).None?
    ensures rs == [] && f.None?
  {
    var w := Width(batchSize);
    ReplayExists(f, fmt, scorer, code, RunWrites(rs, existing, batchSize, f.None?));
    AppendsConcat(NewWrites(rs, w, f.None?), SliceWrites(MissingBert(existing), batchSize));
    NewAppends(rs, w, f.None?);
    assert |AppendedRows(rs, f.None?)| == |rs|;
  }
}
