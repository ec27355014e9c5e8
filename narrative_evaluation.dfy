/**
 * The BERTScore backfill of the narrative task. A batch of results is scored in one call;
 * each scored result is then written into the results file: the first line starting with
 * its id and a tab is padded to eight columns and gets the three values in columns 5 to 7,
 * and the file is rewritten; when no line matches, a full row is appended instead. Also
 * the choice of median, maximum and minimum in the summary statistics.
 */
module NarrativeEvaluation {
  import opened Wrappers
  import opened PyStr
  import opened PyIO
  import opened RecordStore
  import opened NarrativeData

  // ----- scoring -----

  /**
   * bert_score.score on (candidates, references, lang): one (precision, recall, F1) triple
   * per pair, or None when it raises.
   */
  type BertScorer = (seq<string>, seq<string>, string) -> Option<seq<(real, real, real)>>

  /** The three score lists evaluate_with_bertscore returns. */
  datatype Scores = Scores(precision: seq<real>, recall: seq<real>, f1: seq<real>)

  /**
   * evaluate_with_bertscore: the scorer's three lists, or, when it raises, three lists of
   * zeros as long as the batch.
   */
  function EvaluateWithBertScore(scorer: BertScorer, candidates: seq<string>, references: seq<string>, language: string): (s: Scores)
    ensures |s.precision| == |s.recall| == |s.f1|
    ensures scorer(candidates, references, language).None? ==>
              s.precision == s.recall == s.f1 == seq(|candidates|, _ => 0.0)
    ensures var out := scorer(candidates, references, language);
            out.Some? ==> (|s.precision| == |out.value|
              && forall i :: 0 <= i < |out.value| ==>
                   s.precision[i] == out.value[i].0 && s.recall[i] == out.value[i].1 && s.f1[i] == out.value[i].2)
  {
    match scorer(candidates, references, language)
    case None =>
      var zeros := seq(|candidates|, _ => 0.0);
      Scores(zeros, zeros, zeros)
    case Some(ts) =>
      Scores(seq(|ts|, i requires 0 <= i < |ts| => ts[i].0),
             seq(|ts|, i requires 0 <= i < |ts| => ts[i].1),
             seq(|ts|, i requires 0 <= i < |ts| => ts[i].2))
  }

  /** The language BERTScore is asked for: English for every code starting with "en", Chinese otherwise. */
  function BertLang(languageCode: string): (lang: string)
    ensures lang == "en" || lang == "zh"
    ensures lang == "en" <==> StartsWith(languageCode, "en")
  {
    if StartsWith(languageCode, "en") then "en" else "zh"
  }

  function Candidates(results: seq<EvaluationResult>): (cs: seq<string>)
    ensures |cs| == |results| && forall i :: 0 <= i < |results| ==> cs[i] == results[i].candidate
  {
    seq(|results|, i requires 0 <= i < |results| => results[i].candidate)
  }

  function References(results: seq<EvaluationResult>): (rs: seq<string>)
    ensures |rs| == |results| && forall i :: 0 <= i < |results| ==> rs[i] == results[i].reference
  {
    seq(|results|, i requires 0 <= i < |results| => results[i].reference)
  }

  /** The scores of one batch, computed in the language the code selects. */
  function BatchScores(scorer: BertScorer, results: seq<EvaluationResult>, languageCode: string): Scores {
    EvaluateWithBertScore(scorer, Candidates(results), References(results), BertLang(languageCode))
  }

  /** A result with its three BERTScore values set. */
  function WithBert(r: EvaluationResult, p: real, rc: real, f: real): EvaluationResult {
    r.(bertPrecision := Some(p), bertRecall := Some(rc), bertF1 := Some(f))
  }

  /** The batch once the scores are set: results past the end of the score lists keep their values. */
  function ScoredBatch(results: seq<EvaluationResult>, s: Scores): (rs: seq<EvaluationResult>)
    requires |s.precision| == |s.recall| == |s.f1|
    ensures |rs| == |results|
    ensures forall i :: 0 <= i < |results| ==>
              rs[i] == if i < |s.precision| then WithBert(results[i], s.precision[i], s.recall[i], s.f1[i]) else results[i]
  {
    seq(|results|, i requires 0 <= i < |results| =>
      if i < |s.precision| then WithBert(results[i], s.precision[i], s.recall[i], s.f1[i]) else results[i])
  }

  /** When the scorer raises, every result of the batch gets zero for all three values. */
  lemma FailedScoringGivesZeros(scorer: BertScorer, results: seq<EvaluationResult>, languageCode: string)
    requires scorer(Candidates(results), References(results), BertLang(languageCode)).None?
    ensures var s := BatchScores(scorer, results, languageCode);
            ScoredBatch(results, s) == seq(|results|, i requires 0 <= i < |results| => WithBert(results[i], 0.0, 0.0, 0.0))
  {
    var s := BatchScores(scorer, results, languageCode);
    assert |s.precision| == |results|;
  }

  // ----- patching one row -----

  /** The fields of a row, padded with '' to eight when shorter. */
  function Padded(parts: seq<string>): (p: seq<string>)
    ensures |p| == if |parts| >= 8 then |parts| else 8
    ensures forall i :: 0 <= i < |p| ==> p[i] == if i < |parts| then parts[i] else ""
  {
    if |parts| >= 8 then parts else parts + seq(8 - |parts|, _ => "")
  }

  /**
   * The fields of a patched row: at least eight; the first five as they were (or '' where
   * the row was shorter), then the three new values, then any further columns as they were.
   */
  function WithScores(parts: seq<string>, cols: seq<string>): (w: seq<string>)
    requires |cols| == 3
    ensures |w| >= 8 && |w| == if |parts| >= 8 then |parts| else 8
    ensures forall i :: 0 <= i < 5 ==> w[i] == if i < |parts| then parts[i] else ""
    ensures w[5..8] == cols
    ensures forall i :: 8 <= i < |w| ==> w[i] == parts[i]
  {
    Padded(parts)[5 := cols[0]][6 := cols[1]][7 := cols[2]]
  }

  /** The line that replaces a matching line: its fields with the new values, joined, then "\n". */
  function PatchLine(line: string, cols: seq<string>): string
    requires |cols| == 3
  {
    Row(WithScores(Fields(line), cols))
  }

  /** The three columns written for a result's BERTScore values, as append_result writes them. */
  function ScoreColumns(fmt: FloatFormat, r: EvaluationResult): (cols: seq<string>)
    ensures |cols| == 3 && cols == ResultFields(fmt, r)[5..8]
  {
    [ShowReal(fmt, r.bertPrecision), ShowReal(fmt, r.bertRecall), ShowReal(fmt, r.bertF1)]
  }

  /**
   * The patch of one line: the parts of the stripped line are padded one '' at a time to
   * eight, columns 5 to 7 are set, and the parts are joined again with a final "\n".
   */
  method PatchRow(line: string, cols: seq<string>) returns (patched: string)
    requires |cols| == 3
    ensures patched == PatchLine(line, cols)
  {
    var parts := Fields(line);
    patched := PatchParts(parts, cols);
  }

  /** The parts padded to eight, columns 5 to 7 set, joined with tabs and ended with "\n". */
  method PatchParts(fields: seq<string>, cols: seq<string>) returns (patched: string)
    requires |cols| == 3
    ensures patched == Row(WithScores(fields, cols))
  {
    var parts := PadParts(fields, 8, "");
    PaddedByRepeat(fields);
    parts := parts[5 := cols[0]];
    parts := parts[6 := cols[1]];
    parts := parts[7 := cols[2]];
    patched := Row(parts);
  }

  lemma PaddedByRepeat(parts: seq<string>)
    ensures Padded(parts) == if |parts| >= 8 then parts else parts + Repeat("", 8 - |parts|)
  {
  }

  /** `while len(parts) < n: parts.append(fill)` */
  method PadParts<T>(xs: seq<T>, n: nat, fill: T) returns (ys: seq<T>)
    ensures ys == if |xs| >= n then xs else xs + Repeat(fill, n - |xs|)
  {
    ys := xs;
    while |ys| < n
      invariant |xs| <= |ys| <= if |xs| >= n then |xs| else n
      invariant ys == xs + Repeat(fill, |ys| - |xs|)
      decreases n - |ys|
    {
      assert ys + [fill] == xs + Repeat(fill, |ys| + 1 - |xs|);
      ys := ys + [fill];
    }
    if |xs| >= n {
      assert ys == xs + [];
    }
  }

  /** The first line at or after k that starts with the prefix. */
  function FindFrom(lines: seq<string>, prefix: string, k: nat): (j: Option<nat>)
    requires k <= |lines|
    ensures j.Some? ==> k <= j.value < |lines| && StartsWith(lines[j.value], prefix)
    decreases |lines| - k
  {
    if k == |lines| then None
    else if StartsWith(lines[k], prefix) then Some(k)
    else FindFrom(lines, prefix, k + 1)
  }

  /** The line of a result: the first one starting with its id and a tab. */
  function FindRow(lines: seq<string>, id: string): Option<nat> {
    FindFrom(lines, id + "\t", 0)
  }

  /** The search finds the first matching line at or after k, and finds none only when no line there matches. */
  lemma {:induction false} FindFromFirst(lines: seq<string>, prefix: string, k: nat)
    requires k <= |lines|
    ensures var j := FindFrom(lines, prefix, k);
            j.Some? ==> forall m :: k <= m < j.value ==> !StartsWith(lines[m], prefix)
    ensures FindFrom(lines, prefix, k).None? <==> forall m :: k <= m < |lines| ==> !StartsWith(lines[m], prefix)
    decreases |lines| - k
  {
    if k < |lines| && !StartsWith(lines[k], prefix) {
      FindFromFirst(lines, prefix, k + 1);
    }
  }

  /** FindRow gives the first line that starts with the id and a tab, and none exactly when no line does. */
  lemma FindRowFirst(lines: seq<string>, id: string)
    ensures var j := FindRow(lines, id);
            && (j.Some? ==> j.value < |lines| && StartsWith(lines[j.value], id + "\t")
                            && forall m :: 0 <= m < j.value ==> !StartsWith(lines[m], id + "\t"))
            && (j.None? <==> forall m :: 0 <= m < |lines| ==> !StartsWith(lines[m], id + "\t"))
  {
    FindFromFirst(lines, id + "\t", 0);
  }

  /**
   * What writing one scored result does to the results file: a missing file stays missing
   * (opening it for reading raises, and the error is only logged); otherwise the first
   * matching line is patched and the lines are written back, or, with no matching line,
   * the full row is appended.
   */
  function Backfilled(f: File, fmt: FloatFormat, r: EvaluationResult): File {
    if f.None? then None
    else
      var lines := ReadLines(f.value);
      match FindRow(lines, r.id)
      case Some(j) => Some(Concat(lines[j := PatchLine(lines[j], ScoreColumns(fmt, r))]))
      case None => Some(f.value + ResultRow(fmt, r))
  }

  /** The file after writing several scored results, one after the other. */
  function BackfillAll(f: File, fmt: FloatFormat, rs: seq<EvaluationResult>): File
    decreases |rs|
  {
    if rs == [] then f else Backfilled(BackfillAll(f, fmt, rs[..|rs| - 1]), fmt, rs[|rs| - 1])
  }

  /**
   * The file after update_results_with_bertscore on a batch: unchanged for an empty batch;
   * otherwise the results with an index below the number of scores are written in order.
   */
  function Scoring(f: File, fmt: FloatFormat, scorer: BertScorer, languageCode: string, batch: seq<EvaluationResult>): File {
    if batch == [] then f
    else
      var s := BatchScores(scorer, batch, languageCode);
      var n := if |batch| <= |s.precision| then |batch| else |s.precision|;
      BackfillAll(f, fmt, ScoredBatch(batch, s)[..n])
  }

  /** The body of the try block for one scored result. */
  method UpdateRow(file: TextFile, fmt: FloatFormat, r: EvaluationResult)
    modifies file
    ensures file.content == Backfilled(old(file.content), fmt, r)
  {
    if file.content.None? {
      return;
    }
    var lines := ReadLines(file.content.value);
    ghost var read := lines;
    var cols := ScoreColumns(fmt, r);
    var prefix := r.id + "\t";
    var updated := false;
    var j := 0;
    while j < |lines|
      invariant j <= |lines| && lines == read
      invariant FindRow(read, r.id) == FindFrom(read, prefix, j)
    {
      if StartsWith(lines[j], prefix) {
        var patched := PatchRow(lines[j], cols);
        lines := lines[j := patched];
        updated := true;
        break;
      }
      j := j + 1;
    }
    if !updated {
      AppendResult(file, fmt, r, false);
    } else {
      file.Overwrite(Concat(lines));
    }
  }

  /**
   * update_results_with_bertscore: an empty batch changes nothing. Otherwise the batch is
   * scored once; every result whose index is below the number of scores gets its three
   * values, and is written into the file, in batch order; the others are left as they are.
   * The results are returned rather than updated in place.
   */
  method UpdateResultsWithBertScore(results: seq<EvaluationResult>, languageCode: string,
                                    file: TextFile, fmt: FloatFormat, scorer: BertScorer)
    returns (scored: seq<EvaluationResult>)
    modifies file
    ensures results == [] ==> scored == [] && file.content == old(file.content)
    ensures results != [] ==> scored == ScoredBatch(results, BatchScores(scorer, results, languageCode))
    ensures file.content == Scoring(old(file.content), fmt, scorer, languageCode, results)
  {
    if results == [] {
      return [];
    }
    var candidates := Candidates(results);
    var references := References(results);
    var s := EvaluateWithBertScore(scorer, candidates, references, BertLang(languageCode));
    ghost var target := ScoredBatch(results, s);
    ghost var start := file.content;
    scored := results;
    for i := 0 to |results|
      invariant |scored| == |results|
      invariant forall k :: 0 <= k < i ==> scored[k] == target[k]
      invariant forall k :: i <= k < |results| ==> scored[k] == results[k]
      invariant file.content == BackfillAll(start, fmt, target[..if i <= |s.precision| then i else |s.precision|])
    {
      if i < |s.precision| {
        var r := WithBert(results[i], s.precision[i], s.recall[i], s.f1[i]);
        scored := scored[i := r];
        assert target[..i + 1][..i] == target[..i];
        UpdateRow(file, fmt, r);
      }
    }
    assert scored == target;
  }

  // ----- what a patch leaves in the file -----

  /** A value written as one clean field that strip() leaves alone. */
  predicate Writable(s: string) {
    IsClean(s) && NoSpaceEnds(s)
  }

  /** A result holding all three values, each written as one clean, unpadded field. */
  predicate ScoredCleanly(fmt: FloatFormat, r: EvaluationResult) {
    && r.bertPrecision.Some? && r.bertRecall.Some? && r.bertF1.Some?
    && Writable(fmt.show(r.bertPrecision.value))
    && Writable(fmt.show(r.bertRecall.value))
    && Writable(fmt.show(r.bertF1.value))
  }

  /**
   * A line of the file that starts with a key and a tab is patched into one complete line
   * whose columns read back as the padded columns with the three new values: at least
   * eight, the first five kept, '' where the line was short, then the new values.
   */
  lemma PatchedFields(line: string, key: string, cols: seq<string>)
    requires IsKey(key) && StartsWith(line, key + "\t") && IsLastLine(line)
    requires |cols| == 3 && Writable(cols[0]) && Writable(cols[1]) && Writable(cols[2])
    ensures IsLine(PatchLine(line, cols))
    ensures !IsBlank(PatchLine(line, cols)) && Fields(PatchLine(line, cols)) == WithScores(Fields(line), cols)
  {
    var parts := Fields(line);
    LineFieldsClean(line);
    KeyFirstField(line, key);
    assert LastKept(parts) by {
      var t := Strip(line);
      assert NoSpaceEnds(t);
      LastPieceKept(t);
    }
    PatchedParts(parts, key, cols);
  }

  /** The last field is non-empty and does not end with whitespace. */
  predicate LastKept(parts: seq<string>) {
    |parts| >= 1 && var l := parts[|parts| - 1]; l != [] && !IsSpace(l[|l| - 1])
  }

  /** The fields of a line whose first column is a key, patched, form one complete line that reads back as them. */
  lemma PatchedParts(parts: seq<string>, key: string, cols: seq<string>)
    requires forall i :: 0 <= i < |parts| ==> IsClean(parts[i])
    requires LastKept(parts) && IsKey(key) && parts[0] == key
    requires |cols| == 3 && Writable(cols[0]) && Writable(cols[1]) && Writable(cols[2])
    ensures var w := WithScores(parts, cols); IsLine(Row(w)) && !IsBlank(Row(w)) && Fields(Row(w)) == w
  {
    var w := WithScores(parts, cols);
    forall i | 0 <= i < |w|
      ensures IsClean(w[i])
    {
      if 5 <= i < 8 {
        assert w[i] == w[5..8][i - 5];
      }
    }
    assert w[0] == key;
    if |parts| <= 8 {
      assert w[|w| - 1] == w[5..8][2];
    }
    CleanRowIsLine(w);
  }

  /** A row of clean fields whose outer ends survive strip() is one complete line that reads back as those fields. */
  lemma CleanRowIsLine(w: seq<string>)
    requires forall i :: 0 <= i < |w| ==> IsClean(w[i])
    requires |w| >= 1 && w[0] != [] && !IsSpace(w[0][0]) && LastKept(w)
    ensures IsLine(Row(w)) && !IsBlank(Row(w)) && Fields(Row(w)) == w
  {
    RowRoundTrip(w);
    var row := Row(w);
    JoinAvoids(w, '\t', '\n');
    JoinAvoids(w, '\t', '\r');
    assert row[..|row| - 1] == Join(w, '\t');
  }

  /** The last tab-separated piece of a text with no whitespace at its end ends as the text does. */
  lemma LastPieceKept(t: string)
    requires NoSpaceEnds(t)
    ensures LastKept(Split(t, '\t'))
  {
    SplitLast(t, '\t');
    var l := LastSegment(t, '\t');
    assert l[|l| - 1] == t[|t| - 1];
  }

  /**
   * The patched line reads back as the record of the padded columns with the three new
   * values; a line that already read as a record reads as that record with the values set.
   */
  lemma PatchedRecord(fmt: FloatFormat, line: string, key: string, p: real, rc: real, f: real)
    requires IsKey(key) && StartsWith(line, key + "\t") && IsLastLine(line)
    requires Faithful(fmt, p) && Faithful(fmt, rc) && Faithful(fmt, f)
    ensures var cols := [fmt.show(p), fmt.show(rc), fmt.show(f)];
            var parts := Padded(Fields(line));
            RecordOf(fmt, PatchLine(line, cols))
              == Some(EvaluationResult(parts[0], parts[1], parts[2], parts[3], ParseGeval(Fields(line)), Some(p), Some(rc), Some(f)))
    ensures var cols := [fmt.show(p), fmt.show(rc), fmt.show(f)];
            RecordOf(fmt, line).Some? ==> RecordOf(fmt, PatchLine(line, cols)) == Some(WithBert(RecordOf(fmt, line).value, p, rc, f))
  {
    var cols := [fmt.show(p), fmt.show(rc), fmt.show(f)];
    PatchedFields(line, key, cols);
    RecordWithScores(fmt, PatchLine(line, cols), Fields(line), p, rc, f);
  }

  /** A row whose columns are some fields patched with three faithful values reads back as those columns and values. */
  lemma RecordWithScores(fmt: FloatFormat, row: string, fs: seq<string>, p: real, rc: real, f: real)
    requires Faithful(fmt, p) && Faithful(fmt, rc) && Faithful(fmt, f)
    requires !IsBlank(row) && Fields(row) == WithScores(fs, [fmt.show(p), fmt.show(rc), fmt.show(f)])
    ensures var parts := Padded(fs);
            RecordOf(fmt, row) == Some(EvaluationResult(parts[0], parts[1], parts[2], parts[3], ParseGeval(fs), Some(p), Some(rc), Some(f)))
  {
    WithScoresRead(fmt, fs, p, rc, f);
    RecordOfFullLine(fmt, row, Some(p), Some(rc), Some(f));
  }

  /** The fields of a row patched with three faithful values: those values, the old G-Eval column, the old first four. */
  lemma WithScoresRead(fmt: FloatFormat, fs: seq<string>, p: real, rc: real, f: real)
    requires Faithful(fmt, p) && Faithful(fmt, rc) && Faithful(fmt, f)
    ensures ParseScores(fmt, WithScores(fs, [fmt.show(p), fmt.show(rc), fmt.show(f)])[5..8]) == [Some(p), Some(rc), Some(f)]
    ensures ParseGeval(WithScores(fs, [fmt.show(p), fmt.show(rc), fmt.show(f)])) == ParseGeval(fs)
    ensures forall i :: 0 <= i < 4 ==> WithScores(fs, [fmt.show(p), fmt.show(rc), fmt.show(f)])[i] == Padded(fs)[i]
  {
    FaithfulScores(fmt, p, rc, f);
    WithScoresGeval(fs, [fmt.show(p), fmt.show(rc), fmt.show(f)]);
    WithScoresKeeps(fs, [fmt.show(p), fmt.show(rc), fmt.show(f)]);
  }

  lemma WithScoresGeval(fs: seq<string>, cols: seq<string>)
    requires |cols| == 3
    ensures ParseGeval(WithScores(fs, cols)) == ParseGeval(fs)
  {
    if |fs| < 5 {
      assert WithScores(fs, cols)[4] == "";
    }
  }

  lemma WithScoresKeeps(fs: seq<string>, cols: seq<string>)
    requires |cols| == 3
    ensures forall i :: 0 <= i < 4 ==> WithScores(fs, cols)[i] == Padded(fs)[i]
  {
  }

  /** A complete or last line starting with a key and a tab, patched, keeps its key and the shape of the lines. */
  lemma PatchFacts(lines: seq<string>, j: nat, key: string, cols: seq<string>)
    requires LinesShape(lines) && j < |lines| && IsKey(key) && StartsWith(lines[j], key + "\t")
    requires |cols| == 3 && Writable(cols[0]) && Writable(cols[1]) && Writable(cols[2])
    ensures var patched := PatchLine(lines[j], cols);
            && IsLine(patched)
            && !IsBlank(lines[j]) && Fields(lines[j])[0] == key
            && !IsBlank(patched) && Fields(patched)[0] == key
            && ReadLines(Concat(lines[j := patched])) == lines[j := patched]
  {
    var patched := PatchLine(lines[j], cols);
    assert IsLastLine(lines[j]);
    KeyFirstField(lines[j], key);
    PatchedFields(lines[j], key, cols);
    ShapeReplace(lines, j, patched);
    ReadLinesConcat(lines[j := patched]);
  }

  /** Replacing one of the lines of a file by a complete line keeps the shape of what a file yields. */
  lemma ShapeReplace(lines: seq<string>, j: nat, line: string)
    requires LinesShape(lines) && j < |lines| && IsLine(line)
    ensures LinesShape(lines[j := line])
  {
    var after := lines[j := line];
    forall i | 0 <= i < |after| - 1
      ensures IsLine(after[i])
    {
      if i != j {
        assert after[i] == lines[i];
      }
    }
  }

  /**
   * Patching the line of a result keeps the number of lines and every other line; the
   * patched line is the one computed by PatchLine.
   */
  lemma BackfilledLines(content: string, fmt: FloatFormat, r: EvaluationResult)
    requires IsKey(r.id) && ScoredCleanly(fmt, r)
    requires FindRow(ReadLines(content), r.id).Some?
    ensures var before := ReadLines(content);
            var j := FindRow(before, r.id).value;
            var after := ReadLines(Backfilled(Some(content), fmt, r).value);
            && |after| == |before|
            && after[j] == PatchLine(before[j], ScoreColumns(fmt, r))
            && forall k :: 0 <= k < |before| && k != j ==> after[k] == before[k]
  {
    var before := ReadLines(content);
    var j := FindRow(before, r.id).value;
    var patched := PatchLine(before[j], ScoreColumns(fmt, r));
    var a := Backfilled(Some(content), fmt, r).value;
    assert a == Concat(before[j := patched]) by { BackfilledFound(content, fmt, r, j); }
    assert ReadLines(a) == before[j := patched] by { PatchedReadsBack(content, fmt, r, j); }
    ReplacedLines(before, j, patched, ReadLines(a));
  }

  /** Lines with one of them replaced: the same number of lines, the new one in place, the others kept. */
  lemma ReplacedLines(before: seq<string>, j: nat, line: string, after: seq<string>)
    requires j < |before| && after == before[j := line]
    ensures |after| == |before| && after[j] == line
    ensures forall k :: 0 <= k < |before| && k != j ==> after[k] == before[k]
  {
  }

  /** The file after patching the line found for a result. */
  lemma BackfilledFound(content: string, fmt: FloatFormat, r: EvaluationResult, j: nat)
    requires FindRow(ReadLines(content), r.id) == Some(j)
    ensures j < |ReadLines(content)|
    ensures var before := ReadLines(content);
            Backfilled(Some(content), fmt, r) == Some(Concat(before[j := PatchLine(before[j], ScoreColumns(fmt, r))]))
  {
  }

  /** The lines of a file with the line of a result patched read back as they were written. */
  lemma PatchedReadsBack(content: string, fmt: FloatFormat, r: EvaluationResult, j: nat)
    requires IsKey(r.id) && ScoredCleanly(fmt, r)
    requires FindRow(ReadLines(content), r.id) == Some(j)
    ensures j < |ReadLines(content)|
    ensures var before := ReadLines(content);
            var patched := PatchLine(before[j], ScoreColumns(fmt, r));
            IsLine(patched) && ReadLines(Concat(before[j := patched])) == before[j := patched]
  {
    ScoreColumnsWritable(fmt, r);
    ReadLinesShape(content);
    PatchFacts(ReadLines(content), j, r.id, ScoreColumns(fmt, r));
  }

  /** Writing a result into a file that ends a line leaves it ending a line. */
  lemma BackfilledEndsLine(content: string, fmt: FloatFormat, r: EvaluationResult)
    requires content != [] && content[|content| - 1] == '\n'
    requires IsKey(r.id) && ScoredCleanly(fmt, r)
    ensures var after := Backfilled(Some(content), fmt, r).value; after != [] && after[|after| - 1] == '\n'
  {
    if FindRow(ReadLines(content), r.id).Some? {
      PatchedEndsLine(content, fmt, r, FindRow(ReadLines(content), r.id).value);
    } else {
      AppendedEndsLine(content, fmt, r);
    }
  }

  lemma PatchedEndsLine(content: string, fmt: FloatFormat, r: EvaluationResult, j: nat)
    requires content != [] && content[|content| - 1] == '\n'
    requires IsKey(r.id) && ScoredCleanly(fmt, r)
    requires FindRow(ReadLines(content), r.id) == Some(j)
    ensures var after := Backfilled(Some(content), fmt, r).value; after != [] && after[|after| - 1] == '\n'
  {
    var before := ReadLines(content);
    var patched := PatchLine(before[j], ScoreColumns(fmt, r));
    PatchedIsLine(content, fmt, r, j);
    ContentReplacedEndsLine(content, j, patched);
    BackfilledFound(content, fmt, r, j);
  }

  /** The patched line of a result is one complete line. */
  lemma PatchedIsLine(content: string, fmt: FloatFormat, r: EvaluationResult, j: nat)
    requires IsKey(r.id) && ScoredCleanly(fmt, r)
    requires FindRow(ReadLines(content), r.id) == Some(j)
    ensures j < |ReadLines(content)| && IsLine(PatchLine(ReadLines(content)[j], ScoreColumns(fmt, r)))
  {
    PatchedReadsBack(content, fmt, r, j);
  }

  /** A file that ends a line, read, one line replaced by a complete line, and joined, still ends a line. */
  lemma ContentReplacedEndsLine(content: string, j: nat, line: string)
    requires content != [] && content[|content| - 1] == '\n'
    requires j < |ReadLines(content)| && IsLine(line)
    ensures var c := Concat(ReadLines(content)[j := line]); c != [] && c[|c| - 1] == '\n'
  {
    ReadLinesLastLine(content);
    ReplacedEndsLine(ReadLines(content), j, line);
  }

  lemma AppendedEndsLine(content: string, fmt: FloatFormat, r: EvaluationResult)
    requires FindRow(ReadLines(content), r.id).None?
    ensures var after := Backfilled(Some(content), fmt, r).value; after != [] && after[|after| - 1] == '\n'
  {
    assert Backfilled(Some(content), fmt, r).value == content + ResultRow(fmt, r);
    RowEndsWithNewline(ResultFields(fmt, r));
  }

  lemma ScoreColumnsWritable(fmt: FloatFormat, r: EvaluationResult)
    requires ScoredCleanly(fmt, r)
    ensures var cols := ScoreColumns(fmt, r); Writable(cols[0]) && Writable(cols[1]) && Writable(cols[2])
  {
  }

  /** Complete lines, one of them replaced by another complete line, still end with "\n" when joined. */
  lemma ReplacedEndsLine(lines: seq<string>, j: nat, line: string)
    requires j < |lines| && IsLine(lines[|lines| - 1]) && IsLine(line)
    ensures var c := Concat(lines[j := line]); c != [] && c[|c| - 1] == '\n'
  {
    var after := lines[j := line];
    assert IsLine(after[|after| - 1]);
    ConcatEndsAsLast(after);
  }

  /**
   * Writing one result into a file that already holds its header never drops a processed
   * id: a patched line keeps its first column, and an appended row adds the result's id.
   */
  lemma BackfilledIds(content: string, fmt: FloatFormat, r: EvaluationResult)
    requires content != [] && content[|content| - 1] == '\n'
    requires IsKey(r.id) && ScoredCleanly(fmt, r)
    ensures var after := Backfilled(Some(content), fmt, r);
            FindRow(ReadLines(content), r.id).Some? ==> ProcessedIds(after) == ProcessedIds(Some(content))
    ensures var after := Backfilled(Some(content), fmt, r);
            FindRow(ReadLines(content), r.id).None? ==> ProcessedIds(after) == ProcessedIds(Some(content)) + {r.id}
  {
    var before := ReadLines(content);
    if FindRow(before, r.id).Some? {
      PatchedIds(content, fmt, r);
    } else {
      assert Backfilled(Some(content), fmt, r) == Some(content + ResultRow(fmt, r));
      AppendedResultProcessed(fmt, content, r);
    }
  }

  /** A patched line keeps its first column, so the processed ids stay as they were. */
  lemma PatchedIds(content: string, fmt: FloatFormat, r: EvaluationResult)
    requires IsKey(r.id) && ScoredCleanly(fmt, r)
    requires FindRow(ReadLines(content), r.id).Some?
    ensures ProcessedIds(Backfilled(Some(content), fmt, r)) == ProcessedIds(Some(content))
  {
    var j := FindRow(ReadLines(content), r.id).value;
    BackfilledFound(content, fmt, r, j);
    PatchedIdsAt(content, fmt, r, j);
  }

  lemma PatchedIdsAt(content: string, fmt: FloatFormat, r: EvaluationResult, j: nat)
    requires IsKey(r.id) && ScoredCleanly(fmt, r)
    requires FindRow(ReadLines(content), r.id) == Some(j)
    ensures j < |ReadLines(content)|
    ensures var before := ReadLines(content);
            ProcessedIds(Some(Concat(before[j := PatchLine(before[j], ScoreColumns(fmt, r))]))) == ProcessedIds(Some(content))
  {
    PatchedReadsBack(content, fmt, r, j);
    PatchedKeepsKey(content, fmt, r, j);
    ReplacedProcessedIds(Concat(ReadLines(content)[j := PatchLine(ReadLines(content)[j], ScoreColumns(fmt, r))]),
                         content, j, PatchLine(ReadLines(content)[j], ScoreColumns(fmt, r)));
  }

  /** The line found for a result and its patch both have the result's id as first column. */
  lemma PatchedKeepsKey(content: string, fmt: FloatFormat, r: EvaluationResult, j: nat)
    requires IsKey(r.id) && ScoredCleanly(fmt, r)
    requires FindRow(ReadLines(content), r.id) == Some(j)
    ensures j < |ReadLines(content)|
    ensures var line := ReadLines(content)[j];
            var patched := PatchLine(line, ScoreColumns(fmt, r));
            && !IsBlank(line) && Fields(line)[0] == r.id
            && !IsBlank(patched) && Fields(patched)[0] == r.id
  {
    ScoreColumnsWritable(fmt, r);
    ReadLinesShape(content);
    PatchFacts(ReadLines(content), j, r.id, ScoreColumns(fmt, r));
  }

  /** A file that reads back as the lines of another with one line replaced by one with the same first column has the same processed ids. */
  lemma ReplacedProcessedIds(a: string, content: string, j: nat, line: string)
    requires j < |ReadLines(content)| && ReadLines(a) == ReadLines(content)[j := line]
    requires !IsBlank(ReadLines(content)[j]) && !IsBlank(line) && Fields(line)[0] == Fields(ReadLines(content)[j])[0]
    ensures ProcessedIds(Some(a)) == ProcessedIds(Some(content))
  {
    HeadlessReplace(ReadLines(content), j, line);
  }

  // ----- summary statistics -----

  /** The values that are present, in order: [x for x in xs if x is not None]. */
  function Present(xs: seq<Option<real>>): (vs: seq<real>)
    ensures |vs| <= |xs|
    ensures forall v :: v in vs <==> Some(v) in xs
    ensures vs == [] <==> forall i :: 0 <= i < |xs| ==> xs[i].None?
  {
    if xs == [] then []
    else
      var rest := Present(xs[1..]);
      assert forall v :: Some(v) in xs <==> xs[0] == Some(v) || Some(v) in xs[1..];
      if xs[0].Some? then [xs[0].value] + rest else rest
  }

  /**
   * The filter is determined by its action on single entries: a present value is kept, a
   * missing one dropped, and a concatenation is filtered part by part, in order.
   */
  lemma {:induction false} PresentAppend(a: seq<Option<real>>, b: seq<Option<real>>)
    ensures Present(a + b) == Present(a) + Present(b)
    ensures forall v :: Present([Some(v)]) == [v]
    ensures Present([None]) == []
  {
    if a == [] {
      assert a + b == b;
    } else {
      assert (a + b)[1..] == a[1..] + b;
      PresentAppend(a[1..], b);
    }
  }

  function GevalColumn(results: seq<EvaluationResult>): (xs: seq<Option<real>>)
    ensures |xs| == |results|
    ensures forall i :: 0 <= i < |results| ==>
              xs[i] == if results[i].gevalScore.Some? then Some(results[i].gevalScore.value as real) else None
  {
    seq(|results|, i requires 0 <= i < |results| =>
      if results[i].gevalScore.Some? then Some(results[i].gevalScore.value as real) else None)
  }

  function F1Column(results: seq<EvaluationResult>): (xs: seq<Option<real>>)
    ensures |xs| == |results| && forall i :: 0 <= i < |results| ==> xs[i] == results[i].bertF1
  {
    seq(|results|, i requires 0 <= i < |results| => results[i].bertF1)
  }

  function RecallColumn(results: seq<EvaluationResult>): (xs: seq<Option<real>>)
    ensures |xs| == |results| && forall i :: 0 <= i < |results| ==> xs[i] == results[i].bertRecall
  {
    seq(|results|, i requires 0 <= i < |results| => results[i].bertRecall)
  }

  /** sum(xs), added from the left. */
  function Sum(xs: seq<real>): real {
    if xs == [] then 0.0 else xs[0] + Sum(xs[1..])
  }

  /** max(xs): an element no smaller than any other. */
  function MaxOf(xs: seq<real>): (m: real)
    requires xs != []
    ensures m in xs && forall i :: 0 <= i < |xs| ==> xs[i] <= m
  {
    if |xs| == 1 then xs[0]
    else
      var rest := MaxOf(xs[1..]);
      assert forall i :: 1 <= i < |xs| ==> xs[i] == xs[1..][i - 1];
      if xs[0] >= rest then xs[0] else rest
  }

  /** min(xs): an element no larger than any other. */
  function MinOf(xs: seq<real>): (m: real)
    requires xs != []
    ensures m in xs && forall i :: 0 <= i < |xs| ==> m <= xs[i]
  {
    if |xs| == 1 then xs[0]
    else
      var rest := MinOf(xs[1..]);
      assert forall i :: 1 <= i < |xs| ==> xs[i] == xs[1..][i - 1];
      if xs[0] <= rest then xs[0] else rest
  }

  predicate Sorted(xs: seq<real>) {
    forall i, j :: 0 <= i < j < |xs| ==> xs[i] <= xs[j]
  }

  /** x inserted into a sorted sequence before the first larger element. */
  function Insert(x: real, s: seq<real>): (r: seq<real>)
    requires Sorted(s)
    ensures |r| == |s| + 1 && r[0] == if s != [] && s[0] < x then s[0] else x
    ensures Sorted(r) && multiset(r) == multiset(s) + multiset{x}
  {
    if s == [] then [x]
    else if x <= s[0] then [x] + s
    else
      SortedTail(s);
      var rest := Insert(x, s[1..]);
      ConsSorted(s[0], rest);
      assert s == [s[0]] + s[1..];
      [s[0]] + rest
  }

  lemma SortedTail(s: seq<real>)
    requires Sorted(s) && s != []
    ensures Sorted(s[1..]) && forall k :: 1 <= k < |s| ==> s[0] <= s[k]
  {
  }

  lemma ConsSorted(h: real, rest: seq<real>)
    requires Sorted(rest) && (rest != [] ==> h <= rest[0])
    ensures Sorted([h] + rest)
  {
  }

  /** sorted(xs): the same values in ascending order. */
  function Sort(xs: seq<real>): (r: seq<real>)
    ensures |r| == |xs|
    ensures Sorted(r) && multiset(r) == multiset(xs)
  {
    if xs == [] then []
    else
      assert xs == [xs[0]] + xs[1..];
      Insert(xs[0], Sort(xs[1..]))
  }

  /** sorted(xs)[len(xs) // 2] */
  function Median(xs: seq<real>): real
    requires xs != []
  {
    Sort(xs)[|xs| / 2]
  }

  /** The figures printed for one list of scores. */
  datatype Summary = Summary(mean: real, max: real, min: real, count: nat)

  /** The figures of a non-empty list of scores; none for an empty one ("No scores available"). */
  function Summarize(xs: seq<real>): (s: Option<Summary>)
    ensures s.None? <==> xs == []
    ensures s.Some? ==> s.value.count == |xs| && s.value.min <= s.value.mean <= s.value.max
    ensures s.Some? ==> s.value.max == MaxOf(xs) && s.value.max in xs && forall i :: 0 <= i < |xs| ==> xs[i] <= s.value.max
    ensures s.Some? ==> s.value.min == MinOf(xs) && s.value.min in xs && forall i :: 0 <= i < |xs| ==> s.value.min <= xs[i]
    ensures s.Some? ==> s.value.mean == Sum(xs) / (|xs| as real)
  {
    if xs == [] then None
    else
      MeanBounds(xs);
      Some(Summary(Sum(xs) / (|xs| as real), MaxOf(xs), MinOf(xs), |xs|))
  }

  /** What print_statistics computes from a list of results. */
  datatype Statistics = Statistics(total: nat, geval: Option<Summary>, gevalMedian: Option<real>,
                                   f1: Option<Summary>, recall: Option<Summary>)

  function ResultStatistics(results: seq<EvaluationResult>): (st: Statistics)
    ensures st.total == |results|
    ensures st.geval.None? <==> forall i :: 0 <= i < |results| ==> results[i].gevalScore.None?
    ensures st.gevalMedian.Some? <==> st.geval.Some?
    ensures st.f1.None? <==> forall i :: 0 <= i < |results| ==> results[i].bertF1.None?
    ensures st.recall.None? <==> forall i :: 0 <= i < |results| ==> results[i].bertRecall.None?
    ensures st.geval == Summarize(Present(GevalColumn(results)))
    ensures st.f1 == Summarize(Present(F1Column(results)))
    ensures st.recall == Summarize(Present(RecallColumn(results)))
    ensures st.gevalMedian.Some? ==> var g := Present(GevalColumn(results)); g != [] && st.gevalMedian.value == Median(g)
  {
    var geval := Present(GevalColumn(results));
    ColumnsPresent(results);
    Statistics(|results|, Summarize(geval), if geval == [] then None else Some(Median(geval)),
               Summarize(Present(F1Column(results))), Summarize(Present(RecallColumn(results))))
  }

  /** A score column has no present value exactly when no result carries that score. */
  lemma ColumnsPresent(results: seq<EvaluationResult>)
    ensures Present(GevalColumn(results)) == [] <==> forall i :: 0 <= i < |results| ==> results[i].gevalScore.None?
    ensures Present(F1Column(results)) == [] <==> forall i :: 0 <= i < |results| ==> results[i].bertF1.None?
    ensures Present(RecallColumn(results)) == [] <==> forall i :: 0 <= i < |results| ==> results[i].bertRecall.None?
  {
    var g, f, r := GevalColumn(results), F1Column(results), RecallColumn(results);
    assert forall i :: 0 <= i < |results| ==> (g[i].None? <==> results[i].gevalScore.None?);
    assert forall i :: 0 <= i < |results| ==> (f[i].None? <==> results[i].bertF1.None?);
    assert forall i :: 0 <= i < |results| ==> (r[i].None? <==> results[i].bertRecall.None?);
  }

  /** The sum of a list lies between its length times its minimum and its length times its maximum. */
  lemma {:induction false} SumBounds(xs: seq<real>, lo: real, hi: real)
    requires forall i :: 0 <= i < |xs| ==> lo <= xs[i] <= hi
    ensures (|xs| as real) * lo <= Sum(xs) <= (|xs| as real) * hi
  {
    if xs != [] {
      SumBounds(xs[1..], lo, hi);
    }
  }

  /** The mean lies between the minimum and the maximum. */
  lemma MeanBounds(xs: seq<real>)
    requires xs != []
    ensures MinOf(xs) <= Sum(xs) / (|xs| as real) <= MaxOf(xs)
  {
    MeanBetween(xs, MinOf(xs), MaxOf(xs));
  }

  /** The mean of values that all lie between two bounds lies between them too. */
  lemma MeanBetween(xs: seq<real>, lo: real, hi: real)
    requires xs != [] && forall i :: 0 <= i < |xs| ==> lo <= xs[i] <= hi
    ensures lo <= Sum(xs) / (|xs| as real) <= hi
  {
    SumBounds(xs, lo, hi);
    ScaledBounds(|xs| as real, lo, Sum(xs), hi);
  }

  lemma ScaledBounds(n: real, lo: real, s: real, hi: real)
    requires n > 0.0 && n * lo <= s <= n * hi
    ensures lo <= s / n <= hi
  {
    var q := s / n;
    assert s == n * q;
    assert n * lo <= n * q ==> lo <= q;
    assert n * q <= n * hi ==> q <= hi;
  }

  /** The median is one of the scores and lies between the minimum and the maximum. */
  lemma MedianBounds(xs: seq<real>)
    requires xs != []
    ensures Median(xs) in xs
    ensures MinOf(xs) <= Median(xs) <= MaxOf(xs)
  {
    var sorted := Sort(xs);
    var m := sorted[|xs| / 2];
    assert m in multiset(sorted);
    assert m in multiset(xs);
    var k :| 0 <= k < |xs| && xs[k] == m;
  }

  /** In sorted order, every score from the middle position on is at least the median and every one up to it at most. */
  lemma MedianSplits(xs: seq<real>)
    requires xs != []
    ensures var s := Sort(xs); |s| == |xs| && forall i :: |xs| / 2 <= i < |xs| ==> Median(xs) <= s[i]
    ensures var s := Sort(xs); forall i :: 0 <= i <= |xs| / 2 ==> s[i] <= Median(xs)
  {
    var sorted := Sort(xs);
    assert Median(xs) == sorted[|xs| / 2];
    assert forall i :: |xs| / 2 <= i < |xs| ==> sorted[|xs| / 2] <= sorted[i];
    assert forall i :: 0 <= i <= |xs| / 2 ==> sorted[i] <= sorted[|xs| / 2];
  }
}
