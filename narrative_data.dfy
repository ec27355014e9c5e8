/**
 * The results file of the narrative task: one header line, then one row of eight
 * tab-separated columns per evaluated sample (id, text, reference, candidate, G-Eval score
 * and the three BERTScore values). Rows are appended one at a time as samples are done, or
 * the whole file is rewritten; a later run reads the ids, or the full records, back.
 */
module NarrativeData {
  import opened Wrappers
  import opened PyStr
  import opened PyIO
  import opened RecordStore

  /** One evaluated sample; a score the run has not computed (yet) is None. */
  datatype EvaluationResult = EvaluationResult(
    id: string, text: string, reference: string, candidate: string,
    gevalScore: Option<int>,
    bertPrecision: Option<real>, bertRecall: Option<real>, bertF1: Option<real>)

  /**
   * str() and float() of the BERTScore values. Floating point is not part of this model:
   * a value is a real number, written by `show` and read back by `parse` (None when float()
   * raises ValueError).
   */
  datatype FloatFormat = FloatFormat(show: real -> string, parse: string -> Option<real>)

  /** A value the format writes as one clean, unpadded field and reads back exactly. */
  predicate Faithful(fmt: FloatFormat, x: real) {
    var s := fmt.show(x);
    IsClean(s) && NoSpaceEnds(s) && fmt.parse(s) == Some(x)
  }

  // ----- reference narratives, file names, language codes -----

  /** The dataset column that holds the reference narrative of a language code. */
  function ReferenceColumn(languageCode: string): Option<string> {
    if languageCode == "en" then Some("pos_en")
    else if languageCode == "zh_tw" then Some("pos_tc")
    else if languageCode == "zh" then Some("pos_sc")
    else None
  }

  /** get_reference_narrative: the language's column of the row, '' when the row lacks it or the code is unsupported. */
  function GetReferenceNarrative(row: map<string, string>, languageCode: string): (r: string)
    ensures ReferenceColumn(languageCode).None? ==> r == ""
    ensures ReferenceColumn(languageCode).Some? && ReferenceColumn(languageCode).value in row ==> r == row[ReferenceColumn(languageCode).value]
    ensures ReferenceColumn(languageCode).Some? && ReferenceColumn(languageCode).value !in row ==> r == ""
  {
    var key := if languageCode == "en" then "pos_en"
               else if languageCode == "zh_tw" then "pos_tc"
               else if languageCode == "zh" then "pos_sc"
               else "";
    if key == "" || key !in row then "" else row[key]
  }

  /** The three supported codes read the English, traditional and simplified Chinese columns. */
  lemma ReferenceColumns()
    ensures ReferenceColumn("en") == Some("pos_en")
    ensures ReferenceColumn("zh_tw") == Some("pos_tc")
    ensures ReferenceColumn("zh") == Some("pos_sc")
    ensures forall code :: ReferenceColumn(code).Some? ==> code == "en" || code == "zh_tw" || code == "zh"
  {
  }

  /** The model part of a result file name: after the last '/', each ':' turned into '-'. */
  function LlmName(llmModel: string): (r: string)
    ensures |r| == |LastSegment(llmModel, '/')|
    ensures '/' !in r && ':' !in r
    ensures forall i :: 0 <= i < |r| ==> r[i] == if LastSegment(llmModel, '/')[i] == ':' then '-' else LastSegment(llmModel, '/')[i]
  {
    Replace(LastSegment(llmModel, '/'), ':', '-')
  }

  /** gen_{llm_name}_prompt_{generation_version}_eval_{evaluation_version}.tsv */
  function ResultFileName(llmModel: string, generationVersion: string, evaluationVersion: string): string {
    "gen_" + LlmName(llmModel) + "_prompt_" + generationVersion + "_eval_" + evaluationVersion + ".tsv"
  }

  /** get_result_filepath: the file name inside the output directory. */
  function GetResultFilepath(outputDir: string, llmModel: string, generationVersion: string, evaluationVersion: string): (path: string)
    ensures outputDir != [] && outputDir[|outputDir| - 1] != '/' ==>
              path == outputDir + "/" + ResultFileName(llmModel, generationVersion, evaluationVersion)
    ensures outputDir != [] && outputDir[|outputDir| - 1] == '/' ==>
              path == outputDir + ResultFileName(llmModel, generationVersion, evaluationVersion)
    ensures outputDir == [] ==> path == ResultFileName(llmModel, generationVersion, evaluationVersion)
  {
    PathJoin(outputDir, ResultFileName(llmModel, generationVersion, evaluationVersion))
  }

  /** Two models whose names differ only before their last '/' share a result file. */
  lemma SameFileAcrossProviders(a: string, b: string, name: string, g: string, e: string)
    requires '/' !in name
    ensures ResultFileName(a + "/" + name, g, e) == ResultFileName(b + "/" + name, g, e)
  {
    LastSegmentAfter(a, name);
    LastSegmentAfter(b, name);
  }

  lemma LastSegmentAfter(a: string, name: string)
    requires '/' !in name
    ensures LastSegment(a + "/" + name, '/') == name
  {
    var s := a + "/" + name;
    assert s[|s| - |name| - 1] == '/';
    assert s[|s| - |name|..] == name;
  }

  /** extract_language_code: what follows the first '_' of the version, or a ValueError. */
  function ExtractLanguageCode(version: string): (r: Result<string>)
    ensures r.Ok? <==> '_' in version
    ensures r.Ok? ==> r.value == version[IndexOf(version, '_') + 1..]
    ensures r.Err? ==> r.error == "Invalid version format: " + version
  {
    var parts := Split(version, '_');
    if |parts| < 2 then Err("Invalid version format: " + version)
    else if |parts| == 2 then
      LanguageCodeIsRest(version);
      Ok(parts[1])
    else
      LanguageCodeIsRest(version);
      Ok(Join(parts[1..], '_'))
  }

  /** The pieces after the first one, joined again, are the text after the first separator. */
  lemma LanguageCodeIsRest(version: string)
    ensures var parts := Split(version, '_');
            (|parts| >= 2 <==> '_' in version) &&
            (|parts| >= 2 ==> Join(parts[1..], '_') == version[IndexOf(version, '_') + 1..])
  {
    if '_' in version {
      var k := IndexOf(version, '_');
      SplitAt(version, '_', k);
      JoinSplit(version[k + 1..], '_');
      assert Split(version, '_')[1..] == Split(version[k + 1..], '_');
    } else {
      assert Split(version, '_') == [version];
    }
  }

  /** "v1_en" gives "en" and "v2_zh_tw" gives "zh_tw": a version is a tag without '_', then '_' and the code. */
  lemma LanguageCodeOfVersion(tag: string, code: string)
    requires '_' !in tag
    ensures ExtractLanguageCode(tag + "_" + code) == Ok(code)
  {
    var v := tag + "_" + code;
    assert v[|tag|] == '_' && v[..|tag|] == tag;
    IndexOfFirst(v, '_', |tag|);
    assert v[|tag| + 1..] == code;
  }

  // ----- rows -----

  /** The column names of the header line. */
  const HeaderFields: seq<string> := ["id", "text", "reference", "candidate", "geval_score", "bert_precision", "bert_recall", "bert_f1"]

  /** The header line append_result and save_results write first. */
  function HeaderLine(): string {
    Row(HeaderFields)
  }

  /** str(value) if value is not None else '' */
  function ShowInt(o: Option<int>): string {
    if o.Some? then IntStr(o.value) else ""
  }

  function ShowReal(fmt: FloatFormat, o: Option<real>): string {
    if o.Some? then fmt.show(o.value) else ""
  }

  /** The eight columns of a result row, texts sanitised, missing scores empty. */
  function ResultFields(fmt: FloatFormat, r: EvaluationResult): (fs: seq<string>)
    ensures |fs| == 8 && fs[0] == r.id
    ensures fs[1] == Sanitize(r.text) && fs[2] == Sanitize(r.reference) && fs[3] == Sanitize(r.candidate)
    ensures fs[4] == ShowInt(r.gevalScore)
    ensures fs[5] == ShowReal(fmt, r.bertPrecision) && fs[6] == ShowReal(fmt, r.bertRecall) && fs[7] == ShowReal(fmt, r.bertF1)
  {
    [r.id, Sanitize(r.text), Sanitize(r.reference), Sanitize(r.candidate), ShowInt(r.gevalScore),
     ShowReal(fmt, r.bertPrecision), ShowReal(fmt, r.bertRecall), ShowReal(fmt, r.bertF1)]
  }

  /** The data row append_result and save_results write for one result. */
  function ResultRow(fmt: FloatFormat, r: EvaluationResult): string {
    Row(ResultFields(fmt, r))
  }

  /** The rows of several results, in order. */
  function RowTexts(fmt: FloatFormat, rs: seq<EvaluationResult>): (ts: seq<string>)
    ensures |ts| == |rs| && forall i :: 0 <= i < |rs| ==> ts[i] == ResultRow(fmt, rs[i])
  {
    seq(|rs|, i requires 0 <= i < |rs| => ResultRow(fmt, rs[i]))
  }

  function ResultRows(fmt: FloatFormat, rs: seq<EvaluationResult>): string {
    Concat(RowTexts(fmt, rs))
  }

  /**
   * append_result: with write_header the file is truncated and gets the header and the
   * row; without it the row is added at the end (the file is created when missing).
   */
  method AppendResult(file: TextFile, fmt: FloatFormat, r: EvaluationResult, writeHeader: bool)
    modifies file
    ensures writeHeader ==> file.content == Some(HeaderLine() + ResultRow(fmt, r))
    ensures !writeHeader ==> file.content == Some(Contents(old(file.content)) + ResultRow(fmt, r))
  {
    if writeHeader {
      file.Overwrite(HeaderLine());
      file.Append(ResultRow(fmt, r));
    } else {
      file.Append(ResultRow(fmt, r));
    }
  }

  /** save_results: the file is rewritten with the header and one row per result, in order. */
  method SaveResults(file: TextFile, fmt: FloatFormat, results: seq<EvaluationResult>)
    modifies file
    ensures file.content == Some(HeaderLine() + ResultRows(fmt, results))
  {
    file.Overwrite(HeaderLine());
    file.AppendEach(RowTexts(fmt, results));
  }

  // ----- reading back -----

  /** The id set get_processed_ids returns: the first column of every non-blank line after the first. */
  function ProcessedIds(f: File): set<string> {
    if f.None? then {}
    else
      var lines := ReadLines(f.value);
      if lines == [] then {} else IdsOf(lines[1..])
  }

  /**
   * get_processed_ids: a missing file gives the empty set; otherwise the first line is
   * skipped as the header (an empty file makes next() raise, which is caught, so the set
   * stays empty) and the ids of the other lines are collected.
   */
  method GetProcessedIds(f: File) returns (ids: set<string>)
    ensures ids == ProcessedIds(f)
  {
    if f.None? {
      return {};
    }
    var lines := ReadLines(f.value);
    if lines == [] {
      return {};
    }
    ids := CollectIds(lines[1..]);
  }

  /**
   * One BERTScore column as the reader sees it: None when float() raises on it, otherwise
   * the value it sets (None for a blank column, which is skipped).
   */
  function ReadColumn(fmt: FloatFormat, c: string): Option<Option<real>> {
    if Strip(c) == [] then Some(None)
    else if fmt.parse(c).None? then None
    else Some(fmt.parse(c))
  }

  function Columns(fmt: FloatFormat, cols: seq<string>): (cs: seq<Option<Option<real>>>)
    ensures |cs| == |cols| && forall i :: 0 <= i < |cols| ==> cs[i] == ReadColumn(fmt, cols[i])
  {
    seq(|cols|, i requires 0 <= i < |cols| => ReadColumn(fmt, cols[i]))
  }

  /**
   * Assignments in one try block: each column's value in turn, until the first one that
   * raises, which leaves itself and every later one unset.
   */
  function Settle<T>(cells: seq<Option<Option<T>>>): (r: seq<Option<T>>)
    ensures |r| == |cells|
    decreases |cells|
  {
    if cells == [] then []
    else if cells[0].None? then seq(|cells|, _ => None)
    else [cells[0].value] + Settle(cells[1..])
  }

  /** A value that is set comes from its own column. */
  lemma {:induction false} SettleSound<T>(cells: seq<Option<Option<T>>>)
    ensures var r := Settle(cells);
            forall i :: 0 <= i < |r| && r[i].Some? ==> cells[i] == Some(r[i])
    decreases |cells|
  {
    if cells != [] && cells[0].Some? {
      SettleSound(cells[1..]);
      var r := Settle(cells);
      assert r[1..] == Settle(cells[1..]);
    }
  }

  /** With no failing column, each column is read on its own. */
  lemma {:induction false} SettleAllSome<T>(cells: seq<Option<Option<T>>>)
    requires forall i :: 0 <= i < |cells| ==> cells[i].Some?
    ensures var r := Settle(cells);
            forall i :: 0 <= i < |r| ==> r[i] == cells[i].value
    decreases |cells|
  {
    if cells != [] {
      SettleAllSome(cells[1..]);
      var r := Settle(cells);
      assert r[1..] == Settle(cells[1..]);
    }
  }

  /** A failing column unsets itself and every later one. */
  lemma {:induction false} SettleStops<T>(cells: seq<Option<Option<T>>>, k: nat)
    requires k < |cells| && cells[k].None?
    ensures forall i :: k <= i < |cells| ==> Settle(cells)[i].None?
    decreases k
  {
    if k > 0 && cells[0].Some? {
      SettleStops(cells[1..], k - 1);
      var r := Settle(cells);
      assert r[1..] == Settle(cells[1..]);
    }
  }

  /** The BERTScore columns as the reader sets them. */
  function ParseScores(fmt: FloatFormat, cols: seq<string>): (r: seq<Option<real>>)
    ensures |r| == |cols|
  {
    Settle(Columns(fmt, cols))
  }

  /** A value the reader sets is float() of a non-blank column. */
  lemma ParseScoresSound(fmt: FloatFormat, cols: seq<string>)
    ensures var r := ParseScores(fmt, cols);
            forall i :: 0 <= i < |r| && r[i].Some? ==> Strip(cols[i]) != [] && fmt.parse(cols[i]) == r[i]
  {
    SettleSound(Columns(fmt, cols));
  }

  /** When float() accepts every non-blank column, each column is read on its own. */
  lemma ParseScoresAllParse(fmt: FloatFormat, cols: seq<string>)
    requires forall i :: 0 <= i < |cols| && Strip(cols[i]) != [] ==> fmt.parse(cols[i]).Some?
    ensures var r := ParseScores(fmt, cols);
            forall i :: 0 <= i < |r| ==> r[i] == if Strip(cols[i]) == [] then None else fmt.parse(cols[i])
  {
    SettleAllSome(Columns(fmt, cols));
  }

  /** A column float() rejects hides the columns after it, even ones that would parse. */
  lemma ParseFailureStops(fmt: FloatFormat, cols: seq<string>, k: nat)
    requires k < |cols| && Strip(cols[k]) != [] && fmt.parse(cols[k]).None?
    ensures forall i :: k <= i < |cols| ==> ParseScores(fmt, cols)[i].None?
  {
    SettleStops(Columns(fmt, cols), k);
  }

  /** The G-Eval column: int() of it when it is present and non-blank and int() accepts it. */
  function ParseGeval(parts: seq<string>): Option<int> {
    if |parts| >= 5 && Strip(parts[4]) != [] then ParseInt(parts[4]) else None
  }

  /** What the reader of load_processed_results makes of one line. */
  function RecordOf(fmt: FloatFormat, line: string): (r: Option<EvaluationResult>)
    ensures r.Some? <==> !IsBlank(line) && |Fields(line)| >= 4
    ensures r.Some? ==> var parts := Fields(line);
              && r.value.id == parts[0] && r.value.text == parts[1]
              && r.value.reference == parts[2] && r.value.candidate == parts[3]
              && r.value.gevalScore == ParseGeval(parts)
              && (|parts| < 8 ==> r.value.bertPrecision.None? && r.value.bertRecall.None? && r.value.bertF1.None?)
  {
    if IsBlank(line) then None
    else
      var parts := Fields(line);
      if |parts| < 4 then None
      else
        var base := EvaluationResult(parts[0], parts[1], parts[2], parts[3], ParseGeval(parts), None, None, None);
        if |parts| >= 8 then
          var scores := ParseScores(fmt, parts[5..8]);
          Some(base.(bertPrecision := scores[0], bertRecall := scores[1], bertF1 := scores[2]))
        else Some(base)
  }

  function RecordReader(fmt: FloatFormat): string -> Option<EvaluationResult> {
    line => RecordOf(fmt, line)
  }

  /** What load_processed_results returns: the records of the lines after the header. */
  function ProcessedResults(fmt: FloatFormat, f: File): seq<EvaluationResult> {
    if f.None? then []
    else
      var lines := ReadLines(f.value);
      if lines == [] then [] else Gather(RecordReader(fmt), lines[1..])
  }

  /** load_processed_results: the header line is skipped, then every line the reader accepts becomes a record. */
  method LoadProcessedResults(fmt: FloatFormat, f: File) returns (results: seq<EvaluationResult>)
    ensures results == ProcessedResults(fmt, f)
  {
    if f.None? {
      return [];
    }
    var lines := ReadLines(f.value);
    if lines == [] {
      return [];
    }
    results := GatherLines(RecordReader(fmt), lines[1..]);
  }

  // ----- round trips -----

  /** The header reads back as one line. */
  lemma HeaderIsOneLine()
    ensures ReadLines(HeaderLine()) == [HeaderLine()]
  {
    RowIsOneLine(HeaderFields);
  }

  /** Both readers skip the header and read what follows it. */
  lemma HeaderSkipped(fmt: FloatFormat, rows: string)
    ensures ProcessedIds(Some(HeaderLine() + rows)) == FileIds(Some(rows))
    ensures ProcessedResults(fmt, Some(HeaderLine() + rows)) == Gather(RecordReader(fmt), ReadLines(rows))
  {
    HeaderLines(rows);
  }

  /** The lines of a file that starts with the header: the header, then those of the rest. */
  lemma HeaderLines(rows: string)
    ensures var lines := ReadLines(HeaderLine() + rows); lines != [] && lines[1..] == ReadLines(rows)
  {
    HeaderIsOneLine();
    ReadLinesAppend(HeaderLine(), rows);
    assert ([HeaderLine()] + ReadLines(rows))[1..] == ReadLines(rows);
  }

  /** A result row is one line: no field of it holds a line break. */
  lemma ResultRowIsOneLine(fmt: FloatFormat, r: EvaluationResult)
    requires IsClean(r.id)
    requires r.bertPrecision.Some? ==> IsClean(fmt.show(r.bertPrecision.value))
    requires r.bertRecall.Some? ==> IsClean(fmt.show(r.bertRecall.value))
    requires r.bertF1.Some? ==> IsClean(fmt.show(r.bertF1.value))
    ensures ReadLines(ResultRow(fmt, r)) == [ResultRow(fmt, r)]
  {
    var fs := ResultFields(fmt, r);
    IntClean(r.gevalScore);
    RowIsOneLine(fs);
  }

  /** str() of an int holds no tab or line break. */
  lemma IntClean(o: Option<int>)
    ensures IsClean(ShowInt(o))
  {
    if o.Some? {
      var s := IntStr(o.value);
      IntStrClean(o.value);
      var body := if o.value < 0 then NatStr(-o.value) else NatStr(o.value);
      assert forall i :: 0 <= i < |body| ==> IsDigit(body[i]);
      assert forall i :: 0 <= i < |s| ==> s[i] == '-' || IsDigit(s[i]) by {
        if o.value < 0 {
          assert forall i :: 1 <= i < |s| ==> s[i] == body[i - 1];
        }
      }
    }
  }

  /** The record a row reads back as: the same id, the texts as sanitised, the same scores. */
  function Written(r: EvaluationResult): EvaluationResult {
    r.(text := Sanitize(r.text), reference := Sanitize(r.reference), candidate := Sanitize(r.candidate))
  }

  /** Whether a result's BERTScore values are all set or all unset, as the run leaves them. */
  predicate BertAllOrNone(r: EvaluationResult) {
    (r.bertPrecision.Some? && r.bertRecall.Some? && r.bertF1.Some?)
    || (r.bertPrecision.None? && r.bertRecall.None? && r.bertF1.None?)
  }

  /**
   * A row written for a result reads back as that result, its texts sanitised, provided
   * the id is a key, the BERTScore values are all set (and written faithfully) or all
   * unset, and the last non-empty column does not end with whitespace (the reader strips
   * the line, which would eat into it): a G-Eval score is present, or the candidate
   * does not end with whitespace.
   */
  lemma ResultRoundTrip(fmt: FloatFormat, r: EvaluationResult)
    requires IsKey(r.id)
    requires BertAllOrNone(r)
    requires r.bertPrecision.Some? ==> Faithful(fmt, r.bertPrecision.value) && Faithful(fmt, r.bertRecall.value) && Faithful(fmt, r.bertF1.value)
    requires r.bertPrecision.None? && r.gevalScore.None? ==> NoSpaceEnds(Sanitize(r.candidate))
    ensures ReadLines(ResultRow(fmt, r)) == [ResultRow(fmt, r)]
    ensures RecordOf(fmt, ResultRow(fmt, r)) == Some(Written(r))
  {
    ResultRowIsOneLine(fmt, r);
    if r.bertPrecision.Some? {
      ScoredRowRoundTrip(fmt, r);
    } else {
      UnscoredRowRoundTrip(fmt, r);
    }
  }

  /** Three values written faithfully read back as themselves. */
  lemma FaithfulScores(fmt: FloatFormat, p: real, rc: real, f: real)
    requires Faithful(fmt, p) && Faithful(fmt, rc) && Faithful(fmt, f)
    ensures ParseScores(fmt, [fmt.show(p), fmt.show(rc), fmt.show(f)]) == [Some(p), Some(rc), Some(f)]
  {
    FaithfulColumn(fmt, p);
    FaithfulColumn(fmt, rc);
    FaithfulColumn(fmt, f);
    ColumnsOfThree(fmt, fmt.show(p), fmt.show(rc), fmt.show(f));
    SettleThree(Columns(fmt, [fmt.show(p), fmt.show(rc), fmt.show(f)]), p, rc, f);
  }

  lemma ColumnsOfThree(fmt: FloatFormat, a: string, b: string, c: string)
    ensures Columns(fmt, [a, b, c]) == [ReadColumn(fmt, a), ReadColumn(fmt, b), ReadColumn(fmt, c)]
  {
    var cols := [a, b, c];
    var cs := Columns(fmt, cols);
    assert cols[0] == a && cols[1] == b && cols[2] == c;
    ThreeOf(cs, ReadColumn(fmt, a), ReadColumn(fmt, b), ReadColumn(fmt, c));
  }

  lemma ThreeOf<T>(xs: seq<T>, x: T, y: T, z: T)
    requires |xs| == 3 && xs[0] == x && xs[1] == y && xs[2] == z
    ensures xs == [x, y, z]
  {
  }

  lemma SettleThree<T>(cells: seq<Option<Option<T>>>, a: T, b: T, c: T)
    requires cells == [Some(Some(a)), Some(Some(b)), Some(Some(c))]
    ensures Settle(cells) == [Some(a), Some(b), Some(c)]
  {
    SettleAllSome(cells);
  }

  /** A value written faithfully is one column float() reads back as that value. */
  lemma FaithfulColumn(fmt: FloatFormat, x: real)
    requires Faithful(fmt, x)
    ensures ReadColumn(fmt, fmt.show(x)) == Some(Some(x))
  {
  }

  /** A row with all three BERTScore values reads back whole. */
  lemma ScoredRowRoundTrip(fmt: FloatFormat, r: EvaluationResult)
    requires IsKey(r.id)
    requires r.bertPrecision.Some? && r.bertRecall.Some? && r.bertF1.Some?
    requires Faithful(fmt, r.bertPrecision.value) && Faithful(fmt, r.bertRecall.value) && Faithful(fmt, r.bertF1.value)
    ensures RecordOf(fmt, ResultRow(fmt, r)) == Some(Written(r))
  {
    var fs := ResultFields(fmt, r);
    var cols := fs[5..8];
    assert cols == [fmt.show(r.bertPrecision.value), fmt.show(r.bertRecall.value), fmt.show(r.bertF1.value)];
    FaithfulScores(fmt, r.bertPrecision.value, r.bertRecall.value, r.bertF1.value);
    assert ParseGeval(fs) == r.gevalScore by {
      GevalRoundTrip(r.gevalScore);
    }
    ScoredFields(fmt, r);
    RecordOfFullLine(fmt, ResultRow(fmt, r), r.bertPrecision, r.bertRecall, r.bertF1);
  }

  /** A row with all three BERTScore values reads back as its eight columns. */
  lemma ScoredFields(fmt: FloatFormat, r: EvaluationResult)
    requires IsKey(r.id)
    requires r.bertPrecision.Some? && r.bertRecall.Some? && r.bertF1.Some?
    requires Faithful(fmt, r.bertPrecision.value) && Faithful(fmt, r.bertRecall.value) && Faithful(fmt, r.bertF1.value)
    ensures var fs := ResultFields(fmt, r); !IsBlank(Row(fs)) && Fields(Row(fs)) == fs
  {
    var fs := ResultFields(fmt, r);
    LeadingFieldsClean(fmt, r);
    assert IsClean(fs[5]) && IsClean(fs[6]) && IsClean(fs[7]);
    assert forall i :: 0 <= i < 8 ==> IsClean(fs[i]);
    assert NoSpaceEnds(fs[7]);
    RowRoundTrip(fs);
  }

  /** A line of eight or more columns reads its BERTScore values from columns 5 to 7. */
  lemma RecordOfFullLine(fmt: FloatFormat, line: string, a: Option<real>, b: Option<real>, c: Option<real>)
    requires !IsBlank(line) && |Fields(line)| >= 8
    requires ParseScores(fmt, Fields(line)[5..8]) == [a, b, c]
    ensures var p := Fields(line);
            RecordOf(fmt, line) == Some(EvaluationResult(p[0], p[1], p[2], p[3], ParseGeval(p), a, b, c))
  {
  }

  /**
   * A row without BERTScore values loses its empty columns on reading (strip() removes
   * their tabs) and reads back with the three values None.
   */
  lemma UnscoredRowRoundTrip(fmt: FloatFormat, r: EvaluationResult)
    requires IsKey(r.id)
    requires r.bertPrecision.None? && r.bertRecall.None? && r.bertF1.None?
    requires r.gevalScore.None? ==> NoSpaceEnds(Sanitize(r.candidate))
    ensures RecordOf(fmt, ResultRow(fmt, r)) == Some(Written(r))
  {
    var fs := ResultFields(fmt, r);
    var head := if r.gevalScore.Some? then fs[..5] else fs[..4];
    UnscoredFields(fmt, r);
    assert ParseGeval(head) == r.gevalScore by {
      GevalRoundTrip(r.gevalScore);
    }
    RecordOfShortLine(fmt, ResultRow(fmt, r));
  }

  /** What strip() leaves of a row without BERTScore values: the columns up to the last non-empty one. */
  lemma UnscoredFields(fmt: FloatFormat, r: EvaluationResult)
    requires IsKey(r.id)
    requires r.bertPrecision.None? && r.bertRecall.None? && r.bertF1.None?
    requires r.gevalScore.None? ==> NoSpaceEnds(Sanitize(r.candidate))
    ensures var fs := ResultFields(fmt, r);
            !IsBlank(Row(fs)) && Fields(Row(fs)) == if r.gevalScore.Some? then fs[..5] else fs[..4]
  {
    var fs := ResultFields(fmt, r);
    LeadingFieldsClean(fmt, r);
    if r.gevalScore.Some? {
      var head := fs[..5];
      assert forall i :: 0 <= i < 5 ==> head[i] == fs[i];
      assert NoSpaceEnds(head[4]) by {
        IntStrClean(r.gevalScore.value);
      }
      assert head + seq(3, _ => "") == fs;
      TrailingEmptyColumns(head, 3);
    } else {
      var head := fs[..4];
      assert forall i :: 0 <= i < 4 ==> head[i] == fs[i];
      assert head + seq(4, _ => "") == fs;
      TrailingEmptyColumns(head, 4);
    }
  }

  /** A line of four to seven columns reads as a record without BERTScore values. */
  lemma RecordOfShortLine(fmt: FloatFormat, line: string)
    requires !IsBlank(line) && 4 <= |Fields(line)| < 8
    ensures var p := Fields(line);
            RecordOf(fmt, line) == Some(EvaluationResult(p[0], p[1], p[2], p[3], ParseGeval(p), None, None, None))
  {
  }

  /** The id, the three texts and the G-Eval column of a row hold no tab or line break. */
  lemma LeadingFieldsClean(fmt: FloatFormat, r: EvaluationResult)
    requires IsClean(r.id)
    ensures forall i :: 0 <= i < 5 ==> IsClean(ResultFields(fmt, r)[i])
  {
    var fs := ResultFields(fmt, r);
    IntClean(r.gevalScore);
    assert IsClean(fs[0]) && IsClean(fs[1]) && IsClean(fs[2]) && IsClean(fs[3]) && IsClean(fs[4]);
  }

  /** The G-Eval column reads back as the score written. */
  lemma GevalRoundTrip(o: Option<int>)
    ensures o.Some? ==> Strip(ShowInt(o)) != [] && ParseInt(ShowInt(o)) == o
    ensures o.None? ==> ShowInt(o) == ""
  {
    if o.Some? {
      IntStrClean(o.value);
      IntStrRoundTrip(o.value);
    }
  }

  /**
   * Empty columns at the end of a row are lost on reading: strip() removes their tabs, so
   * the line reads as the row of the columns before them.
   */
  lemma TrailingEmptyColumns(fs: seq<string>, k: nat)
    requires |fs| >= 1 && k >= 1
    requires forall i :: 0 <= i < |fs| ==> IsClean(fs[i])
    requires fs[0] != [] && !IsSpace(fs[0][0])
    requires var l := fs[|fs| - 1]; l != [] && !IsSpace(l[|l| - 1])
    ensures !IsBlank(Row(fs + seq(k, _ => ""))) && Fields(Row(fs + seq(k, _ => ""))) == fs
  {
    var empties: seq<string> := seq(k, _ => "");
    JoinEmpties(k);
    JoinAppend(fs, empties, '\t');
    var tabs := [ '\t' ] + seq(k - 1, _ => '\t') + "\n";
    assert Row(fs + empties) == Join(fs, '\t') + tabs;
    StripSpaces(Join(fs, '\t'), tabs);
    JoinNoSpaceEnds(fs, '\t');
    SplitJoin(fs, '\t');
  }

  /** k empty strings joined by tabs are k - 1 tabs. */
  lemma {:induction false} JoinEmpties(k: nat)
    requires k >= 1
    ensures Join(seq(k, _ => ""), '\t') == seq(k - 1, _ => '\t')
  {
    if k > 1 {
      var e: seq<string> := seq(k, _ => "");
      assert e[1..] == seq(k - 1, _ => "");
      JoinEmpties(k - 1);
      assert e[0] + ['\t'] + seq(k - 2, _ => '\t') == seq(k - 1, _ => '\t');
    }
  }

  // ----- appending and reading back -----

  /** A one-line row appended after the header adds its first column to the processed ids. */
  lemma AppendedLineIds(content: string, row: string)
    requires content != [] && content[|content| - 1] == '\n'
    requires ReadLines(row) == [row] && !IsBlank(row)
    ensures ProcessedIds(Some(content + row)) == ProcessedIds(Some(content)) + {Fields(row)[0]}
  {
    var lines := ReadLines(content);
    AppendedLines(content, row);
    assert IdsOf([row]) == {Fields(row)[0]} by {
      assert [row][0] == row;
    }
    IdsOfAppend(lines[1..], [row]);
  }

  /** The lines of a file with a one-line row appended: the old ones, then the row. */
  lemma AppendedLines(content: string, row: string)
    requires content != [] && content[|content| - 1] == '\n'
    requires ReadLines(row) == [row]
    ensures var lines := ReadLines(content);
            lines != [] && ReadLines(content + row) != [] && ReadLines(content + row)[1..] == lines[1..] + [row]
  {
    var lines := ReadLines(content);
    ReadLinesAppend(content, row);
    ReadLinesNonEmpty(content);
    assert (lines + [row])[1..] == lines[1..] + [row];
  }

  /** A one-line row appended after the header adds its record to the processed results. */
  lemma AppendedLineLoads(fmt: FloatFormat, content: string, row: string)
    requires content != [] && content[|content| - 1] == '\n'
    requires ReadLines(row) == [row]
    ensures ProcessedResults(fmt, Some(content + row)) == ProcessedResults(fmt, Some(content)) + Listed(RecordOf(fmt, row))
  {
    var lines := ReadLines(content);
    var read := RecordReader(fmt);
    AppendedLines(content, row);
    GatherLast(read, lines[1..], row);
    assert read(row) == RecordOf(fmt, row);
  }

  /**
   * A row appended to a file that already holds its header (and ends with a line break)
   * adds exactly its id to what get_processed_ids returns.
   */
  lemma AppendedResultProcessed(fmt: FloatFormat, content: string, r: EvaluationResult)
    requires content != [] && content[|content| - 1] == '\n'
    requires IsKey(r.id)
    requires r.bertPrecision.Some? ==> IsClean(fmt.show(r.bertPrecision.value))
    requires r.bertRecall.Some? ==> IsClean(fmt.show(r.bertRecall.value))
    requires r.bertF1.Some? ==> IsClean(fmt.show(r.bertF1.value))
    ensures ProcessedIds(Some(content + ResultRow(fmt, r))) == ProcessedIds(Some(content)) + {r.id}
  {
    ResultRowIsOneLine(fmt, r);
    RowKey(ResultFields(fmt, r));
    AppendedLineIds(content, ResultRow(fmt, r));
  }

  /** The first row of a new file, written with the header, is the only id get_processed_ids finds. */
  lemma FirstResultProcessed(fmt: FloatFormat, r: EvaluationResult)
    requires IsKey(r.id)
    requires r.bertPrecision.Some? ==> IsClean(fmt.show(r.bertPrecision.value))
    requires r.bertRecall.Some? ==> IsClean(fmt.show(r.bertRecall.value))
    requires r.bertF1.Some? ==> IsClean(fmt.show(r.bertF1.value))
    ensures ProcessedIds(Some(HeaderLine() + ResultRow(fmt, r))) == {r.id}
  {
    HeaderEmpty(fmt);
    AppendedResultProcessed(fmt, HeaderLine(), r);
  }

  /** A file holding only the header has no ids and no records. */
  lemma HeaderEmpty(fmt: FloatFormat)
    ensures HeaderLine() != [] && HeaderLine()[|HeaderLine()| - 1] == '\n'
    ensures ProcessedIds(Some(HeaderLine())) == {}
    ensures ProcessedResults(fmt, Some(HeaderLine())) == []
  {
    RowEndsWithNewline(HeaderFields);
    HeaderIsOneLine();
    assert ReadLines(HeaderLine())[1..] == [];
  }

  /**
   * A row appended to a file that already holds its header reads back, after the records
   * already there, as the result written (texts sanitised), under the conditions of
   * ResultRoundTrip.
   */
  lemma AppendedResultLoads(fmt: FloatFormat, content: string, r: EvaluationResult)
    requires content != [] && content[|content| - 1] == '\n'
    requires IsKey(r.id)
    requires BertAllOrNone(r)
    requires r.bertPrecision.Some? ==> Faithful(fmt, r.bertPrecision.value) && Faithful(fmt, r.bertRecall.value) && Faithful(fmt, r.bertF1.value)
    requires r.bertPrecision.None? && r.gevalScore.None? ==> NoSpaceEnds(Sanitize(r.candidate))
    ensures ProcessedResults(fmt, Some(content + ResultRow(fmt, r))) == ProcessedResults(fmt, Some(content)) + [Written(r)]
  {
    ResultRoundTrip(fmt, r);
    AppendedLineLoads(fmt, content, ResultRow(fmt, r));
  }
}
