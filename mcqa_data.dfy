/**
 * The multiple-choice task's data handling: which dataset columns hold the narratives of a
 * language, how the options are shuffled and the answer letter found, and the rows the easy
 * (five options) and hard (four options, answer always E) variants append.
 */
module McqaData {
  import opened Wrappers
  import opened PyStr
  import opened PyIO
  import opened RecordStore
  import opened Metrics
  import McqaModels
  import NarrativeData

  /** A dataset row: row[field] for every column it has. */
  type DataRow = map<string, string>

  /** The column family of a language: en, tc (traditional) or sc (simplified); English when unknown. */
  function Family(language: string): string {
    if language == "zh_tw" then "tc" else if language == "zh" then "sc" else "en"
  }

  /** get_narrative_fields: pos_{family}, then neg_{family}_1 .. neg_{family}_4. */
  function GetNarrativeFields(language: string): (r: (string, seq<string>))
    ensures var t := Family(language);
            && r.0 == "pos_" + t
            && |r.1| == 4 && forall i :: 0 <= i < 4 ==> r.1[i] == "neg_" + t + "_" + [('1' as int + i) as char]
  {
    if language == "en" then ("pos_en", ["neg_en_1", "neg_en_2", "neg_en_3", "neg_en_4"])
    else if language == "zh_tw" then ("pos_tc", ["neg_tc_1", "neg_tc_2", "neg_tc_3", "neg_tc_4"])
    else if language == "zh" then ("pos_sc", ["neg_sc_1", "neg_sc_2", "neg_sc_3", "neg_sc_4"])
    else ("pos_en", ["neg_en_1", "neg_en_2", "neg_en_3", "neg_en_4"])
  }

  /**
   * The five columns of a language are five different columns, and the positive one is the
   * column the narrative task reads its reference from (English for an unknown language).
   */
  lemma NarrativeFieldsDistinct(language: string)
    ensures var (pos, negs) := GetNarrativeFields(language);
            && pos !in negs
            && (forall i, j :: 0 <= i < j < |negs| ==> negs[i] != negs[j])
            && pos == (if NarrativeData.ReferenceColumn(language).Some? then NarrativeData.ReferenceColumn(language).value else "pos_en")
  {
    var (pos, negs) := GetNarrativeFields(language);
    forall i | 0 <= i < |negs|
      ensures negs[i] != pos && negs[i][0] == 'n' && negs[i][|negs[i]| - 1] == ('1' as int + i) as char
    {
      assert pos[0] == 'p';
    }
  }

  // ----- the shuffle -----

  /** random's _randbelow: given n > 0, a number below n. Which number is left open. */
  type RandBelow = f: nat -> nat | forall n: nat :: n > 0 ==> f(n) < n
    witness (n: nat) => 0

  /** x[i], x[j] = x[j], x[i] */
  function Swap<T>(xs: seq<T>, i: nat, j: nat): (ys: seq<T>)
    requires i < |xs| && j < |xs|
    ensures |ys| == |xs| && multiset(ys) == multiset(xs)
    ensures ys[i] == xs[j] && ys[j] == xs[i] && forall k :: 0 <= k < |xs| && k != i && k != j ==> ys[k] == xs[k]
  {
    xs[i := xs[j]][j := xs[i]]
  }

  /**
   * random.shuffle on the first n items: for i from n - 1 down to 1, swap item i with the
   * item at a position drawn below i + 1. The result is a permutation of the input.
   */
  function Shuffled<T>(xs: seq<T>, n: nat, randBelow: RandBelow): (ys: seq<T>)
    requires n <= |xs|
    ensures |ys| == |xs| && multiset(ys) == multiset(xs)
    decreases n
  {
    if n <= 1 then xs else Shuffled(Swap(xs, n - 1, randBelow(n)), n - 1, randBelow)
  }

  /** random.shuffle(x): Python's in-place Fisher-Yates loop over the list. */
  method Shuffle<T>(a: array<T>, randBelow: RandBelow)
    modifies a
    ensures a[..] == Shuffled(old(a[..]), a.Length, randBelow)
  {
    var i := a.Length;
    while i > 1
      invariant 0 <= i <= a.Length
      invariant Shuffled(a[..], i, randBelow) == Shuffled(old(a[..]), a.Length, randBelow)
      decreases i
    {
      Exchange(a, i - 1, randBelow(i));
      i := i - 1;
    }
  }

  /** x[i], x[j] = x[j], x[i] on the array. */
  method Exchange<T>(a: array<T>, i: nat, j: nat)
    requires i < a.Length && j < a.Length
    modifies a
    ensures a[..] == Swap(old(a[..]), i, j)
  {
    a[i], a[j] := a[j], a[i];
  }

  /** The list a shuffle is run on, filled into an array of its own. */
  method ShuffledCopy(xs: seq<string>, randBelow: RandBelow) returns (ys: seq<string>)
    ensures ys == Shuffled(xs, |xs|, randBelow)
  {
    var a := new string[|xs|](i requires 0 <= i < |xs| => xs[i]);
    assert a[..] == xs;
    Shuffle(a, randBelow);
    ys := a[..];
  }

  // ----- the options -----

  /** [row[field] for field in fields] */
  function Values(row: DataRow, fields: seq<string>): (vs: seq<string>)
    requires forall f <- fields :: f in row
    ensures |vs| == |fields| && forall i :: 0 <= i < |fields| ==> vs[i] == row[fields[i]]
  {
    seq(|fields|, i requires 0 <= i < |fields| => row[fields[i]])
  }

  /** options.index(x): the first position holding x. */
  function FirstIndex<T(==)>(xs: seq<T>, x: T): (i: nat)
    requires x in xs
    ensures i < |xs| && xs[i] == x && forall k :: 0 <= k < i ==> xs[k] != x
  {
    if xs[0] == x then 0 else FirstIndex(xs[1..], x) + 1
  }

  /** The most options a letter is found for; beyond it chr(ord('A') + i) would leave Dafny's char range. */
  const MaxOptions := 0xD800 - 'A' as int

  /** chr(ord('A') + i) */
  function Letter(i: nat): (l: string)
    requires i < MaxOptions
    ensures |l| == 1 && l[0] as int - 'A' as int == i
  {
    [('A' as int + i) as char]
  }

  /** The letters of the five options of the easy variant are its five answers. */
  lemma LettersOfFive(i: nat)
    requires i < 5
    ensures Letter(i) == McqaModels.Letters[i] && Letter(i) in McqaModels.Letters
  {
  }

  /** What prepare_options_easy returns: the positive and the negatives shuffled, and the positive's letter. */
  function EasyOptions(row: DataRow, posField: string, negFields: seq<string>, randBelow: RandBelow): (r: (seq<string>, string))
    requires posField in row && forall f <- negFields :: f in row
    requires |negFields| < MaxOptions - 1
    ensures |r.0| == 1 + |negFields| && multiset(r.0) == multiset([row[posField]] + Values(row, negFields))
    ensures |r.1| == 1 && var i := r.1[0] as int - 'A' as int;
            && 0 <= i < |r.0| && r.0[i] == row[posField] && forall k :: 0 <= k < i ==> r.0[k] != row[posField]
  {
    var options := Shuffled([row[posField]] + Values(row, negFields), 1 + |negFields|, randBelow);
    assert row[posField] in multiset(options);
    (options, Letter(FirstIndex(options, row[posField])))
  }

  /**
   * prepare_options_easy: shuffles [positive] + negatives and names the letter of the first
   * option equal to the positive.
   */
  method PrepareOptionsEasy(row: DataRow, posField: string, negFields: seq<string>, randBelow: RandBelow)
    returns (options: seq<string>, correctAnswer: string)
    requires posField in row && forall f <- negFields :: f in row
    requires |negFields| < MaxOptions - 1
    ensures (options, correctAnswer) == EasyOptions(row, posField, negFields, randBelow)
    ensures |negFields| == 4 ==> correctAnswer in McqaModels.Letters
  {
    var positive := row[posField];
    var negatives := Values(row, negFields);
    options := ShuffledCopy([positive] + negatives, randBelow);
    assert positive in multiset(options);
    correctAnswer := Letter(FirstIndex(options, positive));
    if |negFields| == 4 {
      LettersOfFive(FirstIndex(options, positive));
    }
  }

  /** What prepare_options_hard returns: the negatives shuffled, and always E ("none of the above"). */
  function HardOptions(row: DataRow, negFields: seq<string>, randBelow: RandBelow): (r: (seq<string>, string))
    requires forall f <- negFields :: f in row
    ensures |r.0| == |negFields| && multiset(r.0) == multiset(Values(row, negFields))
    ensures r.1 == "E"
  {
    (Shuffled(Values(row, negFields), |negFields|, randBelow), "E")
  }

  /** prepare_options_hard: the shuffled negatives, the answer being E. */
  method PrepareOptionsHard(row: DataRow, negFields: seq<string>, randBelow: RandBelow)
    returns (options: seq<string>, correctAnswer: string)
    requires forall f <- negFields :: f in row
    ensures (options, correctAnswer) == HardOptions(row, negFields, randBelow)
  {
    options := ShuffledCopy(Values(row, negFields), randBelow);
    correctAnswer := "E";
  }

  /** With four negatives the hard answer E names none of the four options. */
  lemma HardAnswerBeyondOptions(row: DataRow, negFields: seq<string>, randBelow: RandBelow)
    requires forall f <- negFields :: f in row
    requires |negFields| == 4
    ensures var (options, answer) := HardOptions(row, negFields, randBelow);
            answer in McqaModels.Letters && answer[0] as int - 'A' as int == |options|
  {
  }

  // ----- the rows -----

  /** The line save_result_easy writes: id, text, the five options, truth, prediction; text and options sanitised. */
  function EasyRow(dataId: string, text: string, options: seq<string>, answer: string, prediction: string): (fields: seq<string>)
    requires |options| >= 5
    ensures |fields| == 9 && fields[0] == dataId && fields[7] == answer && fields[8] == prediction
    ensures forall i :: 1 <= i < 7 ==> IsClean(fields[i])
    ensures fields[1] == Sanitize(text) && forall i :: 0 <= i < 5 ==> fields[2 + i] == Sanitize(options[i])
  {
    [dataId, Sanitize(text),
     Sanitize(options[0]), Sanitize(options[1]), Sanitize(options[2]), Sanitize(options[3]), Sanitize(options[4]),
     answer, prediction]
  }

  /** The line save_result_hard writes: id, text, the four options, truth, prediction. */
  function HardRow(dataId: string, text: string, options: seq<string>, answer: string, prediction: string): (fields: seq<string>)
    requires |options| >= 4
    ensures |fields| == 8 && fields[0] == dataId && fields[6] == answer && fields[7] == prediction
    ensures forall i :: 1 <= i < 6 ==> IsClean(fields[i])
    ensures fields[1] == Sanitize(text) && forall i :: 0 <= i < 4 ==> fields[2 + i] == Sanitize(options[i])
  {
    [dataId, Sanitize(text),
     Sanitize(options[0]), Sanitize(options[1]), Sanitize(options[2]), Sanitize(options[3]),
     answer, prediction]
  }

  /** save_result_easy: one row appended to the results file, which is created when missing. */
  method SaveResultEasy(file: TextFile, dataId: string, text: string, options: seq<string>, answer: string, prediction: string)
    requires |options| >= 5
    modifies file
    ensures file.content == Some(Contents(old(file.content)) + Row(EasyRow(dataId, text, options, answer, prediction)))
  {
    file.Append(Row(EasyRow(dataId, text, options, answer, prediction)));
  }

  /** save_result_hard: one row appended to the results file, which is created when missing. */
  method SaveResultHard(file: TextFile, dataId: string, text: string, options: seq<string>, answer: string, prediction: string)
    requires |options| >= 4
    modifies file
    ensures file.content == Some(Contents(old(file.content)) + Row(HardRow(dataId, text, options, answer, prediction)))
  {
    file.Append(Row(HardRow(dataId, text, options, answer, prediction)));
  }

  /** Every option letter is clean and has no whitespace at its ends. */
  lemma LettersAreKeys()
    ensures forall l <- McqaModels.Letters :: IsKey(l)
  {
  }

  /**
   * An easy row with a key as id and letters as truth and prediction is read back whole:
   * it records its id, and the metrics take (answer, prediction) from it at eight fields.
   */
  lemma EasyRowReadable(dataId: string, text: string, options: seq<string>, answer: string, prediction: string)
    requires |options| >= 5
    requires IsKey(dataId) && answer in McqaModels.Letters && prediction in McqaModels.Letters
    ensures var fields := EasyRow(dataId, text, options, answer, prediction);
            Keyed(fields) && Readable(fields, 8) && LastTwo(fields) == (answer, prediction)
  {
    LettersAreKeys();
  }

  /** The same for a hard row, which has exactly the eight fields the metrics ask for. */
  lemma HardRowReadable(dataId: string, text: string, options: seq<string>, answer: string, prediction: string)
    requires |options| >= 4
    requires IsKey(dataId) && answer in McqaModels.Letters && prediction in McqaModels.Letters
    ensures var fields := HardRow(dataId, text, options, answer, prediction);
            Keyed(fields) && Readable(fields, 8) && LastTwo(fields) == (answer, prediction)
  {
    LettersAreKeys();
  }
}
