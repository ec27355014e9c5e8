/**
 * The tagging task's evaluation: every row of the results file with at least five fields
 * gives a truth vector and a prediction vector over the five categories, 1 where the
 * category is among the comma-separated labels. Of the scores computed from the vectors
 * only the Hamming loss is modelled.
 */
module TaggingEvaluation {
  import opened Wrappers
  import opened PyStr
  import opened PyIO
  import opened RecordStore
  import opened Metrics
  import opened TaggingModels

  /** The fewest fields a row must have to be evaluated. */
  const MinFields := 5

  /** [1 if cat in labels else 0 for cat in ALL_CATEGORIES], the labels being split on ',', stripped and lower-cased. */
  function Binarize(labels: string): (v: seq<int>)
    ensures |v| == |AllCategories|
    ensures forall i :: 0 <= i < |v| ==> v[i] == 0 || v[i] == 1
    ensures forall i :: 0 <= i < |v| ==> (v[i] == 1 <==> AllCategories[i] in Categories(Split(labels, ',')))
  {
    Indicator(AllCategories, Categories(Split(labels, ',')))
  }

  /** One entry per name: 1 when the name is present, 0 otherwise. */
  function Indicator(names: seq<string>, present: seq<string>): (v: seq<int>)
    ensures |v| == |names|
    ensures forall i :: 0 <= i < |v| ==> v[i] == 0 || v[i] == 1
    ensures forall i :: 0 <= i < |v| ==> (v[i] == 1 <==> names[i] in present)
  {
    Map((c: string) => if c in present then 1 else 0, names)
  }

  /** The two vectors of a (truth, prediction) pair. */
  function BinaryPair(p: (string, string)): (seq<int>, seq<int>) {
    (Binarize(p.0), Binarize(p.1))
  }

  /** The per-line reader of calculate_metrics: the two vectors of a qualifying line. */
  function VectorReader(): string -> Option<(seq<int>, seq<int>)> {
    line => match PairOf(line, MinFields) case None => None case Some(p) => Some(BinaryPair(p))
  }

  /**
   * calculate_metrics: the truth and prediction vectors of the qualifying lines, in file
   * order, or None ("No valid data found for metrics calculation.") when there is none.
   */
  method CalculateMetrics(content: string) returns (r: Option<(seq<seq<int>>, seq<seq<int>>)>)
    ensures r.None? <==> Pairs(ReadLines(content), MinFields) == []
    ensures r.Some? ==> |r.value.0| == |r.value.1| && Zip(r.value.0, r.value.1) == Map(BinaryPair, Pairs(ReadLines(content), MinFields))
  {
    var lines := ReadLines(content);
    var yTrue, yPred := ExtractPairs(VectorReader(), lines);
    VectorsOfPairs(lines);
    if yTrue == [] {
      return None;
    }
    r := Some((yTrue, yPred));
  }

  /** Reading the vectors line by line is binarising the pairs the metric readers keep. */
  lemma VectorsOfPairs(lines: seq<string>)
    ensures Gather(VectorReader(), lines) == Map(BinaryPair, Pairs(lines, MinFields))
  {
    GatherLift(PairReader(MinFields), BinaryPair, VectorReader(), lines);
  }

  /** A reader that maps what another keeps through g keeps the images, in order. */
  lemma {:induction false} GatherLift<T, U>(f: string -> Option<T>, g: T -> U, h: string -> Option<U>, lines: seq<string>)
    requires forall x :: h(x) == if f(x).Some? then Some(g(f(x).value)) else None
    ensures Gather(h, lines) == Map(g, Gather(f, lines))
  {
    if lines != [] {
      GatherLift(f, g, h, lines[1..]);
      assert Listed(h(lines[0])) == Map(g, Listed(f(lines[0])));
      MapAppend(g, Listed(f(lines[0])), Gather(f, lines[1..]));
    }
  }

  lemma MapAppend<T, U>(f: T -> U, a: seq<T>, b: seq<T>)
    ensures Map(f, a + b) == Map(f, a) + Map(f, b)
  {
  }

  /** How many of two vectors' positions differ. */
  function Differing(u: seq<int>, v: seq<int>): (n: nat)
    requires |u| == |v|
    ensures n <= |u|
    ensures n == 0 <==> u == v
  {
    if u == [] then 0
    else (if u[0] != v[0] then 1 else 0) + Differing(u[1..], v[1..])
  }

  /** The differing positions of all rows. */
  function DifferingAll(pairs: seq<(seq<int>, seq<int>)>): (n: nat)
    requires forall i :: 0 <= i < |pairs| ==> |pairs[i].0| == |pairs[i].1| == |AllCategories|
    ensures n <= |pairs| * |AllCategories|
    ensures n == 0 <==> forall i :: 0 <= i < |pairs| ==> pairs[i].0 == pairs[i].1
  {
    if pairs == [] then 0 else Differing(pairs[0].0, pairs[0].1) + DifferingAll(pairs[1..])
  }

  /** hamming_loss: the share of (row, category) positions where truth and prediction differ. */
  function HammingLoss(pairs: seq<(seq<int>, seq<int>)>): (h: real)
    requires pairs != []
    requires forall i :: 0 <= i < |pairs| ==> |pairs[i].0| == |pairs[i].1| == |AllCategories|
    ensures 0.0 <= h <= 1.0
    ensures h == 0.0 <==> forall i :: 0 <= i < |pairs| ==> pairs[i].0 == pairs[i].1
  {
    DifferingAll(pairs) as real / (|pairs| * |AllCategories|) as real
  }

  /**
   * A ground truth written as the driver writes it, ", ".join of known categories, is
   * read back as exactly those categories.
   */
  lemma JoinedCategories(labels: seq<string>)
    requires labels != [] && AllIn(labels, AllCategories)
    ensures Categories(Split(CommaJoin(labels), ',')) == labels
  {
    CategoriesAreLowerWords();
    JoinedWords(labels, AllCategories);
  }

  lemma {:induction false} JoinedWords(labels: seq<string>, names: seq<string>)
    requires LowerWords(names)
    requires labels != [] && AllIn(labels, names)
    ensures Categories(Split(CommaJoin(labels), ',')) == labels
    decreases |labels|
  {
    var head := labels[0];
    assert head in names;
    if |labels| == 1 {
      LowerWordCategory(head);
      assert Split(head, ',') == [head];
    } else {
      assert AllIn(labels[1..], names) by {
        forall x <- labels[1..] ensures x in names {
          assert x in labels;
        }
      }
      JoinedWords(labels[1..], names);
      JoinedStep(head, CommaJoin(labels[1..]), labels[1..]);
      assert [head] + labels[1..] == labels;
    }
  }

  /** A word put before a joined list, with ", ", reads back as that word before the list's categories. */
  lemma JoinedStep(head: string, rest: string, tail: seq<string>)
    requires IsLowerWord(head) && Categories(Split(rest, ',')) == tail
    ensures Categories(Split(head + ", " + rest, ',')) == [head] + tail
  {
    LowerWordCategory(head);
    SplitAfterWord(head, rest);
    var a := Split(" " + rest, ',');
    var b := Split(rest, ',');
    SpacePrefixSplit(rest);
    LeadingSpaceStrip(b[0]);
    MapSameTail(Category, a, b);
    CategoriesCons(head, a);
  }

  /** The truth vector of such a ground truth has a 1 exactly at the categories it names. */
  lemma BinarizeJoined(labels: seq<string>)
    requires labels != [] && AllIn(labels, AllCategories)
    ensures forall i :: 0 <= i < |AllCategories| ==> (Binarize(CommaJoin(labels))[i] == 1 <==> AllCategories[i] in labels)
  {
    JoinedCategories(labels);
  }

  /** A prediction that names the same categories in another case and order scores no loss. */
  lemma SameCategoriesNoLoss(truth: string, prediction: string)
    requires forall c <- AllCategories :: c in Categories(Split(truth, ',')) <==> c in Categories(Split(prediction, ','))
    ensures HammingLoss([BinaryPair((truth, prediction))]) == 0.0
  {
    var u, v := Binarize(truth), Binarize(prediction);
    assert forall i :: 0 <= i < |u| ==> u[i] == v[i];
  }
}
