/**
 * The metric readers of the detection, tagging and multiple-choice evaluations: each
 * reads a results file line by line, keeps (items[-2], items[-1]) of every non-blank
 * line that has enough tab-separated fields, and scores the share of agreeing pairs.
 */
module Metrics {
  import opened Wrappers
  import opened PyStr
  import opened PyIO
  import opened RecordStore

  /** (items[-2], items[-1]) of a line, when it is non-blank and has at least minFields fields. */
  function PairOf(line: string, minFields: nat): Option<(string, string)> {
    if IsBlank(line) then None else FieldsPair(Fields(line), minFields)
  }

  /** (items[-2], items[-1]) of the fields of a non-blank line, when there are at least minFields. */
  function FieldsPair(items: seq<string>, minFields: nat): Option<(string, string)> {
    if |items| >= minFields && |items| >= 2 then Some((items[|items| - 2], items[|items| - 1])) else None
  }

  /** The per-line reader of the metrics, as a value. */
  function PairReader(minFields: nat): string -> Option<(string, string)> {
    line => PairOf(line, minFields)
  }

  /** The (truth, prediction) pairs of the qualifying lines, in file order. */
  function Pairs(lines: seq<string>, minFields: nat): seq<(string, string)> {
    Gather(PairReader(minFields), lines)
  }

  /**
   * The line loop of the metric readers: y_true and y_pred gather, in file order, the two
   * values `read` (PairReader(minFields) for every caller) takes from each line it accepts.
   */
  method ExtractPairs<A, B>(read: string -> Option<(A, B)>, lines: seq<string>) returns (yTrue: seq<A>, yPred: seq<B>)
    ensures |yTrue| == |yPred| == |Gather(read, lines)|
    ensures forall i :: 0 <= i < |yTrue| ==> Gather(read, lines)[i] == (yTrue[i], yPred[i])
    ensures Zip(yTrue, yPred) == Gather(read, lines)
  {
    yTrue, yPred := [], [];
    var i := 0;
    while i < |lines|
      invariant 0 <= i <= |lines|
      invariant |yTrue| == |yPred| == |Gather(read, lines[..i])|
      invariant forall k :: 0 <= k < |yTrue| ==> Gather(read, lines[..i])[k] == (yTrue[k], yPred[k])
    {
      GatherSnoc(read, lines, i);
      var p := read(lines[i]);
      if p.Some? {
        yTrue := yTrue + [p.value.0];
        yPred := yPred + [p.value.1];
      }
      i := i + 1;
    }
    assert lines[..i] == lines;
  }

  /** zip(y_true, y_pred) */
  function Zip<A, B>(xs: seq<A>, ys: seq<B>): (ps: seq<(A, B)>)
    requires |xs| == |ys|
    ensures |ps| == |xs| && forall i :: 0 <= i < |xs| ==> ps[i] == (xs[i], ys[i])
  {
    seq(|xs|, i requires 0 <= i < |xs| => (xs[i], ys[i]))
  }

  /** A full row of clean fields contributes the pair of its last two fields. */
  lemma RowPair(fields: seq<string>, minFields: nat)
    requires |fields| >= minFields && |fields| >= 2
    requires forall i :: 0 <= i < |fields| ==> IsClean(fields[i])
    requires fields[0] != [] && !IsSpace(fields[0][0])
    requires var l := fields[|fields| - 1]; l != [] && !IsSpace(l[|l| - 1])
    ensures Pairs(ReadLines(Row(fields)), minFields) == [(fields[|fields| - 2], fields[|fields| - 1])]
  {
    RowRoundTrip(fields);
    OneLinePairs(Row(fields), fields, minFields);
  }

  /** A lone non-blank line with enough fields yields exactly the pair of its last two. */
  lemma OneLinePairs(line: string, fields: seq<string>, minFields: nat)
    requires !IsBlank(line) && Fields(line) == fields
    requires |fields| >= minFields && |fields| >= 2
    ensures Pairs([line], minFields) == [(fields[|fields| - 2], fields[|fields| - 1])]
  {
    PairOfLine(line, fields, minFields);
    assert PairReader(minFields)(line) == PairOf(line, minFields);
    GatherOneSome(PairReader(minFields), line, (fields[|fields| - 2], fields[|fields| - 1]));
  }

  lemma PairOfLine(line: string, fields: seq<string>, minFields: nat)
    requires !IsBlank(line) && Fields(line) == fields
    requires |fields| >= minFields && |fields| >= 2
    ensures PairOf(line, minFields) == Some((fields[|fields| - 2], fields[|fields| - 1]))
  {
  }

  /** How many pairs agree. */
  function Matches(pairs: seq<(string, string)>): (n: nat)
    ensures n <= |pairs|
    ensures n == |pairs| <==> forall i :: 0 <= i < |pairs| ==> pairs[i].0 == pairs[i].1
    ensures n == 0 <==> forall i :: 0 <= i < |pairs| ==> pairs[i].0 != pairs[i].1
  {
    if pairs == [] then 0
    else
      var rest := Matches(pairs[1..]);
      assert forall i :: 1 <= i < |pairs| ==> pairs[i] == pairs[1..][i - 1];
      (if pairs[0].0 == pairs[0].1 then 1 else 0) + rest
  }

  lemma {:induction false} MatchesAppend(a: seq<(string, string)>, b: seq<(string, string)>)
    ensures Matches(a + b) == Matches(a) + Matches(b)
  {
    if a == [] {
      assert a + b == b;
    } else {
      assert (a + b)[1..] == a[1..] + b;
      MatchesAppend(a[1..], b);
    }
  }

  /** accuracy_score: the fraction of pairs that agree; only defined when there is a pair. */
  function Accuracy(pairs: seq<(string, string)>): (a: real)
    requires pairs != []
    ensures 0.0 <= a <= 1.0
    ensures a == 1.0 <==> Matches(pairs) == |pairs|
    ensures a == 0.0 <==> Matches(pairs) == 0
  {
    var m := Matches(pairs);
    Fraction(m, |pairs|);
    m as real / |pairs| as real
  }

  /** The fraction m/n of a count m out of n lies in [0, 1] and hits its ends exactly at m == n and m == 0. */
  lemma Fraction(m: nat, n: nat)
    requires 0 < n && m <= n
    ensures 0.0 <= m as real / n as real <= 1.0
    ensures m as real / n as real == 1.0 <==> m == n
    ensures m as real / n as real == 0.0 <==> m == 0
  {
    var q := m as real / n as real;
    assert q * n as real == m as real;
  }

  /** The two last fields of a row: what the metrics take as (truth, prediction). */
  function LastTwo(fields: seq<string>): (string, string)
    requires |fields| >= 2
  {
    (fields[|fields| - 2], fields[|fields| - 1])
  }

  /**
   * A row every reader reads back field for field: clean fields, at least minFields and at
   * least two of them, no whitespace at the outer ends of the first and the last.
   */
  predicate Readable(fields: seq<string>, minFields: nat) {
    |fields| >= minFields && |fields| >= 2
    && (forall i :: 0 <= i < |fields| ==> IsClean(fields[i]))
    && fields[0] != [] && !IsSpace(fields[0][0])
    && fields[|fields| - 1] != [] && !IsSpace(fields[|fields| - 1][|fields[|fields| - 1]| - 1])
  }

  /** The (truth, prediction) pairs of a list of rows, in order. */
  function RowPairs(rows: seq<seq<string>>): (ps: seq<(string, string)>)
    requires forall i :: 0 <= i < |rows| ==> |rows[i]| >= 2
    ensures |ps| == |rows| && forall i :: 0 <= i < |rows| ==> ps[i] == LastTwo(rows[i])
  {
    seq(|rows|, i requires 0 <= i < |rows| => LastTwo(rows[i]))
  }

  /** One readable row appended after whole lines adds exactly its pair. */
  lemma AppendRowPairs(before: string, fields: seq<string>, minFields: nat)
    requires before == [] || before[|before| - 1] == '\n'
    requires Readable(fields, minFields)
    ensures Pairs(ReadLines(before + Row(fields)), minFields) == Pairs(ReadLines(before), minFields) + [LastTwo(fields)]
  {
    ReadLinesAppend(before, Row(fields));
    GatherAppend(PairReader(minFields), ReadLines(before), ReadLines(Row(fields)));
    RowPair(fields, minFields);
  }

  /**
   * Rows appended to a file that ends a line add, to what a metric reader takes, exactly
   * the last two fields of each row, in order.
   */
  lemma {:induction false} WrittenPairs(content: string, rows: seq<seq<string>>, minFields: nat)
    requires content == [] || content[|content| - 1] == '\n'
    requires forall i :: 0 <= i < |rows| ==> |rows[i]| >= 2 && Readable(rows[i], minFields)
    ensures Pairs(ReadLines(content + Written(rows)), minFields) == Pairs(ReadLines(content), minFields) + RowPairs(rows)
    decreases |rows|
  {
    if rows == [] {
      assert content + Written(rows) == content;
      assert RowPairs(rows) == [];
    } else {
      var init, last := rows[..|rows| - 1], rows[|rows| - 1];
      assert forall i :: 0 <= i < |init| ==> init[i] == rows[i];
      WrittenPairs(content, init, minFields);
      WrittenEndsLine(init);
      var before := content + Written(init);
      AppendAssoc(content, Written(init), Row(last));
      assert Written(rows) == Written(init) + Row(last);
      AppendRowPairs(before, last, minFields);
      PairsSnoc(Pairs(ReadLines(content), minFields), RowPairs(init), LastTwo(last));
      RowPairsSnoc(rows);
    }
  }

  lemma RowPairsSnoc(rows: seq<seq<string>>)
    requires rows != [] && forall i :: 0 <= i < |rows| ==> |rows[i]| >= 2
    ensures RowPairs(rows) == RowPairs(rows[..|rows| - 1]) + [LastTwo(rows[|rows| - 1])]
  {
  }

  lemma PairsSnoc<T>(a: seq<T>, b: seq<T>, x: T)
    ensures (a + b) + [x] == a + (b + [x])
  {
    AppendAssoc(a, b, [x]);
  }

  /** One agreeing pair and one disagreeing pair score 0.5. */
  lemma HalfAgree(agree: (string, string), disagree: (string, string))
    requires agree.0 == agree.1 && disagree.0 != disagree.1
    ensures Accuracy([agree, disagree]) == 0.5
  {
    assert Matches([disagree]) == 0;
    assert Matches([agree, disagree]) == 1 + Matches([disagree]);
  }
}
