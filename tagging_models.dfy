/**
 * Multi-label tagging: the category list, the validator of a comma-separated answer, and the
 * retry loop that asks the backend for (answer, reason) and logs a final failure.
 */
module TaggingModels {
  import opened Wrappers
  import opened PyStr
  import opened PyIO
  import opened Retry

  /** ALL_CATEGORIES, in this order. */
  const AllCategories: seq<string> := ["inversion", "misdirection", "paradox", "switchbait", "wordplay"]

  /** The default number of attempts of generate_prediction. */
  const DefaultRetries := 3

  /** pred.strip().lower() */
  function Category(piece: string): string {
    Lower(Strip(piece))
  }

  /** Every comma-separated piece, stripped and lower-cased, is one of the names. */
  predicate ValidAgainst(prediction: string, names: seq<string>) {
    AllIn(Categories(Split(prediction, ',')), names)
  }

  /** [pred.strip().lower() for pred in pieces] */
  function Categories(pieces: seq<string>): (cs: seq<string>)
    ensures |cs| == |pieces| && forall i :: 0 <= i < |pieces| ==> cs[i] == Category(pieces[i])
  {
    Map(Category, pieces)
  }

  /** [f(x) for x in xs] */
  function Map<T, U>(f: T -> U, xs: seq<T>): (ys: seq<U>)
    ensures |ys| == |xs| && forall i :: 0 <= i < |xs| ==> ys[i] == f(xs[i])
  {
    seq(|xs|, i requires 0 <= i < |xs| => f(xs[i]))
  }

  /** Lists that differ only in their heads, where f agrees, map to the same list. */
  lemma MapSameTail<T, U>(f: T -> U, a: seq<T>, b: seq<T>)
    requires |a| == |b| >= 1 && a[1..] == b[1..] && f(a[0]) == f(b[0])
    ensures Map(f, a) == Map(f, b)
  {
    forall j | 1 <= j < |a|
      ensures a[j] == b[j]
    {
      assert a[j] == a[1..][j - 1];
    }
  }

  lemma MapCons<T, U>(f: T -> U, h: T, t: seq<T>)
    ensures Map(f, [h] + t) == [f(h)] + Map(f, t)
  {
    var ys := Map(f, [h] + t);
    forall i | 1 <= i < |ys|
      ensures ys[i] == Map(f, t)[i - 1]
    {
      assert ([h] + t)[i] == t[i - 1];
    }
  }

  predicate AllIn<T(==)>(xs: seq<T>, names: seq<T>) {
    forall x <- xs :: x in names
  }

  lemma AllNamedCons(h: string, t: seq<string>, names: seq<string>)
    requires Category(h) in names && AllIn(Categories(t), names)
    ensures AllIn(Categories([h] + t), names)
  {
    CategoriesCons(h, t);
    AllInCons(Category(h), Categories(t), names);
  }

  lemma AllInCons<T>(x: T, xs: seq<T>, names: seq<T>)
    requires x in names && AllIn(xs, names)
    ensures AllIn([x] + xs, names)
  {
  }

  lemma CategoriesCons(h: string, t: seq<string>)
    ensures Categories([h] + t) == [Category(h)] + Categories(t)
  {
    MapCons(Category, h, t);
  }

  /** One piece that is not a name is enough to fail. */
  lemma NotAllNamed(pieces: seq<string>, i: nat, names: seq<string>)
    requires i < |pieces| && Category(pieces[i]) !in names
    ensures !AllIn(Categories(pieces), names)
  {
    assert Categories(pieces)[i] in Categories(pieces);
  }

  lemma AllNamedOne(h: string, names: seq<string>)
    requires Category(h) in names
    ensures AllIn(Categories([h]), names)
  {
    assert Categories([h]) == [Category(h)];
  }

  /** validate_prediction */
  predicate ValidatePrediction(prediction: string) {
    ValidAgainst(prediction, AllCategories)
  }

  /** Lower-case ASCII letters only, as every category name is. */
  predicate IsLowerWord(s: string) {
    s != [] && forall i :: 0 <= i < |s| ==> 'a' <= s[i] <= 'z'
  }

  /** Every name is a lower-case word. */
  predicate LowerWords(names: seq<string>) {
    forall c <- names :: IsLowerWord(c)
  }

  lemma CategoriesAreLowerWords()
    ensures LowerWords(AllCategories)
  {
  }

  /** A lower-case word holds no comma and is its own category. */
  lemma LowerWordCategory(s: string)
    requires IsLowerWord(s)
    ensures ',' !in s && Category(s) == s
  {
    assert NoSpaceEnds(s);
    assert Lower(s) == s;
  }

  /** A name, then a comma, a space and a name in upper case passes: case and outer spaces do not matter. */
  lemma AcceptsMixedCase(a: string, b: string, names: seq<string>)
    requires a in names && b in names
    requires LowerWords(names)
    ensures ValidAgainst(a + ", " + Upper(b), names)
  {
    LowerWordCategory(a);
    UpperCategory(b);
    SplitAfterWord(a, Upper(b));
    var last := " " + Upper(b);
    assert Split(last, ',') == [last];
    AllNamedOne(last, names);
    AllNamedCons(a, [last], names);
  }

  /** The first piece of "<word>, <rest>" is the word; the others are those of " <rest>". */
  lemma SplitAfterWord(a: string, rest: string)
    requires ',' !in a
    ensures Split(a + ", " + rest, ',') == [a] + Split(" " + rest, ',')
  {
    var s := a + ", " + rest;
    assert s[..|a|] == a;
    SplitAt(s, ',', |a|);
    assert s[|a| + 1..] == " " + rest;
  }

  /** A lower-case word written in upper case after a space is still that word's category. */
  lemma UpperCategory(b: string)
    requires IsLowerWord(b)
    ensures ',' !in " " + Upper(b) && Category(" " + Upper(b)) == b
  {
    LowerUpper(b);
    SpacedUpperWord(Upper(b));
  }

  /** An upper-case word after a space: no comma, and strip() gives the word back. */
  lemma SpacedUpperWord(u: string)
    requires u != [] && forall c <- u :: 'A' <= c <= 'Z'
    ensures ',' !in " " + u && Strip(" " + u) == u
  {
    assert u[0] in u && u[|u| - 1] in u;
    assert NoSpaceEnds(u);
    LeadingSpaceStrip(u);
  }

  /** A single lower-case word that is not a category fails, "invention" for one. */
  lemma RejectsUnknown(w: string)
    requires IsLowerWord(w) && w !in AllCategories
    ensures !ValidatePrediction(w)
  {
    LowerWordCategory(w);
    assert Split(w, ',') == [w];
    NotAllNamed([w], 0, AllCategories);
  }

  /** The empty answer fails: its one piece is empty. */
  lemma RejectsEmpty()
    ensures !ValidatePrediction("")
  {
    assert Split("", ',') == [""];
    EmptyCategory();
    EmptyNotCategory();
    NotAllNamed([""], 0, AllCategories);
  }

  /** An answer ending with a comma, "paradox," for one, fails: its last piece is empty. */
  lemma RejectsTrailingComma(p: string)
    requires p != [] && p[|p| - 1] == ','
    ensures !ValidatePrediction(p)
  {
    var parts := Split(p, ',');
    SplitLast(p, ',');
    LastSegmentAfterSep(p, ',');
    assert parts[|parts| - 1] == [];
    EmptyCategory();
    EmptyNotCategory();
    NotAllNamed(parts, |parts| - 1, AllCategories);
  }

  lemma EmptyCategory()
    ensures Category([]) == []
  {
    assert Strip([]) == [];
  }

  lemma EmptyNotCategory()
    ensures [] !in AllCategories
  {
    assert forall i :: 0 <= i < |AllCategories| ==> |AllCategories[i]| > 0;
  }

  /** ", ".join(labels): the ground truth the tagging driver writes. */
  function CommaJoin(labels: seq<string>): string {
    if labels == [] then "" else if |labels| == 1 then labels[0] else labels[0] + ", " + CommaJoin(labels[1..])
  }

  /** Any non-empty list of names, joined the way the tagging driver joins them, passes. */
  lemma {:induction false} CommaJoinValid(labels: seq<string>, names: seq<string>)
    requires labels != [] && forall i :: 0 <= i < |labels| ==> labels[i] in names
    requires LowerWords(names)
    ensures ValidAgainst(CommaJoin(labels), names)
    decreases |labels|
  {
    var head := labels[0];
    LowerWordCategory(head);
    if |labels| == 1 {
      assert Split(head, ',') == [head];
      AllNamedOne(head, names);
    } else {
      var rest := CommaJoin(labels[1..]);
      CommaJoinValid(labels[1..], names);
      SplitAfterWord(head, rest);
      SpacePrefixValid(rest, names);
      AllNamedCons(head, Split(" " + rest, ','), names);
    }
  }

  /** The ground truth the tagging driver writes for a non-empty list of categories passes the validator. */
  lemma CommaJoinValidates(labels: seq<string>)
    requires labels != [] && AllIn(labels, AllCategories)
    ensures ValidatePrediction(CommaJoin(labels))
  {
    CategoriesAreLowerWords();
    assert forall i :: 0 <= i < |labels| ==> labels[i] in AllCategories;
    CommaJoinValid(labels, AllCategories);
  }

  /** A leading space changes no piece's category, so the answer stays valid. */
  lemma SpacePrefixValid(rest: string, names: seq<string>)
    requires ValidAgainst(rest, names)
    ensures ValidAgainst(" " + rest, names)
  {
    var a := Split(" " + rest, ',');
    var b := Split(rest, ',');
    SpacePrefixSplit(rest);
    LeadingSpaceStrip(b[0]);
    MapSameTail(Category, a, b);
  }

  /** A leading space stays in the first piece; the other pieces are those of the text without it. */
  lemma SpacePrefixSplit(rest: string)
    ensures var a := Split(" " + rest, ','); var b := Split(rest, ',');
            |a| == |b| && a[0] == " " + b[0] && a[1..] == b[1..]
  {
    var s := " " + rest;
    if ',' in rest {
      var k := IndexOf(rest, ',');
      SplitAt(rest, ',', k);
      assert s[1 + k] == ',' && s[..1 + k] == " " + rest[..k];
      SplitAt(s, ',', 1 + k);
      assert s[1 + k + 1..] == rest[k + 1..];
    } else {
      assert ',' !in s;
    }
  }

  lemma LeadingSpaceStrip(s: string)
    ensures Strip(" " + s) == Strip(s)
  {
    var t := " " + s;
    var r := RStrip(t);
    if RStrip(s) == [] {
      assert forall i :: 0 <= i < |t| ==> IsSpace(t[i]) by {
        forall i | 0 <= i < |t| ensures IsSpace(t[i]) {
          if i > 0 { assert t[i] == s[i - 1]; }
        }
      }
    } else {
      assert r == " " + RStrip(s) by {
        RStripPrefix(s);
      }
      assert LStrip(r) == LStrip(RStrip(s)) by {
        assert r[1..] == RStrip(s);
      }
    }
  }

  lemma {:induction false} RStripPrefix(s: string)
    requires RStrip(s) != []
    ensures RStrip(" " + s) == " " + RStrip(s)
    decreases |s|
  {
    var t := " " + s;
    if IsSpace(s[|s| - 1]) {
      assert t[..|t| - 1] == " " + s[..|s| - 1];
      RStripPrefix(s[..|s| - 1]);
    }
  }

  /** How one tagging attempt ends: the raw (answer, reason) pair, or the error it raised. */
  function TaggingVerdict(reply: Reply<(string, string)>): (r: Result<(string, string)>)
    ensures r.Ok? <==> reply.Returned? && ValidatePrediction(reply.value.0)
    ensures r.Ok? ==> r.value == reply.value
    ensures reply.Returned? && r.Err? ==> r.error == "Invalid prediction: " + reply.value.0
    ensures reply.Raised? ==> r == Err(reply.error)
  {
    match reply
    case Raised(e) => Err(e)
    case Returned((prediction, reason)) =>
      if !ValidatePrediction(prediction) then Err("Invalid prediction: " + prediction) else Ok((prediction, reason))
  }

  function TaggingVerdicts(llm: Llm<(string, string)>, prompt: string, think: bool): nat -> Result<(string, string)> {
    (k: nat) => TaggingVerdict(llm(SentPrompt(prompt, think), k))
  }

  /**
   * generate_prediction: at most max_retries calls; the first valid answer is returned raw,
   * with its reason. When the last allowed attempt fails, one line "<id>\t<error>\n" is
   * appended to `errorLog`, the file at save_file + ".errors.log"; nothing is logged otherwise.
   */
  method GeneratePrediction(llm: Llm<(string, string)>, prompt: string, think: bool, textId: string,
                            errorLog: TextFile, maxRetries: int := DefaultRetries)
    returns (result: Option<(string, string)>, ghost sent: seq<string>)
    modifies errorLog
    ensures Outcome(result, |sent|) == Run(TaggingVerdicts(llm, prompt, think), maxRetries)
    ensures sent == Repeat(SentPrompt(prompt, think), |sent|)
    ensures result.Some? ==> ValidatePrediction(result.value.0)
    ensures var line := ErrorLog(textId, TaggingVerdicts(llm, prompt, think), maxRetries);
            errorLog.content == if line == "" then old(errorLog.content) else Some(Contents(old(errorLog.content)) + line)
  {
    ghost var v := TaggingVerdicts(llm, prompt, think);
    sent := [];
    var retryCount := 0;
    while retryCount < maxRetries
      invariant 0 <= retryCount <= Max0(maxRetries)
      invariant |sent| == retryCount
      invariant sent == Repeat(SentPrompt(prompt, think), |sent|)
      invariant Run(v, maxRetries) == RunFrom(v, retryCount, maxRetries)
      invariant maxRetries >= 1 ==> retryCount <= maxRetries - 1
      invariant errorLog.content == old(errorLog.content)
    {
      var p := SentPrompt(prompt, think);
      var reply := llm(p, retryCount);
      RepeatSnoc(p, |sent|);
      sent := sent + [p];
      var verdict := TaggingVerdict(reply);
      assert v(retryCount) == verdict;
      if verdict.Ok? {
        result := Some(verdict.value);
        return;
      }
      if retryCount == maxRetries - 1 {
        errorLog.Append(ErrorLine(textId, verdict.error));
        result := None;
        return;
      }
      retryCount := retryCount + 1;
    }
    result := None;
  }
}
