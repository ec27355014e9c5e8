/**
 * Narrative generation and G-Eval scoring: two retry loops around the backend. A generated
 * narrative is stripped and every run of whitespace in it becomes one space; one that is
 * empty after that counts as a failed attempt. A G-Eval score is taken as the backend gives it.
 */
module NarrativeModels {
  import opened Wrappers
  import opened PyStr
  import opened Retry

  /** The default number of attempts of generate_narrative and evaluate_with_geval. */
  const DefaultRetries := 5

  /**
   * re.sub(r'\s+', ' ', text.strip()): the words of the text (its maximal runs of
   * non-whitespace characters), in order, joined by single spaces.
   */
  function Normalize(s: string): (r: string)
    ensures r == Join(Words(s), ' ')
    ensures r == [] <==> forall i :: 0 <= i < |s| ==> IsSpace(s[i])
    ensures r != [] ==> NoSpaceEnds(r)
    ensures forall i :: 0 <= i < |r| ==> IsSpace(r[i]) ==> r[i] == ' '
    ensures SingleSpaced(r)
  {
    WordsStrip(s);
    CollapseWords(Strip(s));
    WordsEmpty(s);
    JoinWordsShape(Words(s));
    CollapseSpaces(Strip(s))
  }

  /** Normalising twice is normalising once. */
  lemma NormalizeIdempotent(s: string)
    ensures Normalize(Normalize(s)) == Normalize(s)
  {
    WordsOfJoin(Words(s));
  }

  /** A normalised narrative: no outer whitespace, no tab or line break, no two spaces in a row. */
  predicate IsNarrative(s: string) {
    && NoSpaceEnds(s)
    && (forall i :: 0 <= i < |s| ==> s[i] != '\t' && s[i] != '\n' && s[i] != '\r')
    && SingleSpaced(s)
  }

  /** A text with a non-space character normalises to a narrative; an all-space one to nothing. */
  lemma NormalizedNarrative(s: string)
    ensures Normalize(s) != [] <==> exists i :: 0 <= i < |s| && !IsSpace(s[i])
    ensures Normalize(s) != [] ==> IsNarrative(Normalize(s))
  {
    var r := Normalize(s);
    if r != [] {
      forall i | 0 <= i < |r|
        ensures r[i] != '\t' && r[i] != '\n' && r[i] != '\r'
      {
        if IsSpace(r[i]) {
          assert r[i] == ' ';
        }
      }
    }
  }

  /** How one generation attempt ends: the normalised narrative, or the error it raised. */
  function NarrativeVerdict(reply: Reply<string>): (r: Result<string>)
    ensures r.Ok? <==> reply.Returned? && exists i :: 0 <= i < |reply.value| && !IsSpace(reply.value[i])
    ensures r.Ok? ==> r.value == Normalize(reply.value) && IsNarrative(r.value)
    ensures reply.Raised? ==> r == Err(reply.error)
  {
    match reply
    case Raised(e) => Err(e)
    case Returned(text) =>
      var narrative := Normalize(text);
      NormalizedNarrative(text);
      if narrative == [] then Err("Generated narrative is empty.") else Ok(narrative)
  }

  function NarrativeVerdicts(llm: Llm<string>, prompt: string, think: bool): nat -> Result<string> {
    (k: nat) => NarrativeVerdict(llm(SentPrompt(prompt, think), k))
  }

  /** Whatever narrative a generation loop returns is a normalised, non-empty one. */
  lemma GeneratedIsNarrative(llm: Llm<string>, prompt: string, think: bool, n: int)
    requires Run(NarrativeVerdicts(llm, prompt, think), n).result.Some?
    ensures var c := Run(NarrativeVerdicts(llm, prompt, think), n).result.value; c != "" && IsNarrative(c)
  {
    var v := NarrativeVerdicts(llm, prompt, think);
    var k := Run(v, n).calls - 1;
    assert v(k) == NarrativeVerdict(llm(SentPrompt(prompt, think), k));
  }

  /**
   * generate_narrative: at most max_retries calls, each sending the same prompt; the first
   * attempt that yields a non-empty normalised narrative ends the loop with that narrative.
   * `sent` lists the prompts sent, one per call.
   */
  method GenerateNarrative(llm: Llm<string>, prompt: string, think: bool := false, maxRetries: int := DefaultRetries)
    returns (narrative: Option<string>, ghost sent: seq<string>)
    ensures Outcome(narrative, |sent|) == Run(NarrativeVerdicts(llm, prompt, think), maxRetries)
    ensures sent == Repeat(SentPrompt(prompt, think), |sent|)
    ensures narrative.Some? ==> IsNarrative(narrative.value)
  {
    ghost var v := NarrativeVerdicts(llm, prompt, think);
    sent := [];
    var retryCount := 0;
    while retryCount < maxRetries
      invariant 0 <= retryCount <= Max0(maxRetries)
      invariant |sent| == retryCount
      invariant sent == Repeat(SentPrompt(prompt, think), |sent|)
      invariant Run(v, maxRetries) == RunFrom(v, retryCount, maxRetries)
    {
      var p := SentPrompt(prompt, think);
      var reply := llm(p, retryCount);
      RepeatSnoc(p, |sent|);
      sent := sent + [p];
      var verdict := NarrativeVerdict(reply);
      assert v(retryCount) == verdict;
      if verdict.Ok? {
        narrative := Some(verdict.value);
        return;
      }
      if retryCount == maxRetries - 1 {
        narrative := None;
        return;
      }
      retryCount := retryCount + 1;
    }
    narrative := None;
  }

  /** How one G-Eval attempt ends: the score exactly as returned, with no range check. */
  function GevalVerdict(reply: Reply<int>): (r: Result<int>)
    ensures reply.Returned? ==> r == Ok(reply.value)
    ensures reply.Raised? ==> r == Err(reply.error)
  {
    match reply
    case Raised(e) => Err(e)
    case Returned(score) => Ok(score)
  }

  function GevalVerdicts(llm: Llm<int>, prompt: string): nat -> Result<int> {
    (k: nat) => GevalVerdict(llm(prompt, k))
  }

  /**
   * evaluate_with_geval: at most max_retries calls with the prompt as given (no prefix);
   * the first score the backend returns is the result, unchanged.
   */
  method EvaluateWithGeval(llm: Llm<int>, prompt: string, maxRetries: int := DefaultRetries)
    returns (score: Option<int>, ghost calls: nat)
    ensures Outcome(score, calls) == Run(GevalVerdicts(llm, prompt), maxRetries)
    ensures score.Some? ==> calls >= 1 && llm(prompt, calls - 1) == Returned(score.value)
  {
    ghost var v := GevalVerdicts(llm, prompt);
    calls := 0;
    var retryCount := 0;
    while retryCount < maxRetries
      invariant 0 <= retryCount <= Max0(maxRetries)
      invariant calls == retryCount
      invariant Run(v, maxRetries) == RunFrom(v, retryCount, maxRetries)
    {
      var reply := llm(prompt, retryCount);
      calls := calls + 1;
      assert v(retryCount) == GevalVerdict(reply);
      if reply.Returned? {
        score := Some(reply.value);
        return;
      }
      if retryCount == maxRetries - 1 {
        score := None;
        return;
      }
      retryCount := retryCount + 1;
    }
    score := None;
  }
}
