/**
 * Drivelology detection: one retry loop around the backend, which answers with a label and
 * a reason. Only the two labels, exactly as written, are accepted.
 */
module DetectionModels {
  import opened Wrappers
  import opened PyStr
  import opened Retry

  /** The default number of attempts. */
  const MaxRetries := 5

  /** The answers a classification may take, compared case-sensitively and without trimming. */
  const ValidAnswers: seq<string> := ["Drivelology", "non-Drivelology"]

  /** How one attempt ends: the (prediction, reason) pair as returned, or the error it raised. */
  function ClassifyVerdict(reply: Reply<(string, string)>): (r: Result<(string, string)>)
    ensures r.Ok? <==> reply.Returned? && reply.value.0 in ValidAnswers
    ensures r.Ok? ==> r.value == reply.value
    ensures reply.Returned? && r.Err? ==> r.error == "Invalid prediction: " + reply.value.0
    ensures reply.Raised? ==> r == Err(reply.error)
  {
    match reply
    case Raised(e) => Err(e)
    case Returned((prediction, reason)) =>
      if prediction !in ValidAnswers then Err("Invalid prediction: " + prediction) else Ok((prediction, reason))
  }

  function ClassifyVerdicts(llm: Llm<(string, string)>, prompt: string, think: bool): nat -> Result<(string, string)> {
    (k: nat) => ClassifyVerdict(llm(SentPrompt(prompt, think), k))
  }

  /**
   * classify_text: a while loop counting failed attempts; the first valid answer is returned
   * with its reason, and (None, None), here None, once max_retries attempts have failed.
   * The text id only labels the console message, which is not modelled.
   */
  method ClassifyText(llm: Llm<(string, string)>, prompt: string, think: bool, textId: string, maxRetries: int := MaxRetries)
    returns (result: Option<(string, string)>, ghost sent: seq<string>)
    ensures Outcome(result, |sent|) == Run(ClassifyVerdicts(llm, prompt, think), maxRetries)
    ensures sent == Repeat(SentPrompt(prompt, think), |sent|)
    ensures result.Some? ==> result.value.0 in ValidAnswers && llm(SentPrompt(prompt, think), |sent| - 1) == Returned(result.value)
  {
    ghost var v := ClassifyVerdicts(llm, prompt, think);
    sent := [];
    var retryCount := 0;
    while retryCount < maxRetries
      invariant 0 <= retryCount <= Max0(maxRetries)
      invariant |sent| == retryCount
      invariant sent == Repeat(SentPrompt(prompt, think), |sent|)
      invariant Run(v, maxRetries) == RunFrom(v, retryCount, maxRetries)
    {
      var p := SentPrompt(prompt, think);
      var reply := llm(p, retryCount);
      RepeatSnoc(p, |sent|);
      sent := sent + [p];
      var verdict := ClassifyVerdict(reply);
      assert v(retryCount) == verdict;
      if verdict.Ok? {
        result := Some(verdict.value);
        return;
      }
      retryCount := retryCount + 1;
      if retryCount >= maxRetries {
        result := None;
        return;
      }
    }
    result := None;
  }
}
