/**
 * Multiple-choice answering: the retry loop that asks the backend for an option letter,
 * normalises it (strip, then upper case) and accepts only A to E, logging a final failure.
 */
module McqaModels {
  import opened Wrappers
  import opened PyStr
  import opened PyIO
  import opened Retry

  /** The default number of attempts of generate_prediction. */
  const DefaultRetries := 3

  /** The letters an answer may be. */
  const Letters: seq<string> := ["A", "B", "C", "D", "E"]

  /** answer.strip().upper() */
  function NormalizeAnswer(answer: string): string {
    Upper(Strip(answer))
  }

  /** How one attempt ends: the normalised letter, or the error; an invalid answer is reported normalised. */
  function AnswerVerdict(reply: Reply<string>): (r: Result<string>)
    ensures r.Ok? <==> reply.Returned? && NormalizeAnswer(reply.value) in Letters
    ensures r.Ok? ==> r.value == NormalizeAnswer(reply.value)
    ensures reply.Returned? && r.Err? ==> r.error == "Invalid prediction: " + NormalizeAnswer(reply.value)
    ensures reply.Raised? ==> r == Err(reply.error)
  {
    match reply
    case Raised(e) => Err(e)
    case Returned(answer) =>
      var prediction := NormalizeAnswer(answer);
      if prediction !in Letters then Err("Invalid prediction: " + prediction) else Ok(prediction)
  }

  /**
   * A letter from A to E, in either case and with any whitespace around it, is accepted as
   * the upper-case letter; " b " is read as "B".
   */
  lemma AcceptsPaddedLetter(pre: string, c: char, post: string)
    requires forall i :: 0 <= i < |pre| ==> IsSpace(pre[i])
    requires forall i :: 0 <= i < |post| ==> IsSpace(post[i])
    requires 'a' <= c <= 'e' || 'A' <= c <= 'E'
    ensures AnswerVerdict(Returned(pre + [c] + post)) == Ok([UpperChar(c)])
  {
    var u := UpperChar(c);
    assert NormalizeAnswer(pre + [c] + post) == [u] by {
      assert NoSpaceEnds([c]);
      StripSurrounded(pre, [c], post);
    }
    LetterIsOption(c);
    AcceptsNormalized(pre + [c] + post, [u]);
  }

  /** The upper case of a letter from a to e or A to E is one of the options. */
  lemma LetterIsOption(c: char)
    requires 'a' <= c <= 'e' || 'A' <= c <= 'E'
    ensures [UpperChar(c)] in Letters
  {
    var u := UpperChar(c);
    assert u == 'A' || u == 'B' || u == 'C' || u == 'D' || u == 'E';
  }

  /** An answer that normalises to one of the options is accepted as that option. */
  lemma AcceptsNormalized(answer: string, letter: string)
    requires NormalizeAnswer(answer) == letter && letter in Letters
    ensures AnswerVerdict(Returned(answer)) == Ok(letter)
  {
  }

  function AnswerVerdicts(llm: Llm<string>, prompt: string, think: bool): nat -> Result<string> {
    (k: nat) => AnswerVerdict(llm(SentPrompt(prompt, think), k))
  }

  /**
   * generate_prediction: at most max_retries calls; the first answer that normalises to a
   * letter from A to E is returned normalised. When the last allowed attempt fails, one line
   * "<id>\t<error>\n" is appended to `errorLog`, the file at save_file + ".errors.log".
   */
  method GeneratePrediction(llm: Llm<string>, prompt: string, think: bool, textId: string,
                            errorLog: TextFile, maxRetries: int := DefaultRetries)
    returns (prediction: Option<string>, ghost sent: seq<string>)
    modifies errorLog
    ensures Outcome(prediction, |sent|) == Run(AnswerVerdicts(llm, prompt, think), maxRetries)
    ensures sent == Repeat(SentPrompt(prompt, think), |sent|)
    ensures prediction.Some? ==> prediction.value in Letters
    ensures var line := ErrorLog(textId, AnswerVerdicts(llm, prompt, think), maxRetries);
            errorLog.content == if line == "" then old(errorLog.content) else Some(Contents(old(errorLog.content)) + line)
  {
    ghost var v := AnswerVerdicts(llm, prompt, think);
    sent := [];
    var retryCount := 0;
    while retryCount < maxRetries
      invariant 0 <= retryCount <= Max0(maxRetries)
      invariant |sent| == retryCount
      invariant sent == Repeat(SentPrompt(prompt, think), |sent|)
      invariant Run(v, maxRetries) == RunFrom(v, retryCount, maxRetries)
      invariant maxRetries >= 1 ==> retryCount <= maxRetries - 1
      invariant errorLog.content == old(errorLog.content)
    {
      var p := SentPrompt(prompt, think);
      var reply := llm(p, retryCount);
      RepeatSnoc(p, |sent|);
      sent := sent + [p];
      var verdict := AnswerVerdict(reply);
      assert v(retryCount) == verdict;
      if verdict.Ok? {
        prediction := Some(verdict.value);
        return;
      }
      if retryCount == maxRetries - 1 {
        errorLog.Append(ErrorLine(textId, verdict.error));
        prediction := None;
        return;
      }
      retryCount := retryCount + 1;
    }
    prediction := None;
  }
}
