/**
 * The bounded retry loops that wrap every call of the language model. The backend is a
 * function from the prompt sent and the attempt number to what that call does: raise an
 * error or return a parsed response. Each task turns a reply into a verdict (an accepted
 * value or the error the attempt ends with); `Run` is what every retry loop computes from
 * the verdicts of attempts 0, 1, ...: the first accepted value, and how many calls it took.
 */
module Retry {
  import opened Wrappers

  /** One call of the backend: it raised (with the exception's text) or returned a response. */
  datatype Reply<+T> = Raised(error: string) | Returned(value: T)

  /** The backend: its reply to a prompt on the k-th attempt, counting from 0. */
  type Llm<T> = (string, nat) -> Reply<T>

  /** The prompt the drivers send: thinking is switched off by a prefix unless it is asked for. */
  function SentPrompt(prompt: string, think: bool): string {
    if think then prompt else "/set nothink " + prompt
  }

  /** The value a retry loop returns (None when every attempt failed) and how many calls it made. */
  datatype Outcome<+U> = Outcome(result: Option<U>, calls: nat)

  /** How many attempts range(n) allows. */
  function Max0(n: int): nat {
    if n < 0 then 0 else n
  }

  /** The attempts k, k + 1, ..., n - 1 in turn, stopping at the first accepted one. */
  function RunFrom<U>(v: nat -> Result<U>, k: nat, n: int): (o: Outcome<U>)
    requires k <= Max0(n)
    ensures k <= o.calls <= Max0(n)
    ensures o.result.Some? ==> o.calls > k && v(o.calls - 1) == Ok(o.result.value)
    decreases Max0(n) - k
  {
    if k == Max0(n) then Outcome(None, k)
    else if v(k).Ok? then Outcome(Some(v(k).value), k + 1)
    else RunFrom(v, k + 1, n)
  }

  /**
   * A retry loop allowing n attempts: at most max(n, 0) calls, and a returned value is
   * always the accepted value of the last call made.
   */
  function Run<U>(v: nat -> Result<U>, n: int): (o: Outcome<U>)
    ensures o.calls <= Max0(n)
    ensures o.result.Some? ==> o.calls >= 1 && v(o.calls - 1) == Ok(o.result.value)
    ensures n <= 0 ==> o == Outcome(None, 0)
  {
    RunFrom(v, 0, n)
  }

  lemma {:induction false} RunFromFirstSuccess<U>(v: nat -> Result<U>, j: nat, n: int, k: nat)
    requires j <= k < n && v(k).Ok?
    requires forall i :: j <= i < k ==> v(i).Err?
    ensures RunFrom(v, j, n) == Outcome(Some(v(k).value), k + 1)
    decreases k - j
  {
    if j < k {
      RunFromFirstSuccess(v, j + 1, n, k);
    }
  }

  /** When attempt k is the first accepted one, the loop returns its value after exactly k + 1 calls. */
  lemma RunFirstSuccess<U>(v: nat -> Result<U>, n: int, k: nat)
    requires k < n && v(k).Ok?
    requires forall i :: 0 <= i < k ==> v(i).Err?
    ensures Run(v, n) == Outcome(Some(v(k).value), k + 1)
  {
    RunFromFirstSuccess(v, 0, n, k);
  }

  lemma {:induction false} RunFromAllFail<U>(v: nat -> Result<U>, j: nat, n: int)
    requires j <= Max0(n)
    ensures RunFrom(v, j, n).result.None? <==> forall i :: j <= i < Max0(n) ==> v(i).Err?
    ensures RunFrom(v, j, n).result.None? ==> RunFrom(v, j, n).calls == Max0(n)
    ensures RunFrom(v, j, n).result.Some? ==> forall i :: j <= i < RunFrom(v, j, n).calls - 1 ==> v(i).Err?
    decreases Max0(n) - j
  {
    if j < Max0(n) {
      RunFromAllFail(v, j + 1, n);
    }
  }

  /**
   * The loop gives up exactly when all max(n, 0) attempts failed, and then it has made
   * every one of those calls; when it returns a value, every earlier attempt failed.
   */
  lemma RunAllFail<U>(v: nat -> Result<U>, n: int)
    ensures Run(v, n).result.None? <==> forall i :: 0 <= i < Max0(n) ==> v(i).Err?
    ensures Run(v, n).result.None? ==> Run(v, n).calls == Max0(n)
    ensures Run(v, n).result.Some? ==> forall i :: 0 <= i < Run(v, n).calls - 1 ==> v(i).Err?
  {
    RunFromAllFail(v, 0, n);
  }

  /** The line the tagging and multiple-choice loops add to their error log: "<id>\t<error>\n". */
  function ErrorLine(id: string, error: string): string {
    id + "\t" + error + "\n"
  }

  /**
   * What the error log gains from one retry loop: one line with the error of the last
   * attempt, when there was at least one attempt and all of them failed; nothing otherwise.
   */
  function ErrorLog<U>(id: string, v: nat -> Result<U>, n: int): (s: string)
    ensures Run(v, n).result.Some? || n <= 0 ==> s == ""
    ensures n >= 1 && Run(v, n).result.None? ==> v(n - 1).Err? && s == ErrorLine(id, v(n - 1).error)
  {
    RunAllFail(v, n);
    if n >= 1 && Run(v, n).result.None? then ErrorLine(id, v(n - 1).error) else ""
  }
}
