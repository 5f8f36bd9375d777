/**
  The Gemini wrapper: the prompt built from the chat messages, the
  generation settings, and the retry loop around the model call.
 */
module Gemini {
  import opened Wrappers
  import opened JsString
  import opened ChatTypes

  /** `maxOutputTokens` when the caller gives none. */
  const DefaultMaxOutputTokens: int := 1000

  function GenerationSettings(options: Option<Options>): (s: Settings)
    ensures s.maxTokens != 0
    ensures options.None? ==> s == Settings(DefaultTemperature, DefaultMaxOutputTokens)
  {
    Configure(options, DefaultMaxOutputTokens)
  }

  // ---------------------------------------------------------------------------
  // The prompt

  /** One message as `role: content`. */
  function Render(m: Message): string {
    m.role + ": " + m.content
  }

  const MessageSeparator: string := "\n\n"

  /** The prompt: every message rendered, joined by blank lines. */
  function Prompt(messages: seq<Message>): (p: string) {
    Join(seq(|messages|, i requires 0 <= i < |messages| => Render(messages[i])), MessageSeparator)
  }

  /**
    The prompt of a single message is that message rendered, and the prompt
    of two non-empty conversations is the first prompt, a blank line, and the
    second: together these determine the prompt of every conversation.
   */
  lemma PromptStructure(a: seq<Message>, b: seq<Message>)
    ensures Prompt([]) == []
    ensures |a| == 1 ==> Prompt(a) == a[0].role + ": " + a[0].content
    ensures a != [] && b != [] ==> Prompt(a + b) == Prompt(a) + "\n\n" + Prompt(b)
  {
    if a != [] && b != [] {
      var ra := seq(|a|, i requires 0 <= i < |a| => Render(a[i]));
      var rb := seq(|b|, i requires 0 <= i < |b| => Render(b[i]));
      assert seq(|a + b|, i requires 0 <= i < |a + b| => Render((a + b)[i])) == ra + rb;
      JoinAppend(ra, rb, MessageSeparator);
    }
  }

  // ---------------------------------------------------------------------------
  // The retry loop

  const MaxRetries: int := 3

  /** What one `generateContent` call does: return a text, or throw an error with an optional `status`. */
  datatype Attempt = Generated(text: string) | Failed(status: Option<int>)

  /** The calls made: how many, the back-off delays slept between them, and the last call's outcome. */
  datatype Run = Run(attempts: int, delays: seq<int>, last: Attempt)

  function Pow2(n: nat): (r: nat)
    ensures r >= 1
  {
    if n == 0 then 1 else 2 * Pow2(n - 1)
  }

  /** Only an overload (status 503) is retried. */
  predicate Overloaded(a: Attempt) {
    a.Failed? && a.status == Some(503)
  }

  /**
    The loop of `generateGeminiResponse`, with the outcome of call `k` (from 0)
    given by `attempt(k)`. The run ends with the text of the first call that
    succeeds, or rethrows the error of the first call that is not an overload
    or of the third call. The trailing "unavailable after all retries" throw
    cannot be reached.
   */
  method GenerateWithRetry(attempt: nat -> Attempt) returns (run: Run)
    ensures 1 <= run.attempts <= MaxRetries
    ensures run.last == attempt(run.attempts - 1)
    ensures forall k :: 0 <= k < run.attempts - 1 ==> Overloaded(attempt(k))
    ensures run.last.Generated? || !Overloaded(run.last) || run.attempts == MaxRetries
    ensures run.delays == [2000, 4000][..run.attempts - 1]
    ensures run == RunFrom(attempt, 0)
  {
    var retryCount := 0;
    var delays: seq<int> := [];
    while retryCount < MaxRetries
      invariant 0 <= retryCount < MaxRetries
      invariant forall k :: 0 <= k < retryCount ==> Overloaded(attempt(k))
      invariant delays == [2000, 4000][..retryCount]
      invariant var rest := RunFrom(attempt, retryCount);
        RunFrom(attempt, 0) == Run(rest.attempts, delays + rest.delays, rest.last)
      decreases MaxRetries - retryCount
    {
      var a := attempt(retryCount);
      if a.Generated? {
        return Run(retryCount + 1, delays, a);
      }
      retryCount := retryCount + 1;
      if a.status == Some(503) && retryCount < MaxRetries {
        var delay := Pow2(retryCount) * 1000;
        delays := delays + [delay];
        continue;
      }
      return Run(retryCount, delays, a);
    }
    assert false;
    run := Run(0, [], Failed(None));
  }

  /**
    A reference for the loop: the run that starts at call `k` after the
    overloads before it. `GenerateWithRetry` agrees with it.
   */
  function RunFrom(attempt: nat -> Attempt, k: nat): (run: Run)
    requires k < MaxRetries
    ensures k + 1 <= run.attempts <= MaxRetries
    ensures |run.delays| == run.attempts - 1 - k
    ensures run.last == attempt(run.attempts - 1)
    decreases MaxRetries - k
  {
    if Overloaded(attempt(k)) && k + 1 < MaxRetries then
      var rest := RunFrom(attempt, k + 1);
      Run(rest.attempts, [Pow2(k + 1) * 1000] + rest.delays, rest.last)
    else Run(k + 1, [], attempt(k))
  }
}
