/**
  The request counter that guards the OpenAI calls: the module-level
  `RATE_LIMIT` record, the `checkRateLimit` wait before every call, and the
  counting done after a successful embedding or chat completion.
 */
module OpenAiRateLimit {
  import opened Wrappers
  import opened ChatTypes

  /** The `RATE_LIMIT` record. Tokens are fractional because the chat estimate divides by four. */
  datatype RateLimit = RateLimit(
    requestsPerMinute: int,
    tokensPerMinute: int,
    currentRequests: int,
    currentTokens: real,
    lastReset: int)

  /** Length of the counting window, in milliseconds. */
  const Window: int := 60000
  /** Extra wait added after the end of the window. */
  const Buffer: int := 1000
  /** The wait starts this many requests before `requestsPerMinute`. */
  const Headroom: int := 5

  /** The record as the module is loaded at time `now`. */
  function Initial(now: int): (r: RateLimit)
    ensures Valid(r) && r.currentRequests == 0 && r.currentTokens == 0.0 && r.lastReset == now
  {
    RateLimit(50, 40000, 0, 0.0, now)
  }

  /** The limits never change and the counters never go negative. */
  predicate Valid(st: RateLimit) {
    st.requestsPerMinute == 50 && st.tokensPerMinute == 40000
    && st.currentRequests >= 0 && st.currentTokens >= 0.0
  }

  // ---------------------------------------------------------------------------
  // checkRateLimit

  /** The record after the check, and the wait it sleeps, if any. */
  datatype Check = Check(state: RateLimit, wait: Option<int>)

  /**
    `checkRateLimit` at time `now`: the counters start over once a full
    window has passed since the last reset; then, when the request count is
    within `Headroom` of the limit, the caller waits until one second past
    the end of the window. Waiting changes nothing, and the token estimate
    passed in is never looked at.
   */
  function CheckRateLimit(st: RateLimit, now: int): (c: Check)
    requires Valid(st)
    ensures Valid(c.state)
    ensures c.state.lastReset == now || c.state.lastReset == st.lastReset
    ensures c.state.lastReset >= st.lastReset
    ensures c.state.currentRequests <= st.currentRequests
    ensures c.wait.Some? <==> now - st.lastReset < Window && st.currentRequests >= st.requestsPerMinute - Headroom
    ensures c.wait.Some? ==> c.state == st
    ensures c.wait.Some? && now >= st.lastReset ==> Buffer < c.wait.value <= Window + Buffer
  {
    var timeSinceReset := now - st.lastReset;
    var st' := if timeSinceReset >= Window
      then st.(currentRequests := 0, currentTokens := 0.0, lastReset := now)
      else st;
    var wait := if st'.currentRequests >= st'.requestsPerMinute - Headroom
      then Some(Window - timeSinceReset + Buffer)
      else None;
    Check(st', wait)
  }

  /** Checking twice at the same moment is checking once. */
  lemma CheckRateLimitIdempotent(st: RateLimit, now: int)
    requires Valid(st)
    ensures CheckRateLimit(CheckRateLimit(st, now).state, now) == CheckRateLimit(st, now)
  {
  }

  /** The token count never decides a wait: `tokensPerMinute` is not enforced. */
  lemma WaitIgnoresTokens(st: RateLimit, now: int, tokens: real)
    requires Valid(st) && tokens >= 0.0
    ensures CheckRateLimit(st.(currentTokens := tokens), now).wait == CheckRateLimit(st, now).wait
  {
  }

  // ---------------------------------------------------------------------------
  // Counting successful calls

  /** The outcome of the OpenAI request itself. */
  datatype CallOutcome = Succeeded | Rejected(status: Option<int>)

  /** The estimate `generateEmbedding` passes to the check and adds on success. */
  const EmbeddingTokens: real := 100.0

  /** `generateEmbedding`: check, call, and count one request and 100 tokens when it succeeds. */
  function EmbeddingCall(st: RateLimit, now: int, outcome: CallOutcome): (r: RateLimit)
    requires Valid(st)
    ensures Valid(r)
    ensures var checked := CheckRateLimit(st, now).state;
      && r.lastReset == checked.lastReset
      && (outcome.Succeeded? ==> r.currentRequests == checked.currentRequests + 1
                                 && r.currentTokens == checked.currentTokens + 100.0)
      && (outcome.Rejected? ==> r == checked)
  {
    var checked := CheckRateLimit(st, now).state;
    if outcome.Succeeded? then
      checked.(currentRequests := checked.currentRequests + 1,
               currentTokens := checked.currentTokens + EmbeddingTokens)
    else checked
  }

  /** The total length of the message contents. */
  function TotalLength(messages: seq<Message>): (n: nat)
    ensures messages == [] ==> n == 0
  {
    if messages == [] then 0 else |messages[0].content| + TotalLength(messages[1..])
  }

  /** `messages.reduce((sum, msg) => sum + msg.content.length / 4, 0)`, folded from the left. */
  function EstimatedTokens(messages: seq<Message>): (t: real)
    ensures t >= 0.0
  {
    if messages == [] then 0.0
    else EstimatedTokens(messages[..|messages| - 1]) + (|messages[|messages| - 1].content| as real) / 4.0
  }

  lemma {:induction false} TotalLengthSnoc(messages: seq<Message>, m: Message)
    ensures TotalLength(messages + [m]) == TotalLength(messages) + |m.content|
  {
    if messages != [] {
      assert (messages + [m])[1..] == messages[1..] + [m];
      TotalLengthSnoc(messages[1..], m);
    } else {
      assert (messages + [m])[1..] == [];
    }
  }

  /** The estimate is a quarter of the total content length: one token per four characters. */
  lemma {:induction false} EstimatedTokensQuarter(messages: seq<Message>)
    ensures EstimatedTokens(messages) == (TotalLength(messages) as real) / 4.0
  {
    if messages != [] {
      var init := messages[..|messages| - 1];
      var last := messages[|messages| - 1];
      EstimatedTokensQuarter(init);
      TotalLengthSnoc(init, last);
      assert init + [last] == messages;
    }
  }

  /** `max_tokens` when the caller gives none. */
  const DefaultChatMaxTokens: int := 800

  function ChatSettings(options: Option<Options>): (s: Settings)
    ensures s.maxTokens != 0
    ensures options.None? ==> s == Settings(DefaultTemperature, DefaultChatMaxTokens)
  {
    Configure(options, DefaultChatMaxTokens)
  }

  /** `generateChatCompletion`: check, call, and count one request and the estimate when it succeeds. */
  function ChatCall(st: RateLimit, now: int, messages: seq<Message>, outcome: CallOutcome): (r: RateLimit)
    requires Valid(st)
    ensures Valid(r)
    ensures var checked := CheckRateLimit(st, now).state;
      && r.lastReset == checked.lastReset
      && (outcome.Succeeded? ==> r.currentRequests == checked.currentRequests + 1
                                 && r.currentTokens == checked.currentTokens + (TotalLength(messages) as real) / 4.0)
      && (outcome.Rejected? ==> r == checked)
  {
    EstimatedTokensQuarter(messages);
    var checked := CheckRateLimit(st, now).state;
    if outcome.Succeeded? then
      checked.(currentRequests := checked.currentRequests + 1,
               currentTokens := checked.currentTokens + EstimatedTokens(messages))
    else checked
  }

  // ---------------------------------------------------------------------------
  // A sequence of calls

  /** One guarded call, made at time `at`. */
  datatype Call =
    | Embedding(at: int, outcome: CallOutcome)
    | Chat(at: int, messages: seq<Message>, outcome: CallOutcome)

  function Apply(st: RateLimit, c: Call): (r: RateLimit)
    requires Valid(st)
    ensures Valid(r)
  {
    match c
    case Embedding(at, outcome) => EmbeddingCall(st, at, outcome)
    case Chat(at, messages, outcome) => ChatCall(st, at, messages, outcome)
  }

  function Replay(st: RateLimit, calls: seq<Call>): (r: RateLimit)
    requires Valid(st)
    ensures Valid(r)
    decreases |calls|
  {
    if calls == [] then st else Replay(Apply(st, calls[0]), calls[1..])
  }

  /** The successful calls in a sequence. */
  function Successes(calls: seq<Call>): (n: nat)
    ensures n <= |calls|
  {
    if calls == [] then 0
    else (if calls[0].outcome.Succeeded? then 1 else 0) + Successes(calls[1..])
  }

  /** The tokens a sequence of calls adds when all of them land in one window. */
  function TokensOf(calls: seq<Call>): (t: real)
    ensures t >= 0.0
  {
    if calls == [] then 0.0
    else
      var c := calls[0];
      var own := if !c.outcome.Succeeded? then 0.0
        else if c.Embedding? then EmbeddingTokens
        else (TotalLength(c.messages) as real) / 4.0;
      own + TokensOf(calls[1..])
  }

  predicate WithinWindow(start: int, calls: seq<Call>) {
    forall i :: 0 <= i < |calls| ==> calls[i].at - start < Window
  }

  /**
    While every call falls inside the current window, the record counts
    exactly the successful calls and their estimated tokens, and keeps its
    reset time.
   */
  lemma {:induction false} ReplayWithinWindow(st: RateLimit, calls: seq<Call>)
    requires Valid(st) && WithinWindow(st.lastReset, calls)
    ensures var r := Replay(st, calls);
      && r.lastReset == st.lastReset
      && r.currentRequests == st.currentRequests + Successes(calls)
      && r.currentTokens == st.currentTokens + TokensOf(calls)
    decreases |calls|
  {
    if calls != [] {
      var st1 := Apply(st, calls[0]);
      assert calls[0].at - st.lastReset < Window;
      assert WithinWindow(st1.lastReset, calls[1..]) by {
        forall i | 0 <= i < |calls[1..]|
          ensures calls[1..][i].at - st1.lastReset < Window
        {
          assert calls[1..][i] == calls[i + 1];
        }
      }
      ReplayWithinWindow(st1, calls[1..]);
    }
  }

  /** However the calls fall in time, the request count grows by at most one per call. */
  lemma {:induction false} ReplayRequestsBounded(st: RateLimit, calls: seq<Call>)
    requires Valid(st)
    ensures Replay(st, calls).currentRequests <= st.currentRequests + |calls|
    decreases |calls|
  {
    if calls != [] {
      ReplayRequestsBounded(Apply(st, calls[0]), calls[1..]);
    }
  }
}
