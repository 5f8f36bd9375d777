/**
  The Discord bot's decisions about incoming messages and slash commands:
  which messages it answers, how a message becomes a query, which replies
  it gives for failed API calls, and the queries `/markets` sends.
 */
module BotCommands {
  import opened Wrappers
  import opened JsString
  import opened Numerals

  const Prefix: string := "!xo"

  /** The prefix test `content.toLowerCase().startsWith('!xo')`. */
  predicate HasPrefix(content: string) {
    StartsWith(ToLower(content), Prefix)
  }

  lemma HasPrefixIff(content: string)
    ensures HasPrefix(content) <==>
      && |content| >= 3 && content[0] == '!'
      && (content[1] == 'x' || content[1] == 'X')
      && (content[2] == 'o' || content[2] == 'O')
  {
    if |content| >= 3 {
      assert ToLower(content)[..3] == [LowerChar(content[0]), LowerChar(content[1]), LowerChar(content[2])];
    }
  }

  /**
    The `MessageCreate` listener: a message reaches `handleMessage` when it is
    not from a bot and is a direct message, mentions the bot, or starts with
    `!xo` in any letter case.
   */
  function Triggers(fromBot: bool, isDirect: bool, mentionsBot: bool, content: string): (r: bool)
    ensures r == (!fromBot && (isDirect || mentionsBot ||
      (|content| >= 3 && content[0] == '!' && content[1] in "xX" && content[2] in "oO")))
  {
    HasPrefixIff(content);
    !fromBot && (isDirect || mentionsBot || HasPrefix(content))
  }

  /**
    The query `handleMessage` works with: the first `<@botId>` removed and the
    rest trimmed when the bot is mentioned, then a leading `!xo` (any case)
    cut off and the rest trimmed.
   */
  function NormalizeQuery(content: string, mentionsBot: bool, botId: string): string {
    var q := if mentionsBot then Trim(ReplaceFirst(content, "<@" + botId + ">", "")) else content;
    if HasPrefix(q) then Trim(q[3..]) else q
  }

  datatype Route = Help | Status | Ask(query: string)

  /** What `handleMessage` does with a normalised query. */
  function RouteQuery(query: string): (r: Route)
    ensures r == Help <==> query == [] || ToLower(query) == "help"
    ensures r == Status <==> query != [] && ToLower(query) == "status"
    ensures r.Ask? ==> r.query == query && query != []
  {
    if query == [] || ToLower(query) == "help" then Help
    else if ToLower(query) == "status" then Status
    else Ask(query)
  }

  function HandleMessage(content: string, mentionsBot: bool, botId: string): Route {
    RouteQuery(NormalizeQuery(content, mentionsBot, botId))
  }

  /**
    A message that starts with the prefix and does not mention the bot is
    routed on the trimmed text after the prefix; `!xo` alone asks for help.
   */
  lemma PrefixedMessageRoute(rest: string, botId: string)
    ensures HandleMessage(Prefix + rest, false, botId) == RouteQuery(Trim(rest))
    ensures Trim(rest) == [] ==> HandleMessage(Prefix + rest, false, botId) == Help
  {
    var content := Prefix + rest;
    HasPrefixIff(content);
    assert content[3..] == rest;
  }

  /** A mention at the start is removed before the prefix is looked for. */
  lemma MentionThenPrefixRoute(botId: string, rest: string)
    requires !Contains(botId, ">")
    requires HasPrefix(Trim(rest))
    ensures HandleMessage("<@" + botId + ">" + rest, true, botId)
      == RouteQuery(Trim(Trim(rest)[3..]))
  {
    var tag := "<@" + botId + ">";
    var content := tag + rest;
    assert OccursAt(content, tag, 0);
    assert ReplaceFirst(content, tag, "") == rest;
  }

  /** A direct message without mention or prefix is sent on exactly as typed. */
  lemma PlainMessageIsSentUnchanged(content: string, botId: string)
    requires !HasPrefix(content)
    requires content != [] && ToLower(content) != "help" && ToLower(content) != "status"
    ensures HandleMessage(content, false, botId) == Ask(content)
  {
  }

  // ---------------------------------------------------------------------------
  // callChatAPI

  // Written in two parts so that the first characters are visible to the verifier.
  const RateLimitMessage: string := "Rate" + " limit exceeded. Please wait a moment and try again."
  const ServerErrorMessage: string := "Server" + " error. Please try again later."
  const TimeoutMessage: string := "Request timed out. Please try again with a simpler query."
  const NetworkMessage: string := "Network error. Please check if the API server is running."
  const GenericPrefix: string := "API error: "

  /** The error text `callChatAPI` gives for a response whose status is not OK. */
  function StatusMessage(status: int): string {
    if status == 429 then RateLimitMessage
    else if status >= 500 then ServerErrorMessage
    else GenericPrefix + IntToString(status)
  }

  /**
    The three kinds of status message are told apart, and a generic message
    names its status: two statuses outside 429 and the 5xx range give the
    same message only if they are equal, and never the rate-limit or
    server-error text.
   */
  lemma StatusMessageClassifies(a: int, b: int)
    ensures StatusMessage(a) == RateLimitMessage <==> a == 429
    ensures StatusMessage(a) == ServerErrorMessage <==> a != 429 && a >= 500
    ensures a != 429 && a < 500 && b != 429 && b < 500 && StatusMessage(a) == StatusMessage(b) ==> a == b
  {
    if a != 429 && a < 500 {
      var m := StatusMessage(a);
      assert m[0] == 'A';
      assert RateLimitMessage[0] == 'R' && ServerErrorMessage[0] == 'S';
      if b != 429 && b < 500 && m == StatusMessage(b) {
        var n := |GenericPrefix|;
        assert m[n..] == IntToString(a);
        assert StatusMessage(b)[n..] == IntToString(b);
        IntToStringInjective(a, b);
      }
    }
  }

  /**
    The result of `fetch` as `callChatAPI` sees it. The body of a response is
    `None` when `response.json()` would throw; it is read only for an OK status.
   */
  datatype HttpOutcome<T> = Response(status: int, body: Option<T>) | Aborted | NetworkFailure

  datatype ApiResult<T> = ApiSuccess(data: T) | ApiFailure(error: string)

  predicate IsOk(status: int) {
    200 <= status <= 299
  }

  /**
    `callChatAPI`: an OK response with a readable body carries it; anything
    else becomes an error text. An OK body that is not JSON throws inside the
    `try` and reaches the catch, which gives the network text.
   */
  function CallChatApi<T>(outcome: HttpOutcome<T>): (r: ApiResult<T>)
    ensures r.ApiSuccess? <==> outcome.Response? && IsOk(outcome.status) && outcome.body.Some?
    ensures r.ApiSuccess? ==> r.data == outcome.body.value
    ensures outcome.Response? && !IsOk(outcome.status) ==> r.error == StatusMessage(outcome.status)
    ensures outcome.Aborted? ==> r.error == TimeoutMessage
    ensures outcome.NetworkFailure? ==> r.error == NetworkMessage
    ensures outcome.Response? && IsOk(outcome.status) && outcome.body.None? ==> r.error == NetworkMessage
  {
    match outcome
    case Response(status, body) =>
      if !IsOk(status) then ApiFailure(StatusMessage(status))
      else if body.None? then ApiFailure(NetworkMessage)
      else ApiSuccess(body.value)
    case Aborted => ApiFailure(TimeoutMessage)
    case NetworkFailure => ApiFailure(NetworkMessage)
  }

  // ---------------------------------------------------------------------------
  // /markets subcommands

  /** `option || fallback` on an integer option: absent and 0 both fall back. */
  function OrDefault(option: Option<int>, fallback: int): (r: int)
    ensures option.Some? && option.value != 0 ==> r == option.value
    ensures option.None? || option.value == 0 ==> r == fallback
  {
    if option.Some? && option.value != 0 then option.value else fallback
  }

  /** The query a `/markets` subcommand sends to the chat API; `None` for an unknown subcommand. */
  function MarketsQuery(subcommand: string, hours: Option<int>, limit: Option<int>): Option<string> {
    if subcommand == "closing" then
      Some("markets closing in next " + IntToString(OrDefault(hours, 24)) + " hours")
    else if subcommand == "volume" then
      Some("top " + IntToString(OrDefault(limit, 10)) + " markets by volume")
    else if subcommand == "new" then
      Some("latest " + IntToString(OrDefault(limit, 10)) + " new markets created")
    else if subcommand == "active" then
      Some(IntToString(OrDefault(limit, 10)) + " active markets")
    else None
  }

  /** The number a subcommand puts in its query. */
  function EffectiveCount(subcommand: string, hours: Option<int>, limit: Option<int>): int {
    if subcommand == "closing" then OrDefault(hours, 24) else OrDefault(limit, 10)
  }

  lemma {:induction false} CancelAround(p: string, a: string, b: string, s: string)
    requires p + a + s == p + b + s
    ensures a == b
  {
    assert |a| == |b|;
    assert a == (p + a + s)[|p|..|p| + |a|];
    assert b == (p + b + s)[|p|..|p| + |b|];
  }

  /** The first character of a query tells its subcommand: `m`, `t`, `l`, or the number's sign or digit. */
  lemma MarketsQueryLead(s: string, h: Option<int>, l: Option<int>)
    requires MarketsQuery(s, h, l).Some?
    ensures var q := MarketsQuery(s, h, l).value;
      && q != []
      && (q[0] == 'm' <==> s == "closing")
      && (q[0] == 't' <==> s == "volume")
      && (q[0] == 'l' <==> s == "new")
  {
    var n := IntToString(EffectiveCount(s, h, l));
    var q := MarketsQuery(s, h, l).value;
    if s == "closing" {
      assert q == "markets closing in next " + n + " hours";
    } else if s == "volume" {
      assert q == "top " + n + " markets by volume";
    } else if s == "new" {
      assert q == "latest " + n + " new markets created";
    } else {
      assert q == n + " active markets";
      assert q[0] == n[0];
      assert n[0] == '-' || IsDigit(n[0]);
    }
  }

  /** Within one subcommand, equal queries carry equal numbers. */
  lemma MarketsQuerySameCount(s: string, h1: Option<int>, l1: Option<int>, h2: Option<int>, l2: Option<int>)
    requires MarketsQuery(s, h1, l1).Some? && MarketsQuery(s, h1, l1) == MarketsQuery(s, h2, l2)
    ensures EffectiveCount(s, h1, l1) == EffectiveCount(s, h2, l2)
  {
    var n1 := IntToString(EffectiveCount(s, h1, l1));
    var n2 := IntToString(EffectiveCount(s, h2, l2));
    if s == "closing" {
      CancelAround("markets closing in next ", n1, n2, " hours");
    } else if s == "volume" {
      CancelAround("top ", n1, n2, " markets by volume");
    } else if s == "new" {
      CancelAround("latest ", n1, n2, " new markets created");
    } else {
      assert "" + n1 == n1 && "" + n2 == n2;
      CancelAround("", n1, n2, " active markets");
    }
    IntToStringInjective(EffectiveCount(s, h1, l1), EffectiveCount(s, h2, l2));
  }

  /**
    The query names its subcommand and its number: only the four known
    subcommands produce a query, and equal queries come from the same
    subcommand with the same effective number.
   */
  lemma MarketsQueryDetermines(s1: string, h1: Option<int>, l1: Option<int>,
                               s2: string, h2: Option<int>, l2: Option<int>)
    ensures MarketsQuery(s1, h1, l1).Some? <==> s1 in ["closing", "volume", "new", "active"]
    ensures MarketsQuery(s1, h1, l1).Some? && MarketsQuery(s1, h1, l1) == MarketsQuery(s2, h2, l2) ==>
      s1 == s2 && EffectiveCount(s1, h1, l1) == EffectiveCount(s2, h2, l2)
  {
    if MarketsQuery(s1, h1, l1).Some? && MarketsQuery(s1, h1, l1) == MarketsQuery(s2, h2, l2) {
      MarketsQueryLead(s1, h1, l1);
      MarketsQueryLead(s2, h2, l2);
      assert s1 == s2;
      MarketsQuerySameCount(s1, h1, l1, h2, l2);
    }
  }
}
