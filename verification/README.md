# XO Market Expert chatbot — a Dafny model of its decision logic

The XO Market Expert chatbot answers questions about the XO prediction
market. A Discord bot forwards a user's message to a chat API. The API
searches a document index, optionally reads live markets from the XO
blockchain, asks a language model for a cited answer, and returns the answer
with its sources. The bot then cuts the answer into pieces that fit in
Discord embeds. An offline script scores the API against a list of test
questions.

This project models the parts of that system that decide things, with every
remote service replaced by the outcome it delivers:

- `BotChunking` (`bot/discord-bot.ts`): `forceChunkContent`,
  `lineBasedChunking` and `smartChunkContent`, which cut an answer into
  embed-sized pieces.
- `BotCommands` (`bot/discord-bot.ts`): which messages trigger the bot, how
  a message becomes a query, the error texts for failed API calls, and the
  queries the `/markets` subcommands send.
- `DiscordClient` (`src/lib/discord.ts`): `splitMessage`, `truncateText`,
  `formatChatResponse` and the one-reply-or-many choice of `sendLongMessage`.
- `ChatRoute` (`src/app/api/chat/route.ts`): the POST handler. It covers
  query validation, document numbering, the `needsLiveData` regular
  expressions, citations and de-duplicated sources, the 429 reply, and the
  mapping of errors to HTTP statuses.
- `Blockchain` (`src/lib/blockchain.ts`): the market-reading loop with its
  field defaults, the demonstration-market fallback, and the method names of
  the contract ABI. The chain is an oracle `Ledger`.
- `Gemini` (`src/lib/gemini.ts`): prompt assembly, option defaults, and the
  retry loop with exponential back-off.
- `OpenAiRateLimit` (`src/lib/openai.ts`): the per-minute request counter
  and the wait it imposes.
- `Evaluation` (`eval/evaluate.ts`): per-question result records, report
  counts, grades, answer excerpts and recommendations.
- `JsString`, `Numerals`, `Wrappers`, `ChatTypes`: shared helpers. These
  cover JavaScript's `trim`, `lastIndexOf`, `substring`, `split`, `join`,
  `includes`, `replace` and `toLowerCase`; decimal rendering of numbers;
  `undefined` as `Option`; and the message and citation records.

Some properties the code has but a reader might not expect, all proved here:

- The Gemini comment promises back-off delays of 2 s, 4 s and 8 s. With at
  most three attempts, only 2 s and 4 s ever happen, and the final
  "unavailable after all retries" throw cannot be reached.
- A long text that contains the fifty-character rule, but never on a line of
  its own, is returned by `smartChunkContent` as one oversized chunk.
- The OpenAI rate limiter never looks at its token estimate or at
  `tokensPerMinute`.
- A present but empty `testQuestions` array hides a `questions` array.

## Model

| member | source | states |
|---|---|---|
| BotChunking.SplitIndex | bot/discord-bot.ts:842-845 | The cut lies in 1..maxLength. It is at the last space at or before index maxLength when that space is at or beyond 0.7·maxLength. Otherwise it is exactly maxLength, and no space lies in that upper range. |
| BotChunking.ForceChunk | bot/discord-bot.ts:837-856 | Every chunk is non-empty and at most maxLength long. There are no chunks exactly when the text is empty. Removing whitespace from the chunks gives the text without whitespace, so only whitespace is lost. |
| BotChunking.ForceChunkFirstCut | bot/discord-bot.ts:841-848 | The first chunk of an over-long text is a prefix of it, cut by the last-space-or-hard-cut rule. |
| BotChunking.FilterNonEmpty | bot/discord-bot.ts:834 | Dropping empty chunks leaves no empty chunk and keeps the concatenation. It keeps only original chunks, and it changes nothing when none is empty. |
| BotChunking.LineBasedChunking | bot/discord-bot.ts:808-835 | Every chunk is non-empty and at most maxLength long, including the pieces of force-chunked long lines. Only whitespace is lost. |
| BotChunking.LineLoopKeepsBounds | bot/discord-bot.ts:813-828 | The line loop keeps every pushed chunk within bounds and keeps the trimmed current chunk within maxLength. |
| BotChunking.LineLoopKeepsContent | bot/discord-bot.ts:813-828 | The line loop keeps the non-whitespace content of the pushed chunks, the current chunk and the lines still to come. |
| BotChunking.SmartChunk | bot/discord-bot.ts:772-806 | A text that fits comes back as the single unchanged chunk. A longer text gives no empty chunk. In every case only whitespace is lost. |
| BotChunking.SmartChunkWithoutSeparatorIsBounded | bot/discord-bot.ts:777-805 | Without the rule in the text, every chunk fits the limit (or the text is empty), and a long text is chunked line by line. |
| BotChunking.SeparatorChunkingKeepsContent | bot/discord-bot.ts:777-802 | Packing whole market blocks loses only whitespace. |
| BotChunking.BlockStepClosesOnlyOnOverflow | bot/discord-bot.ts:785-795 | A chunk is pushed exactly when appending the next block would exceed maxLength, and pushed chunks are never taken back. |
| BotChunking.BlockLoopKeepsFittingBlocks | bot/discord-bot.ts:782-796 | While the blocks fit, nothing is pushed, and they accumulate in the current chunk with their delimiters. |
| BotChunking.SeparatorWithoutDelimiterStaysWhole | bot/discord-bot.ts:777-800 | A long text holding the rule only inside lines comes back as one trimmed chunk. The chunk is longer than maxLength when the text has no surrounding blanks. |
| BotCommands.HasPrefixIff | bot/discord-bot.ts:466 | The lowercased content starts with `!xo` exactly when its first three characters are `!`, `x`/`X` and `o`/`O`. |
| BotCommands.Triggers | bot/discord-bot.ts:461-471 | A message is handled exactly when it is not from a bot and is a direct message, mentions the bot, or has the case-insensitive `!xo` prefix. |
| BotCommands.RouteQuery | bot/discord-bot.ts:506-514 | Help exactly when the query is empty or lowercases to `help`. Status exactly when it is non-empty and lowercases to `status`. Otherwise the query is sent unchanged. |
| BotCommands.PrefixedMessageRoute | bot/discord-bot.ts:502-509 | `!xo` followed by text is routed on the trimmed text, and `!xo` with only blanks after it asks for help. |
| BotCommands.MentionThenPrefixRoute | bot/discord-bot.ts:499-504 | A leading mention is removed and the rest trimmed before the prefix is stripped. |
| BotCommands.PlainMessageIsSentUnchanged | bot/discord-bot.ts:496-522 | A message without mention or prefix that is not a help or status word reaches the API exactly as typed. |
| BotCommands.StatusMessageClassifies | bot/discord-bot.ts:554-561 | 429 and only 429 gives the rate-limit text. Exactly the other statuses ≥ 500 give the server-error text. Every other status gives a distinct `API error: <status>` text. |
| BotCommands.CallChatApi | bot/discord-bot.ts:554-578 | Success exactly for an OK response whose body parses, with that body. A non-OK response gets its status message, an abort gets the timeout text, and an OK response whose body does not parse gets the network text, as does any other failure. |
| BotCommands.OrDefault | bot/discord-bot.ts:155-170 | An absent or zero option falls back to the default, and any other value is kept. |
| BotCommands.MarketsQueryDetermines | bot/discord-bot.ts:153-177 | Only `closing`, `volume`, `new` and `active` produce a query. Equal queries come from the same subcommand with the same effective number. |
| DiscordClient.SplitMessage | src/lib/discord.ts:73-89 | No chunk is empty. |
| DiscordClient.SplitMessageBounded | src/lib/discord.ts:73-89 | When every line fits maxLength, every chunk does. |
| DiscordClient.SplitLoopJoins | src/lib/discord.ts:78-85 | The loop keeps the invariant that the chunks plus the current chunk, joined by newlines, equal the lines consumed so far joined by newlines. |
| DiscordClient.SplitMessageJoins | src/lib/discord.ts:77-88 | When no line is empty, joining the chunks with newlines gives back the text exactly. |
| DiscordClient.SplitMessageKeepsLongLine | src/lib/discord.ts:79-87 | A non-empty text without newlines comes back as one chunk, whatever its length. |
| DiscordClient.TruncateText | src/lib/discord.ts:104-107 | The text is unchanged when it fits. Otherwise, when maxLength ≥ 3, the result has exactly maxLength characters: the first maxLength−3 of the text and `...`. When maxLength < 3, the result is just `...`. |
| DiscordClient.TruncateTextIdempotent | src/lib/discord.ts:104-107 | Truncating a truncated text again changes nothing. |
| DiscordClient.CitationLinesAppend | src/lib/discord.ts:96-98 | The citation lines of two runs of citations are the lines of the first run followed by those of the second. |
| DiscordClient.FormatChatResponse | src/lib/discord.ts:91-102 | The answer is always a prefix of the result. The result equals the answer exactly when there are no citations. Otherwise the header and one `[n] source` line per citation follow it. |
| DiscordClient.SendLongMessage | src/lib/discord.ts:47-53 | A single unchanged reply exactly when the content fits maxLength. Otherwise non-empty chunks. |
| DiscordClient.SendLongMessageDefault | src/lib/discord.ts:47-70 | With the 2000 limit, a fitting text goes out as itself. A longer text goes out in pieces that rejoin to it when it has no empty line, and that fit when its lines fit. |
| ChatRoute.ValidQuery | src/app/api/chat/route.ts:24-29 | A query is accepted exactly when it is a non-empty string, and it is used unchanged. |
| ChatRoute.PostValidatesFirst | src/app/api/chat/route.ts:22-29 | A readable body gets 400 exactly when its query is missing, empty or not a string, whatever the services would do. |
| ChatRoute.SourceOf | src/app/api/chat/route.ts:92 | A missing or empty source becomes `unknown`. Any other source is kept, so a source is never empty. |
| ChatRoute.NumberFrom | src/app/api/chat/route.ts:90-95 | One document per hit, in order, numbered consecutively from the first number. |
| ChatRoute.NumberedCitations | src/app/api/chat/route.ts:90-95 | The citations are numbered 1..k in retrieval order, in key order. Citation i names the source of hit i. |
| ChatRoute.Dedup | src/app/api/chat/route.ts:175-182 | The de-duplicated list has the same members as the input and no duplicates. |
| ChatRoute.DedupKeepsFirstOccurrenceOrder | src/app/api/chat/route.ts:177-181 | The de-duplicated sources appear in the order of their first occurrences. |
| ChatRoute.DedupOfDistinct | src/app/api/chat/route.ts:179-181 | A list without duplicates is left unchanged. |
| ChatRoute.CollectCitations | src/app/api/chat/route.ts:174-182 | The loop gives one citation per document. Its sources have no duplicates, include every document's source, and include nothing else. |
| ChatRoute.LiveKeywordsListed | src/app/api/chat/route.ts:97 | The keyword test holds exactly when the query contains current, live, active, real-time, now or today. |
| ChatRoute.GapMatchIff | src/app/api/chat/route.ts:98 | `a.*b` matches exactly when some occurrence of `b` starts where an occurrence of `a` is still open, with no line terminator after that `a`. |
| ChatRoute.MatchGap | src/app/api/chat/route.ts:98 | The one-pass scan decides `a.*b`, where `.` excludes line terminators. |
| ChatRoute.DetectLiveData | src/app/api/chat/route.ts:97-98 | The computed flag equals the live-data pattern on the lowercased query. |
| ChatRoute.ClassifyError | src/app/api/chat/route.ts:198-217 | The status is 500 or 503, and the details are the message. The categories are tried in order: the Pinecone key first, then the Gemini key, then connect/authorization giving 503, and everything else an internal error. |
| ChatRoute.PostMissingKeys | src/app/api/chat/route.ts:36-42 | A missing Pinecone key gives a 500 Pinecone configuration error, before the Gemini key is checked. A missing Gemini key gives a 500 Gemini configuration error. |
| ChatRoute.PostStageFailures | src/app/api/chat/route.ts:44-88 | Of the index, vector-store and search stages, only the failed connection check is a 503. The other stage failures are 500s with their own messages. |
| ChatRoute.PostAnswered | src/app/api/chat/route.ts:97-193 | A successful reply has status 200 and carries the answer. Its citations are numbered 1..k per hit, and its sources are distinct and cover every hit. Live data is present only when the query asks for it and fetching it succeeded; a failed fetch is swallowed. |
| ChatRoute.PostGenerationFailure | src/app/api/chat/route.ts:155-172 | The reply is 429 exactly when the generation error mentions `429`. That reply carries per-document sources, duplicates kept, and the numbered citations. Any other generation failure is a 500. |
| ChatRoute.RateLimitedSourcesDeduplicate | src/app/api/chat/route.ts:163-180 | The 429 source list equals the success source list exactly when it has no duplicates. |
| Blockchain.StringOr | src/lib/blockchain.ts:153-154 | The named reading wins when it is non-empty. Otherwise a non-empty positional reading wins. Otherwise the fallback is used. The result is never empty when the fallback is not. |
| Blockchain.NumberOr | src/lib/blockchain.ts:155 | The named reading wins when it is non-zero. Otherwise a non-zero positional reading wins. Otherwise the fallback is used. The result is never zero when the fallback is not. |
| Blockchain.BoolOr | src/lib/blockchain.ts:156 | Resolved exactly when one of the two readings is true. |
| Blockchain.Normalize | src/lib/blockchain.ts:151-162 | The id is the decimal index and the question and creator are never empty. The end time is never zero unless now plus one day is zero. `active` is the named reading when it is defined, and otherwise the positional one when that is defined. The volume is attached only when it was read. |
| Blockchain.NormalizeDefaults | src/lib/blockchain.ts:153-157 | The defaults are `Market <i>`, the zero address, now plus one day and not resolved. `active` defaults to true only when both readings are undefined. An explicit `false` in either reading is kept when no earlier reading is defined. |
| Blockchain.LoadedIds | src/lib/blockchain.ts:139-170 | At most `min(total, 10)` ids are read; each is below the limit and its read succeeded. |
| Blockchain.LoadedIdsExactly | src/lib/blockchain.ts:139-170 | The ids read are strictly increasing. An id is read exactly when it is below the limit and its read succeeds. |
| Blockchain.ReadMarkets | src/lib/blockchain.ts:137-171 | The loop returns the successfully read markets of ids 0..min(total,10)−1, in order, and never more than 10. |
| Blockchain.MockMarkets | src/lib/blockchain.ts:264 | The result is a prefix of the five demonstration markets, of length min(count,5) for a non-negative count, using slice's rule for a negative end. |
| Blockchain.MockMarketsNumbered | src/lib/blockchain.ts:210-262 | The demonstration markets have ids "0".."4" in order, and all are unresolved and active. |
| Blockchain.CurrentMarketsFallbacks | src/lib/blockchain.ts:108-197 | The result has 1 to 10 markets. No connection, no contract code, or no market read gives the five demonstration markets. A failed `totalMarkets` with a positive active count gives the first min(count,5) of them. |
| Blockchain.CurrentMarketsFromChain | src/lib/blockchain.ts:137-170 | A chain result contains id i exactly when i < min(total,10) and its read succeeded. |
| Blockchain.LoadAbi | src/lib/blockchain.ts:33-56 | An array without `null` elements is used as is, entry by entry. Anything else gives the fallback ABI: a missing file, text that is not JSON, a non-array value such as `null` or an object, or an array with a `null` element. For these, reading `.length`, `.filter` or `item.type` throws, and the catch installs the fallback. |
| Blockchain.MethodNames | src/lib/blockchain.ts:297-300 | No more names than entries, and no empty name. |
| Blockchain.MethodNamesMembership | src/lib/blockchain.ts:294-301 | A name is listed exactly when a `function` entry carries it and it is non-empty. |
| Blockchain.MethodNamesAppend | src/lib/blockchain.ts:297-300 | Names keep ABI order: the names of a concatenation are the concatenated names. |
| Blockchain.FallbackMethods | src/lib/blockchain.ts:33-82 | Without an ABI file holding an array free of `null` elements, the methods are `totalMarkets` and `markets`. With one, a name is listed exactly when one of the file's function entries carries it. |
| ChatTypes.Configure | src/lib/gemini.ts:23-24 | A missing or zero temperature becomes 0.1, and a missing or zero token limit becomes the default. Truthy values are kept, so neither setting is ever zero. |
| ChatTypes.ConfigureFixedPoint | src/lib/gemini.ts:23-24 | Feeding the settings back as options reproduces them. |
| Gemini.GenerationSettings | src/lib/gemini.ts:20-26 | Without options the settings are temperature 0.1 and 1000 output tokens. |
| Gemini.PromptStructure | src/lib/gemini.ts:28 | The prompt of one message is `role: content`. The prompt of two conversations is their prompts separated by a blank line, and the prompt of no messages is empty. |
| Gemini.GenerateWithRetry | src/lib/gemini.ts:30-52 | There are one to three attempts. Every attempt but the last failed with 503. The run ends on a success, on a non-503 error, or after the third attempt. The delays slept are the first attempts−1 of [2000, 4000]. The run agrees with the recursive reference, and the final throw is unreachable. |
| Gemini.RunFrom | src/lib/gemini.ts:33-50 | A run from attempt k makes between k+1 and 3 attempts, with one delay per retry. It ends on the outcome of its last attempt. |
| OpenAiRateLimit.Initial | src/lib/openai.ts:5-11 | The record starts with limits 50 and 40000, zero counters, and the reset time set to load time. |
| OpenAiRateLimit.CheckRateLimit | src/lib/openai.ts:22-37 | The limits are kept. The reset time only moves forward, and the request count never grows. There is a wait exactly when a full window has not passed and at least 45 requests were made. Waiting changes no state. A wait lies in (1000, 61000] ms when the clock has not gone back. |
| OpenAiRateLimit.CheckRateLimitIdempotent | src/lib/openai.ts:22-37 | Checking twice at the same moment is the same as checking once. |
| OpenAiRateLimit.WaitIgnoresTokens | src/lib/openai.ts:22-37 | The token count never affects whether a call waits. |
| OpenAiRateLimit.EmbeddingCall | src/lib/openai.ts:43-56 | A successful embedding adds one request and 100 tokens to the checked record. A rejected one leaves it as checked. |
| OpenAiRateLimit.EstimatedTokensQuarter | src/lib/openai.ts:75 | The left-to-right sum of length/4 is a quarter of the total content length. |
| OpenAiRateLimit.ChatSettings | src/lib/openai.ts:87-88 | Without options, chat completions use temperature 0.1 and 800 tokens. |
| OpenAiRateLimit.ChatCall | src/lib/openai.ts:74-92 | A successful completion adds one request and a quarter of the content length in tokens. A rejected one leaves the record as checked. |
| OpenAiRateLimit.ReplayWithinWindow | src/lib/openai.ts:22-92 | For calls within one window, the counter equals the earlier count plus the successful calls, and the tokens equal the earlier tokens plus their estimates. The reset time is unchanged. |
| OpenAiRateLimit.ReplayRequestsBounded | src/lib/openai.ts:54-92 | Over any sequence of calls, the request count grows by at most one per call. |
| Evaluation.QuestionsOf | eval/evaluate.ts:66 | `testQuestions` wins whenever present, then `questions`. The list is empty exactly when the chosen array is empty or both are missing. |
| Evaluation.SomeExpectedFoundIff | eval/evaluate.ts:104-107 | The nested `some` holds exactly when some returned source contains some expected name. |
| Evaluation.Evaluate | eval/evaluate.ts:86-121 | A failed call gives success=false with an empty answer, sources and citations, and all flags false. Otherwise the fields are copied with defaults. `hasCitations` holds exactly when there are citations. `hasExpectedSources` holds exactly when the expected list is empty or a substring match exists. |
| Evaluation.RunEvaluation | eval/evaluate.ts:68-138 | With no questions, the script stops. Otherwise there is one well-formed result per question, in order: the evaluation of that question's response, with success exactly when there was no error. There are n−1 pauses. |
| Evaluation.CountsOrdered | eval/evaluate.ts:152-155 | Neither the citation count nor the expected-source count exceeds the success count. The citation count is short exactly when a successful answer lacks citations, and the success count is short exactly when a call failed. |
| Evaluation.Excerpt | eval/evaluate.ts:183-185 | An answer of at most 200 characters is shown whole. A longer one shows its first 200 characters and `...`. |
| Evaluation.ExcerptIdempotent | eval/evaluate.ts:183-185 | Excerpting an excerpt changes nothing. |
| Evaluation.GradeOf | eval/evaluate.ts:198-209 | A exactly when 100·s ≥ 90·t, B exactly in [80·t, 90·t), C exactly in [70·t, 80·t), and D below 70·t. |
| Evaluation.GradeMonotone | eval/evaluate.ts:198-209 | More successes never give a worse grade, and a perfect run gets an A. |
| Evaluation.Recommendations | eval/evaluate.ts:217-227 | The closing line is always last. The failure line appears exactly when s < t, the citation line exactly when the citation count is below s, and the speed line exactly when total time > 5000·t. |
| Evaluation.RecommendationsExplained | eval/evaluate.ts:217-222 | The failure line appears exactly when some call failed. The citation line appears exactly when some successful answer lacks citations. |

## Left out

- I/O and wiring are not modelled: the Discord gateway and REST calls, slash-command registration, embeds, typing indicators, health checks, signal handlers, file reads and writes, and logging. The SDK calls to Pinecone, Gemini, OpenAI and ethers are replaced by their outcomes.
- Clocks are parameters. Each rate-limit check or call takes one `now`, and the market reader uses one `now` for all its default end times. Response times and report timestamps are not modelled.
- Timeouts and concurrency are not modelled: `callWithTimeout`'s `Promise.race`, the bot's 60-second abort, and the `setTimeout` sleeps. A sleep appears only as the delay it would wait.
- The recursive retries after an OpenAI 429 (src/lib/openai.ts:59-63, 96-100) are left out. A rejected call leaves the checked record unchanged.
- `ethers.formatEther` is left out. The formatted volume is an oracle string per market id.
- `Number(...)` conversions of contract values are left out, and values are taken as integers.
- JSON parsing is left out beyond the cases the code tells apart. Parsing the request body is one `Unreadable` case carrying the thrown message. An OK chat-API response whose body does not parse is a `Response` with no body. An `abi.json` is missing, unparsable, a non-array value, or an array whose elements are `null` or entries.
- Float formatting is left out: `toFixed`, percentages and the average response time. The grade and speed thresholds are stated multiplied out on integers. For the millisecond totals and question counts the script handles, these agree with the float comparisons.
- The `temperature` option is a `real`. JavaScript's falsy `NaN` temperature is not modelled.
- `toLowerCase` lowers ASCII letters only. Every word compared against (`!xo`, `help`, `status` and the live-data words) is ASCII. Unicode case folding is not modelled.
- Strings are sequences of Unicode scalar values, one character each, while JavaScript's `.length` and `substring` count UTF-16 code units. A character outside the Basic Multilingual Plane, such as an emoji in a model answer, a Discord message or the books emoji of the Sources header, counts once here and twice in JavaScript. On text holding such characters, the lengths and cut points of BotChunking.SplitIndex, BotChunking.ForceChunk, BotChunking.LineBasedChunking, BotChunking.SmartChunk, DiscordClient.TruncateText, DiscordClient.SplitMessage, DiscordClient.SendLongMessage and Evaluation.Excerpt differ from the source's, and the source's `substring` can split a surrogate pair where the model cannot. On text within the Basic Multilingual Plane they agree.
- The regular-expression engine is not modelled. The live-data expressions are stated as substring and gap predicates, with `.` excluding the four line terminators.
- The system prompt, the context text and the report's Markdown text are not modelled. Only the decisions the report makes are: counts, excerpt, grade and recommendations.
- `MarketInfo`'s `outcome`, `yesShares` and `noShares` fields are never set by the reader and are not modelled.
- The unused `sources` parameter of `formatChatResponse` and the unused `estimatedTokens` of `checkRateLimit` have no effect and are not modelled.
- BotChunking.SmartChunk: no length bound is stated for the separator path. A market block is kept whole, and a text holding the rule only inside lines stays one oversized chunk, as `SeparatorWithoutDelimiterStaysWhole` proves.
- DiscordClient.SplitMessageJoins: the rejoining property is stated only for texts without empty lines. `splitMessage` drops empty lines while the current chunk is empty.
- src/lib/pinecone.ts, src/scripts/ingest.ts, src/app/api/ingest/route.ts and the Next.js configuration files are not part of this model. They are index setup, a filesystem walk and build configuration.
