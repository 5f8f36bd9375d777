/**
  How the Discord bot cuts a long answer into embed-sized pieces
  (`smartChunkContent`, `lineBasedChunking` and `forceChunkContent`).
  All three are pure; `maxLength` is the caller's limit, 4000 in the bot.
 */
module BotChunking {
  import opened JsString

  /** The `MAX_EMBED_LENGTH` the bot passes as `maxLength`. */
  const MaxEmbedLength: int := 4000

  /** Ten of the box-drawing characters (U+2501) the rule is made of. */
  const RulePiece: string := "━━━━━━━━━━"

  /** The rule of fifty such characters the answer puts between market blocks. */
  const Separator: string := RulePiece + RulePiece + RulePiece + RulePiece + RulePiece

  /** What `split` cuts at: the rule on a line of its own. */
  const BlockDelimiter: string := "\n" + Separator + "\n"

  predicate Bounded(chunks: seq<string>, maxLength: int) {
    forall i :: 0 <= i < |chunks| ==> 0 < |chunks[i]| <= maxLength
  }

  predicate NoneEmpty(chunks: seq<string>) {
    forall i :: 0 <= i < |chunks| ==> chunks[i] != []
  }

  /** The non-whitespace content of all chunks together. */
  function Content(chunks: seq<string>): string {
    RemoveWhitespace(Flatten(chunks))
  }

  lemma ContentAppend(a: seq<string>, b: seq<string>)
    ensures Content(a + b) == Content(a) + Content(b)
  {
    FlattenAppend(a, b);
    RemoveWhitespaceAppend(Flatten(a), Flatten(b));
  }

  lemma {:induction false} ContentSingle(x: string)
    ensures Content([x]) == RemoveWhitespace(x)
  {
    FlattenSingle(x);
  }

  /** `chunks.filter(chunk => chunk.length > 0)` */
  function FilterNonEmpty(chunks: seq<string>): (r: seq<string>)
    ensures NoneEmpty(r)
    ensures Flatten(r) == Flatten(chunks)
    ensures forall i :: 0 <= i < |r| ==> r[i] in chunks
    ensures NoneEmpty(chunks) ==> r == chunks
  {
    if chunks == [] then []
    else
      var tail := FilterNonEmpty(chunks[1..]);
      assert Flatten(chunks) == chunks[0] + Flatten(chunks[1..]);
      if chunks[0] == [] then
        assert [] + Flatten(tail) == Flatten(tail);
        tail
      else
        assert ([chunks[0]] + tail)[1..] == tail;
        [chunks[0]] + tail
  }

  // ---------------------------------------------------------------------------
  // forceChunkContent

  /**
    Where `forceChunkContent` cuts a text longer than `maxLength`: at the last
    space at or before index `maxLength` when that index is at least
    0.7 * maxLength, and otherwise exactly at `maxLength`.
   */
  function SplitIndex(text: string, maxLength: int): (k: int)
    requires maxLength >= 1 && |text| > maxLength
    ensures 1 <= k <= maxLength
    ensures
      || (text[k] == ' ' && 7 * maxLength <= 10 * k
          && forall i :: k < i <= maxLength ==> text[i] != ' ')
      || (k == maxLength
          && forall i :: 0 <= i <= maxLength && 7 * maxLength <= 10 * i ==> text[i] != ' ')
  {
    var j := LastIndexOf(text, ' ', maxLength);
    if j == -1 || 10 * j < 7 * maxLength then maxLength else j
  }

  /**
    `forceChunkContent(text, maxLength)`: repeatedly cut at `SplitIndex` and
    trim the remainder. Every chunk is non-empty and at most `maxLength` long,
    and only whitespace is lost.
   */
  function ForceChunk(text: string, maxLength: int): (chunks: seq<string>)
    requires maxLength >= 1
    ensures Bounded(chunks, maxLength)
    ensures chunks == [] <==> text == []
    ensures Content(chunks) == RemoveWhitespace(text)
    decreases |text|
  {
    if |text| <= maxLength then
      if text == [] then [] else ContentSingle(text); [text]
    else
      var k := SplitIndex(text, maxLength);
      var tail := ForceChunk(Trim(text[k..]), maxLength);
      CutKeepsContent(text, k, tail);
      [text[..k]] + tail
  }

  /** Cutting at `k` and chunking the trimmed rest into `tail` loses only whitespace. */
  lemma CutKeepsContent(text: string, k: nat, tail: seq<string>)
    requires k <= |text|
    requires Content(tail) == RemoveWhitespace(Trim(text[k..]))
    ensures Content([text[..k]] + tail) == RemoveWhitespace(text)
  {
    TrimKeepsContent(text[k..]);
    assert text == text[..k] + text[k..];
    ConsContent(text[..k], text[k..], tail);
  }

  /** A chunk followed by chunks holding the content of the rest holds the content of the whole. */
  lemma ConsContent(head: string, rest: string, tail: seq<string>)
    requires Content(tail) == RemoveWhitespace(rest)
    ensures Content([head] + tail) == RemoveWhitespace(head + rest)
  {
    assert Content([head] + tail) == RemoveWhitespace(head) + Content(tail) by {
      ContentAppend([head], tail);
      ContentSingle(head);
    }
    RemoveWhitespaceAppend(head, rest);
  }

  /**
    The first chunk of an over-long text is a prefix of it that ends either
    right before the last space at or before index `maxLength` (when that
    space lies at or beyond 0.7 * maxLength) or after exactly `maxLength`
    characters when there is no such space.
   */
  lemma ForceChunkFirstCut(text: string, maxLength: int)
    requires maxLength >= 1 && |text| > maxLength
    ensures var c := ForceChunk(text, maxLength)[0];
      && |c| <= maxLength && c == text[..|c|]
      && (|| (text[|c|] == ' ' && 7 * maxLength <= 10 * |c|
              && forall i :: |c| < i <= maxLength ==> text[i] != ' ')
          || (|c| == maxLength
              && forall i :: 0 <= i <= maxLength && 7 * maxLength <= 10 * i ==> text[i] != ' '))
  {
  }

  // ---------------------------------------------------------------------------
  // The packing loops

  /**
    The state of both packing loops, the one over lines and the one over
    market blocks: the chunks pushed so far and `currentChunk`.
   */
  datatype ChunkState = ChunkState(chunks: seq<string>, current: string)

  /** A packing loop: `step` applied to each item in turn. */
  function Scan(step: (ChunkState, string) -> ChunkState, st: ChunkState, items: seq<string>): ChunkState
    decreases |items|
  {
    if items == [] then st else Scan(step, step(st, items[0]), items[1..])
  }

  /** The content of a loop state: what was pushed, then `currentChunk`. */
  function StateContent(st: ChunkState): string {
    Content(st.chunks) + RemoveWhitespace(st.current)
  }

  /** What a loop adds to the content, `gain` of each item in turn. */
  function Gains(gain: string -> string, items: seq<string>): string
    decreases |items|
  {
    if items == [] then [] else gain(items[0]) + Gains(gain, items[1..])
  }

  /** A step that adds `gain(x)` to the content makes the loop add the gains of all items. */
  lemma {:induction false} ScanKeepsContent(step: (ChunkState, string) -> ChunkState, gain: string -> string,
                                            st: ChunkState, items: seq<string>)
    requires forall s: ChunkState, x: string {:trigger step(s, x)} :: StateContent(step(s, x)) == StateContent(s) + gain(x)
    ensures StateContent(Scan(step, st, items)) == StateContent(st) + Gains(gain, items)
    decreases |items|
  {
    if items == [] {
      assert StateContent(st) + [] == StateContent(st);
    } else {
      var st1 := step(st, items[0]);
      var a := StateContent(st);
      var b := gain(items[0]);
      var c := Gains(gain, items[1..]);
      assert Scan(step, st, items) == Scan(step, st1, items[1..]);
      assert Gains(gain, items) == b + c;
      assert StateContent(st1) == a + b;
      ScanKeepsContent(step, gain, st1, items[1..]);
      assert (a + b) + c == a + (b + c) by {
        SeqAssoc(a, b, c);
      }
    }
  }

  lemma SeqAssoc(a: string, b: string, c: string)
    ensures (a + b) + c == a + (b + c)
  {
  }

  /** A property every step keeps holds after the whole loop. */
  lemma {:induction false} ScanKeeps(step: (ChunkState, string) -> ChunkState, inv: ChunkState -> bool,
                                     st: ChunkState, items: seq<string>)
    requires forall s: ChunkState, x: string :: inv(s) ==> inv(step(s, x))
    requires inv(st)
    ensures inv(Scan(step, st, items))
    decreases |items|
  {
    if items != [] {
      ScanKeeps(step, inv, step(st, items[0]), items[1..]);
    }
  }

  /** Adding the content of each piece adds the content of their concatenation. */
  lemma {:induction false} GainsOfContent(items: seq<string>)
    ensures Gains(RemoveWhitespace, items) == RemoveWhitespace(Flatten(items))
  {
    if items != [] {
      GainsOfContent(items[1..]);
      RemoveWhitespaceAppend(items[0], Flatten(items[1..]));
    }
  }

  /** The trimmed `currentChunk` is pushed at the end when it is not blank. */
  function CloseLast(chunks: seq<string>, current: string): seq<string> {
    if Trim(current) != [] then chunks + [Trim(current)] else chunks
  }

  lemma CloseLastContent(chunks: seq<string>, current: string)
    ensures Content(CloseLast(chunks, current)) == Content(chunks) + RemoveWhitespace(current)
  {
    if Trim(current) != [] {
      ContentAppend(chunks, [Trim(current)]);
      ContentSingle(Trim(current));
      TrimKeepsContent(current);
    } else {
      TrimEmptyIffBlank(current);
      RemoveWhitespaceOfBlank(current);
      assert Content(chunks) + [] == Content(chunks);
    }
  }

  // ---------------------------------------------------------------------------
  // lineBasedChunking

  /** The trimmed `currentChunk` is pushed and emptied when it is not blank; a blank one is kept. */
  function CloseCurrent(st: ChunkState): ChunkState {
    if Trim(st.current) != [] then ChunkState(st.chunks + [Trim(st.current)], []) else st
  }

  /** One iteration of the loop over `text.split('\n')`. */
  function LineStep(st: ChunkState, line: string, maxLength: int): ChunkState
    requires maxLength >= 1
  {
    if |st.current + line + "\n"| > maxLength then
      var closed := CloseCurrent(st);
      if |line| > maxLength then ChunkState(closed.chunks + ForceChunk(line, maxLength), closed.current)
      else ChunkState(closed.chunks, line + "\n")
    else ChunkState(st.chunks, st.current + line + "\n")
  }

  function LineStepper(maxLength: int): (ChunkState, string) -> ChunkState
    requires maxLength >= 1
  {
    (st: ChunkState, line: string) => LineStep(st, line, maxLength)
  }

  function LineLoop(st: ChunkState, lines: seq<string>, maxLength: int): ChunkState
    requires maxLength >= 1
  {
    Scan(LineStepper(maxLength), st, lines)
  }

  /** `lineBasedChunking(text, maxLength)` */
  function LineBasedChunking(text: string, maxLength: int): (chunks: seq<string>)
    requires maxLength >= 1
    ensures Bounded(chunks, maxLength)
    ensures Content(chunks) == RemoveWhitespace(text)
  {
    var lines := Split(text, "\n");
    var st := LineLoop(ChunkState([], []), lines, maxLength);
    LineLoopKeepsBounds(ChunkState([], []), lines, maxLength);
    LineLoopKeepsContent(ChunkState([], []), lines, maxLength);
    CloseLastBounded(st.chunks, st.current, maxLength);
    CloseLastContent(st.chunks, st.current);
    JoinSplit(text, "\n");
    JoinContent(lines, "\n");
    FilterNonEmpty(CloseLast(st.chunks, st.current))
  }

  /** `currentChunk` is empty, or ends in the newline the loop appended and is at most one longer than the limit. */
  predicate CurrentFits(current: string, maxLength: int) {
    current == [] || (current[|current| - 1] == '\n' && |current| <= maxLength + 1)
  }

  /** The bound the line loop keeps: pushed chunks fit, and so does `currentChunk` once trimmed. */
  predicate LineBounds(st: ChunkState, maxLength: int) {
    Bounded(st.chunks, maxLength) && CurrentFits(st.current, maxLength)
  }

  lemma CloseLastBounded(chunks: seq<string>, current: string, maxLength: int)
    requires Bounded(chunks, maxLength) && CurrentFits(current, maxLength)
    ensures Bounded(CloseLast(chunks, current), maxLength)
  {
    if current != [] {
      TrimDropsTrailing(current);
    }
  }

  lemma BoundedAppend(a: seq<string>, b: seq<string>, maxLength: int)
    requires Bounded(a, maxLength) && Bounded(b, maxLength)
    ensures Bounded(a + b, maxLength)
  {
    forall i | 0 <= i < |a + b|
      ensures 0 < |(a + b)[i]| <= maxLength
    {
      if i >= |a| {
        assert (a + b)[i] == b[i - |a|];
      }
    }
  }

  lemma CloseCurrentBounds(st: ChunkState, maxLength: int)
    requires LineBounds(st, maxLength)
    ensures LineBounds(CloseCurrent(st), maxLength)
  {
    CloseLastBounded(st.chunks, st.current, maxLength);
    assert CloseCurrent(st).chunks == CloseLast(st.chunks, st.current);
  }

  lemma LineStepKeepsBounds(st: ChunkState, line: string, maxLength: int)
    requires maxLength >= 1 && LineBounds(st, maxLength)
    ensures LineBounds(LineStep(st, line, maxLength), maxLength)
  {
    var st' := LineStep(st, line, maxLength);
    if |st.current + line + "\n"| <= maxLength {
      var next := st.current + line + "\n";
      assert st' == ChunkState(st.chunks, next);
      assert next[|next| - 1] == '\n';
    } else {
      var closed := CloseCurrent(st);
      CloseCurrentBounds(st, maxLength);
      if |line| > maxLength {
        assert st' == ChunkState(closed.chunks + ForceChunk(line, maxLength), closed.current);
        BoundedAppend(closed.chunks, ForceChunk(line, maxLength), maxLength);
      } else {
        var next := line + "\n";
        assert st' == ChunkState(closed.chunks, next);
        assert next[|next| - 1] == '\n';
      }
    }
  }

  lemma LineLoopKeepsBounds(st: ChunkState, lines: seq<string>, maxLength: int)
    requires maxLength >= 1 && LineBounds(st, maxLength)
    ensures LineBounds(LineLoop(st, lines, maxLength), maxLength)
  {
    var inv := (s: ChunkState) => LineBounds(s, maxLength);
    forall s: ChunkState, x: string | inv(s)
      ensures inv(LineStepper(maxLength)(s, x))
    {
      LineStepKeepsBounds(s, x, maxLength);
    }
    ScanKeeps(LineStepper(maxLength), inv, st, lines);
  }

  lemma NewlineIsBlank(s: string)
    ensures RemoveWhitespace(s + "\n") == RemoveWhitespace(s)
  {
    RemoveWhitespaceAppend(s, "\n");
    assert RemoveWhitespace("\n") == [];
    assert RemoveWhitespace(s) + [] == RemoveWhitespace(s);
  }

  /** Closing moves the content of `currentChunk` into the pushed chunks and leaves none behind. */
  lemma CloseCurrentContent(st: ChunkState)
    ensures Content(CloseCurrent(st).chunks) == StateContent(st)
    ensures RemoveWhitespace(CloseCurrent(st).current) == []
  {
    CloseLastContent(st.chunks, st.current);
    if Trim(st.current) == [] {
      TrimEmptyIffBlank(st.current);
      RemoveWhitespaceOfBlank(st.current);
    }
  }

  lemma LineStepKeepsContent(st: ChunkState, line: string, maxLength: int)
    requires maxLength >= 1
    ensures StateContent(LineStep(st, line, maxLength)) == StateContent(st) + RemoveWhitespace(line)
  {
    if |st.current + line + "\n"| <= maxLength {
      LineStepAppendContent(st, line, maxLength);
    } else if |line| > maxLength {
      LineStepForcedContent(st, line, maxLength);
    } else {
      LineStepRestartContent(st, line, maxLength);
    }
  }

  lemma {:induction false} LineStepAppendContent(st: ChunkState, line: string, maxLength: int)
    requires maxLength >= 1 && |st.current + line + "\n"| <= maxLength
    ensures StateContent(LineStep(st, line, maxLength)) == StateContent(st) + RemoveWhitespace(line)
  {
    var cur := st.current;
    assert LineStep(st, line, maxLength) == ChunkState(st.chunks, cur + line + "\n");
    assert RemoveWhitespace(cur + line + "\n") == RemoveWhitespace(cur) + RemoveWhitespace(line) by {
      NewlineIsBlank(cur + line);
      RemoveWhitespaceAppend(cur, line);
    }
    SeqAssoc(Content(st.chunks), RemoveWhitespace(cur), RemoveWhitespace(line));
  }

  lemma LineStepForcedContent(st: ChunkState, line: string, maxLength: int)
    requires maxLength >= 1 && |st.current + line + "\n"| > maxLength && |line| > maxLength
    ensures StateContent(LineStep(st, line, maxLength)) == StateContent(st) + RemoveWhitespace(line)
  {
    var closed := CloseCurrent(st);
    var forced := ForceChunk(line, maxLength);
    assert LineStep(st, line, maxLength) == ChunkState(closed.chunks + forced, closed.current);
    CloseCurrentContent(st);
    ContentAppend(closed.chunks, forced);
    assert StateContent(ChunkState(closed.chunks + forced, closed.current))
        == Content(closed.chunks) + Content(forced) + [];
  }

  lemma {:induction false} LineStepRestartContent(st: ChunkState, line: string, maxLength: int)
    requires maxLength >= 1 && |st.current + line + "\n"| > maxLength && |line| <= maxLength
    ensures StateContent(LineStep(st, line, maxLength)) == StateContent(st) + RemoveWhitespace(line)
  {
    var closed := CloseCurrent(st);
    assert LineStep(st, line, maxLength) == ChunkState(closed.chunks, line + "\n");
    CloseCurrentContent(st);
    NewlineIsBlank(line);
  }

  lemma {:induction false} LineLoopKeepsContent(st: ChunkState, lines: seq<string>, maxLength: int)
    requires maxLength >= 1
    ensures StateContent(LineLoop(st, lines, maxLength)) == StateContent(st) + RemoveWhitespace(Flatten(lines))
  {
    forall s: ChunkState, x: string
      ensures StateContent(LineStepper(maxLength)(s, x)) == StateContent(s) + RemoveWhitespace(x)
    {
      LineStepKeepsContent(s, x, maxLength);
    }
    ScanKeepsContent(LineStepper(maxLength), RemoveWhitespace, st, lines);
    GainsOfContent(lines);
  }

  // ---------------------------------------------------------------------------
  // smartChunkContent

  /**
    One iteration of the separator path: `market` is the block with the
    delimiter put back in front. The delimiter is a parameter so that the
    lemmas below hold for any one; `smartChunkContent` always uses
    `BlockDelimiter`.
   */
  function BlockStep(st: ChunkState, block: string, maxLength: int, delimiter: string): ChunkState
    requires maxLength >= 1
  {
    var market := delimiter + block;
    if |st.current + market| > maxLength then
      if Trim(st.current) != [] then ChunkState(st.chunks + [Trim(st.current)], market)
      else ChunkState(st.chunks + ForceChunk(market, maxLength), [])
    else ChunkState(st.chunks, st.current + market)
  }

  function BlockStepper(maxLength: int, delimiter: string): (ChunkState, string) -> ChunkState
    requires maxLength >= 1
  {
    (st: ChunkState, block: string) => BlockStep(st, block, maxLength, delimiter)
  }

  function BlockLoop(st: ChunkState, blocks: seq<string>, maxLength: int, delimiter: string): ChunkState
    requires maxLength >= 1
  {
    Scan(BlockStepper(maxLength, delimiter), st, blocks)
  }

  /** The separator path: split at the delimiter, then pack whole blocks greedily. */
  function SeparatorChunking(text: string, maxLength: int): seq<string>
    requires maxLength >= 1
  {
    var markets := Split(text, BlockDelimiter);
    var st := BlockLoop(ChunkState([], markets[0]), markets[1..], maxLength, BlockDelimiter);
    FilterNonEmpty(CloseLast(st.chunks, st.current))
  }

  /**
    `smartChunkContent(text, maxLength)`: a text that fits is returned whole;
    otherwise it is packed block by block when it contains the rule, and line
    by line when it does not. No chunk of a long text is empty, and only
    whitespace is ever lost.
   */
  function SmartChunk(text: string, maxLength: int): (chunks: seq<string>)
    requires maxLength >= 1
    ensures |text| <= maxLength ==> chunks == [text]
    ensures |text| > maxLength ==> NoneEmpty(chunks)
    ensures Content(chunks) == RemoveWhitespace(text)
  {
    if |text| <= maxLength then
      ContentSingle(text);
      [text]
    else if Contains(text, Separator) then
      SeparatorChunkingKeepsContent(text, maxLength);
      SeparatorChunking(text, maxLength)
    else LineBasedChunking(text, maxLength)
  }

  /** Without the rule in the text, every chunk of `smartChunkContent` fits the limit. */
  lemma SmartChunkWithoutSeparatorIsBounded(text: string, maxLength: int)
    requires maxLength >= 1 && !Contains(text, Separator)
    ensures Bounded(SmartChunk(text, maxLength), maxLength) || SmartChunk(text, maxLength) == [[]]
    ensures |text| > maxLength ==> SmartChunk(text, maxLength) == LineBasedChunking(text, maxLength)
  {
  }

  lemma BlockStepKeepsContent(st: ChunkState, block: string, maxLength: int, delimiter: string)
    requires maxLength >= 1
    ensures StateContent(BlockStep(st, block, maxLength, delimiter))
      == StateContent(st) + RemoveWhitespace(delimiter + block)
  {
    var cur := st.current;
    var market := delimiter + block;
    var st' := BlockStep(st, block, maxLength, delimiter);
    if |cur + market| <= maxLength {
      assert st' == ChunkState(st.chunks, cur + market);
      RemoveWhitespaceAppend(cur, market);
      SeqAssoc(Content(st.chunks), RemoveWhitespace(cur), RemoveWhitespace(market));
    } else if Trim(cur) != [] {
      BlockStepPushContent(st, market);
      assert st' == ChunkState(CloseLast(st.chunks, cur), market);
    } else {
      BlockStepForcedContent(st, market, maxLength);
      assert st' == ChunkState(st.chunks + ForceChunk(market, maxLength), []);
    }
  }

  lemma {:induction false} BlockStepPushContent(st: ChunkState, market: string)
    requires Trim(st.current) != []
    ensures StateContent(ChunkState(CloseLast(st.chunks, st.current), market))
      == StateContent(st) + RemoveWhitespace(market)
  {
    CloseLastContent(st.chunks, st.current);
  }

  lemma BlockStepForcedContent(st: ChunkState, market: string, maxLength: int)
    requires maxLength >= 1 && Trim(st.current) == []
    ensures StateContent(ChunkState(st.chunks + ForceChunk(market, maxLength), []))
      == StateContent(st) + RemoveWhitespace(market)
  {
    ContentAppend(st.chunks, ForceChunk(market, maxLength));
    TrimEmptyIffBlank(st.current);
    RemoveWhitespaceOfBlank(st.current);
    assert RemoveWhitespace([]) == [];
    assert Content(st.chunks) + [] == Content(st.chunks);
    assert StateContent(st) == Content(st.chunks);
  }

  /** The content one delimited block adds. */
  function Delimited(delimiter: string): string -> string {
    (block: string) => RemoveWhitespace(delimiter + block)
  }

  lemma BlockLoopKeepsContent(st: ChunkState, blocks: seq<string>, maxLength: int, delimiter: string)
    requires maxLength >= 1
    ensures StateContent(BlockLoop(st, blocks, maxLength, delimiter))
      == StateContent(st) + RemoveWhitespace(Flatten(PrefixEach(blocks, delimiter)))
  {
    forall s: ChunkState, x: string
      ensures StateContent(BlockStepper(maxLength, delimiter)(s, x)) == StateContent(s) + Delimited(delimiter)(x)
    {
      BlockStepKeepsContent(s, x, maxLength, delimiter);
    }
    ScanKeepsContent(BlockStepper(maxLength, delimiter), Delimited(delimiter), st, blocks);
    GainsOfDelimited(blocks, delimiter);
  }

  /** The blocks' content is the content of the delimited blocks laid end to end. */
  lemma {:induction false} GainsOfDelimited(blocks: seq<string>, delimiter: string)
    ensures Gains(Delimited(delimiter), blocks) == RemoveWhitespace(Flatten(PrefixEach(blocks, delimiter)))
  {
    if blocks == [] {
      assert PrefixEach(blocks, delimiter) == [];
    } else {
      GainsOfDelimited(blocks[1..], delimiter);
      PrefixEachContent(blocks, delimiter);
    }
  }

  lemma PrefixEachContent(blocks: seq<string>, sep: string)
    requires blocks != []
    ensures RemoveWhitespace(Flatten(PrefixEach(blocks, sep)))
      == RemoveWhitespace(sep + blocks[0]) + RemoveWhitespace(Flatten(PrefixEach(blocks[1..], sep)))
  {
    var p := PrefixEach(blocks, sep);
    assert p[1..] == PrefixEach(blocks[1..], sep);
    assert Flatten(p) == p[0] + Flatten(p[1..]);
    RemoveWhitespaceAppend(p[0], Flatten(p[1..]));
  }

  lemma SeparatorChunkingKeepsContent(text: string, maxLength: int)
    requires maxLength >= 1
    ensures Content(SeparatorChunking(text, maxLength)) == RemoveWhitespace(text)
  {
    var markets := Split(text, BlockDelimiter);
    var rest := Flatten(PrefixEach(markets[1..], BlockDelimiter));
    var st := BlockLoop(ChunkState([], markets[0]), markets[1..], maxLength, BlockDelimiter);
    BlockLoopKeepsContent(ChunkState([], markets[0]), markets[1..], maxLength, BlockDelimiter);
    CloseLastContent(st.chunks, st.current);
    assert text == markets[0] + rest by {
      JoinSplit(text, BlockDelimiter);
      JoinIsHeadThenPrefixed(markets, BlockDelimiter);
    }
    RemoveWhitespaceAppend(markets[0], rest);
    assert Content([]) == [];
    assert StateContent(ChunkState([], markets[0])) == RemoveWhitespace(markets[0]);
  }

  /**
    On the separator path a chunk is closed only when the next block does not
    fit: the pushed chunks grow in a step exactly when appending the block
    would exceed `maxLength`.
   */
  lemma BlockStepClosesOnlyOnOverflow(st: ChunkState, block: string, maxLength: int)
    requires maxLength >= 1
    ensures var st' := BlockStep(st, block, maxLength, BlockDelimiter);
      && st.chunks <= st'.chunks
      && (|st'.chunks| > |st.chunks| <==> |st.current + BlockDelimiter + block| > maxLength)
  {
    var market := BlockDelimiter + block;
    assert st.current + BlockDelimiter + block == st.current + market;
  }

  lemma PrefixedCons(blocks: seq<string>, delimiter: string)
    requires blocks != []
    ensures Flatten(PrefixEach(blocks, delimiter))
      == (delimiter + blocks[0]) + Flatten(PrefixEach(blocks[1..], delimiter))
  {
    var p := PrefixEach(blocks, delimiter);
    assert p[1..] == PrefixEach(blocks[1..], delimiter);
  }

  lemma BlockLoopCons(st: ChunkState, blocks: seq<string>, maxLength: int, delimiter: string)
    requires maxLength >= 1 && blocks != []
    ensures BlockLoop(st, blocks, maxLength, delimiter)
      == BlockLoop(BlockStep(st, blocks[0], maxLength, delimiter), blocks[1..], maxLength, delimiter)
  {
  }

  /** While the blocks fit, nothing is pushed and they are all kept in `currentChunk`. */
  lemma {:induction false} BlockLoopKeepsFittingBlocks(st: ChunkState, blocks: seq<string>, maxLength: int, delimiter: string)
    requires maxLength >= 1
    requires |st.current| + |Flatten(PrefixEach(blocks, delimiter))| <= maxLength
    ensures BlockLoop(st, blocks, maxLength, delimiter)
      == ChunkState(st.chunks, st.current + Flatten(PrefixEach(blocks, delimiter)))
    decreases |blocks|
  {
    if blocks == [] {
      assert PrefixEach(blocks, delimiter) == [];
      assert st.current + [] == st.current;
    } else {
      var head := delimiter + blocks[0];
      var rest := Flatten(PrefixEach(blocks[1..], delimiter));
      PrefixedCons(blocks, delimiter);
      var st1 := ChunkState(st.chunks, st.current + head);
      assert BlockStep(st, blocks[0], maxLength, delimiter) == st1;
      BlockLoopCons(st, blocks, maxLength, delimiter);
      BlockLoopKeepsFittingBlocks(st1, blocks[1..], maxLength, delimiter);
      assert st.current + head + rest == st.current + (head + rest);
    }
  }

  /**
    A text that contains the rule but never on a line of its own is not split
    at all: it comes back trimmed as one chunk, however long it is.
   */
  lemma SeparatorWithoutDelimiterStaysWhole(text: string, maxLength: int)
    requires maxLength >= 1 && |text| > maxLength
    requires Contains(text, Separator) && !Contains(text, BlockDelimiter)
    ensures SmartChunk(text, maxLength) == [Trim(text)]
    ensures Trim(text) == text ==> |SmartChunk(text, maxLength)[0]| > maxLength
  {
    SplitWithoutSeparator(text, BlockDelimiter);
    var i := IndexOf(text, Separator);
    assert OccursAt(text, Separator, i);
    assert text[i] == Separator[0] == '\U{2501}';
    assert !IsWhitespace(text[i]);
    assert !AllWhitespace(text);
    TrimEmptyIffBlank(text);
    var markets := Split(text, BlockDelimiter);
    assert markets[1..] == [];
    var st := BlockLoop(ChunkState([], markets[0]), markets[1..], maxLength, BlockDelimiter);
    assert st == ChunkState([], text);
    assert CloseLast(st.chunks, st.current) == [Trim(text)];
    assert SeparatorChunking(text, maxLength) == [Trim(text)];
  }
}
