/**
  The message helpers of the Discord client wrapper: splitting a long message
  at line breaks, truncating a text, appending a list of sources to an answer,
  and deciding whether a reply goes out whole or in pieces.
 */
module DiscordClient {
  import opened JsString
  import opened Numerals
  import opened ChatTypes

  /** The default `maxLength` of `sendLongMessage`: Discord's message limit. */
  const DefaultMaxLength: int := 2000

  predicate NoneEmpty(chunks: seq<string>) {
    forall i :: 0 <= i < |chunks| ==> chunks[i] != []
  }

  predicate AllWithin(parts: seq<string>, maxLength: int) {
    forall i :: 0 <= i < |parts| ==> |parts[i]| <= maxLength
  }

  // ---------------------------------------------------------------------------
  // splitMessage

  /** The loop state of `splitMessage`: chunks pushed so far and `currentChunk`. */
  datatype SplitState = SplitState(chunks: seq<string>, current: string)

  /** One iteration of the loop over `text.split('\n')`. */
  function SplitStep(st: SplitState, line: string, maxLength: int): SplitState {
    if |st.current| + |line| + 1 > maxLength then
      SplitState(if st.current != [] then st.chunks + [st.current] else st.chunks, line)
    else
      SplitState(st.chunks, st.current + (if st.current != [] then "\n" else "") + line)
  }

  function SplitLoop(st: SplitState, lines: seq<string>, maxLength: int): (r: SplitState)
    ensures NoneEmpty(st.chunks) ==> NoneEmpty(r.chunks)
    decreases |lines|
  {
    if lines == [] then st else SplitLoop(SplitStep(st, lines[0], maxLength), lines[1..], maxLength)
  }

  /** `splitMessage(text, maxLength)`: lines are packed greedily, joined by newlines. */
  function SplitMessage(text: string, maxLength: int): (chunks: seq<string>)
    ensures NoneEmpty(chunks)
  {
    var st := SplitLoop(SplitState([], []), Split(text, "\n"), maxLength);
    if st.current != [] then st.chunks + [st.current] else st.chunks
  }

  lemma {:induction false} SplitLoopBounded(st: SplitState, lines: seq<string>, maxLength: int)
    requires AllWithin(st.chunks, maxLength) && |st.current| <= maxLength
    requires AllWithin(lines, maxLength)
    ensures var r := SplitLoop(st, lines, maxLength);
      AllWithin(r.chunks, maxLength) && |r.current| <= maxLength
    decreases |lines|
  {
    if lines != [] {
      SplitLoopBounded(SplitStep(st, lines[0], maxLength), lines[1..], maxLength);
    }
  }

  /** When no line is longer than `maxLength`, no chunk is either. */
  lemma SplitMessageBounded(text: string, maxLength: int)
    requires maxLength >= 0
    requires AllWithin(Split(text, "\n"), maxLength)
    ensures AllWithin(SplitMessage(text, maxLength), maxLength)
  {
    SplitLoopBounded(SplitState([], []), Split(text, "\n"), maxLength);
  }

  lemma JoinMerge(xs: seq<string>, a: string, b: string, ys: seq<string>, sep: string)
    ensures Join(xs + [a + sep + b] + ys, sep) == Join(xs + [a, b] + ys, sep)
  {
    var tail1 := [a + sep + b] + ys;
    var tail2 := [a, b] + ys;
    assert Join(tail1, sep) == Join(tail2, sep) by {
      JoinMergeHead(a, b, ys, sep);
    }
    assert xs + [a + sep + b] + ys == xs + tail1;
    assert xs + [a, b] + ys == xs + tail2;
    if xs != [] {
      assert Join(xs + tail1, sep) == Join(xs, sep) + sep + Join(tail1, sep) by {
        JoinAppend(xs, tail1, sep);
      }
      assert Join(xs + tail2, sep) == Join(xs, sep) + sep + Join(tail2, sep) by {
        JoinAppend(xs, tail2, sep);
      }
    } else {
      assert xs + tail1 == tail1 && xs + tail2 == tail2;
    }
  }

  lemma JoinMergeHead(a: string, b: string, ys: seq<string>, sep: string)
    ensures Join([a + sep + b] + ys, sep) == Join([a, b] + ys, sep)
  {
    if ys == [] {
      assert [a + sep + b] + ys == [a + sep + b];
      assert [a, b] + ys == [a] + [b];
      JoinCons(a, [b], sep);
    } else {
      JoinCons(a + sep + b, ys, sep);
      JoinCons(b, ys, sep);
      assert [a, b] + ys == [a] + ([b] + ys);
      JoinCons(a, [b] + ys, sep);
      assert a + sep + b + sep + Join(ys, sep) == a + sep + (b + sep + Join(ys, sep));
    }
  }

  predicate NoEmptyLine(lines: seq<string>) {
    forall i :: 0 <= i < |lines| ==> lines[i] != []
  }

  lemma {:induction false} SplitLoopJoins(st: SplitState, lines: seq<string>, maxLength: int)
    requires st.current != [] && NoEmptyLine(lines)
    ensures var r := SplitLoop(st, lines, maxLength);
      r.current != []
      && Join(r.chunks + [r.current], "\n") == Join(st.chunks + [st.current] + lines, "\n")
    decreases |lines|
  {
    if lines != [] {
      var st1 := SplitStep(st, lines[0], maxLength);
      SplitLoopJoins(st1, lines[1..], maxLength);
      if |st.current| + |lines[0]| + 1 > maxLength {
        assert st1.chunks + [st1.current] + lines[1..] == st.chunks + [st.current] + lines;
      } else {
        assert st1.current == st.current + "\n" + lines[0];
        JoinMerge(st.chunks, st.current, lines[0], lines[1..], "\n");
        assert st.chunks + [st.current, lines[0]] + lines[1..] == st.chunks + [st.current] + lines;
      }
    } else {
      assert st.chunks + [st.current] + lines == st.chunks + [st.current];
    }
  }

  /** When no line is empty, joining the chunks with newlines gives back the text. */
  lemma SplitMessageJoins(text: string, maxLength: int)
    requires NoEmptyLine(Split(text, "\n"))
    ensures Join(SplitMessage(text, maxLength), "\n") == text
  {
    var lines := Split(text, "\n");
    var st1 := SplitStep(SplitState([], []), lines[0], maxLength);
    assert st1 == SplitState([], lines[0]);
    SplitLoopJoins(st1, lines[1..], maxLength);
    assert [] + [lines[0]] + lines[1..] == lines;
    JoinSplit(text, "\n");
  }

  /** A non-empty text without line breaks comes back as a single chunk, however long. */
  lemma SplitMessageKeepsLongLine(text: string, maxLength: int)
    requires text != [] && !Contains(text, "\n")
    ensures SplitMessage(text, maxLength) == [text]
  {
    SplitWithoutSeparator(text, "\n");
    var lines := Split(text, "\n");
    assert lines[1..] == [];
    var st1 := SplitStep(SplitState([], []), text, maxLength);
    assert st1 == SplitState([], text);
    assert SplitLoop(SplitState([], []), lines, maxLength) == SplitLoop(st1, lines[1..], maxLength);
  }

  // ---------------------------------------------------------------------------
  // truncateText

  /** `truncateText(text, maxLength)` */
  function TruncateText(text: string, maxLength: int): (r: string)
    ensures |text| <= maxLength ==> r == text
    ensures |text| > maxLength && maxLength >= 3 ==>
      |r| == maxLength && r[..maxLength - 3] == text[..maxLength - 3] && r[maxLength - 3..] == "..."
    ensures |text| > maxLength && maxLength < 3 ==> r == "..."
  {
    if |text| <= maxLength then text else Substring(text, 0, maxLength - 3) + "..."
  }

  /** Truncating twice is truncating once, for every limit. */
  lemma TruncateTextIdempotent(text: string, maxLength: int)
    ensures TruncateText(TruncateText(text, maxLength), maxLength) == TruncateText(text, maxLength)
  {
  }

  // ---------------------------------------------------------------------------
  // formatChatResponse

  const SourcesHeader: string := "\n\n**\U{1F4DA} Sources:**\n"

  /** One `[n] source` line. */
  function CitationLine(c: Citation): string {
    "[" + IntToString(c.number) + "] " + c.source + "\n"
  }

  function CitationLines(citations: seq<Citation>): (r: string)
    ensures citations != [] ==> r != []
  {
    if citations == [] then [] else CitationLine(citations[0]) + CitationLines(citations[1..])
  }

  /** The lines of two runs of citations are the lines of the first followed by those of the second. */
  lemma {:induction false} CitationLinesAppend(a: seq<Citation>, b: seq<Citation>)
    ensures CitationLines(a + b) == CitationLines(a) + CitationLines(b)
  {
    if a != [] {
      var x := CitationLine(a[0]);
      assert CitationLines(a + b) == x + CitationLines(a[1..] + b) by {
        assert (a + b)[0] == a[0];
        assert (a + b)[1..] == a[1..] + b;
      }
      CitationLinesAppend(a[1..], b);
      assert CitationLines(a) == x + CitationLines(a[1..]);
      assert x + (CitationLines(a[1..]) + CitationLines(b)) == (x + CitationLines(a[1..])) + CitationLines(b);
    } else {
      assert a + b == b;
    }
  }

  /**
    `formatChatResponse(answer, sources, citations)`: the answer unchanged
    when there are no citations, otherwise the answer followed by the header
    and one line per citation in key order. `sources` is not used.
   */
  function FormatChatResponse(answer: string, sources: seq<string>, citations: seq<Citation>): (r: string)
    ensures |r| >= |answer| && r[..|answer|] == answer
    ensures r == answer <==> citations == []
    ensures citations != [] ==> r[|answer|..] == SourcesHeader + CitationLines(citations)
  {
    if citations == [] then answer
    else
      var tail := SourcesHeader + CitationLines(citations);
      assert |tail| > 0 by {
        assert |SourcesHeader| > 0;
      }
      AppendParts(answer, tail);
      answer + tail
  }

  lemma AppendParts(head: string, tail: string)
    ensures |head + tail| == |head| + |tail|
    ensures (head + tail)[..|head|] == head && (head + tail)[|head|..] == tail
  {
  }

  // ---------------------------------------------------------------------------
  // sendLongMessage

  /** How `sendLongMessage` delivers: one reply, or the chunks of `splitMessage` in order. */
  datatype Delivery = SingleReply(content: string) | Chunked(chunks: seq<string>)

  function SendLongMessage(content: string, maxLength: int): (d: Delivery)
    ensures d.SingleReply? <==> |content| <= maxLength
    ensures d.SingleReply? ==> d.content == content
    ensures d.Chunked? ==> NoneEmpty(d.chunks)
  {
    if |content| <= maxLength then SingleReply(content) else Chunked(SplitMessage(content, maxLength))
  }

  /** The messages that go out, first as a reply and the rest to the channel. */
  function Messages(d: Delivery): seq<string> {
    match d
    case SingleReply(c) => [c]
    case Chunked(cs) => cs
  }

  /**
    With the default limit, a text that fits goes out as one unchanged reply;
    a longer one goes out in pieces that rejoin to the text when it has no
    empty line and that fit the limit when its lines do.
   */
  lemma {:induction false} SendLongMessageDefault(content: string)
    ensures |content| <= DefaultMaxLength ==> Messages(SendLongMessage(content, DefaultMaxLength)) == [content]
    ensures |content| > DefaultMaxLength && NoEmptyLine(Split(content, "\n")) ==>
      Join(Messages(SendLongMessage(content, DefaultMaxLength)), "\n") == content
    ensures AllWithin(Split(content, "\n"), DefaultMaxLength) ==>
      AllWithin(Messages(SendLongMessage(content, DefaultMaxLength)), DefaultMaxLength)
  {
    if |content| > DefaultMaxLength {
      if NoEmptyLine(Split(content, "\n")) {
        SplitMessageJoins(content, DefaultMaxLength);
      }
      if AllWithin(Split(content, "\n"), DefaultMaxLength) {
        SplitMessageBounded(content, DefaultMaxLength);
      }
    }
  }
}
