/**
  The chat API's POST handler: it checks the query, numbers the retrieved
  documents, decides whether live market data is needed, assembles citations
  and sources, and turns errors into HTTP statuses. The remote services
  (configuration, vector index, search, blockchain reader, language model)
  appear as the outcomes they deliver.
 */
module ChatRoute {
  import opened Wrappers
  import opened JsString
  import opened ChatTypes

  // ---------------------------------------------------------------------------
  // Input validation

  /** A JSON value, as far as `!query || typeof query !== 'string'` tells values apart. */
  datatype JsonValue = Absent | Null | Boolean(b: bool) | Number(n: int) | Text(s: string) | Compound

  /** The query the handler works with, or `None` when the request is answered with 400. */
  function ValidQuery(v: JsonValue): (r: Option<string>)
    ensures r.Some? <==> v.Text? && v.s != []
    ensures r.Some? ==> r.value == v.s
  {
    match v
    case Text(s) => if s == [] then None else Some(s)
    case _ => None
  }

  // ---------------------------------------------------------------------------
  // Documents

  /** A search hit: its page content and `metadata.source`, `None` when that is absent. */
  datatype Hit = Hit(content: string, source: Option<string>)

  /** A retrieved document with its 1-based number. */
  datatype Document = Document(content: string, source: string, index: int)

  const UnknownSource: string := "unknown"

  /** `doc.metadata.source || 'unknown'` */
  function SourceOf(source: Option<string>): (s: string)
    ensures s != []
    ensures source.Some? && source.value != [] ==> s == source.value
    ensures source.None? || source.value == [] ==> s == UnknownSource
  {
    if source.Some? && source.value != [] then source.value else UnknownSource
  }

  /** The documents of `hits`, numbered from `first` on. */
  function NumberFrom(hits: seq<Hit>, first: int): (docs: seq<Document>)
    ensures |docs| == |hits|
    ensures forall i :: 0 <= i < |hits| ==>
      docs[i] == Document(hits[i].content, SourceOf(hits[i].source), first + i)
    decreases |hits|
  {
    if hits == [] then []
    else [Document(hits[0].content, SourceOf(hits[0].source), first)] + NumberFrom(hits[1..], first + 1)
  }

  /** `retrievalResults.map(([doc, score], index) => ({ ..., index: index + 1 }))` */
  function NumberDocuments(hits: seq<Hit>): seq<Document> {
    NumberFrom(hits, 1)
  }

  /** The `source` of every document, in order, duplicates included. */
  function SourcesOf(docs: seq<Document>): (r: seq<string>)
    ensures |r| == |docs|
    ensures forall i :: 0 <= i < |docs| ==> r[i] == docs[i].source
  {
    seq(|docs|, i requires 0 <= i < |docs| => docs[i].source)
  }

  /** The citations object `{ [doc.index]: doc.source }`, in key order. */
  function CitationsOf(docs: seq<Document>): (r: seq<Citation>)
    ensures |r| == |docs|
    ensures forall i :: 0 <= i < |docs| ==> r[i] == Citation(docs[i].index, docs[i].source)
  {
    seq(|docs|, i requires 0 <= i < |docs| => Citation(docs[i].index, docs[i].source))
  }

  /**
    The documents are numbered 1..k in retrieval order, so the citations are
    in key order, one per document, and citation `i` names the source of hit `i`.
   */
  lemma NumberedCitations(hits: seq<Hit>)
    ensures var cs := CitationsOf(NumberDocuments(hits));
      && |cs| == |hits|
      && InKeyOrder(cs)
      && forall i :: 0 <= i < |hits| ==> cs[i].number == i + 1 && cs[i].source == SourceOf(hits[i].source)
  {
  }

  // ---------------------------------------------------------------------------
  // Deduplicated sources

  predicate NoDuplicates(xs: seq<string>) {
    forall i, j :: 0 <= i < j < |xs| ==> xs[i] != xs[j]
  }

  /**
    The distinct elements of `xs` in order of first occurrence: the reference
    for the loop that pushes a source unless `sources.includes` it.
   */
  function Dedup(xs: seq<string>): (r: seq<string>)
    ensures forall x :: x in r <==> x in xs
    ensures NoDuplicates(r)
    decreases |xs|
  {
    if xs == [] then []
    else
      var init := xs[..|xs| - 1];
      var d := Dedup(init);
      assert xs == init + [xs[|xs| - 1]];
      if xs[|xs| - 1] in d then d else d + [xs[|xs| - 1]]
  }

  /** The position of the first occurrence of `x` in `xs`. */
  function FirstIndex(xs: seq<string>, x: string): (k: nat)
    requires x in xs
    ensures k < |xs| && xs[k] == x
    ensures forall j :: 0 <= j < k ==> xs[j] != x
  {
    if xs[0] == x then 0 else 1 + FirstIndex(xs[1..], x)
  }

  lemma FirstIndexAppend(xs: seq<string>, z: string, y: string)
    requires y in xs
    ensures FirstIndex(xs + [z], y) == FirstIndex(xs, y)
  {
    var k' := FirstIndex(xs, y);
    assert (xs + [z])[k'] == y;
  }

  lemma FirstIndexOfNew(xs: seq<string>, z: string)
    requires z !in xs
    ensures FirstIndex(xs + [z], z) == |xs|
  {
    assert (xs + [z])[|xs|] == z;
  }

  /** Each source comes before the next in the order of their first occurrences. */
  lemma {:induction false} DedupKeepsFirstOccurrenceOrder(xs: seq<string>)
    ensures forall i, j :: 0 <= i < j < |Dedup(xs)| ==> FirstIndex(xs, Dedup(xs)[i]) < FirstIndex(xs, Dedup(xs)[j])
    decreases |xs|
  {
    if xs != [] {
      var init := xs[..|xs| - 1];
      var z := xs[|xs| - 1];
      assert xs == init + [z];
      DedupKeepsFirstOccurrenceOrder(init);
      var d := Dedup(init);
      var r := Dedup(xs);
      forall i | 0 <= i < |d|
        ensures FirstIndex(xs, d[i]) == FirstIndex(init, d[i])
      {
        FirstIndexAppend(init, z, d[i]);
      }
      if z !in d {
        assert r == d + [z];
        FirstIndexOfNew(init, z);
        forall i, j | 0 <= i < j < |r|
          ensures FirstIndex(xs, r[i]) < FirstIndex(xs, r[j])
        {
          assert r[i] == d[i];
          if j == |d| {
            assert FirstIndex(init, d[i]) < |init|;
          } else {
            assert r[j] == d[j];
            assert FirstIndex(init, d[i]) < FirstIndex(init, d[j]);
          }
        }
      } else {
        assert r == d;
      }
    }
  }

  /** Deduplicating an already duplicate-free list changes nothing. */
  lemma {:induction false} DedupOfDistinct(xs: seq<string>)
    requires NoDuplicates(xs)
    ensures Dedup(xs) == xs
    decreases |xs|
  {
    if xs != [] {
      var init := xs[..|xs| - 1];
      assert NoDuplicates(init);
      DedupOfDistinct(init);
      assert xs[|xs| - 1] !in init;
      assert init + [xs[|xs| - 1]] == xs;
    }
  }

  /**
    The `documents.forEach` loop: one citation per document, and each source
    pushed unless already present.
   */
  method CollectCitations(docs: seq<Document>) returns (citations: seq<Citation>, sources: seq<string>)
    ensures citations == CitationsOf(docs)
    ensures sources == Dedup(SourcesOf(docs))
    ensures NoDuplicates(sources)
    ensures forall i :: 0 <= i < |docs| ==> docs[i].source in sources
    ensures forall s :: s in sources ==> exists i :: 0 <= i < |docs| && docs[i].source == s
  {
    citations := [];
    sources := [];
    var i := 0;
    while i < |docs|
      invariant 0 <= i <= |docs|
      invariant citations == CitationsOf(docs[..i])
      invariant sources == Dedup(SourcesOf(docs[..i]))
    {
      assert SourcesOf(docs[..i + 1]) == SourcesOf(docs[..i]) + [docs[i].source];
      assert SourcesOf(docs[..i + 1])[..i] == SourcesOf(docs[..i]);
      citations := citations + [Citation(docs[i].index, docs[i].source)];
      if docs[i].source !in sources {
        sources := sources + [docs[i].source];
      }
      i := i + 1;
    }
    assert docs[..i] == docs;
    forall s | s in sources
      ensures exists i :: 0 <= i < |docs| && docs[i].source == s
    {
      var k :| 0 <= k < |docs| && SourcesOf(docs)[k] == s;
    }
  }

  // ---------------------------------------------------------------------------
  // needsLiveData

  const LiveKeywords: seq<string> := ["current", "live", "active", "real-time", "now", "today"]

  predicate NoLineBreak(s: string) {
    forall k :: 0 <= k < |s| ==> !IsLineTerminator(s[k])
  }

  /**
    The regular expression `a.*b` matches somewhere in `q`: an occurrence of
    `a`, later an occurrence of `b`, and no line terminator in between.
   */
  predicate GapMatch(q: string, a: string, b: string) {
    exists i, j :: 0 <= i <= |q| && 0 <= j <= |q| && i + |a| <= j
      && OccursAt(q, a, i) && OccursAt(q, b, j) && NoLineBreak(q[i + |a|..j])
  }

  predicate HasLiveKeyword(q: string) {
    exists k :: 0 <= k < |LiveKeywords| && Contains(q, LiveKeywords[k])
  }

  lemma LiveKeywordsListed(q: string)
    ensures HasLiveKeyword(q) <==>
      || Contains(q, "current") || Contains(q, "live") || Contains(q, "active")
      || Contains(q, "real-time") || Contains(q, "now") || Contains(q, "today")
  {
    assert LiveKeywords[0] == "current" && LiveKeywords[1] == "live" && LiveKeywords[2] == "active";
    assert LiveKeywords[3] == "real-time" && LiveKeywords[4] == "now" && LiveKeywords[5] == "today";
  }

  /** What the two regular expressions of `needsLiveData` recognise in the lowercased query `q`. */
  predicate LiveDataPattern(q: string) {
    || HasLiveKeyword(q)
    || GapMatch(q, "market", "status")
    || GapMatch(q, "market", "count")
    || GapMatch(q, "latest", "market")
  }

  predicate NeedsLiveData(query: string) {
    LiveDataPattern(ToLower(query))
  }

  /** An occurrence of `a` ends at or before `k`, and no line terminator follows it before `k`. */
  predicate Armed(q: string, a: string, k: int) {
    exists i :: 0 <= i <= k - |a| && k <= |q| && OccursAt(q, a, i) && NoLineBreak(q[i + |a|..k])
  }

  lemma ArmedStep(q: string, a: string, k: int)
    requires a != [] && 0 <= k < |q|
    ensures Armed(q, a, k + 1) <==>
      (Armed(q, a, k) && !IsLineTerminator(q[k])) || (k + 1 >= |a| && OccursAt(q, a, k + 1 - |a|))
  {
    if Armed(q, a, k + 1) {
      ArmedStepBack(q, a, k);
    }
    if Armed(q, a, k) && !IsLineTerminator(q[k]) {
      ArmedStepExtend(q, a, k);
    }
    if k + 1 >= |a| && OccursAt(q, a, k + 1 - |a|) {
      assert q[k + 1..k + 1] == [];
    }
  }

  lemma ArmedStepBack(q: string, a: string, k: int)
    requires a != [] && 0 <= k < |q| && Armed(q, a, k + 1)
    ensures (Armed(q, a, k) && !IsLineTerminator(q[k])) || (k + 1 >= |a| && OccursAt(q, a, k + 1 - |a|))
  {
    var i :| 0 <= i <= k + 1 - |a| && OccursAt(q, a, i) && NoLineBreak(q[i + |a|..k + 1]);
    if i + |a| <= k {
      var gap := q[i + |a|..k + 1];
      assert gap[k - i - |a|] == q[k];
      assert q[i + |a|..k] == gap[..k - i - |a|];
      assert NoLineBreak(q[i + |a|..k]);
    }
  }

  lemma ArmedStepExtend(q: string, a: string, k: int)
    requires a != [] && 0 <= k < |q| && Armed(q, a, k) && !IsLineTerminator(q[k])
    ensures Armed(q, a, k + 1)
  {
    var i :| 0 <= i <= k - |a| && OccursAt(q, a, i) && NoLineBreak(q[i + |a|..k]);
    assert q[i + |a|..k + 1] == q[i + |a|..k] + [q[k]];
    assert NoLineBreak(q[i + |a|..k + 1]);
  }

  lemma GapMatchIff(q: string, a: string, b: string)
    requires a != [] && b != []
    ensures GapMatch(q, a, b) <==> exists j :: 0 <= j < |q| && Armed(q, a, j) && OccursAt(q, b, j)
  {
    if GapMatch(q, a, b) {
      var i, j :| 0 <= i <= |q| && 0 <= j <= |q| && i + |a| <= j
        && OccursAt(q, a, i) && OccursAt(q, b, j) && NoLineBreak(q[i + |a|..j]);
      assert Armed(q, a, j);
    }
    if exists j :: 0 <= j < |q| && Armed(q, a, j) && OccursAt(q, b, j) {
      var j :| 0 <= j < |q| && Armed(q, a, j) && OccursAt(q, b, j);
      var i :| 0 <= i <= j - |a| && OccursAt(q, a, i) && NoLineBreak(q[i + |a|..j]);
      assert OccursAt(q, a, i) && OccursAt(q, b, j);
    }
  }

  /** One left-to-right scan deciding `a.*b`, remembering whether an `a` is still open. */
  method MatchGap(q: string, a: string, b: string) returns (found: bool)
    requires a != [] && b != []
    ensures found == GapMatch(q, a, b)
  {
    var armed := false;
    found := false;
    var k := 0;
    while k < |q|
      invariant 0 <= k <= |q|
      invariant armed == Armed(q, a, k)
      invariant found == exists j :: 0 <= j < k && Armed(q, a, j) && OccursAt(q, b, j)
    {
      if armed && OccursAt(q, b, k) {
        found := true;
      }
      ArmedStep(q, a, k);
      armed := (armed && !IsLineTerminator(q[k])) || (k + 1 >= |a| && OccursAt(q, a, k + 1 - |a|));
      k := k + 1;
    }
    GapMatchIff(q, a, b);
  }

  /** `needsLiveData`, computed the way the two regular expressions are tried. */
  method DetectLiveData(query: string) returns (needs: bool)
    ensures needs == NeedsLiveData(query)
  {
    var q := ToLower(query);
    needs := Contains(q, "current") || Contains(q, "live") || Contains(q, "active")
      || Contains(q, "real-time") || Contains(q, "now") || Contains(q, "today");
    LiveKeywordsListed(q);
    if !needs {
      var m1 := MatchGap(q, "market", "status");
      var m2 := MatchGap(q, "market", "count");
      var m3 := MatchGap(q, "latest", "market");
      needs := m1 || m2 || m3;
    }
  }

  // ---------------------------------------------------------------------------
  // Error classification

  /** What reaches the outer `catch`: an `Error` with its message, or some other thrown value. */
  datatype Thrown = ErrorWith(message: string) | NonError

  /** The JSON error body and status of the outer `catch`. */
  datatype ErrorReply = ErrorReply(status: int, error: string, details: string)

  const InternalError: string := "Internal server error"
  const PineconeConfigError: string := "Pinecone configuration error"
  const GeminiConfigError: string := "Google Gemini configuration error"
  const ConnectionError: string := "Database connection error"

  /** The outer `catch` of `POST`. */
  function ClassifyError(e: Thrown): (r: ErrorReply)
    ensures r.status == 500 || r.status == 503
    ensures r.details == (if e.ErrorWith? then e.message else "Unknown error")
    ensures r.error == PineconeConfigError <==> e.ErrorWith? && Contains(e.message, "PINECONE_API_KEY")
    ensures r.error == GeminiConfigError <==>
      e.ErrorWith? && !Contains(e.message, "PINECONE_API_KEY") && Contains(e.message, "GOOGLE_GEMINI_API_KEY")
    ensures r.status == 503 <==> r.error == ConnectionError
    ensures r.status == 503 <==>
      && e.ErrorWith?
      && !Contains(e.message, "PINECONE_API_KEY") && !Contains(e.message, "GOOGLE_GEMINI_API_KEY")
      && (Contains(e.message, "connect") || Contains(e.message, "authorization"))
    ensures r.error == InternalError <==>
      !(e.ErrorWith? && (Contains(e.message, "PINECONE_API_KEY") || Contains(e.message, "GOOGLE_GEMINI_API_KEY")
        || Contains(e.message, "connect") || Contains(e.message, "authorization")))
  {
    var details := if e.ErrorWith? then e.message else "Unknown error";
    if e.NonError? then ErrorReply(500, InternalError, details)
    else if Contains(e.message, "PINECONE_API_KEY") then ErrorReply(500, PineconeConfigError, details)
    else if Contains(e.message, "GOOGLE_GEMINI_API_KEY") then ErrorReply(500, GeminiConfigError, details)
    else if Contains(e.message, "connect") || Contains(e.message, "authorization") then
      ErrorReply(503, ConnectionError, details)
    else ErrorReply(500, InternalError, details)
  }

  // The messages `POST` throws itself, one per failing stage. The pieces let
  // the lemmas below find, or rule out, the words `ClassifyError` looks for.
  const PineconeKeyMissing: string := "PINECONE_API_KEY" + " is not set in environment variables"
  const GeminiKeyMissing: string := "GOOGLE_GEMINI_API_KEY" + " is not set in environment variables"
  const ClientInitFailed: string := "Failed to initialize Pine" + "cone client"
  const IndexConnectFailed: string := "Failed to " + "connect" + " to Pinecone index"
  const StoreInitFailed: string := "Failed to initialize ve" + "ctor store"
  const SearchFailed: string := "Failed to sear" + "ch documents"
  const GenerationFailed: string := "Failed to generate" + " AI response"

  /** The words `ClassifyError` looks for, in the order it looks. */
  predicate Mentions(m: string, key1: bool, key2: bool, connection: bool) {
    && Contains(m, "PINECONE_API_KEY") == key1
    && Contains(m, "GOOGLE_GEMINI_API_KEY") == key2
    && (Contains(m, "connect") || Contains(m, "authorization")) == connection
  }

  lemma PineconeKeyMissingMentions()
    ensures Contains(PineconeKeyMissing, "PINECONE_API_KEY")
  {
    StartsWithContains(PineconeKeyMissing, "PINECONE_API_KEY");
  }

  lemma GeminiKeyMissingMentions()
    ensures Mentions(GeminiKeyMissing, false, true, Contains(GeminiKeyMissing, "connect") || Contains(GeminiKeyMissing, "authorization"))
  {
    StartsWithContains(GeminiKeyMissing, "GOOGLE_GEMINI_API_KEY");
    MissingCharNotContained(GeminiKeyMissing, "PINECONE_API_KEY", 4);
  }

  /** Both key names contain `_`. */
  lemma NoKeyWithoutUnderscore(m: string)
    requires '_' !in m
    ensures !Contains(m, "PINECONE_API_KEY") && !Contains(m, "GOOGLE_GEMINI_API_KEY")
  {
    MissingCharNotContained(m, "PINECONE_API_KEY", 8);
    MissingCharNotContained(m, "GOOGLE_GEMINI_API_KEY", 6);
  }

  lemma ClientInitFailedLacksConnect()
    ensures !Contains(ClientInitFailed, "connect")
  {
    var u, v := "Failed to initialize Pine", "cone client";
    if Contains(u + v, "connect") {
      ContainsPastPrefix(u, v, "connect");
      MismatchNotAt(v, "connect", 0, 3);
      ContainsPastFirst(v, "connect");
    }
  }

  lemma StoreInitFailedLacksConnect()
    ensures !Contains(StoreInitFailed, "connect")
  {
    var u, v := "Failed to initialize ve", "ctor store";
    if Contains(u + v, "connect") {
      ContainsPastPrefix(u, v, "connect");
      MismatchNotAt(v, "connect", 0, 1);
      ContainsPastFirst(v, "connect");
    }
  }

  lemma SearchFailedLacksConnect()
    ensures !Contains(SearchFailed, "connect")
  {
    var u, v := "Failed to sear", "ch documents";
    if Contains(u + v, "connect") {
      ContainsPastPrefix(u, v, "connect");
      MismatchNotAt(v, "connect", 0, 1);
      ContainsPastFirst(v, "connect");
      ContainsPastPrefix("h do", "cuments", "connect");
    }
  }

  lemma ClientInitFailedMentions()
    ensures Mentions(ClientInitFailed, false, false, false)
  {
    assert '_' !in ClientInitFailed && 'h' !in ClientInitFailed;
    NoKeyWithoutUnderscore(ClientInitFailed);
    MissingCharNotContained(ClientInitFailed, "authorization", 3);
    ClientInitFailedLacksConnect();
  }

  lemma IndexConnectFailedMentions()
    ensures Mentions(IndexConnectFailed, false, false, true)
  {
    assert '_' !in IndexConnectFailed;
    NoKeyWithoutUnderscore(IndexConnectFailed);
    ContainsMiddle("Failed to ", "connect", " to Pinecone index");
  }

  lemma StoreInitFailedMentions()
    ensures Mentions(StoreInitFailed, false, false, false)
  {
    assert '_' !in StoreInitFailed && 'h' !in StoreInitFailed;
    NoKeyWithoutUnderscore(StoreInitFailed);
    MissingCharNotContained(StoreInitFailed, "authorization", 3);
    StoreInitFailedLacksConnect();
  }

  lemma SearchFailedMentions()
    ensures Mentions(SearchFailed, false, false, false)
  {
    assert '_' !in SearchFailed && 'z' !in SearchFailed;
    NoKeyWithoutUnderscore(SearchFailed);
    MissingCharNotContained(SearchFailed, "authorization", 7);
    SearchFailedLacksConnect();
  }

  lemma GenerationFailedMentions()
    ensures Mentions(GenerationFailed, false, false, false)
  {
    assert '_' !in GenerationFailed && 'h' !in GenerationFailed && 'c' !in GenerationFailed;
    NoKeyWithoutUnderscore(GenerationFailed);
    MissingCharNotContained(GenerationFailed, "authorization", 3);
    MissingCharNotContained(GenerationFailed, "connect", 0);
  }

  // ---------------------------------------------------------------------------
  // POST

  /** The body as `await request.json()` and the destructuring of `query` see it. */
  datatype Body = Parsed(query: JsonValue) | Unreadable(message: string)

  /** What the language model call gives: an answer, an `Error`, or some other thrown value. */
  datatype Generation = Answer(text: string) | GenerationError(message: string) | GenerationThrew

  /**
    The outcomes of everything `POST` depends on: whether the two keys are
    set, whether the index client, the connection check and the vector store
    succeed, the search hits (`None` when the search fails), the live market
    data (`None` when fetching it fails) and the generation outcome.
   */
  datatype Services<L> = Services(
    pineconeKeySet: bool,
    geminiKeySet: bool,
    clientOk: bool,
    indexReachable: bool,
    storeOk: bool,
    search: Option<seq<Hit>>,
    liveData: Option<L>,
    generation: Generation)

  datatype Reply<L> =
    | BadRequest
    | RateLimited(sources: seq<string>, citations: seq<Citation>)
    | Failed(reply: ErrorReply)
    | Answered(answer: string, sources: seq<string>, citations: seq<Citation>, liveData: Option<L>)
  {
    function Status(): int {
      match this
      case BadRequest => 400
      case RateLimited(_, _) => 429
      case Failed(e) => e.status
      case Answered(_, _, _, _) => 200
    }
  }

  /** How the `try` block of `POST` ends: with a reply, or by throwing. */
  datatype Outcome<L> = Replied(reply: Reply<L>) | Threw(thrown: Thrown)

  /** The `try` block of `POST`, without logging, timing and the prompt text. */
  function TryBlock<L>(body: Body, s: Services<L>): Outcome<L> {
    match body
    case Unreadable(m) => Threw(ErrorWith(m))
    case Parsed(v) =>
      var q := ValidQuery(v);
      if q.None? then Replied(BadRequest)
      else if !s.pineconeKeySet then Threw(ErrorWith(PineconeKeyMissing))
      else if !s.geminiKeySet then Threw(ErrorWith(GeminiKeyMissing))
      else if !s.clientOk then Threw(ErrorWith(ClientInitFailed))
      else if !s.indexReachable then Threw(ErrorWith(IndexConnectFailed))
      else if !s.storeOk then Threw(ErrorWith(StoreInitFailed))
      else if s.search.None? then Threw(ErrorWith(SearchFailed))
      else
        var docs := NumberDocuments(s.search.value);
        var live := if NeedsLiveData(q.value) then s.liveData else None;
        match s.generation
        case Answer(text) => Replied(Answered(text, Dedup(SourcesOf(docs)), CitationsOf(docs), live))
        case GenerationError(m) =>
          if Contains(m, "429") then Replied(RateLimited(SourcesOf(docs), CitationsOf(docs)))
          else Threw(ErrorWith(GenerationFailed))
        case GenerationThrew => Threw(ErrorWith(GenerationFailed))
  }

  /** `POST`: the `try` block, with whatever it throws handed to the `catch`. */
  function Post<L>(body: Body, s: Services<L>): Reply<L> {
    match TryBlock(body, s)
    case Replied(r) => r
    case Threw(e) => Failed(ClassifyError(e))
  }

  /** A readable body gets 400 exactly when its query is missing, empty or not a string, whatever the services do. */
  lemma PostValidatesFirst<L>(v: JsonValue, s: Services<L>)
    ensures Post(Parsed(v), s).Status() == 400 <==> !(v.Text? && v.s != [])
  {
  }

  /** A missing Pinecone key is reported as a configuration error before the Gemini key is looked at. */
  lemma PostMissingKeys<L>(query: string, s: Services<L>)
    requires query != []
    ensures !s.pineconeKeySet ==>
      Post(Parsed(Text(query)), s) == Failed(ErrorReply(500, PineconeConfigError, PineconeKeyMissing))
    ensures s.pineconeKeySet && !s.geminiKeySet ==>
      Post(Parsed(Text(query)), s) == Failed(ErrorReply(500, GeminiConfigError, GeminiKeyMissing))
  {
    PineconeKeyMissingMentions();
    GeminiKeyMissingMentions();
  }

  /** Only the failed connection check is reported as 503; the other stage failures are 500. */
  lemma PostStageFailures<L>(query: string, s: Services<L>)
    requires query != [] && s.pineconeKeySet && s.geminiKeySet
    ensures !s.clientOk ==>
      Post(Parsed(Text(query)), s) == Failed(ErrorReply(500, InternalError, ClientInitFailed))
    ensures s.clientOk && !s.indexReachable ==>
      Post(Parsed(Text(query)), s) == Failed(ErrorReply(503, ConnectionError, IndexConnectFailed))
    ensures s.clientOk && s.indexReachable && !s.storeOk ==>
      Post(Parsed(Text(query)), s) == Failed(ErrorReply(500, InternalError, StoreInitFailed))
    ensures s.clientOk && s.indexReachable && s.storeOk && s.search.None? ==>
      Post(Parsed(Text(query)), s) == Failed(ErrorReply(500, InternalError, SearchFailed))
  {
    ClientInitFailedMentions();
    IndexConnectFailedMentions();
    StoreInitFailedMentions();
    SearchFailedMentions();
  }

  /**
    With every stage working and an answer generated, the reply carries the
    answer, one citation per hit numbered from 1, the distinct sources in
    order of first occurrence, and the live data only when the query asks for
    it and fetching it succeeded.
   */
  lemma PostAnswered<L>(query: string, s: Services<L>)
    requires query != []
    requires s.pineconeKeySet && s.geminiKeySet && s.clientOk && s.indexReachable && s.storeOk
    requires s.search.Some? && s.generation.Answer?
    ensures var r := Post(Parsed(Text(query)), s);
      var hits := s.search.value;
      && r.Answered? && r.Status() == 200
      && r.answer == s.generation.text
      && |r.citations| == |hits| && InKeyOrder(r.citations)
      && (forall i :: 0 <= i < |hits| ==>
            r.citations[i] == Citation(i + 1, SourceOf(hits[i].source)) && r.citations[i].source in r.sources)
      && NoDuplicates(r.sources)
      && (forall x :: x in r.sources ==> exists i :: 0 <= i < |hits| && SourceOf(hits[i].source) == x)
      && r.liveData == (if NeedsLiveData(query) then s.liveData else None)
  {
    var docs := NumberDocuments(s.search.value);
    NumberedCitations(s.search.value);
    var r := Post(Parsed(Text(query)), s);
    forall x | x in r.sources
      ensures exists i :: 0 <= i < |docs| && SourceOf(s.search.value[i].source) == x
    {
      assert x in SourcesOf(docs);
      var i :| 0 <= i < |docs| && SourcesOf(docs)[i] == x;
    }
  }

  /**
    A generation error whose message mentions `429` is answered with 429 and
    the source of every document in order, duplicates kept; any other
    generation failure becomes a 500.
   */
  lemma PostGenerationFailure<L>(query: string, s: Services<L>)
    requires query != []
    requires s.pineconeKeySet && s.geminiKeySet && s.clientOk && s.indexReachable && s.storeOk
    requires s.search.Some? && !s.generation.Answer?
    ensures var r := Post(Parsed(Text(query)), s);
      var hits := s.search.value;
      && (r.Status() == 429 <==> s.generation.GenerationError? && Contains(s.generation.message, "429"))
      && (r.Status() == 429 ==>
            && |r.sources| == |hits| && |r.citations| == |hits|
            && forall i :: 0 <= i < |hits| ==>
                 r.sources[i] == SourceOf(hits[i].source) && r.citations[i] == Citation(i + 1, r.sources[i]))
      && (r.Status() != 429 ==> r == Failed(ErrorReply(500, InternalError, GenerationFailed)))
  {
    GenerationFailedMentions();
  }

  /** The 429 reply lists the same sources as a success would, before duplicates are dropped. */
  lemma RateLimitedSourcesDeduplicate(docs: seq<Document>)
    ensures Dedup(SourcesOf(docs)) == SourcesOf(docs) <==> NoDuplicates(SourcesOf(docs))
  {
    if NoDuplicates(SourcesOf(docs)) {
      DedupOfDistinct(SourcesOf(docs));
    }
  }
}
