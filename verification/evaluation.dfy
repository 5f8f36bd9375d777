/**
  The offline evaluation script: one result record per test question, the
  counts of the report, the answer excerpt, the letter grade and the list of
  recommendations.
 */
module Evaluation {
  import opened Wrappers
  import opened JsString
  import opened ChatTypes

  /** The fields of a test question the script reads. */
  datatype TestQuestion = TestQuestion(
    id: int,
    question: string,
    expectedSources: seq<string>,
    requiresLiveData: bool)

  /**
    The question list of the test file: `testQuestions`, else `questions`,
    else none. An array is truthy even when empty, so a present but empty
    `testQuestions` hides `questions`.
   */
  function QuestionsOf(testQuestions: Option<seq<TestQuestion>>, questions: Option<seq<TestQuestion>>): (r: seq<TestQuestion>)
    ensures testQuestions.Some? ==> r == testQuestions.value
    ensures testQuestions.None? && questions.Some? ==> r == questions.value
    ensures r == [] <==> (testQuestions.Some? && testQuestions.value == [])
                         || (testQuestions.None? && (questions.None? || questions.value == []))
  {
    if testQuestions.Some? then testQuestions.value
    else if questions.Some? then questions.value
    else []
  }

  /**
    The JSON object `callChatAPI` hands back: the chat route's reply, or an
    object with an `error` field when the request failed. Only a non-empty
    `error` text counts as an error; `liveData` stands for its truthiness.
   */
  datatype Response = Response(
    error: Option<string>,
    answer: Option<string>,
    sources: Option<seq<string>>,
    citations: Option<seq<Citation>>,
    liveData: bool)

  predicate IsError(response: Response) {
    response.error.Some? && response.error.value != []
  }

  datatype EvaluationResult = EvaluationResult(
    questionId: int,
    question: string,
    answer: string,
    sources: seq<string>,
    citations: seq<Citation>,
    responseTime: int,
    hasCitations: bool,
    hasExpectedSources: bool,
    liveDataUsed: bool,
    success: bool)

  // ---------------------------------------------------------------------------
  // Expected sources

  /** `sources.some(source => source.includes(expected))` */
  function SomeSourceIncludes(sources: seq<string>, expected: string): (r: bool) {
    if sources == [] then false
    else Contains(sources[0], expected) || SomeSourceIncludes(sources[1..], expected)
  }

  /** `expected.some(e => SomeSourceIncludes(sources, e))` */
  function SomeExpectedFound(expected: seq<string>, sources: seq<string>): (r: bool) {
    if expected == [] then false
    else SomeSourceIncludes(sources, expected[0]) || SomeExpectedFound(expected[1..], sources)
  }

  lemma {:induction false} SomeSourceIncludesIff(sources: seq<string>, expected: string)
    ensures SomeSourceIncludes(sources, expected) <==> exists j :: 0 <= j < |sources| && Contains(sources[j], expected)
  {
    if sources != [] {
      SomeSourceIncludesIff(sources[1..], expected);
      if exists j :: 0 <= j < |sources| && Contains(sources[j], expected) {
        var j :| 0 <= j < |sources| && Contains(sources[j], expected);
        if j > 0 {
          assert sources[1..][j - 1] == sources[j];
        }
      }
    }
  }

  /** The nested `some` finds a match exactly when some source contains some expected name. */
  lemma {:induction false} SomeExpectedFoundIff(expected: seq<string>, sources: seq<string>)
    ensures SomeExpectedFound(expected, sources) <==>
      exists i, j :: 0 <= i < |expected| && 0 <= j < |sources| && Contains(sources[j], expected[i])
  {
    if expected != [] {
      SomeSourceIncludesIff(sources, expected[0]);
      SomeExpectedFoundIff(expected[1..], sources);
      if exists i, j :: 0 <= i < |expected| && 0 <= j < |sources| && Contains(sources[j], expected[i]) {
        var i, j :| 0 <= i < |expected| && 0 <= j < |sources| && Contains(sources[j], expected[i]);
        if i > 0 {
          assert expected[1..][i - 1] == expected[i];
        }
      }
      if SomeExpectedFound(expected[1..], sources) {
        var i, j :| 0 <= i < |expected[1..]| && 0 <= j < |sources| && Contains(sources[j], expected[1..][i]);
        assert expected[1..][i] == expected[i + 1];
      }
    }
  }

  // ---------------------------------------------------------------------------
  // One result

  /** The record invariants every result keeps. */
  predicate WellFormed(r: EvaluationResult) {
    && (r.hasCitations <==> r.citations != [])
    && (r.hasCitations ==> r.success)
    && (r.hasExpectedSources ==> r.success)
    && (r.liveDataUsed ==> r.success)
    && (!r.success ==> r.answer == [] && r.sources == [] && r.citations == [])
  }

  /** The record the script keeps for question `q` after `response` arrived in `responseTime` ms. */
  function Evaluate(q: TestQuestion, response: Response, responseTime: int): (r: EvaluationResult)
    ensures WellFormed(r)
    ensures r.questionId == q.id && r.question == q.question && r.responseTime == responseTime
    ensures r.success <==> !IsError(response)
    ensures r.success ==> r.sources == response.sources.GetOr([])
                          && r.citations == response.citations.GetOr([])
                          && r.answer == response.answer.GetOr([])
    ensures r.hasExpectedSources <==> (r.success && (q.expectedSources == [] ||
      exists i, j :: 0 <= i < |q.expectedSources| && 0 <= j < |r.sources| && Contains(r.sources[j], q.expectedSources[i])))
    ensures r.liveDataUsed <==> r.success && response.liveData
  {
    if IsError(response) then
      EvaluationResult(q.id, q.question, [], [], [], responseTime, false, false, false, false)
    else
      var sources := response.sources.GetOr([]);
      var citations := response.citations.GetOr([]);
      SomeExpectedFoundIff(q.expectedSources, sources);
      EvaluationResult(q.id, q.question, response.answer.GetOr([]), sources, citations, responseTime,
        |citations| > 0, |q.expectedSources| == 0 || SomeExpectedFound(q.expectedSources, sources),
        response.liveData, true)
  }

  /**
    The loop of `runEvaluation` over the questions, with the response to
    question `i` and its time given as inputs: one result per question, in
    order, and a two-second pause between consecutive questions. An empty
    question list ends the script before any call.
   */
  method RunEvaluation(questions: seq<TestQuestion>, responses: seq<Response>, times: seq<int>)
    returns (results: Option<seq<EvaluationResult>>, pauses: int)
    requires |responses| == |questions| && |times| == |questions|
    ensures results.None? <==> questions == []
    ensures results.Some? ==> |results.value| == |questions| && pauses == |questions| - 1
    ensures results.Some? ==> forall i :: 0 <= i < |questions| ==>
      results.value[i].questionId == questions[i].id
      && (results.value[i].success <==> !IsError(responses[i]))
    ensures results.Some? ==> forall i :: 0 <= i < |questions| ==> WellFormed(results.value[i])
    ensures results.Some? ==> forall i :: 0 <= i < |questions| ==>
      results.value[i] == Evaluate(questions[i], responses[i], times[i])
  {
    if |questions| == 0 {
      return None, 0;
    }
    var acc: seq<EvaluationResult> := [];
    pauses := 0;
    var i := 0;
    while i < |questions|
      invariant 0 <= i <= |questions|
      invariant |acc| == i
      invariant forall k :: 0 <= k < i ==> acc[k] == Evaluate(questions[k], responses[k], times[k])
      invariant pauses == (if i == |questions| then i - 1 else i)
    {
      acc := acc + [Evaluate(questions[i], responses[i], times[i])];
      if i < |questions| - 1 {
        pauses := pauses + 1;
      }
      i := i + 1;
    }
    results := Some(acc);
  }

  // ---------------------------------------------------------------------------
  // The report

  function CountSuccess(results: seq<EvaluationResult>): (n: nat)
    ensures n <= |results|
  {
    if results == [] then 0 else (if results[0].success then 1 else 0) + CountSuccess(results[1..])
  }

  function CountCitations(results: seq<EvaluationResult>): (n: nat)
    ensures n <= |results|
  {
    if results == [] then 0 else (if results[0].hasCitations then 1 else 0) + CountCitations(results[1..])
  }

  function CountExpectedSources(results: seq<EvaluationResult>): (n: nat)
    ensures n <= |results|
  {
    if results == [] then 0 else (if results[0].hasExpectedSources then 1 else 0) + CountExpectedSources(results[1..])
  }

  function TotalResponseTime(results: seq<EvaluationResult>): int {
    if results == [] then 0 else results[0].responseTime + TotalResponseTime(results[1..])
  }

  predicate AllWellFormed(results: seq<EvaluationResult>) {
    forall i :: 0 <= i < |results| ==> WellFormed(results[i])
  }

  /**
    Only a successful answer can have citations or a matching source, so
    neither count exceeds the success count; the citation count falls short
    of it exactly when some successful answer has no citations, and the
    success count falls short of the total exactly when some call failed.
   */
  lemma {:induction false} CountsOrdered(results: seq<EvaluationResult>)
    requires AllWellFormed(results)
    ensures CountCitations(results) <= CountSuccess(results)
    ensures CountExpectedSources(results) <= CountSuccess(results)
    ensures CountCitations(results) < CountSuccess(results) <==>
      exists i :: 0 <= i < |results| && results[i].success && !results[i].hasCitations
    ensures CountSuccess(results) < |results| <==> exists i :: 0 <= i < |results| && !results[i].success
  {
    CitationsShortIff(results);
    SuccessShortIff(results);
  }

  lemma TailWellFormed(results: seq<EvaluationResult>)
    requires results != [] && AllWellFormed(results)
    ensures WellFormed(results[0]) && AllWellFormed(results[1..])
  {
    var tail := results[1..];
    forall i | 0 <= i < |tail| ensures WellFormed(tail[i]) {
      assert tail[i] == results[i + 1];
    }
  }

  lemma {:induction false} CitationsShortIff(results: seq<EvaluationResult>)
    requires AllWellFormed(results)
    ensures CountCitations(results) <= CountSuccess(results)
    ensures CountExpectedSources(results) <= CountSuccess(results)
    ensures CountCitations(results) < CountSuccess(results) <==>
      exists i :: 0 <= i < |results| && results[i].success && !results[i].hasCitations
  {
    if results != [] {
      var tail := results[1..];
      TailWellFormed(results);
      CitationsShortIff(tail);
      if exists i :: 0 <= i < |tail| && tail[i].success && !tail[i].hasCitations {
        var i :| 0 <= i < |tail| && tail[i].success && !tail[i].hasCitations;
        assert results[i + 1] == tail[i];
      }
      if exists i :: 0 <= i < |results| && results[i].success && !results[i].hasCitations {
        var i :| 0 <= i < |results| && results[i].success && !results[i].hasCitations;
        if i > 0 {
          assert tail[i - 1] == results[i];
        }
      }
    }
  }

  lemma {:induction false} SuccessShortIff(results: seq<EvaluationResult>)
    ensures CountSuccess(results) < |results| <==> exists i :: 0 <= i < |results| && !results[i].success
  {
    if results != [] {
      var tail := results[1..];
      SuccessShortIff(tail);
      if exists i :: 0 <= i < |tail| && !tail[i].success {
        var i :| 0 <= i < |tail| && !tail[i].success;
        assert results[i + 1] == tail[i];
      }
      if exists i :: 0 <= i < |results| && !results[i].success {
        var i :| 0 <= i < |results| && !results[i].success;
        if i > 0 {
          assert tail[i - 1] == results[i];
        }
      }
    }
  }

  /** Length of the answer excerpt before the ellipsis. */
  const ExcerptLength: int := 200

  /** The answer as the report shows it: cut to 200 characters plus `...` when longer. */
  function Excerpt(answer: string): (r: string)
    ensures |answer| <= ExcerptLength ==> r == answer
    ensures |answer| > ExcerptLength ==> (|r| == ExcerptLength + 3
      && r[..ExcerptLength] == answer[..ExcerptLength] && r[ExcerptLength..] == "...")
  {
    if |answer| > ExcerptLength then Substring(answer, 0, ExcerptLength) + "..." else answer
  }

  /** The excerpt of a long answer is long again, and cutting it again changes nothing. */
  lemma ExcerptIdempotent(answer: string)
    ensures Excerpt(Excerpt(answer)) == Excerpt(answer)
  {
  }

  datatype Grade = A | B | C | D

  /**
    The grade of `successful / total * 100`: A from 90%, B from 80%, C from
    70%, D below. The percentage comparisons are written multiplied out.
   */
  function GradeOf(successful: int, total: int): (g: Grade)
    requires total > 0
    ensures g == A <==> 100 * successful >= 90 * total
    ensures g == B <==> 90 * total > 100 * successful >= 80 * total
    ensures g == C <==> 80 * total > 100 * successful >= 70 * total
    ensures g == D <==> 100 * successful < 70 * total
  {
    if 100 * successful >= 90 * total then A
    else if 100 * successful >= 80 * total then B
    else if 100 * successful >= 70 * total then C
    else D
  }

  function Rank(g: Grade): int {
    match g
    case A => 3
    case B => 2
    case C => 1
    case D => 0
  }

  /** More successes never give a worse grade, and a perfect run gets an A. */
  lemma GradeMonotone(s1: int, s2: int, total: int)
    requires total > 0 && s1 <= s2
    ensures Rank(GradeOf(s1, total)) <= Rank(GradeOf(s2, total))
    ensures GradeOf(total, total) == A
  {
  }

  datatype Recommendation = AddressFailures | ImproveCitations | OptimizeResponseTime | ContinueMonitoring

  /**
    The recommendations of the report, in order. The average response time
    exceeds 5000 ms exactly when the total exceeds 5000 ms per question.
   */
  function Recommendations(results: seq<EvaluationResult>): (r: seq<Recommendation>)
    requires results != []
    ensures r != [] && r[|r| - 1] == ContinueMonitoring
    ensures AddressFailures in r <==> CountSuccess(results) < |results|
    ensures ImproveCitations in r <==> CountCitations(results) < CountSuccess(results)
    ensures OptimizeResponseTime in r <==> TotalResponseTime(results) > 5000 * |results|
  {
    (if CountSuccess(results) < |results| then [AddressFailures] else [])
    + (if CountCitations(results) < CountSuccess(results) then [ImproveCitations] else [])
    + (if TotalResponseTime(results) > 5000 * |results| then [OptimizeResponseTime] else [])
    + [ContinueMonitoring]
  }

  /**
    For well-formed results, the first recommendation appears exactly when a
    call failed and the second exactly when a successful answer lacked
    citations.
   */
  lemma RecommendationsExplained(results: seq<EvaluationResult>)
    requires results != [] && AllWellFormed(results)
    ensures AddressFailures in Recommendations(results) <==>
      exists i :: 0 <= i < |results| && !results[i].success
    ensures ImproveCitations in Recommendations(results) <==>
      exists i :: 0 <= i < |results| && results[i].success && !results[i].hasCitations
  {
    CountsOrdered(results);
  }
}
