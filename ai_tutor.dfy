/**
 * The tutor's calls to the text-generation service (core/ai_tutor.py). The service itself is
 * an input: each call either yields a reply text or raises. Decoding is the `decode` parameter
 * standing for `json.loads`. What is modelled is how each call turns that into its result.
 */
module AiTutor {
  import opened Wrappers
  import opened JsonValues
  import opened Text

  /** One call to `generate_content`: the reply's `.text`, or an exception (network, API key, blocked reply). */
  datatype Reply = Reply(text: string) | Raised

  /** One wrongly answered question as the views hand it over (`wrong_answers_for_ai` entries). */
  datatype WrongAnswer = WrongAnswer(questionText: string, options: Json, userAnswer: Option<string>, correctAnswer: Json)

  const JsonFence := Fence + "json"

  const EmptyResponseError := "The AI returned an empty response."
  const MalformedResponseError := "The AI returned a malformed response. Please try again."
  const ConnectionError := "There was a problem connecting to the AI service. Please check your API key and try again."
  const ExplanationApology := "Sorry, the AI could not generate an explanation for this question at this time."
  const TutorUnavailable := "I seem to be having trouble connecting right now. Please ask again in a moment."

  /**
   * The cleanup every call applies before decoding: drop each "```json", then each "```",
   * then strip whitespace. No fence of either kind survives and both ends are non-blank.
   */
  function Clean(text: string): (r: string)
    ensures !Contains(r, Fence) && !Contains(r, JsonFence)
    ensures Trimmed(r)
  {
    var unfenced := RemoveAll(RemoveAll(text, JsonFence), Fence);
    RemoveFenceLeavesNone(RemoveAll(text, JsonFence));
    StripKeepsAbsence(unfenced, Fence);
    AbsentExtension(Strip(unfenced), Fence, "json");
    Strip(unfenced)
  }

  /** Cleaning is idempotent: a cleaned reply is a fixed point of the cleanup. */
  lemma CleanIdempotent(text: string)
    ensures Clean(Clean(text)) == Clean(text)
  {
    var c := Clean(text);
    RemoveAllIdentity(c, JsonFence);
    RemoveAllIdentity(c, Fence);
    StripTrimmed(c);
  }

  /** A fence-free body wrapped as "```json" + body + "```" cleans to the body stripped, as the body alone does. */
  lemma CleanUnwrapsFence(body: string)
    requires !Contains(body, Fence)
    ensures Clean(JsonFence + body + Fence) == Strip(body) == Clean(body)
  {
    var wrapped := JsonFence + body + Fence;
    UnwrapJsonFence(body);
    RemoveFenceSuffix(body);
    assert RemoveAll(RemoveAll(wrapped, JsonFence), Fence) == body;
    assert Clean(wrapped) == Strip(body);
    CleanFenceFree(body);
  }

  /** On a reply without fences the cleanup is just `strip()`. */
  lemma CleanFenceFree(body: string)
    requires !Contains(body, Fence)
    ensures Clean(body) == Strip(body)
  {
    AbsentExtension(body, Fence, "json");
    RemoveAllIdentity(body, JsonFence);
    RemoveAllIdentity(body, Fence);
  }

  /** Removing "```json" from a wrapped fence-free body leaves the body and its closing fence. */
  lemma UnwrapJsonFence(body: string)
    requires !Contains(body, Fence)
    ensures RemoveAll(JsonFence + body + Fence, JsonFence) == body + Fence
  {
    var wrapped := JsonFence + body + Fence;
    assert wrapped[..|JsonFence|] == JsonFence && wrapped[|JsonFence|..] == body + Fence;
    NoJsonFenceBeforeFence(body);
    RemoveAllIdentity(body + Fence, JsonFence);
  }

  /** A fence-free body followed by one fence holds no "```json": its backticks would have to lie inside the body. */
  lemma NoJsonFenceBeforeFence(body: string)
    requires !Contains(body, Fence)
    ensures !Contains(body + Fence, JsonFence)
  {
    var t := body + Fence;
    forall i | 0 <= i <= |t| - |JsonFence| ensures !StartsWith(t[i..], JsonFence) {
      assert !StartsWith(body[i..], Fence);
      assert t[i..][..3] == body[i..][..3];
      assert JsonFence[..3] == Fence;
    }
  }

  /** Removing fences from a fence-free body followed by one fence gives back the body. */
  lemma {:induction false} RemoveFenceSuffix(body: string)
    requires !Contains(body, Fence)
    ensures RemoveAll(body + Fence, Fence) == body
    decreases |body|
  {
    var t := body + Fence;
    if |body| < 3 && t[..3] == Fence {
      // body is made of backticks only, and what follows the first fence is as long as body
      assert forall j :: 0 <= j < |body| ==> body[j] == t[..3][j];
      assert t[3..] == body;
    } else if |body| >= 3 {
      assert t[..3] == body[..3] by { assert !StartsWith(body[0..], Fence); assert body[0..] == body; }
      assert !StartsWith(body, Fence) by { assert body[0..] == body; }
      AbsentFromSlice(body, Fence, 1, |body| - 1);
      assert body[1..][..|body| - 1] == body[1..];
      assert t[1..] == body[1..] + Fence;
      RemoveFenceSuffix(body[1..]);
    } else {
      AbsentFromSlice(body, Fence, 1, |body| - 1);
      assert body != [];
      assert body[1..][..|body| - 1] == body[1..];
      assert t[1..] == body[1..] + Fence;
      RemoveFenceSuffix(body[1..]);
    }
  }

  /**
   * `generate_evaluation_test`: a `(data, error)` pair. Four outcomes: the call raised (connection
   * message), the cleaned reply is empty (empty-response message, nothing decoded), the cleaned reply
   * does not decode (malformed message), or it decodes (the value, no error).
   */
  function GenerateEvaluationTest(reply: Reply, decode: Decoder): (r: (Json, Option<string>))
    ensures r.1.Some? ==> r.0 == JNull && r.1.value != []
    ensures r.1 == Some(ConnectionError) <==> reply.Raised?
    ensures r.1 == Some(EmptyResponseError) <==> reply.Reply? && Clean(reply.text) == []
    ensures r.1 == Some(MalformedResponseError) <==>
              reply.Reply? && Clean(reply.text) != [] && decode(Clean(reply.text)).None?
    ensures r.1 == None <==> reply.Reply? && Clean(reply.text) != [] && decode(Clean(reply.text)).Some?
    ensures r.1 == None ==> Some(r.0) == decode(Clean(reply.text))
  {
    match reply
    case Raised => (JNull, Some(ConnectionError))
    case Reply(text) =>
      var cleaned := Clean(text);
      if cleaned == [] then (JNull, Some(EmptyResponseError))
      else match decode(cleaned)
        case None => (JNull, Some(MalformedResponseError))
        case Some(data) => (data, None)
  }

  /** An empty cleaned reply is reported without consulting the decoder at all. */
  lemma EmptyReplyNotDecoded(text: string, d1: Decoder, d2: Decoder)
    requires Clean(text) == []
    ensures GenerateEvaluationTest(Reply(text), d1) == GenerateEvaluationTest(Reply(text), d2)
  {
  }

  /**
   * Exactly one half of the pair is `None`, except when the reply decodes to JSON `null`:
   * then it is `(None, None)`.
   */
  lemma ExactlyOneNone(reply: Reply, decode: Decoder)
    ensures var (data, error) := GenerateEvaluationTest(reply, decode);
            (data == JNull) != (error == None) || (reply.Reply? && decode(Clean(reply.text)) == Some(JNull))
  {
  }

  /** The reply "null" is the input on which both halves are `None`. */
  lemma NullReplyGivesNoneNone(decode: Decoder)
    requires decode("null") == Some(JNull)
    ensures GenerateEvaluationTest(Reply("null"), decode) == (JNull, None)
  {
    NoTicksNoFence("null");
    AbsentExtension("null", Fence, "json");
    RemoveAllIdentity("null", JsonFence);
    RemoveAllIdentity("null", Fence);
    StripTrimmed("null");
  }

  /** Wrapping a fence-free reply in a "```json" fence does not change the outcome. */
  lemma FencedReplySameOutcome(body: string, decode: Decoder)
    requires !Contains(body, Fence)
    ensures GenerateEvaluationTest(Reply(JsonFence + body + Fence), decode) == GenerateEvaluationTest(Reply(body), decode)
  {
    CleanUnwrapsFence(body);
  }

  /** The body shared by the other decoding calls: decode the cleaned reply, `None` when anything fails. */
  function TryDecode(reply: Reply, decode: Decoder): (r: Option<Json>)
    ensures reply.Raised? ==> r == None
    ensures reply.Reply? ==> r == decode(Clean(reply.text))
  {
    match reply
    case Raised => None
    case Reply(text) => decode(Clean(text))
  }

  /** `analyze_user_performance`: the decoded analysis, or `None` on any failure. */
  function AnalyzeUserPerformance(reply: Reply, decode: Decoder): (r: Json)
    ensures TryDecode(reply, decode).None? ==> r == JNull
    ensures TryDecode(reply, decode).Some? ==> r == TryDecode(reply, decode).value
  {
    TryDecode(reply, decode).GetOr(JNull)
  }

  /** An empty cleaned reply is not special-cased: since it does not decode, the analysis is `None`. */
  lemma EmptyReplyNoAnalysis(text: string, decode: Decoder)
    requires decode([]) == None && Clean(text) == []
    ensures AnalyzeUserPerformance(Reply(text), decode) == JNull
  {
  }

  /** `generate_personalized_quiz`: the decoded quiz, or `None` on any failure. */
  function GeneratePersonalizedQuiz(reply: Reply, decode: Decoder): (r: Json)
    ensures reply.Raised? ==> r == JNull
    ensures reply.Reply? ==> r == decode(Clean(reply.text)).GetOr(JNull)
  {
    TryDecode(reply, decode).GetOr(JNull)
  }

  /** The set of question texts among the wrong answers. */
  function QuestionTexts(wrong: seq<WrongAnswer>): set<string> {
    set k | 0 <= k < |wrong| :: wrong[k].questionText
  }

  /**
   * The fallback of `get_bulk_explanations`: one entry per wrong answer's question text, each the
   * fixed apology (a repeated text keeps one entry).
   */
  method FailedExplanations(wrong: seq<WrongAnswer>) returns (m: map<string, Json>)
    ensures m.Keys == QuestionTexts(wrong)
    ensures forall t :: t in m ==> m[t] == JString(ExplanationApology)
  {
    m := map[];
    for i := 0 to |wrong|
      invariant m.Keys == QuestionTexts(wrong[..i])
      invariant forall t :: t in m ==> m[t] == JString(ExplanationApology)
    {
      m := m[wrong[i].questionText := JString(ExplanationApology)];
      assert QuestionTexts(wrong[..i + 1]) == QuestionTexts(wrong[..i]) + {wrong[i].questionText} by {
        assert forall k :: 0 <= k < i ==> wrong[..i + 1][k] == wrong[..i][k];
        assert wrong[..i + 1][i] == wrong[i];
      }
    }
    assert wrong[..|wrong|] == wrong;
  }

  /** `get_bulk_explanations`: the decoded explanations, or on any failure the fallback map. */
  method GetBulkExplanations(reply: Reply, decode: Decoder, wrong: seq<WrongAnswer>) returns (r: Json)
    ensures TryDecode(reply, decode).Some? ==> r == TryDecode(reply, decode).value
    ensures TryDecode(reply, decode).None? ==>
              && r.JObject?
              && r.fields.Keys == QuestionTexts(wrong)
              && forall t :: t in r.fields ==> r.fields[t] == JString(ExplanationApology)
  {
    match TryDecode(reply, decode)
    case Some(explanations) =>
      r := explanations;
    case None =>
      var failed := FailedExplanations(wrong);
      r := JObject(failed);
  }

  /** `ask_tutor_question`: the raw reply text, not cleaned, or a fixed apology when the call raised. */
  function AskTutorQuestion(reply: Reply): (r: string)
    ensures reply.Reply? ==> r == reply.text
    ensures reply.Raised? ==> r == TutorUnavailable
  {
    match reply
    case Reply(text) => text
    case Raised => TutorUnavailable
  }

  /** Unlike the decoding calls, the tutor answer keeps fences: a fenced reply comes back as it was. */
  lemma TutorAnswerKeepsFences(body: string)
    ensures Contains(AskTutorQuestion(Reply(JsonFence + body + Fence)), Fence)
  {
    var t := JsonFence + body + Fence;
    assert t[0..][..3] == Fence;
  }
}
