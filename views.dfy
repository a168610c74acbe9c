/**
 * The evaluation flow of the web views (core/views.py): starting a test from the generated
 * questions, showing it with its deadline, and scoring a submission into one stored result.
 * The session and the user are objects whose fields the views update; the submitted form is
 * a map from field name to value; every AI reply is an input.
 */
module Views {
  import opened Wrappers
  import opened JsonValues
  import Text
  import AiTutor

  const CorrectReward := 10
  const WrongPenalty := 5
  /** Fifteen minutes, in seconds. */
  const TestDuration := 15 * 60

  const MissingQuestionsError := "AI response was valid but missing the \"questions\" data."
  const MissingExplanation := "Sorry, an explanation could not be generated for this question."
  const NoAnalysisSummary := "Analysis could not be generated."

  /** One generated question as the scoring loop reads it. */
  datatype Question = Question(text: string, options: Json, correctAnswer: Json, topic: Json)

  /** One row of `full_results_data`. */
  datatype ResultRow = ResultRow(
    questionText: string, options: Json, topic: Json, userAnswer: Option<string>,
    correctAnswer: Json, isCorrect: bool, explanation: Json)

  /** The fields of the stored `EvaluationResult` (its owner is the user the view updates). */
  datatype EvaluationResult = EvaluationResult(
    score: nat, totalQuestions: nat, weaknessSummary: Json, detailedWeaknesses: Json,
    fullResultsData: seq<ResultRow>)

  /** What a view answers with. `ServerError` is an exception escaping the view. */
  datatype Response =
    | RedirectStart
    | RedirectTake
    | ErrorPage(message: string)
    | TestPage(questions: Json, deadline: int)
    | ResultsPage(result: EvaluationResult)
    | ServerError

  /** The user's stored points. */
  class User {
    var points: int

    constructor (points: int)
      ensures this.points == points
    {
      this.points := points;
    }
  }

  /** The two session keys of an evaluation in progress; the start time is in seconds. */
  class Session {
    var questions: Option<Json>
    var startTime: Option<int>

    constructor ()
      ensures questions == None && startTime == None
    {
      questions := None;
      startTime := None;
    }
  }

  // ---------------------------------------------------------------------------
  // Starting and showing a test

  /** How `if not test_data or 'questions' not in test_data` and `test_data['questions']` turn out. */
  datatype QuestionsLookup = Found(questions: Json) | Missing | Raises

  /**
   * The questions of the generated test: present in a dict; missing when the value is falsy or
   * has no `questions` member; raising where `in` or indexing is not defined for the value.
   */
  function LookupQuestions(data: Json): (r: QuestionsLookup)
    ensures r.Found? <==> data.JObject? && "questions" in data.fields
    ensures r.Found? ==> r.questions == data.fields["questions"]
    ensures !Truthy(data) ==> r == Missing
  {
    if !Truthy(data) then Missing
    else match data
      case JObject(fields) => if "questions" in fields then Found(fields["questions"]) else Missing
      // `'questions' in a_list` compares elements; then indexing a list by a string raises
      case JArray(items) => if JString("questions") in items then Raises else Missing
      // `'questions' in a_str` is a substring test; then indexing a str by a string raises
      case JString(s) => if Text.Contains(s, "questions") then Raises else Missing
      // `in` is not defined on numbers and booleans
      case _ => Raises
  }

  /**
   * The POST branch of `take_evaluation_view`: on an AI error or a test without questions, an error
   * page and the session untouched; otherwise the questions and the start time are stored.
   */
  method TakeEvaluationPost(session: Session, reply: AiTutor.Reply, decode: Decoder, now: int)
    returns (response: Response)
    modifies session
    ensures var (data, error) := AiTutor.GenerateEvaluationTest(reply, decode);
      && (error.Some? ==> response == ErrorPage(error.value))
      && (error.None? && LookupQuestions(data).Missing? ==> response == ErrorPage(MissingQuestionsError))
      && (error.None? && LookupQuestions(data).Raises? ==> response == ServerError)
      && (error.None? && LookupQuestions(data).Found? ==>
            response == RedirectTake
            && session.questions == Some(LookupQuestions(data).questions)
            && session.startTime == Some(now))
    ensures response != RedirectTake ==> unchanged(session)
  {
    var (data, error) := AiTutor.GenerateEvaluationTest(reply, decode);
    if error.Some? && error.value != [] {
      return ErrorPage(error.value);
    }
    match LookupQuestions(data)
    case Missing =>
      response := ErrorPage(MissingQuestionsError);
    case Raises =>
      response := ServerError;
    case Found(questions) =>
      session.questions := Some(questions);
      session.startTime := Some(now);
      response := RedirectTake;
  }

  /**
   * The GET branch of `take_evaluation_view`: the stored test with a deadline fifteen minutes after
   * the stored start, or back to the start page when there is no test in progress.
   */
  method TakeEvaluationGet(session: Session) returns (response: Response)
    ensures response.TestPage? <==>
              session.questions.Some? && Truthy(session.questions.value) && session.startTime.Some?
    ensures response.TestPage? ==>
              response.questions == session.questions.value
              && response.deadline == session.startTime.value + TestDuration
    ensures !response.TestPage? ==> response == RedirectStart
  {
    var questions := session.questions;
    var startTime := session.startTime;
    if questions.None? || !Truthy(questions.value) || startTime.None? {
      return RedirectStart;
    }
    response := TestPage(questions.value, startTime.value + TestDuration);
  }

  // ---------------------------------------------------------------------------
  // Scoring a submission

  /** Decimal digits of `n`, as an f-string renders it. */
  function Decimal(n: nat): (r: string)
    ensures r != []
    ensures forall k :: 0 <= k < |r| ==> '0' <= r[k] <= '9'
  {
    if n < 10 then [('0' as int + n) as char]
    else Decimal(n / 10) + [('0' as int + n % 10) as char]
  }

  /** Different numbers have different decimal renderings. */
  lemma {:induction false} DecimalInjective(a: nat, b: nat)
    requires Decimal(a) == Decimal(b)
    ensures a == b
    decreases a
  {
    assert (a < 10) == (|Decimal(a)| == 1) && (b < 10) == (|Decimal(b)| == 1);
    if a >= 10 {
      var da := Decimal(a);
      assert da[|da| - 1] == ('0' as int + a % 10) as char;
      assert Decimal(b)[|da| - 1] == ('0' as int + b % 10) as char;
      assert da[..|da| - 1] == Decimal(a / 10);
      assert Decimal(b)[..|da| - 1] == Decimal(b / 10);
      DecimalInjective(a / 10, b / 10);
    }
  }

  /** The form field of the i-th question, `f"question_{i}"`. */
  function FieldName(i: nat): string {
    "question_" + Decimal(i)
  }

  /** Each question reads a field of its own: distinct positions have distinct field names. */
  lemma FieldNamesDistinct(i: nat, j: nat)
    requires i != j
    ensures FieldName(i) != FieldName(j)
  {
    if FieldName(i) == FieldName(j) {
      assert FieldName(i)[9..] == Decimal(i) by { assert FieldName(i) == "question_" + Decimal(i); }
      assert FieldName(j)[9..] == Decimal(j) by { assert FieldName(j) == "question_" + Decimal(j); }
      DecimalInjective(i, j);
    }
  }

  /** `request.POST.get(f"question_{i}")`: the submitted value, or `None`. */
  function AnswerAt(post: map<string, string>, i: nat): (r: Option<string>)
    ensures r.Some? <==> FieldName(i) in post
    ensures r.Some? ==> r.value == post[FieldName(i)]
  {
    if FieldName(i) in post then Some(post[FieldName(i)]) else None
  }

  /**
   * `user_answer == q['correct_answer']`. A submitted string matches only an equal JSON string; a
   * missing answer is `None`, which equals only a JSON `null` correct answer.
   */
  predicate IsCorrect(q: Question, answer: Option<string>)
    ensures IsCorrect(q, answer) ==> q.correctAnswer.JString? || q.correctAnswer == JNull
    ensures q.correctAnswer.JString? ==> (IsCorrect(q, answer) <==> answer == Some(q.correctAnswer.str))
  {
    match answer
    case Some(a) => q.correctAnswer == JString(a)
    case None => q.correctAnswer == JNull
  }

  /** The generated questions carry a letter as their correct answer; against such a question a missing answer is wrong. */
  lemma MissingAnswerIsWrong(q: Question)
    requires q.correctAnswer.JString?
    ensures !IsCorrect(q, None)
  {
  }

  predicate CorrectAt(qs: seq<Question>, post: map<string, string>, k: nat)
    requires k < |qs|
  {
    IsCorrect(qs[k], AnswerAt(post, k))
  }

  /** Number of correct answers among the first n questions. */
  function CorrectCount(qs: seq<Question>, post: map<string, string>, n: nat): (c: nat)
    requires n <= |qs|
    ensures c <= n
  {
    if n == 0 then 0
    else CorrectCount(qs, post, n - 1) + (if CorrectAt(qs, post, n - 1) then 1 else 0)
  }

  /** The positions among the first n that were answered correctly. */
  function CorrectPositions(qs: seq<Question>, post: map<string, string>, n: nat): (r: set<nat>)
    requires n <= |qs|
    ensures forall k :: k in r ==> k < n
  {
    if n == 0 then {}
    else CorrectPositions(qs, post, n - 1) + (if CorrectAt(qs, post, n - 1) then {n - 1} else {})
  }

  /** The positions collected are exactly those below n whose answer is correct. */
  lemma {:induction false} CorrectPositionsMembers(qs: seq<Question>, post: map<string, string>, n: nat, k: nat)
    requires n <= |qs|
    ensures k in CorrectPositions(qs, post, n) <==> k < n && CorrectAt(qs, post, k)
  {
    if n > 0 && k < n - 1 {
      CorrectPositionsMembers(qs, post, n - 1, k);
    }
  }

  /** The running count is the number of correctly answered positions. */
  lemma {:induction false} CorrectCountIsSize(qs: seq<Question>, post: map<string, string>, n: nat)
    requires n <= |qs|
    ensures CorrectCount(qs, post, n) == |CorrectPositions(qs, post, n)|
  {
    if n > 0 {
      CorrectCountIsSize(qs, post, n - 1);
      CardinalityStep(CorrectPositions(qs, post, n - 1), n - 1, CorrectAt(qs, post, n - 1));
    }
  }

  /** Adding a fresh element, or nothing, to a set. */
  lemma CardinalityStep(before: set<nat>, x: nat, add: bool)
    requires x !in before
    ensures |before + (if add then {x} else {})| == |before| + (if add then 1 else 0)
  {
    if add {
      assert |before + {x}| == |before| + 1;
    } else {
      assert before + {} == before;
    }
  }

  /** The `wrong_answers_for_ai` entry of position k. */
  function WrongAt(qs: seq<Question>, post: map<string, string>, k: nat): AiTutor.WrongAnswer
    requires k < |qs|
  {
    AiTutor.WrongAnswer(qs[k].text, qs[k].options, AnswerAt(post, k), qs[k].correctAnswer)
  }

  /** The wrong answers among the first n questions, in question order. */
  function WrongAnswers(qs: seq<Question>, post: map<string, string>, n: nat): seq<AiTutor.WrongAnswer>
    requires n <= |qs|
  {
    if n == 0 then []
    else WrongAnswers(qs, post, n - 1) + (if CorrectAt(qs, post, n - 1) then [] else [WrongAt(qs, post, n - 1)])
  }

  /** The positions among the first n that were answered wrongly, in increasing order. */
  function WrongPositions(qs: seq<Question>, post: map<string, string>, n: nat): seq<nat>
    requires n <= |qs|
  {
    if n == 0 then []
    else WrongPositions(qs, post, n - 1) + (if CorrectAt(qs, post, n - 1) then [] else [n - 1])
  }

  /** There is one wrong answer per wrongly answered position: n minus the number of correct ones. */
  lemma {:induction false} WrongAnswersCount(qs: seq<Question>, post: map<string, string>, n: nat)
    requires n <= |qs|
    ensures |WrongAnswers(qs, post, n)| == |WrongPositions(qs, post, n)| == n - CorrectCount(qs, post, n)
  {
    if n > 0 {
      WrongAnswersCount(qs, post, n - 1);
    }
  }

  /** The wrong positions are increasing and below n. */
  lemma {:induction false} WrongPositionsIncreasing(qs: seq<Question>, post: map<string, string>, n: nat)
    requires n <= |qs|
    ensures forall j :: 0 <= j < |WrongPositions(qs, post, n)| ==> WrongPositions(qs, post, n)[j] < n
    ensures forall j1, j2 :: 0 <= j1 < j2 < |WrongPositions(qs, post, n)| ==>
              WrongPositions(qs, post, n)[j1] < WrongPositions(qs, post, n)[j2]
  {
    if n > 0 {
      WrongPositionsIncreasing(qs, post, n - 1);
      var before := WrongPositions(qs, post, n - 1);
      assert forall j :: 0 <= j < |before| ==> before[j] < n - 1;
      if !CorrectAt(qs, post, n - 1) {
        var ps := before + [n - 1];
        assert WrongPositions(qs, post, n) == ps;
        assert forall j :: 0 <= j < |before| ==> ps[j] == before[j];
        assert ps[|before|] == n - 1;
      } else {
        assert WrongPositions(qs, post, n) == before;
      }
    }
  }

  /** Each wrong answer is the entry of the matching wrong position. */
  lemma {:induction false} WrongAnswersInOrder(qs: seq<Question>, post: map<string, string>, n: nat)
    requires n <= |qs|
    ensures var ws, ps := WrongAnswers(qs, post, n), WrongPositions(qs, post, n);
      && |ws| == |ps|
      && forall j :: 0 <= j < |ps| ==> ps[j] < n && !CorrectAt(qs, post, ps[j]) && ws[j] == WrongAt(qs, post, ps[j])
  {
    if n > 0 {
      WrongAnswersInOrder(qs, post, n - 1);
      var ws, ps := WrongAnswers(qs, post, n - 1), WrongPositions(qs, post, n - 1);
      if !CorrectAt(qs, post, n - 1) {
        assert WrongAnswers(qs, post, n) == ws + [WrongAt(qs, post, n - 1)];
        assert WrongPositions(qs, post, n) == ps + [n - 1];
      } else {
        assert WrongAnswers(qs, post, n) == ws;
        assert WrongPositions(qs, post, n) == ps;
      }
    }
  }

  /** Every wrongly answered position among the first n is listed. */
  lemma {:induction false} WrongPositionsComplete(qs: seq<Question>, post: map<string, string>, n: nat, k: nat)
    requires k < n <= |qs| && !CorrectAt(qs, post, k)
    ensures k in WrongPositions(qs, post, n)
  {
    if k < n - 1 {
      WrongPositionsComplete(qs, post, n - 1, k);
    }
  }

  /** Every wrongly answered question's text is among the texts handed to the explanation call. */
  lemma WrongTextsHandedOver(qs: seq<Question>, post: map<string, string>, k: nat)
    requires k < |qs| && !CorrectAt(qs, post, k)
    ensures qs[k].text in AiTutor.QuestionTexts(WrongAnswers(qs, post, |qs|))
  {
    WrongAnswersInOrder(qs, post, |qs|);
    WrongPositionsComplete(qs, post, |qs|, k);
    var ps := WrongPositions(qs, post, |qs|);
    var j :| 0 <= j < |ps| && ps[j] == k;
    assert WrongAnswers(qs, post, |qs|)[j].questionText == qs[k].text;
  }

  /** The `full_results_data` row of position k, before explanations are merged in. */
  function RowAt(qs: seq<Question>, post: map<string, string>, k: nat): ResultRow
    requires k < |qs|
  {
    ResultRow(qs[k].text, qs[k].options, qs[k].topic, AnswerAt(post, k), qs[k].correctAnswer,
              CorrectAt(qs, post, k), JString(""))
  }

  /**
   * The scoring loop of `submit_evaluation_view`: the score counts the correct answers, the points
   * change is +10 per correct and -5 per wrong answer, the wrong answers are collected in order,
   * and there is one row per question with an empty explanation.
   */
  method ScoreAnswers(questions: seq<Question>, post: map<string, string>)
    returns (score: nat, pointsChange: int, wrongAnswers: seq<AiTutor.WrongAnswer>, rows: seq<ResultRow>)
    ensures score == CorrectCount(questions, post, |questions|)
    ensures pointsChange == CorrectReward * score - WrongPenalty * (|questions| - score)
    ensures wrongAnswers == WrongAnswers(questions, post, |questions|)
    ensures |wrongAnswers| == |questions| - score
    ensures |rows| == |questions|
    ensures forall k :: 0 <= k < |questions| ==> rows[k] == RowAt(questions, post, k)
  {
    score, pointsChange, wrongAnswers, rows := 0, 0, [], [];
    for i := 0 to |questions|
      invariant score == CorrectCount(questions, post, i)
      invariant pointsChange == CorrectReward * score - WrongPenalty * (i - score)
      invariant wrongAnswers == WrongAnswers(questions, post, i)
      invariant |rows| == i && forall k :: 0 <= k < i ==> rows[k] == RowAt(questions, post, k)
    {
      var q := questions[i];
      var userAnswer := AnswerAt(post, i);
      var isCorrect := IsCorrect(q, userAnswer);
      if isCorrect {
        score := score + 1;
        pointsChange := pointsChange + CorrectReward;
      } else {
        pointsChange := pointsChange - WrongPenalty;
        wrongAnswers := wrongAnswers + [AiTutor.WrongAnswer(q.text, q.options, userAnswer, q.correctAnswer)];
      }
      rows := rows + [ResultRow(q.text, q.options, q.topic, userAnswer, q.correctAnswer, isCorrect, JString(""))];
    }
    WrongAnswersCount(questions, post, |questions|);
  }

  /** `all_explanations.get(question_text, default)`. */
  function ExplanationFor(explanations: map<string, Json>, text: string): (r: Json)
    ensures text in explanations ==> r == DictGet(explanations, text)
    ensures text !in explanations ==> r == JString(MissingExplanation)
  {
    if text in explanations then explanations[text] else JString(MissingExplanation)
  }

  /**
   * The merge loop: each wrong row takes the explanation stored under its question text, or the
   * default when the text is absent; correct rows keep their empty explanation. Looking up in a
   * value that is not a dict raises, which happens as soon as there is a wrong row.
   */
  method MergeExplanations(rows: seq<ResultRow>, explanations: Json) returns (merged: Option<seq<ResultRow>>)
    ensures merged.None? <==> !explanations.JObject? && exists k :: 0 <= k < |rows| && !rows[k].isCorrect
    ensures merged.Some? ==> |merged.value| == |rows|
    ensures merged.Some? ==> forall k :: 0 <= k < |rows| && rows[k].isCorrect ==> merged.value[k] == rows[k]
    ensures merged.Some? ==> forall k :: 0 <= k < |rows| && !rows[k].isCorrect ==>
              explanations.JObject? &&
              merged.value[k] == rows[k].(explanation := ExplanationFor(explanations.fields, rows[k].questionText))
    ensures merged.Some? ==> forall k1, k2 ::
              0 <= k1 < |rows| && 0 <= k2 < |rows| && !rows[k1].isCorrect && !rows[k2].isCorrect &&
              rows[k1].questionText == rows[k2].questionText ==>
              merged.value[k1].explanation == merged.value[k2].explanation
  {
    var out := rows;
    for k := 0 to |rows|
      invariant |out| == |rows|
      invariant forall j :: 0 <= j < k && rows[j].isCorrect ==> out[j] == rows[j]
      invariant forall j :: 0 <= j < k && !rows[j].isCorrect ==>
                  explanations.JObject? &&
                  out[j] == rows[j].(explanation := ExplanationFor(explanations.fields, rows[j].questionText))
      invariant forall j :: k <= j < |rows| ==> out[j] == rows[j]
    {
      if !out[k].isCorrect {
        if !explanations.JObject? {
          return None;
        }
        out := out[k := out[k].(explanation := ExplanationFor(explanations.fields, out[k].questionText))];
      }
    }
    merged := Some(out);
  }

  /** When the explanation call failed, every wrong row gets the fallback apology, never the missing-key default. */
  lemma FallbackExplainsEveryWrongRow(qs: seq<Question>, post: map<string, string>, fallback: map<string, Json>, k: nat)
    requires fallback.Keys == AiTutor.QuestionTexts(WrongAnswers(qs, post, |qs|))
    requires forall t :: t in fallback ==> fallback[t] == JString(AiTutor.ExplanationApology)
    requires k < |qs| && !CorrectAt(qs, post, k)
    ensures ExplanationFor(fallback, RowAt(qs, post, k).questionText) == JString(AiTutor.ExplanationApology)
  {
    WrongTextsHandedOver(qs, post, k);
  }

  /** The analysis the result is built from: the AI's when truthy, otherwise the fixed default. */
  function EffectiveAnalysis(analysis: Json): (r: Json)
    ensures Truthy(r)
    ensures Truthy(analysis) ==> r == analysis
    ensures !Truthy(analysis) ==>
              r.JObject?
              && DictGet(r.fields, "weakness_summary") == JString(NoAnalysisSummary)
              && DictGet(r.fields, "detailed_weaknesses") == JArray([])
  {
    if Truthy(analysis) then analysis
    else
      var default := map["weakness_summary" := JString(NoAnalysisSummary), "detailed_weaknesses" := JArray([])];
      assert "weakness_summary" in default;
      JObject(default)
  }

  /** The question dict the scoring loop reads, with exactly the four keys it indexes. */
  function QuestionJson(q: Question): Json {
    JObject(map["question_text" := JString(q.text), "options" := q.options,
                "correct_answer" := q.correctAnswer, "topic" := q.topic])
  }

  /**
   * One stored question as the scoring loop indexes it: a dict with the four keys and a text string.
   * The parsed question is read off those four entries; other keys are ignored.
   */
  function ParseQuestion(j: Json): (r: Option<Question>)
    ensures r.Some? <==>
              j.JObject? && "question_text" in j.fields && j.fields["question_text"].JString?
              && "options" in j.fields && "correct_answer" in j.fields && "topic" in j.fields
    ensures r.Some? ==>
              forall key :: key in QuestionJson(r.value).fields ==>
                key in j.fields && j.fields[key] == QuestionJson(r.value).fields[key]
  {
    match j
    case JObject(m) =>
      if "correct_answer" in m && "question_text" in m && m["question_text"].JString? && "options" in m && "topic" in m
      then Some(Question(m["question_text"].str, m["options"], m["correct_answer"], m["topic"]))
      else None
    case _ => None
  }

  /** Parsing reads back every question dict built from a question. */
  lemma ParseQuestionRoundTrip(q: Question)
    ensures ParseQuestion(QuestionJson(q)) == Some(q)
  {
    var m := QuestionJson(q).fields;
    assert "question_text" in m && "options" in m && "correct_answer" in m && "topic" in m;
  }

  function ParseAll(items: seq<Json>): (r: Option<seq<Question>>)
    ensures r.Some? <==> forall k :: 0 <= k < |items| ==> ParseQuestion(items[k]).Some?
    ensures r.Some? ==> |r.value| == |items| && forall k :: 0 <= k < |items| ==> ParseQuestion(items[k]) == Some(r.value[k])
  {
    if items == [] then Some([])
    else match (ParseQuestion(items[0]), ParseAll(items[1..]))
      case (Some(q), Some(rest)) => Some([q] + rest)
      case _ => None
  }

  /**
   * The stored questions the scoring loop can walk: a list of well-formed question dicts.
   * Anything else makes the loop raise.
   */
  function ParseQuestions(stored: Json): (r: Option<seq<Question>>)
    ensures r.Some? <==> stored.JArray? && forall k :: 0 <= k < |stored.items| ==> ParseQuestion(stored.items[k]).Some?
    ensures r.Some? ==> |r.value| == |stored.items|
  {
    match stored
    case JArray(items) => ParseAll(items)
    case _ => None
  }

  /**
   * `request.session.get('evaluation_questions', [])`: a missing key reads as the empty list, so a
   * missing key and a falsy stored value both fail the `if not questions` guard.
   */
  function StoredQuestions(questions: Option<Json>): (r: Json)
    ensures Truthy(r) <==> questions.Some? && Truthy(questions.value)
    ensures questions.Some? ==> r == questions.value
  {
    questions.GetOr(JArray([]))
  }

  /** The questions a submission is scored against: the stored list when it is truthy and every entry is a question dict. */
  function SubmittedQuestions(stored: Option<Json>): Option<seq<Question>> {
    if Truthy(StoredQuestions(stored)) then ParseQuestions(StoredQuestions(stored)) else None
  }

  /** The merge loop raises: some row is wrong and the explanations decoded to something other than a dict. */
  predicate MergeRaises(qs: seq<Question>, post: map<string, string>, decoded: Option<Json>) {
    decoded.Some? && !decoded.value.JObject? && exists k :: 0 <= k < |qs| && !CorrectAt(qs, post, k)
  }

  /**
   * The explanation the k-th stored row ends with: empty on a correct row; on a wrong row the
   * apology when the explanation call failed, else the decoded dict's entry or the missing-key default.
   */
  function MergedExplanation(qs: seq<Question>, post: map<string, string>, decoded: Option<Json>, k: nat): Json
    requires k < |qs|
  {
    if CorrectAt(qs, post, k) then JString("")
    else match decoded
      case None => JString(AiTutor.ExplanationApology)
      // a decoded value that is not a dict makes the merge raise, so no row is stored then
      case Some(explanations) => if explanations.JObject? then ExplanationFor(explanations.fields, qs[k].text) else JNull
  }

  /** The stored `full_results_data`: one row per question, in order, with its merged explanation. */
  function ExpectedRows(qs: seq<Question>, post: map<string, string>, decoded: Option<Json>): seq<ResultRow> {
    seq(|qs|, k requires 0 <= k < |qs| => RowAt(qs, post, k).(explanation := MergedExplanation(qs, post, decoded, k)))
  }

  /**
   * Reading the stored rows: every row carries its question's fields and `is_correct`; correct rows
   * keep the empty explanation; when the merge does not raise, a wrong row holds the apology after a
   * failed explanation call and otherwise the decoded dict's entry for its text, or the default.
   */
  lemma ExpectedRowsExplained(qs: seq<Question>, post: map<string, string>, decoded: Option<Json>, k: nat)
    requires k < |qs| && !MergeRaises(qs, post, decoded)
    ensures |ExpectedRows(qs, post, decoded)| == |qs|
    ensures var row := ExpectedRows(qs, post, decoded)[k];
      && row.(explanation := JString("")) == RowAt(qs, post, k)
      && row.isCorrect == CorrectAt(qs, post, k)
      && (CorrectAt(qs, post, k) ==> row.explanation == JString(""))
      && (!CorrectAt(qs, post, k) && decoded.None? ==> row.explanation == JString(AiTutor.ExplanationApology))
      && (!CorrectAt(qs, post, k) && decoded.Some? ==>
            decoded.value.JObject? && row.explanation == ExplanationFor(decoded.value.fields, qs[k].text))
  {
  }

  /** One row of the merge, as `MergeExplanations` leaves it, is the expected stored row. */
  lemma MergedRowIsExpected(qs: seq<Question>, post: map<string, string>, decoded: Option<Json>,
                            explanations: Json, row: ResultRow, merged: ResultRow, k: nat)
    requires k < |qs| && row == RowAt(qs, post, k)
    requires decoded.Some? ==> explanations == decoded.value
    requires decoded.None? ==>
               && explanations.JObject?
               && explanations.fields.Keys == AiTutor.QuestionTexts(WrongAnswers(qs, post, |qs|))
               && forall t :: t in explanations.fields ==> explanations.fields[t] == JString(AiTutor.ExplanationApology)
    requires row.isCorrect ==> merged == row
    requires !row.isCorrect ==>
               explanations.JObject? && merged == row.(explanation := ExplanationFor(explanations.fields, row.questionText))
    ensures merged == ExpectedRows(qs, post, decoded)[k]
  {
    if decoded.None? && !CorrectAt(qs, post, k) {
      FallbackExplainsEveryWrongRow(qs, post, explanations.fields, k);
    }
  }

  /** What grading a submission yields before anything is saved. */
  datatype Graded = Graded(score: nat, pointsChange: int, analysis: Json, rows: seq<ResultRow>)

  /**
   * The part of `submit_evaluation_view` between reading the questions and saving: score the answers,
   * ask for the analysis (replacing a falsy one by the default) and the explanations, and merge the
   * explanations into the wrong rows. `None` when the merge raises.
   */
  method GradeSubmission(questions: seq<Question>, post: map<string, string>,
                         analysisReply: AiTutor.Reply, explanationReply: AiTutor.Reply, decode: Decoder)
    returns (graded: Option<Graded>)
    ensures graded.None? <==> MergeRaises(questions, post, AiTutor.TryDecode(explanationReply, decode))
    ensures graded.Some? ==>
              var g := graded.value;
              && g.score == CorrectCount(questions, post, |questions|)
              && g.pointsChange == CorrectReward * g.score - WrongPenalty * (|questions| - g.score)
              && g.analysis == EffectiveAnalysis(AiTutor.AnalyzeUserPerformance(analysisReply, decode))
    ensures graded.Some? ==> graded.value.rows == ExpectedRows(questions, post, AiTutor.TryDecode(explanationReply, decode))
  {
    var score, pointsChange, wrongAnswers, rows := ScoreAnswers(questions, post);

    var analysis := EffectiveAnalysis(AiTutor.AnalyzeUserPerformance(analysisReply, decode));
    var explanations := AiTutor.GetBulkExplanations(explanationReply, decode, wrongAnswers);
    var decoded := AiTutor.TryDecode(explanationReply, decode);
    assert explanations.JObject? <==> !(decoded.Some? && !decoded.value.JObject?);
    forall k | 0 <= k < |questions|
      ensures rows[k].isCorrect == CorrectAt(questions, post, k)
    {
      assert rows[k] == RowAt(questions, post, k);
    }
    var merged := MergeExplanations(rows, explanations);
    if merged.None? {
      var k :| 0 <= k < |rows| && !rows[k].isCorrect;
      assert !CorrectAt(questions, post, k);
      return None;
    }
    var out := merged.value;
    forall k | 0 <= k < |questions|
      ensures out[k] == ExpectedRows(questions, post, decoded)[k]
    {
      MergedRowIsExpected(questions, post, decoded, explanations, rows[k], out[k], k);
    }
    graded := Some(Graded(score, pointsChange, analysis, out));
  }

  /**
   * `submit_evaluation_view`. Grades the stored questions against the form, adds the points change
   * to the user, stores the result and clears the session. An exception keeps the database writes
   * already done (the points are saved before the analysis is read, and the result is stored before
   * the session keys are deleted), but the session of an error response is not saved.
   */
  method SubmitEvaluation(session: Session, user: User, isPost: bool, post: map<string, string>,
                          analysisReply: AiTutor.Reply, explanationReply: AiTutor.Reply, decode: Decoder)
    returns (response: Response, stored: Option<EvaluationResult>)
    modifies session, user
    ensures !isPost || !Truthy(StoredQuestions(old(session.questions))) ==>
              response == RedirectStart && stored == None && unchanged(session, user)
    ensures isPost && Truthy(StoredQuestions(old(session.questions))) && SubmittedQuestions(old(session.questions)).None? ==>
              response == ServerError && stored == None && unchanged(session, user)
    ensures response == RedirectStart <==> !isPost || !Truthy(StoredQuestions(old(session.questions)))
    ensures response == RedirectStart || response == ServerError || response.ResultsPage?
    ensures response == ServerError ==> unchanged(session)
    ensures stored.Some? ==> isPost && SubmittedQuestions(old(session.questions)).Some?
    ensures stored.Some? ==>
              var qs, r := SubmittedQuestions(old(session.questions)).value, stored.value;
              && r.score == CorrectCount(qs, post, |qs|)
              && r.totalQuestions == |qs|
              && r.fullResultsData == ExpectedRows(qs, post, AiTutor.TryDecode(explanationReply, decode))
    ensures var sub := SubmittedQuestions(old(session.questions));
            var graded := isPost && sub.Some? && !MergeRaises(sub.value, post, AiTutor.TryDecode(explanationReply, decode));
            && (graded ==>
                  var score := CorrectCount(sub.value, post, |sub.value|);
                  user.points == old(user.points) + CorrectReward * score - WrongPenalty * (|sub.value| - score))
            && (!graded ==> user.points == old(user.points))
            && (stored.Some? <==> graded && EffectiveAnalysis(AiTutor.AnalyzeUserPerformance(analysisReply, decode)).JObject?)
    ensures stored.Some? ==>
              var analysis := EffectiveAnalysis(AiTutor.AnalyzeUserPerformance(analysisReply, decode));
              && analysis.JObject?
              && stored.value.weaknessSummary == DictGet(analysis.fields, "weakness_summary")
              && stored.value.detailedWeaknesses == DictGet(analysis.fields, "detailed_weaknesses")
    ensures response.ResultsPage? <==> stored.Some? && old(session.startTime).Some?
    ensures response.ResultsPage? ==>
              stored == Some(response.result) && session.questions == None && session.startTime == None
  {
    if !isPost {
      return RedirectStart, None;
    }
    var questionsJson := StoredQuestions(session.questions);
    if !Truthy(questionsJson) {
      return RedirectStart, None;
    }
    var parsed := ParseQuestions(questionsJson);
    if parsed.None? {
      // indexing a question that is not a dict with the expected keys raises
      return ServerError, None;
    }
    var questions := parsed.value;

    var graded := GradeSubmission(questions, post, analysisReply, explanationReply, decode);
    if graded.None? {
      return ServerError, None;
    }
    var g := graded.value;
    forall k | 0 <= k < |questions|
      ensures g.rows[k].isCorrect == CorrectAt(questions, post, k)
    {
      assert g.rows[k] == RowAt(questions, post, k).(explanation := g.rows[k].explanation);
    }
    assert SubmittedQuestions(session.questions) == Some(questions);
    response, stored := RecordGrade(session, user, |questions|, g);
  }

  /**
   * The saving tail of `submit_evaluation_view`: add the points change to the user, build and store
   * the result, and clear the session keys. Reading a truthy analysis that is not a dict raises after
   * the points were saved; deleting a missing start time raises after the result was stored. Django
   * does not save the session of an error response, so the deletion of the questions is lost then.
   */
  method RecordGrade(session: Session, user: User, total: nat, g: Graded)
    returns (response: Response, stored: Option<EvaluationResult>)
    modifies session, user
    ensures user.points == old(user.points) + g.pointsChange
    ensures stored.Some? <==> g.analysis.JObject?
    ensures stored.None? ==> response == ServerError
    ensures stored.Some? ==>
              stored.value == EvaluationResult(g.score, total, DictGet(g.analysis.fields, "weakness_summary"),
                                               DictGet(g.analysis.fields, "detailed_weaknesses"), g.rows)
    ensures stored.Some? && old(session.startTime).Some? ==>
              response == ResultsPage(stored.value) && session.questions == None && session.startTime == None
    ensures stored.None? || old(session.startTime).None? ==> response == ServerError && unchanged(session)
  {
    user.points := user.points + g.pointsChange;

    if !g.analysis.JObject? {
      return ServerError, None;
    }
    var result := EvaluationResult(g.score, total, DictGet(g.analysis.fields, "weakness_summary"),
                                   DictGet(g.analysis.fields, "detailed_weaknesses"), g.rows);
    stored := Some(result);

    if session.startTime.None? {
      // `del` of the missing start time raises, and the session with the questions deleted is not saved
      return ServerError, stored;
    }
    session.questions := None;
    session.startTime := None;
    response := ResultsPage(result);
  }
}
