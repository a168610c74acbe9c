# Lumina evaluation core, modelled in Dafny

Lumina is a Django tutoring app for WAEC English. A student starts a diagnostic test that a
generative AI writes. The student answers it against a fifteen-minute deadline. The submission
is then scored, the AI analyses the wrong answers and explains each one, and the student's
points and a result record are saved.

This project models the deterministic logic around the AI calls:

- `AiTutor` (`ai_tutor.dfy`, from `core/ai_tutor.py`):
  - the cleanup every call applies to a reply: remove each "```json", then each "```", then `strip()`;
  - how `generate_evaluation_test` sorts a reply into four `(data, error)` outcomes;
  - the `None` or fixed-string fallbacks of the other calls;
  - the loop that builds the fallback explanation map.
- `Views` (`views.dfy`, from `core/views.py`):
  - the POST and GET branches of `take_evaluation_view`;
  - all of `submit_evaluation_view`: the scoring loop, the analysis default, the explanation
    merge loop, the points update, the stored result and the session cleanup.
- `Text` (`text.dfy`): Python's `str.replace(p, '')`, `str.strip()` and `p in s`.
- `JsonValues` (`json.dfy`): decoded JSON values, Python truthiness and `dict.get`.
- `Wrappers` (`wrappers.dfy`): `Option`.

Each AI call is an input `Reply(text) | Raised`. `json.loads` is an abstract parameter
`decode: string -> Option<Json>`, where `None` means it raised. Python's `None` and JSON `null`
are the same value, `JNull`. The session and the user are classes whose fields the views update.
The submitted form is a map from field name to value. An exception that escapes a view is the
response `ServerError`. Database writes made before the exception (`user.save()`,
`EvaluationResult.objects.create`) stay made. The session keeps its old contents, because
Django's session middleware does not save the session of an error response.

The scoring loop, the merge loop and the fallback-map loop are methods with loop invariants. They
are proved against specification functions: `CorrectCount`, `WrongAnswers`, `RowAt`,
`ExplanationFor` and `QuestionTexts`. Lemmas then prove what these functions mean.

Behaviour of the code worth knowing, which the model follows:

- A reply that decodes to JSON `null` makes `generate_evaluation_test` return `(None, None)`. So
  "exactly one half of the pair is `None`" holds for every other reply
  (`AiTutor.ExactlyOneNone`, `AiTutor.NullReplyGivesNoneNone`).
- `user_answer == q['correct_answer']` is Python equality. A missing answer (`None`) therefore
  matches a JSON `null` correct answer. Against the string letters the prompt asks for, a missing
  answer is wrong (`Views.MissingAnswerIsWrong`).
- Explanations are defaulted only when the key is missing. An empty explanation from the AI
  passes through unchanged.
- The AI's analysis is used whenever it is truthy, even when every answer was correct.

## Model

| member | source | states |
|---|---|---|
| Text.RemoveAll | core/ai_tutor.py:41 | `replace(p, '')` never lengthens the string |
| Text.RemoveAllIdentity | core/ai_tutor.py:41 | `replace(p, '')` leaves the string unchanged if and only if `p` does not occur in it |
| Text.RemoveAllShrinks | core/ai_tutor.py:41 | when `p` occurs, `replace(p, '')` makes the string strictly shorter |
| Text.Strip | core/ai_tutor.py:41 | `strip()` yields a trimmed slice of the input, with only whitespace before and after it |
| Text.StripOfPadded | core/ai_tutor.py:41 | `strip()` of whitespace + trimmed middle + whitespace is exactly the middle, which fixes `strip()` by its contract |
| Text.StripTrimmed | core/ai_tutor.py:41 | `strip()` leaves an already trimmed string unchanged |
| Text.LeadingTicksAfterRemoval | core/ai_tutor.py:41 | removing every "```" turns a run of n leading backticks into n mod 3 |
| Text.RemoveFenceLeavesNone | core/ai_tutor.py:41 | after `replace('```', '')` no "```" remains: the removal never joins backticks into a new fence |
| Text.StripKeepsAbsence | core/ai_tutor.py:41 | `strip()` never creates an occurrence of a pattern |
| Text.Contains | core/views.py:90 | Python's `p in s` on strings, as in `'questions' not in test_data` for a string and in the cleanup's contract: the empty pattern and any prefix occur, and an occurring pattern is no longer than the string |
| JsonValues.Truthy | core/views.py:130 | Python truthiness, as used at lines 90, 105, 130 and 170: a value is falsy exactly when it is `None`, `False`, zero, or an empty string, list or dict |
| JsonValues.DictGet | core/views.py:192-193 | `dict.get(key)`: the stored value when the key is present; a non-`None` result means the key is present |
| AiTutor.Clean | core/ai_tutor.py:41 | the cleaned reply contains neither "```" nor "```json" and has no leading or trailing whitespace |
| AiTutor.CleanIdempotent | core/ai_tutor.py:41 | cleaning a cleaned reply changes nothing |
| AiTutor.CleanFenceFree | core/ai_tutor.py:41 | on a reply without fences, the cleanup is just `strip()` |
| AiTutor.CleanUnwrapsFence | core/ai_tutor.py:41 | "```json" + body + "```" with a fence-free body cleans to the stripped body, the same as the body alone |
| AiTutor.GenerateEvaluationTest | core/ai_tutor.py:37-60 | four outcomes, each if and only if its condition holds: raised gives the connection message; empty cleaned reply gives the empty-response message; undecodable gives the malformed message; otherwise the decoded value with no error. Every error has `None` data and a non-empty message |
| AiTutor.EmptyReplyNotDecoded | core/ai_tutor.py:44-47 | an empty cleaned reply gives the same outcome whatever the decoder does, so it is never decoded |
| AiTutor.ExactlyOneNone | core/ai_tutor.py:44-60 | exactly one half of the pair is `None`, unless the reply decodes to `null` |
| AiTutor.NullReplyGivesNoneNone | core/ai_tutor.py:49 | the reply "null" gives `(None, None)` |
| AiTutor.FencedReplySameOutcome | core/ai_tutor.py:41-49 | wrapping a fence-free reply in a "```json" fence does not change the outcome |
| AiTutor.TryDecode | core/ai_tutor.py:80-86 | the shared try-block: `None` when the call raised, else the decoding of the cleaned reply |
| AiTutor.AnalyzeUserPerformance | core/ai_tutor.py:80-86 | the decoded analysis, or `None` when the call raised or the decode failed |
| AiTutor.EmptyReplyNoAnalysis | core/ai_tutor.py:82-86 | an empty cleaned reply is not special-cased; it fails to decode, so the analysis is `None` |
| AiTutor.GeneratePersonalizedQuiz | core/ai_tutor.py:141-147 | the decoded quiz, or `None` when the call raised or the decode failed |
| AiTutor.FailedExplanations | core/ai_tutor.py:120-123 | the fallback map's keys are exactly the wrong answers' question texts (so an empty input gives an empty map), and every value is the fixed apology |
| AiTutor.GetBulkExplanations | core/ai_tutor.py:112-123 | the decoded explanations when the call and the decode succeed; otherwise the fallback map |
| AiTutor.AskTutorQuestion | core/ai_tutor.py:163-168 | the raw reply text on success, the fixed "trouble connecting" string on failure |
| AiTutor.TutorAnswerKeepsFences | core/ai_tutor.py:163-165 | the tutor answer is not cleaned: a fenced reply keeps its fence |
| Views.LookupQuestions | core/views.py:90-94 | the questions are found exactly when the data is a dict with a `questions` key; falsy data counts as missing |
| Views.TakeEvaluationPost | core/views.py:78-98 | an AI error shows its message; data without questions shows the missing-questions page; in both cases the session is unchanged. Otherwise the questions and the start time are stored and the view redirects to the test |
| Views.TakeEvaluationGet | core/views.py:102-117 | the test page is shown if and only if truthy questions and a start time are stored; its deadline is the start time plus 15 minutes. Otherwise the view redirects to the start page |
| Views.DecimalInjective | core/views.py:140 | different question indices render as different decimal strings |
| Views.FieldNamesDistinct | core/views.py:140-141 | distinct questions read distinct form fields `question_{i}` |
| Views.AnswerAt | core/views.py:140-141 | `request.POST.get(f"question_{i}")`: a value exactly when the field `question_{i}` is in the form, and then that field's value |
| Views.IsCorrect | core/views.py:142 | Python `==` between the answer and `correct_answer`: only a string or `null` correct answer can match; against a string, correct exactly when that string was submitted |
| Views.MissingAnswerIsWrong | core/views.py:141-142 | a missing form value never equals a string correct answer |
| Views.CorrectCount | core/views.py:139-146 | the correct count of a prefix never exceeds its length |
| Views.CorrectPositionsMembers | core/views.py:139-146 | a position is among the correct positions of a prefix exactly when it lies in the prefix and its answer is correct |
| Views.CorrectCountIsSize | core/views.py:139-146 | the running score is the number of positions whose answer equals `correct_answer` |
| Views.WrongAnswersCount | core/views.py:147-155 | there are as many wrong answers as wrong positions: total minus score |
| Views.WrongPositionsIncreasing | core/views.py:139-155 | the wrong answers are collected in increasing question order |
| Views.WrongAnswersInOrder | core/views.py:147-155 | the j-th wrong answer is the entry built from the j-th wrongly answered question |
| Views.WrongPositionsComplete | core/views.py:147-155 | every wrongly answered question is among the collected ones |
| Views.WrongTextsHandedOver | core/views.py:150-155 | every wrongly answered question's text is handed to the explanation call |
| Views.ScoreAnswers | core/views.py:134-165 | the score is the correct count; points change = 10 × correct − 5 × wrong; the wrong answers are the in-order list; one row per question carrying its `is_correct` and an empty explanation |
| Views.MergeExplanations | core/views.py:177-181 | correct rows are unchanged. Each wrong row gets the map's value for its question text, or the default when the key is absent. Rows with identical text get the same explanation. The merge raises exactly when a wrong row exists and the explanations are not a dict |
| Views.FallbackExplainsEveryWrongRow | core/views.py:174-181 | after a failed explanation call, every wrong row gets the apology, never the missing-key default |
| Views.EffectiveAnalysis | core/views.py:169-171 | a truthy analysis is kept; a falsy one becomes the default summary with an empty weakness list |
| Views.StoredQuestions | core/views.py:129 | `session.get('evaluation_questions', [])`: the stored value if any; the result is truthy exactly when a truthy value is stored |
| Views.ParseQuestion | core/views.py:151-162 | an entry is a usable question exactly when it is a dict with the four keys read by the loop and a string `question_text`; the parsed question keeps each of those values |
| Views.ParseQuestionRoundTrip | core/views.py:151-162 | rebuilding a question's dict and parsing it gives the same question back |
| Views.ExplanationFor | core/views.py:180 | `all_explanations.get(text, default)`: the map's value when the text is a key, else the fixed default |
| Views.ParseAll | core/views.py:139-142 | the stored list is usable exactly when every entry is a question dict, parsed entry by entry |
| Views.ParseQuestions | core/views.py:139-142 | the stored questions are usable exactly when they form a list of question dicts |
| Views.ExpectedRowsExplained | core/views.py:157-181 | the expected stored rows: one per question, each with the question's text, options, topic, answers and `is_correct`; a correct row's explanation is empty, a wrong row's is the apology after a failed call, else the map's value or the missing-key default |
| Views.MergedRowIsExpected | core/views.py:174-181 | one merged row equals the expected row, on both the decoded and the fallback path |
| Views.GradeSubmission | core/views.py:133-181 | grading fails exactly when a wrong answer meets explanations that decoded to a non-dict. Otherwise: the score, the points change and the analysis as above, and the rows are exactly the expected rows |
| Views.SubmitEvaluation | core/views.py:121-201 | a GET or an empty session redirects to the start page and changes nothing. On every path the user's points rise by exactly 10 × correct − 5 × wrong when grading succeeded (even if saving the result crashes later) and are unchanged otherwise. A result is stored exactly when grading succeeded and the effective analysis is a dict; it holds the score, the total, exactly the expected rows (texts, answers, `is_correct`, explanations), and the summary and weaknesses of the effective analysis. The response is the start-page redirect exactly for a GET or an empty session, the results page exactly when a result is stored and a start time was present (both session keys are then cleared), and otherwise a crash that leaves the session unchanged |
| Views.RecordGrade | core/views.py:184-201 | the points rise by the change before anything else. A result is stored exactly when the analysis is a dict. With a result and a start time, both session keys are cleared and the response is the results redirect. Otherwise the response is a crash and the session is unchanged, since an error response's session is not saved |

## Left out

- The Gemini client (`genai.configure`, `GenerativeModel`, `generate_content`) and `check_models.py`: a foreign network service, modelled as the input `Reply`.
- `json.loads` internals: an abstract decoder parameter. JSON numbers are real numbers, not floats.
- Prompt templating (`json.dumps` into f-strings), the `print` logging and the API key printed at import.
- AiTutor.GenerateEvaluationTest: the `response.result` read at core/ai_tutor.py:52 only feeds a log line. The model returns the intended malformed-response message, though that read could itself raise.
- AiTutor.GeneratePersonalizedQuiz: the `weaknesses` and `num_questions` parameters only shape the prompt. A `', '.join` raising on non-string weaknesses is not modelled.
- AiTutor.AskTutorQuestion: the question and chat history only shape the prompt.
- Django auth, `render`/`redirect` and URL routing (`core/urls.py`): responses are a datatype, with `ServerError` for an escaping exception.
- The session store and the ORM (`EvaluationResult.objects.create`, `user.save()`): plain fields and a returned record. `core/models.py` only shapes `EvaluationResult`; database constraints such as a non-null summary are not modelled.
- Views.TakeEvaluationGet: times are integer seconds. Timezones, ISO-8601 formatting, and a stored start time that fails to parse are not modelled.
- Views.ParseQuestions: a question's `question_text` must be a JSON string, and any other value is treated as a crash. The source accepts a number, `null` or a boolean there without raising. A list or dict text raises only when its question was answered wrongly, where it is used as a dict key.
- AiTutor.GenerateEvaluationTest: a `json.loads` failure other than `JSONDecodeError` (a `RecursionError`, say) is caught by `except Exception` at core/ai_tutor.py:56-60 and gives the connection message. The decoder's `None` gives the malformed message instead.
- Views.SubmitEvaluation: `request.POST.get` is a map from field name to one value; multi-valued fields are not modelled.
- Concurrent requests on the same session are not modelled.
- Views.RecordGrade: Django's rule that the session of a 5xx response is not saved comes from its session middleware, which is not part of this model; the model states its effect, an unchanged session after a crash.
