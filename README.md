# A-Level Politics feedback pipeline

A model of the core of the AQA Politics feedback app. A client posts an exam
answer: paper, question type, exam question, optional extract and student
response. An `/analyze` handler validates the body. A feedback service turns
the request into a prompt for a language-model endpoint and turns the free-text
reply into structured feedback. A separate helper classifies question texts.

The Dafny modules follow the source files:

| module | file | models |
|---|---|---|
| `Results` | results.dfy | `Option` and `Result`, standing in for thrown errors and early returns |
| `Text` | text.dfy | `indexOf`, `lastIndexOf`, `includes`, `trim` with the ECMAScript whitespace set, brace counting |
| `Requests` | requests.dfy | the raw body as JavaScript sees it (missing, string, other value with its truthiness), the validated `FeedbackRequest`, the 400 bodies |
| `FeedbackRoutes` | feedback_routes.dfy | the paper and question-type tables and the guard chain of `src/api/feedbackRoutes.ts` |
| `FeedbackApi` | feedback_api.dfy | the duplicate handler `src/api/feedback.ts`, and its equivalence with `FeedbackRoutes` |
| `Json` | json.dfy | JSON values, property access and truthiness; `JSON.parse` is a parameter |
| `PromptTemplate` | prompt_template.dfy | template literals as fixed texts and interpolated request fields |
| `FeedbackAnalyzer` | feedback_analyzer.dfy | `extractJSONObject` as a method with a loop, the `promptContent` template, the payload, the field mapping, `analyzeFeedback` |
| `Claude` | claude.dfy | `buildPrompt`, the greedy `{…}` match, `parseResponse` with its empty-array defaults and fallback, `determineQualityIndicator` |
| `QuestionTypeIdentifier` | question_type_identifier.dfy | `identifyQuestionType` |

Prompt properties are stated twice. On the template's pieces they say which
request fields are interpolated, in which order, and which fixed texts appear.
On the rendered string they give the prompt in closed form: each caption
followed by its request value, with the extract line present or absent. No
claim says that a caption does not occur in the prompt, because a user's own
text may contain any caption.

Three behaviours of the code are easy to miss, and the model keeps them:
- `examQuestion` and `studentResponse` are not trimmed, so a whitespace-only
  answer is accepted.
- `analyzeFeedback` copies the four fields of the parsed reply with no
  defaulting. A missing field stays `undefined`.
- Every failure of `analyzeFeedback` propagates. Only `parseResponse` in
  `claude.ts` falls back to fixed feedback.

## Model

| member | source | states |
|---|---|---|
| Text.IndexOf | src/services/feedbackAnalyzer.ts:23 | `-1` exactly when the character is absent; otherwise an index holding it with no earlier occurrence |
| Text.Trim | src/api/feedbackRoutes.ts:74 | the trimmed text is empty exactly when every character is ECMAScript whitespace or a line terminator |
| FeedbackRoutes.PaperTableKeys | src/api/feedbackRoutes.ts:9-20 | the valid papers are exactly the keys of the question-type table |
| FeedbackRoutes.Validate | src/api/feedbackRoutes.ts:27-88 | an accepted request has a paper from the table, a question type listed for that paper, and a non-empty exam question and student response; a rejection names a check the body fails |
| FeedbackRoutes.PaperCheckFirst | src/api/feedbackRoutes.ts:31-37 | a paper that is missing, not a string or not listed is the reported failure, whatever the other fields hold |
| FeedbackRoutes.QuestionTypeGivenSecond | src/api/feedbackRoutes.ts:40-46 | with a valid paper, a missing or non-string question type is the reported failure |
| FeedbackRoutes.QuestionTypeAllowedThird | src/api/feedbackRoutes.ts:47-53 | a question type outside the paper's list is the reported failure once the earlier checks pass |
| FeedbackRoutes.ExamQuestionFourth | src/api/feedbackRoutes.ts:56-62 | a missing, non-string or empty exam question is the reported failure once the earlier checks pass |
| FeedbackRoutes.StudentResponseFifth | src/api/feedbackRoutes.ts:65-71 | a missing, non-string or empty student response is the reported failure once the earlier checks pass |
| FeedbackRoutes.ExtractTextLast | src/api/feedbackRoutes.ts:74-80 | an extract question without a non-blank string extract is the reported failure once all other checks pass |
| FeedbackRoutes.AllChecksAccept | src/api/feedbackRoutes.ts:31-88 | a body passing all six checks is accepted |
| FeedbackRoutes.FirstFailingCheckDecides | src/api/feedbackRoutes.ts:31-80 | accepted exactly when every check passes; a rejection names a failing check, and every check before it passes |
| FeedbackRoutes.RejectionContext | src/api/feedbackRoutes.ts:31-53 | a paper rejection lists the three papers; a question-type rejection lists the supplied paper's question types |
| FeedbackRoutes.AcceptedFieldsCopied | src/api/feedbackRoutes.ts:82-88 | an accepted request holds the five fields unchanged, and `extractText` is kept even when the question is not an extract question |
| FeedbackRoutes.InvalidPaperRejected | src/api/feedbackRoutes.ts:31-37 | an invalid paper yields exactly the paper rejection, with its message and the list of valid papers |
| FeedbackRoutes.PaperSpecificQuestionTypes | src/api/feedbackRoutes.ts:16-20 | "Comparative essay" and "Comparative 9-marker" belong to the US paper alone; "Essay" belongs to the other two papers alone |
| FeedbackRoutes.QuestionTypeDecidesAcceptance | src/api/feedbackRoutes.ts:40-80 | an otherwise valid body (with a non-blank string extract when the question type is "Extract question") is accepted exactly when its question type is in its paper's list; otherwise it is rejected at the right question-type check |
| FeedbackRoutes.WhitespaceAnswersAccepted | src/api/feedbackRoutes.ts:56-71 | whitespace-only exam questions and student responses pass, since nothing trims them |
| FeedbackRoutes.BlankExtractRejected | src/api/feedbackRoutes.ts:74-80 | an extract question with a missing, non-string or blank extract is rejected, and when all other checks pass, for that reason |
| FeedbackApi.Validate | src/api/feedback.ts:26-86 | an accepted request holds the five fields unchanged; an extract question with a blank extract is rejected |
| FeedbackApi.TablesMatchRoutes | src/api/feedback.ts:8-19 | both handlers have the same paper list and the same question-type table |
| FeedbackApi.UKAndIdeasShareList | src/api/feedback.ts:16-17 | the UK and political-ideas papers share one list of question types |
| FeedbackApi.ValidateMatchesRoutes | src/api/feedback.ts:29-86 | for every body, both handlers give the same request or the same rejection, despite the differently written list on line 42 |
| Json.Get | src/services/feedbackAnalyzer.ts:131-134 | a property is `undefined` exactly when the parsed object lacks it, and otherwise holds the object's own member |
| FeedbackAnalyzer.IsExtraction | src/services/feedbackAnalyzer.ts:23-38 | an extraction exists only in a text holding a `{`; it is non-empty, starts with `{` and has as many `{` as `}` |
| FeedbackAnalyzer.ExtractJsonObject | src/services/feedbackAnalyzer.ts:22-44 | "no JSON object" exactly when there is no `{`; "incomplete" exactly when the depth from the first `{` never returns to zero; otherwise the text from the first `{` to the first return to depth zero |
| FeedbackAnalyzer.ExtractionUnique | src/services/feedbackAnalyzer.ts:33-36 | at most one substring qualifies as the extraction |
| FeedbackAnalyzer.ExtractionShape | src/services/feedbackAnalyzer.ts:29-38 | an extracted object starts with `{`, ends with `}`, has as many `{` as `}`, and every proper non-empty prefix has more `{` than `}` |
| FeedbackAnalyzer.LaterObjectsIgnored | src/services/feedbackAnalyzer.ts:22-44 | text before the first `{`, and anything after the first balanced object (later objects included), does not change the extraction |
| FeedbackAnalyzer.NoClosingBraceIsIncomplete | src/services/feedbackAnalyzer.ts:40-42 | a text with a `{` and no `}` never returns to depth zero, so it is incomplete |
| FeedbackAnalyzer.Template | src/services/feedbackAnalyzer.ts:63-83 | the prompt interpolates the request's paper, question type and exam question, then its extract exactly when `extractText` is truthy (whatever the question type), then its student response; its fixed text is the same for every request except for the extract caption, which appears exactly when `extractText` is truthy |
| FeedbackAnalyzer.Prompt | src/services/feedbackAnalyzer.ts:63-83 | the prompt string is the heading, then paper, question type and exam question each after its caption, then `- Extract Text: <extract>` exactly when `extractText` is truthy, then the student response after its caption and the closing guidelines; with a truthy extract it contains `- Extract Text: ` followed by the extract |
| FeedbackAnalyzer.BuildPayload | src/services/feedbackAnalyzer.ts:86-97 | the payload carries the configured model, the fixed system text, `max_tokens` 800 and one user message holding the prompt |
| FeedbackAnalyzer.MapFields | src/services/feedbackAnalyzer.ts:130-135 | each of the four fields is defined exactly when the parsed object has it, and is then that value |
| FeedbackAnalyzer.AnalyzeFeedback | src/services/feedbackAnalyzer.ts:53-136 | a missing key or endpoint, a non-ok status, missing content, either extraction failure and a parse failure each yield their own error; otherwise the mapped fields of the one extracted object |
| Claude.Template | src/services/claude.ts:81-110 | the prompt interpolates paper, question type and exam question, then the extract exactly for an extract question with a truthy extract, then the student response, all taken from the request; the fixed text is the same for every request except for the extract line |
| Claude.ExtractIgnoredUnlessExtractQuestion | src/services/claude.ts:82-85 | for any other question type, changing the extract never changes the prompt |
| Claude.BuildPrompt | src/services/claude.ts:81-110 | the prompt string is the heading, then paper, question type and exam question each after its caption, then `Extract Text: <extract>` and a line break exactly for an extract question with a truthy extract, then the student response after its caption and the requested JSON structure; that line is then contained in the prompt |
| Claude.GreedyMatch | src/services/claude.ts:114-117 | no candidate exactly when no `}` follows a `{`; otherwise the text from the first `{` to the last `}` |
| Claude.GreedyCoversExtraction | src/services/claude.ts:114-118 | where the balanced scan finds an object, the greedy match starts at the same `{` and extends it |
| Claude.DetermineQualityIndicator | src/services/claude.ts:143-158 | "requires improvement" exactly below 40% of 15 (a total under 6); "excellent" exactly from 70% (a total of at least 10.5); "good" between |
| Claude.IndicatorMonotone | src/services/claude.ts:148-157 | a higher total never gives a lower band |
| Claude.IndicatorExtremes | src/services/claude.ts:148-157 | full marks (5, 5, 5) is excellent; no marks requires improvement |
| Claude.OrEmpty | src/services/claude.ts:127-129 | a truthy value is kept; a missing or falsy one becomes `[]`; the result is always truthy |
| Claude.BreakdownMember | src/services/claude.ts:121-123 | `breakdown?.name` is defined exactly when `breakdown` is an object that has that member, and is then that member |
| Claude.ScoreOf | src/services/claude.ts:121-123 | a missing or falsy score counts 0; a number counts its value; `true` counts 1 |
| Claude.IndicatorOf | src/services/claude.ts:119-124 | a parsed reply without a `breakdown` object scores 0 in every category and requires improvement |
| Claude.ParseResponse | src/services/claude.ts:112-141 | no candidate or a parse failure gives the fixed fallback; otherwise truthy arrays are kept and falsy or missing ones become `[]`, with the indicator banded from the breakdown; the three lists are always truthy |
| Claude.MissingBreakdownRequiresImprovement | src/services/claude.ts:119-157 | a parsed reply without a `breakdown` object requires improvement |
| Claude.BetterBandsNeedBreakdown | src/services/claude.ts:121-141 | "good" or "excellent" is reached only from a parsed reply with a `breakdown` object |
| QuestionTypeIdentifier.IdentifyQuestionType | src/services/questionTypeIdentifier.ts:1-21 | results follow the test order: "compare" or "contrast" gives comparative; then "extract"; then the first of `[9 marks]`, `[25 marks]`, `[30 marks]`; "unknown" when none matches; the result is always one of the six reachable labels, never "ideologies essay" |
| QuestionTypeIdentifier.IdeologyQuestionMisclassified | src/services/questionTypeIdentifier.ts:14-19 | `ideology [30 marks]` is classified as a comparative essay |
| QuestionTypeIdentifier.IdentifyQuestionTypeIntended | src/services/questionTypeIdentifier.ts:14-19 | with the ideology test first, "ideologies essay" is returned exactly for a 30-mark question mentioning ideology that no earlier test catches; every other result is the as-written classifier's |
| QuestionTypeIdentifier.IdeologyQuestionIntended | src/services/questionTypeIdentifier.ts:17-18 | under the corrected order, `ideology [30 marks]` is an ideologies essay |

## Left out

- The network calls to the completion endpoint are left out. These are `fetch` in `feedbackAnalyzer.ts` and the Anthropic SDK call in `claude.ts`. `AnalyzeFeedback` receives the endpoint as a function from payload to reply, and keeps only the status and body of a non-ok reply and the content texts of an ok reply.
- HTTP headers, the API version header and `JSON.stringify` of the payload are left out. They are transport encoding.
- `analyzePoliticsResponse`'s SDK call, its fixed model name and `max_tokens` 1000, and its rethrow as "Failed to analyze response" are left out. They are network plumbing. Its `buildPrompt` and `parseResponse` are modelled.
- `JSON.parse` is an uninterpreted function parameter. Its reading of JSON text is not modelled.
- A failure to decode the reply envelope (`response.json()`) is left out. So is an envelope whose first content item is not text. Both happen inside the network call.
- `temperature: 0.7` is a floating-point constant and is left out of `Payload`.
- The `ClaudeService` singleton, its client field and `getInstance` are left out. They are process-global plumbing with no logic.
- The Express router, the `res.status().json()` calls and the catch-to-500 handler are left out. So are `server.ts`, `config.ts` environment loading, console logging, `public/app.js` and `testClaudeAPI.ts`. The 400 bodies are the `ValidationError` values, less the constant `error` string.
- The un-awaited `generateFeedback` call in `src/api/feedback.ts` is left out. It is asynchronous behaviour, and that router is not mounted.
- `feedbackGenerator.ts` is a one-line asynchronous wrapper and is not part of this model.
- Claude.ScoreOf: a truthy score that is not a number or `true` counts 0 here. Examples are a non-empty string, an array and an object. In JavaScript, `+` would concatenate such a value as a string. A non-numeric string total divided by 15 is NaN, which fails both `< 40` and `< 70`, so the source returns 'excellent'. The model instead bands the sum as if that score were 0.
- Claude.DetermineQualityIndicator: it uses exact real arithmetic. Floating-point rounding of `total / 15 * 100` at the band edges (totals 6 and 10.5) is not claimed.
- The thrown messages "No JSON object found in text." and "Incomplete JSON object in text." are not modelled. The two extraction failures are the constructors `NoJsonObject` and `IncompleteJsonObject`.
- The quality-indicator strings 'requires improvement', 'good' and 'excellent' are not modelled as text. They are the constructors of `Claude.Quality`.
- Text.Trim: strings are sequences of code points. UTF-16 surrogate handling is not modelled.

## Findings

| source | as written | input that shows it | evidently intended | confidence | as-written member | corrected member |
|---|---|---|---|---|---|---|
| src/services/questionTypeIdentifier.ts:14-19 | the plain `[30 marks]` test comes before the `[30 marks]`-and-`ideology` test, so "ideologies essay" can never be returned | `ideology [30 marks]` gives "comparative essay" | a 30-mark question mentioning ideology is classified as an ideologies essay | medium, not executed | QuestionTypeIdentifier.IdeologyQuestionMisclassified | QuestionTypeIdentifier.IdentifyQuestionTypeIntended |
