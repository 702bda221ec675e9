/**
 * src/services/feedbackAnalyzer.ts: builds the prompt and request payload
 * for a validated request, extracts the first balanced JSON object from the
 * model's reply and copies its four feedback fields.
 */
module FeedbackAnalyzer {
  import opened Results
  import opened Text
  import opened Requests
  import opened PromptTemplate
  import Json

  // ---------------------------------------------------------------------
  // extractJSONObject

  datatype ExtractError = NoJsonObject | IncompleteJsonObject

  /** Opening braces minus closing braces: the scan's `braceCount` after reading `s`. */
  function Depth(s: string): int
  {
    Count(s, '{') - Count(s, '}')
  }

  /** Reading one more character moves the depth by that character's brace. */
  lemma DepthStep(text: string, start: nat, i: nat)
    requires start <= i < |text|
    ensures Depth(text[start..i + 1]) ==
      Depth(text[start..i]) + (if text[i] == '{' then 1 else if text[i] == '}' then -1 else 0)
  {
    var s := text[start..];
    assert text[start..i + 1] == s[..i - start + 1];
    assert text[start..i] == s[..i - start];
    CountStep(s, i - start, '{');
    CountStep(s, i - start, '}');
  }

  /**
   * Scanning from `start`, the depth first returns to zero on reading the
   * character before `end`.
   */
  predicate ClosesAt(text: string, start: int, end: int)
  {
    && 0 <= start < end <= |text|
    && Depth(text[start..end]) == 0
    && forall k :: start < k < end ==> Depth(text[start..k]) > 0
  }

  /** Scanning from `start`, the depth never returns to zero before the text ends. */
  predicate NeverCloses(text: string, start: int)
    requires 0 <= start <= |text|
  {
    forall k :: start < k <= |text| ==> Depth(text[start..k]) > 0
  }

  /** `v` is the first balanced object of `text`: it starts at the first `{` and ends where the depth first returns to zero. */
  predicate IsExtraction(text: string, v: string)
    ensures IsExtraction(text, v) ==> '{' in text && v != [] && v[0] == '{' && Depth(v) == 0
  {
    var start := IndexOf(text, '{');
    && start != -1
    && start + |v| <= |text|
    && v == text[start..start + |v|]
    && ClosesAt(text, start, start + |v|)
  }

  /** The depth returns to zero at most once first: the extraction is unique. */
  lemma ExtractionUnique(text: string, v: string, w: string)
    requires IsExtraction(text, v) && IsExtraction(text, w)
    ensures v == w
  {
  }

  /** A proper non-empty prefix of the extraction is a scan prefix that has not yet closed. */
  lemma ExtractionPrefixOpen(text: string, v: string, k: int)
    requires IsExtraction(text, v) && 0 < k < |v|
    ensures Count(v[..k], '{') > Count(v[..k], '}')
  {
    var start := IndexOf(text, '{');
    assert ClosesAt(text, start, start + |v|);
    assert v[..k] == text[start..start + k];
  }

  /** The extraction is at least `{}` long and its last character is the `}` that closed it. */
  lemma ExtractionEnds(text: string, v: string)
    requires IsExtraction(text, v)
    ensures |v| >= 2 && v[|v| - 1] == '}'
  {
    var start := IndexOf(text, '{');
    var end := start + |v|;
    assert ClosesAt(text, start, end);
    DepthStep(text, start, start);
    assert text[start..start] == [];
    assert Depth(text[start..start + 1]) == 1;
    DepthStep(text, start, end - 1);
    assert Depth(text[start..end - 1]) > 0;
    assert v[|v| - 1] == text[end - 1];
  }

  /**
   * An extracted object begins with `{`, ends with `}`, holds as many `{`
   * as `}`, and every proper non-empty prefix of it holds more `{` than `}`.
   */
  lemma ExtractionShape(text: string, v: string)
    requires IsExtraction(text, v)
    ensures |v| >= 2 && v[0] == '{' && v[|v| - 1] == '}'
    ensures Count(v, '{') == Count(v, '}')
    ensures forall k :: 0 < k < |v| ==> Count(v[..k], '{') > Count(v[..k], '}')
  {
    ExtractionEnds(text, v);
    forall k | 0 < k < |v|
      ensures Count(v[..k], '{') > Count(v[..k], '}')
    {
      ExtractionPrefixOpen(text, v, k);
    }
  }

  /**
   * The brace scan of `extractJSONObject`: from the first `{`, count braces
   * and stop at the first return to zero.
   */
  method ExtractJsonObject(text: string) returns (r: Result<string, ExtractError>)
    ensures r == Failure(NoJsonObject) <==> '{' !in text
    ensures r == Failure(IncompleteJsonObject) <==> '{' in text && NeverCloses(text, IndexOf(text, '{'))
    ensures r.Success? ==> IsExtraction(text, r.value)
  {
    var start := IndexOf(text, '{');
    if start == -1 {
      return Failure(NoJsonObject);
    }
    var braceCount := 0;
    var end := -1;
    var i := start;
    while i < |text|
      invariant start <= i <= |text|
      invariant braceCount == Depth(text[start..i])
      invariant forall k :: start < k <= i ==> Depth(text[start..k]) > 0
    {
      DepthStep(text, start, i);
      if text[i] == '{' {
        braceCount := braceCount + 1;
      } else if text[i] == '}' {
        braceCount := braceCount - 1;
        if braceCount == 0 {
          end := i + 1;
          break;
        }
      }
      i := i + 1;
    }
    if end == -1 {
      return Failure(IncompleteJsonObject);
    }
    r := Success(text[start..end]);
    assert ClosesAt(text, start, end);
  }

  /**
   * Text before the first `{` and text after the first balanced object are
   * ignored: whatever follows, later objects included, the extraction is
   * that object.
   */
  lemma LaterObjectsIgnored(prefix: string, v: string, rest: string)
    requires '{' !in prefix
    requires v != [] && v[0] == '{' && ClosesAt(v, 0, |v|)
    ensures forall w :: IsExtraction(prefix + v + rest, w) <==> w == v
  {
    var text := prefix + v + rest;
    var n := |prefix|;
    assert text[..n] == prefix;
    assert text[n] == v[0];
    IndexOfIsFirst(text, '{', n);
    forall k | n < k <= n + |v|
      ensures Depth(text[n..k]) == Depth(v[0..k - n])
    {
      assert text[n..k] == v[0..k - n];
    }
    assert v[0..|v|] == v;
    assert ClosesAt(text, n, n + |v|);
    assert IsExtraction(text, v);
    forall w | IsExtraction(text, w) ensures w == v {
      ExtractionUnique(text, w, v);
    }
  }

  /** A text with a `{` and no `}` at all holds only an incomplete object. */
  lemma NoClosingBraceIsIncomplete(text: string)
    requires '{' in text && '}' !in text
    ensures NeverCloses(text, IndexOf(text, '{'))
  {
    var start := IndexOf(text, '{');
    forall k | start < k <= |text|
      ensures Depth(text[start..k]) > 0
    {
      var s := text[start..k];
      assert s[0] == '{';
      CountPositiveIffIn(s, '{');
      CountPositiveIffIn(s, '}');
      assert forall j :: 0 <= j < |s| ==> s[j] == text[start + j];
    }
  }

  // ---------------------------------------------------------------------
  // The prompt and the payload

  const Heading :=
    "\nAnalyze the following student response in detail. Provide strengths, weaknesses, improvements, and technicalNotes.\n\nFeedback Context:\n- Paper: "
  const QuestionTypeLabel := "\n- Question Type: "
  const ExamQuestionLabel := "\n- Exam Question: "
  const ExtractTextLabel := "- Extract Text: "
  const StudentResponseLabel := "\n\nStudent Response:\n"
  const Guidelines :=
    "\n\nGuidelines:\n"
    + "- For \"Extract question\": Focus on key quotes, provenance, and integration of wider knowledge.\n"
    + "- For \"9-marker\": Emphasize three distinct analytical points with robust evidence.\n"
    + "- For \"Essay\": Focus on sustained analysis, synoptic links, current examples, and well-rounded evaluation.\n"
    + "- Avoid boilerplate remarks; provide detailed, personalized feedback.\n"
    + "- Include technical notes on vocabulary, linking evidence, paragraph structure, and overall relevance.\n"
    + "\nReturn your answer strictly as valid JSON with the properties: strengths, weaknesses, improvements, technicalNotes.\n  "

  const PromptFrame := Frame(Heading, QuestionTypeLabel, ExamQuestionLabel, "\n", StudentResponseLabel, Guidelines)

  /** `${request.extractText ? `- Extract Text: ${request.extractText}` : ""}` */
  function ExtractLine(r: FeedbackRequest): seq<Piece>
  {
    if Truthy(r.extractText) then Labelled(ExtractTextLabel, ExtractText, Shown(r.extractText)) else []
  }

  /**
   * The `promptContent` template literal. It interpolates paper, question
   * type and exam question, then the extract exactly when `extractText` is
   * truthy (whatever the question type), then the student response; every
   * interpolated value is the request's own, and the fixed text is the same
   * for every request but for the extract line's caption.
   */
  function Template(r: FeedbackRequest): (t: seq<Piece>)
    ensures Slots(t) == [Paper, QuestionType, ExamQuestion]
      + (if Truthy(r.extractText) then [ExtractText] else []) + [StudentResponse]
    ensures FilledFrom(t, r)
    ensures Literals(t) == [Heading, QuestionTypeLabel, ExamQuestionLabel, "\n"]
      + (if Truthy(r.extractText) then [ExtractTextLabel] else []) + [StudentResponseLabel, Guidelines]
  {
    LabelledParts(ExtractTextLabel, ExtractText, Shown(r.extractText));
    FramedParts(PromptFrame, r, ExtractLine(r));
    Framed(PromptFrame, r, ExtractLine(r))
  }

  /**
   * The prompt string sent as the user message. With a truthy
   * `extractText`, it holds the line `- Extract Text: <extract>`.
   */
  function Prompt(r: FeedbackRequest): (p: string)
    ensures p == Heading + r.paper + QuestionTypeLabel + r.questionType + ExamQuestionLabel + r.examQuestion + "\n"
      + (if Truthy(r.extractText) then ExtractTextLabel + Shown(r.extractText) else "")
      + StudentResponseLabel + r.studentResponse + Guidelines
    ensures Truthy(r.extractText) ==> Contains(p, ExtractTextLabel + Shown(r.extractText))
  {
    FramedRender(PromptFrame, r, ExtractLine(r));
    var front := Render(Front(PromptFrame, r));
    FramedParts(PromptFrame, r, ExtractLine(r));
    LabelledParts(ExtractTextLabel, ExtractText, Shown(r.extractText));
    assert Truthy(r.extractText) ==>
      OccursAt(Render(Template(r)), ExtractTextLabel + Shown(r.extractText), |front|);
    Render(Template(r))
  }

  const SystemInstruction :=
    "You are an experienced A-Level Politics teacher grading student responses. Provide detailed, constructive feedback based on AQA marking criteria."

  const MaxTokens := 800

  datatype Message = Message(role: string, content: string)

  /** The request body posted to the completion endpoint, less its floating-point `temperature`. */
  datatype Payload = Payload(model: string, system: string, messages: seq<Message>, maxTokens: nat)

  function BuildPayload(model: string, r: FeedbackRequest): (p: Payload)
    ensures p.model == model && p.system == SystemInstruction && p.maxTokens == 800
    ensures p.messages == [Message("user", Prompt(r))]
  {
    Payload(model, SystemInstruction, [Message("user", Prompt(r))], MaxTokens)
  }

  // ---------------------------------------------------------------------
  // The reply and its fields

  /**
   * The feedback as the function returns it: each field is whatever the
   * parsed object held under that name, `undefined` included.
   */
  datatype AnalyzerFeedback = AnalyzerFeedback(
    strengths: Json.Member,
    weaknesses: Json.Member,
    improvements: Json.Member,
    technicalNotes: Json.Member)

  /** The four-field object literal built from the parsed reply. */
  function MapFields(obj: map<string, Json.JsonValue>): (f: AnalyzerFeedback)
    ensures f.strengths.Defined? <==> "strengths" in obj
    ensures f.weaknesses.Defined? <==> "weaknesses" in obj
    ensures f.improvements.Defined? <==> "improvements" in obj
    ensures f.technicalNotes.Defined? <==> "technicalNotes" in obj
    ensures f.strengths.Defined? ==> f.strengths.value == obj["strengths"]
    ensures f.weaknesses.Defined? ==> f.weaknesses.value == obj["weaknesses"]
    ensures f.improvements.Defined? ==> f.improvements.value == obj["improvements"]
    ensures f.technicalNotes.Defined? ==> f.technicalNotes.value == obj["technicalNotes"]
  {
    AnalyzerFeedback(
      Json.Get(obj, "strengths"),
      Json.Get(obj, "weaknesses"),
      Json.Get(obj, "improvements"),
      Json.Get(obj, "technicalNotes"))
  }

  // ---------------------------------------------------------------------
  // analyzeFeedback

  /** The configuration it reads: `claudeApiKey`, `claudeApiEndpoint`, `claudeModel`. */
  datatype Config = Config(apiKey: string, endpoint: string, model: string)

  /** The completion endpoint's answer: a non-ok status with its body, or the envelope's content texts. */
  datatype ApiReply = NotOk(status: int, body: string) | Ok(content: seq<string>)

  datatype AnalyzeError =
    | NotConfigured
    | RequestFailed(status: int, body: string)
    | NoContent
    | Extraction(cause: ExtractError)
    | JsonParseFailed

  /**
   * What becomes of the first content text: the extraction's failure, the
   * `JSON.parse` failure, or the four fields of the parsed object.
   */
  ghost predicate HandlesText(text: string, parse: string -> Json.ParseResult, r: Result<AnalyzerFeedback, AnalyzeError>)
  {
    && (r == Failure(Extraction(NoJsonObject)) <==> '{' !in text)
    && (r == Failure(Extraction(IncompleteJsonObject)) <==> '{' in text && NeverCloses(text, IndexOf(text, '{')))
    && (r == Failure(JsonParseFailed) <==> exists v :: IsExtraction(text, v) && parse(v) == Json.ParseFails)
    && (r.Success? <==> exists v :: IsExtraction(text, v) && parse(v).Parsed?)
    && (forall v :: IsExtraction(text, v) && parse(v).Parsed? ==> r == Success(MapFields(parse(v).members)))
  }

  /** When the scan fails, no object is extracted. */
  lemma NothingExtracted(text: string)
    requires '{' !in text || NeverCloses(text, IndexOf(text, '{'))
    ensures forall v :: !IsExtraction(text, v)
  {
    if '{' !in text {
      assert IndexOf(text, '{') == -1;
    }
  }

  /**
   * `analyzeFeedback`: check the configuration, post the payload (`send`
   * stands for the `fetch` call), extract the first object of the first
   * content text, parse it (`parse` stands for `JSON.parse`) and copy its
   * fields. Every failure propagates; nothing is defaulted.
   */
  method AnalyzeFeedback(
    request: FeedbackRequest,
    config: Config,
    send: Payload -> ApiReply,
    parse: string -> Json.ParseResult)
    returns (r: Result<AnalyzerFeedback, AnalyzeError>)
    ensures r == Failure(NotConfigured) <==> config.apiKey == "" || config.endpoint == ""
    ensures config.apiKey != "" && config.endpoint != "" ==>
      var reply := send(BuildPayload(config.model, request));
      && (reply.NotOk? ==> r == Failure(RequestFailed(reply.status, reply.body)))
      && (reply == Ok([]) ==> r == Failure(NoContent))
      && (reply.Ok? && reply.content != [] ==> HandlesText(reply.content[0], parse, r))
  {
    if config.apiKey == "" || config.endpoint == "" {
      return Failure(NotConfigured);
    }
    var payload := BuildPayload(config.model, request);
    var reply := send(payload);
    if reply.NotOk? {
      return Failure(RequestFailed(reply.status, reply.body));
    }
    if reply.content == [] {
      return Failure(NoContent);
    }
    var text := reply.content[0];
    var extracted := ExtractJsonObject(text);
    if extracted.Failure? {
      assert extracted.error == NoJsonObject || extracted.error == IncompleteJsonObject;
      NothingExtracted(text);
      return Failure(Extraction(extracted.error));
    }
    var jsonPart := extracted.value;
    forall v | IsExtraction(text, v) ensures v == jsonPart {
      ExtractionUnique(text, v, jsonPart);
    }
    var parsed := parse(jsonPart);
    if parsed.ParseFails? {
      return Failure(JsonParseFailed);
    }
    r := Success(MapFields(parsed.members));
  }
}
