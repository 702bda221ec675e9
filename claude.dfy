/**
 * src/services/claude.ts: the prompt of `buildPrompt`, the reply
 * normaliser `parseResponse` and the three-band classifier
 * `determineQualityIndicator`.
 */
module Claude {
  import opened Results
  import opened Text
  import opened Requests
  import opened PromptTemplate
  import Json
  import FeedbackAnalyzer

  // ---------------------------------------------------------------------
  // buildPrompt

  const Heading := "\nPlease analyze this A-Level Politics response:\n\nPaper: "
  const QuestionTypeLabel := "\nQuestion Type: "
  const ExamQuestionLabel := "\nExam Question: "
  const ExtractTextLabel := "Extract Text: "
  const StudentResponseLabel := "  \nStudent Response: "
  const Structure :=
    "\n\nProvide a detailed analysis in JSON format with the following structure:\n{\n"
    + "  \"strengths\": [\"list of key strengths\"],\n"
    + "  \"weaknesses\": [\"areas needing improvement\"],\n"
    + "  \"improvements\": [\"specific suggestions\"],\n"
    + "  \"estimatedMark\": number (out of maximum marks),\n"
    + "  \"breakdown\": {\n"
    + "    \"knowledge\": number (0-5),\n"
    + "    \"analysis\": number (0-5),\n"
    + "    \"evaluation\": number (0-5)\n"
    + "  },\n"
    + "  \"examplePoints\": [\"relevant examples that could strengthen the answer\"]\n"
    + "}\n    "

  const PromptFrame := Frame(Heading, QuestionTypeLabel, ExamQuestionLabel, "\n", StudentResponseLabel, Structure)

  /** The condition of `extractPart`: an extract question with a truthy `extractText`. */
  predicate ShowsExtract(r: FeedbackRequest)
  {
    r.questionType == "Extract question" && Truthy(r.extractText)
  }

  /** `extractPart`: the extract on a line of its own, or nothing. */
  function ExtractPart(r: FeedbackRequest): seq<Piece>
  {
    if ShowsExtract(r) then Labelled(ExtractTextLabel, ExtractText, Shown(r.extractText)) + [Lit("\n")] else []
  }

  lemma ExtractPartParts(r: FeedbackRequest)
    ensures Slots(ExtractPart(r)) == if ShowsExtract(r) then [ExtractText] else []
    ensures Literals(ExtractPart(r)) == if ShowsExtract(r) then [ExtractTextLabel, "\n"] else []
    ensures FilledFrom(ExtractPart(r), r)
  {
    var line := Labelled(ExtractTextLabel, ExtractText, Shown(r.extractText));
    LabelledParts(ExtractTextLabel, ExtractText, Shown(r.extractText));
    FixedParts("\n");
    SlotsAppend(line, [Lit("\n")]);
    LiteralsAppend(line, [Lit("\n")]);
    FilledAppend(line, [Lit("\n")], r);
  }

  /**
   * The template literal `buildPrompt` returns. It interpolates paper,
   * question type and exam question, then the extract exactly when the
   * question is an extract question with a truthy `extractText`, then the
   * student response; every value is the request's own, and the fixed text
   * is the same for every request but for the extract line.
   */
  function Template(r: FeedbackRequest): (t: seq<Piece>)
    ensures Slots(t) == [Paper, QuestionType, ExamQuestion]
      + (if ShowsExtract(r) then [ExtractText] else []) + [StudentResponse]
    ensures FilledFrom(t, r)
    ensures Literals(t) == [Heading, QuestionTypeLabel, ExamQuestionLabel, "\n"]
      + (if ShowsExtract(r) then [ExtractTextLabel, "\n"] else []) + [StudentResponseLabel, Structure]
  {
    ExtractPartParts(r);
    FramedParts(PromptFrame, r, ExtractPart(r));
    Framed(PromptFrame, r, ExtractPart(r))
  }

  /**
   * `buildPrompt`. An extract question with a truthy extract carries the
   * line `Extract Text: <extract>`.
   */
  function BuildPrompt(r: FeedbackRequest): (p: string)
    ensures p == Heading + r.paper + QuestionTypeLabel + r.questionType + ExamQuestionLabel + r.examQuestion + "\n"
      + (if ShowsExtract(r) then ExtractTextLabel + Shown(r.extractText) + "\n" else "")
      + StudentResponseLabel + r.studentResponse + Structure
    ensures ShowsExtract(r) ==> Contains(p, ExtractTextLabel + Shown(r.extractText) + "\n")
  {
    FramedRender(PromptFrame, r, ExtractPart(r));
    var front := Render(Front(PromptFrame, r));
    var l := Labelled(ExtractTextLabel, ExtractText, Shown(r.extractText));
    LabelledParts(ExtractTextLabel, ExtractText, Shown(r.extractText));
    FixedParts("\n");
    RenderAppend(l, [Lit("\n")]);
    FramedParts(PromptFrame, r, ExtractPart(r));
    assert ShowsExtract(r) ==>
      OccursAt(Render(Template(r)), ExtractTextLabel + Shown(r.extractText) + "\n", |front|);
    Render(Template(r))
  }

  /** For any question but an extract question, the extract does not change the prompt. */
  lemma ExtractIgnoredUnlessExtractQuestion(r: FeedbackRequest, extract: Field)
    requires r.questionType != "Extract question"
    ensures BuildPrompt(r.(extractText := extract)) == BuildPrompt(r)
  {
    var r' := r.(extractText := extract);
    assert ExtractPart(r') == ExtractPart(r) == [];
    assert Front(PromptFrame, r') == Front(PromptFrame, r);
    assert Back(PromptFrame, r') == Back(PromptFrame, r);
  }

  // ---------------------------------------------------------------------
  // The greedy match /\{[\s\S]*\}/

  /** Some `{` is followed, later in the text, by a `}`. */
  predicate HasBracePair(s: string)
  {
    exists i, j :: 0 <= i < j < |s| && s[i] == '{' && s[j] == '}'
  }

  /**
   * `response.match(/\{[\s\S]*\}/)`: the leftmost match starts at the first
   * `{` and, the star being greedy, runs to the last `}`.
   */
  function GreedyMatch(s: string): (m: Option<string>)
    ensures m.None? <==> !HasBracePair(s)
    ensures m.Some? ==>
      exists i, j :: 0 <= i < j < |s|
        && s[i] == '{' && '{' !in s[..i]
        && s[j] == '}' && '}' !in s[j + 1..]
        && m.value == s[i..j + 1]
  {
    var i := IndexOf(s, '{');
    var j := LastIndexOf(s, '}');
    if i == -1 || j < i then
      assert !HasBracePair(s) by {
        if i != -1 {
          forall a, b | 0 <= a < b < |s| && s[a] == '{'
            ensures s[b] != '}'
          {
            assert s[a] !in s[..i];
            assert a >= i;
            assert s[j + 1..][b - j - 1] == s[b];
          }
        }
      }
      None
    else
      assert s[i] != s[j];
      Some(s[i..j + 1])
  }

  /**
   * Where the balanced scan of the other service finds an object, the greedy
   * match starts at the same `{` and holds that object as a prefix.
   */
  lemma GreedyCoversExtraction(text: string, v: string)
    requires FeedbackAnalyzer.IsExtraction(text, v)
    ensures GreedyMatch(text).Some?
    ensures |v| <= |GreedyMatch(text).value| && GreedyMatch(text).value[..|v|] == v
  {
    var start := IndexOf(text, '{');
    FeedbackAnalyzer.ExtractionShape(text, v);
    var close := start + |v| - 1;
    assert text[close] == v[|v| - 1] == '}';
    var j := LastIndexOf(text, '}');
    assert j >= close;
    assert HasBracePair(text) by {
      assert 0 <= start < close < |text| && text[start] == '{' && text[close] == '}';
    }
    assert GreedyMatch(text).value == text[start..j + 1];
  }

  // ---------------------------------------------------------------------
  // determineQualityIndicator

  datatype Quality = RequiresImprovement | Good | Excellent

  /** The bands in increasing order. */
  function Rank(q: Quality): nat
  {
    match q
    case RequiresImprovement => 0
    case Good => 1
    case Excellent => 2
  }

  const MaxPossibleScore: real := 15.0

  /** The percentage of the maximum score, banded at 40 and 70. */
  function DetermineQualityIndicator(knowledge: real, analysis: real, evaluation: real): (q: Quality)
    ensures q == RequiresImprovement <==> knowledge + analysis + evaluation < 6.0
    ensures q == Excellent <==> knowledge + analysis + evaluation >= 10.5
  {
    var totalScore := knowledge + analysis + evaluation;
    var percentageScore := (totalScore / MaxPossibleScore) * 100.0;
    if percentageScore < 40.0 then RequiresImprovement
    else if percentageScore < 70.0 then Good
    else Excellent
  }

  /** A higher total never gives a lower band. */
  lemma IndicatorMonotone(k1: real, a1: real, e1: real, k2: real, a2: real, e2: real)
    requires k1 + a1 + e1 <= k2 + a2 + e2
    ensures Rank(DetermineQualityIndicator(k1, a1, e1)) <= Rank(DetermineQualityIndicator(k2, a2, e2))
  {
  }

  /** Full marks in all three categories is excellent; no marks at all requires improvement. */
  lemma IndicatorExtremes()
    ensures DetermineQualityIndicator(5.0, 5.0, 5.0) == Excellent
    ensures DetermineQualityIndicator(0.0, 0.0, 0.0) == RequiresImprovement
  {
  }

  // ---------------------------------------------------------------------
  // parseResponse

  /** The feedback as `parseResponse` returns it. */
  datatype ClaudeFeedback = ClaudeFeedback(
    strengths: Json.JsonValue,
    weaknesses: Json.JsonValue,
    improvements: Json.JsonValue,
    qualityIndicator: Quality)

  /** The object returned from the `catch` block. */
  const Fallback := ClaudeFeedback(
    Json.JArray([Json.JString("Unable to generate specific strengths")]),
    Json.JArray([Json.JString("Unable to generate specific weaknesses")]),
    Json.JArray([Json.JString("Please review and revise your response")]),
    RequiresImprovement)

  /** `obj.name || []`: a truthy value is kept, anything else becomes the empty array. */
  function OrEmpty(m: Json.Member): (v: Json.JsonValue)
    ensures Json.Truthy(v)
    ensures m.Defined? && Json.Truthy(m.value) ==> v == m.value
    ensures !(m.Defined? && Json.Truthy(m.value)) ==> v == Json.JArray([])
  {
    if m.Defined? && Json.Truthy(m.value) then m.value else Json.JArray([])
  }

  /**
   * `parsed.breakdown?.<name>`: a member of `breakdown` when that is an
   * object; `undefined` when `breakdown` is missing, `null` or any other value.
   */
  function BreakdownMember(members: map<string, Json.JsonValue>, name: string): (m: Json.Member)
    ensures m.Defined? <==> "breakdown" in members && members["breakdown"].JObject? && name in members["breakdown"].members
    ensures m.Defined? ==> m.value == members["breakdown"].members[name]
  {
    var b := Json.Get(members, "breakdown");
    if b.Defined? && b.value.JObject? then Json.Get(b.value.members, name) else Json.Undefined
  }

  /**
   * `<score> || 0` as a number: a falsy value scores 0, a number its value
   * and `true` scores 1; other values also score 0 here.
   */
  function ScoreOf(m: Json.Member): (x: real)
    ensures !(m.Defined? && Json.Truthy(m.value)) ==> x == 0.0
    ensures m.Defined? && m.value.JNumber? ==> x == m.value.n
    ensures m == Json.Defined(Json.JBool(true)) ==> x == 1.0
  {
    if m.Undefined? then 0.0
    else match m.value
      case JNumber(n) => n
      case JBool(b) => if b then 1.0 else 0.0
      case _ => 0.0
  }

  /**
   * The indicator computed from the three breakdown scores of a parsed
   * reply. Without a `breakdown` object every score is 0, so only the
   * lowest band is reachable.
   */
  function IndicatorOf(members: map<string, Json.JsonValue>): (q: Quality)
    ensures !("breakdown" in members && members["breakdown"].JObject?) ==>
      && ScoreOf(BreakdownMember(members, "knowledge")) == 0.0
      && ScoreOf(BreakdownMember(members, "analysis")) == 0.0
      && ScoreOf(BreakdownMember(members, "evaluation")) == 0.0
      && q == RequiresImprovement
  {
    DetermineQualityIndicator(
      ScoreOf(BreakdownMember(members, "knowledge")),
      ScoreOf(BreakdownMember(members, "analysis")),
      ScoreOf(BreakdownMember(members, "evaluation")))
  }

  /**
   * `parseResponse`: take the greedy candidate, parse it (`parse` stands for
   * `JSON.parse`), default the three arrays and band the breakdown; on any
   * failure answer the fixed fallback. It never fails.
   */
  function ParseResponse(response: string, parse: string -> Json.ParseResult): (f: ClaudeFeedback)
    ensures !HasBracePair(response) ==> f == Fallback
    ensures GreedyMatch(response).Some? && parse(GreedyMatch(response).value).ParseFails? ==> f == Fallback
    ensures Json.Truthy(f.strengths) && Json.Truthy(f.weaknesses) && Json.Truthy(f.improvements)
    ensures GreedyMatch(response).Some? && parse(GreedyMatch(response).value).Parsed? ==>
      var members := parse(GreedyMatch(response).value).members;
      && ("strengths" in members && Json.Truthy(members["strengths"]) ==> f.strengths == members["strengths"])
      && ("weaknesses" in members && Json.Truthy(members["weaknesses"]) ==> f.weaknesses == members["weaknesses"])
      && ("improvements" in members && Json.Truthy(members["improvements"]) ==> f.improvements == members["improvements"])
      && (!("strengths" in members && Json.Truthy(members["strengths"])) ==> f.strengths == Json.JArray([]))
      && (!("weaknesses" in members && Json.Truthy(members["weaknesses"])) ==> f.weaknesses == Json.JArray([]))
      && (!("improvements" in members && Json.Truthy(members["improvements"])) ==> f.improvements == Json.JArray([]))
      && f.qualityIndicator == IndicatorOf(members)
  {
    match GreedyMatch(response)
    case None => Fallback
    case Some(candidate) =>
      match parse(candidate)
      case ParseFails => Fallback
      case Parsed(members) =>
        ClaudeFeedback(
          OrEmpty(Json.Get(members, "strengths")),
          OrEmpty(Json.Get(members, "weaknesses")),
          OrEmpty(Json.Get(members, "improvements")),
          IndicatorOf(members))
  }

  /**
   * A reply without a usable `breakdown` object requires improvement: every
   * score defaults to 0, and the fallback carries that band too.
   */
  lemma MissingBreakdownRequiresImprovement(response: string, parse: string -> Json.ParseResult)
    requires GreedyMatch(response).Some? && parse(GreedyMatch(response).value).Parsed?
    requires var members := parse(GreedyMatch(response).value).members;
      "breakdown" !in members || !members["breakdown"].JObject?
    ensures ParseResponse(response, parse).qualityIndicator == RequiresImprovement
  {
  }

  /** Only a parsed reply with a `breakdown` object can reach a band above the lowest. */
  lemma BetterBandsNeedBreakdown(response: string, parse: string -> Json.ParseResult)
    requires ParseResponse(response, parse).qualityIndicator != RequiresImprovement
    ensures GreedyMatch(response).Some? && parse(GreedyMatch(response).value).Parsed?
    ensures var members := parse(GreedyMatch(response).value).members;
      "breakdown" in members && members["breakdown"].JObject?
  {
  }
}
