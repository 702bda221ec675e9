/**
 * The validation chain of the `/analyze` handler in src/api/feedbackRoutes.ts,
 * the router that the server mounts.
 */
module FeedbackRoutes {
  import opened Results
  import opened Text
  import opened Requests

  const UK := "UK Government and Politics"
  const US := "US and Comparative Politics"
  const Ideas := "Political Ideas"

  const ValidPaperOptions: seq<string> := [UK, US, Ideas]

  const ValidQuestionTypes: map<string, seq<string>> := map[
    UK := ["9-marker", "Extract question", "Essay"],
    Ideas := ["9-marker", "Extract question", "Essay"],
    US := ["9-marker", "Comparative 9-marker", "Extract question", "Comparative essay"]
  ]

  /** The `message` of each 400 body. */
  const PaperMessage := "Paper is required and must be one of the valid options"
  const QuestionTypeMessage := "Question type is required and must be a string"
  const QuestionTypeInvalidMessage := "Invalid question type for the selected paper"
  const ExamQuestionMessage := "Exam question is required and must be a string"
  const StudentResponseMessage := "Student response is required and must be a string"
  const ExtractTextMessage := "For an Extract question, extract text is required"

  /** The `requiredFields` of the text-field rejections. */
  const ExamQuestionRequired := RequiredField("examQuestion", "string (required)")
  const StudentResponseRequired := RequiredField("studentResponse", "string (required)")
  const ExtractTextRequired := RequiredField("extractText", "string (required for Extract question)")

  /**
   * What each check demands of the raw body, stated on its own (without the
   * earlier checks): the reference the validator is proved against.
   */
  predicate Passes(c: Check, raw: RawRequest)
  {
    match c
    case PaperValid =>
      raw.paper.Str? && raw.paper.s in ValidPaperOptions
    case QuestionTypeGiven =>
      raw.questionType.Str? && raw.questionType.s != ""
    case QuestionTypeAllowed =>
      raw.paper.Str? && raw.questionType.Str? && raw.paper.s in ValidQuestionTypes
      && raw.questionType.s in ValidQuestionTypes[raw.paper.s]
    case ExamQuestionGiven =>
      raw.examQuestion.Str? && raw.examQuestion.s != ""
    case StudentResponseGiven =>
      raw.studentResponse.Str? && raw.studentResponse.s != ""
    case ExtractTextGiven =>
      raw.questionType == Str("Extract question") ==> raw.extractText.Str? && !Blank(raw.extractText.s)
  }

  /**
   * The guard chain of the handler: each `if` returns a 400 body, and a body
   * that passes them all becomes a `FeedbackRequest`.
   */
  function Validate(raw: RawRequest): (r: Result<FeedbackRequest, ValidationError>)
    ensures r.Success? ==>
      && r.value.paper in ValidQuestionTypes && r.value.questionType in ValidQuestionTypes[r.value.paper]
      && r.value.examQuestion != "" && r.value.studentResponse != ""
    ensures r.Failure? ==> !Passes(r.error.failed, raw)
  {
    var paper := raw.paper;
    var questionType := raw.questionType;
    var examQuestion := raw.examQuestion;
    var extractText := raw.extractText;
    var studentResponse := raw.studentResponse;
    if !Truthy(paper) || !paper.Str? || paper.s !in ValidPaperOptions then
      Failure(ValidationError(PaperValid,
        PaperMessage,
        PaperList(ValidPaperOptions)))
    else if !Truthy(questionType) || !questionType.Str? then
      Failure(ValidationError(QuestionTypeGiven,
        QuestionTypeMessage,
        QuestionTypeList(if paper.s in ValidPaperOptions then ValidQuestionTypes[paper.s] else [])))
    else if paper.s !in ValidQuestionTypes || questionType.s !in ValidQuestionTypes[paper.s] then
      Failure(ValidationError(QuestionTypeAllowed,
        QuestionTypeInvalidMessage,
        QuestionTypeList(if paper.s in ValidQuestionTypes then ValidQuestionTypes[paper.s] else [])))
    else if !Truthy(examQuestion) || !examQuestion.Str? then
      Failure(ValidationError(ExamQuestionGiven,
        ExamQuestionMessage,
        ExamQuestionRequired))
    else if !Truthy(studentResponse) || !studentResponse.Str? then
      Failure(ValidationError(StudentResponseGiven,
        StudentResponseMessage,
        StudentResponseRequired))
    else if questionType.s == "Extract question"
         && (!Truthy(extractText) || !extractText.Str? || Trim(extractText.s) == "") then
      Failure(ValidationError(ExtractTextGiven,
        ExtractTextMessage,
        ExtractTextRequired))
    else
      Success(FeedbackRequest(paper.s, questionType.s, examQuestion.s, extractText, studentResponse.s))
  }

  /** The papers are exactly the keys of the question-type table. */
  lemma PaperTableKeys(p: string)
    ensures p in ValidPaperOptions <==> p in ValidQuestionTypes
  {
  }

  /** The paper check runs first: a failing paper decides the rejection. */
  lemma PaperCheckFirst(raw: RawRequest)
    requires !Passes(PaperValid, raw)
    ensures Validate(raw).Failure? && Validate(raw).error.failed == PaperValid
  {
  }

  /** With a valid paper, a missing or non-string question type is rejected next. */
  lemma QuestionTypeGivenSecond(raw: RawRequest)
    requires Passes(PaperValid, raw) && !Passes(QuestionTypeGiven, raw)
    ensures Validate(raw).Failure? && Validate(raw).error.failed == QuestionTypeGiven
  {
    PaperTableKeys(raw.paper.s);
  }

  /** Then a question type outside the paper's list. */
  lemma QuestionTypeAllowedThird(raw: RawRequest)
    requires Passes(PaperValid, raw) && Passes(QuestionTypeGiven, raw)
    requires !Passes(QuestionTypeAllowed, raw)
    ensures Validate(raw).Failure? && Validate(raw).error.failed == QuestionTypeAllowed
  {
    PaperTableKeys(raw.paper.s);
  }

  /** Then a missing, non-string or empty exam question. */
  lemma ExamQuestionFourth(raw: RawRequest)
    requires Passes(PaperValid, raw) && Passes(QuestionTypeGiven, raw) && Passes(QuestionTypeAllowed, raw)
    requires !Passes(ExamQuestionGiven, raw)
    ensures Validate(raw).Failure? && Validate(raw).error.failed == ExamQuestionGiven
  {
  }

  /** Then a missing, non-string or empty student response. */
  lemma StudentResponseFifth(raw: RawRequest)
    requires Passes(PaperValid, raw) && Passes(QuestionTypeGiven, raw) && Passes(QuestionTypeAllowed, raw)
    requires Passes(ExamQuestionGiven, raw) && !Passes(StudentResponseGiven, raw)
    ensures Validate(raw).Failure? && Validate(raw).error.failed == StudentResponseGiven
  {
  }

  /** Then, for an extract question, a missing, non-string or blank extract. */
  lemma ExtractTextLast(raw: RawRequest)
    requires Passes(PaperValid, raw) && Passes(QuestionTypeGiven, raw) && Passes(QuestionTypeAllowed, raw)
    requires Passes(ExamQuestionGiven, raw) && Passes(StudentResponseGiven, raw)
    requires !Passes(ExtractTextGiven, raw)
    ensures Validate(raw).Failure? && Validate(raw).error.failed == ExtractTextGiven
  {
    if raw.extractText.Str? {
      assert Trim(raw.extractText.s) == "" <==> Blank(raw.extractText.s);
    }
  }

  /** A body passing all six checks is accepted. */
  lemma AllChecksAccept(raw: RawRequest)
    requires Passes(PaperValid, raw) && Passes(QuestionTypeGiven, raw) && Passes(QuestionTypeAllowed, raw)
    requires Passes(ExamQuestionGiven, raw) && Passes(StudentResponseGiven, raw)
    requires Passes(ExtractTextGiven, raw)
    ensures Validate(raw).Success?
  {
    PaperTableKeys(raw.paper.s);
    if raw.questionType.s == "Extract question" {
      assert Truthy(raw.extractText);
      assert Trim(raw.extractText.s) == "" <==> Blank(raw.extractText.s);
    }
  }

  /**
   * The checks run in a fixed order and the first that fails decides the
   * rejection: it names a failing check and every earlier check passed. A
   * body is accepted exactly when it passes all six.
   */
  lemma FirstFailingCheckDecides(raw: RawRequest)
    ensures Validate(raw).Success? <==> forall c :: Passes(c, raw)
    ensures Validate(raw).Failure? ==> !Passes(Validate(raw).error.failed, raw)
    ensures Validate(raw).Failure? ==>
      forall c :: Position(c) < Position(Validate(raw).error.failed) ==> Passes(c, raw)
  {
    if !Passes(PaperValid, raw) {
      PaperCheckFirst(raw);
    } else if !Passes(QuestionTypeGiven, raw) {
      QuestionTypeGivenSecond(raw);
    } else if !Passes(QuestionTypeAllowed, raw) {
      QuestionTypeAllowedThird(raw);
    } else if !Passes(ExamQuestionGiven, raw) {
      ExamQuestionFourth(raw);
    } else if !Passes(StudentResponseGiven, raw) {
      StudentResponseFifth(raw);
    } else if !Passes(ExtractTextGiven, raw) {
      ExtractTextLast(raw);
    } else {
      AllChecksAccept(raw);
    }
  }

  /** Paper rejections list the valid papers; question-type rejections list the paper's valid types. */
  lemma RejectionContext(raw: RawRequest)
    ensures var r := Validate(raw);
      && (r.Failure? && r.error.failed == PaperValid ==> r.error.context == PaperList(ValidPaperOptions))
      && (r.Failure? && (r.error.failed == QuestionTypeGiven || r.error.failed == QuestionTypeAllowed) ==>
           && raw.paper.Str? && raw.paper.s in ValidQuestionTypes
           && r.error.context == QuestionTypeList(ValidQuestionTypes[raw.paper.s]))
  {
  }

  /** On success the request holds the five fields unchanged, `extractText` included. */
  lemma AcceptedFieldsCopied(raw: RawRequest)
    ensures var r := Validate(raw);
      r.Success? ==>
        && raw.paper.Str? && raw.questionType.Str? && raw.examQuestion.Str? && raw.studentResponse.Str?
        && r.value == FeedbackRequest(raw.paper.s, raw.questionType.s, raw.examQuestion.s,
                                      raw.extractText, raw.studentResponse.s)
  {
  }

  /** A body whose paper is missing, not a string or unknown is rejected first, whatever else it holds. */
  lemma InvalidPaperRejected(raw: RawRequest)
    requires !(raw.paper.Str? && raw.paper.s in ValidPaperOptions)
    ensures Validate(raw) == Failure(ValidationError(PaperValid,
      PaperMessage, PaperList(ValidPaperOptions)))
  {
  }

  /**
   * The comparative question types belong to the US paper alone, and "Essay"
   * to the two other papers alone.
   */
  lemma PaperSpecificQuestionTypes(paper: string)
    requires paper in ValidPaperOptions
    ensures paper in ValidQuestionTypes
    ensures "Comparative essay" in ValidQuestionTypes[paper] <==> paper == US
    ensures "Comparative 9-marker" in ValidQuestionTypes[paper] <==> paper == US
    ensures "Essay" in ValidQuestionTypes[paper] <==> paper != US
  {
  }

  /** A body that is otherwise valid is accepted or rejected on the pairing of paper and question type alone. */
  lemma QuestionTypeDecidesAcceptance(paper: string, questionType: string, examQuestion: string,
                                      extract: Field, studentResponse: string)
    requires paper in ValidPaperOptions
    requires questionType == "Extract question" ==> extract.Str? && !Blank(extract.s)
    requires examQuestion != "" && studentResponse != ""
    ensures var r := Validate(RawRequest(Str(paper), Str(questionType), Str(examQuestion), extract, Str(studentResponse)));
      && (r.Success? <==> questionType in ValidQuestionTypes[paper])
      && (r.Failure? ==> r.error.failed == (if questionType == "" then QuestionTypeGiven else QuestionTypeAllowed))
  {
  }

  /** Whitespace is not trimmed from the exam question or the student response. */
  lemma WhitespaceAnswersAccepted(raw: RawRequest)
    requires Passes(PaperValid, raw) && Passes(QuestionTypeAllowed, raw) && Passes(ExtractTextGiven, raw)
    requires raw.examQuestion.Str? && raw.examQuestion.s != "" && Blank(raw.examQuestion.s)
    requires raw.studentResponse.Str? && raw.studentResponse.s != "" && Blank(raw.studentResponse.s)
    ensures Validate(raw).Success?
  {
  }

  /** An extract question with a missing or blank extract is rejected even when all else is valid. */
  lemma BlankExtractRejected(raw: RawRequest)
    requires raw.questionType == Str("Extract question")
    requires !(raw.extractText.Str? && !Blank(raw.extractText.s))
    ensures Validate(raw).Failure?
    ensures (forall c :: c != ExtractTextGiven ==> Passes(c, raw)) ==>
      Validate(raw).error.failed == ExtractTextGiven
  {
    FirstFailingCheckDecides(raw);
    assert !Passes(ExtractTextGiven, raw);
    if forall c :: c != ExtractTextGiven ==> Passes(c, raw) {
      assert Passes(PaperValid, raw) && Passes(QuestionTypeGiven, raw) && Passes(QuestionTypeAllowed, raw);
      assert Passes(ExamQuestionGiven, raw) && Passes(StudentResponseGiven, raw);
    }
  }
}
