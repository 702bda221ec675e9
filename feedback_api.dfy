/**
 * src/api/feedback.ts: a second copy of the `/analyze` router that the
 * server does not mount. Its tables and guard chain are modelled as written
 * and shown to behave exactly like those of src/api/feedbackRoutes.ts.
 */
module FeedbackApi {
  import opened Results
  import opened Text
  import opened Requests
  import FeedbackRoutes

  const ValidPaperOptions: seq<string> := [
    "UK Government and Politics",
    "US and Comparative Politics",
    "Political Ideas"
  ]

  const ValidQuestionTypes: map<string, seq<string>> := map[
    "UK Government and Politics" := ["9-marker", "Extract question", "Essay"],
    "Political Ideas" := ["9-marker", "Extract question", "Essay"],
    "US and Comparative Politics" := ["9-marker", "Comparative 9-marker", "Extract question", "Comparative essay"]
  ]

  /** The `message` of each 400 body. */
  const PaperMessage := "Paper is required and must be one of the valid options"
  const QuestionTypeMessage := "Question type is required and must be a string"
  const QuestionTypeInvalidMessage := "Invalid question type for the selected paper"
  const ExamQuestionMessage := "Exam question is required and must be a string"
  const StudentResponseMessage := "Student response is required and must be a string"
  const ExtractTextMessage := "For an Extract question, extract text is required"

  /** The `requiredFields` of the text-field rejections. */
  const ExamQuestionRequired := RequiredField("examQuestion", "string (required)")
  const StudentResponseRequired := RequiredField("studentResponse", "string (required)")
  const ExtractTextRequired := RequiredField("extractText", "string (required for Extract question)")

  /**
   * The guard chain of this handler. It differs from the mounted router in
   * one expression only: the list sent with a missing question type is
   * `validQuestionTypes[paper] || []`.
   */
  function Validate(raw: RawRequest): (r: Result<FeedbackRequest, ValidationError>)
    ensures r.Success? ==>
      && raw.paper.Str? && raw.questionType.Str? && raw.examQuestion.Str? && raw.studentResponse.Str?
      && r.value == FeedbackRequest(raw.paper.s, raw.questionType.s, raw.examQuestion.s,
                                    raw.extractText, raw.studentResponse.s)
    ensures raw.questionType == Str("Extract question") && !(raw.extractText.Str? && !Blank(raw.extractText.s))
      ==> r.Failure?
  {
    var paper := raw.paper;
    var questionType := raw.questionType;
    var examQuestion := raw.examQuestion;
    var extractText := raw.extractText;
    var studentResponse := raw.studentResponse;
    if !Truthy(paper) || !paper.Str? || paper.s !in ValidPaperOptions then
      Failure(ValidationError(PaperValid, PaperMessage, PaperList(ValidPaperOptions)))
    else if !Truthy(questionType) || !questionType.Str? then
      Failure(ValidationError(QuestionTypeGiven, QuestionTypeMessage,
        QuestionTypeList(if paper.s in ValidQuestionTypes then ValidQuestionTypes[paper.s] else [])))
    else if paper.s !in ValidQuestionTypes || questionType.s !in ValidQuestionTypes[paper.s] then
      Failure(ValidationError(QuestionTypeAllowed, QuestionTypeInvalidMessage,
        QuestionTypeList(if paper.s in ValidQuestionTypes then ValidQuestionTypes[paper.s] else [])))
    else if !Truthy(examQuestion) || !examQuestion.Str? then
      Failure(ValidationError(ExamQuestionGiven, ExamQuestionMessage, ExamQuestionRequired))
    else if !Truthy(studentResponse) || !studentResponse.Str? then
      Failure(ValidationError(StudentResponseGiven, StudentResponseMessage, StudentResponseRequired))
    else if questionType.s == "Extract question"
         && (!Truthy(extractText) || !extractText.Str? || Trim(extractText.s) == "") then
      Failure(ValidationError(ExtractTextGiven, ExtractTextMessage, ExtractTextRequired))
    else
      Success(FeedbackRequest(paper.s, questionType.s, examQuestion.s, extractText, studentResponse.s))
  }

  /** Both routers list the same papers and the same question types per paper. */
  lemma TablesMatchRoutes()
    ensures ValidPaperOptions == FeedbackRoutes.ValidPaperOptions
    ensures ValidQuestionTypes == FeedbackRoutes.ValidQuestionTypes
  {
  }

  /** The UK and the political-ideas papers share one list of question types. */
  lemma UKAndIdeasShareList()
    ensures ValidQuestionTypes["UK Government and Politics"] == ValidQuestionTypes["Political Ideas"]
  {
  }

  /** For every body both routers give the same outcome: the same request or the same rejection. */
  lemma ValidateMatchesRoutes(raw: RawRequest)
    ensures Validate(raw) == FeedbackRoutes.Validate(raw)
  {
    TablesMatchRoutes();
    if raw.paper.Str? {
      FeedbackRoutes.PaperTableKeys(raw.paper.s);
    }
  }
}
