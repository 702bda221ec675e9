/**
 * The request shapes shared by the two `/analyze` route handlers and the
 * feedback services: the loosely-typed body a client posts, the validated
 * five-field `FeedbackRequest`, and the 400 rejection a validator returns.
 */
module Requests {

  /**
   * One property of a parsed JSON request body, as JavaScript sees it:
   * missing (`undefined`), a string, or some other value. A non-string keeps
   * its JavaScript truthiness (`null`, `false` and `0` are falsy; `true`,
   * other numbers, arrays and objects are truthy) and the text a template
   * literal would interpolate for it.
   */
  datatype Field = Absent | Str(s: string) | NonString(truthy: bool, shown: string)

  /** JavaScript truthiness of a field: `!field` is `!Truthy(field)`. */
  predicate Truthy(f: Field)
  {
    match f
    case Absent => false
    case Str(s) => s != ""
    case NonString(t, _) => t
  }

  /** What `${field}` interpolates inside a template literal. */
  function Shown(f: Field): string
  {
    match f
    case Absent => "undefined"
    case Str(s) => s
    case NonString(_, d) => d
  }

  /** The five properties the handlers destructure from `req.body`; any others are never read. */
  datatype RawRequest = RawRequest(
    paper: Field,
    questionType: Field,
    examQuestion: Field,
    extractText: Field,
    studentResponse: Field)

  /**
   * The request handed to the feedback services. `extractText` is the raw
   * field as received: the validators copy it unchanged, whatever its kind,
   * whenever the question type is not "Extract question".
   */
  datatype FeedbackRequest = FeedbackRequest(
    paper: string,
    questionType: string,
    examQuestion: string,
    extractText: Field,
    studentResponse: string)

  /** The guard checks of a validator, in the order the handlers run them. */
  datatype Check =
    | PaperValid
    | QuestionTypeGiven
    | QuestionTypeAllowed
    | ExamQuestionGiven
    | StudentResponseGiven
    | ExtractTextGiven

  /** Position of a check in the validation chain. */
  function Position(c: Check): nat
  {
    match c
    case PaperValid => 0
    case QuestionTypeGiven => 1
    case QuestionTypeAllowed => 2
    case ExamQuestionGiven => 3
    case StudentResponseGiven => 4
    case ExtractTextGiven => 5
  }

  /** The extra data a 400 body carries next to its message. */
  datatype Context =
    | PaperList(validPapers: seq<string>)
    | QuestionTypeList(validQuestionTypes: seq<string>)
    | RequiredField(field: string, requirement: string)

  /**
   * A 400 response body: every one also carries `error: "Invalid request
   * format"`; `failed` names the check whose guard produced it.
   */
  datatype ValidationError = ValidationError(failed: Check, message: string, context: Context)
}
