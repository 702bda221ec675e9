/**
 * A template literal as the prompt builders write it: fixed text with
 * request fields interpolated into it. Keeping the interpolated values
 * apart from the fixed text lets the model state which fields a prompt
 * carries, in which order, whatever characters the fields contain.
 */
module PromptTemplate {
  import opened Requests

  /** The request fields a prompt can interpolate. */
  datatype Slot = Paper | QuestionType | ExamQuestion | ExtractText | StudentResponse

  datatype Piece = Lit(text: string) | Hole(slot: Slot, value: string)

  /** The text of one piece. */
  function PieceText(p: Piece): string
  {
    match p
    case Lit(t) => t
    case Hole(_, v) => v
  }

  /** The string a template evaluates to. */
  function Render(ps: seq<Piece>): string
  {
    if ps == [] then "" else PieceText(ps[0]) + Render(ps[1..])
  }

  /** The interpolated fields, in order. */
  function Slots(ps: seq<Piece>): seq<Slot>
  {
    if ps == [] then []
    else (if ps[0].Hole? then [ps[0].slot] else []) + Slots(ps[1..])
  }

  /** The fixed text of a template, piece by piece. */
  function Literals(ps: seq<Piece>): seq<string>
  {
    if ps == [] then []
    else (if ps[0].Lit? then [ps[0].text] else []) + Literals(ps[1..])
  }

  /** What `${request.<field>}` interpolates. */
  function SlotValue(r: FeedbackRequest, s: Slot): string
  {
    match s
    case Paper => r.paper
    case QuestionType => r.questionType
    case ExamQuestion => r.examQuestion
    case ExtractText => Shown(r.extractText)
    case StudentResponse => r.studentResponse
  }

  /** Every interpolated value is the request's own value for that field. */
  predicate FilledFrom(ps: seq<Piece>, r: FeedbackRequest)
  {
    forall i :: 0 <= i < |ps| && ps[i].Hole? ==> ps[i].value == SlotValue(r, ps[i].slot)
  }

  /** One field preceded by its caption: the unit the prompts are assembled from. */
  function Labelled(caption: string, slot: Slot, value: string): seq<Piece>
  {
    [Lit(caption), Hole(slot, value)]
  }

  /** A labelled field contributes its slot, its caption and the caption followed by the value. */
  lemma LabelledParts(caption: string, slot: Slot, value: string)
    ensures Slots(Labelled(caption, slot, value)) == [slot]
    ensures Literals(Labelled(caption, slot, value)) == [caption]
    ensures Render(Labelled(caption, slot, value)) == caption + value
  {
    var ps := Labelled(caption, slot, value);
    assert ps[1..] == [Hole(slot, value)];
    assert ps[1..][1..] == [];
    assert Slots(ps[1..]) == [slot] + Slots(ps[1..][1..]);
    assert Literals(ps[1..]) == Literals(ps[1..][1..]);
    assert Render(ps[1..]) == value + Render(ps[1..][1..]);
    assert caption + (value + "") == caption + value;
  }

  /** A fixed piece of text contributes no slot. */
  lemma FixedParts(text: string)
    ensures Slots([Lit(text)]) == []
    ensures Literals([Lit(text)]) == [text]
    ensures Render([Lit(text)]) == text
  {
    assert [Lit(text)][1..] == [];
  }

  /** The slots of a concatenation are those of its parts. */
  lemma {:induction false} SlotsAppend(a: seq<Piece>, b: seq<Piece>)
    ensures Slots(a + b) == Slots(a) + Slots(b)
  {
    if a == [] {
      assert a + b == b;
    } else {
      assert (a + b)[0] == a[0];
      assert (a + b)[1..] == a[1..] + b;
      SlotsAppend(a[1..], b);
    }
  }

  /** The fixed text of a concatenation is that of its parts. */
  lemma {:induction false} LiteralsAppend(a: seq<Piece>, b: seq<Piece>)
    ensures Literals(a + b) == Literals(a) + Literals(b)
  {
    if a == [] {
      assert a + b == b;
    } else {
      assert (a + b)[0] == a[0];
      assert (a + b)[1..] == a[1..] + b;
      LiteralsAppend(a[1..], b);
    }
  }

  /** Filling from the request is preserved by concatenation. */
  lemma FilledAppend(a: seq<Piece>, b: seq<Piece>, r: FeedbackRequest)
    requires FilledFrom(a, r) && FilledFrom(b, r)
    ensures FilledFrom(a + b, r)
  {
    forall i | 0 <= i < |a + b| && (a + b)[i].Hole?
      ensures (a + b)[i].value == SlotValue(r, (a + b)[i].slot)
    {
      if i >= |a| {
        assert (a + b)[i] == b[i - |a|];
      }
    }
  }

  /** Rendering distributes over concatenation of templates. */
  lemma {:induction false} RenderAppend(a: seq<Piece>, b: seq<Piece>)
    ensures Render(a + b) == Render(a) + Render(b)
  {
    if a == [] {
      assert a + b == b;
    } else {
      assert (a + b)[0] == a[0];
      assert (a + b)[1..] == a[1..] + b;
      RenderAppend(a[1..], b);
    }
  }

  /**
   * The fixed texts both prompts put around their optional extract part:
   * captions before paper, question type and exam question, the text
   * between the exam question and the extract part, the caption of the
   * student response and the closing instructions.
   */
  datatype Frame = Frame(
    heading: string,
    questionType: string,
    examQuestion: string,
    beforeExtract: string,
    studentResponse: string,
    closing: string)

  /** Paper, question type and exam question, each after its caption, then the text before the extract part. */
  function Front(f: Frame, r: FeedbackRequest): seq<Piece>
  {
    Labelled(f.heading, Paper, r.paper)
    + Labelled(f.questionType, QuestionType, r.questionType)
    + Labelled(f.examQuestion, ExamQuestion, r.examQuestion)
    + [Lit(f.beforeExtract)]
  }

  /** The student response after its caption, then the closing instructions. */
  function Back(f: Frame, r: FeedbackRequest): seq<Piece>
  {
    Labelled(f.studentResponse, StudentResponse, r.studentResponse) + [Lit(f.closing)]
  }

  /** A prompt: the frame's front, an extract part, the frame's back. */
  function Framed(f: Frame, r: FeedbackRequest, extractPart: seq<Piece>): seq<Piece>
  {
    Front(f, r) + extractPart + Back(f, r)
  }

  /** Slots, fixed texts and rendering of four templates joined are those of the parts, joined. */
  lemma Join4(a: seq<Piece>, b: seq<Piece>, c: seq<Piece>, d: seq<Piece>, r: FeedbackRequest)
    ensures Slots(a + b + c + d) == Slots(a) + Slots(b) + Slots(c) + Slots(d)
    ensures Literals(a + b + c + d) == Literals(a) + Literals(b) + Literals(c) + Literals(d)
    ensures Render(a + b + c + d) == Render(a) + Render(b) + Render(c) + Render(d)
    ensures FilledFrom(a, r) && FilledFrom(b, r) && FilledFrom(c, r) && FilledFrom(d, r) ==>
      FilledFrom(a + b + c + d, r)
  {
    SlotsAppend(a, b);
    SlotsAppend(a + b, c);
    SlotsAppend(a + b + c, d);
    LiteralsAppend(a, b);
    LiteralsAppend(a + b, c);
    LiteralsAppend(a + b + c, d);
    RenderAppend(a, b);
    RenderAppend(a + b, c);
    RenderAppend(a + b + c, d);
    if FilledFrom(a, r) && FilledFrom(b, r) && FilledFrom(c, r) && FilledFrom(d, r) {
      FilledAppend(a, b, r);
      FilledAppend(a + b, c, r);
      FilledAppend(a + b + c, d, r);
    }
  }

  /**
   * The front interpolates paper, question type and exam question, each
   * after its caption, and renders as each caption followed by its value,
   * then the text before the extract part.
   */
  lemma FrontParts(f: Frame, r: FeedbackRequest)
    ensures Slots(Front(f, r)) == [Paper, QuestionType, ExamQuestion]
    ensures Literals(Front(f, r)) == [f.heading, f.questionType, f.examQuestion, f.beforeExtract]
    ensures FilledFrom(Front(f, r), r)
    ensures Render(Front(f, r)) ==
      (f.heading + r.paper) + (f.questionType + r.questionType) + (f.examQuestion + r.examQuestion) + f.beforeExtract
  {
    assert FilledFrom([Lit(f.beforeExtract)], r);
    LabelledParts(f.heading, Paper, r.paper);
    LabelledParts(f.questionType, QuestionType, r.questionType);
    LabelledParts(f.examQuestion, ExamQuestion, r.examQuestion);
    FixedParts(f.beforeExtract);
    Join4(Labelled(f.heading, Paper, r.paper), Labelled(f.questionType, QuestionType, r.questionType),
          Labelled(f.examQuestion, ExamQuestion, r.examQuestion), [Lit(f.beforeExtract)], r);
  }

  /**
   * A framed prompt renders as each caption followed by its value, with the
   * extract part's text between the exam question's block and the student
   * response's caption.
   */
  lemma FramedRender(f: Frame, r: FeedbackRequest, extractPart: seq<Piece>)
    ensures Render(Framed(f, r, extractPart)) ==
      f.heading + r.paper + f.questionType + r.questionType + f.examQuestion + r.examQuestion + f.beforeExtract
      + Render(extractPart) + f.studentResponse + r.studentResponse + f.closing
  {
    FrontParts(f, r);
    BackParts(f, r);
    RenderAppend(Front(f, r), extractPart);
    RenderAppend(Front(f, r) + extractPart, Back(f, r));
  }

  /**
   * The back interpolates the student response after its caption, and
   * renders as the caption, the response, then the closing text.
   */
  lemma BackParts(f: Frame, r: FeedbackRequest)
    ensures Slots(Back(f, r)) == [StudentResponse]
    ensures Literals(Back(f, r)) == [f.studentResponse, f.closing]
    ensures FilledFrom(Back(f, r), r)
    ensures Render(Back(f, r)) == (f.studentResponse + r.studentResponse) + f.closing
  {
    var a := Labelled(f.studentResponse, StudentResponse, r.studentResponse);
    LabelledParts(f.studentResponse, StudentResponse, r.studentResponse);
    FixedParts(f.closing);
    SlotsAppend(a, [Lit(f.closing)]);
    LiteralsAppend(a, [Lit(f.closing)]);
    FilledAppend(a, [Lit(f.closing)], r);
    RenderAppend(a, [Lit(f.closing)]);
  }

  /**
   * A framed prompt interpolates paper, question type and exam question,
   * then whatever the extract part does, then the student response; its
   * fixed text is the frame's around the extract part's; it renders as the
   * front, the extract part and the back, one after another.
   */
  lemma FramedParts(f: Frame, r: FeedbackRequest, extractPart: seq<Piece>)
    ensures Slots(Framed(f, r, extractPart)) ==
      [Paper, QuestionType, ExamQuestion] + Slots(extractPart) + [StudentResponse]
    ensures Literals(Framed(f, r, extractPart)) ==
      [f.heading, f.questionType, f.examQuestion, f.beforeExtract] + Literals(extractPart)
      + [f.studentResponse, f.closing]
    ensures FilledFrom(extractPart, r) ==> FilledFrom(Framed(f, r, extractPart), r)
    ensures Render(Framed(f, r, extractPart)) == Render(Front(f, r)) + Render(extractPart) + Render(Back(f, r))
  {
    var a, x, b := Front(f, r), extractPart, Back(f, r);
    FrontParts(f, r);
    BackParts(f, r);
    SlotsAppend(a, x);
    SlotsAppend(a + x, b);
    LiteralsAppend(a, x);
    LiteralsAppend(a + x, b);
    if FilledFrom(x, r) {
      FilledAppend(a, x, r);
      FilledAppend(a + x, b, r);
    }
    RenderAppend(a, x);
    RenderAppend(a + x, b);
  }
}
