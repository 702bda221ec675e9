/**
 * src/services/questionTypeIdentifier.ts: classify an exam question by the
 * words and mark tariffs it contains, trying the tests in a fixed order.
 */
module QuestionTypeIdentifier {
  import opened Text

  /** The first test: a comparison word anywhere in the text. */
  predicate Compares(q: string)
  {
    Contains(q, "compare") || Contains(q, "contrast")
  }

  /** The six labels the classifier can return. */
  predicate Reachable(t: string)
  {
    t == "comparative" || t == "extract" || t == "9-mark" || t == "essay"
    || t == "comparative essay" || t == "unknown"
  }

  /**
   * `identifyQuestionType` as written. The `[30 marks]` test for
   * "comparative essay" precedes the `[30 marks]`-and-`ideology` test, so
   * that second test can never decide the result.
   */
  function IdentifyQuestionType(q: string): (t: string)
    ensures Reachable(t) && t != "ideologies essay"
    ensures t == "comparative" <==> Compares(q)
    ensures t == "extract" <==> !Compares(q) && Contains(q, "extract")
    ensures t == "9-mark" <==> !Compares(q) && !Contains(q, "extract") && Contains(q, "[9 marks]")
    ensures t == "essay" <==>
      !Compares(q) && !Contains(q, "extract") && !Contains(q, "[9 marks]") && Contains(q, "[25 marks]")
    ensures t == "comparative essay" <==>
      !Compares(q) && !Contains(q, "extract") && !Contains(q, "[9 marks]") && !Contains(q, "[25 marks]")
      && Contains(q, "[30 marks]")
    ensures t == "unknown" <==>
      !Compares(q) && !Contains(q, "extract") && !Contains(q, "[9 marks]") && !Contains(q, "[25 marks]")
      && !Contains(q, "[30 marks]")
  {
    if Contains(q, "compare") || Contains(q, "contrast") then "comparative"
    else if Contains(q, "extract") then "extract"
    else if Contains(q, "[9 marks]") then "9-mark"
    else if Contains(q, "[25 marks]") then "essay"
    else if Contains(q, "[30 marks]") then "comparative essay"
    else if Contains(q, "[30 marks]") && Contains(q, "ideology") then "ideologies essay"
    else "unknown"
  }

  /** The marker tests a question without `c`, `9` or `2` passes over. */
  lemma EarlierMarkersAbsent(q: string)
    requires 'c' !in q && '9' !in q && '2' !in q
    ensures !Compares(q) && !Contains(q, "extract") && !Contains(q, "[9 marks]") && !Contains(q, "[25 marks]")
  {
    MissingCharNotContained(q, "compare", 'c');
    MissingCharNotContained(q, "contrast", 'c');
    MissingCharNotContained(q, "extract", 'c');
    MissingCharNotContained(q, "[9 marks]", '9');
    MissingCharNotContained(q, "[25 marks]", '2');
  }

  const IdeologyQuestion := "ideology [30 marks]"

  /** `ideology [30 marks]` holds both markers of the ideology test and none of the earlier ones. */
  lemma IdeologyQuestionMarkers()
    ensures !Compares(IdeologyQuestion) && !Contains(IdeologyQuestion, "extract")
    ensures !Contains(IdeologyQuestion, "[9 marks]") && !Contains(IdeologyQuestion, "[25 marks]")
    ensures Contains(IdeologyQuestion, "[30 marks]") && Contains(IdeologyQuestion, "ideology")
  {
    var q := IdeologyQuestion;
    assert 'c' !in q && '9' !in q && '2' !in q;
    EarlierMarkersAbsent(q);
    assert q[9..19] == "[30 marks]";
    assert OccursAt(q, "[30 marks]", 9);
    assert q[0..8] == "ideology";
    assert OccursAt(q, "ideology", 0);
  }

  /** A 30-mark question on ideology is classified as a comparative essay. */
  lemma IdeologyQuestionMisclassified()
    ensures IdentifyQuestionType(IdeologyQuestion) == "comparative essay"
  {
    IdeologyQuestionMarkers();
  }

  /** The classifier with the ideology test placed before the plain 30-mark test. */
  function IdentifyQuestionTypeIntended(q: string): (t: string)
    ensures t == "ideologies essay" <==>
      !Compares(q) && !Contains(q, "extract") && !Contains(q, "[9 marks]") && !Contains(q, "[25 marks]")
      && Contains(q, "[30 marks]") && Contains(q, "ideology")
    ensures t != "ideologies essay" ==> t == IdentifyQuestionType(q)
  {
    if Contains(q, "compare") || Contains(q, "contrast") then "comparative"
    else if Contains(q, "extract") then "extract"
    else if Contains(q, "[9 marks]") then "9-mark"
    else if Contains(q, "[25 marks]") then "essay"
    else if Contains(q, "[30 marks]") && Contains(q, "ideology") then "ideologies essay"
    else if Contains(q, "[30 marks]") then "comparative essay"
    else "unknown"
  }

  /** Under the corrected order the same question is an ideologies essay. */
  lemma IdeologyQuestionIntended()
    ensures IdentifyQuestionTypeIntended(IdeologyQuestion) == "ideologies essay"
  {
    IdeologyQuestionMarkers();
  }
}
