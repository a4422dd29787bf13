/**
  The extractor as the service runs it: JSON objects built field by field
  with `put`/`set`, and arrays grown in `for` loops over the selected
  elements. Each method is proved to build exactly the layout of module
  Assembly for the records of module Extraction.

  The objects are local to one call and are never changed after being
  attached to a parent, so each is modelled as a field-list value that the
  method reassigns.
*/
module HtmlParserService {
  import opened Wrappers
  import opened Dom
  import opened Json
  import opened Points
  import opened QuestionNumbers
  import opened Extraction
  import opened Assembly

  /** The loop has thrown at element `i`: the whole collection throws with the same digits. */
  lemma CollectStopsAt<T>(f: Element -> Parsed<Option<T>>, xs: seq<Element>, i: int, done: seq<T>)
    requires 0 <= i < |xs|
    requires Collect(f, xs[..i]) == Ok(done) && f(xs[i]).NumberFormatError?
    ensures Collect(f, xs) == NumberFormatError(f(xs[i]).digits)
  {
    CollectThrowsAt(f, xs, i, done);
    CollectThrowsInPrefix(f, xs, i + 1);
  }

  /** An exception in a prefix of the list is the outcome of the whole list. */
  lemma CollectThrowsInPrefix<T>(f: Element -> Parsed<Option<T>>, xs: seq<Element>, k: int)
    requires 0 <= k <= |xs| && Collect(f, xs[..k]).NumberFormatError?
    ensures Collect(f, xs) == Collect(f, xs[..k])
  {
    var a, b := xs[..k], xs[k..];
    CollectAppend(f, a, b);
    assert a + b == xs;
  }

  lemma CollectThrowsAt<T>(f: Element -> Parsed<Option<T>>, xs: seq<Element>, i: int, done: seq<T>)
    requires 0 <= i < |xs|
    requires Collect(f, xs[..i]) == Ok(done) && f(xs[i]).NumberFormatError?
    ensures Collect(f, xs[..i + 1]) == NumberFormatError(f(xs[i]).digits)
  {
    var upTo := xs[..i + 1];
    assert upTo[..|upTo| - 1] == xs[..i];
    assert upTo[|upTo| - 1] == xs[i];
  }

  /** One more element handled without an exception: its record, if any, is appended. */
  lemma CollectStep<T>(f: Element -> Parsed<Option<T>>, xs: seq<Element>, i: int, done: seq<T>)
    requires 0 <= i < |xs|
    requires Collect(f, xs[..i]) == Ok(done) && f(xs[i]).Ok?
    ensures Collect(f, xs[..i + 1]) == Ok(if f(xs[i]).value.Some? then done + [f(xs[i]).value.value] else done)
  {
    var upTo := xs[..i + 1];
    assert upTo[..|upTo| - 1] == xs[..i];
    assert upTo[|upTo| - 1] == xs[i];
  }

  // The three outcomes of `parseSubQuestion`, as JSON.

  lemma SubQuestionWithoutHeading(sub: Element, n: string)
    requires ExtractQuestionNumber(sub) == Some(n) && SelectFirst(sub, PartTitle).None?
    ensures OptionalJson(SubQuestionOf(sub), PartJson) == Ok(Some(JObject([Field("partNumber", JString(n))])))
  {
    assert [Field("partNumber", JString(n))] + [] == [Field("partNumber", JString(n))];
  }

  lemma SubQuestionWithHeading(sub: Element, n: string, h: Element, p: int)
    requires ExtractQuestionNumber(sub) == Some(n) && SelectFirst(sub, PartTitle) == Some(h)
    requires HeadingPoints(h) == Ok(p)
    ensures OptionalJson(SubQuestionOf(sub), PartJson) ==
            Ok(Some(JObject([Field("partNumber", JString(n)), Field("text", JString(PartText(h))), Field("points", JInt(p))])))
  {
    assert [Field("partNumber", JString(n))] + [Field("text", JString(PartText(h))), Field("points", JInt(p))] ==
           [Field("partNumber", JString(n)), Field("text", JString(PartText(h))), Field("points", JInt(p))];
  }

  lemma SubQuestionThrows(sub: Element, h: Element)
    requires ExtractQuestionNumber(sub).Some? && SelectFirst(sub, PartTitle) == Some(h)
    requires HeadingPoints(h).NumberFormatError?
    ensures OptionalJson(SubQuestionOf(sub), PartJson) == NumberFormatError(HeadingPoints(h).digits)
  {
  }

  /** `parseSubQuestion`. */
  method ParseSubQuestion(subQuestion: Element) returns (r: Parsed<Option<Json>>)
    ensures r == OptionalJson(SubQuestionOf(subQuestion), PartJson)
  {
    var partObj: seq<Field> := [];
    var partNumber := ExtractQuestionNumber(subQuestion);
    if partNumber.None? {
      return Ok(None);
    }
    partObj := Put(partObj, "partNumber", JString(partNumber.value));

    var titleElement := SelectFirst(subQuestion, PartTitle);
    if titleElement.None? {
      SubQuestionWithoutHeading(subQuestion, partNumber.value);
      return Ok(Some(JObject(partObj)));
    }
    var title := titleElement.value;
    var questionText := TextOf(SelectFirst(title, LangSpan));
    // alt-text of a formula, from the screen-reader-only element
    var formulaElement := SelectFirst(title, ScreenReaderOnly);
    if formulaElement.Some? {
      questionText := questionText + " " + formulaElement.value.text;
    }
    assert questionText == PartText(title);
    PutNewKeyAppends(partObj, "text", JString(questionText));
    partObj := Put(partObj, "text", JString(questionText));

    var points := ExtractPoints(TextOf(SelectFirst(title, Score)));
    if points.NumberFormatError? {
      SubQuestionThrows(subQuestion, title);
      return NumberFormatError(points.digits);
    }
    PutNewKeyAppends(partObj, "points", JInt(points.value));
    partObj := Put(partObj, "points", JInt(points.value));
    SubQuestionWithHeading(subQuestion, partNumber.value, title, points.value);
    assert partObj == [Field("partNumber", JString(partNumber.value)), Field("text", JString(questionText)), Field("points", JInt(points.value))];
    return Ok(Some(JObject(partObj)));
  }

  // The outcomes of `parseMainQuestion`, as JSON.

  /** The fields `parseMainQuestion` puts before `questionJson`. */
  function HeadFields(n: string, heading: Option<QuestionHeading>): (fields: seq<Field>)
    ensures Keys(fields) == if heading.Some? then ["questionNumber", "title", "totalPoints"] else ["questionNumber"]
  {
    [Field("questionNumber", JString(n))] +
    match heading
    case Some(h) => [Field("title", JString(h.title)), Field("totalPoints", JInt(h.totalPoints))]
    case None => []
  }

  lemma MainQuestionHeadingThrows(q: Element, h: Element)
    requires ExtractQuestionNumber(q).Some? && SelectFirst(q, QuestionTitle) == Some(h)
    requires HeadingPoints(h).NumberFormatError?
    ensures OptionalJson(MainQuestionOf(q), QuestionJson) == NumberFormatError(HeadingPoints(h).digits)
  {
  }

  lemma MainQuestionPartsThrow(q: Element)
    requires ExtractQuestionNumber(q).Some? && QuestionHeadingOf(q).Ok?
    requires Collect(SubQuestionOf, DirectChildren(q, SubQuestion)).NumberFormatError?
    ensures OptionalJson(MainQuestionOf(q), QuestionJson) ==
            NumberFormatError(Collect(SubQuestionOf, DirectChildren(q, SubQuestion)).digits)
  {
  }

  lemma MainQuestionBuilt(q: Element, n: string, heading: Option<QuestionHeading>, parts: seq<Part>)
    requires ExtractQuestionNumber(q) == Some(n) && QuestionHeadingOf(q) == Ok(heading)
    requires Collect(SubQuestionOf, DirectChildren(q, SubQuestion)) == Ok(parts)
    ensures OptionalJson(MainQuestionOf(q), QuestionJson) ==
            Ok(Some(JObject(HeadFields(n, heading) + [
              Field("questionJson", JObject([
                Field("text", JString(TextOf(SelectFirst(q, Instruction)))),
                Field("type", JString("multi_part")),
                Field("parts", JArray(PartsJson(parts)))])),
              Field("hvpJson", JObject([]))])))
  {
  }

  /** The loop of `parseMainQuestion` over the selected sub-question elements, growing the parts array. */
  method ParseSubQuestions(subQuestions: seq<Element>) returns (r: Parsed<seq<Json>>)
    ensures var parts := Collect(SubQuestionOf, subQuestions);
            && (parts.Ok? ==> r == Ok(PartsJson(parts.value)))
            && (parts.NumberFormatError? ==> r == NumberFormatError(parts.digits))
  {
    var partsArray: seq<Json> := [];
    ghost var parts: seq<Part> := [];
    for i := 0 to |subQuestions|
      invariant Collect(SubQuestionOf, subQuestions[..i]) == Ok(parts)
      invariant partsArray == PartsJson(parts)
    {
      var partObj := ParseSubQuestion(subQuestions[i]);
      if partObj.NumberFormatError? {
        CollectStopsAt(SubQuestionOf, subQuestions, i, parts);
        return NumberFormatError(partObj.digits);
      }
      CollectStep(SubQuestionOf, subQuestions, i, parts);
      if partObj.value.Some? {
        partsArray := partsArray + [partObj.value.value];
        parts := parts + [SubQuestionOf(subQuestions[i]).value.value];
      }
    }
    assert subQuestions[..|subQuestions|] == subQuestions;
    return Ok(partsArray);
  }

  /** The `put`s of the numbered heading insert three distinct keys, in order. */
  lemma HeadPuts(n: string, title: string, totalPoints: int)
    ensures Put(Put(Put([], "questionNumber", JString(n)), "title", JString(title)), "totalPoints", JInt(totalPoints)) ==
            HeadFields(n, Some(QuestionHeading(title, totalPoints)))
  {
    var fields := Put([], "questionNumber", JString(n));
    PutNewKeyAppends(fields, "title", JString(title));
    fields := Put(fields, "title", JString(title));
    PutNewKeyAppends(fields, "totalPoints", JInt(totalPoints));
  }

  /** The `put`s and the `set` of the nested `questionJson` object insert three distinct keys, in order. */
  lemma BodyPuts(instruction: string, parts: seq<Json>)
    ensures Put(Put(Put([], "text", JString(instruction)), "type", JString("multi_part")), "parts", JArray(parts)) ==
            [Field("text", JString(instruction)), Field("type", JString("multi_part")), Field("parts", JArray(parts))]
  {
    var fields := Put([], "text", JString(instruction));
    assert "type"[1] != "text"[1];
    PutNewKeyAppends(fields, "type", JString("multi_part"));
    fields := Put(fields, "type", JString("multi_part"));
    PutNewKeyAppends(fields, "parts", JArray(parts));
  }

  /** The last two `set`s of `parseMainQuestion` append the nested object and the empty `hvpJson`. */
  lemma TailPuts(head: seq<Field>, body: seq<Field>)
    requires Keys(head) == ["questionNumber"] || Keys(head) == ["questionNumber", "title", "totalPoints"]
    ensures Put(Put(head, "questionJson", JObject(body)), "hvpJson", JObject([])) ==
            head + [Field("questionJson", JObject(body)), Field("hvpJson", JObject([]))]
  {
    PutNewKeyAppends(head, "questionJson", JObject(body));
    var fields := Put(head, "questionJson", JObject(body));
    PutNewKeyAppends(fields, "hvpJson", JObject([]));
  }

  /** `parseMainQuestion`. */
  method ParseMainQuestion(mainQuestion: Element) returns (r: Parsed<Option<Json>>)
    ensures r == OptionalJson(MainQuestionOf(mainQuestion), QuestionJson)
  {
    var questionObj: seq<Field> := [];
    var questionNumber := ExtractQuestionNumber(mainQuestion);
    if questionNumber.None? {
      return Ok(None);
    }
    questionObj := Put(questionObj, "questionNumber", JString(questionNumber.value));

    ghost var heading: Option<QuestionHeading> := None;
    var titleElement := SelectFirst(mainQuestion, QuestionTitle);
    if titleElement.Some? {
      var h := titleElement.value;
      var title := TextOf(SelectFirst(h, LangSpan));
      var totalPoints := ExtractPoints(TextOf(SelectFirst(h, Score)));
      if totalPoints.NumberFormatError? {
        MainQuestionHeadingThrows(mainQuestion, h);
        return NumberFormatError(totalPoints.digits);
      }
      questionObj := Put(questionObj, "title", JString(title));
      questionObj := Put(questionObj, "totalPoints", JInt(totalPoints.value));
      heading := Some(QuestionHeading(title, totalPoints.value));
      HeadPuts(questionNumber.value, title, totalPoints.value);
    }
    assert QuestionHeadingOf(mainQuestion) == Ok(heading);
    assert questionObj == HeadFields(questionNumber.value, heading);

    var instruction := TextOf(SelectFirst(mainQuestion, Instruction));
    var questionJson: seq<Field> := [];
    questionJson := Put(questionJson, "text", JString(instruction));
    questionJson := Put(questionJson, "type", JString("multi_part"));

    var partsArray := ParseSubQuestions(DirectChildren(mainQuestion, SubQuestion));
    if partsArray.NumberFormatError? {
      MainQuestionPartsThrow(mainQuestion);
      return NumberFormatError(partsArray.digits);
    }
    questionJson := Put(questionJson, "parts", JArray(partsArray.value));
    BodyPuts(instruction, partsArray.value);

    TailPuts(questionObj, questionJson);
    questionObj := Put(questionObj, "questionJson", JObject(questionJson));
    questionObj := Put(questionObj, "hvpJson", JObject([]));
    MainQuestionBuilt(mainQuestion, questionNumber.value, heading,
                      Collect(SubQuestionOf, DirectChildren(mainQuestion, SubQuestion)).value);
    return Ok(Some(JObject(questionObj)));
  }

  /** The loop of `parseHtmlToJson` over the selected level-0 question elements, growing the questions array. */
  method ParseMainQuestions(mainQuestions: seq<Element>) returns (r: Parsed<seq<Json>>)
    ensures var questions := Collect(MainQuestionOf, mainQuestions);
            && (questions.Ok? ==> r == Ok(QuestionsJson(questions.value)))
            && (questions.NumberFormatError? ==> r == NumberFormatError(questions.digits))
  {
    var questionsArray: seq<Json> := [];
    ghost var questions: seq<Question> := [];
    for i := 0 to |mainQuestions|
      invariant Collect(MainQuestionOf, mainQuestions[..i]) == Ok(questions)
      invariant questionsArray == QuestionsJson(questions)
    {
      var questionObj := ParseMainQuestion(mainQuestions[i]);
      if questionObj.NumberFormatError? {
        CollectStopsAt(MainQuestionOf, mainQuestions, i, questions);
        return NumberFormatError(questionObj.digits);
      }
      CollectStep(MainQuestionOf, mainQuestions, i, questions);
      if questionObj.value.Some? {
        QuestionsJsonAppend(questions, MainQuestionOf(mainQuestions[i]).value.value);
        questionsArray := questionsArray + [questionObj.value.value];
        questions := questions + [MainQuestionOf(mainQuestions[i]).value.value];
      }
    }
    assert mainQuestions[..|mainQuestions|] == mainQuestions;
    return Ok(questionsArray);
  }

  /** The five `put`s of `parseHtmlToJson` insert five distinct keys, in order. */
  lemma ExamPuts(examCode: string, subject: string, year: int, isSpringExam: bool, questions: seq<Json>)
    ensures Put(Put(Put(Put(Put([], "examCode", JString(examCode)), "subject", JString(subject)),
                        "year", JInt(year)), "isSpringExam", JBool(isSpringExam)), "questions", JArray(questions)) ==
            [Field("examCode", JString(examCode)), Field("subject", JString(subject)), Field("year", JInt(year)),
             Field("isSpringExam", JBool(isSpringExam)), Field("questions", JArray(questions))]
  {
    var fields := Put([], "examCode", JString(examCode));
    PutNewKeyAppends(fields, "subject", JString(subject));
    fields := Put(fields, "subject", JString(subject));
    PutNewKeyAppends(fields, "year", JInt(year));
    fields := Put(fields, "year", JInt(year));
    PutNewKeyAppends(fields, "isSpringExam", JBool(isSpringExam));
    fields := Put(fields, "isSpringExam", JBool(isSpringExam));
    PutNewKeyAppends(fields, "questions", JArray(questions));
  }

  lemma ExamBuilt(doc: Element, examCode: string, subject: string, year: Int32, isSpringExam: bool)
    requires Collect(MainQuestionOf, SelectAll(doc, Level0Question)).Ok?
    ensures var questions := Collect(MainQuestionOf, SelectAll(doc, Level0Question)).value;
            ExamOf(doc, examCode, subject, year, isSpringExam) == Ok(Exam(examCode, subject, year, isSpringExam, questions))
  {
  }

  /**
    `parseHtmlToJson` from the parsed document onward: the caller's metadata,
    then every numbered level-0 question in document order.
  */
  method ParseHtmlToJson(doc: Element, examCode: string, subject: string, year: Int32, isSpringExam: bool)
    returns (r: Parsed<Json>)
    ensures var exam := ExamOf(doc, examCode, subject, year, isSpringExam);
            && (exam.Ok? ==> r == Ok(ExamJson(exam.value)))
            && (exam.NumberFormatError? ==> r == NumberFormatError(exam.digits))
  {
    var examJson: seq<Field> := [];
    examJson := Put(examJson, "examCode", JString(examCode));
    examJson := Put(examJson, "subject", JString(subject));
    examJson := Put(examJson, "year", JInt(year));
    examJson := Put(examJson, "isSpringExam", JBool(isSpringExam));

    var questionsArray := ParseMainQuestions(SelectAll(doc, Level0Question));
    if questionsArray.NumberFormatError? {
      return NumberFormatError(questionsArray.digits);
    }

    examJson := Put(examJson, "questions", JArray(questionsArray.value));
    ExamPuts(examCode, subject, year, isSpringExam, questionsArray.value);
    ExamBuilt(doc, examCode, subject, year, isSpringExam);
    return Ok(JObject(examJson));
  }
}
