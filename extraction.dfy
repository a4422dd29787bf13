/**
  What the extractor recovers from an exam page, as records: the exam, its
  questions and their parts, each present only when its number resolves.
  The functions here are the reference for the imperative JSON building in
  module HtmlParserService; module Assembly gives the JSON layout.
*/
module Extraction {
  import opened Wrappers
  import opened Dom
  import opened Points
  import opened QuestionNumbers

  // The CSS queries of the extractor.
  const Level0Question := Selector(None, {"e-exam-question", "e-level-0"}, None)   // .e-exam-question.e-level-0
  const SubQuestion := Selector(None, {"e-exam-question", "e-mrg-l-8"}, None)      // > .e-exam-question.e-mrg-l-8
  const QuestionTitle := Selector(Some("h3"), {"exam-question-title"}, None)       // h3.exam-question-title
  const PartTitle := Selector(Some("h4"), {"exam-question-title"}, None)           // h4.exam-question-title
  const LangSpan := Selector(Some("span"), {}, Some("lang"))                       // span[lang]
  const Score := Selector(None, {"e-score"}, None)                                 // .e-score
  const Instruction := Selector(None, {"exam-question-instruction"}, None)         // .exam-question-instruction
  const ScreenReaderOnly := Selector(None, {"e-screen-reader-only"}, None)         // .e-screen-reader-only

  /** The fields a part gets only when it has an `h4.exam-question-title` heading. */
  datatype PartHeading = PartHeading(text: string, points: int)

  datatype Part = Part(partNumber: string, heading: Option<PartHeading>)

  /** The fields a question gets only when it has an `h3.exam-question-title` heading. */
  datatype QuestionHeading = QuestionHeading(title: string, totalPoints: int)

  datatype Question = Question(
    questionNumber: string,
    heading: Option<QuestionHeading>,
    instruction: string,
    parts: seq<Part>)

  datatype Exam = Exam(
    examCode: string,
    subject: string,
    year: Int32,
    isSpringExam: bool,
    questions: seq<Question>)

  /**
    The `for` loop over candidate elements: each element's extraction either
    throws (and the loop with it), yields nothing (the element is dropped)
    or yields one record, appended in order.
  */
  function Collect<T>(f: Element -> Parsed<Option<T>>, xs: seq<Element>): (r: Parsed<seq<T>>)
    ensures r.Ok? ==> |r.value| <= |xs|
    decreases |xs|
  {
    if xs == [] then Ok([])
    else
      match Collect(f, xs[..|xs| - 1])
      case NumberFormatError(d) => NumberFormatError(d)
      case Ok(done) =>
        match f(xs[|xs| - 1])
        case NumberFormatError(d) => NumberFormatError(d)
        case Ok(None) => Ok(done)
        case Ok(Some(y)) => Ok(done + [y])
  }

  /** Running the loop over `a` and then over `b`: the first exception wins, otherwise results concatenate. */
  function Then<T>(x: Parsed<seq<T>>, y: Parsed<seq<T>>): Parsed<seq<T>>
  {
    match x
    case NumberFormatError(d) => x
    case Ok(p) =>
      match y
      case NumberFormatError(d) => y
      case Ok(q) => Ok(p + q)
  }

  /** The numbers of the elements that have one, in order. */
  function Resolved(xs: seq<Element>): (ns: seq<string>)
    ensures |ns| <= |xs|
  {
    if xs == [] then []
    else
      Resolved(xs[..|xs| - 1]) +
      match ExtractQuestionNumber(xs[|xs| - 1])
      case Some(n) => [n]
      case None => []
  }

  /**
    The text of a part heading: the text of its first `span[lang]` ("" without
    one), extended by a space and the screen-reader text exactly when the
    heading has an `.e-screen-reader-only` element.
  */
  function PartText(h: Element): (t: string)
    ensures var span := TextOf(SelectFirst(h, LangSpan));
            && |span| <= |t| && t[..|span|] == span
            && (SelectFirst(h, ScreenReaderOnly).None? <==> t == span)
            && (SelectFirst(h, ScreenReaderOnly).Some? ==> t[|span|..] == " " + SelectFirst(h, ScreenReaderOnly).value.text)
  {
    TextOf(SelectFirst(h, LangSpan)) +
    match SelectFirst(h, ScreenReaderOnly)
    case Some(f) => " " + f.text
    case None => ""
  }

  /** Points of a heading: its first `.e-score` text, "" when there is none. */
  function HeadingPoints(h: Element): (r: Parsed<int>)
    ensures SelectFirst(h, Score).None? ==> r == Ok(0)
  {
    ExtractPoints(TextOf(SelectFirst(h, Score)))
  }

  /** `parseSubQuestion`: none (Java's null) when the element has no number. */
  function SubQuestionOf(sub: Element): (r: Parsed<Option<Part>>)
    ensures ExtractQuestionNumber(sub).None? <==> r == Ok(None)
    ensures r.Ok? && r.value.Some? ==> Some(r.value.value.partNumber) == ExtractQuestionNumber(sub)
    ensures r.Ok? && r.value.Some? ==> (r.value.value.heading.Some? <==> SelectFirst(sub, PartTitle).Some?)
  {
    match ExtractQuestionNumber(sub)
    case None => Ok(None)
    case Some(n) =>
      match SelectFirst(sub, PartTitle)
      case None => Ok(Some(Part(n, None)))
      case Some(h) =>
        match HeadingPoints(h)
        case NumberFormatError(d) => NumberFormatError(d)
        case Ok(p) => Ok(Some(Part(n, Some(PartHeading(PartText(h), p)))))
  }

  /** Title and total points of a question, present when it has an `h3` title heading. */
  function QuestionHeadingOf(q: Element): (r: Parsed<Option<QuestionHeading>>)
    ensures r.Ok? ==> (r.value.Some? <==> SelectFirst(q, QuestionTitle).Some?)
  {
    match SelectFirst(q, QuestionTitle)
    case None => Ok(None)
    case Some(h) =>
      match HeadingPoints(h)
      case NumberFormatError(d) => NumberFormatError(d)
      case Ok(p) => Ok(Some(QuestionHeading(TextOf(SelectFirst(h, LangSpan)), p)))
  }

  /** `parseMainQuestion`: none (Java's null) when the element has no number. */
  function MainQuestionOf(q: Element): (r: Parsed<Option<Question>>)
    ensures ExtractQuestionNumber(q).None? <==> r == Ok(None)
    ensures r.Ok? && r.value.Some? ==> Some(r.value.value.questionNumber) == ExtractQuestionNumber(q)
    ensures r.Ok? && r.value.Some? ==> r.value.value.instruction == TextOf(SelectFirst(q, Instruction))
  {
    match ExtractQuestionNumber(q)
    case None => Ok(None)
    case Some(n) =>
      match QuestionHeadingOf(q)
      case NumberFormatError(d) => NumberFormatError(d)
      case Ok(heading) =>
        match Collect(SubQuestionOf, DirectChildren(q, SubQuestion))
        case NumberFormatError(d) => NumberFormatError(d)
        case Ok(parts) => Ok(Some(Question(n, heading, TextOf(SelectFirst(q, Instruction)), parts)))
  }

  /** `parseHtmlToJson` from the parsed document onward. */
  function ExamOf(root: Element, examCode: string, subject: string, year: Int32, isSpringExam: bool): (r: Parsed<Exam>)
    ensures r.Ok? ==> r.value.examCode == examCode && r.value.subject == subject
    ensures r.Ok? ==> r.value.year == year && r.value.isSpringExam == isSpringExam
  {
    match Collect(MainQuestionOf, SelectAll(root, Level0Question))
    case NumberFormatError(d) => NumberFormatError(d)
    case Ok(questions) => Ok(Exam(examCode, subject, year, isSpringExam, questions))
  }

  // ---------------------------------------------------------------------
  // The loop combinator: concatenation, dropping, numbering, origin, success

  lemma {:induction false} CollectAppend<T>(f: Element -> Parsed<Option<T>>, a: seq<Element>, b: seq<Element>)
    ensures Collect(f, a + b) == Then(Collect(f, a), Collect(f, b))
    decreases |b|
  {
    if b == [] {
      assert a + b == a;
      if Collect(f, a).Ok? {
        assert Collect(f, a).value + [] == Collect(f, a).value;
      }
    } else {
      var ab := a + b;
      assert ab[..|ab| - 1] == a + b[..|b| - 1];
      assert ab[|ab| - 1] == b[|b| - 1];
      CollectAppend(f, a, b[..|b| - 1]);
      match Collect(f, a) {
        case NumberFormatError(d) =>
        case Ok(p) =>
          match Collect(f, b[..|b| - 1]) {
            case NumberFormatError(d) =>
            case Ok(q) =>
              match f(b[|b| - 1]) {
                case NumberFormatError(d) =>
                case Ok(None) =>
                case Ok(Some(y)) => assert (p + q) + [y] == p + (q + [y]);
              }
          }
      }
    }
  }

  /** An element that yields nothing can be removed without changing anything about the others. */
  lemma CollectDropsNothing<T>(f: Element -> Parsed<Option<T>>, a: seq<Element>, x: Element, b: seq<Element>)
    requires f(x) == Ok(None)
    ensures Collect(f, a + [x] + b) == Collect(f, a + b)
  {
    CollectAppend(f, a + [x], b);
    CollectAppend(f, a, [x]);
    assert [x][..0] == [];
    CollectAppend(f, a, b);
    match Collect(f, a) {
      case Ok(p) => assert p + [] == p;
      case NumberFormatError(d) =>
    }
  }

  /**
    When extraction yields a record exactly for the elements with a number,
    and the record carries that number, the loop's results carry exactly the
    resolved numbers, in order.
  */
  lemma {:induction false} CollectNumbers<T>(f: Element -> Parsed<Option<T>>, number: T -> string, xs: seq<Element>)
    requires forall x :: f(x).Ok? ==> (f(x).value.Some? <==> ExtractQuestionNumber(x).Some?)
    requires forall x :: f(x).Ok? && f(x).value.Some? ==> number(f(x).value.value) == ExtractQuestionNumber(x).value
    requires Collect(f, xs).Ok?
    ensures |Collect(f, xs).value| == |Resolved(xs)|
    ensures forall i :: 0 <= i < |Resolved(xs)| ==> number(Collect(f, xs).value[i]) == Resolved(xs)[i]
    decreases |xs|
  {
    if xs != [] {
      CollectNumbers(f, number, xs[..|xs| - 1]);
    }
  }

  /** Every record comes from one of the candidate elements. */
  lemma {:induction false} CollectOrigin<T>(f: Element -> Parsed<Option<T>>, xs: seq<Element>, y: T)
    requires Collect(f, xs).Ok? && y in Collect(f, xs).value
    ensures exists x :: x in xs && f(x) == Ok(Some(y))
    decreases |xs|
  {
    var init := xs[..|xs| - 1];
    var last := xs[|xs| - 1];
    if y in Collect(f, init).value {
      CollectOrigin(f, init, y);
      var x :| x in init && f(x) == Ok(Some(y));
      assert x in xs;
    } else {
      assert f(last) == Ok(Some(y));
    }
  }

  /** The loop throws only if the extraction of some candidate throws. */
  lemma {:induction false} CollectSucceeds<T>(f: Element -> Parsed<Option<T>>, xs: seq<Element>)
    requires forall i :: 0 <= i < |xs| ==> f(xs[i]).Ok?
    ensures Collect(f, xs).Ok?
    decreases |xs|
  {
    if xs != [] {
      CollectSucceeds(f, xs[..|xs| - 1]);
    }
  }

  // ---------------------------------------------------------------------
  // Questions and parts

  /** The exam's questions are exactly the level-0 question elements that have a number, in document order. */
  lemma QuestionsAreNumberedLevel0Elements(root: Element, examCode: string, subject: string, year: Int32, isSpringExam: bool)
    requires ExamOf(root, examCode, subject, year, isSpringExam).Ok?
    ensures var qs := ExamOf(root, examCode, subject, year, isSpringExam).value.questions;
            var ns := Resolved(SelectAll(root, Level0Question));
            |qs| == |ns| && forall i :: 0 <= i < |qs| ==> qs[i].questionNumber == ns[i]
  {
    CollectNumbers(MainQuestionOf, (q: Question) => q.questionNumber, SelectAll(root, Level0Question));
  }

  /** A question's parts are exactly its direct sub-question children that have a number, in child order. */
  lemma PartsAreNumberedDirectChildren(q: Element)
    requires MainQuestionOf(q).Ok? && MainQuestionOf(q).value.Some?
    ensures var ps := MainQuestionOf(q).value.value.parts;
            var ns := Resolved(DirectChildren(q, SubQuestion));
            |ps| == |ns| && forall i :: 0 <= i < |ps| ==> ps[i].partNumber == ns[i]
  {
    CollectNumbers(SubQuestionOf, (p: Part) => p.partNumber, DirectChildren(q, SubQuestion));
  }

  /** Every part is extracted from a direct child of the question carrying the sub-question classes. */
  lemma PartsComeFromDirectChildren(q: Element, p: Part)
    requires MainQuestionOf(q).Ok? && MainQuestionOf(q).value.Some?
    requires p in MainQuestionOf(q).value.value.parts
    ensures exists c :: c in q.children && Matches(c, SubQuestion) && SubQuestionOf(c) == Ok(Some(p))
  {
    CollectOrigin(SubQuestionOf, DirectChildren(q, SubQuestion), p);
    var c :| c in DirectChildren(q, SubQuestion) && SubQuestionOf(c) == Ok(Some(p));
    DirectChildrenMembers(q, SubQuestion, c);
  }

  /** A sub-question child without a number is dropped and leaves its siblings' parts as they were. */
  lemma UnnumberedSubQuestionDropped(a: seq<Element>, x: Element, b: seq<Element>)
    requires ExtractQuestionNumber(x).None?
    ensures Collect(SubQuestionOf, a + [x] + b) == Collect(SubQuestionOf, a + b)
  {
    CollectDropsNothing(SubQuestionOf, a, x, b);
  }

  /** A level-0 question element without a number is dropped and leaves the other questions as they were. */
  lemma UnnumberedQuestionDropped(a: seq<Element>, x: Element, b: seq<Element>)
    requires ExtractQuestionNumber(x).None?
    ensures Collect(MainQuestionOf, a + [x] + b) == Collect(MainQuestionOf, a + b)
  {
    CollectDropsNothing(MainQuestionOf, a, x, b);
  }

  /**
    A part's heading fields, in terms of document order: the heading is the
    first `h4.exam-question-title` of the sub-question; its text is the text of
    the heading's first `span[lang]` (or ""), followed by a space and the text
    of its first `.e-screen-reader-only` element when there is one; its points
    come from its first `.e-score` element, 0 when there is none.
  */
  lemma PartHeadingFields(sub: Element)
    requires SubQuestionOf(sub).Ok? && SubQuestionOf(sub).value.Some?
    ensures var p := SubQuestionOf(sub).value.value;
            var hs := SelectAll(sub, PartTitle);
            && (p.heading.Some? <==> hs != [])
            && (p.heading.Some? ==>
                  var h := hs[0];
                  var spans := SelectAll(h, LangSpan);
                  var extra := SelectAll(h, ScreenReaderOnly);
                  var scores := SelectAll(h, Score);
                  && p.heading.value.text ==
                       (if spans == [] then "" else spans[0].text) +
                       (if extra == [] then "" else " " + extra[0].text)
                  && (scores == [] ==> p.heading.value.points == 0)
                  && (scores != [] ==> Ok(p.heading.value.points) == ExtractPoints(scores[0].text)))
  {
    SelectFirstIsFirstOfSelectAll(sub, PartTitle);
    var hs := SelectAll(sub, PartTitle);
    if hs != [] {
      var h := hs[0];
      SelectFirstIsFirstOfSelectAll(h, LangSpan);
      SelectFirstIsFirstOfSelectAll(h, ScreenReaderOnly);
      SelectFirstIsFirstOfSelectAll(h, Score);
    }
  }

  /**
    A question's heading fields, in terms of document order: the heading is
    the first `h3.exam-question-title`; the title is the text of its first
    `span[lang]` (or ""); the total points come from its first `.e-score`,
    0 when there is none.
  */
  lemma QuestionHeadingFields(q: Element)
    requires MainQuestionOf(q).Ok? && MainQuestionOf(q).value.Some?
    ensures var question := MainQuestionOf(q).value.value;
            var hs := SelectAll(q, QuestionTitle);
            && (question.heading.Some? <==> hs != [])
            && (question.heading.Some? ==>
                  var h := hs[0];
                  var spans := SelectAll(h, LangSpan);
                  var scores := SelectAll(h, Score);
                  && question.heading.value.title == (if spans == [] then "" else spans[0].text)
                  && (scores == [] ==> question.heading.value.totalPoints == 0)
                  && (scores != [] ==> Ok(question.heading.value.totalPoints) == ExtractPoints(scores[0].text)))
  {
    SelectFirstIsFirstOfSelectAll(q, QuestionTitle);
    var hs := SelectAll(q, QuestionTitle);
    if hs != [] {
      var h := hs[0];
      SelectFirstIsFirstOfSelectAll(h, LangSpan);
      SelectFirstIsFirstOfSelectAll(h, Score);
    }
  }

  /** Class names compare without regard to case: a score marked `E-Score` still counts, "6 p." gives 6. */
  lemma ScoreClassIgnoresCase()
    ensures HeadingPoints(Element("h3", {"exam-question-title"}, map[], "6 p.",
                                  [Element("span", {"E-Score"}, map[], "6 p.", [])])) == Ok(6)
  {
    var score := Element("span", {"E-Score"}, map[], "6 p.", []);
    var h := Element("h3", {"exam-question-title"}, map[], "6 p.", [score]);
    assert SameIgnoringCase("E-Score", "e-score");
    assert Matches(score, Score);
    assert !Matches(h, Score) by {
      forall c | c in h.classes
        ensures !SameIgnoringCase(c, "e-score")
      {
        assert |c| == 19;
      }
    }
    assert SelectFirstIn([score], Score) == Some(score);
    SixPoints();
  }

  lemma SixPoints()
    ensures ExtractPoints("6 p.") == Ok(6)
  {
    assert MatchesAt("6 p.", 0, 1, 2);
    ExtractPointsLeftmost("6 p.", 0, 1, 2);
    assert "6 p."[0..1] == "6";
    assert DecimalValue("6") == 6;
  }

  // ---------------------------------------------------------------------
  // When extraction cannot throw

  /** No element of the subtree has a point marker too large for a Java `int`. */
  ghost predicate PointsFit(e: Element)
  {
    forall x :: x in Preorder(e) ==> ExtractPoints(x.text).Ok?
  }

  lemma PointsFitBelow(x: Element, e: Element)
    requires PointsFit(e) && x in Preorder(e)
    ensures PointsFit(x)
  {
    forall y | y in Preorder(x)
      ensures ExtractPoints(y.text).Ok?
    {
      PreorderTransitive(y, x, e);
    }
  }

  lemma HeadingPointsFit(h: Element)
    requires PointsFit(h)
    ensures HeadingPoints(h).Ok?
  {
    if SelectFirst(h, Score).Some? {
      SelectFirstWithin(h, Score);
    }
  }

  lemma SubQuestionSucceeds(sub: Element)
    requires PointsFit(sub)
    ensures SubQuestionOf(sub).Ok?
  {
    var h := SelectFirst(sub, PartTitle);
    if h.Some? {
      SelectFirstWithin(sub, PartTitle);
      PointsFitBelow(h.value, sub);
      HeadingPointsFit(h.value);
    }
  }

  lemma MainQuestionSucceeds(q: Element)
    requires PointsFit(q)
    ensures MainQuestionOf(q).Ok?
  {
    var h := SelectFirst(q, QuestionTitle);
    if h.Some? {
      SelectFirstWithin(q, QuestionTitle);
      PointsFitBelow(h.value, q);
      HeadingPointsFit(h.value);
    }
    var subs := DirectChildren(q, SubQuestion);
    forall i | 0 <= i < |subs|
      ensures SubQuestionOf(subs[i]).Ok?
    {
      DirectChildrenMembers(q, SubQuestion, subs[i]);
      ChildInPreorder(subs[i], q);
      PointsFitBelow(subs[i], q);
      SubQuestionSucceeds(subs[i]);
    }
    CollectSucceeds(SubQuestionOf, subs);
  }

  /** Extraction throws only when some text in the document holds a point value beyond the `int` range. */
  lemma ExamSucceeds(root: Element, examCode: string, subject: string, year: Int32, isSpringExam: bool)
    requires PointsFit(root)
    ensures ExamOf(root, examCode, subject, year, isSpringExam).Ok?
  {
    var qs := SelectAll(root, Level0Question);
    forall i | 0 <= i < |qs|
      ensures MainQuestionOf(qs[i]).Ok?
    {
      SelectAllMembers(root, Level0Question, qs[i]);
      PointsFitBelow(qs[i], root);
      MainQuestionSucceeds(qs[i]);
    }
    CollectSucceeds(MainQuestionOf, qs);
  }
}
