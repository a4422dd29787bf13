/**
  The JSON layout of an extracted exam: the key names and the field order
  in which the extractor inserts them.
*/
module Assembly {
  import opened Wrappers
  import opened Points
  import opened Json
  import opened Extraction

  function PartJson(p: Part): (j: Json)
    ensures j.JObject?
    ensures Keys(j.fields) == if p.heading.Some? then ["partNumber", "text", "points"] else ["partNumber"]
  {
    JObject(
      [Field("partNumber", JString(p.partNumber))] +
      match p.heading
      case Some(h) => [Field("text", JString(h.text)), Field("points", JInt(h.points))]
      case None => [])
  }

  function PartsJson(ps: seq<Part>): (js: seq<Json>)
    ensures |js| == |ps|
    ensures forall i :: 0 <= i < |ps| ==> js[i] == PartJson(ps[i])
  {
    if ps == [] then [] else PartsJson(ps[..|ps| - 1]) + [PartJson(ps[|ps| - 1])]
  }

  /** The nested `questionJson` object: instruction text, the fixed type, the parts. */
  function QuestionBodyJson(q: Question): (j: Json)
    ensures j.JObject? && Keys(j.fields) == ["text", "type", "parts"]
  {
    JObject([
      Field("text", JString(q.instruction)),
      Field("type", JString("multi_part")),
      Field("parts", JArray(PartsJson(q.parts)))])
  }

  function QuestionJson(q: Question): (j: Json)
    ensures j.JObject?
    ensures Keys(j.fields) ==
              if q.heading.Some? then ["questionNumber", "title", "totalPoints", "questionJson", "hvpJson"]
              else ["questionNumber", "questionJson", "hvpJson"]
  {
    JObject(
      [Field("questionNumber", JString(q.questionNumber))] +
      (match q.heading
       case Some(h) => [Field("title", JString(h.title)), Field("totalPoints", JInt(h.totalPoints))]
       case None => []) +
      [Field("questionJson", QuestionBodyJson(q)), Field("hvpJson", JObject([]))])
  }

  function QuestionsJson(qs: seq<Question>): (js: seq<Json>)
    ensures |js| == |qs|
    ensures forall i :: 0 <= i < |qs| ==> js[i] == QuestionJson(qs[i])
  {
    seq(|qs|, i requires 0 <= i < |qs| => QuestionJson(qs[i]))
  }

  /** One more question appends its object to the array. */
  lemma QuestionsJsonAppend(qs: seq<Question>, q: Question)
    ensures QuestionsJson(qs + [q]) == QuestionsJson(qs) + [QuestionJson(q)]
  {
    var l, r := QuestionsJson(qs + [q]), QuestionsJson(qs) + [QuestionJson(q)];
    assert |l| == |r|;
    forall i | 0 <= i < |l|
      ensures l[i] == r[i]
    {
      if i < |qs| {
        assert (qs + [q])[i] == qs[i];
      }
    }
  }

  function ExamJson(e: Exam): (j: Json)
    ensures j.JObject? && Keys(j.fields) == ["examCode", "subject", "year", "isSpringExam", "questions"]
  {
    JObject([
      Field("examCode", JString(e.examCode)),
      Field("subject", JString(e.subject)),
      Field("year", JInt(e.year)),
      Field("isSpringExam", JBool(e.isSpringExam)),
      Field("questions", JArray(QuestionsJson(e.questions)))])
  }

  /** A record that may be absent (null) or may not have been built (an exception), rendered as JSON. */
  function OptionalJson<T>(r: Parsed<Option<T>>, toJson: T -> Json): Parsed<Option<Json>>
  {
    match r
    case NumberFormatError(d) => NumberFormatError(d)
    case Ok(None) => Ok(None)
    case Ok(Some(x)) => Ok(Some(toJson(x)))
  }
}
