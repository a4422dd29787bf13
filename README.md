# yo-prep: exam-markup extractor and progress summary, modelled in Dafny

The model covers two pieces of the yo-prep exam-practice service.

The first is the extractor in `HtmlParserService`. It turns an exam page of
the YLE Abitreenit site into a JSON exam document. The document holds the
caller's metadata (`examCode`, `subject`, `year`, `isSpringExam`) and a
`questions` array. A question comes from each level-0 question element
(`.e-exam-question.e-level-0`) whose number resolves. Each question holds its
number, its title and total points when it has an `h3` heading, its
instruction text, and a `parts` array. A part comes from each direct
sub-question child (`> .e-exam-question.e-mrg-l-8`) whose number resolves.
Each part holds its number, and its text and points when it has an `h4`
heading. A number comes from `extractQuestionNumber`: a `data-toc-id` of the
form `question-<n>`, else an `id` of the form `question-nr-<n>`. Points come
from `extractPoints`: the first match of `(\d+)\s*p`, read with
`Integer.parseInt`, and 0 when nothing matches.

The second is the aggregation in `ProgressController.getProgress`. It groups
a user's submissions by the subject of the question answered. For each
subject it reports `totalAnswers` and `bestScore`, and for the user it
reports `totalSubmissions`.

Modules, following the program's structure:

- `Wrappers`: `Option`, standing for Java's nullable references.
- `Dom`: the element tree and the CSS selectors the extractor uses. Class
  names compare without regard to ASCII letter case, as `hasClass` does.
  Jsoup's `select` and `selectFirst` are pre-order searches of the subtree
  that include the context element; `select("> ...")` looks at the direct
  children only.
- `Json`: Jackson's tree model. An object is an ordered field list, and
  `put`/`set` are a LinkedHashMap put.
- `Points`: `extractPoints`. The regular expression is given a reference
  meaning (`MatchesAt`), and the search is proved to find its leftmost match.
- `QuestionNumbers`: `extractQuestionNumber`.
- `Extraction`: the records the extractor recovers (exam, question, part),
  as functions of the tree. The imperative code is proved against them.
- `Assembly`: the JSON layout of those records, with key order.
- `HtmlParserService`: `parseHtmlToJson`, `parseMainQuestion` and
  `parseSubQuestion` as methods. They build the objects `put` by `put` and
  grow the arrays in loops. Each is proved to produce exactly the `Assembly`
  JSON of the `Extraction` record.
- `ProgressController`: `getProgress` as functions over the submission list,
  with lemmas for its counting and maximum properties.

`Integer.parseInt` throws `NumberFormatException` on a digit run above
2147483647. Nothing in the service catches it, so it aborts the whole parse.
The model carries it as the error value `Parsed.NumberFormatError(digits)`,
which propagates out of every loop and method unchanged, and it is the only
error outcome the model has. `ExamSucceeds` proves that the parse succeeds
whenever no element's text holds a point marker beyond the `int` range.

Edge cases of the code that the model keeps as they are:

- A question without an `h3` heading gets no `title` and no `totalPoints`
  field; there are no defaults.
- A part without an `h4` heading gets no `text` and no `points` field.
- A number may be empty: `data-toc-id="question-"` gives the number "".
- `extractPoints` throws on an oversized digit run instead of returning a
  number.

## Model

| member | source | states |
|---|---|---|
| Dom.Matches | src/main/java/com/anteteno/yoprep/service/HtmlParserService.java:53 | an element matches a query when it has the query's tag, carries each of its classes regardless of letter case, and has its attribute |
| Dom.SelectAll | src/main/java/com/anteteno/yoprep/service/HtmlParserService.java:53 | a context element that matches is the first element `select` returns |
| Dom.DirectChildren | src/main/java/com/anteteno/yoprep/service/HtmlParserService.java:101 | `select("> ...")` returns no more elements than there are children, each of them a matching child |
| Dom.SelectFirst | src/main/java/com/anteteno/yoprep/service/HtmlParserService.java:78 | `selectFirst` finds only elements that match the query |
| Dom.SelectFirstIsFirstOfSelectAll | src/main/java/com/anteteno/yoprep/service/HtmlParserService.java:78-83 | the depth-first `selectFirst` yields exactly the first element of the document-order `select` list, or none when that list is empty |
| Dom.SelectFirstWithin | src/main/java/com/anteteno/yoprep/service/HtmlParserService.java:130-145 | what `selectFirst` finds lies in the searched subtree (self or a descendant) |
| Dom.SelectAllMembers | src/main/java/com/anteteno/yoprep/service/HtmlParserService.java:53 | `select` finds exactly the matching elements of the subtree, the context element included |
| Dom.DirectChildrenMembers | src/main/java/com/anteteno/yoprep/service/HtmlParserService.java:101 | `select("> ...")` finds exactly the matching children; deeper matches are never selected |
| Dom.FilterConcat | src/main/java/com/anteteno/yoprep/service/HtmlParserService.java:53 | selecting over a concatenation of element lists concatenates the selections, in order |
| Dom.TextOfSelectFirst | src/main/java/com/anteteno/yoprep/service/HtmlParserService.java:80-83 | the text read through `selectFirst(q) != null ? ....text() : ""` is the text of the first element of `select(q)` in document order, and "" when there is none |
| Dom.PreorderTransitive | src/main/java/com/anteteno/yoprep/service/HtmlParserService.java:53 | a descendant of a descendant is a descendant |
| Dom.ChildInPreorder | src/main/java/com/anteteno/yoprep/service/HtmlParserService.java:101 | a direct child lies in its parent's subtree |
| Json.Keys | src/main/java/com/anteteno/yoprep/service/HtmlParserService.java:43-47 | the key list has one key per field, in field order |
| Json.Lookup | src/main/java/com/anteteno/yoprep/service/HtmlParserService.java:43-47 | a key has a value exactly when it is among the object's keys |
| Json.Put | src/main/java/com/anteteno/yoprep/service/HtmlParserService.java:44-47 | `put` of a present key keeps the key order; `put` of a new key appends it to the key order |
| Json.PutLookup | src/main/java/com/anteteno/yoprep/service/HtmlParserService.java:44-47 | after `put`, the key maps to the new value and every other key maps to what it mapped to before |
| Json.PutNewKeyAppends | src/main/java/com/anteteno/yoprep/service/HtmlParserService.java:44-47 | `put` of a new key appends exactly one field at the end |
| Points.DecimalLeadingZero | src/main/java/com/anteteno/yoprep/service/HtmlParserService.java:176 | a leading zero does not change a digit run's value: "06" is read as 6 |
| Points.DecimalString | src/main/java/com/anteteno/yoprep/service/HtmlParserService.java:172 | a number's decimal notation is a non-empty digit string |
| Points.DecimalRoundTrip | src/main/java/com/anteteno/yoprep/service/HtmlParserService.java:176 | reading a number's decimal notation gives the number back |
| Points.ParseIntDecimalString | src/main/java/com/anteteno/yoprep/service/HtmlParserService.java:176 | `Integer.parseInt` reads back the decimal notation of every value up to 2147483647, and throws on the notation of every larger value, carrying those digits |
| Points.DigitRunEnd | src/main/java/com/anteteno/yoprep/service/HtmlParserService.java:173 | the greedy `\d+` consumes digits only and stops at the first non-digit or the end |
| Points.SpaceRunEnd | src/main/java/com/anteteno/yoprep/service/HtmlParserService.java:173 | the greedy `\s*` consumes ASCII whitespace only and stops at the first non-space or the end |
| Points.MatchIsGreedy | src/main/java/com/anteteno/yoprep/service/HtmlParserService.java:173 | a match of `(\d+)\s*p` at a position is unique: its group is the whole digit run and its spaces the whole whitespace run |
| Points.GreedyMatchIffMatch | src/main/java/com/anteteno/yoprep/service/HtmlParserService.java:173-175 | the greedy attempt at a position succeeds exactly when the pattern matches there, in both directions |
| Points.FindMarker | src/main/java/com/anteteno/yoprep/service/HtmlParserService.java:175 | a found match lies at or after the start position, with a non-empty group inside the text |
| Points.FindMarkerIsLeftmost | src/main/java/com/anteteno/yoprep/service/HtmlParserService.java:174-175 | `find` returns a real match with no match before it, and finds none only when there is no match at all |
| Points.ExtractPoints | src/main/java/com/anteteno/yoprep/service/HtmlParserService.java:169-180 | the points are never negative and fit a Java `int` |
| Points.ExtractPointsLeftmost | src/main/java/com/anteteno/yoprep/service/HtmlParserService.java:172-177 | the leftmost match decides the points: they are `parseInt` of its digit group, whatever follows |
| Points.ExtractPointsNoMatch | src/main/java/com/anteteno/yoprep/service/HtmlParserService.java:170-179 | text without a match, the empty text included, is worth 0 |
| Points.ExtractPointsRoundTrip | src/main/java/com/anteteno/yoprep/service/HtmlParserService.java:172-176 | every value up to 2147483647 written as "<n> p" is read back, whatever text follows |
| Points.ExtractPointsSkipsUnmarkedNumber | src/main/java/com/anteteno/yoprep/service/HtmlParserService.java:173-176 | a number not followed by `p` is skipped: "3 (12 p.)" is worth 12 |
| Points.ExtractPointsNoDigits | src/main/java/com/anteteno/yoprep/service/HtmlParserService.java:179 | a `p` without digits is no marker: "p." is worth 0 |
| QuestionNumbers.ExtractQuestionNumber | src/main/java/com/anteteno/yoprep/service/HtmlParserService.java:153-167 | a `data-toc-id` starting with "question-" wins and prefixing its result gives the attribute back; otherwise an `id` starting with "question-nr-" does the same; otherwise there is no number |
| QuestionNumbers.StartsWith | src/main/java/com/anteteno/yoprep/service/HtmlParserService.java:156-163 | `startsWith` holds exactly when the string is the prefix followed by the rest of the string |
| QuestionNumbers.StartsWithConcat | src/main/java/com/anteteno/yoprep/service/HtmlParserService.java:156-157 | `startsWith` holds for a prefixed string and `substring` strips exactly the prefix |
| QuestionNumbers.TocIdRoundTrip | src/main/java/com/anteteno/yoprep/service/HtmlParserService.java:155-158 | a `data-toc-id` "question-<n>" resolves to exactly <n>, whatever the `id` |
| QuestionNumbers.IdRoundTrip | src/main/java/com/anteteno/yoprep/service/HtmlParserService.java:161-164 | without a usable `data-toc-id`, an `id` "question-nr-<n>" resolves to exactly <n> |
| QuestionNumbers.TocIdIsNotReparsed | src/main/java/com/anteteno/yoprep/service/HtmlParserService.java:156-157 | the toc prefix is stripped once: `data-toc-id` "question-nr-3" gives "nr-3" |
| QuestionNumbers.NoAttributesNoNumber | src/main/java/com/anteteno/yoprep/service/HtmlParserService.java:155-166 | an element with neither attribute has no number: `attr` and `id()` read "" for an absent attribute, which starts with neither prefix |
| Extraction.Collect | src/main/java/com/anteteno/yoprep/service/HtmlParserService.java:55-60 | the loop yields at most one record per candidate element |
| Extraction.Resolved | src/main/java/com/anteteno/yoprep/service/HtmlParserService.java:72-73 | at most one number per element |
| Extraction.PartText | src/main/java/com/anteteno/yoprep/service/HtmlParserService.java:132-139 | a part's text begins with its first `span[lang]` text ("" without one); it is that text alone exactly when there is no screen-reader element, and otherwise continues with a space and the screen-reader text |
| Extraction.ScoreClassIgnoresCase | src/main/java/com/anteteno/yoprep/service/HtmlParserService.java:144-146 | a score element with class `E-Score` and text "6 p." gives 6 points, since the class compares regardless of case |
| Extraction.HeadingPoints | src/main/java/com/anteteno/yoprep/service/HtmlParserService.java:82-84 | a heading without an `.e-score` element is worth 0 points |
| Extraction.SubQuestionOf | src/main/java/com/anteteno/yoprep/service/HtmlParserService.java:120-151 | a sub-question has no part (null) exactly when its number does not resolve; a part carries that number; it has heading fields exactly when the element has an `h4` title |
| Extraction.QuestionHeadingOf | src/main/java/com/anteteno/yoprep/service/HtmlParserService.java:78-88 | title and total points are present exactly when the question has an `h3` title |
| Extraction.MainQuestionOf | src/main/java/com/anteteno/yoprep/service/HtmlParserService.java:68-118 | a level-0 element has no question (null) exactly when its number does not resolve; a question carries that number and the instruction text, "" when there is none |
| Extraction.ExamOf | src/main/java/com/anteteno/yoprep/service/HtmlParserService.java:37-62 | the exam echoes the caller's code, subject, year and season unchanged |
| Extraction.CollectAppend | src/main/java/com/anteteno/yoprep/service/HtmlParserService.java:55-60 | the loop over two lists in sequence: the first exception wins, otherwise the records concatenate |
| Extraction.CollectDropsNothing | src/main/java/com/anteteno/yoprep/service/HtmlParserService.java:57-59 | an element yielding null can be removed without changing the outcome for the others |
| Extraction.CollectNumbers | src/main/java/com/anteteno/yoprep/service/HtmlParserService.java:55-60 | when records exist exactly for numbered elements and carry the number, the loop's records carry exactly the resolved numbers, in order |
| Extraction.CollectOrigin | src/main/java/com/anteteno/yoprep/service/HtmlParserService.java:55-60 | every record comes from one of the candidate elements |
| Extraction.CollectSucceeds | src/main/java/com/anteteno/yoprep/service/HtmlParserService.java:55-60 | the loop throws only if some element's extraction throws |
| Extraction.QuestionsAreNumberedLevel0Elements | src/main/java/com/anteteno/yoprep/service/HtmlParserService.java:53-60 | the questions are exactly the level-0 elements whose number resolves, in document order, carrying those numbers |
| Extraction.PartsAreNumberedDirectChildren | src/main/java/com/anteteno/yoprep/service/HtmlParserService.java:101-108 | the parts are exactly the direct sub-question children whose number resolves, in child order, carrying those numbers |
| Extraction.PartsComeFromDirectChildren | src/main/java/com/anteteno/yoprep/service/HtmlParserService.java:101 | every part is extracted from a direct child with the sub-question classes |
| Extraction.UnnumberedSubQuestionDropped | src/main/java/com/anteteno/yoprep/service/HtmlParserService.java:104-107 | an unnumbered sub-question is dropped and leaves its siblings' parts unchanged |
| Extraction.UnnumberedQuestionDropped | src/main/java/com/anteteno/yoprep/service/HtmlParserService.java:56-59 | an unnumbered level-0 element is dropped and leaves the other questions unchanged |
| Extraction.PartHeadingFields | src/main/java/com/anteteno/yoprep/service/HtmlParserService.java:130-147 | a part's text and points come from the first `h4` title in document order: its first `span[lang]` text (or ""), then a space and its first screen-reader text when present; points from its first `.e-score`, 0 without one |
| Extraction.QuestionHeadingFields | src/main/java/com/anteteno/yoprep/service/HtmlParserService.java:78-87 | a question's title and total points come from the first `h3` title in document order: its first `span[lang]` text (or ""), points from its first `.e-score`, 0 without one |
| Extraction.PointsFitBelow | src/main/java/com/anteteno/yoprep/service/HtmlParserService.java:176 | the no-oversized-number condition of a subtree holds for every subtree inside it |
| Extraction.HeadingPointsFit | src/main/java/com/anteteno/yoprep/service/HtmlParserService.java:82-84 | a heading whose subtree holds no oversized number never throws |
| Extraction.SubQuestionSucceeds | src/main/java/com/anteteno/yoprep/service/HtmlParserService.java:144-146 | a sub-question whose subtree holds no oversized number never throws |
| Extraction.MainQuestionSucceeds | src/main/java/com/anteteno/yoprep/service/HtmlParserService.java:82-108 | a question whose subtree holds no oversized number never throws, through its heading or its parts |
| Extraction.ExamSucceeds | src/main/java/com/anteteno/yoprep/service/HtmlParserService.java:53-60 | the parse throws only when some element's text holds a point value beyond the `int` range |
| Assembly.PartJson | src/main/java/com/anteteno/yoprep/service/HtmlParserService.java:127-147 | a part object has keys partNumber, text, points in that order with a heading, and partNumber alone without |
| Assembly.PartsJson | src/main/java/com/anteteno/yoprep/service/HtmlParserService.java:100-108 | the parts array has one object per part, in order |
| Assembly.QuestionBodyJson | src/main/java/com/anteteno/yoprep/service/HtmlParserService.java:95-97 | `questionJson` has keys text, type, parts in that order |
| Assembly.QuestionJson | src/main/java/com/anteteno/yoprep/service/HtmlParserService.java:69-117 | a question object has keys questionNumber, title, totalPoints, questionJson, hvpJson with a heading, and questionNumber, questionJson, hvpJson without |
| Assembly.QuestionsJson | src/main/java/com/anteteno/yoprep/service/HtmlParserService.java:50-60 | the questions array has one object per question, in order |
| Assembly.QuestionsJsonAppend | src/main/java/com/anteteno/yoprep/service/HtmlParserService.java:58 | `questionsArray.add` of one more question object extends the array by exactly that object |
| Assembly.ExamJson | src/main/java/com/anteteno/yoprep/service/HtmlParserService.java:43-62 | the root object has keys examCode, subject, year, isSpringExam, questions in that order |
| HtmlParserService.CollectStopsAt | src/main/java/com/anteteno/yoprep/service/HtmlParserService.java:55-60 | an exception at one element ends the loop with that exception |
| HtmlParserService.CollectThrowsInPrefix | src/main/java/com/anteteno/yoprep/service/HtmlParserService.java:55-60 | once the loop has thrown on a prefix of the elements, the remaining elements change nothing |
| HtmlParserService.CollectThrowsAt | src/main/java/com/anteteno/yoprep/service/HtmlParserService.java:56 | an exception at one element is the outcome of the loop up to it |
| HtmlParserService.CollectStep | src/main/java/com/anteteno/yoprep/service/HtmlParserService.java:56-59 | one more element without an exception appends its record, or nothing when it yields null |
| HtmlParserService.SubQuestionWithoutHeading | src/main/java/com/anteteno/yoprep/service/HtmlParserService.java:127-131 | a numbered sub-question without a heading gives the object holding partNumber alone |
| HtmlParserService.SubQuestionWithHeading | src/main/java/com/anteteno/yoprep/service/HtmlParserService.java:127-150 | a numbered sub-question with a heading gives partNumber, text, points in that order |
| HtmlParserService.SubQuestionThrows | src/main/java/com/anteteno/yoprep/service/HtmlParserService.java:144-146 | an oversized marker in the heading's score makes the part throw |
| HtmlParserService.ParseSubQuestion | src/main/java/com/anteteno/yoprep/service/HtmlParserService.java:120-151 | the object built `put` by `put` (`questionText +=` included) is exactly the JSON of `SubQuestionOf`, null and exception included |
| HtmlParserService.HeadFields | src/main/java/com/anteteno/yoprep/service/HtmlParserService.java:75-87 | the keys `parseMainQuestion` puts first are questionNumber, then title and totalPoints only with a heading |
| HtmlParserService.HeadPuts | src/main/java/com/anteteno/yoprep/service/HtmlParserService.java:75-87 | the three `put`s of a numbered heading insert three fields, in order |
| HtmlParserService.BodyPuts | src/main/java/com/anteteno/yoprep/service/HtmlParserService.java:95-110 | the `put`s and `set` of `questionJson` insert text, type, parts, in order |
| HtmlParserService.TailPuts | src/main/java/com/anteteno/yoprep/service/HtmlParserService.java:111-115 | the last two `set`s append questionJson and an empty hvpJson after the head fields |
| HtmlParserService.MainQuestionHeadingThrows | src/main/java/com/anteteno/yoprep/service/HtmlParserService.java:82-84 | an oversized marker in the heading's score makes the question throw |
| HtmlParserService.MainQuestionPartsThrow | src/main/java/com/anteteno/yoprep/service/HtmlParserService.java:103-108 | an exception in a part makes the question throw with the same digits |
| HtmlParserService.MainQuestionBuilt | src/main/java/com/anteteno/yoprep/service/HtmlParserService.java:68-118 | a numbered question's JSON is its head fields, then questionJson (instruction, "multi_part", parts) and an empty hvpJson |
| HtmlParserService.ParseSubQuestions | src/main/java/com/anteteno/yoprep/service/HtmlParserService.java:100-108 | the loop's array is exactly the JSON of the collected parts, and an exception in it is passed through |
| HtmlParserService.ParseMainQuestion | src/main/java/com/anteteno/yoprep/service/HtmlParserService.java:68-118 | the object built `put` by `put` is exactly the JSON of `MainQuestionOf`, null and exception included |
| HtmlParserService.ParseMainQuestions | src/main/java/com/anteteno/yoprep/service/HtmlParserService.java:50-60 | the loop's array is exactly the JSON of the collected questions, and an exception in it is passed through |
| HtmlParserService.ExamPuts | src/main/java/com/anteteno/yoprep/service/HtmlParserService.java:43-62 | the five `put`/`set` calls on the root insert five fields, in order |
| HtmlParserService.ExamBuilt | src/main/java/com/anteteno/yoprep/service/HtmlParserService.java:53-62 | when the loop succeeds the exam holds its records and the caller's metadata |
| HtmlParserService.ParseHtmlToJson | src/main/java/com/anteteno/yoprep/service/HtmlParserService.java:37-62 | the JSON built is exactly the JSON of `ExamOf` for the tree and metadata, or its exception |
| ProgressController.SubjectsOf | src/main/java/com/anteteno/yoprep/controller/ProgressController.java:24 | one subject per submission, in list order |
| ProgressController.Subjects | src/main/java/com/anteteno/yoprep/controller/ProgressController.java:23-24 | there are no more groups than submissions |
| ProgressController.Group | src/main/java/com/anteteno/yoprep/controller/ProgressController.java:23-24 | a group is no larger than the submission list |
| ProgressController.Scores | src/main/java/com/anteteno/yoprep/controller/ProgressController.java:35-36 | a group has at most one non-null score per submission |
| ProgressController.MaxOrZero | src/main/java/com/anteteno/yoprep/controller/ProgressController.java:36-38 | `max().orElse(0)` is 0 for no scores, and otherwise one of the scores and at least every score |
| ProgressController.Stats | src/main/java/com/anteteno/yoprep/controller/ProgressController.java:27-45 | an entry carries its group's subject, and its `totalAnswers` is the number of submissions with that subject |
| ProgressController.StatsOf | src/main/java/com/anteteno/yoprep/controller/ProgressController.java:26-47 | one stats entry per group key, in key order |
| ProgressController.GetProgress | src/main/java/com/anteteno/yoprep/controller/ProgressController.java:49-52 | `userId` is echoed, `totalSubmissions` is the number of submissions, and there is one entry per group |
| ProgressController.SubjectsComplete | src/main/java/com/anteteno/yoprep/controller/ProgressController.java:23-24 | a subject is a group key exactly when some submission has it |
| ProgressController.SubjectsDistinct | src/main/java/com/anteteno/yoprep/controller/ProgressController.java:23-24 | no subject is a group key twice |
| ProgressController.OneEntryPerSubject | src/main/java/com/anteteno/yoprep/controller/ProgressController.java:23-26 | each subject that occurs has an entry, no subject has two, and every entry's subject occurs |
| ProgressController.GroupSize | src/main/java/com/anteteno/yoprep/controller/ProgressController.java:23-28 | a group's size is the number of submissions with its subject |
| ProgressController.TotalAnswersCounts | src/main/java/com/anteteno/yoprep/controller/ProgressController.java:28-42 | an entry's `totalAnswers` counts every submission with its subject, null scores included, and is at least 1 |
| ProgressController.TotalAnswersSum | src/main/java/com/anteteno/yoprep/controller/ProgressController.java:23-51 | the `totalAnswers` over all entries sum to `totalSubmissions` |
| ProgressController.BestScoreIsMax | src/main/java/com/anteteno/yoprep/controller/ProgressController.java:34-38 | `bestScore` is at least every non-null score of its subject and equals one of them; it is 0 when the subject has no non-null score |

## Left out

- Reading the file and building the tree (`Jsoup.parse`, HtmlParserService.java:39-40) are I/O through a foreign library. The model takes the tree as its input.
- An element's `text()` is Jsoup's whitespace-normalised text of the subtree. The model takes it as a given field of the element and does not relate it to the children.
- Pretty-printing the root object to a string (HtmlParserService.java:65) is a foreign serializer. `ParseHtmlToJson` returns the JSON value.
- `parseAndSaveQuestions` (HtmlParserService.java:182-206) is unfinished glue: it re-reads the JSON, saves nothing and returns null.
- Selectors are modelled for the queries the extractor uses: tag, classes and attribute presence. General CSS is not modelled.
- Dom.Matches: class names compare with ASCII case folding only. Java's `equalsIgnoreCase` also folds non-ASCII letters, which the model does not capture; every class name the extractor queries is ASCII.
- Element identity: Jsoup elements are objects, while the model's elements are values. Two structurally equal subtrees are indistinguishable in the model. No property above depends on identity.
- Jackson nodes are mutable objects. Each one is local to one call and is never changed after it is attached to its parent, so the model builds them as values that the methods reassign.
- The exception the extractor can throw is the only error outcome modelled. I/O errors are outside the modelled part.
- ProgressController.GetProgress: the model lists the groups in order of first occurrence. Java's `groupingBy` uses a `HashMap`, whose order is unspecified. Every lemma about the entries holds for any order.
- `averageScore` (ProgressController.java:29-33, 43) is double arithmetic with `Math.round`, i.e. floating point.
- Loading the submissions (`submissionService.getByUserId`, ProgressController.java:21) is a repository call. The model takes the list as input.
- A submission whose question has a null subject makes `groupingBy` throw, since it refuses a null key. The model's subjects are never null.
- `aiScore` is a Java `Integer`. The model uses an unbounded integer: the maximum of 32-bit values is itself a 32-bit value, so nothing wraps.
