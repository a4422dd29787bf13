/**
  Resolving the number of a question or part element, as
  `extractQuestionNumber` does: a `data-toc-id` of the form
  "question-<n>" wins, otherwise an `id` of the form "question-nr-<n>",
  otherwise the element has no number. Both levels use the same rule.
*/
module QuestionNumbers {
  import opened Wrappers
  import opened Dom

  const TocIdAttribute := "data-toc-id"
  const TocPrefix := "question-"
  const IdAttribute := "id"   // `element.id()`
  const IdPrefix := "question-nr-"

  /** Java's `String.startsWith`. */
  function StartsWith(s: string, prefix: string): (b: bool)
    ensures b <==> |prefix| <= |s| && s == prefix + s[|prefix|..]
  {
    if |prefix| <= |s| then
      assert s == s[..|prefix|] + s[|prefix|..];
      s[..|prefix|] == prefix
    else false
  }

  function ExtractQuestionNumber(e: Element): (r: Option<string>)
    ensures StartsWith(Attr(e, TocIdAttribute), TocPrefix) ==>
              r.Some? && TocPrefix + r.value == Attr(e, TocIdAttribute)
    ensures !StartsWith(Attr(e, TocIdAttribute), TocPrefix) && StartsWith(Attr(e, IdAttribute), IdPrefix) ==>
              r.Some? && IdPrefix + r.value == Attr(e, IdAttribute)
    ensures !StartsWith(Attr(e, TocIdAttribute), TocPrefix) && !StartsWith(Attr(e, IdAttribute), IdPrefix) ==>
              r.None?
  {
    var tocId := Attr(e, TocIdAttribute);
    if tocId != "" && StartsWith(tocId, TocPrefix) then
      Some(tocId[|TocPrefix|..])
    else if StartsWith(Attr(e, IdAttribute), IdPrefix) then
      Some(Attr(e, IdAttribute)[|IdPrefix|..])
    else
      None
  }

  /** Stripping a prefix undoes prepending it. */
  lemma StartsWithConcat(prefix: string, s: string)
    ensures StartsWith(prefix + s, prefix) && (prefix + s)[|prefix|..] == s
  {
    assert (prefix + s)[..|prefix|] == prefix;
  }

  /** A table-of-contents id "question-<n>" resolves to exactly <n>, whatever the element id says. */
  lemma {:induction false} TocIdRoundTrip(e: Element, n: string)
    requires Attr(e, TocIdAttribute) == TocPrefix + n
    ensures ExtractQuestionNumber(e) == Some(n)
  {
    StartsWithConcat(TocPrefix, n);
  }

  /** Without a usable table-of-contents id, an element id "question-nr-<n>" resolves to exactly <n>. */
  lemma {:induction false} IdRoundTrip(e: Element, n: string)
    requires !StartsWith(Attr(e, TocIdAttribute), TocPrefix)
    requires Attr(e, IdAttribute) == IdPrefix + n
    ensures ExtractQuestionNumber(e) == Some(n)
  {
    StartsWithConcat(IdPrefix, n);
  }

  /**
    The two prefixes are checked independently, so a table-of-contents id
    written in the element-id convention keeps its "nr-": "question-nr-3" gives "nr-3".
  */
  lemma TocIdIsNotReparsed(e: Element)
    requires Attr(e, TocIdAttribute) == "question-nr-3"
    ensures ExtractQuestionNumber(e) == Some("nr-3")
  {
    TocIdRoundTrip(e, "nr-3");
  }

  /** An element with neither attribute (both read as "") has no number. */
  lemma NoAttributesNoNumber(e: Element)
    requires TocIdAttribute !in e.attributes && IdAttribute !in e.attributes
    ensures ExtractQuestionNumber(e) == None
  {
  }
}
