/**
  The parsed element tree the extractor works on, and the three ways the
  extractor selects elements from it: every match in document order
  (Jsoup's `select`), the first match in document order (`selectFirst`),
  and matching direct children only (`select("> ...")`).

  The tree builder itself (parsing markup into this tree) is not modelled.
  An element's `text` is the whitespace-normalised text content the tree
  library computes for it; the model takes that value as given.
*/
module Dom {
  import opened Wrappers

  datatype Element = Element(
    tag: string,                      // lower-case tag name, e.g. "h3"
    classes: set<string>,             // the class names of the element
    attributes: map<string, string>,  // lower-case attribute names to values
    text: string,                     // normalised text content of the subtree
    children: seq<Element>            // child elements, in document order
  )

  /** Attribute value, or "" when the attribute is absent. */
  function Attr(e: Element, name: string): string
  {
    if name in e.attributes then e.attributes[name] else ""
  }

  /** ASCII case folding, as `equalsIgnoreCase` does for the ASCII letters. */
  function LowerChar(c: char): char
  {
    if 'A' <= c <= 'Z' then (c as int - 'A' as int + 'a' as int) as char else c
  }

  /** `hasClass`: the element carries the class name, compared without regard to case. */
  predicate HasClass(e: Element, name: string)
  {
    exists c :: c in e.classes && SameIgnoringCase(c, name)
  }

  /** `equalsIgnoreCase`, for ASCII letters. */
  predicate SameIgnoringCase(a: string, b: string)
  {
    |a| == |b| && forall i :: 0 <= i < |a| ==> LowerChar(a[i]) == LowerChar(b[i])
  }

  /**
    A compound CSS selector of the shape the extractor uses: an optional tag
    name, a set of class names that must all be present (in any letter case),
    and an optional attribute that must be present (`h3.exam-question-title`,
    `.e-exam-question.e-level-0`, `span[lang]`).
  */
  datatype Selector = Selector(tag: Option<string>, classes: set<string>, attribute: Option<string>)

  predicate Matches(e: Element, s: Selector)
  {
    && (s.tag.Some? ==> e.tag == s.tag.value)
    && (forall c :: c in s.classes ==> HasClass(e, c))
    && (s.attribute.Some? ==> s.attribute.value in e.attributes)
  }

  /** The elements of `xs` that match `s`, in their order in `xs`. */
  function Filter(xs: seq<Element>, s: Selector): (r: seq<Element>)
    ensures |r| <= |xs|
  {
    if xs == [] then []
    else (if Matches(xs[0], s) then [xs[0]] else []) + Filter(xs[1..], s)
  }

  /** Filtering keeps exactly the matching elements. */
  lemma {:induction false} FilterMembers(xs: seq<Element>, s: Selector, x: Element)
    ensures x in Filter(xs, s) <==> x in xs && Matches(x, s)
  {
    if xs != [] {
      FilterMembers(xs[1..], s, x);
      assert xs == [xs[0]] + xs[1..];
    }
  }

  lemma FilterAll(xs: seq<Element>, s: Selector)
    ensures forall i :: 0 <= i < |Filter(xs, s)| ==> Filter(xs, s)[i] in xs && Matches(Filter(xs, s)[i], s)
  {
    forall i | 0 <= i < |Filter(xs, s)|
      ensures Filter(xs, s)[i] in xs && Matches(Filter(xs, s)[i], s)
    {
      FilterMembers(xs, s, Filter(xs, s)[i]);
    }
  }

  lemma {:induction false} FilterConcat(a: seq<Element>, b: seq<Element>, s: Selector)
    ensures Filter(a + b, s) == Filter(a, s) + Filter(b, s)
  {
    if a == [] {
      assert a + b == b;
    } else {
      assert (a + b)[1..] == a[1..] + b;
      FilterConcat(a[1..], b, s);
    }
  }

  /** Every element of the subtree rooted at `e`, in document (pre-)order, `e` first. */
  function Preorder(e: Element): seq<Element>
  {
    [e] + PreorderSeq(e.children)
  }

  function PreorderSeq(es: seq<Element>): seq<Element>
  {
    if es == [] then [] else Preorder(es[0]) + PreorderSeq(es[1..])
  }

  /** `select(query)`: all matches in the subtree, the context element included, in document order. */
  function SelectAll(e: Element, s: Selector): (r: seq<Element>)
    ensures Matches(e, s) ==> r != [] && r[0] == e
  {
    Filter(Preorder(e), s)
  }

  /**
    `selectFirst(query)`: a depth-first search of the subtree, the context
    element included, that stops at the first match.
  */
  function SelectFirst(e: Element, s: Selector): (r: Option<Element>)
    ensures r.Some? ==> Matches(r.value, s)
  {
    if Matches(e, s) then Some(e) else SelectFirstIn(e.children, s)
  }

  function SelectFirstIn(es: seq<Element>, s: Selector): (r: Option<Element>)
    ensures r.Some? ==> Matches(r.value, s)
  {
    if es == [] then None
    else
      match SelectFirst(es[0], s)
      case Some(x) => Some(x)
      case None => SelectFirstIn(es[1..], s)
  }

  /** `select("> query")`: the children of `e` that match, in child order. */
  function DirectChildren(e: Element, s: Selector): (r: seq<Element>)
    ensures |r| <= |e.children|
    ensures forall i :: 0 <= i < |r| ==> r[i] in e.children && Matches(r[i], s)
  {
    FilterAll(e.children, s);
    Filter(e.children, s)
  }

  /** `select` finds exactly the matching elements of the subtree, the context element included. */
  lemma SelectAllMembers(e: Element, s: Selector, x: Element)
    ensures x in SelectAll(e, s) <==> x in Preorder(e) && Matches(x, s)
  {
    FilterMembers(Preorder(e), s, x);
  }

  /**
    `select("> query")` finds exactly the matching children: an element that is
    not a child of `e` is never selected, however deep it matches below.
  */
  lemma DirectChildrenMembers(e: Element, s: Selector, x: Element)
    ensures x in DirectChildren(e, s) <==> x in e.children && Matches(x, s)
  {
    FilterMembers(e.children, s, x);
  }

  /** The text of an optional element, "" when it is absent. */
  function TextOf(x: Option<Element>): string
  {
    match x
    case Some(y) => y.text
    case None => ""
  }

  /** The text `selectFirst(...).text()` reads, "" without a match, is that of the first match in document order. */
  lemma TextOfSelectFirst(e: Element, s: Selector)
    ensures TextOf(SelectFirst(e, s)) == if SelectAll(e, s) == [] then "" else SelectAll(e, s)[0].text
  {
    SelectFirstIsFirstOfSelectAll(e, s);
  }

  function Head(xs: seq<Element>): Option<Element>
  {
    if xs == [] then None else Some(xs[0])
  }

  /** The depth-first search finds exactly the first element of the document-order match list. */
  lemma {:induction false} SelectFirstIsFirstOfSelectAll(e: Element, s: Selector)
    ensures SelectFirst(e, s) == Head(SelectAll(e, s))
  {
    FilterConcat([e], PreorderSeq(e.children), s);
    SelectFirstInIsFirst(e.children, s);
  }

  lemma {:induction false} SelectFirstInIsFirst(es: seq<Element>, s: Selector)
    ensures SelectFirstIn(es, s) == Head(Filter(PreorderSeq(es), s))
  {
    if es != [] {
      SelectFirstIsFirstOfSelectAll(es[0], s);
      SelectFirstInIsFirst(es[1..], s);
      FilterConcat(Preorder(es[0]), PreorderSeq(es[1..]), s);
    }
  }

  /** What the search finds lies in the searched subtree. */
  lemma {:induction false} SelectFirstWithin(e: Element, s: Selector)
    requires SelectFirst(e, s).Some?
    ensures SelectFirst(e, s).value in Preorder(e)
  {
    SelectFirstIsFirstOfSelectAll(e, s);
    SelectAllMembers(e, s, SelectFirst(e, s).value);
  }

  /** An element of a forest's pre-order lies in the subtree of one of its roots. */
  lemma {:induction false} InPreorderSeq(x: Element, es: seq<Element>)
    requires x in PreorderSeq(es)
    ensures exists i :: 0 <= i < |es| && x in Preorder(es[i])
  {
    if x !in Preorder(es[0]) {
      InPreorderSeq(x, es[1..]);
      var i :| 0 <= i < |es[1..]| && x in Preorder(es[1..][i]);
      assert x in Preorder(es[i + 1]);
    }
  }

  /** The subtree of a forest root is part of the forest's pre-order. */
  lemma {:induction false} PreorderSeqContains(x: Element, es: seq<Element>, i: int)
    requires 0 <= i < |es| && x in Preorder(es[i])
    ensures x in PreorderSeq(es)
  {
    if i > 0 {
      PreorderSeqContains(x, es[1..], i - 1);
    }
  }

  /** Descendant-or-self is transitive. */
  lemma {:induction false} PreorderTransitive(x: Element, y: Element, z: Element)
    requires x in Preorder(y) && y in Preorder(z)
    ensures x in Preorder(z)
  {
    if y != z {
      InPreorderSeq(y, z.children);
      var i :| 0 <= i < |z.children| && y in Preorder(z.children[i]);
      PreorderTransitive(x, y, z.children[i]);
      PreorderSeqContains(x, z.children, i);
    }
  }

  /** A direct child belongs to its parent's subtree. */
  lemma ChildInPreorder(c: Element, e: Element)
    requires c in e.children
    ensures c in Preorder(e)
  {
    var i :| 0 <= i < |e.children| && e.children[i] == c;
    PreorderSeqContains(c, e.children, i);
  }
}
