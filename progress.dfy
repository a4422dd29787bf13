/**
  The per-user progress summary: the user's submissions grouped by the
  subject of the question answered, with the number of answers and the best
  AI score of each group, and the number of submissions overall.

  `groupingBy` collects into a hash map whose iteration order is not
  specified; the model lists the groups in order of first occurrence, and
  every property below holds whatever the order.
*/
module ProgressController {
  import opened Wrappers

  /** The two fields of a submission the summary reads: its question's subject and its (nullable) score. */
  datatype Submission = Submission(subject: string, aiScore: Option<int>)

  datatype SubjectStats = SubjectStats(subject: string, totalAnswers: nat, bestScore: int)

  datatype Progress = Progress(userId: int, totalSubmissions: nat, subjects: seq<SubjectStats>)

  /** The subject of every submission, in list order (with repetitions). */
  function SubjectsOf(subs: seq<Submission>): (ss: seq<string>)
    ensures |ss| == |subs|
    ensures forall k :: 0 <= k < |subs| ==> ss[k] == subs[k].subject
  {
    if subs == [] then [] else SubjectsOf(subs[..|subs| - 1]) + [subs[|subs| - 1].subject]
  }

  /** The keys of the grouping: each subject once, in order of first occurrence. */
  function Subjects(subs: seq<Submission>): (ss: seq<string>)
    ensures |ss| <= |subs|
  {
    if subs == [] then []
    else
      var earlier := Subjects(subs[..|subs| - 1]);
      if subs[|subs| - 1].subject in earlier then earlier else earlier + [subs[|subs| - 1].subject]
  }

  /** The group of one subject: its submissions, in list order. */
  function Group(subs: seq<Submission>, subject: string): (g: seq<Submission>)
    ensures |g| <= |subs|
  {
    if subs == [] then []
    else
      var earlier := Group(subs[..|subs| - 1], subject);
      if subs[|subs| - 1].subject == subject then earlier + [subs[|subs| - 1]] else earlier
  }

  /** The non-null scores of a group, in order. */
  function Scores(group: seq<Submission>): (xs: seq<int>)
    ensures |xs| <= |group|
  {
    if group == [] then []
    else
      var earlier := Scores(group[..|group| - 1]);
      match group[|group| - 1].aiScore
      case Some(x) => earlier + [x]
      case None => earlier
  }

  /** `max().orElse(0)`: the largest element, or 0 for an empty stream. */
  function MaxOrZero(xs: seq<int>): (m: int)
    ensures xs == [] ==> m == 0
    ensures xs != [] ==> m in xs
    ensures forall k :: 0 <= k < |xs| ==> xs[k] <= m
  {
    if xs == [] then 0
    else if |xs| == 1 then xs[0]
    else
      var rest := MaxOrZero(xs[..|xs| - 1]);
      if xs[|xs| - 1] > rest then xs[|xs| - 1] else rest
  }

  /** The entry of one group: its subject, the number of its submissions, its best score. */
  function Stats(subs: seq<Submission>, subject: string): (st: SubjectStats)
    ensures st.subject == subject
    ensures st.totalAnswers == multiset(SubjectsOf(subs))[subject]
  {
    GroupSize(subs, subject);
    var group := Group(subs, subject);
    SubjectStats(subject, |group|, MaxOrZero(Scores(group)))
  }

  /** One stats entry per grouping key, in the keys' order. */
  function StatsOf(subs: seq<Submission>, subjects: seq<string>): (stats: seq<SubjectStats>)
    ensures |stats| == |subjects|
    ensures forall i :: 0 <= i < |subjects| ==> stats[i] == Stats(subs, subjects[i])
  {
    if subjects == [] then []
    else StatsOf(subs, subjects[..|subjects| - 1]) + [Stats(subs, subjects[|subjects| - 1])]
  }

  /** `getProgress`, for the submissions the service returned for `userId`. */
  function GetProgress(userId: int, subs: seq<Submission>): (p: Progress)
    ensures p.userId == userId && p.totalSubmissions == |subs|
    ensures |p.subjects| == |Subjects(subs)|
  {
    Progress(userId, |subs|, StatsOf(subs, Subjects(subs)))
  }

  // ---------------------------------------------------------------------
  // The grouping keys: complete and without repetition

  lemma {:induction false} SubjectsComplete(subs: seq<Submission>, s: string)
    ensures s in Subjects(subs) <==> s in SubjectsOf(subs)
  {
    if subs != [] {
      SubjectsComplete(subs[..|subs| - 1], s);
    }
  }

  lemma {:induction false} SubjectsDistinct(subs: seq<Submission>)
    ensures forall i, j :: 0 <= i < j < |Subjects(subs)| ==> Subjects(subs)[i] != Subjects(subs)[j]
  {
    if subs != [] {
      SubjectsDistinct(subs[..|subs| - 1]);
    }
  }

  /** Each subject that occurs has exactly one stats entry, and every entry's subject occurs. */
  lemma OneEntryPerSubject(userId: int, subs: seq<Submission>, s: string)
    ensures var entries := GetProgress(userId, subs).subjects;
            (s in SubjectsOf(subs) ==> exists i :: 0 <= i < |entries| && entries[i].subject == s) &&
            (forall i, j :: 0 <= i < |entries| && 0 <= j < |entries| && entries[i].subject == s && entries[j].subject == s ==> i == j) &&
            (forall i :: 0 <= i < |entries| && entries[i].subject == s ==> s in SubjectsOf(subs))
  {
    var keys := Subjects(subs);
    var entries := GetProgress(userId, subs).subjects;
    SubjectsComplete(subs, s);
    SubjectsDistinct(subs);
    if s in SubjectsOf(subs) {
      var i :| 0 <= i < |keys| && keys[i] == s;
      assert entries[i].subject == s;
    }
    forall i, j | 0 <= i < |entries| && 0 <= j < |entries| && entries[i].subject == s && entries[j].subject == s
      ensures i == j
    {
      assert keys[i] == s && keys[j] == s;
    }
    forall i | 0 <= i < |entries| && entries[i].subject == s
      ensures s in SubjectsOf(subs)
    {
      assert keys[i] == s;
    }
  }

  // ---------------------------------------------------------------------
  // totalAnswers: the multiplicity of the subject, at least one, summing to the whole

  lemma {:induction false} GroupSize(subs: seq<Submission>, s: string)
    ensures |Group(subs, s)| == multiset(SubjectsOf(subs))[s]
  {
    if subs != [] {
      var init := subs[..|subs| - 1];
      GroupSize(init, s);
      assert SubjectsOf(subs) == SubjectsOf(init) + [subs[|subs| - 1].subject];
    }
  }

  /**
    An entry's `totalAnswers` is the number of submissions with its subject,
    null scores included, and is at least one.
  */
  lemma TotalAnswersCounts(userId: int, subs: seq<Submission>, i: int)
    requires 0 <= i < |GetProgress(userId, subs).subjects|
    ensures var e := GetProgress(userId, subs).subjects[i];
            e.totalAnswers == multiset(SubjectsOf(subs))[e.subject] && e.totalAnswers >= 1
  {
    var e := GetProgress(userId, subs).subjects[i];
    GroupSize(subs, e.subject);
    assert Subjects(subs)[i] == e.subject;
    SubjectsComplete(subs, e.subject);
  }

  function SumTotals(stats: seq<SubjectStats>): nat
  {
    if stats == [] then 0 else SumTotals(stats[..|stats| - 1]) + stats[|stats| - 1].totalAnswers
  }

  /** How many of `keys` are `s`. */
  function Occurrences(keys: seq<string>, s: string): nat
  {
    if keys == [] then 0 else Occurrences(keys[..|keys| - 1], s) + (if keys[|keys| - 1] == s then 1 else 0)
  }

  lemma {:induction false} OccursOnce(keys: seq<string>, s: string)
    requires forall i, j :: 0 <= i < j < |keys| ==> keys[i] != keys[j]
    requires s in keys
    ensures Occurrences(keys, s) == 1
  {
    var init := keys[..|keys| - 1];
    if keys[|keys| - 1] == s {
      OccursNot(init, s);
    } else {
      assert s in init;
      OccursOnce(init, s);
    }
  }

  lemma {:induction false} OccursNot(keys: seq<string>, s: string)
    requires s !in keys
    ensures Occurrences(keys, s) == 0
  {
    if keys != [] {
      OccursNot(keys[..|keys| - 1], s);
    }
  }

  /** One more submission adds, to the sum over `keys`, one for each key equal to its subject. */
  lemma {:induction false} SumTotalsStep(subs: seq<Submission>, keys: seq<string>)
    requires subs != []
    ensures var init := subs[..|subs| - 1];
            SumTotals(StatsOf(subs, keys)) ==
            SumTotals(StatsOf(init, keys)) + Occurrences(keys, subs[|subs| - 1].subject)
  {
    if keys != [] {
      var init := subs[..|subs| - 1];
      var ks := keys[..|keys| - 1];
      SumTotalsStep(subs, ks);
      assert StatsOf(subs, keys)[..|keys| - 1] == StatsOf(subs, ks);
      assert StatsOf(init, keys)[..|keys| - 1] == StatsOf(init, ks);
    }
  }

  /** Over grouping keys that cover every subject once, the totals add up to the number of submissions. */
  lemma {:induction false} SumTotalsCovering(subs: seq<Submission>, keys: seq<string>)
    requires forall i, j :: 0 <= i < j < |keys| ==> keys[i] != keys[j]
    requires forall k :: 0 <= k < |subs| ==> subs[k].subject in keys
    ensures SumTotals(StatsOf(subs, keys)) == |subs|
  {
    if subs == [] {
      SumTotalsEmpty(keys);
    } else {
      var init := subs[..|subs| - 1];
      SumTotalsCovering(init, keys);
      SumTotalsStep(subs, keys);
      OccursOnce(keys, subs[|subs| - 1].subject);
    }
  }

  lemma {:induction false} SumTotalsEmpty(keys: seq<string>)
    ensures SumTotals(StatsOf([], keys)) == 0
  {
    if keys != [] {
      SumTotalsEmpty(keys[..|keys| - 1]);
      assert StatsOf([], keys)[..|keys| - 1] == StatsOf([], keys[..|keys| - 1]);
    }
  }

  /** The `totalAnswers` of all entries sum to `totalSubmissions`. */
  lemma TotalAnswersSum(userId: int, subs: seq<Submission>)
    ensures SumTotals(GetProgress(userId, subs).subjects) == GetProgress(userId, subs).totalSubmissions
  {
    SubjectsDistinct(subs);
    forall k | 0 <= k < |subs|
      ensures subs[k].subject in Subjects(subs)
    {
      SubjectsComplete(subs, subs[k].subject);
    }
    SumTotalsCovering(subs, Subjects(subs));
  }

  // ---------------------------------------------------------------------
  // bestScore: the largest non-null score of the group, or 0

  lemma {:induction false} GroupMembers(subs: seq<Submission>, s: string, x: Submission)
    ensures x in Group(subs, s) <==> x in subs && x.subject == s
  {
    if subs != [] {
      GroupMembers(subs[..|subs| - 1], s, x);
    }
  }

  lemma {:induction false} ScoresMembers(group: seq<Submission>, x: int)
    ensures x in Scores(group) <==> HasScore(group, x)
  {
    if group != [] {
      ScoresMembers(group[..|group| - 1], x);
    }
  }

  /** Some submission of `group` carries the non-null score `x`. */
  predicate HasScore(group: seq<Submission>, x: int)
  {
    exists k :: 0 <= k < |group| && group[k].aiScore == Some(x)
  }

  /**
    `bestScore` is at least every non-null score of the entry's subject and
    equals one of them; with no non-null score it is 0.
  */
  lemma BestScoreIsMax(userId: int, subs: seq<Submission>, i: int)
    requires 0 <= i < |GetProgress(userId, subs).subjects|
    ensures var e := GetProgress(userId, subs).subjects[i];
            (forall k :: 0 <= k < |subs| && subs[k].subject == e.subject && subs[k].aiScore.Some? ==>
               subs[k].aiScore.value <= e.bestScore) &&
            ((exists k :: 0 <= k < |subs| && subs[k].subject == e.subject && subs[k].aiScore.Some?) ==>
               exists k :: 0 <= k < |subs| && subs[k].subject == e.subject && subs[k].aiScore == Some(e.bestScore)) &&
            ((forall k :: 0 <= k < |subs| && subs[k].subject == e.subject ==> subs[k].aiScore.None?) ==>
               e.bestScore == 0)
  {
    var e := GetProgress(userId, subs).subjects[i];
    var group := Group(subs, e.subject);
    var scores := Scores(group);
    assert e.bestScore == MaxOrZero(scores);
    forall k | 0 <= k < |subs| && subs[k].subject == e.subject && subs[k].aiScore.Some?
      ensures subs[k].aiScore.value in scores
    {
      GroupMembers(subs, e.subject, subs[k]);
      var g :| 0 <= g < |group| && group[g] == subs[k];
      ScoresMembers(group, subs[k].aiScore.value);
    }
    if scores != [] {
      ScoresMembers(group, e.bestScore);
      var g :| 0 <= g < |group| && group[g].aiScore == Some(e.bestScore);
      GroupMembers(subs, e.subject, group[g]);
    }
  }
}
