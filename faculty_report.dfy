/** A college admin's report on one faculty member: every response of every
    submission is tallied against the college's questions (rating totals,
    the one-to-five distribution, per-question sums and counts, non-blank
    comments), then averages are taken and the newest ten comments kept. */
module FacultyReport {
  import opened Common
  import opened OrderedMap

  datatype Question = Question(id: string, text: string, category: string, order: int)

  /** One answer of a submission; a missing comment is "". */
  datatype Response = Response(questionId: string, rating: Option<int>, comment: string)

  /** `submittedAt` is a day number. */
  datatype Submission = Submission(responses: seq<Response>, submittedAt: int)

  datatype Comment = Comment(comment: string, date: int)

  /** `questionAverages[id]` while the responses are being read: `average`
      holds the running sum until the averages are taken. */
  datatype QuestionTally = QuestionTally(sum: int, count: nat, question: Question)

  datatype QuestionAverage = QuestionAverage(average: real, count: nat, question: Question)

  /** The running state of generateReport; `buckets[k - 1]` is
      `ratingDistribution[k]`. */
  datatype Tally = Tally(
    totalRating: int, totalResponses: nat, buckets: seq<int>,
    questions: OMap<QuestionTally>, comments: seq<Comment>)

  datatype FacultyStats = FacultyStats(
    totalResponses: nat, averageRating: real, ratingDistribution: seq<int>,
    questionAverages: OMap<QuestionAverage>, recentComments: seq<Comment>)

  // ---------------------------------------------------------------------------
  // The responses, one after the other
  // ---------------------------------------------------------------------------

  /** `new Map(questions.map(q => [q.id, q]))`, read with LastFind: a later
      question with the same id wins. */
  function QuestionMap(questions: seq<Question>): OMap<Question>
  {
    Map(questions, (q: Question) => (q.id, q))
  }

  /** A response together with the date of its submission. */
  datatype Entry = Entry(date: int, response: Response)

  function EntriesOf(s: Submission): (r: seq<Entry>)
    ensures |r| == |s.responses|
    ensures forall i :: 0 <= i < |r| ==> r[i] == Entry(s.submittedAt, s.responses[i])
  {
    Map(s.responses, (resp: Response) => Entry(s.submittedAt, resp))
  }

  /** Every response of every submission, in the order the loops visit them. */
  function Entries(subs: seq<Submission>): seq<Entry>
  {
    Concat(Map(subs, EntriesOf))
  }

  predicate Known(qm: OMap<Question>, e: Entry)
  {
    LastFind(qm, e.response.questionId).Some?
  }

  predicate IsRated(qm: OMap<Question>, e: Entry)
  {
    Known(qm, e) && e.response.rating.Some?
  }

  /** `response.comment && response.comment.trim()`. */
  predicate HasComment(e: Entry)
  {
    !IsBlank(e.response.comment)
  }

  function RatingOf(e: Entry): int
  {
    if e.response.rating.Some? then e.response.rating.value else 0
  }

  function CommentOf(e: Entry): Comment
  {
    Comment(e.response.comment, e.date)
  }

  function CommentDate(c: Comment): int { c.date }

  function RatedIn(qm: OMap<Question>): Entry -> bool
  {
    (e: Entry) => IsRated(qm, e)
  }

  function RatedAs(qm: OMap<Question>, k: int): Entry -> bool
  {
    (e: Entry) => IsRated(qm, e) && RatingOf(e) == k
  }

  function RatedFor(qm: OMap<Question>, id: string): Entry -> bool
  {
    (e: Entry) => IsRated(qm, e) && e.response.questionId == id
  }

  function CommentedIn(qm: OMap<Question>): Entry -> bool
  {
    (e: Entry) => Known(qm, e) && HasComment(e)
  }

  // ---------------------------------------------------------------------------
  // The specification of the loops
  // ---------------------------------------------------------------------------

  function Initial(): (t: Tally)
    ensures |t.buckets| == 5
  {
    Tally(0, 0, [0, 0, 0, 0, 0], [], [])
  }

  /** A question's entry after one more rating v: created for q on first
      use, then its sum and count increased. */
  function Bump(prev: Option<QuestionTally>, q: Question, v: int): QuestionTally
  {
    var qa := if prev.Some? then prev.value else QuestionTally(0, 0, q);
    qa.(sum := qa.sum + v, count := qa.count + 1)
  }

  /** A rating v of question q: the totals, the bucket when there is one for
      v, and the question's sum and count. */
  function Rate(t: Tally, id: string, v: int, q: Question): (r: Tally)
    requires |t.buckets| == 5
    ensures |r.buckets| == 5
  {
    Tally(t.totalRating + v, t.totalResponses + 1,
          if 1 <= v <= 5 then t.buckets[v - 1 := t.buckets[v - 1] + 1] else t.buckets,
          Put(t.questions, id, Bump(Find(t.questions, id), q, v)),
          t.comments)
  }

  /** One response: skipped when its question is unknown, otherwise its
      rating tallied and its comment collected. */
  function Step(qm: OMap<Question>, t: Tally, e: Entry): (r: Tally)
    requires |t.buckets| == 5
    ensures |r.buckets| == 5
  {
    var q := LastFind(qm, e.response.questionId);
    if q.None? then t
    else
      var t1 := if e.response.rating.Some? then Rate(t, e.response.questionId, e.response.rating.value, q.value) else t;
      if HasComment(e) then t1.(comments := t1.comments + [CommentOf(e)]) else t1
  }

  function Fold(qm: OMap<Question>, es: seq<Entry>): (t: Tally)
    ensures |t.buckets| == 5
  {
    if es == [] then Initial() else Step(qm, Fold(qm, es[..|es| - 1]), es[|es| - 1])
  }

  /** `qa.count > 0 ? qa.average / qa.count : 0`. */
  function AverageEntry(qt: QuestionTally): (r: QuestionAverage)
    ensures r.count == qt.count && r.question == qt.question
    ensures qt.count > 0 ==> r.average * qt.count as real == qt.sum as real
    ensures qt.count == 0 ==> r.average == 0.0
  {
    QuestionAverage(if qt.count > 0 then qt.sum as real / qt.count as real else 0.0, qt.count, qt.question)
  }

  function Finish(t: Tally): FacultyStats
  {
    FacultyStats(t.totalResponses,
                 if t.totalResponses > 0 then t.totalRating as real / t.totalResponses as real else 0.0,
                 t.buckets, MapValues(t.questions, AverageEntry),
                 Take(SortDesc(t.comments, CommentDate), 10))
  }

  /** The report generateReport sets for these submissions and questions. */
  function Report(subs: seq<Submission>, questions: seq<Question>): FacultyStats
  {
    Finish(Fold(QuestionMap(questions), Entries(subs)))
  }

  // ---------------------------------------------------------------------------
  // generateReport
  // ---------------------------------------------------------------------------

  /** The responses of the first i + 1 submissions. */
  lemma EntriesSnoc(subs: seq<Submission>, i: nat)
    requires i < |subs|
    ensures Entries(subs[..i + 1]) == Entries(subs[..i]) + EntriesOf(subs[i])
  {
    var ls := Map(subs[..i + 1], EntriesOf);
    assert ls[..|ls| - 1] == Map(subs[..i], EntriesOf);
  }

  /** A rating v of a known question read into the running totals, the
      distribution and the question's entry. */
  method ReadRating(dist: array<int>, totalRating: int, totalResponses: nat, averages: OMap<QuestionTally>,
                    ghost comments: seq<Comment>, id: string, v: int, q: Question)
    returns (totalRating': int, totalResponses': nat, averages': OMap<QuestionTally>)
    requires dist.Length == 5
    modifies dist
    ensures Tally(totalRating', totalResponses', dist[..], averages', comments) ==
            Rate(Tally(totalRating, totalResponses, old(dist[..]), averages, comments), id, v, q)
  {
    ghost var before := dist[..];
    totalRating' := totalRating + v;
    totalResponses' := totalResponses + 1;
    if 1 <= v <= 5 {
      dist[v - 1] := dist[v - 1] + 1;
      assert dist[..] == before[v - 1 := before[v - 1] + 1];
    }
    var prev := Find(averages, id);
    var qa := if prev.Some? then prev.value else QuestionTally(0, 0, q);
    averages' := Put(averages, id, qa.(sum := qa.sum + v, count := qa.count + 1));
  }

  /** The body of the inner forEach: one response read into the running
      totals and the distribution. */
  method ReadResponse(qm: OMap<Question>, dist: array<int>, totalRating: int, totalResponses: nat,
                      averages: OMap<QuestionTally>, comments: seq<Comment>, e: Entry)
    returns (totalRating': int, totalResponses': nat, averages': OMap<QuestionTally>, comments': seq<Comment>)
    requires dist.Length == 5
    modifies dist
    ensures Tally(totalRating', totalResponses', dist[..], averages', comments') ==
            Step(qm, Tally(totalRating, totalResponses, old(dist[..]), averages, comments), e)
  {
    ghost var t := Tally(totalRating, totalResponses, dist[..], averages, comments);
    totalRating', totalResponses', averages', comments' := totalRating, totalResponses, averages, comments;
    var resp := e.response;
    var q := LastFind(qm, resp.questionId);
    if q.Some? {
      if resp.rating.Some? {
        totalRating', totalResponses', averages' :=
          ReadRating(dist, totalRating, totalResponses, averages, comments, resp.questionId, resp.rating.value, q.value);
      }
      ghost var t1 := Tally(totalRating', totalResponses', dist[..], averages', comments');
      assert t1 == if resp.rating.Some? then Rate(t, resp.questionId, resp.rating.value, q.value) else t;
      if !IsBlank(resp.comment) {
        comments' := comments' + [Comment(resp.comment, e.date)];
      }
    }
  }

  /** The inner forEach over one submission's responses. */
  method ReadSubmission(qm: OMap<Question>, dist: array<int>, totalRating: int, totalResponses: nat,
                        averages: OMap<QuestionTally>, comments: seq<Comment>, done: seq<Entry>, s: Submission)
    returns (totalRating': int, totalResponses': nat, averages': OMap<QuestionTally>, comments': seq<Comment>)
    requires dist.Length == 5
    requires Tally(totalRating, totalResponses, dist[..], averages, comments) == Fold(qm, done)
    modifies dist
    ensures Tally(totalRating', totalResponses', dist[..], averages', comments') == Fold(qm, done + EntriesOf(s))
  {
    totalRating', totalResponses', averages', comments' := totalRating, totalResponses, averages, comments;
    var es := EntriesOf(s);
    assert done + es[..0] == done;
    for j := 0 to |es|
      invariant Tally(totalRating', totalResponses', dist[..], averages', comments') == Fold(qm, done + es[..j])
    {
      var seen := done + es[..j];
      assert (seen + [es[j]])[..|seen|] == seen;
      assert done + es[..j + 1] == seen + [es[j]];
      totalRating', totalResponses', averages', comments' :=
        ReadResponse(qm, dist, totalRating', totalResponses', averages', comments', es[j]);
    }
    assert es[..|es|] == es;
  }

  /** generateReport: the nested forEach loops, the averages and the
      comment order. */
  method GenerateReport(submissions: seq<Submission>, questions: seq<Question>) returns (stats: FacultyStats)
    ensures stats == Report(submissions, questions)
  {
    var qm := QuestionMap(questions);
    var dist := new int[5](_ => 0);
    var totalRating, totalResponses := 0, 0;
    var averages: OMap<QuestionTally> := [];
    var comments: seq<Comment> := [];
    assert dist[..] == [0, 0, 0, 0, 0];
    for i := 0 to |submissions|
      invariant Tally(totalRating, totalResponses, dist[..], averages, comments) == Fold(qm, Entries(submissions[..i]))
    {
      totalRating, totalResponses, averages, comments :=
        ReadSubmission(qm, dist, totalRating, totalResponses, averages, comments, Entries(submissions[..i]), submissions[i]);
      EntriesSnoc(submissions, i);
    }
    assert submissions[..|submissions|] == submissions;
    var qas: OMap<QuestionAverage> := [];
    for k := 0 to |averages|
      invariant qas == MapValues(averages[..k], AverageEntry)
    {
      qas := qas + [(averages[k].0, AverageEntry(averages[k].1))];
    }
    assert averages[..|averages|] == averages;
    stats := FacultyStats(totalResponses,
                          if totalResponses > 0 then totalRating as real / totalResponses as real else 0.0,
                          dist[..], qas, Take(SortDesc(comments, CommentDate), 10));
  }

  // ---------------------------------------------------------------------------
  // What the tally counts
  // ---------------------------------------------------------------------------

  /** A response is in the list exactly when it belongs to one of the
      submissions. */
  lemma InEntries(subs: seq<Submission>, e: Entry)
    ensures e in Entries(subs) <==> exists i :: 0 <= i < |subs| && e in EntriesOf(subs[i])
  {
    var ls := Map(subs, EntriesOf);
    InConcat(ls, e);
    assert forall i :: 0 <= i < |subs| ==> ls[i] == EntriesOf(subs[i]);
  }

  /** What one response adds to the totals. */
  lemma StepTotals(qm: OMap<Question>, t: Tally, e: Entry)
    requires |t.buckets| == 5
    ensures Step(qm, t, e).totalResponses == t.totalResponses + (if IsRated(qm, e) then 1 else 0)
    ensures Step(qm, t, e).totalRating == t.totalRating + (if IsRated(qm, e) then RatingOf(e) else 0)
  {
  }

  /** What one response adds to bucket b. */
  lemma StepBucket(qm: OMap<Question>, t: Tally, e: Entry, b: int)
    requires |t.buckets| == 5 && 0 <= b < 5
    ensures Step(qm, t, e).buckets[b] == t.buckets[b] + (if IsRated(qm, e) && RatingOf(e) == b + 1 then 1 else 0)
  {
  }

  /** What one response adds to the comments. */
  lemma StepComments(qm: OMap<Question>, t: Tally, e: Entry)
    requires |t.buckets| == 5
    ensures Step(qm, t, e).comments == t.comments + (if Known(qm, e) && HasComment(e) then [CommentOf(e)] else [])
  {
  }

  /** What one response does to the per-question entries. */
  lemma StepQuestions(qm: OMap<Question>, t: Tally, e: Entry)
    requires |t.buckets| == 5
    ensures Step(qm, t, e).questions ==
            (if IsRated(qm, e)
             then Put(t.questions, e.response.questionId,
                      Bump(Find(t.questions, e.response.questionId), LastFind(qm, e.response.questionId).value, RatingOf(e)))
             else t.questions)
  {
  }

  lemma FoldSnoc(qm: OMap<Question>, es: seq<Entry>, e: Entry)
    ensures Fold(qm, es + [e]) == Step(qm, Fold(qm, es), e)
  {
    assert (es + [e])[..|es|] == es;
  }

  lemma SumOfSnocEntry(s: seq<Entry>, e: Entry)
    ensures SumOf(s + [e], RatingOf) == SumOf(s, RatingOf) + RatingOf(e)
  {
    SumOfAppend(s, [e], RatingOf);
    assert SumOf([e], RatingOf) == RatingOf(e) + SumOf([], RatingOf);
  }

  /** totalResponses counts the ratings of known questions and totalRating
      adds them up. */
  lemma {:induction false} FoldTotals(qm: OMap<Question>, es: seq<Entry>)
    ensures Fold(qm, es).totalResponses == |Filter(es, RatedIn(qm))|
    ensures Fold(qm, es).totalRating == SumOf(Filter(es, RatedIn(qm)), RatingOf)
  {
    if es != [] {
      var init, e := es[..|es| - 1], es[|es| - 1];
      assert es == init + [e];
      FoldTotals(qm, init);
      StepTotals(qm, Fold(qm, init), e);
      FilterSnoc(init, e, RatedIn(qm));
      assert RatedIn(qm)(e) == IsRated(qm, e);
      if IsRated(qm, e) {
        SumOfSnocEntry(Filter(init, RatedIn(qm)), e);
      } else {
        assert Filter(es, RatedIn(qm)) == Filter(init, RatedIn(qm));
      }
    }
  }

  /** `ratingDistribution[k]` counts the ratings equal to k of known
      questions. */
  lemma {:induction false} FoldBucket(qm: OMap<Question>, es: seq<Entry>, k: int)
    requires 1 <= k <= 5
    ensures Fold(qm, es).buckets[k - 1] == |Filter(es, RatedAs(qm, k))|
  {
    if es != [] {
      var init, e := es[..|es| - 1], es[|es| - 1];
      assert es == init + [e];
      FoldBucket(qm, init, k);
      StepBucket(qm, Fold(qm, init), e, k - 1);
      FilterSnoc(init, e, RatedAs(qm, k));
      assert RatedAs(qm, k)(e) == (IsRated(qm, e) && RatingOf(e) == k);
    }
  }

  /** Entry `qt` of question id tallies the ratings f. */
  predicate Tallies(qm: OMap<Question>, found: Option<QuestionTally>, f: seq<Entry>, id: string)
  {
    (found.Some? <==> f != []) &&
    (found.Some? ==> found.value.count == |f| && found.value.sum == SumOf(f, RatingOf) &&
                     Some(found.value.question) == LastFind(qm, id))
  }

  lemma FoldKeyed(qm: OMap<Question>, es: seq<Entry>)
    ensures Keyed(Fold(qm, es).questions)
  {
    if es == [] {
      assert Keys(Fold(qm, es).questions) == [];
    } else {
      var init, e := es[..|es| - 1], es[|es| - 1];
      var t := Fold(qm, init);
      FoldKeyed(qm, init);
      StepQuestions(qm, t, e);
      if IsRated(qm, e) {
        var q := LastFind(qm, e.response.questionId).value;
        PutFind(t.questions, e.response.questionId, Bump(Find(t.questions, e.response.questionId), q, RatingOf(e)), "");
      }
    }
  }

  /** Counting one more rating of question id in its entry. */
  lemma PutTally(qm: OMap<Question>, qs: OMap<QuestionTally>, id: string, q: Question, f: seq<Entry>, e: Entry)
    requires Tallies(qm, Find(qs, id), f, id) && LastFind(qm, id) == Some(q)
    ensures Tallies(qm, Find(Put(qs, id, Bump(Find(qs, id), q, RatingOf(e))), id), f + [e], id)
  {
    PutFindAny(qs, id, Bump(Find(qs, id), q, RatingOf(e)), id);
    SumOfSnocEntry(f, e);
    if Find(qs, id).None? {
      assert f == [];
    }
  }

  /** One rating of question id: its entry counts and adds one more. */
  lemma QuestionStep(qm: OMap<Question>, t: Tally, e: Entry, f: seq<Entry>)
    requires |t.buckets| == 5 && IsRated(qm, e)
    requires Tallies(qm, Find(t.questions, e.response.questionId), f, e.response.questionId)
    ensures Tallies(qm, Find(Step(qm, t, e).questions, e.response.questionId), f + [e], e.response.questionId)
  {
    StepQuestions(qm, t, e);
    PutTally(qm, t.questions, e.response.questionId, LastFind(qm, e.response.questionId).value, f, e);
  }

  /** A response that is not a rating of question id leaves its entry alone. */
  lemma QuestionOther(qm: OMap<Question>, t: Tally, e: Entry, id: string)
    requires |t.buckets| == 5 && !(IsRated(qm, e) && e.response.questionId == id)
    ensures Find(Step(qm, t, e).questions, id) == Find(t.questions, id)
  {
    StepQuestions(qm, t, e);
    if IsRated(qm, e) {
      var eid := e.response.questionId;
      PutFindAny(t.questions, eid, Bump(Find(t.questions, eid), LastFind(qm, eid).value, RatingOf(e)), id);
    }
  }

  /** A question has an entry exactly when it has a rating; the entry counts
      and adds up that question's ratings and holds the question itself. */
  lemma {:induction false} FoldQuestion(qm: OMap<Question>, es: seq<Entry>, id: string)
    ensures Tallies(qm, Find(Fold(qm, es).questions, id), Filter(es, RatedFor(qm, id)), id)
  {
    if es != [] {
      var init, e := es[..|es| - 1], es[|es| - 1];
      assert es == init + [e];
      var t := Fold(qm, init);
      assert Fold(qm, es) == Step(qm, t, e);
      var f := Filter(init, RatedFor(qm, id));
      FoldQuestion(qm, init, id);
      FilterSnoc(init, e, RatedFor(qm, id));
      if IsRated(qm, e) && e.response.questionId == id {
        assert RatedFor(qm, id)(e);
        QuestionStep(qm, t, e, f);
      } else {
        assert !RatedFor(qm, id)(e);
        assert Filter(es, RatedFor(qm, id)) == f;
        QuestionOther(qm, t, e, id);
      }
    }
  }

  /** The collected comments are those of known questions that are not
      blank, in the order they were read, each with its submission's date. */
  lemma {:induction false} FoldComments(qm: OMap<Question>, es: seq<Entry>)
    ensures Fold(qm, es).comments == Map(Filter(es, CommentedIn(qm)), CommentOf)
  {
    if es != [] {
      var init, e := es[..|es| - 1], es[|es| - 1];
      assert es == init + [e];
      var t := Fold(qm, init);
      assert Fold(qm, es) == Step(qm, t, e);
      FoldComments(qm, init);
      StepComments(qm, t, e);
      MapFilterSnoc(init, e, CommentedIn(qm), CommentOf);
      assert CommentedIn(qm)(e) == (Known(qm, e) && HasComment(e));
    }
  }

  /** Responses to questions the college does not have change nothing. */
  lemma {:induction false} FoldUnknown(qm: OMap<Question>, es: seq<Entry>, xs: seq<Entry>)
    requires forall i :: 0 <= i < |xs| ==> !Known(qm, xs[i])
    ensures Fold(qm, es + xs) == Fold(qm, es)
  {
    if xs == [] {
      assert es + xs == es;
    } else {
      var init := xs[..|xs| - 1];
      assert es + xs == (es + init) + [xs[|xs| - 1]];
      FoldUnknown(qm, es, init);
      FoldSnoc(qm, es + init, xs[|xs| - 1]);
    }
  }

  // ---------------------------------------------------------------------------
  // What the report states
  // ---------------------------------------------------------------------------

  /** The ratings the report counts: those of known questions. */
  function RatedEntries(subs: seq<Submission>, questions: seq<Question>): seq<Entry>
  {
    Filter(Entries(subs), RatedIn(QuestionMap(questions)))
  }

  /** totalResponses is the number of ratings of known questions and
      averageRating their mean, 0 when there are none. */
  lemma ReportTotals(subs: seq<Submission>, questions: seq<Question>)
    ensures var r := Report(subs, questions);
      var rated := RatedEntries(subs, questions);
      r.totalResponses == |rated| &&
      (|rated| == 0 ==> r.averageRating == 0.0) &&
      (|rated| > 0 ==> r.averageRating == SumOf(rated, RatingOf) as real / |rated| as real)
  {
    var t := Fold(QuestionMap(questions), Entries(subs));
    assert Report(subs, questions) == Finish(t);
    FoldTotals(QuestionMap(questions), Entries(subs));
  }

  /** The distribution has the five buckets 1 to 5, bucket k counting the
      ratings equal to k; other rating values are counted in the total only. */
  lemma ReportDistribution(subs: seq<Submission>, questions: seq<Question>, k: int)
    requires 1 <= k <= 5
    ensures |Report(subs, questions).ratingDistribution| == 5
    ensures Report(subs, questions).ratingDistribution[k - 1] ==
            |Filter(Entries(subs), RatedAs(QuestionMap(questions), k))|
  {
    FoldBucket(QuestionMap(questions), Entries(subs), k);
  }

  /** Taking the averages keeps what an entry tallies, its sum turned into
      the mean. */
  lemma AveragesOf(qm: OMap<Question>, qs: OMap<QuestionTally>, f: seq<Entry>, id: string)
    requires Tallies(qm, Find(qs, id), f, id)
    ensures var found := Find(MapValues(qs, AverageEntry), id);
      (found.Some? <==> f != []) &&
      (found.Some? ==> found.value.count == |f| && found.value.average == SumOf(f, RatingOf) as real / |f| as real &&
                       Some(found.value.question) == LastFind(qm, id))
  {
    FindMapValues(qs, AverageEntry, id);
    var prev := Find(qs, id);
    if prev.Some? {
      var found := AverageEntry(prev.value);
      assert Find(MapValues(qs, AverageEntry), id) == Some(found);
      assert found.count == |f| > 0;
    }
  }

  /** questionAverages has one entry per question with a rating: its count
      of ratings, their mean, and the question. */
  lemma ReportQuestion(subs: seq<Submission>, questions: seq<Question>, id: string)
    ensures Keyed(Report(subs, questions).questionAverages)
    ensures var qm := QuestionMap(questions);
      var f := Filter(Entries(subs), RatedFor(qm, id));
      var found := Find(Report(subs, questions).questionAverages, id);
      (found.Some? <==> f != []) &&
      (found.Some? ==> found.value.count == |f| && found.value.average == SumOf(f, RatingOf) as real / |f| as real &&
                       Some(found.value.question) == LastFind(qm, id))
  {
    var qm := QuestionMap(questions);
    var t := Fold(qm, Entries(subs));
    assert Report(subs, questions).questionAverages == MapValues(t.questions, AverageEntry);
    FoldQuestion(qm, Entries(subs), id);
    FoldKeyed(qm, Entries(subs));
    assert Keys(MapValues(t.questions, AverageEntry)) == Keys(t.questions);
    AveragesOf(qm, t.questions, Filter(Entries(subs), RatedFor(qm, id)), id);
  }

  /** The comments collected: non-blank ones of known questions. */
  function AllComments(subs: seq<Submission>, questions: seq<Question>): seq<Comment>
  {
    Map(Filter(Entries(subs), CommentedIn(QuestionMap(questions))), CommentOf)
  }

  /** The newest ten of a list of comments are ten of them, newest first. */
  lemma NewestTen(all: seq<Comment>)
    ensures var r := Take(SortDesc(all, CommentDate), 10);
      |r| == (if |all| < 10 then |all| else 10) &&
      SortedDesc(r, CommentDate) &&
      multiset(r) <= multiset(all)
  {
    var sorted := SortDesc(all, CommentDate);
    TakeWithin(sorted, 10);
    TakeSortedDesc(sorted, 10, CommentDate);
  }

  /** No comment left out of the newest ten is newer than one kept. */
  lemma NewestTenKept(all: seq<Comment>)
    ensures var r := Take(SortDesc(all, CommentDate), 10);
      forall c, i :: c in all && c !in r && 0 <= i < |r| ==> r[i].date >= c.date
  {
    var sorted := SortDesc(all, CommentDate);
    TakeSortedDesc(sorted, 10, CommentDate);
    forall c | c in all ensures c in sorted {
      assert c in multiset(sorted);
    }
  }

  /** No collected comment is blank. */
  lemma CollectedNotBlank(subs: seq<Submission>, questions: seq<Question>)
    ensures forall c :: c in AllComments(subs, questions) ==> !IsBlank(c.comment)
  {
    var qm := QuestionMap(questions);
    var f := Filter(Entries(subs), CommentedIn(qm));
    FilterSatisfies(Entries(subs), CommentedIn(qm));
    forall c | c in AllComments(subs, questions) ensures !IsBlank(c.comment) {
      var j :| 0 <= j < |f| && AllComments(subs, questions)[j] == c;
      assert CommentedIn(qm)(f[j]);
    }
  }

  /** recentComments: at most ten of the collected comments, newest first,
      none of them blank, and no comment left out is newer than one kept. */
  lemma ReportComments(subs: seq<Submission>, questions: seq<Question>)
    ensures var r := Report(subs, questions).recentComments;
      var all := AllComments(subs, questions);
      |r| == (if |all| < 10 then |all| else 10) &&
      SortedDesc(r, CommentDate) &&
      multiset(r) <= multiset(all) &&
      (forall i :: 0 <= i < |r| ==> !IsBlank(r[i].comment)) &&
      (forall c, i :: c in all && c !in r && 0 <= i < |r| ==> r[i].date >= c.date)
  {
    var all := AllComments(subs, questions);
    ReportRecent(subs, questions);
    NewestTen(all);
    NewestTenKept(all);
    CollectedNotBlank(subs, questions);
    var r := Take(SortDesc(all, CommentDate), 10);
    forall i | 0 <= i < |r| ensures !IsBlank(r[i].comment) {
      assert r[i] in multiset(r);
      assert r[i] in multiset(all);
      assert r[i] in all;
    }
  }

  lemma ReportRecent(subs: seq<Submission>, questions: seq<Question>)
    ensures Report(subs, questions).recentComments == Take(SortDesc(AllComments(subs, questions), CommentDate), 10)
  {
    FoldComments(QuestionMap(questions), Entries(subs));
  }

  /** A submission answering only questions the college does not have leaves
      the report as it was. */
  lemma ReportIgnoresUnknown(subs: seq<Submission>, s: Submission, questions: seq<Question>)
    requires forall j :: 0 <= j < |s.responses| ==> LastFind(QuestionMap(questions), s.responses[j].questionId).None?
    ensures Report(subs + [s], questions) == Report(subs, questions)
  {
    var qm := QuestionMap(questions);
    var all := subs + [s];
    var es, xs := Entries(subs), EntriesOf(s);
    assert all[..|subs|] == subs;
    EntriesSnoc(all, |subs|);
    assert all[..|subs| + 1] == all;
    assert Entries(all) == es + xs;
    assert forall i :: 0 <= i < |xs| ==> xs[i].response == s.responses[i];
    FoldUnknown(qm, es, xs);
    assert Fold(qm, Entries(all)) == Fold(qm, es);
  }

  /** The question-wise list: the entries ordered by question.order. */
  function QuestionWise(stats: FacultyStats): (r: seq<QuestionAverage>)
    ensures SortedAsc(r, (qa: QuestionAverage) => qa.question.order)
    ensures multiset(r) == multiset(Values(stats.questionAverages))
  {
    SortAsc(Values(stats.questionAverages), (qa: QuestionAverage) => qa.question.order)
  }
}
