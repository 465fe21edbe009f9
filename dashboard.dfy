/** What the dashboards share: the session record they read, the
    accumulation of compiled statistics that several of them repeat
    (responses, rating buckets, the rating sum and count, hours), the
    average shown from those totals, and the "top trainers" ranking. */
module Dashboard {
  import opened Common
  import opened OrderedMap
  import opened JsValue

  /** `compiledStats` of a closed session; a missing `totalResponses` is 0.
      Comments are their texts (`c.text || c`). */
  datatype CompiledStats = CompiledStats(
    totalResponses: int, ratingDistribution: OMap<int>,
    topicsLearned: seq<(string, int)>, comments: seq<string>)

  datatype TrainerRef = TrainerRef(id: string, name: string)

  /** A session as the dashboards read it.  A missing text field is "" (both
      are falsy and neither matches a selected filter value); `sessionDate`
      is a day number. */
  datatype Session = Session(
    id: string, status: string, collegeId: string, projectId: string,
    course: string, branch: string, department: string, year: string, batch: string,
    topic: string, assignedTrainer: Option<TrainerRef>, sessionDate: int,
    sessionDuration: Option<Val>, compiledStats: Option<CompiledStats>)

  /** `session.assignedTrainer?.id`, "" when there is none. */
  function TrainerIdOf(s: Session): string
  {
    if s.assignedTrainer.Some? then s.assignedTrainer.value.id else ""
  }

  /** `Number(key)` for a rating key of a distribution. */
  function KeyNumber(k: string): int
  {
    if k != "" && AllDigits(k) then DigitsValue(k) else 0
  }

  /** `Number(session.sessionDuration) || 60`, in minutes. */
  function DurationMinutes(v: Option<Val>): (m: real)
    ensures m != 0.0
    ensures v.None? || v == Some(Null) || v == Some(Num(0.0)) || v == Some(Str("")) ==> m == 60.0
    ensures v.Some? && v.value.Num? && v.value.n != 0.0 ==> m == v.value.n
  {
    match v
    case Some(Num(n)) => if n != 0.0 then n else 60.0
    case Some(Str(s)) =>
      var t := Trim(s);
      if t != "" && AllDigits(t) && DigitsValue(t) != 0 then DigitsValue(t) as real else 60.0
    case Some(Bool(b)) => if b then 1.0 else 60.0
    case _ => 60.0
  }

  predicate NonEmpty(v: string)
  {
    v != ""
  }

  lemma KeptFieldSound<T>(ss: seq<T>, keep: T -> bool, field: T -> string, v: string)
    requires v in Map(Filter(ss, keep), field)
    ensures exists i :: 0 <= i < |ss| && keep(ss[i]) && field(ss[i]) == v
  {
    var j := InMapAt(Filter(ss, keep), field, v);
    var i := FilterFrom(ss, keep, j);
  }

  lemma KeptFieldComplete<T>(ss: seq<T>, keep: T -> bool, field: T -> string, i: int)
    requires 0 <= i < |ss| && keep(ss[i])
    ensures field(ss[i]) in Map(Filter(ss, keep), field)
  {
    var kept := Filter(ss, keep);
    FilterMembers(ss, keep, ss[i]);
    var j :| 0 <= j < |kept| && kept[j] == ss[i];
    assert Map(kept, field)[j] == field(ss[i]);
  }

  /** A value appears among the kept sessions' fields exactly when some
      kept session has it. */
  lemma KeptFieldValues(ss: seq<Session>, keep: Session -> bool, field: Session -> string, v: string)
    ensures v in Map(Filter(ss, keep), field) <==> exists i :: 0 <= i < |ss| && keep(ss[i]) && field(ss[i]) == v
  {
    if v in Map(Filter(ss, keep), field) {
      KeptFieldSound(ss, keep, field, v);
    }
    if exists i :: 0 <= i < |ss| && keep(ss[i]) && field(ss[i]) == v {
      var i :| 0 <= i < |ss| && keep(ss[i]) && field(ss[i]) == v;
      KeptFieldComplete(ss, keep, field, i);
    }
  }

  /** `[...new Set(ss.filter(keep).map(field))].filter(Boolean).sort()`: the
      sorted distinct non-empty values of a field over the kept sessions. */
  function FieldOptions(ss: seq<Session>, keep: Session -> bool, field: Session -> string): (r: seq<string>)
    ensures StrictlySorted(r)
    ensures forall v :: v in r <==> v != "" && exists i :: 0 <= i < |ss| && keep(ss[i]) && field(ss[i]) == v
  {
    var values := Map(Filter(ss, keep), field);
    var r := SortedDistinct(Filter(values, NonEmpty));
    forall v ensures v in r <==> v != "" && exists i :: 0 <= i < |ss| && keep(ss[i]) && field(ss[i]) == v {
      FilterMembers(values, NonEmpty, v);
      KeptFieldValues(ss, keep, field, v);
    }
    r
  }

  // ---------------------------------------------------------------------------
  // Accumulating compiled statistics
  // ---------------------------------------------------------------------------

  /** The running totals of the aggregation loops. */
  datatype Totals = Totals(
    totalResponses: int, totalRatingsCount: int, ratingSum: int, minutes: real,
    ratingDistribution: OMap<int>)

  /** `{ 1: 0, 2: 0, 3: 0, 4: 0, 5: 0 }`. */
  const EmptyBuckets: OMap<int> := [("1", 0), ("2", 0), ("3", 0), ("4", 0), ("5", 0)]

  const NoTotals := Totals(0, 0, 0, 0.0, EmptyBuckets)

  /** `m[k] || 0`. */
  function FindOr0(m: OMap<int>, k: string): int
  {
    var r := Find(m, k);
    if r.Some? then r.value else 0
  }

  /** One `[rating, count]` entry: the bucket grows by count, the sum by
      rating times count, the rating count by count. */
  function AddEntry(t: Totals, e: (string, int)): Totals
  {
    t.(ratingDistribution := Put(t.ratingDistribution, e.0, FindOr0(t.ratingDistribution, e.0) + e.1),
       ratingSum := t.ratingSum + KeyNumber(e.0) * e.1,
       totalRatingsCount := t.totalRatingsCount + e.1)
  }

  function AddRatings(t: Totals, dist: OMap<int>): Totals
  {
    if dist == [] then t else AddEntry(AddRatings(t, dist[..|dist| - 1]), dist[|dist| - 1])
  }

  /** A session's responses and minutes, added before its ratings. */
  function Opened(t: Totals, s: Session): Totals
  {
    t.(totalResponses := t.totalResponses + ResponsesOf(s),
       minutes := t.minutes + DurationMinutes(s.sessionDuration))
  }

  /** The body of the per-session loop: a session without compiled
      statistics adds nothing. */
  function AddSession(t: Totals, s: Session): Totals
  {
    if s.compiledStats.None? then t else AddRatings(Opened(t, s), DistOf(s))
  }

  function Accumulate(ss: seq<Session>): Totals
  {
    if ss == [] then NoTotals else AddSession(Accumulate(ss[..|ss| - 1]), ss[|ss| - 1])
  }

  /** Adding one more entry of the distribution is one more `AddEntry`. */
  lemma AddRatingsSnoc(t0: Totals, dist: OMap<int>, j: nat)
    requires j < |dist|
    ensures AddRatings(t0, dist[..j + 1]) == AddEntry(AddRatings(t0, dist[..j]), dist[j])
  {
    assert dist[..j + 1][..j] == dist[..j];
  }

  /** The callback of the inner `forEach`: one `[rating, count]` entry. */
  method CountEntry(t0: Totals, e: (string, int)) returns (t: Totals)
    ensures t == AddEntry(t0, e)
  {
    t := t0.(ratingDistribution := Put(t0.ratingDistribution, e.0, FindOr0(t0.ratingDistribution, e.0) + e.1),
             ratingSum := t0.ratingSum + KeyNumber(e.0) * e.1,
             totalRatingsCount := t0.totalRatingsCount + e.1);
  }

  /** The inner `forEach` over one session's
      `Object.entries(cs.ratingDistribution || {})`. */
  method AddDistribution(t0: Totals, dist: OMap<int>) returns (t: Totals)
    ensures t == AddRatings(t0, dist)
  {
    t := t0;
    for j := 0 to |dist|
      invariant t == AddRatings(t0, dist[..j])
    {
      t := CountEntry(t, dist[j]);
      AddRatingsSnoc(t0, dist, j);
    }
    assert dist[..|dist|] == dist;
  }

  /** The `forEach` over sessions. */
  method AggregateStats(ss: seq<Session>) returns (t: Totals)
    ensures t == Accumulate(ss)
  {
    t := NoTotals;
    for i := 0 to |ss|
      invariant t == Accumulate(ss[..i])
    {
      assert ss[..i + 1][..i] == ss[..i];
      var s := ss[i];
      if s.compiledStats.Some? {
        var cs := s.compiledStats.value;
        t := t.(totalResponses := t.totalResponses + cs.totalResponses,
                minutes := t.minutes + DurationMinutes(s.sessionDuration));
        assert t == Opened(Accumulate(ss[..i]), s);
        t := AddDistribution(t, cs.ratingDistribution);
      }
    }
    assert ss[..|ss|] == ss;
  }

  // Independent sums the totals are checked against.

  function EntryCount(e: (string, int)): int { e.1 }

  function EntryWeight(e: (string, int)): int { KeyNumber(e.0) * e.1 }

  function DistOf(s: Session): OMap<int>
  {
    if s.compiledStats.Some? then s.compiledStats.value.ratingDistribution else []
  }

  function ResponsesOf(s: Session): int
  {
    if s.compiledStats.Some? then s.compiledStats.value.totalResponses else 0
  }

  function RatingCountOf(s: Session): int { SumOf(DistOf(s), EntryCount) }

  function RatingWeightOf(s: Session): int { SumOf(DistOf(s), EntryWeight) }

  /** What one session puts into bucket k. */
  function BucketOf(s: Session, k: string): int
  {
    SumOf(DistOf(s), EntryAt(k))
  }

  lemma SumOfSnoc<T>(s: seq<T>, f: T -> int)
    requires s != []
    ensures SumOf(s, f) == SumOf(s[..|s| - 1], f) + f(s[|s| - 1])
  {
    SumOfAppend(s[..|s| - 1], [s[|s| - 1]], f);
    assert s[..|s| - 1] + [s[|s| - 1]] == s;
  }

  lemma {:induction false} AddRatingsSums(t: Totals, dist: OMap<int>)
    ensures AddRatings(t, dist).totalRatingsCount == t.totalRatingsCount + SumOf(dist, EntryCount)
    ensures AddRatings(t, dist).ratingSum == t.ratingSum + SumOf(dist, EntryWeight)
    ensures AddRatings(t, dist).totalResponses == t.totalResponses
  {
    if dist != [] {
      AddRatingsSums(t, dist[..|dist| - 1]);
      SumOfSnoc(dist, EntryCount);
      SumOfSnoc(dist, EntryWeight);
    }
  }

  function EntryAt(k: string): ((string, int)) -> int
  {
    (e: (string, int)) => if e.0 == k then e.1 else 0
  }

  lemma {:induction false} AddRatingsBucket(t: Totals, dist: OMap<int>, k: string)
    ensures FindOr0(AddRatings(t, dist).ratingDistribution, k) ==
      FindOr0(t.ratingDistribution, k) + SumOf(dist, EntryAt(k))
  {
    if dist != [] {
      var init := dist[..|dist| - 1];
      var e := dist[|dist| - 1];
      AddRatingsBucket(t, init, k);
      SumOfSnoc(dist, EntryAt(k));
      var m := AddRatings(t, init).ratingDistribution;
      PutFindAny(m, e.0, FindOr0(m, e.0) + e.1, k);
    }
  }

  /** The accumulated totals are the sums over the sessions of their
      responses, rating counts and rating weights (a session without
      compiled statistics counts 0). */
  lemma {:induction false} AccumulateSums(ss: seq<Session>)
    ensures Accumulate(ss).totalResponses == SumOf(ss, ResponsesOf)
    ensures Accumulate(ss).totalRatingsCount == SumOf(ss, RatingCountOf)
    ensures Accumulate(ss).ratingSum == SumOf(ss, RatingWeightOf)
  {
    if ss != [] {
      var s := ss[|ss| - 1];
      AccumulateSums(ss[..|ss| - 1]);
      SumOfSnoc(ss, ResponsesOf);
      SumOfSnoc(ss, RatingCountOf);
      SumOfSnoc(ss, RatingWeightOf);
      if s.compiledStats.Some? {
        AddRatingsSums(Opened(Accumulate(ss[..|ss| - 1]), s), DistOf(s));
      }
    }
  }

  /** Every bucket is its starting value plus what each session puts in it. */
  lemma {:induction false} AccumulateBuckets(ss: seq<Session>, k: string)
    ensures FindOr0(Accumulate(ss).ratingDistribution, k) ==
      FindOr0(EmptyBuckets, k) + SumOf(ss, (s: Session) => BucketOf(s, k))
  {
    if ss != [] {
      var s := ss[|ss| - 1];
      AccumulateBuckets(ss[..|ss| - 1], k);
      SumOfSnoc(ss, (s: Session) => BucketOf(s, k));
      if s.compiledStats.Some? {
        AddRatingsBucket(Opened(Accumulate(ss[..|ss| - 1]), s), DistOf(s), k);
      }
    }
  }

  /** The five buckets stay first, in order: new keys only go after them. */
  lemma {:induction false} BucketsStayFirst(ss: seq<Session>)
    ensures |Accumulate(ss).ratingDistribution| >= 5
    ensures Keys(Accumulate(ss).ratingDistribution)[..5] == ["1", "2", "3", "4", "5"]
  {
    if ss != [] {
      BucketsStayFirst(ss[..|ss| - 1]);
      var s := ss[|ss| - 1];
      if s.compiledStats.Some? {
        RatingsKeepKeys(Opened(Accumulate(ss[..|ss| - 1]), s), DistOf(s));
      }
    }
  }

  lemma {:induction false} RatingsKeepKeys(t: Totals, dist: OMap<int>)
    requires |t.ratingDistribution| >= 5
    ensures |AddRatings(t, dist).ratingDistribution| >= 5
    ensures Keys(AddRatings(t, dist).ratingDistribution)[..5] == Keys(t.ratingDistribution)[..5]
  {
    if dist != [] {
      RatingsKeepKeys(t, dist[..|dist| - 1]);
    }
  }

  // ---------------------------------------------------------------------------
  // The average rating
  // ---------------------------------------------------------------------------

  /** Every rating key is a star value 1..5 and no count is negative. */
  predicate StarEntries(dist: OMap<int>)
  {
    forall i :: 0 <= i < |dist| ==> 1 <= KeyNumber(dist[i].0) <= 5 && dist[i].1 >= 0
  }

  predicate StarSessions(ss: seq<Session>)
  {
    forall i :: 0 <= i < |ss| ==> StarEntries(DistOf(ss[i]))
  }

  /** The sum lies between one and five times the count. */
  predicate InStarRange(t: Totals)
  {
    0 <= t.totalRatingsCount <= t.ratingSum <= 5 * t.totalRatingsCount
  }

  /** c ratings of n stars weigh between c and 5 c. */
  lemma StarMultiple(n: int, c: int)
    requires 1 <= n <= 5 && c >= 0
    ensures c <= n * c <= 5 * c
  {
    if n == 1 {
    } else if n == 2 {
    } else if n == 3 {
    } else if n == 4 {
    }
  }

  lemma {:induction false} AddRatingsInRange(t: Totals, dist: OMap<int>)
    requires InStarRange(t) && StarEntries(dist)
    ensures InStarRange(AddRatings(t, dist))
  {
    if dist != [] {
      var init := dist[..|dist| - 1];
      assert StarEntries(init) by {
        forall i | 0 <= i < |init| ensures 1 <= KeyNumber(init[i].0) <= 5 && init[i].1 >= 0 {
          assert init[i] == dist[i];
        }
      }
      AddRatingsInRange(t, init);
      var e := dist[|dist| - 1];
      StarMultiple(KeyNumber(e.0), e.1);
    }
  }

  /** With star ratings only, the totals' sum is between one and five times
      their count, so a shown average is a star value. */
  lemma {:induction false} AccumulateInRange(ss: seq<Session>)
    requires StarSessions(ss)
    ensures InStarRange(Accumulate(ss))
  {
    if ss != [] {
      var init := ss[..|ss| - 1];
      assert StarSessions(init) by {
        forall i | 0 <= i < |init| ensures StarEntries(DistOf(init[i])) {
          assert init[i] == ss[i];
        }
      }
      AccumulateInRange(init);
      var s := ss[|ss| - 1];
      assert StarEntries(DistOf(s));
      if s.compiledStats.Some? {
        AddRatingsInRange(Opened(Accumulate(init), s), DistOf(s));
      }
    }
  }

  /** `totalRatingsCount > 0 ? (ratingSum / totalRatingsCount).toFixed(2)
      : "0.00"`: None stands for "0.00" (no ratings); the rounding to two
      decimals is not modelled. */
  function AverageOf(sum: int, count: int): (r: Option<real>)
    ensures r.None? <==> count <= 0
  {
    if count > 0 then Some(sum as real / count as real) else None
  }

  /** The ratings of a star distribution weigh between one and five times
      their number. */
  lemma {:induction false} StarWeights(dist: OMap<int>)
    requires StarEntries(dist)
    ensures 0 <= SumOf(dist, EntryCount) <= SumOf(dist, EntryWeight) <= 5 * SumOf(dist, EntryCount)
  {
    if dist != [] {
      assert StarEntries(dist[1..]) by {
        forall i | 0 <= i < |dist[1..]| ensures 1 <= KeyNumber(dist[1..][i].0) <= 5 && dist[1..][i].1 >= 0 {
          assert dist[1..][i] == dist[i + 1];
        }
      }
      StarWeights(dist[1..]);
      StarMultiple(KeyNumber(dist[0].0), dist[0].1);
    }
  }

  /** In the star range, a shown average is between 1 and 5. */
  lemma AverageIsStar(t: Totals)
    requires InStarRange(t) && t.totalRatingsCount > 0
    ensures 1.0 <= AverageOf(t.ratingSum, t.totalRatingsCount).value <= 5.0
  {
    RatioBetween(t.ratingSum as real, t.totalRatingsCount as real, 1.0, 5.0);
  }

  // ---------------------------------------------------------------------------
  // Topics learned
  // ---------------------------------------------------------------------------

  /** `s.compiledStats?.topicsLearned || []`, as `[name, count]` pairs. */
  function TopicsOf(s: Session): seq<(string, int)>
  {
    if s.compiledStats.Some? then s.compiledStats.value.topicsLearned else []
  }

  /** `acc[t.name] = (acc[t.name] || 0) + t.count`. */
  function AddTopic(acc: OMap<int>, t: (string, int)): OMap<int>
  {
    Put(acc, t.0, FindOr0(acc, t.0) + t.1)
  }

  /** The topics of one session, added in turn. */
  function AddTopics(acc: OMap<int>, ts: seq<(string, int)>): OMap<int>
  {
    if ts == [] then acc else AddTopic(AddTopics(acc, ts[..|ts| - 1]), ts[|ts| - 1])
  }

  /** The reduce over sessions that totals the topic counts by name. */
  function TopicTotals(ss: seq<Session>): OMap<int>
  {
    if ss == [] then [] else AddTopics(TopicTotals(ss[..|ss| - 1]), TopicsOf(ss[|ss| - 1]))
  }

  lemma AddTopicFind(m: OMap<int>, t: (string, int), name: string)
    requires Keyed(m)
    ensures Keyed(AddTopic(m, t))
    ensures FindOr0(AddTopic(m, t), name) == FindOr0(m, name) + EntryAt(name)(t)
  {
    PutFind(m, t.0, FindOr0(m, t.0) + t.1, name);
  }

  lemma {:induction false} AddTopicsCount(acc: OMap<int>, ts: seq<(string, int)>, name: string)
    requires Keyed(acc)
    ensures Keyed(AddTopics(acc, ts))
    ensures FindOr0(AddTopics(acc, ts), name) == FindOr0(acc, name) + SumOf(ts, EntryAt(name))
  {
    if ts != [] {
      var front, t := ts[..|ts| - 1], ts[|ts| - 1];
      AddTopicsCount(acc, front, name);
      SumOfSnoc(ts, EntryAt(name));
      AddTopicFind(AddTopics(acc, front), t, name);
    }
  }

  /** What the sessions say about one topic name. */
  function TopicCountIn(s: Session, name: string): int
  {
    SumOf(TopicsOf(s), EntryAt(name))
  }

  /** Each name appears once in the totals, with the sum of its counts over
      all sessions. */
  lemma {:induction false} TopicTotalsCount(ss: seq<Session>, name: string)
    ensures Keyed(TopicTotals(ss))
    ensures FindOr0(TopicTotals(ss), name) == SumOf(ss, (s: Session) => TopicCountIn(s, name))
  {
    if ss == [] {
      assert Keys(TopicTotals(ss)) == [];
    } else {
      TopicTotalsCount(ss[..|ss| - 1], name);
      SumOfSnoc(ss, (s: Session) => TopicCountIn(s, name));
      AddTopicsCount(TopicTotals(ss[..|ss| - 1]), TopicsOf(ss[|ss| - 1]), name);
    }
  }

  /** `Object.entries(m).sort((a, b) => b[1] - a[1]).slice(0, n)`. */
  function TopEntries(m: OMap<int>, n: nat): seq<(string, int)>
  {
    Take(SortDesc(m, EntryCount), n)
  }

  /** At most n entries, largest count first, each an entry of the map
      carrying the value the map holds for its name. */
  lemma TopEntriesShape(m: OMap<int>, n: nat)
    requires Keyed(m)
    ensures |TopEntries(m, n)| <= n
    ensures SortedDesc(TopEntries(m, n), EntryCount)
    ensures forall i :: 0 <= i < |TopEntries(m, n)| ==>
      TopEntries(m, n)[i] in m && Find(m, TopEntries(m, n)[i].0) == Some(TopEntries(m, n)[i].1)
  {
    var sorted := SortDesc(m, EntryCount);
    var r := Take(sorted, n);
    forall i | 0 <= i < |r|
      ensures r[i] in m && Find(m, r[i].0) == Some(r[i].1)
    {
      assert r[i] == sorted[i];
      assert sorted[i] in multiset(m);
      var j :| 0 <= j < |m| && m[j] == r[i];
      KeyedIndex(m, r[i].0, j);
    }
  }

  // ---------------------------------------------------------------------------
  // The stats a dashboard shows
  // ---------------------------------------------------------------------------

  /** One level of an analytics cache document (the college, a course, a
      year, a batch); a missing counter reads as 0. */
  datatype LevelStats = LevelStats(
    totalSessions: int, totalResponses: int, totalRatingsCount: int, ratingSum: int,
    totalHours: real, ratingDistribution: Option<OMap<int>>, topicsLearned: Option<OMap<int>>)

  /** The object a dashboard renders: counters, the average (None shows as
      "0.00"), the rating buckets and the top topics. */
  datatype ShownStats = ShownStats(
    totalSessions: int, totalResponses: int, totalRatingsCount: int, totalHours: real,
    avgRating: Option<real>, ratingDistribution: OMap<int>, topicsLearned: seq<(string, int)>)

  /** `Object.entries(topics || {})`, best first, at most n. */
  function LevelTopics(l: LevelStats, n: nat): seq<(string, int)>
  {
    if l.topicsLearned.Some? then TopEntries(l.topicsLearned.value, n) else []
  }

  /** The stats shown from a cache level: its counters, its average, its
      buckets or five empty ones, and its n best topics. */
  function FromLevel(l: LevelStats, n: nat): (r: ShownStats)
    ensures r.totalSessions == l.totalSessions && r.totalResponses == l.totalResponses
    ensures r.avgRating.None? <==> l.totalRatingsCount <= 0
    ensures r.avgRating.Some? ==> r.avgRating.value == l.ratingSum as real / l.totalRatingsCount as real
    ensures l.ratingDistribution.None? ==> r.ratingDistribution == EmptyBuckets
  {
    ShownStats(l.totalSessions, l.totalResponses, l.totalRatingsCount, l.totalHours,
               AverageOf(l.ratingSum, l.totalRatingsCount),
               if l.ratingDistribution.Some? then l.ratingDistribution.value else EmptyBuckets,
               LevelTopics(l, n))
  }

  /** The stats shown from a list of sessions: totalSessions is the list's
      length, the rest comes from the accumulated totals. */
  function FromSessions(ss: seq<Session>, topics: seq<(string, int)>): ShownStats
  {
    var t := Accumulate(ss);
    ShownStats(|ss|, t.totalResponses, t.totalRatingsCount, t.minutes / 60.0,
               AverageOf(t.ratingSum, t.totalRatingsCount), t.ratingDistribution, topics)
  }

  /** Stats shown from sessions count every session, sum what the sessions
      with compiled statistics report, fill every bucket with what the
      sessions put in it, and show no average exactly when nothing was
      rated. */
  lemma FromSessionsSums(ss: seq<Session>, topics: seq<(string, int)>, k: string)
    ensures FromSessions(ss, topics).totalSessions == |ss|
    ensures FromSessions(ss, topics).totalResponses == SumOf(ss, ResponsesOf)
    ensures FromSessions(ss, topics).totalRatingsCount == SumOf(ss, RatingCountOf)
    ensures FromSessions(ss, topics).avgRating.None? <==> SumOf(ss, RatingCountOf) <= 0
    ensures FromSessions(ss, topics).avgRating.Some? ==>
      FromSessions(ss, topics).avgRating.value == SumOf(ss, RatingWeightOf) as real / SumOf(ss, RatingCountOf) as real
    ensures FindOr0(FromSessions(ss, topics).ratingDistribution, k) ==
      FindOr0(EmptyBuckets, k) + SumOf(ss, (s: Session) => BucketOf(s, k))
  {
    AccumulateSums(ss);
    AccumulateBuckets(ss, k);
  }

  /** No stats: zero counters, five empty buckets, no average. */
  function NoStats(topics: seq<(string, int)>): ShownStats
  {
    ShownStats(0, 0, 0, 0.0, None, EmptyBuckets, topics)
  }

  // ---------------------------------------------------------------------------
  // The college dashboards' filters and response trend
  // ---------------------------------------------------------------------------

  /** The filter bar of the college dashboards; 'all' selects everything. */
  datatype Filters = Filters(
    projectCode: string, trainerId: string, course: string, department: string,
    year: string, batch: string, dateRange: string)

  /** resetFilters: every filter back to 'all'. */
  function ResetFilters(): (r: Filters)
    ensures r.projectCode == "all" && r.trainerId == "all" && r.course == "all"
    ensures r.department == "all" && r.year == "all" && r.batch == "all" && r.dateRange == "all"
  {
    Filters("all", "all", "all", "all", "all", "all", "all")
  }

  /** One day of a trends map. */
  datatype TrendPoint = TrendPoint(responses: int, sessions: int)

  /** One point of the response chart: the day parsed from the date key. */
  datatype TrendRow = TrendRow(day: Option<int>, responses: int, fullDate: string)

  /** `parseInt(dateStr.split("-")[2])`. */
  function DayOf(dateStr: string): Option<int>
  {
    var parts := Split(dateStr, '-');
    if |parts| >= 3 then ParseInt(parts[2]) else None
  }

  function TrendRowOf(e: (string, TrendPoint)): TrendRow
  {
    TrendRow(DayOf(e.0), e.1.responses, e.0)
  }

  /** Ascending by date key; equal keys keep their order. */
  predicate DateSorted(s: seq<TrendRow>)
  {
    forall i, j :: 0 <= i < j < |s| ==> !StrLt(s[j].fullDate, s[i].fullDate)
  }

  lemma NotBelowTransitive(a: string, b: string, c: string)
    requires !StrLt(b, a) && !StrLt(c, b)
    ensures !StrLt(c, a)
  {
    StrLtTotal(a, b);
    StrLtTotal(b, c);
    if StrLt(c, a) {
      if a != b && b != c {
        StrLtTransitive(a, b, c);
        StrLtAsymmetric(a, c);
      } else if a == b && b != c {
        StrLtAsymmetric(b, c);
      } else if a != b {
        StrLtAsymmetric(a, b);
      } else {
        StrLtIrreflexive(a);
      }
    }
  }

  function InsertByDate(x: TrendRow, s: seq<TrendRow>): (r: seq<TrendRow>)
    ensures multiset(r) == multiset(s) + multiset{x}
    ensures |r| == |s| + 1
  {
    if s == [] then [x]
    else if !StrLt(s[0].fullDate, x.fullDate) then
      assert s == [s[0]] + s[1..];
      [x] + s
    else
      assert s == [s[0]] + s[1..];
      [s[0]] + InsertByDate(x, s[1..])
  }

  lemma AllAtLeast(x: TrendRow, s: seq<TrendRow>)
    requires DateSorted(s) && s != [] && !StrLt(s[0].fullDate, x.fullDate)
    ensures forall j :: 0 <= j < |s| ==> !StrLt(s[j].fullDate, x.fullDate)
  {
    forall j | 0 < j < |s| ensures !StrLt(s[j].fullDate, x.fullDate) {
      NotBelowTransitive(x.fullDate, s[0].fullDate, s[j].fullDate);
    }
  }

  lemma AboveHead(x: TrendRow, s: seq<TrendRow>, t: seq<TrendRow>)
    requires DateSorted(s) && s != [] && StrLt(s[0].fullDate, x.fullDate)
    requires multiset(t) == multiset(s[1..]) + multiset{x}
    ensures forall j :: 0 <= j < |t| ==> !StrLt(t[j].fullDate, s[0].fullDate)
  {
    StrLtAsymmetric(s[0].fullDate, x.fullDate);
    forall j | 0 <= j < |t| ensures !StrLt(t[j].fullDate, s[0].fullDate) {
      assert t[j] in multiset(t);
      if t[j] != x {
        assert t[j] in multiset(s[1..]);
        var k :| 0 <= k < |s[1..]| && s[1..][k] == t[j];
        assert s[k + 1] == t[j];
      }
    }
  }

  lemma {:induction false} InsertByDateSorted(x: TrendRow, s: seq<TrendRow>)
    requires DateSorted(s)
    ensures DateSorted(InsertByDate(x, s))
  {
    if s != [] {
      if !StrLt(s[0].fullDate, x.fullDate) {
        AllAtLeast(x, s);
      } else {
        var t := InsertByDate(x, s[1..]);
        InsertByDateSorted(x, s[1..]);
        AboveHead(x, s, t);
        assert InsertByDate(x, s) == [s[0]] + t;
      }
    }
  }

  /** `sort((a, b) => a.fullDate.localeCompare(b.fullDate))`, stable. */
  function SortByDate(s: seq<TrendRow>): (r: seq<TrendRow>)
    ensures DateSorted(r)
    ensures multiset(r) == multiset(s)
    ensures |r| == |s|
  {
    if s == [] then []
    else
      assert s == [s[0]] + s[1..];
      InsertByDateSorted(s[0], SortByDate(s[1..]));
      InsertByDate(s[0], SortByDate(s[1..]))
  }

  /** responseTrend: one row per day of the trends map, in date order. */
  function ResponseTrend(trends: OMap<TrendPoint>): seq<TrendRow>
  {
    if |trends| == 0 then [] else SortByDate(Map(trends, TrendRowOf))
  }

  /** The chart has one row per trends entry, carrying that day's
      responses, and runs in date order. */
  lemma ResponseTrendShape(trends: OMap<TrendPoint>)
    ensures |ResponseTrend(trends)| == |trends|
    ensures DateSorted(ResponseTrend(trends))
    ensures forall i :: 0 <= i < |ResponseTrend(trends)| ==>
      exists j :: 0 <= j < |trends| && ResponseTrend(trends)[i] == TrendRowOf(trends[j])
  {
    if trends != [] {
      var rows := Map(trends, TrendRowOf);
      var r := SortByDate(rows);
      forall i | 0 <= i < |r| ensures exists j :: 0 <= j < |trends| && r[i] == TrendRowOf(trends[j]) {
        assert r[i] in multiset(rows);
        var j :| 0 <= j < |rows| && rows[j] == r[i];
      }
    }
  }

  // ---------------------------------------------------------------------------
  // Top trainers
  // ---------------------------------------------------------------------------

  /** `{ text, date }` of a recent comment. */
  datatype RecentComment = RecentComment(text: string, date: int)

  /** One entry of `trainerStats`. */
  datatype TrainerTally = TrainerTally(
    name: string, ratingSum: int, ratingCount: int, sessions: nat, responses: int,
    recentComments: seq<RecentComment>)

  /** Push each of the given comments while fewer than three are kept. */
  function PushComments(kept: seq<RecentComment>, texts: seq<string>, date: int): (r: seq<RecentComment>)
    ensures |kept| <= |r| <= |kept| + |texts|
    ensures |kept| <= 3 ==> |r| <= 3
    ensures r[..|kept|] == kept
    decreases |texts|
  {
    if texts == [] then kept
    else
      var next := if |kept| < 3 then kept + [RecentComment(texts[0], date)] else kept;
      var r := PushComments(next, texts[1..], date);
      assert r[..|next|] == next;
      assert next[..|kept|] == kept;
      r
  }

  /** The body of topTrainers' loop for one session. */
  function TallySession(stats: OMap<TrainerTally>, s: Session): OMap<TrainerTally>
  {
    var id := TrainerIdOf(s);
    if id == "" then stats
    else
      var name := if s.assignedTrainer.value.name != "" then s.assignedTrainer.value.name else "Unknown";
      var found := Find(stats, id);
      var t := if found.Some? then found.value else TrainerTally(name, 0, 0, 0, 0, []);
      var t' :=
        if s.compiledStats.None? then t
        else
          var cs := s.compiledStats.value;
          var dist := cs.ratingDistribution;
          t.(ratingSum := t.ratingSum + SumOf(dist, EntryWeight),
             ratingCount := t.ratingCount + SumOf(dist, EntryCount),
             responses := t.responses + cs.totalResponses,
             sessions := t.sessions + 1,
             recentComments := PushComments(t.recentComments, Take(cs.comments, 2), s.sessionDate));
      Put(stats, id, t')
  }

  function TallyAll(ss: seq<Session>): OMap<TrainerTally>
  {
    if ss == [] then [] else TallySession(TallyAll(ss[..|ss| - 1]), ss[|ss| - 1])
  }

  /** One row of the result, its average kept in tenths (`toFixed(1)`;
      0 without ratings). */
  datatype TopTrainer = TopTrainer(id: string, tally: TrainerTally, avgTenths: int)

  function RowOf(e: (string, TrainerTally)): (r: TopTrainer)
    ensures r.id == e.0 && r.tally == e.1
  {
    var t := e.1;
    TopTrainer(e.0, t, if t.ratingCount > 0 then ((t.ratingSum as real * 10.0 / t.ratingCount as real) + 0.5).Floor else 0)
  }

  function AvgTenths(r: TopTrainer): int { r.avgTenths }

  /** topTrainers: the five best averages, in descending order. */
  function TopTrainers(ss: seq<Session>): seq<TopTrainer>
  {
    Take(SortDesc(Map(TallyAll(ss), RowOf), AvgTenths), 5)
  }

  /** Every tally belongs to the trainer id of some session and keeps at
      most three comments. */
  lemma {:induction false} TallyAllShape(ss: seq<Session>)
    ensures forall i :: 0 <= i < |TallyAll(ss)| ==>
      TallyAll(ss)[i].0 != "" && (exists s :: s in ss && TrainerIdOf(s) == TallyAll(ss)[i].0) &&
      |TallyAll(ss)[i].1.recentComments| <= 3
  {
    if ss != [] {
      var init := ss[..|ss| - 1];
      var s := ss[|ss| - 1];
      TallyAllShape(init);
      var m := TallyAll(init);
      var r := TallyAll(ss);
      assert r == TallySession(m, s);
      forall i | 0 <= i < |r|
        ensures r[i].0 != "" && (exists x :: x in ss && TrainerIdOf(x) == r[i].0) && |r[i].1.recentComments| <= 3
      {
        var id := TrainerIdOf(s);
        if id != "" && r[i].0 == id {
          assert s in ss;
          var found := Find(m, id);
          if found.Some? {
            var j := OrderedMap.IndexOf(m, id);
            assert |m[j].1.recentComments| <= 3;
          }
        } else {
          assert i < |m| && r[i] == m[i] by {
            if id != "" {
              if Has(m, id) {
                assert r == m[OrderedMap.IndexOf(m, id) := r[OrderedMap.IndexOf(m, id)]];
              } else {
                assert r == m + [r[|m|]];
                assert r[|m|].0 == id;
              }
            }
          }
          var x :| x in init && TrainerIdOf(x) == m[i].0;
          assert x in ss;
        }
      }
    }
  }

  /** At most five trainers, best first, each a trainer id some session
      carries, none for sessions without one, and at most three comments
      each. */
  lemma TopTrainersShape(ss: seq<Session>)
    ensures |TopTrainers(ss)| <= 5
    ensures SortedDesc(TopTrainers(ss), AvgTenths)
    ensures forall i :: 0 <= i < |TopTrainers(ss)| ==>
      TopTrainers(ss)[i].id != "" && (exists s :: s in ss && TrainerIdOf(s) == TopTrainers(ss)[i].id) &&
      |TopTrainers(ss)[i].tally.recentComments| <= 3
  {
    var rows := Map(TallyAll(ss), RowOf);
    RowsGood(ss);
    var sorted := SortDesc(rows, AvgTenths);
    var r := Take(sorted, 5);
    forall i | 0 <= i < |r| ensures GoodRow(ss, r[i]) {
      assert r[i] == sorted[i];
      assert sorted[i] in multiset(rows);
    }
  }

  lemma RowsGood(ss: seq<Session>)
    ensures forall x :: x in Map(TallyAll(ss), RowOf) ==> GoodRow(ss, x)
  {
    TallyAllShape(ss);
    var rows := Map(TallyAll(ss), RowOf);
    forall x | x in rows ensures GoodRow(ss, x) {
      var j :| 0 <= j < |rows| && rows[j] == x;
      assert rows[j] == RowOf(TallyAll(ss)[j]);
    }
  }

  predicate GoodRow(ss: seq<Session>, r: TopTrainer)
  {
    r.id != "" && (exists s :: s in ss && TrainerIdOf(s) == r.id) && |r.tally.recentComments| <= 3
  }

  /** One session adds at most two comments to its trainer's tally. */
  lemma AtMostTwoPerSession(kept: seq<RecentComment>, comments: seq<string>, date: int)
    ensures |PushComments(kept, Take(comments, 2), date)| <= |kept| + 2
  {
  }

  // ---------------------------------------------------------------------------
  // Session lists: status counts, the status tab, the search box and the
  // newest-first order
  // ---------------------------------------------------------------------------

  /** sessionStats: how many sessions there are, how many are open and how
      many are closed. */
  datatype SessionCounts = SessionCounts(total: nat, active: nat, inactive: nat)

  predicate IsActive(s: Session) { s.status == "active" }
  predicate IsInactive(s: Session) { s.status == "inactive" }
  predicate IsActiveOrInactive(s: Session) { s.status == "active" || s.status == "inactive" }

  /** No session is both open and closed, so the two counts never exceed
      the total. */
  function SessionStats(ss: seq<Session>): (r: SessionCounts)
    ensures r.total == |ss|
    ensures r.active + r.inactive == CountIf(ss, IsActiveOrInactive) <= r.total
    ensures r.active == |Filter(ss, IsActive)| && r.inactive == |Filter(ss, IsInactive)|
  {
    CountIsFilterLength(ss, IsActive);
    CountIsFilterLength(ss, IsInactive);
    CountIfDisjoint(ss, IsActive, IsInactive, IsActiveOrInactive);
    SessionCounts(|ss|, |Filter(ss, IsActive)|, |Filter(ss, IsInactive)|)
  }

  /** The status tab: 'active' and 'inactive' keep that status, any other
      tab ('all') keeps every session. */
  predicate InTab(s: Session, tab: string)
  {
    !(tab == "active" && s.status != "active") && !(tab == "inactive" && s.status != "inactive")
  }

  /** The search box: an empty query matches everything, otherwise the
      query must occur in the topic or the course, ignoring case. */
  predicate MatchesSearch(s: Session, query: string)
  {
    query == "" || ContainsIgnoreCase(s.topic, query) || ContainsIgnoreCase(s.course, query)
  }

  /** The tab keeps exactly its status; the search keeps a session whose
      topic or course holds the query verbatim. */
  lemma TabAndSearch(s: Session, tab: string, query: string)
    ensures tab == "active" ==> (InTab(s, tab) <==> s.status == "active")
    ensures tab == "inactive" ==> (InTab(s, tab) <==> s.status == "inactive")
    ensures tab != "active" && tab != "inactive" ==> InTab(s, tab)
    ensures Contains(s.topic, query) || Contains(s.course, query) ==> MatchesSearch(s, query)
  {
    if Contains(s.topic, query) {
      ContainsIgnoringCase(s.topic, query);
    } else if Contains(s.course, query) {
      ContainsIgnoringCase(s.course, query);
    }
  }

  function DateOf(s: Session): int { s.sessionDate }

  /** `filter(keep).sort((a, b) => new Date(b.sessionDate) - new Date(a.sessionDate))`. */
  function NewestFirst(ss: seq<Session>, keep: Session -> bool): (r: seq<Session>)
    ensures SortedDesc(r, DateOf)
    ensures multiset(r) == multiset(Filter(ss, keep))
    ensures forall s :: s in r <==> s in ss && keep(s)
  {
    var r := SortDesc(Filter(ss, keep), DateOf);
    forall s ensures s in r <==> s in ss && keep(s) {
      FilterMembers(ss, keep, s);
      assert s in r <==> s in multiset(r);
    }
    r
  }
}
