/** The superadmin's view of one trainer: the headline figures and chart
    rows drawn from the trainer's cache document and trends document. */
module TrainerAnalytics {
  import opened Common
  import opened OrderedMap
  import opened Dashboard

  /** `categoryData[cat]`: the summed category averages and their count. */
  datatype CategoryTally = CategoryTally(sum: real, count: int)

  /** The fields of the trainer's cache document the view reads; a missing
      counter is 0. */
  datatype TrainerDoc = TrainerDoc(
    totalSessions: int, totalResponses: int, totalRatingsCount: int, ratingSum: int,
    ratingDistribution: Option<OMap<int>>, categoryData: Option<OMap<CategoryTally>>)

  /** The trainer's trends document for the month. */
  datatype TrendsDoc = TrendsDoc(dailyResponses: Option<OMap<int>>, dailySessions: Option<OMap<int>>)

  datatype TrainerStats = TrainerStats(
    totalSessions: int, totalResponses: int, avgRating: real,
    ratingDistribution: OMap<int>, categoryData: OMap<CategoryTally>)

  /** `cache.totalRatingsCount || Σ Object.values(ratingDistribution)`. */
  function RatingsCount(doc: TrainerDoc): (n: int)
    ensures doc.totalRatingsCount != 0 ==> n == doc.totalRatingsCount
    ensures doc.totalRatingsCount == 0 && doc.ratingDistribution.Some? ==> n == SumOf(doc.ratingDistribution.value, EntryCount)
    ensures doc.totalRatingsCount == 0 && doc.ratingDistribution.None? ==> n == 0
  {
    if doc.totalRatingsCount != 0 then doc.totalRatingsCount
    else if doc.ratingDistribution.Some? then SumOf(doc.ratingDistribution.value, EntryCount)
    else 0
  }

  /** stats: nothing without a cache document; the average is the rating
      sum over the rating count, 0 when the count is not positive. */
  function Stats(cache: Option<TrainerDoc>): (r: Option<TrainerStats>)
    ensures r.None? <==> cache.None?
    ensures r.Some? ==> r.value.totalSessions == cache.value.totalSessions &&
                        r.value.totalResponses == cache.value.totalResponses
    ensures r.Some? && RatingsCount(cache.value) <= 0 ==> r.value.avgRating == 0.0
    ensures r.Some? && RatingsCount(cache.value) > 0 ==>
      r.value.avgRating * RatingsCount(cache.value) as real == cache.value.ratingSum as real
  {
    if cache.None? then None
    else
      var doc := cache.value;
      var n := RatingsCount(doc);
      Some(TrainerStats(doc.totalSessions, doc.totalResponses,
                        if n > 0 then doc.ratingSum as real / n as real else 0.0,
                        if doc.ratingDistribution.Some? then doc.ratingDistribution.value else [],
                        if doc.categoryData.Some? then doc.categoryData.value else []))
  }

  /** Once the per-session counts have been summed into the document, a
      document with no stored rating count falls back to exactly that sum,
      so the average is the mean of the ratings either way. */
  lemma FallbackCountsTheBuckets(doc: TrainerDoc)
    requires doc.totalRatingsCount == 0 && doc.ratingDistribution.Some?
    requires StarEntries(doc.ratingDistribution.value)
    requires doc.ratingSum == SumOf(doc.ratingDistribution.value, EntryWeight)
    requires SumOf(doc.ratingDistribution.value, EntryCount) > 0
    ensures 1.0 <= Stats(Some(doc)).value.avgRating <= 5.0
  {
    var dist := doc.ratingDistribution.value;
    StarWeights(dist);
    AverageIsStar(Totals(0, SumOf(dist, EntryCount), SumOf(dist, EntryWeight), 0.0, []));
  }

  // ---------------------------------------------------------------------------
  // Chart rows
  // ---------------------------------------------------------------------------

  /** One bar of the rating chart: `${rating} Star`, its count and the
      parsed rating. */
  datatype RatingBar = RatingBar(name: string, value: int, rating: Option<int>)

  function BarOf(e: (string, int)): RatingBar
  {
    RatingBar(e.0 + " Star", e.1, ParseInt(e.0))
  }

  /** The sort key; a rating that does not parse is NaN in the source. */
  function BarKey(b: RatingBar): int
  {
    if b.rating.Some? then b.rating.value else 0
  }

  /** ratingData: one bar per distribution entry, ascending by rating. */
  function RatingData(stats: Option<TrainerStats>): (r: seq<RatingBar>)
    ensures stats.None? ==> r == []
    ensures stats.Some? ==> (|r| == |stats.value.ratingDistribution| &&
      multiset(r) == multiset(Map(stats.value.ratingDistribution, BarOf)) && SortedAsc(r, BarKey))
  {
    if stats.None? then [] else SortAsc(Map(stats.value.ratingDistribution, BarOf), BarKey)
  }

  /** Every bar is an entry of the distribution, and the bars count what
      the distribution counts. */
  lemma RatingDataBars(stats: TrainerStats)
    ensures forall i :: 0 <= i < |RatingData(Some(stats))| ==>
      exists j :: 0 <= j < |stats.ratingDistribution| && RatingData(Some(stats))[i] == BarOf(stats.ratingDistribution[j])
    ensures SumOf(RatingData(Some(stats)), (b: RatingBar) => b.value) == SumOf(stats.ratingDistribution, EntryCount)
  {
    var bars := Map(stats.ratingDistribution, BarOf);
    var r := RatingData(Some(stats));
    forall i | 0 <= i < |r| ensures exists j :: 0 <= j < |stats.ratingDistribution| && r[i] == BarOf(stats.ratingDistribution[j]) {
      assert r[i] in multiset(bars);
      var j :| 0 <= j < |bars| && bars[j] == r[i];
    }
    SumOfPermutation(r, bars, (b: RatingBar) => b.value);
    SumOfMap(stats.ratingDistribution, BarOf, (b: RatingBar) => b.value, EntryCount);
  }

  /** The label of a category on the radar chart. */
  function CategoryLabel(key: string): string
  {
    if key == "knowledge" then "Knowledge"
    else if key == "communication" then "Communication"
    else if key == "engagement" then "Engagement"
    else if key == "content" then "Content"
    else if key == "delivery" then "Delivery"
    else if key == "overall" then "Overall"
    else key
  }

  /** One point of the radar chart. */
  datatype RadarPoint = RadarPoint(category: string, score: real, fullMark: int)

  /** A category's score: its sum over its count, 0 when the count is not
      positive. */
  function Score(t: CategoryTally): (r: real)
    ensures t.count <= 0 ==> r == 0.0
    ensures t.count > 0 ==> r * t.count as real == t.sum
  {
    if t.count > 0 then t.sum / t.count as real else 0.0
  }

  function RadarPointOf(e: (string, CategoryTally)): RadarPoint
  {
    RadarPoint(CategoryLabel(e.0), Score(e.1), 5)
  }

  /** radarData: one point per category, in stored order. */
  function RadarData(stats: Option<TrainerStats>): (r: seq<RadarPoint>)
    ensures stats.None? ==> r == []
    ensures stats.Some? ==> (|r| == |stats.value.categoryData| &&
      forall i :: 0 <= i < |r| ==> (r[i].fullMark == 5 && r[i].score == Score(stats.value.categoryData[i].1) &&
        r[i].category == CategoryLabel(stats.value.categoryData[i].0)))
  {
    if stats.None? then [] else Map(stats.value.categoryData, RadarPointOf)
  }

  /** A score whose tallies are averages of ratings is itself between one
      and five. */
  lemma ScoreIsStar(t: CategoryTally)
    requires t.count > 0 && t.count as real <= t.sum <= 5.0 * t.count as real
    ensures 1.0 <= Score(t) <= 5.0
  {
    RatioBetween(t.sum, t.count as real, 1.0, 5.0);
  }

  // ---------------------------------------------------------------------------
  // The month's trend
  // ---------------------------------------------------------------------------

  /** One point of the trend chart. */
  datatype TrendPointRow = TrendPointRow(day: Option<int>, responses: int, sessions: int)

  function TrendRowFor(dailySessions: Option<OMap<int>>): ((string, int)) -> TrendPointRow
  {
    (e: (string, int)) =>
      TrendPointRow(ParseInt(e.0), e.1, if dailySessions.Some? then FindOr0(dailySessions.value, e.0) else 0)
  }

  function DayKey(p: TrendPointRow): int
  {
    if p.day.Some? then p.day.value else 0
  }

  function ResponsesIn(p: TrendPointRow): int { p.responses }

  /** trendData: one point per day of dailyResponses, with that day's
      sessions or 0, ascending by day. */
  function TrendData(trends: Option<TrendsDoc>): (r: seq<TrendPointRow>)
    ensures trends.None? || trends.value.dailyResponses.None? ==> r == []
    ensures SortedAsc(r, DayKey)
  {
    if trends.None? || trends.value.dailyResponses.None? then []
    else SortAsc(Map(trends.value.dailyResponses.value, TrendRowFor(trends.value.dailySessions)), DayKey)
  }

  /** Each point is a day of dailyResponses, carrying that day's count and
      the sessions recorded for the same day (0 when none are). */
  lemma TrendDataPoints(trends: TrendsDoc)
    requires trends.dailyResponses.Some?
    ensures |TrendData(Some(trends))| == |trends.dailyResponses.value|
    ensures forall i :: 0 <= i < |TrendData(Some(trends))| ==>
      exists j :: 0 <= j < |trends.dailyResponses.value| &&
        var e := trends.dailyResponses.value[j];
        TrendData(Some(trends))[i] == TrendPointRow(ParseInt(e.0), e.1,
          if trends.dailySessions.Some? then FindOr0(trends.dailySessions.value, e.0) else 0)
  {
    var rows := Map(trends.dailyResponses.value, TrendRowFor(trends.dailySessions));
    var r := TrendData(Some(trends));
    forall i | 0 <= i < |r|
      ensures exists j :: (0 <= j < |trends.dailyResponses.value| &&
        var e := trends.dailyResponses.value[j];
        r[i] == TrendPointRow(ParseInt(e.0), e.1,
          if trends.dailySessions.Some? then FindOr0(trends.dailySessions.value, e.0) else 0))
    {
      assert r[i] in multiset(rows);
      var j :| 0 <= j < |rows| && rows[j] == r[i];
    }
  }

  /** The "This Month" figure, `trendData.reduce((sum, d) => sum + d.responses, 0)`,
      is the total of dailyResponses. */
  lemma ThisMonthIsTotal(trends: TrendsDoc)
    requires trends.dailyResponses.Some?
    ensures SumOf(TrendData(Some(trends)), ResponsesIn) == SumOf(trends.dailyResponses.value, EntryCount)
  {
    var m := trends.dailyResponses.value;
    var rows := Map(m, TrendRowFor(trends.dailySessions));
    SumOfPermutation(TrendData(Some(trends)), rows, ResponsesIn);
    SumOfMap(m, TrendRowFor(trends.dailySessions), ResponsesIn, EntryCount);
  }
}
