/** A college admin's overview tab: the filter bar (its reset and the
    cascade that clears lower filters), the project-code options, the
    aggregation of fetched sessions, the per-filter memo of fetched
    analytics, and the choice between the college's cache document and
    the fetched analytics. */
module CollegeOverview {
  import opened Common
  import opened OrderedMap
  import opened Dashboard

  /** Every filter at 'all': the view the cache document answers. */
  predicate IsDefault(f: Filters)
  {
    f.projectCode == "all" && f.trainerId == "all" && f.course == "all" && f.department == "all" &&
    f.year == "all" && f.batch == "all" && f.dateRange == "all"
  }

  /** resetFilters gives the default view. */
  lemma ResetIsDefault()
    ensures IsDefault(ResetFilters()) && Consistent(ResetFilters())
  {
  }

  // ---------------------------------------------------------------------------
  // The filter cascade
  // ---------------------------------------------------------------------------

  /** A lower level is only chosen below a chosen upper level. */
  predicate Consistent(f: Filters)
  {
    (f.course == "all" ==> f.year == "all") &&
    (f.year == "all" ==> f.department == "all") &&
    (f.department == "all" ==> f.batch == "all")
  }

  /** Choosing a course clears year, department and batch. */
  function SetCourse(f: Filters, v: string): (r: Filters)
    ensures r.course == v && r.year == "all" && r.department == "all" && r.batch == "all"
    ensures r.projectCode == f.projectCode && r.trainerId == f.trainerId && r.dateRange == f.dateRange
  {
    f.(course := v, year := "all", department := "all", batch := "all")
  }

  /** Choosing a year clears department and batch. */
  function SetYear(f: Filters, v: string): (r: Filters)
    ensures r.year == v && r.department == "all" && r.batch == "all"
    ensures r.course == f.course && r.projectCode == f.projectCode && r.trainerId == f.trainerId
    ensures r.dateRange == f.dateRange
  {
    f.(year := v, department := "all", batch := "all")
  }

  /** Choosing a department clears the batch. */
  function SetDepartment(f: Filters, v: string): (r: Filters)
    ensures r.department == v && r.batch == "all"
    ensures r.course == f.course && r.year == f.year && r.projectCode == f.projectCode
    ensures r.trainerId == f.trainerId && r.dateRange == f.dateRange
  {
    f.(department := v, batch := "all")
  }

  /** The year select is disabled while the course is 'all', the department
      select while the year is, the batch select while the department is:
      with those, every change keeps the filters consistent. */
  lemma CascadeKeepsConsistent(f: Filters, v: string)
    requires Consistent(f)
    ensures Consistent(SetCourse(f, v))
    ensures f.course != "all" ==> Consistent(SetYear(f, v))
    ensures f.year != "all" ==> Consistent(SetDepartment(f, v))
    ensures f.department != "all" ==> Consistent(f.(batch := v))
  {
  }

  // ---------------------------------------------------------------------------
  // Project codes
  // ---------------------------------------------------------------------------

  function ProjectIdOf(s: Session): string
  {
    s.projectId
  }

  /** availableProjectCodes: the sorted distinct non-empty project ids of
      the loaded sessions. */
  function AvailableProjectCodes(ss: seq<Session>): (r: seq<string>)
    ensures StrictlySorted(r)
    ensures forall p :: p in r <==> p != "" && exists i :: 0 <= i < |ss| && ss[i].projectId == p
  {
    var r := FieldOptions(ss, (s: Session) => true, ProjectIdOf);
    assert forall p :: p in r <==> p != "" && exists i :: 0 <= i < |ss| && ProjectIdOf(ss[i]) == p;
    r
  }

  // ---------------------------------------------------------------------------
  // Aggregating fetched sessions
  // ---------------------------------------------------------------------------

  /** What aggregateStatsFromSessions returns; its topics are the fifteen
      largest totals. */
  function StatsOf(ss: seq<Session>): ShownStats
  {
    FromSessions(ss, TopEntries(TopicTotals(ss), 15))
  }

  /** aggregateStatsFromSessions: the session loop, then the topic totals. */
  method AggregateStatsFromSessions(ss: seq<Session>) returns (r: ShownStats)
    ensures r == StatsOf(ss)
  {
    var t := AggregateStats(ss);
    r := ShownStats(|ss|, t.totalResponses, t.totalRatingsCount, t.minutes / 60.0,
                    AverageOf(t.ratingSum, t.totalRatingsCount), t.ratingDistribution,
                    TopEntries(TopicTotals(ss), 15));
  }

  /** The topics shown: at most fifteen, largest total first, each with the
      sum of its counts over all sessions. */
  lemma StatsTopics(ss: seq<Session>)
    ensures |StatsOf(ss).topicsLearned| <= 15
    ensures SortedDesc(StatsOf(ss).topicsLearned, EntryCount)
    ensures forall i :: 0 <= i < |StatsOf(ss).topicsLearned| ==>
      StatsOf(ss).topicsLearned[i].1 == SumOf(ss, (s: Session) => TopicCountIn(s, StatsOf(ss).topicsLearned[i].0))
  {
    var m := TopicTotals(ss);
    TopicTotalsCount(ss, "");
    TopEntriesShape(m, 15);
    var r := StatsOf(ss).topicsLearned;
    forall i | 0 <= i < |r|
      ensures r[i].1 == SumOf(ss, (s: Session) => TopicCountIn(s, r[i].0))
    {
      TopicTotalsCount(ss, r[i].0);
    }
  }

  // ---------------------------------------------------------------------------
  // Fetching with a memo per filter set
  // ---------------------------------------------------------------------------

  /** `JSON.stringify({ collegeId, ...filters })`: one key per college and
      filter set. */
  datatype CacheKey = CacheKey(collegeId: string, filters: Filters)

  /** The tab's analyticsData and analyticsCache. */
  datatype View = View(memo: map<CacheKey, ShownStats>, data: Option<ShownStats>)

  /** fetchAnalytics: nothing without a college; the default view drops the
      fetched data; a memoised key is reused; otherwise the fetched sessions
      are aggregated and memoised, and a failed fetch clears the data. */
  function Fetch(v: View, collegeId: string, f: Filters, fetched: Result<seq<Session>>): (r: View)
    ensures collegeId == "" ==> r == v
    ensures collegeId != "" && IsDefault(f) ==> r == v.(data := None)
    ensures forall k :: k in v.memo ==> k in r.memo && r.memo[k] == v.memo[k]
  {
    if collegeId == "" then v
    else if IsDefault(f) then v.(data := None)
    else
      var key := CacheKey(collegeId, f);
      if key in v.memo then v.(data := Some(v.memo[key]))
      else if fetched.Err? then v.(data := None)
      else
        var stats := StatsOf(fetched.value);
        View(v.memo[key := stats], Some(stats))
  }

  /** Once a filter set has been fetched, choosing it again shows the same
      stats whatever a new fetch would return: nothing is fetched twice. */
  lemma RepeatDoesNotRefetch(v: View, collegeId: string, f: Filters, first: Result<seq<Session>>,
                             second: Result<seq<Session>>)
    requires collegeId != "" && !IsDefault(f)
    requires first.Ok? || CacheKey(collegeId, f) in v.memo
    ensures Fetch(Fetch(v, collegeId, f, first), collegeId, f, second) == Fetch(v, collegeId, f, first)
    ensures Fetch(v, collegeId, f, first).data.Some?
  {
  }

  /** aggregatedStats: the cache document's stats in the default view when
      it is loaded, else the fetched stats, else nothing (with the cache's
      topics when there is a cache). */
  function AggregatedStats(f: Filters, cache: Option<LevelStats>, data: Option<ShownStats>): (r: ShownStats)
    ensures IsDefault(f) && cache.Some? ==> r == FromLevel(cache.value, 15)
    ensures !(IsDefault(f) && cache.Some?) && data.Some? ==> r == data.value
    ensures !(IsDefault(f) && cache.Some?) && data.None? ==>
      r.totalSessions == 0 && r.avgRating.None? && r.ratingDistribution == EmptyBuckets
  {
    if IsDefault(f) && cache.Some? then FromLevel(cache.value, 15)
    else if data.Some? then data.value
    else NoStats(if cache.Some? then LevelTopics(cache.value, 15) else [])
  }

  /** After a successful fetch of a new filter set, the tab shows exactly the
      aggregation of the fetched sessions. */
  lemma ShowsFetchedSessions(v: View, collegeId: string, f: Filters, cache: Option<LevelStats>,
                             fetched: seq<Session>)
    requires collegeId != "" && !IsDefault(f) && CacheKey(collegeId, f) !in v.memo
    ensures AggregatedStats(f, cache, Fetch(v, collegeId, f, Ok(fetched)).data) == StatsOf(fetched)
  {
  }

  /** The tab's state, with fetchAnalytics as a method over it; the fetch
      itself is its parameter. */
  class OverviewTab {
    var analyticsCache: map<CacheKey, ShownStats>
    var analyticsData: Option<ShownStats>

    constructor()
      ensures analyticsCache == map[] && analyticsData == None
    {
      analyticsCache := map[];
      analyticsData := None;
    }

    method FetchAnalytics(collegeId: string, f: Filters, fetched: Result<seq<Session>>)
      modifies this
      ensures View(analyticsCache, analyticsData) ==
        Fetch(View(old(analyticsCache), old(analyticsData)), collegeId, f, fetched)
    {
      if collegeId == "" {
        return;
      }
      if IsDefault(f) {
        analyticsData := None;
        return;
      }
      var key := CacheKey(collegeId, f);
      if key in analyticsCache {
        analyticsData := Some(analyticsCache[key]);
        return;
      }
      if fetched.Err? {
        analyticsData := None;
      } else {
        var computed := AggregateStatsFromSessions(fetched.value);
        analyticsCache := analyticsCache[key := computed];
        analyticsData := Some(computed);
      }
    }
  }

  // ---------------------------------------------------------------------------
  // The unused topTrainers memo
  // ---------------------------------------------------------------------------

  /** topTrainers as the tab computes it: over filteredSessions, which is
      the constant empty list, whatever sessions were fetched.  The tab
      never renders the memo. */
  function OverviewTopTrainers(fetched: seq<Session>): (r: seq<TopTrainer>)
    ensures r == []
  {
    var filteredSessions: seq<Session> := [];
    TopTrainers(filteredSessions)
  }

  /** One fetched session with a trainer already gives a top-trainer row,
      yet the memo holds none. */
  lemma OverviewMemoAlwaysEmpty(s: Session)
    requires TrainerIdOf(s) != ""
    ensures OverviewTopTrainers([s]) == [] && TopTrainers([s]) != []
  {
    assert [s][..0] == [];
    var m := TallyAll([s]);
    assert Find(m, TrainerIdOf(s)).Some?;
    assert |Map(m, RowOf)| == |m| > 0;
  }
}
