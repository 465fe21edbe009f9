/** The super-admin's analytics page for one college: the trends map built
    from the month documents, the filtered closed sessions, the stats taken
    from the hierarchical cache document or aggregated from the filtered
    sessions, the top trainers, and the filter cascade. */
module CollegeAnalytics {
  import opened Common
  import opened OrderedMap
  import opened Dashboard

  // ---------------------------------------------------------------------------
  // Trends
  // ---------------------------------------------------------------------------

  /** A month's trend document: counts per day-of-month key. */
  datatype TrendDoc = TrendDoc(dailyResponses: Option<OMap<int>>, dailySessions: Option<OMap<int>>)

  datatype Counter = Responses | Sessions

  function PointOr0(p: Option<TrendPoint>): TrendPoint
  {
    if p.Some? then p.value else TrendPoint(0, 0)
  }

  function SetCounter(p: TrendPoint, which: Counter, count: int): TrendPoint
  {
    if which == Responses then p.(responses := count) else p.(sessions := count)
  }

  /** `${yearMonth}-${day}`. */
  function DateKey(yearMonth: string, day: string): string
  {
    yearMonth + "-" + day
  }

  lemma DateKeyInjective(yearMonth: string, a: string, b: string)
    requires DateKey(yearMonth, a) == DateKey(yearMonth, b)
    ensures a == b
  {
    var n := |yearMonth| + 1;
    assert a == DateKey(yearMonth, a)[n..];
    assert b == DateKey(yearMonth, b)[n..];
  }

  /** One forEach of processTrendDoc: each day's point is created at zero
      when missing, then the chosen counter is set to the day's count. */
  function SetAll(m: OMap<TrendPoint>, yearMonth: string, es: OMap<int>, which: Counter): OMap<TrendPoint>
  {
    if es == [] then m
    else
      var prev := SetAll(m, yearMonth, es[..|es| - 1], which);
      var e := es[|es| - 1];
      var key := DateKey(yearMonth, e.0);
      Put(prev, key, SetCounter(PointOr0(Find(prev, key)), which, e.1))
  }

  lemma {:induction false} SetAllFind(m: OMap<TrendPoint>, yearMonth: string, es: OMap<int>, which: Counter, day: string)
    ensures Find(SetAll(m, yearMonth, es, which), DateKey(yearMonth, day)) ==
      if LastFind(es, day).Some?
      then Some(SetCounter(PointOr0(Find(m, DateKey(yearMonth, day))), which, LastFind(es, day).value))
      else Find(m, DateKey(yearMonth, day))
  {
    if es != [] {
      var init := es[..|es| - 1];
      var e := es[|es| - 1];
      var prev := SetAll(m, yearMonth, init, which);
      var key := DateKey(yearMonth, e.0);
      SetAllFind(m, yearMonth, init, which, day);
      PutFindAny(prev, key, SetCounter(PointOr0(Find(prev, key)), which, e.1), DateKey(yearMonth, day));
      if key == DateKey(yearMonth, day) {
        DateKeyInjective(yearMonth, e.0, day);
      }
    }
  }

  function EntriesOf(m: Option<OMap<int>>): OMap<int>
  {
    if m.Some? then m.value else []
  }

  /** processTrendDoc: a missing document adds nothing. */
  function ProcessTrendDoc(m: OMap<TrendPoint>, doc: Option<TrendDoc>, yearMonth: string): OMap<TrendPoint>
  {
    if doc.None? then m
    else
      var withResponses := SetAll(m, yearMonth, EntriesOf(doc.value.dailyResponses), Responses);
      SetAll(withResponses, yearMonth, EntriesOf(doc.value.dailySessions), Sessions)
  }

  /** The point of a day the document mentions holds the document's counts,
      a counter it does not mention staying as it was (0 for a new day);
      other days are untouched. */
  lemma TrendDocPoint(m: OMap<TrendPoint>, doc: TrendDoc, yearMonth: string, day: string)
    ensures var r := Find(ProcessTrendDoc(m, Some(doc), yearMonth), DateKey(yearMonth, day));
      var p := PointOr0(Find(m, DateKey(yearMonth, day)));
      var res := LastFind(EntriesOf(doc.dailyResponses), day);
      var ses := LastFind(EntriesOf(doc.dailySessions), day);
      r == if res.Some? || ses.Some?
           then Some(TrendPoint(if res.Some? then res.value else p.responses,
                                if ses.Some? then ses.value else p.sessions))
           else Find(m, DateKey(yearMonth, day))
  {
    var withResponses := SetAll(m, yearMonth, EntriesOf(doc.dailyResponses), Responses);
    SetAllFind(m, yearMonth, EntriesOf(doc.dailyResponses), Responses, day);
    SetAllFind(withResponses, yearMonth, EntriesOf(doc.dailySessions), Sessions, day);
  }

  // ---------------------------------------------------------------------------
  // Filtered sessions
  // ---------------------------------------------------------------------------

  /** filteredSessions' test; `window` is getDateRange's [start, end] in
      day numbers, None when the range has no bounds. */
  predicate Keep(s: Session, f: Filters, window: Option<(int, int)>)
  {
    s.status == "inactive" && s.compiledStats.Some? &&
    (f.trainerId == "all" || TrainerIdOf(s) == f.trainerId) &&
    (f.course == "all" || s.course == f.course) &&
    (f.department == "all" || s.branch == f.department) &&
    (f.year == "all" || s.year == f.year) &&
    (f.batch == "all" || s.batch == f.batch) &&
    (f.dateRange == "all" || window.None? || window.value.0 <= s.sessionDate <= window.value.1)
  }

  function FilteredSessions(ss: seq<Session>, f: Filters, window: Option<(int, int)>): seq<Session>
  {
    if |ss| == 0 then [] else Filter(ss, (s: Session) => Keep(s, f, window))
  }

  /** The filtered list holds exactly the loaded sessions that pass: closed,
      compiled, and matching every filter that is not 'all'. */
  lemma FilteredExactly(ss: seq<Session>, f: Filters, window: Option<(int, int)>, s: Session)
    ensures s in FilteredSessions(ss, f, window) <==> s in ss && Keep(s, f, window)
    ensures s in FilteredSessions(ss, f, window) ==> s.status == "inactive" && s.compiledStats.Some?
  {
    if |ss| != 0 {
      FilterMembers(ss, (s: Session) => Keep(s, f, window), s);
    }
  }

  // ---------------------------------------------------------------------------
  // Aggregated stats
  // ---------------------------------------------------------------------------

  /** The college's cache document: college, course, year and batch levels. */
  datatype YearNode = YearNode(stats: LevelStats, batches: Option<OMap<LevelStats>>)
  datatype CourseNode = CourseNode(stats: LevelStats, years: Option<OMap<YearNode>>)
  datatype CollegeDoc = CollegeDoc(stats: LevelStats, courses: Option<OMap<CourseNode>>)

  function Lookup<V>(m: Option<OMap<V>>, k: string): Option<V>
  {
    if m.Some? then Find(m.value, k) else None
  }

  /** The level the hierarchy navigation stops at: it goes down to the
      selected course, year and batch while each exists, and stays at the
      last level that does. */
  function Navigate(doc: CollegeDoc, f: Filters): LevelStats
  {
    var c := Lookup(doc.courses, f.course);
    if f.course == "all" || c.None? then doc.stats
    else
      var y := Lookup(c.value.years, f.year);
      if f.year == "all" || y.None? then c.value.stats
      else
        var b := Lookup(y.value.batches, f.batch);
        if f.batch != "all" && b.Some? then b.value else y.value.stats
  }

  /** What navigation ignores: the department filter always (the cache has
      no department level), the year and batch below a missing course, and
      the batch below a missing year. */
  lemma NavigateIgnores(doc: CollegeDoc, f: Filters, department: string, year: string, batch: string)
    ensures Navigate(doc, f.(department := department)) == Navigate(doc, f)
    ensures f.course == "all" || Lookup(doc.courses, f.course).None? ==>
      Navigate(doc, f) == doc.stats && Navigate(doc, f.(year := year, batch := batch)) == doc.stats
    ensures f.course != "all" && Lookup(doc.courses, f.course).Some? ==>
      var c := Lookup(doc.courses, f.course).value;
      (f.year == "all" || Lookup(c.years, f.year).None?) ==>
        Navigate(doc, f) == c.stats && Navigate(doc, f.(batch := batch)) == c.stats
  {
  }

  /** With course, year and batch all found, the view is the batch's. */
  lemma NavigateReachesBatch(doc: CollegeDoc, f: Filters, c: CourseNode, y: YearNode, b: LevelStats)
    requires f.course != "all" && f.year != "all" && f.batch != "all"
    requires Lookup(doc.courses, f.course) == Some(c) && Lookup(c.years, f.year) == Some(y)
    requires Lookup(y.batches, f.batch) == Some(b)
    ensures Navigate(doc, f) == b
  {
  }

  /** No trainer, project code or date range is chosen: the cache answers. */
  predicate IsHierarchical(f: Filters)
  {
    f.trainerId == "all" && f.projectCode == "all" && f.dateRange == "all"
  }

  /** aggregatedStats: the navigated cache level with its ten best topics,
      else the aggregation of the filtered sessions (without topics), else
      nothing. */
  function AggregatedStats(f: Filters, cache: Option<CollegeDoc>, filtered: seq<Session>): (r: ShownStats)
    ensures IsHierarchical(f) && cache.Some? ==> r == FromLevel(Navigate(cache.value, f), 10)
    ensures !(IsHierarchical(f) && cache.Some?) && filtered != [] ==> r == FromSessions(filtered, [])
    ensures !(IsHierarchical(f) && cache.Some?) && filtered == [] ==> r == NoStats([])
  {
    if IsHierarchical(f) && cache.Some? then FromLevel(Navigate(cache.value, f), 10)
    else if filtered != [] then FromSessions(filtered, [])
    else NoStats([])
  }

  /** The hierarchical view shows at most ten topics, largest first, each
      with the count the cache level holds for it. */
  lemma HierarchicalTopics(f: Filters, doc: CollegeDoc)
    requires IsHierarchical(f)
    requires var l := Navigate(doc, f); l.topicsLearned.Some? ==> Keyed(l.topicsLearned.value)
    ensures var r := AggregatedStats(f, Some(doc), []);
      |r.topicsLearned| <= 10 && SortedDesc(r.topicsLearned, EntryCount) &&
      forall i :: 0 <= i < |r.topicsLearned| ==>
        Find(Navigate(doc, f).topicsLearned.value, r.topicsLearned[i].0) == Some(r.topicsLearned[i].1)
  {
    var l := Navigate(doc, f);
    if l.topicsLearned.Some? {
      TopEntriesShape(l.topicsLearned.value, 10);
    }
  }

  /** The dynamic view counts every filtered session and fills each bucket
      with what those sessions put in it. */
  lemma DynamicViewSums(f: Filters, cache: Option<CollegeDoc>, ss: seq<Session>, window: Option<(int, int)>, k: string)
    requires !(IsHierarchical(f) && cache.Some?)
    requires FilteredSessions(ss, f, window) != []
    ensures var filtered := FilteredSessions(ss, f, window);
      var r := AggregatedStats(f, cache, filtered);
      r.totalSessions == |filtered| &&
      r.totalResponses == SumOf(filtered, ResponsesOf) &&
      FindOr0(r.ratingDistribution, k) == FindOr0(EmptyBuckets, k) + SumOf(filtered, (s: Session) => BucketOf(s, k))
  {
    FromSessionsSums(FilteredSessions(ss, f, window), [], k);
  }

  /** topTrainers, over the filtered sessions. */
  function TopTrainersOf(ss: seq<Session>, f: Filters, window: Option<(int, int)>): seq<TopTrainer>
  {
    TopTrainers(FilteredSessions(ss, f, window))
  }

  // ---------------------------------------------------------------------------
  // The filter cascade
  // ---------------------------------------------------------------------------

  /** No department, year or batch is chosen without a course. */
  predicate Consistent(f: Filters)
  {
    f.course == "all" ==> f.department == "all" && f.year == "all" && f.batch == "all"
  }

  /** Choosing a course clears department, year and batch. */
  function SetCourse(f: Filters, v: string): (r: Filters)
    ensures r.course == v && r.department == "all" && r.year == "all" && r.batch == "all"
    ensures r.projectCode == f.projectCode && r.trainerId == f.trainerId && r.dateRange == f.dateRange
  {
    f.(course := v, department := "all", year := "all", batch := "all")
  }

  /** Choosing a department clears year and batch. */
  function SetDepartment(f: Filters, v: string): (r: Filters)
    ensures r.department == v && r.year == "all" && r.batch == "all"
    ensures r.course == f.course && r.projectCode == f.projectCode && r.trainerId == f.trainerId
    ensures r.dateRange == f.dateRange
  {
    f.(department := v, year := "all", batch := "all")
  }

  /** Choosing a year clears the batch and keeps the department. */
  function SetYear(f: Filters, v: string): (r: Filters)
    ensures r.year == v && r.batch == "all"
    ensures r.course == f.course && r.department == f.department && r.projectCode == f.projectCode
    ensures r.trainerId == f.trainerId && r.dateRange == f.dateRange
  {
    f.(year := v, batch := "all")
  }

  /** The department, year and batch selects are disabled while the course
      is 'all'; with that, every change keeps the filters consistent. */
  lemma CascadeKeepsConsistent(f: Filters, v: string)
    requires Consistent(f)
    ensures Consistent(SetCourse(f, v))
    ensures f.course != "all" ==>
      (Consistent(SetDepartment(f, v)) && Consistent(SetYear(f, v)) && Consistent(f.(batch := v)))
  {
  }
}
