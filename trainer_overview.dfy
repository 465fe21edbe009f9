/** A trainer's own overview: the filter bar over the trainer's sessions
    (college, course, year, department, batch, date range), the option
    lists each drawn from the sessions the filters above it keep, the
    closed sessions the filters select, the stats shown (the trainer's
    cache document in the default view, the selected sessions otherwise)
    and the response trend by day of month. */
module TrainerOverview {
  import opened Common
  import opened OrderedMap
  import opened Dashboard

  /** The trainer overview's filter bar; 'all' selects everything. */
  datatype TrainerFilters = TrainerFilters(
    collegeId: string, course: string, department: string, year: string, batch: string,
    dateRange: string)

  /** The initial filters and resetFilters: every filter at 'all'. */
  function ResetFilters(): (r: TrainerFilters)
    ensures r.collegeId == "all" && r.course == "all" && r.department == "all"
    ensures r.year == "all" && r.batch == "all" && r.dateRange == "all"
  {
    TrainerFilters("all", "all", "all", "all", "all", "all")
  }

  predicate IsDefault(f: TrainerFilters)
  {
    f.collegeId == "all" && f.course == "all" && f.department == "all" && f.year == "all" &&
    f.batch == "all" && f.dateRange == "all"
  }

  /** `session.branch || session.department`: the department a session is
      filtered and listed under. */
  function DeptOf(s: Session): (d: string)
    ensures d == "" <==> s.branch == "" && s.department == ""
    ensures s.branch != "" ==> d == s.branch
  {
    if s.branch != "" then s.branch else s.department
  }

  function CollegeOf(s: Session): string { s.collegeId }
  function CourseOf(s: Session): string { s.course }
  function YearOf(s: Session): string { s.year }
  function BatchOf(s: Session): string { s.batch }

  // ---------------------------------------------------------------------------
  // Option lists
  // ---------------------------------------------------------------------------

  /** The sessions each option list is drawn from: those matching every
      filter above the list's level (0 course, 1 year, 2 department,
      3 batch). */
  predicate Above(s: Session, f: TrainerFilters, level: nat)
  {
    (f.collegeId == "all" || s.collegeId == f.collegeId) &&
    (level < 1 || f.course == "all" || s.course == f.course) &&
    (level < 2 || f.year == "all" || s.year == f.year) &&
    (level < 3 || f.department == "all" || DeptOf(s) == f.department)
  }

  function AboveLevel(f: TrainerFilters, level: nat): Session -> bool
  {
    (s: Session) => Above(s, f, level)
  }

  /** The option list at a level: the sorted distinct non-empty values of
      `field` over the sessions matching the filters above it. */
  function LevelOptions(ss: seq<Session>, f: TrainerFilters, level: nat, field: Session -> string): (r: seq<string>)
    ensures StrictlySorted(r)
    ensures forall v :: v in r <==> v != "" && exists i :: 0 <= i < |ss| && Above(ss[i], f, level) && field(ss[i]) == v
  {
    FieldOptions(ss, AboveLevel(f, level), field)
  }

  /** availableCourses, availableYears, availableDepartments and
      availableBatches. */
  function AvailableCourses(ss: seq<Session>, f: TrainerFilters): seq<string>
  {
    LevelOptions(ss, f, 0, CourseOf)
  }

  function AvailableYears(ss: seq<Session>, f: TrainerFilters): seq<string>
  {
    LevelOptions(ss, f, 1, YearOf)
  }

  function AvailableDepartments(ss: seq<Session>, f: TrainerFilters): seq<string>
  {
    LevelOptions(ss, f, 2, DeptOf)
  }

  function AvailableBatches(ss: seq<Session>, f: TrainerFilters): seq<string>
  {
    LevelOptions(ss, f, 3, BatchOf)
  }

  /** Each list holds exactly the non-empty values of its field among the
      sessions of the selected college, course, year and department above
      it. */
  lemma OptionsDrawnFromAbove(ss: seq<Session>, f: TrainerFilters, v: string)
    ensures v in AvailableCourses(ss, f) <==> (v != "" &&
      exists i :: 0 <= i < |ss| && (f.collegeId == "all" || ss[i].collegeId == f.collegeId) && ss[i].course == v)
    ensures v in AvailableYears(ss, f) <==> (v != "" &&
      exists i :: 0 <= i < |ss| && (f.collegeId == "all" || ss[i].collegeId == f.collegeId) &&
        (f.course == "all" || ss[i].course == f.course) && ss[i].year == v)
    ensures v in AvailableDepartments(ss, f) <==> (v != "" &&
      exists i :: 0 <= i < |ss| && Above(ss[i], f, 2) && (ss[i].branch == v || (ss[i].branch == "" && ss[i].department == v)))
    ensures v in AvailableBatches(ss, f) <==> (v != "" &&
      exists i :: 0 <= i < |ss| && Above(ss[i], f, 3) && ss[i].batch == v)
  {
    assert forall i :: 0 <= i < |ss| ==> (Above(ss[i], f, 0) <==> (f.collegeId == "all" || ss[i].collegeId == f.collegeId));
    assert forall i :: 0 <= i < |ss| ==> (Above(ss[i], f, 1) <==>
      (f.collegeId == "all" || ss[i].collegeId == f.collegeId) && (f.course == "all" || ss[i].course == f.course));
  }

  /** A college entry of the college select. */
  datatype CollegeOption = CollegeOption(id: string, name: string)

  /** The distinct non-empty college ids of the sessions, in first-seen
      order. */
  function CollegeIds(ss: seq<Session>): (ids: seq<string>)
    ensures NoDuplicates(ids)
    ensures forall i :: 0 <= i < |ids| ==> ids[i] != "" && exists j :: 0 <= j < |ss| && ss[j].collegeId == ids[i]
    ensures forall j :: 0 <= j < |ss| && ss[j].collegeId != "" ==> ss[j].collegeId in ids
  {
    var all := Distinct(Map(ss, CollegeOf));
    var ids := Filter(all, NonEmpty);
    FilterUnique(all, NonEmpty);
    forall i | 0 <= i < |ids| ensures ids[i] != "" && exists j :: 0 <= j < |ss| && ss[j].collegeId == ids[i] {
      FilterMembers(all, NonEmpty, ids[i]);
      var j :| 0 <= j < |ss| && Map(ss, CollegeOf)[j] == ids[i];
    }
    forall j | 0 <= j < |ss| && ss[j].collegeId != "" ensures ss[j].collegeId in ids {
      assert Map(ss, CollegeOf)[j] == ss[j].collegeId;
      FilterMembers(all, NonEmpty, ss[j].collegeId);
    }
    ids
  }

  /** `college?.name || 'Unknown College'`. */
  function CollegeName(lookup: string -> Option<string>, id: string): (name: string)
    ensures name == "Unknown College" || lookup(id) == Some(name)
    ensures lookup(id).Some? && lookup(id).value != "" ==> name == lookup(id).value
  {
    if lookup(id).Some? && lookup(id).value != "" then lookup(id).value else "Unknown College"
  }

  /** availableColleges: each distinct non-empty college id of the
      sessions once, in first-seen order, named by `lookup` (the colleges
      store) or 'Unknown College'. */
  function AvailableColleges(ss: seq<Session>, lookup: string -> Option<string>): (r: seq<CollegeOption>)
    ensures forall i, j :: 0 <= i < j < |r| ==> r[i].id != r[j].id
    ensures forall i :: 0 <= i < |r| ==> r[i].id != "" && exists j :: 0 <= j < |ss| && ss[j].collegeId == r[i].id
    ensures forall j :: 0 <= j < |ss| && ss[j].collegeId != "" ==> exists i :: 0 <= i < |r| && r[i].id == ss[j].collegeId
    ensures forall i :: 0 <= i < |r| ==> r[i].name == CollegeName(lookup, r[i].id)
  {
    var ids := CollegeIds(ss);
    var r := Map(ids, (id: string) => CollegeOption(id, CollegeName(lookup, id)));
    forall j | 0 <= j < |ss| && ss[j].collegeId != "" ensures exists i :: 0 <= i < |r| && r[i].id == ss[j].collegeId {
      var i :| 0 <= i < |ids| && ids[i] == ss[j].collegeId;
      assert r[i].id == ids[i];
    }
    r
  }

  // ---------------------------------------------------------------------------
  // The filter cascade
  // ---------------------------------------------------------------------------

  /** A lower level is only chosen below a chosen upper level. */
  predicate Consistent(f: TrainerFilters)
  {
    (f.course == "all" ==> f.year == "all") &&
    (f.year == "all" ==> f.department == "all") &&
    (f.department == "all" ==> f.batch == "all")
  }

  /** Choosing a college clears course, department, year and batch. */
  function SetCollege(f: TrainerFilters, v: string): (r: TrainerFilters)
    ensures r.collegeId == v && r.course == "all" && r.department == "all" && r.year == "all" && r.batch == "all"
    ensures r.dateRange == f.dateRange
  {
    f.(collegeId := v, course := "all", department := "all", year := "all", batch := "all")
  }

  /** Choosing a course clears year, department and batch. */
  function SetCourse(f: TrainerFilters, v: string): (r: TrainerFilters)
    ensures r.course == v && r.year == "all" && r.department == "all" && r.batch == "all"
    ensures r.collegeId == f.collegeId && r.dateRange == f.dateRange
  {
    f.(course := v, year := "all", department := "all", batch := "all")
  }

  /** Choosing a year clears department and batch. */
  function SetYear(f: TrainerFilters, v: string): (r: TrainerFilters)
    ensures r.year == v && r.department == "all" && r.batch == "all"
    ensures r.collegeId == f.collegeId && r.course == f.course && r.dateRange == f.dateRange
  {
    f.(year := v, department := "all", batch := "all")
  }

  /** Choosing a department clears the batch. */
  function SetDepartment(f: TrainerFilters, v: string): (r: TrainerFilters)
    ensures r.department == v && r.batch == "all"
    ensures r.collegeId == f.collegeId && r.course == f.course && r.year == f.year
    ensures r.dateRange == f.dateRange
  {
    f.(department := v, batch := "all")
  }

  /** The year select is disabled while the course is 'all', the department
      select while the year is, the batch select while the department is:
      with those, every change keeps the filters consistent. */
  lemma CascadeKeepsConsistent(f: TrainerFilters, v: string)
    requires Consistent(f)
    ensures Consistent(SetCollege(f, v)) && Consistent(SetCourse(f, v))
    ensures f.course != "all" ==> Consistent(SetYear(f, v))
    ensures f.year != "all" ==> Consistent(SetDepartment(f, v))
    ensures f.department != "all" ==> Consistent(f.(batch := v))
    ensures Consistent(f.(dateRange := v))
  {
  }

  // ---------------------------------------------------------------------------
  // Filtered sessions and the stats shown
  // ---------------------------------------------------------------------------

  /** filteredSessions' test; `window` is getDateRange's [start, end] in
      day numbers, None when the range has no bounds. */
  predicate Keep(s: Session, f: TrainerFilters, window: Option<(int, int)>)
  {
    s.status == "inactive" && s.compiledStats.Some? &&
    Above(s, f, 3) &&
    (f.batch == "all" || s.batch == f.batch) &&
    (f.dateRange == "all" || window.None? || window.value.0 <= s.sessionDate <= window.value.1)
  }

  function FilteredSessions(ss: seq<Session>, f: TrainerFilters, window: Option<(int, int)>): seq<Session>
  {
    Filter(ss, (s: Session) => Keep(s, f, window))
  }

  /** The filtered list holds exactly the trainer's sessions that are
      closed, compiled and match every filter. */
  lemma FilteredExactly(ss: seq<Session>, f: TrainerFilters, window: Option<(int, int)>, s: Session)
    ensures s in FilteredSessions(ss, f, window) <==> s in ss && Keep(s, f, window)
    ensures s in FilteredSessions(ss, f, window) ==> s.status == "inactive" && s.compiledStats.Some?
  {
    FilterMembers(ss, (s: Session) => Keep(s, f, window), s);
  }

  /** Whatever session the filters select, its course, year, department
      and batch are among the options offered for the filters: a selected
      session's values never drop out of the selects. */
  lemma FilteredValuesOffered(ss: seq<Session>, f: TrainerFilters, window: Option<(int, int)>, s: Session)
    requires s in FilteredSessions(ss, f, window)
    ensures s.course != "" ==> s.course in AvailableCourses(ss, f)
    ensures s.year != "" ==> s.year in AvailableYears(ss, f)
    ensures DeptOf(s) != "" ==> DeptOf(s) in AvailableDepartments(ss, f)
    ensures s.batch != "" ==> s.batch in AvailableBatches(ss, f)
  {
    FilteredExactly(ss, f, window, s);
    var i :| 0 <= i < |ss| && ss[i] == s;
    assert Above(ss[i], f, 0) && Above(ss[i], f, 1) && Above(ss[i], f, 2) && Above(ss[i], f, 3);
  }

  /** aggregatedStats: the trainer's cache document in the default view
      when it is loaded, otherwise the filtered sessions aggregated.  The
      trainer's view lists no topics. */
  function AggregatedStats(f: TrainerFilters, cache: Option<LevelStats>, filtered: seq<Session>): (r: ShownStats)
    ensures IsDefault(f) && cache.Some? ==> r == FromLevel(cache.value, 0)
    ensures !(IsDefault(f) && cache.Some?) ==> r == FromSessions(filtered, [])
    ensures r.topicsLearned == []
  {
    if IsDefault(f) && cache.Some? then FromLevel(cache.value, 0) else FromSessions(filtered, [])
  }

  /** Outside the cached default view the card counts the selected sessions,
      sums their responses and ratings, and shows an average exactly when
      something was rated. */
  lemma FilteredViewSums(f: TrainerFilters, cache: Option<LevelStats>, ss: seq<Session>,
                         window: Option<(int, int)>, k: string)
    requires !(IsDefault(f) && cache.Some?)
    ensures var filtered := FilteredSessions(ss, f, window);
      var r := AggregatedStats(f, cache, filtered);
      r.totalSessions == |filtered| &&
      r.totalResponses == SumOf(filtered, ResponsesOf) &&
      r.totalRatingsCount == SumOf(filtered, RatingCountOf) &&
      (r.avgRating.Some? <==> SumOf(filtered, RatingCountOf) > 0) &&
      FindOr0(r.ratingDistribution, k) == FindOr0(EmptyBuckets, k) + SumOf(filtered, (s: Session) => BucketOf(s, k))
  {
    FromSessionsSums(FilteredSessions(ss, f, window), [], k);
  }

  // ---------------------------------------------------------------------------
  // Response trend
  // ---------------------------------------------------------------------------

  /** One point of the trainer's response chart. */
  datatype DayPoint = DayPoint(day: Option<int>, responses: int)

  function DayPointOf(e: (string, int)): DayPoint
  {
    DayPoint(ParseInt(e.0), e.1)
  }

  /** The sort key; a day that does not parse is NaN in the source. */
  function DayKey(p: DayPoint): int
  {
    if p.day.Some? then p.day.value else 0
  }

  /** responseTrend: nothing without a dailyResponses map, otherwise one
      point per entry, ordered by day. */
  function ResponseTrend(dailyResponses: Option<OMap<int>>): seq<DayPoint>
  {
    if dailyResponses.None? then []
    else SortAsc(Map(dailyResponses.value, DayPointOf), DayKey)
  }

  /** The chart has one point per entry of the map, each carrying an
      entry's parsed day and count, ascending by day when every key
      parses. */
  lemma ResponseTrendShape(dailyResponses: Option<OMap<int>>)
    ensures dailyResponses.None? ==> ResponseTrend(dailyResponses) == []
    ensures dailyResponses.Some? ==> |ResponseTrend(dailyResponses)| == |dailyResponses.value|
    ensures dailyResponses.Some? ==> forall i :: 0 <= i < |ResponseTrend(dailyResponses)| ==>
      exists j :: 0 <= j < |dailyResponses.value| &&
        ResponseTrend(dailyResponses)[i] == DayPoint(ParseInt(dailyResponses.value[j].0), dailyResponses.value[j].1)
    ensures dailyResponses.Some? && (forall j :: 0 <= j < |dailyResponses.value| ==> ParseInt(dailyResponses.value[j].0).Some?) ==>
      forall i, j :: 0 <= i < j < |ResponseTrend(dailyResponses)| ==>
        ResponseTrend(dailyResponses)[i].day.value <= ResponseTrend(dailyResponses)[j].day.value
  {
    if dailyResponses.Some? {
      TrendPointsFrom(dailyResponses.value);
      TrendOrdered(dailyResponses.value);
    }
  }

  lemma TrendPointsFrom(m: OMap<int>)
    ensures var r := ResponseTrend(Some(m));
      forall i :: 0 <= i < |r| ==> exists j :: 0 <= j < |m| && r[i] == DayPoint(ParseInt(m[j].0), m[j].1)
  {
    var points := Map(m, DayPointOf);
    var r := SortAsc(points, DayKey);
    forall i | 0 <= i < |r| ensures exists j :: 0 <= j < |m| && r[i] == DayPoint(ParseInt(m[j].0), m[j].1) {
      var j := InMultisetAt(points, r[i]);
      assert points[j] == DayPointOf(m[j]);
    }
  }

  lemma TrendOrdered(m: OMap<int>)
    ensures (forall j :: 0 <= j < |m| ==> ParseInt(m[j].0).Some?) ==>
      var r := ResponseTrend(Some(m));
      (forall i :: 0 <= i < |r| ==> r[i].day.Some?) && forall i, j :: 0 <= i < j < |r| ==> DayKey(r[i]) <= DayKey(r[j])
  {
    var points := Map(m, DayPointOf);
    var r := SortAsc(points, DayKey);
    if forall j :: 0 <= j < |m| ==> ParseInt(m[j].0).Some? {
      forall i | 0 <= i < |r| ensures r[i].day.Some? {
        var j := InMultisetAt(points, r[i]);
        assert points[j] == DayPointOf(m[j]);
      }
    }
  }
}
