/** A college admin's sessions tab: the status counts, the cascading
    course, year, department and batch options drawn from the loaded
    sessions, the filtered and searched list in newest-first order, and the
    reset and cascade of the filter bar.  Departments here are the sessions'
    `branch`. */
module CollegeSessionsTab {
  import opened Common
  import opened Dashboard

  /** The tab's filter bar; 'all' selects everything. */
  datatype SessionFilters = SessionFilters(
    course: string, department: string, year: string, batch: string, trainer: string,
    dateRange: string)

  /** The filter bar together with the search box. */
  datatype ListState = ListState(filters: SessionFilters, searchQuery: string)

  /** The Reset button: every filter back to 'all' and the search cleared. */
  function Reset(): (r: ListState)
    ensures r.searchQuery == ""
    ensures r.filters.course == "all" && r.filters.department == "all" && r.filters.year == "all"
    ensures r.filters.batch == "all" && r.filters.trainer == "all" && r.filters.dateRange == "all"
  {
    ListState(SessionFilters("all", "all", "all", "all", "all", "all"), "")
  }

  // ---------------------------------------------------------------------------
  // Option lists
  // ---------------------------------------------------------------------------

  /** The sessions an option list is drawn from: those of the selected
      course (from level 1), year (from level 2) and branch (level 3). */
  predicate Above(s: Session, f: SessionFilters, level: nat)
  {
    (level < 1 || f.course == "all" || s.course == f.course) &&
    (level < 2 || f.year == "all" || s.year == f.year) &&
    (level < 3 || f.department == "all" || s.branch == f.department)
  }

  function AboveLevel(f: SessionFilters, level: nat): Session -> bool
  {
    (s: Session) => Above(s, f, level)
  }

  function CourseOf(s: Session): string { s.course }
  function YearOf(s: Session): string { s.year }
  function BranchOf(s: Session): string { s.branch }
  function BatchOf(s: Session): string { s.batch }

  datatype FilterOptions = FilterOptions(
    courses: seq<string>, years: seq<string>, departments: seq<string>, batches: seq<string>)

  /** filterOptions: each list the sorted distinct non-empty values of its
      field over the sessions matching the filters above it. */
  function Options(ss: seq<Session>, f: SessionFilters): (r: FilterOptions)
    ensures StrictlySorted(r.courses) && StrictlySorted(r.years)
    ensures StrictlySorted(r.departments) && StrictlySorted(r.batches)
  {
    FilterOptions(FieldOptions(ss, AboveLevel(f, 0), CourseOf), FieldOptions(ss, AboveLevel(f, 1), YearOf),
                  FieldOptions(ss, AboveLevel(f, 2), BranchOf), FieldOptions(ss, AboveLevel(f, 3), BatchOf))
  }

  /** Courses come from every session, years from the selected course's,
      departments from the selected course and year's, batches from the
      selected course, year and department's. */
  lemma OptionsDrawnFromAbove(ss: seq<Session>, f: SessionFilters, v: string)
    ensures v in Options(ss, f).courses <==> (v != "" && exists i :: 0 <= i < |ss| && ss[i].course == v)
    ensures v in Options(ss, f).years <==> (v != "" &&
      exists i :: 0 <= i < |ss| && (f.course == "all" || ss[i].course == f.course) && ss[i].year == v)
    ensures v in Options(ss, f).departments <==> (v != "" &&
      exists i :: 0 <= i < |ss| && Above(ss[i], f, 2) && ss[i].branch == v)
    ensures v in Options(ss, f).batches <==> (v != "" &&
      exists i :: 0 <= i < |ss| && Above(ss[i], f, 3) && ss[i].batch == v)
  {
    assert forall i :: 0 <= i < |ss| ==> Above(ss[i], f, 0);
    assert forall i :: 0 <= i < |ss| ==> (Above(ss[i], f, 1) <==> (f.course == "all" || ss[i].course == f.course));
  }

  // ---------------------------------------------------------------------------
  // The filter cascade
  // ---------------------------------------------------------------------------

  predicate Consistent(f: SessionFilters)
  {
    (f.course == "all" ==> f.year == "all") &&
    (f.year == "all" ==> f.department == "all") &&
    (f.department == "all" ==> f.batch == "all")
  }

  /** Choosing a course clears year, department and batch. */
  function SetCourse(f: SessionFilters, v: string): (r: SessionFilters)
    ensures r.course == v && r.year == "all" && r.department == "all" && r.batch == "all"
    ensures r.trainer == f.trainer && r.dateRange == f.dateRange
  {
    f.(course := v, year := "all", department := "all", batch := "all")
  }

  /** Choosing a year clears department and batch. */
  function SetYear(f: SessionFilters, v: string): (r: SessionFilters)
    ensures r.year == v && r.department == "all" && r.batch == "all"
    ensures r.course == f.course && r.trainer == f.trainer && r.dateRange == f.dateRange
  {
    f.(year := v, department := "all", batch := "all")
  }

  /** Choosing a department clears the batch. */
  function SetDepartment(f: SessionFilters, v: string): (r: SessionFilters)
    ensures r.department == v && r.batch == "all"
    ensures r.course == f.course && r.year == f.year && r.trainer == f.trainer && r.dateRange == f.dateRange
  {
    f.(department := v, batch := "all")
  }

  /** The year select is disabled while the course is 'all', the department
      select while the year is, the batch select while the department is:
      with those, every change keeps the filters consistent. */
  lemma CascadeKeepsConsistent(f: SessionFilters, v: string)
    requires Consistent(f)
    ensures Consistent(Reset().filters) && Consistent(SetCourse(f, v))
    ensures f.course != "all" ==> Consistent(SetYear(f, v))
    ensures f.year != "all" ==> Consistent(SetDepartment(f, v))
    ensures f.department != "all" ==> Consistent(f.(batch := v))
    ensures Consistent(f.(trainer := v))
  {
  }

  // ---------------------------------------------------------------------------
  // The filtered list
  // ---------------------------------------------------------------------------

  /** The dropdown filters; `window` is getDateRange's interval in day
      numbers, None for a range without bounds. */
  predicate MatchesFilters(s: Session, f: SessionFilters, window: Option<(int, int)>)
  {
    (f.course == "all" || s.course == f.course) &&
    (f.department == "all" || s.branch == f.department) &&
    (f.year == "all" || s.year == f.year) &&
    (f.batch == "all" || s.batch == f.batch) &&
    (f.trainer == "all" || (s.assignedTrainer.Some? && s.assignedTrainer.value.id == f.trainer)) &&
    (f.dateRange == "all" || window.None? || window.value.0 <= s.sessionDate <= window.value.1)
  }

  predicate Passes(s: Session, tab: string, st: ListState, window: Option<(int, int)>)
  {
    InTab(s, tab) && MatchesSearch(s, st.searchQuery) && MatchesFilters(s, st.filters, window)
  }

  /** filteredSessions: the sessions of the tab that match the search and
      every filter, newest first. */
  function FilteredSessions(ss: seq<Session>, tab: string, st: ListState, window: Option<(int, int)>): (r: seq<Session>)
    ensures SortedDesc(r, DateOf)
    ensures forall s :: s in r <==> s in ss && Passes(s, tab, st, window)
    ensures multiset(r) == multiset(Filter(ss, (s: Session) => Passes(s, tab, st, window)))
  {
    NewestFirst(ss, (s: Session) => Passes(s, tab, st, window))
  }

  /** After Reset the 'all' tab lists every session, newest first. */
  lemma ResetListsEverything(ss: seq<Session>, window: Option<(int, int)>)
    ensures multiset(FilteredSessions(ss, "all", Reset(), window)) == multiset(ss)
  {
    var keep := (s: Session) => Passes(s, "all", Reset(), window);
    FilterAll(ss, keep);
  }
}
