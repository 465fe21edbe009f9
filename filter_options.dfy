/** The course, year, department and batch option lists that the college
    dashboards draw from a college's academic configuration
    (Course -> Year -> Department -> Batches).  A lower list is empty while
    the course is 'all'; a selected year or department narrows the scan to
    that key, 'all' scans every key. */
module FilterOptions {
  import opened Common
  import opened OrderedMap
  import opened AcademicTree

  function CourseAt(cfg: Config, course: string): Option<Course>
  {
    Find(CoursesOf(cfg), course)
  }

  /** availableCourses: the course keys in stored order. */
  function AvailableCourses(cfg: Config): (r: seq<string>)
    ensures forall k :: k in r <==> Has(CoursesOf(cfg), k)
  {
    Keys(CoursesOf(cfg))
  }

  /** availableYears: the sorted year keys of the selected course. */
  function AvailableYears(cfg: Config, course: string): (r: seq<string>)
    ensures StrictlySorted(r)
    ensures course == "all" || CourseAt(cfg, course).None? ==> r == []
    ensures forall y :: y in r <==>
      course != "all" && CourseAt(cfg, course).Some? && Has(YearsOf(CourseAt(cfg, course).value), y)
  {
    if course == "all" then []
    else
      var c := CourseAt(cfg, course);
      if c.None? then [] else SortedDistinct(Keys(YearsOf(c.value)))
  }

  function DeptKeys(y: Year): seq<string>
  {
    Keys(DeptsOf(y))
  }

  /** availableDepartments: the sorted distinct department keys of the
      selected year, or of every year when the year is 'all'. */
  function AvailableDepartments(cfg: Config, course: string, year: string): (r: seq<string>)
    ensures StrictlySorted(r)
    ensures course == "all" ==> r == []
  {
    if course == "all" then []
    else
      var c := CourseAt(cfg, course);
      if c.None? then []
      else if year != "all" then
        var y := Find(YearsOf(c.value), year);
        if y.Some? then SortedDistinct(DeptKeys(y.value)) else []
      else SortedDistinct(Concat(Map(Values(YearsOf(c.value)), DeptKeys)))
  }

  /** A department is offered: some year of the course in the year filter
      has it. */
  predicate DeptOffered(cfg: Config, course: string, year: string, d: string)
  {
    course != "all" && CourseAt(cfg, course).Some? &&
    var ys := YearsOf(CourseAt(cfg, course).value);
    exists i :: 0 <= i < |ys| && (year == "all" || ys[i].0 == year) && Has(DeptsOf(ys[i].1), d)
  }

  /** One selected year: its departments are the offered ones. */
  lemma DepartmentsOfYear(cfg: Config, course: string, year: string, d: string)
    requires WellKeyed(cfg) && course != "all" && CourseAt(cfg, course).Some? && year != "all"
    ensures d in AvailableDepartments(cfg, course, year) <==> DeptOffered(cfg, course, year, d)
  {
    var c := CourseAt(cfg, course).value;
    var ys := YearsOf(c);
    assert WellKeyedCourse(c) by {
      assert c == CoursesOf(cfg)[OrderedMap.IndexOf(CoursesOf(cfg), course)].1;
    }
    var y := Find(ys, year);
    if y.Some? {
      var k := OrderedMap.IndexOf(ys, year);
      assert ys[k].1 == y.value;
      if DeptOffered(cfg, course, year, d) {
        var i :| 0 <= i < |ys| && ys[i].0 == year && Has(DeptsOf(ys[i].1), d);
        KeyedIndex(ys, year, i);
      }
    }
  }

  /** Every year: the departments of all the course's years. */
  lemma DepartmentsOfAllYears(cfg: Config, course: string, d: string)
    requires course != "all" && CourseAt(cfg, course).Some?
    ensures d in AvailableDepartments(cfg, course, "all") <==> DeptOffered(cfg, course, "all", d)
  {
    var ys := YearsOf(CourseAt(cfg, course).value);
    var lists := Map(Values(ys), DeptKeys);
    InConcat(lists, d);
    if DeptOffered(cfg, course, "all", d) {
      var i :| 0 <= i < |ys| && Has(DeptsOf(ys[i].1), d);
      assert d in lists[i];
    }
  }

  /** In a well-keyed configuration the department list holds exactly the
      offered departments. */
  lemma DepartmentsOffered(cfg: Config, course: string, year: string, d: string)
    requires WellKeyed(cfg)
    ensures d in AvailableDepartments(cfg, course, year) <==> DeptOffered(cfg, course, year, d)
  {
    if course != "all" && CourseAt(cfg, course).Some? {
      if year != "all" {
        DepartmentsOfYear(cfg, course, year, d);
      } else {
        DepartmentsOfAllYears(cfg, course, d);
      }
    }
  }

  /** The years, then the departments, that availableBatches scans. */
  function ScanYears(c: Course, year: string): seq<string>
  {
    if year != "all" then [year] else Keys(YearsOf(c))
  }

  function ScanDepts(y: Year, dept: string): seq<string>
  {
    if dept != "all" then [dept] else Keys(DeptsOf(y))
  }

  function DeptBatches(y: Year): string -> seq<string>
  {
    (dk: string) => var d := Find(DeptsOf(y), dk); if d.Some? then BatchesOf(d.value) else []
  }

  function YearBatches(c: Course, dept: string): string -> seq<string>
  {
    (yk: string) =>
      var y := Find(YearsOf(c), yk);
      if y.Some? then Concat(Map(ScanDepts(y.value, dept), DeptBatches(y.value))) else []
  }

  /** availableBatches: the sorted distinct batches of the scanned years
      and departments. */
  function AvailableBatches(cfg: Config, course: string, year: string, dept: string): (r: seq<string>)
    ensures StrictlySorted(r)
    ensures course == "all" ==> r == []
  {
    if course == "all" then []
    else
      var c := CourseAt(cfg, course);
      if c.None? then [] else SortedDistinct(Concat(Map(ScanYears(c.value, year), YearBatches(c.value, dept))))
  }

  /** A batch is offered in one year: some department in the department
      filter lists it. */
  predicate BatchInYear(y: Year, dept: string, b: string)
  {
    var ds := DeptsOf(y);
    exists j :: 0 <= j < |ds| && (dept == "all" || ds[j].0 == dept) && b in BatchesOf(ds[j].1)
  }

  lemma YearBatchesOffered(y: Year, dept: string, b: string)
    requires WellKeyedYear(y)
    ensures b in Concat(Map(ScanDepts(y, dept), DeptBatches(y))) <==> BatchInYear(y, dept, b)
  {
    var ds := DeptsOf(y);
    var lists := Map(ScanDepts(y, dept), DeptBatches(y));
    InConcat(lists, b);
    if b in Concat(lists) {
      var i :| 0 <= i < |lists| && b in lists[i];
      var dk := ScanDepts(y, dept)[i];
      var j := OrderedMap.IndexOf(ds, dk);
      assert b in BatchesOf(ds[j].1);
    }
    if BatchInYear(y, dept, b) {
      var j :| 0 <= j < |ds| && (dept == "all" || ds[j].0 == dept) && b in BatchesOf(ds[j].1);
      KeyedIndex(ds, ds[j].0, j);
      var i := if dept != "all" then 0 else j;
      assert b in lists[i];
    }
  }

  /** A batch is offered: some year in the year filter has it in some
      department in the department filter. */
  predicate BatchOffered(cfg: Config, course: string, year: string, dept: string, b: string)
  {
    course != "all" && CourseAt(cfg, course).Some? && BatchInCourse(CourseAt(cfg, course).value, year, dept, b)
  }

  /** The course of a well-keyed configuration is well keyed. */
  lemma CourseWellKeyed(cfg: Config, course: string)
    requires WellKeyed(cfg) && CourseAt(cfg, course).Some?
    ensures WellKeyedCourse(CourseAt(cfg, course).value)
  {
    assert CourseAt(cfg, course).value == CoursesOf(cfg)[OrderedMap.IndexOf(CoursesOf(cfg), course)].1;
  }

  /** The batches a course's scan collects. */
  function ScannedBatches(c: Course, year: string, dept: string): seq<string>
  {
    Concat(Map(ScanYears(c, year), YearBatches(c, dept)))
  }

  /** Some year in the year filter has the batch. */
  predicate BatchInCourse(c: Course, year: string, dept: string, b: string)
  {
    var ys := YearsOf(c);
    exists i :: 0 <= i < |ys| && (year == "all" || ys[i].0 == year) && BatchInYear(ys[i].1, dept, b)
  }

  lemma ScannedIsInCourse(c: Course, year: string, dept: string, b: string)
    requires WellKeyedCourse(c)
    requires b in ScannedBatches(c, year, dept)
    ensures BatchInCourse(c, year, dept, b)
  {
    var ys := YearsOf(c);
    var lists := Map(ScanYears(c, year), YearBatches(c, dept));
    InConcat(lists, b);
    var i :| 0 <= i < |lists| && b in lists[i];
    var yk := ScanYears(c, year)[i];
    var k := OrderedMap.IndexOf(ys, yk);
    YearBatchesOffered(ys[k].1, dept, b);
  }

  lemma InCourseIsScanned(c: Course, year: string, dept: string, b: string)
    requires WellKeyedCourse(c)
    requires BatchInCourse(c, year, dept, b)
    ensures b in ScannedBatches(c, year, dept)
  {
    var ys := YearsOf(c);
    var lists := Map(ScanYears(c, year), YearBatches(c, dept));
    var k :| 0 <= k < |ys| && (year == "all" || ys[k].0 == year) && BatchInYear(ys[k].1, dept, b);
    var yk := ys[k].0;
    KeyedIndex(ys, yk, k);
    YearBatchesOffered(ys[k].1, dept, b);
    var i := if year != "all" then 0 else k;
    assert ScanYears(c, year)[i] == yk;
    assert b in lists[i];
    InConcat(lists, b);
  }

  /** In a well-keyed configuration the batch list holds exactly the
      offered batches. */
  lemma BatchesOffered(cfg: Config, course: string, year: string, dept: string, b: string)
    requires WellKeyed(cfg)
    ensures b in AvailableBatches(cfg, course, year, dept) <==> BatchOffered(cfg, course, year, dept, b)
  {
    if course != "all" && CourseAt(cfg, course).Some? {
      var c := CourseAt(cfg, course).value;
      CourseWellKeyed(cfg, course);
      assert AvailableBatches(cfg, course, year, dept) == SortedDistinct(ScannedBatches(c, year, dept));
      if b in ScannedBatches(c, year, dept) {
        ScannedIsInCourse(c, year, dept, b);
      }
      if BatchInCourse(c, year, dept, b) {
        InCourseIsScanned(c, year, dept, b);
      }
    }
  }
}
