/** The academic structure of a college, Course -> Year -> Department ->
    Batches, as the editor builds it, and the older Course -> Department ->
    Year -> Batches shape that some readers still expect. Missing levels
    (`years`, `departments`, `batches` absent from a stored document) are
    kept apart from empty ones, because the readers test them with `!x`. */
module AcademicTree {
  import opened Common
  import opened OrderedMap
  import opened Json

  datatype Dept = Dept(batches: Option<seq<string>>)
  datatype Year = Year(departments: Option<OMap<Dept>>)
  datatype Course = Course(years: Option<OMap<Year>>)
  datatype Config = Config(courses: Option<OMap<Course>>)

  /** `x || {}` / `x || []` at each level. */
  function CoursesOf(c: Config): OMap<Course> { if c.courses.Some? then c.courses.value else [] }
  function YearsOf(c: Course): OMap<Year> { if c.years.Some? then c.years.value else [] }
  function DeptsOf(y: Year): OMap<Dept> { if y.departments.Some? then y.departments.value else [] }
  function BatchesOf(d: Dept): seq<string> { if d.batches.Some? then d.batches.value else [] }

  /** Every map of the tree is keyed, as a stored object is. */
  predicate WellKeyedYear(y: Year)
  {
    Keyed(DeptsOf(y))
  }

  predicate WellKeyedCourse(c: Course)
  {
    Keyed(YearsOf(c)) && forall i :: 0 <= i < |YearsOf(c)| ==> WellKeyedYear(YearsOf(c)[i].1)
  }

  predicate WellKeyed(c: Config)
  {
    Keyed(CoursesOf(c)) && forall i :: 0 <= i < |CoursesOf(c)| ==> WellKeyedCourse(CoursesOf(c)[i].1)
  }

  /** The stored document of each level. */
  function StrsJson(s: seq<string>): (r: seq<Json>)
    ensures |r| == |s| && forall i :: 0 <= i < |s| ==> r[i] == JStr(s[i])
  {
    seq(|s|, i requires 0 <= i < |s| => JStr(s[i]))
  }

  function DeptJson(d: Dept): (r: Json)
    ensures r.JObj?
  {
    JObj(if d.batches.Some? then [("batches", JArr(StrsJson(d.batches.value)))] else [])
  }

  function YearJson(y: Year): (r: Json)
    ensures r.JObj?
  {
    JObj(if y.departments.Some? then [("departments", JObj(MapValues(y.departments.value, DeptJson)))] else [])
  }

  function CourseJson(c: Course): (r: Json)
    ensures r.JObj?
  {
    JObj(if c.years.Some? then [("years", JObj(MapValues(c.years.value, YearJson)))] else [])
  }

  function ToJson(c: Config): (r: Json)
    ensures r.JObj?
  {
    JObj(if c.courses.Some? then [("courses", JObj(MapValues(c.courses.value, CourseJson)))] else [])
  }

  /** The older shape: departments directly under a course, years under a
      department, batches under a year. */
  datatype OldYear = OldYear(batches: Option<seq<string>>)
  datatype OldDept = OldDept(years: Option<OMap<OldYear>>)
  datatype OldCourse = OldCourse(departments: Option<OMap<OldDept>>)
  datatype OldConfig = OldConfig(courses: Option<OMap<OldCourse>>)

  function OldYearJson(y: OldYear): (r: Json)
    ensures r.JObj?
  {
    JObj(if y.batches.Some? then [("batches", JArr(StrsJson(y.batches.value)))] else [])
  }

  function OldDeptJson(d: OldDept): (r: Json)
    ensures r.JObj?
  {
    JObj(if d.years.Some? then [("years", JObj(MapValues(d.years.value, OldYearJson)))] else [])
  }

  function OldCourseJson(c: OldCourse): (r: Json)
    ensures r.JObj?
  {
    JObj(if c.departments.Some? then [("departments", JObj(MapValues(c.departments.value, OldDeptJson)))] else [])
  }

  function OldToJson(c: OldConfig): (r: Json)
    ensures r.JObj?
  {
    JObj(if c.courses.Some? then [("courses", JObj(MapValues(c.courses.value, OldCourseJson)))] else [])
  }

  /** Reading the one property of a one-entry object. */
  lemma FindSingle<V>(k: string, v: V, k2: string)
    ensures Find([(k, v)], k2) == if k2 == k then Some(v) else None
  {
    assert Keys([(k, v)]) == [k];
  }
}
