/** The college admin's academic-structure editor. The stored course table
    (course -> year names and department names) and subject table
    (course -> year -> department -> subject names) are expanded into a
    nested list of courses, edited in place through prompts, and flattened
    back into the two tables on save. */
module AdminAcademicConfig {
  import opened Common
  import opened OrderedMap
  import AcademicLibTs

  /** One row of the stored course table; either list may be absent. */
  datatype CourseInfo = CourseInfo(years: Option<seq<string>>, departments: Option<seq<string>>)
  type CourseData = OMap<CourseInfo>
  type SubjectsData = AcademicLibTs.SubjectsData

  /** The editor's nested list. Subjects and batches are lists of names. */
  datatype Dept = Dept(name: string, subjects: seq<string>, batches: seq<string>)
  datatype Year = Year(name: string, departments: seq<Dept>)
  datatype Course = Course(name: string, years: seq<Year>)

  /** The batches every loaded department gets, whatever is stored. */
  const DefaultBatches: seq<string> := ["A", "B", "C", "D"]

  function OrEmpty<V>(m: Option<OMap<V>>): OMap<V>
  {
    if m.Some? then m.value else []
  }

  /** `courseInfo.years || []` and `courseInfo.departments || []`. */
  function YearNames(info: CourseInfo): seq<string>
  {
    if info.years.Some? then info.years.value else []
  }

  function DeptNames(info: CourseInfo): seq<string>
  {
    if info.departments.Some? then info.departments.value else []
  }

  // ---- loading: buildCoursesFromConfig ----

  function BuildDept(sd: SubjectsData, c: string, y: string, d: string): Dept
  {
    Dept(d, AcademicLibTs.GetSubjectsForContext(sd, c, y, d), DefaultBatches)
  }

  /** Every year of a course gets the course's whole department list. */
  function BuildYear(sd: SubjectsData, c: string, info: CourseInfo, y: string): Year
  {
    Year(y, Map(DeptNames(info), d => BuildDept(sd, c, y, d)))
  }

  function BuildCourse(sd: SubjectsData, c: string, info: CourseInfo): Course
  {
    Course(c, Map(YearNames(info), y => BuildYear(sd, c, info, y)))
  }

  function BuildCourses(cd: Option<CourseData>, sd: Option<SubjectsData>): seq<Course>
  {
    Map(OrEmpty(cd), (e: (string, CourseInfo)) => BuildCourse(OrEmpty(sd), e.0, e.1))
  }

  /** The departments of one year, in the course's order. */
  method BuildDepartments(sd: SubjectsData, c: string, info: CourseInfo, y: string) returns (ds: seq<Dept>)
    ensures ds == BuildYear(sd, c, info, y).departments
  {
    var names := DeptNames(info);
    ds := [];
    var k := 0;
    while k < |names|
      invariant 0 <= k <= |names|
      invariant |ds| == k && forall m :: 0 <= m < k ==> ds[m] == BuildDept(sd, c, y, names[m])
    {
      ds := ds + [Dept(names[k], AcademicLibTs.GetSubjectsForContext(sd, c, y, names[k]), DefaultBatches)];
      k := k + 1;
    }
  }

  /** The years of one course, in the stored order. */
  method BuildYears(sd: SubjectsData, c: string, info: CourseInfo) returns (ys: seq<Year>)
    ensures ys == BuildCourse(sd, c, info).years
  {
    var names := YearNames(info);
    ys := [];
    var j := 0;
    while j < |names|
      invariant 0 <= j <= |names|
      invariant |ys| == j && forall m :: 0 <= m < j ==> ys[m] == BuildYear(sd, c, info, names[m])
    {
      var ds := BuildDepartments(sd, c, info, names[j]);
      ys := ys + [Year(names[j], ds)];
      j := j + 1;
    }
  }

  /** buildCoursesFromConfig: one course per stored course, in key order,
      one year per listed year name, each year with the course's whole
      department list, each department with the stored subjects (none when
      missing) and the batches A to D. */
  method Build(courseData: Option<CourseData>, subjectsData: Option<SubjectsData>) returns (courses: seq<Course>)
    ensures courses == BuildCourses(courseData, subjectsData)
    ensures |courses| == |OrEmpty(courseData)|
    ensures forall i :: 0 <= i < |courses| ==>
      && courses[i].name == OrEmpty(courseData)[i].0
      && |courses[i].years| == |YearNames(OrEmpty(courseData)[i].1)|
    ensures forall i, j, k ::
      && 0 <= i < |courses|
      && 0 <= j < |courses[i].years|
      && 0 <= k < |courses[i].years[j].departments|
      ==> courses[i].years[j].departments[k].batches == DefaultBatches
  {
    var cd := OrEmpty(courseData);
    var sd := OrEmpty(subjectsData);
    courses := [];
    var i := 0;
    while i < |cd|
      invariant 0 <= i <= |cd|
      invariant |courses| == i && forall m :: 0 <= m < i ==> courses[m] == BuildCourse(sd, cd[m].0, cd[m].1)
    {
      var ys := BuildYears(sd, cd[i].0, cd[i].1);
      courses := courses + [Course(cd[i].0, ys)];
      i := i + 1;
    }
  }

  /** What the loader promises of each built department: its year holds the
      course's whole department list, its name is the listed one, its
      subjects are the stored ones, or none. */
  lemma BuildShape(cd: CourseData, sd: SubjectsData, i: nat, j: nat, k: nat)
    requires i < |cd| && j < |YearNames(cd[i].1)| && k < |DeptNames(cd[i].1)|
    ensures var cs := BuildCourses(Some(cd), Some(sd));
      && |cs| == |cd|
      && cs[i].name == cd[i].0
      && cs[i].years[j].name == YearNames(cd[i].1)[j]
      && |cs[i].years[j].departments| == |DeptNames(cd[i].1)|
      && cs[i].years[j].departments[k]
         == Dept(DeptNames(cd[i].1)[k], AcademicLibTs.GetSubjectsForContext(sd, cd[i].0, YearNames(cd[i].1)[j], DeptNames(cd[i].1)[k]), DefaultBatches)
  {
  }

  // ---- saving: saveConfig's flattening ----

  /** `years.flatMap(y => y.departments.map(d => d.name))`. */
  function DeptNameList(ys: seq<Year>): seq<string>
  {
    if ys == [] then [] else Map(ys[0].departments, (d: Dept) => d.name) + DeptNameList(ys[1..])
  }

  /** The course-table row saved for one course: its year names, and the
      distinct department names across its years in first-occurrence
      order. */
  function SavedInfo(c: Course): CourseInfo
  {
    CourseInfo(Some(Map(c.years, (y: Year) => y.name)), Some(Distinct(DeptNameList(c.years))))
  }

  function SubjectEntries(ds: seq<Dept>): OMap<seq<string>>
  {
    Map(ds, (d: Dept) => (d.name, d.subjects))
  }

  /** The subject table of one year: each department's subjects under its name. */
  function DeptSubjects(ds: seq<Dept>): OMap<seq<string>>
  {
    PutAll([], SubjectEntries(ds))
  }

  function YearEntries(ys: seq<Year>): OMap<OMap<seq<string>>>
  {
    Map(ys, (y: Year) => (y.name, DeptSubjects(y.departments)))
  }

  /** The subject table of one course, written year by year. */
  function YearSubjects(ys: seq<Year>): OMap<OMap<seq<string>>>
  {
    PutAll([], YearEntries(ys))
  }

  function SavedCourseData(cs: seq<Course>): CourseData
  {
    PutAll([], Map(cs, (c: Course) => (c.name, SavedInfo(c))))
  }

  function SavedSubjects(cs: seq<Course>): SubjectsData
  {
    PutAll([], Map(cs, (c: Course) => (c.name, YearSubjects(c.years))))
  }

  /** The map of one year's departments, filled department by department. */
  method SaveDepartments(ds: seq<Dept>) returns (m: OMap<seq<string>>)
    ensures m == DeptSubjects(ds)
  {
    m := [];
    var k := 0;
    while k < |ds|
      invariant 0 <= k <= |ds|
      invariant m == PutAll([], SubjectEntries(ds[..k]))
    {
      assert SubjectEntries(ds[..k + 1]) == SubjectEntries(ds[..k]) + [(ds[k].name, ds[k].subjects)];
      PutAllSnoc([], SubjectEntries(ds[..k]), (ds[k].name, ds[k].subjects));
      m := Put(m, ds[k].name, ds[k].subjects);
      k := k + 1;
    }
    assert ds[..k] == ds;
  }

  /** One more year is one more entry. */
  lemma YearEntriesSnoc(ys: seq<Year>, j: nat)
    requires j < |ys|
    ensures YearEntries(ys[..j + 1]) == YearEntries(ys[..j]) + [(ys[j].name, DeptSubjects(ys[j].departments))]
  {
    MapSnoc(ys, (y: Year) => (y.name, DeptSubjects(y.departments)), j);
  }

  /** The subject map of one course, filled year by year. */
  method SaveYears(ys: seq<Year>) returns (m: OMap<OMap<seq<string>>>)
    ensures m == YearSubjects(ys)
  {
    m := [];
    var j := 0;
    while j < |ys|
      invariant 0 <= j <= |ys|
      invariant m == PutAll([], YearEntries(ys[..j]))
    {
      var dm := SaveDepartments(ys[j].departments);
      YearEntriesSnoc(ys, j);
      PutAllSnoc([], YearEntries(ys[..j]), (ys[j].name, dm));
      m := Put(m, ys[j].name, dm);
      j := j + 1;
    }
    assert ys[..j] == ys;
  }

  /** Saving one more course is one more write to each table. */
  lemma SavedSnoc(cs: seq<Course>, i: nat)
    requires i < |cs|
    ensures SavedCourseData(cs[..i + 1]) == Put(SavedCourseData(cs[..i]), cs[i].name, SavedInfo(cs[i]))
    ensures SavedSubjects(cs[..i + 1]) == Put(SavedSubjects(cs[..i]), cs[i].name, YearSubjects(cs[i].years))
  {
    var f := (c: Course) => (c.name, SavedInfo(c));
    var g := (c: Course) => (c.name, YearSubjects(c.years));
    MapSnoc(cs, f, i);
    PutAllSnoc([], Map(cs[..i], f), f(cs[i]));
    MapSnoc(cs, g, i);
    PutAllSnoc([], Map(cs[..i], g), g(cs[i]));
  }

  /** saveConfig: both tables, filled course by course. */
  method Save(courses: seq<Course>) returns (courseData: CourseData, subjectsData: SubjectsData)
    ensures courseData == SavedCourseData(courses)
    ensures subjectsData == SavedSubjects(courses)
  {
    courseData, subjectsData := [], [];
    var i := 0;
    while i < |courses|
      invariant 0 <= i <= |courses|
      invariant courseData == SavedCourseData(courses[..i])
      invariant subjectsData == SavedSubjects(courses[..i])
    {
      var c := courses[i];
      SavedSnoc(courses, i);
      courseData := Put(courseData, c.name, SavedInfo(c));
      var ym := SaveYears(c.years);
      subjectsData := Put(subjectsData, c.name, ym);
      i := i + 1;
    }
    assert courses[..i] == courses;
  }

  // ---- save after load ----

  /** Appending elements already present does not change the distinct list. */
  lemma {:induction false} DistinctCovered<T(!new)>(s: seq<T>, t: seq<T>)
    requires forall x :: x in t ==> x in s
    ensures Distinct(s + t) == Distinct(s)
    decreases |t|
  {
    if t != [] {
      var t0 := t[..|t| - 1];
      var u := s + t;
      assert u[..|u| - 1] == s + t0;
      DistinctCovered(s, t0);
      assert u[|u| - 1] == t[|t| - 1];
      assert u[|u| - 1] in Distinct(u[..|u| - 1]);
    } else {
      assert s + t == s;
    }
  }

  /** When every year lists the departments ds, so does the flattened list. */
  lemma {:induction false} DeptNameListIn(ys: seq<Year>, ds: seq<string>)
    requires forall j :: 0 <= j < |ys| ==> Map(ys[j].departments, (d: Dept) => d.name) == ds
    ensures forall x :: x in DeptNameList(ys) ==> x in ds
    decreases |ys|
  {
    if ys != [] {
      DeptNameListIn(ys[1..], ds);
      assert forall j :: 0 <= j < |ys[1..]| ==> ys[1..][j] == ys[j + 1];
    }
  }

  /** The department names of every built year are the course's list. */
  lemma BuiltDeptNames(sd: SubjectsData, c: string, info: CourseInfo)
    ensures forall j :: 0 <= j < |BuildCourse(sd, c, info).years| ==>
      Map(BuildCourse(sd, c, info).years[j].departments, (d: Dept) => d.name) == DeptNames(info)
  {
  }

  /** Saving a freshly loaded course gives back its row of the course
      table, provided it has a year and its department list has no repeats
      (with no year the departments are lost; repeats are dropped). */
  lemma SaveBuildInfo(sd: SubjectsData, c: string, info: CourseInfo)
    requires |YearNames(info)| >= 1 && NoDuplicates(DeptNames(info))
    ensures SavedInfo(BuildCourse(sd, c, info)) == CourseInfo(Some(YearNames(info)), Some(DeptNames(info)))
  {
    var ys := BuildCourse(sd, c, info).years;
    var ds := DeptNames(info);
    BuiltDeptNames(sd, c, info);
    assert Map(ys[0].departments, (d: Dept) => d.name) == ds;
    DeptNameListIn(ys[1..], ds);
    assert DeptNameList(ys) == ds + DeptNameList(ys[1..]);
    DistinctCovered(ds, DeptNameList(ys[1..]));
    DistinctOfDistinct(ds);
    assert Map(ys, (y: Year) => y.name) == YearNames(info);
  }

  /** LastFind of a list whose entries under k all hold v. */
  lemma {:induction false} LastFindUniform<V>(es: OMap<V>, k: string, v: V)
    requires k in Keys(es)
    requires forall i :: 0 <= i < |es| && es[i].0 == k ==> es[i].1 == v
    ensures LastFind(es, k) == Some(v)
    decreases |es|
  {
    if es[|es| - 1].0 != k {
      var init := es[..|es| - 1];
      assert Keys(es) == Keys(init) + [es[|es| - 1].0];
      LastFindUniform(init, k, v);
    }
  }

  /** After a load and a save, the subject table holds, for every listed
      year and department, the stored subjects, or an empty list where
      none were stored. */
  lemma SaveBuildSubjects(sd: SubjectsData, c: string, info: CourseInfo, y: string, d: string)
    requires y in YearNames(info) && d in DeptNames(info)
    ensures var ym := YearSubjects(BuildCourse(sd, c, info).years);
      && Find(ym, y).Some?
      && Find(Find(ym, y).value, d) == Some(AcademicLibTs.GetSubjectsForContext(sd, c, y, d))
  {
    BuiltYearFound(sd, c, info, y);
    BuiltDeptFound(sd, c, info, y, d);
  }

  /** The saved table of a loaded course holds each listed year's departments. */
  lemma BuiltYearFound(sd: SubjectsData, c: string, info: CourseInfo, y: string)
    requires y in YearNames(info)
    ensures Find(YearSubjects(BuildCourse(sd, c, info).years), y) == Some(DeptSubjects(BuildYear(sd, c, info, y).departments))
  {
    var es := YearEntries(BuildCourse(sd, c, info).years);
    var j :| 0 <= j < |YearNames(info)| && YearNames(info)[j] == y;
    assert Keys(es)[j] == y;
    LastFindUniform(es, y, DeptSubjects(BuildYear(sd, c, info, y).departments));
    PutAllLast(es, y);
  }

  /** The saved table of a loaded year holds each listed department's stored subjects. */
  lemma BuiltDeptFound(sd: SubjectsData, c: string, info: CourseInfo, y: string, d: string)
    requires d in DeptNames(info)
    ensures Find(DeptSubjects(BuildYear(sd, c, info, y).departments), d) == Some(AcademicLibTs.GetSubjectsForContext(sd, c, y, d))
  {
    var des := SubjectEntries(BuildYear(sd, c, info, y).departments);
    var k :| 0 <= k < |DeptNames(info)| && DeptNames(info)[k] == d;
    assert Keys(des)[k] == d;
    LastFindUniform(des, d, AcademicLibTs.GetSubjectsForContext(sd, c, y, d));
    PutAllLast(des, d);
  }

  /** With unique keys, course i is the only saved row under its name. */
  lemma SavedKeyUnique(cd: CourseData, sd: SubjectsData, i: nat)
    requires Keyed(cd) && i < |cd|
    ensures var es := Map(BuildCourses(Some(cd), Some(sd)), (c: Course) => (c.name, SavedInfo(c)));
      forall m :: 0 <= m < |es| && es[m].0 == cd[i].0 ==> m == i
  {
    var es := Map(BuildCourses(Some(cd), Some(sd)), (c: Course) => (c.name, SavedInfo(c)));
    forall m | 0 <= m < |es| && es[m].0 == cd[i].0 ensures m == i {
      assert Keys(cd)[m] == Keys(cd)[i];
    }
  }

  /** For a stored course table with unique keys, saving what was loaded
      gives every course back its row, normalised as SaveBuildInfo says. */
  lemma SaveBuildCourse(cd: CourseData, sd: SubjectsData, i: nat)
    requires Keyed(cd) && i < |cd|
    requires |YearNames(cd[i].1)| >= 1 && NoDuplicates(DeptNames(cd[i].1))
    ensures Find(SavedCourseData(BuildCourses(Some(cd), Some(sd))), cd[i].0)
         == Some(CourseInfo(Some(YearNames(cd[i].1)), Some(DeptNames(cd[i].1))))
  {
    var cs := BuildCourses(Some(cd), Some(sd));
    var es := Map(cs, (c: Course) => (c.name, SavedInfo(c)));
    var v := SavedInfo(cs[i]);
    SaveBuildInfo(sd, cd[i].0, cd[i].1);
    assert Keys(es)[i] == cd[i].0;
    SavedKeyUnique(cd, sd, i);
    LastFindUniform(es, cd[i].0, v);
    PutAllLast(es, cd[i].0);
  }

  // ---- the editor's state ----

  /** The expanded set with id flipped in or out. */
  function Toggle(s: set<string>, id: string): (r: set<string>)
    ensures id in r <==> id !in s
    ensures forall x :: x != id ==> (x in r <==> x in s)
  {
    if id in s then s - {id} else s + {id}
  }

  lemma ToggleTwice(s: set<string>, id: string)
    ensures Toggle(Toggle(s, id), id) == s
  {
  }

  /** `splice(i, 1)`: removes element i, or nothing when i is past the end. */
  function Splice<T>(s: seq<T>, i: nat): (r: seq<T>)
    ensures i < |s| ==> |r| == |s| - 1
    ensures i >= |s| ==> r == s
    ensures forall k :: 0 <= k < i && k < |r| ==> r[k] == s[k]
    ensures forall k :: i <= k < |r| ==> r[k] == s[k + 1]
  {
    if i < |s| then RemoveAt(s, i) else s
  }

  function WithYear(cs: seq<Course>, ci: nat, yi: nat, y: Year): seq<Course>
    requires ci < |cs| && yi < |cs[ci].years|
  {
    cs[ci := cs[ci].(years := cs[ci].years[yi := y])]
  }

  function WithDept(cs: seq<Course>, ci: nat, yi: nat, di: nat, d: Dept): seq<Course>
    requires ci < |cs| && yi < |cs[ci].years| && di < |cs[ci].years[yi].departments|
  {
    var y := cs[ci].years[yi];
    WithYear(cs, ci, yi, y.(departments := y.departments[di := d]))
  }

  /** Replacing one department leaves every other department, year and
      course where and as it was. */
  lemma WithDeptFrame(cs: seq<Course>, ci: nat, yi: nat, di: nat, d: Dept, ci2: nat, yi2: nat, di2: nat)
    requires ci < |cs| && yi < |cs[ci].years| && di < |cs[ci].years[yi].departments|
    requires ci2 < |cs| && yi2 < |cs[ci2].years| && di2 < |cs[ci2].years[yi2].departments|
    ensures |WithDept(cs, ci, yi, di, d)| == |cs|
    ensures |WithDept(cs, ci, yi, di, d)[ci2].years| == |cs[ci2].years|
    ensures WithDept(cs, ci, yi, di, d)[ci2].years[yi2].departments[di2]
         == if (ci2, yi2, di2) == (ci, yi, di) then d else cs[ci2].years[yi2].departments[di2]
  {
  }

  /** The editor: the course list and the set of expanded rows. A prompt
      answered with nothing or cancelled is the empty name. */
  class Editor {
    var courses: seq<Course>
    var expanded: set<string>

    constructor(loaded: seq<Course>)
      ensures courses == loaded && expanded == {}
    {
      courses := loaded;
      expanded := {};
    }

    method ToggleExpanded(id: string)
      modifies this
      ensures expanded == Toggle(old(expanded), id) && courses == old(courses)
    {
      var next := expanded;
      if id in next {
        next := next - {id};
      } else {
        next := next + {id};
      }
      expanded := next;
    }

    method AddCourse(name: string)
      modifies this
      ensures courses == if name == "" then old(courses) else old(courses) + [Course(name, [])]
      ensures expanded == old(expanded)
    {
      if name != "" {
        courses := courses + [Course(name, [])];
      }
    }

    method EditCourse(index: nat, name: string)
      requires index < |courses|
      modifies this
      ensures courses == if name == "" then old(courses) else old(courses)[index := old(courses)[index].(name := name)]
      ensures expanded == old(expanded)
    {
      if name != "" {
        courses := courses[index := courses[index].(name := name)];
      }
    }

    /** `courses.filter((_, i) => i !== index)` after the confirmation. */
    method DeleteCourse(index: nat, confirmed: bool)
      modifies this
      ensures courses == if confirmed then Splice(old(courses), index) else old(courses)
      ensures expanded == old(expanded)
    {
      if confirmed {
        courses := Splice(courses, index);
      }
    }

    method AddYear(ci: nat, name: string)
      requires ci < |courses|
      modifies this
      ensures courses == if name == "" then old(courses)
        else old(courses)[ci := old(courses)[ci].(years := old(courses)[ci].years + [Year(name, [])])]
      ensures expanded == old(expanded)
    {
      if name != "" {
        courses := courses[ci := courses[ci].(years := courses[ci].years + [Year(name, [])])];
      }
    }

    method EditYear(ci: nat, yi: nat, name: string)
      requires ci < |courses| && yi < |courses[ci].years|
      modifies this
      ensures courses == if name == "" then old(courses)
        else WithYear(old(courses), ci, yi, old(courses)[ci].years[yi].(name := name))
      ensures expanded == old(expanded)
    {
      if name != "" {
        courses := WithYear(courses, ci, yi, courses[ci].years[yi].(name := name));
      }
    }

    method DeleteYear(ci: nat, yi: nat, confirmed: bool)
      requires ci < |courses|
      modifies this
      ensures courses == if confirmed then old(courses)[ci := old(courses)[ci].(years := Splice(old(courses)[ci].years, yi))]
        else old(courses)
      ensures expanded == old(expanded)
    {
      if confirmed {
        courses := courses[ci := courses[ci].(years := Splice(courses[ci].years, yi))];
      }
    }

    method AddDepartment(ci: nat, yi: nat, name: string)
      requires ci < |courses| && yi < |courses[ci].years|
      modifies this
      ensures courses == if name == "" then old(courses)
        else WithYear(old(courses), ci, yi, old(courses)[ci].years[yi].(departments := old(courses)[ci].years[yi].departments + [Dept(name, [], [])]))
      ensures expanded == old(expanded)
    {
      if name != "" {
        var y := courses[ci].years[yi];
        courses := WithYear(courses, ci, yi, y.(departments := y.departments + [Dept(name, [], [])]));
      }
    }

    method EditDepartment(ci: nat, yi: nat, di: nat, name: string)
      requires ci < |courses| && yi < |courses[ci].years| && di < |courses[ci].years[yi].departments|
      modifies this
      ensures courses == if name == "" then old(courses)
        else WithDept(old(courses), ci, yi, di, old(courses)[ci].years[yi].departments[di].(name := name))
      ensures expanded == old(expanded)
    {
      if name != "" {
        courses := WithDept(courses, ci, yi, di, courses[ci].years[yi].departments[di].(name := name));
      }
    }

    method DeleteDepartment(ci: nat, yi: nat, di: nat, confirmed: bool)
      requires ci < |courses| && yi < |courses[ci].years|
      modifies this
      ensures courses == if confirmed
        then WithYear(old(courses), ci, yi, old(courses)[ci].years[yi].(departments := Splice(old(courses)[ci].years[yi].departments, di)))
        else old(courses)
      ensures expanded == old(expanded)
    {
      if confirmed {
        var y := courses[ci].years[yi];
        courses := WithYear(courses, ci, yi, y.(departments := Splice(y.departments, di)));
      }
    }

    method AddSubject(ci: nat, yi: nat, di: nat, name: string)
      requires ci < |courses| && yi < |courses[ci].years| && di < |courses[ci].years[yi].departments|
      modifies this
      ensures var d := old(courses)[ci].years[yi].departments[di];
        courses == if name == "" then old(courses) else WithDept(old(courses), ci, yi, di, d.(subjects := d.subjects + [name]))
      ensures expanded == old(expanded)
    {
      if name != "" {
        var d := courses[ci].years[yi].departments[di];
        courses := WithDept(courses, ci, yi, di, d.(subjects := d.subjects + [name]));
      }
    }

    method EditSubject(ci: nat, yi: nat, di: nat, si: nat, name: string)
      requires ci < |courses| && yi < |courses[ci].years| && di < |courses[ci].years[yi].departments|
      requires si < |courses[ci].years[yi].departments[di].subjects|
      modifies this
      ensures var d := old(courses)[ci].years[yi].departments[di];
        courses == if name == "" then old(courses) else WithDept(old(courses), ci, yi, di, d.(subjects := d.subjects[si := name]))
      ensures expanded == old(expanded)
    {
      if name != "" {
        var d := courses[ci].years[yi].departments[di];
        courses := WithDept(courses, ci, yi, di, d.(subjects := d.subjects[si := name]));
      }
    }

    /** Subjects and batches are removed without a confirmation. */
    method DeleteSubject(ci: nat, yi: nat, di: nat, si: nat)
      requires ci < |courses| && yi < |courses[ci].years| && di < |courses[ci].years[yi].departments|
      modifies this
      ensures var d := old(courses)[ci].years[yi].departments[di];
        courses == WithDept(old(courses), ci, yi, di, d.(subjects := Splice(d.subjects, si)))
      ensures expanded == old(expanded)
    {
      var d := courses[ci].years[yi].departments[di];
      courses := WithDept(courses, ci, yi, di, d.(subjects := Splice(d.subjects, si)));
    }

    method AddBatch(ci: nat, yi: nat, di: nat, name: string)
      requires ci < |courses| && yi < |courses[ci].years| && di < |courses[ci].years[yi].departments|
      modifies this
      ensures var d := old(courses)[ci].years[yi].departments[di];
        courses == if name == "" then old(courses) else WithDept(old(courses), ci, yi, di, d.(batches := d.batches + [name]))
      ensures expanded == old(expanded)
    {
      if name != "" {
        var d := courses[ci].years[yi].departments[di];
        courses := WithDept(courses, ci, yi, di, d.(batches := d.batches + [name]));
      }
    }

    method EditBatch(ci: nat, yi: nat, di: nat, bi: nat, name: string)
      requires ci < |courses| && yi < |courses[ci].years| && di < |courses[ci].years[yi].departments|
      requires bi < |courses[ci].years[yi].departments[di].batches|
      modifies this
      ensures var d := old(courses)[ci].years[yi].departments[di];
        courses == if name == "" then old(courses) else WithDept(old(courses), ci, yi, di, d.(batches := d.batches[bi := name]))
      ensures expanded == old(expanded)
    {
      if name != "" {
        var d := courses[ci].years[yi].departments[di];
        courses := WithDept(courses, ci, yi, di, d.(batches := d.batches[bi := name]));
      }
    }

    method DeleteBatch(ci: nat, yi: nat, di: nat, bi: nat)
      requires ci < |courses| && yi < |courses[ci].years| && di < |courses[ci].years[yi].departments|
      modifies this
      ensures var d := old(courses)[ci].years[yi].departments[di];
        courses == WithDept(old(courses), ci, yi, di, d.(batches := Splice(d.batches, bi)))
      ensures expanded == old(expanded)
    {
      var d := courses[ci].years[yi].departments[di];
      courses := WithDept(courses, ci, yi, di, d.(batches := Splice(d.batches, bi)));
    }
  }
}
