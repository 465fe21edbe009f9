/** The academic-configuration service: the structure check run before a
    save, and the document a save stores. The check walks the stored JSON
    in key order and stops at the first offending entry. */
module AcademicService {
  import opened Common
  import opened OrderedMap
  import opened Json
  import opened AcademicTree

  // ---- what a well-shaped document is, level by level ----

  /** A department may not hold `years`, and a present `batches` must be an array. */
  predicate DeptOk(d: Json)
  {
    && d != JNull
    && !Truthy(Opt(Some(d), "years"))
    && (Truthy(Opt(Some(d), "batches")) ==> Opt(Some(d), "batches").value.JArr?)
  }

  /** A year without departments is accepted; otherwise every department must be. */
  predicate YearOk(y: Json)
  {
    && y != JNull
    && (Truthy(Opt(Some(y), "departments")) ==>
          var ds := Entries(Opt(Some(y), "departments"));
          forall i :: 0 <= i < |ds| ==> DeptOk(ds[i].1))
  }

  /** A course may not hold `departments`; without years it is accepted. */
  predicate CourseOk(c: Json)
  {
    && c != JNull
    && !Truthy(Opt(Some(c), "departments"))
    && (Truthy(Opt(Some(c), "years")) ==>
          var ys := Entries(Opt(Some(c), "years"));
          forall i :: 0 <= i < |ys| ==> YearOk(ys[i].1))
  }

  /** A missing config, or one without courses, is accepted. */
  predicate WellShaped(config: Option<Json>)
  {
    !Truthy(config) || !Truthy(Opt(config, "courses")) ||
    var cs := Entries(Opt(config, "courses"));
    forall i :: 0 <= i < |cs| ==> CourseOk(cs[i].1)
  }

  // ---- the messages ----

  function CourseError(course: string, c: Json): string
  {
    if c == JNull then "TypeError: cannot read property 'departments'"
    else "Invalid Structure for course '" + course + "': Found 'departments' directly under course. Expected 'years'."
  }

  function DeptError(course: string, year: string, dept: string, d: Json): string
  {
    if d == JNull then "TypeError: cannot read property 'years'"
    else if Truthy(Opt(Some(d), "years")) then
      "Invalid Structure for department '" + dept + "' in '" + course + "' Year " + year + ": Found 'years' under department. Expected 'batches'."
    else "Invalid Structure: 'batches' must be an array for " + course + " > Year " + year + " > " + dept + "."
  }

  // ---- the check, as the code walks the document ----

  /** The department loop: the first bad department's message, or Ok. */
  function ValidateDepts(course: string, year: string, ds: OMap<Json>): (r: Result<()>)
    ensures r.Ok? <==> forall i :: 0 <= i < |ds| ==> DeptOk(ds[i].1)
    ensures r.Err? ==> exists i :: FirstBad(ds, i) && r.msg == DeptError(course, year, ds[i].0, ds[i].1)
    decreases |ds|
  {
    if ds == [] then Ok(())
    else
      var (name, d) := ds[0];
      match Prop(Some(d), "years")
      case Err(e) =>
        HeadBad(course, year, ds, e);
        Err(e)
      case Ok(years) =>
        if Truthy(years) then
          var e := "Invalid Structure for department '" + name + "' in '" + course + "' Year " + year + ": Found 'years' under department. Expected 'batches'.";
          HeadBad(course, year, ds, e);
          Err(e)
        else
          var batches := Opt(Some(d), "batches");
          if Truthy(batches) && !batches.value.JArr? then
            var e := "Invalid Structure: 'batches' must be an array for " + course + " > Year " + year + " > " + name + ".";
            HeadBad(course, year, ds, e);
            Err(e)
          else
            var rest := ValidateDepts(course, year, ds[1..]);
            FirstBadTail(course, year, ds, rest);
            rest
  }

  /** A bad first department is the first bad one, and its message is the result. */
  lemma HeadBad(course: string, year: string, ds: OMap<Json>, e: string)
    requires ds != [] && !DeptOk(ds[0].1) && e == DeptError(course, year, ds[0].0, ds[0].1)
    ensures !(forall i :: 0 <= i < |ds| ==> DeptOk(ds[i].1))
    ensures exists i :: FirstBad(ds, i) && e == DeptError(course, year, ds[i].0, ds[i].1)
  {
    assert FirstBad(ds, 0);
  }

  /** Entry i is the first department that fails. */
  predicate FirstBad(ds: OMap<Json>, i: int)
  {
    0 <= i < |ds| && !DeptOk(ds[i].1) && (forall j :: 0 <= j < i ==> DeptOk(ds[j].1))
  }

  lemma FirstBadTail(course: string, year: string, ds: OMap<Json>, rest: Result<()>)
    requires ds != [] && DeptOk(ds[0].1)
    requires rest.Ok? <==> forall i :: 0 <= i < |ds[1..]| ==> DeptOk(ds[1..][i].1)
    requires rest.Err? ==> exists i :: FirstBad(ds[1..], i) && rest.msg == DeptError(course, year, ds[1..][i].0, ds[1..][i].1)
    ensures rest.Ok? <==> forall i :: 0 <= i < |ds| ==> DeptOk(ds[i].1)
    ensures rest.Err? ==> exists i :: FirstBad(ds, i) && rest.msg == DeptError(course, year, ds[i].0, ds[i].1)
  {
    AllOkTail(ds);
    if rest.Err? {
      var i :| FirstBad(ds[1..], i) && rest.msg == DeptError(course, year, ds[1..][i].0, ds[1..][i].1);
      FirstBadShift(ds, i);
    }
  }

  /** After a good first department, all are good when the rest are. */
  lemma AllOkTail(ds: OMap<Json>)
    requires ds != [] && DeptOk(ds[0].1)
    ensures (forall i :: 0 <= i < |ds[1..]| ==> DeptOk(ds[1..][i].1)) <==> (forall i :: 0 <= i < |ds| ==> DeptOk(ds[i].1))
  {
    assert forall i :: 1 <= i < |ds| ==> ds[i] == ds[1..][i - 1];
  }

  /** After a good first department, the first bad one of the rest is the
      first bad one of all, one place further on. */
  lemma FirstBadShift(ds: OMap<Json>, i: int)
    requires ds != [] && DeptOk(ds[0].1) && FirstBad(ds[1..], i)
    ensures FirstBad(ds, i + 1) && ds[i + 1] == ds[1..][i]
  {
    assert forall j :: 1 <= j < |ds| ==> ds[j] == ds[1..][j - 1];
  }

  /** The year loop: years without departments are skipped. */
  function ValidateYears(course: string, ys: OMap<Json>): (r: Result<()>)
    ensures r.Ok? <==> forall i :: 0 <= i < |ys| ==> YearOk(ys[i].1)
    decreases |ys|
  {
    if ys == [] then Ok(())
    else
      var (year, y) := ys[0];
      assert forall i :: 1 <= i < |ys| ==> ys[i] == ys[1..][i - 1];
      match Prop(Some(y), "departments")
      case Err(e) => Err(e)
      case Ok(depts) =>
        if !Truthy(depts) then ValidateYears(course, ys[1..])
        else
          match ValidateDepts(course, year, Entries(depts))
          case Err(e) => Err(e)
          case Ok(_) => ValidateYears(course, ys[1..])
  }

  /** The course loop: a course holding departments is refused, a course
      without years is skipped. */
  function ValidateCourses(cs: OMap<Json>): (r: Result<()>)
    ensures r.Ok? <==> forall i :: 0 <= i < |cs| ==> CourseOk(cs[i].1)
    ensures cs != [] && cs[0].1 != JNull && Truthy(Opt(Some(cs[0].1), "departments")) ==>
              r == Err(CourseError(cs[0].0, cs[0].1))
    decreases |cs|
  {
    if cs == [] then Ok(())
    else
      var (course, c) := cs[0];
      assert forall i :: 1 <= i < |cs| ==> cs[i] == cs[1..][i - 1];
      match Prop(Some(c), "departments")
      case Err(e) => Err(e)
      case Ok(depts) =>
        if Truthy(depts) then
          Err("Invalid Structure for course '" + course + "': Found 'departments' directly under course. Expected 'years'.")
        else
          var years := Opt(Some(c), "years");
          if !Truthy(years) then ValidateCourses(cs[1..])
          else
            match ValidateYears(course, Entries(years))
            case Err(e) => Err(e)
            case Ok(_) => ValidateCourses(cs[1..])
  }

  /** validateAcademicConfig: Ok, or the first error it throws. */
  function Validate(config: Option<Json>): (r: Result<()>)
    ensures r.Ok? <==> WellShaped(config)
  {
    if !Truthy(config) then Ok(())
    else
      var courses := Opt(config, "courses");
      if !Truthy(courses) then Ok(())
      else ValidateCourses(Entries(courses))
  }

  // ---- the typed tree and the old shape ----

  lemma DeptJsonOk(d: Dept)
    ensures DeptOk(DeptJson(d))
  {
    FindSingle("batches", JArr(StrsJson(BatchesOf(d))), "years");
    FindSingle("batches", JArr(StrsJson(BatchesOf(d))), "batches");
  }

  lemma YearJsonOk(y: Year)
    ensures YearOk(YearJson(y))
  {
    if y.departments.Some? {
      var ds := MapValues(y.departments.value, DeptJson);
      FindSingle("departments", JObj(ds), "departments");
      forall i | 0 <= i < |ds| ensures DeptOk(ds[i].1) {
        DeptJsonOk(y.departments.value[i].1);
      }
    }
  }

  lemma CourseJsonOk(c: Course)
    ensures CourseOk(CourseJson(c))
  {
    if c.years.Some? {
      var ys := MapValues(c.years.value, YearJson);
      FindSingle("years", JObj(ys), "departments");
      FindSingle("years", JObj(ys), "years");
      forall i | 0 <= i < |ys| ensures YearOk(ys[i].1) {
        YearJsonOk(c.years.value[i].1);
      }
    }
  }

  /** Every document the editor's tree stores passes the check. */
  lemma TreeValidates(c: Config)
    ensures Validate(Some(ToJson(c))).Ok?
  {
    if c.courses.Some? {
      var cs := MapValues(c.courses.value, CourseJson);
      FindSingle("courses", JObj(cs), "courses");
      assert Opt(Some(ToJson(c)), "courses") == Some(JObj(cs));
      forall i | 0 <= i < |cs| ensures CourseOk(cs[i].1) {
        CourseJsonOk(c.courses.value[i].1);
      }
      assert WellShaped(Some(ToJson(c)));
    }
  }

  /** A document in the old shape whose first course lists its departments
      is refused with the course-level message naming that course. */
  lemma OldShapeRejected(c: OldConfig)
    requires c.courses.Some? && c.courses.value != [] && c.courses.value[0].1.departments.Some?
    ensures Validate(Some(OldToJson(c))) ==
              Err("Invalid Structure for course '" + c.courses.value[0].0 + "': Found 'departments' directly under course. Expected 'years'.")
  {
    var cs := MapValues(c.courses.value, OldCourseJson);
    OldCoursesRead(c);
    OldFirstCourse(c.courses.value[0].1);
    assert cs[0] == (c.courses.value[0].0, OldCourseJson(c.courses.value[0].1));
  }

  /** The old document's course table is what the check walks. */
  lemma OldCoursesRead(c: OldConfig)
    requires c.courses.Some?
    ensures Validate(Some(OldToJson(c))) == ValidateCourses(MapValues(c.courses.value, OldCourseJson))
  {
    CoursesRead(MapValues(c.courses.value, OldCourseJson));
  }

  /** A document holding only a course table is checked course by course. */
  lemma CoursesRead(cs: OMap<Json>)
    ensures Validate(Some(JObj([("courses", JObj(cs))]))) == ValidateCourses(cs)
  {
    var doc := Some(JObj([("courses", JObj(cs))]));
    FindSingle("courses", JObj(cs), "courses");
    assert Opt(doc, "courses") == Some(JObj(cs));
    ValidateTable(doc);
  }

  /** A truthy document with a truthy course table is checked by its entries. */
  lemma ValidateTable(config: Option<Json>)
    requires Truthy(config) && Truthy(Opt(config, "courses"))
    ensures Validate(config) == ValidateCourses(Entries(Opt(config, "courses")))
  {
  }

  /** An old-shape course that lists departments has a truthy `departments`. */
  lemma OldFirstCourse(first: OldCourse)
    requires first.departments.Some?
    ensures OldCourseJson(first) != JNull && Truthy(Opt(Some(OldCourseJson(first)), "departments"))
  {
    FindSingle("departments", JObj(MapValues(first.departments.value, OldDeptJson)), "departments");
  }

  // ---- saving ----

  datatype College = College(name: string, code: string)

  /** saveAcademicConfig: the check runs before the college lookup; the
      stored document is the college's id, name and code, then the config's
      own fields (which win on a clash), then the save time. */
  function SaveAcademicConfig(colleges: map<string, College>, store: map<string, Json>,
                              collegeId: string, config: Option<Json>, now: int): (r: Result<map<string, Json>>)
    ensures !WellShaped(config) ==> r == Err(Validate(config).msg)
    ensures WellShaped(config) && collegeId !in colleges ==>
              r == Err("Invalid College ID: " + collegeId + ". College does not exist.")
    ensures r.Ok? ==> WellShaped(config) && collegeId in colleges
    ensures r.Ok? ==> r.value.Keys == store.Keys + {collegeId}
    ensures r.Ok? ==> forall id :: id in store && id != collegeId ==> r.value[id] == store[id]
  {
    match Validate(config)
    case Err(e) => Err(e)
    case Ok(_) =>
      if collegeId !in colleges then Err("Invalid College ID: " + collegeId + ". College does not exist.")
      else Ok(store[collegeId := SavedDoc(colleges[collegeId], collegeId, config, now)])
  }

  function SavedDoc(college: College, collegeId: string, config: Option<Json>, now: int): (r: Json)
  {
    var head := [("collegeId", JStr(collegeId)), ("collegeName", JStr(college.name)), ("collegeCode", JStr(college.code))];
    JObj(Put(PutAll(head, Entries(config)), "updatedAt", JNum(now)))
  }

  /** In the stored document the config's fields win over the college
      fields, the college fields fill in the rest, and updatedAt is the
      save time. */
  lemma SavedDocFields(college: College, collegeId: string, config: Option<Json>, now: int, k: string)
    requires Keyed(Entries(config))
    ensures Find(SavedDoc(college, collegeId, config, now).entries, "updatedAt") == Some(JNum(now))
    ensures k != "updatedAt" && Has(Entries(config), k) ==>
              Find(SavedDoc(college, collegeId, config, now).entries, k) == Find(Entries(config), k)
    ensures !Has(Entries(config), k) && k == "collegeId" ==>
              Find(SavedDoc(college, collegeId, config, now).entries, k) == Some(JStr(collegeId))
    ensures !Has(Entries(config), k) && k == "collegeName" ==>
              Find(SavedDoc(college, collegeId, config, now).entries, k) == Some(JStr(college.name))
    ensures !Has(Entries(config), k) && k == "collegeCode" ==>
              Find(SavedDoc(college, collegeId, config, now).entries, k) == Some(JStr(college.code))
  {
    var head := [("collegeId", JStr(collegeId)), ("collegeName", JStr(college.name)), ("collegeCode", JStr(college.code))];
    assert Keys(head) == ["collegeId", "collegeName", "collegeCode"];
    assert Keyed(head);
    FindCons(head, k);
    FindCons(head[1..], k);
    FindCons(head[2..], k);
    PutAllFind(head, Entries(config), k);
    PutFind(PutAll(head, Entries(config)), "updatedAt", JNum(now), k);
  }
}
