/** The academic-configuration helpers of the JavaScript library: the ICEM
    and IGSB default tables, the stored-or-default configuration chosen by
    the college's code, and the lookups. Here a course lists its
    departments per year, and the subject table maps each subject to its
    batches. */
module AcademicLibJs {
  import opened Common
  import opened OrderedMap

  /** One course of the course table; any field may be absent. */
  datatype CourseEntry = CourseEntry(years: Option<seq<string>>, yearDepartments: Option<OMap<seq<string>>>, semesters: Option<seq<string>>)
  type CourseData = OMap<CourseEntry>
  /** course -> year -> department -> subject -> batches. */
  type SubjectsData = OMap<OMap<OMap<OMap<seq<string>>>>>

  datatype Tables = Tables(courseData: CourseData, subjectsData: SubjectsData)

  /** The configuration as the application reads it. */
  datatype ConfigData = ConfigData(courseData: Option<CourseData>, subjectsData: Option<SubjectsData>, batches: seq<string>)

  /** A stored configuration document; its fields may be missing. */
  datatype StoredConfig = StoredConfig(courseData: Option<CourseData>, subjectsData: Option<SubjectsData>, batches: Option<seq<string>>)

  /** A college record as far as the default choice reads it. */
  datatype College = College(code: Option<string>)

  const DefaultBatches: seq<string> := ["A", "B", "C", "D"]
  const DefaultSemesters: seq<string> := ["Odd", "Even"]

  const IcemCourseData: CourseData := [
    ("B.E", CourseEntry(Some(["1", "2", "3", "4"]), Some([
      ("1", ["Computer Science & Engineering", "Information Technology", "Mechanical Engineering", "Civil Engineering", "Electrical Engineering"]),
      ("2", ["Computer Science & Engineering", "Information Technology", "Mechanical Engineering", "Civil Engineering", "Electrical Engineering"]),
      ("3", ["Computer Science & Engineering", "Information Technology", "Mechanical Engineering", "Civil Engineering", "Electrical Engineering"]),
      ("4", ["Computer Science & Engineering", "Information Technology", "Mechanical Engineering", "Civil Engineering", "Electrical Engineering"])
    ]), Some(["Odd", "Even"]))),
    ("MBA", CourseEntry(Some(["1", "2"]), Some([
      ("1", ["Business Administration", "Finance & Accounting", "Marketing & Sales", "Human Resources"]),
      ("2", ["Business Administration", "Finance & Accounting", "Marketing & Sales", "Human Resources"])
    ]), Some(["Odd", "Even"]))),
    ("MCA", CourseEntry(Some(["1", "2"]), Some([
      ("1", ["Computer Applications", "Software Development"]),
      ("2", ["Computer Applications", "Software Development"])
    ]), Some(["Odd", "Even"]))),
    ("M.Tech", CourseEntry(Some(["1", "2"]), Some([
      ("1", ["Computer Science & Engineering", "Information Technology", "Mechanical Engineering", "Civil Engineering", "Electrical Engineering"]),
      ("2", ["Computer Science & Engineering", "Information Technology", "Mechanical Engineering", "Civil Engineering", "Electrical Engineering"])
    ]), Some(["Odd", "Even"]))),
    ("BCA+MCA", CourseEntry(Some(["1", "2", "3", "4", "5"]), Some([
      ("1", ["Computer Applications", "Software Development"]),
      ("2", ["Computer Applications", "Software Development"]),
      ("3", ["Computer Applications", "Software Development"]),
      ("4", ["Computer Applications", "Software Development"]),
      ("5", ["Computer Applications", "Software Development"])
    ]), Some(["Odd", "Even"]))),
    ("BBA+MBA", CourseEntry(Some(["1", "2", "3", "4", "5"]), Some([
      ("1", ["Business Administration", "Finance & Accounting", "Marketing & Sales", "Human Resources"]),
      ("2", ["Business Administration", "Finance & Accounting", "Marketing & Sales", "Human Resources"]),
      ("3", ["Business Administration", "Finance & Accounting", "Marketing & Sales", "Human Resources"]),
      ("4", ["Business Administration", "Finance & Accounting", "Marketing & Sales", "Human Resources"]),
      ("5", ["Business Administration", "Finance & Accounting", "Marketing & Sales", "Human Resources"])
    ]), Some(["Odd", "Even"])))
  ]

  const IgsbCourseData: CourseData := [
    ("MBA", CourseEntry(Some(["1", "2"]), Some([
      ("1", ["Business Administration", "Finance & Accounting", "Marketing & Sales", "Human Resources", "Operations Management"]),
      ("2", ["Business Administration", "Finance & Accounting", "Marketing & Sales", "Human Resources", "Operations Management"])
    ]), Some(["Odd", "Even"]))),
    ("BBA", CourseEntry(Some(["1", "2", "3"]), Some([
      ("1", ["Business Administration", "Finance & Accounting", "Marketing & Sales", "Human Resources"]),
      ("2", ["Business Administration", "Finance & Accounting", "Marketing & Sales", "Human Resources"]),
      ("3", ["Business Administration", "Finance & Accounting", "Marketing & Sales", "Human Resources"])
    ]), Some(["Odd", "Even"])))
  ]

  const IcemSubjectsData: SubjectsData := [
    ("B.E", [
      ("1", [
        ("Computer Science & Engineering", [
          ("Programming Fundamentals", ["A", "B", "C", "D"]),
          ("Data Structures", ["A", "B", "C", "D"]),
          ("Database Systems", ["A", "B", "C", "D"]),
          ("Mathematics", ["A", "B", "C", "D"])
        ]),
        ("Information Technology", [
          ("Web Development", ["A", "B", "C", "D"]),
          ("Networking", ["A", "B", "C", "D"]),
          ("Software Engineering", ["A", "B", "C", "D"]),
          ("Mathematics", ["A", "B", "C", "D"])
        ]),
        ("Mechanical Engineering", [
          ("Thermodynamics", ["A", "B", "C", "D"]),
          ("Fluid Mechanics", ["A", "B", "C", "D"]),
          ("Materials Science", ["A", "B", "C", "D"]),
          ("Mathematics", ["A", "B", "C", "D"])
        ]),
        ("Civil Engineering", [
          ("Structural Analysis", ["A", "B", "C", "D"]),
          ("Surveying", ["A", "B", "C", "D"]),
          ("Construction Materials", ["A", "B", "C", "D"]),
          ("Mathematics", ["A", "B", "C", "D"])
        ]),
        ("Electrical Engineering", [
          ("Circuit Theory", ["A", "B", "C", "D"]),
          ("Power Systems", ["A", "B", "C", "D"]),
          ("Control Systems", ["A", "B", "C", "D"]),
          ("Mathematics", ["A", "B", "C", "D"])
        ])
      ]),
      ("2", [
        ("Computer Science & Engineering", [
          ("Algorithms", ["A", "B", "C", "D"]),
          ("Operating Systems", ["A", "B", "C", "D"]),
          ("Computer Networks", ["A", "B", "C", "D"]),
          ("Discrete Mathematics", ["A", "B", "C", "D"])
        ]),
        ("Information Technology", [
          ("Mobile Development", ["A", "B", "C", "D"]),
          ("Cloud Computing", ["A", "B", "C", "D"]),
          ("Cyber Security", ["A", "B", "C", "D"]),
          ("Data Structures", ["A", "B", "C", "D"])
        ]),
        ("Mechanical Engineering", [
          ("Heat Transfer", ["A", "B", "C", "D"]),
          ("Dynamics", ["A", "B", "C", "D"]),
          ("Manufacturing Processes", ["A", "B", "C", "D"]),
          ("Mechanics", ["A", "B", "C", "D"])
        ]),
        ("Civil Engineering", [
          ("Geotechnical Engineering", ["A", "B", "C", "D"]),
          ("Transportation Engineering", ["A", "B", "C", "D"]),
          ("Environmental Engineering", ["A", "B", "C", "D"]),
          ("Mechanics", ["A", "B", "C", "D"])
        ]),
        ("Electrical Engineering", [
          ("Electrical Machines", ["A", "B", "C", "D"]),
          ("Power Electronics", ["A", "B", "C", "D"]),
          ("Signal Processing", ["A", "B", "C", "D"]),
          ("Electronics", ["A", "B", "C", "D"])
        ])
      ]),
      ("3", [
        ("Computer Science & Engineering", [
          ("Machine Learning", ["A", "B", "C", "D"]),
          ("Distributed Systems", ["A", "B", "C", "D"]),
          ("Software Architecture", ["A", "B", "C", "D"]),
          ("Compiler Design", ["A", "B", "C", "D"])
        ]),
        ("Information Technology", [
          ("Data Analytics", ["A", "B", "C", "D"]),
          ("IoT", ["A", "B", "C", "D"]),
          ("Blockchain", ["A", "B", "C", "D"]),
          ("System Programming", ["A", "B", "C", "D"])
        ]),
        ("Mechanical Engineering", [
          ("CAD/CAM", ["A", "B", "C", "D"]),
          ("Robotics", ["A", "B", "C", "D"]),
          ("Quality Control", ["A", "B", "C", "D"]),
          ("Design Engineering", ["A", "B", "C", "D"])
        ]),
        ("Civil Engineering", [
          ("Concrete Technology", ["A", "B", "C", "D"]),
          ("Steel Structures", ["A", "B", "C", "D"]),
          ("Water Resources", ["A", "B", "C", "D"]),
          ("Project Management", ["A", "B", "C", "D"])
        ]),
        ("Electrical Engineering", [
          ("High Voltage Engineering", ["A", "B", "C", "D"]),
          ("Renewable Energy", ["A", "B", "C", "D"]),
          ("Industrial Automation", ["A", "B", "C", "D"]),
          ("Project Management", ["A", "B", "C", "D"])
        ])
      ]),
      ("4", [
        ("Computer Science & Engineering", [
          ("AI & Deep Learning", ["A", "B", "C", "D"]),
          ("Big Data", ["A", "B", "C", "D"]),
          ("Project Management", ["A", "B", "C", "D"]),
          ("Ethics in Computing", ["A", "B", "C", "D"])
        ]),
        ("Information Technology", [
          ("DevOps", ["A", "B", "C", "D"]),
          ("Advanced Security", ["A", "B", "C", "D"]),
          ("Digital Transformation", ["A", "B", "C", "D"]),
          ("Entrepreneurship", ["A", "B", "C", "D"])
        ]),
        ("Mechanical Engineering", [
          ("Advanced Manufacturing", ["A", "B", "C", "D"]),
          ("Sustainable Energy", ["A", "B", "C", "D"]),
          ("Project Management", ["A", "B", "C", "D"]),
          ("Industrial Management", ["A", "B", "C", "D"])
        ]),
        ("Civil Engineering", [
          ("Advanced Structural Design", ["A", "B", "C", "D"]),
          ("Urban Planning", ["A", "B", "C", "D"]),
          ("Project Management", ["A", "B", "C", "D"]),
          ("Professional Ethics", ["A", "B", "C", "D"])
        ]),
        ("Electrical Engineering", [
          ("Smart Grids", ["A", "B", "C", "D"]),
          ("Electric Vehicles", ["A", "B", "C", "D"]),
          ("Project Management", ["A", "B", "C", "D"]),
          ("Professional Ethics", ["A", "B", "C", "D"])
        ])
      ])
    ])
  ]

  const IcemTables: Tables := Tables(IcemCourseData, IcemSubjectsData)

  /** What evaluating the IGSB branch raises: its subject table is never declared. */
  const UndeclaredIgsbSubjects := "ReferenceError: igsbDefaultSubjectsData is not defined"

  /** getDefaultConfig as written: the IGSB branch names an undeclared
      table and throws before `||` can fall back. */
  function GetDefaultConfigAsWritten(code: string): (r: Result<Tables>)
    ensures code == "IGSB" <==> r.Err?
    ensures code != "IGSB" ==> r == Ok(IcemTables)
  {
    if code == "ICEM" then Ok(IcemTables)
    else if code == "IGSB" then Err(UndeclaredIgsbSubjects)
    else Ok(IcemTables)
  }

  /** getDefaultConfig as intended: IGSB gets its own course table with the
      ICEM subjects (the right side of the `||`), every other code the ICEM
      defaults. */
  function GetDefaultConfig(code: string): (r: Tables)
    ensures code == "IGSB" ==> r == Tables(IgsbCourseData, IcemSubjectsData)
    ensures code != "IGSB" ==> r == IcemTables
  {
    if code == "ICEM" then IcemTables
    else if code == "IGSB" then Tables(IgsbCourseData, IcemSubjectsData)
    else IcemTables
  }

  /** `college?.code || 'ICEM'`. */
  function DefaultCode(college: Option<College>): string
  {
    if college.Some? && college.value.code.Some? && college.value.code.value != "" then college.value.code.value else "ICEM"
  }

  function FromStored(c: StoredConfig): ConfigData
  {
    ConfigData(c.courseData, c.subjectsData, if c.batches.Some? then c.batches.value else DefaultBatches)
  }

  function FromTables(t: Tables): ConfigData
  {
    ConfigData(Some(t.courseData), Some(t.subjectsData), DefaultBatches)
  }

  /** getAcademicConfig as written. `read` is the stored-config read and
      `college` the college read, each Err when it throws. A thrown default
      choice is caught by the same handler as a failed college read. */
  function GetAcademicConfigAsWritten(read: Result<Option<StoredConfig>>, college: Result<Option<College>>): (r: ConfigData)
    ensures read.Ok? && read.value.Some? ==> r == FromStored(read.value.value)
  {
    if read.Ok? && read.value.Some? then FromStored(read.value.value)
    else if college.Err? then FromTables(IcemTables)
    else
      match GetDefaultConfigAsWritten(DefaultCode(college.value))
      case Ok(t) => FromTables(t)
      case Err(_) => FromTables(IcemTables)
  }

  /** getAcademicConfig with the default choice as intended. */
  function GetAcademicConfig(read: Result<Option<StoredConfig>>, college: Result<Option<College>>): (r: ConfigData)
    ensures read.Ok? && read.value.Some? ==> r == FromStored(read.value.value)
    ensures read.Ok? && read.value.Some? && read.value.value.batches.None? ==> r.batches == DefaultBatches
    ensures !(read.Ok? && read.value.Some?) ==> r.batches == DefaultBatches
  {
    if read.Ok? && read.value.Some? then FromStored(read.value.value)
    else if college.Err? then FromTables(IcemTables)
    else FromTables(GetDefaultConfig(DefaultCode(college.value)))
  }

  /** As written, an IGSB college without a stored configuration gets the
      ICEM course table. */
  lemma IgsbGetsIcemAsWritten()
    ensures GetAcademicConfigAsWritten(Ok(None), Ok(Some(College(Some("IGSB"))))).courseData == Some(IcemCourseData)
    ensures IcemCourseData != IgsbCourseData
  {
    assert IcemCourseData[0].0 != IgsbCourseData[0].0;
  }

  /** As intended, it gets the IGSB course table; every college whose code
      is not IGSB gets the ICEM tables either way. */
  lemma IgsbGetsIgsb(college: Option<College>)
    ensures college == Some(College(Some("IGSB"))) ==>
      GetAcademicConfig(Ok(None), Ok(college)).courseData == Some(IgsbCourseData)
    ensures DefaultCode(college) != "IGSB" ==>
      GetAcademicConfig(Ok(None), Ok(college)) == GetAcademicConfigAsWritten(Ok(None), Ok(college)) == FromTables(IcemTables)
  {
  }

  /** `courseData[course]?.years || []`. */
  function GetYearsForCourse(cd: CourseData, course: string): (r: seq<string>)
    ensures Find(cd, course).None? ==> r == []
    ensures Find(cd, course).Some? && Find(cd, course).value.years.Some? ==> r == Find(cd, course).value.years.value
  {
    match Find(cd, course)
    case None => []
    case Some(e) => if e.years.Some? then e.years.value else []
  }

  /** What `Object.values(undefined)` raises. */
  const NoYearDepartments := "TypeError: Cannot convert undefined or null to object"

  /** The departments of every year, each once, in first-occurrence order. */
  function DepartmentsOf(yd: OMap<seq<string>>): seq<string>
  {
    Distinct(Concat(Values(yd)))
  }

  /** getDepartmentsForCourse: none for an unknown course; otherwise the
      departments of all its years, each once, in the order a Set keeps. */
  method GetDepartmentsForCourse(cd: CourseData, course: string) returns (r: Result<seq<string>>)
    ensures Find(cd, course).None? ==> r == Ok([])
    ensures Find(cd, course).Some? && Find(cd, course).value.yearDepartments.None? ==> r == Err(NoYearDepartments)
    ensures Find(cd, course).Some? && Find(cd, course).value.yearDepartments.Some? ==>
      r == Ok(DepartmentsOf(Find(cd, course).value.yearDepartments.value))
  {
    var info := Find(cd, course);
    if info.None? {
      return Ok([]);
    }
    if info.value.yearDepartments.None? {
      return Err(NoYearDepartments);
    }
    var depts := CollectDistinct(Values(info.value.yearDepartments.value));
    r := Ok(depts);
  }

  /** The nested forEach adding every element of every list to a Set. */
  method CollectDistinct(lists: seq<seq<string>>) returns (depts: seq<string>)
    ensures depts == Distinct(Concat(lists))
  {
    depts := [];
    var i := 0;
    while i < |lists|
      invariant 0 <= i <= |lists|
      invariant depts == Distinct(Concat(lists[..i]))
    {
      depts := AddEach(depts, Concat(lists[..i]), lists[i]);
      assert lists[..i + 1][..i] == lists[..i];
      i := i + 1;
    }
    assert lists[..i] == lists;
  }

  /** Adding the elements of l one by one to the Set holding base. */
  method AddEach(depts: seq<string>, base: seq<string>, l: seq<string>) returns (r: seq<string>)
    requires depts == Distinct(base)
    ensures r == Distinct(base + l)
  {
    r := depts;
    var j := 0;
    assert base + l[..0] == base;
    while j < |l|
      invariant 0 <= j <= |l|
      invariant r == Distinct(base + l[..j])
    {
      AddOne(base, l, j, r);
      if l[j] !in r {
        r := r + [l[j]];
      }
      j := j + 1;
    }
    assert l[..j] == l;
  }

  lemma AddOne(base: seq<string>, l: seq<string>, j: nat, r: seq<string>)
    requires j < |l| && r == Distinct(base + l[..j])
    ensures (if l[j] in r then r else r + [l[j]]) == Distinct(base + l[..j + 1])
  {
    DistinctSnoc(base + l[..j], l[j]);
    assert base + l[..j + 1] == base + l[..j] + [l[j]];
  }

  /** The department list holds every department of every year, once. */
  lemma DepartmentsOfComplete(yd: OMap<seq<string>>, d: string)
    ensures NoDuplicates(DepartmentsOf(yd))
    ensures d in DepartmentsOf(yd) <==> exists i :: 0 <= i < |yd| && d in yd[i].1
  {
    InConcat(Values(yd), d);
    if exists i :: 0 <= i < |Values(yd)| && d in Values(yd)[i] {
      var i :| 0 <= i < |Values(yd)| && d in Values(yd)[i];
      assert d in yd[i].1;
    }
    if exists i :: 0 <= i < |yd| && d in yd[i].1 {
      var i :| 0 <= i < |yd| && d in yd[i].1;
      assert d in Values(yd)[i];
    }
  }

  /** `Object.keys(subjectsData[course]?.[year]?.[department] || {})`: the
      subject names, none when any level is missing. */
  function GetSubjectsForContext(sd: SubjectsData, course: string, year: string, dept: string): (r: seq<string>)
    ensures Find(sd, course).None? ==> r == []
    ensures Find(sd, course).Some? && Find(Find(sd, course).value, year).None? ==> r == []
    ensures Find(sd, course).Some? && Find(Find(sd, course).value, year).Some? ==>
      r == (if Find(Find(Find(sd, course).value, year).value, dept).Some?
            then Keys(Find(Find(Find(sd, course).value, year).value, dept).value) else [])
  {
    match Find(sd, course)
    case None => []
    case Some(ym) =>
      match Find(ym, year)
      case None => []
      case Some(dm) =>
        match Find(dm, dept)
        case None => []
        case Some(subjects) => Keys(subjects)
  }

  function GetAllCourses(cd: CourseData): (r: seq<string>)
    ensures |r| == |cd| && forall i :: 0 <= i < |cd| ==> r[i] == cd[i].0
  {
    Keys(cd)
  }

  /** `courseData[course]?.semesters || ['Odd', 'Even']`. */
  function GetSemestersForCourse(cd: CourseData, course: string): (r: seq<string>)
    ensures Find(cd, course).None? ==> r == DefaultSemesters
    ensures Find(cd, course).Some? && Find(cd, course).value.semesters.None? ==> r == DefaultSemesters
    ensures Find(cd, course).Some? && Find(cd, course).value.semesters.Some? ==> r == Find(cd, course).value.semesters.value
  {
    match Find(cd, course)
    case None => DefaultSemesters
    case Some(e) => if e.semesters.Some? then e.semesters.value else DefaultSemesters
  }
}
