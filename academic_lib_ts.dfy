/** The academic-configuration helpers of the TypeScript library: the
    default course and subject tables, the stored-or-default configuration
    and the optional-chaining lookups with their defaults. */
module AcademicLibTs {
  import opened Common
  import opened OrderedMap

  /** One course of the course table; any field may be absent. */
  datatype CourseEntry = CourseEntry(years: Option<seq<string>>, departments: Option<seq<string>>, semesters: Option<seq<string>>)
  type CourseData = OMap<CourseEntry>
  /** course -> year -> department -> subject names. */
  type SubjectsData = OMap<OMap<OMap<seq<string>>>>

  /** The configuration as the application reads it. */
  datatype ConfigData = ConfigData(courseData: Option<CourseData>, subjectsData: Option<SubjectsData>, batches: seq<string>)

  /** A stored configuration document; its fields may be missing. */
  datatype StoredConfig = StoredConfig(courseData: Option<CourseData>, subjectsData: Option<SubjectsData>, batches: Option<seq<string>>)

  const DefaultBatches: seq<string> := ["A", "B", "C", "D"]
  const DefaultSemesters: seq<string> := ["Odd", "Even"]

  const DefaultCourseData: CourseData := [
    ("Engineering", CourseEntry(Some(["1st Year", "2nd Year", "3rd Year", "4th Year"]), Some(["Computer Science & Engineering", "Information Technology", "Mechanical Engineering"]), Some(["Odd", "Even"]))),
    ("MBA", CourseEntry(Some(["1st Year", "2nd Year"]), Some(["Business Administration", "Finance & Accounting", "Marketing & Sales"]), Some(["Odd", "Even"]))),
    ("MCA", CourseEntry(Some(["1st Year", "2nd Year"]), Some(["Computer Applications", "Software Development"]), Some(["Odd", "Even"]))),
    ("BBA+MBA", CourseEntry(Some(["1st Year", "2nd Year", "3rd Year", "4th Year", "5th Year"]), Some(["Business Administration", "Finance & Accounting", "Marketing & Sales"]), Some(["Odd", "Even"]))),
    ("BCA+MCA", CourseEntry(Some(["1st Year", "2nd Year", "3rd Year", "4th Year", "5th Year"]), Some(["Computer Applications", "Software Development"]), Some(["Odd", "Even"])))
  ]

  const DefaultSubjectsData: SubjectsData := [
    ("Engineering", [
      ("1st Year", [
        ("Computer Science & Engineering", ["Programming Fundamentals", "Data Structures", "Database Systems"]),
        ("Information Technology", ["Web Development", "Networking", "Software Engineering"]),
        ("Mechanical Engineering", ["Thermodynamics", "Fluid Mechanics", "Materials Science"])
      ]),
      ("2nd Year", [
        ("Computer Science & Engineering", ["Algorithms", "Operating Systems", "Computer Networks"]),
        ("Information Technology", ["Mobile Development", "Cloud Computing", "Cyber Security"]),
        ("Mechanical Engineering", ["Heat Transfer", "Dynamics", "Manufacturing Processes"])
      ]),
      ("3rd Year", [
        ("Computer Science & Engineering", ["Machine Learning", "Distributed Systems", "Software Architecture"]),
        ("Information Technology", ["Data Analytics", "IoT", "Blockchain"]),
        ("Mechanical Engineering", ["CAD/CAM", "Robotics", "Quality Control"])
      ]),
      ("4th Year", [
        ("Computer Science & Engineering", ["AI & Deep Learning", "Big Data", "Project Management"]),
        ("Information Technology", ["DevOps", "Advanced Security", "Digital Transformation"]),
        ("Mechanical Engineering", ["Advanced Manufacturing", "Sustainable Energy", "Project Management"])
      ])
    ]),
    ("MBA", [
      ("1st Year", [
        ("Business Administration", ["Management Principles", "Business Ethics", "Organizational Behavior"]),
        ("Finance & Accounting", ["Financial Accounting", "Cost Accounting", "Business Finance"]),
        ("Marketing & Sales", ["Marketing Management", "Consumer Behavior", "Sales Management"])
      ]),
      ("2nd Year", [
        ("Business Administration", ["Strategic Management", "Human Resource Management", "International Business"]),
        ("Finance & Accounting", ["Investment Analysis", "Financial Markets", "Corporate Finance"]),
        ("Marketing & Sales", ["Brand Management", "Digital Marketing", "Market Research"])
      ])
    ]),
    ("MCA", [
      ("1st Year", [
        ("Computer Applications", ["Advanced Programming", "Data Structures", "Database Management"]),
        ("Software Development", ["Software Engineering", "Web Technologies", "Mobile Apps"])
      ]),
      ("2nd Year", [
        ("Computer Applications", ["System Analysis", "Network Security", "Cloud Computing"]),
        ("Software Development", ["Agile Development", "DevOps", "Quality Assurance"])
      ])
    ]),
    ("BBA+MBA", [
      ("1st Year", [
        ("Business Administration", ["Business Communication", "Principles of Management", "Business Law"]),
        ("Finance & Accounting", ["Financial Literacy", "Basic Accounting", "Business Mathematics"]),
        ("Marketing & Sales", ["Marketing Fundamentals", "Retail Management", "Customer Service"])
      ]),
      ("2nd Year", [
        ("Business Administration", ["Business Strategy", "Entrepreneurship", "Operations Management"]),
        ("Finance & Accounting", ["Financial Planning", "Taxation", "Risk Management"]),
        ("Marketing & Sales", ["Advertising", "E-commerce", "International Marketing"])
      ]),
      ("3rd Year", [
        ("Business Administration", ["Advanced Management", "Corporate Governance", "Business Analytics"]),
        ("Finance & Accounting", ["Investment Banking", "Mergers & Acquisitions", "Financial Modeling"]),
        ("Marketing & Sales", ["Strategic Marketing", "Brand Strategy", "Sales Leadership"])
      ]),
      ("4th Year", [
        ("Business Administration", ["Global Business", "Innovation Management", "Leadership"]),
        ("Finance & Accounting", ["Portfolio Management", "Derivatives", "Financial Risk"]),
        ("Marketing & Sales", ["Marketing Analytics", "Customer Experience", "Digital Strategy"])
      ]),
      ("5th Year", [
        ("Business Administration", ["Executive Leadership", "Change Management", "Strategic Planning"]),
        ("Finance & Accounting", ["Advanced Finance", "Capital Markets", "Financial Strategy"]),
        ("Marketing & Sales", ["Marketing Innovation", "Global Marketing", "Business Development"])
      ])
    ]),
    ("BCA+MCA", [
      ("1st Year", [
        ("Computer Applications", ["Computer Fundamentals", "Programming Logic", "Database Concepts"]),
        ("Software Development", ["Object Oriented Programming", "Web Design", "System Analysis"])
      ]),
      ("2nd Year", [
        ("Computer Applications", ["Data Structures", "Operating Systems", "Software Engineering"]),
        ("Software Development", ["Advanced Programming", "Database Design", "Network Programming"])
      ]),
      ("3rd Year", [
        ("Computer Applications", ["System Programming", "Computer Networks", "Information Security"]),
        ("Software Development", ["Mobile Applications", "Cloud Computing", "Project Management"])
      ]),
      ("4th Year", [
        ("Computer Applications", ["Big Data Analytics", "Machine Learning", "IoT"]),
        ("Software Development", ["DevOps", "Microservices", "AI Applications"])
      ]),
      ("5th Year", [
        ("Computer Applications", ["Advanced Analytics", "Blockchain", "Cyber Security"]),
        ("Software Development", ["Full Stack Development", "Enterprise Solutions", "Innovation Lab"])
      ])
    ])
  ]

  /** getAcademicConfig: the stored document when there is one, with the
      default batches when it has none; the default tables when there is
      none or the read fails (Err). */
  function GetAcademicConfig(read: Result<Option<StoredConfig>>): (r: ConfigData)
    ensures read.Ok? && read.value.Some? ==>
      r.courseData == read.value.value.courseData && r.subjectsData == read.value.value.subjectsData
    ensures read.Ok? && read.value.Some? && read.value.value.batches.None? ==> r.batches == DefaultBatches
    ensures (read.Err? || read.value.None?) ==> r == ConfigData(Some(DefaultCourseData), Some(DefaultSubjectsData), DefaultBatches)
  {
    if read.Ok? && read.value.Some? then
      var c := read.value.value;
      ConfigData(c.courseData, c.subjectsData, if c.batches.Some? then c.batches.value else DefaultBatches)
    else
      ConfigData(Some(DefaultCourseData), Some(DefaultSubjectsData), DefaultBatches)
  }

  /** `courseData[course]?.years || []`. */
  function GetYearsForCourse(cd: CourseData, course: string): (r: seq<string>)
    ensures Find(cd, course).None? ==> r == []
    ensures Find(cd, course).Some? && Find(cd, course).value.years.Some? ==> r == Find(cd, course).value.years.value
  {
    match Find(cd, course)
    case None => []
    case Some(e) => if e.years.Some? then e.years.value else []
  }

  /** `courseData[course]?.departments || []`. */
  function GetDepartmentsForCourse(cd: CourseData, course: string): (r: seq<string>)
    ensures Find(cd, course).None? ==> r == []
    ensures Find(cd, course).Some? && Find(cd, course).value.departments.Some? ==> r == Find(cd, course).value.departments.value
  {
    match Find(cd, course)
    case None => []
    case Some(e) => if e.departments.Some? then e.departments.value else []
  }

  /** `subjectsData[course]?.[year]?.[department] || []`. */
  function GetSubjectsForContext(sd: SubjectsData, course: string, year: string, dept: string): (r: seq<string>)
    ensures Find(sd, course).None? ==> r == []
    ensures Find(sd, course).Some? && Find(Find(sd, course).value, year).None? ==> r == []
    ensures Find(sd, course).Some? && Find(Find(sd, course).value, year).Some? ==>
      r == (if Find(Find(Find(sd, course).value, year).value, dept).Some?
            then Find(Find(Find(sd, course).value, year).value, dept).value else [])
  {
    match Find(sd, course)
    case None => []
    case Some(ym) =>
      match Find(ym, year)
      case None => []
      case Some(dm) =>
        match Find(dm, dept)
        case None => []
        case Some(ss) => ss
  }

  function GetAllCourses(cd: CourseData): (r: seq<string>)
    ensures |r| == |cd| && forall i :: 0 <= i < |cd| ==> r[i] == cd[i].0
  {
    Keys(cd)
  }

  /** `courseData[course]?.semesters || ['Odd', 'Even']`. */
  function GetSemestersForCourse(cd: CourseData, course: string): (r: seq<string>)
    ensures Find(cd, course).None? ==> r == DefaultSemesters
    ensures Find(cd, course).Some? && Find(cd, course).value.semesters.None? ==> r == DefaultSemesters
    ensures Find(cd, course).Some? && Find(cd, course).value.semesters.Some? ==> r == Find(cd, course).value.semesters.value
  {
    match Find(cd, course)
    case None => DefaultSemesters
    case Some(e) => if e.semesters.Some? then e.semesters.value else DefaultSemesters
  }

  /** Every year and department of a course's subject table is listed by
      the course in the course table. */
  predicate CourseListed(e: CourseEntry, ym: OMap<OMap<seq<string>>>)
  {
    forall j :: 0 <= j < |ym| ==>
      && ym[j].0 in GetYearsOf(e)
      && forall k :: 0 <= k < |ym[j].1| ==> ym[j].1[k].0 in GetDeptsOf(e)
  }

  function GetYearsOf(e: CourseEntry): seq<string> { if e.years.Some? then e.years.value else [] }
  function GetDeptsOf(e: CourseEntry): seq<string> { if e.departments.Some? then e.departments.value else [] }

  predicate SubjectsListed(cd: CourseData, sd: SubjectsData)
  {
    forall i :: 0 <= i < |sd| ==> Find(cd, sd[i].0).Some? && CourseListed(Find(cd, sd[i].0).value, sd[i].1)
  }

  /** A subject table whose years and departments come in the course's own
      order is listed by it. */
  lemma ListedInOrder(e: CourseEntry, ym: OMap<OMap<seq<string>>>)
    requires |ym| <= |GetYearsOf(e)|
    requires forall j :: 0 <= j < |ym| ==> ym[j].0 == GetYearsOf(e)[j]
    requires forall j :: 0 <= j < |ym| ==> Keys(ym[j].1) == GetDeptsOf(e)
    ensures CourseListed(e, ym)
  {
    forall j, k | 0 <= j < |ym| && 0 <= k < |ym[j].1| ensures ym[j].1[k].0 in GetDeptsOf(e) {
      assert Keys(ym[j].1)[k] == ym[j].1[k].0;
    }
  }

  /** Course 0 of the default tables (Engineering). */
  lemma DefaultListed0()
    ensures Find(DefaultCourseData, DefaultSubjectsData[0].0) == Some(DefaultCourseData[0].1)
    ensures CourseListed(DefaultCourseData[0].1, DefaultSubjectsData[0].1)
  {
    var e, ym := DefaultCourseData[0].1, DefaultSubjectsData[0].1;
    FindFirst(DefaultCourseData, 0);
    assert forall j :: 0 <= j < |ym| ==> Keys(ym[j].1) == GetDeptsOf(e);
    ListedInOrder(e, ym);
  }

  /** Course 1 of the default tables (MBA). */
  lemma DefaultListed1()
    ensures Find(DefaultCourseData, DefaultSubjectsData[1].0) == Some(DefaultCourseData[1].1)
    ensures CourseListed(DefaultCourseData[1].1, DefaultSubjectsData[1].1)
  {
    var e, ym := DefaultCourseData[1].1, DefaultSubjectsData[1].1;
    FindFirst(DefaultCourseData, 1);
    assert forall j :: 0 <= j < |ym| ==> Keys(ym[j].1) == GetDeptsOf(e);
    ListedInOrder(e, ym);
  }

  /** Course 2 of the default tables (MCA). */
  lemma DefaultListed2()
    ensures Find(DefaultCourseData, DefaultSubjectsData[2].0) == Some(DefaultCourseData[2].1)
    ensures CourseListed(DefaultCourseData[2].1, DefaultSubjectsData[2].1)
  {
    var e, ym := DefaultCourseData[2].1, DefaultSubjectsData[2].1;
    FindFirst(DefaultCourseData, 2);
    assert forall j :: 0 <= j < |ym| ==> Keys(ym[j].1) == GetDeptsOf(e);
    ListedInOrder(e, ym);
  }

  /** Course 3 of the default tables (BBA+MBA). */
  lemma DefaultListed3()
    ensures Find(DefaultCourseData, DefaultSubjectsData[3].0) == Some(DefaultCourseData[3].1)
    ensures CourseListed(DefaultCourseData[3].1, DefaultSubjectsData[3].1)
  {
    var e, ym := DefaultCourseData[3].1, DefaultSubjectsData[3].1;
    FindFirst(DefaultCourseData, 3);
    assert forall j :: 0 <= j < |ym| ==> Keys(ym[j].1) == GetDeptsOf(e);
    ListedInOrder(e, ym);
  }

  /** Course 4 of the default tables (BCA+MCA). */
  lemma DefaultListed4()
    ensures Find(DefaultCourseData, DefaultSubjectsData[4].0) == Some(DefaultCourseData[4].1)
    ensures CourseListed(DefaultCourseData[4].1, DefaultSubjectsData[4].1)
  {
    var e, ym := DefaultCourseData[4].1, DefaultSubjectsData[4].1;
    FindFirst(DefaultCourseData, 4);
    assert forall j :: 0 <= j < |ym| ==> Keys(ym[j].1) == GetDeptsOf(e);
    ListedInOrder(e, ym);
  }

  /** The default subject table only names courses, years and departments
      of the default course table. */
  lemma DefaultSubjectsListed()
    ensures SubjectsListed(DefaultCourseData, DefaultSubjectsData)
  {
    var cd, sd := DefaultCourseData, DefaultSubjectsData;
    forall i | 0 <= i < |sd| ensures Find(cd, sd[i].0).Some? && CourseListed(Find(cd, sd[i].0).value, sd[i].1) {
      if i == 0 { DefaultListed0(); }
      else if i == 1 { DefaultListed1(); }
      else if i == 2 { DefaultListed2(); }
      else if i == 3 { DefaultListed3(); }
      else { DefaultListed4(); }
    }
  }
}
