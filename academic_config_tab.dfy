/** The super-admin editor of a college's academic structure. Every handler
    computes a new tree from the old one with nested spreads: the path to the
    edited node is rebuilt, every sibling is carried over. A handler that
    reads through a missing course, year or department throws a TypeError,
    shown here as Err. */
module AcademicConfigTab {
  import opened Common
  import opened OrderedMap
  import opened AcademicTree

  const TypeError := "TypeError: cannot read properties of undefined"

  // ---- reading down a path (`config.courses[c].years[y].departments[d]`) ----

  function CourseAt(c: Config, course: string): (r: Result<Course>)
    ensures r.Ok? <==> Has(CoursesOf(c), course)
    ensures r.Ok? ==> Find(CoursesOf(c), course) == Some(r.value)
  {
    match Find(CoursesOf(c), course)
    case None => Err(TypeError)
    case Some(co) => Ok(co)
  }

  /** A year is reached only when the course has a years map holding it. */
  function YearAt(c: Config, course: string, year: string): (r: Result<Year>)
    ensures r.Ok? <==> CourseAt(c, course).Ok? && Has(YearsOf(CourseAt(c, course).value), year)
                        && CourseAt(c, course).value.years.Some?
    ensures r.Ok? ==> Find(YearsOf(CourseAt(c, course).value), year) == Some(r.value)
  {
    match CourseAt(c, course)
    case Err(e) => Err(e)
    case Ok(co) =>
      if co.years.None? then Err(TypeError)
      else match Find(co.years.value, year)
        case None => Err(TypeError)
        case Some(y) => Ok(y)
  }

  function DeptAt(c: Config, course: string, year: string, dept: string): (r: Result<Dept>)
    ensures r.Ok? <==> YearAt(c, course, year).Ok? && YearAt(c, course, year).value.departments.Some?
                        && Has(DeptsOf(YearAt(c, course, year).value), dept)
    ensures r.Ok? ==> Find(DeptsOf(YearAt(c, course, year).value), dept) == Some(r.value)
  {
    match YearAt(c, course, year)
    case Err(e) => Err(e)
    case Ok(y) =>
      if y.departments.None? then Err(TypeError)
      else match Find(y.departments.value, dept)
        case None => Err(TypeError)
        case Some(d) => Ok(d)
  }

  // ---- writing down a path (the nested spreads) ----

  function SetCourse(c: Config, course: string, co: Course): Config
  {
    Config(Some(Put(CoursesOf(c), course, co)))
  }

  function SetYear(c: Config, course: string, year: string, y: Year): Config
    requires CourseAt(c, course).Ok?
  {
    SetCourse(c, course, Course(Some(Put(YearsOf(CourseAt(c, course).value), year, y))))
  }

  function SetDept(c: Config, course: string, year: string, dept: string, d: Dept): Config
    requires YearAt(c, course, year).Ok?
  {
    SetYear(c, course, year, Year(Some(Put(DeptsOf(YearAt(c, course, year).value), dept, d))))
  }

  // ---- the handlers ----

  /** addCourse: a blank name changes nothing; otherwise the name maps to a
      course with no years, replacing any course of that name. */
  function AddCourse(c: Config, name: string): (r: Config)
    ensures IsBlank(name) ==> r == c
    ensures !IsBlank(name) ==> r == SetCourse(c, name, Course(Some([])))
  {
    if IsBlank(name) then c else SetCourse(c, name, Course(Some([])))
  }

  /** removeCourse: the course's key is deleted. */
  function RemoveCourse(c: Config, name: string): (r: Config)
    ensures r.courses.Some? && !Has(CoursesOf(r), name)
    ensures forall k :: k != name ==> Find(CoursesOf(r), k) == Find(CoursesOf(c), k)
  {
    forall k | k != name ensures Find(Remove(CoursesOf(c), name), k) == Find(CoursesOf(c), k) {
      RemoveFind(CoursesOf(c), name, k);
    }
    Config(Some(Remove(CoursesOf(c), name)))
  }

  function AddYear(c: Config, course: string, year: string): (r: Result<Config>)
    ensures IsBlank(year) ==> r == Ok(c)
    ensures !IsBlank(year) ==> (r.Ok? <==> CourseAt(c, course).Ok?)
    ensures !IsBlank(year) && r.Ok? ==>
              r.value == SetCourse(c, course, Course(Some(Put(YearsOf(CourseAt(c, course).value), year, Year(Some([]))))))
  {
    if IsBlank(year) then Ok(c)
    else match CourseAt(c, course)
      case Err(e) => Err(e)
      case Ok(co) => Ok(SetCourse(c, course, Course(Some(Put(YearsOf(co), year, Year(Some([])))))))
  }

  function RemoveYear(c: Config, course: string, year: string): (r: Result<Config>)
    ensures r.Ok? <==> CourseAt(c, course).Ok?
    ensures r.Ok? ==> r.value == SetCourse(c, course, Course(Some(Remove(YearsOf(CourseAt(c, course).value), year))))
  {
    match CourseAt(c, course)
    case Err(e) => Err(e)
    case Ok(co) => Ok(SetCourse(c, course, Course(Some(Remove(YearsOf(co), year)))))
  }

  function AddDept(c: Config, course: string, year: string, dept: string): (r: Result<Config>)
    ensures IsBlank(dept) ==> r == Ok(c)
    ensures !IsBlank(dept) ==> (r.Ok? <==> YearAt(c, course, year).Ok?)
    ensures !IsBlank(dept) && r.Ok? ==>
              r.value == SetYear(c, course, year, Year(Some(Put(DeptsOf(YearAt(c, course, year).value), dept, Dept(Some([]))))))
  {
    if IsBlank(dept) then Ok(c)
    else match YearAt(c, course, year)
      case Err(e) => Err(e)
      case Ok(y) => Ok(SetYear(c, course, year, Year(Some(Put(DeptsOf(y), dept, Dept(Some([])))))))
  }

  function RemoveDept(c: Config, course: string, year: string, dept: string): (r: Result<Config>)
    ensures r.Ok? <==> YearAt(c, course, year).Ok?
    ensures r.Ok? ==> r.value == SetYear(c, course, year, Year(Some(Remove(DeptsOf(YearAt(c, course, year).value), dept))))
  {
    match YearAt(c, course, year)
    case Err(e) => Err(e)
    case Ok(y) => Ok(SetYear(c, course, year, Year(Some(Remove(DeptsOf(y), dept)))))
  }

  /** addBatch: blank or already listed changes nothing, otherwise the batch
      is appended. */
  function AddBatch(c: Config, course: string, year: string, dept: string, batch: string): (r: Result<Config>)
    ensures IsBlank(batch) ==> r == Ok(c)
    ensures !IsBlank(batch) ==> (r.Ok? <==> DeptAt(c, course, year, dept).Ok?)
    ensures !IsBlank(batch) && r.Ok? && batch in BatchesOf(DeptAt(c, course, year, dept).value) ==> r.value == c
    ensures !IsBlank(batch) && r.Ok? && batch !in BatchesOf(DeptAt(c, course, year, dept).value) ==>
              r.value == SetDept(c, course, year, dept, Dept(Some(BatchesOf(DeptAt(c, course, year, dept).value) + [batch])))
  {
    if IsBlank(batch) then Ok(c)
    else match DeptAt(c, course, year, dept)
      case Err(e) => Err(e)
      case Ok(d) =>
        var current := BatchesOf(d);
        if batch in current then Ok(c)
        else Ok(SetDept(c, course, year, dept, Dept(Some(current + [batch]))))
  }

  /** removeBatch: every copy of the name leaves that department's list. */
  function RemoveBatch(c: Config, course: string, year: string, dept: string, batch: string): (r: Result<Config>)
    ensures r.Ok? <==> DeptAt(c, course, year, dept).Ok?
    ensures r.Ok? ==> r.value == SetDept(c, course, year, dept, Dept(Some(Filter(BatchesOf(DeptAt(c, course, year, dept).value), b => b != batch))))
  {
    match DeptAt(c, course, year, dept)
    case Err(e) => Err(e)
    case Ok(d) => Ok(SetDept(c, course, year, dept, Dept(Some(Filter(BatchesOf(d), b => b != batch)))))
  }

  /** renameCourse: a blank or unchanged name, or one already in use,
      changes nothing; otherwise the key is renamed in place. */
  function RenameCourse(c: Config, from: string, to: string): (r: Result<Config>)
    ensures IsBlank(to) || to == from ==> r == Ok(c)
    ensures !IsBlank(to) && to != from ==> (r.Ok? <==> c.courses.Some?)
    ensures !IsBlank(to) && to != from && r.Ok? && Has(CoursesOf(c), to) ==> r.value == c
    ensures !IsBlank(to) && to != from && r.Ok? && !Has(CoursesOf(c), to) ==>
              r.value == Config(Some(RenameKey(CoursesOf(c), from, to)))
  {
    if IsBlank(to) || to == from then Ok(c)
    else if c.courses.None? then Err(TypeError)
    else if Has(c.courses.value, to) then Ok(c)
    else Ok(Config(Some(RenameKey(c.courses.value, from, to))))
  }

  function RenameDept(c: Config, course: string, year: string, from: string, to: string): (r: Result<Config>)
    ensures IsBlank(to) || to == from ==> r == Ok(c)
    ensures !IsBlank(to) && to != from ==>
              (r.Ok? <==> YearAt(c, course, year).Ok? && YearAt(c, course, year).value.departments.Some?)
    ensures !IsBlank(to) && to != from && r.Ok? && Has(DeptsOf(YearAt(c, course, year).value), to) ==> r.value == c
    ensures !IsBlank(to) && to != from && r.Ok? && !Has(DeptsOf(YearAt(c, course, year).value), to) ==>
              r.value == SetYear(c, course, year, Year(Some(RenameKey(DeptsOf(YearAt(c, course, year).value), from, to))))
  {
    if IsBlank(to) || to == from then Ok(c)
    else match YearAt(c, course, year)
      case Err(e) => Err(e)
      case Ok(y) =>
        if y.departments.None? then Err(TypeError)
        else if Has(y.departments.value, to) then Ok(c)
        else Ok(SetYear(c, course, year, Year(Some(RenameKey(y.departments.value, from, to)))))
  }

  /** The batch list with one name replaced by another, everywhere it occurs. */
  function RenameIn(bs: seq<string>, from: string, to: string): (r: seq<string>)
    ensures |r| == |bs|
    ensures forall i :: 0 <= i < |bs| ==> r[i] == if bs[i] == from then to else bs[i]
  {
    Map(bs, b => if b == from then to else b)
  }

  function RenameBatch(c: Config, course: string, year: string, dept: string, from: string, to: string): (r: Result<Config>)
    ensures IsBlank(to) || to == from ==> r == Ok(c)
    ensures !IsBlank(to) && to != from ==> (r.Ok? <==> DeptAt(c, course, year, dept).Ok?)
    ensures !IsBlank(to) && to != from && r.Ok? && to in BatchesOf(DeptAt(c, course, year, dept).value) ==> r.value == c
    ensures !IsBlank(to) && to != from && r.Ok? && to !in BatchesOf(DeptAt(c, course, year, dept).value) ==>
              r.value == SetDept(c, course, year, dept, Dept(Some(RenameIn(BatchesOf(DeptAt(c, course, year, dept).value), from, to))))
  {
    if IsBlank(to) || to == from then Ok(c)
    else match DeptAt(c, course, year, dept)
      case Err(e) => Err(e)
      case Ok(d) =>
        var current := BatchesOf(d);
        if to in current then Ok(c)
        else Ok(SetDept(c, course, year, dept, Dept(Some(RenameIn(current, from, to)))))
  }

  /** The rename dialog's state. */
  datatype EditModal = EditModal(kind: string, currentValue: string, newValue: string,
                                 courseName: string, deptName: string, year: string, batch: string)

  /** handleEditSave: a blank or unchanged value closes the dialog without a
      change; otherwise the rename of the dialog's kind is applied, and an
      unknown kind changes nothing. */
  function EditSave(c: Config, m: EditModal): (r: Result<Config>)
    ensures IsBlank(m.newValue) || m.newValue == m.currentValue ==> r == Ok(c)
    ensures m.kind !in {"course", "department", "batch"} ==> r == Ok(c)
  {
    if IsBlank(m.newValue) || m.newValue == m.currentValue then Ok(c)
    else if m.kind == "course" then RenameCourse(c, m.currentValue, m.newValue)
    else if m.kind == "department" then RenameDept(c, m.courseName, m.year, m.currentValue, m.newValue)
    else if m.kind == "batch" then RenameBatch(c, m.courseName, m.year, m.deptName, m.batch, m.newValue)
    else Ok(c)
  }

  // ---- the read-side helpers ----

  /** parseInt of a year key; a key parseInt cannot read is placed as
      year 0, where the source's comparator gives NaN. */
  function YearNumber(k: string): int
  {
    var p := ParseInt(k);
    if p.Some? then p.value else 0
  }

  /** getYearsForCourse: the year keys in numeric order. */
  function YearsForCourse(co: Course): (r: seq<string>)
    ensures SortedAsc(r, YearNumber)
    ensures multiset(r) == multiset(Keys(YearsOf(co)))
  {
    SortAsc(Keys(YearsOf(co)), YearNumber)
  }

  /** Number of departments across the given years. */
  function DeptTotal(ys: OMap<Year>): nat
  {
    if ys == [] then 0 else |DeptsOf(ys[0].1)| + DeptTotal(ys[1..])
  }

  lemma {:induction false} DeptTotalAppend(ys: OMap<Year>, y: (string, Year))
    ensures DeptTotal(ys + [y]) == DeptTotal(ys) + |DeptsOf(y.1)|
  {
    if ys != [] {
      assert (ys + [y])[1..] == ys[1..] + [y];
      DeptTotalAppend(ys[1..], y);
    }
  }

  /** getCourseStats: the year count and the department count summed over
      the years. */
  method CourseStats(co: Course) returns (yearCount: nat, deptCount: nat)
    ensures yearCount == |YearsOf(co)|
    ensures deptCount == DeptTotal(YearsOf(co))
  {
    yearCount := |YearsForCourse(co)|;
    var ys := YearsOf(co);
    deptCount := 0;
    var i := 0;
    while i < |ys|
      invariant 0 <= i <= |ys|
      invariant deptCount == DeptTotal(ys[..i])
    {
      DeptTotalAppend(ys[..i], ys[i]);
      assert ys[..i + 1] == ys[..i] + [ys[i]];
      deptCount := deptCount + |DeptsOf(ys[i].1)|;
      i := i + 1;
    }
    assert ys[..i] == ys;
  }

  // ---- what the handlers keep ----

  /** Writing a department reaches it, and leaves every other course, every
      other year of that course and every other department of that year as
      it was. */
  lemma SetDeptFrame(c: Config, course: string, year: string, dept: string, d: Dept, k: string)
    requires YearAt(c, course, year).Ok?
    requires Keyed(CoursesOf(c)) && Keyed(YearsOf(CourseAt(c, course).value))
    requires Keyed(DeptsOf(YearAt(c, course, year).value))
    ensures DeptAt(SetDept(c, course, year, dept, d), course, year, dept) == Ok(d)
    ensures k != course ==> Find(CoursesOf(SetDept(c, course, year, dept, d)), k) == Find(CoursesOf(c), k)
    ensures k != year ==>
              Find(YearsOf(CourseAt(SetDept(c, course, year, dept, d), course).value), k) == Find(YearsOf(CourseAt(c, course).value), k)
    ensures k != dept ==>
              Find(DeptsOf(YearAt(SetDept(c, course, year, dept, d), course, year).value), k) == Find(DeptsOf(YearAt(c, course, year).value), k)
  {
    var co := CourseAt(c, course).value;
    var y := YearAt(c, course, year).value;
    var ds := Put(DeptsOf(y), dept, d);
    var ys := Put(YearsOf(co), year, Year(Some(ds)));
    PutFind(DeptsOf(y), dept, d, k);
    PutFind(YearsOf(co), year, Year(Some(ds)), k);
    PutFind(CoursesOf(c), course, Course(Some(ys)), k);
  }

  /** addBatch keeps a duplicate-free list duplicate-free, and the batch is
      then listed. */
  lemma AddBatchDistinct(c: Config, course: string, year: string, dept: string, batch: string)
    requires !IsBlank(batch) && DeptAt(c, course, year, dept).Ok?
    requires NoDuplicates(BatchesOf(DeptAt(c, course, year, dept).value))
    requires Keyed(CoursesOf(c)) && Keyed(YearsOf(CourseAt(c, course).value))
    requires Keyed(DeptsOf(YearAt(c, course, year).value))
    ensures var r := AddBatch(c, course, year, dept, batch).value;
            DeptAt(r, course, year, dept).Ok?
            && batch in BatchesOf(DeptAt(r, course, year, dept).value)
            && NoDuplicates(BatchesOf(DeptAt(r, course, year, dept).value))
  {
    var bs := BatchesOf(DeptAt(c, course, year, dept).value);
    if batch !in bs {
      var nd := Dept(Some(bs + [batch]));
      assert AddBatch(c, course, year, dept, batch) == Ok(SetDept(c, course, year, dept, nd));
      SetDeptFrame(c, course, year, dept, nd, dept);
      AppendFresh(bs, batch);
    }
  }

  lemma AppendFresh<T>(s: seq<T>, x: T)
    requires NoDuplicates(s) && x !in s
    ensures NoDuplicates(s + [x]) && x in s + [x]
  {
    assert forall i :: 0 <= i < |s| ==> (s + [x])[i] == s[i];
  }

  /** After removeBatch the name is gone from that department, whose other
      batches keep their order; siblings are as before (SetDeptFrame). */
  lemma RemoveBatchGone(c: Config, course: string, year: string, dept: string, batch: string)
    requires DeptAt(c, course, year, dept).Ok?
    requires Keyed(CoursesOf(c)) && Keyed(YearsOf(CourseAt(c, course).value))
    requires Keyed(DeptsOf(YearAt(c, course, year).value))
    ensures var r := RemoveBatch(c, course, year, dept, batch).value;
            var old_ := BatchesOf(DeptAt(c, course, year, dept).value);
            DeptAt(r, course, year, dept).Ok?
            && batch !in BatchesOf(DeptAt(r, course, year, dept).value)
            && (forall b :: b in BatchesOf(DeptAt(r, course, year, dept).value) <==> b in old_ && b != batch)
  {
    var bs := BatchesOf(DeptAt(c, course, year, dept).value);
    var p := (b: string) => b != batch;
    SetDeptFrame(c, course, year, dept, Dept(Some(Filter(bs, p))), dept);
    forall b ensures b in Filter(bs, p) <==> b in bs && b != batch {
      FilterMembers(bs, p, b);
    }
  }

  /** renameBatch to an unused name keeps the list duplicate-free and of the
      same length, with the new name where the old one was. */
  lemma RenameBatchDistinct(bs: seq<string>, from: string, to: string)
    requires NoDuplicates(bs) && to !in bs
    ensures NoDuplicates(RenameIn(bs, from, to))
    ensures from in bs ==> to in RenameIn(bs, from, to) && from !in RenameIn(bs, from, to)
  {
    var r := RenameIn(bs, from, to);
    forall i, j | 0 <= i < j < |r| ensures r[i] != r[j] {
      assert bs[i] != bs[j];
    }
    if from in bs {
      var i :| 0 <= i < |bs| && bs[i] == from;
      assert r[i] == to;
    }
  }

  /** A course rename to a fresh name keeps the key order (RenameKey), moves
      the course's subtree to the new key and leaves the other courses alone. */
  lemma RenameCourseMoves(c: Config, from: string, to: string, k: string)
    requires !IsBlank(to) && to != from && c.courses.Some?
    requires Keyed(CoursesOf(c)) && Has(CoursesOf(c), from) && !Has(CoursesOf(c), to)
    ensures var r := RenameCourse(c, from, to).value;
            && Keyed(CoursesOf(r))
            && !Has(CoursesOf(r), from)
            && Find(CoursesOf(r), to) == Find(CoursesOf(c), from)
            && (k != from && k != to ==> Find(CoursesOf(r), k) == Find(CoursesOf(c), k))
  {
    RenameFind(CoursesOf(c), from, to, k);
  }

  /** Adding at an existing key replaces that subtree with an empty one. */
  lemma AddCourseResets(c: Config, name: string, k: string)
    requires !IsBlank(name) && Keyed(CoursesOf(c))
    ensures Find(CoursesOf(AddCourse(c, name)), name) == Some(Course(Some([])))
    ensures k != name ==> Find(CoursesOf(AddCourse(c, name)), k) == Find(CoursesOf(c), k)
    ensures Keyed(CoursesOf(AddCourse(c, name)))
  {
    PutFind(CoursesOf(c), name, Course(Some([])), k);
  }

  /** Writing a year reaches it and leaves the other courses and the other
      years of that course as they were. */
  lemma SetYearFrame(c: Config, course: string, year: string, y: Year, k: string)
    requires CourseAt(c, course).Ok?
    requires Keyed(CoursesOf(c)) && Keyed(YearsOf(CourseAt(c, course).value))
    ensures YearAt(SetYear(c, course, year, y), course, year) == Ok(y)
    ensures k != course ==> Find(CoursesOf(SetYear(c, course, year, y)), k) == Find(CoursesOf(c), k)
    ensures k != year ==>
              Find(YearsOf(CourseAt(SetYear(c, course, year, y), course).value), k) == Find(YearsOf(CourseAt(c, course).value), k)
  {
    var co := CourseAt(c, course).value;
    var ys := Put(YearsOf(co), year, y);
    PutFind(YearsOf(co), year, y, k);
    PutFind(CoursesOf(c), course, Course(Some(ys)), k);
  }

  /** removeDept deletes exactly that department of that year; the other
      departments, years and courses are as before. */
  lemma RemoveDeptOne(c: Config, course: string, year: string, dept: string, k: string)
    requires YearAt(c, course, year).Ok?
    requires Keyed(CoursesOf(c)) && Keyed(YearsOf(CourseAt(c, course).value))
    ensures var r := RemoveDept(c, course, year, dept).value;
            && YearAt(r, course, year).Ok?
            && !Has(DeptsOf(YearAt(r, course, year).value), dept)
            && (k != dept ==> Find(DeptsOf(YearAt(r, course, year).value), k) == Find(DeptsOf(YearAt(c, course, year).value), k))
            && (k != year ==> Find(YearsOf(CourseAt(r, course).value), k) == Find(YearsOf(CourseAt(c, course).value), k))
            && (k != course ==> Find(CoursesOf(r), k) == Find(CoursesOf(c), k))
  {
    var y := YearAt(c, course, year).value;
    var ny := Year(Some(Remove(DeptsOf(y), dept)));
    SetYearFrame(c, course, year, ny, k);
    if k != dept { RemoveFind(DeptsOf(y), dept, k); }
  }

  /** removeYear deletes exactly that year of that course; the other years
      and courses are as before. */
  lemma RemoveYearOne(c: Config, course: string, year: string, k: string)
    requires CourseAt(c, course).Ok? && Keyed(CoursesOf(c))
    ensures var r := RemoveYear(c, course, year).value;
            && CourseAt(r, course).Ok?
            && !Has(YearsOf(CourseAt(r, course).value), year)
            && (k != year ==> Find(YearsOf(CourseAt(r, course).value), k) == Find(YearsOf(CourseAt(c, course).value), k))
            && (k != course ==> Find(CoursesOf(r), k) == Find(CoursesOf(c), k))
  {
    var co := CourseAt(c, course).value;
    var nc := Course(Some(Remove(YearsOf(co), year)));
    PutFind(CoursesOf(c), course, nc, k);
    PutFind(CoursesOf(c), course, nc, course);
    if k != year { RemoveFind(YearsOf(co), year, k); }
  }
}
