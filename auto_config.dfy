/** The automatic academic-configuration update run after project codes are
    imported: every course and year named by the codes is added to the
    college's stored tree, nothing already there is replaced, and the tree
    is written back only when something was added. */
module AutoConfig {
  import opened Common
  import opened OrderedMap
  import opened AcademicTree

  // ---- reading the tree ----

  function CourseOf(c: Config, name: string): Option<Course>
  {
    Find(CoursesOf(c), name)
  }

  /** A course that exists and has a years map (`courses[name]?.years` truthy). */
  predicate YearsIn(oc: Option<Course>)
  {
    oc.Some? && oc.value.years.Some?
  }

  predicate HasYears(c: Config, name: string)
  {
    YearsIn(CourseOf(c, name))
  }

  /** A course whose years map holds every year of ys. */
  predicate EntryIn(oc: Option<Course>, ys: seq<string>)
  {
    YearsIn(oc) && forall j :: 0 <= j < |ys| ==> Find(YearsOf(oc.value), ys[j]).Some?
  }

  /** The course of one input entry exists with all the entry's years. */
  predicate EntryPresent(c: Config, e: (string, seq<string>))
  {
    EntryIn(CourseOf(c, e.0), e.1)
  }

  predicate YearPresent(c: Config, name: string, y: string)
  {
    EntryPresent(c, (name, [y]))
  }

  /** Every course of the input exists with a years map holding every one of
      its years. */
  predicate AllPresent(c: Config, ns: OMap<seq<string>>)
  {
    forall i :: 0 <= i < |ns| ==> EntryPresent(c, ns[i])
  }

  function SetCourse(c: Config, name: string, co: Course): Config
  {
    Config(Some(Put(CoursesOf(c), name, co)))
  }

  lemma SetCourseOf(c: Config, name: string, co: Course, k: string)
    ensures CourseOf(SetCourse(c, name, co), k) == if k == name then Some(co) else CourseOf(c, k)
  {
    PutFindAny(CoursesOf(c), name, co, k);
  }

  // ---- the update, step by step, with what each step keeps ----

  /** b keeps a's years map and every year in it, unchanged. */
  ghost predicate CourseKept(a: Option<Course>, b: Option<Course>)
  {
    YearsIn(a) ==>
      && YearsIn(b)
      && forall y :: Find(YearsOf(a.value), y).Some? ==> Find(YearsOf(b.value), y) == Find(YearsOf(a.value), y)
  }

  /** r keeps every years map and every year of c. */
  ghost predicate Keeps(c: Config, r: Config)
  {
    forall k {:trigger CourseOf(r, k)} :: CourseKept(CourseOf(c, k), CourseOf(r, k))
  }

  /** r differs from c at most in the course `name`. */
  ghost predicate Untouched(c: Config, r: Config, name: string)
  {
    forall k {:trigger CourseOf(r, k)} :: k != name ==> CourseOf(r, k) == CourseOf(c, k)
  }

  lemma CourseKeptTrans(a: Option<Course>, b: Option<Course>, c: Option<Course>)
    requires CourseKept(a, b) && CourseKept(b, c)
    ensures CourseKept(a, c)
  {
  }

  lemma KeepsTrans(a: Config, b: Config, c: Config)
    requires Keeps(a, b) && Keeps(b, c)
    ensures Keeps(a, c)
  {
    forall k ensures CourseKept(CourseOf(a, k), CourseOf(c, k)) {
      CourseKeptTrans(CourseOf(a, k), CourseOf(b, k), CourseOf(c, k));
    }
  }

  lemma UntouchedTrans(a: Config, b: Config, c: Config, name: string)
    requires Untouched(a, b, name) && Untouched(b, c, name)
    ensures Untouched(a, c, name)
  {
  }

  /** An entry present in a course stays present in what keeps it. */
  lemma EntryKept(a: Option<Course>, b: Option<Course>, ys: seq<string>)
    requires CourseKept(a, b) && EntryIn(a, ys)
    ensures EntryIn(b, ys)
  {
    forall j | 0 <= j < |ys| ensures Find(YearsOf(b.value), ys[j]).Some? {
      assert Find(YearsOf(a.value), ys[j]).Some?;
    }
  }

  /** A missing course is created with no years, and a course without a
      years map gets an empty one; either sets the flag. */
  function EnsureCourse(c: Config, name: string): (r: (Config, bool))
    ensures HasYears(r.0, name)
    ensures r.1 <==> !HasYears(c, name)
    ensures !r.1 ==> r.0 == c
    ensures Untouched(c, r.0, name) && Keeps(c, r.0)
  {
    if HasYears(c, name) then (c, false)
    else
      var r := SetCourse(c, name, Course(Some([])));
      forall k ensures CourseOf(r, k) == if k == name then Some(Course(Some([]))) else CourseOf(c, k) {
        SetCourseOf(c, name, Course(Some([])), k);
      }
      (r, true)
  }

  /** The course with year y added, empty departments, when it is missing. */
  function AddYear(co: Course, y: string): Course
  {
    Course(Some(Put(YearsOf(co), y, Year(Some([])))))
  }

  lemma AddYearKeeps(co: Course, y: string)
    requires co.years.Some? && Find(YearsOf(co), y).None?
    ensures CourseKept(Some(co), Some(AddYear(co, y)))
    ensures Find(YearsOf(AddYear(co, y)), y).Some?
  {
    forall y2 ensures Find(YearsOf(AddYear(co, y)), y2) == if y2 == y then Some(Year(Some([]))) else Find(YearsOf(co), y2) {
      PutFindAny(YearsOf(co), y, Year(Some([])), y2);
    }
  }

  /** A missing year is added with an empty departments map. */
  function EnsureYear(c: Config, name: string, y: string): (r: (Config, bool))
    requires HasYears(c, name)
    ensures HasYears(r.0, name) && YearPresent(r.0, name, y)
    ensures r.1 <==> !YearPresent(c, name, y)
    ensures !r.1 ==> r.0 == c
    ensures Untouched(c, r.0, name) && Keeps(c, r.0)
  {
    if YearPresent(c, name, y) then (c, false)
    else
      var co := AddYear(CourseOf(c, name).value, y);
      var r := SetCourse(c, name, co);
      forall k ensures CourseOf(r, k) == if k == name then Some(co) else CourseOf(c, k) {
        SetCourseOf(c, name, co, k);
      }
      AddYearKeeps(CourseOf(c, name).value, y);
      (r, true)
  }

  /** The inner loop over one course's years. */
  function EnsureYears(c: Config, name: string, ys: seq<string>): (r: (Config, bool))
    requires HasYears(c, name)
    ensures EntryPresent(r.0, (name, ys))
    ensures !r.1 ==> r.0 == c
    ensures EntryPresent(c, (name, ys)) ==> !r.1
    ensures Untouched(c, r.0, name) && Keeps(c, r.0)
    decreases |ys|
  {
    if ys == [] then (c, false)
    else
      var init := ys[..|ys| - 1];
      var (c1, f1) := EnsureYears(c, name, init);
      var (c2, f2) := EnsureYear(c1, name, ys[|ys| - 1]);
      EnsureYearsStep(c, c1, c2, name, ys, f1, f2);
      (c2, f1 || f2)
  }

  lemma EnsureYearsStep(c: Config, c1: Config, c2: Config, name: string, ys: seq<string>, f1: bool, f2: bool)
    requires ys != []
    requires EntryPresent(c1, (name, ys[..|ys| - 1])) && (!f1 ==> c1 == c)
    requires EntryPresent(c, (name, ys[..|ys| - 1])) ==> !f1
    requires Untouched(c, c1, name) && Keeps(c, c1)
    requires YearPresent(c2, name, ys[|ys| - 1]) && (!f2 ==> c2 == c1)
    requires YearPresent(c1, name, ys[|ys| - 1]) ==> !f2
    requires Untouched(c1, c2, name) && Keeps(c1, c2)
    ensures EntryPresent(c2, (name, ys))
    ensures !(f1 || f2) ==> c2 == c
    ensures EntryPresent(c, (name, ys)) ==> !(f1 || f2)
    ensures Untouched(c, c2, name) && Keeps(c, c2)
  {
    var init := ys[..|ys| - 1];
    EntryKept(CourseOf(c1, name), CourseOf(c2, name), init);
    EntrySnoc(CourseOf(c2, name), ys);
    if EntryPresent(c, (name, ys)) {
      EntrySnoc(CourseOf(c, name), ys);
      assert c1 == c;
    }
    KeepsTrans(c, c1, c2);
    UntouchedTrans(c, c1, c2, name);
  }

  /** A course holds all of ys exactly when it holds all but the last, and the last. */
  lemma EntrySnoc(oc: Option<Course>, ys: seq<string>)
    requires ys != []
    ensures EntryIn(oc, ys) <==> EntryIn(oc, ys[..|ys| - 1]) && EntryIn(oc, [ys[|ys| - 1]])
  {
    var init := ys[..|ys| - 1];
    if EntryIn(oc, init) && EntryIn(oc, [ys[|ys| - 1]]) {
      forall j | 0 <= j < |ys| ensures Find(YearsOf(oc.value), ys[j]).Some? {
        if j < |init| {
          assert ys[j] == init[j];
        } else {
          assert ys[j] == [ys[|ys| - 1]][0];
        }
      }
    }
    if EntryIn(oc, ys) {
      forall j | 0 <= j < |init| ensures Find(YearsOf(oc.value), init[j]).Some? {
        assert init[j] == ys[j];
      }
      assert Find(YearsOf(oc.value), [ys[|ys| - 1]][0]).Some?;
    }
  }

  /** One entry of the outer loop: the course, then its years. */
  function MergeCourse(c: Config, e: (string, seq<string>)): (r: (Config, bool))
    ensures EntryPresent(r.0, e)
    ensures !r.1 ==> r.0 == c
    ensures EntryPresent(c, e) ==> !r.1
    ensures Untouched(c, r.0, e.0) && Keeps(c, r.0)
  {
    var (c1, f1) := EnsureCourse(c, e.0);
    var (c2, f2) := EnsureYears(c1, e.0, e.1);
    KeepsTrans(c, c1, c2);
    UntouchedTrans(c, c1, c2, e.0);
    (c2, f1 || f2)
  }

  /** The courses outside ks are the same in c and r. */
  ghost predicate UntouchedOutside(c: Config, r: Config, ks: seq<string>)
  {
    forall k {:trigger CourseOf(r, k)} :: k !in ks ==> CourseOf(r, k) == CourseOf(c, k)
  }

  /** The outer loop over the input's courses, in key order. */
  function MergeAll(c: Config, ns: OMap<seq<string>>): (r: (Config, bool))
    ensures AllPresent(r.0, ns)
    ensures !r.1 ==> r.0 == c
    ensures AllPresent(c, ns) ==> !r.1
    ensures UntouchedOutside(c, r.0, Keys(ns)) && Keeps(c, r.0)
    decreases |ns|
  {
    if ns == [] then (c, false)
    else
      var init := ns[..|ns| - 1];
      var (c1, f1) := MergeAll(c, init);
      var (c2, f2) := MergeCourse(c1, ns[|ns| - 1]);
      MergeAllPresence(c, c1, c2, ns, f1, f2);
      MergeAllFrame(c, c1, c2, ns);
      (c2, f1 || f2)
  }

  lemma MergeAllPresence(c: Config, c1: Config, c2: Config, ns: OMap<seq<string>>, f1: bool, f2: bool)
    requires ns != []
    requires AllPresent(c1, ns[..|ns| - 1]) && (!f1 ==> c1 == c) && (AllPresent(c, ns[..|ns| - 1]) ==> !f1)
    requires EntryPresent(c2, ns[|ns| - 1]) && (!f2 ==> c2 == c1)
    requires EntryPresent(c1, ns[|ns| - 1]) ==> !f2
    requires Keeps(c1, c2)
    ensures AllPresent(c2, ns)
    ensures !(f1 || f2) ==> c2 == c
    ensures AllPresent(c, ns) ==> !(f1 || f2)
  {
    var init := ns[..|ns| - 1];
    forall i | 0 <= i < |ns| ensures EntryPresent(c2, ns[i]) {
      if i < |init| {
        assert ns[i] == init[i];
        EntryKept(CourseOf(c1, ns[i].0), CourseOf(c2, ns[i].0), ns[i].1);
      }
    }
    if AllPresent(c, ns) {
      assert AllPresent(c, init) by {
        forall i | 0 <= i < |init| ensures EntryPresent(c, init[i]) {
          assert ns[i] == init[i];
        }
      }
      assert c1 == c;
    }
  }

  lemma MergeAllFrame(c: Config, c1: Config, c2: Config, ns: OMap<seq<string>>)
    requires ns != []
    requires UntouchedOutside(c, c1, Keys(ns[..|ns| - 1])) && Keeps(c, c1)
    requires Untouched(c1, c2, ns[|ns| - 1].0) && Keeps(c1, c2)
    ensures UntouchedOutside(c, c2, Keys(ns)) && Keeps(c, c2)
  {
    assert Keys(ns) == Keys(ns[..|ns| - 1]) + [ns[|ns| - 1].0];
    KeepsTrans(c, c1, c2);
  }

  /** A stored config without courses gets an empty courses map first. */
  function Normalize(c: Config): Config
  {
    Config(Some(CoursesOf(c)))
  }

  // ---- what the update promises ----

  /** The config is written exactly when some course or year of the input
      was missing. */
  lemma SavedIffMissing(c: Config, ns: OMap<seq<string>>)
    ensures MergeAll(c, ns).1 <==> !AllPresent(c, ns)
  {
  }

  /** An existing year of an existing course is left exactly as it was,
      departments and batches included. */
  lemma ExistingYearKept(c: Config, ns: OMap<seq<string>>, name: string, y: string)
    requires YearPresent(c, name, y)
    ensures YearPresent(MergeAll(c, ns).0, name, y)
    ensures Find(YearsOf(CourseOf(MergeAll(c, ns).0, name).value), y) == Find(YearsOf(CourseOf(c, name).value), y)
  {
    var r := MergeAll(c, ns).0;
    assert CourseKept(CourseOf(c, name), CourseOf(r, name));
    assert Find(YearsOf(CourseOf(c, name).value), [y][0]).Some?;
  }

  /** A second run with the same input finds everything and writes nothing. */
  lemma SecondRunNoOp(c: Config, ns: OMap<seq<string>>)
    ensures MergeAll(MergeAll(c, ns).0, ns) == (MergeAll(c, ns).0, false)
  {
  }

  // ---- the imperative update ----

  /** MergeAll on one more entry. */
  lemma MergeAllSnoc(c: Config, ns: OMap<seq<string>>, i: nat)
    requires i < |ns|
    ensures MergeAll(c, ns[..i + 1]).0 == MergeCourse(MergeAll(c, ns[..i]).0, ns[i]).0
    ensures MergeAll(c, ns[..i + 1]).1 == (MergeAll(c, ns[..i]).1 || MergeCourse(MergeAll(c, ns[..i]).0, ns[i]).1)
  {
    assert ns[..i + 1][..i] == ns[..i];
  }

  /** One pass of the outer loop's body is MergeAll on one more entry. */
  lemma OuterStep(start: Config, ns: OMap<seq<string>>, i: nat, cfg: Config, updated: bool,
                  withCourse: Config, courseAdded: bool, withYears: Config, yearsAdded: bool)
    requires i < |ns|
    requires cfg == MergeAll(start, ns[..i]).0 && updated == MergeAll(start, ns[..i]).1
    requires withCourse == EnsureCourse(cfg, ns[i].0).0 && courseAdded == EnsureCourse(cfg, ns[i].0).1
    requires HasYears(withCourse, ns[i].0)
    requires withYears == EnsureYears(withCourse, ns[i].0, ns[i].1).0
    requires yearsAdded == EnsureYears(withCourse, ns[i].0, ns[i].1).1
    ensures withYears == MergeAll(start, ns[..i + 1]).0
    ensures (updated || courseAdded || yearsAdded) == MergeAll(start, ns[..i + 1]).1
  {
    MergeAllSnoc(start, ns, i);
  }

  /** EnsureYears on one more year. */
  lemma EnsureYearsSnoc(c: Config, name: string, ys: seq<string>, j: nat)
    requires HasYears(c, name) && j < |ys|
    ensures EnsureYears(c, name, ys[..j + 1]).0 == EnsureYear(EnsureYears(c, name, ys[..j]).0, name, ys[j]).0
    ensures EnsureYears(c, name, ys[..j + 1]).1 == (EnsureYears(c, name, ys[..j]).1 || EnsureYear(EnsureYears(c, name, ys[..j]).0, name, ys[j]).1)
  {
    assert ys[..j + 1][..j] == ys[..j];
  }

  /** Creating the course when it is missing, then its years map when that
      is missing. */
  method EnsureCourseStep(cfg: Config, name: string) returns (r: Config, changed: bool)
    ensures (r, changed) == EnsureCourse(cfg, name)
  {
    r, changed := cfg, false;
    if CourseOf(r, name).None? {
      r := SetCourse(r, name, Course(Some([])));
      SetCourseOf(cfg, name, Course(Some([])), name);
      changed := true;
    }
    if CourseOf(r, name).value.years.None? {
      var mid := r;
      r := SetCourse(r, name, Course(Some([])));
      SetCourseOf(mid, name, Course(Some([])), name);
      changed := true;
    }
  }

  /** The loop over one course's years, adding each missing one. */
  method EnsureYearsLoop(cfg: Config, name: string, years: seq<string>) returns (r: Config, changed: bool)
    requires HasYears(cfg, name)
    ensures (r, changed) == EnsureYears(cfg, name, years)
  {
    r, changed := cfg, false;
    var j := 0;
    while j < |years|
      invariant 0 <= j <= |years|
      invariant (r, changed) == EnsureYears(cfg, name, years[..j])
    {
      EnsureYearsSnoc(cfg, name, years, j);
      if !YearPresent(r, name, years[j]) {
        r := SetCourse(r, name, AddYear(CourseOf(r, name).value, years[j]));
        changed := true;
      }
      j := j + 1;
    }
    assert years[..j] == years;
  }

  /** The body of the loop over the input's courses: course i, then its years. */
  method MergeStep(start: Config, ns: OMap<seq<string>>, i: nat, cfg: Config, updated: bool)
    returns (cfg': Config, updated': bool)
    requires i < |ns|
    requires cfg == MergeAll(start, ns[..i]).0 && updated == MergeAll(start, ns[..i]).1
    ensures cfg' == MergeAll(start, ns[..i + 1]).0 && updated' == MergeAll(start, ns[..i + 1]).1
  {
    var name := ns[i].0;
    var withCourse, courseAdded := EnsureCourseStep(cfg, name);
    var withYears, yearsAdded := EnsureYearsLoop(withCourse, name, ns[i].1);
    OuterStep(start, ns, i, cfg, updated, withCourse, courseAdded, withYears, yearsAdded);
    cfg', updated' := withYears, updated || courseAdded || yearsAdded;
  }

  /** The loop over the input's courses, on the normalised config. */
  method MergeLoop(start: Config, newCourses: OMap<seq<string>>) returns (cfg: Config, updated: bool)
    ensures (cfg, updated) == MergeAll(start, newCourses)
  {
    cfg, updated := start, false;
    assert newCourses[..0] == [];
    var i := 0;
    while i < |newCourses|
      invariant 0 <= i <= |newCourses|
      invariant cfg == MergeAll(start, newCourses[..i]).0
      invariant updated == MergeAll(start, newCourses[..i]).1
    {
      cfg, updated := MergeStep(start, newCourses, i, cfg, updated);
      i := i + 1;
    }
    assert newCourses[..i] == newCourses;
  }

  /** The mock store of the test script, and the update itself. */
  class AutoConfigStore {
    var store: map<string, Config>

    constructor(initial: map<string, Config>)
      ensures store == initial
    {
      store := initial;
    }

    /** `getAcademicConfig(id) || { courses: {} }`. */
    function Load(collegeId: string): Config
      reads this
    {
      if collegeId in store then store[collegeId] else Config(Some([]))
    }

    /** autoUpdateAcademicConfig: returns whether it saved. */
    method AutoUpdate(collegeId: string, newCourses: OMap<seq<string>>) returns (saved: bool)
      modifies this
      ensures saved == MergeAll(Normalize(old(Load(collegeId))), newCourses).1
      ensures saved ==> store == old(store)[collegeId := MergeAll(Normalize(old(Load(collegeId))), newCourses).0]
      ensures !saved ==> store == old(store)
    {
      var cfg := Load(collegeId);
      if cfg.courses.None? {
        cfg := Config(Some([]));
      }
      var updated;
      cfg, updated := MergeLoop(cfg, newCourses);
      if updated {
        store := store[collegeId := cfg];
      }
      saved := updated;
    }
  }
}
