/** The test-data seeder: the course/branch/year/batch combinations it reads
    out of a college's academic configuration, the ratings and answers it
    makes up for each response, and the driver that plans sessions college
    by college. Every use of `Math.random()` is a draw in [0, 1) passed in. */
module SeedSessions {
  import opened Common
  import opened OrderedMap
  import opened Json
  import opened AcademicTree

  // ---------------------------------------------------------------------------
  // Combinations
  // ---------------------------------------------------------------------------

  /** One `{ course, branch, year, batch }`; the batch is whatever the
      stored array holds. */
  datatype Combination = Combination(course: string, branch: string, year: string, batch: Json)

  /** The walk as written reads course -> departments -> years -> batches;
      the corrected walk reads course -> years -> departments -> batches,
      the shape the editor saves. */
  datatype Shape = AsWritten | Corrected

  function OuterKey(shape: Shape): string { if shape == AsWritten then "departments" else "years" }
  function InnerKey(shape: Shape): string { if shape == AsWritten then "years" else "departments" }

  /** The combination for one batch, naming the two middle keys by level. */
  function Make(shape: Shape, course: string, outer: string, inner: string, b: Json): (x: Combination)
    ensures shape == AsWritten ==> x.branch == outer && x.year == inner
    ensures shape == Corrected ==> x.year == outer && x.branch == inner
    ensures x.course == course && x.batch == b
  {
    if shape == AsWritten then Combination(course, outer, inner, b) else Combination(course, inner, outer, b)
  }

  /** The first error stops the walk; otherwise the pieces are appended. */
  function AndThen(a: Result<seq<Combination>>, b: Result<seq<Combination>>): (r: Result<seq<Combination>>)
    ensures a.Err? ==> r == a
    ensures a.Ok? && b.Err? ==> r == b
    ensures a.Ok? && b.Ok? ==> r == Ok(a.value + b.value)
  {
    if a.Err? then a else if b.Err? then b else Ok(a.value + b.value)
  }

  lemma AndThenAssoc(a: Result<seq<Combination>>, b: Result<seq<Combination>>, c: Result<seq<Combination>>)
    ensures AndThen(AndThen(a, b), c) == AndThen(a, AndThen(b, c))
  {
    if a.Ok? && b.Ok? && c.Ok? {
      assert (a.value + b.value) + c.value == a.value + (b.value + c.value);
    }
  }

  const NotAnArray := "TypeError: yearData.batches.forEach is not a function"

  /** `if (leaf?.batches) leaf.batches.forEach(...)`: a truthy value that is
      not an array throws. */
  function LeafCombos(shape: Shape, course: string, outer: string, inner: string, leaf: Json): (r: Result<seq<Combination>>)
  {
    var b := Opt(Some(leaf), "batches");
    if !Truthy(b) then Ok([])
    else if b.value.JArr? then Ok(Map(b.value.items, x => Make(shape, course, outer, inner, x)))
    else Err(NotAnArray)
  }

  /** The entries of one outer-level object, in order. */
  function InnerCombos(shape: Shape, course: string, outer: string, es: OMap<Json>): (r: Result<seq<Combination>>)
    decreases |es|
  {
    if es == [] then Ok([])
    else
      var last := es[|es| - 1];
      AndThen(InnerCombos(shape, course, outer, es[..|es| - 1]), LeafCombos(shape, course, outer, last.0, last.1))
  }

  /** `if (data?.<inner key>)` then its entries. */
  function OuterEntry(shape: Shape, course: string, outer: string, data: Json): (r: Result<seq<Combination>>)
  {
    var i := Opt(Some(data), InnerKey(shape));
    if Truthy(i) then InnerCombos(shape, course, outer, Entries(i)) else Ok([])
  }

  function OuterCombos(shape: Shape, course: string, es: OMap<Json>): (r: Result<seq<Combination>>)
    decreases |es|
  {
    if es == [] then Ok([])
    else
      var last := es[|es| - 1];
      AndThen(OuterCombos(shape, course, es[..|es| - 1]), OuterEntry(shape, course, last.0, last.1))
  }

  /** `if (courseData?.<outer key>)` then its entries. */
  function CourseEntry(shape: Shape, course: string, data: Json): (r: Result<seq<Combination>>)
  {
    var o := Opt(Some(data), OuterKey(shape));
    if Truthy(o) then OuterCombos(shape, course, Entries(o)) else Ok([])
  }

  function CourseCombos(shape: Shape, es: OMap<Json>): (r: Result<seq<Combination>>)
    decreases |es|
  {
    if es == [] then Ok([])
    else
      var last := es[|es| - 1];
      AndThen(CourseCombos(shape, es[..|es| - 1]), CourseEntry(shape, last.0, last.1))
  }

  /** extractAcademicCombinations: nothing without `config?.courses`. */
  function Combinations(shape: Shape, config: Option<Json>): (r: Result<seq<Combination>>)
    ensures !Truthy(Opt(config, "courses")) ==> r == Ok([])
  {
    var cs := Opt(config, "courses");
    if !Truthy(cs) then Ok([]) else CourseCombos(shape, Entries(cs))
  }

  // ---- the walk as the code runs it: loops pushing onto one list ----

  method PushLeaf(shape: Shape, acc: seq<Combination>, course: string, outer: string, inner: string, leaf: Json)
    returns (r: Result<seq<Combination>>)
    ensures r == AndThen(Ok(acc), LeafCombos(shape, course, outer, inner, leaf))
  {
    var b := Opt(Some(leaf), "batches");
    if !Truthy(b) {
      assert acc + [] == acc;
      return Ok(acc);
    }
    if !b.value.JArr? {
      return Err(NotAnArray);
    }
    var items := b.value.items;
    var out := acc;
    var k := 0;
    while k < |items|
      invariant 0 <= k <= |items|
      invariant out == acc + Map(items[..k], x => Make(shape, course, outer, inner, x))
    {
      MapSnoc(items, x => Make(shape, course, outer, inner, x), k);
      out := out + [Make(shape, course, outer, inner, items[k])];
      k := k + 1;
    }
    assert items[..k] == items;
    return Ok(out);
  }

  /** One more entry of each level extends the walk of the entries before it. */
  lemma InnerStep(shape: Shape, course: string, outer: string, acc: seq<Combination>, es: OMap<Json>, k: nat)
    requires k < |es|
    ensures AndThen(Ok(acc), InnerCombos(shape, course, outer, es[..k + 1]))
         == AndThen(AndThen(Ok(acc), InnerCombos(shape, course, outer, es[..k])), LeafCombos(shape, course, outer, es[k].0, es[k].1))
  {
    assert es[..k + 1][..k] == es[..k];
    AndThenAssoc(Ok(acc), InnerCombos(shape, course, outer, es[..k]), LeafCombos(shape, course, outer, es[k].0, es[k].1));
  }

  lemma OuterStep(shape: Shape, course: string, acc: seq<Combination>, es: OMap<Json>, k: nat)
    requires k < |es|
    ensures AndThen(Ok(acc), OuterCombos(shape, course, es[..k + 1]))
         == AndThen(AndThen(Ok(acc), OuterCombos(shape, course, es[..k])), OuterEntry(shape, course, es[k].0, es[k].1))
  {
    assert es[..k + 1][..k] == es[..k];
    AndThenAssoc(Ok(acc), OuterCombos(shape, course, es[..k]), OuterEntry(shape, course, es[k].0, es[k].1));
  }

  lemma CourseStep(shape: Shape, es: OMap<Json>, k: nat)
    requires k < |es|
    ensures CourseCombos(shape, es[..k + 1]) == AndThen(CourseCombos(shape, es[..k]), CourseEntry(shape, es[k].0, es[k].1))
  {
    assert es[..k + 1][..k] == es[..k];
  }

  method PushOuter(shape: Shape, acc: seq<Combination>, course: string, outer: string, data: Json)
    returns (r: Result<seq<Combination>>)
    ensures r == AndThen(Ok(acc), OuterEntry(shape, course, outer, data))
  {
    var i := Opt(Some(data), InnerKey(shape));
    if !Truthy(i) {
      return Ok(acc);
    }
    var es := Entries(i);
    r := Ok(acc);
    var k := 0;
    assert es[..0] == [] && acc + [] == acc;
    while k < |es|
      invariant 0 <= k <= |es|
      invariant r == AndThen(Ok(acc), InnerCombos(shape, course, outer, es[..k]))
    {
      InnerStep(shape, course, outer, acc, es, k);
      if r.Ok? {
        r := PushLeaf(shape, r.value, course, outer, es[k].0, es[k].1);
      }
      k := k + 1;
    }
    assert es[..k] == es;
  }

  method PushCourse(shape: Shape, acc: seq<Combination>, course: string, data: Json)
    returns (r: Result<seq<Combination>>)
    ensures r == AndThen(Ok(acc), CourseEntry(shape, course, data))
  {
    var o := Opt(Some(data), OuterKey(shape));
    if !Truthy(o) {
      return Ok(acc);
    }
    var es := Entries(o);
    r := Ok(acc);
    var k := 0;
    assert es[..0] == [] && acc + [] == acc;
    while k < |es|
      invariant 0 <= k <= |es|
      invariant r == AndThen(Ok(acc), OuterCombos(shape, course, es[..k]))
    {
      OuterStep(shape, course, acc, es, k);
      if r.Ok? {
        r := PushOuter(shape, r.value, course, es[k].0, es[k].1);
      }
      k := k + 1;
    }
    assert es[..k] == es;
  }

  /** extractAcademicCombinations, nested loops over one growing list; a
      throw inside ends the walk. */
  method ExtractCombinations(shape: Shape, config: Option<Json>) returns (r: Result<seq<Combination>>)
    ensures r == Combinations(shape, config)
  {
    var cs := Opt(config, "courses");
    if !Truthy(cs) {
      return Ok([]);
    }
    var es := Entries(cs);
    r := Ok([]);
    var k := 0;
    assert es[..0] == [];
    while k < |es|
      invariant 0 <= k <= |es|
      invariant r == CourseCombos(shape, es[..k])
    {
      CourseStep(shape, es, k);
      if r.Ok? {
        r := PushCourse(shape, r.value, es[k].0, es[k].1);
      }
      k := k + 1;
    }
    assert es[..k] == es;
  }

  // ---- what the walk finds in a document of the saved shape ----

  lemma MapValuesPrefix<V, W>(m: OMap<V>, f: V -> W, n: nat)
    requires n <= |m|
    ensures MapValues(m, f)[..n] == MapValues(m[..n], f)
  {
  }

  /** The combinations of a saved tree, read off the typed tree: every
      batch of every department of every year of every course, in order. */
  function BatchList(cn: string, yn: string, dn: string, bs: seq<string>): (r: seq<Combination>)
    ensures |r| == |bs|
    ensures forall l :: 0 <= l < |bs| ==> r[l] == Combination(cn, dn, yn, JStr(bs[l]))
  {
    Map(bs, b => Combination(cn, dn, yn, JStr(b)))
  }

  function SavedDeptCombos(cn: string, yn: string, ds: OMap<Dept>): seq<Combination>
    decreases |ds|
  {
    if ds == [] then []
    else
      var last := ds[|ds| - 1];
      SavedDeptCombos(cn, yn, ds[..|ds| - 1]) + BatchList(cn, yn, last.0, BatchesOf(last.1))
  }

  function SavedYearCombos(cn: string, ys: OMap<Year>): seq<Combination>
    decreases |ys|
  {
    if ys == [] then []
    else
      var last := ys[|ys| - 1];
      SavedYearCombos(cn, ys[..|ys| - 1]) + SavedDeptCombos(cn, last.0, DeptsOf(last.1))
  }

  function SavedCourseCombos(cs: OMap<Course>): seq<Combination>
    decreases |cs|
  {
    if cs == [] then []
    else
      var last := cs[|cs| - 1];
      SavedCourseCombos(cs[..|cs| - 1]) + SavedYearCombos(last.0, YearsOf(last.1))
  }

  // the JSON walk agrees with the typed enumeration, level by level

  lemma LeafSaved(cn: string, yn: string, dn: string, d: Dept)
    ensures LeafCombos(Corrected, cn, yn, dn, DeptJson(d)) == Ok(BatchList(cn, yn, dn, BatchesOf(d)))
  {
    if d.batches.Some? {
      var bs := d.batches.value;
      FindSingle("batches", JArr(StrsJson(bs)), "batches");
      var got := Map(StrsJson(bs), x => Make(Corrected, cn, yn, dn, x));
      assert got == BatchList(cn, yn, dn, bs) by {
        forall l | 0 <= l < |bs| ensures got[l] == BatchList(cn, yn, dn, bs)[l] { }
      }
    } else {
      assert Keys<Json>([]) == [];
    }
  }

  lemma {:induction false} DeptsSaved(cn: string, yn: string, ds: OMap<Dept>)
    ensures InnerCombos(Corrected, cn, yn, MapValues(ds, DeptJson)) == Ok(SavedDeptCombos(cn, yn, ds))
    decreases |ds|
  {
    if ds != [] {
      var n := |ds| - 1;
      MapValuesPrefix(ds, DeptJson, n);
      DeptsSaved(cn, yn, ds[..n]);
      LeafSaved(cn, yn, ds[n].0, ds[n].1);
    }
  }

  lemma YearSaved(cn: string, yn: string, y: Year)
    ensures OuterEntry(Corrected, cn, yn, YearJson(y)) == Ok(SavedDeptCombos(cn, yn, DeptsOf(y)))
  {
    if y.departments.Some? {
      var ds := y.departments.value;
      var j := JObj(MapValues(ds, DeptJson));
      FindSingle("departments", j, "departments");
      var i := Opt(Some(YearJson(y)), InnerKey(Corrected));
      assert i == Some(j) && Truthy(i);
      assert Entries(i) == MapValues(ds, DeptJson);
      DeptsSaved(cn, yn, ds);
      assert OuterEntry(Corrected, cn, yn, YearJson(y)) == InnerCombos(Corrected, cn, yn, MapValues(ds, DeptJson));
    } else {
      assert Keys<Json>([]) == [];
      assert Opt(Some(YearJson(y)), InnerKey(Corrected)) == None;
    }
  }

  lemma {:induction false} YearsSaved(cn: string, ys: OMap<Year>)
    ensures OuterCombos(Corrected, cn, MapValues(ys, YearJson)) == Ok(SavedYearCombos(cn, ys))
    decreases |ys|
  {
    if ys != [] {
      var n := |ys| - 1;
      MapValuesPrefix(ys, YearJson, n);
      YearsSaved(cn, ys[..n]);
      YearSaved(cn, ys[n].0, ys[n].1);
    }
  }

  lemma CourseSaved(cn: string, co: Course)
    ensures CourseEntry(Corrected, cn, CourseJson(co)) == Ok(SavedYearCombos(cn, YearsOf(co)))
  {
    if co.years.Some? {
      var ys := co.years.value;
      var j := JObj(MapValues(ys, YearJson));
      FindSingle("years", j, "years");
      var o := Opt(Some(CourseJson(co)), OuterKey(Corrected));
      assert o == Some(j) && Truthy(o);
      assert Entries(o) == MapValues(ys, YearJson);
      YearsSaved(cn, ys);
      assert CourseEntry(Corrected, cn, CourseJson(co)) == OuterCombos(Corrected, cn, MapValues(ys, YearJson));
    } else {
      assert Keys<Json>([]) == [];
      assert Opt(Some(CourseJson(co)), OuterKey(Corrected)) == None;
    }
  }

  lemma {:induction false} CoursesSaved(cs: OMap<Course>)
    ensures CourseCombos(Corrected, MapValues(cs, CourseJson)) == Ok(SavedCourseCombos(cs))
    decreases |cs|
  {
    if cs != [] {
      var n := |cs| - 1;
      MapValuesPrefix(cs, CourseJson, n);
      CoursesSaved(cs[..n]);
      CourseSaved(cs[n].0, cs[n].1);
    }
  }

  /** Over a saved configuration the corrected walk never throws and yields
      the typed enumeration. */
  lemma CorrectedReadsSaved(c: Config)
    ensures Combinations(Corrected, Some(ToJson(c))) == Ok(SavedCourseCombos(CoursesOf(c)))
  {
    if c.courses.Some? {
      var cs := c.courses.value;
      var j := JObj(MapValues(cs, CourseJson));
      FindSingle("courses", j, "courses");
      assert Opt(Some(ToJson(c)), "courses") == Some(j);
      CoursesSaved(cs);
    } else {
      assert Keys<Json>([]) == [];
    }
  }

  // what the typed enumeration holds

  /** A batch of a department of the saved shape, as the stored array holds it. */
  predicate DeptHolds(d: Dept, b: Json)
  {
    b.JStr? && b.s in BatchesOf(d)
  }

  /** Entry k of ds is the department x.branch and holds x's batch. */
  predicate DeptIn(ds: OMap<Dept>, k: int, x: Combination)
  {
    0 <= k < |ds| && ds[k].0 == x.branch && DeptHolds(ds[k].1, x.batch)
  }

  ghost predicate YearHolds(y: Year, x: Combination)
  {
    exists k :: DeptIn(DeptsOf(y), k, x)
  }

  ghost predicate YearIn(ys: OMap<Year>, j: int, x: Combination)
  {
    0 <= j < |ys| && ys[j].0 == x.year && YearHolds(ys[j].1, x)
  }

  ghost predicate CourseHolds(co: Course, x: Combination)
  {
    exists j :: YearIn(YearsOf(co), j, x)
  }

  ghost predicate CourseIn(cs: OMap<Course>, i: int, x: Combination)
  {
    0 <= i < |cs| && cs[i].0 == x.course && CourseHolds(cs[i].1, x)
  }

  /** x names a batch reached through course x.course, year x.year and
      department x.branch. */
  ghost predicate TreeHolds(c: Config, x: Combination)
  {
    exists i :: CourseIn(CoursesOf(c), i, x)
  }

  lemma InBatchList(cn: string, yn: string, dn: string, bs: seq<string>, x: Combination)
    ensures x in BatchList(cn, yn, dn, bs) <==>
      x.course == cn && x.year == yn && x.branch == dn && x.batch.JStr? && x.batch.s in bs
  {
    var r := BatchList(cn, yn, dn, bs);
    if x.course == cn && x.year == yn && x.branch == dn && x.batch.JStr? && x.batch.s in bs {
      var l :| 0 <= l < |bs| && bs[l] == x.batch.s;
      assert r[l] == x;
    }
  }

  lemma {:induction false} InSavedDepts(cn: string, yn: string, ds: OMap<Dept>, x: Combination)
    ensures x in SavedDeptCombos(cn, yn, ds) <==> x.course == cn && x.year == yn && exists k :: DeptIn(ds, k, x)
    decreases |ds|
  {
    if ds != [] {
      var n := |ds| - 1;
      InSavedDepts(cn, yn, ds[..n], x);
      InBatchList(cn, yn, ds[n].0, BatchesOf(ds[n].1), x);
      if exists k :: DeptIn(ds[..n], k, x) {
        var k :| DeptIn(ds[..n], k, x);
        assert DeptIn(ds, k, x);
      }
      if exists k :: DeptIn(ds, k, x) {
        var k :| DeptIn(ds, k, x);
        if k < n { assert DeptIn(ds[..n], k, x); } else { assert k == n; }
      }
      if x.course == cn && x.year == yn && x.branch == ds[n].0 && DeptHolds(ds[n].1, x.batch) {
        assert DeptIn(ds, n, x);
      }
    }
  }

  lemma {:induction false} InSavedYears(cn: string, ys: OMap<Year>, x: Combination)
    ensures x in SavedYearCombos(cn, ys) <==> x.course == cn && exists j :: YearIn(ys, j, x)
  {
    if x in SavedYearCombos(cn, ys) {
      var j := SavedYearWitness(cn, ys, x);
    }
    if x.course == cn && exists j :: YearIn(ys, j, x) {
      var j :| YearIn(ys, j, x);
      SavedYearFrom(cn, ys, j, x);
    }
  }

  lemma YearInPrefix(ys: OMap<Year>, n: nat, j: int, x: Combination)
    requires n <= |ys|
    ensures YearIn(ys[..n], j, x) <==> j < n && YearIn(ys, j, x)
  {
    if 0 <= j < n { assert ys[..n][j] == ys[j]; }
  }

  lemma {:induction false} SavedYearWitness(cn: string, ys: OMap<Year>, x: Combination) returns (j: int)
    requires x in SavedYearCombos(cn, ys)
    ensures x.course == cn && YearIn(ys, j, x)
    decreases |ys|
  {
    var n := |ys| - 1;
    if x in SavedYearCombos(cn, ys[..n]) {
      j := SavedYearWitness(cn, ys[..n], x);
      YearInPrefix(ys, n, j, x);
    } else {
      InSavedDepts(cn, ys[n].0, DeptsOf(ys[n].1), x);
      j := n;
    }
  }

  lemma {:induction false} SavedYearFrom(cn: string, ys: OMap<Year>, j: int, x: Combination)
    requires x.course == cn && YearIn(ys, j, x)
    ensures x in SavedYearCombos(cn, ys)
    decreases |ys|
  {
    var n := |ys| - 1;
    assert SavedYearCombos(cn, ys) == SavedYearCombos(cn, ys[..n]) + SavedDeptCombos(cn, ys[n].0, DeptsOf(ys[n].1));
    if j < n {
      YearInPrefix(ys, n, j, x);
      SavedYearFrom(cn, ys[..n], j, x);
    } else {
      InSavedDepts(cn, ys[n].0, DeptsOf(ys[n].1), x);
    }
  }

  lemma CourseInPrefix(cs: OMap<Course>, n: nat, i: int, x: Combination)
    requires n <= |cs|
    ensures CourseIn(cs[..n], i, x) <==> i < n && CourseIn(cs, i, x)
  {
    if 0 <= i < n { assert cs[..n][i] == cs[i]; }
  }

  lemma {:induction false} InSavedCourses(cs: OMap<Course>, x: Combination)
    ensures x in SavedCourseCombos(cs) <==> exists i :: CourseIn(cs, i, x)
  {
    if x in SavedCourseCombos(cs) {
      var i := SavedCourseWitness(cs, x);
    }
    if exists i :: CourseIn(cs, i, x) {
      var i :| CourseIn(cs, i, x);
      SavedCourseFrom(cs, i, x);
    }
  }

  lemma {:induction false} SavedCourseWitness(cs: OMap<Course>, x: Combination) returns (i: int)
    requires x in SavedCourseCombos(cs)
    ensures CourseIn(cs, i, x)
    decreases |cs|
  {
    var n := |cs| - 1;
    if x in SavedCourseCombos(cs[..n]) {
      i := SavedCourseWitness(cs[..n], x);
      CourseInPrefix(cs, n, i, x);
    } else {
      InSavedYears(cs[n].0, YearsOf(cs[n].1), x);
      i := n;
    }
  }

  lemma {:induction false} SavedCourseFrom(cs: OMap<Course>, i: int, x: Combination)
    requires CourseIn(cs, i, x)
    ensures x in SavedCourseCombos(cs)
    decreases |cs|
  {
    var n := |cs| - 1;
    assert SavedCourseCombos(cs) == SavedCourseCombos(cs[..n]) + SavedYearCombos(cs[n].0, YearsOf(cs[n].1));
    if i < n {
      CourseInPrefix(cs, n, i, x);
      SavedCourseFrom(cs[..n], i, x);
    } else {
      InSavedYears(cs[n].0, YearsOf(cs[n].1), x);
    }
  }

  /** The corrected walk over a saved configuration never throws and finds
      exactly the batches of the tree, each under its course, year and
      department. */
  lemma CorrectedFindsSavedBatches(c: Config, x: Combination)
    ensures var r := Combinations(Corrected, Some(ToJson(c)));
      r.Ok? && (x in r.value <==> TreeHolds(c, x))
  {
    CorrectedReadsSaved(c);
    InSavedCourses(CoursesOf(c), x);
  }

  // ---- the walk as written over either shape ----

  lemma CourseMissesSaved(cn: string, co: Course)
    ensures CourseEntry(AsWritten, cn, CourseJson(co)) == Ok([])
  {
    if co.years.Some? {
      FindSingle("years", JObj(MapValues(co.years.value, YearJson)), "departments");
    } else {
      assert Keys<Json>([]) == [];
    }
  }

  lemma {:induction false} CoursesMissSaved(cs: OMap<Course>)
    ensures CourseCombos(AsWritten, MapValues(cs, CourseJson)) == Ok([])
    decreases |cs|
  {
    if cs != [] {
      var n := |cs| - 1;
      var m := MapValues(cs, CourseJson);
      MapValuesPrefix(cs, CourseJson, n);
      CoursesMissSaved(cs[..n]);
      CourseMissesSaved(cs[n].0, cs[n].1);
      assert m[n] == (cs[n].0, CourseJson(cs[n].1));
      assert CourseCombos(AsWritten, m) == AndThen(CourseCombos(AsWritten, m[..n]), CourseEntry(AsWritten, m[n].0, m[n].1));
      var none: seq<Combination> := [];
      assert none + none == none;
    }
  }

  /** The walk as written looks for `departments` directly under a course,
      which the saved shape never has: it finds nothing at all. */
  lemma AsWrittenMissesSaved(c: Config)
    ensures Combinations(AsWritten, Some(ToJson(c))) == Ok([])
  {
    if c.courses.Some? {
      var cs := c.courses.value;
      var j := JObj(MapValues(cs, CourseJson));
      FindSingle("courses", j, "courses");
      assert Opt(Some(ToJson(c)), "courses") == Some(j);
      CoursesMissSaved(cs);
    } else {
      assert Keys<Json>([]) == [];
    }
  }

  function OldCoursesOf(c: OldConfig): OMap<OldCourse> { if c.courses.Some? then c.courses.value else [] }
  function OldDeptsOf(c: OldCourse): OMap<OldDept> { if c.departments.Some? then c.departments.value else [] }
  function OldYearsOf(d: OldDept): OMap<OldYear> { if d.years.Some? then d.years.value else [] }
  function OldBatchesOf(y: OldYear): seq<string> { if y.batches.Some? then y.batches.value else [] }

  /** The combinations of an old-shape tree, read off the typed tree. */
  function OldYearCombos(cn: string, dn: string, ys: OMap<OldYear>): seq<Combination>
    decreases |ys|
  {
    if ys == [] then []
    else
      var last := ys[|ys| - 1];
      OldYearCombos(cn, dn, ys[..|ys| - 1]) + BatchList(cn, last.0, dn, OldBatchesOf(last.1))
  }

  function OldDeptCombos(cn: string, ds: OMap<OldDept>): seq<Combination>
    decreases |ds|
  {
    if ds == [] then []
    else
      var last := ds[|ds| - 1];
      OldDeptCombos(cn, ds[..|ds| - 1]) + OldYearCombos(cn, last.0, OldYearsOf(last.1))
  }

  function OldCourseCombos(cs: OMap<OldCourse>): seq<Combination>
    decreases |cs|
  {
    if cs == [] then []
    else
      var last := cs[|cs| - 1];
      OldCourseCombos(cs[..|cs| - 1]) + OldDeptCombos(last.0, OldDeptsOf(last.1))
  }

  lemma OldLeafRead(cn: string, dn: string, yn: string, y: OldYear)
    ensures LeafCombos(AsWritten, cn, dn, yn, OldYearJson(y)) == Ok(BatchList(cn, yn, dn, OldBatchesOf(y)))
  {
    if y.batches.Some? {
      var bs := y.batches.value;
      FindSingle("batches", JArr(StrsJson(bs)), "batches");
      var got := Map(StrsJson(bs), x => Make(AsWritten, cn, dn, yn, x));
      assert got == BatchList(cn, yn, dn, bs) by {
        forall l | 0 <= l < |bs| ensures got[l] == BatchList(cn, yn, dn, bs)[l] { }
      }
    } else {
      assert Keys<Json>([]) == [];
    }
  }

  lemma {:induction false} OldYearsRead(cn: string, dn: string, ys: OMap<OldYear>)
    ensures InnerCombos(AsWritten, cn, dn, MapValues(ys, OldYearJson)) == Ok(OldYearCombos(cn, dn, ys))
    decreases |ys|
  {
    if ys != [] {
      var n := |ys| - 1;
      MapValuesPrefix(ys, OldYearJson, n);
      OldYearsRead(cn, dn, ys[..n]);
      OldLeafRead(cn, dn, ys[n].0, ys[n].1);
    }
  }

  lemma OldDeptRead(cn: string, dn: string, d: OldDept)
    ensures OuterEntry(AsWritten, cn, dn, OldDeptJson(d)) == Ok(OldYearCombos(cn, dn, OldYearsOf(d)))
  {
    if d.years.Some? {
      var ys := d.years.value;
      var j := JObj(MapValues(ys, OldYearJson));
      FindSingle("years", j, "years");
      var i := Opt(Some(OldDeptJson(d)), InnerKey(AsWritten));
      assert i == Some(j) && Truthy(i);
      assert Entries(i) == MapValues(ys, OldYearJson);
      OldYearsRead(cn, dn, ys);
      assert OuterEntry(AsWritten, cn, dn, OldDeptJson(d)) == InnerCombos(AsWritten, cn, dn, MapValues(ys, OldYearJson));
    } else {
      assert Keys<Json>([]) == [];
      assert Opt(Some(OldDeptJson(d)), InnerKey(AsWritten)) == None;
    }
  }

  lemma {:induction false} OldDeptsRead(cn: string, ds: OMap<OldDept>)
    ensures OuterCombos(AsWritten, cn, MapValues(ds, OldDeptJson)) == Ok(OldDeptCombos(cn, ds))
    decreases |ds|
  {
    if ds != [] {
      var n := |ds| - 1;
      MapValuesPrefix(ds, OldDeptJson, n);
      OldDeptsRead(cn, ds[..n]);
      OldDeptRead(cn, ds[n].0, ds[n].1);
    }
  }

  lemma OldCourseRead(cn: string, co: OldCourse)
    ensures CourseEntry(AsWritten, cn, OldCourseJson(co)) == Ok(OldDeptCombos(cn, OldDeptsOf(co)))
  {
    if co.departments.Some? {
      var ds := co.departments.value;
      var j := JObj(MapValues(ds, OldDeptJson));
      FindSingle("departments", j, "departments");
      var o := Opt(Some(OldCourseJson(co)), OuterKey(AsWritten));
      assert o == Some(j) && Truthy(o);
      assert Entries(o) == MapValues(ds, OldDeptJson);
      OldDeptsRead(cn, ds);
      assert CourseEntry(AsWritten, cn, OldCourseJson(co)) == OuterCombos(AsWritten, cn, MapValues(ds, OldDeptJson));
    } else {
      assert Keys<Json>([]) == [];
      assert Opt(Some(OldCourseJson(co)), OuterKey(AsWritten)) == None;
    }
  }

  lemma {:induction false} OldCoursesRead(cs: OMap<OldCourse>)
    ensures CourseCombos(AsWritten, MapValues(cs, OldCourseJson)) == Ok(OldCourseCombos(cs))
    decreases |cs|
  {
    if cs != [] {
      var n := |cs| - 1;
      MapValuesPrefix(cs, OldCourseJson, n);
      OldCoursesRead(cs[..n]);
      OldCourseRead(cs[n].0, cs[n].1);
    }
  }

  /** Over an old-shape configuration the walk as written never throws and
      yields the typed enumeration. */
  lemma AsWrittenReadsOld(c: OldConfig)
    ensures Combinations(AsWritten, Some(OldToJson(c))) ==
      Ok(OldCourseCombos(OldCoursesOf(c)))
  {
    if c.courses.Some? {
      var cs := c.courses.value;
      var j := JObj(MapValues(cs, OldCourseJson));
      FindSingle("courses", j, "courses");
      assert Opt(Some(OldToJson(c)), "courses") == Some(j);
      OldCoursesRead(cs);
    } else {
      assert Keys<Json>([]) == [];
    }
  }

  // what the old-shape enumeration holds

  ghost predicate OldYearIn(ys: OMap<OldYear>, j: int, x: Combination)
  {
    0 <= j < |ys| && ys[j].0 == x.year && x.batch.JStr? && x.batch.s in OldBatchesOf(ys[j].1)
  }

  ghost predicate OldDeptHolds(d: OldDept, x: Combination)
  {
    exists j :: OldYearIn(OldYearsOf(d), j, x)
  }

  ghost predicate OldDeptIn(ds: OMap<OldDept>, k: int, x: Combination)
  {
    0 <= k < |ds| && ds[k].0 == x.branch && OldDeptHolds(ds[k].1, x)
  }

  ghost predicate OldCourseHolds(co: OldCourse, x: Combination)
  {
    exists k :: OldDeptIn(OldDeptsOf(co), k, x)
  }

  ghost predicate OldCourseIn(cs: OMap<OldCourse>, i: int, x: Combination)
  {
    0 <= i < |cs| && cs[i].0 == x.course && OldCourseHolds(cs[i].1, x)
  }

  /** x names a batch reached through course x.course, department x.branch
      and year x.year of an old-shape tree. */
  ghost predicate OldTreeHolds(c: OldConfig, x: Combination)
  {
    exists i :: OldCourseIn(OldCoursesOf(c), i, x)
  }

  lemma {:induction false} InOldYears(cn: string, dn: string, ys: OMap<OldYear>, x: Combination)
    ensures x in OldYearCombos(cn, dn, ys) <==> x.course == cn && x.branch == dn && exists j :: OldYearIn(ys, j, x)
    decreases |ys|
  {
    if ys != [] {
      var n := |ys| - 1;
      InOldYears(cn, dn, ys[..n], x);
      InBatchList(cn, ys[n].0, dn, OldBatchesOf(ys[n].1), x);
      OldYearsSnoc(ys, ys[..n], x);
    }
  }

  /** x is under some year of ys exactly when it is under one of the
      earlier years or under the last. */
  lemma OldYearsSnoc(ys: OMap<OldYear>, init: OMap<OldYear>, x: Combination)
    requires ys != [] && init == ys[..|ys| - 1]
    ensures (exists j :: OldYearIn(ys, j, x)) <==>
      (exists j :: OldYearIn(init, j, x)) || OldYearIn(ys, |ys| - 1, x)
  {
    if exists j :: OldYearIn(init, j, x) {
      var j :| OldYearIn(init, j, x);
      assert init[j] == ys[j];
      assert OldYearIn(ys, j, x);
    }
    if exists j :: OldYearIn(ys, j, x) {
      var j :| OldYearIn(ys, j, x);
      if j < |init| {
        assert init[j] == ys[j];
        assert OldYearIn(init, j, x);
      }
    }
  }

  lemma {:induction false} InOldDepts(cn: string, ds: OMap<OldDept>, x: Combination)
    ensures x in OldDeptCombos(cn, ds) <==> x.course == cn && exists k :: OldDeptIn(ds, k, x)
  {
    if x in OldDeptCombos(cn, ds) {
      var k := OldDeptWitness(cn, ds, x);
    }
    if x.course == cn && exists k :: OldDeptIn(ds, k, x) {
      var k :| OldDeptIn(ds, k, x);
      OldDeptFrom(cn, ds, k, x);
    }
  }

  lemma OldDeptInPrefix(ds: OMap<OldDept>, n: nat, k: int, x: Combination)
    requires n <= |ds|
    ensures OldDeptIn(ds[..n], k, x) <==> k < n && OldDeptIn(ds, k, x)
  {
    if 0 <= k < n { assert ds[..n][k] == ds[k]; }
  }

  lemma {:induction false} OldDeptWitness(cn: string, ds: OMap<OldDept>, x: Combination) returns (k: int)
    requires x in OldDeptCombos(cn, ds)
    ensures x.course == cn && OldDeptIn(ds, k, x)
    decreases |ds|
  {
    var n := |ds| - 1;
    if x in OldDeptCombos(cn, ds[..n]) {
      k := OldDeptWitness(cn, ds[..n], x);
      OldDeptInPrefix(ds, n, k, x);
    } else {
      InOldYears(cn, ds[n].0, OldYearsOf(ds[n].1), x);
      k := n;
    }
  }

  lemma {:induction false} OldDeptFrom(cn: string, ds: OMap<OldDept>, k: int, x: Combination)
    requires x.course == cn && OldDeptIn(ds, k, x)
    ensures x in OldDeptCombos(cn, ds)
    decreases |ds|
  {
    var n := |ds| - 1;
    assert OldDeptCombos(cn, ds) == OldDeptCombos(cn, ds[..n]) + OldYearCombos(cn, ds[n].0, OldYearsOf(ds[n].1));
    if k < n {
      OldDeptInPrefix(ds, n, k, x);
      OldDeptFrom(cn, ds[..n], k, x);
    } else {
      InOldYears(cn, ds[n].0, OldYearsOf(ds[n].1), x);
    }
  }

  lemma OldCourseInPrefix(cs: OMap<OldCourse>, n: nat, i: int, x: Combination)
    requires n <= |cs|
    ensures OldCourseIn(cs[..n], i, x) <==> i < n && OldCourseIn(cs, i, x)
  {
    if 0 <= i < n { assert cs[..n][i] == cs[i]; }
  }

  lemma {:induction false} InOldCourses(cs: OMap<OldCourse>, x: Combination)
    ensures x in OldCourseCombos(cs) <==> exists i :: OldCourseIn(cs, i, x)
  {
    if x in OldCourseCombos(cs) {
      var i := OldCourseWitness(cs, x);
    }
    if exists i :: OldCourseIn(cs, i, x) {
      var i :| OldCourseIn(cs, i, x);
      OldCourseFrom(cs, i, x);
    }
  }

  lemma {:induction false} OldCourseWitness(cs: OMap<OldCourse>, x: Combination) returns (i: int)
    requires x in OldCourseCombos(cs)
    ensures OldCourseIn(cs, i, x)
    decreases |cs|
  {
    var n := |cs| - 1;
    if x in OldCourseCombos(cs[..n]) {
      i := OldCourseWitness(cs[..n], x);
      OldCourseInPrefix(cs, n, i, x);
    } else {
      InOldDepts(cs[n].0, OldDeptsOf(cs[n].1), x);
      i := n;
    }
  }

  lemma {:induction false} OldCourseFrom(cs: OMap<OldCourse>, i: int, x: Combination)
    requires OldCourseIn(cs, i, x)
    ensures x in OldCourseCombos(cs)
    decreases |cs|
  {
    var n := |cs| - 1;
    assert OldCourseCombos(cs) == OldCourseCombos(cs[..n]) + OldDeptCombos(cs[n].0, OldDeptsOf(cs[n].1));
    if i < n {
      OldCourseInPrefix(cs, n, i, x);
      OldCourseFrom(cs[..n], i, x);
    } else {
      InOldDepts(cs[n].0, OldDeptsOf(cs[n].1), x);
    }
  }

  /** The walk as written over an old-shape configuration never throws and
      finds exactly its batches, each under its course, department and year. */
  lemma AsWrittenFindsOldBatches(c: OldConfig, x: Combination)
    ensures var r := Combinations(AsWritten, Some(OldToJson(c)));
      r.Ok? && (x in r.value <==> OldTreeHolds(c, x))
  {
    AsWrittenReadsOld(c);
    InOldCourses(OldCoursesOf(c), x);
  }

  /** One saved course with one year, one department and one batch. */
  const OneBatch := Config(Some([("B.Tech", Course(Some([("1", Year(Some([("CSE", Dept(Some(["A"])))])))])))]))

  /** The saved configuration above gives the seeder nothing as written,
      and its one batch once corrected. */
  lemma OneBatchCombinations()
    ensures Combinations(AsWritten, Some(ToJson(OneBatch))) == Ok([])
    ensures Combinations(Corrected, Some(ToJson(OneBatch))) == Ok([Combination("B.Tech", "CSE", "1", JStr("A"))])
  {
    AsWrittenMissesSaved(OneBatch);
    CorrectedReadsSaved(OneBatch);
    var ds := [("CSE", Dept(Some(["A"])))];
    var ys := [("1", Year(Some(ds)))];
    var cs := [("B.Tech", Course(Some(ys)))];
    assert ds[..0] == [] && ys[..0] == [] && cs[..0] == [];
    assert BatchList("B.Tech", "1", "CSE", ["A"]) == [Combination("B.Tech", "CSE", "1", JStr("A"))];
    assert SavedDeptCombos("B.Tech", "1", ds) == [Combination("B.Tech", "CSE", "1", JStr("A"))];
    assert SavedYearCombos("B.Tech", ys) == [Combination("B.Tech", "CSE", "1", JStr("A"))];
  }

  // ---------------------------------------------------------------------------
  // Random choices
  // ---------------------------------------------------------------------------

  /** A value `Math.random()` can return. */
  predicate IsDraw(r: real)
  {
    0.0 <= r < 1.0
  }

  predicate AllDraws(rs: seq<real>)
  {
    forall i :: 0 <= i < |rs| ==> IsDraw(rs[i])
  }

  /** `Math.floor(r * n)` lands on an index of an n-element list. */
  function Scaled(r: real, n: nat): (k: int)
    requires IsDraw(r) && n > 0
    ensures 0 <= k < n
  {
    assert r * (n as real) < n as real;
    (r * (n as real)).Floor
  }

  /** pickRandom: an element of the list. */
  function PickRandom<T>(arr: seq<T>, r: real): (x: T)
    requires IsDraw(r) && |arr| > 0
    ensures x in arr
  {
    arr[Scaled(r, |arr|)]
  }

  /** The rating range of each quality tier, [3, 4] for anything else. */
  function TierRange(quality: string): (int, int)
  {
    if quality == "good" then (4, 5)
    else if quality == "average" then (3, 4)
    else if quality == "poor" then (1, 3)
    else (3, 4)
  }

  /** generateRating: an integer of the tier's range. */
  function GenerateRating(quality: string, r: real): (v: int)
    requires IsDraw(r)
    ensures TierRange(quality).0 <= v <= TierRange(quality).1
  {
    var (lo, hi) := TierRange(quality);
    Scaled(r, hi - lo + 1) + lo
  }

  /** The number of responses of one session, drawn between the bounds. */
  function ResponseCount(minResponses: int, maxResponses: int, r: real): int
    requires IsDraw(r)
  {
    var span := maxResponses - minResponses + 1;
    (r * (span as real)).Floor + minResponses
  }

  /** Within [minResponses, maxResponses] when the bounds are in order, and
      never above the larger bound. */
  lemma ResponseCountBounds(minResponses: int, maxResponses: int, r: real)
    requires IsDraw(r)
    ensures minResponses <= maxResponses ==> minResponses <= ResponseCount(minResponses, maxResponses, r) <= maxResponses
    ensures ResponseCount(minResponses, maxResponses, r) <= if minResponses <= maxResponses then maxResponses else minResponses
  {
    var span := maxResponses - minResponses + 1;
    if span > 0 {
      assert (r * (span as real)).Floor == Scaled(r, span);
    } else {
      assert r * (span as real) <= 0.0;
    }
  }

  // ---------------------------------------------------------------------------
  // Generated answers
  // ---------------------------------------------------------------------------

  /** The three topic domains, in declaration order. */
  const Topics: OMap<seq<string>> := [
    ("Technical", ["Introduction to React", "Advanced JavaScript", "Node.js Fundamentals", "Database Design",
      "REST API Development", "TypeScript Basics", "Git Version Control", "Docker Containers",
      "Cloud Deployment (AWS)", "System Design Patterns"]),
    ("Soft Skills", ["Communication Skills", "Time Management", "Leadership Essentials", "Team Collaboration",
      "Presentation Skills", "Problem Solving", "Critical Thinking", "Conflict Resolution",
      "Email Etiquette", "Interview Preparation"]),
    ("Tools", ["VS Code Mastery", "Jira for Project Management", "Figma for Developers", "Postman API Testing",
      "Chrome DevTools", "GitHub Actions CI/CD", "Slack Productivity", "Notion for Teams",
      "Trello Workflows", "Excel for Data Analysis"])
  ]

  const PositiveComments: seq<string> := [
    "Excellent session! Very informative and well-structured.",
    "The trainer explained complex topics in a simple way.",
    "Loved the practical examples and hands-on exercises.",
    "Best session I've attended. Highly recommend!",
    "Clear explanations and great pacing throughout.",
    "Very engaging session with real-world applications.",
    "The trainer was very knowledgeable and helpful.",
    "Great use of visual aids and demonstrations.",
    "Learned a lot in a short time. Well organized!",
    "Interactive and fun learning experience."
  ]

  const NeutralComments: seq<string> := [
    "Good session overall. Could use more examples.",
    "Content was relevant but a bit fast-paced.",
    "Decent coverage of the topic.",
    "Some parts were helpful, others less so.",
    "Average session. Met basic expectations.",
    "Material was okay but nothing exceptional.",
    "Would have liked more Q&A time.",
    "The session covered most key points.",
    "Somewhat useful for my work."
  ]

  const NegativeComments: seq<string> := [
    "Session was too fast. Hard to follow.",
    "Needed more practical examples.",
    "Audio quality could be improved.",
    "Content was too basic for the target audience.",
    "Expected more in-depth coverage.",
    "The session felt rushed towards the end."
  ]

  const Suggestions: seq<string> := [
    "More hands-on labs",
    "Real-world case studies",
    "Advanced implementation details",
    "Troubleshooting and debugging",
    "Best practices and design patterns",
    "Integration with other frameworks"
  ]

  /** The text the generator picks from: the topics of each domain, the
      comments of each tier and the future-session suggestions. The seeder
      uses SourcePools; the members below take the pools as a parameter so
      that their proofs depend only on ValidPools. */
  datatype Pools = Pools(topics: OMap<seq<string>>, positive: seq<string>, neutral: seq<string>,
                         negative: seq<string>, suggestions: seq<string>)

  const SourcePools := Pools(Topics, PositiveComments, NeutralComments, NegativeComments, Suggestions)

  /** Every list the generator picks from is non-empty. */
  predicate ValidPools(p: Pools)
  {
    && |p.topics| > 0 && (forall i :: 0 <= i < |p.topics| ==> |p.topics[i].1| > 0)
    && |p.positive| > 0 && |p.neutral| > 0 && |p.negative| > 0 && |p.suggestions| > 0
  }

  /** The seeder's own pools can all be picked from. */
  lemma SourcePoolsValid()
    ensures ValidPools(SourcePools)
    ensures Keys(SourcePools.topics) == ["Technical", "Soft Skills", "Tools"]
  {
  }

  /** A question of the session template, as far as answers depend on it. */
  datatype Question = Question(id: string, qtype: string, options: Option<seq<string>>)

  const DefaultQuestions: seq<Question> := [
    Question("q1", "rating", None),
    Question("q2", "rating", None),
    Question("q3", "rating", None),
    Question("q4", "rating", None),
    Question("q5", "rating", None),
    Question("q6", "mcq", Some(["Too Fast", "Just Right", "Too Slow"])),
    Question("q7", "rating", None),
    Question("q8", "rating", None),
    Question("q9", "text", None),
    Question("q10", "topicslearned", None),
    Question("q11", "futureSession", None)
  ]

  /** A rating is a number, everything else text; picking from an empty
      option list gives `undefined`. */
  datatype AnswerValue = Num(n: int) | Text(s: string) | Undefined

  datatype Answer = Answer(questionId: string, atype: string, value: AnswerValue)

  /** `TOPICS[domain] || TOPICS.Technical`. */
  function DomainTopics(pools: Pools, domain: string): (r: seq<string>)
    requires ValidPools(pools)
    ensures |r| > 0
  {
    match Find(pools.topics, domain)
    case Some(t) => t
    case None => pools.topics[0].1
  }

  /** The comment pool of a quality tier. */
  function CommentPool(pools: Pools, quality: string): seq<string>
  {
    if quality == "good" then pools.positive
    else if quality == "poor" then pools.negative
    else pools.neutral
  }

  /** The topics picked for one "what did you learn" answer, one draw each. */
  function LearnedTopics(topics: seq<string>, rs: seq<real>, n: nat): (r: seq<string>)
    requires |topics| > 0 && n <= |rs| && AllDraws(rs)
    ensures |r| == n && forall j :: 0 <= j < n ==> r[j] in topics
  {
    seq(n, j requires 0 <= j < n => PickRandom(topics, rs[j]))
  }

  /** The inner `for` loop pushing the picked topics. */
  method CollectTopics(topics: seq<string>, rs: seq<real>, n: nat) returns (learned: seq<string>)
    requires |topics| > 0 && n <= |rs| && AllDraws(rs)
    ensures learned == LearnedTopics(topics, rs, n)
  {
    learned := [];
    var j := 0;
    while j < n
      invariant 0 <= j <= n
      invariant learned == LearnedTopics(topics, rs, j)
    {
      learned := learned + [PickRandom(topics, rs[j])];
      j := j + 1;
    }
  }

  /** The answer to one question and the number of draws it used. */
  function AnswerFor(pools: Pools, q: Question, quality: string, domain: string, rs: seq<real>): (res: (Answer, nat))
    requires ValidPools(pools) && |rs| >= 5 && AllDraws(rs)
    ensures res.0.questionId == q.id && res.0.atype == q.qtype && res.1 <= 5
  {
    if q.qtype == "rating" then (Answer(q.id, "rating", Num(GenerateRating(quality, rs[0]))), 1)
    else if q.qtype == "mcq" then
      var options := if q.options.Some? then q.options.value else ["Just Right"];
      (Answer(q.id, "mcq", if |options| > 0 then Text(PickRandom(options, rs[0])) else Undefined), 1)
    else if q.qtype == "text" then
      if rs[0] < 0.6 then (Answer(q.id, "text", Text(PickRandom(CommentPool(pools, quality), rs[1]))), 2)
      else (Answer(q.id, "text", Text("")), 1)
    else if q.qtype == "topicslearned" then
      var n := Scaled(rs[0], 3) + 2;
      (Answer(q.id, "topicslearned", Text(Join(LearnedTopics(DomainTopics(pools, domain), rs[1..], n), ", "))), 1 + n)
    else if q.qtype == "futureSession" then
      if rs[0] < 0.4 then (Answer(q.id, "futureSession", Text(PickRandom(pools.suggestions, rs[1]))), 2)
      else (Answer(q.id, "futureSession", Text("")), 1)
    else (Answer(q.id, q.qtype, Text("")), 0)
  }

  /** Enough draws for every question of qs. */
  predicate Enough(qs: seq<Question>, rs: seq<real>)
  {
    |rs| >= 5 * |qs| && AllDraws(rs)
  }

  /** The answers of one response: one per question, in question order,
      each of the question's type; ratings fall in the tier's range and a
      comment is blank or taken from the tier's pool. */
  function Answers(pools: Pools, qs: seq<Question>, quality: string, domain: string, rs: seq<real>): (r: seq<Answer>)
    requires ValidPools(pools) && Enough(qs, rs)
    ensures |r| == |qs|
    decreases |qs|
  {
    if qs == [] then []
    else
      var (a, used) := AnswerFor(pools, qs[0], quality, domain, rs);
      [a] + Answers(pools, qs[1..], quality, domain, rs[used..])
  }

  /** One answer per question, in question order, each of the question's
      type. */
  lemma {:induction false} AnswersTyped(pools: Pools, qs: seq<Question>, quality: string, domain: string, rs: seq<real>)
    requires ValidPools(pools) && Enough(qs, rs)
    ensures var r := Answers(pools, qs, quality, domain, rs);
      forall i :: 0 <= i < |qs| ==> r[i].questionId == qs[i].id && r[i].atype == qs[i].qtype
    decreases |qs|
  {
    if qs != [] {
      var (a, used) := AnswerFor(pools, qs[0], quality, domain, rs);
      var rest := Answers(pools, qs[1..], quality, domain, rs[used..]);
      AnswersTyped(pools, qs[1..], quality, domain, rs[used..]);
      var r := Answers(pools, qs, quality, domain, rs);
      assert r == [a] + rest;
      assert forall i :: 1 <= i < |qs| ==> r[i] == rest[i - 1] && qs[i] == qs[1..][i - 1];
    }
  }

  /** Ratings fall in the tier's range and a comment is blank or taken from
      the tier's pool. */
  lemma {:induction false} AnswersInTier(pools: Pools, qs: seq<Question>, quality: string, domain: string, rs: seq<real>)
    requires ValidPools(pools) && Enough(qs, rs)
    ensures var r := Answers(pools, qs, quality, domain, rs);
      && (forall i :: 0 <= i < |qs| && qs[i].qtype == "rating" ==>
            r[i].value.Num? && TierRange(quality).0 <= r[i].value.n <= TierRange(quality).1)
      && (forall i :: 0 <= i < |qs| && qs[i].qtype == "text" ==>
            r[i].value.Text? && (r[i].value.s == "" || r[i].value.s in CommentPool(pools, quality)))
    decreases |qs|
  {
    if qs != [] {
      var (a, used) := AnswerFor(pools, qs[0], quality, domain, rs);
      var rest := Answers(pools, qs[1..], quality, domain, rs[used..]);
      AnswersInTier(pools, qs[1..], quality, domain, rs[used..]);
      var r := Answers(pools, qs, quality, domain, rs);
      assert r == [a] + rest;
      assert forall i :: 1 <= i < |qs| ==> r[i] == rest[i - 1] && qs[i] == qs[1..][i - 1];
    }
  }

  /** One stored response: its position in the loop and its answers. */
  datatype Response = Response(index: nat, answers: seq<Answer>)

  /** Each response's answers take their own draws. */
  predicate ResponseDraws(qs: seq<Question>, draws: seq<seq<real>>)
  {
    forall i :: 0 <= i < |draws| ==> Enough(qs, draws[i])
  }

  /** The responses stored by the first n iterations, in order; the adds
      that throw (`rejected`) are logged and skipped. */
  function Stored(pools: Pools, qs: seq<Question>, quality: string, domain: string, draws: seq<seq<real>>, rejected: set<int>, n: int)
    : (r: seq<Response>)
    requires ValidPools(pools) && n <= |draws| && ResponseDraws(qs, draws)
    ensures |r| <= if n > 0 then n else 0
    decreases if n > 0 then n else 0
  {
    if n <= 0 then []
    else
      var prev := Stored(pools, qs, quality, domain, draws, rejected, n - 1);
      if n - 1 in rejected then prev
      else prev + [Response(n - 1, Answers(pools, qs, quality, domain, draws[n - 1]))]
  }

  /** With no rejected add, every iteration stores its response. */
  lemma {:induction false} StoredAll(pools: Pools, qs: seq<Question>, quality: string, domain: string,
                                     draws: seq<seq<real>>, n: int)
    requires ValidPools(pools) && n <= |draws| && ResponseDraws(qs, draws)
    ensures |Stored(pools, qs, quality, domain, draws, {}, n)| == if n > 0 then n else 0
    decreases if n > 0 then n else 0
  {
    if n > 0 {
      StoredAll(pools, qs, quality, domain, draws, n - 1);
    }
  }

  /** The stored responses come from earlier iterations whose adds were not
      rejected. */
  lemma {:induction false} StoredIndices(pools: Pools, qs: seq<Question>, quality: string, domain: string,
                                         draws: seq<seq<real>>, rejected: set<int>, n: int)
    requires ValidPools(pools) && n <= |draws| && ResponseDraws(qs, draws)
    ensures var r := Stored(pools, qs, quality, domain, draws, rejected, n);
      forall k :: 0 <= k < |r| ==> 0 <= r[k].index < n && r[k].index !in rejected
    decreases if n > 0 then n else 0
  {
    if n > 0 {
      StoredIndices(pools, qs, quality, domain, draws, rejected, n - 1);
      var prev := Stored(pools, qs, quality, domain, draws, rejected, n - 1);
      var r := Stored(pools, qs, quality, domain, draws, rejected, n);
      StoredStep(pools, qs, quality, domain, draws, rejected, n - 1);
      if n - 1 in rejected {
        assert r == prev;
      } else {
        var last := Response(n - 1, Answers(pools, qs, quality, domain, draws[n - 1]));
        assert r == prev + [last];
        forall k | 0 <= k < |r|
          ensures 0 <= r[k].index < n && r[k].index !in rejected
        {
          if k < |prev| {
            assert r[k] == prev[k];
          } else {
            assert r[k] == last;
          }
        }
      }
    }
  }

  /** The stored responses keep the order of their iterations. */
  lemma {:induction false} StoredOrdered(pools: Pools, qs: seq<Question>, quality: string, domain: string,
                                         draws: seq<seq<real>>, rejected: set<int>, n: int)
    requires ValidPools(pools) && n <= |draws| && ResponseDraws(qs, draws)
    ensures var r := Stored(pools, qs, quality, domain, draws, rejected, n);
      forall j, k :: 0 <= j < k < |r| ==> r[j].index < r[k].index
    decreases if n > 0 then n else 0
  {
    if n > 0 {
      StoredOrdered(pools, qs, quality, domain, draws, rejected, n - 1);
      StoredIndices(pools, qs, quality, domain, draws, rejected, n - 1);
      var prev := Stored(pools, qs, quality, domain, draws, rejected, n - 1);
      var r := Stored(pools, qs, quality, domain, draws, rejected, n);
      StoredStep(pools, qs, quality, domain, draws, rejected, n - 1);
      if n - 1 in rejected {
        assert r == prev;
      } else {
        var last := Response(n - 1, Answers(pools, qs, quality, domain, draws[n - 1]));
        assert r == prev + [last];
        forall k | 0 <= k < |r|
          ensures 0 <= r[k].index < n && r[k].index !in rejected
        {
          if k < |prev| {
            assert r[k] == prev[k];
          } else {
            assert r[k] == last;
          }
        }
      }
    }
  }

  /** Each stored response holds the answers built from its own iteration's
      draws. */
  lemma {:induction false} StoredAnswers(pools: Pools, qs: seq<Question>, quality: string, domain: string,
                                         draws: seq<seq<real>>, rejected: set<int>, n: int, k: int)
    requires ValidPools(pools) && n <= |draws| && ResponseDraws(qs, draws)
    requires 0 <= k < |Stored(pools, qs, quality, domain, draws, rejected, n)|
    ensures var r := Stored(pools, qs, quality, domain, draws, rejected, n);
      r[k].index < |draws| && r[k].answers == Answers(pools, qs, quality, domain, draws[r[k].index])
    decreases if n > 0 then n else 0
  {
    if n > 0 {
      var prev := Stored(pools, qs, quality, domain, draws, rejected, n - 1);
      var r := Stored(pools, qs, quality, domain, draws, rejected, n);
      StoredStep(pools, qs, quality, domain, draws, rejected, n - 1);
      if n - 1 in rejected {
        StoredAnswers(pools, qs, quality, domain, draws, rejected, n - 1, k);
      } else {
        var last := Response(n - 1, Answers(pools, qs, quality, domain, draws[n - 1]));
        assert r == prev + [last];
        if k < |prev| {
          StoredAnswers(pools, qs, quality, domain, draws, rejected, n - 1, k);
          assert r[k] == prev[k];
        } else {
          assert r[k] == last;
        }
      }
    }
  }

  lemma StoredStep(pools: Pools, qs: seq<Question>, quality: string, domain: string,
                   draws: seq<seq<real>>, rejected: set<int>, i: nat)
    requires ValidPools(pools) && i < |draws| && ResponseDraws(qs, draws)
    ensures Stored(pools, qs, quality, domain, draws, rejected, i + 1) ==
      if i in rejected then Stored(pools, qs, quality, domain, draws, rejected, i)
      else Stored(pools, qs, quality, domain, draws, rejected, i) + [Response(i, Answers(pools, qs, quality, domain, draws[i]))]
  {
  }

  /** generateResponses: count iterations, each building the answers to the
      session's questions and adding the response. */
  method GenerateResponses(pools: Pools, qs: seq<Question>, count: int, quality: string, domain: string, draws: seq<seq<real>>, rejected: set<int>)
    returns (responses: seq<Response>)
    requires ValidPools(pools) && count <= |draws| && ResponseDraws(qs, draws)
    ensures responses == Stored(pools, qs, quality, domain, draws, rejected, count)
  {
    responses := [];
    var i := 0;
    while i < count
      invariant 0 <= i <= (if count > 0 then count else 0)
      invariant responses == Stored(pools, qs, quality, domain, draws, rejected, i)
    {
      var answers := Answers(pools, qs, quality, domain, draws[i]);
      StoredStep(pools, qs, quality, domain, draws, rejected, i);
      if i !in rejected {
        responses := responses + [Response(i, answers)];
      }
      i := i + 1;
    }
    if count <= 0 {
      assert Stored(pools, qs, quality, domain, draws, rejected, count) == [];
    }
  }

  // ---------------------------------------------------------------------------
  // The seed driver
  // ---------------------------------------------------------------------------

  datatype College = College(id: string, name: string, code: string)
  datatype Trainer = Trainer(id: string, name: string)

  /** The draws of one planned session, and what the store does with it:
      `createFailure` is the message when creating the session throws,
      `closeFailure` the message when closing it (after its responses are
      written) throws. */
  datatype SessionDraw = SessionDraw(
    domain: real, topic: real, trainer: real, quality: real, count: real, academic: real,
    createFailure: Option<string>, closeFailure: Option<string>,
    responses: seq<seq<real>>, rejected: set<int>)

  datatype SeedRecord = SeedRecord(topic: string, college: string, trainer: string, academic: Combination, responses: nat, quality: string)
  datatype SeedError = SeedError(session: nat, topic: string, error: string)
  datatype Summary = Summary(sessions: seq<SeedRecord>, totalResponses: int, errors: seq<SeedError>)

  const Qualities: seq<string> := ["good", "average", "poor"]
  const DefaultCombination := Combination("B.Tech", "CSE", "1", JStr("A"))

  /** Why the seeder refuses to start: it throws "No colleges found.
      Please create colleges first." or "No trainers found. Please create
      trainers first." respectively. */
  datatype Refusal = NoColleges | NoTrainers

  /** The seeder either refuses or returns its summary. */
  datatype SeedOutcome = Refused(why: Refusal) | Done(summary: Summary)

  function ResponsesOf(rec: SeedRecord): int { rec.responses }

  /** The larger bound (or 0), which no session's response count exceeds. */
  function MaxCount(minResponses: int, maxResponses: int): nat
  {
    var m := if minResponses <= maxResponses then maxResponses else minResponses;
    if m > 0 then m else 0
  }

  predicate ValidDraw(qs: seq<Question>, d: SessionDraw, maxCount: int)
  {
    && IsDraw(d.domain) && IsDraw(d.topic) && IsDraw(d.trainer) && IsDraw(d.quality)
    && IsDraw(d.count) && IsDraw(d.academic)
    && |d.responses| >= maxCount && ResponseDraws(qs, d.responses)
  }

  /** Sessions planned per college: the loop runs max(0, n) times. */
  function Planned(sessionsPerCollege: int): nat
  {
    if sessionsPerCollege > 0 then sessionsPerCollege else 0
  }

  /** The combinations a college's sessions choose from: what the walk
      found, or the single default when the read or the walk threw or found
      nothing. */
  function CollegeCombos(shape: Shape, read: Result<Option<Json>>): (r: seq<Combination>)
    ensures |r| > 0
    ensures r != [DefaultCombination] ==> read.Ok? && Combinations(shape, read.value) == Ok(r)
  {
    if read.Err? then [DefaultCombination]
    else match Combinations(shape, read.value)
      case Err(_) => [DefaultCombination]
      case Ok(found) => if found == [] then [DefaultCombination] else found
  }

  /** The code as written seeds every college whose configuration has the
      saved shape with the default combination only. */
  lemma SavedShapeSeedsDefault(c: Config)
    ensures CollegeCombos(AsWritten, Ok(Some(ToJson(c)))) == [DefaultCombination]
  {
    AsWrittenMissesSaved(c);
  }

  /** Corrected, every combination seeded for a saved configuration that
      has a batch is one of its batches. */
  lemma SavedShapeSeedsBatches(c: Config, x: Combination)
    requires exists y :: TreeHolds(c, y)
    ensures x in CollegeCombos(Corrected, Ok(Some(ToJson(c)))) <==> TreeHolds(c, x)
  {
    var y :| TreeHolds(c, y);
    CorrectedFindsSavedBatches(c, x);
    CorrectedFindsSavedBatches(c, y);
  }

  /** The number of responses generateResponses writes for a planned
      session once the session exists (0 for draws the seeder never makes). */
  function Generated(pools: Pools, qs: seq<Question>, minResponses: int, maxResponses: int, d: SessionDraw): nat
  {
    if ValidPools(pools) && ValidDraw(qs, d, MaxCount(minResponses, maxResponses)) then
      ResponseCountBounds(minResponses, maxResponses, d.count);
      |Stored(pools, qs, PickRandom(Qualities, d.quality), PickRandom(Keys(pools.topics), d.domain),
              d.responses, d.rejected, ResponseCount(minResponses, maxResponses, d.count))|
    else 0
  }

  /** Does the session get created, its responses written, and then its
      close throw? */
  predicate Stranding(d: SessionDraw)
  {
    d.createFailure.None? && d.closeFailure.Some?
  }

  /** The responses counted in totalResponses for sessions that end as
      errors: those whose close threw after their responses were added. */
  function Stranded(pools: Pools, qs: seq<Question>, minResponses: int, maxResponses: int, ds: seq<SessionDraw>): nat
  {
    if ds == [] then 0
    else
      var last := ds[|ds| - 1];
      Stranded(pools, qs, minResponses, maxResponses, ds[..|ds| - 1])
        + (if Stranding(last) then Generated(pools, qs, minResponses, maxResponses, last) else 0)
  }

  lemma {:induction false} StrandedAppend(pools: Pools, qs: seq<Question>, minResponses: int, maxResponses: int,
                                          a: seq<SessionDraw>, b: seq<SessionDraw>)
    ensures Stranded(pools, qs, minResponses, maxResponses, a + b)
      == Stranded(pools, qs, minResponses, maxResponses, a) + Stranded(pools, qs, minResponses, maxResponses, b)
    decreases |b|
  {
    if b == [] {
      assert a + b == a;
    } else {
      var b' := b[..|b| - 1];
      assert (a + b)[..|a + b| - 1] == a + b';
      StrandedAppend(pools, qs, minResponses, maxResponses, a, b');
    }
  }

  /** One more planned session adds its own stranded responses. */
  lemma StrandedStep(pools: Pools, qs: seq<Question>, minResponses: int, maxResponses: int,
                     ds: seq<SessionDraw>, lo: nat, hi: nat)
    requires lo <= hi < |ds|
    ensures Stranded(pools, qs, minResponses, maxResponses, ds[lo..hi + 1])
      == Stranded(pools, qs, minResponses, maxResponses, ds[lo..hi])
         + (if Stranding(ds[hi]) then Generated(pools, qs, minResponses, maxResponses, ds[hi]) else 0)
  {
    assert ds[lo..hi + 1][..hi - lo] == ds[lo..hi];
  }

  /** The stranded responses of a prefix of the draws, split at lo. */
  lemma StrandedSplit(pools: Pools, qs: seq<Question>, minResponses: int, maxResponses: int,
                      ds: seq<SessionDraw>, lo: nat, hi: nat)
    requires lo <= hi <= |ds|
    ensures Stranded(pools, qs, minResponses, maxResponses, ds[..hi])
      == Stranded(pools, qs, minResponses, maxResponses, ds[..lo]) + Stranded(pools, qs, minResponses, maxResponses, ds[lo..hi])
  {
    assert ds[..hi] == ds[..lo] + ds[lo..hi];
    StrandedAppend(pools, qs, minResponses, maxResponses, ds[..lo], ds[lo..hi]);
  }

  /** Without a close failure no response is counted outside the records. */
  lemma {:induction false} NothingStranded(pools: Pools, qs: seq<Question>, minResponses: int, maxResponses: int, ds: seq<SessionDraw>)
    requires forall k :: 0 <= k < |ds| ==> ds[k].closeFailure.None?
    ensures Stranded(pools, qs, minResponses, maxResponses, ds) == 0
  {
    if ds != [] {
      NothingStranded(pools, qs, minResponses, maxResponses, ds[..|ds| - 1]);
    }
  }

  /** What one planned session ends as; a failed one carries the number of
      responses already added to the running total when it threw. */
  datatype Outcome = Seeded(rec: SeedRecord) | Failed(topic: string, error: string, counted: nat)

  /** One iteration of the inner loop: the random choices, then the session
      with its responses, or the error the store threw. */
  method SeedOne(pools: Pools, qs: seq<Question>, college: College, combinations: seq<Combination>, trainers: seq<Trainer>,
                 minResponses: int, maxResponses: int, d: SessionDraw)
    returns (out: Outcome)
    requires ValidPools(pools) && |trainers| > 0 && |combinations| > 0
    requires ValidDraw(qs, d, MaxCount(minResponses, maxResponses))
    ensures out.Failed? <==> d.createFailure.Some? || d.closeFailure.Some?
    ensures out.Failed? ==>
      if d.createFailure.Some? then out.error == d.createFailure.value && out.counted == 0
      else out.error == d.closeFailure.value && out.counted == Generated(pools, qs, minResponses, maxResponses, d)
    ensures out.Seeded? ==> out.rec.responses == Generated(pools, qs, minResponses, maxResponses, d)
    ensures out.Seeded? ==>
      && out.rec.college == college.code
      && out.rec.academic in combinations
      && out.rec.quality in Qualities
      && out.rec.responses <= MaxCount(minResponses, maxResponses)
  {
    var domain := PickRandom(Keys(pools.topics), d.domain);
    var topic := PickRandom(DomainTopics(pools, domain), d.topic);
    var trainer := PickRandom(trainers, d.trainer);
    var quality := PickRandom(Qualities, d.quality);
    var responseCount := ResponseCount(minResponses, maxResponses, d.count);
    ResponseCountBounds(minResponses, maxResponses, d.count);
    var academic := PickRandom(combinations, d.academic);
    if d.createFailure.Some? {
      return Failed(topic, d.createFailure.value, 0);
    }
    var added := GenerateResponses(pools, qs, responseCount, quality, domain, d.responses, d.rejected);
    if d.closeFailure.Some? {
      return Failed(topic, d.closeFailure.value, |added|);
    }
    return Seeded(SeedRecord(topic, college.code, trainer.name, academic, |added|, quality));
  }

  /** The combinations the sessions of a college choose from. */
  method CombinationsFor(shape: Shape, read: Result<Option<Json>>) returns (combinations: seq<Combination>)
    ensures combinations == CollegeCombos(shape, read)
  {
    combinations := [];
    if read.Ok? {
      var found := ExtractCombinations(shape, read.value);
      if found.Ok? {
        combinations := found.value;
      }
    }
    if |combinations| == 0 {
      combinations := [DefaultCombination];
    }
  }

  /** Every record names the college and one of its combinations, has a
      tier and at most maxCount responses. */
  ghost predicate CollegeRecords(college: College, combos: seq<Combination>, maxCount: int, recs: seq<SeedRecord>)
  {
    forall k :: 0 <= k < |recs| ==>
      && recs[k].college == college.code
      && recs[k].academic in combos
      && recs[k].quality in Qualities
      && recs[k].responses <= maxCount
  }

  /** One more record of the college keeps the property. */
  lemma CollegeRecordsAppend(college: College, combos: seq<Combination>, maxCount: int, recs: seq<SeedRecord>, rec: SeedRecord)
    requires CollegeRecords(college, combos, maxCount, recs)
    requires rec.college == college.code && rec.academic in combos && rec.quality in Qualities && rec.responses <= maxCount
    ensures CollegeRecords(college, combos, maxCount, recs + [rec])
  {
  }

  /** The running total after one more planned session: a record adds its
      responses, a close failure the responses written before it threw. */
  lemma ResponsesStep(pools: Pools, qs: seq<Question>, minResponses: int, maxResponses: int,
                      draws: seq<SessionDraw>, start: nat, s: nat, sessions: seq<SeedRecord>, responses: int, out: Outcome)
    requires start + s < |draws|
    requires responses == SumOf(sessions, ResponsesOf) + Stranded(pools, qs, minResponses, maxResponses, draws[start..start + s])
    requires out.Failed? <==> draws[start + s].createFailure.Some? || draws[start + s].closeFailure.Some?
    requires out.Failed? ==>
      out.counted == if draws[start + s].createFailure.Some? then 0 else Generated(pools, qs, minResponses, maxResponses, draws[start + s])
    ensures out.Failed? ==>
      responses + out.counted == SumOf(sessions, ResponsesOf) + Stranded(pools, qs, minResponses, maxResponses, draws[start..start + s + 1])
    ensures out.Seeded? ==>
      responses + out.rec.responses == SumOf(sessions + [out.rec], ResponsesOf) + Stranded(pools, qs, minResponses, maxResponses, draws[start..start + s + 1])
  {
    StrandedStep(pools, qs, minResponses, maxResponses, draws, start, start + s);
    if out.Seeded? {
      SumOfAppend(sessions, [out.rec], ResponsesOf);
    }
  }

  /** The sessions of one college (the inner loop of the driver): reads the
      college's combinations, then seeds its planned sessions. */
  method SeedCollege(pools: Pools, qs: seq<Question>, shape: Shape, college: College, read: Result<Option<Json>>, trainers: seq<Trainer>,
                     sessionsPerCollege: int, minResponses: int, maxResponses: int,
                     draws: seq<SessionDraw>, start: nat)
    returns (sessions: seq<SeedRecord>, responses: int, errors: seq<SeedError>)
    requires ValidPools(pools) && |trainers| > 0 && |draws| >= start + Planned(sessionsPerCollege)
    requires forall k :: 0 <= k < |draws| ==> ValidDraw(qs, draws[k], MaxCount(minResponses, maxResponses))
    ensures |sessions| + |errors| == Planned(sessionsPerCollege)
    ensures responses == SumOf(sessions, ResponsesOf)
      + Stranded(pools, qs, minResponses, maxResponses, draws[start..start + Planned(sessionsPerCollege)])
    ensures CollegeRecords(college, CollegeCombos(shape, read), MaxCount(minResponses, maxResponses), sessions)
    ensures forall k :: 0 <= k < |errors| ==> start < errors[k].session <= start + Planned(sessionsPerCollege)
  {
    var combinations := CombinationsFor(shape, read);
    sessions, responses, errors := SeedCollegeSessions(pools, qs, college, combinations, trainers,
                                                       sessionsPerCollege, minResponses, maxResponses, draws, start);
  }

  /** The session loop of one college, each session picking its academic
      combination from combinations. */
  method SeedCollegeSessions(pools: Pools, qs: seq<Question>, college: College, combinations: seq<Combination>, trainers: seq<Trainer>,
                     sessionsPerCollege: int, minResponses: int, maxResponses: int,
                     draws: seq<SessionDraw>, start: nat)
    returns (sessions: seq<SeedRecord>, responses: int, errors: seq<SeedError>)
    requires ValidPools(pools) && |trainers| > 0 && |combinations| > 0 && |draws| >= start + Planned(sessionsPerCollege)
    requires forall k :: 0 <= k < |draws| ==> ValidDraw(qs, draws[k], MaxCount(minResponses, maxResponses))
    ensures |sessions| + |errors| == Planned(sessionsPerCollege)
    ensures responses == SumOf(sessions, ResponsesOf)
      + Stranded(pools, qs, minResponses, maxResponses, draws[start..start + Planned(sessionsPerCollege)])
    ensures CollegeRecords(college, combinations, MaxCount(minResponses, maxResponses), sessions)
    ensures forall k :: 0 <= k < |errors| ==> start < errors[k].session <= start + Planned(sessionsPerCollege)
  {
    sessions, responses, errors := [], 0, [];
    var s := 0;
    while s < sessionsPerCollege
      invariant 0 <= s <= Planned(sessionsPerCollege)
      invariant |sessions| + |errors| == s
      invariant responses == SumOf(sessions, ResponsesOf) + Stranded(pools, qs, minResponses, maxResponses, draws[start..start + s])
      invariant CollegeRecords(college, combinations, MaxCount(minResponses, maxResponses), sessions)
      invariant forall k :: 0 <= k < |errors| ==> start < errors[k].session <= start + s
    {
      sessions, responses, errors := SeedNext(pools, qs, college, combinations, trainers, minResponses, maxResponses,
                                              draws, start, s, sessions, responses, errors);
      s := s + 1;
    }
  }

  /** One pass of the college loop: seed session start + s and record its
      outcome. */
  method SeedNext(pools: Pools, qs: seq<Question>, college: College, combinations: seq<Combination>, trainers: seq<Trainer>,
                  minResponses: int, maxResponses: int, draws: seq<SessionDraw>, start: nat, s: nat,
                  sessions: seq<SeedRecord>, responses: int, errors: seq<SeedError>)
    returns (sessions': seq<SeedRecord>, responses': int, errors': seq<SeedError>)
    requires ValidPools(pools) && |trainers| > 0 && |combinations| > 0 && start + s < |draws|
    requires ValidDraw(qs, draws[start + s], MaxCount(minResponses, maxResponses))
    requires responses == SumOf(sessions, ResponsesOf) + Stranded(pools, qs, minResponses, maxResponses, draws[start..start + s])
    requires CollegeRecords(college, combinations, MaxCount(minResponses, maxResponses), sessions)
    ensures |sessions'| + |errors'| == |sessions| + |errors| + 1
    ensures responses' == SumOf(sessions', ResponsesOf) + Stranded(pools, qs, minResponses, maxResponses, draws[start..start + s + 1])
    ensures CollegeRecords(college, combinations, MaxCount(minResponses, maxResponses), sessions')
    ensures errors' == errors || (|errors'| == |errors| + 1 && errors'[..|errors|] == errors && errors'[|errors|].session == start + s + 1)
  {
    var out := SeedOne(pools, qs, college, combinations, trainers, minResponses, maxResponses, draws[start + s]);
    ResponsesStep(pools, qs, minResponses, maxResponses, draws, start, s, sessions, responses, out);
    if out.Failed? {
      sessions', responses', errors' := sessions, responses + out.counted, errors + [SeedError(start + s + 1, out.topic, out.error)];
    } else {
      CollegeRecordsAppend(college, combinations, MaxCount(minResponses, maxResponses), sessions, out.rec);
      sessions', responses', errors' := sessions + [out.rec], responses + out.rec.responses, errors;
    }
  }

  /** The combinations each college's sessions choose from, one list per
      college, given what reading its configuration gave. */
  ghost function CombosOf(shape: Shape, configs: seq<Result<Option<Json>>>): seq<seq<Combination>>
  {
    Map(configs, read => CollegeCombos(shape, read))
  }

  /** The lists of one more college. */
  lemma CombosOfStep(shape: Shape, configs: seq<Result<Option<Json>>>, ci: nat)
    requires ci < |configs|
    ensures CombosOf(shape, configs[..ci + 1]) == CombosOf(shape, configs[..ci]) + [CollegeCombos(shape, configs[ci])]
  {
    assert configs[..ci + 1] == configs[..ci] + [configs[ci]];
    MapAppendOne(configs[..ci], configs[ci], read => CollegeCombos(shape, read));
  }

  /** The record came from college ci, with one of that college's
      combinations (allowed[ci]). */
  ghost predicate FromCollege(colleges: seq<College>, allowed: seq<seq<Combination>>, rec: SeedRecord, ci: int)
  {
    0 <= ci < |colleges| && ci < |allowed| && rec.college == colleges[ci].code && rec.academic in allowed[ci]
  }

  /** Every record has a tier, at most the larger bound of responses, and
      comes from some college with one of its combinations. */
  ghost predicate GoodRecords(colleges: seq<College>, allowed: seq<seq<Combination>>, maxCount: int, recs: seq<SeedRecord>)
  {
    forall k :: 0 <= k < |recs| ==>
      && recs[k].quality in Qualities
      && recs[k].responses <= maxCount
      && exists c :: FromCollege(colleges, allowed, recs[k], c)
  }

  lemma GoodAppend(colleges: seq<College>, allowed: seq<seq<Combination>>, maxCount: int, a: seq<SeedRecord>, b: seq<SeedRecord>)
    requires GoodRecords(colleges, allowed, maxCount, a) && GoodRecords(colleges, allowed, maxCount, b)
    ensures GoodRecords(colleges, allowed, maxCount, a + b)
  {
    forall k | 0 <= k < |a + b|
      ensures (a + b)[k].quality in Qualities && (a + b)[k].responses <= maxCount
      ensures exists c :: FromCollege(colleges, allowed, (a + b)[k], c)
    {
      if k < |a| { assert (a + b)[k] == a[k]; } else { assert (a + b)[k] == b[k - |a|]; }
    }
  }

  /** Adding a college's list keeps the records good. */
  lemma GoodExtend(colleges: seq<College>, allowed: seq<seq<Combination>>, more: seq<Combination>, maxCount: int,
                   recs: seq<SeedRecord>)
    requires GoodRecords(colleges, allowed, maxCount, recs)
    ensures GoodRecords(colleges, allowed + [more], maxCount, recs)
  {
    forall k | 0 <= k < |recs|
      ensures recs[k].quality in Qualities && recs[k].responses <= maxCount
      ensures exists c :: FromCollege(colleges, allowed + [more], recs[k], c)
    {
      var c :| FromCollege(colleges, allowed, recs[k], c);
      assert (allowed + [more])[c] == allowed[c];
      assert FromCollege(colleges, allowed + [more], recs[k], c);
    }
  }

  /** The sessions of college ci are good records. */
  lemma CollegeGood(colleges: seq<College>, allowed: seq<seq<Combination>>, maxCount: int, recs: seq<SeedRecord>, ci: nat)
    requires ci < |colleges| && ci < |allowed|
    requires forall k :: 0 <= k < |recs| ==>
      && recs[k].college == colleges[ci].code
      && recs[k].academic in allowed[ci]
      && recs[k].quality in Qualities
      && recs[k].responses <= maxCount
    ensures GoodRecords(colleges, allowed, maxCount, recs)
  {
    forall k | 0 <= k < |recs|
      ensures recs[k].quality in Qualities && recs[k].responses <= maxCount
      ensures exists c :: FromCollege(colleges, allowed, recs[k], c)
    {
      assert FromCollege(colleges, allowed, recs[k], ci);
    }
  }

  /** Error numbers lie in [1, hi]. */
  predicate NumberedUpTo(errors: seq<SeedError>, hi: int)
  {
    forall k :: 0 <= k < |errors| ==> 1 <= errors[k].session <= hi
  }

  lemma NumberedAppend(a: seq<SeedError>, b: seq<SeedError>, lo: int, hi: int)
    requires NumberedUpTo(a, lo) && lo <= hi
    requires forall k :: 0 <= k < |b| ==> lo < b[k].session <= hi
    requires lo >= 0
    ensures NumberedUpTo(a + b, hi)
  {
    forall k | 0 <= k < |a + b| ensures 1 <= (a + b)[k].session <= hi
    {
      if k < |a| { assert (a + b)[k] == a[k]; } else { assert (a + b)[k] == b[k - |a|]; }
    }
  }

  /** The draws used by k blocks of n sessions. */
  function Blocks(k: nat, n: nat): nat
  {
    if k == 0 then 0 else Blocks(k - 1, n) + n
  }

  lemma {:induction false} BlocksIsProduct(k: nat, n: nat)
    ensures Blocks(k, n) == k * n
  {
    if k > 0 {
      BlocksIsProduct(k - 1, n);
      assert k * n == (k - 1) * n + n;
    }
  }

  /** A block that is not the last ends within the m blocks. */
  lemma {:induction false} BlocksGrow(k: nat, m: nat, n: nat)
    requires k <= m
    ensures Blocks(k, n) <= Blocks(m, n)
    decreases m - k
  {
    if k < m {
      BlocksGrow(k + 1, m, n);
    }
  }

  /** What the driver has after planning `planned` sessions: each is a
      record or an error, the total counts the records' responses, the
      records are good and the errors are numbered within the plan. */
  ghost predicate Accumulated(colleges: seq<College>, allowed: seq<seq<Combination>>, maxCount: int,
                              planned: int, sessions: seq<SeedRecord>, total: int, stranded: int, errors: seq<SeedError>)
  {
    && |sessions| + |errors| == planned && total == SumOf(sessions, ResponsesOf) + stranded
    && GoodRecords(colleges, allowed, maxCount, sessions)
    && NumberedUpTo(errors, planned)
  }

  /** What a college's block adds keeps the accumulated summary right. */
  lemma BlockAccumulated(colleges: seq<College>, used: seq<seq<Combination>>, combos: seq<Combination>, maxCount: int,
                         ci: nat, start: nat, n: nat,
                         sessions: seq<SeedRecord>, total: int, stranded: int, errors: seq<SeedError>,
                         more: seq<SeedRecord>, added: int, strandedMore: int, failed: seq<SeedError>, strandedAll: int)
    requires ci < |colleges| && ci == |used| && strandedAll == stranded + strandedMore
    requires Accumulated(colleges, used, maxCount, start, sessions, total, stranded, errors)
    requires |more| + |failed| == n && added == SumOf(more, ResponsesOf) + strandedMore
    requires CollegeRecords(colleges[ci], combos, maxCount, more)
    requires forall k :: 0 <= k < |failed| ==> start < failed[k].session <= start + n
    ensures Accumulated(colleges, used + [combos], maxCount, start + n, sessions + more, total + added,
                        strandedAll, errors + failed)
  {
    var used' := used + [combos];
    assert used'[ci] == combos;
    CollegeGood(colleges, used', maxCount, more, ci);
    GoodExtend(colleges, used, combos, maxCount, sessions);
    GoodAppend(colleges, used', maxCount, sessions, more);
    NumberedAppend(errors, failed, start, start + n);
    SumOfAppend(sessions, more, ResponsesOf);
  }

  /** One pass of the outer loop: college ci's sessions, drawn from the
      block of draws starting at start, appended to what came before. */
  method SeedBlock(pools: Pools, qs: seq<Question>, shape: Shape, colleges: seq<College>, trainers: seq<Trainer>,
                   configs: seq<Result<Option<Json>>>, sessionsPerCollege: int,
                   minResponses: int, maxResponses: int, draws: seq<SessionDraw>, ci: nat, start: nat,
                   ghost used: seq<seq<Combination>>, sessions: seq<SeedRecord>, total: int, errors: seq<SeedError>)
    returns (sessions': seq<SeedRecord>, total': int, errors': seq<SeedError>, ghost used': seq<seq<Combination>>)
    requires ValidPools(pools) && ci < |colleges| == |configs| && |trainers| > 0
    requires used == CombosOf(shape, configs[..ci])
    requires start + Planned(sessionsPerCollege) <= |draws|
    requires forall k :: 0 <= k < |draws| ==> ValidDraw(qs, draws[k], MaxCount(minResponses, maxResponses))
    requires Accumulated(colleges, used, MaxCount(minResponses, maxResponses), start, sessions, total,
                         Stranded(pools, qs, minResponses, maxResponses, draws[..start]), errors)
    ensures used' == CombosOf(shape, configs[..ci + 1])
    ensures Accumulated(colleges, used', MaxCount(minResponses, maxResponses),
                        start + Planned(sessionsPerCollege), sessions', total',
                        Stranded(pools, qs, minResponses, maxResponses, draws[..start + Planned(sessionsPerCollege)]), errors')
  {
    var n := Planned(sessionsPerCollege);
    var more, added, failed := SeedCollege(pools, qs, shape, colleges[ci], configs[ci], trainers,
                                           sessionsPerCollege, minResponses, maxResponses, draws, start);
    ghost var combos := CollegeCombos(shape, configs[ci]);
    CombosOfStep(shape, configs, ci);
    used' := used + [combos];
    StrandedSplit(pools, qs, minResponses, maxResponses, draws, start, start + n);
    BlockAccumulated(colleges, used, combos, MaxCount(minResponses, maxResponses), ci, start, n,
                     sessions, total, Stranded(pools, qs, minResponses, maxResponses, draws[..start]), errors,
                     more, added, Stranded(pools, qs, minResponses, maxResponses, draws[start..start + n]), failed,
                     Stranded(pools, qs, minResponses, maxResponses, draws[..start + n]));
    sessions' := sessions + more;
    total' := total + added;
    errors' := errors + failed;
  }

  /** The outer loop of the driver: every college's block of sessions, in
      order. */
  method SeedColleges(pools: Pools, qs: seq<Question>, shape: Shape, colleges: seq<College>, trainers: seq<Trainer>,
                      configs: seq<Result<Option<Json>>>, sessionsPerCollege: int,
                      minResponses: int, maxResponses: int, draws: seq<SessionDraw>)
    returns (sessions: seq<SeedRecord>, total: int, errors: seq<SeedError>)
    requires ValidPools(pools) && |configs| == |colleges| && |trainers| > 0
    requires |draws| >= Blocks(|colleges|, Planned(sessionsPerCollege))
    requires forall k :: 0 <= k < |draws| ==> ValidDraw(qs, draws[k], MaxCount(minResponses, maxResponses))
    ensures Accumulated(colleges, CombosOf(shape, configs), MaxCount(minResponses, maxResponses),
                        Blocks(|colleges|, Planned(sessionsPerCollege)), sessions, total,
                        Stranded(pools, qs, minResponses, maxResponses, draws[..Blocks(|colleges|, Planned(sessionsPerCollege))]), errors)
  {
    var n := Planned(sessionsPerCollege);
    sessions, total, errors := [], 0, [];
    var ci := 0;
    var planned := 0;
    ghost var used: seq<seq<Combination>> := [];
    ghost var stranded := 0;
    while ci < |colleges|
      invariant 0 <= ci <= |colleges|
      invariant planned == Blocks(ci, n) && planned <= |draws|
      invariant used == CombosOf(shape, configs[..ci])
      invariant stranded == Stranded(pools, qs, minResponses, maxResponses, draws[..planned])
      invariant Accumulated(colleges, used, MaxCount(minResponses, maxResponses), planned, sessions, total, stranded, errors)
    {
      BlocksGrow(ci + 1, |colleges|, n);
      sessions, total, errors, used := SeedBlock(pools, qs, shape, colleges, trainers, configs, sessionsPerCollege,
                                                 minResponses, maxResponses, draws, ci, planned, used, sessions, total, errors);
      ci := ci + 1;
      planned := planned + n;
      stranded := Stranded(pools, qs, minResponses, maxResponses, draws[..planned]);
    }
    assert configs[..ci] == configs;
  }

  /** seedSessionsAndResponses: refuses to run without colleges or without
      trainers; otherwise plans sessionsPerCollege sessions for every college
      (configs[i] is what reading college i's academic configuration gave),
      each either recorded or logged as an error.  The total counts the
      responses of the recorded sessions and also those of the sessions whose
      close threw after their responses were written. */
  method SeedSessionsAndResponses(pools: Pools, qs: seq<Question>, shape: Shape, colleges: seq<College>, trainers: seq<Trainer>,
                                  configs: seq<Result<Option<Json>>>, sessionsPerCollege: int,
                                  minResponses: int, maxResponses: int, draws: seq<SessionDraw>)
    returns (r: SeedOutcome)
    requires ValidPools(pools) && |configs| == |colleges|
    requires |draws| >= |colleges| * Planned(sessionsPerCollege)
    requires forall k :: 0 <= k < |draws| ==> ValidDraw(qs, draws[k], MaxCount(minResponses, maxResponses))
    ensures colleges == [] ==> r == Refused(NoColleges)
    ensures colleges != [] && trainers == [] ==> r == Refused(NoTrainers)
    ensures colleges != [] && trainers != [] ==> r.Done?
    ensures r.Done? ==>
      && |r.summary.sessions| + |r.summary.errors| == |colleges| * Planned(sessionsPerCollege)
      && r.summary.totalResponses == SumOf(r.summary.sessions, ResponsesOf)
           + Stranded(pools, qs, minResponses, maxResponses, draws[..|colleges| * Planned(sessionsPerCollege)])
    ensures r.Done? ==> GoodRecords(colleges, CombosOf(shape, configs), MaxCount(minResponses, maxResponses), r.summary.sessions)
    ensures r.Done? ==> NumberedUpTo(r.summary.errors, |colleges| * Planned(sessionsPerCollege))
  {
    if |colleges| == 0 {
      return Refused(NoColleges);
    }
    if |trainers| == 0 {
      return Refused(NoTrainers);
    }
    BlocksIsProduct(|colleges|, Planned(sessionsPerCollege));
    var sessions, total, errors := SeedColleges(pools, qs, shape, colleges, trainers, configs, sessionsPerCollege,
                                                minResponses, maxResponses, draws);
    return Done(Summary(sessions, total, errors));
  }
}
