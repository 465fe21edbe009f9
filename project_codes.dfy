/** The project-code service: a code "College/Course/Year/Type/AcademicYear"
    is split into trimmed segments, matched case-insensitively to a college,
    its course "Engg" and its year label are resolved against the college's
    academic configuration, and a batch of codes is deduplicated and
    filtered against the codes already stored before it is written. */
module ProjectCodes {
  import opened Common
  import opened OrderedMap
  import opened Json
  import VerifyResolveYear

  const TypeError: string := "TypeError"

  // ---------------------------------------------------------------------------
  // parseProjectCode
  // ---------------------------------------------------------------------------

  datatype Status = Invalid | Parsed

  /** The object parseProjectCode returns; a field the code leaves out is None
      (undefined). Values are Json because the import path builds the same
      record from whatever a JSON file holds. */
  datatype Code = Code(
    rawCode: Option<Json>,
    status: Status,
    error: Option<string>,
    collegeCode: Option<Json>,
    course: Option<Json>,
    year: Option<Json>,
    kind: Option<Json>,
    academicYear: Option<Json>)

  /** `rawCode.split('/').map(p => p.trim())`. */
  function Segments(s: string): (r: seq<string>)
    ensures |r| == |Split(s, '/')| && |r| >= 1
    ensures forall i :: 0 <= i < |r| ==> r[i] == Trim(Split(s, '/')[i])
  {
    Map(Split(s, '/'), Trim)
  }

  /** The year segment: its first run of digits when it has one. */
  function YearOf(seg: string): (r: string)
    ensures FirstDigitRun(seg).Some? ==> r == FirstDigitRun(seg).value
    ensures FirstDigitRun(seg).None? ==> r == seg
  {
    match FirstDigitRun(seg)
    case Some(d) => d
    case None => seg
  }

  /** parseProjectCode on a non-empty string. */
  function ParseString(s: string): (r: Code)
    requires s != ""
    ensures r.rawCode == Some(JStr(s))
    ensures r.status == Invalid <==> |Segments(s)| < 2
    ensures r.status == Invalid ==> r.error == Some("Too few segments") && r.collegeCode.None?
  {
    var parts := Segments(s);
    if |parts| < 2 then
      Code(Some(JStr(s)), Invalid, Some("Too few segments"), None, None, None, None, None)
    else
      var year := if |parts| > 2 then parts[2] else "";
      var kind := if |parts| > 3 then parts[3] else "";
      Code(Some(JStr(s)), Parsed, None, Some(JStr(parts[0])), Some(JStr(parts[1])),
           Some(JStr(YearOf(year))), Some(JStr(kind)), Some(JStr(parts[|parts| - 1])))
  }

  /** parseProjectCode: a falsy code is "Empty code" (no rawCode), a string is
      split, and anything else has no `split` and throws. */
  function ParseProjectCode(raw: Option<Json>): (r: Result<Code>)
    ensures !Truthy(raw) ==> r == Ok(Code(None, Invalid, Some("Empty code"), None, None, None, None, None))
    ensures Truthy(raw) && !raw.value.JStr? ==> r.Err?
    ensures Truthy(raw) && raw.value.JStr? ==> r == Ok(ParseString(raw.value.s))
  {
    if !Truthy(raw) then Ok(Code(None, Invalid, Some("Empty code"), None, None, None, None, None))
    else if raw.value.JStr? then Ok(ParseString(raw.value.s))
    else Err(TypeError)
  }

  /** A string splits into one piece exactly when it holds no separator. */
  lemma OnePieceIff(s: string, sep: char)
    ensures |Split(s, sep)| == 1 <==> sep !in s
  {
    var k := Common.IndexOf(s, sep);
    if sep in s {
      var j :| 0 <= j < |s| && s[j] == sep;
      assert k <= j;
      assert |Split(s, sep)| == 1 + |Split(s[k + 1..], sep)|;
    }
  }

  /** A code is invalid exactly when it has no '/'. */
  lemma InvalidIffNoSlash(s: string)
    requires s != ""
    ensures ParseString(s).status == Invalid <==> '/' !in s
  {
    OnePieceIff(s, '/');
  }

  /** Every segment is trimmed and free of '/'. */
  lemma SegmentsClean(s: string)
    ensures forall i :: 0 <= i < |Segments(s)| ==> IsTrimmed(Segments(s)[i]) && '/' !in Segments(s)[i]
  {
    var parts := Split(s, '/');
    forall i | 0 <= i < |parts| ensures IsTrimmed(Segments(s)[i]) && '/' !in Segments(s)[i] {
      TrimNoNewChar(parts[i], '/');
    }
  }

  /** The fields of a parsed code: college first, academic year last, course
      second, type fourth or "", each a trimmed segment without '/'. */
  lemma ParsedFields(s: string)
    requires s != "" && ParseString(s).status == Parsed
    ensures var r := ParseString(s); var parts := Segments(s);
      r.collegeCode == Some(JStr(parts[0])) && r.course == Some(JStr(parts[1]))
      && r.academicYear == Some(JStr(parts[|parts| - 1]))
      && r.kind == Some(JStr(if |parts| > 3 then parts[3] else ""))
      && IsTrimmed(parts[0]) && '/' !in parts[0] && IsTrimmed(parts[|parts| - 1]) && '/' !in parts[|parts| - 1]
  {
    SegmentsClean(s);
  }

  /** With exactly two segments the course is the academic year, and the year is empty. */
  lemma TwoSegmentsCourseIsAcademicYear(s: string)
    requires s != "" && |Segments(s)| == 2
    ensures ParseString(s).course == ParseString(s).academicYear
    ensures ParseString(s).year == Some(JStr(""))
  {
  }

  /** The year field is a run of digits, or a segment with no digit at all. */
  lemma YearIsDigitsOrWordy(s: string)
    requires s != "" && ParseString(s).status == Parsed
    ensures var y := ParseString(s).year.value.s;
      (y != "" && AllDigits(y)) || forall i :: 0 <= i < |y| ==> !IsDigit(y[i])
  {
  }

  /** Clean segments joined with '/' split and trim back to themselves. */
  lemma SegmentsOfJoin(parts: seq<string>)
    requires |parts| >= 1
    requires forall i :: 0 <= i < |parts| ==> IsTrimmed(parts[i]) && '/' !in parts[i]
    ensures Segments(Join(parts, "/")) == parts
  {
    var s := Join(parts, "/");
    SplitJoin(parts, '/');
    forall i | 0 <= i < |parts| ensures Segments(s)[i] == parts[i] {
      TrimOfTrimmed(parts[i]);
    }
  }

  /** Writing clean segments with '/' and parsing gives them back. */
  lemma JoinThenParse(parts: seq<string>)
    requires |parts| >= 2
    requires forall i :: 0 <= i < |parts| ==> IsTrimmed(parts[i]) && '/' !in parts[i]
    ensures Join(parts, "/") != ""
    ensures var r := ParseString(Join(parts, "/"));
      r.status == Parsed && r.collegeCode == Some(JStr(parts[0])) && r.course == Some(JStr(parts[1]))
      && r.academicYear == Some(JStr(parts[|parts| - 1]))
      && r.year == Some(JStr(if |parts| > 2 then YearOf(parts[2]) else ""))
  {
    var s := Join(parts, "/");
    SegmentsOfJoin(parts);
  }

  // ---------------------------------------------------------------------------
  // matchCollege
  // ---------------------------------------------------------------------------

  /** A college as the matcher reads it: its id and, when present, code and name. */
  datatype College = College(id: string, code: Option<string>, name: Option<string>)

  /** A code after matching: collegeId and collegeName are None (absent) for
      an invalid parse, JNull when no college matched. */
  datatype Matched = Matched(code: Code, collegeId: Option<Json>, collegeName: Option<Json>, matched: bool)

  /** `x?.toLowerCase()` of the code's college code: undefined for null or
      undefined, a TypeError for a value that is not a string. */
  function LowerKey(v: Option<Json>): (r: Result<Option<string>>)
    ensures r.Err? <==> v.Some? && !v.value.JStr? && !v.value.JNull?
    ensures v.Some? && v.value.JStr? ==> r == Ok(Some(ToLower(v.value.s)))
  {
    match v
    case None => Ok(None)
    case Some(JNull) => Ok(None)
    case Some(JStr(s)) => Ok(Some(ToLower(s)))
    case Some(_) => Err(TypeError)
  }

  function LowerOpt(s: Option<string>): Option<string>
  {
    if s.Some? then Some(ToLower(s.value)) else None
  }

  /** The find predicate: code or name equal, ignoring case, to the key
      (undefined equals undefined). */
  predicate CollegeMatches(c: College, key: Option<string>)
  {
    LowerOpt(c.code) == key || LowerOpt(c.name) == key
  }

  /** `colleges.find(...)`: the index of the first matching college. */
  function FirstMatch(colleges: seq<College>, key: Option<string>): (r: Option<nat>)
    ensures r.Some? ==> (r.value < |colleges| && CollegeMatches(colleges[r.value], key)
                         && forall j :: 0 <= j < r.value ==> !CollegeMatches(colleges[j], key))
    ensures r.None? <==> forall j :: 0 <= j < |colleges| ==> !CollegeMatches(colleges[j], key)
  {
    if colleges == [] then None
    else if CollegeMatches(colleges[0], key) then Some(0)
    else
      var r := FirstMatch(colleges[1..], key);
      assert forall j :: 1 <= j < |colleges| ==> colleges[j] == colleges[1..][j - 1];
      if r.Some? then Some(r.value + 1) else None
  }

  /** matchCollege. The key is computed inside the predicate, so it only
      throws when there is a college to test it against. */
  function MatchCollege(p: Code, colleges: seq<College>): (r: Result<Matched>)
    ensures p.status == Invalid ==> r == Ok(Matched(p, None, None, false))
    ensures p.status == Parsed && colleges == [] ==> r == Ok(Matched(p, Some(JNull), Some(JNull), false))
    ensures r.Err? <==> p.status == Parsed && colleges != [] && LowerKey(p.collegeCode).Err?
    ensures r.Ok? ==> r.value.code == p
  {
    if p.status == Invalid then Ok(Matched(p, None, None, false))
    else if colleges == [] then Ok(Matched(p, Some(JNull), Some(JNull), false))
    else
      var key := LowerKey(p.collegeCode);
      if key.Err? then
        assert p.status == Parsed;
        Err(key.msg)
      else match FirstMatch(colleges, key.value)
        case None => Ok(Matched(p, Some(JNull), Some(JNull), false))
        case Some(i) =>
          var c := colleges[i];
          Ok(Matched(p, Some(JStr(c.id)), if c.name.Some? then Some(JStr(c.name.value)) else None, true))
  }

  /** A parsed code matches exactly when some college's code or name equals
      its college code ignoring case; the first such college is taken, and
      collegeId is null exactly when nothing matched. */
  lemma MatchIff(p: Code, colleges: seq<College>)
    requires p.status == Parsed && p.collegeCode.Some? && p.collegeCode.value.JStr?
    ensures var key := Some(ToLower(p.collegeCode.value.s)); var r := MatchCollege(p, colleges);
      r.Ok? && r.value.code == p
      && (r.value.matched <==> exists j :: 0 <= j < |colleges| && CollegeMatches(colleges[j], key))
      && (r.value.collegeId == Some(JNull) <==> !r.value.matched)
      && (r.value.matched ==> exists j :: (0 <= j < |colleges| && CollegeMatches(colleges[j], key)
                                           && r.value.collegeId == Some(JStr(colleges[j].id))
                                           && forall k :: 0 <= k < j ==> !CollegeMatches(colleges[k], key)))
  {
    var key := Some(ToLower(p.collegeCode.value.s));
    var m := FirstMatch(colleges, key);
    if m.Some? {
      assert CollegeMatches(colleges[m.value], key);
    }
  }

  // ---------------------------------------------------------------------------
  // resolveCourseName
  // ---------------------------------------------------------------------------

  predicate IsBTechKey(k: string)
  {
    ToLower(k) == "b.tech" || ToLower(k) == "b. tech"
  }

  /** resolveCourseName: read is the outcome of reading the college's
      configuration (Err when the read throws). Only "Engg" (in any case) is
      resolved: to "B.Tech" when the configuration has such a course, else
      to "B.E.". */
  function ResolveCourseName(collegeId: string, rawCourse: Json, read: Result<Option<Json>>): (r: Result<Json>)
    ensures collegeId == "" || !Truthy(Some(rawCourse)) ==> r == Ok(rawCourse)
    ensures collegeId != "" && Truthy(Some(rawCourse)) && !rawCourse.JStr? ==> r.Err?
    ensures rawCourse.JStr? && ToLower(rawCourse.s) != "engg" ==> r == Ok(rawCourse)
    ensures collegeId != "" && rawCourse.JStr? && ToLower(rawCourse.s) == "engg" ==>
      r.Ok? && (r.value == JStr("B.Tech") <==>
                  read.Ok? && Truthy(read.value) && Truthy(Opt(read.value, "courses"))
                  && exists k :: k in KeysOf(Opt(read.value, "courses")) && IsBTechKey(k))
            && (r.value == JStr("B.Tech") || r.value == JStr("B.E."))
  {
    if collegeId == "" || !Truthy(Some(rawCourse)) then Ok(rawCourse)
    else if !rawCourse.JStr? then Err(TypeError)
    else if ToLower(rawCourse.s) != "engg" then Ok(rawCourse)
    else if read.Err? || !Truthy(read.value) || !Truthy(Opt(read.value, "courses")) then Ok(JStr("B.E."))
    else if exists k :: k in KeysOf(Opt(read.value, "courses")) && IsBTechKey(k) then Ok(JStr("B.Tech"))
    else Ok(JStr("B.E."))
  }

  /** Resolving a resolved course changes nothing: "B.Tech" and "B.E." are not "engg". */
  lemma ResolveCourseIdempotent(collegeId: string, rawCourse: Json, read: Result<Option<Json>>, read2: Result<Option<Json>>)
    requires ResolveCourseName(collegeId, rawCourse, read).Ok?
    ensures var c := ResolveCourseName(collegeId, rawCourse, read).value;
      ResolveCourseName(collegeId, c, read2) == Ok(c)
  {
    var c := ResolveCourseName(collegeId, rawCourse, read).value;
    if c == JStr("B.Tech") {
      assert ToLower("B.Tech")[1] == '.';
    } else if c == JStr("B.E.") {
      assert ToLower("B.E.")[1] == '.';
    }
  }

  // ---------------------------------------------------------------------------
  // resolveYear as the service writes it (course → department → year)
  // ---------------------------------------------------------------------------

  /** The year keys the service collects: for each department of the course
      (`courseData.departments`), the keys of its truthy `years`. None when
      the service gives up and keeps only the digits: a missing course or
      departments, or a null department (reading `dept.years` throws). */
  function OldValidYears(config: Option<Json>, courseName: string): (r: Option<seq<string>>)
  {
    var course := Opt(Opt(config, "courses"), courseName);
    if !Truthy(config) || !Truthy(Opt(config, "courses")) || !Truthy(course) then None
    else if !Truthy(Opt(course, "departments")) then None
    else DepartmentYears(Values(Entries(Opt(course, "departments"))))
  }

  /** The year keys of one department: the keys of its `years` when truthy. */
  function DeptYears(d: Json): seq<string>
  {
    if Truthy(Opt(Some(d), "years")) then KeysOf(Opt(Some(d), "years")) else []
  }

  /** The year keys of a list of departments, in order; None when one of
      them is null (reading `dept.years` throws). */
  function DepartmentYears(depts: seq<Json>): (r: Option<seq<string>>)
    ensures r.None? <==> JNull in depts
  {
    if depts == [] then Some([])
    else
      var init := DepartmentYears(depts[..|depts| - 1]);
      var d := depts[|depts| - 1];
      assert depts == depts[..|depts| - 1] + [d];
      if init.None? || d == JNull then None else Some(init.value + DeptYears(d))
  }

  /** The first word of the table, in the order written, that the lower-cased
      label contains as a substring and whose year is valid. */
  function OldWordYear(lower: string, valid: seq<string>, ks: seq<string>): (r: Option<string>)
    ensures r.Some? ==> (r.value in valid
                         && exists i :: 0 <= i < |ks| && Contains(lower, ks[i]) && VerifyResolveYear.WordValue(ks[i]) == r.value)
    ensures r.None? <==> forall i :: 0 <= i < |ks| ==> !(Contains(lower, ks[i]) && VerifyResolveYear.WordValue(ks[i]) in valid)
  {
    if ks == [] then None
    else if Contains(lower, ks[0]) && VerifyResolveYear.WordValue(ks[0]) in valid then
      Some(VerifyResolveYear.WordValue(ks[0]))
    else
      var r := OldWordYear(lower, valid, ks[1..]);
      assert forall i :: 1 <= i < |ks| ==> ks[i] == ks[1..][i - 1];
      r
  }

  /** The first word of the table that hits decides, however late a longer
      and better-fitting word comes. */
  lemma {:induction false} OldEarlierWordWins(lower: string, valid: seq<string>, ks: seq<string>, i: nat)
    requires i < |ks| && Contains(lower, ks[i]) && VerifyResolveYear.WordValue(ks[i]) in valid
    requires forall j :: 0 <= j < i ==> !(Contains(lower, ks[j]) && VerifyResolveYear.WordValue(ks[j]) in valid)
    ensures OldWordYear(lower, valid, ks) == Some(VerifyResolveYear.WordValue(ks[i]))
  {
    if i > 0 {
      assert forall j :: 0 <= j < i - 1 ==> ks[1..][j] == ks[j + 1];
      OldEarlierWordWins(lower, valid, ks[1..], i - 1);
    }
  }

  /** resolveYear as the service writes it: the specification its method follows. */
  function OldResolveYear(collegeId: string, courseName: string, rawYear: string, read: Result<Option<Json>>): (r: string)
    ensures collegeId == "" || courseName == "" || rawYear == "" ==> r == rawYear
    ensures (collegeId != "" && courseName != "" && rawYear != ""
             && (read.Err? || OldValidYears(read.value, courseName).None?)) ==> r == DigitsOnly(rawYear)
    ensures collegeId != "" && courseName != "" && rawYear != "" && read.Ok? && OldValidYears(read.value, courseName).Some? ==>
      var valid := OldValidYears(read.value, courseName).value;
      var numeric := FirstDigitRun(rawYear);
      r == (if rawYear in valid then rawYear
            else if numeric.Some? && numeric.value in valid then numeric.value
            else match OldWordYear(ToLower(rawYear), valid, VerifyResolveYear.WrittenKeys)
              case Some(v) => v
              case None => if numeric.Some? then numeric.value else rawYear)
  {
    if collegeId == "" || courseName == "" || rawYear == "" then rawYear
    else if read.Err? || OldValidYears(read.value, courseName).None? then DigitsOnly(rawYear)
    else
      var valid := OldValidYears(read.value, courseName).value;
      var numeric := FirstDigitRun(rawYear);
      if rawYear in valid then rawYear
      else if numeric.Some? && numeric.value in valid then numeric.value
      else match OldWordYear(ToLower(rawYear), valid, VerifyResolveYear.WrittenKeys)
        case Some(v) => v
        case None => if numeric.Some? then numeric.value else rawYear
  }

  /** The nested forEach filling `validYears`; false when a department is
      null (reading its years throws). */
  method CollectYears(depts: seq<Json>) returns (ok: bool, validYears: set<string>)
    ensures ok <==> DepartmentYears(depts).Some?
    ensures ok ==> validYears == set y | y in DepartmentYears(depts).value
  {
    validYears := {};
    for i := 0 to |depts|
      invariant DepartmentYears(depts[..i]).Some?
      invariant validYears == set y | y in DepartmentYears(depts[..i]).value
    {
      assert depts[..i + 1][..i] == depts[..i];
      if depts[i] == JNull {
        assert JNull in depts;
        return false, validYears;
      }
      var ys := DeptYears(depts[i]);
      for j := 0 to |ys|
        invariant validYears == (set y | y in DepartmentYears(depts[..i]).value) + (set y | y in ys[..j])
      {
        assert ys[..j + 1] == ys[..j] + [ys[j]];
        validYears := validYears + {ys[j]};
      }
      assert ys[..|ys|] == ys;
    }
    assert depts[..|depts|] == depts;
    ok := true;
  }

  /** The for-of over the word table: the first word contained in the label
      whose year is in the set. */
  method ScanWords(lower: string, valid: seq<string>, validYears: set<string>, keys: seq<string>) returns (r: Option<string>)
    requires validYears == set y | y in valid
    ensures r == OldWordYear(lower, valid, keys)
  {
    for k := 0 to |keys|
      invariant forall j :: 0 <= j < k ==> !(Contains(lower, keys[j]) && VerifyResolveYear.WordValue(keys[j]) in valid)
    {
      var val := VerifyResolveYear.WordValue(keys[k]);
      if Contains(lower, keys[k]) && val in validYears {
        OldEarlierWordWins(lower, valid, keys, k);
        return Some(val);
      }
    }
    r := None;
  }

  /** resolveYear as the service runs it: the year keys are gathered into a
      set department by department, then the word table is scanned in its
      written order. */
  method ResolveYearAsWritten(collegeId: string, courseName: string, rawYear: string, read: Result<Option<Json>>)
    returns (r: string)
    ensures r == OldResolveYear(collegeId, courseName, rawYear, read)
  {
    if collegeId == "" || courseName == "" || rawYear == "" {
      return rawYear;
    }
    if read.Err? {
      return DigitsOnly(rawYear);
    }
    var config := read.value;
    var course := Opt(Opt(config, "courses"), courseName);
    if !Truthy(config) || !Truthy(Opt(config, "courses")) || !Truthy(course) || !Truthy(Opt(course, "departments")) {
      return DigitsOnly(rawYear);
    }
    var ok, validYears := CollectYears(Values(Entries(Opt(course, "departments"))));
    if !ok {
      return DigitsOnly(rawYear);
    }
    var valid := OldValidYears(config, courseName).value;
    if rawYear in validYears {
      return rawYear;
    }
    var numeric := FirstDigitRun(rawYear);
    if numeric.Some? && numeric.value in validYears {
      return numeric.value;
    }
    var word := ScanWords(ToLower(rawYear), valid, validYears, VerifyResolveYear.WrittenKeys);
    if word.Some? {
      return word.value;
    }
    r := if numeric.Some? then numeric.value else rawYear;
  }

  // ---------------------------------------------------------------------------
  // What the written resolveYear does with the two inputs below
  // ---------------------------------------------------------------------------

  /** A configuration in the shape the written resolveYear reads:
      B.Tech → department CSE → years 1 to 4. */
  const OldShapeConfig: Json :=
    JObj([("courses", JObj([
      ("B.Tech", JObj([("departments", JObj([
        ("CSE", JObj([("years", JObj([
          ("1", JObj([])), ("2", JObj([])), ("3", JObj([])), ("4", JObj([]))]))]))]))]))]))])

  lemma OldShapeYears()
    ensures OldValidYears(Some(OldShapeConfig), "B.Tech") == Some(["1", "2", "3", "4"])
  {
    var courses := Opt(Some(OldShapeConfig), "courses");
    assert Find(OldShapeConfig.entries, "courses") == Some(OldShapeConfig.entries[0].1);
    var bt := Opt(courses, "B.Tech");
    assert Find(courses.value.entries, "B.Tech") == Some(courses.value.entries[0].1);
    var depts := Opt(bt, "departments");
    assert Find(bt.value.entries, "departments") == Some(bt.value.entries[0].1);
    assert Values(Entries(depts)) == [depts.value.entries[0].1];
    var cse := depts.value.entries[0].1;
    assert Find(cse.entries, "years") == Some(cse.entries[0].1);
    assert KeysOf(Opt(Some(cse), "years")) == ["1", "2", "3", "4"];
    assert DepartmentYears([cse]) == Some(DeptYears(cse)) by {
      assert [cse][..0] == [];
      assert DepartmentYears([]) == Some([]);
      assert cse != JNull;
      assert [] + DeptYears(cse) == DeptYears(cse);
    }
  }

  /** A label that is not a key and has no digit resolves by the word scan. */
  lemma OldByWord(collegeId: string, courseName: string, rawYear: string, read: Result<Option<Json>>, valid: seq<string>, v: string)
    requires collegeId != "" && courseName != "" && rawYear != ""
    requires read.Ok? && OldValidYears(read.value, courseName) == Some(valid)
    requires rawYear !in valid && FirstDigitRun(rawYear).None?
    requires OldWordYear(ToLower(rawYear), valid, VerifyResolveYear.WrittenKeys) == Some(v)
    ensures OldResolveYear(collegeId, courseName, rawYear, read) == v
  {
  }

  /** A word whose first character does not occur in s is not contained in s. */
  lemma {:induction false} FirstCharAbsent(s: string, w: string)
    requires w != [] && w[0] !in s
    ensures !Contains(s, w)
  {
    if s != [] {
      assert s[0] in s;
      assert s[1..] == s[1..] && forall c :: c in s[1..] ==> c in s;
      FirstCharAbsent(s[1..], w);
    }
  }

  lemma ThirdOldWord()
    ensures OldWordYear(ToLower("Third"), ["1", "2", "3", "4"], VerifyResolveYear.WrittenKeys) == Some("1")
  {
    var lower := ToLower("Third");
    assert lower == "third";
    FirstCharAbsent(lower, "first");
    FirstCharAbsent(lower, "1st");
    assert Contains(lower, "i") by { assert Contains(lower[2..], "i"); }
    var keys := VerifyResolveYear.WrittenKeys;
    var valid := ["1", "2", "3", "4"];
    assert keys[2] == "i" && VerifyResolveYear.WordValue("i") == "1";
    forall j | 0 <= j < 2 ensures !Contains(lower, keys[j]) {
      if j == 0 { assert keys[j] == "first"; } else { assert keys[j] == "1st"; }
    }
    OldEarlierWordWins(lower, valid, keys, 2);
  }

  lemma ThirdIsNoKey(valid: seq<string>)
    requires valid == ["1", "2", "3", "4"]
    ensures "Third" !in valid
  {
    assert forall v :: v in valid ==> |v| == 1;
  }

  /** As written, "Third" contains "i", the third word of the table, so it
      resolves to year 1 although year 3 exists. */
  lemma ThirdReadsAsFirst()
    ensures OldResolveYear("mockId", "B.Tech", "Third", Ok(Some(OldShapeConfig))) == "1"
  {
    var valid := ["1", "2", "3", "4"];
    OldShapeYears();
    VerifyResolveYear.ThirdHasNoDigits();
    ThirdOldWord();
    ThirdIsNoKey(valid);
    OldByWord("mockId", "B.Tech", "Third", Ok(Some(OldShapeConfig)), valid, "1");
  }

  /** A label with no digit keeps nothing when only its digits are kept. */
  lemma NoDigitsLeft(s: string)
    requires FirstDigitRun(s).None?
    ensures DigitsOnly(s) == ""
  {
    if DigitsOnly(s) != "" {
      var c := DigitsOnly(s)[0];
      FilterMembers(s, IsDigit, c);
    }
  }

  /** A configuration saved in the validated shape (course → years) has no
      `departments` under its courses, so the written resolveYear only ever
      keeps the digits of the label. */
  lemma SavedShapeKeepsDigitsOnly(collegeId: string, courseName: string, rawYear: string, config: Option<Json>)
    requires collegeId != "" && courseName != "" && rawYear != ""
    requires !Truthy(Opt(Opt(Opt(config, "courses"), courseName), "departments"))
    ensures OldResolveYear(collegeId, courseName, rawYear, Ok(config)) == DigitsOnly(rawYear)
  {
  }

  /** So "Final Year" on the saved configuration of B.Tech resolves to "". */
  lemma FinalYearLost()
    ensures OldResolveYear("mockId", "B.Tech", VerifyResolveYear.FinalYear, Ok(Some(VerifyResolveYear.MockConfig))) == ""
  {
    var config := Some(VerifyResolveYear.MockConfig);
    var courses := Opt(config, "courses");
    assert Find(config.value.entries, "courses") == Some(config.value.entries[0].1);
    var bt := Opt(courses, "B.Tech");
    assert Find(courses.value.entries, "B.Tech") == Some(courses.value.entries[0].1);
    assert Keys(bt.value.entries) == ["years"];
    assert !Has(bt.value.entries, "departments");
    SavedShapeKeepsDigitsOnly("mockId", "B.Tech", VerifyResolveYear.FinalYear, config);
    VerifyResolveYear.FinalHasNoDigits();
    NoDigitsLeft(VerifyResolveYear.FinalYear);
  }

  // ---------------------------------------------------------------------------
  // addProjectCodes
  // ---------------------------------------------------------------------------

  /** `a || b`. */
  function Or(a: Option<Json>, b: Option<Json>): (r: Option<Json>)
    ensures Truthy(a) ==> r == a
    ensures !Truthy(a) ==> r == b
  {
    if Truthy(a) then a else b
  }

  /** `a || d` with a defined default. */
  function OrElse(a: Option<Json>, d: Json): (r: Json)
    ensures Truthy(a) ==> r == a.value
    ensures !Truthy(a) ==> r == d
  {
    if Truthy(a) then a.value else d
  }

  /** The code an input is deduplicated by: a string is its own code, an
      object gives `item["Project Code"] || item.code || item.rawCode`, any
      other value has none. */
  function DedupeKey(item: Json): (r: Option<Json>)
    ensures item.JStr? ==> r == Some(item)
    ensures !item.JStr? && !item.JObj? ==> r.None?
  {
    if item.JStr? then Some(item)
    else Or(Or(Opt(Some(item), "Project Code"), Opt(Some(item), "code")), Opt(Some(item), "rawCode"))
  }

  /** SameValueZero as a Set compares: primitives by value; two objects or
      arrays read from a JSON file are never the same object. */
  predicate SameKey(a: Json, b: Json)
  {
    !a.JArr? && !a.JObj? && a == b
  }

  /** `===` / Set membership for possibly undefined values. */
  predicate SameOpt(a: Option<Json>, b: Option<Json>)
  {
    (a.None? && b.None?) || (a.Some? && b.Some? && SameKey(a.value, b.value))
  }

  /** `seenCodes.has(k)`. */
  predicate SeenHas(seen: seq<Json>, k: Json)
  {
    exists j :: 0 <= j < |seen| && SameKey(seen[j], k)
  }

  /** The unique inputs: an input is kept when its code is truthy and not the
      code of an input kept before it. */
  function Unique(items: seq<Json>): (r: seq<Json>)
    ensures forall j :: 0 <= j < |r| ==> Truthy(DedupeKey(r[j])) && r[j] in items
    ensures |r| <= |items|
  {
    if items == [] then []
    else
      var u := Unique(items[..|items| - 1]);
      var x := items[|items| - 1];
      var k := DedupeKey(x);
      if Truthy(k) && !SeenHas(CodesOf(u), k.value) then u + [x] else u
  }

  /** The codes of kept inputs. */
  function CodesOf(u: seq<Json>): (r: seq<Json>)
    requires forall j :: 0 <= j < |u| ==> DedupeKey(u[j]).Some?
    ensures |r| == |u| && forall j :: 0 <= j < |u| ==> r[j] == DedupeKey(u[j]).value
  {
    seq(|u|, j requires 0 <= j < |u| => DedupeKey(u[j]).value)
  }

  /** No two of the inputs share a code. */
  predicate DistinctCodes(r: seq<Json>)
  {
    forall i, j :: 0 <= i < j < |r| ==> !SameOpt(DedupeKey(r[i]), DedupeKey(r[j]))
  }

  /** No two kept inputs share a code. */
  lemma {:induction false} UniqueCodesDistinct(items: seq<Json>)
    ensures DistinctCodes(Unique(items))
  {
    if items != [] {
      var init := items[..|items| - 1];
      UniqueCodesDistinct(init);
      var u := Unique(init);
      var x := items[|items| - 1];
      var k := DedupeKey(x);
      if Truthy(k) && !SeenHas(CodesOf(u), k.value) {
        var r := u + [x];
        forall i, j | 0 <= i < j < |r| ensures !SameOpt(DedupeKey(r[i]), DedupeKey(r[j])) {
          assert r[i] == u[i];
          if j == |u| {
            assert r[j] == x;
            assert CodesOf(u)[i] == DedupeKey(r[i]).value;
            assert !SameKey(CodesOf(u)[i], k.value);
          } else {
            assert r[j] == u[j];
          }
        }
        assert Unique(items) == r;
      } else {
        assert Unique(items) == u;
      }
    }
  }

  /** Every input with a truthy code is kept, or an input with the same code was kept. */
  lemma {:induction false} UniqueComplete(items: seq<Json>)
    ensures var r := Unique(items);
      forall i :: 0 <= i < |items| && Truthy(DedupeKey(items[i])) ==>
        items[i] in r || SeenHas(CodesOf(r), DedupeKey(items[i]).value)
  {
    if items != [] {
      var init := items[..|items| - 1];
      UniqueComplete(init);
      var u := Unique(init);
      var r := Unique(items);
      assert forall j :: 0 <= j < |u| ==> u[j] in r && CodesOf(u)[j] == CodesOf(r)[j] by {
        assert r == u || r == u + [items[|items| - 1]];
      }
      forall i | 0 <= i < |items| && Truthy(DedupeKey(items[i]))
        ensures items[i] in r || SeenHas(CodesOf(r), DedupeKey(items[i]).value)
      {
        if i < |items| - 1 {
          assert items[i] == init[i];
          if !(items[i] in u) {
            var j :| 0 <= j < |CodesOf(u)| && SameKey(CodesOf(u)[j], DedupeKey(items[i]).value);
            assert SameKey(CodesOf(r)[j], DedupeKey(items[i]).value);
          }
        }
      }
    }
  }

  /** The fields the import format names: `S.No`, `Name`, `College Code`,
      `Course`, `Year`, `Training Type`, `Passing Year`. */
  datatype Meta = Meta(serialNumber: Option<Json>, collegeName: Option<Json>, collegeCode: Option<Json>,
                       course: Option<Json>, year: Option<Json>, kind: Option<Json>, academicYear: Option<Json>)

  const NoMeta := Meta(None, None, None, None, None, None, None)

  /** An input as the loop reads it: a string is parsed; an object with a
      truthy "Project Code" is taken field by field from its metadata;
      any other object has its `"Project Code" || code` parsed. */
  function ReadInput(input: Json): (r: Result<(Code, Meta)>)
    ensures input.JStr? ==> ParseProjectCode(Some(input)).Ok? && r == Ok((ParseProjectCode(Some(input)).value, NoMeta))
    ensures !input.JStr? && Truthy(Opt(Some(input), "Project Code")) ==>
      r.Ok? && r.value.0.status == Parsed && r.value.0.rawCode == Opt(Some(input), "Project Code")
  {
    if input.JStr? then
      match ParseProjectCode(Some(input))
      case Ok(c) => Ok((c, NoMeta))
      case Err(e) => Err(e)
    else
      var o := Some(input);
      var rawCode := Or(Opt(o, "Project Code"), Opt(o, "code"));
      if Truthy(Opt(o, "Project Code")) then
        var m := Meta(Opt(o, "S.No"), Opt(o, "Name"), Opt(o, "College Code"), Opt(o, "Course"),
                      Opt(o, "Year"), Opt(o, "Training Type"), Opt(o, "Passing Year"));
        Ok((Code(rawCode, Parsed, None, m.collegeCode, m.course, m.year, m.kind, m.academicYear), m))
      else
        match ParseProjectCode(rawCode)
        case Ok(c) => Ok((c, NoMeta))
        case Err(e) => Err(e)
  }

  /** The service's own resolveYear called with the course as resolved: a
      falsy course or year keeps the year; a year that is not a string has
      no `replace` (nor `match`) and throws, in the try and again in the
      catch; otherwise the year as OldResolveYear resolves it, reading the
      course's departments. */
  function ResolveYearValue(collegeId: string, course: Json, year: Json, read: Result<Option<Json>>): (r: Result<Json>)
    requires !Truthy(Some(course)) || course.JStr?
    ensures collegeId == "" || !Truthy(Some(course)) || !Truthy(Some(year)) ==> r == Ok(year)
    ensures collegeId != "" && Truthy(Some(course)) && Truthy(Some(year)) ==>
      (r.Ok? <==> year.JStr?) && (r.Ok? ==> r == Ok(JStr(OldResolveYear(collegeId, course.s, year.s, read))))
  {
    if collegeId == "" || !Truthy(Some(course)) || !Truthy(Some(year)) then Ok(year)
    else if !year.JStr? then Err(TypeError)
    else Ok(JStr(OldResolveYear(collegeId, course.s, year.s, read)))
  }

  /** One processed input: the fields written for it. */
  datatype Item = Item(
    rawCode: Option<Json>, status: Status, matched: bool, collegeId: Option<Json>,
    collegeName: Json, collegeCode: Json, course: Json, year: Json, kind: Option<Json>,
    academicYear: Json, serialNumber: Option<Json>)

  /** The loop body of addProjectCodes for one unique input: read, match,
      merge with the metadata (`matched.x || rawMetadata.x || ''`), and for
      a matched college resolve course and year. configOf is the outcome of
      reading a college's academic configuration. */
  function ProcessItem(input: Json, colleges: seq<College>, configOf: string -> Result<Option<Json>>): (r: Result<Item>)
    ensures r.Ok? ==> (ReadInput(input).Ok? && r.value.rawCode == ReadInput(input).value.0.rawCode
                       && r.value.status == ReadInput(input).value.0.status)
    ensures r.Ok? && !r.value.matched ==> r.value.course == OrElse(Or(ReadInput(input).value.0.course, ReadInput(input).value.1.course), JStr(""))
  {
    match ReadInput(input)
    case Err(e) => Err(e)
    case Ok((code, meta)) =>
      match MatchCollege(code, colleges)
      case Err(e) => Err(e)
      case Ok(m) =>
        var collegeName := OrElse(Or(m.collegeName, meta.collegeName), JStr(""));
        var collegeCode := OrElse(Or(code.collegeCode, meta.collegeCode), JStr(""));
        var course := OrElse(Or(code.course, meta.course), JStr(""));
        var year := OrElse(Or(code.year, meta.year), JStr(""));
        var academicYear := OrElse(Or(code.academicYear, meta.academicYear), JStr(""));
        var item := Item(code.rawCode, code.status, m.matched, m.collegeId, collegeName, collegeCode,
                         course, year, code.kind, academicYear, meta.serialNumber);
        if m.matched && Truthy(m.collegeId) && m.collegeId.value.JStr? then
          var id := m.collegeId.value.s;
          match ResolveCourseName(id, course, configOf(id))
          case Err(e) => Err(e)
          case Ok(c) =>
            match ResolveYearValue(id, c, year, configOf(id))
            case Err(e) => Err(e)
            case Ok(y) => Ok(item.(course := c, year := y))
        else Ok(item)
  }

  /** The outcomes of a loop that stops at the first failure: all values
      in order, or the first error. */
  function Collect<T>(rs: seq<Result<T>>): (r: Result<seq<T>>)
    ensures r.Ok? ==> (|r.value| == |rs| && forall i :: 0 <= i < |rs| ==> rs[i] == Ok(r.value[i]))
    ensures r.Err? <==> exists i :: 0 <= i < |rs| && rs[i].Err?
  {
    if rs == [] then Ok([])
    else
      var init := rs[..|rs| - 1];
      assert forall i :: 0 <= i < |rs| - 1 ==> init[i] == rs[i];
      match Collect(init)
      case Err(e) => Err(e)
      case Ok(ps) =>
        match rs[|rs| - 1]
        case Err(e) => Err(e)
        case Ok(p) => Ok(ps + [p])
  }

  /** The processed list: one item per unique input, in order, or the error
      of the first input whose processing throws. */
  function ProcessAll(us: seq<Json>, colleges: seq<College>, configOf: string -> Result<Option<Json>>): (r: Result<seq<Item>>)
  {
    Collect(Map(us, Processor(colleges, configOf)))
  }

  /** The loop body as a function of the input. */
  function Processor(colleges: seq<College>, configOf: string -> Result<Option<Json>>): Json -> Result<Item>
  {
    (x: Json) => ProcessItem(x, colleges, configOf)
  }

  /** The document written for an item. */
  datatype StoredDoc = StoredDoc(
    code: Option<Json>, serialNumber: Json, collegeCode: Json, collegeId: Json, collegeName: Json,
    course: Json, year: Json, kind: Json, academicYear: Json, parseStatus: Status, matched: bool)

  function ToDoc(item: Item): (d: StoredDoc)
    ensures d.code == item.rawCode && d.parseStatus == item.status && d.matched == item.matched
  {
    StoredDoc(item.rawCode, OrElse(item.serialNumber, JNull), OrElse(Some(item.collegeCode), JStr("")),
              OrElse(item.collegeId, JNull), OrElse(Some(item.collegeName), JStr("")),
              OrElse(Some(item.course), JStr("")), OrElse(Some(item.year), JStr("")),
              OrElse(item.kind, JStr("")), OrElse(Some(item.academicYear), JStr("")),
              item.status, item.matched)
  }

  /** `existingCodes.has(code)`. */
  predicate Stored(existing: seq<Option<Json>>, code: Option<Json>)
  {
    exists j :: 0 <= j < |existing| && SameOpt(existing[j], code)
  }

  /** The processed items whose raw code is not among the stored codes. */
  function NewItems(processed: seq<Item>, existing: seq<Option<Json>>): (r: seq<Item>)
    ensures |r| <= |processed|
    ensures forall i :: 0 <= i < |r| ==> r[i] in processed && !Stored(existing, r[i].rawCode)
    ensures forall x :: x in processed && !Stored(existing, x.rawCode) ==> x in r
  {
    if processed == [] then []
    else
      var rest := NewItems(processed[1..], existing);
      assert forall x :: x in processed[1..] ==> x in processed;
      assert forall x :: x in processed ==> x == processed[0] || x in processed[1..];
      if Stored(existing, processed[0].rawCode) then rest else [processed[0]] + rest
  }

  datatype Outcome = Outcome(added: nat, skipped: nat, written: seq<StoredDoc>)

  /** addProjectCodes: deduplicate the inputs, process each unique input
      (any throw aborts the call), drop the items whose raw code is already
      stored, and write one document per remaining item. existing holds the
      codes of the stored documents. */
  method AddProjectCodes(inputCodes: seq<Json>, colleges: seq<College>, configOf: string -> Result<Option<Json>>,
                         existing: seq<Option<Json>>) returns (r: Result<Outcome>)
    ensures r.Err? <==> ProcessAll(Unique(inputCodes), colleges, configOf).Err?
    ensures r.Ok? ==>
      var news := NewItems(ProcessAll(Unique(inputCodes), colleges, configOf).value, existing);
      r.value.written == Map(news, ToDoc) && r.value.added == |news|
      && r.value.added + r.value.skipped == |Unique(inputCodes)|
  {
    var uniqueInputs := DedupeInputs(inputCodes);
    var all := ProcessEach(uniqueInputs, Processor(colleges, configOf));
    if all.Err? {
      return Err(all.msg);
    }
    var processed := all.value;
    var newDocs := NewItems(processed, existing);
    if |newDocs| == 0 {
      return Ok(Outcome(0, |processed|, []));
    }
    var written, count := WriteDocs(newDocs);
    r := Ok(Outcome(count, |processed| - count, written));
  }

  /** The batch: one document per new item, counted. */
  method WriteDocs(newDocs: seq<Item>) returns (written: seq<StoredDoc>, count: nat)
    ensures written == Map(newDocs, ToDoc) && count == |newDocs|
  {
    written := [];
    count := 0;
    for k := 0 to |newDocs|
      invariant count == k && written == Map(newDocs[..k], ToDoc)
    {
      written := written + [ToDoc(newDocs[k])];
      count := count + 1;
    }
    assert newDocs[..|newDocs|] == newDocs;
  }

  /** The second loop of addProjectCodes: each unique input processed in
      turn, the first throw ending the loop. */
  method ProcessEach(uniqueInputs: seq<Json>, process: Json -> Result<Item>) returns (r: Result<seq<Item>>)
    ensures r == Collect(Map(uniqueInputs, process))
  {
    var processed: seq<Item> := [];
    for i := 0 to |uniqueInputs|
      invariant |processed| == i
      invariant forall j :: 0 <= j < i ==> process(uniqueInputs[j]) == Ok(processed[j])
    {
      var item := process(uniqueInputs[i]);
      if item.Err? {
        var rs := Map(uniqueInputs, process);
        assert rs[i].Err?;
        var first := Collect(rs);
        assert first.Err?;
        // The error returned is the first one: every earlier input succeeded.
        FirstErrorWins(rs, i);
        return Err(item.msg);
      }
      processed := processed + [item.value];
    }
    var all := Collect(Map(uniqueInputs, process));
    assert all.Ok?;
    assert |all.value| == |processed|;
    assert forall j :: 0 <= j < |processed| ==> all.value[j] == processed[j];
    assert all.value == processed;
    r := Ok(processed);
  }

  /** Collect reports the error of the first failing outcome. */
  lemma {:induction false} FirstErrorWins<T>(rs: seq<Result<T>>, i: nat)
    requires i < |rs| && rs[i].Err? && forall j :: 0 <= j < i ==> rs[j].Ok?
    ensures Collect(rs) == Err(rs[i].msg)
  {
    var init := rs[..|rs| - 1];
    if i < |rs| - 1 {
      FirstErrorWins(init, i);
    } else {
      assert Collect(init).Ok?;
    }
  }

  /** The first loop of addProjectCodes: `seenCodes` and `uniqueInputs`. */
  method DedupeInputs(inputCodes: seq<Json>) returns (uniqueInputs: seq<Json>)
    ensures uniqueInputs == Unique(inputCodes)
  {
    var seenCodes: seq<Json> := [];
    uniqueInputs := [];
    for i := 0 to |inputCodes|
      invariant uniqueInputs == Unique(inputCodes[..i])
      invariant seenCodes == CodesOf(uniqueInputs)
    {
      assert inputCodes[..i + 1][..i] == inputCodes[..i];
      var item := inputCodes[i];
      var code := DedupeKey(item);
      if Truthy(code) && !SeenHas(seenCodes, code.value) {
        seenCodes := seenCodes + [code.value];
        uniqueInputs := uniqueInputs + [item];
      }
    }
    assert inputCodes[..|inputCodes|] == inputCodes;
  }

  /** No two items carry the same raw code. */
  predicate CodesApart(items: seq<Item>)
  {
    forall i, j :: 0 <= i < j < |items| && items[i].rawCode.Some? && items[j].rawCode.Some? ==>
      !SameOpt(items[i].rawCode, items[j].rawCode)
  }

  /** A processed input that has a raw code has its deduplication code as raw code. */
  lemma RawCodeIsKey(x: Json, colleges: seq<College>, configOf: string -> Result<Option<Json>>)
    requires ProcessItem(x, colleges, configOf).Ok? && ProcessItem(x, colleges, configOf).value.rawCode.Some?
    ensures ProcessItem(x, colleges, configOf).value.rawCode == DedupeKey(x)
  {
  }

  lemma {:induction false} NewItemsApart(ps: seq<Item>, existing: seq<Option<Json>>)
    requires CodesApart(ps)
    ensures CodesApart(NewItems(ps, existing))
  {
    if ps != [] {
      assert CodesApart(ps[1..]) by {
        forall i, j | 0 <= i < j < |ps[1..]| ensures ps[1..][i] == ps[i + 1] && ps[1..][j] == ps[j + 1] {}
      }
      NewItemsApart(ps[1..], existing);
      var rest := NewItems(ps[1..], existing);
      if !Stored(existing, ps[0].rawCode) {
        var r := [ps[0]] + rest;
        forall i, j | 0 <= i < j < |r| && r[i].rawCode.Some? && r[j].rawCode.Some?
          ensures !SameOpt(r[i].rawCode, r[j].rawCode)
        {
          if i == 0 {
            assert r[j] in ps[1..];
            var k :| 0 <= k < |ps[1..]| && ps[1..][k] == r[j];
            assert ps[k + 1] == r[j];
          } else {
            assert r[i] == rest[i - 1] && r[j] == rest[j - 1];
          }
        }
      }
    }
  }

  /** What a successful call writes: only codes not stored before, each raw
      code at most once, one document per new item, and every unique input
      counted as added or skipped. */
  lemma WrittenCodesAreNew(inputCodes: seq<Json>, colleges: seq<College>, configOf: string -> Result<Option<Json>>,
                           existing: seq<Option<Json>>)
    requires ProcessAll(Unique(inputCodes), colleges, configOf).Ok?
    ensures var news := NewItems(ProcessAll(Unique(inputCodes), colleges, configOf).value, existing);
      var written := Map(news, ToDoc);
      (forall i :: 0 <= i < |written| ==> !Stored(existing, written[i].code))
      && (forall i, j :: 0 <= i < j < |written| && written[i].code.Some? && written[j].code.Some? ==>
            !SameOpt(written[i].code, written[j].code))
  {
    var us := Unique(inputCodes);
    var ps := ProcessAll(us, colleges, configOf).value;
    UniqueCodesDistinct(inputCodes);
    assert CodesApart(ps) by {
      forall i, j | 0 <= i < j < |ps| && ps[i].rawCode.Some? && ps[j].rawCode.Some?
        ensures !SameOpt(ps[i].rawCode, ps[j].rawCode)
      {
        assert Map(us, Processor(colleges, configOf))[i] == Ok(ps[i]);
        assert Map(us, Processor(colleges, configOf))[j] == Ok(ps[j]);
        RawCodeIsKey(us[i], colleges, configOf);
        RawCodeIsKey(us[j], colleges, configOf);
      }
    }
    NewItemsApart(ps, existing);
  }
}
