/** The year resolution of verify_resolve_year.js, written for the academic
    structure course → year → department → batch: a raw year label ("4th",
    "Final Year", "II") becomes a year key of the course by trying the exact
    key, then its first run of digits, then the year words longest first as
    whole words, and otherwise falls back to the digits or the label itself.
    The script's own table of expected outputs is proved at the end. */
module VerifyResolveYear {
  import opened Common
  import opened OrderedMap
  import opened Json

  // ---------------------------------------------------------------------------
  // The word table and its longest-first order
  // ---------------------------------------------------------------------------

  /** The year words in the order the table writes them. */
  const WrittenKeys: seq<string> :=
    ["first", "1st", "i", "second", "2nd", "ii", "third", "3rd", "iii", "fourth", "4th", "iv", "final"]

  /** The year key a word of the table stands for ("" for any other word). */
  function WordValue(key: string): string
  {
    if key == "first" || key == "1st" || key == "i" then "1"
    else if key == "second" || key == "2nd" || key == "ii" then "2"
    else if key == "third" || key == "3rd" || key == "iii" then "3"
    else if key == "fourth" || key == "4th" || key == "iv" || key == "final" then "4"
    else ""
  }

  function Len(k: string): int { |k| }

  /** `Object.keys(map).sort((a, b) => b.length - a.length)`. */
  const LongestFirst: seq<string> :=
    ["second", "fourth", "first", "third", "final",
     "1st", "2nd", "3rd", "iii", "4th", "ii", "iv", "i"]

  /** Where each entry of LongestFirst stands in the written table. */
  const SortedFrom: seq<nat> := [3, 9, 0, 6, 12, 1, 4, 7, 8, 10, 5, 11, 2]

  /** Non-increasing neighbours make a sequence non-increasing. */
  lemma {:induction false} NeighboursDesc(s: seq<string>)
    requires forall i :: 0 <= i < |s| - 1 ==> Len(s[i]) >= Len(s[i + 1])
    ensures SortedDesc(s, Len)
  {
    if |s| > 1 {
      NeighboursDesc(s[1..]);
      assert forall i :: 0 <= i < |s| - 1 ==> s[1..][i] == s[i + 1];
      forall i, j | 0 <= i < j < |s| ensures Len(s[i]) >= Len(s[j]) {
        if i > 0 { assert s[i] == s[1..][i - 1] && s[j] == s[1..][j - 1]; }
        else if j > 1 { assert s[1] == s[1..][0] && s[j] == s[1..][j - 1]; }
      }
    }
  }

  /** In a sequence sorted by descending length, keys of one length sit next
      to each other, so an order that increases between equal-length
      neighbours increases between any two keys of one length. */
  lemma {:induction false} TiesKeepOrder(s: seq<string>, pos: seq<nat>)
    requires |pos| == |s| && SortedDesc(s, Len)
    requires forall i :: 0 <= i < |s| - 1 && Len(s[i]) == Len(s[i + 1]) ==> pos[i] < pos[i + 1]
    ensures forall i, j :: 0 <= i < j < |s| && Len(s[i]) == Len(s[j]) ==> pos[i] < pos[j]
  {
    forall i, j | 0 <= i < j < |s| && Len(s[i]) == Len(s[j]) ensures pos[i] < pos[j] {
      var k := i;
      while k < j
        invariant i <= k <= j && pos[i] <= pos[k] && (k > i ==> pos[i] < pos[k])
      {
        assert Len(s[i]) >= Len(s[k]) >= Len(s[k + 1]) >= Len(s[j]);
        k := k + 1;
      }
    }
  }

  /** Each entry of LongestFirst is the written key at its SortedFrom position. */
  lemma SortedFromPositions()
    ensures |SortedFrom| == |LongestFirst| == |WrittenKeys|
    ensures forall i :: 0 <= i < |SortedFrom| ==> SortedFrom[i] < |WrittenKeys| && LongestFirst[i] == WrittenKeys[SortedFrom[i]]
  {
    assert LongestFirst[0] == WrittenKeys[3] && LongestFirst[1] == WrittenKeys[9];
    assert LongestFirst[2] == WrittenKeys[0] && LongestFirst[3] == WrittenKeys[6];
    assert LongestFirst[4] == WrittenKeys[12] && LongestFirst[5] == WrittenKeys[1];
    assert LongestFirst[6] == WrittenKeys[4] && LongestFirst[7] == WrittenKeys[7];
    assert LongestFirst[8] == WrittenKeys[8] && LongestFirst[9] == WrittenKeys[10];
    assert LongestFirst[10] == WrittenKeys[5] && LongestFirst[11] == WrittenKeys[11];
    assert LongestFirst[12] == WrittenKeys[2];
  }

  /** Every written position is taken by some entry. */
  lemma SortedFromCovers()
    ensures forall k :: 0 <= k < |WrittenKeys| ==> k in SortedFrom
  {
    forall k | 0 <= k < |WrittenKeys| ensures k in SortedFrom {
      if k == 0 { assert SortedFrom[2] == k; }
      else if k == 1 { assert SortedFrom[5] == k; }
      else if k == 2 { assert SortedFrom[12] == k; }
      else if k == 3 { assert SortedFrom[0] == k; }
      else if k == 4 { assert SortedFrom[6] == k; }
      else if k == 5 { assert SortedFrom[10] == k; }
      else if k == 6 { assert SortedFrom[3] == k; }
      else if k == 7 { assert SortedFrom[7] == k; }
      else if k == 8 { assert SortedFrom[8] == k; }
      else if k == 9 { assert SortedFrom[1] == k; }
      else if k == 10 { assert SortedFrom[9] == k; }
      else if k == 11 { assert SortedFrom[11] == k; }
      else { assert SortedFrom[4] == k; }
    }
  }

  /** The lengths of LongestFirst, entry by entry. */
  lemma LongestFirstLengths()
    ensures forall i :: 0 <= i < |LongestFirst| ==> Len(LongestFirst[i]) == [6, 6, 5, 5, 5, 3, 3, 3, 3, 3, 2, 2, 1][i]
  {
    assert |LongestFirst[0]| == 6;
    assert |LongestFirst[1]| == 6;
    assert |LongestFirst[2]| == 5;
    assert |LongestFirst[3]| == 5;
    assert |LongestFirst[4]| == 5;
    assert |LongestFirst[5]| == 3;
    assert |LongestFirst[6]| == 3;
    assert |LongestFirst[7]| == 3;
    assert |LongestFirst[8]| == 3;
    assert |LongestFirst[9]| == 3;
    assert |LongestFirst[10]| == 2;
    assert |LongestFirst[11]| == 2;
    assert |LongestFirst[12]| == 1;
  }

  /** LongestFirst is the stable descending-length sort of the written keys:
      it rearranges them (SortedFrom maps it onto all their positions),
      longest first, and keys of one length keep their written order, as the
      stable `Array.prototype.sort` leaves them. */
  lemma LongestFirstIsStableSort()
    ensures |SortedFrom| == |LongestFirst| == |WrittenKeys|
    ensures forall i :: 0 <= i < |SortedFrom| ==> SortedFrom[i] < |WrittenKeys| && LongestFirst[i] == WrittenKeys[SortedFrom[i]]
    ensures forall k :: 0 <= k < |WrittenKeys| ==> k in SortedFrom
    ensures SortedDesc(LongestFirst, Len)
    ensures forall i, j :: 0 <= i < j < |LongestFirst| && Len(LongestFirst[i]) == Len(LongestFirst[j]) ==> SortedFrom[i] < SortedFrom[j]
  {
    SortedFromPositions();
    SortedFromCovers();
    LongestFirstNeighbours();
    NeighboursDesc(LongestFirst);
    TiesKeepOrder(LongestFirst, SortedFrom);
  }

  /** Neighbouring entries of LongestFirst do not grow in length, and
      neighbours of one length keep their written order. */
  lemma LongestFirstNeighbours()
    ensures forall i :: 0 <= i < |LongestFirst| - 1 ==> Len(LongestFirst[i]) >= Len(LongestFirst[i + 1])
    ensures forall i :: 0 <= i < |LongestFirst| - 1 && Len(LongestFirst[i]) == Len(LongestFirst[i + 1]) ==>
              SortedFrom[i] < SortedFrom[i + 1]
  {
    LongestFirstLengths();
  }

  // ---------------------------------------------------------------------------
  // Whole-word matching (`new RegExp('\\b' + key + '\\b', 'i').test(s)`)
  // ---------------------------------------------------------------------------

  /** A character of `\w`. */
  predicate IsWordChar(c: char)
  {
    'a' <= c <= 'z' || 'A' <= c <= 'Z' || IsDigit(c) || c == '_'
  }

  /** key occurs in s at p with no word character right before or right after. */
  predicate WordAt(s: string, key: string, p: nat)
  {
    p + |key| <= |s| && s[p..p + |key|] == key
    && (p == 0 || !IsWordChar(s[p - 1]))
    && (p + |key| == |s| || !IsWordChar(s[p + |key|]))
  }

  /** Some position at or after p holds key as a whole word. */
  predicate WordFrom(s: string, key: string, p: nat)
    decreases |s| - p
  {
    p + |key| <= |s| && (WordAt(s, key, p) || WordFrom(s, key, p + 1))
  }

  /** The case-insensitive whole-word test of a lower-case key. */
  predicate HasWord(s: string, key: string)
  {
    WordFrom(ToLower(s), key, 0)
  }

  /** The scan finds a whole-word occurrence exactly when there is one at or after p. */
  lemma {:induction false} WordFromIff(s: string, key: string, p: nat)
    ensures WordFrom(s, key, p) <==> exists q: nat :: p <= q && WordAt(s, key, q)
    decreases |s| - p
  {
    if p + |key| <= |s| {
      WordFromIff(s, key, p + 1);
      if exists q: nat :: p <= q && WordAt(s, key, q) {
        var q: nat :| p <= q && WordAt(s, key, q);
        if q != p { assert p + 1 <= q; }
      }
    } else {
      forall q: nat | p <= q ensures !WordAt(s, key, q) {
        assert q + |key| > |s|;
      }
    }
  }

  /** The first key of ks (in that order) that occurs in s as a whole word
      and whose year is a valid key; None when there is none. */
  function WordYear(s: string, valid: seq<string>, ks: seq<string>): (r: Option<string>)
    ensures r.Some? ==> r.value in valid && exists i :: 0 <= i < |ks| && HasWord(s, ks[i]) && WordValue(ks[i]) == r.value
    ensures r.None? <==> forall i :: 0 <= i < |ks| ==> !(HasWord(s, ks[i]) && WordValue(ks[i]) in valid)
  {
    if ks == [] then None
    else if HasWord(s, ks[0]) && WordValue(ks[0]) in valid then Some(WordValue(ks[0]))
    else
      var r := WordYear(s, valid, ks[1..]);
      assert forall i :: 1 <= i < |ks| ==> ks[i] == ks[1..][i - 1];
      r
  }

  /** An earlier key of the scan that hits decides the result: a longer
      word such as "iii" is preferred to "i" whenever both are whole words. */
  lemma {:induction false} EarlierKeyWins(s: string, valid: seq<string>, ks: seq<string>, i: nat)
    requires i < |ks| && HasWord(s, ks[i]) && WordValue(ks[i]) in valid
    requires forall j :: 0 <= j < i ==> !(HasWord(s, ks[j]) && WordValue(ks[j]) in valid)
    ensures WordYear(s, valid, ks) == Some(WordValue(ks[i]))
  {
    if i > 0 {
      assert forall j :: 0 <= j < i - 1 ==> ks[1..][j] == ks[j + 1];
      EarlierKeyWins(s, valid, ks[1..], i - 1);
    }
  }

  // ---------------------------------------------------------------------------
  // resolveYear
  // ---------------------------------------------------------------------------

  /** The year keys of the course in the stored configuration, when the
      configuration, its courses, the course and its years are all present. */
  function CourseYears(config: Option<Json>, courseName: string): (r: Option<seq<string>>)
    ensures r.Some? ==> Truthy(Opt(Opt(Opt(config, "courses"), courseName), "years"))
    ensures r.Some? ==> r.value == KeysOf(Opt(Opt(Opt(config, "courses"), courseName), "years"))
  {
    var course := Opt(Opt(config, "courses"), courseName);
    if !Truthy(config) || !Truthy(Opt(config, "courses")) || !Truthy(course) then None
    else if !Truthy(Opt(course, "years")) then None
    else Some(KeysOf(Opt(course, "years")))
  }

  /** The attempt after the exact key and the digit run: the longest year
      word whose year is a key, else the digit run, else the label. */
  function Fallback(rawYear: string, valid: seq<string>): string
  {
    match WordYear(rawYear, valid, LongestFirst)
    case Some(v) => v
    case None => if FirstDigitRun(rawYear).Some? then FirstDigitRun(rawYear).value else rawYear
  }

  /** resolveYear: read is the outcome of reading the college's configuration
      (Err when the read throws). */
  function ResolveYear(collegeId: string, courseName: string, rawYear: string, read: Result<Option<Json>>): (r: string)
    ensures collegeId == "" || courseName == "" || rawYear == "" ==> r == rawYear
    ensures collegeId != "" && courseName != "" && rawYear != "" && (read.Err? || CourseYears(read.value, courseName).None?) ==>
              r == DigitsOnly(rawYear)
    ensures collegeId != "" && courseName != "" && rawYear != "" && read.Ok? && CourseYears(read.value, courseName).Some? ==>
              var valid := CourseYears(read.value, courseName).value;
              var numeric := FirstDigitRun(rawYear);
              (rawYear in valid ==> r == rawYear)
              && (rawYear !in valid && numeric.Some? && numeric.value in valid ==> r == numeric.value)
              && (rawYear !in valid && (numeric.None? || numeric.value !in valid) ==> r == Fallback(rawYear, valid))
  {
    if collegeId == "" || courseName == "" || rawYear == "" then rawYear
    else if read.Err? then DigitsOnly(rawYear)
    else match CourseYears(read.value, courseName)
      case None => DigitsOnly(rawYear)
      case Some(valid) =>
        if rawYear in valid then rawYear
        else
          var numeric := FirstDigitRun(rawYear);
          if numeric.Some? && numeric.value in valid then numeric.value
          else Fallback(rawYear, valid)
  }

  /** Whatever the route, the result is a year key of the course, the label
      itself, or its first run of digits. */
  lemma ResolvedIsKeyLabelOrDigits(collegeId: string, courseName: string, rawYear: string, read: Result<Option<Json>>)
    requires rawYear != "" && read.Ok? && CourseYears(read.value, courseName).Some?
    ensures var r := ResolveYear(collegeId, courseName, rawYear, read);
            r in CourseYears(read.value, courseName).value || r == rawYear || Some(r) == FirstDigitRun(rawYear)
  {
  }

  // ---------------------------------------------------------------------------
  // The script's test table
  // ---------------------------------------------------------------------------

  /** The configuration the script reads: B.Tech with years 1-4, M.Tech with years 1-2. */
  const MockConfig: Json :=
    JObj([("courses", JObj([
      ("B.Tech", JObj([("years", JObj([
        ("1", JObj([("departments", JObj([]))])),
        ("2", JObj([("departments", JObj([]))])),
        ("3", JObj([("departments", JObj([]))])),
        ("4", JObj([("departments", JObj([]))]))]))])),
      ("M.Tech", JObj([("years", JObj([
        ("1", JObj([])),
        ("2", JObj([]))]))]))]))])

  lemma MockYears()
    ensures CourseYears(Some(MockConfig), "B.Tech") == Some(["1", "2", "3", "4"])
    ensures CourseYears(Some(MockConfig), "M.Tech") == Some(["1", "2"])
  {
    var courses := Opt(Some(MockConfig), "courses");
    assert Keys(MockConfig.entries) == ["courses"];
    assert Find(MockConfig.entries, "courses") == Some(MockConfig.entries[0].1);
    var bt := Opt(courses, "B.Tech");
    assert Keys(courses.value.entries) == ["B.Tech", "M.Tech"];
    assert Find(courses.value.entries, "B.Tech") == Some(courses.value.entries[0].1);
    assert Keys(bt.value.entries) == ["years"];
    assert Find(bt.value.entries, "years") == Some(bt.value.entries[0].1);
    assert Keys(Opt(bt, "years").value.entries) == ["1", "2", "3", "4"];
    var mt := Opt(courses, "M.Tech");
    assert Find(courses.value.entries, "M.Tech") == Some(courses.value.entries[1].1);
    assert Keys(mt.value.entries) == ["years"];
    assert Find(mt.value.entries, "years") == Some(mt.value.entries[0].1);
    assert Keys(Opt(mt, "years").value.entries) == ["1", "2"];
  }

  /** When neither the label nor its digits are keys, the fallback decides. */
  lemma ByFallback(collegeId: string, courseName: string, rawYear: string, read: Result<Option<Json>>, valid: seq<string>)
    requires collegeId != "" && courseName != "" && rawYear != ""
    requires read.Ok? && CourseYears(read.value, courseName) == Some(valid)
    requires rawYear !in valid && (FirstDigitRun(rawYear).None? || FirstDigitRun(rawYear).value !in valid)
    ensures ResolveYear(collegeId, courseName, rawYear, read) == Fallback(rawYear, valid)
  {
  }

  /** When the label is not a key but its digit run is, the digit run is the year. */
  lemma ByDigitRun(collegeId: string, courseName: string, rawYear: string, read: Result<Option<Json>>, valid: seq<string>, d: string)
    requires collegeId != "" && courseName != "" && rawYear != ""
    requires read.Ok? && CourseYears(read.value, courseName) == Some(valid)
    requires rawYear !in valid && FirstDigitRun(rawYear) == Some(d) && d in valid
    ensures ResolveYear(collegeId, courseName, rawYear, read) == d
  {
  }

  /** A label of other than one character is none of the mock years. */
  lemma NotYearKey(s: string)
    requires |s| != 1
    ensures s !in ["1", "2", "3", "4"] && s !in ["1", "2"]
  {
  }

  /** '1' → '1' on B.Tech: an exact key. */
  lemma TestExactKey()
    ensures ResolveYear("mockId", "B.Tech", "1", Ok(Some(MockConfig))) == "1"
  {
    MockYears();
  }

  /** '4th' → '4' on B.Tech: the digit run is a key. */
  lemma TestFourth()
    ensures ResolveYear("mockId", "B.Tech", "4th", Ok(Some(MockConfig))) == "4"
  {
    MockYears();
    assert DigitPrefix("th") == [];
    assert DigitPrefix("4th") == "4";
    assert FirstDigitRun("4th") == Some("4");
    NotYearKey("4th");
    ByDigitRun("mockId", "B.Tech", "4th", Ok(Some(MockConfig)), ["1", "2", "3", "4"], "4");
  }

  /** 'Year 2' → '2' on B.Tech. */
  lemma TestYearTwo()
    ensures ResolveYear("mockId", "B.Tech", "Year 2", Ok(Some(MockConfig))) == "2"
  {
    MockYears();
    assert DigitPrefix("2") == "2";
    assert FirstDigitRun("2") == Some("2");
    assert FirstDigitRun(" 2") == Some("2");
    assert FirstDigitRun("r 2") == Some("2");
    assert FirstDigitRun("ar 2") == Some("2");
    assert FirstDigitRun("ear 2") == Some("2");
    assert FirstDigitRun("Year 2") == Some("2");
    NotYearKey("Year 2");
    ByDigitRun("mockId", "B.Tech", "Year 2", Ok(Some(MockConfig)), ["1", "2", "3", "4"], "2");
  }

  /** '1st' → '1' on M.Tech. */
  lemma TestFirstMTech()
    ensures ResolveYear("mockId", "M.Tech", "1st", Ok(Some(MockConfig))) == "1"
  {
    MockYears();
    assert DigitPrefix("st") == [];
    assert DigitPrefix("1st") == "1";
    assert FirstDigitRun("1st") == Some("1");
    NotYearKey("1st");
    ByDigitRun("mockId", "M.Tech", "1st", Ok(Some(MockConfig)), ["1", "2"], "1");
  }

  /** Stepping over positions that do not hold the key's first character. */
  lemma {:induction false} SkipFrom(s: string, key: string, p: nat, q: nat)
    requires p <= q <= |s| && key != [] && key[0] !in s[p..q]
    ensures WordFrom(s, key, p) ==> WordFrom(s, key, q)
    decreases q - p
  {
    if p < q && WordFrom(s, key, p) {
      assert s[p] in s[p..q];
      assert !WordAt(s, key, p);
      assert s[p + 1..q] == s[p..q][1..];
      SkipFrom(s, key, p + 1, q);
    }
  }

  /** A key whose first character is not in s from p on is not a word there. */
  lemma NoWordFrom(s: string, key: string, p: nat)
    requires p <= |s| && key != [] && key[0] !in s[p..]
    ensures !WordFrom(s, key, p)
  {
    assert s[p..|s|] == s[p..];
    SkipFrom(s, key, p, |s|);
  }

  /** A key whose first character occurs in s only at q, where it is not a whole word, is not a word of s. */
  lemma OnlyAt(s: string, key: string, q: nat)
    requires q < |s| && key != [] && key[0] !in s[..q] && key[0] !in s[q + 1..] && !WordAt(s, key, q)
    ensures !WordFrom(s, key, 0)
  {
    assert s[0..q] == s[..q];
    SkipFrom(s, key, 0, q);
    NoWordFrom(s, key, q + 1);
  }

  /** The scan stops at the first key that is a whole word with a valid year. */
  lemma ScanStops(s: string, valid: seq<string>, i: nat)
    requires i < |LongestFirst| && HasWord(s, LongestFirst[i]) && WordValue(LongestFirst[i]) in valid
    requires forall j :: 0 <= j < i ==> !HasWord(s, LongestFirst[j])
    ensures Fallback(s, valid) == WordValue(LongestFirst[i])
  {
    EarlierKeyWins(s, valid, LongestFirst, i);
  }

  /** No key with a valid year is a whole word: the scan finds nothing. */
  lemma ScanFails(s: string, valid: seq<string>)
    requires forall k :: k in LongestFirst && WordValue(k) in valid ==> !HasWord(s, k)
    ensures WordYear(s, valid, LongestFirst) == None
  {
  }

  lemma ThirdHasNoLongerWord()
    ensures !HasWord("Third", "second") && !HasWord("Third", "fourth") && !HasWord("Third", "first")
  {
    var l := ToLower("Third");
    assert l == "third";
    assert !WordAt(l, "first", 0) by { assert l[1] != "first"[1]; }
  }

  lemma ThirdHasThird()
    ensures HasWord("Third", "third")
  {
    assert ToLower("Third") == "third";
  }

  /** A label in which "third" is the first whole word of the scan falls back to "3". */
  lemma ThirdWordFirst(s: string, valid: seq<string>)
    requires "3" in valid && HasWord(s, "third")
    requires !HasWord(s, "second") && !HasWord(s, "fourth") && !HasWord(s, "first")
    ensures Fallback(s, valid) == "3"
  {
    assert LongestFirst[0] == "second" && LongestFirst[1] == "fourth" && LongestFirst[2] == "first";
    assert LongestFirst[3] == "third";
    ScanStops(s, valid, 3);
  }

  lemma ThirdFallback()
    ensures Fallback("Third", ["1", "2", "3", "4"]) == "3"
  {
    ThirdHasNoLongerWord();
    ThirdHasThird();
    ThirdWordFirst("Third", ["1", "2", "3", "4"]);
  }

  lemma ThirdHasNoDigits()
    ensures FirstDigitRun("Third") == None
  {
  }

  /** 'Third' → '3' on B.Tech: the whole word "third". */
  lemma TestThird()
    ensures ResolveYear("mockId", "B.Tech", "Third", Ok(Some(MockConfig))) == "3"
  {
    ThirdFallback();
    ThirdHasNoDigits();
    MockYears();
    NotYearKey("Third");
    ByFallback("mockId", "B.Tech", "Third", Ok(Some(MockConfig)), ["1", "2", "3", "4"]);
  }

  /** The label of the fourth-year test. */
  const FinalYear: string := "Final Year"

  lemma FinalYearLower()
    ensures ToLower(FinalYear) == "final year"
  {
  }

  lemma FinalNotSecondOrThird()
    ensures !HasWord(FinalYear, "second") && !HasWord(FinalYear, "third")
  {
    FinalYearLower();
    NoWordFrom("final year", "second", 0);
    NoWordFrom("final year", "third", 0);
  }

  lemma FinalNotFourth()
    ensures !HasWord(FinalYear, "fourth")
  {
    FinalYearLower();
    var l := "final year";
    assert !WordAt(l, "fourth", 0) by { assert l[1] != "fourth"[1]; }
    OnlyAt(l, "fourth", 0);
  }

  lemma FinalNotFirst()
    ensures !HasWord(FinalYear, "first")
  {
    FinalYearLower();
    var l := "final year";
    assert !WordAt(l, "first", 0) by { assert l[2] != "first"[2]; }
    OnlyAt(l, "first", 0);
  }

  lemma FinalHasFinal()
    ensures HasWord(FinalYear, "final")
  {
    FinalYearLower();
    assert WordAt("final year", "final", 0);
  }

  /** A label in which "final" is the first whole word of the scan falls back to "4". */
  lemma FinalWordFirst(s: string, valid: seq<string>)
    requires "4" in valid && HasWord(s, "final")
    requires !HasWord(s, "second") && !HasWord(s, "fourth") && !HasWord(s, "first") && !HasWord(s, "third")
    ensures Fallback(s, valid) == "4"
  {
    assert LongestFirst[0] == "second" && LongestFirst[1] == "fourth" && LongestFirst[2] == "first";
    assert LongestFirst[3] == "third" && LongestFirst[4] == "final";
    ScanStops(s, valid, 4);
  }

  lemma FinalFallback()
    ensures Fallback(FinalYear, ["1", "2", "3", "4"]) == "4"
  {
    FinalNotSecondOrThird();
    FinalNotFourth();
    FinalNotFirst();
    FinalHasFinal();
    FinalWordFirst(FinalYear, ["1", "2", "3", "4"]);
  }

  lemma FinalHasNoDigits()
    ensures FirstDigitRun(FinalYear) == None
  {
  }

  /** 'Final Year' → '4' on B.Tech: the whole word "final". */
  lemma TestFinalYear()
    ensures ResolveYear("mockId", "B.Tech", FinalYear, Ok(Some(MockConfig))) == "4"
  {
    FinalFallback();
    FinalHasNoDigits();
    MockYears();
    NotYearKey(FinalYear);
    ByFallback("mockId", "B.Tech", FinalYear, Ok(Some(MockConfig)), ["1", "2", "3", "4"]);
  }

  /** The label of the Roman-numeral test. */
  const RomanTwo: string := "II"

  /** "ii" is the first key of the scan not longer than the label. */
  lemma RomanTwoFallback()
    ensures Fallback(RomanTwo, ["1", "2", "3", "4"]) == "2"
  {
    assert ToLower(RomanTwo) == "ii";
    assert forall j :: 0 <= j < 10 ==> |LongestFirst[j]| > 2 by {
      LongestFirstLengths();
    }
    assert LongestFirst[10] == "ii";
    assert WordAt("ii", "ii", 0);
    ScanStops(RomanTwo, ["1", "2", "3", "4"], 10);
  }

  /** 'II' → '2' on B.Tech: the Roman numeral. */
  lemma TestRomanTwo()
    ensures ResolveYear("mockId", "B.Tech", RomanTwo, Ok(Some(MockConfig))) == "2"
  {
    RomanTwoFallback();
    assert FirstDigitRun(RomanTwo) == None;
    MockYears();
    NotYearKey(RomanTwo);
    ByFallback("mockId", "B.Tech", RomanTwo, Ok(Some(MockConfig)), ["1", "2", "3", "4"]);
  }

  /** The label of the no-word test. */
  const Random: string := "random string " + "123"


  /** The label is already lower case. */
  lemma RandomLower()
    ensures ToLower(Random) == Random
  {
    assert forall i :: 0 <= i < |Random| ==> Lower(Random[i]) == Random[i];
  }

  /** A key whose first character occurs in s only at q, followed by a
      character other than the key's second, is not a word of s. */
  lemma MismatchAt(s: string, key: string, q: nat)
    requires q + 1 < |s| && |key| >= 2 && key[0] !in s[..q] && key[0] !in s[q + 1..] && s[q + 1] != key[1]
    ensures !WordFrom(s, key, 0)
  {
    if q + |key| <= |s| {
      assert s[q..q + |key|][1] == s[q + 1];
    }
    OnlyAt(s, key, q);
  }

  lemma RandomNoSecond()
    ensures !HasWord(Random, "second")
  {
    RandomLower();
    MismatchAt(Random, "second", 7);
  }

  lemma RandomNoThird()
    ensures !HasWord(Random, "third")
  {
    RandomLower();
    MismatchAt(Random, "third", 8);
  }

  lemma RandomNoRomanThree()
    ensures !HasWord(Random, "iii")
  {
    RandomLower();
    MismatchAt(Random, "iii", 10);
  }

  lemma RandomNoF()
    ensures !HasWord(Random, "fourth") && !HasWord(Random, "first") && !HasWord(Random, "final")
  {
    RandomLower();
    NoWordFrom(Random, "fourth", 0);
    NoWordFrom(Random, "first", 0);
    NoWordFrom(Random, "final", 0);
  }

  lemma RandomNoFirstOrdinal()
    ensures !HasWord(Random, "1st")
  {
    RandomLower();
    MismatchAt(Random, "1st", 14);
  }

  lemma RandomNoSecondOrdinal()
    ensures !HasWord(Random, "2nd")
  {
    RandomLower();
    MismatchAt(Random, "2nd", 15);
  }

  lemma RandomNoThirdOrdinal()
    ensures !HasWord(Random, "3rd") && !HasWord(Random, "4th")
  {
    RandomLower();
    OnlyAt(Random, "3rd", 16);
    NoWordFrom(Random, "4th", 0);
  }

  lemma RandomNoNumerals()
    ensures !HasWord(Random, "ii") && !HasWord(Random, "iv") && !HasWord(Random, "i")
  {
    RandomLower();
    var l := Random;
    assert !WordAt(l, "ii", 10) by { assert l[11] != "ii"[1]; }
    OnlyAt(l, "ii", 10);
    assert !WordAt(l, "iv", 10) by { assert l[11] != "iv"[1]; }
    OnlyAt(l, "iv", 10);
    assert !WordAt(l, "i", 10) by { assert IsWordChar(l[9]); }
    OnlyAt(l, "i", 10);
  }

  /** Characters that are not digits before a string do not change its first digit run. */
  lemma {:induction false} SkipNonDigits(p: string, d: string)
    requires forall i :: 0 <= i < |p| ==> !IsDigit(p[i])
    ensures FirstDigitRun(p + d) == FirstDigitRun(d)
  {
    if p != [] {
      assert (p + d)[1..] == p[1..] + d;
      SkipNonDigits(p[1..], d);
    } else {
      assert p + d == d;
    }
  }

  /** A string of digits is its own digit prefix. */
  lemma {:induction false} AllDigitPrefix(d: string)
    requires AllDigits(d)
    ensures DigitPrefix(d) == d
  {
    if d != [] {
      AllDigitPrefix(d[1..]);
    }
  }

  lemma RandomDigitsSplit()
    ensures Random == "random string " + "123"
    ensures forall i :: 0 <= i < |"random string "| ==> !IsDigit("random string "[i])
    ensures AllDigits("123") && "123" != []
  {
  }

  lemma RandomDigits()
    ensures FirstDigitRun(Random) == Some("123")
  {
    RandomDigitsSplit();
    SkipNonDigits("random string ", "123");
    AllDigitPrefix("123");
  }

  /** No key is a whole word of a label: the scan finds nothing, whatever the valid years. */
  lemma NoKeyIsWord(s: string, valid: seq<string>)
    requires !HasWord(s, "second") && !HasWord(s, "fourth") && !HasWord(s, "first") && !HasWord(s, "third")
    requires !HasWord(s, "final") && !HasWord(s, "1st") && !HasWord(s, "2nd") && !HasWord(s, "3rd")
    requires !HasWord(s, "iii") && !HasWord(s, "4th") && !HasWord(s, "ii") && !HasWord(s, "iv") && !HasWord(s, "i")
    ensures WordYear(s, valid, LongestFirst) == None
  {
    ScanFails(s, valid);
  }

  /** No first- or second-year key is a whole word: the scan over years 1 and 2 finds nothing. */
  lemma NoEarlyKeyIsWord(s: string)
    requires !HasWord(s, "first") && !HasWord(s, "1st") && !HasWord(s, "i")
    requires !HasWord(s, "second") && !HasWord(s, "2nd") && !HasWord(s, "ii")
    ensures WordYear(s, ["1", "2"], LongestFirst) == None
  {
    ScanFails(s, ["1", "2"]);
  }

  /** With no key a whole word, the fallback is the first digit run. */
  lemma NoWordKeepsDigits(s: string, valid: seq<string>, d: string)
    requires WordYear(s, valid, LongestFirst) == None && FirstDigitRun(s) == Some(d)
    ensures Fallback(s, valid) == d
  {
  }

  /** A label that is not a key, whose digit run d is not a key either, resolves by the fallback. */
  lemma DigitsNotKey(collegeId: string, courseName: string, rawYear: string, read: Result<Option<Json>>, valid: seq<string>, d: string)
    requires collegeId != "" && courseName != "" && rawYear != ""
    requires read.Ok? && CourseYears(read.value, courseName) == Some(valid)
    requires rawYear !in valid && FirstDigitRun(rawYear) == Some(d) && d !in valid
    ensures ResolveYear(collegeId, courseName, rawYear, read) == Fallback(rawYear, valid)
  {
    ByFallback(collegeId, courseName, rawYear, read, valid);
  }

  lemma RandomFallback()
    ensures Fallback(Random, ["1", "2", "3", "4"]) == "123"
  {
    RandomNoSecond();
    RandomNoThird();
    RandomNoRomanThree();
    RandomNoF();
    RandomNoFirstOrdinal();
    RandomNoSecondOrdinal();
    RandomNoThirdOrdinal();
    RandomNoNumerals();
    NoKeyIsWord(Random, ["1", "2", "3", "4"]);
    RandomDigits();
    NoWordKeepsDigits(Random, ["1", "2", "3", "4"], "123");
  }

  /** 'random string 123' → '123' on B.Tech: no key is a whole word, so the digit run is kept. */
  lemma TestRandomString()
    ensures ResolveYear("mockId", "B.Tech", Random, Ok(Some(MockConfig))) == "123"
  {
    RandomFallback();
    RandomDigits();
    MockYears();
    NotYearKey(Random);
    NotYearKey("123");
    DigitsNotKey("mockId", "B.Tech", Random, Ok(Some(MockConfig)), ["1", "2", "3", "4"], "123");
  }

  /** The label of the M.Tech third-year test. */
  const ThirdOrdinal: string := "3rd"

  lemma ThirdOrdinalFallback()
    ensures Fallback(ThirdOrdinal, ["1", "2"]) == "3"
  {
    ThirdOrdinalNoFirst();
    ThirdOrdinalNoSecond();
    NoEarlyKeyIsWord(ThirdOrdinal);
    assert DigitPrefix(ThirdOrdinal) == "3";
    NoWordKeepsDigits(ThirdOrdinal, ["1", "2"], "3");
  }

  lemma ThirdOrdinalNoFirst()
    ensures !HasWord(ThirdOrdinal, "first") && !HasWord(ThirdOrdinal, "1st") && !HasWord(ThirdOrdinal, "i")
  {
    var l := ThirdOrdinal;
    assert ToLower(l) == l;
    NoWordFrom(l, "first", 0);
    NoWordFrom(l, "1st", 0);
    NoWordFrom(l, "i", 0);
  }

  lemma ThirdOrdinalNoSecond()
    ensures !HasWord(ThirdOrdinal, "second") && !HasWord(ThirdOrdinal, "2nd") && !HasWord(ThirdOrdinal, "ii")
  {
    var l := ThirdOrdinal;
    assert ToLower(l) == l;
    NoWordFrom(l, "second", 0);
    NoWordFrom(l, "2nd", 0);
    NoWordFrom(l, "ii", 0);
  }

  /** '3rd' → '3' on M.Tech: year 3 is not a key, no first- or second-year word occurs. */
  lemma TestThirdMTech()
    ensures ResolveYear("mockId", "M.Tech", ThirdOrdinal, Ok(Some(MockConfig))) == "3"
  {
    ThirdOrdinalFallback();
    assert DigitPrefix(ThirdOrdinal) == "3";
    MockYears();
    NotYearKey(ThirdOrdinal);
    assert "3" !in ["1", "2"];
    ByFallback("mockId", "M.Tech", ThirdOrdinal, Ok(Some(MockConfig)), ["1", "2"]);
  }
}
