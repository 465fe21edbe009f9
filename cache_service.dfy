/** Analytics cache maintenance: the integer counters that closing a
    session adds to its college's and its trainer's cache documents and
    monthly trend documents (and that deleting it takes away again), and the
    ranking of the comments kept in those caches.

    A cache document is modelled flattened: the integer counter stored at
    each field path. A path that is absent reads as 0, which is how
    Firestore's `increment` treats a missing field. */
module CacheService {
  import opened Common

  type Path = seq<string>
  type Doc = map<Path, int>

  function Value(d: Doc, p: Path): int
  {
    if p in d then d[p] else 0
  }

  // ---------------------------------------------------------------------------
  // Document keys
  // ---------------------------------------------------------------------------

  /** The calendar day of a session date, as a JavaScript `Date` reports it. */
  datatype CalendarDay = CalendarDay(year: nat, month: nat, day: nat)

  predicate ValidDay(c: CalendarDay)
  {
    1 <= c.month <= 12 && 1 <= c.day <= 31
  }

  /** A number below 100 has one decimal digit below 10 and two from 10 on. */
  lemma NatStrShort(n: nat)
    requires n < 100
    ensures |NatStr(n)| == if n < 10 then 1 else 2
  {
    if n >= 10 {
      assert NatStr(n) == NatStr(n / 10) + [('0' as int + n % 10) as char];
      assert n / 10 < 10;
    }
  }

  /** A number below 100 written with two digits. */
  lemma TwoDigits(n: nat)
    requires n < 100
    ensures var r := PadStart(NatStr(n), 2, '0');
      |r| == 2 && AllDigits(r) && DigitsValue(r) == n
  {
    var s := NatStr(n);
    NatStrShort(n);
    if n < 10 {
      var r := ['0'] + s;
      assert PadStart(s, 2, '0') == PadStart(r, 2, '0') == r;
      assert AllDigits(r);
      assert r[..1] == ['0'] && r[1] == s[0];
      assert DigitsValue(['0']) == 0;
      assert DigitsValue(r) == s[0] as int - '0' as int;
      assert s[..0] == [];
      assert DigitsValue(s) == s[0] as int - '0' as int;
    } else {
      assert PadStart(s, 2, '0') == s;
    }
  }

  /** getYearMonth: "YYYY-MM". */
  function YearMonth(c: CalendarDay): (r: string)
    requires ValidDay(c)
    ensures |r| == |NatStr(c.year)| + 3 && r == NatStr(c.year) + "-" + r[|r| - 2..]
    ensures AllDigits(r[|r| - 2..]) && DigitsValue(r[|r| - 2..]) == c.month
  {
    TwoDigits(c.month);
    var r := NatStr(c.year) + "-" + PadStart(NatStr(c.month), 2, '0');
    assert r[|r| - 2..] == PadStart(NatStr(c.month), 2, '0');
    r
  }

  /** Different months have different trend documents. */
  lemma YearMonthInjective(a: CalendarDay, b: CalendarDay)
    requires ValidDay(a) && ValidDay(b)
    requires YearMonth(a) == YearMonth(b)
    ensures a.year == b.year && a.month == b.month
  {
    var r := YearMonth(a);
    var ya, yb := NatStr(a.year), NatStr(b.year);
    var t := r[|r| - 2..];
    assert |ya| == |yb|;
    YearOfYearMonth(ya, t, r);
    YearOfYearMonth(yb, t, r);
    assert ya == yb;
    assert DigitsValue(ya) == a.year && DigitsValue(yb) == b.year;
  }

  lemma YearOfYearMonth(y: string, t: string, r: string)
    requires r == y + "-" + t
    ensures r[..|y|] == y
  {
  }

  /** getDayOfMonth: the day as two digits; reading them back gives the day. */
  function DayOfMonth(c: CalendarDay): (r: string)
    requires ValidDay(c)
    ensures |r| == 2 && AllDigits(r) && DigitsValue(r) == c.day
  {
    TwoDigits(c.day);
    PadStart(NatStr(c.day), 2, '0')
  }

  // ---------------------------------------------------------------------------
  // sanitizeFieldName
  // ---------------------------------------------------------------------------

  predicate Falsy(s: Option<string>)
  {
    s.None? || s.value == ""
  }

  function Dotless(s: string): (r: string)
    ensures |r| == |s| && '.' !in r
    ensures forall i :: 0 <= i < |s| ==> r[i] == (if s[i] == '.' then '_' else s[i])
  {
    if s == [] then [] else [if s[0] == '.' then '_' else s[0]] + Dotless(s[1..])
  }

  /** sanitizeFieldName: "unknown" for a missing or empty name, otherwise
      the name with every '.' turned into '_', trimmed. */
  function SanitizeFieldName(name: Option<string>): (r: string)
    ensures Falsy(name) ==> r == "unknown"
    ensures '.' !in r
    ensures IsTrimmed(r)
  {
    if Falsy(name) then "unknown"
    else
      TrimNoNewChar(Dotless(name.value), '.');
      Trim(Dotless(name.value))
  }

  /** A trimmed name without dots is kept as it is. */
  lemma SanitizeKeepsPlainNames(name: string)
    requires name != "" && '.' !in name && IsTrimmed(name)
    ensures SanitizeFieldName(Some(name)) == name
  {
    assert Dotless(name) == name;
    TrimOfTrimmed(name);
  }

  /** Sanitising a sanitised, non-empty name changes nothing. */
  lemma SanitizeIdempotent(name: Option<string>)
    requires SanitizeFieldName(name) != ""
    ensures SanitizeFieldName(Some(SanitizeFieldName(name))) == SanitizeFieldName(name)
  {
    SanitizeKeepsPlainNames(SanitizeFieldName(name));
  }

  // ---------------------------------------------------------------------------
  // Session statistics as the cache sees them
  // ---------------------------------------------------------------------------

  /** A rating distribution's entries: (rating, number of answers). */
  type Distribution = seq<(nat, int)>

  datatype Topic = Topic(name: string, count: int)

  /** The parts of compiledStats the counters are derived from; categories
      are the keys of categoryAverages. */
  datatype Stats = Stats(
    totalResponses: int,
    ratingDistribution: Option<Distribution>,
    topicsLearned: Option<seq<Topic>>,
    categories: seq<string>)

  /** The session fields the cache update reads. */
  datatype Session = Session(
    course: Option<string>,
    year: Option<string>,
    batch: Option<string>,
    domain: Option<string>,
    trainerId: Option<string>,
    date: CalendarDay)

  function DistOf(st: Stats): Distribution
  {
    if st.ratingDistribution.Some? then st.ratingDistribution.value else []
  }

  function TopicsOf(st: Stats): seq<Topic>
  {
    if st.topicsLearned.Some? then st.topicsLearned.value else []
  }

  /** Σ rating · count. */
  function RatingSum(d: Distribution): int
  {
    if d == [] then 0 else d[0].0 * d[0].1 + RatingSum(d[1..])
  }

  /** Σ count. */
  function RatingCount(d: Distribution): int
  {
    if d == [] then 0 else d[0].1 + RatingCount(d[1..])
  }

  predicate FiveStar(d: Distribution)
  {
    forall i :: 0 <= i < |d| ==> 1 <= d[i].0 <= 5 && d[i].1 >= 0
  }

  /** With ratings 1..5 and non-negative counts the sum lies between one and
      five times the count, so ratingSum / totalRatingsCount is a rating. */
  lemma {:induction false} RatingSumBounds(d: Distribution)
    requires FiveStar(d)
    ensures RatingCount(d) <= RatingSum(d) <= 5 * RatingCount(d)
  {
    if d != [] {
      RatingSumBounds(d[1..]);
      var r, c := d[0].0, d[0].1;
      assert c <= r * c <= 5 * c by {
        assert r * c - c == (r - 1) * c;
        assert 5 * c - r * c == (5 - r) * c;
      }
    }
  }

  /** Sums over two parts of a distribution add up. */
  lemma {:induction false} RatingSumAppend(a: Distribution, b: Distribution)
    ensures RatingSum(a + b) == RatingSum(a) + RatingSum(b)
    ensures RatingCount(a + b) == RatingCount(a) + RatingCount(b)
  {
    if a == [] {
      assert a + b == b;
    } else {
      assert (a + b)[1..] == a[1..] + b;
      RatingSumAppend(a[1..], b);
    }
  }

  // ---------------------------------------------------------------------------
  // Increments and how a document applies them
  // ---------------------------------------------------------------------------

  /** `increment(delta)` at a field path. */
  datatype Increment = Increment(path: Path, delta: int)

  /** The delta of the last increment at p. A field named more than once in
      one update keeps the value given last. */
  function LastDelta(ups: seq<Increment>, p: Path): Option<int>
  {
    if ups == [] then None
    else if ups[|ups| - 1].path == p then Some(ups[|ups| - 1].delta)
    else LastDelta(ups[..|ups| - 1], p)
  }

  function DeltaAt(ups: seq<Increment>, p: Path): int
  {
    if LastDelta(ups, p).Some? then LastDelta(ups, p).value else 0
  }

  function Paths(ups: seq<Increment>): set<Path>
  {
    set u | u in ups :: u.path
  }

  lemma {:induction false} AbsentPath(ups: seq<Increment>, p: Path)
    requires forall i :: 0 <= i < |ups| ==> ups[i].path != p
    ensures LastDelta(ups, p) == None
  {
    if ups != [] {
      AbsentPath(ups[..|ups| - 1], p);
    }
  }

  /** The last increment of a + b at p is b's when b has one, else a's. */
  lemma {:induction false} LastDeltaAppend(a: seq<Increment>, b: seq<Increment>, p: Path)
    ensures LastDelta(a + b, p) == if LastDelta(b, p).Some? then LastDelta(b, p) else LastDelta(a, p)
  {
    if b == [] {
      assert a + b == a;
    } else {
      assert (a + b)[..|a + b| - 1] == a + b[..|b| - 1];
      LastDeltaAppend(a, b[..|b| - 1], p);
    }
  }

  /** Applying one update to a document: every named field moves by its
      delta, every other field stays. */
  function Apply(d: Doc, ups: seq<Increment>): (r: Doc)
    ensures forall p :: Value(r, p) == Value(d, p) + DeltaAt(ups, p)
  {
    forall p | p !in d.Keys + Paths(ups) ensures DeltaAt(ups, p) == 0 {
      AbsentPath(ups, p);
    }
    map p | p in d.Keys + Paths(ups) :: Value(d, p) + DeltaAt(ups, p)
  }

  /** Two updates whose deltas are opposite, path by path. */
  predicate Mirrors(a: seq<Increment>, b: seq<Increment>)
  {
    |a| == |b| && forall i :: 0 <= i < |a| ==> a[i].path == b[i].path && a[i].delta == -b[i].delta
  }

  lemma {:induction false} MirrorDelta(a: seq<Increment>, b: seq<Increment>, p: Path)
    requires Mirrors(a, b)
    ensures DeltaAt(a, p) == -DeltaAt(b, p)
    ensures LastDelta(a, p).Some? == LastDelta(b, p).Some?
  {
    if a != [] {
      MirrorDelta(a[..|a| - 1], b[..|b| - 1], p);
    }
  }

  /** Applying an update and then its mirror restores every counter. */
  lemma ApplyMirrorRestores(d: Doc, a: seq<Increment>, b: seq<Increment>)
    requires Mirrors(b, a)
    ensures forall p :: Value(Apply(Apply(d, a), b), p) == Value(d, p)
  {
    forall p ensures Value(Apply(Apply(d, a), b), p) == Value(d, p) {
      MirrorDelta(b, a, p);
    }
  }

  /** Every path of ups starts with the segment h. */
  predicate Under(ups: seq<Increment>, h: string)
  {
    forall i :: 0 <= i < |ups| ==> |ups[i].path| >= 2 && ups[i].path[0] == h
  }

  lemma UnderOther(ups: seq<Increment>, h: string, p: Path)
    requires Under(ups, h)
    requires |p| < 2 || p[0] != h
    ensures LastDelta(ups, p) == None
  {
    AbsentPath(ups, p);
  }

  // ---------------------------------------------------------------------------
  // The increments of one session
  // ---------------------------------------------------------------------------

  /** `a || b` on strings. */
  function OrDefault(s: Option<string>, d: string): string
  {
    if Falsy(s) then d else s.value
  }

  /** The four top-level counters. */
  function Counters(st: Stats, m: int): seq<Increment>
  {
    [Increment(["totalSessions"], 1 * m),
     Increment(["totalResponses"], st.totalResponses * m),
     Increment(["totalRatingsCount"], RatingCount(DistOf(st)) * m),
     Increment(["ratingSum"], RatingSum(DistOf(st)) * m)]
  }

  /** A topic's path: `FieldPath('topicsLearned', name)`, which refuses an
      empty name; the fallback then writes the sanitised name, "unknown". */
  function TopicPath(name: string): Path
  {
    if name != "" then ["topicsLearned", name] else ["topicsLearned", SanitizeFieldName(Some(name))]
  }

  function TopicInc(m: int): Topic -> Increment
  {
    (t: Topic) => Increment(TopicPath(t.name), t.count * m)
  }

  function TopicIncs(st: Stats, m: int): (r: seq<Increment>)
    ensures Under(r, "topicsLearned")
  {
    Map(TopicsOf(st), TopicInc(m))
  }

  function BucketInc(m: int): ((nat, int)) -> Increment
  {
    (e: (nat, int)) => Increment(["ratingDistribution", NatStr(e.0)], e.1 * m)
  }

  function BucketIncs(st: Stats, m: int): (r: seq<Increment>)
    ensures Under(r, "ratingDistribution")
  {
    Map(DistOf(st), BucketInc(m))
  }

  /** The college writes `categoryData.<sanitised name>.count`. The category
      sums are floating point and are not modelled. */
  function CollegeCategoryInc(tr: int, m: int): string -> Increment
  {
    (c: string) => Increment(["categoryData", SanitizeFieldName(Some(c)), "count"], tr * m)
  }

  function CollegeCategoryIncs(st: Stats, m: int): (r: seq<Increment>)
    ensures Under(r, "categoryData")
  {
    Map(st.categories, CollegeCategoryInc(st.totalResponses, m))
  }

  /** The trainer writes `categoryData.<name>.count`, a dotted string path, so
      a dot inside the name splits it into further segments. */
  function TrainerCategoryInc(tr: int, m: int): string -> Increment
  {
    (c: string) => Increment(["categoryData"] + Split(c, '.') + ["count"], tr * m)
  }

  function TrainerCategoryIncs(st: Stats, m: int): (r: seq<Increment>)
    ensures Under(r, "categoryData")
  {
    Map(st.categories, TrainerCategoryInc(st.totalResponses, m))
  }

  /** totalResponses, totalRatingsCount and ratingSum under a prefix. */
  function LevelIncs(prefix: Path, st: Stats, m: int): (r: seq<Increment>)
    requires |prefix| >= 1
    ensures |r| == 3 && Under(r, prefix[0])
  {
    [Increment(prefix + ["totalResponses"], st.totalResponses * m),
     Increment(prefix + ["totalRatingsCount"], RatingCount(DistOf(st)) * m),
     Increment(prefix + ["ratingSum"], RatingSum(DistOf(st)) * m)]
  }

  /** The domain key: the sanitised domain, or "" (no update) when the
      domain is missing or sanitises to nothing. */
  function DomainKey(s: Session): string
  {
    if Falsy(s.domain) then "" else SanitizeFieldName(s.domain)
  }

  function DomainIncs(s: Session, st: Stats, m: int): (r: seq<Increment>)
    ensures Under(r, "domains")
  {
    if DomainKey(s) == "" then [] else LevelIncs(["domains", DomainKey(s)], st, m)
  }

  function CourseName(s: Session): string { OrDefault(s.course, "Unknown") }
  function YearName(s: Session): string { OrDefault(s.year, "1") }
  function BatchName(s: Session): string { OrDefault(s.batch, "A") }

  function CoursePrefix(s: Session): Path { ["courses", CourseName(s)] }
  function YearPrefix(s: Session): Path { CoursePrefix(s) + ["years", YearName(s)] }
  function BatchPrefix(s: Session): Path { YearPrefix(s) + ["batches", BatchName(s)] }

  /** The course, year and batch levels, each with the same three increments. */
  function HierarchyIncs(s: Session, st: Stats, m: int): (r: seq<Increment>)
    ensures Under(r, "courses")
  {
    LevelIncs(CoursePrefix(s), st, m) + LevelIncs(YearPrefix(s), st, m) + LevelIncs(BatchPrefix(s), st, m)
  }

  /** The college update as the code emits it: the topic increments appear
      twice, before and after the domain increments. */
  function CollegeUpdatesAsWritten(s: Session, st: Stats, m: int): seq<Increment>
  {
    Counters(st, m) + TopicIncs(st, m) + BucketIncs(st, m) + CollegeCategoryIncs(st, m)
      + DomainIncs(s, st, m) + TopicIncs(st, m) + HierarchyIncs(s, st, m)
  }

  /** The college update with each topic increment emitted once. */
  function CollegeUpdates(s: Session, st: Stats, m: int): seq<Increment>
  {
    Counters(st, m) + TopicIncs(st, m) + BucketIncs(st, m) + CollegeCategoryIncs(st, m)
      + DomainIncs(s, st, m) + HierarchyIncs(s, st, m)
  }

  /** The trainer update: counters, topics, buckets and categories. */
  function TrainerUpdates(st: Stats, m: int): seq<Increment>
  {
    Counters(st, m) + TopicIncs(st, m) + BucketIncs(st, m) + TrainerCategoryIncs(st, m)
  }

  function Multiplier(isDelete: bool): int
  {
    if isDelete then -1 else 1
  }

  // ---------------------------------------------------------------------------
  // Building the update list (the addUpdate calls)
  // ---------------------------------------------------------------------------

  /** One forEach that pushes an increment per element. */
  method PushEach<T>(flat: seq<Increment>, xs: seq<T>, f: T -> Increment) returns (r: seq<Increment>)
    ensures r == flat + Map(xs, f)
  {
    r := flat;
    for i := 0 to |xs|
      invariant r == flat + Map(xs[..i], f)
    {
      MapSnoc(xs, f, i);
      r := r + [f(xs[i])];
    }
    assert xs[..|xs|] == xs;
  }

  /** The college's flatUpdates list, in the order the code pushes it
      (totalHours and updatedAt are not modelled). */
  method BuildCollegeUpdates(s: Session, st: Stats, m: int) returns (flat: seq<Increment>)
    ensures flat == CollegeUpdatesAsWritten(s, st, m)
  {
    flat := Counters(st, m);
    flat := PushEach(flat, TopicsOf(st), TopicInc(m));
    flat := PushEach(flat, DistOf(st), BucketInc(m));
    flat := PushEach(flat, st.categories, CollegeCategoryInc(st.totalResponses, m));
    if DomainKey(s) != "" {
      flat := flat + LevelIncs(["domains", DomainKey(s)], st, m);
    }
    flat := PushEach(flat, TopicsOf(st), TopicInc(m));
    flat := flat + HierarchyIncs(s, st, m);
  }

  /** The trainer's flatUpdates list. */
  method BuildTrainerUpdates(st: Stats, m: int) returns (flat: seq<Increment>)
    ensures flat == TrainerUpdates(st, m)
  {
    flat := Counters(st, m);
    flat := PushEach(flat, TopicsOf(st), TopicInc(m));
    flat := PushEach(flat, DistOf(st), BucketInc(m));
    flat := PushEach(flat, st.categories, TrainerCategoryInc(st.totalResponses, m));
  }

  /** A block repeated after other blocks names each of its increments at
      two different positions. */
  lemma {:induction false} RepeatedBlockTwice(front: seq<Increment>, t: seq<Increment>, b: seq<Increment>, c: seq<Increment>,
                                              d: seq<Increment>, h: seq<Increment>, k: nat)
    requires k < |t|
    ensures var u := front + t + b + c + d + t + h;
      exists i, j :: 0 <= i < j < |u| && u[i] == u[j] && u[i] == t[k]
  {
    var u := front + t + b + c + d + t + h;
    var i, j := |front| + k, |front| + |t| + |b| + |c| + |d| + k;
    assert u[i] == t[k] by { assert u == front + (t + b + c + d + t + h); }
    assert u[j] == t[k] by { assert u == (front + t + b + c + d) + (t + h); }
  }

  lemma TopicIncPath(st: Stats, m: int, k: nat)
    requires k < |TopicsOf(st)|
    ensures k < |TopicIncs(st, m)| && TopicIncs(st, m)[k].path == TopicPath(TopicsOf(st)[k].name)
  {
  }

  /** As written, every topic's path is named twice in one college update. */
  lemma TopicEmittedTwice(s: Session, st: Stats, m: int, k: nat)
    requires k < |TopicsOf(st)|
    ensures var u := CollegeUpdatesAsWritten(s, st, m);
      exists i, j :: 0 <= i < j < |u| && u[i] == u[j] && u[i].path == TopicPath(TopicsOf(st)[k].name)
  {
    var u := CollegeUpdatesAsWritten(s, st, m);
    var t := TopicIncs(st, m);
    assert u == Counters(st, m) + t + BucketIncs(st, m) + CollegeCategoryIncs(st, m) + DomainIncs(s, st, m) + t + HierarchyIncs(s, st, m);
    TopicIncPath(st, m, k);
    RepeatedBlockTwice(Counters(st, m), t, BucketIncs(st, m), CollegeCategoryIncs(st, m),
                       DomainIncs(s, st, m), HierarchyIncs(s, st, m), k);
    var i, j :| 0 <= i < j < |u| && u[i] == u[j] && u[i] == t[k];
    assert u[i].path == TopicPath(TopicsOf(st)[k].name);
  }

  /** Repeating a block t later, with only blocks between that do not name
      t's paths, changes no field's final delta. */
  lemma RepeatedBlockHarmless(c: seq<Increment>, t: seq<Increment>, b: seq<Increment>, cat: seq<Increment>,
                              dom: seq<Increment>, h: seq<Increment>, p: Path)
    requires LastDelta(t, p).Some? ==> LastDelta(b, p).None? && LastDelta(cat, p).None? && LastDelta(dom, p).None?
    ensures DeltaAt(c + t + b + cat + dom + t + h, p) == DeltaAt(c + t + b + cat + dom + h, p)
  {
    LastDeltaAppend(c + t + b + cat + dom + t, h, p);
    LastDeltaAppend(c + t + b + cat + dom, h, p);
    LastDeltaAppend(c + t + b + cat + dom, t, p);
    LastDeltaAppend(c + t + b + cat, dom, p);
    LastDeltaAppend(c + t + b, cat, p);
    LastDeltaAppend(c + t, b, p);
    LastDeltaAppend(c, t, p);
  }

  /** The blocks between the two topic blocks name no topic path. */
  lemma MiddleNamesNoTopic(b: seq<Increment>, cat: seq<Increment>, dom: seq<Increment>, t: seq<Increment>, p: Path)
    requires Under(b, "ratingDistribution") && Under(cat, "categoryData") && Under(dom, "domains")
    requires Under(t, "topicsLearned")
    ensures LastDelta(t, p).Some? ==> LastDelta(b, p).None? && LastDelta(cat, p).None? && LastDelta(dom, p).None?
  {
    if LastDelta(t, p).Some? {
      if !(|p| >= 2 && p[0] == "topicsLearned") { UnderOther(t, "topicsLearned", p); }
      UnderOther(b, "ratingDistribution", p);
      UnderOther(cat, "categoryData", p);
      UnderOther(dom, "domains", p);
    }
  }

  /** As written and corrected, every field ends with the same delta. */
  lemma AsWrittenSameDeltas(s: Session, st: Stats, m: int, p: Path)
    ensures DeltaAt(CollegeUpdatesAsWritten(s, st, m), p) == DeltaAt(CollegeUpdates(s, st, m), p)
  {
    var c, t := Counters(st, m), TopicIncs(st, m);
    var b, cat, dom := BucketIncs(st, m), CollegeCategoryIncs(st, m), DomainIncs(s, st, m);
    MiddleNamesNoTopic(b, cat, dom, t, p);
    RepeatedBlockHarmless(c, t, b, cat, dom, HierarchyIncs(s, st, m), p);
  }

  /** Because a field named twice keeps its last value, the doubled topic
      increments still move each topic counter once: the update as written
      has the same effect as the update with one topic block. */
  lemma AsWrittenSameEffect(d: Doc, s: Session, st: Stats, m: int)
    ensures forall p :: Value(Apply(d, CollegeUpdatesAsWritten(s, st, m)), p) == Value(Apply(d, CollegeUpdates(s, st, m)), p)
  {
    forall p ensures Value(Apply(d, CollegeUpdatesAsWritten(s, st, m)), p) == Value(Apply(d, CollegeUpdates(s, st, m)), p) {
      AsWrittenSameDeltas(s, st, m, p);
    }
  }

  // ---------------------------------------------------------------------------
  // Locating the last increment of a field
  // ---------------------------------------------------------------------------

  /** The later of two lookups. */
  function Pick(earlier: Option<int>, later: Option<int>): Option<int>
  {
    if later.Some? then later else earlier
  }

  lemma LastDelta4(a1: seq<Increment>, a2: seq<Increment>, a3: seq<Increment>, a4: seq<Increment>, p: Path)
    ensures LastDelta(a1 + a2 + a3 + a4, p)
      == Pick(Pick(Pick(LastDelta(a1, p), LastDelta(a2, p)), LastDelta(a3, p)), LastDelta(a4, p))
  {
    LastDeltaAppend(a1 + a2 + a3, a4, p);
    LastDeltaAppend(a1 + a2, a3, p);
    LastDeltaAppend(a1, a2, p);
  }

  lemma LastDelta6(a1: seq<Increment>, a2: seq<Increment>, a3: seq<Increment>, a4: seq<Increment>,
                   a5: seq<Increment>, a6: seq<Increment>, p: Path)
    ensures LastDelta(a1 + a2 + a3 + a4 + a5 + a6, p)
      == Pick(Pick(Pick(Pick(Pick(LastDelta(a1, p), LastDelta(a2, p)), LastDelta(a3, p)), LastDelta(a4, p)),
                   LastDelta(a5, p)), LastDelta(a6, p))
  {
    LastDeltaAppend(a1 + a2 + a3 + a4 + a5, a6, p);
    LastDeltaAppend(a1 + a2 + a3 + a4, a5, p);
    LastDelta4(a1, a2, a3, a4, p);
  }

  /** The increment at index i is the last one naming p. */
  lemma {:induction false} LastDeltaAtIndex(ups: seq<Increment>, i: nat, p: Path)
    requires i < |ups| && ups[i].path == p
    requires forall j :: i < j < |ups| ==> ups[j].path != p
    ensures LastDelta(ups, p) == Some(ups[i].delta)
  {
    if i < |ups| - 1 {
      LastDeltaAtIndex(ups[..|ups| - 1], i, p);
    }
  }

  /** An update whose deltas are all zero moves nothing. */
  lemma {:induction false} ZeroDeltas(ups: seq<Increment>, p: Path)
    requires forall i :: 0 <= i < |ups| ==> ups[i].delta == 0
    ensures DeltaAt(ups, p) == 0
  {
    if ups != [] {
      ZeroDeltas(ups[..|ups| - 1], p);
    }
  }

  /** Each top-level counter is named once. */
  lemma CountersAt(st: Stats, m: int, k: nat)
    requires k < 4
    ensures LastDelta(Counters(st, m), Counters(st, m)[k].path) == Some(Counters(st, m)[k].delta)
  {
    var c := Counters(st, m);
    forall j | k < j < 4 ensures c[j].path != c[k].path {
      assert c[j].path[0] != c[k].path[0];
    }
    LastDeltaAtIndex(c, k, c[k].path);
  }

  lemma CountersShort(st: Stats, m: int, p: Path)
    requires |p| >= 2
    ensures LastDelta(Counters(st, m), p) == None
  {
    AbsentPath(Counters(st, m), p);
  }

  // ---------------------------------------------------------------------------
  // Delete mirrors add
  // ---------------------------------------------------------------------------

  lemma MirrorsAppend(a1: seq<Increment>, b1: seq<Increment>, a2: seq<Increment>, b2: seq<Increment>)
    requires Mirrors(a1, b1) && Mirrors(a2, b2)
    ensures Mirrors(a1 + a2, b1 + b2)
  {
  }

  lemma Mirrors6(a1: seq<Increment>, a2: seq<Increment>, a3: seq<Increment>, a4: seq<Increment>, a5: seq<Increment>, a6: seq<Increment>,
                 b1: seq<Increment>, b2: seq<Increment>, b3: seq<Increment>, b4: seq<Increment>, b5: seq<Increment>, b6: seq<Increment>)
    requires Mirrors(a1, b1) && Mirrors(a2, b2) && Mirrors(a3, b3) && Mirrors(a4, b4) && Mirrors(a5, b5) && Mirrors(a6, b6)
    ensures Mirrors(a1 + a2 + a3 + a4, b1 + b2 + b3 + b4)
    ensures Mirrors(a1 + a2 + a3 + a4 + a5 + a6, b1 + b2 + b3 + b4 + b5 + b6)
  {
    MirrorsAppend(a1, b1, a2, b2);
    MirrorsAppend(a1 + a2, b1 + b2, a3, b3);
    MirrorsAppend(a1 + a2 + a3, b1 + b2 + b3, a4, b4);
    MirrorsAppend(a1 + a2 + a3 + a4, b1 + b2 + b3 + b4, a5, b5);
    MirrorsAppend(a1 + a2 + a3 + a4 + a5, b1 + b2 + b3 + b4 + b5, a6, b6);
  }

  lemma MapMirrors<T>(xs: seq<T>, f: T -> Increment, g: T -> Increment)
    requires forall x :: f(x).path == g(x).path && f(x).delta == -g(x).delta
    ensures Mirrors(Map(xs, f), Map(xs, g))
  {
  }

  lemma CountersMirror(st: Stats)
    ensures Mirrors(Counters(st, -1), Counters(st, 1))
  {
  }

  lemma LevelMirror(prefix: Path, st: Stats)
    requires |prefix| >= 1
    ensures Mirrors(LevelIncs(prefix, st, -1), LevelIncs(prefix, st, 1))
  {
  }

  lemma LevelsMirror(s: Session, st: Stats)
    ensures Mirrors(DomainIncs(s, st, -1), DomainIncs(s, st, 1))
    ensures Mirrors(HierarchyIncs(s, st, -1), HierarchyIncs(s, st, 1))
  {
    if DomainKey(s) != "" {
      LevelMirror(["domains", DomainKey(s)], st);
    }
    LevelMirror(CoursePrefix(s), st);
    LevelMirror(YearPrefix(s), st);
    LevelMirror(BatchPrefix(s), st);
    MirrorsAppend(LevelIncs(CoursePrefix(s), st, -1), LevelIncs(CoursePrefix(s), st, 1),
                  LevelIncs(YearPrefix(s), st, -1), LevelIncs(YearPrefix(s), st, 1));
    MirrorsAppend(LevelIncs(CoursePrefix(s), st, -1) + LevelIncs(YearPrefix(s), st, -1),
                  LevelIncs(CoursePrefix(s), st, 1) + LevelIncs(YearPrefix(s), st, 1),
                  LevelIncs(BatchPrefix(s), st, -1), LevelIncs(BatchPrefix(s), st, 1));
  }

  /** The college update of a delete is the add's, negated field by field. */
  lemma CollegeMirror(s: Session, st: Stats)
    ensures Mirrors(CollegeUpdates(s, st, -1), CollegeUpdates(s, st, 1))
  {
    CountersMirror(st);
    LevelsMirror(s, st);
    MapMirrors(TopicsOf(st), TopicInc(-1), TopicInc(1));
    MapMirrors(DistOf(st), BucketInc(-1), BucketInc(1));
    MapMirrors(st.categories, CollegeCategoryInc(st.totalResponses, -1), CollegeCategoryInc(st.totalResponses, 1));
    Mirrors6(Counters(st, -1), TopicIncs(st, -1), BucketIncs(st, -1), CollegeCategoryIncs(st, -1), DomainIncs(s, st, -1), HierarchyIncs(s, st, -1),
             Counters(st, 1), TopicIncs(st, 1), BucketIncs(st, 1), CollegeCategoryIncs(st, 1), DomainIncs(s, st, 1), HierarchyIncs(s, st, 1));
  }

  /** The trainer update of a delete is the add's, negated field by field. */
  lemma TrainerMirror(st: Stats)
    ensures Mirrors(TrainerUpdates(st, -1), TrainerUpdates(st, 1))
  {
    CountersMirror(st);
    MapMirrors(TopicsOf(st), TopicInc(-1), TopicInc(1));
    MapMirrors(DistOf(st), BucketInc(-1), BucketInc(1));
    MapMirrors(st.categories, TrainerCategoryInc(st.totalResponses, -1), TrainerCategoryInc(st.totalResponses, 1));
    Mirrors6(Counters(st, -1), TopicIncs(st, -1), BucketIncs(st, -1), TrainerCategoryIncs(st, -1), [], [],
             Counters(st, 1), TopicIncs(st, 1), BucketIncs(st, 1), TrainerCategoryIncs(st, 1), [], []);
  }

  // ---------------------------------------------------------------------------
  // What an update does to an existing cache document
  // ---------------------------------------------------------------------------

  /** A one-segment path is named only by the four top-level counters. */
  lemma CollegeDeltaShort(s: Session, st: Stats, m: int, p: Path)
    requires |p| == 1
    ensures DeltaAt(CollegeUpdates(s, st, m), p) == DeltaAt(Counters(st, m), p)
  {
    UnderOther(TopicIncs(st, m), "topicsLearned", p);
    UnderOther(BucketIncs(st, m), "ratingDistribution", p);
    UnderOther(CollegeCategoryIncs(st, m), "categoryData", p);
    UnderOther(DomainIncs(s, st, m), "domains", p);
    UnderOther(HierarchyIncs(s, st, m), "courses", p);
    LastDelta6(Counters(st, m), TopicIncs(st, m), BucketIncs(st, m), CollegeCategoryIncs(st, m),
               DomainIncs(s, st, m), HierarchyIncs(s, st, m), p);
  }

  /** totalSessions moves by ±1; totalResponses, totalRatingsCount and
      ratingSum by ± this session's values. */
  lemma CollegeCountersMove(d: Doc, s: Session, st: Stats, isDelete: bool)
    ensures var m := Multiplier(isDelete);
      var r := Apply(d, CollegeUpdates(s, st, m));
      Value(r, ["totalSessions"]) == Value(d, ["totalSessions"]) + m
      && Value(r, ["totalResponses"]) == Value(d, ["totalResponses"]) + st.totalResponses * m
      && Value(r, ["totalRatingsCount"]) == Value(d, ["totalRatingsCount"]) + RatingCount(DistOf(st)) * m
      && Value(r, ["ratingSum"]) == Value(d, ["ratingSum"]) + RatingSum(DistOf(st)) * m
  {
    var m := Multiplier(isDelete);
    CountersAt(st, m, 0);
    CountersAt(st, m, 1);
    CountersAt(st, m, 2);
    CountersAt(st, m, 3);
    CollegeDeltaShort(s, st, m, ["totalSessions"]);
    CollegeDeltaShort(s, st, m, ["totalResponses"]);
    CollegeDeltaShort(s, st, m, ["totalRatingsCount"]);
    CollegeDeltaShort(s, st, m, ["ratingSum"]);
  }

  /** A rating distribution lists each rating once (it is an object). */
  predicate DistinctRatings(d: Distribution)
  {
    forall i, j :: 0 <= i < j < |d| ==> d[i].0 != d[j].0
  }

  /** Each ratingDistribution bucket moves by ± this session's count. */
  lemma BucketMoves(st: Stats, m: int, i: nat)
    requires DistinctRatings(DistOf(st)) && i < |DistOf(st)|
    ensures LastDelta(BucketIncs(st, m), ["ratingDistribution", NatStr(DistOf(st)[i].0)]) == Some(DistOf(st)[i].1 * m)
  {
    var d := DistOf(st);
    var b := BucketIncs(st, m);
    var p: Path := ["ratingDistribution", NatStr(d[i].0)];
    forall j | i < j < |b| ensures b[j].path != p {
      assert d[j].0 != d[i].0;
    }
    LastDeltaAtIndex(b, i, p);
  }

  lemma CollegeBucketMoves(d: Doc, s: Session, st: Stats, isDelete: bool, i: nat)
    requires DistinctRatings(DistOf(st)) && i < |DistOf(st)|
    ensures var m := Multiplier(isDelete);
      var p: Path := ["ratingDistribution", NatStr(DistOf(st)[i].0)];
      Value(Apply(d, CollegeUpdates(s, st, m)), p) == Value(d, p) + DistOf(st)[i].1 * m
  {
    var m := Multiplier(isDelete);
    var p: Path := ["ratingDistribution", NatStr(DistOf(st)[i].0)];
    BucketMoves(st, m, i);
    CountersShort(st, m, p);
    UnderOther(TopicIncs(st, m), "topicsLearned", p);
    UnderOther(CollegeCategoryIncs(st, m), "categoryData", p);
    UnderOther(DomainIncs(s, st, m), "domains", p);
    UnderOther(HierarchyIncs(s, st, m), "courses", p);
    LastDelta6(Counters(st, m), TopicIncs(st, m), BucketIncs(st, m), CollegeCategoryIncs(st, m),
               DomainIncs(s, st, m), HierarchyIncs(s, st, m), p);
  }

  /** The course, the year under it and the batch under that each take the
      same three increments. */
  lemma HierarchyMoves(s: Session, st: Stats, m: int, pre: Path)
    requires pre in [CoursePrefix(s), YearPrefix(s), BatchPrefix(s)]
    ensures var h := HierarchyIncs(s, st, m);
      DeltaAt(h, pre + ["totalResponses"]) == st.totalResponses * m
      && DeltaAt(h, pre + ["totalRatingsCount"]) == RatingCount(DistOf(st)) * m
      && DeltaAt(h, pre + ["ratingSum"]) == RatingSum(DistOf(st)) * m
  {
    var h := HierarchyIncs(s, st, m);
    assert |CoursePrefix(s)| == 2 && |YearPrefix(s)| == 4 && |BatchPrefix(s)| == 6;
    forall k | 0 <= k < 9
      ensures LastDelta(h, h[k].path) == Some(h[k].delta)
    {
      forall j | k < j < 9 ensures h[j].path != h[k].path {
        if j / 3 == k / 3 {
          assert h[j].path[|h[j].path| - 1] != h[k].path[|h[k].path| - 1];
        } else {
          assert |h[j].path| != |h[k].path|;
        }
      }
      LastDeltaAtIndex(h, k, h[k].path);
    }
    assert h[0].path == CoursePrefix(s) + ["totalResponses"];
    assert h[1].path == CoursePrefix(s) + ["totalRatingsCount"];
    assert h[2].path == CoursePrefix(s) + ["ratingSum"];
    assert h[3].path == YearPrefix(s) + ["totalResponses"];
    assert h[4].path == YearPrefix(s) + ["totalRatingsCount"];
    assert h[5].path == YearPrefix(s) + ["ratingSum"];
    assert h[6].path == BatchPrefix(s) + ["totalResponses"];
    assert h[7].path == BatchPrefix(s) + ["totalRatingsCount"];
    assert h[8].path == BatchPrefix(s) + ["ratingSum"];
  }

  /** A path under "courses" is named only by the hierarchy increments. */
  lemma CollegeDeltaCourses(s: Session, st: Stats, m: int, p: Path)
    requires |p| >= 2 && p[0] == "courses"
    ensures DeltaAt(CollegeUpdates(s, st, m), p) == DeltaAt(HierarchyIncs(s, st, m), p)
  {
    CountersShort(st, m, p);
    UnderOther(TopicIncs(st, m), "topicsLearned", p);
    UnderOther(BucketIncs(st, m), "ratingDistribution", p);
    UnderOther(CollegeCategoryIncs(st, m), "categoryData", p);
    UnderOther(DomainIncs(s, st, m), "domains", p);
    LastDelta6(Counters(st, m), TopicIncs(st, m), BucketIncs(st, m), CollegeCategoryIncs(st, m),
               DomainIncs(s, st, m), HierarchyIncs(s, st, m), p);
  }

  lemma CollegeLevelDeltas(s: Session, st: Stats, m: int, pre: Path)
    requires pre in [CoursePrefix(s), YearPrefix(s), BatchPrefix(s)]
    ensures var ups := CollegeUpdates(s, st, m);
      DeltaAt(ups, pre + ["totalResponses"]) == st.totalResponses * m
      && DeltaAt(ups, pre + ["totalRatingsCount"]) == RatingCount(DistOf(st)) * m
      && DeltaAt(ups, pre + ["ratingSum"]) == RatingSum(DistOf(st)) * m
  {
    HierarchyMoves(s, st, m, pre);
    assert pre[0] == "courses" && |pre| >= 2;
    CollegeDeltaCourses(s, st, m, pre + ["totalResponses"]);
    CollegeDeltaCourses(s, st, m, pre + ["totalRatingsCount"]);
    CollegeDeltaCourses(s, st, m, pre + ["ratingSum"]);
  }

  /** On an existing document the course, year and batch levels move like
      the totals. */
  lemma CollegeLevelMoves(d: Doc, s: Session, st: Stats, isDelete: bool, pre: Path)
    requires pre in [CoursePrefix(s), YearPrefix(s), BatchPrefix(s)]
    ensures var m := Multiplier(isDelete);
      var r := Apply(d, CollegeUpdates(s, st, m));
      Value(r, pre + ["totalResponses"]) == Value(d, pre + ["totalResponses"]) + st.totalResponses * m
      && Value(r, pre + ["totalRatingsCount"]) == Value(d, pre + ["totalRatingsCount"]) + RatingCount(DistOf(st)) * m
      && Value(r, pre + ["ratingSum"]) == Value(d, pre + ["ratingSum"]) + RatingSum(DistOf(st)) * m
  {
    var m := Multiplier(isDelete);
    var ups := CollegeUpdates(s, st, m);
    CollegeLevelDeltas(s, st, m, pre);
    MovesBy(d, ups, pre + ["totalResponses"], st.totalResponses * m);
    MovesBy(d, ups, pre + ["totalRatingsCount"], RatingCount(DistOf(st)) * m);
    MovesBy(d, ups, pre + ["ratingSum"], RatingSum(DistOf(st)) * m);
  }

  lemma MovesBy(d: Doc, ups: seq<Increment>, p: Path, delta: int)
    requires DeltaAt(ups, p) == delta
    ensures Value(Apply(d, ups), p) == Value(d, p) + delta
  {
  }

  // ---------------------------------------------------------------------------
  // Documents created by the first session
  // ---------------------------------------------------------------------------

  /** A document written as an object literal, given as its fields in
      order; a key written twice keeps the value written last. */
  function Literal(fields: seq<Increment>): Doc
  {
    Apply(map[], fields)
  }

  /** `acc[name] = count` in the topicsLearned reduce: the raw name is the key. */
  function TopicField(t: Topic): Increment
  {
    Increment(["topicsLearned", t.name], t.count)
  }

  /** `ratingDistribution || { 1: 0, 2: 0, 3: 0, 4: 0, 5: 0 }`. */
  function DistFields(st: Stats): (r: seq<Increment>)
    ensures Under(r, "ratingDistribution")
  {
    if st.ratingDistribution.Some? then BucketIncs(st, 1)
    else [Increment(["ratingDistribution", "1"], 0), Increment(["ratingDistribution", "2"], 0),
          Increment(["ratingDistribution", "3"], 0), Increment(["ratingDistribution", "4"], 0),
          Increment(["ratingDistribution", "5"], 0)]
  }

  /** `categoryData[cat] = { sum, count }` with the raw category name. */
  function CategoryField(tr: int): string -> Increment
  {
    (c: string) => Increment(["categoryData", c, "count"], tr)
  }

  /** The college document the first closed session creates. */
  function NewCollegeCache(s: Session, st: Stats): Doc
  {
    Literal(Counters(st, 1) + Map(TopicsOf(st), TopicField) + DistFields(st)
      + Map(st.categories, CategoryField(st.totalResponses)) + DomainIncs(s, st, 1) + HierarchyIncs(s, st, 1))
  }

  /** The trainer document the first closed session creates. */
  function NewTrainerCache(st: Stats): Doc
  {
    Literal(Counters(st, 1) + Map(TopicsOf(st), TopicField) + DistFields(st)
      + Map(st.categories, CategoryField(st.totalResponses)))
  }

  /** Topic names are non-empty, so FieldPath accepts them. */
  predicate NamedTopics(st: Stats)
  {
    forall i :: 0 <= i < |TopicsOf(st)| ==> TopicsOf(st)[i].name != ""
  }

  lemma TopicFieldsAreIncrements(st: Stats)
    requires NamedTopics(st)
    ensures Map(TopicsOf(st), TopicField) == TopicIncs(st, 1)
  {
    assert forall i :: 0 <= i < |TopicsOf(st)| ==> Map(TopicsOf(st), TopicField)[i] == TopicIncs(st, 1)[i];
  }

  lemma DistFieldsAreIncrements(st: Stats, p: Path)
    ensures DeltaAt(DistFields(st), p) == DeltaAt(BucketIncs(st, 1), p)
  {
    if st.ratingDistribution.None? {
      ZeroDeltas(DistFields(st), p);
    }
  }

  /** Swapping one block for another with the same final deltas, under a
      head no other block uses, keeps every final delta. */
  lemma SwapBlock(a1: seq<Increment>, a2: seq<Increment>, b: seq<Increment>, b': seq<Increment>,
                  a4: seq<Increment>, a5: seq<Increment>, a6: seq<Increment>, h: string, p: Path)
    requires Under(b, h) && Under(b', h)
    requires forall q :: DeltaAt(b, q) == DeltaAt(b', q)
    requires |p| >= 2 && p[0] == h ==>
      LastDelta(a1, p).None? && LastDelta(a2, p).None? && LastDelta(a4, p).None? && LastDelta(a5, p).None? && LastDelta(a6, p).None?
    ensures DeltaAt(a1 + a2 + b + a4 + a5 + a6, p) == DeltaAt(a1 + a2 + b' + a4 + a5 + a6, p)
  {
    LastDelta6(a1, a2, b, a4, a5, a6, p);
    LastDelta6(a1, a2, b', a4, a5, a6, p);
    if |p| >= 2 && p[0] == h {
      assert DeltaAt(b, p) == DeltaAt(b', p);
      assert LastDelta(a1 + a2 + b + a4 + a5 + a6, p) == LastDelta(b, p);
      assert LastDelta(a1 + a2 + b' + a4 + a5 + a6, p) == LastDelta(b', p);
    } else {
      UnderOther(b, h, p);
      UnderOther(b', h, p);
    }
  }


  /** Category names that sanitising leaves alone. */
  predicate PlainCategories(st: Stats)
  {
    forall i :: 0 <= i < |st.categories| ==> SanitizeFieldName(Some(st.categories[i])) == st.categories[i]
  }

  /** The document created on the first add holds exactly what the add's
      increments would put into an empty document. */
  lemma NewCollegeCacheIsAdd(s: Session, st: Stats, p: Path)
    requires NamedTopics(st) && PlainCategories(st)
    ensures Value(NewCollegeCache(s, st), p) == DeltaAt(CollegeUpdates(s, st, 1), p)
  {
    TopicFieldsAreIncrements(st);
    var cats := Map(st.categories, CategoryField(st.totalResponses));
    assert cats == CollegeCategoryIncs(st, 1) by {
      assert forall i :: 0 <= i < |cats| ==> cats[i] == CollegeCategoryIncs(st, 1)[i];
    }
    forall q ensures DeltaAt(DistFields(st), q) == DeltaAt(BucketIncs(st, 1), q) {
      DistFieldsAreIncrements(st, q);
    }
    if |p| >= 2 && p[0] == "ratingDistribution" {
      CountersShort(st, 1, p);
      UnderOther(TopicIncs(st, 1), "topicsLearned", p);
      UnderOther(CollegeCategoryIncs(st, 1), "categoryData", p);
      UnderOther(DomainIncs(s, st, 1), "domains", p);
      UnderOther(HierarchyIncs(s, st, 1), "courses", p);
    }
    SwapBlock(Counters(st, 1), TopicIncs(st, 1), DistFields(st), BucketIncs(st, 1), CollegeCategoryIncs(st, 1),
              DomainIncs(s, st, 1), HierarchyIncs(s, st, 1), "ratingDistribution", p);
  }

  /** Without dotted names, the written category fields are the first
      session's category increments. */
  lemma CategoryFieldsAreIncrements(st: Stats)
    requires forall i :: 0 <= i < |st.categories| ==> '.' !in st.categories[i]
    ensures Map(st.categories, CategoryField(st.totalResponses)) == TrainerCategoryIncs(st, 1)
  {
    var cats := Map(st.categories, CategoryField(st.totalResponses));
    forall i | 0 <= i < |cats| ensures cats[i] == TrainerCategoryIncs(st, 1)[i] {
      assert IndexOf(st.categories[i], '.') == |st.categories[i]|;
    }
  }

  lemma NewTrainerCacheIsAdd(st: Stats, p: Path)
    requires NamedTopics(st) && forall i :: 0 <= i < |st.categories| ==> '.' !in st.categories[i]
    ensures Value(NewTrainerCache(st), p) == DeltaAt(TrainerUpdates(st, 1), p)
  {
    TopicFieldsAreIncrements(st);
    var cats := Map(st.categories, CategoryField(st.totalResponses));
    CategoryFieldsAreIncrements(st);
    forall q ensures DeltaAt(DistFields(st), q) == DeltaAt(BucketIncs(st, 1), q) {
      DistFieldsAreIncrements(st, q);
    }
    if |p| >= 2 && p[0] == "ratingDistribution" {
      CountersShort(st, 1, p);
      UnderOther(TopicIncs(st, 1), "topicsLearned", p);
      UnderOther(TrainerCategoryIncs(st, 1), "categoryData", p);
    }
    SwapBlock(Counters(st, 1), TopicIncs(st, 1), DistFields(st), BucketIncs(st, 1), TrainerCategoryIncs(st, 1),
              [], [], "ratingDistribution", p);
    assert TrainerUpdates(st, 1) == Counters(st, 1) + TopicIncs(st, 1) + BucketIncs(st, 1) + TrainerCategoryIncs(st, 1) + [] + [];
    assert Counters(st, 1) + Map(TopicsOf(st), TopicField) + DistFields(st) + cats
      == Counters(st, 1) + TopicIncs(st, 1) + DistFields(st) + TrainerCategoryIncs(st, 1) + [] + [];
  }

  // ---------------------------------------------------------------------------
  // Trend documents
  // ---------------------------------------------------------------------------

  /** The two daily counters of the session's day. */
  function TrendUpdates(day: string, tr: int, m: int): seq<Increment>
  {
    [Increment(["dailyResponses", day], tr * m), Increment(["dailySessions", day], 1 * m)]
  }

  /** The trend document the month's first session creates. */
  function NewTrend(day: string, tr: int): Doc
  {
    map[["dailyResponses", day] := tr, ["dailySessions", day] := 1]
  }

  /** An existing trend document moves dailyResponses[day] by ±totalResponses
      and dailySessions[day] by ±1, and nothing else. */
  lemma TrendMoves(d: Doc, day: string, tr: int, isDelete: bool)
    ensures var m := Multiplier(isDelete);
      var r := Apply(d, TrendUpdates(day, tr, m));
      Value(r, ["dailyResponses", day]) == Value(d, ["dailyResponses", day]) + tr * m
      && Value(r, ["dailySessions", day]) == Value(d, ["dailySessions", day]) + m
      && forall p :: p != ["dailyResponses", day] && p != ["dailySessions", day] ==> Value(r, p) == Value(d, p)
  {
    var m := Multiplier(isDelete);
    var u := TrendUpdates(day, tr, m);
    LastDeltaAtIndex(u, 1, u[1].path);
    assert u[1].path != u[0].path;
    LastDeltaAtIndex(u, 0, u[0].path);
    forall p | p != ["dailyResponses", day] && p != ["dailySessions", day] ensures DeltaAt(u, p) == 0 {
      AbsentPath(u, p);
    }
  }

  /** The created trend document is what the add's increments put into an
      empty document, and the delete's increments take it back out. */
  lemma NewTrendIsAdd(day: string, tr: int, p: Path)
    ensures Value(NewTrend(day, tr), p) == DeltaAt(TrendUpdates(day, tr, 1), p)
    ensures Mirrors(TrendUpdates(day, tr, -1), TrendUpdates(day, tr, 1))
  {
    var u := TrendUpdates(day, tr, 1);
    assert u[1].path != u[0].path;
    LastDeltaAtIndex(u, 1, u[1].path);
    LastDeltaAtIndex(u, 0, u[0].path);
    if p != u[0].path && p != u[1].path {
      AbsentPath(u, p);
    }
  }

  // ---------------------------------------------------------------------------
  // updateCollegeCache and updateTrainerCache
  // ---------------------------------------------------------------------------

  /** One collection of cache documents, keyed by college or trainer id,
      and its monthly trend documents, keyed by id and "YYYY-MM". */
  datatype CacheStore = CacheStore(docs: map<string, Doc>, trends: map<(string, string), Doc>)

  function Find<K, V>(m: map<K, V>, k: K): Option<V>
  {
    if k in m then Some(m[k]) else None
  }

  /** An existing document takes the increments; a missing one is created on
      an add and stays missing on a delete. */
  function DocAfter(cur: Option<Doc>, ups: seq<Increment>, created: Doc, isDelete: bool): Option<Doc>
  {
    if cur.Some? then Some(Apply(cur.value, ups))
    else if isDelete then None
    else Some(created)
  }

  function Store<K(!new), V>(m: map<K, V>, k: K, v: Option<V>): (r: map<K, V>)
    ensures Find(r, k) == (if v.Some? then v else Find(m, k))
    ensures forall j :: j != k ==> Find(r, j) == Find(m, j)
  {
    if v.Some? then m[k := v.value] else m
  }

  function TrendKey(id: string, s: Session): (string, string)
    requires ValidDay(s.date)
  {
    (id, YearMonth(s.date))
  }

  /** updateCollegeCache: the college's document and this month's trend
      document change as described; no other document changes. */
  function UpdateCollegeCache(store: CacheStore, collegeId: string, s: Session, st: Stats, isDelete: bool): (r: CacheStore)
    requires ValidDay(s.date)
    ensures forall k :: k != collegeId ==> Find(r.docs, k) == Find(store.docs, k)
    ensures forall k :: k != TrendKey(collegeId, s) ==> Find(r.trends, k) == Find(store.trends, k)
    ensures Find(store.docs, collegeId).None? && isDelete ==> Find(r.docs, collegeId).None?
    ensures Find(store.trends, TrendKey(collegeId, s)).None? && isDelete ==> Find(r.trends, TrendKey(collegeId, s)).None?
  {
    var m := Multiplier(isDelete);
    var key := TrendKey(collegeId, s);
    var doc := DocAfter(Find(store.docs, collegeId), CollegeUpdates(s, st, m), NewCollegeCache(s, st), isDelete);
    var trend := DocAfter(Find(store.trends, key), TrendUpdates(DayOfMonth(s.date), st.totalResponses, m),
                          NewTrend(DayOfMonth(s.date), st.totalResponses), isDelete);
    CacheStore(Store(store.docs, collegeId, doc), Store(store.trends, key, trend))
  }

  /** updateTrainerCache: nothing happens without an assigned trainer id;
      otherwise the trainer's document and trend change like a college's. */
  function UpdateTrainerCache(store: CacheStore, s: Session, st: Stats, isDelete: bool): (r: CacheStore)
    requires ValidDay(s.date)
    ensures Falsy(s.trainerId) ==> r == store
    ensures !Falsy(s.trainerId) ==>
      (forall k :: k != s.trainerId.value ==> Find(r.docs, k) == Find(store.docs, k))
      && (forall k :: k != TrendKey(s.trainerId.value, s) ==> Find(r.trends, k) == Find(store.trends, k))
  {
    if Falsy(s.trainerId) then store
    else
      var id := s.trainerId.value;
      var m := Multiplier(isDelete);
      var key := TrendKey(id, s);
      var doc := DocAfter(Find(store.docs, id), TrainerUpdates(st, m), NewTrainerCache(st), isDelete);
      var trend := DocAfter(Find(store.trends, key), TrendUpdates(DayOfMonth(s.date), st.totalResponses, m),
                            NewTrend(DayOfMonth(s.date), st.totalResponses), isDelete);
      CacheStore(Store(store.docs, id, doc), Store(store.trends, key, trend))
  }

  /** The counter at p of a document, 0 when the document is missing. */
  function Counter(m: map<string, Doc>, k: string, p: Path): int
  {
    if k in m then Value(m[k], p) else 0
  }

  function TrendCounter(m: map<(string, string), Doc>, k: (string, string), p: Path): int
  {
    if k in m then Value(m[k], p) else 0
  }

  /** One document after an add and then a delete of the same session
      reads as before, whether the add found it or created it. */
  lemma AddThenDeleteDoc(cur: Option<Doc>, plus: seq<Increment>, minus: seq<Increment>, created: Doc, p: Path)
    requires Mirrors(minus, plus)
    requires Value(created, p) == DeltaAt(plus, p)
    ensures var after := DocAfter(DocAfter(cur, plus, created, false), minus, created, true);
      after.Some? && Value(after.value, p) == (if cur.Some? then Value(cur.value, p) else 0)
  {
    MirrorDelta(minus, plus, p);
  }

  /** Deleting a session right after adding it restores every counter of the
      college's document and of its trend document (a document the add
      created reads as all zeros). */
  lemma CollegeAddThenDelete(store: CacheStore, collegeId: string, s: Session, st: Stats, p: Path)
    requires ValidDay(s.date) && NamedTopics(st) && PlainCategories(st)
    ensures var after := UpdateCollegeCache(UpdateCollegeCache(store, collegeId, s, st, false), collegeId, s, st, true);
      Counter(after.docs, collegeId, p) == Counter(store.docs, collegeId, p)
      && TrendCounter(after.trends, TrendKey(collegeId, s), p) == TrendCounter(store.trends, TrendKey(collegeId, s), p)
  {
    CollegeMirror(s, st);
    NewCollegeCacheIsAdd(s, st, p);
    NewTrendIsAdd(DayOfMonth(s.date), st.totalResponses, p);
    AddThenDeleteDoc(Find(store.docs, collegeId), CollegeUpdates(s, st, 1), CollegeUpdates(s, st, -1), NewCollegeCache(s, st), p);
    AddThenDeleteDoc(Find(store.trends, TrendKey(collegeId, s)), TrendUpdates(DayOfMonth(s.date), st.totalResponses, 1),
                     TrendUpdates(DayOfMonth(s.date), st.totalResponses, -1), NewTrend(DayOfMonth(s.date), st.totalResponses), p);
  }

  /** The same for the trainer's documents. */
  lemma TrainerAddThenDelete(store: CacheStore, s: Session, st: Stats, p: Path)
    requires ValidDay(s.date) && !Falsy(s.trainerId) && NamedTopics(st)
    requires forall i :: 0 <= i < |st.categories| ==> '.' !in st.categories[i]
    ensures var id := s.trainerId.value;
      var after := UpdateTrainerCache(UpdateTrainerCache(store, s, st, false), s, st, true);
      Counter(after.docs, id, p) == Counter(store.docs, id, p)
      && TrendCounter(after.trends, TrendKey(id, s), p) == TrendCounter(store.trends, TrendKey(id, s), p)
  {
    TrainerMirror(st);
    NewTrainerCacheIsAdd(st, p);
    var id := s.trainerId.value;
    var key := TrendKey(id, s);
    var day := DayOfMonth(s.date);
    NewTrendIsAdd(day, st.totalResponses, p);
    var mid := UpdateTrainerCache(store, s, st, false);
    var doc1 := DocAfter(Find(store.docs, id), TrainerUpdates(st, 1), NewTrainerCache(st), false);
    var trend1 := DocAfter(Find(store.trends, key), TrendUpdates(day, st.totalResponses, 1), NewTrend(day, st.totalResponses), false);
    assert mid == CacheStore(Store(store.docs, id, doc1), Store(store.trends, key, trend1));
    var after := UpdateTrainerCache(mid, s, st, true);
    var doc2 := DocAfter(Find(mid.docs, id), TrainerUpdates(st, -1), NewTrainerCache(st), true);
    var trend2 := DocAfter(Find(mid.trends, key), TrendUpdates(day, st.totalResponses, -1), NewTrend(day, st.totalResponses), true);
    assert after == CacheStore(Store(mid.docs, id, doc2), Store(mid.trends, key, trend2));
    AddThenDeleteDoc(Find(store.docs, id), TrainerUpdates(st, 1), TrainerUpdates(st, -1), NewTrainerCache(st), p);
    AddThenDeleteDoc(Find(store.trends, key), TrendUpdates(day, st.totalResponses, 1),
                     TrendUpdates(day, st.totalResponses, -1), NewTrend(day, st.totalResponses), p);
  }

}
