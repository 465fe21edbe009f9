// The tallies compileSessionStats (src/services/superadmin/responseService.js)
// keeps over the answers of a session's responses: how answer values read
// as numbers, the five rating buckets, the per-question statistics and the
// per-category rating totals. Each tally is a loop over the answers of all
// responses in order (the source nests a forEach over the answers of one
// response inside a forEach over the responses; the model walks the
// concatenation of those answer lists, which visits the same answers in the
// same order).

module ResponseTallies {
  import opened Common
  import opened OrderedMap
  import opened JsValue

  /** One answer of a response: the question, its type and the raw value. */
  datatype Answer = Answer(questionId: string, kind: string, value: Option<Val>)

  /** A question of the session, with its optional category. */
  datatype Question = Question(id: string, category: Option<string>)

  // ---------------------------------------------------------------------------
  // Numbers
  // ---------------------------------------------------------------------------

  /** `Number(v) || 0`: numbers as they are, booleans as 1 and 0, a string
      that is a run of decimal digits once trimmed as its value, and
      everything else as 0 (the blank string, whose Number is 0, and the
      strings whose Number is NaN; a signed or fractional string such as
      "-2" or "4.5" also reads as 0 here). */
  function NumberOrZero(v: Option<Val>): (r: real)
    ensures v.Some? && v.value.Num? ==> r == v.value.n
    ensures !(v.Some? && v.value.Num?) ==> r >= 0.0
    ensures v == Some(Bool(true)) ==> r == 1.0
    ensures v.None? || v == Some(Null) || v == Some(Bool(false)) ==> r == 0.0
  {
    match v
    case Some(Num(n)) => n
    case Some(Bool(b)) => if b then 1.0 else 0.0
    case Some(Str(s)) => if AllDigits(Trim(s)) then DigitsValue(Trim(s)) as real else 0.0
    case _ => 0.0
  }

  /** `Math.round(x)`: the nearest integer, halves rounding up. */
  function Round(x: real): (n: int)
    ensures n as real - 0.5 <= x < n as real + 0.5
  {
    (x + 0.5).Floor
  }

  lemma RoundMonotone(x: real, y: real)
    requires x <= y
    ensures Round(x) <= Round(y)
  {
  }

  /** `Math.round(x * 100) / 100`: x to two decimals. */
  function Round2(x: real): (r: real)
    ensures x - 0.005 < r <= x + 0.005
  {
    Round(x * 100.0) as real / 100.0
  }

  lemma Round2Monotone(x: real, y: real)
    requires x <= y
    ensures Round2(x) <= Round2(y)
  {
    RoundMonotone(x * 100.0, y * 100.0);
  }

  /** `v?.trim()` as a condition: undefined and null are falsy, a string is
      truthy when it holds something besides white space, and any other
      value has no `trim` method, so the call throws. */
  function HasText(v: Option<Val>): (r: Result<bool>)
    ensures r.Err? <==> v.Some? && !v.value.Null? && !v.value.Str?
    ensures r == Ok(true) <==> v.Some? && v.value.Str? && !IsBlank(v.value.s)
  {
    match v
    case None => Ok(false)
    case Some(Null) => Ok(false)
    case Some(Str(s)) => Ok(!IsBlank(s))
    case Some(_) => Err("TypeError: value.trim is not a function")
  }

  /** The sum of a list of numbers. */
  function Total(xs: seq<real>): real
  {
    if xs == [] then 0.0 else Total(xs[..|xs| - 1]) + xs[|xs| - 1]
  }

  /** The mean of a non-empty list, 0 for the empty one (which the source
      never averages). */
  function Mean(xs: seq<real>): real
  {
    if xs == [] then 0.0 else Total(xs) / |xs| as real
  }

  // ---------------------------------------------------------------------------
  // Counting keys
  // ---------------------------------------------------------------------------

  /** How often k occurs in ks. */
  function Occurrences(ks: seq<string>, k: string): (n: nat)
    ensures n > 0 <==> k in ks
  {
    assert ks != [] ==> ks == ks[..|ks| - 1] + [ks[|ks| - 1]];
    if ks == [] then 0 else Occurrences(ks[..|ks| - 1], k) + (if ks[|ks| - 1] == k then 1 else 0)
  }

  /** `counts[k] = (counts[k] || 0) + 1`. */
  function Bump(m: OMap<nat>, k: string): OMap<nat>
  {
    Put(m, k, (if Find(m, k).Some? then Find(m, k).value else 0) + 1)
  }

  /** Counting each key in turn into an empty object. */
  function Tally(ks: seq<string>): OMap<nat>
  {
    if ks == [] then [] else Bump(Tally(ks[..|ks| - 1]), ks[|ks| - 1])
  }

  /** The tally has each key once, in first-occurrence order, with the
      number of its occurrences. */
  lemma TallyCounts(ks: seq<string>, k: string)
    ensures Keyed(Tally(ks)) && Keys(Tally(ks)) == Distinct(ks)
    ensures Find(Tally(ks), k) == if k in ks then Some(Occurrences(ks, k)) else None
  {
    TallyKeys(ks);
    TallyFind(ks, k);
  }

  lemma {:induction false} TallyKeys(ks: seq<string>)
    ensures Keyed(Tally(ks)) && Keys(Tally(ks)) == Distinct(ks)
  {
    if ks != [] {
      var init := ks[..|ks| - 1];
      var x := ks[|ks| - 1];
      TallyKeys(init);
      var t := Tally(init);
      var v := (if Find(t, x).Some? then Find(t, x).value else 0) + 1;
      assert Tally(ks) == Put(t, x, v);
      PutFind(t, x, v, x);
      DistinctSnoc(init, x);
    }
  }

  lemma {:induction false} TallyFind(ks: seq<string>, k: string)
    ensures Find(Tally(ks), k) == if k in ks then Some(Occurrences(ks, k)) else None
  {
    if ks != [] {
      var init := ks[..|ks| - 1];
      var x := ks[|ks| - 1];
      assert ks == init + [x];
      TallyFind(init, k);
      TallyFind(init, x);
      var t := Tally(init);
      var v := (if Find(t, x).Some? then Find(t, x).value else 0) + 1;
      assert Tally(ks) == Put(t, x, v);
      PutFindAny(t, x, v, k);
      assert k in ks <==> k in init || k == x;
      assert Occurrences(ks, k) == Occurrences(init, k) + (if x == k then 1 else 0);
    }
  }

  /** The `topicCounts` loop: each key lower-cased, then counted. */
  method CountLowered(raw: seq<string>) returns (counts: OMap<nat>)
    ensures counts == Tally(Map(raw, ToLower))
  {
    counts := [];
    for i := 0 to |raw|
      invariant counts == Tally(Map(raw[..i], ToLower))
    {
      var normalized := ToLower(raw[i]);
      MapSnoc(raw, ToLower, i);
      assert Map(raw[..i + 1], ToLower)[..i] == Map(raw[..i], ToLower);
      counts := Bump(counts, normalized);
    }
    assert raw[..|raw|] == raw;
  }

  // ---------------------------------------------------------------------------
  // The rating distribution
  // ---------------------------------------------------------------------------

  /** The values of the rating answers, in order. */
  function RatingValues(xs: seq<Answer>): (r: seq<real>)
    ensures |r| <= |xs|
  {
    if xs == [] then []
    else RatingValues(xs[..|xs| - 1]) + (if xs[|xs| - 1].kind == "rating" then [NumberOrZero(xs[|xs| - 1].value)] else [])
  }

  /** One more rating into the five buckets: only a rounded value from 1 to
      5 has a bucket. */
  function AddRating(d: seq<nat>, v: real): (r: seq<nat>)
    requires |d| == 5
    ensures |r| == 5
  {
    var b := Round(v);
    if 1 <= b <= 5 then d[b - 1 := d[b - 1] + 1] else d
  }

  /** `{ 1: 0, 2: 0, 3: 0, 4: 0, 5: 0 }` filled with the values; bucket b
      sits at index b - 1. */
  function Distribution(vals: seq<real>): (d: seq<nat>)
    ensures |d| == 5
  {
    if vals == [] then [0, 0, 0, 0, 0] else AddRating(Distribution(vals[..|vals| - 1]), vals[|vals| - 1])
  }

  /** How many values round to b. */
  function RoundingTo(vals: seq<real>, b: int): nat
  {
    if vals == [] then 0
    else RoundingTo(vals[..|vals| - 1], b) + (if Round(vals[|vals| - 1]) == b then 1 else 0)
  }

  function BucketSum(d: seq<nat>): nat
    requires |d| == 5
  {
    d[0] + d[1] + d[2] + d[3] + d[4]
  }

  /** Each bucket counts the values that round to it, and the buckets hold
      no more than all the values. */
  lemma {:induction false} DistributionCounts(vals: seq<real>)
    ensures forall b :: 1 <= b <= 5 ==> Distribution(vals)[b - 1] == RoundingTo(vals, b)
    ensures BucketSum(Distribution(vals)) <= |vals|
  {
    if vals != [] {
      DistributionCounts(vals[..|vals| - 1]);
    }
  }

  /** The `ratingDistribution` loop over all answers. */
  method RatingDistribution(answers: seq<Answer>) returns (d: seq<nat>)
    ensures d == Distribution(RatingValues(answers))
  {
    d := [0, 0, 0, 0, 0];
    for i := 0 to |answers|
      invariant d == Distribution(RatingValues(answers[..i]))
    {
      var a := answers[i];
      assert answers[..i + 1][..i] == answers[..i] && answers[..i + 1][i] == a;
      if a.kind == "rating" {
        var val := Round(NumberOrZero(a.value));
        var vals := RatingValues(answers[..i + 1]);
        assert vals == RatingValues(answers[..i]) + [NumberOrZero(a.value)];
        assert vals[..|vals| - 1] == RatingValues(answers[..i]);
        assert Distribution(vals) == AddRating(d, NumberOrZero(a.value));
        if 1 <= val <= 5 {
          d := d[val - 1 := d[val - 1] + 1];
        }
      } else {
        assert RatingValues(answers[..i + 1]) == RatingValues(answers[..i]);
      }
    }
    assert answers[..|answers|] == answers;
  }

  // ---------------------------------------------------------------------------
  // Per-question statistics
  // ---------------------------------------------------------------------------

  /** `{ type, values, count }` while the answers are walked. */
  datatype QuestionAcc = QuestionAcc(kind: string, values: seq<Option<Val>>, count: nat)

  /** The first answer to a question fixes its type; every answer adds its
      value and one to the count. */
  function Record(m: OMap<QuestionAcc>, a: Answer): OMap<QuestionAcc>
  {
    var acc := if Find(m, a.questionId).Some? then Find(m, a.questionId).value else QuestionAcc(a.kind, [], 0);
    Put(m, a.questionId, acc.(values := acc.values + [a.value], count := acc.count + 1))
  }

  function QuestionAccs(xs: seq<Answer>): OMap<QuestionAcc>
  {
    if xs == [] then [] else Record(QuestionAccs(xs[..|xs| - 1]), xs[|xs| - 1])
  }

  /** The type of the first answer to q, if any. */
  function FirstKind(xs: seq<Answer>, q: string): Option<string>
  {
    if xs == [] then None
    else if FirstKind(xs[..|xs| - 1], q).Some? then FirstKind(xs[..|xs| - 1], q)
    else if xs[|xs| - 1].questionId == q then Some(xs[|xs| - 1].kind)
    else None
  }

  /** The values of the answers to q, in order. */
  function ValuesTo(xs: seq<Answer>, q: string): (r: seq<Option<Val>>)
    ensures r == [] <==> FirstKind(xs, q).None?
  {
    if xs == [] then []
    else ValuesTo(xs[..|xs| - 1], q) + (if xs[|xs| - 1].questionId == q then [xs[|xs| - 1].value] else [])
  }

  /** A question has an entry exactly when it was answered; the entry has the
      first answer's type, the values of all its answers in order, and their
      number as its count. */
  lemma QuestionAccsFind(xs: seq<Answer>, q: string)
    ensures Keyed(QuestionAccs(xs))
    ensures Find(QuestionAccs(xs), q) ==
      if FirstKind(xs, q).Some? then Some(QuestionAcc(FirstKind(xs, q).value, ValuesTo(xs, q), |ValuesTo(xs, q)|)) else None
  {
    QuestionAccsKeyed(xs);
    QuestionAccsEntry(xs, q);
  }

  lemma {:induction false} QuestionAccsKeyed(xs: seq<Answer>)
    ensures Keyed(QuestionAccs(xs))
  {
    if xs != [] {
      var init := xs[..|xs| - 1];
      var a := xs[|xs| - 1];
      QuestionAccsKeyed(init);
      var m := QuestionAccs(init);
      var acc := if Find(m, a.questionId).Some? then Find(m, a.questionId).value else QuestionAcc(a.kind, [], 0);
      var acc' := acc.(values := acc.values + [a.value], count := acc.count + 1);
      assert QuestionAccs(xs) == Put(m, a.questionId, acc');
      PutFind(m, a.questionId, acc', a.questionId);
    }
  }

  lemma {:induction false} QuestionAccsEntry(xs: seq<Answer>, q: string)
    ensures Find(QuestionAccs(xs), q) ==
      if FirstKind(xs, q).Some? then Some(QuestionAcc(FirstKind(xs, q).value, ValuesTo(xs, q), |ValuesTo(xs, q)|)) else None
  {
    if xs != [] {
      var init := xs[..|xs| - 1];
      var a := xs[|xs| - 1];
      QuestionAccsKeyed(init);
      QuestionAccsEntry(init, q);
      QuestionAccsEntry(init, a.questionId);
      var m := QuestionAccs(init);
      var acc := if Find(m, a.questionId).Some? then Find(m, a.questionId).value else QuestionAcc(a.kind, [], 0);
      var acc' := acc.(values := acc.values + [a.value], count := acc.count + 1);
      assert QuestionAccs(xs) == Put(m, a.questionId, acc');
      PutFind(m, a.questionId, acc', q);
      if a.questionId == q {
        assert ValuesTo(xs, q) == ValuesTo(init, q) + [a.value];
      } else {
        assert ValuesTo(xs, q) == ValuesTo(init, q);
        assert FirstKind(xs, q) == FirstKind(init, q);
      }
    }
  }

  /** A finished question statistic: the raw values are gone; a rating
      question has its mean and its five buckets, a multiple-choice question
      the count of each option. */
  datatype QuestionStat = QuestionStat(kind: string, count: nat, avg: Option<real>,
                                       distribution: Option<seq<nat>>, optionCounts: Option<OMap<nat>>)

  /** `stat.optionCounts[v]`: the property name a value turns into. */
  function KeyOf(v: Option<Val>): string
  {
    match v
    case None => "undefined"
    case Some(Null) => "null"
    case Some(Bool(b)) => if b then "true" else "false"
    case Some(Str(s)) => s
    case Some(Num(n)) => IntStr(n.Floor)
    case Some(Arr(_)) => "[array]"
    case Some(Obj(_)) => "[object Object]"
  }

  /** `String(n)` for an integer. */
  function IntStr(n: int): string
  {
    if n < 0 then "-" + NatStr(-n) else NatStr(n)
  }

  function Finalise(acc: QuestionAcc): (r: QuestionStat)
    ensures r.kind == acc.kind && r.count == acc.count
    ensures r.avg.Some? <==> acc.kind == "rating"
    ensures r.optionCounts.Some? <==> acc.kind == "mcq"
  {
    if acc.kind == "rating" then
      var nums := Map(acc.values, NumberOrZero);
      QuestionStat(acc.kind, acc.count, Some(Mean(nums)), Some(Distribution(nums)), None)
    else if acc.kind == "mcq" then
      QuestionStat(acc.kind, acc.count, None, None, Some(Tally(Map(acc.values, KeyOf))))
    else QuestionStat(acc.kind, acc.count, None, None, None)
  }

  function QuestionStats(xs: seq<Answer>): OMap<QuestionStat>
  {
    MapValues(QuestionAccs(xs), Finalise)
  }

  /** `questionStats[q].count` is the number of answers to q, its type is the
      first answer's, and a rating question's buckets count its values. */
  lemma QuestionStatsCount(xs: seq<Answer>, q: string)
    ensures Find(QuestionStats(xs), q).Some? <==> FirstKind(xs, q).Some?
    ensures Find(QuestionStats(xs), q).Some? ==>
      var s := Find(QuestionStats(xs), q).value;
      s.count == |ValuesTo(xs, q)| && s.kind == FirstKind(xs, q).value
      && (s.kind == "rating" ==> s.distribution == Some(Distribution(Map(ValuesTo(xs, q), NumberOrZero))))
  {
    QuestionAccsFind(xs, q);
    var m := QuestionAccs(xs);
    if Has(m, q) {
      var i := OrderedMap.IndexOf(m, q);
      KeyedIndex(QuestionStats(xs), q, i);
    }
  }

  /** The `questionStats` loops: one over all answers, then one over the
      questions replacing the raw values by the summaries. */
  method BuildQuestionStats(answers: seq<Answer>) returns (stats: OMap<QuestionStat>)
    ensures stats == QuestionStats(answers)
  {
    var accs: OMap<QuestionAcc> := [];
    for i := 0 to |answers|
      invariant accs == QuestionAccs(answers[..i])
    {
      assert answers[..i + 1][..i] == answers[..i];
      accs := Record(accs, answers[i]);
    }
    assert answers[..|answers|] == answers;
    stats := [];
    for j := 0 to |accs|
      invariant stats == MapValues(accs[..j], Finalise)
    {
      stats := stats + [(accs[j].0, Finalise(accs[j].1))];
    }
    assert accs[..|accs|] == accs;
  }

  // ---------------------------------------------------------------------------
  // Category averages
  // ---------------------------------------------------------------------------

  /** `questionCategoryMap`: the questions with a non-empty category, a
      later question with the same id overriding an earlier one. */
  function CategoryMap(qs: seq<Question>): OMap<string>
  {
    if qs == [] then []
    else
      var m := CategoryMap(qs[..|qs| - 1]);
      var q := qs[|qs| - 1];
      if q.category.Some? && q.category.value != "" then Put(m, q.id, q.category.value) else m
  }

  /** `questionCategoryMap[a.questionId] || 'overall'`. */
  function CategoryOf(cm: OMap<string>, qid: string): (c: string)
    ensures c != ""
  {
    if Find(cm, qid).Some? && Find(cm, qid).value != "" then Find(cm, qid).value else "overall"
  }

  /** A question that no session question gives a category is rated under
      "overall". */
  lemma {:induction false} UncategorisedIsOverall(qs: seq<Question>, qid: string)
    requires forall i :: 0 <= i < |qs| && qs[i].id == qid ==> qs[i].category.None? || qs[i].category.value == ""
    ensures CategoryOf(CategoryMap(qs), qid) == "overall"
    ensures Find(CategoryMap(qs), qid).None?
  {
    if qs != [] {
      var init := qs[..|qs| - 1];
      var q := qs[|qs| - 1];
      UncategorisedIsOverall(init, qid);
      if q.category.Some? && q.category.value != "" {
        PutFindAny(CategoryMap(init), q.id, q.category.value, qid);
      }
    }
  }

  /** The category and numeric value of each rating answer, in order. */
  function RatedCategories(cm: OMap<string>, xs: seq<Answer>): (r: seq<(string, real)>)
    ensures |r| <= |xs|
  {
    if xs == [] then []
    else
      var a := xs[|xs| - 1];
      RatedCategories(cm, xs[..|xs| - 1])
        + (if a.kind == "rating" then [(CategoryOf(cm, a.questionId), NumberOrZero(a.value))] else [])
  }

  /** Running total and count of one category. */
  datatype CategoryAcc = CategoryAcc(total: real, count: nat)

  /** The step as written: `if (!categoryTotals[category])` restarts both the
      total and the count whenever the running total is 0, not only when the
      category is new. */
  function AddToCategoryAsWritten(m: OMap<CategoryAcc>, cat: string, v: real): OMap<CategoryAcc>
  {
    var cur := Find(m, cat);
    var base := if cur.Some? && cur.value.total != 0.0 then cur.value else CategoryAcc(0.0, 0);
    Put(m, cat, CategoryAcc(base.total + v, base.count + 1))
  }

  /** The step as intended: start from zero only for a new category. */
  function AddToCategory(m: OMap<CategoryAcc>, cat: string, v: real): OMap<CategoryAcc>
  {
    var cur := Find(m, cat);
    var base := if cur.Some? then cur.value else CategoryAcc(0.0, 0);
    Put(m, cat, CategoryAcc(base.total + v, base.count + 1))
  }

  function CategoryTotalsAsWritten(ps: seq<(string, real)>): OMap<CategoryAcc>
  {
    if ps == [] then [] else AddToCategoryAsWritten(CategoryTotalsAsWritten(ps[..|ps| - 1]), ps[|ps| - 1].0, ps[|ps| - 1].1)
  }

  function CategoryTotals(ps: seq<(string, real)>): OMap<CategoryAcc>
  {
    if ps == [] then [] else AddToCategory(CategoryTotals(ps[..|ps| - 1]), ps[|ps| - 1].0, ps[|ps| - 1].1)
  }

  /** The values rated under category c, in order. */
  function ValuesIn(ps: seq<(string, real)>, c: string): seq<real>
  {
    if ps == [] then [] else ValuesIn(ps[..|ps| - 1], c) + (if ps[|ps| - 1].0 == c then [ps[|ps| - 1].1] else [])
  }

  /** With the intended step each category holds the sum and the number of
      the values rated under it. */
  lemma {:induction false} CategoryTotalsSum(ps: seq<(string, real)>, c: string)
    ensures Keyed(CategoryTotals(ps))
    ensures Find(CategoryTotals(ps), c) ==
      if ValuesIn(ps, c) != [] then Some(CategoryAcc(Total(ValuesIn(ps, c)), |ValuesIn(ps, c)|)) else None
  {
    if ps != [] {
      var init := ps[..|ps| - 1];
      CategoryTotalsSum(init, c);
      CategoryTotalsSum(init, ps[|ps| - 1].0);
      CategoryStep(init, ps[|ps| - 1], c);
    }
  }

  lemma CategoryStep(init: seq<(string, real)>, p: (string, real), c: string)
    requires Keyed(CategoryTotals(init))
    requires Find(CategoryTotals(init), c) ==
      if ValuesIn(init, c) != [] then Some(CategoryAcc(Total(ValuesIn(init, c)), |ValuesIn(init, c)|)) else None
    requires Find(CategoryTotals(init), p.0) ==
      if ValuesIn(init, p.0) != [] then Some(CategoryAcc(Total(ValuesIn(init, p.0)), |ValuesIn(init, p.0)|)) else None
    ensures Keyed(CategoryTotals(init + [p]))
    ensures Find(CategoryTotals(init + [p]), c) ==
      if ValuesIn(init + [p], c) != [] then Some(CategoryAcc(Total(ValuesIn(init + [p], c)), |ValuesIn(init + [p], c)|)) else None
  {
    var m := CategoryTotals(init);
    CategoryTotalsSnoc(init, p);
    AddToCategoryFind(m, p.0, p.1, c);
    ValuesInSnoc(init, p, c);
    if p.0 == c {
      var vs := ValuesIn(init, c);
      TotalSnoc(vs, p.1);
      var ws := ValuesIn(init + [p], c);
      assert ws == vs + [p.1] && ws != [];
      if vs == [] {
        assert Total(vs) == 0.0;
        assert Find(m, c).None?;
        assert Find(CategoryTotals(init + [p]), c) == Some(CategoryAcc(p.1, 1));
      } else {
        assert Find(m, c) == Some(CategoryAcc(Total(vs), |vs|));
        assert Find(CategoryTotals(init + [p]), c) == Some(CategoryAcc(Total(vs) + p.1, |vs| + 1));
      }
      assert Total(ws) == Total(vs) + p.1;
    } else {
      assert ValuesIn(init + [p], c) == ValuesIn(init, c);
    }
  }

  lemma AddToCategoryFind(m: OMap<CategoryAcc>, cat: string, v: real, c: string)
    requires Keyed(m)
    ensures Keyed(AddToCategory(m, cat, v))
    ensures Find(AddToCategory(m, cat, v), c) ==
      if c != cat then Find(m, c)
      else if Find(m, cat).Some? then Some(CategoryAcc(Find(m, cat).value.total + v, Find(m, cat).value.count + 1))
      else Some(CategoryAcc(v, 1))
  {
    var base := if Find(m, cat).Some? then Find(m, cat).value else CategoryAcc(0.0, 0);
    PutFind(m, cat, CategoryAcc(base.total + v, base.count + 1), c);
  }

  /** `Math.round((total / count) * 100) / 100` for every category. */
  function Averages(m: OMap<CategoryAcc>): OMap<real>
  {
    MapValues(m, (a: CategoryAcc) => if a.count == 0 then 0.0 else Round2(a.total / a.count as real))
  }

  lemma CategoryTotalsSnoc(init: seq<(string, real)>, p: (string, real))
    ensures CategoryTotals(init + [p]) == AddToCategory(CategoryTotals(init), p.0, p.1)
  {
    SnocParts(init, p);
  }

  lemma ValuesInSnoc(init: seq<(string, real)>, p: (string, real), c: string)
    ensures ValuesIn(init + [p], c) == ValuesIn(init, c) + (if p.0 == c then [p.1] else [])
  {
    SnocParts(init, p);
  }

  lemma TotalSnoc(xs: seq<real>, x: real)
    ensures Total(xs + [x]) == Total(xs) + x
  {
    SnocParts(xs, x);
  }

  lemma SnocParts<T>(init: seq<T>, p: T)
    ensures var ps := init + [p]; ps != [] && ps[..|ps| - 1] == init && ps[|ps| - 1] == p
  {
  }

  /** Each category's average is the mean of the values rated under it, to
      two decimals. */
  lemma CategoryAverageIsMean(ps: seq<(string, real)>, c: string)
    requires ValuesIn(ps, c) != []
    ensures Find(Averages(CategoryTotals(ps)), c) == Some(Round2(Mean(ValuesIn(ps, c))))
  {
    CategoryTotalsSum(ps, c);
    var m := CategoryTotals(ps);
    assert Has(m, c);
    var i := OrderedMap.IndexOf(m, c);
    KeyedIndex(Averages(m), c, i);
  }

  /** As written, a category whose first rating reads as 0 loses that
      rating: with the values 0 and 4 the average comes out 4, not 2. */
  lemma ZeroRatingDropped()
    ensures var ps := [("overall", 0.0), ("overall", 4.0)];
      Find(Averages(CategoryTotalsAsWritten(ps)), "overall") == Some(4.0)
      && Find(Averages(CategoryTotals(ps)), "overall") == Some(2.0)
  {
    var e: seq<(string, real)> := [];
    var p1 := e + [("overall", 0.0)];
    var ps := p1 + [("overall", 4.0)];
    assert p1[..|p1| - 1] == e && ps[..|ps| - 1] == p1;
    var empty: OMap<CategoryAcc> := [];
    assert Keys(empty) == [];
    var m1 := CategoryTotalsAsWritten(p1);
    assert p1 != [] && p1[|p1| - 1] == ("overall", 0.0);
    assert CategoryTotalsAsWritten(e) == empty;
    assert m1 == AddToCategoryAsWritten(CategoryTotalsAsWritten(e), "overall", 0.0);
    assert m1 == AddToCategoryAsWritten(empty, "overall", 0.0);
    assert m1 == [("overall", CategoryAcc(0.0, 1))];
    assert Find(m1, "overall") == Some(CategoryAcc(0.0, 1)) by {
      FindFirst(m1, 0);
    }
    assert CategoryTotalsAsWritten(ps) == [("overall", CategoryAcc(4.0, 1))];
    FindFirst(Averages(CategoryTotalsAsWritten(ps)), 0);
    assert Round(400.0) == 400;
    var n1 := CategoryTotals(p1);
    assert CategoryTotals(e) == empty;
    assert n1 == AddToCategory(CategoryTotals(e), "overall", 0.0);
    assert n1 == AddToCategory(empty, "overall", 0.0);
    assert n1 == [("overall", CategoryAcc(0.0, 1))];
    assert Find(n1, "overall") == Some(CategoryAcc(0.0, 1)) by {
      FindFirst(n1, 0);
    }
    assert CategoryTotals(ps) == [("overall", CategoryAcc(4.0, 2))];
    FindFirst(Averages(CategoryTotals(ps)), 0);
    assert Round(200.0) == 200;
  }

  /** While every value is positive no running total is ever 0, so the step
      as written never restarts a category and agrees with the intended one. */
  lemma {:induction false} AsWrittenOnPositive(ps: seq<(string, real)>)
    requires forall i :: 0 <= i < |ps| ==> ps[i].1 > 0.0
    ensures CategoryTotalsAsWritten(ps) == CategoryTotals(ps)
  {
    if ps != [] {
      var init := ps[..|ps| - 1];
      var p := ps[|ps| - 1];
      AsWrittenOnPositive(init);
      PositiveTotals(init);
      var m := CategoryTotals(init);
      assert CategoryTotals(ps) == AddToCategory(m, p.0, p.1);
      assert CategoryTotalsAsWritten(ps) == AddToCategoryAsWritten(m, p.0, p.1);
      if Find(m, p.0).Some? {
        assert Find(m, p.0).value.total > 0.0;
      }
    }
  }

  /** With positive values every running total is positive. */
  lemma {:induction false} PositiveTotals(ps: seq<(string, real)>)
    requires forall i :: 0 <= i < |ps| ==> ps[i].1 > 0.0
    ensures forall k :: Find(CategoryTotals(ps), k).Some? ==> Find(CategoryTotals(ps), k).value.total > 0.0
  {
    if ps != [] {
      var init := ps[..|ps| - 1];
      var p := ps[|ps| - 1];
      PositiveTotals(init);
      var m := CategoryTotals(init);
      var base := if Find(m, p.0).Some? then Find(m, p.0).value else CategoryAcc(0.0, 0);
      var acc := CategoryAcc(base.total + p.1, base.count + 1);
      assert CategoryTotals(ps) == Put(m, p.0, acc);
      forall k | Find(CategoryTotals(ps), k).Some?
        ensures Find(CategoryTotals(ps), k).value.total > 0.0
      {
        PutFindAny(m, p.0, acc, k);
      }
    }
  }

  lemma RatedStep(cm: OMap<string>, answers: seq<Answer>, i: nat)
    requires i < |answers|
    ensures RatedCategories(cm, answers[..i + 1]) == RatedCategories(cm, answers[..i])
      + (if answers[i].kind == "rating" then [(CategoryOf(cm, answers[i].questionId), NumberOrZero(answers[i].value))] else [])
  {
    assert answers[..i + 1][..i] == answers[..i];
  }

  lemma TotalsSnoc(ps: seq<(string, real)>, x: (string, real))
    ensures CategoryTotalsAsWritten(ps + [x]) == AddToCategoryAsWritten(CategoryTotalsAsWritten(ps), x.0, x.1)
  {
    assert (ps + [x])[..|ps|] == ps;
  }

  /** The category loop over all answers, with the step as written. */
  method CategoryAverages(answers: seq<Answer>, qs: seq<Question>) returns (avgs: OMap<real>)
    ensures avgs == Averages(CategoryTotalsAsWritten(RatedCategories(CategoryMap(qs), answers)))
  {
    var cm := CategoryMap(qs);
    var totals: OMap<CategoryAcc> := [];
    for i := 0 to |answers|
      invariant totals == CategoryTotalsAsWritten(RatedCategories(cm, answers[..i]))
    {
      var a := answers[i];
      RatedStep(cm, answers, i);
      if a.kind == "rating" {
        var category := CategoryOf(cm, a.questionId);
        var value := NumberOrZero(a.value);
        TotalsSnoc(RatedCategories(cm, answers[..i]), (category, value));
        totals := AddToCategoryAsWritten(totals, category, value);
      } else {
        assert RatedCategories(cm, answers[..i + 1]) == RatedCategories(cm, answers[..i]);
      }
    }
    assert answers[..|answers|] == answers;
    avgs := Averages(totals);
  }
}
