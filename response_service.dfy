// compileSessionStats in src/services/superadmin/responseService.js, from
// the moment the session's responses are fetched: per-response averages,
// the global rating figures, the 20/60/20 split of the responses by
// average, the comments drawn from each group, the topics learned, the
// future-session wishes, and the tallies of ResponseTallies.

module ResponseService {
  import opened Common
  import opened OrderedMap
  import opened JsValue
  import opened ResponseTallies

  /** A stored response: its document id and its answers (which may be
      missing). */
  datatype Response = Response(id: string, answers: Option<seq<Answer>>)

  /** `response.answers || []`. */
  function AnswersOf(r: Response): seq<Answer>
  {
    if r.answers.Some? then r.answers.value else []
  }

  /** The answers of all responses, response by response. */
  function AllAnswers(rs: seq<Response>): seq<Answer>
  {
    Concat(Map(rs, AnswersOf))
  }

  /** The answer types whose value the code trims. */
  predicate Trimmed(kind: string)
  {
    kind == "text" || kind == "topicslearned" || kind == "futureSession"
  }

  /** Every trimmed answer holds a string, null or nothing; anything else
      makes `value?.trim()` throw. */
  predicate TrimmableAnswers(xs: seq<Answer>)
  {
    forall i :: 0 <= i < |xs| && Trimmed(xs[i].kind) ==> HasText(xs[i].value).Ok?
  }

  /** The string of an answer whose value has text. */
  function TextOf(a: Answer): string
  {
    if a.value.Some? && a.value.value.Str? then a.value.value.s else ""
  }

  predicate IsTextComment(a: Answer)
  {
    a.kind == "text" && HasText(a.value) == Ok(true)
  }

  // ---------------------------------------------------------------------------
  // Per-response statistics
  // ---------------------------------------------------------------------------

  /** `{ responseId, avgRating, textComments, answers }`. */
  datatype ResponseStat = ResponseStat(responseId: string, avgRating: real, textComments: seq<string>, answers: seq<Answer>)

  /** The text answers that hold more than white space, untrimmed, in order. */
  function TextComments(xs: seq<Answer>): (r: seq<string>)
    ensures forall i :: 0 <= i < |r| ==> !IsBlank(r[i])
    ensures |r| <= |xs|
  {
    if xs == [] then []
    else
      var rest := TextComments(xs[1..]);
      if IsTextComment(xs[0]) then
        var r := [TextOf(xs[0])] + rest;
        assert !IsBlank(r[0]);
        assert forall i :: 0 < i < |r| ==> r[i] == rest[i - 1];
        r
      else rest
  }

  /** The statistics of one response: the mean of its rating answers (0
      without any) and its text comments. */
  function StatOf(r: Response): (s: ResponseStat)
    ensures s.responseId == r.id && s.answers == AnswersOf(r)
    ensures s.textComments == TextComments(AnswersOf(r))
    ensures RatingValues(AnswersOf(r)) == [] ==> s.avgRating == 0.0
    ensures RatingValues(AnswersOf(r)) != [] ==> s.avgRating == Total(RatingValues(AnswersOf(r))) / |RatingValues(AnswersOf(r))| as real
  {
    var answers := AnswersOf(r);
    ResponseStat(r.id, Mean(RatingValues(answers)), TextComments(answers), answers)
  }

  // ---------------------------------------------------------------------------
  // Global rating figures
  // ---------------------------------------------------------------------------

  /** `allRatings`: the positive per-response averages. */
  function PositiveAverages(stats: seq<ResponseStat>): (r: seq<real>)
    ensures forall i :: 0 <= i < |r| ==> r[i] > 0.0
    ensures |r| <= |stats|
  {
    if stats == [] then []
    else
      var last := stats[|stats| - 1];
      PositiveAverages(stats[..|stats| - 1]) + (if last.avgRating > 0.0 then [last.avgRating] else [])
  }

  function MaxOf(xs: seq<real>): (m: real)
    requires xs != []
    ensures m in xs && forall i :: 0 <= i < |xs| ==> xs[i] <= m
  {
    if |xs| == 1 then xs[0]
    else
      var m := MaxOf(xs[..|xs| - 1]);
      assert forall i :: 0 <= i < |xs| - 1 ==> xs[i] == xs[..|xs| - 1][i];
      if xs[|xs| - 1] > m then xs[|xs| - 1] else m
  }

  function MinOf(xs: seq<real>): (m: real)
    requires xs != []
    ensures m in xs && forall i :: 0 <= i < |xs| ==> m <= xs[i]
  {
    if |xs| == 1 then xs[0]
    else
      var m := MinOf(xs[..|xs| - 1]);
      assert forall i :: 0 <= i < |xs| - 1 ==> xs[i] == xs[..|xs| - 1][i];
      if xs[|xs| - 1] < m then xs[|xs| - 1] else m
  }

  /** The global average: the mean of the positive averages, 2.5 without any. */
  function GlobalAverage(stats: seq<ResponseStat>): real
  {
    var all := PositiveAverages(stats);
    if all != [] then Mean(all) else 2.5
  }

  function TopRating(stats: seq<ResponseStat>): real
  {
    var all := PositiveAverages(stats);
    if all != [] then MaxOf(all) else 0.0
  }

  function LeastRating(stats: seq<ResponseStat>): real
  {
    var all := PositiveAverages(stats);
    if all != [] then MinOf(all) else 0.0
  }

  lemma {:induction false} TotalBetween(xs: seq<real>, lo: real, hi: real)
    requires forall i :: 0 <= i < |xs| ==> lo <= xs[i] <= hi
    ensures |xs| as real * lo <= Total(xs) <= |xs| as real * hi
  {
    if xs != [] {
      var init := xs[..|xs| - 1];
      assert forall i :: 0 <= i < |init| ==> init[i] == xs[i];
      TotalBetween(init, lo, hi);
      assert |xs| as real * lo == |init| as real * lo + lo;
      assert |xs| as real * hi == |init| as real * hi + hi;
    }
  }

  lemma DivBetween(t: real, n: real, lo: real, hi: real)
    requires n > 0.0 && n * lo <= t <= n * hi
    ensures lo <= t / n <= hi
  {
  }

  /** The mean of a non-empty list lies between its least and its greatest
      element. */
  lemma MeanBetween(xs: seq<real>)
    requires xs != []
    ensures MinOf(xs) <= Mean(xs) <= MaxOf(xs)
  {
    var lo, hi := MinOf(xs), MaxOf(xs);
    TotalBetween(xs, lo, hi);
    DivBetween(Total(xs), |xs| as real, lo, hi);
  }

  /** With at least one positive average, the least rating, the global
      average and the top rating are in order. */
  lemma RatingsOrdered(stats: seq<ResponseStat>)
    requires PositiveAverages(stats) != []
    ensures 0.0 < LeastRating(stats) <= GlobalAverage(stats) <= TopRating(stats)
  {
    MeanBetween(PositiveAverages(stats));
  }

  /** The same order holds once the three figures are rounded to two
      decimals, as the dashboard shows them. */
  lemma RoundedRatingsOrdered(stats: seq<ResponseStat>)
    requires PositiveAverages(stats) != []
    ensures Round2(LeastRating(stats)) <= Round2(GlobalAverage(stats)) <= Round2(TopRating(stats))
  {
    RatingsOrdered(stats);
    Round2Monotone(LeastRating(stats), GlobalAverage(stats));
    Round2Monotone(GlobalAverage(stats), TopRating(stats));
  }

  // ---------------------------------------------------------------------------
  // Sorting by average and the 20/60/20 split
  // ---------------------------------------------------------------------------

  predicate SortedByAverage(s: seq<ResponseStat>)
  {
    forall i, j :: 0 <= i < j < |s| ==> s[i].avgRating >= s[j].avgRating
  }

  function InsertByAverage(x: ResponseStat, s: seq<ResponseStat>): (r: seq<ResponseStat>)
    requires SortedByAverage(s)
    ensures SortedByAverage(r)
    ensures multiset(r) == multiset(s) + multiset{x}
  {
    if s == [] || x.avgRating >= s[0].avgRating then [x] + s
    else
      var t := InsertByAverage(x, s[1..]);
      BoundedByMultiset(t, s[1..], x, s[0].avgRating);
      assert s == [s[0]] + s[1..];
      [s[0]] + t
  }

  /** A list holding the elements of u and x has no average above a bound
      that u's averages and x's respect. */
  lemma BoundedByMultiset(t: seq<ResponseStat>, u: seq<ResponseStat>, x: ResponseStat, a: real)
    requires multiset(t) == multiset(u) + multiset{x}
    requires x.avgRating <= a
    requires forall i :: 0 <= i < |u| ==> u[i].avgRating <= a
    ensures forall i :: 0 <= i < |t| ==> t[i].avgRating <= a
  {
    forall i | 0 <= i < |t| ensures t[i].avgRating <= a {
      assert t[i] in multiset(t);
      if t[i] != x {
        assert t[i] in multiset(u);
        var j :| 0 <= j < |u| && u[j] == t[i];
      }
    }
  }

  /** `[...responseStats].sort((a, b) => b.avgRating - a.avgRating)`. */
  function SortByAverage(s: seq<ResponseStat>): (r: seq<ResponseStat>)
    ensures SortedByAverage(r)
    ensures multiset(r) == multiset(s)
    ensures |r| == |s|
  {
    if s == [] then []
    else
      var r := InsertByAverage(s[0], SortByAverage(s[1..]));
      assert s == [s[0]] + s[1..];
      assert |r| == |multiset(r)| == |multiset(s)|;
      r
  }

  /** `Math.ceil(n * 0.2)`, which for every whole n is ⌈n / 5⌉. */
  function Cutoff(n: nat): (c: nat)
    ensures c <= n
    ensures 5 * c >= n && 5 * (c - 1) < n
  {
    (n + 4) / 5
  }

  function Reversed<T>(s: seq<T>): (r: seq<T>)
    ensures |r| == |s| && forall i :: 0 <= i < |s| ==> r[i] == s[|s| - 1 - i]
  {
    if s == [] then [] else Reversed(s[1..]) + [s[0]]
  }

  /** `slice(a, b)` with 0 <= a and b <= |s|: empty when a passes b. */
  function Slice<T>(s: seq<T>, a: nat, b: nat): seq<T>
    requires a <= |s| && b <= |s|
  {
    if a <= b then s[a..b] else []
  }

  /** The high, low and middle groups of the sorted responses. */
  datatype Groups = Groups(high: seq<ResponseStat>, low: seq<ResponseStat>, mid: seq<ResponseStat>)

  function Percentiles(sorted: seq<ResponseStat>): Groups
  {
    var n := |sorted|;
    var c := Cutoff(n);
    Groups(sorted[..c], Reversed(sorted[n - c..]), Slice(sorted, c, n - c))
  }

  /** From two responses on, the groups take ⌈n/5⌉ from the top and the same
      number from the bottom, lowest first, and together with the middle they
      are exactly the sorted list; a single response is both high and low. */
  lemma PercentilesCover(sorted: seq<ResponseStat>)
    ensures var g := Percentiles(sorted); var c := Cutoff(|sorted|);
      |g.high| == c && |g.low| == c
      && (|sorted| >= 2 ==> g.high + g.mid + Reversed(g.low) == sorted)
      && (|sorted| == 1 ==> g.high == sorted && g.low == sorted && g.mid == [])
  {
    if |sorted| >= 2 {
      PercentilesRejoin(sorted);
    } else if |sorted| == 1 {
      PercentilesSingle(sorted);
    }
  }

  lemma PercentilesRejoin(sorted: seq<ResponseStat>)
    requires |sorted| >= 2
    ensures var g := Percentiles(sorted);
      g.high + g.mid + Reversed(g.low) == sorted
  {
    var n := |sorted|;
    var c := Cutoff(n);
    var g := Percentiles(sorted);
    assert c <= n - c;
    assert g.high == sorted[..c];
    assert g.mid == sorted[c..n - c];
    assert g.low == Reversed(sorted[n - c..]);
    ReversedTwice(sorted[n - c..]);
    ThreeParts(sorted, c, n - c);
  }

  lemma PercentilesSingle(sorted: seq<ResponseStat>)
    requires |sorted| == 1
    ensures var g := Percentiles(sorted);
      g.high == sorted && g.low == sorted && g.mid == []
  {
    var g := Percentiles(sorted);
    assert Cutoff(1) == 1;
    assert sorted[..1] == sorted && sorted[0..] == sorted;
    assert Reversed(sorted) == sorted;
  }

  lemma ThreeParts<T>(s: seq<T>, a: nat, b: nat)
    requires a <= b <= |s|
    ensures s[..a] + s[a..b] + s[b..] == s
  {
  }

  lemma ReversedTwice<T>(s: seq<T>)
    ensures Reversed(Reversed(s)) == s
  {
    assert forall i :: 0 <= i < |s| ==> Reversed(Reversed(s))[i] == s[i];
  }

  /** From two responses on, no response is in two groups. */
  lemma GroupsDisjoint(sorted: seq<ResponseStat>)
    requires |sorted| >= 2
    ensures var g := Percentiles(sorted);
      multiset(g.high) + multiset(g.mid) + multiset(g.low) == multiset(sorted)
  {
    var g := Percentiles(sorted);
    PercentilesCover(sorted);
    ReversedSameElements(g.low);
    assert multiset(g.high + g.mid + Reversed(g.low)) == multiset(sorted);
  }

  lemma ReversedSameElements<T>(s: seq<T>)
    ensures multiset(Reversed(s)) == multiset(s)
  {
    if s != [] {
      ReversedSameElements(s[1..]);
      assert s == [s[0]] + s[1..];
    }
  }

  // ---------------------------------------------------------------------------
  // extractComments
  // ---------------------------------------------------------------------------

  /** `{ text, avgRating, responseId }`. */
  datatype Extracted = Extracted(text: string, avgRating: real, responseId: string)

  /** The comments one response offers, with its rounded average. */
  function CommentsOf(r: ResponseStat): (cs: seq<Extracted>)
    ensures |cs| == |r.textComments|
    ensures forall i :: 0 <= i < |cs| ==> cs[i] == Extracted(r.textComments[i], Round2(r.avgRating), r.responseId)
  {
    Map(r.textComments, (t: string) => Extracted(t, Round2(r.avgRating), r.responseId))
  }

  /** The comments collected and the response ids used after some responses. */
  datatype Drawn = Drawn(comments: seq<Extracted>, used: set<string>)

  function Room(have: nat, count: nat): nat
  {
    if have < count then count - have else 0
  }

  /** One response: skipped when its id was used; otherwise its comments are
      taken while there is room, and its id is used once one was taken. */
  function Draw(d: Drawn, r: ResponseStat, count: nat): Drawn
  {
    if r.responseId in d.used then d
    else
      var taken := Take(CommentsOf(r), Room(|d.comments|, count));
      Drawn(d.comments + taken, if taken != [] then d.used + {r.responseId} else d.used)
  }

  function DrawAll(rs: seq<ResponseStat>, count: nat): Drawn
  {
    if rs == [] then Drawn([], {}) else Draw(DrawAll(rs[..|rs| - 1], count), rs[|rs| - 1], count)
  }

  /** The comments of extractComments(rs, count). */
  function Extract(rs: seq<ResponseStat>, count: nat): seq<Extracted>
  {
    DrawAll(rs, count).comments
  }

  lemma {:induction false} DrawAllBounded(rs: seq<ResponseStat>, count: nat)
    ensures |DrawAll(rs, count).comments| <= count
  {
    if rs != [] {
      DrawAllBounded(rs[..|rs| - 1], count);
    }
  }

  /** Once full, the collected comments no longer change. */
  lemma {:induction false} DrawAllFull(rs: seq<ResponseStat>, i: nat, count: nat)
    requires i <= |rs| && |DrawAll(rs[..i], count).comments| >= count
    ensures DrawAll(rs, count).comments == DrawAll(rs[..i], count).comments
    decreases |rs| - i
  {
    if i < |rs| {
      assert rs[..i + 1][..i] == rs[..i];
      DrawAllBounded(rs[..i], count);
      DrawAllFull(rs, i + 1, count);
    } else {
      assert rs[..i] == rs;
    }
  }

  /** The loop over one response's comments. */
  method DrawResponse(comments: seq<Extracted>, used: set<string>, r: ResponseStat, count: nat)
    returns (comments': seq<Extracted>, used': set<string>)
    requires r.responseId !in used
    ensures Drawn(comments', used') == Draw(Drawn(comments, used), r, count)
  {
    comments', used' := comments, used;
    var cs := CommentsOf(r);
    var room := Room(|comments|, count);
    for k := 0 to |r.textComments|
      invariant comments' == comments + Take(cs[..k], room)
      invariant used' == if Take(cs[..k], room) != [] then used + {r.responseId} else used
    {
      assert cs[..k + 1] == cs[..k] + [cs[k]];
      if |comments'| < count {
        comments' := comments' + [Extracted(r.textComments[k], Round2(r.avgRating), r.responseId)];
        used' := used' + {r.responseId};
      }
    }
    assert cs[..|r.textComments|] == cs;
  }

  /** extractComments: the responses in order, stopping once count comments
      are collected. */
  method ExtractComments(rs: seq<ResponseStat>, count: nat) returns (comments: seq<Extracted>)
    ensures comments == Extract(rs, count)
  {
    comments := [];
    var used: set<string> := {};
    var i := 0;
    while i < |rs|
      invariant i <= |rs|
      invariant Drawn(comments, used) == DrawAll(rs[..i], count)
    {
      var resp := rs[i];
      assert rs[..i + 1][..i] == rs[..i] && rs[..i + 1][i] == resp;
      if resp.responseId in used {
        i := i + 1;
        continue;
      }
      comments, used := DrawResponse(comments, used, resp, count);
      i := i + 1;
      if |comments| >= count {
        DrawAllFull(rs, i, count);
        return;
      }
    }
    assert rs[..i] == rs;
  }

  predicate UniqueResponseIds(rs: seq<ResponseStat>)
  {
    forall i, j :: 0 <= i < j < |rs| ==> rs[i].responseId != rs[j].responseId
  }

  function IdsOf(rs: seq<ResponseStat>): set<string>
  {
    set r | r in rs :: r.responseId
  }

  lemma TakeAppend<T>(a: seq<T>, b: seq<T>, count: nat)
    ensures Take(a + b, count) == Take(a, count) + Take(b, Room(|Take(a, count)|, count))
  {
    if |a| >= count {
      assert (a + b)[..count] == a[..count];
    }
  }

  /** With distinct response ids (as document ids are), extractComments
      returns the first count comments of the group, in order. */
  lemma {:induction false} ExtractIsFirstComments(rs: seq<ResponseStat>, count: nat)
    requires UniqueResponseIds(rs)
    ensures Extract(rs, count) == Take(Concat(Map(rs, CommentsOf)), count)
    ensures DrawAll(rs, count).used <= IdsOf(rs)
  {
    if rs != [] {
      var init := rs[..|rs| - 1];
      var r := rs[|rs| - 1];
      ExtractIsFirstComments(init, count);
      assert r.responseId !in IdsOf(init);
      var ls := Map(rs, CommentsOf);
      assert Map(init, CommentsOf) == ls[..|ls| - 1];
      assert Concat(ls) == Concat(Map(init, CommentsOf)) + CommentsOf(r);
      TakeAppend(Concat(Map(init, CommentsOf)), CommentsOf(r), count);
      assert IdsOf(rs) == IdsOf(init) + {r.responseId} by {
        assert rs == init + [r];
      }
    }
  }

  /** extractComments never returns more than count comments, and each is a
      text comment of a response of the group, with that response's rounded
      average. */
  lemma {:induction false} ExtractFromGroup(rs: seq<ResponseStat>, count: nat)
    ensures |Extract(rs, count)| <= count
    ensures forall e :: e in Extract(rs, count) ==>
      exists r :: r in rs && r.responseId == e.responseId && e.text in r.textComments && e.avgRating == Round2(r.avgRating)
  {
    DrawAllBounded(rs, count);
    if rs != [] {
      var init := rs[..|rs| - 1];
      var r := rs[|rs| - 1];
      ExtractFromGroup(init, count);
      forall e | e in Extract(rs, count)
        ensures exists x :: x in rs && x.responseId == e.responseId && e.text in x.textComments && e.avgRating == Round2(x.avgRating)
      {
        var d := DrawAll(init, count);
        assert DrawAll(rs, count) == Draw(d, r, count);
        if e in d.comments {
          var x :| x in init && x.responseId == e.responseId && e.text in x.textComments && e.avgRating == Round2(x.avgRating);
          assert x in rs;
        } else {
          var taken := Take(CommentsOf(r), Room(|d.comments|, count));
          assert e in taken;
          var k :| 0 <= k < |taken| && taken[k] == e;
          assert e == CommentsOf(r)[k];
          assert r.textComments[k] in r.textComments;
          assert r in rs;
        }
      }
    }
  }

  // ---------------------------------------------------------------------------
  // Topics learned and future sessions
  // ---------------------------------------------------------------------------

  predicate NonEmpty(t: string)
  {
    t != []
  }

  /** `value.split(',').map(t => t.trim()).filter(Boolean)`. */
  function TopicsIn(s: string): (r: seq<string>)
    ensures forall i :: 0 <= i < |r| ==> r[i] != [] && ',' !in r[i]
  {
    var parts := Map(Split(s, ','), Trim);
    forall i | 0 <= i < |parts| ensures ',' !in parts[i] {
      TrimNoNewChar(Split(s, ',')[i], ',');
    }
    FilterSatisfies(parts, NonEmpty);
    forall i | 0 <= i < |Filter(parts, NonEmpty)| ensures ',' !in Filter(parts, NonEmpty)[i] {
      FilterMembers(parts, NonEmpty, Filter(parts, NonEmpty)[i]);
    }
    Filter(parts, NonEmpty)
  }

  /** The topics of one answer: only a topicslearned answer with text has any. */
  function TopicsOfAnswer(a: Answer): seq<string>
  {
    if a.kind == "topicslearned" && HasText(a.value) == Ok(true) then TopicsIn(TextOf(a)) else []
  }

  /** `topicsLearnedRaw`. */
  function RawTopics(rs: seq<Response>): seq<string>
  {
    Concat(Map(AllAnswers(rs), TopicsOfAnswer))
  }

  /** The future-session wishes of one response, untrimmed, with rating 0. */
  function FutureOf(r: Response): (fs: seq<Extracted>)
  {
    FutureIn(AnswersOf(r), r.id)
  }

  /** A future-session answer holding more than white space. */
  predicate IsWish(a: Answer)
  {
    a.kind == "futureSession" && HasText(a.value) == Ok(true)
  }

  function FutureIn(xs: seq<Answer>, id: string): (fs: seq<Extracted>)
    ensures |fs| <= |xs|
    ensures forall i :: 0 <= i < |fs| ==> fs[i].responseId == id && fs[i].avgRating == 0.0 && !IsBlank(fs[i].text)
  {
    if xs == [] then []
    else
      (if IsWish(xs[0]) then [Extracted(TextOf(xs[0]), 0.0, id)] else [])
      + FutureIn(xs[1..], id)
  }

  /** A wish is listed for a response exactly when one of its answers is a
      non-blank future-session answer with that text. */
  lemma {:induction false} FutureInMembers(xs: seq<Answer>, id: string, x: Extracted)
    ensures x in FutureIn(xs, id) <==> exists a :: a in xs && IsWish(a) && x == Extracted(TextOf(a), 0.0, id)
  {
    if xs != [] {
      FutureInMembers(xs[1..], id, x);
      assert forall a :: a in xs <==> a == xs[0] || a in xs[1..];
    }
  }

  /** `futureTopicsRaw`: the wishes of every response, in response order. */
  function Wishes(rs: seq<Response>): seq<Extracted>
  {
    Concat(Map(rs, FutureOf))
  }

  /** One more response appends its own wishes after the earlier ones. */
  lemma WishesSnoc(rs: seq<Response>, r: Response)
    ensures Wishes(rs + [r]) == Wishes(rs) + FutureOf(r)
  {
    MapAppendOne(rs, r, FutureOf);
    assert Map(rs + [r], FutureOf)[..|rs|] == Map(rs, FutureOf);
  }

  /** A wish is gathered exactly when some response has a non-blank
      future-session answer with that text, and it carries that response's id. */
  lemma WishesMembers(rs: seq<Response>, x: Extracted)
    ensures x in Wishes(rs) <==>
      exists j, a :: 0 <= j < |rs| && a in AnswersOf(rs[j]) && IsWish(a) && x == Extracted(TextOf(a), 0.0, rs[j].id)
  {
    var ls := Map(rs, FutureOf);
    InConcat(ls, x);
    forall j | 0 <= j < |rs| ensures x in ls[j] <==>
      exists a :: a in AnswersOf(rs[j]) && IsWish(a) && x == Extracted(TextOf(a), 0.0, rs[j].id)
    {
      FutureInMembers(AnswersOf(rs[j]), rs[j].id, x);
    }
  }

  /** `futureTopicsRaw.slice(0, 5)`: the first five wishes in response order,
      or all of them when there are fewer. */
  function FutureTopics(rs: seq<Response>): (r: seq<Extracted>)
    ensures |r| == if 5 < |Wishes(rs)| then 5 else |Wishes(rs)|
    ensures r == Wishes(rs)[..|r|]
  {
    Take(Wishes(rs), 5)
  }

  /** `{ name, count }` of the topicsLearned list. */
  datatype Topic = Topic(name: string, count: nat)

  /** `name.charAt(0).toUpperCase() + name.slice(1)`. */
  function Capitalise(s: string): (r: string)
    ensures |r| == |s|
  {
    if s == [] then [] else [Upper(s[0])] + s[1..]
  }

  function TopicOf(e: (string, nat)): Topic
  {
    Topic(Capitalise(e.0), e.1)
  }

  function CountOf(e: (string, nat)): int
  {
    e.1
  }

  function TopicCount(t: Topic): int
  {
    t.count
  }

  /** Sorted by count, most frequent first, capitalised: fifteen topics, or
      all of them when there are fewer. */
  function TopicsLearned(counts: OMap<nat>): (r: seq<Topic>)
    ensures |r| == if 15 < |counts| then 15 else |counts|
    ensures SortedDesc(r, TopicCount)
  {
    var sorted := SortDesc(counts, CountOf);
    var r := Take(Map(sorted, TopicOf), 15);
    assert forall i :: 0 <= i < |r| ==> TopicCount(r[i]) == CountOf(sorted[i]);
    r
  }

  /** Every listed topic is a counted name, capitalised, with its count. */
  lemma TopicsLearnedFrom(counts: OMap<nat>, i: nat)
    requires i < |TopicsLearned(counts)|
    ensures exists e :: e in counts && TopicsLearned(counts)[i] == TopicOf(e)
  {
    var sorted := SortDesc(counts, CountOf);
    assert TopicsLearned(counts)[i] == TopicOf(sorted[i]);
    assert sorted[i] in multiset(sorted);
  }

  lemma LowerIdempotent(s: string)
    ensures ToLower(ToLower(s)) == ToLower(s)
  {
    assert forall i :: 0 <= i < |s| ==> Lower(Lower(s[i])) == Lower(s[i]);
  }

  lemma LowerOfCapitalised(s: string)
    ensures ToLower(Capitalise(s)) == ToLower(s)
  {
    if s != [] {
      assert Lower(Upper(s[0])) == Lower(s[0]);
      assert forall i :: 0 <= i < |s| ==> ToLower(Capitalise(s))[i] == ToLower(s)[i];
    }
  }

  /** Each listed topic is a named topic, capitalised, with the number of
      times it was named ignoring case; the list is ordered by count and has
      fifteen topics, or every topic when fewer were named; a topic left out
      counts no more than any listed one. */
  lemma TopicsCounted(raw: seq<string>)
    ensures var ks := Map(raw, ToLower); var r := TopicsLearned(Tally(ks));
      |r| == (if 15 < |Distinct(ks)| then 15 else |Distinct(ks)|) && SortedDesc(r, TopicCount)
      && (forall i :: 0 <= i < |r| ==>
            r[i].count == Occurrences(ks, ToLower(r[i].name)) && r[i].count > 0
            && r[i].name == Capitalise(ToLower(r[i].name)))
      && (forall k :: k in ks && (forall i :: 0 <= i < |r| ==> ToLower(r[i].name) != k) ==>
            |r| == 15 && forall i :: 0 <= i < |r| ==> r[i].count >= Occurrences(ks, k))
  {
    var ks := Map(raw, ToLower);
    var r := TopicsLearned(Tally(ks));
    TallyCounts(ks, "");
    assert |Keys(Tally(ks))| == |Tally(ks)|;
    forall i | 0 <= i < |r|
      ensures r[i].count == Occurrences(ks, ToLower(r[i].name)) && r[i].count > 0
      ensures r[i].name == Capitalise(ToLower(r[i].name))
    {
      ListedTopic(raw, i);
    }
    forall k | k in ks && (forall i :: 0 <= i < |r| ==> ToLower(r[i].name) != k)
      ensures |r| == 15 && forall i :: 0 <= i < |r| ==> r[i].count >= Occurrences(ks, k)
    {
      OmittedTopic(raw, k);
    }
  }

  /** The i-th listed topic is the i-th entry of the sorted tally, capitalised. */
  lemma ListedTopic(raw: seq<string>, i: nat)
    requires i < |TopicsLearned(Tally(Map(raw, ToLower)))|
    ensures var ks := Map(raw, ToLower); var t := TopicsLearned(Tally(ks))[i];
      var e := SortDesc(Tally(ks), CountOf)[i];
      ToLower(t.name) == e.0 && t.count == e.1
      && t.count == Occurrences(ks, ToLower(t.name)) && t.count > 0
      && t.name == Capitalise(ToLower(t.name))
  {
    var ks := Map(raw, ToLower);
    var counts := Tally(ks);
    var sorted := SortDesc(counts, CountOf);
    var e := sorted[i];
    assert TopicsLearned(counts)[i] == TopicOf(e);
    assert e in multiset(counts);
    var j :| 0 <= j < |counts| && counts[j] == e;
    TallyCounts(ks, e.0);
    KeyedIndex(counts, e.0, j);
    assert e.0 in ks by {
      assert Has(counts, e.0);
    }
    var k :| 0 <= k < |raw| && ks[k] == e.0;
    LowerIdempotent(raw[k]);
    LowerOfCapitalised(e.0);
  }

  /** The entry of a named topic that is not listed is in the sorted tally
      but not among its first fifteen. */
  lemma OmittedEntry(raw: seq<string>, k: string)
    requires k in Map(raw, ToLower)
    requires var r := TopicsLearned(Tally(Map(raw, ToLower)));
      forall i :: 0 <= i < |r| ==> ToLower(r[i].name) != k
    ensures var ks := Map(raw, ToLower); var sorted := SortDesc(Tally(ks), CountOf);
      (k, Occurrences(ks, k)) in multiset(sorted) && (k, Occurrences(ks, k)) !in Take(sorted, 15)
  {
    var ks := Map(raw, ToLower);
    var counts := Tally(ks);
    var sorted := SortDesc(counts, CountOf);
    var taken := Take(sorted, 15);
    TallyCounts(ks, k);
    var e := counts[OrderedMap.IndexOf(counts, k)];
    assert e == (k, Occurrences(ks, k));
    assert e in multiset(sorted);
    if e in taken {
      var i :| 0 <= i < |taken| && taken[i] == e;
      ListedTopic(raw, i);
    }
  }

  /** A named topic that is not listed shows only when fifteen are, and
      counts no more than any listed one. */
  lemma OmittedTopic(raw: seq<string>, k: string)
    requires k in Map(raw, ToLower)
    requires var r := TopicsLearned(Tally(Map(raw, ToLower)));
      forall i :: 0 <= i < |r| ==> ToLower(r[i].name) != k
    ensures var ks := Map(raw, ToLower); var r := TopicsLearned(Tally(ks));
      |r| == 15 && forall i :: 0 <= i < |r| ==> r[i].count >= Occurrences(ks, k)
  {
    var ks := Map(raw, ToLower);
    var sorted := SortDesc(Tally(ks), CountOf);
    var taken := Take(sorted, 15);
    var r := TopicsLearned(Tally(ks));
    var e := (k, Occurrences(ks, k));
    OmittedEntry(raw, k);
    assert |taken| == 15;
    TakeSortedDesc(sorted, 15, CountOf);
    forall i | 0 <= i < |r| ensures r[i].count >= Occurrences(ks, k) {
      ListedTopic(raw, i);
      assert CountOf(taken[i]) >= CountOf(e);
    }
  }

  // ---------------------------------------------------------------------------
  // compileSessionStats
  // ---------------------------------------------------------------------------

  /** The compiled statistics. Topics, future wishes and category averages
      are absent (None) in the object returned for a session without
      responses. */
  datatype SessionStats = SessionStats(
    totalResponses: nat, avgRating: real, topRating: real, leastRating: real,
    ratingDistribution: seq<nat>,
    topComments: seq<Extracted>, leastRatedComments: seq<Extracted>, avgComments: seq<Extracted>,
    questionStats: OMap<QuestionStat>,
    categoryAverages: Option<OMap<real>>, topicsLearned: Option<seq<Topic>>, futureTopics: Option<seq<Extracted>>)

  /** The statistics of a session without responses. */
  function EmptyStats(): SessionStats
  {
    SessionStats(0, 0.0, 0.0, 0.0, [0, 0, 0, 0, 0], [], [], [], [], None, None, None)
  }

  /** How many comments each group yields. */
  const CommentsPerGroup: nat := 5

  function StatsOf(rs: seq<Response>): (stats: seq<ResponseStat>)
    ensures |stats| == |rs|
  {
    Map(rs, StatOf)
  }

  /** compileSessionStats on the fetched responses and the session's
      questions. */
  function Compiled(rs: seq<Response>, qs: seq<Question>): Result<SessionStats>
  {
    if rs == [] then Ok(EmptyStats())
    else if !TrimmableAnswers(AllAnswers(rs)) then Err("TypeError: value.trim is not a function")
    else
      var stats := StatsOf(rs);
      var g := Percentiles(SortByAverage(stats));
      var answers := AllAnswers(rs);
      Ok(SessionStats(
        |rs|, Round2(GlobalAverage(stats)), Round2(TopRating(stats)), Round2(LeastRating(stats)),
        Distribution(RatingValues(answers)),
        Extract(g.high, CommentsPerGroup), Extract(g.low, CommentsPerGroup), Extract(g.mid, CommentsPerGroup),
        QuestionStats(answers),
        Some(Averages(CategoryTotalsAsWritten(RatedCategories(CategoryMap(qs), answers)))),
        Some(TopicsLearned(Tally(Map(RawTopics(rs), ToLower)))),
        Some(FutureTopics(rs))))
  }

  /** The answers of all responses, gathered by the loop the tallies walk. */
  method GatherAnswers(rs: seq<Response>) returns (answers: seq<Answer>)
    ensures answers == AllAnswers(rs)
  {
    answers := [];
    for i := 0 to |rs|
      invariant answers == Concat(Map(rs[..i], AnswersOf))
    {
      var ls := Map(rs[..i + 1], AnswersOf);
      assert ls[..i] == Map(rs[..i], AnswersOf);
      answers := answers + AnswersOf(rs[i]);
    }
    assert rs[..|rs|] == rs;
  }

  /** compileSessionStats, step by step. */
  method CompileSessionStats(rs: seq<Response>, qs: seq<Question>) returns (r: Result<SessionStats>)
    ensures r == Compiled(rs, qs)
    ensures rs == [] ==> r == Ok(EmptyStats())
    ensures r.Err? <==> rs != [] && !TrimmableAnswers(AllAnswers(rs))
  {
    if |rs| == 0 {
      return Ok(EmptyStats());
    }
    var answers := GatherAnswers(rs);
    if !TrimmableAnswers(answers) {
      return Err("TypeError: value.trim is not a function");
    }
    var stats := StatsOf(rs);
    var g := Percentiles(SortByAverage(stats));
    var topComments := ExtractComments(g.high, CommentsPerGroup);
    var leastRatedComments := ExtractComments(g.low, CommentsPerGroup);
    var avgComments := ExtractComments(g.mid, CommentsPerGroup);
    var topicCounts := CountLowered(RawTopics(rs));
    var distribution := RatingDistribution(answers);
    var questionStats := BuildQuestionStats(answers);
    var categoryAverages := CategoryAverages(answers, qs);
    r := Ok(SessionStats(
      |rs|, Round2(GlobalAverage(stats)), Round2(TopRating(stats)), Round2(LeastRating(stats)),
      distribution, topComments, leastRatedComments, avgComments, questionStats,
      Some(categoryAverages), Some(TopicsLearned(topicCounts)), Some(FutureTopics(rs))));
  }

  /** What the compiled statistics promise: the response count, the five
      buckets counting the rounded rating answers (no more of them than there
      are rating answers), at most five comments per group, at most fifteen
      topics and five wishes. */
  lemma CompiledShape(rs: seq<Response>, qs: seq<Question>)
    requires Compiled(rs, qs).Ok?
    ensures var s := Compiled(rs, qs).value;
      s.totalResponses == |rs| && |s.ratingDistribution| == 5
      && (forall b :: 1 <= b <= 5 ==> s.ratingDistribution[b - 1] == RoundingTo(RatingValues(AllAnswers(rs)), b))
      && BucketSum(s.ratingDistribution) <= |RatingValues(AllAnswers(rs))|
      && |s.topComments| <= 5 && |s.leastRatedComments| <= 5 && |s.avgComments| <= 5
      && (rs != [] ==> s.topicsLearned.Some? && |s.topicsLearned.value| <= 15
                       && s.futureTopics.Some? && |s.futureTopics.value| <= 5)
  {
    if rs != [] {
      var stats := StatsOf(rs);
      var g := Percentiles(SortByAverage(stats));
      DistributionCounts(RatingValues(AllAnswers(rs)));
      DrawAllBounded(g.high, CommentsPerGroup);
      DrawAllBounded(g.low, CommentsPerGroup);
      DrawAllBounded(g.mid, CommentsPerGroup);
    }
  }

  /** When every rating answer reads as a positive number, each category's
      average is the mean of the ratings given under it, to two decimals
      (a rating read as 0 breaks this: see ResponseTallies.ZeroRatingDropped). */
  lemma CompiledCategoryMeans(rs: seq<Response>, qs: seq<Question>, c: string)
    requires Compiled(rs, qs).Ok? && rs != []
    requires var ps := RatedCategories(CategoryMap(qs), AllAnswers(rs));
      (forall i :: 0 <= i < |ps| ==> ps[i].1 > 0.0) && ValuesIn(ps, c) != []
    ensures var avgs := Compiled(rs, qs).value.categoryAverages;
      avgs.Some? && Find(avgs.value, c) == Some(Round2(Mean(ValuesIn(RatedCategories(CategoryMap(qs), AllAnswers(rs)), c))))
  {
    var ps := RatedCategories(CategoryMap(qs), AllAnswers(rs));
    AsWrittenOnPositive(ps);
    CategoryAverageIsMean(ps, c);
  }
}
