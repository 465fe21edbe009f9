// The comment lists kept in the analytics cache (mergeComments in
// src/services/superadmin/cacheService.js): the cached list and the new
// session's list are joined, deduplicated by response id (first kept),
// given a numeric rating, sorted by the list's kind and cut to five.

module CacheComments {
  import opened Common

  /** A cached comment. Ratings are real numbers (averages); dates are
      timestamps in milliseconds, parsed by the caller. */
  datatype Comment = Comment(text: string, rating: Option<real>, avgRating: Option<real>,
                             responseId: Option<string>, date: int)

  /** How many comments a cached list keeps. */
  const KeepCount: nat := 5

  // ---------------------------------------------------------------------------
  // Deduplication by response id
  // ---------------------------------------------------------------------------

  function Ids(s: seq<Comment>): set<Option<string>>
  {
    set c | c in s :: c.responseId
  }

  predicate UniqueIds(s: seq<Comment>)
  {
    forall i, j :: 0 <= i < j < |s| ==> s[i].responseId != s[j].responseId
  }

  /** The comments whose id was not seen before them, in order. */
  function FirstById(s: seq<Comment>): (r: seq<Comment>)
    ensures UniqueIds(r)
    ensures Ids(r) == Ids(s)
    ensures forall c :: c in r ==> c in s
  {
    if s == [] then []
    else
      var p := FirstById(s[..|s| - 1]);
      var c := s[|s| - 1];
      assert s == s[..|s| - 1] + [c];
      if c.responseId in Ids(p) then p
      else
        assert forall j :: 0 <= j < |p| ==> p[j] in p;
        IdsSnoc(p, c);
        IdsSnoc(s[..|s| - 1], c);
        p + [c]
  }

  lemma IdsSnoc(s: seq<Comment>, c: Comment)
    ensures Ids(s + [c]) == Ids(s) + {c.responseId}
  {
    assert forall d :: d in s + [c] <==> d in s || d == c;
  }

  /** The index of the first comment carrying id. */
  function FirstIndex(s: seq<Comment>, id: Option<string>): (k: nat)
    requires id in Ids(s)
    ensures k < |s| && s[k].responseId == id
    ensures forall j :: 0 <= j < k ==> s[j].responseId != id
  {
    if s[0].responseId == id then 0
    else
      assert id in Ids(s[1..]) by {
        var c :| c in s && c.responseId == id;
        var j :| 0 <= j < |s| && s[j] == c;
        assert s[1..][j - 1] == c;
      }
      1 + FirstIndex(s[1..], id)
  }

  /** Every kept comment is the first one in the input with its id. */
  lemma {:induction false} FirstKept(s: seq<Comment>)
    ensures forall k :: 0 <= k < |FirstById(s)| ==>
      FirstById(s)[k].responseId in Ids(s) && FirstById(s)[k] == s[FirstIndex(s, FirstById(s)[k].responseId)]
  {
    if s != [] {
      var t := s[..|s| - 1];
      var c := s[|s| - 1];
      assert s == t + [c];
      FirstKept(t);
      var p := FirstById(t);
      forall k | 0 <= k < |FirstById(s)|
        ensures FirstById(s)[k].responseId in Ids(s) && FirstById(s)[k] == s[FirstIndex(s, FirstById(s)[k].responseId)]
      {
        var d := FirstById(s)[k];
        assert d in FirstById(s);
        if k < |p| {
          assert d == p[k];
          FirstIndexPrefix(t, c, d.responseId);
        } else {
          assert d == c && c.responseId !in Ids(t);
          FirstIndexLast(t, c);
        }
      }
    }
  }

  lemma FirstIndexPrefix(t: seq<Comment>, c: Comment, id: Option<string>)
    requires id in Ids(t)
    ensures id in Ids(t + [c]) && FirstIndex(t + [c], id) == FirstIndex(t, id)
  {
    var s := t + [c];
    var k := FirstIndex(t, id);
    assert s[k] == t[k];
    var m := FirstIndex(s, id);
    assert m <= k;
    assert m < |t| ==> s[m] == t[m];
  }

  lemma FirstIndexLast(t: seq<Comment>, c: Comment)
    requires c.responseId !in Ids(t)
    ensures c.responseId in Ids(t + [c]) && FirstIndex(t + [c], c.responseId) == |t|
  {
    var s := t + [c];
    assert s[|t|] == c;
  }

  /** The `seen` set filter: one pass that keeps a comment when its id is not
      in `seen` yet, then adds the id. */
  method DedupeByResponseId(combined: seq<Comment>) returns (r: seq<Comment>)
    ensures r == FirstById(combined)
  {
    var seen: set<Option<string>> := {};
    r := [];
    for i := 0 to |combined|
      invariant r == FirstById(combined[..i])
      invariant seen == Ids(r)
    {
      var c := combined[i];
      assert combined[..i + 1][..i] == combined[..i];
      assert Ids(FirstById(combined[..i])) == Ids(combined[..i]);
      if c.responseId !in seen {
        r := r + [c];
        seen := seen + {c.responseId};
      }
    }
    assert combined[..|combined|] == combined;
  }

  // ---------------------------------------------------------------------------
  // The numeric rating
  // ---------------------------------------------------------------------------

  /** `Number(c.rating || c.avgRating || 0)`: a missing or zero rating falls
      through to the average, and then to 0. */
  function RatingValue(c: Comment): (v: real)
    ensures c.rating.Some? && c.rating.value != 0.0 ==> v == c.rating.value
    ensures (c.rating.None? || c.rating.value == 0.0) && c.avgRating.Some? && c.avgRating.value != 0.0 ==> v == c.avgRating.value
    ensures (c.rating.None? || c.rating.value == 0.0) && (c.avgRating.None? || c.avgRating.value == 0.0) ==> v == 0.0
  {
    if c.rating.Some? && c.rating.value != 0.0 then c.rating.value
    else if c.avgRating.Some? && c.avgRating.value != 0.0 then c.avgRating.value
    else 0.0
  }

  /** The comment after `c.rating = Number(...)`. */
  function Normalise(c: Comment): (r: Comment)
    ensures r.rating == Some(RatingValue(c)) && r.responseId == c.responseId
    ensures r.text == c.text && r.date == c.date && r.avgRating == c.avgRating
  {
    c.(rating := Some(RatingValue(c)))
  }

  function Rating(c: Comment): real
  {
    if c.rating.Some? then c.rating.value else 0.0
  }

  lemma NormaliseKeepsIds(s: seq<Comment>)
    ensures Ids(Map(s, Normalise)) == Ids(s)
    ensures UniqueIds(s) ==> UniqueIds(Map(s, Normalise))
  {
    var t := Map(s, Normalise);
    forall id | id in Ids(s) ensures id in Ids(t) {
      var c :| c in s && c.responseId == id;
      var j :| 0 <= j < |s| && s[j] == c;
      assert t[j] in t;
    }
    forall id | id in Ids(t) ensures id in Ids(s) {
      var c :| c in t && c.responseId == id;
      var j :| 0 <= j < |t| && t[j] == c;
      assert s[j] in s;
    }
  }

  // ---------------------------------------------------------------------------
  // Ordering by kind
  // ---------------------------------------------------------------------------

  /** Whether the comparator of the list's kind lets a stay ahead of b
      (the comparator is not positive): "high" is by rating descending,
      "low" by rating ascending, both then newer first; any other kind is
      newer first only. */
  predicate Ahead(kind: string, a: Comment, b: Comment)
  {
    if kind == "high" then Rating(b) < Rating(a) || (Rating(b) == Rating(a) && b.date <= a.date)
    else if kind == "low" then Rating(a) < Rating(b) || (Rating(a) == Rating(b) && b.date <= a.date)
    else b.date <= a.date
  }

  lemma AheadTotal(kind: string, a: Comment, b: Comment)
    ensures Ahead(kind, a, b) || Ahead(kind, b, a)
  {
  }

  lemma AheadTransitive(kind: string, a: Comment, b: Comment, c: Comment)
    requires Ahead(kind, a, b) && Ahead(kind, b, c)
    ensures Ahead(kind, a, c)
  {
  }

  predicate SortedBy(kind: string, s: seq<Comment>)
  {
    forall i, j :: 0 <= i < j < |s| ==> Ahead(kind, s[i], s[j])
  }

  /** Insert x, which came before every element of s, ahead of the first
      element it may stay ahead of. */
  function Insert(kind: string, x: Comment, s: seq<Comment>): (r: seq<Comment>)
    requires SortedBy(kind, s)
    ensures SortedBy(kind, r)
    ensures multiset(r) == multiset(s) + multiset{x}
  {
    if s == [] || Ahead(kind, x, s[0]) then
      forall j | 0 <= j < |s| ensures Ahead(kind, x, s[j]) {
        if j > 0 {
          AheadTransitive(kind, x, s[0], s[j]);
        }
      }
      [x] + s
    else
      AheadTotal(kind, x, s[0]);
      var t := Insert(kind, x, s[1..]);
      FrontStaysAhead(kind, x, s, t);
      assert s == [s[0]] + s[1..];
      [s[0]] + t
  }

  lemma FrontStaysAhead(kind: string, x: Comment, s: seq<Comment>, t: seq<Comment>)
    requires s != [] && SortedBy(kind, s) && Ahead(kind, s[0], x)
    requires multiset(t) == multiset(s[1..]) + multiset{x}
    ensures forall i :: 0 <= i < |t| ==> Ahead(kind, s[0], t[i])
  {
    forall i | 0 <= i < |t| ensures Ahead(kind, s[0], t[i]) {
      assert t[i] in multiset(t);
      if t[i] != x {
        assert t[i] in multiset(s[1..]);
        var j :| 0 <= j < |s[1..]| && s[1..][j] == t[i];
        assert s[j + 1] == t[i];
      }
    }
  }

  /** The stable `combined.sort(comparator)` of the list's kind. */
  function SortComments(kind: string, s: seq<Comment>): (r: seq<Comment>)
    ensures SortedBy(kind, r)
    ensures multiset(r) == multiset(s)
    ensures |r| == |s|
  {
    if s == [] then []
    else
      var r := Insert(kind, s[0], SortComments(kind, s[1..]));
      assert s == [s[0]] + s[1..];
      assert |r| == |multiset(r)| == |multiset(s)|;
      r
  }

  // ---------------------------------------------------------------------------
  // mergeComments
  // ---------------------------------------------------------------------------

  function OrEmpty(s: Option<seq<Comment>>): seq<Comment>
  {
    if s.Some? then s.value else []
  }

  /** The deduplicated, rated comments of both lists, before sorting. */
  function Candidates(existing: Option<seq<Comment>>, incoming: Option<seq<Comment>>): seq<Comment>
  {
    Map(FirstById(OrEmpty(existing) + OrEmpty(incoming)), Normalise)
  }

  function Merged(existing: Option<seq<Comment>>, incoming: Option<seq<Comment>>, kind: string): seq<Comment>
  {
    Take(SortComments(kind, Candidates(existing, incoming)), KeepCount)
  }

  /** mergeComments, step by step. */
  method MergeComments(existing: Option<seq<Comment>>, incoming: Option<seq<Comment>>, kind: string)
    returns (r: seq<Comment>)
    ensures r == Merged(existing, incoming, kind)
    ensures |r| <= KeepCount && UniqueIds(r) && SortedBy(kind, r)
    ensures forall c :: c in r ==> c.rating.Some? && c.responseId in Ids(OrEmpty(existing) + OrEmpty(incoming))
  {
    var combined := OrEmpty(existing) + OrEmpty(incoming);
    var deduped := DedupeByResponseId(combined);
    var rated := Map(deduped, Normalise);
    var sorted := SortComments(kind, rated);
    r := Take(sorted, KeepCount);
    MergedProperties(existing, incoming, kind);
  }

  lemma SameElementsUniqueIds(a: seq<Comment>, b: seq<Comment>)
    requires multiset(a) == multiset(b) && UniqueIds(a)
    ensures UniqueIds(b)
  {
    forall i, j | 0 <= i < j < |b| ensures b[i].responseId != b[j].responseId {
      if b[i].responseId == b[j].responseId {
        assert b[i] in multiset(a) && b[j] in multiset(a);
        var k :| 0 <= k < |a| && a[k] == b[i];
        var l :| 0 <= l < |a| && a[l] == b[j];
        if b[i] == b[j] {
          assert multiset(b)[b[i]] >= 2 by {
            assert b == b[..i] + [b[i]] + b[i + 1..j] + [b[j]] + b[j + 1..];
          }
          OneCopy(a, k);
          assert false;
        }
      }
    }
  }

  lemma OneCopy(a: seq<Comment>, k: nat)
    requires UniqueIds(a) && k < |a|
    ensures multiset(a)[a[k]] == 1
  {
    assert a == a[..k] + [a[k]] + a[k + 1..];
  }

  /** What mergeComments promises: at most five comments, unique ids, in
      the list's order, each carrying a numeric rating and an id of one of
      the two lists; as many as there are distinct ids, up to five. */
  lemma MergedProperties(existing: Option<seq<Comment>>, incoming: Option<seq<Comment>>, kind: string)
    ensures var r := Merged(existing, incoming, kind);
      |r| <= KeepCount && UniqueIds(r) && SortedBy(kind, r)
      && (forall c :: c in r ==> c.rating.Some? && c.responseId in Ids(OrEmpty(existing) + OrEmpty(incoming)))
      && |r| == if |FirstById(OrEmpty(existing) + OrEmpty(incoming))| < KeepCount
                then |FirstById(OrEmpty(existing) + OrEmpty(incoming))| else KeepCount
  {
    var all := OrEmpty(existing) + OrEmpty(incoming);
    var cand := Candidates(existing, incoming);
    NormaliseKeepsIds(FirstById(all));
    var sorted := SortComments(kind, cand);
    SameElementsUniqueIds(cand, sorted);
    TakenFrom(kind, cand);
    forall c | c in Take(sorted, KeepCount) ensures c.rating.Some? && c.responseId in Ids(all) {
      CandidateRated(existing, incoming, c);
    }
  }

  /** Every kept comment is one of the candidates. */
  lemma TakenFrom(kind: string, cand: seq<Comment>)
    ensures forall c :: c in Take(SortComments(kind, cand), KeepCount) ==> c in cand
  {
    var sorted := SortComments(kind, cand);
    forall c | c in Take(sorted, KeepCount) ensures c in cand {
      assert c in multiset(sorted);
    }
  }

  /** A candidate carries a numeric rating and an id of one of the lists. */
  lemma CandidateRated(existing: Option<seq<Comment>>, incoming: Option<seq<Comment>>, c: Comment)
    requires c in Candidates(existing, incoming)
    ensures c.rating.Some? && c.responseId in Ids(OrEmpty(existing) + OrEmpty(incoming))
  {
    var firsts := FirstById(OrEmpty(existing) + OrEmpty(incoming));
    var j := InMapAt(firsts, Normalise, c);
    assert firsts[j] in firsts;
  }

  /** The five kept are the best: every candidate left out may follow each
      kept comment in the list's order. */
  lemma MergedKeepsBest(existing: Option<seq<Comment>>, incoming: Option<seq<Comment>>, kind: string)
    ensures var r := Merged(existing, incoming, kind);
      multiset(r) <= multiset(Candidates(existing, incoming))
      && forall c :: c in multiset(Candidates(existing, incoming)) - multiset(r) ==>
           forall i :: 0 <= i < |r| ==> Ahead(kind, r[i], c)
  {
    var cand := Candidates(existing, incoming);
    var sorted := SortComments(kind, cand);
    var r := Take(sorted, KeepCount);
    var rest := sorted[|r|..];
    PrefixSplit(sorted, |r|);
    forall c | c in multiset(cand) - multiset(r) ensures forall i :: 0 <= i < |r| ==> Ahead(kind, r[i], c) {
      var j := InMultisetAt(rest, c);
      assert sorted[|r| + j] == c;
    }
  }

  /** A list is its first n elements followed by the rest, as multisets too. */
  lemma PrefixSplit<T>(s: seq<T>, n: nat)
    requires n <= |s|
    ensures multiset(s) == multiset(s[..n]) + multiset(s[n..])
  {
    assert s == s[..n] + s[n..];
  }
}
