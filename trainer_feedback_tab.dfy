/** A college admin's trainer feedback tab: the sessions of the last twenty
    days, one analytics row per trainer who has taught at the college
    (built by loops over the trainers and their sessions), the search over
    those rows, and the average shown on a recent session's card. */
module TrainerFeedbackTab {
  import opened Common
  import opened OrderedMap
  import opened Dashboard
  import TrainerService

  /** recentSessions: the sessions dated on or after `cutoff` (local
      midnight twenty days ago, as a day number), newest first. */
  function RecentSessions(ss: seq<Session>, cutoff: int): (r: seq<Session>)
    ensures SortedDesc(r, DateOf)
    ensures forall s :: s in r <==> s in ss && s.sessionDate >= cutoff
  {
    NewestFirst(ss, (s: Session) => s.sessionDate >= cutoff)
  }

  // ---------------------------------------------------------------------------
  // Per-trainer analytics
  // ---------------------------------------------------------------------------

  /** `new Set(sessions.map(s => s.assignedTrainer?.id).filter(Boolean))`. */
  function TrainerIds(ss: seq<Session>): (ids: seq<string>)
    ensures NoDuplicates(ids)
    ensures forall id :: id in ids <==> id != "" && exists i :: 0 <= i < |ss| && TrainerIdOf(ss[i]) == id
  {
    var all := Map(ss, TrainerIdOf);
    var ids := Distinct(Filter(all, NonEmpty));
    forall id ensures id in ids <==> id != "" && exists i :: 0 <= i < |ss| && TrainerIdOf(ss[i]) == id {
      FilterMembers(all, NonEmpty, id);
      if id in all {
        var i :| 0 <= i < |all| && all[i] == id;
      }
      if exists i :: 0 <= i < |ss| && TrainerIdOf(ss[i]) == id {
        var i :| 0 <= i < |ss| && TrainerIdOf(ss[i]) == id;
        assert all[i] == id;
      }
    }
    ids
  }

  function TaughtBy(id: string): Session -> bool
  {
    (s: Session) => TrainerIdOf(s) == id
  }

  /** What the loop over one trainer's sessions has gathered. */
  datatype Visits = Visits(
    sessions: nat, responses: int, ratingSum: int, ratingCount: int, lastVisit: Option<int>)

  /** The later of a last visit and a date. */
  function Later(last: Option<int>, d: int): (r: Option<int>)
    ensures r.Some? && r.value >= d
    ensures last.Some? ==> r.value >= last.value
    ensures r == last || r == Some(d)
  {
    if last.Some? && last.value >= d then last else Some(d)
  }

  /** One session of the trainer: counted and dated; its responses and
      ratings only when it has compiled statistics. */
  function Visit(v: Visits, s: Session, id: string): Visits
  {
    if TrainerIdOf(s) != id then v
    else
      var seen := v.(sessions := v.sessions + 1, lastVisit := Later(v.lastVisit, s.sessionDate));
      if s.compiledStats.None? then seen
      else seen.(responses := v.responses + ResponsesOf(s), ratingSum := v.ratingSum + RatingWeightOf(s),
                 ratingCount := v.ratingCount + RatingCountOf(s))
  }

  function VisitsOf(ss: seq<Session>, id: string): Visits
  {
    if ss == [] then Visits(0, 0, 0, 0, None) else Visit(VisitsOf(ss[..|ss| - 1], id), ss[|ss| - 1], id)
  }

  /** The gathered counts are those of the trainer's sessions: how many
      there are, and their responses and ratings (sessions without
      statistics adding none). */
  lemma {:induction false} VisitsSums(ss: seq<Session>, id: string)
    ensures var v := VisitsOf(ss, id); var mine := Filter(ss, TaughtBy(id));
      v.sessions == |mine| &&
      v.responses == SumOf(mine, ResponsesOf) &&
      v.ratingSum == SumOf(mine, RatingWeightOf) &&
      v.ratingCount == SumOf(mine, RatingCountOf)
  {
    if ss != [] {
      var init := ss[..|ss| - 1];
      var s := ss[|ss| - 1];
      VisitsSums(init, id);
      assert init + [s] == ss;
      FilterSnoc(init, s, TaughtBy(id));
      var before := Filter(init, TaughtBy(id));
      var mine := Filter(ss, TaughtBy(id));
      if TrainerIdOf(s) == id {
        assert TaughtBy(id)(s);
        assert mine == before + [s];
      } else {
        assert !TaughtBy(id)(s);
        assert mine == before;
      }
      assert Gathered(VisitsOf(init, id), before);
      assert VisitsOf(ss, id) == Visit(VisitsOf(init, id), s, id);
      VisitAdds(VisitsOf(init, id), before, s, id);
      assert Gathered(VisitsOf(ss, id), mine);
    }
  }

  /** The counts gathered so far are those of the sessions seen. */
  ghost predicate Gathered(v: Visits, mine: seq<Session>)
  {
    v.sessions == |mine| && v.responses == SumOf(mine, ResponsesOf)
    && v.ratingSum == SumOf(mine, RatingWeightOf) && v.ratingCount == SumOf(mine, RatingCountOf)
  }

  lemma VisitAdds(v: Visits, before: seq<Session>, s: Session, id: string)
    requires Gathered(v, before)
    ensures Gathered(Visit(v, s, id), if TrainerIdOf(s) == id then before + [s] else before)
  {
    if TrainerIdOf(s) == id {
      SumOfAppend(before, [s], ResponsesOf);
      SumOfAppend(before, [s], RatingWeightOf);
      SumOfAppend(before, [s], RatingCountOf);
      assert SumOf([s], ResponsesOf) == ResponsesOf(s) + SumOf([], ResponsesOf);
      assert SumOf([s], RatingWeightOf) == RatingWeightOf(s) + SumOf([], RatingWeightOf);
      assert SumOf([s], RatingCountOf) == RatingCountOf(s) + SumOf([], RatingCountOf);
      if s.compiledStats.None? {
        assert DistOf(s) == [];
      }
    }
  }

  /** The last visit is the latest date among the trainer's sessions, and
      there is one exactly when the trainer has a session. */
  lemma {:induction false} VisitsLast(ss: seq<Session>, id: string)
    ensures Latest(Filter(ss, TaughtBy(id)), VisitsOf(ss, id).lastVisit)
  {
    if ss != [] {
      var init := ss[..|ss| - 1];
      var s := ss[|ss| - 1];
      VisitsLast(init, id);
      assert init + [s] == ss;
      FilterSnoc(init, s, TaughtBy(id));
      assert TaughtBy(id)(s) == (TrainerIdOf(s) == id);
      var before := Filter(init, TaughtBy(id));
      if TrainerIdOf(s) == id {
        assert Filter(ss, TaughtBy(id)) == before + [s];
        assert VisitsOf(ss, id).lastVisit == Later(VisitsOf(init, id).lastVisit, s.sessionDate);
        LatestSnoc(before, s, VisitsOf(init, id).lastVisit);
      } else {
        assert Filter(ss, TaughtBy(id)) == before;
        assert VisitsOf(ss, id) == VisitsOf(init, id);
      }
    }
  }

  /** last is the latest date of ss, or None when ss is empty. */
  predicate Latest(ss: seq<Session>, last: Option<int>)
  {
    (last.Some? <==> ss != []) &&
    (last.Some? ==> (forall i :: 0 <= i < |ss| ==> ss[i].sessionDate <= last.value) &&
                    exists i :: 0 <= i < |ss| && ss[i].sessionDate == last.value)
  }

  /** One more session moves the latest date forward to its own when later. */
  lemma LatestSnoc(before: seq<Session>, s: Session, prev: Option<int>)
    requires Latest(before, prev)
    ensures Latest(before + [s], Later(prev, s.sessionDate))
  {
    var mine := before + [s];
    var last := Later(prev, s.sessionDate);
    forall i | 0 <= i < |mine| ensures mine[i].sessionDate <= last.value {
      if i < |before| {
        assert mine[i] == before[i];
      }
    }
    if last == Some(s.sessionDate) {
      assert mine[|before|] == s;
    } else {
      var i :| 0 <= i < |before| && before[i].sessionDate == last.value;
      assert mine[i] == before[i];
    }
  }

  /** One row of the trainer table. */
  datatype TrainerRow = TrainerRow(
    id: string, name: string, email: Option<string>, specialisation: string,
    totalSessions: nat, totalResponses: int, avgHundredths: int, lastVisit: Option<int>)

  /** `trainers.find(t => t.id === id)`. */
  function FindTrainer(trainers: seq<TrainerService.Trainer>, id: string): (r: Option<TrainerService.Trainer>)
    ensures r.Some? ==> r.value in trainers && r.value.id == id
    ensures r.None? ==> forall i :: 0 <= i < |trainers| ==> trainers[i].id != id
  {
    if trainers == [] then None
    else if trainers[0].id == id then Some(trainers[0])
    else FindTrainer(trainers[1..], id)
  }

  /** `(sum / count).toFixed(2)` read back as a number, in hundredths;
      '0.00' when nothing was rated. */
  function AvgHundredths(sum: int, count: int): (r: int)
    ensures count <= 0 ==> r == 0
    ensures count > 0 ==> r as real <= sum as real * 100.0 / count as real + 0.5 < r as real + 1.0
  {
    if count > 0 then (sum as real * 100.0 / count as real + 0.5).Floor else 0
  }

  /** The row for one trainer: the name 'Unknown Trainer' and the
      specialisation 'N/A' when the trainer is not listed or leaves them
      empty. */
  function RowFor(ss: seq<Session>, trainers: seq<TrainerService.Trainer>, id: string): TrainerRow
  {
    var v := VisitsOf(ss, id);
    var t := FindTrainer(trainers, id);
    TrainerRow(id,
               if t.Some? && t.value.name != "" then t.value.name else "Unknown Trainer",
               if t.Some? then Some(t.value.email) else None,
               if t.Some? && t.value.specialisation != "" then t.value.specialisation else "N/A",
               v.sessions, v.responses, AvgHundredths(v.ratingSum, v.ratingCount), v.lastVisit)
  }

  function AvgKey(r: TrainerRow): int { r.avgHundredths }

  /** trainerAnalytics: a row per trainer, best average first. */
  function Analytics(ss: seq<Session>, trainers: seq<TrainerService.Trainer>): seq<TrainerRow>
  {
    SortDesc(Map(TrainerIds(ss), (id: string) => RowFor(ss, trainers, id)), AvgKey)
  }

  /** The loops of trainerAnalytics: for each trainer id, a pass over the
      sessions adding up that trainer's counts (and, inside it, a pass over
      each distribution), then the rows sorted by average. */
  method TrainerAnalytics(ss: seq<Session>, trainers: seq<TrainerService.Trainer>) returns (rows: seq<TrainerRow>)
    ensures rows == Analytics(ss, trainers)
  {
    var ids := TrainerIds(ss);
    var analytics: seq<TrainerRow> := [];
    for k := 0 to |ids|
      invariant analytics == Map(ids[..k], (id: string) => RowFor(ss, trainers, id))
    {
      var id := ids[k];
      var v := TallyVisits(ss, id);
      var t := FindTrainer(trainers, id);
      var row := TrainerRow(id,
                            if t.Some? && t.value.name != "" then t.value.name else "Unknown Trainer",
                            if t.Some? then Some(t.value.email) else None,
                            if t.Some? && t.value.specialisation != "" then t.value.specialisation else "N/A",
                            v.sessions, v.responses, AvgHundredths(v.ratingSum, v.ratingCount), v.lastVisit);
      MapSnoc(ids, (id: string) => RowFor(ss, trainers, id), k);
      analytics := analytics + [row];
    }
    assert ids[..|ids|] == ids;
    rows := SortDesc(analytics, AvgKey);
  }

  /** The pass over the sessions for one trainer id. */
  method TallyVisits(ss: seq<Session>, id: string) returns (v: Visits)
    ensures v == VisitsOf(ss, id)
  {
    v := Visits(0, 0, 0, 0, None);
    for j := 0 to |ss|
      invariant v == VisitsOf(ss[..j], id)
    {
      var s := ss[j];
      assert ss[..j + 1][..j] == ss[..j];
      if TrainerIdOf(s) == id {
        var seen := v.(sessions := v.sessions + 1, lastVisit := Later(v.lastVisit, s.sessionDate));
        if s.compiledStats.Some? {
          var weight, count := DistributionSums(s.compiledStats.value.ratingDistribution);
          seen := seen.(responses := v.responses + s.compiledStats.value.totalResponses,
                        ratingSum := v.ratingSum + weight, ratingCount := v.ratingCount + count);
        }
        v := seen;
      }
    }
    assert ss[..|ss|] == ss;
  }

  /** `Object.entries(dist).forEach(([rating, count]) => { sum += Number(rating) * count; n += count })`. */
  method DistributionSums(dist: OMap<int>) returns (weight: int, count: int)
    ensures weight == SumOf(dist, EntryWeight) && count == SumOf(dist, EntryCount)
  {
    weight, count := 0, 0;
    for e := 0 to |dist|
      invariant weight == SumOf(dist[..e], EntryWeight) && count == SumOf(dist[..e], EntryCount)
    {
      SumOfSnoc(dist[..e + 1], EntryWeight);
      SumOfSnoc(dist[..e + 1], EntryCount);
      assert dist[..e + 1][..e] == dist[..e];
      weight := weight + KeyNumber(dist[e].0) * dist[e].1;
      count := count + dist[e].1;
    }
    assert dist[..|dist|] == dist;
  }

  /** The table has one row per trainer with a session at the college,
      best average first. */
  lemma AnalyticsRows(ss: seq<Session>, trainers: seq<TrainerService.Trainer>, id: string)
    ensures SortedDesc(Analytics(ss, trainers), AvgKey)
    ensures |Analytics(ss, trainers)| == |TrainerIds(ss)|
    ensures (exists i :: 0 <= i < |Analytics(ss, trainers)| && Analytics(ss, trainers)[i].id == id) <==>
      (id != "" && exists j :: 0 <= j < |ss| && TrainerIdOf(ss[j]) == id)
  {
    var ids := TrainerIds(ss);
    var unsorted := Map(ids, (id: string) => RowFor(ss, trainers, id));
    var r := Analytics(ss, trainers);
    if exists i :: 0 <= i < |r| && r[i].id == id {
      var i :| 0 <= i < |r| && r[i].id == id;
      assert r[i] in multiset(unsorted);
      var j :| 0 <= j < |unsorted| && unsorted[j] == r[i];
      assert ids[j] in ids;
    }
    if id in ids {
      var j :| 0 <= j < |ids| && ids[j] == id;
      assert unsorted[j] in multiset(r);
    }
  }

  /** The row of a trainer with a session holds that trainer's own session
      count (at least one), responses, average and latest visit. */
  lemma RowForSums(ss: seq<Session>, trainers: seq<TrainerService.Trainer>, id: string)
    requires id in TrainerIds(ss)
    ensures var r := RowFor(ss, trainers, id); var mine := Filter(ss, TaughtBy(id));
      r.id == id && r.totalSessions == |mine| > 0 && r.totalResponses == SumOf(mine, ResponsesOf) &&
      r.avgHundredths == AvgHundredths(SumOf(mine, RatingWeightOf), SumOf(mine, RatingCountOf)) &&
      r.lastVisit.Some? && (forall k :: 0 <= k < |mine| ==> mine[k].sessionDate <= r.lastVisit.value)
  {
    VisitsSums(ss, id);
    VisitsLast(ss, id);
    var k :| 0 <= k < |ss| && TrainerIdOf(ss[k]) == id;
    FilterMembers(ss, TaughtBy(id), ss[k]);
  }

  /** Each row of the table is its trainer's row. */
  lemma AnalyticsRowSums(ss: seq<Session>, trainers: seq<TrainerService.Trainer>, i: nat)
    requires i < |Analytics(ss, trainers)|
    ensures Analytics(ss, trainers)[i].id in TrainerIds(ss)
    ensures Analytics(ss, trainers)[i] == RowFor(ss, trainers, Analytics(ss, trainers)[i].id)
  {
    var ids := TrainerIds(ss);
    var unsorted := Map(ids, (id: string) => RowFor(ss, trainers, id));
    var r := Analytics(ss, trainers);
    assert r[i] in multiset(unsorted);
    var j :| 0 <= j < |unsorted| && unsorted[j] == r[i];
    assert unsorted[j] == RowFor(ss, trainers, ids[j]);
  }

  /** filteredTrainers: the rows whose name or specialisation contains the
      search term, ignoring case. */
  function FilteredTrainers(rows: seq<TrainerRow>, term: string): (r: seq<TrainerRow>)
    ensures forall row :: row in r <==> (row in rows &&
      (ContainsIgnoreCase(row.name, term) || ContainsIgnoreCase(row.specialisation, term)))
    ensures term == "" ==> r == rows
  {
    var keep := (row: TrainerRow) => ContainsIgnoreCase(row.name, term) || ContainsIgnoreCase(row.specialisation, term);
    forall row ensures row in Filter(rows, keep) <==> row in rows && keep(row) {
      FilterMembers(rows, keep, row);
    }
    if term != "" then Filter(rows, keep)
    else
      forall i | 0 <= i < |rows| ensures keep(rows[i]) {
        assert IsPrefix(ToLower(term), ToLower(rows[i].name));
      }
      FilterAll(rows, keep);
      Filter(rows, keep)
  }

  // ---------------------------------------------------------------------------
  // The average on a recent session's card
  // ---------------------------------------------------------------------------

  /** The card's average as written: the rating sum divided by the number
      of responses, 'N/A' (None) without statistics or responses. */
  function CardAverageAsWritten(cs: Option<CompiledStats>): Option<real>
  {
    if cs.Some? && cs.value.totalResponses > 0 then
      Some(SumOf(cs.value.ratingDistribution, EntryWeight) as real / cs.value.totalResponses as real)
    else None
  }

  /** One response that gave two five-star ratings shows an average of 10. */
  lemma CardAverageExceedsFive()
    ensures CardAverageAsWritten(Some(CompiledStats(1, [("5", 2)], [], []))) == Some(10.0)
  {
    assert KeyNumber("5") == 5 by {
      assert "5" == [] + ['5'];
    }
  }

  /** The card's average as intended: the rating sum divided by the number
      of ratings, 'N/A' when nothing was rated. */
  function CardAverage(cs: Option<CompiledStats>): (r: Option<real>)
    ensures r.None? <==> cs.None? || SumOf(cs.value.ratingDistribution, EntryCount) <= 0
  {
    if cs.Some? then AverageOf(SumOf(cs.value.ratingDistribution, EntryWeight), SumOf(cs.value.ratingDistribution, EntryCount))
    else None
  }

  /** With star ratings the corrected card average lies between one and
      five. */
  lemma CardAverageIsStar(cs: CompiledStats)
    requires StarEntries(cs.ratingDistribution)
    requires SumOf(cs.ratingDistribution, EntryCount) > 0
    ensures 1.0 <= CardAverage(Some(cs)).value <= 5.0
  {
    StarWeights(cs.ratingDistribution);
    AverageIsStar(Totals(0, SumOf(cs.ratingDistribution, EntryCount), SumOf(cs.ratingDistribution, EntryWeight), 0.0, []));
  }
}
