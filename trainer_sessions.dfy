/** A trainer's session list: the status counts, the tab and search
    filter in newest-first order, and what the status toggle asks the
    session service to do. */
module TrainerSessions {
  import opened Common
  import opened Dashboard

  /** filteredSessions: the sessions of the tab whose topic or course
      matches the search, newest first. */
  function FilteredSessions(ss: seq<Session>, tab: string, query: string): (r: seq<Session>)
    ensures SortedDesc(r, DateOf)
    ensures forall s :: s in r <==> s in ss && InTab(s, tab) && MatchesSearch(s, query)
    ensures |r| <= |ss|
  {
    var keep := (s: Session) => InTab(s, tab) && MatchesSearch(s, query);
    var r := NewestFirst(ss, keep);
    assert |r| == |multiset(r)| == |multiset(Filter(ss, keep))| == |Filter(ss, keep)|;
    r
  }

  /** The 'all' tab with an empty search lists every session. */
  lemma AllTabListsEverything(ss: seq<Session>)
    ensures multiset(FilteredSessions(ss, "all", "")) == multiset(ss)
  {
    FilterAll(ss, (s: Session) => InTab(s, "all") && MatchesSearch(s, ""));
  }

  /** What handleToggleStatus asks of the session service. */
  datatype StatusRequest =
    | CloseWithStats(sessionId: string)
    | Update(sessionId: string, status: string)

  /** An open session is closed (and its statistics compiled); any other
      session is set back to 'active'. */
  function ToggleStatus(s: Session): (r: StatusRequest)
    ensures r.sessionId == s.id
    ensures r.CloseWithStats? <==> s.status == "active"
    ensures r.Update? ==> r.status == "active"
  {
    if s.status == "active" then CloseWithStats(s.id) else Update(s.id, "active")
  }

  /** The request's effect on the session's status: closing makes it
      'inactive' and stores the statistics the service compiled. */
  function Apply(s: Session, r: StatusRequest, compiled: CompiledStats): Session
  {
    match r
    case CloseWithStats(_) => s.(status := "inactive", compiledStats := Some(compiled))
    case Update(_, status) => s.(status := status)
  }

  /** The toggle flips a session between open and closed: an open one ends
      closed with statistics, any other one ends open; toggling a closed
      session twice closes it again. */
  lemma ToggleFlips(s: Session, compiled: CompiledStats, again: CompiledStats)
    ensures var t := Apply(s, ToggleStatus(s), compiled);
      (s.status == "active" ==> t.status == "inactive" && t.compiledStats == Some(compiled)) &&
      (s.status != "active" ==> t.status == "active" && t.compiledStats == s.compiledStats) &&
      t.id == s.id
    ensures s.status == "inactive" ==>
      Apply(Apply(s, ToggleStatus(s), compiled), ToggleStatus(Apply(s, ToggleStatus(s), compiled)), again).status == s.status
  {
  }
}
