/** The super-admin tickets tab: overdue-first ordering, the filter
    predicate, the status counters, local delete and filter reset. */
module TicketsTab {
  import opened Common
  import opened TicketService

  /** The three drop-down filters; "all" disables one. */
  datatype Filters = Filters(status: string, category: string, priority: string)

  /** The tab's filter state: drop-downs plus the search box. */
  datatype View = View(filters: Filters, search: string)

  /** Sort key of the comparator: overdue tickets first. */
  function OverdueKey(now: int): Ticket -> int
  {
    t => if IsOverdue(t, now) then 1 else 0
  }

  /** sortedTickets: a stable sort whose comparator only separates overdue
      from not-overdue tickets. */
  function SortedTickets(ts: seq<Ticket>, now: int): (r: seq<Ticket>)
    ensures multiset(r) == multiset(ts)
  {
    SortDesc(ts, OverdueKey(now))
  }

  /** The overdue tickets come first and both groups keep their input
      order: the sort is the stable partition of the list. */
  lemma SortedIsStablePartition(ts: seq<Ticket>, now: int)
    ensures SortedTickets(ts, now) == WithKey(ts, OverdueKey(now), 1) + WithKey(ts, OverdueKey(now), 0)
    ensures forall i :: 0 <= i < |WithKey(ts, OverdueKey(now), 1)| ==> IsOverdue(WithKey(ts, OverdueKey(now), 1)[i], now)
    ensures forall i :: 0 <= i < |WithKey(ts, OverdueKey(now), 0)| ==> !IsOverdue(WithKey(ts, OverdueKey(now), 0)[i], now)
  {
    SortDescTwoValued(ts, OverdueKey(now));
  }

  /** `a?.toLowerCase().includes(q)` with an optional string. */
  predicate OptMatches(a: Option<string>, q: string)
  {
    a.Some? && Contains(ToLower(a.value), q)
  }

  /** The filter predicate of filteredTickets. */
  predicate Keep(v: View, t: Ticket)
  {
    && (v.filters.status == "all" || t.status == v.filters.status)
    && (v.filters.category == "all" || t.category == v.filters.category)
    && (v.filters.priority == "all" || t.priority == v.filters.priority)
    && (v.search == "" ||
        var q := ToLower(v.search);
        OptMatches(t.subject, q)
        || (t.raisedBy.Some? && OptMatches(t.raisedBy.value.name, q))
        || (t.raisedBy.Some? && OptMatches(t.raisedBy.value.email, q)))
  }

  /** filteredTickets: the sorted list restricted to the kept tickets,
      that is the kept overdue tickets in input order, then the kept
      others in input order. */
  function FilteredTickets(v: View, ts: seq<Ticket>, now: int): (r: seq<Ticket>)
    ensures |r| <= |ts|
    ensures r == Filter(WithKey(ts, OverdueKey(now), 1), t => Keep(v, t))
               + Filter(WithKey(ts, OverdueKey(now), 0), t => Keep(v, t))
  {
    SortedIsStablePartition(ts, now);
    FilterAppend(WithKey(ts, OverdueKey(now), 1), WithKey(ts, OverdueKey(now), 0), t => Keep(v, t));
    Filter(SortedTickets(ts, now), t => Keep(v, t))
  }

  /** A ticket is shown if and only if it is in the list and passes every
      active filter; the filtered list is never longer than the list. */
  lemma FilteredMembers(v: View, ts: seq<Ticket>, now: int, t: Ticket)
    ensures t in FilteredTickets(v, ts, now) <==> t in ts && Keep(v, t)
  {
    var s := SortedTickets(ts, now);
    FilterMembers(s, t => Keep(v, t), t);
    assert t in s <==> t in multiset(s);
    assert t in ts <==> t in multiset(ts);
  }

  /** An empty search with every drop-down at "all" shows every ticket. */
  lemma NoFilterShowsAll(ts: seq<Ticket>, now: int)
    ensures FilteredTickets(View(Filters("all", "all", "all"), ""), ts, now) == SortedTickets(ts, now)
  {
    FilterAll(SortedTickets(ts, now), t => Keep(View(Filters("all", "all", "all"), ""), t));
  }

  /** The four counters of the stats cards. */
  datatype Counts = Counts(overdue: nat, open: nat, inProgress: nat, resolved: nat)

  function StatusCounts(ts: seq<Ticket>, now: int): (c: Counts)
    ensures c.open + c.inProgress + c.resolved <= |ts|
    ensures c.overdue + c.resolved <= |ts|
  {
    var isOpen := (t: Ticket) => t.status == "open";
    var isInProgress := (t: Ticket) => t.status == "in-progress";
    var isResolved := (t: Ticket) => IsFinished(t.status);
    var isOverdue := (t: Ticket) => IsOverdue(t, now);
    var openOrProgress := (t: Ticket) => isOpen(t) || isInProgress(t);
    CountIfDisjoint(ts, isOpen, isInProgress, openOrProgress);
    CountIfDisjoint(ts, openOrProgress, isResolved, t => openOrProgress(t) || isResolved(t));
    CountIfDisjoint(ts, isOverdue, isResolved, t => isOverdue(t) || isResolved(t));
    Counts(CountIf(ts, isOverdue), CountIf(ts, isOpen), CountIf(ts, isInProgress), CountIf(ts, isResolved))
  }

  /** handleDelete's local update: only tickets with that id leave the list. */
  function DeleteLocal(ts: seq<Ticket>, id: string): (r: seq<Ticket>)
    ensures forall t :: t in r <==> t in ts && t.id != id
    ensures |r| <= |ts|
  {
    var p := (t: Ticket) => t.id != id;
    assert forall t :: t in Filter(ts, p) <==> t in ts && p(t) by {
      forall t ensures t in Filter(ts, p) <==> t in ts && p(t) { FilterMembers(ts, p, t); }
    }
    Filter(ts, p)
  }

  /** resetFilters: every drop-down back to "all" and the search cleared,
      so the whole sorted list is shown again. */
  function ResetFilters(v: View): (r: View)
    ensures r.filters.status == "all" && r.filters.category == "all" && r.filters.priority == "all"
    ensures r.search == ""
    ensures forall ts: seq<Ticket>, now: int :: FilteredTickets(r, ts, now) == SortedTickets(ts, now)
  {
    forall ts: seq<Ticket>, now: int
      ensures FilteredTickets(View(Filters("all", "all", "all"), ""), ts, now) == SortedTickets(ts, now)
    {
      NoFilterShowsAll(ts, now);
    }
    View(Filters("all", "all", "all"), "")
  }
}
