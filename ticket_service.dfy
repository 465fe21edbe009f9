/** Support tickets: creation defaults, the status update rule for
    `resolvedAt`, and the overdue/age arithmetic.  The ticket collection is an
    in-memory map from document id to ticket; server timestamps and the
    current time are integer milliseconds passed in. */
module TicketService {
  import opened Common

  /** Who raised a ticket; both parts are optional in stored documents. */
  datatype Raiser = Raiser(uid: string, name: Option<string>, email: Option<string>)

  /** What a caller supplies when raising a ticket. */
  datatype TicketInput = TicketInput(
    subject: Option<string>, description: string, category: string, priority: string,
    raisedBy: Option<Raiser>)

  datatype Ticket = Ticket(
    id: string, subject: Option<string>, description: string, category: string, priority: string,
    raisedBy: Option<Raiser>, status: string, adminNotes: string,
    resolvedAt: Option<int>, createdAt: Option<int>, updatedAt: Option<int>)

  type Store = map<string, Ticket>

  const MsPerDay: int := 1000 * 60 * 60 * 24

  /** The days after which an unresolved ticket counts as overdue. */
  const OverdueDays: int := 7

  predicate IsFinished(status: string)
  {
    status == "resolved" || status == "closed"
  }

  /** createTicket: the stored document for a new ticket with id `id`,
      written at server time `now`. */
  function CreateTicket(data: TicketInput, id: string, now: int): (t: Ticket)
    ensures t.status == "open" && t.adminNotes == "" && t.resolvedAt == None
    ensures t.createdAt == Some(now) && t.updatedAt == Some(now)
    ensures t.id == id && t.subject == data.subject && t.description == data.description
    ensures t.category == data.category && t.priority == data.priority && t.raisedBy == data.raisedBy
  {
    Ticket(id, data.subject, data.description, data.category, data.priority, data.raisedBy,
           "open", "", None, Some(now), Some(now))
  }

  /** The stored ticket after `updateTicketStatus(id, status, notes)` at time `now`:
      status, notes and updatedAt are replaced, and resolvedAt is stamped only
      when the new status is resolved or closed (and otherwise kept). */
  function WithStatus(t: Ticket, status: string, notes: string, now: int): (r: Ticket)
    ensures r.status == status && r.adminNotes == notes && r.updatedAt == Some(now)
    ensures IsFinished(status) ==> r.resolvedAt == Some(now)
    ensures !IsFinished(status) ==> r.resolvedAt == t.resolvedAt
    ensures r.(status := t.status, adminNotes := t.adminNotes, updatedAt := t.updatedAt, resolvedAt := t.resolvedAt) == t
  {
    var u := t.(status := status, adminNotes := notes, updatedAt := Some(now));
    if IsFinished(status) then u.(resolvedAt := Some(now)) else u
  }

  /** updateTicketStatus against the store: updating a missing document
      fails and leaves the store as it was. */
  function UpdateTicketStatus(store: Store, id: string, status: string, notes: string, now: int): (r: Result<Store>)
    ensures r.Err? <==> id !in store
    ensures r.Ok? ==> r.value.Keys == store.Keys
    ensures r.Ok? ==> r.value[id] == WithStatus(store[id], status, notes, now)
    ensures r.Ok? ==> forall k :: k in store && k != id ==> r.value[k] == store[k]
  {
    if id in store then Ok(store[id := WithStatus(store[id], status, notes, now)])
    else Err("No document to update")
  }

  /** deleteTicket: removes the document; deleting a missing one succeeds. */
  function DeleteTicket(store: Store, id: string): (r: Store)
    ensures r.Keys == store.Keys - {id}
    ensures forall k :: k in r ==> r[k] == store[k]
  {
    store - {id}
  }

  /** isTicketOverdue at time `now` (ms): open or in progress, with a
      creation time, and at least seven whole days old. */
  predicate IsOverdue(t: Ticket, now: int)
  {
    !IsFinished(t.status) && t.createdAt.Some? && now - t.createdAt.value >= OverdueDays * MsPerDay
  }

  /** getTicketAgeDays at time `now`: whole days elapsed, rounded down, or 0
      without a creation time. */
  function AgeDays(t: Ticket, now: int): int
  {
    if t.createdAt.None? then 0 else (now - t.createdAt.value) / MsPerDay
  }

  lemma FinishedNeverOverdue(t: Ticket, now: int)
    requires IsFinished(t.status)
    ensures !IsOverdue(t, now)
  {
  }

  lemma NoCreationTime(t: Ticket, now: int)
    requires t.createdAt.None?
    ensures !IsOverdue(t, now) && AgeDays(t, now) == 0
  {
  }

  /** The age shown is the floor of the elapsed days. */
  lemma AgeIsFloor(t: Ticket, now: int)
    requires t.createdAt.Some?
    ensures AgeDays(t, now) * MsPerDay <= now - t.createdAt.value < (AgeDays(t, now) + 1) * MsPerDay
  {
  }

  /** At the same "now", an overdue ticket is at least seven days old, and a
      ticket created no later than now has a non-negative age. */
  lemma OverdueImpliesAge(t: Ticket, now: int)
    ensures IsOverdue(t, now) ==> AgeDays(t, now) >= OverdueDays
    ensures t.createdAt.Some? && t.createdAt.value <= now ==> AgeDays(t, now) >= 0
  {
    if IsOverdue(t, now) {
      var d := now - t.createdAt.value;
      var q, r := d / MsPerDay, d % MsPerDay;
      assert d == MsPerDay * q + r && 0 <= r < MsPerDay;
    }
  }
}
