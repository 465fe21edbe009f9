/** Trainer records: adding one with a duplicate-id check, adding a batch one
    after another against the growing collection, editing, deleting and
    paging.  The Firestore collection is the `trainers` field of a store
    object, in document order; generated document ids are passed in. */
module TrainerService {
  import opened Common

  /** What a caller passes to addTrainer.  A field the caller leaves out is
      None; the password is accepted and never stored. */
  datatype TrainerInput = TrainerInput(
    trainerId: Option<string>, name: Option<string>, domain: Option<string>,
    specialisation: Option<string>, topics: Option<seq<string>>, email: Option<string>,
    password: Option<string>)

  /** A stored trainer document (`id` is the document id).  It has no
      password field. */
  datatype Trainer = Trainer(
    id: string, trainerId: string, name: string, domain: string,
    specialisation: string, topics: seq<string>, email: string)

  /** addTrainer's result `{ id, trainer_id, name, email }`. */
  datatype Added = Added(id: string, trainerId: string, name: string, email: string)

  /** One entry of a batch's `errors` list. */
  datatype BatchError = BatchError(trainerId: Option<string>, name: Option<string>, error: string)

  /** The fields an edit may change (`updateTrainer(id, updates)`). */
  datatype TrainerEdit = TrainerEdit(
    name: string, email: string, domain: string, specialisation: string, topics: seq<string>)

  const UndefinedField := "Unsupported field value: undefined"

  function DuplicateMessage(trainerId: string): string
  {
    "Trainer with ID " + trainerId + " already exists."
  }

  /** Every field Firestore writes is present: an undefined trainer_id
      fails the duplicate query and an undefined stored field fails the
      write.  Topics default to `[]`, so they may be left out. */
  predicate Complete(t: TrainerInput)
  {
    t.trainerId.Some? && t.name.Some? && t.domain.Some? && t.specialisation.Some? && t.email.Some?
  }

  function TrainerIds(s: seq<Trainer>): set<string>
  {
    set t | t in s :: t.trainerId
  }

  predicate UniqueTrainerIds(s: seq<Trainer>)
  {
    forall i, j :: 0 <= i < j < |s| ==> s[i].trainerId != s[j].trainerId
  }

  /** addTrainer against the collection `store`, with `docId` the id the
      new document would get: the result and the collection afterwards.
      The duplicate query runs first (an undefined trainer_id makes it
      throw), the write second (any other undefined field makes it throw). */
  function Add(store: seq<Trainer>, t: TrainerInput, docId: string): (out: (Result<Added>, seq<Trainer>))
    ensures t.trainerId.None? ==> out == (Err(UndefinedField), store)
    ensures t.trainerId.Some? && t.trainerId.value in TrainerIds(store) ==>
      out == (Err(DuplicateMessage(t.trainerId.value)), store)
    ensures t.trainerId.Some? && t.trainerId.value !in TrainerIds(store) && !Complete(t) ==>
      out == (Err(UndefinedField), store)
    ensures Complete(t) && t.trainerId.value !in TrainerIds(store) ==>
      out.0 == Ok(Added(docId, t.trainerId.value, t.name.value, t.email.value)) &&
      |out.1| == |store| + 1 && out.1[..|store|] == store &&
      out.1[|store|] == Trainer(docId, t.trainerId.value, t.name.value, t.domain.value,
                                t.specialisation.value, if t.topics.Some? then t.topics.value else [],
                                t.email.value)
  {
    if t.trainerId.None? then (Err(UndefinedField), store)
    else if t.trainerId.value in TrainerIds(store) then (Err(DuplicateMessage(t.trainerId.value)), store)
    else if !Complete(t) then (Err(UndefinedField), store)
    else
      var doc := Trainer(docId, t.trainerId.value, t.name.value, t.domain.value, t.specialisation.value,
                         if t.topics.Some? then t.topics.value else [], t.email.value);
      (Ok(Added(docId, t.trainerId.value, t.name.value, t.email.value)), store + [doc])
  }

  /** A stored trainer_id is reported as a duplicate even when the rest of
      the row is missing: "T1" stored, a row with id "T1" and no name. */
  lemma DuplicateBeforeIncomplete(store: seq<Trainer>, docId: string)
    requires exists k :: 0 <= k < |store| && store[k].trainerId == "T1"
    ensures var t := TrainerInput(Some("T1"), None, None, None, None, None, None);
      Add(store, t, docId).0 == Err("Trainer with ID T1 already exists.")
  {
    var k :| 0 <= k < |store| && store[k].trainerId == "T1";
    assert store[k] in store;
    assert "T1" in TrainerIds(store);
  }

  /** Adding never stores a second trainer with the same trainer_id. */
  lemma AddKeepsUnique(store: seq<Trainer>, t: TrainerInput, docId: string)
    requires UniqueTrainerIds(store)
    ensures UniqueTrainerIds(Add(store, t, docId).1)
    ensures TrainerIds(Add(store, t, docId).1) == TrainerIds(store) + (if Complete(t) then {t.trainerId.value} else {})
  {
    var s := Add(store, t, docId).1;
    if Complete(t) && t.trainerId.value !in TrainerIds(store) {
      assert s == store + [s[|store|]];
      forall i, j | 0 <= i < j < |s| ensures s[i].trainerId != s[j].trainerId {
        if j == |store| {
          assert s[i] == store[i];
        } else {
          assert s[i] == store[i] && s[j] == store[j];
        }
      }
    }
  }

  /** The lists addTrainersBatch builds, and the collection they leave. */
  datatype BatchState = BatchState(store: seq<Trainer>, success: seq<Added>, errors: seq<BatchError>)

  /** One iteration of the batch loop: the outcome of addTrainer goes to
      `success` or, with the trainer's id and name, to `errors`. */
  function Step(b: BatchState, t: TrainerInput, docId: string): BatchState
  {
    var out := Add(b.store, t, docId);
    match out.0
    case Ok(a) => BatchState(out.1, b.success + [a], b.errors)
    case Err(m) => BatchState(out.1, b.success, b.errors + [BatchError(t.trainerId, t.name, m)])
  }

  /** addTrainersBatch(ts), the i-th trainer getting document id docIds[i]
      if it is stored. */
  function Batch(store: seq<Trainer>, ts: seq<TrainerInput>, docIds: seq<string>): BatchState
    requires |docIds| == |ts|
  {
    if ts == [] then BatchState(store, [], [])
    else Step(Batch(store, ts[..|ts| - 1], docIds[..|ts| - 1]), ts[|ts| - 1], docIds[|ts| - 1])
  }

  lemma BatchPrefix(store: seq<Trainer>, ts: seq<TrainerInput>, docIds: seq<string>, i: nat)
    requires |docIds| == |ts| && i < |ts|
    ensures Batch(store, ts[..i + 1], docIds[..i + 1]) == Step(Batch(store, ts[..i], docIds[..i]), ts[i], docIds[i])
  {
    assert ts[..i + 1][..i] == ts[..i];
    assert docIds[..i + 1][..i] == docIds[..i];
  }

  /** Every trainer of a batch ends in exactly one of the two lists, and the
      collection only grows, by the trainers that succeeded. */
  lemma {:induction false} BatchCounts(store: seq<Trainer>, ts: seq<TrainerInput>, docIds: seq<string>)
    requires |docIds| == |ts|
    ensures var b := Batch(store, ts, docIds);
      |b.success| + |b.errors| == |ts| && |b.store| == |store| + |b.success| && b.store[..|store|] == store
  {
    if ts != [] {
      var n := |ts| - 1;
      BatchCounts(store, ts[..n], docIds[..n]);
      var b := Batch(store, ts[..n], docIds[..n]);
      assert Add(b.store, ts[n], docIds[n]).1[..|b.store|] == b.store;
    }
  }

  /** A batch keeps trainer ids unique and stores every complete trainer's
      id: a repeated id is stored once. */
  lemma {:induction false} BatchKeepsUnique(store: seq<Trainer>, ts: seq<TrainerInput>, docIds: seq<string>)
    requires |docIds| == |ts| && UniqueTrainerIds(store)
    ensures UniqueTrainerIds(Batch(store, ts, docIds).store)
    ensures forall i :: 0 <= i < |ts| && Complete(ts[i]) ==> ts[i].trainerId.value in TrainerIds(Batch(store, ts, docIds).store)
    ensures TrainerIds(store) <= TrainerIds(Batch(store, ts, docIds).store)
  {
    if ts != [] {
      var n := |ts| - 1;
      BatchKeepsUnique(store, ts[..n], docIds[..n]);
      var b := Batch(store, ts[..n], docIds[..n]);
      AddKeepsUnique(b.store, ts[n], docIds[n]);
      forall i | 0 <= i < |ts| && Complete(ts[i])
        ensures ts[i].trainerId.value in TrainerIds(Batch(store, ts, docIds).store)
      {
        if i < n {
          assert ts[..n][i] == ts[i];
        }
      }
    }
  }

  /** A trainer whose trainer_id an earlier trainer of the same batch
      already carried lands in `errors` as a duplicate, and the collection
      is left as it was at that point. */
  lemma {:induction false} RepeatRejected(store: seq<Trainer>, ts: seq<TrainerInput>, docIds: seq<string>, i: nat, j: nat)
    requires |docIds| == |ts| && i < j < |ts|
    requires Complete(ts[i]) && ts[j].trainerId == ts[i].trainerId
    ensures var before := Batch(store, ts[..j], docIds[..j]);
      Batch(store, ts[..j + 1], docIds[..j + 1]) ==
        before.(errors := before.errors + [BatchError(ts[j].trainerId, ts[j].name, DuplicateMessage(ts[j].trainerId.value))])
  {
    var before := Batch(store, ts[..j], docIds[..j]);
    StoredStays(store, ts[..j], docIds[..j], i);
    BatchPrefix(store, ts, docIds, j);
  }

  /** Once a complete trainer's id is in the collection it stays there. */
  lemma {:induction false} StoredStays(store: seq<Trainer>, ts: seq<TrainerInput>, docIds: seq<string>, i: nat)
    requires |docIds| == |ts| && i < |ts| && Complete(ts[i])
    ensures ts[i].trainerId.value in TrainerIds(Batch(store, ts, docIds).store)
  {
    var n := |ts| - 1;
    var b := Batch(store, ts[..n], docIds[..n]);
    if i < n {
      assert ts[..n][i] == ts[i];
      StoredStays(store, ts[..n], docIds[..n], i);
    }
    var s := Add(b.store, ts[n], docIds[n]).1;
    assert TrainerIds(b.store) <= TrainerIds(s) by {
      forall x | x in TrainerIds(b.store) ensures x in TrainerIds(s) {
        var t :| t in b.store && t.trainerId == x;
        var k :| 0 <= k < |b.store| && b.store[k] == t;
        assert s[k] == t;
      }
    }
  }

  /** `{ ...t, ...updates }` for the trainer with document id `id`, every
      other trainer untouched (updateTrainer on the collection, and the
      tab's update of its local list). */
  function ApplyEdit(t: Trainer, e: TrainerEdit): (r: Trainer)
    ensures r.id == t.id && r.trainerId == t.trainerId
    ensures r.name == e.name && r.email == e.email && r.domain == e.domain
    ensures r.specialisation == e.specialisation && r.topics == e.topics
  {
    t.(name := e.name, email := e.email, domain := e.domain, specialisation := e.specialisation, topics := e.topics)
  }

  function UpdateIn(s: seq<Trainer>, id: string, e: TrainerEdit): (r: seq<Trainer>)
    ensures |r| == |s|
    ensures forall k :: 0 <= k < |s| ==> r[k] == if s[k].id == id then ApplyEdit(s[k], e) else s[k]
  {
    Map(s, (t: Trainer) => if t.id == id then ApplyEdit(t, e) else t)
  }

  /** Deleting by document id keeps every other trainer, in order. */
  function DeleteIn(s: seq<Trainer>, id: string): (r: seq<Trainer>)
    ensures forall t :: t in r <==> t in s && t.id != id
  {
    var r := Filter(s, (t: Trainer) => t.id != id);
    forall t ensures t in r <==> t in s && t.id != id {
      FilterMembers(s, (t: Trainer) => t.id != id, t);
    }
    r
  }

  predicate HasDocument(s: seq<Trainer>, id: string)
  {
    exists k :: 0 <= k < |s| && s[k].id == id
  }

  /** One page of getAllTrainers: the trainers, the cursor for the next
      page (an index into the collection) and `hasMore`. */
  datatype Page = Page(trainers: seq<Trainer>, lastDoc: Option<nat>, hasMore: bool)

  /** getAllTrainers(limitCount, lastDoc): up to limitCount trainers after
      the cursor (from the start without one). */
  function GetAllTrainers(all: seq<Trainer>, limitCount: nat, lastDoc: Option<nat>): (p: Page)
    requires limitCount > 0
    ensures p.hasMore <==> |p.trainers| == limitCount
    ensures |p.trainers| <= limitCount
    ensures p.lastDoc.None? <==> p.trainers == []
    ensures p.lastDoc.Some? ==> p.lastDoc.value < |all| && p.trainers[|p.trainers| - 1] == all[p.lastDoc.value]
  {
    var start := if lastDoc.Some? then lastDoc.value + 1 else 0;
    var start' := if start <= |all| then start else |all|;
    var end := if start' + limitCount <= |all| then start' + limitCount else |all|;
    var page := all[start'..end];
    Page(page, if page == [] then None else Some(end - 1), |page| == limitCount)
  }

  /** A non-empty page is the slice of the collection that ends at its cursor. */
  lemma PageEndsAtCursor(all: seq<Trainer>, limitCount: nat, cursor: Option<nat>)
    requires limitCount > 0
    ensures var p := GetAllTrainers(all, limitCount, cursor);
      p.lastDoc.Some? ==> (|p.trainers| <= p.lastDoc.value + 1 &&
        p.trainers == all[p.lastDoc.value + 1 - |p.trainers|..p.lastDoc.value + 1])
  {
  }

  /** The page after cursor c starts right behind it. */
  lemma PageAfter(all: seq<Trainer>, limitCount: nat, c: nat)
    requires limitCount > 0 && c < |all|
    ensures GetAllTrainers(all, limitCount, Some(c)).trainers ==
      all[c + 1..if c + 1 + limitCount <= |all| then c + 1 + limitCount else |all|]
  {
  }

  /** Two adjacent slices make one. */
  lemma SlicesJoin<T>(a: seq<T>, s: nat, e: nat, e2: nat)
    requires s <= e <= e2 <= |a|
    ensures a[s..e] + a[e..e2] == a[s..e2]
  {
    assert a[s..e2] == a[s..e2][..e - s] + a[s..e2][e - s..];
  }

  /** A page without `hasMore` reaches the end of the collection, and the
      page after a cursor continues exactly where the previous one ended. */
  lemma PagesContinue(all: seq<Trainer>, limitCount: nat, cursor: Option<nat>)
    requires limitCount > 0
    ensures var p := GetAllTrainers(all, limitCount, cursor);
      (!p.hasMore && p.lastDoc.Some? ==> p.lastDoc.value == |all| - 1) &&
      (p.lastDoc.Some? ==>
         (p.trainers + GetAllTrainers(all, limitCount, p.lastDoc).trainers ==
          all[p.lastDoc.value + 1 - |p.trainers|..
              if p.lastDoc.value + 1 + limitCount <= |all| then p.lastDoc.value + 1 + limitCount else |all|]))
  {
    var p := GetAllTrainers(all, limitCount, cursor);
    if p.lastDoc.Some? {
      var c := p.lastDoc.value;
      var e2 := if c + 1 + limitCount <= |all| then c + 1 + limitCount else |all|;
      var b := c + 1 - |p.trainers|;
      PageEndsAtCursor(all, limitCount, cursor);
      assert p.trainers == all[b..c + 1];
      PageAfter(all, limitCount, c);
      SlicesJoin(all, b, c + 1, e2);
    }
  }

  /** The trainer collection and the operations that change it. */
  class TrainerStore {
    var trainers: seq<Trainer>

    constructor(initial: seq<Trainer>)
      ensures trainers == initial
    {
      trainers := initial;
    }

    /** addTrainer: rejects a trainer whose trainer_id is already stored
        and otherwise appends the new document. */
    method AddTrainer(t: TrainerInput, docId: string) returns (r: Result<Added>)
      modifies this
      ensures (r, trainers) == Add(old(trainers), t, docId)
    {
      if t.trainerId.None? {
        return Err(UndefinedField);
      }
      if t.trainerId.value in TrainerIds(trainers) {
        return Err(DuplicateMessage(t.trainerId.value));
      }
      if !Complete(t) {
        return Err(UndefinedField);
      }
      var doc := Trainer(docId, t.trainerId.value, t.name.value, t.domain.value, t.specialisation.value,
                         if t.topics.Some? then t.topics.value else [], t.email.value);
      trainers := trainers + [doc];
      r := Ok(Added(docId, t.trainerId.value, t.name.value, t.email.value));
    }

    /** addTrainersBatch: each trainer in turn, against the collection the
        earlier ones extended. */
    method AddTrainersBatch(ts: seq<TrainerInput>, docIds: seq<string>) returns (success: seq<Added>, errors: seq<BatchError>)
      requires |docIds| == |ts|
      modifies this
      ensures BatchState(trainers, success, errors) == Batch(old(trainers), ts, docIds)
    {
      success, errors := [], [];
      ghost var start := trainers;
      for i := 0 to |ts|
        invariant BatchState(trainers, success, errors) == Batch(start, ts[..i], docIds[..i])
      {
        BatchPrefix(start, ts, docIds, i);
        var r := AddTrainer(ts[i], docIds[i]);
        match r {
          case Ok(a) => success := success + [a];
          case Err(m) => errors := errors + [BatchError(ts[i].trainerId, ts[i].name, m)];
        }
      }
      assert ts[..|ts|] == ts && docIds[..|ts|] == docIds;
    }

    /** updateTrainer: a missing document fails and changes nothing. */
    method UpdateTrainer(id: string, e: TrainerEdit) returns (r: Result<TrainerEdit>)
      modifies this
      ensures !HasDocument(old(trainers), id) ==> r.Err? && trainers == old(trainers)
      ensures HasDocument(old(trainers), id) ==> r == Ok(e) && trainers == UpdateIn(old(trainers), id, e)
    {
      if !HasDocument(trainers, id) {
        return Err("No document to update");
      }
      trainers := UpdateIn(trainers, id, e);
      r := Ok(e);
    }

    /** deleteTrainer: succeeds whether or not the document exists. */
    method DeleteTrainer(id: string)
      modifies this
      ensures trainers == DeleteIn(old(trainers), id)
    {
      trainers := DeleteIn(trainers, id);
    }
  }
}
