/** The trainers tab: the search box, the create/edit dialog (validation,
    the comma-separated topics field and the update it sends), the local
    list after an edit or a delete, and the JSON batch upload. */
module TrainersTab {
  import opened Common
  import opened JsValue
  import opened TrainerService

  // ---------------------------------------------------------------------------
  // Search
  // ---------------------------------------------------------------------------

  /** A trainer matches when the lower-cased query occurs in its name,
      email, domain or trainer_id, ignoring case. */
  predicate Matches(t: Trainer, query: string)
  {
    ContainsIgnoreCase(t.name, query) || ContainsIgnoreCase(t.email, query) ||
    ContainsIgnoreCase(t.domain, query) || ContainsIgnoreCase(t.trainerId, query)
  }

  /** `filteredTrainers`. */
  function Filtered(trainers: seq<Trainer>, query: string): seq<Trainer>
  {
    Filter(trainers, (t: Trainer) => Matches(t, query))
  }

  /** The search keeps exactly the matching trainers. */
  lemma SearchMembers(trainers: seq<Trainer>, query: string, t: Trainer)
    ensures t in Filtered(trainers, query) <==> t in trainers && Matches(t, query)
  {
    FilterMembers(trainers, (t: Trainer) => Matches(t, query), t);
  }

  /** An empty search keeps every trainer, in order. */
  lemma {:induction false} EmptySearchKeepsAll(trainers: seq<Trainer>)
    ensures Filtered(trainers, "") == trainers
  {
    if trainers != [] {
      assert IsPrefix(ToLower(""), ToLower(trainers[0].name));
      EmptySearchKeepsAll(trainers[1..]);
      assert trainers == [trainers[0]] + trainers[1..];
    }
  }

  // ---------------------------------------------------------------------------
  // Topics text
  // ---------------------------------------------------------------------------

  predicate NonEmpty(t: string)
  {
    t != ""
  }

  /** `topics.split(",").map(t => t.trim()).filter(t => t)`. */
  function ParseTopics(text: string): (r: seq<string>)
    ensures forall i :: 0 <= i < |r| ==> r[i] != "" && ',' !in r[i]
  {
    var pieces := Split(text, ',');
    var trimmed := Map(pieces, Trim);
    forall i | 0 <= i < |trimmed| ensures ',' !in trimmed[i] {
      TrimNoNewChar(pieces[i], ',');
    }
    var r := Filter(trimmed, NonEmpty);
    FilterSatisfies(trimmed, NonEmpty);
    forall i | 0 <= i < |r| ensures ',' !in r[i] {
      FilterMembers(trimmed, NonEmpty, r[i]);
    }
    r
  }

  /** The edit dialog shows topics joined with ", ". */
  function JoinTopics(topics: seq<string>): string
  {
    Join(topics, ", ")
  }

  /** A topic the round trip recovers: non-empty, no comma, nothing to trim. */
  predicate CleanTopic(t: string)
  {
    t != "" && ',' !in t && IsTrimmed(t)
  }

  function Spaced(t: string): string
  {
    " " + t
  }

  lemma {:induction false} JoinSpaced(u: seq<string>)
    requires |u| >= 1
    ensures Join(Map(u, Spaced), ",") == " " + Join(u, ", ")
  {
    if |u| >= 2 {
      JoinSpaced(u[1..]);
      assert Map(u, Spaced)[1..] == Map(u[1..], Spaced);
    }
  }

  lemma TrimSpaced(t: string)
    requires t != [] && IsTrimmed(t)
    ensures Trim(" " + t) == t
  {
    assert (" " + t)[1..] == t;
    assert TrimStart(" " + t) == TrimStart(t);
    TrimOfTrimmed(t);
  }

  lemma {:induction false} FilterKeepsAll(s: seq<string>)
    requires forall i :: 0 <= i < |s| ==> s[i] != ""
    ensures Filter(s, NonEmpty) == s
  {
    if s != [] {
      FilterKeepsAll(s[1..]);
      assert s == [s[0]] + s[1..];
    }
  }

  /** The pieces a split at ',' finds in joined topics: the first topic,
      then each further one behind its space. */
  function Pieces(topics: seq<string>): seq<string>
    requires |topics| >= 1
  {
    [topics[0]] + Map(topics[1..], Spaced)
  }

  lemma JoinedPieces(topics: seq<string>)
    requires |topics| >= 1
    ensures Join(Pieces(topics), ",") == JoinTopics(topics)
  {
    var parts := Pieces(topics);
    if |topics| >= 2 {
      JoinSpaced(topics[1..]);
      assert parts[1..] == Map(topics[1..], Spaced);
      assert Join(parts, ",") == topics[0] + "," + Join(Map(topics[1..], Spaced), ",");
      assert topics == [topics[0]] + topics[1..];
    }
  }

  lemma TrimmedPieces(topics: seq<string>)
    requires |topics| >= 1
    requires forall i :: 0 <= i < |topics| ==> CleanTopic(topics[i])
    ensures forall k :: 0 <= k < |Pieces(topics)| ==> ',' !in Pieces(topics)[k]
    ensures Map(Pieces(topics), Trim) == topics
  {
    var parts := Pieces(topics);
    forall i | 0 <= i < |parts| ensures ',' !in parts[i] && Trim(parts[i]) == topics[i] {
      if i == 0 {
        TrimOfTrimmed(topics[0]);
      } else {
        assert parts[i] == " " + topics[i];
        TrimSpaced(topics[i]);
      }
    }
  }

  /** Editing shows the topics joined with ", " and saving re-splits them:
      clean topics come back unchanged. */
  lemma TopicsRoundTrip(topics: seq<string>)
    requires forall i :: 0 <= i < |topics| ==> CleanTopic(topics[i])
    ensures ParseTopics(JoinTopics(topics)) == topics
  {
    if topics == [] {
      assert Split("", ',') == [""];
    } else {
      JoinedPieces(topics);
      TrimmedPieces(topics);
      SplitJoin(Pieces(topics), ',');
      assert Split(JoinTopics(topics), ',') == Pieces(topics);
      FilterKeepsAll(topics);
    }
  }

  // ---------------------------------------------------------------------------
  // The create/edit dialog
  // ---------------------------------------------------------------------------

  /** The dialog's form state; topics are one comma-separated string. */
  datatype Form = Form(
    trainerId: string, name: string, email: string, domain: string,
    specialisation: string, topics: string, password: string)

  const DefaultForm := Form("", "", "", "", "", "", "")

  /** openEditDialog: the form for an existing trainer, password empty. */
  function EditForm(t: Trainer): (f: Form)
    ensures f.trainerId == t.trainerId && f.name == t.name && f.email == t.email
    ensures f.domain == t.domain && f.specialisation == t.specialisation
    ensures f.password == ""
  {
    Form(t.trainerId, t.name, t.email, t.domain, t.specialisation, JoinTopics(t.topics), "")
  }

  /** What handleSaveTrainer sends: a new trainer, or an update of the
      trainer being edited without its trainer_id and password. */
  datatype SaveRequest = CreateRequest(input: TrainerInput) | UpdateRequest(id: string, edit: TrainerEdit)

  const MissingFields := "Please fill in required fields (ID, Name, Email)"
  const MissingPassword := "Password is required for new trainers"

  /** handleSaveTrainer's validation and payload; `editing` is the document
      id of the trainer being edited, None when creating. */
  function Save(f: Form, editing: Option<string>): (r: Result<SaveRequest>)
    ensures (IsBlank(f.name) || IsBlank(f.trainerId) || IsBlank(f.email)) ==> r == Err(MissingFields)
    ensures !(IsBlank(f.name) || IsBlank(f.trainerId) || IsBlank(f.email)) && editing.None? && f.password == "" ==>
      r == Err(MissingPassword)
    ensures r.Ok? ==> !IsBlank(f.name) && !IsBlank(f.trainerId) && !IsBlank(f.email)
    ensures r.Ok? ==> (r.value.UpdateRequest? <==> editing.Some?)
    ensures r.Ok? && editing.Some? ==> r.value.id == editing.value && r.value.edit.topics == ParseTopics(f.topics)
    ensures r.Ok? && editing.None? ==> r.value.input.password == Some(f.password) && f.password != ""
  {
    if IsBlank(f.name) || IsBlank(f.trainerId) || IsBlank(f.email) then Err(MissingFields)
    else if editing.None? && f.password == "" then Err(MissingPassword)
    else
      var topics := ParseTopics(f.topics);
      if editing.Some? then
        Ok(UpdateRequest(editing.value, TrainerEdit(Trim(f.name), Trim(f.email), Trim(f.domain), Trim(f.specialisation), topics)))
      else
        Ok(CreateRequest(TrainerInput(Some(Trim(f.trainerId)), Some(Trim(f.name)), Some(Trim(f.domain)),
                                      Some(Trim(f.specialisation)), Some(topics), Some(Trim(f.email)), Some(f.password))))
  }

  /** A stored trainer whose fields are already clean. */
  predicate CleanTrainer(t: Trainer)
  {
    !IsBlank(t.name) && !IsBlank(t.trainerId) && !IsBlank(t.email) &&
    IsTrimmed(t.name) && IsTrimmed(t.email) && IsTrimmed(t.domain) && IsTrimmed(t.specialisation) &&
    forall i :: 0 <= i < |t.topics| ==> CleanTopic(t.topics[i])
  }

  /** Opening the edit dialog on a clean trainer and saving without
      changes sends an update that leaves the trainer as it was. */
  lemma EditUnchangedIsNoOp(t: Trainer)
    requires CleanTrainer(t)
    ensures Save(EditForm(t), Some(t.id)).Ok?
    ensures ApplyEdit(t, Save(EditForm(t), Some(t.id)).value.edit) == t
  {
    var f := EditForm(t);
    TrimOfTrimmed(t.name);
    TrimOfTrimmed(t.email);
    TrimOfTrimmed(t.domain);
    TrimOfTrimmed(t.specialisation);
    TopicsRoundTrip(t.topics);
    var e := TrainerEdit(Trim(f.name), Trim(f.email), Trim(f.domain), Trim(f.specialisation), ParseTopics(f.topics));
    assert Save(f, Some(t.id)) == Ok(UpdateRequest(t.id, e));
    assert e == TrainerEdit(t.name, t.email, t.domain, t.specialisation, t.topics);
  }

  /** After a successful edit the tab patches its own list: the edited
      trainer takes the new fields and keeps its id and trainer_id; every
      other trainer is untouched. */
  lemma LocalEditOnlyTouchesEdited(list: seq<Trainer>, id: string, e: TrainerEdit, k: nat)
    requires k < |list|
    ensures list[k].id != id ==> UpdateIn(list, id, e)[k] == list[k]
    ensures list[k].id == id ==>
      UpdateIn(list, id, e)[k].trainerId == list[k].trainerId && UpdateIn(list, id, e)[k].name == e.name
  {
  }

  // ---------------------------------------------------------------------------
  // Batch upload
  // ---------------------------------------------------------------------------

  /** A string property of an uploaded record; anything else is absent. */
  function FieldStr(o: JsObject, k: string): (r: Option<string>)
    ensures r.Some? <==> k in o && o[k].Str?
  {
    if k in o && o[k].Str? then Some(o[k].s) else None
  }

  function StrItems(items: seq<Val>): (r: seq<string>)
    ensures |r| <= |items|
  {
    if items == [] then []
    else (if items[0].Str? then [items[0].s] else []) + StrItems(items[1..])
  }

  /** The trainer a parsed JSON element describes. */
  function InputOf(v: Val): (t: TrainerInput)
    ensures !v.Obj? ==> !Complete(t)
  {
    if v.Obj? then
      var o := v.fields;
      TrainerInput(FieldStr(o, "trainer_id"), FieldStr(o, "name"), FieldStr(o, "domain"),
                   FieldStr(o, "specialisation"),
                   if "topics" in o && o["topics"].Arr? then Some(StrItems(o["topics"].items)) else None,
                   FieldStr(o, "email"), FieldStr(o, "password"))
    else TrainerInput(None, None, None, None, None, None, None)
  }

  const NotAnArray := "JSON must be an array of trainer objects"

  /** handleBatchUpload after parsing: anything but an array is rejected;
      an array becomes one trainer input per element, in order. */
  function BatchInputs(json: Val): (r: Result<seq<TrainerInput>>)
    ensures r.Err? <==> !json.Arr?
    ensures r.Err? ==> r.msg == NotAnArray
    ensures r.Ok? ==> |r.value| == |json.items| && forall i :: 0 <= i < |r.value| ==> r.value[i] == InputOf(json.items[i])
  {
    if json.Arr? then Ok(Map(json.items, InputOf)) else Err(NotAnArray)
  }
}
