/** The public feedback form of one session: whether the session is open,
    the answers a student enters, the required-answer check, the answers
    sent, and the two browser-storage entries (the device id and the
    "already submitted" marker). */
module AnonymousFeedback {
  import opened Common

  // ---------------------------------------------------------------------------
  // The session
  // ---------------------------------------------------------------------------

  /** One question of the session's form; `kind` is its `type`. */
  datatype Question = Question(id: string, kind: Option<string>, required: bool)

  /** The session document; `expiresAt` is a timestamp. */
  datatype SessionDoc = SessionDoc(status: string, expiresAt: Option<int>, questions: seq<Question>)

  /** What loadSession shows. */
  datatype LoadOutcome =
    | LoadFailed      // 'Failed to load feedback form'
    | NotFound        // 'Session not found'
    | Closed          // 'Session Closed'
    | Open(session: SessionDoc)

  /** loadSession: `fetched` is the read of the session document (an error,
      or the document if it exists); `now` is the current timestamp. */
  function LoadSession(fetched: Result<Option<SessionDoc>>, now: int): (r: LoadOutcome)
    ensures r.LoadFailed? <==> fetched.Err?
    ensures r.NotFound? <==> fetched == Ok(None)
    ensures r.Open? <==> (fetched.Ok? && fetched.value.Some? && fetched.value.value.status == "active" &&
                         (fetched.value.value.expiresAt.None? || fetched.value.value.expiresAt.value >= now))
    ensures r.Open? ==> r.session == fetched.value.value
  {
    if fetched.Err? then LoadFailed
    else if fetched.value.None? then NotFound
    else
      var doc := fetched.value.value;
      if doc.status != "active" then Closed
      else if doc.expiresAt.Some? && doc.expiresAt.value < now then Closed
      else Open(doc)
  }

  /** A session stays closed once it is, and an open session closes when
      its expiry time has passed. */
  lemma ClosedStaysClosed(doc: SessionDoc, now: int, later: int)
    requires now <= later
    ensures LoadSession(Ok(Some(doc)), now).Closed? ==> LoadSession(Ok(Some(doc)), later).Closed?
    ensures doc.expiresAt.Some? && doc.expiresAt.value < later ==> LoadSession(Ok(Some(doc)), later).Closed?
  {
  }

  // ---------------------------------------------------------------------------
  // The answers being entered
  // ---------------------------------------------------------------------------

  /** A stored answer value: a parsed rating (None for NaN), a string (text
      or the chosen option), or the list of selected options. */
  datatype Value =
    | Num(n: Option<int>)
    | Str(s: string)
    | Items(items: seq<string>)

  /** `responses[index]`: the value and the recorded type, if any. */
  datatype Answer = Answer(value: Option<Value>, kind: Option<string>)

  type Responses = map<nat, Answer>

  function ValueAt(rs: Responses, i: nat): Option<Value>
  {
    if i in rs then rs[i].value else None
  }

  /** JavaScript truthiness of a value: undefined, NaN, 0 and "" are falsy,
      every array is truthy. */
  predicate Truthy(v: Option<Value>)
  {
    match v
    case None => false
    case Some(Num(n)) => n.Some? && n.value != 0
    case Some(Str(s)) => s != ""
    case Some(Items(_)) => true
  }

  /** handleRatingChange: `parseInt(rating)` with type 'rating'. */
  function RatingChange(rs: Responses, index: nat, rating: string): (r: Responses)
    ensures r.Keys == rs.Keys + {index}
    ensures r[index] == Answer(Some(Num(ParseInt(rating))), Some("rating"))
    ensures forall i :: i in rs && i != index ==> r[i] == rs[i]
  {
    rs[index := Answer(Some(Num(ParseInt(rating))), Some("rating"))]
  }

  /** handleTextChange: the text, keeping any recorded type. */
  function TextChange(rs: Responses, index: nat, text: string): (r: Responses)
    ensures r.Keys == rs.Keys + {index}
    ensures r[index].value == Some(Str(text))
    ensures r[index].kind == if index in rs then rs[index].kind else None
    ensures forall i :: i in rs && i != index ==> r[i] == rs[i]
  {
    rs[index := Answer(Some(Str(text)), if index in rs then rs[index].kind else None)]
  }

  /** handleMcqChange: the chosen option with type 'mcq'. */
  function McqChange(rs: Responses, index: nat, option: string): (r: Responses)
    ensures r.Keys == rs.Keys + {index}
    ensures r[index] == Answer(Some(Str(option)), Some("mcq"))
    ensures forall i :: i in rs && i != index ==> r[i] == rs[i]
  {
    rs[index := Answer(Some(Str(option)), Some("mcq"))]
  }

  /** The options selected at index: the stored array, or none. */
  function Selected(rs: Responses, index: nat): seq<string>
  {
    var v := ValueAt(rs, index);
    if v.Some? && v.value.Items? then v.value.items else []
  }

  /** The selection with option toggled: removed where selected, appended
      otherwise. */
  function Toggle(current: seq<string>, option: string): seq<string>
  {
    if option in current then Filter(current, (o: string) => o != option) else current + [option]
  }

  /** handleMultiselectChange: the toggled selection with type
      'multiselect'. */
  function MultiselectChange(rs: Responses, index: nat, option: string): (r: Responses)
    ensures r.Keys == rs.Keys + {index}
    ensures r[index].kind == Some("multiselect")
    ensures forall i :: i in rs && i != index ==> r[i] == rs[i]
  {
    rs[index := Answer(Some(Items(Toggle(Selected(rs, index), option))), Some("multiselect"))]
  }

  /** The toggled option changes state, every other option keeps its state,
      and a selection without repeats stays without repeats. */
  lemma {:induction false} ToggleFlips(rs: Responses, index: nat, option: string, other: string)
    requires other != option
    ensures var after := Selected(MultiselectChange(rs, index, option), index);
      (option in after <==> option !in Selected(rs, index)) &&
      (other in after <==> other in Selected(rs, index))
    ensures NoDuplicates(Selected(rs, index)) ==> NoDuplicates(Selected(MultiselectChange(rs, index, option), index))
  {
    var current := Selected(rs, index);
    var p := (o: string) => o != option;
    assert Selected(MultiselectChange(rs, index, option), index) == Toggle(current, option);
    FilterMembers(current, p, option);
    FilterMembers(current, p, other);
    if NoDuplicates(current) && option in current {
      FilterUnique(current, p);
    }
  }

  /** Toggling an option twice restores the selected options; when it was
      not selected the selection comes back exactly. */
  lemma ToggleTwice(rs: Responses, index: nat, option: string)
    ensures var twice := Selected(MultiselectChange(MultiselectChange(rs, index, option), index, option), index);
      (forall o :: o in twice <==> o in Selected(rs, index)) &&
      (option !in Selected(rs, index) ==> twice == Selected(rs, index))
  {
    var current := Selected(rs, index);
    var once := MultiselectChange(rs, index, option);
    assert Selected(once, index) == Toggle(current, option);
    var p := (o: string) => o != option;
    assert Selected(MultiselectChange(once, index, option), index) == Toggle(Toggle(current, option), option);
    if option in current {
      FilterMembers(current, p, option);
      forall o ensures o in Toggle(Toggle(current, option), option) <==> o in current {
        FilterMembers(current, p, o);
      }
    } else {
      FilterSnoc(current, option, p);
      FilterAll(current, p);
    }
  }

  /** A string of digits is its own digit prefix. */
  lemma DigitPrefixAll(s: string)
    requires AllDigits(s)
    ensures DigitPrefix(s) == s
  {
  }

  /** `String(n)` read back by parseInt is n. */
  lemma ParseNatStr(n: nat)
    ensures ParseInt(NatStr(n)) == Some(n)
  {
    var s := NatStr(n);
    assert IsDigit(s[0]) && !IsSpace(s[0]);
    assert TrimStart(s) == s;
    assert s[0] != '-' && s[0] != '+';
    DigitPrefixAll(s);
  }

  /** The rating buttons carry `rating.toString()`: choosing one stores that
      rating as an integer. */
  lemma RatingStoredAsInteger(rs: Responses, index: nat, rating: nat)
    ensures RatingChange(rs, index, NatStr(rating))[index].value == Some(Num(Some(rating)))
  {
    ParseNatStr(rating);
  }

  // ---------------------------------------------------------------------------
  // Submitting
  // ---------------------------------------------------------------------------

  /** The required check rejects a value that is falsy or an empty array. */
  predicate Missing(v: Option<Value>)
  {
    !Truthy(v) || (v.Some? && v.value.Items? && |v.value.items| == 0)
  }

  predicate AllRequiredAnswered(qs: seq<Question>, rs: Responses)
  {
    forall i :: 0 <= i < |qs| && qs[i].required ==> !Missing(ValueAt(rs, i))
  }

  /** The for-of loop over the required questions: false at the first one
      left unanswered. */
  method CheckRequired(qs: seq<Question>, rs: Responses) returns (ok: bool)
    ensures ok <==> AllRequiredAnswered(qs, rs)
  {
    for i := 0 to |qs|
      invariant forall k :: 0 <= k < i && qs[k].required ==> !Missing(ValueAt(rs, k))
    {
      if qs[i].required && Missing(ValueAt(rs, i)) {
        return false;
      }
    }
    return true;
  }

  /** An answer as sent: `{ questionId, value, type }`. */
  datatype SentAnswer = SentAnswer(questionId: string, value: Value, kind: string)

  /** `a || b` on two optional strings, "" being falsy. */
  function KindOf(recorded: Option<string>, question: Option<string>): (r: string)
    ensures recorded.Some? && recorded.value != "" ==> r == recorded.value
    ensures (recorded.None? || recorded.value == "") && question.Some? && question.value != "" ==> r == question.value
    ensures (recorded.None? || recorded.value == "") && (question.None? || question.value == "") ==> r == "rating"
  {
    if recorded.Some? && recorded.value != "" then recorded.value
    else if question.Some? && question.value != "" then question.value
    else "rating"
  }

  function AnswerFor(qs: seq<Question>, rs: Responses, i: nat): SentAnswer
    requires i < |qs| && Truthy(ValueAt(rs, i))
  {
    SentAnswer(qs[i].id, ValueAt(rs, i).value, KindOf(if i in rs then rs[i].kind else None, qs[i].kind))
  }

  /** The answers array: one answer per question whose value is truthy, in
      question order (`value || null`, then the nulls filtered out). */
  function FormatAnswers(qs: seq<Question>, rs: Responses): seq<SentAnswer>
  {
    if qs == [] then []
    else
      var i := |qs| - 1;
      FormatAnswers(qs[..i], rs) + (if Truthy(ValueAt(rs, i)) then [AnswerFor(qs, rs, i)] else [])
  }

  /** The answers sent are exactly the questions with a truthy value. */
  lemma {:induction false} FormatAnswersExactly(qs: seq<Question>, rs: Responses, a: SentAnswer)
    ensures a in FormatAnswers(qs, rs) <==> exists i :: 0 <= i < |qs| && Truthy(ValueAt(rs, i)) && a == AnswerFor(qs, rs, i)
  {
    if qs != [] {
      var n := |qs| - 1;
      FormatAnswersExactly(qs[..n], rs, a);
      forall i | 0 <= i < n && Truthy(ValueAt(rs, i)) ensures AnswerFor(qs[..n], rs, i) == AnswerFor(qs, rs, i) {
      }
      if a in FormatAnswers(qs[..n], rs) {
        var i :| 0 <= i < n && Truthy(ValueAt(rs, i)) && a == AnswerFor(qs[..n], rs, i);
        assert a == AnswerFor(qs, rs, i);
      }
    }
  }

  /** There are as many answers as truthy values, and they keep question
      order: the k-th answer is the k-th question answered. */
  lemma {:induction false} FormatAnswersCount(qs: seq<Question>, rs: Responses)
    ensures |FormatAnswers(qs, rs)| == |Answered(qs, rs)|
    ensures forall k :: 0 <= k < |FormatAnswers(qs, rs)| ==>
      Answered(qs, rs)[k] < |qs| && FormatAnswers(qs, rs)[k].questionId == qs[Answered(qs, rs)[k]].id
  {
    if qs != [] {
      var n := |qs| - 1;
      FormatAnswersCount(qs[..n], rs);
    }
  }

  /** The indices, below n, of the questions with a truthy value. */
  function AnsweredUpTo(rs: Responses, n: nat): (r: seq<nat>)
    ensures forall k :: 0 <= k < |r| ==> r[k] < n
    ensures StrictlyIncreasing(r)
  {
    if n == 0 then []
    else AnsweredUpTo(rs, n - 1) + (if Truthy(ValueAt(rs, n - 1)) then [n - 1] else [])
  }

  predicate StrictlyIncreasing(s: seq<nat>)
  {
    forall i, j :: 0 <= i < j < |s| ==> s[i] < s[j]
  }

  function Answered(qs: seq<Question>, rs: Responses): seq<nat>
  {
    AnsweredUpTo(rs, |qs|)
  }

  /** A form that passes the required check sends an answer for every
      required question. */
  lemma RequiredAreSent(qs: seq<Question>, rs: Responses, i: nat)
    requires AllRequiredAnswered(qs, rs) && i < |qs| && qs[i].required
    ensures Truthy(ValueAt(rs, i)) && AnswerFor(qs, rs, i) in FormatAnswers(qs, rs)
  {
    FormatAnswersExactly(qs, rs, AnswerFor(qs, rs, i));
  }

  // ---------------------------------------------------------------------------
  // Browser storage
  // ---------------------------------------------------------------------------

  type Store = map<string, string>

  const DeviceKey: string := "feedback_device_id"

  /** getDeviceId: the stored id, or a new `device_…` id, stored; an empty
      stored value counts as none. */
  function GetDeviceId(store: Store, suffix: string): (r: (string, Store))
    ensures r.0 != ""
    ensures DeviceKey in r.1 && r.1[DeviceKey] == r.0
    ensures DeviceKey in store && store[DeviceKey] != "" ==> r == (store[DeviceKey], store)
    ensures forall k :: k in store && k != DeviceKey ==> k in r.1 && r.1[k] == store[k]
    ensures r.1.Keys == store.Keys + {DeviceKey}
  {
    if DeviceKey in store && store[DeviceKey] != "" then (store[DeviceKey], store)
    else ("device_" + suffix, store[DeviceKey := "device_" + suffix])
  }

  /** Once an id is stored every call returns it and stores nothing. */
  lemma DeviceIdStable(store: Store, suffix: string, later: string)
    ensures var (id, s) := GetDeviceId(store, suffix);
      GetDeviceId(s, later) == (id, s)
  {
  }

  function SubmittedKey(sessionId: string): string
  {
    "feedback_submitted_" + sessionId
  }

  /** checkPreviousSubmission. */
  predicate HasSubmitted(store: Store, sessionId: string)
  {
    SubmittedKey(sessionId) in store && store[SubmittedKey(sessionId)] != ""
  }

  /** The stored marker, `JSON.stringify({ submittedAt, deviceId })`. */
  function SubmissionRecord(submittedAt: string, deviceId: string): (r: string)
    ensures r != ""
  {
    "{\"submittedAt\":\"" + submittedAt + "\",\"deviceId\":\"" + deviceId + "\"}"
  }

  /** What addResponse receives. */
  datatype ResponsePayload = ResponsePayload(deviceId: string, answers: seq<SentAnswer>)

  /** Storing the device id never stores nor removes a submission marker. */
  lemma DeviceIdKeepsMarker(store: Store, suffix: string, sessionId: string)
    ensures HasSubmitted(GetDeviceId(store, suffix).1, sessionId) == HasSubmitted(store, sessionId)
  {
    assert SubmittedKey(sessionId)[9] != DeviceKey[9];
  }

  /** The store after a successful submit: the device id stored, then the
      session's marker `{ submittedAt: now, deviceId }`. */
  function MarkSubmitted(store: Store, suffix: string, sessionId: string, now: string): Store
  {
    var device := GetDeviceId(store, suffix);
    device.1[SubmittedKey(sessionId) := SubmissionRecord(now, device.0)]
  }

  /** A submit marks its own session and leaves every other key, other
      sessions' markers included, as it was. */
  lemma MarkSubmittedFrames(store: Store, suffix: string, sessionId: string, now: string)
    ensures var r := MarkSubmitted(store, suffix, sessionId, now);
      && HasSubmitted(r, sessionId)
      && r.Keys == store.Keys + {DeviceKey, SubmittedKey(sessionId)}
      && (forall k :: k in store && k != DeviceKey && k != SubmittedKey(sessionId) ==> r[k] == store[k])
      && (forall other :: other != sessionId ==> HasSubmitted(r, other) == HasSubmitted(store, other))
  {
    var r := MarkSubmitted(store, suffix, sessionId, now);
    forall other | other != sessionId
      ensures HasSubmitted(r, other) == HasSubmitted(store, other)
    {
      assert SubmittedKey(other) != SubmittedKey(sessionId) by {
        assert SubmittedKey(other)[19..] == other && SubmittedKey(sessionId)[19..] == sessionId;
      }
      DeviceIdKeepsMarker(store, suffix, other);
    }
  }

  /** The page's state that handleSubmit reads and writes. */
  class FeedbackPage {
    var responses: Responses
    var error: string
    var submitted: bool
    var store: Store

    constructor(store: Store, sessionId: string)
      ensures responses == map[] && error == "" && this.store == store
      ensures submitted == HasSubmitted(store, sessionId)
    {
      responses := map[];
      error := "";
      this.store := store;
      submitted := HasSubmitted(store, sessionId);
    }

    /** handleSubmit: blocked with a message while a required question is
        unanswered; otherwise the answers are sent with the device id.
        `written` is what addResponse gave: on success the submission is
        marked in storage and the page shows it as done; on failure the
        page shows the retry message and only the device id has been
        stored. */
    method HandleSubmit(qs: seq<Question>, sessionId: string, suffix: string, now: string, written: Result<()>)
      returns (sent: Option<ResponsePayload>)
      modifies this
      ensures responses == old(responses)
      ensures sent.None? <==> !AllRequiredAnswered(qs, responses)
      ensures sent.None? ==> (error == "Please answer all required questions" && store == old(store) &&
                              submitted == old(submitted))
      ensures sent.Some? ==> (sent.value.answers == FormatAnswers(qs, responses) &&
                              sent.value.deviceId == GetDeviceId(old(store), suffix).0)
      ensures sent.Some? && written.Ok? ==> (error == "" && submitted && HasSubmitted(store, sessionId) &&
                                             DeviceKey in store && store[DeviceKey] == sent.value.deviceId)
      ensures sent.Some? && written.Ok? ==>
        store == MarkSubmitted(old(store), suffix, sessionId, now)
      ensures sent.Some? && written.Err? ==> (error == "Failed to submit feedback. Please try again." &&
                                              submitted == old(submitted) &&
                                              store == GetDeviceId(old(store), suffix).1 &&
                                              HasSubmitted(store, sessionId) == HasSubmitted(old(store), sessionId))
    {
      error := "";
      var ok := CheckRequired(qs, responses);
      if !ok {
        error := "Please answer all required questions";
        return None;
      }
      var answers := FormatAnswers(qs, responses);
      var device := GetDeviceId(store, suffix);
      store := device.1;
      sent := Some(ResponsePayload(device.0, answers));
      if written.Err? {
        DeviceIdKeepsMarker(old(store), suffix, sessionId);
        error := "Failed to submit feedback. Please try again.";
        return;
      }
      DeviceIdStable(old(store), suffix, suffix);
      var again := GetDeviceId(store, suffix);
      store := again.1[SubmittedKey(sessionId) := SubmissionRecord(now, again.0)];
      submitted := true;
    }
  }
}
