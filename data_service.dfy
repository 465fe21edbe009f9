/** The local-storage data layer: one array of records per collection, read,
    changed by push or index assignment, and written back.  Each array is a
    field of `LocalStore`; JSON encoding is left out, generated ids and
    timestamps are parameters. */
module DataService {
  import opened Common
  import opened JsValue

  // ---------------------------------------------------------------------------
  // Array scans with callbacks that may throw
  // ---------------------------------------------------------------------------

  /** `findIndex`/`find`/`some` with a callback that may throw: the index of
      the first element the callback accepts, None when it accepts none, or
      the first error raised before a match. */
  function FindFirst(s: seq<JsObject>, test: JsObject -> Result<bool>): (r: Result<Option<nat>>)
    ensures r.Ok? && r.value.Some? ==>
      r.value.value < |s| && test(s[r.value.value]) == Ok(true)
      && forall j :: 0 <= j < r.value.value ==> test(s[j]) == Ok(false)
    ensures r.Ok? && r.value.None? ==> forall j :: 0 <= j < |s| ==> test(s[j]) == Ok(false)
    ensures r.Err? ==> exists j :: 0 <= j < |s| && test(s[j]).Err? && (forall k :: 0 <= k < j ==> test(s[k]) == Ok(false))
  {
    if s == [] then Ok(None)
    else match test(s[0])
      case Err(e) => Err(e)
      case Ok(true) => Ok(Some(0))
      case Ok(false) =>
        var rest := FindFirst(s[1..], test);
        if rest.Err? then
          ghost var j :| 0 <= j < |s[1..]| && test(s[1..][j]).Err? && (forall k :: 0 <= k < j ==> test(s[1..][k]) == Ok(false));
          assert test(s[j + 1]).Err?;
          assert forall k :: 1 <= k < j + 1 ==> test(s[k]) == test(s[1..][k - 1]);
          Err(rest.msg)
        else if rest.value.None? then Ok(None)
        else Ok(Some(rest.value.value + 1))
  }

  /** `s.findIndex(o => o.id === id)`: first index whose id is identical. */
  function IndexOfId(s: seq<JsObject>, id: Option<Val>): (r: Option<nat>)
    ensures r.Some? ==> r.value < |s| && StrictEq(Get(s[r.value], "id"), id)
    ensures r.Some? ==> forall j :: 0 <= j < r.value ==> !StrictEq(Get(s[j], "id"), id)
    ensures r.None? ==> forall j :: 0 <= j < |s| ==> !StrictEq(Get(s[j], "id"), id)
  {
    if s == [] then None
    else if StrictEq(Get(s[0], "id"), id) then Some(0)
    else
      var rest := IndexOfId(s[1..], id);
      if rest.None? then None else Some(rest.value + 1)
  }

  /** `s.filter(o => o.id !== id)`. */
  function WithoutId(s: seq<JsObject>, id: Option<Val>): (r: seq<JsObject>)
    ensures |r| <= |s|
    ensures forall o :: o in r <==> o in s && !StrictEq(Get(o, "id"), id)
  {
    if s == [] then []
    else
      var rest := WithoutId(s[1..], id);
      assert forall o :: o in s <==> o == s[0] || o in s[1..];
      (if StrictEq(Get(s[0], "id"), id) then [] else [s[0]]) + rest
  }

  /** Number of records whose property k is identical to v (and, when
      `k2` is given, whose property k2 is identical to v2). */
  function CountMatching(s: seq<JsObject>, k: string, v: Option<Val>, k2: Option<string>, v2: Option<Val>): (n: nat)
    ensures n <= |s|
  {
    if s == [] then 0
    else
      var hit := StrictEq(Get(s[0], k), v) && (k2.None? || StrictEq(Get(s[0], k2.value), v2));
      (if hit then 1 else 0) + CountMatching(s[1..], k, v, k2, v2)
  }

  /** The test of `usersApi.getByEmail` and of the duplicate check in
      `usersApi.create`: the stored email, lower-cased, equals the given
      one, lower-cased (stored first, so its TypeError wins). */
  function EmailTest(email: Option<Val>): JsObject -> Result<bool>
  {
    u =>
      match LowerField(u, "email")
      case Err(e) => Err(e)
      case Ok(a) =>
        if email.Some? && email.value.Str? then Ok(a == ToLower(email.value.s))
        else Err("TypeError: email is not a string")
  }

  /** The test of `collegesApi.getByCode` and of its duplicate check. */
  function CodeTest(code: Option<Val>): JsObject -> Result<bool>
  {
    c =>
      match UpperField(c, "code")
      case Err(e) => Err(e)
      case Ok(a) =>
        if code.Some? && code.value.Str? then Ok(a == ToUpper(code.value.s))
        else Err("TypeError: code is not a string")
  }

  /** `(o.k || 0)` read as a number. */
  function NumOrZero(o: JsObject, k: string): real
  {
    if k in o && o[k].Num? then o[k].n else 0.0
  }

  function SumOfField(s: seq<JsObject>, k: string): real
  {
    if s == [] then 0.0 else NumOrZero(s[0], k) + SumOfField(s[1..], k)
  }

  /** Records of s whose property k is identical to v. */
  function Matching(s: seq<JsObject>, k: string, v: Option<Val>): (r: seq<JsObject>)
    ensures |r| <= |s|
    ensures forall o :: o in r <==> o in s && StrictEq(Get(o, k), v)
  {
    if s == [] then []
    else
      var rest := Matching(s[1..], k, v);
      assert forall o :: o in s <==> o == s[0] || o in s[1..];
      (if StrictEq(Get(s[0], k), v) then [s[0]] else []) + rest
  }

  /** The responses of a feedback whose `rating` is truthy. */
  function RatedResponses(rs: seq<Val>): (r: seq<Val>)
    ensures |r| <= |rs|
    ensures forall x :: x in r ==> x in rs
  {
    if rs == [] then []
    else
      var keep := rs[0].Obj? && Truthy(Get(rs[0].fields, "rating"));
      (if keep then [rs[0]] else []) + RatedResponses(rs[1..])
  }

  function RatingOf(v: Val): real
  {
    if v.Obj? && "rating" in v.fields && v.fields["rating"].Num? then v.fields["rating"].n else 0.0
  }

  function SumOfRatings(rs: seq<Val>): real
  {
    if rs == [] then 0.0 else RatingOf(rs[0]) + SumOfRatings(rs[1..])
  }

  /** feedbackApi.create's overallRating: the mean of the truthy ratings, or
      0 when there are none. */
  function OverallRating(responses: seq<Val>): (r: real)
    ensures RatedResponses(responses) == [] ==> r == 0.0
    ensures RatedResponses(responses) != [] ==>
      r * (|RatedResponses(responses)| as real) == SumOfRatings(RatedResponses(responses))
  {
    var rated := RatedResponses(responses);
    if |rated| > 0 then
      var n := |rated| as real;
      MeanTimesCount(SumOfRatings(rated), n);
      SumOfRatings(rated) / n
    else 0.0
  }

  lemma MeanTimesCount(sum: real, n: real)
    requires n > 0.0
    ensures (sum / n) * n == sum
  {
  }

  /** The key `questionsApi.getAll` sorts by (`a.order - b.order`). */
  function OrderKey(q: JsObject): int
  {
    if "order" in q && q["order"].Num? then q["order"].n.Floor else 0
  }

  /** The collections the application keeps in local storage. */
  class LocalStore {
    var users: seq<JsObject>
    var colleges: seq<JsObject>
    var sessions: seq<JsObject>
    var feedback: seq<JsObject>
    var configs: seq<JsObject>
    var questions: seq<JsObject>
    var submitted: seq<Option<Val>>

    /** initializeData on empty storage: the seed collections and no
        submitted sessions. */
    constructor (users0: seq<JsObject>, colleges0: seq<JsObject>, sessions0: seq<JsObject>,
                 feedback0: seq<JsObject>, configs0: seq<JsObject>, questions0: seq<JsObject>)
      ensures users == users0 && colleges == colleges0 && sessions == sessions0
      ensures feedback == feedback0 && configs == configs0 && questions == questions0
      ensures submitted == []
    {
      users, colleges, sessions := users0, colleges0, sessions0;
      feedback, configs, questions := feedback0, configs0, questions0;
      submitted := [];
    }

    // ----- users ------------------------------------------------------------

    /** usersApi.getByEmail: the first user whose email matches ignoring case. */
    function UserByEmail(email: string): (r: Result<Option<JsObject>>)
      reads this
      ensures r.Ok? && r.value.Some? ==>
        r.value.value in users && LowerField(r.value.value, "email") == Ok(ToLower(email))
      ensures r.Ok? && r.value.None? ==>
        forall u :: u in users ==> LowerField(u, "email").Ok? && LowerField(u, "email").value != ToLower(email)
    {
      var f := FindFirst(users, EmailTest(Some(Str(email))));
      if f.Err? then Err(f.msg)
      else if f.value.None? then
        assert forall j :: 0 <= j < |users| ==> EmailTest(Some(Str(email)))(users[j]) == Ok(false);
        Ok(None)
      else Ok(Some(users[f.value.value]))
    }

    /** usersApi.create.  A stored email equal ignoring case rejects the
        user and nothing is written; otherwise exactly one user is appended,
        with password "password123" and isActive true whatever the input
        said, and the college counters are refreshed when it has a college. */
    method CreateUser(userData: JsObject, newId: string, now: string) returns (r: Result<JsObject>)
      modifies this
      ensures FindFirst(old(users), EmailTest(Get(userData, "email"))) == Ok(None) ==>
        users == old(users) + [NewUser(userData, newId, now)]
      ensures FindFirst(old(users), EmailTest(Get(userData, "email"))) != Ok(None) ==>
        r.Err? && users == old(users) && colleges == old(colleges)
      ensures FindFirst(old(users), EmailTest(Get(userData, "email"))) == Ok(None) && !Truthy(Get(userData, "collegeId")) ==>
        r == Ok(NewUser(userData, newId, now)) && colleges == old(colleges)
      ensures FindFirst(old(users), EmailTest(Get(userData, "email"))) == Ok(None) && Truthy(Get(userData, "collegeId")) ==>
        var cid := Get(userData, "collegeId");
        colleges == Refreshed(old(colleges), cid, CollegeCounts(users, sessions, cid))
        && r == (if IndexOfId(old(colleges), cid).Some? then Ok(NewUser(userData, newId, now)) else Err("College not found"))
      ensures sessions == old(sessions) && feedback == old(feedback) && configs == old(configs)
      ensures questions == old(questions) && submitted == old(submitted)
    {
      var dup := FindFirst(users, EmailTest(Get(userData, "email")));
      if dup.Err? {
        return Err(dup.msg);
      }
      if dup.value.Some? {
        return Err("Email already exists");
      }
      var u := NewUser(userData, newId, now);
      users := users + [u];
      if Truthy(Get(userData, "collegeId")) {
        var c := UpdateCounts(Get(userData, "collegeId"));
        if c.Err? {
          return Err(c.msg);
        }
      }
      r := Ok(u);
    }

    /** usersApi.update: a shallow merge into the user with that id. */
    method UpdateUser(id: Option<Val>, updates: JsObject) returns (r: Result<JsObject>)
      modifies this
      ensures IndexOfId(old(users), id).None? ==> r == Err("User not found") && users == old(users)
      ensures IndexOfId(old(users), id).Some? ==>
        var i := IndexOfId(old(users), id).value;
        users == old(users)[i := Spread(old(users)[i], updates)] && r == Ok(users[i])
      ensures colleges == old(colleges) && sessions == old(sessions) && feedback == old(feedback)
      ensures configs == old(configs) && questions == old(questions) && submitted == old(submitted)
    {
      var i := IndexOfId(users, id);
      if i.None? {
        return Err("User not found");
      }
      users := users[i.value := Spread(users[i.value], updates)];
      r := Ok(users[i.value]);
    }

    /** usersApi.delete: removes every user with that id and refreshes the
        counters of the college of the first one. */
    method DeleteUser(id: Option<Val>) returns (r: Result<()>)
      modifies this
      ensures users == WithoutId(old(users), id)
      ensures var gone := FirstField(old(users), id, "collegeId");
        if Truthy(gone) then
          colleges == Refreshed(old(colleges), gone, CollegeCounts(users, sessions, gone))
          && r == (if IndexOfId(old(colleges), gone).Some? then Ok(()) else Err("College not found"))
        else r == Ok(()) && colleges == old(colleges)
      ensures sessions == old(sessions) && feedback == old(feedback)
      ensures configs == old(configs) && questions == old(questions) && submitted == old(submitted)
    {
      var i := IndexOfId(users, id);
      var gone := if i.Some? then Get(users[i.value], "collegeId") else None;
      users := WithoutId(users, id);
      r := Ok(());
      if Truthy(gone) {
        r := UpdateCounts(gone);
      }
    }

    // ----- colleges ---------------------------------------------------------

    /** collegesApi.create: a code equal ignoring case to a stored one is
        rejected and nothing is written; otherwise one college is appended,
        active and with all three counters at zero. */
    method CreateCollege(collegeData: JsObject, newId: string, now: string) returns (r: Result<JsObject>)
      modifies this
      ensures FindFirst(old(colleges), CodeTest(Get(collegeData, "code"))) == Ok(None) ==>
        colleges == old(colleges) + [NewCollege(collegeData, newId, now)] && r == Ok(NewCollege(collegeData, newId, now))
      ensures FindFirst(old(colleges), CodeTest(Get(collegeData, "code"))) != Ok(None) ==>
        r.Err? && colleges == old(colleges)
      ensures users == old(users) && sessions == old(sessions) && feedback == old(feedback)
      ensures configs == old(configs) && questions == old(questions) && submitted == old(submitted)
    {
      var dup := FindFirst(colleges, CodeTest(Get(collegeData, "code")));
      if dup.Err? {
        return Err(dup.msg);
      }
      if dup.value.Some? {
        return Err("College code already exists");
      }
      var c := NewCollege(collegeData, newId, now);
      colleges := colleges + [c];
      r := Ok(c);
    }

    /** collegesApi.update. */
    method UpdateCollege(id: Option<Val>, updates: JsObject) returns (r: Result<JsObject>)
      modifies this
      ensures IndexOfId(old(colleges), id).None? ==> r == Err("College not found") && colleges == old(colleges)
      ensures IndexOfId(old(colleges), id).Some? ==>
        var i := IndexOfId(old(colleges), id).value;
        colleges == old(colleges)[i := Spread(old(colleges)[i], updates)] && r == Ok(colleges[i])
      ensures users == old(users) && sessions == old(sessions) && feedback == old(feedback)
      ensures configs == old(configs) && questions == old(questions) && submitted == old(submitted)
    {
      var i := IndexOfId(colleges, id);
      if i.None? {
        return Err("College not found");
      }
      colleges := colleges[i.value := Spread(colleges[i.value], updates)];
      r := Ok(colleges[i.value]);
    }

    /** collegesApi.delete. */
    method DeleteCollege(id: Option<Val>)
      modifies this
      ensures colleges == WithoutId(old(colleges), id)
      ensures users == old(users) && sessions == old(sessions) && feedback == old(feedback)
      ensures configs == old(configs) && questions == old(questions) && submitted == old(submitted)
    {
      colleges := WithoutId(colleges, id);
    }

    /** collegesApi.updateCounts: the three counters become the exact
        numbers of matching admins, trainers and sessions. */
    method UpdateCounts(collegeId: Option<Val>) returns (r: Result<()>)
      modifies this
      ensures IndexOfId(old(colleges), collegeId).None? ==> r == Err("College not found") && colleges == old(colleges)
      ensures IndexOfId(old(colleges), collegeId).Some? ==>
        var i := IndexOfId(old(colleges), collegeId).value;
        r == Ok(()) && colleges == old(colleges)[i := Spread(old(colleges)[i], CollegeCounts(old(users), old(sessions), collegeId))]
      ensures users == old(users) && sessions == old(sessions) && feedback == old(feedback)
      ensures configs == old(configs) && questions == old(questions) && submitted == old(submitted)
    {
      var c := UpdateCollege(collegeId, CollegeCounts(users, sessions, collegeId));
      r := if c.Err? then Err(c.msg) else Ok(());
    }

    // ----- sessions ---------------------------------------------------------

    /** sessionsApi.create: one active session with no submissions is
        appended, then the college counters are refreshed. */
    method CreateSession(sessionData: JsObject, newId: string, urlId: string, now: string) returns (r: Result<JsObject>)
      modifies this
      ensures sessions == old(sessions) + [NewSession(sessionData, newId, urlId, now)]
      ensures !Truthy(Get(sessionData, "collegeId")) ==>
        r == Ok(NewSession(sessionData, newId, urlId, now)) && colleges == old(colleges)
      ensures Truthy(Get(sessionData, "collegeId")) ==>
        var cid := Get(sessionData, "collegeId");
        colleges == Refreshed(old(colleges), cid, CollegeCounts(users, sessions, cid))
        && r == (if IndexOfId(old(colleges), cid).Some? then Ok(NewSession(sessionData, newId, urlId, now)) else Err("College not found"))
      ensures users == old(users) && feedback == old(feedback)
      ensures configs == old(configs) && questions == old(questions) && submitted == old(submitted)
    {
      var s := NewSession(sessionData, newId, urlId, now);
      sessions := sessions + [s];
      r := Ok(s);
      if Truthy(Get(sessionData, "collegeId")) {
        var c := UpdateCounts(Get(sessionData, "collegeId"));
        if c.Err? {
          r := Err(c.msg);
        }
      }
    }

    /** sessionsApi.update. */
    method UpdateSession(id: Option<Val>, updates: JsObject) returns (r: Result<JsObject>)
      modifies this
      ensures IndexOfId(old(sessions), id).None? ==> r == Err("Session not found") && sessions == old(sessions)
      ensures IndexOfId(old(sessions), id).Some? ==>
        var i := IndexOfId(old(sessions), id).value;
        sessions == old(sessions)[i := Spread(old(sessions)[i], updates)] && r == Ok(sessions[i])
      ensures users == old(users) && colleges == old(colleges) && feedback == old(feedback)
      ensures configs == old(configs) && questions == old(questions) && submitted == old(submitted)
    {
      var i := IndexOfId(sessions, id);
      if i.None? {
        return Err("Session not found");
      }
      sessions := sessions[i.value := Spread(sessions[i.value], updates)];
      r := Ok(sessions[i.value]);
    }

    /** sessionsApi.delete. */
    method DeleteSession(id: Option<Val>) returns (r: Result<()>)
      modifies this
      ensures sessions == WithoutId(old(sessions), id)
      ensures var gone := FirstField(old(sessions), id, "collegeId");
        if Truthy(gone) then
          colleges == Refreshed(old(colleges), gone, CollegeCounts(users, sessions, gone))
          && r == (if IndexOfId(old(colleges), gone).Some? then Ok(()) else Err("College not found"))
        else r == Ok(()) && colleges == old(colleges)
      ensures users == old(users) && feedback == old(feedback)
      ensures configs == old(configs) && questions == old(questions) && submitted == old(submitted)
    {
      var i := IndexOfId(sessions, id);
      var gone := if i.Some? then Get(sessions[i.value], "collegeId") else None;
      sessions := WithoutId(sessions, id);
      r := Ok(());
      if Truthy(gone) {
        r := UpdateCounts(gone);
      }
    }

    /** sessionsApi.updateStats. */
    method UpdateStats(sessionId: Option<Val>) returns (r: Result<JsObject>)
      modifies this
      ensures IndexOfId(old(sessions), sessionId).None? ==> r == Err("Session not found") && sessions == old(sessions)
      ensures IndexOfId(old(sessions), sessionId).Some? ==>
        var i := IndexOfId(old(sessions), sessionId).value;
        r.Ok? && sessions == old(sessions)[i := Spread(old(sessions)[i], FeedbackStats(old(feedback), sessionId))]
      ensures users == old(users) && colleges == old(colleges) && feedback == old(feedback)
      ensures configs == old(configs) && questions == old(questions) && submitted == old(submitted)
    {
      r := UpdateSession(sessionId, FeedbackStats(feedback, sessionId));
    }

    // ----- feedback ---------------------------------------------------------

    /** feedbackApi.create.  The feedback is appended with its overall rating;
        the session's stats are refreshed; then the session id is added to
        the submitted list unless it is already there. */
    method CreateFeedback(feedbackData: JsObject, newId: string, now: string) returns (r: Result<JsObject>)
      modifies this
      ensures !(("responses" in feedbackData) && feedbackData["responses"].Arr?) ==>
        r.Err? && feedback == old(feedback) && submitted == old(submitted)
      ensures ("responses" in feedbackData) && feedbackData["responses"].Arr? ==>
        feedback == old(feedback) + [NewFeedback(feedbackData, newId, now)]
      ensures var sid := Get(feedbackData, "sessionId");
        if ("responses" in feedbackData) && feedbackData["responses"].Arr? && Truthy(sid) then
          sessions == Refreshed(old(sessions), sid, FeedbackStats(feedback, sid))
          && (IndexOfId(old(sessions), sid).None? ==> r == Err("Session not found") && submitted == old(submitted))
        else sessions == old(sessions)
      ensures r.Ok? ==> r.value == NewFeedback(feedbackData, newId, now)
      ensures r.Ok? ==> Get(feedbackData, "sessionId") in submitted
      ensures r.Ok? ==> |submitted| <= |old(submitted)| + 1
      ensures r.Ok? && Get(feedbackData, "sessionId") in old(submitted) ==> submitted == old(submitted)
      ensures NoDuplicates(old(submitted)) ==> NoDuplicates(submitted)
      ensures users == old(users) && colleges == old(colleges)
      ensures configs == old(configs) && questions == old(questions)
    {
      if !("responses" in feedbackData && feedbackData["responses"].Arr?) {
        return Err("TypeError: responses is not an array");
      }
      var f := NewFeedback(feedbackData, newId, now);
      feedback := feedback + [f];
      var sessionId := Get(feedbackData, "sessionId");
      if Truthy(sessionId) {
        var u := UpdateStats(sessionId);
        if u.Err? {
          return Err(u.msg);
        }
      }
      if sessionId !in submitted {
        submitted := submitted + [sessionId];
      }
      r := Ok(f);
    }

    /** feedbackApi.hasSubmitted. */
    predicate HasSubmitted(sessionId: Option<Val>)
      reads this
    {
      sessionId in submitted
    }

    // ----- academic configs -------------------------------------------------

    /** academicConfigsApi.getByCollege: the first config of that college. */
    function ConfigIndexByCollege(collegeId: Option<Val>): (r: Option<nat>)
      reads this
      ensures r.Some? ==> r.value < |configs| && StrictEq(Get(configs[r.value], "collegeId"), collegeId)
      ensures r.None? ==> forall j :: 0 <= j < |configs| ==> !StrictEq(Get(configs[j], "collegeId"), collegeId)
    {
      FirstMatching(configs, "collegeId", collegeId)
    }

    /** academicConfigsApi.upsertByCollege: merge into the college's config
        when it has one (found again by its id), otherwise append a new config
        for it.  A college without a config ends with exactly one. */
    method UpsertConfig(collegeId: string, configData: JsObject, newId: string, now: string) returns (r: Result<JsObject>)
      modifies this
      ensures old(ConfigIndexByCollege(Some(Str(collegeId)))).None? ==>
        configs == old(configs) + [NewConfig(Spread(configData, map["collegeId" := Str(collegeId)]), newId, now)]
        && r == Ok(configs[|configs| - 1])
      ensures old(ConfigIndexByCollege(Some(Str(collegeId)))).None? ==>
        CountMatching(configs, "collegeId", Some(Str(collegeId)), None, None) == 1
      ensures old(ConfigIndexByCollege(Some(Str(collegeId)))).Some? ==>
        var i := old(ConfigIndexByCollege(Some(Str(collegeId)))).value;
        var j := IndexOfId(old(configs), Get(old(configs)[i], "id"));
        (j.None? ==> r == Err("Academic config not found") && configs == old(configs))
        && (j.Some? ==> configs == old(configs)[j.value := Spread(old(configs)[j.value], configData)])
      ensures users == old(users) && colleges == old(colleges) && sessions == old(sessions)
      ensures feedback == old(feedback) && questions == old(questions) && submitted == old(submitted)
    {
      var i := ConfigIndexByCollege(Some(Str(collegeId)));
      if i.Some? {
        var j := IndexOfId(configs, Get(configs[i.value], "id"));
        if j.None? {
          return Err("Academic config not found");
        }
        configs := configs[j.value := Spread(configs[j.value], configData)];
        r := Ok(configs[j.value]);
      } else {
        var c := NewConfig(Spread(configData, map["collegeId" := Str(collegeId)]), newId, now);
        CountMatchingSnoc(configs, c, "collegeId", Some(Str(collegeId)), None, None);
        CountMatchingNone(configs, "collegeId", Some(Str(collegeId)));
        configs := configs + [c];
        r := Ok(c);
      }
    }

    // ----- questions --------------------------------------------------------

    /** questionsApi.getAll: the questions ascending by order. */
    function AllQuestions(): (r: seq<JsObject>)
      reads this
      ensures SortedAsc(r, OrderKey) && multiset(r) == multiset(questions)
    {
      SortAsc(questions, OrderKey)
    }

    /** questionsApi.create: the sorted list is written back with the new
        question last, numbered one past the current count. */
    method CreateQuestion(questionData: JsObject, newId: string, now: string) returns (r: JsObject)
      modifies this
      ensures questions == old(AllQuestions()) + [r]
      ensures Get(r, "order") == Some(Num((|old(questions)| + 1) as real))
      ensures users == old(users) && colleges == old(colleges) && sessions == old(sessions)
      ensures feedback == old(feedback) && configs == old(configs) && submitted == old(submitted)
    {
      var qs := AllQuestions();
      r := Spread(Spread(map["id" := Str(newId)], questionData),
                  map["order" := Num((|qs| + 1) as real), "createdAt" := Str(now)]);
      questions := qs + [r];
    }

    /** questionsApi.update: the sorted list is written back with the
        question of that id merged. */
    method UpdateQuestion(id: Option<Val>, updates: JsObject) returns (r: Result<JsObject>)
      modifies this
      ensures IndexOfId(old(AllQuestions()), id).None? ==> r == Err("Question not found") && questions == old(questions)
      ensures IndexOfId(old(AllQuestions()), id).Some? ==>
        var i := IndexOfId(old(AllQuestions()), id).value;
        questions == old(AllQuestions())[i := Spread(old(AllQuestions())[i], updates)] && r == Ok(questions[i])
      ensures users == old(users) && colleges == old(colleges) && sessions == old(sessions)
      ensures feedback == old(feedback) && configs == old(configs) && submitted == old(submitted)
    {
      var qs := AllQuestions();
      var i := IndexOfId(qs, id);
      if i.None? {
        return Err("Question not found");
      }
      questions := qs[i.value := Spread(qs[i.value], updates)];
      r := Ok(questions[i.value]);
    }

    /** questionsApi.delete: the sorted list without that id is written back. */
    method DeleteQuestion(id: Option<Val>)
      modifies this
      ensures questions == WithoutId(old(AllQuestions()), id)
      ensures users == old(users) && colleges == old(colleges) && sessions == old(sessions)
      ensures feedback == old(feedback) && configs == old(configs) && submitted == old(submitted)
    {
      questions := WithoutId(AllQuestions(), id);
    }
  }

  /** The first index whose property k is identical to v. */
  function FirstMatching(s: seq<JsObject>, k: string, v: Option<Val>): (r: Option<nat>)
    ensures r.Some? ==> r.value < |s| && StrictEq(Get(s[r.value], k), v)
    ensures r.None? ==> forall j :: 0 <= j < |s| ==> !StrictEq(Get(s[j], k), v)
  {
    if s == [] then None
    else if StrictEq(Get(s[0], k), v) then Some(0)
    else
      var rest := FirstMatching(s[1..], k, v);
      if rest.None? then None else Some(rest.value + 1)
  }

  /** The property k of the first record with that id (`find(...)?.k`). */
  function FirstField(s: seq<JsObject>, id: Option<Val>, k: string): (r: Option<Val>)
    ensures IndexOfId(s, id).None? ==> r == None
    ensures IndexOfId(s, id).Some? ==> r == Get(s[IndexOfId(s, id).value], k)
  {
    var i := IndexOfId(s, id);
    if i.Some? then Get(s[i.value], k) else None
  }

  /** A collection after `update(id, fields)` succeeds or throws "not
      found": the first record with that id is merged with the fields, every
      other record is kept, and without such a record nothing changes. */
  function Refreshed(s: seq<JsObject>, id: Option<Val>, fields: JsObject): (r: seq<JsObject>)
    ensures |r| == |s|
    ensures IndexOfId(s, id).None? ==> r == s
    ensures IndexOfId(s, id).Some? ==>
      var i := IndexOfId(s, id).value;
      (forall k :: k in fields ==> k in r[i] && r[i][k] == fields[k])
      && (forall j :: 0 <= j < |s| && j != i ==> r[j] == s[j])
  {
    var i := IndexOfId(s, id);
    if i.Some? then s[i.value := Spread(s[i.value], fields)] else s
  }

  /** The counters updateCounts writes for a college. */
  function CollegeCounts(users: seq<JsObject>, sessions: seq<JsObject>, collegeId: Option<Val>): (r: JsObject)
    ensures r.Keys == {"adminCount", "trainerCount", "sessionCount"}
    ensures r["adminCount"] == Num(CountMatching(users, "collegeId", collegeId, Some("role"), Some(Str("collegeAdmin"))) as real)
    ensures r["trainerCount"] == Num(CountMatching(users, "collegeId", collegeId, Some("role"), Some(Str("trainer"))) as real)
    ensures r["sessionCount"] == Num(|Matching(sessions, "collegeId", collegeId)| as real)
  {
    CountMatchingIsLength(sessions, "collegeId", collegeId);
    map["adminCount" := Num(CountMatching(users, "collegeId", collegeId, Some("role"), Some(Str("collegeAdmin"))) as real),
        "trainerCount" := Num(CountMatching(users, "collegeId", collegeId, Some("role"), Some(Str("trainer"))) as real),
        "sessionCount" := Num(CountMatching(sessions, "collegeId", collegeId, None, None) as real)]
  }

  /** The fields sessionsApi.updateStats writes: the number of feedbacks for
      the session and the mean of their overall ratings (0 without any). */
  function FeedbackStats(feedback: seq<JsObject>, sessionId: Option<Val>): (r: JsObject)
    ensures r.Keys == {"submissionCount", "averageRating"}
    ensures r["submissionCount"] == Num(|Matching(feedback, "sessionId", sessionId)| as real)
    ensures Matching(feedback, "sessionId", sessionId) == [] ==> r["averageRating"] == Num(0.0)
    ensures Matching(feedback, "sessionId", sessionId) != [] ==>
      r["averageRating"].Num? && r["averageRating"].n * (|Matching(feedback, "sessionId", sessionId)| as real)
        == SumOfField(Matching(feedback, "sessionId", sessionId), "overallRating")
  {
    var fs := Matching(feedback, "sessionId", sessionId);
    if |fs| > 0 then
      MeanTimesCount(SumOfField(fs, "overallRating"), |fs| as real);
      map["submissionCount" := Num(|fs| as real), "averageRating" := Num(SumOfField(fs, "overallRating") / (|fs| as real))]
    else
      map["submissionCount" := Num(0.0), "averageRating" := Num(0.0)]
  }

  /** The record usersApi.create stores. */
  function NewUser(userData: JsObject, newId: string, now: string): (u: JsObject)
    ensures Get(u, "password") == Some(Str("password123")) && Get(u, "isActive") == Some(Bool(true))
    ensures Get(u, "createdAt") == Some(Str(now))
    ensures "id" !in userData ==> Get(u, "id") == Some(Str(newId))
    ensures forall k :: k in userData && k !in {"password", "isActive", "createdAt"} ==> k in u && u[k] == userData[k]
  {
    Spread(Spread(map["id" := Str(newId)], userData),
           map["password" := Str("password123"), "isActive" := Bool(true), "createdAt" := Str(now)])
  }

  /** The record collegesApi.create stores. */
  function NewCollege(collegeData: JsObject, newId: string, now: string): (c: JsObject)
    ensures Get(c, "isActive") == Some(Bool(true))
    ensures Get(c, "adminCount") == Some(Num(0.0)) && Get(c, "trainerCount") == Some(Num(0.0)) && Get(c, "sessionCount") == Some(Num(0.0))
    ensures forall k :: k in collegeData && k !in {"isActive", "adminCount", "trainerCount", "sessionCount", "createdAt"} ==>
      k in c && c[k] == collegeData[k]
  {
    Spread(Spread(map["id" := Str(newId)], collegeData),
           map["isActive" := Bool(true), "adminCount" := Num(0.0), "trainerCount" := Num(0.0),
               "sessionCount" := Num(0.0), "createdAt" := Str(now)])
  }

  /** The record sessionsApi.create stores. */
  function NewSession(sessionData: JsObject, newId: string, urlId: string, now: string): (s: JsObject)
    ensures Get(s, "status") == Some(Str("active")) && Get(s, "submissionCount") == Some(Num(0.0)) && Get(s, "averageRating") == Some(Num(0.0))
    ensures Get(s, "uniqueUrl") == Some(Str("feedback-" + urlId))
  {
    Spread(Spread(map["id" := Str(newId)], sessionData),
           map["uniqueUrl" := Str("feedback-" + urlId), "status" := Str("active"),
               "submissionCount" := Num(0.0), "averageRating" := Num(0.0), "createdAt" := Str(now)])
  }

  /** The record feedbackApi.create stores. */
  function NewFeedback(feedbackData: JsObject, newId: string, now: string): (f: JsObject)
    requires "responses" in feedbackData && feedbackData["responses"].Arr?
    ensures Get(f, "overallRating") == Some(Num(OverallRating(feedbackData["responses"].items)))
    ensures Get(f, "submittedAt") == Some(Str(now))
  {
    Spread(Spread(map["id" := Str(newId)], feedbackData),
           map["overallRating" := Num(OverallRating(feedbackData["responses"].items)), "submittedAt" := Str(now)])
  }

  /** After an update of an unknown id nothing is stored; after an update of
      a known id only that element changes. */
  lemma UpdateTouchesOne(s: seq<JsObject>, id: Option<Val>, updates: JsObject)
    requires IndexOfId(s, id).Some?
    ensures var i := IndexOfId(s, id).value;
      var t := s[i := Spread(s[i], updates)];
      |t| == |s| && (forall j :: 0 <= j < |s| && j != i ==> t[j] == s[j])
      && (forall k :: k in updates ==> t[i][k] == updates[k])
  {
  }

  /** Deleting keeps the other records in their order. */
  lemma {:induction false} DeleteKeepsOrder(s: seq<JsObject>, id: Option<Val>)
    ensures WithoutId(s, id) == Filter(s, o => !StrictEq(Get(o, "id"), id))
  {
    if s != [] {
      DeleteKeepsOrder(s[1..], id);
    }
  }

  /** The record academicConfigsApi.create stores. */
  function NewConfig(configData: JsObject, newId: string, now: string): (c: JsObject)
    ensures Get(c, "createdAt") == Some(Str(now))
    ensures forall k :: k in configData && k != "createdAt" ==> k in c && c[k] == configData[k]
  {
    Spread(Spread(map["id" := Str(newId)], configData), map["createdAt" := Str(now)])
  }

  /** The counters updateCounts stores are the lengths of the filtered
      lists: CountMatching is `filter(...).length`. */
  lemma {:induction false} CountMatchingIsLength(s: seq<JsObject>, k: string, v: Option<Val>)
    ensures CountMatching(s, k, v, None, None) == |Matching(s, k, v)|
    ensures CountMatching(s, k, v, None, None) == |Filter(s, o => StrictEq(Get(o, k), v))|
  {
    if s != [] {
      CountMatchingIsLength(s[1..], k, v);
    }
  }

  lemma {:induction false} CountMatchingNone(s: seq<JsObject>, k: string, v: Option<Val>)
    requires forall j :: 0 <= j < |s| ==> !StrictEq(Get(s[j], k), v)
    ensures CountMatching(s, k, v, None, None) == 0
  {
    if s != [] {
      CountMatchingNone(s[1..], k, v);
    }
  }

  lemma {:induction false} CountMatchingSnoc(s: seq<JsObject>, x: JsObject, k: string, v: Option<Val>, k2: Option<string>, v2: Option<Val>)
    ensures CountMatching(s + [x], k, v, k2, v2) ==
      CountMatching(s, k, v, k2, v2) + (if StrictEq(Get(x, k), v) && (k2.None? || StrictEq(Get(x, k2.value), v2)) then 1 else 0)
  {
    if s == [] {
      assert s + [x] == [x];
    } else {
      assert (s + [x])[1..] == s[1..] + [x];
      CountMatchingSnoc(s[1..], x, k, v, k2, v2);
    }
  }

  lemma {:induction false} MatchingSnoc(s: seq<JsObject>, x: JsObject, k: string, v: Option<Val>)
    ensures Matching(s + [x], k, v) == Matching(s, k, v) + (if StrictEq(Get(x, k), v) then [x] else [])
  {
    if s == [] {
      assert s + [x] == [x];
    } else {
      assert (s + [x])[1..] == s[1..] + [x];
      MatchingSnoc(s[1..], x, k, v);
    }
  }

  /** Creating a user of a role in a college raises that college's counter
      for the role by one and leaves the other role's counter and the
      session counter as they were. */
  lemma NewMemberCounted(users: seq<JsObject>, sessions: seq<JsObject>, u: JsObject, collegeId: Option<Val>)
    requires StrictEq(Get(u, "collegeId"), collegeId)
    requires StrictEq(Get(u, "role"), Some(Str("trainer")))
    ensures CollegeCounts(users + [u], sessions, collegeId)["trainerCount"].n
      == CollegeCounts(users, sessions, collegeId)["trainerCount"].n + 1.0
    ensures CollegeCounts(users + [u], sessions, collegeId)["adminCount"]
      == CollegeCounts(users, sessions, collegeId)["adminCount"]
    ensures CollegeCounts(users + [u], sessions, collegeId)["sessionCount"]
      == CollegeCounts(users, sessions, collegeId)["sessionCount"]
  {
    CountMatchingSnoc(users, u, "collegeId", collegeId, Some("role"), Some(Str("trainer")));
    CountMatchingSnoc(users, u, "collegeId", collegeId, Some("role"), Some(Str("collegeAdmin")));
  }

  /** Creating a session of a college raises its session counter by one. */
  lemma NewSessionCounted(users: seq<JsObject>, sessions: seq<JsObject>, s: JsObject, collegeId: Option<Val>)
    requires StrictEq(Get(s, "collegeId"), collegeId)
    ensures CollegeCounts(users, sessions + [s], collegeId)["sessionCount"].n
      == CollegeCounts(users, sessions, collegeId)["sessionCount"].n + 1.0
  {
    MatchingSnoc(sessions, s, "collegeId", collegeId);
  }

  /** A new feedback for a session raises its submissionCount by one and
      adds its overall rating to the rating sum behind averageRating. */
  lemma NewFeedbackCounted(feedback: seq<JsObject>, f: JsObject, sessionId: Option<Val>)
    requires StrictEq(Get(f, "sessionId"), sessionId)
    ensures FeedbackStats(feedback + [f], sessionId)["submissionCount"].n
      == FeedbackStats(feedback, sessionId)["submissionCount"].n + 1.0
    ensures Matching(feedback + [f], "sessionId", sessionId) == Matching(feedback, "sessionId", sessionId) + [f]
    ensures SumOfField(Matching(feedback + [f], "sessionId", sessionId), "overallRating")
      == SumOfField(Matching(feedback, "sessionId", sessionId), "overallRating") + NumOrZero(f, "overallRating")
  {
    MatchingSnoc(feedback, f, "sessionId", sessionId);
    SumOfFieldSnoc(Matching(feedback, "sessionId", sessionId), f, "overallRating");
  }

  lemma {:induction false} SumOfFieldSnoc(s: seq<JsObject>, x: JsObject, k: string)
    ensures SumOfField(s + [x], k) == SumOfField(s, k) + NumOrZero(x, k)
  {
    if s == [] {
      assert s + [x] == [x];
    } else {
      assert (s + [x])[1..] == s[1..] + [x];
      SumOfFieldSnoc(s[1..], x, k);
    }
  }
}
