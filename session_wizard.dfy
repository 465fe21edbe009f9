/** The two-step dialog that creates or edits a session: step 1 picks the
    college and the academic slot (course, year, branch, batch), possibly
    from a project code; step 2 the topic, trainer, date and time.  Every
    change is a new form value; submitting adds the chosen template's
    questions. */
module SessionWizard {
  import opened Common
  import TrainerService

  /** The trainer stored on a session. */
  datatype TrainerRef = TrainerRef(id: string, name: string)

  /** A question of the session's form. */
  datatype SessionQuestion = SessionQuestion(id: string, text: string, kind: string)

  /** formData; a missing string is "". */
  datatype Form = Form(
    collegeId: string, collegeName: string, academicYear: string,
    course: string, branch: string, year: string, batch: string,
    topic: string, domain: string, assignedTrainer: Option<TrainerRef>,
    sessionDate: string, sessionTime: string, sessionDuration: string,
    questions: seq<SessionQuestion>, templateId: string, ttl: string, projectCode: string)

  /** The dialog: its step, the form and the selected project code. */
  datatype Wizard = Wizard(step: int, form: Form, selectedProjectCode: string)

  /** `a || b` on strings. */
  function Or(a: string, b: string): (r: string)
    ensures a != "" ==> r == a
    ensures a == "" ==> r == b
  {
    if a != "" then a else b
  }

  /** The opening state: the edited session's values, else the defaults.
      A session field left empty falls back to the default as `||` does;
      every other field of an edited session is kept. */
  function Open(session: Option<Form>, defaultCollegeId: string, defaultDomain: string,
                defaultTrainerId: string, trainers: seq<TrainerService.Trainer>): (w: Wizard)
    ensures w.step == 1
    ensures w.selectedProjectCode == w.form.projectCode
    ensures session.Some? ==>
      var s := session.value;
      && w.form.collegeId == Or(s.collegeId, defaultCollegeId)
      && w.form.academicYear == Or(s.academicYear, "2025-26")
      && w.form.domain == Or(s.domain, defaultDomain)
      && w.form.sessionTime == Or(s.sessionTime, "Morning")
      && w.form.sessionDuration == Or(s.sessionDuration, "60")
      && w.form.ttl == Or(s.ttl, "24")
      && (s.assignedTrainer.Some? ==> w.form.assignedTrainer == s.assignedTrainer)
      && w.form.(collegeId := s.collegeId, academicYear := s.academicYear, domain := s.domain,
                 sessionTime := s.sessionTime, sessionDuration := s.sessionDuration, ttl := s.ttl,
                 assignedTrainer := s.assignedTrainer) == s
    ensures session.None? ==>
      w.form == Form(defaultCollegeId, "", "2025-26", "", "", "", "", "", defaultDomain, w.form.assignedTrainer,
                     "", "Morning", "60", [], "", "24", "")
    ensures (session.None? || session.value.assignedTrainer.None?) ==>
      w.form.assignedTrainer == (if defaultTrainerId != "" && |trainers| > 0
                                 then Some(TrainerRef(trainers[0].id, trainers[0].name)) else None)
  {
    var s := if session.Some? then session.value
             else Form("", "", "", "", "", "", "", "", "", None, "", "", "", [], "", "", "");
    var trainer := if s.assignedTrainer.Some? then s.assignedTrainer
                   else if defaultTrainerId != "" && |trainers| > 0 then Some(TrainerRef(trainers[0].id, trainers[0].name))
                   else None;
    Wizard(1,
      Form(Or(s.collegeId, defaultCollegeId), s.collegeName, Or(s.academicYear, "2025-26"),
           s.course, s.branch, s.year, s.batch, s.topic, Or(s.domain, defaultDomain), trainer,
           s.sessionDate, Or(s.sessionTime, "Morning"), Or(s.sessionDuration, "60"), s.questions,
           s.templateId, Or(s.ttl, "24"), s.projectCode),
      s.projectCode)
  }

  /** Reopening a complete session for editing shows exactly that session,
      with its own project code selected. */
  lemma ReopenKeepsSession(s: Form, defaultCollegeId: string, defaultDomain: string,
                           defaultTrainerId: string, trainers: seq<TrainerService.Trainer>)
    requires s.collegeId != "" && s.academicYear != "" && s.domain != "" && s.sessionTime != ""
    requires s.sessionDuration != "" && s.ttl != "" && s.assignedTrainer.Some?
    ensures Open(Some(s), defaultCollegeId, defaultDomain, defaultTrainerId, trainers) == Wizard(1, s, s.projectCode)
  {
  }

  // ---------------------------------------------------------------------------
  // Effects that follow a change
  // ---------------------------------------------------------------------------

  /** An entry of the `colleges` list the dialog is given. */
  datatype CollegeRef = CollegeRef(id: string, name: string)

  /** `colleges.find(c => c.id === id)`. */
  function FindCollege(colleges: seq<CollegeRef>, id: string): (r: Option<CollegeRef>)
    ensures r.Some? ==> r.value in colleges && r.value.id == id
    ensures r.None? ==> forall c :: c in colleges ==> c.id != id
  {
    if colleges == [] then None
    else if colleges[0].id == id then Some(colleges[0])
    else FindCollege(colleges[1..], id)
  }

  /** The effects that run after a render: a set default college replaces
      any other college id, then the college name is taken from the college
      list entry with that id when there is one. */
  function Sync(w: Wizard, defaultCollegeId: string, colleges: seq<CollegeRef>): (r: Wizard)
    ensures r.step == w.step && r.selectedProjectCode == w.selectedProjectCode
    ensures r.form.collegeId == Or(defaultCollegeId, w.form.collegeId)
    ensures r.form.collegeId != "" && FindCollege(colleges, r.form.collegeId).Some? ==>
      r.form.collegeName == FindCollege(colleges, r.form.collegeId).value.name
    ensures r.form.collegeId == "" || FindCollege(colleges, r.form.collegeId).None? ==>
      r.form.collegeName == w.form.collegeName
    ensures r.form.(collegeId := w.form.collegeId, collegeName := w.form.collegeName) == w.form
  {
    var id := if defaultCollegeId != "" && w.form.collegeId != defaultCollegeId then defaultCollegeId else w.form.collegeId;
    var found := if |colleges| > 0 && id != "" then FindCollege(colleges, id) else None;
    var name := if found.Some? && w.form.collegeName != found.value.name then found.value.name else w.form.collegeName;
    w.(form := w.form.(collegeId := id, collegeName := name))
  }

  /** The effects settle: running them again changes nothing. */
  lemma SyncSettles(w: Wizard, defaultCollegeId: string, colleges: seq<CollegeRef>)
    ensures Sync(Sync(w, defaultCollegeId, colleges), defaultCollegeId, colleges) == Sync(w, defaultCollegeId, colleges)
  {
  }

  /** With a default college (the trainer's own), a college picked by hand
      is replaced by the default once the effects run, and course, branch,
      year and batch stay cleared. */
  lemma DefaultCollegeWins(w: Wizard, collegeId: string, defaultCollegeId: string, colleges: seq<CollegeRef>)
    requires defaultCollegeId != ""
    ensures var r := Sync(SelectCollege(w, collegeId), defaultCollegeId, colleges);
      r.form.collegeId == defaultCollegeId && r.form.course == "" && r.form.batch == ""
  {
  }

  // ---------------------------------------------------------------------------
  // Validity and navigation
  // ---------------------------------------------------------------------------

  predicate Step1Valid(f: Form)
  {
    f.collegeId != "" && f.academicYear != "" && f.course != "" && f.branch != "" && f.year != "" && f.batch != ""
  }

  predicate Step2Valid(f: Form)
  {
    f.topic != "" && f.assignedTrainer.Some? && f.sessionDate != "" && f.sessionTime != ""
  }

  /** isStepValid. */
  function IsStepValid(w: Wizard): (r: bool)
    ensures w.step == 1 ==> (r <==> Step1Valid(w.form))
    ensures w.step == 2 ==> (r <==> Step2Valid(w.form))
    ensures w.step != 1 && w.step != 2 ==> !r
  {
    if w.step == 1 then Step1Valid(w.form)
    else if w.step == 2 then Step2Valid(w.form)
    else false
  }

  /** The buttons at the foot of the dialog. */
  datatype Nav = Next | Back

  /** Next is shown below step 2 and enabled when the step is valid; Back is
      shown above step 1. */
  function Press(w: Wizard, b: Nav): (r: Wizard)
    ensures r.form == w.form && r.selectedProjectCode == w.selectedProjectCode
    ensures b == Next ==> r.step == (if w.step < 2 && IsStepValid(w) then w.step + 1 else w.step)
    ensures b == Back ==> r.step == (if w.step > 1 then w.step - 1 else w.step)
  {
    match b
    case Next => if w.step < 2 && IsStepValid(w) then w.(step := w.step + 1) else w
    case Back => if w.step > 1 then w.(step := w.step - 1) else w
  }

  function PressAll(w: Wizard, bs: seq<Nav>): Wizard
  {
    if bs == [] then w else Press(PressAll(w, bs[..|bs| - 1]), bs[|bs| - 1])
  }

  /** From step 1, any sequence of presses stays on step 1 or 2, and step 2
      is reached only through a valid step 1. */
  lemma {:induction false} StepStaysInRange(w: Wizard, bs: seq<Nav>)
    requires w.step == 1
    ensures 1 <= PressAll(w, bs).step <= 2
    ensures PressAll(w, bs).step == 2 ==> Step1Valid(w.form)
  {
    if bs != [] {
      StepStaysInRange(w, bs[..|bs| - 1]);
      assert PressAll(w, bs[..|bs| - 1]).form == w.form by {
        PressAllKeepsForm(w, bs[..|bs| - 1]);
      }
    }
  }

  lemma {:induction false} PressAllKeepsForm(w: Wizard, bs: seq<Nav>)
    ensures PressAll(w, bs).form == w.form
  {
    if bs != [] {
      PressAllKeepsForm(w, bs[..|bs| - 1]);
    }
  }

  // ---------------------------------------------------------------------------
  // Step 1 changes
  // ---------------------------------------------------------------------------

  /** handleCollegeSelect: a manual college change drops a selected project
      code; the course, branch, year and batch are cleared. */
  function SelectCollege(w: Wizard, collegeId: string): (r: Wizard)
    ensures r.step == w.step
    ensures r.form.collegeId == collegeId
    ensures r.form.course == "" && r.form.branch == "" && r.form.year == "" && r.form.batch == ""
    ensures w.selectedProjectCode != "" && collegeId != w.form.collegeId ==>
      r.selectedProjectCode == "" && r.form.projectCode == ""
    ensures !(w.selectedProjectCode != "" && collegeId != w.form.collegeId) ==>
      r.selectedProjectCode == w.selectedProjectCode && r.form.projectCode == w.form.projectCode
    ensures r.form.(collegeId := w.form.collegeId, course := w.form.course, branch := w.form.branch,
                    year := w.form.year, batch := w.form.batch, projectCode := w.form.projectCode) == w.form
  {
    var cleared := w.selectedProjectCode != "" && collegeId != w.form.collegeId;
    var f := if cleared then w.form.(projectCode := "") else w.form;
    Wizard(w.step, f.(collegeId := collegeId, course := "", branch := "", year := "", batch := ""),
           if cleared then "" else w.selectedProjectCode)
  }

  /** An entry of the project code list; a missing field is "". */
  datatype CodeOption = CodeOption(
    code: string, collegeId: string, collegeName: string, course: string, year: string, academicYear: string)

  /** `projectCodes.find(c => c.code === codeString)`. */
  function FindCode(codes: seq<CodeOption>, codeString: string): (r: Option<CodeOption>)
    ensures r.None? <==> forall i :: 0 <= i < |codes| ==> codes[i].code != codeString
    ensures r.Some? ==> exists i :: 0 <= i < |codes| && codes[i] == r.value &&
                                    forall j :: 0 <= j < i ==> codes[j].code != codeString
    ensures r.Some? ==> r.value.code == codeString
  {
    if codes == [] then None
    else if codes[0].code == codeString then Some(codes[0])
    else
      var r := FindCode(codes[1..], codeString);
      if r.Some? then
        var i :| 0 <= i < |codes[1..]| && codes[1..][i] == r.value &&
                 forall j :: 0 <= j < i ==> codes[1..][j].code != codeString;
        assert codes[i + 1] == r.value;
        r
      else r
  }

  /** handleProjectCodeSelect: an unknown code changes nothing; a known one
      is selected, fills the college, course, year and academic year where
      it has them and clears branch and batch. */
  function SelectProjectCode(w: Wizard, codes: seq<CodeOption>, codeString: string): (r: Wizard)
    ensures FindCode(codes, codeString).None? ==> r == w
    ensures FindCode(codes, codeString).Some? ==>
      var c := FindCode(codes, codeString).value;
      r.step == w.step && r.selectedProjectCode == codeString && r.form.projectCode == codeString &&
      r.form.collegeId == Or(c.collegeId, w.form.collegeId) && r.form.collegeName == Or(c.collegeName, w.form.collegeName) &&
      r.form.course == Or(c.course, w.form.course) && r.form.year == Or(c.year, w.form.year) &&
      r.form.academicYear == Or(c.academicYear, w.form.academicYear) &&
      r.form.branch == "" && r.form.batch == "" &&
      r.form.topic == w.form.topic && r.form.assignedTrainer == w.form.assignedTrainer &&
      r.form.questions == w.form.questions
  {
    var found := FindCode(codes, codeString);
    if found.None? then w
    else
      var c := found.value;
      var f := w.form;
      Wizard(w.step,
             f.(projectCode := codeString, collegeId := Or(c.collegeId, f.collegeId),
                collegeName := Or(c.collegeName, f.collegeName), course := Or(c.course, f.course),
                year := Or(c.year, f.year), academicYear := Or(c.academicYear, f.academicYear),
                branch := "", batch := ""),
             codeString)
  }

  /** The course select: year, branch and batch cleared. */
  function SelectCourse(w: Wizard, v: string): (r: Wizard)
    ensures r.form.course == v && r.form.year == "" && r.form.branch == "" && r.form.batch == ""
    ensures r.form.(course := w.form.course, year := w.form.year, branch := w.form.branch, batch := w.form.batch) == w.form
    ensures r.step == w.step && r.selectedProjectCode == w.selectedProjectCode
  {
    w.(form := w.form.(course := v, year := "", branch := "", batch := ""))
  }

  /** The year select: branch and batch cleared. */
  function SelectYear(w: Wizard, v: string): (r: Wizard)
    ensures r.form.year == v && r.form.branch == "" && r.form.batch == ""
    ensures r.form.(year := w.form.year, branch := w.form.branch, batch := w.form.batch) == w.form
    ensures r.step == w.step && r.selectedProjectCode == w.selectedProjectCode
  {
    w.(form := w.form.(year := v, branch := "", batch := ""))
  }

  /** The branch select: the batch cleared. */
  function SelectBranch(w: Wizard, v: string): (r: Wizard)
    ensures r.form.branch == v && r.form.batch == ""
    ensures r.form.(branch := w.form.branch, batch := w.form.batch) == w.form
    ensures r.step == w.step && r.selectedProjectCode == w.selectedProjectCode
  {
    w.(form := w.form.(branch := v, batch := ""))
  }

  /** Changing anything above the batch leaves step 1 to be completed again:
      the batch, which every one of these clears, is required. */
  lemma UpperChangesNeedBatch(w: Wizard, codes: seq<CodeOption>, v: string)
    ensures !Step1Valid(SelectCollege(w, v).form) && !Step1Valid(SelectCourse(w, v).form)
    ensures !Step1Valid(SelectYear(w, v).form) && !Step1Valid(SelectBranch(w, v).form)
    ensures FindCode(codes, v).Some? ==> !Step1Valid(SelectProjectCode(w, codes, v).form)
  {
  }

  // ---------------------------------------------------------------------------
  // Step 2
  // ---------------------------------------------------------------------------

  predicate Matches(t: TrainerService.Trainer, domain: string)
  {
    ContainsIgnoreCase(t.domain, domain) || ContainsIgnoreCase(t.specialisation, domain)
  }

  /** The trainers offered on step 2: all of them without a domain, else
      those whose domain or specialisation contains it, ignoring case. */
  function FilteredTrainers(trainers: seq<TrainerService.Trainer>, domain: string): (r: seq<TrainerService.Trainer>)
    ensures domain == "" ==> r == trainers
    ensures domain != "" ==> forall t :: t in r <==> t in trainers && Matches(t, domain)
    ensures |r| <= |trainers|
  {
    if domain == "" then trainers
    else
      var keep := (t: TrainerService.Trainer) => Matches(t, domain);
      forall t ensures t in Filter(trainers, keep) <==> t in trainers && Matches(t, domain) {
        FilterMembers(trainers, keep, t);
      }
      Filter(trainers, keep)
  }

  /** A string contains itself. */
  lemma ContainsSelf(s: string)
    ensures Contains(s, s)
  {
    assert IsPrefix(s, s);
  }

  /** A trainer whose domain is exactly the chosen domain is offered. */
  lemma SameDomainOffered(trainers: seq<TrainerService.Trainer>, t: TrainerService.Trainer)
    requires t in trainers
    ensures t in FilteredTrainers(trainers, t.domain)
  {
    ContainsSelf(t.domain);
    ContainsIgnoringCase(t.domain, t.domain);
  }

  // ---------------------------------------------------------------------------
  // Submitting
  // ---------------------------------------------------------------------------

  datatype Section = Section(questions: Option<seq<SessionQuestion>>)

  datatype Template = Template(id: string, sections: Option<seq<Section>>)

  function FindTemplate(templates: seq<Template>, id: string): (r: Option<Template>)
    ensures r.Some? ==> r.value in templates && r.value.id == id
    ensures r.None? <==> forall i :: 0 <= i < |templates| ==> templates[i].id != id
  {
    if templates == [] then None
    else if templates[0].id == id then Some(templates[0])
    else FindTemplate(templates[1..], id)
  }

  function SectionQuestions(s: Section): seq<SessionQuestion>
  {
    if s.questions.Some? then s.questions.value else []
  }

  /** `q_${now}_${random}_${q.id || 'new'}`. */
  function FreshId(now: string, random: string, q: SessionQuestion): string
  {
    "q_" + now + "_" + random + "_" + Or(q.id, "new")
  }

  /** The template's questions, section after section, each renamed;
      `random(k)` is the random part drawn for the k-th. */
  function TemplateQuestions(t: Template, now: string, random: nat -> string): (r: seq<SessionQuestion>)
    ensures t.sections.None? ==> r == []
    ensures t.sections.Some? ==> |r| == |Concat(Map(t.sections.value, SectionQuestions))|
  {
    if t.sections.None? then []
    else
      var qs := Concat(Map(t.sections.value, SectionQuestions));
      seq(|qs|, k requires 0 <= k < |qs| => qs[k].(id := FreshId(now, random(k), qs[k])))
  }

  /** handleSubmit's question list: the form's questions, then the selected
      template's. */
  function SessionQuestions(f: Form, templates: seq<Template>, now: string, random: nat -> string): seq<SessionQuestion>
  {
    var t := if f.templateId != "" then FindTemplate(templates, f.templateId) else None;
    f.questions + (if t.Some? then TemplateQuestions(t.value, now, random) else [])
  }

  /** The form's questions come first and unchanged; the template's follow
      in section order with only their ids replaced; without a template,
      or with one that has no sections, nothing is added. */
  lemma SessionQuestionsShape(f: Form, templates: seq<Template>, now: string, random: nat -> string)
    ensures var r := SessionQuestions(f, templates, now, random);
      r[..|f.questions|] == f.questions
    ensures var t := if f.templateId != "" then FindTemplate(templates, f.templateId) else None;
      var r := SessionQuestions(f, templates, now, random);
      if t.Some? && t.value.sections.Some? then
        var qs := Concat(Map(t.value.sections.value, SectionQuestions));
        |r| == |f.questions| + |qs| &&
        forall k :: 0 <= k < |qs| ==>
          r[|f.questions| + k] == qs[k].(id := FreshId(now, random(k), qs[k])) &&
          r[|f.questions| + k].(id := qs[k].id) == qs[k]
      else r == f.questions
  {
  }

  /** What the dialog asks of the session service. */
  datatype SaveRequest = Create(payload: Form) | Update(sessionId: string, payload: Form)

  /** An edited session is updated under its id, a new one created; the
      payload is the form with the full question list. */
  function Save(sessionId: string, w: Wizard, templates: seq<Template>, now: string, random: nat -> string): (r: SaveRequest)
    ensures r.Update? <==> sessionId != ""
    ensures r.Update? ==> r.sessionId == sessionId
    ensures r.payload == w.form.(questions := SessionQuestions(w.form, templates, now, random))
  {
    var payload := w.form.(questions := SessionQuestions(w.form, templates, now, random));
    if sessionId != "" then Update(sessionId, payload) else Create(payload)
  }
}
