/** The superadmin's feedback templates: the editor dialog for a simple
    template (one list of questions) or an advanced one (sections of
    questions), its question and section operations, the checks before
    saving, and the question count shown on each template card. */
module TemplatesTab {
  import opened Common
  import QuestionCategories

  /** A template question; `kind` is its `type`. */
  datatype Question = Question(
    id: string, text: string, kind: string, category: string, required: bool, options: seq<string>)

  /** A partial question, merged over one with `{ ...q, ...data }`. */
  datatype Patch = Patch(
    text: Option<string>, kind: Option<string>, category: Option<string>,
    required: Option<bool>, options: Option<seq<string>>)

  /** A section; its question array is shared by every template value that
      holds the section, and addAdvancedQuestion pushes into it. */
  class Section {
    const id: string
    const title: string
    var questions: seq<Question>

    constructor(id: string, title: string)
      ensures this.id == id && this.title == title && questions == []
    {
      this.id := id;
      this.title := title;
      questions := [];
    }
  }

  datatype Mode = Simple | Advanced

  // ---------------------------------------------------------------------------
  // Simple questions
  // ---------------------------------------------------------------------------

  /** A new question: a required star rating in the default category. */
  function NewQuestion(id: string): (q: Question)
    ensures q.id == id && q.text == "" && q.kind == "rating" && q.required && q.options == []
    ensures q.category == QuestionCategories.DefaultCategory
  {
    Question(id, "", "rating", QuestionCategories.DefaultCategory, true, [])
  }

  function Or<T>(p: Option<T>, v: T): T
  {
    if p.Some? then p.value else v
  }

  /** `{ ...q, ...data }`. */
  function Merge(q: Question, p: Patch): (r: Question)
    ensures r.id == q.id
    ensures p.text.Some? ==> r.text == p.text.value
    ensures p.text.None? ==> r.text == q.text
    ensures p.kind.Some? ==> r.kind == p.kind.value
    ensures p.kind.None? ==> r.kind == q.kind
    ensures p.category.Some? ==> r.category == p.category.value
    ensures p.category.None? ==> r.category == q.category
    ensures p.required.Some? ==> r.required == p.required.value
    ensures p.required.None? ==> r.required == q.required
    ensures p.options.Some? ==> r.options == p.options.value
    ensures p.options.None? ==> r.options == q.options
  {
    Question(q.id, Or(p.text, q.text), Or(p.kind, q.kind), Or(p.category, q.category),
             Or(p.required, q.required), Or(p.options, q.options))
  }

  /** addSimpleQuestion. */
  function AddSimpleQuestion(qs: seq<Question>, id: string): (r: seq<Question>)
    ensures |r| == |qs| + 1 && r[..|qs|] == qs && r[|qs|] == NewQuestion(id)
  {
    qs + [NewQuestion(id)]
  }

  /** updateSimpleQuestion: the question at idx merged with the patch, the
      others untouched. */
  function UpdateSimpleQuestion(qs: seq<Question>, idx: nat, p: Patch): (r: seq<Question>)
    requires idx < |qs|
    ensures |r| == |qs| && r[idx] == Merge(qs[idx], p)
    ensures forall i :: 0 <= i < |qs| && i != idx ==> r[i] == qs[i]
  {
    qs[idx := Merge(qs[idx], p)]
  }

  /** A patch that names no field leaves the list as it was. */
  lemma EmptyPatchKeeps(qs: seq<Question>, idx: nat)
    requires idx < |qs|
    ensures UpdateSimpleQuestion(qs, idx, Patch(None, None, None, None, None)) == qs
  {
    var r := UpdateSimpleQuestion(qs, idx, Patch(None, None, None, None, None));
    assert r[idx] == qs[idx];
    assert forall i :: 0 <= i < |qs| ==> r[i] == qs[i];
  }

  /** removeSimpleQuestion: `splice(idx, 1)`, which does nothing past the
      end. */
  function RemoveSimpleQuestion(qs: seq<Question>, idx: nat): (r: seq<Question>)
    ensures idx < |qs| ==> |r| == |qs| - 1
    ensures idx < |qs| ==> forall i :: 0 <= i < idx ==> r[i] == qs[i]
    ensures idx < |qs| ==> forall i :: idx <= i < |r| ==> r[i] == qs[i + 1]
    ensures idx >= |qs| ==> r == qs
  {
    if idx < |qs| then RemoveAt(qs, idx) else qs
  }

  /** Adding a question and removing it again gives the list back. */
  lemma AddThenRemove(qs: seq<Question>, id: string)
    ensures RemoveSimpleQuestion(AddSimpleQuestion(qs, id), |qs|) == qs
  {
    var r := RemoveSimpleQuestion(AddSimpleQuestion(qs, id), |qs|);
    assert |r| == |qs|;
    assert forall i :: 0 <= i < |qs| ==> r[i] == qs[i];
  }

  /** The patch of the type select: an mcq starts with two options, a
      rating goes back to the default category. */
  function TypePatch(v: string): (p: Patch)
    ensures p.kind == Some(v) && p.text.None? && p.required.None?
    ensures v == "mcq" ==> p.options == Some(["Option 1", "Option 2"])
    ensures v != "mcq" ==> p.options.None?
    ensures v == "rating" ==> p.category == Some(QuestionCategories.DefaultCategory)
    ensures v != "rating" ==> p.category.None?
  {
    Patch(None, Some(v), if v == "rating" then Some(QuestionCategories.DefaultCategory) else None,
          None, if v == "mcq" then Some(["Option 1", "Option 2"]) else None)
  }

  /** Switching type keeps the text and whether the question is required. */
  lemma TypeSwitchKeeps(q: Question, v: string)
    ensures var r := Merge(q, TypePatch(v));
      r.kind == v && r.text == q.text && r.required == q.required && r.id == q.id &&
      (v == "mcq" ==> r.options == ["Option 1", "Option 2"] && r.category == q.category) &&
      (v == "rating" ==> r.category == QuestionCategories.DefaultCategory && r.options == q.options)
  {
  }

  // ---------------------------------------------------------------------------
  // Sections
  // ---------------------------------------------------------------------------

  /** The title of the n-th section: "Section " and then n's decimal
      digits, without leading zeros. */
  function SectionTitle(n: nat): (r: string)
    ensures |r| > 8 && r[..8] == "Section "
    ensures AllDigits(r[8..]) && DigitsValue(r[8..]) == n
    ensures |r| > 9 ==> r[8] != '0'
  {
    var r := "Section " + NatStr(n);
    assert r[8..] == NatStr(n);
    r
  }

  /** Different section numbers give different titles. */
  lemma SectionTitlesDistinct(m: nat, n: nat)
    requires m != n
    ensures SectionTitle(m) != SectionTitle(n)
  {
  }

  /** addAdvancedQuestion: a new question pushed onto a section's own array,
      which every holder of the section sees. */
  method AddAdvancedQuestion(sections: seq<Section>, sIdx: nat, id: string)
    requires sIdx < |sections|
    modifies sections[sIdx]
    ensures sections[sIdx].questions == old(sections[sIdx].questions) + [NewQuestion(id)]
  {
    sections[sIdx].questions := sections[sIdx].questions + [NewQuestion(id)];
  }

  /** The question count of a template card:
      `questions?.length || sections?.reduce((a, s) => a + s.questions.length, 0)`;
      None renders nothing. */
  function QuestionCount(questions: Option<seq<Question>>, sectionSizes: Option<seq<nat>>): (r: Option<int>)
    ensures questions.Some? && |questions.value| > 0 ==> r == Some(|questions.value|)
    ensures (questions.None? || |questions.value| == 0) && sectionSizes.Some? ==>
      r == Some(SumOf(sectionSizes.value, (n: nat) => n))
    ensures (questions.None? || |questions.value| == 0) && sectionSizes.None? ==> r.None?
  {
    if questions.Some? && |questions.value| > 0 then Some(|questions.value|)
    else if sectionSizes.Some? then Some(SumOf(sectionSizes.value, (n: nat) => n))
    else None
  }

  /** The sizes of the sections' question arrays. */
  function Sizes(sections: seq<Section>): (r: seq<nat>)
    reads sections
    ensures |r| == |sections| && forall i :: 0 <= i < |r| ==> r[i] == |sections[i].questions|
  {
    seq(|sections|, i requires 0 <= i < |sections| reads sections => |sections[i].questions|)
  }

  /** A question added to a section counts once more on an advanced card. */
  lemma AddedQuestionCounts(sizes: seq<nat>, sIdx: nat)
    requires sIdx < |sizes|
    ensures SumOf(sizes[sIdx := sizes[sIdx] + 1], (n: nat) => n) == SumOf(sizes, (n: nat) => n) + 1
  {
    var f := (n: nat) => n;
    var t := sizes[sIdx := sizes[sIdx] + 1];
    SumOfRemove(sizes, sIdx, f);
    SumOfRemove(t, sIdx, f);
    assert t[..sIdx] + t[sIdx + 1..] == sizes[..sIdx] + sizes[sIdx + 1..];
  }

  // ---------------------------------------------------------------------------
  // Saving
  // ---------------------------------------------------------------------------

  datatype Content = Questions(questions: seq<Question>) | Sections(sections: seq<Section>)

  /** The saved document: title, description and exactly one of questions
      or sections. */
  datatype Payload = Payload(title: string, description: string, content: Content)

  /** saveTemplate's checks: a title that is not blank, and in simple mode
      at least one question. */
  function CheckTemplate(mode: Mode, title: string, description: string,
                         questions: seq<Question>, sections: seq<Section>): (r: Result<Payload>)
    ensures r.Err? <==> IsBlank(title) || (mode == Simple && |questions| == 0)
    ensures IsBlank(title) ==> r == Err("Template title required")
    ensures !IsBlank(title) && mode == Simple && |questions| == 0 ==> r == Err("Add at least one question")
    ensures r.Ok? ==> r.value.title == title && r.value.description == description
    ensures r.Ok? && mode == Simple ==> r.value.content == Questions(questions)
    ensures r.Ok? && mode == Advanced ==> r.value.content == Sections(sections)
  {
    if IsBlank(title) then Err("Template title required")
    else if mode == Simple then
      if |questions| == 0 then Err("Add at least one question")
      else Ok(Payload(title, description, Questions(questions)))
    else Ok(Payload(title, description, Sections(sections)))
  }

  /** What the dialog asks of the template service. */
  datatype SaveRequest = Create(payload: Payload) | Update(id: string, payload: Payload)

  // ---------------------------------------------------------------------------
  // The editor dialog
  // ---------------------------------------------------------------------------

  /** A template of the list, as the service returns it. */
  datatype Listed = Listed(
    id: string, title: string, description: string,
    questions: Option<seq<Question>>, sections: Option<seq<Section>>)

  class Editor {
    var open: bool
    var mode: Mode
    var isEditing: bool
    var editingId: Option<string>
    var title: string
    var description: string
    var questions: seq<Question>
    var sections: seq<Section>

    constructor()
      ensures !open && mode == Simple && !isEditing && editingId.None?
      ensures title == "" && description == "" && questions == [] && sections == []
      ensures Valid()
    {
      open := false;
      mode := Simple;
      isEditing := false;
      editingId := None;
      title := "";
      description := "";
      questions := [];
      sections := [];
    }

    /** openCreateModal: an empty template; an advanced one starts with one
        empty section titled 'Section 1'. */
    method OpenCreate(m: Mode, sectionId: string)
      modifies this
      ensures open && mode == m && !isEditing && editingId.None? && Valid()
      ensures title == "" && description == "" && questions == []
      ensures m == Simple ==> sections == []
      ensures m == Advanced ==> (|sections| == 1 && fresh(sections[0]) && sections[0].id == sectionId &&
                                 sections[0].title == "Section 1" && sections[0].questions == [])
    {
      mode := m;
      isEditing := false;
      editingId := None;
      title := "";
      description := "";
      questions := [];
      if m == Simple {
        sections := [];
      } else {
        var s := new Section(sectionId, SectionTitle(1));
        sections := [s];
      }
      open := true;
    }

    /** handleEdit: the listed template itself, advanced exactly when it has
        sections; its sections are the very objects of the list. */
    method Edit(t: Listed)
      modifies this
      ensures open && isEditing && editingId == Some(t.id) && Valid()
      ensures mode == (if t.sections.Some? then Advanced else Simple)
      ensures title == t.title && description == t.description
      ensures questions == (if t.questions.Some? then t.questions.value else [])
      ensures sections == (if t.sections.Some? then t.sections.value else [])
    {
      title := t.title;
      description := t.description;
      questions := if t.questions.Some? then t.questions.value else [];
      sections := if t.sections.Some? then t.sections.value else [];
      mode := if t.sections.Some? then Advanced else Simple;
      isEditing := true;
      editingId := Some(t.id);
      open := true;
    }

    method AddSimple(id: string)
      modifies this
      ensures questions == AddSimpleQuestion(old(questions), id)
      ensures sections == old(sections) && title == old(title) && description == old(description) && mode == old(mode)
      ensures open == old(open) && isEditing == old(isEditing) && editingId == old(editingId)
    {
      questions := AddSimpleQuestion(questions, id);
    }

    method UpdateSimple(idx: nat, p: Patch)
      requires idx < |questions|
      modifies this
      ensures questions == UpdateSimpleQuestion(old(questions), idx, p)
      ensures sections == old(sections) && title == old(title) && description == old(description) && mode == old(mode)
      ensures open == old(open) && isEditing == old(isEditing) && editingId == old(editingId)
    {
      questions := UpdateSimpleQuestion(questions, idx, p);
    }

    method RemoveSimple(idx: nat)
      modifies this
      ensures questions == RemoveSimpleQuestion(old(questions), idx)
      ensures sections == old(sections) && title == old(title) && description == old(description) && mode == old(mode)
      ensures open == old(open) && isEditing == old(isEditing) && editingId == old(editingId)
    {
      questions := RemoveSimpleQuestion(questions, idx);
    }

    /** addSection: a new empty section titled after its position. */
    method AddSection(id: string)
      modifies this
      ensures |sections| == |old(sections)| + 1 && sections[..|old(sections)|] == old(sections)
      ensures fresh(sections[|old(sections)|])
      ensures sections[|old(sections)|].id == id && sections[|old(sections)|].questions == []
      ensures sections[|old(sections)|].title == SectionTitle(|old(sections)| + 1)
      ensures questions == old(questions) && title == old(title) && description == old(description) && mode == old(mode)
      ensures open == old(open) && isEditing == old(isEditing) && editingId == old(editingId)
    {
      var s := new Section(id, SectionTitle(|sections| + 1));
      sections := sections + [s];
    }

    /** An edit always knows the id of the template it edits. */
    predicate Valid()
      reads this
    {
      isEditing ==> editingId.Some?
    }

    /** saveTemplate: nothing is sent when a check fails; otherwise the
        template is updated under its id when editing and created
        otherwise. The dialog closes only when the service accepts the
        request; when it fails, an error is shown and the dialog stays. */
    method Save(accepted: bool) returns (sent: Option<SaveRequest>, error: Option<string>)
      requires Valid()
      modifies this
      ensures Valid()
      ensures var checked := CheckTemplate(old(mode), old(title), old(description), old(questions), old(sections));
        (checked.Err? ==> sent.None? && error == Some(checked.msg)) &&
        (checked.Ok? && old(isEditing) ==> sent == Some(Update(old(editingId).value, checked.value))) &&
        (checked.Ok? && !old(isEditing) ==> sent == Some(Create(checked.value))) &&
        (checked.Ok? && accepted ==> error.None? && !open && !isEditing && editingId.None?) &&
        (checked.Ok? && !accepted ==> error == Some("Failed to save template")) &&
        (checked.Err? || !accepted ==> open == old(open) && isEditing == old(isEditing) && editingId == old(editingId))
      ensures questions == old(questions) && sections == old(sections) && title == old(title)
      ensures description == old(description) && mode == old(mode)
    {
      var checked := CheckTemplate(mode, title, description, questions, sections);
      if checked.Err? {
        return None, Some(checked.msg);
      }
      if isEditing {
        sent := Some(Update(editingId.value, checked.value));
      } else {
        sent := Some(Create(checked.value));
      }
      if !accepted {
        return sent, Some("Failed to save template");
      }
      error := None;
      open := false;
      isEditing := false;
      editingId := None;
    }
  }
}
