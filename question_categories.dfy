/** The question categories used to group rating questions for the radar
    charts, and the label lookup. */
module QuestionCategories {
  import opened Common

  /** A category: its stored value, the label shown, and a description. */
  datatype Category = Category(value: string, name: string, description: string)

  const Categories: seq<Category> := [
    Category("knowledge", "Subject Knowledge", "Trainer's expertise in the topic"),
    Category("communication", "Communication", "Clarity and explanation skills"),
    Category("engagement", "Engagement", "Interaction and responsiveness to doubts"),
    Category("content", "Content Quality", "Relevance and quality of materials"),
    Category("delivery", "Delivery", "Pace, presentation, and session flow"),
    Category("futureSessions", "Future Sessions", "Expectations and suggestions for upcoming sessions"),
    Category("overall", "Overall", "General satisfaction")
  ]

  /** The category new rating questions get. */
  const DefaultCategory: string := "overall"

  /** `QUESTION_CATEGORIES.find(c => c.value === value)`. */
  function FindCategory(cs: seq<Category>, value: string): (r: Option<Category>)
    ensures r.Some? ==> r.value in cs && r.value.value == value
    ensures r.None? ==> forall i :: 0 <= i < |cs| ==> cs[i].value != value
    ensures r.Some? ==> exists i :: 0 <= i < |cs| && cs[i] == r.value && forall j :: 0 <= j < i ==> cs[j].value != value
  {
    if cs == [] then None
    else if cs[0].value == value then Some(cs[0])
    else
      var rest := FindCategory(cs[1..], value);
      if rest.Some? then
        ghost var i :| 0 <= i < |cs[1..]| && cs[1..][i] == rest.value && forall j :: 0 <= j < i ==> cs[1..][j].value != value;
        assert cs[i + 1] == rest.value;
        rest
      else None
  }

  /** getCategoryLabel: the label of a known value, an unknown value unchanged. */
  function CategoryLabel(value: string): (r: string)
    ensures (exists i :: 0 <= i < |Categories| && Categories[i].value == value) ==>
      exists i :: 0 <= i < |Categories| && Categories[i].value == value && r == Categories[i].name
    ensures (forall i :: 0 <= i < |Categories| ==> Categories[i].value != value) ==> r == value
  {
    var c := FindCategory(Categories, value);
    if c.Some? then c.value.name else value
  }

  /** The category values are pairwise distinct, so a value names one label. */
  lemma ValuesDistinct()
    ensures forall i, j :: 0 <= i < j < |Categories| ==> Categories[i].value != Categories[j].value
  {
  }

  /** The default category is one of the categories, labelled "Overall". */
  lemma DefaultIsCategory()
    ensures exists i :: 0 <= i < |Categories| && Categories[i].value == DefaultCategory
    ensures CategoryLabel(DefaultCategory) == "Overall"
  {
    assert Categories[6].value == DefaultCategory;
    ValuesDistinct();
    var i :| 0 <= i < |Categories| && Categories[i].value == DefaultCategory &&
      CategoryLabel(DefaultCategory) == Categories[i].name;
    assert i == 6;
  }
}
