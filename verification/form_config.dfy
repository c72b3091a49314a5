/** The static catalogue of form templates: the field types, the
    forest-health assessment template, and lookup by template id. */
module FormConfig {
  import opened Basics
  import opened JsValues

  /** FIELD_TYPES: the nine kinds of field a template can declare. */
  datatype FieldType = Text | Number | TextArea | Select | MultiSelect | Toggle | Date | Photo | Gps

  /** The string each field type is written as in a template. */
  function FieldTypeName(t: FieldType): string {
    match t
    case Text => "text"
    case Number => "number"
    case TextArea => "textarea"
    case Select => "select"
    case MultiSelect => "multiselect"
    case Toggle => "toggle"
    case Date => "date"
    case Photo => "photo"
    case Gps => "gps"
  }

  /** Reads a field-type string back; anything outside FIELD_TYPES is `None`. */
  function ParseFieldType(name: string): (r: Option<FieldType>)
    ensures r.Some? ==> FieldTypeName(r.value) == name
  {
    if name == "text" then Some(Text)
    else if name == "number" then Some(Number)
    else if name == "textarea" then Some(TextArea)
    else if name == "select" then Some(Select)
    else if name == "multiselect" then Some(MultiSelect)
    else if name == "toggle" then Some(Toggle)
    else if name == "date" then Some(Date)
    else if name == "photo" then Some(Photo)
    else if name == "gps" then Some(Gps)
    else None
  }

  /** The nine type strings are pairwise distinct, so each names one type. */
  lemma FieldTypeNameRoundTrip(t: FieldType)
    ensures ParseFieldType(FieldTypeName(t)) == Some(t)
  {
  }

  /** One entry of a select or multiselect list. */
  datatype Choice = Choice(caption: string, value: string)

  /** A field definition. `name` is the key the value is stored under.
      `caption` is the field's label (`label` is a keyword in Dafny); a
      missing label is the empty string, which is falsy like `undefined`. */
  datatype Field = Field(
    id: string,
    name: string,
    caption: string,
    fieldType: FieldType,
    required: bool,
    placeholder: Option<string>,
    options: Option<seq<Choice>>,
    min: Option<int>,
    max: Option<int>,
    defaultValue: Option<Value>)

  datatype Section = Section(id: string, title: string, icon: string, fields: seq<Field>)

  datatype Template = Template(
    id: string,
    name: string,
    description: string,
    version: string,
    sections: seq<Section>)

  /** A field whose `id` and `name` coincide and that carries only a
      placeholder, the shape most fields of the template share. */
  function PlainField(name: string, caption: string, t: FieldType, required: bool, placeholder: string): Field {
    Field(name, name, caption, t, required, Some(placeholder), None, None, None, None)
  }

  /** A select or multiselect field with its choices. */
  function ChoiceField(name: string, caption: string, t: FieldType, required: bool, options: seq<Choice>): Field {
    Field(name, name, caption, t, required, None, Some(options), None, None, None)
  }

  const GeneralSection := Section("general", "General Information", "information-circle-outline", [
    PlainField("title", "Assessment Title", Text, true, "Enter a title for this assessment"),
    PlainField("location", "Location", Text, false, "Enter the location"),
    Field("date", "date", "Assessment Date", Date, true, None, None, None, None, None),
    Field("hasPhotos", "hasPhotos", "Include Photos", Toggle, false, None, None, None, None, Some(Bool(false)))
  ])

  const CharacteristicsSection := Section("forest_characteristics", "Forest Characteristics", "leaf-outline", [
    ChoiceField("forest_type", "Forest Type", Select, true, [
      Choice("Deciduous", "deciduous"), Choice("Coniferous", "coniferous"), Choice("Mixed", "mixed"),
      Choice("Tropical", "tropical"), Choice("Other", "other")]),
    ChoiceField("dominant_species", "Dominant Species", MultiSelect, false, [
      Choice("Oak", "oak"), Choice("Pine", "pine"), Choice("Maple", "maple"), Choice("Birch", "birch"),
      Choice("Spruce", "spruce"), Choice("Cedar", "cedar"), Choice("Other", "other")]),
    PlainField("average_age", "Average Stand Age (years)", Number, false, "Enter the approximate age"),
    Field("canopy_cover", "canopy_cover", "Canopy Cover (%)", Number, false,
      Some("Estimated % of canopy cover"), None, Some(0), Some(100), None)
  ])

  const HealthSection := Section("health_indicators", "Health Indicators", "pulse-outline", [
    ChoiceField("overall_health", "Overall Forest Health", Select, true, [
      Choice("Excellent", "excellent"), Choice("Good", "good"), Choice("Fair", "fair"),
      Choice("Poor", "poor"), Choice("Critical", "critical")]),
    ChoiceField("observed_issues", "Observed Issues", MultiSelect, false, [
      Choice("Insect Damage", "insect_damage"), Choice("Disease", "disease"),
      Choice("Storm Damage", "storm_damage"), Choice("Drought Stress", "drought_stress"),
      Choice("Fire Damage", "fire_damage"), Choice("Human Impact", "human_impact"),
      Choice("Wildlife Damage", "wildlife_damage"), Choice("None Observed", "none")]),
    ChoiceField("regeneration", "Regeneration Status", Select, false, [
      Choice("Abundant", "abundant"), Choice("Adequate", "adequate"), Choice("Limited", "limited"),
      Choice("Poor", "poor"), Choice("None", "none")])
  ])

  const NotesSection := Section("notes", "Notes & Observations", "document-text-outline", [
    PlainField("notes", "Additional Notes", TextArea, false, "Enter any additional observations or notes")
  ])

  /** forestHealthTemplate. The date field's default (today's date) depends on
      the clock and is not part of the model. */
  const ForestHealthTemplate := Template(
    "forest_health",
    "Forest Health Assessment",
    "Assess the general health and condition of a forest area",
    "1.0",
    [GeneralSection, CharacteristicsSection, HealthSection, NotesSection])

  /** getFormTemplates: the catalogue, in registration order. */
  function GetFormTemplates(): (r: seq<Template>)
    ensures |r| == 1 && r[0] == ForestHealthTemplate
  {
    [ForestHealthTemplate]
  }

  /** `templates.find(t => t.id === id) || null`: the first template with
      that id, or `None` when there is none. */
  function FindTemplate(templates: seq<Template>, id: string): (r: Option<Template>)
    ensures r.None? <==> forall i :: 0 <= i < |templates| ==> templates[i].id != id
    ensures forall i :: FirstWithId(templates, id, i) ==> r == Some(templates[i])
  {
    if |templates| == 0 then None
    else if templates[0].id == id then Some(templates[0])
    else
      var r := FindTemplate(templates[1..], id);
      assert forall i :: FirstWithId(templates, id, i) ==> FirstWithId(templates[1..], id, i - 1);
      r
  }

  /** `i` is the position of the first template whose id is `id`. */
  predicate FirstWithId(templates: seq<Template>, id: string, i: int) {
    && 0 <= i < |templates|
    && templates[i].id == id
    && forall k :: 0 <= k < i ==> templates[k].id != id
  }

  /** getFormTemplate: lookup of a template by id in the catalogue, which
      answers exactly one id, "forest_health". */
  function GetFormTemplate(id: string): (r: Option<Template>)
    ensures r == if id == "forest_health" then Some(ForestHealthTemplate) else None
  {
    assert id == "forest_health" ==> FirstWithId(GetFormTemplates(), id, 0);
    FindTemplate(GetFormTemplates(), id)
  }

  /** The fields of a template, section by section, in declaration order. */
  function Flatten(sections: seq<Section>): (fields: seq<Field>)
    ensures forall s, f :: s in sections && f in s.fields ==> f in fields
  {
    if |sections| == 0 then [] else sections[0].fields + Flatten(sections[1..])
  }

  /** The names of the required fields, in order. */
  function RequiredNames(fields: seq<Field>): seq<string> {
    if |fields| == 0 then []
    else (if fields[0].required then [fields[0].name] else []) + RequiredNames(fields[1..])
  }

  /** `options` appear exactly on select and multiselect fields. */
  predicate OptionsOnChoiceFieldsOnly(f: Field) {
    f.options.Some? <==> f.fieldType in {Select, MultiSelect}
  }

  /** Field names are pairwise distinct. */
  predicate NamesDistinct(fields: seq<Field>) {
    forall i, j :: 0 <= i < j < |fields| ==> fields[i].name != fields[j].name
  }

  /** Numeric bounds appear only on "canopy_cover", which is a 0..100 number. */
  predicate BoundsOnlyOnCanopyCover(f: Field) {
    && (f.min.Some? || f.max.Some? ==> f.name == "canopy_cover")
    && (f.name == "canopy_cover" ==>
          f.fieldType == Number && f.min == Some(0) && f.max == Some(100) && f.min.value <= f.max.value)
  }

  predicate FieldWellFormed(f: Field) {
    OptionsOnChoiceFieldsOnly(f) && f.id == f.name && BoundsOnlyOnCanopyCover(f)
  }

  /** The fields' names, in order. */
  function Names(fields: seq<Field>): seq<string> {
    seq(|fields|, i requires 0 <= i < |fields| => fields[i].name)
  }

  /** The template's fields are its four sections' fields, in order. */
  lemma {:induction false} ForestHealthFields()
    ensures Flatten(ForestHealthTemplate.sections)
      == GeneralSection.fields + CharacteristicsSection.fields + HealthSection.fields + NotesSection.fields
  {
    var ss := ForestHealthTemplate.sections;
    assert Flatten(ss[4..]) == [];
    assert Flatten(ss[3..]) == NotesSection.fields + Flatten(ss[4..]);
    assert Flatten(ss[2..]) == HealthSection.fields + Flatten(ss[3..]);
    assert Flatten(ss[1..]) == CharacteristicsSection.fields + Flatten(ss[2..]);
    assert Flatten(ss) == GeneralSection.fields + Flatten(ss[1..]);
  }

  lemma NamesAppend(a: seq<Field>, b: seq<Field>)
    ensures Names(a + b) == Names(a) + Names(b)
  {
  }

  lemma {:induction false} RequiredNamesAppend(a: seq<Field>, b: seq<Field>)
    ensures RequiredNames(a + b) == RequiredNames(a) + RequiredNames(b)
  {
    if |a| > 0 {
      assert (a + b)[1..] == a[1..] + b;
      RequiredNamesAppend(a[1..], b);
    } else {
      assert a + b == b;
    }
  }

  /** The template's field list, split at its section boundaries. */
  lemma ForestHealthSplit()
    ensures Flatten(ForestHealthTemplate.sections)
      == (GeneralSection.fields + CharacteristicsSection.fields) + (HealthSection.fields + NotesSection.fields)
  {
    ForestHealthFields();
  }

  lemma GeneralWellFormed()
    ensures forall f :: f in GeneralSection.fields ==> FieldWellFormed(f)
  {
  }

  lemma CharacteristicsWellFormed()
    ensures forall f :: f in CharacteristicsSection.fields ==> FieldWellFormed(f)
  {
  }

  lemma HealthAndNotesWellFormed()
    ensures forall f :: f in HealthSection.fields + NotesSection.fields ==> FieldWellFormed(f)
  {
  }

  /** Every field of the forest-health template is well formed: choice
      lists exactly on choice fields, id equal to name, and numeric bounds
      only on the 0..100 canopy cover. */
  lemma ForestHealthFieldsWellFormed()
    ensures forall f :: f in Flatten(ForestHealthTemplate.sections) ==> FieldWellFormed(f)
  {
    ForestHealthSplit();
    GeneralWellFormed();
    CharacteristicsWellFormed();
    HealthAndNotesWellFormed();
  }

  /** The names of the forest-health template's fields, in order. */
  const ForestHealthNameList: seq<string> :=
    ["title", "location", "date", "hasPhotos", "forest_type", "dominant_species",
     "average_age", "canopy_cover", "overall_health", "observed_issues", "regeneration", "notes"]

  lemma ForestHealthNames()
    ensures Names(Flatten(ForestHealthTemplate.sections)) == ForestHealthNameList
  {
    var g, c, h, n := GeneralSection.fields, CharacteristicsSection.fields, HealthSection.fields, NotesSection.fields;
    ForestHealthSplit();
    NamesAppend(g + c, h + n);
    NamesAppend(g, c);
    NamesAppend(h, n);
    GeneralNames();
    CharacteristicsNames();
    HealthNames();
    NotesNames();
  }

  lemma GeneralNames()
    ensures Names(GeneralSection.fields) == ["title", "location", "date", "hasPhotos"]
  {
  }

  lemma CharacteristicsNames()
    ensures Names(CharacteristicsSection.fields) == ["forest_type", "dominant_species", "average_age", "canopy_cover"]
  {
  }

  lemma HealthNames()
    ensures Names(HealthSection.fields) == ["overall_health", "observed_issues", "regeneration"]
  {
  }

  lemma NotesNames()
    ensures Names(NotesSection.fields) == ["notes"]
  {
  }

  lemma NameListDistinct()
    ensures forall i, j :: 0 <= i < j < |ForestHealthNameList| ==> ForestHealthNameList[i] != ForestHealthNameList[j]
  {
    var names := ForestHealthNameList;
    forall i, j | 0 <= i < j < |names|
      ensures names[i] != names[j]
    {
      if |names[i]| == |names[j]| {
        assert names[i][0] != names[j][0];
      }
    }
  }

  /** The template's field names are pairwise distinct. */
  lemma ForestHealthNamesDistinct()
    ensures NamesDistinct(Flatten(ForestHealthTemplate.sections))
  {
    ForestHealthNames();
    NameListDistinct();
    var fields := Flatten(ForestHealthTemplate.sections);
    assert forall i :: 0 <= i < |fields| ==> fields[i].name == Names(fields)[i];
  }

  /** Its required fields, in declaration order. */
  lemma ForestHealthRequiredFields()
    ensures RequiredNames(Flatten(ForestHealthTemplate.sections)) == ["title", "date", "forest_type", "overall_health"]
  {
    var g, c, h, n := GeneralSection.fields, CharacteristicsSection.fields, HealthSection.fields, NotesSection.fields;
    ForestHealthSplit();
    RequiredNamesAppend(g + c, h + n);
    RequiredNamesAppend(g, c);
    RequiredNamesAppend(h, n);
    GeneralRequired();
    CharacteristicsRequired();
    HealthAndNotesRequired();
  }

  lemma GeneralRequired()
    ensures RequiredNames(GeneralSection.fields) == ["title", "date"]
  {
  }

  lemma CharacteristicsRequired()
    ensures RequiredNames(CharacteristicsSection.fields) == ["forest_type"]
  {
  }

  lemma HealthAndNotesRequired()
    ensures RequiredNames(HealthSection.fields) == ["overall_health"]
    ensures RequiredNames(NotesSection.fields) == []
  {
  }
}
