/** The required-field validator: checks a form's values against an ordered
    list of field definitions and reports every missing required value. */
module FormValidation {
  import opened JsValues
  import opened FormConfig

  datatype FieldError = FieldError(field: string, message: string)

  datatype ValidationResult = ValidationResult(isValid: bool, errors: seq<FieldError>)

  /** A value that counts as not filled in: `undefined`, `null` or `''`.
      `0` and `false` are filled in. */
  predicate IsBlank(v: Value) {
    v == Undefined || v == Null || v == Str("")
  }

  /** The field is required and the form leaves it blank. */
  predicate MissingRequired(formData: Object, f: Field) {
    f.required && IsBlank(Get(formData, f.name))
  }

  /** `field.label || field.name`. */
  function DisplayName(f: Field): string {
    if f.caption != "" then f.caption else f.name
  }

  /** The error reported for a missing required field. */
  function ErrorFor(f: Field): FieldError {
    FieldError(f.name, DisplayName(f) + " is required")
  }

  /** One pass over the definitions, collecting an error per missing required
      field and never stopping early. */
  function CollectErrors(formData: Object, fields: seq<Field>): (errors: seq<FieldError>)
    ensures |errors| <= |fields|
  {
    if |fields| == 0 then []
    else (if MissingRequired(formData, fields[0]) then [ErrorFor(fields[0])] else []) + CollectErrors(formData, fields[1..])
  }

  /** validateForm: all errors in one pass, valid exactly when there are none. */
  function ValidateForm(formData: Object, fields: seq<Field>): (r: ValidationResult)
    ensures r.isValid <==> r.errors == []
    ensures |r.errors| <= |fields|
  {
    var errors := CollectErrors(formData, fields);
    ValidationResult(|errors| == 0, errors)
  }

  /** The positions in `fields[from..]` of the required fields left blank,
      increasing, each one flagged and none omitted. */
  function FlaggedFrom(formData: Object, fields: seq<Field>, from: nat): (idx: seq<nat>)
    requires from <= |fields|
    ensures forall a, b :: 0 <= a < b < |idx| ==> idx[a] < idx[b]
    ensures forall a :: 0 <= a < |idx| ==> from <= idx[a] < |fields| && MissingRequired(formData, fields[idx[a]])
    ensures forall j :: from <= j < |fields| && MissingRequired(formData, fields[j]) ==> j in idx
    decreases |fields| - from
  {
    if from == |fields| then []
    else (if MissingRequired(formData, fields[from]) then [from] else []) + FlaggedFrom(formData, fields, from + 1)
  }

  /** The positions of all required fields left blank, in declaration order. */
  function FlaggedPositions(formData: Object, fields: seq<Field>): seq<nat> {
    FlaggedFrom(formData, fields, 0)
  }

  /** The errors for the fields at positions `idx`, in that order. */
  function ErrorsAt(fields: seq<Field>, idx: seq<nat>): seq<FieldError>
    requires forall a :: 0 <= a < |idx| ==> idx[a] < |fields|
  {
    if |idx| == 0 then [] else [ErrorFor(fields[idx[0]])] + ErrorsAt(fields, idx[1..])
  }

  /** The errors of `fields[from..]` are the flagged positions' errors. */
  lemma {:induction false} CollectErrorsFrom(formData: Object, fields: seq<Field>, from: nat)
    requires from <= |fields|
    ensures CollectErrors(formData, fields[from..]) == ErrorsAt(fields, FlaggedFrom(formData, fields, from))
    decreases |fields| - from
  {
    if from < |fields| {
      CollectErrorsFrom(formData, fields, from + 1);
      var tail := FlaggedFrom(formData, fields, from + 1);
      var suffix := fields[from..];
      assert suffix[0] == fields[from] && suffix[1..] == fields[from + 1..];
      var head := if MissingRequired(formData, fields[from]) then [from] else [];
      assert FlaggedFrom(formData, fields, from) == head + tail;
      assert CollectErrors(formData, suffix)
        == (if MissingRequired(formData, fields[from]) then [ErrorFor(fields[from])] else []) + CollectErrors(formData, suffix[1..]);
      if head != [] {
        assert (head + tail)[0] == from && (head + tail)[1..] == tail;
      } else {
        assert head + tail == tail;
      }
    }
  }

  /** validateForm reports exactly one error per required field whose value
      is blank, for no other field, in the order the fields are declared. */
  lemma ValidateFormErrors(formData: Object, fields: seq<Field>)
    ensures ValidateForm(formData, fields).errors == ErrorsAt(fields, FlaggedPositions(formData, fields))
  {
    CollectErrorsFrom(formData, fields, 0);
    assert fields[0..] == fields;
  }

  /** The form is valid exactly when no required field is left blank; a
      form can only fail on required fields. */
  lemma ValidIffNoMissingRequired(formData: Object, fields: seq<Field>)
    ensures ValidateForm(formData, fields).isValid <==> forall j :: 0 <= j < |fields| ==> !MissingRequired(formData, fields[j])
  {
    ValidateFormErrors(formData, fields);
    var idx := FlaggedPositions(formData, fields);
    if j :| 0 <= j < |fields| && MissingRequired(formData, fields[j]) {
      assert j in idx;
    }
  }

  /** One pass over concatenated definition lists reports the first list's
      errors, then the second's. */
  lemma {:induction false} CollectErrorsAppend(formData: Object, a: seq<Field>, b: seq<Field>)
    ensures CollectErrors(formData, a + b) == CollectErrors(formData, a) + CollectErrors(formData, b)
  {
    if |a| == 0 {
      assert a + b == b;
    } else {
      var ab := a + b;
      assert ab[0] == a[0] && ab[1..] == a[1..] + b;
      CollectErrorsAppend(formData, a[1..], b);
      var head := if MissingRequired(formData, a[0]) then [ErrorFor(a[0])] else [];
      assert CollectErrors(formData, ab) == head + CollectErrors(formData, ab[1..]);
      assert CollectErrors(formData, a) == head + CollectErrors(formData, a[1..]);
    }
  }

  lemma EmptyGeneralSection()
    ensures CollectErrors(map[], GeneralSection.fields) ==
      [FieldError("title", "Assessment Title is required"), FieldError("date", "Assessment Date is required")]
  {
    var fs := GeneralSection.fields;
    assert CollectErrors(map[], fs[3..]) == [];
    assert CollectErrors(map[], fs[2..]) == [ErrorFor(fs[2])];
    assert CollectErrors(map[], fs[1..]) == [ErrorFor(fs[2])];
    assert CollectErrors(map[], fs) == [ErrorFor(fs[0]), ErrorFor(fs[2])];
    GeneralSectionErrors();
  }

  lemma GeneralSectionErrors()
    ensures ErrorFor(GeneralSection.fields[0]) == FieldError("title", "Assessment Title is required")
    ensures ErrorFor(GeneralSection.fields[2]) == FieldError("date", "Assessment Date is required")
  {
  }

  lemma EmptyCharacteristicsSection()
    ensures CollectErrors(map[], CharacteristicsSection.fields) == [FieldError("forest_type", "Forest Type is required")]
  {
    var fs := CharacteristicsSection.fields;
    assert CollectErrors(map[], fs[3..]) == [];
    assert CollectErrors(map[], fs[2..]) == [];
    assert CollectErrors(map[], fs[1..]) == [];
    assert CollectErrors(map[], fs) == [ErrorFor(fs[0])];
    ForestTypeError();
  }

  lemma ForestTypeError()
    ensures ErrorFor(CharacteristicsSection.fields[0]) == FieldError("forest_type", "Forest Type is required")
  {
  }

  lemma EmptyHealthSection()
    ensures CollectErrors(map[], HealthSection.fields) == [FieldError("overall_health", "Overall Forest Health is required")]
  {
    var fs := HealthSection.fields;
    assert CollectErrors(map[], fs[2..]) == [];
    assert CollectErrors(map[], fs[1..]) == [];
    assert CollectErrors(map[], fs) == [ErrorFor(fs[0])];
    OverallHealthError();
  }

  lemma OverallHealthError()
    ensures ErrorFor(HealthSection.fields[0]) == FieldError("overall_health", "Overall Forest Health is required")
  {
  }

  lemma EmptyNotesSection()
    ensures CollectErrors(map[], NotesSection.fields) == []
  {
  }

  /** Validating an empty form against the forest-health template reports its
      four required fields, in order, under their labels. */
  lemma EmptyForestHealthForm()
    ensures ValidateForm(map[], Flatten(ForestHealthTemplate.sections)) == ValidationResult(false, [
      FieldError("title", "Assessment Title is required"),
      FieldError("date", "Assessment Date is required"),
      FieldError("forest_type", "Forest Type is required"),
      FieldError("overall_health", "Overall Forest Health is required")])
  {
    ForestHealthFields();
    var g, c, h, n := GeneralSection.fields, CharacteristicsSection.fields, HealthSection.fields, NotesSection.fields;
    EmptyGeneralSection();
    EmptyCharacteristicsSection();
    EmptyHealthSection();
    EmptyNotesSection();
    CollectErrorsAppend(map[], h, n);
    CollectErrorsAppend(map[], c, h + n);
    CollectErrorsAppend(map[], g, c + (h + n));
    assert g + c + h + n == g + (c + (h + n));
  }
}
