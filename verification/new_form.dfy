/** The new-assessment screen: three text inputs, a save that refuses a
    blank title and otherwise writes a fresh record under a "form_" key, and
    a clear that empties the inputs. */
module NewForm {
  import opened Basics
  import opened JsValues
  import opened JsStrings
  import opened FormStore

  /** The screen's input state: title, location and notes. */
  datatype Inputs = Inputs(title: string, location: string, notes: string)

  const BlankInputs := Inputs("", "", "")

  /** The record `saveForm` builds: trimmed inputs, the creation time, and an
      empty `fields` list. No `id` and no `updatedAt`. */
  function NewRecord(inputs: Inputs, now: nat): (r: Record)
    ensures r.Keys == {"title", "location", "notes", "createdAt", "fields"}
    ensures r["title"] == Str(Trim(inputs.title))
    ensures r["location"] == Str(Trim(inputs.location))
    ensures r["notes"] == Str(Trim(inputs.notes))
    ensures r["createdAt"] == Num(now) && r["fields"] == Arr([])
  {
    AssessmentRecord(Trim(inputs.title), Trim(inputs.location), Trim(inputs.notes), now)
  }

  /** The record shape, given the already-trimmed strings. */
  function AssessmentRecord(title: string, location: string, notes: string, now: nat): (r: Record)
    ensures r.Keys == {"title", "location", "notes", "createdAt", "fields"}
    ensures r["title"] == Str(title) && r["location"] == Str(location) && r["notes"] == Str(notes)
    ensures r["createdAt"] == Num(now) && r["fields"] == Arr([])
  {
    map[
      "title" := Str(title),
      "location" := Str(location),
      "notes" := Str(notes),
      "createdAt" := Num(now),
      "fields" := Arr([])]
  }

  /** The record holds nothing JSON cannot carry, so writing it as JSON text
      and reading it back gives it unchanged. */
  lemma AssessmentRecordSurvivesJson(title: string, location: string, notes: string, now: nat)
    ensures JsonObject(AssessmentRecord(title, location, notes, now)) == AssessmentRecord(title, location, notes, now)
  {
    var rec := AssessmentRecord(title, location, notes, now);
    assert rec["fields"] == Arr([]);
    assert IsJsonObject(rec);
    JsonObjectKeepsJson(rec);
  }

  /** The store after `saveForm`, the key written (if any), and the inputs
      once the user has dismissed the alert that follows. */
  datatype SaveResult = SaveResult(store: Store, written: Option<string>, inputs: Inputs)

  /** saveForm: a title that is empty after trimming is refused and nothing is
      written; otherwise the record, as JSON, goes under `form_${now}` and
      acknowledging the success alert resets the inputs. */
  function SaveForm(inputs: Inputs, store: Store, now: nat): (r: SaveResult)
    ensures r.written.None? <==> AllWhiteSpace(inputs.title)
    ensures r.written.None? ==> r.store == store && r.inputs == inputs
    ensures r.written.Some? ==>
      && r.written.value == FormKey(now)
      && r.store == store[FormKey(now) := NewRecord(inputs, now)]
      && r.inputs == BlankInputs
  {
    var title := Trim(inputs.title);
    assert title == "" <==> AllWhiteSpace(inputs.title);
    if title == "" then SaveResult(store, None, inputs)
    else
      var key := FormKey(now);
      AssessmentRecordSurvivesJson(Trim(inputs.title), Trim(inputs.location), Trim(inputs.notes), now);
      SaveResult(store[key := JsonObject(NewRecord(inputs, now))], Some(key), BlankInputs)
  }

  /** clearForm (once confirmed): all three inputs become empty. */
  function ClearForm(inputs: Inputs): (r: Inputs)
    ensures r.title == "" && r.location == "" && r.notes == ""
  {
    BlankInputs
  }

  /** A string value with no white space left at either end. */
  predicate IsTrimmedString(v: Value) {
    v.Str? && Trimmed(v.s)
  }
}
