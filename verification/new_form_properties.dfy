/** What the new-assessment screen's save and clear guarantee, and how its
    save relates to the store's own saveFormToStorage and loaders. */
module NewFormProperties {
  import opened Basics
  import opened JsValues
  import opened JsStrings
  import opened FormStore
  import opened NewForm

  /** The fields of an `AssessmentRecord`. */
  lemma RecordKeys(title: string, location: string, notes: string, now: nat)
    ensures AssessmentRecord(title, location, notes, now).Keys == {"title", "location", "notes", "createdAt", "fields"}
    ensures "id" !in AssessmentRecord(title, location, notes, now)
    ensures "updatedAt" !in AssessmentRecord(title, location, notes, now)
  {
  }

  /** The values of an `AssessmentRecord`'s text fields. */
  lemma RecordTexts(title: string, location: string, notes: string, now: nat)
    ensures var rec := AssessmentRecord(title, location, notes, now);
      rec["title"] == Str(title) && rec["location"] == Str(location) && rec["notes"] == Str(notes)
      && rec["fields"] == Arr([])
  {
  }

  /** An `AssessmentRecord` already carries `createdAt: now`, so stamping it
      at `now` only adds `updatedAt`. */
  lemma RecordStamp(title: string, location: string, notes: string, now: nat)
    ensures var rec := AssessmentRecord(title, location, notes, now);
      Get(rec, "id") == Undefined && Stamp(rec, now) == rec["updatedAt" := Num(now)]
  {
    var rec := AssessmentRecord(title, location, notes, now);
    RecordKeys(title, location, notes, now);
    assert rec["createdAt"] == Num(now);
    assert rec["createdAt" := Num(now)] == rec;
  }

  /** The record stores each input with the white space at both ends
      removed, and an empty `fields` list. */
  lemma NewRecordIsTrimmed(inputs: Inputs, now: nat)
    ensures var rec := NewRecord(inputs, now);
      IsTrimmedString(rec["title"]) && IsTrimmedString(rec["location"]) && IsTrimmedString(rec["notes"])
    ensures var rec := NewRecord(inputs, now);
      && rec["title"] == Str(Trim(inputs.title))
      && rec["location"] == Str(Trim(inputs.location))
      && rec["notes"] == Str(Trim(inputs.notes))
      && rec["fields"] == Arr([])
  {
    RecordTexts(Trim(inputs.title), Trim(inputs.location), Trim(inputs.notes), now);
  }

  /** Those five fields are all it has: in particular neither `id` nor
      `updatedAt`. */
  lemma NewRecordKeys(inputs: Inputs, now: nat)
    ensures NewRecord(inputs, now).Keys == {"title", "location", "notes", "createdAt", "fields"}
    ensures "id" !in NewRecord(inputs, now) && "updatedAt" !in NewRecord(inputs, now)
  {
    RecordKeys(Trim(inputs.title), Trim(inputs.location), Trim(inputs.notes), now);
  }

  /** A successful save writes exactly that record, with a non-empty title. */
  lemma WrittenRecord(inputs: Inputs, store: Store, now: nat)
    requires !AllWhiteSpace(inputs.title)
    ensures SaveForm(inputs, store, now).store[FormKey(now)] == NewRecord(inputs, now)
  {
  }

  /** A saved record's title is never the empty string. */
  lemma SavedTitleNotEmpty(inputs: Inputs, now: nat)
    requires !AllWhiteSpace(inputs.title)
    ensures NewRecord(inputs, now)["title"] != Str("")
  {
    RecordTexts(Trim(inputs.title), Trim(inputs.location), Trim(inputs.notes), now);
  }

  /** The saved assessment loads back, and is listed, with `id` equal to the
      key it was written under. */
  lemma SavedAssessmentIsListed(inputs: Inputs, store: Store, now: nat, keys: seq<string>)
    requires !AllWhiteSpace(inputs.title)
    requires EnumeratesKeys(keys, store[FormKey(now) := NewRecord(inputs, now)])
    ensures var after := SaveForm(inputs, store, now).store;
      && LoadFormById(after, FormKey(now)) == Some(Tag(FormKey(now), NewRecord(inputs, now)))
      && Tag(FormKey(now), NewRecord(inputs, now))["id"] == Str(FormKey(now))
      && Tag(FormKey(now), NewRecord(inputs, now)) in LoadAllForms(after, keys)
  {
    var after := SaveForm(inputs, store, now).store;
    var key := FormKey(now);
    var rec := NewRecord(inputs, now);
    NewRecordKeys(inputs, now);
    assert after[key] == rec;
    assert key in after && IsFormKey(key);
    LoadAllFormsMembers(after, keys, Tag(key, rec));
  }

  /** Stamping the screen's record only adds `updatedAt`: its `createdAt`
      is already the current time. */
  lemma StampOfNewRecord(inputs: Inputs, now: nat)
    ensures Get(NewRecord(inputs, now), "id") == Undefined
    ensures Stamp(NewRecord(inputs, now), now) == NewRecord(inputs, now)["updatedAt" := Num(now)]
  {
    RecordStamp(Trim(inputs.title), Trim(inputs.location), Trim(inputs.notes), now);
  }

  /** The screen writes directly rather than through saveFormToStorage; the
      two agree on the key and on every field except `updatedAt`, which only
      saveFormToStorage adds. */
  lemma ScreenSaveAgreesWithStoreSave(inputs: Inputs, store: Store, now: nat)
    requires !AllWhiteSpace(inputs.title)
    ensures var rec := NewRecord(inputs, now);
      && SaveFormToStorage(store, rec, now)
           == Success(Saved(SaveForm(inputs, store, now).store[FormKey(now) := rec["updatedAt" := Num(now)]], FormKey(now)))
  {
    var rec := NewRecord(inputs, now);
    var key := FormKey(now);
    var stamped := rec["updatedAt" := Num(now)];
    RecordWritten(Trim(inputs.title), Trim(inputs.location), Trim(inputs.notes), now);
    StampOfNewRecord(inputs, now);
    SaveWithoutId(store, rec, stamped, now);
    OverwrittenWrite(store, key, rec, stamped);
  }

  /** saveFormToStorage would write an `AssessmentRecord` as itself plus
      `updatedAt`: the stamp keeps `createdAt`, and JSON drops nothing. */
  lemma RecordWritten(title: string, location: string, notes: string, now: nat)
    ensures var rec := AssessmentRecord(title, location, notes, now);
      Written(rec, now) == rec["updatedAt" := Num(now)]
  {
    var rec := AssessmentRecord(title, location, notes, now);
    var stamped := rec["updatedAt" := Num(now)];
    RecordStamp(title, location, notes, now);
    AssessmentRecordSurvivesJson(title, location, notes, now);
    assert IsJsonObject(rec);
    assert IsJsonObject(stamped);
    JsonObjectKeepsJson(stamped);
  }

  /** A second write to the same key hides the first. */
  lemma OverwrittenWrite(store: Store, key: string, first: Record, second: Record)
    ensures store[key := first][key := second] == store[key := second]
  {
  }

  /** saveFormToStorage on a record with no `id` writes it, stamped and as
      JSON reads it back, under the fresh key. */
  lemma SaveWithoutId(store: Store, rec: Record, stored: Record, now: nat)
    requires Get(rec, "id") == Undefined && Written(rec, now) == stored
    ensures SaveFormToStorage(store, rec, now) == Success(Saved(store[FormKey(now) := stored], FormKey(now)))
  {
    assert ChooseId(rec, now) == Success(FormKey(now));
  }

  /** After clearing, saving is refused and nothing is written. */
  lemma ClearedFormIsRejected(inputs: Inputs, store: Store, now: nat)
    ensures ClearForm(inputs) == BlankInputs
    ensures SaveForm(ClearForm(inputs), store, now) == SaveResult(store, None, BlankInputs)
  {
  }
}
