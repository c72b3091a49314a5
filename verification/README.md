# Forest assessment forms — a Dafny model

This project models the logic core of a small React Native field app for
forest and culvert assessments:

- the **form store** (`saveFormToStorage`, `loadAllForms`, `loadFormById`,
  `deleteForm`): assessment records kept in the device's key-value storage
  under `form_` keys;
- the **required-field validator** (`validateForm`);
- the **template registry** (`FIELD_TYPES`, the forest-health template,
  `getFormTemplates`, `getFormTemplate`);
- the culvert screen's **stream-width list editor** (initial list, add,
  remove, update by id);
- the new-assessment screen's **save and clear** (trimmed inputs, the
  blank-title check, the record it writes);
- the generic form field's **number sanitiser** and **toggle caption**.

The model is functional throughout:

- The storage is a `map<string, Record>`. A record is a JavaScript object
  modelled as `map<string, Value>`. `Value` covers `undefined`, `null`,
  booleans, numbers, strings and arrays, with JavaScript truthiness.
- Writing a record with `JSON.stringify` and reading it back with
  `JSON.parse` is the function `JsValues.JsonObject`. It drops every
  property that holds `undefined`, and an `undefined` inside an array comes
  back as `null`.
- The clock is a parameter `now`, in milliseconds. Timestamps are integers
  rather than ISO strings.
- The order in which the storage reports its keys is a parameter too. It
  can be any duplicate-free enumeration of the store's keys, and
  `FormStore.EnumerationExists` shows one always exists.
- The spread `{id: key, ...form}` is map union with the record's own
  fields winning.
- `Array.prototype.sort` is modelled as a stable insertion sort, as the
  language guarantees.
- `String.prototype.trim` removes ECMAScript white space and line
  terminators.

Modules, one per file:

- `Basics` (basics.dfy): the `Option` and `Result` types.
- `Seqs` (seqs.dfy): filter, subsequence, and the stable descending sort.
- `JsValues` (js_values.dfy): JavaScript values and truthiness.
- `JsStrings` (js_strings.dfy): trim, `startsWith`, decimal rendering.
- `FormConfig` (form_config.dfy): the template registry.
- `FormValidation` (form_validation.dfy): the validator.
- `FormStore` (form_store.dfy): the store.
- `StreamWidths` (stream_widths.dfy): the stream-width list editor.
- `NewForm` (new_form.dfy) and `NewFormProperties`
  (new_form_properties.dfy): the new-assessment screen.
- `FormField` (form_field.dfy): the number sanitiser and toggle caption.

Three behaviours of the code worth knowing:

- A stored record that fails to parse aborts the whole `loadAllForms`
  (utils/formUtils.js:57, 71-74); it is not skipped. Parse failures are
  not modelled (see Left out).
- `saveFormToStorage` keeps `createdAt` only when it is truthy; a present
  but falsy one (0, '', null, false) is replaced by now
  (utils/formUtils.js:21).
- The new-assessment screen writes its record itself, without `updatedAt`
  (screens/forms/NewFormScreen.js:37-50).

## Model

| member | source | states |
|---|---|---|
| FormConfig.ParseFieldType | config/formConfig.js:11-21 | Reading a type string back yields a field type whose string is that text; anything outside the nine FIELD_TYPES strings is rejected |
| FormConfig.FieldTypeNameRoundTrip | config/formConfig.js:11-21 | The nine type strings are pairwise distinct: every field type survives writing out and reading back |
| FormConfig.GetFormTemplates | config/formConfig.js:201-206 | The catalogue is exactly one template, the forest-health template |
| FormConfig.FindTemplate | config/formConfig.js:216 | Not found exactly when no template has the id; otherwise the result is the first template with that id |
| FormConfig.GetFormTemplate | config/formConfig.js:214-217 | Looking up "forest_health" yields the forest-health template and every other id yields nothing |
| FormConfig.ForestHealthFields | config/formConfig.js:31-193 | The template's flattened fields are the general, characteristics, health and notes sections' fields, in that order |
| FormConfig.GeneralWellFormed | config/formConfig.js:32-70 | In the general section, options appear only on choice fields, every id equals its name, and no field has bounds |
| FormConfig.CharacteristicsWellFormed | config/formConfig.js:71-125 | The same for the characteristics section; canopy_cover alone has bounds, which are 0 and 100 |
| FormConfig.HealthAndNotesWellFormed | config/formConfig.js:126-192 | The same for the health and notes sections |
| FormConfig.ForestHealthFieldsWellFormed | config/formConfig.js:36-192 | Every template field: options exactly on select and multiselect fields, id equal to name, and bounds only on canopy_cover, with 0 ≤ 100 |
| FormConfig.GeneralNames | config/formConfig.js:36-69 | The general section's field names are title, location, date, hasPhotos |
| FormConfig.CharacteristicsNames | config/formConfig.js:75-124 | The characteristics section's names are forest_type, dominant_species, average_age, canopy_cover |
| FormConfig.HealthNames | config/formConfig.js:130-176 | The health section's names are overall_health, observed_issues, regeneration |
| FormConfig.NotesNames | config/formConfig.js:182-191 | The notes section's only name is notes |
| FormConfig.ForestHealthNames | config/formConfig.js:36-192 | The template's field names, in order, are the twelve names above |
| FormConfig.NameListDistinct | config/formConfig.js:37-190 | Those twelve names are pairwise distinct |
| FormConfig.ForestHealthNamesDistinct | config/formConfig.js:37-190 | No two fields of the template share a name |
| FormConfig.GeneralRequired | config/formConfig.js:42-66 | The general section requires title and date |
| FormConfig.CharacteristicsRequired | config/formConfig.js:81-119 | The characteristics section requires only forest_type |
| FormConfig.HealthAndNotesRequired | config/formConfig.js:136-188 | The health section requires only overall_health; the notes section requires nothing |
| FormConfig.ForestHealthRequiredFields | config/formConfig.js:42-188 | The template's required fields, in declaration order, are title, date, forest_type and overall_health |
| FormValidation.CollectErrors | utils/formUtils.js:127-139 | The pass over the definitions never reports more errors than there are fields |
| FormValidation.ValidateForm | utils/formUtils.js:123-145 | isValid holds exactly when the error list is empty, and the errors are no more than the fields |
| FormValidation.FlaggedFrom | utils/formUtils.js:127-136 | Reference definition: the increasing positions of exactly the required fields whose value is undefined, null or '' |
| FormValidation.CollectErrorsFrom | utils/formUtils.js:127-139 | From any starting position, the errors collected are those of the flagged positions, in order |
| FormValidation.ValidateFormErrors | utils/formUtils.js:123-145 | One error per required blank field, for no other field, in declaration order, each reading "<label or name> is required" |
| FormValidation.ValidIffNoMissingRequired | utils/formUtils.js:127-144 | The form is valid exactly when no required field is undefined, null or '' |
| FormValidation.CollectErrorsAppend | utils/formUtils.js:127-139 | Validating two definition lists back to back reports the first list's errors and then the second's |
| FormValidation.EmptyGeneralSection | utils/formUtils.js:131-135 | An empty form fails the general section with "Assessment Title is required" and then "Assessment Date is required" |
| FormValidation.GeneralSectionErrors | utils/formUtils.js:132-135 | The general section's required fields report under their labels |
| FormValidation.EmptyCharacteristicsSection | utils/formUtils.js:131-135 | An empty form fails the characteristics section with "Forest Type is required" only |
| FormValidation.ForestTypeError | utils/formUtils.js:132-135 | forest_type reports under its label |
| FormValidation.EmptyHealthSection | utils/formUtils.js:131-135 | An empty form fails the health section with "Overall Forest Health is required" only |
| FormValidation.OverallHealthError | utils/formUtils.js:132-135 | overall_health reports under its label |
| FormValidation.EmptyNotesSection | utils/formUtils.js:131-135 | The notes section has no required field, so an empty form passes it |
| FormValidation.EmptyForestHealthForm | utils/formUtils.js:123-145 | An empty form fails the whole template with exactly the four required-field errors, in declaration order |
| JsValues.JsonElement | utils/formUtils.js:26 | A value written as JSON and read back carries no undefined; a value JSON can carry comes back unchanged; arrays stay arrays |
| JsValues.JsonObject | utils/formUtils.js:26 | An object written as JSON and read back keeps exactly its properties that do not hold undefined, carries no undefined, and keeps every value JSON can carry |
| JsValues.JsonObjectKeepsJson | utils/formUtils.js:26 | An object JSON can carry survives the round trip unchanged |
| JsValues.JsonObjectIdempotent | utils/formUtils.js:26 | A second round trip changes nothing |
| FormStore.FormKey | utils/formUtils.js:16 | A generated key always starts with "form_" |
| FormStore.FormKeyInjective | utils/formUtils.js:16 | Saves at different milliseconds get different keys |
| FormStore.SaveFormToStorage | utils/formUtils.js:13-33 | Fails exactly for a truthy non-string id. Otherwise: the key is the truthy id or "form_<now>"; it is added to the store and no other entry changes; the written record is JSON-clean, drops the fields holding undefined, keeps every other field, keeps a truthy createdAt (else now), and sets updatedAt to now |
| FormStore.WrittenIsStamped | utils/formUtils.js:19-26 | The stamped record after the JSON round trip: defined fields kept, undefined ones gone, createdAt kept when truthy (else now), updatedAt now |
| FormStore.Tag | utils/formUtils.js:58-61 | The tagged record has the form's fields plus id; its id is the stored id when there is one, else the key |
| FormStore.LoadFormById | utils/formUtils.js:83-98 | Nothing exactly when the key is absent; otherwise the stored record tagged with the key |
| FormStore.DeleteForm | utils/formUtils.js:106-114 | Always reports success, removes exactly that key, and leaves every other entry as it was |
| FormStore.DeleteIdempotent | utils/formUtils.js:106-109 | Deleting twice is the same as deleting once |
| FormStore.LoadAfterDelete | utils/formUtils.js:83-114 | After deleting a key, loading it yields nothing |
| FormStore.SaveThenLoad | utils/formUtils.js:13-98 | Loading what was saved gives the caller's fields that do not hold undefined, plus the stamps, plus an id that is the key unless the record had a defined id of its own |
| FormStore.LoadStamped | utils/formUtils.js:19-26 | Tagging a record written by a save with its key yields the fields of SaveThenLoad |
| FormStore.ResaveKeepsIdentity | utils/formUtils.js:13-98 | Saving a stored form again after loading it keeps its key and creation time; the record written back is the stored one with updatedAt moved to now and with id: key, which the load added, stored in it too, so later re-saves only move updatedAt |
| FormStore.ResavedRecord | utils/formUtils.js:16-26 | A loaded record (tagged with its key) is saved under that key, as the stored record plus id: key and the new updatedAt |
| FormStore.FalsyIdShadowsKey | utils/formUtils.js:16-91 | An id that is present, falsy and not undefined (such as '' or null) is saved under a fresh key yet loads back with the falsy id, not the key |
| FormStore.UndefinedIdLoadsKey | utils/formUtils.js:16-91 | An id that holds undefined is dropped by JSON, so the record loads back with its fresh "form_" key as its id |
| FormStore.SameMillisecondOverwrites | utils/formUtils.js:16-26 | Two id-less saves in the same millisecond use the same key, and the second replaces the first |
| FormStore.EnumerationExists | utils/formUtils.js:43 | Every store has a duplicate-free enumeration of its keys, so the key-order parameter can always be supplied |
| FormStore.TagAll | utils/formUtils.js:54-64 | Each key is paired, position by position, with its stored record tagged with that key |
| FormStore.CreatedAt | utils/formUtils.js:70 | The sort key `new Date(createdAt)`: a number is itself, true is 1 ms, null and false are 0 |
| FormStore.CreatedAtOfWritten | utils/formUtils.js:19-26 | A freshly saved record sorts at now, unless it kept a truthy createdAt of its own, which sorts as before |
| FormStore.LoadAllForms | utils/formUtils.js:40-75 | Empty exactly when no key starts with "form_"; one record per form key; newest createdAt first; and a permutation of the tagged form records |
| FormStore.LoadAllFormsIsStable | utils/formUtils.js:68-70 | Records with equal createdAt keep the order in which their keys were enumerated |
| FormStore.TagAllMembers | utils/formUtils.js:54-64 | A record is among the tagged records exactly when it is the tag of one of the keys |
| FormStore.ListedIffUnsorted | utils/formUtils.js:68-70 | Sorting neither adds nor drops a record |
| FormStore.LoadAllFormsMembers | utils/formUtils.js:40-75 | A record is listed exactly when it is the tagged record of some "form_" key in the store |
| FormStore.SavedFormIsListed | utils/formUtils.js:13-70 | A form saved without an id (or with an undefined one) is listed afterwards, stamped, through JSON, and tagged with its "form_" key |
| FormStore.ForeignIdIsNotListed | utils/formUtils.js:16-46 | A form saved under its own id that lacks the "form_" prefix is stored but never listed |
| Seqs.Filter | utils/formUtils.js:46 | Keeps exactly the elements that pass, and is never longer than its input |
| Seqs.FilterCounts | utils/formUtils.js:46 | Every passing element keeps all of its occurrences |
| Seqs.FilterFixedPoint | screens/culvert/InputScreen.js:69 | Filtering changes nothing exactly when every element passes |
| Seqs.FilterAppend | components/forms/FormField.js:46 | Filtering a concatenation filters each part |
| Seqs.FilterIsSubsequence | screens/culvert/InputScreen.js:69 | What a filter keeps is a subsequence of its input |
| Seqs.InsertDescending | utils/formUtils.js:70 | Inserting into a descending list keeps it descending and adds exactly that element |
| Seqs.SortDescending | utils/formUtils.js:70 | The result is descending by key and is a permutation of the input |
| Seqs.SortDescendingIsStable | utils/formUtils.js:70 | Elements with equal keys keep their relative order |
| JsStrings.Trim | screens/forms/NewFormScreen.js:31-40 | Neither end of the result is white space, and the result is empty exactly when the input is all white space |
| JsStrings.TrimKeepsInside | screens/forms/NewFormScreen.js:38-40 | The result is a contiguous piece of the input, with only white space cut from either side |
| JsStrings.TrimOfTrimmed | screens/forms/NewFormScreen.js:38-40 | A string with no white space at either end is unchanged by trim |
| JsStrings.TrimIdempotent | screens/forms/NewFormScreen.js:38-40 | Trimming twice is the same as trimming once |
| JsStrings.DecimalString | screens/forms/NewFormScreen.js:47 | The decimal rendering of a count is non-empty, all digits, and has no leading zero; it has two or more digits exactly from 10 upwards |
| JsStrings.DecimalStringValue | utils/formUtils.js:16 | Reading the digits of the rendering back gives the number rendered |
| JsStrings.DecimalStringInjective | utils/formUtils.js:16 | Distinct counts render as distinct strings |
| StreamWidths.MaxId | screens/culvert/InputScreen.js:61 | The result is at least every id and equals one of them |
| StreamWidths.NextId | screens/culvert/InputScreen.js:60-62 | The fresh id is above every existing id; it is 1 for an empty list and otherwise the largest id plus one |
| StreamWidths.AddStreamWidth | screens/culvert/InputScreen.js:59-64 | Appends one entry with an empty value and the id NextId (largest id plus one, or 1 for an empty list), which is above all others; earlier entries are untouched |
| StreamWidths.RemoveStreamWidth | screens/culvert/InputScreen.js:67-71 | A list of one (or none) is left alone; otherwise exactly the entries with other ids remain, each as many times as before, in order; an unknown id changes nothing |
| StreamWidths.UpdateStreamWidth | screens/culvert/InputScreen.js:74-80 | Length, order and ids stay; matching entries take the new value and all others are unchanged |
| StreamWidths.InitialIsValid | screens/culvert/InputScreen.js:25 | The initial list is non-empty with distinct ids |
| StreamWidths.SubsequenceKeepsUniqueIds | screens/culvert/InputScreen.js:69 | Any subsequence of a list with distinct ids has distinct ids |
| StreamWidths.RemoveDropsAtMostOne | screens/culvert/InputScreen.js:69 | With distinct ids, removal drops at most one entry |
| StreamWidths.AddKeepsValid | screens/culvert/InputScreen.js:59-64 | Adding keeps the list non-empty with distinct ids |
| StreamWidths.RemoveKeepsValid | screens/culvert/InputScreen.js:67-71 | Removing keeps the list non-empty with distinct ids |
| StreamWidths.UpdateKeepsValid | screens/culvert/InputScreen.js:74-80 | Updating keeps the list non-empty with distinct ids |
| StreamWidths.EditsKeepValid | screens/culvert/InputScreen.js:59-80 | Any sequence of adds, removes and updates keeps a valid list valid |
| StreamWidths.ReachableListsAreValid | screens/culvert/InputScreen.js:25-80 | Every list the screen can reach from its initial state is non-empty with distinct ids |
| StreamWidths.RemoveCanEmptyWithDuplicateIds | screens/culvert/InputScreen.js:68-69 | The guard counts entries, not ids: two entries sharing an id are both removed and the list becomes empty |
| NewForm.NewRecord | screens/forms/NewFormScreen.js:37-44 | The record has exactly the keys title, location, notes, createdAt and fields: the three trimmed inputs, createdAt now, and fields the empty list |
| NewForm.ClearForm | screens/forms/NewFormScreen.js:89-93 | Once confirmed, clearing empties the title, location and notes inputs |
| NewForm.SaveForm | screens/forms/NewFormScreen.js:28-75 | Refused, with store and inputs untouched, exactly when the title is all white space; otherwise the record, which JSON leaves unchanged, is written under "form_<now>", nothing else changes, and the inputs are reset |
| NewForm.AssessmentRecordSurvivesJson | screens/forms/NewFormScreen.js:37-50 | The screen's record holds nothing JSON drops, so it reads back exactly as written |
| NewFormProperties.NewRecordIsTrimmed | screens/forms/NewFormScreen.js:37-44 | The stored title, location and notes are the trimmed inputs, so no white space is left at either end, and fields is the empty list |
| NewFormProperties.NewRecordKeys | screens/forms/NewFormScreen.js:37-44 | The record has exactly title, location, notes, createdAt and fields, so neither id nor updatedAt |
| NewFormProperties.WrittenRecord | screens/forms/NewFormScreen.js:31-50 | A successful save writes exactly the new record |
| NewFormProperties.SavedTitleNotEmpty | screens/forms/NewFormScreen.js:31-38 | A saved record's title is never the empty string |
| NewFormProperties.SavedAssessmentIsListed | screens/forms/NewFormScreen.js:47-50 | The saved assessment loads back by its key and is listed with id equal to that key |
| NewFormProperties.RecordStamp | screens/forms/NewFormScreen.js:41 | A record built at now has no id, and stamping it at now only adds updatedAt |
| NewFormProperties.StampOfNewRecord | screens/forms/NewFormScreen.js:37-44 | The screen's record has no id, and stamping it only adds updatedAt |
| NewFormProperties.ScreenSaveAgreesWithStoreSave | screens/forms/NewFormScreen.js:37-50 | Saving through saveFormToStorage would use the same key and store the same record, plus updatedAt |
| NewFormProperties.SaveWithoutId | utils/formUtils.js:16-26 | A record without id is saved, stamped and through JSON, under the fresh key |
| NewFormProperties.RecordWritten | utils/formUtils.js:19-26 | saveFormToStorage would write the screen's record as itself plus updatedAt: the stamp keeps its createdAt and JSON drops nothing |
| NewFormProperties.ClearedFormIsRejected | screens/forms/NewFormScreen.js:80-97 | Clearing empties all three inputs, after which a save is refused and writes nothing |
| FormField.SanitizeNumber | components/forms/FormField.js:44-47 | Only digits and dots remain; every digit and dot of the input is kept, as often as it occurs; the text never grows |
| FormField.SanitizeNumberKeepsOrder | components/forms/FormField.js:46 | The output is a subsequence of the input |
| FormField.SanitizeNumberFixedPoints | components/forms/FormField.js:46 | Text is unchanged exactly when it is all digits and dots; the sanitiser is idempotent |
| FormField.DotAlwaysKept | components/forms/FormField.js:46 | A dot typed after any text survives, so nothing limits the number of decimal points |
| FormField.ToggleCaption | components/forms/FormField.js:74-81 | The caption is "Yes" or "No", and "Yes" exactly when the switch is on (the value is truthy) |
| FormField.ToggleCaptionExamples | components/forms/FormField.js:79-81 | 0, '', undefined and null read as "No"; an empty list and the string "false" read as "Yes" |

## Left out

- Asynchrony and error propagation: the `async` calls, `Promise.all`, and
  the `try`/`catch` blocks that log and rethrow. A storage failure is not
  modelled; the only failure is the non-string id below.
- JSON text itself. The store holds records as `JSON.parse` returns them,
  and only the round trip's effect on values is modelled. A stored text
  that fails to parse (which aborts the whole `loadAllForms`) is not
  modelled. The `jsonValue != null` check cannot fail for a key just
  enumerated unless the store changes concurrently, which is not modelled.
- Value kinds: non-integer numbers, `NaN`, infinities, nested objects and
  functions have no `Value`. Form data in the modelled code holds none of
  them except the ISO date strings, which are modelled as millisecond
  numbers (see the clock below).
- The clock: `Date.now()` and `new Date().toISOString()` become the
  parameter `now`. Timestamps are integers and `createdAt` is a number, so
  date parsing is not modelled. One `now` stands for every clock read of
  a call: utils/formUtils.js:16, 21 and 22 read the clock up to three
  times, and screens/forms/NewFormScreen.js:41 and 47 twice. So the
  fresh `createdAt == updatedAt` of `FormStore.SaveThenLoad`,
  `NewFormProperties.RecordStamp` and `NewFormProperties.RecordWritten`
  holds only when those reads fall in the same millisecond. Timestamps are
  also taken to be positive. Every ISO string the code stores is truthy,
  but `Num(0)` is falsy, so a record created at millisecond 0 would, in
  the model alone, have its `createdAt` replaced on re-save.
- FormStore.LoadAllForms: the sort key is `new Date(createdAt)` in
  milliseconds. The model takes a number as itself, `null` and `false` as
  0 and `true` as 1, as the code does. It takes every other value as 0:
  strings, arrays and `undefined`. In the code those are parsed as date
  text or give NaN, and for NaN the engine's order is
  implementation-defined.
- FormStore.SaveFormToStorage: a truthy `id` that is not a string is
  modelled as a failure, standing in for the storage provider rejecting a
  non-string key.
- JsStrings.DecimalString: renders every non-negative integer in plain
  decimal. JavaScript switches to exponent notation from 10^21, far beyond
  any real millisecond clock.
- Property lookup follows own fields only. `formData[field.name]` would
  also see inherited properties such as `constructor`.
- FormConfig.ForestHealthFields: the date field's `defaultValue` (today's
  date) depends on the clock, so the model leaves it unset.
- A field's `type` is one of the nine field types by construction, through
  the `FieldType` datatype, rather than by a lemma.
- The value shown in a number field (`value?.toString()`), and every
  render, style, alert and navigation call.
- The alert before clearing. `NewForm.ClearForm` is the confirmed branch;
  cancelling changes nothing.
- On the culvert screen: location and GPS permission, coordinate
  formatting, and `handleNext`, which only navigates back. The other
  screens and navigators are left out.
