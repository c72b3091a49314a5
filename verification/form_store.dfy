/** The form store: assessment records kept in a key-value store under
    "form_" keys, with save, list-newest-first, load-by-id and delete. The
    device storage is a map; the clock is the `now` parameter. */
module FormStore {
  import opened Basics
  import opened Seqs
  import opened JsValues
  import opened JsStrings

  /** A record: a flat object of form data. The stored ones are parsed back
      from JSON text, so they satisfy `IsJsonObject`. */
  type Record = Object

  /** The device's key-value storage. */
  type Store = map<string, Record>

  const FormPrefix := "form_"

  /** Keys that name form records (`key.startsWith('form_')`). */
  predicate IsFormKey(key: string) {
    StartsWith(key, FormPrefix)
  }

  /** The key generated for a save at millisecond `now`: `form_${Date.now()}`. */
  function FormKey(now: nat): (key: string)
    ensures IsFormKey(key)
  {
    FormPrefix + DecimalString(now)
  }

  /** Saves at different milliseconds get different keys. */
  lemma FormKeyInjective(a: nat, b: nat)
    requires FormKey(a) == FormKey(b)
    ensures a == b
  {
    assert FormKey(a)[|FormPrefix|..] == DecimalString(a);
    assert FormKey(b)[|FormPrefix|..] == DecimalString(b);
    DecimalStringInjective(a, b);
  }

  /** The storage provider only takes string keys; a truthy `id` of another
      type cannot be written. */
  datatype SaveError = NonStringId(id: Value)

  datatype Saved = Saved(store: Store, id: string)

  /** `formData.id || form_${now}`. */
  function ChooseId(formData: Record, now: nat): Result<string, SaveError> {
    var id := Get(formData, "id");
    if !Truthy(id) then Success(FormKey(now))
    else if id.Str? then Success(id.s)
    else Failure(NonStringId(id))
  }

  /** `{...formData, createdAt: formData.createdAt || now, updatedAt: now}`. */
  function Stamp(formData: Record, now: nat): Record {
    formData["createdAt" := Or(Get(formData, "createdAt"), Num(now))]["updatedAt" := Num(now)]
  }

  /** What the store holds after `setItem(key, JSON.stringify(dataToSave))`:
      the stamped record as its JSON text reads back. */
  function Written(formData: Record, now: nat): Record {
    JsonObject(Stamp(formData, now))
  }

  /** `record` is what storage holds once `formData`, stamped at `now`, has
      been through JSON: the fields that hold `undefined` are gone, every
      other field is kept (an `undefined` inside an array reading back as
      `null`), a truthy `createdAt` is kept and a missing or falsy one set to
      `now`, and `updatedAt` is set to `now`. */
  ghost predicate StampedAt(formData: Record, record: Record, now: nat) {
    && IsJsonObject(record)
    && record.Keys == DefinedKeys(formData) + {"createdAt", "updatedAt"}
    && record["updatedAt"] == Num(now)
    && record["createdAt"] == (if Truthy(Get(formData, "createdAt")) then JsonElement(formData["createdAt"]) else Num(now))
    && forall k :: k in formData && k != "createdAt" && k != "updatedAt" && formData[k] != Undefined ==>
         record[k] == JsonElement(formData[k])
  }

  /** The written record is the stamped one as JSON reads it back. */
  lemma WrittenIsStamped(formData: Record, now: nat)
    ensures StampedAt(formData, Written(formData, now), now)
  {
    var st := Stamp(formData, now);
    var w := Written(formData, now);
    assert st["updatedAt"] == Num(now);
    assert st["createdAt"] == Or(Get(formData, "createdAt"), Num(now));
    assert st["createdAt"] != Undefined;
    assert DefinedKeys(st) == DefinedKeys(formData) + {"createdAt", "updatedAt"};
    assert w["updatedAt"] == Num(now);
    forall k | k in formData && k != "createdAt" && k != "updatedAt" && formData[k] != Undefined
      ensures w[k] == JsonElement(formData[k])
    {
      assert st[k] == formData[k];
    }
  }

  /** saveFormToStorage: writes the stamped record, as JSON, under
      `formData.id`, or under a fresh "form_" key when the id is falsy, and
      returns that key. Every other entry of the store is left as it was. */
  function SaveFormToStorage(store: Store, formData: Record, now: nat): (r: Result<Saved, SaveError>)
    ensures r.Failure? <==> Truthy(Get(formData, "id")) && !Get(formData, "id").Str?
    ensures r.Success? ==> (if Truthy(Get(formData, "id")) then Str(r.value.id) == formData["id"] else r.value.id == FormKey(now))
    ensures r.Success? ==> r.value.store.Keys == store.Keys + {r.value.id}
    ensures r.Success? ==> forall k :: k in store && k != r.value.id ==> r.value.store[k] == store[k]
    ensures r.Success? ==> StampedAt(formData, r.value.store[r.value.id], now)
  {
    match ChooseId(formData, now)
    case Failure(e) => Failure(e)
    case Success(id) =>
      WrittenIsStamped(formData, now);
      Success(Saved(store[id := Written(formData, now)], id))
  }

  /** `{id: key, ...form}`: the record tagged with its key, where an `id`
      stored in the record itself wins because the spread comes second. */
  function Tag(key: string, form: Record): (r: Record)
    ensures r.Keys == form.Keys + {"id"}
    ensures r["id"] == if "id" in form then form["id"] else Str(key)
    ensures forall k :: k in form ==> r[k] == form[k]
  {
    map["id" := Str(key)] + form
  }

  /** loadFormById: the tagged record, or `None` (the app's `null`) when
      nothing is stored under that key. */
  function LoadFormById(store: Store, id: string): (r: Option<Record>)
    ensures r.None? <==> id !in store
    ensures r.Some? ==> r.value == Tag(id, store[id])
  {
    if id in store then Some(Tag(id, store[id])) else None
  }

  /** deleteForm: removes the key, reports success whether or not it was
      there, and leaves every other entry alone. */
  function DeleteForm(store: Store, id: string): (r: (Store, bool))
    ensures r.1
    ensures r.0.Keys == store.Keys - {id}
    ensures forall k :: k in r.0 ==> r.0[k] == store[k]
  {
    (store - {id}, true)
  }

  /** Deleting twice is the same as deleting once. */
  lemma DeleteIdempotent(store: Store, id: string)
    ensures DeleteForm(DeleteForm(store, id).0, id) == DeleteForm(store, id)
  {
    assert (store - {id}) - {id} == store - {id};
  }

  /** After a delete the form can no longer be loaded. */
  lemma LoadAfterDelete(store: Store, id: string)
    ensures LoadFormById(DeleteForm(store, id).0, id) == None
  {
  }

  /** Reading back what was just saved: the caller's fields that do not
      hold `undefined`, the stamps, and an `id` that is the key unless the
      record carried a defined `id` of its own. */
  lemma SaveThenLoad(store: Store, formData: Record, now: nat)
    requires SaveFormToStorage(store, formData, now).Success?
    ensures var saved := SaveFormToStorage(store, formData, now).value;
      && LoadFormById(saved.store, saved.id).Some?
      && var loaded := LoadFormById(saved.store, saved.id).value;
      && loaded.Keys == DefinedKeys(formData) + {"id", "createdAt", "updatedAt"}
      && loaded["id"] == (if Get(formData, "id") != Undefined then formData["id"] else Str(saved.id))
      && loaded["updatedAt"] == Num(now)
      && loaded["createdAt"] == (if Truthy(Get(formData, "createdAt")) then JsonElement(formData["createdAt"]) else Num(now))
      && forall k :: k in formData && k !in {"id", "createdAt", "updatedAt"} && formData[k] != Undefined ==>
           loaded[k] == JsonElement(formData[k])
  {
    var saved := SaveFormToStorage(store, formData, now).value;
    LoadStamped(formData, saved.store[saved.id], saved.id, now);
  }

  /** Tagging a record written by a save: the fields of `SaveThenLoad`. */
  lemma LoadStamped(formData: Record, record: Record, key: string, now: nat)
    requires StampedAt(formData, record, now)
    requires Get(formData, "id") != Undefined ==> !formData["id"].Arr?
    ensures var loaded := Tag(key, record);
      && loaded.Keys == DefinedKeys(formData) + {"id", "createdAt", "updatedAt"}
      && loaded["id"] == (if Get(formData, "id") != Undefined then formData["id"] else Str(key))
      && loaded["updatedAt"] == Num(now)
      && loaded["createdAt"] == (if Truthy(Get(formData, "createdAt")) then JsonElement(formData["createdAt"]) else Num(now))
      && forall k :: k in formData && k !in {"id", "createdAt", "updatedAt"} && formData[k] != Undefined ==>
           loaded[k] == JsonElement(formData[k])
  {
    var loaded := Tag(key, record);
    assert "id" in record <==> Get(formData, "id") != Undefined;
    if Get(formData, "id") != Undefined {
      assert record["id"] == JsonElement(formData["id"]) == formData["id"];
    }
    forall k | k in formData && k !in {"id", "createdAt", "updatedAt"} && formData[k] != Undefined
      ensures loaded[k] == JsonElement(formData[k])
    {
      assert k in record;
    }
  }

  /** Saving a loaded record again keeps its key and its creation time. The
      record written back is the stored one with `updatedAt` moved to `now`
      and with `id: key`, which the load added, now stored in it too; from
      then on it already carries that id, so further re-saves only move
      `updatedAt`. */
  lemma ResaveKeepsIdentity(store: Store, key: string, now: nat)
    requires key in store && IsFormKey(key) && IsJsonObject(store[key])
    requires "id" !in store[key] || store[key]["id"] == Str(key)
    requires Truthy(Get(store[key], "createdAt"))
    ensures var loaded := LoadFormById(store, key).value;
      && SaveFormToStorage(store, loaded, now).Success?
      && var saved := SaveFormToStorage(store, loaded, now).value;
      && saved.id == key
      && saved.store[key]["createdAt"] == store[key]["createdAt"]
      && saved.store[key]["updatedAt"] == Num(now)
      && saved.store[key] == store[key]["updatedAt" := Num(now)]["id" := Str(key)]
  {
    assert key[..|FormPrefix|] == FormPrefix;
    ResavedRecord(store[key], key, now);
  }

  /** The record a load tags with `key`, saved again at `now`. */
  lemma ResavedRecord(rec: Record, key: string, now: nat)
    requires key != "" && IsJsonObject(rec)
    requires "id" !in rec || rec["id"] == Str(key)
    requires Truthy(Get(rec, "createdAt"))
    ensures ChooseId(Tag(key, rec), now) == Success(key)
    ensures Written(Tag(key, rec), now) == rec["updatedAt" := Num(now)]["id" := Str(key)]
  {
    var loaded := Tag(key, rec);
    assert loaded == rec["id" := Str(key)];
    assert Get(loaded, "createdAt") == rec["createdAt"];
    var stamped := Stamp(loaded, now);
    assert stamped == loaded["updatedAt" := Num(now)];
    assert IsJsonObject(stamped);
    JsonObjectKeepsJson(stamped);
  }

  /** A record whose `id` is present, falsy and not `undefined` (such as
      `''` or `null`) is saved under a fresh "form_" key, yet loads back with
      that falsy `id`, not the key it is stored under. */
  lemma FalsyIdShadowsKey(store: Store, formData: Record, now: nat)
    requires "id" in formData && !Truthy(formData["id"]) && formData["id"] != Undefined
    ensures SaveFormToStorage(store, formData, now).Success?
    ensures var saved := SaveFormToStorage(store, formData, now).value;
      && saved.id == FormKey(now)
      && LoadFormById(saved.store, saved.id).value["id"] == formData["id"]
      && formData["id"] != Str(saved.id)
  {
    SaveThenLoad(store, formData, now);
  }

  /** An `id` that holds `undefined` does not survive JSON, so the record
      loads back with the key it was saved under as its `id`. */
  lemma UndefinedIdLoadsKey(store: Store, formData: Record, now: nat)
    requires Get(formData, "id") == Undefined
    ensures SaveFormToStorage(store, formData, now).Success?
    ensures var saved := SaveFormToStorage(store, formData, now).value;
      && saved.id == FormKey(now)
      && LoadFormById(saved.store, saved.id).value["id"] == Str(FormKey(now))
  {
    SaveThenLoad(store, formData, now);
  }

  /** Two saves without an id in the same millisecond use the same key: the
      second overwrites the first. */
  lemma SameMillisecondOverwrites(store: Store, first: Record, second: Record, now: nat)
    requires "id" !in first && "id" !in second
    ensures var s1 := SaveFormToStorage(store, first, now).value;
      var s2 := SaveFormToStorage(s1.store, second, now).value;
      && s1.id == s2.id == FormKey(now)
      && s2.store == store[FormKey(now) := Written(second, now)]
  {
  }

  // Listing ------------------------------------------------------------------

  /** The creation time the listing sorts by, `new Date(createdAt)` in
      milliseconds: a number is itself, and `null` and `false` read as 0 and
      `true` as 1, as `ToNumber` gives. Any other value is taken as time 0. */
  function CreatedAt(r: Record): (t: int)
    ensures Get(r, "createdAt").Num? ==> t == Get(r, "createdAt").n
    ensures Get(r, "createdAt") == Bool(true) ==> t == 1
    ensures Get(r, "createdAt") in {Null, Bool(false)} ==> t == 0
  {
    match Get(r, "createdAt")
    case Num(n) => n
    case Bool(b) => if b then 1 else 0
    case _ => 0
  }

  /** A freshly saved record sorts at `now`, unless it kept a truthy
      `createdAt` of its own, which then sorts as it did before the save. */
  lemma CreatedAtOfWritten(formData: Record, now: nat)
    ensures CreatedAt(Written(formData, now)) ==
      if Truthy(Get(formData, "createdAt")) then CreatedAt(formData) else now
  {
    WrittenIsStamped(formData, now);
    var c := Get(formData, "createdAt");
    if Truthy(c) && !c.Arr? {
      assert IsJson(c);
    }
  }

  /** Newest first: creation times never increase along the sequence. */
  predicate NewestFirst(rs: seq<Record>) {
    Descending(CreatedAt, rs)
  }

  /** The records created at time `t`, in their order in `rs`. */
  function CreatedAtTime(rs: seq<Record>, t: int): seq<Record> {
    WithKey(CreatedAt, rs, t)
  }

  /** `keys` is an order in which `getAllKeys` may report the store's keys:
      each key once. */
  ghost predicate EnumeratesKeys(keys: seq<string>, store: Store) {
    && (forall k :: k in keys <==> k in store)
    && (forall i, j :: 0 <= i < j < |keys| ==> keys[i] != keys[j])
  }

  /** Every store has such an enumeration. */
  lemma EnumerationExists(store: Store)
    ensures exists keys :: EnumeratesKeys(keys, store)
  {
    var keys := Enumerate(store.Keys);
    assert EnumeratesKeys(keys, store);
  }

  ghost function Enumerate(s: set<string>): (keys: seq<string>)
    ensures forall k :: k in keys <==> k in s
    ensures forall i, j :: 0 <= i < j < |keys| ==> keys[i] != keys[j]
    decreases |s|
  {
    if s == {} then []
    else
      var k :| k in s;
      var rest := Enumerate(s - {k});
      [k] + rest
  }

  /** Each key paired with its stored record (`{id: key, ...form}`). */
  function TagAll(store: Store, keys: seq<string>): (rs: seq<Record>)
    requires forall k :: k in keys ==> k in store
    ensures |rs| == |keys|
    ensures forall i :: 0 <= i < |keys| ==> rs[i] == Tag(keys[i], store[keys[i]])
  {
    if |keys| == 0 then [] else [Tag(keys[0], store[keys[0]])] + TagAll(store, keys[1..])
  }

  /** The tagged form records in key-enumeration order, before sorting. */
  function UnsortedForms(store: Store, keys: seq<string>): seq<Record>
    requires EnumeratesKeys(keys, store)
  {
    TagAll(store, Filter(IsFormKey, keys))
  }

  /** loadAllForms: every record under a "form_" key, tagged with its key,
      sorted newest first by the stable sort of `Array.prototype.sort` with
      the comparator `b.createdAt - a.createdAt`. */
  function LoadAllForms(store: Store, keys: seq<string>): (r: seq<Record>)
    requires EnumeratesKeys(keys, store)
    ensures r == [] <==> forall k :: k in store ==> !IsFormKey(k)
    ensures |r| == |Filter(IsFormKey, keys)|
    ensures NewestFirst(r)
    ensures multiset(r) == multiset(UnsortedForms(store, keys))
  {
    var formKeys := Filter(IsFormKey, keys);
    if |formKeys| == 0 then
      assert forall k :: k in store ==> !IsFormKey(k) by {
        forall k | k in store ensures !IsFormKey(k) {
          assert k in keys;
        }
      }
      []
    else
      assert formKeys[0] in keys;
      SortDescending(CreatedAt, TagAll(store, formKeys))
  }

  /** Records created in the same millisecond are listed in the order in
      which the storage enumerated their keys. */
  lemma LoadAllFormsIsStable(store: Store, keys: seq<string>, t: int)
    requires EnumeratesKeys(keys, store)
    ensures CreatedAtTime(LoadAllForms(store, keys), t) == CreatedAtTime(UnsortedForms(store, keys), t)
  {
    if |Filter(IsFormKey, keys)| > 0 {
      SortDescendingIsStable(CreatedAt, UnsortedForms(store, keys), t);
    }
  }

  /** The tagged records of `keys` are the tags of its members. */
  lemma TagAllMembers(store: Store, keys: seq<string>, rec: Record)
    requires forall k :: k in keys ==> k in store
    ensures rec in TagAll(store, keys) <==> exists k :: k in keys && rec == Tag(k, store[k])
  {
    var rs := TagAll(store, keys);
    if rec in rs {
      var i :| 0 <= i < |rs| && rs[i] == rec;
      assert keys[i] in keys;
    }
    if k :| k in keys && rec == Tag(k, store[k]) {
      var i :| 0 <= i < |keys| && keys[i] == k;
      assert rs[i] == rec;
    }
  }

  /** Sorting neither adds nor drops a record. */
  lemma ListedIffUnsorted(store: Store, keys: seq<string>, rec: Record)
    requires EnumeratesKeys(keys, store)
    ensures rec in LoadAllForms(store, keys) <==> rec in UnsortedForms(store, keys)
  {
    var listed := LoadAllForms(store, keys);
    var unsorted := UnsortedForms(store, keys);
    assert rec in listed <==> rec in multiset(listed);
    assert rec in unsorted <==> rec in multiset(unsorted);
  }

  /** A record is listed exactly when it is the tagged record of some "form_"
      key in the store. */
  lemma LoadAllFormsMembers(store: Store, keys: seq<string>, rec: Record)
    requires EnumeratesKeys(keys, store)
    ensures rec in LoadAllForms(store, keys) <==> exists k :: k in store && IsFormKey(k) && rec == Tag(k, store[k])
  {
    var formKeys := Filter(IsFormKey, keys);
    ListedIffUnsorted(store, keys, rec);
    TagAllMembers(store, formKeys, rec);
    assert forall k :: k in formKeys <==> k in store && IsFormKey(k);
  }

  /** A form saved without an id of its own is listed, tagged with its key. */
  lemma SavedFormIsListed(store: Store, formData: Record, now: nat, keys: seq<string>)
    requires Get(formData, "id") == Undefined
    requires EnumeratesKeys(keys, SaveFormToStorage(store, formData, now).value.store)
    ensures var saved := SaveFormToStorage(store, formData, now).value;
      && saved.id == FormKey(now)
      && Tag(saved.id, Written(formData, now)) in LoadAllForms(saved.store, keys)
      && Tag(saved.id, Written(formData, now))["id"] == Str(FormKey(now))
  {
    var saved := SaveFormToStorage(store, formData, now).value;
    LoadAllFormsMembers(saved.store, keys, Tag(saved.id, Written(formData, now)));
  }

  /** A form saved under an id of its own that does not start with "form_" is
      stored but never listed: every listed record comes from another key. */
  lemma ForeignIdIsNotListed(store: Store, formData: Record, now: nat, keys: seq<string>)
    requires Get(formData, "id").Str? && Truthy(Get(formData, "id")) && !IsFormKey(formData["id"].s)
    requires EnumeratesKeys(keys, SaveFormToStorage(store, formData, now).value.store)
    ensures var saved := SaveFormToStorage(store, formData, now).value;
      && saved.id in saved.store
      && forall rec :: rec in LoadAllForms(saved.store, keys) ==>
           exists k :: k in saved.store && k != saved.id && rec == Tag(k, saved.store[k])
  {
    var saved := SaveFormToStorage(store, formData, now).value;
    forall rec | rec in LoadAllForms(saved.store, keys)
      ensures exists k :: k in saved.store && k != saved.id && rec == Tag(k, saved.store[k])
    {
      LoadAllFormsMembers(saved.store, keys, rec);
      var k :| k in saved.store && IsFormKey(k) && rec == Tag(k, saved.store[k]);
      assert k != saved.id;
    }
  }
}
