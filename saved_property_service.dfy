/** The saved-property store of `src/services/api/savedPropertyService.js`:
    a list of bookmarks changed in place by `create` (push), `update`
    (index assignment) and `delete` (splice), with keyed lookups that fail
    with "Saved property not found". */
module SavedPropertyService {
  import opened Wrappers
  import opened JsText
  import opened JsArray

  /** A stored bookmark. `propertyId` and `notes` are absent when the creating
      object had no such key. */
  datatype SavedProperty = SavedProperty(
    id: int,
    propertyId: Option<string>,
    notes: Option<string>,
    savedDate: Option<string>)

  /** The object passed to `create` or `update`; every key may be absent. */
  datatype Fields = Fields(
    id: Option<int>,
    propertyId: Option<string>,
    notes: Option<string>,
    savedDate: Option<string>)

  const NotFound := "Saved property not found"

  /** No two records share an id. */
  predicate UniqueIds(s: seq<SavedProperty>) {
    forall i, j :: 0 <= i < j < |s| ==> s[i].id != s[j].id
  }

  /** `Math.max(...s.map(sp => sp.Id))`. */
  function MaxId(s: seq<SavedProperty>): (m: int)
    requires s != []
    ensures forall i :: 0 <= i < |s| ==> s[i].id <= m
    ensures exists i :: 0 <= i < |s| && s[i].id == m
  {
    if |s| == 1 then s[0].id
    else
      var m := MaxId(s[..|s| - 1]);
      assert forall i :: 0 <= i < |s| - 1 ==> s[..|s| - 1][i] == s[i];
      if s[|s| - 1].id > m then s[|s| - 1].id else m
  }

  /** The id `create` assigns: one more than the largest, or 1 for an empty store. */
  function NextId(s: seq<SavedProperty>): (n: int)
    ensures forall i :: 0 <= i < |s| ==> s[i].id < n
  {
    if |s| > 0 then MaxId(s) + 1 else 1
  }

  /** The value an object spread leaves for one key: the later object's, if it has the key. */
  function Override<T>(later: Option<T>, earlier: Option<T>): Option<T> {
    if later.Some? then later else earlier
  }

  /** `{ Id: newId, ...input, savedDate: now }`: a key `Id` in the input wins over
      `newId`, and `savedDate` is always the current time. */
  function NewRecord(newId: int, input: Fields, now: string): (r: SavedProperty)
    ensures r.id == (if input.id.Some? then input.id.value else newId)
    ensures r.propertyId == input.propertyId && r.notes == input.notes
    ensures r.savedDate == Some(now)
  {
    SavedProperty(if input.id.Some? then input.id.value else newId, input.propertyId, input.notes, Some(now))
  }

  /** `{ ...record, ...updateData }` where `updateData` is `data` without `Id`. */
  function Merge(record: SavedProperty, data: Fields): SavedProperty {
    SavedProperty(
      record.id,
      Override(data.propertyId, record.propertyId),
      Override(data.notes, record.notes),
      Override(data.savedDate, record.savedDate))
  }

  /** The merged record keeps its id whatever `data` says; every key given in
      `data` is taken from it and every other key is kept. */
  lemma MergeSpec(record: SavedProperty, data: Fields)
    ensures Merge(record, data).id == record.id
    ensures data.propertyId.Some? ==> Merge(record, data).propertyId == data.propertyId
    ensures data.propertyId.None? ==> Merge(record, data).propertyId == record.propertyId
    ensures data.notes.Some? ==> Merge(record, data).notes == data.notes
    ensures data.notes.None? ==> Merge(record, data).notes == record.notes
    ensures data.savedDate.Some? ==> Merge(record, data).savedDate == data.savedDate
    ensures data.savedDate.None? ==> Merge(record, data).savedDate == record.savedDate
    ensures Merge(Merge(record, data), data) == Merge(record, data)
    ensures Merge(record, Fields(data.id, None, None, None)) == record
  {
  }

  /** `s.findIndex(sp => sp.Id === parseInt(id, 10))`. */
  function IndexOf(s: seq<SavedProperty>, id: JsValue): (r: Option<nat>)
    ensures r.None? <==> forall i :: 0 <= i < |s| ==> ParseInt(ToString(id)) != Some(s[i].id)
    ensures r.Some? ==> r.value < |s| && ParseInt(ToString(id)) == Some(s[r.value].id)
    ensures r.Some? ==> forall i :: 0 <= i < r.value ==> ParseInt(ToString(id)) != Some(s[i].id)
  {
    var key := ParseInt(ToString(id));
    FindFirst(s, (sp: SavedProperty) => key == Some(sp.id))
  }

  /** `s.some(sp => sp.propertyId === key)`. */
  function HasPropertyId(s: seq<SavedProperty>, key: string): (r: bool)
    ensures r <==> exists i :: 0 <= i < |s| && s[i].propertyId == Some(key)
  {
    FindFirst(s, (sp: SavedProperty) => sp.propertyId == Some(key)).Some?
  }

  /** Removing one record keeps the ids of the others distinct. */
  lemma RemoveKeepsUniqueIds(s: seq<SavedProperty>, i: nat)
    requires i < |s|
    ensures |s[..i] + s[i + 1..]| == |s| - 1
    ensures UniqueIds(s) ==> UniqueIds(s[..i] + s[i + 1..])
  {
    var t := s[..i] + s[i + 1..];
    assert forall k :: 0 <= k < |t| ==> t[k] == (if k < i then s[k] else s[k + 1]);
  }

  /** With unique ids, a numeric id finds the one record that carries it. */
  lemma IndexOfUnique(s: seq<SavedProperty>, i: nat)
    requires UniqueIds(s) && i < |s|
    ensures IndexOf(s, Num(s[i].id)) == Some(i)
  {
    ParseIntOfNumber(s[i].id);
  }

  class SavedPropertyStore {
    var records: seq<SavedProperty>

    constructor (initial: seq<SavedProperty>)
      ensures records == initial
    {
      records := initial;
    }

    /** `getAll()`: a copy of the records in insertion order; the store is not changed. */
    method GetAll() returns (all: seq<SavedProperty>)
      ensures all == records
    {
      all := records;
    }

    /** `getById(id)`. */
    function GetById(id: JsValue): (r: Result<SavedProperty>)
      reads this
      ensures r.Failure? <==> forall i :: 0 <= i < |records| ==> ParseInt(ToString(id)) != Some(records[i].id)
      ensures r.Failure? ==> r.error == NotFound
      ensures r.Success? ==> ParseInt(ToString(id)) == Some(r.value.id)
      ensures r.Success? ==> exists i :: 0 <= i < |records| && records[i] == r.value
                                     && forall j :: 0 <= j < i ==> ParseInt(ToString(id)) != Some(records[j].id)
    {
      match IndexOf(records, id)
      case None => Failure(NotFound)
      case Some(i) => Success(records[i])
    }

    /** `create(input)`: append one record with the next id and the current time. */
    method Create(input: Fields, now: string) returns (created: SavedProperty)
      modifies this
      ensures created == NewRecord(NextId(old(records)), input, now)
      ensures records == old(records) + [created]
      ensures input.id.None? ==> forall i :: 0 <= i < |old(records)| ==> old(records)[i].id < created.id
      ensures input.id.None? && UniqueIds(old(records)) ==> UniqueIds(records)
    {
      var newId := NextId(records);
      created := NewRecord(newId, input, now);
      records := records + [created];
    }

    /** `update(id, data)`: merge `data` without its `Id` into the matching record, in place. */
    method Update(id: JsValue, data: Fields) returns (r: Result<SavedProperty>)
      modifies this
      ensures IndexOf(old(records), id).None? ==> r == Failure(NotFound) && records == old(records)
      ensures IndexOf(old(records), id).Some? ==>
        var i := IndexOf(old(records), id).value;
        && records == old(records)[i := Merge(old(records)[i], data)]
        && r == Success(records[i])
      ensures |records| == |old(records)|
      ensures forall i :: 0 <= i < |records| ==> records[i].id == old(records)[i].id
      ensures UniqueIds(old(records)) ==> UniqueIds(records)
    {
      var index := IndexOf(records, id);
      if index.None? {
        r := Failure(NotFound);
        return;
      }
      var i := index.value;
      records := records[i := Merge(records[i], data)];
      r := Success(records[i]);
    }

    /** `delete(id)`: splice the matching record out. */
    method Delete(id: JsValue) returns (r: Result<bool>)
      modifies this
      ensures IndexOf(old(records), id).None? ==> r == Failure(NotFound) && records == old(records)
      ensures IndexOf(old(records), id).Some? ==>
        var i := IndexOf(old(records), id).value;
        && records == old(records)[..i] + old(records)[i + 1..]
        && |records| == |old(records)| - 1
        && r == Success(true)
      ensures UniqueIds(old(records)) ==> UniqueIds(records)
    {
      var index := IndexOf(records, id);
      if index.None? {
        r := Failure(NotFound);
        return;
      }
      var i := index.value;
      RemoveKeepsUniqueIds(records, i);
      records := records[..i] + records[i + 1..];
      r := Success(true);
    }

    /** `isPropertySaved(propertyId)`: some record's `propertyId` is `propertyId.toString()`. */
    function IsPropertySaved(propertyId: JsValue): (saved: bool)
      reads this
      ensures saved <==> exists i :: 0 <= i < |records| && records[i].propertyId == Some(ToString(propertyId))
    {
      HasPropertyId(records, ToString(propertyId))
    }
  }

  /** Right after `create({propertyId: p.toString(), ...})`, `isPropertySaved(p)` holds. */
  lemma SavedAfterCreate(s: seq<SavedProperty>, input: Fields, now: string, p: JsValue)
    requires input.propertyId == Some(ToString(p))
    ensures HasPropertyId(s + [NewRecord(NextId(s), input, now)], ToString(p))
  {
    var t := s + [NewRecord(NextId(s), input, now)];
    assert t[|s|].propertyId == Some(ToString(p));
  }

  /** Deleting the only record for a property makes it unsaved again. */
  lemma UnsavedAfterDelete(s: seq<SavedProperty>, i: nat, key: string)
    requires i < |s|
    requires forall j :: 0 <= j < |s| && j != i ==> s[j].propertyId != Some(key)
    ensures !HasPropertyId(s[..i] + s[i + 1..], key)
  {
    var t := s[..i] + s[i + 1..];
    forall k | 0 <= k < |t| ensures t[k].propertyId != Some(key) {
      if k < i { assert t[k] == s[k]; } else { assert t[k] == s[k + 1]; }
    }
  }

  /** Ids are reused: when the store holds ids 1..n in order (as after n creates on an
      empty store), deleting the last record makes the next `create` hand out n again. */
  lemma {:induction false} DeletingLargestIdReusesIt(s: seq<SavedProperty>)
    requires |s| > 0
    requires forall k :: 0 <= k < |s| ==> s[k].id == k + 1
    ensures NextId(s[..|s| - 1]) == s[|s| - 1].id
  {
    var rest := s[..|s| - 1];
    if rest != [] {
      assert rest[|rest| - 1].id == |rest|;
      assert forall k :: 0 <= k < |rest| ==> rest[k].id <= |rest|;
      assert MaxId(rest) == |rest| by {
        var j :| 0 <= j < |rest| && rest[j].id == MaxId(rest);
      }
    }
  }

  /** The new id depends only on the current maximum: after deleting every
      record the next id is 1 again. */
  lemma NextIdOfEmptyStore()
    ensures NextId([]) == 1
  {
  }

  /** Three creates on an empty store give ids 1, 2, 3; deleting id 2 and
      creating again gives 4, not 2; after that `isPropertySaved` sees the new record. */
  method CreateDeleteScenario(now: string) returns (ids: seq<int>, deleted: Result<bool>, saved: bool)
    ensures ids == [1, 2, 3, 4]
    ensures deleted == Success(true)
    ensures saved
  {
    var store := new SavedPropertyStore([]);
    var one := Fields(None, Some("10"), Some(""), None);
    var a := store.Create(one, now);
    var b := store.Create(one, now);
    var c := store.Create(one, now);
    ParseIntOfNumber(2);
    assert store.records[1].id == 2;
    deleted := store.Delete(Num(2));
    assert store.records == [a, c];
    var d := store.Create(Fields(None, Some("7"), None, None), now);
    ids := [a.id, b.id, c.id, d.id];
    saved := store.IsPropertySaved(Num(7));
    assert saved by {
      ParseIntOfNumber(7);
      assert IntToString(7) == "7";
      assert store.records[2].propertyId == Some("7");
    }
  }
}
