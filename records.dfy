/** The `containers` collection as a plain in-memory sequence of documents.
 *
 *  A document holds the raw form fields and the identifier of the container
 *  that was started for it. The PUT and DELETE handlers address a document by
 *  its `containerId` with `findOneAndUpdate` / `findOneAndDelete`, which act
 *  on the first document in collection order whose `containerId` matches.
 *  Nothing here assumes that container identifiers are unique.
 */
module Records {
  import opened Sanitizer

  datatype Option<T> = None | Some(value: T)

  type ContainerId = JsString

  /** One document of the `containers` collection (the schema's fields; the
      database-generated `_id` is not modelled). */
  datatype Record = Record(
    containerId: ContainerId,
    name: JsString,
    email: JsString,
    age: int,
    gender: JsString,
    address: JsString)

  /** The fields the PUT handler writes: `{ name, age, gender, address }`. */
  datatype Edit = Edit(name: JsString, age: int, gender: JsString, address: JsString)

  /** The document the POST handler saves: the raw, unsanitised form fields
      plus the id of the container it started. */
  function NewRecord(name: JsString, email: JsString, age: int, gender: JsString,
                     address: JsString, id: ContainerId): Record
  {
    Record(id, name, email, age, gender, address)
  }

  /** `findOneAndUpdate` replaces the four edited fields and leaves the rest. */
  function ApplyEdit(r: Record, e: Edit): Record {
    r.(name := e.name, age := e.age, gender := e.gender, address := e.address)
  }

  /** No document of `rs` carries container id `id`. */
  predicate NoMatch(rs: seq<Record>, id: ContainerId) {
    forall j :: 0 <= j < |rs| ==> rs[j].containerId != id
  }

  /** The position of the document a `findOne*({ containerId: id })` query
      selects: the first one whose `containerId` is `id`, if any. */
  function FirstMatch(rs: seq<Record>, id: ContainerId): (k: Option<nat>)
    ensures k.None? <==> NoMatch(rs, id)
    ensures k.Some? ==> k.value < |rs| && rs[k.value].containerId == id
    ensures k.Some? ==> forall j :: 0 <= j < k.value ==> rs[j].containerId != id
  {
    if rs == [] then None
    else if rs[0].containerId == id then Some(0)
    else match FirstMatch(rs[1..], id)
      case None => None
      case Some(k) => Some(k + 1)
  }

  /** The collection after `findOneAndUpdate({ containerId: id }, e)`. */
  function UpdateFirst(rs: seq<Record>, id: ContainerId, e: Edit): seq<Record> {
    match FirstMatch(rs, id)
    case None => rs
    case Some(k) => rs[k := ApplyEdit(rs[k], e)]
  }

  /** The collection after `findOneAndDelete({ containerId: id })`. */
  function DeleteFirst(rs: seq<Record>, id: ContainerId): seq<Record> {
    match FirstMatch(rs, id)
    case None => rs
    case Some(k) => rs[..k] + rs[k + 1..]
  }

  /** An update on a matching id changes only `name`, `age`, `gender` and
      `address` of the first matching document; its `email` and
      `containerId`, and every other document, stay as they were. */
  lemma UpdateChangesOnlyEditedFields(rs: seq<Record>, id: ContainerId, e: Edit, k: nat)
    requires FirstMatch(rs, id) == Some(k)
    ensures |UpdateFirst(rs, id, e)| == |rs|
    ensures var r := UpdateFirst(rs, id, e)[k];
      r.name == e.name && r.age == e.age && r.gender == e.gender && r.address == e.address &&
      r.email == rs[k].email && r.containerId == rs[k].containerId == id
    ensures forall j :: 0 <= j < |rs| && j != k ==> UpdateFirst(rs, id, e)[j] == rs[j]
  {
  }

  /** With no matching document an update leaves the collection alone, and
      conversely an update that changed nothing had no match or rewrote the
      match with its own values. */
  lemma UpdateNoMatch(rs: seq<Record>, id: ContainerId, e: Edit)
    ensures NoMatch(rs, id) ==> UpdateFirst(rs, id, e) == rs
    ensures UpdateFirst(rs, id, e) == rs ==>
      NoMatch(rs, id) || ApplyEdit(rs[FirstMatch(rs, id).value], e) == rs[FirstMatch(rs, id).value]
  {
    if FirstMatch(rs, id).Some? {
      var k := FirstMatch(rs, id).value;
      assert UpdateFirst(rs, id, e)[k] == ApplyEdit(rs[k], e);
    }
  }

  /** An update never touches a `containerId`, so every later query finds
      the same position as before. */
  lemma UpdateKeepsIds(rs: seq<Record>, id: ContainerId, e: Edit, other: ContainerId)
    ensures FirstMatch(UpdateFirst(rs, id, e), other) == FirstMatch(rs, other)
  {
    var u := UpdateFirst(rs, id, e);
    assert |u| == |rs| && forall j :: 0 <= j < |rs| ==> u[j].containerId == rs[j].containerId;
    match FirstMatch(rs, other)
    case None =>
      assert NoMatch(u, other);
    case Some(k) =>
      var k' := FirstMatch(u, other);
      assert k'.Some?;
      assert !(k'.value < k) && !(k < k'.value);
  }

  /** Repeating the same update has no further effect. */
  lemma UpdateIdempotent(rs: seq<Record>, id: ContainerId, e: Edit)
    ensures UpdateFirst(UpdateFirst(rs, id, e), id, e) == UpdateFirst(rs, id, e)
  {
    UpdateKeepsIds(rs, id, e, id);
  }

  /** A delete on a matching id removes exactly the first matching document
      and keeps the others in their order; with no match it changes nothing. */
  lemma DeleteRemovesFirstMatch(rs: seq<Record>, id: ContainerId)
    ensures NoMatch(rs, id) ==> DeleteFirst(rs, id) == rs
    ensures !NoMatch(rs, id) ==>
      var k := FirstMatch(rs, id).value;
      |DeleteFirst(rs, id)| == |rs| - 1 &&
      (forall j :: 0 <= j < k ==> DeleteFirst(rs, id)[j] == rs[j]) &&
      (forall j :: k < j < |rs| ==> DeleteFirst(rs, id)[j - 1] == rs[j])
  {
  }

  /** Deleting never adds a document: the result is the input with at most
      one element taken out. */
  lemma DeleteShrinks(rs: seq<Record>, id: ContainerId)
    ensures multiset(DeleteFirst(rs, id)) <= multiset(rs)
    ensures |DeleteFirst(rs, id)| == if NoMatch(rs, id) then |rs| else |rs| - 1
  {
    if !NoMatch(rs, id) {
      var k := FirstMatch(rs, id).value;
      assert rs == rs[..k] + [rs[k]] + rs[k + 1..];
    }
  }

  /** A document saved under a container id that no earlier document carries
      is found at the end of the collection, and deleting by that id gives
      back the collection as it was before the save. */
  lemma {:induction false} CreateThenDelete(rs: seq<Record>, r: Record)
    requires NoMatch(rs, r.containerId)
    ensures FirstMatch(rs + [r], r.containerId) == Some(|rs|)
    ensures DeleteFirst(rs + [r], r.containerId) == rs
  {
    var s := rs + [r];
    assert s[|rs|].containerId == r.containerId;
    assert forall j :: 0 <= j < |rs| ==> s[j] == rs[j];
    var k := FirstMatch(s, r.containerId);
    assert k.Some?;
    assert !(k.value < |rs|);
    assert s[..|rs|] == rs;
  }
}
