/** The POST /form, GET /containers, PUT /containers/:id and
 *  DELETE /containers/:id handlers, reduced to what they do to the
 *  `containers` collection and to the container name they hand to the
 *  container runtime.
 *
 *  The collection is shared mutable state, so it is a class whose methods
 *  reassign its sequence of documents. The container runtime is not
 *  modelled: the outcome of creating and starting a container is a
 *  parameter, and the name a rename would use is part of the result.
 */
module Handlers {
  import opened Sanitizer
  import opened Records

  /** The JSON body of POST /form. `name` is `None` when the body has no
      string name, in which case `name.replace` throws. */
  datatype FormBody = FormBody(
    name: Option<JsString>,
    email: JsString,
    age: int,
    gender: JsString,
    address: JsString)

  /** The JSON body of PUT /containers/:id. */
  datatype UpdateBody = UpdateBody(
    name: Option<JsString>,
    age: int,
    gender: JsString,
    address: JsString)

  /** The outcome of POST /form: 400 from the catch block, or 201 with the
      saved document and the container name the runtime was asked for. */
  datatype CreateResult =
    | BadRequest
    | Created(containerName: JsString, record: Record)

  /** The outcome of PUT /containers/:id. A missing name rejects the
      handler before the database is queried. When no document matches, the
      second `res.json` after the 404 throws, so the handler stops before it
      reaches the rename. Only a matched document leads to a rename, whose
      target is the sanitised name. */
  datatype UpdateResult =
    | NameMissing
    | NotFound
    | Updated(renameTo: JsString, record: Record)

  class ContainerStore {
    /** The documents of the `containers` collection, in collection order. */
    var records: seq<Record>

    constructor ()
      ensures records == []
    {
      records := [];
    }

    /** POST /form. `started` is the id of the container that the runtime
        created and started under the sanitised name, or `None` when either
        call rejected. The saved document keeps the raw name. */
    method Create(body: FormBody, started: Option<ContainerId>) returns (res: CreateResult)
      modifies this
      ensures body.name.None? || started.None? ==> res == BadRequest && records == old(records)
      ensures body.name.Some? && started.Some? ==>
        res.Created? &&
        res.containerName == Sanitize(body.name.value) &&
        res.record == NewRecord(body.name.value, body.email, body.age, body.gender,
                                body.address, started.value) &&
        records == old(records) + [res.record]
    {
      if body.name.None? {
        return BadRequest;
      }
      var containerName := Sanitize(body.name.value);
      if started.None? {
        return BadRequest;
      }
      var rec := NewRecord(body.name.value, body.email, body.age, body.gender,
                           body.address, started.value);
      records := records + [rec];
      res := Created(containerName, rec);
    }

    /** GET /containers: every document, in collection order. */
    method List() returns (rs: seq<Record>)
      ensures rs == records
    {
      rs := records;
    }

    /** PUT /containers/:id: overwrite `name`, `age`, `gender` and `address`
        of the first document whose `containerId` is `id`, and report the
        document as it is after the update. */
    method Update(id: ContainerId, body: UpdateBody) returns (res: UpdateResult)
      modifies this
      ensures body.name.None? ==> res == NameMissing && records == old(records)
      ensures body.name.Some? ==>
        var e := Edit(body.name.value, body.age, body.gender, body.address);
        records == UpdateFirst(old(records), id, e) &&
        match FirstMatch(old(records), id)
        case None => res == NotFound
        case Some(k) => res == Updated(Sanitize(body.name.value), records[k])
    {
      if body.name.None? {
        return NameMissing;
      }
      var renameTo := Sanitize(body.name.value);
      var e := Edit(body.name.value, body.age, body.gender, body.address);
      match FirstMatch(records, id)
      case None =>
        res := NotFound;
      case Some(k) =>
        records := records[k := ApplyEdit(records[k], e)];
        res := Updated(renameTo, records[k]);
    }

    /** DELETE /containers/:id: remove the first document whose
        `containerId` is `id` and return it, or `None` when none matches. */
    method Delete(id: ContainerId) returns (deleted: Option<Record>)
      modifies this
      ensures records == DeleteFirst(old(records), id)
      ensures match FirstMatch(old(records), id)
        case None => deleted == None
        case Some(k) => deleted == Some(old(records)[k])
    {
      match FirstMatch(records, id)
      case None =>
        deleted := None;
      case Some(k) =>
        deleted := Some(records[k]);
        records := records[..k] + records[k + 1..];
    }
  }

  /** The container name asked for at creation and the name stored in the
      document agree up to sanitising: same length, and they differ exactly
      where the submitted name has a code unit outside `[a-zA-Z0-9_.-]`. */
  lemma CreatedNamesAgree(body: FormBody, id: ContainerId)
    requires body.name.Some?
    ensures var r := NewRecord(body.name.value, body.email, body.age, body.gender, body.address, id);
      var c := Sanitize(body.name.value);
      r.containerId == id && |c| == |r.name| &&
      (forall i :: 0 <= i < |r.name| ==> (c[i] != r.name[i] <==> !Allowed(r.name[i]))) &&
      AllAllowed(c)
  {
    SanitizeDiffersExactlyAtDisallowed(body.name.value);
    SanitizeOutputAllowed(body.name.value);
  }

  /** POST /form followed by PUT /containers/:id for the new container with
      the same name: the rename targets exactly the name the container got
      at creation, the document keeps the raw name and its email, and no
      other document moves or changes. When the create fails, no update is
      sent and the collection is unchanged. A container id that no document
      carries yet is assumed, as the runtime hands out fresh ids. */
  method CreateThenRename(store: ContainerStore, body: FormBody, started: Option<ContainerId>,
                          age: int, gender: JsString, address: JsString)
    returns (created: CreateResult, updated: Option<UpdateResult>)
    requires started.Some? ==> NoMatch(store.records, started.value)
    modifies store
    ensures created.Created? <==> body.name.Some? && started.Some?
    ensures !created.Created? ==> updated == None && store.records == old(store.records)
    ensures created.Created? ==>
      updated.Some? && updated.value.Updated? &&
      updated.value.renameTo == created.containerName &&
      updated.value.record == created.record.(age := age, gender := gender, address := address) &&
      store.records == old(store.records) + [updated.value.record]
  {
    created := store.Create(body, started);
    if created.BadRequest? {
      updated := None;
      return;
    }
    CreateThenDelete(old(store.records), created.record);
    var id := created.record.containerId;
    var res := store.Update(id, UpdateBody(body.name, age, gender, address));
    updated := Some(res);
  }
}
