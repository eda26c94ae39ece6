# Form-to-container backend: name sanitiser and record table

The backend (`backend/index.ts`) is an Express service with four handlers.
POST /form starts one container per form submission and saves a document
that links the submitted fields to the container's id. GET /containers lists
the documents. PUT /containers/:id edits a document and renames its
container. DELETE /containers/:id deletes the document and stops and removes
the container.

This project models the two pieces of logic in those handlers that stand on
their own:

- `sanitizer.dfy` (module `Sanitizer`): the container-name sanitiser
  `name.replace(/[^a-zA-Z0-9_.-]/g, "_")`, used at creation and at rename.
  The regular expression has no `u` flag, so it works on UTF-16 code units.
  A JavaScript string is therefore a `seq<CodeUnit>` with
  `CodeUnit = 0 .. 0xFFFF`. Dafny's `char` is not used, because it cannot
  hold a lone surrogate and counts a non-BMP character as one unit, where
  the replace writes two `_`.
- `records.dfy` (module `Records`): the `containers` collection as an
  in-memory sequence of documents. `findOneAndUpdate` and `findOneAndDelete`
  act on the first document, in collection order, whose `containerId`
  matches (`FirstMatch`). The pure functions `UpdateFirst` and `DeleteFirst`
  give the collection after each call. Container ids are not assumed to be
  unique.
- `handlers.dfy` (module `Handlers`): the handlers as methods of a class
  `ContainerStore` whose `records` field is the shared collection.
  - `Create` saves the raw, unsanitised name together with the id of the
    started container. It reports the sanitised name the runtime was asked
    to use.
  - `Update` overwrites `name`, `age`, `gender` and `address`. When a
    document matched, it reports the rename target, the sanitised name.
    When none matched, it reports "not found" and no rename target. After
    the 404 the handler calls `res.json` a second time, which throws, so
    the rename is never reached.
  - `Delete` removes the matching document and returns it.
  - A missing `name` makes `name.replace` throw before anything is written.
    POST then answers 400 from its catch block. In PUT the promise is
    rejected before the database call. In both cases the collection is
    left unchanged.

## Model

| member | source | states |
|---|---|---|
| `Sanitizer.Sanitize` | backend/index.ts:44 | The result has exactly as many code units as the input. Each match of the one-unit class is replaced by one `_`. |
| `Sanitizer.SanitizeAt` | backend/index.ts:44 | At each position, a unit in `[a-zA-Z0-9_.-]` is copied unchanged and any other unit becomes `_`. |
| `Sanitizer.SanitizeAppend` | backend/index.ts:44 | The global replace handles each unit on its own: sanitising `a + b` gives sanitised `a` followed by sanitised `b`. |
| `Sanitizer.SanitizeOutputAllowed` | backend/index.ts:44 | Every code unit of the output is in `[a-zA-Z0-9_.-]`. |
| `Sanitizer.SanitizeDiffersExactlyAtDisallowed` | backend/index.ts:44 | The output has the input's length. It differs from the input exactly at the positions of disallowed units, in both directions. |
| `Sanitizer.SanitizeFixedPoints` | backend/index.ts:44 | A name is returned unchanged if and only if it has only allowed units. |
| `Sanitizer.SanitizeIdempotent` | backend/index.ts:44 | Sanitising twice gives the same result as sanitising once. |
| `Sanitizer.SanitizeNotInjective` | backend/index.ts:44-47 | Two different names can map to the same container name (`a b` and `a/b` both become `a_b`). |
| `Records.FirstMatch` | backend/index.ts:82-83 | The `{ containerId: id }` query selects the first document with that id. The result is `None` if and only if no document has that id. |
| `Records.UpdateChangesOnlyEditedFields` | backend/index.ts:82-86 | On a match, only `name`, `age`, `gender` and `address` of the first matching document take the new values. Its `email` and `containerId` are kept, and every other document is unchanged. |
| `Records.UpdateNoMatch` | backend/index.ts:82-90 | With no match, the update leaves the collection unchanged. Conversely, an update that changed nothing either had no match or wrote back the values the document already had. |
| `Records.UpdateKeepsIds` | backend/index.ts:82-86 | An update never changes a `containerId`, so every later query by id selects the same position as before. |
| `Records.UpdateIdempotent` | backend/index.ts:82-86 | Applying the same update twice gives the same collection as applying it once. |
| `Records.DeleteRemovesFirstMatch` | backend/index.ts:101 | On a match, only the first matching document is removed and the others keep their order. With no match, the collection is unchanged. |
| `Records.DeleteShrinks` | backend/index.ts:101 | The result is the input as a sub-multiset. It has one document less exactly when some document matched. |
| `Records.CreateThenDelete` | backend/index.ts:101 | A document saved under an id that no other document has goes to the end of the collection. Deleting by that id gives back the collection as it was before the save. |
| `Handlers.ContainerStore.Create` | backend/index.ts:41-60 | A missing name, or a failed container create or start, gives 400 and leaves the collection unchanged. Otherwise the runtime is asked for `Sanitize(name)`, and the document with the raw fields and the container id is appended. |
| `Handlers.ContainerStore.List` | backend/index.ts:63-73 | Returns every document, in collection order. |
| `Handlers.ContainerStore.Update` | backend/index.ts:75-96 | A missing name rejects and leaves the collection unchanged. Otherwise the collection becomes `UpdateFirst`. On a match the result is the updated document with the rename target `Sanitize(name)`; with no match it is "not found" with no rename target. |
| `Handlers.ContainerStore.Delete` | backend/index.ts:98-111 | The collection becomes `DeleteFirst`. The result is the removed document, or `None` when no document matched. |
| `Handlers.CreatedNamesAgree` | backend/index.ts:44-55 | The stored name is the raw name and the container name is its sanitised form. They have the same length and differ exactly where the name has a disallowed unit. The container name uses only allowed units. |
| `Handlers.CreateThenRename` | backend/index.ts:75-95 | A create followed by an update with the same name renames to exactly the name the container got at creation. The document keeps its raw name and email, and no other document moves. A failed create sends no update and leaves the collection unchanged. |

## Left out

- Container-runtime calls (`createContainer`, `start`, `getContainer`, `rename`, `stop`, `remove`, backend/index.ts:45-54, 94-95, 102-104) go to an external daemon over a socket. The create/start outcome is a parameter of `Create`. The rename target is reported in the result of an update that matched a document. Stop and remove are not modelled.
- The database connection, and the schema validators `unique: true` on `email` and `min: 18` on `age` (backend/index.ts:32-33). The database and the driver enforce them, outside this file. A save rejected by them is not modelled.
- The database-generated `_id` and the unused `userId` of the record interface (backend/index.ts:20-22).
- How the driver casts JSON values to the schema's types. `age` is an `int` here, not a JavaScript number. Request bodies are modelled as already-typed values, and a non-string `name` is treated like a missing one.
- How the driver treats a field that is present in the PUT body as `undefined`. The model assumes that `age`, `gender` and `address` are all present.
- Express routing, CORS, JSON parsing, HTTP status codes and `console.log` (backend/index.ts:6-17, 80-81, 113-115).
- The handlers' double response after a 404 (backend/index.ts:88-92, 106-110). In PUT, the second `res.json` at line 92 throws, so no rename is attempted when nothing matched; `Update` reflects this only by returning `NotFound` without a rename target. The stop/remove that runs when no document was found, and the hang after an unhandled rejection, are not modelled either. Only their effect on the collection is kept.
- Concurrency between requests: each handler runs as one atomic step on the collection.
