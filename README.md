# Email templates service: store, records and list updates

The service keeps email templates (`id`, `subject`, `body`) and exposes
create, read, update, delete and select over HTTP; a React page lists them.
This project models three parts of it in Dafny and proves their properties:

- **The template store** (`Db`, the `db` module of `backend/src/main.rs`). In
  the source this module is commented out (`backend/src/main.rs:23-146`), as is
  its only caller, `example_handler_count_templates` (`backend/src/main.rs:330-341`).
  It is the store the handlers were written against; the live handlers read
  and write Postgres instead, so no live request reaches it. It is
  a map from `i32` ids to records behind a read/write lock. `Database<T>` is a
  class with the map as a `map<i32, T>` field and a `poisoned` flag. The flag
  stands for a lock that can no longer be acquired. Each of the six operations
  returns a `Result`: writers fail with `WriteError` and readers with
  `ReadError` when the lock is poisoned, and a failing call changes nothing. The
  map operations match the Rust code:
  - `create_template` overwrites.
  - `update_template` is an upsert.
  - `delete_template` of a missing id does nothing.
  - `select_templates` loops over the stored values. Its result order is that
    of a `HashMap`, so the contract compares it to the ghost multiset
    `Selected` of accepted values.
- **Records and handler logic** (`Api`).
  - `Template` and `PartialTemplate`.
  - The template `create_template_handler` returns, with its hard-coded id 10.
  - The id that `update_template` forces onto the request body.
  - `AppError::into_response`, which answers status 500 with "Something went
    wrong: " and the message.
  - Each handler's SQL round trip is a parameter holding its outcome. An error
    in that outcome propagates unchanged.
- **The list page's local copy** (`TemplateList`, `frontend/src/pages/TemplateList.tsx`).
  - The three list updates are functions on `seq<Template>`: delete-by-id
    filter, replace-by-id map, and append.
  - The page is a class whose handlers apply one of these updates only when
    the awaited request succeeded. Each handler computes the new list from the
    list captured at the page's last render, as the closures in the source do.
  - Only `handleDelete` is wired to the page. The update and create handlers
    exist in the source but nothing calls them.
  - Lemmas relate the list to the store. The list *mirrors* the store when its
    ids are distinct and, read as a map by id, it equals the store. Each
    list update keeps the mirror when the store performs the matching
    operation. Two deletes started from the same render lose one of the two
    removals.

Modules: `Wrappers` (Option, Result), `Db`, `Api`, `TemplateList`.

## Model

| member | source | states |
|---|---|---|
| `Db.Describe` | backend/src/main.rs:27-33 | the write error displays "There was a problem writing …" and the read error "There was a problem reading …" |
| `Db.DescribeDistinguishes` | backend/src/main.rs:27-33 | the write error and the read error display different texts |
| `Db.Database.constructor` | backend/src/main.rs:53-58 | a new database is empty and its lock is healthy |
| `Db.Database.CreateTemplate` | backend/src/main.rs:60-70 | with a healthy lock: `Ok` and the map is the old map with `id` set to the template (inserted or overwritten); with a poisoned lock: `WriteError` and the map unchanged; the lock state never changes |
| `Db.Database.ReadTemplate` | backend/src/main.rs:72-83 | with a healthy lock: `Ok(Some(stored))` when `id` is stored and `Ok(None)` (not an error) otherwise; poisoned: `ReadError`; changes nothing; the result is `Ok(Lookup(map, id))`, the read the lemmas below are stated on |
| `Db.Database.UpdateTemplate` | backend/src/main.rs:85-99 | upsert: whether or not `id` was stored, the new map is the old map with `id` set to the template, the same effect as `CreateTemplate`; poisoned: `WriteError`, map unchanged |
| `Db.Database.DeleteTemplate` | backend/src/main.rs:101-111 | healthy: `Ok` and the new map is the old one without `id`, whether or not `id` was present; poisoned: `WriteError`, map unchanged |
| `Db.Database.CountTemplates` | backend/src/main.rs:113-124 | healthy: `Ok` of the number of stored ids; poisoned: `ReadError` |
| `Db.Database.SelectTemplates` | backend/src/main.rs:126-144 | healthy: `Ok` of a sequence whose multiset of elements is `Selected(map, filter)`, proved by a loop invariant over the ids not yet visited; poisoned: `ReadError` |
| `Db.SelectedRemove` | backend/src/main.rs:137-142 | the selection does not depend on the order the values are visited in: any stored id can be taken out first |
| `Db.SelectedMultiplicity` | backend/src/main.rs:126-144 | a selection holds each value the filter accepts exactly as often as it is stored (once per id holding it), and no value the filter rejects |
| `Db.SelectedMember` | backend/src/main.rs:126-144 | a value is selected if and only if it is stored under some id and the filter accepts it |
| `Db.SelectedSize` | backend/src/main.rs:126-144 | a selection has one element per stored id whose value the filter accepts |
| `Db.SelectEverythingCounts` | backend/src/main.rs:113-144 | selecting with an always-true filter yields exactly as many templates as `count_templates` reports |
| `Db.SelectedAfterDelete` | backend/src/main.rs:101-144 | after deleting a stored id, a selection has lost that id's value (if the filter accepted it) and nothing else |
| `Db.ReadAfterCreate` | backend/src/main.rs:60-83 | after a create of `(id, t)`, reading `id` gives `Some(t)` and every other id reads as before |
| `Db.CountAfterCreate` | backend/src/main.rs:60-124 | a create under a fresh id raises the count by one; overwriting an existing id leaves it unchanged |
| `Db.ReadAfterDelete` | backend/src/main.rs:72-111 | after a delete of `id`, reading `id` gives `None` and every other id reads as before |
| `Db.DeleteCountAndIdempotence` | backend/src/main.rs:101-124 | deleting a present id lowers the count by one; deleting an absent id leaves the map as it is, so deleting twice equals deleting once |
| `Api.NewTemplate` | backend/src/main.rs:246-252 | the created template has id 10 and the request's subject and body (dropping the id gives back the request) |
| `Api.WithQueryId` | backend/src/main.rs:291-293 | the result carries the query id and the body's subject and body |
| `Api.WithQueryIdOverrides` | backend/src/main.rs:291-293 | forcing the id is idempotent, and two bodies give the same result exactly when their subject and body agree, whatever ids they carried |
| `Api.CreateTemplateHandler` | backend/src/main.rs:242-264 | fails exactly when the insert fails, with the same error; on success returns id 10 with the request's subject and body |
| `Api.UpdateTemplateHandler` | backend/src/main.rs:287-309 | fails exactly when the update fails, with the same error; on success returns the query id with the body's subject and body |
| `Api.IntoResponse` | backend/src/main.rs:366-373 | every error becomes status 500 |
| `Api.ErrorMessage` | backend/src/main.rs:366-373 | a message read back from a response is what follows the "Something went wrong: " prefix of its body |
| `Api.ErrorResponseRoundTrip` | backend/src/main.rs:366-373 | the error's message can be read back from its response, so distinct errors give distinct responses |
| `Api.FromDatabaseError` | backend/src/main.rs:378-385 | a store error propagated with `?` (as the commented-out `db.count_templates()?` at line 335 did) becomes an `AppError` whose response carries the store error's own text after the error prefix |
| `Api.StoreFailuresAnswer500` | backend/src/main.rs:27-33 | a read failure and a write failure of the (commented-out) store both become status 500, and their responses differ |
| `Api.CreateTemplateHandlerReturningId` | backend/src/main.rs:261-263 | corrected create: fails exactly when the insert fails; on success returns the id the insert's `RETURNING id` gave, with the request's subject and body |
| `TemplateList.WithoutId` | frontend/src/pages/TemplateList.tsx:36 | the filtered list is no longer than the original, and a template is in it if and only if it was in the original and its id differs from `id` |
| `TemplateList.WithoutIdConcat` | frontend/src/pages/TemplateList.tsx:36 | filtering a concatenation is the concatenation of the filtered parts, so the kept templates stay in their original relative order |
| `TemplateList.WithoutIdAbsent` | frontend/src/pages/TemplateList.tsx:36 | a list with no template of that id is left as it is |
| `TemplateList.WithoutIdIdempotent` | frontend/src/pages/TemplateList.tsx:36 | filtering the same id twice equals filtering it once |
| `TemplateList.WithoutIdDistinct` | frontend/src/pages/TemplateList.tsx:36 | filtering keeps ids distinct |
| `TemplateList.ReplaceById` | frontend/src/pages/TemplateList.tsx:51 | the length is preserved; each entry whose id equals the updated template's becomes it, every other entry is unchanged |
| `TemplateList.Appended` | frontend/src/pages/TemplateList.tsx:79 | the new list is the old list, entries unchanged, followed by the returned template at the end |
| `TemplateList.ByIdWithoutId` | frontend/src/pages/TemplateList.tsx:36 | read as a map by id, the filtered list is the old map without `id` |
| `TemplateList.ByIdReplace` | frontend/src/pages/TemplateList.tsx:51 | read as a map by id, the replaced list is the old map updated at the template's id when the list had that id, and unchanged otherwise |
| `TemplateList.ByIdAppended` | frontend/src/pages/TemplateList.tsx:79 | appending a template with a new id adds it to the map under its id |
| `TemplateList.DeleteKeepsMirror` | frontend/src/pages/TemplateList.tsx:33-41 | after the filter no template has the deleted id, and a list that mirrored the store mirrors it after `delete_template(id)` |
| `TemplateList.UpdateKeepsMirror` | frontend/src/pages/TemplateList.tsx:48-57 | for a stored id, a list that mirrored the store mirrors it after `update_template(u.id, u)` |
| `TemplateList.UpdateOfUnstoredIdBreaksMirror` | frontend/src/pages/TemplateList.tsx:48-57 | for an id the store lacks, `update_template` inserts it (`backend/src/main.rs:95-96`) but replacing by id leaves the list as it is, so the list no longer mirrors the store |
| `TemplateList.CreateKeepsMirror` | frontend/src/pages/TemplateList.tsx:75-85 | appending a template under an id the store lacked keeps the list mirroring the store after `create_template` of it |
| `TemplateList.OverlappingDeletesLoseUpdate` | frontend/src/pages/TemplateList.tsx:33-41 | when two deletes start from the same render, the one finishing second writes back a list that still holds the template the first deleted, so the list no longer mirrors the store |
| `TemplateList.OverlappingDeletesFromCurrentKeepMirror` | frontend/src/pages/TemplateList.tsx:33-41 | corrected delete: two deletes that each filter the current list leave it mirroring the store after both deletes, in either order |
| `TemplateList.MirrorCounts` | frontend/src/pages/TemplateList.tsx:27 | a list that mirrors the store is exactly as long as `count_templates` says |
| `TemplateList.CreatedIdsCollide` | backend/src/main.rs:246-263 | two successful creates both answer id 10; appended by `handleCreateTemplate`, the list then holds two templates with one id, mirrors no store, and deleting that id drops both |
| `TemplateList.CreateWithAssignedIdKeepsMirror` | backend/src/main.rs:261-263 | with the corrected create, a new database-assigned id keeps the list mirroring the store |
| `TemplateList.TemplateListPage.constructor` | frontend/src/pages/TemplateList.tsx:27 | the page starts with an empty list |
| `TemplateList.TemplateListPage.HandleDelete` | frontend/src/pages/TemplateList.tsx:33-41 | if the DELETE request succeeded the list becomes the list captured at the last render, filtered by `id`; otherwise it is unchanged |
| `TemplateList.TemplateListPage.HandleDeleteFromCurrent` | frontend/src/pages/TemplateList.tsx:33-41 | corrected delete: if the DELETE request succeeded the list becomes the current list filtered by `id`; otherwise it is unchanged |
| `TemplateList.TemplateListPage.HandleUpdateTemplate` | frontend/src/pages/TemplateList.tsx:48-57 | if the PUT request succeeded the list becomes the list captured at the last render, replaced by id; otherwise it is unchanged |
| `TemplateList.TemplateListPage.HandleCreateTemplate` | frontend/src/pages/TemplateList.tsx:75-85 | if the POST request returned a template the list becomes the list captured at the last render with it appended; otherwise it is unchanged |

## Left out

- The live Postgres code is network I/O against an external database and is
  not modelled. This covers `set_database`, the SQL and connection setup in
  every handler, and the whole bodies of the read, delete and select handlers
  (`backend/src/main.rs:149-170`, `266-285`, `311-328`, `343-360`). In the
  create and update handlers only the outcome of the database step is modelled,
  as a parameter.
- `query_one` failing on a missing row (`backend/src/main.rs:278`) is database
  behaviour. The store's own read answers `Ok(None)` for a missing id.
- The `count() + 1` id scheme appears only in a comment. The live code uses
  the constant 10, and the model follows the code.
- `main` is not modelled: the router, the CORS layer, the TCP bind and the
  server (`backend/src/main.rs:191-228`).
- Concurrency is not modelled. The `Arc<RwLock<..>>` with concurrent readers
  and writers is reduced to the `poisoned` flag. No operation sets the flag,
  because nothing in the store panics while holding the lock.
- JSON (de)serialization is not modelled. The generic `From<E> for AppError`
  conversion is modelled only for store errors, by `Api.FromDatabaseError`.
- `backend/src/db.rs` (an sqlx pool) is not part of this model.
- The rest of the frontend is not part of this model: `CreateTemplate.tsx`,
  `UpdateTemplates.tsx`, `GenericForm.tsx` and `App.tsx` (rendering and form
  state).
- The rest of the list page is not modelled. This covers the axios calls,
  `fetchTemplates` and the refetch in `handleGenericFormClose`, `handleEdit`,
  the modal flags, console logging and rendering. The page's
  `handleUpdateTemplate` sends its PUT to `/update_template/<id>`, while the
  backend route is `/update_template?id=<id>`. Routing is not modelled, so the
  request's success is a parameter.
- The frontend's `id: number` is modelled as the backend's `i32`, because the
  ids come from the server.
- `Db.Database.SelectTemplates`: the contract states the result as a multiset
  and does not model the order in which a `HashMap` yields its values. The loop
  visits the ids in an arbitrary order of its own. The filter is modelled as a
  pure predicate `T -> bool`, which is what "the equivalent of a SQL SELECT"
  (`backend/src/main.rs:42-43`) asks for. The source accepts any
  `FnMut(&T) -> bool`, and a filter that keeps state could make the selection
  depend on the visiting order. The model does not capture such filters.
- `TemplateList.TemplateListPage.HandleUpdateTemplate` and
  `TemplateList.TemplateListPage.HandleCreateTemplate` model `handleUpdateTemplate`
  and `handleCreateTemplate`, but no code calls them. `UpdateTemplates` and
  `CreateTemplateForm` are rendered without callbacks
  (`frontend/src/pages/TemplateList.tsx:133,136`), each form sends its own
  request, and closing a form refetches the whole list
  (`frontend/src/pages/TemplateList.tsx:68-73`). `TemplateList.UpdateKeepsMirror`
  and `TemplateList.CreateKeepsMirror` are therefore about code that no path
  runs. The refetch itself is not modelled.

## Findings

| source | as written | input that shows it | evidently intended | confidence | as-written member | corrected member |
|---|---|---|---|---|---|---|
| backend/src/main.rs:246-263 | `create_template_handler` answers every create with id 10. It discards the id that `INSERT ... RETURNING id` assigns | Two successful POST `/create_template` requests. Both responses are `{"id":10,…}`, while the inserted rows get their own `SERIAL` ids, and the create form shows "ID: 10" (`frontend/src/pages/CreateTemplate.tsx:66`). The list collision in `TemplateList.CreatedIdsCollide` (two entries with id 10, one delete removes both) arises only through `handleCreateTemplate`, which nothing calls | The response carries the id the database assigned (the comment at line 245 asks for a real id) | medium, not executed | `TemplateList.CreatedIdsCollide` | `Api.CreateTemplateHandlerReturningId` |
| frontend/src/pages/TemplateList.tsx:33-41 | `handleDelete` filters `templates` as captured when the page last rendered, then sets the state to the result | Delete `first`, then delete `second` before the first DELETE returns (both handlers were created by the same render). The second handler sets the list to the render's list without `second`, so the template with id `first` is shown again although the store has deleted it | Each delete filters the current list (`setTemplates((prev) => prev.filter(...))`), modelled by `TemplateList.TemplateListPage.HandleDeleteFromCurrent`; then both deletes take effect in either order | medium, not executed | `TemplateList.OverlappingDeletesLoseUpdate` | `TemplateList.OverlappingDeletesFromCurrentKeepMirror` |
