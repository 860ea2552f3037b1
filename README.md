# Worker tasks of a browser file manager, modelled in Dafny

This project models the part of the file manager's front end that runs
server operations off the main thread:

- the **worker store** (`WorkerStore.js`): `executeTask` starts a Worker,
  appends a `{id, worker}` record to `tasks`, and settles its promise from the
  worker's first message (`onmessage`) or fault (`onerror`), terminating the
  worker and dropping the record either way; `terminateTask(id)` cancels;
- the **eight worker scripts** (`frontend/src/workers/*.js`): each builds a
  URLSearchParams body by successive `append` calls, makes one fetch, and
  posts `{payload}` or `{error}` back, in one of three styles: try/catch
  (edit, copy/move, file creation, recursive search), throw without catch
  (content loader, directory listing), or no status check at all (directory
  creation, download).

Files:

- `wrappers.dfy` — `Option`.
- `search_params.dfy` — the name/value list of a URLSearchParams object
  (WHATWG URL Standard, section 6.2): the `Params` class whose `Append` adds
  at the end, and `Names`, `Get`, `GetAll` with lemmas relating them.
- `decimal.dfy` — the decimal text of a status code and its parse-back.
- `replies.dfy` — values a worker can post, JavaScript truthiness, the
  abstract fetch outcome (`Rejected(reason)` or `Response(status, body)`,
  with `ok` meaning status 200–299 as in the Fetch Standard), and the three
  reply styles `TryCatch`, `ThrowIfNotOk`, `Unchecked`.
- one file per worker script, each a module with the script's `OnMessage`
  handler: given the request fields and the fetch outcome it returns the
  pairs sent and the run (messages posted, exception left uncaught).
- `worker_store.dfy` — the `Registry` class (`tasks`, an event log of
  resolve / reject / terminate, and a ghost set of started records), the
  outcome rule `Settle`, the filter `RemoveId`, the lookup `FirstWithId`,
  lemmas about them, and lemmas composing the worker replies with the
  outcome rule. `executeTask` is split into `Start` (lines 9-12) and the two
  callbacks `OnMessage` and `OnError`; the callbacks take the record
  `{id, worker}` that `Start` returned, because each closure captures both
  the id (used to filter `tasks`) and its own worker (the one it terminates).

Behaviour of the code worth noting:

- Task ids are `Date.now()` timestamps and can repeat: two tasks started in
  the same millisecond share an id, and the first callback drops both
  records (`SharedIdDropsSibling`); the sibling's own later callback then
  removes nothing more.
- `terminateTask` keeps no task status: it terminates the first matching
  record's worker and drops every record with the id.
- Only the try/catch workers report a non-2xx status as `{error}`. The two
  loaders throw without posting, so nothing in the shown code settles the
  promise; directory creation and download post the body whatever the
  status (`UncheckedErrorStatusResolves`).
- A success message settles nothing when its payload is falsy (`null`,
  `false`, `0`, `""`), and an error message with an empty text settles
  nothing either (`TryCatchOkSettlement`, `TryCatchRejectionSettlement`).
- The operation names sent are `editFile`, `copyMove`, `saveFile` (with no
  `override` pair), `searchItems`, `getContent`, `getFiles`, `createDir`,
  and the caller's own name for downloads.

## Model

| member | source | states |
|---|---|---|
| `WorkerStore.Registry.constructor` | frontend/src/stores/WorkerStore.js:5 | the registry starts with no tasks and no events |
| `WorkerStore.Registry.Start` | frontend/src/stores/WorkerStore.js:7-12 | a fresh worker is created and exactly one `{id, worker}` record is appended at the end; earlier records and the event log are unchanged; the registry invariant (no listed worker terminated, one record per worker) is kept |
| `WorkerStore.Settle` | frontend/src/stores/WorkerStore.js:14-16 | a truthy `error` rejects with it whatever the payload; otherwise a truthy `payload` resolves with it; otherwise nothing is settled |
| `WorkerStore.Registry.OnMessage` | frontend/src/stores/WorkerStore.js:14-21 | the promise is settled by `Settle`, then the worker is terminated, and every record with that record's id is removed, others kept in order; invariant kept |
| `WorkerStore.Registry.OnError` | frontend/src/stores/WorkerStore.js:23-29 | the promise is rejected with the error's message, the worker is terminated, and every record with the id is removed; invariant kept |
| `WorkerStore.Registry.TerminateTask` | frontend/src/stores/WorkerStore.js:35-42 | with a matching record: only the first match's worker is terminated, every record with the id is removed, and no promise is settled; with none: tasks and events are unchanged; invariant kept |
| `WorkerStore.RemoveId` | frontend/src/stores/WorkerStore.js:20 | a record is kept exactly when it was present and its id differs |
| `WorkerStore.FirstWithId` | frontend/src/stores/WorkerStore.js:36 | none exactly when no record has the id; otherwise a record with the id that no earlier record's id matches |
| `WorkerStore.RemoveIdConcat` | frontend/src/stores/WorkerStore.js:28 | removing by id distributes over concatenation |
| `WorkerStore.RemoveIdKeepsOrder` | frontend/src/stores/WorkerStore.js:40 | records that survive keep their relative order |
| `WorkerStore.RemoveIdAbsent` | frontend/src/stores/WorkerStore.js:36-38 | removing an id no record has leaves the list unchanged |
| `WorkerStore.RemoveIdIdempotent` | frontend/src/stores/WorkerStore.js:20 | removing the same id twice equals removing it once |
| `WorkerStore.StartThenRemove` | frontend/src/stores/WorkerStore.js:10-20 | appending a record and then removing its id gives the earlier list filtered, and the earlier list itself when its id was unique |
| `WorkerStore.SharedIdDropsSibling` | frontend/src/stores/WorkerStore.js:10-12 | two tasks started with one id: after the first answers, neither record is listed, the second's worker is not terminated, no record can be found by that id, and the second's later filter removes nothing |
| `WorkerStore.TryCatchNonOkRejects` | frontend/src/workers/fileEditWorker.js:15-16 | a non-ok status seen by a try/catch worker rejects the promise with "HTTP <status>", whatever the body |
| `WorkerStore.TryCatchOkSettlement` | frontend/src/workers/fileEditWorker.js:17-20 | a readable ok response resolves with the body when it is truthy and settles nothing otherwise |
| `WorkerStore.TryCatchRejectionSettlement` | frontend/src/workers/fileEditWorker.js:22-23 | a failed fetch rejects with its message when that message is non-empty and settles nothing otherwise |
| `WorkerStore.UncheckedErrorStatusResolves` | frontend/src/workers/dirCreationWorker.js:9-12 | without a status check, any status with a truthy body resolves the promise with the body |
| `Replies.TryCatch` | frontend/src/workers/fileEditWorker.js:12-24 | exactly one message and no uncaught throw; it carries a payload or an error, never both; a payload exactly when the status is ok and the body parsed; "HTTP <status>" for a non-ok status; the fetch's or the parser's message otherwise |
| `Replies.ThrowIfNotOk` | frontend/src/workers/contentLoader.js:9-15 | at most one message, posted exactly when the status is ok and the body parsed, and then `{payload}`; otherwise an uncaught throw, "HTTP <status>" for a non-ok status; never an `{error}` message |
| `Replies.Unchecked` | frontend/src/workers/dirCreationWorker.js:9-12 | a readable body is posted as `{payload}` whatever the status; a failed fetch or read throws and posts nothing; never an `{error}` message |
| `Replies.UncheckedIgnoresStatus` | frontend/src/workers/downLoader.js:9-12 | the run does not depend on the status |
| `Replies.ThrowIfNotOkAgreesOnSuccess` | frontend/src/workers/fileLoader.js:8-14 | the loaders post exactly what a try/catch worker posts on success, and throw exactly the text a try/catch worker would post as its error |
| `Replies.StatusOfHttpError` | frontend/src/workers/fileEditWorker.js:16 | the status can be read back from the "HTTP <status>" text |
| `Decimal.Show` | frontend/src/workers/fileCopyMoveWorker.js:18 | the status is shown as a non-empty string of digits without a leading zero |
| `SearchParams.Params.Append` | frontend/src/workers/fileLoader.js:4-6 | a pair is added at the end of the list, nothing else changes |
| `FileEditWorker.OnMessage` | frontend/src/workers/fileEditWorker.js:1-25 | exactly the names api, dir, filename, newname, content, override in that order; api is `editFile`; newname is empty when it equals filename and verbatim otherwise; the other fields forwarded unchanged; replies in the try/catch style |
| `FileCopyMoveWorker.OnMessage` | frontend/src/workers/fileCopyMoveWorker.js:1-27 | 4 + number-of-files pairs: api `copyMove`, dir, destination, action, then one `filenames[]` pair per file in list order, so `getAll("filenames[]")` is the file list, duplicates kept; replies in the try/catch style |
| `FileCreationWorker.OnMessage` | frontend/src/workers/fileCreationWorker.js:1-23 | exactly api, dir, filename, content in that order; api is `saveFile`; no `override` pair; replies in the try/catch style |
| `RecursiveSearchWorker.OnMessage` | frontend/src/workers/recursiveSearchWorker.js:1-22 | exactly api, dir, pattern in that order; api is `searchItems`; replies in the try/catch style |
| `ContentLoader.OnMessage` | frontend/src/workers/contentLoader.js:1-16 | exactly api, dir, filename in that order; api is `getContent`; a non-ok status throws before any post |
| `FileLoader.OnMessage` | frontend/src/workers/fileLoader.js:1-15 | exactly api, dir in that order; api is `getFiles`; a non-ok status throws before any post |
| `DirCreationWorker.OnMessage` | frontend/src/workers/dirCreationWorker.js:1-13 | exactly api, dir, dirname in that order; api is `createDir`; the body is posted whatever the status |
| `DownLoader.OnMessage` | frontend/src/workers/downLoader.js:1-13 | exactly api, dir, filename in that order; api is the caller's value verbatim; the blob is posted whatever the status |

## Left out

- `Date.now()` as the id source: the id is a parameter of `Start`, and nothing assumes ids are unique.
- The Worker object, `worker.postMessage(payload)` and `worker.terminate()`: a worker is an opaque object, delivery of the request to it is not modelled (each script's handler takes the request as a parameter), and termination is a logged event. Two exception paths of `executeTask` are not modelled: a `new Worker(...)` that throws (nothing is pushed to `tasks`), and a `worker.postMessage(payload)` that throws (a payload that cannot be cloned), which rejects the promise while the record stays in `tasks` and the worker is never terminated.
- Promise scheduling and interleaving: each callback is one atomic step. The browser's guarantee that a terminated worker delivers no further message is not modelled, so the callbacks may be called for any started task.
- `fetch`, `res.json()` and `res.blob()`: the network and the body read are the abstract `Fetched` value; JSON numbers are integers, so NaN, -0 and fractions (and their truthiness) are not modelled.
- Percent-encoding of the parameter list into the request body (application/x-www-form-urlencoded); only the ordered list of pairs is modelled.
- The request's `url` field, which only addresses the fetch, and non-string field values: fields are modelled as strings, and `newname === filename` is compared on those strings; non-string fields, which `===` would also compare by type and `append` would convert, are not modelled.
- A `postMessage` that throws inside a try block (a value that cannot be cloned): posted values are JSON values or blobs, which always clone.
- What the host does with an exception a handler leaves uncaught (whether `onerror` fires): the run records the exception and nothing is posted.
- `ModalsStore.js`, `FilesStore.js`, `I18nStore.js` and the router are not part of this model: they are UI glue and single fetches with no logic of their own. The directory collection's merge, sort and selection rules are in none of the modelled files and are not modelled.
