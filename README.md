# Message board store, modelled in Dafny

This project models the in-memory store of an anonymous message board
(`routes/api.js`). Boards hold threads and threads hold replies. Each thread
and each reply has a delete password and a report flag. The store is one
module-level map from board name to an array of threads. Eight request
handlers act on it:

- list a board's threads (GET `/api/threads/:board`);
- create a thread (POST);
- delete a thread with its password (DELETE);
- report a thread (PUT);
- view one thread (GET `/api/replies/:board`);
- add a reply (POST);
- soft-delete a reply with its password (DELETE);
- report a reply (PUT).

Layout:

- `records.dfy` (module `Records`): the thread and reply records, and the JSON
  projections that leave out the password and the report flag.
- `sorting.dfy` (module `Sorting`): a descending sort on sequences. It stands in
  for `Array.prototype.sort` with a subtracting comparator.
- `lookup.dfy` (module `Lookup`): the first-match semantics of `find` and
  `findIndex`.
- `boards.dfy` (module `Boards`): what each handler does to one board or one
  thread, as functions on values, with the lemmas about them.
- `store.dfy` (module `Store`): the class `BoardStore`. Its field `boards` is
  the map, and it has one method per handler. Every method keeps the invariant
  `Valid()`: each stored thread's `replyCount` field equals the length of its
  `replies` array.

Threads live in the map as values. In the source each thread object sits in
exactly one board array and is reached only through it, so updating a copy and
storing it back behaves the same as updating the object in place.

Some behaviours of the handlers are easy to misread:

- Reporting a missing thread or reply answers "thread not found" or
  "reply not found".
- Viewing a missing thread answers the text "thread not found".
- Deleting a missing reply answers "reply not found".
- Deleting a thread on a board that does not exist throws a `TypeError`. The
  optional chaining leaves the index `undefined`, which is not `-1`, and then
  `threads[threadIndex]` throws. The model returns the outcome `TypeError`.
- Listing sorts only the replies of the first ten threads, because the sort
  runs inside the `.map` over the ten-thread slice.

## Model

| member | source | states |
|---|---|---|
| Sorting.SortDesc | routes/api.js:19 | the sorted array is a permutation of the input (same multiset and length) and each element's key is at least the key of every later element |
| Lookup.FindIndex | routes/api.js:74 | the result is -1 exactly when no element has the id; otherwise it is the first index whose id matches, and no earlier element matches |
| Lookup.FindIndexSeesOnlyKeys | routes/api.js:90 | a lookup depends only on the ids, position by position, so updates that keep ids keep every lookup |
| Records.ShowReplies | routes/api.js:114-118 | the reply projection has one element per reply, in stored order, each the reply's id, text and creation time |
| Records.ViewsHideSecrets | routes/api.js:26-40 | two threads that differ only in passwords, report flags and the stored count have equal views, so no view exposes a password or a report flag |
| Boards.RemoveAt | routes/api.js:79 | splice removes exactly the thread at the index: one element fewer, the earlier threads in place, the later ones shifted down by one, the multiset minus that thread; reply counts keep agreeing |
| Boards.ReportAt | routes/api.js:94 | the thread at the index becomes reported and nothing else changes, in it or in any other thread; reply counts keep agreeing |
| Boards.AppendReply | routes/api.js:141-143 | the reply array grows by one with the new reply last and the old replies first; the count becomes the new length; bump time becomes now; no other field changes |
| Boards.SoftDeleteAt | routes/api.js:160 | the reply at the index keeps everything but its text, which becomes "[deleted]"; the number of replies, the count, the other replies and the thread's other fields are unchanged |
| Boards.ReportReplyAt | routes/api.js:178 | the reply at the index becomes reported; no other reply and no field of the thread changes |
| Boards.RelistPermutes | routes/api.js:15-25 | listing leaves the board a permutation of itself; each thread differs from its sorted self only in the order of its replies, which is a permutation; threads after the tenth are untouched; reply counts keep agreeing |
| Boards.ListingShape | routes/api.js:18-41 | the listing has min(10, n) threads in descending bump order, and no unlisted thread was bumped later than a listed one; each thread has min(3, m) replies in descending creation order, and no hidden reply is newer than a shown one; each carries the thread's id, text, creation and bump times, the full reply count, and the views of exactly the thread's first min(3, m) stored replies |
| Boards.SummaryShape | routes/api.js:23-30 | a listed thread, once its replies are sorted, shows min(3, m) replies in descending creation order, and none of its hidden replies is newer than a shown one |
| Store.SortAndList | routes/api.js:18-41 | the loop leaves the board equal to its relisted form and produces exactly the listing of it |
| Boards.PostThread | routes/api.js:51-66 | the new thread is first, with no replies, count 0, not reported, created and bumped at now; the old threads follow in order; looking up its id finds it even if an older thread has the same id; other ids are found one place later; reply counts keep agreeing |
| Boards.UpdateKeepsLookup | routes/api.js:90-94 | replacing a thread by one with the same id leaves every thread lookup unchanged |
| Boards.ReportThreadIdempotent | routes/api.js:89-95 | reporting the same thread a second time finds the same index and leaves the board as the first report left it |
| Boards.ReportReplyIdempotent | routes/api.js:170-179 | reporting the same reply a second time finds the same thread and reply and leaves the board as the first report left it |
| Boards.AddReplyViews | routes/api.js:128-143 | after a reply is added, both views count one more reply, the single-thread view lists the new reply last, and the thread's listing entry shows the new bump time |
| Store.BoardStore.constructor | routes/api.js:4 | the store starts with no boards |
| Store.BoardStore.ListThreads | routes/api.js:12-44 | an unknown board gives [] and is not created; otherwise the stored board becomes its relisted form and the answer is the listing of it |
| Store.BoardStore.CreateThread | routes/api.js:47-68 | the board is created if absent, the new thread is put in front of it, and the answer is a redirect to /b/<board>/ |
| Store.BoardStore.DeleteThread | routes/api.js:69-84 | unknown board: TypeError; id not found: "thread not found" and no change; password matches: "success" and the first matching thread is removed; otherwise "incorrect password" and no change |
| Store.BoardStore.ReportThread | routes/api.js:85-96 | the first matching thread is flagged and the answer is "reported"; a missing board or thread answers "thread not found" and nothing changes |
| Store.BoardStore.ViewThread | routes/api.js:99-123 | the answer is "thread not found" exactly when the board or thread is missing; otherwise it is the first matching thread's public fields with every reply in stored order and the full count; nothing changes |
| Store.BoardStore.CreateReply | routes/api.js:124-146 | a missing board or thread answers "thread not found" with no change; otherwise the reply is appended to the first matching thread and the answer is a redirect to /b/<board>/<thread_id> |
| Store.BoardStore.DeleteReply | routes/api.js:147-165 | "thread not found" or "reply not found" with no change when a target is missing; on a password match the reply is soft-deleted and the answer is "success"; otherwise "incorrect password" with no change |
| Store.BoardStore.ReportReply | routes/api.js:166-180 | "thread not found" or "reply not found" with no change when a target is missing; otherwise the first matching reply is flagged and the answer is "reported" |

## Left out

- HTTP plumbing: routing, reading `req.params`, `req.body` and `req.query`,
  `res.json`, `res.send`, `res.redirect` and status codes. A method returns the
  body it would send, the redirect location, or the JSON value.
- The clock and the id generator (`Date.now()` and `new Date()`). They become
  the parameters `id` and `now`. The source reads the clock separately for the
  id, `created_on` and `bumped_on`. The model uses one `now` for all of them,
  so it does not capture a millisecond passing between those reads. Ids are not
  assumed unique, because the timestamp scheme can collide. Lookups act on the
  first match.
- Missing request fields (`undefined` in JavaScript) and values that are not
  strings. Ids, texts and passwords are modelled as strings. Timestamps are
  modelled as integers, which is what the comparator's `Date` subtraction
  compares.
- The sort algorithm itself. `Sorting.SortDesc` is an insertion sort, and only
  its output is claimed: descending order and a permutation. It happens to be
  stable, like the engine's sort, but stability is not stated.
- The exception thrown when a thread is deleted on a board that does not exist
  is modelled as the outcome `TypeError`. What the framework then does with the
  exception is not modelled.
