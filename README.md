# MyWin XP backfill — a Dafny model

The repository grants XP for `#mywin` submissions. Stored submissions
(`mywin_posts`) are replayed into an `xp_events` ledger. That ledger carries a unique
index `uq_xp_user_unique_key` on `(user_id, unique_key)`, so each
`(user_id, unique_key)` pair is rewarded at most once; the same `file_id` under two
users is rewarded twice. When the store refuses a duplicate key, the post is counted
as `dup`; it is not treated as an error. The same backfill exists twice:

- `backfill_mywin_xp_events.py` is a standalone script. `process_batch` returns four
  counters per batch and `main` sums them.
- `backfill_mywin.py` is a library function. `_process_batch` updates one `stats`
  dict in place, and that dict also has a `scanned` counter.

A third file, `main.py`, is a Telegram bot with an in-memory leaderboard.
`handle_message` gives a submission 20 XP under its game name. `handle_reaction`
gives the replied-to user 2 XP under "reaction", but it is not registered with the
dispatcher (its registration is commented out), so the bot as wired never calls it.
The model states what each handler does when called.

The model is split into these files and modules:

- `text.dfy` (`PyText`): the Python string built-ins the code relies on.
  - `str.strip`, `str.lower`, `in`, `find` and `split(sep, 1)`.
  - `int()` on a string, and `str()` of an integer.
- `posts.dfy` (`Posts`): how a stored post is read.
  - Loosely typed field values and Python truthiness.
  - `(x or "").strip()`, which raises on a truthy non-string.
  - `int(x)` and `to_utc_aware`.
- `ledger.dfy` (`Ledger`): the `xp_events` collection as a value `Store` and as a
  class `XpEvents`.
  - `create_index(unique=True)`, which fails when the rows already hold a duplicate key.
  - `insert_one`, which raises `DuplicateKeyError` exactly when the index exists and
    already holds the key.
- `reconciler.dfy` (`Reconciler`): what both backfills do with a post once it is read.
  - Each post is read into a `Derivation`: `Skip`, `Fail` (an exception other than a
    duplicate key) or `Emit(event)`.
  - `Apply` is the per-post `try` block, and `Replay` folds it over the posts in order.
  - It holds all the ledger-level properties: bookkeeping, uniqueness, dry-run
    isolation, batch splitting, idempotence and at-most-once.
- `batching.dfy` (`Batching`): the `batch.append / flush at the limit / flush the
  remainder` loop, as a cut of the post sequence.
- `backfill_script.dfy` (`ScriptBackfill`): `backfill_mywin_xp_events.py`. Its methods
  work on the live `XpEvents` object:
  - `ProcessBatch` is `process_batch`.
  - `RunBackfill` is `main`; its loop is split into `TakePost`, `FlushBatch` and
    `FlushRest`.
  - The script reads the clock at most once per post (only for a post without a
    datetime `ts`), so `clock(k)` is the reading taken for the `k`-th post.
- `backfill_library.dfy` (`LibraryBackfill`): `backfill_mywin.py`.
  - A `RunStats` class mirrors the `stats` dict and is updated in place.
  - One `nowUtc` value is shared by the whole run.
- `comparison.dfy` (`Comparison`): where the two backfills differ.
  - A `user_id` of `0` is skipped by the script but granted by the library.
  - A `user_id` of `""` is skipped by the script but is an error in the library.
  - Every key the script grants, the library grants too, so running the script after
    the library adds nothing.
- `leaderboard.dfy` (`MywinBot`): `main.py`.
  - The acceptance rule is a pure function.
  - The leaderboard is a class whose `users` map the handlers update in place.
  - A deleted message is returned as a decision.

Each run method is proved against the fold. The final collection and the counters
of a run equal `Replay` of the whole post sequence from the indexed collection,
whatever the batch limit, and the batches form the unique cut of the posts into
full batches plus a remainder. The properties of the run are then lemmas about
`Replay`:

- every post lands in exactly one counter;
- the index's guarantee is kept;
- a skipped post never reaches the ledger;
- a dry run adds no rows (the unique index is still created first, and a ledger that
  already holds a duplicate key stops the run);
- a re-run adds nothing;
- N grants of one key insert it once.

Some consequences of the code are worth stating outright:

- **Dry-run counts.** A dry run counts every emitted event as `inserted` and never
  counts `dup`, so its counts can differ from a real run's (`ReplayDryRun`).
- **Dry runs still create the index.** Both backfills create `uq_xp_user_unique_key`
  before the scan whatever the dry-run flag, so a dry run leaves an unindexed
  collection indexed, and a collection that already holds a duplicate key stops it
  before any post is read (`DryRunAfterIndex`).
- **Second-run count.** A second run over posts A, B, A counts all three posts as
  dup (`ResubmissionScenario`).
- **Empty game name.** Neither backfill skips on an empty `game_name`; only
  `file_id` and `user_id` decide.
- **No run-once guard.** There is no completion marker or run-once guard: every run
  scans all posts.

## Model

| member | source | states |
|---|---|---|
| PyText.Strip | backfill_mywin_xp_events.py:71 | the result is no longer than the input, neither starts nor ends with whitespace, and is empty exactly when the input is all whitespace |
| PyText.StripSlice | backfill_mywin_xp_events.py:71 | `strip` removes only leading and trailing whitespace: the result is a slice of the input, and everything cut off is whitespace |
| PyText.StripUntrimmed | backfill_mywin_xp_events.py:74 | a string without surrounding whitespace is its own strip |
| PyText.StripIdempotent | backfill_mywin.py:58 | stripping twice equals stripping once |
| PyText.Lower | backfill_mywin_xp_events.py:73 | `lower()` on ASCII letters maps `A`-`Z` to `a`-`z` and keeps the length of the string |
| PyText.Find | main.py:13 | `"#mywin" in text` holds exactly when `find` is non-negative; the result is the first occurrence |
| PyText.SplitOnce | main.py:14 | `split(sep, 1)` gives two parts exactly when `sep` occurs; the parts joined by `sep` rebuild the text, and the first part ends at the first occurrence |
| PyText.ParseInt | backfill_mywin_xp_events.py:85 | `int(s)` for a string; its contract is `ParseIntToString`: it reads back the decimal form of every integer |
| PyText.ParseIntToString | backfill_mywin_xp_events.py:85 | `int(str(n)) == n` for every integer `n`, so a decimal `user_id` string converts to its number |
| Posts.Truthy | backfill_mywin_xp_events.py:77 | Python truthiness behind `not uid`: `None`, `False`, `0` and `""` are falsy. `Comparison.UserZero` and `Comparison.UserEmptyString` state its effect on the skip rule |
| Posts.StrippedOrEmpty | backfill_mywin_xp_events.py:71-74 | `(v or "").strip()` raises exactly on a truthy non-string; it strips a string and gives `""` for a falsy value |
| Posts.IntOf | backfill_mywin_xp_events.py:85 | `int(v)` keeps an int, parses a string, and raises on `None` and on a datetime |
| Posts.ToUtcAware | backfill_mywin_xp_events.py:32-39 | the result is `None` exactly for a non-datetime; otherwise it is an aware UTC value with the same instant, and a naive value keeps its wall clock |
| Posts.UtcValueUnique | backfill_mywin.py:10-15 | two aware UTC values with the same instant are equal, so the conversion has a single possible result |
| Ledger.ReasonFor | backfill_mywin_xp_events.py:82 | the reason is `"mywin_submission"` exactly when the tag is `"mywin"`, and `"comeback_submission"` otherwise |
| Ledger.UniqueKeyFor | backfill_mywin_xp_events.py:88 | the key is `"mywin:"` followed by the stripped `file_id` |
| Ledger.KeysUniqueCount | backfill_mywin_xp_events.py:21-27 | under the unique index there are as many distinct keys as rows |
| Ledger.Insert | backfill_mywin_xp_events.py:103-108 | `DuplicateKeyError` is raised exactly when the index exists and holds the key, and the collection is then unchanged; otherwise the document is appended |
| Ledger.InsertKeySet | backfill_mywin_xp_events.py:103 | after an insert attempt the document's key is present, and no other key has been added |
| Ledger.InsertConsistent | backfill_mywin_xp_events.py:21-27 | an insert keeps the index's guarantee that no two rows share `(user_id, unique_key)` |
| Ledger.InsertAtMostOnce | backfill_mywin_xp_events.py:103-108 | a second insert with an existing key is refused and leaves the collection unchanged |
| Ledger.InsertDifferentUsers | backfill_mywin.py:28-32 | the same `unique_key` for two different users is stored twice |
| Ledger.CreateUniqueIndex | backfill_mywin_xp_events.py:23-27 | creating the index succeeds exactly when it already exists or the rows hold no duplicate key; the rows are kept and the index is then in force |
| Ledger.XpEvents.CreateIndex | backfill_mywin_xp_events.py:23-27 | the method reports success exactly as `CreateUniqueIndex` does, updates the collection in place to its result, and keeps the guarantee |
| Ledger.XpEvents.InsertOne | backfill_mywin_xp_events.py:103 | the method updates the live collection and returns the outcome exactly as `Insert`, keeping the guarantee |
| Reconciler.Apply | backfill_mywin_xp_events.py:99-108 | applying one post never drops or adds the unique index |
| Reconciler.Replay | backfill_mywin_xp_events.py:69-111 | the `for post in posts` loop as a fold over the derivations; its contract is the `Replay*` lemmas below and the run methods proved equal to it |
| Reconciler.ApplyOne | backfill_mywin_xp_events.py:70-111 | one `try` block on the live collection gives the new state and outcome of `Apply` |
| Reconciler.ReplayCounts | backfill_mywin_xp_events.py:66-114 | every post lands in exactly one counter: skips and errors are counted by kind, `inserted + dup` is the number of emitted events, and the sum is the number of posts |
| Reconciler.ReplayConsistent | backfill_mywin_xp_events.py:21-27 | a run keeps the unique index and the rule that no two rows share a key |
| Reconciler.ReplayAppendOnly | backfill_mywin_xp_events.py:103-104 | a run only appends, and a real run appends one row per `inserted` |
| Reconciler.ReplayRowsFromDocs | backfill_mywin_xp_events.py:77-79 | every row a run adds is an emitted event: skipped and failed posts write nothing |
| Reconciler.ReplayKeys | backfill_mywin_xp_events.py:103-108 | after a real run the keys are exactly the old ones plus the emitted ones |
| Reconciler.ReplayDryRun | backfill_mywin_xp_events.py:99-101 | a dry run leaves the collection unchanged, never counts `dup`, and counts every emitted event as `inserted` |
| Reconciler.DryRunAfterIndex | backfill_mywin_xp_events.py:21-27 | index creation fails exactly on an unindexed collection with a duplicate key; otherwise a dry run after it leaves the rows as they were with the index in force |
| Reconciler.ReplayAppend | backfill_mywin_xp_events.py:55-62 | processing in two consecutive batches and summing the counters equals processing the whole sequence |
| Reconciler.ReplayAllPresent | backfill_mywin_xp_events.py:106-108 | when the index holds every emitted key, a run changes nothing and counts every emitted event as `dup` |
| Reconciler.SameSignaturesCounts | backfill_mywin_xp_events.py:77-88 | derivations that agree on shape and key have the same skip, error and event counts and the same key set |
| Reconciler.Rerun | backfill_mywin_xp_events.py:103-108 | re-running against what a real run left adds no row; posts inserted or dup the first time are all dup, and skips and errors repeat |
| Reconciler.ReplayInsertedKeys | backfill_mywin.py:90-93 | on an indexed collection, `inserted` is the number of new distinct keys and `dup` is every other emitted event |
| Reconciler.SameKeyInsertedOnce | backfill_mywin.py:90-93 | N posts with one new key give one `inserted` and N - 1 `dup` |
| Reconciler.SameKeyDocs | backfill_mywin.py:90-93 | N grants of one key emit N events that share that single key |
| Reconciler.ResubmissionScenario | backfill_mywin_xp_events.py:103-108 | posts A, B, A on an empty indexed collection store two rows and count one dup; a second run counts three dups and stores nothing |
| Reconciler.ResubmissionFirstRun | backfill_mywin_xp_events.py:103-108 | the first run over A, B, A gives `inserted=2, dup=1` and rows A, B |
| Batching.BatchSize | backfill_mywin.py:44 | a batch is flushed at `limit` posts, and after every post when the limit is below one |
| Batching.FlattenAppend | backfill_mywin_xp_events.py:54 | appending a batch appends its posts to the flattened sequence |
| Batching.CloseBatch | backfill_mywin_xp_events.py:55-58 | flushing a full batch extends the cut of the posts read so far |
| Batching.FinishBatches | backfill_mywin_xp_events.py:60-62 | flushing a non-empty remainder completes a cut of all posts into full batches and a shorter last one |
| Batching.ChunkedByUnique | backfill_mywin.py:41-49 | there is only one such cut: the batches are determined by the posts and the limit |
| ScriptBackfill.Derive | backfill_mywin_xp_events.py:71-97 | one iteration of `process_batch` up to the insert; its contract is `ScriptBackfill.DeriveSpec` |
| ScriptBackfill.DeriveSpec | backfill_mywin_xp_events.py:71-97 | the per-post rule. Skip exactly when the stripped `file_id` is empty or `user_id` is falsy; error when a strip or `int()` raises. Otherwise the event has `user_id` `int(uid)`, key `"mywin:"+file_id`, the configured `xp`, the tag-based reason and no `type`; `ts == created_at` is the post's time in UTC or the clock reading; and it carries the meta fields |
| ScriptBackfill.DerivationAt | backfill_mywin_xp_events.py:75 | the k-th post is derived with the clock reading taken for it |
| ScriptBackfill.DerivationsSlice | backfill_mywin_xp_events.py:56 | a batch's derivations are the matching slice of the whole run's |
| ScriptBackfill.ProcessBatch | backfill_mywin_xp_events.py:66-114 | the returned counters and the new collection are the replay of the batch's derivations from the old collection |
| ScriptBackfill.FlushBatch | backfill_mywin_xp_events.py:56-57 | flushing a batch after a processed prefix reaches the replay of the longer prefix |
| ScriptBackfill.TakePost | backfill_mywin_xp_events.py:53-58 | one cursor step keeps the loop invariant: the open batch is the posts since the last flush, and what was flushed is a full-batch cut replayed in order |
| ScriptBackfill.FlushRest | backfill_mywin_xp_events.py:60-62 | flushing the remainder completes the replay of all posts and the cut |
| ScriptBackfill.RunBackfill | backfill_mywin_xp_events.py:41-64 | if the index cannot be created, nothing is read or written. Otherwise the totals and the final collection are the replay of all posts in order from the indexed collection, in batches that cut the posts, whatever the batch limit |
| ScriptBackfill.StoredRowsComeFromPosts | backfill_mywin_xp_events.py:77-79 | every added row is the event of a post with a non-empty `file_id` and a truthy `user_id` |
| ScriptBackfill.DerivationsSameSignatures | backfill_mywin_xp_events.py:84-97 | the XP amount and the clock readings change no key, skip or failure |
| ScriptBackfill.RerunAddsNothing | backfill_mywin_xp_events.py:22-27 | a second script run over the same posts adds no rows and counts every earlier inserted or dup post as dup |
| LibraryBackfill.Derive | backfill_mywin.py:58-84 | one iteration of `_process_batch` up to the insert; its contract is `LibraryBackfill.DeriveSpec` |
| LibraryBackfill.DeriveSpec | backfill_mywin.py:58-84 | the per-post rule. Skip exactly when the stripped `file_id` is empty or `user_id is None`; error when a strip or `int()` raises. Otherwise `type == reason`, key `"mywin:"+file_id` and `xp_per_post`; `ts == created_at` is the post's UTC time or the run-wide `now_utc` |
| LibraryBackfill.DerivationAt | backfill_mywin.py:68 | the k-th derivation is the k-th post's, with the run's single fallback time |
| LibraryBackfill.DerivationsSlice | backfill_mywin.py:45 | a batch's derivations are the matching slice of the whole run's |
| LibraryBackfill.RunStats.constructor | backfill_mywin.py:34 | `stats` starts with every counter at zero |
| LibraryBackfill.RunStats.Count | backfill_mywin.py:86-95 | one outcome bumps exactly its own counter in place and leaves `scanned` alone |
| LibraryBackfill.ProcessBatch | backfill_mywin.py:54-96 | `scanned` grows by the batch size, and the counters grow by the replay of the batch, which also gives the new collection |
| LibraryBackfill.FlushBatch | backfill_mywin.py:44-46 | flushing a batch after a processed prefix reaches the replay of the longer prefix, with `scanned` at its end |
| LibraryBackfill.TakePost | backfill_mywin.py:42-46 | one cursor step keeps the loop invariant, with `scanned` marking the end of the flushed prefix |
| LibraryBackfill.FlushRest | backfill_mywin.py:48-49 | flushing the remainder completes the replay of all posts, with `scanned` equal to the number of posts |
| LibraryBackfill.BackfillMywinToXpEvents | backfill_mywin.py:18-51 | when index creation raises, there are no stats and nothing is changed. Otherwise fresh stats hold `scanned == len(posts) == inserted + dup + skipped + errors` and the replay counters of all posts in order, whatever `batch_limit` (including limits of zero or below); the batches cut the posts |
| LibraryBackfill.ScannedAddsUp | backfill_mywin.py:34 | `scanned == inserted + dup + skipped + errors` after a run |
| LibraryBackfill.StoredRowsComeFromPosts | backfill_mywin.py:63-65 | every added row is the event of a post with a non-empty `file_id` and a present `user_id` |
| LibraryBackfill.DerivationsSameSignatures | backfill_mywin.py:67-84 | `xp_per_post` and `now_utc` change no key, skip or failure |
| LibraryBackfill.RerunAddsNothing | backfill_mywin.py:90-93 | a second library run over the same posts adds no rows and counts every earlier inserted or dup post as dup |
| Comparison.UserZero | backfill_mywin.py:63 | a post with `user_id == 0` is skipped by the script but granted to user 0 by the library |
| Comparison.UserEmptyString | backfill_mywin.py:63 | a post with `user_id == ""` is skipped by the script, but `int("")` fails in the library and counts as an error |
| Comparison.ScriptEmitsLibraryEmits | backfill_mywin.py:63-75 | whenever the script emits an event for a post, the library emits one with the same key |
| Comparison.CoveredKeys | backfill_mywin.py:75 | when one list of derivations covers another's events key for key, it covers the other's key set |
| Comparison.ScriptCoveredByLibrary | backfill_mywin.py:63 | position by position, the library covers every event the script emits |
| Comparison.ScriptAfterLibrary | backfill_mywin.py:28-32 | running the script after a real library run over the same posts adds no rows and counts every script event as dup |
| MywinBot.AddXp | main.py:24-30 | `add_to_leaderboard` on the dict's value; its contract is `AddXpEffect`, `AddXpNewUser` and `AddXpKeepsTotals` |
| MywinBot.AddXpEffect | main.py:24-30 | `add_to_leaderboard` raises the user's total and the game's value by `xp`, and changes no other game and no other user |
| MywinBot.AddXpNewUser | main.py:25-26 | an absent user enters with total `xp` and the one game |
| MywinBot.SumAdd | main.py:28-30 | adding `xp` to one game, which starts at 0 if missing, adds `xp` to the sum of the games |
| MywinBot.AddXpKeepsTotals | main.py:24-30 | each user's total stays the sum of their per-game values |
| MywinBot.AwardsKeepTotals | main.py:5 | from the empty leaderboard, after any awards, every total equals the sum of the user's games |
| MywinBot.Decide | main.py:9-22 | the accept-or-delete rule of `handle_message`; its contract is `DecideSpec` |
| MywinBot.DecideSpec | main.py:9-16 | a message is accepted exactly when it has a photo and non-whitespace text after the first `#mywin`. The award is 20 XP to the sender under that stripped remainder, which has no surrounding whitespace |
| MywinBot.Leaderboard.constructor | main.py:5 | the leaderboard starts empty, with the totals invariant holding |
| MywinBot.Leaderboard.AddToLeaderboard | main.py:24-30 | the step-by-step in-place update gives `AddXp` of the old map and keeps the totals invariant |
| MywinBot.Leaderboard.HandleMessage | main.py:7-22 | the message is deleted exactly when `Decide` says so, and the leaderboard is then unchanged; otherwise the sender gets 20 XP under the game name |
| MywinBot.Leaderboard.HandleReaction | main.py:32-36 | a reply gives its target 2 XP under "reaction"; anything else changes nothing |

## Left out

- The MongoDB client, database selection, environment settings (`MONGO_URL`, `DB_NAME`, `MYWIN_XP`, `BATCH_LIMIT`, `DRY_RUN`) and the exit on a missing `MONGO_URL` are I/O and configuration. The settings are parameters; their defaults (20 XP, batch limit 1000, no dry run) are not modelled.
- The secondary indexes `ix_mywin_ts` and `ix_mywin_file_id` affect speed only.
- `find().sort().batch_size()` and `count_documents` are store mechanics. The posts arrive as a sequence already in `(ts, _id)` order.
- Timezone arithmetic is reduced to an offset in seconds. `datetime.now` is a parameter: a per-post `clock` for the script and one `nowUtc` for the library.
- Ledger.Insert: does not model BSON's 64-bit integer bound. A `user_id` outside [-2^63, 2^63) makes `insert_one` raise a non-duplicate error, which both backfills count under `errors`. The model stores the row and counts it `inserted`, so for such a post a real run and a dry run do not differ on `errors` in the model, as they would in the code.
- Posts.IntOf: does not model CPython's limit on `int()` of strings longer than 4300 digits, which raises `ValueError` (counted under `errors`). The model parses digit strings of any length.
- The wiring of `main.py` is not modelled. `handle_reaction` is never registered (main.py:40-41). `handle_message` is registered only for text messages (main.py:39), and a photo message's caption is not its `text`, so the bot as wired would likely never accept a submission. The model states what each handler does when called.
- Transient store failures inside `insert_one` are not modelled. An error outcome comes from a `.strip()` on a non-string or a failed `int()`.
- Logging and `print` carry no state.
- Only the BSON value kinds null, bool, int, string and datetime are modelled. Other kinds (floats, arrays, sub-documents) are not.
- `int()` of a float is not modelled.
- `str.lower` is modelled on the ASCII letters only; full Unicode case mapping is not modelled. `str.isspace` covers Python's whitespace characters.
- `int()` on a string accepts ASCII digits only. Unicode decimal digits are not modelled.
- Telegram is out of scope: `Updater`, handler registration, polling, and the actual `message.delete()` call, which is returned as a decision.
- `update.message`, `from_user` or `reply_to_message.from_user` being `None` is not modelled: the handlers would raise, and the model assumes these are present.
