# Anki sync agent: a Dafny model

This project models the reconciliation core of the sync agent in
`sync_to_anki.py`. The agent reads the `anki_queue` table, takes the rows not
yet pushed to Anki (oldest first, optionally capped), and handles each row in
turn:

- a row with no definition is skipped and, outside dry-run, gets the error
  "missing definition";
- a row whose word already has a note in Anki is, outside dry-run, marked
  pushed without adding anything;
- in dry-run mode nothing is written and no note is added; a row that would
  be added is only reported;
- otherwise the note is added, and the row is marked pushed or gets the error
  "Failed to add note to Anki".

Marking pushed sets `pushed_to_anki_at` to the current UTC time (with a `Z`
suffix) and clears `push_error`. Recording an error writes `push_error` only.

The model is laid out as follows:

- `wrappers.dfy` (`Wrappers`) holds `Option`.
- `normalize.dfy` (`Normalization`) holds `lower().strip()` and the Front-field
  match rule.
- `duplicate.dfy` (`DuplicateCheck`) holds `find_duplicate_note`. The AnkiConnect
  replies are inputs to it.
- `queue.dfy` (`Queue`) holds the table rows, the batch query and the
  `update_data` row update.
- `sync.dfy` (`Sync`) holds the per-row decision and its specification as a
  fold over the batch (`Run`). It also holds the class `QueueTable`, which
  the agent updates in place. Its `Sync` method selects the batch.
  `ProcessBatch` runs the agent's `for item in items` loop over it, and
  `ProcessRow` is one pass of that loop's body. Beside them are the lemmas about a run.

The outside world is passed in. `world(k)` gives the `Replies` for position `k`
of the batch: the `findNotes` reply, the `notesInfo` reply, the `addNote` reply
and the clock reading used when that row's status is written. The replies are
indexed by position because Anki's answers can change during a run. For
example, an earlier row's note may be the duplicate of a later one.

Behaviours of the code that the model keeps as written:

- `item.get('deck', DEFAULT_DECK)` and its siblings fall back to the default
  only when the key is absent. A column that is present but NULL gives `None`,
  which is passed on to `addNote`. `Queue.Field` has the three cases
  `Absent | Null | Value`.
- `if duplicate_note_id:` and `if note_id:` test Python truth. A note id of `0`
  or a missing `result` therefore counts as "no duplicate" or "add failed".
- `if limit:` makes both `None` and `0` mean "no cap".
- `if not definition:` treats NULL and `""` alike.
- Only the first note found is checked for a matching Front field.

The agent delivers only through AnkiConnect; there is no file-export mode.

## Model

| member | source | states |
|---|---|---|
| `Normalization.StripLeading` | sync_to_anki.py:59 | the result is a suffix of the input; everything dropped is whitespace; the result does not start with whitespace |
| `Normalization.StripTrailing` | sync_to_anki.py:59 | the result is a prefix of the input; everything dropped is whitespace; the result does not end with whitespace |
| `Normalization.Strip` | sync_to_anki.py:59 | `strip()` keeps one contiguous slice of its input, drops only whitespace before and after it, and the slice neither starts nor ends with whitespace |
| `Normalization.Normalize` | sync_to_anki.py:59 | `lower().strip()` is a slice of the lower-cased input with only whitespace cut from either end; it has no upper-case letter and no whitespace at either end |
| `Normalization.NormalizeIdempotent` | sync_to_anki.py:59 | normalizing an already normalized word changes nothing |
| `Normalization.NormalizeIgnoresCase` | sync_to_anki.py:59 | a word and its lower-cased form have the same comparison key |
| `Normalization.NormalizeIgnoresPadding` | sync_to_anki.py:111 | whitespace around a word or Front field does not change its comparison key |
| `Normalization.FrontMatches` | sync_to_anki.py:111 | a Front field matches a word whenever the two agree after lower-casing alone, or after stripping alone |
| `DuplicateCheck.FindDuplicateNote` | sync_to_anki.py:52-117 | when a duplicate is reported, it is the first note id `findNotes` returned, and that note's Front field matches the word after `lower().strip()` on both sides |
| `DuplicateCheck.DuplicateWhenFirstNoteMatches` | sync_to_anki.py:106-112 | the converse: a successful lookup whose first note's Front field matches is reported as that note's id |
| `DuplicateCheck.FailedLookupIsNoDuplicate` | sync_to_anki.py:77-88 | a failed `findNotes`, an empty result, or a failed or empty `notesInfo` means "no duplicate" |
| `DuplicateCheck.OnlyFirstNoteCounts` | sync_to_anki.py:92-114 | if the first note's Front field does not match, there is no duplicate, whatever the other notes hold |
| `DuplicateCheck.DuplicateIgnoresCaseAndPadding` | sync_to_anki.py:59-63 | the verdict is the same for a word and for its lower-cased form padded with whitespace |
| `Queue.PendingRows` | sync_to_anki.py:208 | the filter keeps every row whose `pushed_to_anki_at` is NULL, as often as it occurs, and no other row |
| `Queue.SortByAge` | sync_to_anki.py:208 | the order is oldest `created_at` first and is a permutation of its input |
| `Queue.SelectBatch` | sync_to_anki.py:208-214 | the batch is oldest first and holds only unpushed rows of the table; with no cap it holds exactly the unpushed rows; with a cap `n` it holds `min(n, unpushed)` rows |
| `Queue.CappedBatchIsOldest` | sync_to_anki.py:210-211 | a capped batch is the start of the uncapped one, so every row left out is no older than any row taken |
| `Queue.SelectBatchUniqueIds` | sync_to_anki.py:208-214 | a table keyed by `id` gives a batch with pairwise distinct ids |
| `Queue.StatusUpdate` | sync_to_anki.py:174-180 | `update_data` holds `pushed_to_anki_at` exactly when the row was pushed, and then a time stamp with `Z`, never NULL; `push_error` is always written: cleared when pushed, the error otherwise |
| `Queue.UpdatedRow` | sync_to_anki.py:167-181 | marking pushed sets `pushed_to_anki_at` to the time plus `Z` and clears `push_error`; otherwise `push_error` takes the error and `pushed_to_anki_at` is untouched; no other column changes |
| `Queue.UpdateWhere` | sync_to_anki.py:183 | no row is added, removed or re-keyed; with no row of that id the table is unchanged; in a table keyed by `id` exactly the row with that id takes the update; a keyed table stays keyed |
| `Sync.NoteFor` | sync_to_anki.py:228-232 | the note carries the row's word and definition; deck, note type and tags take `Main`, `WordDefinition` and the four required tags when the key is absent, `None` when the column is NULL, and the column's value otherwise |
| `Sync.Branch` | sync_to_anki.py:236-266 | a row takes exactly one branch: a missing definition; a duplicate; dry-run; an add that succeeded; an add that failed. An add is attempted exactly when the definition is present, no duplicate was found and dry-run is off. The note sent is the row's note; a duplicate reports the id the lookup found, an added note the id `addNote` returned |
| `Sync.WriteFor` | sync_to_anki.py:237-266 | a row's status is written unless dry-run skips it. A duplicate or added note writes "pushed" with no error; a missing definition writes "missing definition" and a failed add "Failed to add note to Anki" |
| `Sync.Step` | sync_to_anki.py:226-266 | one row's pass keeps every row and every column except the two status columns, and never clears `pushed_to_anki_at` |
| `Sync.StepByBranch` | sync_to_anki.py:236-266 | in the order the agent tests them, each branch's outcome and the table it leaves: the update with "missing definition", "pushed", nothing in dry-run, "pushed" after an add, or "Failed to add note to Anki" |
| `Sync.Run` | sync_to_anki.py:226-266 | a run keeps every row and every column except the two status columns, and never clears `pushed_to_anki_at` |
| `Sync.RunLeavesOtherRows` | sync_to_anki.py:226-266 | a row whose id is not in the batch is unchanged by the run |
| `Sync.DryRunIsPure` | sync_to_anki.py:240-256 | in dry-run mode the table is unchanged |
| `Sync.DryRunAddsNothing` | sync_to_anki.py:254-256 | in dry-run mode no row attempts an add |
| `Sync.RunAppliesOwnOutcome` | sync_to_anki.py:226-266 | each row of the batch is written at most once, by its own branch, whatever the other rows did |
| `Sync.DeliveredRowLeavesQueue` | sync_to_anki.py:245-262 | a duplicate or added row ends the run marked pushed at that row's clock reading with no error, and no later scan selects it |
| `Sync.FailedRowStaysQueued` | sync_to_anki.py:237-242 | a row with a missing definition or a failed add stays unpushed and carries the matching error message, and the next uncapped scan selects it again |
| `Sync.RerunAfterFullDeliveryFindsNothing` | sync_to_anki.py:208-266 | after an uncapped run that delivered every row, the next scan is empty |
| `Sync.QueueTable.UpdateQueueStatus` | sync_to_anki.py:167-183 | builds `update_data` step by step and leaves the table as `UpdateWhere` with `StatusUpdate` says |
| `Sync.QueueTable.ProcessRow` | sync_to_anki.py:227-266 | one pass of the loop body returns the row's branch and leaves the table as `Step` says |
| `Sync.QueueTable.ProcessBatch` | sync_to_anki.py:226-266 | the loop returns each row's branch in order and leaves the table as the fold `Run` over the rows says |
| `Sync.QueueTable.Sync` | sync_to_anki.py:206-266 | a run returns each selected row's branch and leaves the table as `Run` over the batch `SelectBatch` picks |

## Left out

- HTTP calls to AnkiConnect (`check_anki_connect`, the `findNotes`, `notesInfo` and `addNote` requests) are not modelled. Their replies are inputs (`Replies`), and every failure reads as the failed reply.
- The text of the `findNotes` query (`note:"…" "Front:…"`) is not modelled, because the reply is an input whatever the query was.
- Supabase client creation and query execution are not modelled; the table is an in-memory sequence of rows.
- The exception swallowed in `update_queue_status` is not modelled: every write in the model reaches the table.
- Environment loading, the configuration and connectivity checks that call `sys.exit`, argparse and `main` are process start-up, not logic. They are not modelled.
- `print` output, including the 50-character definition preview in dry-run mode, is logging only and is not modelled.
- `datetime.utcnow()` is not modelled; each row's clock reading is an input.
- `lower()` is modelled for ASCII and Latin-1 upper-case letters only. Other Unicode case mappings, including those that change a string's length, are not modelled. `strip()` uses Python's exact whitespace set.
- A negative `--limit` is passed to the store unchecked, and its effect there is unknown. The model takes the limit as a natural number.
- Rows with the same `created_at` come back in an order the store does not fix. The model keeps them in table order.
- Rows without an `id`, `word` or `definition` key would raise `KeyError`; the model's rows always carry those columns. A NULL `word` is not modelled either: `word.lower()` would raise inside `find_duplicate_note`, which then reports no duplicate, and the add would go ahead with a null Front. Reply shapes other than a list of ids or notes are not modelled either.
- Two sync runs at the same time are not modelled; the code has no locking.
