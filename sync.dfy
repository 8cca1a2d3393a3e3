/** The sync agent `sync_to_anki` (sync_to_anki.py:188-268): it reads the next
    batch of unpushed rows and, row by row, looks for a duplicate note, adds
    the note to Anki, and writes the row's push status back. */
module Sync {
  import opened Wrappers
  import opened DuplicateCheck
  import opened Queue

  const REQUIRED_TAGS: seq<string> := ["dom_words", "lang_en", "time_permanent", "type_definition"]
  const DEFAULT_DECK: string := "Main"
  const DEFAULT_NOTE_TYPE: string := "WordDefinition"

  /** The two `push_error` messages the agent writes. */
  const MISSING_DEFINITION: string := "missing definition"
  const ADD_FAILED: string := "Failed to add note to Anki"

  /** `item.get(key, default)`: the default stands in only for a key that is
      absent; a column that is present and NULL reads as `None`. */
  function Get<T>(f: Field<T>, default: T): Option<T> {
    match f
    case Absent => Some(default)
    case Null => None
    case Value(v) => Some(v)
  }

  /** The note `addNote` is asked to create. */
  datatype Note = Note(front: string, back: string, deck: Option<string>,
                       noteType: Option<string>, tags: Option<seq<string>>)

  /** Reply to `addNote`: `AddNoteFailed` covers an exception, a status other
      than 200 and an `error` entry; otherwise the reply's `result`, which may
      be missing. */
  datatype AddNoteReply = AddNoteFailed | AddNoteResult(result: Option<NoteId>)

  /** Everything the outside world answers while one row of the batch is
      processed: the two duplicate-lookup replies, the `addNote` reply, and
      the clock reading `datetime.utcnow().isoformat()` taken when the row's
      status is written. */
  datatype Replies = Replies(findNotes: FindNotesReply, notesInfo: NotesInfoReply,
                             addNote: AddNoteReply, clock: Timestamp)

  /** The branch a row goes down; exactly one per row. */
  datatype Outcome =
    | NoDefinition
    | Duplicate(noteId: NoteId)
    | WouldAdd(note: Note)
    | Added(note: Note, noteId: NoteId)
    | AddFailed(note: Note)

  /** Python truth of a returned note id: `None` and `0` are false. */
  predicate Truthy(id: Option<NoteId>) {
    id.Some? && id.value != 0
  }

  /** `if not definition`: NULL and the empty string both count as missing. */
  predicate HasDefinition(item: Row) {
    item.definition.Some? && item.definition.value != ""
  }

  /** The note built from a row, with deck, note type and tags defaulted as
      `item.get` does (sync_to_anki.py:230-232). */
  function NoteFor(item: Row): (n: Note)
    requires HasDefinition(item)
    ensures n.front == item.word && n.back == item.definition.value
    ensures item.deck.Absent? ==> n.deck == Some(DEFAULT_DECK)
    ensures item.deck.Null? ==> n.deck == None
    ensures item.deck.Value? ==> n.deck == Some(item.deck.v)
    ensures item.noteType.Absent? ==> n.noteType == Some(DEFAULT_NOTE_TYPE)
    ensures item.noteType.Null? ==> n.noteType == None
    ensures item.noteType.Value? ==> n.noteType == Some(item.noteType.v)
    ensures item.tags.Absent? ==> n.tags == Some(REQUIRED_TAGS)
    ensures item.tags.Null? ==> n.tags == None
    ensures item.tags.Value? ==> n.tags == Some(item.tags.v)
  {
    Note(item.word, item.definition.value, Get(item.deck, DEFAULT_DECK),
         Get(item.noteType, DEFAULT_NOTE_TYPE), Get(item.tags, REQUIRED_TAGS))
  }

  /** `add_note_to_anki`'s return value. */
  function AddNoteToAnki(reply: AddNoteReply): Option<NoteId> {
    match reply
    case AddNoteFailed => None
    case AddNoteResult(r) => r
  }

  predicate AddAttempted(o: Outcome) {
    o.Added? || o.AddFailed?
  }

  /** The duplicate lookup for one row, as `find_duplicate_note` runs it. */
  function DuplicateOf(item: Row, replies: Replies): Option<NoteId> {
    FindDuplicateNote(item.word, replies.findNotes, replies.notesInfo)
  }

  /** The branch row `item` goes down, given the result `dup` of its
      duplicate lookup and the reply `added` to its `addNote` call. */
  function Branch(item: Row, dryRun: bool, dup: Option<NoteId>, added: AddNoteReply): (o: Outcome)
    ensures o.NoDefinition? <==> !HasDefinition(item)
    ensures o.Duplicate? <==> HasDefinition(item) && Truthy(dup)
    ensures o.WouldAdd? <==> HasDefinition(item) && !Truthy(dup) && dryRun
    ensures AddAttempted(o) <==> HasDefinition(item) && !Truthy(dup) && !dryRun
    ensures o.WouldAdd? || o.Added? || o.AddFailed? ==> HasDefinition(item) && o.note == NoteFor(item)
    ensures o.Added? <==> AddAttempted(o) && Truthy(AddNoteToAnki(added))
    ensures o.Duplicate? ==> o.noteId == dup.value
    ensures o.Added? ==> o.noteId == AddNoteToAnki(added).value
  {
    if !HasDefinition(item) then NoDefinition
    else if Truthy(dup) then Duplicate(dup.value)
    else if dryRun then WouldAdd(NoteFor(item))
    else
      var noteId := AddNoteToAnki(added);
      if Truthy(noteId) then Added(NoteFor(item), noteId.value) else AddFailed(NoteFor(item))
  }

  /** The branch row `item` goes down, given the replies it gets. */
  function Decide(item: Row, dryRun: bool, replies: Replies): Outcome {
    Branch(item, dryRun, DuplicateOf(item, replies), replies.addNote)
  }

  /** The arguments of an `update_queue_status(queue_id, pushed, error)` call. */
  datatype StatusCall = StatusCall(pushed: bool, error: Option<string>)

  /** The status write a row's branch makes, if any: none in dry-run mode,
      "pushed" for a duplicate or an added note, the error message for a
      missing definition or a failed add. */
  function WriteFor(o: Outcome, dryRun: bool): (w: Option<StatusCall>)
    ensures w.Some? <==> AddAttempted(o) || (!dryRun && (o.NoDefinition? || o.Duplicate?))
    ensures w.Some? && w.value.pushed <==> w.Some? && (o.Duplicate? || o.Added?)
    ensures w.Some? && w.value.pushed ==> w.value.error == None
    ensures o.NoDefinition? && !dryRun ==> w == Some(StatusCall(false, Some(MISSING_DEFINITION)))
    ensures o.AddFailed? ==> w == Some(StatusCall(false, Some(ADD_FAILED)))
  {
    match o
    case NoDefinition => if dryRun then None else Some(StatusCall(false, Some(MISSING_DEFINITION)))
    case Duplicate(_) => if dryRun then None else Some(StatusCall(true, None))
    case WouldAdd(_) => None
    case Added(_, _) => Some(StatusCall(true, None))
    case AddFailed(_) => Some(StatusCall(false, Some(ADD_FAILED)))
  }

  /** A row after the write `w`, stamped with `clock` if it is marked pushed. */
  function RowAfter(row: Row, w: Option<StatusCall>, clock: Timestamp): Row {
    match w
    case None => row
    case Some(c) => UpdatedRow(row, c.pushed, c.error, clock)
  }

  /** The table after processing `item`, the row at position `k` of the batch:
      only the status columns change, and a pushed row stays pushed. */
  function Step(rows: seq<Row>, item: Row, k: nat, dryRun: bool, world: nat -> Replies): (r: seq<Row>)
    ensures |r| == |rows|
    ensures forall i :: 0 <= i < |rows| ==>
              r[i].(pushedAt := rows[i].pushedAt, pushError := rows[i].pushError) == rows[i]
    ensures forall i :: 0 <= i < |rows| && rows[i].pushedAt.Some? ==> r[i].pushedAt.Some?
  {
    match WriteFor(Decide(item, dryRun, world(k)), dryRun)
    case None => rows
    case Some(c) => UpdateWhere(rows, item.id, StatusUpdate(c.pushed, c.error, world(k).clock))
  }

  /** The table after processing the whole of `batch`, in order; `world(k)`
      holds the replies for the row at position `k`. A run keeps every row and
      every column but the two status columns, and never clears
      `pushed_to_anki_at`: a pushed row stays pushed. */
  function Run(rows: seq<Row>, batch: seq<Row>, dryRun: bool, world: nat -> Replies): (r: seq<Row>)
    ensures |r| == |rows|
    ensures forall i :: 0 <= i < |rows| ==>
              r[i].(pushedAt := rows[i].pushedAt, pushError := rows[i].pushError) == rows[i]
    ensures forall i :: 0 <= i < |rows| && rows[i].pushedAt.Some? ==> r[i].pushedAt.Some?
    decreases |batch|
  {
    if batch == [] then rows
    else
      var k := |batch| - 1;
      Step(Run(rows, batch[..k], dryRun, world), batch[k], k, dryRun, world)
  }

  /** The branch each row of `batch` goes down. */
  function Outcomes(batch: seq<Row>, dryRun: bool, world: nat -> Replies): (r: seq<Outcome>)
    ensures |r| == |batch|
    ensures forall k :: 0 <= k < |batch| ==> r[k] == Decide(batch[k], dryRun, world(k))
  {
    seq(|batch|, k requires 0 <= k < |batch| => Decide(batch[k], dryRun, world(k)))
  }

  /** Processing one more row of the batch is one more `Step`. */
  lemma RunOneMore(rows: seq<Row>, batch: seq<Row>, k: nat, dryRun: bool, world: nat -> Replies)
    requires k < |batch|
    ensures Run(rows, batch[..k + 1], dryRun, world) == Step(Run(rows, batch[..k], dryRun, world), batch[k], k, dryRun, world)
  {
    assert batch[..k + 1][..k] == batch[..k];
    assert batch[..k + 1][k] == batch[k];
  }

  /** Processing one more row of the batch adds that row's branch. */
  lemma OutcomesOneMore(batch: seq<Row>, k: nat, dryRun: bool, world: nat -> Replies)
    requires k < |batch|
    ensures Outcomes(batch[..k + 1], dryRun, world) == Outcomes(batch[..k], dryRun, world) + [Decide(batch[k], dryRun, world(k))]
  {
    var longer, shorter := Outcomes(batch[..k + 1], dryRun, world), Outcomes(batch[..k], dryRun, world);
    var expected := shorter + [Decide(batch[k], dryRun, world(k))];
    assert |longer| == |expected| == k + 1;
    forall j | 0 <= j < k + 1 ensures longer[j] == expected[j] {
      assert longer[j] == Decide(batch[..k + 1][j], dryRun, world(j));
      assert batch[..k + 1][j] == batch[j];
      if j < k {
        assert expected[j] == shorter[j] == Decide(batch[..k][j], dryRun, world(j));
        assert batch[..k][j] == batch[j];
      }
    }
    assert longer == expected;
  }

  /** The branch row `item` takes at position `k`, and the table `Step`
      leaves, case by case in the order the agent tests them. */
  lemma StepByBranch(rows: seq<Row>, item: Row, k: nat, dryRun: bool, world: nat -> Replies)
    ensures !HasDefinition(item) ==>
              Decide(item, dryRun, world(k)) == NoDefinition
              && Step(rows, item, k, dryRun, world)
                 == if dryRun then rows
                    else UpdateWhere(rows, item.id, StatusUpdate(false, Some(MISSING_DEFINITION), world(k).clock))
    ensures HasDefinition(item) && Truthy(DuplicateOf(item, world(k))) ==>
              Decide(item, dryRun, world(k)) == Duplicate(DuplicateOf(item, world(k)).value)
              && Step(rows, item, k, dryRun, world)
                 == if dryRun then rows
                    else UpdateWhere(rows, item.id, StatusUpdate(true, None, world(k).clock))
    ensures HasDefinition(item) && !Truthy(DuplicateOf(item, world(k))) && dryRun ==>
              Decide(item, dryRun, world(k)) == WouldAdd(NoteFor(item))
              && Step(rows, item, k, dryRun, world) == rows
    ensures HasDefinition(item) && !Truthy(DuplicateOf(item, world(k))) && !dryRun
            && Truthy(AddNoteToAnki(world(k).addNote)) ==>
              Decide(item, dryRun, world(k)) == Added(NoteFor(item), AddNoteToAnki(world(k).addNote).value)
              && Step(rows, item, k, dryRun, world)
                 == UpdateWhere(rows, item.id, StatusUpdate(true, None, world(k).clock))
    ensures HasDefinition(item) && !Truthy(DuplicateOf(item, world(k))) && !dryRun
            && !Truthy(AddNoteToAnki(world(k).addNote)) ==>
              Decide(item, dryRun, world(k)) == AddFailed(NoteFor(item))
              && Step(rows, item, k, dryRun, world)
                 == UpdateWhere(rows, item.id, StatusUpdate(false, Some(ADD_FAILED), world(k).clock))
  {
  }

  predicate IdInBatch(id: int, batch: seq<Row>) {
    exists k :: 0 <= k < |batch| && batch[k].id == id
  }

  /** Rows whose id is not in the batch are not touched. */
  lemma {:induction false} RunLeavesOtherRows(rows: seq<Row>, batch: seq<Row>, dryRun: bool, world: nat -> Replies, i: nat)
    requires i < |rows| && !IdInBatch(rows[i].id, batch)
    ensures |Run(rows, batch, dryRun, world)| == |rows|
    ensures Run(rows, batch, dryRun, world)[i] == rows[i]
    decreases |batch|
  {
    if batch != [] {
      var k := |batch| - 1;
      assert !IdInBatch(rows[i].id, batch[..k]) by {
        forall j | 0 <= j < k ensures batch[..k][j].id != rows[i].id {
          assert batch[..k][j] == batch[j];
        }
      }
      RunLeavesOtherRows(rows, batch[..k], dryRun, world, i);
    }
  }

  /** In dry-run mode no row changes. */
  lemma {:induction false} DryRunIsPure(rows: seq<Row>, batch: seq<Row>, world: nat -> Replies)
    ensures Run(rows, batch, true, world) == rows
    decreases |batch|
  {
    if batch != [] {
      DryRunIsPure(rows, batch[..|batch| - 1], world);
    }
  }

  /** In dry-run mode no note is added. */
  lemma DryRunAddsNothing(batch: seq<Row>, world: nat -> Replies)
    ensures forall o :: o in Outcomes(batch, true, world) ==> !AddAttempted(o)
  {
  }

  /** Each row of a batch with distinct ids is written at most once, by its
      own branch: the table row with that id ends up as the branch's write
      leaves it, whatever happened to the other rows. */
  lemma {:induction false} RunAppliesOwnOutcome(rows: seq<Row>, batch: seq<Row>, dryRun: bool,
                                                world: nat -> Replies, k: nat, i: nat)
    requires UniqueIds(batch)
    requires k < |batch| && i < |rows| && rows[i].id == batch[k].id
    ensures |Run(rows, batch, dryRun, world)| == |rows|
    ensures Run(rows, batch, dryRun, world)[i]
         == RowAfter(rows[i], WriteFor(Decide(batch[k], dryRun, world(k)), dryRun), world(k).clock)
    decreases |batch|
  {
    var last := |batch| - 1;
    var prefix := batch[..last];
    if k == last {
      assert !IdInBatch(rows[i].id, prefix) by {
        forall j | 0 <= j < last ensures prefix[j].id != rows[i].id {
          assert prefix[j] == batch[j];
        }
      }
      RunLeavesOtherRows(rows, prefix, dryRun, world, i);
    } else {
      assert UniqueIds(prefix) by {
        forall p, q | 0 <= p < q < |prefix| ensures prefix[p].id != prefix[q].id {
          assert prefix[p] == batch[p] && prefix[q] == batch[q];
        }
      }
      assert prefix[k] == batch[k];
      RunAppliesOwnOutcome(rows, prefix, dryRun, world, k, i);
      assert batch[last].id != rows[i].id;
    }
  }

  /** The table a run leaves behind. */
  function SyncResult(rows: seq<Row>, limit: Option<nat>, dryRun: bool, world: nat -> Replies): seq<Row> {
    Run(rows, SelectBatch(rows, limit), dryRun, world)
  }

  /** The table row with the id of batch row `k` is that batch row itself. */
  lemma BatchRowInTable(rows: seq<Row>, limit: Option<nat>, k: nat, i: nat)
    requires UniqueIds(rows)
    requires k < |SelectBatch(rows, limit)| && i < |rows|
    requires rows[i].id == SelectBatch(rows, limit)[k].id
    ensures rows[i] == SelectBatch(rows, limit)[k]
  {
    var x := SelectBatch(rows, limit)[k];
    assert x in rows;
    var p :| 0 <= p < |rows| && rows[p] == x;
    assert p == i;
  }

  /** A row that was found to be a duplicate, or whose note was added, is
      marked pushed with the run's clock reading and its error cleared, and no
      later scan selects it again. */
  lemma DeliveredRowLeavesQueue(rows: seq<Row>, limit: Option<nat>, world: nat -> Replies,
                                k: nat, i: nat, nextLimit: Option<nat>)
    requires UniqueIds(rows)
    requires k < |SelectBatch(rows, limit)| && i < |rows|
    requires rows[i].id == SelectBatch(rows, limit)[k].id
    requires Decide(SelectBatch(rows, limit)[k], false, world(k)).Duplicate?
          || Decide(SelectBatch(rows, limit)[k], false, world(k)).Added?
    ensures |SyncResult(rows, limit, false, world)| == |rows|
    ensures SyncResult(rows, limit, false, world)[i].pushedAt == Some(world(k).clock + "Z")
    ensures SyncResult(rows, limit, false, world)[i].pushError == None
    ensures SyncResult(rows, limit, false, world)[i]
            !in SelectBatch(SyncResult(rows, limit, false, world), nextLimit)
  {
    SelectBatchUniqueIds(rows, limit);
    RunAppliesOwnOutcome(rows, SelectBatch(rows, limit), false, world, k, i);
  }

  /** A row with a missing definition or a failed add keeps
      `pushed_to_anki_at` unset, carries its error message, and is selected
      again by the next uncapped scan. */
  lemma FailedRowStaysQueued(rows: seq<Row>, limit: Option<nat>, world: nat -> Replies, k: nat, i: nat)
    requires UniqueIds(rows)
    requires k < |SelectBatch(rows, limit)| && i < |rows|
    requires rows[i].id == SelectBatch(rows, limit)[k].id
    requires Decide(SelectBatch(rows, limit)[k], false, world(k)).NoDefinition?
          || Decide(SelectBatch(rows, limit)[k], false, world(k)).AddFailed?
    ensures |SyncResult(rows, limit, false, world)| == |rows|
    ensures SyncResult(rows, limit, false, world)[i].pushedAt == None
    ensures SyncResult(rows, limit, false, world)[i].pushError
         == Some(if Decide(SelectBatch(rows, limit)[k], false, world(k)).NoDefinition?
                 then MISSING_DEFINITION else ADD_FAILED)
    ensures SyncResult(rows, limit, false, world)[i]
            in SelectBatch(SyncResult(rows, limit, false, world), None)
  {
    var batch := SelectBatch(rows, limit);
    SelectBatchUniqueIds(rows, limit);
    BatchRowInTable(rows, limit, k, i);
    var o := Decide(batch[k], false, world(k));
    var message := if o.NoDefinition? then MISSING_DEFINITION else ADD_FAILED;
    assert WriteFor(o, false) == Some(StatusCall(false, Some(message)));
    RunAppliesOwnOutcome(rows, batch, false, world, k, i);
    var after := Run(rows, batch, false, world);
    assert after[i] == UpdatedRow(rows[i], false, Some(message), world(k).clock);
    assert rows[i] == batch[k] && batch[k] in batch;
    assert Unpushed(rows[i]);
    assert after[i].pushedAt == rows[i].pushedAt;
    UnpushedRowIsSelected(after, i);
  }

  /** Every unpushed row is in the uncapped batch. */
  lemma UnpushedRowIsSelected(rows: seq<Row>, i: nat)
    requires i < |rows| && Unpushed(rows[i])
    ensures rows[i] in SelectBatch(rows, None)
  {
    assert rows[i] in rows;
  }

  /** After an uncapped run in which every row was delivered (added, or found
      to be a duplicate), the next scan finds nothing. */
  lemma RerunAfterFullDeliveryFindsNothing(rows: seq<Row>, limit: Option<nat>, world: nat -> Replies,
                                           nextLimit: Option<nat>)
    requires UniqueIds(rows) && !Capped(limit)
    requires forall o :: o in Outcomes(SelectBatch(rows, limit), false, world) ==> o.Duplicate? || o.Added?
    ensures SelectBatch(SyncResult(rows, limit, false, world), nextLimit) == []
  {
    var after := SyncResult(rows, limit, false, world);
    forall i | 0 <= i < |after| ensures !Unpushed(after[i]) {
      FullDeliveryMarksRow(rows, limit, world, i);
    }
    NothingUnpushedSelectsNothing(after, nextLimit);
  }

  /** One row of the table after an uncapped run that delivered every row:
      it was pushed before, or it was in the batch and got pushed. */
  lemma FullDeliveryMarksRow(rows: seq<Row>, limit: Option<nat>, world: nat -> Replies, i: nat)
    requires UniqueIds(rows) && !Capped(limit)
    requires forall o :: o in Outcomes(SelectBatch(rows, limit), false, world) ==> o.Duplicate? || o.Added?
    requires i < |rows|
    ensures |SyncResult(rows, limit, false, world)| == |rows|
    ensures !Unpushed(SyncResult(rows, limit, false, world)[i])
  {
    var after := SyncResult(rows, limit, false, world);
    if Unpushed(rows[i]) {
      var batch := SelectBatch(rows, limit);
      UnpushedRowIsSelected(rows, i);
      assert rows[i] in batch;
      var k :| 0 <= k < |batch| && batch[k] == rows[i];
      var outcomes := Outcomes(batch, false, world);
      assert outcomes[k] in outcomes;
      DeliveredRowLeavesQueue(rows, limit, world, k, i, None);
      assert after[i].pushedAt.Some?;
    } else {
      assert after[i].pushedAt.Some?;
    }
  }

  /** A table without unpushed rows yields an empty batch. */
  lemma NothingUnpushedSelectsNothing(rows: seq<Row>, limit: Option<nat>)
    requires forall i :: 0 <= i < |rows| ==> !Unpushed(rows[i])
    ensures SelectBatch(rows, limit) == []
  {
  }

  /** The `anki_queue` table, which the sync agent updates in place. */
  class QueueTable {
    var rows: seq<Row>

    constructor (rows: seq<Row>)
      ensures this.rows == rows
    {
      this.rows := rows;
    }

    /** `update_queue_status`: builds `update_data` and writes it to every row
        with id `queueId`. */
    method UpdateQueueStatus(queueId: int, pushed: bool, error: Option<string>, now: Timestamp)
      modifies this
      ensures rows == UpdateWhere(old(rows), queueId, StatusUpdate(pushed, error, now))
    {
      var updateData: UpdateData := map[];
      if pushed {
        updateData := updateData[PushedToAnkiAt := Some(now + "Z")];
        updateData := updateData[PushError := None];
      } else {
        updateData := updateData[PushError := error];
      }
      rows := UpdateWhere(rows, queueId, updateData);
    }

    /** The body of the agent's loop for `item`, the row at position `k` of
        the batch: each early `return` is Python's `continue`. Returns
        the branch the row took. */
    method ProcessRow(item: Row, k: nat, dryRun: bool, world: nat -> Replies) returns (o: Outcome)
      modifies this
      ensures o == Decide(item, dryRun, world(k))
      ensures rows == Step(old(rows), item, k, dryRun, world)
    {
      var replies := world(k);
      StepByBranch(rows, item, k, dryRun, world);
      if !HasDefinition(item) {
        if !dryRun {
          UpdateQueueStatus(item.id, false, Some(MISSING_DEFINITION), replies.clock);
        }
        return NoDefinition;
      }
      var duplicateNoteId := FindDuplicateNote(item.word, replies.findNotes, replies.notesInfo);
      if Truthy(duplicateNoteId) {
        if !dryRun {
          UpdateQueueStatus(item.id, true, None, replies.clock);
        }
        return Duplicate(duplicateNoteId.value);
      }
      var note := NoteFor(item);
      if dryRun {
        return WouldAdd(note);
      }
      var noteId := AddNoteToAnki(replies.addNote);
      if Truthy(noteId) {
        UpdateQueueStatus(item.id, true, None, replies.clock);
        o := Added(note, noteId.value);
      } else {
        UpdateQueueStatus(item.id, false, Some(ADD_FAILED), replies.clock);
        o := AddFailed(note);
      }
    }

    /** The agent's loop over the rows `items` of one batch, in order.
        Returns the branch each row took. */
    method ProcessBatch(items: seq<Row>, dryRun: bool, world: nat -> Replies) returns (outcomes: seq<Outcome>)
      modifies this
      ensures outcomes == Outcomes(items, dryRun, world)
      ensures rows == Run(old(rows), items, dryRun, world)
    {
      outcomes := [];
      for k := 0 to |items|
        invariant rows == Run(old(rows), items[..k], dryRun, world)
        invariant outcomes == Outcomes(items[..k], dryRun, world)
      {
        RunOneMore(old(rows), items, k, dryRun, world);
        OutcomesOneMore(items, k, dryRun, world);
        var o := ProcessRow(items[k], k, dryRun, world);
        outcomes := outcomes + [o];
      }
      assert items[..|items|] == items;
    }

    /** One run of the sync agent over the next batch of at most `limit` rows
        (`None` or `0`: all of them). Returns the branch each row took. */
    method Sync(limit: Option<nat>, dryRun: bool, world: nat -> Replies) returns (outcomes: seq<Outcome>)
      modifies this
      ensures outcomes == Outcomes(SelectBatch(old(rows), limit), dryRun, world)
      ensures rows == SyncResult(old(rows), limit, dryRun, world)
    {
      var items := SelectBatch(rows, limit);
      outcomes := ProcessBatch(items, dryRun, world);
    }
  }
}
