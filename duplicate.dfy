/** The duplicate check `find_duplicate_note` (sync_to_anki.py:52-117) with
    its two AnkiConnect round trips replaced by their replies. */
module DuplicateCheck {
  import opened Wrappers
  import opened Normalization

  /** An Anki note id as AnkiConnect returns it. */
  type NoteId = int

  /** What `notesInfo` says of one note: the value of its Front field, if the
      note has one. */
  datatype NoteInfo = NoteInfo(front: Option<string>)

  /** Reply to `findNotes`. `FindNotesFailed` covers every way the call can
      fail: an exception, a status other than 200, or an `error` entry in the
      reply. A reply without a `result` entry reads as an empty list. */
  datatype FindNotesReply = FindNotesFailed | FoundNotes(noteIds: seq<NoteId>)

  /** Reply to `notesInfo` for the first note found, with the same reading of
      failures as `FindNotesReply`; a missing or empty `result` is `[]`. */
  datatype NotesInfoReply = NotesInfoFailed | NotesInfo(notes: seq<NoteInfo>)

  /** `note_info.get('fields', {}).get('Front', {}).get('value', '')`. */
  function FrontValue(n: NoteInfo): string {
    n.front.GetOr("")
  }

  /** The duplicate rule: the first note found is a duplicate when its Front
      field matches the word; any failed call, no note found, or a first note
      that does not match gives `None`. */
  function FindDuplicateNote(word: string, found: FindNotesReply, info: NotesInfoReply): (r: Option<NoteId>)
    ensures r.Some? ==> found.FoundNotes? && |found.noteIds| > 0 && r.value == found.noteIds[0]
    ensures r.Some? ==> info.NotesInfo? && |info.notes| > 0 && FrontMatches(FrontValue(info.notes[0]), word)
  {
    match found
    case FindNotesFailed => None
    case FoundNotes(ids) =>
      if ids == [] then None
      else
        match info
        case NotesInfoFailed => None
        case NotesInfo(notes) =>
          if notes != [] && FrontMatches(FrontValue(notes[0]), word) then Some(ids[0])
          else None
  }

  /** Conversely, a successful lookup whose first note matches is reported as
      a duplicate. */
  lemma DuplicateWhenFirstNoteMatches(word: string, ids: seq<NoteId>, notes: seq<NoteInfo>)
    requires ids != [] && notes != []
    requires FrontMatches(FrontValue(notes[0]), word)
    ensures FindDuplicateNote(word, FoundNotes(ids), NotesInfo(notes)) == Some(ids[0])
  {
  }

  /** Any failure to look up counts as "no duplicate". */
  lemma FailedLookupIsNoDuplicate(word: string, found: FindNotesReply, info: NotesInfoReply)
    requires found.FindNotesFailed? || found == FoundNotes([])
             || info.NotesInfoFailed? || info == NotesInfo([])
    ensures FindDuplicateNote(word, found, info) == None
  {
  }

  /** A note only counts when it is the first one found: a match further down
      the list is not looked at. */
  lemma OnlyFirstNoteCounts(word: string, ids: seq<NoteId>, notes: seq<NoteInfo>)
    requires ids != [] && notes != []
    requires !FrontMatches(FrontValue(notes[0]), word)
    ensures FindDuplicateNote(word, FoundNotes(ids), NotesInfo(notes)) == None
  {
  }

  /** Whether a word is reported as a duplicate does not depend on its case or
      on whitespace around it. */
  lemma DuplicateIgnoresCaseAndPadding(pre: string, word: string, post: string,
                                       found: FindNotesReply, info: NotesInfoReply)
    requires AllSpace(pre) && AllSpace(post)
    ensures FindDuplicateNote(pre + Lower(word) + post, found, info)
         == FindDuplicateNote(word, found, info)
  {
    NormalizeIgnoresPadding(pre, Lower(word), post);
    NormalizeIgnoresCase(word);
  }
}
