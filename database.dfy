/** The rows of the tables the core reads and writes (chunks, question_library,
    quizzes, quiz_questions) and the database session that holds them. */
module Database {
  import opened Values

  /** A stored passage (`Chunk`): its note, its ordinal, its text and its
      optional embedding blob. `keywords` is always `None` in the core and is
      not kept. */
  datatype ChunkRow = ChunkRow(
    lectureNotesId: int,
    chunkIndex: int,
    text: string,
    embedding: Option<Bytes>)

  datatype Quality = GoodQuestion | PoorQuestion

  /** A `QuestionLibrary` row. The columns hold the values of the question
      dictionary they were copied from. */
  datatype LibraryEntry = LibraryEntry(
    id: int,
    lectureNoteId: int,
    questionText: Json,
    optionA: Json,
    optionB: Json,
    optionC: Json,
    optionD: Json,
    correctOption: Json,
    difficulty: Json,
    timeSecs: Json,
    quality: Quality)

  /** A `Quiz` row. `created_at` and the course and teacher references are not kept. */
  datatype QuizRow = QuizRow(
    id: int,
    lectureNotesId: int,
    title: string,
    totalQuestions: int,
    avgDifficulty: string,
    totalTimeMins: int,
    totalMarks: int)

  /** A `QuizQuestion` row. */
  datatype QuizQuestionRow = QuizQuestionRow(
    quizId: int,
    qOrder: int,
    questionText: Json,
    optionA: Json,
    optionB: Json,
    optionC: Json,
    optionD: Json,
    correctOption: Json,
    difficulty: Json,
    timeSecs: Json,
    marks: int)

  /** Ids in increasing order and below the next id to hand out: what the
      auto-increment primary keys guarantee. */
  ghost predicate IdsBelow(ids: seq<int>, next: int) {
    (forall i, j :: 0 <= i < j < |ids| ==> ids[i] < ids[j])
    && (forall i :: 0 <= i < |ids| ==> ids[i] < next)
  }

  /** The primary keys of the library and quiz tables are in increasing
      order and below the next id of their table. */
  ghost predicate KeysValid(library: seq<LibraryEntry>, nextLibraryId: int, quizzes: seq<QuizRow>, nextQuizId: int) {
    IdsBelow(LibraryIds(library), nextLibraryId) && IdsBelow(QuizIds(quizzes), nextQuizId)
  }

  function LibraryIds(lib: seq<LibraryEntry>): seq<int> {
    seq(|lib|, i requires 0 <= i < |lib| => lib[i].id)
  }

  function QuizIds(quizzes: seq<QuizRow>): seq<int> {
    seq(|quizzes|, i requires 0 <= i < |quizzes| => quizzes[i].id)
  }

  /** A quiz row numbered with the next id keeps the quiz ids increasing. */
  lemma QuizIdsAppend(quizzes: seq<QuizRow>, row: QuizRow)
    requires IdsBelow(QuizIds(quizzes), row.id)
    ensures IdsBelow(QuizIds(quizzes + [row]), row.id + 1)
  {
    var ids := QuizIds(quizzes + [row]);
    assert forall i :: 0 <= i < |quizzes| ==> ids[i] == QuizIds(quizzes)[i];
  }

  /** Library entries appended with consecutive ids from the next id keep
      the entry ids increasing and below the new next id. */
  lemma LibraryIdsGrow(lib: seq<LibraryEntry>, lib': seq<LibraryEntry>, firstId: int)
    requires IdsBelow(LibraryIds(lib), firstId)
    requires |lib| <= |lib'| && lib'[..|lib|] == lib
    requires forall k :: |lib| <= k < |lib'| ==> lib'[k].id == firstId + (k - |lib|)
    ensures IdsBelow(LibraryIds(lib'), firstId + (|lib'| - |lib|))
  {
    var ids := LibraryIds(lib');
    forall i | 0 <= i < |lib|
      ensures ids[i] == LibraryIds(lib)[i]
    {
      assert lib'[i] == lib'[..|lib|][i];
    }
  }

  /** Does a library entry belong to the note and carry exactly this
      question text? The filter of `QuestionLibrary` on
      (`lecture_note_id`, `question_text`). */
  predicate Matches(e: LibraryEntry, noteId: int, text: Json) {
    e.lectureNoteId == noteId && e.questionText == text
  }

  /** `.first()` of that filter, in table order: the index of the first
      matching entry, or -1 when none matches. */
  function FindEntry(lib: seq<LibraryEntry>, noteId: int, text: Json): (r: int)
    ensures -1 <= r < |lib|
    ensures r >= 0 ==> Matches(lib[r], noteId, text)
    ensures r >= 0 ==> forall i :: 0 <= i < r ==> !Matches(lib[i], noteId, text)
    ensures r == -1 <==> forall i :: 0 <= i < |lib| ==> !Matches(lib[i], noteId, text)
  {
    if lib == [] then -1
    else if Matches(lib[0], noteId, text) then 0
    else
      var r := FindEntry(lib[1..], noteId, text);
      assert forall i :: 1 <= i < |lib| ==> lib[i] == lib[1..][i - 1];
      if r == -1 then -1 else r + 1
  }

  /** Rows added after a match do not change which entry is first. */
  lemma FindEntryExtend(lib: seq<LibraryEntry>, more: seq<LibraryEntry>, noteId: int, text: Json)
    requires FindEntry(lib, noteId, text) >= 0
    ensures FindEntry(lib + more, noteId, text) == FindEntry(lib, noteId, text)
  {
    var k := FindEntry(lib, noteId, text);
    var r := FindEntry(lib + more, noteId, text);
    assert (lib + more)[k] == lib[k];
    assert forall i :: 0 <= i < k ==> (lib + more)[i] == lib[i];
  }

  /** With no match so far, a row added at the end is the first match
      exactly when it matches. */
  lemma FindEntryAppend(lib: seq<LibraryEntry>, e: LibraryEntry, noteId: int, text: Json)
    requires FindEntry(lib, noteId, text) == -1
    ensures FindEntry(lib + [e], noteId, text) == if Matches(e, noteId, text) then |lib| else -1
  {
    var all := lib + [e];
    assert forall i :: 0 <= i < |lib| ==> all[i] == lib[i];
    assert all[|lib|] == e;
  }

  /** `db.query(Quiz).get(quiz_id)`: the quiz with that primary key. */
  function FindQuiz(quizzes: seq<QuizRow>, quizId: int): (r: Option<QuizRow>)
    ensures r.Some? ==> r.value in quizzes && r.value.id == quizId
    ensures r.None? <==> forall i :: 0 <= i < |quizzes| ==> quizzes[i].id != quizId
  {
    if quizzes == [] then None
    else if quizzes[0].id == quizId then Some(quizzes[0])
    else
      assert forall i :: 1 <= i < |quizzes| ==> quizzes[i] == quizzes[1..][i - 1];
      FindQuiz(quizzes[1..], quizId)
  }

  /** The database session: one sequence per table, in insertion order, and
      the set of existing lecture-note ids. */
  class Db {
    var notes: set<int>
    var chunks: seq<ChunkRow>
    var library: seq<LibraryEntry>
    var quizzes: seq<QuizRow>
    var quizQuestions: seq<QuizQuestionRow>
    var nextLibraryId: int
    var nextQuizId: int

    ghost predicate Valid()
      reads this
    {
      KeysValid(library, nextLibraryId, quizzes, nextQuizId)
    }

    constructor (notes: set<int>)
      ensures Valid()
      ensures this.notes == notes && chunks == [] && library == []
      ensures quizzes == [] && quizQuestions == []
    {
      this.notes := notes;
      chunks := [];
      library := [];
      quizzes := [];
      quizQuestions := [];
      nextLibraryId := 1;
      nextQuizId := 1;
    }
  }
}
