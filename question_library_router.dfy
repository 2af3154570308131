/** The question library endpoints (api/routers/question_library_router.py):
    listing the good questions of a lecture note, and marking the library
    entry of a quiz question as poor. */
module QuestionLibraryRouter {
  import opened Values
  import opened Database

  /** `get_library_questions` (lines 20-23): the entries of the note whose
      quality is good, in table order. */
  function LibraryQuestions(lib: seq<LibraryEntry>, noteId: int): (r: seq<LibraryEntry>)
    ensures |r| <= |lib|
    ensures forall e :: e in r <==> e in lib && e.lectureNoteId == noteId && e.quality == GoodQuestion
  {
    if lib == [] then []
    else
      var init := LibraryQuestions(lib[..|lib| - 1], noteId);
      var e := lib[|lib| - 1];
      assert forall x :: x in lib <==> x in lib[..|lib| - 1] || x == e;
      if e.lectureNoteId == noteId && e.quality == GoodQuestion then init + [e] else init
  }

  /** The body of the answer of a successful mark. */
  datatype MarkResult = MarkResult(status: string, id: int)

  /** `mark_question_poor` (lines 30-50) on the quizzes and the library:
      the answer and the library afterwards. */
  function MarkPoor(quizzes: seq<QuizRow>, lib: seq<LibraryEntry>, quizId: int, questionText: string)
    : (Result<MarkResult, HttpError>, seq<LibraryEntry>)
  {
    match FindQuiz(quizzes, quizId)
    case None => (Err(HttpError(404, "Quiz not found")), lib)
    case Some(quiz) =>
      var k := FindEntry(lib, quiz.lectureNotesId, JString(questionText));
      if k < 0 then (Err(HttpError(404, "Question not found in library")), lib)
      else (Ok(MarkResult("marked as poor", lib[k].id)), lib[k := lib[k].(quality := PoorQuestion)])
  }

  /** `mark_question_poor`: finds the quiz, then the first library entry of
      its note with the exact text, and flips that entry to poor. */
  method MarkQuestionPoor(db: Db, quizId: int, questionText: string) returns (r: Result<MarkResult, HttpError>)
    requires db.Valid()
    modifies db`library
    ensures (r, db.library) == MarkPoor(db.quizzes, old(db.library), quizId, questionText)
    ensures db.Valid()
  {
    MarkPoorKeepsIds(db.quizzes, db.library, quizId, questionText);
    var quiz := FindQuiz(db.quizzes, quizId);
    if quiz.None? {
      return Err(HttpError(404, "Quiz not found"));
    }
    var k := FindEntry(db.library, quiz.value.lectureNotesId, JString(questionText));
    if k < 0 {
      return Err(HttpError(404, "Question not found in library"));
    }
    db.library := db.library[k := db.library[k].(quality := PoorQuestion)];
    return Ok(MarkResult("marked as poor", db.library[k].id));
  }

  /** An unknown quiz, or a quiz whose note has no entry with the text,
      gives 404 and changes nothing. */
  lemma MarkPoorNotFound(quizzes: seq<QuizRow>, lib: seq<LibraryEntry>, quizId: int, questionText: string)
    ensures (forall i :: 0 <= i < |quizzes| ==> quizzes[i].id != quizId) ==>
      MarkPoor(quizzes, lib, quizId, questionText) == (Err(HttpError(404, "Quiz not found")), lib)
    ensures (exists i :: 0 <= i < |quizzes| && quizzes[i].id == quizId) &&
            (forall i :: 0 <= i < |lib| ==> !Matches(lib[i], FindQuiz(quizzes, quizId).value.lectureNotesId, JString(questionText))) ==>
      MarkPoor(quizzes, lib, quizId, questionText) == (Err(HttpError(404, "Question not found in library")), lib)
    ensures MarkPoor(quizzes, lib, quizId, questionText).0.Err? ==> MarkPoor(quizzes, lib, quizId, questionText).1 == lib
  {
  }

  /** On success only the first entry of the quiz's note with that exact
      text changes, only in its quality, which becomes poor; its id is
      answered. */
  lemma MarkPoorChangesOne(quizzes: seq<QuizRow>, lib: seq<LibraryEntry>, quizId: int, questionText: string)
    requires MarkPoor(quizzes, lib, quizId, questionText).0.Ok?
    ensures FindQuiz(quizzes, quizId).Some?
    ensures FindEntry(lib, FindQuiz(quizzes, quizId).value.lectureNotesId, JString(questionText)) >= 0
    ensures var k := FindEntry(lib, FindQuiz(quizzes, quizId).value.lectureNotesId, JString(questionText));
            var lib' := MarkPoor(quizzes, lib, quizId, questionText).1;
      && MarkPoor(quizzes, lib, quizId, questionText).0.value == MarkResult("marked as poor", lib[k].id)
      && |lib'| == |lib|
      && lib'[k] == lib[k].(quality := PoorQuestion)
      && (forall i :: 0 <= i < |lib| && i != k ==> lib'[i] == lib[i])
  {
  }

  /** Marking keeps every id, so the primary keys stay as they were. */
  lemma MarkPoorKeepsIds(quizzes: seq<QuizRow>, lib: seq<LibraryEntry>, quizId: int, questionText: string)
    ensures LibraryIds(MarkPoor(quizzes, lib, quizId, questionText).1) == LibraryIds(lib)
  {
  }

  /** Marking an entry that is already poor succeeds again and leaves the
      library as it was; marking twice is marking once. */
  lemma MarkPoorIdempotent(quizzes: seq<QuizRow>, lib: seq<LibraryEntry>, quizId: int, questionText: string)
    ensures var (r, lib') := MarkPoor(quizzes, lib, quizId, questionText);
      MarkPoor(quizzes, lib', quizId, questionText) == (r, lib')
  {
    var (r, lib') := MarkPoor(quizzes, lib, quizId, questionText);
    if r.Ok? {
      var note := FindQuiz(quizzes, quizId).value.lectureNotesId;
      var k := FindEntry(lib, note, JString(questionText));
      assert forall i :: 0 <= i < |lib| ==> Matches(lib'[i], note, JString(questionText)) == Matches(lib[i], note, JString(questionText));
      assert FindEntry(lib', note, JString(questionText)) == k;
      assert lib'[k := lib'[k].(quality := PoorQuestion)] == lib';
    }
  }

  /** Entry ids are distinct. */
  predicate DistinctIds(lib: seq<LibraryEntry>) {
    forall i, j :: 0 <= i < j < |lib| ==> lib[i].id != lib[j].id
  }

  /** After a successful mark the entry leaves its note's listing and every
      other listed entry stays. */
  lemma MarkPoorHides(quizzes: seq<QuizRow>, lib: seq<LibraryEntry>, quizId: int, questionText: string, noteId: int)
    requires DistinctIds(lib)
    requires MarkPoor(quizzes, lib, quizId, questionText).0.Ok?
    ensures var id := MarkPoor(quizzes, lib, quizId, questionText).0.value.id;
            var lib' := MarkPoor(quizzes, lib, quizId, questionText).1;
      && (forall e :: e in LibraryQuestions(lib', noteId) ==> e.id != id)
      && (forall e :: e in LibraryQuestions(lib, noteId) && e.id != id ==> e in LibraryQuestions(lib', noteId))
  {
    var lib' := MarkPoor(quizzes, lib, quizId, questionText).1;
    MarkPoorChangesOne(quizzes, lib, quizId, questionText);
    var k := FindEntry(lib, FindQuiz(quizzes, quizId).value.lectureNotesId, JString(questionText));
    forall e | e in LibraryQuestions(lib', noteId) ensures e.id != lib[k].id {
      var i :| 0 <= i < |lib'| && lib'[i] == e;
      if i != k {
        assert lib[i] == e;
      }
    }
    forall e | e in LibraryQuestions(lib, noteId) && e.id != lib[k].id ensures e in LibraryQuestions(lib', noteId) {
      var i :| 0 <= i < |lib| && lib[i] == e;
      assert i != k;
      assert lib'[i] == e;
    }
  }
}
