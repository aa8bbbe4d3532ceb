/** The tables the pages read and write, held as plain collections. This is
    the store at the level of rows, below the SQL text that `SqlServer`
    models: each page operation is modelled by its effect on these tables. */
module Store {
  import opened Wrappers
  import opened Lists
  import opened Schema

  /** A `quizzes` row as the pages use it. */
  datatype QuizRecord = QuizRecord(
    id: string, title: string, description: string, teacherId: Option<string>,
    status: string, totalQuestions: nat, isRandomized: bool, showResults: bool, isActive: bool)

  /** A `questions` row as the authoring page inserts it. */
  datatype QuestionRecord = QuestionRecord(
    quizId: string, question: string, options: seq<string>, correctAnswer: int,
    timeLimit: int, orderIndex: int)

  /** A `quiz_sessions` row as the join page inserts and reads it. */
  datatype SessionRecord = SessionRecord(id: string, quizId: string, studentId: string, isActive: bool)

  /** Active sessions of one student in one quiz, in table order. */
  function ActiveSessionsOf(sessions: seq<SessionRecord>, quizId: string, studentId: string): (r: seq<SessionRecord>)
    ensures forall i :: 0 <= i < |r| ==> r[i] in sessions && r[i].quizId == quizId && r[i].studentId == studentId && r[i].isActive
    ensures r == [] <==> forall i :: 0 <= i < |sessions| ==>
      !(sessions[i].quizId == quizId && sessions[i].studentId == studentId && sessions[i].isActive)
  {
    Filter(sessions, (s: SessionRecord) => s.quizId == quizId && s.studentId == studentId && s.isActive)
  }

  /** Appending a session adds it to the active sessions it belongs to. */
  lemma ActiveSessionsAppend(sessions: seq<SessionRecord>, s: SessionRecord, quizId: string, studentId: string)
    ensures ActiveSessionsOf(sessions + [s], quizId, studentId)
      == ActiveSessionsOf(sessions, quizId, studentId)
         + (if s.quizId == quizId && s.studentId == studentId && s.isActive then [s] else [])
  {
    FilterAppend(sessions, s, (x: SessionRecord) => x.quizId == quizId && x.studentId == studentId && x.isActive);
  }

  /** Active quizzes whose id is `code`: `WHERE id = @param0 AND is_active = 1`. */
  function ActiveQuizzesWithId(quizzes: seq<QuizRecord>, code: string): (r: seq<QuizRecord>)
    ensures forall i :: 0 <= i < |r| ==> r[i] in quizzes && r[i].id == code && r[i].isActive
    ensures r == [] <==> forall i :: 0 <= i < |quizzes| ==> !(quizzes[i].id == code && quizzes[i].isActive)
  {
    Filter(quizzes, (q: QuizRecord) => q.id == code && q.isActive)
  }

  class Store {
    /** The `is_active` value a new `quiz_sessions` row gets from the table's
        column default: `createQuizSession` does not write that column. */
    const sessionsActiveByDefault: bool
    var profiles: map<string, Profile>
    var quizzes: seq<QuizRecord>
    var questions: seq<QuestionRecord>
    var sessions: seq<SessionRecord>
    /** Every quiz code looked up, oldest first. */
    var codeLookups: seq<string>

    constructor (sessionsActiveByDefault: bool)
      ensures this.sessionsActiveByDefault == sessionsActiveByDefault
      ensures profiles == map[] && quizzes == [] && questions == [] && sessions == [] && codeLookups == []
    {
      this.sessionsActiveByDefault := sessionsActiveByDefault;
      profiles, quizzes, questions, sessions, codeLookups := map[], [], [], [], [];
    }

    /** `getProfile(id)`. A missing user id (`undefined`, which SQL compares
        as NULL) matches no row. */
    function ProfileOf(id: Option<string>): (r: Option<Profile>)
      reads this
      ensures r.Some? <==> id.Some? && id.value in profiles
    {
      if id.Some? && id.value in profiles then Some(profiles[id.value]) else None
    }

    /** `createProfile(p)`: a row under a missing id can never be read back,
        so it is not recorded. */
    method InsertProfile(id: Option<string>, p: Profile)
      modifies this
      ensures id.Some? ==> profiles == old(profiles)[id.value := p]
      ensures id.None? ==> profiles == old(profiles)
      ensures quizzes == old(quizzes) && questions == old(questions)
      ensures sessions == old(sessions) && codeLookups == old(codeLookups)
    {
      if id.Some? {
        profiles := profiles[id.value := p];
      }
    }

    method InsertQuiz(q: QuizRecord)
      modifies this
      ensures quizzes == old(quizzes) + [q]
      ensures profiles == old(profiles) && questions == old(questions)
      ensures sessions == old(sessions) && codeLookups == old(codeLookups)
    {
      quizzes := quizzes + [q];
    }

    method InsertQuestion(q: QuestionRecord)
      modifies this
      ensures questions == old(questions) + [q]
      ensures profiles == old(profiles) && quizzes == old(quizzes)
      ensures sessions == old(sessions) && codeLookups == old(codeLookups)
    {
      questions := questions + [q];
    }

    /** `createQuizSession`: a row with the given id, quiz and student; its
        `is_active` is the column default. */
    method InsertSession(id: string, quizId: string, studentId: string)
      modifies this
      ensures sessions == old(sessions) + [SessionRecord(id, quizId, studentId, sessionsActiveByDefault)]
      ensures profiles == old(profiles) && quizzes == old(quizzes)
      ensures questions == old(questions) && codeLookups == old(codeLookups)
    {
      sessions := sessions + [SessionRecord(id, quizId, studentId, sessionsActiveByDefault)];
    }

    /** The join page's code lookup: the active quizzes with that id. */
    method LookupQuiz(code: string) returns (rows: seq<QuizRecord>)
      modifies this
      ensures rows == ActiveQuizzesWithId(quizzes, code)
      ensures codeLookups == old(codeLookups) + [code]
      ensures profiles == old(profiles) && quizzes == old(quizzes)
      ensures questions == old(questions) && sessions == old(sessions)
    {
      codeLookups := codeLookups + [code];
      rows := ActiveQuizzesWithId(quizzes, code);
    }
  }
}
