/** The server actions of `src/lib/actions.ts`. Each takes the shared
    `DatabaseHelper` (what `getDatabaseHelper()` returns) and, where the
    source draws `crypto.randomUUID()`, the fresh id as a parameter. */
module Actions {
  import opened Wrappers
  import opened Text
  import opened Schema
  import opened SqlServer

  /** The caller-supplied fields of a new `quizzes` row. */
  datatype NewQuiz = NewQuiz(
    title: string, description: Option<string>, teacherId: string, status: string,
    timeLimit: Option<int>, totalQuestions: int, isRandomized: bool, showResults: bool)

  /** The caller-supplied fields of a new `questions` row; `options` is the
      text `JSON.stringify` produces for the options. */
  datatype NewQuestion = NewQuestion(
    quizId: string, questionText: string, questionType: string, options: string,
    correctAnswer: string, points: int, timeLimit: Option<int>, explanation: Option<string>,
    orderIndex: int)

  /** The caller-supplied fields of a new `answers` row. */
  datatype NewAnswer = NewAnswer(
    sessionId: string, questionId: string, answer: string, isCorrect: bool,
    pointsEarned: int, timeTaken: Option<int>)

  const InsertQuizSql := "INSERT INTO quizzes (id, title, description, teacher_id, status, time_limit, total_questions, is_randomized, show_results, created_at, updated_at) VALUES (@param0, @param1, @param2, @param3, @param4, @param5, @param6, @param7, @param8, GETDATE(), GETDATE())"
  const InsertQuestionSql := "INSERT INTO questions (id, quiz_id, question_text, question_type, options, correct_answer, points, time_limit, explanation, order_index, created_at, updated_at) VALUES (@param0, @param1, @param2, @param3, @param4, @param5, @param6, @param7, @param8, @param9, GETDATE(), GETDATE())"
  const SessionByIdSql := "SELECT * FROM quiz_sessions WHERE id = @param0"
  const InsertAnswerSql := "INSERT INTO answers (id, session_id, question_id, answer, is_correct, points_earned, time_taken, answered_at) VALUES (@param0, @param1, @param2, @param3, @param4, @param5, @param6, GETDATE())"

  function QuizParams(id: string, q: NewQuiz): seq<Value> {
    [Str(id), Str(q.title), OptStr(q.description), Str(q.teacherId), Str(q.status),
     OptInt(q.timeLimit), Int(q.totalQuestions), Bool(q.isRandomized), Bool(q.showResults)]
  }

  function QuestionParams(id: string, q: NewQuestion): seq<Value> {
    [Str(id), Str(q.quizId), Str(q.questionText), Str(q.questionType), Str(q.options),
     Str(q.correctAnswer), Int(q.points), OptInt(q.timeLimit), OptStr(q.explanation), Int(q.orderIndex)]
  }

  function AnswerParams(id: string, a: NewAnswer): seq<Value> {
    [Str(id), Str(a.sessionId), Str(a.questionId), Str(a.answer), Bool(a.isCorrect),
     Int(a.pointsEarned), OptInt(a.timeTaken)]
  }

  /** Inserts the quiz under `freshId` and returns that id; the statement
      reads the id as `@param0`. */
  method CreateQuiz(db: DatabaseHelper, quiz: NewQuiz, freshId: string) returns (id: string)
    modifies db
    ensures id == freshId
    ensures db.issued == old(db.issued) + [Statement(InsertQuizSql, Bindings(QuizParams(id, quiz)))]
  {
    id := freshId;
    var _ := db.Query<NewQuiz>(InsertQuizSql, QuizParams(id, quiz), []);
  }

  method CreateQuestion(db: DatabaseHelper, question: NewQuestion, freshId: string) returns (id: string)
    modifies db
    ensures id == freshId
    ensures db.issued == old(db.issued) + [Statement(InsertQuestionSql, Bindings(QuestionParams(id, question)))]
  {
    id := freshId;
    var _ := db.Query<NewQuestion>(InsertQuestionSql, QuestionParams(id, question), []);
  }

  method CreateAnswer(db: DatabaseHelper, answer: NewAnswer, freshId: string) returns (id: string)
    modifies db
    ensures id == freshId
    ensures db.issued == old(db.issued) + [Statement(InsertAnswerSql, Bindings(AnswerParams(id, answer)))]
  {
    id := freshId;
    var _ := db.Query<NewAnswer>(InsertAnswerSql, AnswerParams(id, answer), []);
  }

  /** The first session row, or null. */
  method GetQuizSession<S>(db: DatabaseHelper, sessionId: string, recordset: seq<S>) returns (r: Option<S>)
    modifies db
    ensures db.issued == old(db.issued) + [Statement(SessionByIdSql, Bindings([Str(sessionId)]))]
    ensures r == FirstRow(recordset)
  {
    var rows := db.Query(SessionByIdSql, [Str(sessionId)], recordset);
    r := FirstRow(rows);
  }

  const SessionUpdatePrefix := "UPDATE quiz_sessions SET "
  const SessionUpdateSuffix := " WHERE id = @param0"

  /** The statement `updateQuizSession` sends, if any: the SET clause of
      `updateProfile` without the `updated_at` assignment. */
  function SessionUpdate(id: string, updates: seq<Update>): (r: Option<Statement>)
    ensures r.None? <==> forall i :: 0 <= i < |updates| ==> updates[i].value.None?
    ensures r.Some? ==> r.value.text == SessionUpdatePrefix + SetClause(DefinedFields(updates)) + SessionUpdateSuffix
    ensures r.Some? ==> r.value.inputs == UpdateInputs(id, DefinedFields(updates))
  {
    var fields := DefinedFields(updates);
    if |fields| == 0 then None
    else Some(Statement(SessionUpdatePrefix + SetClause(fields) + SessionUpdateSuffix, UpdateInputs(id, fields)))
  }

  /** Where both send a statement, a session update and a profile update for
      the same id and updates differ only in the table named and in the
      profile's extra `updated_at = GETDATE()`, and bind the same inputs. */
  lemma SessionAndProfileUpdatesAgree(id: string, updates: seq<Update>)
    ensures SessionUpdate(id, updates).Some? <==> ProfileUpdate(id, updates).Some?
    ensures SessionUpdate(id, updates).Some? ==>
      var clause := SetClause(DefinedFields(updates));
      && SessionUpdate(id, updates).value.text == SessionUpdatePrefix + clause + SessionUpdateSuffix
      && ProfileUpdate(id, updates).value.text == ProfileUpdatePrefix + clause + ProfileUpdateSuffix
      && SessionUpdate(id, updates).value.inputs == ProfileUpdate(id, updates).value.inputs
  {
  }

  method UpdateQuizSession(db: DatabaseHelper, id: string, updates: seq<Update>)
    modifies db
    ensures db.issued == old(db.issued)
      + (if SessionUpdate(id, updates).Some? then [SessionUpdate(id, updates).value] else [])
  {
    var fields := DefinedFields(updates);
    if |fields| == 0 {
      return;
    }
    var setClause := SetClause(fields);
    var values := seq(|fields|, k requires 0 <= k < |fields| => fields[k].value.value);
    var _ := db.Query<Update>(SessionUpdatePrefix + setClause + SessionUpdateSuffix, [Str(id)] + values, []);
  }

  /** The profile update `approveTeacher` (`approved` true) and
      `rejectTeacher` (false) pass: `{ is_approved: approved }`. */
  function ApprovalUpdates(approved: bool): seq<Update> {
    [Update("is_approved", Some(Bool(approved)))]
  }

  /** Approving or rejecting sends exactly one statement, which sets
      `is_approved` (and the timestamp) and nothing else. */
  lemma ApprovalStatement(id: string, approved: bool)
    ensures ProfileUpdate(id, ApprovalUpdates(approved)) == Some(Statement(
      ProfileUpdatePrefix + "is_approved = @param1" + ProfileUpdateSuffix,
      [Binding("param0", Str(id)), Binding("param1", Bool(approved))]))
  {
    var updates := ApprovalUpdates(approved);
    var fields := DefinedFields(updates);
    assert fields == updates by {
      assert updates[0] in fields;
    }
    assert NatToString(0) == "0" && NatToString(1) == "1";
    assert ParamName(0) == "param0" && ParamName(1) == "param1";
    assert SetClause(fields) == "is_approved = @param1";
    assert [Str(id)] + seq(1, k requires 0 <= k < 1 => fields[k].value.value) == [Str(id), Bool(approved)];
    assert UpdateInputs(id, fields) == [Binding("param0", Str(id)), Binding("param1", Bool(approved))];
  }

  method ApproveTeacher(db: DatabaseHelper, id: string)
    modifies db
    ensures db.issued == old(db.issued) + [Statement(
      ProfileUpdatePrefix + "is_approved = @param1" + ProfileUpdateSuffix,
      [Binding("param0", Str(id)), Binding("param1", Bool(true))])]
  {
    ApprovalStatement(id, true);
    db.UpdateProfile(id, ApprovalUpdates(true));
  }

  method RejectTeacher(db: DatabaseHelper, id: string)
    modifies db
    ensures db.issued == old(db.issued) + [Statement(
      ProfileUpdatePrefix + "is_approved = @param1" + ProfileUpdateSuffix,
      [Binding("param0", Str(id)), Binding("param1", Bool(false))])]
  {
    ApprovalStatement(id, false);
    db.UpdateProfile(id, ApprovalUpdates(false));
  }
}
