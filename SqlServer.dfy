/** The SQL-server data-access helper of `src/lib/sqlserver.ts`: statement
    text, the named parameters bound to it, and the result handed back.
    The server itself is not modelled: `DatabaseHelper` records every
    statement it sends, and the rows a statement returns are given. */
module SqlServer {
  import opened Wrappers
  import opened Text
  import opened Lists
  import opened Schema

  /** A value passed to `request.input`. `Null` stands for `null` (and for an
      absent optional field). */
  datatype Value = Str(s: string) | Int(i: int) | Bool(b: bool) | Null

  function OptStr(o: Option<string>): Value {
    if o.Some? then Str(o.value) else Null
  }

  function OptInt(o: Option<int>): Value {
    if o.Some? then Int(o.value) else Null
  }

  /** One `request.input(name, value)` call. */
  datatype Binding = Binding(name: string, value: Value)

  /** A statement as the server receives it: its text and its named inputs.
      Where the source writes a statement as a multi-line template, the
      text here has each line break and the indentation after it written as
      one space; SQL reads both the same way. */
  datatype Statement = Statement(text: string, inputs: seq<Binding>)

  /** The name `query` gives to the parameter at position `i`. */
  function ParamName(i: nat): string {
    "param" + NatToString(i)
  }

  /** Parameter names never collide. */
  lemma ParamNameInjective(i: nat, j: nat)
    requires ParamName(i) == ParamName(j)
    ensures i == j
  {
    assert ParamName(i)[5..] == NatToString(i);
    assert ParamName(j)[5..] == NatToString(j);
    NatToStringInjective(i, j);
  }

  /** The inputs `query` binds for `params`, in order. */
  function Bindings(params: seq<Value>): (r: seq<Binding>)
    ensures |r| == |params|
  {
    seq(|params|, i requires 0 <= i < |params| => Binding(ParamName(i), params[i]))
  }

  /** The value a statement reads for `@name`. */
  function Lookup(inputs: seq<Binding>, name: string): Option<Value>
  {
    if inputs == [] then None
    else if inputs[0].name == name then Some(inputs[0].value)
    else Lookup(inputs[1..], name)
  }

  lemma {:induction false} LookupFirst(inputs: seq<Binding>, name: string, k: nat)
    requires k < |inputs| && inputs[k].name == name
    requires forall j :: 0 <= j < k ==> inputs[j].name != name
    ensures Lookup(inputs, name) == Some(inputs[k].value)
  {
    if k > 0 {
      LookupFirst(inputs[1..], name, k - 1);
    }
  }

  lemma {:induction false} LookupAbsent(inputs: seq<Binding>, name: string)
    requires forall j :: 0 <= j < |inputs| ==> inputs[j].name != name
    ensures Lookup(inputs, name) == None
  {
    if inputs != [] {
      LookupAbsent(inputs[1..], name);
    }
  }

  /** `query` binds `params[k]` under `@param{k}` for every position `k`, and
      nothing under any other position's name. */
  lemma LookupBindings(params: seq<Value>, k: nat)
    ensures Lookup(Bindings(params), ParamName(k)) == if k < |params| then Some(params[k]) else None
  {
    var inputs := Bindings(params);
    forall j | 0 <= j < |inputs| && j != k
      ensures inputs[j].name != ParamName(k)
    {
      if inputs[j].name == ParamName(k) {
        ParamNameInjective(j, k);
      }
    }
    if k < |params| {
      LookupFirst(inputs, ParamName(k), k);
    } else {
      LookupAbsent(inputs, ParamName(k));
    }
  }

  /** The `mssql` request object: `input` adds one named parameter. */
  class Request {
    var inputs: seq<Binding>

    constructor ()
      ensures inputs == []
    {
      inputs := [];
    }

    method Input(name: string, value: Value)
      modifies this
      ensures inputs == old(inputs) + [Binding(name, value)]
    {
      inputs := inputs + [Binding(name, value)];
    }
  }

  /** The first row of a result, or null: `result[0] || null`. Rows are
      objects, so a present row is never falsy. */
  function FirstRow<T>(rows: seq<T>): (r: Option<T>)
    ensures r.None? <==> rows == []
    ensures r.Some? ==> r.value == rows[0]
  {
    if rows == [] then None else Some(rows[0])
  }

  /** A column and the value an update object gives it; `None` is
      `undefined`. The order of a sequence of updates is the order of
      `Object.keys`. */
  datatype Update = Update(column: string, value: Option<Value>)

  /** `Object.keys(updates).filter(key => updates[key] !== undefined)`. */
  function DefinedFields(updates: seq<Update>): (r: seq<Update>)
    ensures forall i :: 0 <= i < |r| ==> r[i].value.Some? && r[i] in updates
    ensures forall i :: 0 <= i < |updates| && updates[i].value.Some? ==> updates[i] in r
    ensures IsSubsequence(r, updates)
  {
    Filter(updates, (u: Update) => u.value.Some?)
  }

  /** The k-th assignment of a SET clause: `column = @param{k+1}`. */
  function Assignment(fields: seq<Update>, k: nat): string
    requires k < |fields|
  {
    fields[k].column + " = @" + ParamName(k + 1)
  }

  /** `fields.map((field, index) => ...).join(', ')`. */
  function SetClause(fields: seq<Update>): string {
    Join(", ", seq(|fields|, k requires 0 <= k < |fields| => Assignment(fields, k)))
  }

  /** `[id, ...values]` bound as `@param0`, `@param1`, ... */
  function UpdateInputs(id: string, fields: seq<Update>): (r: seq<Binding>)
    requires forall i :: 0 <= i < |fields| ==> fields[i].value.Some?
    ensures |r| == |fields| + 1
  {
    Bindings([Str(id)] + seq(|fields|, k requires 0 <= k < |fields| => fields[k].value.value))
  }

  /** In an update statement the id is read as `@param0` and the column named
      by the k-th assignment receives the k-th defined value; there is no
      parameter beyond the last field. */
  lemma SetClauseBindsValues(id: string, fields: seq<Update>, k: nat)
    requires forall i :: 0 <= i < |fields| ==> fields[i].value.Some?
    requires k < |fields|
    ensures Lookup(UpdateInputs(id, fields), ParamName(0)) == Some(Str(id))
    ensures Assignment(fields, k) == fields[k].column + " = @" + ParamName(k + 1)
    ensures Lookup(UpdateInputs(id, fields), ParamName(k + 1)) == fields[k].value
    ensures Lookup(UpdateInputs(id, fields), ParamName(|fields| + 1)) == None
  {
    var params := [Str(id)] + seq(|fields|, j requires 0 <= j < |fields| => fields[j].value.value);
    LookupBindings(params, 0);
    LookupBindings(params, k + 1);
    LookupBindings(params, |fields| + 1);
  }

  const ProfileUpdatePrefix := "UPDATE profiles SET "
  const ProfileUpdateSuffix := ", updated_at = GETDATE() WHERE id = @param0"

  /** The statement `updateProfile` sends, if any. */
  function ProfileUpdate(id: string, updates: seq<Update>): (r: Option<Statement>)
    ensures r.None? <==> forall i :: 0 <= i < |updates| ==> updates[i].value.None?
    ensures r.Some? ==> r.value.text == ProfileUpdatePrefix + SetClause(DefinedFields(updates)) + ProfileUpdateSuffix
    ensures r.Some? ==> r.value.inputs == UpdateInputs(id, DefinedFields(updates))
  {
    var fields := DefinedFields(updates);
    if |fields| == 0 then None
    else Some(Statement(ProfileUpdatePrefix + SetClause(fields) + ProfileUpdateSuffix, UpdateInputs(id, fields)))
  }

  const ProfileByIdSql := "SELECT * FROM profiles WHERE id = @param0"
  const InsertProfileSql := "INSERT INTO profiles (id, email, full_name, role, avatar_url, is_approved, created_at, updated_at) VALUES (@param0, @param1, @param2, @param3, @param4, @param5, GETDATE(), GETDATE())"
  const QuizzesByTeacherSql := "SELECT * FROM quizzes WHERE teacher_id = @param0 ORDER BY created_at DESC"
  const QuizByIdSql := "SELECT * FROM quizzes WHERE id = @param0"
  const QuestionsByQuizSql := "SELECT * FROM questions WHERE quiz_id = @param0 ORDER BY order_index"
  const InsertSessionSql := "INSERT INTO quiz_sessions (id, quiz_id, student_id, started_at, score, total_points, is_completed) VALUES (@param0, @param1, @param2, GETDATE(), @param3, @param4, @param5)"
  const LeaderboardByQuizSql := "SELECT * FROM leaderboard WHERE quiz_id = @param0 ORDER BY rank"

  /** The fields of a new `quiz_sessions` row the caller supplies. */
  datatype NewSession = NewSession(quizId: string, studentId: string, score: Value, totalPoints: Value, isCompleted: Value)

  /** A quiz together with its questions, as `getQuizWithQuestions` returns it. */
  datatype QuizWithQuestions<Q, R> = QuizWithQuestions(quiz: Q, questions: seq<R>)

  /** `DatabaseHelper`: every statement it has sent, oldest first. */
  class DatabaseHelper {
    var issued: seq<Statement>

    constructor ()
      ensures issued == []
    {
      issued := [];
    }

    /** Binds `params[i]` as `param{i}`, sends `text`, returns the rows the
        server answers with (`recordset`). */
    method Query<T>(text: string, params: seq<Value>, recordset: seq<T>) returns (rows: seq<T>)
      modifies this
      ensures issued == old(issued) + [Statement(text, Bindings(params))]
      ensures rows == recordset
    {
      var request := new Request();
      for i := 0 to |params|
        invariant request.inputs == Bindings(params[..i])
        invariant issued == old(issued)
      {
        request.Input(ParamName(i), params[i]);
        assert Bindings(params[..i + 1]) == Bindings(params[..i]) + [Binding(ParamName(i), params[i])];
      }
      assert params[..|params|] == params;
      issued := issued + [Statement(text, request.inputs)];
      rows := recordset;
    }

    method GetProfile(id: string, recordset: seq<Profile>) returns (r: Option<Profile>)
      modifies this
      ensures issued == old(issued) + [Statement(ProfileByIdSql, Bindings([Str(id)]))]
      ensures r == FirstRow(recordset)
    {
      var rows := Query(ProfileByIdSql, [Str(id)], recordset);
      r := FirstRow(rows);
    }

    method CreateProfile(p: Profile)
      modifies this
      ensures issued == old(issued) + [Statement(InsertProfileSql, Bindings(
        [Str(p.id), Str(p.email), OptStr(p.fullName), Str(p.role), OptStr(p.avatarUrl), Bool(p.isApproved)]))]
    {
      var _ := Query<Profile>(InsertProfileSql,
        [Str(p.id), Str(p.email), OptStr(p.fullName), Str(p.role), OptStr(p.avatarUrl), Bool(p.isApproved)], []);
    }

    /** Sends `ProfileUpdate(id, updates)` when there is one; with no defined
        field nothing is sent. */
    method UpdateProfile(id: string, updates: seq<Update>)
      modifies this
      ensures issued == old(issued) + (if ProfileUpdate(id, updates).Some? then [ProfileUpdate(id, updates).value] else [])
    {
      var fields := DefinedFields(updates);
      if |fields| == 0 {
        return;
      }
      var setClause := SetClause(fields);
      var values := seq(|fields|, k requires 0 <= k < |fields| => fields[k].value.value);
      var _ := Query<Profile>(
        ProfileUpdatePrefix + setClause + ProfileUpdateSuffix,
        [Str(id)] + values, []);
    }

    method GetQuizzesByTeacher<Q>(teacherId: string, recordset: seq<Q>) returns (quizzes: seq<Q>)
      modifies this
      ensures issued == old(issued) + [Statement(QuizzesByTeacherSql, Bindings([Str(teacherId)]))]
      ensures quizzes == recordset
    {
      quizzes := Query(QuizzesByTeacherSql, [Str(teacherId)], recordset);
    }

    /** Null when no quiz row comes back, and then the questions are not
        asked for; otherwise the first quiz row and the question rows. */
    method GetQuizWithQuestions<Q, R>(quizId: string, quizRows: seq<Q>, questionRows: seq<R>)
      returns (r: Option<QuizWithQuestions<Q, R>>)
      modifies this
      ensures quizRows == [] ==> (r == None
        && issued == old(issued) + [Statement(QuizByIdSql, Bindings([Str(quizId)]))])
      ensures quizRows != [] ==> (r == Some(QuizWithQuestions(quizRows[0], questionRows))
        && issued == old(issued) + [Statement(QuizByIdSql, Bindings([Str(quizId)])),
                                    Statement(QuestionsByQuizSql, Bindings([Str(quizId)]))])
    {
      var quizResult := Query(QuizByIdSql, [Str(quizId)], quizRows);
      if quizResult == [] {
        return None;
      }
      var questions := Query(QuestionsByQuizSql, [Str(quizId)], questionRows);
      r := Some(QuizWithQuestions(quizResult[0], questions));
    }

    /** Inserts the session under `freshId` (the `crypto.randomUUID()` of the
        source) and returns that same id. */
    method CreateQuizSession(session: NewSession, freshId: string) returns (id: string)
      modifies this
      ensures id == freshId
      ensures issued == old(issued) + [Statement(InsertSessionSql, Bindings(
        [Str(id), Str(session.quizId), Str(session.studentId), session.score, session.totalPoints, session.isCompleted]))]
    {
      id := freshId;
      var _ := Query<NewSession>(InsertSessionSql,
        [Str(id), Str(session.quizId), Str(session.studentId), session.score, session.totalPoints, session.isCompleted], []);
    }

    method GetLeaderboard<L>(quizId: string, recordset: seq<L>) returns (rows: seq<L>)
      modifies this
      ensures issued == old(issued) + [Statement(LeaderboardByQuizSql, Bindings([Str(quizId)]))]
      ensures rows == recordset
    {
      rows := Query(LeaderboardByQuizSql, [Str(quizId)], recordset);
    }
  }

  /** The module-level `dbHelper` variable behind `getDatabaseHelper`. */
  class HelperSlot {
    var dbHelper: DatabaseHelper?

    constructor ()
      ensures dbHelper == null
    {
      dbHelper := null;
    }

    /** The helper is created on first use and the same one is returned on
        every later call. */
    method GetDatabaseHelper() returns (db: DatabaseHelper)
      modifies this
      ensures old(dbHelper) != null ==> db == old(dbHelper)
      ensures old(dbHelper) == null ==> fresh(db) && db.issued == []
      ensures dbHelper == db
    {
      if dbHelper == null {
        dbHelper := new DatabaseHelper();
      }
      db := dbHelper;
    }
  }
}
