/** The teacher's quiz list of `src/app/teacher/quizzes/page.tsx`: the
    question and session counts derived from the fetched rows, and the local
    updates after toggling or deleting a quiz. */
module TeacherQuizzes {
  import opened Wrappers
  import opened Lists

  /** An element of an embedded count: `{ count: n }`. */
  datatype CountRow = CountRow(count: nat)

  /** An embedded relation as the client returns it: an array, or some
      other value (null, an object). */
  datatype Embedded = EmbeddedArray(items: seq<CountRow>) | NotAnArray

  /** A fetched quiz with its embedded `questions(count)` and
      `quiz_sessions(count)`. */
  datatype RawQuiz = RawQuiz(
    id: string, title: string, description: string, isActive: bool, createdAt: string,
    questions: Embedded, sessions: Embedded)

  /** A quiz as the list shows it. */
  datatype Quiz = Quiz(
    id: string, title: string, description: string, isActive: bool, createdAt: string,
    questionsCount: nat, sessionsCount: nat)

  /** What the `count` aggregate sends back for `n` related rows: one element
      holding the number. */
  function AggregateReply(n: nat): Embedded {
    EmbeddedArray([CountRow(n)])
  }

  // ---------------------------------------------------------------------
  // Counts

  /** The count as the page computes it: the length of the array, or 0. */
  function CountAsWritten(e: Embedded): (n: nat)
    ensures e.NotAnArray? ==> n == 0
    ensures e.EmbeddedArray? ==> n == |e.items|
  {
    if e.EmbeddedArray? then |e.items| else 0
  }

  /** On the aggregate's reply the page's count is always 1, whatever the
      number of questions or sessions: a quiz with 5 questions shows 1, and
      so does a quiz with none. */
  lemma CountAsWrittenIgnoresNumber(n: nat)
    ensures CountAsWritten(AggregateReply(n)) == 1
    ensures CountAsWritten(AggregateReply(5)) != 5 && CountAsWritten(AggregateReply(0)) != 0
  {
  }

  /** The count read from the aggregate's reply: the number it holds, or 0
      when the reply is not an array or is empty. */
  function Count(e: Embedded): (n: nat)
    ensures e.NotAnArray? ==> n == 0
  {
    if e.EmbeddedArray? && |e.items| > 0 then e.items[0].count else 0
  }

  /** The corrected count gives back the number of related rows. */
  lemma CountReadsAggregate(n: nat)
    ensures Count(AggregateReply(n)) == n
    ensures Count(EmbeddedArray([])) == 0
  {
  }

  /** One row of the quiz list with its counts, read with the corrected
      `Count` (see `CountReadsAggregate`). */
  function ToQuiz(raw: RawQuiz): Quiz {
    Quiz(raw.id, raw.title, raw.description, raw.isActive, raw.createdAt, Count(raw.questions), Count(raw.sessions))
  }

  /** One row of the quiz list as the page computes it: the counts are the
      `.length` of the embedded values. */
  function ToQuizAsWritten(raw: RawQuiz): Quiz {
    Quiz(raw.id, raw.title, raw.description, raw.isActive, raw.createdAt,
         CountAsWritten(raw.questions), CountAsWritten(raw.sessions))
  }

  /** As written, every quiz whose counts come back as aggregates is listed
      with one question and one session; the corrected row differs only in
      showing the real numbers. */
  lemma AsWrittenListShowsOne(raw: RawQuiz, questions: nat, sessions: nat)
    requires raw.questions == AggregateReply(questions) && raw.sessions == AggregateReply(sessions)
    ensures ToQuizAsWritten(raw).questionsCount == 1 && ToQuizAsWritten(raw).sessionsCount == 1
    ensures ToQuiz(raw) == ToQuizAsWritten(raw).(questionsCount := questions, sessionsCount := sessions)
  {
    CountAsWrittenIgnoresNumber(questions);
    CountAsWrittenIgnoresNumber(sessions);
    CountReadsAggregate(questions);
    CountReadsAggregate(sessions);
  }

  /** `data.map(...)` with the corrected counts: one quiz per row, in row
      order. */
  function ToQuizzes(rows: seq<RawQuiz>): (r: seq<Quiz>)
    ensures |r| == |rows|
    ensures forall i :: 0 <= i < |rows| ==> r[i] == ToQuiz(rows[i])
  {
    seq(|rows|, i requires 0 <= i < |rows| => ToQuiz(rows[i]))
  }

  /** With the corrected `Count`, every column but the counts is copied and
      the counts are the numbers of related rows. */
  lemma ToQuizzesKeepsRows(rows: seq<RawQuiz>, qs: seq<nat>, ss: seq<nat>)
    requires |qs| == |rows| && |ss| == |rows|
    requires forall i :: 0 <= i < |rows| ==>
      rows[i].questions == AggregateReply(qs[i]) && rows[i].sessions == AggregateReply(ss[i])
    ensures forall i :: 0 <= i < |rows| ==>
      var q := ToQuizzes(rows)[i];
      && q.id == rows[i].id && q.title == rows[i].title && q.description == rows[i].description
      && q.isActive == rows[i].isActive && q.createdAt == rows[i].createdAt
      && q.questionsCount == qs[i] && q.sessionsCount == ss[i]
  {
  }

  // ---------------------------------------------------------------------
  // Local updates

  function HasId(id: string): Quiz -> bool {
    (q: Quiz) => q.id == id
  }

  function NotWithId(id: string): Quiz -> bool {
    (q: Quiz) => q.id != id
  }

  function WithActive(active: bool): Quiz -> Quiz {
    (q: Quiz) => q.(isActive := active)
  }

  /** The local update of `toggleQuizStatus`: `is_active := !currentStatus`
      on the quizzes with that id. */
  function ToggleQuiz(quizzes: seq<Quiz>, id: string, currentStatus: bool): (r: seq<Quiz>)
    ensures |r| == |quizzes|
    ensures forall i :: 0 <= i < |quizzes| && quizzes[i].id != id ==> r[i] == quizzes[i]
    ensures forall i :: 0 <= i < |quizzes| && quizzes[i].id == id ==>
      r[i] == quizzes[i].(isActive := !currentStatus)
  {
    MapWhere(quizzes, HasId(id), WithActive(!currentStatus))
  }

  /** Toggling with the status the quiz shows, then toggling again with the
      status it shows after that, gives back the list. */
  lemma ToggleTwiceRestores(quizzes: seq<Quiz>, id: string, currentStatus: bool)
    requires forall i :: 0 <= i < |quizzes| && quizzes[i].id == id ==> quizzes[i].isActive == currentStatus
    ensures ToggleQuiz(ToggleQuiz(quizzes, id, currentStatus), id, !currentStatus) == quizzes
  {
    var r := ToggleQuiz(ToggleQuiz(quizzes, id, currentStatus), id, !currentStatus);
    assert forall i :: 0 <= i < |quizzes| ==> r[i] == quizzes[i];
  }

  /** The local update of `deleteQuiz`. */
  function DeleteQuiz(quizzes: seq<Quiz>, id: string): (r: seq<Quiz>)
    ensures IsSubsequence(r, quizzes)
    ensures forall i :: 0 <= i < |r| ==> r[i].id != id
    ensures forall i :: 0 <= i < |quizzes| && quizzes[i].id != id ==> quizzes[i] in r
  {
    Filter(quizzes, NotWithId(id))
  }

  /** Deleting removes exactly the quizzes with that id: the rest are kept
      and the count drops by their number. */
  lemma DeleteCountsRemoved(quizzes: seq<Quiz>, id: string)
    ensures |DeleteQuiz(quizzes, id)| + |Filter(quizzes, HasId(id))| == |quizzes|
  {
    FilterPartition(quizzes, HasId(id));
    assert Filter(quizzes, Not(HasId(id))) == Filter(quizzes, NotWithId(id)) by {
      FilterSameTest(quizzes, Not(HasId(id)), NotWithId(id));
    }
  }

  /** The page's state: the quizzes listed and the error shown. */
  datatype PageState = PageState(quizzes: seq<Quiz>, error: string)

  /** `toggleQuizStatus` once the store has answered with `storeError`: a
      failure records its message and leaves the list. */
  function ToggleAttempt(state: PageState, id: string, currentStatus: bool, storeError: Option<string>): (r: PageState)
    ensures storeError.Some? ==> r == PageState(state.quizzes, storeError.value)
    ensures storeError.None? ==> r == PageState(ToggleQuiz(state.quizzes, id, currentStatus), state.error)
  {
    match storeError
    case Some(message) => state.(error := message)
    case None => state.(quizzes := ToggleQuiz(state.quizzes, id, currentStatus))
  }

  /** `deleteQuiz`: nothing happens unless the user confirms; a store
      failure records its message and leaves the list. */
  function DeleteAttempt(state: PageState, id: string, confirmed: bool, storeError: Option<string>): (r: PageState)
    ensures !confirmed ==> r == state
    ensures confirmed && storeError.Some? ==> r == PageState(state.quizzes, storeError.value)
    ensures confirmed && storeError.None? ==> r == PageState(DeleteQuiz(state.quizzes, id), state.error)
  {
    if !confirmed then state
    else match storeError
      case Some(message) => state.(error := message)
      case None => state.(quizzes := DeleteQuiz(state.quizzes, id))
  }
}
