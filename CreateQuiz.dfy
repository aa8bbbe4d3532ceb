/** The quiz authoring page of `src/app/teacher/create-quiz/page.tsx`: the
    list edits on the question array, the ordered validation rules, and the
    submission that persists one quiz row and one row per question. */
module CreateQuiz {
  import opened Wrappers
  import opened Text
  import opened Lists
  import opened Store

  /** A question being edited. */
  datatype Question = Question(id: string, text: string, options: seq<string>, correctAnswer: int, timeLimit: int)

  /** A blank question: four empty options, the first one correct, 30 seconds. */
  function BlankQuestion(id: string): Question {
    Question(id, "", ["", "", "", ""], 0, 30)
  }

  /** The editor starts with one blank question whose id is '1'. */
  const InitialQuestions: seq<Question> := [BlankQuestion("1")]

  // ---------------------------------------------------------------------
  // List edits

  /** `addQuestion`: appends a blank question under `freshId` (the source's
      `Date.now().toString()`). */
  function AddQuestion(questions: seq<Question>, freshId: string): (r: seq<Question>)
    ensures |r| == |questions| + 1 && r[..|questions|] == questions
    ensures r[|questions|].id == freshId && r[|questions|].text == ""
    ensures r[|questions|].options == ["", "", "", ""]
    ensures r[|questions|].correctAnswer == 0 && r[|questions|].timeLimit == 30
  {
    questions + [BlankQuestion(freshId)]
  }

  /** The filter `removeQuestion` applies: `q => q.id !== id`. */
  function NotWithId(id: string): Question -> bool {
    (q: Question) => q.id != id
  }

  /** `removeQuestion`: drops every question with that id, unless the list
      holds a single question. */
  function RemoveQuestion(questions: seq<Question>, id: string): seq<Question> {
    if |questions| > 1 then Filter(questions, NotWithId(id)) else questions
  }

  /** Removing keeps the other questions in their order and drops exactly the
      ones with that id; a single question is never removed. */
  lemma RemoveQuestionSpec(questions: seq<Question>, id: string)
    ensures |questions| <= 1 ==> RemoveQuestion(questions, id) == questions
    ensures |questions| > 1 ==>
      && IsSubsequence(RemoveQuestion(questions, id), questions)
      && (forall i :: 0 <= i < |RemoveQuestion(questions, id)| ==> RemoveQuestion(questions, id)[i].id != id)
      && (forall i :: 0 <= i < |questions| && questions[i].id != id ==> questions[i] in RemoveQuestion(questions, id))
  {
  }

  /** Ids are pairwise distinct. */
  predicate DistinctIds(questions: seq<Question>) {
    forall i, j :: 0 <= i < j < |questions| ==> questions[i].id != questions[j].id
  }

  predicate HasId(questions: seq<Question>, id: string) {
    exists i :: 0 <= i < |questions| && questions[i].id == id
  }

  /** With distinct ids the filter drops one question if one has the id and
      none otherwise. */
  lemma {:induction false} FilterDropsAtMostOne(questions: seq<Question>, id: string)
    requires DistinctIds(questions)
    ensures |Filter(questions, NotWithId(id))| == if HasId(questions, id) then |questions| - 1 else |questions|
  {
    if questions != [] {
      var rest := questions[1..];
      FilterDropsAtMostOne(rest, id);
      if questions[0].id == id {
        assert HasId(questions, id) by {
          assert questions[0].id == id;
        }
      } else {
        if HasId(rest, id) {
          var i :| 0 <= i < |rest| && rest[i].id == id;
          assert questions[i + 1].id == id;
        }
        if HasId(questions, id) {
          var i :| 0 <= i < |questions| && questions[i].id == id;
          assert rest[i - 1].id == id;
        }
      }
    }
  }

  /** With distinct ids, removing a question takes away exactly one entry
      when the id is present, so a non-empty list stays non-empty. */
  lemma RemoveKeepsOthers(questions: seq<Question>, id: string)
    requires DistinctIds(questions) && |questions| >= 1
    ensures |RemoveQuestion(questions, id)| >= 1
    ensures |questions| > 1 && HasId(questions, id) ==> |RemoveQuestion(questions, id)| == |questions| - 1
  {
    FilterDropsAtMostOne(questions, id);
  }

  /** Without distinct ids the guarantee is lost: two questions sharing an id
      are removed together and the list becomes empty. */
  lemma RemoveSharedIdEmptiesList(q: Question)
    ensures RemoveQuestion([q, q], q.id) == []
  {
  }

  /** A field `updateQuestion` can set, with its new value. */
  datatype Field = QuestionText(text: string) | CorrectAnswer(index: int) | TimeLimit(seconds: int)

  function SetField(q: Question, f: Field): Question {
    match f
    case QuestionText(t) => q.(text := t)
    case CorrectAnswer(i) => q.(correctAnswer := i)
    case TimeLimit(s) => q.(timeLimit := s)
  }

  /** `updateQuestion`: sets one field of every question with that id. */
  function UpdateQuestion(questions: seq<Question>, id: string, f: Field): (r: seq<Question>)
    ensures |r| == |questions|
    ensures forall i :: 0 <= i < |r| && questions[i].id != id ==> r[i] == questions[i]
    ensures forall i :: 0 <= i < |r| && questions[i].id == id ==> r[i] == SetField(questions[i], f)
  {
    MapWhere(questions, (q: Question) => q.id == id, (q: Question) => SetField(q, f))
  }

  /** Setting a field changes that field alone. */
  lemma SetFieldChangesOnlyThatField(q: Question, f: Field)
    ensures SetField(q, f).id == q.id && SetField(q, f).options == q.options
    ensures SetField(q, f).text == (if f.QuestionText? then f.text else q.text)
    ensures SetField(q, f).correctAnswer == (if f.CorrectAnswer? then f.index else q.correctAnswer)
    ensures SetField(q, f).timeLimit == (if f.TimeLimit? then f.seconds else q.timeLimit)
  {
  }

  /** `options.map((opt, i) => i === optionIndex ? value : opt)`. */
  function ReplaceOption(options: seq<string>, optionIndex: int, value: string): (r: seq<string>)
    ensures |r| == |options|
    ensures forall i :: 0 <= i < |r| ==> r[i] == if i == optionIndex then value else options[i]
  {
    seq(|options|, i requires 0 <= i < |options| => if i == optionIndex then value else options[i])
  }

  /** `updateOption`: replaces one option of every question with that id; an
      index outside the options changes nothing. */
  function UpdateOption(questions: seq<Question>, id: string, optionIndex: int, value: string): (r: seq<Question>)
    ensures |r| == |questions|
    ensures forall i :: 0 <= i < |r| && questions[i].id != id ==> r[i] == questions[i]
    ensures forall i :: 0 <= i < |r| && questions[i].id == id ==>
      r[i] == questions[i].(options := ReplaceOption(questions[i].options, optionIndex, value))
  {
    MapWhere(questions, (q: Question) => q.id == id,
      (q: Question) => q.(options := ReplaceOption(q.options, optionIndex, value)))
  }

  /** An option edit outside the range of options leaves the list as it was. */
  lemma UpdateOptionOutOfRange(questions: seq<Question>, id: string, optionIndex: int, value: string)
    requires forall i :: 0 <= i < |questions| ==> optionIndex < 0 || optionIndex >= |questions[i].options|
    ensures UpdateOption(questions, id, optionIndex, value) == questions
  {
    var r := UpdateOption(questions, id, optionIndex, value);
    forall i | 0 <= i < |questions| ensures r[i] == questions[i] {
      if questions[i].id == id {
        assert ReplaceOption(questions[i].options, optionIndex, value) == questions[i].options;
      }
    }
  }

  // ---------------------------------------------------------------------
  // The time-limit input

  /** The longest prefix of `s` made of decimal digits. */
  function DigitPrefix(s: string): (r: string)
    ensures r <= s && AllDigits(r)
    ensures |r| < |s| ==> !IsDigit(s[|r|])
  {
    if s == [] || !IsDigit(s[0]) then [] else [s[0]] + DigitPrefix(s[1..])
  }

  /** JavaScript's `parseInt(s)` for decimal input: leading white space, an
      optional sign, then as many digits as there are; `None` is `NaN`. */
  function ParseInt(s: string): Option<int> {
    var t := TrimStart(s);
    var negative := t != [] && t[0] == '-';
    var body := if t != [] && (t[0] == '-' || t[0] == '+') then t[1..] else t;
    var digits := DigitPrefix(body);
    if digits == [] then None
    else if negative then Some(-(ParseDigits(digits) as int))
    else Some(ParseDigits(digits))
  }

  /** `parseInt(value) || 30`: `NaN` and 0 fall back to 30. */
  function TimeLimitInput(s: string): (r: int)
    ensures r != 0
    ensures ParseInt(s).None? ==> r == 30
  {
    match ParseInt(s)
    case None => 30
    case Some(v) => if v == 0 then 30 else v
  }

  lemma {:induction false} DigitPrefixOfDigits(s: string)
    requires AllDigits(s)
    ensures DigitPrefix(s) == s
  {
    if s != [] {
      DigitPrefixOfDigits(s[1..]);
    }
  }

  /** A non-empty string of digits reads as its decimal value. */
  lemma ParseIntOfDigits(s: string)
    requires s != [] && AllDigits(s)
    ensures ParseInt(s) == Some(ParseDigits(s) as int)
  {
    assert IsDigit(s[0]);
    assert TrimStart(s) == s;
    DigitPrefixOfDigits(s);
  }

  /** The input shows a positive limit as its decimal rendering; reading that
      text back gives the limit, and an empty field gives 30. */
  lemma TimeLimitInputRoundTrip(seconds: nat)
    requires seconds > 0
    ensures TimeLimitInput(NatToString(seconds)) == seconds
    ensures TimeLimitInput("") == 30
  {
    var s := NatToString(seconds);
    ParseIntOfDigits(s);
    ParseNatToString(seconds);
    assert ParseInt(s) == Some(seconds);
  }

  // ---------------------------------------------------------------------
  // Validation

  /** A rule the form can fail; per-question rules carry the 0-based index. */
  datatype ValidationError =
    | TitleRequired
    | QuestionsRequired
    | QuestionTextRequired(index: nat)
    | OptionsRequired(index: nat)
    | TimeLimitOutOfRange(index: nat)

  const QuestionTextPrefix := "Question "
  const QuestionTextSuffix := " is required"
  const OptionsPrefix := "All options for question "
  const OptionsSuffix := " are required"
  const TimeLimitPrefix := "Time limit for question "
  const TimeLimitSuffix := " must be between 5-300 seconds"

  /** The message the page shows; questions are numbered from 1. */
  function Message(e: ValidationError): string {
    match e
    case TitleRequired => "Quiz title is required"
    case QuestionsRequired => "At least one question is required"
    case QuestionTextRequired(i) => QuestionTextPrefix + NatToString(i + 1) + QuestionTextSuffix
    case OptionsRequired(i) => OptionsPrefix + NatToString(i + 1) + OptionsSuffix
    case TimeLimitOutOfRange(i) => TimeLimitPrefix + NatToString(i + 1) + TimeLimitSuffix
  }

  /** The first three characters of each kind of message. */
  function Tag(e: ValidationError): string {
    match e
    case TitleRequired => "Qui"
    case QuestionsRequired => "At "
    case QuestionTextRequired(_) => "Que"
    case OptionsRequired(_) => "All"
    case TimeLimitOutOfRange(_) => "Tim"
  }

  lemma MessageStartsWithTag(e: ValidationError)
    ensures |Message(e)| >= 3 && Message(e)[..3] == Tag(e)
  {
  }

  /** The text between a fixed prefix and a fixed suffix is determined by the
      whole string. */
  lemma StripAffixes(prefix: string, x: string, y: string, suffix: string)
    requires prefix + x + suffix == prefix + y + suffix
    ensures x == y
  {
    var m := prefix + x + suffix;
    assert |x| == |y|;
    assert m[|prefix|..|prefix| + |x|] == x;
    assert (prefix + y + suffix)[|prefix|..|prefix| + |y|] == y;
  }

  /** Equal messages come from the same rule. */
  lemma SameTag(a: ValidationError, b: ValidationError)
    requires Message(a) == Message(b)
    ensures Tag(a) == Tag(b)
  {
    MessageStartsWithTag(a);
    MessageStartsWithTag(b);
  }

  /** Equal messages of one per-question rule name the same question. */
  lemma IndexedMessageInjective(prefix: string, suffix: string, i: nat, j: nat)
    requires prefix + NatToString(i + 1) + suffix == prefix + NatToString(j + 1) + suffix
    ensures i == j
  {
    StripAffixes(prefix, NatToString(i + 1), NatToString(j + 1), suffix);
    NatToStringInjective(i + 1, j + 1);
  }

  /** Distinct errors give distinct messages, so the message names the rule
      and the question. */
  lemma {:induction false} MessageInjective(a: ValidationError, b: ValidationError)
    requires Message(a) == Message(b)
    ensures a == b
  {
    SameTag(a, b);
    match a {
      case QuestionTextRequired(i) =>
        IndexedMessageInjective(QuestionTextPrefix, QuestionTextSuffix, i, b.index);
      case OptionsRequired(i) =>
        IndexedMessageInjective(OptionsPrefix, OptionsSuffix, i, b.index);
      case TimeLimitOutOfRange(i) =>
        IndexedMessageInjective(TimeLimitPrefix, TimeLimitSuffix, i, b.index);
      case TitleRequired =>
      case QuestionsRequired =>
    }
  }

  /** Every option has something besides white space. */
  predicate OptionsFilled(options: seq<string>) {
    forall j :: 0 <= j < |options| ==> !IsBlank(options[j])
  }

  /** The three per-question rules. */
  predicate QuestionComplete(q: Question) {
    !IsBlank(q.text) && OptionsFilled(q.options) && 5 <= q.timeLimit <= 300
  }

  /** The form passes validation. */
  predicate FormComplete(title: string, questions: seq<Question>) {
    !IsBlank(title) && |questions| > 0 && forall i :: 0 <= i < |questions| ==> QuestionComplete(questions[i])
  }

  /** The first rule question `i` fails: text, then options, then time limit. */
  function QuestionError(q: Question, i: nat): (r: Option<ValidationError>)
    ensures r.None? <==> QuestionComplete(q)
  {
    if IsBlank(q.text) then Some(QuestionTextRequired(i))
    else if !OptionsFilled(q.options) then Some(OptionsRequired(i))
    else if q.timeLimit < 5 || q.timeLimit > 300 then Some(TimeLimitOutOfRange(i))
    else None
  }

  /** The position of the first incomplete question from `from` on, or the
      length of the list when there is none. */
  function FirstIncomplete(questions: seq<Question>, from: nat): (k: nat)
    requires from <= |questions|
    ensures from <= k <= |questions|
    ensures forall i :: from <= i < k ==> QuestionComplete(questions[i])
    ensures k < |questions| ==> !QuestionComplete(questions[k])
    decreases |questions| - from
  {
    if from == |questions| || !QuestionComplete(questions[from]) then from
    else FirstIncomplete(questions, from + 1)
  }

  /** The rule the page reports: title, question count, then each question
      in order. */
  function Validate(title: string, questions: seq<Question>): Option<ValidationError> {
    if IsBlank(title) then Some(TitleRequired)
    else if |questions| == 0 then Some(QuestionsRequired)
    else
      var k := FirstIncomplete(questions, 0);
      if k == |questions| then None else QuestionError(questions[k], k)
  }

  /** Validation succeeds exactly when the form is complete. */
  lemma ValidateIffComplete(title: string, questions: seq<Question>)
    ensures Validate(title, questions).None? <==> FormComplete(title, questions)
  {
  }

  /** The error reported is the first rule broken in the order the page
      checks them, and it names the question it is about. */
  lemma ValidateReportsFirstFailure(title: string, questions: seq<Question>)
    ensures Validate(title, questions) == Some(TitleRequired) <==> IsBlank(title)
    ensures Validate(title, questions) == Some(QuestionsRequired) <==> !IsBlank(title) && |questions| == 0
    ensures Validate(title, questions).Some? && !IsBlank(title) && |questions| > 0 ==>
      var e := Validate(title, questions).value;
      && e.index < |questions|
      && (forall i :: 0 <= i < e.index ==> QuestionComplete(questions[i]))
      && (e.QuestionTextRequired? <==> IsBlank(questions[e.index].text))
      && (e.OptionsRequired? <==> !IsBlank(questions[e.index].text) && !OptionsFilled(questions[e.index].options))
      && (e.TimeLimitOutOfRange? ==> !(5 <= questions[e.index].timeLimit <= 300))
  {
    if !IsBlank(title) && |questions| > 0 {
      var k := FirstIncomplete(questions, 0);
      if k < |questions| {
        var e := QuestionError(questions[k], k);
        assert Validate(title, questions) == e;
        assert e.Some? && e.value.index == k;
      }
    }
  }

  /** A blank question just added makes the form fail: on the first rule
      broken before it, or on its own missing text. */
  lemma AddedQuestionBlocksSubmit(title: string, questions: seq<Question>, freshId: string)
    requires !IsBlank(title)
    ensures Validate(title, AddQuestion(questions, freshId)).Some?
    ensures FormComplete(title, questions) ==>
      Validate(title, AddQuestion(questions, freshId)) == Some(QuestionTextRequired(|questions|))
  {
    var qs := AddQuestion(questions, freshId);
    assert IsBlank(qs[|questions|].text);
    if FormComplete(title, questions) {
      assert FirstIncomplete(qs, 0) == |questions|;
    }
  }

  /** Question `k` is the first incomplete one when all before it are
      complete and it is not (or it is the end of the list). */
  lemma FirstIncompleteIs(questions: seq<Question>, k: nat)
    requires k <= |questions|
    requires forall j :: 0 <= j < k ==> QuestionComplete(questions[j])
    requires k < |questions| ==> !QuestionComplete(questions[k])
    ensures FirstIncomplete(questions, 0) == k
  {
  }

  /** The validation loop of `handleSubmit`: stops at the first rule broken. */
  method ValidateQuiz(title: string, questions: seq<Question>) returns (err: Option<ValidationError>)
    ensures err == Validate(title, questions)
  {
    if IsBlank(title) {
      return Some(TitleRequired);
    }
    if |questions| == 0 {
      return Some(QuestionsRequired);
    }
    for i := 0 to |questions|
      invariant forall j :: 0 <= j < i ==> QuestionComplete(questions[j])
    {
      var q := questions[i];
      if IsBlank(q.text) {
        FirstIncompleteIs(questions, i);
        return Some(QuestionTextRequired(i));
      }
      if !OptionsFilled(q.options) {
        FirstIncompleteIs(questions, i);
        return Some(OptionsRequired(i));
      }
      if q.timeLimit < 5 || q.timeLimit > 300 {
        FirstIncompleteIs(questions, i);
        return Some(TimeLimitOutOfRange(i));
      }
    }
    FirstIncompleteIs(questions, |questions|);
    return None;
  }

  // ---------------------------------------------------------------------
  // Persistence

  function TrimAll(options: seq<string>): (r: seq<string>)
    ensures |r| == |options| && forall j :: 0 <= j < |r| ==> r[j] == Trim(options[j])
  {
    seq(|options|, j requires 0 <= j < |options| => Trim(options[j]))
  }

  /** The row inserted for the question at 1-based position `orderIndex`. */
  function QuestionRow(quizId: string, q: Question, orderIndex: int): QuestionRecord {
    QuestionRecord(quizId, Trim(q.text), TrimAll(q.options), q.correctAnswer, q.timeLimit, orderIndex)
  }

  /** The rows inserted for a list of questions, in list order. */
  function QuestionRows(quizId: string, questions: seq<Question>): (r: seq<QuestionRecord>)
    ensures |r| == |questions|
  {
    seq(|questions|, i requires 0 <= i < |questions| => QuestionRow(quizId, questions[i], i + 1))
  }

  /** The rows are numbered 1..n in list order, so ordering them by
      `order_index` gives back the editor's order, and each row keeps its
      question's trimmed text and options, answer and time limit. */
  lemma QuestionRowsOrdered(quizId: string, questions: seq<Question>)
    ensures forall i :: 0 <= i < |questions| ==> QuestionRows(quizId, questions)[i].orderIndex == i + 1
    ensures forall i, j :: 0 <= i < j < |questions| ==>
      QuestionRows(quizId, questions)[i].orderIndex < QuestionRows(quizId, questions)[j].orderIndex
    ensures forall i :: 0 <= i < |questions| ==>
      var row := QuestionRows(quizId, questions)[i];
      && row.quizId == quizId && row.question == Trim(questions[i].text)
      && row.options == TrimAll(questions[i].options)
      && row.correctAnswer == questions[i].correctAnswer && row.timeLimit == questions[i].timeLimit
  {
  }

  /** A complete question gives a row with non-empty text and options and a
      time limit in 5..300. */
  lemma CompleteQuestionRow(quizId: string, q: Question, orderIndex: int)
    requires QuestionComplete(q)
    ensures QuestionRow(quizId, q, orderIndex).question != ""
    ensures forall j :: 0 <= j < |QuestionRow(quizId, q, orderIndex).options| ==>
      QuestionRow(quizId, q, orderIndex).options[j] != ""
    ensures 5 <= QuestionRow(quizId, q, orderIndex).timeLimit <= 300
  {
    var opts := TrimAll(q.options);
    BlankIffTrimEmpty(q.text);
    forall j | 0 <= j < |opts| ensures opts[j] != "" {
      assert !IsBlank(q.options[j]);
      BlankIffTrimEmpty(q.options[j]);
    }
  }

  /** What validation buys the store: every stored question row has a
      non-empty text, non-empty options and a time limit in 5..300. */
  lemma ValidFormGivesCompleteRows(title: string, quizId: string, questions: seq<Question>)
    requires FormComplete(title, questions)
    ensures forall i :: 0 <= i < |questions| ==>
      var row := QuestionRows(quizId, questions)[i];
      && row.question != ""
      && (forall j :: 0 <= j < |row.options| ==> row.options[j] != "")
      && 5 <= row.timeLimit <= 300
  {
    var rows := QuestionRows(quizId, questions);
    forall i | 0 <= i < |questions|
      ensures rows[i].question != ""
      ensures forall j :: 0 <= j < |rows[i].options| ==> rows[i].options[j] != ""
      ensures 5 <= rows[i].timeLimit <= 300
    {
      CompleteQuestionRow(quizId, questions[i], i + 1);
    }
  }

  lemma QuestionRowsSnoc(quizId: string, questions: seq<Question>, i: nat)
    requires i < |questions|
    ensures QuestionRows(quizId, questions[..i + 1])
      == QuestionRows(quizId, questions[..i]) + [QuestionRow(quizId, questions[i], i + 1)]
  {
  }

  /** The quiz row `handleSubmit` inserts. */
  function QuizRow(quizId: string, title: string, description: string, teacherId: Option<string>,
                   questions: seq<Question>): QuizRecord
  {
    QuizRecord(quizId, Trim(title), Trim(description), teacherId, "draft", |questions|, false, true, false)
  }

  /** The insert loop of `handleSubmit`: one question row per question, in
      list order, numbered from 1, and no other table touched. */
  method InsertQuestionRows(store: Store, quizId: string, questions: seq<Question>)
    modifies store
    ensures store.questions == old(store.questions) + QuestionRows(quizId, questions)
    ensures store.quizzes == old(store.quizzes) && store.profiles == old(store.profiles)
    ensures store.sessions == old(store.sessions) && store.codeLookups == old(store.codeLookups)
  {
    for i := 0 to |questions|
      invariant store.questions == old(store.questions) + QuestionRows(quizId, questions[..i])
      invariant store.quizzes == old(store.quizzes) && store.profiles == old(store.profiles)
      invariant store.sessions == old(store.sessions) && store.codeLookups == old(store.codeLookups)
    {
      store.InsertQuestion(QuestionRow(quizId, questions[i], i + 1));
      QuestionRowsSnoc(quizId, questions, i);
    }
    assert questions[..|questions|] == questions;
  }

  /** The message of the `TypeError` raised by calling `db.createQuiz`,
      which the database helper does not declare. */
  const CreateQuizMissing := "db.createQuiz is not a function"

  /** The message `handleSubmit` as written ends with: the first broken rule,
      or, on a form that passes validation, the failed `db.createQuiz`
      call. Every submit ends with a message. */
  function SubmitErrorAsWritten(title: string, questions: seq<Question>): (r: string)
    ensures r != ""
    ensures Validate(title, questions).Some? ==> r == Message(Validate(title, questions).value)
    ensures Validate(title, questions).None? ==> r == CreateQuizMissing
  {
    match Validate(title, questions)
    case Some(e) => MessageStartsWithTag(e); Message(e)
    case None => CreateQuizMissing
  }

  /** A form the page accepts: a title and one filled-in question. */
  lemma SampleFormIsComplete()
    ensures FormComplete("Quiz", [Question("1", "Q", ["a", "b", "c", "d"], 0, 30)])
  {
    var q := Question("1", "Q", ["a", "b", "c", "d"], 0, 30);
    assert !IsBlank("Quiz") by { assert !IsSpace("Quiz"[0]); }
    assert !IsBlank(q.text) by { assert !IsSpace(q.text[0]); }
    forall j | 0 <= j < |q.options| ensures !IsBlank(q.options[j]) {
      assert !IsSpace(q.options[j][0]);
    }
    assert QuestionComplete(q);
    assert [q][0] == q;
  }

  /** As written, a form that passes every check still fails to submit: the
      sample form yields the `db.createQuiz` error, where the intended
      `HandleSubmit` stores it. */
  lemma CompleteFormFailsAsWritten(title: string, questions: seq<Question>)
    requires FormComplete(title, questions)
    ensures SubmitErrorAsWritten(title, questions) == CreateQuizMissing
    ensures SubmitErrorAsWritten("Quiz", [Question("1", "Q", ["a", "b", "c", "d"], 0, 30)]) == CreateQuizMissing
  {
    ValidateIffComplete(title, questions);
    SampleFormIsComplete();
    ValidateIffComplete("Quiz", [Question("1", "Q", ["a", "b", "c", "d"], 0, 30)]);
  }

  /** The authoring page's state, and the store it writes to. */
  class CreateQuizPage {
    var title: string
    var description: string
    var questions: seq<Question>
    var isSubmitting: bool
    var error: string
    /** Where the page navigated, if it did. */
    var redirect: Option<string>
    const store: Store

    constructor (store: Store)
      ensures this.store == store
      ensures title == "" && description == "" && questions == InitialQuestions
      ensures !isSubmitting && error == "" && redirect == None
    {
      this.store := store;
      title, description, questions := "", "", InitialQuestions;
      isSubmitting, error, redirect := false, "", None;
    }

    /** `handleSubmit`. On a validation failure the message of the first
        broken rule is shown and nothing is stored; otherwise one quiz row
        (under `freshQuizId`) and one row per question are stored, in list
        order, and the page moves to the quiz list. Either way the page is
        no longer submitting afterwards. */
    method HandleSubmit(freshQuizId: string, teacherId: Option<string>)
      modifies this, store
      ensures !isSubmitting
      ensures title == old(title) && description == old(description) && questions == old(questions)
      ensures Validate(title, questions).Some? ==>
        && error == Message(Validate(title, questions).value)
        && redirect == old(redirect)
        && store.quizzes == old(store.quizzes) && store.questions == old(store.questions)
      ensures Validate(title, questions).None? ==>
        && error == ""
        && redirect == Some("/teacher/quizzes")
        && store.quizzes == old(store.quizzes) + [QuizRow(freshQuizId, title, description, teacherId, questions)]
        && store.questions == old(store.questions) + QuestionRows(freshQuizId, questions)
      ensures store.profiles == old(store.profiles) && store.sessions == old(store.sessions)
      ensures store.codeLookups == old(store.codeLookups)
    {
      isSubmitting := true;
      error := "";
      var err := ValidateQuiz(title, questions);
      if err.Some? {
        error := Message(err.value);
        isSubmitting := false;
        return;
      }
      var row := QuizRow(freshQuizId, title, description, teacherId, questions);
      store.InsertQuiz(row);
      InsertQuestionRows(store, freshQuizId, questions);
      redirect := Some("/teacher/quizzes");
      isSubmitting := false;
    }

    /** `handleSubmit` as written: the checks run as in `HandleSubmit`, but
        a form that passes them reaches `db.createQuiz`, which throws, so
        every submit ends with a message, nothing is stored and the page
        stays where it is. */
    method HandleSubmitAsWritten()
      modifies this
      ensures !isSubmitting
      ensures title == old(title) && description == old(description) && questions == old(questions)
      ensures error == SubmitErrorAsWritten(title, questions)
      ensures redirect == old(redirect)
    {
      isSubmitting := true;
      error := "";
      var err := ValidateQuiz(title, questions);
      if err.Some? {
        error := Message(err.value);
      } else {
        error := CreateQuizMissing;
      }
      isSubmitting := false;
    }
  }
}
