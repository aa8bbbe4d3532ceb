/** The student join page of `src/app/student/join/page.tsx`: the code field
    that looks a quiz up as it is typed, the ordered checks before joining,
    the profile created on first join, and the rule that a student resumes
    an active session instead of opening a second one, which holds only when
    new sessions start active. */
module JoinPage {
  import opened Wrappers
  import opened Text
  import opened Schema
  import opened Store

  const QuizNotFound := "Quiz not found or not active"
  const InvalidCode := "Please enter a valid quiz code"
  const NicknameRequired := "Please enter a nickname"
  const ProfileFailed := "Failed to create or retrieve profile"

  /** Codes shorter than this are not looked up. */
  const CodeLength := 6

  /** The two checks `handleJoin` makes before touching the store, in order:
      a quiz must have been found, then the nickname must not be blank. */
  function JoinPrecheck(details: Option<QuizRecord>, nickname: string): (r: Option<string>)
    ensures r.None? <==> details.Some? && !IsBlank(nickname)
    ensures details.None? ==> r == Some(InvalidCode)
    ensures details.Some? && IsBlank(nickname) ==> r == Some(NicknameRequired)
  {
    if details.None? then Some(InvalidCode)
    else if IsBlank(nickname) then Some(NicknameRequired)
    else None
  }

  /** The join button is enabled: `!(!quizDetails || !nickname.trim() || isJoining)`. */
  predicate SubmitEnabled(details: Option<QuizRecord>, nickname: string, isJoining: bool) {
    details.Some? && !IsBlank(nickname) && !isJoining
  }

  /** The button is enabled exactly when no join is under way and the checks
      of `handleJoin` would pass, so an enabled button never yields one of
      their messages. */
  lemma SubmitEnabledIffPrecheckPasses(details: Option<QuizRecord>, nickname: string, isJoining: bool)
    ensures SubmitEnabled(details, nickname, isJoining) <==> !isJoining && JoinPrecheck(details, nickname).None?
  {
  }

  /** The profile created for a first-time student: role 'student', approved,
      the trimmed nickname as full name, no avatar, and `user?.email || ''`. */
  function StudentProfile(userId: string, email: Option<string>, nickname: string): (p: Profile)
    ensures p.id == userId && p.role == "student" && p.isApproved && p.avatarUrl.None?
    ensures p.fullName == Some(Trim(nickname))
    ensures p.email == if email.Some? then email.value else ""
  {
    Profile(userId, if email.Some? then email.value else "", Some(Trim(nickname)), "student", None, true)
  }

  /** The page a session is played on. */
  function SessionPath(sessionId: string): string {
    "/student/quiz/" + sessionId
  }

  /** The sessions after a join and the id of the session the student is sent
      to: the first active session of this student in this quiz if there is
      one, otherwise a new session under `freshId`. The page asks for an
      active session, but `createQuizSession` does not write `is_active`, so
      the new row is active exactly when `activeByDefault`, the column
      default, says so. */
  function JoinSession(sessions: seq<SessionRecord>, quizId: string, studentId: string, freshId: string,
                       activeByDefault: bool): (r: (seq<SessionRecord>, string))
    ensures var existing := ActiveSessionsOf(sessions, quizId, studentId);
      if existing == []
      then r.0 == sessions + [SessionRecord(freshId, quizId, studentId, activeByDefault)] && r.1 == freshId
      else r.0 == sessions && r.1 == existing[0].id
  {
    var existing := ActiveSessionsOf(sessions, quizId, studentId);
    if existing == [] then (sessions + [SessionRecord(freshId, quizId, studentId, activeByDefault)], freshId)
    else (sessions, existing[0].id)
  }

  /** Whatever the column default, a join keeps every existing session,
      adds at most one, and sends the student to a session of theirs in
      this quiz. */
  lemma JoinAddsAtMostOne(sessions: seq<SessionRecord>, quizId: string, studentId: string, freshId: string,
                          activeByDefault: bool)
    ensures var r := JoinSession(sessions, quizId, studentId, freshId, activeByDefault);
      && sessions <= r.0 && |r.0| <= |sessions| + 1
      && exists i :: 0 <= i < |r.0| && r.0[i].id == r.1 && r.0[i].quizId == quizId && r.0[i].studentId == studentId
  {
    var r := JoinSession(sessions, quizId, studentId, freshId, activeByDefault);
    var existing := ActiveSessionsOf(sessions, quizId, studentId);
    if existing == [] {
      assert r.0[|sessions|].id == r.1;
    } else {
      var i :| 0 <= i < |sessions| && sessions[i] == existing[0];
      assert r.0[i].id == r.1;
    }
  }

  /** When new sessions start active, a join leaves the student at least one
      active session in the quiz, at most one more than before, and sends
      them to the first of them. */
  lemma JoinLeavesOneTarget(sessions: seq<SessionRecord>, quizId: string, studentId: string, freshId: string,
                            activeByDefault: bool)
    requires activeByDefault
    ensures var r := JoinSession(sessions, quizId, studentId, freshId, activeByDefault);
      var after := ActiveSessionsOf(r.0, quizId, studentId);
      && after != []
      && after[0].id == r.1
      && |after| == (if ActiveSessionsOf(sessions, quizId, studentId) == [] then 1
                     else |ActiveSessionsOf(sessions, quizId, studentId)|)
  {
    var created := SessionRecord(freshId, quizId, studentId, activeByDefault);
    ActiveSessionsAppend(sessions, created, quizId, studentId);
  }

  /** When new sessions start active, joining again resumes: a second join,
      whatever fresh id it is offered, creates nothing and sends the student
      to the same session. */
  lemma RejoinResumes(sessions: seq<SessionRecord>, quizId: string, studentId: string, id1: string, id2: string,
                      activeByDefault: bool)
    requires activeByDefault
    ensures var r := JoinSession(sessions, quizId, studentId, id1, activeByDefault);
      JoinSession(r.0, quizId, studentId, id2, activeByDefault) == r
  {
    JoinLeavesOneTarget(sessions, quizId, studentId, id1, activeByDefault);
  }

  /** When new sessions do not start active, the session a join creates is
      invisible to the next join's `is_active = 1` lookup: a student with no
      active session who joins twice gets two sessions and is sent to the
      second. */
  lemma RejoinDuplicatesWhenInactiveByDefault(sessions: seq<SessionRecord>, quizId: string, studentId: string,
                                              id1: string, id2: string)
    requires ActiveSessionsOf(sessions, quizId, studentId) == []
    ensures var r1 := JoinSession(sessions, quizId, studentId, id1, false);
      var r2 := JoinSession(r1.0, quizId, studentId, id2, false);
      && r2.0 == sessions + [SessionRecord(id1, quizId, studentId, false), SessionRecord(id2, quizId, studentId, false)]
      && r2.1 == id2
  {
    ActiveSessionsAppend(sessions, SessionRecord(id1, quizId, studentId, false), quizId, studentId);
  }

  /** The join page's state, and the store it reads and writes. */
  class JoinPage {
    /** The code as shown, upper-cased. */
    var quizCode: string
    var nickname: string
    var isJoining: bool
    var error: string
    var quizDetails: Option<QuizRecord>
    /** Where the page navigated, if it did. */
    var redirect: Option<string>
    const store: Store

    constructor (store: Store)
      ensures this.store == store
      ensures quizCode == "" && nickname == "" && !isJoining && error == ""
      ensures quizDetails == None && redirect == None
    {
      this.store := store;
      quizCode, nickname, isJoining, error := "", "", false, "";
      quizDetails, redirect := None, None;
    }

    /** `handleCodeChange`. The field shows the code upper-cased; a code of
        six or more characters is looked up as typed (active quizzes with
        that id), and a miss shows the not-found message only at exactly six
        characters; a shorter code clears the quiz and the message. */
    method HandleCodeChange(code: string)
      modifies this, store
      ensures quizCode == ToUpper(code)
      ensures nickname == old(nickname) && isJoining == old(isJoining) && redirect == old(redirect)
      ensures |code| < CodeLength ==>
        quizDetails == None && error == "" && store.codeLookups == old(store.codeLookups)
      ensures |code| >= CodeLength ==> store.codeLookups == old(store.codeLookups) + [code]
      ensures |code| >= CodeLength && ActiveQuizzesWithId(store.quizzes, code) != [] ==>
        quizDetails == Some(ActiveQuizzesWithId(store.quizzes, code)[0]) && error == ""
      ensures |code| >= CodeLength && ActiveQuizzesWithId(store.quizzes, code) == [] ==>
        quizDetails == None && error == (if |code| == CodeLength then QuizNotFound else old(error))
      ensures quizDetails.Some? ==>
        quizDetails.value in store.quizzes && quizDetails.value.id == code && quizDetails.value.isActive
      ensures store.profiles == old(store.profiles) && store.quizzes == old(store.quizzes)
      ensures store.questions == old(store.questions) && store.sessions == old(store.sessions)
    {
      quizCode := ToUpper(code);
      if |code| >= CodeLength {
        var rows := store.LookupQuiz(code);
        if |rows| > 0 {
          quizDetails := Some(rows[0]);
          error := "";
        } else {
          quizDetails := None;
          if |code| == CodeLength {
            error := QuizNotFound;
          }
        }
      } else {
        quizDetails := None;
        error := "";
      }
    }

    /** `handleJoin`. A failed check shows its message and changes nothing.
        Otherwise the student's profile is read, and created first when it
        is missing; a missing user id leaves no profile to read, which ends
        the join with `ProfileFailed`. With a profile the student is sent to
        their first active session in the quiz, and a new session (active
        only if the store's default makes it so) is created only when there
        is none. The page is no longer joining afterwards. */
    method HandleJoin(userId: Option<string>, email: Option<string>, freshSessionId: string)
      modifies this, store
      ensures !isJoining
      ensures quizCode == old(quizCode) && nickname == old(nickname) && quizDetails == old(quizDetails)
      ensures store.quizzes == old(store.quizzes) && store.questions == old(store.questions)
      ensures store.codeLookups == old(store.codeLookups)
      ensures JoinPrecheck(quizDetails, nickname).Some? ==>
        && error == JoinPrecheck(quizDetails, nickname).value
        && redirect == old(redirect)
        && store.profiles == old(store.profiles) && store.sessions == old(store.sessions)
      ensures JoinPrecheck(quizDetails, nickname).None? ==>
        store.profiles == if old(store.ProfileOf(userId)).None? && userId.Some?
          then old(store.profiles)[userId.value := StudentProfile(userId.value, email, nickname)]
          else old(store.profiles)
      ensures JoinPrecheck(quizDetails, nickname).None? && userId.None? ==>
        error == ProfileFailed && redirect == old(redirect) && store.sessions == old(store.sessions)
      ensures JoinPrecheck(quizDetails, nickname).None? && userId.Some? ==>
        var joined := JoinSession(old(store.sessions), quizDetails.value.id, store.profiles[userId.value].id,
                                  freshSessionId, store.sessionsActiveByDefault);
        && error == ""
        && store.sessions == joined.0
        && redirect == Some(SessionPath(joined.1))
    {
      isJoining := true;
      error := "";
      var check := JoinPrecheck(quizDetails, nickname);
      if check.Some? {
        error := check.value;
        isJoining := false;
        return;
      }
      var profile := store.ProfileOf(userId);
      if profile.None? {
        var id := if userId.Some? then userId.value else "";
        store.InsertProfile(userId, StudentProfile(id, email, nickname));
        profile := store.ProfileOf(userId);
      }
      if profile.None? {
        error := ProfileFailed;
        isJoining := false;
        return;
      }
      var quizId := quizDetails.value.id;
      var existing := ActiveSessionsOf(store.sessions, quizId, profile.value.id);
      if |existing| > 0 {
        redirect := Some(SessionPath(existing[0].id));
        isJoining := false;
        return;
      }
      store.InsertSession(freshSessionId, quizId, profile.value.id);
      redirect := Some(SessionPath(freshSessionId));
      isJoining := false;
    }
  }
}
