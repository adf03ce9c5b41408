/** The persisted records and their derived ratios. Timestamps are whole seconds. */
module Models {
  import opened Common

  datatype User = User(
    userId: int,
    username: Option<string>,
    firstName: string,
    joinDate: int,
    totalQuestions: int,
    correctAnswers: int)

  /** A user built with the record's default counters. */
  function NewUser(userId: int, username: Option<string>, firstName: string, joinDate: int): (u: User)
    ensures u.userId == userId && u.username == username && u.firstName == firstName && u.joinDate == joinDate
    ensures u.totalQuestions == 0 && u.correctAnswers == 0
  {
    User(userId, username, firstName, joinDate, 0, 0)
  }

  /** Share of correct answers in percent; 0 for a user with no answers. */
  function Accuracy(u: User): (r: real)
    ensures u.totalQuestions == 0 ==> r == 0.0
    ensures u.totalQuestions != 0 ==> r * (u.totalQuestions as real) == (u.correctAnswers as real) * 100.0
    ensures 0 <= u.correctAnswers <= u.totalQuestions ==> 0.0 <= r <= 100.0
  {
    if u.totalQuestions == 0 then 0.0
    else (u.correctAnswers as real) / (u.totalQuestions as real) * 100.0
  }

  datatype QuizSession = QuizSession(
    sessionId: Option<int>,
    userId: int,
    subject: string,
    chapter: string,
    startTime: int,
    endTime: Option<int>,
    score: int,
    totalQuestions: int)

  /** Score in percent of the question count; 0 for an empty session. */
  function Percentage(s: QuizSession): (r: real)
    ensures s.totalQuestions == 0 ==> r == 0.0
    ensures s.totalQuestions != 0 ==> r * (s.totalQuestions as real) == (s.score as real) * 100.0
    ensures 0 <= s.score <= s.totalQuestions ==> 0.0 <= r <= 100.0
  {
    if s.totalQuestions == 0 then 0.0
    else (s.score as real) / (s.totalQuestions as real) * 100.0
  }

  /** `int(seconds / 60)`: division truncated toward zero. */
  function TruncatedMinutes(seconds: int): (m: int)
    ensures seconds >= 0 ==> 0 <= m * 60 <= seconds < (m + 1) * 60
    ensures seconds < 0 ==> (m - 1) * 60 < seconds <= m * 60 <= 0
  {
    if seconds >= 0 then seconds / 60 else -((-seconds) / 60)
  }

  /** Whole minutes between start and end; 0 while the session has no end time. */
  function DurationMinutes(s: QuizSession): (m: int)
    ensures s.endTime.None? ==> m == 0
    ensures s.endTime.Some? && s.startTime <= s.endTime.value ==>
      0 <= m * 60 <= s.endTime.value - s.startTime < (m + 1) * 60
  {
    match s.endTime
    case None => 0
    case Some(e) => TruncatedMinutes(e - s.startTime)
  }

  datatype QuestionAttempt = QuestionAttempt(
    attemptId: Option<int>,
    sessionId: int,
    questionText: string,
    userAnswer: int,
    correctAnswer: int,
    isCorrect: bool,
    timestamp: int)
}
