/** The per-user quiz state machine: starting a quiz, answering its questions one by one, and
    finishing it, over the progress store and the question service. */
module Quiz {
  import opened Common
  import opened Strings
  import opened Subjects
  import opened Models
  import opened Repositories
  import opened Questions

  // ---------------------------------------------------------------- XP

  /** The three XP amounts of the configuration. */
  datatype XpConfig = XpConfig(perCorrect: int, perWrong: int, perfectBonus: int)

  /** XP for a finished quiz: so much per correct answer, so much per wrong one, and a bonus
      when every answer was correct. */
  function CalculateXp(score: int, total: int, c: XpConfig): (xp: int)
    ensures score == total ==> xp == total * c.perCorrect + c.perfectBonus
    ensures score != total ==> xp == score * c.perCorrect + (total - score) * c.perWrong
  {
    var fromCorrect := score * c.perCorrect;
    var fromWrong := (total - score) * c.perWrong;
    fromCorrect + fromWrong + (if score == total then c.perfectBonus else 0)
  }

  /** With non-negative amounts, a quiz never costs XP. */
  lemma XpNonNegative(score: int, total: int, c: XpConfig)
    requires 0 <= score <= total
    requires c.perCorrect >= 0 && c.perWrong >= 0 && c.perfectBonus >= 0
    ensures CalculateXp(score, total, c) >= 0
  {
    assert score * c.perCorrect >= 0 && (total - score) * c.perWrong >= 0;
  }

  /** When a correct answer is worth at least a wrong one, one more correct answer never lowers
      the XP of a quiz. */
  lemma XpMonotone(score: int, total: int, c: XpConfig)
    requires 0 <= score < total
    requires c.perCorrect >= c.perWrong && c.perfectBonus >= 0
    ensures CalculateXp(score, total, c) <= CalculateXp(score + 1, total, c)
  {
    assert (score + 1) * c.perCorrect == score * c.perCorrect + c.perCorrect;
    assert (total - score) * c.perWrong == (total - (score + 1)) * c.perWrong + c.perWrong;
  }

  // ---------------------------------------------------------------- chapter titles

  function MetadataOrEmpty(s: QuestionSet): Metadata {
    if s.metadata.Some? then s.metadata.value else map[]
  }

  /** The chapter title of the start message: `title_ar`, else `title`, else the part name in
      upper case. */
  function ChapterTitle(metadata: Metadata, partName: string): (title: string)
    ensures "title_ar" in metadata ==> title == metadata["title_ar"]
    ensures "title_ar" !in metadata && "title" in metadata ==> title == metadata["title"]
    ensures "title_ar" !in metadata && "title" !in metadata ==> title == Upper(partName)
  {
    if "title_ar" in metadata then metadata["title_ar"]
    else if "title" in metadata then metadata["title"]
    else Upper(partName)
  }

  /** The metadata the handler would give an old-style bare list: the upper-cased part name with
      `PT` replaced by the Arabic word for "part". A loaded set is always an object, so the
      handler never takes this branch. */
  function LegacyMetadata(partName: string): (m: Metadata)
    ensures m.Keys == {"title_ar"}
    ensures ChapterTitle(m, partName) == ReplaceAll(Upper(partName), "PT", "الجزء ")
  {
    map["title_ar" := ReplaceAll(Upper(partName), "PT", "الجزء ")]
  }

  /** A bare list fetched from the remote repository is titled by the remote defaults, so the
      start message shows "unknown" whatever the part is called. */
  lemma BareRemoteListTitle(items: seq<Question>, partName: string)
    ensures ChapterTitle(MetadataOrEmpty(FetchResult(Fetched(ListPayload(items))).value), partName) == "غير معروف"
  {
  }

  // ---------------------------------------------------------------- randomness

  /** The random choices of a quiz start, as functions: `sample(n, k)` is the positions
      `random.sample` draws from a population of `n` for a sample of `k`, and
      `shuffleDraws(i, n)` the draws `random.shuffle` makes for the `i`-th selected question
      when it has `n` options. */
  datatype Randomness = Randomness(sample: (nat, nat) -> seq<nat>, shuffleDraws: (nat, nat) -> seq<nat>)

  ghost predicate ValidRandomness(rng: Randomness) {
    && (forall n: nat, k: nat :: |rng.sample(n, k)| == Min(n, k) && DistinctIndices(rng.sample(n, k), n))
    && (forall i: nat, n: nat :: ValidDraws(n, rng.shuffleDraws(i, n)))
  }

  function DrawsList(questions: seq<Question>, rng: Randomness): (draws: seq<seq<nat>>)
    ensures ValidRandomness(rng) ==> DrawsForEach(questions, draws)
  {
    seq(|questions|, i requires 0 <= i < |questions| =>
      if questions[i].options.Some? then rng.shuffleDraws(i, |questions[i].options.value|) else [])
  }

  /** The positions a quiz start draws: all of them in random order, or a sample of the
      configured size (a negative size makes `random.sample` raise `ValueError`). */
  function Picks(n: nat, useAll: bool, perQuiz: int, rng: Randomness): (r: Result<seq<nat>>)
    requires ValidRandomness(rng)
    ensures r.Err? <==> !useAll && perQuiz < 0
    ensures r.Err? ==> r.error == ValueError
    ensures r.Ok? ==> DistinctIndices(r.value, n) && |r.value| == (if useAll then n else Min(n, perQuiz))
  {
    if useAll then Ok(rng.sample(n, n))
    else if perQuiz < 0 then Err(ValueError)
    else Ok(rng.sample(n, perQuiz))
  }

  /** Whether a start can select its questions: the draw succeeds and every drawn question can
      have its options shuffled. */
  ghost predicate Selectable(questions: seq<Question>, useAll: bool, perQuiz: int, rng: Randomness)
    requires ValidRandomness(rng)
  {
    var picks := Picks(|questions|, useAll, perQuiz, rng);
    picks.Ok? && forall i :: 0 <= i < |picks.value| ==> Shufflable(questions[picks.value[i]])
  }

  /** The question selection both starts make: shuffle everything, or sample and then shuffle
      each sampled question's options. Each selected question is the option-shuffled copy of
      the question at the drawn position; a question that cannot be shuffled makes it fail. */
  method SelectQuestions(questions: seq<Question>, useAll: bool, perQuiz: int, rng: Randomness)
    returns (r: Result<seq<Question>>)
    requires ValidRandomness(rng)
    ensures var picks := Picks(|questions|, useAll, perQuiz, rng);
      && (picks.Err? ==> r == Err(ValueError))
      && (picks.Ok? ==> (r.Ok? <==> forall i :: 0 <= i < |picks.value| ==> Shufflable(questions[picks.value[i]])))
      && (picks.Ok? && r.Err? ==> r.error == KeyError || r.error == IndexError)
      && (r.Ok? ==> picks.Ok? && |r.value| == |picks.value|
                    && forall i :: 0 <= i < |r.value| ==> ShuffledCopy(questions[picks.value[i]], r.value[i]))
  {
    var picks := Picks(|questions|, useAll, perQuiz, rng);
    if useAll {
      var sample := Select(questions, picks.value);
      r := ShuffleAllQuestions(questions, picks.value, DrawsList(sample, rng));
    } else {
      var sampled := GetRandomQuestions(questions, perQuiz, if perQuiz < 0 then [] else picks.value);
      if sampled.Err? {
        return Err(sampled.error);
      }
      r := ShuffleEach(sampled.value, DrawsList(sampled.value, rng));
      assert forall i :: 0 <= i < |picks.value| ==> sampled.value[i] == questions[picks.value[i]];
    }
  }

  // ---------------------------------------------------------------- the answer log

  /** The attempts recorded for one session, in the order they were appended. */
  function AttemptsOf(attempts: seq<QuestionAttempt>, sessionId: int): (log: seq<QuestionAttempt>)
    ensures |log| <= |attempts|
    ensures forall a :: a in log ==> a in attempts && a.sessionId == sessionId
  {
    if attempts == [] then []
    else
      var last := |attempts| - 1;
      AttemptsOf(attempts[..last], sessionId) + (if attempts[last].sessionId == sessionId then [attempts[last]] else [])
  }

  lemma AttemptsOfAppend(attempts: seq<QuestionAttempt>, a: QuestionAttempt, sessionId: int)
    ensures AttemptsOf(attempts + [a], sessionId) ==
      AttemptsOf(attempts, sessionId) + (if a.sessionId == sessionId then [a] else [])
  {
    assert (attempts + [a])[..|attempts|] == attempts;
  }

  /** A session id no attempt carries has an empty log. */
  lemma {:induction false} AttemptsOfFresh(attempts: seq<QuestionAttempt>, sessionId: int)
    requires forall k :: 0 <= k < |attempts| ==> attempts[k].sessionId < sessionId
    ensures AttemptsOf(attempts, sessionId) == []
  {
    if attempts != [] {
      AttemptsOfFresh(attempts[..|attempts| - 1], sessionId);
    }
  }

  /** The number of correct attempts in a log. */
  function CountCorrect(log: seq<QuestionAttempt>): (n: nat)
    ensures n <= |log|
  {
    if log == [] then 0
    else CountCorrect(log[..|log| - 1]) + (if log[|log| - 1].isCorrect then 1 else 0)
  }

  /** Every question of the list carries its text. */
  predicate AllText(questions: seq<Question>) {
    forall q :: q in questions ==> q.text.Some?
  }

  /** The log records exactly the questions answered so far, each with its own text and correct
      index and a flag that says whether the answer matched; the score counts the correct ones. */
  predicate Recorded(s: ActiveQuiz, log: seq<QuestionAttempt>)
    requires s.current <= |s.questions|
  {
    && |log| == s.current
    && s.score == CountCorrect(log)
    && forall k :: 0 <= k < |log| ==>
      && s.questions[k].text == Some(log[k].questionText)
      && s.questions[k].correctOptionId == Some(log[k].correctAnswer)
      && log[k].isCorrect == (log[k].userAnswer == log[k].correctAnswer)
  }

  /** Recording the answered question's attempt keeps the log in step with the advanced entry. */
  lemma RecordedStep(s: ActiveQuiz, log: seq<QuestionAttempt>, selected: int, a: QuestionAttempt)
    requires 0 <= s.current < |s.questions| && s.questions[s.current].correctOptionId.Some?
    requires Recorded(s, log)
    requires s.questions[s.current].text == Some(a.questionText)
    requires a.correctAnswer == s.questions[s.current].correctOptionId.value && a.userAnswer == selected
    requires a.isCorrect == (selected == a.correctAnswer)
    ensures Recorded(Advance(s, selected), log + [a])
  {
    var newLog := log + [a];
    assert newLog[..|newLog| - 1] == log;
  }

  /** An attempt of another session leaves an entry's facts as they were. */
  lemma AppendKeepsSession(e: ActiveQuiz, u: int, sessions: map<int, QuizSession>,
                           attempts: seq<QuestionAttempt>, a: QuestionAttempt)
    requires SessionOk(e, u, sessions, attempts) && a.sessionId != e.sessionId
    ensures SessionOk(e, u, sessions, attempts + [a])
  {
    AttemptsOfAppend(attempts, a, e.sessionId);
    assert AttemptsOf(attempts + [a], e.sessionId) == AttemptsOf(attempts, e.sessionId) + [];
    assert AttemptsOf(attempts, e.sessionId) + [] == AttemptsOf(attempts, e.sessionId);
  }

  // ---------------------------------------------------------------- the handler

  /** The fixed load and session of the legacy command. */
  const TEST_SUBJECT: string := "test"
  const TEST_FILE: string := "test_quiz.json"
  const TEST_CHAPTER: string := "general"

  /** One entry of `user_sessions`. `metadata` is `None` for the legacy command, whose entry has
      no such key. */
  datatype ActiveQuiz = ActiveQuiz(
    sessionId: int,
    questions: seq<Question>,
    current: int,
    score: int,
    total: int,
    subject: string,
    chapter: string,
    metadata: Option<Metadata>)

  /** One more answer: the score rises by one exactly when the answer is correct and the
      current index moves to the next question. */
  function Advance(s: ActiveQuiz, selected: int): (t: ActiveQuiz)
    requires 0 <= s.current < |s.questions| && s.questions[s.current].correctOptionId.Some?
    ensures t.current == s.current + 1
    ensures selected == s.questions[s.current].correctOptionId.value ==> t.score == s.score + 1
    ensures selected != s.questions[s.current].correctOptionId.value ==> t.score == s.score
    ensures t.(score := s.score, current := s.current) == s
  {
    var correct := selected == s.questions[s.current].correctOptionId.value;
    s.(score := if correct then s.score + 1 else s.score, current := s.current + 1)
  }

  /** The facts every entry keeps: current index, score and total in range; every question carrying
      options and a correct index (they are all shuffled copies); its session row stored for
      this user with this total; and, when every question has its text, the answer log. */
  ghost predicate SessionOk(s: ActiveQuiz, userId: int, sessions: map<int, QuizSession>, attempts: seq<QuestionAttempt>) {
    && 0 <= s.current <= s.total && s.total == |s.questions| && 0 <= s.score
    && (forall q :: q in s.questions ==> q.options.Some? && q.correctOptionId.Some?)
    && s.sessionId in sessions && sessions[s.sessionId].userId == userId
    && sessions[s.sessionId].totalQuestions == s.total
    && (AllText(s.questions) ==> Recorded(s, AttemptsOf(attempts, s.sessionId)))
  }

  /** What the start message of a part quiz shows. */
  datatype PartStart = PartStart(subjectName: string, subjectEmoji: string, chapterTitle: string, questionCount: nat)

  /** What a finished quiz reports. */
  datatype FinishSummary = FinishSummary(score: int, total: int, xpEarned: int)

  datatype AnswerOutcome =
    | NoSession
    | NextQuestion(wasCorrect: bool, number: nat)
    | QuizFinished(wasCorrect: bool, summary: FinishSummary)

  class QuizHandler {
    const db: Database
    const userRepo: UserRepository
    const quizRepo: QuizRepository
    const service: QuestionService
    const useAllQuestions: bool
    const questionsPerQuiz: int
    const xp: XpConfig
    var userSessions: map<int, ActiveQuiz>

    ghost predicate Valid()
      reads this, db, service
    {
      && userRepo.db == db && quizRepo.db == db
      && db.Valid() && service.Valid()
      && (forall k :: 0 <= k < |db.attempts| ==> db.attempts[k].sessionId <= db.lastSessionId)
      && (forall u :: u in userSessions ==> SessionOk(userSessions[u], u, db.sessions, db.attempts))
      && (forall u, v :: u in userSessions && v in userSessions && u != v ==>
            userSessions[u].sessionId != userSessions[v].sessionId)
    }

    constructor (db: Database, service: QuestionService, useAllQuestions: bool, questionsPerQuiz: int, xp: XpConfig)
      requires db.Valid() && service.Valid()
      requires forall k :: 0 <= k < |db.attempts| ==> db.attempts[k].sessionId <= db.lastSessionId
      ensures Valid()
      ensures this.db == db && this.service == service && userSessions == map[]
      ensures this.useAllQuestions == useAllQuestions && this.questionsPerQuiz == questionsPerQuiz && this.xp == xp
    {
      this.db := db;
      this.userRepo := new UserRepository(db);
      this.quizRepo := new QuizRepository(db);
      this.service := service;
      this.useAllQuestions := useAllQuestions;
      this.questionsPerQuiz := questionsPerQuiz;
      this.xp := xp;
      userSessions := map[];
    }

    /** What loading a part returns at the current cache state. */
    function PartLoad(subject: string, filepath: string, remote: map<string, Fetch>,
                      files: map<string, LocalFile>, now: int): Result<QuestionSet>
      reads service
    {
      if service.useOnline && service.githubUrl != "" then service.GithubResult(filepath, remote, now)
      else LoadQuestionsFromLocal(LocalPath(subject, filepath), files)
    }

    /** The user row after the get-or-create step: an existing row is kept as it is. */
    static function EnsuredUsers(users: map<int, UserRow>, userId: int, username: Option<string>,
                                 firstName: string, now: int): (r: map<int, UserRow>)
      ensures userId in r
      ensures userId in users ==> r == users
      ensures userId !in users ==> r == users[userId := FreshUserRow(username, firstName, now)]
    {
      if userId in users then users else users[userId := FreshUserRow(username, firstName, now)]
    }

    /** Opens the session row and installs a fresh entry for the user, replacing any entry the
        user had: current index and score 0, total the number of selected questions. */
    method InstallSession(userId: int, selected: seq<Question>, subject: string, chapter: string,
                          metadata: Option<Metadata>, now: int)
      returns (sessionId: int)
      requires Valid()
      requires forall q :: q in selected ==> q.options.Some? && q.correctOptionId.Some?
      modifies this`userSessions, db`sessions, db`lastSessionId
      ensures Valid()
      ensures sessionId == old(db.lastSessionId) + 1
      ensures db.lastSessionId == sessionId
      ensures db.sessions == old(db.sessions)[sessionId :=
        QuizSession(Some(sessionId), userId, subject, chapter, now, None, 0, |selected|)]
      ensures userSessions == old(userSessions)[userId :=
        ActiveQuiz(sessionId, selected, 0, 0, |selected|, subject, chapter, metadata)]
    {
      sessionId := quizRepo.CreateSession(userId, subject, chapter, |selected|, now);
      var entry := ActiveQuiz(sessionId, selected, 0, 0, |selected|, subject, chapter, metadata);
      AttemptsOfFresh(db.attempts, sessionId);
      userSessions := userSessions[userId := entry];
      forall u | u in userSessions
        ensures SessionOk(userSessions[u], u, db.sessions, db.attempts)
      {
        if u != userId {
          assert SessionOk(old(userSessions)[u], u, old(db.sessions), db.attempts);
        }
      }
    }

    /** The effect of a start on the cache: it changes exactly as loading the part changes it. */
    twostate predicate CacheAfterLoad(filepath: string, remote: map<string, Fetch>, now: int, loaded: Result<QuestionSet>)
      reads service
    {
      if old(service.StoresOnLoad(filepath, remote, now)) then
        && loaded.Ok?
        && service.cache == old(service.cache)[filepath := loaded.value]
        && service.cacheTimestamps == old(service.cacheTimestamps)[filepath := now]
      else service.cache == old(service.cache) && service.cacheTimestamps == old(service.cacheTimestamps)
    }

    /** Gets or creates the user and loads the part. */
    method EnsureUserAndLoad(userId: int, username: Option<string>, firstName: string, subject: string,
                             filepath: string, remote: map<string, Fetch>, files: map<string, LocalFile>, now: int)
      returns (loaded: Result<QuestionSet>)
      requires Valid()
      modifies db`users, service
      ensures Valid()
      ensures db.users == EnsuredUsers(old(db.users), userId, username, firstName, now)
      ensures loaded == old(PartLoad(subject, filepath, remote, files, now))
      ensures CacheAfterLoad(filepath, remote, now, loaded)
    {
      if userRepo.GetUser(userId).None? {
        var _ := userRepo.CreateUser(userId, username, firstName, now);
      }
      loaded := service.LoadQuestionsForPart(subject, filepath, remote, files, now);
    }

    /** Selects the questions and, when that succeeds, opens the session and installs the
        entry; a failed selection changes nothing. */
    method Begin(userId: int, questions: seq<Question>, subject: string, chapter: string,
                 metadata: Option<Metadata>, rng: Randomness, now: int)
      returns (selected: Result<seq<Question>>)
      requires Valid() && ValidRandomness(rng)
      modifies this`userSessions, db`sessions, db`lastSessionId
      ensures Valid()
      ensures Selectable(questions, useAllQuestions, questionsPerQuiz, rng) <==> selected.Ok?
      ensures Picks(|questions|, useAllQuestions, questionsPerQuiz, rng).Err? ==> selected == Err(ValueError)
      ensures selected.Err? ==>
        userSessions == old(userSessions) && db.sessions == old(db.sessions) && db.lastSessionId == old(db.lastSessionId)
      ensures selected.Ok? ==>
        var picks := Picks(|questions|, useAllQuestions, questionsPerQuiz, rng).value;
        var sessionId := old(db.lastSessionId) + 1;
        && |selected.value| == |picks|
        && (forall i :: 0 <= i < |picks| ==> ShuffledCopy(questions[picks[i]], selected.value[i]))
        && userSessions == old(userSessions)[userId :=
             ActiveQuiz(sessionId, selected.value, 0, 0, |picks|, subject, chapter, metadata)]
        && db.lastSessionId == sessionId
        && db.sessions == old(db.sessions)[sessionId :=
             QuizSession(Some(sessionId), userId, subject, chapter, now, None, 0, |picks|)]
    {
      selected := SelectQuestions(questions, useAllQuestions, questionsPerQuiz, rng);
      if selected.Ok? {
        forall q | q in selected.value ensures q.options.Some? && q.correctOptionId.Some? {
          var i :| 0 <= i < |selected.value| && selected.value[i] == q;
          assert ShuffledCopy(questions[Picks(|questions|, useAllQuestions, questionsPerQuiz, rng).value[i]], q);
        }
        var _ := InstallSession(userId, selected.value, subject, chapter, metadata, now);
      }
    }

    /** The entry's metadata: the loaded part's for a start on a part, none for the legacy
        command. */
    static function EntryMetadata(loaded: QuestionSet, withMetadata: bool): (m: Option<Metadata>)
      ensures withMetadata <==> m.Some?
      ensures withMetadata && loaded.metadata.Some? ==> m == loaded.metadata
      ensures withMetadata && loaded.metadata.None? ==> m == Some(map[])
    {
      if withMetadata then Some(MetadataOrEmpty(loaded)) else None
    }

    /** The steps both starts share: get or create the user, load the part (an error ends the
        start with only the user created), select the questions (an error ends it before any
        session), then open a session and install a fresh entry. */
    method StartPart(userId: int, username: Option<string>, firstName: string, subject: string,
                     filepath: string, chapter: string, withMetadata: bool, remote: map<string, Fetch>,
                     files: map<string, LocalFile>, rng: Randomness, now: int)
      returns (loaded: Result<QuestionSet>, selected: Result<seq<Question>>)
      requires Valid() && ValidRandomness(rng)
      modifies this`userSessions, db`users, db`sessions, db`lastSessionId, service
      ensures Valid()
      ensures db.users == EnsuredUsers(old(db.users), userId, username, firstName, now)
      ensures loaded == old(PartLoad(subject, filepath, remote, files, now))
      ensures CacheAfterLoad(filepath, remote, now, loaded)
      ensures loaded.Err? ==> selected == Err(loaded.error)
      ensures selected.Ok? <==> loaded.Ok? && Selectable(loaded.value.questions, useAllQuestions, questionsPerQuiz, rng)
      ensures selected.Err? ==>
        userSessions == old(userSessions) && db.sessions == old(db.sessions) && db.lastSessionId == old(db.lastSessionId)
      ensures selected.Ok? ==>
        var questions := loaded.value.questions;
        var picks := Picks(|questions|, useAllQuestions, questionsPerQuiz, rng).value;
        var sessionId := old(db.lastSessionId) + 1;
        && |selected.value| == |picks|
        && (forall i :: 0 <= i < |picks| ==> ShuffledCopy(questions[picks[i]], selected.value[i]))
        && userSessions == old(userSessions)[userId :=
             ActiveQuiz(sessionId, selected.value, 0, 0, |picks|, subject, chapter, EntryMetadata(loaded.value, withMetadata))]
        && db.lastSessionId == sessionId
        && db.sessions == old(db.sessions)[sessionId :=
             QuizSession(Some(sessionId), userId, subject, chapter, now, None, 0, |picks|)]
    {
      loaded := EnsureUserAndLoad(userId, username, firstName, subject, filepath, remote, files, now);
      if loaded.Err? {
        return loaded, Err(loaded.error);
      }
      selected := Begin(userId, loaded.value.questions, subject, chapter, EntryMetadata(loaded.value, withMetadata), rng, now);
    }

    /** Starting a quiz on one part: the shared start with the part's metadata, then reading the
        first question, which raises `IndexError` for an empty selection and `KeyError` for a
        question without text, the entry staying installed either way. */
    method StartQuizForPart(userId: int, username: Option<string>, firstName: string, subjectKey: string,
                            partName: string, filepath: string, remote: map<string, Fetch>,
                            files: map<string, LocalFile>, rng: Randomness, now: int)
      returns (r: Result<PartStart>)
      requires Valid() && ValidRandomness(rng)
      modifies this`userSessions, db`users, db`sessions, db`lastSessionId, service
      ensures Valid()
      ensures db.users == EnsuredUsers(old(db.users), userId, username, firstName, now)
      ensures CacheAfterLoad(filepath, remote, now, old(PartLoad(subjectKey, filepath, remote, files, now)))
      ensures var loaded := old(PartLoad(subjectKey, filepath, remote, files, now));
        && (loaded.Err? ==> r == Err(loaded.error))
        && (loaded.Err? || (loaded.Ok? && !Selectable(loaded.value.questions, useAllQuestions, questionsPerQuiz, rng)) ==>
              && r.Err? && userSessions == old(userSessions)
              && db.sessions == old(db.sessions) && db.lastSessionId == old(db.lastSessionId))
        && (loaded.Ok? && Selectable(loaded.value.questions, useAllQuestions, questionsPerQuiz, rng) ==>
              var questions := loaded.value.questions;
              var picks := Picks(|questions|, useAllQuestions, questionsPerQuiz, rng).value;
              var sessionId := old(db.lastSessionId) + 1;
              && userId in userSessions
              && var selected := userSessions[userId].questions;
              && |selected| == |picks|
              && (forall i :: 0 <= i < |picks| ==> ShuffledCopy(questions[picks[i]], selected[i]))
              && userSessions == old(userSessions)[userId :=
                   ActiveQuiz(sessionId, selected, 0, 0, |picks|, subjectKey, partName, Some(MetadataOrEmpty(loaded.value)))]
              && db.lastSessionId == sessionId
              && db.sessions == old(db.sessions)[sessionId :=
                   QuizSession(Some(sessionId), userId, subjectKey, partName, now, None, 0, |picks|)]
              && r == (if selected == [] then Err(IndexError)
                       else if selected[0].text.None? then Err(KeyError)
                       else Ok(PartStart(GetSubjectName(subjectKey), GetSubjectEmoji(subjectKey),
                                         ChapterTitle(MetadataOrEmpty(loaded.value), partName), |selected|))))
    {
      var loaded, selected := StartPart(userId, username, firstName, subjectKey, filepath, partName, true,
                                        remote, files, rng, now);
      if selected.Err? {
        return Err(selected.error);
      }
      var chapterTitle := ChapterTitle(MetadataOrEmpty(loaded.value), partName);
      // the first question is read after the entry is installed
      if |selected.value| == 0 {
        return Err(IndexError);
      }
      if selected.value[0].text.None? {
        return Err(KeyError);
      }
      return Ok(PartStart(GetSubjectName(subjectKey), GetSubjectEmoji(subjectKey), chapterTitle, |selected.value|));
    }

    /** The legacy command: the shared start on the fixed test file, under subject `test` and
        chapter `general`, with no metadata. It then sends the first question, which for an empty
        selection means finishing at once, and that divides by a total of zero. */
    method StartQuizCommand(userId: int, username: Option<string>, firstName: string,
                            remote: map<string, Fetch>, files: map<string, LocalFile>, rng: Randomness,
                            xpRecorded: bool, now: int)
      returns (r: Result<nat>)
      requires Valid() && ValidRandomness(rng)
      modifies this`userSessions, db`users, db`sessions, db`lastSessionId, service
      ensures Valid()
      ensures db.users == EnsuredUsers(old(db.users), userId, username, firstName, now)
      ensures CacheAfterLoad(TEST_FILE, remote, now, old(PartLoad(TEST_SUBJECT, TEST_FILE, remote, files, now)))
      ensures var loaded := old(PartLoad(TEST_SUBJECT, TEST_FILE, remote, files, now));
        && (loaded.Err? ==> r == Err(loaded.error))
        && (loaded.Err? || (loaded.Ok? && !Selectable(loaded.value.questions, useAllQuestions, questionsPerQuiz, rng)) ==>
              && r.Err? && userSessions == old(userSessions)
              && db.sessions == old(db.sessions) && db.lastSessionId == old(db.lastSessionId))
        && (loaded.Ok? && Selectable(loaded.value.questions, useAllQuestions, questionsPerQuiz, rng) ==>
              var questions := loaded.value.questions;
              var picks := Picks(|questions|, useAllQuestions, questionsPerQuiz, rng).value;
              var sessionId := old(db.lastSessionId) + 1;
              && userId in userSessions
              && var selected := userSessions[userId].questions;
              && |selected| == |picks|
              && (forall i :: 0 <= i < |picks| ==> ShuffledCopy(questions[picks[i]], selected[i]))
              && userSessions == old(userSessions)[userId :=
                   ActiveQuiz(sessionId, selected, 0, 0, |picks|, TEST_SUBJECT, TEST_CHAPTER, None)]
              && db.lastSessionId == sessionId
              && db.sessions == old(db.sessions)[sessionId :=
                   QuizSession(Some(sessionId), userId, TEST_SUBJECT, TEST_CHAPTER, now, None, 0, |picks|)]
              && r == (if selected == [] then Err(ZeroDivisionError)
                       else if selected[0].text.None? then Err(KeyError)
                       else Ok(|selected|)))
    {
      var loaded, selected := StartPart(userId, username, firstName, TEST_SUBJECT, TEST_FILE, TEST_CHAPTER, false,
                                        remote, files, rng, now);
      if selected.Err? {
        return Err(selected.error);
      }
      // sending the first question of an exhausted list finishes the quiz
      if |selected.value| == 0 {
        var finished := FinishQuiz(userId, xpRecorded, now);
        assert finished == Err(ZeroDivisionError);
        return Err(ZeroDivisionError);
      }
      if selected.value[0].text.None? {
        return Err(KeyError);
      }
      return Ok(|selected.value|);
    }

    /** Finishing a quiz (both the send-question and the after-answer variant): nothing without
        an entry; a total of zero raises in the percentage before anything changes; otherwise the
        session row gets its end time and final score, then the XP and statistics calls run and
        the entry is deleted. `xpRecorded` says whether those two calls, which the repository
        does not define, return normally; when they raise, the entry stays. */
    method FinishQuiz(userId: int, xpRecorded: bool, now: int) returns (r: Result<Option<FinishSummary>>)
      requires Valid()
      modifies this`userSessions, db`sessions
      ensures Valid()
      ensures userId !in old(userSessions) ==>
        r == Ok(None) && userSessions == old(userSessions) && db.sessions == old(db.sessions)
      ensures userId in old(userSessions) && old(userSessions[userId]).total == 0 ==>
        r == Err(ZeroDivisionError) && userSessions == old(userSessions) && db.sessions == old(db.sessions)
      ensures userId in old(userSessions) && old(userSessions[userId]).total != 0 ==>
        var s := old(userSessions[userId]);
        && db.sessions == old(db.sessions)[s.sessionId := old(db.sessions)[s.sessionId].(endTime := Some(now), score := s.score)]
        && (xpRecorded ==>
              && r == Ok(Some(FinishSummary(s.score, s.total, CalculateXp(s.score, s.total, xp))))
              && userSessions == old(userSessions) - {userId})
        && (!xpRecorded ==> r == Err(CollaboratorError) && userSessions == old(userSessions))
    {
      if userId !in userSessions {
        return Ok(None);
      }
      var s := userSessions[userId];
      if s.total == 0 {
        return Err(ZeroDivisionError);
      }
      var xpEarned := CalculateXp(s.score, s.total, xp);
      quizRepo.FinishSession(s.sessionId, s.score, now);
      if !xpRecorded {
        // user_repo.add_xp / the four-argument update_stats raise
        return Err(CollaboratorError);
      }
      userSessions := userSessions - {userId};
      return Ok(Some(FinishSummary(s.score, s.total, xpEarned)));
    }

    /** One poll answer. Without an entry nothing changes. An empty answer list or an exhausted
        question list raises `IndexError` and changes nothing. Otherwise the score rises exactly
        on a correct answer; then the attempt is recorded and the current index advances, unless the
        question has no text, which raises `KeyError` with the score already raised. After the
        last question the quiz is finished; before it, the next question is read, and a missing
        text there raises `KeyError` after the state has moved on. */
    method HandlePollAnswer(userId: int, optionIds: seq<int>, xpRecorded: bool, now: int)
      returns (r: Result<AnswerOutcome>)
      requires Valid()
      modifies this`userSessions, db`attempts, db`sessions
      ensures Valid()
      ensures userId !in old(userSessions) ==>
        && r == Ok(NoSession) && userSessions == old(userSessions)
        && db.attempts == old(db.attempts) && db.sessions == old(db.sessions)
      ensures userId in old(userSessions) &&
              (optionIds == [] || old(userSessions[userId]).current >= |old(userSessions[userId]).questions|) ==>
        && r == Err(IndexError) && userSessions == old(userSessions)
        && db.attempts == old(db.attempts) && db.sessions == old(db.sessions)
      ensures userId in old(userSessions) && optionIds != [] &&
              old(userSessions[userId]).current < |old(userSessions[userId]).questions| ==>
        var s := old(userSessions[userId]);
        var q := s.questions[s.current];
        var selected := optionIds[0];
        var correct := selected == q.correctOptionId.value;
        var t := Advance(s, selected);
        && (q.text.None? ==>
              && r == Err(KeyError) && userSessions == old(userSessions)[userId := t.(current := s.current)]
              && db.attempts == old(db.attempts) && db.sessions == old(db.sessions))
        && (q.text.Some? ==>
              && db.attempts == old(db.attempts) +
                   [QuestionAttempt(Some(|old(db.attempts)| + 1), s.sessionId, q.text.value, selected,
                                    q.correctOptionId.value, correct, now)]
              && (t.current < |s.questions| ==>
                    && userSessions == old(userSessions)[userId := t] && db.sessions == old(db.sessions)
                    && r == (if s.questions[t.current].text.None? then Err(KeyError)
                             else Ok(NextQuestion(correct, t.current + 1))))
              && (t.current == |s.questions| ==>
                    && db.sessions == old(db.sessions)[s.sessionId :=
                         old(db.sessions)[s.sessionId].(endTime := Some(now), score := t.score)]
                    && (xpRecorded ==>
                          && userSessions == old(userSessions) - {userId}
                          && r == Ok(QuizFinished(correct, FinishSummary(t.score, t.total, CalculateXp(t.score, t.total, xp)))))
                    && (!xpRecorded ==> userSessions == old(userSessions)[userId := t] && r == Err(CollaboratorError))))
    {
      if userId !in userSessions {
        return Ok(NoSession);
      }
      if optionIds == [] {
        return Err(IndexError);
      }
      var selected := optionIds[0];
      var s := userSessions[userId];
      if s.current >= |s.questions| {
        return Err(IndexError);
      }
      var q := s.questions[s.current];
      var isCorrect := selected == q.correctOptionId.value;
      var t := Advance(s, selected);
      if q.text.None? {
        // the score is raised before the attempt row reads the missing text
        RaiseScoreOnly(userId, t.score);
        return Err(KeyError);
      }
      RecordAnswer(userId, q.text.value, selected, now);
      if t.current < |t.questions| {
        if t.questions[t.current].text.None? {
          return Err(KeyError);
        }
        return Ok(NextQuestion(isCorrect, t.current + 1));
      }
      var finished := FinishQuiz(userId, xpRecorded, now);
      if finished.Err? {
        return Err(finished.error);
      }
      return Ok(QuizFinished(isCorrect, finished.value.value));
    }

    /** Raises the score of an entry whose current question has no text, so that no attempt can
        be recorded for it; the current index stays. */
    method RaiseScoreOnly(userId: int, score: int)
      requires Valid() && userId in userSessions
      requires var s := userSessions[userId];
        s.current < |s.questions| && s.questions[s.current].text.None? && score >= s.score
      modifies this`userSessions
      ensures Valid()
      ensures userSessions == old(userSessions)[userId := old(userSessions[userId]).(score := score)]
    {
      var s := userSessions[userId];
      assert s.questions[s.current] in s.questions;
      userSessions := userSessions[userId := s.(score := score)];
      forall u | u in userSessions
        ensures SessionOk(userSessions[u], u, db.sessions, db.attempts)
      {
        if u != userId {
          assert SessionOk(old(userSessions)[u], u, db.sessions, db.attempts);
        }
      }
    }

    /** Saves the attempt for the current question of the user's entry and advances the entry:
        the attempt carries the question's text and correct index and whether the answer
        matched, and the score rises exactly when it did. */
    method RecordAnswer(userId: int, text: string, selected: int, now: int)
      requires Valid() && userId in userSessions
      requires var s := userSessions[userId];
        s.current < |s.questions| && s.questions[s.current].text == Some(text)
      modifies this`userSessions, db`attempts
      ensures Valid()
      ensures userSessions == old(userSessions)[userId := Advance(old(userSessions[userId]), selected)]
      ensures var s := old(userSessions[userId]);
        var q := s.questions[s.current];
        db.attempts == old(db.attempts) +
          [QuestionAttempt(Some(|old(db.attempts)| + 1), s.sessionId, text, selected,
                           q.correctOptionId.value, selected == q.correctOptionId.value, now)]
    {
      var s := userSessions[userId];
      var q := s.questions[s.current];
      assert q in s.questions;
      var correct := selected == q.correctOptionId.value;
      var a := QuestionAttempt(Some(|db.attempts| + 1), s.sessionId, text, selected, q.correctOptionId.value, correct, now);
      ghost var log := AttemptsOf(db.attempts, s.sessionId);
      quizRepo.SaveAttempt(s.sessionId, text, selected, q.correctOptionId.value, correct, now);
      var t := Advance(s, selected);
      userSessions := userSessions[userId := t];
      assert db.attempts == old(db.attempts) + [a];
      forall u | u in userSessions
        ensures SessionOk(userSessions[u], u, db.sessions, db.attempts)
      {
        if u != userId {
          assert old(userSessions)[u].sessionId != s.sessionId;
          AppendKeepsSession(old(userSessions)[u], u, db.sessions, old(db.attempts), a);
        } else {
          assert SessionOk(s, u, db.sessions, old(db.attempts));
          AttemptsOfAppend(old(db.attempts), a, s.sessionId);
          if AllText(t.questions) {
            RecordedStep(s, log, selected, a);
          }
        }
      }
    }
  }

  /** In a valid handler, every entry whose questions all carry text satisfies
      0 <= score <= current <= total, and its score is the number of correct attempts recorded
      for its session, one attempt per answered question. */
  lemma ScoreBounds(h: QuizHandler, userId: int)
    requires h.Valid() && userId in h.userSessions && AllText(h.userSessions[userId].questions)
    ensures var s := h.userSessions[userId];
      && 0 <= s.score <= s.current <= s.total
      && s.score == CountCorrect(AttemptsOf(h.db.attempts, s.sessionId))
      && |AttemptsOf(h.db.attempts, s.sessionId)| == s.current
  {
    var s := h.userSessions[userId];
    assert SessionOk(s, userId, h.db.sessions, h.db.attempts);
  }
}
