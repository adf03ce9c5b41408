/** The progress store: three tables held in memory, and the two repositories over them. */
module Repositories {
  import opened Common
  import opened Models

  /** A row of the `users` table; `xp` is a column the `User` record does not carry. */
  datatype UserRow = UserRow(
    username: Option<string>,
    firstName: string,
    joinDate: int,
    totalQuestions: int,
    correctAnswers: int,
    xp: int)

  /** A freshly inserted user row: the schema's defaults for every column not supplied. */
  function FreshUserRow(username: Option<string>, firstName: string, now: int): (row: UserRow)
    ensures row.username == username && row.firstName == firstName && row.joinDate == now
    ensures row.totalQuestions == 0 && row.correctAnswers == 0 && row.xp == 0
  {
    UserRow(username, firstName, now, 0, 0, 0)
  }

  function RowToUser(userId: int, row: UserRow): User {
    User(userId, row.username, row.firstName, row.joinDate, row.totalQuestions, row.correctAnswers)
  }

  /** The database: `users` keyed by user id, `quiz_sessions` keyed by the auto-assigned session
      id (each stored as the record the repository reads back), and the append-only
      `question_attempts`. `lastSessionId` is the AUTOINCREMENT counter of `quiz_sessions`. */
  class Database {
    var users: map<int, UserRow>
    var sessions: map<int, QuizSession>
    var attempts: seq<QuestionAttempt>
    var lastSessionId: nat

    ghost predicate Valid()
      reads this
    {
      && (forall id :: id in sessions ==> 1 <= id <= lastSessionId && sessions[id].sessionId == Some(id))
      && (forall k :: 0 <= k < |attempts| ==> attempts[k].attemptId == Some(k + 1))
    }

    constructor ()
      ensures Valid()
      ensures users == map[] && sessions == map[] && attempts == [] && lastSessionId == 0
    {
      users, sessions, attempts, lastSessionId := map[], map[], [], 0;
    }
  }

  class UserRepository {
    const db: Database

    constructor (db: Database)
      ensures this.db == db
    {
      this.db := db;
    }

    /** The stored user, or `None` when no row has that id. */
    function GetUser(userId: int): (r: Option<User>)
      reads db
      ensures r.None? <==> userId !in db.users
      ensures r.Some? ==>
        && r.value.userId == userId
        && r.value.totalQuestions == db.users[userId].totalQuestions
        && r.value.correctAnswers == db.users[userId].correctAnswers
        && r.value.firstName == db.users[userId].firstName
        && r.value.username == db.users[userId].username
        && r.value.joinDate == db.users[userId].joinDate
    {
      if userId in db.users then Some(RowToUser(userId, db.users[userId])) else None
    }

    /** Inserts a row with zeroed counters; an id already present is left as it is and its
        stored user returned, the new name and username being ignored. */
    method CreateUser(userId: int, username: Option<string>, firstName: string, now: int) returns (u: User)
      modifies db`users
      ensures userId in old(db.users) ==> db.users == old(db.users) && u == RowToUser(userId, old(db.users)[userId])
      ensures userId !in old(db.users) ==>
        && db.users == old(db.users)[userId := FreshUserRow(username, firstName, now)]
        && u == NewUser(userId, username, firstName, now)
    {
      if userId in db.users {
        var existing := GetUser(userId);
        u := existing.value;
      } else {
        db.users := db.users[userId := FreshUserRow(username, firstName, now)];
        u := NewUser(userId, username, firstName, now);
      }
    }

    /** Adds to the two lifetime counters of one user; an unknown id changes nothing. */
    method UpdateStats(userId: int, questionsCount: int, correctCount: int)
      modifies db`users
      ensures userId !in old(db.users) ==> db.users == old(db.users)
      ensures userId in old(db.users) ==>
        var row := old(db.users)[userId];
        db.users == old(db.users)[userId := row.(totalQuestions := row.totalQuestions + questionsCount,
                                                 correctAnswers := row.correctAnswers + correctCount)]
    {
      if userId in db.users {
        var row := db.users[userId];
        db.users := db.users[userId := row.(totalQuestions := row.totalQuestions + questionsCount,
                                            correctAnswers := row.correctAnswers + correctCount)];
      }
    }
  }

  /** The ids of the sessions that belong to a user. */
  ghost function OwnedIds(sessions: map<int, QuizSession>, userId: int): set<int> {
    set id | id in sessions && sessions[id].userId == userId
  }

  ghost predicate Distinct(ids: seq<int>) {
    forall j, k :: 0 <= j < k < |ids| ==> ids[j] != ids[k]
  }

  /** Ids of stored sessions, ordered by start time, latest first. */
  ghost predicate LatestFirst(sessions: map<int, QuizSession>, ids: seq<int>) {
    && (forall k :: 0 <= k < |ids| ==> ids[k] in sessions)
    && (forall j, k :: 0 <= j < k < |ids| ==> sessions[ids[j]].startTime >= sessions[ids[k]].startTime)
  }

  /** Inserts an id after every id whose session started no later, keeping the order. */
  function InsertLatestFirst(sessions: map<int, QuizSession>, ids: seq<int>, id: int): (r: seq<int>)
    requires id in sessions && forall k :: 0 <= k < |ids| ==> ids[k] in sessions
    ensures |r| == |ids| + 1
    ensures forall x :: x in r <==> x in ids || x == id
    ensures LatestFirst(sessions, ids) ==> LatestFirst(sessions, r)
    ensures Distinct(ids) && id !in ids ==> Distinct(r)
  {
    if ids == [] then [id]
    else if sessions[ids[0]].startTime >= sessions[id].startTime then
      var rest := InsertLatestFirst(sessions, ids[1..], id);
      InsertBelowHead(sessions, ids, id, rest);
      [ids[0]] + rest
    else
      InsertAtHead(sessions, ids, id);
      [id] + ids
  }

  /** The step of `InsertLatestFirst` that keeps the head and inserts further down. */
  lemma InsertBelowHead(sessions: map<int, QuizSession>, ids: seq<int>, id: int, rest: seq<int>)
    requires id in sessions && ids != [] && forall k :: 0 <= k < |ids| ==> ids[k] in sessions
    requires sessions[ids[0]].startTime >= sessions[id].startTime
    requires |rest| == |ids| && forall x :: x in rest <==> x in ids[1..] || x == id
    requires LatestFirst(sessions, ids[1..]) ==> LatestFirst(sessions, rest)
    requires Distinct(ids[1..]) && id !in ids[1..] ==> Distinct(rest)
    ensures forall x :: x in [ids[0]] + rest <==> x in ids || x == id
    ensures LatestFirst(sessions, ids) ==> LatestFirst(sessions, [ids[0]] + rest)
    ensures Distinct(ids) && id !in ids ==> Distinct([ids[0]] + rest)
  {
    var r := [ids[0]] + rest;
    assert ids == [ids[0]] + ids[1..];
    assert forall x :: x in r <==> x == ids[0] || x in rest;
    if LatestFirst(sessions, ids) {
      assert LatestFirst(sessions, ids[1..]);
      forall k | 0 <= k < |rest|
        ensures sessions[ids[0]].startTime >= sessions[rest[k]].startTime
      {
        assert rest[k] in rest;
        if rest[k] != id {
          var p :| 0 <= p < |ids[1..]| && ids[1..][p] == rest[k];
          assert ids[p + 1] == rest[k];
        }
      }
      forall j, k | 0 <= j < k < |r|
        ensures sessions[r[j]].startTime >= sessions[r[k]].startTime
      {
        if j > 0 {
          assert r[j] == rest[j - 1] && r[k] == rest[k - 1];
        } else {
          assert r[k] == rest[k - 1];
        }
      }
    }
    if Distinct(ids) && id !in ids {
      assert Distinct(ids[1..]);
      assert ids[0] !in rest;
      forall j, k | 0 <= j < k < |r|
        ensures r[j] != r[k]
      {
        if j > 0 {
          assert r[j] == rest[j - 1] && r[k] == rest[k - 1];
        } else {
          assert r[k] == rest[k - 1];
          assert r[k] in rest;
        }
      }
    }
  }

  /** The step of `InsertLatestFirst` that puts the id first. */
  lemma InsertAtHead(sessions: map<int, QuizSession>, ids: seq<int>, id: int)
    requires id in sessions && ids != [] && forall k :: 0 <= k < |ids| ==> ids[k] in sessions
    requires sessions[ids[0]].startTime < sessions[id].startTime
    ensures LatestFirst(sessions, ids) ==> LatestFirst(sessions, [id] + ids)
    ensures Distinct(ids) && id !in ids ==> Distinct([id] + ids)
  {
    var r := [id] + ids;
    if LatestFirst(sessions, ids) {
      forall j, k | 0 <= j < k < |r|
        ensures sessions[r[j]].startTime >= sessions[r[k]].startTime
      {
        if j > 0 {
          assert r[j] == ids[j - 1] && r[k] == ids[k - 1];
        } else if k > 1 {
          assert r[k] == ids[k - 1];
          assert sessions[ids[0]].startTime >= sessions[ids[k - 1]].startTime;
        }
      }
    }
    if Distinct(ids) && id !in ids {
      forall j, k | 0 <= j < k < |r|
        ensures r[j] != r[k]
      {
        if j > 0 {
          assert r[j] == ids[j - 1] && r[k] == ids[k - 1];
        } else {
          assert r[k] == ids[k - 1];
        }
      }
    }
  }

  lemma {:induction false} DistinctCard(ids: seq<int>)
    requires Distinct(ids)
    ensures |(set x | x in ids)| == |ids|
  {
    if ids != [] {
      DistinctCard(ids[1..]);
      assert (set x | x in ids) == {ids[0]} + (set x | x in ids[1..]);
    }
  }

  class QuizRepository {
    const db: Database

    constructor (db: Database)
      ensures this.db == db
    {
      this.db := db;
    }

    /** Opens a session row with a fresh id, larger than every id handed out before; its score is
        0 and it has no end time. */
    method CreateSession(userId: int, subject: string, chapter: string, totalQuestions: int, now: int)
      returns (sessionId: int)
      requires db.Valid()
      modifies db`sessions, db`lastSessionId
      ensures db.Valid()
      ensures sessionId == old(db.lastSessionId) + 1 && sessionId !in old(db.sessions)
      ensures db.lastSessionId == sessionId
      ensures db.sessions == old(db.sessions)[sessionId :=
        QuizSession(Some(sessionId), userId, subject, chapter, now, None, 0, totalQuestions)]
    {
      sessionId := db.lastSessionId + 1;
      db.lastSessionId := sessionId;
      db.sessions := db.sessions[sessionId :=
        QuizSession(Some(sessionId), userId, subject, chapter, now, None, 0, totalQuestions)];
    }

    /** Sets end time and score on the matching session only; a second call overwrites them. */
    method FinishSession(sessionId: int, score: int, now: int)
      requires db.Valid()
      modifies db`sessions
      ensures db.Valid()
      ensures sessionId !in old(db.sessions) ==> db.sessions == old(db.sessions)
      ensures sessionId in old(db.sessions) ==>
        db.sessions == old(db.sessions)[sessionId := old(db.sessions)[sessionId].(endTime := Some(now), score := score)]
    {
      if sessionId in db.sessions {
        db.sessions := db.sessions[sessionId := db.sessions[sessionId].(endTime := Some(now), score := score)];
      }
    }

    /** Appends exactly one attempt row. */
    method SaveAttempt(sessionId: int, questionText: string, userAnswer: int, correctAnswer: int,
                       isCorrect: bool, now: int)
      requires db.Valid()
      modifies db`attempts
      ensures db.Valid()
      ensures db.attempts == old(db.attempts) +
        [QuestionAttempt(Some(|old(db.attempts)| + 1), sessionId, questionText, userAnswer, correctAnswer, isCorrect, now)]
    {
      db.attempts := db.attempts +
        [QuestionAttempt(Some(|db.attempts| + 1), sessionId, questionText, userAnswer, correctAnswer, isCorrect, now)];
    }

    /** The ids of the user's sessions, latest start first
        (`SELECT ... WHERE user_id = ? ORDER BY start_time DESC`). */
    method OwnedIdsLatestFirst(userId: int) returns (ids: seq<int>)
      requires db.Valid()
      ensures LatestFirst(db.sessions, ids) && Distinct(ids)
      ensures (set x | x in ids) == OwnedIds(db.sessions, userId)
      ensures |ids| == |OwnedIds(db.sessions, userId)|
    {
      ids := [];
      var i := 1;
      while i <= db.lastSessionId
        invariant 1 <= i <= db.lastSessionId + 1
        invariant LatestFirst(db.sessions, ids) && Distinct(ids)
        invariant forall x :: x in ids ==> x < i
        invariant (set x | x in ids) == (set id | id in OwnedIds(db.sessions, userId) && id < i)
      {
        ghost var before := ids;
        if i in db.sessions && db.sessions[i].userId == userId {
          ids := InsertLatestFirst(db.sessions, ids, i);
        }
        assert (set x | x in ids) == (set x | x in before) + (if i in OwnedIds(db.sessions, userId) then {i} else {});
        i := i + 1;
      }
      assert (set x | x in ids) == OwnedIds(db.sessions, userId);
      DistinctCard(ids);
    }

    /** The user's latest sessions: at most `limit` of them (a negative limit means no limit, as
        in SQLite), all the user's, no session twice, latest start first, and none left out that
        started later than one returned. */
    method GetUserSessions(userId: int, limit: int := 10) returns (result: seq<QuizSession>)
      requires db.Valid()
      ensures var owned := |OwnedIds(db.sessions, userId)|;
        |result| == if limit < 0 then owned else Min(limit, owned)
      ensures forall k :: 0 <= k < |result| ==>
        && result[k].sessionId.Some?
        && result[k].sessionId.value in db.sessions
        && db.sessions[result[k].sessionId.value] == result[k]
        && result[k].userId == userId
      ensures forall j, k :: 0 <= j < k < |result| ==> result[j].sessionId != result[k].sessionId
      ensures forall j, k :: 0 <= j < k < |result| ==> result[j].startTime >= result[k].startTime
      ensures forall id :: id in OwnedIds(db.sessions, userId) && (forall k :: 0 <= k < |result| ==> result[k].sessionId != Some(id)) ==>
        forall k :: 0 <= k < |result| ==> result[k].startTime >= db.sessions[id].startTime
    {
      var ids := OwnedIdsLatestFirst(userId);
      // LIMIT ?
      var n := if limit < 0 || limit > |ids| then |ids| else limit;
      var rows := ids[..n];
      // for row in rows: sessions.append(QuizSession(...))
      result := [];
      var k := 0;
      while k < n
        invariant 0 <= k <= n
        invariant |result| == k
        invariant forall j :: 0 <= j < k ==> result[j] == db.sessions[rows[j]]
      {
        result := result + [db.sessions[rows[k]]];
        k := k + 1;
      }
      forall j | 0 <= j < |result|
        ensures result[j].sessionId == Some(ids[j]) && ids[j] in OwnedIds(db.sessions, userId)
      {
        assert ids[j] in (set x | x in ids);
      }
      forall id | id in OwnedIds(db.sessions, userId) && (forall k :: 0 <= k < |result| ==> result[k].sessionId != Some(id))
        ensures forall k :: 0 <= k < |result| ==> result[k].startTime >= db.sessions[id].startTime
      {
        assert id in (set x | x in ids);
        var p :| 0 <= p < |ids| && ids[p] == id;
        assert n <= p;
      }
    }
  }
}
