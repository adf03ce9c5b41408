/** The routing decision for inline-button callback data, and the chapter screen it leads to. */
module Callbacks {
  import opened Common
  import opened Strings
  import opened Subjects
  import opened Keyboards

  /** The two texts the subject menu is shown with. */
  datatype MenuGreeting = ChooseSubject | HomeMenu

  datatype Action =
    | ShowChapters(subjectKey: string)
    | StartQuiz(subjectKey: string, chapterKey: string)
    | ShowSubjectMenu(greeting: MenuGreeting)
    | Ignore

  const SUBJECT_PREFIX: string := "subject_"
  const QUIZ_PREFIX: string := "quiz_"

  /** The classification made by the callback handler. A `quiz_` datum with fewer than three
      underscore-separated pieces raises `IndexError`. */
  function Route(data: string): (r: Result<Action>)
    ensures r.Err? <==> !StartsWith(data, SUBJECT_PREFIX) && StartsWith(data, QUIZ_PREFIX) && |Split(data, '_')| < 3
    ensures r.Err? ==> r.error == IndexError
    ensures StartsWith(data, SUBJECT_PREFIX) ==> r == Ok(ShowChapters(ReplaceAll(data, SUBJECT_PREFIX, "")))
    ensures !StartsWith(data, SUBJECT_PREFIX) && StartsWith(data, QUIZ_PREFIX) && |Split(data, '_')| >= 3 ==>
      r == Ok(StartQuiz(Split(data, '_')[1], Split(data, '_')[2]))
    ensures r == Ok(Ignore) <==>
      !StartsWith(data, SUBJECT_PREFIX) && !StartsWith(data, QUIZ_PREFIX)
      && data != "back_to_subjects" && data != "main_menu" && data != "new_quiz"
  {
    if StartsWith(data, SUBJECT_PREFIX) then
      Ok(ShowChapters(ReplaceAll(data, SUBJECT_PREFIX, "")))
    else if StartsWith(data, QUIZ_PREFIX) then
      var parts := Split(data, '_');
      if |parts| < 3 then Err(IndexError) else Ok(StartQuiz(parts[1], parts[2]))
    else if data == "back_to_subjects" then Ok(ShowSubjectMenu(ChooseSubject))
    else if data == "main_menu" then Ok(ShowSubjectMenu(HomeMenu))
    else if data == "new_quiz" then Ok(ShowSubjectMenu(ChooseSubject))
    else Ok(Ignore)
  }

  /** Subject data as the main menu encodes it. */
  function SubjectData(subjectKey: string): string {
    SUBJECT_PREFIX + subjectKey
  }

  /** Quiz data as the chapter menu encodes it. */
  function QuizData(subjectKey: string, chapterKey: string): string {
    QUIZ_PREFIX + subjectKey + "_" + chapterKey
  }

  /** Decoding subject data gives back the key exactly when the key does not itself contain
      `subject_` (the handler removes every occurrence, not just the prefix). */
  lemma SubjectRoundTrip(subjectKey: string)
    ensures Route(SubjectData(subjectKey)) == Ok(ShowChapters(subjectKey)) <==> !Contains(subjectKey, SUBJECT_PREFIX)
  {
    var data := SubjectData(subjectKey);
    assert StartsWith(data, SUBJECT_PREFIX);
    assert data[|SUBJECT_PREFIX|..] == subjectKey;
    assert ReplaceAll(data, SUBJECT_PREFIX, "") == ReplaceAll(subjectKey, SUBJECT_PREFIX, "");
    RemoveAllIdentity(subjectKey, SUBJECT_PREFIX);
  }

  /** Decoding quiz data gives back both keys exactly when neither contains an underscore. */
  lemma QuizRoundTrip(subjectKey: string, chapterKey: string)
    ensures Route(QuizData(subjectKey, chapterKey)) == Ok(StartQuiz(subjectKey, chapterKey))
            <==> '_' !in subjectKey && '_' !in chapterKey
  {
    var data := QuizData(subjectKey, chapterKey);
    assert !StartsWith(data, SUBJECT_PREFIX) by {
      assert data[0] == 'q';
    }
    assert StartsWith(data, QUIZ_PREFIX);
    assert data == "quiz" + ['_'] + (subjectKey + ['_'] + chapterKey);
    SplitAround("quiz", '_', subjectKey + ['_'] + chapterKey);
    SplitAround(subjectKey, '_', chapterKey);
    SplitSingleton("quiz", '_');
    var ps := Split(subjectKey, '_');
    var pc := Split(chapterKey, '_');
    assert Split(data, '_') == ["quiz"] + ps + pc;
    SplitSingleton(subjectKey, '_');
    SplitSingleton(chapterKey, '_');
    SplitPiecesLackSeparator(subjectKey, '_');
    SplitPiecesLackSeparator(chapterKey, '_');
    assert ps[0] != subjectKey || '_' !in subjectKey;
    if '_' !in subjectKey {
      assert pc[0] != chapterKey || '_' !in chapterKey;
    }
  }

  /** The catalogue key `ds_algo` breaks the quiz round trip: its data is read as subject `ds`,
      chapter `algo`. */
  lemma DsAlgoQuizMisrouted(chapterKey: string)
    ensures Route(QuizData("ds_algo", chapterKey)) == Ok(StartQuiz("ds", "algo"))
  {
    var data := QuizData("ds_algo", chapterKey);
    var inner := "algo" + ['_'] + chapterKey;
    var middle := "ds" + ['_'] + inner;
    assert data == "quiz" + ['_'] + middle;
    assert !StartsWith(data, SUBJECT_PREFIX) by {
      assert data[0] == 'q';
    }
    assert StartsWith(data, QUIZ_PREFIX);
    SplitAround("quiz", '_', middle);
    SplitAround("ds", '_', inner);
    SplitAround("algo", '_', chapterKey);
    SplitSingleton("quiz", '_');
    SplitSingleton("ds", '_');
    SplitSingleton("algo", '_');
    var rest := Split(chapterKey, '_');
    assert Split(data, '_') == ["quiz"] + (["ds"] + (["algo"] + rest));
  }

  /** Every main-menu button routes to the chapter screen of its own subject. */
  lemma MainMenuRoutesHome(i: nat)
    requires i < |SUBJECTS|
    ensures Route(SubjectButton(SUBJECTS[i]).data) == Ok(ShowChapters(SUBJECTS[i].key))
  {
    var k := SUBJECTS[i].key;
    assert !Contains(k, SUBJECT_PREFIX) by {
      ShortContains(k, SUBJECT_PREFIX);
    }
    SubjectRoundTrip(k);
  }

  /** A string no longer than the pattern contains it only by being it. */
  lemma {:induction false} ShortContains(s: string, pat: string)
    requires |s| <= |pat|
    ensures Contains(s, pat) <==> s == pat
    decreases |s|
  {
    if s != [] {
      ShortContains(s[1..], pat);
    }
  }

  /** Only the three exact menu strings open the subject menu. */
  lemma SubjectMenuExactly(data: string)
    ensures (Route(data).Ok? && Route(data).value.ShowSubjectMenu?)
            <==> data == "back_to_subjects" || data == "main_menu" || data == "new_quiz"
  {
    if data == "back_to_subjects" || data == "main_menu" || data == "new_quiz" {
      assert !StartsWith(data, SUBJECT_PREFIX) && !StartsWith(data, QUIZ_PREFIX);
    }
  }

  /** After a quiz: the statistics button does nothing here, the other two open the subject menu. */
  lemma QuizActionsRouting()
    ensures |QuizActionsKeyboard()| == 3
    ensures Route(QuizActionsKeyboard()[0][0].data) == Ok(Ignore)
    ensures Route(QuizActionsKeyboard()[1][0].data) == Ok(ShowSubjectMenu(ChooseSubject))
    ensures Route(QuizActionsKeyboard()[2][0].data) == Ok(ShowSubjectMenu(HomeMenu))
  {
    assert !StartsWith("show_stats", SUBJECT_PREFIX) by {
      assert "show_stats"[..|SUBJECT_PREFIX|][1] != SUBJECT_PREFIX[1];
    }
    assert !StartsWith("show_stats", QUIZ_PREFIX) by {
      assert "show_stats"[..|QUIZ_PREFIX|][0] != QUIZ_PREFIX[0];
    }
    assert !StartsWith("new_quiz", SUBJECT_PREFIX) && !StartsWith("new_quiz", QUIZ_PREFIX);
    assert !StartsWith("main_menu", SUBJECT_PREFIX) && !StartsWith("main_menu", QUIZ_PREFIX);
  }

  datatype ChaptersScreen =
    | SubjectNotFound
    | ChapterMenu(text: string, keyboard: seq<Row>)

  const SUBJECT_NOT_FOUND_TEXT: string := "❌ المادة غير موجودة"

  /** The chapter screen for a subject: "not found" with no keyboard for an unknown key;
      otherwise the header and the chapter keyboard, whose `KeyError` escapes. */
  method ShowChaptersScreen(table: Table, subjectKey: string) returns (r: Result<ChaptersScreen>)
    ensures Find(table, subjectKey).None? ==> r == Ok(SubjectNotFound)
    ensures Find(table, subjectKey).Some? && Find(table, subjectKey).value.chapters.None? ==> r == Err(KeyError)
    ensures r.Ok? && r.value.ChapterMenu? ==>
      Find(table, subjectKey).Some? &&
      r.value.text == Find(table, subjectKey).value.emoji + " **" + Find(table, subjectKey).value.nameAr + "**\n\nاختر الفصل:"
    ensures Find(table, subjectKey).Some? && Find(table, subjectKey).value.chapters.Some? ==>
      var chapters := Find(table, subjectKey).value.chapters.value;
      && r.Ok? && r.value.ChapterMenu?
      && |r.value.keyboard| == |chapters| + 1
      && (forall i :: 0 <= i < |chapters| ==> r.value.keyboard[i] == [ChapterButton(subjectKey, chapters[i])])
      && r.value.keyboard[|chapters|] == [BACK_BUTTON]
  {
    var subject := Find(table, subjectKey);
    if subject.None? {
      return Ok(SubjectNotFound);
    }
    var message := subject.value.emoji + " **" + subject.value.nameAr + "**\n\nاختر الفصل:";
    var keyboard := ChaptersKeyboard(table, subjectKey);
    if keyboard.Err? {
      return Err(keyboard.error);
    }
    assert keyboard.value.Some?;
    return Ok(ChapterMenu(message, keyboard.value.value));
  }
}
