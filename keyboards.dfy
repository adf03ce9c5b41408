/** Inline keyboards as rows of (text, callback data) buttons. */
module Keyboards {
  import opened Common
  import opened Subjects

  datatype Button = Button(text: string, data: string)

  type Row = seq<Button>

  /** The button the main menu shows for one catalogue entry. */
  function SubjectButton(e: Entry): Button {
    Button(e.info.emoji + " " + e.info.nameAr, "subject_" + e.key)
  }

  /** The button the chapter menu shows for one chapter of a subject. */
  function ChapterButton(subjectKey: string, c: Chapter): Button {
    Button(c.name, "quiz_" + subjectKey + "_" + c.key)
  }

  const BACK_BUTTON: Button := Button("🔙 رجوع", "back_to_subjects")

  /** One single-button row per subject, in table order. */
  method MainMenuKeyboard(table: Table) returns (keyboard: seq<Row>)
    ensures |keyboard| == |table|
    ensures forall i :: 0 <= i < |table| ==> keyboard[i] == [SubjectButton(table[i])]
  {
    keyboard := [];
    var i := 0;
    while i < |table|
      invariant 0 <= i <= |table|
      invariant |keyboard| == i
      invariant forall k :: 0 <= k < i ==> keyboard[k] == [SubjectButton(table[k])]
    {
      var e := table[i];
      var buttonText := e.info.emoji + " " + e.info.nameAr;
      keyboard := keyboard + [[Button(buttonText, "subject_" + e.key)]];
      i := i + 1;
    }
  }

  /** `None` for an unknown subject; a `KeyError` when the subject record has no chapters;
      otherwise one row per chapter, in order, followed by the back row. */
  method ChaptersKeyboard(table: Table, subjectKey: string) returns (r: Result<Option<seq<Row>>>)
    ensures Find(table, subjectKey).None? ==> r == Ok(None)
    ensures Find(table, subjectKey).Some? && Find(table, subjectKey).value.chapters.None? ==> r == Err(KeyError)
    ensures Find(table, subjectKey).Some? && Find(table, subjectKey).value.chapters.Some? ==>
      var chapters := Find(table, subjectKey).value.chapters.value;
      && r.Ok? && r.value.Some?
      && |r.value.value| == |chapters| + 1
      && (forall i :: 0 <= i < |chapters| ==> r.value.value[i] == [ChapterButton(subjectKey, chapters[i])])
      && r.value.value[|chapters|] == [BACK_BUTTON]
  {
    var subject := Find(table, subjectKey);
    if subject.None? {
      return Ok(None);
    }
    if subject.value.chapters.None? {
      return Err(KeyError);
    }
    var chapters := subject.value.chapters.value;
    var keyboard: seq<Row> := [];
    var i := 0;
    while i < |chapters|
      invariant 0 <= i <= |chapters|
      invariant |keyboard| == i
      invariant forall k :: 0 <= k < i ==> keyboard[k] == [ChapterButton(subjectKey, chapters[k])]
    {
      keyboard := keyboard + [[Button(chapters[i].name, "quiz_" + subjectKey + "_" + chapters[i].key)]];
      i := i + 1;
    }
    keyboard := keyboard + [[BACK_BUTTON]];
    return Ok(Some(keyboard));
  }

  /** The three buttons shown after a quiz. */
  function QuizActionsKeyboard(): (keyboard: seq<Row>)
    ensures |keyboard| == 3 && forall i :: 0 <= i < 3 ==> |keyboard[i]| == 1
    ensures keyboard[0][0].data == "show_stats" && keyboard[1][0].data == "new_quiz"
      && keyboard[2][0].data == "main_menu"
  {
    [
      [Button("📊 إحصائياتي", "show_stats")],
      [Button("🔄 اختبار جديد", "new_quiz")],
      [Button("🏠 القائمة الرئيسية", "main_menu")]
    ]
  }

  /** Every catalogue subject lacks a `chapters` key, so its chapter keyboard raises. */
  lemma CatalogueChaptersMissing(i: nat)
    requires i < |SUBJECTS|
    ensures Find(SUBJECTS, SUBJECTS[i].key).Some?
    ensures Find(SUBJECTS, SUBJECTS[i].key).value.chapters.None?
  {
    CatalogueShape();
    FindAt(SUBJECTS, i);
  }
}
