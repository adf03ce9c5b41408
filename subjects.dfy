/** The subject catalogue and its lookups with fall-back values. */
module Subjects {
  import opened Common
  import opened Strings

  /** One entry of a subject's optional `chapters` dictionary, in insertion order. */
  datatype Chapter = Chapter(key: string, name: string)

  /** The record stored under a subject key. `chapters` stands for the `chapters` key that the
      chapter keyboard reads; no entry of the catalogue has it. */
  datatype SubjectInfo = SubjectInfo(
    nameAr: string,
    nameEn: string,
    nameShort: string,
    emoji: string,
    description: string,
    chapters: Option<seq<Chapter>>)

  datatype Entry = Entry(key: string, info: SubjectInfo)

  /** A dictionary as its items in insertion order. */
  type Table = seq<Entry>

  const UNKNOWN_NAME_AR: string := "غير معروف"
  const UNKNOWN_NAME_EN: string := "Unknown"
  const DEFAULT_EMOJI: string := "📚"

  const SUBJECTS: Table := [
    Entry("ai", SubjectInfo("الذكاء الاصطناعي", "Artificial Intelligence", "AI", "🤖",
      "مفاهيم الذكاء الاصطناعي والخوارزميات الذكية", None)),
    Entry("networks", SubjectInfo("شبكات الحاسوب", "Computer Networks", "Networks", "📡",
      "بروتوكولات الشبكات والاتصالات", None)),
    Entry("oop", SubjectInfo("البرمجة كائنية التوجه", "Object-Oriented Programming", "OOP", "👨‍💻",
      "مفاهيم OOP والتصميم الكائني", None)),
    Entry("se", SubjectInfo("هندسة البرمجيات", "Software Engineering", "SE", "🛠",
      "دورة حياة البرمجيات والتصميم", None)),
    Entry("ds_algo", SubjectInfo("هياكل البيانات والخوارزميات", "Data Structures & Algorithms", "DS & Algo", "📊",
      "هياكل البيانات الأساسية والمتقدمة", None)),
    Entry("os", SubjectInfo("نظم التشغيل", "Operating Systems", "OS", "⚙️",
      "مفاهيم نظم التشغيل والجدولة", None))
  ]

  function Keys(table: Table): (ks: seq<string>)
    ensures |ks| == |table| && forall i :: 0 <= i < |table| ==> ks[i] == table[i].key
  {
    if table == [] then [] else [table[0].key] + Keys(table[1..])
  }

  predicate DistinctKeys(table: Table) {
    forall i, j :: 0 <= i < j < |table| ==> table[i].key != table[j].key
  }

  /** `table.get(key)`. */
  function Find(table: Table, key: string): (r: Option<SubjectInfo>)
    ensures r.None? <==> key !in Keys(table)
    ensures r.Some? ==> exists i :: 0 <= i < |table| && table[i] == Entry(key, r.value)
  {
    if table == [] then None
    else if table[0].key == key then Some(table[0].info)
    else Find(table[1..], key)
  }

  /** In a table with distinct keys, the entry at a position is what a lookup of its key finds. */
  lemma {:induction false} FindAt(table: Table, i: nat)
    requires DistinctKeys(table) && i < |table|
    ensures Find(table, table[i].key) == Some(table[i].info)
  {
    if i > 0 {
      FindAt(table[1..], i - 1);
    }
  }

  /** The catalogue: exactly six subject keys, in this order, none of them with chapters. */
  lemma CatalogueShape()
    ensures Keys(SUBJECTS) == ["ai", "networks", "oop", "se", "ds_algo", "os"]
    ensures DistinctKeys(SUBJECTS)
    ensures forall i :: 0 <= i < |SUBJECTS| ==> SUBJECTS[i].info.chapters.None?
  {
    CatalogueKeys();
    CatalogueDistinct();
  }

  lemma CatalogueKeys()
    ensures Keys(SUBJECTS) == ["ai", "networks", "oop", "se", "ds_algo", "os"]
  {
  }

  lemma CatalogueDistinct()
    ensures DistinctKeys(SUBJECTS)
  {
  }

  lemma FindInCatalogue(key: string)
    ensures forall i :: 0 <= i < |SUBJECTS| && SUBJECTS[i].key == key ==> Find(SUBJECTS, key) == Some(SUBJECTS[i].info)
  {
    CatalogueShape();
    forall i | 0 <= i < |SUBJECTS| && SUBJECTS[i].key == key {
      FindAt(SUBJECTS, i);
    }
  }

  function GetSubjectName(subjectKey: string): (r: string)
    ensures forall i :: 0 <= i < |SUBJECTS| && SUBJECTS[i].key == subjectKey ==> r == SUBJECTS[i].info.nameAr
    ensures subjectKey !in Keys(SUBJECTS) ==> r == UNKNOWN_NAME_AR
  {
    FindInCatalogue(subjectKey);
    match Find(SUBJECTS, subjectKey)
    case Some(s) => s.nameAr
    case None => UNKNOWN_NAME_AR
  }

  function GetSubjectEmoji(subjectKey: string): (r: string)
    ensures forall i :: 0 <= i < |SUBJECTS| && SUBJECTS[i].key == subjectKey ==> r == SUBJECTS[i].info.emoji
    ensures subjectKey !in Keys(SUBJECTS) ==> r == DEFAULT_EMOJI
  {
    FindInCatalogue(subjectKey);
    match Find(SUBJECTS, subjectKey)
    case Some(s) => s.emoji
    case None => DEFAULT_EMOJI
  }

  function GetSubjectNameEn(subjectKey: string): (r: string)
    ensures forall i :: 0 <= i < |SUBJECTS| && SUBJECTS[i].key == subjectKey ==> r == SUBJECTS[i].info.nameEn
    ensures subjectKey !in Keys(SUBJECTS) ==> r == UNKNOWN_NAME_EN
  {
    FindInCatalogue(subjectKey);
    match Find(SUBJECTS, subjectKey)
    case Some(s) => s.nameEn
    case None => UNKNOWN_NAME_EN
  }

  /** Falls back to the key itself in upper case. */
  function GetSubjectShort(subjectKey: string): (r: string)
    ensures forall i :: 0 <= i < |SUBJECTS| && SUBJECTS[i].key == subjectKey ==> r == SUBJECTS[i].info.nameShort
    ensures subjectKey !in Keys(SUBJECTS) ==> r == Upper(subjectKey)
  {
    FindInCatalogue(subjectKey);
    match Find(SUBJECTS, subjectKey)
    case Some(s) => s.nameShort
    case None => Upper(subjectKey)
  }

  /** "{emoji} {name_ar} ({name_en})", each part with the same fall-back as its own lookup. */
  function GetSubjectFullName(subjectKey: string): (r: string)
    ensures r == GetSubjectEmoji(subjectKey) + " " + GetSubjectName(subjectKey)
                 + " (" + GetSubjectNameEn(subjectKey) + ")"
  {
    var subject := Find(SUBJECTS, subjectKey);
    var nameAr := if subject.Some? then subject.value.nameAr else UNKNOWN_NAME_AR;
    var nameEn := if subject.Some? then subject.value.nameEn else UNKNOWN_NAME_EN;
    var emoji := if subject.Some? then subject.value.emoji else DEFAULT_EMOJI;
    emoji + " " + nameAr + " (" + nameEn + ")"
  }
}
