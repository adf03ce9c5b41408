# Quiz bot core, modelled in Dafny

This project models the core of a Telegram quiz bot for university subjects. A user picks a
subject and a part, receives that part's questions one poll at a time, and at the end gets a
score and some XP. The model covers five pieces of the bot:

- **Question service.** It does the following:
  - checks the structure of question records;
  - shuffles a question's options and remaps the correct index;
  - samples or shuffles whole question sets;
  - normalises the two payload shapes (a bare list, or an object with `questions`);
  - keeps a time-bounded in-memory cache;
  - discovers parts from file names of the form `<anything>_pt<N>.json`, sorted by `N`.
- **Quiz handler.** A state machine over `user_sessions`, the map from a user id to that user's
  running quiz. It covers the two ways of starting a quiz, answering a poll, finishing, and the
  XP formula.
- **Progress store.** The users, quiz sessions and question attempts tables, kept as maps and
  a sequence inside a `Database` object. The two repositories work over it.
- **Records.** `User`, `QuizSession` and `QuestionAttempt`, with their guarded ratio properties.
- **Catalogue and callback codec.** The subject catalogue and its lookups with fallbacks; the
  inline keyboards as rows of (text, callback data) buttons; and the routing of callback data.

A user's entry in `user_sessions` is an `ActiveQuiz` value in the map field
`Quiz.QuizHandler.userSessions`. The handler methods update that map and the `Database` object in
place. Their contracts give the whole new state and keep `QuizHandler.Valid()`. That invariant
says four things about every entry:

- its current index, score and total are in range;
- every one of its questions is an option-shuffled copy, so it has options and a correct index;
- its session row is stored under the same user and total;
- whenever all of its questions carry text, the attempts recorded for its session are exactly
  the questions answered so far, and its score is the number of correct attempts.

A Python exception becomes the `Err` side of `Common.Result`, naming the exception class. Outside
inputs become parameters:

- **Time:** `now`, a whole number of seconds.
- **Randomness:** the draws `random.shuffle` and `random.sample` make, as a `Quiz.Randomness`
  value. Quiz starts also require `Quiz.ValidRandomness`.
- **Remote files:** `remote: map<string, Fetch>`. A path with no entry is a failed request.
- **Local files:** `files: map<string, LocalFile>`, already decoded.
- **Folder listing:** an already-fetched `Listing`.

Modules, one file each:

| module | file | models |
|---|---|---|
| `Common` | `common.dfy` | shared types |
| `Strings` | `strings.dfy` | Python `str` operations |
| `Subjects` | `subjects.dfy` | the subject catalogue |
| `Keyboards` | `keyboards.dfy` | the inline keyboards |
| `Callbacks` | `callbacks.dfy` | callback routing |
| `Models` | `models.dfy` | the records |
| `Repositories` | `repositories.dfy` | the progress store |
| `Questions` | `question_service.dfy` | the question service |
| `Quiz` | `quiz_handler.dfy` | the quiz handler |

## Model

| member | source | states |
|---|---|---|
| Strings.Split | src/handlers/callback_handler.py:28 | `str.split` on one character never returns an empty list |
| Strings.SplitJoin | src/handlers/callback_handler.py:28 | joining the pieces of a split with the separator gives back the string |
| Strings.SplitSingleton | src/handlers/callback_handler.py:28 | a split gives back the string itself as a single piece exactly when the separator does not occur |
| Strings.SplitPiecesLackSeparator | src/handlers/callback_handler.py:28 | no piece of a split contains the separator |
| Strings.SplitAround | src/handlers/callback_handler.py:28 | splitting `a + sep + b` gives the pieces of `a` followed by the pieces of `b` |
| Strings.Upper | src/handlers/quiz_handler.py:175 | same length; each letter `a`-`z` is mapped to its capital, every other character is kept |
| Strings.ReplaceAll | src/handlers/callback_handler.py:23 | `str.replace` leaves a string without the pattern unchanged, and a string starting with the pattern starts with the replacement |
| Strings.RemoveAllIdentity | src/handlers/callback_handler.py:23 | removing every occurrence of a pattern changes the string exactly when the string contains the pattern |
| Strings.DigitSuffix | src/services/question_service.py:198 | the longest run of ASCII digits that ends the string |
| Subjects.CatalogueShape | src/constants/subjects.py:5-48 | the catalogue has exactly the keys ai, networks, oop, se, ds_algo, os, in that order, all distinct, none with chapters |
| Subjects.Find | src/constants/subjects.py:68 | `SUBJECTS.get`: none exactly when the key is absent, otherwise the entry stored under the key |
| Subjects.GetSubjectName | src/constants/subjects.py:50-52 | a catalogue key gives its Arabic name; any other key gives "unknown" in Arabic |
| Subjects.GetSubjectEmoji | src/constants/subjects.py:54-56 | a catalogue key gives its emoji; any other key gives the books emoji |
| Subjects.GetSubjectNameEn | src/constants/subjects.py:58-60 | a catalogue key gives its English name; any other key gives `Unknown` |
| Subjects.GetSubjectShort | src/constants/subjects.py:62-64 | a catalogue key gives its short name; any other key gives the key in upper case |
| Subjects.GetSubjectFullName | src/constants/subjects.py:66-72 | emoji, Arabic name and English name in parentheses, each with its lookup's own fallback |
| Keyboards.MainMenuKeyboard | src/utils/keyboards.py:8-19 | one single-button row per catalogue entry, in table order, with text `emoji name_ar` and data `subject_<key>` |
| Keyboards.ChaptersKeyboard | src/utils/keyboards.py:21-44 | an unknown subject gives none; a subject without chapters gives `KeyError`; otherwise one `quiz_<s>_<c>` row per chapter, in order, then the back row, so the row count is chapters + 1 |
| Keyboards.QuizActionsKeyboard | src/utils/keyboards.py:46-54 | three single-button rows whose data are `show_stats`, `new_quiz` and `main_menu`, in that order |
| Keyboards.CatalogueChaptersMissing | src/utils/keyboards.py:31 | every catalogue subject is found but has no chapters, so its chapter keyboard raises |
| Callbacks.Route | src/handlers/callback_handler.py:19-52 | `subject_` data shows the chapters of the data with every `subject_` removed; other `quiz_` data with fewer than three `_` pieces, and only that data, raises `IndexError`, and with three or more starts the quiz on pieces 1 and 2; the three menu strings open the subject menu; the result is ignored exactly when the data has neither prefix and is none of the three menu strings |
| Callbacks.SubjectRoundTrip | src/handlers/callback_handler.py:22-23 | `subject_<k>` is routed back to `k` exactly when `k` does not itself contain `subject_` |
| Callbacks.MainMenuRoutesHome | src/utils/keyboards.py:13-17 | every main-menu button routes to the chapter screen of its own subject |
| Callbacks.QuizRoundTrip | src/handlers/callback_handler.py:27-30 | `quiz_<s>_<c>` is routed back to `(s, c)` exactly when neither key contains `_` |
| Callbacks.DsAlgoQuizMisrouted | src/constants/subjects.py:34 | quiz data built for the key `ds_algo` is routed to subject `ds`, chapter `algo` |
| Callbacks.SubjectMenuExactly | src/handlers/callback_handler.py:34-52 | the subject menu opens exactly for `back_to_subjects`, `main_menu` and `new_quiz` |
| Callbacks.QuizActionsRouting | src/utils/keyboards.py:46-54 | the after-quiz keyboard has three rows; `show_stats` is ignored, `new_quiz` and `main_menu` open the subject menu with their two greetings |
| Callbacks.ShowChaptersScreen | src/handlers/callback_handler.py:54-67 | an unknown subject gives the not-found screen with no keyboard; a subject without chapters raises `KeyError`; a subject with chapters gives a menu carrying the subject's emoji and name, with one `quiz_<s>_<c>` row per chapter in order and the back row last |
| Models.NewUser | src/database/models.py:11-18 | a new user's two counters are 0 and the other fields are as given |
| Models.Accuracy | src/database/models.py:20-25 | 0 for a user with no answers; otherwise multiplying by the answer count gives 100 times the correct count; within 0-100 when the counts are consistent |
| Models.Percentage | src/database/models.py:39-44 | 0 for an empty session; otherwise multiplying by the total gives 100 times the score; within 0-100 when the score is consistent |
| Models.TruncatedMinutes | src/database/models.py:52 | `int(seconds / 60)`: the whole minutes toward zero, bounded on both sides for either sign |
| Models.DurationMinutes | src/database/models.py:46-52 | 0 without an end time; otherwise the whole minutes elapsed |
| Repositories.FreshUserRow | src/database/db_manager.py:44-54 | a fresh users row has zero questions, zero correct answers and zero XP, and joins at `now` |
| Repositories.Database.constructor | src/database/db_manager.py:44-91 | the three tables start empty and the session counter at 0 |
| Repositories.UserRepository.GetUser | src/database/repositories.py:49-67 | none exactly when no row has the id; otherwise every field of the row: id, both names, both counters and the join date |
| Repositories.UserRepository.CreateUser | src/database/repositories.py:20-47 | an existing id changes nothing and returns the stored user, ignoring the new names; a new id inserts a zeroed row and returns the new user |
| Repositories.UserRepository.UpdateStats | src/database/repositories.py:69-84 | adds the two counts to that user's counters only; an unknown id changes nothing |
| Repositories.InsertLatestFirst | src/database/repositories.py:149 | inserting into a start-time-descending list of distinct ids keeps it descending and distinct, with the new id added |
| Repositories.QuizRepository.CreateSession | src/database/repositories.py:92-108 | the id is the next counter value, never handed out before; the new row has the given user, subject, chapter, total and start time, score 0 and no end time; other rows are unchanged |
| Repositories.QuizRepository.FinishSession | src/database/repositories.py:110-124 | sets end time and score on the matching row only, overwriting earlier values; an unknown id changes nothing |
| Repositories.QuizRepository.SaveAttempt | src/database/repositories.py:126-139 | appends exactly one attempt with the next id and the given fields; earlier rows are untouched |
| Repositories.QuizRepository.OwnedIdsLatestFirst | src/database/repositories.py:146-153 | exactly the user's session ids, each once, latest start first |
| Repositories.QuizRepository.GetUserSessions | src/database/repositories.py:141-169 | at most `limit` rows (all of them for a negative limit), each the stored row of one of the user's sessions; no session twice; latest start first; none left out that started later than one returned |
| Questions.OptionsShortFrom | src/services/question_service.py:291-294 | true exactly when every option from the given index on has at most 100 characters |
| Questions.ValidateQuestion | src/services/question_service.py:271-301 | true exactly when text, options and correct id are present, the text has at most 300 characters, there are 2-10 options of at most 100 characters each, and the correct id is in `[0, len(options))` |
| Questions.ShuffledPermutes | src/services/question_service.py:323 | the Fisher-Yates result is a permutation of its input, of the same length |
| Questions.ShuffleInPlace | src/services/question_service.py:323 | the array afterwards is the Fisher-Yates shuffle of its old contents under the given draws |
| Questions.IndexOf | src/services/question_service.py:326 | `list.index`: the position of the first occurrence of an element known to be present |
| Questions.ShuffleQuestionOptions | src/services/question_service.py:303-329 | missing options or correct id give `KeyError`; an id outside Python's index range gives `IndexError`; otherwise a copy with the same text and explanation, options a permutation of the old ones, and the new id at the first option equal to the old correct text; a valid question's result is valid |
| Questions.PermutedOptionsShort | src/services/question_service.py:291-294 | a permutation of options keeps the all-options-short check |
| Questions.SelectPermutation | src/services/question_service.py:342 | picking every position once gives a permutation of the list |
| Questions.SelectSubMultiset | src/services/question_service.py:269 | picking distinct positions gives a sub-multiset of the list |
| Questions.GetRandomQuestions | src/services/question_service.py:262-269 | a negative count raises `ValueError`; otherwise `min(len, count)` questions taken from distinct positions of the input |
| Questions.ShuffleEach | src/services/question_service.py:345-346 | succeeds exactly when every question can be shuffled, the error being `KeyError` or `IndexError`; each element is replaced by its shuffled copy |
| Questions.ShuffleAllQuestions | src/services/question_service.py:331-349 | the same length as the input; element `i` is the shuffled copy of the question at the `i`-th drawn position; the question texts are a permutation of the input's; it succeeds exactly when every question can be shuffled |
| Questions.Normalize | src/services/question_service.py:91-109 | an object with `questions` is kept as it is; a bare list is wrapped with the given default metadata; any other shape raises `ValueError` |
| Questions.NormalizeIdempotent | src/services/question_service.py:92-94 | normalising a normalised set gives it back |
| Questions.FetchResult | src/services/question_service.py:84-122 | a failed request and an undecodable body give `ConnectionError`; a decoded body is normalised with the four remote defaults, a wrong shape giving `ValueError` |
| Questions.LoadQuestionsFromLocal | src/services/question_service.py:124-167 | a missing file gives `FileNotFoundError`; bad JSON gives `ValueError`; a decoded file is normalised with the two local defaults |
| Questions.LocalPath | src/services/question_service.py:259 | `<subject>/<last path component>` |
| Questions.LocalPathOfRemote | src/services/question_service.py:259 | the remote path `<folder>/<name>` of a part is read locally as `<subject>/<name>` |
| Questions.ParsePartNumber | src/services/question_service.py:194-200 | any digits it returns are non-empty ASCII digits, and the name ends in `_pt<digits>.json` |
| Questions.ParsePartNumberOfName | src/services/question_service.py:198 | conversely, every name `<prefix>_pt<digits>.json` with non-empty digits yields exactly those digits |
| Questions.PartTitles | src/services/question_service.py:203-212 | a failed load gives the "part N" titles in Arabic and English; a successful one takes `title_ar` and `title` from the metadata, each falling back to its "part N" label when the key or the metadata is missing |
| Questions.MakePart | src/services/question_service.py:214-222 | the entry of a matching file: `pt<N>`, the file name, `<folder>/<name>`, the Arabic "part N" display, the two titles of its load and `part_num = N` |
| Questions.InsertByPartNum | src/services/question_service.py:225 | inserting into a list sorted by part number keeps it sorted, with the element added |
| Questions.SortByPartNum | src/services/question_service.py:225 | the result is sorted ascending by part number and is a permutation of the input |
| Questions.SortIsStable | src/services/question_service.py:225 | parts with equal numbers keep their listing order |
| Questions.QuestionService.constructor | src/services/question_service.py:19-40 | the settings are as given, the duration is converted from minutes to seconds, and both cache maps start empty |
| Questions.QuestionService.IsCacheValid | src/services/question_service.py:42-51 | false with caching off or for a key never stamped; otherwise true exactly when the entry's age is below the duration |
| Questions.QuestionService.GetFromCache | src/services/question_service.py:42-58 | an entry exactly when caching is on, the key was stored and its age is below the duration; never when caching is off |
| Questions.QuestionService.SaveToCache | src/services/question_service.py:60-65 | with caching on, stores the data stamped `now`, and with a positive duration it is then served back; with caching off nothing changes |
| Questions.QuestionService.ClearCache | src/services/question_service.py:352-356 | both maps are empty, and nothing is served for any key at any time |
| Questions.QuestionService.LoadQuestionsFromGithub | src/services/question_service.py:67-122 | a fresh cache entry is returned as it is; otherwise the fetch result, `ConnectionError` when no URL is set, cached only when it succeeds and caching is on; no other path's result changes; the cache afterwards is the one a load of that path leaves (`RefreshedBy`) |
| Questions.QuestionService.LoadQuestionsForPart | src/services/question_service.py:237-260 | online with a URL, the remote load; otherwise the local file `<subject>/<last component>` with the cache untouched; the error is one of the three load errors; the cache grows exactly when a remote miss fetches successfully |
| Questions.QuestionService.DiscoverPart | src/services/question_service.py:194-222 | one listed name adds no part and leaves the cache as it was when it does not match the pattern; otherwise the part built from its digits and its metadata load, the cache changed as that one load changes it |
| Questions.QuestionService.DiscoverParts | src/services/question_service.py:193-222 | the discovery loop returns exactly the parts of the matching names, in listing order, as they were before it loaded anything; the cache afterwards is the one the loads of the matching names' paths leave: untouched with caching off, otherwise every entry kept or refreshed by one of those loads, and every successful fetch stored stamped `now` |
| Questions.UnsortedPartsConcat | src/services/question_service.py:193-222 | the parts of a listing are the parts of each of its names, one name after another |
| Questions.QuestionService.GetAvailablePartsFromGithub | src/services/question_service.py:169-235 | a failed listing gives `[]` and leaves the cache untouched; otherwise the parts of the matching names, sorted by part number, with the cache changed as the loads of their paths change it; caching off leaves the cache untouched |
| Questions.UnsortedPartsShape | src/services/question_service.py:193-222 | every discovered part comes from a listed name with its digits: `pt<N>`, `<folder>/<name>`, the fallback display, `part_num = N` and the titles of that file's remote load |
| Questions.QuestionService.RefreshedByStep | src/services/question_service.py:189-222 | one more listed name loaded extends the cache changes of the names before it to the paths of the longer prefix |
| Questions.QuestionService.RefreshedByThen | src/services/question_service.py:189-222 | the cache changes of loads of some paths followed by a load of one more path are those of loads of all of them |
| Questions.PartPathsListed | src/services/question_service.py:189-200 | the paths the discovery loads are exactly `<folder>/<name>` for the listed names that match the pattern |
| Questions.UnsortedPartsCount | src/services/question_service.py:193-222 | exactly one part per listed name that matches the pattern |
| Quiz.CalculateXp | src/handlers/quiz_handler.py:399-413 | a perfect quiz earns total times the per-correct amount plus the bonus; otherwise correct answers times the per-correct amount plus wrong answers times the per-wrong amount |
| Quiz.XpNonNegative | src/handlers/quiz_handler.py:399-413 | with non-negative amounts a quiz never earns negative XP |
| Quiz.XpMonotone | src/handlers/quiz_handler.py:399-413 | when a correct answer is worth at least a wrong one, one more correct answer never lowers the XP |
| Quiz.ChapterTitle | src/handlers/quiz_handler.py:175 | `title_ar`, else `title`, else the part name in upper case |
| Quiz.LegacyMetadata | src/handlers/quiz_handler.py:133-134 | the old-format branch titles the part by its upper-cased name with `PT` replaced by the Arabic word for part |
| Quiz.BareRemoteListTitle | src/handlers/quiz_handler.py:129-131 | a bare list fetched remotely reaches the handler as an object and is titled "unknown" in Arabic |
| Quiz.Picks | src/handlers/quiz_handler.py:138-147 | all positions in a random order, or `min(len, QUESTIONS_PER_QUIZ)` distinct positions; a negative size raises `ValueError` |
| Quiz.SelectQuestions | src/handlers/quiz_handler.py:137-150 | each selected question is the shuffled copy of the question at a drawn position; the selection fails exactly when the draw fails or a drawn question cannot be shuffled |
| Quiz.AttemptsOfAppend | src/handlers/quiz_handler.py:292-298 | appending an attempt extends exactly the log of its own session |
| Quiz.AttemptsOfFresh | src/handlers/quiz_handler.py:152-158 | a session id newer than every recorded attempt has an empty log |
| Quiz.Advance | src/handlers/quiz_handler.py:280-301 | the current index advances by one; the score rises by one exactly when the selected index is the correct one; nothing else changes |
| Quiz.RecordedStep | src/handlers/quiz_handler.py:288-301 | recording the answered question's attempt keeps the log equal to the answered questions and the score equal to the count of correct attempts |
| Quiz.AppendKeepsSession | src/handlers/quiz_handler.py:292-298 | an attempt for another session leaves an entry's facts unchanged |
| Quiz.QuizHandler.constructor | src/handlers/quiz_handler.py:27-33 | both repositories share the database; `user_sessions` starts empty |
| Quiz.QuizHandler.EnsuredUsers | src/handlers/quiz_handler.py:121-123 | an existing user is kept as stored; a missing one is created with zero counters |
| Quiz.QuizHandler.InstallSession | src/handlers/quiz_handler.py:152-170 | opens the next session row and replaces the user's entry with current index 0, score 0 and total equal to the selection size, keeping the invariant |
| Quiz.QuizHandler.EnsureUserAndLoad | src/handlers/quiz_handler.py:120-126 | ensures the user row, then returns the part load at the old cache state, with the cache changed as that load changes it |
| Quiz.QuizHandler.Begin | src/handlers/quiz_handler.py:137-170 | a failed selection changes nothing; a successful one opens the session and installs the fresh entry over any earlier one |
| Quiz.QuizHandler.EntryMetadata | src/handlers/quiz_handler.py:128-170 | the legacy start stores no metadata; a start on a part stores the loaded metadata, or an empty dictionary when there is none |
| Quiz.QuizHandler.StartPart | src/handlers/quiz_handler.py:105-170 | the steps both starts share: user ensured, the part loaded with the cache changed as that load changes it, the selection made and, when it succeeds, the session row opened and the fresh entry installed; a failed load or selection opens no session |
| Quiz.QuizHandler.StartQuizForPart | src/handlers/quiz_handler.py:105-224 | user ensured. A load error ends the start with nothing else changed. A failed selection opens no session. Otherwise a new session row and a fresh entry with the part's metadata. Then an empty selection gives `IndexError` and a first question without text gives `KeyError`, the entry staying; otherwise the catalogue name and emoji, the chapter title and the count |
| Quiz.QuizHandler.StartQuizCommand | src/handlers/quiz_handler.py:35-103 | the same start on `test_quiz.json` as subject `test`, chapter `general`, without metadata; an empty selection finishes at once and raises `ZeroDivisionError` |
| Quiz.QuizHandler.FinishQuiz | src/handlers/quiz_handler.py:366-397 | no entry gives nothing; a total of 0 raises `ZeroDivisionError` before any change; otherwise the session row gets end time and final score; if the XP calls return, the summary is returned and the entry deleted; if they raise, the entry stays |
| Quiz.QuizHandler.HandlePollAnswer | src/handlers/quiz_handler.py:266-331 | no entry changes nothing; an empty answer or exhausted question list raises `IndexError` with no change. The score rises exactly on a correct answer. One attempt is appended with the session id, text, selected index, correct index and flag; the current index advances by one. At the end the quiz finishes; otherwise the next question number is reported |
| Quiz.QuizHandler.RaiseScoreOnly | src/handlers/quiz_handler.py:288-298 | a question without text gets its raised score but no attempt and no advance |
| Quiz.QuizHandler.RecordAnswer | src/handlers/quiz_handler.py:291-301 | appends the one attempt for the current question and advances the entry, keeping the invariant |
| Quiz.ScoreBounds | src/handlers/quiz_handler.py:164-166 | in a valid handler, an entry whose questions all carry text has `0 <= score <= current <= total`; its score is the count of correct attempts recorded for its session, one per answered question |

## Left out

- Telegram I/O is not modelled. That covers polls, messages, edits, replies, the sleeps and
  the text of every message, including `create_result_message` and the exit-button message
  after the first question. A failed send is not modelled either.
- `bot.py`, the start handler and the statistics handler are not part of this model. They are
  presentation only and rely on a statistics repository the code does not define.
- SQLite is not modelled: connections, SQL text and table creation. Foreign keys are not
  enforced. The `timestamp` and start-time defaults are taken to be `now`. Rows with equal
  start times are in one fixed order, where SQLite leaves the order open.
- HTTP, JSON decoding and file-system checks are not modelled. The model takes their outcome
  as an input.
- `random.shuffle` and `random.sample` are not modelled; the model takes their draws as an input
  and requires the draws to be possible.
- `datetime.now()` is replaced by the `now` parameter.
- Configuration is taken as handler parameters, because `config.py` defines only `BOT_TOKEN` and
  `DATABASE_URL`. The parameters are the question directory, the remote URL, the online and
  cache switches, `USE_ALL_QUESTIONS`, `QUESTIONS_PER_QUIZ`, the three XP amounts and the start
  message. The module-level service and repositories become the handler's fields.
- The levelling engine, `add_xp` and the four-argument `update_stats` called after a quiz are
  not modelled. The repository defines neither call. `xpRecorded` says whether the two calls
  return normally, and the users table is left untouched by the finish.
- `quiz_exit_keyboard`, which the quiz handler imports, is not defined in `keyboards.py`. Its
  keyboard is not modelled.
- `start_quiz_for_subject`, which the callback handler imports, does not exist. Routing stops at
  the `StartQuiz` action.
- Session abort is not modelled; no file of the bot implements it.
- Logging is not modelled.
- Percentages are not modelled exactly. `round(score / total * 100)` appears only in the result
  message, so only its division by zero is kept. The record ratios are exact `real` values,
  where Python uses floating point.
- `Strings.Upper` capitalises ASCII letters only, and digits are ASCII only. Python's
  `str.upper` and `\d` also cover other scripts.
- Questions.SortByPartNum: the sort is stated on values. The in-place `list.sort` on the parts
  list is not modelled.
- The bare-list branch of `start_quiz_for_part` can never run. Loading a part always returns an
  object, so `Quiz.LegacyMetadata` describes it but no start takes it.
- Quiz.ScoreBounds: stated only for entries whose questions all carry text. A question without
  text raises the score before the attempt row fails with `KeyError`, and the current index does not
  advance. Answering it again raises the score again, so `score <= current` does not hold for
  such an entry.
- Questions.QuestionService.LoadQuestionsFromGithub: `remote` is what the configured URL serves.
  Any URL other than the empty string (which stands for `None`) is taken to reach that
  repository; a malformed URL is not modelled.
- Questions.FetchResult: a body that is not JSON gives `ConnectionError`. This follows
  `requests` 2.27 and later, where the decode error `response.json()` raises is one of its
  request errors, so the first handler catches it. Older versions would give `ValueError`.
- Metadata is a `map<string, string>`. A `null` metadata value and a title that is not a string
  cannot be represented, so the `AttributeError` one of them raises where the handler reads the
  title (`src/handlers/quiz_handler.py:175`) is not modelled.
- Questions.QuestionService.GetFromCache: a key whose stored entry is empty would count as a
  miss in Python. Every cached value here is a non-empty set, so the model has no such case.
