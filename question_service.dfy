/** Question records, their validation and shuffling, question selection, payload
    normalisation, and the question service with its time-bounded cache and part discovery. */
module Questions {
  import opened Common
  import opened Strings

  /** A question record as decoded from JSON; a field the record lacks is `None`. */
  datatype Question = Question(
    text: Option<string>,               // 'question'
    options: Option<seq<string>>,       // 'options'
    correctOptionId: Option<int>,       // 'correct_option_id'
    explanation: Option<string>)        // 'explanation'

  type Metadata = map<string, string>

  /** `{'metadata': ..., 'questions': [...]}`; `metadata` is `None` when the key is absent. */
  datatype QuestionSet = QuestionSet(metadata: Option<Metadata>, questions: seq<Question>)

  /** A decoded JSON document: a bare list of questions, an object (with or without the
      `metadata` and `questions` keys), or any other JSON value. */
  datatype Payload =
    | ListPayload(items: seq<Question>)
    | ObjectPayload(meta: Option<Metadata>, questionList: Option<seq<Question>>)
    | OtherPayload

  // ---------------------------------------------------------------- validation

  const MAX_QUESTION_LENGTH: nat := 300
  const MIN_OPTIONS: nat := 2
  const MAX_OPTIONS: nat := 10
  const MAX_OPTION_LENGTH: nat := 100

  /** The option scan of the validator, from position `i` on. */
  function OptionsShortFrom(options: seq<string>, i: nat): (ok: bool)
    requires i <= |options|
    ensures ok <==> forall k :: i <= k < |options| ==> |options[k]| <= MAX_OPTION_LENGTH
    decreases |options| - i
  {
    if i == |options| then true
    else if |options[i]| > MAX_OPTION_LENGTH then false
    else OptionsShortFrom(options, i + 1)
  }

  /** The structural check of a question record, in the order the validator makes it. */
  function ValidateQuestion(q: Question): (ok: bool)
    ensures ok <==>
      && q.text.Some? && q.options.Some? && q.correctOptionId.Some?
      && |q.text.value| <= MAX_QUESTION_LENGTH
      && MIN_OPTIONS <= |q.options.value| <= MAX_OPTIONS
      && (forall o :: o in q.options.value ==> |o| <= MAX_OPTION_LENGTH)
      && 0 <= q.correctOptionId.value < |q.options.value|
  {
    if q.text.None? || q.options.None? || q.correctOptionId.None? then false
    else if |q.text.value| > MAX_QUESTION_LENGTH then false
    else if |q.options.value| < MIN_OPTIONS || |q.options.value| > MAX_OPTIONS then false
    else if !OptionsShortFrom(q.options.value, 0) then false
    else 0 <= q.correctOptionId.value < |q.options.value|
  }

  // ---------------------------------------------------------------- option shuffling

  /** The draws `random.shuffle` makes on a list of length `n`: for i = n-1 down to 1, one
      index j with 0 <= j <= i. Draw k belongs to i = n-1-k. */
  predicate DrawsFit(n: nat, draws: seq<nat>) {
    forall k :: 0 <= k < |draws| ==> draws[k] + k < n
  }

  predicate ValidDraws(n: nat, draws: seq<nat>) {
    DrawsFit(n, draws) && |draws| == (if n == 0 then 0 else n - 1)
  }

  function SwapAt<T>(s: seq<T>, i: nat, j: nat): (r: seq<T>)
    requires i < |s| && j < |s|
    ensures |r| == |s|
  {
    s[i := s[j]][j := s[i]]
  }

  /** What the first `k` draws of `random.shuffle` do to a list: draw number m (from 0) swaps
      position n-1-m with the drawn position. */
  function Shuffled<T>(s: seq<T>, draws: seq<nat>, k: nat): (r: seq<T>)
    requires DrawsFit(|s|, draws) && k <= |draws|
    ensures |r| == |s|
  {
    if k == 0 then s
    else
      assert draws[k - 1] + (k - 1) < |s|;
      SwapAt(Shuffled(s, draws, k - 1), |s| - k, draws[k - 1])
  }

  lemma ShuffledSucc<T>(s: seq<T>, draws: seq<nat>, k: nat)
    requires DrawsFit(|s|, draws) && k < |draws|
    ensures k < |s| && draws[k] <= |s| - 1 - k
    ensures Shuffled(s, draws, k + 1) == SwapAt(Shuffled(s, draws, k), |s| - 1 - k, draws[k])
  {
    assert draws[k] + k < |s|;
  }

  lemma SwapPermutes<T>(s: seq<T>, i: nat, j: nat)
    requires i < |s| && j < |s|
    ensures multiset(SwapAt(s, i, j)) == multiset(s)
  {
  }

  /** A shuffle only permutes the list. */
  lemma {:induction false} ShuffledPermutes<T>(s: seq<T>, draws: seq<nat>, k: nat)
    requires DrawsFit(|s|, draws) && k <= |draws|
    ensures multiset(Shuffled(s, draws, k)) == multiset(s)
  {
    if k > 0 {
      var prev := Shuffled(s, draws, k - 1);
      var i, j := |s| - k, draws[k - 1];
      assert j + (k - 1) < |s|;
      assert Shuffled(s, draws, k) == SwapAt(prev, i, j);
      ShuffledPermutes(s, draws, k - 1);
      SwapPermutes(prev, i, j);
    }
  }

  /** Exchanges two cells of an array. */
  method Swap(a: array<string>, i: nat, j: nat)
    requires i < a.Length && j < a.Length
    modifies a
    ensures a[..] == SwapAt(old(a[..]), i, j)
  {
    var t := a[i];
    a[i] := a[j];
    a[j] := t;
  }

  /** `random.shuffle` on an array, one swap per draw from the last position down. */
  method ShuffleInPlace(a: array<string>, draws: seq<nat>)
    requires DrawsFit(a.Length, draws)
    modifies a
    ensures a[..] == Shuffled(old(a[..]), draws, |draws|)
  {
    ghost var original := a[..];
    var k := 0;
    while k < |draws|
      invariant 0 <= k <= |draws| && |original| == a.Length
      invariant a[..] == Shuffled(original, draws, k)
    {
      ShuffledSucc(original, draws, k);
      Swap(a, a.Length - 1 - k, draws[k]);
      k := k + 1;
    }
  }

  /** `list.index`: the first position holding `x`, which must occur. */
  method IndexOf(s: seq<string>, x: string) returns (idx: nat)
    requires x in s
    ensures idx < |s| && s[idx] == x
    ensures forall j :: 0 <= j < idx ==> s[j] != x
  {
    idx := 0;
    while s[idx] != x
      invariant 0 <= idx < |s|
      invariant forall j :: 0 <= j < idx ==> s[j] != x
      invariant x in s[idx..]
      decreases |s| - idx
    {
      assert s[idx..] == [s[idx]] + s[idx + 1..];
      idx := idx + 1;
    }
  }

  /** Python list indexing: negative indices count from the end. */
  predicate InPythonRange(i: int, n: nat) {
    -(n as int) <= i < n
  }

  function PythonIndex(i: int, n: nat): (k: nat)
    requires InPythonRange(i, n)
    ensures k < n
    ensures i >= 0 ==> k == i
    ensures i < 0 ==> k == n + i
  {
    if i < 0 then i + n else i
  }

  /** The fields option shuffling reads are present and the correct index is in range. */
  predicate Shufflable(q: Question) {
    q.options.Some? && q.correctOptionId.Some? && InPythonRange(q.correctOptionId.value, |q.options.value|)
  }

  predicate DrawsFor(q: Question, draws: seq<nat>) {
    q.options.Some? ==> ValidDraws(|q.options.value|, draws)
  }

  /** `shuffled` is `original` with its options permuted and the correct index moved to the
      first option that carries the text that was correct; every other field is copied. */
  predicate ShuffledCopy(original: Question, shuffled: Question) {
    && Shufflable(original)
    && shuffled.text == original.text
    && shuffled.explanation == original.explanation
    && shuffled.options.Some? && shuffled.correctOptionId.Some?
    && var before, after := original.options.value, shuffled.options.value;
       var id := shuffled.correctOptionId.value;
       && |after| == |before|
       && multiset(after) == multiset(before)
       && 0 <= id < |after|
       && after[id] == before[PythonIndex(original.correctOptionId.value, |before|)]
       && (forall j :: 0 <= j < id ==> after[j] != after[id])
  }

  /** A permutation of options keeps every option's length bound. */
  lemma PermutedOptionsShort(before: seq<string>, after: seq<string>)
    requires multiset(after) == multiset(before)
    requires forall o :: o in before ==> |o| <= MAX_OPTION_LENGTH
    ensures forall o :: o in after ==> |o| <= MAX_OPTION_LENGTH
  {
    forall o | o in after ensures |o| <= MAX_OPTION_LENGTH {
      assert o in multiset(before);
    }
  }

  /** Option shuffling on a copy: `KeyError` when `options` or `correct_option_id` is missing,
      `IndexError` when the index is outside the list; otherwise the options in the order
      `random.shuffle` leaves them for these draws, and the correct index found again with
      `list.index`. A valid question stays valid. */
  method ShuffleQuestionOptions(q: Question, draws: seq<nat>) returns (r: Result<Question>)
    requires DrawsFor(q, draws)
    ensures q.options.None? || q.correctOptionId.None? ==> r == Err(KeyError)
    ensures q.options.Some? && q.correctOptionId.Some? && !Shufflable(q) ==> r == Err(IndexError)
    ensures Shufflable(q) ==>
      && r.Ok? && ShuffledCopy(q, r.value)
      && r.value.options.value == Shuffled(q.options.value, draws, |draws|)
    ensures ValidateQuestion(q) ==> r.Ok? && ValidateQuestion(r.value)
  {
    if q.options.None? || q.correctOptionId.None? {
      return Err(KeyError);
    }
    var options := q.options.value;
    var n := |options|;
    if !InPythonRange(q.correctOptionId.value, n) {
      return Err(IndexError);
    }
    var correctText := options[PythonIndex(q.correctOptionId.value, n)];
    // random.shuffle(shuffled_q['options'])
    var a := new string[n](i requires 0 <= i < n => options[i]);
    assert a[..] == options;
    ShuffleInPlace(a, draws);
    var shuffled := a[..];
    ShuffledPermutes(options, draws, |draws|);
    assert correctText in multiset(shuffled);
    var idx := IndexOf(shuffled, correctText);
    r := Ok(q.(options := Some(shuffled), correctOptionId := Some(idx)));
    if ValidateQuestion(q) {
      PermutedOptionsShort(options, shuffled);
    }
  }

  // ---------------------------------------------------------------- selection

  /** Distinct positions of a list of length `n`. */
  predicate DistinctIndices(picks: seq<nat>, n: nat) {
    && (forall i :: 0 <= i < |picks| ==> picks[i] < n)
    && (forall i, j :: 0 <= i < j < |picks| ==> picks[i] != picks[j])
  }

  function Select<T>(s: seq<T>, picks: seq<nat>): (r: seq<T>)
    requires forall i :: 0 <= i < |picks| ==> picks[i] < |s|
    ensures |r| == |picks| && forall i :: 0 <= i < |picks| ==> r[i] == s[picks[i]]
  {
    seq(|picks|, i requires 0 <= i < |picks| => s[picks[i]])
  }

  /** The list without position `j`, and the positions below and above it renumbered to match. */
  function Without<T>(s: seq<T>, j: nat): (r: seq<T>)
    requires j < |s|
    ensures |r| == |s| - 1
    ensures multiset(s) == multiset(r) + multiset{s[j]}
  {
    assert s == s[..j] + [s[j]] + s[j + 1..];
    s[..j] + s[j + 1..]
  }

  function Renumbered(picks: seq<nat>, j: nat): (r: seq<nat>)
    requires forall i :: 0 <= i < |picks| ==> picks[i] != j
    ensures |r| == |picks|
  {
    seq(|picks|, i requires 0 <= i < |picks| => if picks[i] < j then picks[i] else picks[i] - 1)
  }

  lemma WithoutRenumbered<T>(s: seq<T>, picks: seq<nat>, j: nat)
    requires j < |s| && DistinctIndices(picks, |s|) && forall i :: 0 <= i < |picks| ==> picks[i] != j
    ensures DistinctIndices(Renumbered(picks, j), |s| - 1)
    ensures Select(Without(s, j), Renumbered(picks, j)) == Select(s, picks)
  {
    var s', picks' := Without(s, j), Renumbered(picks, j);
    forall i | 0 <= i < |picks|
      ensures picks'[i] < |s'| && s'[picks'[i]] == s[picks[i]]
    {
    }
  }

  /** Drawing from distinct positions takes each element at most as often as it occurs. */
  lemma {:induction false} SelectSubMultiset<T>(s: seq<T>, picks: seq<nat>)
    requires DistinctIndices(picks, |s|)
    ensures multiset(Select(s, picks)) <= multiset(s)
    decreases |picks|
  {
    if picks != [] {
      var last := |picks| - 1;
      var j := picks[last];
      var rest := picks[..last];
      assert forall i :: 0 <= i < |rest| ==> rest[i] != j;
      WithoutRenumbered(s, rest, j);
      SelectSubMultiset(Without(s, j), Renumbered(rest, j));
      assert Select(s, picks) == Select(s, rest) + [s[j]];
    }
  }

  /** Drawing every position once is a permutation. */
  lemma SelectPermutation<T>(s: seq<T>, picks: seq<nat>)
    requires DistinctIndices(picks, |s|) && |picks| == |s|
    ensures multiset(Select(s, picks)) == multiset(s)
  {
    SelectSubMultiset(s, picks);
    var a, b := multiset(Select(s, picks)), multiset(s);
    assert b == a + (b - a);
    assert |b - a| == 0;
  }

  /** `random.sample(questions, min(len(questions), count))`: a negative count raises
      `ValueError`; otherwise exactly that many questions from distinct positions. */
  function GetRandomQuestions(questions: seq<Question>, count: int, picks: seq<nat>): (r: Result<seq<Question>>)
    requires count >= 0 ==> |picks| == Min(|questions|, count) && DistinctIndices(picks, |questions|)
    ensures count < 0 <==> r.Err?
    ensures r.Err? ==> r.error == ValueError
    ensures r.Ok? ==>
      && |r.value| == Min(|questions|, count)
      && multiset(r.value) <= multiset(questions)
      && forall i :: 0 <= i < |r.value| ==> r.value[i] == questions[picks[i]]
  {
    if Min(|questions|, count) < 0 then Err(ValueError)
    else
      SelectSubMultiset(questions, picks);
      Ok(Select(questions, picks))
  }

  predicate DrawsForEach(questions: seq<Question>, draws: seq<seq<nat>>) {
    |draws| == |questions| && forall i :: 0 <= i < |questions| ==> DrawsFor(questions[i], draws[i])
  }

  /** Replaces each question by its option-shuffled copy, stopping at the first that raises. */
  method ShuffleEach(questions: seq<Question>, draws: seq<seq<nat>>) returns (r: Result<seq<Question>>)
    requires DrawsForEach(questions, draws)
    ensures r.Ok? <==> forall i :: 0 <= i < |questions| ==> Shufflable(questions[i])
    ensures r.Err? ==> r.error == KeyError || r.error == IndexError
    ensures r.Ok? ==>
      && |r.value| == |questions|
      && forall i :: 0 <= i < |questions| ==> ShuffledCopy(questions[i], r.value[i])
  {
    var result := questions;
    var i := 0;
    while i < |questions|
      invariant 0 <= i <= |questions| && |result| == |questions|
      invariant forall k :: 0 <= k < i ==> ShuffledCopy(questions[k], result[k])
      invariant forall k :: i <= k < |questions| ==> result[k] == questions[k]
    {
      var s := ShuffleQuestionOptions(result[i], draws[i]);
      if s.Err? {
        return Err(s.error);
      }
      result := result[i := s.value];
      i := i + 1;
    }
    return Ok(result);
  }

  function Texts(questions: seq<Question>): (ts: seq<Option<string>>)
    ensures |ts| == |questions| && forall i :: 0 <= i < |questions| ==> ts[i] == questions[i].text
  {
    seq(|questions|, i requires 0 <= i < |questions| => questions[i].text)
  }

  /** Question order drawn by `random.sample(questions, len(questions))`, then each question's
      options shuffled. The result is as long as the input, its i-th question is the shuffled
      copy of the question at the i-th drawn position, and its question texts are a
      permutation of the input's. */
  method ShuffleAllQuestions(questions: seq<Question>, picks: seq<nat>, draws: seq<seq<nat>>)
    returns (r: Result<seq<Question>>)
    requires |picks| == |questions| && DistinctIndices(picks, |questions|)
    requires DrawsForEach(Select(questions, picks), draws)
    ensures r.Ok? <==> forall i :: 0 <= i < |questions| ==> Shufflable(questions[i])
    ensures r.Ok? <==> forall i :: 0 <= i < |picks| ==> Shufflable(questions[picks[i]])
    ensures r.Err? ==> r.error == KeyError || r.error == IndexError
    ensures r.Ok? ==>
      && |r.value| == |questions|
      && (forall i :: 0 <= i < |questions| ==> ShuffledCopy(questions[picks[i]], r.value[i]))
      && multiset(Texts(r.value)) == multiset(Texts(questions))
  {
    var sample := Select(questions, picks);
    SelectPermutation(questions, picks);
    r := ShuffleEach(sample, draws);
    forall j | 0 <= j < |questions| ensures questions[j] in sample {
      assert questions[j] in multiset(sample);
    }
    if r.Ok? {
      assert Texts(r.value) == Select(Texts(questions), picks);
      SelectPermutation(Texts(questions), picks);
    }
  }

  // ---------------------------------------------------------------- payload normalisation

  /** Metadata given to a bare list fetched from the remote repository. */
  const REMOTE_DEFAULT_METADATA: Metadata :=
    map["title" := "Unknown", "title_ar" := "غير معروف", "description" := "", "difficulty" := "medium"]

  /** Metadata given to a bare list read from a local file. */
  const LOCAL_DEFAULT_METADATA: Metadata :=
    map["title" := "Unknown", "title_ar" := "غير معروف"]

  /** An object with `questions` is kept as it is; a bare list is wrapped with the defaults;
      anything else raises `ValueError`. */
  function Normalize(data: Payload, defaults: Metadata): (r: Result<QuestionSet>)
    ensures data.ObjectPayload? && data.questionList.Some? ==> r == Ok(QuestionSet(data.meta, data.questionList.value))
    ensures data.ListPayload? ==> r == Ok(QuestionSet(Some(defaults), data.items))
    ensures r.Err? <==> data.OtherPayload? || (data.ObjectPayload? && data.questionList.None?)
    ensures r.Err? ==> r.error == ValueError
  {
    match data
    case ObjectPayload(meta, Some(qs)) => Ok(QuestionSet(meta, qs))
    case ListPayload(items) => Ok(QuestionSet(Some(defaults), items))
    case _ => Err(ValueError)
  }

  /** The object form of a normalised set. */
  function AsPayload(s: QuestionSet): Payload {
    ObjectPayload(s.metadata, Some(s.questions))
  }

  /** Normalising is idempotent: what it returns normalises to itself. */
  lemma NormalizeIdempotent(data: Payload, defaults: Metadata, other: Metadata)
    requires Normalize(data, defaults).Ok?
    ensures Normalize(AsPayload(Normalize(data, defaults).value), other) == Normalize(data, defaults)
  {
  }

  // ---------------------------------------------------------------- the outside world

  /** What one HTTP GET of a question file yields. */
  datatype Fetch = Fetched(payload: Payload) | RequestFailed | UndecodableBody

  /** What reading a local question file yields. */
  datatype LocalFile = Decoded(payload: Payload) | Malformed

  /** What listing a folder through the repository API yields. */
  datatype Listing = Listed(names: seq<string>) | ListingFailed

  /** The remote repository, by path; a path it does not serve fails the request. */
  function FetchAt(remote: map<string, Fetch>, path: string): Fetch {
    if path in remote then remote[path] else RequestFailed
  }

  /** A remote load that misses the cache: `ConnectionError` for a failed request and for a
      body that is not JSON (the decode error of `requests` is one of its request errors, so
      the first handler catches it), `ValueError` for JSON of the wrong shape. */
  function FetchResult(f: Fetch): (r: Result<QuestionSet>)
    ensures f.RequestFailed? ==> r == Err(ConnectionError)
    ensures f.UndecodableBody? ==> r == Err(ConnectionError)
    ensures f.Fetched? ==> r == Normalize(f.payload, REMOTE_DEFAULT_METADATA)
  {
    match f
    case RequestFailed => Err(ConnectionError)
    case UndecodableBody => Err(ConnectionError)
    case Fetched(p) => Normalize(p, REMOTE_DEFAULT_METADATA)
  }

  /** A local load: `FileNotFound` for a missing file, `ValueError` for bad JSON or a wrong
      shape, otherwise the normalised set with the shorter local defaults. */
  function LoadQuestionsFromLocal(filename: string, files: map<string, LocalFile>): (r: Result<QuestionSet>)
    ensures filename !in files ==> r == Err(FileNotFound)
    ensures filename in files && files[filename].Malformed? ==> r == Err(ValueError)
    ensures filename in files && files[filename].Decoded? ==> r == Normalize(files[filename].payload, LOCAL_DEFAULT_METADATA)
  {
    if filename !in files then Err(FileNotFound)
    else match files[filename]
      case Malformed => Err(ValueError)
      case Decoded(p) => Normalize(p, LOCAL_DEFAULT_METADATA)
  }

  /** `f"{subject}/{part_filepath.split('/')[-1]}"`. */
  function LocalPath(subject: string, partFilepath: string): string {
    subject + "/" + LastPiece(partFilepath, '/')
  }

  /** The local path keeps the subject folder and the file name of a remote path. */
  lemma LocalPathOfRemote(subject: string, folder: string, name: string)
    requires '/' !in name
    ensures LocalPath(subject, folder + "/" + name) == subject + "/" + name
  {
    assert folder + "/" + name == folder + ['/'] + name;
    SplitAround(folder, '/', name);
    SplitSingleton(name, '/');
  }

  // ---------------------------------------------------------------- part discovery

  datatype PartInfo = PartInfo(
    part: string,
    file: string,
    filepath: string,
    display: string,
    titleAr: string,
    titleEn: string,
    partNum: nat)

  /** The digits N of a file name matching `_pt(\d+)\.json$`, if it matches. */
  function ParsePartNumber(name: string): (r: Option<string>)
    ensures r.Some? ==> |r.value| > 0 && AllDigits(r.value) && EndsWith(name, "_pt" + r.value + ".json")
  {
    if !EndsWith(name, ".json") then None
    else
      var stem := name[..|name| - 5];
      var digits := DigitSuffix(stem);
      if |digits| > 0 && EndsWith(stem[..|stem| - |digits|], "_pt") then
        assert name == stem + ".json";
        assert stem == stem[..|stem| - |digits|] + digits;
        assert name[|name| - |"_pt" + digits + ".json"|..] == "_pt" + digits + ".json";
        Some(digits)
      else None
  }

  /** Every name built by the part-file convention is recognised, with its own digits. */
  lemma ParsePartNumberOfName(prefix: string, digits: string)
    requires |digits| > 0 && AllDigits(digits)
    ensures ParsePartNumber(prefix + "_pt" + digits + ".json") == Some(digits)
  {
    var name := prefix + "_pt" + digits + ".json";
    assert EndsWith(name, ".json");
    var stem := name[..|name| - 5];
    assert stem == prefix + "_pt" + digits;
    DigitSuffixOf(prefix + "_pt", digits);
    assert stem[..|stem| - |digits|] == prefix + "_pt";
  }

  lemma {:induction false} DigitSuffixOf(head: string, digits: string)
    requires AllDigits(digits) && |head| > 0 && !IsDigit(head[|head| - 1])
    ensures DigitSuffix(head + digits) == digits
    decreases |digits|
  {
    if digits == [] {
      assert head + digits == head;
    } else {
      var d := digits[..|digits| - 1];
      assert (head + digits)[..|head + digits| - 1] == head + d;
      DigitSuffixOf(head, d);
      assert digits == d + [digits[|digits| - 1]];
    }
  }

  /** The two titles of a part: from the loaded metadata when the load succeeded, key by key,
      with the "Part N" labels as the fallback for a missing key, missing metadata or a
      failed load. */
  function PartTitles(loaded: Result<QuestionSet>, digits: string): (titles: (string, string))
    ensures loaded.Err? ==> titles == ("الجزء " + digits, "Part " + digits)
    ensures loaded.Ok? && loaded.value.metadata.Some? && "title_ar" in loaded.value.metadata.value ==>
      titles.0 == loaded.value.metadata.value["title_ar"]
    ensures loaded.Ok? && loaded.value.metadata.Some? && "title" in loaded.value.metadata.value ==>
      titles.1 == loaded.value.metadata.value["title"]
    ensures loaded.Ok? && (loaded.value.metadata.None? || "title_ar" !in loaded.value.metadata.value) ==>
      titles.0 == "الجزء " + digits
    ensures loaded.Ok? && (loaded.value.metadata.None? || "title" !in loaded.value.metadata.value) ==>
      titles.1 == "Part " + digits
  {
    var fallbackAr, fallbackEn := "الجزء " + digits, "Part " + digits;
    if loaded.Err? then (fallbackAr, fallbackEn)
    else
      var metadata := if loaded.value.metadata.Some? then loaded.value.metadata.value else map[];
      ( if "title_ar" in metadata then metadata["title_ar"] else fallbackAr,
        if "title" in metadata then metadata["title"] else fallbackEn )
  }

  /** The entry of one matching file: its id `pt<N>`, the file's name and path, an Arabic
      display label, the two titles and the numeric part number. */
  function MakePart(folderName: string, name: string, digits: string, loaded: Result<QuestionSet>): (p: PartInfo)
    requires AllDigits(digits)
    ensures p.part == "pt" + digits && p.file == name && p.filepath == folderName + "/" + name
    ensures p.display == "الجزء " + digits && p.partNum == DigitsValue(digits)
    ensures p.titleAr == PartTitles(loaded, digits).0 && p.titleEn == PartTitles(loaded, digits).1
  {
    var titles := PartTitles(loaded, digits);
    PartInfo("pt" + digits, name, folderName + "/" + name, "الجزء " + digits, titles.0, titles.1, DigitsValue(digits))
  }

  // Stable insertion sort by part number, the model of `list.sort(key=...)`.

  predicate SortedByPartNum(parts: seq<PartInfo>) {
    forall i, j :: 0 <= i < j < |parts| ==> parts[i].partNum <= parts[j].partNum
  }

  /** The parts numbered `n`, in their order. */
  function WithPartNum(parts: seq<PartInfo>, n: nat): (r: seq<PartInfo>)
    ensures forall p :: p in r ==> p.partNum == n
  {
    if parts == [] then []
    else (if parts[0].partNum == n then [parts[0]] else []) + WithPartNum(parts[1..], n)
  }

  lemma WithPartNumCons(p: PartInfo, parts: seq<PartInfo>, n: nat)
    ensures WithPartNum([p] + parts, n) == (if p.partNum == n then [p] else []) + WithPartNum(parts, n)
  {
    assert ([p] + parts)[1..] == parts;
  }

  function InsertByPartNum(p: PartInfo, sorted: seq<PartInfo>): (r: seq<PartInfo>)
    ensures |r| == |sorted| + 1
    ensures multiset(r) == multiset(sorted) + multiset{p}
    ensures SortedByPartNum(sorted) ==> SortedByPartNum(r)
  {
    if sorted == [] || p.partNum <= sorted[0].partNum then
      InsertAtFront(p, sorted);
      [p] + sorted
    else
      var rest := InsertByPartNum(p, sorted[1..]);
      InsertAboveHead(p, sorted, rest);
      [sorted[0]] + rest
  }

  lemma InsertAtFront(p: PartInfo, sorted: seq<PartInfo>)
    requires sorted == [] || p.partNum <= sorted[0].partNum
    ensures SortedByPartNum(sorted) ==> SortedByPartNum([p] + sorted)
  {
    if SortedByPartNum(sorted) {
      forall k | 0 <= k < |sorted| ensures p.partNum <= sorted[k].partNum {
        assert sorted[0].partNum <= sorted[k].partNum;
      }
      ConsSorted(p, sorted);
    }
  }

  lemma InsertAboveHead(p: PartInfo, sorted: seq<PartInfo>, rest: seq<PartInfo>)
    requires sorted != [] && sorted[0].partNum < p.partNum
    requires multiset(rest) == multiset(sorted[1..]) + multiset{p}
    requires SortedByPartNum(sorted[1..]) ==> SortedByPartNum(rest)
    ensures multiset([sorted[0]] + rest) == multiset(sorted) + multiset{p}
    ensures SortedByPartNum(sorted) ==> SortedByPartNum([sorted[0]] + rest)
  {
    assert sorted == [sorted[0]] + sorted[1..];
    if SortedByPartNum(sorted) {
      assert SortedByPartNum(sorted[1..]);
      forall k | 0 <= k < |rest| ensures sorted[0].partNum <= rest[k].partNum {
        HeadBelowRest(p, sorted, rest[k]);
      }
      ConsSorted(sorted[0], rest);
    }
  }

  /** In a sorted list, an element of the tail or a larger one is no smaller than the head. */
  lemma HeadBelowRest(p: PartInfo, sorted: seq<PartInfo>, x: PartInfo)
    requires sorted != [] && sorted[0].partNum < p.partNum && SortedByPartNum(sorted)
    requires x in multiset(sorted[1..]) + multiset{p}
    ensures sorted[0].partNum <= x.partNum
  {
    if x != p {
      assert x in sorted[1..];
      var k :| 0 <= k < |sorted[1..]| && sorted[1..][k] == x;
      assert sorted[k + 1] == x;
    }
  }

  /** A sorted list stays sorted under a head no larger than any of its elements. */
  lemma ConsSorted(h: PartInfo, rest: seq<PartInfo>)
    requires SortedByPartNum(rest)
    requires forall k :: 0 <= k < |rest| ==> h.partNum <= rest[k].partNum
    ensures SortedByPartNum([h] + rest)
  {
    var r := [h] + rest;
    forall i, j | 0 <= i < j < |r| ensures r[i].partNum <= r[j].partNum {
      assert r[j] == rest[j - 1];
      if i > 0 {
        assert r[i] == rest[i - 1];
      }
    }
  }

  /** `list.sort(key=lambda x: x['part_num'])`: ascending and a permutation. */
  function SortByPartNum(parts: seq<PartInfo>): (r: seq<PartInfo>)
    ensures multiset(r) == multiset(parts)
    ensures SortedByPartNum(r)
  {
    if parts == [] then []
    else
      assert parts == [parts[0]] + parts[1..];
      InsertByPartNum(parts[0], SortByPartNum(parts[1..]))
  }

  lemma {:induction false} InsertKeepsOrder(p: PartInfo, sorted: seq<PartInfo>, n: nat)
    requires SortedByPartNum(sorted)
    ensures WithPartNum(InsertByPartNum(p, sorted), n) == WithPartNum([p] + sorted, n)
    decreases |sorted|
  {
    if sorted != [] && p.partNum > sorted[0].partNum {
      var s0, tail := sorted[0], sorted[1..];
      assert sorted == [s0] + tail;
      assert SortedByPartNum(tail);
      var hs := if s0.partNum == n then [s0] else [];
      var hp := if p.partNum == n then [p] else [];
      assert hs + hp == hp + hs;
      calc {
        WithPartNum(InsertByPartNum(p, sorted), n);
        WithPartNum([s0] + InsertByPartNum(p, tail), n);
        { WithPartNumCons(s0, InsertByPartNum(p, tail), n); }
        hs + WithPartNum(InsertByPartNum(p, tail), n);
        { InsertKeepsOrder(p, tail, n); }
        hs + WithPartNum([p] + tail, n);
        { WithPartNumCons(p, tail, n); }
        hs + (hp + WithPartNum(tail, n));
        hp + (hs + WithPartNum(tail, n));
        { WithPartNumCons(s0, tail, n); }
        hp + WithPartNum(sorted, n);
        { WithPartNumCons(p, sorted, n); }
        WithPartNum([p] + sorted, n);
      }
    }
  }

  /** The sort is stable: parts with equal numbers keep their listing order. */
  lemma {:induction false} SortIsStable(parts: seq<PartInfo>, n: nat)
    ensures WithPartNum(SortByPartNum(parts), n) == WithPartNum(parts, n)
  {
    if parts != [] {
      assert parts == [parts[0]] + parts[1..];
      SortIsStable(parts[1..], n);
      InsertKeepsOrder(parts[0], SortByPartNum(parts[1..]), n);
      WithPartNumCons(parts[0], SortByPartNum(parts[1..]), n);
      WithPartNumCons(parts[0], parts[1..], n);
    }
  }

  // ---------------------------------------------------------------- the service

  class QuestionService {
    const questionsDir: string
    const githubUrl: string          // the empty string stands for no URL
    const useOnline: bool
    const cacheEnabled: bool
    const cacheDuration: int         // seconds
    var cache: map<string, QuestionSet>
    var cacheTimestamps: map<string, int>

    ghost predicate Valid()
      reads this
    {
      cache.Keys == cacheTimestamps.Keys
    }

    constructor (questionsDir: string, githubUrl: string := "", useOnline: bool := false,
                 cacheEnabled: bool := true, cacheDurationMinutes: int := 60)
      ensures Valid()
      ensures this.questionsDir == questionsDir && this.githubUrl == githubUrl && this.useOnline == useOnline
      ensures this.cacheEnabled == cacheEnabled && this.cacheDuration == cacheDurationMinutes * 60
      ensures cache == map[] && cacheTimestamps == map[]
    {
      this.questionsDir := questionsDir;
      this.githubUrl := githubUrl;
      this.useOnline := useOnline;
      this.cacheEnabled := cacheEnabled;
      this.cacheDuration := cacheDurationMinutes * 60;
      cache, cacheTimestamps := map[], map[];
    }

    /** False when caching is off or the key was never stored; otherwise whether the entry is
        younger than the configured duration. */
    predicate IsCacheValid(key: string, now: int)
      reads this
      ensures !cacheEnabled || key !in cacheTimestamps ==> !IsCacheValid(key, now)
      ensures cacheEnabled && key in cacheTimestamps ==>
        (IsCacheValid(key, now) <==> now - cacheTimestamps[key] < cacheDuration)
    {
      cacheEnabled && key in cacheTimestamps && now - cacheTimestamps[key] < cacheDuration
    }

    function GetFromCache(key: string, now: int): (r: Option<QuestionSet>)
      reads this
      ensures r.Some? <==> IsCacheValid(key, now) && key in cache
      ensures r.Some? ==> r.value == cache[key]
      ensures !cacheEnabled ==> r.None?
    {
      if IsCacheValid(key, now) && key in cache then Some(cache[key]) else None
    }

    /** Stores the entry stamped with `now` when caching is on, and nothing otherwise; a fresh
        entry is then served back while the duration is positive. */
    method SaveToCache(key: string, data: QuestionSet, now: int)
      requires Valid()
      modifies this
      ensures Valid()
      ensures cacheEnabled ==> cache == old(cache)[key := data] && cacheTimestamps == old(cacheTimestamps)[key := now]
      ensures !cacheEnabled ==> cache == old(cache) && cacheTimestamps == old(cacheTimestamps)
      ensures cacheEnabled && cacheDuration > 0 ==> GetFromCache(key, now) == Some(data)
    {
      if cacheEnabled {
        cache := cache[key := data];
        cacheTimestamps := cacheTimestamps[key := now];
      }
    }

    /** Empties both maps: afterwards nothing is served from the cache. */
    method ClearCache()
      requires Valid()
      modifies this
      ensures Valid()
      ensures cache == map[] && cacheTimestamps == map[]
      ensures forall key, t :: GetFromCache(key, t).None?
    {
      cache := map[];
      cacheTimestamps := map[];
    }

    /** What one GET of `<githubUrl>/<path>` yields: `remote` is what the configured URL serves;
        with no URL the request goes to `None/<path>` and fails. */
    function Remote(remote: map<string, Fetch>, path: string): Fetch {
      if githubUrl == "" then RequestFailed else FetchAt(remote, path)
    }

    /** What a remote load of `filepath` returns at `now`: the cached set while it is fresh,
        otherwise the result of fetching it. */
    function GithubResult(filepath: string, remote: map<string, Fetch>, now: int): Result<QuestionSet>
      reads this
    {
      var cached := GetFromCache(filepath, now);
      if cached.Some? then Ok(cached.value) else FetchResult(Remote(remote, filepath))
    }

    /** Whether the cache maps `c`, `t` hold a fresh entry for `key` at `now`. */
    predicate FreshIn(c: map<string, QuestionSet>, t: map<string, int>, key: string, now: int) {
      cacheEnabled && key in t && now - t[key] < cacheDuration && key in c
    }

    /** Entry `p` of `c`, `t`, if any, is either kept from `c0`, `t0` or belongs to a path of
        `paths` that had no fresh entry there and holds what fetching it returned, stamped `now`. */
    predicate EntryRefreshed(c0: map<string, QuestionSet>, t0: map<string, int>,
                             c: map<string, QuestionSet>, t: map<string, int>,
                             paths: set<string>, remote: map<string, Fetch>, now: int, p: string)
    {
      p in c && p in t ==>
        || (p in c0 && p in t0 && c[p] == c0[p] && t[p] == t0[p])
        || (p in paths && !FreshIn(c0, t0, p, now) && t[p] == now && FetchResult(Remote(remote, p)) == Ok(c[p]))
    }

    /** With caching on, path `p` of `paths`, when it had no fresh entry in `c0`, `t0` and
        fetching it succeeds, is stored in `c`, `t` with what the fetch returned, stamped `now`. */
    predicate PathRefreshed(c0: map<string, QuestionSet>, t0: map<string, int>,
                            c: map<string, QuestionSet>, t: map<string, int>,
                            paths: set<string>, remote: map<string, Fetch>, now: int, p: string)
    {
      p in paths && cacheEnabled && !FreshIn(c0, t0, p, now) && FetchResult(Remote(remote, p)).Ok? ==>
        p in c && p in t && t[p] == now && FetchResult(Remote(remote, p)) == Ok(c[p])
    }

    /** The cache went from `c0`, `t0` to `c`, `t` through remote loads of the paths `paths` at
        `now`: with caching off nothing changed; otherwise no entry is dropped, every entry is kept
        or refreshed by one of those loads, and every load that had to fetch and succeeded has
        stored its result. */
    ghost predicate RefreshedBy(c0: map<string, QuestionSet>, t0: map<string, int>,
                                c: map<string, QuestionSet>, t: map<string, int>,
                                paths: set<string>, remote: map<string, Fetch>, now: int)
    {
      && c.Keys == t.Keys && c0.Keys <= c.Keys
      && (!cacheEnabled ==> c == c0 && t == t0)
      && (forall p {:trigger EntryRefreshed(c0, t0, c, t, paths, remote, now, p)} ::
            EntryRefreshed(c0, t0, c, t, paths, remote, now, p))
      && (forall p {:trigger PathRefreshed(c0, t0, c, t, paths, remote, now, p)} ::
            PathRefreshed(c0, t0, c, t, paths, remote, now, p))
    }

    /** Loads of `paths` followed by a load of `q` are loads of `paths` and `q`. */
    lemma RefreshedByThen(c0: map<string, QuestionSet>, t0: map<string, int>,
                          c1: map<string, QuestionSet>, t1: map<string, int>,
                          c2: map<string, QuestionSet>, t2: map<string, int>,
                          paths: set<string>, q: string, remote: map<string, Fetch>, now: int)
      requires c0.Keys == t0.Keys
      requires RefreshedBy(c0, t0, c1, t1, paths, remote, now)
      requires RefreshedBy(c1, t1, c2, t2, {q}, remote, now)
      ensures RefreshedBy(c0, t0, c2, t2, paths + {q}, remote, now)
    {
      forall p ensures EntryRefreshed(c0, t0, c2, t2, paths + {q}, remote, now, p) {
        assert EntryRefreshed(c1, t1, c2, t2, {q}, remote, now, p);
        assert EntryRefreshed(c0, t0, c1, t1, paths, remote, now, p);
      }
      forall p ensures PathRefreshed(c0, t0, c2, t2, paths + {q}, remote, now, p) {
        assert PathRefreshed(c1, t1, c2, t2, {q}, remote, now, p);
        assert PathRefreshed(c0, t0, c1, t1, paths, remote, now, p);
        assert EntryRefreshed(c1, t1, c2, t2, {q}, remote, now, p);
        assert EntryRefreshed(c0, t0, c1, t1, paths, remote, now, q);
      }
    }

    /** The remote load: served from the cache when fresh; otherwise fetched, normalised and,
        when that succeeds, cached. A second load at the same moment returns the same result,
        and no other path's result changes. */
    method LoadQuestionsFromGithub(filepath: string, remote: map<string, Fetch>, now: int)
      returns (r: Result<QuestionSet>)
      requires Valid()
      modifies this
      ensures Valid()
      ensures r == old(GithubResult(filepath, remote, now))
      ensures old(GetFromCache(filepath, now)).Some? || r.Err? ==>
        cache == old(cache) && cacheTimestamps == old(cacheTimestamps)
      ensures old(GetFromCache(filepath, now)).None? && r.Ok? && cacheEnabled ==>
        cache == old(cache)[filepath := r.value] && cacheTimestamps == old(cacheTimestamps)[filepath := now]
      ensures !cacheEnabled ==> cache == old(cache) && cacheTimestamps == old(cacheTimestamps)
      ensures githubUrl == "" && old(GetFromCache(filepath, now)).None? ==> r == Err(ConnectionError)
      ensures forall p :: GithubResult(p, remote, now) == old(GithubResult(p, remote, now))
      ensures RefreshedBy(old(cache), old(cacheTimestamps), cache, cacheTimestamps, {filepath}, remote, now)
    {
      var cached := GetFromCache(filepath, now);
      if cached.Some? {
        return Ok(cached.value);
      }
      r := FetchResult(Remote(remote, filepath));
      if r.Ok? {
        SaveToCache(filepath, r.value, now);
      }
      forall p ensures GithubResult(p, remote, now) == old(GithubResult(p, remote, now)) {
        if p != filepath {
          assert GetFromCache(p, now) == old(GetFromCache(p, now));
        }
      }
    }

    /** Whether loading a part at `now` adds to the cache: only a remote load that misses the
        cache, fetches successfully and runs with caching on. */
    predicate StoresOnLoad(filepath: string, remote: map<string, Fetch>, now: int)
      reads this
    {
      && useOnline && githubUrl != "" && cacheEnabled
      && GetFromCache(filepath, now).None? && FetchResult(Remote(remote, filepath)).Ok?
    }

    /** Loading one part: remotely (through the cache) when online with a URL, otherwise from the
        local file named by the path's last component under the subject's folder. */
    method LoadQuestionsForPart(subject: string, partFilepath: string, remote: map<string, Fetch>,
                                files: map<string, LocalFile>, now: int)
      returns (r: Result<QuestionSet>)
      requires Valid()
      modifies this
      ensures Valid()
      ensures useOnline && githubUrl != "" ==> r == old(GithubResult(partFilepath, remote, now))
      ensures !(useOnline && githubUrl != "") ==>
        r == LoadQuestionsFromLocal(LocalPath(subject, partFilepath), files)
        && cache == old(cache) && cacheTimestamps == old(cacheTimestamps)
      ensures r.Err? ==> r.error in {ConnectionError, ValueError, FileNotFound}
      ensures old(StoresOnLoad(partFilepath, remote, now)) ==>
        r.Ok? && cache == old(cache)[partFilepath := r.value] && cacheTimestamps == old(cacheTimestamps)[partFilepath := now]
      ensures !old(StoresOnLoad(partFilepath, remote, now)) ==>
        cache == old(cache) && cacheTimestamps == old(cacheTimestamps)
    {
      if useOnline && githubUrl != "" {
        r := LoadQuestionsFromGithub(partFilepath, remote, now);
      } else {
        r := LoadQuestionsFromLocal(LocalPath(subject, partFilepath), files);
      }
    }

    /** The part one listed name contributes: none when it does not match the convention,
        otherwise one entry titled from a remote load of the file at the current cache state. */
    function PartsOfName(folderName: string, name: string, remote: map<string, Fetch>, now: int): seq<PartInfo>
      reads this
    {
      match ParsePartNumber(name)
      case None => []
      case Some(digits) => [MakePart(folderName, name, digits, GithubResult(folderName + "/" + name, remote, now))]
    }

    /** The parts a listing yields before sorting, in listing order. */
    function UnsortedParts(folderName: string, names: seq<string>, remote: map<string, Fetch>, now: int): seq<PartInfo>
      reads this
    {
      if names == [] then []
      else
        var last := |names| - 1;
        UnsortedParts(folderName, names[..last], remote, now) + PartsOfName(folderName, names[last], remote, now)
    }

    /** One more listed name loaded extends the loads of the names before it. */
    lemma RefreshedByStep(c0: map<string, QuestionSet>, t0: map<string, int>,
                          c1: map<string, QuestionSet>, t1: map<string, int>,
                          c2: map<string, QuestionSet>, t2: map<string, int>,
                          folderName: string, names: seq<string>, i: nat, remote: map<string, Fetch>, now: int)
      requires i < |names| && c0.Keys == t0.Keys
      requires RefreshedBy(c0, t0, c1, t1, PartPaths(folderName, names[..i]), remote, now)
      requires ParsePartNumber(names[i]).None? ==> c2 == c1 && t2 == t1
      requires ParsePartNumber(names[i]).Some? ==> RefreshedBy(c1, t1, c2, t2, {folderName + "/" + names[i]}, remote, now)
      ensures RefreshedBy(c0, t0, c2, t2, PartPaths(folderName, names[..i + 1]), remote, now)
    {
      assert names[..i + 1][..i] == names[..i];
      if ParsePartNumber(names[i]).Some? {
        assert PartPaths(folderName, names[..i + 1]) == PartPaths(folderName, names[..i]) + {folderName + "/" + names[i]};
        RefreshedByThen(c0, t0, c1, t1, c2, t2, PartPaths(folderName, names[..i]), folderName + "/" + names[i], remote, now);
      } else {
        assert PartPaths(folderName, names[..i + 1]) == PartPaths(folderName, names[..i]);
      }
    }

    /** The loop body of part discovery for one listed name. */
    method DiscoverPart(folderName: string, filename: string, remote: map<string, Fetch>, now: int)
      returns (found: seq<PartInfo>)
      requires Valid()
      modifies this
      ensures Valid()
      ensures found == old(PartsOfName(folderName, filename, remote, now))
      ensures forall p :: GithubResult(p, remote, now) == old(GithubResult(p, remote, now))
      ensures forall name :: PartsOfName(folderName, name, remote, now) == old(PartsOfName(folderName, name, remote, now))
      ensures ParsePartNumber(filename).None? ==> cache == old(cache) && cacheTimestamps == old(cacheTimestamps)
      ensures ParsePartNumber(filename).Some? ==>
        RefreshedBy(old(cache), old(cacheTimestamps), cache, cacheTimestamps, {folderName + "/" + filename}, remote, now)
    {
      found := [];
      if EndsWith(filename, ".json") {
        var digits := ParsePartNumber(filename);
        if digits.Some? {
          var filepath := folderName + "/" + filename;
          var partData := LoadQuestionsFromGithub(filepath, remote, now);
          found := [MakePart(folderName, filename, digits.value, partData)];
        }
      }
    }

    /** The discovery loop over a listing: the parts of every matching name, in listing order. */
    method DiscoverParts(folderName: string, names: seq<string>, remote: map<string, Fetch>, now: int)
      returns (parts: seq<PartInfo>)
      requires Valid()
      modifies this
      ensures Valid()
      ensures parts == old(UnsortedParts(folderName, names, remote, now))
      ensures RefreshedBy(old(cache), old(cacheTimestamps), cache, cacheTimestamps, PartPaths(folderName, names), remote, now)
    {
      // what each listed name yields, fixed before the loop loads anything
      ghost var perName := seq(|names|, k requires 0 <= k < |names| reads this => PartsOfName(folderName, names[k], remote, now));
      UnsortedPartsConcat(this, folderName, names, remote, now, perName);
      parts := [];
      var i := 0;
      while i < |names|
        invariant Valid()
        invariant 0 <= i <= |names|
        invariant parts == Concat(perName[..i])
        invariant forall name :: PartsOfName(folderName, name, remote, now) == old(PartsOfName(folderName, name, remote, now))
        invariant RefreshedBy(old(cache), old(cacheTimestamps), cache, cacheTimestamps, PartPaths(folderName, names[..i]), remote, now)
      {
        ghost var expected := PartsOfName(folderName, names[i], remote, now);
        assert expected == perName[i];
        ghost var c1, t1 := cache, cacheTimestamps;
        var found := DiscoverPart(folderName, names[i], remote, now);
        RefreshedByStep(old(cache), old(cacheTimestamps), c1, t1, cache, cacheTimestamps, folderName, names, i, remote, now);
        assert found == expected;
        ConcatPrefix(perName, i);
        parts := parts + found;
        i := i + 1;
      }
      assert perName[..|names|] == perName;
      assert names[..|names|] == names;
    }

    /** Part discovery: any listing failure yields no parts; otherwise the matching files,
        titled best-effort from their metadata, sorted (stably) by part number. */
    method GetAvailablePartsFromGithub(subject: string, folderName: string, listing: Listing,
                                       remote: map<string, Fetch>, now: int)
      returns (parts: seq<PartInfo>)
      requires Valid()
      modifies this
      ensures Valid()
      ensures listing.ListingFailed? ==> parts == []
      ensures listing.Listed? ==> parts == SortByPartNum(old(UnsortedParts(folderName, listing.names, remote, now)))
      ensures listing.ListingFailed? || !cacheEnabled ==> cache == old(cache) && cacheTimestamps == old(cacheTimestamps)
      ensures listing.Listed? ==>
        RefreshedBy(old(cache), old(cacheTimestamps), cache, cacheTimestamps, PartPaths(folderName, listing.names), remote, now)
    {
      if listing.ListingFailed? {
        return [];
      }
      parts := DiscoverParts(folderName, listing.names, remote, now);
      parts := SortByPartNum(parts);
    }
  }

  /** The paths a listing's matching names are loaded from. */
  function PartPaths(folderName: string, names: seq<string>): set<string> {
    if names == [] then {}
    else
      var last := |names| - 1;
      PartPaths(folderName, names[..last]) + (if ParsePartNumber(names[last]).Some? then {folderName + "/" + names[last]} else {})
  }

  /** The paths loaded for a listing are exactly the folder's paths of its matching names. */
  lemma {:induction false} PartPathsListed(folderName: string, names: seq<string>)
    ensures forall n :: n in names && ParsePartNumber(n).Some? ==> folderName + "/" + n in PartPaths(folderName, names)
    ensures forall p :: p in PartPaths(folderName, names) ==>
      exists n :: n in names && ParsePartNumber(n).Some? && p == folderName + "/" + n
  {
    if names != [] {
      var last := |names| - 1;
      PartPathsListed(folderName, names[..last]);
      assert names == names[..last] + [names[last]];
      forall p | p in PartPaths(folderName, names)
        ensures exists n :: n in names && ParsePartNumber(n).Some? && p == folderName + "/" + n
      {
        if p in PartPaths(folderName, names[..last]) {
          var n :| n in names[..last] && ParsePartNumber(n).Some? && p == folderName + "/" + n;
          assert n in names;
        } else {
          assert names[last] in names && ParsePartNumber(names[last]).Some? && p == folderName + "/" + names[last];
        }
      }
    }
  }

  /** The lists of a sequence of lists, one after another. */
  function Concat(ss: seq<seq<PartInfo>>): seq<PartInfo> {
    if ss == [] then [] else Concat(ss[..|ss| - 1]) + ss[|ss| - 1]
  }

  /** One more list of a prefix adds that list at the end. */
  lemma ConcatPrefix(ss: seq<seq<PartInfo>>, i: nat)
    requires i < |ss|
    ensures Concat(ss[..i + 1]) == Concat(ss[..i]) + ss[i]
  {
    assert ss[..i + 1][..i] == ss[..i];
  }

  /** The parts a listing yields are those of its names, one name after another. */
  lemma {:induction false} UnsortedPartsConcat(s: QuestionService, folderName: string, names: seq<string>,
                                             remote: map<string, Fetch>, now: int, perName: seq<seq<PartInfo>>)
    requires |perName| == |names|
    requires forall k :: 0 <= k < |names| ==> perName[k] == s.PartsOfName(folderName, names[k], remote, now)
    ensures s.UnsortedParts(folderName, names, remote, now) == Concat(perName)
    decreases |names|
  {
    if names != [] {
      var last := |names| - 1;
      UnsortedPartsConcat(s, folderName, names[..last], remote, now, perName[..last]);
    }
  }

  /** `p` is the entry the convention gives file `name` of the folder, with digits `digits`,
      titled from `loaded`. */
  predicate PartOf(folderName: string, name: string, digits: string, loaded: Result<QuestionSet>, p: PartInfo) {
    && ParsePartNumber(name) == Some(digits)
    && p.part == "pt" + digits && p.file == name && p.filepath == folderName + "/" + name
    && p.display == "الجزء " + digits && p.partNum == DigitsValue(digits)
    && p.titleAr == PartTitles(loaded, digits).0 && p.titleEn == PartTitles(loaded, digits).1
  }

  /** Every discovered part comes from a matching name, with the fields the convention gives and
      the titles of that file's remote load. */
  lemma {:induction false} UnsortedPartsShape(s: QuestionService, folderName: string, names: seq<string>,
                                             remote: map<string, Fetch>, now: int, k: nat)
    requires k < |s.UnsortedParts(folderName, names, remote, now)|
    ensures exists i, digits ::
      (0 <= i < |names| &&
       PartOf(folderName, names[i], digits, s.GithubResult(folderName + "/" + names[i], remote, now),
              s.UnsortedParts(folderName, names, remote, now)[k]))
    decreases |names|
  {
    var parts := s.UnsortedParts(folderName, names, remote, now);
    var last := |names| - 1;
    var earlier := s.UnsortedParts(folderName, names[..last], remote, now);
    if k < |earlier| {
      UnsortedPartsShape(s, folderName, names[..last], remote, now, k);
      var i, digits :| 0 <= i < last &&
        PartOf(folderName, names[..last][i], digits, s.GithubResult(folderName + "/" + names[..last][i], remote, now), earlier[k]);
      assert parts[k] == earlier[k];
      assert names[..last][i] == names[i];
    } else {
      var digits := ParsePartNumber(names[last]).value;
      assert parts[k] == s.PartsOfName(folderName, names[last], remote, now)[0];
      assert PartOf(folderName, names[last], digits, s.GithubResult(folderName + "/" + names[last], remote, now), parts[k]);
    }
  }

  /** Every name matching the convention yields exactly one part. */
  lemma {:induction false} UnsortedPartsCount(s: QuestionService, folderName: string, names: seq<string>,
                                             remote: map<string, Fetch>, now: int)
    ensures |s.UnsortedParts(folderName, names, remote, now)| == |Matching(names)|
  {
    if names != [] {
      var last := |names| - 1;
      UnsortedPartsCount(s, folderName, names[..last], remote, now);
    }
  }

  /** The names of a listing that match the convention, in listing order. */
  function Matching(names: seq<string>): (r: seq<string>)
    ensures forall n :: n in r ==> n in names && ParsePartNumber(n).Some?
  {
    if names == [] then []
    else
      var last := |names| - 1;
      Matching(names[..last]) + (if ParsePartNumber(names[last]).Some? then [names[last]] else [])
  }
}
