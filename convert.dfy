/**
 * The study-specific converter of src/utils/convert.ts: a second CSV writer and the
 * reshaping of a MasterMindle study's result log into four tables (global surveys,
 * blocks, games and guesses) plus the list of recorded audio answers.
 *
 * The log is taken in the shape the study produces: every event carries a type, a
 * name and timing fields, and its `data` is a block (the games of a
 * MasterMindleWrapper trial and the block's other fields), a list of survey
 * questions, or something else.
 */
module Convert {
  import opened Wrappers
  import opened Strings
  import opened Json
  import Upload

  // ---------------------------------------------------------------------------
  // arrayToCSV

  /** `arr.join(sep)`: null and undefined elements become empty strings. */
  function JoinValues(es: seq<Value>, sep: string, fmt: real -> string): string
  {
    Join(seq(|es|, i requires 0 <= i < |es| => if Nullish(es[i]) then "" else ToJsString(es[i], fmt)), sep)
  }

  /** One field of `arrayToCSV`: only strings holding `,` or `"` are quoted. */
  function PlainCell(v: Value, fmt: real -> string): string
  {
    if v.Str? && (',' in v.s || '"' in v.s) then "\"" + Upload.DoubleQuotes(v.s) + "\""
    else if Nullish(v) then ""
    else ToJsString(v, fmt)
  }

  /**
   * The two CSV writers agree on empty values and on strings without newlines; a
   * string with a newline is quoted only by the upload writer.
   */
  lemma PlainCellAgrees(v: Value, fmt: real -> string)
    ensures Nullish(v) || (v.Str? && '\n' !in v.s) ==> PlainCell(v, fmt) == Upload.EscapeCsvValue(v, fmt)
    ensures v.Str? && '\n' in v.s && ',' !in v.s && '"' !in v.s ==>
      PlainCell(v, fmt) == v.s != Upload.EscapeCsvValue(v, fmt)
  {
    if v.Str? && '\n' in v.s && ',' !in v.s && '"' !in v.s {
      assert Upload.EscapeCsvValue(v, fmt)[0] == '"' != v.s[0];
    }
  }

  /** A row's fields: a key the object lacks gives an empty field. */
  function PlainCells(obj: Record, headers: seq<string>, fmt: real -> string): (cells: seq<string>)
    ensures |cells| == |headers|
    ensures forall i :: 0 <= i < |headers| && !HasKey(obj, headers[i]) ==> cells[i] == ""
  {
    seq(|headers|, i requires 0 <= i < |headers| => PlainCell(Get(obj, headers[i]), fmt))
  }

  /** The text `arrayToCSV` produces; the header names are written as they are. */
  function PlainCsv(rows: seq<Record>, fmt: real -> string): string
  {
    if |rows| == 0 then ""
    else
      var headers := Upload.HeaderUnion(rows);
      Join([Join(headers, ",")] + seq(|rows|, r requires 0 <= r < |rows| => Join(PlainCells(rows[r], headers, fmt), ",")), "\n")
  }

  /** `arrayToCSV`: empty for no rows, else the header union and one line per row. */
  method ArrayToCsv(rows: seq<Record>, fmt: real -> string) returns (csv: string)
    ensures |rows| == 0 ==> csv == ""
    ensures csv == PlainCsv(rows, fmt)
  {
    if |rows| == 0 {
      return "";
    }
    var headers := Upload.CollectHeaders(rows);
    var lines := seq(|rows|, r requires 0 <= r < |rows| => Join(PlainCells(rows[r], headers, fmt), ","));
    csv := Join([Join(headers, ",")] + lines, "\n");
  }

  // ---------------------------------------------------------------------------
  // processSurvey

  datatype Question = Question(kind: string, name: string, value: Value)

  predicate IsVoice(q: Question)
  {
    q.kind == "voicerecorder"
  }

  /** The answers object: each non-recording answer under its question's name. */
  function SurveyAnswers(qs: seq<Question>): (a: Record)
    ensures WellFormed(a)
  {
    if |qs| == 0 then []
    else
      var q := qs[|qs| - 1];
      var a := SurveyAnswers(qs[..|qs| - 1]);
      if IsVoice(q) then a else Put(a, q.name, q.value)
  }

  /** The TypeError of reading a property of null or undefined. */
  function ReadError(v: Value, property: string): string
  {
    "Cannot read properties of " + (if v.Null? then "null" else "undefined") + " (reading '" + property + "')"
  }

  /**
   * The audio entry of a recording question, `{name, url: question.value.url}`: reading
   * `url` throws on a null or undefined value and gives undefined on any other value
   * without that field.
   */
  function AudioEntry(prefix: string, q: Question): (r: Result<Record>)
    ensures r.Err? <==> Nullish(q.value)
  {
    if Nullish(q.value) then Err(ReadError(q.value, "url"))
    else Ok([Field("name", Str(prefix + "_" + q.name)), Field("url", if q.value.Obj? then Get(q.value.fields, "url") else Undefined)])
  }

  /** The recordings of `processSurvey` in question order; the first unreadable one throws. */
  function SurveyAudios(prefix: string, qs: seq<Question>): (r: Result<seq<Record>>)
    ensures r.Ok? ==> |r.value| <= |qs|
  {
    if |qs| == 0 then Ok([])
    else
      var q := qs[|qs| - 1];
      match SurveyAudios(prefix, qs[..|qs| - 1])
      case Err(m) => Err(m)
      case Ok(audios) =>
        if !IsVoice(q) then Ok(audios)
        else match AudioEntry(prefix, q)
          case Err(m) => Err(m)
          case Ok(entry) => Ok(audios + [entry])
  }

  /** A recording question whose value is null or undefined. */
  predicate Unreadable(q: Question)
  {
    IsVoice(q) && Nullish(q.value)
  }

  /** `processSurvey` throws exactly when some recording question has no value. */
  lemma {:induction false} SurveyAudiosThrows(prefix: string, qs: seq<Question>)
    ensures SurveyAudios(prefix, qs).Err? <==> exists i :: 0 <= i < |qs| && Unreadable(qs[i])
  {
    if |qs| > 0 {
      var n := |qs| - 1;
      SurveyAudiosThrows(prefix, qs[..n]);
      if exists i :: 0 <= i < n && Unreadable(qs[..n][i]) {
        var i :| 0 <= i < n && Unreadable(qs[..n][i]);
        assert Unreadable(qs[i]);
      }
      if exists i :: 0 <= i < |qs| && Unreadable(qs[i]) {
        var i :| 0 <= i < |qs| && Unreadable(qs[i]);
        if i < n {
          assert Unreadable(qs[..n][i]);
        }
      }
    }
  }

  /** Once a question throws, the rest of the survey is not read: the error is final. */
  lemma {:induction false} SurveyAudiosFails(prefix: string, qs: seq<Question>, n: nat)
    requires n <= |qs| && SurveyAudios(prefix, qs[..n]).Err?
    ensures SurveyAudios(prefix, qs) == SurveyAudios(prefix, qs[..n])
  {
    if n < |qs| {
      var m := |qs| - 1;
      assert qs[..m][..n] == qs[..n];
      SurveyAudiosFails(prefix, qs[..m], n);
    } else {
      assert qs[..n] == qs;
    }
  }

  /** One more question extends the answers and the audio list as the loop of `processSurvey` does. */
  lemma SurveySnoc(prefix: string, qs: seq<Question>, i: nat)
    requires i < |qs|
    ensures SurveyAnswers(qs[..i + 1]) ==
      if IsVoice(qs[i]) then SurveyAnswers(qs[..i]) else Put(SurveyAnswers(qs[..i]), qs[i].name, qs[i].value)
    ensures SurveyAudios(prefix, qs[..i]).Ok? ==>
      (SurveyAudios(prefix, qs[..i + 1]) ==
         if !IsVoice(qs[i]) then SurveyAudios(prefix, qs[..i])
         else match AudioEntry(prefix, qs[i])
           case Err(m) => Err(m)
           case Ok(entry) => Ok(SurveyAudios(prefix, qs[..i]).value + [entry]))
  {
    assert qs[..i + 1][..i] == qs[..i];
    assert qs[..i + 1][i] == qs[i];
  }

  /** What `processSurvey` returns: the answers object and the recordings. */
  datatype Survey = Survey(answers: Record, audios: seq<Record>)

  /** The outcome of `processSurvey`: its two results, or the error it throws. */
  function SurveyOf(prefix: string, qs: seq<Question>): Result<Survey>
  {
    match SurveyAudios(prefix, qs)
    case Err(m) => Err(m)
    case Ok(audios) => Ok(Survey(SurveyAnswers(qs), audios))
  }

  /** `processSurvey`: recordings go to the audio list, all other answers to the answers object. */
  method ProcessSurvey(prefix: string, qs: seq<Question>) returns (r: Result<Survey>)
    ensures r == SurveyOf(prefix, qs)
  {
    var answers, audios := [], [];
    for i := 0 to |qs|
      invariant answers == SurveyAnswers(qs[..i])
      invariant SurveyAudios(prefix, qs[..i]) == Ok(audios)
    {
      var q := qs[i];
      SurveySnoc(prefix, qs, i);
      if q.kind == "voicerecorder" {
        if Nullish(q.value) {
          SurveyAudiosFails(prefix, qs, i + 1);
          return Err(ReadError(q.value, "url"));
        }
        audios := audios + [AudioEntry(prefix, q).value];
        continue;
      }
      answers := Put(answers, q.name, q.value);
    }
    assert qs[..|qs|] == qs;
    r := Ok(Survey(answers, audios));
  }

  /** Some non-recording question is named k. */
  predicate Answered(qs: seq<Question>, k: string)
  {
    exists i :: 0 <= i < |qs| && !IsVoice(qs[i]) && qs[i].name == k
  }

  lemma AnsweredSnoc(qs: seq<Question>, k: string)
    requires |qs| > 0
    ensures Answered(qs, k) <==> Answered(qs[..|qs| - 1], k) || (!IsVoice(qs[|qs| - 1]) && qs[|qs| - 1].name == k)
  {
    var n := |qs| - 1;
    if Answered(qs[..n], k) {
      var i :| 0 <= i < n && !IsVoice(qs[..n][i]) && qs[..n][i].name == k;
      assert !IsVoice(qs[i]) && qs[i].name == k;
    }
    if Answered(qs, k) {
      var i :| 0 <= i < |qs| && !IsVoice(qs[i]) && qs[i].name == k;
      if i < n { assert !IsVoice(qs[..n][i]) && qs[..n][i].name == k; }
    }
  }

  /** A name gets an answer exactly when some non-recording question has it. */
  lemma {:induction false} SurveyAnswersHasKey(qs: seq<Question>, k: string)
    ensures HasKey(SurveyAnswers(qs), k) <==> Answered(qs, k)
  {
    if |qs| > 0 {
      var n := |qs| - 1;
      SurveyAnswersHasKey(qs[..n], k);
      AnsweredSnoc(qs, k);
    }
  }

  /** The answer under a name is the value of the last non-recording question with that name. */
  lemma {:induction false} SurveyAnswersLast(qs: seq<Question>, k: string, i: nat)
    requires i < |qs| && !IsVoice(qs[i]) && qs[i].name == k
    requires forall j :: i < j < |qs| ==> IsVoice(qs[j]) || qs[j].name != k
    ensures Get(SurveyAnswers(qs), k) == qs[i].value
  {
    var n := |qs| - 1;
    var q := qs[n];
    var prev := SurveyAnswers(qs[..n]);
    if i < n {
      assert qs[..n][i] == qs[i];
      assert forall j :: i < j < n ==> IsVoice(qs[..n][j]) || qs[..n][j].name != k by {
        forall j | i < j < n ensures IsVoice(qs[..n][j]) || qs[..n][j].name != k {
          assert qs[..n][j] == qs[j];
        }
      }
      SurveyAnswersLast(qs[..n], k, i);
      if IsVoice(q) {
        assert SurveyAnswers(qs) == prev;
      } else {
        assert SurveyAnswers(qs) == Put(prev, q.name, q.value);
        assert q.name != k;
      }
    } else {
      assert SurveyAnswers(qs) == Put(prev, k, q.value);
    }
  }

  /** A survey that does not throw has the audio entry of every recording question. */
  lemma {:induction false} SurveyAudiosSpec(prefix: string, qs: seq<Question>, i: nat)
    requires i < |qs| && IsVoice(qs[i]) && SurveyAudios(prefix, qs).Ok?
    ensures AudioEntry(prefix, qs[i]).Ok? && AudioEntry(prefix, qs[i]).value in SurveyAudios(prefix, qs).value
  {
    var n := |qs| - 1;
    if i < n {
      assert qs[..n][i] == qs[i];
      SurveyAudiosSpec(prefix, qs[..n], i);
    }
  }

  /** Every audio entry is that of a recording question. */
  lemma {:induction false} SurveyAudiosOnlyVoice(prefix: string, qs: seq<Question>, e: Record)
    requires SurveyAudios(prefix, qs).Ok? && e in SurveyAudios(prefix, qs).value
    ensures exists i :: 0 <= i < |qs| && IsVoice(qs[i]) && AudioEntry(prefix, qs[i]) == Ok(e)
  {
    var n := |qs| - 1;
    if e in SurveyAudios(prefix, qs[..n]).value {
      SurveyAudiosOnlyVoice(prefix, qs[..n], e);
      var i :| 0 <= i < n && IsVoice(qs[..n][i]) && AudioEntry(prefix, qs[..n][i]) == Ok(e);
      assert qs[..n][i] == qs[i];
    }
  }

  // ---------------------------------------------------------------------------
  // convertData

  /** One guess of a game: its timing, its correctness, its colours and its result objects. */
  datatype Guess = Guess(index: Value, start: Value, end: Value, duration: Value, isCorrect: Value,
                         colors: seq<Value>, results: seq<Value>)

  /**
   * A sub-trial of a MasterMindleWrapper block: a game (its guesses and the other
   * fields of its data), a survey (its questions), or anything else.
   */
  datatype SubTrial =
    | GameTrial(index: real, guesses: seq<Guess>, meta: Record)
    | SurveyTrial(index: real, name: Value, duration: Value, start: Value, end: Value, questions: seq<Question>)
    | OtherTrial

  /** The `data` of an event: a block's games and other fields, survey questions, or something else. */
  datatype EventData =
    | Block(games: seq<SubTrial>, meta: Record)
    | Questions(qs: seq<Question>)
    | OtherData

  datatype StudyEvent = StudyEvent(index: real, kind: string, name: string, data: EventData,
                                   start: real, end: real, duration: real)

  /** The four tables, the audio list and the flag `lastTrialWasMasterMindle`. */
  datatype Tables = Tables(global: seq<Record>, block: seq<Record>, game: seq<Record>, guess: seq<Record>,
                           audios: seq<Record>, lastWasBlock: bool)

  datatype GameRows = GameRows(games: seq<Record>, guesses: seq<Record>, audios: seq<Record>)

  datatype Converted = Converted(globalCsv: string, blockCsv: string, gameCsv: string, guessCsv: string,
                                 audios: seq<Record>)

  const BlockType := "MasterMindleWrapper"
  const QuestType := "Quest"

  /** `baseEventData`. */
  function Base(e: StudyEvent): Record
  {
    [Field("index", Num(e.index)), Field("type", Str(e.kind)), Field("name", Str(e.name)),
     Field("duration", Num(e.duration)), Field("start", Num(e.start)), Field("end", Num(e.end))]
  }

  /** `res.status` of a result that is neither null nor undefined. */
  function Status(res: Value): Value
  {
    if res.Obj? then Get(res.fields, "status") else Undefined
  }

  /** `results.map(res => res.status)`: the first null or undefined result throws. */
  function Statuses(results: seq<Value>): (r: Result<seq<Value>>)
    ensures r.Ok? ==> |r.value| == |results| && forall i :: 0 <= i < |results| ==> r.value[i] == Status(results[i])
  {
    if |results| == 0 then Ok([])
    else
      var n := |results| - 1;
      match Statuses(results[..n])
      case Err(m) => Err(m)
      case Ok(ss) => if Nullish(results[n]) then Err(ReadError(results[n], "status")) else Ok(ss + [Status(results[n])])
  }

  /** Reading the statuses throws exactly when some result is null or undefined. */
  lemma {:induction false} StatusesThrow(results: seq<Value>)
    ensures Statuses(results).Err? <==> exists i :: 0 <= i < |results| && Nullish(results[i])
  {
    if |results| > 0 {
      var n := |results| - 1;
      StatusesThrow(results[..n]);
      if exists i :: 0 <= i < n && Nullish(results[..n][i]) {
        var i :| 0 <= i < n && Nullish(results[..n][i]);
        assert Nullish(results[i]);
      }
      if exists i :: 0 <= i < |results| && Nullish(results[i]) {
        var i :| 0 <= i < |results| && Nullish(results[i]);
        if i < n {
          assert Nullish(results[..n][i]);
        }
      }
    }
  }

  /**
   * The guess table row of one guess. It fails exactly when some result is null or
   * undefined; otherwise it carries the guess's index, the game index, and the colours
   * and statuses joined by `_`.
   */
  function GuessRow(g: Guess, gameIndex: real, blockMeta: Record, fmt: real -> string): (r: Result<Record>)
    ensures r.Err? <==> exists i :: 0 <= i < |g.results| && Nullish(g.results[i])
    ensures r.Ok? ==>
      && Get(r.value, "index") == g.index
      && Get(r.value, "gameIndex") == Num(gameIndex)
      && Get(r.value, "colors") == Str(JoinValues(g.colors, "_", fmt))
      && Get(r.value, "results") == Str(JoinValues(seq(|g.results|, i requires 0 <= i < |g.results| => Status(g.results[i])), "_", fmt))
  {
    StatusesThrow(g.results);
    match Statuses(g.results)
    case Err(m) => Err(m)
    case Ok(statuses) =>
      assert statuses == seq(|g.results|, i requires 0 <= i < |g.results| => Status(g.results[i]));
      GuessFieldsValues(g.index, Num(gameIndex), Get(blockMeta, "blockIndex"), Get(blockMeta, "feedbacktype"),
                        g.start, g.end, g.duration, g.isCorrect,
                        Str(JoinValues(g.colors, "_", fmt)), Str(JoinValues(statuses, "_", fmt)));
      Ok(GuessFields(g.index, Num(gameIndex), Get(blockMeta, "blockIndex"), Get(blockMeta, "feedbacktype"),
                     g.start, g.end, g.duration, g.isCorrect,
                     Str(JoinValues(g.colors, "_", fmt)), Str(JoinValues(statuses, "_", fmt))))
  }

  function GuessFields(index: Value, gameIndex: Value, blockIndex: Value, feedback: Value, start: Value, end: Value,
                       duration: Value, isCorrect: Value, colors: Value, results: Value): Record
  {
    [Field("index", index), Field("gameIndex", gameIndex), Field("blockIndex", blockIndex),
     Field("blockFeedbacktype", feedback), Field("start", start), Field("end", end), Field("duration", duration),
     Field("isCorrect", isCorrect), Field("colors", colors), Field("results", results)]
  }

  lemma GuessFieldsValues(index: Value, gameIndex: Value, blockIndex: Value, feedback: Value, start: Value, end: Value,
                          duration: Value, isCorrect: Value, colors: Value, results: Value)
    ensures var r := GuessFields(index, gameIndex, blockIndex, feedback, start, end, duration, isCorrect, colors, results);
      Get(r, "index") == index && Get(r, "gameIndex") == gameIndex && Get(r, "colors") == colors && Get(r, "results") == results
  {
    var r := GuessFields(index, gameIndex, blockIndex, feedback, start, end, duration, isCorrect, colors, results);
    assert forall i, j :: 0 <= i < j < |r| ==> r[i].key != r[j].key;
    DistinctKeysWellFormed(r);
    GetAt(r, 0); GetAt(r, 1); GetAt(r, 8); GetAt(r, 9);
  }

  /** The loop over a game's guesses: one row per guess, until the first guess that throws. */
  function GuessRows(gs: seq<Guess>, gameIndex: real, blockMeta: Record, fmt: real -> string): (rows: Result<seq<Record>>)
    ensures rows.Ok? ==> |rows.value| == |gs| && forall i :: 0 <= i < |gs| ==> GuessRow(gs[i], gameIndex, blockMeta, fmt) == Ok(rows.value[i])
  {
    if |gs| == 0 then Ok([])
    else
      var n := |gs| - 1;
      match GuessRows(gs[..n], gameIndex, blockMeta, fmt)
      case Err(m) => Err(m)
      case Ok(rows) =>
        match GuessRow(gs[n], gameIndex, blockMeta, fmt)
        case Err(m) => Err(m)
        case Ok(row) =>
          var all := rows + [row];
          assert all[n] == row && all[..n] == rows;
          Ok(all)
  }

  /** A guess whose row throws makes the whole loop throw. */
  lemma {:induction false} GuessRowsFail(gs: seq<Guess>, gameIndex: real, blockMeta: Record, fmt: real -> string, j: nat)
    requires j < |gs| && GuessRow(gs[j], gameIndex, blockMeta, fmt).Err?
    ensures GuessRows(gs, gameIndex, blockMeta, fmt).Err?
  {
    var n := |gs| - 1;
    if j < n {
      assert gs[..n][j] == gs[j];
      GuessRowsFail(gs[..n], gameIndex, blockMeta, fmt, j);
    }
  }

  /** A solution given as an array is replaced by its elements joined with `_`. */
  function FixSolution(meta: Record, fmt: real -> string): (r: Result<Record>)
    ensures r.Err? <==> Truthy(Get(meta, "solution")) && !Get(meta, "solution").Str? && !Get(meta, "solution").Arr?
    ensures r.Ok? ==> forall k :: k != "solution" ==> Get(r.value, k) == Get(meta, k)
    ensures Get(meta, "solution").Arr? ==>
      r.Ok? && Get(r.value, "solution") == Str(JoinValues(Get(meta, "solution").elems, "_", fmt))
    ensures !Truthy(Get(meta, "solution")) || Get(meta, "solution").Str? ==> r == Ok(meta)
  {
    var sol := Get(meta, "solution");
    if Truthy(sol) && !sol.Str? then
      if sol.Arr? then Ok(Put(meta, "solution", Str(JoinValues(sol.elems, "_", fmt))))
      else Err("gameMetaData.solution.join is not a function")
    else Ok(meta)
  }

  /** A solution of colour names without `_` can be read back from its fixed form by splitting at `_`. */
  lemma FixedSolutionSplits(meta: Record, colors: seq<string>, fmt: real -> string)
    requires Get(meta, "solution") == Arr(seq(|colors|, i requires 0 <= i < |colors| => Str(colors[i])))
    requires |colors| >= 1 && forall i :: 0 <= i < |colors| ==> '_' !in colors[i]
    ensures FixSolution(meta, fmt).Ok?
    ensures Split(Get(FixSolution(meta, fmt).value, "solution").s, '_') == colors
  {
    var es := Get(meta, "solution").elems;
    assert seq(|es|, i requires 0 <= i < |es| => if Nullish(es[i]) then "" else ToJsString(es[i], fmt)) == colors;
    SplitJoin(colors, '_');
  }

  /** The game-table row of a survey sub-trial, before the game metadata and answers are merged in. */
  function SurveyBase(gameIndex: real, blockMeta: Record, name: Value, duration: Value, start: Value, end: Value): Record
  {
    [Field("index", Num(gameIndex)), Field("blockIndex", Get(blockMeta, "blockIndex")),
     Field("blockFeedbacktype", Get(blockMeta, "feedbacktype")), Field("type", Str("survey")),
     Field("name", name), Field("duration", duration), Field("start", start), Field("end", end)]
  }

  /** The game-table row of a survey sub-trial: its fields, then the game metadata, then its answers. */
  function SurveyRow(sv: SubTrial, gameMeta: Record, blockMeta: Record): Record
    requires sv.SurveyTrial?
  {
    var gameIndex := (sv.index - 1.0) / 2.0;
    Spread(Spread(SurveyBase(gameIndex, blockMeta, sv.name, sv.duration, sv.start, sv.end), gameMeta), SurveyAnswers(sv.questions))
  }

  /**
   * A survey row reads its answers first, then the game metadata, then its own fields;
   * its index is `(index - 1) / 2` unless the metadata or the answers name an index.
   */
  lemma SurveyRowFields(sv: SubTrial, gameMeta: Record, blockMeta: Record)
    requires sv.SurveyTrial? && WellFormed(gameMeta)
    ensures var row, answers := SurveyRow(sv, gameMeta, blockMeta), SurveyAnswers(sv.questions);
      && (forall k :: HasKey(answers, k) ==> Get(row, k) == Get(answers, k))
      && (forall k :: !HasKey(answers, k) && HasKey(gameMeta, k) ==> Get(row, k) == Get(gameMeta, k))
      && (!HasKey(answers, "index") && !HasKey(gameMeta, "index") ==> Get(row, "index") == Num((sv.index - 1.0) / 2.0))
      && (!HasKey(answers, "type") && !HasKey(gameMeta, "type") ==> Get(row, "type") == Str("survey"))
  {
    var answers := SurveyAnswers(sv.questions);
    SurveyRowIs(sv, gameMeta, blockMeta, answers);
    SurveyMerge(sv, gameMeta, blockMeta, answers);
  }

  /** The row as a spread over the survey's answers, named so that they are not unfolded. */
  lemma SurveyRowIs(sv: SubTrial, gameMeta: Record, blockMeta: Record, answers: Record)
    requires sv.SurveyTrial? && answers == SurveyAnswers(sv.questions)
    ensures SurveyRow(sv, gameMeta, blockMeta)
      == Spread(Spread(SurveyBase((sv.index - 1.0) / 2.0, blockMeta, sv.name, sv.duration, sv.start, sv.end), gameMeta), answers)
  {
  }

  /** The same for any answers object, which keeps the survey's own answers folded away. */
  lemma SurveyMerge(sv: SubTrial, gameMeta: Record, blockMeta: Record, answers: Record)
    requires sv.SurveyTrial? && WellFormed(gameMeta) && WellFormed(answers)
    ensures var base := SurveyBase((sv.index - 1.0) / 2.0, blockMeta, sv.name, sv.duration, sv.start, sv.end);
      var row := Spread(Spread(base, gameMeta), answers);
      && (forall k :: HasKey(answers, k) ==> Get(row, k) == Get(answers, k))
      && (forall k :: !HasKey(answers, k) && HasKey(gameMeta, k) ==> Get(row, k) == Get(gameMeta, k))
      && (!HasKey(answers, "index") && !HasKey(gameMeta, "index") ==> Get(row, "index") == Num((sv.index - 1.0) / 2.0))
      && (!HasKey(answers, "type") && !HasKey(gameMeta, "type") ==> Get(row, "type") == Str("survey"))
  {
    var base := SurveyBase((sv.index - 1.0) / 2.0, blockMeta, sv.name, sv.duration, sv.start, sv.end);
    SurveyBaseFields((sv.index - 1.0) / 2.0, blockMeta, sv.name, sv.duration, sv.start, sv.end);
    MergeFields(base, gameMeta, answers, Num((sv.index - 1.0) / 2.0), Str("survey"));
  }

  /** In a three-way spread the last object wins, then the middle one, then the first. */
  lemma MergeFields(base: Record, meta: Record, answers: Record, index: Value, kind: Value)
    requires WellFormed(meta) && WellFormed(answers)
    requires Get(base, "index") == index && Get(base, "type") == kind
    ensures var row := Spread(Spread(base, meta), answers);
      && (forall k :: HasKey(answers, k) ==> Get(row, k) == Get(answers, k))
      && (forall k :: !HasKey(answers, k) && HasKey(meta, k) ==> Get(row, k) == Get(meta, k))
      && (!HasKey(answers, "index") && !HasKey(meta, "index") ==> Get(row, "index") == index)
      && (!HasKey(answers, "type") && !HasKey(meta, "type") ==> Get(row, "type") == kind)
  {
    forall k ensures Get(Spread(Spread(base, meta), answers), k)
      == if HasKey(answers, k) then Get(answers, k) else if HasKey(meta, k) then Get(meta, k) else Get(base, k) {
      MergeGet(base, meta, answers, k);
    }
  }

  lemma SurveyBaseFields(gameIndex: real, blockMeta: Record, name: Value, duration: Value, start: Value, end: Value)
    ensures var base := SurveyBase(gameIndex, blockMeta, name, duration, start, end);
      Get(base, "index") == Num(gameIndex) && Get(base, "type") == Str("survey")
  {
    var base := SurveyBase(gameIndex, blockMeta, name, duration, start, end);
    assert forall i, j :: 0 <= i < j < |base| ==> base[i].key != base[j].key;
    DistinctKeysWellFormed(base);
    GetAt(base, 0);
    GetAt(base, 3);
  }

  /**
   * The loop over the sub-trials of a block: `gameMeta` is the metadata of the most
   * recent game, which every later survey row merges in. Each survey sub-trial gives
   * one game row and each guess of a game sub-trial one guess row; other sub-trials
   * give none.
   */
  function ProcessGames(games: seq<SubTrial>, gameMeta: Record, blockMeta: Record, trialName: string,
                        fmt: real -> string): (r: Result<GameRows>)
    ensures r.Ok? ==> |r.value.games| == SurveyCount(games) && |r.value.guesses| == GuessCount(games)
  {
    if |games| == 0 then Ok(GameRows([], [], []))
    else match games[0]
      case GameTrial(index, guesses, meta) =>
        (match FixSolution(meta, fmt)
          case Err(m) => Err(m)
          case Ok(m) =>
            match GuessRows(guesses, index / 2.0, blockMeta, fmt)
            case Err(msg) => Err(msg)
            case Ok(rows) =>
              match ProcessGames(games[1..], m, blockMeta, trialName, fmt)
                case Err(msg) => Err(msg)
                case Ok(rest) => Ok(GameRows(rest.games, rows + rest.guesses, rest.audios)))
      case SurveyTrial(index, _, _, _, _, qs) =>
        (match SurveyAudios(trialName + "_" + fmt((index - 1.0) / 2.0), qs)
          case Err(msg) => Err(msg)
          case Ok(audios) =>
            match ProcessGames(games[1..], gameMeta, blockMeta, trialName, fmt)
              case Err(msg) => Err(msg)
              case Ok(rest) =>
                Ok(GameRows([SurveyRow(games[0], gameMeta, blockMeta)] + rest.games, rest.guesses, audios + rest.audios)))
      case OtherTrial => ProcessGames(games[1..], gameMeta, blockMeta, trialName, fmt)
  }

  function SurveyCount(games: seq<SubTrial>): nat
  {
    if |games| == 0 then 0 else (if games[0].SurveyTrial? then 1 else 0) + SurveyCount(games[1..])
  }

  function GuessCount(games: seq<SubTrial>): nat
  {
    if |games| == 0 then 0 else (if games[0].GameTrial? then |games[0].guesses| else 0) + GuessCount(games[1..])
  }

  /**
   * A survey right after a game: the pair is read without error exactly when the
   * game's guesses and the survey are, and the survey then merges in that game's
   * fixed metadata.
   */
  lemma SurveyAfterGame(g: SubTrial, sv: SubTrial, gameMeta: Record, blockMeta: Record, trialName: string, fmt: real -> string)
    requires g.GameTrial? && sv.SurveyTrial? && FixSolution(g.meta, fmt).Ok?
    ensures var r := ProcessGames([g, sv], gameMeta, blockMeta, trialName, fmt);
      && (r.Ok? <==> GuessRows(g.guesses, g.index / 2.0, blockMeta, fmt).Ok?
                     && SurveyAudios(trialName + "_" + fmt((sv.index - 1.0) / 2.0), sv.questions).Ok?)
      && (r.Ok? ==> r.value.games == [SurveyRow(sv, FixSolution(g.meta, fmt).value, blockMeta)])
  {
    var m := FixSolution(g.meta, fmt).value;
    var rows := GuessRows(g.guesses, g.index / 2.0, blockMeta, fmt);
    var tail := ProcessGames([sv], m, blockMeta, trialName, fmt);
    var r := ProcessGames([g, sv], gameMeta, blockMeta, trialName, fmt);
    SurveyAlone(sv, m, blockMeta, trialName, fmt);
    assert [g, sv][0] == g && [g, sv][1..] == [sv];
    GameHead([g, sv], gameMeta, blockMeta, trialName, fmt);
    if rows.Err? {
      assert r == Err(rows.message);
    } else if tail.Err? {
      assert r == Err(tail.message);
    } else {
      assert r == Ok(GameRows(tail.value.games, rows.value + tail.value.guesses, tail.value.audios));
    }
  }

  /** One step of the sub-trial loop at a game sub-trial. */
  lemma GameHead(games: seq<SubTrial>, gameMeta: Record, blockMeta: Record, trialName: string, fmt: real -> string)
    requires |games| > 0 && games[0].GameTrial?
    ensures ProcessGames(games, gameMeta, blockMeta, trialName, fmt) ==
      match FixSolution(games[0].meta, fmt)
      case Err(m) => Err(m)
      case Ok(m) =>
        match GuessRows(games[0].guesses, games[0].index / 2.0, blockMeta, fmt)
        case Err(msg) => Err(msg)
        case Ok(rows) =>
          match ProcessGames(games[1..], m, blockMeta, trialName, fmt)
          case Err(msg) => Err(msg)
          case Ok(rest) => Ok(GameRows(rest.games, rows + rest.guesses, rest.audios))
  {
  }

  /** One step of the sub-trial loop at a survey sub-trial. */
  lemma SurveyHead(games: seq<SubTrial>, gameMeta: Record, blockMeta: Record, trialName: string, fmt: real -> string)
    requires |games| > 0 && games[0].SurveyTrial?
    ensures ProcessGames(games, gameMeta, blockMeta, trialName, fmt) ==
      match SurveyAudios(trialName + "_" + fmt((games[0].index - 1.0) / 2.0), games[0].questions)
      case Err(msg) => Err(msg)
      case Ok(audios) =>
        match ProcessGames(games[1..], gameMeta, blockMeta, trialName, fmt)
        case Err(msg) => Err(msg)
        case Ok(rest) => Ok(GameRows([SurveyRow(games[0], gameMeta, blockMeta)] + rest.games, rest.guesses, audios + rest.audios))
  {
  }

  /** A block of one survey sub-trial gives its row, or the error of its recordings. */
  lemma SurveyAlone(sv: SubTrial, gameMeta: Record, blockMeta: Record, trialName: string, fmt: real -> string)
    requires sv.SurveyTrial?
    ensures var r := ProcessGames([sv], gameMeta, blockMeta, trialName, fmt);
      && (r.Ok? <==> SurveyAudios(trialName + "_" + fmt((sv.index - 1.0) / 2.0), sv.questions).Ok?)
      && (r.Ok? ==> r.value.games == [SurveyRow(sv, gameMeta, blockMeta)])
  {
    assert [sv][0] == sv && [sv][1..] == [];
    assert ProcessGames([], gameMeta, blockMeta, trialName, fmt) == Ok(GameRows([], [], []));
    SurveyHead([sv], gameMeta, blockMeta, trialName, fmt);
  }

  /** In `{...a, ...b, ...c}` the fields of c win over those of b, which win over those of a. */
  lemma MergeGet(a: Record, b: Record, c: Record, k: string)
    requires WellFormed(b) && WellFormed(c)
    ensures Get(Spread(Spread(a, b), c), k) == if HasKey(c, k) then Get(c, k) else if HasKey(b, k) then Get(b, k) else Get(a, k)
  {
    SpreadGet(a, b, k);
    SpreadGet(Spread(a, b), c, k);
  }

  /** A MasterMindleWrapper event: its block row, its games, and the survey of the next event. */
  function BlockStep(events: seq<StudyEvent>, i: nat, t: Tables, fmt: real -> string): Result<Tables>
    requires i < |events|
  {
    var e := events[i];
    if i + 1 >= |events| then Err("blockSurvey is undefined")
    else if !events[i + 1].data.Questions? then Err("blockSurvey.data is not a list of questions")
    else
      var qs := events[i + 1].data.qs;
      match SurveyAudios(e.name, qs)
      case Err(m) => Err(m)
      case Ok(audios) =>
        if !e.data.Block? then Err("trial.data holds no games")
        else
          var row := Spread(Spread(Base(e), e.data.meta), SurveyAnswers(qs));
          match ProcessGames(e.data.games, [], e.data.meta, e.name, fmt)
          case Err(m) => Err(m)
          case Ok(g) =>
            Ok(Tables(t.global, t.block + [row], t.game + g.games, t.guess + g.guesses,
                      t.audios + audios + g.audios, true))
  }

  /** A Quest event not preceded by a block: one global row and its recordings. */
  function QuestStep(e: StudyEvent, t: Tables): Result<Tables>
  {
    if !e.data.Questions? then Err("trial.data is not a list of questions")
    else match SurveyAudios(e.name, e.data.qs)
      case Err(m) => Err(m)
      case Ok(audios) => Ok(t.(global := t.global + [Spread(Base(e), SurveyAnswers(e.data.qs))], audios := t.audios + audios))
  }

  /** The tables after the first n events; the first failure ends the run. */
  function Run(events: seq<StudyEvent>, n: nat, fmt: real -> string): (r: Result<Tables>)
    requires n <= |events|
    ensures r.Ok? ==> (r.value.lastWasBlock <==> n > 0 && events[n - 1].kind == BlockType)
    decreases n, 0
  {
    if n == 0 then Ok(Tables([], [], [], [], [], false)) else After(events, n - 1, fmt)
  }

  /** The tables after event i: one iteration of the loop of `convertData`. */
  function After(events: seq<StudyEvent>, i: nat, fmt: real -> string): (r: Result<Tables>)
    requires i < |events|
    ensures r.Ok? ==> (r.value.lastWasBlock <==> events[i].kind == BlockType)
    decreases i, 2
  {
    var e := events[i];
    if e.kind == BlockType then BlockAfter(events, i, fmt)
    else match Run(events, i, fmt)
      case Err(m) => Err(m)
      case Ok(t) =>
        if e.kind == QuestType && !t.lastWasBlock then
          match QuestStep(e, t)
          case Err(m) => Err(m)
          case Ok(u) => Ok(u.(lastWasBlock := false))
        else Ok(t.(lastWasBlock := false))
  }

  /** The tables after a MasterMindleWrapper event. */
  function BlockAfter(events: seq<StudyEvent>, i: nat, fmt: real -> string): Result<Tables>
    requires i < |events|
    decreases i, 1
  {
    match Run(events, i, fmt)
    case Err(m) => Err(m)
    case Ok(t) => BlockStep(events, i, t, fmt)
  }

  function Output(events: seq<StudyEvent>, fmt: real -> string): Result<Converted>
  {
    match Run(events, |events|, fmt)
    case Err(m) => Err(m)
    case Ok(t) => Ok(Converted(PlainCsv(t.global, fmt), PlainCsv(t.block, fmt), PlainCsv(t.game, fmt), PlainCsv(t.guess, fmt), t.audios))
  }

  /** Once a step fails, the whole run fails with its message. */
  lemma {:induction false} RunFails(events: seq<StudyEvent>, i: nat, n: nat, fmt: real -> string)
    requires i <= n <= |events| && Run(events, i, fmt).Err?
    ensures Run(events, n, fmt) == Run(events, i, fmt)
  {
    if n > i {
      RunFails(events, i, n - 1, fmt);
      if events[n - 1].kind == BlockType {
        assert Run(events, n, fmt) == BlockAfter(events, n - 1, fmt);
      }
    }
  }

  /** A Quest event right after a MasterMindleWrapper event adds no row and no recording. */
  lemma QuestAfterBlockSkipped(events: seq<StudyEvent>, i: nat, fmt: real -> string)
    requires 0 < i < |events| && events[i - 1].kind == BlockType && events[i].kind == QuestType
    requires Run(events, i, fmt).Ok?
    ensures Run(events, i + 1, fmt) == Ok(Run(events, i, fmt).value.(lastWasBlock := false))
  {
  }

  /**
   * Any other Quest event succeeds exactly when its survey does, and then adds one
   * global row, its answers merged over the event's fields.
   */
  lemma QuestAdds(events: seq<StudyEvent>, i: nat, fmt: real -> string)
    requires i < |events| && events[i].kind == QuestType && (i == 0 || events[i - 1].kind != BlockType)
    requires Run(events, i, fmt).Ok? && events[i].data.Questions?
    ensures var t := Run(events, i, fmt).value;
      && (Run(events, i + 1, fmt).Ok? <==> SurveyAudios(events[i].name, events[i].data.qs).Ok?)
      && (Run(events, i + 1, fmt).Ok? ==>
            Run(events, i + 1, fmt).value.global == t.global + [Spread(Base(events[i]), SurveyAnswers(events[i].data.qs))])
  {
  }

  /**
   * A Quest event not preceded by a block whose survey holds a recording question
   * without a value makes the whole conversion fail.
   */
  lemma NullRecordingFails(events: seq<StudyEvent>, i: nat, j: nat, fmt: real -> string)
    requires i < |events| && events[i].kind == QuestType && (i == 0 || events[i - 1].kind != BlockType)
    requires events[i].data.Questions? && j < |events[i].data.qs| && Unreadable(events[i].data.qs[j])
    ensures Run(events, |events|, fmt).Err?
  {
    if Run(events, i, fmt).Err? {
      RunFails(events, i, |events|, fmt);
    } else {
      var t := Run(events, i, fmt).value;
        SurveyAudiosThrows(events[i].name, events[i].data.qs);
      assert QuestStep(events[i], t).Err?;
      assert Run(events, i + 1, fmt) == After(events, i, fmt);
      RunFails(events, i + 1, |events|, fmt);
    }
  }

  /** A game whose guess holds a null or undefined result makes the loop over the sub-trials fail. */
  lemma NullResultFails(games: seq<SubTrial>, gameMeta: Record, blockMeta: Record, trialName: string,
                        fmt: real -> string, j: nat, k: nat)
    requires |games| > 0 && games[0].GameTrial? && FixSolution(games[0].meta, fmt).Ok?
    requires j < |games[0].guesses| && k < |games[0].guesses[j].results| && Nullish(games[0].guesses[j].results[k])
    ensures ProcessGames(games, gameMeta, blockMeta, trialName, fmt).Err?
  {
    var g := games[0];
    GuessRowsFail(g.guesses, g.index / 2.0, blockMeta, fmt, j);
  }

  /** Events of other types only clear the flag. */
  lemma OtherEventsIgnored(events: seq<StudyEvent>, i: nat, fmt: real -> string)
    requires i < |events| && events[i].kind != QuestType && events[i].kind != BlockType
    requires Run(events, i, fmt).Ok?
    ensures Run(events, i + 1, fmt) == Ok(Run(events, i, fmt).value.(lastWasBlock := false))
  {
  }

  /** The MasterMindleWrapper branch of the loop: the block row, its recordings and its games. */
  method ProcessBlock(events: seq<StudyEvent>, i: nat, t: Tables, fmt: real -> string) returns (r: Result<Tables>)
    requires i < |events|
    ensures r == BlockStep(events, i, t, fmt)
  {
    var e := events[i];
    if i + 1 >= |events| {
      return Err("blockSurvey is undefined");
    }
    if !events[i + 1].data.Questions? {
      return Err("blockSurvey.data is not a list of questions");
    }
    var survey := ProcessSurvey(e.name, events[i + 1].data.qs);
    if survey.Err? {
      return Err(survey.message);
    }
    if !e.data.Block? {
      return Err("trial.data holds no games");
    }
    var audioData := t.audios + survey.value.audios;
    var blockData := t.block + [Spread(Spread(Base(e), e.data.meta), survey.value.answers)];
    var g := ProcessGames(e.data.games, [], e.data.meta, e.name, fmt);
    if g.Err? {
      return Err(g.message);
    }
    r := Ok(Tables(t.global, blockData, t.game + g.value.games, t.guess + g.value.guesses, audioData + g.value.audios, true));
  }

  /** A Quest event not preceded by a block: its survey answers become one global row. */
  method ProcessQuest(e: StudyEvent, t: Tables) returns (r: Result<Tables>)
    ensures r == QuestStep(e, t)
  {
    if !e.data.Questions? {
      return Err("trial.data is not a list of questions");
    }
    var survey := ProcessSurvey(e.name, e.data.qs);
    if survey.Err? {
      return Err(survey.message);
    }
    r := Ok(t.(global := t.global + [Spread(Base(e), survey.value.answers)], audios := t.audios + survey.value.audios));
  }

  /** `convertData`: one pass over the events, then the four tables written as CSV. */
  method ConvertData(events: seq<StudyEvent>, fmt: real -> string) returns (r: Result<Converted>)
    ensures r == Output(events, fmt)
  {
    var run := ProcessEvents(events, fmt);
    if run.Err? {
      return Err(run.message);
    }
    var tables := run.value;
    var globalCsv := ArrayToCsv(tables.global, fmt);
    var blockCsv := ArrayToCsv(tables.block, fmt);
    var gameCsv := ArrayToCsv(tables.game, fmt);
    var guessCsv := ArrayToCsv(tables.guess, fmt);
    r := Ok(Converted(globalCsv, blockCsv, gameCsv, guessCsv, tables.audios));
  }

  /** The loop of `convertData`: the five tables and the flag of the source, as one value. */
  method ProcessEvents(events: seq<StudyEvent>, fmt: real -> string) returns (r: Result<Tables>)
    ensures r == Run(events, |events|, fmt)
  {
    var tables := Tables([], [], [], [], [], false);
    // the source's loop runs one index past the end, where `!trial` skips
    for i := 0 to |events|
      invariant Run(events, i, fmt) == Ok(tables)
    {
      r := ProcessEvent(events, i, tables, fmt);
      if r.Err? {
        return;
      }
      tables := r.value;
    }
    r := Ok(tables);
  }

  method ProcessEvent(events: seq<StudyEvent>, i: nat, t: Tables, fmt: real -> string) returns (r: Result<Tables>)
    requires i < |events| && Run(events, i, fmt) == Ok(t)
    ensures r == Run(events, i + 1, fmt)
    ensures r.Err? ==> r == Run(events, |events|, fmt)
  {
    var e := events[i];
    var lastWasBlock := t.lastWasBlock;
    r := Ok(t);
    if e.kind == BlockType {
      r := ProcessBlock(events, i, t, fmt);
      assert BlockAfter(events, i, fmt) == BlockStep(events, i, t, fmt);
      if r.Err? {
        RunFails(events, i + 1, |events|, fmt);
        return;
      }
    } else if e.kind == QuestType {
      if !lastWasBlock {
        r := ProcessQuest(e, t);
        if r.Err? {
          RunFails(events, i + 1, |events|, fmt);
          return;
        }
      }
    }
    if e.kind != BlockType {
      r := Ok(r.value.(lastWasBlock := false));
    }
  }
}
