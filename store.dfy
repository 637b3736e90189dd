/**
 * The three tables both deployments keep in an in-memory SQLite database
 * (`sentences`, `user_progress`, `quiz_history`), and the statements that
 * change them. Times are whole seconds; the caller passes the one clock
 * reading a request uses as `now`.
 */
module Store {
  import opened Options
  import opened JsString
  import opened JsValue

  /** A `sentences` row. `breakdown` is the value whose JSON text is stored. */
  datatype SentenceRow = SentenceRow(
    id: int, keyword: string, level: string, japanese: string, pronunciation: string,
    translation: string, breakdown: Json, createdAt: int, bookmarked: bool)

  /** A `user_progress` row. */
  datatype ProgressRow = ProgressRow(
    id: int, keyword: string, timesStudied: int, lastStudied: int, difficulty: string)

  /** A `quiz_history` row: `sentenceRef` is the number or string bound for `sentence_id`. */
  datatype AnswerRow = AnswerRow(id: int, sentenceRef: Json, correct: bool, answeredAt: int)

  /** `difficulty_preference` when the insert does not name it. */
  const DefaultDifficulty: string := "mixed"

  /** A value the driver binds to one parameter as it is: a number, a string or null. */
  predicate Scalar(v: Json) {
    v.JNum? || v.JStr? || v.JNull?
  }

  /**
   * The value the driver binds for one argument of a statement. A number, a
   * string or null is bound as it is. An array argument is spread over the
   * statement's parameters, so where one parameter takes the argument, a
   * one-element array binds its element and any other array leaves the
   * parameter count unmet. `None` is the statement throwing: booleans,
   * objects, nested arrays and miscounted arrays are refused.
   */
  function Bound(v: Json): (r: Option<Json>)
    ensures r.Some? ==> Scalar(r.value)
    ensures Scalar(v) ==> r == Some(v)
    ensures v.JArr? ==> (r.Some? <==> |v.items| == 1 && Scalar(v.items[0]))
    ensures v.JArr? && r.Some? ==> r.value == v.items[0]
    ensures v.JBool? || v.JObj? ==> r.None?
  {
    match v
    case JArr(items) => if |items| == 1 && Scalar(items[0]) then Some(items[0]) else None
    case JBool(_) => None
    case JObj(_) => None
    case _ => Some(v)
  }

  /**
   * The text a `TEXT NOT NULL` column keeps for an argument: a string as it
   * is; a number is bound as a REAL, which the column's TEXT affinity writes
   * as its decimal text with a `.0` fraction; a one-element array stores its
   * element's text. `None` is the statement throwing: null and an absent
   * value violate NOT NULL, and the driver refuses anything `Bound` refuses.
   */
  function BindText(v: Option<Json>): (r: Option<string>)
    ensures r.Some? <==> v.Some? && Bound(v.value).Some? && !Bound(v.value).value.JNull?
    ensures v.Some? && v.value.JStr? ==> r == Some(v.value.s)
    ensures v.Some? && v.value.JNum? ==> r.Some? && IntText(v.value.n) <= r.value && r.value[|IntText(v.value.n)|..] == ".0"
    ensures v.Some? && v.value.JArr? && |v.value.items| == 1 && v.value.items[0].JStr? ==> r == Some(v.value.items[0].s)
  {
    if v.None? then None
    else
      match Bound(v.value)
      case Some(JStr(s)) => Some(s)
      case Some(JNum(n)) => Some(IntText(n) + ".0")
      case _ => None
  }

  /**
   * The bound value `v` equals the INTEGER value `id` in a comparison with an
   * integer column: a number equal to it, or a text that INTEGER affinity
   * turns into it (an optional sign and decimal digits).
   */
  predicate RefersTo(v: Json, id: int) {
    || (v.JNum? && v.n == id)
    || (v.JStr? && SqlInteger(v.s) == Some(id))
  }

  /** A bound value names at most one id. */
  lemma RefersToOne(v: Json, a: int, b: int)
    requires RefersTo(v, a) && RefersTo(v, b)
    ensures a == b
  {
  }

  /**
   * Ids are positive, strictly increasing in table order, and not above the
   * table's AUTOINCREMENT mark `high` (one predicate per table).
   */
  predicate SentenceIdsFresh(rows: seq<SentenceRow>, high: int) {
    && (forall i, j :: 0 <= i < j < |rows| ==> rows[i].id < rows[j].id)
    && (forall i :: 0 <= i < |rows| ==> 0 < rows[i].id <= high)
  }

  predicate ProgressIdsFresh(rows: seq<ProgressRow>, high: int) {
    && (forall i, j :: 0 <= i < j < |rows| ==> rows[i].id < rows[j].id)
    && (forall i :: 0 <= i < |rows| ==> 0 < rows[i].id <= high)
  }

  predicate AnswerIdsFresh(rows: seq<AnswerRow>, high: int) {
    && (forall i, j :: 0 <= i < j < |rows| ==> rows[i].id < rows[j].id)
    && (forall i :: 0 <= i < |rows| ==> 0 < rows[i].id <= high)
  }

  // ---------------------------------------------------------------------------
  // user_progress

  /** The progress row of `keyword`, if there is one. */
  function FindProgress(rows: seq<ProgressRow>, keyword: string): (r: Option<ProgressRow>)
    ensures r.Some? ==> r.value in rows && r.value.keyword == keyword
    ensures r.None? ==> forall i :: 0 <= i < |rows| ==> rows[i].keyword != keyword
  {
    if |rows| == 0 then None
    else if rows[0].keyword == keyword then Some(rows[0])
    else FindProgress(rows[1..], keyword)
  }

  /** How many times `keyword` has been studied: 0 when it has no row. */
  function TimesStudied(rows: seq<ProgressRow>, keyword: string): int {
    var row := FindProgress(rows, keyword);
    if row.Some? then row.value.timesStudied else 0
  }

  /** The rows whose keyword is not `keyword`, in order. */
  function WithoutKeyword(rows: seq<ProgressRow>, keyword: string): (r: seq<ProgressRow>)
    ensures forall i :: 0 <= i < |r| ==> r[i].keyword != keyword
    ensures forall x :: x in r <==> x in rows && x.keyword != keyword
    ensures |r| <= |rows|
  {
    if |rows| == 0 then []
    else if rows[0].keyword == keyword then WithoutKeyword(rows[1..], keyword)
    else [rows[0]] + WithoutKeyword(rows[1..], keyword)
  }

  /** No two rows share a keyword (the UNIQUE constraint). */
  predicate KeywordsDistinct(rows: seq<ProgressRow>) {
    forall i, j :: 0 <= i < j < |rows| ==> rows[i].keyword != rows[j].keyword
  }

  /**
   * The table after `INSERT OR REPLACE INTO user_progress (keyword,
   * times_studied, last_studied) VALUES (?, COALESCE(previous + 1, 1), now)`:
   * the keyword's old row is deleted and a row with the next id is added,
   * its difficulty back at the column default.
   */
  function Upserted(rows: seq<ProgressRow>, keyword: string, now: int, newId: int): seq<ProgressRow> {
    var prev := FindProgress(rows, keyword);
    var times := if prev.Some? then prev.value.timesStudied + 1 else 1;
    WithoutKeyword(rows, keyword) + [ProgressRow(newId, keyword, times, now, DefaultDifficulty)]
  }

  lemma {:induction false} FindProgressUnique(rows: seq<ProgressRow>, i: int)
    requires KeywordsDistinct(rows) && 0 <= i < |rows|
    ensures FindProgress(rows, rows[i].keyword) == Some(rows[i])
  {
    if i > 0 {
      FindProgressUnique(rows[1..], i - 1);
    }
  }

  lemma {:induction false} FindProgressWithout(rows: seq<ProgressRow>, keyword: string, other: string)
    requires other != keyword
    ensures FindProgress(WithoutKeyword(rows, keyword), other) == FindProgress(rows, other)
  {
    if |rows| > 0 {
      FindProgressWithout(rows[1..], keyword, other);
    }
  }

  /** Every row left after dropping a keyword's rows comes from a later position of the table. */
  lemma WithoutKeywordFrom(rows: seq<ProgressRow>, keyword: string, k: int)
    requires 0 <= k < |WithoutKeyword(rows, keyword)|
    ensures exists m :: 0 <= m < |rows| && rows[m] == WithoutKeyword(rows, keyword)[k]
  {
    assert WithoutKeyword(rows, keyword)[k] in rows;
  }

  /** Dropping a keyword's rows keeps the other keywords distinct. */
  lemma {:induction false} WithoutKeywordDistinct(rows: seq<ProgressRow>, keyword: string)
    requires KeywordsDistinct(rows)
    ensures KeywordsDistinct(WithoutKeyword(rows, keyword))
  {
    if |rows| > 0 && rows[0].keyword != keyword {
      var t := WithoutKeyword(rows[1..], keyword);
      WithoutKeywordDistinct(rows[1..], keyword);
      forall k | 0 <= k < |t| ensures rows[0].keyword != t[k].keyword {
        WithoutKeywordFrom(rows[1..], keyword, k);
      }
      DistinctCons(rows[0], t);
    } else if |rows| > 0 {
      WithoutKeywordDistinct(rows[1..], keyword);
    }
  }

  lemma DistinctCons(x: ProgressRow, t: seq<ProgressRow>)
    requires KeywordsDistinct(t) && forall k :: 0 <= k < |t| ==> x.keyword != t[k].keyword
    ensures KeywordsDistinct([x] + t)
  {
    var w := [x] + t;
    forall i, j | 0 <= i < j < |w| ensures w[i].keyword != w[j].keyword {
      assert w[j] == t[j - 1];
      if i > 0 { assert w[i] == t[i - 1]; }
    }
  }

  /** Dropping a keyword's rows keeps the rest in id order under the same mark. */
  lemma {:induction false} WithoutKeywordFresh(rows: seq<ProgressRow>, keyword: string, high: int)
    requires ProgressIdsFresh(rows, high)
    ensures ProgressIdsFresh(WithoutKeyword(rows, keyword), high)
  {
    if |rows| > 0 && rows[0].keyword != keyword {
      var t := WithoutKeyword(rows[1..], keyword);
      WithoutKeywordFresh(rows[1..], keyword, high);
      forall k | 0 <= k < |t| ensures rows[0].id < t[k].id {
        WithoutKeywordFrom(rows[1..], keyword, k);
      }
      FreshCons(rows[0], t, high);
    } else if |rows| > 0 {
      WithoutKeywordFresh(rows[1..], keyword, high);
    }
  }

  lemma FreshCons(x: ProgressRow, t: seq<ProgressRow>, high: int)
    requires ProgressIdsFresh(t, high) && 0 < x.id <= high && forall k :: 0 <= k < |t| ==> x.id < t[k].id
    ensures ProgressIdsFresh([x] + t, high)
  {
    var w := [x] + t;
    forall i, j | 0 <= i < j < |w| ensures w[i].id < w[j].id {
      assert w[j] == t[j - 1];
      if i > 0 { assert w[i] == t[i - 1]; }
    }
  }

  /**
   * The upsert counts one more study of `keyword` (1 for a new keyword),
   * stamps it `now`, and leaves every other keyword's row as it was.
   */
  lemma UpsertedCounts(rows: seq<ProgressRow>, keyword: string, now: int, newId: int)
    ensures FindProgress(Upserted(rows, keyword, now, newId), keyword)
              == Some(ProgressRow(newId, keyword, TimesStudied(rows, keyword) + 1, now, DefaultDifficulty))
    ensures TimesStudied(Upserted(rows, keyword, now, newId), keyword) == TimesStudied(rows, keyword) + 1
    ensures forall other :: other != keyword ==>
              FindProgress(Upserted(rows, keyword, now, newId), other) == FindProgress(rows, other)
  {
    var w := WithoutKeyword(rows, keyword);
    var row := ProgressRow(newId, keyword, TimesStudied(rows, keyword) + 1, now, DefaultDifficulty);
    assert Upserted(rows, keyword, now, newId) == w + [row];
    FindProgressAppend(w, row, keyword);
    forall other | other != keyword
      ensures FindProgress(Upserted(rows, keyword, now, newId), other) == FindProgress(rows, other)
    {
      UpsertedKeepsOther(rows, keyword, now, newId, other);
    }
  }

  /**
   * The table after the upsert holds exactly the rows of the other keywords,
   * and, last, the keyword's new row: the next id, one more study, stamped
   * `now`, the default difficulty.
   */
  lemma UpsertedContents(rows: seq<ProgressRow>, keyword: string, now: int, newId: int)
    ensures |Upserted(rows, keyword, now, newId)| > 0
    ensures Upserted(rows, keyword, now, newId)[|Upserted(rows, keyword, now, newId)| - 1]
              == ProgressRow(newId, keyword, TimesStudied(rows, keyword) + 1, now, DefaultDifficulty)
    ensures forall x :: x in Upserted(rows, keyword, now, newId)[..|Upserted(rows, keyword, now, newId)| - 1]
              <==> x in rows && x.keyword != keyword
  {
    var w := WithoutKeyword(rows, keyword);
    var u := Upserted(rows, keyword, now, newId);
    assert u[..|u| - 1] == w;
  }

  lemma UpsertedKeepsOther(rows: seq<ProgressRow>, keyword: string, now: int, newId: int, other: string)
    requires other != keyword
    ensures FindProgress(Upserted(rows, keyword, now, newId), other) == FindProgress(rows, other)
  {
    var w := WithoutKeyword(rows, keyword);
    var row := ProgressRow(newId, keyword, TimesStudied(rows, keyword) + 1, now, DefaultDifficulty);
    assert Upserted(rows, keyword, now, newId) == w + [row];
    FindProgressAppend(w, row, other);
    FindProgressWithout(rows, keyword, other);
  }

  lemma {:induction false} FindProgressAppend(rows: seq<ProgressRow>, row: ProgressRow, keyword: string)
    ensures FindProgress(rows + [row], keyword) ==
              if FindProgress(rows, keyword).Some? then FindProgress(rows, keyword)
              else if row.keyword == keyword then Some(row) else None
  {
    if |rows| > 0 {
      assert (rows + [row])[1..] == rows[1..] + [row];
      FindProgressAppend(rows[1..], row, keyword);
    }
  }

  /** The upsert keeps keywords distinct and ids fresh, given a new id above the mark. */
  lemma UpsertedKeepsInvariant(rows: seq<ProgressRow>, keyword: string, now: int, high: int)
    requires KeywordsDistinct(rows) && ProgressIdsFresh(rows, high) && high >= 0
    ensures var u := Upserted(rows, keyword, now, high + 1);
            KeywordsDistinct(u) && ProgressIdsFresh(u, high + 1)
  {
    var w := WithoutKeyword(rows, keyword);
    var u := Upserted(rows, keyword, now, high + 1);
    WithoutKeywordDistinct(rows, keyword);
    WithoutKeywordFresh(rows, keyword, high);
    assert u == w + [u[|w|]];
    forall i, j | 0 <= i < j < |u| ensures u[i].keyword != u[j].keyword && u[i].id < u[j].id {
      assert u[i] == w[i];
    }
  }

  // ---------------------------------------------------------------------------
  // sentences.bookmarked

  /** The table after `UPDATE sentences SET bookmarked = flag WHERE id = ref`. */
  function WithBookmark(rows: seq<SentenceRow>, ref: Json, flag: bool): (r: seq<SentenceRow>)
    ensures |r| == |rows|
    ensures forall i :: 0 <= i < |rows| ==>
              r[i] == if RefersTo(ref, rows[i].id) then rows[i].(bookmarked := flag) else rows[i]
  {
    seq(|rows|, i requires 0 <= i < |rows| => if RefersTo(ref, rows[i].id) then rows[i].(bookmarked := flag) else rows[i])
  }

  /** The number of rows `WHERE id = ref` selects (the statement's `changes`). */
  function MatchCount(rows: seq<SentenceRow>, ref: Json): (n: nat)
    ensures n <= |rows|
    ensures n == 0 <==> forall i :: 0 <= i < |rows| ==> !RefersTo(ref, rows[i].id)
  {
    if |rows| == 0 then 0
    else (if RefersTo(ref, rows[0].id) then 1 else 0) + MatchCount(rows[1..], ref)
  }

  /** With distinct ids, the update changes at most one row. */
  lemma {:induction false} AtMostOneMatch(rows: seq<SentenceRow>, ref: Json, high: int)
    requires SentenceIdsFresh(rows, high)
    ensures MatchCount(rows, ref) <= 1
  {
    if |rows| > 0 {
      AtMostOneMatch(rows[1..], ref, high);
      if RefersTo(ref, rows[0].id) {
        forall i | 1 <= i < |rows| ensures !RefersTo(ref, rows[i].id) {
          if RefersTo(ref, rows[i].id) {
            RefersToOne(ref, rows[0].id, rows[i].id);
          }
        }
        assert MatchCount(rows[1..], ref) == 0;
      }
    }
  }

  /** An update that selects no row leaves the table as it was. */
  lemma NoMatchNoChange(rows: seq<SentenceRow>, ref: Json, flag: bool)
    requires MatchCount(rows, ref) == 0
    ensures WithBookmark(rows, ref, flag) == rows
  {
  }

  /** Repeating the update changes nothing more. */
  lemma WithBookmarkIdempotent(rows: seq<SentenceRow>, ref: Json, flag: bool)
    ensures WithBookmark(WithBookmark(rows, ref, flag), ref, flag) == WithBookmark(rows, ref, flag)
  {
  }

  // ---------------------------------------------------------------------------
  // sentences: the generate handlers' inserts

  /** The five values one `INSERT INTO sentences` binds besides the keyword. */
  datatype SentenceParams = SentenceParams(
    level: string, japanese: string, pronunciation: string, translation: string, breakdown: Json)

  /**
   * Binding the insert's values for `sentence` with the level value `level`.
   * `None` is the statement throwing: a level or text that is missing, null
   * or neither a string nor a number, or a breakdown that is absent
   * (`JSON.stringify(undefined)` gives nothing to bind).
   */
  function BindSentence(level: Option<Json>, sentence: Json): (r: Option<SentenceParams>)
    ensures r.Some? <==>
              && BindText(level).Some?
              && BindText(Member(sentence, "japanese")).Some?
              && BindText(Member(sentence, "pronunciation")).Some?
              && BindText(Member(sentence, "translation")).Some?
              && Member(sentence, "breakdown").Some?
    ensures r.Some? ==> Some(r.value.breakdown) == Member(sentence, "breakdown")
  {
    var l := BindText(level);
    var j := BindText(Member(sentence, "japanese"));
    var p := BindText(Member(sentence, "pronunciation"));
    var t := BindText(Member(sentence, "translation"));
    var b := Member(sentence, "breakdown");
    if l.Some? && j.Some? && p.Some? && t.Some? && b.Some? then
      Some(SentenceParams(l.value, j.value, p.value, t.value, b.value))
    else None
  }

  /** How many of the inserts, from the first, bind: a loop of inserts stops at the first that throws. */
  function BoundPrefix(ps: seq<Option<SentenceParams>>): (n: nat)
    ensures n <= |ps|
    ensures forall k :: 0 <= k < n ==> ps[k].Some?
    ensures n < |ps| ==> ps[n].None?
  {
    if |ps| == 0 || ps[0].None? then 0
    else
      assert forall k :: 1 <= k < |ps| ==> ps[k] == ps[1..][k - 1];
      1 + BoundPrefix(ps[1..])
  }

  /** The rows the inserts of `ps` add, stamped `now`, with the ids `firstId`, `firstId + 1`, ... */
  function InsertedRows(keyword: string, ps: seq<Option<SentenceParams>>, firstId: int, now: int): (rows: seq<SentenceRow>)
    requires forall k :: 0 <= k < |ps| ==> ps[k].Some?
    ensures |rows| == |ps|
    ensures forall k :: 0 <= k < |ps| ==>
              && rows[k].id == firstId + k && rows[k].keyword == keyword
              && rows[k].level == ps[k].value.level && rows[k].japanese == ps[k].value.japanese
              && rows[k].pronunciation == ps[k].value.pronunciation
              && rows[k].translation == ps[k].value.translation
              && rows[k].breakdown == ps[k].value.breakdown
              && rows[k].createdAt == now && !rows[k].bookmarked
  {
    seq(|ps|, k requires 0 <= k < |ps| =>
      var p := ps[k].value;
      SentenceRow(firstId + k, keyword, p.level, p.japanese, p.pronunciation, p.translation, p.breakdown, now, false))
  }

  // ---------------------------------------------------------------------------
  // The database

  /** The in-memory database of one process, with an AUTOINCREMENT mark per table. */
  class Database {
    var sentences: seq<SentenceRow>
    var progress: seq<ProgressRow>
    var answers: seq<AnswerRow>
    var sentenceSeq: int
    var progressSeq: int
    var answerSeq: int

    predicate Valid()
      reads this
    {
      && sentenceSeq >= 0 && progressSeq >= 0 && answerSeq >= 0
      && SentenceIdsFresh(sentences, sentenceSeq)
      && ProgressIdsFresh(progress, progressSeq)
      && AnswerIdsFresh(answers, answerSeq)
      && KeywordsDistinct(progress)
    }

    /** The freshly created database: three empty tables. */
    constructor ()
      ensures Valid()
      ensures sentences == [] && progress == [] && answers == []
      ensures sentenceSeq == 0 && progressSeq == 0 && answerSeq == 0
    {
      sentences, progress, answers := [], [], [];
      sentenceSeq, progressSeq, answerSeq := 0, 0, 0;
    }

    /**
     * `INSERT INTO sentences (keyword, level, japanese, pronunciation,
     * translation, breakdown)`: a row with the next id, stamped `now`, not
     * bookmarked; `id` is its `lastInsertRowid`, above every existing id.
     */
    method InsertSentence(keyword: string, level: string, japanese: string, pronunciation: string,
                          translation: string, breakdown: Json, now: int) returns (id: int)
      requires Valid()
      modifies this
      ensures Valid()
      ensures id == old(sentenceSeq) + 1 && sentenceSeq == id
      ensures forall i :: 0 <= i < |old(sentences)| ==> old(sentences)[i].id < id
      ensures sentences == old(sentences) +
                [SentenceRow(id, keyword, level, japanese, pronunciation, translation, breakdown, now, false)]
      ensures progress == old(progress) && progressSeq == old(progressSeq)
      ensures answers == old(answers) && answerSeq == old(answerSeq)
    {
      id := sentenceSeq + 1;
      sentences := sentences + [SentenceRow(id, keyword, level, japanese, pronunciation, translation, breakdown, now, false)];
      sentenceSeq := id;
    }

    /**
     * The inserts of one generate request, in order, until the first that
     * throws: `n` rows are added, one per bound entry of `ps` from the first,
     * with consecutive ids above every existing id.
     */
    method InsertSentences(keyword: string, ps: seq<Option<SentenceParams>>, now: int) returns (n: nat)
      requires Valid()
      modifies this
      ensures Valid()
      ensures n == BoundPrefix(ps)
      ensures sentenceSeq == old(sentenceSeq) + n
      ensures sentences == old(sentences) + InsertedRows(keyword, ps[..n], old(sentenceSeq) + 1, now)
      ensures progress == old(progress) && progressSeq == old(progressSeq)
      ensures answers == old(answers) && answerSeq == old(answerSeq)
    {
      n := 0;
      while n < |ps| && ps[n].Some?
        invariant n <= BoundPrefix(ps)
        invariant Valid()
        invariant sentenceSeq == old(sentenceSeq) + n
        invariant sentences == old(sentences) + InsertedRows(keyword, ps[..n], old(sentenceSeq) + 1, now)
        invariant progress == old(progress) && progressSeq == old(progressSeq)
        invariant answers == old(answers) && answerSeq == old(answerSeq)
        decreases |ps| - n
      {
        var p := ps[n].value;
        ghost var before := sentences;
        var id := InsertSentence(keyword, p.level, p.japanese, p.pronunciation, p.translation, p.breakdown, now);
        assert InsertedRows(keyword, ps[..n + 1], old(sentenceSeq) + 1, now) ==
               InsertedRows(keyword, ps[..n], old(sentenceSeq) + 1, now) + [sentences[|sentences| - 1]];
        n := n + 1;
      }
    }

    /** The `INSERT OR REPLACE INTO user_progress` both generate handlers run once per request. */
    method UpsertProgress(keyword: string, now: int)
      requires Valid()
      modifies this
      ensures Valid()
      ensures progressSeq == old(progressSeq) + 1
      ensures progress == Upserted(old(progress), keyword, now, progressSeq)
      ensures TimesStudied(progress, keyword) == TimesStudied(old(progress), keyword) + 1
      ensures forall other :: other != keyword ==> FindProgress(progress, other) == FindProgress(old(progress), other)
      ensures sentences == old(sentences) && sentenceSeq == old(sentenceSeq)
      ensures answers == old(answers) && answerSeq == old(answerSeq)
    {
      var next := Upserted(progress, keyword, now, progressSeq + 1);
      UpsertedKeepsInvariant(progress, keyword, now, progressSeq);
      UpsertedCounts(progress, keyword, now, progressSeq + 1);
      progress, progressSeq := next, progressSeq + 1;
    }

    /**
     * The writes of one generate request: the inserts until the first that
     * throws, then, only when all of them went in, the progress upsert.
     * `stored` says whether every entry of `ps` was inserted.
     */
    method StoreBatch(keyword: string, ps: seq<Option<SentenceParams>>, now: int) returns (stored: bool)
      requires Valid()
      modifies this
      ensures Valid()
      ensures stored <==> BoundPrefix(ps) == |ps|
      ensures sentences == old(sentences) + InsertedRows(keyword, ps[..BoundPrefix(ps)], old(sentenceSeq) + 1, now)
      ensures stored ==> progress == Upserted(old(progress), keyword, now, old(progressSeq) + 1)
      ensures stored ==> TimesStudied(progress, keyword) == TimesStudied(old(progress), keyword) + 1
      ensures !stored ==> progress == old(progress)
      ensures answers == old(answers)
    {
      var n := InsertSentences(keyword, ps, now);
      stored := n == |ps|;
      if stored {
        UpsertProgress(keyword, now);
      }
    }

    /**
     * `INSERT INTO quiz_history (sentence_id, correct)`. The driver's SQLite
     * enforces foreign keys, so unless the bound id names a sentence the
     * insert throws and the log and its sequence stay as they were.
     */
    method AppendAnswer(sentenceRef: Json, correct: bool, now: int) returns (id: Option<int>)
      requires Valid()
      modifies this
      ensures Valid()
      ensures id.Some? <==> MatchCount(sentences, sentenceRef) > 0
      ensures id.Some? ==> && id.value == old(answerSeq) + 1 && answerSeq == id.value
                           && answers == old(answers) + [AnswerRow(id.value, sentenceRef, correct, now)]
      ensures id.None? ==> answers == old(answers) && answerSeq == old(answerSeq)
      ensures sentences == old(sentences) && sentenceSeq == old(sentenceSeq)
      ensures progress == old(progress) && progressSeq == old(progressSeq)
    {
      if MatchCount(sentences, sentenceRef) == 0 {
        return None;
      }
      id := Some(answerSeq + 1);
      answers := answers + [AnswerRow(id.value, sentenceRef, correct, now)];
      answerSeq := id.value;
    }

    /**
     * `UPDATE sentences SET bookmarked = ? WHERE id = ?`: the flag of the row
     * `ref` names becomes `flag`; `changes` is how many rows that was (0 or 1).
     */
    method SetBookmark(ref: Json, flag: bool) returns (changes: nat)
      requires Valid()
      modifies this
      ensures Valid()
      ensures sentences == WithBookmark(old(sentences), ref, flag)
      ensures changes == MatchCount(old(sentences), ref) && changes <= 1
      ensures sentenceSeq == old(sentenceSeq)
      ensures progress == old(progress) && progressSeq == old(progressSeq)
      ensures answers == old(answers) && answerSeq == old(answerSeq)
    {
      AtMostOneMatch(sentences, ref, sentenceSeq);
      changes := MatchCount(sentences, ref);
      sentences := WithBookmark(sentences, ref, flag);
    }
  }
}
