/**
 * The read-only queries of both deployments over the tables: newest-first
 * history and bookmark lists, the progress list, and the three aggregate
 * counts. A selected row is a JSON object holding the selected columns, its
 * `breakdown` parsed back from the stored JSON text.
 */
module Queries {
  import opened Options
  import opened JsString
  import opened JsValue
  import opened Store
  import opened Ordering

  // ---------------------------------------------------------------------------
  // Rows as the driver returns them

  /** Every column of a `sentences` row; `bookmarked` reads back as 1 or 0. */
  function SentenceColumns(r: SentenceRow): map<string, Json> {
    map[
      "id" := JNum(r.id),
      "keyword" := JStr(r.keyword),
      "level" := JStr(r.level),
      "japanese" := JStr(r.japanese),
      "pronunciation" := JStr(r.pronunciation),
      "translation" := JStr(r.translation),
      "breakdown" := r.breakdown,
      "created_at" := JNum(r.createdAt),
      "bookmarked" := JNum(if r.bookmarked then 1 else 0)
    ]
  }

  /** The column lists of the `SELECT`s over `sentences`. */
  const AllSentenceColumns: set<string> :=
    {"id", "keyword", "level", "japanese", "pronunciation", "translation", "breakdown", "created_at", "bookmarked"}
  const HistoryColumns: set<string> :=
    {"id", "keyword", "level", "japanese", "pronunciation", "translation", "created_at", "bookmarked"}
  const BookmarkColumns: set<string> :=
    {"id", "keyword", "level", "japanese", "pronunciation", "translation", "breakdown", "created_at"}
  const QuestionColumns: set<string> :=
    {"id", "japanese", "pronunciation", "translation", "breakdown"}

  /** One selected row: exactly the listed columns, each holding the row's own value. */
  function Select(r: SentenceRow, columns: set<string>): (obj: Json)
    ensures obj.JObj?
    ensures forall k :: k in obj.fields <==> k in columns && k in SentenceColumns(r)
    ensures forall k :: k in obj.fields ==> obj.fields[k] == SentenceColumns(r)[k]
  {
    JObj(map k | k in columns && k in SentenceColumns(r) :: SentenceColumns(r)[k])
  }

  function SelectAll(rows: seq<SentenceRow>, columns: set<string>): (objs: seq<Json>)
    ensures |objs| == |rows|
    ensures forall i :: 0 <= i < |rows| ==> objs[i] == Select(rows[i], columns)
  {
    seq(|rows|, i requires 0 <= i < |rows| => Select(rows[i], columns))
  }

  /** `list` is the array of `rows`, in order, each selected with `columns`. */
  predicate Lists(list: Json, rows: seq<SentenceRow>, columns: set<string>) {
    && list.JArr?
    && |list.items| == |rows|
    && forall i :: 0 <= i < |rows| ==> list.items[i] == Select(rows[i], columns)
  }

  function CreatedAt(r: SentenceRow): int {
    r.createdAt
  }

  function LastStudied(p: ProgressRow): int {
    p.lastStudied
  }

  /**
   * `ORDER BY created_at DESC LIMIT n` over `rows`: a prefix of a newest-first
   * order, so it holds the newest rows and at most `n` of them.
   */
  function NewestSentences(rows: seq<SentenceRow>, n: int): seq<SentenceRow> {
    Limit(SortDesc(rows, CreatedAt), n)
  }

  /**
   * The result is in newest-first order, at most `n` rows long when `n` is
   * not negative, every row comes from the table, and no row it leaves out
   * was created after a row it returns.
   */
  lemma NewestSentencesSpec(rows: seq<SentenceRow>, n: int)
    ensures var r := NewestSentences(rows, n);
            && SortedDesc(r, CreatedAt)
            && (n >= 0 ==> |r| <= n)
            && (forall x :: x in r ==> x in rows)
            && (n < 0 || |rows| <= n ==> multiset(r) == multiset(rows))
    ensures var sorted := SortDesc(rows, CreatedAt);
            NewestFirst(sorted, rows, CreatedAt) &&
            forall i, j :: 0 <= i < |NewestSentences(rows, n)| <= j < |sorted| ==>
              sorted[j].createdAt <= NewestSentences(rows, n)[i].createdAt
  {
    var sorted := SortDesc(rows, CreatedAt);
    SortDescIsNewestFirst(rows, CreatedAt);
    LimitKeepsNewest(sorted, n, CreatedAt);
    var r := NewestSentences(rows, n);
    forall x | x in r ensures x in rows {
      assert x in multiset(sorted);
    }
  }

  // ---------------------------------------------------------------------------
  // History

  /**
   * `parseInt(url.searchParams.get('limit')) || 50`: a missing parameter
   * reads as null, which `parseInt` does not parse; NaN and 0 both give 50.
   */
  function HistoryLimit(param: Option<string>): (n: int)
    ensures n != 0
    ensures ParseInt(param.GetOr("null")).None? ==> n == 50
    ensures ParseInt(param.GetOr("null")) == Some(0) ==> n == 50
    ensures ParseInt(param.GetOr("null")).Some? && ParseInt(param.GetOr("null")).value != 0 ==>
              n == ParseInt(param.GetOr("null")).value
  {
    var p := ParseInt(param.GetOr("null"));
    if p.None? || p.value == 0 then 50 else p.value
  }

  /**
   * Whether `LIMIT ?` accepts the limit. The driver binds a number as the
   * nearest double, and SQLite takes it only when that double is a 64-bit
   * integer. Doubles lie 1024 apart just below 2^63 and 2048 apart just
   * below -2^63, and a tie goes to the even neighbour, so the integers
   * accepted run from -2^63 - 1024 to 2^63 - 513.
   */
  predicate LimitAccepted(n: int) {
    -0x8000_0000_0000_0400 <= n < 0x8000_0000_0000_0000 - 0x200
  }

  /** A missing `limit` gives 50, the page's own `limit=20` gives 20, and `limit=0` gives 50. */
  lemma HistoryLimitExamples()
    ensures HistoryLimit(None) == 50
    ensures HistoryLimit(Some("20")) == 20
    ensures HistoryLimit(Some("0")) == 50
  {
    NullIsNaN();
    ParseIntOfIntText(20);
    assert IntText(20) == "20";
    ParseIntOfIntText(0);
    assert IntText(0) == "0";
  }

  /** `parseInt(null)` reads the text "null", which has no digits. */
  lemma NullIsNaN()
    ensures ParseInt("null").None?
  {
    var t := "null";
    assert !IsJsSpace(t[0]);
    assert LeadingSpaces(t) == 0;
    assert DigitValue(t[0], 10).None?;
  }

  /** server.js `GET /api/history`: no `breakdown` column, limit from the query string. */
  function ServerHistory(rows: seq<SentenceRow>, limitParam: Option<string>): seq<Json> {
    SelectAll(NewestSentences(rows, HistoryLimit(limitParam)), HistoryColumns)
  }

  /** The stand-alone history never sends a row's breakdown. */
  lemma HistoryRowsLackBreakdown(rows: seq<SentenceRow>)
    ensures forall i :: 0 <= i < |rows| ==> Member(Select(rows[i], HistoryColumns), "breakdown").None?
  {
    assert "breakdown" !in HistoryColumns;
  }

  /** api/history.js: every column, `breakdown` parsed, the 50 newest rows. */
  function ApiHistory(rows: seq<SentenceRow>): seq<Json> {
    SelectAll(NewestSentences(rows, 50), AllSentenceColumns)
  }

  // ---------------------------------------------------------------------------
  // Bookmarks

  /** `WHERE bookmarked = 1`, in table order. */
  function BookmarkedRows(rows: seq<SentenceRow>): (r: seq<SentenceRow>)
    ensures forall x :: x in r <==> x in rows && x.bookmarked
    ensures |r| <= |rows|
  {
    if |rows| == 0 then []
    else if rows[0].bookmarked then [rows[0]] + BookmarkedRows(rows[1..])
    else BookmarkedRows(rows[1..])
  }

  /**
   * The bookmark rows hold every bookmarked row as many times as the table
   * does, and no other row.
   */
  lemma {:induction false} BookmarkedRowsMultiset(rows: seq<SentenceRow>)
    ensures forall x :: multiset(BookmarkedRows(rows))[x] == (if x.bookmarked then multiset(rows)[x] else 0)
  {
    if |rows| > 0 {
      BookmarkedRowsMultiset(rows[1..]);
      assert rows == [rows[0]] + rows[1..];
    }
  }

  /** server.js `GET /api/bookmarks` rows (no `bookmarked` column). */
  function ServerBookmarks(rows: seq<SentenceRow>): seq<Json> {
    SelectAll(NewestSentences(BookmarkedRows(rows), -1), BookmarkColumns)
  }

  /** api/bookmarks.js rows (every column). */
  function ApiBookmarks(rows: seq<SentenceRow>): seq<Json> {
    SelectAll(NewestSentences(BookmarkedRows(rows), -1), AllSentenceColumns)
  }

  /** The bookmark list is exactly the bookmarked rows, with no limit, newest first. */
  lemma BookmarksSpec(rows: seq<SentenceRow>)
    ensures var r := NewestSentences(BookmarkedRows(rows), -1);
            && multiset(r) == multiset(BookmarkedRows(rows))
            && SortedDesc(r, CreatedAt)
            && (forall x :: x in r <==> x in rows && x.bookmarked)
  {
    var b := BookmarkedRows(rows);
    var r := NewestSentences(b, -1);
    NewestSentencesSpec(b, -1);
    forall x ensures x in r <==> x in rows && x.bookmarked {
      assert x in r <==> x in multiset(b);
    }
  }

  /** A row selected with every column carries its stored breakdown and its flag as 1 or 0. */
  lemma FullRowFields(r: SentenceRow)
    ensures Member(Select(r, AllSentenceColumns), "breakdown") == Some(r.breakdown)
    ensures Member(Select(r, AllSentenceColumns), "bookmarked") == Some(JNum(if r.bookmarked then 1 else 0))
  {
    var cols := SentenceColumns(r);
    assert "breakdown" in cols && cols["breakdown"] == r.breakdown;
    assert "bookmarked" in cols && cols["bookmarked"] == JNum(if r.bookmarked then 1 else 0);
    assert "breakdown" in AllSentenceColumns && "bookmarked" in AllSentenceColumns;
  }

  /** Each serverless bookmark entry carries its row's stored breakdown and the flag 1. */
  lemma ApiBookmarkEntries(rows: seq<SentenceRow>)
    ensures var r := NewestSentences(BookmarkedRows(rows), -1);
            && |ApiBookmarks(rows)| == |r|
            && forall i :: 0 <= i < |r| ==>
                 Member(ApiBookmarks(rows)[i], "breakdown") == Some(r[i].breakdown) &&
                 Member(ApiBookmarks(rows)[i], "bookmarked") == Some(JNum(1))
  {
    BookmarksSpec(rows);
    var r := NewestSentences(BookmarkedRows(rows), -1);
    forall i | 0 <= i < |r|
      ensures Member(ApiBookmarks(rows)[i], "breakdown") == Some(r[i].breakdown)
      ensures Member(ApiBookmarks(rows)[i], "bookmarked") == Some(JNum(1))
    {
      assert r[i] in r;
      FullRowFields(r[i]);
    }
  }

  // ---------------------------------------------------------------------------
  // Progress and statistics

  /** One `user_progress` row as selected. */
  function ProgressJson(p: ProgressRow): Json {
    JObj(map[
      "keyword" := JStr(p.keyword),
      "times_studied" := JNum(p.timesStudied),
      "last_studied" := JNum(p.lastStudied),
      "difficulty_preference" := JStr(p.difficulty)
    ])
  }

  /** `ORDER BY last_studied DESC LIMIT n` (server.js: no limit, n = -1; api/progress.js: 20). */
  function ProgressRows(rows: seq<ProgressRow>, n: int): seq<ProgressRow> {
    Limit(SortDesc(rows, LastStudied), n)
  }

  function ProgressList(rows: seq<ProgressRow>, n: int): (objs: seq<Json>)
    ensures |objs| == |ProgressRows(rows, n)|
    ensures forall i :: 0 <= i < |objs| ==> objs[i] == ProgressJson(ProgressRows(rows, n)[i])
  {
    var ps := ProgressRows(rows, n);
    seq(|ps|, i requires 0 <= i < |ps| => ProgressJson(ps[i]))
  }

  /**
   * The progress list is the most recently studied keywords first, at most
   * `n` of them, every row from the table, and no row it leaves out studied
   * after a row it returns.
   */
  lemma ProgressRowsSpec(rows: seq<ProgressRow>, n: int)
    ensures SortedDesc(ProgressRows(rows, n), LastStudied)
    ensures n >= 0 ==> |ProgressRows(rows, n)| <= n
    ensures n < 0 || |rows| <= n ==> multiset(ProgressRows(rows, n)) == multiset(rows)
    ensures forall x :: x in ProgressRows(rows, n) ==> x in rows
    ensures NewestFirst(SortDesc(rows, LastStudied), rows, LastStudied)
    ensures forall i, j :: 0 <= i < |ProgressRows(rows, n)| <= j < |rows| ==>
              SortDesc(rows, LastStudied)[j].lastStudied <= ProgressRows(rows, n)[i].lastStudied
  {
    var sorted := SortDesc(rows, LastStudied);
    SortDescIsNewestFirst(rows, LastStudied);
    LimitKeepsNewest(sorted, n, LastStudied);
    var r := ProgressRows(rows, n);
    forall x | x in r ensures x in rows {
      assert x in multiset(sorted);
    }
  }

  /** The distinct keywords of the sentence rows (`COUNT(DISTINCT keyword)` counts them). */
  function Keywords(rows: seq<SentenceRow>): (ks: set<string>)
    ensures forall k :: k in ks <==> exists i :: 0 <= i < |rows| && rows[i].keyword == k
  {
    if |rows| == 0 then {}
    else
      assert forall i :: 1 <= i < |rows| ==> rows[i] == rows[1..][i - 1];
      {rows[0].keyword} + Keywords(rows[1..])
  }

  /** The `stats` object: `COUNT(*)`, `COUNT(DISTINCT keyword)` and the bookmarked count. */
  function Stats(rows: seq<SentenceRow>): (stats: Json)
    ensures stats.JObj? && stats.fields.Keys == {"total_sentences", "unique_keywords", "bookmarked_count"}
    ensures stats.fields["total_sentences"] == JNum(|rows|)
    ensures stats.fields["unique_keywords"] == JNum(|Keywords(rows)|)
    ensures stats.fields["bookmarked_count"] == JNum(|BookmarkedRows(rows)|)
    ensures stats.fields["bookmarked_count"].JNum? && 0 <= stats.fields["bookmarked_count"].n <= |rows|
    ensures stats.fields["unique_keywords"].JNum? && 0 <= stats.fields["unique_keywords"].n <= |rows|
    ensures |rows| > 0 ==> stats.fields["unique_keywords"].n >= 1
  {
    StatsBounds(rows);
    JObj(map[
      "total_sentences" := JNum(|rows|),
      "unique_keywords" := JNum(|Keywords(rows)|),
      "bookmarked_count" := JNum(|BookmarkedRows(rows)|)
    ])
  }

  lemma {:induction false} KeywordsAtMostRows(rows: seq<SentenceRow>)
    ensures |Keywords(rows)| <= |rows|
  {
    if |rows| > 0 {
      KeywordsAtMostRows(rows[1..]);
      assert |{rows[0].keyword} + Keywords(rows[1..])| <= 1 + |Keywords(rows[1..])|;
    }
  }

  /** Neither the bookmarked count nor the keyword count exceeds the row count. */
  lemma StatsBounds(rows: seq<SentenceRow>)
    ensures |BookmarkedRows(rows)| <= |rows|
    ensures |Keywords(rows)| <= |rows|
    ensures |rows| > 0 ==> |Keywords(rows)| >= 1
  {
    KeywordsAtMostRows(rows);
    if |rows| > 0 {
      assert rows[0].keyword in Keywords(rows);
    }
  }
}
