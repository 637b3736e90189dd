/**
 * The request handlers of the stand-alone server (server.js), each over the
 * one in-memory database. A handler receives the request body as
 * `JSON.parse(body || '{}')` produced it; a body that does not parse throws
 * inside the same `try` as a null body does, so `JNull` stands for both.
 * Quiz answers go through `Quiz.AnswerQuestion`, which this server runs as is.
 */
module ServerApp {
  import opened Options
  import opened JsString
  import opened JsValue
  import opened Normalizer
  import opened SampleContent
  import opened Provider
  import opened Store
  import opened Queries
  import opened Ordering
  import opened Http

  const KeywordRequired: string := "키워드를 입력해야 합니다."
  const GenerateError: string := "지금은 콘텐츠를 생성할 수 없습니다."
  const SentenceIdRequired: string := "문장 ID가 필요합니다."
  const BookmarkError: string := "북마크를 저장할 수 없습니다."
  const HistoryError: string := "기록을 불러올 수 없습니다."

  // ---------------------------------------------------------------------------
  // POST /api/generate

  /** The insert values of each generated sentence: its own level and texts. */
  function ServerParams(ss: seq<Json>): (ps: seq<Option<SentenceParams>>)
    ensures |ps| == |ss|
    ensures forall k :: 0 <= k < |ss| ==> ps[k] == BindSentence(Member(ss[k], "level"), ss[k])
  {
    seq(|ss|, k requires 0 <= k < |ss| => BindSentence(Member(ss[k], "level"), ss[k]))
  }

  /** `sentence.id = result.lastInsertRowid` on one sentence. */
  function WithId(s: Json, id: int): Json {
    JObj(Spread(s)["id" := JNum(id)])
  }

  /** `WithId` on each sentence, the ids counting up from `firstId`. */
  function WithIds(ss: seq<Json>, firstId: int): (out: seq<Json>)
    ensures |out| == |ss|
    ensures forall k :: 0 <= k < |ss| ==> out[k] == WithId(ss[k], firstId + k)
  {
    seq(|ss|, k requires 0 <= k < |ss| => WithId(ss[k], firstId + k))
  }

  /** The reply body: the generated data, its sentences carrying their new ids. */
  function GenerateBody(data: Json, firstId: int): Json
    requires IsNormalized(data)
  {
    JObj(data.fields["sentences" := JArr(WithIds(data.fields["sentences"].items, firstId))])
  }

  /**
   * What storing the generated `data` does to the tables and what it
   * answers: the sentences are inserted in order until one throws, their
   * ids counting up from the next id. When all are inserted the keyword's
   * progress row is upserted, its study count one higher, and the reply is
   * the data with its ids; otherwise the reply is 500 and progress is as it
   * was. The `0` names are the tables before, the `1` names after.
   */
  ghost predicate StoredAs(keyword: string, data: Json, now: int,
                           sentences0: seq<SentenceRow>, sentenceSeq0: int,
                           progress0: seq<ProgressRow>, progressSeq0: int,
                           sentences1: seq<SentenceRow>, progress1: seq<ProgressRow>, reply: Reply)
    requires IsNormalized(data)
  {
    var ps := ServerParams(data.fields["sentences"].items);
    var n := BoundPrefix(ps);
    var firstId := sentenceSeq0 + 1;
    && sentences1 == sentences0 + InsertedRows(keyword, ps[..n], firstId, now)
    && (n == |ps| ==>
          && reply == Ok(GenerateBody(data, firstId))
          && progress1 == Upserted(progress0, keyword, now, progressSeq0 + 1)
          && TimesStudied(progress1, keyword) == TimesStudied(progress0, keyword) + 1)
    && (n < |ps| ==> reply == ErrorReply(500, GenerateError) && progress1 == progress0)
  }

  /**
   * `handleGenerate`. A missing or blank keyword is refused with 400; a body
   * that cannot be read, a keyword that is not a string, or content that
   * cannot be normalised give 500 and change nothing. Otherwise the
   * sentences are inserted in order; when one of them throws, the rows
   * inserted before it stay and the reply is 500. When all are inserted the
   * keyword's progress row is upserted and the reply is the data, with ids.
   */
  method HandleGenerate(db: Database, payload: Json, provider: ProviderName, outcome: Outcome, now: int)
    returns (reply: Reply)
    requires db.Valid()
    modifies db
    ensures db.Valid()
    ensures db.answers == old(db.answers)
    ensures !ReadKeyword(payload).Keyword? ==>
              && reply == (if ReadKeyword(payload).NoKeyword? then ErrorReply(400, KeywordRequired)
                           else ErrorReply(500, GenerateError))
              && db.sentences == old(db.sentences) && db.progress == old(db.progress)
    ensures ReadKeyword(payload).Keyword? && GenerateContent(provider, ReadKeyword(payload).text, outcome).None? ==>
              && reply == ErrorReply(500, GenerateError)
              && db.sentences == old(db.sentences) && db.progress == old(db.progress)
    ensures ReadKeyword(payload).Keyword? && GenerateContent(provider, ReadKeyword(payload).text, outcome).Some? ==>
              StoredAs(ReadKeyword(payload).text, GenerateContent(provider, ReadKeyword(payload).text, outcome).value, now,
                       old(db.sentences), old(db.sentenceSeq), old(db.progress), old(db.progressSeq),
                       db.sentences, db.progress, reply)
  {
    var check := ReadKeyword(payload);
    if check.NoKeyword? {
      return ErrorReply(400, KeywordRequired);
    }
    if check.KeywordThrows? {
      return ErrorReply(500, GenerateError);
    }
    var data := GenerateContent(provider, check.text, outcome);
    if data.None? {
      return ErrorReply(500, GenerateError);
    }
    reply := StoreGenerated(db, check.text, data.value, now);
  }

  /**
   * The part of `handleGenerate` after the content is generated: the
   * sentences are inserted in order until one throws; when all are inserted
   * the keyword's progress row is upserted and the reply is the data with
   * its ids, and otherwise the reply is 500 and progress is untouched.
   */
  method StoreGenerated(db: Database, keyword: string, data: Json, now: int) returns (reply: Reply)
    requires db.Valid() && IsNormalized(data)
    modifies db
    ensures db.Valid()
    ensures db.answers == old(db.answers)
    ensures StoredAs(keyword, data, now, old(db.sentences), old(db.sentenceSeq), old(db.progress), old(db.progressSeq),
                     db.sentences, db.progress, reply)
  {
    var ps := ServerParams(data.fields["sentences"].items);
    var firstId := db.sentenceSeq + 1;
    var stored := db.StoreBatch(keyword, ps, now);
    if !stored {
      return ErrorReply(500, GenerateError);
    }
    reply := Ok(GenerateBody(data, firstId));
  }

  /**
   * Of a normalised sentence the level and the breakdown always bind, so an
   * insert throws exactly when its Japanese text, reading or translation is
   * missing or neither a string, a number, nor a one-element array holding
   * one.
   */
  lemma NormalizedSentenceBinds(s: Json)
    requires NormalizedSentence(s)
    ensures BindSentence(Member(s, "level"), s).Some? <==>
              && BindText(Member(s, "japanese")).Some?
              && BindText(Member(s, "pronunciation")).Some?
              && BindText(Member(s, "translation")).Some?
  {
  }

  /** Every sentence of the sample response binds: the sample path always inserts all three. */
  lemma SampleResponseInsertsAll(keyword: string)
    ensures SentencesOf(BuildFallbackResponse(keyword)).Some?
    ensures |ServerParams(SentencesOf(BuildFallbackResponse(keyword)).value)| == 3
    ensures BoundPrefix(ServerParams(SentencesOf(BuildFallbackResponse(keyword)).value)) == 3
  {
    FallbackResponseSpec(keyword);
    var ss := SentencesOf(BuildFallbackResponse(keyword)).value;
    var ps := ServerParams(ss);
    forall k | 0 <= k < 3 ensures ps[k].Some? {
      SampleSentenceBinds(ss[k], Levels[k], SampleBreakdownSizes[k], Theme(keyword));
    }
  }

  /** A sentence of the sample shape binds with its own level. */
  lemma SampleSentenceBinds(s: Json, level: string, size: nat, theme: string)
    requires SampleSentenceShape(s, level, size, theme)
    ensures BindSentence(Member(s, "level"), s).Some?
  {
  }

  /**
   * The reply keeps the normalised shape, and each of its sentences is the
   * generated one with `id` set to the id its row was inserted with.
   */
  lemma GenerateBodySpec(data: Json, firstId: int)
    requires IsNormalized(data)
    ensures IsNormalized(GenerateBody(data, firstId))
    ensures |GenerateBody(data, firstId).fields["sentences"].items| == |data.fields["sentences"].items|
    ensures forall k :: 0 <= k < |data.fields["sentences"].items| ==>
              GenerateBody(data, firstId).fields["sentences"].items[k] ==
                WithId(data.fields["sentences"].items[k], firstId + k)
  {
    var ss := data.fields["sentences"].items;
    var out := WithIds(ss, firstId);
    forall k | 0 <= k < |ss| ensures NormalizedSentence(out[k]) {
      WithIdSpec(ss[k], firstId + k);
    }
  }

  /** A sentence with its id set is still normalised, has that id, and keeps every other field. */
  lemma WithIdSpec(s: Json, id: int)
    requires NormalizedSentence(s)
    ensures NormalizedSentence(WithId(s, id))
    ensures Member(WithId(s, id), "id") == Some(JNum(id))
    ensures forall key :: key in s.fields && key != "id" ==> Member(WithId(s, id), key) == Some(s.fields[key])
  {
    assert Spread(s) == s.fields;
    assert WithId(s, id).fields["level"] == s.fields["level"];
    assert WithId(s, id).fields["breakdown"] == s.fields["breakdown"];
  }

  // ---------------------------------------------------------------------------
  // POST /api/bookmark

  /**
   * `handleBookmark`: a missing or falsy `sentenceId` is refused with 400;
   * an id the driver cannot bind gives 500 (a one-element array binds its
   * element). Otherwise the flag of the row it names becomes the truthiness
   * of `bookmarked`, and the reply is success whether or not a row was named.
   */
  method HandleBookmark(db: Database, payload: Json) returns (reply: Reply)
    requires db.Valid()
    modifies db
    ensures db.Valid()
    ensures db.progress == old(db.progress) && db.answers == old(db.answers)
    ensures ReadRef(payload, "sentenceId").NoRef? ==>
              reply == ErrorReply(400, SentenceIdRequired) && db.sentences == old(db.sentences)
    ensures ReadRef(payload, "sentenceId").RefThrows? ==>
              reply == ErrorReply(500, BookmarkError) && db.sentences == old(db.sentences)
    ensures ReadRef(payload, "sentenceId").Ref? ==>
              && reply == Ok(Success)
              && db.sentences == WithBookmark(old(db.sentences), ReadRef(payload, "sentenceId").value,
                                              Present(Member(payload, "bookmarked")))
  {
    var check := ReadRef(payload, "sentenceId");
    if check.NoRef? {
      return ErrorReply(400, SentenceIdRequired);
    }
    if check.RefThrows? {
      return ErrorReply(500, BookmarkError);
    }
    var _ := db.SetBookmark(check.value, Present(Member(payload, "bookmarked")));
    reply := Ok(Success);
  }

  // ---------------------------------------------------------------------------
  // The read handlers

  /**
   * `GET /api/history?limit=`: 200 with `sentences`, the rows of the
   * newest-first order cut at the limit, without their breakdowns; a limit
   * SQLite cannot take as a 64-bit integer makes the statement throw, and
   * the catch replies 500.
   */
  function HistoryReply(db: Database, limitParam: Option<string>): (reply: Reply)
    reads db
    ensures !LimitAccepted(HistoryLimit(limitParam)) ==> reply == ErrorReply(500, HistoryError)
    ensures LimitAccepted(HistoryLimit(limitParam)) ==>
              reply.status == 200 && reply.body.Some? && Member(reply.body.value, "sentences").Some?
    ensures LimitAccepted(HistoryLimit(limitParam)) ==>
              Lists(Member(reply.body.value, "sentences").value,
                    NewestSentences(db.sentences, HistoryLimit(limitParam)), HistoryColumns)
    ensures LimitAccepted(HistoryLimit(limitParam)) && HistoryLimit(limitParam) >= 0 ==>
              |Member(reply.body.value, "sentences").value.items| <= HistoryLimit(limitParam)
    ensures LimitAccepted(HistoryLimit(limitParam)) ==>
              forall i :: 0 <= i < |Member(reply.body.value, "sentences").value.items| ==>
                Member(Member(reply.body.value, "sentences").value.items[i], "breakdown").None?
  {
    if !LimitAccepted(HistoryLimit(limitParam)) then ErrorReply(500, HistoryError)
    else
      NewestSentencesSpec(db.sentences, HistoryLimit(limitParam));
      HistoryRowsLackBreakdown(NewestSentences(db.sentences, HistoryLimit(limitParam)));
      Ok(JObj(map["sentences" := JArr(ServerHistory(db.sentences, limitParam))]))
  }

  /**
   * `?limit=100000000000000000000` parses to 10^20, which no 64-bit integer
   * holds: the history request fails with 500.
   */
  lemma HugeLimitFails(db: Database)
    ensures HistoryReply(db, Some(IntText(100_000_000_000_000_000_000))).status == 500
  {
    ParseIntOfIntText(100_000_000_000_000_000_000);
  }

  /** The page's own `?limit=20` is taken. */
  lemma PageLimitAccepted(db: Database)
    ensures HistoryReply(db, Some("20")).status == 200
  {
    HistoryLimitExamples();
  }

  /** `GET /api/bookmarks`: 200 with `bookmarks`, every bookmarked row, newest first. */
  function BookmarksReply(db: Database): (reply: Reply)
    reads db
    ensures reply.status == 200 && reply.body.Some? && Member(reply.body.value, "bookmarks").Some?
    ensures Lists(Member(reply.body.value, "bookmarks").value,
                  NewestSentences(BookmarkedRows(db.sentences), -1), BookmarkColumns)
    ensures |Member(reply.body.value, "bookmarks").value.items| == |BookmarkedRows(db.sentences)|
  {
    BookmarksSpec(db.sentences);
    Ok(JObj(map["bookmarks" := JArr(ServerBookmarks(db.sentences))]))
  }

  /**
   * `GET /api/progress`: 200 with every progress row, the most recently
   * studied first, and the counts.
   */
  function ProgressReply(db: Database): (reply: Reply)
    reads db
    ensures reply.status == 200 && reply.body.Some?
    ensures Member(reply.body.value, "stats") == Some(Stats(db.sentences))
    ensures Member(reply.body.value, "progress").Some? && Member(reply.body.value, "progress").value.JArr?
    ensures |Member(reply.body.value, "progress").value.items| == |db.progress|
    ensures forall i :: 0 <= i < |Member(reply.body.value, "progress").value.items| ==>
              Member(reply.body.value, "progress").value.items[i] == ProgressJson(SortDesc(db.progress, LastStudied)[i])
  {
    Ok(JObj(map["progress" := JArr(ProgressList(db.progress, -1)), "stats" := Stats(db.sentences)]))
  }
}
