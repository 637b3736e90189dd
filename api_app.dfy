/**
 * The serverless handlers under api/, one per route, over the database of
 * api/_shared.js. Each first answers a pre-flight `OPTIONS` with an empty
 * 200 and refuses any other method than its own with 405. The request body
 * arrives already parsed (`req.body`); `JNull` stands for a missing body.
 * api/quiz.js runs `Quiz.AnswerQuestion` after its method check.
 */
module ServerlessApi {
  import opened Options
  import opened JsString
  import opened JsValue
  import opened Normalizer
  import opened Provider
  import opened SharedApi
  import opened Store
  import opened Queries
  import opened Ordering
  import opened Quiz
  import opened Http

  const MethodNotAllowed: string := "허용되지 않는 메소드입니다."
  const KeywordRequired: string := "키워드를 입력해주세요."
  const GenerateError: string := "문장을 생성하는 동안 문제가 발생했습니다. 다시 시도해 주세요."
  const IdRequired: string := "ID가 필요합니다."
  const SentenceNotFound: string := "문장을 찾을 수 없습니다."
  const BookmarkError: string := "북마크 처리 중 오류가 발생했습니다."

  /**
   * The method check every handler starts with: the reply it ends with, or
   * `None` when the request goes on to the handler's own work.
   */
  function MethodGate(m: Method, allowed: Method): (r: Option<Reply>)
    requires allowed != Options
    ensures m == Options ==> r == Some(Reply(200, None))
    ensures m != Options && m != allowed ==> r == Some(ErrorReply(405, MethodNotAllowed))
    ensures r.None? <==> m == allowed
  {
    if m == Options then Some(Reply(200, None))
    else if m != allowed then Some(ErrorReply(405, MethodNotAllowed))
    else None
  }

  // ---------------------------------------------------------------------------
  // api/generate.js

  /** The sentence data of each level: the OpenAI content, or the template. */
  function LevelData(keyword: string, useOpenAI: bool, outcomes: seq<Outcome>): (ds: seq<Json>)
    requires |outcomes| == |Levels|
    ensures |ds| == |Levels|
    ensures forall i :: 0 <= i < |Levels| ==>
              ds[i] == (if useOpenAI then GenerateSentenceWithOpenAI(keyword, Levels[i], outcomes[i])
                        else GetFallbackData(keyword, Levels[i]))
  {
    seq(|Levels|, i requires 0 <= i < |Levels| =>
      if useOpenAI then GenerateSentenceWithOpenAI(keyword, Levels[i], outcomes[i])
      else GetFallbackData(keyword, Levels[i]))
  }

  /**
   * The insert values of each level: the level itself and the data's texts.
   * Null data throws when its `japanese` is read, before the insert.
   */
  function ApiParams(ds: seq<Json>): (ps: seq<Option<SentenceParams>>)
    requires |ds| <= |Levels|
    ensures |ps| == |ds|
    ensures forall i :: 0 <= i < |ds| ==>
              ps[i] == (if ds[i].JNull? then None else BindSentence(Some(JStr(Levels[i])), ds[i]))
  {
    seq(|ds|, i requires 0 <= i < |ds| =>
      if ds[i].JNull? then None else BindSentence(Some(JStr(Levels[i])), ds[i]))
  }

  /** `{ id, level, ...sentenceData }`: properties of the data come after, so they win. */
  function Entry(id: int, level: string, data: Json): Json {
    JObj(map["id" := JNum(id), "level" := JStr(level)] + Spread(data))
  }

  function Entries(ds: seq<Json>, firstId: int): (es: seq<Json>)
    requires |ds| <= |Levels|
    ensures |es| == |ds|
    ensures forall i :: 0 <= i < |ds| ==> es[i] == Entry(firstId + i, Levels[i], ds[i])
  {
    seq(|ds|, i requires 0 <= i < |ds| => Entry(firstId + i, Levels[i], ds[i]))
  }

  /**
   * The handler with its body parsed. A missing or blank keyword is refused
   * with 400; a missing body or a keyword that is not a string gives 500.
   * Otherwise the three levels are inserted in order, each with the trimmed
   * keyword; when one throws the rows before it stay and the reply is 500;
   * when all three are inserted the progress row is upserted and the reply
   * lists the entries with their ids.
   */
  method HandleGenerate(db: Database, m: Method, body: Json, llmProvider: string, openAiKey: string,
                        outcomes: seq<Outcome>, now: int) returns (reply: Reply)
    requires db.Valid() && |outcomes| == |Levels|
    modifies db
    ensures db.Valid()
    ensures db.answers == old(db.answers)
    ensures m != Post ==>
              reply == MethodGate(m, Post).value &&
              db.sentences == old(db.sentences) && db.progress == old(db.progress)
    ensures m == Post && !ReadKeyword(body).Keyword? ==>
              && reply == (if ReadKeyword(body).NoKeyword? then ErrorReply(400, KeywordRequired)
                           else ErrorReply(500, GenerateError))
              && db.sentences == old(db.sentences) && db.progress == old(db.progress)
    ensures m == Post && ReadKeyword(body).Keyword? ==>
              var keyword := ReadKeyword(body).text;
              var ds := LevelData(keyword, UsesOpenAI(llmProvider, openAiKey), outcomes);
              var ps := ApiParams(ds);
              var n := BoundPrefix(ps);
              var firstId := old(db.sentenceSeq) + 1;
              && db.sentences == old(db.sentences) + InsertedRows(keyword, ps[..n], firstId, now)
              && (n == |Levels| ==>
                    && reply == Ok(JObj(map["sentences" := JArr(Entries(ds, firstId))]))
                    && db.progress == Upserted(old(db.progress), keyword, now, old(db.progressSeq) + 1))
              && (n < |Levels| ==> reply == ErrorReply(500, GenerateError) && db.progress == old(db.progress))
  {
    var gate := MethodGate(m, Post);
    if gate.Some? {
      return gate.value;
    }
    var check := ReadKeyword(body);
    if check.NoKeyword? {
      return ErrorReply(400, KeywordRequired);
    }
    if check.KeywordThrows? {
      return ErrorReply(500, GenerateError);
    }
    var ds := LevelData(check.text, UsesOpenAI(llmProvider, openAiKey), outcomes);
    reply := StoreLevels(db, check.text, ds, now);
  }

  /**
   * The loop over the levels once each level's data is known: the levels are
   * inserted in order until one throws; when all three are inserted the
   * keyword's progress row is upserted and the reply lists the entries, and
   * otherwise the reply is 500 and progress is untouched.
   */
  method StoreLevels(db: Database, keyword: string, ds: seq<Json>, now: int) returns (reply: Reply)
    requires db.Valid() && |ds| == |Levels|
    modifies db
    ensures db.Valid()
    ensures db.answers == old(db.answers)
    ensures var ps := ApiParams(ds);
            var n := BoundPrefix(ps);
            var firstId := old(db.sentenceSeq) + 1;
            && db.sentences == old(db.sentences) + InsertedRows(keyword, ps[..n], firstId, now)
            && (n == |Levels| ==>
                  && reply == Ok(JObj(map["sentences" := JArr(Entries(ds, firstId))]))
                  && db.progress == Upserted(old(db.progress), keyword, now, old(db.progressSeq) + 1))
            && (n < |Levels| ==> reply == ErrorReply(500, GenerateError) && db.progress == old(db.progress))
  {
    var ps := ApiParams(ds);
    var firstId := db.sentenceSeq + 1;
    var stored := db.StoreBatch(keyword, ps, now);
    if !stored {
      return ErrorReply(500, GenerateError);
    }
    reply := Ok(JObj(map["sentences" := JArr(Entries(ds, firstId))]));
  }

  /**
   * With the template (OpenAI unused, or its call failed) all three levels
   * are inserted, and each entry reports its own level and the keyword's
   * sentence.
   */
  lemma TemplateInsertsAll(keyword: string, useOpenAI: bool, outcomes: seq<Outcome>, firstId: int)
    requires |outcomes| == |Levels|
    requires useOpenAI ==> forall i :: 0 <= i < |Levels| ==> outcomes[i].Failed?
    ensures BoundPrefix(ApiParams(LevelData(keyword, useOpenAI, outcomes))) == |Levels|
    ensures forall i :: 0 <= i < |Levels| ==>
              var entry := Entries(LevelData(keyword, useOpenAI, outcomes), firstId)[i];
              && Member(entry, "level") == Some(JStr(Levels[i]))
              && Member(entry, "id") == Some(JNum(firstId + i))
              && Member(entry, "japanese") == Some(JStr(keyword + JapaneseTail))
  {
    forall i | 0 <= i < |Levels|
      ensures ApiParams(LevelData(keyword, useOpenAI, outcomes))[i].Some?
      ensures var entry := Entries(LevelData(keyword, useOpenAI, outcomes), firstId)[i];
              && Member(entry, "level") == Some(JStr(Levels[i]))
              && Member(entry, "id") == Some(JNum(firstId + i))
              && Member(entry, "japanese") == Some(JStr(keyword + JapaneseTail))
    {
      TemplateEntryAt(keyword, useOpenAI, outcomes, firstId, i);
    }
  }

  /** The `i`th level of the template path: its data is the template, so it binds and its entry is as expected. */
  lemma TemplateEntryAt(keyword: string, useOpenAI: bool, outcomes: seq<Outcome>, firstId: int, i: nat)
    requires |outcomes| == |Levels| && i < |Levels|
    requires useOpenAI ==> outcomes[i].Failed?
    ensures ApiParams(LevelData(keyword, useOpenAI, outcomes))[i].Some?
    ensures var entry := Entries(LevelData(keyword, useOpenAI, outcomes), firstId)[i];
            && Member(entry, "level") == Some(JStr(Levels[i]))
            && Member(entry, "id") == Some(JNum(firstId + i))
            && Member(entry, "japanese") == Some(JStr(keyword + JapaneseTail))
  {
    var ds := LevelData(keyword, useOpenAI, outcomes);
    assert ds[i] == GetFallbackData(keyword, Levels[i]);
    TemplateBinds(keyword, ds, i);
    TemplateEntryFields(keyword, ds, firstId, i);
  }

  lemma TemplateBinds(keyword: string, ds: seq<Json>, i: nat)
    requires |ds| == |Levels| && i < |Levels| && ds[i] == GetFallbackData(keyword, Levels[i])
    ensures ApiParams(ds)[i].Some?
  {
    TemplateEntry(keyword, Levels[i], 0);
  }

  lemma TemplateEntryFields(keyword: string, ds: seq<Json>, firstId: int, i: nat)
    requires |ds| == |Levels| && i < |Levels| && ds[i] == GetFallbackData(keyword, Levels[i])
    ensures var entry := Entries(ds, firstId)[i];
            && Member(entry, "level") == Some(JStr(Levels[i]))
            && Member(entry, "id") == Some(JNum(firstId + i))
            && Member(entry, "japanese") == Some(JStr(keyword + JapaneseTail))
  {
    TemplateEntry(keyword, Levels[i], firstId + i);
    assert Entries(ds, firstId)[i] == Entry(firstId + i, Levels[i], GetFallbackData(keyword, Levels[i]));
  }

  /** The template for `level` binds, and its entry carries the level, the id and the keyword's sentence. */
  lemma TemplateEntry(keyword: string, level: string, id: int)
    ensures !GetFallbackData(keyword, level).JNull?
    ensures BindSentence(Some(JStr(level)), GetFallbackData(keyword, level)).Some?
    ensures Member(Entry(id, level, GetFallbackData(keyword, level)), "level") == Some(JStr(level))
    ensures Member(Entry(id, level, GetFallbackData(keyword, level)), "id") == Some(JNum(id))
    ensures Member(Entry(id, level, GetFallbackData(keyword, level)), "japanese") == Some(JStr(keyword + JapaneseTail))
  {
    var d := GetFallbackData(keyword, level);
    EntryOfObject(id, level, d);
  }

  /**
   * An entry built from an object has every property of the object, and the
   * given `id` and `level` only where the object has none of its own.
   */
  lemma EntryOfObject(id: int, level: string, data: Json)
    requires data.JObj?
    ensures forall key :: key in data.fields ==> Member(Entry(id, level, data), key) == Some(data.fields[key])
    ensures "level" !in data.fields ==> Member(Entry(id, level, data), "level") == Some(JStr(level))
    ensures "id" !in data.fields ==> Member(Entry(id, level, data), "id") == Some(JNum(id))
  {
    assert Spread(data) == data.fields;
  }

  /**
   * The entry's `level` and `id` are the content's own when the content has
   * them: the level reported can differ from the level the row was stored with.
   */
  lemma ContentFieldsWin(id: int, level: string, data: Json)
    requires data.JObj? && "level" in data.fields && "id" in data.fields
    ensures Member(Entry(id, level, data), "level") == Some(data.fields["level"])
    ensures Member(Entry(id, level, data), "id") == Some(data.fields["id"])
  {
  }

  /** The exports of api/_shared.js. */
  const SharedExports: set<string> :=
    {"db", "setCORS", "sendJson", "generateSentenceWithOpenAI", "getFallbackData", "LLM_PROVIDER", "OPENAI_API_KEY"}

  /**
   * api/generate.js as shipped: the `parseJsonBody` it destructures from the
   * shared module is not exported, so it is `undefined`, calling it throws a
   * TypeError inside the `try`, and the error has no `statusCode`: every
   * POST gets the 500 reply before the body is read.
   */
  function HandleGenerateAsShipped(m: Method): (reply: Reply)
    ensures m != Post ==> reply == MethodGate(m, Post).value
    ensures m == Post ==> reply == ErrorReply(500, GenerateError)
  {
    var gate := MethodGate(m, Post);
    if gate.Some? then gate.value
    else if "parseJsonBody" !in SharedExports then ErrorReply(500, GenerateError)
    else Reply(200, None)
  }

  /**
   * The shipped handler refuses the page's own request: a POST with the
   * keyword "猫", which the handler with a parsed body accepts, ends in 500.
   */
  lemma AsShippedRefusesValidRequest()
    ensures var body := JObj(map["keyword" := JStr("猫")]);
            && ReadKeyword(body) == Keyword("猫")
            && HandleGenerateAsShipped(Post).status == 500
  {
    var body := JObj(map["keyword" := JStr("猫")]);
    assert !IsJsSpace('猫');
    TrimOfClean("猫");
  }

  // ---------------------------------------------------------------------------
  // api/bookmark.js

  /**
   * The handler reads `id`, not `sentenceId`. A missing or falsy id is
   * refused with 400 and an unbindable one gives 500 (a one-element array
   * binds its element); otherwise the flag of the row the bound value names
   * is set, and the reply is 404 when no row has that id.
   */
  method HandleBookmark(db: Database, m: Method, body: Json) returns (reply: Reply)
    requires db.Valid()
    modifies db
    ensures db.Valid()
    ensures db.progress == old(db.progress) && db.answers == old(db.answers)
    ensures m != Post ==> reply == MethodGate(m, Post).value && db.sentences == old(db.sentences)
    ensures m == Post && ReadRef(body, "id").NoRef? ==>
              reply == ErrorReply(400, IdRequired) && db.sentences == old(db.sentences)
    ensures m == Post && ReadRef(body, "id").RefThrows? ==>
              reply == ErrorReply(500, BookmarkError) && db.sentences == old(db.sentences)
    ensures m == Post && ReadRef(body, "id").Ref? ==>
              var ref := ReadRef(body, "id").value;
              && db.sentences == WithBookmark(old(db.sentences), ref, Present(Member(body, "bookmarked")))
              && (MatchCount(old(db.sentences), ref) == 0 ==>
                    reply == ErrorReply(404, SentenceNotFound) && db.sentences == old(db.sentences))
              && (MatchCount(old(db.sentences), ref) > 0 ==> reply == Ok(Success))
  {
    var gate := MethodGate(m, Post);
    if gate.Some? {
      return gate.value;
    }
    var check := ReadRef(body, "id");
    if check.NoRef? {
      return ErrorReply(400, IdRequired);
    }
    if check.RefThrows? {
      return ErrorReply(500, BookmarkError);
    }
    var changes := db.SetBookmark(check.value, Present(Member(body, "bookmarked")));
    if changes == 0 {
      NoMatchNoChange(old(db.sentences), check.value, Present(Member(body, "bookmarked")));
      return ErrorReply(404, SentenceNotFound);
    }
    reply := Ok(Success);
  }

  // ---------------------------------------------------------------------------
  // api/quiz.js and the read handlers

  /** api/quiz.js: the method check, then the shared answer handling. */
  method HandleQuiz(db: Database, m: Method, body: Json, now: int) returns (reply: Reply)
    requires db.Valid()
    modifies db
    ensures db.Valid()
    ensures m != Post ==> reply == MethodGate(m, Post).value && db.answers == old(db.answers)
    ensures db.sentences == old(db.sentences) && db.progress == old(db.progress)
    ensures m == Post && ReadAnswer(body).Answer? && MatchCount(old(db.sentences), ReadAnswer(body).ref) == 0 ==>
              reply == ErrorReply(500, QuizError) && db.answers == old(db.answers)
    ensures m == Post && ReadAnswer(body).Answer? && MatchCount(old(db.sentences), ReadAnswer(body).ref) > 0 ==>
              && db.answers == old(db.answers) +
                   [AnswerRow(old(db.answerSeq) + 1, ReadAnswer(body).ref, ReadAnswer(body).correct, now)]
              && OffersNext(reply, db.sentences, db.answers, now)
    ensures m == Post && !ReadAnswer(body).Answer? ==>
              reply.status in {400, 500} && db.answers == old(db.answers)
  {
    var gate := MethodGate(m, Post);
    if gate.Some? {
      return gate.value;
    }
    reply := AnswerQuestion(db, body, now);
  }

  /** api/history.js: 200 with `sentences`, the 50 newest rows with every column. */
  function HistoryReply(db: Database, m: Method): (reply: Reply)
    reads db
    ensures m != Get ==> reply == MethodGate(m, Get).value
    ensures m == Get ==> reply.status == 200 && reply.body.Some? && Member(reply.body.value, "sentences").Some?
    ensures m == Get ==> Lists(Member(reply.body.value, "sentences").value,
                               NewestSentences(db.sentences, 50), AllSentenceColumns)
    ensures m == Get ==> |Member(reply.body.value, "sentences").value.items| <= 50
  {
    var gate := MethodGate(m, Get);
    NewestSentencesSpec(db.sentences, 50);
    if gate.Some? then gate.value
    else Ok(JObj(map["sentences" := JArr(ApiHistory(db.sentences))]))
  }

  /** api/bookmarks.js: every bookmarked row, newest first, as a bare array, not under `bookmarks`. */
  function BookmarksReply(db: Database, m: Method): (reply: Reply)
    reads db
    ensures m != Get ==> reply == MethodGate(m, Get).value
    ensures m == Get ==> reply.status == 200 && reply.body.Some?
    ensures m == Get ==> Lists(reply.body.value, NewestSentences(BookmarkedRows(db.sentences), -1), AllSentenceColumns)
    ensures m == Get ==> |reply.body.value.items| == |BookmarkedRows(db.sentences)|
  {
    var gate := MethodGate(m, Get);
    BookmarksSpec(db.sentences);
    if gate.Some? then gate.value
    else Ok(JArr(ApiBookmarks(db.sentences)))
  }

  /** api/progress.js: 200 with the 20 most recently studied keywords and the counts. */
  function ProgressReply(db: Database, m: Method): (reply: Reply)
    reads db
    ensures m != Get ==> reply == MethodGate(m, Get).value
    ensures m == Get ==> reply.status == 200 && reply.body.Some?
    ensures m == Get ==> Member(reply.body.value, "stats") == Some(Stats(db.sentences))
    ensures m == Get ==> Member(reply.body.value, "progress").Some? && Member(reply.body.value, "progress").value.JArr?
    ensures m == Get ==> |Member(reply.body.value, "progress").value.items| == if |db.progress| < 20 then |db.progress| else 20
    ensures m == Get ==> forall i :: 0 <= i < |Member(reply.body.value, "progress").value.items| ==>
              Member(reply.body.value, "progress").value.items[i] == ProgressJson(SortDesc(db.progress, LastStudied)[i])
  {
    var gate := MethodGate(m, Get);
    if gate.Some? then gate.value
    else Ok(JObj(map["progress" := JArr(ProgressList(db.progress, 20)), "stats" := Stats(db.sentences)]))
  }
}
