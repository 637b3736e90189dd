/**
 * Answering a quiz question, which server.js and api/quiz.js do alike: the
 * body must carry a truthy sentence id and a boolean `correct`; the answer
 * is logged, and the reply offers the next due bookmarked sentence, or null.
 */
module Quiz {
  import opened Options
  import opened JsValue
  import opened Store
  import opened Scheduler
  import opened Queries
  import opened Http

  const AnswerRequired: string := "문장 ID와 정답 여부가 필요합니다."
  const QuizError: string := "퀴즈를 처리할 수 없습니다."

  /** The outcome of reading an answer from a request body. */
  datatype AnswerCheck =
    | Answer(ref: Json, correct: bool)   // `ref` is the number or string bound for `sentence_id`
    | BadAnswer      // `!sentenceId || typeof correct !== 'boolean'`: the 400 case
    | AnswerThrows   // the body is null, or the id binds nothing or NULL into the NOT NULL column

  function ReadAnswer(payload: Json): (r: AnswerCheck)
    ensures r.BadAnswer? <==>
              !payload.JNull? &&
              (!Present(Member(payload, "sentenceId")) ||
               !(Member(payload, "correct").Some? && Member(payload, "correct").value.JBool?))
    ensures r.Answer? <==>
              ReadRef(payload, "sentenceId").Ref? && !ReadRef(payload, "sentenceId").value.JNull? &&
              Member(payload, "correct").Some? && Member(payload, "correct").value.JBool?
    ensures r.Answer? ==>
              && Member(payload, "sentenceId").Some?
              && Some(r.ref) == Bound(Member(payload, "sentenceId").value)
              && (r.ref.JNum? || r.ref.JStr?)
              && Member(payload, "correct") == Some(JBool(r.correct))
  {
    if payload.JNull? then AnswerThrows
    else
      var id := Member(payload, "sentenceId");
      var correct := Member(payload, "correct");
      if !Present(id) || !(correct.Some? && correct.value.JBool?) then BadAnswer
      else if Bound(id.value).None? || Bound(id.value).value.JNull? then AnswerThrows
      else Answer(Bound(id.value).value, correct.value.b)
  }

  /** The `{ success: true, nextQuestion }` body. */
  function QuizBody(question: Json): Json {
    JObj(map["success" := JBool(true), "nextQuestion" := question])
  }

  /**
   * `reply` offers a next question admissible for the tables: null when no
   * sentence is due, and otherwise the quiz columns of some due sentence.
   */
  predicate OffersNext(reply: Reply, rows: seq<SentenceRow>, log: seq<AnswerRow>, now: int) {
    || ((forall i :: 0 <= i < |rows| ==> !Due(rows[i], log, now)) && reply == Ok(QuizBody(JNull)))
    || (exists i :: 0 <= i < |rows| && Due(rows[i], log, now) &&
                    reply == Ok(QuizBody(Select(rows[i], QuestionColumns))))
  }

  /**
   * The quiz handler after its method check: a bad body is refused with 400
   * and changes nothing; a valid answer whose id names no sentence fails the
   * foreign key, so the insert throws, nothing is logged and the reply is
   * 500; any other valid answer is appended to the log and the reply offers
   * a question due under the log that now holds it.
   */
  method AnswerQuestion(db: Database, payload: Json, now: int) returns (reply: Reply)
    requires db.Valid()
    modifies db
    ensures db.Valid()
    ensures db.sentences == old(db.sentences) && db.progress == old(db.progress)
    ensures ReadAnswer(payload).BadAnswer? ==>
              reply == ErrorReply(400, AnswerRequired) && db.answers == old(db.answers)
    ensures ReadAnswer(payload).AnswerThrows? ==>
              reply == ErrorReply(500, QuizError) && db.answers == old(db.answers)
    ensures ReadAnswer(payload).Answer? && MatchCount(old(db.sentences), ReadAnswer(payload).ref) == 0 ==>
              reply == ErrorReply(500, QuizError) && db.answers == old(db.answers)
    ensures ReadAnswer(payload).Answer? && MatchCount(old(db.sentences), ReadAnswer(payload).ref) > 0 ==>
              && db.answers == old(db.answers) +
                   [AnswerRow(old(db.answerSeq) + 1, ReadAnswer(payload).ref, ReadAnswer(payload).correct, now)]
              && OffersNext(reply, db.sentences, db.answers, now)
  {
    var check := ReadAnswer(payload);
    if check.BadAnswer? {
      return ErrorReply(400, AnswerRequired);
    }
    if check.AnswerThrows? {
      return ErrorReply(500, QuizError);
    }
    var logged := db.AppendAnswer(check.ref, check.correct, now);
    if logged.None? {
      return ErrorReply(500, QuizError);
    }
    var pick := PickNext(db.sentences, db.answers, now);
    if pick.None? {
      reply := Ok(QuizBody(JNull));
    } else {
      reply := Ok(QuizBody(Select(pick.value, QuestionColumns)));
      ghost var i :| 0 <= i < |db.sentences| && db.sentences[i] == pick.value;
      assert Due(db.sentences[i], db.answers, now);
    }
  }

  /** A question carries the sentence's id and stored breakdown, and not its keyword or flag. */
  lemma QuestionFields(r: SentenceRow)
    ensures var q := Select(r, QuestionColumns);
            && Member(q, "breakdown") == Some(r.breakdown)
            && Member(q, "id") == Some(JNum(r.id))
            && Member(q, "keyword").None? && Member(q, "bookmarked").None?
  {
    var cols := SentenceColumns(r);
    assert "breakdown" in cols && cols["breakdown"] == r.breakdown;
    assert "id" in cols && cols["id"] == JNum(r.id);
    assert "breakdown" in QuestionColumns && "id" in QuestionColumns;
    assert "keyword" !in QuestionColumns && "bookmarked" !in QuestionColumns;
  }

  /**
   * The sentence just answered is never offered as the next question of the
   * same request, whichever due sentence the reply picked.
   */
  lemma AnsweredNotOffered(reply: Reply, rows: seq<SentenceRow>, log: seq<AnswerRow>, a: AnswerRow, i: int)
    requires OffersNext(reply, rows, log + [a], a.answeredAt)
    requires 0 <= i < |rows| && AnswerFor(a, rows[i].id)
    ensures reply != Ok(QuizBody(Select(rows[i], QuestionColumns)))
  {
    if reply == Ok(QuizBody(Select(rows[i], QuestionColumns))) {
      assert QuizBody(Select(rows[i], QuestionColumns)).fields["nextQuestion"].JObj?;
      assert QuizBody(JNull).fields["nextQuestion"] == JNull;
      var j :| 0 <= j < |rows| && Due(rows[j], log + [a], a.answeredAt) &&
               reply == Ok(QuizBody(Select(rows[j], QuestionColumns)));
      QuestionFields(rows[i]);
      QuestionFields(rows[j]);
      assert rows[j].id == rows[i].id;
      JustAnsweredNotDue(rows[j], log, a);
      assert false;
    }
  }
}
