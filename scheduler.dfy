/**
 * The review scheduler both quiz handlers run after logging an answer: a
 * bookmarked sentence is due when it has never been answered, or when it has
 * fewer than three correct answers in total and its latest answer is more
 * than a day old. `ORDER BY RANDOM() LIMIT 1` is a free choice among the due
 * sentences.
 */
module Scheduler {
  import opened Options
  import opened JsValue
  import opened Store

  /** `datetime('now', '-1 day')`, in seconds. */
  const Day: int := 86400

  /** Correct answers after which a sentence is never asked again. */
  const MasteryThreshold: nat := 3

  /** The answer `a` joins the sentence with id `id` (`s.id = qh.sentence_id`). */
  predicate AnswerFor(a: AnswerRow, id: int) {
    RefersTo(a.sentenceRef, id)
  }

  /** `COUNT(qh.id)` for the sentence `id`: zero exactly when no answer joins it. */
  function AnswerCount(log: seq<AnswerRow>, id: int): (n: nat)
    ensures n == 0 <==> forall i :: 0 <= i < |log| ==> !AnswerFor(log[i], id)
  {
    if |log| == 0 then 0
    else
      assert forall i :: 0 <= i < |log| - 1 ==> log[i] == log[..|log| - 1][i];
      AnswerCount(log[..|log| - 1], id) + (if AnswerFor(log[|log| - 1], id) then 1 else 0)
  }

  /** `COUNT(CASE WHEN qh.correct = 1 THEN 1 END)` for the sentence `id`. */
  function CorrectCount(log: seq<AnswerRow>, id: int): nat {
    if |log| == 0 then 0
    else CorrectCount(log[..|log| - 1], id) + (if AnswerFor(log[|log| - 1], id) && log[|log| - 1].correct then 1 else 0)
  }

  /** `MAX(qh.answered_at)` for the sentence `id`; `None` (NULL) when it has no answer. */
  function LatestAnswer(log: seq<AnswerRow>, id: int): (r: Option<int>)
    ensures r.None? <==> AnswerCount(log, id) == 0
    ensures r.Some? ==> forall i :: 0 <= i < |log| && AnswerFor(log[i], id) ==> log[i].answeredAt <= r.value
  {
    if |log| == 0 then None
    else
      var prev := LatestAnswer(log[..|log| - 1], id);
      var last := log[|log| - 1];
      assert forall i :: 0 <= i < |log| - 1 ==> log[i] == log[..|log| - 1][i];
      if !AnswerFor(last, id) then prev
      else if prev.Some? && prev.value > last.answeredAt then prev
      else Some(last.answeredAt)
  }

  /** The `WHERE` and `HAVING` of the next-question query, for one sentence row. */
  predicate Due(row: SentenceRow, log: seq<AnswerRow>, now: int)
    ensures Due(row, log, now) <==>
              && row.bookmarked
              && CorrectCount(log, row.id) < MasteryThreshold
              && (AnswerCount(log, row.id) == 0 || LatestAnswer(log, row.id).value < now - Day)
  {
    CorrectAtMostAnswered(log, row.id);
    && row.bookmarked
    && (|| AnswerCount(log, row.id) == 0
        || (CorrectCount(log, row.id) < MasteryThreshold && LatestAnswer(log, row.id).value < now - Day))
  }

  /**
   * The next question: `None` when no sentence is due, and otherwise some
   * due sentence of the table (which one is left open, as `RANDOM()` does).
   */
  method PickNext(rows: seq<SentenceRow>, log: seq<AnswerRow>, now: int) returns (pick: Option<SentenceRow>)
    ensures pick.None? <==> forall i :: 0 <= i < |rows| ==> !Due(rows[i], log, now)
    ensures pick.Some? ==> pick.value in rows && Due(pick.value, log, now)
  {
    if exists i :: 0 <= i < |rows| && Due(rows[i], log, now) {
      var i :| 0 <= i < |rows| && Due(rows[i], log, now);
      pick := Some(rows[i]);
    } else {
      pick := None;
    }
  }

  // ---------------------------------------------------------------------------
  // Properties of the due predicate

  lemma {:induction false} CorrectAtMostAnswered(log: seq<AnswerRow>, id: int)
    ensures CorrectCount(log, id) <= AnswerCount(log, id)
  {
    if |log| > 0 {
      CorrectAtMostAnswered(log[..|log| - 1], id);
    }
  }

  /** A sentence that is not bookmarked is never asked. */
  lemma UnbookmarkedNeverDue(row: SentenceRow, log: seq<AnswerRow>, now: int)
    requires !row.bookmarked
    ensures !Due(row, log, now)
  {
  }

  /** A bookmarked sentence that was never answered is due. */
  lemma UnansweredBookmarkedIsDue(row: SentenceRow, log: seq<AnswerRow>, now: int)
    requires row.bookmarked && forall i :: 0 <= i < |log| ==> !AnswerFor(log[i], row.id)
    ensures Due(row, log, now)
  {
  }

  /** A sentence answered within the last day is not due. */
  lemma RecentlyAnsweredNotDue(row: SentenceRow, log: seq<AnswerRow>, now: int, i: int)
    requires 0 <= i < |log| && AnswerFor(log[i], row.id) && log[i].answeredAt >= now - Day
    ensures !Due(row, log, now)
  {
  }

  /**
   * Mastery is permanent: the log only grows, so once a sentence has three
   * correct answers it is not due at any later time, whatever is appended.
   */
  lemma MasteryIsPermanent(row: SentenceRow, log: seq<AnswerRow>, more: seq<AnswerRow>, now: int)
    requires CorrectCount(log, row.id) >= MasteryThreshold
    ensures !Due(row, log + more, now)
  {
    CorrectCountOfAppend(log, more, row.id);
  }

  /**
   * The answer just logged counts: the sentence it names is never picked as
   * the next question of the same request.
   */
  lemma JustAnsweredNotDue(row: SentenceRow, log: seq<AnswerRow>, a: AnswerRow)
    requires AnswerFor(a, row.id)
    ensures !Due(row, log + [a], a.answeredAt)
  {
    RecentlyAnsweredNotDue(row, log + [a], a.answeredAt, |log|);
  }

  /**
   * Every start of a quiz in the page that is logged (the table holds
   * sentence 1) logs a correct answer for sentence id 1; after three such
   * starts, at any times, sentence 1 is never asked again.
   */
  lemma QuizStartsRetireSentenceOne(row: SentenceRow, log: seq<AnswerRow>, starts: seq<AnswerRow>, now: int)
    requires row.id == 1 && |starts| >= 3
    requires forall k :: 0 <= k < |starts| ==> starts[k].sentenceRef == JNum(1) && starts[k].correct
    ensures !Due(row, log + starts, now)
  {
    StartsCountCorrect(starts);
    CorrectCountOfAppend(log, starts, 1);
  }

  lemma {:induction false} StartsCountCorrect(starts: seq<AnswerRow>)
    requires forall k :: 0 <= k < |starts| ==> starts[k].sentenceRef == JNum(1) && starts[k].correct
    ensures CorrectCount(starts, 1) == |starts|
  {
    if |starts| > 0 {
      StartsCountCorrect(starts[..|starts| - 1]);
    }
  }

  /** Correct answers of a log extended by `more` add up. */
  lemma {:induction false} CorrectCountOfAppend(log: seq<AnswerRow>, more: seq<AnswerRow>, id: int)
    ensures CorrectCount(log + more, id) == CorrectCount(log, id) + CorrectCount(more, id)
  {
    if |more| > 0 {
      var m := more[..|more| - 1];
      CorrectCountOfAppend(log, m, id);
      assert (log + more)[..|log + more| - 1] == log + m;
      assert (log + more)[|log + more| - 1] == more[|more| - 1];
    } else {
      assert log + more == log;
    }
  }
}
