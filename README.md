# A model of the Numori Japanese learner

Numori is a small web application for studying Japanese. The learner types a
keyword and gets three example sentences, one per level (초급, 중급, 고급).
Each sentence comes with its reading, a Korean translation and a
fragment-by-fragment breakdown. Sentences can be bookmarked, and bookmarked
ones come back in a quiz. The quiz schedules each sentence by how often it
was answered correctly and how long ago.

The application ships two back ends over the same in-memory SQLite schema:

- a stand-alone Node server (`server.js`);
- serverless handlers (`api/*.js`, sharing `api/_shared.js`).

Both serve one page script (`public/script.js`).

This project models the logic of all three in Dafny and proves what each
part promises:

- `Store` holds the three tables as a `Database` class whose methods are the
  SQL statements. It keeps ids fresh and keywords unique. An insert throws
  when a value cannot be bound.
- `Provider`, `Normalizer` and `SampleContent` cover how server.js picks a
  content provider, absorbs remote failures into its sample response and
  normalises whatever came back.
- `SharedApi` holds the serverless template sentence and provider setting.
- `Queries` holds the read queries (history, bookmarks, progress, counts).
- `Scheduler` and `Quiz` hold the review scheduler and the answer handling
  both back ends share.
- `ServerApp` and `ServerlessApi` hold the request handlers.
- `Page` holds the page script: level captions, fragment labels, detail
  rows, the bookmark toggle and its card, the lists and the quiz start.
- `JsString` and `JsValue` give the JavaScript behaviour these rely on:
  `trim`, `toLowerCase`, `parseInt`, truthiness, object spread.

Network calls to the content providers are parameters: each call is summed up
by its `Outcome`, either the parsed value or the reason it failed. The
provider settings from the environment are parameters too. The clock is the
`now` a handler is given, in whole seconds.

Some behaviours are modelled as the code has them, not as the page expects:

- api/bookmark.js reads `id`, while the page sends `sentenceId`. Against the
  serverless back end a bookmark click is refused with 400 and the card keeps
  its state (`Page.ServerlessToggleKeepsState`).
- api/bookmarks.js replies with a bare array, while the page reads
  `data.bookmarks`. The serverless bookmark tab therefore never shows
  anything (`Page.ServerlessBookmarksHidden`).
- The page starts a quiz by submitting a correct answer for sentence 1. When
  the table holds sentence 1, three starts retire it from the quiz for good
  (`Page.StartQuizLogsAnswer`, `Scheduler.QuizStartsRetireSentenceOne`).
  When it does not, as on every fresh database, the answer fails the foreign
  key on `quiz_history.sentence_id` and the start is answered 500
  (`Page.StartQuizNeedsSentenceOne`).
- The serverless handler reports a generated entry with the content's own
  `level` and `id` when the content has them (`ServerlessApi.ContentFieldsWin`).

## Model

| member | source | states |
|---|---|---|
| JsString.Trim | server.js:171-175 | the trimmed text neither starts nor ends with white space |
| JsString.TrimEmptyIffBlank | server.js:171-175 | trimming gives "" exactly when the text is white space only |
| JsString.TrimIdempotent | server.js:171-175 | trimming twice is trimming once |
| JsString.TrailingSpacesConcat | public/script.js:243 | the trailing white space of a joined string is the right part's, reaching into the left part only when the right part is blank |
| JsString.TrimAfterClean | public/script.js:243 | a string that starts with a clean non-empty part is trimmed only at the end of the rest |
| JsString.TrimEndAfterSpace | public/script.js:243 | trimming the end of a space and a text gives nothing for a blank text, else the space and the text's trimmed end |
| JsString.LowerChar | server.js:20 | a character lowers to a small ASCII letter exactly when it is one, an ASCII capital, or the Kelvin sign; only those two kinds change |
| JsString.LowerCase | server.js:20 | lower-casing keeps the length and lowers each character |
| JsString.LowerCaseIdempotent | server.js:20 | lower-casing twice is lower-casing once |
| JsString.NatText | server.js:185-195 | a number's decimal text is non-empty digits with no leading zero or sign |
| JsString.IntText | server.js:185-195 | a bound integer's text is non-empty |
| JsString.ParseIntOfIntText | server.js:214 | `parseInt` reads an integer's decimal text back as that integer |
| JsString.UnsignedDigitsParse | server.js:214 | `parseInt` reads the whole of a plain digit string: there is no hex prefix and every digit is used |
| JsString.SqlIntegerOfIntText | server.js:59-65 | INTEGER affinity turns an integer's decimal text back into the integer |
| JsString.IntTextInjective | server.js:185-195 | distinct integers have distinct texts |
| Store.Bound | server.js:244 | the driver binds a number, a string or null as it is and a one-element array as its element, and refuses booleans, objects and every other array |
| Store.BindText | server.js:39-49 | a TEXT NOT NULL column keeps a string as it is, a number as its decimal text with a `.0` fraction, and a one-element array as its element's text, and throws exactly when the driver refuses the value or binds null |
| Store.RefersToOne | server.js:59-65 | a bound sentence id names at most one integer id |
| Store.FindProgress | server.js:51-57 | the lookup finds a row with that keyword, or no row has it |
| Store.WithoutKeyword | server.js:198-202 | dropping a keyword keeps exactly the other rows, in order |
| Store.FindProgressUnique | server.js:51-57 | with unique keywords, the lookup finds each row by its keyword |
| Store.UpsertedCounts | server.js:198-202 | the upsert counts one more study of the keyword, stamps it now, and leaves every other keyword's row alone |
| Store.UpsertedKeepsOther | server.js:198-202 | the upsert leaves the row of every other keyword as it was |
| Store.UpsertedContents | server.js:198-202 | after the upsert the table holds exactly the other keywords' rows and, last, the keyword's row with the new id, one more study, stamped now, at the default difficulty |
| Store.UpsertedKeepsInvariant | server.js:198-202 | the upsert keeps keywords unique and ids increasing |
| Store.WithBookmark | server.js:241-244 | the update sets the flag of exactly the rows the id names and keeps every other row |
| Store.MatchCount | api/bookmark.js:21-26 | `changes` is zero exactly when no row has the id |
| Store.AtMostOneMatch | api/bookmark.js:21-26 | with distinct ids the update changes at most one row |
| Store.NoMatchNoChange | api/bookmark.js:24-26 | an update that matches no row leaves the table as it was |
| Store.WithBookmarkIdempotent | server.js:241-244 | repeating the update changes nothing more |
| Store.BindSentence | server.js:185-195 | a sentence insert binds exactly when the level and the three texts bind and a breakdown is present; the breakdown bound is the sentence's own |
| Store.BoundPrefix | server.js:185-195 | the inserts that succeed form a prefix of the list, and the first failure ends it |
| Store.InsertedRows | server.js:185-195 | each inserted row holds its keyword, level and texts, the ids count up, and no new row is bookmarked |
| Store.Database.constructor | server.js:39-65 | the database starts with three empty tables |
| Store.Database.InsertSentence | server.js:186-194 | the insert appends one unbookmarked row whose id is above every existing id, and changes nothing else |
| Store.Database.InsertSentences | server.js:185-195 | the insert loop appends exactly the rows of the bound prefix with consecutive fresh ids, and keeps the invariant |
| Store.Database.UpsertProgress | server.js:198-202 | the keyword's study count goes up by one and every other keyword is unchanged |
| Store.Database.StoreBatch | server.js:185-202 | the inserts run in order until the first that throws; the progress upsert, one more study of the keyword, runs exactly when every insert went in |
| Store.Database.AppendAnswer | server.js:308-312 | when the bound id names a sentence the answer log grows by exactly the new answer with the next id; otherwise the foreign key fails, the insert throws, and the log and its sequence stay as they were |
| Store.Database.SetBookmark | server.js:241-244 | the table becomes `WithBookmark` of the old one, and `changes` is the match count, at most 1 |
| Normalizer.NormalizeLevelCases | server.js:483-484 | a known level synonym maps to a canonical label, and any other level is kept untrimmed |
| Normalizer.CanonicalLevelsSettled | server.js:473-480 | the canonical labels map to themselves |
| Normalizer.NormalizeLevelSettles | server.js:484 | normalising a level twice is normalising it once |
| Normalizer.MissingLevelIsEmpty | server.js:483-484 | a missing or falsy level becomes the empty string |
| Normalizer.PlaceholderNotBlank | server.js:489 | the `부분 N` placeholder is never blank |
| Normalizer.NormalizePieceSpec | server.js:486-491 | a repaired piece keeps a non-blank fragment or gets the placeholder, and keeps every other field |
| Normalizer.NormalizedPieceFixed | server.js:486-491 | repairing a repaired piece changes nothing |
| Normalizer.NoSentencesGivesErrorMarker | server.js:468-472 | a value without a sentences array gives the error marker |
| Normalizer.Normalize | server.js:468-504 | a falsy value or one without a sentences array gives the error marker; any result is an object with a sentences array, as long as the input's |
| Normalizer.NormalizeThrowsIff | server.js:482-491 | normalisation throws exactly when a sentence or a breakdown piece is null |
| Normalizer.NormalizeSentencesSpec | server.js:482-503 | normalisation keeps every other top-level field and the number and order of the sentences, each normalised on its own |
| Normalizer.NormalizeSentenceSpec | server.js:482-497 | a sentence keeps its other fields, gets its level through the table, and its breakdown keeps its length, or becomes [] when it was not an array |
| Normalizer.NormalizeGivesNormalized | server.js:468-504 | every successful normalisation has the canonical shape |
| Normalizer.NormalizedIsFixedPoint | server.js:468-504 | the canonical shape is left unchanged |
| Normalizer.NormalizedSentenceFixed | server.js:482-497 | a sentence of the canonical shape is left unchanged |
| Normalizer.NormalizeIdempotent | server.js:468-504 | normalising twice is normalising once |
| SampleContent.Theme | server.js:514 | the theme is never empty and is the keyword when there is one |
| SampleContent.BuildFallbackResponse | server.js:513-685 | the sample response has source "샘플" and three sentences |
| SampleContent.BeginnerTextWellFormed | server.js:519-566 | every beginner sample fragment starts with a non-space character |
| SampleContent.IntermediateTextWellFormed | server.js:567-624 | every intermediate sample fragment starts with a non-space character |
| SampleContent.AdvancedTextWellFormed | server.js:625-683 | every advanced sample fragment starts with a non-space character |
| SampleContent.BeginnerRendered | server.js:519-566 | the beginner sentence has its level, texts that mention the theme, and four pieces |
| SampleContent.IntermediateRendered | server.js:567-624 | the intermediate sentence has its level, texts and five pieces |
| SampleContent.AdvancedRendered | server.js:625-683 | the advanced sentence has its level, texts and five pieces |
| SampleContent.FallbackResponseSpec | server.js:513-685 | the sample response has source "샘플" and three sentences, one per level, in order |
| SampleContent.FallbackResponseNormalized | server.js:513-685 | the sample response already has the canonical shape |
| Provider.ResolveProvider | server.js:22-30 | the provider follows the lower-cased override; OpenAI needs a key; without an override an Ollama model wins over a key |
| Provider.ResolveProviderIgnoresCase | server.js:20 | the override is case-insensitive |
| Provider.KelvinSignOverride | server.js:20-25 | an override spelled with the Kelvin sign for its 'k' (`FALLBAC\u212A`) selects the sample content like `fallback` |
| Provider.NothingConfiguredIsFallback | server.js:22-30 | with nothing set the sample content is used |
| Provider.GenerateWithRemote | server.js:392-466 | a remote call gives its parsed content, or the sample response on any failure |
| Provider.GenerateContent | server.js:342-356 | generated content is always in canonical shape, and it throws only on a parsed remote value that cannot be normalised |
| Provider.FailureGivesSampleResponse | server.js:411-428 | with no remote provider, or on a failed call, the content is exactly the sample response |
| Provider.ParsedContentIsNormalized | server.js:355 | a parsed remote value is normalised, never replaced |
| SharedApi.GetFallbackData | api/_shared.js:135-173 | the template sentence is the keyword followed by fixed texts, with a three-piece breakdown and no level |
| SharedApi.FallbackDataIgnoresLevel | api/_shared.js:135-173 | the template is the same for every level |
| SharedApi.FallbackDataFragments | api/_shared.js:140-171 | the template fragments are the keyword, は and 大切です, in order |
| SharedApi.FirstFragmentTruthyIff | api/_shared.js:142 | the first template fragment is truthy exactly when the keyword is non-empty |
| SharedApi.GenerateSentenceWithOpenAI | api/_shared.js:64-132 | the OpenAI wrapper gives the parsed content unchecked, or the template on any failure |
| SharedApi.ProviderSettingsDiverge | api/_shared.js:41 | with the override "OpenAI" and a key, server.js calls OpenAI while the serverless handlers use the template |
| Ordering.InsertDescSorted | server.js:220-221 | inserting into a newest-first list keeps it newest-first |
| Ordering.SortDescIsNewestFirst | server.js:220-221 | sorting gives a newest-first permutation |
| Ordering.LimitKeepsNewest | server.js:220-221 | a limit keeps a newest-first prefix, and no dropped row is newer than a kept one |
| Queries.Select | server.js:215-218 | a selected row holds exactly the listed columns, with the row's own values |
| Queries.NewestSentencesSpec | server.js:211-229 | history is newest first, at most the limit long, drawn from the table, and omits no newer row |
| Queries.HistoryLimit | server.js:214 | the limit is the parsed parameter, or 50 when it is missing, unparsable or 0 |
| Queries.HistoryLimitExamples | server.js:214 | no parameter gives 50, "20" gives 20, "0" gives 50 |
| Queries.NullIsNaN | server.js:214 | a missing parameter reaches `parseInt` as the text "null", which reads as NaN, so the limit falls back to 50 |
| Queries.BookmarkedRows | server.js:253-273 | a row is among the bookmark rows exactly when it is a bookmarked row of the table, and there are no more of them than rows |
| Queries.BookmarkedRowsMultiset | server.js:253-273 | the bookmark rows hold each bookmarked row exactly as many times as the table does, and no other row |
| Queries.BookmarksSpec | server.js:253-273 | the bookmark list is every bookmarked row and nothing else, newest first, with no limit |
| Queries.ApiBookmarkEntries | api/bookmarks.js:15-29 | each serverless bookmark entry has its stored breakdown and the flag 1 |
| Queries.ProgressRowsSpec | api/progress.js:15-22 | the progress list is the most recently studied keywords first, at most the limit long, drawn from the table, all of them when the limit does not cut, and no row it leaves out was studied after a row it returns |
| Queries.Keywords | api/progress.js:28 | the keyword set holds exactly the keywords of the rows |
| Queries.Stats | api/progress.js:24-32 | the counts object has exactly the three counts: the row count, the number of distinct keywords and the number of bookmarked rows; the latter two lie between 0 and the row count, the keyword count at least 1 when there are rows |
| Queries.ProgressList | api/progress.js:15-22 | the progress entries are the selected rows, one each, in the query's order |
| Queries.HistoryRowsLackBreakdown | server.js:216-218 | a stand-alone history entry never carries the breakdown |
| Queries.StatsBounds | api/progress.js:24-32 | the bookmarked and distinct-keyword counts never exceed the row count, and a non-empty table has a keyword |
| Scheduler.AnswerCount | server.js:316-323 | an answer count is zero exactly when no answer joins the sentence |
| Scheduler.LatestAnswer | server.js:321-322 | the latest answer time is NULL exactly when there is no answer, and bounds every answer |
| Scheduler.Due | server.js:316-323 | a sentence is due exactly when it is bookmarked, has fewer than three correct answers, and was never answered or last answered over a day ago |
| Scheduler.PickNext | server.js:314-326 | nothing is picked exactly when no sentence is due; otherwise a due sentence of the table is picked |
| Scheduler.CorrectAtMostAnswered | server.js:320-322 | correct answers never outnumber answers |
| Scheduler.UnbookmarkedNeverDue | server.js:319 | a sentence that is not bookmarked is never asked |
| Scheduler.UnansweredBookmarkedIsDue | server.js:320 | a bookmarked, never-answered sentence is due |
| Scheduler.RecentlyAnsweredNotDue | server.js:322 | a sentence answered within the last day is not due |
| Scheduler.MasteryIsPermanent | server.js:321-322 | once retired, a sentence stays retired however the log grows |
| Scheduler.JustAnsweredNotDue | server.js:308-326 | the sentence just answered is not due in the same request |
| Scheduler.CorrectCountOfAppend | server.js:321 | correct counts add up over appended logs |
| Scheduler.QuizStartsRetireSentenceOne | public/script.js:466 | three quiz starts retire sentence 1 for good |
| Http.ReadKeyword | server.js:171-175 | the keyword read throws, is missing or blank (400), or is the trimmed non-empty string; each iff its condition on the body |
| Http.ReadRef | server.js:235-239 | the id read is missing or falsy (400), or truthy and bound as the driver binds it (a one-element array as its element), or refused so that the statement throws; each iff its condition on the body |
| Quiz.ReadAnswer | server.js:302-306 | an answer is refused exactly when the id is falsy or `correct` is not a boolean, and accepted exactly when the id binds to a number or a string (not null, which `sentence_id NOT NULL` refuses); the logged reference is the bound value |
| Quiz.AnswerQuestion | server.js:298-340 | a bad answer is refused with 400 and an unbindable one with 500, changing nothing; a valid answer naming no sentence fails the foreign key, 500 with nothing logged; any other is logged, and the reply offers a due sentence's quiz columns or null when none is due |
| Quiz.QuestionFields | server.js:315 | a question carries the sentence's id and breakdown, not its keyword or flag |
| Quiz.AnsweredNotOffered | server.js:308-326 | the sentence just answered is never offered as the next question |
| ServerApp.ServerParams | server.js:185-195 | each generated sentence is inserted with its own level and texts |
| ServerApp.HandleGenerate | server.js:167-209 | a bad keyword gives 400 or 500 and changes nothing; otherwise the bound prefix is inserted; when all bind, progress is upserted and the reply carries the ids; otherwise 500 |
| ServerApp.StoreGenerated | server.js:185-204 | the table gains the bound prefix of the sentences with consecutive fresh ids; when all are inserted progress is upserted and the reply is the data with its ids, otherwise 500 and progress is untouched |
| ServerApp.NormalizedSentenceBinds | server.js:185-195 | a normalised sentence's insert throws exactly when a text is missing or unbindable |
| ServerApp.SampleResponseInsertsAll | server.js:185-195 | all three sample sentences are inserted |
| ServerApp.GenerateBodySpec | server.js:185-204 | the reply keeps the canonical shape and lists the generated sentences in order, the k-th with the k-th new id |
| ServerApp.WithIdSpec | server.js:194 | a sentence given its id keeps the canonical shape and every other field, and has that id |
| ServerApp.HandleBookmark | server.js:231-251 | a missing id gives 400, an unbindable one 500; otherwise the named row's flag becomes the truthiness of `bookmarked` and the reply is success |
| ServerApp.HistoryReply | server.js:211-229 | a limit SQLite cannot take as a 64-bit integer gives 500; otherwise 200 with `sentences`: the newest-first rows cut at the limit, in order, each with the history columns; never more than a non-negative limit; no entry carries a breakdown |
| ServerApp.HugeLimitFails | server.js:211-229 | `?limit=100000000000000000000` is answered 500 |
| ServerApp.PageLimitAccepted | server.js:214 | the page's `?limit=20` is answered 200 |
| ServerApp.BookmarksReply | server.js:253-273 | 200 with `bookmarks`: every bookmarked row, newest first, each with the bookmark columns, one entry per bookmarked row |
| ServerApp.ProgressReply | server.js:275-296 | 200 with `stats` the counts and `progress` one entry per progress row, the most recently studied first |
| ServerlessApi.MethodGate | api/quiz.js:6-12 | OPTIONS gets an empty 200, any other method 405, and only the handler's own method passes |
| ServerlessApi.LevelData | api/generate.js:40-53 | each level's data is the OpenAI content or the template, as the setting decides |
| ServerlessApi.ApiParams | api/generate.js:58-70 | each level is inserted with the level name itself; null data throws |
| ServerlessApi.HandleGenerate | api/generate.js:12-99 | the corrected handler: method gate; 400 or 500 on a bad keyword; the bound prefix is inserted; when all three bind, progress is upserted and the entries are listed with their ids; otherwise 500 |
| ServerlessApi.StoreLevels | api/generate.js:58-85 | the table gains the bound prefix of the three levels with consecutive fresh ids; when all are inserted progress is upserted and the entries are listed with their ids, otherwise 500 and progress is untouched |
| ServerlessApi.TemplateInsertsAll | api/generate.js:40-78 | with the template, all three levels are inserted, and each entry reports its level, its id and the keyword's sentence |
| ServerlessApi.ContentFieldsWin | api/generate.js:73-77 | the content's own `level` and `id` override the entry's |
| ServerlessApi.EntryOfObject | api/generate.js:73-77 | an entry has every property of the content, and the given id and level only where the content has none of its own |
| ServerlessApi.HandleGenerateAsShipped | api/generate.js:5-24 | as shipped, every POST ends in 500 |
| ServerlessApi.AsShippedRefusesValidRequest | api/generate.js:24 | the page's own valid request ends in 500 |
| ServerlessApi.HandleBookmark | api/bookmark.js:3-32 | method gate; a missing `id` gives 400, an unbindable one 500; otherwise the flag is set, with 404 when no row has the id |
| ServerlessApi.HandleQuiz | api/quiz.js:3-58 | method gate, then the shared answer handling: an answer naming no sentence is 500 with nothing logged, any other valid answer is logged and offers a due question |
| ServerlessApi.HistoryReply | api/history.js:3-29 | method gate; on GET, 200 with `sentences`: the newest-first rows, every column, at most 50 |
| ServerlessApi.BookmarksReply | api/bookmarks.js:3-29 | method gate; on GET, 200 with a bare array of every bookmarked row, newest first, every column |
| ServerlessApi.ProgressReply | api/progress.js:3-37 | method gate; on GET, 200 with `stats` the counts and `progress` the 20 most recently studied rows, or all when there are fewer |
| Page.LocalizeLevel | public/script.js:37-41 | nothing shows as nothing; a synonym in any case shows its Korean caption; any other level shows trimmed |
| Page.LocalizeKnown | public/script.js:37-41 | a synonym, in any case and with surrounding space, shows its Korean caption |
| Page.LocalizeUnknown | public/script.js:37-41 | any other level shows trimmed |
| Page.LevelTablesAgree | public/script.js:28-35 | the page's synonym table equals the server's |
| Page.LocalizeCanonical | public/script.js:37-41 | the three Korean labels show as themselves |
| Page.LocalizeAfterNormalize | public/script.js:37-41 | localising a normalised level shows the same as localising the raw one |
| Page.LocalizeLevelIdempotent | public/script.js:37-41 | localising a caption a second time leaves it as it is |
| Page.AsWrittenAgreesElsewhere | public/script.js:37-41 | the as-written lookup agrees with the corrected one except on inherited names |
| Page.LocalizeLevelAsWritten | public/script.js:37-41 | as written: nothing shows as nothing, a synonym shows its caption, a level naming an inherited member shows that member's text, and any other level shows trimmed |
| Page.ConstructorLevelLeaks | public/script.js:40 | the level "Constructor" shows as the `Object` function's text |
| Page.FragmentLabel | public/script.js:216 | the button label throws only on a null piece; it is the text of the fragment when that is truthy, else of the literal, else of the surface, else the placeholder; it is non-empty unless the value chosen is an array |
| Page.NormalizedPieceLabel | public/script.js:216 | a normalised piece is labelled with its own fragment |
| Page.EmptyArrayFragmentLabel | public/script.js:216 | a fragment that is an empty array gives an empty label |
| Page.HeadingAndLabelDisagree | public/script.js:243 | with a literal and a surface but no fragment, the heading uses the surface and the button uses the literal |
| Page.HeadingSource | public/script.js:243 | the heading text is the fragment when truthy, else the surface, else the literal, else empty |
| Page.HeadingCaption | public/script.js:243 | the heading starts with the level caption, or 문장 when the caption is empty, and that start has no white space at either end |
| Page.HeadingOfDisplayLevel | public/script.js:187-243 | the heading built from the card's already localised level is the one the stored level gives |
| Page.Heading | public/script.js:243 | the heading is the caption and a bullet, then, when the piece text is not blank, a space and the text with its trailing white space removed; trimming never reaches into the caption |
| Page.BulletLine | public/script.js:243 | trimming a caption, bullet and text line keeps the caption and bullet whole and trims only the end of the text |
| Page.ScriptRowsSound | public/script.js:245-250 | each detail row shows a truthy variant under its own label |
| Page.ScriptRowsOrdered | public/script.js:245-250 | the rows follow the fixed kanji, hiragana, katakana, romaji order |
| Page.ScriptRowsComplete | public/script.js:245-250 | no truthy variant is left out |
| Page.ScriptRowsCover | public/script.js:245-250 | a slot has a row exactly when the piece has a truthy value for its variant |
| Page.ScriptRows | public/script.js:245-250 | at most four rows, each sound, in order, with one row per truthy variant and no other |
| Page.Notes | public/script.js:303-306 | a note shows exactly when a usage or grammar note is truthy, the usage note first |
| Page.ToggleRequest | public/script.js:101-104 | the request carries the id under `sentenceId`, never `id`, and the flipped flag |
| Page.ToggleBookmark | public/script.js:94-114 | the state flips exactly when the response is ok |
| Page.ServerlessToggleKeepsState | public/script.js:102 | against the serverless handler the request has no `id` and the card keeps its state |
| Page.BookmarkCard.constructor | public/script.js:203-204 | a new card is bookmarked iff the row's flag is truthy, and its button shows that |
| Page.BookmarkCard.Click | public/script.js:206-210 | a click sets the state to the toggle's result, and the button follows |
| Page.StateAfterParity | public/script.js:206-210 | after a series of clicks handled one after another, the state has flipped exactly when an odd number succeeded |
| Page.ClickAll | public/script.js:206-210 | a series of clicks leaves the card in the state the series gives |
| Page.ShownBookmarks | public/script.js:359-370 | the tab shows a list exactly when `data.bookmarks` is truthy |
| Page.ServerBookmarksShown | public/script.js:359-370 | with the stand-alone server's reply the tab shows every bookmarked row, newest first |
| Page.ServerlessBookmarksHidden | public/script.js:359-370 | with the serverless handler's reply the tab shows nothing, however many rows are bookmarked |
| Page.ShownProgress | public/script.js:438 | the page shows the first ten progress entries, or all of them when there are fewer |
| Page.ProgressDetails | public/script.js:405-407 | the details show exactly when `data.progress` is a truthy array, and then its first ten entries |
| Page.ProgressShownAlike | public/script.js:397-438 | both back ends' replies show the same ten entries and the same counts, although one stops at 20, up to the order of rows studied in the same second |
| Page.StartQuizLogsAnswer | public/script.js:466 | the quiz start passes validation as a correct answer for sentence 1 |
| Page.StartQuizNeedsSentenceOne | public/script.js:466 | the quiz start fails the foreign key exactly when no sentence has the id 1 |

## Left out

- HTTP plumbing is not modelled: routing, static files, CORS headers, `readRequestBody`'s stream handling and size limit, and `sendJson` serialisation. A handler takes the parsed body and returns a status and a JSON body.
- Prompt construction and the fetch exchanges with OpenAI and Ollama are not modelled. Their result is the `Outcome` parameter.
- Times are whole seconds and one `now` per request. SQLite's `datetime` text and `CURRENT_TIMESTAMP` formatting are not modelled.
- Ordering ties between equal timestamps are left to the model's sort, while SQLite's tie order is unspecified. `ORDER BY RANDOM()` is a free choice among the due sentences.
- Foreign keys are enforced, as the driver's SQLite switches them on. The only one, `quiz_history.sentence_id`, is checked when an answer is inserted (`Store.Database.AppendAnswer`). Sentences are never deleted, so no other statement can break it. That every logged answer names a sentence is not carried as a table invariant.
- ServerApp.HistoryReply: a limit is taken at its exact parsed value. The source binds the nearest double, which differs from the value only above 2^53, and a cut at one or the other differs only on a table of more than 2^53 rows.
- INTEGER affinity on a bound text is modelled for optional-sign decimal digits only. Leading or trailing white space and decimal-point texts are treated as not integers.
- `toLowerCase` is modelled for comparisons with ASCII keys only: ASCII capitals and the Kelvin sign (U+212A, which lowers to 'k', so `FALLBAC\u212A` selects `fallback` at server.js:25) are lowered, and every other character is kept. Any other character `toLowerCase` changes lowers to text holding a non-ASCII character, which equals no level synonym or provider name either way; lowered text is only ever compared or looked up.
- Numbers are integers: floating point, NaN and non-integral JSON numbers are left out.
- Store.Bound: an array argument is spread over the statement's parameters. The model binds a one-element array as its element and refuses every other array, which is what happens when it is the only array in the call. Several array-valued texts in one sentence insert whose lengths together meet the parameter count would shift values between columns; that is not modelled.
- Store.BindText: a number bound to a TEXT column is written as its integer text and `.0`; the exponent form SQLite uses for magnitudes of 10^15 and above (`1.0e+15`) is not modelled.
- Page.ProgressDetails: a truthy `progress` that is not an array is treated as showing nothing; neither back end sends one.
- The branch of api/generate.js that honours an error's `statusCode` (400 on a bad JSON body) is not modelled. It is only reachable through the body parser the shipped module lacks.
- The `JSON.parse` catch of api/quiz.js (breakdown replaced by `[]`) is not modelled. The stored breakdown is always `JSON.stringify` output, so the parse cannot fail.
- The card id fallback `sentence.id \|\| Date.now() + index` (public/script.js:194) is left out. Rendered sentences always carry their insert id.
- Page.BookmarkCard.constructor: the card state is kept as a boolean, not as the raw `sentence.bookmarked` value, because only its truthiness is ever read.
- Page.FragmentLabel: stated weaker than "a button always has a label", because a fragment that is an empty array gives an empty label (`Page.EmptyArrayFragmentLabel`).
- ServerlessApi.HandleQuiz: on a refused answer it states only that the status is 400 or 500. The exact replies are those of `Quiz.AnswerQuestion`.
- The rest of the page is not modelled: DOM rendering, speech synthesis, the meta rows of the detail panel, quiz rendering and answer checking, and tab switching.
- Concurrency is not modelled: each handler runs to completion on the one database, and the page handles one bookmark click after another. Two clicks whose requests overlap both read the card's old state (public/script.js:207), so `Page.StateAfterParity` holds only for clicks handled in turn.

## Findings

| source | as written | input that shows it | evidently intended | confidence | as-written member | corrected member |
|---|---|---|---|---|---|---|
| api/generate.js:5-24 | `parseJsonBody` is destructured from api/_shared.js, whose exports (api/_shared.js:175-183) do not include it, so the call throws and the catch answers 500 | POST `{"keyword":"猫"}` | parse the body and generate the three level sentences | not executed | ServerlessApi.HandleGenerateAsShipped, ServerlessApi.AsShippedRefusesValidRequest | ServerlessApi.HandleGenerate, ServerlessApi.TemplateInsertsAll |
| public/script.js:37-41 | `levelLabelMap[...]` on a plain object also finds the members every object inherits | level `"Constructor"` shows as `function Object() { [native code] }` | look up only the table's own synonyms, as server.js does with a `Map` (server.js:473-484) | not executed | Page.LocalizeLevelAsWritten, Page.ConstructorLevelLeaks | Page.LocalizeLevel, Page.AsWrittenAgreesElsewhere, Page.LocalizeAfterNormalize |
