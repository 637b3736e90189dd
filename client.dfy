/**
 * The logic of the page script (public/script.js) that decides what is
 * shown and what is sent: level labels, fragment labels and detail rows,
 * the bookmark toggle and its card, the bookmark and progress lists, and
 * the quiz start. Rendering into the DOM is not modelled.
 */
module Page {
  import opened Options
  import opened JsString
  import opened JsValue
  import opened Normalizer
  import opened Store
  import opened Ordering
  import opened Queries
  import opened Quiz
  import opened Http
  import ServerApp
  import ServerlessApi

  // ---------------------------------------------------------------------------
  // Level labels

  /** `levelLabelMap`: the page's own copy of the level synonyms. */
  const LevelLabels: map<string, string> := map[
    "basic" := Beginner,
    "beginner" := Beginner,
    "elementary" := Beginner,
    "intermediate" := Intermediate,
    "advanced" := Advanced,
    "upper-intermediate" := Advanced
  ]

  /** `(level || '').toString().trim()` */
  function LevelText(level: Option<Json>): string {
    Trim(ToText(Or(level, JStr(""))))
  }

  /**
   * `localizeLevel(level)` with an own-property lookup: nothing shows as
   * nothing, a synonym (in any case, after trimming) shows as its Korean
   * caption, and any other text shows trimmed.
   */
  function LocalizeLevel(level: Option<Json>): (caption: string)
    ensures !Present(level) ==> caption == ""
    ensures caption == "" <==> LevelText(level) == ""
    ensures LowerCase(LevelText(level)) in LevelLabels ==> caption == LevelLabels[LowerCase(LevelText(level))]
    ensures LowerCase(LevelText(level)) !in LevelLabels ==> caption == LevelText(level)
  {
    var text := LevelText(level);
    if text == "" then ""
    else if LowerCase(text) in LevelLabels then LevelLabels[LowerCase(text)]
    else text
  }

  /** The page's table and the server's normalisation table are the same. */
  lemma LevelTablesAgree()
    ensures LevelLabels == LevelMap
  {
  }

  /** A level whose key is a synonym shows the synonym's caption. */
  lemma LocalizeKnown(s: string)
    requires LowerCase(Trim(s)) in LevelMap
    ensures LocalizeLevel(Some(JStr(s))) == LevelMap[LowerCase(Trim(s))]
  {
    LevelTextOfString(s);
    LevelTablesAgree();
    assert "" !in LevelMap;
  }

  /** A level whose key is not a synonym shows trimmed. */
  lemma LocalizeUnknown(s: string)
    requires LowerCase(Trim(s)) !in LevelMap
    ensures LocalizeLevel(Some(JStr(s))) == Trim(s)
  {
    LevelTextOfString(s);
    LevelTablesAgree();
  }

  lemma LevelTextOfString(s: string)
    ensures LevelText(Some(JStr(s))) == Trim(s)
  {
  }

  /** The three Korean labels show as themselves. */
  lemma LocalizeCanonical(l: string)
    requires l in Levels
    ensures LocalizeLevel(Some(JStr(l))) == l
  {
    CanonicalLevelSettled(l);
    LocalizeUnknown(l);
  }

  /**
   * Localising a caption again changes nothing. The card localises the
   * level once (`displayLevel`) and hands that caption to the detail panel,
   * which localises it a second time, so `Page.Heading` may take either.
   */
  lemma LocalizeLevelIdempotent(level: Option<Json>)
    ensures LocalizeLevel(Some(JStr(LocalizeLevel(level)))) == LocalizeLevel(level)
  {
    var c := LocalizeLevel(level);
    var text := LevelText(level);
    LevelTablesAgree();
    if c == "" {
      LevelTextOfString(c);
    } else if LowerCase(text) in LevelLabels {
      assert c == LevelMap[LowerCase(text)] && c in Levels;
      LocalizeCanonical(c);
    } else {
      TrimIdempotent(ToText(Or(level, JStr(""))));
      LocalizeUnknown(c);
    }
  }

  /**
   * Localising a level the server has normalised shows what localising the
   * model's raw level would have shown: the page's relabelling adds nothing
   * to, and takes nothing from, the server's.
   */
  lemma LocalizeAfterNormalize(raw: string)
    ensures LocalizeLevel(Some(JStr(NormalizeLevel(raw)))) == LocalizeLevel(Some(JStr(raw)))
  {
    var key := LowerCase(Trim(raw));
    if key in LevelMap {
      var n := LevelMap[key];
      assert NormalizeLevel(raw) == n;
      NormalizeLevelCases(raw);
      LocalizeCanonical(n);
      LocalizeKnown(raw);
    }
  }

  /**
   * The names a plain object inherits from `Object.prototype` that a lookup
   * `levelLabelMap[name]` can reach: the key is lower-cased first, so the
   * inherited methods spelled with capitals (`hasOwnProperty`, `toString`,
   * ...) are never looked up.
   */
  const InheritedNames: set<string> := {"constructor", "__proto__"}

  /** The text an inherited member shows as: the prototype itself, or the `Object` function. */
  function InheritedText(name: string): string {
    if name == "__proto__" then "[object Object]"
    else "function Object() { [native code] }"
  }

  /**
   * `localizeLevel` as written: `levelLabelMap` is a plain object, so a
   * level whose lower-cased text names an inherited member shows that
   * member's text instead of the level.
   */
  function LocalizeLevelAsWritten(level: Option<Json>): (caption: string)
    ensures caption == "" <==> LevelText(level) == ""
    ensures LowerCase(LevelText(level)) in LevelLabels ==> caption == LevelLabels[LowerCase(LevelText(level))]
    ensures (&& LevelText(level) != ""
             && LowerCase(LevelText(level)) !in LevelLabels
             && LowerCase(LevelText(level)) in InheritedNames) ==> caption == InheritedText(LowerCase(LevelText(level)))
    ensures LowerCase(LevelText(level)) !in LevelLabels && LowerCase(LevelText(level)) !in InheritedNames ==>
              caption == LevelText(level)
  {
    var text := LevelText(level);
    if text == "" then ""
    else if LowerCase(text) in LevelLabels then LevelLabels[LowerCase(text)]
    else if LowerCase(text) in InheritedNames then InheritedText(LowerCase(text))
    else text
  }

  /** The written lookup agrees with the own-property one on every other level. */
  lemma AsWrittenAgreesElsewhere(level: Option<Json>)
    requires LowerCase(LevelText(level)) !in InheritedNames
    ensures LocalizeLevelAsWritten(level) == LocalizeLevel(level)
  {
  }

  /**
   * A model level "Constructor", which the server's `Map` leaves as it is,
   * shows on the card as the text of the `Object` function.
   */
  lemma ConstructorLevelLeaks()
    ensures NormalizeLevel("Constructor") == "Constructor"
    ensures LocalizeLevelAsWritten(Some(JStr("Constructor"))) == "function Object() { [native code] }"
    ensures LocalizeLevel(Some(JStr("Constructor"))) == "Constructor"
  {
    ConstructorText();
    LocalizeUnknown("Constructor");
    ConstructorAsWritten();
  }

  /** "Constructor" has no surrounding space, lowers to the inherited name, and is no synonym. */
  lemma ConstructorText()
    ensures Trim("Constructor") == "Constructor"
    ensures LowerCase("Constructor") == "constructor"
    ensures "constructor" !in LevelMap && "constructor" !in LevelLabels
  {
    assert "Constructor"[0] == 'C' && "Constructor"[10] == 'r';
    TrimOfClean("Constructor");
    ConstructorLowered();
    ConstructorNoSynonym();
  }

  lemma ConstructorLowered()
    ensures LowerCase("Constructor") == "constructor"
  {
    var r := LowerCase("Constructor");
    LowerCaseOfNoUpper("onstructor");
    assert "Constructor" == ['C'] + "onstructor";
    assert r == [LowerChar('C')] + LowerCase("onstructor");
  }

  lemma ConstructorNoSynonym()
    ensures "constructor" !in LevelMap && "constructor" !in LevelLabels
  {
    LevelTablesAgree();
    assert |"constructor"| == 11;
  }

  lemma ConstructorAsWritten()
    ensures LocalizeLevelAsWritten(Some(JStr("Constructor"))) == "function Object() { [native code] }"
  {
    ConstructorText();
    LevelTextOfString("Constructor");
    assert "constructor" in InheritedNames;
  }

  // ---------------------------------------------------------------------------
  // A breakdown piece

  /** `piece.fragment || piece.literal || piece.surface || `부분 ${index + 1}``, before it becomes text. */
  function LabelSource(piece: Json, index: nat): Json {
    Or(Member(piece, "fragment"), Or(Member(piece, "literal"), Or(Member(piece, "surface"), JStr(Placeholder(index)))))
  }

  /**
   * The fragment button's caption; `None` when the piece is null and reading
   * its `fragment` throws. The caption is empty only when the value chosen is
   * an array whose joined text is empty.
   */
  function FragmentLabel(piece: Json, index: nat): (caption: Option<string>)
    ensures caption.None? <==> piece.JNull?
    ensures caption.Some? && !LabelSource(piece, index).JArr? ==> caption.value != ""
    ensures (&& caption.Some?
             && Present(Member(piece, "fragment"))) ==> caption.value == ToText(Member(piece, "fragment").value)
    ensures (&& caption.Some?
             && !Present(Member(piece, "fragment"))
             && Present(Member(piece, "literal"))) ==> caption.value == ToText(Member(piece, "literal").value)
    ensures (&& caption.Some?
             && !Present(Member(piece, "fragment"))
             && !Present(Member(piece, "literal"))
             && Present(Member(piece, "surface"))) ==> caption.value == ToText(Member(piece, "surface").value)
    ensures (&& caption.Some?
             && !Present(Member(piece, "fragment"))
             && !Present(Member(piece, "literal"))
             && !Present(Member(piece, "surface"))) ==> caption.value == Placeholder(index)
  {
    if piece.JNull? then None else Some(ToText(LabelSource(piece, index)))
  }

  /** A normalised piece is labelled with its own fragment. */
  lemma NormalizedPieceLabel(piece: Json, index: nat)
    requires NormalizedPiece(piece)
    ensures FragmentLabel(piece, index) == Some(piece.fields["fragment"].s)
  {
    TrimEmptyIffBlank(piece.fields["fragment"].s);
  }

  /** A piece with a fragment that is an empty array gets an empty caption. */
  lemma EmptyArrayFragmentLabel(index: nat)
    ensures FragmentLabel(JObj(map["fragment" := JArr([])]), index) == Some("")
  {
  }

  /** The caption the detail heading starts with: the level's, or '문장' when it has none. */
  function HeadingCaption(level: Option<Json>): (c: string)
    ensures LocalizeLevel(level) != "" ==> c == LocalizeLevel(level)
    ensures LocalizeLevel(level) == "" ==> c == "문장"
    ensures |c| > 0 && !IsJsSpace(c[0]) && !IsJsSpace(c[|c| - 1])
  {
    var caption := LocalizeLevel(level);
    CaptionClean(level);
    if caption == "" then "문장" else caption
  }

  /** A level's caption, when there is one, neither starts nor ends with white space. */
  lemma CaptionClean(level: Option<Json>)
    ensures var c := LocalizeLevel(level);
            |c| > 0 ==> !IsJsSpace(c[0]) && !IsJsSpace(c[|c| - 1])
  {
    var text := LevelText(level);
    if text != "" && LowerCase(text) in LevelLabels {
      var c := LevelLabels[LowerCase(text)];
      assert c == Beginner || c == Intermediate || c == Advanced;
    }
  }

  /**
   * The detail heading's text: the level caption (or '문장') and a bullet,
   * then, when the piece has any non-blank text, a space and that text with
   * its trailing white space removed. Trimming the whole line never reaches
   * into the caption. `level` is the value localised; the page passes the
   * card's already localised level (see `HeadingOfDisplayLevel`).
   */
  function Heading(level: Option<Json>, piece: Json): (h: string)
    requires !piece.JNull?
    ensures HeadingCaption(level) + " •" <= h
    ensures Blank(ToText(HeadingSource(piece))) ==> h == HeadingCaption(level) + " •"
    ensures !Blank(ToText(HeadingSource(piece))) ==>
              h == HeadingCaption(level) + " • " + TrimEnd(ToText(HeadingSource(piece)))
  {
    BulletLine(HeadingCaption(level), ToText(HeadingSource(piece)));
    Trim(HeadingCaption(level) + " • " + ToText(HeadingSource(piece)))
  }

  /**
   * The panel receives the card's `displayLevel`, the level already
   * localised, and localises it again; the heading is the one the stored
   * level itself gives.
   */
  lemma HeadingOfDisplayLevel(level: Option<Json>, piece: Json)
    requires !piece.JNull?
    ensures Heading(Some(JStr(LocalizeLevel(level))), piece) == Heading(level, piece)
  {
    LocalizeLevelIdempotent(level);
  }

  /** `${caption} • ${text}`.trim() for a clean caption keeps the caption and the bullet whole. */
  lemma BulletLine(caption: string, text: string)
    requires |caption| > 0 && !IsJsSpace(caption[0]) && !IsJsSpace(caption[|caption| - 1])
    ensures caption + " •" <= Trim(caption + " • " + text)
    ensures Blank(text) ==> Trim(caption + " • " + text) == caption + " •"
    ensures !Blank(text) ==> Trim(caption + " • " + text) == caption + " • " + TrimEnd(text)
  {
    var head := caption + " •";
    assert head[0] == caption[0] && head[|head| - 1] == '•';
    TrimAfterClean(head, " " + text);
    TrimEndAfterSpace(text);
    assert caption + " • " + text == head + (" " + text);
    assert head + (" " + TrimEnd(text)) == caption + " • " + TrimEnd(text);
  }

  /** `piece.fragment || piece.surface || piece.literal || ''`: the first truthy of the three. */
  function HeadingSource(piece: Json): (source: Json)
    ensures Present(Member(piece, "fragment")) ==> source == Member(piece, "fragment").value
    ensures (&& !Present(Member(piece, "fragment"))
             && Present(Member(piece, "surface"))) ==> source == Member(piece, "surface").value
    ensures (&& !Present(Member(piece, "fragment"))
             && !Present(Member(piece, "surface"))
             && Present(Member(piece, "literal"))) ==> source == Member(piece, "literal").value
    ensures (&& !Present(Member(piece, "fragment"))
             && !Present(Member(piece, "surface"))
             && !Present(Member(piece, "literal"))) ==> source == JStr("")
  {
    Or(Member(piece, "fragment"), Or(Member(piece, "surface"), Or(Member(piece, "literal"), JStr(""))))
  }

  /**
   * The heading tries `surface` before `literal`, the button the other way
   * round: a piece with both and no fragment is labelled with its literal
   * and headed with its surface.
   */
  lemma HeadingAndLabelDisagree()
    ensures var piece := JObj(map["literal" := JStr("a"), "surface" := JStr("b")]);
            && FragmentLabel(piece, 0) == Some("a")
            && HeadingSource(piece) == JStr("b")
  {
  }

  /** The four script variants, in the order the detail panel lists them, and their labels. */
  const ScriptKeys: seq<string> := ["kanji", "hiragana", "katakana", "romaji"]
  const ScriptLabels: seq<string> := ["한자", "히라가나", "가타카나", "로마자"]

  /** A detail row: its place in the fixed order, its caption, and the value shown. */
  datatype ScriptRow = ScriptRow(slot: nat, caption: string, value: Json)

  /**
   * The script rows from slot `k` on: one per variant the piece has a truthy
   * value for, in the fixed order, each with that variant's caption and value.
   */
  function ScriptRowsFrom(piece: Json, k: nat): seq<ScriptRow>
    requires k <= |ScriptKeys|
    decreases |ScriptKeys| - k
  {
    if k == |ScriptKeys| then []
    else
      var v := Member(piece, ScriptKeys[k]);
      if Present(v) then [ScriptRow(k, ScriptLabels[k], v.value)] + ScriptRowsFrom(piece, k + 1)
      else ScriptRowsFrom(piece, k + 1)
  }

  /** `row` shows the piece's truthy variant at its slot, under that variant's label. */
  predicate RowFits(piece: Json, row: ScriptRow, k: nat) {
    && k <= row.slot < |ScriptKeys|
    && row.caption == ScriptLabels[row.slot]
    && Present(Member(piece, ScriptKeys[row.slot]))
    && row.value == Member(piece, ScriptKeys[row.slot]).value
  }

  /** Each row shows a truthy variant under its own label. */
  lemma {:induction false} ScriptRowsSound(piece: Json, k: nat)
    requires k <= |ScriptKeys|
    decreases |ScriptKeys| - k
    ensures forall r :: r in ScriptRowsFrom(piece, k) ==> RowFits(piece, r, k)
  {
    if k < |ScriptKeys| {
      ScriptRowsSound(piece, k + 1);
    }
  }

  /** The rows from slot `k` on sit at slot `k` or later. */
  lemma {:induction false} ScriptSlotsFrom(piece: Json, k: nat)
    requires k <= |ScriptKeys|
    decreases |ScriptKeys| - k
    ensures forall i :: 0 <= i < |ScriptRowsFrom(piece, k)| ==> k <= ScriptRowsFrom(piece, k)[i].slot
  {
    if k < |ScriptKeys| {
      ScriptSlotsFrom(piece, k + 1);
      var rest := ScriptRowsFrom(piece, k + 1);
      var v := Member(piece, ScriptKeys[k]);
      if Present(v) {
        var rows := ScriptRowsFrom(piece, k);
        assert rows == [ScriptRow(k, ScriptLabels[k], v.value)] + rest;
        forall i | 0 <= i < |rows| ensures k <= rows[i].slot {
          if i > 0 {
            assert rows[i] == rest[i - 1];
          }
        }
      } else {
        assert ScriptRowsFrom(piece, k) == rest;
      }
    }
  }

  /** Every row from slot `k` on sits at a slot of the fixed order. */
  lemma {:induction false} ScriptSlotsBelow(piece: Json, k: nat)
    requires k <= |ScriptKeys|
    decreases |ScriptKeys| - k
    ensures forall i :: 0 <= i < |ScriptRowsFrom(piece, k)| ==> ScriptRowsFrom(piece, k)[i].slot < |ScriptKeys|
  {
    if k < |ScriptKeys| {
      ScriptSlotsBelow(piece, k + 1);
      var rest := ScriptRowsFrom(piece, k + 1);
      var v := Member(piece, ScriptKeys[k]);
      if Present(v) {
        var rows := ScriptRowsFrom(piece, k);
        assert rows == [ScriptRow(k, ScriptLabels[k], v.value)] + rest;
        forall i | 0 <= i < |rows| ensures rows[i].slot < |ScriptKeys| {
          if i > 0 {
            assert rows[i] == rest[i - 1];
          }
        }
      } else {
        assert ScriptRowsFrom(piece, k) == rest;
      }
    }
  }

  /** The rows follow the fixed order. */
  lemma {:induction false} ScriptRowsOrdered(piece: Json, k: nat)
    requires k <= |ScriptKeys|
    decreases |ScriptKeys| - k
    ensures forall i, j :: 0 <= i < j < |ScriptRowsFrom(piece, k)| ==>
              ScriptRowsFrom(piece, k)[i].slot < ScriptRowsFrom(piece, k)[j].slot
  {
    if k < |ScriptKeys| {
      ScriptRowsOrdered(piece, k + 1);
      ScriptSlotsFrom(piece, k + 1);
      var rest := ScriptRowsFrom(piece, k + 1);
      var rows := ScriptRowsFrom(piece, k);
      var v := Member(piece, ScriptKeys[k]);
      if Present(v) {
        var head := ScriptRow(k, ScriptLabels[k], v.value);
        assert rows == [head] + rest;
        forall i, j | 0 <= i < j < |rows| ensures rows[i].slot < rows[j].slot {
          assert rows[j] == rest[j - 1];
          if i > 0 {
            assert rows[i] == rest[i - 1];
          }
        }
      } else {
        assert rows == rest;
      }
    }
  }

  /** No truthy variant is left out. */
  lemma {:induction false} ScriptRowsComplete(piece: Json, k: nat, s: nat)
    requires k <= s < |ScriptKeys| && Present(Member(piece, ScriptKeys[s]))
    decreases s - k
    ensures exists i :: 0 <= i < |ScriptRowsFrom(piece, k)| && ScriptRowsFrom(piece, k)[i].slot == s
  {
    var rows := ScriptRowsFrom(piece, k);
    if s == k {
      assert rows[0].slot == s;
    } else {
      ScriptRowsComplete(piece, k + 1, s);
      var rest := ScriptRowsFrom(piece, k + 1);
      var i :| 0 <= i < |rest| && rest[i].slot == s;
      if Present(Member(piece, ScriptKeys[k])) {
        assert rows[i + 1] == rest[i];
      } else {
        assert rows == rest;
      }
    }
  }

  /** `[kanji, hiragana, katakana, romaji].filter(Boolean)`, as labelled rows. */
  function ScriptRows(piece: Json): (rows: seq<ScriptRow>)
    ensures |rows| <= |ScriptKeys|
    ensures forall r :: r in rows ==> RowFits(piece, r, 0)
    ensures forall i, j :: 0 <= i < j < |rows| ==> rows[i].slot < rows[j].slot
    ensures forall s :: 0 <= s < |ScriptKeys| ==>
              (Present(Member(piece, ScriptKeys[s])) <==> exists i :: 0 <= i < |rows| && rows[i].slot == s)
  {
    ScriptRowsSound(piece, 0);
    ScriptRowsOrdered(piece, 0);
    ScriptRowsCover(piece);
    ScriptRowsFit(piece);
    ScriptRowsFrom(piece, 0)
  }

  /** There are at most as many rows as variants. */
  lemma ScriptRowsFit(piece: Json)
    ensures |ScriptRowsFrom(piece, 0)| <= |ScriptKeys|
  {
    var rows := ScriptRowsFrom(piece, 0);
    ScriptSlotsBelow(piece, 0);
    ScriptRowsOrdered(piece, 0);
    SlotsBound(rows);
  }

  /** A slot has a row exactly when the piece has a truthy value for its variant. */
  lemma ScriptRowsCover(piece: Json)
    ensures forall s :: 0 <= s < |ScriptKeys| ==>
              (Present(Member(piece, ScriptKeys[s])) <==>
                 exists i :: 0 <= i < |ScriptRowsFrom(piece, 0)| && ScriptRowsFrom(piece, 0)[i].slot == s)
  {
    var rows := ScriptRowsFrom(piece, 0);
    ScriptRowsSound(piece, 0);
    forall s | 0 <= s < |ScriptKeys|
      ensures Present(Member(piece, ScriptKeys[s])) <==> exists i :: 0 <= i < |rows| && rows[i].slot == s
    {
      if Present(Member(piece, ScriptKeys[s])) {
        ScriptRowsComplete(piece, 0, s);
      }
      if exists i :: 0 <= i < |rows| && rows[i].slot == s {
        var i :| 0 <= i < |rows| && rows[i].slot == s;
        assert rows[i] in rows;
        assert RowFits(piece, rows[i], 0);
      }
    }
  }

  /** Strictly increasing slots below 4 number at most 4. */
  lemma {:induction false} SlotsBound(rows: seq<ScriptRow>)
    requires forall i :: 0 <= i < |rows| ==> rows[i].slot < |ScriptKeys|
    requires forall i, j :: 0 <= i < j < |rows| ==> rows[i].slot < rows[j].slot
    ensures |rows| <= |ScriptKeys|
  {
    if |rows| > 0 {
      SlotsAbove(rows, |rows| - 1);
    }
  }

  lemma {:induction false} SlotsAbove(rows: seq<ScriptRow>, i: nat)
    requires i < |rows|
    requires forall j, k :: 0 <= j < k < |rows| ==> rows[j].slot < rows[k].slot
    ensures rows[i].slot >= i
  {
    if i > 0 {
      SlotsAbove(rows, i - 1);
    }
  }

  /** `piece.usageNote || piece.grammarNote`, shown only when one of them is truthy. */
  function Notes(piece: Json): (note: Option<Json>)
    ensures note.Some? <==> Present(Member(piece, "usageNote")) || Present(Member(piece, "grammarNote"))
    ensures Present(Member(piece, "usageNote")) ==> note == Member(piece, "usageNote")
    ensures !Present(Member(piece, "usageNote")) && Present(Member(piece, "grammarNote")) ==>
              note == Member(piece, "grammarNote")
  {
    if Present(Member(piece, "usageNote")) then Member(piece, "usageNote")
    else if Present(Member(piece, "grammarNote")) then Member(piece, "grammarNote")
    else None
  }

  // ---------------------------------------------------------------------------
  // Bookmarks

  /** How the bookmark request ended: a response with its status, or an exception. */
  datatype FetchResult = Responded(status: int) | Threw

  /** `response.ok` */
  predicate OkStatus(status: int) {
    200 <= status <= 299
  }

  /** The body `toggleBookmark` posts: the id under `sentenceId`, and the flipped flag. */
  function ToggleRequest(sentenceId: Json, isBookmarked: bool): (body: Json)
    ensures ReadRef(body, "id").NoRef?
    ensures Truthy(sentenceId) && Bound(sentenceId).Some? ==> ReadRef(body, "sentenceId") == Ref(Bound(sentenceId).value)
    ensures Member(body, "bookmarked") == Some(JBool(!isBookmarked))
  {
    JObj(map["sentenceId" := sentenceId, "bookmarked" := JBool(!isBookmarked)])
  }

  /** `toggleBookmark`'s result: the flipped state only when the response is ok. */
  function ToggleBookmark(isBookmarked: bool, result: FetchResult): (state: bool)
    ensures state != isBookmarked <==> result.Responded? && OkStatus(result.status)
  {
    if result.Responded? && OkStatus(result.status) then !isBookmarked else isBookmarked
  }

  /**
   * Against the serverless handler the toggle never takes: the request has
   * no `id`, the reply is 400, and the card keeps its state.
   */
  lemma ServerlessToggleKeepsState(sentenceId: Json, isBookmarked: bool)
    ensures ReadRef(ToggleRequest(sentenceId, isBookmarked), "id").NoRef?
    ensures ToggleBookmark(isBookmarked, Responded(400)) == isBookmarked
  {
  }

  /** The glyph and tooltip `updateBookmarkButton` gives the button. */
  function Glyph(isBookmarked: bool): string {
    if isBookmarked then "★" else "☆"
  }

  function Tooltip(isBookmarked: bool): string {
    if isBookmarked then "즐겨찾기 해제" else "즐겨찾기 추가"
  }

  /**
   * A sentence card's bookmark state and button. Only the truthiness of the
   * state is ever used, so it is kept as a boolean.
   */
  class BookmarkCard {
    var isBookmarked: bool
    var glyph: string
    var tooltip: string

    /** The button shows the card's state. */
    predicate Valid()
      reads this
    {
      glyph == Glyph(isBookmarked) && tooltip == Tooltip(isBookmarked)
    }

    /** `let isBookmarked = sentence.bookmarked || false`, then the first `updateBookmarkButton`. */
    constructor (bookmarked: Option<Json>)
      ensures Valid()
      ensures isBookmarked == Present(bookmarked)
    {
      isBookmarked := Present(bookmarked);
      glyph := Glyph(Present(bookmarked));
      tooltip := Tooltip(Present(bookmarked));
    }

    /** One click: the state becomes what `toggleBookmark` returned, and the button follows. */
    method Click(result: FetchResult)
      requires Valid()
      modifies this
      ensures Valid()
      ensures isBookmarked == ToggleBookmark(old(isBookmarked), result)
    {
      var state := ToggleBookmark(isBookmarked, result);
      isBookmarked := state;
      glyph := Glyph(state);
      tooltip := Tooltip(state);
    }
  }

  /** The state after a series of clicks: each click toggles only when its request succeeded. */
  function StateAfter(initial: bool, results: seq<FetchResult>): bool
    decreases |results|
  {
    if |results| == 0 then initial
    else ToggleBookmark(StateAfter(initial, results[..|results| - 1]), results[|results| - 1])
  }

  /** The number of clicks whose request succeeded. */
  function OkCount(results: seq<FetchResult>): nat
    decreases |results|
  {
    if |results| == 0 then 0
    else OkCount(results[..|results| - 1]) +
         (if results[|results| - 1].Responded? && OkStatus(results[|results| - 1].status) then 1 else 0)
  }

  /**
   * After a series of clicks handled one after another, the card's state
   * has flipped from its initial state exactly when an odd number of them
   * succeeded (from an unbookmarked start: it is bookmarked exactly then).
   */
  lemma {:induction false} StateAfterParity(initial: bool, results: seq<FetchResult>)
    ensures StateAfter(initial, results) == (if OkCount(results) % 2 == 0 then initial else !initial)
  {
    if |results| > 0 {
      StateAfterParity(initial, results[..|results| - 1]);
    }
  }

  /** Clicking through a series of results leaves the card in `StateAfter` that series. */
  method ClickAll(card: BookmarkCard, results: seq<FetchResult>)
    requires card.Valid()
    modifies card
    ensures card.Valid()
    ensures card.isBookmarked == StateAfter(old(card.isBookmarked), results)
  {
    var i := 0;
    while i < |results|
      invariant 0 <= i <= |results|
      invariant card.Valid()
      invariant card.isBookmarked == StateAfter(old(card.isBookmarked), results[..i])
    {
      card.Click(results[i]);
      assert results[..i + 1][..i] == results[..i];
      i := i + 1;
    }
    assert results[..|results|] == results;
  }

  /** `if (data.bookmarks) renderBookmarksList(data.bookmarks)`: the list the tab shows, if any. */
  function ShownBookmarks(data: Json): (shown: Option<Json>)
    ensures shown.Some? <==> Present(Member(data, "bookmarks"))
  {
    if Present(Member(data, "bookmarks")) then Member(data, "bookmarks") else None
  }

  /** With the stand-alone server the tab shows every bookmarked row, newest first. */
  lemma ServerBookmarksShown(db: Database)
    ensures ShownBookmarks(ServerApp.BookmarksReply(db).body.value).Some?
    ensures Lists(ShownBookmarks(ServerApp.BookmarksReply(db).body.value).value,
                  NewestSentences(BookmarkedRows(db.sentences), -1), BookmarkColumns)
  {
    var body := ServerApp.BookmarksReply(db).body.value;
    var list := Member(body, "bookmarks").value;
    assert list.JArr? && Truthy(list);
    assert ShownBookmarks(body) == Some(list);
  }

  /**
   * With the serverless handler, whose reply is a bare array, the tab never
   * shows anything, however many rows are bookmarked.
   */
  lemma ServerlessBookmarksHidden(db: Database)
    ensures ShownBookmarks(ServerlessApi.BookmarksReply(db, Get).body.value).None?
  {
  }

  // ---------------------------------------------------------------------------
  // Progress and the quiz

  /** `progress.slice(0, 10)` */
  function ShownProgress(progress: seq<Json>): (shown: seq<Json>)
    ensures |shown| <= 10 && |shown| <= |progress|
    ensures shown == progress[..|shown|]
    ensures |progress| >= 10 ==> |shown| == 10
    ensures |progress| < 10 ==> shown == progress
  {
    if |progress| <= 10 then progress else progress[..10]
  }

  /** `if (data.progress) renderProgressDetails(data.progress)`: the entries shown, if any. */
  function ProgressDetails(data: Json): (shown: Option<seq<Json>>)
    ensures shown.Some? <==> Present(Member(data, "progress")) && Member(data, "progress").value.JArr?
    ensures shown.Some? ==> shown.value == ShownProgress(Member(data, "progress").value.items)
  {
    var p := Member(data, "progress");
    if Present(p) && p.value.JArr? then Some(ShownProgress(p.value.items)) else None
  }

  /**
   * Both deployments show the same ten entries and the same counts: the
   * serverless list stops at 20 rows and the server's does not, but the
   * page shows only the first ten. Both are ordered by the one sort of the
   * model; SQLite may order rows studied in the same second differently in
   * the two statements, so the entries agree up to that order.
   */
  lemma {:induction false} ProgressShownAlike(db: Database)
    ensures ServerlessApi.ProgressReply(db, Get).body.Some? && ServerApp.ProgressReply(db).body.Some?
    ensures ProgressDetails(ServerApp.ProgressReply(db).body.value).Some?
    ensures ProgressDetails(ServerlessApi.ProgressReply(db, Get).body.value)
              == ProgressDetails(ServerApp.ProgressReply(db).body.value)
    ensures Member(ServerlessApi.ProgressReply(db, Get).body.value, "stats")
              == Member(ServerApp.ProgressReply(db).body.value, "stats")
  {
    var a := Member(ServerlessApi.ProgressReply(db, Get).body.value, "progress").value.items;
    var b := Member(ServerApp.ProgressReply(db).body.value, "progress").value.items;
    assert ShownProgress(a) == ShownProgress(b) by {
      forall i | 0 <= i < |a| && i < 10 ensures a[i] == b[i] {
      }
    }
  }

  /** `startQuiz` posts a real answer: a correct answer for sentence 1. */
  const StartQuizBody: Json := JObj(map["sentenceId" := JNum(1), "correct" := JBool(true)])

  /**
   * The start request passes validation as a correct answer for sentence 1;
   * `Quiz.AnswerQuestion` logs it only when the table holds sentence 1.
   */
  lemma StartQuizLogsAnswer()
    ensures ReadAnswer(StartQuizBody) == Answer(JNum(1), true)
  {
  }

  /**
   * The start's insert fails its foreign key, so the start is answered 500
   * and logs nothing, exactly when no sentence has the id 1: on every fresh
   * database, for one.
   */
  lemma StartQuizNeedsSentenceOne(rows: seq<SentenceRow>)
    ensures MatchCount(rows, ReadAnswer(StartQuizBody).ref) == 0 <==> forall i :: 0 <= i < |rows| ==> rows[i].id != 1
  {
    StartQuizLogsAnswer();
  }
}
