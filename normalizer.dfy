/**
 * The content normaliser of server.js (`normalizeResponse` and `ensureText`):
 * it maps level synonyms onto the three Korean level labels, repairs every
 * breakdown fragment, and turns a candidate without a `sentences` array into
 * an error marker.
 */
module Normalizer {
  import opened Options
  import opened JsString
  import opened JsValue

  const Beginner: string := "초급"
  const Intermediate: string := "중급"
  const Advanced: string := "고급"

  /** The three canonical level labels, in generation order. */
  const Levels: seq<string> := [Beginner, Intermediate, Advanced]

  /** The level synonym table of `normalizeResponse`. */
  const LevelMap: map<string, string> := map[
    "basic" := Beginner,
    "beginner" := Beginner,
    "elementary" := Beginner,
    "intermediate" := Intermediate,
    "advanced" := Advanced,
    "upper-intermediate" := Advanced
  ]

  /** `${sentence.level || ''}` */
  function RawLevel(sentence: Json): string {
    ToText(Or(Member(sentence, "level"), JStr("")))
  }

  /** `levelMap.get(raw.trim().toLowerCase()) || raw` */
  function NormalizeLevel(raw: string): string {
    var key := LowerCase(Trim(raw));
    if key in LevelMap then LevelMap[key] else raw
  }

  /** A level text that the synonym table leaves alone. */
  predicate LevelSettled(level: string) {
    LowerCase(Trim(level)) !in LevelMap
  }

  /** `ensureText(value, fallback)`: a string with non-white-space content is kept. */
  function EnsureText(value: Option<Json>, fallback: string): Json {
    if IsString(value) && Trim(value.value.s) != "" then value.value else JStr(fallback)
  }

  /** The positional placeholder `부분 N` for the fragment at `index` (N = index + 1). */
  function Placeholder(index: nat): string {
    "부분 " + NatText(index + 1)
  }

  /** `{...piece, fragment: ensureText(piece.fragment, `부분 ${index + 1}`)}` */
  function NormalizePiece(piece: Json, index: nat): Json
    requires !piece.JNull?
  {
    JObj(Spread(piece)["fragment" := EnsureText(Member(piece, "fragment"), Placeholder(index))])
  }

  /** Normalising `sentence` reads no property of null (so it does not throw). */
  predicate SentenceReadable(sentence: Json) {
    && !sentence.JNull?
    && var b := Member(sentence, "breakdown");
       (b.Some? && b.value.JArr? ==> forall j :: 0 <= j < |b.value.items| ==> !b.value.items[j].JNull?)
  }

  /** The repaired breakdown: each piece repaired when it is an array, [] when it is not. */
  function NormalizeBreakdown(sentence: Json): seq<Json>
    requires SentenceReadable(sentence)
  {
    var b := Member(sentence, "breakdown");
    if b.Some? && b.value.JArr? then
      var pieces := b.value.items;
      seq(|pieces|, j requires 0 <= j < |pieces| => NormalizePiece(pieces[j], j))
    else []
  }

  /** `{...sentence, level: normalizedLevel, breakdown}` */
  function NormalizeSentence(sentence: Json): Json
    requires SentenceReadable(sentence)
  {
    JObj(Spread(sentence)
      ["level" := JStr(NormalizeLevel(RawLevel(sentence)))]
      ["breakdown" := JArr(NormalizeBreakdown(sentence))])
  }

  /** `{ source: '오류', sentences: [] }` */
  const ErrorMarker: Json := JObj(map["source" := JStr("오류"), "sentences" := JArr([])])

  /** The `sentences` array of a candidate, when it has one. */
  function SentencesOf(data: Json): Option<seq<Json>> {
    var ss := Member(data, "sentences");
    if ss.Some? && ss.value.JArr? then Some(ss.value.items) else None
  }

  /**
   * `normalizeResponse(data)`. `None` stands for the TypeError thrown when a
   * sentence, or a piece of an array breakdown, is null.
   */
  function Normalize(data: Json): (r: Option<Json>)
    ensures !Truthy(data) || SentencesOf(data).None? ==> r == Some(ErrorMarker)
    ensures r.Some? ==> r.value.JObj? && SentencesOf(r.value).Some?
    ensures r.Some? && SentencesOf(data).Some? && Truthy(data) ==>
              |SentencesOf(r.value).value| == |SentencesOf(data).value|
  {
    var ss := SentencesOf(data);
    if !Truthy(data) || ss.None? then Some(ErrorMarker)
    else if exists i :: 0 <= i < |ss.value| && !SentenceReadable(ss.value[i]) then None
    else
      var items := ss.value;
      Some(JObj(Spread(data)["sentences" :=
        JArr(seq(|items|, i requires 0 <= i < |items| => NormalizeSentence(items[i])))]))
  }

  // ---------------------------------------------------------------------------
  // The canonical shape

  predicate NormalizedPiece(piece: Json) {
    && piece.JObj?
    && "fragment" in piece.fields
    && piece.fields["fragment"].JStr?
    && Trim(piece.fields["fragment"].s) != ""
  }

  predicate NormalizedSentence(sentence: Json) {
    && sentence.JObj?
    && "level" in sentence.fields && sentence.fields["level"].JStr?
    && LevelSettled(sentence.fields["level"].s)
    && "breakdown" in sentence.fields && sentence.fields["breakdown"].JArr?
    && forall j :: 0 <= j < |sentence.fields["breakdown"].items| ==>
         NormalizedPiece(sentence.fields["breakdown"].items[j])
  }

  /** The shape `normalizeResponse` produces. */
  predicate IsNormalized(data: Json) {
    && data.JObj?
    && "sentences" in data.fields && data.fields["sentences"].JArr?
    && forall i :: 0 <= i < |data.fields["sentences"].items| ==>
         NormalizedSentence(data.fields["sentences"].items[i])
  }

  // ---------------------------------------------------------------------------
  // Level handling

  /**
   * The level lookup: a hit in the table (after trimming and lowering) gives
   * its canonical label, a miss keeps the raw text untrimmed.
   */
  lemma NormalizeLevelCases(raw: string)
    ensures LowerCase(Trim(raw)) in LevelMap ==> NormalizeLevel(raw) in Levels
    ensures LowerCase(Trim(raw)) !in LevelMap ==> NormalizeLevel(raw) == raw
  {
  }

  /** The canonical labels are not keys of the table, so they map to themselves. */
  lemma CanonicalLevelsSettled()
    ensures forall l :: l in Levels ==> LevelSettled(l) && NormalizeLevel(l) == l
  {
    CanonicalLevelSettled(Beginner);
    CanonicalLevelSettled(Intermediate);
    CanonicalLevelSettled(Advanced);
  }

  lemma CanonicalLevelSettled(l: string)
    requires l in Levels
    ensures Trim(l) == l && LevelSettled(l) && NormalizeLevel(l) == l
  {
    assert |l| == 2 && !IsJsSpace(l[0]) && !IsJsSpace(l[1]);
    TrimOfClean(l);
    LowerCaseOfNoUpper(l);
  }

  /** Whatever the lookup returns is left alone by a second lookup. */
  lemma NormalizeLevelSettles(raw: string)
    ensures LevelSettled(NormalizeLevel(raw))
    ensures NormalizeLevel(NormalizeLevel(raw)) == NormalizeLevel(raw)
  {
    NormalizeLevelCases(raw);
    CanonicalLevelsSettled();
  }

  /** A level missing, null, false, 0 or "" becomes the empty string. */
  lemma MissingLevelIsEmpty(sentence: Json)
    requires !Present(Member(sentence, "level"))
    ensures NormalizeLevel(RawLevel(sentence)) == ""
  {
    assert Trim("") == "";
  }

  // ---------------------------------------------------------------------------
  // Fragment repair

  lemma PlaceholderNotBlank(index: nat)
    ensures Trim(Placeholder(index)) != ""
  {
    var p := Placeholder(index);
    assert p[0] == '부';
    TrimEmptyIffBlank(p);
  }

  /**
   * A repaired piece is an object whose fragment has non-white-space content:
   * the original one when it was such a string, `부분 N` otherwise; every
   * other field that spreading the piece copies is kept.
   */
  lemma NormalizePieceSpec(piece: Json, index: nat)
    requires !piece.JNull?
    ensures NormalizedPiece(NormalizePiece(piece, index))
    ensures var f := Member(piece, "fragment");
            NormalizePiece(piece, index).fields["fragment"] ==
              if IsString(f) && Trim(f.value.s) != "" then f.value else JStr(Placeholder(index))
    ensures forall k :: k in Spread(piece) && k != "fragment" ==>
              k in NormalizePiece(piece, index).fields && NormalizePiece(piece, index).fields[k] == Spread(piece)[k]
  {
    PlaceholderNotBlank(index);
  }

  /** Repairing an already repaired piece changes nothing. */
  lemma NormalizedPieceFixed(piece: Json, index: nat)
    requires NormalizedPiece(piece)
    ensures NormalizePiece(piece, index) == piece
  {
    var m := piece.fields;
    assert m["fragment" := m["fragment"]] == m;
  }

  // ---------------------------------------------------------------------------
  // normalizeResponse as a whole

  /** A value without a `sentences` array (null, a number, an object without one) gives the error marker. */
  lemma NoSentencesGivesErrorMarker(data: Json)
    requires SentencesOf(data).None?
    ensures Normalize(data) == Some(ErrorMarker)
    ensures IsNormalized(ErrorMarker)
  {
  }

  /** Normalisation throws exactly when a sentence, or a piece of an array breakdown, is null. */
  lemma NormalizeThrowsIff(data: Json)
    requires SentencesOf(data).Some?
    ensures Normalize(data).None? <==>
              exists i :: 0 <= i < |SentencesOf(data).value| && !SentenceReadable(SentencesOf(data).value[i])
  {
  }

  /**
   * On a candidate with a `sentences` array, normalisation keeps every other
   * top-level field and the number and order of the sentences, each one
   * normalised on its own.
   */
  lemma NormalizeSentencesSpec(data: Json, out: Json)
    requires SentencesOf(data).Some? && Normalize(data) == Some(out)
    ensures out.JObj? && "sentences" in out.fields && out.fields["sentences"].JArr?
    ensures forall k :: k in data.fields && k != "sentences" ==> k in out.fields && out.fields[k] == data.fields[k]
    ensures |out.fields["sentences"].items| == |SentencesOf(data).value|
    ensures forall i :: 0 <= i < |SentencesOf(data).value| ==>
              && SentenceReadable(SentencesOf(data).value[i])
              && out.fields["sentences"].items[i] == NormalizeSentence(SentencesOf(data).value[i])
  {
    assert Truthy(data) && data.JObj?;
    assert Spread(data) == data.fields;
  }

  /**
   * A normalised sentence keeps its other fields, gets its level through the
   * table, and its breakdown repaired: an array of the same length, or []
   * when it was not an array.
   */
  lemma NormalizeSentenceSpec(sentence: Json)
    requires SentenceReadable(sentence)
    ensures NormalizeSentence(sentence).JObj?
    ensures NormalizeSentence(sentence).fields["level"] == JStr(NormalizeLevel(RawLevel(sentence)))
    ensures forall k :: k in Spread(sentence) && k != "level" && k != "breakdown" ==>
              k in NormalizeSentence(sentence).fields && NormalizeSentence(sentence).fields[k] == Spread(sentence)[k]
    ensures NormalizeSentence(sentence).fields["breakdown"].JArr?
    ensures |NormalizeSentence(sentence).fields["breakdown"].items| ==
              (if Member(sentence, "breakdown").Some? && Member(sentence, "breakdown").value.JArr?
               then |Member(sentence, "breakdown").value.items| else 0)
  {
  }

  /** Every successful normalisation has the canonical shape. */
  lemma NormalizeGivesNormalized(data: Json)
    requires Normalize(data).Some?
    ensures IsNormalized(Normalize(data).value)
  {
    var out := Normalize(data).value;
    if SentencesOf(data).Some? && Truthy(data) {
      var items := SentencesOf(data).value;
      var outs := out.fields["sentences"].items;
      forall i | 0 <= i < |items| ensures NormalizedSentence(outs[i]) {
        var s := items[i];
        assert outs[i] == NormalizeSentence(s);
        NormalizeLevelSettles(RawLevel(s));
        var pieces := NormalizeBreakdown(s);
        forall j | 0 <= j < |pieces| ensures NormalizedPiece(pieces[j]) {
          var b := Member(s, "breakdown").value;
          NormalizePieceSpec(b.items[j], j);
        }
      }
    }
  }

  /** The canonical shape is left unchanged. */
  lemma NormalizedIsFixedPoint(data: Json)
    requires IsNormalized(data)
    ensures Normalize(data) == Some(data)
  {
    var items := data.fields["sentences"].items;
    assert SentencesOf(data) == Some(items);
    forall i | 0 <= i < |items| ensures SentenceReadable(items[i]) && NormalizeSentence(items[i]) == items[i] {
      NormalizedSentenceFixed(items[i]);
    }
    var normed := seq(|items|, i requires 0 <= i < |items| => NormalizeSentence(items[i]));
    assert normed == items;
    assert data.fields["sentences" := JArr(items)] == data.fields;
  }

  /** A sentence of the canonical shape is left unchanged. */
  lemma NormalizedSentenceFixed(s: Json)
    requires NormalizedSentence(s)
    ensures SentenceReadable(s) && NormalizeSentence(s) == s
  {
    var m := s.fields;
    var level := m["level"].s;
    assert RawLevel(s) == level;
    var pieces := m["breakdown"].items;
    forall j | 0 <= j < |pieces| ensures NormalizePiece(pieces[j], j) == pieces[j] {
      NormalizedPieceFixed(pieces[j], j);
    }
    assert NormalizeBreakdown(s) == pieces;
    assert m["level" := JStr(level)]["breakdown" := JArr(pieces)] == m;
  }

  /** `normalizeResponse` is idempotent. */
  lemma NormalizeIdempotent(data: Json)
    requires Normalize(data).Some?
    ensures Normalize(Normalize(data).value) == Normalize(data)
  {
    NormalizeGivesNormalized(data);
    NormalizedIsFixedPoint(Normalize(data).value);
  }
}
