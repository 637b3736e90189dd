/**
 * The sample content of server.js (`buildFallbackResponse`): the fixed
 * three-sentence response used when no remote provider is configured or a
 * remote provider fails. The texts are kept as data (`SampleText`) and
 * rendered into the response object with the keyword's theme.
 */
module SampleContent {
  import opened Options
  import opened JsString
  import opened JsValue
  import opened Normalizer

  /** The eight texts of one breakdown entry of a sample sentence. */
  datatype PieceText = PieceText(
    fragment: string, kanji: string, hiragana: string, katakana: string,
    romaji: string, meaning: string, partOfSpeech: string, usageNote: string)

  /**
   * One sample sentence; its translation is `before + theme + after`, the
   * theme being interpolated into the template literal.
   */
  datatype SampleText = SampleText(
    level: string, japanese: string, pronunciation: string,
    before: string, after: string, pieces: seq<PieceText>)

  /** The beginner sample sentence; the theme goes between the two translation parts. */
  const BeginnerText: SampleText :=
    SampleText(
      Beginner,
      "ありがとう、今日は手伝ってくれて嬉しいです。",
      "Arigatō, kyō wa tetsudatte kurete ureshii desu.",
      "", "와 관련해서 오늘 도와줘서 고마워요.",
      [
        PieceText(
         "ありがとう",
         "有り難う",
         "ありがとう",
         "アリガトウ",
         "arigatō",
         "고맙다는 말",
         "표현",
         "일상적인 감사 표현으로 정중한 상황에서도 자연스럽습니다."),
        PieceText(
         "今日は",
         "今日は",
         "きょうは",
         "キョウハ",
         "kyō wa",
         "오늘은/오늘에 관해",
         "주제 표시 조사",
         "오늘(今日)에 주제 조사 は가 붙어 화제를 제시합니다."),
        PieceText(
         "手伝ってくれて",
         "手伝ってくれて",
         "てつだってくれて",
         "テツダッテクレテ",
         "tetsudatte kurete",
         "도와줘서",
         "て형 + くれる",
         "동사 手伝う의 て형 뒤에 くれる가 붙어 화자가 도움을 받았음을 나타냅니다."),
        PieceText(
         "嬉しいです",
         "嬉しいです",
         "うれしいです",
         "ウレシイデス",
         "ureshii desu",
         "기쁩니다",
         "형용사 + です",
         "です로 마무리하여 공손하고 부드러운 어조를 만듭니다.")
      ])

  /** The intermediate sample sentence; the theme goes between the two translation parts. */
  const IntermediateText: SampleText :=
    SampleText(
      Intermediate,
      "いつも支えてくれる仲間に感謝の気持ちを伝えたい。",
      "Itsumo sasaete kureru nakama ni kansha no kimochi o tsutaetai.",
      "", "에 대해 늘 곁에서 지지해 주는 동료들에게 감사의 마음을 전하고 싶어요.",
      [
        PieceText(
         "いつも",
         "何時も",
         "いつも",
         "イツモ",
         "itsumo",
         "항상",
         "부사",
         "습관적이거나 반복되는 상황을 나타냅니다."),
        PieceText(
         "支えてくれる",
         "支えてくれる",
         "ささえてくれる",
         "ササエテクレル",
         "sasaete kureru",
         "지지해 주는",
         "관계절",
         "동사 支える의 て형에 くれる가 이어져 화자를 도와주는 의미가 됩니다."),
        PieceText(
         "仲間に",
         "仲間に",
         "なかまに",
         "ナカマニ",
         "nakama ni",
         "동료들에게",
         "명사 + 조사 に",
         "間接목적어, 감사의 마음이 향하는 대상을 표시합니다."),
        PieceText(
         "感謝の気持ちを",
         "感謝の気持ちを",
         "かんしゃのきもちを",
         "カンシャノキモチヲ",
         "kansha no kimochi o",
         "감사의 마음을",
         "명사구 + を",
         "の가 感謝와 気持ち를 연결하여 수식 구조를 만듭니다."),
        PieceText(
         "伝えたい",
         "伝えたい",
         "つたえたい",
         "ツタエタイ",
         "tsutaetai",
         "전하고 싶다",
         "동사 어간 + たい형",
         "たい형은 화자의 희망이나 욕구를 나타냅니다.")
      ])

  /** The advanced sample sentence; the theme goes between the two translation parts. */
  const AdvancedText: SampleText :=
    SampleText(
      Advanced,
      "困難な状況でも支援してくれた皆さんへ、心からの謝意を改めて表明したいと思います。",
      "Konʼnan na jōkyō demo shien shite kureta minasan e, kokoro kara no shai o aratamete hyōmei shitai to omoimasu.",
      "어려운 상황 속에서도 ", "을(를) 위해 힘이 되어준 여러분께 진심 어린 감사 인사를 다시 전하고 싶습니다.",
      [
        PieceText(
         "困難な状況でも",
         "困難な状況でも",
         "こんなんなじょうきょうでも",
         "コンナンナジョウキョウデモ",
         "konnan na jōkyō demo",
         "어려운 상황에서도",
         "명사구 + でも",
         "でも가 양보를 나타내며 \"~에도 불구하고\"의 뉘앙스를 줍니다."),
        PieceText(
         "支援してくれた",
         "支援してくれた",
         "しえんしてくれた",
         "シエンシテクレタ",
         "shien shite kureta",
         "지원해 준",
         "관계절",
         "支援する의 て형에 くれる가 붙어 \"나를 도와준\"이라는 의미가 됩니다."),
        PieceText(
         "皆さんへ",
         "皆さんへ",
         "みなさんへ",
         "ミナサンヘ",
         "minasan e",
         "여러분께",
         "명사 + 조사 へ",
         "へ가 감사의 표현이 향하는 대상을 나타냅니다."),
        PieceText(
         "心からの謝意を",
         "心からの謝意を",
         "こころからのしゃいを",
         "ココロカラノシャイヲ",
         "kokoro kara no shai o",
         "진심 어린 감사의 뜻을",
         "명사구 + を",
         "から가 마음(心)에서 비롯된 감정을 강조합니다."),
        PieceText(
         "改めて表明したいと思います",
         "改めて表明したいと思います",
         "あらためてひょうめいしたいとおもいます",
         "アラタメテヒョウメイシタイトオモイマス",
         "aratamete hyōmei shitai to omoimasu",
         "다시 한번 표하고 싶습니다",
         "동사 + たい형 + と + 思います",
         "たい형이 희망을, 思います가 정중한 의지를 나타내며 진지한 어조를 만듭니다.")
      ])


  /** The breakdown entry object written for `p`. */
  function PieceJson(p: PieceText): Json {
    JObj(map[
      "fragment" := JStr(p.fragment),
      "kanji" := JStr(p.kanji),
      "hiragana" := JStr(p.hiragana),
      "katakana" := JStr(p.katakana),
      "romaji" := JStr(p.romaji),
      "meaning" := JStr(p.meaning),
      "partOfSpeech" := JStr(p.partOfSpeech),
      "usageNote" := JStr(p.usageNote)
    ])
  }

  /** The sentence object written for `t` with `theme` in its translation. */
  function SentenceJson(t: SampleText, theme: string): Json {
    JObj(map[
      "level" := JStr(t.level),
      "japanese" := JStr(t.japanese),
      "pronunciation" := JStr(t.pronunciation),
      "translation" := JStr(t.before + theme + t.after),
      "breakdown" := JArr(seq(|t.pieces|, i requires 0 <= i < |t.pieces| => PieceJson(t.pieces[i])))
    ])
  }

  /** `keyword || '감사'` */
  function Theme(keyword: string): (r: string)
    ensures r != ""
    ensures keyword != "" ==> r == keyword
  {
    if keyword == "" then "감사" else keyword
  }

  /** `buildFallbackResponse(keyword)` */
  function BuildFallbackResponse(keyword: string): (r: Json)
    ensures Member(r, "source") == Some(JStr("샘플"))
    ensures SentencesOf(r).Some? && |SentencesOf(r).value| == 3
  {
    var theme := Theme(keyword);
    SampleResponse(
      SentenceJson(BeginnerText, theme),
      SentenceJson(IntermediateText, theme),
      SentenceJson(AdvancedText, theme))
  }

  /** `word` occurs in `text` starting at index `i`. */
  predicate OccursAt(text: string, word: string, i: int) {
    0 <= i <= |text| - |word| && text[i..i + |word|] == word
  }

  /** `word` occurs in `text`. */
  predicate Mentions(text: string, word: string) {
    exists i :: 0 <= i <= |text| && OccursAt(text, word, i)
  }

  lemma MentionsInfix(p: string, w: string, q: string)
    ensures Mentions(p + w + q, w)
  {
    var t := p + w + q;
    assert t[|p|..|p| + |w|] == w;
    assert OccursAt(t, w, |p|);
  }

  /** The number of breakdown entries of each sample sentence. */
  const SampleBreakdownSizes: seq<nat> := [4, 5, 5]

  /** Property `key` of `s` is a string with at least one character. */
  predicate HasText(s: Json, key: string) {
    Member(s, key).Some? && Member(s, key).value.JStr? && Member(s, key).value.s != ""
  }

  /** What one sample sentence object promises: its level, its texts, its breakdown. */
  predicate SampleSentenceShape(s: Json, level: string, size: nat, theme: string) {
    && Member(s, "level") == Some(JStr(level))
    && HasText(s, "japanese") && HasText(s, "pronunciation") && HasText(s, "translation")
    && Mentions(Member(s, "translation").value.s, theme)
    && Member(s, "breakdown").Some? && Member(s, "breakdown").value.JArr?
    && |Member(s, "breakdown").value.items| == size
    && NormalizedSentence(s)
  }

  /** A sample text fit to render: canonical level, texts present, fragments not blank. */
  predicate WellFormedText(t: SampleText) {
    && t.level in Levels && t.japanese != "" && t.pronunciation != ""
    && forall i :: 0 <= i < |t.pieces| ==>
         |t.pieces[i].fragment| > 0 && !IsJsSpace(t.pieces[i].fragment[0])
  }

  lemma BeginnerTextWellFormed()
    ensures WellFormedText(BeginnerText)
  {
    var ps := BeginnerText.pieces;
    forall i | 0 <= i < |ps| ensures |ps[i].fragment| > 0 && !IsJsSpace(ps[i].fragment[0]) {
      if i == 0 { assert ps[0].fragment[0] == 'あ'; }
      else if i == 1 { assert ps[1].fragment[0] == '今'; }
      else if i == 2 { assert ps[2].fragment[0] == '手'; }
      else { assert ps[3].fragment[0] == '嬉'; }
    }
  }

  lemma IntermediateTextWellFormed()
    ensures WellFormedText(IntermediateText)
  {
    var ps := IntermediateText.pieces;
    forall i | 0 <= i < |ps| ensures |ps[i].fragment| > 0 && !IsJsSpace(ps[i].fragment[0]) {
      if i == 0 { assert ps[0].fragment[0] == 'い'; }
      else if i == 1 { assert ps[1].fragment[0] == '支'; }
      else if i == 2 { assert ps[2].fragment[0] == '仲'; }
      else if i == 3 { assert ps[3].fragment[0] == '感'; }
      else { assert ps[4].fragment[0] == '伝'; }
    }
  }

  lemma AdvancedTextWellFormed()
    ensures WellFormedText(AdvancedText)
  {
    var ps := AdvancedText.pieces;
    forall i | 0 <= i < |ps| ensures |ps[i].fragment| > 0 && !IsJsSpace(ps[i].fragment[0]) {
      if i == 0 { assert ps[0].fragment[0] == '困'; }
      else if i == 1 { assert ps[1].fragment[0] == '支'; }
      else if i == 2 { assert ps[2].fragment[0] == '皆'; }
      else if i == 3 { assert ps[3].fragment[0] == '心'; }
      else { assert ps[4].fragment[0] == '改'; }
    }
  }

  lemma RenderedShape(t: SampleText, theme: string)
    requires WellFormedText(t) && theme != ""
    ensures SampleSentenceShape(SentenceJson(t, theme), t.level, |t.pieces|, theme)
  {
    var s := SentenceJson(t, theme);
    SentenceJsonMembers(t, theme);
    var b := s.fields["breakdown"].items;
    forall i | 0 <= i < |b| ensures NormalizedPiece(b[i]) {
      PieceJsonNormalized(t.pieces[i]);
    }
    CanonicalLevelSettled(t.level);
    MentionsInfix(t.before, theme, t.after);
  }

  /** The members of a rendered sentence are the sample text's own parts. */
  lemma SentenceJsonMembers(t: SampleText, theme: string)
    ensures var s := SentenceJson(t, theme);
            && s.JObj?
            && s.fields.Keys == {"level", "japanese", "pronunciation", "translation", "breakdown"}
            && s.fields["level"] == JStr(t.level)
            && s.fields["japanese"] == JStr(t.japanese)
            && s.fields["pronunciation"] == JStr(t.pronunciation)
            && s.fields["translation"] == JStr(t.before + theme + t.after)
            && s.fields["breakdown"].JArr?
            && |s.fields["breakdown"].items| == |t.pieces|
            && forall i :: 0 <= i < |t.pieces| ==> s.fields["breakdown"].items[i] == PieceJson(t.pieces[i])
  {
  }

  /** A piece whose fragment starts with a visible character renders to a normalised piece. */
  lemma PieceJsonNormalized(p: PieceText)
    requires |p.fragment| > 0 && !IsJsSpace(p.fragment[0])
    ensures NormalizedPiece(PieceJson(p))
  {
    TrimEmptyIffBlank(p.fragment);
  }

  lemma BeginnerRendered(theme: string)
    requires theme != ""
    ensures SampleSentenceShape(SentenceJson(BeginnerText, theme), Beginner, 4, theme)
  {
    BeginnerTextWellFormed();
    RenderedShape(BeginnerText, theme);
  }

  lemma IntermediateRendered(theme: string)
    requires theme != ""
    ensures SampleSentenceShape(SentenceJson(IntermediateText, theme), Intermediate, 5, theme)
  {
    IntermediateTextWellFormed();
    RenderedShape(IntermediateText, theme);
  }

  lemma AdvancedRendered(theme: string)
    requires theme != ""
    ensures SampleSentenceShape(SentenceJson(AdvancedText, theme), Advanced, 5, theme)
  {
    AdvancedTextWellFormed();
    RenderedShape(AdvancedText, theme);
  }

  /** The response object with the sample source and three sentences. */
  function SampleResponse(s0: Json, s1: Json, s2: Json): Json {
    JObj(map["source" := JStr("샘플"), "sentences" := JArr([s0, s1, s2])])
  }

  /** The three rendered sample sentences of the response, in order. */
  lemma FallbackSentences(keyword: string) returns (ss: seq<Json>)
    ensures var theme := Theme(keyword);
            ss == [SentenceJson(BeginnerText, theme), SentenceJson(IntermediateText, theme), SentenceJson(AdvancedText, theme)]
    ensures Member(BuildFallbackResponse(keyword), "source") == Some(JStr("샘플"))
    ensures SentencesOf(BuildFallbackResponse(keyword)) == Some(ss)
  {
    var theme := Theme(keyword);
    ss := [SentenceJson(BeginnerText, theme), SentenceJson(IntermediateText, theme), SentenceJson(AdvancedText, theme)];
  }

  /**
   * The sample response: source '샘플' and three sentences 초급, 중급, 고급 in
   * that order, with 4, 5 and 5 breakdown entries whose fragments all have
   * content; every translation names the theme (the keyword, or '감사' when
   * the keyword is empty).
   */
  lemma FallbackResponseSpec(keyword: string)
    ensures var d := BuildFallbackResponse(keyword);
            && Member(d, "source") == Some(JStr("샘플"))
            && SentencesOf(d).Some? && |SentencesOf(d).value| == 3
            && forall i :: 0 <= i < 3 ==>
                 SampleSentenceShape(SentencesOf(d).value[i], Levels[i], SampleBreakdownSizes[i], Theme(keyword))
  {
    var theme := Theme(keyword);
    var ss := FallbackSentences(keyword);
    forall i | 0 <= i < 3
      ensures SampleSentenceShape(ss[i], Levels[i], SampleBreakdownSizes[i], theme)
    {
      if i == 0 {
        BeginnerRendered(theme);
      } else if i == 1 {
        IntermediateRendered(theme);
      } else {
        AdvancedRendered(theme);
      }
    }
  }

  /** The sample response is already in the form `normalizeResponse` produces. */
  lemma FallbackResponseNormalized(keyword: string)
    ensures IsNormalized(BuildFallbackResponse(keyword))
  {
    FallbackResponseSpec(keyword);
  }
}
