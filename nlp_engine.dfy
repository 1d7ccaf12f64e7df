/**
 * The text analyser (NLPEngine): sentence scoring and ranking, definition, fact,
 * noun-phrase, topic and relationship extraction.
 *
 * The spaCy pipeline is a parameter `nlp: Parser`, a deterministic function from a
 * text to its parse; the regular-expression search for the definition patterns is a
 * parameter `search: Searcher`. What the engine does with their output is modelled
 * in full.
 */
module NlpEngine {
  import opened Wrappers
  import opened Text
  import opened Ranking

  /** The attributes of a spaCy token the engine reads. `head` is the index, within its
      sentence, of the token's syntactic head (a root is its own head). */
  datatype Token = Token(text: string, isPunct: bool, isStop: bool, likeNum: bool,
                         pos: string, lemmaText: string, dep: string, head: nat)

  datatype Entity = Entity(text: string, category: string, start: nat, end: nat)

  datatype Sentence = Sentence(text: string, tokens: seq<Token>, ents: seq<Entity>)

  /** A parse: its tokens, named entities, sentences and the texts of its noun chunks. */
  datatype Doc = Doc(tokens: seq<Token>, ents: seq<Entity>, sents: seq<Sentence>,
                     nounChunks: seq<string>)

  /** The loaded language model: nlp(text). */
  type Parser = string -> Doc

  // ---------------------------------------------------------------------------
  // sentence scoring (scores are in half points)

  const ImportantVerbs: set<string> :=
    {"is", "are", "was", "were", "define", "explain", "describe",
     "calculate", "determine", "show", "prove", "demonstrate"}

  /** Number of tokens that are not punctuation. */
  function WordCount(tokens: seq<Token>): nat {
    if tokens == [] then 0
    else WordCount(tokens[..|tokens| - 1]) + (if tokens[|tokens| - 1].isPunct then 0 else 1)
  }

  predicate IsImportantVerb(t: Token) {
    t.pos == "VERB" && t.lemmaText in ImportantVerbs
  }

  function ImportantVerbCount(tokens: seq<Token>): nat {
    if tokens == [] then 0
    else ImportantVerbCount(tokens[..|tokens| - 1]) + (if IsImportantVerb(tokens[|tokens| - 1]) then 1 else 0)
  }

  predicate HasNumber(tokens: seq<Token>) {
    exists i :: 0 <= i < |tokens| && tokens[i].likeNum
  }

  /** 2.0 for 10 to 30 words, 1.0 for 5 to 9 or 31 to 50 words, nothing otherwise. */
  function LengthScore(n: nat): nat {
    if 10 <= n <= 30 then 4
    else if 5 <= n < 10 || 30 < n <= 50 then 2
    else 0
  }

  /** The suitability of a sentence as a question source, in half points. A sentence
      outside the 5 to 50 word band scores nothing at all; inside it, every entity,
      important verb and a number only add. */
  function SentenceScore(tokens: seq<Token>, ents: seq<Entity>): (score: nat)
    ensures score == 0 <==> WordCount(tokens) < 5 || WordCount(tokens) > 50
    ensures score > 0 ==> score >= LengthScore(WordCount(tokens)) + |ents| + 2 * ImportantVerbCount(tokens)
  {
    var base := LengthScore(WordCount(tokens));
    if base == 0 then 0
    else base + |ents| + 2 * ImportantVerbCount(tokens) + (if HasNumber(tokens) then 1 else 0)
  }

  /** All else being equal, a sentence of 10 to 30 words outranks one of 5 to 9 or of
      31 to 50 words. */
  lemma MidLengthScoresHigher(a: seq<Token>, b: seq<Token>, ents: seq<Entity>)
    requires 10 <= WordCount(a) <= 30
    requires 5 <= WordCount(b) < 10 || 30 < WordCount(b) <= 50
    requires ImportantVerbCount(a) == ImportantVerbCount(b) && HasNumber(a) == HasNumber(b)
    ensures SentenceScore(a, ents) > SentenceScore(b, ents) > 0
  {
  }

  /** _score_sentence: re-parses the sentence and adds up its score token by token. */
  method ScoreSentence(nlp: Parser, sentence: string) returns (score: nat)
    ensures score == SentenceScore(nlp(sentence).tokens, nlp(sentence).ents)
  {
    var doc := nlp(sentence);
    var wordCount := CountWords(doc.tokens);
    if 10 <= wordCount <= 30 {
      score := 4;
    } else if 5 <= wordCount < 10 || 30 < wordCount <= 50 {
      score := 2;
    } else {
      return 0;
    }
    if |doc.ents| > 0 {
      score := score + |doc.ents|;
    }
    var verbs := CountImportantVerbs(doc.tokens);
    score := score + 2 * verbs;
    var hasNumber := FindNumber(doc.tokens);
    if hasNumber {
      score := score + 1;
    }
  }

  /** The word count of _score_sentence. */
  method CountWords(tokens: seq<Token>) returns (n: nat)
    ensures n == WordCount(tokens)
  {
    n := 0;
    for i := 0 to |tokens|
      invariant n == WordCount(tokens[..i])
    {
      assert tokens[..i + 1][..i] == tokens[..i];
      if !tokens[i].isPunct {
        n := n + 1;
      }
    }
    assert tokens[..|tokens|] == tokens;
  }

  /** The important-verb loop of _score_sentence. */
  method CountImportantVerbs(tokens: seq<Token>) returns (n: nat)
    ensures n == ImportantVerbCount(tokens)
  {
    n := 0;
    for i := 0 to |tokens|
      invariant n == ImportantVerbCount(tokens[..i])
    {
      assert tokens[..i + 1][..i] == tokens[..i];
      if tokens[i].pos == "VERB" && tokens[i].lemmaText in ImportantVerbs {
        n := n + 1;
      }
    }
    assert tokens[..|tokens|] == tokens;
  }

  /** The any(token.like_num ...) test of _score_sentence. */
  method FindNumber(tokens: seq<Token>) returns (found: bool)
    ensures found == HasNumber(tokens)
  {
    var i := 0;
    while i < |tokens| && !tokens[i].likeNum
      invariant 0 <= i <= |tokens|
      invariant forall j :: 0 <= j < i ==> !tokens[j].likeNum
    {
      i := i + 1;
    }
    found := i < |tokens|;
  }

  function ScoreOf(nlp: Parser, s: string): nat {
    SentenceScore(nlp(s).tokens, nlp(s).ents)
  }

  // ---------------------------------------------------------------------------
  // key sentences

  /** The stripped texts of the sentences of a parse. */
  function SentenceTexts(sents: seq<Sentence>): (r: seq<string>)
    ensures |r| == |sents| && forall i :: 0 <= i < |sents| ==> r[i] == Strip(sents[i].text)
  {
    seq(|sents|, i requires 0 <= i < |sents| => Strip(sents[i].text))
  }

  /** The sentences that score above zero, in document order. */
  function PositiveSentences(nlp: Parser, texts: seq<string>): seq<string> {
    if texts == [] then []
    else
      PositiveSentences(nlp, texts[..|texts| - 1])
      + (if ScoreOf(nlp, texts[|texts| - 1]) > 0 then [texts[|texts| - 1]] else [])
  }

  /** The positive sentences paired with their scores. */
  function Scored(nlp: Parser, texts: seq<string>): seq<Keyed<string>> {
    var p := PositiveSentences(nlp, texts);
    seq(|p|, i requires 0 <= i < |p| => Keyed(p[i], ScoreOf(nlp, p[i])))
  }

  /** Scoring one more sentence adds its entry when its score is positive. */
  lemma ScoredStep(nlp: Parser, texts: seq<string>, i: nat)
    requires i < |texts|
    ensures Scored(nlp, texts[..i + 1]) == Scored(nlp, texts[..i])
      + (if ScoreOf(nlp, texts[i]) > 0 then [Keyed(texts[i], ScoreOf(nlp, texts[i]))] else [])
  {
    assert texts[..i + 1][..i] == texts[..i];
  }

  /** The score, as a ranking key. */
  function ScoreIn(nlp: Parser): string -> int {
    s => ScoreOf(nlp, s)
  }

  lemma {:induction false} PositiveSentencesAreScored(nlp: Parser, texts: seq<string>)
    ensures forall s :: s in PositiveSentences(nlp, texts) ==> s in texts && ScoreOf(nlp, s) > 0
  {
    if texts != [] {
      PositiveSentencesAreScored(nlp, texts[..|texts| - 1]);
    }
  }

  /** The top_n highest-scoring sentences, ties in document order. */
  function KeySentences(nlp: Parser, texts: seq<string>, topN: nat): seq<string> {
    Items(MostCommon(Scored(nlp, texts), topN))
  }

  /** The key sentences are the min(top_n, #positive) best-scoring positive sentences:
      scores never increase along the list, and the sentences of any one score are the
      first ones of that score in document order (all of them when top_n is large enough). */
  lemma KeySentencesProperties(nlp: Parser, texts: seq<string>, topN: nat)
    ensures var p := PositiveSentences(nlp, texts);
      |KeySentences(nlp, texts, topN)| == (if topN < |p| then topN else |p|)
    ensures forall s :: s in KeySentences(nlp, texts, topN) ==>
      s in PositiveSentences(nlp, texts) && s in texts && ScoreOf(nlp, s) > 0
    ensures var r := KeySentences(nlp, texts, topN);
      forall i, j :: 0 <= i < j < |r| ==> ScoreOf(nlp, r[i]) >= ScoreOf(nlp, r[j])
    ensures forall s, k ::
              (s in PositiveSentences(nlp, texts) && s !in KeySentences(nlp, texts, topN)
               && k in KeySentences(nlp, texts, topN)) ==> ScoreOf(nlp, s) <= ScoreOf(nlp, k)
    ensures forall v ::
              WithKeyOf(KeySentences(nlp, texts, topN), ScoreIn(nlp), v)
              <= WithKeyOf(PositiveSentences(nlp, texts), ScoreIn(nlp), v)
    ensures topN >= |PositiveSentences(nlp, texts)| ==>
      forall v :: WithKeyOf(KeySentences(nlp, texts, topN), ScoreIn(nlp), v)
               == WithKeyOf(PositiveSentences(nlp, texts), ScoreIn(nlp), v)
  {
    KeySentencesMembers(nlp, texts, topN);
    KeySentencesRanked(nlp, texts, topN);
    KeySentencesKeepTop(nlp, texts, topN);
    KeySentencesStable(nlp, texts, topN);
  }

  /** No positive sentence left out scores higher than a key sentence. */
  lemma KeySentencesKeepTop(nlp: Parser, texts: seq<string>, topN: nat)
    ensures forall s, k ::
              (s in PositiveSentences(nlp, texts) && s !in KeySentences(nlp, texts, topN)
               && k in KeySentences(nlp, texts, topN)) ==> ScoreOf(nlp, s) <= ScoreOf(nlp, k)
  {
    forall s, k | s in PositiveSentences(nlp, texts) && s !in KeySentences(nlp, texts, topN)
                  && k in KeySentences(nlp, texts, topN)
      ensures ScoreOf(nlp, s) <= ScoreOf(nlp, k)
    {
      DroppedSentenceScoresLower(nlp, texts, topN, s, k);
    }
  }

  lemma DroppedSentenceScoresLower(nlp: Parser, texts: seq<string>, topN: nat, s: string, k: string)
    requires s in PositiveSentences(nlp, texts) && s !in KeySentences(nlp, texts, topN)
    requires k in KeySentences(nlp, texts, topN)
    ensures ScoreOf(nlp, s) <= ScoreOf(nlp, k)
  {
    var scored := Scored(nlp, texts);
    var ranked := MostCommon(scored, topN);
    ScoredKeys(nlp, texts);
    MostCommonKeepsTop(scored, topN);
    var a :| 0 <= a < |scored| && Items(scored)[a] == s;
    var b :| 0 <= b < |ranked| && Items(ranked)[b] == k;
    assert ranked[b] in multiset(scored);
    assert scored[a] in scored && ranked[b] in scored;
    assert scored[a] !in ranked;
    DroppedRanksLower(scored, topN, ranked[b], scored[a]);
  }

  /** Every scored entry is keyed by its sentence's score, and the entries' sentences
      are the positive sentences. */
  lemma ScoredKeys(nlp: Parser, texts: seq<string>)
    ensures Items(Scored(nlp, texts)) == PositiveSentences(nlp, texts)
    ensures forall e :: e in Scored(nlp, texts) ==> e.key == ScoreIn(nlp)(e.item)
  {
    assert Items(Scored(nlp, texts)) == PositiveSentences(nlp, texts);
  }

  lemma KeySentencesMembers(nlp: Parser, texts: seq<string>, topN: nat)
    ensures var p := PositiveSentences(nlp, texts);
      |KeySentences(nlp, texts, topN)| == (if topN < |p| then topN else |p|)
    ensures forall s :: s in KeySentences(nlp, texts, topN) ==>
      s in PositiveSentences(nlp, texts) && s in texts && ScoreOf(nlp, s) > 0
  {
    var scored := Scored(nlp, texts);
    var ranked := MostCommon(scored, topN);
    var r := Items(ranked);
    var p := PositiveSentences(nlp, texts);
    MostCommonProperties(scored, topN);
    PositiveSentencesAreScored(nlp, texts);
    forall i | 0 <= i < |r| ensures r[i] in p {
      assert ranked[i] in scored;
      var k :| 0 <= k < |scored| && scored[k] == ranked[i];
      assert p[k] == r[i];
    }
  }

  lemma KeySentencesRanked(nlp: Parser, texts: seq<string>, topN: nat)
    ensures var r := KeySentences(nlp, texts, topN);
      forall i, j :: 0 <= i < j < |r| ==> ScoreOf(nlp, r[i]) >= ScoreOf(nlp, r[j])
  {
    var scored := Scored(nlp, texts);
    var ranked := MostCommon(scored, topN);
    var r := Items(ranked);
    ScoredKeys(nlp, texts);
    MostCommonProperties(scored, topN);
    forall i, j | 0 <= i < j < |r| ensures ScoreOf(nlp, r[i]) >= ScoreOf(nlp, r[j]) {
      assert ranked[i] in scored && ranked[j] in scored;
    }
  }

  lemma KeySentencesStable(nlp: Parser, texts: seq<string>, topN: nat)
    ensures forall v ::
              WithKeyOf(KeySentences(nlp, texts, topN), ScoreIn(nlp), v)
              <= WithKeyOf(PositiveSentences(nlp, texts), ScoreIn(nlp), v)
    ensures topN >= |PositiveSentences(nlp, texts)| ==>
      forall v :: WithKeyOf(KeySentences(nlp, texts, topN), ScoreIn(nlp), v)
               == WithKeyOf(PositiveSentences(nlp, texts), ScoreIn(nlp), v)
  {
    var scored := Scored(nlp, texts);
    var ranked := MostCommon(scored, topN);
    var r := Items(ranked);
    var p := PositiveSentences(nlp, texts);
    ScoredKeys(nlp, texts);
    MostCommonProperties(scored, topN);
    assert forall e :: e in ranked ==> e.key == ScoreIn(nlp)(e.item);
    forall v ensures WithKeyOf(r, ScoreIn(nlp), v) <= WithKeyOf(p, ScoreIn(nlp), v) {
      ItemsWithKeyOf(ranked, ScoreIn(nlp), v);
      ItemsWithKeyOf(scored, ScoreIn(nlp), v);
      ItemsOfPrefix(WithKey(ranked, v), WithKey(scored, v));
    }
    if topN >= |p| {
      forall v ensures WithKeyOf(r, ScoreIn(nlp), v) == WithKeyOf(p, ScoreIn(nlp), v) {
        ItemsWithKeyOf(ranked, ScoreIn(nlp), v);
        ItemsWithKeyOf(scored, ScoreIn(nlp), v);
        SortIsStable(scored, v);
      }
    }
  }

  /** extract_key_sentences: scores every stripped sentence, keeps the positive ones and
      ranks them. */
  method ExtractKeySentences(nlp: Parser, text: string, topN: nat) returns (r: seq<string>)
    ensures r == KeySentences(nlp, SentenceTexts(nlp(text).sents), topN)
  {
    var doc := nlp(text);
    var sentences := SentenceTexts(doc.sents);
    var scored: seq<Keyed<string>> := [];
    for i := 0 to |sentences|
      invariant scored == Scored(nlp, sentences[..i])
    {
      var sent := sentences[i];
      var score := ScoreSentence(nlp, sent);
      ScoredStep(nlp, sentences, i);
      if score > 0 {
        scored := scored + [Keyed(sent, score)];
      }
    }
    assert sentences[..|sentences|] == sentences;
    r := Items(MostCommon(scored, topN));
  }

  // ---------------------------------------------------------------------------
  // definitions

  /** The four definition patterns, in the order they are tried:
      "X is a/an/the Y", "X refers to Y", "X means Y", "X can be defined as Y". */
  datatype DefinitionPattern = IsArticle | RefersTo | Means | CanBeDefinedAs

  const DefinitionPatterns: seq<DefinitionPattern> := [IsArticle, RefersTo, Means, CanBeDefinedAs]

  /** The two groups of a successful search. */
  datatype Groups = Groups(first: string, second: string)

  /** re.search(pattern, sentence, re.IGNORECASE), supplied by the regular-expression engine. */
  type Searcher = (DefinitionPattern, string) -> Option<Groups>

  datatype Definition = Definition(term: string, definition: string, sentence: string)

  /** The first pattern, from position `from` of the list on, that matches s. */
  function FirstMatch(search: Searcher, s: string, from: nat): (r: Option<(nat, Groups)>)
    requires from <= |DefinitionPatterns|
    ensures r.Some? ==> from <= r.value.0 < |DefinitionPatterns|
                        && search(DefinitionPatterns[r.value.0], s) == Some(r.value.1)
    ensures forall j :: from <= j < (if r.Some? then r.value.0 else |DefinitionPatterns|)
                        ==> search(DefinitionPatterns[j], s).None?
    decreases |DefinitionPatterns| - from
  {
    if from == |DefinitionPatterns| then None
    else match search(DefinitionPatterns[from], s)
      case Some(g) => Some((from, g))
      case None => FirstMatch(search, s, from + 1)
  }

  /** The definition a sentence yields: the trimmed groups of the first matching pattern. */
  function DefinitionOf(search: Searcher, s: string): Option<Definition> {
    match FirstMatch(search, s, 0)
    case None => None
    case Some((_, g)) => Some(Definition(Strip(g.first), Strip(g.second), s))
  }

  function Definitions(search: Searcher, texts: seq<string>): seq<Definition> {
    if texts == [] then []
    else
      Definitions(search, texts[..|texts| - 1])
      + (match DefinitionOf(search, texts[|texts| - 1]) case None => [] case Some(d) => [d])
  }

  lemma {:induction false} DefinitionsOnePerSentence(search: Searcher, texts: seq<string>)
    ensures |Definitions(search, texts)| <= |texts|
    ensures forall d :: d in Definitions(search, texts) ==> d.sentence in texts && DefinitionOf(search, d.sentence) == Some(d)
  {
    if texts != [] {
      DefinitionsOnePerSentence(search, texts[..|texts| - 1]);
    }
  }

  method ExtractDefinitions(nlp: Parser, search: Searcher, text: string) returns (defs: seq<Definition>)
    ensures defs == Definitions(search, SentenceTexts(nlp(text).sents))
    ensures |defs| <= |nlp(text).sents|
    ensures forall d :: d in defs ==> d.sentence in SentenceTexts(nlp(text).sents)
                                      && DefinitionOf(search, d.sentence) == Some(d)
  {
    var texts := SentenceTexts(nlp(text).sents);
    defs := [];
    for i := 0 to |texts|
      invariant defs == Definitions(search, texts[..i])
    {
      var sentText := texts[i];
      assert texts[..i + 1][..i] == texts[..i];
      ghost var before := defs;
      var j := 0;
      while j < |DefinitionPatterns|
        invariant 0 <= j <= |DefinitionPatterns|
        invariant FirstMatch(search, sentText, j) == FirstMatch(search, sentText, 0)
        invariant defs == before
      {
        var m := search(DefinitionPatterns[j], sentText);
        if m.Some? {
          defs := defs + [Definition(Strip(m.value.first), Strip(m.value.second), sentText)];
          break;
        }
        j := j + 1;
      }
    }
    assert texts[..|texts|] == texts;
    DefinitionsOnePerSentence(search, texts);
  }

  // ---------------------------------------------------------------------------
  // facts

  predicate HasDate(ents: seq<Entity>) {
    exists i :: 0 <= i < |ents| && ents[i].category == "DATE"
  }

  predicate HasQuantity(ents: seq<Entity>) {
    exists i :: 0 <= i < |ents| && ents[i].category in {"QUANTITY", "PERCENT", "MONEY"}
  }

  /** A sentence with a number, a date or a quantity, of 10 to 40 words. */
  predicate IsFact(s: Sentence) {
    (HasNumber(s.tokens) || HasDate(s.ents) || HasQuantity(s.ents))
    && 10 <= |SplitWs(Strip(s.text))| <= 40
  }

  function Facts(sents: seq<Sentence>): seq<string> {
    if sents == [] then []
    else Facts(sents[..|sents| - 1]) + (if IsFact(sents[|sents| - 1]) then [Strip(sents[|sents| - 1].text)] else [])
  }

  lemma {:induction false} FactsAreFactual(sents: seq<Sentence>)
    ensures |Facts(sents)| <= |sents|
    ensures forall f :: f in Facts(sents) ==> exists i :: 0 <= i < |sents| && IsFact(sents[i]) && Strip(sents[i].text) == f
  {
    if sents != [] {
      var init := sents[..|sents| - 1];
      FactsAreFactual(init);
      forall f | f in Facts(sents)
        ensures exists i :: 0 <= i < |sents| && IsFact(sents[i]) && Strip(sents[i].text) == f
      {
        if f in Facts(init) {
          var i :| 0 <= i < |init| && IsFact(init[i]) && Strip(init[i].text) == f;
          assert sents[i] == init[i];
        }
      }
    }
  }

  method ExtractFacts(nlp: Parser, text: string) returns (facts: seq<string>)
    ensures facts == Facts(nlp(text).sents)
    ensures |facts| <= |nlp(text).sents|
    ensures forall f :: f in facts ==> 10 <= |SplitWs(f)| <= 40
    ensures forall f :: f in facts ==>
              (exists i :: 0 <= i < |nlp(text).sents| && Strip(nlp(text).sents[i].text) == f
                 && (HasNumber(nlp(text).sents[i].tokens) || HasDate(nlp(text).sents[i].ents)
                     || HasQuantity(nlp(text).sents[i].ents)))
  {
    var sents := nlp(text).sents;
    facts := [];
    for i := 0 to |sents|
      invariant facts == Facts(sents[..i])
    {
      assert sents[..i + 1][..i] == sents[..i];
      var sentText := Strip(sents[i].text);
      var hasNumber := HasNumber(sents[i].tokens);
      var hasDate := HasDate(sents[i].ents);
      var hasQuantity := HasQuantity(sents[i].ents);
      if hasNumber || hasDate || hasQuantity {
        if 10 <= |SplitWs(sentText)| <= 40 {
          facts := facts + [sentText];
        }
      }
    }
    assert sents[..|sents|] == sents;
    FactsAreFactual(sents);
  }

  // ---------------------------------------------------------------------------
  // noun phrases and topics

  /** A noun chunk of at least two words and more than five characters. */
  predicate IsPhraseCandidate(chunk: string) {
    |SplitWs(chunk)| >= 2 && |chunk| > 5
  }

  /** The stripped texts of the qualifying noun chunks, duplicates included. */
  function Candidates(chunks: seq<string>): seq<string> {
    if chunks == [] then []
    else
      Candidates(chunks[..|chunks| - 1])
      + (if IsPhraseCandidate(chunks[|chunks| - 1]) then [Strip(chunks[|chunks| - 1])] else [])
  }

  lemma {:induction false} CandidatesQualify(chunks: seq<string>)
    ensures forall p :: p in Candidates(chunks) ==> exists c :: c in chunks && IsPhraseCandidate(c) && p == Strip(c)
  {
    if chunks != [] {
      CandidatesQualify(chunks[..|chunks| - 1]);
      assert forall c :: c in chunks[..|chunks| - 1] ==> c in chunks;
    }
  }

  method ExtractNounPhrases(nlp: Parser, text: string) returns (phrases: seq<string>)
    ensures NoDuplicates(phrases)
    ensures forall p :: p in phrases <==> p in Candidates(nlp(text).nounChunks)
    ensures forall p :: p in phrases ==> exists c :: c in nlp(text).nounChunks && IsPhraseCandidate(c) && p == Strip(c)
  {
    var chunks := nlp(text).nounChunks;
    var found: seq<string> := [];
    for i := 0 to |chunks|
      invariant found == Candidates(chunks[..i])
    {
      assert chunks[..i + 1][..i] == chunks[..i];
      if |SplitWs(chunks[i])| >= 2 && |chunks[i]| > 5 {
        found := found + [Strip(chunks[i])];
      }
    }
    assert chunks[..|chunks|] == chunks;
    phrases := SetToList(found);
    CandidatesQualify(chunks);
  }

  /** identify_topics: noun phrases ranked by frequency. The phrases come deduplicated,
      so every count is one and the ranking keeps their order. */
  method IdentifyTopics(nlp: Parser, text: string, numTopics: nat) returns (topics: seq<string>)
    ensures NoDuplicates(topics)
    ensures var n := |set p | p in Candidates(nlp(text).nounChunks)|;
      |topics| == if numTopics < n then numTopics else n
    ensures forall t :: t in topics ==> t in Candidates(nlp(text).nounChunks)
  {
    var phrases := ExtractNounPhrases(nlp, text);
    var counter := CountOccurrences(phrases);
    var top := MostCommon(counter, numTopics);
    topics := Items(top);
    RankedPhrases(phrases, Candidates(nlp(text).nounChunks), numTopics);
  }

  /** Ranking distinct phrases by count keeps the first n of them. */
  lemma RankedPhrases(phrases: seq<string>, candidates: seq<string>, n: nat)
    requires NoDuplicates(phrases)
    requires forall p :: p in phrases <==> p in candidates
    ensures NoDuplicates(Items(MostCommon(Tally(phrases), n)))
    ensures var k := |set p | p in candidates|;
      |Items(MostCommon(Tally(phrases), n))| == if n < k then n else k
    ensures forall t :: t in Items(MostCommon(Tally(phrases), n)) ==> t in candidates
  {
    MostCommonOfDistinct(phrases, n);
    NoDuplicatesCardinality(phrases);
    assert (set p | p in phrases) == (set p | p in candidates);
    var r := Take(phrases, n);
    forall i, j | 0 <= i < j < |r| ensures r[i] != r[j] {
      assert r[i] == phrases[i] && r[j] == phrases[j];
    }
  }

  // ---------------------------------------------------------------------------
  // subject-verb-object relationships

  const SubjectDeps: set<string> := {"nsubj", "nsubjpass"}
  const ObjectDeps: set<string> := {"dobj", "pobj"}

  predicate IsChild(tokens: seq<Token>, j: nat, t: nat)
    requires j < |tokens|
  {
    j != t && tokens[j].head == t
  }

  /** Token t has a child whose dependency label is in deps and whose text is `text`. */
  predicate HasChild(tokens: seq<Token>, t: nat, deps: set<string>, text: string) {
    exists j :: 0 <= j < |tokens| && IsChild(tokens, j, t) && tokens[j].dep in deps && tokens[j].text == text
  }

  /** The text of the last child of token t among tokens[..upto] whose dependency label
      is in deps: the value a loop over the children that overwrites on each match ends with. */
  function LastChild(tokens: seq<Token>, t: nat, upto: nat, deps: set<string>): (r: Option<string>)
    requires upto <= |tokens|
    ensures r.Some? ==> HasChild(tokens, t, deps, r.value)
    ensures r.None? ==> forall j :: 0 <= j < upto && IsChild(tokens, j, t) ==> tokens[j].dep !in deps
  {
    if upto == 0 then None
    else if IsChild(tokens, upto - 1, t) && tokens[upto - 1].dep in deps then Some(tokens[upto - 1].text)
    else LastChild(tokens, t, upto - 1, deps)
  }

  datatype Relationship = Relationship(subject: string, verb: string, obj: string, sentence: string)

  /** The relationship token t of a sentence yields: only a root verb with a non-empty
      subject child and a non-empty object child yields one. */
  function RelationshipAt(s: Sentence, t: nat): (r: Option<Relationship>)
    requires t < |s.tokens|
    ensures r.Some? ==> s.tokens[t].dep == "ROOT" && s.tokens[t].pos == "VERB"
                        && r.value.verb == s.tokens[t].text && r.value.sentence == Strip(s.text)
                        && r.value.subject != [] && r.value.obj != []
                        && HasChild(s.tokens, t, SubjectDeps, r.value.subject)
                        && HasChild(s.tokens, t, ObjectDeps, r.value.obj)
  {
    var tok := s.tokens[t];
    var subject := LastChild(s.tokens, t, |s.tokens|, SubjectDeps);
    var obj := LastChild(s.tokens, t, |s.tokens|, ObjectDeps);
    if tok.dep == "ROOT" && tok.pos == "VERB" && subject.Some? && obj.Some?
       && subject.value != [] && obj.value != []
    then Some(Relationship(subject.value, tok.text, obj.value, Strip(s.text)))
    else None
  }

  function SentenceRelationships(s: Sentence, upto: nat): seq<Relationship>
    requires upto <= |s.tokens|
  {
    if upto == 0 then []
    else
      SentenceRelationships(s, upto - 1)
      + (match RelationshipAt(s, upto - 1) case None => [] case Some(r) => [r])
  }

  function Relationships(sents: seq<Sentence>): seq<Relationship> {
    if sents == [] then []
    else Relationships(sents[..|sents| - 1]) + SentenceRelationships(sents[|sents| - 1], |sents[|sents| - 1].tokens|)
  }

  lemma {:induction false} SentenceRelationshipsSound(s: Sentence, upto: nat)
    requires upto <= |s.tokens|
    ensures forall r :: r in SentenceRelationships(s, upto) ==>
              exists t :: 0 <= t < upto && RelationshipAt(s, t) == Some(r)
  {
    if upto > 0 {
      var prev := SentenceRelationships(s, upto - 1);
      SentenceRelationshipsSound(s, upto - 1);
      forall r | r in SentenceRelationships(s, upto)
        ensures exists t :: 0 <= t < upto && RelationshipAt(s, t) == Some(r)
      {
        if r !in prev {
          assert RelationshipAt(s, upto - 1) == Some(r);
        }
      }
    }
  }

  lemma {:induction false} RelationshipsSound(sents: seq<Sentence>)
    ensures forall r :: r in Relationships(sents) ==>
              exists i, t :: 0 <= i < |sents| && 0 <= t < |sents[i].tokens| && RelationshipAt(sents[i], t) == Some(r)
  {
    if sents != [] {
      var init := sents[..|sents| - 1];
      var last := sents[|sents| - 1];
      RelationshipsSound(init);
      SentenceRelationshipsSound(last, |last.tokens|);
      forall r | r in Relationships(sents)
        ensures exists i, t :: 0 <= i < |sents| && 0 <= t < |sents[i].tokens| && RelationshipAt(sents[i], t) == Some(r)
      {
        if r in Relationships(init) {
          var i, t :| 0 <= i < |init| && 0 <= t < |init[i].tokens| && RelationshipAt(init[i], t) == Some(r);
          assert sents[i] == init[i];
        } else {
          var t :| 0 <= t < |last.tokens| && RelationshipAt(last, t) == Some(r);
          assert sents[|sents| - 1] == last;
        }
      }
    }
  }

  /** The loop over token t's children: the last subject child and the last object child seen. */
  method SubjectAndObject(tokens: seq<Token>, t: nat) returns (subject: Option<string>, obj: Option<string>)
    ensures subject == LastChild(tokens, t, |tokens|, SubjectDeps)
    ensures obj == LastChild(tokens, t, |tokens|, ObjectDeps)
  {
    subject := None;
    obj := None;
    for j := 0 to |tokens|
      invariant subject == LastChild(tokens, t, j, SubjectDeps)
      invariant obj == LastChild(tokens, t, j, ObjectDeps)
    {
      if j != t && tokens[j].head == t {
        var child := tokens[j];
        if child.dep in SubjectDeps {
          subject := Some(child.text);
        } else if child.dep in ObjectDeps {
          obj := Some(child.text);
        }
      }
    }
  }

  method ExtractRelationships(nlp: Parser, text: string) returns (rels: seq<Relationship>)
    ensures rels == Relationships(nlp(text).sents)
  {
    var sents := nlp(text).sents;
    rels := [];
    for i := 0 to |sents|
      invariant rels == Relationships(sents[..i])
    {
      var found := SentenceRelations(sents[i]);
      RelationshipsStep(sents, i);
      rels := rels + found;
    }
    assert sents[..|sents|] == sents;
  }

  lemma RelationshipsStep(sents: seq<Sentence>, i: nat)
    requires i < |sents|
    ensures Relationships(sents[..i + 1])
         == Relationships(sents[..i]) + SentenceRelationships(sents[i], |sents[i].tokens|)
  {
    assert sents[..i + 1][..i] == sents[..i];
  }

  /** The loop over one sentence's tokens: a relationship for each root verb that has a
      subject child and an object child. */
  method SentenceRelations(sent: Sentence) returns (rels: seq<Relationship>)
    ensures rels == SentenceRelationships(sent, |sent.tokens|)
  {
    var tokens := sent.tokens;
    rels := [];
    for t := 0 to |tokens|
      invariant rels == SentenceRelationships(sent, t)
    {
      var rel := RelationAt(sent, t);
      if rel.Some? {
        rels := rels + [rel.value];
      }
    }
  }

  /** The relationship token t yields, if it is a root verb. */
  method RelationAt(sent: Sentence, t: nat) returns (rel: Option<Relationship>)
    requires t < |sent.tokens|
    ensures rel == RelationshipAt(sent, t)
  {
    var token := sent.tokens[t];
    rel := None;
    if token.dep == "ROOT" && token.pos == "VERB" {
      var subject, obj := SubjectAndObject(sent.tokens, t);
      if subject.Some? && subject.value != [] && obj.Some? && obj.value != [] {
        rel := Some(Relationship(subject.value, token.text, obj.value, Strip(sent.text)));
      }
    }
  }
}
