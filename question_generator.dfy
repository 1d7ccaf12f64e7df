/**
 * The question generator (QuestionGenerator): splits the requested number of questions
 * across the requested question types, builds each type's questions from the text
 * analyser's output, stamps difficulty labels from a mix, and reconciles the list with
 * the requested count.
 *
 * Python's `random` module is the `Rand.Random` object every generator draws from; what
 * is proved holds for every outcome of the draws. Question records are values: the
 * dictionaries the source builds are never shared, so updating one in place and
 * replacing it by an updated copy agree.
 */
module QuestionGenerator {
  import opened Wrappers
  import opened Text
  import opened Ranking
  import opened Rand
  import opened NlpEngine

  datatype QuestionType = MCQ | TrueFalse | ShortAnswer | LongAnswer | FillBlank | Programming

  datatype DifficultyLevel = Easy | Medium | Hard

  /** A question record. `halfMarks` is suggested_marks in half points; `options` holds
      option_a, option_b, ... in order (none for open questions); `difficulty` is absent
      until one is assigned. */
  datatype Question = Question(text: string, qtype: QuestionType, correctAnswer: string,
                               explanation: string, halfMarks: nat, options: seq<string>,
                               difficulty: Option<DifficultyLevel>)

  function Min(a: nat, b: nat): nat {
    if a < b then a else b
  }

  /** The elements of xs that keep accepts, in order. */
  function Filter<T>(xs: seq<T>, keep: T -> bool): (r: seq<T>)
    ensures |r| <= |xs|
    ensures forall i :: 0 <= i < |r| ==> r[i] in xs && keep(r[i])
  {
    if xs == [] then []
    else Filter(xs[..|xs| - 1], keep) + (if keep(xs[|xs| - 1]) then [xs[|xs| - 1]] else [])
  }

  lemma FilterStep<T>(xs: seq<T>, j: nat, keep: T -> bool)
    requires j < |xs|
    ensures Filter(xs[..j + 1], keep) == Filter(xs[..j], keep) + (if keep(xs[j]) then [xs[j]] else [])
  {
    assert xs[..j + 1][..j] == xs[..j];
  }

  // ---------------------------------------------------------------------------
  // questions per type

  /** The number of questions asked of the type at position idx among k requested types:
      n // k, plus one for each of the first n % k types. */
  function TypeTarget(n: nat, k: nat, idx: nat): nat
    requires k > 0
  {
    n / k + (if idx < n % k then 1 else 0)
  }

  function TypeTargets(n: nat, k: nat): seq<nat>
    requires k > 0
  {
    seq(k, (idx: int) requires 0 <= idx < k => TypeTarget(n, k, idx))
  }

  function Sum(s: seq<nat>): nat {
    if s == [] then 0 else Sum(s[..|s| - 1]) + s[|s| - 1]
  }

  lemma SumStep(s: seq<nat>, i: nat)
    requires i < |s|
    ensures Sum(s[..i + 1]) == Sum(s[..i]) + s[i]
  {
    assert s[..i + 1][..i] == s[..i];
  }

  lemma {:induction false} TypeTargetsPrefixSum(n: nat, k: nat, m: nat)
    requires 0 < k && m <= k
    ensures Sum(TypeTargets(n, k)[..m]) == m * (n / k) + Min(m, n % k)
  {
    if m > 0 {
      TypeTargetsPrefixSum(n, k, m - 1);
      assert TypeTargets(n, k)[..m][..m - 1] == TypeTargets(n, k)[..m - 1];
      assert (m - 1) * (n / k) + n / k == m * (n / k);
    }
  }

  /** The per-type targets add up to the requested count, each is n // k or one more,
      and the larger ones come first, in request order. */
  lemma TypeTargetsProperties(n: nat, k: nat)
    requires k > 0
    ensures |TypeTargets(n, k)| == k
    ensures Sum(TypeTargets(n, k)) == n
    ensures forall i :: 0 <= i < k ==> n / k <= TypeTargets(n, k)[i] <= n / k + 1
    ensures forall i, j :: 0 <= i <= j < k ==> TypeTargets(n, k)[j] <= TypeTargets(n, k)[i]
  {
    TypeTargetsPrefixSum(n, k, k);
    assert TypeTargets(n, k)[..k] == TypeTargets(n, k);
  }

  // ---------------------------------------------------------------------------
  // difficulty mix

  /** difficulty_mix: a share per level. Float rounding is not modelled. */
  type DifficultyMix = map<DifficultyLevel, real>

  const DefaultMix: DifficultyMix := map[Easy := 0.4, Medium := 0.4, Hard := 0.2]

  /** difficulty_mix.get(level, 0.4) */
  function Share(mix: DifficultyMix, level: DifficultyLevel): real {
    if level in mix then mix[level] else 0.4
  }

  /** int(x): truncation toward zero. */
  function Trunc(x: real): (r: int)
    ensures 0.0 <= x ==> 0 <= r && r as real <= x < r as real + 1.0
    ensures x < 0.0 ==> r <= 0 && r as real - 1.0 < x <= r as real
  {
    if x >= 0.0 then x.Floor else -((-x).Floor)
  }

  datatype LevelCounts = LevelCounts(easy: int, medium: int, hard: int)

  /** The label counts for total questions: easy and medium are the truncated shares,
      hard is what is left (and may be negative). */
  function LevelCountsOf(total: nat, mix: DifficultyMix): LevelCounts {
    SharedCounts(total, Share(mix, Easy), Share(mix, Medium))
  }

  function SharedCounts(total: nat, easyShare: real, mediumShare: real): LevelCounts {
    CountsFor(total, total as real * easyShare, total as real * mediumShare)
  }

  /** The counts for the unrounded amounts total * share of easy and of medium. */
  function CountsFor(total: nat, easyAmount: real, mediumAmount: real): LevelCounts {
    var easy := Trunc(easyAmount);
    var medium := Trunc(mediumAmount);
    LevelCounts(easy, medium, total - easy - medium)
  }

  /** [x] * n: empty when n is not positive. */
  function Repeat<T>(x: T, n: int): (r: seq<T>)
    ensures |r| == if n > 0 then n else 0
    ensures forall i :: 0 <= i < |r| ==> r[i] == x
  {
    if n <= 0 then [] else [x] + Repeat(x, n - 1)
  }

  /** [EASY] * easy + [MEDIUM] * medium + [HARD] * hard */
  function Labels(c: LevelCounts): seq<DifficultyLevel> {
    Repeat(Easy, c.easy) + Repeat(Medium, c.medium) + Repeat(Hard, c.hard)
  }

  function Max0(n: int): nat {
    if n > 0 then n else 0
  }

  lemma {:induction false} RepeatMultiset<T>(x: T, n: int, y: T)
    ensures multiset(Repeat(x, n))[y] == if y == x then Max0(n) else 0
    decreases if n > 0 then n else 0
  {
    if n > 0 {
      RepeatMultiset(x, n - 1, y);
      assert multiset(Repeat(x, n)) == multiset{x} + multiset(Repeat(x, n - 1));
    }
  }

  /** The label list holds each level as often as its count says (none for a count
      that is not positive). */
  lemma LabelsMultiset(c: LevelCounts)
    ensures multiset(Labels(c))[Easy] == Max0(c.easy)
    ensures multiset(Labels(c))[Medium] == Max0(c.medium)
    ensures multiset(Labels(c))[Hard] == Max0(c.hard)
  {
    RepeatMultiset(Easy, c.easy, Easy);
    RepeatMultiset(Easy, c.easy, Medium);
    RepeatMultiset(Easy, c.easy, Hard);
    RepeatMultiset(Medium, c.medium, Easy);
    RepeatMultiset(Medium, c.medium, Medium);
    RepeatMultiset(Medium, c.medium, Hard);
    RepeatMultiset(Hard, c.hard, Easy);
    RepeatMultiset(Hard, c.hard, Medium);
    RepeatMultiset(Hard, c.hard, Hard);
  }

  /** A mix whose easy and medium shares are non-negative and add up to at most one
      gives one label per question: easy and medium get at most their share of the
      total, and hard gets at least what those shares leave. */
  lemma ProperMixCounts(total: nat, mix: DifficultyMix)
    requires 0.0 <= Share(mix, Easy) && 0.0 <= Share(mix, Medium)
    requires Share(mix, Easy) + Share(mix, Medium) <= 1.0
    ensures var c := LevelCountsOf(total, mix);
      && 0 <= c.easy && c.easy as real <= total as real * Share(mix, Easy)
      && 0 <= c.medium && c.medium as real <= total as real * Share(mix, Medium)
      && 0 <= c.hard
      && c.hard as real >= total as real - total as real * Share(mix, Easy) - total as real * Share(mix, Medium)
      && |Labels(c)| == total
  {
    ShareCounts(total, Share(mix, Easy), Share(mix, Medium));
    var c := LevelCountsOf(total, mix);
    assert |Labels(c)| == c.easy + c.medium + c.hard;
  }

  lemma ShareCounts(total: nat, e: real, m: real)
    requires 0.0 <= e && 0.0 <= m && e + m <= 1.0
    ensures 0 <= SharedCounts(total, e, m).easy
    ensures SharedCounts(total, e, m).easy as real <= total as real * e
    ensures 0 <= SharedCounts(total, e, m).medium
    ensures SharedCounts(total, e, m).medium as real <= total as real * m
    ensures 0 <= SharedCounts(total, e, m).hard
    ensures SharedCounts(total, e, m).hard as real >= total as real - total as real * e - total as real * m
  {
    var t := total as real;
    var easyAmount, mediumAmount := t * e, t * m;
    assert 0.0 <= easyAmount && 0.0 <= mediumAmount && easyAmount + mediumAmount <= t by {
      ShareProducts(t, e, m, easyAmount, mediumAmount);
    }
    var c := CountsFor(total, easyAmount, mediumAmount);
    assert SharedCounts(total, e, m) == c;
    AmountCounts(total, easyAmount, mediumAmount);
  }

  lemma ShareProducts(t: real, e: real, m: real, te: real, tm: real)
    requires 0.0 <= t && 0.0 <= e && 0.0 <= m && e + m <= 1.0
    requires te == t * e && tm == t * m
    ensures 0.0 <= te && 0.0 <= tm && te + tm <= t
  {
    assert te + tm == t * (e + m);
    assert t * (e + m) <= t * 1.0;
  }

  lemma AmountCounts(total: nat, easyAmount: real, mediumAmount: real)
    requires 0.0 <= easyAmount && 0.0 <= mediumAmount
    requires easyAmount + mediumAmount <= total as real
    ensures var c := CountsFor(total, easyAmount, mediumAmount);
      && 0 <= c.easy && c.easy as real <= easyAmount
      && 0 <= c.medium && c.medium as real <= mediumAmount
      && 0 <= c.hard && c.hard as real >= total as real - easyAmount - mediumAmount
  {
  }

  /** With the default mix, easy and medium each get floor(2n/5) questions and hard the
      rest, which is at least a fifth: a single question is always HARD. */
  lemma DefaultMixCounts(total: nat)
    ensures var c := LevelCountsOf(total, DefaultMix);
      && c.easy == c.medium == (2 * total) / 5
      && c.hard == total - 2 * ((2 * total) / 5)
      && 5 * c.hard >= total
  {
    var q := (2 * total) / 5;
    assert 5 * q <= 2 * total < 5 * q + 5;
    assert q as real <= total as real * 0.4 < q as real + 1.0;
    assert Trunc(total as real * 0.4) == q;
  }

  // ---------------------------------------------------------------------------
  // stamping difficulties

  /** The questions with label i on question i, and MEDIUM past the end of the labels. */
  function Stamp(qs: seq<Question>, labels: seq<DifficultyLevel>): seq<Question> {
    seq(|qs|, i requires 0 <= i < |qs| =>
      qs[i].(difficulty := Some(if i < |labels| then labels[i] else Medium)))
  }

  /** The difficulty field of each question. */
  function Levels(qs: seq<Question>): (r: seq<Option<DifficultyLevel>>)
    ensures |r| == |qs|
  {
    seq(|qs|, i requires 0 <= i < |qs| => qs[i].difficulty)
  }

  function Somes(xs: seq<DifficultyLevel>): (r: seq<Option<DifficultyLevel>>)
    ensures |r| == |xs|
  {
    seq(|xs|, i requires 0 <= i < |xs| => Some(xs[i]))
  }

  /** Stamping keeps the list's length and order and every field but the difficulty;
      the difficulties are the labels in order, then MEDIUM for the questions past them. */
  lemma StampProperties(qs: seq<Question>, labels: seq<DifficultyLevel>)
    ensures |Stamp(qs, labels)| == |qs|
    ensures forall i :: 0 <= i < |qs| ==>
              Stamp(qs, labels)[i].(difficulty := qs[i].difficulty) == qs[i]
    ensures Levels(Stamp(qs, labels)) == Somes(Take(labels, |qs|)) + Repeat(Some(Medium), |qs| - |labels|)
  {
    var r := Stamp(qs, labels);
    var rhs := Somes(Take(labels, |qs|)) + Repeat(Some(Medium), |qs| - |labels|);
    assert |Levels(r)| == |rhs|;
    forall i | 0 <= i < |qs| ensures Levels(r)[i] == rhs[i] {
      if i < |labels| {
        assert rhs[i] == Some(labels[i]);
      } else {
        assert rhs[i] == Repeat(Some(Medium), |qs| - |labels|)[i - |labels|];
      }
    }
  }

  lemma {:induction false} SomesMultiset(xs: seq<DifficultyLevel>, l: DifficultyLevel)
    ensures multiset(Somes(xs))[Some(l)] == multiset(xs)[l]
  {
    if xs != [] {
      var init := xs[..|xs| - 1];
      SomesMultiset(init, l);
      assert xs == init + [xs[|xs| - 1]];
      assert Somes(xs) == Somes(init) + [Some(xs[|xs| - 1])];
    }
  }

  /** With a proper mix, stamping a shuffle of the label list gives exactly easy EASY,
      medium MEDIUM and hard HARD questions, whatever the shuffle. */
  lemma StampedCounts(qs: seq<Question>, mix: DifficultyMix, shuffled: seq<DifficultyLevel>)
    requires 0.0 <= Share(mix, Easy) && 0.0 <= Share(mix, Medium)
    requires Share(mix, Easy) + Share(mix, Medium) <= 1.0
    requires multiset(shuffled) == multiset(Labels(LevelCountsOf(|qs|, mix)))
    ensures multiset(Levels(Stamp(qs, shuffled)))[Some(Easy)] == LevelCountsOf(|qs|, mix).easy
    ensures multiset(Levels(Stamp(qs, shuffled)))[Some(Medium)] == LevelCountsOf(|qs|, mix).medium
    ensures multiset(Levels(Stamp(qs, shuffled)))[Some(Hard)] == LevelCountsOf(|qs|, mix).hard
    ensures multiset(Levels(Stamp(qs, shuffled)))[None] == 0
  {
    var c := LevelCountsOf(|qs|, mix);
    ProperMixCounts(|qs|, mix);
    LabelsMultiset(c);
    assert |shuffled| == |multiset(shuffled)| == |Labels(c)| == |qs|;
    StampAllLabelled(qs, shuffled);
    SomesCounts(shuffled);
  }

  /** With a label for every question, the difficulties are exactly the labels. */
  lemma StampAllLabelled(qs: seq<Question>, labels: seq<DifficultyLevel>)
    requires |labels| == |qs|
    ensures Levels(Stamp(qs, labels)) == Somes(labels)
  {
  }

  lemma SomesCounts(xs: seq<DifficultyLevel>)
    ensures multiset(Somes(xs))[Some(Easy)] == multiset(xs)[Easy]
    ensures multiset(Somes(xs))[Some(Medium)] == multiset(xs)[Medium]
    ensures multiset(Somes(xs))[Some(Hard)] == multiset(xs)[Hard]
    ensures multiset(Somes(xs))[None] == 0
  {
    SomesMultiset(xs, Easy);
    SomesMultiset(xs, Medium);
    SomesMultiset(xs, Hard);
    assert None !in Somes(xs);
  }

  // ---------------------------------------------------------------------------
  // string rewriters

  /** _create_false_statement */
  function CreateFalseStatement(statement: string): string {
    if Contains(statement, " is ") then ReplaceAll(statement, " is ", " is not ")
    else if Contains(statement, " are ") then ReplaceAll(statement, " are ", " are not ")
    else "It is incorrect that " + Lower(statement)
  }

  /** The false statement is strictly longer than the true one, so never equal to it. */
  lemma FalseStatementLonger(statement: string)
    ensures |CreateFalseStatement(statement)| > |statement|
  {
    FalseStatementNegates(statement);
  }

  /** The text up to the first " is " is kept and that " is " becomes " is not ";
      failing that, the same for " are "; failing both, the lowercased statement is
      prefixed with "It is incorrect that ". */
  lemma FalseStatementNegates(statement: string)
    ensures Contains(statement, " is ") ==>
              |CreateFalseStatement(statement)| > |statement|
              && IsPrefix(statement[..FindSub(statement, " is ").value] + " is not ",
                          CreateFalseStatement(statement))
    ensures !Contains(statement, " is ") && Contains(statement, " are ") ==>
              |CreateFalseStatement(statement)| > |statement|
              && IsPrefix(statement[..FindSub(statement, " are ").value] + " are not ",
                          CreateFalseStatement(statement))
    ensures !Contains(statement, " is ") && !Contains(statement, " are ") ==>
              CreateFalseStatement(statement) == "It is incorrect that " + Lower(statement)
              && |CreateFalseStatement(statement)| > |statement|
  {
    if Contains(statement, " is ") {
      assert " is " + "not " == " is not ";
      NegateFirst(statement, " is ", "not ", " is not ");
    } else if Contains(statement, " are ") {
      assert " are " + "not " == " are not ";
      NegateFirst(statement, " are ", "not ", " are not ");
    } else {
      assert |Lower(statement)| == |statement|;
    }
  }

  /** Replacing every p by p + q lengthens the text, and the text up to the first p is
      followed by p + q. */
  lemma NegateFirst(s: string, p: string, q: string, pq: string)
    requires p != [] && q != [] && pq == p + q && Contains(s, p)
    ensures |ReplaceAll(s, p, pq)| > |s|
    ensures IsPrefix(s[..FindSub(s, p).value] + pq, ReplaceAll(s, p, pq))
  {
    var k := FindSub(s, p).value;
    ReplaceExtendsLength(s, p, q);
    ReplaceAtFirst(s, p, pq, k);
    var r := ReplaceAll(s, p, pq);
    assert r[..|s[..k] + pq|] == s[..k] + pq;
  }

  /** str.rstrip(c) */
  function RStripChar(s: string, c: char): (r: string)
    ensures |r| <= |s| && r == s[..|r|]
    ensures r == [] || r[|r| - 1] != c
    ensures forall i :: |r| <= i < |s| ==> s[i] == c
  {
    if s != [] && s[|s| - 1] == c then RStripChar(s[..|s| - 1], c) else s
  }

  /** _statement_to_question */
  function StatementToQuestion(statement: string): string {
    var s := Strip(statement);
    if IsPrefix("The ", s) then "What is " + RStripChar(s[4..], '.') + "?"
    else match FindSub(s, " is ")
      case Some(k) => "What is " + s[..k] + "?"
      case None => "Explain: " + s
  }

  /** On the stripped statement s: "The X..." (X not ending in a dot) becomes
      "What is X?"; otherwise, when s is "A is ..." with no " is " inside A, it becomes
      "What is A?"; anything else becomes "Explain: s". */
  lemma StatementToQuestionCases(statement: string)
    ensures var s := Strip(statement);
      var r := StatementToQuestion(statement);
      if IsPrefix("The ", s) then
        && |r| >= 9 && IsPrefix("What is ", r) && r[|r| - 1] == '?'
        && var x := r[8..|r| - 1];
        && IsPrefix("The " + x, s)
        && (forall i :: 4 + |x| <= i < |s| ==> s[i] == '.')
        && (x == [] || x[|x| - 1] != '.')
      else if Contains(s, " is ") then
        && |r| >= 9 && IsPrefix("What is ", r) && r[|r| - 1] == '?'
        && var x := r[8..|r| - 1];
        && IsPrefix(x + " is ", s)
        && !Contains(x, " is ")
        && (forall j: nat :: j < |x| ==> !OccursAt(s, " is ", j))
      else
        r == "Explain: " + s
  {
    var s := Strip(statement);
    var r := StatementToQuestion(statement);
    if IsPrefix("The ", s) {
      var x := RStripChar(s[4..], '.');
      assert r == "What is " + x + "?";
      assert r[8..|r| - 1] == x;
      assert ("The " + x) == s[..4 + |x|];
    } else if Contains(s, " is ") {
      var k := FindSub(s, " is ").value;
      var x := s[..k];
      assert r == "What is " + x + "?";
      assert r[8..|r| - 1] == x;
      assert s[..k + 4] == x + " is ";
      PrefixAvoids(s, " is ", k);
    }
  }

  // ---------------------------------------------------------------------------
  // distractors

  /** The stock distractor at position i: "Alternative definition {i + 1}". */
  function GenericDistractor(i: nat): string {
    "Alternative definition " + NatToString(i + 1)
  }

  /** d is the words of some reordering of words, joined by single spaces. */
  ghost predicate IsShuffledJoin(d: string, words: seq<string>) {
    exists w: seq<string> :: multiset(w) == multiset(words) && d == Join(w, " ")
  }

  /** What _generate_distractors may put at position i for this answer: a reordering
      of its words when it has more than three, the stock distractor otherwise. */
  ghost predicate IsDistractor(answer: string, i: nat, d: string) {
    var words := SplitWs(answer);
    if |words| > 3 then IsShuffledJoin(d, words) else d == GenericDistractor(i)
  }

  /** A shuffled distractor splits back into exactly the answer's words, reordered. */
  lemma ShuffledDistractorWords(answer: string, d: string)
    requires IsShuffledJoin(d, SplitWs(answer))
    ensures multiset(SplitWs(d)) == multiset(SplitWs(answer))
  {
    var words := SplitWs(answer);
    var w: seq<string> :| multiset(w) == multiset(words) && d == Join(w, " ");
    forall i | 0 <= i < |w| ensures IsWord(w[i]) {
      assert w[i] in multiset(w);
      assert w[i] in words;
    }
    SplitJoinRoundTrip(w);
  }

  /** The stock distractors of different positions differ. */
  lemma GenericDistractorsDistinct(i: nat, j: nat)
    requires i != j
    ensures GenericDistractor(i) != GenericDistractor(j)
  {
    var prefix := "Alternative definition ";
    if GenericDistractor(i) == GenericDistractor(j) {
      assert GenericDistractor(i)[|prefix|..] == NatToString(i + 1);
      assert GenericDistractor(j)[|prefix|..] == NatToString(j + 1);
      NatToStringInjective(i + 1, j + 1);
    }
  }

  // ---------------------------------------------------------------------------
  // question records

  const TrueFalseOptions: seq<string> := ["True", "False"]

  /** An MCQ asking for a definition's term (1 mark). */
  function DefinitionMcq(d: Definition, options: seq<string>): Question {
    Question("What is " + d.term + "?", MCQ, d.definition,
             "Based on the definition: " + d.sentence, 2, options, None)
  }

  /** An MCQ blanking out an entity of a fact (1 mark). */
  function EntityMcq(fact: string, entity: string, options: seq<string>): Question {
    Question("Fill in the blank: " + ReplaceAll(fact, entity, "______"), MCQ, entity,
             "From the text: " + fact, 2, options, None)
  }

  /** A true/false question stating the fact as it is (half a mark). */
  function TrueQuestion(fact: string): Question {
    Question("True or False: " + fact, TrueFalse, "True",
             "This statement is directly from the source material.", 1, TrueFalseOptions, None)
  }

  /** A true/false question stating the falsified fact (half a mark). */
  function FalseQuestion(fact: string): Question {
    Question("True or False: " + CreateFalseStatement(fact), TrueFalse, "False",
             "The correct statement is: " + fact, 1, TrueFalseOptions, None)
  }

  /** The three wordings of a short definition question. */
  function ShortTemplates(term: string): seq<string> {
    ["Define " + term + ".", "What is meant by " + term + "?", "Explain the term " + term + "."]
  }

  /** A short-answer question on a definition, worded as text (2 marks). */
  function DefinitionShort(d: Definition, text: string): Question {
    Question(text, ShortAnswer, d.definition, "Expected answer: " + d.definition, 4, [], None)
  }

  /** A short-answer question made from a key sentence (3 marks). */
  function SentenceShort(sentence: string): Question {
    Question(StatementToQuestion(sentence), ShortAnswer, sentence,
             "Expected answer should cover: " + sentence, 6, [], None)
  }

  const LongTemplates: seq<string> :=
    ["Explain in detail", "Discuss", "Describe", "Analyze", "Compare and contrast", "Evaluate"]

  function LongAnswerText(topic: string): string {
    "A comprehensive answer should cover the key aspects of " + topic + " as discussed in the material."
  }

  /** An open question on a topic (5 marks). */
  function LongQuestion(template: string, topic: string): Question {
    Question(template + " " + topic + ".", LongAnswer, LongAnswerText(topic),
             "This is an open-ended question requiring detailed explanation.", 10, [], None)
  }

  /** A fill-in-the-blank question blanking out every occurrence of word (1 mark). */
  function FillBlankQuestion(fact: string, word: string): Question {
    Question("Fill in the blank: " + ReplaceAll(fact, word, "______"), FillBlank, word,
             "Complete sentence: " + fact, 2, [], None)
  }

  /** A programming task made from a sentence (10 marks). */
  function ProgrammingQuestion(sentence: string): Question {
    Question("Write a program to " + Lower(Strip(sentence)), Programming,
             "Implementation should follow standard programming practices.",
             "Evaluate based on correctness, efficiency, and code quality.", 20, [], None)
  }

  /** The options of a multiple-choice question: its answer and three distractors for
      it, in some order. */
  ghost predicate McqOptionsFor(q: Question) {
    exists ds: seq<string> ::
      && |ds| == 3
      && (forall i :: 0 <= i < 3 ==> IsDistractor(q.correctAnswer, i, ds[i]))
      && multiset(q.options) == multiset([q.correctAnswer] + ds)
  }

  /** The shape every generator gives its questions: the marks of its kind, four
      options for an MCQ, True/False for a true/false question, none otherwise. */
  ghost predicate WellFormed(q: Question) {
    match q.qtype
    case MCQ => q.halfMarks == 2 && McqOptionsFor(q)
    case TrueFalse => q.halfMarks == 1 && q.options == TrueFalseOptions && q.correctAnswer in TrueFalseOptions
    case ShortAnswer => (q.halfMarks == 4 || q.halfMarks == 6) && q.options == []
    case LongAnswer => q.halfMarks == 10 && q.options == []
    case FillBlank => q.halfMarks == 2 && q.options == []
    case Programming => q.halfMarks == 20 && q.options == []
  }

  /** A well-formed choice question offers its correct answer among its options: one of
      four for an MCQ, one of two for a true/false question. */
  lemma AnswerAmongOptions(q: Question)
    requires WellFormed(q) && (q.qtype == MCQ || q.qtype == TrueFalse)
    ensures q.correctAnswer in q.options
    ensures |q.options| == if q.qtype == MCQ then 4 else 2
  {
    if q.qtype == MCQ {
      var ds: seq<string> :| |ds| == 3 && multiset(q.options) == multiset([q.correctAnswer] + ds);
      assert q.correctAnswer in multiset([q.correctAnswer] + ds);
      assert |q.options| == |multiset(q.options)| == |[q.correctAnswer] + ds|;
    }
  }

  /** The false variant of a fact never reads like the true one. */
  lemma TrueFalseQuestions(fact: string)
    ensures WellFormed(TrueQuestion(fact)) && WellFormed(FalseQuestion(fact))
    ensures FalseQuestion(fact).text != TrueQuestion(fact).text
    ensures TrueQuestion(fact).correctAnswer == "True" && FalseQuestion(fact).correctAnswer == "False"
  {
    FalseStatementLonger(fact);
    var prefix := "True or False: ";
    assert |FalseQuestion(fact).text| == |prefix| + |CreateFalseStatement(fact)|;
  }

  /** Open questions on different topics expect different answers. */
  lemma LongAnswerInjective(t: string, u: string)
    ensures LongAnswerText(t) == LongAnswerText(u) <==> t == u
  {
    var prefix := "A comprehensive answer should cover the key aspects of ";
    var a, b := LongAnswerText(t), LongAnswerText(u);
    if a == b {
      assert |t| == |u|;
      assert a[|prefix|..|prefix| + |t|] == t;
      assert b[|prefix|..|prefix| + |u|] == u;
    }
  }

  // ---------------------------------------------------------------------------
  // generators

  /** _generate_distractors */
  method GenerateDistractors(rng: Random, answer: string, count: nat) returns (ds: seq<string>)
    modifies rng
    ensures |ds| == count
    ensures forall i :: 0 <= i < count ==> IsDistractor(answer, i, ds[i])
  {
    ds := [];
    var words := SplitWs(answer);
    for i := 0 to count
      invariant |ds| == i
      invariant forall k :: 0 <= k < i ==> IsDistractor(answer, k, ds[k])
    {
      if |words| > 3 {
        var shuffled := rng.Shuffle(words);
        assert IsShuffledJoin(Join(shuffled, " "), words);
        ds := ds + [Join(shuffled, " ")];
      } else {
        ds := ds + [GenericDistractor(i)];
      }
    }
  }

  /** One MCQ: the answer and three distractors, shuffled into options A to D. */
  method MakeMcq(rng: Random, text: string, answer: string, explanation: string) returns (q: Question)
    modifies rng
    ensures q == Question(text, MCQ, answer, explanation, 2, q.options, None)
    ensures McqOptionsFor(q)
  {
    var distractors := GenerateDistractors(rng, answer, 3);
    var options := rng.Shuffle([answer] + distractors);
    q := Question(text, MCQ, answer, explanation, 2, options, None);
    assert multiset(q.options) == multiset([q.correctAnswer] + distractors);
  }

  /** The facts spaCy finds an entity in, in order. */
  function EntityFacts(nlp: Parser, facts: seq<string>): (r: seq<string>)
    ensures |r| <= |facts|
    ensures forall i :: 0 <= i < |r| ==> nlp(r[i]).ents != []
  {
    if facts == [] then []
    else
      var last := facts[|facts| - 1];
      EntityFacts(nlp, facts[..|facts| - 1]) + (if nlp(last).ents != [] then [last] else [])
  }

  /** The text of the first entity spaCy finds in a fact. */
  function FirstEntityText(nlp: Parser, fact: string): string
    requires nlp(fact).ents != []
  {
    nlp(fact).ents[0].text
  }

  /** q asks for the definition's term, with the definition among its options. */
  ghost predicate IsDefinitionMcqOn(d: Definition, q: Question) {
    q == DefinitionMcq(d, q.options) && McqOptionsFor(q)
  }

  /** q blanks out the first entity of fact, with that entity among its options. */
  ghost predicate IsEntityMcqOn(nlp: Parser, fact: string, q: Question) {
    nlp(fact).ents != [] && q == EntityMcq(fact, FirstEntityText(nlp, fact), q.options) && McqOptionsFor(q)
  }

  /** What _generate_mcq returns for count: a definition question for each of the first
      m = min(count, #definitions) definitions, then, for the facts among the next
      count - m that have an entity, a question blanking out the first entity. */
  ghost predicate McqBatch(nlp: Parser, definitions: seq<Definition>, facts: seq<string>, count: nat,
                           qs: seq<Question>) {
    var m := Min(count, |definitions|);
    var blanked := EntityFacts(nlp, Take(facts, count - m));
    && |qs| == m + |blanked| <= count
    && DefinitionMcqsOn(definitions, qs[..m])
    && EntityMcqsOn(nlp, blanked, qs[m..])
  }

  /** Question i asks for the term of definition i. */
  ghost predicate DefinitionMcqsOn(definitions: seq<Definition>, qs: seq<Question>) {
    |qs| <= |definitions| && forall i {:trigger qs[i]} :: 0 <= i < |qs| ==> IsDefinitionMcqOn(definitions[i], qs[i])
  }

  /** Question i blanks out the first entity of fact i, one question per fact. */
  ghost predicate EntityMcqsOn(nlp: Parser, facts: seq<string>, qs: seq<Question>) {
    |qs| == |facts| && forall i {:trigger qs[i]} :: 0 <= i < |qs| ==> IsEntityMcqOn(nlp, facts[i], qs[i])
  }

  /** _generate_mcq */
  method GenerateMcq(rng: Random, nlp: Parser, definitions: seq<Definition>, facts: seq<string>, count: nat)
    returns (qs: seq<Question>)
    modifies rng
    ensures McqBatch(nlp, definitions, facts, count, qs)
  {
    var fromDefinitions := DefinitionMcqs(rng, definitions, count);
    var rest := Take(facts, count - |fromDefinitions|);
    var fromFacts := EntityMcqs(rng, nlp, rest);
    JoinMcqs(nlp, definitions, facts, count, fromDefinitions, fromFacts);
    qs := fromDefinitions + fromFacts;
  }

  /** The definition MCQs followed by the entity MCQs. */
  lemma JoinMcqs(nlp: Parser, definitions: seq<Definition>, facts: seq<string>, count: nat,
                 a: seq<Question>, b: seq<Question>)
    requires |a| == Min(count, |definitions|) && DefinitionMcqsOn(definitions, a)
    requires EntityMcqsOn(nlp, EntityFacts(nlp, Take(facts, count - |a|)), b)
    ensures McqBatch(nlp, definitions, facts, count, a + b)
  {
    assert (a + b)[..|a|] == a;
    assert (a + b)[|a|..] == b;
    assert |b| <= |Take(facts, count - |a|)| <= count - |a|;
  }

  /** Every MCQ _generate_mcq makes is a well-formed 1-mark MCQ without a difficulty. */
  lemma McqBatchIsNew(nlp: Parser, definitions: seq<Definition>, facts: seq<string>, count: nat, qs: seq<Question>)
    requires McqBatch(nlp, definitions, facts, count, qs)
    ensures forall i {:trigger qs[i]} :: 0 <= i < |qs| ==> IsNewOfType(qs[i], MCQ)
  {
    var m := Min(count, |definitions|);
    DefinitionMcqsAreNew(definitions, qs[..m]);
    EntityMcqsAreNew(nlp, EntityFacts(nlp, Take(facts, count - m)), qs[m..]);
    AllNewSplit(qs, m, MCQ);
  }

  lemma DefinitionMcqsAreNew(definitions: seq<Definition>, qs: seq<Question>)
    requires DefinitionMcqsOn(definitions, qs)
    ensures forall i {:trigger qs[i]} :: 0 <= i < |qs| ==> IsNewOfType(qs[i], MCQ)
  {
    forall i | 0 <= i < |qs| ensures IsNewOfType(qs[i], MCQ) {
      assert IsDefinitionMcqOn(definitions[i], qs[i]);
    }
  }

  lemma EntityMcqsAreNew(nlp: Parser, facts: seq<string>, qs: seq<Question>)
    requires EntityMcqsOn(nlp, facts, qs)
    ensures forall i {:trigger qs[i]} :: 0 <= i < |qs| ==> IsNewOfType(qs[i], MCQ)
  {
    forall i | 0 <= i < |qs| ensures IsNewOfType(qs[i], MCQ) {
      assert IsEntityMcqOn(nlp, facts[i], qs[i]);
    }
  }

  lemma AllNewSplit(qs: seq<Question>, m: nat, t: QuestionType)
    requires m <= |qs|
    requires forall i {:trigger qs[..m][i]} :: 0 <= i < m ==> IsNewOfType(qs[..m][i], t)
    requires forall i {:trigger qs[m..][i]} :: 0 <= i < |qs| - m ==> IsNewOfType(qs[m..][i], t)
    ensures forall i {:trigger qs[i]} :: 0 <= i < |qs| ==> IsNewOfType(qs[i], t)
  {
    forall i | 0 <= i < |qs| ensures IsNewOfType(qs[i], t) {
      if i < m {
        assert qs[..m][i] == qs[i];
      } else {
        assert qs[m..][i - m] == qs[i];
      }
    }
  }

  /** The first loop of _generate_mcq. */
  method DefinitionMcqs(rng: Random, definitions: seq<Definition>, count: nat) returns (qs: seq<Question>)
    modifies rng
    ensures |qs| == Min(count, |definitions|)
    ensures DefinitionMcqsOn(definitions, qs)
  {
    qs := [];
    var defs := Take(definitions, count);
    var i := 0;
    while i < |defs|
      invariant i <= |defs| <= count && |qs| == i
      invariant forall k {:trigger qs[k]} :: 0 <= k < i ==> IsDefinitionMcqOn(definitions[k], qs[k])
    {
      assert defs[i] == definitions[i];
      var q := DefinitionMcqFor(rng, defs[i]);
      qs := qs + [q];
      i := i + 1;
      if |qs| >= count {
        assert i == |defs|;
        break;
      }
    }
  }

  /** One step of that loop: an MCQ asking for the definition's term. */
  method DefinitionMcqFor(rng: Random, d: Definition) returns (q: Question)
    modifies rng
    ensures IsDefinitionMcqOn(d, q)
  {
    q := MakeMcq(rng, "What is " + d.term + "?", d.definition, "Based on the definition: " + d.sentence);
  }

  lemma EntityFactsStep(nlp: Parser, facts: seq<string>, j: nat)
    requires j < |facts|
    ensures EntityFacts(nlp, facts[..j + 1])
         == EntityFacts(nlp, facts[..j]) + (if nlp(facts[j]).ents != [] then [facts[j]] else [])
  {
    assert facts[..j + 1][..j] == facts[..j];
  }

  /** The second loop of _generate_mcq, over the facts it considers. */
  method EntityMcqs(rng: Random, nlp: Parser, facts: seq<string>) returns (qs: seq<Question>)
    modifies rng
    ensures EntityMcqsOn(nlp, EntityFacts(nlp, facts), qs)
  {
    qs := [];
    for j := 0 to |facts|
      invariant EntityMcqsOn(nlp, EntityFacts(nlp, facts[..j]), qs)
    {
      qs := EntityMcqStep(rng, nlp, facts, j, qs);
    }
    assert facts[..|facts|] == facts;
  }

  /** One iteration of the second loop of _generate_mcq. */
  method EntityMcqStep(rng: Random, nlp: Parser, facts: seq<string>, j: nat, qs: seq<Question>)
    returns (qs': seq<Question>)
    requires j < |facts| && EntityMcqsOn(nlp, EntityFacts(nlp, facts[..j]), qs)
    modifies rng
    ensures EntityMcqsOn(nlp, EntityFacts(nlp, facts[..j + 1]), qs')
  {
    var fact := facts[j];
    var q := EntityMcqFor(rng, nlp, fact);
    EntityFactsStep(nlp, facts, j);
    if q.Some? {
      qs' := qs + [q.value];
    } else {
      qs' := qs;
    }
  }

  /** One step of that loop: an MCQ blanking out the first entity of the fact, if it
      has one. */
  method EntityMcqFor(rng: Random, nlp: Parser, fact: string) returns (q: Option<Question>)
    modifies rng
    ensures q.Some? <==> nlp(fact).ents != []
    ensures q.Some? ==> IsEntityMcqOn(nlp, fact, q.value)
  {
    var doc := nlp(fact);
    if doc.ents != [] {
      var entity := doc.ents[0];
      var mcq := MakeMcq(rng, "Fill in the blank: " + ReplaceAll(fact, entity.text, "______"),
                         entity.text, "From the text: " + fact);
      q := Some(mcq);
    } else {
      q := None;
    }
  }

  /** _generate_true_false: one question per fact among the first count, stating the
      fact or its falsified form on a coin flip. */
  method GenerateTrueFalse(rng: Random, facts: seq<string>, count: nat) returns (qs: seq<Question>)
    modifies rng
    ensures |qs| == Min(count, |facts|)
    ensures forall i {:trigger qs[i]} :: 0 <= i < |qs| ==> IsTrueFalseOn(qs[i], facts[i])
  {
    qs := [];
    var chosen := Take(facts, count);
    var i := 0;
    while i < |chosen|
      invariant i <= |chosen| <= count && |qs| == i
      invariant forall k {:trigger qs[k]} :: 0 <= k < i ==> IsTrueFalseOn(qs[k], facts[k])
    {
      assert chosen[i] == facts[i];
      var q := TrueFalseOn(rng, chosen[i]);
      qs := qs + [q];
      i := i + 1;
      if |qs| >= count {
        assert i == |chosen|;
        break;
      }
    }
  }

  /** One true/false question on fact: a coin flip picks the true or the falsified
      wording. */
  method TrueFalseOn(rng: Random, fact: string) returns (q: Question)
    modifies rng
    ensures IsTrueFalseOn(q, fact)
  {
    var heads := rng.Coin();
    if heads {
      q := TrueQuestion(fact);
    } else {
      q := FalseQuestion(fact);
    }
  }

  /** q states fact, or its falsified form. */
  predicate IsTrueFalseOn(q: Question, fact: string) {
    q == TrueQuestion(fact) || q == FalseQuestion(fact)
  }

  /** _generate_short_answer: a question in one of three wordings for each of the first
      count definitions, then one per key sentence among the next count - m. */
  method GenerateShortAnswer(rng: Random, definitions: seq<Definition>, sentences: seq<string>, count: nat)
    returns (qs: seq<Question>)
    modifies rng
    ensures |qs| == Min(count, |definitions|) + |Take(sentences, count - Min(count, |definitions|))| <= count
    ensures forall i :: 0 <= i < Min(count, |definitions|) ==> IsDefinitionShortOn(qs[i], definitions[i])
    ensures forall k {:trigger qs[k]} :: Min(count, |definitions|) <= k < |qs| ==>
              IsSentenceShortOn(qs[k], sentences[k - Min(count, |definitions|)])
  {
    var fromDefinitions := DefinitionShorts(rng, definitions, count);
    var m := |fromDefinitions|;
    var asked := Take(sentences, count - m);
    var fromSentences := SentenceShorts(asked);
    qs := fromDefinitions + fromSentences;
    assert asked == sentences[..|asked|];
    forall i | 0 <= i < m ensures IsDefinitionShortOn(qs[i], definitions[i]) {
      assert qs[i] == fromDefinitions[i];
    }
    forall k | m <= k < |qs| ensures IsSentenceShortOn(qs[k], sentences[k - m]) {
      var j := k - m;
      assert j < |asked| && qs[k] == fromSentences[j];
      assert asked[j] == sentences[j];
    }
  }

  /** q asks for the definition d gives, in one of the stock wordings. */
  predicate IsDefinitionShortOn(q: Question, d: Definition) {
    q.text in ShortTemplates(d.term) && q == DefinitionShort(d, q.text)
  }

  /** q asks about a key sentence, as the sentence-to-question rewrite words it. */
  predicate IsSentenceShortOn(q: Question, sentence: string) {
    q == SentenceShort(sentence)
  }

  /** The first loop of _generate_short_answer. */
  method DefinitionShorts(rng: Random, definitions: seq<Definition>, count: nat) returns (qs: seq<Question>)
    modifies rng
    ensures |qs| == Min(count, |definitions|)
    ensures forall i :: 0 <= i < |qs| ==> IsDefinitionShortOn(qs[i], definitions[i])
  {
    qs := [];
    var defs := Take(definitions, count);
    var i := 0;
    while i < |defs|
      invariant i <= |defs| <= count && |qs| == i
      invariant forall k :: 0 <= k < i ==> IsDefinitionShortOn(qs[k], defs[k])
    {
      var d := defs[i];
      var text := rng.Choice(ShortTemplates(d.term));
      qs := qs + [DefinitionShort(d, text)];
      i := i + 1;
      if |qs| >= count {
        assert i == |defs|;
        break;
      }
    }
  }

  /** The second loop of _generate_short_answer, over the sentences it considers. */
  method SentenceShorts(asked: seq<string>) returns (qs: seq<Question>)
    ensures |qs| == |asked|
    ensures forall j {:trigger qs[j]} :: 0 <= j < |qs| ==> IsSentenceShortOn(qs[j], asked[j])
  {
    qs := [];
    for j := 0 to |asked|
      invariant |qs| == j
      invariant forall t :: 0 <= t < j ==> IsSentenceShortOn(qs[t], asked[t])
    {
      qs := qs + [SentenceShort(asked[j])];
    }
  }

  /** A noun chunk of at least two words. */
  predicate IsTopicChunk(chunk: string) {
    |SplitWs(chunk)| >= 2
  }

  /** The noun chunks of at least two words of each sentence, in order, duplicates kept. */
  function LongTopics(nlp: Parser, sentences: seq<string>): seq<string> {
    if sentences == [] then []
    else LongTopics(nlp, sentences[..|sentences| - 1])
         + Filter(nlp(sentences[|sentences| - 1]).nounChunks, IsTopicChunk)
  }

  lemma {:induction false} LongTopicsQualify(nlp: Parser, sentences: seq<string>)
    ensures forall t :: t in LongTopics(nlp, sentences) ==>
              IsTopicChunk(t) && exists s :: s in sentences && t in nlp(s).nounChunks
  {
    if sentences != [] {
      var init := sentences[..|sentences| - 1];
      LongTopicsQualify(nlp, init);
      assert forall s :: s in init ==> s in sentences;
    }
  }

  /** q is an open question on topic, in one of the stock wordings. */
  ghost predicate IsLongQuestionOn(q: Question, topic: string) {
    exists template :: template in LongTemplates && q == LongQuestion(template, topic)
  }

  /** q is an open question on one of the topics. */
  ghost predicate IsLongQuestionAmong(q: Question, topics: seq<string>) {
    exists topic :: topic in topics && IsLongQuestionOn(q, topic)
  }

  /** The topic-collecting loops of _generate_long_answer. */
  method CollectTopics(nlp: Parser, sentences: seq<string>) returns (topics: seq<string>)
    ensures topics == LongTopics(nlp, sentences)
  {
    topics := [];
    for i := 0 to |sentences|
      invariant topics == LongTopics(nlp, sentences[..i])
    {
      var found := TopicChunks(nlp(sentences[i]).nounChunks);
      LongTopicsStep(nlp, sentences, i);
      topics := topics + found;
    }
    assert sentences[..|sentences|] == sentences;
  }

  lemma LongTopicsStep(nlp: Parser, sentences: seq<string>, i: nat)
    requires i < |sentences|
    ensures LongTopics(nlp, sentences[..i + 1])
         == LongTopics(nlp, sentences[..i]) + Filter(nlp(sentences[i]).nounChunks, IsTopicChunk)
  {
    assert sentences[..i + 1][..i] == sentences[..i];
  }

  /** The inner loop of the topic collection: the chunks of at least two words. */
  method TopicChunks(chunks: seq<string>) returns (found: seq<string>)
    ensures found == Filter(chunks, IsTopicChunk)
  {
    found := [];
    for j := 0 to |chunks|
      invariant found == Filter(chunks[..j], IsTopicChunk)
    {
      FilterStep(chunks, j, IsTopicChunk);
      if |SplitWs(chunks[j])| >= 2 {
        found := found + [chunks[j]];
      }
    }
    assert chunks[..|chunks|] == chunks;
  }

  /** _generate_long_answer: one question per distinct topic, at most count of them. */
  method GenerateLongAnswer(rng: Random, nlp: Parser, sentences: seq<string>, count: nat)
    returns (qs: seq<Question>)
    modifies rng
    ensures |qs| == Min(count, |set t | t in LongTopics(nlp, sentences)|)
    ensures forall i :: 0 <= i < |qs| ==> IsLongQuestionAmong(qs[i], LongTopics(nlp, sentences))
    ensures forall i, j :: 0 <= i < j < |qs| ==> qs[i].correctAnswer != qs[j].correctAnswer
  {
    var topics := CollectTopics(nlp, sentences);
    var unique := SetToList(topics);
    var chosen := Take(unique, count);
    DistinctTopics(unique, topics, count);
    qs := LongQuestions(rng, chosen, count);
    LongQuestionsOnTopics(qs, chosen, topics);
  }

  /** The first count of the deduplicated topics: as many as there are distinct topics
      (at most count), all different, all topics. */
  lemma DistinctTopics(unique: seq<string>, topics: seq<string>, count: nat)
    requires NoDuplicates(unique)
    requires forall x :: x in unique <==> x in topics
    ensures |Take(unique, count)| == Min(count, |set t | t in topics|)
    ensures NoDuplicates(Take(unique, count))
    ensures forall x :: x in Take(unique, count) ==> x in topics
  {
    NoDuplicatesCardinality(unique);
    assert (set t | t in unique) == (set t | t in topics);
    var chosen := Take(unique, count);
    forall i, j | 0 <= i < j < |chosen| ensures chosen[i] != chosen[j] {
      assert chosen[i] == unique[i] && chosen[j] == unique[j];
    }
  }

  /** Questions on distinct topics, one per topic, have distinct model answers. */
  lemma LongQuestionsOnTopics(qs: seq<Question>, chosen: seq<string>, topics: seq<string>)
    requires |qs| == |chosen| && NoDuplicates(chosen)
    requires forall x :: x in chosen ==> x in topics
    requires forall t {:trigger qs[t]} :: 0 <= t < |qs| ==> IsLongQuestionOn(qs[t], chosen[t])
    ensures forall i :: 0 <= i < |qs| ==> IsLongQuestionAmong(qs[i], topics)
    ensures forall i, j :: 0 <= i < j < |qs| ==> qs[i].correctAnswer != qs[j].correctAnswer
  {
    forall i | 0 <= i < |qs| ensures IsLongQuestionAmong(qs[i], topics) {
      assert chosen[i] in chosen;
      assert chosen[i] in topics && IsLongQuestionOn(qs[i], chosen[i]);
    }
    forall i, j | 0 <= i < j < |qs| ensures qs[i].correctAnswer != qs[j].correctAnswer {
      LongQuestionAnswer(qs[i], chosen[i]);
      LongQuestionAnswer(qs[j], chosen[j]);
      LongAnswerInjective(chosen[i], chosen[j]);
    }
  }

  /** A question on a topic has that topic's model answer. */
  lemma LongQuestionAnswer(q: Question, topic: string)
    requires IsLongQuestionOn(q, topic)
    ensures q.correctAnswer == LongAnswerText(topic)
  {
  }

  /** The question loop of _generate_long_answer, over the topics it keeps. */
  method LongQuestions(rng: Random, chosen: seq<string>, count: nat) returns (qs: seq<Question>)
    requires |chosen| <= count
    modifies rng
    ensures |qs| == |chosen|
    ensures forall t {:trigger qs[t]} :: 0 <= t < |qs| ==> IsLongQuestionOn(qs[t], chosen[t])
  {
    qs := [];
    var k := 0;
    while k < |chosen|
      invariant k <= |chosen| && |qs| == k
      invariant forall t {:trigger qs[t]} :: 0 <= t < k ==> IsLongQuestionOn(qs[t], chosen[t])
    {
      var template := rng.Choice(LongTemplates);
      qs := qs + [LongQuestion(template, chosen[k])];
      k := k + 1;
      if |qs| >= count {
        assert k == |chosen|;
        break;
      }
    }
  }

  /** A NOUN, PROPN or NUM token that is not a stop word. */
  predicate IsBlankable(t: Token) {
    (t.pos == "NOUN" || t.pos == "PROPN" || t.pos == "NUM") && !t.isStop
  }

  /** The blankable tokens of a fact, in order. */
  function Blankables(nlp: Parser, fact: string): seq<Token> {
    Filter(nlp(fact).tokens, IsBlankable)
  }

  /** The facts with a blankable token, in order. */
  function BlankableFacts(nlp: Parser, facts: seq<string>): (r: seq<string>)
    ensures |r| <= |facts|
  {
    if facts == [] then []
    else
      var last := facts[|facts| - 1];
      BlankableFacts(nlp, facts[..|facts| - 1]) + (if Blankables(nlp, last) != [] then [last] else [])
  }

  lemma BlankableStep(nlp: Parser, facts: seq<string>, i: nat)
    requires i < |facts|
    ensures BlankableFacts(nlp, facts[..i + 1])
         == BlankableFacts(nlp, facts[..i]) + (if Blankables(nlp, facts[i]) != [] then [facts[i]] else [])
  {
    assert facts[..i + 1][..i] == facts[..i];
  }

  /** q blanks out one of the blankable tokens of fact. */
  ghost predicate IsFillBlankFor(nlp: Parser, fact: string, q: Question) {
    exists t :: t in Blankables(nlp, fact) && q == FillBlankQuestion(fact, t.text)
  }

  /** _generate_fill_blank: for each fact among the first count that has a blankable
      token, a question blanking out one of them. */
  method GenerateFillBlank(rng: Random, nlp: Parser, facts: seq<string>, count: nat) returns (qs: seq<Question>)
    modifies rng
    ensures |qs| == |BlankableFacts(nlp, Take(facts, count))| <= count
    ensures forall j :: 0 <= j < |qs| ==> IsFillBlankFor(nlp, BlankableFacts(nlp, Take(facts, count))[j], qs[j])
  {
    qs := FillBlanks(rng, nlp, Take(facts, count), count);
  }

  /** The loop of _generate_fill_blank over the facts it considers. */
  method FillBlanks(rng: Random, nlp: Parser, chosen: seq<string>, count: nat) returns (qs: seq<Question>)
    requires |chosen| <= count
    modifies rng
    ensures |qs| == |BlankableFacts(nlp, chosen)|
    ensures forall j :: 0 <= j < |qs| ==> IsFillBlankFor(nlp, BlankableFacts(nlp, chosen)[j], qs[j])
  {
    qs := [];
    var i := 0;
    while i < |chosen|
      invariant i <= |chosen|
      invariant FillBlanksSoFar(nlp, chosen[..i], qs)
    {
      qs := FillBlankStep(rng, nlp, chosen, i, qs);
      i := i + 1;
      if |qs| >= count {
        assert i == |chosen|;
        break;
      }
    }
    assert chosen[..i] == chosen;
  }

  /** What the loop of _generate_fill_blank has built after considering facts: one
      question per fact with a blankable token. */
  ghost predicate FillBlanksSoFar(nlp: Parser, facts: seq<string>, qs: seq<Question>) {
    var blankable := BlankableFacts(nlp, facts);
    && |qs| == |blankable| <= |facts|
    && forall j {:trigger qs[j]} :: 0 <= j < |qs| ==> IsFillBlankFor(nlp, blankable[j], qs[j])
  }

  /** One iteration of the loop of _generate_fill_blank. */
  method FillBlankStep(rng: Random, nlp: Parser, chosen: seq<string>, i: nat, qs: seq<Question>)
    returns (qs': seq<Question>)
    requires i < |chosen| && FillBlanksSoFar(nlp, chosen[..i], qs)
    modifies rng
    ensures FillBlanksSoFar(nlp, chosen[..i + 1], qs')
  {
    var blanked := BlankOut(rng, nlp, chosen[i]);
    BlankableStep(nlp, chosen, i);
    if blanked.Some? {
      qs' := qs + [blanked.value];
    } else {
      qs' := qs;
    }
  }

  /** One step of _generate_fill_blank: a question blanking out a randomly chosen
      blankable token of the fact, if it has one. */
  method BlankOut(rng: Random, nlp: Parser, fact: string) returns (q: Option<Question>)
    modifies rng
    ensures q.Some? <==> Blankables(nlp, fact) != []
    ensures q.Some? ==> IsFillBlankFor(nlp, fact, q.value)
  {
    var important := Blankables(nlp, fact);
    if important != [] {
      var token := rng.Choice(important);
      q := Some(FillBlankQuestion(fact, token.text));
    } else {
      q := None;
    }
  }

  const CodeKeywords: seq<string> :=
    ["algorithm", "function", "program", "code", "implement", "write", "develop", "class", "method"]

  /** Some code keyword occurs in the lowercased sentence. */
  predicate MentionsCode(s: string) {
    exists k :: 0 <= k < |CodeKeywords| && Contains(Lower(s), CodeKeywords[k])
  }

  /** The '.'-separated pieces of the text that mention code, in order. */
  function CodeSentences(text: string): seq<string> {
    Filter(SplitOn(text, '.'), MentionsCode)
  }

  /** _generate_programming: a task per code sentence, at most count. */
  method GenerateProgramming(text: string, count: nat) returns (qs: seq<Question>)
    ensures |qs| == Min(count, |CodeSentences(text)|)
    ensures forall i :: 0 <= i < |qs| ==> qs[i] == ProgrammingQuestion(CodeSentences(text)[i])
  {
    var sentences := SplitOn(text, '.');
    var codeSentences := Filter(sentences, MentionsCode);
    qs := ProgrammingTasks(Take(codeSentences, count), count);
  }

  /** The loop of _generate_programming over the code sentences it considers. */
  method ProgrammingTasks(chosen: seq<string>, count: nat) returns (qs: seq<Question>)
    requires |chosen| <= count
    ensures |qs| == |chosen|
    ensures forall i :: 0 <= i < |qs| ==> qs[i] == ProgrammingQuestion(chosen[i])
  {
    qs := [];
    var i := 0;
    while i < |chosen|
      invariant i <= |chosen| && |qs| == i
      invariant forall k :: 0 <= k < i ==> qs[k] == ProgrammingQuestion(chosen[k])
    {
      qs := qs + [ProgrammingQuestion(chosen[i])];
      i := i + 1;
      if |qs| >= count {
        assert i == |chosen|;
        break;
      }
    }
  }

  // ---------------------------------------------------------------------------
  // difficulties

  /** qs carries, question by question, a shuffle of the label list for its length
      under mix. */
  ghost predicate StampedWith(qs: seq<Question>, mix: DifficultyMix) {
    exists labels: seq<DifficultyLevel> ::
      multiset(labels) == multiset(Labels(LevelCountsOf(|qs|, mix))) && qs == Stamp(qs, labels)
  }

  /** _assign_difficulties: shuffles the label list and gives question i label i. */
  method AssignDifficulties(rng: Random, qs: seq<Question>, mix: DifficultyMix) returns (r: seq<Question>)
    modifies rng
    ensures |r| == |qs|
    ensures forall i :: 0 <= i < |qs| ==> r[i].(difficulty := qs[i].difficulty) == qs[i]
    ensures StampedWith(r, mix)
  {
    var difficulties := rng.Shuffle(Labels(LevelCountsOf(|qs|, mix)));
    LabelsCoverAll(|qs|, mix);
    r := qs;
    // There is a label for every question, so the MEDIUM fallback never applies.
    for i := 0 to |r|
      invariant |r| == |qs|
      invariant forall k :: 0 <= k < i ==> r[k] == Stamp(qs, difficulties)[k]
      invariant forall k :: i <= k < |r| ==> r[k] == qs[k]
    {
      r := r[i := r[i].(difficulty := Some(difficulties[i]))];
    }
    assert r == Stamp(qs, difficulties);
    assert r == Stamp(r, difficulties);
  }

  /** Whatever the mix, the label list has a label for every question: a count that
      is cut to zero only lengthens it, and hard makes up the rest. */
  lemma LabelsCoverAll(total: nat, mix: DifficultyMix)
    ensures |Labels(LevelCountsOf(total, mix))| >= total
  {
    var c := LevelCountsOf(total, mix);
    assert c.easy + c.medium + c.hard == total;
    assert |Labels(c)| == Max0(c.easy) + Max0(c.medium) + Max0(c.hard);
  }

  /** Under a proper mix, stamped questions hold exactly the label counts for their
      number: easy and medium their truncated shares, hard the rest, none unlabelled. */
  lemma StampedWithCounts(qs: seq<Question>, mix: DifficultyMix)
    requires StampedWith(qs, mix)
    requires 0.0 <= Share(mix, Easy) && 0.0 <= Share(mix, Medium)
    requires Share(mix, Easy) + Share(mix, Medium) <= 1.0
    ensures multiset(Levels(qs))[Some(Easy)] == LevelCountsOf(|qs|, mix).easy
    ensures multiset(Levels(qs))[Some(Medium)] == LevelCountsOf(|qs|, mix).medium
    ensures multiset(Levels(qs))[Some(Hard)] == LevelCountsOf(|qs|, mix).hard
    ensures multiset(Levels(qs))[None] == 0
  {
    var labels: seq<DifficultyLevel> :|
      multiset(labels) == multiset(Labels(LevelCountsOf(|qs|, mix))) && qs == Stamp(qs, labels);
    StampedCounts(qs, mix, labels);
  }

  // ---------------------------------------------------------------------------
  // generate_questions

  /** A question as a generator hands it over: well formed, of type t, no difficulty. */
  ghost predicate IsNewOfType(q: Question, t: QuestionType) {
    WellFormed(q) && q.difficulty == None && q.qtype == t
  }

  /** What the generator of type t makes of the content when asked for count questions:
      the contract of generate_mcq, generate_true_false, generate_short_answer,
      generate_long_answer, generate_fill_blank or generate_programming. */
  ghost predicate BatchFor(nlp: Parser, t: QuestionType, text: string, definitions: seq<Definition>,
                           facts: seq<string>, keySentences: seq<string>, count: nat, qs: seq<Question>) {
    match t
    case MCQ => McqBatch(nlp, definitions, facts, count, qs)
    case TrueFalse =>
      && |qs| == Min(count, |facts|)
      && forall i {:trigger qs[i]} :: 0 <= i < |qs| ==> IsTrueFalseOn(qs[i], facts[i])
    case ShortAnswer =>
      var m := Min(count, |definitions|);
      && |qs| == m + |Take(keySentences, count - m)|
      && (forall i :: 0 <= i < m ==> IsDefinitionShortOn(qs[i], definitions[i]))
      && (forall k {:trigger qs[k]} :: m <= k < |qs| ==> IsSentenceShortOn(qs[k], keySentences[k - m]))
    case LongAnswer =>
      && |qs| == Min(count, |set s | s in LongTopics(nlp, keySentences)|)
      && (forall i :: 0 <= i < |qs| ==> IsLongQuestionAmong(qs[i], LongTopics(nlp, keySentences)))
      && (forall i, j :: 0 <= i < j < |qs| ==> qs[i].correctAnswer != qs[j].correctAnswer)
    case FillBlank =>
      var blankable := BlankableFacts(nlp, Take(facts, count));
      && |qs| == |blankable| <= count
      && forall j :: 0 <= j < |qs| ==> IsFillBlankFor(nlp, blankable[j], qs[j])
    case Programming =>
      && |qs| == Min(count, |CodeSentences(text)|)
      && forall i :: 0 <= i < |qs| ==> qs[i] == ProgrammingQuestion(CodeSentences(text)[i])
  }

  /** Every generator stays within its count and makes well-formed questions of its own
      type without a difficulty. */
  lemma BatchForIsNew(nlp: Parser, t: QuestionType, text: string, definitions: seq<Definition>,
                      facts: seq<string>, keySentences: seq<string>, count: nat, qs: seq<Question>)
    requires BatchFor(nlp, t, text, definitions, facts, keySentences, count, qs)
    ensures |qs| <= count
    ensures forall i {:trigger qs[i]} :: 0 <= i < |qs| ==> IsNewOfType(qs[i], t)
  {
    match t
    case MCQ =>
      McqBatchIsNew(nlp, definitions, facts, count, qs);
    case TrueFalse =>
      TrueFalseBatchIsNew(facts, qs);
    case ShortAnswer =>
      ShortBatchIsNew(definitions, keySentences, Min(count, |definitions|), qs);
    case LongAnswer =>
      LongBatchIsNew(LongTopics(nlp, keySentences), qs);
    case FillBlank =>
      FillBlankBatchIsNew(nlp, BlankableFacts(nlp, Take(facts, count)), qs);
    case Programming =>
      ProgrammingBatchIsNew(CodeSentences(text), qs);
  }

  /** The dispatch of generate_questions' loop: the batch of type t is that type's
      generator run on the content. */
  method GenerateForType(rng: Random, nlp: Parser, t: QuestionType, text: string,
                         definitions: seq<Definition>, facts: seq<string>,
                         keySentences: seq<string>, count: nat)
    returns (qs: seq<Question>)
    modifies rng
    ensures BatchFor(nlp, t, text, definitions, facts, keySentences, count, qs)
    ensures |qs| <= count
    ensures forall i {:trigger qs[i]} :: 0 <= i < |qs| ==> IsNewOfType(qs[i], t)
  {
    match t
    case MCQ =>
      qs := GenerateMcq(rng, nlp, definitions, facts, count);
      McqBatchIsNew(nlp, definitions, facts, count, qs);
    case TrueFalse =>
      qs := GenerateTrueFalse(rng, facts, count);
      TrueFalseBatchIsNew(facts, qs);
    case ShortAnswer =>
      qs := GenerateShortAnswer(rng, definitions, keySentences, count);
      ShortBatchIsNew(definitions, keySentences, Min(count, |definitions|), qs);
    case LongAnswer =>
      qs := GenerateLongAnswer(rng, nlp, keySentences, count);
      LongBatchIsNew(LongTopics(nlp, keySentences), qs);
    case FillBlank =>
      qs := GenerateFillBlank(rng, nlp, facts, count);
      FillBlankBatchIsNew(nlp, BlankableFacts(nlp, Take(facts, count)), qs);
    case Programming =>
      qs := GenerateProgramming(text, count);
      ProgrammingBatchIsNew(CodeSentences(text), qs);
  }

  lemma ProgrammingBatchIsNew(sentences: seq<string>, qs: seq<Question>)
    requires |qs| <= |sentences|
    requires forall i :: 0 <= i < |qs| ==> qs[i] == ProgrammingQuestion(sentences[i])
    ensures forall i {:trigger qs[i]} :: 0 <= i < |qs| ==> IsNewOfType(qs[i], Programming)
  {
  }

  lemma TrueFalseBatchIsNew(facts: seq<string>, qs: seq<Question>)
    requires |qs| <= |facts|
    requires forall i {:trigger qs[i]} :: 0 <= i < |qs| ==> IsTrueFalseOn(qs[i], facts[i])
    ensures forall i {:trigger qs[i]} :: 0 <= i < |qs| ==> IsNewOfType(qs[i], TrueFalse)
  {
  }

  lemma ShortBatchIsNew(definitions: seq<Definition>, sentences: seq<string>, m: nat, qs: seq<Question>)
    requires m <= |definitions| && m <= |qs| <= m + |sentences|
    requires forall i :: 0 <= i < m ==> IsDefinitionShortOn(qs[i], definitions[i])
    requires forall k {:trigger qs[k]} :: m <= k < |qs| ==> IsSentenceShortOn(qs[k], sentences[k - m])
    ensures forall i {:trigger qs[i]} :: 0 <= i < |qs| ==> IsNewOfType(qs[i], ShortAnswer)
  {
    forall i | 0 <= i < |qs| ensures IsNewOfType(qs[i], ShortAnswer) {
      if i < m {
        assert IsDefinitionShortOn(qs[i], definitions[i]);
      } else {
        assert IsSentenceShortOn(qs[i], sentences[i - m]);
      }
    }
  }

  lemma LongBatchIsNew(topics: seq<string>, qs: seq<Question>)
    requires forall i :: 0 <= i < |qs| ==> IsLongQuestionAmong(qs[i], topics)
    ensures forall i {:trigger qs[i]} :: 0 <= i < |qs| ==> IsNewOfType(qs[i], LongAnswer)
  {
    forall i | 0 <= i < |qs| ensures IsNewOfType(qs[i], LongAnswer) {
      assert IsLongQuestionAmong(qs[i], topics);
      var topic :| topic in topics && IsLongQuestionOn(qs[i], topic);
      var template :| template in LongTemplates && qs[i] == LongQuestion(template, topic);
    }
  }

  lemma FillBlankBatchIsNew(nlp: Parser, blankable: seq<string>, qs: seq<Question>)
    requires |qs| <= |blankable|
    requires forall j :: 0 <= j < |qs| ==> IsFillBlankFor(nlp, blankable[j], qs[j])
    ensures forall i {:trigger qs[i]} :: 0 <= i < |qs| ==> IsNewOfType(qs[i], FillBlank)
  {
    forall i | 0 <= i < |qs| ensures IsNewOfType(qs[i], FillBlank) {
      assert IsFillBlankFor(nlp, blankable[i], qs[i]);
      var t :| t in Blankables(nlp, blankable[i]) && qs[i] == FillBlankQuestion(blankable[i], t.text);
    }
  }

  datatype GenerationError = TooShort | InsufficientContent | NoQuestionTypes | NothingGenerated

  const MinSourceLength: nat := 100

  const DefaultTypes: seq<QuestionType> := [MCQ, ShortAnswer, LongAnswer]

  /** Whether the analysed text gives generate_questions anything to work from: a
      definition, a fact or a key sentence among those it keeps for n questions. */
  ghost predicate HasContent(nlp: Parser, search: Searcher, text: string, n: nat) {
    || Take(Definitions(search, SentenceTexts(nlp(text).sents)), 2 * n) != []
    || Take(Facts(nlp(text).sents), 2 * n) != []
    || KeySentences(nlp, SentenceTexts(nlp(text).sents), Min(20, 2 * n)) != []
  }

  /** Asking for no questions keeps no definition, fact or key sentence, so
      generate_questions reports that the text lacks content. */
  lemma NoQuestionsNoContent(nlp: Parser, search: Searcher, text: string)
    ensures !HasContent(nlp, search, text, 0)
  {
    KeySentencesProperties(nlp, SentenceTexts(nlp(text).sents), 0);
  }

  /** The questions of the per-type batches, stamped from mix and all of a requested
      type, followed by backfilled MCQs without a difficulty. */
  ghost predicate StampedThenBackfilled(qs: seq<Question>, mix: DifficultyMix, types: seq<QuestionType>) {
    exists k :: 0 <= k <= |qs| && StampedWith(qs[..k], mix)
      && (forall i {:trigger qs[i]} :: 0 <= i < k ==> qs[i].qtype in types)
      && (forall i {:trigger qs[i]} :: k <= i < |qs| ==> qs[i].qtype == MCQ && qs[i].difficulty == None)
  }

  /** One batch per requested type, in the order of the types, batch idx being what
      the generator of types[idx] makes of the content for its share
      TypeTargets(n, |types|)[idx] of the n questions. */
  ghost predicate IsBatchSplit(batches: seq<seq<Question>>, nlp: Parser, types: seq<QuestionType>, text: string,
                               definitions: seq<Definition>, facts: seq<string>, keySentences: seq<string>,
                               n: nat) {
    && types != []
    && |batches| == |types|
    && forall idx {:trigger batches[idx]} :: 0 <= idx < |types| ==>
         BatchFor(nlp, types[idx], text, definitions, facts, keySentences, TypeTargets(n, |types|)[idx],
                  batches[idx])
  }

  /** The questions are such batches, joined in order. */
  ghost predicate FromBatches(questions: seq<Question>, nlp: Parser, types: seq<QuestionType>, text: string,
                              definitions: seq<Definition>, facts: seq<string>, keySentences: seq<string>,
                              n: nat) {
    exists batches :: IsBatchSplit(batches, nlp, types, text, definitions, facts, keySentences, n)
                      && questions == Concat(batches)
  }

  /** The loop of generate_questions over the requested types: type idx asks for
      n // k questions, one more for the first n % k types. */
  method GenerateBatches(rng: Random, nlp: Parser, types: seq<QuestionType>, text: string,
                         definitions: seq<Definition>, facts: seq<string>,
                         keySentences: seq<string>, numQuestions: nat)
    returns (questions: seq<Question>)
    requires types != []
    modifies rng
    ensures FromBatches(questions, nlp, types, text, definitions, facts, keySentences, numQuestions)
    ensures |questions| <= numQuestions
    ensures forall i {:trigger questions[i]} :: 0 <= i < |questions| ==>
              WellFormed(questions[i]) && questions[i].difficulty == None && questions[i].qtype in types
  {
    var perType := numQuestions / |types|;
    var remainder := numQuestions % |types|;
    ghost var targets := TypeTargets(numQuestions, |types|);
    ghost var batches: seq<seq<Question>> := [];
    questions := [];
    for idx := 0 to |types|
      invariant |questions| <= Sum(targets[..idx])
      invariant forall i {:trigger questions[i]} :: 0 <= i < |questions| ==>
                  WellFormed(questions[i]) && questions[i].difficulty == None && questions[i].qtype in types
      invariant questions == Concat(batches)
      invariant BatchesSoFar(batches, nlp, types, text, definitions, facts, keySentences, targets, idx)
    {
      var count := perType + (if idx < remainder then 1 else 0);
      assert count == targets[idx];
      var batch := GenerateForType(rng, nlp, types[idx], text, definitions, facts, keySentences, count);
      SumStep(targets, idx);
      AppendBatch(questions, batch, types, idx);
      NextBatch(batches, batch, nlp, types, text, definitions, facts, keySentences, targets, idx);
      questions := questions + batch;
      batches := batches + [batch];
    }
    TypeTargetsProperties(numQuestions, |types|);
    assert targets[..|types|] == targets;
    AllBatches(batches, nlp, types, text, definitions, facts, keySentences, numQuestions);
  }

  /** The batches of the first idx types, each what its type's generator makes of the
      content for its target. */
  ghost predicate BatchesSoFar(batches: seq<seq<Question>>, nlp: Parser, types: seq<QuestionType>, text: string,
                               definitions: seq<Definition>, facts: seq<string>, keySentences: seq<string>,
                               targets: seq<nat>, idx: nat) {
    && |batches| == idx <= |types| && |targets| == |types|
    && forall j {:trigger batches[j]} :: 0 <= j < idx ==>
         BatchFor(nlp, types[j], text, definitions, facts, keySentences, targets[j], batches[j])
  }

  /** Once every type has its batch, the batches are a split of the questions. */
  lemma AllBatches(batches: seq<seq<Question>>, nlp: Parser, types: seq<QuestionType>, text: string,
                   definitions: seq<Definition>, facts: seq<string>, keySentences: seq<string>, n: nat)
    requires types != []
    requires BatchesSoFar(batches, nlp, types, text, definitions, facts, keySentences, TypeTargets(n, |types|),
                          |types|)
    ensures FromBatches(Concat(batches), nlp, types, text, definitions, facts, keySentences, n)
  {
    assert IsBatchSplit(batches, nlp, types, text, definitions, facts, keySentences, n);
  }

  /** The loop step: the batch of type idx joins the others, after them. */
  lemma NextBatch(batches: seq<seq<Question>>, batch: seq<Question>, nlp: Parser, types: seq<QuestionType>,
                  text: string, definitions: seq<Definition>, facts: seq<string>, keySentences: seq<string>,
                  targets: seq<nat>, idx: nat)
    requires idx < |types|
    requires BatchesSoFar(batches, nlp, types, text, definitions, facts, keySentences, targets, idx)
    requires BatchFor(nlp, types[idx], text, definitions, facts, keySentences, targets[idx], batch)
    ensures BatchesSoFar(batches + [batch], nlp, types, text, definitions, facts, keySentences, targets, idx + 1)
    ensures Concat(batches + [batch]) == Concat(batches) + batch
  {
    var bs := batches + [batch];
    assert bs[..|bs| - 1] == batches;
    forall j | 0 <= j < idx + 1
      ensures BatchFor(nlp, types[j], text, definitions, facts, keySentences, targets[j], bs[j])
    {
      if j < idx {
        assert bs[j] == batches[j];
      }
    }
  }

  /** Appending a batch of type types[idx] keeps every question well formed, unstamped
      and of a requested type. */
  lemma AppendBatch(questions: seq<Question>, batch: seq<Question>, types: seq<QuestionType>, idx: nat)
    requires idx < |types|
    requires forall i {:trigger questions[i]} :: 0 <= i < |questions| ==>
               WellFormed(questions[i]) && questions[i].difficulty == None && questions[i].qtype in types
    requires forall i {:trigger batch[i]} :: 0 <= i < |batch| ==> IsNewOfType(batch[i], types[idx])
    ensures forall i {:trigger (questions + batch)[i]} :: 0 <= i < |questions + batch| ==>
              var q := (questions + batch)[i];
              WellFormed(q) && q.difficulty == None && q.qtype in types
  {
    var r := questions + batch;
    assert types[idx] in types;
    forall i | 0 <= i < |r| ensures WellFormed(r[i]) && r[i].difficulty == None && r[i].qtype in types {
      if i < |questions| {
        assert r[i] == questions[i];
      } else {
        assert r[i] == batch[i - |questions|];
      }
    }
  }

  /** Stamped per-type batches followed by backfilled MCQs: all well formed, and split
      as StampedThenBackfilled says. */
  lemma BackfillSplit(unstamped: seq<Question>, stamped: seq<Question>, backfill: seq<Question>,
                      mix: DifficultyMix, types: seq<QuestionType>)
    requires |stamped| == |unstamped|
    requires forall i {:trigger unstamped[i]} :: 0 <= i < |unstamped| ==>
               WellFormed(unstamped[i]) && unstamped[i].qtype in types
    requires forall i :: 0 <= i < |unstamped| ==> stamped[i].(difficulty := unstamped[i].difficulty) == unstamped[i]
    requires StampedWith(stamped, mix)
    requires forall i {:trigger backfill[i]} :: 0 <= i < |backfill| ==> IsNewOfType(backfill[i], MCQ)
    ensures forall i :: 0 <= i < |stamped + backfill| ==> WellFormed((stamped + backfill)[i])
    ensures StampedThenBackfilled(stamped + backfill, mix, types)
  {
    var qs := stamped + backfill;
    var k := |stamped|;
    forall i | 0 <= i < |qs| ensures WellFormed(qs[i]) {
      if i < k {
        assert qs[i] == stamped[i];
        assert stamped[i].(difficulty := unstamped[i].difficulty) == unstamped[i];
      } else {
        assert qs[i] == backfill[i - k];
      }
    }
    assert qs[..k] == stamped;
    forall i | 0 <= i < k ensures qs[i].qtype in types {
      assert qs[i] == stamped[i];
      assert stamped[i].(difficulty := unstamped[i].difficulty) == unstamped[i];
    }
    forall i | k <= i < |qs| ensures qs[i].qtype == MCQ && qs[i].difficulty == None {
      assert qs[i] == backfill[i - k];
    }
  }

  /** The questions with their difficulty removed. */
  function Unstamped(qs: seq<Question>): (r: seq<Question>)
    ensures |r| == |qs|
    ensures forall i :: 0 <= i < |qs| ==> r[i].difficulty == None && r[i].(difficulty := qs[i].difficulty) == qs[i]
  {
    seq(|qs|, (i: int) requires 0 <= i < |qs| => qs[i].(difficulty := None))
  }

  /** What generate_questions returns for n questions: the per-type batches, each question
      given a difficulty from mix (nothing else about it changed), then, if they fall
      short of n, the MCQs generate_mcq makes for the shortfall. */
  ghost predicate BuiltFrom(qs: seq<Question>, nlp: Parser, types: seq<QuestionType>, mix: DifficultyMix,
                            text: string, definitions: seq<Definition>, facts: seq<string>,
                            keySentences: seq<string>, n: nat) {
    exists k :: 0 <= k <= |qs| && k <= n
      && FromBatches(Unstamped(qs[..k]), nlp, types, text, definitions, facts, keySentences, n)
      && StampedWith(qs[..k], mix)
      && (if k < n then McqBatch(nlp, definitions, facts, n - k, qs[k..]) else k == |qs|)
  }

  /** Stamping questions that had no difficulty keeps everything else about them. */
  lemma UnstampedStamped(unstamped: seq<Question>, stamped: seq<Question>)
    requires |stamped| == |unstamped|
    requires forall i {:trigger unstamped[i]} :: 0 <= i < |unstamped| ==> unstamped[i].difficulty == None
    requires forall i :: 0 <= i < |unstamped| ==> stamped[i].(difficulty := unstamped[i].difficulty) == unstamped[i]
    ensures Unstamped(stamped) == unstamped
  {
    forall i | 0 <= i < |unstamped| ensures Unstamped(stamped)[i] == unstamped[i] {
      assert stamped[i].(difficulty := unstamped[i].difficulty) == unstamped[i];
    }
  }

  /** Stamped per-type batches followed by the backfill for the shortfall: no more than
      asked for, all well formed, split as StampedThenBackfilled says. */
  lemma BackfilledShape(unstamped: seq<Question>, stamped: seq<Question>, backfill: seq<Question>, nlp: Parser,
                        types: seq<QuestionType>, mix: DifficultyMix, definitions: seq<Definition>,
                        facts: seq<string>, n: nat)
    requires |unstamped| <= n
    requires forall i {:trigger unstamped[i]} :: 0 <= i < |unstamped| ==>
               WellFormed(unstamped[i]) && unstamped[i].difficulty == None && unstamped[i].qtype in types
    requires |stamped| == |unstamped|
    requires forall i :: 0 <= i < |unstamped| ==> stamped[i].(difficulty := unstamped[i].difficulty) == unstamped[i]
    requires StampedWith(stamped, mix)
    requires |stamped| < n ==> McqBatch(nlp, definitions, facts, n - |stamped|, backfill)
    requires |stamped| >= n ==> backfill == []
    ensures |stamped + backfill| <= n
    ensures forall i :: 0 <= i < |stamped + backfill| ==> WellFormed((stamped + backfill)[i])
    ensures StampedThenBackfilled(stamped + backfill, mix, types)
  {
    if |stamped| < n {
      McqBatchIsNew(nlp, definitions, facts, n - |stamped|, backfill);
    }
    BackfillSplit(unstamped, stamped, backfill, mix, types);
  }

  /** Stamped batches followed by the backfill for the shortfall are what BuiltFrom
      describes. */
  lemma BuiltFromSplit(stamped: seq<Question>, backfill: seq<Question>, nlp: Parser, types: seq<QuestionType>,
                       mix: DifficultyMix, text: string, definitions: seq<Definition>, facts: seq<string>,
                       keySentences: seq<string>, n: nat)
    requires |stamped| <= n
    requires FromBatches(Unstamped(stamped), nlp, types, text, definitions, facts, keySentences, n)
    requires StampedWith(stamped, mix)
    requires |stamped| < n ==> McqBatch(nlp, definitions, facts, n - |stamped|, backfill)
    requires |stamped| >= n ==> backfill == []
    ensures BuiltFrom(stamped + backfill, nlp, types, mix, text, definitions, facts, keySentences, n)
  {
    var qs := stamped + backfill;
    var k := |stamped|;
    assert qs[..k] == stamped;
    assert qs[k..] == backfill;
  }

  /** generate_questions. The per-type counts add up to num_questions and no generator
      exceeds its count, so the truncation never fires; a shortfall is backfilled with
      MCQs, which get no difficulty. */
  method GenerateQuestions(rng: Random, nlp: Parser, search: Searcher, text: string, numQuestions: nat,
                           questionTypes: Option<seq<QuestionType>>, difficultyMix: Option<DifficultyMix>)
    returns (r: Result<seq<Question>, GenerationError>)
    modifies rng
    ensures r == Err(TooShort) <==> |Strip(text)| < MinSourceLength
    ensures r == Err(InsufficientContent) <==>
              |Strip(text)| >= MinSourceLength && !HasContent(nlp, search, text, numQuestions)
    ensures r == Err(NoQuestionTypes) <==>
              |Strip(text)| >= MinSourceLength && HasContent(nlp, search, text, numQuestions)
              && questionTypes == Some([])
    ensures r.Ok? ==> 1 <= |r.value| <= numQuestions
    ensures r.Ok? ==> forall i :: 0 <= i < |r.value| ==> WellFormed(r.value[i])
    ensures r.Ok? ==> StampedThenBackfilled(r.value, if difficultyMix.Some? then difficultyMix.value else DefaultMix,
                                            if questionTypes.Some? then questionTypes.value else DefaultTypes)
    ensures r.Ok? ==>
              var sentences := SentenceTexts(nlp(text).sents);
              BuiltFrom(r.value, nlp, if questionTypes.Some? then questionTypes.value else DefaultTypes,
                        if difficultyMix.Some? then difficultyMix.value else DefaultMix, text,
                        Take(Definitions(search, sentences), 2 * numQuestions),
                        Take(Facts(nlp(text).sents), 2 * numQuestions),
                        KeySentences(nlp, sentences, Min(20, 2 * numQuestions)), numQuestions)
    ensures r == Err(NothingGenerated) ==>
              var sentences := SentenceTexts(nlp(text).sents);
              BuiltFrom([], nlp, if questionTypes.Some? then questionTypes.value else DefaultTypes,
                        if difficultyMix.Some? then difficultyMix.value else DefaultMix, text,
                        Take(Definitions(search, sentences), 2 * numQuestions),
                        Take(Facts(nlp(text).sents), 2 * numQuestions),
                        KeySentences(nlp, sentences, Min(20, 2 * numQuestions)), numQuestions)
  {
    var types := if questionTypes.Some? then questionTypes.value else DefaultTypes;
    var mix := if difficultyMix.Some? then difficultyMix.value else DefaultMix;
    if |Strip(text)| < MinSourceLength {
      return Err(TooShort);
    }
    var allDefinitions := ExtractDefinitions(nlp, search, text);
    var definitions := Take(allDefinitions, 2 * numQuestions);
    var allFacts := ExtractFacts(nlp, text);
    var facts := Take(allFacts, 2 * numQuestions);
    var keySentences := ExtractKeySentences(nlp, text, Min(20, 2 * numQuestions));
    if definitions == [] && facts == [] && keySentences == [] {
      return Err(InsufficientContent);
    }
    if types == [] {
      return Err(NoQuestionTypes);
    }
    var questions := BuildQuestions(rng, nlp, types, mix, text, definitions, facts, keySentences, numQuestions);
    if questions == [] {
      return Err(NothingGenerated);
    }
    r := Ok(questions);
  }

  /** The part of generate_questions after validation: the per-type batches, the
      difficulty stamps, then the count reconciliation. */
  method BuildQuestions(rng: Random, nlp: Parser, types: seq<QuestionType>, mix: DifficultyMix, text: string,
                        definitions: seq<Definition>, facts: seq<string>,
                        keySentences: seq<string>, numQuestions: nat)
    returns (questions: seq<Question>)
    requires types != []
    modifies rng
    ensures |questions| <= numQuestions
    ensures forall i :: 0 <= i < |questions| ==> WellFormed(questions[i])
    ensures StampedThenBackfilled(questions, mix, types)
    ensures BuiltFrom(questions, nlp, types, mix, text, definitions, facts, keySentences, numQuestions)
  {
    questions := GenerateBatches(rng, nlp, types, text, definitions, facts, keySentences, numQuestions);
    ghost var unstamped := questions;
    questions := AssignDifficulties(rng, questions, mix);
    ghost var stamped := questions;
    ghost var backfill;
    questions, backfill := Reconcile(rng, nlp, definitions, facts, questions, numQuestions);
    BackfilledShape(unstamped, stamped, backfill, nlp, types, mix, definitions, facts, numQuestions);
    UnstampedStamped(unstamped, stamped);
    BuiltFromSplit(stamped, backfill, nlp, types, mix, text, definitions, facts, keySentences, numQuestions);
  }

  /** The count reconciliation of generate_questions: more questions than asked for are
      cut to num_questions (which cannot happen, since no batch exceeds its share), fewer
      are followed by the MCQs generate_mcq makes for the shortfall. */
  method Reconcile(rng: Random, nlp: Parser, definitions: seq<Definition>, facts: seq<string>,
                   stamped: seq<Question>, numQuestions: nat)
    returns (questions: seq<Question>, ghost backfill: seq<Question>)
    modifies rng
    ensures |stamped| > numQuestions ==> questions == stamped[..numQuestions] && backfill == []
    ensures |stamped| <= numQuestions ==> questions == stamped + backfill
    ensures |stamped| < numQuestions ==> McqBatch(nlp, definitions, facts, numQuestions - |stamped|, backfill)
    ensures |stamped| >= numQuestions ==> backfill == []
  {
    questions := stamped;
    backfill := [];
    if |questions| > numQuestions {
      questions := Take(questions, numQuestions);
    } else if |questions| < numQuestions {
      var needed := numQuestions - |questions|;
      var extra := GenerateMcq(rng, nlp, definitions, facts, needed);
      questions := questions + Take(extra, needed);
      backfill := Take(extra, needed);
      assert backfill == extra;
    }
  }
}
