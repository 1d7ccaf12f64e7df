# AutoQ question generation core, in Dafny

AutoQ turns the text of an uploaded document into an exam paper. This project models the three
services that do that work and proves what they promise:

- `QuestionGenerator`: `generate_questions` validates the text and applies the defaults (the
  types MCQ, short answer and long answer; the mix 40 % easy, 40 % medium, 20 % hard). It
  extracts definitions, facts and key sentences, splits the requested count over the question
  types, and dispatches to the six per-type generators. Then it stamps difficulties from the mix
  and backfills with multiple-choice questions. The generators cover MCQ, true/false, short
  answer, long answer, fill in the blank and programming, together with their helpers:
  distractors, false statements, and statement-to-question.
- `NlpEngine`: noun phrases, key sentences and their score, definitions, facts, topics, and
  subject-verb-object relationships. These are computed over a parsed document.
- `PdfProcessor`: section detection, chunking with overlap, key concepts by frequency, and
  text cleaning.

Shared modules:

- `Text` holds the Python string operations the services use: `isspace`, `strip`,
  `split`, `join`, `replace`, `find`, `lower` and `str(int)`.
- `Ranking` holds the stable descending sort, `Counter` and `most_common`, and `list(set(...))`.
- `Rand` is Python's `random` module as a class with hidden state.
- `Wrappers` holds `Option` and `Result`.

How external behaviour is modelled:

- The spaCy pipeline is a function parameter `nlp: Parser` from a string to a `Doc` (sentences,
  tokens with part of speech, dependency, head and lemma, entities, noun chunks).
- The regular-expression search for the four definition patterns is a parameter
  `search: Searcher`.
- The other regular expressions are simple and are written out: the heading patterns of
  `detect_sections`, the substitutions of `_clean_text`, and the word pattern of
  `extract_key_concepts`.
- Every proved property therefore holds for any parser, any regex engine and any random draws.

Decimal scores and marks are kept exactly in half-units. The difficulty mix is a map to `real`,
and Python's `int()` of a float is `Trunc`, which truncates toward zero.

Where the code and its documented design differ, the model follows the code:

- True/false questions carry two options, `True` and `False`, not four.
- An empty `question_types` list raises a division by zero in `generate_questions`. The model
  returns `Err(NoQuestionTypes)`.
- With `num_questions == 0`, the slices `[:0]` leave no content. So, unless the text is too
  short (that check comes first), the call always fails with "insufficient content"
  (`QuestionGenerator.NoQuestionsNoContent`).
- The truncation branch `len(questions) > num_questions` can never run. Each generator returns
  at most its count, and the counts sum to `num_questions` (`QuestionGenerator.GenerateBatches`).
- The MEDIUM fallback in `_assign_difficulties` can never run either, because there are always
  at least as many labels as questions (`QuestionGenerator.LabelsCoverAll`).
- The model keeps the truncation branch, in `QuestionGenerator.Reconcile`, even though it never
  runs. It leaves the MEDIUM fallback out of `QuestionGenerator.AssignDifficulties`.
- Questions added by the backfill are appended after difficulties were assigned, so they carry
  no difficulty (`QuestionGenerator.StampedThenBackfilled`).
- Distractors are not kept apart from the correct answer, and the backfill asks the MCQ
  generator again, so the same definition questions can appear twice. The contracts state no
  more than the code does on either point.
- `identify_topics` counts phrases that `extract_noun_phrases` already deduplicated, so every
  count is 1 and the topics are a prefix of the phrases (`Ranking.MostCommonOfDistinct`).
- In `_clean_text`, the page-number substitution never fires, because the first substitution
  already turned every newline into a space (`PdfProcessor.RemovePageNumbersWithoutNewline`).

## Model

| member | source | states |
|---|---|---|
| Text.LStripSpec | backend/app/services/pdf_processor.py:88 | `lstrip` removes exactly a blank prefix, and what remains is empty or starts with a non-space |
| Text.RStripSpec | backend/app/services/nlp_engine.py:108 | `rstrip` removes exactly a blank suffix, and what remains is empty or ends with a non-space |
| Text.StripEnds | backend/app/services/nlp_engine.py:46 | a stripped string is empty or starts and ends with a non-space, and every character of it comes from the input |
| Text.StripEmptyIffBlank | backend/app/services/pdf_processor.py:89 | `strip()` is empty exactly when the line is blank, which is the test that skips blank lines |
| Text.SplitWs | backend/app/services/pdf_processor.py:168 | `split()` yields only non-empty words without whitespace |
| Text.SplitJoinRoundTrip | backend/app/services/pdf_processor.py:172 | joining words with single spaces and splitting them again gives back the same words |
| Text.SplitOn | backend/app/services/pdf_processor.py:84 | `split('\n')` yields at least one piece, and no piece contains the separator |
| Text.SplitOnJoinRoundTrip | backend/app/services/question_generator.py:316 | `sep.join(s.split(sep)) == s`: splitting on a character loses nothing |
| Text.FindSub | backend/app/services/question_generator.py:382 | `find` returns the first position where the pattern occurs, or reports that it occurs nowhere |
| Text.ReplaceExtendsLength | backend/app/services/question_generator.py:383 | replacing a pattern by a longer one that starts with it never shortens the text, and lengthens it when the pattern occurs |
| Text.ReplaceAtFirst | backend/app/services/question_generator.py:140 | `replace` keeps the text before the first occurrence unchanged, puts the replacement there, and continues on the rest |
| Text.NatToString | backend/app/services/question_generator.py:375 | `str(i)` is non-empty and has one digit exactly when i < 10 |
| Text.NatToStringInjective | backend/app/services/question_generator.py:375 | different numbers print differently, so the numbered generic distractors differ |
| Ranking.InsertSorted | backend/app/services/nlp_engine.py:60 | inserting one scored item into a list sorted by descending score keeps it sorted |
| Ranking.StableSortDesc | backend/app/services/nlp_engine.py:60 | `sort(key=..., reverse=True)` yields a permutation of the input in non-increasing key order |
| Ranking.SortIsStable | backend/app/services/pdf_processor.py:145 | among items with equal keys the sort keeps their original order, as Python's sort guarantees |
| Ranking.SortOfSortedIsIdentity | backend/app/services/nlp_engine.py:60 | sorting a list that is already in order changes nothing |
| Ranking.Take | backend/app/services/question_generator.py:40 | the slice `[:n]` has length min(n, len) and is a prefix of the list |
| Ranking.MostCommonProperties | backend/app/services/nlp_engine.py:148 | `most_common(n)` has min(n, len) entries drawn from the tally, sorted by count, keeping first-seen order among equal counts, and is a permutation of the whole tally when n covers it; the kept entries are a sub-multiset of the tally, and no entry left out has a larger count than a kept one |
| Ranking.MostCommonKeepsTop | backend/app/services/nlp_engine.py:145-148 | `most_common(n)` takes part of the tally, and no tally entry it leaves out has a larger count than an entry it keeps |
| Ranking.TallyProperties | backend/app/services/nlp_engine.py:145 | `Counter` lists each distinct element once, exactly the elements of the input, each with its number of occurrences |
| Ranking.CountOccurrences | backend/app/services/pdf_processor.py:139-142 | the counting loop builds the tally of its input |
| Ranking.SetToList | backend/app/services/nlp_engine.py:41 | `list(set(xs))` has no duplicates and exactly the elements of xs |
| Ranking.MostCommonOfDistinct | backend/app/services/nlp_engine.py:145-148 | over a list with no duplicates, `most_common(n)` returns the first n elements in their order |
| Ranking.TopByCountProperties | backend/app/services/pdf_processor.py:138-147 | ranking words by frequency gives min(n, number of distinct words) distinct words drawn from the input, by non-increasing count, ties in order of first appearance; every word of the input that is left out occurs no more often than every word kept |
| Ranking.TopByCountKeepsTop | backend/app/services/pdf_processor.py:138-147 | ranking by frequency keeps the most frequent words: a word left out never occurs more often than a word kept |
| Ranking.NoDuplicatesCardinality | backend/app/services/nlp_engine.py:41 | a list without duplicates has as many elements as its set |
| NlpEngine.SentenceScore | backend/app/services/nlp_engine.py:63-92 | a sentence scores zero exactly when it has fewer than 5 or more than 50 non-punctuation words; otherwise at least its length score plus one half-point per entity plus two per important verb |
| NlpEngine.MidLengthScoresHigher | backend/app/services/nlp_engine.py:70-73 | with the same verbs and numbers, a 10 to 30 word sentence outscores a 5 to 9 or 31 to 50 word one |
| NlpEngine.ScoreSentence | backend/app/services/nlp_engine.py:63-92 | the scoring loop computes the sentence score of the parsed sentence |
| NlpEngine.SentenceTexts | backend/app/services/nlp_engine.py:46 | one stripped text per parsed sentence, in order |
| NlpEngine.KeySentencesProperties | backend/app/services/nlp_engine.py:43-61 | key sentences: min(top_n, number of positively scored sentences) of them, each from the text with a positive score, by non-increasing score, ties in text order, and all of them when top_n is large enough; every positively scored sentence left out scores no higher than every kept one |
| NlpEngine.KeySentencesKeepTop | backend/app/services/nlp_engine.py:53-61 | the kept sentences are the best scored: a positively scored sentence left out never scores higher than a kept one |
| NlpEngine.KeySentencesMembers | backend/app/services/nlp_engine.py:53-61 | the key sentences are positively scored sentences of the text, min(top_n, their number) of them |
| NlpEngine.KeySentencesRanked | backend/app/services/nlp_engine.py:60-61 | key sentences come in non-increasing score order |
| NlpEngine.KeySentencesStable | backend/app/services/nlp_engine.py:60-61 | for each score, the key sentences with that score are the first ones of the text in text order |
| NlpEngine.ExtractKeySentences | backend/app/services/nlp_engine.py:43-61 | the method returns the key sentences of the parsed text |
| NlpEngine.FirstMatch | backend/app/services/nlp_engine.py:109-117 | the pattern used is the first of the four definition patterns that matches, and no earlier pattern matches |
| NlpEngine.DefinitionsOnePerSentence | backend/app/services/nlp_engine.py:107-119 | at most one definition per sentence, each built from its own sentence by the first matching pattern |
| NlpEngine.ExtractDefinitions | backend/app/services/nlp_engine.py:94-119 | the loop returns the definitions of the parsed sentences: at most one per sentence, each recording its stripped sentence and its first pattern match |
| NlpEngine.FactsAreFactual | backend/app/services/nlp_engine.py:126-136 | every fact is a stripped sentence that passed the fact test |
| NlpEngine.ExtractFacts | backend/app/services/nlp_engine.py:121-138 | every fact has 10 to 40 words and comes from a sentence with a number, a DATE entity, or a QUANTITY, PERCENT or MONEY entity |
| NlpEngine.CandidatesQualify | backend/app/services/nlp_engine.py:36-39 | every candidate phrase is a stripped noun chunk with at least two words and more than five characters |
| NlpEngine.ExtractNounPhrases | backend/app/services/nlp_engine.py:31-41 | the phrases are distinct and are exactly the qualifying stripped noun chunks |
| NlpEngine.IdentifyTopics | backend/app/services/nlp_engine.py:140-150 | the topics are min(num_topics, number of distinct candidate phrases) distinct candidate phrases |
| NlpEngine.RankedPhrases | backend/app/services/nlp_engine.py:145-148 | `most_common` over the deduplicated phrases yields distinct candidates, as many as asked or as exist |
| NlpEngine.LastChild | backend/app/services/nlp_engine.py:163-167 | the subject (or object) is the text of the last child whose dependency is in the set; if there is none, no child has such a dependency |
| NlpEngine.RelationshipAt | backend/app/services/nlp_engine.py:158-175 | a relationship is only reported at a ROOT VERB token, with its text as verb, non-empty subject and object that are children with a subject and an object dependency, and the stripped sentence |
| NlpEngine.SentenceRelationshipsSound | backend/app/services/nlp_engine.py:158-175 | every relationship of a sentence comes from one of its tokens |
| NlpEngine.RelationshipsSound | backend/app/services/nlp_engine.py:152-177 | every relationship of the text comes from a token of one of its sentences |
| NlpEngine.SubjectAndObject | backend/app/services/nlp_engine.py:160-167 | the child loop finds the last subject child and the last object child |
| NlpEngine.ExtractRelationships | backend/app/services/nlp_engine.py:152-177 | the nested loops collect the relationships of all sentences in order |
| NlpEngine.SentenceRelations | backend/app/services/nlp_engine.py:158-175 | the token loop collects the relationships of one sentence |
| NlpEngine.RelationAt | backend/app/services/nlp_engine.py:159-175 | one token yields the relationship defined for it |
| PdfProcessor.DetectSections | backend/app/services/pdf_processor.py:72-122 | the line loop computes the section list of the text |
| PdfProcessor.ScanKeepsInvariant | backend/app/services/pdf_processor.py:87-109 | while scanning, the saved sections and the open one hold exactly the body lines read so far, each followed by a space, and every saved section has a title and non-blank content |
| PdfProcessor.HeadingKeepsInvariant | backend/app/services/pdf_processor.py:95-105 | a heading line closes the open section (kept only if non-blank) and opens an empty one, preserving the scan invariant |
| PdfProcessor.BodyLineKeepsInvariant | backend/app/services/pdf_processor.py:108-109 | appending a body line plus a space keeps the concatenated contents equal to the body text read so far |
| PdfProcessor.DetectSectionsProperties | backend/app/services/pdf_processor.py:72-122 | there is always a section; without body lines it is the single "Main Content" section holding the whole text; otherwise the section contents together are exactly the body lines, and every section has non-blank content and a title. The lines are cut before each heading line into groups (a partition: together they are the lines, and only the first line of each later group is a heading); the result is, in order, one section per group with a non-blank body, titled by the group's stripped heading ("Introduction" for the leading group) and holding that group's body lines, or "Main Content" when there is none |
| PdfProcessor.FinishedSectionsCoverBody | backend/app/services/pdf_processor.py:84-113 | after the scan and the final save, the sections hold between them exactly the body lines, each non-blank and titled by a heading or "Introduction"; with no body lines there are none |
| PdfProcessor.LineGroupsPartition | backend/app/services/pdf_processor.py:84-106 | cutting the lines before each heading line gives groups that together are the lines, in order; every group after the first starts with a heading line and no other line is one |
| PdfProcessor.ScanFollowsGroups | backend/app/services/pdf_processor.py:84-109 | after any prefix of the lines, the scan has saved the non-blank sections of all groups but the last and is filling the last group's section |
| PdfProcessor.HeadingOpensSection | backend/app/services/pdf_processor.py:95-105 | a heading line opens an empty section titled by the stripped line |
| PdfProcessor.BodyLineExtendsSection | backend/app/services/pdf_processor.py:88-109 | a line that is not a heading keeps its group's title and appends its stripped text and a space to the body, or nothing when it is blank |
| PdfProcessor.FinishFollowsGroups | backend/app/services/pdf_processor.py:84-113 | after the final save, the sections are those of every group with a non-blank body, in order |
| PdfProcessor.SplitIntoChunks | backend/app/services/pdf_processor.py:166-176 | the chunking loop computes the chunks of the text, with the step error when chunk_size equals overlap |
| PdfProcessor.CollectChunks | backend/app/services/pdf_processor.py:171-174 | the `range` loop keeps exactly the windows longer than the minimum text length, in order |
| PdfProcessor.ChunksFromSound | backend/app/services/pdf_processor.py:171-174 | every chunk is the window at some step of the range that is longer than the minimum length |
| PdfProcessor.ChunksFromComplete | backend/app/services/pdf_processor.py:171-174 | every window at a step of the range that is longer than the minimum length is a chunk |
| PdfProcessor.ChunksOutcome | backend/app/services/pdf_processor.py:171 | chunking fails exactly when chunk_size equals overlap (a zero `range` step), yields nothing when the step is negative, and succeeds when it is positive |
| PdfProcessor.ChunksExact | backend/app/services/pdf_processor.py:166-176 | with a positive step, a string is a chunk exactly when it is a long enough window of chunk_size words at a multiple of the step |
| PdfProcessor.ChunksBounded | backend/app/services/pdf_processor.py:172 | no chunk has more than chunk_size words |
| PdfProcessor.ExtractKeyConcepts | backend/app/services/pdf_processor.py:124-147 | the counting and ranking steps compute the key concepts of the text |
| PdfProcessor.WithoutStopWordsSound | backend/app/services/pdf_processor.py:140-142 | the words counted are words of the text and none is a stop word |
| PdfProcessor.KeyConceptsProperties | backend/app/services/pdf_processor.py:124-147 | key concepts: distinct lower-case words of three or more letters that are not stop words, min(top_n, number of such distinct words) of them, by non-increasing frequency, ties in first-appearance order; every candidate word left out occurs no more often than every concept kept |
| PdfProcessor.CleanText | backend/app/services/pdf_processor.py:149-160 | the cleaned text is the three substitutions followed by strip |
| PdfProcessor.CollapsedSpacesOnly | backend/app/services/pdf_processor.py:152 | after collapsing whitespace, the only whitespace left is single plain spaces |
| PdfProcessor.RemovePageNumbersWithoutNewline | backend/app/services/pdf_processor.py:155 | the page-number substitution leaves a text without newlines unchanged |
| PdfProcessor.CleanTextProperties | backend/app/services/pdf_processor.py:149-160 | the cleaned text has no leading or trailing whitespace, only plain spaces as whitespace, only word characters, whitespace and the kept punctuation, and the same kept non-space characters in the same order as the input |
| QuestionGenerator.TypeTargetsPrefixSum | backend/app/services/question_generator.py:55-60 | the first m types receive m·(n div k) + min(m, n mod k) questions between them |
| QuestionGenerator.TypeTargetsProperties | backend/app/services/question_generator.py:55-60 | there is one target per type, the targets sum to num_questions, each is n div k or one more, and earlier types get no fewer |
| QuestionGenerator.LabelsMultiset | backend/app/services/question_generator.py:343-347 | the label list holds exactly easy_count EASY, medium_count MEDIUM and hard_count HARD labels (none for a negative count) |
| QuestionGenerator.ProperMixCounts | backend/app/services/question_generator.py:337-347 | for a mix whose easy and medium shares are non-negative and sum to at most 1, the easy and medium counts are at most their share of the total, the hard count takes the rest, and there is one label per question |
| QuestionGenerator.ShareCounts | backend/app/services/question_generator.py:339-341 | `int(total * share)` for easy and medium and the remainder for hard are non-negative and bounded by the shares |
| QuestionGenerator.DefaultMixCounts | backend/app/services/question_generator.py:31-36 | with the default mix, easy and medium each get ⌊2n/5⌋ questions and hard gets the rest, at least a fifth |
| QuestionGenerator.StampProperties | backend/app/services/question_generator.py:351-355 | stamping changes only the difficulty field: the i-th question gets the i-th label |
| QuestionGenerator.StampedCounts | backend/app/services/question_generator.py:349-355 | after stamping with the shuffled labels, exactly easy_count questions are EASY, medium_count MEDIUM, hard_count HARD, and none lacks a difficulty |
| QuestionGenerator.FalseStatementLonger | backend/app/services/question_generator.py:379-387 | the false statement is strictly longer than the true one, so it never equals it |
| QuestionGenerator.FalseStatementNegates | backend/app/services/question_generator.py:379-387 | the false statement negates the first " is " (the text before it kept) or, failing that, the first " are ", or else prefixes "It is incorrect that" to the lower-cased statement |
| QuestionGenerator.StatementToQuestionCases | backend/app/services/question_generator.py:389-400 | "The X." becomes "What is X?" with trailing dots removed; otherwise a statement with " is " asks "What is" of the part before the first " is "; otherwise "Explain: " and the stripped statement |
| QuestionGenerator.ShuffledDistractorWords | backend/app/services/question_generator.py:368-372 | a shuffled distractor has exactly the words of the answer, rearranged |
| QuestionGenerator.GenericDistractorsDistinct | backend/app/services/question_generator.py:373-375 | the numbered generic distractors are pairwise different |
| QuestionGenerator.AnswerAmongOptions | backend/app/services/question_generator.py:120-128 | in every well-formed MCQ or true/false question, the correct answer is one of the options, of which there are four or two |
| QuestionGenerator.TrueFalseQuestions | backend/app/services/question_generator.py:169-190 | both true/false variants of a fact are well formed, their texts differ, and their answers are "True" and "False" |
| QuestionGenerator.LongAnswerInjective | backend/app/services/question_generator.py:268 | two long-answer questions have the same model answer exactly when they are on the same topic |
| QuestionGenerator.GenerateDistractors | backend/app/services/question_generator.py:359-377 | count distractors, each a rearrangement of the answer's words when it has more than three words, otherwise the numbered generic alternative |
| QuestionGenerator.MakeMcq | backend/app/services/question_generator.py:119-128 | an MCQ worth one mark whose four options are a shuffle of the answer and three of its distractors |
| QuestionGenerator.GenerateMcq | backend/app/services/question_generator.py:104-161 | first one "What is term?" question per definition, up to count, then one blanked-entity question per remaining fact that has an entity, never more than count |
| QuestionGenerator.JoinMcqs | backend/app/services/question_generator.py:134-136 | definition questions followed by entity questions on the facts left in the budget make up the MCQ batch |
| QuestionGenerator.McqBatchIsNew | backend/app/services/question_generator.py:104-161 | every question of an MCQ batch is a well-formed MCQ without a difficulty |
| QuestionGenerator.DefinitionMcqs | backend/app/services/question_generator.py:110-133 | min(count, number of definitions) questions, the i-th asking for the term of the i-th definition with its definition as the answer |
| QuestionGenerator.EntityMcqs | backend/app/services/question_generator.py:136-159 | one question per fact that has an entity, in order |
| QuestionGenerator.EntityMcqStep | backend/app/services/question_generator.py:137-159 | handling one more fact extends the entity questions by one exactly when it has an entity |
| QuestionGenerator.EntityMcqFor | backend/app/services/question_generator.py:137-159 | a fact yields a question exactly when it has an entity; the first entity is blanked out and is the answer |
| QuestionGenerator.GenerateTrueFalse | backend/app/services/question_generator.py:163-197 | min(count, number of facts) questions, the i-th a true or false statement of the i-th fact |
| QuestionGenerator.TrueFalseOn | backend/app/services/question_generator.py:168-190 | the question states the fact as true, or its false version as false |
| QuestionGenerator.GenerateShortAnswer | backend/app/services/question_generator.py:199-237 | one question per definition up to count, asking for the term with the definition as answer, then one per key sentence for the rest, converted to a question with the sentence as answer |
| QuestionGenerator.DefinitionShorts | backend/app/services/question_generator.py:204-221 | the i-th question uses one of the three templates on the i-th term, with its definition as answer |
| QuestionGenerator.SentenceShorts | backend/app/services/question_generator.py:224-235 | the j-th question is the j-th sentence turned into a question, worth three marks, with the sentence as answer |
| QuestionGenerator.LongTopicsQualify | backend/app/services/question_generator.py:253-258 | every topic is a noun chunk of some key sentence and has at least two words |
| QuestionGenerator.CollectTopics | backend/app/services/question_generator.py:253-258 | the loop collects the multi-word noun chunks of the sentences in order |
| QuestionGenerator.TopicChunks | backend/app/services/question_generator.py:256-258 | the inner loop keeps exactly the chunks with two or more words |
| QuestionGenerator.GenerateLongAnswer | backend/app/services/question_generator.py:239-277 | min(count, number of distinct topics) questions, each on a topic of the sentences, no two on the same topic |
| QuestionGenerator.DistinctTopics | backend/app/services/question_generator.py:260 | `list(set(topics))[:count]` gives min(count, number of distinct topics) distinct topics |
| QuestionGenerator.LongQuestionsOnTopics | backend/app/services/question_generator.py:262-275 | questions on distinct chosen topics are long-answer questions on the topics and have different model answers |
| QuestionGenerator.LongQuestions | backend/app/services/question_generator.py:262-275 | the t-th question applies a template to the t-th chosen topic |
| QuestionGenerator.GenerateFillBlank | backend/app/services/question_generator.py:279-306 | one question per fact among the first count that has a blankable token (a noun, proper noun or number that is not a stop word), blanking it out, in order |
| QuestionGenerator.FillBlanks | backend/app/services/question_generator.py:283-304 | the loop yields exactly one question per blankable fact of the chosen ones |
| QuestionGenerator.FillBlankStep | backend/app/services/question_generator.py:284-301 | one more fact adds one question exactly when it has a blankable token |
| QuestionGenerator.BlankOut | backend/app/services/question_generator.py:284-301 | a fact yields a question exactly when it has a blankable token; the chosen token is the answer and is replaced by the blank |
| QuestionGenerator.GenerateProgramming | backend/app/services/question_generator.py:308-332 | min(count, number of code sentences) questions, the i-th asking to program the i-th period-separated sentence that mentions a code keyword |
| QuestionGenerator.ProgrammingTasks | backend/app/services/question_generator.py:319-330 | the i-th question is the programming task on the i-th chosen sentence |
| QuestionGenerator.AssignDifficulties | backend/app/services/question_generator.py:334-357 | only difficulties change, and the questions are stamped with a shuffle of the labels counted from the mix |
| QuestionGenerator.LabelsCoverAll | backend/app/services/question_generator.py:337-347 | for every mix there are at least as many labels as questions, so the MEDIUM fallback is never taken |
| QuestionGenerator.StampedWithCounts | backend/app/services/question_generator.py:334-357 | for a proper mix, the numbers of EASY, MEDIUM and HARD questions are the counts computed from the mix, and every question has a difficulty |
| QuestionGenerator.GenerateForType | backend/app/services/question_generator.py:63-75 | the batch of type t is what that type's generator makes of the content for count questions (`BatchFor`: the contract of generate_mcq, generate_true_false, generate_short_answer, generate_long_answer, generate_fill_blank or generate_programming); it has at most count questions, all well formed, of type t, without difficulty |
| QuestionGenerator.BatchForIsNew | backend/app/services/question_generator.py:63-75 | whatever type is asked for, its generator's output has at most count questions, all well formed, of that type, without difficulty |
| QuestionGenerator.NoQuestionsNoContent | backend/app/services/question_generator.py:40-50 | asking for zero questions always leaves no content, so the call fails |
| QuestionGenerator.GenerateBatches | backend/app/services/question_generator.py:52-81 | the questions are one batch per requested type joined in request order, batch idx being what the generator of types[idx] makes of the content for n // k questions, plus one for the first n % k types; together at most num_questions questions, all well formed, of a requested type, without difficulty |
| QuestionGenerator.NextBatch | backend/app/services/question_generator.py:58-81 | each loop step appends the new type's batch after the earlier ones, each still its own type's generator output for its share |
| QuestionGenerator.AllBatches | backend/app/services/question_generator.py:54-81 | after the last type the questions are the batches of all types, joined in request order |
| QuestionGenerator.BackfillSplit | backend/app/services/question_generator.py:84-94 | the stamped questions followed by the backfilled MCQs have the stamped-then-backfilled shape |
| QuestionGenerator.GenerateQuestions | backend/app/services/question_generator.py:15-102 | fails when the stripped text has fewer than 100 characters, when nothing can be extracted, or when no question types are given; otherwise it fails with NothingGenerated only when the build that `BuiltFrom` describes came out empty, and else returns 1 to num_questions well-formed questions built as `BuiltFrom` says from the definitions and facts the text yields, cut to 2n, and its min(20, 2n) key sentences: the per-type batches stamped from the mix, then the MCQ backfill for the shortfall without difficulty |
| QuestionGenerator.BuildQuestions | backend/app/services/question_generator.py:52-95 | the result is the per-type batches of GenerateBatches with a difficulty from the mix given to each question and nothing else changed, followed, when they fall short of num_questions, by the MCQs generate_mcq makes for the shortfall (`BuiltFrom`); at most num_questions well-formed questions in the stamped-then-backfilled shape |
| QuestionGenerator.Reconcile | backend/app/services/question_generator.py:86-96 | more questions than asked for are cut to num_questions; fewer are followed by the MCQs generate_mcq makes for the shortfall, nothing else |
| QuestionGenerator.UnstampedStamped | backend/app/services/question_generator.py:84 | stamping questions that had no difficulty changes nothing else: removing the difficulty again gives the questions back |
| QuestionGenerator.BackfilledShape | backend/app/services/question_generator.py:84-96 | stamped batches followed by a backfill for the shortfall: at most num_questions questions, all well formed, in the stamped-then-backfilled shape |
| QuestionGenerator.BuiltFromSplit | backend/app/services/question_generator.py:84-96 | stamped batches followed by the backfill for the shortfall are what BuiltFrom describes |

## Left out

- `extract_text`, `extract_text_by_pages` and `extract_metadata` in `pdf_processor.py` read PDF
  files through PyMuPDF. That is file I/O and is not modelled.
- `calculate_text_hash` is MD5 over the UTF-8 bytes. The hash function is not modelled.
- `NLPEngine.extract_entities` only copies spaCy entities. `generate_questions` passes its result
  to `_generate_mcq`, which never reads it, so it is not modelled. The relationships passed to
  `_generate_long_answer` are never read either, and the model's generators do not take them.
- `calculate_text_complexity` is not used by the question pipeline and is floating-point
  statistics. It is not modelled.
- The spaCy model and the regex engine behind the four definition patterns are parameters. The
  model does not model how they parse; it proves properties that hold for any behaviour of them.
- `Rand.Random`: the generator is a linear congruential stand-in for CPython's Mersenne Twister.
  Its contracts promise only what holds for every draw: a shuffle is a permutation, a choice is
  a member. Uniformity is not stated.
- Python's exception paths are not modelled:
  - the `try`/`except` that turns extraction failures into `ValueError`;
  - the per-type `except` that prints a warning and skips the type;
  - the `except` around the backfill.
  The models of the parser and the generators do not fail. `print` output is not modelled.
- `\d`, `\w`, `isalpha`, `lower()` and `[A-Z]` are treated as ASCII-only. Unicode letters,
  digits and case mappings are not modelled.
- Floats: the difficulty shares are exact `real` values. Binary rounding of
  `total * share` is not modelled.
- `PdfProcessor.ExtractKeyConcepts` and `NlpEngine.IdentifyTopics`: `topN` and `numTopics` are
  natural numbers. In Python, a negative `top_n` slice drops items from the end, and
  `most_common` with a negative count returns an empty list. Neither case is modelled.
- `num_questions` is a natural number. A negative count, which the Python code does not reject,
  would slice from the end and is not modelled.
- `ProperMixCounts`: for the hard count, it states only the lower bound. That lower bound is
  total minus the two exact products. The exact value is given by `LevelCountsOf`.
- `NlpEngine.ExtractNounPhrases` and `QuestionGenerator.DistinctTopics`: `list(set(...))` has an
  unspecified order in Python. The contracts state only "distinct, same elements". The model's
  body keeps first occurrences.
- In-place `list.sort` and `sorted` are modelled on values, as a stable insertion sort over a
  sequence. Aliasing of the sorted list is not modelled.
- The per-question dictionaries are a `Question` datatype. The options are a sequence (four
  for MCQ, two for true/false, none otherwise) rather than the `option_a`..`option_d` keys, and
  marks are kept in half-units.
