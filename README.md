# sarcasm-generation: expectation rules and commonsense post-processing

The sarcasm generator answers an event ("Ben wins marathons") with a
sarcastic remark. It works in two rule-based stages that sit between
external NLP models. This project models those stages in Dafny and proves
what they guarantee.

1. **Expectation extraction.** The event is tagged by the part-of-speech
   tagger. Then five token patterns are tried in a fixed order against
   tokens 1.. of the tagged event. The first pattern that matches runs one
   generator, which builds "failed expectations" such as "Ben does not win
   marathons". A generator builds them from the subject, the auxiliary, the
   verb's lemma, an optional antonym and the inflector's forms.
   - The matcher `pos_match` checks slot *i* against token *i+1*, but only
     for the pairs `zip` produces.
   - The antonym table pairs each word of a resource line with each of its
     antonyms, in both directions, and the last write wins.
   - Both the current extractor and the older script-level one are modelled.
2. **Commonsense post-processing.** The COMET generator returns, for each
   ATOMIC relation (xIntent, xNeed, xAttr, xWant, xReact, xEffect), a list of
   objects ("win the race"). `remove_comet_overlap` then works on the
   event's lists and on those of the failed expectation, in five steps:
   1. It normalises every object with `preproc_obt` and deduplicates each
      list with the fuzzy, stop-word-insensitive `obt_eq`.
   2. It prunes expectation objects that resemble event objects.
   3. It drops the expectation side when its xAttr list is empty.
   4. It keeps only objects whose one-object sentence has the sentiment of
      that side's xAttr reference sentence.
   5. It removes, in the priority order xAttr, xIntent, xNeed, xReact,
      xWant, xEffect, every object that resembles one kept under an earlier
      relation.

Three smaller helpers are modelled as well:
- the beam filter and prior/posterior partition of the first commonsense
  builder;
- `preprocess` of the first response generator;
- `preprocess_text` of the sentiment analyser.

Python failures are modelled as values of `Wrappers.Result`:
- `IndexOutOfRange` for IndexError;
- `MissingKey` for KeyError;
- `UnableToExtract` for the generic Exception of the first extractor.

Loops of the source are methods with loop invariants. Each method is proved
equal to a specification function, and the properties are proved as lemmas
about those functions.

Modules:
- `Wrappers`: Option and Result.
- `Text`: `str.split`, `strip`, `join`, `startswith`, `endswith`.
- `Seqs`: filters and order-preserving subsequences.
- `Relations`: the relation types.
- `Patterns`: tokens and `pos_match`.
- `Expectations`: the current extractor.
- `LegacyExpectations`: the first extractor.
- `ExpectationExamples`: the extractor's test events.
- `Antonyms`: both antonym tables.
- `CometObjects`: `obt_eq` through `gen_sentence`.
- `CometPreproc`: `preproc_obt`.
- `CometOverlap`: `remove_comet_overlap`.
- `OverlapProperties`: what `remove_comet_overlap` guarantees.
- `LegacyBuilder`: the partition in `build_commonsense`.
- `PatternPreprocess`: the response generator's `preprocess`.
- `SentimentPreprocess`: `preprocess_text`.

## Model

| member | source | states |
|---|---|---|
| Patterns.PosMatch | src/max/expectation_extractors/pattern_negation_extractor.py:273-286 | The loop with its `one_matches` flag and its early return computes `PosMatches`: every zipped slot has an alternative all of whose keys equal the token's attributes. The first extractor's `pos_match` is the same code. |
| Patterns.Checked | src/max/expectation_extractors/pattern_negation_extractor.py:276 | `zip(sp_obt[1:], pattern)` checks at most one slot per pattern entry and per token after the subject. |
| Patterns.SingleSlotIsOneAlternative | src/max/expectation_extractors/pattern_negation_extractor.py:277-285 | A bare-dictionary slot matches exactly as the one-element list does: a token matches iff every key of the dictionary equals the token's attribute. |
| Patterns.SubjectIgnored | src/max/expectation_extractors/pattern_negation_extractor.py:276 | Replacing token 0 never changes whether a pattern matches. |
| Patterns.ExtraTokensIgnored | src/max/expectation_extractors/pattern_negation_extractor.py:276 | Tokens after the last slot never change whether a pattern matches. |
| Patterns.ShortSentenceMatchesAnything | src/max/expectation_extractors/pattern_negation_extractor.py:276-286 | A sentence of at most one token matches every pattern, because the slots beyond the sentence go unchecked. |
| Patterns.PatternPrefix | src/max/expectation_extractors/pattern_negation_extractor.py:276-286 | A sentence that matches a pattern matches every prefix of that pattern. |
| Antonyms.LastWriteWins | src/max/expectation_extractors/pattern_negation_extractor.py:41-44 | After a sequence of dictionary writes, a key is present iff it was present or some write targets it. Its value is the value of the last write to it, or is unchanged when no write targets it. |
| Antonyms.WrittenKeyPresent | src/max/expectation_extractors/pattern_negation_extractor.py:43-44 | Every key that some write targets is present afterwards. |
| Antonyms.RowWritesMembers | src/max/expectation_extractors/pattern_negation_extractor.py:42-44 | The inner loop for one word writes exactly word -> antonym and antonym -> word for each of its antonyms. |
| Antonyms.PairWritesMembers | src/max/expectation_extractors/pattern_negation_extractor.py:41-44 | The two nested loops write exactly the cross product of the two groups, in both directions. |
| Antonyms.PairUp | src/max/expectation_extractors/pattern_negation_extractor.py:41-44 | The nested loops leave the table equal to the writes `PairWrites` lists, applied in order. |
| Antonyms.StripAll | src/max/expectation_extractors/pattern_negation_extractor.py:33-40 | Stripping a group keeps one word per comma-separated piece. |
| Antonyms.ReadAntonymsTsv | src/max/expectation_extractors/pattern_negation_extractor.py:26-45 | The table is the result of all rows' writes, applied in row order to an empty dictionary. |
| Antonyms.TsvLookupWasPaired | src/max/expectation_extractors/pattern_negation_extractor.py:32-44 | Every entry of the table pairs two stripped words that stand on opposite sides of some row. |
| Antonyms.TsvPairedWordIsKey | src/max/expectation_extractors/pattern_negation_extractor.py:32-44 | Every stripped word on either side of a row becomes a key. |
| Antonyms.TsvBothDirections | src/max/expectation_extractors/pattern_negation_extractor.py:41-44 | Each word/antonym pairing of a row is written in both directions. |
| Antonyms.SingleRowIsSymmetric | src/max/expectation_extractors/pattern_negation_extractor.py:41-44 | A row with one word on each side yields exactly the symmetric pair. |
| Antonyms.ConflictingPairsAreAsymmetric | src/max/expectation_extractors/pattern_negation_extractor.py:41-44 | Because the last write wins, the table is not symmetric in general: a line "a" / "b,c" gives b -> a and c -> a, but a -> c. |
| Antonyms.LoadLegacyAntonyms | src/expectation_extractors/pattern_negation_extractor.py:12-22 | The loop over the lines of the legacy file computes `LegacyTable`, and raises IndexError iff some line has no tab-separated second field. |
| Expectations.Texts | src/max/expectation_extractors/pattern_negation_extractor.py:150 | `[w.text for w in tokens]` has one entry per token, and entry i is the text of token i. |
| Expectations.IsOrWasIsAux | src/max/expectation_extractors/pattern_negation_extractor.py:103-106 | A token matching the `is`/`was` slot also matches the AUX VBZ / AUX VBD slot. |
| Expectations.DecidedSentenceLength | src/max/expectation_extractors/pattern_negation_extractor.py:90-128 | Patterns 2 and 3 decide only events of at least three tokens. Patterns 2 to 5 and "no pattern" occur only for events of at least two tokens. |
| Expectations.RaisesIffShortAuxNotVerb | src/max/expectation_extractors/pattern_negation_extractor.py:147-150 | The extractor raises exactly when the first pattern matches a sentence of fewer than four tokens, which its generator then indexes past the end. |
| Expectations.NoExpectationsIffNoPattern | src/max/expectation_extractors/pattern_negation_extractor.py:129-135 | The result is the empty list, with no exception, exactly when no pattern matches. |
| Expectations.AuxNotVerbStartsWithSubject | src/max/expectation_extractors/pattern_negation_extractor.py:147-168 | Every string of the first generator begins with the subject's text. |
| Expectations.AuxVerbStartsWithSubject | src/max/expectation_extractors/pattern_negation_extractor.py:181-203 | Every string of the second generator begins with the subject's text. |
| Expectations.VerbStartsWithSubject | src/max/expectation_extractors/pattern_negation_extractor.py:244-261 | Every string of the fifth generator begins with the subject's text. |
| Expectations.ExpectationsStartWithSubject | src/max/expectation_extractors/pattern_negation_extractor.py:77-135 | Every expectation the extractor returns begins with the subject token's text. |
| Expectations.AuxNotVerbExpectations | src/max/expectation_extractors/pattern_negation_extractor.py:137-168 | Rule 1 gives 1 to 3 strings in order. First `subj inflect(lemma, aux.tag) rest`, only when the inflector has a form. Then `subj aux lemma rest`, always, with rest = tokens[4:]. Last `subj aux not antonym rest`, only with antonyms on and the lemma in the table. |
| Expectations.AuxVerbExpectations | src/max/expectation_extractors/pattern_negation_extractor.py:170-203 | Rule 2 gives 1 to 3 strings, always first `subj aux not lemma rest[3:]`. There is more than one exactly when antonyms are on and the lemma has an entry. |
| Expectations.BeExpectations | src/max/expectation_extractors/pattern_negation_extractor.py:205-234 | Rules 3 and 4 emit exactly one string, whatever the antonym flag, table and inflector. Rule 3 drops the negation (token 2) and keeps tokens[3:]. Rule 4 inserts `not` after the auxiliary and keeps tokens[2:]. |
| Expectations.VerbExpectations | src/max/expectation_extractors/pattern_negation_extractor.py:236-261 | Rule 5 first gives `subj does/did not lemma rest`, with `does` iff the tag is VBZ, so VBP yields `did`. A second, inflected-antonym string appears iff antonyms are on, the lemma has an entry and the inflector has a form. |
| Expectations.AuxOnlyDecided | src/max/expectation_extractors/pattern_negation_extractor.py:103-118 | An event decided by rule 4 has at least three tokens, an `is`/`was` auxiliary, and a third token that is not a bare verb. |
| Expectations.NegatedAuxOnlyDecided | src/max/expectation_extractors/pattern_negation_extractor.py:103-113 | Inserting `not` after such an `is`/`was` makes rule 3 decide. |
| Expectations.BeNegationRoundTrip | src/max/expectation_extractors/pattern_negation_extractor.py:205-234 | Rule 4 maps an `is`/`was` event to its negation, and on that negation rule 3 gives back exactly the original event. |
| Expectations.AuxVerbDecided | src/max/expectation_extractors/pattern_negation_extractor.py:90-102 | An event decided by rule 2 has an auxiliary followed by a bare verb. |
| Expectations.NegatedAuxVerbDecided | src/max/expectation_extractors/pattern_negation_extractor.py:77-89 | Inserting `not` between that auxiliary and the verb makes rule 1 decide. |
| Expectations.AuxNegationRoundTrip | src/max/expectation_extractors/pattern_negation_extractor.py:137-203 | Without antonyms, rule 2 negates an auxiliary + bare verb event. On the negation, rule 1's last string is the original event, preceded only by the inflected form when there is one. |
| Expectations.PeriphrasticDecided | src/max/expectation_extractors/pattern_negation_extractor.py:77-81 | Replacing a VBZ/VBD finite verb by `does`/`did` + `not` + the bare verb makes rule 1 decide. |
| Expectations.VerbNegationRoundTrip | src/max/expectation_extractors/pattern_negation_extractor.py:236-252 | Without antonyms, rule 5 negates a VBZ/VBD event with `does`/`did`. When the inflector maps the lemma back to the surface form, reading the negation gives the original event first, then the `does`/`did` affirmative. |
| Expectations.ShortNegatedEventRaises | src/max/expectation_extractors/pattern_negation_extractor.py:147-149 | As written, the tagged event "Ben did not" raises IndexError (see Findings). |
| Expectations.StrictDecidingPattern | src/max/expectation_extractors/pattern_negation_extractor.py:273-286 | With every slot required to meet a token, a decided pattern always has the tokens its generator reads: four for rule 1, three for rule 2, two otherwise. |
| Expectations.StrictAgreesWhereDefined | src/max/expectation_extractors/pattern_negation_extractor.py:77-135 | Wherever the extractor as written returns, the corrected extractor returns the same expectations. |
| Expectations.ShortNegatedEventStrict | src/max/expectation_extractors/pattern_negation_extractor.py:77-89 | The corrected extractor returns no expectations for "Ben did not" instead of raising. |
| ExpectationExamples.FiniteVerbDecided | src/max/expectation_extractors/pattern_negation_extractor.py:119-128 | A non-auxiliary second token that is a VERB tagged VBZ, VBD or VBP makes rule 5 decide. |
| ExpectationExamples.VerbExpectation | src/max/expectation_extractors/pattern_negation_extractor.py:244-252 | Without antonyms, rule 5 yields exactly the one `does`/`did not` sentence. |
| ExpectationExamples.AuxNotVerbDecided | src/max/expectation_extractors/pattern_negation_extractor.py:77-81 | AUX VBZ/VBD, then `not`/`n't`, then VERB VB after the subject makes rule 1 decide. |
| ExpectationExamples.AuxNotVerbExpectation | src/max/expectation_extractors/pattern_negation_extractor.py:147-161 | Without antonyms and with an inflected form, rule 1 yields the inflected sentence and then the affirmative with the auxiliary. |
| ExpectationExamples.BenWinsMarathons | test/expectation_extractors/test_pattern_negation_extractor.py:37-39 | "Ben wins marathons" -> ["Ben does not win marathons"]. |
| ExpectationExamples.IRanOutOfCharacters | test/expectation_extractors/test_pattern_negation_extractor.py:44-46 | "I ran out of characters" -> ["I did not run out of characters"]. |
| ExpectationExamples.BenIsWinningMarathons | test/expectation_extractors/test_pattern_negation_extractor.py:24-26 | "Ben is winning marathons" -> ["Ben is not winning marathons"]. |
| ExpectationExamples.BenIsNotWinningMarathons | test/expectation_extractors/test_pattern_negation_extractor.py:27-29 | "Ben is not winning marathons" -> ["Ben is winning marathons"]. |
| ExpectationExamples.BenDoesNotWinMarathons | test/expectation_extractors/test_pattern_negation_extractor.py:10-12 | "Ben does not win marathons" -> ["Ben wins marathons", "Ben does win marathons"], given an inflector that maps win/VBZ to "wins". |
| LegacyExpectations.LegacyFiniteVerbIsFinite | src/expectation_extractors/pattern_negation_extractor.py:158-160 | The first extractor's last slot (VERB VBZ or VBD) admits only tokens the current one admits. |
| LegacyExpectations.SameDecision | src/expectation_extractors/pattern_negation_extractor.py:68-160 | Whenever the first extractor's cascade finds a pattern, it is the current one's pattern. The two differ only when the current one decides by rule 5 and the first finds nothing (a VBP verb). |
| LegacyExpectations.LegacyErrors | src/expectation_extractors/pattern_negation_extractor.py:56-176 | The first extractor raises IndexError exactly on an empty event or a short rule-1 event. It raises its generic Exception exactly when the subject is not PROPN/NNP or no pattern matches. |
| LegacyExpectations.CurrentExtends | src/expectation_extractors/pattern_negation_extractor.py:53-178 | For the same tagged event, inflector and antonym table, wherever the first extractor returns, the current extractor returns the same list. The scripts themselves load different resources (see "Left out"), so on real inputs the antonym and inflection strings may differ. |
| LegacyExpectations.PluralPresentOnlyCurrent | src/expectation_extractors/pattern_negation_extractor.py:158-176 | A proper-noun event with a VBP finite verb makes the first extractor raise, while the current one returns a non-empty list. |
| CometObjects.StopWords | src/max/commonsense_builders/comet_builder.py:26 | The stop-word set is the tagger's set with "stay" added, and nothing else. |
| CometObjects.ObtsUnique | src/max/commonsense_builders/comet_builder.py:276-281 | The loop that appends to `unique` computes `Unique`. |
| CometObjects.ObtEqReflexive | src/max/commonsense_builders/comet_builder.py:256-261 | `obt_eq(o, o)` holds. |
| CometObjects.ObtEqSymmetric | src/max/commonsense_builders/comet_builder.py:256-261 | `obt_eq` is symmetric. |
| CometObjects.ContentWordsEmpty | src/max/commonsense_builders/comet_builder.py:257-258 | A word list made only of stop words has no content words. |
| CometObjects.AllStopWordsEqualsEverything | src/max/commonsense_builders/comet_builder.py:256-261 | An object made only of stop words is `obt_eq` to every object. |
| CometObjects.SpacingIgnored | src/max/commonsense_builders/comet_builder.py:257-258 | Re-spacing an object's words does not change `obt_eq`. |
| CometObjects.ObtEqNotTransitive | src/max/commonsense_builders/comet_builder.py:259-261 | `obt_eq` is not transitive: "a" ~ "ab" and "ab" ~ "b", but not "a" ~ "b". |
| CometObjects.OneWordStripped | src/max/commonsense_builders/comet_builder.py:257 | With no stop words, a single word is left as it is. |
| CometObjects.IntersMembers | src/max/commonsense_builders/comet_builder.py:268-269 | `obts_inters` holds exactly the members of obts1 that are `obt_in` obts2. |
| CometObjects.DiffMembers | src/max/commonsense_builders/comet_builder.py:272-273 | `obts_diff` holds exactly the members of obts1 that are not `obt_in` obts2. |
| CometObjects.IntersSubseq | src/max/commonsense_builders/comet_builder.py:268-269 | `obts_inters` is an order-preserving subsequence of obts1. |
| CometObjects.DiffSubseq | src/max/commonsense_builders/comet_builder.py:272-273 | `obts_diff` is an order-preserving subsequence of obts1. |
| CometObjects.IntersDiffCounts | src/max/commonsense_builders/comet_builder.py:268-273 | Intersection and difference together hold each element of obts1 as many times as obts1 does. |
| CometObjects.IntersDiffPartition | src/max/commonsense_builders/comet_builder.py:268-273 | Intersection and difference partition obts1 into two order-preserving subsequences. |
| CometObjects.DiffExcludes | src/max/commonsense_builders/comet_builder.py:272-273 | No member of `obts_diff(obts1, obts2)` is `obt_eq` to a member of obts2. |
| CometObjects.UniqueSubseq | src/max/commonsense_builders/comet_builder.py:276-281 | `obts_unique` returns an order-preserving subsequence of its input. |
| CometObjects.UniqueClean | src/max/commonsense_builders/comet_builder.py:276-281 | The result holds no "none", no empty string and no two `obt_eq` members. |
| CometObjects.UniqueGrows | src/max/commonsense_builders/comet_builder.py:276-281 | The result for a prefix of the input is a prefix of the result, so what is kept is never given up. |
| CometObjects.UniqueCovers | src/max/commonsense_builders/comet_builder.py:276-281 | Every input object other than "none" and "" resembles some object in the result. |
| CometObjects.UniqueOfClean | src/max/commonsense_builders/comet_builder.py:276-281 | A list without "none" or "" and with no two `obt_eq` members is returned unchanged. |
| CometObjects.UniqueIdempotent | src/max/commonsense_builders/comet_builder.py:276-281 | Applying `obts_unique` twice equals applying it once. |
| CometObjects.AndJoinShape | src/max/commonsense_builders/comet_builder.py:284-290 | `and_join` fails exactly on the empty list, returns a single element unchanged, and for two or more begins with the first and ends with " and " + the last. |
| CometObjects.ComposeRenders | src/max/commonsense_builders/comet_builder.py:293-305 | The text `gen_sentence` returns is the rendering of the composed sentence, and the two fail together. |
| CometObjects.SentenceFrame | src/max/commonsense_builders/comet_builder.py:293-305 | Every sentence for a non-empty list begins with "He " and ends with ".", for every relation, including the xEffect fallback. |
| CometObjects.OneObjectSentence | src/max/commonsense_builders/comet_builder.py:293-305 | A one-object sentence is the relation's template around that object. |
| CometPreproc.PreprocObt | src/max/commonsense_builders/comet_builder.py:126-148 | The step-by-step reassignments of `toks` compute `Preproc`. |
| CometPreproc.DropFrame | src/max/commonsense_builders/comet_builder.py:127-133 | The three frame-dropping reassignments compute `TrimFrame`. |
| CometPreproc.RewritePronouns | src/max/commonsense_builders/comet_builder.py:141-145 | The in-place loop rewrites every "their" to "your" and every "they" to "you". |
| CometPreproc.PreprocFailsIffBlank | src/max/commonsense_builders/comet_builder.py:127-128 | `preproc_obt` raises IndexError exactly on whitespace-only objects. |
| CometPreproc.TrimFrameIsSlice | src/max/commonsense_builders/comet_builder.py:128-133 | The frame steps remove at most three leading words and at most one trailing word. |
| CometPreproc.OneLeadingToDropped | src/max/commonsense_builders/comet_builder.py:128-129 | Only one leading "to" is dropped. |
| CometPreproc.NoThirdPersonPlural | src/max/commonsense_builders/comet_builder.py:141-145 | No preprocessed object contains "their" or "they". |
| CometPreproc.NeverStartsWithBe | src/max/commonsense_builders/comet_builder.py:146-147 | A preprocessed object never starts with "be"; one that would have is exactly ["none"]. |
| CometPreproc.RewrittenIdempotent | src/max/commonsense_builders/comet_builder.py:141-145 | The pronoun rewrite is idempotent. |
| CometPreproc.UnlemmatisedIgnoresTagger | src/max/commonsense_builders/comet_builder.py:134-139 | xAttr and xReact objects do not depend on the tagger. |
| CometPreproc.OnlyFirstWordLemmatised | src/max/commonsense_builders/comet_builder.py:134-139 | For other relations, the tagged text's words are kept, except that the first becomes its lemma iff it is a VERB whose lemma is not "-PRON-". |
| CometPreproc.PersonXLovesTheirDog | src/max/commonsense_builders/comet_builder.py:126-148 | "person x loves their dog ." under xAttr becomes "loves your dog". |
| CometPreproc.ToBeKindIsNone | src/max/commonsense_builders/comet_builder.py:126-148 | "to be kind" under xAttr becomes "none". |
| CometOverlap.Rank | src/max/commonsense_builders/comet_builder.py:220 | Every relation has a position in the priority list. |
| CometOverlap.Normalise | src/max/commonsense_builders/comet_builder.py:158-164 | Normalisation keeps the side's relations. |
| CometOverlap.RefSentence | src/max/commonsense_builders/comet_builder.py:191 | The reference sentence is the xAttr `gen_sentence` of the first five xAttr objects, which exists for a non-empty list. |
| CometOverlap.FilterSide | src/max/commonsense_builders/comet_builder.py:196-204 | The sentiment filter keeps the side's relations. |
| CometOverlap.HasAllPriority | src/max/commonsense_builders/comet_builder.py:220-221 | The priority loop finds every relation it indexes exactly when the side has all six. |
| CometOverlap.DedupeOver | src/max/commonsense_builders/comet_builder.py:218-225 | The priority pass keeps the side's relations. |
| CometOverlap.Finish | src/max/commonsense_builders/comet_builder.py:195-225 | The filter and the priority pass together keep the side's relations. |
| CometOverlap.ExpectationSideShape | src/max/commonsense_builders/comet_builder.py:165-189 | A kept expectation side keeps its own relations, has a list for every event relation and has a non-empty xAttr list. |
| CometOverlap.PruneExpectations | src/max/commonsense_builders/comet_builder.py:165-189 | The reassignments of `exp_cs` compute `ExpectationSide`. That is None for no expectation, an empty raw xAttr or an empty pruned xAttr. It is KeyError for a missing xAttr key, for an event relation the expectation side lacks (`exp_cs[R]` at line 179), or for an expectation relation the event lacks that still has objects (`common_cs[R]` at line 185, which the comprehension evaluates only per object). An extra expectation relation with no objects passes and keeps its empty list. |
| CometOverlap.DedupeStep | src/max/commonsense_builders/comet_builder.py:221-225 | One iteration (`obts_diff` against the accumulator, then the accumulator update) extends the pass by one relation. |
| CometOverlap.PriorityPass | src/max/commonsense_builders/comet_builder.py:218-225 | The loop raises KeyError exactly when the event side lacks a relation. Otherwise each side ends deduplicated in priority order. |
| CometOverlap.FilterAndDedupe | src/max/commonsense_builders/comet_builder.py:190-227 | Building the reference sentences, filtering and deduplicating computes `FinishBoth`. That includes KeyError and IndexError for a missing or empty event xAttr list. |
| CometOverlap.FilterThenDedupe | src/max/commonsense_builders/comet_builder.py:195-227 | The filter comprehensions and the priority loop compute `FinishWith`. |
| CometOverlap.RemoveCometOverlap | src/max/commonsense_builders/comet_builder.py:156-227 | The whole method computes `RemoveOverlap`. |
| OverlapProperties.PriorityNoRepeats | src/max/commonsense_builders/comet_builder.py:220 | The priority list visits no relation twice. |
| OverlapProperties.DedupeSubseq | src/max/commonsense_builders/comet_builder.py:221 | The priority pass only removes: every list stays an order-preserving subsequence of its input. |
| OverlapProperties.DedupeAcc | src/max/commonsense_builders/comet_builder.py:221-222 | Everything kept under a visited relation is in the accumulator. |
| OverlapProperties.DedupeExclusive | src/max/commonsense_builders/comet_builder.py:218-225 | No object kept under a relation resembles one kept under a relation visited earlier. |
| OverlapProperties.DedupeUntouched | src/max/commonsense_builders/comet_builder.py:218-225 | A relation the pass does not visit is left as it is. |
| OverlapProperties.AgreeingSubseq | src/max/commonsense_builders/comet_builder.py:196-204 | The sentiment filter keeps an order-preserving subsequence. |
| OverlapProperties.AgreeingMembers | src/max/commonsense_builders/comet_builder.py:196-204 | The filter keeps an object iff the sentiment of its one-object sentence equals that of the reference sentence. |
| OverlapProperties.FinishSubseq | src/max/commonsense_builders/comet_builder.py:195-225 | After filter and pass in any order of relations, each list is a subsequence of its input. |
| OverlapProperties.FinishAgrees | src/max/commonsense_builders/comet_builder.py:195-225 | After filter and pass, every object left agrees in sentiment with the reference sentence. |
| OverlapProperties.NormaliseClean | src/max/commonsense_builders/comet_builder.py:158-164 | After normalisation, every list has no "none", no empty object and no two resembling objects. |
| OverlapProperties.FinishPrioritySubseq | src/max/commonsense_builders/comet_builder.py:195-225 | In the priority order, each final list is a subsequence of its input. |
| OverlapProperties.FinishPriorityAgrees | src/max/commonsense_builders/comet_builder.py:195-214 | In the priority order, every final object agrees in sentiment with the reference sentence. |
| OverlapProperties.FinishPriorityExclusive | src/max/commonsense_builders/comet_builder.py:216-225 | In the priority order, no object resembles one kept under an earlier relation. |
| OverlapProperties.PrunedExcludes | src/max/commonsense_builders/comet_builder.py:176-186 | An expectation object that survives pruning resembles no event object of its relation. |
| OverlapProperties.PrunedEmptyIff | src/max/commonsense_builders/comet_builder.py:176-189 | Pruning empties a list exactly when every one of its objects resembles some event object. |
| OverlapProperties.PrunedSide | src/max/commonsense_builders/comet_builder.py:167-186 | The pruned expectation side has the event's relations, and each of its lists is a subsequence of the normalised expectation list. |
| OverlapProperties.FinishBothOk | src/max/commonsense_builders/comet_builder.py:190-227 | Success needs a complete event side with xAttr objects. Each side is then finished against its own reference sentence, and the expectation side is present iff it was given. |
| OverlapProperties.ExpectationSideKept | src/max/commonsense_builders/comet_builder.py:165-189 | A kept expectation side has a list for every event relation and is the pruned normalised side. |
| OverlapProperties.RemoveOverlapSides | src/max/commonsense_builders/comet_builder.py:156-227 | A successful run returns the finished normalised event side, and, when kept, the finished pruned expectation side, each against its own xAttr reference. |
| OverlapProperties.RemoveOverlapOkIff | src/max/commonsense_builders/comet_builder.py:156-227 | `remove_comet_overlap` returns exactly when all of these hold: the event side has all six relations, its normalised xAttr list is non-empty, and a given expectation side has an xAttr key and, when that list is non-empty, the event's relations. |
| OverlapProperties.RemoveOverlapIndexError | src/max/commonsense_builders/comet_builder.py:191 | IndexError is raised exactly when the event side has xAttr, its normalised xAttr list is empty, and a given expectation side has xAttr and, when that list is non-empty, passes the lookups of lines 179 and 185: a list for every event relation, and no objects under a relation the event lacks. |
| OverlapProperties.EmptyExtraRelationNotLookedUp | src/max/commonsense_builders/comet_builder.py:176-191 | With event side {xAttr: ["none"]} and expectation side {xAttr: ["a"], xEffect: []}, the empty xEffect list is never looked up in `common_cs`, so the run raises IndexError at line 191 rather than KeyError. |
| OverlapProperties.EventIgnoresExpectation | src/max/commonsense_builders/comet_builder.py:156-227 | The event side's result is the same with or without an expectation side: event lists are never pruned. |
| OverlapProperties.ExpectationDropped | src/max/commonsense_builders/comet_builder.py:165-189 | The expectation side comes back None exactly when it was None, its raw xAttr list was empty, or every normalised expectation xAttr object resembles a normalised event xAttr object. |
| OverlapProperties.EventClean | src/max/commonsense_builders/comet_builder.py:156-227 | Every event relation's final list is a subsequence of its normalised list, with no "none", no empty object and no two resembling objects. |
| OverlapProperties.ExpectationClean | src/max/commonsense_builders/comet_builder.py:156-227 | The same holds for every kept expectation relation. |
| OverlapProperties.EventAgrees | src/max/commonsense_builders/comet_builder.py:190-204 | Every event object left agrees in sentiment with the event's xAttr reference sentence (first five normalised xAttr objects). |
| OverlapProperties.ExpectationAgrees | src/max/commonsense_builders/comet_builder.py:192-214 | Every expectation object left agrees in sentiment with the pruned expectation's xAttr reference sentence. |
| OverlapProperties.PriorityExclusive | src/max/commonsense_builders/comet_builder.py:216-225 | On either output side, no object resembles one kept under a relation earlier in the priority order. |
| OverlapProperties.ExpectationDisjoint | src/max/commonsense_builders/comet_builder.py:176-186 | No expectation object left resembles a normalised event object of the same relation. |
| LegacyBuilder.BuildCommonsense | src/commonsense_builders/comet_builder.py:64-75 | The loop over the relations computes `Partitioned`. |
| LegacyBuilder.PartitionedIsFilter | src/commonsense_builders/comet_builder.py:67-73 | The priors and the posteriors are exactly the cleaned (relation, beams) pairs of a prior, resp. posterior, relation with beams left, in input order. |
| LegacyBuilder.NoNoneNoEmpty | src/commonsense_builders/comet_builder.py:68-69 | No returned beam list is empty or contains "none". |
| LegacyBuilder.PriorsExactly | src/commonsense_builders/comet_builder.py:67-71 | A pair is among the priors iff some input relation is a prior relation with beams other than "none", and the pair carries those beams. |
| LegacyBuilder.PosteriorsExactly | src/commonsense_builders/comet_builder.py:67-73 | The same for the posteriors and the posterior relations. |
| LegacyBuilder.RelationSetsDisjoint | src/commonsense_builders/comet_builder.py:33-34 | No relation is both prior and posterior, so none lands in both lists. |
| LegacyBuilder.UnknownDropped | src/commonsense_builders/comet_builder.py:70-73 | A relation in neither set appears in neither list. |
| LegacyBuilder.OrderPreserved | src/commonsense_builders/comet_builder.py:67-68 | Both lists follow input key order, and every beam list keeps its beams' order. |
| LegacyBuilder.NoneOnlyRelationDropped | src/commonsense_builders/comet_builder.py:64-75 | xAttr ["a","none","b"] and xWant ["none"] give priors [(xAttr, ["a","b"])] and no posteriors. |
| PatternPreprocess.PreObts | src/generators/pattern_generator.py:96-104 | A successful `pre_obts` has one entry per object. |
| PatternPreprocess.ReplacePersonX | src/generators/pattern_generator.py:101-103 | The in-place loop turns every "personx" into "you" and leaves every other token. |
| PatternPreprocess.PreprocessObts | src/generators/pattern_generator.py:92-105 | The loops compute `Preprocess`, including its IndexErrors. |
| PatternPreprocess.PreObtsErrExtends | src/generators/pattern_generator.py:97-99 | A failure on some object fails the whole list with IndexError. |
| PatternPreprocess.PreObtsErrIsIndex | src/generators/pattern_generator.py:98-99 | The only failure while building `pre_obts` is IndexError. |
| PatternPreprocess.PreObtsIndex | src/generators/pattern_generator.py:97-104 | Entry i of `pre_obts` is the preprocessing of object i. |
| PatternPreprocess.PreprocessFailsIff | src/generators/pattern_generator.py:98-105 | `preprocess` fails exactly on an empty list (at `pre_obts[-1]`) or a list with a blank object (at `toks[0]`). |
| PatternPreprocess.PreObtsBlankIff | src/generators/pattern_generator.py:97-99 | Building `pre_obts` fails exactly when some object is blank. |
| PatternPreprocess.PreprocessShape | src/generators/pattern_generator.py:105 | A result is the ", "-join of all but the last processed object, then " and ", then the last, and each entry is that object's processing. |
| PatternPreprocess.SingleObject | src/generators/pattern_generator.py:105 | A single object comes out as " and X", with a leading " and ". |
| PatternPreprocess.ObjectTokens | src/generators/pattern_generator.py:98-104 | A processed object's tokens are the object's tokens minus one leading "to", with "personx" replaced. No "personx" survives, and runs of whitespace collapse to single spaces. |
| PatternPreprocess.OneToRemoved | src/generators/pattern_generator.py:99-100 | At most one leading "to" is removed. |
| SentimentPreprocess.PreprocessTextLoop | src/max/commonsense_builders/sentiment_analyser.py:18-30 | The loop that appends to `processed_tokens` computes `PreprocessText`. |
| SentimentPreprocess.TokensPreserved | src/max/commonsense_builders/sentiment_analyser.py:22-30 | The output's space-separated tokens are the input's whitespace-separated tokens, one for one and in order, each normalised. |
| SentimentPreprocess.NormalisedCases | src/max/commonsense_builders/sentiment_analyser.py:24-29 | "@" + something becomes "@user", and a bare "@" is kept. A non-handle starting with "http" becomes "http". Every other token is unchanged. |
| SentimentPreprocess.HandleBeforeLink | src/max/commonsense_builders/sentiment_analyser.py:24-27 | The "@" test comes first: "@http" becomes "@user". |
| SentimentPreprocess.NormalisedIdempotent | src/max/commonsense_builders/sentiment_analyser.py:24-29 | A normalised token normalises to itself ("@user" and "http" are fixed points). |
| SentimentPreprocess.PreprocessTextIdempotent | src/max/commonsense_builders/sentiment_analyser.py:18-30 | `preprocess_text` is idempotent. |
| Text.StripEmptyIffBlank | src/max/commonsense_builders/comet_builder.py:162 | `len(obt.strip()) > 0` holds exactly for strings that are not whitespace-only. |
| Text.SplitEmptyIffBlank | src/generators/pattern_generator.py:98-99 | `str.split()` yields no token exactly for whitespace-only strings, the ones where `toks[0]` raises. |

## Left out

- Part-of-speech tagging (spaCy), including the tokenizer-rule hack. It is an external model. The extractors take already tagged tokens (`Patterns.Token`: text, lemma, coarse and fine tag). `preproc_obt` takes the tagger as a function `CometPreproc.Analyser`. That function is assumed to return at least one token for a non-blank text (`CometPreproc.Doc`), which is the only case in which `preproc_obt` calls it.
- Inflection (lemminflect, pyinflect). It is an external library. Both extractors take it as a function `Expectations.Inflector` from (lemma, tag) to the first form, or None.
- LegacyExpectations.CurrentExtends: compares the two extractors given the same antonym table and inflector. The scripts load different resources: the first loads the unstripped `antonyms.txt` table and pyinflect, and the current one loads the stripped `antonyms.tsv` table and lemminflect. The lemma therefore says nothing about how those resources differ; `LegacyExpectations.PluralPresentOnlyCurrent` is stated under the same assumption.
- Sentiment classification (`get_sentiment`, `get_sentiment_dist`, the transformer, softmax and the label download). It is an external model. It is a function `CometOverlap.Sentiment` from a generated sentence (relation template and joined objects) to its label. The classifier is only ever asked about `gen_sentence` outputs, so any text classifier composed with `CometObjects.Render` is such a function. The properties proved for every such function therefore hold for the real classifier.
- The stop-word list. It is the tagger's data. It is a parameter `stop`, with `CometObjects.StopWords` adding "stay".
- Reading `antonyms.tsv` and `antonyms.txt`, and `default()` path building. This is file I/O. The current table takes the rows as (word field, antonym field) pairs, so rows with a missing or extra tab-separated field (which `csv.DictReader` maps to None or folds away) are not modelled. The legacy table takes the file's lines.
- COMET loading and inference, `build_comet_commonsense` and `build_commonsense` of the current builder. These are foreign code. The dictionaries `remove_comet_overlap` receives are keyed by `Relations.Relation`, the six `valid_relation_types` that `build_comet_commonsense` filters the generator output to. For the first builder, the generator output is given as the sequence of (relation, beams) pairs in key order, and its result is the two-field datatype `LegacyBuilder.Inferences`, so it always has exactly the two keys.
- The accumulators `in_acc`/`exp_acc` are Python sets but are modelled as sequences. `obt_in` only asks whether some member resembles an object, so order and repetition do not matter.
- `generate_response`, the response generator under `src/max`, the random strategy selector, `src/main.py`, `src/max/sarcasm_generator.py`, `src/max/types.py` and the mock builder are not part of this model. They are random templating, CLI and logging glue, or not valid Python.
- Logging and the `__main__` demonstration blocks.

## Findings

| source | as written | input that shows it | evidently intended | confidence | as-written member | corrected member |
|---|---|---|---|---|---|---|
| src/max/expectation_extractors/pattern_negation_extractor.py:276 | `zip(sp_obt[1:], pattern)` stops at the shorter list, so a sentence shorter than the pattern matches on a prefix of it. The first pattern then fires on a three-token event, and `_match_aux_not_verb` reads `sp_obt[3]` and raises IndexError. | the tagged event "Ben did not" (Ben PROPN NNP, did AUX VBD, not PART RB) | a pattern matches only when every slot meets a token; such an event matches no pattern and yields no expectations | medium, not executed | Expectations.ShortNegatedEventRaises | Expectations.StrictDecidingPattern |

The as-written behaviour is `Expectations.ExtractExpectations`. Its crash is
characterised exactly by `Expectations.RaisesIffShortAuxNotVerb`. The
corrected extractor is `Expectations.ExtractExpectationsStrict`, built on
`Expectations.StrictDecidingPattern`, whose contract guarantees that every
decided pattern has the tokens its generator reads. On "Ben did not" it
returns no expectations (`Expectations.ShortNegatedEventStrict`).
`Expectations.StrictAgreesWhereDefined` proves that it returns the same
expectations wherever the code as written does not raise. For that reason
the example lemmas and the comparison with the first extractor are stated
about the code as written. The first extractor has the same `zip` and the
same crash (`LegacyExpectations.LegacyErrors`).
