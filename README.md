# N-gram language model, modelled in Dafny

This project models the n-gram engine of a small Python language-model
project that is trained on an XML text corpus. It has five parts.

- **Counting** (`frequency_counts.dfy`, `frequency_counts_part1.dfy`): `handle_sentence` and
  `handle_sentence_unk` pad a sentence's words with `n` start markers `<s>`
  and one end marker `</s>`. They slide a window of width `n` over the
  padded list and increment, in the caller's `defaultdict(int)`, the count
  of each window's space-joined key. `_unk` rewrites unknown tokens to `<UNK>`
  as it walks. The revision in `src/dataset_functions.py:57-101` is the same
  code as `src/frequency_counts.py:26-71`, except that the latter prints
  `set UNK` at line 66, and both are modelled by the same members. The older revision of `src/part1/frequency_counts.py` has its
  own module.
- **Probability tables** (`vanilla.dfy`, `laplace.dfy`): `VanillaLM` fills
  maximum-likelihood tables. `LaplaceLM` fills add-one tables and mixes the
  three orders by linear interpolation with weights 0.1, 0.3 and 0.6. Both
  classes fill their tables in place, and their lookups insert a missing
  key like a `defaultdict` does. Probabilities are `real` numbers, and count
  tables are maps from n-grams to natural numbers.
- **Text generation** (`generator.dfy`, `greedy_generator.dfy`):
  - The roulette-wheel `text_generator` of `LanguageModel`. It takes at most
    100 draws, and `</s>` is forced at the end.
  - The older greedy `text_generator`, which always appends the most
    probable continuation.

  Both are loops over a word list and a two-word context. Each is also
  specified by a recursive function whose properties are proved.
- **Normalising text** (`text.dfy`): `_remove_punctuation`, ASCII
  lower-casing, Python's `str.split()` and `" ".join`.
- **Dataset splitting** (`splitting.dfy`): `split_and_append_elements` in
  its three revisions.
  - Train/test 80/20 into caller lists.
  - Train/validation/test 70/20/rest into caller lists.
  - 70/20/rest into module-level lists.

  The lists are objects that are shuffled and extended in place.

Inputs that Python takes from the environment are parameters here:

- **Random numbers.** `random.random()` is replaced by a function
  `draws: nat -> real`, where draw `i` feeds iteration `i`.
- **Shuffling.** `random.shuffle` is replaced by the shuffled list, which
  the caller supplies and must be a permutation of the input.
- **Dict iteration order.** The iteration order of `tri_probabilities` is
  a sequence of `(key, value)` entries.
- **Sentence text.** What `retrieve_text` returns is given as a string.

The generators return the word list they would print.

## Model

| member | source | states |
|---|---|---|
| Text.Split | src/language_model_ABC.py:123 | `str.split()` yields only non-empty pieces without whitespace |
| Text.SplitAppend | src/frequency_counts.py:39-40 | splitting two texts joined by a space gives the words of the first followed by the words of the second |
| Text.SplitToken | src/frequency_counts.py:39-40 | a single token such as `<s>` or `</s>` splits into itself |
| Text.SplitJoin | src/frequency_counts.py:45 | splitting the space-join of tokens gives back exactly those tokens |
| Text.SplitEmptyIffBlank | src/frequency_counts.py:38 | a text splits into no words exactly when it is whitespace only, the `strip() != ""` test |
| Text.RemovePunctuation | src/language_model_ABC.py:110-113 | the result is no longer than the input and contains no punctuation character other than `'` |
| Text.RemovePunctuationCounts | src/language_model_ABC.py:110-113 | each of the 31 deleted characters occurs 0 times afterwards, and every other character as often as before |
| Text.RemovePunctuationAppend | src/language_model_ABC.py:111 | deletion works character by character, so it distributes over concatenation |
| Text.RemovePunctuationKeeps | src/language_model_ABC.py:111 | a text without punctuation is returned unchanged |
| Text.RemovePunctuationIdempotent | src/language_model.py:51-54 | removing punctuation twice is the same as removing it once |
| Text.Lower | src/language_model_ABC.py:123 | lower-casing maps each character and keeps the length |
| Text.LowerKeepsClasses | src/language_model_ABC.py:122-123 | lower-casing changes no character's whitespace or punctuation class |
| Text.LowerKeepsBlank | src/language_model_ABC.py:122-123 | a phrase is blank after lower-casing exactly when it was blank before |
| Tables.Increment | src/frequency_counts.py:46 | `counts[k] += 1` on a `defaultdict(int)` adds `k` if absent, raises its count by one and leaves every other count alone |
| Tables.AddAllGet | src/frequency_counts.py:41-46 | after a run of increments each key's count has grown by the number of times it was incremented |
| Tables.AddAllKeys | src/frequency_counts.py:41-46 | after a run of increments the keys are the old keys plus the incremented ones |
| Tables.IncrementTotal | src/frequency_counts.py:46 | one increment raises the total of all counts by one |
| Tables.AddAllTotal | src/frequency_counts.py:41-46 | a run of increments raises the total by its length |
| Tables.SumValues | src/vanilla.py:28 | the loop for `sum(uni_count.values())` returns the total of all counts |
| Tables.SumOverAddOne | src/laplace.py:13-14 | adding one to each of `V` counts raises their sum by `V` |
| FrequencyCounts.Counter.constructor | src/dataset_functions.py:22 | a fresh `defaultdict(int)` holds no counts |
| FrequencyCounts.Counter.Increment | src/frequency_counts.py:46 | the new table is the old one with `key` incremented |
| FrequencyCounts.WindowKeys | src/frequency_counts.py:41 | there is one key per window: `len(words) - n + 1` of them, or none when that is negative |
| FrequencyCounts.WindowKeyAt | src/frequency_counts.py:42-45 | the key of window `i` is the join of `words[i:i + n]`, and for unigrams the word itself, so both branches of the `if` agree |
| FrequencyCounts.SplitPadded | src/frequency_counts.py:39-40 | splitting the padded text gives `n` start markers, the sentence's words and the end marker |
| FrequencyCounts.HandleSentence | src/frequency_counts.py:26-46 | a blank sentence leaves the counts unchanged; otherwise the counts are the old counts incremented once for each window key of the padded word list |
| FrequencyCounts.RewriteStep | src/frequency_counts.py:64-65 | one iteration rewrites exactly position `index`, if it holds an unknown token |
| FrequencyCounts.UnkWindowKeys | src/frequency_counts.py:63 | `_unk` counts as many windows as `handle_sentence` |
| FrequencyCounts.UnkKeyAt | src/frequency_counts.py:63-70 | the key counted in iteration `i` is read off the list as rewritten up to and including `i` |
| FrequencyCounts.HandleSentenceUnk | src/frequency_counts.py:48-71 | a blank sentence leaves the counts unchanged; otherwise the counts are incremented once for each key read off the partially rewritten list |
| FrequencyCounts.PaddedShape | src/frequency_counts.py:39-40 | the padded list has `n + k + 1` words: `n` start markers, then the `k` content words, then `</s>`, all of them tokens |
| FrequencyCounts.PaddedWindowCount | src/dataset_functions.py:70-72 | a sentence of `k` words makes `k + 2` increments whatever `n` is, in both variants and for any set of unknown tokens |
| FrequencyCounts.SentenceTotal | src/frequency_counts.py:39-46 | the total of all counts grows by `k + 2` for a sentence of `k` words, in both variants |
| FrequencyCounts.WindowKeySplit | src/frequency_counts.py:44-45 | splitting a counted key gives back exactly the window's words |
| FrequencyCounts.FirstAndLastWindow | src/frequency_counts.py:39-45 | the first key is `n` start markers and the last key ends in `</s>` |
| FrequencyCounts.UnkWindowWords | src/frequency_counts.py:63-71 | in every key `_unk` counts, the first word is not an unknown token (it is `<UNK>` if it was one) and each later word is spelled as read |
| FrequencyCounts.UnkUnigramsKnown | src/frequency_counts.py:64-68 | for unigrams no counted key is an unknown token |
| FrequencyCounts.UnkWithoutUnknownsIsPlain | src/dataset_functions.py:79-101 | with no unknown tokens `handle_sentence_unk` counts exactly the keys `handle_sentence` counts |
| FrequencyCountsPart1.SplitRetrieved | src/part1/frequency_counts.py:82-84 | the word list is one `<s>`, the sentence's words and one `</s>`, whatever `n` is |
| FrequencyCountsPart1.HandleSentence | src/part1/frequency_counts.py:74-90 | every sentence is counted, an empty one as `<s> </s>`, because the guard never fails; the counts grow by one increment for each window key |
| FrequencyCountsPart1.Part1Increments | src/part1/frequency_counts.py:84-85 | a sentence of `k` words makes `k + 3 - n` increments, or none when that is negative, and the total grows by as much |
| FrequencyCountsPart1.Part1Windows | src/part1/frequency_counts.py:82-89 | exactly one `<s>` precedes the content, and each key splits back into its window |
| Vanilla.VanillaLM.constructor | src/language_model_ABC.py:39-44 | the model starts with the given counts and empty probability tables |
| Vanilla.VanillaLM.GenerateUnigramProbs | src/vanilla.py:16-30 | every counted word gets its count divided by the total count, and no other entry changes |
| Vanilla.VanillaLM.GenerateBigramProbs | src/vanilla.py:32-47 | every counted bigram gets its count divided by its first word's count, and no other entry changes |
| Vanilla.VanillaLM.GenerateTrigramProbs | src/vanilla.py:49-65 | every counted trigram gets its count divided by its leading bigram's count, and no other entry changes |
| Vanilla.VanillaLM.GetBigramProbability | src/vanilla.py:67-68 | returns the stored value, or 0 for an absent bigram, which the lookup inserts with 0 |
| Vanilla.VanillaLM.GetTrigramProbability | src/vanilla.py:70-71 | returns the stored value, or 0 for an absent trigram, which the lookup inserts with 0 |
| Vanilla.UnigramTable | src/vanilla.py:28-30 | the unigram table has exactly the counted words as keys, and each value times the total count is the word's count |
| Vanilla.BigramTable | src/vanilla.py:45-47 | the bigram table has exactly the counted bigrams as keys, and each value times the first word's count is the bigram's count |
| Vanilla.TrigramTable | src/vanilla.py:62-65 | the trigram table has exactly the counted trigrams as keys, and each value times the leading bigram's count is the trigram's count |
| Vanilla.UnigramSumsToOne | src/vanilla.py:28-30 | the unigram probabilities sum to exactly 1 when some word is counted |
| Vanilla.UnigramInUnitInterval | src/vanilla.py:28-30 | each unigram probability lies in [0, 1] |
| Vanilla.ConditionalTablesNonNegative | src/vanilla.py:45-65 | bigram and trigram probabilities are non-negative, and zero exactly for a zero count |
| Vanilla.UnseenUnigramIsZeroCount | src/vanilla.py:13-14 | the value `_default_uni_value` gives an unseen word is exactly what the unigram formula gives that word counted 0; adding it with 0 leaves the total unchanged |
| Vanilla.UnseenBigramIsZeroCount | src/vanilla.py:67-68 | the 0.0 that `_get_bigram_probability` reads and inserts for an unseen bigram is exactly what the bigram formula gives that bigram counted 0 |
| Vanilla.UnseenTrigramIsZeroCount | src/vanilla.py:70-71 | the 0.0 that `_get_trigram_probability` reads and inserts for an unseen trigram is exactly what the trigram formula gives that trigram counted 0 |
| Laplace.AddOneBounds | src/laplace.py:13-14 | an add-one estimate is positive, and at most 1 when the count is below the denominator |
| Laplace.LaplaceUnigramTable | src/laplace.py:10-14 | the add-one unigram table has exactly the counted words as keys, and every value is positive |
| Laplace.LaplaceBigramTable | src/laplace.py:16-20 | when every first word is counted, the add-one bigram table has exactly the counted bigrams as keys, and every value is positive |
| Laplace.LaplaceTrigramTable | src/laplace.py:22-27 | the add-one trigram table has exactly the counted trigrams as keys, and every value is positive |
| Laplace.WithZeroPrefixes | src/laplace.py:23-27 | after the trigram loop's reads, `bi_count` holds its old keys and the leading bigram of every trigram; old counts are kept and every added key counts 0 |
| Laplace.Interpolation | src/laplace.py:29-42 | the weights 0.1, 0.3 and 0.6 form a convex combination: tables with values in [0, 1] give a result in [0, 1]; non-negative tables with positive trigram values give a positive result for every trigram, seen or unseen |
| Laplace.BigramTerm | src/laplace.py:32-35 | the fallback for an unseen bigram lies in (0, 1] |
| Laplace.TrigramTerm | src/laplace.py:37-40 | the fallback for an unseen trigram lies in (0, 1] |
| Laplace.DefaultUniValue | src/laplace.py:7-8 | the unseen-word value `1 / (total + V)` lies in (0, 1] |
| Laplace.LaplaceLM.constructor | src/language_model_ABC.py:39-44 | the model starts with the given counts and empty probability tables |
| Laplace.LaplaceLM.UniGramProb | src/laplace.py:10-14 | every counted word gets `(count + 1) / (total + V)`, and no other entry changes |
| Laplace.LaplaceLM.FillUnigramProbs | src/laplace.py:12-14 | the loop writes the add-one unigram table over the old table |
| Laplace.LaplaceLM.BiGramProb | src/laplace.py:16-20 | the loop over the bigrams in dict order leaves the counts and the bigram table that `BigramPass` computes: reading `uni_count[w1]` inserts an uncounted first word with 0 before `len(uni_count)` is read |
| Laplace.BigramPassCounts | src/laplace.py:16-20 | the bigram loop inserts exactly the uncounted first words into `uni_count`, each with 0, and keeps every other count |
| Laplace.BigramPassWrites | src/laplace.py:17-20 | the bigram loop writes an entry for every bigram it visits and changes no other entry |
| Laplace.BigramPassProbabilities | src/laplace.py:19-20 | every probability the bigram loop writes is positive, whatever `V` has grown to |
| Laplace.BigramPassCounted | src/laplace.py:16-20 | when every first word is counted, the loop over all bigrams leaves `uni_count` unchanged and merges exactly the add-one bigram table with `V = len(uni_count)` |
| Laplace.LaplaceLM.TriGramProb | src/laplace.py:22-27 | every counted trigram gets `(count + 1) / (count(w1 w2) + V)`; reading an uncounted leading bigram inserts it with 0 into `bi_count` |
| Laplace.LaplaceLM.FillTrigramProbs | src/laplace.py:23-27 | the loop writes the add-one trigram table and leaves `bi_count` with every leading bigram present |
| Laplace.LaplaceLM.FillTrigram | src/laplace.py:24-27 | one iteration inserts a missing leading bigram with 0 and stores one trigram's probability |
| Laplace.WithZeroPrefixesStep | src/laplace.py:25-27 | a read returns the counted value, or 0, and inserts the key with 0 only when it is absent |
| Laplace.LaplaceLM.LinearInterpolation | src/laplace.py:29-42 | returns the interpolation of the three tables with the bigram and trigram fallbacks; the only change is that the unigram table gains the last word with 0 if it was missing |
| Laplace.LaplaceUnigramSumsToOne | src/laplace.py:11-14 | the add-one unigram probabilities sum to exactly 1, because the numerators add up to `total + V` |
| Laplace.LaplaceUnigramInUnitInterval | src/laplace.py:11-14 | each add-one unigram probability lies in (0, 1] |
| Laplace.LaplaceInterpolationPositive | src/laplace.py:10-42 | on the state the three table passes leave (counts grown by the bigram pass, bigram counts grown by the trigram pass), the interpolation is strictly positive for every trigram |
| Laplace.DefaultUniValueAsWritten | src/laplace.py:7-8 | as written, the value `1 / total + V` exceeds 1 for every table with a positive total, so it is not a probability |
| Laplace.DefaultUniValueAsWrittenExample | src/laplace.py:7-8 | for one word counted once the value as written is 2, while the corrected value is 1/2 |
| Laplace.DefaultUniValueIsUnseenProbability | src/laplace.py:7-14 | the corrected default is the add-one probability of an uncounted word, and it is below the value as written |
| Generator.SeedWords | src/language_model_ABC.py:122-124 | the word list starts with `<s>` |
| Generator.SeedWordsEmpty | src/language_model_ABC.py:122-125 | the seed has no word beyond `<s>` exactly when the punctuation-free phrase is blank |
| Generator.Put | src/language_model_ABC.py:133 | `token_probabilities[t] = v` updates the value, appends a new key to the insertion order and leaves an existing key in its place |
| Generator.Candidates | src/language_model_ABC.py:129-134 | the built dict lists each of its keys exactly once in insertion order |
| Generator.CandidatesMeaning | src/language_model_ABC.py:131-133 | a token is a candidate exactly when some trigram continues the context with it, and its value comes from the last such trigram |
| Generator.CandidatesEmpty | src/language_model_ABC.py:131-136 | the dict is empty exactly when no trigram continues the context |
| Generator.CollectCandidates | src/language_model_ABC.py:129-134 | the inner loop builds that dict |
| Generator.SortByValueCorrect | src/language_model_ABC.py:141-142 | `sorted(..., key=item[1])` orders the candidates by ascending probability and keeps each one exactly once |
| Generator.Select | src/language_model_ABC.py:139-146 | the roulette choice over the whole list is the first position whose running sum exceeds the draw, or -1 when none does |
| Generator.NextChoice | src/language_model_ABC.py:139-148 | `word` keeps its old value when no running sum exceeds the draw, and otherwise becomes the token at the first position whose running sum does |
| Generator.SelectFrom | src/language_model_ABC.py:139-146 | the choice is the first position whose running sum exceeds the draw; if none does, no choice is made |
| Generator.RouletteSelect | src/language_model_ABC.py:139-146 | the roulette loop makes that choice |
| Generator.Finish | src/language_model_ABC.py:152-153 | the result ends in `</s>` and extends the words; `</s>` is appended only when it is not already last |
| Generator.Run | src/language_model_ABC.py:125-150 | the loop only appends: the words are a prefix of the result, and at most 100 - count words are added |
| Generator.RunStep | src/language_model_ABC.py:148-150 | one iteration appends the drawn word and continues from the new context |
| Generator.Sample | src/language_model_ABC.py:125-153 | output starts with the seed, ends in `</s>` and is at most 101 words longer than the seed |
| Generator.Generate | src/language_model_ABC.py:115-155 | the output starts with `<s>` and the normalised seed words, ends in `</s>`, and adds at most 101 words to the seed |
| Generator.ChooseNext | src/language_model_ABC.py:129-146 | it reports no candidates exactly when the `break` is taken; otherwise it returns the roulette outcome |
| Generator.SampleLoop | src/language_model_ABC.py:125-150 | the `while` loop computes `Run` from the seed |
| Generator.TextGenerator | src/language_model_ABC.py:115-155 | the whole method computes `Generate` |
| Generator.RankedMember | src/language_model_ABC.py:131-142 | every ranked item is a candidate with its stored probability, offered by some continuing trigram |
| Generator.RankedEmpty | src/language_model_ABC.py:131-136 | the ranked list is empty exactly when no trigram continues the context |
| Generator.RunBound | src/language_model_ABC.py:139-148 | once `word` is bound the loop cannot fail |
| Generator.SampleFails | src/language_model_ABC.py:135-148 | the unbound-name error happens exactly when the first iteration has candidates but its draw selects none |
| Generator.RunDrawn | src/language_model_ABC.py:139-149 | each appended word is a ranked candidate of the two words before it, or repeats the previous word when a draw selects nothing |
| Generator.DrawnOffered | src/language_model_ABC.py:131-133 | a ranked candidate is the last word of a trigram that continues its context |
| Generator.SampleWords | src/language_model_ABC.py:125-153 | every word after the seed, except the final `</s>`, continues its two-word context in some trigram, or repeats the word before it |
| Generator.FinishKeeps | src/language_model_ABC.py:152-153 | appending `</s>` keeps every earlier word in place |
| Generator.RunStops | src/language_model_ABC.py:128-136 | the loop ends with the last word `</s>` or `""`, with 100 words appended, or with a context no candidate continues |
| Generator.GenerateStops | src/language_model_ABC.py:128-136 | the same stop conditions, stated over the trigram entries |
| Generator.BlankPhrase | src/language_model_ABC.py:122-153 | a phrase without words generates exactly `<s> </s>` and draws nothing |
| GreedyGenerator.Best | src/language_model.py:63-68 | the chosen probability, starting from 0, is never negative |
| GreedyGenerator.BestMeaning | src/language_model.py:63-68 | the chosen probability bounds every continuing trigram's; at probability 0 the word is `""`; otherwise the word comes from the first trigram reaching the strict maximum |
| GreedyGenerator.BestEmpty | src/language_model.py:63-68 | probability 0 is chosen exactly when no continuing trigram has positive probability |
| GreedyGenerator.BestContinuation | src/language_model.py:63-68 | the inner `for` loop computes that best continuation |
| GreedyGenerator.GreedyRun | src/language_model.py:62-71 | the loop only appends, adds at most `fuel` words, and ends on `</s>` or `""` |
| GreedyGenerator.GreedyGenerate | src/language_model.py:57-62 | the output starts with the seed words |
| GreedyGenerator.GreedyLoop | src/language_model.py:60-71 | the `while` loop computes `GreedyRun` from the seed |
| GreedyGenerator.GreedyTextGenerator | src/language_model.py:56-74 | the whole method computes `GreedyGenerate` |
| GreedyGenerator.GreedyRunFuel | src/language_model.py:62 | more fuel never changes a result that was reached |
| GreedyGenerator.GreedyRunChosen | src/language_model.py:62-71 | every appended word is the best continuation of the two words before it |
| GreedyGenerator.GreedyWords | src/language_model.py:62-74 | each generated word after the seed is the best continuation of its context, and the last word is `</s>` or `""` |
| GreedyGenerator.GreedyBlankPhrase | src/language_model.py:57-60 | a phrase without words yields just `<s>` |
| GreedyGenerator.GreedyDeadEnd | src/language_model.py:63-71 | with no positive continuation, `""` is appended and the loop stops |
| Splitting.ElementList.Extend | src/dataset_splitting.py:35-36 | `extend` keeps the old contents as a prefix and appends the part |
| Splitting.ElementList.Shuffle | src/dataset_splitting.py:31 | the shuffled list is a permutation of the list |
| Splitting.TrainSize80 | src/dataset_splitting.py:29 | `int(n * 0.8)` is four fifths of `n` rounded down, at most `n` |
| Splitting.TrainSize70 | src/splitting.py:23 | `int(n * 0.7)` is seven tenths of `n` rounded down |
| Splitting.ValidationSize20 | src/splitting.py:24 | `int(n * 0.2)` is two tenths of `n` rounded down |
| Splitting.ThreeWaySizes | src/splitting.py:22-29 | training and validation never exceed the list, and the test part holds at least a tenth of it |
| Splitting.Partition80 | src/dataset_functions.py:164-169 | the two parts concatenate to the shuffled list, the first holding `floor(4n/5)` elements; nothing is lost or duplicated |
| Splitting.Partition70 | src/splitting.py:22-29 | the three parts concatenate to the shuffled list, with sizes `floor(7n/10)` and `floor(2n/10)` and the rest; nothing is lost or duplicated |
| Splitting.SplitTrainTest | src/dataset_splitting.py:14-36 | the input ends shuffled, and each caller list keeps its old contents followed by its part |
| Splitting.SplitTrainValidationTest | src/splitting.py:11-33 | the input ends shuffled, and each of the three caller lists keeps its old contents followed by its part |
| Splitting.PartsSnoc | src/part2/splitting.py:35-37 | one more call appends its part to the end of each global list |
| Splitting.PartsCover | src/part2/splitting.py:11-37 | over all calls, the three global lists together hold every shuffled element exactly once |
| Splitting.GlobalSplits.constructor | src/part2/splitting.py:11-13 | the three module-level lists start empty |
| Splitting.GlobalSplits.SplitAndAppend | src/part2/splitting.py:15-37 | each global list is the concatenation, in call order, of its part from every call, and its old contents are kept |

## Left out

- XML traversal and text extraction (`traverse_tree`, `retrieve_text`): the sentence text is a parameter. Lower-casing inside `retrieve_text` is not modelled.
- File, JSON and directory I/O (`frequency_counts`, `generate_corpus_counts`, `splitting_datasets`, `write_xml_from_elements`, the scripts in `main.py`, `test.py` and at the ends of the modules), and every `print`: `print("set UNK")` in `frequency_counts.py`, the printed context in the greedy generator, and the final printing of the words. The generators return the words instead.
- `unk.py`: it only loads, saves and calls `handle_sentence`.
- `model_perplexity`: it uses floating-point powers, and the sentence-probability methods it calls are not part of this model.
- `sentence_probability`: it is abstract and has no implementation.
- Class wiring:
  - The abstract method names of `LanguageModel` do not match those of `VanillaLM`.
  - `LaplaceLM` has no `_get_counts`.
  - `__init__` loads counts from files.

  The classes here take their counts in the constructor, and each table-filling method is a separate call.
- The string/tuple key mismatch. The probability code reads the count tables with word tuples, and once with a space-joined string (`laplace.py:19, 26, 39`), while the counting code stores strings. Bigram and trigram tables here are keyed by word sequences, so every read finds the counted n-gram. `WindowKeySplit` shows that splitting a stored key gives back its words. Python's `KeyError`, or the dict growing during iteration, is not modelled.
- Floating point: probabilities are exact reals, not IEEE doubles.
- Splitting.TrainSize70: the product `n * 0.7` is exact here. In binary floating point `int(n * 0.7)` is one less than `floor(7n/10)` for some `n`; for example `90 * 0.7` evaluates to `62.99999999999999`. `int(n * 0.8)` and `int(n * 0.2)` do not suffer from this.
- `str.lower` is modelled only for ASCII letters. Other characters are kept as they are, with no Unicode case mapping.
- Randomness: `random.random()` becomes the `draws` parameter and `random.shuffle` becomes the `shuffled` parameter. `random.seed(42)` is not modelled.
- Dict iteration order: `tri_probabilities.items()` is an explicit sequence of entries. Python keeps insertion order, but the order in which the tables were filled is not followed through from the counting code.
- GreedyGenerator.GreedyRun: the source loop has no bound and may run forever on a cycle of contexts. Here it takes a `fuel` argument and returns `None` when the fuel runs out. `GreedyRunFuel` shows that fuel never changes a result that was reached.
- Generator.SortByValueCorrect: states sortedness and permutation but not stability. `sorted` is stable, and `SortByValue`, an insertion sort that places each item after equal values, is stable by construction, but no lemma states it.
- Vanilla.VanillaLM.GenerateUnigramProbs: requires the total count to be positive when any word is counted. A table whose counts are all 0 makes the source raise `ZeroDivisionError` (`vanilla.py:30`), which is not modelled.
- Vanilla.VanillaLM.GenerateBigramProbs: requires every bigram to have a first word with a positive count. Otherwise the source raises `ZeroDivisionError` (`vanilla.py:47`), or `IndexError` for a key without words, which is not modelled.
- Vanilla.VanillaLM.GenerateTrigramProbs: requires every trigram to have two leading words whose bigram has a positive count. Otherwise the source raises `ZeroDivisionError` (`vanilla.py:64-65`), or an index or key error, which is not modelled.
- Laplace.LaplaceLM.BiGramProb: requires every bigram key to have a first word. `words[0]` on a key without words raises `IndexError` (`laplace.py:20`), which is not modelled. The dict's iteration order is the `order` argument.
- Laplace.LaplaceLM.TriGramProb: requires every trigram to have two leading words and a non-zero denominator. With an empty `uni_count` and a leading bigram counted 0 the source raises `ZeroDivisionError` (`laplace.py:27`), which is not modelled.
- Laplace.DefaultUniValueAsWritten: requires a positive total. With an empty or all-zero `uni_count` the source raises `ZeroDivisionError` (`laplace.py:8`), which is not modelled.
- Laplace.LaplaceLM.LinearInterpolation: requires a non-empty trigram and a non-zero trigram fallback denominator. With an empty `uni_count` and a leading bigram present with count 0 the source raises `ZeroDivisionError` (`laplace.py:39-40`), which is not modelled. The bigram fallback never divides by zero, because `uni_count.get(w1, 1)` is 1 when `uni_count` is empty.
- FrequencyCounts.HandleSentenceUnk: requires `n >= 1`. With `n == 0` the Python loop indexes `words[len(words)]` and raises `IndexError`, which is not modelled.
- Splitting.SplitTrainTest: requires the three lists to be distinct objects. Python allows them to be aliases, which is not modelled.
- Splitting.SplitTrainValidationTest: requires the four lists to be distinct objects. Python allows them to be aliases, which is not modelled.

## Findings

| source | as written | input that shows it | evidently intended | confidence | as-written member | corrected member |
|---|---|---|---|---|---|---|
| src/laplace.py:7-8 | `1 / sum(counts) + len(counts)`: operator precedence divides first, then adds the vocabulary size | any non-empty count table, e.g. one word counted once: `1/1 + 1 = 2` | `1 / (sum(counts) + len(counts))`, the add-one probability of an unseen word | not executed | Laplace.DefaultUniValueAsWritten, with Laplace.DefaultUniValueAsWrittenExample | Laplace.DefaultUniValue, with Laplace.DefaultUniValueIsUnseenProbability |
