# LangDetect in Dafny

A verified model of LangDetect, a language identifier after Cavnar and
Trenkle's "N-Gram-Based Text Categorization". The tokenizer cuts a text into
runs of letters. It lower-cases and pads each token with one space on either
side, then submits every window of 1 to 5 characters that is not blank to a
frequency profile. Finalizing a profile sorts its n-grams by descending count
and keeps the 300 most frequent. Each of those gets its rank. The distance
between two finalized profiles is the out-of-place measure: over the query's
ranked n-grams, the sum of the rank differences, with 300 for each n-gram the
other profile lacks. The detector measures the query against every language
profile, sorts the distances stably and answers with the closest language. It
also reports the three best matches.

The model has one module per source class, plus two supporting modules:

| file | module | source |
|---|---|---|
| `wrappers.dfy` | `Wrappers` | the exceptions of the source, as error values |
| `ngram.dfy` | `NGrams` | `src/langdetect/NGram.java` |
| `sorting.dfy` | `Sorting` | `Collections.sort`, a stable sort by a key |
| `profile.dfy` | `Profiles` | `src/langdetect/Profile.java` |
| `tokenizer.dfy` | `Tokenizers` | `src/langdetect/Tokenizer.java` |
| `tokenizer_examples.dfy` | `TokenizerExamples` | `test/langdetect/TokenizerTest.java` |
| `langdetect.dfy` | `LangDetects` | `src/langdetect/LangDetect.java` |

Objects whose fields the source updates in place are classes:

- `NGram` holds a gram, its count and its rank.
- `Profile` holds its map from gram to record, its ranked list and its finalized flag.
- `Tokenizer` holds its length bounds.
- `LangDetect` holds its language profiles.

Their methods state the new state in terms of specification functions:

- `Profile.Counts()` is the map from each gram to its count.
- `Profile.Entries()` is the ranked list as (gram, count) values.
- `Tally` gives the counts after a sequence of submissions.
- `Ranking` gives the ranked list that finalizing produces.
- `OutOfPlace` is the measure.
- `SortBy` is a stable insertion sort that stands for `Collections.sort`.

The properties are then proved about those functions:

- the sort permutes, orders and is stable;
- the measure is bounded, disjoint profiles are at maximal distance, and a ranking is at distance 0 from itself;
- the tokens of a text are exactly its maximal runs of letters, and n-grams are windows of the padded token, never blank;
- the counts of a profile are exactly the multiplicities of the submitted n-grams;
- the detector's answer has the least distance.

`Profile.Valid()` is the invariant every method keeps. In both phases, each
map key is its record's gram, which is not empty, and every count is at least 1.

- While the profile accumulates, the list is empty and every record's rank is -1.
- Once it is finalized, the map and the list hold the same records, each record's
  rank is its index in the list, the list is sorted by descending count, and it
  holds at most 300 records.

The source throws `IllegalStateException` and `IllegalArgumentException`. With a
negative n-gram length, `token.substring(pos, pos + len)` also throws a
`StringIndexOutOfBoundsException` (src/langdetect/Tokenizer.java:116). The model
returns `Failure(e)` or `Fail(e)` for each of these under the same conditions.
`Fail(NegativeLength)` stands for the `StringIndexOutOfBoundsException`.

### Where the tests and the code disagree

- Finalizing a profile that holds no n-grams does not throw, so computing the profile of an empty text succeeds. `ProfileTest.cannotBeFinalized` (test/langdetect/ProfileTest.java:65-77, through a `setFinalized` the profile class does not define) and `TokenizerTest.shouldFailDueToNoNGrams` (test/langdetect/TokenizerTest.java:25-38) expect an exception here, and so does the comment at src/langdetect/LangDetect.java:103. The model follows the code:
  - `Profiles.Profile.Finalize` succeeds on an empty profile.
  - `LangDetects.EmptyQueryPicksFirst` proves the consequence: an empty query is at distance 0 from every language, and the first language profile wins.
- Among n-grams with equal counts, the rank follows the iteration order of the `HashMap`, which is not insertion order. The model leaves that order open. `Finalize` returns a ghost `order`, which is any enumeration of the counts, and the ranking is the stable sort of that enumeration.

## Model

| member | source | states |
|---|---|---|
| NGrams.CompareCounts | src/langdetect/NGram.java:101-114 | the comparator is -1 exactly when this count is larger, 1 exactly when it is smaller, 0 exactly when they are equal |
| NGrams.CompareCountsIsTotalPreorder | src/langdetect/NGram.java:101-114 | the comparator is antisymmetric, total and transitive, and orders exactly as the descending-count key the sort uses |
| NGrams.NGram.constructor | src/langdetect/NGram.java:34-43 | a new record holds its gram, has been seen once and has no rank (-1) |
| NGrams.NGram.Create | src/langdetect/NGram.java:34-43 | construction fails with InvalidGram exactly when the gram is empty; otherwise it yields a fresh record with count 1 and rank -1 |
| NGrams.NGram.IncCount | src/langdetect/NGram.java:65-67 | the count goes up by one, the result is the new count, and the rank is kept |
| NGrams.NGram.SetPos | src/langdetect/NGram.java:82-84 | the rank becomes the argument and the count is kept |
| NGrams.NGram.CompareTo | src/langdetect/NGram.java:101-114 | a missing other record compares as -1; otherwise larger counts compare first and equal counts compare 0 |
| Sorting.SortByPermutes | src/langdetect/Profile.java:108-109 | the sort's output is a permutation of its input |
| Sorting.SortBySorted | src/langdetect/Profile.java:108-109 | the sort's output is ordered by the key |
| Sorting.SortByStable | src/langdetect/Profile.java:108-109 | elements with equal keys keep their input order, as `Collections.sort` guarantees |
| Sorting.SortedStableUnique | src/langdetect/Profile.java:108-109 | any two sequences that are both sorted and stable with respect to one input are equal, so the stable sort is unique |
| Sorting.SortByUnique | src/langdetect/LangDetect.java:193 | any sorted arrangement that is stable for the input is exactly what the sort returns |
| Sorting.SortByHeadIsLeast | src/langdetect/LangDetect.java:193-204 | the first element of the sorted sequence comes from the input and has a key no larger than any input element |
| Sorting.DistinctOccursOnce | src/langdetect/Profile.java:108-128 | in a list of records without duplicates, every record occurs at most once |
| Sorting.PermutationKeepsDistinct | src/langdetect/Profile.java:108-109 | sorting a list of distinct records yields distinct records |
| Profiles.CutOff | src/langdetect/Profile.java:124-128 | the ranked list is the first 300 elements, or all of them when there are fewer |
| Profiles.IndexOf | src/langdetect/Profile.java:113-121 | the rank of a gram is the index of its first occurrence in the ranked list |
| Profiles.OutOfPlaceBounds | src/langdetect/Profile.java:149-168 | for rankings of at most 300 n-grams, the measure lies between 0 and 300 times the length of this ranking |
| Profiles.OutOfPlaceDisjoint | src/langdetect/Profile.java:162-165 | when no ranked n-gram occurs in the other ranking, every n-gram costs maxOoP and the measure is 300 times their number |
| Profiles.OutOfPlacePrefix | src/langdetect/Profile.java:156-166 | a ranking that is a prefix of the other ranking is at distance 0 from it |
| Profiles.OutOfPlaceNonNegative | src/langdetect/Profile.java:156-166 | the measure is never negative, since every term is an absolute difference or 300 |
| Profiles.OutOfPlaceZero | src/langdetect/Profile.java:156-166 | conversely, a ranking at distance 0 from another is a prefix of it: each n-gram sits at its own rank in the other ranking |
| Profiles.OutOfPlaceZeroIff | src/langdetect/Profile.java:156-166 | against a ranking without duplicates, the measure is 0 if and only if the first ranking is a prefix of it |
| Profiles.OutOfPlaceSelf | src/langdetect/Profile.java:156-166 | every ranking without duplicates is at distance 0 from itself |
| Profiles.Profile.constructor | src/langdetect/Profile.java:52-57 | a new profile is valid and not finalized, has the given name, and holds no n-grams |
| Profiles.Profile.RankedLookup | src/langdetect/Profile.java:113-130 | in a finalized profile the map holds exactly the ranked n-grams, and each record's rank is its index in the ranked list |
| Profiles.Profile.SortedEntries | src/langdetect/Profile.java:108-109 | the ranked list of a finalized profile is in descending count order |
| Profiles.Profile.Bounded | src/langdetect/Profile.java:113-128 | a finalized profile keeps at most 300 n-grams |
| Profiles.Profile.AddNGram | src/langdetect/Profile.java:77-93 | it fails with AlreadyFinalized on a finalized profile and with InvalidGram on an empty gram, changing nothing; otherwise the gram's count goes up by one, or starts at 1, the new count is returned and every other count is kept |
| Profiles.Profile.Values | src/langdetect/Profile.java:108 | it lists every record of the map exactly once, each under its own gram with its count |
| Profiles.Profile.Finalize | src/langdetect/Profile.java:102-131 | it is idempotent on a finalized profile; otherwise the ranked list is the first 300 of the stable descending-count sort of an enumeration of the counts, the profile becomes finalized and valid, and the kept n-grams keep their counts |
| Profiles.Profile.PrepareRanking | src/langdetect/Profile.java:108-109 | sorting the map's records yields distinct, unranked records in descending count order, whose values are the sort of the enumeration |
| Profiles.Profile.AssignRanks | src/langdetect/Profile.java:113-121 | the record at sorted position i gets rank i when i is below 300 and is otherwise removed from the map |
| Profiles.Profile.Freeze | src/langdetect/Profile.java:124-130 | the ranked list becomes the first 300 sorted records, the profile becomes finalized, and the invariant holds again |
| Profiles.Profile.FinalizedValid | src/langdetect/Profile.java:113-130 | ranking the sorted records and cutting the list off at 300 re-establishes the profile invariant |
| Profiles.Profile.PenaltyStep | src/langdetect/Profile.java:157-165 | one step of the measuring loop adds the rank difference, looked up through the other map, or maxOoP when the gram is missing, and this is exactly the next term of the measure |
| Profiles.Profile.MeasureFacts | src/langdetect/Profile.java:149-168 | for two finalized profiles, the measure of their rankings lies between 0 and 300 times the number of ranked n-grams, and is 0 if and only if this profile's ranking is a prefix of the other's |
| Profiles.Profile.GetOutOfPlaceMeasure | src/langdetect/Profile.java:149-168 | it fails with NotFinalized exactly when either profile is not finalized; otherwise it returns the out-of-place measure of the two rankings, between 0 and 300 times the number of ranked n-grams, and that measure is 0 exactly when this profile's ranking is a prefix of the other's |
| Profiles.RankingGrams | src/langdetect/Profile.java:108-128 | every ranked n-gram comes from the counts, and the ranking keeps min(300, number of distinct n-grams) of them |
| Profiles.DisjointDistance | src/langdetect/Profile.java:149-168 | two profiles without a common n-gram are 300 times the length of the first ranking apart, and that length is min(300, number of distinct n-grams of the first profile) |
| Profiles.RankingOfThree | src/langdetect/Profile.java:102-131 | three n-grams with distinct counts are ranked by descending count, whatever the enumeration order |
| Profiles.CertainDistance | test/langdetect/ProfileTest.java:110-136 | the profile a:3 b:2 c:1 is at distance 4 from the profile a:1 b:3 c:2 |
| Profiles.MaxDistance | test/langdetect/ProfileTest.java:91-108 | the profile a:1 b:2 c:1 is at distance 3 x maxOoP from the profile d:1 |
| Profiles.ZeroDistance | test/langdetect/ProfileTest.java:80-89 | the profile a:1 is at distance 0 from itself |
| Tokenizers.SkipBlanks | src/langdetect/Tokenizer.java:140 | it finds the first character that is not whitespace, where `trim` treats every character up to the space as whitespace |
| Tokenizers.Trim | src/langdetect/Tokenizer.java:140 | the trimmed token is empty exactly when the token is blank; otherwise it starts and ends with a non-whitespace character |
| Tokenizers.TrimIsInfix | src/langdetect/Tokenizer.java:140 | the trimmed token sits inside the token between a blank prefix and a blank suffix |
| Tokenizers.TrimKeeps | src/langdetect/Tokenizer.java:140 | trimming leaves a token alone when it starts and ends with a non-whitespace character |
| Tokenizers.LowerCaseAt | src/langdetect/Tokenizer.java:140 | lower-casing maps every character through the platform's lower-casing and keeps the length |
| Tokenizers.PrepareToken | src/langdetect/Tokenizer.java:137-149 | the token is dropped (null) exactly when it is blank after trimming |
| Tokenizers.PrepareTokenShape | src/langdetect/Tokenizer.java:137-149 | a prepared token is the trimmed token lower-cased twice, with one space on either side |
| Tokenizers.LetterRun | src/langdetect/Tokenizer.java:21 | a token is the longest run of letters at the head of the text |
| Tokenizers.Tokens | src/langdetect/Tokenizer.java:84-85 | every token of a text is a non-empty run of letters; InterleaveGaps and TokensOfInterleave show that they are exactly the maximal runs |
| Tokenizers.TokensOfGap | src/langdetect/Tokenizer.java:21 | non-letters in front of a text add no token and split none; a text without letters has no tokens |
| Tokenizers.TokensOfWordThen | src/langdetect/Tokenizer.java:21 | a run of letters that ends the text or is followed by a non-letter is one whole token |
| Tokenizers.TokensOfInterleave | src/langdetect/Tokenizer.java:84-85 | any text made of words separated by non-empty stretches of non-letters, with any non-letters before the first word and after the last, has exactly those words as its tokens |
| Tokenizers.Gaps | src/langdetect/Tokenizer.java:21 | the stretches around the tokens, one more than there are tokens, contain no letter; every inner stretch is non-empty, and so is the first when the text starts with a non-letter |
| Tokenizers.InterleaveGaps | src/langdetect/Tokenizer.java:84-85 | every text is its tokens interleaved with those stretches of non-letters, so no letter is dropped and no run is split or merged |
| Tokenizers.TokensOfWord | src/langdetect/Tokenizer.java:84-85 | a text that is one run of letters is one token |
| Tokenizers.TokensAfterWord | src/langdetect/Tokenizer.java:84-85 | a word followed by a delimiter is the first token and the scan continues after the delimiter |
| Tokenizers.TokensOfJoin | src/langdetect/Tokenizer.java:84-85 | words joined by a non-letter are cut back into exactly those words |
| Tokenizers.WindowsInOrder | src/langdetect/Tokenizer.java:113-122 | for one length, the submitted n-grams are all windows of that length in start order, with the blank ones dropped |
| Tokenizers.TokenGramsAreWindows | src/langdetect/Tokenizer.java:112-123 | every n-gram of a token is a substring of the prepared token whose length lies between the bounds and the token length, and is not blank |
| Tokenizers.NoBlankNGram | src/langdetect/Tokenizer.java:118-120 | no submitted n-gram is empty or blank |
| Tokenizers.NGramShape | src/langdetect/Tokenizer.java:102-149 | every submitted n-gram consists of letters, with the pad only as its first or last character |
| Tokenizers.TokensOutcomeMeaning | src/langdetect/Tokenizer.java:102-128 | collecting fails with NegativeLength exactly when a negative minimum that is not above the maximum meets a token that is not blank, and with AlreadyFinalized exactly when the profile is finalized and some n-gram is submitted |
| Tokenizers.TallyCounts | src/langdetect/Profile.java:77-93 | after a sequence of submissions, the keys are the old keys and the submitted grams, and each count grows by the number of times its gram was submitted |
| Tokenizers.TallyAppend | src/langdetect/Tokenizer.java:105-127 | submitting two sequences one after the other tallies as submitting their concatenation |
| Tokenizers.TallyKeys | src/langdetect/Profile.java:88-91 | starting from an empty profile, the grams present are exactly the distinct submitted n-grams |
| Tokenizers.Tokenizer.Default | src/langdetect/Tokenizer.java:26-36 | the default tokenizer makes n-grams of lengths 1 to 5 |
| Tokenizers.Tokenizer.constructor | src/langdetect/Tokenizer.java:45-48 | the tokenizer keeps the given minimum and maximum lengths |
| Tokenizers.Tokenizer.CollectWindows | src/langdetect/Tokenizer.java:113-122 | it submits the non-blank windows of one length in start order; the counts become their tally, and a finalized profile or a negative length fails without change |
| Tokenizers.Tokenizer.CollectTokenNGrams | src/langdetect/Tokenizer.java:112-123 | it submits the windows for every length from the minimum up to the maximum and the token length; the counts become their tally |
| Tokenizers.Tokenizer.CollectToken | src/langdetect/Tokenizer.java:108-125 | a blank token submits nothing; otherwise the prepared token's n-grams are tallied, and the outcome is the one the token's first submission decides |
| Tokenizers.Tokenizer.CollectTokens | src/langdetect/Tokenizer.java:105-127 | it submits the tokens in order and stops at the first failure, leaving the profile unchanged; on success the counts are the tally of all their n-grams |
| Tokenizers.Tokenizer.CollectNGrams | src/langdetect/Tokenizer.java:102-128 | for the text's letter runs, the counts become the tally of all n-grams; the two failures occur exactly under the conditions of TokensOutcomeMeaning and change nothing |
| Tokenizers.Tokenizer.ComputeProfile | src/langdetect/Tokenizer.java:57-93 | collecting then finalizing leaves a finalized profile that ranks the first 300 of the sorted tally of the text's n-grams, and holds as many n-grams as the tally has keys, at most 300; on a profile that was already finalized, a text with no n-grams passes and leaves the ranked list and the counts as they were |
| TokenizerExamples.SingleLetter | test/langdetect/TokenizerTest.java:40-49 | the text "a" gives the 4 n-grams a, " a", "a " and " a " |
| TokenizerExamples.CaseFolding | test/langdetect/TokenizerTest.java:51-60 | the text "a A a" gives the same 4 n-grams, since upper case folds to lower case |
| TokenizerExamples.TwoWords | test/langdetect/TokenizerTest.java:62-74 | the text "Hi you" gives 21 distinct n-grams |
| TokenizerExamples.SymbolsOnly | test/langdetect/TokenizerTest.java:76-85 | the text ")! 2190 $%" has no tokens when none of its characters is a letter |
| TokenizerExamples.IgnoresNonLetters | test/langdetect/TokenizerTest.java:76-85 | the text "a )! 2190 $%" gives the same 4 n-grams as "a" |
| LangDetects.Int32 | src/langdetect/LangDetect.java:217-221 | Java int arithmetic lands in the 32-bit range, is congruent to the exact result modulo 2^32, and leaves values already in range unchanged |
| LangDetects.CompareToOrders | src/langdetect/LangDetect.java:220-222 | for measures between 0 and 300 x 300, compareTo's sign is exactly the order of the two measures |
| LangDetects.MeasureInRange | src/langdetect/Profile.java:149-168 | the measure of two finalized profiles lies between 0 and 300 x 300 |
| LangDetects.CompareToRanks | src/langdetect/LangDetect.java:220-222 | on the distances of finalized profiles, compareTo is negative or zero exactly when the measures are less or equal, so the ranking sorted by measure is in compareTo order |
| LangDetects.CompareToWraps | src/langdetect/LangDetect.java:220-222 | for any two Java int measures, compareTo has the sign of their difference exactly when the difference fits in 32 bits; otherwise the subtraction wraps and the sign is reversed |
| LangDetects.Distances | src/langdetect/LangDetect.java:184-190 | one entry per language profile, in collection order, holding that profile and its measure against the query |
| LangDetects.RankedFacts | src/langdetect/LangDetect.java:193 | the ranking is a permutation of the distances, ordered by measure, and keeps ties in collection order |
| LangDetects.RankedBest | src/langdetect/LangDetect.java:193-204 | the first ranked entry is a language profile with its own measure, and no language profile is closer to the query |
| LangDetects.EmptyQueryPicksFirst | src/langdetect/LangDetect.java:181-205 | a query without n-grams is at distance 0 from every language, so the first language profile is the answer |
| LangDetects.LangDetect.constructor | src/langdetect/LangDetect.java:47-61 | the detector holds the given non-empty language profiles |
| LangDetects.LangDetect.Create | src/langdetect/LangDetect.java:57-58 | it fails with NoTrainingData exactly when there are no language profiles |
| LangDetects.LangDetect.MeasureAll | src/langdetect/LangDetect.java:184-190 | it fails with NotFinalized exactly when the query or some language profile is not finalized; otherwise it returns every profile's measure, in collection order |
| LangDetects.LangDetect.FindBestProfile | src/langdetect/LangDetect.java:181-205 | it fails exactly when a profile is not finalized; otherwise it returns the stable ranking by measure, a language profile no other is closer than, and the first min(3, n) ranked entries as the report |

## Left out

- Reading training files, the console query session, `main` and `initProfiles` (src/langdetect/LangDetect.java:47-172) are input and output. The detector is built from given, finalized profiles. The `Tokenizer` field the constructor creates is not part of this model.
- Printing the best matches (src/langdetect/LangDetect.java:197-202) is output. The entries that would be printed are returned as `report`.
- `java.util.Scanner` with the delimiter `[^\p{L}]+` is modelled by `Tokens`, which splits a text into maximal runs of letters. Unicode's letter class and `toLowerCase` are parameters: `isLetter` and `lower`. The example lemmas state what they need of those two as preconditions on single characters.
- `HashMap` iteration order is modelled as an arbitrary enumeration of the counts, the ghost `order`. The model proves what holds for every order, not which order the JDK chooses.
- `Collections.sort` is modelled by the stable insertion sort `Sorting.SortBy`, which is proved to be the only stable sort. The in-place merge sort of the JDK is not modelled.
- `LinkedList` and `subList` are modelled as sequences. The ranked list of a profile that was never finalized (null in the source) is modelled as the empty sequence, and nothing reads it before finalization.
- Object.finalize as a garbage-collector hook is not modelled. `finalize` is modelled only as the explicit call the tokenizer makes.
- `Profile.toString` and `NGram.toString` are output and are not modelled. The tests call `getNumberOfNGrams` and `setFinalized`, which src/langdetect/Profile.java does not define. The example lemmas count a profile's n-grams through the keys of the tally, which `ComputeProfile` equates with the profile's size when there are at most 300.
- `GetGram`, `GetCount`, `GetPos`, `GetName` and `IsFinalized` are plain field reads and have no contracts.
- Profiles.Profile.AddNGram: does not model 32-bit overflow of a count. A count would have to exceed 2^31 - 1 submissions of one n-gram.
- NGrams.NGram.IncCount: does not model 32-bit wrap-around of the count, for the same reason.
- Profiles.Profile.GetOutOfPlaceMeasure: computes the measure on unbounded integers. The contract bounds it by 300 x 300, so the Java sum cannot overflow.
- Profiles.Profile.GetOutOfPlaceMeasure: a null other profile cannot be expressed, because the parameter is a non-null reference. On a finalized profile the source then throws a NullPointerException (src/langdetect/Profile.java:151 and 158), and the model does not capture that.
- Tokenizers.LowerCaseAt: Dafny's `char` is a Unicode scalar value, while Java's `length`, `substring` and `trim` count UTF-16 code units (src/langdetect/Tokenizer.java:112-118 and 140). A token holding a letter outside the Basic Multilingual Plane is therefore windowed differently by the source: it yields 1-grams that are lone surrogates, and the model does not.
- Tokenizers.Tokenizer.CollectWindows: windows are taken over characters, while the source's `token.length()` and `token.substring` (src/langdetect/Tokenizer.java:112-118) count UTF-16 code units. For a token with a letter outside the Basic Multilingual Plane, the source's windows split surrogate pairs, and the model's do not. The line for LowerCaseAt gives the detail.
- Tokenizers.PrepareTokenShape: lower-casing is a function from one character to one character. Java's `String.toLowerCase` also has mappings that change the length or depend on context, such as U+0130 to "i" plus a combining dot, and a final capital sigma to the final small sigma. The length facts hold for the model but not for every Java input.
- Tokenizers.Tokenizer.CollectNGrams: the source's three nested loops are split into one method per level: CollectTokens, CollectToken, CollectTokenNGrams and CollectWindows.
- LangDetects.LangDetect.FindBestProfile: the measuring loop is a separate method, MeasureAll.
- NGrams.NGram.constructor: a null gram is not modelled, because Dafny strings cannot be null. The empty gram is rejected by `Create`.
