# Various Complements: completion engine model

This project models the core of the Obsidian "Various Complements" plugin in
Dafny. The plugin suggests words as the user types. The model covers two
parts and proves their properties.

- **The suggestion engine** (`src/provider/suggester.ts`). Three first-letter
  indexes of words: the current file, the custom dictionaries and the
  internal links. `pushWord` fills them. `judge` and `judgeByPartialMatch`
  decide whether a word matches a query, under the prefix and the partial
  policy. `suggestWords` and `suggestWordsByPartialMatch` gather candidates,
  judge and filter them, sort them with a stable sort, cut the list to `max`
  and drop duplicates.
- **The suggest widget** (`src/ui/AutoCompleteSuggest.ts`). `onTrigger`
  decides whether a keystroke opens suggestions, and with which phrase
  query. The debounced callback queries every kept token of that phrase and
  merges the results. `renderSuggestion` computes the displayed text.
  `selectSuggestion` computes the inserted text, the replaced range and the
  caret move. `predictableComplete` completes the current token from nearby
  text.

Files and modules:

- `collections.dfy` (`Collections`): `find`, `flat`, `slice(0, n)`,
  `uniqWith` on sequences, with subsequence and key-set lemmas.
- `strings.dfy` (`Strings`): ASCII case mapping, `capitalizeFirstLetter`,
  the space-removing lower-case comparisons, `indexOf`, `replace` of the first
  occurrence, and `split(" ").last()`.
- `stable_sort.dfy` (`StableSort`): a stable insertion sort by a lexicographic
  key. It stands in for `Array.prototype.sort`, which is stable. Its lemmas
  prove the result sorted, a permutation of the input, and stable.
- `suggester.dfy` (`Suggester`): words, indexes (class `WordIndex` for the
  mutable index), the judges, the comparator as written and the rank it
  should encode, and the two suggestion pipelines.
- `auto_complete.dfy` (`AutoComplete`): settings, the trigger decision as a
  function plus class `AutoCompleteSuggest` whose methods update
  `runManually` and `contextStartCh` as the widget does, the callback body,
  the display and insertion texts, and predictable completion.

JavaScript details modelled explicitly:

- Truthiness: `internalLink` is tri-state (`Option<bool>`). `IsLink` is
  "truthy". An alias of `""` is falsy.
- Identity: `uniqWith` compares `value` and `internalLink` with `===`.
- Object key order: `Object.values` enumerates one-digit keys ascending,
  then the other keys in creation order.

### Where the code and the plugin's description differ

The model follows the code in each case.

- The comparator `b.word.internalLink ? 1 : -1` puts internal links first
  among values of equal length, not last.
- `capitalizeFirstLetter` upper-cases only the first character. A query
  "New" matched against "new york" gives "New york", not "New York".
- The two fence-line returns of `onTrigger` (`---`, `~~~`, ` ``` `) leave
  `runManually` as it was. Every other return after the first two gates
  clears it.
- `suggestWords` cuts the sorted list to `max` before removing duplicates.
  The callback removes duplicates before cutting. So the suggester can
  return fewer than `max` distinct words while more exist
  (`TruncationBeforeDeduplication`). The callback always returns
  min(distinct, max) (`CallbackLength`).
- The pipeline never sets `matchedAlias`, so the `[[value|alias]]` form is
  unreachable for words that come from the callback
  (`CallbackWordsWrapPlainly`).

## Model

| member | source | states |
|---|---|---|
| Suggester.WordIndex.PushWord | src/provider/suggester.ts:24-35 | the word is appended to the end of its key's bucket; a missing bucket is created and its key added last in creation order; every other bucket is unchanged; the index stays well-formed (keys distinct, exactly the bucket keys) |
| Suggester.Judge | src/provider/suggester.ts:38-59 | a value match wins and is capitalised exactly when the query starts upper-case and the word is not a link; otherwise the value is the first matching alias and `alias` is set; no value iff neither the value nor any alias matches; any returned value matches the query |
| Suggester.EmptyAliasNeverMatches | src/provider/suggester.ts:51-56 | when the value does not match, an empty alias cannot match either, so the falsy-alias test never rejects a found alias |
| Suggester.JudgeByPartialMatch | src/provider/suggester.ts:110-135 | prefix matches are judged as by `judge`; otherwise a substring match of the value returns the value uncapitalised; otherwise the first alias containing the query; no value iff neither value nor any alias contains the query |
| Suggester.PartialMatchFindsPrefixMatches | src/provider/suggester.ts:115-132 | every word the prefix judge accepts is also accepted by the partial judge |
| Suggester.Matched | src/provider/suggester.ts:84-86 | `map(judge).filter(value !== undefined)` keeps one judgement for each word whose judgement has a value, in input order: the result has one entry per valued index (`ValuedIndices`: ascending, exactly the indices whose judgement has a value) and entry `m` is the judgement of the word at the `m`-th such index |
| Suggester.MatchedProvenance | src/provider/suggester.ts:84-86 | every judgement kept by the filter is the judgement of some input word |
| Suggester.MatchedComplete | src/provider/suggester.ts:84-86 | every input word whose judgement has a value is kept by the filter |
| Suggester.RankOf | src/provider/suggester.ts:87-98 | the rank has four components: value starts with the raw query (partial policy only), value length, link truthiness, alias match; each component is tied to its judgement property both ways |
| Suggester.Compare | src/provider/suggester.ts:87-98 | the comparator as written (prefix and, with the starts-with test first, partial) answers -1, 0 or 1, and 0 exactly when no criterion tells the judgements apart: same starts-with result under the partial policy, same value length, same `internalLink` flag, same alias flag |
| Suggester.CompareAgreesWithRank | src/provider/suggester.ts:155-171 | for words whose link flag is true or absent, both comparators as written (prefix and partial) equal the three-way comparison of the ranks |
| Suggester.CompareInconsistentForFalseLink | src/provider/suggester.ts:91-93 | with `internalLink: false` against an absent flag, the comparator as written returns -1 in both argument orders |
| Suggester.RankedCompareAntisymmetric | src/provider/suggester.ts:91-93 | comparison by rank is antisymmetric for every pair of judgements |
| Suggester.FalseLinkRanksAsAbsent | src/provider/suggester.ts:91-93 | under the corrected comparison an explicit `internalLink: false` ranks exactly as an absent flag, so the pair the comparator as written orders both ways compares equal both ways |
| Suggester.RankedCompareTransitive | src/provider/suggester.ts:87-98 | the corrected comparison is transitive for every three judgements, so together with antisymmetry it is a consistent comparator |
| Suggester.Ranked | src/provider/suggester.ts:84-98 | the ranked candidates are sorted by rank and are a permutation of the matched judgements; `RankedIsStableSort` adds that equal ranks keep their input order |
| Suggester.RankedIsStableSort | src/provider/suggester.ts:87-98 | the ranked list is sorted by rank, is a permutation of the filtered judgements, and keeps judgements of equal rank in their input order |
| Suggester.RankedOrder | src/provider/suggester.ts:155-171 | in ranked order, under the partial policy, values starting with the query come before those that do not; among values that agree on that, shorter values come first |
| Suggester.Suggest | src/provider/suggester.ts:84-106 | the result has at most `max` words and no two share an identity; it is an order-preserving subsequence of the first `max` ranked words with exactly their identities; every word in it is the judged word of a matching input word |
| Suggester.SuggestKeepsAllWhenRoom | src/provider/suggester.ts:99-106 | when `max` is at least the number of candidates, every matching word's identity is in the result |
| Suggester.SuggestKeepsBestRanked | src/provider/suggester.ts:103-106 | of the ranked words that share an identity, the result keeps the highest-ranked one |
| Suggester.TruncationBeforeDeduplication | src/provider/suggester.ts:99-106 | with words "cat", "cat" (with a description) and "cats", query "c" and `max` 2, only "cat" is returned although "cats" is a distinct match |
| Suggester.EnumerationOrderIsObjectOrder | src/provider/suggester.ts:144-145 | `Object.values` visits the one-digit keys first, in ascending order, then the other keys in creation order |
| Suggester.Values | src/provider/suggester.ts:144-145 | `Object.values(index).flat()` holds a word iff some bucket of a well-formed index holds it |
| Suggester.AllWords | src/provider/suggester.ts:146-150 | the partial policy's candidates are exactly the words of every bucket of the three sources |
| Suggester.Gather | src/provider/suggester.ts:66-82 | for a query starting with an upper-case letter, a word is gathered exactly when it is in the bucket of the first character or of its lower case in one of the three sources; otherwise exactly when it is in the first character's bucket of one of the sources or in the internal links' upper-case bucket |
| Suggester.SuggestWords | src/provider/suggester.ts:61-107 | the prefix pipeline over the gathered buckets: at most `max` words, no duplicate identities, an order-preserving subsequence of the first `max` ranked words with exactly their identities, every word from a matching candidate |
| Suggester.SuggestWordsReadsOnlyQueryBuckets | src/provider/suggester.ts:66-82 | two sets of indexes that agree on the buckets of the query's first character, lower-cased and upper-cased, give the same suggestions |
| Suggester.SuggestWordsByPartialMatch | src/provider/suggester.ts:137-180 | the partial pipeline over every word of every source, with the same guarantees as the prefix pipeline |
| Suggester.Handler | src/ui/AutoCompleteSuggest.ts:244-249 | the handler of either policy returns at most `max` words with no duplicate identities |
| StableSort.SortBySortedPermutation | src/provider/suggester.ts:87-98 | the sort's result is ordered by key and is a permutation of its input |
| StableSort.SortByStable | src/provider/suggester.ts:87-98 | for every key, the elements with that key appear in the sorted result in their input order |
| Collections.UniqBy | src/provider/suggester.ts:103-106 | `uniqWith` on identity: no two kept elements share a key, every key of the input is kept, the result is an order-preserving subsequence, and each kept element is the first input element with its key, in the order of those first occurrences |
| Collections.UniqByThenTake | src/ui/AutoCompleteSuggest.ts:254-259 | `uniqWith` then `slice(0, n)`: the result is an order-preserving subsequence made of first occurrences, and every input element whose key was cut off comes after every kept one |
| Collections.FirstKeyIndex | src/provider/suggester.ts:103-106 | the index of the first element with a key: that element has the key and no earlier one does; the length when none does |
| Collections.UniqByKeepsFirst | src/provider/suggester.ts:103-106 | the element kept for a key is the first element of the input with that key |
| Collections.Find | src/provider/suggester.ts:51-53 | `find` returns nothing iff no element satisfies the predicate, otherwise the first element that does |
| Strings.NormalizeCapitalized | src/provider/suggester.ts:43-46 | capitalising a value does not change whether it matches a query |
| Strings.RemoveFirst | src/ui/AutoCompleteSuggest.ts:579-582 | `replace(p, "")` removes exactly the first occurrence of `p` and leaves the text unchanged when there is none |
| Strings.LastFragment | src/ui/AutoCompleteSuggest.ts:471-472 | `split(" ").last()` is the longest space-free suffix of the line |
| AutoComplete.MinNumberTriggered | src/ui/AutoCompleteSuggest.ts:189-194 | the configured minimum when it is non-zero, else the tokenizer's trigger threshold |
| AutoComplete.PhraseWindow | src/ui/AutoCompleteSuggest.ts:453-458 | the window is the last min(n, maxNumberOfWordsAsPhrase) tokens, in order |
| AutoComplete.Trigger | src/ui/AutoCompleteSuggest.ts:414-524 | the onTrigger decision never sets `runManually`, only keeps or clears it; it writes `contextStartCh` exactly when it returns a trigger; a trigger clears the flag, holds at least one token and ends at the cursor on the cursor's line (the lemmas below pin the decision down) |
| AutoComplete.TriggerOnTokens | src/ui/AutoCompleteSuggest.ts:453-524 | the same guarantees for the part of the decision that follows the recursive tokenisation |
| AutoComplete.TriggerGates | src/ui/AutoCompleteSuggest.ts:414-430 | with automatic completion off and the panel closed, or with the IME composing and IME suppression on, a non-manual call returns nothing and changes no field |
| AutoComplete.FenceLineNeverTriggers | src/ui/AutoCompleteSuggest.ts:432-448 | a line starting with `---`, `~~~` or a code fence never triggers and keeps `runManually` |
| AutoComplete.RunManuallySurvivesOnlyFences | src/ui/AutoCompleteSuggest.ts:414-508 | after a call `runManually` is set iff it was set and the line is a fence line |
| AutoComplete.TriggerIffAdmits | src/ui/AutoCompleteSuggest.ts:414-505 | a trigger is returned iff every check passes; a manual call skips the length and ignore checks |
| AutoComplete.TriggerClearsOnTokenRejection | src/ui/AutoCompleteSuggest.ts:463-490 | an empty current token, a `:`, `/` or `^` command prefix, or a lone trim character ends the call with nothing and clears `runManually` |
| AutoComplete.TriggerSuccessShape | src/ui/AutoCompleteSuggest.ts:507-524 | a trigger ends at the cursor, starts the last token's length before it, queries the rebased window, clears `runManually` and sets `contextStartCh` to the cursor minus the first window token's length |
| AutoComplete.TriggerQueryWithinPhraseLimit | src/ui/AutoCompleteSuggest.ts:453-458 | within the settings' slider limits a trigger's query holds between one and ten tokens |
| AutoComplete.Rebase | src/ui/AutoCompleteSuggest.ts:518-522 | the rebased tokens keep their words, their offsets become relative to the first token, and the first is at offset 0 |
| AutoComplete.RebasedWindow | src/ui/AutoCompleteSuggest.ts:518-522 | the query lists the last window tokens with the same words and offsets relative to the first, which is at offset 0 |
| AutoComplete.AutoCompleteSuggest.OnTrigger | src/ui/AutoCompleteSuggest.ts:407-448 | the returned trigger, the new `runManually` and the new `contextStartCh` are those of the trigger decision for the old `runManually` |
| AutoComplete.AutoCompleteSuggest.OnTokens | src/ui/AutoCompleteSuggest.ts:453-524 | the token checks and the trigger construction update the fields and return as the decision on the recursive tokens prescribes |
| AutoComplete.KeepQuery | src/ui/AutoCompleteSuggest.ts:235-242 | the filter's test of the token at index `i`; `KeptIndices` characterises the filter by it (ascending, every index it lists passes the test, every index that passes is listed) and `KeptPhrasesAreLongEnough` reads its phrase-length test as words left in the window |
| AutoComplete.KeptIndices | src/ui/AutoCompleteSuggest.ts:234-242 | the indices the filter keeps: ascending, each kept, and every kept index present |
| AutoComplete.KeptTokens | src/ui/AutoCompleteSuggest.ts:234-242 | the filter's result is the token at each kept index, one per index, in index order; so it holds exactly the tokens at kept positions and is a subsequence of the query |
| AutoComplete.KeptPhrasesAreLongEnough | src/ui/AutoCompleteSuggest.ts:235-242 | a kept token starts a phrase of at least minNumberOfWordsTriggeredPhrase tokens, is long enough and does not end in a space |
| AutoComplete.Tagged | src/ui/AutoCompleteSuggest.ts:234-252 | the handler results of the kept tokens, tagged with their offsets and concatenated in ascending kept-index order; every merged suggestion carries no alias and comes from a kept token's handler result with that token's offset, and conversely every handler word of every kept token is present with that token's offset |
| AutoComplete.GetSuggestionsBody | src/ui/AutoCompleteSuggest.ts:234-259 | the callback returns at most maxNumberOfSuggestions suggestions, no two with the same identity, each from a kept token's handler result with that token's offset; they keep the order of the flattened handler results, each is the first there with its identity, and every suggestion whose identity was cut off comes after all kept ones |
| AutoComplete.CallbackLength | src/ui/AutoCompleteSuggest.ts:254-259 | the callback returns exactly min(distinct identities, maxNumberOfSuggestions) suggestions |
| AutoComplete.CallbackKeepsEarliest | src/ui/AutoCompleteSuggest.ts:254-259 | of the suggestions sharing an identity, the callback keeps the first in token order |
| AutoComplete.WrappedText | src/ui/AutoCompleteSuggest.ts:537-543 | plain words show their value; links are wrapped in `[[`…`]]` around their value, four characters longer when no alias is used, and with the alias option on and a truthy matched alias the value is followed by exactly a vertical bar and the alias |
| AutoComplete.CallbackWordsWrapPlainly | src/ui/AutoCompleteSuggest.ts:538-543 | a suggestion returned by the callback is always shown and inserted as its value or `[[value]]` |
| AutoComplete.DisplayText | src/ui/AutoCompleteSuggest.ts:545-551 | with a delimiter that occurs in the text, the display is the text before its first occurrence (which holds no delimiter) plus " ..."; otherwise the text |
| AutoComplete.TextBeforeCaret | src/ui/AutoCompleteSuggest.ts:568-583 | the inserted text is the wrapped text plus an optional space, shortened by the delimiter's length when the delimiter occurs |
| AutoComplete.DisplayAgreesWithInsertion | src/ui/AutoCompleteSuggest.ts:545-583 | the displayed text before " ..." is exactly the inserted text before the point where the delimiter was |
| AutoComplete.AutoCompleteSuggest.RewriteInsertedText | src/ui/AutoCompleteSuggest.ts:568-583 | the three rewrites of the inserted text produce the text the insertion function describes |
| AutoComplete.AutoCompleteSuggest.SelectSuggestion | src/ui/AutoCompleteSuggest.ts:563-609 | no context, no edit; otherwise the range runs from contextStartCh plus the word's offset to the context end, the first caret marker is removed and the cursor is set `p` characters after the start of the inserted text, `p` being the marker's index, given the editor's offset after the replacement; else the text is kept and the cursor stays |
| AutoComplete.PredictableCompletion | src/ui/AutoCompleteSuggest.ts:130-173 | no completion without a current token; a completion extends the current token and replaces exactly it, ending at the cursor |
| AutoComplete.PredictableCompletionNoneIff | src/ui/AutoCompleteSuggest.ts:137-164 | there is no completion exactly when the current token is empty, or no earlier token other than the last and no later token extends it |
| AutoComplete.PredictableCompletionFallsBackToLater | src/ui/AutoCompleteSuggest.ts:151-163 | when no earlier token (other than the last) extends the current one but a later token does, the completion is the first later token that does |
| AutoComplete.PredictableCompletionPrefersNearest | src/ui/AutoCompleteSuggest.ts:144-160 | when an earlier token (not the one being typed) extends the current token, the nearest such token is chosen and later text is not consulted |

## Left out

- Debouncing, promises and `getSuggestions`: the callback body is modelled as a function of the parsed query.
- Timing (`performance.now`) and debug logging are not modelled.
- The tokenizers are foreign code. `recursiveTokenize`, `shouldIgnore`, the trim-pattern test and the trigger threshold are parameters (`Tokenizer`).
- `tokenize(line, true)` in `onTrigger` is only logged, so it is left out.
- `JSON.stringify` of the query and `JSON.parse` in the callback are modelled as the token list they encode.
- `appHelper.isIMEOn()` and `getCurrentLineUntilCursor` are parameters of `OnTrigger`.
- Editor calls are not modelled: `replaceRange`, `setCursor` and the offset/position conversions. `SelectSuggestion` returns the edit; the editor offset after the replacement is a parameter.
- `close`, `debounceClose` and the DOM (`createDiv`, the description div) are not modelled.
- `isOpen` is maintained by the host and `runManually` is set by the manual-completion command; neither is modelled beyond reading them.
- `predictableComplete` reads ±50 lines through the editor; the model takes the three token lists as parameters, and the missing-editor path is left out.
- Case mapping is ASCII only; lengths count characters, not UTF-16 code units.
- `Object.values` order is modelled for one-character keys only (the first-letter keys); multi-digit index keys are not.
- `src/util/strings.ts` and `src/util/collection-helper.ts` are not part of this model. `capitalizeFirstLetter`, `lowerStartsWithoutSpace`, `lowerIncludesWithoutSpace` and `uniqWith` are defined from their names and call sites: spaces removed from both sides, then lower-cased.
- `MatchStrategy` in `src/provider/MatchStrategy.ts` is not part of this model; `Handler` dispatches on the two policies by name.
- Word providers, their refresh, event registration, keymaps, the settings tab and the `triggerComplete` command are outside the modelled core.
- With a digit or other caseless first character and an upper-case query, `suggestWords` reads the same bucket twice. The duplicates take slots before `uniqWith`; this is modelled as written and not stated as a separate lemma.
- AutoComplete.TextBeforeCaret: when the delimiter occurs, its contract states only the length; which characters are removed is the contract of `Strings.RemoveFirst`.
- Suggester.Handler: its contract states only the bound and the absence of duplicates; the full guarantees are those of `SuggestWords` and `SuggestWordsByPartialMatch`.
- Suggester.Gather: the contract fixes which buckets are read, not the order in which their words are concatenated (current file, custom dictionary, internal links, each with the first character's bucket before the other case's); only the function body carries that order, which decides ties in the stable sort.
- Suggester.Ranked: a word with an explicit `internalLink: false` is ordered by the corrected, truthiness-based rank. The comparator as written is inconsistent for such words (see Findings), so the engine's order is unspecified and the model fixes one of the possible orders.
- Suggester.RankedOrder: it states the first two ranking criteria; the link and alias tie-breaks follow from `RankedIsStableSort` and `RankOf`.

## Findings

| source | as written | input that shows it | evidently intended | confidence | as-written member | corrected member |
|---|---|---|---|---|---|---|
| src/provider/suggester.ts:91-93 | `a.word.internalLink !== b.word.internalLink` compares the tri-state flag with `!==`, then `b.word.internalLink ? 1 : -1` tests truthiness | two judgements of equal length, one with `internalLink: false`, the other with the flag absent: the comparator returns -1 in both orders, so it is not a consistent comparator and the sort order depends on the engine | order by link truthiness, so `false` and absent compare equal | not executed | Suggester.CompareInconsistentForFalseLink | Suggester.FalseLinkRanksAsAbsent |
