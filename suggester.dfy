/** The word index, the matcher ("judge") and the ranking engine of the
    completion provider (src/provider/suggester.ts). */
module Suggester {
  import opened Collections
  import opened Strings
  import opened StableSort

  /** A completion candidate. An absent alias list is the empty list:
      `aliases?.find(...)` gives undefined for both. `internalLink` is
      tri-state (true, false or absent) because identity compares it with
      `===`. */
  datatype Word = Word(value: string, description: Option<string>,
                       aliases: seq<string>, internalLink: Option<bool>)

  /** JavaScript truthiness of `internalLink`. */
  predicate IsLink(w: Word)
  {
    w.internalLink == Some(true)
  }

  /** The link flag is `true` or absent, never an explicit `false`. */
  predicate WellFormedLink(w: Word)
  {
    w.internalLink != Some(false)
  }

  lemma WellFormedLinkCases(w: Word)
    requires WellFormedLink(w)
    ensures w.internalLink == Some(true) || w.internalLink == None
  {
    if w.internalLink.Some? {
      var v := w.internalLink.value;
      assert w.internalLink == Some(v);
      assert v != false;
      assert v == true;
    }
  }

  /** Two words are the same suggestion iff value and internalLink are `===`. */
  function Identity(w: Word): (string, Option<bool>)
  {
    (w.value, w.internalLink)
  }

  /** A first-letter index as a JavaScript object: its buckets, and its own
      keys in the order they were created (which fixes Object.values' order). */
  datatype WordsByFirstLetter = WordsByFirstLetter(keys: seq<string>, buckets: map<string, seq<Word>>)
  {
    ghost predicate Valid()
    {
      (forall i, j :: 0 <= i < j < |keys| ==> keys[i] != keys[j]) &&
      (forall k :: k in buckets <==> k in keys)
    }
  }

  /** `index[key] ?? []` */
  function Lookup(d: WordsByFirstLetter, key: string): seq<Word>
  {
    if key in d.buckets then d.buckets[key] else []
  }

  /** The three per-source indexes the ranking engine reads. */
  datatype IndexedWords = IndexedWords(currentFile: WordsByFirstLetter,
                                       customDictionary: WordsByFirstLetter,
                                       internalLink: WordsByFirstLetter)

  /** A mutable first-letter index, as the word providers hold it. */
  class WordIndex {
    var keys: seq<string>
    var buckets: map<string, seq<Word>>

    function Snapshot(): WordsByFirstLetter
      reads this
    {
      WordsByFirstLetter(keys, buckets)
    }

    ghost predicate Valid()
      reads this
    {
      Snapshot().Valid()
    }

    constructor ()
      ensures Valid() && keys == [] && buckets == map[]
    {
      keys := [];
      buckets := map[];
    }

    /** pushWord: appends `word` to the bucket of `key`, creating the bucket
        (and the object key) when it is absent. */
    method PushWord(key: string, word: Word)
      requires Valid()
      modifies this
      ensures Valid()
      ensures buckets == old(buckets)[key := Lookup(old(Snapshot()), key) + [word]]
      ensures keys == if key in old(buckets) then old(keys) else old(keys) + [key]
    {
      if key !in buckets {
        assert key !in keys;
        buckets := buckets[key := [word]];
        keys := keys + [key];
        assert forall i :: 0 <= i < |keys| - 1 ==> keys[i] in old(keys);
        assert Valid();
        assert Lookup(old(Snapshot()), key) + [word] == [word];
        return;
      }
      buckets := buckets[key := buckets[key] + [word]];
    }
  }

  /** Only an index key: JavaScript enumerates such keys first, ascending.
      First-letter keys are single characters, so only one digit is checked. */
  predicate IsIndexKey(k: string)
  {
    |k| == 1 && '0' <= k[0] <= '9'
  }

  /** The one-digit keys among `keys` whose digit is at least `d`, ascending. */
  function DigitKeysFrom(keys: seq<string>, d: nat): (r: seq<string>)
    requires d <= 10
    ensures forall k :: k in r ==> k in keys && IsIndexKey(k) && k[0] as int - '0' as int >= d
    ensures forall k :: k in keys && IsIndexKey(k) && k[0] as int - '0' as int >= d ==> k in r
    ensures forall i, j :: 0 <= i < j < |r| ==> |r[i]| == 1 && |r[j]| == 1 && r[i][0] < r[j][0]
    decreases 10 - d
  {
    if d == 10 then []
    else
      var digit := [('0' as int + d) as char];
      var rest := DigitKeysFrom(keys, d + 1);
      assert forall k :: IsIndexKey(k) && k[0] as int - '0' as int == d ==> k == digit;
      if digit in keys then [digit] + rest else rest
  }

  /** Key `a` occurs in `keys` before key `b`. */
  predicate Before(keys: seq<string>, a: string, b: string)
  {
    exists p, q :: 0 <= p < q < |keys| && keys[p] == a && keys[q] == b
  }

  lemma BeforeCons(x: string, keys: seq<string>, a: string, b: string)
    requires Before(keys, a, b)
    ensures Before([x] + keys, a, b)
  {
    var p, q :| 0 <= p < q < |keys| && keys[p] == a && keys[q] == b;
    var xk := [x] + keys;
    assert xk[p + 1] == a && xk[q + 1] == b;
  }

  /** The keys that are not index keys, in creation order. */
  function OtherKeys(keys: seq<string>): (r: seq<string>)
    ensures forall k :: k in r <==> k in keys && !IsIndexKey(k)
    ensures forall i, j :: 0 <= i < j < |r| ==> Before(keys, r[i], r[j])
  {
    if |keys| == 0 then []
    else
      var rest := OtherKeys(keys[1..]);
      forall i, j | 0 <= i < j < |rest| ensures Before(keys, rest[i], rest[j]) {
        BeforeCons(keys[0], keys[1..], rest[i], rest[j]);
        assert [keys[0]] + keys[1..] == keys;
      }
      if IsIndexKey(keys[0]) then rest
      else
        var r := [keys[0]] + rest;
        forall j | 0 < j < |r| ensures Before(keys, r[0], r[j]) {
          assert r[j] in keys[1..];
          var q :| 0 <= q < |keys[1..]| && keys[1..][q] == r[j];
          assert keys[q + 1] == r[j];
        }
        r
  }

  /** The order of Object.values: index keys ascending, then the other keys
      in creation order. */
  function EnumerationOrder(keys: seq<string>): (r: seq<string>)
    ensures forall k :: k in r <==> k in keys
  {
    DigitKeysFrom(keys, 0) + OtherKeys(keys)
  }

  /** Object.values lists the index keys first, in ascending order, and then
      the other keys in the order they were created. */
  lemma EnumerationOrderIsObjectOrder(keys: seq<string>)
    ensures var r := EnumerationOrder(keys);
            (forall i, j :: 0 <= i < j < |r| && IsIndexKey(r[j]) ==> IsIndexKey(r[i]) && r[i][0] < r[j][0]) &&
            (forall i, j :: 0 <= i < j < |r| && !IsIndexKey(r[i]) ==> !IsIndexKey(r[j]) && Before(keys, r[i], r[j]))
  {
    var digits, others := DigitKeysFrom(keys, 0), OtherKeys(keys);
    assert forall i :: 0 <= i < |digits| ==> digits[i] in digits;
    assert forall i :: 0 <= i < |others| ==> others[i] in others;
    OrderOfConcatenation(digits, others, keys);
  }

  /** Ascending index keys followed by other keys in creation order. */
  lemma OrderOfConcatenation(digits: seq<string>, others: seq<string>, keys: seq<string>)
    requires forall i :: 0 <= i < |digits| ==> IsIndexKey(digits[i])
    requires forall i, j :: 0 <= i < j < |digits| ==> |digits[i]| == 1 && |digits[j]| == 1 && digits[i][0] < digits[j][0]
    requires forall i :: 0 <= i < |others| ==> !IsIndexKey(others[i])
    requires forall i, j :: 0 <= i < j < |others| ==> Before(keys, others[i], others[j])
    ensures var r := digits + others;
            (forall i, j :: 0 <= i < j < |r| && IsIndexKey(r[j]) ==> IsIndexKey(r[i]) && r[i][0] < r[j][0]) &&
            (forall i, j :: 0 <= i < j < |r| && !IsIndexKey(r[i]) ==> !IsIndexKey(r[j]) && Before(keys, r[i], r[j]))
  {
    var r := digits + others;
    assert forall k :: 0 <= k < |digits| ==> r[k] == digits[k];
    assert forall k :: |digits| <= k < |r| ==> r[k] == others[k - |digits|];
  }

  /** Object.values(index).flat(): the words of every bucket, in key
      enumeration order. */
  function Values(d: WordsByFirstLetter): (r: seq<Word>)
    ensures d.Valid() ==> forall w :: w in r <==> InSomeBucket(d, w)
  {
    var order := EnumerationOrder(d.keys);
    var ss := seq(|order|, i requires 0 <= i < |order| => Lookup(d, order[i]));
    BucketsFlattened(d, order, ss);
    Flatten(ss)
  }

  /** Some bucket of `d` holds `w`. */
  predicate InSomeBucket(d: WordsByFirstLetter, w: Word)
  {
    exists k :: k in d.buckets && w in d.buckets[k]
  }

  /** Flattening the buckets listed in enumeration order gives exactly the
      words of the buckets of a well-formed index. */
  lemma BucketsFlattened(d: WordsByFirstLetter, order: seq<string>, ss: seq<seq<Word>>)
    requires order == EnumerationOrder(d.keys)
    requires |ss| == |order| && forall i :: 0 <= i < |order| ==> ss[i] == Lookup(d, order[i])
    ensures d.Valid() ==> forall w :: w in Flatten(ss) <==> InSomeBucket(d, w)
  {
    if d.Valid() {
      forall w | w in Flatten(ss) ensures InSomeBucket(d, w) {
        FlattenedWordInBucket(d, order, ss, w);
      }
      forall w, k | k in d.buckets && w in d.buckets[k] ensures w in Flatten(ss) {
        BucketWordFlattened(d, order, ss, k, w);
      }
    }
  }

  lemma FlattenedWordInBucket(d: WordsByFirstLetter, order: seq<string>, ss: seq<seq<Word>>, w: Word)
    requires d.Valid() && forall k :: k in order ==> k in d.keys
    requires |ss| == |order| && forall i :: 0 <= i < |order| ==> ss[i] == Lookup(d, order[i])
    requires w in Flatten(ss)
    ensures InSomeBucket(d, w)
  {
    FlattenMember(ss, w);
    var i :| 0 <= i < |ss| && w in ss[i];
    assert order[i] in d.keys;
    assert w in d.buckets[order[i]];
  }

  lemma BucketWordFlattened(d: WordsByFirstLetter, order: seq<string>, ss: seq<seq<Word>>, k: string, w: Word)
    requires k in order
    requires |ss| == |order| && forall i :: 0 <= i < |order| ==> ss[i] == Lookup(d, order[i])
    requires k in d.buckets && w in d.buckets[k]
    ensures w in Flatten(ss)
  {
    var i :| 0 <= i < |order| && order[i] == k;
    FlattenContains(ss, i, w);
  }

  /** The two matching policies (MatchStrategy): prefix and partial. */
  datatype MatchStrategy = Prefix | Partial

  /** The outcome of testing one word against one query. */
  datatype Judgement = Judgement(word: Word, value: Option<string>, alias: bool)

  /** `capitalizeFirstLetter(query) === query` */
  predicate QueryStartsWithUpper(query: string)
  {
    CapitalizeFirstLetter(query) == query
  }

  /** The first alias that matches can never be "" when the value does not
      match: only an all-space query matches "", and it matches every value. */
  lemma EmptyAliasNeverMatches(value: string, query: string)
    ensures !LowerStartsWithoutSpace(value, query) ==> !LowerStartsWithoutSpace("", query)
    ensures !LowerIncludesWithoutSpace(value, query) ==> !LowerIncludesWithoutSpace("", query)
  {
    if LowerIncludesWithoutSpace("", query) {
      assert Normalize(query) == "";
      IncludesEmpty(Normalize(value));
    }
  }

  /** judge: the prefix policy. The value is tried first and is capitalised
      when the query is and the word is not a link; otherwise the first
      alias that matches is the value. */
  function Judge(word: Word, query: string, queryStartWithUpper: bool): (r: Judgement)
    ensures LowerStartsWithoutSpace(word.value, query) ==>
              !r.alias && r.value == Some(r.word.value) &&
              r.word == word.(value := r.word.value) &&
              r.word.value == (if queryStartWithUpper && !IsLink(word)
                               then CapitalizeFirstLetter(word.value) else word.value)
    ensures !LowerStartsWithoutSpace(word.value, query) ==> r.word == word && (r.value.Some? <==> r.alias)
    ensures r.alias ==>
              r.value.Some? &&
              exists i :: 0 <= i < |word.aliases| && word.aliases[i] == r.value.value &&
                          forall j :: 0 <= j < i ==> !LowerStartsWithoutSpace(word.aliases[j], query)
    ensures r.value.None? <==>
              !LowerStartsWithoutSpace(word.value, query) &&
              forall a :: a in word.aliases ==> !LowerStartsWithoutSpace(a, query)
    ensures r.value.Some? ==> LowerStartsWithoutSpace(r.value.value, query)
  {
    if LowerStartsWithoutSpace(word.value, query) then
      if queryStartWithUpper && !IsLink(word) then
        var c := CapitalizeFirstLetter(word.value);
        NormalizeCapitalized(word.value);
        Judgement(word.(value := c), Some(c), false)
      else
        Judgement(word, Some(word.value), false)
    else
      var matchedAlias := Find(word.aliases, a => LowerStartsWithoutSpace(a, query));
      EmptyAliasNeverMatches(word.value, query);
      if matchedAlias.Some? && matchedAlias.value != "" then
        Judgement(word, Some(matchedAlias.value), true)
      else
        Judgement(word, None, false)
  }

  /** judgeByPartialMatch: the prefix rule first, then the value as a
      substring (not capitalised), then the first alias containing the query. */
  function JudgeByPartialMatch(word: Word, query: string, queryStartWithUpper: bool): (r: Judgement)
    ensures LowerStartsWithoutSpace(word.value, query) ==> r == Judge(word, query, queryStartWithUpper)
    ensures !LowerStartsWithoutSpace(word.value, query) && LowerIncludesWithoutSpace(word.value, query) ==>
              r == Judgement(word, Some(word.value), false)
    ensures !LowerIncludesWithoutSpace(word.value, query) ==> r.word == word && (r.value.Some? <==> r.alias)
    ensures r.alias ==>
              r.value.Some? &&
              exists i :: 0 <= i < |word.aliases| && word.aliases[i] == r.value.value &&
                          forall j :: 0 <= j < i ==> !LowerIncludesWithoutSpace(word.aliases[j], query)
    ensures r.value.None? <==>
              !LowerIncludesWithoutSpace(word.value, query) &&
              forall a :: a in word.aliases ==> !LowerIncludesWithoutSpace(a, query)
    ensures r.value.Some? ==> LowerIncludesWithoutSpace(r.value.value, query)
  {
    if LowerStartsWithoutSpace(word.value, query) then
      if queryStartWithUpper && !IsLink(word) then
        var c := CapitalizeFirstLetter(word.value);
        NormalizeCapitalized(word.value);
        StartsWithIncludes(Normalize(c), Normalize(query));
        Judgement(word.(value := c), Some(c), false)
      else
        StartsWithIncludes(Normalize(word.value), Normalize(query));
        Judgement(word, Some(word.value), false)
    else if LowerIncludesWithoutSpace(word.value, query) then
      Judgement(word, Some(word.value), false)
    else
      var matchedAlias := Find(word.aliases, a => LowerIncludesWithoutSpace(a, query));
      EmptyAliasNeverMatches(word.value, query);
      if matchedAlias.Some? && matchedAlias.value != "" then
        Judgement(word, Some(matchedAlias.value), true)
      else
        Judgement(word, None, false)
  }

  /** The partial policy finds everything the prefix policy finds. */
  lemma {:induction false} PartialMatchFindsPrefixMatches(word: Word, query: string, upper: bool)
    ensures Judge(word, query, upper).value.Some? ==> JudgeByPartialMatch(word, query, upper).value.Some?
  {
    if Judge(word, query, upper).value.Some? && !LowerStartsWithoutSpace(word.value, query) {
      var a :| a in word.aliases && LowerStartsWithoutSpace(a, query);
      StartsWithIncludes(Normalize(a), Normalize(query));
    }
  }

  function JudgeWith(strategy: MatchStrategy, word: Word, query: string, upper: bool): Judgement
  {
    match strategy
    case Prefix => Judge(word, query, upper)
    case Partial => JudgeByPartialMatch(word, query, upper)
  }

  /** `.map(judge)`: the judgement of each word, in input order. */
  function Judged(words: seq<Word>, query: string, upper: bool, strategy: MatchStrategy): (js: seq<Judgement>)
    ensures |js| == |words| && forall i :: 0 <= i < |words| ==> js[i] == JudgeWith(strategy, words[i], query, upper)
  {
    seq(|words|, i requires 0 <= i < |words| => JudgeWith(strategy, words[i], query, upper))
  }

  /** The indices from `from` on whose judgement has a value, ascending. */
  function ValuedIndices(js: seq<Judgement>, from: nat): (ks: seq<nat>)
    requires from <= |js|
    ensures |ks| <= |js| - from
    ensures forall m :: 0 <= m < |ks| ==> from <= ks[m] < |js| && js[ks[m]].value.Some?
    ensures forall m, n :: 0 <= m < n < |ks| ==> ks[m] < ks[n]
    ensures forall i :: from <= i < |js| && js[i].value.Some? ==> i in ks
    decreases |js| - from
  {
    if from == |js| then []
    else
      var rest := ValuedIndices(js, from + 1);
      if js[from].value.Some? then [from] + rest else rest
  }

  /** `.filter(x => x.value !== undefined)` from index `from` on: the
      judgements at the valued indices, in index order. */
  function ValuedFrom(js: seq<Judgement>, from: nat): (r: seq<Judgement>)
    requires from <= |js|
    ensures var ks := ValuedIndices(js, from);
            |r| == |ks| && forall m :: 0 <= m < |r| ==> r[m] == js[ks[m]]
    decreases |js| - from
  {
    if from == |js| then []
    else (if js[from].value.Some? then [js[from]] else []) + ValuedFrom(js, from + 1)
  }

  /** `.map(judge).filter(x => x.value !== undefined)`: the judgements of the
      matching words, one for each, in input order. */
  function Matched(words: seq<Word>, query: string, upper: bool, strategy: MatchStrategy): (r: seq<Judgement>)
    ensures var ks := ValuedIndices(Judged(words, query, upper, strategy), 0);
            |r| == |ks| && forall m :: 0 <= m < |r| ==> r[m] == JudgeWith(strategy, words[ks[m]], query, upper)
    ensures |r| <= |words|
    ensures forall j :: j in r ==> j.value.Some?
  {
    ValuedFrom(Judged(words, query, upper, strategy), 0)
  }

  /** Every kept judgement is the judgement of one of the words. */
  lemma MatchedProvenance(words: seq<Word>, query: string, upper: bool, strategy: MatchStrategy, j: Judgement)
    requires j in Matched(words, query, upper, strategy)
    ensures exists w :: w in words && j == JudgeWith(strategy, w, query, upper)
  {
    var r := Matched(words, query, upper, strategy);
    var ks := ValuedIndices(Judged(words, query, upper, strategy), 0);
    var m :| 0 <= m < |r| && r[m] == j;
    var w := words[ks[m]];
    assert w in words && j == JudgeWith(strategy, w, query, upper);
  }

  /** Every word that matches has its judgement kept. */
  lemma MatchedComplete(words: seq<Word>, query: string, upper: bool, strategy: MatchStrategy, w: Word)
    requires w in words && JudgeWith(strategy, w, query, upper).value.Some?
    ensures JudgeWith(strategy, w, query, upper) in Matched(words, query, upper, strategy)
  {
    var r := Matched(words, query, upper, strategy);
    var js := Judged(words, query, upper, strategy);
    var ks := ValuedIndices(js, 0);
    var i :| 0 <= i < |words| && words[i] == w;
    assert js[i].value.Some?;
    var m :| 0 <= m < |ks| && ks[m] == i;
    assert r[m] == JudgeWith(strategy, w, query, upper);
  }

  function ValueOf(j: Judgement): string
  {
    match j.value
    case Some(v) => v
    case None => ""
  }

  /** The sort comparators of suggestWords and suggestWordsByPartialMatch,
      as written: negative puts `a` first. */
  function Compare(strategy: MatchStrategy, query: string, a: Judgement, b: Judgement): (r: int)
    ensures -1 <= r <= 1
    ensures r == 0 <==>
              (strategy.Prefix? || StartsWith(ValueOf(a), query) == StartsWith(ValueOf(b), query)) &&
              |ValueOf(a)| == |ValueOf(b)| && a.word.internalLink == b.word.internalLink && a.alias == b.alias
  {
    var av := ValueOf(a);
    var bv := ValueOf(b);
    if strategy.Partial? && StartsWith(av, query) != StartsWith(bv, query) then
      (if StartsWith(bv, query) then 1 else -1)
    else if |av| != |bv| then
      (if |av| > |bv| then 1 else -1)
    else if a.word.internalLink != b.word.internalLink then
      (if IsLink(b.word) then 1 else -1)
    else if a.alias != b.alias then
      (if a.alias then 1 else -1)
    else 0
  }

  /** The sort key: (partial policy only) values that literally start with
      the raw query first; then shorter matched values; then internal links
      (a truthy flag) before other words; then value matches before alias
      matches. */
  function RankOf(strategy: MatchStrategy, query: string, j: Judgement): (k: Key)
    ensures k.k0 == 0 <==> strategy.Prefix? || StartsWith(ValueOf(j), query)
    ensures k.k1 == |ValueOf(j)|
    ensures k.k2 == 0 <==> IsLink(j.word)
    ensures k.k3 == 0 <==> !j.alias
    ensures k.k0 <= 1 && k.k2 <= 1 && k.k3 <= 1
  {
    Key(if strategy.Partial? && !StartsWith(ValueOf(j), query) then 1 else 0,
        |ValueOf(j)|,
        if IsLink(j.word) then 0 else 1,
        if j.alias then 1 else 0)
  }

  function RankKey(strategy: MatchStrategy, query: string): Judgement -> Key
  {
    j => RankOf(strategy, query, j)
  }

  /** For words whose link flag is true or absent the comparator as written
      is the three-way comparison of the ranks, so the stable sort by rank is
      the sort the source performs. */
  lemma CompareAgreesWithRank(strategy: MatchStrategy, query: string, a: Judgement, b: Judgement)
    requires WellFormedLink(a.word) && WellFormedLink(b.word)
    ensures Compare(strategy, query, a, b) == KeyCompare(RankOf(strategy, query, a), RankOf(strategy, query, b))
  {
    var ka, kb := RankOf(strategy, query, a), RankOf(strategy, query, b);
    WellFormedLinkCases(a.word);
    WellFormedLinkCases(b.word);
    assert a.word.internalLink == b.word.internalLink <==> ka.k2 == kb.k2;
    if ka == kb {
      assert Compare(strategy, query, a, b) == 0;
    } else if KeyLe(ka, kb) {
      assert Compare(strategy, query, a, b) == -1;
    } else {
      assert Compare(strategy, query, a, b) == 1;
    }
  }

  /** With an explicit `false` the comparator answers -1 both ways round. */
  lemma CompareInconsistentForFalseLink()
    ensures var a := Judgement(Word("cat", None, [], Some(false)), Some("cat"), false);
            var b := Judgement(Word("cat", None, [], None), Some("cat"), false);
            Compare(Prefix, "c", a, b) == -1 && Compare(Prefix, "c", b, a) == -1
  {
  }

  /** The corrected comparison (by rank, i.e. by link truthiness) is
      antisymmetric for every pair of judgements. */
  lemma RankedCompareAntisymmetric(strategy: MatchStrategy, query: string, a: Judgement, b: Judgement)
    ensures KeyCompare(RankOf(strategy, query, a), RankOf(strategy, query, b)) ==
            -KeyCompare(RankOf(strategy, query, b), RankOf(strategy, query, a))
  {
    KeyCompareAntisymmetric(RankOf(strategy, query, a), RankOf(strategy, query, b));
  }

  /** The corrected comparison ranks an explicit `false` link flag exactly
      as an absent one: the pair the comparator as written orders both ways
      compares equal both ways. */
  lemma FalseLinkRanksAsAbsent(strategy: MatchStrategy, query: string, a: Judgement)
    requires a.word.internalLink == Some(false)
    ensures var b := a.(word := a.word.(internalLink := None));
            RankOf(strategy, query, a) == RankOf(strategy, query, b) &&
            KeyCompare(RankOf(strategy, query, a), RankOf(strategy, query, b)) == 0 &&
            KeyCompare(RankOf(strategy, query, b), RankOf(strategy, query, a)) == 0
  {
  }

  /** The corrected comparison is transitive, so it is a consistent
      comparator for every input. */
  lemma RankedCompareTransitive(strategy: MatchStrategy, query: string, a: Judgement, b: Judgement, c: Judgement)
    ensures var ka, kb, kc := RankOf(strategy, query, a), RankOf(strategy, query, b), RankOf(strategy, query, c);
            KeyCompare(ka, kb) <= 0 && KeyCompare(kb, kc) <= 0 ==> KeyCompare(ka, kc) <= 0
  {
    KeyLeTotalOrder(RankOf(strategy, query, a), RankOf(strategy, query, b), RankOf(strategy, query, c));
  }

  /** The judged, filtered candidates in ranking order (before truncation). */
  function Ranked(strategy: MatchStrategy, words: seq<Word>, query: string): (r: seq<Judgement>)
    ensures Sorted(r, RankKey(strategy, query))
    ensures multiset(r) == multiset(Matched(words, query, QueryStartsWithUpper(query), strategy))
  {
    SortBySortedPermutation(Matched(words, query, QueryStartsWithUpper(query), strategy), RankKey(strategy, query));
    SortBy(Matched(words, query, QueryStartsWithUpper(query), strategy), RankKey(strategy, query))
  }

  function WordsOf(js: seq<Judgement>): (r: seq<Word>)
    ensures |r| == |js| && forall i :: 0 <= i < |js| ==> r[i] == js[i].word
  {
    seq(|js|, i requires 0 <= i < |js| => js[i].word)
  }

  /** Ranking is a stable sort of the matched candidates: ordered by rank,
      a permutation of them, and candidates of equal rank in input order. */
  lemma RankedIsStableSort(strategy: MatchStrategy, words: seq<Word>, query: string)
    ensures var m := Matched(words, query, QueryStartsWithUpper(query), strategy);
            var r := Ranked(strategy, words, query);
            Sorted(r, RankKey(strategy, query)) && multiset(r) == multiset(m) &&
            forall k :: WithKey(r, RankKey(strategy, query), k) == WithKey(m, RankKey(strategy, query), k)
  {
    var m := Matched(words, query, QueryStartsWithUpper(query), strategy);
    SortBySortedPermutation(m, RankKey(strategy, query));
    forall k ensures WithKey(SortBy(m, RankKey(strategy, query)), RankKey(strategy, query), k) ==
                     WithKey(m, RankKey(strategy, query), k) {
      SortByStable(m, RankKey(strategy, query), k);
    }
  }

  /** The shared pipeline: judge, filter, sort, take `max`, de-duplicate. */
  function Suggest(strategy: MatchStrategy, words: seq<Word>, query: string, max: nat): (r: seq<Word>)
    ensures |r| <= max
    ensures NoDuplicateKeys(r, Identity)
    ensures IsSubsequence(r, Take(WordsOf(Ranked(strategy, words, query)), max))
    ensures KeysOf(r, Identity) == KeysOf(Take(WordsOf(Ranked(strategy, words, query)), max), Identity)
    ensures FirstOccurrences(r, Take(WordsOf(Ranked(strategy, words, query)), max), Identity)
    ensures forall x :: x in r ==> Provenant(strategy, words, query, x)
  {
    var r := UniqBy(Take(WordsOf(Ranked(strategy, words, query)), max), Identity);
    SuggestProvenance(strategy, words, query, Take(WordsOf(Ranked(strategy, words, query)), max), r);
    r
  }

  /** `x` is the word of a matching judgement of some word of `words`. */
  ghost predicate Provenant(strategy: MatchStrategy, words: seq<Word>, query: string, x: Word)
  {
    exists w ::
      w in words &&
      JudgeWith(strategy, w, query, QueryStartsWithUpper(query)).value.Some? &&
      JudgeWith(strategy, w, query, QueryStartsWithUpper(query)).word == x
  }

  lemma SuggestProvenance(strategy: MatchStrategy, words: seq<Word>, query: string,
                          candidate: seq<Word>, r: seq<Word>)
    requires |candidate| <= |Ranked(strategy, words, query)|
    requires candidate == WordsOf(Ranked(strategy, words, query))[..|candidate|]
    requires IsSubsequence(r, candidate)
    ensures forall x :: x in r ==> Provenant(strategy, words, query, x)
  {
    SubsequenceMembers(r, candidate);
    forall x | x in r ensures Provenant(strategy, words, query, x) {
      CandidateProvenance(strategy, words, query, candidate, x);
    }
  }

  lemma CandidateProvenance(strategy: MatchStrategy, words: seq<Word>, query: string, candidate: seq<Word>, x: Word)
    requires |candidate| <= |Ranked(strategy, words, query)|
    requires candidate == WordsOf(Ranked(strategy, words, query))[..|candidate|]
    requires x in candidate
    ensures Provenant(strategy, words, query, x)
  {
    var ranked := Ranked(strategy, words, query);
    var i :| 0 <= i < |candidate| && candidate[i] == x;
    assert ranked[i].word == x;
    RankedProvenance(strategy, words, query, ranked[i]);
  }

  lemma RankedProvenance(strategy: MatchStrategy, words: seq<Word>, query: string, j: Judgement)
    requires j in Ranked(strategy, words, query)
    ensures j.value.Some? && Provenant(strategy, words, query, j.word)
  {
    var upper := QueryStartsWithUpper(query);
    var matched := Matched(words, query, upper, strategy);
    SortBySortedPermutation(matched, RankKey(strategy, query));
    assert j in multiset(Ranked(strategy, words, query));
    assert j in matched;
    MatchedProvenance(words, query, upper, strategy, j);
    var w :| w in words && j == JudgeWith(strategy, w, query, upper);
  }

  /** Ranking order in words: under the partial policy values that start
      with the raw query come before all others; among those that agree on
      that, shorter matched values come first. */
  lemma RankedOrder(strategy: MatchStrategy, words: seq<Word>, query: string, i: nat, j: nat)
    requires i < j < |Ranked(strategy, words, query)|
    ensures var r := Ranked(strategy, words, query);
            strategy.Partial? && StartsWith(ValueOf(r[j]), query) ==> StartsWith(ValueOf(r[i]), query)
    ensures var r := Ranked(strategy, words, query);
            (strategy.Prefix? || (StartsWith(ValueOf(r[i]), query) <==> StartsWith(ValueOf(r[j]), query))) ==>
              |ValueOf(r[i])| <= |ValueOf(r[j])|
  {
    var r := Ranked(strategy, words, query);
    RankedIsStableSort(strategy, words, query);
    assert KeyLe(RankKey(strategy, query)(r[i]), RankKey(strategy, query)(r[j]));
  }

  /** When `max` leaves room for every match, every matching word's identity
      reaches the result. */
  lemma SuggestKeepsAllWhenRoom(strategy: MatchStrategy, words: seq<Word>, query: string, max: nat, w: Word)
    requires max >= |words|
    requires w in words && JudgeWith(strategy, w, query, QueryStartsWithUpper(query)).value.Some?
    ensures Identity(JudgeWith(strategy, w, query, QueryStartsWithUpper(query)).word) in
            KeysOf(Suggest(strategy, words, query, max), Identity)
  {
    var j := JudgeWith(strategy, w, query, QueryStartsWithUpper(query));
    var m := Matched(words, query, QueryStartsWithUpper(query), strategy);
    var ranked := Ranked(strategy, words, query);
    MatchedComplete(words, query, QueryStartsWithUpper(query), strategy, w);
    RankedIsStableSort(strategy, words, query);
    assert j in multiset(ranked);
    var i :| 0 <= i < |ranked| && ranked[i] == j;
    var ws := WordsOf(ranked);
    assert Take(ws, max) == ws;
    assert Identity(ws[i]) in KeysOf(ws, Identity);
  }

  /** Of the ranked words that share an identity, the one kept is the
      highest ranked. */
  lemma SuggestKeepsBestRanked(strategy: MatchStrategy, words: seq<Word>, query: string, max: nat, i: nat, k: nat)
    requires i < |Suggest(strategy, words, query, max)|
    requires k < |Take(WordsOf(Ranked(strategy, words, query)), max)|
    requires Identity(Take(WordsOf(Ranked(strategy, words, query)), max)[k]) ==
             Identity(Suggest(strategy, words, query, max)[i])
    ensures exists j :: 0 <= j <= k &&
              Take(WordsOf(Ranked(strategy, words, query)), max)[j] == Suggest(strategy, words, query, max)[i]
  {
    UniqByKeepsFirst(Take(WordsOf(Ranked(strategy, words, query)), max), Identity, i, k);
  }

  const Cat := Word("cat", None, [], None)
  const CatWithDescription := Word("cat", Some("feline"), [], None)
  const Cats := Word("cats", None, [], None)

  /** Truncation comes before de-duplication: two matches share an identity
      and fill `max` = 2, so only one word comes back although a second,
      distinct match ("cats") exists. */
  lemma TruncationBeforeDeduplication()
    ensures Suggest(Prefix, [Cat, CatWithDescription, Cats], "c", 2) == [Cat]
    ensures Identity(Cats) != Identity(Cat)
  {
    ExampleRanked();
    ExampleTaken();
    ExampleUniq();
  }

  lemma ExampleRanked()
    ensures Ranked(Prefix, [Cat, CatWithDescription, Cats], "c") ==
            [Judgement(Cat, Some("cat"), false), Judgement(CatWithDescription, Some("cat"), false),
             Judgement(Cats, Some("cats"), false)]
  {
    assert !QueryStartsWithUpper("c") by {
      assert CapitalizeFirstLetter("c")[0] == 'C';
    }
    ExampleMatched();
    ExampleSorted();
  }

  lemma ExampleTaken()
    ensures Take(WordsOf([Judgement(Cat, Some("cat"), false), Judgement(CatWithDescription, Some("cat"), false),
                          Judgement(Cats, Some("cats"), false)]), 2) == [Cat, CatWithDescription]
  {
    var ws := WordsOf([Judgement(Cat, Some("cat"), false), Judgement(CatWithDescription, Some("cat"), false),
                       Judgement(Cats, Some("cats"), false)]);
    assert ws == [Cat, CatWithDescription, Cats];
  }

  lemma ExampleMatched()
    ensures Matched([Cat, CatWithDescription, Cats], "c", false, Prefix) ==
            [Judgement(Cat, Some("cat"), false), Judgement(CatWithDescription, Some("cat"), false),
             Judgement(Cats, Some("cats"), false)]
  {
    var ws := [Cat, CatWithDescription, Cats];
    ExampleJudged();
    var js := Judged(ws, "c", false, Prefix);
    EveryIndexValued(js);
    var r := Matched(ws, "c", false, Prefix);
    assert r[0] == JudgeWith(Prefix, Cat, "c", false) && r[1] == JudgeWith(Prefix, CatWithDescription, "c", false) &&
           r[2] == JudgeWith(Prefix, Cats, "c", false);
  }

  /** Three judgements that all have a value are all kept. */
  lemma EveryIndexValued(js: seq<Judgement>)
    requires |js| == 3 && js[0].value.Some? && js[1].value.Some? && js[2].value.Some?
    ensures ValuedIndices(js, 0) == [0, 1, 2]
  {
    assert ValuedIndices(js, 3) == [];
    assert ValuedIndices(js, 2) == [2];
    assert ValuedIndices(js, 1) == [1, 2];
  }

  lemma ExampleJudged()
    ensures JudgeWith(Prefix, Cat, "c", false) == Judgement(Cat, Some("cat"), false)
    ensures JudgeWith(Prefix, CatWithDescription, "c", false) == Judgement(CatWithDescription, Some("cat"), false)
    ensures JudgeWith(Prefix, Cats, "c", false) == Judgement(Cats, Some("cats"), false)
  {
    JudgeLiteral(Cat, "c");
    JudgeLiteral(CatWithDescription, "c");
    JudgeLiteral(Cats, "c");
  }

  lemma ExampleSorted()
    ensures var j0, j1, j2 := Judgement(Cat, Some("cat"), false), Judgement(CatWithDescription, Some("cat"), false),
                              Judgement(Cats, Some("cats"), false);
            SortBy([j0, j1, j2], RankKey(Prefix, "c")) == [j0, j1, j2]
  {
    var j0, j1, j2 := Judgement(Cat, Some("cat"), false), Judgement(CatWithDescription, Some("cat"), false),
                      Judgement(Cats, Some("cats"), false);
    var key := RankKey(Prefix, "c");
    assert key(j0) == Key(0, 3, 1, 0) && key(j1) == Key(0, 3, 1, 0) && key(j2) == Key(0, 4, 1, 0);
    assert [j0, j1, j2][1..] == [j1, j2] && [j1, j2][1..] == [j2] && [j2][1..] == [];
    assert SortBy([j2], key) == [j2];
    assert SortBy([j1, j2], key) == Insert(j1, [j2], key) == [j1, j2];
    assert SortBy([j0, j1, j2], key) == Insert(j0, [j1, j2], key) == [j0, j1, j2];
  }

  lemma ExampleUniq()
    ensures UniqBy([Cat, CatWithDescription], Identity) == [Cat]
  {
    var t := [Cat, CatWithDescription];
    assert t[..1] == [Cat] && [Cat][..0] == [];
    assert UniqBy([Cat], Identity) == [Cat];
    assert Identity(CatWithDescription) in KeysOf([Cat], Identity);
  }

  /** The prefix judgement of a lower-case ASCII word against a query that is
      a prefix of it. */
  lemma JudgeLiteral(w: Word, query: string)
    requires w.internalLink.None? && w.aliases == []
    requires forall c :: c in w.value ==> 'a' <= c <= 'z'
    requires forall c :: c in query ==> 'a' <= c <= 'z'
    requires StartsWith(w.value, query) && !QueryStartsWithUpper(query)
    ensures Judge(w, query, false) == Judgement(w, Some(w.value), false)
  {
    NormalizeLowerWord(w.value);
    NormalizeLowerWord(query);
  }

  /** suggestWords reads only the buckets of the query's first letter and
      its other case: indexes that agree there give the same suggestions. */
  lemma SuggestWordsReadsOnlyQueryBuckets(a: IndexedWords, b: IndexedWords, query: string, max: nat)
    requires var c := FirstLetter(query);
             forall key :: key in {c, Lower(c), Upper(c)} ==>
               Lookup(a.currentFile, key) == Lookup(b.currentFile, key) &&
               Lookup(a.customDictionary, key) == Lookup(b.customDictionary, key) &&
               Lookup(a.internalLink, key) == Lookup(b.internalLink, key)
    ensures SuggestWords(a, query, max) == SuggestWords(b, query, max)
  {
    var c := FirstLetter(query);
    assert c in {c, Lower(c), Upper(c)} && Lower(c) in {c, Lower(c), Upper(c)} && Upper(c) in {c, Lower(c), Upper(c)};
    assert Gather(a, query) == Gather(b, query);
  }

  /** The first character of the query, as `query.charAt(0)`. */
  function FirstLetter(query: string): string
  {
    if |query| == 0 then "" else [query[0]]
  }

  /** A bucket `key` of one of the three sources holds `w`. */
  predicate InBucketsAt(indexed: IndexedWords, key: string, w: Word)
  {
    w in Lookup(indexed.currentFile, key) || w in Lookup(indexed.customDictionary, key) ||
    w in Lookup(indexed.internalLink, key)
  }

  /** The buckets suggestWords reads. For a query that starts with an
      upper-case letter: the buckets of its first character and of that
      character's lower case, in each of the three sources. Otherwise: the
      first character's bucket of each source, and the upper-case bucket of
      the internal links. (The result lists them source by source.) */
  function Gather(indexed: IndexedWords, query: string): (r: seq<Word>)
    ensures var c := FirstLetter(query);
            QueryStartsWithUpper(query) ==>
              forall w :: w in r <==> InBucketsAt(indexed, c, w) || InBucketsAt(indexed, Lower(c), w)
    ensures var c := FirstLetter(query);
            !QueryStartsWithUpper(query) ==>
              forall w :: w in r <==> InBucketsAt(indexed, c, w) || w in Lookup(indexed.internalLink, Upper(c))
  {
    var c := FirstLetter(query);
    if QueryStartsWithUpper(query) then
      Lookup(indexed.currentFile, c) + Lookup(indexed.currentFile, Lower(c)) +
      Lookup(indexed.customDictionary, c) + Lookup(indexed.customDictionary, Lower(c)) +
      Lookup(indexed.internalLink, c) + Lookup(indexed.internalLink, Lower(c))
    else
      Lookup(indexed.currentFile, c) + Lookup(indexed.customDictionary, c) +
      Lookup(indexed.internalLink, c) + Lookup(indexed.internalLink, Upper(c))
  }

  /** suggestWords: the prefix policy over the query's first-letter buckets. */
  function SuggestWords(indexed: IndexedWords, query: string, max: nat): (r: seq<Word>)
    ensures |r| <= max
    ensures NoDuplicateKeys(r, Identity)
    ensures IsSubsequence(r, Take(WordsOf(Ranked(Prefix, Gather(indexed, query), query)), max))
    ensures KeysOf(r, Identity) == KeysOf(Take(WordsOf(Ranked(Prefix, Gather(indexed, query), query)), max), Identity)
    ensures FirstOccurrences(r, Take(WordsOf(Ranked(Prefix, Gather(indexed, query), query)), max), Identity)
    ensures forall x :: x in r ==> Provenant(Prefix, Gather(indexed, query), query, x)
  {
    Suggest(Prefix, Gather(indexed, query), query, max)
  }

  /** Every word of every source, in source order: the substring policy
      scans every bucket of every source. */
  function AllWords(indexed: IndexedWords): (r: seq<Word>)
    ensures indexed.currentFile.Valid() && indexed.customDictionary.Valid() && indexed.internalLink.Valid() ==>
            forall w :: w in r <==>
              InSomeBucket(indexed.currentFile, w) || InSomeBucket(indexed.customDictionary, w) ||
              InSomeBucket(indexed.internalLink, w)
  {
    Values(indexed.currentFile) + Values(indexed.customDictionary) + Values(indexed.internalLink)
  }

  /** suggestWordsByPartialMatch: the partial policy over every bucket. */
  function SuggestWordsByPartialMatch(indexed: IndexedWords, query: string, max: nat): (r: seq<Word>)
    ensures |r| <= max
    ensures NoDuplicateKeys(r, Identity)
    ensures IsSubsequence(r, Take(WordsOf(Ranked(Partial, AllWords(indexed), query)), max))
    ensures KeysOf(r, Identity) == KeysOf(Take(WordsOf(Ranked(Partial, AllWords(indexed), query)), max), Identity)
    ensures FirstOccurrences(r, Take(WordsOf(Ranked(Partial, AllWords(indexed), query)), max), Identity)
    ensures forall x :: x in r ==> Provenant(Partial, AllWords(indexed), query, x)
  {
    Suggest(Partial, AllWords(indexed), query, max)
  }

  /** MatchStrategy.handler */
  function Handler(strategy: MatchStrategy, indexed: IndexedWords, query: string, max: nat): (r: seq<Word>)
    ensures |r| <= max && NoDuplicateKeys(r, Identity)
  {
    match strategy
    case Prefix => SuggestWords(indexed, query, max)
    case Partial => SuggestWordsByPartialMatch(indexed, query, max)
  }
}
