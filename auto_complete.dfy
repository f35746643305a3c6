/** The editor-facing half of the completion plugin
    (src/ui/AutoCompleteSuggest.ts): the trigger decision, the body of the
    debounced query callback, and the text and ranges of an accepted or
    displayed suggestion. The tokenizer and the editor are foreign code; they
    appear as values passed in. */
module AutoComplete {
  import opened Collections
  import opened Strings
  import opened Suggester

  /** The settings this component reads. Slider-backed numbers are `nat`. */
  datatype Settings = Settings(
    matchStrategy: MatchStrategy,
    maxNumberOfSuggestions: nat,
    maxNumberOfWordsAsPhrase: nat,
    minNumberOfCharactersTriggered: nat,
    minNumberOfWordsTriggeredPhrase: nat,
    complementAutomatically: bool,
    disableSuggestionsDuringImeOn: bool,
    insertAfterCompletion: bool,
    suggestInternalLinkWithAlias: bool,
    delimiterToHideSuggestion: string,
    caretLocationSymbolAfterComplement: string)

  /** The ranges the settings tab allows for its sliders. */
  predicate WithinSliderLimits(s: Settings)
  {
    1 <= s.maxNumberOfSuggestions <= 255 &&
    1 <= s.maxNumberOfWordsAsPhrase <= 10 &&
    s.minNumberOfCharactersTriggered <= 10 &&
    1 <= s.minNumberOfWordsTriggeredPhrase <= 10
  }

  /** A token with its offset in the line. */
  datatype Token = Token(word: string, offset: int)

  /** What this component asks of the tokenizer chosen by the settings. */
  datatype Tokenizer = Tokenizer(
    recursiveTokenize: string -> seq<Token>,
    shouldIgnore: string -> bool,
    matchesTrimPattern: string -> bool,
    triggerThreshold: nat)

  datatype Position = Position(line: int, ch: int)

  /** The trigger info handed to the host. The query, serialised as JSON in
      the source, is kept as the token list it encodes. */
  datatype TriggerInfo = TriggerInfo(start: Position, end: Position, query: seq<Token>)

  /** minNumberTriggered: the configured minimum, or the tokenizer's
      threshold when the configured value is 0. */
  function MinNumberTriggered(settings: Settings, tokenizer: Tokenizer): (r: nat)
    ensures settings.minNumberOfCharactersTriggered > 0 ==> r == settings.minNumberOfCharactersTriggered
    ensures settings.minNumberOfCharactersTriggered == 0 ==> r == tokenizer.triggerThreshold
  {
    if settings.minNumberOfCharactersTriggered != 0 then settings.minNumberOfCharactersTriggered
    else tokenizer.triggerThreshold
  }

  /** The last `maxWords` tokens (all of them when there are fewer). */
  function PhraseWindow(tokens: seq<Token>, maxWords: nat): (r: seq<Token>)
    ensures |r| == if |tokens| > maxWords then maxWords else |tokens|
    ensures forall i :: 0 <= i < |r| ==> r[i] == tokens[|tokens| - |r| + i]
  {
    tokens[if |tokens| > maxWords then |tokens| - maxWords else 0..]
  }

  /** Offsets made relative to the first token of the window. */
  function Rebase(window: seq<Token>): (r: seq<Token>)
    ensures |r| == |window|
    ensures forall i :: 0 <= i < |r| ==>
              r[i].word == window[i].word && r[i].offset == window[i].offset - window[0].offset
    ensures |r| > 0 ==> r[0].offset == 0
  {
    seq(|window|, i requires 0 <= i < |window| => window[i].(offset := window[i].offset - window[0].offset))
  }

  /** `currentTokens[0]?.word`, with an absent token read as "" (both are
      falsy). */
  function FirstWord(window: seq<Token>): string
  {
    if |window| == 0 then "" else window[0].word
  }

  /** The line up to the cursor opens front matter, a horizontal rule or a
      fenced code block. */
  predicate IsFenceLine(line: string)
  {
    StartsWith(line, "---") || StartsWith(line, "~~~") || StartsWith(line, "```")
  }

  /** The last space-separated fragment starts with ':', '/' or '^'. */
  predicate ConflictsWithCommands(line: string)
  {
    var fragment := LastFragment(line);
    |fragment| > 0 && (fragment[0] == ':' || fragment[0] == '/' || fragment[0] == '^')
  }

  /** What one onTrigger call returns and does to the two fields it writes:
      the new `runManually`, and the new `contextStartCh` when it is set. */
  datatype TriggerOutcome = TriggerOutcome(info: Option<TriggerInfo>, runManually: bool, contextStartCh: Option<int>)

  /** What every onTrigger outcome satisfies: `runManually` is never set,
      only kept or cleared; `contextStartCh` is written exactly when a trigger
      is returned; and a trigger clears the flag, holds at least one token
      and ends at the cursor on the cursor's line. */
  predicate OutcomeShape(manual: bool, cursor: Position, r: TriggerOutcome)
  {
    (r.runManually ==> manual) &&
    (r.info.Some? <==> r.contextStartCh.Some?) &&
    (r.info.Some? ==>
       !r.runManually && |r.info.value.query| > 0 &&
       r.info.value.end == cursor && r.info.value.start.line == cursor.line)
  }

  /** The first two gates: automatic completion off with the panel closed,
      or the IME composing with IME suppression on; a manual call passes both. */
  predicate Gated(settings: Settings, manual: bool, isOpen: bool, imeOn: bool)
  {
    (!settings.complementAutomatically && !isOpen && !manual) ||
    (settings.disableSuggestionsDuringImeOn && imeOn && !manual)
  }

  /** The token checks that clear `runManually`: no current token, a
      command prefix, or a lone character of the trim pattern. */
  predicate RejectsToken(tokenizer: Tokenizer, line: string, current: string)
  {
    current == "" || ConflictsWithCommands(line) || (|current| == 1 && tokenizer.matchesTrimPattern(current))
  }

  /** The checks a manual call skips: too short a token, or an ignored one. */
  predicate BelowThreshold(settings: Settings, tokenizer: Tokenizer, current: string)
  {
    |current| < MinNumberTriggered(settings, tokenizer) || tokenizer.shouldIgnore(current)
  }

  /** The decision onTrigger makes. `manual` is `runManually` on entry,
      `isOpen` whether the suggestion panel is open and `imeOn` whether an
      input method is composing. */
  function Trigger(settings: Settings, tokenizer: Tokenizer, manual: bool, isOpen: bool, imeOn: bool,
                   cursor: Position, line: string): (r: TriggerOutcome)
    ensures OutcomeShape(manual, cursor, r)
  {
    if Gated(settings, manual, isOpen, imeOn) || IsFenceLine(line) then TriggerOutcome(None, manual, None)
    else TriggerOnTokens(settings, tokenizer, manual, cursor, line, tokenizer.recursiveTokenize(line))
  }

  /** The rest of the decision, once the recursive tokens of the line are known. */
  function TriggerOnTokens(settings: Settings, tokenizer: Tokenizer, manual: bool, cursor: Position,
                           line: string, tokenized: seq<Token>): (r: TriggerOutcome)
    ensures OutcomeShape(manual, cursor, r)
  {
    var window := PhraseWindow(tokenized, settings.maxNumberOfWordsAsPhrase);
    var current := FirstWord(window);
    if RejectsToken(tokenizer, line, current) then TriggerOutcome(None, false, None)
    else if !manual && BelowThreshold(settings, tokenizer, current) then TriggerOutcome(None, manual, None)
    else
      var start := Position(cursor.line, cursor.ch - |tokenized[|tokenized| - 1].word|);
      TriggerOutcome(Some(TriggerInfo(start, cursor, Rebase(window))), false, Some(cursor.ch - |current|))
  }

  /** Suggestions are off while automatic completion is off, the panel is
      closed and the call is not manual, and while the IME is composing with
      IME suppression on; neither gate touches the fields. */
  lemma TriggerGates(settings: Settings, tokenizer: Tokenizer, manual: bool, isOpen: bool, imeOn: bool,
                     cursor: Position, line: string)
    requires (!settings.complementAutomatically && !isOpen && !manual) ||
             (settings.disableSuggestionsDuringImeOn && imeOn && !manual)
    ensures Trigger(settings, tokenizer, manual, isOpen, imeOn, cursor, line) == TriggerOutcome(None, false, None)
  {
  }

  /** A fence line never triggers, and leaves `runManually` as it was. */
  lemma FenceLineNeverTriggers(settings: Settings, tokenizer: Tokenizer, manual: bool, isOpen: bool, imeOn: bool,
                               cursor: Position, line: string)
    requires IsFenceLine(line)
    ensures var o := Trigger(settings, tokenizer, manual, isOpen, imeOn, cursor, line);
            o.info.None? && o.runManually == manual && o.contextStartCh.None?
  {
  }

  /** After a call, `runManually` is still set only when it was set and the
      line was a fence line: every other path clears it. */
  lemma RunManuallySurvivesOnlyFences(settings: Settings, tokenizer: Tokenizer, manual: bool, isOpen: bool,
                                      imeOn: bool, cursor: Position, line: string)
    ensures Trigger(settings, tokenizer, manual, isOpen, imeOn, cursor, line).runManually <==>
            manual && IsFenceLine(line)
  {
  }

  /** The conditions under which onTrigger returns a trigger, all of them. */
  predicate Admits(settings: Settings, tokenizer: Tokenizer, manual: bool, isOpen: bool, imeOn: bool, line: string)
  {
    var current := FirstWord(PhraseWindow(tokenizer.recursiveTokenize(line), settings.maxNumberOfWordsAsPhrase));
    (settings.complementAutomatically || isOpen || manual) &&
    (!settings.disableSuggestionsDuringImeOn || !imeOn || manual) &&
    !IsFenceLine(line) &&
    current != "" &&
    !ConflictsWithCommands(line) &&
    !(|current| == 1 && tokenizer.matchesTrimPattern(current)) &&
    (manual || (|current| >= MinNumberTriggered(settings, tokenizer) && !tokenizer.shouldIgnore(current)))
  }

  /** onTrigger returns a trigger exactly when every check passes; in
      particular a manual call skips the length and ignore checks. */
  lemma TriggerIffAdmits(settings: Settings, tokenizer: Tokenizer, manual: bool, isOpen: bool, imeOn: bool,
                         cursor: Position, line: string)
    ensures Trigger(settings, tokenizer, manual, isOpen, imeOn, cursor, line).info.Some? <==>
            Admits(settings, tokenizer, manual, isOpen, imeOn, line)
  {
  }

  /** A rejection for an empty token, a command prefix or a lone trim
      character clears `runManually`. */
  lemma TriggerClearsOnTokenRejection(settings: Settings, tokenizer: Tokenizer, manual: bool, isOpen: bool,
                                      imeOn: bool, cursor: Position, line: string)
    requires settings.complementAutomatically || isOpen || manual
    requires !settings.disableSuggestionsDuringImeOn || !imeOn || manual
    requires !IsFenceLine(line)
    requires var current := FirstWord(PhraseWindow(tokenizer.recursiveTokenize(line), settings.maxNumberOfWordsAsPhrase));
             current == "" || ConflictsWithCommands(line) || (|current| == 1 && tokenizer.matchesTrimPattern(current))
    ensures Trigger(settings, tokenizer, manual, isOpen, imeOn, cursor, line) == TriggerOutcome(None, false, None)
  {
  }

  /** The shape of a trigger: the query is the rebased phrase window (see
      RebasedWindow), the range ends at the cursor and starts the last
      token's length before it, and `contextStartCh` is the first window
      token's length before the cursor. */
  lemma TriggerSuccessShape(settings: Settings, tokenizer: Tokenizer, manual: bool, isOpen: bool, imeOn: bool,
                            cursor: Position, line: string)
    requires Trigger(settings, tokenizer, manual, isOpen, imeOn, cursor, line).info.Some?
    ensures var tokens := tokenizer.recursiveTokenize(line);
            var window := PhraseWindow(tokens, settings.maxNumberOfWordsAsPhrase);
            0 < |window| &&
            Trigger(settings, tokenizer, manual, isOpen, imeOn, cursor, line) ==
            TriggerOutcome(Some(TriggerInfo(Position(cursor.line, cursor.ch - |tokens[|tokens| - 1].word|),
                                            cursor, Rebase(window))),
                           false, Some(cursor.ch - |window[0].word|))
  {
    var tokens := tokenizer.recursiveTokenize(line);
    assert Trigger(settings, tokenizer, manual, isOpen, imeOn, cursor, line) ==
           TriggerOnTokens(settings, tokenizer, manual, cursor, line, tokens);
  }

  /** Within the settings' slider limits a trigger's query holds between one
      and ten tokens. */
  lemma TriggerQueryWithinPhraseLimit(settings: Settings, tokenizer: Tokenizer, manual: bool, isOpen: bool,
                                      imeOn: bool, cursor: Position, line: string)
    requires WithinSliderLimits(settings)
    requires Trigger(settings, tokenizer, manual, isOpen, imeOn, cursor, line).info.Some?
    ensures var q := Trigger(settings, tokenizer, manual, isOpen, imeOn, cursor, line).info.value.query;
            1 <= |q| <= 10
  {
    TriggerSuccessShape(settings, tokenizer, manual, isOpen, imeOn, cursor, line);
  }

  /** The query of a trigger lists the last min(n, maxNumberOfWordsAsPhrase)
      recursive tokens, offsets relative to the first of them. */
  lemma RebasedWindow(tokens: seq<Token>, m: nat)
    ensures var q := Rebase(PhraseWindow(tokens, m));
            var n := |tokens|;
            |q| == (if n > m then m else n) &&
            (|q| > 0 ==> q[0].offset == 0) &&
            forall i :: 0 <= i < |q| ==>
              q[i].word == tokens[n - |q| + i].word &&
              q[i].offset == tokens[n - |q| + i].offset - tokens[n - |q|].offset
  {
  }

  /** The suggest widget. `settings` and `tokenizer` come from the plugin
      settings; `isOpen` is maintained by the host; `runManually` is set by
      the manual-completion command and read and cleared here. */
  class AutoCompleteSuggest {
    var settings: Settings
    var tokenizer: Tokenizer
    var runManually: bool
    var isOpen: bool
    var contextStartCh: int

    constructor (settings: Settings, tokenizer: Tokenizer)
      ensures this.settings == settings && this.tokenizer == tokenizer
      ensures !runManually && !isOpen && contextStartCh == 0
    {
      this.settings := settings;
      this.tokenizer := tokenizer;
      runManually := false;
      isOpen := false;
      contextStartCh := 0;
    }

    /** onTrigger, for the line text up to `cursor`. */
    method OnTrigger(cursor: Position, lineUntilCursor: string, imeOn: bool) returns (r: Option<TriggerInfo>)
      modifies this`runManually, this`contextStartCh
      ensures var o := Trigger(settings, tokenizer, old(runManually), isOpen, imeOn, cursor, lineUntilCursor);
              r == o.info && runManually == o.runManually &&
              contextStartCh == (if o.contextStartCh.Some? then o.contextStartCh.value else old(contextStartCh))
    {
      if !settings.complementAutomatically && !isOpen && !runManually {
        assert Gated(settings, runManually, isOpen, imeOn);
        return None;
      }
      if settings.disableSuggestionsDuringImeOn && imeOn && !runManually {
        assert Gated(settings, runManually, isOpen, imeOn);
        return None;
      }
      if StartsWith(lineUntilCursor, "---") {
        assert IsFenceLine(lineUntilCursor);
        return None;
      }
      if StartsWith(lineUntilCursor, "~~~") || StartsWith(lineUntilCursor, "```") {
        assert IsFenceLine(lineUntilCursor);
        return None;
      }
      assert !Gated(settings, runManually, isOpen, imeOn) && !IsFenceLine(lineUntilCursor);
      r := OnTokens(cursor, lineUntilCursor, tokenizer.recursiveTokenize(lineUntilCursor));
    }

    /** The rest of onTrigger, from the recursive tokens of the line on. */
    method OnTokens(cursor: Position, lineUntilCursor: string, tokenized: seq<Token>) returns (r: Option<TriggerInfo>)
      modifies this`runManually, this`contextStartCh
      ensures var o := TriggerOnTokens(settings, tokenizer, old(runManually), cursor, lineUntilCursor, tokenized);
              r == o.info && runManually == o.runManually &&
              contextStartCh == (if o.contextStartCh.Some? then o.contextStartCh.value else old(contextStartCh))
    {
      var manual, st, tk := runManually, settings, tokenizer;
      ghost var outcome := TriggerOnTokens(st, tk, manual, cursor, lineUntilCursor, tokenized);
      var currentTokens := PhraseWindow(tokenized, st.maxNumberOfWordsAsPhrase);
      var currentToken := FirstWord(currentTokens);
      if currentToken == "" {
        assert outcome == TriggerOutcome(None, false, None);
        runManually := false;
        return None;
      }

      if ConflictsWithCommands(lineUntilCursor) {
        assert outcome == TriggerOutcome(None, false, None);
        runManually := false;
        return None;
      }

      if |currentToken| == 1 && tk.matchesTrimPattern(currentToken) {
        assert outcome == TriggerOutcome(None, false, None);
        runManually := false;
        return None;
      }

      if !manual {
        if |currentToken| < MinNumberTriggered(st, tk) {
          assert outcome == TriggerOutcome(None, false, None);
          return None;
        }
        if tk.shouldIgnore(currentToken) {
          assert outcome == TriggerOutcome(None, false, None);
          return None;
        }
      }

      var start := Position(cursor.line, cursor.ch - |tokenized[|tokenized| - 1].word|);
      assert outcome == TriggerOutcome(Some(TriggerInfo(start, cursor, Rebase(currentTokens))), false,
                                       Some(cursor.ch - |currentToken|));
      runManually := false;
      contextStartCh := cursor.ch - |currentToken|;
      r := Some(TriggerInfo(start, cursor, Rebase(currentTokens)));
    }

    /** The rewrites of selectSuggestion's inserted text up to the caret step. */
    method RewriteInsertedText(word: Suggestion) returns (insertedText: string)
      ensures insertedText == TextBeforeCaret(settings, word)
    {
      insertedText := word.word.value;
      if IsLink(word.word) {
        insertedText := if settings.suggestInternalLinkWithAlias && AliasIsTruthy(word)
                        then "[[" + insertedText + "|" + word.matchedAlias.value + "]]"
                        else "[[" + insertedText + "]]";
      }
      assert insertedText == WrappedText(settings, word);
      if settings.insertAfterCompletion {
        insertedText := insertedText + " ";
      }
      assert insertedText == WrappedText(settings, word) + (if settings.insertAfterCompletion then " " else "");
      if settings.delimiterToHideSuggestion != "" {
        insertedText := RemoveFirst(insertedText, settings.delimiterToHideSuggestion);
      }
    }

    /** The text and edit of selectSuggestion, for the host's context (None
        when there is none) and the editor offset of the cursor after the
        replacement. */
    method SelectSuggestion(word: Suggestion, context: Option<SuggestContext>, cursorOffsetAfterReplace: int)
      returns (edit: Option<Edit>)
      ensures context.None? ==> edit.None?
      ensures context.Some? ==>
                edit.Some? &&
                edit.value.from == Position(context.value.start.line, contextStartCh + word.offset) &&
                edit.value.to == context.value.end
      ensures context.Some? ==>
                var pre := TextBeforeCaret(settings, word);
                var caret := settings.caretLocationSymbolAfterComplement;
                if caret != "" && IndexOf(pre, caret).Some? then
                  var p := IndexOf(pre, caret).value;
                  |edit.value.text| == |pre| - |caret| &&
                  edit.value.text[..p] == pre[..p] && edit.value.text[p..] == pre[p + |caret|..] &&
                  edit.value.cursor == Some(cursorOffsetAfterReplace - |edit.value.text| + p)
                else
                  edit.value.text == pre && edit.value.cursor.None?
    {
      if context.None? {
        return None;
      }

      var insertedText := RewriteInsertedText(word);
      var caret := settings.caretLocationSymbolAfterComplement;
      var positionToMove := if caret != "" then IndexOf(insertedText, caret) else None;
      if positionToMove.Some? {
        insertedText := RemoveFirst(insertedText, caret);
      }

      var from := Position(context.value.start.line, contextStartCh + word.offset);
      var cursor := if positionToMove.Some?
                    then Some(cursorOffsetAfterReplace - |insertedText| + positionToMove.value)
                    else None;
      edit := Some(Edit(insertedText, from, context.value.end, cursor));
    }
  }

  /** A suggestion as the widget holds it: the word, the offset of the query
      token that produced it, and the `matchedAlias` the host's word type may
      carry (nothing in this model sets it). */
  datatype Suggestion = Suggestion(word: Word, offset: int, matchedAlias: Option<string>)

  function SuggestionIdentity(s: Suggestion): (string, Option<bool>)
  {
    Identity(s.word)
  }

  /** `word.matchedAlias` is truthy: present and not "". */
  predicate AliasIsTruthy(s: Suggestion)
  {
    s.matchedAlias.Some? && s.matchedAlias.value != ""
  }

  /** The part of the suggest context selectSuggestion reads. */
  datatype SuggestContext = SuggestContext(start: Position, end: Position)

  /** The editor changes of an accepted suggestion: `text` replaces the range
      `from`..`to`; `cursor`, when present, is the offset the cursor is moved to. */
  datatype Edit = Edit(text: string, from: Position, to: Position, cursor: Option<int>)

  /** `token i` of the parsed query is queried. */
  predicate KeepQuery(settings: Settings, tokenizer: Tokenizer, queries: seq<Token>, i: nat)
    requires i < |queries|
  {
    settings.minNumberOfWordsTriggeredPhrase + i - 1 < |queries| &&
    |queries[i].word| >= MinNumberTriggered(settings, tokenizer) &&
    !tokenizer.shouldIgnore(queries[i].word) &&
    !EndsWith(queries[i].word, " ")
  }

  /** The indices from `from` on that the filter keeps, ascending. */
  function KeptIndices(settings: Settings, tokenizer: Tokenizer, queries: seq<Token>, from: nat): (ks: seq<nat>)
    requires from <= |queries|
    ensures forall m :: 0 <= m < |ks| ==> from <= ks[m] < |queries| && KeepQuery(settings, tokenizer, queries, ks[m])
    ensures forall m, n :: 0 <= m < n < |ks| ==> ks[m] < ks[n]
    ensures forall i :: from <= i < |queries| && KeepQuery(settings, tokenizer, queries, i) ==> i in ks
    decreases |queries| - from
  {
    if from == |queries| then []
    else
      var rest := KeptIndices(settings, tokenizer, queries, from + 1);
      if KeepQuery(settings, tokenizer, queries, from) then [from] + rest else rest
  }

  /** The tokens the filter keeps: the tokens at the kept indices, one for
      each, in ascending index order (a token that occurs twice is kept once
      for each kept occurrence). */
  function KeptTokens(settings: Settings, tokenizer: Tokenizer, queries: seq<Token>): (r: seq<Token>)
    ensures var ks := KeptIndices(settings, tokenizer, queries, 0);
            |r| == |ks| && forall m :: 0 <= m < |r| ==> r[m] == queries[ks[m]]
    ensures forall t :: t in r ==>
              exists i :: 0 <= i < |queries| && queries[i] == t && KeepQuery(settings, tokenizer, queries, i)
    ensures forall i :: 0 <= i < |queries| && KeepQuery(settings, tokenizer, queries, i) ==> queries[i] in r
    ensures IsSubsequence(r, queries)
  {
    var ks := KeptIndices(settings, tokenizer, queries, 0);
    var r := seq(|ks|, m requires 0 <= m < |ks| => queries[ks[m]]);
    KeptTokensFacts(settings, tokenizer, queries, r);
    r
  }

  /** The tokens at the kept indices are the tokens at kept positions, in
      query order. */
  lemma KeptTokensFacts(settings: Settings, tokenizer: Tokenizer, queries: seq<Token>, r: seq<Token>)
    requires var ks := KeptIndices(settings, tokenizer, queries, 0);
             |r| == |ks| && forall m :: 0 <= m < |r| ==> r[m] == queries[ks[m]]
    ensures forall t :: t in r ==>
              exists i :: 0 <= i < |queries| && queries[i] == t && KeepQuery(settings, tokenizer, queries, i)
    ensures forall i :: 0 <= i < |queries| && KeepQuery(settings, tokenizer, queries, i) ==> queries[i] in r
    ensures IsSubsequence(r, queries)
  {
    var ks := KeptIndices(settings, tokenizer, queries, 0);
    SubsequenceAtIndices(r, queries, ks);
    forall t | t in r
      ensures exists i :: 0 <= i < |queries| && queries[i] == t && KeepQuery(settings, tokenizer, queries, i)
    {
      var m :| 0 <= m < |r| && r[m] == t;
      assert queries[ks[m]] == t && KeepQuery(settings, tokenizer, queries, ks[m]);
    }
    forall i | 0 <= i < |queries| && KeepQuery(settings, tokenizer, queries, i) ensures queries[i] in r {
      var m :| 0 <= m < |ks| && ks[m] == i;
      assert r[m] == queries[i];
    }
  }

  /** The handler's words for one token, each carrying that token's offset. */
  function Tag(words: seq<Word>, offset: int): (r: seq<Suggestion>)
    ensures |r| == |words|
    ensures forall i :: 0 <= i < |r| ==> r[i] == Suggestion(words[i], offset, None)
  {
    seq(|words|, i requires 0 <= i < |words| => Suggestion(words[i], offset, None))
  }

  /** The handler's words for token `t`, each carrying the token's offset. */
  function TagsOf(settings: Settings, indexed: IndexedWords, t: Token): seq<Suggestion>
  {
    Tag(Handler(settings.matchStrategy, indexed, t.word, settings.maxNumberOfSuggestions), t.offset)
  }

  /** The words of every kept token, concatenated in token order: the tagged
      handler results of the kept indices, ascending. */
  function Tagged(settings: Settings, tokenizer: Tokenizer, indexed: IndexedWords, queries: seq<Token>):
    (r: seq<Suggestion>)
    ensures var ks := KeptIndices(settings, tokenizer, queries, 0);
            r == Flatten(seq(|ks|, m requires 0 <= m < |ks| => TagsOf(settings, indexed, queries[ks[m]])))
    ensures forall s :: s in r ==> s.matchedAlias.None? && FromKeptToken(settings, tokenizer, indexed, queries, s)
    ensures forall i, w :: 0 <= i < |queries| && KeepQuery(settings, tokenizer, queries, i) &&
                           w in Handler(settings.matchStrategy, indexed, queries[i].word, settings.maxNumberOfSuggestions) ==>
                             Suggestion(w, queries[i].offset, None) in r
  {
    var ks := KeptIndices(settings, tokenizer, queries, 0);
    var ss := seq(|ks|, m requires 0 <= m < |ks| => TagsOf(settings, indexed, queries[ks[m]]));
    TagsFromKeptTokens(settings, tokenizer, indexed, queries, ss);
    KeptTokensAllTagged(settings, tokenizer, indexed, queries, ss);
    Flatten(ss)
  }

  /** `s` is in the handler result of a kept token and carries its offset. */
  predicate FromKeptToken(settings: Settings, tokenizer: Tokenizer, indexed: IndexedWords, queries: seq<Token>,
                          s: Suggestion)
  {
    exists i :: 0 <= i < |queries| && KeepQuery(settings, tokenizer, queries, i) &&
                s.offset == queries[i].offset &&
                s.word in Handler(settings.matchStrategy, indexed, queries[i].word, settings.maxNumberOfSuggestions)
  }

  /** Every suggestion of the concatenated, tagged handler results comes
      from a kept token. */
  lemma TagsFromKeptTokens(settings: Settings, tokenizer: Tokenizer, indexed: IndexedWords, queries: seq<Token>,
                           ss: seq<seq<Suggestion>>)
    requires var ks := KeptIndices(settings, tokenizer, queries, 0);
             |ss| == |ks| && forall m :: 0 <= m < |ks| ==> ss[m] == TagsOf(settings, indexed, queries[ks[m]])
    ensures forall s :: s in Flatten(ss) ==> s.matchedAlias.None? && FromKeptToken(settings, tokenizer, indexed, queries, s)
  {
    var ks := KeptIndices(settings, tokenizer, queries, 0);
    forall s | s in Flatten(ss)
      ensures s.matchedAlias.None? && FromKeptToken(settings, tokenizer, indexed, queries, s)
    {
      FlattenMember(ss, s);
      var k :| 0 <= k < |ss| && s in ss[k];
      var i := ks[k];
      assert KeepQuery(settings, tokenizer, queries, i);
      var words := Handler(settings.matchStrategy, indexed, queries[i].word, settings.maxNumberOfSuggestions);
      var m :| 0 <= m < |ss[k]| && ss[k][m] == s;
      assert s == Suggestion(words[m], queries[i].offset, None);
    }
  }

  /** Every handler word of every kept token is in the concatenation, tagged
      with that token's offset. */
  lemma KeptTokensAllTagged(settings: Settings, tokenizer: Tokenizer, indexed: IndexedWords, queries: seq<Token>,
                            ss: seq<seq<Suggestion>>)
    requires var ks := KeptIndices(settings, tokenizer, queries, 0);
             |ss| == |ks| && forall m :: 0 <= m < |ks| ==> ss[m] == TagsOf(settings, indexed, queries[ks[m]])
    ensures forall i, w :: 0 <= i < |queries| && KeepQuery(settings, tokenizer, queries, i) &&
                           w in Handler(settings.matchStrategy, indexed, queries[i].word, settings.maxNumberOfSuggestions) ==>
                             Suggestion(w, queries[i].offset, None) in Flatten(ss)
  {
    forall i, w | 0 <= i < |queries| && KeepQuery(settings, tokenizer, queries, i) &&
                  w in Handler(settings.matchStrategy, indexed, queries[i].word, settings.maxNumberOfSuggestions)
      ensures Suggestion(w, queries[i].offset, None) in Flatten(ss)
    {
      var ks := KeptIndices(settings, tokenizer, queries, 0);
      var m :| 0 <= m < |ks| && ks[m] == i;
      TagInSlot(settings, indexed, queries[i], w, ss, m);
    }
  }

  /** Slot `m` holds the tagged handler words of token `t`, so `w`'s
      suggestion is in the concatenation. */
  lemma TagInSlot(settings: Settings, indexed: IndexedWords, t: Token, w: Word, ss: seq<seq<Suggestion>>, m: nat)
    requires m < |ss| && ss[m] == TagsOf(settings, indexed, t)
    requires w in Handler(settings.matchStrategy, indexed, t.word, settings.maxNumberOfSuggestions)
    ensures Suggestion(w, t.offset, None) in Flatten(ss)
  {
    var words := Handler(settings.matchStrategy, indexed, t.word, settings.maxNumberOfSuggestions);
    var p :| 0 <= p < |words| && words[p] == w;
    assert ss[m][p] == Suggestion(w, t.offset, None);
    FlattenContains(ss, m, Suggestion(w, t.offset, None));
  }

  /** The body of the debounced query callback: query every kept token,
      tag, de-duplicate on identity, then truncate. */
  function GetSuggestionsBody(settings: Settings, tokenizer: Tokenizer, indexed: IndexedWords,
                              queries: seq<Token>): (r: seq<Suggestion>)
    ensures |r| <= settings.maxNumberOfSuggestions
    ensures NoDuplicateKeys(r, SuggestionIdentity)
    ensures IsSubsequence(r, Tagged(settings, tokenizer, indexed, queries))
    ensures FirstDistinct(r, Tagged(settings, tokenizer, indexed, queries), SuggestionIdentity)
    ensures forall s :: s in r ==> s.matchedAlias.None? && FromKeptToken(settings, tokenizer, indexed, queries, s)
  {
    var all := Tagged(settings, tokenizer, indexed, queries);
    var unique := UniqBy(all, SuggestionIdentity);
    var r := Take(unique, settings.maxNumberOfSuggestions);
    SubsequenceMembers(unique, all);
    UniqByThenTake(all, SuggestionIdentity, settings.maxNumberOfSuggestions);
    r
  }

  /** De-duplication comes first here, so the callback returns as many
      suggestions as there are distinct identities, up to the maximum. */
  lemma CallbackLength(settings: Settings, tokenizer: Tokenizer, indexed: IndexedWords, queries: seq<Token>)
    ensures var distinct := |KeysOf(Tagged(settings, tokenizer, indexed, queries), SuggestionIdentity)|;
            |GetSuggestionsBody(settings, tokenizer, indexed, queries)| ==
            if distinct < settings.maxNumberOfSuggestions then distinct else settings.maxNumberOfSuggestions
  {
    var all := Tagged(settings, tokenizer, indexed, queries);
    DistinctKeysCount(UniqBy(all, SuggestionIdentity), SuggestionIdentity);
  }

  /** Of the suggestions that share an identity, the one kept is the first in
      token order, so it carries the offset of the earliest token that found it. */
  lemma CallbackKeepsEarliest(settings: Settings, tokenizer: Tokenizer, indexed: IndexedWords,
                              queries: seq<Token>, i: nat, k: nat)
    requires i < |GetSuggestionsBody(settings, tokenizer, indexed, queries)|
    requires k < |Tagged(settings, tokenizer, indexed, queries)|
    requires SuggestionIdentity(Tagged(settings, tokenizer, indexed, queries)[k]) ==
             SuggestionIdentity(GetSuggestionsBody(settings, tokenizer, indexed, queries)[i])
    ensures exists j :: 0 <= j <= k &&
              Tagged(settings, tokenizer, indexed, queries)[j] == GetSuggestionsBody(settings, tokenizer, indexed, queries)[i]
  {
    var all := Tagged(settings, tokenizer, indexed, queries);
    UniqByKeepsFirst(all, SuggestionIdentity, i, k);
  }

  /** A token is queried only if the phrase it starts has at least
      minNumberOfWordsTriggeredPhrase words left in the window. */
  lemma KeptPhrasesAreLongEnough(settings: Settings, tokenizer: Tokenizer, queries: seq<Token>, i: nat)
    requires i < |queries| && KeepQuery(settings, tokenizer, queries, i)
    ensures |queries| - i >= settings.minNumberOfWordsTriggeredPhrase
    ensures |queries[i].word| >= MinNumberTriggered(settings, tokenizer) && !EndsWith(queries[i].word, " ")
  {
  }

  /** The text of a suggestion before the insertion rewrites: internal links
      are wrapped as [[value]], or [[value|alias]] with a truthy matched alias
      when the alias option is on. */
  function WrappedText(settings: Settings, s: Suggestion): (r: string)
    ensures !IsLink(s.word) ==> r == s.word.value
    ensures IsLink(s.word) ==>
              |r| >= |s.word.value| + 4 && StartsWith(r, "[[") && EndsWith(r, "]]") &&
              r[2..2 + |s.word.value|] == s.word.value
    ensures IsLink(s.word) && !(settings.suggestInternalLinkWithAlias && AliasIsTruthy(s)) ==>
              |r| == |s.word.value| + 4
    ensures IsLink(s.word) && settings.suggestInternalLinkWithAlias && AliasIsTruthy(s) ==>
              |r| == |s.word.value| + |s.matchedAlias.value| + 5 &&
              r[2 + |s.word.value|..|r| - 2] == "|" + s.matchedAlias.value
  {
    if IsLink(s.word) then
      if settings.suggestInternalLinkWithAlias && AliasIsTruthy(s)
      then "[[" + s.word.value + "|" + s.matchedAlias.value + "]]"
      else "[[" + s.word.value + "]]"
    else s.word.value
  }

  /** The inserted text up to the caret step: wrapped, a trailing space when
      enabled, and the first hide delimiter removed. */
  function TextBeforeCaret(settings: Settings, s: Suggestion): (r: string)
    ensures var t := WrappedText(settings, s) + (if settings.insertAfterCompletion then " " else "");
            var d := settings.delimiterToHideSuggestion;
            if d != "" && Includes(t, d) then |r| == |t| - |d| else r == t
  {
    var t := WrappedText(settings, s) + (if settings.insertAfterCompletion then " " else "");
    if settings.delimiterToHideSuggestion != "" then RemoveFirst(t, settings.delimiterToHideSuggestion) else t
  }

  /** renderSuggestion: the displayed text is cut at the hide delimiter and
      marked with " ...". */
  function DisplayText(settings: Settings, s: Suggestion): (r: string)
    ensures var t := WrappedText(settings, s);
            var d := settings.delimiterToHideSuggestion;
            d != "" && Includes(t, d) ==> r == t[..IndexOf(t, d).value] + " ..." && !Includes(t[..IndexOf(t, d).value], d)
    ensures var t := WrappedText(settings, s);
            var d := settings.delimiterToHideSuggestion;
            d == "" || !Includes(t, d) ==> r == t
  {
    var text := WrappedText(settings, s);
    var d := settings.delimiterToHideSuggestion;
    if d != "" && Includes(text, d) then
      var i := IndexOf(text, d).value;
      PrefixBeforeFirstOccurrence(text, d, i);
      text[..i] + " ..."
    else text
  }

  /** What is displayed before " ..." is exactly what is inserted before the
      point where the delimiter was. */
  lemma DisplayAgreesWithInsertion(settings: Settings, s: Suggestion)
    requires var d := settings.delimiterToHideSuggestion;
             d != "" && Includes(WrappedText(settings, s), d)
    ensures var t := WrappedText(settings, s);
            var i := IndexOf(t, settings.delimiterToHideSuggestion).value;
            i <= |TextBeforeCaret(settings, s)| &&
            DisplayText(settings, s) == TextBeforeCaret(settings, s)[..i] + " ..."
  {
    var t := WrappedText(settings, s);
    var d := settings.delimiterToHideSuggestion;
    var sp := if settings.insertAfterCompletion then " " else "";
    IndexOfExtend(t, d, sp);
    var i := IndexOf(t, d).value;
    var u := t + sp;
    assert u[..i] == t[..i];
  }

  /** Words returned by the callback carry no alias, so a link is always
      inserted and displayed as plain [[value]]. */
  lemma CallbackWordsWrapPlainly(settings: Settings, tokenizer: Tokenizer, indexed: IndexedWords,
                                 queries: seq<Token>, s: Suggestion)
    requires s in GetSuggestionsBody(settings, tokenizer, indexed, queries)
    ensures WrappedText(settings, s) == if IsLink(s.word) then "[[" + s.word.value + "]]" else s.word.value
  {
  }

  /** A first occurrence found in `t` is also the first in any extension of `t`. */
  lemma IndexOfExtend(t: string, d: string, sp: string)
    requires IndexOf(t, d).Some?
    ensures IndexOf(t + sp, d) == IndexOf(t, d)
  {
    var i := IndexOf(t, d).value;
    var u := t + sp;
    assert u[i..i + |d|] == t[i..i + |d|];
    forall j | 0 <= j < i ensures !OccursAt(u, d, j) {
      assert !OccursAt(t, d, j);
      assert j + |d| <= |t|;
      assert u[j..j + |d|] == t[j..j + |d|];
    }
    IndexOfUnique(u, d, i);
  }

  /** The text before the first occurrence of `d` does not contain `d`. */
  lemma PrefixBeforeFirstOccurrence(t: string, d: string, i: nat)
    requires d != "" && IndexOf(t, d) == Some(i)
    ensures !Includes(t[..i], d)
  {
    var p := t[..i];
    forall j | 0 <= j ensures !OccursAt(p, d, j) {
      if j + |d| <= |p| {
        assert !OccursAt(t, d, j);
        assert t[j..j + |d|] == p[j..j + |d|];
      }
    }
  }

  /** The index of a first occurrence is determined by the occurrences. */
  lemma IndexOfUnique(u: string, d: string, i: nat)
    requires OccursAt(u, d, i) && forall j :: 0 <= j < i ==> !OccursAt(u, d, j)
    ensures IndexOf(u, d) == Some(i)
  {
    var r := IndexOf(u, d);
    assert r.Some?;
    assert !(r.value < i);
  }

  /** Where predictableComplete puts its suggestion: `text` replaces the
      characters `fromCh`..`toCh` of the cursor's line. */
  datatype Replacement = Replacement(text: string, fromCh: int, toCh: int)

  /** predictableComplete on token lists: `untilCursor` are the tokens of
      the line up to the cursor, `before` those of the text before the cursor
      and `after` those of the text after it. The nearest earlier token that
      extends the current one wins (the token being typed itself is skipped);
      otherwise the first later one. */
  function PredictableCompletion(untilCursor: seq<string>, before: seq<string>, after: seq<string>,
                                 cursorCh: int): (r: Option<Replacement>)
    ensures |untilCursor| == 0 || untilCursor[|untilCursor| - 1] == "" ==> r.None?
    ensures r.Some? ==> var current := untilCursor[|untilCursor| - 1];
              StartsWith(r.value.text, current) && current != "" &&
              r.value.fromCh == cursorCh - |current| && r.value.toCh == cursorCh
  {
    var current := if |untilCursor| == 0 then "" else untilCursor[|untilCursor| - 1];
    if current == "" then None
    else
      var earlier := Reverse(before);
      var candidates := if |earlier| == 0 then [] else earlier[1..];
      match Find(candidates, Extends(current))
      case Some(s) => Some(Replacement(s, cursorCh - |current|, cursorCh))
      case None =>
        match Find(after, Extends(current))
        case Some(s) => Some(Replacement(s, cursorCh - |current|, cursorCh))
        case None => None
  }

  /** `x.startsWith(current)` */
  function Extends(current: string): string -> bool
  {
    x => StartsWith(x, current)
  }

  /** The earlier text wins: the suggestion is the latest earlier token
      (other than the last) that extends the current token. */
  lemma PredictableCompletionPrefersNearest(untilCursor: seq<string>, before: seq<string>, after: seq<string>,
                                            cursorCh: int, i: nat)
    requires |untilCursor| > 0 && untilCursor[|untilCursor| - 1] != ""
    requires i + 1 < |before| && StartsWith(before[i], untilCursor[|untilCursor| - 1])
    ensures var r := PredictableCompletion(untilCursor, before, after, cursorCh);
            r.Some? &&
            exists k :: i <= k < |before| - 1 && before[k] == r.value.text &&
                        forall j :: k < j < |before| - 1 ==> !StartsWith(before[j], untilCursor[|untilCursor| - 1])
  {
    var current := untilCursor[|untilCursor| - 1];
    var earlier := Reverse(before);
    var candidates := earlier[1..];
    var p := Extends(current);
    assert candidates[|before| - 2 - i] == before[i];
    var idx := FindIndex(candidates, p);
    assert idx.Some?;
    var c := idx.value;
    var k := |before| - 2 - c;
    assert before[k] == candidates[c];
    forall j | k < j < |before| - 1 ensures !StartsWith(before[j], current) {
      assert candidates[|before| - 2 - j] == before[j];
    }
  }

  /** The completion is missing exactly when the current token is empty or no
      earlier token (other than the last) and no later token extends it. */
  lemma PredictableCompletionNoneIff(untilCursor: seq<string>, before: seq<string>, after: seq<string>,
                                     cursorCh: int)
    ensures var current := if |untilCursor| == 0 then "" else untilCursor[|untilCursor| - 1];
            PredictableCompletion(untilCursor, before, after, cursorCh).None? <==>
            current == "" ||
            ((forall j :: 0 <= j < |before| - 1 ==> !StartsWith(before[j], current)) &&
             (forall j :: 0 <= j < |after| ==> !StartsWith(after[j], current)))
  {
    var current := if |untilCursor| == 0 then "" else untilCursor[|untilCursor| - 1];
    if current != "" {
      var earlier := Reverse(before);
      var candidates := if |earlier| == 0 then [] else earlier[1..];
      EarlierCandidates(before, candidates, current);
    }
  }

  /** The tokens predictableComplete scans first are the earlier tokens but
      the last, nearest first: none extends the current one exactly when no
      such earlier token does. */
  lemma EarlierCandidates(before: seq<string>, candidates: seq<string>, current: string)
    requires candidates == (if |before| == 0 then [] else Reverse(before)[1..])
    ensures (forall c :: 0 <= c < |candidates| ==> !StartsWith(candidates[c], current)) <==>
            (forall j :: 0 <= j < |before| - 1 ==> !StartsWith(before[j], current))
  {
    forall j | 0 <= j < |before| - 1 ensures candidates[|before| - 2 - j] == before[j] { }
    forall c | 0 <= c < |candidates| ensures candidates[c] == before[|before| - 2 - c] { }
  }

  /** With no earlier token to offer, the first later token that extends the
      current one is the completion. */
  lemma PredictableCompletionFallsBackToLater(untilCursor: seq<string>, before: seq<string>, after: seq<string>,
                                              cursorCh: int, k: nat)
    requires |untilCursor| > 0 && untilCursor[|untilCursor| - 1] != ""
    requires forall j :: 0 <= j < |before| - 1 ==> !StartsWith(before[j], untilCursor[|untilCursor| - 1])
    requires k < |after| && StartsWith(after[k], untilCursor[|untilCursor| - 1])
    ensures var r := PredictableCompletion(untilCursor, before, after, cursorCh);
            r.Some? &&
            exists i :: 0 <= i <= k && after[i] == r.value.text &&
                        forall j :: 0 <= j < i ==> !StartsWith(after[j], untilCursor[|untilCursor| - 1])
  {
    var current := untilCursor[|untilCursor| - 1];
    var earlier := Reverse(before);
    var candidates := if |earlier| == 0 then [] else earlier[1..];
    EarlierCandidates(before, candidates, current);
    assert Find(candidates, Extends(current)).None?;
    var found := Find(after, Extends(current));
    assert found.Some?;
  }
}
