/** The decision engine's routing: a keyword classifier behind a bounded cache. */
module DecisionCache {
  import opened Common

  // ---------------------------------------------------------------- text

  /** The characters that stripping removes. */
  predicate IsSpace(c: char) {
    c == ' ' || '\U{9}' <= c <= '\U{d}' || '\U{1c}' <= c <= '\U{1f}' || c == '\U{85}' || c == '\U{a0}'
    || c == '\U{1680}' || '\U{2000}' <= c <= '\U{200a}' || c == '\U{2028}' || c == '\U{2029}'
    || c == '\U{202f}' || c == '\U{205f}' || c == '\U{3000}'
  }

  function StripLeft(s: string): string { if s != "" && IsSpace(s[0]) then StripLeft(s[1..]) else s }

  function StripRight(s: string): string { if s != "" && IsSpace(s[|s| - 1]) then StripRight(s[..|s| - 1]) else s }

  function Strip(s: string): string { StripRight(StripLeft(s)) }

  /** A keyword neither starts nor ends with a space. */
  predicate IsKeyword(word: string) { word != "" && !IsSpace(word[0]) && !IsSpace(word[|word| - 1]) }

  lemma {:induction false} StripLeftKeeps(s: string, word: string)
    requires IsKeyword(word)
    ensures ContainsText(StripLeft(s), word) <==> ContainsText(s, word)
  {
    if s != "" && IsSpace(s[0]) {
      StripLeftKeeps(s[1..], word);
      if i :| 0 <= i <= |s| - |word| && s[i..][..|word|] == word {
        assert s[i] == word[0] && i > 0;
        assert s[1..][i - 1..] == s[i..];
        assert ContainsText(s[1..], word);
      }
      if i :| 0 <= i <= |s[1..]| - |word| && s[1..][i..][..|word|] == word {
        assert s[1..][i..] == s[i + 1..];
        assert ContainsText(s, word);
      }
    }
  }

  lemma SliceOfPrefix(s: string, n: nat, i: nat, length: nat)
    requires i + length <= n <= |s|
    ensures s[..n][i..][..length] == s[i..][..length]
  {
    assert s[..n][i..][..length] == s[i..i + length];
    assert s[i..][..length] == s[i..i + length];
  }

  lemma {:induction false} StripRightKeeps(s: string, word: string)
    requires IsKeyword(word)
    ensures ContainsText(StripRight(s), word) <==> ContainsText(s, word)
  {
    if s != "" && IsSpace(s[|s| - 1]) {
      var n := |s| - 1;
      StripRightKeeps(s[..n], word);
      if i :| 0 <= i <= |s| - |word| && s[i..][..|word|] == word {
        assert s[i + |word| - 1] == s[i..][..|word|][|word| - 1] == word[|word| - 1];
        SliceOfPrefix(s, n, i, |word|);
        assert ContainsText(s[..n], word);
      }
      if i :| 0 <= i <= n - |word| && s[..n][i..][..|word|] == word {
        SliceOfPrefix(s, n, i, |word|);
        assert ContainsText(s, word);
      }
    }
  }

  /** Whether a text contains a keyword does not depend on the spaces around it. */
  lemma StripKeeps(s: string, word: string)
    requires IsKeyword(word)
    ensures ContainsText(Strip(s), word) <==> ContainsText(s, word)
  {
    StripLeftKeeps(s, word);
    StripRightKeeps(StripLeft(s), word);
  }

  /** The text without the spaces around it: what is left is empty, or begins and ends with something else. */
  ghost predicate IsStripped(s: string, r: string) {
    && (exists i, j :: 0 <= i <= j <= |s| && IsCut(s, i, j) && r == s[i..j])
    && (r != "" ==> !IsSpace(r[0]) && !IsSpace(r[|r| - 1]))
  }

  ghost predicate IsCut(s: string, i: nat, j: nat) {
    i <= j <= |s| && (forall k :: 0 <= k < i ==> IsSpace(s[k])) && forall k :: j <= k < |s| ==> IsSpace(s[k])
  }

  lemma {:induction false} LeftCut(s: string) returns (i: nat)
    ensures i <= |s| && StripLeft(s) == s[i..] && forall k :: 0 <= k < i ==> IsSpace(s[k])
    ensures i < |s| ==> !IsSpace(s[i])
  {
    i := 0;
    if s != "" && IsSpace(s[0]) {
      var n := LeftCut(s[1..]);
      i := n + 1;
      assert forall k :: 0 < k < i ==> s[k] == s[1..][k - 1];
    }
  }

  lemma {:induction false} RightCut(s: string) returns (j: nat)
    ensures j <= |s| && StripRight(s) == s[..j] && forall k :: j <= k < |s| ==> IsSpace(s[k])
    ensures j > 0 ==> !IsSpace(s[j - 1])
  {
    j := |s|;
    if s != "" && IsSpace(s[|s| - 1]) {
      j := RightCut(s[..|s| - 1]);
      assert s[..|s| - 1][..j] == s[..j];
    }
  }

  lemma StripMeans(s: string)
    ensures IsStripped(s, Strip(s))
  {
    var i := LeftCut(s);
    var n := RightCut(s[i..]);
    assert s[i..][..n] == s[i..i + n];
    assert forall k :: i + n <= k < |s| ==> s[k] == s[i..][k - i];
    assert IsCut(s, i, i + n);
    hide StripLeft, StripRight;
  }

  /** A text has nothing but spaces exactly when nothing is left of it. */
  lemma StripIsEmpty(s: string)
    ensures Strip(s) == "" <==> forall k :: 0 <= k < |s| ==> IsSpace(s[k])
  {
    StripMeans(s);
    var i, j :| 0 <= i <= j <= |s| && IsCut(s, i, j) && Strip(s) == s[i..j];
    if i < j { assert !IsSpace(s[i..j][0]) && s[i..j][0] == s[i]; }
    hide Strip;
  }

  // ---------------------------------------------------------------- the classifier

  const ALGORITHM_WORDS: seq<string> :=
    ["sort", "filter", "count", "calculate", "schedule", "priority", "route", "delete", "move", "copy", "rename",
     "list", "status", "health", "metrics"]

  const LLM_WORDS: seq<string> :=
    ["write", "generate", "create content", "analyze text", "summarize", "translate", "explain", "evaluate",
     "brainstorm", "suggest", "research", "draft"]

  datatype Category = TaskPriority | TaskRouting | ContentGeneration | OpportunityEvaluation | MemoryManagement
                    | ScheduleManagement | ErrorHandling | Finance

  datatype Method = Algorithm | Llm | Hybrid | Cached

  datatype Reasoning = KeywordHeuristic(algo: seq<string>, llm: seq<string>) | NoKeyword
                     | FromCache(original: Reasoning)

  datatype Data = Scores(algo: nat, llm: nat) | Matches(algoWords: seq<string>, llmWords: seq<string>)

  datatype Decision = Decision(category: Category, how: Method, action: string, confidence: real, reasoning: Reasoning,
                               data: Data)

  function Matching(words: seq<string>, text: string): (r: seq<string>) {
    if words == [] then []
    else (if ContainsText(text, words[0]) then [words[0]] else []) + Matching(words[1..], text)
  }

  function Confidence(score: nat): real { if score >= 5 then 1.0 else 0.5 + 0.1 * score as real }

  /** The routing of a lower-case text, without the cache. */
  function Classify(text: string): Decision {
    var algo, llm := Matching(ALGORITHM_WORDS, text), Matching(LLM_WORDS, text);
    if |algo| > |llm| then
      Decision(TaskRouting, Algorithm, "use_algorithm", Confidence(|algo|), KeywordHeuristic(algo, llm),
               Matches(algo, llm))
    else if |llm| > 0 then
      Decision(TaskRouting, Algorithm, "use_llm", Confidence(|llm|), KeywordHeuristic(algo, llm), Matches(algo, llm))
    else
      Decision(TaskRouting, Algorithm, "use_algorithm", 0.3, NoKeyword, Scores(0, 0))
  }

  lemma {:induction false} MatchingIgnoresSpaces(words: seq<string>, s: string)
    requires forall w :: w in words ==> IsKeyword(w)
    ensures Matching(words, Strip(s)) == Matching(words, s)
  {
    if words != [] {
      StripKeeps(s, words[0]);
      MatchingIgnoresSpaces(words[1..], s);
    }
  }

  lemma AlgorithmWordsAreKeywords()
    ensures forall w :: w in ALGORITHM_WORDS ==> IsKeyword(w)
  {
  }

  lemma LlmWordsAreKeywords()
    ensures forall w :: w in LLM_WORDS ==> IsKeyword(w)
  {
  }

  lemma ClassifyIgnoresSpaces(s: string)
    ensures Classify(Strip(s)) == Classify(s)
  {
    AlgorithmWordsAreKeywords();
    LlmWordsAreKeywords();
    MatchingIgnoresSpaces(ALGORITHM_WORDS, s);
    MatchingIgnoresSpaces(LLM_WORDS, s);
  }

  lemma {:induction false} MatchingIsThoseContained(words: seq<string>, text: string)
    ensures forall w :: w in Matching(words, text) <==> w in words && ContainsText(text, w)
  {
    if words != [] {
      MatchingIsThoseContained(words[1..], text);
    }
  }

  /** The model is asked exactly when the text has a language keyword and no fewer of them than algorithmic ones; the
      confidence is lowest exactly when there is no keyword at all. */
  lemma ClassifyMeaning(text: string)
    ensures Classify(text).action == "use_llm"
            <==> (exists w :: w in LLM_WORDS && ContainsText(text, w))
                 && |Matching(LLM_WORDS, text)| >= |Matching(ALGORITHM_WORDS, text)|
    ensures 0.3 <= Classify(text).confidence <= 1.0
    ensures Classify(text).confidence == 0.3
            <==> (forall w :: w in ALGORITHM_WORDS ==> !ContainsText(text, w))
                 && (forall w :: w in LLM_WORDS ==> !ContainsText(text, w))
  {
    MatchingIsThoseContained(ALGORITHM_WORDS, text);
    MatchingIsThoseContained(LLM_WORDS, text);
    var algo, llm := Matching(ALGORITHM_WORDS, text), Matching(LLM_WORDS, text);
    assert algo != [] ==> algo[0] in ALGORITHM_WORDS && ContainsText(text, algo[0]);
    assert llm != [] ==> llm[0] in LLM_WORDS && ContainsText(text, llm[0]);
  }

  /** The confidence grows by a tenth with every keyword of the chosen kind, from a half up to one; the keywords found
      of each kind, in the order of their lists, are given as data. */
  lemma ConfidenceMeans(text: string)
    ensures var d := Classify(text);
            var algo, llm := Found(ALGORITHM_WORDS, text), Found(LLM_WORDS, text);
            && d.category == TaskRouting && d.how == Algorithm
            && (d.action == "use_algorithm" <==> |algo| > |llm| || (algo == [] && llm == []))
            && (d.action == "use_llm" <==> |llm| >= |algo| && llm != [])
            && (algo == [] && llm == [] ==> d.data == Scores(0, 0) && d.reasoning == NoKeyword)
            && (algo != [] || llm != [] ==>
                  && d.data == Matches(algo, llm) && d.reasoning == KeywordHeuristic(algo, llm)
                  && var n := if |algo| > |llm| then |algo| else |llm|;
                     && d.confidence <= 1.0 && d.confidence <= 0.5 + 0.1 * n as real
                     && (d.confidence == 1.0 || d.confidence == 0.5 + 0.1 * n as real))
  {
    MatchingIsFound(ALGORITHM_WORDS, text);
    MatchingIsFound(LLM_WORDS, text);
    assert |"use_llm"| != |"use_algorithm"|;
    hide Matching, Found, ALGORITHM_WORDS, LLM_WORDS;
  }

  /** The words that occur in the text, in the order of the list. */
  ghost function Found(words: seq<string>, text: string): seq<string> {
    if words == [] then []
    else
      var last := words[|words| - 1];
      Found(words[..|words| - 1], text) + if ContainsText(text, last) then [last] else []
  }

  lemma {:induction false} MatchingIsFound(words: seq<string>, text: string)
    ensures Matching(words, text) == Found(words, text)
  {
    if words != [] { FoundFirst(words, text); MatchingIsFound(words[1..], text); }
  }

  lemma {:induction false} FoundFirst(words: seq<string>, text: string)
    requires words != []
    ensures Found(words, text) == (if ContainsText(text, words[0]) then [words[0]] else []) + Found(words[1..], text)
  {
    hide ContainsText;
    var n, rest := |words| - 1, words[1..];
    if n == 0 {
      assert words[..0] == [] && rest == [];
    } else {
      FoundFirst(words[..n], text);
      assert words[..n][1..] == rest[..n - 1] && rest[n - 1] == words[n];
      var first := if ContainsText(text, words[0]) then [words[0]] else [];
      var last := if ContainsText(text, words[n]) then [words[n]] else [];
      assert Found(words, text) == (first + Found(rest[..n - 1], text)) + last;
      assert Found(rest, text) == Found(rest[..n - 1], text) + last;
    }
  }

  // ---------------------------------------------------------------- the cache

  /** A dictionary in insertion order. */
  datatype Memory = Memory(order: seq<string>, entries: map<string, Decision>)

  type Digest = string -> string

  /** No text asked for so far shares its digest with this one, unless only the spaces around them differ. */
  ghost predicate Apart(digest: Digest, texts: seq<string>, text: string) {
    forall i :: 0 <= i < |texts| && digest(Strip(texts[i])) == digest(Strip(text)) ==> Strip(texts[i]) == Strip(text)
  }

  /** What asking for one lower-case text leaves in a cache of the given capacity. */
  function Ask(m: Memory, capacity: nat, digest: Digest, text: string): Memory
    requires capacity >= 1
  {
    var k := digest(Strip(text));
    if k in m.entries then m
    else if |m.order| >= capacity then Memory(m.order[1..] + [k], (m.entries - {m.order[0]})[k := Classify(text)])
    else Memory(m.order + [k], m.entries[k := Classify(text)])
  }

  function Run(capacity: nat, digest: Digest, texts: seq<string>): Memory
    requires capacity >= 1
  {
    if texts == [] then Memory([], map[])
    else Ask(Run(capacity, digest, texts[..|texts| - 1]), capacity, digest, texts[|texts| - 1])
  }

  /** The keys that were not in the cache when they were asked for, in order. */
  ghost function Misses(capacity: nat, digest: Digest, texts: seq<string>): seq<string>
    requires capacity >= 1
  {
    if texts == [] then []
    else
      var front, k := texts[..|texts| - 1], digest(Strip(texts[|texts| - 1]));
      Misses(capacity, digest, front) + if k in Run(capacity, digest, front).entries then [] else [k]
  }

  /** An entry is the classification of some text asked for under its key. */
  ghost predicate Justified(digest: Digest, texts: seq<string>, k: string, d: Decision) {
    exists i :: 0 <= i < |texts| && digest(Strip(texts[i])) == k && d == Classify(texts[i])
  }

  ghost function LastOf<T>(s: seq<T>, n: nat): seq<T> { if |s| <= n then s else s[|s| - n..] }

  /** The cache holds the keys of the last misses, as many as fit, in order. */
  ghost predicate OrderInv(m: Memory, capacity: nat, misses: seq<string>) {
    && Distinct(m.order) && Elements(m.order) == m.entries.Keys
    && m.order == LastOf(misses, capacity)
  }

  ghost predicate CacheInv(m: Memory, capacity: nat, digest: Digest, texts: seq<string>, misses: seq<string>) {
    && OrderInv(m, capacity, misses)
    && forall k :: k in m.entries ==> Justified(digest, texts, k, m.entries[k])
  }

  lemma StillJustified(digest: Digest, texts: seq<string>, text: string, k: string, d: Decision)
    requires Justified(digest, texts, k, d) || (digest(Strip(text)) == k && d == Classify(text))
    ensures Justified(digest, texts + [text], k, d)
  {
    hide Classify, Strip;
    if Justified(digest, texts, k, d) {
      var i :| 0 <= i < |texts| && digest(Strip(texts[i])) == k && d == Classify(texts[i]);
      assert (texts + [text])[i] == texts[i];
    } else {
      assert (texts + [text])[|texts|] == text;
    }
  }

  lemma DropFirst<T>(s: seq<T>)
    requires Distinct(s) && s != []
    ensures Distinct(s[1..]) && Elements(s[1..]) == Elements(s) - {s[0]}
  {
    assert s == [s[0]] + s[1..];
    assert s[0] !in s[1..];
  }

  lemma AddLast<T>(s: seq<T>, x: T)
    requires Distinct(s) && x !in s
    ensures Distinct(s + [x]) && Elements(s + [x]) == Elements(s) + {x}
  {
  }

  lemma LastOfExtends<T>(s: seq<T>, n: nat, x: T)
    requires n >= 1
    ensures LastOf(s + [x], n) == (if |LastOf(s, n)| >= n then LastOf(s, n)[1..] else LastOf(s, n)) + [x]
  {
  }

  lemma AskKeepsOrder(m: Memory, capacity: nat, digest: Digest, misses: seq<string>, text: string)
    requires capacity >= 1 && OrderInv(m, capacity, misses)
    ensures var k := digest(Strip(text));
            OrderInv(Ask(m, capacity, digest, text), capacity, misses + if k in m.entries then [] else [k])
  {
    hide Classify, Strip, Distinct, LastOf;
    var k := digest(Strip(text));
    if k in m.entries {
      assert misses + [] == misses;
    } else {
      LastOfExtends(misses, capacity, k);
      NewKey(m, k);
      AddLast(m.order, k);
      if |m.order| >= capacity {
        DropFirst(m.order);
        AddLast(m.order[1..], k);
      }
    }
  }

  lemma NewKey(m: Memory, k: string)
    requires Elements(m.order) == m.entries.Keys && k !in m.entries
    ensures k !in m.order && (m.order != [] ==> k !in m.order[1..])
  {
    assert k !in Elements(m.order);
  }

  lemma AskKeepsInv(m: Memory, capacity: nat, digest: Digest, texts: seq<string>, misses: seq<string>, text: string)
    requires capacity >= 1 && CacheInv(m, capacity, digest, texts, misses)
    ensures var k := digest(Strip(text));
            CacheInv(Ask(m, capacity, digest, text), capacity, digest, texts + [text],
                     misses + if k in m.entries then [] else [k])
  {
    hide Classify, Strip, Justified;
    AskKeepsOrder(m, capacity, digest, misses, text);
    hide OrderInv;
    var m' := Ask(m, capacity, digest, text);
    forall j | j in m'.entries
      ensures Justified(digest, texts + [text], j, m'.entries[j])
    {
      StillJustified(digest, texts, text, j, m'.entries[j]);
    }
  }

  lemma RunSnoc(capacity: nat, digest: Digest, texts: seq<string>, text: string)
    requires capacity >= 1
    ensures Run(capacity, digest, texts + [text]) == Ask(Run(capacity, digest, texts), capacity, digest, text)
  {
    assert (texts + [text])[..|texts|] == texts;
  }

  /** In every reachable state: at most as many entries as the capacity, those of the last misses, evicted in the
      order in which they came in. */
  lemma {:induction false} CacheHoldsLastMisses(capacity: nat, digest: Digest, texts: seq<string>)
    requires capacity >= 1
    ensures CacheInv(Run(capacity, digest, texts), capacity, digest, texts, Misses(capacity, digest, texts))
    ensures |Run(capacity, digest, texts).entries| <= capacity
  {
    hide Classify, Strip, Justified, Ask;
    if texts != [] {
      hide CacheInv;
      var front := texts[..|texts| - 1];
      CacheHoldsLastMisses(capacity, digest, front);
      AskKeepsInv(Run(capacity, digest, front), capacity, digest, front, Misses(capacity, digest, front),
                  texts[|texts| - 1]);
      assert front + [texts[|texts| - 1]] == texts;
    }
    AsManyAsKeys(Run(capacity, digest, texts), capacity, digest, texts, Misses(capacity, digest, texts));
  }

  lemma AsManyAsKeys(m: Memory, capacity: nat, digest: Digest, texts: seq<string>, misses: seq<string>)
    requires CacheInv(m, capacity, digest, texts, misses)
    ensures |m.entries| == |m.order| <= capacity
  {
    hide Justified, Strip, Classify;
    DistinctCardinality(m.order);
    assert |m.entries| == |m.entries.Keys|;
  }

  /** A cached entry is exactly what the classifier says of the text asked for, unless their digests collide. */
  lemma CachedIsClassified(capacity: nat, digest: Digest, texts: seq<string>, text: string)
    requires capacity >= 1 && Apart(digest, texts, text) && digest(Strip(text)) in Run(capacity, digest, texts).entries
    ensures Run(capacity, digest, texts).entries[digest(Strip(text))] == Classify(text)
  {
    CacheHoldsLastMisses(capacity, digest, texts);
    var k := digest(Strip(text));
    var i :| 0 <= i < |texts| && digest(Strip(texts[i])) == k
             && Run(capacity, digest, texts).entries[k] == Classify(texts[i]);
    ClassifyIgnoresSpaces(text);
    ClassifyIgnoresSpaces(texts[i]);
  }

  /** A digest that collides: after "sort", the answer for "x" is the one for "sort". */
  lemma CollisionMisleads(digest: Digest)
    requires digest(Strip("sort")) == digest(Strip("x"))
    ensures var entries := Run(1, digest, ["sort"]).entries;
            digest(Strip("x")) in entries && entries[digest(Strip("x"))].confidence != Classify("x").confidence
  {
    OneText(digest, "sort");
    KnownAndUnknown();
    hide Classify, Strip, Run;
  }

  lemma OneText(digest: Digest, text: string)
    ensures Run(1, digest, [text]).entries == map[digest(Strip(text)) := Classify(text)]
  {
    hide Classify, Strip;
    assert [text][..0] == [];
  }

  lemma KnownAndUnknown()
    ensures Classify("sort").confidence != 0.3 && Classify("x").confidence == 0.3
  {
    hide Classify;
    assert ALGORITHM_WORDS[0] == "sort";
    KnownWord("sort");
    ShortText("x");
  }

  lemma KnownWord(word: string)
    requires word in ALGORITHM_WORDS
    ensures Classify(word).confidence != 0.3
  {
    hide Classify;
    ClassifyMeaning(word);
    ContainsItself(word);
  }

  lemma ShortText(text: string)
    requires |text| <= 1
    ensures Classify(text).confidence == 0.3
  {
    hide Classify;
    ClassifyMeaning(text);
    AlgorithmWordsAreLong();
    LlmWordsAreLong();
  }

  lemma ContainsItself(word: string)
    ensures ContainsText(word, word)
  {
    assert word[0..][..|word|] == word;
  }

  lemma AlgorithmWordsAreLong()
    ensures forall w :: w in ALGORITHM_WORDS ==> |w| > 1
  {
  }

  lemma LlmWordsAreLong()
    ensures forall w :: w in LLM_WORDS ==> |w| > 1
  {
  }

  // ---------------------------------------------------------------- the engine

  datatype Answer = EmptyDescription | CacheFailed | Decided(decision: Decision)

  ghost predicate Agree(d: Decision, e: Decision) {
    d.category == e.category && d.action == e.action && d.confidence == e.confidence && d.data == e.data
  }

  /** A remembered decision as it is given again. */
  function Replayed(d: Decision): Decision {
    d.(how := Cached, reasoning := FromCache(d.reasoning))
  }

  class DecisionEngine {
    const cacheMaxSize: int
    const lower: string -> string
    const digest: Digest
    var decisionCount: nat
    var cacheHits: nat
    var order: seq<string>
    var cache: map<string, Decision>
    ghost var texts: seq<string>

    ghost predicate Valid()
      reads this
    {
      Memory(order, cache) == if cacheMaxSize >= 1 then Run(cacheMaxSize, digest, texts) else Memory([], map[])
    }

    constructor (cacheMaxSize: int, lower: string -> string, digest: Digest)
      ensures Valid() && texts == [] && decisionCount == 0 && cacheHits == 0
      ensures this.cacheMaxSize == cacheMaxSize && this.lower == lower && this.digest == digest
    {
      this.cacheMaxSize, this.lower, this.digest := cacheMaxSize, lower, digest;
      decisionCount, cacheHits, order, cache, texts := 0, 0, [], map[], [];
    }

    /** An empty description is refused; a cache that may hold nothing fails on its first eviction; otherwise the
        answer agrees with the classifier, cached or not. */
    method ShouldUseLlm(description: string) returns (a: Answer)
      requires Valid()
      modifies this
      ensures Valid()
      ensures a == EmptyDescription <==> forall k :: 0 <= k < |description| ==> IsSpace(description[k])
      ensures a.EmptyDescription? ==> unchanged(this)
      ensures !a.EmptyDescription? ==> decisionCount == old(decisionCount) + 1
      ensures a == CacheFailed <==> a != EmptyDescription && cacheMaxSize < 1
      ensures a.Decided? ==> texts == old(texts) + [lower(description)]
      ensures var key := digest(Strip(lower(description)));
              var hit := key in old(cache);
              && (a.Decided? && hit ==>
                    && a.decision == old(cache)[key].(how := Cached, reasoning := FromCache(old(cache)[key].reasoning))
                    && cache == old(cache) && cacheHits == old(cacheHits) + 1)
              && (a.Decided? && !hit ==> a.decision == Classify(lower(description)) && cacheHits == old(cacheHits))
      ensures a.Decided? && Apart(digest, old(texts), lower(description)) ==>
                Agree(a.decision, Classify(lower(description)))
    {
      StripIsEmpty(description);
      if Strip(description) == "" {
        return EmptyDescription;
      }
      hide Strip, Run, Ask;
      decisionCount := decisionCount + 1;
      var text := lower(description);
      if cacheMaxSize >= 1 {
        CacheHoldsLastMisses(cacheMaxSize, digest, texts);
      }
      a := Route(text, digest(Strip(text)));
      if a.Decided? {
        RunSnoc(cacheMaxSize, digest, texts, text);
        if Apart(digest, texts, text) && a.decision.how == Cached {
          CachedIsClassified(cacheMaxSize, digest, texts, text);
        }
        texts := texts + [text];
      }
    }

    method Route(text: string, key: string) returns (a: Answer)
      requires key == digest(Strip(text)) && Distinct(order) && Elements(order) == cache.Keys
      requires cacheMaxSize < 1 ==> order == []
      modifies `order, `cache, `cacheHits
      ensures a == CacheFailed <==> cacheMaxSize < 1
      ensures a == CacheFailed ==> Memory(order, cache) == old(Memory(order, cache))
      ensures a != CacheFailed ==>
                a.Decided? && Memory(order, cache) == Ask(old(Memory(order, cache)), cacheMaxSize, digest, text)
      ensures a.Decided? && key in old(cache) ==>
                a.decision == Replayed(old(cache[key])) && cacheHits == old(cacheHits) + 1
      ensures a.Decided? && key !in old(cache) ==> a.decision == Classify(text) && cacheHits == old(cacheHits)
    {
      hide Classify, Strip, Distinct;
      assert key in cache ==> key in Elements(order);
      if key in cache {
        cacheHits := cacheHits + 1;
        a := Decided(Replayed(cache[key]));
      } else {
        var decision := Classify(text);
        var stored := CacheSet(key, decision);
        a := if stored then Decided(decision) else CacheFailed;
      }
    }

    /** The oldest entry makes room for a new one; evicting from an empty cache raises. */
    method CacheSet(key: string, decision: Decision) returns (stored: bool)
      requires key !in cache && Distinct(order) && Elements(order) == cache.Keys
      modifies `order, `cache
      ensures stored <==> |old(order)| < cacheMaxSize || old(order) != []
      ensures !stored ==> order == old(order) && cache == old(cache)
      ensures stored ==>
                Memory(order, cache) == if |old(order)| >= cacheMaxSize
                                        then Memory(old(order[1..]) + [key],
                                                    (old(cache) - {old(order[0])})[key := decision])
                                        else Memory(old(order) + [key], old(cache)[key := decision])
    {
      DistinctCardinality(order);
      assert |cache| == |cache.Keys|;
      if |cache| >= cacheMaxSize {
        if order == [] {
          return false;
        }
        order, cache := order[1..], cache - {order[0]};
      }
      order, cache := order + [key], cache[key := decision];
      stored := true;
    }
  }
}
