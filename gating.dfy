/** The relevance gate of services/gating.py: it decides whether a news text is
    passed on to summarisation. It normalises the text, keys a TTL cache of
    decisions on a digest of the normalised text, optionally asks a remote
    classifier, and otherwise scans a keyword list with word-boundary matching. */
module Gating {
  import opened Wrappers
  import opened PyText

  // ---------------------------------------------------------------------------
  // Configuration and collaborators
  // ---------------------------------------------------------------------------

  /** The settings the module reads once at import time: `ENABLE_GATING`,
      `GATING_STRATEGY`, `GATING_MATCH_MODE`, `GATING_KEYWORDS`,
      `GATING_DEFAULT_ON_ERROR`, `GATING_CACHE_TTL_SECONDS`,
      `USE_MODEL_BASED_GATING` and `MODEL_BASED_GATING_FALLBACK_TO_KEYWORDS`. */
  datatype GatingConfig = GatingConfig(
    enabled: bool,
    strategy: string,
    matchMode: string,
    keywords: seq<string>,
    defaultOnError: bool,
    cacheTtlSeconds: int,
    useModelBasedGating: bool,
    fallbackToKeywords: bool)

  /** Library functions whose tables and internals are not modelled: the NFKD
      decomposition of one character, and `sha256(utf8(s)).hexdigest()`. */
  datatype Primitives = Primitives(decompose: char -> seq<char>, digest: string -> string)

  /** What the remote classifier does when asked: it answers True, False or
      None, or it raises. */
  datatype ModelReply = Answer(verdict: Option<bool>) | Raised

  /** One cached decision and the monotonic time at which it stops being valid. */
  datatype CacheEntry = CacheEntry(expiresAt: real, decision: bool)

  type Cache = map<string, CacheEntry>

  // ---------------------------------------------------------------------------
  // Normalisation (`_normalize_text`)
  // ---------------------------------------------------------------------------

  /** NFKD applied character by character. Canonical reordering only permutes
      combining marks, which are all non-ASCII and dropped right after, so the
      per-character form loses nothing that survives normalisation. */
  function Decomposed(decompose: char -> seq<char>, s: string): string
  {
    if s == [] then [] else decompose(s[0]) + Decomposed(decompose, s[1..])
  }

  /** `encode("ascii", "ignore").decode("ascii")`: the ASCII characters of
      `s`, in order. */
  function AsciiOnly(s: string): (r: string)
    ensures |r| <= |s|
  {
    if s == [] then [] else (if IsAscii(s[0]) then [s[0]] else []) + AsciiOnly(s[1..])
  }

  lemma {:induction false} AsciiOnlyIsAscii(s: string)
    ensures AllAscii(AsciiOnly(s))
  {
    if s != [] {
      AsciiOnlyIsAscii(s[1..]);
    }
  }

  /** Only ASCII characters and no capital letters. */
  predicate IsNormalized(s: string)
  {
    forall i :: 0 <= i < |s| ==> IsAscii(s[i]) && !IsUpperAscii(s[i])
  }

  /** `_normalize_text`: decompose, drop non-ASCII, lowercase. */
  function NormalizeText(decompose: char -> seq<char>, text: string): (r: string)
    ensures IsNormalized(r)
  {
    AsciiOnlyIsAscii(Decomposed(decompose, text));
    Lower(AsciiOnly(Decomposed(decompose, text)))
  }

  /** NFKD maps every ASCII character to itself. */
  predicate FixesAscii(decompose: char -> seq<char>)
  {
    forall c :: IsAscii(c) ==> decompose(c) == [c]
  }

  predicate AllAscii(s: string)
  {
    forall i :: 0 <= i < |s| ==> IsAscii(s[i])
  }

  lemma {:induction false} DecomposedAsciiIsFixed(decompose: char -> seq<char>, s: string)
    requires FixesAscii(decompose) && AllAscii(s)
    ensures Decomposed(decompose, s) == s
  {
    if s != [] {
      DecomposedAsciiIsFixed(decompose, s[1..]);
      assert decompose(s[0]) == [s[0]];
    }
  }

  lemma {:induction false} AsciiOnlyAsciiIsFixed(s: string)
    requires AllAscii(s)
    ensures AsciiOnly(s) == s
  {
    if s != [] {
      AsciiOnlyAsciiIsFixed(s[1..]);
    }
  }

  /** Normalising an all-ASCII text only lowercases it. */
  lemma NormalizeAsciiIsLower(decompose: char -> seq<char>, s: string)
    requires FixesAscii(decompose) && AllAscii(s)
    ensures NormalizeText(decompose, s) == Lower(s)
  {
    DecomposedAsciiIsFixed(decompose, s);
    AsciiOnlyAsciiIsFixed(s);
  }

  /** A normalised text is left as it is by normalisation. */
  lemma NormalizedIsFixed(decompose: char -> seq<char>, s: string)
    requires FixesAscii(decompose) && IsNormalized(s)
    ensures NormalizeText(decompose, s) == s
  {
    NormalizeAsciiIsLower(decompose, s);
    assert Lower(s) == s by {
      forall i | 0 <= i < |s| ensures Lower(s)[i] == s[i] {
        assert s[i] != KelvinSign;
      }
    }
  }

  /** Normalisation is idempotent. */
  lemma NormalizeIdempotent(decompose: char -> seq<char>, text: string)
    requires FixesAscii(decompose)
    ensures NormalizeText(decompose, NormalizeText(decompose, text)) == NormalizeText(decompose, text)
  {
    NormalizedIsFixed(decompose, NormalizeText(decompose, text));
  }

  // ---------------------------------------------------------------------------
  // Cache key (`_cache_key`)
  // ---------------------------------------------------------------------------

  const SnippetLength: nat := 4096

  /** The digest of the first 4096 characters of the normalised text. */
  function CacheKey(digest: string -> string, normalized: string): (k: string)
    ensures |normalized| <= SnippetLength ==> k == digest(normalized)
    ensures |normalized| >= SnippetLength ==> k == digest(normalized[..SnippetLength])
  {
    assert normalized[..|normalized|] == normalized;
    digest(normalized[..Min(|normalized|, SnippetLength)])
  }

  /** Two normalised texts that agree on their first 4096 characters share a
      key, however they go on. */
  lemma {:induction false} CacheKeyDependsOnlyOnSnippet(digest: string -> string, a: string, b: string)
    requires |a| >= SnippetLength && |b| >= SnippetLength
    requires forall i :: 0 <= i < SnippetLength ==> a[i] == b[i]
    ensures CacheKey(digest, a) == CacheKey(digest, b)
  {
    assert a[..SnippetLength] == b[..SnippetLength];
  }

  /** Up to 4096 characters the whole text is hashed. */
  lemma ShortTextHashedWhole(digest: string -> string, a: string)
    requires |a| <= SnippetLength
    ensures CacheKey(digest, a) == digest(a)
  {
    assert a[..|a|] == a;
  }

  // ---------------------------------------------------------------------------
  // TTL cache (`_get_cached`, `_set_cached`) as functions on the map
  // ---------------------------------------------------------------------------

  /** The answer of a lookup and the cache after it (an expired entry is
      deleted by the lookup). */
  datatype Lookup = Lookup(hit: Option<bool>, cache: Cache)

  /** `_get_cached` on the map: a hit exactly for a live entry; a miss
      leaves the map alone or deletes the expired entry. */
  function CacheGet(cache: Cache, ttl: int, key: string, now: real): (l: Lookup)
    ensures l.hit.Some? <==> ttl > 0 && key in cache && now < cache[key].expiresAt
    ensures l.hit.Some? ==> l.hit.value == cache[key].decision && l.cache == cache
    ensures l.hit.None? ==> l.cache == cache || (key in cache && l.cache == cache - {key})
  {
    if ttl <= 0 then Lookup(None, cache)
    else if key !in cache then Lookup(None, cache)
    else if now >= cache[key].expiresAt then Lookup(None, cache - {key})
    else Lookup(Some(cache[key].decision), cache)
  }

  /** `_set_cached` on the map: with a positive TTL the entry for `key`
      becomes the decision, valid until `now + ttl`, and no other key changes. */
  function CachePut(cache: Cache, ttl: int, key: string, decision: bool, now: real): (c: Cache)
    ensures ttl <= 0 ==> c == cache
    ensures ttl > 0 ==> key in c && c[key] == CacheEntry(now + ttl as real, decision)
    ensures c.Keys <= cache.Keys + {key}
  {
    if ttl <= 0 then cache else cache[key := CacheEntry(now + ttl as real, decision)]
  }

  /** With a TTL of zero or less the cache is never consulted or written. */
  lemma CacheOffWhenTtlNotPositive(cache: Cache, ttl: int, key: string, decision: bool, now: real)
    requires ttl <= 0
    ensures CacheGet(cache, ttl, key, now) == Lookup(None, cache)
    ensures CachePut(cache, ttl, key, decision, now) == cache
  {
  }

  /** A decision stored at `t` is returned by every lookup before `t + ttl`. */
  lemma HitWithinTtl(cache: Cache, ttl: int, key: string, decision: bool, t: real, now: real)
    requires ttl > 0 && now < t + ttl as real
    ensures var stored := CachePut(cache, ttl, key, decision, t);
            CacheGet(stored, ttl, key, now) == Lookup(Some(decision), stored)
  {
  }

  /** From `t + ttl` on, the lookup misses and deletes the entry. */
  lemma ExpiredAfterTtl(cache: Cache, ttl: int, key: string, decision: bool, t: real, now: real)
    requires ttl > 0 && now >= t + ttl as real
    ensures var stored := CachePut(cache, ttl, key, decision, t);
            var l := CacheGet(stored, ttl, key, now);
            l.hit == None && key !in l.cache && l.cache == cache - {key}
  {
  }

  /** Neither operation touches any key but its own. */
  lemma CacheOpsKeepOtherKeys(cache: Cache, ttl: int, key: string, other: string, decision: bool, now: real)
    requires other != key
    ensures var l := CacheGet(cache, ttl, key, now);
            (other in l.cache <==> other in cache) && (other in cache ==> l.cache[other] == cache[other])
    ensures var p := CachePut(cache, ttl, key, decision, now);
            (other in p <==> other in cache) && (other in cache ==> p[other] == cache[other])
  {
  }

  // ---------------------------------------------------------------------------
  // Keyword matching (`_find_keyword_matches`)
  // ---------------------------------------------------------------------------

  /** `keyword.strip().lower()`: the token searched for. */
  function Token(keyword: string): (t: string)
    ensures IsStripped(t) && Lower(t) == t
  {
    StripCutsOnlyWhitespace(keyword);
    LowerKeepsStripped(Strip(keyword));
    LowerIdempotent(Strip(keyword));
    Lower(Strip(keyword))
  }

  /** The characters of `\w` in the (ASCII) normalised text. */
  predicate IsWordChar(c: char)
  {
    'a' <= c <= 'z' || 'A' <= c <= 'Z' || '0' <= c <= '9' || c == '_'
  }

  /** `\b` at position `i`: a word character on exactly one side. A boundary
      always touches a word character, and there is none inside a run of
      word characters or a run of other characters. */
  predicate IsBoundary(text: string, i: nat)
    requires i <= |text|
    ensures IsBoundary(text, i) ==> (0 < i && IsWordChar(text[i - 1])) || (i < |text| && IsWordChar(text[i]))
    ensures 0 < i < |text| && IsWordChar(text[i - 1]) == IsWordChar(text[i]) ==> !IsBoundary(text, i)
  {
    (i > 0 && IsWordChar(text[i - 1])) != (i < |text| && IsWordChar(text[i]))
  }

  /** `\btoken\b` matches at position `i`. */
  predicate WordAt(text: string, token: string, i: nat)
  {
    OccursAt(text, token, i) && IsBoundary(text, i) && IsBoundary(text, i + |token|)
  }

  /** `re.search(r"\b" + re.escape(token) + r"\b", text)` finds a match;
      a whole-word match is in particular a substring match. */
  predicate OccursAsWord(text: string, token: string)
    ensures OccursAsWord(text, token) ==> Contains(text, token)
  {
    exists i: nat | i <= |text| - |token| :: WordAt(text, token, i)
  }

  /** The token of this keyword is not blank and occurs as a whole word. */
  predicate Selected(text: string, token: string)
  {
    token != "" && OccursAsWord(text, token)
  }

  /** The matches of `_find_keyword_matches`, defined keyword by keyword. */
  function KeywordMatches(text: string, keywords: seq<string>): (m: seq<string>)
    ensures |m| <= |keywords|
    ensures forall j :: 0 <= j < |m| ==> m[j] != ""
  {
    if keywords == [] then []
    else
      var token := Token(keywords[|keywords| - 1]);
      KeywordMatches(text, keywords[..|keywords| - 1]) + (if Selected(text, token) then [token] else [])
  }

  /** `_find_keyword_matches`: one pass over the keyword list, appending each
      selected token. */
  method FindKeywordMatches(text: string, keywords: seq<string>) returns (matches: seq<string>)
    ensures matches == KeywordMatches(text, keywords)
  {
    matches := [];
    for i := 0 to |keywords|
      invariant matches == KeywordMatches(text, keywords[..i])
    {
      assert keywords[..i + 1][..i] == keywords[..i];
      var token := Token(keywords[i]);
      if token == "" {
        continue;
      }
      if OccursAsWord(text, token) {
        matches := matches + [token];
      }
    }
    assert keywords[..|keywords|] == keywords;
  }

  /** A token is matched exactly when some keyword of the list yields it, it is
      not blank, and it occurs in the text as a whole word. */
  lemma {:induction false} KeywordMatchesMembership(text: string, keywords: seq<string>, t: string)
    ensures t in KeywordMatches(text, keywords) <==>
            exists k :: k in keywords && Token(k) == t && Selected(text, t)
  {
    if keywords != [] {
      var init, last := keywords[..|keywords| - 1], keywords[|keywords| - 1];
      assert keywords == init + [last];
      KeywordMatchesMembership(text, init, t);
      if exists k :: k in keywords && Token(k) == t && Selected(text, t) {
        var k :| k in keywords && Token(k) == t && Selected(text, t);
        if k != last {
          assert k in init;
        }
      }
    }
  }

  /** Every match is a non-blank, stripped, lowercase token found as a word. */
  lemma MatchesAreFoundTokens(text: string, keywords: seq<string>, t: string)
    requires t in KeywordMatches(text, keywords)
    ensures t != "" && IsStripped(t) && Lower(t) == t && OccursAsWord(text, t)
  {
    KeywordMatchesMembership(text, keywords, t);
  }

  /** `a` is `b` with some elements left out, the rest kept in order. */
  predicate IsSubsequence<T(==)>(a: seq<T>, b: seq<T>)
    decreases |b|
  {
    || a == []
    || (b != [] && ((a[|a| - 1] == b[|b| - 1] && IsSubsequence(a[..|a| - 1], b[..|b| - 1]))
                    || IsSubsequence(a, b[..|b| - 1])))
  }

  /** The token of every keyword, in list order. */
  function Tokens(keywords: seq<string>): (ts: seq<string>)
    ensures |ts| == |keywords|
  {
    seq(|keywords|, i requires 0 <= i < |keywords| => Token(keywords[i]))
  }

  /** The matches come in keyword-list order: they are a subsequence of the
      token list. */
  lemma {:induction false} MatchesFollowKeywordOrder(text: string, keywords: seq<string>)
    ensures IsSubsequence(KeywordMatches(text, keywords), Tokens(keywords))
  {
    if keywords != [] {
      var init := keywords[..|keywords| - 1];
      var ts := Tokens(keywords);
      assert ts[..|ts| - 1] == Tokens(init);
      MatchesFollowKeywordOrder(text, init);
      var m := KeywordMatches(text, keywords);
      if m != KeywordMatches(text, init) {
        assert m[..|m| - 1] == KeywordMatches(text, init);
      }
    }
  }

  /** The scan does not deduplicate: a keyword listed twice is reported
      twice. */
  lemma RepeatedKeywordIsReportedTwice(text: string, k: string)
    requires Selected(text, Token(k))
    ensures KeywordMatches(text, [k, k]) == [Token(k), Token(k)]
  {
    assert [k, k][..1] == [k];
    assert [k][..0] == [];
    assert KeywordMatches(text, [k]) == [Token(k)];
  }

  /** A keyword that occurs only inside a longer word is not matched. */
  lemma KeywordInsideLongerWordIsNotMatched(text: string, keyword: string)
    requires text == "estadocracia" && keyword == "estado"
    ensures !OccursAsWord(text, keyword)
    ensures KeywordMatches(text, [keyword]) == []
  {
    forall i: nat | 0 < i < |text| ensures !IsBoundary(text, i) {
      assert IsWordChar(text[i - 1]) && IsWordChar(text[i]);
    }
    assert Lower(keyword) == keyword;
    StrippedIsFixed(keyword);
    SingleKeyword(text, keyword);
  }

  /** The same keyword between word boundaries is matched, whatever the case
      and surrounding blanks of the configured keyword. */
  lemma KeywordAsWholeWordIsMatched(text: string, keyword: string, token: string)
    requires text == "el estado uruguayo" && keyword == " Estado " && token == "estado"
    ensures OccursAsWord(text, token)
    ensures KeywordMatches(text, [keyword]) == [token]
  {
    assert text[3..9] == token;
    assert WordAt(text, token, 3);
    assert Strip(keyword) == "Estado" by {
      assert StripStart(keyword) == StripStart("Estado ") == "Estado ";
      assert StripEnd("Estado ") == StripEnd("Estado") == "Estado";
    }
    assert Lower("Estado") == token;
    assert [keyword][..0] == [];
  }

  // ---------------------------------------------------------------------------
  // Match mode (`_evaluate_matches`)
  // ---------------------------------------------------------------------------

  const AllowIfAny := "allow_if_any"
  const DenyIfAny := "deny_if_any"

  /** `_evaluate_matches`: an empty keyword list or an unknown mode allows. */
  function EvaluateMatches(keywords: seq<string>, matchMode: string, matches: seq<string>): (allow: bool)
    ensures !allow <==> keywords != [] && ((Lower(matchMode) == AllowIfAny && matches == [])
                                           || (Lower(matchMode) == DenyIfAny && matches != []))
  {
    if keywords == [] then true
    else
      var mode := Lower(matchMode);
      if mode != AllowIfAny && mode != DenyIfAny then true
      else if mode == AllowIfAny then matches != []
      else matches == []
  }

  /** With keywords configured, the two modes give opposite answers for the
      same matches. */
  lemma MatchModesDisagree(keywords: seq<string>, matches: seq<string>)
    requires keywords != []
    ensures EvaluateMatches(keywords, AllowIfAny, matches) != EvaluateMatches(keywords, DenyIfAny, matches)
  {
    assert Lower(AllowIfAny) == AllowIfAny;
    assert Lower(DenyIfAny) == DenyIfAny;
  }

  /** The keyword decision in terms of the keyword list itself: `allow_if_any`
      allows exactly when some keyword is found as a word, `deny_if_any`
      exactly when none is, any other mode (or no keywords) always allows. */
  lemma KeywordDecision(text: string, keywords: seq<string>, matchMode: string)
    ensures var allow := EvaluateMatches(keywords, matchMode, KeywordMatches(text, keywords));
            var anyFound := exists k :: k in keywords && Selected(text, Token(k));
            && (keywords == [] ==> allow)
            && (keywords != [] && Lower(matchMode) == AllowIfAny ==> (allow <==> anyFound))
            && (keywords != [] && Lower(matchMode) == DenyIfAny ==> (allow <==> !anyFound))
            && (Lower(matchMode) != AllowIfAny && Lower(matchMode) != DenyIfAny ==> allow)
  {
    var m := KeywordMatches(text, keywords);
    if exists k :: k in keywords && Selected(text, Token(k)) {
      var k :| k in keywords && Selected(text, Token(k));
      KeywordMatchesMembership(text, keywords, Token(k));
    } else if m != [] {
      KeywordMatchesMembership(text, keywords, m[0]);
    }
  }

  // ---------------------------------------------------------------------------
  // The two entry points, as functions of the cache they start from
  // ---------------------------------------------------------------------------

  /** `GATING_STRATEGY.lower().strip()`: the name compared with "keywords"
      and "model", with no surrounding whitespace and no capitals left. */
  function StrategyName(strategy: string): (name: string)
    ensures IsStripped(name) && Lower(name) == name
  {
    var lowered := Lower(strategy);
    StripCutsOnlyWhitespace(lowered);
    LowerIdempotent(lowered);
    var lo := |lowered| - |StripStart(lowered)|;
    assert Lower(Strip(lowered)) == Lower(lowered)[lo..lo + |Strip(lowered)|];
    Strip(lowered)
  }

  /** Whether the entry points ask the classifier at all. */
  predicate ModelEnabled(cfg: GatingConfig)
  {
    cfg.useModelBasedGating && StrategyName(cfg.strategy) == "model"
  }

  /** An indeterminate classifier reply: None, or an exception. */
  predicate Indeterminate(reply: ModelReply)
  {
    reply == Answer(None) || reply.Raised?
  }

  /** The decision of `should_summarize`, the cache after it, and whether the
      classifier was asked. */
  datatype Gate = Gate(allow: bool, cache: Cache, askedModel: bool)

  /** The result of `should_summarize_with_matches`, the cache after it, and
      whether the classifier was asked. */
  datatype GateWithMatches = GateWithMatches(allow: bool, matches: seq<string>, cache: Cache, askedModel: bool)

  function ShouldSummarizeSpec(cfg: GatingConfig, prims: Primitives, cache: Cache, text: Option<string>,
                               now: real, classify: string -> ModelReply): (g: Gate)
    ensures !g.allow ==> cfg.enabled && text.Some? && text.value != ""
    ensures g.askedModel <==> cfg.enabled && text.Some? && text.value != "" && ModelEnabled(cfg)
    ensures cfg.cacheTtlSeconds <= 0 ==> g.cache == cache
  {
    if !cfg.enabled || text.None? || text.value == "" then Gate(true, cache, false)
    else
      var strategy := StrategyName(cfg.strategy);
      var asked := ModelEnabled(cfg);
      if asked && classify(text.value) == Answer(Some(true)) then Gate(true, cache, true)
      else if asked && classify(text.value) == Answer(Some(false)) then Gate(false, cache, true)
      else if asked && classify(text.value).Raised? && !cfg.fallbackToKeywords then Gate(cfg.defaultOnError, cache, true)
      else if strategy != "keywords" && strategy != "model" then Gate(true, cache, asked)
      else
        var normalized := NormalizeText(prims.decompose, text.value);
        var key := CacheKey(prims.digest, normalized);
        var lookup := CacheGet(cache, cfg.cacheTtlSeconds, key, now);
        if lookup.hit.Some? then Gate(lookup.hit.value, lookup.cache, asked)
        else
          var allow := EvaluateMatches(cfg.keywords, cfg.matchMode, KeywordMatches(normalized, cfg.keywords));
          Gate(allow, CachePut(lookup.cache, cfg.cacheTtlSeconds, key, allow, now), asked)
  }

  /** The keyword path that ends `should_summarize_with_matches`. */
  function KeywordPath(cfg: GatingConfig, cache: Cache, normalized: string, key: string, now: real,
                       asked: bool): GateWithMatches
  {
    var matches := KeywordMatches(normalized, cfg.keywords);
    var allow := EvaluateMatches(cfg.keywords, cfg.matchMode, matches);
    GateWithMatches(allow, matches, CachePut(cache, cfg.cacheTtlSeconds, key, allow, now), asked)
  }

  function ShouldSummarizeWithMatchesSpec(cfg: GatingConfig, prims: Primitives, cache: Cache,
                                          text: Option<string>, force: bool, now: real,
                                          classify: string -> ModelReply): (g: GateWithMatches)
    ensures text.None? || text.value == "" || (!cfg.enabled && !force) ==> g == GateWithMatches(true, [], cache, false)
    ensures g.askedModel ==> ModelEnabled(cfg)
    ensures g.matches != [] ==>
              && g.matches == KeywordMatches(NormalizeText(prims.decompose, text.value), cfg.keywords)
              && g.allow == EvaluateMatches(cfg.keywords, cfg.matchMode, g.matches)
    ensures cfg.cacheTtlSeconds <= 0 ==> g.cache == cache
  {
    if text.None? || text.value == "" then GateWithMatches(true, [], cache, false)
    else if !cfg.enabled && !force then GateWithMatches(true, [], cache, false)
    else
      var normalized := NormalizeText(prims.decompose, text.value);
      var key := CacheKey(prims.digest, normalized);
      var lookup := CacheGet(cache, cfg.cacheTtlSeconds, key, now);
      if lookup.hit.Some? then GateWithMatches(lookup.hit.value, [], lookup.cache, false)
      else if !ModelEnabled(cfg) then KeywordPath(cfg, lookup.cache, normalized, key, now, false)
      else
        match classify(text.value)
        case Answer(Some(b)) =>
          GateWithMatches(b, [], CachePut(lookup.cache, cfg.cacheTtlSeconds, key, b, now), true)
        case _ =>
          if !cfg.fallbackToKeywords then GateWithMatches(cfg.defaultOnError, [], lookup.cache, true)
          else KeywordPath(cfg, lookup.cache, normalized, key, now, true)
  }

  // ---------------------------------------------------------------------------
  // Properties of the entry points
  // ---------------------------------------------------------------------------

  /** Gating switched off allows everything and touches nothing;
      `should_summarize_with_matches` only gates when forced. */
  lemma DisabledGatingAllows(cfg: GatingConfig, prims: Primitives, cache: Cache, text: Option<string>,
                             now: real, classify: string -> ModelReply)
    requires !cfg.enabled
    ensures ShouldSummarizeSpec(cfg, prims, cache, text, now, classify) == Gate(true, cache, false)
    ensures ShouldSummarizeWithMatchesSpec(cfg, prims, cache, text, false, now, classify)
            == GateWithMatches(true, [], cache, false)
  {
  }

  /** Absent or empty text is allowed without any work. */
  lemma EmptyTextAllows(cfg: GatingConfig, prims: Primitives, cache: Cache, text: Option<string>,
                        force: bool, now: real, classify: string -> ModelReply)
    requires text.None? || text.value == ""
    ensures ShouldSummarizeSpec(cfg, prims, cache, text, now, classify) == Gate(true, cache, false)
    ensures ShouldSummarizeWithMatchesSpec(cfg, prims, cache, text, force, now, classify)
            == GateWithMatches(true, [], cache, false)
  {
  }

  /** The key both entry points use for a text. */
  function KeyOf(prims: Primitives, text: string): string
  {
    CacheKey(prims.digest, NormalizeText(prims.decompose, text))
  }

  /** `should_summarize_with_matches` answers a cache hit with the cached
      decision and no matches, without asking the classifier. */
  lemma CacheHitSkipsClassifier(cfg: GatingConfig, prims: Primitives, cache: Cache, text: string,
                                force: bool, now: real, classify: string -> ModelReply)
    requires text != "" && (cfg.enabled || force)
    requires CacheGet(cache, cfg.cacheTtlSeconds, KeyOf(prims, text), now).hit.Some?
    ensures var lookup := CacheGet(cache, cfg.cacheTtlSeconds, KeyOf(prims, text), now);
            ShouldSummarizeWithMatchesSpec(cfg, prims, cache, Some(text), force, now, classify)
            == GateWithMatches(lookup.hit.value, [], lookup.cache, false)
  {
  }

  /** A definite classifier verdict is cached and returned without matches. */
  lemma DefiniteVerdictIsCached(cfg: GatingConfig, prims: Primitives, cache: Cache, text: string,
                                force: bool, now: real, classify: string -> ModelReply, b: bool)
    requires text != "" && (cfg.enabled || force) && ModelEnabled(cfg)
    requires CacheGet(cache, cfg.cacheTtlSeconds, KeyOf(prims, text), now).hit.None?
    requires classify(text) == Answer(Some(b))
    ensures var g := ShouldSummarizeWithMatchesSpec(cfg, prims, cache, Some(text), force, now, classify);
            && g.allow == b && g.matches == [] && g.askedModel
            && (cfg.cacheTtlSeconds > 0 ==>
                  g.cache[KeyOf(prims, text)] == CacheEntry(now + cfg.cacheTtlSeconds as real, b))
  {
  }

  /** An indeterminate verdict without keyword fallback gives the configured
      default, and nothing is stored for the text. */
  lemma IndeterminateWithoutFallbackGivesDefault(cfg: GatingConfig, prims: Primitives, cache: Cache,
                                                 text: string, force: bool, now: real,
                                                 classify: string -> ModelReply)
    requires text != "" && (cfg.enabled || force) && ModelEnabled(cfg) && !cfg.fallbackToKeywords
    requires CacheGet(cache, cfg.cacheTtlSeconds, KeyOf(prims, text), now).hit.None?
    requires Indeterminate(classify(text))
    ensures var g := ShouldSummarizeWithMatchesSpec(cfg, prims, cache, Some(text), force, now, classify);
            && g == GateWithMatches(cfg.defaultOnError, [], g.cache, true)
            && g.cache == CacheGet(cache, cfg.cacheTtlSeconds, KeyOf(prims, text), now).cache
            && (cfg.cacheTtlSeconds > 0 ==> KeyOf(prims, text) !in g.cache)
  {
  }

  /** `should_summarize` asks the classifier before looking at the cache, so
      it asks even when a decision is cached, and it never caches a verdict. */
  lemma ShouldSummarizeAsksBeforeCache(cfg: GatingConfig, prims: Primitives, cache: Cache, text: string,
                                       now: real, classify: string -> ModelReply)
    requires cfg.enabled && text != "" && ModelEnabled(cfg)
    ensures var g := ShouldSummarizeSpec(cfg, prims, cache, Some(text), now, classify);
            && g.askedModel
            && (forall b :: classify(text) == Answer(Some(b)) ==> g == Gate(b, cache, true))
  {
  }

  /** In `should_summarize` a None verdict goes on to the keywords whatever the
      fallback flag says; only an exception consults it. */
  lemma ShouldSummarizeNoneIgnoresFallbackFlag(cfg: GatingConfig, prims: Primitives, cache: Cache,
                                               text: string, now: real, classify: string -> ModelReply)
    requires classify(text) == Answer(None)
    ensures ShouldSummarizeSpec(cfg, prims, cache, Some(text), now, classify)
            == ShouldSummarizeSpec(cfg.(fallbackToKeywords := !cfg.fallbackToKeywords), prims, cache,
                                   Some(text), now, classify)
  {
  }

  /** An unknown strategy: `should_summarize` allows at once, while
      `should_summarize_with_matches` treats it as `keywords`. */
  lemma UnknownStrategy(cfg: GatingConfig, prims: Primitives, cache: Cache, text: string, force: bool,
                        now: real, classify: string -> ModelReply)
    requires StrategyName(cfg.strategy) != "keywords" && StrategyName(cfg.strategy) != "model"
    ensures ShouldSummarizeSpec(cfg, prims, cache, Some(text), now, classify) == Gate(true, cache, false)
    ensures ShouldSummarizeWithMatchesSpec(cfg, prims, cache, Some(text), force, now, classify)
            == ShouldSummarizeWithMatchesSpec(cfg.(strategy := "keywords"), prims, cache, Some(text), force,
                                              now, classify)
  {
    ConfigNames();
  }

  /** With a TTL of zero or less neither entry point stores anything. */
  lemma TtlNotPositiveNeverStores(cfg: GatingConfig, prims: Primitives, cache: Cache, text: Option<string>,
                                  force: bool, now: real, classify: string -> ModelReply)
    requires cfg.cacheTtlSeconds <= 0
    ensures ShouldSummarizeSpec(cfg, prims, cache, text, now, classify).cache == cache
    ensures ShouldSummarizeWithMatchesSpec(cfg, prims, cache, text, force, now, classify).cache == cache
  {
  }

  /** Asking `should_summarize_with_matches` twice about the same text within
      the TTL: the second call is a cache hit with the first call's decision,
      and asks no classifier (unless the first call returned the uncached
      default). */
  lemma {:induction false} RepeatWithinTtlIsCacheHit(cfg: GatingConfig, prims: Primitives, cache: Cache,
                                                     text: string, force: bool, t1: real, t2: real,
                                                     classify: string -> ModelReply)
    requires text != "" && (cfg.enabled || force) && cfg.cacheTtlSeconds > 0
    requires t1 <= t2 < t1 + cfg.cacheTtlSeconds as real
    requires CacheGet(cache, cfg.cacheTtlSeconds, KeyOf(prims, text), t1).hit.None?
    requires !(ModelEnabled(cfg) && Indeterminate(classify(text)) && !cfg.fallbackToKeywords)
    ensures var g1 := ShouldSummarizeWithMatchesSpec(cfg, prims, cache, Some(text), force, t1, classify);
            ShouldSummarizeWithMatchesSpec(cfg, prims, g1.cache, Some(text), force, t2, classify)
            == GateWithMatches(g1.allow, [], g1.cache, false)
  {
    var key := KeyOf(prims, text);
    var g1 := ShouldSummarizeWithMatchesSpec(cfg, prims, cache, Some(text), force, t1, classify);
    assert g1.cache[key] == CacheEntry(t1 + cfg.cacheTtlSeconds as real, g1.allow);
    assert CacheGet(g1.cache, cfg.cacheTtlSeconds, key, t2) == Lookup(Some(g1.allow), g1.cache);
  }

  /** The same for `should_summarize` when it does not ask the classifier. */
  lemma {:induction false} ShouldSummarizeRepeatIsCacheHit(cfg: GatingConfig, prims: Primitives, cache: Cache,
                                                           text: string, t1: real, t2: real,
                                                           classify: string -> ModelReply)
    requires text != "" && cfg.enabled && cfg.cacheTtlSeconds > 0 && !ModelEnabled(cfg)
    requires StrategyName(cfg.strategy) == "keywords" || StrategyName(cfg.strategy) == "model"
    requires t1 <= t2 < t1 + cfg.cacheTtlSeconds as real
    requires CacheGet(cache, cfg.cacheTtlSeconds, KeyOf(prims, text), t1).hit.None?
    ensures var g1 := ShouldSummarizeSpec(cfg, prims, cache, Some(text), t1, classify);
            ShouldSummarizeSpec(cfg, prims, g1.cache, Some(text), t2, classify) == Gate(g1.allow, g1.cache, false)
  {
    var key := KeyOf(prims, text);
    var g1 := ShouldSummarizeSpec(cfg, prims, cache, Some(text), t1, classify);
    assert g1.cache[key] == CacheEntry(t1 + cfg.cacheTtlSeconds as real, g1.allow);
    assert CacheGet(g1.cache, cfg.cacheTtlSeconds, key, t2) == Lookup(Some(g1.allow), g1.cache);
  }

  // ---------------------------------------------------------------------------
  // Worked scenarios
  // ---------------------------------------------------------------------------

  function KeywordConfig(strategy: string, keywords: seq<string>): GatingConfig
  {
    GatingConfig(true, strategy, AllowIfAny, keywords, false, 60, true, true)
  }

  lemma ConfigNames()
    ensures StrategyName("keywords") == "keywords" && StrategyName("model") == "model"
    ensures Lower(AllowIfAny) == AllowIfAny
  {
    assert Lower("keywords") == "keywords";
    StrippedIsFixed("keywords");
    assert Lower("model") == "model";
    StrippedIsFixed("model");
  }

  /** A single-keyword list whose keyword is its own token. */
  lemma SingleKeyword(text: string, keyword: string)
    requires IsStripped(keyword) && Lower(keyword) == keyword
    ensures Token(keyword) == keyword
    ensures KeywordMatches(text, [keyword]) == if Selected(text, keyword) then [keyword] else []
  {
    StrippedIsFixed(keyword);
    assert [keyword][..0] == [];
  }

  lemma InflationTextNormalized(decompose: char -> seq<char>, yes: string)
    requires FixesAscii(decompose) && yes == "La inflacion sube"
    ensures NormalizeText(decompose, yes) == "la inflacion sube"
  {
    NormalizeAsciiIsLower(decompose, yes);
  }

  /** "inflacion" is its own token. */
  lemma InflationKeyword(kw: string)
    requires kw == "inflacion"
    ensures IsStripped(kw) && Lower(kw) == kw
  {
    assert Lower(kw) == kw;
  }

  /** "mercosur" is its own token. */
  lemma MercosurKeyword(kw: string)
    requires kw == "mercosur"
    ensures IsStripped(kw) && Lower(kw) == kw
  {
    assert Lower(kw) == kw;
  }

  /** Without the classifier, a first call (empty cache) takes the keyword
      path: the matches are those of the normalised text and the decision is
      the match mode's. */
  lemma KeywordStrategyOutcome(cfg: GatingConfig, prims: Primitives, text: string, now: real,
                               classify: string -> ModelReply)
    requires cfg.enabled && text != "" && !ModelEnabled(cfg)
    ensures var g := ShouldSummarizeWithMatchesSpec(cfg, prims, map[], Some(text), false, now, classify);
            var m := KeywordMatches(NormalizeText(prims.decompose, text), cfg.keywords);
            g.matches == m && g.allow == EvaluateMatches(cfg.keywords, cfg.matchMode, m) && !g.askedModel
  {
  }

  /** With the classifier undecided and keyword fallback on, a first call
      (empty cache) asks the classifier and then takes the keyword path. */
  lemma FallbackOutcome(cfg: GatingConfig, prims: Primitives, text: string, now: real,
                        classify: string -> ModelReply)
    requires cfg.enabled && text != "" && ModelEnabled(cfg) && cfg.fallbackToKeywords
    requires Indeterminate(classify(text))
    ensures var g := ShouldSummarizeWithMatchesSpec(cfg, prims, map[], Some(text), false, now, classify);
            var m := KeywordMatches(NormalizeText(prims.decompose, text), cfg.keywords);
            g.matches == m && g.allow == EvaluateMatches(cfg.keywords, cfg.matchMode, m) && g.askedModel
  {
    var key := CacheKey(prims.digest, NormalizeText(prims.decompose, text));
    assert CacheGet(map[], cfg.cacheTtlSeconds, key, now).hit.None?;
    assert classify(text) == Answer(None) || classify(text).Raised?;
  }

  /** `should_summarize` agrees: an undecided classifier with fallback on
      leaves a first call to the keywords. */
  lemma ShouldSummarizeFallbackOutcome(cfg: GatingConfig, prims: Primitives, text: string, now: real,
                                       classify: string -> ModelReply)
    requires cfg.enabled && text != "" && ModelEnabled(cfg) && cfg.fallbackToKeywords
    requires Indeterminate(classify(text))
    ensures ShouldSummarizeSpec(cfg, prims, map[], Some(text), now, classify).allow
            == EvaluateMatches(cfg.keywords, cfg.matchMode,
                               KeywordMatches(NormalizeText(prims.decompose, text), cfg.keywords))
  {
    var key := CacheKey(prims.digest, NormalizeText(prims.decompose, text));
    assert CacheGet(map[], cfg.cacheTtlSeconds, key, now).hit.None?;
    assert classify(text) != Answer(Some(true)) && classify(text) != Answer(Some(false));
  }

  lemma InflationFound(norm: string, kw: string)
    requires norm == "la inflacion sube" && kw == "inflacion"
    ensures Selected(norm, kw)
  {
    assert forall j :: 0 <= j < 9 ==> norm[3 + j] == kw[j];
    assert norm[3..12] == kw;
    assert WordAt(norm, kw, 3);
  }

  lemma WeatherTextNormalized(decompose: char -> seq<char>, no: string)
    requires FixesAscii(decompose) && no == "Hace mucho calor"
    ensures NormalizeText(decompose, no) == "hace mucho calor"
  {
    NormalizeAsciiIsLower(decompose, no);
  }

  lemma InflationNotFound(norm: string, kw: string)
    requires norm == "hace mucho calor" && kw == "inflacion"
    ensures !Selected(norm, kw)
  {
    forall i: nat | i <= |norm| - 9 ensures !WordAt(norm, kw, i) {
    }
  }

  /** With `allow_if_any` and the keyword "inflacion", a text about inflation
      is allowed with that match, and a text about the heat is denied. */
  lemma InflationScenario(prims: Primitives, now: real, classify: string -> ModelReply,
                          yes: string, no: string, kw: string)
    requires FixesAscii(prims.decompose)
    requires yes == "La inflacion sube" && no == "Hace mucho calor" && kw == "inflacion"
    ensures var g := ShouldSummarizeWithMatchesSpec(KeywordConfig("keywords", [kw]), prims, map[],
                                                    Some(yes), false, now, classify);
            g.allow && g.matches == [kw] && !g.askedModel
    ensures var g := ShouldSummarizeWithMatchesSpec(KeywordConfig("keywords", [kw]), prims, map[],
                                                    Some(no), false, now, classify);
            !g.allow && g.matches == [] && !g.askedModel
  {
    ConfigNames();
    InflationKeyword(kw);
    InflationTextNormalized(prims.decompose, yes);
    InflationFound(NormalizeText(prims.decompose, yes), kw);
    SingleKeyword(NormalizeText(prims.decompose, yes), kw);
    KeywordStrategyOutcome(KeywordConfig("keywords", [kw]), prims, yes, now, classify);
    WeatherTextNormalized(prims.decompose, no);
    InflationNotFound(NormalizeText(prims.decompose, no), kw);
    SingleKeyword(NormalizeText(prims.decompose, no), kw);
    KeywordStrategyOutcome(KeywordConfig("keywords", [kw]), prims, no, now, classify);
  }

  lemma MercosurTextNormalized(decompose: char -> seq<char>, text: string)
    requires FixesAscii(decompose) && text == "El Mercosur"
    ensures NormalizeText(decompose, text) == "el mercosur"
  {
    NormalizeAsciiIsLower(decompose, text);
  }

  lemma MercosurFound(norm: string, kw: string)
    requires norm == "el mercosur" && kw == "mercosur"
    ensures Selected(norm, kw)
  {
    assert forall j :: 0 <= j < 8 ==> norm[3 + j] == kw[j];
    assert norm[3..11] == kw;
    assert WordAt(norm, kw, 3);
  }

  /** A classifier that cannot decide, with keyword fallback on, hands the
      decision to the keywords: "mercosur" in the text allows. */
  lemma IndeterminateFallsBackToKeywords(prims: Primitives, now: real, classify: string -> ModelReply,
                                         text: string, kw: string)
    requires FixesAscii(prims.decompose)
    requires text == "El Mercosur" && kw == "mercosur" && Indeterminate(classify(text))
    ensures var g := ShouldSummarizeWithMatchesSpec(KeywordConfig("model", [kw]), prims, map[],
                                                    Some(text), false, now, classify);
            g.allow && g.matches == [kw] && g.askedModel
    ensures ShouldSummarizeSpec(KeywordConfig("model", [kw]), prims, map[], Some(text), now, classify).allow
  {
    ConfigNames();
    MercosurKeyword(kw);
    MercosurTextNormalized(prims.decompose, text);
    MercosurFound(NormalizeText(prims.decompose, text), kw);
    SingleKeyword(NormalizeText(prims.decompose, text), kw);
    FallbackOutcome(KeywordConfig("model", [kw]), prims, text, now, classify);
    ShouldSummarizeFallbackOutcome(KeywordConfig("model", [kw]), prims, text, now, classify);
  }

  // ---------------------------------------------------------------------------
  // The engine: the module-level cache becomes a field
  // ---------------------------------------------------------------------------

  class GatingEngine {
    const config: GatingConfig
    const prims: Primitives
    var cache: Cache

    constructor (config: GatingConfig, prims: Primitives)
      ensures this.config == config && this.prims == prims && cache == map[]
    {
      this.config := config;
      this.prims := prims;
      cache := map[];
    }

    /** `_get_cached`: a live entry's decision; an expired entry is deleted. */
    method GetCached(key: string, now: real) returns (r: Option<bool>)
      modifies this
      ensures Lookup(r, cache) == CacheGet(old(cache), config.cacheTtlSeconds, key, now)
    {
      if config.cacheTtlSeconds <= 0 {
        return None;
      }
      if key !in cache {
        return None;
      }
      var entry := cache[key];
      if now >= entry.expiresAt {
        cache := cache - {key};
        return None;
      }
      return Some(entry.decision);
    }

    /** `_set_cached`: store the decision until `now + ttl`. */
    method SetCached(key: string, decision: bool, now: real)
      modifies this
      ensures cache == CachePut(old(cache), config.cacheTtlSeconds, key, decision, now)
    {
      if config.cacheTtlSeconds <= 0 {
        return;
      }
      cache := cache[key := CacheEntry(now + config.cacheTtlSeconds as real, decision)];
    }

    /** `should_summarize`. */
    method ShouldSummarize(text: Option<string>, now: real, classify: string -> ModelReply)
      returns (allow: bool, askedModel: bool)
      modifies this
      ensures Gate(allow, cache, askedModel) == ShouldSummarizeSpec(config, prims, old(cache), text, now, classify)
    {
      if !config.enabled {
        return true, false;
      }
      if text.None? || text.value == "" {
        return true, false;
      }
      var strategy := StrategyName(config.strategy);
      askedModel := false;
      if config.useModelBasedGating && strategy == "model" {
        askedModel := true;
        var reply := classify(text.value);
        match reply {
          case Answer(Some(true)) => return true, true;
          case Answer(Some(false)) => return false, true;
          case Answer(None) =>
          case Raised =>
            if !config.fallbackToKeywords {
              return config.defaultOnError, true;
            }
        }
      }
      if strategy != "keywords" && strategy != "model" {
        return true, askedModel;
      }
      var normalized := NormalizeText(prims.decompose, text.value);
      var key := CacheKey(prims.digest, normalized);
      var cached := GetCached(key, now);
      if cached.Some? {
        return cached.value, askedModel;
      }
      var matches := FindKeywordMatches(normalized, config.keywords);
      allow := EvaluateMatches(config.keywords, config.matchMode, matches);
      SetCached(key, allow, now);
    }

    /** `should_summarize_with_matches`. */
    method ShouldSummarizeWithMatches(text: Option<string>, force: bool, now: real,
                                      classify: string -> ModelReply)
      returns (allow: bool, matches: seq<string>, askedModel: bool)
      modifies this
      ensures GateWithMatches(allow, matches, cache, askedModel)
              == ShouldSummarizeWithMatchesSpec(config, prims, old(cache), text, force, now, classify)
    {
      if text.None? || text.value == "" {
        return true, [], false;
      }
      if !config.enabled && !force {
        return true, [], false;
      }
      var normalized := NormalizeText(prims.decompose, text.value);
      var key := CacheKey(prims.digest, normalized);
      var cached := GetCached(key, now);
      if cached.Some? {
        return cached.value, [], false;
      }
      var strategy := StrategyName(config.strategy);
      askedModel := false;
      if config.useModelBasedGating && strategy == "model" {
        askedModel := true;
        var reply := classify(text.value);
        match reply {
          case Answer(Some(b)) =>
            SetCached(key, b, now);
            return b, [], true;
          case _ =>
            if !config.fallbackToKeywords {
              return config.defaultOnError, [], true;
            }
        }
      }
      matches := FindKeywordMatches(normalized, config.keywords);
      allow := EvaluateMatches(config.keywords, config.matchMode, matches);
      SetCached(key, allow, now);
    }
  }
}
