# discord_summarizer core in Dafny

This project models the three pieces of the news/video summariser bot that hold
logic beyond Discord glue, and proves properties of them.

- **Relevance gate** (`gating.dfy`, module `Gating`): decides whether a news
  text is summarised. It normalises the text (NFKD, drop non-ASCII, lowercase),
  keys a TTL cache of decisions on a digest of the first 4096 normalised
  characters, optionally asks a remote classifier (True / False / None, or an
  exception), and otherwise scans a keyword list with `\b…\b` word-boundary
  matching and turns the matches into a decision by the match mode
  (`allow_if_any` / `deny_if_any`). The module-level `_CACHE` dict becomes the
  `cache` map field of the class `GatingEngine`, whose methods `GetCached`,
  `SetCached`, `ShouldSummarize` and `ShouldSummarizeWithMatches` update it in
  place. Each method is proved equal to a specification function of the
  old cache (`CacheGet`, `CachePut`, `ShouldSummarizeSpec`,
  `ShouldSummarizeWithMatchesSpec`), and the properties are lemmas about those
  functions. `FindKeywordMatches` is the source's loop, proved against the
  recursive definition `KeywordMatches`.
- **Summary chain** (`ai_services.dfy`, module `AiServices`): `get_ai_summary`
  sends `"Article:\n"` plus at most 6000 characters to the Responses endpoint,
  extracts text in layers (`output_text`, then the first truthy text of the
  output items and their content fragments), and on failure makes exactly one
  chat-completion call. `ExtractText` is the source's nested loop with
  `break`s (`ScanItem` is its inner loop over one item), proved against the
  reference definition `ExtractedText`.
  `GetAiSummary` returns the summary together with the list of outbound
  requests it made. `get_gemini_summary` maps failures to three fixed
  messages.
- **Content fetching** (`content_fetcher.dfy`, module `ContentFetcher`):
  `download_image` checks the status and the declared Content-Length, then
  accumulates streamed chunks under a byte cap; `DownloadImage` is that loop,
  proved to accept exactly the responses described by `Accepted` and to return
  the concatenated body. `fetch_article_with_image` / `fetch_article_text`
  shape the scraper's result.
- Shared pieces: `wrappers.dfy` (Option, and `CallResult` for a call that
  either returns or raises) and `py_text.dfy` (Python's `str.isspace`,
  `str.strip()`, `str.lower()` and `in` on strings).

Collaborators are parameters: the NFKD decomposition and the SHA-256 digest
(`Primitives`), the classifier (`classify: string -> ModelReply`), the OpenAI
endpoints (`responses`, `chat`), Gemini (`generate`), `requests.get` (`get`) and
newspaper's `Article` (`scrape`). `time.monotonic()` becomes an explicit `now`.
Configuration (`ENABLE_GATING`, `GATING_*`, `USE_MODEL_BASED_GATING`,
`MODEL_BASED_GATING_FALLBACK_TO_KEYWORDS`) is the `GatingConfig` value the
engine is built with; these names are imported by services/gating.py:13-22
but config.py does not define them, so the model takes them as given.

Behaviour of the code worth knowing:

- `should_summarize` asks the classifier before the cache and never caches a
  classifier verdict (services/gating.py:49-73), while
  `should_summarize_with_matches` looks at the cache first and caches definite
  verdicts (services/gating.py:100-116).
- In `should_summarize` a None verdict goes on to the keywords whatever the
  fallback flag says; only an exception consults it
  (services/gating.py:59-63).
- An unknown strategy makes `should_summarize` allow at once
  (services/gating.py:65-67), while `should_summarize_with_matches` runs the
  keyword path.
- The scan does not deduplicate: a token is appended once per keyword that
  yields it, so a keyword listed twice is reported twice
  (`RepeatedKeywordIsReportedTwice`).
- A whitespace-only `output_text` is truthy, so `get_ai_summary` returns the
  empty string and makes no fallback call (services/ai_services.py:51-52).

## Model

| member | source | states |
|---|---|---|
| `PyText.StripCutsOnlyWhitespace` | services/gating.py:173 | `str.strip()` returns the slice of its argument left after cutting whitespace on both sides, everything cut is whitespace, and the result neither starts nor ends with whitespace |
| `PyText.StripIdempotent` | services/gating.py:173 | stripping twice is stripping once |
| `PyText.LowerChar` | services/gating.py:139 | `str.lower()` on a character never yields an ASCII capital, keeps whitespace as whitespace and ASCII as ASCII |
| `PyText.Lower` | services/gating.py:139 | the model's `str.lower()` works character by character and keeps the length of the string (Python's differs only on U+0130, see "## Left out") |
| `PyText.Contains` | services/ai_services.py:103-105 | `sub in s`: the empty string is in every string, and nothing longer than `s` is in it |
| `Gating.AsciiOnlyIsAscii` | services/gating.py:138 | encoding to ASCII with "ignore" leaves only ASCII characters |
| `Gating.NormalizeText` | services/gating.py:135-139 | normalised text holds only ASCII characters and no upper-case letters |
| `Gating.DecomposedAsciiIsFixed` | services/gating.py:137 | NFKD leaves all-ASCII text unchanged (given it maps each ASCII character to itself) |
| `Gating.AsciiOnlyAsciiIsFixed` | services/gating.py:138 | dropping non-ASCII characters leaves all-ASCII text unchanged |
| `Gating.NormalizeAsciiIsLower` | services/gating.py:135-139 | normalising all-ASCII text only lowercases it |
| `Gating.NormalizedIsFixed` | services/gating.py:135-139 | normalisation leaves a normalised text unchanged |
| `Gating.NormalizeIdempotent` | services/gating.py:135-139 | normalising twice equals normalising once |
| `Gating.CacheKey` | services/gating.py:142-144 | the key is the digest of the whole text up to 4096 characters, and of its first 4096 characters beyond |
| `Gating.CacheKeyDependsOnlyOnSnippet` | services/gating.py:142-144 | two texts that agree on the first 4096 characters get the same key |
| `Gating.ShortTextHashedWhole` | services/gating.py:142-144 | a text of at most 4096 characters is hashed whole |
| `Gating.CacheGet` | services/gating.py:147-159 | a lookup hits exactly when TTL > 0 and the key holds an entry that has not expired; a hit returns that entry's decision and leaves the cache unchanged; a miss leaves the cache unchanged or deletes exactly the looked-up key |
| `Gating.CachePut` | services/gating.py:162-167 | with TTL ≤ 0 the cache is unchanged; otherwise the key maps to the decision valid until now + TTL and no key other than it is added |
| `Gating.CacheOffWhenTtlNotPositive` | services/gating.py:147-167 | with TTL ≤ 0 a lookup misses and leaves the cache alone, and a store changes nothing |
| `Gating.HitWithinTtl` | services/gating.py:147-167 | a decision stored at t is returned by a lookup at any now < t + TTL |
| `Gating.ExpiredAfterTtl` | services/gating.py:155-158 | at now ≥ t + TTL the lookup misses and deletes exactly that key |
| `Gating.CacheOpsKeepOtherKeys` | services/gating.py:147-167 | neither lookup nor store changes any other key |
| `Gating.Token` | services/gating.py:173 | the keyword's token is stripped and already lowercase |
| `Gating.IsBoundary` | services/gating.py:179 | `\b` sits between a word character and a non-word character or the text's edge: a boundary touches a word character, and there is none between two word characters or two non-word characters |
| `Gating.OccursAsWord` | services/gating.py:179-180 | a `\b`-delimited `re.search` hit is in particular a substring occurrence of the token |
| `Gating.KeywordMatches` | services/gating.py:170-186 | there are at most as many matches as keywords, and none of them is blank |
| `Gating.FindKeywordMatches` | services/gating.py:170-186 | the loop returns exactly the keyword-by-keyword definition of the matches |
| `Gating.KeywordMatchesMembership` | services/gating.py:170-186 | a token is matched if and only if some keyword yields it, it is not blank, and it occurs between `\b` boundaries |
| `Gating.MatchesAreFoundTokens` | services/gating.py:172-185 | every match is non-blank, stripped, lowercase and found as a whole word |
| `Gating.MatchesFollowKeywordOrder` | services/gating.py:171-186 | the matches are a subsequence of the keyword tokens, in keyword-list order |
| `Gating.RepeatedKeywordIsReportedTwice` | services/gating.py:180-181 | a found keyword listed twice is reported twice (no deduplication) |
| `Gating.KeywordInsideLongerWordIsNotMatched` | services/gating.py:176-181 | "estado" is not matched in "estadocracia" |
| `Gating.KeywordAsWholeWordIsMatched` | services/gating.py:173-181 | " Estado " is matched as "estado" in "el estado uruguayo" |
| `Gating.EvaluateMatches` | services/gating.py:189-204 | the matches deny exactly when keywords are configured and either the mode is `allow_if_any` with no match or the mode is `deny_if_any` with some match (mode compared case-insensitively) |
| `Gating.StrategyName` | services/gating.py:48 | the strategy name compared with "keywords" and "model" has no surrounding whitespace and no capitals |
| `Gating.MatchModesDisagree` | services/gating.py:200-203 | with keywords configured, `allow_if_any` and `deny_if_any` give opposite answers for the same matches |
| `Gating.KeywordDecision` | services/gating.py:189-204 | no keywords or an unknown mode allows; `allow_if_any` allows iff some keyword is found as a word; `deny_if_any` allows iff none is |
| `Gating.ShouldSummarizeSpec` | services/gating.py:37-86 | a deny needs gating on and a non-empty text; the classifier is asked exactly when gating is on, the text non-empty and the model strategy enabled; with TTL ≤ 0 the cache is unchanged |
| `Gating.ShouldSummarizeWithMatchesSpec` | services/gating.py:89-132 | absent or empty text, or gating off without force, gives (True, []) with no work; the classifier is only asked when the model strategy is enabled; reported matches are the keyword matches of the normalised text and then decide the answer; with TTL ≤ 0 the cache is unchanged |
| `Gating.KeywordStrategyOutcome` | services/gating.py:100-129 | without the classifier, a first call returns the keyword matches of the normalised text and the match mode's decision on them, without asking the model |
| `Gating.FallbackOutcome` | services/gating.py:108-129 | an undecided classifier with keyword fallback on: a first call asks it and then returns the keyword matches and their decision |
| `Gating.ShouldSummarizeFallbackOutcome` | services/gating.py:50-83 | in `should_summarize`, an undecided classifier with fallback on leaves a first call to the keyword decision |
| `Gating.DisabledGatingAllows` | services/gating.py:43-99 | gating off: `should_summarize` allows without touching the cache; unforced `should_summarize_with_matches` gives (True, []) |
| `Gating.EmptyTextAllows` | services/gating.py:45-97 | absent or empty text is allowed by both entry points without any work |
| `Gating.CacheHitSkipsClassifier` | services/gating.py:100-105 | a cache hit returns the cached decision with no matches and does not ask the classifier |
| `Gating.DefiniteVerdictIsCached` | services/gating.py:108-116 | a True/False verdict is returned with no matches and stored until now + TTL |
| `Gating.IndeterminateWithoutFallbackGivesDefault` | services/gating.py:117-123 | a None or raising classifier without keyword fallback gives the configured default and stores nothing |
| `Gating.ShouldSummarizeAsksBeforeCache` | services/gating.py:49-63 | `should_summarize` asks the classifier whatever the cache holds and returns its verdict without caching it |
| `Gating.ShouldSummarizeNoneIgnoresFallbackFlag` | services/gating.py:53-63 | in `should_summarize` a None verdict gives the same outcome whichever value the fallback flag has |
| `Gating.UnknownStrategy` | services/gating.py:65-67 | an unknown strategy: `should_summarize` allows at once; `should_summarize_with_matches` behaves as for "keywords" |
| `Gating.TtlNotPositiveNeverStores` | services/gating.py:162-164 | with TTL ≤ 0 neither entry point changes the cache |
| `Gating.RepeatWithinTtlIsCacheHit` | services/gating.py:100-129 | asking `should_summarize_with_matches` again within the TTL returns the first decision from the cache without asking the classifier |
| `Gating.ShouldSummarizeRepeatIsCacheHit` | services/gating.py:69-83 | on the keyword path, asking `should_summarize` again within the TTL returns the first decision from the cache |
| `Gating.InflationScenario` | services/gating.py:125-129 | with `allow_if_any` and ["inflacion"], "La inflacion sube" is allowed with that match and "Hace mucho calor" is denied |
| `Gating.IndeterminateFallsBackToKeywords` | services/gating.py:108-129 | an undecided classifier with fallback hands the decision to the keywords, which allow "El Mercosur" with the match "mercosur" |
| `Gating.GatingEngine.constructor` | services/gating.py:25 | the engine starts with an empty cache |
| `Gating.GatingEngine.GetCached` | services/gating.py:147-159 | the lookup's answer and the new cache are those of `CacheGet` on the old cache |
| `Gating.GatingEngine.SetCached` | services/gating.py:162-167 | the new cache is `CachePut` of the old cache |
| `Gating.GatingEngine.ShouldSummarize` | services/gating.py:37-86 | decision, new cache and whether the classifier was asked are those of `ShouldSummarizeSpec` on the old cache |
| `Gating.GatingEngine.ShouldSummarizeWithMatches` | services/gating.py:89-132 | decision, matches, new cache and whether the classifier was asked are those of `ShouldSummarizeWithMatchesSpec` on the old cache |
| `AiServices.UserPrompt` | services/ai_services.py:42 | the prompt is "Article:\n" followed by a prefix of the text of length min(len, 6000) |
| `AiServices.UserPromptTruncates` | services/ai_services.py:42 | the prompt is "Article:\n" followed by a prefix of the text of length min(len, 6000); texts agreeing on 6000 characters give the same prompt |
| `AiServices.FirstTruthy` | services/ai_services.py:54-66 | the index returned is the first truthy candidate, or the length when there is none |
| `AiServices.ExtractedText` | services/ai_services.py:51-68 | text is extracted exactly when `output_text` is truthy or some item or fragment text is; a truthy `output_text` wins, stripped |
| `AiServices.ExtractedTextIsStripped` | services/ai_services.py:51-68 | whatever is extracted has been stripped |
| `AiServices.FirstText` | services/ai_services.py:56-66 | a text found is truthy and is one of the candidates |
| `AiServices.ScanItem` | services/ai_services.py:57-64 | the inner scan of one item returns the first truthy text among its own text and its fragments' texts, or nothing |
| `AiServices.ExtractText` | services/ai_services.py:51-68 | the nested scan returns the stripped `output_text` if truthy, else the stripped first truthy item or fragment text in scan order, else nothing |
| `AiServices.GetAiSummary` | services/ai_services.py:28-84 | no text or no client: no call and None; otherwise the primary call first, at most two calls, both with the same prompt; the chat call only after the primary raised or yielded nothing; its content returned unmodified, or None if it raised |
| `AiServices.GeminiFailureMessage` | services/ai_services.py:103-109 | the message is one of the three fixed ones; the busy message exactly when the error text holds "RESOURCE_EXHAUSTED"; the unavailable message exactly when it holds "400" but not "RESOURCE_EXHAUSTED" |
| `AiServices.GetGeminiSummary` | services/ai_services.py:87-109 | no URL or no model gives None; success gives the stripped text; a failure gives the message `GeminiFailureMessage` chooses for the error text |
| `AiServices.GeminiFailurePrecedence` | services/ai_services.py:103-109 | "RESOURCE_EXHAUSTED" wins over "400", "400" alone gives the unavailable message, anything else the generic one; the three messages differ |
| `AiServices.QuotaErrorText` | services/ai_services.py:103-104 | a quota error mentioning 400 still gives the busy message |
| `AiServices.BadRequestErrorText` | services/ai_services.py:105-108 | "400 Bad Request" gives the unavailable message |
| `AiServices.ServerErrorText` | services/ai_services.py:109 | "500 Internal" gives the generic message |
| `ContentFetcher.ParseInt` | services/content_fetcher.py:43 | `int()` succeeds exactly when, after the whitespace it skips, the text is a digit run of at most 4300 digits (leading zeros included) with at most one leading sign |
| `ContentFetcher.IsIntSpace` | services/content_fetcher.py:43 | the whitespace `int()` skips is part of `str.isspace`, and on ASCII it is exactly space, tab, line feed, vertical tab, form feed and carriage return |
| `ContentFetcher.TrimIntSpaceSurrounded` | services/content_fetcher.py:43 | the whitespace `int()` skips may surround the number on both sides and is all cut off |
| `ContentFetcher.ParseIntReadsDigits` | services/content_fetcher.py:43 | `int()` reads a digit run of at most 4300 digits as its value and raises on a longer one, whatever skipped whitespace surrounds it |
| `ContentFetcher.ParseIntReadsSignedDigits` | services/content_fetcher.py:43 | `int()` reads "+" or "-" and a digit run of at most 4300 digits as the value or its negation and raises on a longer run, whatever skipped whitespace surrounds it |
| `ContentFetcher.ParseIntReadsDecimal` | services/content_fetcher.py:43 | `int()` reads back the decimal form of every number of at most 4300 digits, unsigned, with "+" or with "-", surrounded by any whitespace it skips, and raises on a longer decimal form |
| `ContentFetcher.ZeroPaddedNumberIsRejected` | services/content_fetcher.py:43 | leading zeros count towards the 4300-digit limit: "5" behind 4300 zeros makes `int()` raise |
| `ContentFetcher.RaisesForStatus` | services/content_fetcher.py:40 | `raise_for_status()` raises exactly on the 4xx and 5xx status classes |
| `ContentFetcher.DeclaredSizeAllows` | services/content_fetcher.py:42-45 | an absent or empty Content-Length never stops the download; a present one lets it go on only if `int()` accepts it |
| `ContentFetcher.DeclaredDecimalSize` | services/content_fetcher.py:42-45 | a decimal Content-Length lets the download go on exactly when it has at most 4300 digits and does not exceed the cap |
| `ContentFetcher.SeparatorPaddedNumberIsRejected` | services/content_fetcher.py:43 | "5" followed by U+001F is rejected by `int()`, while "5" followed by a tab or preceded by a no-break space reads as 5 |
| `ContentFetcher.Accepted` | services/content_fetcher.py:36-63 | an accepted response has a positive cap and at least one chunk |
| `ContentFetcher.DownloadImage` | services/content_fetcher.py:36-63 | bytes are returned iff the call succeeds, the status is below 400 or at least 600, the declared size passes, the stream does not fail and the body is non-empty and at most the cap; the bytes are the concatenated chunks; an error status or a rejected header reads no chunk; reading stops at the first chunk that takes the total over the cap |
| `ContentFetcher.DownloadImageDefault` | services/content_fetcher.py:13-36 | called without `max_bytes`, the download accepts exactly what the 7,000,000-byte cap accepts and returns at most 7,000,000 bytes |
| `ContentFetcher.SeparatorPaddedHeaderIsRejected` | services/content_fetcher.py:42-45 | a Content-Length of "5" followed by U+001F makes `int()` raise, so the image is not downloaded |
| `ContentFetcher.ZeroPaddedHeaderIsRejected` | services/content_fetcher.py:42-45 | a Content-Length of more than 4300 digits makes `int()` raise, so nothing is downloaded even when its value is below the cap |
| `ContentFetcher.ConcatSkipsEmptyChunks` | services/content_fetcher.py:49-50 | leaving out the empty chunks does not change the concatenated body |
| `ContentFetcher.EmptyChunksDoNotMatter` | services/content_fetcher.py:47-58 | whether an image is accepted does not depend on empty chunks |
| `ContentFetcher.FetchArticleWithImage` | services/content_fetcher.py:22-33 | a scraping failure gives (None, None); the text is present iff scraped and non-empty, and then equals the article text; the same for the top image |
| `ContentFetcher.FetchArticleText` | services/content_fetcher.py:16-19 | the text is present iff scraped and non-empty, and then equals the article text |

## Left out

- NFKD tables and SHA-256: both are parameters (`Primitives`). Idempotence of normalisation assumes only that NFKD maps each ASCII character to itself. NFKD is applied character by character: canonical reordering only moves combining marks, which are non-ASCII and dropped next.
- `PyText.LowerChar`: lowercases ASCII capitals and KELVIN SIGN (the one non-ASCII character whose lowercase is ASCII), and keeps every other non-ASCII character, one for one. Python's `str.lower()` also turns U+0130 (LATIN CAPITAL LETTER I WITH DOT ABOVE) into two characters, "i" and U+0307, so `PyText.Lower` keeps the length where Python does not. This matters nowhere here: it is applied after non-ASCII characters are dropped, to configuration names compared with ASCII literals, or to keyword tokens, and a token holding U+0130 holds a non-ASCII character under either lowercase and so never matches the ASCII normalised text.
- `\w` is modelled on ASCII only, since the matcher only ever sees normalised (ASCII) text. The `re.error` substring fallback (services/gating.py:182-185) is left out because `re.escape` makes it unreachable.
- The keyword-path `except` blocks of both entry points (services/gating.py:84-86, 130-132) are left out. With the regex fallback unreachable, the only thing in those `try` blocks that can raise is `_set_cached`, for the reason in the next line.
- `Gating.CachePut`: does not model the `OverflowError` that `time.monotonic() + GATING_CACHE_TTL_SECONDS` (services/gating.py:165) raises when the integer TTL is too large to convert to a float (about 1.8e308 or more). The model stores the entry instead. In the source the entry points catch that error: a definite model verdict in `should_summarize_with_matches` goes to services/gating.py:120-123, and the keyword path of either entry point returns `GATING_DEFAULT_ON_ERROR` (with no matches) and stores nothing. A TTL in seconds of that size is not a configuration the program is meant for.
- `threading.Lock` (services/gating.py:26, 151, 166): the model is single-threaded.
- `time.monotonic()`: each entry point call uses one `now` for both its lookup and its store. TTL is an integer, and the float arithmetic of `expires_at` is exact in the model.
- Logging, the once-per-process warning about disabled gating, the system prompts and the Gemini prompt text are left out. The call's instructions are not part of `Request`.
- `is_article_relevant` is not part of this model: the classifier is the `classify` parameter.
- Client initialisation (services/ai_services.py:11-25) is reduced to the flags `clientConfigured` / `modelConfigured`.
- `requests.get` with its timeout, and the transport, are the `get` parameter. The 8192-byte chunking is left out because the proofs hold for chunks of any size. A stream that breaks half-way is a shorter chunk list with `streamFails`.
- `ContentFetcher.ParseInt`: only ASCII digits are accepted, whereas Python's `int()` also accepts other Unicode decimal digits. The 4300-digit limit is CPython's default (`sys.int_info.default_max_str_digits`, since 3.11 and in the 3.7-3.10 security releases); a limit changed through `PYTHONINTMAXSTRDIGITS` or `sys.set_int_max_str_digits`, and older interpreters without any limit, are not modelled. The whitespace it skips (`IsIntSpace`) is Python's `str.isspace` without U+001C..U+001F, which `int()` does not skip.
- `PyText.Strip` carries no contract of its own: its properties are the lemmas `StripCutsOnlyWhitespace` and `StripIdempotent`.
- The three Discord cogs, bot start-up, config loading and the manual scripts are outside the modelled core.
