# News aggregator core in Dafny

This project models the ingestion side of a company-news aggregator. The
aggregator crawls search results and feeds for a company and scores each
record for impact. It classifies records by content and removes duplicates.
It then filters the records by time and quality, ranks them, and hands the
best ones to a summariser. The modelled behaviour is:

- **Scoring and classification** (`crawlers.dfy`, module `Crawlers`):
  - the base crawler's keyword scorer;
  - the multi-query crawler's weighted scorer, with its recency bonus and
    short-snippet penalty;
  - the six-way content classifier;
  - the similarity-based deduplicator;
  - the final "deduplicate, sort by score, keep `max_results`" step of the
    multi-query scrape.
- **Basic pipeline** (`aggregator.dfy`, module `Aggregator`):
  - merging the crawler results;
  - deduplication by URL or lower-cased title;
  - the time-window filter;
  - the top-ten ranking by (score, timestamp);
  - the time-range mapping and the three outcomes of a basic news query.
- **Enterprise pipeline** (`enterprise.dfy`, module `Enterprise`):
  - the quality filter and the in-place score boosts;
  - the top-twelve ranking;
  - the word-pattern fallback of the company extraction;
  - the per-session snapshot map (class `EnterprisePipeline`);
  - the query flow that fills that map.
- **Utility helpers** (`utils.dfy`, module `Utils`): truncation, file-name
  sanitising, company-name validation, the high-impact keyword test and
  score banding.
- **Supporting modules**:
  - `common.dfy` (`Common`): Option/Result, sub-sequences, Python's list
    filter and slice prefix, set counting;
  - `text.dfy` (`Text`): ASCII lower-casing, substring search (Python
    `in`), `strip`, `split` and string order;
  - `news.dfy` (`News`): the record type;
  - `ranking.dfy` (`Ranking`): the stable descending sort used by all three
    rankers.

Conventions of the model:

- **Scores are integers in half-points.** 5.0 is 10 and 10.0 is 20. Every
  constant the core adds is a multiple of 0.5, and the user's threshold
  slider moves in steps of 0.5 (src/interface.py:134-140), so the model is
  exact. The 0.7 similarity threshold is cross-multiplied:
  `10 * shared > 7 * max(len_a, len_b)`.
- **Records keep the raw timestamp string.** `fetch_all_news` breaks score
  ties on that string, and an empty timestamp is checked before parsing.
- **Parsing and the clock are parameters.** Parsing
  (`datetime.fromisoformat` after replacing `Z`) is a parameter
  `parse: string -> ParsedTime`, and the current time is a parameter
  `now`. `ParsedTime` is one of `Invalid`, `Naive(seconds)` or
  `Aware(seconds)`.
- **Naive versus aware timestamps matter.** Comparing an aware time with
  the naive cutoff raises `TypeError`, and both time filters then keep the
  record.
- **Step-by-step code is written as methods.** Each loop of the source that
  builds a list or set is a method with loop invariants, proved equal to a
  specification function. Examples are `Crawlers.CalculateImpact`,
  `Crawlers.AdvancedDeduplication`, `Aggregator.Deduplicate`,
  `Aggregator.FilterByTime`, `Enterprise.EnterpriseFilterNews` and
  `Utils.SanitizeFilename`. The properties are then proved about the
  function.
- **The session map is a class.** `session_data` is the `map` field of the
  class `Enterprise.EnterprisePipeline`, updated by its methods.

Behaviour of the code that the model reproduces deliberately:

- **URLs are compared exactly.** Both deduplicators compare URLs as exact
  strings, letter case included (`Crawlers.DifferentUrlsKept`).
- **Two blank titles can crash the advanced deduplicator.** Once a record
  whose title has no word has been kept, a later record with a new URL and
  a title without a word makes the similarity ratio divide by zero. The
  deduplicator, and with it the whole multi-query scrape, then raises; the
  model returns `Err(ZeroDivisionError)`. A blank-titled record dropped on
  its URL is never compared, so it sets off nothing
  (`Crawlers.AdvancedDedupErrNeedsBlankPair`; `Crawlers.BlankPairFails` is
  the two-record case).
  In the enterprise flow the failed scrape contributes nothing
  (`Enterprise.EnterpriseGathered`).
- **The seen titles are visited in arbitrary order, but the result does
  not depend on it.** A title that resembles another has a word, so it
  never divides by zero against a blank title. Whichever seen title is
  visited first, the result is the same (`Crawlers.ScanSeenTitles`).
- **The trusted-source test matches substrings.** Any source containing
  "ap", such as "Apple Press", earns the credibility boost
  (`Enterprise.ApplePressTrusted`).
- **The boost clamp can lower a score.** A score above 10.0 (which no
  scorer produces) is lowered to 10.0 by the clamp
  (`Enterprise.BoostClampLowers`).
- **The basic mapping has no "1 week".** The basic time mapping sends
  "1 week" to 24 hours; the enterprise mapping sends it to 168
  (`Aggregator.TimeRangeHoursSpec`).
- **The recency hint is case-sensitive.** The hint of the enhanced scorer
  looks at the query as written ("TODAY" is no hint).
- **`truncate_text` overshoots below 3.** With `max_length` below 3 it
  returns more than `max_length` characters.
- **The enterprise filter test fixture depends on the clock.** The fixture
  in tests/test_pipeline.py:136-165 stamps its record `2024-01-01T12:00:00`
  with a 24-hour window, so the code keeps that record only when `now` is
  within a day of the stamp; otherwise the result is empty
  (`Enterprise.ReutersExample` states both cases).

## Model

| member | source | states |
|---|---|---|
| Crawlers.ImpactScore | src/crawlers.py:34-55 | the base score is between 5.0 and 10.0 |
| Crawlers.CalculateImpact | src/crawlers.py:34-55 | the three keyword loops compute base 5.0 plus 3.0/1.5/0.5 per distinct matching high/medium/low keyword, capped at 10.0, which lies in [5.0, 10.0] |
| Crawlers.ImpactScoreMonotone | src/crawlers.py:43-53 | appending text never lowers the base score: each keyword counts once, on presence |
| Crawlers.ImpactScoreOnlyLow | src/crawlers.py:40-55 | with no high or medium keyword and two low keywords absent, the base score is at most 6.5 |
| Crawlers.AcquisitionFound | src/crawlers.py:40 | a title containing "acquisition" has it in its lower-cased scoring text |
| Crawlers.ImpactScoreHighExample | tests/test_pipeline.py:181-185 | "Tesla announces major acquisition deal" scores above 7.0 |
| Crawlers.ImpactScoreLowExample | tests/test_pipeline.py:187-191 | "Tesla provides update on meeting" scores below 7.0 |
| Crawlers.MeetingHighAbsent | src/crawlers.py:36 | no high-impact keyword occurs in the low-impact test title |
| Crawlers.MeetingMediumAbsent | src/crawlers.py:37 | no medium-impact keyword occurs in the low-impact test title |
| Crawlers.MeetingLowAbsent | src/crawlers.py:38 | "comment" and "statement" do not occur in the low-impact test title |
| Crawlers.EnhancedImpactScore | src/crawlers.py:232-267 | the enhanced score is between 4.5 and 10.0 |
| Crawlers.CalculateEnhancedImpact | src/crawlers.py:232-267 | the nested level/keyword loops with the level if-chain, the recency bonus and the short-snippet penalty compute the enhanced score, which lies in [4.5, 10.0] |
| Crawlers.KeywordPointsMonotone | src/crawlers.py:247-257 | keyword points never drop when every keyword found before is still found |
| Crawlers.EnhancedRecencyBonus | src/crawlers.py:260-262 | a query containing "today" or "latest" adds exactly 1.0 over one without, up to the cap |
| Crawlers.RecencyHintCaseSensitive | src/crawlers.py:260-262 | "Tesla today" is a recency hint; "Tesla TODAY" is not (the query is not lower-cased) |
| Crawlers.EnhancedImpactMonotone | src/crawlers.py:243-267 | a longer snippet never lowers the enhanced score |
| Crawlers.EnhancedFloor | src/crawlers.py:243-267 | the score is 4.5 exactly when no keyword matches, there is no recency hint and the snippet is shorter than 50 |
| Crawlers.ClassifyContentType | src/crawlers.py:269-284 | the classifier's if-chain over the five keyword groups, General otherwise (its properties are those of `ClassifyIsFirstMatch` and `FirstMatchSpec`) |
| Crawlers.FirstMatchSpec | src/crawlers.py:269-284 | the first category with a matching word wins; General exactly when no category matches |
| Crawlers.ClassifyIsFirstMatch | src/crawlers.py:269-284 | the classifier's if-chain equals the first match over Financial, M&A, Product, Leadership, Market |
| Crawlers.SharedWordsCard | src/crawlers.py:307 | the shared-word count equals the size of the intersection of the two word sets |
| Crawlers.ScanSeenTitles | src/crawlers.py:304-309 | the inner loop ends with no similar title exactly when every seen title is neither similar nor blank against a blank title; otherwise it names a similar seen title or the blank pair that divides by zero |
| Crawlers.AdvancedStep | src/crawlers.py:298-314 | one pass of the deduplication loop: a seen URL drops the record, a blank title against a blank seen title raises, a similar seen title drops it, otherwise it is kept |
| Crawlers.AdvancedDedup | src/crawlers.py:286-316 | the deduplicator as the left fold of `AdvancedStep`, an error staying an error (its properties are those of the `AdvancedDedup…` lemmas) |
| Crawlers.AdvancedDeduplication | src/crawlers.py:286-316 | the loop with its seen-URL and seen-title sets computes the left fold of the step (exact URL seen → drop; blank against blank → ZeroDivisionError; similar → drop; else keep) |
| Crawlers.AdvancedDedupErrPersists | src/crawlers.py:295-314 | once a prefix of the input raises, the whole run raises |
| Crawlers.AdvancedDedupAccepted | src/crawlers.py:286-316 | the output is an order-preserving subsequence of the input, each record accepted against the ones kept before it |
| Crawlers.AdvancedDedupIdempotent | src/crawlers.py:286-316 | deduplicating the output again returns it unchanged |
| Crawlers.AdvancedDedupDistinct | src/crawlers.py:295-314 | kept URLs are pairwise distinct, and no kept title has overlap ratio above 0.7 with an earlier kept title |
| Crawlers.AdvancedDedupCovers | src/crawlers.py:298-314 | every input record has its URL kept or resembles a kept title |
| Crawlers.AdvancedDedupKeepsFirst | src/crawlers.py:288-314 | the first record of a non-empty input is kept |
| Crawlers.AdvancedDedupSingle | src/crawlers.py:288-314 | a single record is kept |
| Crawlers.AdvancedDedupErrNeedsBlankPair | src/crawlers.py:307 | the deduplicator raises only when two records with different URLs both have titles without a word |
| Crawlers.BlankPairFails | src/crawlers.py:307 | two records with different URLs and blank titles make it raise |
| Crawlers.DifferentUrlsKept | src/crawlers.py:300-314 | a second record whose URL differs in any character (letter case included) and whose non-blank title does not resemble the first is kept |
| Crawlers.RankScraped | src/crawlers.py:228-230 | the scrape's last step as a function: deduplicate, sort by score from highest, slice to `max_results` (its properties are those of `RankScrapedSpec`) |
| Crawlers.RankScrapedSpec | src/crawlers.py:228-230 | the scrape's result raises iff deduplication raises; otherwise it is sorted non-increasing by score, has min(max_results, unique count) records for a non-negative bound, is drawn from the deduplicated and the raw records, has distinct URLs, and holds the top scores: a deduplicated record left out scores no higher than any record kept |
| Ranking.SortDescSpec | src/pipeline.py:55-57 | `sorted(..., reverse=True)` yields a non-increasing permutation of its input of the same length |
| Ranking.SortDescStable | src/pipeline.py:55-57 | records with equal keys keep their input order |
| Ranking.RankedPrefix | src/pipeline.py:55-59 | a slice of the ranking is sorted, a sub-multiset of the input, keeps URLs distinct, and is its top: every record of the input left out of the slice has a key no larger than every record in it |
| Ranking.DistinctUrlsPermutation | src/pipeline.py:55-59 | rearranging records keeps their URLs distinct |
| Ranking.SubseqDistinctUrls | src/pipeline.py:79-99 | dropping records keeps their URLs distinct |
| Aggregator.GatheredMembers | src/pipeline.py:38-42 | a merged record is exactly one held by a crawler task that returned a list |
| Aggregator.GatherResults | src/pipeline.py:38-42 | the extend loop concatenates, in crawler order, the lists of the crawlers that did not raise |
| Aggregator.Deduplicate | src/pipeline.py:61-77 | the loop with its seen sets keeps a record iff neither its URL nor its lower-cased title was seen |
| Aggregator.DeduplicatedSpec | src/pipeline.py:61-77 | the result is an order-preserving subsequence with pairwise distinct URLs and pairwise distinct lower-cased titles |
| Aggregator.DeduplicatedIdempotent | src/pipeline.py:61-77 | deduplicating twice equals deduplicating once |
| Aggregator.DeduplicatedPrefix | src/pipeline.py:67-75 | what is kept from a prefix of the input is a prefix of what is kept from all of it |
| Aggregator.DeduplicatedFirstSeenWins | src/pipeline.py:72-75 | a dropped record shares its URL or lower-cased title with an earlier input record that was kept |
| Aggregator.DeduplicatedKeepsFirst | src/pipeline.py:67-75 | the first record of a non-empty input is kept |
| Aggregator.KeptByTime | src/pipeline.py:83-97 | the time test of one record: kept when the stamp is empty, unparseable with now at or after the cutoff, aware, or naive at or after the cutoff (the filter's properties are those of `TimeFilteredSpec`) |
| Aggregator.FilterByTime | src/pipeline.py:79-99 | the loop appends a record iff its timestamp is empty, unparseable with now at or after the cutoff, aware (the comparison raises and the handler keeps it), or naive at or after the cutoff |
| Aggregator.TimeFilteredSpec | src/pipeline.py:79-99 | the time filter is an order-preserving subsequence and keeps a record iff it passes the time test |
| Aggregator.AtCutoffKept | src/pipeline.py:92-93 | a record stamped exactly at the cutoff is kept |
| Aggregator.FetchAllNews | src/pipeline.py:26-59 | merge, deduplicate, filter with cutoff now minus the hours, sort by (score, timestamp) from highest, first ten |
| Aggregator.TopNewsSpec | src/pipeline.py:47-59 | at most ten records (min of ten and the number passing), sorted non-increasing by (score, timestamp), each from the input and inside the window, with distinct URLs; they are the top ten: a unique record inside the window that is left out ranks no higher than any record returned |
| Aggregator.TimeRangeHoursSpec | src/pipeline.py:117-118 | the basic mapping yields 1/6/24 and 24 for anything else, "1 week" included; the enterprise mapping (src/pipeline.py:257-258) yields 168 for "1 week" and agrees elsewhere |
| Aggregator.ProcessNewsQuery | src/pipeline.py:112-137 | the query maps its time range, fetches the top news and ends in the outcome `NewsQueryOutcome` of those records |
| Aggregator.NewsQueryOutcomeSpec | src/pipeline.py:125-137 | no news iff nothing was fetched; "none meet the threshold" iff news exist and all score below it, reporting the count; otherwise the summariser gets, in order, exactly the records scoring at least the threshold |
| Aggregator.LowImpactExample | tests/test_pipeline.py:61-81 | a single record at 3.0 against threshold 5.0 gives the "none meet your impact threshold" outcome |
| Enterprise.PassesAll | src/pipeline.py:263-289 | one pass of the filter loop keeps a record iff its score meets the threshold, it is not naive-stamped before the cutoff, its title has at least 10 characters and no "error" in any case, and its URL is non-empty and starts with "http" |
| Enterprise.BoostScore | src/pipeline.py:295-308 | one pass of the boost loop: +1.0 for a trusted source, then +0.5 when the parsed timestamp is under an hour old, each capped at 10.0 |
| Enterprise.BoostedScoreBounds | src/pipeline.py:295-308 | for scores up to 10.0 the boosts never lower the score, never exceed 10.0, add at most 1.5, add the full 1.0 for a trusted source below 9.0, and change nothing without a trusted source or fresh stamp |
| Enterprise.BoostClampLowers | src/pipeline.py:299 | a score above 10.0 from a trusted source is lowered to 10.0 |
| Enterprise.ApSourceTrusted | src/pipeline.py:298-299 | any source whose lower-cased name contains "ap" is trusted |
| Enterprise.ApplePressTrusted | src/pipeline.py:298-299 | "Apple Press" is treated as a trusted source |
| Enterprise.EnterpriseFilterNews | src/pipeline.py:253-311 | the filter loop, the in-place boost loop, the stable sort by score and the slice to twelve compute the passing records, boosted, ranked, first twelve |
| Enterprise.EnterpriseRankedSpec | src/pipeline.py:253-311 | at most twelve records (min of twelve and the number passing), sorted non-increasing by score, each a passing input record with only its score boosted; they are the top twelve: a passing record left out scores, boosted, no higher than any record ranked |
| Enterprise.EnterpriseRankedTop | src/pipeline.py:309-311 | a passing record left out of the twelve has, once boosted, a score no higher than any ranked record |
| Enterprise.EnterpriseRankedComplete | src/pipeline.py:261-311 | when at most twelve records pass, every passing record appears, boosted |
| Enterprise.ReutersExample | tests/test_pipeline.py:136-165 | the Reuters fixture at 8.0 with threshold 5.0 yields that one record at 9.0 or more when its naive stamp is within the last day, and nothing when older |
| Enterprise.HighImpactTitle | src/pipeline.py:280-282 | the fixture title "High Impact News" passes the title filter |
| Enterprise.ReutersTrusted | src/pipeline.py:298-299 | "Reuters" is a trusted source |
| Enterprise.IndicatorCompanySpec | src/pipeline.py:239-248 | the fallback returns the word before the first indicator word (case-insensitive) that is not the first word, and nothing iff there is no such indicator |
| Enterprise.IndicatorCompanyFromSpec | src/pipeline.py:244-246 | the same first-match property for the search from any position |
| Enterprise.CompanyFromIndicators | src/pipeline.py:243-248 | the loop over `user_input.split()` returns the indicator fallback's answer |
| Enterprise.IndicatorExamples | src/pipeline.py:244-246 | "Stock news" names nothing (indicator at position 0); "Tesla Stock news" names "Tesla" |
| Enterprise.ExtractCompany | src/pipeline.py:226-251 | the extraction as a function of the input and the entities found (its properties are those of `ExtractCompanySpec`) |
| Enterprise.FirstCompanyEntityAt | src/pipeline.py:235-237 | the entity loop returns the text of the entity at position i when it is the first labelled ORG or COMPANY |
| Enterprise.ExtractCompanySpec | src/pipeline.py:226-251 | without a language model nothing is extracted; the first entity labelled ORG or COMPANY, at whatever position, wins; without such entities the word patterns decide |
| Enterprise.EnterpriseGathered | src/pipeline.py:179-191 | the records of the enterprise query's two crawler tasks: the scrape's ranked fifteen unless its deduplication raised, then the feed's list unless it raised (its properties are those of `GatheredMembers` and `RankScrapedSpec`) |
| Enterprise.EnterprisePipeline.constructor | src/pipeline.py:150-154 | a new pipeline has no sessions |
| Enterprise.EnterprisePipeline.StoreSession | src/pipeline.py:201-206 | storing replaces exactly the entry of the session id and leaves every other session as it was |
| Enterprise.EnterprisePipeline.GetSessionData | src/pipeline.py:313-315 | returns the stored snapshot, or nothing (the empty dict) for an unknown id |
| Enterprise.EnterprisePipeline.ClearSessionData | src/pipeline.py:317-320 | removes only the given id, and changes nothing when it is absent |
| Enterprise.EnterprisePipeline.ProcessEnterpriseQuery | src/pipeline.py:156-206 | no company (given or extracted) → no lookup and no store; no gathered news → no store; otherwise the response gets the enterprise ranking of the gathered records and exactly this session's snapshot is replaced by the company and that ranking |
| Utils.TruncateText | src/utils.py:152-158 | `truncate_text` as a function (its properties are those of `TruncateTextSpec` and `TruncateTextShortLimit`) |
| Utils.TruncateTextSpec | src/utils.py:152-158 | a text that fits is returned unchanged; a longer one becomes a prefix of it plus "...", exactly `max_length` long when `max_length` is at least 3 |
| Utils.TruncateTextShortLimit | src/utils.py:155-158 | with `max_length` below 3 a longer text comes back longer than `max_length` |
| Utils.SanitizeFilename | src/utils.py:161-173 | the replace loop over `<>:"/\|?*` followed by the cut at 255 computes the position-wise sanitised name |
| Utils.SanitizedFilenameSpec | src/utils.py:161-173 | the result has min(len, 255) characters, each the input's character with invalid ones replaced by `_`, so none is invalid |
| Utils.SanitizedFilenameIdempotent | src/utils.py:161-173 | sanitising twice equals sanitising once |
| Utils.ValidCompanyName | src/utils.py:191-208 | `validate_company_name` as a predicate (its properties are those of `ValidCompanyNameIff` and the examples below) |
| Utils.ValidCompanyNameIff | src/utils.py:191-208 | valid iff non-empty, at least two characters after stripping, and no listed pattern in the lower-cased name |
| Utils.PatternRejects | src/utils.py:203-206 | a name containing a listed pattern, in any letter case, is invalid |
| Utils.AppleIsValid | src/utils.py:191-208 | "Apple" is a valid company name |
| Utils.TooShortInvalid | src/utils.py:194-195 | "" and " A " are invalid |
| Utils.WebAddressInvalid | src/utils.py:198-206 | "www.tesla.com" is invalid |
| Utils.IsHighImpactNews | src/utils.py:222-237 | `is_high_impact_news` as a predicate (its properties are those of `IsHighImpactNewsIff`) |
| Utils.IsHighImpactNewsIff | src/utils.py:222-237 | high impact iff some listed keyword occurs in the lower-cased `title + " " + snippet` |
| Utils.ScorerHighKeywordIsHighImpact | src/utils.py:225-229 | every high keyword of the base scorer is on the list, so a record it credits with one is high-impact news |
| Utils.ImpactBand | src/utils.py:240-250 | the band `format_impact_score` chooses (its properties are those of `ImpactBandSpec`) |
| Utils.ImpactBandSpec | src/utils.py:240-250 | Critical iff ≥ 8.0, High iff in [6.0, 8.0), Medium iff in [4.0, 6.0), Low iff < 4.0; a higher score never gets a lower band |

## Left out

- Network fetching, HTML, RSS and article parsing, and the request loop of
  the multi-query scrape. That loop's output enters the model as the raw
  records handed to `Crawlers.RankScraped` and `Enterprise.EnterpriseGathered`.
- Concurrency. `asyncio.gather` is modelled as concatenation, in task
  order, of the lists of the crawlers that returned one.
- The clock. `datetime.now()` and `time.time()` are parameters (`now`,
  `queryTime`, `processingTime`). One `now` serves every clock reading of
  a call. The source reads the clock more than once: in the basic time
  filter for the cutoff and again for the "now" an unparseable timestamp
  stands for, and in the enterprise filter once for the cutoff
  (src/pipeline.py:259) and once more for each freshness test
  (src/pipeline.py:304).
- Time zones. Aware timestamps carry their instant in seconds on the same
  clock as naive ones.
- Timestamp parsing (`datetime.fromisoformat`) is an opaque parameter.
- The language model. The entities of the company extraction are an input,
  `None` when no model is loaded.
- Response text generation (summaries, the conversational reply, the
  enterprise analytics line, the error messages) and the float display
  strings of `format_impact_score`.
- Unicode. Lower-casing is ASCII-only, and whitespace for `split` and
  `strip` is the ASCII `isspace` set.
- Floating point. Scores are exact half-points. A threshold between half
  points cannot be expressed, and the stored processing time is a `real`.
- Aliasing. The enterprise boosts overwrite `impact_score` in the caller's
  dictionaries; the model returns boosted copies and leaves the input list
  unchanged.
- Dictionary records. The records are a datatype, and a missing
  `timestamp` key is treated as the empty string. Two readers use `[...]`
  on that key and so raise where the model goes on with "": the freshness
  boost, whose handler skips the boost, and the sort key of
  `fetch_all_news` (src/pipeline.py:56), whose `KeyError` reaches the
  handler of `process_news_query` (src/pipeline.py:141-144) and turns the
  query into an error message, while the model sorts the record with "". The `content_type` key that the scraper
  adds is left out; the classifier is modelled on its own.
- Exception handlers. The broad handlers of `process_news_query`,
  `process_enterprise_query` and `_extract_company_from_input` have no
  modelled step that raises, apart from the deduplicator's division by
  zero, which is modelled.
- `Enterprise.EnterprisePipeline.GetSessionData` returns `None` where the
  source returns an empty dictionary.
- `Enterprise.EnterprisePipeline.ProcessEnterpriseQuery` returns the
  outcome (company, ranked records, gathered count) rather than the
  response text built from it.
- `Aggregator.ProcessNewsQuery` returns the outcome rather than the message
  text or summary built from it.
