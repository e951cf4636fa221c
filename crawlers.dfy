/** The per-record logic of the crawlers (src/crawlers.py): the two impact
    scorers, the content classifier, the similarity-based deduplicator of
    the multi-query crawler and the ranking at the end of its scrape.
    Scores are in half-points (see `News.NewsItem`). */
module Crawlers {
  import opened Common
  import opened Text
  import opened News
  import opened Ranking

  /** The text every keyword test of the scorers and the classifier looks
      at: `f"{title} {snippet}".lower()`. */
  function ScoringText(title: string, snippet: string): string {
    Lower(title + " " + snippet)
  }

  // ---------------------------------------------------------------------
  // BaseCrawler._calculate_impact

  const BaseHigh: seq<string> :=
    ["acquisition", "merger", "lawsuit", "bankruptcy", "ceo", "scandal", "investigation"]
  const BaseMedium: seq<string> :=
    ["earnings", "revenue", "partnership", "launch", "investment", "breakthrough"]
  const BaseLow: seq<string> :=
    ["update", "comment", "statement", "meeting", "interview"]

  /** The base crawler's score: 5.0, plus 3.0 / 1.5 / 0.5 for every high /
      medium / low keyword that occurs at least once, capped at 10.0. */
  function ImpactScore(title: string, snippet: string): (s: int)
    ensures 10 <= s <= MaxScore
  {
    var t := ScoringText(title, snippet);
    Min(10 + 6 * Hits(BaseHigh, t) + 3 * Hits(BaseMedium, t) + Hits(BaseLow, t), MaxScore)
  }

  method CalculateImpact(title: string, snippet: string) returns (score: int)
    ensures score == ImpactScore(title, snippet)
    ensures 10 <= score <= MaxScore
  {
    var text := ScoringText(title, snippet);
    score := 10;
    for i := 0 to |BaseHigh|
      invariant score == 10 + 6 * Hits(BaseHigh[..i], text)
    {
      assert BaseHigh[..i + 1][..i] == BaseHigh[..i];
      if Occurs(BaseHigh[i], text) {
        score := score + 6;
      }
    }
    assert BaseHigh[..|BaseHigh|] == BaseHigh;
    var afterHigh := score;
    for i := 0 to |BaseMedium|
      invariant score == afterHigh + 3 * Hits(BaseMedium[..i], text)
    {
      assert BaseMedium[..i + 1][..i] == BaseMedium[..i];
      if Occurs(BaseMedium[i], text) {
        score := score + 3;
      }
    }
    assert BaseMedium[..|BaseMedium|] == BaseMedium;
    var afterMedium := score;
    for i := 0 to |BaseLow|
      invariant score == afterMedium + Hits(BaseLow[..i], text)
    {
      assert BaseLow[..i + 1][..i] == BaseLow[..i];
      if Occurs(BaseLow[i], text) {
        score := score + 1;
      }
    }
    assert BaseLow[..|BaseLow|] == BaseLow;
    score := Min(score, MaxScore);
  }

  /** More text never lowers the base score: every keyword found before is
      still found. */
  lemma ImpactScoreMonotone(title: string, snippet: string, extra: string)
    ensures ImpactScore(title, snippet) <= ImpactScore(title, snippet + extra)
  {
    var t := ScoringText(title, snippet);
    var u := ScoringText(title, snippet + extra);
    assert title + " " + (snippet + extra) == (title + " " + snippet) + extra;
    LowerAppend(title + " " + snippet, extra);
    forall k | Occurs(k, t) ensures Occurs(k, u) {
      OccursAppend(k, t, Lower(extra));
    }
    HitsMonotone(BaseHigh, t, u);
    HitsMonotone(BaseMedium, t, u);
    HitsMonotone(BaseLow, t, u);
  }

  /** The title of the scorer's unit test that only mentions "update" and
      "meeting", lower-cased, with the blank the scorer adds before the
      (empty) snippet. */
  const MeetingText: string := "tesla provides update on meeting "

  lemma MeetingTextIs()
    ensures ScoringText("Tesla provides update on meeting", "") == MeetingText
  {
  }

  /** Certificates that no high or medium keyword occurs in `MeetingText`:
      the character at position `j` is the one `ShownAbsent` uses for the
      keyword at position `j` of `BaseHigh` (resp. `BaseMedium`), a letter
      of the keyword the text lacks, or `_` where the keyword's opening
      three letters never appear in a row. The `MeetingLacks…` lemmas
      check each certificate on the literal keywords. */
  const MeetingHighWitness: string := "c_wbcc_"
  const MeetingMediumWitness: string := "__hc_b"

  lemma MeetingLacksDealWords()
    ensures ShownAbsent("acquisition", MeetingText, 'c') && ShownAbsent("merger", MeetingText, '_')
  {
  }

  lemma MeetingLacksInvestigation()
    ensures ShownAbsent("investigation", MeetingText, '_')
  {
  }

  lemma MeetingLacksLawsuitBankruptcy()
    ensures ShownAbsent("lawsuit", MeetingText, 'w') && ShownAbsent("bankruptcy", MeetingText, 'b')
  {
  }

  lemma MeetingLacksCeo()
    ensures ShownAbsent("ceo", MeetingText, 'c')
  {
  }

  lemma MeetingLacksScandal()
    ensures ShownAbsent("scandal", MeetingText, 'c')
  {
  }

  lemma MeetingHighAbsent()
    ensures forall j :: 0 <= j < |BaseHigh| ==> !Occurs(BaseHigh[j], MeetingText)
  {
    MeetingLacksDealWords();
    MeetingLacksInvestigation();
    MeetingLacksLawsuitBankruptcy();
    MeetingLacksCeo();
    MeetingLacksScandal();
    forall j | 0 <= j < |BaseHigh| ensures !Occurs(BaseHigh[j], MeetingText) {
      assert ShownAbsent(BaseHigh[j], MeetingText, MeetingHighWitness[j]) by {
        if j == 0 {} else if j == 1 {} else if j == 2 {} else if j == 3 {} else if j == 4 {} else if j == 5 {} else {}
      }
      ShownAbsentSound(BaseHigh[j], MeetingText, MeetingHighWitness[j]);
    }
  }

  lemma MeetingLacksEarnings()
    ensures ShownAbsent("earnings", MeetingText, '_')
  {
  }

  lemma MeetingLacksRevenue()
    ensures ShownAbsent("revenue", MeetingText, '_')
  {
  }

  lemma MeetingLacksInvestment()
    ensures ShownAbsent("investment", MeetingText, '_')
  {
  }

  lemma MeetingLacksPartnershipLaunch()
    ensures ShownAbsent("partnership", MeetingText, 'h') && ShownAbsent("launch", MeetingText, 'c')
  {
  }

  lemma MeetingLacksBreakthrough()
    ensures ShownAbsent("breakthrough", MeetingText, 'b')
  {
  }

  lemma MeetingMediumAbsent()
    ensures forall j :: 0 <= j < |BaseMedium| ==> !Occurs(BaseMedium[j], MeetingText)
  {
    MeetingLacksEarnings();
    MeetingLacksRevenue();
    MeetingLacksInvestment();
    MeetingLacksPartnershipLaunch();
    MeetingLacksBreakthrough();
    forall j | 0 <= j < |BaseMedium| ensures !Occurs(BaseMedium[j], MeetingText) {
      assert ShownAbsent(BaseMedium[j], MeetingText, MeetingMediumWitness[j]) by {
        if j == 0 {} else if j == 1 {} else if j == 2 {} else if j == 3 {} else if j == 4 {} else {}
      }
      ShownAbsentSound(BaseMedium[j], MeetingText, MeetingMediumWitness[j]);
    }
  }

  lemma MeetingLacksComment()
    ensures ShownAbsent("comment", MeetingText, 'c')
  {
  }

  lemma MeetingLacksStatement()
    ensures ShownAbsent("statement", MeetingText, '_')
  {
  }

  lemma MeetingLowAbsent()
    ensures forall j :: 1 <= j <= 2 ==> !Occurs(BaseLow[j], MeetingText)
  {
    MeetingLacksComment();
    MeetingLacksStatement();
    forall j | 1 <= j <= 2 ensures !Occurs(BaseLow[j], MeetingText) {
      var c := if j == 1 then 'c' else '_';
      assert ShownAbsent(BaseLow[j], MeetingText, c) by {
        if j == 1 {} else {}
      }
      ShownAbsentSound(BaseLow[j], MeetingText, c);
    }
  }

  /** A text with no high or medium keyword, in which two of the five low
      keywords are missing, scores at most 6.5. */
  lemma {:induction false} ImpactScoreOnlyLow(title: string, snippet: string)
    requires forall j :: 0 <= j < |BaseHigh| ==> !Occurs(BaseHigh[j], ScoringText(title, snippet))
    requires forall j :: 0 <= j < |BaseMedium| ==> !Occurs(BaseMedium[j], ScoringText(title, snippet))
    requires forall j :: 1 <= j <= 2 ==> !Occurs(BaseLow[j], ScoringText(title, snippet))
    ensures ImpactScore(title, snippet) <= 13
  {
    var t := ScoringText(title, snippet);
    HitsNone(BaseHigh, t);
    HitsNone(BaseMedium, t);
    assert !Occurs(BaseLow[1], t) && !Occurs(BaseLow[2], t);
    HitsAbsent(BaseLow, t, {1, 2});
  }

  /** "acquisition" occurs in the scoring text of a title that contains
      it, whatever the case of the rest of the title. */
  lemma {:induction false} AcquisitionFound(title: string, before: string, after: string)
    requires title == before + "acquisition" + after
    ensures Occurs("acquisition", ScoringText(title, ""))
  {
    var k := "acquisition";
    assert title + " " + "" == before + k + (after + " ");
    LowerAppend(before + k, after + " ");
    LowerAppend(before, k);
    assert Lower(k) == k;
    OccursWitness(k, Lower(before), Lower(after + " "));
  }

  /** The first title of the scorer's unit test: "acquisition" lifts it
      above 7.0. */
  lemma ImpactScoreHighExample()
    ensures ImpactScore("Tesla announces major acquisition deal", "") > 14
  {
    AcquisitionFound("Tesla announces major acquisition deal", "Tesla announces major ", " deal");
    HitsSome(BaseHigh, ScoringText("Tesla announces major acquisition deal", ""), 0);
  }

  /** The second title of the scorer's unit test: with only "update" and
      "meeting" among the keywords it stays below 7.0. */
  lemma ImpactScoreLowExample()
    ensures ImpactScore("Tesla provides update on meeting", "") < 14
  {
    MeetingTextIs();
    MeetingHighAbsent();
    MeetingMediumAbsent();
    MeetingLowAbsent();
    ImpactScoreOnlyLow("Tesla provides update on meeting", "");
  }

  // ---------------------------------------------------------------------
  // AdvancedNewsCrawler._calculate_enhanced_impact

  datatype Level = Critical | High | Medium | Low

  /** Half-points a matching keyword of each level adds. */
  function Increment(level: Level): int {
    match level
    case Critical => 8
    case High => 5
    case Medium => 3
    case Low => 1
  }

  /** The keyword table, in the iteration order of the source's dict. */
  const ImpactKeywords: seq<(Level, seq<string>)> := [
    (Critical, ["bankruptcy", "lawsuit", "investigation", "scandal", "fraud", "fired", "resignation"]),
    (High, ["acquisition", "merger", "ipo", "earnings beat", "breakthrough", "partnership"]),
    (Medium, ["earnings", "revenue", "quarterly", "investment", "expansion", "launch"]),
    (Low, ["update", "statement", "comment", "meeting", "interview"])
  ]

  /** Sum over the table of level increment times matching keywords. */
  function KeywordPoints(table: seq<(Level, seq<string>)>, t: string): nat
    decreases |table|
  {
    if table == [] then 0
    else
      var (level, words) := table[|table| - 1];
      KeywordPoints(table[..|table| - 1], t) + Increment(level) * Hits(words, t)
  }

  lemma {:induction false} KeywordPointsMonotone(table: seq<(Level, seq<string>)>, t: string, u: string)
    requires forall k :: Occurs(k, t) ==> Occurs(k, u)
    ensures KeywordPoints(table, t) <= KeywordPoints(table, u)
    decreases |table|
  {
    if table != [] {
      KeywordPointsMonotone(table[..|table| - 1], t, u);
      HitsMonotone(table[|table| - 1].1, t, u);
    }
  }

  /** The query asks for recent news: it contains "today" or "latest"
      (the query is not lower-cased). */
  predicate RecencyHint(query: string) {
    Occurs("today", query) || Occurs("latest", query)
  }

  /** The multi-query crawler's score: 5.0 plus 4.0 / 2.5 / 1.5 / 0.5 per
      matching critical / high / medium / low keyword, plus 1.0 for a
      recency hint in the query, minus 0.5 for a snippet shorter than 50
      characters, capped at 10.0 (with no lower clamp, 4.5 is the least). */
  function EnhancedImpactScore(title: string, snippet: string, query: string): (s: int)
    ensures 9 <= s <= MaxScore
  {
    var points := 10 + KeywordPoints(ImpactKeywords, ScoringText(title, snippet))
      + (if RecencyHint(query) then 2 else 0)
      - (if |snippet| < 50 then 1 else 0);
    Min(points, MaxScore)
  }

  method CalculateEnhancedImpact(title: string, snippet: string, query: string) returns (score: int)
    ensures score == EnhancedImpactScore(title, snippet, query)
    ensures 9 <= score <= MaxScore
  {
    var text := ScoringText(title, snippet);
    var baseScore := 10;
    for b := 0 to |ImpactKeywords|
      invariant baseScore == 10 + KeywordPoints(ImpactKeywords[..b], text)
    {
      var (level, keywords) := ImpactKeywords[b];
      assert ImpactKeywords[..b + 1][..b] == ImpactKeywords[..b];
      var before := baseScore;
      for i := 0 to |keywords|
        invariant baseScore == before + Increment(level) * Hits(keywords[..i], text)
      {
        assert keywords[..i + 1][..i] == keywords[..i];
        if Occurs(keywords[i], text) {
          if level == Critical {
            baseScore := baseScore + 8;
          } else if level == High {
            baseScore := baseScore + 5;
          } else if level == Medium {
            baseScore := baseScore + 3;
          } else if level == Low {
            baseScore := baseScore + 1;
          }
        }
      }
      assert keywords[..|keywords|] == keywords;
    }
    assert ImpactKeywords[..|ImpactKeywords|] == ImpactKeywords;
    if Occurs("today", query) || Occurs("latest", query) {
      baseScore := baseScore + 2;
    }
    if |snippet| < 50 {
      baseScore := baseScore - 1;
    }
    score := Min(baseScore, MaxScore);
  }

  /** A recency hint adds exactly 1.0, up to the cap. */
  lemma EnhancedRecencyBonus(title: string, snippet: string, hinted: string, plain: string)
    requires RecencyHint(hinted) && !RecencyHint(plain)
    ensures EnhancedImpactScore(title, snippet, hinted)
         == Min(EnhancedImpactScore(title, snippet, plain) + 2, MaxScore)
  {
  }

  /** The query is searched as written: "today" in lower case is a
      recency hint, "TODAY" is none. */
  lemma RecencyHintCaseSensitive()
    ensures RecencyHint("Tesla today")
    ensures !RecencyHint("Tesla TODAY")
  {
    assert "Tesla today" == "Tesla " + "today" + "";
    OccursWitness("today", "Tesla ", "");
    NoHintUpperCase("Tesla TODAY");
  }

  lemma NoHintUpperCase(q: string)
    requires q == "Tesla TODAY"
    ensures !Occurs("today", q) && !Occurs("latest", q)
  {
    ShownAbsentSound("today", q, 'o');
    ShownAbsentSound("latest", q, 't');
  }

  /** A longer snippet never lowers the enhanced score: keywords found
      stay found and the short-snippet penalty can only go away. */
  lemma EnhancedImpactMonotone(title: string, snippet: string, extra: string, query: string)
    ensures EnhancedImpactScore(title, snippet, query) <= EnhancedImpactScore(title, snippet + extra, query)
  {
    var t := ScoringText(title, snippet);
    var u := ScoringText(title, snippet + extra);
    assert title + " " + (snippet + extra) == (title + " " + snippet) + extra;
    LowerAppend(title + " " + snippet, extra);
    forall k | Occurs(k, t) ensures Occurs(k, u) {
      OccursAppend(k, t, Lower(extra));
    }
    KeywordPointsMonotone(ImpactKeywords, t, u);
  }

  /** The least enhanced score, 4.5, is reached exactly when no keyword
      matches, the query has no recency hint and the snippet is shorter
      than 50 characters. */
  lemma EnhancedFloor(title: string, snippet: string, query: string)
    ensures EnhancedImpactScore(title, snippet, query) == 9
        <==> KeywordPoints(ImpactKeywords, ScoringText(title, snippet)) == 0
             && !RecencyHint(query) && |snippet| < 50
  {
  }

  // ---------------------------------------------------------------------
  // AdvancedNewsCrawler._classify_content_type

  datatype ContentType = Financial | MergersAndAcquisitions | Product | Leadership | Market | General

  const FinancialWords: seq<string> := ["earnings", "quarterly", "revenue", "profit"]
  const DealWords: seq<string> := ["acquisition", "merger", "deal", "partnership"]
  const ProductWords: seq<string> := ["product", "launch", "release", "innovation"]
  const LeadershipWords: seq<string> := ["ceo", "executive", "leadership"]
  const MarketWords: seq<string> := ["stock", "shares", "market", "trading"]

  /** The categories in the order the source tests them. */
  const Categories: seq<(ContentType, seq<string>)> := [
    (Financial, FinancialWords),
    (MergersAndAcquisitions, DealWords),
    (Product, ProductWords),
    (Leadership, LeadershipWords),
    (Market, MarketWords)
  ]

  function ClassifyContentType(title: string, snippet: string): ContentType {
    var text := ScoringText(title, snippet);
    if AnyOccurs(FinancialWords, text) then Financial
    else if AnyOccurs(DealWords, text) then MergersAndAcquisitions
    else if AnyOccurs(ProductWords, text) then Product
    else if AnyOccurs(LeadershipWords, text) then Leadership
    else if AnyOccurs(MarketWords, text) then Market
    else General
  }

  /** The reference definition: the label of the first category of the
      table with a word in the text, General when there is none. */
  function FirstMatch(table: seq<(ContentType, seq<string>)>, t: string): ContentType
    decreases |table|
  {
    if table == [] then General
    else if AnyOccurs(table[0].1, t) then table[0].0
    else FirstMatch(table[1..], t)
  }

  /** The first matching category wins, and General means no category
      matched (for a table that does not itself list General). */
  lemma {:induction false} FirstMatchSpec(table: seq<(ContentType, seq<string>)>, t: string)
    requires forall i :: 0 <= i < |table| ==> table[i].0 != General
    ensures forall i :: 0 <= i < |table| && AnyOccurs(table[i].1, t)
              && (forall j :: 0 <= j < i ==> !AnyOccurs(table[j].1, t))
              ==> FirstMatch(table, t) == table[i].0
    ensures (FirstMatch(table, t) == General) <==> (forall i :: 0 <= i < |table| ==> !AnyOccurs(table[i].1, t))
    decreases |table|
  {
    if table != [] {
      var rest := table[1..];
      FirstMatchSpec(rest, t);
      forall i | 0 <= i < |table| && AnyOccurs(table[i].1, t)
          && (forall j :: 0 <= j < i ==> !AnyOccurs(table[j].1, t))
        ensures FirstMatch(table, t) == table[i].0
      {
        if i > 0 {
          assert !AnyOccurs(table[0].1, t);
          assert rest[i - 1] == table[i];
          forall j | 0 <= j < i - 1 ensures !AnyOccurs(rest[j].1, t) {
            assert rest[j] == table[j + 1];
          }
        }
      }
      if forall i :: 0 <= i < |table| ==> !AnyOccurs(table[i].1, t) {
        forall i | 0 <= i < |rest| ensures !AnyOccurs(rest[i].1, t) {
          assert rest[i] == table[i + 1];
        }
      }
      if FirstMatch(table, t) == General {
        assert !AnyOccurs(table[0].1, t);
        forall i | 0 <= i < |table| ensures !AnyOccurs(table[i].1, t) {
          if i > 0 {
            assert table[i] == rest[i - 1];
          }
        }
      }
    }
  }

  /** The source's if-chain is the table-driven first match. */
  lemma ClassifyIsFirstMatch(title: string, snippet: string)
    ensures ClassifyContentType(title, snippet) == FirstMatch(Categories, ScoringText(title, snippet))
  {
    var t := ScoringText(title, snippet);
    var c := Categories;
    assert FirstMatch(c[5..], t) == General;
    assert FirstMatch(c[4..], t) == if AnyOccurs(MarketWords, t) then Market else General;
    assert FirstMatch(c[3..], t) == if AnyOccurs(LeadershipWords, t) then Leadership else FirstMatch(c[4..], t);
    assert FirstMatch(c[2..], t) == if AnyOccurs(ProductWords, t) then Product else FirstMatch(c[3..], t);
    assert FirstMatch(c[1..], t) == if AnyOccurs(DealWords, t) then MergersAndAcquisitions else FirstMatch(c[2..], t);
  }

  // ---------------------------------------------------------------------
  // AdvancedNewsCrawler._advanced_deduplication

  /** The error the similarity ratio raises when both titles have no word. */
  datatype DedupFailure = ZeroDivisionError

  /** `result.get('title', '').lower().strip()` */
  function NormTitle(item: NewsItem): string {
    Strip(Lower(item.title))
  }

  /** `set(t.split())` */
  function WordSet(t: string): set<string> {
    ElementSet(Split(t))
  }

  function WordCount(t: string): nat {
    |Split(t)|
  }

  /** `len(set(a.split()) & set(b.split()))` (see `SharedWordsCard`). */
  function SharedWords(a: string, b: string): nat {
    DistinctShared(Split(a), Split(b))
  }

  lemma SharedWordsCard(a: string, b: string)
    ensures SharedWords(a, b) == |WordSet(a) * WordSet(b)|
  {
    DistinctSharedCard(Split(a), Split(b));
  }

  /** The ratio |words(a) & words(b)| / max(len(a.split()), len(b.split()))
      exceeds 0.7, cross-multiplied. The denominator counts words with
      repetitions, the numerator distinct shared words. */
  predicate Similar(a: string, b: string) {
    10 * SharedWords(a, b) > 7 * Max(WordCount(a), WordCount(b))
  }

  /** The ratio's denominator is zero. */
  predicate ZeroDenominator(a: string, b: string) {
    WordCount(a) == 0 && WordCount(b) == 0
  }

  function TitlesOf(kept: seq<NewsItem>): set<string> {
    set k | k in kept :: NormTitle(k)
  }

  /** One iteration of the deduplication loop with `kept` accepted so far. */
  function AdvancedStep(kept: seq<NewsItem>, x: NewsItem): Result<seq<NewsItem>, DedupFailure> {
    var t := NormTitle(x);
    if x.url in UrlsOf(kept) then Ok(kept)
    else if exists s :: s in TitlesOf(kept) && ZeroDenominator(t, s) then Err(ZeroDivisionError)
    else if exists s :: s in TitlesOf(kept) && Similar(t, s) then Ok(kept)
    else Ok(kept + [x])
  }

  /** `_advanced_deduplication` as a left fold over its input. */
  function AdvancedDedup(results: seq<NewsItem>): Result<seq<NewsItem>, DedupFailure>
    decreases |results|
  {
    if results == [] then Ok([])
    else
      match AdvancedDedup(results[..|results| - 1])
      case Err(e) => Err(e)
      case Ok(kept) => AdvancedStep(kept, results[|results| - 1])
  }

  lemma {:induction false} AdvancedDedupErrPersists(results: seq<NewsItem>, n: nat)
    requires n <= |results| && AdvancedDedup(results[..n]).Err?
    ensures AdvancedDedup(results).Err?
    decreases |results|
  {
    if n == |results| {
      assert results[..n] == results;
    } else {
      var init := results[..|results| - 1];
      assert init[..n] == results[..n];
      AdvancedDedupErrPersists(init, n);
    }
  }

  /** A title with a shared word has a word. */
  lemma SimilarNotBlank(a: string, b: string)
    requires Similar(a, b)
    ensures WordCount(a) > 0
  {
  }

  /** The step drops a record whose title resembles a kept one. */
  lemma StepDropsSimilar(kept: seq<NewsItem>, x: NewsItem, s: string)
    requires x.url !in UrlsOf(kept)
    requires s in TitlesOf(kept) && Similar(NormTitle(x), s)
    ensures AdvancedStep(kept, x) == Ok(kept)
  {
    SimilarNotBlank(NormTitle(x), s);
  }

  /** The step keeps a record resembling no kept title, and the seen sets
      grow by its URL and title. */
  lemma StepKeepsNew(kept: seq<NewsItem>, x: NewsItem)
    requires x.url !in UrlsOf(kept)
    requires forall s :: s in TitlesOf(kept) ==> !ZeroDenominator(NormTitle(x), s) && !Similar(NormTitle(x), s)
    ensures AdvancedStep(kept, x) == Ok(kept + [x])
    ensures UrlsOf(kept + [x]) == UrlsOf(kept) + {x.url}
    ensures TitlesOf(kept + [x]) == TitlesOf(kept) + {NormTitle(x)}
  {
  }

  /** How the scan of the seen titles for one record ended. */
  datatype Scan = NoneSimilar | SimilarTo(seen: string) | DividedByZero(seen: string)

  /** The inner loop of `_advanced_deduplication`: visits the seen titles
      in some order, stopping at the first similar one; the division by
      zero propagates out of it. */
  method ScanSeenTitles(title: string, seenTitles: set<string>) returns (scan: Scan)
    ensures scan.NoneSimilar? <==> forall s :: s in seenTitles ==> !ZeroDenominator(title, s) && !Similar(title, s)
    ensures scan.SimilarTo? ==> scan.seen in seenTitles && Similar(title, scan.seen)
    ensures scan.DividedByZero? ==> scan.seen in seenTitles && ZeroDenominator(title, scan.seen)
  {
    var pending := seenTitles;
    while pending != {}
      invariant pending <= seenTitles
      invariant forall s :: s in seenTitles - pending ==> !ZeroDenominator(title, s) && !Similar(title, s)
      decreases pending
    {
      var seenTitle :| seenTitle in pending;
      if Max(WordCount(title), WordCount(seenTitle)) == 0 {
        return DividedByZero(seenTitle);
      }
      if Similar(title, seenTitle) {
        return SimilarTo(seenTitle);
      }
      pending := pending - {seenTitle};
    }
    return NoneSimilar;
  }

  method AdvancedDeduplication(results: seq<NewsItem>) returns (r: Result<seq<NewsItem>, DedupFailure>)
    ensures r == AdvancedDedup(results)
  {
    if results == [] {
      return Ok([]);
    }
    var uniqueResults: seq<NewsItem> := [];
    var seenUrls: set<string> := {};
    var seenTitles: set<string> := {};
    for i := 0 to |results|
      invariant AdvancedDedup(results[..i]) == Ok(uniqueResults)
      invariant seenUrls == UrlsOf(uniqueResults)
      invariant seenTitles == TitlesOf(uniqueResults)
    {
      var result := results[i];
      assert results[..i + 1][..i] == results[..i];
      var url := result.url;
      var title := NormTitle(result);
      if url in seenUrls {
        continue;
      }
      var scan := ScanSeenTitles(title, seenTitles);
      match scan
      case DividedByZero(_) =>
        assert AdvancedStep(uniqueResults, result).Err?;
        AdvancedDedupErrPersists(results, i + 1);
        assert AdvancedDedup(results).error.ZeroDivisionError?;
        return Err(ZeroDivisionError);
      case SimilarTo(s) =>
        StepDropsSimilar(uniqueResults, result, s);
      case NoneSimilar =>
        StepKeepsNew(uniqueResults, result);
        seenUrls := seenUrls + {url};
        seenTitles := seenTitles + {title};
        uniqueResults := uniqueResults + [result];
    }
    assert results[..|results|] == results;
    r := Ok(uniqueResults);
  }

  /** Every kept record passed the step against the records kept before
      it: a run of the deduplicator over `u` would keep all of it. */
  predicate Accepted(u: seq<NewsItem>) {
    forall k :: 0 <= k < |u| ==> AdvancedStep(u[..k], u[k]) == Ok(u[..k] + [u[k]])
  }

  lemma AcceptedAppend(u: seq<NewsItem>, x: NewsItem)
    requires Accepted(u) && AdvancedStep(u, x) == Ok(u + [x])
    ensures Accepted(u + [x])
  {
    forall k | 0 <= k < |u + [x]| ensures AdvancedStep((u + [x])[..k], (u + [x])[k]) == Ok((u + [x])[..k] + [(u + [x])[k]]) {
      if k < |u| {
        assert (u + [x])[..k] == u[..k];
      } else {
        assert (u + [x])[..k] == u;
      }
    }
  }

  /** What the deduplicator keeps is an ordered selection of its input in
      which every record was accepted against the ones before it. */
  lemma {:induction false} AdvancedDedupAccepted(results: seq<NewsItem>)
    ensures AdvancedDedup(results).Ok? ==>
      IsSubseq(AdvancedDedup(results).value, results) && Accepted(AdvancedDedup(results).value)
    decreases |results|
  {
    if results != [] && AdvancedDedup(results).Ok? {
      var init := results[..|results| - 1];
      var x := results[|results| - 1];
      AdvancedDedupAccepted(init);
      var kept := AdvancedDedup(init).value;
      assert results == init + [x];
      if AdvancedStep(kept, x) == Ok(kept) {
        SubseqExtend(kept, init, x);
      } else {
        SubseqAppendBoth(kept, init, x);
        AcceptedAppend(kept, x);
      }
    }
  }

  lemma {:induction false} AcceptedDedup(u: seq<NewsItem>)
    requires Accepted(u)
    ensures AdvancedDedup(u) == Ok(u)
    decreases |u|
  {
    if u != [] {
      var init := u[..|u| - 1];
      forall k | 0 <= k < |init| ensures AdvancedStep(init[..k], init[k]) == Ok(init[..k] + [init[k]]) {
        assert init[..k] == u[..k];
      }
      AcceptedDedup(init);
      assert init + [u[|u| - 1]] == u;
    }
  }

  /** Deduplicating twice changes nothing. */
  lemma AdvancedDedupIdempotent(results: seq<NewsItem>)
    requires AdvancedDedup(results).Ok?
    ensures AdvancedDedup(AdvancedDedup(results).value) == AdvancedDedup(results)
  {
    AdvancedDedupAccepted(results);
    AcceptedDedup(AdvancedDedup(results).value);
  }

  /** No two kept records share a URL, and no kept title resembles an
      earlier kept one. */
  lemma AdvancedDedupDistinct(results: seq<NewsItem>)
    requires AdvancedDedup(results).Ok?
    ensures DistinctUrls(AdvancedDedup(results).value)
    ensures var u := AdvancedDedup(results).value;
      forall i, j :: 0 <= i < j < |u| ==> !Similar(NormTitle(u[j]), NormTitle(u[i]))
  {
    AdvancedDedupAccepted(results);
    var u := AdvancedDedup(results).value;
    forall i, j | 0 <= i < j < |u|
      ensures u[i].url != u[j].url && !Similar(NormTitle(u[j]), NormTitle(u[i]))
    {
      assert AdvancedStep(u[..j], u[j]) == Ok(u[..j] + [u[j]]);
      assert u[..j][i] == u[i];
      assert u[i].url in UrlsOf(u[..j]);
      assert NormTitle(u[i]) in TitlesOf(u[..j]);
    }
  }

  lemma AdvancedDedupSnoc(init: seq<NewsItem>, x: NewsItem)
    ensures AdvancedDedup(init + [x])
         == match AdvancedDedup(init)
            case Err(e) => Err(e)
            case Ok(kept) => AdvancedStep(kept, x)
  {
    assert (init + [x])[..|init|] == init;
  }

  /** One step keeps what was kept, and afterwards the record's URL is
      kept or its title resembles a kept title. */
  lemma StepCovers(kept: seq<NewsItem>, x: NewsItem)
    requires AdvancedStep(kept, x).Ok?
    ensures var after := AdvancedStep(kept, x).value;
      && UrlsOf(kept) <= UrlsOf(after) && TitlesOf(kept) <= TitlesOf(after)
      && (x.url in UrlsOf(after) || exists s :: s in TitlesOf(after) && Similar(NormTitle(x), s))
  {
    var after := AdvancedStep(kept, x).value;
    if after != kept {
      assert after == kept + [x];
      assert x in after;
    }
  }

  /** Every input record is represented: its URL was kept, or its title
      resembles a kept title. */
  lemma {:induction false} AdvancedDedupCovers(results: seq<NewsItem>)
    requires AdvancedDedup(results).Ok?
    ensures var u := AdvancedDedup(results).value;
      forall x :: x in results ==>
        x.url in UrlsOf(u) || exists s :: s in TitlesOf(u) && Similar(NormTitle(x), s)
    decreases |results|
  {
    if results != [] {
      var init := results[..|results| - 1];
      var y := results[|results| - 1];
      assert results == init + [y];
      AdvancedDedupSnoc(init, y);
      AdvancedDedupCovers(init);
      var kept := AdvancedDedup(init).value;
      StepCovers(kept, y);
      var u := AdvancedDedup(results).value;
      forall x | x in results
        ensures x.url in UrlsOf(u) || exists s :: s in TitlesOf(u) && Similar(NormTitle(x), s)
      {
        if x != y {
          assert x in init;
          if x.url !in UrlsOf(kept) {
            var s :| s in TitlesOf(kept) && Similar(NormTitle(x), s);
            assert s in TitlesOf(u);
          }
        }
      }
    }
  }

  /** The deduplicator keeps the first record of a non-empty input. */
  lemma {:induction false} AdvancedDedupKeepsFirst(results: seq<NewsItem>)
    requires results != [] && AdvancedDedup(results).Ok?
    ensures AdvancedDedup(results).value != [] && AdvancedDedup(results).value[0] == results[0]
    decreases |results|
  {
    if |results| > 1 {
      var init := results[..|results| - 1];
      AdvancedDedupKeepsFirst(init);
    }
  }

  /** The step fails only on a blank title when a kept record, with
      another URL, has a blank title too. */
  lemma StepErrBlank(kept: seq<NewsItem>, x: NewsItem) returns (y: NewsItem)
    requires AdvancedStep(kept, x).Err?
    ensures y in kept && y.url != x.url
    ensures WordCount(NormTitle(x)) == 0 && WordCount(NormTitle(y)) == 0
  {
    var s :| s in TitlesOf(kept) && ZeroDenominator(NormTitle(x), s);
    y :| y in kept && NormTitle(y) == s;
    assert y.url in UrlsOf(kept);
  }

  /** The deduplicator fails only when two records with different URLs
      both have titles without a word. */
  lemma {:induction false} AdvancedDedupErrNeedsBlankPair(results: seq<NewsItem>)
    requires AdvancedDedup(results).Err?
    ensures exists i, j :: (0 <= i < j < |results|
      && WordCount(NormTitle(results[i])) == 0 && WordCount(NormTitle(results[j])) == 0
      && results[i].url != results[j].url)
    decreases |results|
  {
    var n := |results| - 1;
    var init := results[..n];
    var x := results[n];
    if AdvancedDedup(init).Err? {
      AdvancedDedupErrNeedsBlankPair(init);
      var i, j :| 0 <= i < j < |init|
        && WordCount(NormTitle(init[i])) == 0 && WordCount(NormTitle(init[j])) == 0
        && init[i].url != init[j].url;
      assert init[i] == results[i] && init[j] == results[j];
    } else {
      var kept := AdvancedDedup(init).value;
      AdvancedDedupAccepted(init);
      SubseqMultiset(kept, init);
      var y := StepErrBlank(kept, x);
      var i :| 0 <= i < |init| && init[i] == y;
      assert results[i] == y;
    }
  }

  lemma AdvancedDedupSingle(x: NewsItem)
    ensures AdvancedDedup([x]) == Ok([x])
  {
    AdvancedDedupSnoc([], x);
    assert [] + [x] == [x];
  }

  lemma StepBlankPair(x: NewsItem, y: NewsItem)
    requires WordCount(NormTitle(x)) == 0 && WordCount(NormTitle(y)) == 0
    requires x.url != y.url
    ensures AdvancedStep([x], y).Err?
  {
    assert y.url !in UrlsOf([x]);
    StepFailsOnBlank([x], x, y);
  }

  lemma StepFailsOnBlank(kept: seq<NewsItem>, x: NewsItem, y: NewsItem)
    requires x in kept && y.url !in UrlsOf(kept)
    requires WordCount(NormTitle(x)) == 0 && WordCount(NormTitle(y)) == 0
    ensures AdvancedStep(kept, y).Err?
  {
    assert NormTitle(x) in TitlesOf(kept);
  }

  /** Two records with different URLs and blank titles make the
      deduplicator fail. */
  lemma BlankPairFails(x: NewsItem, y: NewsItem)
    requires WordCount(NormTitle(x)) == 0 && WordCount(NormTitle(y)) == 0
    requires x.url != y.url
    ensures AdvancedDedup([x] + [y]).Err?
  {
    AdvancedDedupSingle(x);
    AdvancedDedupSnoc([x], y);
    StepBlankPair(x, y);
  }

  lemma StepDifferentUrl(x: NewsItem, y: NewsItem)
    requires x.url != y.url
    requires WordCount(NormTitle(y)) > 0 && !Similar(NormTitle(y), NormTitle(x))
    ensures AdvancedStep([x], y) == Ok([x] + [y])
  {
    assert y.url !in UrlsOf([x]);
    assert TitlesOf([x]) == {NormTitle(x)};
  }

  /** URLs are compared as exact strings: a second record whose URL differs
      from the first in any way (letter case included) and whose title has
      a word and does not resemble the first title is kept. */
  lemma DifferentUrlsKept(x: NewsItem, y: NewsItem)
    requires x.url != y.url
    requires WordCount(NormTitle(y)) > 0 && !Similar(NormTitle(y), NormTitle(x))
    ensures AdvancedDedup([x] + [y]) == Ok([x] + [y])
  {
    AdvancedDedupSingle(x);
    AdvancedDedupSnoc([x], y);
    StepDifferentUrl(x, y);
  }

  // ---------------------------------------------------------------------
  // AdvancedNewsCrawler.enhanced_duckduckgo_scrape (its final line)

  /** The records gathered over all query variations, deduplicated, sorted
      by score from highest (stable for ties) and cut to `maxResults`
      (Python slicing: a negative bound counts from the end). */
  function RankScraped(allResults: seq<NewsItem>, maxResults: int): Result<seq<NewsItem>, DedupFailure> {
    match AdvancedDedup(allResults)
    case Err(e) => Err(e)
    case Ok(unique) => Ok(PyPrefix(SortDesc(ByScore, unique), maxResults))
  }

  /** The ranked list is sorted by score, no longer than asked for, drawn
      from the deduplicated records and free of repeated URLs, and it holds
      the top scores: a deduplicated record left out scores no higher than
      any record kept. */
  lemma RankScrapedSpec(allResults: seq<NewsItem>, maxResults: int)
    ensures RankScraped(allResults, maxResults).Err? <==> AdvancedDedup(allResults).Err?
    ensures RankScraped(allResults, maxResults).Ok? ==>
      var r := RankScraped(allResults, maxResults).value;
      var u := AdvancedDedup(allResults).value;
      && SortedDesc(ByScore, r)
      && (maxResults >= 0 ==> |r| == Min(maxResults, |u|))
      && (forall x :: x in r ==> x in u && x in allResults)
      && DistinctUrls(r)
      && forall x, y :: x in u && x !in r && y in r ==> x.impactScore <= y.impactScore
  {
    if AdvancedDedup(allResults).Ok? {
      var u := AdvancedDedup(allResults).value;
      SortDescSpec(ByScore, u);
      RankedPrefix(ByScore, u, maxResults);
      AdvancedDedupAccepted(allResults);
      SubseqMultiset(u, allResults);
      AdvancedDedupDistinct(allResults);
      var r := RankScraped(allResults, maxResults).value;
      assert r == PyPrefix(SortDesc(ByScore, u), maxResults);
      forall x, y | x in u && x !in r && y in r ensures x.impactScore <= y.impactScore {
        assert KeyLe(ByScore, x, y);
      }
    }
  }
}
