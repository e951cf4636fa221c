/** The enterprise pipeline: the filter and ranker of gathered records,
    the word-pattern fallback of the company extraction, the per-session
    snapshot map and the query flow that ties them together. */
module Enterprise {
  import opened Common
  import opened Text
  import opened News
  import opened Ranking
  import opened Crawlers
  import opened Aggregator

  // ---------------------------------------------------------------------
  // EnterpriseNewsPipeline._enterprise_filter_news: the filters

  /** How many records the enterprise ranking returns at most. */
  const EnterpriseTopCount: int := 12

  /** The time test: only a naive timestamp before the cutoff excludes a
      record. An empty or unparseable timestamp is let through, and so is
      an aware one, whose comparison with the naive cutoff raises inside
      the handler that lets the record through. */
  predicate InsideWindow(x: NewsItem, cutoff: int, parse: string -> ParsedTime) {
    !(ParseStamp(x.timestamp, parse).Naive? && ParseStamp(x.timestamp, parse).seconds < cutoff)
  }

  /** The title is long enough and does not mention an error. */
  predicate QualityTitle(title: string) {
    |title| >= 10 && !Occurs("error", Lower(title))
  }

  predicate WebUrl(url: string) {
    url != "" && StartsWith(url, "http")
  }

  /** All four filters of the first loop. */
  predicate PassesFilters(x: NewsItem, threshold: int, cutoff: int, parse: string -> ParsedTime) {
    && x.impactScore >= threshold
    && InsideWindow(x, cutoff, parse)
    && QualityTitle(x.title)
    && WebUrl(x.url)
  }

  function Passing(newsItems: seq<NewsItem>, threshold: int, cutoff: int, parse: string -> ParsedTime): seq<NewsItem> {
    Filter(newsItems, (x: NewsItem) => PassesFilters(x, threshold, cutoff, parse))
  }

  // ---------------------------------------------------------------------
  // EnterpriseNewsPipeline._enterprise_filter_news: the boosts

  const TrustedSources: seq<string> := ["reuters", "bloomberg", "cnbc", "ap", "wsj"]

  /** Some trusted name is a substring of the lower-cased source. */
  predicate TrustedSource(source: string) {
    AnyOccurs(TrustedSources, Lower(source))
  }

  /** The timestamp parses and lies less than an hour before `now` (or
      after it). The empty string does not parse. */
  predicate FreshStamp(x: NewsItem, now: int, parse: string -> ParsedTime) {
    match ParseStamp(x.timestamp, parse)
    case Invalid => false
    case Naive(t) => now - t < HourSeconds
    case Aware(t) => now - t < HourSeconds
  }

  /** +1.0 for a trusted source, then +0.5 for a fresh timestamp, each
      clamped at 10.0. */
  function BoostedScore(x: NewsItem, now: int, parse: string -> ParsedTime): int {
    var afterSource := if TrustedSource(x.source) then Min(x.impactScore + 2, MaxScore) else x.impactScore;
    if FreshStamp(x, now, parse) then Min(afterSource + 1, MaxScore) else afterSource
  }

  function Boosted(x: NewsItem, now: int, parse: string -> ParsedTime): NewsItem {
    x.(impactScore := BoostedScore(x, now, parse))
  }

  /** For a score of at most 10.0 the boosts never lower it, never lift it
      above 10.0 and add at most 1.5; the clamp is reached by a trusted
      source only from 9.0 up. */
  lemma BoostedScoreBounds(x: NewsItem, now: int, parse: string -> ParsedTime)
    requires x.impactScore <= MaxScore
    ensures x.impactScore <= BoostedScore(x, now, parse) <= MaxScore
    ensures BoostedScore(x, now, parse) <= x.impactScore + 3
    ensures TrustedSource(x.source) && x.impactScore <= MaxScore - 2 ==>
      BoostedScore(x, now, parse) >= x.impactScore + 2
    ensures !TrustedSource(x.source) && !FreshStamp(x, now, parse) ==>
      BoostedScore(x, now, parse) == x.impactScore
  {
  }

  /** Without the bound the clamp can lower a score: a record above 10.0
      from a trusted source comes out at 10.0. */
  lemma BoostClampLowers(x: NewsItem, now: int, parse: string -> ParsedTime)
    requires x.impactScore > MaxScore && TrustedSource(x.source)
    ensures BoostedScore(x, now, parse) == MaxScore < x.impactScore
  {
  }

  /** The trusted-source test is a substring test: any source whose
      lower-cased name contains "ap" counts as trusted. */
  lemma ApSourceTrusted(source: string, before: string, after: string)
    requires Lower(source) == before + "ap" + after
    ensures TrustedSource(source)
  {
    OccursWitness("ap", before, after);
    AnyOccursIff(TrustedSources, Lower(source));
    assert TrustedSources[3] == "ap";
  }

  lemma ApplePressTrusted(source: string)
    requires source == "Apple Press"
    ensures TrustedSource(source)
  {
    assert Lower(source) == "" + "ap" + "ple press";
    ApSourceTrusted(source, "", "ple press");
  }

  /** `[boost(x) for x in items]`: what the in-place boost loop leaves. */
  function BoostedAll(items: seq<NewsItem>, now: int, parse: string -> ParsedTime): (r: seq<NewsItem>)
    ensures |r| == |items|
  {
    seq(|items|, i requires 0 <= i < |items| => Boosted(items[i], now, parse))
  }

  /** The passing records, boosted, sorted by score from highest (stable),
      first twelve. */
  function EnterpriseRanked(newsItems: seq<NewsItem>, threshold: int, cutoff: int, now: int,
                            parse: string -> ParsedTime): seq<NewsItem> {
    PyPrefix(SortDesc(ByScore, BoostedAll(Passing(newsItems, threshold, cutoff, parse), now, parse)), EnterpriseTopCount)
  }

  /** One pass of the filter loop: whether the record gets appended. */
  method PassesAll(item: NewsItem, impactThreshold: int, cutoffTime: int, parse: string -> ParsedTime)
    returns (keep: bool)
    ensures keep == PassesFilters(item, impactThreshold, cutoffTime, parse)
  {
    if item.impactScore < impactThreshold {
      return false;
    }
    var timestampStr := item.timestamp;
    if timestampStr != "" {
      match parse(timestampStr)
      case Naive(timestamp) =>
        if timestamp < cutoffTime {
          return false;
        }
      case Aware(_) =>
      case Invalid =>
    }
    var title := item.title;
    if |title| < 10 || Occurs("error", Lower(title)) {
      return false;
    }
    var url := item.url;
    if url == "" || !StartsWith(url, "http") {
      return false;
    }
    return true;
  }

  /** One pass of the boost loop: the record's new score. */
  method BoostScore(item: NewsItem, now: int, parse: string -> ParsedTime) returns (score: int)
    ensures score == BoostedScore(item, now, parse)
  {
    score := item.impactScore;
    var source := Lower(item.source);
    if AnyOccurs(TrustedSources, source) {
      score := Min(score + 2, MaxScore);
    }
    match ParseStamp(item.timestamp, parse)
    case Invalid =>
    case Naive(timestamp) =>
      if now - timestamp < HourSeconds {
        score := Min(score + 1, MaxScore);
      }
    case Aware(timestamp) =>
      if now - timestamp < HourSeconds {
        score := Min(score + 1, MaxScore);
      }
  }

  method EnterpriseFilterNews(newsItems: seq<NewsItem>, impactThreshold: int, timeRange: string,
                              now: int, parse: string -> ParsedTime)
    returns (ranked: seq<NewsItem>)
    ensures var hours := TimeRangeHours(EnterpriseTimeMapping, timeRange);
      ranked == EnterpriseRanked(newsItems, impactThreshold, now - hours * HourSeconds, now, parse)
  {
    var hours := TimeRangeHours(EnterpriseTimeMapping, timeRange);
    var cutoffTime := now - hours * HourSeconds;
    var filtered: seq<NewsItem> := [];
    for i := 0 to |newsItems|
      invariant filtered == Passing(newsItems[..i], impactThreshold, cutoffTime, parse)
    {
      assert newsItems[..i + 1][..i] == newsItems[..i];
      var keep := PassesAll(newsItems[i], impactThreshold, cutoffTime, parse);
      if keep {
        filtered := filtered + [newsItems[i]];
      }
    }
    assert newsItems[..|newsItems|] == newsItems;
    ghost var passed := filtered;
    for i := 0 to |filtered|
      invariant |filtered| == |passed|
      invariant forall k :: 0 <= k < i ==> filtered[k] == Boosted(passed[k], now, parse)
      invariant forall k :: i <= k < |filtered| ==> filtered[k] == passed[k]
    {
      var score := BoostScore(filtered[i], now, parse);
      filtered := filtered[i := filtered[i].(impactScore := score)];
    }
    assert filtered == BoostedAll(passed, now, parse);
    ranked := PyPrefix(SortDesc(ByScore, filtered), EnterpriseTopCount);
  }

  /** The ranking holds at most twelve records (all passing ones when there
      are no more), sorted by score from highest; each is a passing input
      record with only its score changed, by the boosts; and they are the
      top twelve: a passing record left out has, once boosted, a score no
      higher than any record ranked. */
  lemma EnterpriseRankedSpec(newsItems: seq<NewsItem>, threshold: int, cutoff: int, now: int,
                             parse: string -> ParsedTime)
    ensures var r := EnterpriseRanked(newsItems, threshold, cutoff, now, parse);
      && |r| == Min(EnterpriseTopCount, |Passing(newsItems, threshold, cutoff, parse)|)
      && SortedDesc(ByScore, r)
      && (forall y :: y in r ==>
        exists x :: x in newsItems && PassesFilters(x, threshold, cutoff, parse) && y == Boosted(x, now, parse))
      && forall x, y ::
        x in newsItems && PassesFilters(x, threshold, cutoff, parse) && Boosted(x, now, parse) !in r && y in r
        ==> Boosted(x, now, parse).impactScore <= y.impactScore
  {
    var passing := Passing(newsItems, threshold, cutoff, parse);
    var boosted := BoostedAll(passing, now, parse);
    SortDescSpec(ByScore, boosted);
    RankedPrefix(ByScore, boosted, EnterpriseTopCount);
    var r := EnterpriseRanked(newsItems, threshold, cutoff, now, parse);
    forall y | y in r
      ensures exists x :: x in newsItems && PassesFilters(x, threshold, cutoff, parse) && y == Boosted(x, now, parse)
    {
      var i :| 0 <= i < |boosted| && boosted[i] == y;
      assert passing[i] in passing;
    }
    EnterpriseRankedTop(newsItems, threshold, cutoff, now, parse);
  }

  /** A passing record left out of the ranking scores, once boosted, no
      higher than any record ranked. */
  lemma EnterpriseRankedTop(newsItems: seq<NewsItem>, threshold: int, cutoff: int, now: int,
                            parse: string -> ParsedTime)
    ensures var r := EnterpriseRanked(newsItems, threshold, cutoff, now, parse);
      forall x, y ::
        x in newsItems && PassesFilters(x, threshold, cutoff, parse) && Boosted(x, now, parse) !in r && y in r
        ==> Boosted(x, now, parse).impactScore <= y.impactScore
  {
    var boosted := BoostedAll(Passing(newsItems, threshold, cutoff, parse), now, parse);
    var r := EnterpriseRanked(newsItems, threshold, cutoff, now, parse);
    assert r == PyPrefix(SortDesc(ByScore, boosted), EnterpriseTopCount);
    RankedPrefix(ByScore, boosted, EnterpriseTopCount);
    PassingBoosted(newsItems, threshold, cutoff, now, parse);
    forall x, y | x in newsItems && PassesFilters(x, threshold, cutoff, parse) && Boosted(x, now, parse) !in r && y in r
      ensures Boosted(x, now, parse).impactScore <= y.impactScore
    {
      assert Boosted(x, now, parse) in boosted;
      assert KeyLe(ByScore, Boosted(x, now, parse), y);
    }
  }

  /** Every passing record is among the boosted ones, boosted. */
  lemma PassingBoosted(newsItems: seq<NewsItem>, threshold: int, cutoff: int, now: int, parse: string -> ParsedTime)
    ensures forall x :: x in newsItems && PassesFilters(x, threshold, cutoff, parse) ==>
      Boosted(x, now, parse) in BoostedAll(Passing(newsItems, threshold, cutoff, parse), now, parse)
  {
    var passing := Passing(newsItems, threshold, cutoff, parse);
    var boosted := BoostedAll(passing, now, parse);
    FilterSpec(newsItems, (x: NewsItem) => PassesFilters(x, threshold, cutoff, parse));
    forall x | x in newsItems && PassesFilters(x, threshold, cutoff, parse) ensures Boosted(x, now, parse) in boosted {
      var i :| 0 <= i < |passing| && passing[i] == x;
      assert boosted[i] == Boosted(x, now, parse);
    }
  }

  /** A record that passes the filters is ranked whenever at most twelve
      records pass. */
  lemma EnterpriseRankedComplete(newsItems: seq<NewsItem>, threshold: int, cutoff: int, now: int,
                                 parse: string -> ParsedTime, x: NewsItem)
    requires x in newsItems && PassesFilters(x, threshold, cutoff, parse)
    requires |Passing(newsItems, threshold, cutoff, parse)| <= EnterpriseTopCount
    ensures Boosted(x, now, parse) in EnterpriseRanked(newsItems, threshold, cutoff, now, parse)
  {
    var passing := Passing(newsItems, threshold, cutoff, parse);
    var boosted := BoostedAll(passing, now, parse);
    FilterSpec(newsItems, (x: NewsItem) => PassesFilters(x, threshold, cutoff, parse));
    var i :| 0 <= i < |passing| && passing[i] == x;
    assert boosted[i] == Boosted(x, now, parse);
    SortDescSpec(ByScore, boosted);
    assert Boosted(x, now, parse) in multiset(SortDesc(ByScore, boosted));
  }

  /** The enterprise filter case of the pipeline tests: a Reuters record
      scored 8.0 passes with its score raised when its naive timestamp is
      inside the day before `now`, and is dropped when it is older. */
  lemma ReutersExample(x: NewsItem, now: int, parse: string -> ParsedTime)
    requires x.title == "High Impact News" && x.url == "http://example.com/high"
    requires x.source == "Reuters" && x.impactScore == 16
    requires parse(x.timestamp).Naive? && x.timestamp != ""
    ensures var cutoff := now - 24 * HourSeconds;
      var r := EnterpriseRanked([x], 10, cutoff, now, parse);
      && (parse(x.timestamp).seconds >= cutoff ==> |r| == 1 && r[0].title == x.title && r[0].impactScore >= 18)
      && (parse(x.timestamp).seconds < cutoff ==> r == [])
  {
    var cutoff := now - 24 * HourSeconds;
    HighImpactTitle(x.title);
    ReutersTrusted(x.source);
    assert StartsWith(x.url, "http");
    assert [x][..0] == [];
    if parse(x.timestamp).seconds >= cutoff {
      assert Passing([x], 10, cutoff, parse) == [x];
      assert BoostedAll([x], now, parse) == [Boosted(x, now, parse)];
      assert SortDesc(ByScore, [Boosted(x, now, parse)]) == [Boosted(x, now, parse)];
    } else {
      assert Passing([x], 10, cutoff, parse) == [];
    }
  }

  lemma HighImpactTitle(title: string)
    requires title == "High Impact News"
    ensures QualityTitle(title)
  {
    assert Lower(title) == "high impact news";
    AbsentByChar("error", Lower(title), 'o');
  }

  lemma ReutersTrusted(source: string)
    requires source == "Reuters"
    ensures TrustedSource(source)
  {
    assert Lower(source) == "" + "reuters" + "";
    OccursWitness("reuters", "", "");
  }

  // ---------------------------------------------------------------------
  // EnterpriseNewsPipeline._extract_company_from_input

  /** A named entity found by the language model: its text and its
      label (`ORG`, `PERSON`, ...). */
  datatype Entity = Entity(text: string, kind: string)

  const CompanyIndicators: seq<string> := ["stock", "shares", "ticker", "company", "corp", "inc", "ltd"]

  /** Word `i` is an indicator with a word before it. */
  predicate IndicatorAt(words: seq<string>, i: int) {
    0 < i < |words| && Lower(words[i]) in CompanyIndicators
  }

  /** The word before the first indicator at position `from` or later. */
  function IndicatorCompanyFrom(words: seq<string>, from: nat): Option<string>
    decreases |words| - from
  {
    if from >= |words| then None
    else if IndicatorAt(words, from) then Some(words[from - 1])
    else IndicatorCompanyFrom(words, from + 1)
  }

  function IndicatorCompany(words: seq<string>): Option<string> {
    IndicatorCompanyFrom(words, 0)
  }

  /** The fallback names the word before the first indicator that is not
      the first word, and nothing when there is none. */
  lemma {:induction false} IndicatorCompanyFromSpec(words: seq<string>, from: nat)
    ensures IndicatorCompanyFrom(words, from).None?
        <==> forall i :: from <= i < |words| ==> !IndicatorAt(words, i)
    ensures IndicatorCompanyFrom(words, from).Some? ==>
      exists i :: from <= i < |words| && IndicatorAt(words, i)
        && IndicatorCompanyFrom(words, from).value == words[i - 1]
        && forall j :: from <= j < i ==> !IndicatorAt(words, j)
    decreases |words| - from
  {
    if from < |words| && !IndicatorAt(words, from) {
      IndicatorCompanyFromSpec(words, from + 1);
      if IndicatorCompanyFrom(words, from).Some? {
        var i :| from + 1 <= i < |words| && IndicatorAt(words, i)
          && IndicatorCompanyFrom(words, from).value == words[i - 1]
          && forall j :: from + 1 <= j < i ==> !IndicatorAt(words, j);
        assert forall j :: from <= j < i ==> !IndicatorAt(words, j);
      }
    }
  }

  lemma IndicatorCompanySpec(words: seq<string>)
    ensures IndicatorCompany(words).None? <==> forall i :: 0 <= i < |words| ==> !IndicatorAt(words, i)
    ensures IndicatorCompany(words).Some? ==>
      exists i :: 0 < i < |words| && IndicatorAt(words, i)
        && IndicatorCompany(words).value == words[i - 1]
        && forall j :: 0 <= j < i ==> !IndicatorAt(words, j)
  {
    IndicatorCompanyFromSpec(words, 0);
  }

  /** The word-pattern loop over `user_input.split()`. */
  method CompanyFromIndicators(userInput: string) returns (company: Option<string>)
    ensures company == IndicatorCompany(Split(userInput))
  {
    var words := Split(userInput);
    for i := 0 to |words|
      invariant IndicatorCompanyFrom(words, 0) == IndicatorCompanyFrom(words, i)
    {
      if Lower(words[i]) in CompanyIndicators && i > 0 {
        return Some(words[i - 1]);
      }
    }
    return None;
  }

  /** An indicator as the first word names nothing; after a word it names
      that word. */
  lemma IndicatorExamples()
    ensures IndicatorCompany(["Stock", "news"]) == None
    ensures IndicatorCompany(["Tesla", "Stock", "news"]) == Some("Tesla")
  {
    assert Lower("Stock") == "stock";
    assert Lower("news") == "news";
    assert IndicatorCompanyFrom(["Stock", "news"], 2) == None;
  }

  const EntityLabels: seq<string> := ["ORG", "COMPANY"]

  /** The first entity labelled as an organisation or company. */
  function FirstCompanyEntity(entities: seq<Entity>): Option<string>
    decreases |entities|
  {
    if entities == [] then None
    else if entities[0].kind in EntityLabels then Some(entities[0].text)
    else FirstCompanyEntity(entities[1..])
  }

  /** `_extract_company_from_input`: `entities` is what the language model
      found, `None` when no model is loaded. */
  function ExtractCompany(userInput: string, entities: Option<seq<Entity>>): Option<string> {
    match entities
    case None => None
    case Some(ents) =>
      var found := FirstCompanyEntity(ents);
      if found.Some? then found else IndicatorCompany(Split(userInput))
  }

  /** Without a model nothing is extracted; the first entity labelled as
      a company, wherever it stands, wins over the word patterns; without
      one the word patterns decide. */
  lemma ExtractCompanySpec(userInput: string, ents: seq<Entity>)
    ensures ExtractCompany(userInput, None) == None
    ensures (forall e :: e in ents ==> e.kind !in EntityLabels) ==>
      ExtractCompany(userInput, Some(ents)) == IndicatorCompany(Split(userInput))
    ensures forall i ::
      0 <= i < |ents| && ents[i].kind in EntityLabels && (forall j :: 0 <= j < i ==> ents[j].kind !in EntityLabels)
      ==> ExtractCompany(userInput, Some(ents)) == Some(ents[i].text)
  {
    FirstCompanyEntityNone(ents);
    forall i | 0 <= i < |ents| && ents[i].kind in EntityLabels && (forall j :: 0 <= j < i ==> ents[j].kind !in EntityLabels)
      ensures ExtractCompany(userInput, Some(ents)) == Some(ents[i].text)
    {
      FirstCompanyEntityAt(ents, i);
    }
  }

  /** The entity at `i` is found when it is the first labelled one. */
  lemma {:induction false} FirstCompanyEntityAt(ents: seq<Entity>, i: nat)
    requires i < |ents| && ents[i].kind in EntityLabels
    requires forall j :: 0 <= j < i ==> ents[j].kind !in EntityLabels
    ensures FirstCompanyEntity(ents) == Some(ents[i].text)
    decreases i
  {
    if i > 0 {
      assert ents[0].kind !in EntityLabels;
      FirstCompanyEntityAt(ents[1..], i - 1);
    }
  }

  lemma {:induction false} FirstCompanyEntityNone(ents: seq<Entity>)
    ensures (forall e :: e in ents ==> e.kind !in EntityLabels) ==> FirstCompanyEntity(ents) == None
    decreases |ents|
  {
    if ents != [] {
      FirstCompanyEntityNone(ents[1..]);
      if forall e :: e in ents ==> e.kind !in EntityLabels {
        assert forall e :: e in ents[1..] ==> e in ents;
      }
    }
  }

  // ---------------------------------------------------------------------
  // EnterpriseNewsPipeline: session data and the query flow

  /** What a query leaves behind for its session. The query time and the
      processing time come from the clock and are taken as given. */
  datatype SessionSnapshot = SessionSnapshot(
    lastCompany: string,
    lastResults: seq<NewsItem>,
    queryTime: string,
    processingTime: real)

  /** How `process_enterprise_query` ends: no company to look up, no
      records for it, or the ranked records handed to the response
      generator together with how many records were gathered. */
  datatype EnterpriseOutcome =
    | NeedsCompany
    | NoNews(company: string)
    | Answered(company: string, items: seq<NewsItem>, gathered: nat)

  /** The records the two crawler tasks contribute: the scraper's ranked
      fifteen unless its deduplication raised, then the feed reader's list
      unless it raised. */
  function EnterpriseGathered(scraped: seq<NewsItem>, rss: CrawlOutcome): seq<NewsItem> {
    var fromScraper := match RankScraped(scraped, 15)
      case Ok(items) => Fetched(items)
      case Err(_) => Raised;
    Gathered([fromScraper, rss])
  }

  class EnterprisePipeline {
    var sessionData: map<string, SessionSnapshot>

    constructor()
      ensures sessionData == map[]
    {
      sessionData := map[];
    }

    /** `session_data[session_id] = snapshot`. */
    method StoreSession(sessionId: string, snapshot: SessionSnapshot)
      modifies this
      ensures sessionData == old(sessionData)[sessionId := snapshot]
    {
      sessionData := sessionData[sessionId := snapshot];
    }

    /** `get_session_data`: the snapshot, or nothing (the empty dict) for
        an unknown session. */
    method GetSessionData(sessionId: string) returns (snapshot: Option<SessionSnapshot>)
      ensures sessionId in sessionData <==> snapshot.Some?
      ensures snapshot.Some? ==> snapshot.value == sessionData[sessionId]
    {
      if sessionId in sessionData {
        return Some(sessionData[sessionId]);
      }
      return None;
    }

    /** `clear_session_data`: removes the session if present. */
    method ClearSessionData(sessionId: string)
      modifies this
      ensures sessionData == old(sessionData) - {sessionId}
    {
      if sessionId in sessionData {
        sessionData := sessionData - {sessionId};
      }
    }

    /** `process_enterprise_query` without the response text: the company
        comes from the caller or from the extraction; the crawlers' output
        is given as the scraper's raw records and the feed reader's
        outcome. Only an answered query stores a snapshot, under its
        session, holding the company and the ranked records. */
    method ProcessEnterpriseQuery(userInput: string, company: Option<string>, entities: Option<seq<Entity>>,
                                  timeRange: string, impactThreshold: int, sessionId: string,
                                  scraped: seq<NewsItem>, rss: CrawlOutcome,
                                  now: int, parse: string -> ParsedTime, queryTime: string, processingTime: real)
      returns (outcome: EnterpriseOutcome)
      modifies this
      ensures var name := if company.Some? && company.value != "" then company else ExtractCompany(userInput, entities);
        var allNews := EnterpriseGathered(scraped, rss);
        var hours := TimeRangeHours(EnterpriseTimeMapping, timeRange);
        && (name.None? || name.value == "" <==> outcome.NeedsCompany?)
        && (outcome.NoNews? <==> !outcome.NeedsCompany? && allNews == [])
        && (outcome.Answered? ==>
              && outcome.company == name.value
              && outcome.gathered == |allNews|
              && outcome.items == EnterpriseRanked(allNews, impactThreshold, now - hours * HourSeconds, now, parse))
        && (outcome.Answered? ==>
              sessionData == old(sessionData)[sessionId := SessionSnapshot(outcome.company, outcome.items, queryTime, processingTime)])
        && (!outcome.Answered? ==> sessionData == old(sessionData))
    {
      var name := company;
      if !(name.Some? && name.value != "") {
        name := ExtractCompany(userInput, entities);
      }
      if name.None? || name.value == "" {
        return NeedsCompany;
      }
      var fromScraper := match RankScraped(scraped, 15)
        case Ok(items) => Fetched(items)
        case Err(_) => Raised;
      var allNews := GatherResults([fromScraper, rss]);
      if allNews == [] {
        return NoNews(name.value);
      }
      var filteredNews := EnterpriseFilterNews(allNews, impactThreshold, timeRange, now, parse);
      StoreSession(sessionId, SessionSnapshot(name.value, filteredNews, queryTime, processingTime));
      outcome := Answered(name.value, filteredNews, |allNews|);
    }
  }
}
