/** The basic pipeline: `NewsAggregator` (merge of the crawler results,
    deduplication by URL and lower-cased title, the time filter and the
    top-ten ranking) and the outcome logic of `NewsPipeline`. */
module Aggregator {
  import opened Common
  import opened Text
  import opened News
  import opened Ranking

  // ---------------------------------------------------------------------
  // Merging the crawler results

  /** What one crawler task delivered to `asyncio.gather(...,
      return_exceptions=True)`: its list of records, or an exception. */
  datatype CrawlOutcome = Fetched(items: seq<NewsItem>) | Raised

  /** The lists of the crawlers that returned one, concatenated in order;
      exceptions contribute nothing. */
  function Gathered(outcomes: seq<CrawlOutcome>): seq<NewsItem>
    decreases |outcomes|
  {
    if outcomes == [] then []
    else
      Gathered(outcomes[..|outcomes| - 1])
      + match outcomes[|outcomes| - 1]
        case Fetched(items) => items
        case Raised => []
  }

  /** A gathered record comes from a task that returned a list holding it,
      and every such record is gathered. */
  lemma {:induction false} GatheredMembers(outcomes: seq<CrawlOutcome>, x: NewsItem)
    ensures x in Gathered(outcomes)
        <==> exists i :: 0 <= i < |outcomes| && outcomes[i].Fetched? && x in outcomes[i].items
    decreases |outcomes|
  {
    if outcomes != [] {
      var n := |outcomes| - 1;
      var init := outcomes[..n];
      GatheredMembers(init, x);
      if exists i :: 0 <= i < |outcomes| && outcomes[i].Fetched? && x in outcomes[i].items {
        var i :| 0 <= i < |outcomes| && outcomes[i].Fetched? && x in outcomes[i].items;
        if i < n {
          assert init[i] == outcomes[i];
        }
      }
      if exists i :: 0 <= i < |init| && init[i].Fetched? && x in init[i].items {
        var i :| 0 <= i < |init| && init[i].Fetched? && x in init[i].items;
        assert outcomes[i] == init[i];
      }
    }
  }

  /** The loop of `fetch_all_news` that extends `all_results` with every
      list result. */
  method GatherResults(outcomes: seq<CrawlOutcome>) returns (allResults: seq<NewsItem>)
    ensures allResults == Gathered(outcomes)
  {
    allResults := [];
    for i := 0 to |outcomes|
      invariant allResults == Gathered(outcomes[..i])
    {
      assert outcomes[..i + 1][..i] == outcomes[..i];
      match outcomes[i]
      case Fetched(items) =>
        allResults := allResults + items;
      case Raised =>
    }
    assert outcomes[..|outcomes|] == outcomes;
  }

  // ---------------------------------------------------------------------
  // NewsAggregator._deduplicate

  function SeenTitles(kept: seq<NewsItem>): set<string> {
    set k | k in kept :: Lower(k.title)
  }

  /** Neither the URL nor the lower-cased title has been seen. */
  predicate Fresh(kept: seq<NewsItem>, x: NewsItem) {
    x.url !in UrlsOf(kept) && Lower(x.title) !in SeenTitles(kept)
  }

  /** `_deduplicate` as a left fold: a record is kept when it is fresh
      with respect to the records kept before it. */
  function Deduplicated(results: seq<NewsItem>): seq<NewsItem>
    decreases |results|
  {
    if results == [] then []
    else
      var kept := Deduplicated(results[..|results| - 1]);
      var x := results[|results| - 1];
      if Fresh(kept, x) then kept + [x] else kept
  }

  method Deduplicate(results: seq<NewsItem>) returns (uniqueResults: seq<NewsItem>)
    ensures uniqueResults == Deduplicated(results)
  {
    var seenUrls: set<string> := {};
    var seenTitles: set<string> := {};
    uniqueResults := [];
    for i := 0 to |results|
      invariant uniqueResults == Deduplicated(results[..i])
      invariant seenUrls == UrlsOf(uniqueResults)
      invariant seenTitles == SeenTitles(uniqueResults)
    {
      assert results[..i + 1][..i] == results[..i];
      var result := results[i];
      var url := result.url;
      var title := Lower(result.title);
      if url !in seenUrls && title !in seenTitles {
        seenUrls := seenUrls + {url};
        seenTitles := seenTitles + {title};
        uniqueResults := uniqueResults + [result];
      }
    }
    assert results[..|results|] == results;
  }

  /** Every record of `u` was fresh with respect to the ones before it. */
  predicate AllFresh(u: seq<NewsItem>) {
    forall k :: 0 <= k < |u| ==> Fresh(u[..k], u[k])
  }

  predicate DistinctLoweredTitles(s: seq<NewsItem>) {
    forall i, j :: 0 <= i < j < |s| ==> Lower(s[i].title) != Lower(s[j].title)
  }

  lemma AllFreshAppend(u: seq<NewsItem>, x: NewsItem)
    requires AllFresh(u) && Fresh(u, x)
    ensures AllFresh(u + [x])
  {
    forall k | 0 <= k < |u + [x]| ensures Fresh((u + [x])[..k], (u + [x])[k]) {
      if k < |u| {
        assert (u + [x])[..k] == u[..k];
      } else {
        assert (u + [x])[..k] == u;
      }
    }
  }

  /** The result is an ordered selection of the input in which every
      record was fresh when it was reached. */
  lemma {:induction false} DeduplicatedAllFresh(results: seq<NewsItem>)
    ensures IsSubseq(Deduplicated(results), results)
    ensures AllFresh(Deduplicated(results))
    decreases |results|
  {
    if results == [] {
    } else {
      var init := results[..|results| - 1];
      var x := results[|results| - 1];
      assert results == init + [x];
      DeduplicatedAllFresh(init);
      var kept := Deduplicated(init);
      if Fresh(kept, x) {
        SubseqAppendBoth(kept, init, x);
        AllFreshAppend(kept, x);
      } else {
        SubseqExtend(kept, init, x);
      }
    }
  }

  /** Fresh records have pairwise different URLs and lower-cased titles. */
  lemma AllFreshDistinct(u: seq<NewsItem>)
    requires AllFresh(u)
    ensures DistinctUrls(u) && DistinctLoweredTitles(u)
  {
    forall i, j | 0 <= i < j < |u|
      ensures u[i].url != u[j].url && Lower(u[i].title) != Lower(u[j].title)
    {
      assert Fresh(u[..j], u[j]);
      assert u[..j][i] == u[i];
      assert u[i].url in UrlsOf(u[..j]);
      assert Lower(u[i].title) in SeenTitles(u[..j]);
    }
  }

  lemma {:induction false} AllFreshFixed(u: seq<NewsItem>)
    requires AllFresh(u)
    ensures Deduplicated(u) == u
    decreases |u|
  {
    if u != [] {
      var init := u[..|u| - 1];
      forall k | 0 <= k < |init| ensures Fresh(init[..k], init[k]) {
        assert init[..k] == u[..k];
      }
      AllFreshFixed(init);
      assert init + [u[|u| - 1]] == u;
    }
  }

  /** The kept records are drawn in order from the input, with pairwise
      distinct URLs and pairwise distinct lower-cased titles. */
  lemma DeduplicatedSpec(results: seq<NewsItem>)
    ensures IsSubseq(Deduplicated(results), results)
    ensures DistinctUrls(Deduplicated(results))
    ensures DistinctLoweredTitles(Deduplicated(results))
  {
    DeduplicatedAllFresh(results);
    AllFreshDistinct(Deduplicated(results));
  }

  /** Deduplicating twice changes nothing. */
  lemma DeduplicatedIdempotent(results: seq<NewsItem>)
    ensures Deduplicated(Deduplicated(results)) == Deduplicated(results)
  {
    DeduplicatedAllFresh(results);
    AllFreshFixed(Deduplicated(results));
  }

  /** What is kept from a prefix of the input starts what is kept from all
      of it. */
  lemma {:induction false} DeduplicatedPrefix(results: seq<NewsItem>, n: nat)
    requires n <= |results|
    ensures Deduplicated(results[..n]) <= Deduplicated(results)
    decreases |results|
  {
    if n == |results| {
      assert results[..n] == results;
    } else {
      var init := results[..|results| - 1];
      assert init[..n] == results[..n];
      DeduplicatedPrefix(init, n);
    }
  }

  /** Two records clash when they share a URL or a lower-cased title. */
  predicate Clash(a: NewsItem, b: NewsItem) {
    a.url == b.url || Lower(a.title) == Lower(b.title)
  }

  /** A record that is not fresh clashes with a kept one. */
  lemma StaleClashes(kept: seq<NewsItem>, x: NewsItem) returns (k: NewsItem)
    requires !Fresh(kept, x)
    ensures k in kept && Clash(k, x)
  {
    if x.url in UrlsOf(kept) {
      k :| k in kept && k.url == x.url;
    } else {
      k :| k in kept && Lower(k.title) == Lower(x.title);
    }
  }

  /** A record fresh when reached is kept. */
  lemma FreshKept(results: seq<NewsItem>, i: nat)
    requires i < |results| && Fresh(Deduplicated(results[..i]), results[i])
    ensures results[i] in Deduplicated(results)
  {
    var upto := results[..i + 1];
    assert upto[..|upto| - 1] == results[..i] && upto[|upto| - 1] == results[i];
    var d := Deduplicated(upto);
    assert d == Deduplicated(results[..i]) + [results[i]];
    DeduplicatedPrefix(results, i + 1);
    assert d[|d| - 1] == Deduplicated(results)[|d| - 1];
  }

  /** A record kept from the first `i` inputs sits among them and stays
      kept. */
  lemma KeptEarlier(results: seq<NewsItem>, i: nat, k: NewsItem) returns (j: nat)
    requires i <= |results| && k in Deduplicated(results[..i])
    ensures j < i && results[j] == k && k in Deduplicated(results)
  {
    DeduplicatedPrefix(results, i);
    DeduplicatedAllFresh(results[..i]);
    SubseqMultiset(Deduplicated(results[..i]), results[..i]);
    j :| 0 <= j < i && results[..i][j] == k;
  }

  /** First seen wins: a dropped record clashes with an earlier record of
      the input that was kept. */
  lemma DeduplicatedFirstSeenWins(results: seq<NewsItem>, i: nat)
    requires i < |results| && results[i] !in Deduplicated(results)
    ensures exists j :: 0 <= j < i && results[j] in Deduplicated(results) && Clash(results[j], results[i])
  {
    var kept := Deduplicated(results[..i]);
    if Fresh(kept, results[i]) {
      FreshKept(results, i);
      assert false;
    }
    var k := StaleClashes(kept, results[i]);
    var j := KeptEarlier(results, i, k);
  }

  /** The first record of a non-empty input is kept. */
  lemma DeduplicatedKeepsFirst(results: seq<NewsItem>)
    requires results != []
    ensures Deduplicated(results) != [] && Deduplicated(results)[0] == results[0]
  {
    DeduplicatedPrefix(results, 1);
    assert Deduplicated(results[..1]) == [results[0]] by {
      assert results[..1][..0] == [];
    }
  }

  // ---------------------------------------------------------------------
  // NewsAggregator._filter_by_time

  /** Whether `_filter_by_time` keeps a record: one without a timestamp is
      kept; an unparseable one is taken as `now`; a naive one is kept when
      not before the cutoff; comparing an aware one with the naive cutoff
      raises, and the outer handler keeps the record. */
  predicate KeptByTime(x: NewsItem, cutoff: int, now: int, parse: string -> ParsedTime) {
    x.timestamp == ""
    || match parse(x.timestamp)
       case Invalid => now >= cutoff
       case Naive(t) => t >= cutoff
       case Aware(_) => true
  }

  function TimeFiltered(results: seq<NewsItem>, cutoff: int, now: int, parse: string -> ParsedTime): seq<NewsItem> {
    Filter(results, (x: NewsItem) => KeptByTime(x, cutoff, now, parse))
  }

  method FilterByTime(results: seq<NewsItem>, cutoff: int, now: int, parse: string -> ParsedTime)
    returns (filtered: seq<NewsItem>)
    ensures filtered == TimeFiltered(results, cutoff, now, parse)
  {
    filtered := [];
    for i := 0 to |results|
      invariant filtered == TimeFiltered(results[..i], cutoff, now, parse)
    {
      assert results[..i + 1][..i] == results[..i];
      var result := results[i];
      var timestampStr := result.timestamp;
      if timestampStr != "" {
        var parsed := parse(timestampStr);
        match parsed
        case Aware(_) =>
          filtered := filtered + [result];
        case Naive(t) =>
          if t >= cutoff {
            filtered := filtered + [result];
          }
        case Invalid =>
          var timestamp := now;
          if timestamp >= cutoff {
            filtered := filtered + [result];
          }
      } else {
        filtered := filtered + [result];
      }
    }
    assert results[..|results|] == results;
  }

  /** The filter keeps the input order and keeps exactly the records that
      pass the time test. */
  lemma TimeFilteredSpec(results: seq<NewsItem>, cutoff: int, now: int, parse: string -> ParsedTime)
    ensures IsSubseq(TimeFiltered(results, cutoff, now, parse), results)
    ensures forall x :: x in results ==>
      (x in TimeFiltered(results, cutoff, now, parse) <==> KeptByTime(x, cutoff, now, parse))
  {
    FilterSpec(results, (x: NewsItem) => KeptByTime(x, cutoff, now, parse));
  }

  /** A record stamped exactly at the cutoff is kept. */
  lemma AtCutoffKept(x: NewsItem, cutoff: int, now: int, parse: string -> ParsedTime)
    requires parse(x.timestamp) == Naive(cutoff)
    ensures TimeFiltered([x], cutoff, now, parse) == [x]
  {
    assert [x][..0] == [];
  }

  // ---------------------------------------------------------------------
  // NewsAggregator.fetch_all_news

  /** How many records `fetch_all_news` returns at most. */
  const TopCount: int := 10

  /** The gathered records deduplicated, filtered to the window, sorted by
      (impact score, raw timestamp) from highest, first ten. */
  function TopNews(allResults: seq<NewsItem>, cutoff: int, now: int, parse: string -> ParsedTime): seq<NewsItem> {
    PyPrefix(SortDesc(ByScoreThenTimestamp, TimeFiltered(Deduplicated(allResults), cutoff, now, parse)), TopCount)
  }

  method FetchAllNews(outcomes: seq<CrawlOutcome>, timeRangeHours: int, now: int, parse: string -> ParsedTime)
    returns (top: seq<NewsItem>)
    ensures top == TopNews(Gathered(outcomes), now - timeRangeHours * HourSeconds, now, parse)
  {
    var allResults := GatherResults(outcomes);
    var uniqueResults := Deduplicate(allResults);
    var cutoffTime := now - timeRangeHours * HourSeconds;
    var filteredResults := FilterByTime(uniqueResults, cutoffTime, now, parse);
    top := PyPrefix(SortDesc(ByScoreThenTimestamp, filteredResults), TopCount);
  }

  /** At most ten records, as many as passed the filters up to ten, sorted
      by (score, timestamp) from highest, each from the input and inside
      the window, with distinct URLs; and they are the top ten: a unique
      record inside the window that is left out ranks no higher than any
      record returned. */
  lemma TopNewsSpec(allResults: seq<NewsItem>, cutoff: int, now: int, parse: string -> ParsedTime)
    ensures var r := TopNews(allResults, cutoff, now, parse);
      && |r| == Min(TopCount, |TimeFiltered(Deduplicated(allResults), cutoff, now, parse)|)
      && SortedDesc(ByScoreThenTimestamp, r)
      && (forall x :: x in r ==> x in allResults && KeptByTime(x, cutoff, now, parse))
      && DistinctUrls(r)
      && forall x, y ::
        x in Deduplicated(allResults) && KeptByTime(x, cutoff, now, parse) && x !in r && y in r
        ==> KeyLe(ByScoreThenTimestamp, x, y)
  {
    var unique := Deduplicated(allResults);
    var filtered := TimeFiltered(unique, cutoff, now, parse);
    SortDescSpec(ByScoreThenTimestamp, filtered);
    RankedPrefix(ByScoreThenTimestamp, filtered, TopCount);
    DeduplicatedSpec(allResults);
    SubseqMultiset(unique, allResults);
    TimeFilteredSpec(unique, cutoff, now, parse);
    SubseqDistinctUrls(filtered, unique);
  }

  // ---------------------------------------------------------------------
  // NewsPipeline.process_news_query

  const BasicTimeMapping: map<string, int> := map["1 hour" := 1, "6 hours" := 6, "24 hours" := 24]

  const EnterpriseTimeMapping: map<string, int> := BasicTimeMapping["1 week" := 168]

  /** `time_mapping.get(time_range, 24)`. */
  function TimeRangeHours(mapping: map<string, int>, timeRange: string): int {
    if timeRange in mapping then mapping[timeRange] else 24
  }

  /** The basic mapping knows three ranges and falls back to a day, also
      for "1 week"; the enterprise mapping differs from it only there. */
  lemma TimeRangeHoursSpec(timeRange: string)
    ensures TimeRangeHours(BasicTimeMapping, "1 hour") == 1
    ensures TimeRangeHours(BasicTimeMapping, "6 hours") == 6
    ensures TimeRangeHours(BasicTimeMapping, "24 hours") == 24
    ensures TimeRangeHours(BasicTimeMapping, timeRange) in {1, 6, 24}
    ensures TimeRangeHours(BasicTimeMapping, "1 week") == 24
    ensures TimeRangeHours(EnterpriseTimeMapping, "1 week") == 168
    ensures timeRange != "1 week" ==>
      TimeRangeHours(EnterpriseTimeMapping, timeRange) == TimeRangeHours(BasicTimeMapping, timeRange)
  {
  }

  /** The three ways `process_news_query` ends without an exception: no
      news, news of which none meets the threshold (with how many were
      found), or a summary of the records that do. */
  datatype QueryOutcome = NoRecentNews | NoneMeetThreshold(found: nat) | Summarize(items: seq<NewsItem>)

  function Relevant(newsItems: seq<NewsItem>, threshold: int): seq<NewsItem> {
    Filter(newsItems, (x: NewsItem) => x.impactScore >= threshold)
  }

  function NewsQueryOutcome(newsItems: seq<NewsItem>, threshold: int): QueryOutcome {
    if newsItems == [] then NoRecentNews
    else if Relevant(newsItems, threshold) == [] then NoneMeetThreshold(|newsItems|)
    else Summarize(Relevant(newsItems, threshold))
  }

  method ProcessNewsQuery(outcomes: seq<CrawlOutcome>, timeRange: string, impactThreshold: int,
                          now: int, parse: string -> ParsedTime)
    returns (outcome: QueryOutcome)
    ensures var hours := TimeRangeHours(BasicTimeMapping, timeRange);
      outcome == NewsQueryOutcome(TopNews(Gathered(outcomes), now - hours * HourSeconds, now, parse), impactThreshold)
  {
    var hours := TimeRangeHours(BasicTimeMapping, timeRange);
    var newsItems := FetchAllNews(outcomes, hours, now, parse);
    if newsItems == [] {
      return NoRecentNews;
    }
    var filteredNews := Relevant(newsItems, impactThreshold);
    if filteredNews == [] {
      return NoneMeetThreshold(|newsItems|);
    }
    outcome := Summarize(filteredNews);
  }

  /** No news gives the first outcome; news all below the threshold the
      second, reporting how many; otherwise the summary receives, in
      order, exactly the records meeting the threshold. */
  lemma NewsQueryOutcomeSpec(newsItems: seq<NewsItem>, threshold: int)
    ensures NewsQueryOutcome(newsItems, threshold).NoRecentNews? <==> newsItems == []
    ensures NewsQueryOutcome(newsItems, threshold).NoneMeetThreshold?
        <==> newsItems != [] && forall x :: x in newsItems ==> x.impactScore < threshold
    ensures NewsQueryOutcome(newsItems, threshold).NoneMeetThreshold? ==>
      NewsQueryOutcome(newsItems, threshold).found == |newsItems|
    ensures NewsQueryOutcome(newsItems, threshold).Summarize? ==>
      var items := NewsQueryOutcome(newsItems, threshold).items;
      && IsSubseq(items, newsItems)
      && forall x :: x in newsItems ==> (x in items <==> x.impactScore >= threshold)
  {
    FilterSpec(newsItems, (x: NewsItem) => x.impactScore >= threshold);
  }

  /** The low-impact case of the pipeline tests: one record scored 3.0
      against the threshold 5.0. */
  lemma LowImpactExample(x: NewsItem)
    requires x.impactScore == 6
    ensures NewsQueryOutcome([x], 10) == NoneMeetThreshold(1)
  {
    assert [x][..0] == [];
  }
}
