/** The record that flows through the news core. In the source it is a
    dictionary built by the crawlers; here every key the core reads is a
    field, and a key the source reads with `.get(key, '')` is the empty
    string when absent. */
module News {

  /** What the timestamp parser (`datetime.fromisoformat` after replacing a
      trailing `Z` by `+00:00`) makes of a timestamp string. The parser is
      not modelled; the operations that need it take it as a parameter.
      `Naive` and `Aware` carry the instant in seconds; the distinction
      matters because comparing an aware time with the naive cutoff raises. */
  datatype ParsedTime = Invalid | Naive(seconds: int) | Aware(seconds: int)

  /** Impact scores are in half-points: 5.0 is 10 and 10.0 is 20. */
  datatype NewsItem = NewsItem(
    title: string,
    url: string,
    source: string,
    snippet: string,
    searchQuery: string,
    timestamp: string,
    impactScore: int)

  /** The URLs of the given records. */
  function UrlsOf(items: seq<NewsItem>): set<string> {
    set k | k in items :: k.url
  }

  const HourSeconds: int := 3600

  /** The highest impact score, 10.0, in half-points. */
  const MaxScore: int := 20

  /** `datetime.fromisoformat(...)` as the freshness boost calls it: the
      empty string is rejected before the parser sees it. */
  function ParseStamp(raw: string, parse: string -> ParsedTime): (p: ParsedTime)
    ensures raw == "" ==> p == Invalid
  {
    if raw == "" then Invalid else parse(raw)
  }
}
