/** The string helpers of the utilities file: truncation, file-name
    sanitising, company-name validation, the high-impact keyword test and
    the banding of impact scores. */
module Utils {
  import opened Common
  import opened Text
  import Crawlers

  // ---------------------------------------------------------------------
  // truncate_text

  /** `text[:max_length-3] + "..."` unless the text already fits. */
  function TruncateText(text: string, maxLength: int): string {
    if |text| <= maxLength then text else PyPrefix(text, maxLength - 3) + "..."
  }

  /** A text that fits comes back unchanged; a longer one is cut to a
      prefix followed by "...", exactly `maxLength` long when `maxLength`
      is at least 3. */
  lemma TruncateTextSpec(text: string, maxLength: int)
    ensures |text| <= maxLength ==> TruncateText(text, maxLength) == text
    ensures |text| > maxLength ==>
      var r := TruncateText(text, maxLength);
      && |r| >= 3 && r[|r| - 3..] == "..."
      && r[..|r| - 3] == text[..|r| - 3]
    ensures |text| > maxLength >= 3 ==>
      TruncateText(text, maxLength) == text[..maxLength - 3] + "..."
      && |TruncateText(text, maxLength)| == maxLength
  {
    if |text| > maxLength {
      var p := PyPrefix(text, maxLength - 3);
      assert (p + "...")[..|p|] == p;
      assert (p + "...")[|p|..] == "...";
    }
  }

  /** Below 3 the result is longer than asked for: the cut counts from the
      end of the text and the "..." is added anyway. */
  lemma TruncateTextShortLimit(text: string, maxLength: int)
    requires maxLength < 3 && |text| > maxLength
    ensures |TruncateText(text, maxLength)| > maxLength
  {
  }

  // ---------------------------------------------------------------------
  // sanitize_filename

  const InvalidChars: string := "<>:\"/\\|?*"

  /** The longest name kept. */
  const MaxFilenameLength: int := 255

  function SafeChar(c: char): char {
    if c in InvalidChars then '_' else c
  }

  /** Position by position: every invalid character becomes `_`, the rest
      stay; then the first 255 characters. */
  function SanitizedFilename(filename: string): (r: string) {
    var replaced := seq(|filename|, i requires 0 <= i < |filename| => SafeChar(filename[i]));
    if |replaced| > MaxFilenameLength then replaced[..MaxFilenameLength] else replaced
  }

  /** `s.replace(c, d)` for single characters. */
  function ReplaceChar(s: string, c: char, d: char): (r: string)
    ensures |r| == |s|
  {
    seq(|s|, i requires 0 <= i < |s| => if s[i] == c then d else s[i])
  }

  method SanitizeFilename(name: string) returns (filename: string)
    ensures filename == SanitizedFilename(name)
  {
    filename := name;
    for k := 0 to |InvalidChars|
      invariant |filename| == |name|
      invariant forall i :: 0 <= i < |name| ==>
        filename[i] == if name[i] in InvalidChars[..k] then '_' else name[i]
    {
      assert forall c :: c in InvalidChars[..k + 1] <==> c in InvalidChars[..k] || c == InvalidChars[k] by {
        assert InvalidChars[..k + 1] == InvalidChars[..k] + [InvalidChars[k]];
      }
      filename := ReplaceChar(filename, InvalidChars[k], '_');
    }
    assert InvalidChars[..|InvalidChars|] == InvalidChars;
    if |filename| > MaxFilenameLength {
      filename := filename[..MaxFilenameLength];
    }
  }

  /** The sanitised name is the input's first 255 characters, each mapped
      on its own; it holds no invalid character. */
  lemma SanitizedFilenameSpec(filename: string)
    ensures |SanitizedFilename(filename)| == Min(|filename|, MaxFilenameLength)
    ensures forall i :: 0 <= i < |SanitizedFilename(filename)| ==>
      SanitizedFilename(filename)[i] == SafeChar(filename[i])
    ensures forall i :: 0 <= i < |SanitizedFilename(filename)| ==>
      SanitizedFilename(filename)[i] !in InvalidChars
    ensures forall i :: 0 <= i < |SanitizedFilename(filename)| && filename[i] !in InvalidChars ==>
      SanitizedFilename(filename)[i] == filename[i]
  {
    assert '_' !in InvalidChars;
  }

  /** Sanitising a sanitised name changes nothing. */
  lemma SanitizedFilenameIdempotent(filename: string)
    ensures SanitizedFilename(SanitizedFilename(filename)) == SanitizedFilename(filename)
  {
    var once := SanitizedFilename(filename);
    SanitizedFilenameSpec(filename);
    SanitizedFilenameSpec(once);
  }

  // ---------------------------------------------------------------------
  // validate_company_name

  const InvalidPatterns: seq<string> :=
    ["http://", "https://", "www.", ".com", ".org", ".net", "test", "example", "demo", "sample"]

  /** Non-empty, at least two characters once stripped, and none of the
      patterns in the lower-cased name. */
  predicate ValidCompanyName(company: string) {
    company != "" && |Strip(company)| >= 2 && !AnyOccurs(InvalidPatterns, Lower(company))
  }

  lemma ValidCompanyNameIff(company: string)
    ensures ValidCompanyName(company) <==>
      && company != ""
      && |Strip(company)| >= 2
      && forall j :: 0 <= j < |InvalidPatterns| ==> !Occurs(InvalidPatterns[j], Lower(company))
  {
    AnyOccursIff(InvalidPatterns, Lower(company));
  }

  /** A name with a listed pattern anywhere, in any letter case, is
      rejected. */
  lemma PatternRejects(company: string, j: nat, before: string, after: string)
    requires j < |InvalidPatterns| && Lower(company) == before + InvalidPatterns[j] + after
    ensures !ValidCompanyName(company)
  {
    OccursWitness(InvalidPatterns[j], before, after);
    ValidCompanyNameIff(company);
  }

  /** Each pattern has a character that "apple" lacks. */
  lemma ApplePatternsAbsent(t: string)
    requires t == "apple"
    ensures forall j :: 0 <= j < |InvalidPatterns| ==> !Occurs(InvalidPatterns[j], t)
  {
    forall j | 0 <= j < |InvalidPatterns| ensures !Occurs(InvalidPatterns[j], t) {
      var c := if j <= 2 then InvalidPatterns[j][0]
        else if j <= 5 then '.'
        else if j == 6 then 't'
        else if j == 7 then 'x'
        else if j == 8 then 'd'
        else 's';
      AbsentByChar(InvalidPatterns[j], t, c);
    }
  }

  lemma AppleIsValid(apple: string)
    requires apple == "Apple"
    ensures ValidCompanyName(apple)
  {
    assert Lower(apple) == "apple";
    ApplePatternsAbsent(Lower(apple));
    assert StripLeft(apple) == apple;
    assert StripRight(apple) == apple;
    ValidCompanyNameIff(apple);
  }

  /** The empty name and a single letter padded with blanks are rejected. */
  lemma TooShortInvalid(single: string)
    requires single == " A "
    ensures !ValidCompanyName("")
    ensures !ValidCompanyName(single)
  {
    assert StripLeft(single) == "A ";
    assert StripRight("A ") == "A";
  }

  lemma WebAddressInvalid(url: string)
    requires url == "www.tesla.com"
    ensures !ValidCompanyName(url)
  {
    assert Lower(url) == "" + InvalidPatterns[2] + "tesla.com";
    PatternRejects(url, 2, "", "tesla.com");
  }

  // ---------------------------------------------------------------------
  // is_high_impact_news

  const HighImpactKeywords: seq<string> := [
    "breaking", "exclusive", "urgent", "critical", "major",
    "acquisition", "merger", "bankruptcy", "lawsuit", "scandal",
    "ceo", "resignation", "fired", "investigation"]

  predicate IsHighImpactNews(title: string, snippet: string) {
    AnyOccurs(HighImpactKeywords, Lower(title + " " + snippet))
  }

  lemma IsHighImpactNewsIff(title: string, snippet: string)
    ensures IsHighImpactNews(title, snippet) <==>
      exists j :: 0 <= j < |HighImpactKeywords| && Occurs(HighImpactKeywords[j], Lower(title + " " + snippet))
  {
    AnyOccursIff(HighImpactKeywords, Lower(title + " " + snippet));
  }

  /** Every high-impact keyword of the base scorer is on this list, so a
      record the base scorer credits with one is high-impact news. */
  lemma ScorerHighKeywordIsHighImpact(title: string, snippet: string, i: nat)
    requires i < |Crawlers.BaseHigh| && Occurs(Crawlers.BaseHigh[i], Crawlers.ScoringText(title, snippet))
    ensures IsHighImpactNews(title, snippet)
  {
    var j := [5, 6, 8, 7, 10, 9, 13][i];
    assert Crawlers.BaseHigh[i] == HighImpactKeywords[j];
    IsHighImpactNewsIff(title, snippet);
  }

  // ---------------------------------------------------------------------
  // format_impact_score (the band only)

  datatype Band = Critical | High | Medium | Low

  /** Bands for 8.0, 6.0 and 4.0 and up, in half-points. */
  function ImpactBand(score: int): Band {
    if score >= 16 then Critical
    else if score >= 12 then High
    else if score >= 8 then Medium
    else Low
  }

  function BandRank(b: Band): nat {
    match b
    case Low => 0
    case Medium => 1
    case High => 2
    case Critical => 3
  }

  /** The bands cut the score line into four intervals, and a higher score
      never falls into a lower band. */
  lemma ImpactBandSpec(score: int, other: int)
    ensures ImpactBand(score) == Critical <==> score >= 16
    ensures ImpactBand(score) == High <==> 12 <= score < 16
    ensures ImpactBand(score) == Medium <==> 8 <= score < 12
    ensures ImpactBand(score) == Low <==> score < 8
    ensures score <= other ==> BandRank(ImpactBand(score)) <= BandRank(ImpactBand(other))
  {
  }
}
