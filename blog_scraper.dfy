/** The month archive enumeration of the blog scraper (`generateMonthUrls`):
    one archive URL per month from the configured start month to the
    configured end month, both inclusive. Fetching and parsing the archive
    pages is not part of this model. */
module BlogScraper {
  import opened Text
  import opened DatePath
  import PromptAssembly

  /** A calendar month; `month` counts from 1. */
  datatype YearMonth = YearMonth(year: nat, month: nat)

  datatype ScraperConfig = ScraperConfig(start: YearMonth, end: YearMonth, baseUrl: string)

  const BaseUrl := "https://trusttheproce55.blogspot.com"

  /** The configuration the scraper ships with: March 2020 to September 2024. */
  const ShippedConfig := ScraperConfig(YearMonth(2020, 3), YearMonth(2024, 9), BaseUrl)

  predicate ValidMonth(d: YearMonth) {
    1 <= d.month <= 12
  }

  /** Months since January of year 0. */
  function Index(d: YearMonth): nat
    requires ValidMonth(d)
  {
    d.year * 12 + d.month - 1
  }

  function MonthOfIndex(i: nat): (d: YearMonth)
    ensures ValidMonth(d) && Index(d) == i
  {
    YearMonth(i / 12, i % 12 + 1)
  }

  /** The loop's step: the month after `d`, wrapping from December to
      January of the next year. */
  function Next(d: YearMonth): YearMonth {
    if d.month + 1 > 12 then YearMonth(d.year + 1, 1) else YearMonth(d.year, d.month + 1)
  }

  /** The loop condition: `d` is not after `end`. */
  predicate NotPast(d: YearMonth, end: YearMonth) {
    d.year < end.year || (d.year == end.year && d.month <= end.month)
  }

  /** `${BASE_URL}/${year}/${month padded to two digits}/`. */
  function MonthUrl(baseUrl: string, d: YearMonth): string {
    baseUrl + "/" + NatToString(d.year) + "/" + PadTwo(d.month) + "/"
  }

  /** The months the scraper visits, in order. */
  function Months(c: ScraperConfig): (months: seq<YearMonth>)
    requires ValidMonth(c.start) && ValidMonth(c.end)
    ensures |months| == if NotPast(c.start, c.end)
                        then (c.end.year - c.start.year) * 12 + c.end.month - c.start.month + 1
                        else 0
    ensures forall k :: 0 <= k < |months| ==> ValidMonth(months[k])
  {
    var count := if Index(c.start) <= Index(c.end) then Index(c.end) - Index(c.start) + 1 else 0;
    var months := seq(count, k requires 0 <= k < count => MonthOfIndex(Index(c.start) + k));
    assert forall k :: 0 <= k < count ==> months[k] == MonthOfIndex(Index(c.start) + k);
    months
  }

  function MonthUrls(c: ScraperConfig): (urls: seq<string>)
    requires ValidMonth(c.start) && ValidMonth(c.end)
    ensures |urls| == |Months(c)|
  {
    var months := Months(c);
    seq(|months|, k requires 0 <= k < |months| => MonthUrl(c.baseUrl, months[k]))
  }

  /** One step of the loop moves to the next month index. */
  lemma NextIsFollowingMonth(i: nat)
    ensures Next(MonthOfIndex(i)) == MonthOfIndex(i + 1)
  {
    if i % 12 == 11 {
      assert (i + 1) / 12 == i / 12 + 1 && (i + 1) % 12 == 0;
    } else {
      assert (i + 1) / 12 == i / 12 && (i + 1) % 12 == i % 12 + 1;
    }
  }

  /** The months start at the start month, end at the end month, and each
      one is the loop's step from the one before: exactly the months from
      start to end inclusive, in chronological order. */
  lemma MonthsChronological(c: ScraperConfig)
    requires ValidMonth(c.start) && ValidMonth(c.end)
    ensures var months := Months(c);
            (months != [] <==> NotPast(c.start, c.end)) &&
            (months != [] ==> months[0] == c.start && months[|months| - 1] == c.end) &&
            forall k :: 0 <= k < |months| - 1 ==> months[k + 1] == Next(months[k])
  {
    MonthsSteps(c);
    MonthsEnds(c);
  }

  lemma MonthsSteps(c: ScraperConfig)
    requires ValidMonth(c.start) && ValidMonth(c.end)
    ensures var months := Months(c);
            forall k :: 0 <= k < |months| - 1 ==> months[k + 1] == Next(months[k])
  {
    var months := Months(c);
    forall k | 0 <= k < |months| - 1
      ensures months[k + 1] == Next(months[k])
    {
      MonthAt(c, k);
      MonthAt(c, k + 1);
      NextIsFollowingMonth(Index(c.start) + k);
    }
  }

  lemma MonthAt(c: ScraperConfig, k: nat)
    requires ValidMonth(c.start) && ValidMonth(c.end) && k < |Months(c)|
    ensures Months(c)[k] == MonthOfIndex(Index(c.start) + k)
  {
  }

  lemma MonthsEnds(c: ScraperConfig)
    requires ValidMonth(c.start) && ValidMonth(c.end)
    ensures var months := Months(c);
            (months != [] <==> NotPast(c.start, c.end)) &&
            (months != [] ==> months[0] == c.start && months[|months| - 1] == c.end)
  {
    var months := Months(c);
    if months != [] {
      assert months[0] == MonthOfIndex(Index(c.start));
      IndexDetermines(months[0], c.start);
      assert months[|months| - 1] == MonthOfIndex(Index(c.end));
      IndexDetermines(months[|months| - 1], c.end);
    }
  }

  /** The loop's step moves one month index on. */
  lemma NextIndex(d: YearMonth)
    requires ValidMonth(d)
    ensures ValidMonth(Next(d)) && Index(Next(d)) == Index(d) + 1
  {
  }

  /** The loop condition compares month indices. */
  lemma NotPastIff(d: YearMonth, e: YearMonth)
    requires ValidMonth(d) && ValidMonth(e)
    ensures NotPast(d, e) <==> Index(d) <= Index(e)
  {
  }

  lemma IndexDetermines(d: YearMonth, e: YearMonth)
    requires ValidMonth(d) && ValidMonth(e) && Index(d) == Index(e)
    ensures d == e
  {
  }

  /** `generateMonthUrls`. */
  method GenerateMonthUrls(config: ScraperConfig) returns (urls: seq<string>)
    requires ValidMonth(config.start) && ValidMonth(config.end)
    ensures urls == MonthUrls(config)
  {
    urls := [];
    var currentYear := config.start.year;
    var currentMonth := config.start.month;
    var endYear := config.end.year;
    var endMonth := config.end.month;
    ghost var first := Index(config.start);
    ghost var count := |Months(config)|;
    NotPastIff(config.start, config.end);
    while currentYear < endYear || (currentYear == endYear && currentMonth <= endMonth)
      invariant 1 <= currentMonth <= 12 && Index(YearMonth(currentYear, currentMonth)) == first + |urls|
      invariant |urls| <= count
      invariant forall k :: 0 <= k < |urls| ==> urls[k] == MonthUrl(config.baseUrl, MonthOfIndex(first + k))
      decreases Index(config.end) + 1 - Index(YearMonth(currentYear, currentMonth))
    {
      ghost var here := YearMonth(currentYear, currentMonth);
      NotPastIff(here, config.end);
      var monthStr := PadTwo(currentMonth);
      var url := config.baseUrl + "/" + NatToString(currentYear) + "/" + monthStr + "/";
      IndexDetermines(here, MonthOfIndex(first + |urls|));
      AppendMonthUrl(config.baseUrl, first, urls, url);
      NextIndex(here);
      urls := urls + [url];
      currentMonth := currentMonth + 1;
      if currentMonth > 12 {
        currentMonth := 1;
        currentYear := currentYear + 1;
      }
      assert YearMonth(currentYear, currentMonth) == Next(here);
    }
    NotPastIff(YearMonth(currentYear, currentMonth), config.end);
    MonthUrlsAt(config, urls);
  }

  lemma AppendMonthUrl(baseUrl: string, first: nat, urls: seq<string>, url: string)
    requires forall k :: 0 <= k < |urls| ==> urls[k] == MonthUrl(baseUrl, MonthOfIndex(first + k))
    requires url == MonthUrl(baseUrl, MonthOfIndex(first + |urls|))
    ensures forall k :: 0 <= k <= |urls| ==> (urls + [url])[k] == MonthUrl(baseUrl, MonthOfIndex(first + k))
  {
  }

  lemma MonthUrlsAt(c: ScraperConfig, urls: seq<string>)
    requires ValidMonth(c.start) && ValidMonth(c.end)
    requires |urls| == |Months(c)|
    requires forall k :: 0 <= k < |urls| ==> urls[k] == MonthUrl(c.baseUrl, MonthOfIndex(Index(c.start) + k))
    ensures urls == MonthUrls(c)
  {
  }

  /** The shipped configuration visits 55 months, from `/2020/03/` to
      `/2024/09/`. */
  lemma ShippedConfigUrls()
    ensures var urls := MonthUrls(ShippedConfig);
            |urls| == 55 &&
            urls[0] == "https://trusttheproce55.blogspot.com/2020/03/" &&
            urls[54] == "https://trusttheproce55.blogspot.com/2024/09/"
  {
    MonthsChronological(ShippedConfig);
    assert NatToString(2020) == "2020" && NatToString(2024) == "2024";
    assert PadTwo(3) == "03" && PadTwo(9) == "09";
  }

  /** No date fragment can start inside a prefix in which every `/` but a
      last one is followed by a character other than a digit. */
  lemma NoDatePathInPrefix(prefix: string, tail: string)
    requires prefix != [] && prefix[|prefix| - 1] != '/'
    requires forall i :: 0 <= i < |prefix| - 1 && prefix[i] == '/' ==> !IsDigit(prefix[i + 1])
    ensures forall i :: 0 <= i < |prefix| ==> !DatePathAt(prefix + tail, i)
  {
    forall i | 0 <= i < |prefix|
      ensures !DatePathAt(prefix + tail, i)
    {
      var s := prefix + tail;
      if i + 9 <= |s| && s[i] == '/' {
        assert i < |prefix| - 1;
        assert s[i + 1..i + 5][0] == prefix[i + 1];
      }
    }
  }

  lemma BaseUrlHasNoDate(tail: string)
    ensures forall i :: 0 <= i < |BaseUrl| ==> !DatePathAt(BaseUrl + tail, i)
  {
    assert forall i :: 0 <= i < |BaseUrl| - 1 && BaseUrl[i] == '/' ==> i == 6 || i == 7;
    NoDatePathInPrefix(BaseUrl, tail);
  }

  /** Round trip with the chat service: every archive URL of the shipped
      configuration dates to its own month. */
  lemma ShippedUrlsDateToTheirMonth(k: nat)
    requires k < |MonthUrls(ShippedConfig)|
    ensures var d := Months(ShippedConfig)[k];
            PromptAssembly.ExtractDateFromUrl(MonthUrls(ShippedConfig)[k]) ==
            Ok(MonthName(d.month) + " " + NatToString(d.year))
  {
    var d := Months(ShippedConfig)[k];
    assert d == MonthOfIndex(Index(ShippedConfig.start) + k);
    assert 2020 <= d.year <= 2024;
    var rest := "/" + NatToString(d.year) + "/" + PadTwo(d.month) + "/";
    BaseUrlHasNoDate(rest);
    assert MonthUrls(ShippedConfig)[k] == BaseUrl + "/" + NatToString(d.year) + "/" + PadTwo(d.month) + "/" + "";
    assert BaseUrl + rest == BaseUrl + "/" + NatToString(d.year) + "/" + PadTwo(d.month) + "/" + "";
    PromptAssembly.DateOfMonthUrl(BaseUrl, d.year, d.month, "");
  }
}
