/**
 The outgoing-link statistics of the report, as functions of the rows read
 back from the outgoing-link log. A row whose number of fields is not two
 is skipped; every other row is counted, its first field is the URL and its
 second the indicator.
 */
module LinkStats {
  import opened Counting
  import opened CrawlHistory

  /** Number of rows with exactly two fields. */
  function CountedRows(rows: seq<CsvRow>): (n: nat)
    ensures n <= |rows|
  {
    if rows == [] then 0
    else CountedRows(rows[..|rows| - 1]) + (if |rows[|rows| - 1]| == 2 then 1 else 0)
  }

  /** The URL field of every counted row, in order, repeats included. */
  function CountedUrls(rows: seq<CsvRow>): (urls: seq<string>)
    ensures |urls| == CountedRows(rows)
  {
    if rows == [] then []
    else
      var last := rows[|rows| - 1];
      CountedUrls(rows[..|rows| - 1]) + (if |last| == 2 then [last[0]] else [])
  }

  /** The URLs of the counted rows, without repetition. */
  function UrlSet(rows: seq<CsvRow>): (urls: set<string>)
    ensures urls == Elements(CountedUrls(rows))
  {
    if rows == [] then {}
    else
      var last := rows[|rows| - 1];
      UrlSet(rows[..|rows| - 1]) + (if |last| == 2 then {last[0]} else {})
  }

  /** Number of counted rows whose indicator is "OK". */
  function OkRows(rows: seq<CsvRow>): (n: nat)
    ensures n <= CountedRows(rows)
  {
    if rows == [] then 0
    else
      var last := rows[|rows| - 1];
      OkRows(rows[..|rows| - 1]) + (if |last| == 2 && last[1] == OkIndicator then 1 else 0)
  }

  /** Number of counted rows whose indicator is anything else. */
  function NotOkRows(rows: seq<CsvRow>): (n: nat)
    ensures n <= CountedRows(rows)
  {
    if rows == [] then 0
    else
      var last := rows[|rows| - 1];
      NotOkRows(rows[..|rows| - 1]) + (if |last| == 2 && last[1] != OkIndicator then 1 else 0)
  }

  /** Every counted row is either an "OK" row or a not-"OK" row. */
  lemma {:induction false} IndicatorsPartition(rows: seq<CsvRow>)
    ensures OkRows(rows) + NotOkRows(rows) == CountedRows(rows)
  {
    if rows != [] {
      IndicatorsPartition(rows[..|rows| - 1]);
    }
  }

  /**
   There are never more distinct URLs than counted rows, and there are as
   many exactly when no URL is counted twice.
   */
  lemma UniqueVersusTotal(rows: seq<CsvRow>)
    ensures |UrlSet(rows)| <= CountedRows(rows)
    ensures |UrlSet(rows)| == CountedRows(rows) <==> Distinct(CountedUrls(rows))
  {
    ElementsOfDistinct(CountedUrls(rows));
  }

  /** The four statistics of a concatenation are those of the parts combined. */
  lemma {:induction false} StatsOfConcat(a: seq<CsvRow>, b: seq<CsvRow>)
    ensures CountedRows(a + b) == CountedRows(a) + CountedRows(b)
    ensures UrlSet(a + b) == UrlSet(a) + UrlSet(b)
    ensures OkRows(a + b) == OkRows(a) + OkRows(b)
    ensures NotOkRows(a + b) == NotOkRows(a) + NotOkRows(b)
  {
    if b == [] {
      assert a + b == a;
    } else {
      var init := b[..|b| - 1];
      assert (a + b)[..|a + b| - 1] == a + init;
      StatsOfConcat(a, init);
    }
  }

  /** The counted URLs of a concatenation are those of the first part, then those of the second. */
  lemma {:induction false} CountedUrlsConcat(a: seq<CsvRow>, b: seq<CsvRow>)
    ensures CountedUrls(a + b) == CountedUrls(a) + CountedUrls(b)
  {
    if b == [] {
      assert a + b == a;
    } else {
      var init := b[..|b| - 1];
      assert (a + b)[..|a + b| - 1] == a + init;
      CountedUrlsConcat(a, init);
    }
  }

  /** The rows the spider writes for one response: one counted row per link, "OK" exactly for in-site links. */
  lemma {:induction false} StatsOfLinkRows(links: seq<string>)
    ensures CountedRows(LinkRows(links)) == |links|
    ensures UrlSet(LinkRows(links)) == LinkSet(links)
    ensures OkRows(LinkRows(links)) == InDomainCount(links)
    ensures NotOkRows(LinkRows(links)) == |links| - InDomainCount(links)
    ensures CountedUrls(LinkRows(links)) == links
  {
    if links != [] {
      var init, last := links[..|links| - 1], links[|links| - 1];
      assert links == init + [last];
      StatsOfLinkRows(init);
      LinkRowsAppend(init, last);
      var rows := LinkRows(links);
      assert rows[..|rows| - 1] == LinkRows(init);
      assert LinkSet(links) == LinkSet(init) + {last};
    }
  }

  /**
   Read back, the outgoing-link log the spider writes has every row counted,
   as many distinct URLs as the set of extracted links, and as many "OK"
   rows as in-site links were extracted (repeats included).
   */
  lemma {:induction false} StatsOfUrlLog(h: seq<Response>)
    ensures CountedRows(UrlLog(h)) == |UrlLog(h)|
    ensures UrlSet(UrlLog(h)) == Extracted(h)
    ensures OkRows(UrlLog(h)) == InDomainLinks(h)
    ensures NotOkRows(UrlLog(h)) == |UrlLog(h)| - InDomainLinks(h)
    ensures CountedUrls(UrlLog(h)) == AllLinks(h)
  {
    if h != [] {
      var init, last := h[..|h| - 1], h[|h| - 1];
      StatsOfUrlLog(init);
      StatsOfConcat(UrlLog(init), LinkRows(last.outLinks));
      CountedUrlsConcat(UrlLog(init), LinkRows(last.outLinks));
      StatsOfLinkRows(last.outLinks);
    }
  }
}
