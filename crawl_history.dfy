/**
 What the FoxNews spider records, stated as functions of the sequence of
 responses it has been handed so far. The spider object keeps running
 counters and logs; its invariant says that each of them equals the
 function of the response history defined here.
 */
module CrawlHistory {
  import opened Counting

  datatype Option<T> = None | Some(value: T)

  /** Page ceiling: fetch-log rows stop here and the spider asks to close from here on. */
  const PageCeiling: nat := 20000

  /** A link is in the news site when its text starts with this address. */
  const SiteAddress: string := "https://www.foxnews.com"

  const OkIndicator: string := "OK"
  const NotOkIndicator: string := "N_OK"

  /** The part of one Scrapy response that the spider looks at. */
  datatype Response = Response(
    url: string,
    status: int,
    bodySize: nat,                      // length of the body in bytes
    contentTypeHeader: Option<string>,  // the Content-Type header, if the response has one
    outLinks: seq<string>)              // the links the link extractor found, in order

  /** The content-type key a response is counted under: a missing header counts as "". */
  function HeaderValue(header: Option<string>): string
  {
    match header
    case Some(t) => t
    case None => ""
  }

  function ContentType(r: Response): string
  {
    HeaderValue(r.contentTypeHeader)
  }

  function Min(a: nat, b: nat): nat
  {
    if a <= b then a else b
  }

  // ---------------------------------------------------------------------
  // File-size histogram
  // ---------------------------------------------------------------------

  datatype SizeBucket = Under1KB | Under10KB | Under100KB | Under1MB | AtLeast1MB

  /** The buckets in the order the report lists them. */
  const AllBuckets: seq<SizeBucket> := [Under1KB, Under10KB, Under100KB, Under1MB, AtLeast1MB]

  /** Smallest size of each bucket, in bytes, in the order of AllBuckets. */
  const Floors: seq<nat> := [0, 1024, 10240, 102400, 1048576]

  function Label(b: SizeBucket): string
  {
    match b
    case Under1KB => "< 1KB"
    case Under10KB => "1KB ~ <10KB"
    case Under100KB => "10KB ~ <100KB"
    case Under1MB => "100KB ~ <1MB"
    case AtLeast1MB => ">= 1MB"
  }

  /** Position of a bucket in AllBuckets. */
  function Index(b: SizeBucket): (i: nat)
    ensures i < |AllBuckets| && AllBuckets[i] == b
  {
    match b
    case Under1KB => 0
    case Under10KB => 1
    case Under100KB => 2
    case Under1MB => 3
    case AtLeast1MB => 4
  }

  /** `size` lies in the half-open range of bucket `b`: at least its floor, below the next floor. */
  predicate InRange(size: nat, b: SizeBucket)
  {
    var i := Index(b);
    Floors[i] <= size && (i + 1 < |Floors| ==> size < Floors[i + 1])
  }

  /** The bucket a body of `size` bytes is counted in: the last bucket, from `i` on, whose floor it reaches. */
  function BucketFrom(size: nat, i: nat): SizeBucket
    requires i < |AllBuckets|
    decreases |AllBuckets| - i
  {
    if i + 1 < |Floors| && Floors[i + 1] <= size then BucketFrom(size, i + 1) else AllBuckets[i]
  }

  function BucketOf(size: nat): SizeBucket
  {
    BucketFrom(size, 0)
  }

  /** Scanning the floors comes to the same bucket as the spider's chain of threshold tests. */
  lemma BucketOfThresholds(size: nat)
    ensures BucketOf(size) ==
      if size < 1024 then Under1KB
      else if size < 10240 then Under10KB
      else if size < 102400 then Under100KB
      else if size < 1048576 then Under1MB
      else AtLeast1MB
  {
  }

  /** The bucket of a size is the one bucket whose range holds it: the ranges cover every size and do not overlap. */
  lemma BucketOfUnique(size: nat)
    ensures forall c :: InRange(size, c) <==> c == BucketOf(size)
  {
  }

  // ---------------------------------------------------------------------
  // Link classification
  // ---------------------------------------------------------------------

  /** The test the spider applies: a text prefix, not a comparison of hosts. */
  predicate InDomain(link: string)
  {
    SiteAddress <= link
  }

  /** The indicator written next to a link. */
  function Indicator(link: string): string
  {
    if InDomain(link) then OkIndicator else NotOkIndicator
  }

  /** A link is marked "OK" exactly when its first characters are the site address, and "N_OK" otherwise. */
  lemma IndicatorByPrefix(link: string)
    ensures Indicator(link) == OkIndicator || Indicator(link) == NotOkIndicator
    ensures Indicator(link) == OkIndicator <==> |SiteAddress| <= |link| && link[..|SiteAddress|] == SiteAddress
  {
  }

  // ---------------------------------------------------------------------
  // Log rows
  // ---------------------------------------------------------------------

  /** A row of the fetch log: URL, Status. */
  datatype FetchRow = FetchRow(url: string, status: int)

  /** A row of the visit log: URL, Size (Bytes), Outlinks, Content-Type. */
  datatype VisitRow = VisitRow(url: string, size: nat, outLinks: nat, contentType: string)

  /** A row of the outgoing-link log as its CSV fields; the counter reads rows of any length back. */
  type CsvRow = seq<string>

  function VisitRowOf(r: Response): VisitRow
  {
    VisitRow(r.url, r.bodySize, |r.outLinks|, ContentType(r))
  }

  // ---------------------------------------------------------------------
  // The statistics, as functions of the response history
  // ---------------------------------------------------------------------

  /** Number of responses with status 200. */
  function Succeeded(h: seq<Response>): nat
  {
    if h == [] then 0
    else Succeeded(h[..|h| - 1]) + (if h[|h| - 1].status == 200 then 1 else 0)
  }

  /** Number of responses with any other status. */
  function Failed(h: seq<Response>): nat
  {
    if h == [] then 0
    else Failed(h[..|h| - 1]) + (if h[|h| - 1].status != 200 then 1 else 0)
  }

  /** The bucket of every response, in order. */
  function SizeBuckets(h: seq<Response>): (bs: seq<SizeBucket>)
    ensures |bs| == |h|
    ensures forall i :: 0 <= i < |h| ==> bs[i] == BucketOf(h[i].bodySize)
  {
    if h == [] then [] else SizeBuckets(h[..|h| - 1]) + [BucketOf(h[|h| - 1].bodySize)]
  }

  /** The content-type key of every response, in order. */
  function ContentTypes(h: seq<Response>): (ts: seq<string>)
    ensures |ts| == |h|
    ensures forall i :: 0 <= i < |h| ==> ts[i] == ContentType(h[i])
  {
    if h == [] then [] else ContentTypes(h[..|h| - 1]) + [ContentType(h[|h| - 1])]
  }

  /** The fetch log: one row for each of the first PageCeiling responses, none after. */
  function FetchLog(h: seq<Response>): (rows: seq<FetchRow>)
    ensures |rows| == Min(|h|, PageCeiling)
    ensures forall i :: 0 <= i < |rows| ==> rows[i] == FetchRow(h[i].url, h[i].status)
  {
    if h == [] then []
    else if |h| <= PageCeiling then FetchLog(h[..|h| - 1]) + [FetchRow(h[|h| - 1].url, h[|h| - 1].status)]
    else FetchLog(h[..|h| - 1])
  }

  /** The visit log: one row for every response. */
  function VisitLog(h: seq<Response>): (rows: seq<VisitRow>)
    ensures |rows| == |h|
    ensures forall i :: 0 <= i < |h| ==> rows[i] == VisitRowOf(h[i])
  {
    if h == [] then [] else VisitLog(h[..|h| - 1]) + [VisitRowOf(h[|h| - 1])]
  }

  /** The outgoing-link rows written for one response: one [link, indicator] row per link, in order. */
  function LinkRows(links: seq<string>): (rows: seq<CsvRow>)
    ensures |rows| == |links|
  {
    seq(|links|, i requires 0 <= i < |links| => [links[i], Indicator(links[i])])
  }

  /** One more link adds one more row at the end. */
  lemma LinkRowsAppend(links: seq<string>, link: string)
    ensures LinkRows(links + [link]) == LinkRows(links) + [[link, Indicator(link)]]
  {
  }

  /** The outgoing-link log: the link rows of every response, response after response. */
  function UrlLog(h: seq<Response>): seq<CsvRow>
  {
    if h == [] then [] else UrlLog(h[..|h| - 1]) + LinkRows(h[|h| - 1].outLinks)
  }

  /** Every link extracted from any response. */
  function Extracted(h: seq<Response>): set<string>
  {
    if h == [] then {} else Extracted(h[..|h| - 1]) + LinkSet(h[|h| - 1].outLinks)
  }

  /** Every link extracted from any response, response after response, repeats included. */
  function AllLinks(h: seq<Response>): (links: seq<string>)
    ensures |links| == OutLinkTotal(VisitLog(h))
  {
    if h == [] then [] else AllLinks(h[..|h| - 1]) + h[|h| - 1].outLinks
  }

  function LinkSet(links: seq<string>): set<string>
  {
    set l | l in links
  }

  /** Sum of the Outlinks column of a visit log. */
  function OutLinkTotal(rows: seq<VisitRow>): nat
  {
    if rows == [] then 0 else OutLinkTotal(rows[..|rows| - 1]) + rows[|rows| - 1].outLinks
  }

  /** Number of links, over all responses, that the prefix test puts in the site. */
  function InDomainLinks(h: seq<Response>): nat
  {
    if h == [] then 0 else InDomainLinks(h[..|h| - 1]) + InDomainCount(h[|h| - 1].outLinks)
  }

  function InDomainCount(links: seq<string>): nat
  {
    if links == [] then 0
    else InDomainCount(links[..|links| - 1]) + (if InDomain(links[|links| - 1]) then 1 else 0)
  }

  // ---------------------------------------------------------------------
  // Properties of the history functions
  // ---------------------------------------------------------------------

  /** Every response counts as succeeded or as failed, never both. */
  lemma {:induction false} OutcomesPartition(h: seq<Response>)
    ensures Succeeded(h) + Failed(h) == |h|
  {
    if h != [] {
      OutcomesPartition(h[..|h| - 1]);
    }
  }

  /** The five bucket counts of any sequence of buckets add up to its length. */
  lemma SizeCountsPartition(bs: seq<SizeBucket>)
    ensures SumOccurrences(AllBuckets, bs) == |bs|
  {
    forall b | b in bs ensures b in AllBuckets {
      assert AllBuckets[Index(b)] == b;
    }
    CountsPartition(AllBuckets, bs);
  }

  /** Each outgoing-link row has two fields, the second the classification of the first. */
  lemma {:induction false} UrlLogRowsWellFormed(h: seq<Response>)
    ensures forall row :: row in UrlLog(h) ==> |row| == 2 && row[1] == Indicator(row[0])
  {
    if h != [] {
      UrlLogRowsWellFormed(h[..|h| - 1]);
      var rows := LinkRows(h[|h| - 1].outLinks);
      forall row | row in rows ensures |row| == 2 && row[1] == Indicator(row[0]) {
        var i :| 0 <= i < |rows| && rows[i] == row;
      }
    }
  }

  /** The outgoing-link log has as many rows as the visit log's Outlinks column adds up to. */
  lemma {:induction false} UrlLogLength(h: seq<Response>)
    ensures |UrlLog(h)| == OutLinkTotal(VisitLog(h))
  {
    if h != [] {
      UrlLogLength(h[..|h| - 1]);
      assert VisitLog(h)[..|h| - 1] == VisitLog(h[..|h| - 1]);
    }
  }

  /**
   The classification is by text prefix: an address that merely starts with
   the site's text is in the site, and the site's bare domain is not.
   */
  lemma PrefixClassification()
    ensures Indicator("https://www.foxnews.com.example.org/") == OkIndicator
    ensures Indicator("https://foxnews.com/politics") == NotOkIndicator
  {
    assert "https://www.foxnews.com.example.org/"[..|SiteAddress|] == SiteAddress;
    assert "https://foxnews.com/politics"[8] != SiteAddress[8];
  }
}
