/**
 The FoxNews spider's bookkeeping: the counters, the two histograms, the set
 of extracted links and the three logs it keeps while Scrapy hands it one
 response after another, and the report it writes at the end.
 */
module Spider {
  import opened Counting
  import opened CrawlHistory
  import opened LinkStats
  import opened Bookkeeping

  /** One line of the crawl report: a label and the number written after it. */
  datatype ReportLine = ReportLine(title: string, count: nat)

  /** Labels of the fetch, outgoing-URL and status-code lines, in report order. */
  const FixedLabels: seq<string> := [
    "# fetches attempted",
    "# fetches succeeded",
    "# fetches failed or aborted",
    "Total URLs extracted",
    "# unique URLs extracted",
    "# unique URLs within News Site",
    "# unique URLs outside News Site",
    "200 OK",
    "404 Not Found"]

  /** The fetch, outgoing-URL and status-code lines, given their values in report order. */
  function FixedLines(values: seq<nat>): seq<ReportLine>
    requires |values| == |FixedLabels|
  {
    seq(|values|, i requires 0 <= i < |values| => ReportLine(FixedLabels[i], values[i]))
  }

  /** Sum of the counts of some report lines. */
  function LineTotal(lines: seq<ReportLine>): nat
  {
    if lines == [] then 0 else LineTotal(lines[..|lines| - 1]) + lines[|lines| - 1].count
  }

  class FoxNewsSpider {
    var pageCount: nat
    var successCount: nat
    var failedCount: nat
    var urlsExtracted: set<string>
    /** The size histogram; it holds every bucket from the start. */
    var fileSizes: map<SizeBucket, nat>
    /** The content-type histogram: its counts, and its keys in insertion order. */
    var contentTypes: map<string, nat>
    var contentTypeOrder: seq<string>
    /** The data rows of the fetch, visit and outgoing-link logs. */
    var fetchLog: seq<FetchRow>
    var visitLog: seq<VisitRow>
    var urlsLog: seq<CsvRow>
    /** Every response handed to ParseItem so far, in order. */
    ghost var responses: seq<Response>

    /** The current values of the statistics. */
    function State(): Stats
      reads this
    {
      Stats(pageCount, successCount, failedCount, urlsExtracted, fileSizes,
            contentTypes, contentTypeOrder, fetchLog, visitLog, urlsLog)
    }

    /** The statistics are those of handling every response so far, in order. */
    ghost predicate Valid()
      reads this
    {
      State() == Replay(responses)
    }

    /** Every size bucket and every listed content type has a count. */
    ghost predicate HasKeys()
      reads this
    {
      HasBuckets(fileSizes) && forall t :: t in contentTypeOrder ==> t in contentTypes
    }

    constructor ()
      ensures Valid() && responses == []
      ensures State() == Initial
    {
      pageCount, successCount, failedCount := 0, 0, 0;
      urlsExtracted := {};
      fileSizes := map[Under1KB := 0, Under10KB := 0, Under100KB := 0, Under1MB := 0, AtLeast1MB := 0];
      contentTypes, contentTypeOrder := map[], [];
      fetchLog, visitLog, urlsLog := [], [], [];
      responses := [];
    }

    /**
     What the statistics promise at every point of the crawl: attempts split
     into successes and failures, both histograms add up to the attempts, the
     content types are listed in first-seen order and each was seen, the fetch
     log stops at the ceiling, the visit log has a row per attempt, and the
     outgoing-link log has a well-formed row per extracted link.
     */
    lemma Invariants()
      requires Valid()
      ensures HasKeys()
      ensures pageCount == |responses|
      ensures successCount + failedCount == pageCount
      ensures SumValues(AllBuckets, fileSizes) == pageCount
      ensures SumValues(contentTypeOrder, contentTypes) == pageCount
      ensures InFirstSeenOrder(contentTypeOrder, ContentTypes(responses))
      ensures forall t :: t in contentTypes ==> contentTypes[t] >= 1
      ensures |fetchLog| == Min(pageCount, PageCeiling)
      ensures |visitLog| == pageCount
      ensures |urlsLog| == OutLinkTotal(visitLog)
      ensures forall row :: row in urlsLog ==> |row| == 2 && row[1] == Indicator(row[0])
    {
      ReplayInvariants(responses);
    }

    /** Counts one response body of `size` bytes in its size bucket. */
    method FileSizeCounter(size: nat)
      requires HasBuckets(fileSizes)
      modifies this`fileSizes
      ensures fileSizes == AddSize(old(fileSizes), size)
    {
      BucketOfThresholds(size);
      if size < 1024 {
        fileSizes := fileSizes[Under1KB := fileSizes[Under1KB] + 1];
      } else if size < 10240 {
        fileSizes := fileSizes[Under10KB := fileSizes[Under10KB] + 1];
      } else if size < 102400 {
        fileSizes := fileSizes[Under100KB := fileSizes[Under100KB] + 1];
      } else if size < 1048576 {
        fileSizes := fileSizes[Under1MB := fileSizes[Under1MB] + 1];
      } else {
        fileSizes := fileSizes[AtLeast1MB := fileSizes[AtLeast1MB] + 1];
      }
    }

    /** Counts one response under its content type, adding the type with count 0 the first time it is seen. */
    method CountContentType(contentType: string)
      modifies this`contentTypes, this`contentTypeOrder
      ensures contentTypeOrder == AddTypeKey(old(contentTypeOrder), old(contentTypes), contentType)
      ensures contentTypes == AddTypeCount(old(contentTypes), contentType)
    {
      if contentType !in contentTypes {
        contentTypes := contentTypes[contentType := 0];
        contentTypeOrder := contentTypeOrder + [contentType];
      }
      contentTypes := contentTypes[contentType := contentTypes[contentType] + 1];
    }

    /** Writes one [link, indicator] row per outgoing link and adds the link to the extracted set. */
    method RecordLinks(outLinks: seq<string>)
      modifies this`urlsLog, this`urlsExtracted
      ensures urlsLog == old(urlsLog) + LinkRows(outLinks)
      ensures urlsExtracted == old(urlsExtracted) + LinkSet(outLinks)
    {
      for i := 0 to |outLinks|
        invariant urlsLog == old(urlsLog) + LinkRows(outLinks[..i])
        invariant urlsExtracted == old(urlsExtracted) + LinkSet(outLinks[..i])
      {
        var link := outLinks[i];
        var indicator := if SiteAddress <= link then OkIndicator else NotOkIndicator;
        urlsLog := urlsLog + [[link, indicator]];
        urlsExtracted := urlsExtracted + {link};
        assert outLinks[..i + 1] == outLinks[..i] + [link];
        LinkRowsAppend(outLinks[..i], link);
        assert LinkSet(outLinks[..i + 1]) == LinkSet(outLinks[..i]) + {link};
      }
      assert outLinks[..|outLinks|] == outLinks;
    }

    /** Counts one fetch as succeeded when its status is 200 and as failed or aborted otherwise. */
    method CountOutcome(status: int)
      modifies this`successCount, this`failedCount
      ensures successCount == old(successCount) + (if status == 200 then 1 else 0)
      ensures failedCount == old(failedCount) + (if status == 200 then 0 else 1)
    {
      if status == 200 {
        successCount := successCount + 1;
      } else {
        failedCount := failedCount + 1;
      }
    }

    /** Counts one response: the page, its size bucket, its content type and its outcome. */
    method CountResponse(status: int, bodySize: nat, contentType: string)
      requires HasBuckets(fileSizes)
      modifies this`pageCount, this`successCount, this`failedCount, this`fileSizes, this`contentTypes, this`contentTypeOrder
      ensures pageCount == old(pageCount) + 1
      ensures successCount == old(successCount) + (if status == 200 then 1 else 0)
      ensures failedCount == old(failedCount) + (if status == 200 then 0 else 1)
      ensures fileSizes == AddSize(old(fileSizes), bodySize)
      ensures contentTypes == AddTypeCount(old(contentTypes), contentType)
      ensures contentTypeOrder == AddTypeKey(old(contentTypeOrder), old(contentTypes), contentType)
    {
      pageCount := pageCount + 1;
      FileSizeCounter(bodySize);
      CountContentType(contentType);
      CountOutcome(status);
    }

    /** Logs one response: the fetch while the page count is within the ceiling, the visit, and its outgoing links. */
    method LogResponse(url: string, status: int, bodySize: nat, contentType: string, outLinks: seq<string>)
      modifies this`urlsExtracted, this`fetchLog, this`visitLog, this`urlsLog
      ensures urlsExtracted == old(urlsExtracted) + LinkSet(outLinks)
      ensures fetchLog == if pageCount <= PageCeiling then old(fetchLog) + [FetchRow(url, status)] else old(fetchLog)
      ensures visitLog == old(visitLog) + [VisitRow(url, bodySize, |outLinks|, contentType)]
      ensures urlsLog == old(urlsLog) + LinkRows(outLinks)
    {
      if pageCount <= PageCeiling {
        fetchLog := fetchLog + [FetchRow(url, status)];
      }
      visitLog := visitLog + [VisitRow(url, bodySize, |outLinks|, contentType)];
      RecordLinks(outLinks);
    }

    /**
     One call of the response handler. Its statements touch disjoint fields,
     so they are grouped here: first the counters and histograms, then the
     logs and the extracted links. The fetch log is tested against the page
     count after its increment, as in the handler. The result says whether
     the spider asks the engine to close.
     */
    method RecordResponse(url: string, status: int, bodySize: nat, contentTypeHeader: Option<string>, outLinks: seq<string>)
      returns (closeRequested: bool)
      requires HasBuckets(fileSizes)
      modifies this`pageCount, this`successCount, this`failedCount, this`urlsExtracted, this`fileSizes,
               this`contentTypes, this`contentTypeOrder, this`fetchLog, this`visitLog, this`urlsLog
      ensures pageCount == old(pageCount) + 1
      ensures successCount == old(successCount) + (if status == 200 then 1 else 0)
      ensures failedCount == old(failedCount) + (if status == 200 then 0 else 1)
      ensures urlsExtracted == old(urlsExtracted) + LinkSet(outLinks)
      ensures fileSizes == AddSize(old(fileSizes), bodySize)
      ensures contentTypes == AddTypeCount(old(contentTypes), HeaderValue(contentTypeHeader))
      ensures contentTypeOrder == AddTypeKey(old(contentTypeOrder), old(contentTypes), HeaderValue(contentTypeHeader))
      ensures fetchLog == if pageCount <= PageCeiling then old(fetchLog) + [FetchRow(url, status)] else old(fetchLog)
      ensures visitLog == old(visitLog) + [VisitRow(url, bodySize, |outLinks|, HeaderValue(contentTypeHeader))]
      ensures urlsLog == old(urlsLog) + LinkRows(outLinks)
      ensures closeRequested <==> pageCount >= PageCeiling
    {
      var contentType := HeaderValue(contentTypeHeader);
      CountResponse(status, bodySize, contentType);
      LogResponse(url, status, bodySize, contentType, outLinks);
      closeRequested := pageCount >= PageCeiling;
    }

    /**
     Handles one response: the status, the body length, the Content-Type
     header (None when absent) and the links found in it. The statistics
     become one Step further on, the response joins the history, and the
     result says whether the spider asks the engine to close.
     */
    method ParseItem(url: string, status: int, bodySize: nat, contentTypeHeader: Option<string>, outLinks: seq<string>)
      returns (closeRequested: bool)
      requires Valid()
      modifies this
      ensures responses == old(responses) + [Response(url, status, bodySize, contentTypeHeader, outLinks)]
      ensures State() == Step(old(State()), Response(url, status, bodySize, contentTypeHeader, outLinks))
      ensures Valid()
      ensures closeRequested <==> pageCount >= PageCeiling
    {
      ghost var r := Response(url, status, bodySize, contentTypeHeader, outLinks);
      closeRequested := RecordResponse(url, status, bodySize, contentTypeHeader, outLinks);
      ReplayAppend(responses, r);
      responses := responses + [r];
    }

    /**
     Reads the outgoing-link rows back and returns the number of counted rows,
     of distinct URLs among them, and of "OK" and other indicators; rows
     whose number of fields is not two are skipped.
     */
    method UrlsCounter() returns (total: nat, unique: nat, ok: nat, notOk: nat)
      ensures total == CountedRows(urlsLog) && unique == |UrlSet(urlsLog)|
      ensures ok == OkRows(urlsLog) && notOk == NotOkRows(urlsLog)
      ensures total == ok + notOk && unique <= total
      ensures unique == total <==> Distinct(CountedUrls(urlsLog))
      ensures Valid() ==> total == |urlsLog| == OutLinkTotal(visitLog) && unique == |urlsExtracted|
      ensures Valid() ==> ok == InDomainLinks(responses)
      ensures Valid() ==> (unique == total <==> Distinct(AllLinks(responses)))
    {
      total, ok, notOk := 0, 0, 0;
      var uniqueUrls: set<string> := {};
      for i := 0 to |urlsLog|
        invariant total == CountedRows(urlsLog[..i]) && uniqueUrls == UrlSet(urlsLog[..i])
        invariant ok == OkRows(urlsLog[..i]) && notOk == NotOkRows(urlsLog[..i])
      {
        assert urlsLog[..i + 1][..i] == urlsLog[..i];
        var row := urlsLog[i];
        if |row| != 2 {
          continue;
        }
        var url, indicator := row[0], row[1];
        total := total + 1;
        uniqueUrls := uniqueUrls + {url};
        if indicator == OkIndicator {
          ok := ok + 1;
        } else {
          notOk := notOk + 1;
        }
      }
      assert urlsLog[..|urlsLog|] == urlsLog;
      unique := |uniqueUrls|;
      IndicatorsPartition(urlsLog);
      UniqueVersusTotal(urlsLog);
      if Valid() {
        ReplayLogs(responses);
        StatsOfUrlLog(responses);
        UrlLogLength(responses);
      }
    }

    /** The file-size lines of the report: one per bucket, in size order. */
    method SizeLines() returns (lines: seq<ReportLine>)
      requires HasBuckets(fileSizes)
      ensures |lines| == |AllBuckets|
      ensures forall i :: 0 <= i < |AllBuckets| ==> lines[i] == ReportLine(Label(AllBuckets[i]), fileSizes[AllBuckets[i]])
      ensures LineTotal(lines) == SumValues(AllBuckets, fileSizes)
    {
      lines := [];
      for i := 0 to |AllBuckets|
        invariant |lines| == i
        invariant forall j :: 0 <= j < i ==> lines[j] == ReportLine(Label(AllBuckets[j]), fileSizes[AllBuckets[j]])
        invariant LineTotal(lines) == SumValues(AllBuckets[..i], fileSizes)
      {
        var b := AllBuckets[i];
        var line := ReportLine(Label(b), fileSizes[b]);
        assert (lines + [line])[..i] == lines;
        assert AllBuckets[..i + 1][..i] == AllBuckets[..i];
        lines := lines + [line];
      }
      assert AllBuckets[..|AllBuckets|] == AllBuckets;
    }

    /** The content-type lines of the report: one per type, in first-seen order. */
    method TypeLines() returns (lines: seq<ReportLine>)
      requires forall t :: t in contentTypeOrder ==> t in contentTypes
      ensures |lines| == |contentTypeOrder|
      ensures forall i :: 0 <= i < |contentTypeOrder| ==> lines[i] == ReportLine(contentTypeOrder[i], contentTypes[contentTypeOrder[i]])
      ensures LineTotal(lines) == SumValues(contentTypeOrder, contentTypes)
    {
      lines := [];
      for i := 0 to |contentTypeOrder|
        invariant |lines| == i
        invariant forall j :: 0 <= j < i ==> lines[j] == ReportLine(contentTypeOrder[j], contentTypes[contentTypeOrder[j]])
        invariant LineTotal(lines) == SumValues(contentTypeOrder[..i], contentTypes)
      {
        var t := contentTypeOrder[i];
        var line := ReportLine(t, contentTypes[t]);
        assert (lines + [line])[..i] == lines;
        assert contentTypeOrder[..i + 1][..i] == contentTypeOrder[..i];
        lines := lines + [line];
      }
      assert contentTypeOrder[..|contentTypeOrder|] == contentTypeOrder;
    }

    /**
     Writes the report's counted lines from the link statistics: the fetch,
     outgoing-URL and status-code lines, then one line per size bucket in
     size order and one per content type in first-seen order.
     */
    method ReportLines(total: nat, unique: nat, ok: nat, notOk: nat) returns (report: seq<ReportLine>)
      requires HasKeys()
      ensures |report| == |FixedLabels| + |AllBuckets| + |contentTypeOrder|
      ensures forall i :: 0 <= i < |FixedLabels| ==> report[i].title == FixedLabels[i]
      ensures report[0].count == pageCount
      ensures report[1].count == successCount == report[7].count
      ensures report[2].count == failedCount == report[8].count
      ensures report[3].count == total && report[4].count == unique
      ensures report[5].count == ok && report[6].count == notOk
      ensures forall i :: 0 <= i < |AllBuckets| ==>
                report[9 + i] == ReportLine(Label(AllBuckets[i]), fileSizes[AllBuckets[i]])
      ensures forall i :: 0 <= i < |contentTypeOrder| ==>
                report[14 + i] == ReportLine(contentTypeOrder[i], contentTypes[contentTypeOrder[i]])
      ensures LineTotal(report[9..14]) == SumValues(AllBuckets, fileSizes)
      ensures LineTotal(report[14..]) == SumValues(contentTypeOrder, contentTypes)
    {
      var counts := FixedLines([pageCount, successCount, failedCount, total, unique, ok, notOk, successCount, failedCount]);
      var sizeLines := SizeLines();
      var typeLines := TypeLines();
      report := counts + sizeLines + typeLines;
      assert report[..9] == counts;
      assert report[9..14] == sizeLines;
      assert report[14..] == typeLines;
    }

    /**
     The report's counted lines: fetch statistics, outgoing-URL statistics,
     status codes, then one line per size bucket in size order and one per
     content type in first-seen order.
     */
    method GenerateReport() returns (report: seq<ReportLine>)
      requires HasKeys()
      ensures |report| == |FixedLabels| + |AllBuckets| + |contentTypeOrder|
      ensures forall i :: 0 <= i < |FixedLabels| ==> report[i].title == FixedLabels[i]
      ensures report[0].count == pageCount
      ensures report[1].count == successCount == report[7].count
      ensures report[2].count == failedCount == report[8].count
      ensures report[3].count == report[5].count + report[6].count
      ensures report[4].count <= report[3].count
      ensures forall i :: 0 <= i < |AllBuckets| ==>
                report[9 + i] == ReportLine(Label(AllBuckets[i]), fileSizes[AllBuckets[i]])
      ensures forall i :: 0 <= i < |contentTypeOrder| ==>
                report[14 + i] == ReportLine(contentTypeOrder[i], contentTypes[contentTypeOrder[i]])
      ensures Valid() ==> report[0].count == report[1].count + report[2].count
      ensures Valid() ==> report[3].count == |urlsLog| && report[4].count == |urlsExtracted|
      ensures Valid() ==> report[5].count == InDomainLinks(responses)
      ensures Valid() ==> LineTotal(report[9..14]) == pageCount && LineTotal(report[14..]) == pageCount
    {
      var total, unique, ok, notOk := UrlsCounter();
      report := ReportLines(total, unique, ok, notOk);
      if Valid() {
        Invariants();
      }
    }
  }
}
