# FoxNews crawler statistics, modelled in Dafny

The FoxNews crawler is a Scrapy `CrawlSpider` that crawls `https://www.foxnews.com`.
Each response the crawl engine hands to the spider's `parse_item` callback
updates the spider's running statistics:

- the number of pages attempted, succeeded and failed;
- a five-bucket histogram of body sizes;
- a histogram of Content-Type values, reported in first-seen order;
- the set of extracted outgoing links;
- three CSV logs:
  - the fetch log (URL, status), capped at 20000 rows;
  - the visit log (URL, size, number of outlinks, content type);
  - the outgoing-link log (one `[link, indicator]` row per link, `OK` for in-site links, `N_OK` otherwise).

When the crawl closes, `generate_report` reads the outgoing-link log back
through `urls_counter` and writes a text report. The report has three parts:

- fetch, outgoing-URL and status-code counts;
- one line per size bucket;
- one line per content type.

The model is split into five modules:

- `Counting` (counting.dfy): occurrences, distinct values in first-seen
  order, and sums over keyed counts. These are the generic facts the
  histograms rest on.
- `CrawlHistory` (crawl_history.dfy): the response as the spider sees it,
  the size buckets, the link classification, the log rows, and every
  statistic as a declarative function of the sequence of responses handled
  so far.
- `LinkStats` (link_stats.dfy): the four statistics `urls_counter`
  computes, as functions of the rows read back, with their properties.
- `Bookkeeping` (bookkeeping.dfy): all the statistics as one `Stats`
  value. `Step` is what one `parse_item` call does to it, and `Replay`
  folds `Step` over a response history. The lemmas show that the replayed
  statistics equal the history functions of `CrawlHistory` and keep the
  crawl's invariants.
- `Spider` (spider.dfy): the `FoxNewsSpider` class. Its fields are updated
  in place by `ParseItem` and its helpers, one method per step of the
  Python handler. The class invariant `Valid()` says the fields are
  `Replay` of a ghost history of the responses handled. `UrlsCounter`
  reads the outgoing-link rows back in a loop, and `GenerateReport`
  assembles the counted report lines.

The method rows below point at reference definitions that state one
step of the source without a loop or a mutation:

- `CrawlHistory.BucketOf` picks the size bucket by scanning the bucket floors.
- `CrawlHistory.Indicator` gives a link its `OK`/`N_OK` mark.
- `CrawlHistory.LinkRows` gives the rows written for the links of one response.
- `CrawlHistory.HeaderValue` gives the content-type key of a header.
- `Bookkeeping.AddSize` gives the size histogram after one body.
- `Bookkeeping.AddTypeCount` and `Bookkeeping.AddTypeKey` give the content-type counts and key order after one type.

The lemmas in the table state what these definitions mean.

Some points of the code's behaviour are easy to misread; the model follows
the code:

- A fetch counts as succeeded only when its status is exactly 200. Every
  other status, including other 2xx codes, counts as failed.
- `parse_item` records the outgoing links of every response it is given,
  whatever the status.
- A link is in the site when its text starts with `https://www.foxnews.com`.
  The test is on the text, not on the host, so
  `https://www.foxnews.com.example.org/` is `OK` and
  `https://foxnews.com/politics` is `N_OK` (`CrawlHistory.PrefixClassification`).
- The report's "unique URLs within/outside News Site" lines count rows of
  the outgoing-link log, repeats included. Only "# unique URLs extracted"
  is deduplicated.
- The "200 OK" and "404 Not Found" lines repeat the succeeded and failed
  counts. Any non-200 status is reported under "404 Not Found".

## Model

| member | source | states |
|---|---|---|
| Spider.FoxNewsSpider.constructor | crawler_foxnews.py:26-37 | The spider starts with all counters at 0, every size bucket present at 0, no content types, no extracted links, empty logs and an empty history, and so satisfies the invariant. |
| Spider.FoxNewsSpider.Invariants | crawler_foxnews.py:26-84 | Under the class invariant, after every completed handler call: every bucket and listed type has a count; pages attempted equal responses handled and equal succeeded plus failed; both histograms sum to the pages attempted; types are keyed in first-seen order and each has count at least 1; the fetch log has min(pages, 20000) rows and the visit log one row per page; the link log has as many rows as the visit log's Outlinks column adds up to, each a [link, indicator] pair whose indicator classifies the link. |
| Spider.FoxNewsSpider.FileSizeCounter | crawler_foxnews.py:86-96 | The threshold chain increments exactly the bucket that `BucketOf` (a scan of the bucket floors) assigns to the size and leaves the other buckets unchanged. |
| Spider.FoxNewsSpider.CountContentType | crawler_foxnews.py:69-71 | A type seen for the first time is created at 0, appended to the key order, then incremented. A known type is incremented and keeps its place. No other count changes. |
| Spider.FoxNewsSpider.RecordLinks | crawler_foxnews.py:73-76 | The loop appends one [link, indicator] row per outgoing link, in order, with the indicator `Indicator(link)`, and adds exactly the links to the extracted set. |
| Spider.FoxNewsSpider.CountOutcome | crawler_foxnews.py:78-81 | Status 200 adds one success; any other status adds one failure. |
| Spider.FoxNewsSpider.CountResponse | crawler_foxnews.py:55-71 | One more page; the size and content-type histograms are updated as above; one more success or failure. |
| Spider.FoxNewsSpider.LogResponse | crawler_foxnews.py:64-76 | The fetch row is appended only while the page count is at most 20000; one visit row always; the link rows and links of the response. |
| Spider.FoxNewsSpider.RecordResponse | crawler_foxnews.py:54-84 | Each field of the spider becomes its value after one handler call. A missing Content-Type header counts as "". The result asks the engine to close exactly when the page count has reached 20000. |
| Spider.FoxNewsSpider.ParseItem | crawler_foxnews.py:54-84 | The statistics become `Step` of the old statistics and the response. The response joins the history. The invariant is preserved. Close is requested iff pages >= 20000. |
| Spider.FoxNewsSpider.UrlsCounter | crawler_foxnews.py:98-120 | Rows without exactly two fields are skipped. The loop returns the counted rows, distinct URLs, OK rows and other rows. total == ok + notOk and unique <= total, with equality exactly when no counted URL repeats. Under the invariant: total is the number of links logged (the Outlinks column total); unique is the size of the extracted set; ok is the number of in-site links over the history; and unique == total exactly when no link was extracted twice over the whole crawl. |
| Spider.FoxNewsSpider.SizeLines | crawler_foxnews.py:148-150 | One line per bucket in size order, with its label and count. The lines add up to the histogram total. |
| Spider.FoxNewsSpider.TypeLines | crawler_foxnews.py:152-154 | One line per content type in first-seen order, with its count. The lines add up to the histogram total. |
| Spider.FoxNewsSpider.ReportLines | crawler_foxnews.py:136-154 | The nine counted lines carry the fixed labels in order. They hold attempted, succeeded and failed, the four link statistics, then succeeded and failed again. Then come one line per bucket and one per content type, each section adding up to its histogram total. |
| Spider.FoxNewsSpider.GenerateReport | crawler_foxnews.py:128-154 | The report's counted lines carry the fixed labels in order. Attempted, succeeded and failed come from the counters, and the status-code lines repeat succeeded and failed. Total URLs are the in-site lines plus the outside lines, and unique URLs are at most the total. Then come the size and content-type lines. Under the invariant, attempted = succeeded + failed, total = link-log rows, unique = extracted links, in-site = in-site links, and each histogram section sums to the pages attempted. |
| Bookkeeping.Step | crawler_foxnews.py:55-81 | The functional form of one handler call: the page, outcome, size, content type, fetch and visit rows, link rows and links of the response are added. The size histogram keeps all five buckets. |
| Bookkeeping.Replay | crawler_foxnews.py:30-36 | After any history the size histogram holds all five buckets. |
| Bookkeeping.ReplayAppend | crawler_foxnews.py:54-84 | Handling one more response is one more `Step` of the statistics. |
| Bookkeeping.StepEffects | crawler_foxnews.py:55-96 | One call counts one more page and exactly one more success-or-failure. It increments exactly the bucket whose range holds the body size, so the size histogram total grows by one. |
| Bookkeeping.AddTypeEffects | crawler_foxnews.py:69-71 | A new type gets count 1 and is appended to the key order. A known type goes up by one and keeps the order. No other type changes and the key set grows by the type only. |
| Bookkeeping.ReplayCounters | crawler_foxnews.py:55-81 | After a history, the page count is its length, successes are the 200 responses and failures the others. |
| Bookkeeping.ReplayLogs | crawler_foxnews.py:64-76 | After a history, the fetch, visit and link logs and the extracted set are exactly the history's logs and links. |
| Bookkeeping.SizesStep | crawler_foxnews.py:86-96 | Counting one body keeps every bucket equal to the number of bodies whose bucket it is. |
| Bookkeeping.TypesStep | crawler_foxnews.py:69-71 | Counting one type keeps the histogram equal to the occurrence counts, with its keys equal to the distinct types in first-seen order. |
| Bookkeeping.ReplaySizes | crawler_foxnews.py:86-96 | After a history, each bucket counts exactly the responses whose size falls in it. |
| Bookkeeping.ReplayTypes | crawler_foxnews.py:69-71 | After a history, each type counts exactly the responses carrying it, and the keys are the distinct types in first-seen order. |
| Bookkeeping.SizeHistogramTotal | crawler_foxnews.py:86-96 | A size histogram that tracks a sequence of buckets sums to its length. |
| Bookkeeping.TypeHistogramTotal | crawler_foxnews.py:69-71 | A type histogram that tracks a sequence of types sums to its length, has a count for every key, orders its keys by first occurrence, and has no zero count. |
| Bookkeeping.ReplayInvariants | crawler_foxnews.py:26-84 | The invariants listed for `Invariants`, for the statistics after any history. |
| CrawlHistory.BucketOfThresholds | crawler_foxnews.py:87-96 | Scanning the bucket floors picks the same bucket as the thresholds 1024, 10240, 102400 and 1048576 tested in order. |
| CrawlHistory.BucketOfUnique | crawler_foxnews.py:86-96 | Every size lies in the range of exactly one bucket, the one `BucketOf` picks. |
| CrawlHistory.IndicatorByPrefix | crawler_foxnews.py:74 | The indicator is always OK or N_OK. It is OK iff the link's first 23 characters are `https://www.foxnews.com`. |
| CrawlHistory.PrefixClassification | crawler_foxnews.py:74 | A foreign host whose name begins with the site's text is OK; the bare domain without `www.` is N_OK. |
| CrawlHistory.LinkRowsAppend | crawler_foxnews.py:73-75 | One more link adds exactly one more row, [link, indicator], at the end. |
| CrawlHistory.FetchLog | crawler_foxnews.py:64-65 | The fetch log of a history has min(length, 20000) rows, the i-th being the URL and status of the i-th response. |
| CrawlHistory.VisitLog | crawler_foxnews.py:67 | The visit log has one row per response, in order, with URL, size, outlink count and content type. |
| CrawlHistory.OutcomesPartition | crawler_foxnews.py:78-81 | Every response counts as succeeded or failed, never both: succeeded + failed = responses. |
| CrawlHistory.SizeCountsPartition | crawler_foxnews.py:86-96 | The five bucket counts of any sequence of buckets add up to its length. |
| CrawlHistory.UrlLogRowsWellFormed | crawler_foxnews.py:73-75 | Every row of the outgoing-link log has two fields, the second being the indicator of the first. |
| CrawlHistory.UrlLogLength | crawler_foxnews.py:67-75 | The outgoing-link log has as many rows as the visit log's Outlinks column adds up to. |
| LinkStats.IndicatorsPartition | crawler_foxnews.py:108-118 | Every counted row is counted once, as in-site or as outside: ok + notOk = total. |
| LinkStats.CountedRows | crawler_foxnews.py:107-112 | The fold of the row counter: rows with exactly two fields, never more than the rows read. |
| LinkStats.CountedUrls | crawler_foxnews.py:107-113 | The URL fields added to the unique set, in order, repeats included: one per counted row. |
| LinkStats.UrlSet | crawler_foxnews.py:100-113 | The fold of the unique-URL set is exactly the set of counted URLs. |
| LinkStats.OkRows | crawler_foxnews.py:115-116 | The fold of the in-site counter: counted rows whose indicator is "OK", never more than the counted rows. |
| LinkStats.NotOkRows | crawler_foxnews.py:117-118 | The fold of the outside counter: counted rows with any other indicator, never more than the counted rows. |
| LinkStats.UniqueVersusTotal | crawler_foxnews.py:107-120 | The number of distinct URLs never exceeds the number of counted rows, and equals it exactly when no counted URL repeats. |
| LinkStats.StatsOfConcat | crawler_foxnews.py:107-118 | All four statistics of two row blocks together combine those of each block. |
| LinkStats.CountedUrlsConcat | crawler_foxnews.py:107-113 | The counted URLs of two row blocks are those of the first block, then those of the second. |
| LinkStats.StatsOfLinkRows | crawler_foxnews.py:73-76 | Read back, the rows written for one response count one row per link, the response's links as distinct URLs, and its in-site links as OK rows. Its counted URLs are its links, in order. |
| LinkStats.StatsOfUrlLog | crawler_foxnews.py:98-120 | Read back, the whole outgoing-link log counts every row. Its distinct URLs are the extracted set, and its OK rows are the in-site links, repeats included. Its counted URLs are all extracted links, response after response. |
| CrawlHistory.AllLinks | crawler_foxnews.py:60-76 | Every link extracted over a history, in order, repeats included; there are as many as the visit log's Outlinks column adds up to. |
| Counting.ElementsOfDistinct | crawler_foxnews.py:100-120 | A sequence has at most as many distinct values as entries, and exactly as many when none repeats. |
| Counting.FirstSeen | crawler_foxnews.py:69-71 | The key order holds each value once, and exactly the values that occurred. |
| Counting.FirstSeenOrder | crawler_foxnews.py:152-154 | Keys listed in first-seen order: wherever a later key occurs, every earlier key has occurred before it. |
| Counting.CountsPartition | crawler_foxnews.py:69-71 | Per-key counts over a duplicate-free key list covering all values add up to the number of values. |
| Counting.SumValuesUpdate | crawler_foxnews.py:88-96 | Raising one key's count changes the histogram total by exactly that amount. |

## Left out

- Scrapy's crawl machinery is not part of this model: the link-extraction rule and its allowed domains (crawler_foxnews.py:8-19), scheduling, depth limit and the engine's own page-count close setting. The response handler takes the URL, status, body length, Content-Type header and extracted links as parameters.
- Concurrency and the process settings (crawler_foxnews.py:156-164) are left out. Handler calls are modelled one after another, as the engine serialises callbacks on one thread.
- File I/O is replaced by the rows themselves: opening and closing the CSV files, CSV quoting and the header rows (crawler_foxnews.py:42-52, 122-126). The logs are sequences of data rows. `UrlsCounter` reads the data rows of the outgoing-link log, so skipping the header row with `next(reader)` is not modelled.
- Decoding the Content-Type header from UTF-8 bytes (crawler_foxnews.py:59) is left out. The header is already a string, and a decoding error is not modelled.
- Every handler call is assumed to run to completion. In the source, `page_count` is incremented (crawler_foxnews.py:55) before the header is decoded (:59) and the links are extracted (:60), and either of those can raise. A call that raises there leaves `page_count` one higher and nothing else changed. From then on `page_count` exceeds succeeded + failed, both histogram totals and the visit-log length. So the equalities stated by `Invariants` and `ReplayInvariants` hold in the source only for crawls in which no call raised.
- The report's identity lines and section headings (crawler_foxnews.py:131-136, 140, 145, 148, 152) are left out. The report is modelled as its counted (label, count) lines.
- The engine call that closes the spider (crawler_foxnews.py:83-84) is modelled as the returned `closeRequested` flag.
- `urls_extracted`, `file_sizes` and `content_types` are class attributes in Python, shared by every instance of the spider. The model gives each spider object its own fields.
- Spider.FoxNewsSpider.GenerateReport: the relations between report lines that hold only for a spider that started empty and handled responses through `ParseItem` are stated under `Valid()`.
