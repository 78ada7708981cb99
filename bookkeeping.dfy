/**
 The spider's statistics as one value, and what one call of the response
 handler does to it. Replaying the handler over a response history gives
 the statistics the spider holds after that history; the lemmas here show
 that these agree with the declarative functions of the history and keep
 the promised invariants.
 */
module Bookkeeping {
  import opened Counting
  import opened CrawlHistory

  /** Everything the spider counts and logs while it crawls. */
  datatype Stats = Stats(
    pageCount: nat,
    successCount: nat,
    failedCount: nat,
    urlsExtracted: set<string>,
    fileSizes: map<SizeBucket, nat>,
    contentTypes: map<string, nat>,
    contentTypeOrder: seq<string>,   // keys of contentTypes, in insertion order
    fetchLog: seq<FetchRow>,
    visitLog: seq<VisitRow>,
    urlsLog: seq<CsvRow>)

  /** Every size bucket is a key of the histogram. */
  predicate HasBuckets(sizes: map<SizeBucket, nat>)
  {
    Under1KB in sizes && Under10KB in sizes && Under100KB in sizes && Under1MB in sizes && AtLeast1MB in sizes
  }

  /** The size histogram the spider starts with: every bucket at zero. */
  const ZeroSizes: map<SizeBucket, nat> :=
    map[Under1KB := 0, Under10KB := 0, Under100KB := 0, Under1MB := 0, AtLeast1MB := 0]

  /** The statistics before the first response. */
  const Initial: Stats := Stats(0, 0, 0, {}, ZeroSizes, map[], [], [], [], [])

  /** The size histogram after counting one body of `size` bytes. */
  function AddSize(sizes: map<SizeBucket, nat>, size: nat): map<SizeBucket, nat>
    requires HasBuckets(sizes)
  {
    var b := BucketOf(size);
    sizes[b := sizes[b] + 1]
  }

  /** The content-type key order after counting type `t`: a type seen for the first time is appended. */
  function AddTypeKey(order: seq<string>, counts: map<string, nat>, t: string): seq<string>
  {
    if t in counts then order else order + [t]
  }

  /** The content-type counts after counting type `t`: a new type starts at 0, then its count goes up by one. */
  function AddTypeCount(counts: map<string, nat>, t: string): map<string, nat>
  {
    var base := if t in counts then counts else counts[t := 0];
    base[t := base[t] + 1]
  }

  /** What handling one response does to the statistics; the size histogram keeps all five buckets. */
  function Step(s: Stats, r: Response): (next: Stats)
    requires HasBuckets(s.fileSizes)
    ensures HasBuckets(next.fileSizes)
  {
    var n := s.pageCount + 1;
    var t := ContentType(r);
    Stats(
      n,
      s.successCount + (if r.status == 200 then 1 else 0),
      s.failedCount + (if r.status == 200 then 0 else 1),
      s.urlsExtracted + LinkSet(r.outLinks),
      AddSize(s.fileSizes, r.bodySize),
      AddTypeCount(s.contentTypes, t),
      AddTypeKey(s.contentTypeOrder, s.contentTypes, t),
      if n <= PageCeiling then s.fetchLog + [FetchRow(r.url, r.status)] else s.fetchLog,
      s.visitLog + [VisitRowOf(r)],
      s.urlsLog + LinkRows(r.outLinks))
  }

  /** The statistics after handling every response of `h`, in order, starting from Initial. */
  function Replay(h: seq<Response>): (s: Stats)
    ensures HasBuckets(s.fileSizes)
  {
    if h == [] then Initial else Step(Replay(h[..|h| - 1]), h[|h| - 1])
  }

  /** Replaying one more response is one more step. */
  lemma ReplayAppend(h: seq<Response>, r: Response)
    ensures Replay(h + [r]) == Step(Replay(h), r)
  {
  }

  /**
   One step counts the body in exactly one bucket, the one whose range holds
   its size, so the histogram total goes up by one; it counts one more page.
   */
  lemma StepEffects(s: Stats, r: Response)
    requires HasBuckets(s.fileSizes)
    ensures Step(s, r).pageCount == s.pageCount + 1
    ensures Step(s, r).successCount + Step(s, r).failedCount == s.successCount + s.failedCount + 1
    ensures forall b :: b in AllBuckets ==>
              b in Step(s, r).fileSizes && Step(s, r).fileSizes[b] == s.fileSizes[b] + (if InRange(r.bodySize, b) then 1 else 0)
    ensures SumValues(AllBuckets, Step(s, r).fileSizes) == SumValues(AllBuckets, s.fileSizes) + 1
  {
    var b := BucketOf(r.bodySize);
    BucketOfUnique(r.bodySize);
    assert AllBuckets[Index(b)] == b;
    SumValuesUpdate(AllBuckets, s.fileSizes, b, s.fileSizes[b] + 1);
  }

  /**
   Counting a type: a known type keeps the key order and goes up by one, a
   new one is appended to the key order with count 1; no other count moves.
   */
  lemma AddTypeEffects(order: seq<string>, counts: map<string, nat>, t: string)
    ensures t in counts ==> AddTypeKey(order, counts, t) == order && AddTypeCount(counts, t)[t] == counts[t] + 1
    ensures t !in counts ==> AddTypeKey(order, counts, t) == order + [t] && AddTypeCount(counts, t)[t] == 1
    ensures forall u :: u in AddTypeCount(counts, t) <==> u in counts || u == t
    ensures forall u :: u in counts && u != t ==> AddTypeCount(counts, t)[u] == counts[u]
  {
  }

  // ---------------------------------------------------------------------
  // The replayed statistics are the functions of the history
  // ---------------------------------------------------------------------

  /** The counters count the responses, the successes and the failures. */
  lemma {:induction false} ReplayCounters(h: seq<Response>)
    ensures Replay(h).pageCount == |h|
    ensures Replay(h).successCount == Succeeded(h)
    ensures Replay(h).failedCount == Failed(h)
  {
    if h != [] {
      ReplayCounters(h[..|h| - 1]);
    }
  }

  /** The logs and the extracted set are the history's logs and links. */
  lemma {:induction false} ReplayLogs(h: seq<Response>)
    ensures Replay(h).fetchLog == FetchLog(h)
    ensures Replay(h).visitLog == VisitLog(h)
    ensures Replay(h).urlsLog == UrlLog(h)
    ensures Replay(h).urlsExtracted == Extracted(h)
  {
    if h != [] {
      ReplayCounters(h[..|h| - 1]);
      ReplayLogs(h[..|h| - 1]);
    }
  }

  /** `sizes` holds every bucket, with the number of times it occurs in `bs`. */
  ghost predicate SizesTrack(sizes: map<SizeBucket, nat>, bs: seq<SizeBucket>)
  {
    forall b :: b in AllBuckets ==> b in sizes && sizes[b] == Occurrences(bs, b)
  }

  /** `counts` holds exactly the values of `ts`, each with its count, and `order` lists them in first-seen order. */
  ghost predicate TypesTrack(order: seq<string>, counts: map<string, nat>, ts: seq<string>)
  {
    && order == FirstSeen(ts)
    && (forall t :: t in counts <==> t in order)
    && (forall t :: t in counts ==> counts[t] == Occurrences(ts, t))
  }

  /** Counting one more value in its bucket keeps the size histogram in step. */
  lemma SizesStep(sizes: map<SizeBucket, nat>, bs: seq<SizeBucket>, size: nat)
    requires SizesTrack(sizes, bs)
    ensures HasBuckets(sizes)
    ensures SizesTrack(AddSize(sizes, size), bs + [BucketOf(size)])
  {
  }

  /** Counting one more content type keeps the content-type histogram in step. */
  lemma TypesStep(order: seq<string>, counts: map<string, nat>, ts: seq<string>, t: string)
    requires TypesTrack(order, counts, ts)
    ensures TypesTrack(AddTypeKey(order, counts, t), AddTypeCount(counts, t), ts + [t])
  {
    var ts', order', counts' := ts + [t], AddTypeKey(order, counts, t), AddTypeCount(counts, t);
    assert ts'[..|ts|] == ts;
    OccursIffIn(ts, t);
    assert order' == FirstSeen(ts');
    forall u ensures u in counts' <==> u in order' {
    }
    forall u | u in counts' ensures counts'[u] == Occurrences(ts', u) {
      assert Occurrences(ts', u) == Occurrences(ts, u) + (if t == u then 1 else 0);
    }
  }

  /** The size histogram holds, for every bucket, how many bodies fell in it. */
  lemma {:induction false} ReplaySizes(h: seq<Response>)
    ensures SizesTrack(Replay(h).fileSizes, SizeBuckets(h))
  {
    if h != [] {
      var init := h[..|h| - 1];
      ReplaySizes(init);
      SizesStep(Replay(init).fileSizes, SizeBuckets(init), h[|h| - 1].bodySize);
    }
  }

  /** The content-type histogram holds every type seen, with its count, keyed in first-seen order. */
  lemma {:induction false} ReplayTypes(h: seq<Response>)
    ensures TypesTrack(Replay(h).contentTypeOrder, Replay(h).contentTypes, ContentTypes(h))
  {
    if h != [] {
      var init := h[..|h| - 1];
      ReplayTypes(init);
      TypesStep(Replay(init).contentTypeOrder, Replay(init).contentTypes, ContentTypes(init), ContentType(h[|h| - 1]));
    }
  }

  /** A size histogram in step with a sequence of buckets adds up to its length. */
  lemma SizeHistogramTotal(sizes: map<SizeBucket, nat>, bs: seq<SizeBucket>)
    requires SizesTrack(sizes, bs)
    ensures SumValues(AllBuckets, sizes) == |bs|
  {
    SumValuesOfCounts(AllBuckets, sizes, bs);
    SizeCountsPartition(bs);
  }

  /**
   A content-type histogram in step with a sequence of types adds up to its
   length, lists its keys in first-seen order, and holds no zero count.
   */
  lemma TypeHistogramTotal(order: seq<string>, counts: map<string, nat>, ts: seq<string>)
    requires TypesTrack(order, counts, ts)
    ensures forall t :: t in order ==> t in counts
    ensures SumValues(order, counts) == |ts|
    ensures InFirstSeenOrder(order, ts)
    ensures forall t :: t in counts ==> counts[t] >= 1
  {
    forall t | t in counts ensures counts[t] >= 1 {
      OccursIffIn(ts, t);
    }
    SumValuesOfCounts(order, counts, ts);
    forall t | t in ts ensures t in order {
      var i :| 0 <= i < |ts| && ts[i] == t;
    }
    CountsPartition(order, ts);
    FirstSeenOrder(ts);
  }

  /**
   What the statistics promise after any history: attempts split into
   successes and failures, both histograms add up to the attempts, the
   content types are listed in first-seen order and each was seen, the fetch
   log stops at the ceiling, the visit log has a row per attempt, and the
   outgoing-link log has a well-formed row per extracted link.
   */
  lemma ReplayInvariants(h: seq<Response>)
    ensures var s := Replay(h);
      && s.pageCount == |h|
      && s.successCount + s.failedCount == s.pageCount
      && SumValues(AllBuckets, s.fileSizes) == s.pageCount
      && (forall t :: t in s.contentTypeOrder ==> t in s.contentTypes)
      && SumValues(s.contentTypeOrder, s.contentTypes) == s.pageCount
      && InFirstSeenOrder(s.contentTypeOrder, ContentTypes(h))
      && (forall t :: t in s.contentTypes ==> s.contentTypes[t] >= 1)
      && |s.fetchLog| == Min(s.pageCount, PageCeiling)
      && |s.visitLog| == s.pageCount
      && |s.urlsLog| == OutLinkTotal(s.visitLog)
      && (forall row :: row in s.urlsLog ==> |row| == 2 && row[1] == Indicator(row[0]))
  {
    var s := Replay(h);
    ReplayCounters(h);
    ReplayLogs(h);
    ReplaySizes(h);
    ReplayTypes(h);
    OutcomesPartition(h);
    SizeHistogramTotal(s.fileSizes, SizeBuckets(h));
    TypeHistogramTotal(s.contentTypeOrder, s.contentTypes, ContentTypes(h));
    UrlLogLength(h);
    UrlLogRowsWellFormed(h);
  }
}
