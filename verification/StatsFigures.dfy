/**
 What the figures of `src/stats.rs` are, record by record: for any test and any
 function that read a record as stated, what is counted and what is summed up.
 */
module StatsFigures {
  import opened Common
  import opened Percentiles
  import opened StatsTally
  import opened Stats

  // ---- Sums and counts ------------------------------------------------------------

  /** Functions that agree on every record have the same total. */
  lemma {:induction false} SameTotal(f: RequestRecord -> nat, g: RequestRecord -> nat, rs: Records)
    requires forall r :: f(r) == g(r)
    ensures Total(f, rs) == Total(g, rs)
  {
    if rs != [] { SameTotal(f, g, rs[..|rs|-1]); }
  }

  /** A total of ones and zeros counts the records that have a one. */
  lemma {:induction false} TotalCounts(f: RequestRecord -> nat, test: RequestRecord -> bool, rs: Records)
    requires forall r :: f(r) == if test(r) then 1 else 0
    ensures Total(f, rs) == |Picked(test, rs)|
  {
    if rs != [] { TotalCounts(f, test, rs[..|rs|-1]); }
  }

  lemma CountsBy(f: RequestRecord -> nat, test: RequestRecord -> bool, rs: Records)
    ensures (forall r :: f(r) == if test(r) then 1 else 0) ==> Total(f, rs) == |Picked(test, rs)|
  {
    if forall r :: f(r) == if test(r) then 1 else 0 { TotalCounts(f, test, rs); }
  }

  lemma SumsBy(f: RequestRecord -> nat, g: RequestRecord -> nat, rs: Records)
    ensures (forall r :: f(r) == g(r)) ==> Total(f, rs) == Total(g, rs)
  {
    if forall r :: f(r) == g(r) { SameTotal(f, g, rs); }
  }

  /** The largest of what `f` reads, or zero. */
  ghost predicate IsLargest(max: nat, f: RequestRecord -> nat, rs: Records) {
    && (forall r | r in rs :: f(r) <= max)
    && (if rs == [] then max == 0 else exists r :: r in rs && f(r) == max)
  }

  lemma LargestExtends(max: nat, f: RequestRecord -> nat, rs: Records, r: RequestRecord)
    requires IsLargest(max, f, rs)
    ensures IsLargest(if max < f(r) then f(r) else max, f, rs + [r])
  {
    assert r in rs + [r];
    if rs != [] {
      var s :| s in rs && f(s) == max;
      assert s in rs + [r];
    }
  }

  lemma {:induction false} LongestIsLargest(f: RequestRecord -> nat, rs: Records)
    requires forall r :: f(r) == r.durationMs
    ensures IsLargest(MaxOf(Durations(rs)), f, rs)
  {
    if rs != [] {
      var front, last := rs[..|rs|-1], rs[|rs|-1];
      assert rs == front + [last];
      LongestIsLargest(f, front);
      LargestExtends(MaxOf(Durations(front)), f, front, last);
      MaxAppend(Durations(front), last.durationMs);
    }
  }

  lemma {:induction false} WidestIsLargest(f: RequestRecord -> nat, rs: Records)
    requires forall r :: f(r) == r.tokensIn
    ensures IsLargest(MaxOf(Contexts(rs)), f, rs)
  {
    if rs != [] {
      var front, last := rs[..|rs|-1], rs[|rs|-1];
      assert rs == front + [last];
      WidestIsLargest(f, front);
      LargestExtends(MaxOf(Contexts(front)), f, front, last);
      ContextsLast(rs);
    }
  }

  // ---- Samples ------------------------------------------------------------------------

  /** Every record is a sample of its duration. */
  lemma {:induction false} DurationsAreSampled(rs: Records)
    ensures |Durations(rs)| == |rs|
    ensures forall i | 0 <= i < |rs| :: Durations(rs)[i] == rs[i].durationMs
  {
    if rs != [] { DurationsAreSampled(rs[..|rs|-1]); }
  }

  /** Every record that reports a first byte is a sample of the time to it. */
  lemma {:induction false} FirstBytesAreSampled(test: RequestRecord -> bool, rs: Records)
    requires forall r :: test(r) <==> r.ttftMs.Some?
    ensures |Ttfts(rs)| == |Picked(test, rs)|
    ensures forall i | 0 <= i < |Ttfts(rs)| :: Picked(test, rs)[i].ttftMs == Some(Ttfts(rs)[i])
  {
    if rs != [] { FirstBytesAreSampled(test, rs[..|rs|-1]); }
  }

  // ---- One bucket ---------------------------------------------------------------------

  /** The counts of a bucket count the records that pass the stated tests. */
  lemma BucketCounts(tsMs: nat, test: RequestRecord -> bool, rs: Records)
    ensures var c := BucketOf(tsMs, rs).tally.counts;
      && c.count == |rs|
      && ((forall r :: test(r) <==> r.status >= 400) ==> c.errors == |Picked(test, rs)|)
      && ((forall r :: test(r) <==> r.status == 429 || r.status == 503) ==> c.throttled == |Picked(test, rs)|)
      && ((forall r :: test(r) <==> r.cached || r.cachedTokens > 0 || r.cacheCreationTokens > 0) ==>
            c.cached == |Picked(test, rs)|)
  {
    CountsBy(IsError, test, rs);
    CountsBy(IsThrottled, test, rs);
    CountsBy(TouchesCache, test, rs);
  }

  /** The sums of a bucket are sums of what the records hold. */
  lemma BucketSums(tsMs: nat, f: RequestRecord -> nat, rs: Records)
    ensures var c := BucketOf(tsMs, rs).tally.counts;
      && ((forall r :: f(r) == r.tokensIn) ==> c.tokensIn == Total(f, rs))
      && ((forall r :: f(r) == r.tokensOut) ==> c.tokensOut == Total(f, rs))
      && ((forall r :: f(r) == r.cachedTokens) ==> c.cachedTokens == Total(f, rs))
      && ((forall r :: f(r) == r.cacheCreationTokens) ==> c.cacheCreationTokens == Total(f, rs))
      && ((forall r :: f(r) == r.durationMs) ==> IsLargest(c.maxLatencyMs, f, rs))
  {
    SumsBy(f, TokensIn, rs);
    SumsBy(f, TokensOut, rs);
    SumsBy(f, CachedTokens, rs);
    SumsBy(f, CreationTokens, rs);
    if forall r :: f(r) == r.durationMs { LongestIsLargest(f, rs); }
  }

  /** A bucket has an entry for every model that occurs in it, with the figures of that model's records. */
  lemma BucketByModel(
      tsMs: nat, model: string, test: RequestRecord -> bool, f: RequestRecord -> nat, rs: Records)
    requires forall r :: test(r) <==> r.model == model
    ensures var byModel, own := BucketOf(tsMs, rs).tally.byModel, Picked(test, rs);
      && (model in byModel <==> own != [])
      && (model in byModel ==>
            && byModel[model].count == |own|
            && ((forall r :: f(r) == r.durationMs) ==> byModel[model].latencySumMs == Total(f, own))
            && ((forall r :: f(r) == r.tokensIn) ==> byModel[model].tokensIn == Total(f, own))
            && ((forall r :: f(r) == r.tokensOut) ==> byModel[model].tokensOut == Total(f, own)))
  {
    SamePicked(test, OfModel(model), rs);
    NonePickedIff(test, rs);
    var own := Picked(test, rs);
    SumsBy(f, DurationMs, own);
    SumsBy(f, TokensIn, own);
    SumsBy(f, TokensOut, own);
  }

  lemma {:induction false} SamePicked(a: RequestRecord -> bool, b: RequestRecord -> bool, rs: Records)
    requires forall r :: a(r) <==> b(r)
    ensures Picked(a, rs) == Picked(b, rs)
  {
    if rs != [] { SamePicked(a, b, rs[..|rs|-1]); }
  }

  /** The rate times the prompt tokens is the cached tokens; without prompt tokens it is zero. */
  predicate IsRate(rate: real, cachedTokens: nat, tokensIn: nat) {
    if tokensIn == 0 then rate == 0.0 else rate * tokensIn as real == cachedTokens as real
  }

  lemma RateIsExact(cachedTokens: nat, tokensIn: nat)
    ensures IsRate(HitRate(cachedTokens, tokensIn), cachedTokens, tokensIn)
  {
    if tokensIn > 0 { QuotientTimes(cachedTokens as real, tokensIn as real); }
  }

  /** The record belongs to the `i`-th span of the window. */
  predicate InSpan(q: Query, i: nat, r: RequestRecord) {
    && q.startMs + i * q.bucketMs <= r.tsMs < q.startMs + (i + 1) * q.bucketMs && r.tsMs <= q.nowMs
    && (q.model == None || q.model == Some(r.model))
  }

  lemma SpanIsBucket(q: Query, i: nat, r: RequestRecord)
    requires q.bucketMs > 0
    ensures IsInBucket(q, i, r) <==> InSpan(q, i, r)
  {
    assert (i + 1) * q.bucketMs == i * q.bucketMs + q.bucketMs;
    if q.startMs <= r.tsMs { QuotientRange(r.tsMs - q.startMs, q.bucketMs, i); }
  }

  /** The times and the rate of a bucket: those of its own samples and tokens. */
  ghost predicate IsExactBucket(b: StatsBucket, tsMs: nat, rs: Records) {
    && b.tsMs == tsMs
    && IsTimingOf(b.latency, Durations(rs))
    && IsTimingOf(b.ttft, Ttfts(rs))
    && IsRate(b.cacheHitRate, b.tally.counts.cachedTokens, b.tally.counts.tokensIn)
  }

  lemma BucketIsExact(tsMs: nat, rs: Records)
    ensures IsExactBucket(BucketOf(tsMs, rs), tsMs, rs)
  {
    TimingIsExact(Durations(rs));
    TimingIsExact(Ttfts(rs));
    RateIsExact(Total(CachedTokens, rs), Total(TokensIn, rs));
  }

  /**
   The buckets of a query: each starts where the one before ends, holds the matching
   records of its span up to the clock, and reports their average and percentiles.
   */
  lemma BucketsAreExact(q: Query, rs: Records, buckets: seq<StatsBucket>, i: nat, test: RequestRecord -> bool)
    requires q.bucketMs > 0 && AreBuckets(q, rs, buckets) && i < |buckets|
    requires forall r :: test(r) <==> InSpan(q, i, r)
    ensures buckets[i] == BucketOf(q.startMs + i * q.bucketMs, Picked(test, rs))
    ensures IsExactBucket(buckets[i], q.startMs + i * q.bucketMs, Picked(test, rs))
  {
    forall r ensures test(r) <==> InBucket(q, i)(r) {
      SpanIsBucket(q, i, r);
    }
    SamePicked(test, InBucket(q, i), rs);
    assert buckets[i] == BucketAt(q, rs)(i);
    BucketIsExact(q.startMs + i * q.bucketMs, Picked(test, rs));
  }

  /** The window: it starts `windowMs` before the clock, or with it, and holds as many whole buckets as fit, or one. */
  lemma WindowIsExact(windowMs: nat, bucketMs: nat, nowMs: nat)
    requires bucketMs > 0
    ensures nowMs >= windowMs ==> StartOf(nowMs, windowMs) + windowMs == nowMs
    ensures nowMs < windowMs ==> StartOf(nowMs, windowMs) == 0
    ensures var n := NumBuckets(windowMs, bucketMs);
      if windowMs < bucketMs then n == 1 else n * bucketMs <= windowMs < (n + 1) * bucketMs
  {
    QuotientRange(windowMs, bucketMs, windowMs / bucketMs);
    assert (windowMs / bucketMs + 1) * bucketMs == windowMs / bucketMs * bucketMs + bucketMs;
  }

  // ---- The summary ------------------------------------------------------------------------

  lemma SummaryCounts(test: RequestRecord -> bool, rs: Records)
    ensures var s := SummaryOf(rs);
      && s.count == |rs|
      && ((forall r :: test(r) <==> r.status >= 400) ==> s.errors == |Picked(test, rs)|)
      && ((forall r :: test(r) <==> r.status == 429 || r.status == 503) ==> s.throttled == |Picked(test, rs)|)
      && ((forall r :: test(r) <==> r.cached) ==> s.cached == |Picked(test, rs)|)
  {
    CountsBy(IsError, test, rs);
    CountsBy(IsThrottled, test, rs);
    CountsBy(FlaggedCached, test, rs);
  }

  lemma SummarySums(f: RequestRecord -> nat, rs: Records)
    ensures var s := SummaryOf(rs);
      && ((forall r :: f(r) == r.tokensIn) ==> s.tokensIn == Total(f, rs) && IsLargest(s.maxContextTokens, f, rs))
      && ((forall r :: f(r) == r.tokensOut) ==> s.tokensOut == Total(f, rs))
      && ((forall r :: f(r) == r.cachedTokens) ==> s.cachedTokens == Total(f, rs))
      && ((forall r :: f(r) == r.cacheCreationTokens) ==> s.cacheCreationTokens == Total(f, rs))
  {
    SumsBy(f, TokensIn, rs);
    SumsBy(f, TokensOut, rs);
    SumsBy(f, CachedTokens, rs);
    SumsBy(f, CreationTokens, rs);
    if forall r :: f(r) == r.tokensIn { WidestIsLargest(f, rs); }
  }

  /** Generation is measured from the first byte on, where one is reported before the end. */
  lemma SummaryGeneration(f: RequestRecord -> nat, rs: Records)
    ensures var s := SummaryOf(rs);
      && ((forall r :: f(r) == match r.ttftMs
             case Some(first) => (if first < r.durationMs then r.tokensOut else 0)
             case None => 0) ==> s.genTokensOut == Total(f, rs))
      && ((forall r :: f(r) == match r.ttftMs
             case Some(first) => (if first < r.durationMs then r.durationMs - first else 0)
             case None => 0) ==> s.genTimeMs == Total(f, rs))
  {
    SumsBy(f, GenTokens, rs);
    SumsBy(f, GenTimeMs, rs);
  }

  /** The averages and the rate of a summary; without samples they are zero. */
  lemma SummaryAverages(rs: Records)
    ensures var s := SummaryOf(rs);
      && IsAverage(Durations(rs), s.avgLatencyMs) && (Durations(rs) == [] ==> s.avgLatencyMs == 0.0)
      && IsAverage(Ttfts(rs), s.avgTtftMs) && (Ttfts(rs) == [] ==> s.avgTtftMs == 0.0)
      && IsRate(s.cacheHitRate, s.cachedTokens, s.tokensIn)
  {
    AverageIsExact(Durations(rs));
    AverageIsExact(Ttfts(rs));
    RateIsExact(Total(CachedTokens, rs), Total(TokensIn, rs));
  }

  /** What a summary is of: the matching records since the start of the window. */
  lemma SummaryRecords(startMs: nat, model: Option<string>, test: RequestRecord -> bool, rs: Records)
    requires forall r :: test(r) <==> startMs <= r.tsMs && (model == None || model == Some(r.model))
    ensures Picked(Relevant(startMs, model), rs) == Picked(test, rs)
  {
    SamePicked(test, Relevant(startMs, model), rs);
  }

  /** The records kept are the last ones, as many as fit, and always at least one. */
  lemma NewestIsExact(all: Records, maxRecords: nat)
    ensures var kept := Newest(all, maxRecords);
      && (exists older :: all == older + kept)
      && (maxRecords > 0 ==> |kept| == if |all| < maxRecords then |all| else maxRecords)
      && (maxRecords == 0 ==> |kept| == if all == [] then 0 else 1)
  {
    var kept := Newest(all, maxRecords);
    assert all == all[..|all| - |kept|] + kept;
  }
}
