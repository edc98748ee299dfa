/**
 Request statistics, `src/stats.rs`, as far as they are kept in memory: a ring
 of records, aggregated into time buckets and a summary. The clock is a parameter.
 */
module Stats {
  import opened Common
  import opened UsageParse
  import opened Percentiles
  import opened StatsTally

  // ---- Buckets --------------------------------------------------------------------

  datatype Query = Query(startMs: nat, nowMs: nat, bucketMs: nat, model: Option<string>)

  predicate Matches(model: Option<string>, r: RequestRecord) {
    model.Some? ==> r.model == model.value
  }

  /** `now_ms.saturating_sub(window_ms)`. */
  function StartOf(nowMs: nat, windowMs: nat): nat {
    if windowMs <= nowMs then nowMs - windowMs else 0
  }

  function NumBuckets(windowMs: nat, bucketMs: nat): nat
    requires bucketMs > 0
  {
    if windowMs / bucketMs < 1 then 1 else windowMs / bucketMs
  }

  predicate IsInBucket(q: Query, i: nat, r: RequestRecord) {
    && q.bucketMs > 0 && q.startMs <= r.tsMs <= q.nowMs && Matches(q.model, r)
    && (r.tsMs - q.startMs) / q.bucketMs == i
  }

  function InBucket(q: Query, i: nat): RequestRecord -> bool {
    (r: RequestRecord) => IsInBucket(q, i, r)
  }

  function Members(q: Query, i: nat, rs: Records): Records {
    Picked(InBucket(q, i), rs)
  }

  datatype StatsBucket = StatsBucket(tsMs: nat, tally: Tally, latency: Timing, ttft: Timing, cacheHitRate: real)

  function HitRate(cachedTokens: nat, tokensIn: nat): real {
    if tokensIn > 0 then cachedTokens as real / tokensIn as real else 0.0
  }

  /** The bucket that starts at `tsMs` and holds these records. */
  function BucketOf(tsMs: nat, rs: Records): StatsBucket {
    StatsBucket(tsMs, TallyOf(rs), TimingOf(Durations(rs)), TimingOf(Ttfts(rs)),
                HitRate(Total(CachedTokens, rs), Total(TokensIn, rs)))
  }

  function BucketStart(q: Query, i: nat): nat {
    q.startMs + i * q.bucketMs
  }

  function BucketAt(q: Query, rs: Records): nat -> StatsBucket {
    (i: nat) => BucketOf(BucketStart(q, i), Members(q, i, rs))
  }

  ghost predicate AreBuckets(q: Query, rs: Records, buckets: seq<StatsBucket>) {
    forall i | 0 <= i < |buckets| :: buckets[i] == BucketAt(q, rs)(i)
  }

  /** What is collected for a bucket: its counts, latencies and first-byte times. */
  datatype Slot = Slot(tally: Tally, latencies: seq<nat>, ttfts: seq<nat>)

  function SlotOf(rs: Records): Slot {
    Slot(TallyOf(rs), Durations(rs), Ttfts(rs))
  }

  function Counted(s: Slot, r: RequestRecord): Slot {
    Slot(Added(s.tally, r), s.latencies + [r.durationMs], s.ttfts + TtftOf(r))
  }

  lemma SlotAppend(rs: Records, r: RequestRecord)
    ensures SlotOf(rs + [r]) == Counted(SlotOf(rs), r)
  {
    TallyAppend(rs, r);
    SamplesAppend(rs, r);
  }

  ghost predicate AreSlots(q: Query, rs: Records, slots: seq<Slot>) {
    forall i | 0 <= i < |slots| :: slots[i] == SlotOf(Members(q, i, rs))
  }

  lemma SlotPicked(test: RequestRecord -> bool, rs: Records, r: RequestRecord)
    ensures SlotOf(Picked(test, rs + [r])) ==
      if test(r) then Counted(SlotOf(Picked(test, rs)), r) else SlotOf(Picked(test, rs))
  {
    PickedAppend(test, rs, r);
    if test(r) {
      SlotAppend(Picked(test, rs), r);
    } else {
      assert Picked(test, rs) + [] == Picked(test, rs);
    }
  }

  lemma SlotStep(q: Query, rs: Records, r: RequestRecord, i: nat)
    ensures SlotOf(Members(q, i, rs + [r])) ==
      if IsInBucket(q, i, r) then Counted(SlotOf(Members(q, i, rs)), r) else SlotOf(Members(q, i, rs))
  {
    SlotPicked(InBucket(q, i), rs, r);
  }

  lemma SlotsStep(q: Query, rs: Records, r: RequestRecord, slots: seq<Slot>, after: seq<Slot>)
    requires AreSlots(q, rs, slots) && |after| == |slots|
    requires forall i | 0 <= i < |slots| ::
      after[i] == if IsInBucket(q, i, r) then Counted(slots[i], r) else slots[i]
    ensures AreSlots(q, rs + [r], after)
  {
    forall i | 0 <= i < |after| ensures after[i] == SlotOf(Members(q, i, rs + [r])) {
      SlotStep(q, rs, r, i);
    }
  }

  /** One pass of the loop over the records: at most one bucket counts the record. */
  method CountRecord(q: Query, slots: seq<Slot>, rec: RequestRecord) returns (after: seq<Slot>)
    requires q.bucketMs > 0
    ensures |after| == |slots|
    ensures forall i | 0 <= i < |slots| ::
      after[i] == if IsInBucket(q, i, rec) then Counted(slots[i], rec) else slots[i]
  {
    if rec.tsMs < q.startMs || rec.tsMs > q.nowMs { return slots; }
    if q.model.Some? && rec.model != q.model.value { return slots; }
    var bi := (rec.tsMs - q.startMs) / q.bucketMs;
    if bi >= |slots| { return slots; }
    after := slots[bi := Counted(slots[bi], rec)];
  }

  lemma NoRecords(q: Query, n: nat)
    ensures AreSlots(q, [], seq(n, _ => Slot(EMPTY, [], [])))
  {
    assert ByModel([]) == map[];
  }

  method CountRecords(q: Query, n: nat, records: Records) returns (slots: seq<Slot>)
    requires q.bucketMs > 0
    ensures |slots| == n && AreSlots(q, records, slots)
  {
    NoRecords(q, n);
    slots := seq(n, _ => Slot(EMPTY, [], []));
    for k := 0 to |records|
      invariant |slots| == n && AreSlots(q, records[..k], slots)
    {
      var after := CountRecord(q, slots, records[k]);
      SlotsStep(q, records[..k], records[k], slots, after);
      assert records[..k+1] == records[..k] + [records[k]];
      slots := after;
    }
    assert records[..|records|] == records;
  }

  /** Averages, percentiles and the hit rate of one bucket; an empty one keeps its zeros. */
  method FinishBucket(tsMs: nat, slot: Slot, ghost rs: Records) returns (bucket: StatsBucket)
    requires slot == SlotOf(rs)
    ensures bucket == BucketOf(tsMs, rs)
  {
    bucket := StatsBucket(tsMs, slot.tally, NO_TIMING, NO_TIMING, 0.0);
    if slot.tally.counts.count == 0 { return; }
    bucket := bucket.(latency := TimingOf(slot.latencies));
    if slot.ttfts != [] { bucket := bucket.(ttft := TimingOf(slot.ttfts)); }
    if slot.tally.counts.tokensIn > 0 {
      bucket := bucket.(cacheHitRate := slot.tally.counts.cachedTokens as real / slot.tally.counts.tokensIn as real);
    }
  }

  lemma Extended<T>(s: seq<T>, at: nat -> T, x: T)
    requires (forall i | 0 <= i < |s| :: s[i] == at(i)) && x == at(|s|)
    ensures forall i | 0 <= i < |s + [x]| :: (s + [x])[i] == at(i)
  {
  }

  method FinishBuckets(q: Query, slots: seq<Slot>, ghost rs: Records) returns (buckets: seq<StatsBucket>)
    requires AreSlots(q, rs, slots)
    ensures |buckets| == |slots| && AreBuckets(q, rs, buckets)
  {
    buckets := [];
    for i := 0 to |slots|
      invariant |buckets| == i && AreBuckets(q, rs, buckets)
    {
      var bucket := FinishBucket(BucketStart(q, i), slots[i], Members(q, i, rs));
      Extended(buckets, BucketAt(q, rs), bucket);
      buckets := buckets + [bucket];
    }
  }

  // ---- The summary ---------------------------------------------------------------------

  datatype StatsSummary = StatsSummary(
    count: nat,
    errors: nat,
    throttled: nat,
    cached: nat,
    cachedTokens: nat,
    cacheCreationTokens: nat,
    cacheHitRate: real,
    tokensIn: nat,
    tokensOut: nat,
    avgLatencyMs: real,
    avgTtftMs: real,
    maxContextTokens: nat,
    genTokensOut: nat,
    genTimeMs: nat)

  /** Only requests that report a first byte and took longer have a generation time. */
  predicate Generates(r: RequestRecord) {
    r.ttftMs.Some? && r.durationMs > r.ttftMs.value
  }

  function GenTokens(r: RequestRecord): nat { if Generates(r) then r.tokensOut else 0 }
  function GenTimeMs(r: RequestRecord): nat { if Generates(r) then r.durationMs - r.ttftMs.value else 0 }

  function Contexts(rs: Records): seq<nat> {
    if rs == [] then [] else Contexts(rs[..|rs|-1]) + [rs[|rs|-1].tokensIn]
  }

  function Relevant(startMs: nat, model: Option<string>): RequestRecord -> bool {
    (r: RequestRecord) => r.tsMs >= startMs && Matches(model, r)
  }

  function SummaryOf(rs: Records): StatsSummary {
    StatsSummary(|rs|, Total(IsError, rs), Total(IsThrottled, rs), Total(FlaggedCached, rs),
                 Total(CachedTokens, rs), Total(CreationTokens, rs),
                 HitRate(Total(CachedTokens, rs), Total(TokensIn, rs)),
                 Total(TokensIn, rs), Total(TokensOut, rs), Average(Durations(rs)), Average(Ttfts(rs)),
                 MaxOf(Contexts(rs)), Total(GenTokens, rs), Total(GenTimeMs, rs))
  }

  lemma {:induction false} TotalAtMost(f: RequestRecord -> nat, g: RequestRecord -> nat, rs: Records)
    requires forall r :: f(r) <= g(r)
    ensures Total(f, rs) <= Total(g, rs)
  {
    if rs != [] { TotalAtMost(f, g, rs[..|rs|-1]); }
  }

  lemma ContextsLast(rs: Records)
    requires rs != []
    ensures var m, last := MaxOf(Contexts(rs[..|rs|-1])), rs[|rs|-1].tokensIn;
      MaxOf(Contexts(rs)) == if m < last then last else m
  {
    MaxAppend(Contexts(rs[..|rs|-1]), rs[|rs|-1].tokensIn);
  }

  lemma {:induction false} ContextBound(rs: Records)
    ensures MaxOf(Contexts(rs)) <= Total(TokensIn, rs)
  {
    if rs != [] {
      ContextsLast(rs);
      ContextBound(rs[..|rs|-1]);
    }
  }

  lemma {:induction false} LargestContext(rs: Records) returns (k: nat)
    requires rs != []
    ensures k < |rs| && rs[k].tokensIn == MaxOf(Contexts(rs))
  {
    var n := |rs| - 1;
    k := n;
    ContextsLast(rs);
    if n > 0 && rs[n].tokensIn <= MaxOf(Contexts(rs[..n])) { k := LargestContext(rs[..n]); }
  }

  /** What is generated in measured time is part of all there is, and the largest context is one of the contexts. */
  lemma SummaryIsConsistent(rs: Records)
    ensures var s := SummaryOf(rs);
      && s.genTokensOut <= s.tokensOut && s.genTimeMs <= Total(DurationMs, rs)
      && s.maxContextTokens <= s.tokensIn && s.errors <= s.count && s.throttled <= s.errors
      && (s.count > 0 ==> exists k :: 0 <= k < |rs| && rs[k].tokensIn == s.maxContextTokens)
  {
    TotalAtMost(GenTokens, TokensOut, rs);
    TotalAtMost(GenTimeMs, DurationMs, rs);
    TotalAtMost(IsError, One, rs);
    TotalAtMost(IsThrottled, IsError, rs);
    TotalOfOnes(rs);
    ContextBound(rs);
    if rs != [] { var k := LargestContext(rs); }
  }

  /** What the summary's passes over the relevant records add up. */
  datatype Folds = Folds(
    count: nat,
    errors: nat,
    throttled: nat,
    cached: nat,
    cachedTokens: nat,
    cacheCreationTokens: nat,
    tokensIn: nat,
    tokensOut: nat,
    latencySumMs: nat,
    ttfts: seq<nat>,
    maxContextTokens: nat,
    genTokensOut: nat,
    genTimeMs: nat)

  const NO_FOLDS := Folds(0, 0, 0, 0, 0, 0, 0, 0, 0, [], 0, 0, 0)

  function FoldsOf(rs: Records): Folds {
    Folds(|rs|, Total(IsError, rs), Total(IsThrottled, rs), Total(FlaggedCached, rs),
          Total(CachedTokens, rs), Total(CreationTokens, rs), Total(TokensIn, rs), Total(TokensOut, rs),
          Sum(Durations(rs)), Ttfts(rs), MaxOf(Contexts(rs)), Total(GenTokens, rs), Total(GenTimeMs, rs))
  }

  function AddedToFolds(f: Folds, r: RequestRecord): Folds {
    Folds(
      f.count + 1,
      f.errors + IsError(r),
      f.throttled + IsThrottled(r),
      f.cached + FlaggedCached(r),
      f.cachedTokens + r.cachedTokens,
      f.cacheCreationTokens + r.cacheCreationTokens,
      f.tokensIn + r.tokensIn,
      f.tokensOut + r.tokensOut,
      f.latencySumMs + r.durationMs,
      f.ttfts + TtftOf(r),
      if f.maxContextTokens < r.tokensIn then r.tokensIn else f.maxContextTokens,
      f.genTokensOut + GenTokens(r),
      f.genTimeMs + GenTimeMs(r))
  }

  lemma ContextsAppend(rs: Records, r: RequestRecord)
    ensures Contexts(rs + [r]) == Contexts(rs) + [r.tokensIn]
  {
    assert (rs + [r])[..|rs|] == rs;
  }

  lemma SumAppend(s: seq<nat>, x: nat)
    ensures Sum(s + [x]) == Sum(s) + x
  {
    assert (s + [x])[..|s|] == s;
  }

  lemma FoldsAppend(rs: Records, r: RequestRecord)
    ensures FoldsOf(rs + [r]) == AddedToFolds(FoldsOf(rs), r)
  {
    TotalsAppend(rs, r);
    SamplesAppend(rs, r);
    ContextsAppend(rs, r);
    TotalAppend(FlaggedCached, rs, r);
    TotalAppend(GenTokens, rs, r);
    TotalAppend(GenTimeMs, rs, r);
    SumAppend(Durations(rs), r.durationMs);
    MaxAppend(Contexts(rs), r.tokensIn);
  }

  /** One relevant record goes into every fold. */
  method FoldRecord(f: Folds, r: RequestRecord) returns (after: Folds)
    ensures after == AddedToFolds(f, r)
  {
    after := f.(count := f.count + 1, latencySumMs := f.latencySumMs + r.durationMs);
    if r.status >= 400 { after := after.(errors := f.errors + 1); }
    if r.status == 429 || r.status == 503 { after := after.(throttled := f.throttled + 1); }
    if r.cached { after := after.(cached := f.cached + 1); }
    after := after.(
      cachedTokens := f.cachedTokens + r.cachedTokens,
      cacheCreationTokens := f.cacheCreationTokens + r.cacheCreationTokens,
      tokensIn := f.tokensIn + r.tokensIn,
      tokensOut := f.tokensOut + r.tokensOut);
    if f.maxContextTokens < r.tokensIn { after := after.(maxContextTokens := r.tokensIn); }
    match r.ttftMs {
      case Some(ttft) =>
        after := after.(ttfts := f.ttfts + [ttft]);
        if r.durationMs > ttft {
          after := after.(
            genTokensOut := f.genTokensOut + r.tokensOut,
            genTimeMs := f.genTimeMs + (r.durationMs - ttft));
        }
      case None =>
    }
  }

  lemma FoldsPicked(test: RequestRecord -> bool, rs: Records, r: RequestRecord)
    ensures FoldsOf(Picked(test, rs + [r])) ==
      if test(r) then AddedToFolds(FoldsOf(Picked(test, rs)), r) else FoldsOf(Picked(test, rs))
  {
    PickedAppend(test, rs, r);
    if test(r) {
      FoldsAppend(Picked(test, rs), r);
    } else {
      assert Picked(test, rs) + [] == Picked(test, rs);
    }
  }

  method FoldRecords(records: Records, startMs: nat, model: Option<string>) returns (f: Folds)
    ensures f == FoldsOf(Picked(Relevant(startMs, model), records))
  {
    f := NO_FOLDS;
    for k := 0 to |records|
      invariant f == FoldsOf(Picked(Relevant(startMs, model), records[..k]))
    {
      FoldsPicked(Relevant(startMs, model), records[..k], records[k]);
      assert records[..k+1] == records[..k] + [records[k]];
      if records[k].tsMs >= startMs && (model.None? || records[k].model == model.value) {
        f := FoldRecord(f, records[k]);
      }
    }
    assert records[..|records|] == records;
  }

  /** Rates and averages from the folds; without records they are zero. */
  method FinishSummary(f: Folds, ghost rs: Records) returns (summary: StatsSummary)
    requires f == FoldsOf(rs)
    ensures summary == SummaryOf(rs)
  {
    DurationCount(rs);
    var hitRate, latency, ttft := 0.0, 0.0, 0.0;
    if f.tokensIn > 0 { hitRate := f.cachedTokens as real / f.tokensIn as real; }
    if f.count > 0 { latency := f.latencySumMs as real / f.count as real; }
    if f.ttfts != [] { ttft := Sum(f.ttfts) as real / |f.ttfts| as real; }
    summary := StatsSummary(f.count, f.errors, f.throttled, f.cached, f.cachedTokens, f.cacheCreationTokens, hitRate,
      f.tokensIn, f.tokensOut, latency, ttft, f.maxContextTokens, f.genTokensOut, f.genTimeMs);
  }

  lemma {:induction false} DurationCount(rs: Records)
    ensures |Durations(rs)| == |rs|
  {
    if rs != [] { DurationCount(rs[..|rs|-1]); }
  }

  // ---- The collector -----------------------------------------------------------------------

  /** The records that are kept of all there were: even with no capacity, the newest. */
  ghost function Newest(all: Records, maxRecords: nat): Records {
    var n := if maxRecords == 0 then 1 else maxRecords;
    if |all| <= n then all else all[|all| - n..]
  }

  class StatsCollector {
    var records: Records
    const maxRecords: nat
    /** Every record so far. */
    ghost var all: Records

    ghost predicate Valid()
      reads this
    {
      records == Newest(all, maxRecords)
    }

    constructor (max: nat)
      ensures Valid() && maxRecords == max && all == []
    {
      records, maxRecords, all := [], max, [];
    }

    method Record(rec: RequestRecord)
      requires Valid()
      modifies this
      ensures Valid() && all == old(all) + [rec]
    {
      if |records| >= maxRecords && records != [] { records := records[1..]; }
      records := records + [rec];
      all := all + [rec];
    }

    method Buckets(windowMs: nat, bucketMs: nat, model: Option<string>, nowMs: nat) returns (buckets: seq<StatsBucket>)
      requires Valid() && bucketMs > 0
      ensures |buckets| == NumBuckets(windowMs, bucketMs)
      ensures AreBuckets(Query(StartOf(nowMs, windowMs), nowMs, bucketMs, model), Newest(all, maxRecords), buckets)
    {
      var q := Query(StartOf(nowMs, windowMs), nowMs, bucketMs, model);
      var slots := CountRecords(q, NumBuckets(windowMs, bucketMs), records);
      buckets := FinishBuckets(q, slots, records);
    }

    method Summary(windowMs: nat, model: Option<string>, nowMs: nat) returns (summary: StatsSummary)
      requires Valid()
      ensures summary == SummaryOf(Picked(Relevant(StartOf(nowMs, windowMs), model), Newest(all, maxRecords)))
    {
      var folds := FoldRecords(records, StartOf(nowMs, windowMs), model);
      summary := FinishSummary(folds, Picked(Relevant(StartOf(nowMs, windowMs), model), records));
    }
  }

  // ---- The buckets partition the window ---------------------------------------------------------

  predicate IsInWindow(q: Query, n: nat, r: RequestRecord) {
    && q.startMs <= r.tsMs <= q.nowMs && Matches(q.model, r)
    && r.tsMs < q.startMs + n * q.bucketMs
  }

  function InWindow(q: Query, n: nat): RequestRecord -> bool {
    (r: RequestRecord) => IsInWindow(q, n, r)
  }

  lemma QuotientRange(x: nat, b: nat, i: nat)
    requires b > 0
    ensures x / b == i <==> i * b <= x < i * b + b
  {
    assert x == b * (x / b) + x % b;
    if x / b < i { Times(x / b + 1, i, b); }
    if x / b > i { Times(i + 1, x / b, b); }
  }

  lemma Times(a: nat, c: nat, b: nat)
    requires a <= c
    ensures a * b <= c * b
  {
  }

  /** A record in the window is in the bucket its time says and in no other. */
  lemma ExactlyOneBucket(q: Query, n: nat, r: RequestRecord)
    requires q.bucketMs > 0
    ensures IsInWindow(q, n, r) <==> exists i :: 0 <= i < n && IsInBucket(q, i, r)
    ensures forall i: nat, j: nat | IsInBucket(q, i, r) && IsInBucket(q, j, r) :: i == j
  {
    if q.startMs <= r.tsMs {
      var i := (r.tsMs - q.startMs) / q.bucketMs;
      QuotientRange(r.tsMs - q.startMs, q.bucketMs, i);
      if i < n { Times(i + 1, n, q.bucketMs); } else { Times(n, i, q.bucketMs); }
      if IsInWindow(q, n, r) { assert IsInBucket(q, i, r); }
    }
  }

  lemma OneMoreBucket(q: Query, n: nat, r: RequestRecord)
    requires q.bucketMs > 0
    ensures IsInWindow(q, n + 1, r) <==> IsInWindow(q, n, r) || IsInBucket(q, n, r)
    ensures !(IsInWindow(q, n, r) && IsInBucket(q, n, r))
  {
    if q.startMs <= r.tsMs { QuotientRange(r.tsMs - q.startMs, q.bucketMs, n); }
    assert (n + 1) * q.bucketMs == n * q.bucketMs + q.bucketMs;
  }

  ghost function BucketsTotal(f: RequestRecord -> nat, q: Query, n: nat, rs: Records): nat {
    if n == 0 then 0 else BucketsTotal(f, q, n - 1, rs) + Total(f, Members(q, n - 1, rs))
  }

  /** Whatever is summed up, the buckets' sums add up to that of the window. */
  lemma {:induction false} BucketsPartition(f: RequestRecord -> nat, q: Query, n: nat, rs: Records)
    requires q.bucketMs > 0
    ensures BucketsTotal(f, q, n, rs) == Total(f, Picked(InWindow(q, n), rs))
  {
    if n == 0 {
      PickedNone(InWindow(q, n), rs);
    } else {
      BucketsPartition(f, q, n - 1, rs);
      forall r: RequestRecord
        ensures InWindow(q, n)(r) <==> InWindow(q, n - 1)(r) || InBucket(q, n - 1)(r)
        ensures !(InWindow(q, n - 1)(r) && InBucket(q, n - 1)(r))
      {
        OneMoreBucket(q, n - 1, r);
      }
      TotalSplit(f, InWindow(q, n), InWindow(q, n - 1), InBucket(q, n - 1), rs);
    }
  }

  ghost function SumOver(g: StatsBucket -> nat, buckets: seq<StatsBucket>): nat {
    if buckets == [] then 0 else SumOver(g, buckets[..|buckets|-1]) + g(buckets[|buckets|-1])
  }

  lemma {:induction false} SumOverBuckets(
      g: StatsBucket -> nat, f: RequestRecord -> nat, q: Query, rs: Records, buckets: seq<StatsBucket>)
    requires AreBuckets(q, rs, buckets)
    requires forall t, members :: g(BucketOf(t, members)) == Total(f, members)
    ensures SumOver(g, buckets) == BucketsTotal(f, q, |buckets|, rs)
  {
    if buckets != [] { SumOverBuckets(g, f, q, rs, buckets[..|buckets|-1]); }
  }

  function BucketCount(b: StatsBucket): nat { b.tally.counts.count }
  function BucketErrors(b: StatsBucket): nat { b.tally.counts.errors }
  function BucketTokensIn(b: StatsBucket): nat { b.tally.counts.tokensIn }
  function BucketTokensOut(b: StatsBucket): nat { b.tally.counts.tokensOut }
  function BucketCachedTokens(b: StatsBucket): nat { b.tally.counts.cachedTokens }

  /** A figure summed over the buckets is that figure of the window. */
  lemma BucketsAddUp(g: StatsBucket -> nat, f: RequestRecord -> nat, q: Query, rs: Records, buckets: seq<StatsBucket>)
    requires q.bucketMs > 0 && AreBuckets(q, rs, buckets)
    requires forall t, members :: g(BucketOf(t, members)) == Total(f, members)
    ensures SumOver(g, buckets) == Total(f, Picked(InWindow(q, |buckets|), rs))
  {
    SumOverBuckets(g, f, q, rs, buckets);
    BucketsPartition(f, q, |buckets|, rs);
  }

  lemma CountIsTotal(t: nat, members: Records)
    ensures BucketCount(BucketOf(t, members)) == Total(One, members)
  {
    TotalOfOnes(members);
  }

  /** Counts, errors and tokens of the buckets are those of the records in the window. */
  lemma BucketsConserve(q: Query, rs: Records, buckets: seq<StatsBucket>)
    requires q.bucketMs > 0 && AreBuckets(q, rs, buckets)
    ensures var window := Picked(InWindow(q, |buckets|), rs);
      && SumOver(BucketCount, buckets) == |window|
      && SumOver(BucketErrors, buckets) == Total(IsError, window)
      && SumOver(BucketTokensIn, buckets) == Total(TokensIn, window)
      && SumOver(BucketTokensOut, buckets) == Total(TokensOut, window)
      && SumOver(BucketCachedTokens, buckets) == Total(CachedTokens, window)
  {
    forall t, members ensures BucketCount(BucketOf(t, members)) == Total(One, members) {
      CountIsTotal(t, members);
    }
    BucketsAddUp(BucketCount, One, q, rs, buckets);
    TotalOfOnes(Picked(InWindow(q, |buckets|), rs));
    BucketsAddUp(BucketErrors, IsError, q, rs, buckets);
    BucketsAddUp(BucketTokensIn, TokensIn, q, rs, buckets);
    BucketsAddUp(BucketTokensOut, TokensOut, q, rs, buckets);
    BucketsAddUp(BucketCachedTokens, CachedTokens, q, rs, buckets);
  }

  // ---- Buckets and summary ------------------------------------------------------------------------

  /** Counted in the summary but in no bucket. */
  predicate IsMissed(q: Query, n: nat, r: RequestRecord) {
    r.tsMs >= q.startMs && Matches(q.model, r) && (r.tsMs > q.nowMs || r.tsMs >= q.startMs + n * q.bucketMs)
  }

  function Missed(q: Query, n: nat): RequestRecord -> bool {
    (r: RequestRecord) => IsMissed(q, n, r)
  }

  /** The summary counts what the buckets count and the records they miss. */
  lemma SummarySplits(f: RequestRecord -> nat, q: Query, n: nat, rs: Records)
    requires q.bucketMs > 0
    ensures Total(f, Picked(Relevant(q.startMs, q.model), rs)) ==
      BucketsTotal(f, q, n, rs) + Total(f, Picked(Missed(q, n), rs))
  {
    BucketsPartition(f, q, n, rs);
    TotalSplit(f, Relevant(q.startMs, q.model), InWindow(q, n), Missed(q, n), rs);
  }

  /**
   The summary's count is that of the buckets if and only if no matching record
   is later than the clock or than the end of the last bucket.
   */
  lemma SummaryAgreesIff(q: Query, rs: Records, buckets: seq<StatsBucket>)
    requires q.bucketMs > 0 && AreBuckets(q, rs, buckets)
    ensures SumOver(BucketCount, buckets) == SummaryOf(Picked(Relevant(q.startMs, q.model), rs)).count
      <==> forall r | r in rs :: !IsMissed(q, |buckets|, r)
  {
    var n := |buckets|;
    BucketsConserve(q, rs, buckets);
    SummarySplits(One, q, n, rs);
    BucketsPartition(One, q, n, rs);
    TotalOfOnes(Picked(InWindow(q, n), rs));
    TotalOfOnes(Picked(Missed(q, n), rs));
    TotalOfOnes(Picked(Relevant(q.startMs, q.model), rs));
    NonePickedIff(Missed(q, n), rs);
  }

  lemma NonePickedIff(test: RequestRecord -> bool, rs: Records)
    ensures |Picked(test, rs)| == 0 <==> forall r | r in rs :: !test(r)
  {
    if Picked(test, rs) == [] {
      forall r | r in rs ensures !test(r) { PickedMembers(test, rs, r); }
    } else {
      PickedMembers(test, rs, Picked(test, rs)[0]);
    }
  }

  /** Where the bucket length divides a window not longer than the clock, a record of this millisecond is missed. */
  lemma LatestIsMissed(windowMs: nat, bucketMs: nat, model: Option<string>, r: RequestRecord)
    requires bucketMs > 0 && windowMs % bucketMs == 0 && 0 < windowMs <= r.tsMs && Matches(model, r)
    ensures IsMissed(Query(StartOf(r.tsMs, windowMs), r.tsMs, bucketMs, model), NumBuckets(windowMs, bucketMs), r)
  {
    assert windowMs == bucketMs * (windowMs / bucketMs);
    assert NumBuckets(windowMs, bucketMs) * bucketMs == windowMs;
  }

  // ---- By model --------------------------------------------------------------------------------------

  function InModels(models: set<string>): RequestRecord -> bool {
    (r: RequestRecord) => r.model in models
  }

  ghost function SumOverModels(g: ModelBucket -> nat, byModel: map<string, ModelBucket>): nat
    decreases byModel.Keys
  {
    if byModel.Keys == {} then 0
    else
      var m :| m in byModel.Keys;
      g(byModel[m]) + SumOverModels(g, byModel - {m})
  }

  lemma ModelsSplit(f: RequestRecord -> nat, models: set<string>, m: string, rs: Records)
    requires m in models
    ensures Total(f, Picked(InModels(models), rs)) ==
      Total(f, Picked(OfModel(m), rs)) + Total(f, Picked(InModels(models - {m}), rs))
  {
    TotalSplit(f, InModels(models), OfModel(m), InModels(models - {m}), rs);
  }

  lemma {:induction false} SumOverSomeModels(
      g: ModelBucket -> nat, f: RequestRecord -> nat, rs: Records, byModel: map<string, ModelBucket>)
    requires forall members :: g(ModelTotals(members)) == Total(f, members)
    requires forall m | m in byModel :: byModel[m] == ModelTotals(Picked(OfModel(m), rs))
    ensures SumOverModels(g, byModel) == Total(f, Picked(InModels(byModel.Keys), rs))
    decreases byModel.Keys
  {
    if byModel.Keys == {} {
      PickedNone(InModels(byModel.Keys), rs);
    } else {
      var m :| m in byModel.Keys && SumOverModels(g, byModel) == g(byModel[m]) + SumOverModels(g, byModel - {m});
      var rest := byModel - {m};
      SumOverSomeModels(g, f, rs, rest);
      assert rest.Keys == byModel.Keys - {m};
      ModelsSplit(f, byModel.Keys, m, rs);
    }
  }

  /** The entries by model add up to what they split. */
  lemma ByModelAddsUp(g: ModelBucket -> nat, f: RequestRecord -> nat, rs: Records)
    requires forall members :: g(ModelTotals(members)) == Total(f, members)
    ensures SumOverModels(g, ByModel(rs)) == Total(f, rs)
  {
    SumOverSomeModels(g, f, rs, ByModel(rs));
    PickedAll(InModels(ByModel(rs).Keys), rs);
  }

  function ModelCount(b: ModelBucket): nat { b.count }
  function ModelLatency(b: ModelBucket): nat { b.latencySumMs }
  function ModelTokensIn(b: ModelBucket): nat { b.tokensIn }
  function ModelTokensOut(b: ModelBucket): nat { b.tokensOut }

  /** In each bucket the entries by model sum to its own count and tokens. */
  lemma ByModelConserves(tsMs: nat, rs: Records)
    ensures var t := BucketOf(tsMs, rs).tally;
      && SumOverModels(ModelCount, t.byModel) == t.counts.count
      && SumOverModels(ModelLatency, t.byModel) == Total(DurationMs, rs)
      && SumOverModels(ModelTokensIn, t.byModel) == t.counts.tokensIn
      && SumOverModels(ModelTokensOut, t.byModel) == t.counts.tokensOut
  {
    forall members ensures ModelCount(ModelTotals(members)) == Total(One, members) {
      TotalOfOnes(members);
    }
    ByModelAddsUp(ModelCount, One, rs);
    TotalOfOnes(rs);
    ByModelAddsUp(ModelLatency, DurationMs, rs);
    ByModelAddsUp(ModelTokensIn, TokensIn, rs);
    ByModelAddsUp(ModelTokensOut, TokensOut, rs);
  }

  // ---- The cache hit rate ---------------------------------------------------------------------------------

  predicate SoundRecord(r: RequestRecord) {
    r.cachedTokens <= r.tokensIn
  }

  /** The record carries this usage. */
  predicate Carries(r: RequestRecord, u: Usage) {
    (r.tokensIn, r.tokensOut, r.cachedTokens, r.cacheCreationTokens) == (u.tokensIn, u.tokensOut, u.cached, u.creation)
  }

  /** If the payload parses, its usage block does not report more cached tokens than its prompt holds. */
  ghost predicate SoundPayload(d: Decoder, payload: string) {
    match d.json(payload)
    case Some(v) => SoundBlock(v)
    case None => true
  }

  ghost predicate SoundLine(d: Decoder, line: seq<byte>) {
    match DataPayload(d, line)
    case Some(payload) => SoundPayload(d, payload)
    case None => true
  }

  ghost predicate SoundEvents(d: Decoder, stream: seq<byte>) {
    (forall l | l in CompleteLines(stream) :: SoundLine(d, l)) && SoundLine(d, Unfinished(stream))
  }

  ghost predicate SoundBody(d: Decoder, body: seq<byte>) {
    match d.utf8(body)
    case Some(text) => SoundPayload(d, text)
    case None => true
  }

  /**
   The record of a streamed response, of a plain one, or of a failed request,
   in whose events or body every usage block is sound.
   */
  ghost predicate OfSoundResponse(d: Decoder, r: RequestRecord) {
    || (exists stream :: SoundEvents(d, stream) && Carries(r, StreamUsage(d, stream)))
    || (exists body :: SoundBody(d, body) && Carries(r, ExtractUsage(d, body)))
    || Carries(r, ZERO)
  }

  lemma SoundPayloadUsage(d: Decoder, payload: string)
    requires SoundPayload(d, payload)
    ensures Sound(ParsedUsage(d, payload)) && Sound(PayloadUsage(d, payload))
  {
    if d.json(payload).Some? { SampleSoundness(d.json(payload).value); }
  }

  lemma SoundLineUsage(d: Decoder, line: seq<byte>)
    requires SoundLine(d, line)
    ensures Sound(LineUsage(d, line))
  {
    var payload := DataPayload(d, line);
    if payload.Some? { SoundPayloadUsage(d, payload.value); }
  }

  lemma SoundStreamUsage(d: Decoder, stream: seq<byte>)
    requires SoundEvents(d, stream)
    ensures Sound(StreamUsage(d, stream))
  {
    var lines, last := CompleteLines(stream), Unfinished(stream);
    forall l | l in lines + [last] ensures Sound(LineUsage(d, l)) { SoundLineUsage(d, l); }
    SoundStream(d, ZERO, lines);
    SoundStream(d, ZERO, lines + [last]);
  }

  lemma SoundBodyUsage(d: Decoder, body: seq<byte>)
    requires SoundBody(d, body)
    ensures Sound(ExtractUsage(d, body))
  {
    if d.utf8(body).Some? { SoundPayloadUsage(d, d.utf8(body).value); }
  }

  /** Sound responses are recorded soundly, streamed or not. */
  lemma ResponsesAreSound(d: Decoder, r: RequestRecord)
    requires OfSoundResponse(d, r)
    ensures SoundRecord(r)
  {
    if stream :| SoundEvents(d, stream) && Carries(r, StreamUsage(d, stream)) {
      SoundStreamUsage(d, stream);
    } else if body :| SoundBody(d, body) && Carries(r, ExtractUsage(d, body)) {
      SoundBodyUsage(d, body);
    }
  }

  lemma {:induction false} SoundTotals(rs: Records)
    requires forall r | r in rs :: SoundRecord(r)
    ensures Total(CachedTokens, rs) <= Total(TokensIn, rs)
  {
    if rs != [] {
      assert rs[|rs|-1] in rs;
      SoundTotals(rs[..|rs|-1]);
    }
  }

  lemma RateAtMostOne(cachedTokens: nat, tokensIn: nat)
    ensures 0.0 <= HitRate(cachedTokens, tokensIn)
    ensures cachedTokens <= tokensIn ==> HitRate(cachedTokens, tokensIn) <= 1.0
  {
  }

  /** Over sound records the hit rate is at most one, in every selection, so in every bucket and summary. */
  lemma HitRateAtMostOne(tsMs: nat, test: RequestRecord -> bool, rs: Records)
    requires forall r | r in rs :: SoundRecord(r)
    ensures 0.0 <= BucketOf(tsMs, Picked(test, rs)).cacheHitRate <= 1.0
    ensures 0.0 <= SummaryOf(Picked(test, rs)).cacheHitRate <= 1.0
  {
    var some := Picked(test, rs);
    forall r | r in some ensures SoundRecord(r) { PickedMembers(test, rs, r); }
    SoundTotals(some);
    RateAtMostOne(Total(CachedTokens, some), Total(TokensIn, some));
  }

  /** From events to rates: if all records are of sound responses, no bucket and no summary has a hit rate above one. */
  lemma ReportedRatesAtMostOne(d: Decoder, q: Query, rs: Records, buckets: seq<StatsBucket>)
    requires forall r | r in rs :: OfSoundResponse(d, r)
    requires AreBuckets(q, rs, buckets)
    ensures forall i | 0 <= i < |buckets| :: 0.0 <= buckets[i].cacheHitRate <= 1.0
    ensures 0.0 <= SummaryOf(Picked(Relevant(q.startMs, q.model), rs)).cacheHitRate <= 1.0
  {
    forall r | r in rs ensures SoundRecord(r) { ResponsesAreSound(d, r); }
    forall i | 0 <= i < |buckets| ensures 0.0 <= buckets[i].cacheHitRate <= 1.0 {
      HitRateAtMostOne(BucketStart(q, i), InBucket(q, i), rs);
      assert buckets[i] == BucketAt(q, rs)(i);
    }
    HitRateAtMostOne(q.startMs, Relevant(q.startMs, q.model), rs);
  }

  /** In every bucket the percentiles are ordered and no figure exceeds the maximum. */
  lemma LatenciesAreOrdered(tsMs: nat, rs: Records)
    ensures var b := BucketOf(tsMs, rs); var max := b.tally.counts.maxLatencyMs as real;
      b.latency.p50 <= b.latency.p95 <= max && b.latency.avg <= max
  {
    TimingIsOrdered(Durations(rs));
  }
}
