/** Request records and their totals: the counting of `src/stats.rs`. Sums do not overflow. */
module StatsTally {
  import opened Common
  import opened Percentiles

  datatype RequestRecord = RequestRecord(
    tsMs: nat,
    durationMs: nat,
    ttftMs: Option<nat>,
    status: nat,
    model: string,
    tokensIn: u64,
    tokensOut: u64,
    cachedTokens: u64,
    cacheCreationTokens: u64,
    cached: bool)

  type Records = seq<RequestRecord>

  // ---- Selections and totals ----------------------------------------------------------

  function Picked(test: RequestRecord -> bool, rs: Records): Records {
    if rs == [] then []
    else Picked(test, rs[..|rs|-1]) + if test(rs[|rs|-1]) then [rs[|rs|-1]] else []
  }

  function Total(f: RequestRecord -> nat, rs: Records): nat {
    if rs == [] then 0 else Total(f, rs[..|rs|-1]) + f(rs[|rs|-1])
  }

  lemma PickedAppend(test: RequestRecord -> bool, rs: Records, r: RequestRecord)
    ensures Picked(test, rs + [r]) == Picked(test, rs) + if test(r) then [r] else []
  {
    assert (rs + [r])[..|rs|] == rs;
  }

  lemma TotalAppend(f: RequestRecord -> nat, rs: Records, r: RequestRecord)
    ensures Total(f, rs + [r]) == Total(f, rs) + f(r)
  {
    assert (rs + [r])[..|rs|] == rs;
  }

  lemma {:induction false} PickedMembers(test: RequestRecord -> bool, rs: Records, r: RequestRecord)
    ensures r in Picked(test, rs) <==> r in rs && test(r)
  {
    if rs != [] {
      PickedMembers(test, rs[..|rs|-1], r);
      assert rs == rs[..|rs|-1] + [rs[|rs|-1]];
    }
  }

  lemma TotalPickedAppend(f: RequestRecord -> nat, test: RequestRecord -> bool, rs: Records, r: RequestRecord)
    ensures Total(f, Picked(test, rs + [r])) == Total(f, Picked(test, rs)) + if test(r) then f(r) else 0
  {
    PickedAppend(test, rs, r);
    TotalAppend(f, Picked(test, rs), r);
    assert Picked(test, rs) + [] == Picked(test, rs);
  }

  /** If each record of the whole passes just one of two tests, the totals add up. */
  lemma {:induction false} TotalSplit(
      f: RequestRecord -> nat, whole: RequestRecord -> bool, a: RequestRecord -> bool, b: RequestRecord -> bool,
      rs: Records)
    requires forall r :: whole(r) <==> a(r) || b(r)
    requires forall r :: !(a(r) && b(r))
    ensures Total(f, Picked(whole, rs)) == Total(f, Picked(a, rs)) + Total(f, Picked(b, rs))
  {
    if rs != [] {
      var front, last := rs[..|rs|-1], rs[|rs|-1];
      assert rs == front + [last];
      TotalSplit(f, whole, a, b, front);
      TotalPickedAppend(f, whole, front, last);
      TotalPickedAppend(f, a, front, last);
      TotalPickedAppend(f, b, front, last);
    }
  }

  lemma {:induction false} PickedNone(test: RequestRecord -> bool, rs: Records)
    requires forall r | r in rs :: !test(r)
    ensures Picked(test, rs) == []
  {
    if rs != [] {
      assert rs[|rs|-1] in rs;
      PickedNone(test, rs[..|rs|-1]);
    }
  }

  lemma {:induction false} PickedAll(test: RequestRecord -> bool, rs: Records)
    requires forall r | r in rs :: test(r)
    ensures Picked(test, rs) == rs
  {
    if rs != [] {
      assert rs[|rs|-1] in rs;
      PickedAll(test, rs[..|rs|-1]);
    }
  }

  function One(r: RequestRecord): nat { 1 }
  function IsError(r: RequestRecord): nat { if r.status >= 400 then 1 else 0 }
  function IsThrottled(r: RequestRecord): nat { if r.status == 429 || r.status == 503 then 1 else 0 }
  function TouchesCache(r: RequestRecord): nat {
    if r.cached || r.cachedTokens > 0 || r.cacheCreationTokens > 0 then 1 else 0
  }
  function FlaggedCached(r: RequestRecord): nat { if r.cached then 1 else 0 }
  function DurationMs(r: RequestRecord): nat { r.durationMs }
  function TokensIn(r: RequestRecord): nat { r.tokensIn }
  function TokensOut(r: RequestRecord): nat { r.tokensOut }
  function CachedTokens(r: RequestRecord): nat { r.cachedTokens }
  function CreationTokens(r: RequestRecord): nat { r.cacheCreationTokens }

  lemma {:induction false} TotalOfOnes(rs: Records)
    ensures Total(One, rs) == |rs|
  {
    if rs != [] { TotalOfOnes(rs[..|rs|-1]); }
  }

  // ---- The figures of one bucket ----------------------------------------------------------

  datatype ModelBucket = ModelBucket(count: nat, latencySumMs: nat, tokensIn: nat, tokensOut: nat)

  const NO_MODEL := ModelBucket(0, 0, 0, 0)

  datatype Counts = Counts(
    count: nat,
    errors: nat,
    throttled: nat,
    maxLatencyMs: nat,
    tokensIn: nat,
    tokensOut: nat,
    cachedTokens: nat,
    cacheCreationTokens: nat,
    cached: nat)

  datatype Tally = Tally(counts: Counts, byModel: map<string, ModelBucket>)

  const EMPTY := Tally(Counts(0, 0, 0, 0, 0, 0, 0, 0, 0), map[])

  function AddedToModel(b: ModelBucket, r: RequestRecord): ModelBucket {
    ModelBucket(b.count + 1, b.latencySumMs + r.durationMs, b.tokensIn + r.tokensIn, b.tokensOut + r.tokensOut)
  }

  function AddedToCounts(c: Counts, r: RequestRecord): Counts {
    Counts(
      c.count + 1,
      c.errors + IsError(r),
      c.throttled + IsThrottled(r),
      if c.maxLatencyMs < r.durationMs then r.durationMs else c.maxLatencyMs,
      c.tokensIn + r.tokensIn,
      c.tokensOut + r.tokensOut,
      c.cachedTokens + r.cachedTokens,
      c.cacheCreationTokens + r.cacheCreationTokens,
      c.cached + TouchesCache(r))
  }

  function EntryOf(byModel: map<string, ModelBucket>, model: string): ModelBucket {
    if model in byModel then byModel[model] else NO_MODEL
  }

  /** One record is counted. */
  function Added(t: Tally, r: RequestRecord): Tally {
    Tally(AddedToCounts(t.counts, r), t.byModel[r.model := AddedToModel(EntryOf(t.byModel, r.model), r)])
  }

  function Durations(rs: Records): seq<nat> {
    if rs == [] then [] else Durations(rs[..|rs|-1]) + [rs[|rs|-1].durationMs]
  }

  function TtftOf(r: RequestRecord): seq<nat> {
    if r.ttftMs.Some? then [r.ttftMs.value] else []
  }

  function Ttfts(rs: Records): seq<nat> {
    if rs == [] then [] else Ttfts(rs[..|rs|-1]) + TtftOf(rs[|rs|-1])
  }

  function OfModel(model: string): RequestRecord -> bool {
    (r: RequestRecord) => r.model == model
  }

  function Models(rs: Records): set<string> {
    set r | r in rs :: r.model
  }

  /** The totals of some records. */
  function ModelTotals(rs: Records): ModelBucket {
    ModelBucket(|rs|, Total(DurationMs, rs), Total(TokensIn, rs), Total(TokensOut, rs))
  }

  function ByModel(rs: Records): map<string, ModelBucket> {
    map m | m in Models(rs) :: ModelTotals(Picked(OfModel(m), rs))
  }

  function CountsOf(rs: Records): Counts {
    Counts(|rs|, Total(IsError, rs), Total(IsThrottled, rs), MaxOf(Durations(rs)), Total(TokensIn, rs),
           Total(TokensOut, rs), Total(CachedTokens, rs), Total(CreationTokens, rs), Total(TouchesCache, rs))
  }

  function TallyOf(rs: Records): Tally {
    Tally(CountsOf(rs), ByModel(rs))
  }

  lemma ModelTotalsAppend(rs: Records, r: RequestRecord)
    ensures ModelTotals(rs + [r]) == AddedToModel(ModelTotals(rs), r)
  {
    TotalAppend(DurationMs, rs, r);
    TotalAppend(TokensIn, rs, r);
    TotalAppend(TokensOut, rs, r);
  }

  lemma ModelAbsent(rs: Records, m: string)
    requires m !in Models(rs)
    ensures ModelTotals(Picked(OfModel(m), rs)) == NO_MODEL
  {
    PickedNone(OfModel(m), rs);
  }

  lemma ModelsAppend(rs: Records, r: RequestRecord)
    ensures Models(rs + [r]) == Models(rs) + {r.model}
  {
  }

  lemma TotalsOfModelAppend(rs: Records, r: RequestRecord, m: string)
    ensures ModelTotals(Picked(OfModel(m), rs + [r])) ==
      if m == r.model then AddedToModel(EntryOf(ByModel(rs), m), r) else ModelTotals(Picked(OfModel(m), rs))
  {
    PickedAppend(OfModel(m), rs, r);
    ModelTotalsAppend(Picked(OfModel(m), rs), r);
    assert Picked(OfModel(m), rs) + [] == Picked(OfModel(m), rs);
    if m !in Models(rs) { ModelAbsent(rs, m); }
  }

  lemma ByModelAppendAt(rs: Records, r: RequestRecord, m: string)
    ensures var after := ByModel(rs)[r.model := AddedToModel(EntryOf(ByModel(rs), r.model), r)];
      && (m in ByModel(rs + [r]) <==> m in after)
      && (m in after ==> ByModel(rs + [r])[m] == after[m])
  {
    ModelsAppend(rs, r);
    TotalsOfModelAppend(rs, r, m);
  }

  lemma SameEntries(a: map<string, ModelBucket>, b: map<string, ModelBucket>)
    requires forall m :: m in a <==> m in b
    requires forall m | m in a :: a[m] == b[m]
    ensures a == b
  {
  }

  lemma ByModelAppend(rs: Records, r: RequestRecord)
    ensures ByModel(rs + [r]) == ByModel(rs)[r.model := AddedToModel(EntryOf(ByModel(rs), r.model), r)]
  {
    var before, after := ByModel(rs + [r]), ByModel(rs)[r.model := AddedToModel(EntryOf(ByModel(rs), r.model), r)];
    forall m ensures (m in before <==> m in after) && (m in after ==> before[m] == after[m]) {
      ByModelAppendAt(rs, r, m);
    }
    SameEntries(before, after);
  }

  lemma TotalsAppend(rs: Records, r: RequestRecord)
    ensures Total(IsError, rs + [r]) == Total(IsError, rs) + IsError(r)
    ensures Total(IsThrottled, rs + [r]) == Total(IsThrottled, rs) + IsThrottled(r)
    ensures Total(TouchesCache, rs + [r]) == Total(TouchesCache, rs) + TouchesCache(r)
    ensures Total(CachedTokens, rs + [r]) == Total(CachedTokens, rs) + r.cachedTokens
    ensures Total(CreationTokens, rs + [r]) == Total(CreationTokens, rs) + r.cacheCreationTokens
    ensures Total(TokensIn, rs + [r]) == Total(TokensIn, rs) + r.tokensIn
    ensures Total(TokensOut, rs + [r]) == Total(TokensOut, rs) + r.tokensOut
  {
    assert (rs + [r])[..|rs|] == rs;
  }

  lemma SamplesAppend(rs: Records, r: RequestRecord)
    ensures Durations(rs + [r]) == Durations(rs) + [r.durationMs]
    ensures Ttfts(rs + [r]) == Ttfts(rs) + TtftOf(r)
  {
    assert (rs + [r])[..|rs|] == rs;
  }

  lemma MaxAppend(s: seq<nat>, x: nat)
    ensures MaxOf(s + [x]) == if MaxOf(s) < x then x else MaxOf(s)
  {
    assert (s + [x])[..|s|] == s;
  }

  lemma CountsAppend(rs: Records, r: RequestRecord)
    ensures CountsOf(rs + [r]) == AddedToCounts(CountsOf(rs), r)
  {
    TotalsAppend(rs, r);
    SamplesAppend(rs, r);
    MaxAppend(Durations(rs), r.durationMs);
  }

  /** Counting one more record gives the tally of one more record. */
  lemma TallyAppend(rs: Records, r: RequestRecord)
    ensures TallyOf(rs + [r]) == Added(TallyOf(rs), r)
  {
    CountsAppend(rs, r);
    ByModelAppend(rs, r);
  }
}
