/**
 The retry loop of `src/routes/chat.rs` over the key pool.

 The upstream is an oracle: one reply per attempt, with the time the call and
 the reading of its body take and the time the sleep runs over, in nanoseconds.
 Wherever the loop does not hold the pool's lock, other requests may use the
 pool and a new configuration may replace its entries.
 */
module Retry {
  import opened Common
  import opened KeyPool

  const MAX_RETRIES: nat := 10

  datatype Outcome = Response(status: nat, sse: bool) | NetworkError

  /** What others do to the pool. */
  datatype Other = Used(event: Timed) | Rebuilt(entries: seq<KeyEntry>)

  /**
   One attempt as its surroundings make it: what others do before the loop reads
   the size of the pool, between that and its acquire, and during the call.
   */
  datatype Reply = Reply(
    outcome: Outcome, duration: nat, lag: nat,
    before: seq<Other>, between: seq<Other>, during: seq<Other>)

  /**
   One upstream call: the size read, the pool just before its key was chosen, how
   it went, and the pool before and after its key was marked for that.
   */
  datatype Call = Call(
    size: nat, pool: Pool, index: nat, rotated: bool, at: nat, outcome: Outcome, endedAt: nat,
    left: Pool, marked: Pool)

  datatype End = Streaming | Answered(status: nat) | GaveUp(status: nat) | Exhausted

  datatype Run = Run(
    pool: Pool, slot: KeySlot, now: nat,
    slept: nat, throttled: nat, stats: nat,
    calls: seq<Call>, end: Option<End>)

  predicate IsSuccess(status: nat) {
    200 <= status < 300
  }

  /** A failure after which the loop tries again, and the status it is marked with. */
  function RetryStatus(o: Outcome): Option<nat> {
    match o
    case NetworkError => Some(502)
    case Response(status, _) => if status == 500 || status == 503 then Some(status) else None
  }

  /** The delay after attempt `n`, in milliseconds. */
  function Delay(attempt: nat): nat
    requires attempt >= 1
  {
    3000 + 3000 * (attempt - 1)
  }

  function AfterOther(p: Pool, o: Other): Pool {
    match o
    case Used(t) => Next(p, t)
    case Rebuilt(entries) => Pool(entries, 0)
  }

  function Disturbed(p: Pool, others: seq<Other>): Pool {
    if others == [] then p else AfterOther(Disturbed(p, others[..|others|-1]), others[|others|-1])
  }

  lemma {:induction false} DisturbedStaysValid(p: Pool, others: seq<Other>)
    requires p.Valid()
    ensures Disturbed(p, others).Valid()
  {
    if others != [] {
      DisturbedStaysValid(p, others[..|others|-1]);
      var o := others[|others|-1];
      if o.Used? { NextKeepsShape(Disturbed(p, others[..|others|-1]), o.event); }
    }
  }

  // ---- One attempt ------------------------------------------------------------------

  /** The key for this attempt: after the first, a fresh one if the pool has several and one is usable. */
  function Chosen(size: nat, pool: Pool, slot: KeySlot, attempt: nat, now: nat): (Pool, KeySlot, bool) {
    if attempt > 1 && size > 1 then
      var (after, another) := Acquired(pool, None, now);
      if another.Some? then (after, another.value, true) else (after, slot, false)
    else (pool, slot, false)
  }

  /** What a reply leads to: the pool after its mark, the end if there is one, throttles and stats. */
  function Handled(pool: Pool, attempt: nat, i: nat, now: nat, o: Outcome): (Pool, Option<End>, nat, nat) {
    match RetryStatus(o)
    case Some(status) =>
      var marked := MarkedUnhealthy(pool, i, status, now);
      if attempt == MAX_RETRIES then
        (marked, Some(GaveUp(status)), if o.Response? && status == 503 then 1 else 0, 1)
      else (marked, None, 0, 0)
    case None =>
      if IsSuccess(o.status) then
        if o.sse then (MarkedHealthy(pool, i), Some(Streaming), 0, 0)
        else (MarkedHealthy(pool, i), Some(Answered(o.status)), 0, 1)
      else (pool, Some(Answered(o.status)), if o.status == 429 then 1 else 0, 1)
  }

  /** The pool whose size is read, the one the key is chosen from, and the one after the call. */
  function Before(r: Run, reply: Reply): Pool {
    Disturbed(r.pool, reply.before)
  }

  function Choosing(r: Run, reply: Reply): Pool {
    Disturbed(Before(r, reply), reply.between)
  }

  function Choice(r: Run, attempt: nat, reply: Reply): (Pool, KeySlot, bool) {
    Chosen(|Before(r, reply).entries|, Choosing(r, reply), r.slot, attempt, r.now)
  }

  function AfterCall(r: Run, attempt: nat, reply: Reply): Pool {
    Disturbed(Choice(r, attempt, reply).0, reply.during)
  }

  /** How the loop goes on after the call. */
  function Handling(r: Run, attempt: nat, reply: Reply): (Pool, Option<End>, nat, nat) {
    Handled(AfterCall(r, attempt, reply), attempt, Choice(r, attempt, reply).1.index,
            r.now + reply.duration, reply.outcome)
  }

  /** The call that an attempt adds. */
  function NewCall(r: Run, attempt: nat, reply: Reply): Call {
    var (_, slot, rotated) := Choice(r, attempt, reply);
    Call(|Before(r, reply).entries|, Choosing(r, reply), slot.index, rotated, r.now, reply.outcome,
         r.now + reply.duration, AfterCall(r, attempt, reply), Handling(r, attempt, reply).0)
  }

  function Attempted(r: Run, attempt: nat, reply: Reply): Run
    requires attempt >= 1
  {
    var slot, ended := Choice(r, attempt, reply).1, r.now + reply.duration;
    var (pool, end, throttled, stats) := Handling(r, attempt, reply);
    var sleep := if end.Some? then 0 else Delay(attempt);
    Run(pool, slot, if end.Some? then ended else ended + sleep * NANOS_PER_MS + reply.lag,
        r.slept + sleep, r.throttled + throttled, r.stats + stats,
        r.calls + [NewCall(r, attempt, reply)], end)
  }

  /** The attempts still to come; past the last one the code after the loop runs. */
  function Attempts(r: Run, replies: seq<Reply>): Run
    requires |r.calls| <= MAX_RETRIES && |replies| == MAX_RETRIES
    decreases MAX_RETRIES - |r.calls|
  {
    var made := |r.calls|;
    if made == MAX_RETRIES then r.(stats := r.stats + 1, end := Some(Exhausted))
    else
      var next := Attempted(r, made + 1, replies[made]);
      if next.end.Some? then next else Attempts(next, replies)
  }

  function Start(pool: Pool, slot: KeySlot, now: nat): Run {
    Run(pool, slot, now, 0, 0, 0, [], None)
  }

  lemma AttemptsStep(r: Run, replies: seq<Reply>)
    requires |r.calls| < MAX_RETRIES == |replies|
    ensures var next := Attempted(r, |r.calls| + 1, replies[|r.calls|]);
      && |next.calls| == |r.calls| + 1
      && Attempts(r, replies) == if next.end.Some? then next else Attempts(next, replies)
  {
  }

  /** Others use the pool while the loop does not. */
  method LetOthers(pool: SharedPool, others: seq<Other>)
    requires pool.View().Valid()
    modifies pool
    ensures pool.View().Valid() && pool.View() == Disturbed(old(pool.View()), others)
  {
    for i := 0 to |others|
      invariant pool.View().Valid() && pool.View() == Disturbed(old(pool.View()), others[..i])
    {
      assert others[..i+1][..i] == others[..i];
      match others[i] {
        case Used(Timed(Acquire(preferred), now)) => var _ := pool.Acquire(preferred, now);
        case Used(Timed(Unhealthy(index, status), now)) => pool.MarkUnhealthy(index, status, now);
        case Used(Timed(Healthy(index), _)) => pool.MarkHealthy(index);
        case Rebuilt(entries) => pool.Rebuild(entries);
      }
    }
    assert others[..|others|] == others;
  }

  method RotateKey(pool: SharedPool, attempt: nat, slot: KeySlot, now: nat, between: seq<Other>)
    returns (chosen: KeySlot, ghost rotated: bool)
    requires pool.View().Valid()
    modifies pool
    ensures pool.View().Valid()
    ensures (pool.View(), chosen, rotated) ==
      Chosen(old(|pool.entries|), Disturbed(old(pool.View()), between), slot, attempt, now)
  {
    chosen, rotated := slot, false;
    var total := |pool.entries|;
    LetOthers(pool, between);
    if attempt > 1 && total > 1 {
      var another := pool.Acquire(None, now);
      if another.Some? { chosen, rotated := another.value, true; }
    }
  }

  method HandleReply(pool: SharedPool, attempt: nat, i: nat, now: nat, outcome: Outcome)
    returns (end: Option<End>, throttled: nat, stats: nat)
    requires pool.View().Valid()
    modifies pool
    ensures pool.View().Valid()
    ensures (pool.View(), end, throttled, stats) == Handled(old(pool.View()), attempt, i, now, outcome)
  {
    end, throttled, stats := None, 0, 0;
    match outcome {
      case Response(status, sse) =>
        if IsSuccess(status) {
          pool.MarkHealthy(i);
          if sse { end := Some(Streaming); return; }
          stats, end := 1, Some(Answered(status));
        } else if status == 500 || status == 503 {
          pool.MarkUnhealthy(i, status, now);
          if attempt == MAX_RETRIES {
            if status == 503 { throttled := 1; }
            stats, end := 1, Some(GaveUp(status));
          }
        } else {
          if status == 429 { throttled := 1; }
          stats, end := 1, Some(Answered(status));
        }
      case NetworkError =>
        pool.MarkUnhealthy(i, 502, now);
        if attempt == MAX_RETRIES { stats, end := 1, Some(GaveUp(502)); }
    }
  }

  /** One pass through the loop: rotate, call, handle the reply, sleep if there is to be another. */
  method Attempt(pool: SharedPool, attempt: nat, slot: KeySlot, start: nat, reply: Reply, ghost r: Run)
    returns (end: Option<End>, chosen: KeySlot, now: nat, slept: nat, throttled: nat, stats: nat, ghost next: Run)
    requires pool.View().Valid() && attempt >= 1
    requires r.pool == pool.View() && r.slot == slot && r.now == start
    modifies pool
    ensures pool.View().Valid() && next == Attempted(r, attempt, reply)
    ensures (next.pool, next.slot, next.now, next.end) == (pool.View(), chosen, now, end)
    ensures next.slept == r.slept + slept && next.throttled == r.throttled + throttled && next.stats == r.stats + stats
  {
    ghost var rotated;
    LetOthers(pool, reply.before);
    chosen, rotated := RotateKey(pool, attempt, slot, start, reply.between);
    LetOthers(pool, reply.during);
    now, slept := start + reply.duration, 0;
    end, throttled, stats := HandleReply(pool, attempt, chosen.index, now, reply.outcome);
    if end.None? {
      slept := Delay(attempt);
      now := now + slept * NANOS_PER_MS + reply.lag;
    }
    next := Attempted(r, attempt, reply);
  }

  /** The same, seen from the loop: what is still to come afterwards leads where it led before. */
  method Pass(pool: SharedPool, attempt: nat, slot: KeySlot, start: nat, replies: seq<Reply>, ghost r: Run)
    returns (end: Option<End>, chosen: KeySlot, now: nat, slept: nat, throttled: nat, stats: nat, ghost next: Run)
    requires pool.View().Valid() && |replies| == MAX_RETRIES && 1 <= attempt == |r.calls| + 1 <= MAX_RETRIES
    requires r.pool == pool.View() && r.slot == slot && r.now == start
    modifies pool
    ensures pool.View().Valid() && |next.calls| == |r.calls| + 1
    ensures next.pool == pool.View() && next.slot == chosen && next.now == now && next.end == end
    ensures next.slept == r.slept + slept && next.throttled == r.throttled + throttled && next.stats == r.stats + stats
    ensures Attempts(r, replies) == if end.Some? then next else Attempts(next, replies)
  {
    AttemptsStep(r, replies);
    end, chosen, now, slept, throttled, stats, next := Attempt(pool, attempt, slot, start, replies[attempt - 1], r);
  }

  lemma NoAttemptLeft(r: Run, replies: seq<Reply>)
    requires |r.calls| == MAX_RETRIES == |replies|
    ensures Attempts(r, replies) == r.(stats := r.stats + 1, end := Some(Exhausted))
  {
  }

  /** The loop, from any run that has made no call yet. */
  method RetryFrom(pool: SharedPool, slot: KeySlot, start: nat, replies: seq<Reply>, ghost first: Run)
    returns (end: End, slept: nat, throttled: nat, stats: nat, ghost r: Run)
    requires pool.View().Valid() && |replies| == MAX_RETRIES
    requires first.pool == pool.View() && first.slot == slot && first.now == start && first.calls == []
    requires first.slept == first.throttled == first.stats == 0
    modifies pool
    ensures r == Attempts(first, replies) && pool.View() == r.pool && r.end == Some(end)
    ensures slept == r.slept && throttled == r.throttled && stats == r.stats
  {
    r := first;
    var currentSlot, now: nat := slot, start;
    slept, throttled, stats := 0, 0, 0;
    for attempt := 1 to MAX_RETRIES + 1
      invariant pool.View().Valid() && r.pool == pool.View() && r.slot == currentSlot && r.now == now
      invariant r.slept == slept && r.throttled == throttled && r.stats == stats
      invariant |r.calls| == attempt - 1 && Attempts(first, replies) == Attempts(r, replies)
    {
      var ended, chosen, later, paused, raised, recorded;
      ghost var next;
      ended, chosen, later, paused, raised, recorded, next := Pass(pool, attempt, currentSlot, now, replies, r);
      currentSlot, now := chosen, later;
      slept, throttled, stats := slept + paused, throttled + raised, stats + recorded;
      r := next;
      if ended.Some? { end := ended.value; return; }
    }
    NoAttemptLeft(r, replies);
    stats := stats + 1;
    end := Exhausted;
    r := r.(stats := stats, end := Some(end));
  }

  /**
   The retry loop. Besides the answer it returns what it slept, how often it
   raised the throttle counter and how many stats it recorded.
   */
  method RetryLoop(pool: SharedPool, slot: KeySlot, start: nat, replies: seq<Reply>)
    returns (end: End, slept: nat, throttled: nat, stats: nat, ghost r: Run)
    requires pool.View().Valid() && |replies| == MAX_RETRIES
    modifies pool
    ensures r == Attempts(Start(old(pool.View()), slot, start), replies)
    ensures pool.View() == r.pool && r.end == Some(end)
    ensures slept == r.slept && throttled == r.throttled && stats == r.stats
  {
    end, slept, throttled, stats, r := RetryFrom(pool, slot, start, replies, Start(pool.View(), slot, start));
  }

  // ---- What every run looks like -------------------------------------------------------

  /** A failure that is worth another attempt: no answer at all, or one of these two. */
  predicate IsRetryable(o: Outcome) {
    match o
    case NetworkError => true
    case Response(status, _) => status == 500 || status == 503
  }

  /** The calls of a run: which failures were retried, and how it stands before the next attempt. */
  ghost predicate Going(r: Run) {
    var f := |r.calls|;
    && f < 10
    && r.end == None
    && r.slept == 1500 * f * (f + 1)
    && r.throttled == 0 && r.stats == 0
    && forall c | c in r.calls :: IsRetryable(c.outcome)
  }

  /**
   How a run ends: after at most 10 calls, all but the last of which were
   retryable failures; with f retried failures it slept 1500 f (f + 1) ms. It
   records one stat unless the answer streams, and raises the throttle counter
   once, for a 429 or for a 503 on the last attempt, or not at all.
   */
  ghost predicate Finished(r: Run) {
    && r.end.Some? && r.end.value != Exhausted
    && 1 <= |r.calls| <= 10
    && (forall i | 0 <= i < |r.calls| - 1 :: IsRetryable(r.calls[i].outcome))
    && var f, last := |r.calls| - 1, r.calls[|r.calls| - 1].outcome;
    && r.slept == 1500 * f * (f + 1) && r.slept <= 135_000
    && r.end.value == (
         if last.NetworkError? then GaveUp(502)
         else if last.status == 500 || last.status == 503 then GaveUp(last.status)
         else if 200 <= last.status < 300 && last.sse then Streaming
         else Answered(last.status))
    && (r.end.value.GaveUp? ==> |r.calls| == 10)
    && r.stats == (if r.end.value.Streaming? then 0 else 1)
    && r.throttled == (
         if last.Response? && (last.status == 429 || (last.status == 503 && |r.calls| == 10)) then 1 else 0)
  }

  lemma AttemptAdvances(r: Run, reply: Reply)
    requires Going(r)
    ensures var next := Attempted(r, |r.calls| + 1, reply);
      |next.calls| == |r.calls| + 1 && if next.end.Some? then Finished(next) else Going(next)
  {
    SleepGrows(|r.calls|);
  }

  lemma SleepGrows(f: nat)
    requires f < MAX_RETRIES
    ensures 1500 * f * (f + 1) + Delay(f + 1) == 1500 * (f + 1) * (f + 2)
    ensures 1500 * f * (f + 1) <= 135_000
  {
  }

  lemma {:induction false} RunFinishes(r: Run, replies: seq<Reply>)
    requires Going(r) && |replies| == MAX_RETRIES
    ensures Finished(Attempts(r, replies))
    decreases MAX_RETRIES - |r.calls|
  {
    AttemptAdvances(r, replies[|r.calls|]);
    var next := Attempted(r, |r.calls| + 1, replies[|r.calls|]);
    if next.end.None? { RunFinishes(next, replies); }
  }

  /** Every run finishes inside the loop. */
  lemma EveryRunFinishes(pool: Pool, slot: KeySlot, now: nat, replies: seq<Reply>)
    requires |replies| == MAX_RETRIES
    ensures Finished(Attempts(Start(pool, slot, now), replies))
  {
    RunFinishes(Start(pool, slot, now), replies);
  }

  // ---- Keys -----------------------------------------------------------------------------

  /** No later call uses the same key. */
  predicate IsLatestUse(calls: seq<Call>, a: nat)
    requires a < |calls|
  {
    forall b | a < b < |calls| :: calls[b].index != calls[a].index
  }

  /** The entry still carries the mark of that failure. */
  predicate CarriesFailure(pool: Pool, c: Call) {
    RetryStatus(c.outcome).Some? && c.index < |pool.entries| ==>
      var e := pool.entries[c.index];
      !e.healthy && e.lastError == Some(c.endedAt) && e.cooldown == CooldownForStatus(RetryStatus(c.outcome).value)
  }

  /** Each failed call has marked the key it used, and the mark stays until that key is used again. */
  ghost predicate MarksHeld(pool: Pool, calls: seq<Call>) {
    forall a | 0 <= a < |calls| && IsLatestUse(calls, a) :: CarriesFailure(pool, calls[a])
  }

  /**
   After the first call, a usable key is used whenever there is one when the key is
   chosen and the pool has several just before; else the key of the call before.
   */
  ghost predicate RotatesWhenPossible(calls: seq<Call>, b: nat)
    requires 0 < b < |calls|
  {
    var c := calls[b];
    if c.size > 1 && exists i :: c.pool.Usable(i, c.at) then c.rotated && c.pool.Usable(c.index, c.at)
    else !c.rotated && c.index == calls[b - 1].index
  }

  /** `b` is the next use of the key that failed in `a`. */
  predicate NextUse(calls: seq<Call>, a: nat, b: nat)
    requires a < b < |calls|
  {
    && RetryStatus(calls[a].outcome).Some?
    && calls[a].index == calls[b].index
    && forall c | a < c < b :: calls[c].index != calls[a].index
  }

  /** A key that failed is not chosen again before its cooldown has passed. */
  predicate RespectsCooldown(calls: seq<Call>, a: nat, b: nat)
    requires a < b < |calls|
  {
    NextUse(calls, a, b) && calls[b].rotated ==>
      Elapsed(calls[a].endedAt, calls[b].at) >= CooldownForStatus(RetryStatus(calls[a].outcome).value)
  }

  /** The two pools differ at most at entry `i`. */
  predicate SameBut(p: Pool, q: Pool, i: nat) {
    |p.entries| == |q.entries| && forall j | 0 <= j < |p.entries| && j != i :: p.entries[j] == q.entries[j]
  }

  /** The slot in hand is that of the last call. */
  ghost predicate SlotInv(r: Run) {
    && r.pool.Valid()
    && (r.calls != [] ==> r.calls[|r.calls| - 1].index == r.slot.index)
  }

  ghost predicate KeysInv(r: Run) {
    SlotInv(r) && MarksHeld(r.pool, r.calls)
  }

  /** Choosing a key changes at most the entry chosen. */
  lemma ChoiceContract(size: nat, p: Pool, slot: KeySlot, attempt: nat, now: nat)
    requires p.Valid()
    ensures var (q, chosen, rotated) := Chosen(size, p, slot, attempt, now);
      && q.Valid() && SameBut(p, q, chosen.index)
      && (rotated ==> p.Usable(chosen.index, now))
      && (!rotated ==> q == p && chosen == slot)
      && (attempt > 1 ==> (rotated <==> size > 1 && exists i :: p.Usable(i, now)))
  {
    AcquireContract(p, None, now);
  }

  /** Handling a reply changes at most the entry that was used, and marks it if the reply is retryable. */
  lemma HandlingContract(pool: Pool, attempt: nat, c: Call)
    requires pool.Valid()
    ensures var (after, _, _, _) := Handled(pool, attempt, c.index, c.endedAt, c.outcome);
      after.Valid() && SameBut(pool, after, c.index) && CarriesFailure(after, c)
  {
  }

  lemma MarksExtend(pool: Pool, calls: seq<Call>, c: Call, after: Pool)
    requires MarksHeld(pool, calls) && SameBut(pool, after, c.index) && CarriesFailure(after, c)
    ensures MarksHeld(after, calls + [c])
  {
    var longer := calls + [c];
    forall a | 0 <= a < |longer| && IsLatestUse(longer, a) ensures CarriesFailure(after, longer[a]) {
      if a < |calls| {
        assert longer[|calls|] == c;
        assert forall b | a < b < |calls| :: longer[b] == calls[b];
        assert IsLatestUse(calls, a);
      }
    }
  }

  /** A rotated call comes after the cooldown of the failure its key still carries. */
  lemma CooldownExtends(calls: seq<Call>, c: Call, a: nat)
    requires MarksHeld(c.pool, calls) && a < |calls|
    requires c.rotated ==> c.pool.Usable(c.index, c.at)
    ensures RespectsCooldown(calls + [c], a, |calls|)
  {
    var longer := calls + [c];
    if NextUse(longer, a, |calls|) && c.rotated {
      assert forall b | a < b < |calls| :: longer[b] == calls[b];
      assert IsLatestUse(calls, a);
      assert CarriesFailure(c.pool, calls[a]);
    }
  }

  // ---- Rotation, whatever others do -------------------------------------------------

  lemma PoolsStayValid(r: Run, attempt: nat, reply: Reply)
    requires r.pool.Valid()
    ensures Before(r, reply).Valid() && Choosing(r, reply).Valid() && AfterCall(r, attempt, reply).Valid()
  {
    DisturbedStaysValid(r.pool, reply.before);
    DisturbedStaysValid(Before(r, reply), reply.between);
    ChoiceContract(|Before(r, reply).entries|, Choosing(r, reply), r.slot, attempt, r.now);
    DisturbedStaysValid(Choice(r, attempt, reply).0, reply.during);
  }

  lemma AttemptKeepsSlot(r: Run, attempt: nat, reply: Reply)
    requires SlotInv(r) && attempt >= 1
    ensures SlotInv(Attempted(r, attempt, reply))
    ensures Attempted(r, attempt, reply).calls == r.calls + [NewCall(r, attempt, reply)]
  {
    PoolsStayValid(r, attempt, reply);
    HandlingContract(AfterCall(r, attempt, reply), attempt, NewCall(r, attempt, reply));
  }

  ghost predicate AllRotate(calls: seq<Call>) {
    forall b | 0 < b < |calls| :: RotatesWhenPossible(calls, b)
  }

  lemma RotationExtends(calls: seq<Call>, c: Call)
    requires AllRotate(calls)
    requires |calls| > 0 ==> RotatesWhenPossible(calls + [c], |calls|)
    ensures AllRotate(calls + [c])
  {
    var longer := calls + [c];
    forall b | 0 < b < |longer| ensures RotatesWhenPossible(longer, b) {
      if b < |calls| { assert RotatesWhenPossible(calls, b); }
    }
  }

  lemma AttemptRotates(r: Run, reply: Reply)
    requires SlotInv(r) && AllRotate(r.calls)
    ensures var next := Attempted(r, |r.calls| + 1, reply);
      SlotInv(next) && AllRotate(next.calls) && |next.calls| == |r.calls| + 1
  {
    var attempt := |r.calls| + 1;
    AttemptKeepsSlot(r, attempt, reply);
    PoolsStayValid(r, attempt, reply);
    ChoiceContract(|Before(r, reply).entries|, Choosing(r, reply), r.slot, attempt, r.now);
    RotationExtends(r.calls, NewCall(r, attempt, reply));
  }

  lemma {:induction false} AttemptsRotate(r: Run, replies: seq<Reply>)
    requires SlotInv(r) && AllRotate(r.calls)
    requires |r.calls| <= MAX_RETRIES && |replies| == MAX_RETRIES
    ensures AllRotate(Attempts(r, replies).calls)
    decreases MAX_RETRIES - |r.calls|
  {
    if |r.calls| < MAX_RETRIES {
      AttemptsStep(r, replies);
      AttemptRotates(r, replies[|r.calls|]);
      var next := Attempted(r, |r.calls| + 1, replies[|r.calls|]);
      if next.end.None? { AttemptsRotate(next, replies); }
    }
  }

  /**
   Retries rotate: in every run, whatever others do to the pool, each call after
   the first uses a usable key whenever there is one and the pool has several.
   */
  lemma RetriesRotate(pool: Pool, slot: KeySlot, now: nat, replies: seq<Reply>)
    requires pool.Valid() && |replies| == MAX_RETRIES
    ensures AllRotate(Attempts(Start(pool, slot, now), replies).calls)
  {
    AttemptsRotate(Start(pool, slot, now), replies);
  }

  // ---- Every call and its mark, whatever others do ------------------------------------

  /** What an outcome leaves of the entry whose key was used. */
  function EntryAfter(e: KeyEntry, o: Outcome, endedAt: nat): KeyEntry {
    match o
    case NetworkError => e.(healthy := false, lastError := Some(endedAt), cooldown := 30_000_000_000)
    case Response(status, _) =>
      if 200 <= status <= 299 then e.(healthy := true, lastError := None)
      else if status == 500 then e.(healthy := false, lastError := Some(endedAt), cooldown := 10_000_000_000)
      else if status == 503 then e.(healthy := false, lastError := Some(endedAt), cooldown := 60_000_000_000)
      else e
  }

  /** The call marks its own entry as its outcome asks, if that is still there, and nothing else. */
  ghost predicate MarksItsKey(c: Call) {
    && SameBut(c.left, c.marked, c.index) && c.marked.cursor == c.left.cursor
    && (c.index < |c.left.entries| ==>
          c.marked.entries[c.index] == EntryAfter(c.left.entries[c.index], c.outcome, c.endedAt))
  }

  lemma HandledMarks(pool: Pool, attempt: nat, i: nat, now: nat, o: Outcome)
    ensures var after := Handled(pool, attempt, i, now, o).0;
      && SameBut(pool, after, i) && after.cursor == pool.cursor
      && (i < |pool.entries| ==> after.entries[i] == EntryAfter(pool.entries[i], o, now))
  {
  }

  /** Where a call stands in the run: what came before it, what it was given, and when. */
  ghost predicate CallFollows(first: Run, replies: seq<Reply>, calls: seq<Call>, b: nat)
    requires b < |calls| <= |replies|
  {
    var c, reply := calls[b], replies[b];
    var was := if b == 0 then first.pool else calls[b-1].marked;
    && c.outcome == reply.outcome && c.endedAt == c.at + reply.duration
    && c.at == (if b == 0 then first.now else calls[b-1].endedAt + 3_000_000_000 * b + replies[b-1].lag)
    && c.size == |Disturbed(was, reply.before).entries|
    && c.pool == Disturbed(Disturbed(was, reply.before), reply.between)
    && (b == 0 ==> !c.rotated && c.index == first.slot.index)
    && c.left == Disturbed(if c.rotated then Acquired(c.pool, None, c.at).0 else c.pool, reply.during)
  }

  /** Every call so far is in its place and has marked its key; the run stands where the last one left it. */
  ghost predicate Told(first: Run, replies: seq<Reply>, r: Run) {
    && AllInPlace(first, replies, r.calls)
    && r.pool == (if r.calls == [] then first.pool else r.calls[|r.calls| - 1].marked)
    && (r.calls == [] ==> r.slot == first.slot)
  }

  /** When the next attempt starts. */
  ghost predicate OnTime(first: Run, replies: seq<Reply>, r: Run)
    requires |r.calls| <= |replies|
  {
    var n := |r.calls|;
    r.now == if n == 0 then first.now else r.calls[n - 1].endedAt + 3_000_000_000 * n + replies[n - 1].lag
  }

  lemma NewCallFollows(first: Run, replies: seq<Reply>, r: Run)
    requires |r.calls| < |replies| && Told(first, replies, r) && OnTime(first, replies, r)
    ensures var attempt := |r.calls| + 1;
      CallFollows(first, replies, r.calls + [NewCall(r, attempt, replies[|r.calls|])], |r.calls|)
  {
  }

  lemma NewCallMarks(r: Run, attempt: nat, reply: Reply)
    requires attempt >= 1
    ensures MarksItsKey(NewCall(r, attempt, reply))
    ensures Attempted(r, attempt, reply).pool == NewCall(r, attempt, reply).marked
  {
    HandledMarks(AfterCall(r, attempt, reply), attempt, Choice(r, attempt, reply).1.index,
      r.now + reply.duration, reply.outcome);
  }

  lemma EarlierCallsStay(first: Run, replies: seq<Reply>, calls: seq<Call>, c: Call, b: nat)
    requires b < |calls| < |replies| && CallFollows(first, replies, calls, b)
    ensures CallFollows(first, replies, calls + [c], b)
  {
    assert (calls + [c])[b] == calls[b];
    if b > 0 { assert (calls + [c])[b-1] == calls[b-1]; }
  }

  ghost predicate AllInPlace(first: Run, replies: seq<Reply>, calls: seq<Call>) {
    && |calls| <= |replies|
    && (forall b | 0 <= b < |calls| :: CallFollows(first, replies, calls, b))
    && (forall c | c in calls :: MarksItsKey(c))
  }

  lemma OneMoreInPlace(first: Run, replies: seq<Reply>, calls: seq<Call>, c: Call)
    requires AllInPlace(first, replies, calls) && |calls| < |replies|
    requires CallFollows(first, replies, calls + [c], |calls|) && MarksItsKey(c)
    ensures AllInPlace(first, replies, calls + [c])
  {
    forall b | 0 <= b < |calls + [c]| ensures CallFollows(first, replies, calls + [c], b) {
      if b < |calls| { EarlierCallsStay(first, replies, calls, c, b); }
    }
  }

  lemma AttemptedCalls(r: Run, attempt: nat, reply: Reply)
    requires attempt >= 1
    ensures var next := Attempted(r, attempt, reply);
      && next.calls == r.calls + [NewCall(r, attempt, reply)]
      && next.pool == NewCall(r, attempt, reply).marked
      && (next.end.None? ==> next.now == r.now + reply.duration + Delay(attempt) * NANOS_PER_MS + reply.lag)
  {
  }

  lemma AttemptIsTold(first: Run, replies: seq<Reply>, r: Run)
    requires |r.calls| < |replies| && Told(first, replies, r) && OnTime(first, replies, r)
    ensures var next := Attempted(r, |r.calls| + 1, replies[|r.calls|]);
      && Told(first, replies, next) && |next.calls| == |r.calls| + 1
      && (next.end.None? ==> OnTime(first, replies, next))
  {
    var n := |r.calls|;
    var c := NewCall(r, n + 1, replies[n]);
    NewCallFollows(first, replies, r);
    NewCallMarks(r, n + 1, replies[n]);
    OneMoreInPlace(first, replies, r.calls, c);
    AttemptedCalls(r, n + 1, replies[n]);
    assert Delay(n + 1) * NANOS_PER_MS == 3_000_000_000 * (n + 1);
  }

  lemma {:induction false} AttemptsAreTold(first: Run, replies: seq<Reply>, r: Run)
    requires |r.calls| <= MAX_RETRIES == |replies| && Told(first, replies, r) && OnTime(first, replies, r)
    ensures Told(first, replies, Attempts(r, replies))
    decreases MAX_RETRIES - |r.calls|
  {
    if |r.calls| < MAX_RETRIES {
      AttemptsStep(r, replies);
      AttemptIsTold(first, replies, r);
      var next := Attempted(r, |r.calls| + 1, replies[|r.calls|]);
      if next.end.None? { AttemptsAreTold(first, replies, next); }
    }
  }

  /**
   Every run, call by call, whatever others do: the calls get the replies in
   order, the first with the slot given and at once, each later one 3 s later
   for every attempt before it; each marks its key, and no other entry, as its
   outcome asks; and the pool is left as the last call marked it.
   */
  lemma EveryCallMarksItsKey(pool: Pool, slot: KeySlot, now: nat, replies: seq<Reply>)
    requires |replies| == MAX_RETRIES
    ensures Told(Start(pool, slot, now), replies, Attempts(Start(pool, slot, now), replies))
  {
    AttemptsAreTold(Start(pool, slot, now), replies, Start(pool, slot, now));
  }

  /** What the request that ends the run leaves of its entry. */
  ghost predicate LeavesItsKey(r: Run) {
    r.calls != [] && r.end.Some? &&
    var c := r.calls[|r.calls| - 1];
    match r.end.value
    case Streaming => c.index < |r.pool.entries| ==>
      r.pool.entries[c.index].healthy && r.pool.entries[c.index].lastError == None
    case Answered(status) =>
      if 200 <= status < 300 then
        c.index < |r.pool.entries| ==>
          r.pool.entries[c.index].healthy && r.pool.entries[c.index].lastError == None
      else r.pool == c.left
    case GaveUp(status) => c.index < |r.pool.entries| ==>
      && !r.pool.entries[c.index].healthy && r.pool.entries[c.index].lastError == Some(c.endedAt)
      && r.pool.entries[c.index].cooldown ==
           (if status == 500 then 10_000_000_000 else if status == 502 then 30_000_000_000 else 60_000_000_000)
    case Exhausted => false
  }

  /**
   A run that answers leaves its last key healthy, or the pool as it is if the
   answer is no success; one that gives up leaves the key marked.
   */
  lemma RunLeavesItsKey(pool: Pool, slot: KeySlot, now: nat, replies: seq<Reply>)
    requires |replies| == MAX_RETRIES
    ensures LeavesItsKey(Attempts(Start(pool, slot, now), replies))
  {
    var r := Attempts(Start(pool, slot, now), replies);
    EveryRunFinishes(pool, slot, now, replies);
    EveryCallMarksItsKey(pool, slot, now, replies);
    LastKey(Start(pool, slot, now), replies, r);
  }

  lemma LastKey(first: Run, replies: seq<Reply>, r: Run)
    requires Finished(r) && Told(first, replies, r)
    ensures LeavesItsKey(r)
  {
    var c := r.calls[|r.calls| - 1];
    assert MarksItsKey(c);
    assert r.pool == c.marked && |c.left.entries| == |c.marked.entries|;
    if c.index < |c.left.entries| {
      assert c.marked.entries[c.index] == EntryAfter(c.left.entries[c.index], c.outcome, c.endedAt);
    }
    if r.end.value.Answered? && !(200 <= r.end.value.status < 300) {
      assert c.marked.entries == c.left.entries;
    }
  }

  // ---- Cooldowns, when nobody else uses the pool -------------------------------------

  predicate Undisturbed(reply: Reply) {
    reply.before == reply.between == reply.during == []
  }

  lemma AttemptKeepsKeys(r: Run, attempt: nat, reply: Reply)
    requires KeysInv(r) && attempt >= 1 && Undisturbed(reply)
    ensures KeysInv(Attempted(r, attempt, reply))
    ensures Attempted(r, attempt, reply).calls == r.calls + [NewCall(r, attempt, reply)]
  {
    var c := NewCall(r, attempt, reply);
    var next := Attempted(r, attempt, reply);
    AttemptKeepsSlot(r, attempt, reply);
    ChoiceContract(|r.pool.entries|, r.pool, r.slot, attempt, r.now);
    HandlingContract(AfterCall(r, attempt, reply), attempt, c);
    assert SameBut(r.pool, next.pool, c.index);
    MarksExtend(r.pool, r.calls, c, next.pool);
  }

  ghost predicate AllRespectCooldowns(calls: seq<Call>) {
    forall a, b | 0 <= a < b < |calls| :: RespectsCooldown(calls, a, b)
  }

  lemma NewCallRespectsCooldowns(r: Run, attempt: nat, reply: Reply)
    requires KeysInv(r) && attempt == |r.calls| + 1 && Undisturbed(reply)
    ensures forall a | 0 <= a < |r.calls| ::
      RespectsCooldown(r.calls + [NewCall(r, attempt, reply)], a, |r.calls|)
  {
    ChoiceContract(|r.pool.entries|, r.pool, r.slot, attempt, r.now);
    forall a | 0 <= a < |r.calls| {
      CooldownExtends(r.calls, NewCall(r, attempt, reply), a);
    }
  }

  lemma CooldownsExtend(calls: seq<Call>, c: Call)
    requires AllRespectCooldowns(calls)
    requires forall a | 0 <= a < |calls| :: RespectsCooldown(calls + [c], a, |calls|)
    ensures AllRespectCooldowns(calls + [c])
  {
    var longer := calls + [c];
    forall a, b | 0 <= a < b < |longer| ensures RespectsCooldown(longer, a, b) {
      if b < |calls| {
        assert RespectsCooldown(calls, a, b);
        assert forall i | 0 <= i <= b :: longer[i] == calls[i];
      }
    }
  }

  lemma AttemptRespectsCooldowns(r: Run, reply: Reply)
    requires KeysInv(r) && AllRespectCooldowns(r.calls) && Undisturbed(reply)
    ensures var next := Attempted(r, |r.calls| + 1, reply);
      KeysInv(next) && AllRespectCooldowns(next.calls) && |next.calls| == |r.calls| + 1
  {
    AttemptKeepsKeys(r, |r.calls| + 1, reply);
    NewCallRespectsCooldowns(r, |r.calls| + 1, reply);
    CooldownsExtend(r.calls, NewCall(r, |r.calls| + 1, reply));
  }

  lemma {:induction false} AttemptsRespectCooldowns(r: Run, replies: seq<Reply>)
    requires KeysInv(r) && AllRespectCooldowns(r.calls)
    requires |r.calls| <= MAX_RETRIES && |replies| == MAX_RETRIES
    requires forall reply | reply in replies :: Undisturbed(reply)
    ensures AllRespectCooldowns(Attempts(r, replies).calls)
    decreases MAX_RETRIES - |r.calls|
  {
    if |r.calls| < MAX_RETRIES {
      AttemptsStep(r, replies);
      AttemptRespectsCooldowns(r, replies[|r.calls|]);
      var next := Attempted(r, |r.calls| + 1, replies[|r.calls|]);
      if next.end.None? { AttemptsRespectCooldowns(next, replies); }
    }
  }

  /**
   Retries respect cooldowns: in a run with the pool to itself, a key that failed
   is next chosen only when its cooldown has elapsed.
   */
  lemma RetriesRespectCooldowns(pool: Pool, slot: KeySlot, now: nat, replies: seq<Reply>)
    requires pool.Valid() && |replies| == MAX_RETRIES
    requires forall reply | reply in replies :: Undisturbed(reply)
    ensures AllRespectCooldowns(Attempts(Start(pool, slot, now), replies).calls)
  {
    AttemptsRespectCooldowns(Start(pool, slot, now), replies);
  }
}
