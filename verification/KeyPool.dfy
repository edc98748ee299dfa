/**
 The API key pool of `src/keypool.rs`: round robin over entries that cool down.

 The clock is a parameter, in nanoseconds; one call reads it once.
 */
module KeyPool {
  import opened Common

  /** `Instant::elapsed` saturates at zero. */
  function Elapsed(since: nat, now: nat): nat {
    if since <= now then now - since else 0
  }

  datatype KeyEntry = KeyEntry(key: string, name: string, healthy: bool, lastError: Option<nat>, cooldown: nat) {
    predicate IsPastCooldown(now: nat) {
      match lastError
      case None => true
      case Some(t) => Elapsed(t, now) >= cooldown
    }

    predicate IsUsable(now: nat) {
      key != "" && (healthy || IsPastCooldown(now))
    }

    function Healed(): KeyEntry {
      this.(healthy := true, lastError := None)
    }

    function Failed(status: nat, now: nat): KeyEntry {
      this.(healthy := false, lastError := Some(now), cooldown := CooldownForStatus(status))
    }
  }

  /** What a caller gets: a copy, so that the lock is not held during the call. */
  datatype KeySlot = KeySlot(index: nat, key: string, name: string)

  datatype KeyState = KeyState(name: string, status: string, healthy: bool, remainingMs: nat)

  /** In nanoseconds, as all times are. */
  function CooldownForStatus(status: nat): nat {
    NANOS_PER_MS * if status >= 503 then 60_000 else if status >= 502 then 30_000 else 10_000
  }

  // ---- The pool as a value --------------------------------------------------------

  datatype Pool = Pool(entries: seq<KeyEntry>, cursor: nat) {
    ghost predicate Valid() {
      cursor < |entries| || (entries == [] && cursor == 0)
    }

    predicate Usable(i: int, now: nat) {
      0 <= i < |entries| && entries[i].IsUsable(now)
    }
  }

  /** The entry `k` places after the cursor. */
  function At(p: Pool, k: nat): nat
    requires p.entries != []
  {
    (p.cursor + k) % |p.entries|
  }

  /** How far the round robin looks: the first usable place at or after `k`, or the number of entries. */
  function Reach(p: Pool, now: nat, k: nat): (r: nat)
    requires p.entries != [] && k <= |p.entries|
    ensures k <= r <= |p.entries|
    ensures r < |p.entries| ==> p.Usable(At(p, r), now)
    ensures forall i | k <= i < r :: !p.Usable(At(p, i), now)
    decreases |p.entries| - k
  {
    if k == |p.entries| || p.Usable(At(p, k), now) then k else Reach(p, now, k + 1)
  }

  function SlotOf(p: Pool, i: nat): KeySlot
    requires i < |p.entries|
  {
    KeySlot(i, p.entries[i].key, p.entries[i].name)
  }

  function Heal(p: Pool, i: nat): Pool
    requires i < |p.entries|
  {
    p.(entries := p.entries[i := p.entries[i].Healed()])
  }

  /** The preferred entry is taken when it is one and it is usable. */
  predicate TakesPreferred(p: Pool, preferred: Option<nat>, now: nat) {
    preferred.Some? && p.Usable(preferred.value, now)
  }

  function Acquired(p: Pool, preferred: Option<nat>, now: nat): (Pool, Option<KeySlot>)
  {
    if p.entries == [] then (p, None)
    else if TakesPreferred(p, preferred, now) then
      (Heal(p, preferred.value), Some(SlotOf(p, preferred.value)))
    else
      var r := Reach(p, now, 0);
      if r == |p.entries| then (p, None)
      else
        var i := At(p, r);
        (Heal(p, i).(cursor := (i + 1) % |p.entries|), Some(SlotOf(p, i)))
  }

  function MarkedUnhealthy(p: Pool, i: nat, status: nat, now: nat): Pool {
    if i < |p.entries| then p.(entries := p.entries[i := p.entries[i].Failed(status, now)]) else p
  }

  function MarkedHealthy(p: Pool, i: nat): Pool {
    if i < |p.entries| then Heal(p, i) else p
  }

  function UsableCount(entries: seq<KeyEntry>, now: nat): nat {
    if entries == [] then 0
    else UsableCount(entries[..|entries|-1], now) + if entries[|entries|-1].IsUsable(now) then 1 else 0
  }

  /** The health report's entry: what is left of the cooldown is cut down to whole milliseconds. */
  function StateOf(e: KeyEntry, now: nat): KeyState {
    if e.key == "" then KeyState(e.name, "none", e.healthy, 0)
    else if e.healthy || e.IsPastCooldown(now) then KeyState(e.name, "active", e.healthy, 0)
    else
      var elapsed := Elapsed(e.lastError.value, now);
      var remaining := if elapsed >= e.cooldown then 0 else (e.cooldown - elapsed) / NANOS_PER_MS;
      KeyState(e.name, "cooldown", e.healthy, remaining)
  }

  // ---- The pool ----------------------------------------------------------------------

  class SharedPool {
    var entries: seq<KeyEntry>
    var cursor: nat

    ghost function View(): Pool
      reads this
    {
      Pool(entries, cursor)
    }

    constructor (entries: seq<KeyEntry>)
      ensures View() == Pool(entries, 0) && View().Valid()
    {
      this.entries, cursor := entries, 0;
    }

    method Acquire(preferred: Option<nat>, now: nat) returns (slot: Option<KeySlot>)
      requires View().Valid()
      modifies this
      ensures View().Valid()
      ensures (View(), slot) == Acquired(old(View()), preferred, now)
    {
      var n := |entries|;
      if n == 0 { return None; }
      if preferred.Some? && preferred.value < n {
        var e := entries[preferred.value];
        if e.IsUsable(now) {
          entries := entries[preferred.value := e.(healthy := true, lastError := None)];
          return Some(KeySlot(preferred.value, e.key, e.name));
        }
      }
      var i := 0;
      while i < n
        invariant 0 <= i <= n == |entries| && View() == old(View())
        invariant Reach(View(), now, i) == Reach(View(), now, 0)
      {
        var idx := (cursor + i) % n;
        var e := entries[idx];
        if e.IsUsable(now) {
          entries := entries[idx := e.(healthy := true, lastError := None)];
          cursor := (idx + 1) % n;
          return Some(KeySlot(idx, e.key, e.name));
        }
        i := i + 1;
      }
      return None;
    }

    method MarkUnhealthy(index: nat, status: nat, now: nat)
      requires View().Valid()
      modifies this`entries
      ensures View().Valid() && View() == MarkedUnhealthy(old(View()), index, status, now)
    {
      if index < |entries| {
        entries := entries[index :=
          entries[index].(healthy := false, lastError := Some(now), cooldown := CooldownForStatus(status))];
      }
    }

    method MarkHealthy(index: nat)
      requires View().Valid()
      modifies this`entries
      ensures View().Valid() && View() == MarkedHealthy(old(View()), index)
    {
      if index < |entries| {
        entries := entries[index := entries[index].(healthy := true, lastError := None)];
      }
    }

    method HealthyCount(now: nat) returns (count: nat)
      ensures count == UsableCount(entries, now)
    {
      count := 0;
      for i := 0 to |entries|
        invariant count == UsableCount(entries[..i], now)
      {
        assert entries[..i+1][..i] == entries[..i];
        if entries[i].IsUsable(now) { count := count + 1; }
      }
      assert entries[..|entries|] == entries;
    }

    method Rebuild(entries: seq<KeyEntry>)
      modifies this
      ensures View() == Pool(entries, 0) && View().Valid()
    {
      this.entries := entries;
      cursor := 0;
    }
  }

  // ---- The round robin's cursor -------------------------------------------------------

  /** The cyclic distance from the cursor to entry `j`. */
  function Distance(p: Pool, j: nat): nat
    requires p.Valid() && j < |p.entries|
  {
    if j >= p.cursor then j - p.cursor else j + |p.entries| - p.cursor
  }

  lemma WrapOnce(a: nat, n: nat)
    requires 0 < n && a < 2 * n
    ensures a % n == if a < n then a else a - n
  {
    if a >= n {
      assert a == n + (a - n);
      assert (a - n) % n == a - n;
    }
  }

  /** Places and distances are inverse to each other. */
  lemma PlaceOfEntry(p: Pool, j: nat, k: nat)
    requires p.Valid() && j < |p.entries| && k < |p.entries|
    ensures At(p, Distance(p, j)) == j && Distance(p, j) < |p.entries|
    ensures At(p, k) < |p.entries| && Distance(p, At(p, k)) == k
  {
    WrapOnce(p.cursor + Distance(p, j), |p.entries|);
    WrapOnce(p.cursor + k, |p.entries|);
  }

  /**
   What `acquire` promises: nothing exactly when no entry is usable; the
   preferred entry when it is usable; otherwise the nearest usable entry after
   the cursor, and the cursor moves just past it. Only that entry changes.
   */
  lemma AcquireContract(p: Pool, preferred: Option<nat>, now: nat)
    requires p.Valid()
    ensures var (q, slot) := Acquired(p, preferred, now);
      && q.Valid() && |q.entries| == |p.entries|
      && (slot.None? <==> forall i :: !p.Usable(i, now))
      && (slot.None? ==> q == p)
      && (slot.Some? ==>
            var i := slot.value.index;
            && p.Usable(i, now) && slot.value == KeySlot(i, p.entries[i].key, p.entries[i].name)
            && q.entries == p.entries[i := p.entries[i].(healthy := true, lastError := None)]
            && (if TakesPreferred(p, preferred, now) then i == preferred.value && q.cursor == p.cursor
                else
                  && q.cursor == (if i + 1 == |p.entries| then 0 else i + 1)
                  && forall j :: p.Usable(j, now) ==> Distance(p, i) <= Distance(p, j)))
  {
    if p.entries != [] && !TakesPreferred(p, preferred, now) {
      var n, r := |p.entries|, Reach(p, now, 0);
      forall j | p.Usable(j, now) ensures r <= Distance(p, j) {
        PlaceOfEntry(p, j, 0);
      }
      if r < n {
        PlaceOfEntry(p, 0, r);
        WrapOnce(At(p, r) + 1, n);
      }
    }
  }

  // ---- Runs ---------------------------------------------------------------------------

  datatype Event =
    | Acquire(preferred: Option<nat>)
    | Unhealthy(index: nat, status: nat)
    | Healthy(index: nat)

  /** An event and the instant at which it happens. */
  datatype Timed = Timed(event: Event, now: nat)

  function Next(p: Pool, t: Timed): Pool {
    match t.event
    case Acquire(preferred) => Acquired(p, preferred, t.now).0
    case Unhealthy(i, status) => MarkedUnhealthy(p, i, status, t.now)
    case Healthy(i) => MarkedHealthy(p, i)
  }

  predicate IsRoundRobin(p: Pool, t: Timed) {
    t.event.Acquire? && !TakesPreferred(p, t.event.preferred, t.now)
  }

  /** The round robin serves entry `j` here. */
  predicate Serves(p: Pool, t: Timed, j: nat) {
    && IsRoundRobin(p, t)
    && var slot := Acquired(p, t.event.preferred, t.now).1;
       slot.Some? && slot.value.index == j
  }

  function RoundRobins(p: Pool, run: seq<Timed>): nat
    decreases |run|
  {
    if run == [] then 0
    else (if IsRoundRobin(p, run[0]) then 1 else 0) + RoundRobins(Next(p, run[0]), run[1..])
  }

  function TimesServed(p: Pool, run: seq<Timed>, j: nat): nat
    decreases |run|
  {
    if run == [] then 0
    else (if Serves(p, run[0], j) then 1 else 0) + TimesServed(Next(p, run[0]), run[1..], j)
  }

  /** Entry `j` is usable whenever the round robin looks. */
  predicate StaysUsable(p: Pool, run: seq<Timed>, j: nat)
    decreases |run|
  {
    run == [] ||
    ((IsRoundRobin(p, run[0]) ==> p.Usable(j, run[0].now)) && StaysUsable(Next(p, run[0]), run[1..], j))
  }

  lemma NextKeepsShape(p: Pool, t: Timed)
    requires p.Valid()
    ensures Next(p, t).Valid() && |Next(p, t).entries| == |p.entries|
    ensures !IsRoundRobin(p, t) ==> Next(p, t).cursor == p.cursor
  {
    if t.event.Acquire? { AcquireContract(p, t.event.preferred, t.now); }
  }

  /** A round-robin acquire serves a usable entry or comes strictly closer to it. */
  lemma RoundRobinComesCloser(p: Pool, t: Timed, j: nat)
    requires p.Valid() && IsRoundRobin(p, t) && p.Usable(j, t.now)
    ensures Next(p, t).Valid() && |Next(p, t).entries| == |p.entries|
    ensures Serves(p, t, j) || Distance(Next(p, t), j) < Distance(p, j)
  {
    AcquireContract(p, t.event.preferred, t.now);
  }

  lemma {:induction false} UnservedWaitIsShort(p: Pool, run: seq<Timed>, j: nat)
    requires p.Valid() && j < |p.entries| && StaysUsable(p, run, j)
    requires TimesServed(p, run, j) == 0
    ensures RoundRobins(p, run) <= Distance(p, j)
    decreases |run|
  {
    if run != [] {
      NextKeepsShape(p, run[0]);
      if IsRoundRobin(p, run[0]) { RoundRobinComesCloser(p, run[0], j); }
      UnservedWaitIsShort(Next(p, run[0]), run[1..], j);
    }
  }

  /** Bounded waiting: an entry that stays usable is served within as many round robins as there are entries. */
  lemma BoundedWaiting(p: Pool, run: seq<Timed>, j: nat)
    requires p.Valid() && j < |p.entries| && StaysUsable(p, run, j)
    requires RoundRobins(p, run) >= |p.entries|
    ensures TimesServed(p, run, j) >= 1
  {
    if TimesServed(p, run, j) == 0 { UnservedWaitIsShort(p, run, j); }
  }

  /** All entries usable: the round robin serves exactly the cursor and moves it by one. */
  lemma RoundRobinServesCursor(p: Pool, t: Timed, j: nat)
    requires p.Valid() && IsRoundRobin(p, t) && j < |p.entries|
    requires forall i | 0 <= i < |p.entries| :: p.Usable(i, t.now)
    ensures Next(p, t).Valid() && |Next(p, t).entries| == |p.entries|
    ensures Serves(p, t, j) <==> Distance(p, j) == 0
    ensures Distance(Next(p, t), j) == if Distance(p, j) == 0 then |p.entries| - 1 else Distance(p, j) - 1
  {
    AcquireContract(p, t.event.preferred, t.now);
    assert p.Usable(p.cursor, t.now);
  }

  /** `x` lies in turn `c` of turns of length `n`. */
  ghost predicate InTurn(c: nat, n: nat, x: int) {
    c * n <= x < (c + 1) * n
  }

  lemma NextTurn(c: nat, n: nat, x: int)
    ensures InTurn(c, n, x) ==> InTurn(c + 1, n, x + n)
  {
    assert (c + 1) * n == c * n + n && (c + 2) * n == (c + 1) * n + n;
  }

  lemma AllStayUsable(p: Pool, run: seq<Timed>)
    requires run != [] && forall i | 0 <= i < |p.entries| :: StaysUsable(p, run, i)
    ensures forall i | 0 <= i < |p.entries| ::
      (IsRoundRobin(p, run[0]) ==> p.Usable(i, run[0].now)) && StaysUsable(Next(p, run[0]), run[1..], i)
  {
    forall i | 0 <= i < |p.entries|
      ensures (IsRoundRobin(p, run[0]) ==> p.Usable(i, run[0].now)) && StaysUsable(Next(p, run[0]), run[1..], i)
    {
      assert StaysUsable(p, run, i);
    }
  }

  /** How often an entry is served: its turns up to now, counted from its distance to the cursor. */
  lemma {:induction false} ServiceCount(p: Pool, run: seq<Timed>, j: nat)
    requires p.Valid() && j < |p.entries|
    requires forall i | 0 <= i < |p.entries| :: StaysUsable(p, run, i)
    ensures InTurn(TimesServed(p, run, j), |p.entries|, RoundRobins(p, run) + |p.entries| - 1 - Distance(p, j))
    decreases |run|
  {
    if run == [] {
      PlaceOfEntry(p, j, 0);
    } else {
      NextKeepsShape(p, run[0]);
      AllStayUsable(p, run);
      ServiceCount(Next(p, run[0]), run[1..], j);
      if IsRoundRobin(p, run[0]) {
        RoundRobinServesCursor(p, run[0], j);
        NextTurn(TimesServed(Next(p, run[0]), run[1..], j), |p.entries|,
          RoundRobins(Next(p, run[0]), run[1..]) + |p.entries| - 1 - Distance(Next(p, run[0]), j));
      } else {
        assert Distance(Next(p, run[0]), j) == Distance(p, j);
      }
    }
  }

  /** Fair shares: k round robins over usable entries serve each one k/n times, rounded down or up. */
  lemma FairShares(p: Pool, run: seq<Timed>, j: nat)
    requires p.Valid() && j < |p.entries|
    requires forall i | 0 <= i < |p.entries| :: StaysUsable(p, run, i)
    ensures var n, k := |p.entries|, RoundRobins(p, run);
      k / n <= TimesServed(p, run, j) <= (k + n - 1) / n
  {
    var n, c, k := |p.entries|, TimesServed(p, run, j), RoundRobins(p, run);
    ServiceCount(p, run, j);
    assert InTurn(c, n, k + n - 1 - Distance(p, j));
    PlaceOfEntry(p, j, 0);
    QuotientBelow(k, n, c);
    QuotientAbove(k + n - 1, n, c);
  }

  lemma TimesMonotone(a: nat, b: nat, n: nat)
    ensures a <= b ==> a * n <= b * n
  {
  }

  lemma QuotientBelow(a: nat, n: nat, c: nat)
    requires 0 < n && a < (c + 1) * n
    ensures a / n <= c
  {
    TimesMonotone(c + 1, a / n, n);
  }

  lemma QuotientAbove(a: nat, n: nat, c: nat)
    requires 0 < n && c * n <= a
    ensures c <= a / n
  {
    TimesMonotone(a / n + 1, c, n);
  }

  // ---- What a mark does -------------------------------------------------------------

  /**
   A key that failed is out of use for a minute, half a minute or ten seconds,
   by its status, and then usable again; no other entry changes.
   */
  lemma FailureCoolsDown(p: Pool, i: nat, status: nat, failed: nat, now: nat)
    requires i < |p.entries|
    ensures var q := MarkedUnhealthy(p, i, status, failed);
      var cooldown :=
        if status >= 503 then 60_000_000_000 else if status == 502 then 30_000_000_000 else 10_000_000_000;
      && (q.Usable(i, now) <==> p.entries[i].key != "" && now >= failed + cooldown)
      && |q.entries| == |p.entries| && q.cursor == p.cursor
      && forall j | 0 <= j < |p.entries| && j != i :: q.entries[j] == p.entries[j]
  {
  }

  /** A key that succeeded is usable at once, and none without a key ever is. */
  lemma SuccessHeals(p: Pool, i: nat, now: nat)
    requires i < |p.entries|
    ensures var q := MarkedHealthy(p, i);
      && (q.Usable(i, now) <==> p.entries[i].key != "")
      && |q.entries| == |p.entries| && q.cursor == p.cursor
      && forall j | 0 <= j < |p.entries| && j != i :: q.entries[j] == p.entries[j]
  {
  }

  /** Marks of entries that are no longer there change nothing. */
  lemma StaleMark(p: Pool, i: nat, status: nat, now: nat)
    requires i >= |p.entries|
    ensures MarkedUnhealthy(p, i, status, now) == p && MarkedHealthy(p, i) == p
  {
  }

  // ---- What the health report says ---------------------------------------------------

  /** How long it takes until the entry is usable if nothing is done to it. */
  function Wait(e: KeyEntry, now: nat): nat {
    if e.IsUsable(now) || e.IsPastCooldown(now) then 0 else e.cooldown - Elapsed(e.lastError.value, now)
  }

  /** The entry fails no later than now, as the clock does not go back. */
  predicate Past(e: KeyEntry, now: nat) {
    e.lastError.Some? ==> e.lastError.value <= now
  }

  lemma WaitIsExact(e: KeyEntry, now: nat, later: nat)
    requires Past(e, now) && e.key != "" && now <= later
    ensures e.IsUsable(later) <==> later - now >= Wait(e, now)
  {
  }

  /** The reported status is "active" exactly for usable entries. */
  lemma StatusIsExact(e: KeyEntry, now: nat)
    ensures StateOf(e, now).status == "active" <==> e.IsUsable(now)
  {
    assert "active"[0] != "none"[0] && "active"[0] != "cooldown"[0];
  }

  /** An entry is reported by name, with its flag, as usable, as cooling down, or as having no key. */
  lemma ReportIsFaithful(e: KeyEntry, now: nat)
    ensures var state := StateOf(e, now);
      && state.name == e.name && state.healthy == e.healthy
      && (e.IsUsable(now) ==> state.status == "active" && state.remainingMs == 0)
      && (e.key == "" ==> state.status == "none" && state.remainingMs == 0)
      && (e.key != "" && !e.IsUsable(now) ==> state.status == "cooldown")
  {
  }

  /** The reported time is the true one, cut down to whole milliseconds. */
  lemma ReportTruncates(e: KeyEntry, now: nat)
    requires Past(e, now) && e.key != ""
    ensures var ms := StateOf(e, now).remainingMs; ms * 1_000_000 <= Wait(e, now) < (ms + 1) * 1_000_000
  {
  }

  ghost predicate ReportIsExact(e: KeyEntry, now: nat) {
    forall later: nat | now <= later ::
      e.IsUsable(later) <==> later - now >= StateOf(e, now).remainingMs * NANOS_PER_MS
  }

  /** The reported time is the one to wait if and only if the true wait is a whole number of milliseconds. */
  lemma ReportIsExactIff(e: KeyEntry, now: nat)
    requires Past(e, now) && e.key != ""
    ensures ReportIsExact(e, now) <==> Wait(e, now) % NANOS_PER_MS == 0
  {
    var reported := now + StateOf(e, now).remainingMs * NANOS_PER_MS;
    ReportTruncates(e, now);
    WaitIsExact(e, now, reported);
    forall later: nat | now <= later ensures e.IsUsable(later) <==> later - now >= Wait(e, now) {
      WaitIsExact(e, now, later);
    }
  }

  /** In the last millisecond of its cooldown an entry is reported with no time left, and is not usable yet. */
  lemma LastMillisecond(e: KeyEntry, status: nat, failed: nat, now: nat)
    requires e.key != "" && var left := failed + CooldownForStatus(status) - now; 0 < left < NANOS_PER_MS
    ensures var after := e.Failed(status, failed);
      StateOf(after, now) == KeyState(e.name, "cooldown", false, 0) && !after.IsUsable(now)
  {
  }

  /** A later mark replaces an earlier one, so that a milder failure can cut a cooldown short. */
  lemma LaterMarkShortens(e: KeyEntry, first: nat, second: nat, failed: nat, again: nat, now: nat)
    requires e.key != "" && failed <= again
    requires again + CooldownForStatus(second) <= now < failed + CooldownForStatus(first)
    ensures !e.Failed(first, failed).IsUsable(now)
    ensures e.Failed(first, failed).Failed(second, again).IsUsable(now)
  {
  }

  function ActiveOnes(entries: seq<KeyEntry>, now: nat): set<int> {
    set i | 0 <= i < |entries| && StateOf(entries[i], now).status == "active"
  }

  lemma ActiveAppend(entries: seq<KeyEntry>, e: KeyEntry, now: nat)
    ensures |ActiveOnes(entries + [e], now)| == |ActiveOnes(entries, now)| + if e.IsUsable(now) then 1 else 0
  {
    StatusIsExact(e, now);
    assert ActiveOnes(entries + [e], now) ==
      ActiveOnes(entries, now) + if e.IsUsable(now) then {|entries|} else {};
  }

  /** The health count is the number of entries reported active. */
  lemma {:induction false} CountIsReported(entries: seq<KeyEntry>, now: nat)
    ensures UsableCount(entries, now) == |ActiveOnes(entries, now)|
  {
    if entries != [] {
      var front, last := entries[..|entries| - 1], entries[|entries| - 1];
      assert entries == front + [last];
      CountIsReported(front, now);
      ActiveAppend(front, last, now);
    }
  }
}
