/**
 The cache of image descriptions, `src/handoff_cache.rs`. Times are in
 nanoseconds on one clock, given with each call.
 */
module HandoffCache {
  import opened Common
  import opened Lru

  type Digest = seq<bv8>

  datatype CacheEntry = CacheEntry(desc: string, inserted: nat)

  type Recency = seq<Entry<Digest, CacheEntry>>

  datatype State = State(inner: Recency, cap: nat, ttlMs: nat, hits: nat, misses: nat, evictions: nat)

  datatype Op =
    | Get(digest: Digest, now: nat, ttlMs: nat) // with the lifetime it read before it took the lock
    | Set(digest: Digest, desc: string, now: nat)
    | Resize(maxSize: nat, ttl: nat)

  /** A size of zero stands for the default. */
  function Capacity(maxSize: nat): nat {
    if maxSize == 0 then 50 else maxSize
  }

  /** `as_millis() as u64`. */
  function Millis(ttl: nat): nat {
    Wrap(ttl / NANOS_PER_MS)
  }

  /** `inserted.elapsed() < ttl`. */
  predicate Fresh(e: CacheEntry, now: nat, ttlMs: nat) {
    (if now > e.inserted then now - e.inserted else 0) < ttlMs * NANOS_PER_MS
  }

  // ---- What each operation does ----------------------------------------------------

  /** What `set` evicts before it looks whether the digest is there. */
  function MadeRoom(inner: Recency, cap: nat): Recency {
    if |inner| >= cap then PopLru(inner) else inner
  }

  function Apply(s: State, op: Op): State {
    match op
    case Get(d, now, ttlMs) =>
      (match Find(s.inner, d)
       case None => s.(misses := s.misses + 1)
       case Some(e) =>
         if Fresh(e, now, ttlMs) then s.(inner := Promoted(s.inner, d), hits := s.hits + 1)
         else s.(inner := Without(s.inner, d), misses := s.misses + 1))
    case Set(d, desc, now) =>
      s.(inner := Put(MadeRoom(s.inner, s.cap), s.cap, d, CacheEntry(desc, now)),
         evictions := s.evictions + if |s.inner| >= s.cap && s.inner != [] then 1 else 0)
    case Resize(maxSize, ttl) =>
      s.(inner := Last(s.inner, Capacity(maxSize)), cap := Capacity(maxSize), ttlMs := Millis(ttl))
  }

  /** What `get` returns. */
  function Reply(s: State, d: Digest, now: nat, ttlMs: nat): Option<string> {
    match Find(s.inner, d)
    case Some(e) => if Fresh(e, now, ttlMs) then Some(e.desc) else None
    case None => None
  }

  function Created(maxSize: nat, ttl: nat): State {
    State([], Capacity(maxSize), Millis(ttl), 0, 0, 0)
  }

  ghost function Run(start: State, ops: seq<Op>): State {
    if ops == [] then start else Apply(Run(start, ops[..|ops|-1]), ops[|ops|-1])
  }

  lemma RunAppend(start: State, ops: seq<Op>, op: Op)
    ensures Run(start, ops + [op]) == Apply(Run(start, ops), op)
  {
    assert (ops + [op])[..|ops|] == ops;
  }

  // ---- The cache ----------------------------------------------------------------------

  datatype Stats = Stats(size: nat, maxSize: nat, ttlMs: nat, hits: nat, misses: nat, evictions: nat)

  class Cache {
    var inner: Recency
    var cap: nat
    var ttlMs: nat
    var hits: nat
    var misses: nat
    var evictions: nat
    /** What it was created with. */
    ghost const maxSize: nat
    ghost const ttl: nat
    /** The operations so far. */
    ghost var ops: seq<Op>

    ghost function Now(): State
      reads this
    {
      State(inner, cap, ttlMs, hits, misses, evictions)
    }

    ghost predicate Valid()
      reads this
    {
      Now() == Run(Created(maxSize, ttl), ops)
    }

    constructor (maxSize: nat, ttl: nat)
      ensures Valid() && this.maxSize == maxSize && this.ttl == ttl && ops == []
    {
      inner, cap, ttlMs := [], Capacity(maxSize), Millis(ttl);
      hits, misses, evictions := 0, 0, 0;
      this.maxSize, this.ttl, ops := maxSize, ttl, [];
    }

    /** `get` with nothing in between. */
    method Get(digest: Digest, now: nat) returns (desc: Option<string>)
      requires Valid()
      modifies this
      ensures Valid() && ops == old(ops) + [Op.Get(digest, now, old(ttlMs))]
      ensures desc == Reply(old(Now()), digest, now, old(ttlMs))
      ensures Now() == Apply(old(Now()), Op.Get(digest, now, old(ttlMs)))
    {
      var lifetime := ttlMs;
      desc := GetLocked(digest, now, lifetime);
    }

    /** The rest of `get` once the lifetime has been read; a resize may have come in between. */
    method GetLocked(digest: Digest, now: nat, lifetime: nat) returns (desc: Option<string>)
      requires Valid()
      modifies this
      ensures Valid() && ops == old(ops) + [Op.Get(digest, now, lifetime)]
      ensures desc == Reply(old(Now()), digest, now, lifetime)
      ensures Now() == Apply(old(Now()), Op.Get(digest, now, lifetime))
    {
      RunAppend(Created(this.maxSize, this.ttl), ops, Op.Get(digest, now, lifetime));
      desc := Lookup(digest, now, lifetime);
      ops := ops + [Op.Get(digest, now, lifetime)];
    }

    method Lookup(digest: Digest, now: nat, lifetime: nat) returns (desc: Option<string>)
      modifies this`inner, this`hits, this`misses
      ensures desc == Reply(old(Now()), digest, now, lifetime)
      ensures Now() == Apply(old(Now()), Op.Get(digest, now, lifetime))
    {
      var entry := Find(inner, digest);
      if entry.Some? {
        if Fresh(entry.value, now, lifetime) {
          inner := Promoted(inner, digest);
          hits := hits + 1;
          return Some(entry.value.desc);
        }
        Expire(digest);
      }
      misses := misses + 1;
      desc := None;
    }

    /** An expired entry is promoted by the lookup that finds it, then removed. */
    method Expire(digest: Digest)
      modifies this`inner
      ensures inner == Without(old(inner), digest)
    {
      PromotedIsRemoved(inner, digest);
      inner := Promoted(inner, digest);
      inner := Without(inner, digest);
    }

    method Set(digest: Digest, desc: string, now: nat)
      requires Valid()
      modifies this
      ensures Valid() && ops == old(ops) + [Op.Set(digest, desc, now)]
      ensures Now() == Apply(old(Now()), Op.Set(digest, desc, now))
    {
      RunAppend(Created(this.maxSize, this.ttl), ops, Op.Set(digest, desc, now));
      Store(digest, desc, now);
      ops := ops + [Op.Set(digest, desc, now)];
    }

    method Store(digest: Digest, desc: string, now: nat)
      modifies this`inner, this`evictions
      ensures Now() == Apply(old(Now()), Op.Set(digest, desc, now))
    {
      if |inner| >= cap {
        if inner != [] { evictions := evictions + 1; }
        inner := PopLru(inner);
      }
      inner := Put(inner, cap, digest, CacheEntry(desc, now));
    }

    method Resize(maxSize: nat, ttl: nat)
      requires Valid()
      modifies this
      ensures Valid() && ops == old(ops) + [Op.Resize(maxSize, ttl)]
      ensures Now() == Apply(old(Now()), Op.Resize(maxSize, ttl))
    {
      RunAppend(Created(this.maxSize, this.ttl), ops, Op.Resize(maxSize, ttl));
      Refit(maxSize, ttl);
      ops := ops + [Op.Resize(maxSize, ttl)];
    }

    method Refit(maxSize: nat, ttl: nat)
      modifies this`inner, this`cap, this`ttlMs
      ensures Now() == Apply(old(Now()), Op.Resize(maxSize, ttl))
    {
      cap := Capacity(maxSize);
      inner := Last(inner, cap);
      ttlMs := Millis(ttl);
    }

    /** The report: never more than fits, and every lookup counted once. */
    method Report() returns (r: Stats)
      requires Valid()
      ensures r == Stats(|inner|, cap, ttlMs, hits, misses, evictions)
      ensures r.size <= r.maxSize && r.hits + r.misses == Lookups(ops)
      ensures r.hits == Answered(Created(maxSize, ttl), ops)
      ensures r.evictions == WritesWithoutRoom(Created(maxSize, ttl), ops)
    {
      CountersAreExact(maxSize, ttl, ops);
      RunKeepsInv(maxSize, ttl, ops);
      LookupsAreCounted(maxSize, ttl, ops);
      r := Stats(|inner|, cap, ttlMs, hits, misses, evictions);
    }
  }

  /** Promoting an entry before removing it makes no difference. */
  lemma PromotedIsRemoved(inner: Recency, d: Digest)
    ensures Without(Promoted(inner, d), d) == Without(inner, d)
  {
    if Find(inner, d).Some? {
      var rest := Without(inner, d);
      WithoutMembers(inner, d);
      WithoutAbsent(rest, d);
      assert Promoted(inner, d)[..|rest|] == rest;
    } else {
      FindIsMember(inner, d);
      WithoutAbsent(inner, d);
    }
  }

  // ---- What every run keeps -------------------------------------------------------------

  ghost predicate Inv(s: State) {
    Distinct(s.inner) && |s.inner| <= s.cap && s.cap > 0
  }

  lemma RoomIsMade(s: State)
    requires Inv(s)
    ensures var room := MadeRoom(s.inner, s.cap);
      Distinct(room) && |room| < s.cap && forall e | e in room :: e in s.inner
  {
    if |s.inner| >= s.cap { DistinctParts(s.inner, 1); }
  }

  lemma StepKeepsInv(s: State, op: Op)
    requires Inv(s)
    ensures Inv(Apply(s, op))
  {
    match op
    case Get(d, now, ttlMs) =>
      WithoutDistinct(s.inner, d);
      WithoutSize(s.inner, d);
      if Find(s.inner, d).Some? { UsedDistinct(s.inner, d, Find(s.inner, d).value); }
    case Set(d, desc, now) =>
      RoomIsMade(s);
      UsedDistinct(MadeRoom(s.inner, s.cap), d, CacheEntry(desc, now));
    case Resize(maxSize, ttl) =>
      var n := Capacity(maxSize);
      if |s.inner| > n { DistinctParts(s.inner, |s.inner| - n); }
  }

  /** The cache never holds more than its capacity, whatever mix of operations. */
  lemma {:induction false} RunKeepsInv(maxSize: nat, ttl: nat, ops: seq<Op>)
    ensures Inv(Run(Created(maxSize, ttl), ops))
  {
    if ops != [] {
      RunKeepsInv(maxSize, ttl, ops[..|ops|-1]);
      StepKeepsInv(Run(Created(maxSize, ttl), ops[..|ops|-1]), ops[|ops|-1]);
    }
  }

  ghost function Lookups(ops: seq<Op>): nat {
    if ops == [] then 0 else Lookups(ops[..|ops|-1]) + if ops[|ops|-1].Get? then 1 else 0
  }

  lemma {:induction false} LookupsAreCounted(maxSize: nat, ttl: nat, ops: seq<Op>)
    ensures var s := Run(Created(maxSize, ttl), ops); s.hits + s.misses == Lookups(ops)
  {
    if ops != [] { LookupsAreCounted(maxSize, ttl, ops[..|ops|-1]); }
  }

  /** How many lookups were answered. */
  ghost function Answered(start: State, ops: seq<Op>): nat {
    if ops == [] then 0
    else
      var front, last := ops[..|ops|-1], ops[|ops|-1];
      Answered(start, front) +
        if last.Get? && Reply(Run(start, front), last.digest, last.now, last.ttlMs).Some? then 1 else 0
  }

  /** How many writes found no room. */
  ghost function WritesWithoutRoom(start: State, ops: seq<Op>): nat {
    if ops == [] then 0
    else
      var front, last := ops[..|ops|-1], ops[|ops|-1];
      WritesWithoutRoom(start, front) +
        if last.Set? && |Run(start, front).inner| == Run(start, front).cap then 1 else 0
  }

  /** A hit is a lookup that was answered, an eviction a write that found no room; a resize evicts uncounted. */
  lemma {:induction false} CountersAreExact(maxSize: nat, ttl: nat, ops: seq<Op>)
    ensures var start := Created(maxSize, ttl);
      && Run(start, ops).hits == Answered(start, ops)
      && Run(start, ops).evictions == WritesWithoutRoom(start, ops)
  {
    if ops != [] {
      CountersAreExact(maxSize, ttl, ops[..|ops|-1]);
      RunKeepsInv(maxSize, ttl, ops[..|ops|-1]);
    }
  }

  /** A size of zero gives room for fifty. */
  lemma ZeroMeansFifty(s: State, ttl: nat)
    ensures Created(0, ttl).cap == 50 && Apply(s, Resize(0, ttl)).cap == 50
  {
  }

  /** What was written is found for as many whole milliseconds as the lifetime has, and no longer. */
  lemma WrittenLives(s: State, d: Digest, desc: string, written: nat, now: nat, ttl: nat)
    requires Inv(s) && written <= now && ttl / 1_000_000 < U64_MODULUS
    ensures Reply(Apply(s, Set(d, desc, written)), d, now, Created(0, ttl).ttlMs) ==
      if now - written < ttl / 1_000_000 * 1_000_000 then Some(desc) else None
  {
    RoomIsMade(s);
    FindUsed(MadeRoom(s.inner, s.cap), d, CacheEntry(desc, written), d);
  }

  /** A lookup that finds an expired entry removes it, and no other. */
  lemma ExpiredIsRemoved(s: State, d: Digest, now: nat, ttlMs: nat, other: Digest)
    requires Find(s.inner, d).Some? && Reply(s, d, now, ttlMs).None?
    ensures var after := Apply(s, Get(d, now, ttlMs)).inner;
      Find(after, d).None? && (other != d ==> Find(after, other) == Find(s.inner, other))
  {
    FindWithout(s.inner, d, d);
    FindWithout(s.inner, d, other);
  }

  /** A resize keeps the entries with fewer used since than there is room for. */
  lemma ResizeKeepsTheRecent(s: State, maxSize: nat, ttl: nat, d: Digest)
    requires Inv(s) && maxSize > 0
    ensures Find(Apply(s, Resize(maxSize, ttl)).inner, d) ==
      if |Since(s.inner, d)| < maxSize then Find(s.inner, d) else None
  {
    SinceBound(s.inner, d);
    if |s.inner| > maxSize { FindSuffix(s.inner, |s.inner| - maxSize, d); }
  }

  // ---- The ideal map ------------------------------------------------------------------------

  /** The last write of a digest, and when. */
  ghost function LastSet(ops: seq<Op>, d: Digest): Option<CacheEntry> {
    if ops == [] then None
    else
      var last := ops[|ops|-1];
      if last.Set? && last.digest == d then Some(CacheEntry(last.desc, last.now)) else LastSet(ops[..|ops|-1], d)
  }

  /** The lifetime in force. */
  ghost function LastTtl(ttl: nat, ops: seq<Op>): nat {
    if ops == [] then Millis(ttl)
    else if ops[|ops|-1].Resize? then Millis(ops[|ops|-1].ttl)
    else LastTtl(ttl, ops[..|ops|-1])
  }

  /** What a map without bounds that remembers the last write would answer. */
  ghost function Ideal(ops: seq<Op>, d: Digest, now: nat, ttlMs: nat): Option<string> {
    match LastSet(ops, d)
    case Some(e) => if Fresh(e, now, ttlMs) then Some(e.desc) else None
    case None => None
  }

  lemma FindSmaller(inner: Recency, n: nat, d: Digest)
    requires Distinct(inner) && n <= |inner|
    ensures Find(inner[n..], d).Some? ==> Find(inner[n..], d) == Find(inner, d)
  {
    FindSuffix(inner, n, d);
  }

  /** After a step an entry is the one written by it, or as it was before. */
  lemma StepKeepsEntries(s: State, op: Op, d: Digest)
    requires Inv(s) && Find(Apply(s, op).inner, d).Some?
    ensures Find(Apply(s, op).inner, d) ==
      if op.Set? && op.digest == d then Some(CacheEntry(op.desc, op.now)) else Find(s.inner, d)
  {
    match op
    case Get(g, now, ttlMs) =>
      FindWithout(s.inner, g, d);
      if Find(s.inner, g).Some? { FindUsed(s.inner, g, Find(s.inner, g).value, d); }
    case Set(g, desc, now) =>
      RoomIsMade(s);
      FindUsed(MadeRoom(s.inner, s.cap), g, CacheEntry(desc, now), d);
      if |s.inner| >= s.cap { FindSmaller(s.inner, 1, d); }
    case Resize(maxSize, ttl) =>
      if |s.inner| > Capacity(maxSize) { FindSmaller(s.inner, |s.inner| - Capacity(maxSize), d); }
  }

  lemma {:induction false} EntriesAreLastSet(maxSize: nat, ttl: nat, ops: seq<Op>, d: Digest)
    ensures var found := Find(Run(Created(maxSize, ttl), ops).inner, d); found.Some? ==> found == LastSet(ops, d)
  {
    if ops != [] {
      var s := Run(Created(maxSize, ttl), ops[..|ops|-1]);
      EntriesAreLastSet(maxSize, ttl, ops[..|ops|-1], d);
      RunKeepsInv(maxSize, ttl, ops[..|ops|-1]);
      if Find(Apply(s, ops[|ops|-1]).inner, d).Some? { StepKeepsEntries(s, ops[|ops|-1], d); }
    }
  }

  /** The lifetime a lookup reads is that of the last resize. */
  lemma {:induction false} LifetimeInForce(maxSize: nat, ttl: nat, ops: seq<Op>)
    ensures Run(Created(maxSize, ttl), ops).ttlMs == LastTtl(ttl, ops)
  {
    if ops != [] { LifetimeInForce(maxSize, ttl, ops[..|ops|-1]); }
  }

  /** A lookup finds nothing or what the ideal map has: the last write, younger than the lifetime that was read. */
  lemma LookupsRefineIdeal(maxSize: nat, ttl: nat, ops: seq<Op>, d: Digest, now: nat, ttlMs: nat)
    ensures var r := Reply(Run(Created(maxSize, ttl), ops), d, now, ttlMs);
      r.Some? ==> r == Ideal(ops, d, now, ttlMs)
  {
    EntriesAreLastSet(maxSize, ttl, ops, d);
  }

  // ---- When a lookup finds what the ideal map has -----------------------------------------------

  /** A write at capacity evicts the least recently used entry, even to overwrite another. */
  lemma WriteEvictsExactly(s: State, g: Digest, desc: string, now: nat, d: Digest)
    requires Inv(s) && d != g
    ensures Find(Apply(s, Set(g, desc, now)).inner, d) ==
      if |s.inner| == s.cap && s.inner[0].key == d then None else Find(s.inner, d)
  {
    RoomIsMade(s);
    FindUsed(MadeRoom(s.inner, s.cap), g, CacheEntry(desc, now), d);
    if |s.inner| == s.cap { FindTail(s.inner, d); }
  }

  lemma {:induction false} FindTail(inner: Recency, d: Digest)
    requires Distinct(inner) && inner != []
    ensures Find(inner[1..], d) == if inner[0].key == d then None else Find(inner, d)
  {
    if |inner| > 1 {
      var n := |inner| - 1;
      FindTail(inner[..n], d);
      assert inner[1..][..n - 1] == inner[..n][1..];
    }
  }

  ghost function Others(ops: seq<Op>): set<Digest> {
    set op | op in ops && !op.Resize? :: op.digest
  }

  ghost predicate NoResize(ops: seq<Op>) {
    forall op | op in ops :: !op.Resize?
  }

  ghost predicate Keeps(s: State, d: Digest, e: CacheEntry, others: set<Digest>) {
    Find(s.inner, d) == Some(e) && Keys(Since(s.inner, d)) <= others
  }

  lemma RoomSpares(s: State, d: Digest, others: set<Digest>)
    requires Inv(s) && Find(s.inner, d).Some? && Keys(Since(s.inner, d)) <= others && |others| + 1 < s.cap
    ensures Find(MadeRoom(s.inner, s.cap), d) == Find(s.inner, d)
    ensures Keys(Since(MadeRoom(s.inner, s.cap), d)) <= others
  {
    SinceSize(s.inner, d, others);
    if |s.inner| >= s.cap { FindSuffix(s.inner, 1, d); }
  }

  lemma StepKeeps(s: State, op: Op, d: Digest, e: CacheEntry, others: set<Digest>)
    requires Inv(s) && Keeps(s, d, e, others) && |others| + 1 < s.cap
    requires !op.Resize? && op.digest != d
    ensures Keeps(Apply(s, op), d, e, others + {op.digest}) && Apply(s, op).cap == s.cap
  {
    match op
    case Get(g, now, ttlMs) =>
      FindWithout(s.inner, g, d);
      SinceWithout(s.inner, g, d);
      if Find(s.inner, g).Some? {
        FindUsed(s.inner, g, Find(s.inner, g).value, d);
        SinceUsed(s.inner, g, Find(s.inner, g).value, d);
      }
    case Set(g, desc, now) =>
      RoomIsMade(s);
      RoomSpares(s, d, others);
      FindUsed(MadeRoom(s.inner, s.cap), g, CacheEntry(desc, now), d);
      SinceUsed(MadeRoom(s.inner, s.cap), g, CacheEntry(desc, now), d);
  }

  /** A digest that was set, or looked up and found. */
  predicate IsUse(s: State, op: Op) {
    op.Set? || (op.Get? && Reply(s, op.digest, op.now, op.ttlMs).Some?)
  }

  lemma OthersAppend(front: seq<Op>, op: Op)
    ensures Others(front + [op]) == Others(front) + if op.Resize? then {} else {op.digest}
    ensures NoResize(front + [op]) <==> NoResize(front) && !op.Resize?
    ensures |Others(front)| <= |Others(front + [op])|
  {
    assert forall o :: o in front + [op] <==> o in front || o == op;
    SubsetSize(Others(front), Others(front + [op]));
  }

  lemma {:induction false} RunKeeps(maxSize: nat, ttl: nat, ops: seq<Op>, more: seq<Op>, d: Digest, e: CacheEntry)
    requires var s := Run(Created(maxSize, ttl), ops); Keeps(s, d, e, {}) && |Others(more)| + 1 < s.cap
    requires NoResize(more) && d !in Others(more)
    ensures var s := Run(Created(maxSize, ttl), ops + more);
      Keeps(s, d, e, Others(more)) && s.cap == Run(Created(maxSize, ttl), ops).cap
  {
    if more == [] {
      assert ops + more == ops;
    } else {
      var front, op := more[..|more|-1], more[|more|-1];
      assert more == front + [op] && ops + more == (ops + front) + [op];
      OthersAppend(front, op);
      RunKeeps(maxSize, ttl, ops, front, d, e);
      RunKeepsInv(maxSize, ttl, ops + front);
      RunAppend(Created(maxSize, ttl), ops + front, op);
      StepKeeps(Run(Created(maxSize, ttl), ops + front), op, d, e, Others(front));
    }
  }

  lemma JustUsed(s: State, op: Op)
    requires Inv(s) && IsUse(s, op)
    ensures var e := if op.Set? then CacheEntry(op.desc, op.now) else Find(s.inner, op.digest).value;
      Keeps(Apply(s, op), op.digest, e, {}) && Apply(s, op).cap == s.cap
  {
    match op
    case Get(d, now, ttlMs) =>
      FindUsed(s.inner, d, Find(s.inner, d).value, d);
      SinceAppend(Without(s.inner, d), Entry(d, Find(s.inner, d).value), d);
    case Set(d, desc, now) =>
      RoomIsMade(s);
      FindUsed(MadeRoom(s.inner, s.cap), d, CacheEntry(desc, now), d);
      SinceAppend(Without(MadeRoom(s.inner, s.cap), d), Entry(d, CacheEntry(desc, now)), d);
  }

  /**
   A digest that was set or found, with at most capacity - 2 distinct others used
   and no resize since, is answered as by the ideal map.
   */
  lemma WorkingSet(maxSize: nat, ttl: nat, ops: seq<Op>, op: Op, more: seq<Op>, now: nat, ttlMs: nat)
    requires var s := Run(Created(maxSize, ttl), ops); IsUse(s, op) && |Others(more)| + 1 < s.cap
    requires NoResize(more) && op.digest !in Others(more)
    ensures var all := ops + [op] + more;
      Reply(Run(Created(maxSize, ttl), all), op.digest, now, ttlMs) == Ideal(all, op.digest, now, ttlMs)
  {
    var s := Run(Created(maxSize, ttl), ops);
    var e := if op.Set? then CacheEntry(op.desc, op.now) else Find(s.inner, op.digest).value;
    RunKeepsInv(maxSize, ttl, ops);
    JustUsed(s, op);
    RunAppend(Created(maxSize, ttl), ops, op);
    RunKeeps(maxSize, ttl, ops + [op], more, op.digest, e);
    EntriesAreLastSet(maxSize, ttl, ops + [op] + more, op.digest);
  }

  // ---- One other more is too many -----------------------------------------------------------------

  /** Each of the digests is set once, in order. */
  ghost function Writes(ds: seq<Digest>, desc: string, now: nat): seq<Op> {
    if ds == [] then [] else Writes(ds[..|ds|-1], desc, now) + [Set(ds[|ds|-1], desc, now)]
  }

  ghost function Written(ds: seq<Digest>, e: CacheEntry): Recency {
    if ds == [] then [] else Written(ds[..|ds|-1], e) + [Entry(ds[|ds|-1], e)]
  }

  ghost predicate AllDifferent(ds: seq<Digest>) {
    forall i, j | 0 <= i < j < |ds| :: ds[i] != ds[j]
  }

  lemma {:induction false} WrittenKeys(ds: seq<Digest>, e: CacheEntry, d: Digest)
    ensures |Written(ds, e)| == |ds| && (d in Keys(Written(ds, e)) <==> d in ds)
    ensures ds != [] ==> Written(ds, e)[0].key == ds[0]
  {
    if ds != [] {
      WrittenKeys(ds[..|ds|-1], e, d);
      assert ds == ds[..|ds|-1] + [ds[|ds|-1]];
      KeysAppend(Written(ds[..|ds|-1], e), Entry(ds[|ds|-1], e));
    }
  }

  lemma KeysAppend(s: Recency, entry: Entry<Digest, CacheEntry>)
    ensures Keys(s + [entry]) == Keys(s) + {entry.key}
  {
  }

  /** A write of a new digest finds room. */
  lemma WriteAppends(s: State, d: Digest, desc: string, now: nat)
    requires |s.inner| < s.cap && d !in Keys(s.inner)
    ensures Apply(s, Set(d, desc, now)) == s.(inner := s.inner + [Entry(d, CacheEntry(desc, now))])
  {
    WithoutAbsent(s.inner, d);
    FindIsMember(s.inner, d);
  }

  lemma {:induction false} FilledUp(maxSize: nat, ttl: nat, ds: seq<Digest>, desc: string, now: nat)
    requires 0 < maxSize && |ds| <= maxSize && AllDifferent(ds)
    ensures var e := CacheEntry(desc, now);
      Run(Created(maxSize, ttl), Writes(ds, desc, now)) == Created(maxSize, ttl).(inner := Written(ds, e))
  {
    if ds != [] {
      var front, last := ds[..|ds|-1], ds[|ds|-1];
      FilledUp(maxSize, ttl, front, desc, now);
      WrittenKeys(front, CacheEntry(desc, now), last);
      RunAppend(Created(maxSize, ttl), Writes(front, desc, now), Set(last, desc, now));
      WriteAppends(Run(Created(maxSize, ttl), Writes(front, desc, now)), last, desc, now);
    }
  }

  lemma LastSetAppend(ops: seq<Op>, op: Op, d: Digest)
    requires op.Set?
    ensures LastSet(ops + [op], d) == if op.digest == d then Some(CacheEntry(op.desc, op.now)) else LastSet(ops, d)
  {
    assert (ops + [op])[..|ops|] == ops;
  }

  lemma {:induction false} WrittenIsLastSet(ds: seq<Digest>, desc: string, now: nat, d: Digest)
    requires d in ds
    ensures LastSet(Writes(ds, desc, now), d) == Some(CacheEntry(desc, now))
  {
    var front, last := ds[..|ds|-1], ds[|ds|-1];
    assert ds == front + [last];
    LastSetAppend(Writes(front, desc, now), Set(last, desc, now), d);
    if d != last { WrittenIsLastSet(front, desc, now, d); }
  }

  /**
   With any capacity of two or more: as many digests are set as fit, then the
   last one once more. The first, with capacity - 1 others used since, is lost.
   */
  lemma OverwritingEvicts(maxSize: nat, ttl: nat, ds: seq<Digest>, desc: string, now: nat, ttlMs: nat)
    requires |ds| == maxSize >= 2 && AllDifferent(ds) && ttlMs > 0
    ensures var ops := Writes(ds, desc, now) + [Set(ds[|ds|-1], desc, now)];
      && Ideal(ops, ds[0], now, ttlMs) == Some(desc)
      && Reply(Run(Created(maxSize, ttl), ops), ds[0], now, ttlMs) == None
  {
    var writes, again := Writes(ds, desc, now), Set(ds[|ds|-1], desc, now);
    LastSetAppend(writes, again, ds[0]);
    WrittenIsLastSet(ds, desc, now, ds[0]);
    RunAppend(Created(maxSize, ttl), writes, again);
    FilledUp(maxSize, ttl, ds, desc, now);
    RunKeepsInv(maxSize, ttl, writes);
    WrittenKeys(ds, CacheEntry(desc, now), ds[0]);
    WriteEvictsExactly(Run(Created(maxSize, ttl), writes), ds[|ds|-1], desc, now, ds[0]);
  }
}
