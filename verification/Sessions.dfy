/** Session tracking, `src/sessions.rs`: fingerprints to sessions, evicted in batches. */
module Sessions {
  import opened Common
  import opened Lru

  const CONVERSATION_MAP_MAX: nat := 10_000
  const EVICT_THRESHOLD: nat := 8_000

  datatype Session = Session(tokenIndex: nat, requestCount: nat, sessNum: nat)

  datatype TouchResult = TouchResult(sessNum: nat, requestCount: nat, tokenIndex: Option<nat>, isNew: bool)

  type Recency = seq<Entry<string, Session>>

  datatype State = State(inner: Recency, counter: nat)

  datatype Op = Touch(fp: string) | Track(fp: string, tokenIndex: nat)

  // ---- What each operation does -----------------------------------------------------

  /** At capacity, only the most recent stay. */
  function Evicted(inner: Recency): Recency {
    if |inner| >= CONVERSATION_MAP_MAX then Last(inner, EVICT_THRESHOLD) else inner
  }

  /** The session of a fingerprint that is tracked. */
  function Tracked(s: State, fp: string, tokenIndex: nat): Session {
    match Find(s.inner, fp)
    case Some(was) => was.(requestCount := was.requestCount + 1, tokenIndex := tokenIndex)
    case None => Session(tokenIndex, 1, s.counter + 1)
  }

  function Apply(s: State, op: Op): State {
    match op
    case Touch(fp) => s.(inner := Promoted(s.inner, fp))
    case Track(fp, tokenIndex) =>
      if Find(s.inner, fp).Some? then s.(inner := Used(s.inner, fp, Tracked(s, fp, tokenIndex)))
      else State(Used(Evicted(s.inner), fp, Tracked(s, fp, tokenIndex)), s.counter + 1)
  }

  function ResultFor(session: Session, isNew: bool): TouchResult {
    TouchResult(session.sessNum, session.requestCount, Some(session.tokenIndex), isNew)
  }

  function Reply(s: State, op: Op): Option<TouchResult> {
    match op
    case Touch(fp) =>
      (match Find(s.inner, fp)
       case Some(session) => Some(ResultFor(session, false))
       case None => None)
    case Track(fp, tokenIndex) => Some(ResultFor(Tracked(s, fp, tokenIndex), Find(s.inner, fp).None?))
  }

  /** The state a run of operations leads to. */
  ghost function Run(ops: seq<Op>): State {
    if ops == [] then State([], 0) else Apply(Run(ops[..|ops|-1]), ops[|ops|-1])
  }

  ghost function ReplyAt(ops: seq<Op>, i: nat): Option<TouchResult>
    requires i < |ops|
  {
    Reply(Run(ops[..i]), ops[i])
  }

  lemma RunAppend(ops: seq<Op>, op: Op)
    ensures Run(ops + [op]) == Apply(Run(ops), op)
  {
    assert (ops + [op])[..|ops|] == ops;
  }

  // ---- The map ------------------------------------------------------------------------

  class ConvMap {
    var inner: Recency
    var counter: nat
    /** The operations so far. */
    ghost var ops: seq<Op>

    ghost predicate Valid()
      reads this
    {
      State(inner, counter) == Run(ops)
    }

    constructor ()
      ensures Valid() && ops == []
    {
      inner, counter, ops := [], 0, [];
    }

    method Touch(fp: string) returns (r: Option<TouchResult>)
      requires Valid()
      modifies this
      ensures Valid() && ops == old(ops) + [Op.Touch(fp)]
      ensures r == Reply(old(State(inner, counter)), Op.Touch(fp))
      ensures State(inner, counter) == Apply(old(State(inner, counter)), Op.Touch(fp))
    {
      RunAppend(ops, Op.Touch(fp));
      ops := ops + [Op.Touch(fp)];
      var found := Find(inner, fp);
      inner := Promoted(inner, fp);
      r := if found.Some? then Some(ResultFor(found.value, false)) else None;
    }

    /** The loop that evicts a batch. */
    method Evict()
      modifies this`inner
      ensures inner == Last(old(inner), 8_000)
    {
      while |inner| > EVICT_THRESHOLD
        invariant |old(inner)| <= EVICT_THRESHOLD ==> inner == old(inner)
        invariant |old(inner)| > EVICT_THRESHOLD ==> EVICT_THRESHOLD <= |inner| <= |old(inner)|
        invariant |inner| <= |old(inner)| && inner == old(inner)[|old(inner)| - |inner|..]
      {
        inner := PopLru(inner);
      }
    }

    method Track(fp: string, tokenIndex: nat) returns (r: TouchResult)
      requires Valid()
      modifies this
      ensures Valid() && ops == old(ops) + [Op.Track(fp, tokenIndex)]
      ensures Some(r) == Reply(old(State(inner, counter)), Op.Track(fp, tokenIndex))
      ensures State(inner, counter) == Apply(old(State(inner, counter)), Op.Track(fp, tokenIndex))
    {
      RunAppend(ops, Op.Track(fp, tokenIndex));
      ops := ops + [Op.Track(fp, tokenIndex)];
      var found := Find(inner, fp);
      if found.Some? {
        var session := found.value.(requestCount := found.value.requestCount + 1, tokenIndex := tokenIndex);
        inner := Used(inner, fp, session);
        r := ResultFor(session, false);
      } else {
        var session := Insert(fp, tokenIndex);
        r := ResultFor(session, true);
      }
    }

    method Insert(fp: string, tokenIndex: nat) returns (session: Session)
      modifies this`inner, this`counter
      ensures counter == old(counter) + 1 && session == Session(tokenIndex, 1, counter)
      ensures inner == Used(Evicted(old(inner)), fp, session)
    {
      if |inner| >= CONVERSATION_MAP_MAX { Evict(); }
      counter := counter + 1;
      session := Session(tokenIndex, 1, counter);
      inner := Put(inner, CONVERSATION_MAP_MAX, fp, session);
    }
  }

  // ---- What every run keeps ---------------------------------------------------------------

  ghost predicate Inv(s: State) {
    Distinct(s.inner) && |s.inner| <= CONVERSATION_MAP_MAX
  }

  lemma EvictedKeepsInv(inner: Recency)
    requires Distinct(inner) && |inner| <= CONVERSATION_MAP_MAX
    ensures Distinct(Evicted(inner)) && |Evicted(inner)| < CONVERSATION_MAP_MAX
    ensures forall e | e in Evicted(inner) :: e in inner
  {
    if |inner| >= CONVERSATION_MAP_MAX { DistinctParts(inner, |inner| - EVICT_THRESHOLD); }
  }

  lemma StepKeepsInv(s: State, op: Op)
    requires Inv(s)
    ensures Inv(Apply(s, op))
  {
    EvictedKeepsInv(s.inner);
    match op
    case Touch(fp) =>
      if Find(s.inner, fp).Some? { UsedDistinct(s.inner, fp, Find(s.inner, fp).value); }
    case Track(fp, tokenIndex) =>
      UsedDistinct(s.inner, fp, Tracked(s, fp, tokenIndex));
      UsedDistinct(Evicted(s.inner), fp, Tracked(s, fp, tokenIndex));
  }

  /** The map never holds more than 10,000 sessions, nor a fingerprint twice. */
  lemma {:induction false} RunKeepsInv(ops: seq<Op>)
    ensures Inv(Run(ops)) && |Run(ops).inner| <= 10_000
  {
    if ops != [] {
      RunKeepsInv(ops[..|ops|-1]);
      StepKeepsInv(Run(ops[..|ops|-1]), ops[|ops|-1]);
    }
  }

  /**
   A batch eviction keeps exactly the most recent: of the other fingerprints,
   those with fewer than the threshold used since.
   */
  lemma EvictionIsExact(ops: seq<Op>, fp: string, tokenIndex: nat, other: string)
    requires Find(Run(ops).inner, fp).None? && |Run(ops).inner| == 10_000 && other != fp
    ensures |Run(ops + [Track(fp, tokenIndex)]).inner| == 8_001
    ensures var before, after := Run(ops).inner, Run(ops + [Track(fp, tokenIndex)]).inner;
      Find(after, other) == if |Since(before, other)| < 8_000 then Find(before, other) else None
  {
    var s := Run(ops);
    var n := |s.inner| - EVICT_THRESHOLD;
    RunKeepsInv(ops);
    RunAppend(ops, Track(fp, tokenIndex));
    FindSuffix(s.inner, n, other);
    FindSuffix(s.inner, n, fp);
    DistinctParts(s.inner, n);
    FindUsed(Evicted(s.inner), fp, Tracked(s, fp, tokenIndex), other);
    UsedDistinct(Evicted(s.inner), fp, Tracked(s, fp, tokenIndex));
  }

  /** With room left nothing is evicted: a new fingerprint comes on top. */
  lemma RoomKeepsAll(ops: seq<Op>, fp: string, tokenIndex: nat, other: string)
    requires Find(Run(ops).inner, fp).None? && |Run(ops).inner| < 10_000 && other != fp
    ensures var before, after := Run(ops).inner, Run(ops + [Track(fp, tokenIndex)]).inner;
      |after| == |before| + 1 && Find(after, other) == Find(before, other) && Find(after, fp).Some?
  {
    var s := Run(ops);
    RunKeepsInv(ops);
    RunAppend(ops, Track(fp, tokenIndex));
    FindUsed(s.inner, fp, Tracked(s, fp, tokenIndex), other);
    FindUsed(s.inner, fp, Tracked(s, fp, tokenIndex), fp);
    UsedDistinct(s.inner, fp, Tracked(s, fp, tokenIndex));
  }

  // ---- Session numbers -------------------------------------------------------------------------

  /** Who started a session, in order. */
  ghost function Starters(ops: seq<Op>): seq<string> {
    if ops == [] then []
    else
      var front, last := ops[..|ops|-1], ops[|ops|-1];
      var r := Reply(Run(front), last);
      Starters(front) + if r.Some? && r.value.isNew then [last.fp] else []
  }

  /** The numbers handed out with new sessions, in order. */
  ghost function Issued(ops: seq<Op>): seq<nat> {
    if ops == [] then []
    else
      var front, last := ops[..|ops|-1], ops[|ops|-1];
      var r := Reply(Run(front), last);
      Issued(front) + if r.Some? && r.value.isNew then [r.value.sessNum] else []
  }

  /** How often a session was tracked. */
  ghost function Requests(ops: seq<Op>, sessNum: nat): nat {
    if ops == [] then 0
    else
      var front, last := ops[..|ops|-1], ops[|ops|-1];
      var r := Reply(Run(front), last);
      Requests(front, sessNum) + if last.Track? && r.Some? && r.value.sessNum == sessNum then 1 else 0
  }

  ghost function LastTracked(ops: seq<Op>, fp: string): Option<nat> {
    if ops == [] then None
    else
      var last := ops[|ops|-1];
      if last.Track? && last.fp == fp then Some(last.tokenIndex) else LastTracked(ops[..|ops|-1], fp)
  }

  /** The numbers of new sessions are 1, 2, and so on up to the counter. */
  lemma {:induction false} NumbersAreConsecutive(ops: seq<Op>)
    ensures |Issued(ops)| == Run(ops).counter == |Starters(ops)|
    ensures forall i | 0 <= i < |Issued(ops)| :: Issued(ops)[i] == i + 1
  {
    if ops != [] { NumbersAreConsecutive(ops[..|ops|-1]); }
  }

  /** What a session says is so: who started it, how often and with what it was tracked. */
  ghost predicate Faithful(ops: seq<Op>, fp: string, session: Session) {
    && 1 <= session.sessNum <= |Starters(ops)| && Starters(ops)[session.sessNum - 1] == fp
    && session.requestCount == Requests(ops, session.sessNum)
    && LastTracked(ops, fp) == Some(session.tokenIndex)
  }

  ghost predicate AllFaithful(ops: seq<Op>) {
    forall e | e in Run(ops).inner :: Faithful(ops, e.key, e.val)
  }

  /** What one more operation adds to the history. */
  lemma HistoryStep(front: seq<Op>, op: Op, n: nat, fp: string)
    ensures var r, all := Reply(Run(front), op), front + [op];
      && Starters(all) == Starters(front) + (if r.Some? && r.value.isNew then [op.fp] else [])
      && Requests(all, n) == Requests(front, n) + (if op.Track? && r.Some? && r.value.sessNum == n then 1 else 0)
      && LastTracked(all, fp) == (if op.Track? && op.fp == fp then Some(op.tokenIndex) else LastTracked(front, fp))
  {
    assert (front + [op])[..|front|] == front;
  }

  /** No session beyond the counter was ever tracked. */
  lemma {:induction false} UnissuedUntracked(ops: seq<Op>, sessNum: nat)
    requires sessNum > Run(ops).counter
    ensures Requests(ops, sessNum) == 0
    decreases |ops|, 0
  {
    if ops != [] {
      var front, last := ops[..|ops|-1], ops[|ops|-1];
      EntriesAreFaithful(front);
      NumbersAreConsecutive(front);
      UnissuedUntracked(front, sessNum);
      FindIsMember(Run(front).inner, last.fp);
    }
  }

  lemma FoundIsFaithful(ops: seq<Op>, fp: string)
    requires AllFaithful(ops)
    ensures var found := Find(Run(ops).inner, fp); found.Some? ==> Faithful(ops, fp, found.value)
  {
    FindIsMember(Run(ops).inner, fp);
  }

  lemma OtherEntry(front: seq<Op>, op: Op, e: Entry<string, Session>)
    requires AllFaithful(front) && e in Run(front).inner && e.key != op.fp
    ensures Faithful(front + [op], e.key, e.val)
  {
    assert Faithful(front, e.key, e.val);
    HistoryStep(front, op, e.val.sessNum, e.key);
    OtherSession(front, op, e);
  }

  lemma FaithfulApart(ops: seq<Op>, a: string, s: Session, b: string, t: Session)
    requires Faithful(ops, a, s) && Faithful(ops, b, t) && a != b
    ensures s.sessNum != t.sessNum
  {
  }

  lemma OtherSession(front: seq<Op>, op: Op, e: Entry<string, Session>)
    requires AllFaithful(front) && e in Run(front).inner && e.key != op.fp
    ensures Reply(Run(front), op).Some? ==> Reply(Run(front), op).value.sessNum != e.val.sessNum
  {
    assert Faithful(front, e.key, e.val);
    NumbersAreConsecutive(front);
    FoundIsFaithful(front, op.fp);
    var found := Find(Run(front).inner, op.fp);
    if found.Some? { FaithfulApart(front, e.key, e.val, op.fp, found.value); }
  }

  function SessionOf(r: TouchResult): Session
    requires r.tokenIndex.Some?
  {
    Session(r.tokenIndex.value, r.requestCount, r.sessNum)
  }

  lemma KnownTouch(front: seq<Op>, op: Op)
    requires AllFaithful(front) && Find(Run(front).inner, op.fp).Some? && op.Touch?
    ensures Faithful(front + [op], op.fp, SessionOf(Reply(Run(front), op).value))
  {
    FoundIsFaithful(front, op.fp);
    HistoryStep(front, op, Find(Run(front).inner, op.fp).value.sessNum, op.fp);
  }

  lemma KnownTrack(front: seq<Op>, op: Op)
    requires AllFaithful(front) && Find(Run(front).inner, op.fp).Some? && op.Track?
    ensures Faithful(front + [op], op.fp, SessionOf(Reply(Run(front), op).value))
  {
    FoundIsFaithful(front, op.fp);
    HistoryStep(front, op, Find(Run(front).inner, op.fp).value.sessNum, op.fp);
  }

  lemma {:induction false} NewReply(front: seq<Op>, op: Op)
    requires Find(Run(front).inner, op.fp).None? && op.Track?
    ensures Faithful(front + [op], op.fp, SessionOf(Reply(Run(front), op).value))
    decreases |front|, 2
  {
    var sessNum := Run(front).counter + 1;
    HistoryStep(front, op, sessNum, op.fp);
    NumbersAreConsecutive(front);
    UnissuedUntracked(front, sessNum);
  }

  lemma {:induction false} ReplyIsFaithful(front: seq<Op>, op: Op)
    requires AllFaithful(front) && Reply(Run(front), op).Some?
    ensures Faithful(front + [op], op.fp, SessionOf(Reply(Run(front), op).value))
    decreases |front|, 3
  {
    if Find(Run(front).inner, op.fp).None? {
      NewReply(front, op);
    } else if op.Touch? {
      KnownTouch(front, op);
    } else {
      KnownTrack(front, op);
    }
  }

  /** What a reply says is what the step left in the map. */
  lemma FoundAfter(s: State, op: Op)
    ensures var r := Reply(s, op);
      Find(Apply(s, op).inner, op.fp) == if r.Some? then Some(SessionOf(r.value)) else None
  {
    match op
    case Touch(fp) =>
      if Find(s.inner, fp).Some? { FindUsed(s.inner, fp, Find(s.inner, fp).value, fp); }
    case Track(fp, tokenIndex) =>
      FindUsed(s.inner, fp, Tracked(s, fp, tokenIndex), fp);
      FindUsed(Evicted(s.inner), fp, Tracked(s, fp, tokenIndex), fp);
  }

  lemma {:induction false} UsedEntry(front: seq<Op>, op: Op, e: Entry<string, Session>)
    requires AllFaithful(front) && e in Run(front + [op]).inner && e.key == op.fp
    ensures Faithful(front + [op], e.key, e.val)
    decreases |front|, 4
  {
    RunKeepsInv(front + [op]);
    MemberIsFound(Run(front + [op]).inner, e);
    RunAppend(front, op);
    FoundAfter(Run(front), op);
    ReplyIsFaithful(front, op);
  }

  /** An entry after a step was there before, unless it is the one used. */
  lemma EntryAfter(s: State, op: Op, e: Entry<string, Session>)
    requires Inv(s) && e in Apply(s, op).inner && e.key != op.fp
    ensures e in s.inner
  {
    EvictedKeepsInv(s.inner);
    WithoutMembers(s.inner, op.fp);
    WithoutMembers(Evicted(s.inner), op.fp);
  }

  lemma {:induction false} EntriesAreFaithful(ops: seq<Op>)
    ensures AllFaithful(ops)
    decreases |ops|, 1
  {
    if ops != [] {
      var front, op := ops[..|ops|-1], ops[|ops|-1];
      EntriesAreFaithful(front);
      RunKeepsInv(front);
      assert ops == front + [op];
      forall e | e in Run(ops).inner ensures Faithful(ops, e.key, e.val) {
        if e.key == op.fp {
          UsedEntry(front, op, e);
        } else {
          EntryAfter(Run(front), op, e);
          OtherEntry(front, op, e);
        }
      }
    }
  }

  /**
   A reply names the session its fingerprint started, counts the requests
   tracked in it, and gives the token index tracked last.
   */
  lemma RepliesAreFaithful(ops: seq<Op>, op: Op)
    requires Reply(Run(ops), op).Some?
    ensures Faithful(ops + [op], op.fp, SessionOf(Reply(Run(ops), op).value))
    ensures Reply(Run(ops), op).value.isNew <==> Find(Run(ops).inner, op.fp).None?
  {
    EntriesAreFaithful(ops);
    ReplyIsFaithful(ops, op);
  }

  lemma {:induction false} StartersExtend(ops: seq<Op>, more: seq<Op>)
    ensures Starters(ops) <= Starters(ops + more)
  {
    if more == [] {
      assert ops + more == ops;
    } else {
      var front, op := more[..|more|-1], more[|more|-1];
      assert ops + more == (ops + front) + [op];
      StartersExtend(ops, front);
      HistoryStep(ops + front, op, 0, op.fp);
    }
  }

  lemma ReplyNamesStarter(front: seq<Op>, op: Op, more: seq<Op>, n: nat)
    requires Reply(Run(front), op).Some? && Reply(Run(front), op).value.sessNum == n
    ensures var starters := Starters(front + [op] + more); 1 <= n <= |starters| && starters[n - 1] == op.fp
  {
    RepliesAreFaithful(front, op);
    StarterStays(front + [op], more, n, op.fp);
  }

  lemma StarterStays(ops: seq<Op>, more: seq<Op>, n: nat, fp: string)
    requires 1 <= n <= |Starters(ops)| && Starters(ops)[n - 1] == fp
    ensures n <= |Starters(ops + more)| && Starters(ops + more)[n - 1] == fp
  {
    StartersExtend(ops, more);
  }

  lemma EveryReplyNamesStarter(ops: seq<Op>, i: nat, n: nat)
    requires i < |ops| && ReplyAt(ops, i).Some? && ReplyAt(ops, i).value.sessNum == n
    ensures 1 <= n <= |Starters(ops)| && Starters(ops)[n - 1] == ops[i].fp
  {
    assert ops == ops[..i] + [ops[i]] + ops[i+1..];
    ReplyNamesStarter(ops[..i], ops[i], ops[i+1..], n);
  }

  /** A session number is never given to two fingerprints, evictions or not. */
  lemma NumbersAreNotShared(ops: seq<Op>, i: nat, j: nat)
    requires i < |ops| && j < |ops| && ReplyAt(ops, i).Some? && ReplyAt(ops, j).Some?
    requires ReplyAt(ops, i).value.sessNum == ReplyAt(ops, j).value.sessNum
    ensures ops[i].fp == ops[j].fp
  {
    var n := ReplyAt(ops, i).value.sessNum;
    EveryReplyNamesStarter(ops, i, n);
    EveryReplyNamesStarter(ops, j, n);
  }

  // ---- The working set ----------------------------------------------------------------------------

  ghost function Fingerprints(ops: seq<Op>): set<string> {
    set op | op in ops :: op.fp
  }

  /** The fingerprint has its session, and only `others` were used since. */
  ghost predicate Keeps(s: State, fp: string, session: Session, others: set<string>) {
    Find(s.inner, fp) == Some(session) && Keys(Since(s.inner, fp)) <= others
  }

  lemma EvictionSpares(inner: Recency, fp: string, others: set<string>)
    requires Distinct(inner) && Keys(Since(inner, fp)) <= others && |others| < EVICT_THRESHOLD
    ensures Find(Evicted(inner), fp) == Find(inner, fp)
    ensures Find(inner, fp).Some? ==> Keys(Since(Evicted(inner), fp)) <= others
  {
    SinceSize(inner, fp, others);
    if |inner| >= CONVERSATION_MAP_MAX { FindSuffix(inner, |inner| - EVICT_THRESHOLD, fp); }
  }

  lemma StepKeeps(s: State, op: Op, fp: string, session: Session, others: set<string>)
    requires Inv(s) && Keeps(s, fp, session, others) && op.fp != fp && |others| < EVICT_THRESHOLD
    ensures Keeps(Apply(s, op), fp, session, others + {op.fp})
  {
    EvictionSpares(s.inner, fp, others);
    match op
    case Touch(g) =>
      if Find(s.inner, g).Some? {
        SinceUsed(s.inner, g, Find(s.inner, g).value, fp);
        FindUsed(s.inner, g, Find(s.inner, g).value, fp);
      }
    case Track(g, tokenIndex) =>
      var session := Tracked(s, g, tokenIndex);
      SinceUsed(s.inner, g, session, fp);
      FindUsed(s.inner, g, session, fp);
      SinceUsed(Evicted(s.inner), g, session, fp);
      FindUsed(Evicted(s.inner), g, session, fp);
  }

  lemma {:induction false} RunKeeps(ops: seq<Op>, more: seq<Op>, fp: string, session: Session)
    requires Keeps(Run(ops), fp, session, {})
    requires fp !in Fingerprints(more) && |Fingerprints(more)| < EVICT_THRESHOLD
    ensures Keeps(Run(ops + more), fp, session, Fingerprints(more))
  {
    if more == [] {
      assert ops + more == ops;
    } else {
      var front, op := more[..|more|-1], more[|more|-1];
      assert more == front + [op] && ops + more == (ops + front) + [op];
      assert Fingerprints(more) == Fingerprints(front) + {op.fp};
      SubsetSize(Fingerprints(front), Fingerprints(more));
      RunKeeps(ops, front, fp, session);
      RunKeepsInv(ops + front);
      RunAppend(ops + front, op);
      StepKeeps(Run(ops + front), op, fp, session, Fingerprints(front));
    }
  }

  lemma JustUsed(s: State, op: Op)
    requires Reply(s, op).Some?
    ensures Keeps(Apply(s, op), op.fp, SessionOf(Reply(s, op).value), {})
  {
    FoundAfter(s, op);
    match op
    case Touch(fp) => SinceAppend(Without(s.inner, fp), Entry(fp, Find(s.inner, fp).value), fp);
    case Track(fp, tokenIndex) =>
      SinceAppend(Without(s.inner, fp), Entry(fp, Tracked(s, fp, tokenIndex)), fp);
      SinceAppend(Without(Evicted(s.inner), fp), Entry(fp, Tracked(s, fp, tokenIndex)), fp);
  }

  /**
   The working-set guarantee: a fingerprint that was tracked or found, with fewer
   than 8,000 distinct others used since, is still found, in the same session and
   with the token index tracked last.
   */
  lemma WorkingSet(ops: seq<Op>, op: Op, more: seq<Op>)
    requires Reply(Run(ops), op).Some?
    requires op.fp !in Fingerprints(more) && |Fingerprints(more)| < 8_000
    ensures var r := Reply(Run(ops + [op] + more), Touch(op.fp));
      && r == Some(Reply(Run(ops), op).value.(isNew := false))
      && r.value.tokenIndex == LastTracked(ops + [op] + more, op.fp)
  {
    var session := SessionOf(Reply(Run(ops), op).value);
    var all := ops + [op] + more;
    JustUsed(Run(ops), op);
    RunAppend(ops, op);
    RunKeeps(ops + [op], more, op.fp, session);
    FindIsMember(Run(all).inner, op.fp);
    EntriesAreFaithful(all);
    assert Faithful(all, op.fp, session);
  }
}
