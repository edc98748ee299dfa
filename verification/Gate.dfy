/**
 The concurrency gate of `src/gate.rs` as interleaved atomic steps.

 Every atomic operation of `acquire`, of the guard's drop and of `reconcile` is
 one step; between two steps of a task any other task may move. Tasks are
 anonymous, so a state holds how many tasks stand at each program point. The
 semaphore is a count of free permits; a waiter that has been handed a permit
 but has not run yet still leaves it in that count, so a try fails unless there
 are more free permits than tasks in the semaphore's own queue. Of those the
 steps know only that they are among the waiting; class `Gate` counts them.
 */
module ConcurrencyGate {
  import opened Common

  const MAX_QUEUE_SIZE: u64 := 256
  const DEFAULT_CONCURRENCY_LIMIT: nat := 4

  /** How many tasks stand at each point of `acquire` or of the guard's drop. */
  datatype Tasks = Tasks(
    entering: nat,      // about to load `queued`
    enqueueing: nat,    // saw room: about to increment `queued`
    waiting: nat,       // awaiting a permit
    admitted: nat,      // holds the permit: about to decrement `queued`
    trying: nat,        // saw a full queue: about to try for a permit
    tryAdmitted: nat,   // holds the permit: about to decrement `queued` all the same
    rejected: nat,      // got no permit: about to count the rejection
    counting: nat,      // about to increment `active`
    active: nat,        // request in flight, guard held
    releasing: nat)     // `active` decremented: about to return the permit

  datatype Reconcile =
    | Idle
    | Growing(limit: nat, extra: nat)
    | Shrinking(limit: nat, left: nat)
    | Storing(limit: nat)

  datatype State = State(
    free: nat,
    granted: nat,
    active: int,
    queued: u64,
    throttled: nat,
    tasks: Tasks,
    reconcile: Reconcile,
    past: History)

  /** Totals over the run so far. */
  datatype History = History(
    shortfall: nat,       // permits a shrink could not take back
    dropped: nat,         // waits dropped mid-await
    fullAdmissions: nat)  // decrements on the full-queue branch

  datatype Step =
    | Arrive | Load | Enqueue | Take | Cancel | Dequeue
    | Try(success: bool) | TryDequeue | Throttle
    | Activate | Deactivate | Release
    | BumpThrottled
    | ReconcileStart(limit: Option<nat>) | AddPermits | Forget(success: bool) | Store

  /** No limit means the default one. */
  function Wanted(limit: Option<nat>): nat {
    match limit
    case Some(n) => n
    case None => DEFAULT_CONCURRENCY_LIMIT
  }

  function New(limit: Option<nat>): State {
    State(Wanted(limit), Wanted(limit), 0, 0, 0, Tasks(0, 0, 0, 0, 0, 0, 0, 0, 0, 0), Idle, History(0, 0, 0))
  }

  function Increment(n: u64): u64 {
    Wrap(n + 1)
  }

  function Decrement(n: u64): u64 {
    Wrap(n - 1)
  }

  predicate Enabled(s: State, step: Step) {
    match step
    case Arrive => true
    case Load => s.tasks.entering > 0
    case Enqueue => s.tasks.enqueueing > 0
    case Take => s.tasks.waiting > 0 && s.free > 0
    case Cancel => s.tasks.waiting > 0
    case Dequeue => s.tasks.admitted > 0
    case Try(success) => s.tasks.trying > 0 && if success then s.free > 0 else s.free <= s.tasks.waiting
    case TryDequeue => s.tasks.tryAdmitted > 0
    case Throttle => s.tasks.rejected > 0
    case Activate => s.tasks.counting > 0
    case Deactivate => s.tasks.active > 0
    case Release => s.tasks.releasing > 0
    case BumpThrottled => true
    case ReconcileStart(_) => s.reconcile.Idle?
    case AddPermits => s.reconcile.Growing?
    case Forget(success) =>
      && s.reconcile.Shrinking? && s.reconcile.left > 0
      && if success then s.free > 0 else s.free <= s.tasks.waiting
    case Store => s.reconcile.Storing? || (s.reconcile.Shrinking? && s.reconcile.left == 0)
  }

  /** One atomic operation. */
  function Apply(s: State, step: Step): State
    requires Enabled(s, step)
  {
    var t := s.tasks;
    match step
    case Arrive => s.(tasks := t.(entering := t.entering + 1))
    case Load =>
      if s.queued >= MAX_QUEUE_SIZE then s.(tasks := t.(entering := t.entering - 1, trying := t.trying + 1))
      else s.(tasks := t.(entering := t.entering - 1, enqueueing := t.enqueueing + 1))
    case Enqueue =>
      s.(tasks := t.(enqueueing := t.enqueueing - 1, waiting := t.waiting + 1), queued := Increment(s.queued))
    case Take =>
      s.(tasks := t.(waiting := t.waiting - 1, admitted := t.admitted + 1), free := s.free - 1)
    case Cancel =>
      s.(tasks := t.(waiting := t.waiting - 1), past := s.past.(dropped := s.past.dropped + 1))
    case Dequeue =>
      s.(tasks := t.(admitted := t.admitted - 1, counting := t.counting + 1), queued := Decrement(s.queued))
    case Try(success) =>
      if success then
        s.(tasks := t.(trying := t.trying - 1, tryAdmitted := t.tryAdmitted + 1), free := s.free - 1)
      else s.(tasks := t.(trying := t.trying - 1, rejected := t.rejected + 1))
    case TryDequeue =>
      s.(tasks := t.(tryAdmitted := t.tryAdmitted - 1, counting := t.counting + 1), queued := Decrement(s.queued),
         past := s.past.(fullAdmissions := s.past.fullAdmissions + 1))
    case Throttle => s.(tasks := t.(rejected := t.rejected - 1), throttled := s.throttled + 1)
    case Activate =>
      s.(tasks := t.(counting := t.counting - 1, active := t.active + 1), active := s.active + 1)
    case Deactivate =>
      s.(tasks := t.(active := t.active - 1, releasing := t.releasing + 1), active := s.active - 1)
    case Release => s.(tasks := t.(releasing := t.releasing - 1), free := s.free + 1)
    case BumpThrottled => s.(throttled := s.throttled + 1)
    case ReconcileStart(limit) =>
      var wanted := Wanted(limit);
      if wanted > s.granted then s.(reconcile := Growing(wanted, wanted - s.granted))
      else if wanted < s.granted then s.(reconcile := Shrinking(wanted, s.granted - wanted))
      else s
    case AddPermits => s.(free := s.free + s.reconcile.extra, reconcile := Storing(s.reconcile.limit))
    case Forget(success) =>
      var less := s.reconcile.(left := s.reconcile.left - 1);
      if success then s.(reconcile := less, free := s.free - 1)
      else s.(reconcile := less, past := s.past.(shortfall := s.past.shortfall + 1))
    case Store => s.(granted := s.reconcile.limit, reconcile := Idle)
  }

  /** The steps can be taken one after the other. */
  predicate Runs(s: State, steps: seq<Step>)
    decreases |steps|
  {
    steps == [] || (Enabled(s, steps[0]) && Runs(Apply(s, steps[0]), steps[1..]))
  }

  function After(s: State, steps: seq<Step>): State
    requires Runs(s, steps)
    decreases |steps|
  {
    if steps == [] then s else After(Apply(s, steps[0]), steps[1..])
  }

  // ---- The invariant ------------------------------------------------------------

  /** Permits in the hands of tasks. */
  function Held(t: Tasks): nat {
    t.admitted + t.tryAdmitted + t.counting + t.active + t.releasing
  }

  function Total(s: State): nat {
    s.free + Held(s.tasks)
  }

  /** What `queued` stands for, as an integer. */
  function QueueBalance(s: State): int {
    s.tasks.waiting + s.tasks.admitted + s.past.dropped - s.past.fullAdmissions
  }

  /** Every permit issued is free or held, and the limit plus the shortfall is issued, or is being. */
  ghost predicate PermitsInv(s: State) {
    match s.reconcile
    case Idle => Total(s) == s.granted + s.past.shortfall
    case Growing(limit, extra) => Total(s) == s.granted + s.past.shortfall && limit == s.granted + extra
    case Shrinking(limit, left) => Total(s) == limit + left + s.past.shortfall && limit + left <= s.granted
    case Storing(limit) => Total(s) == limit + s.past.shortfall
  }

  /** `queued` is its balance, up to wrap-around. */
  ghost predicate QueueInv(s: State) {
    s.queued == Wrap(QueueBalance(s))
  }

  ghost predicate Inv(s: State) {
    s.active == s.tasks.active && PermitsInv(s) && QueueInv(s)
  }

  lemma WrapsLikeModulus(balance: int)
    ensures Increment(Wrap(balance)) == Wrap(balance + 1)
    ensures Decrement(Wrap(balance)) == Wrap(balance - 1)
  {
    var q, r := balance / 0x1_0000_0000_0000_0000, Wrap(balance);
    assert balance == q * 0x1_0000_0000_0000_0000 + r;
  }

  lemma CountsBack(q: u64)
    ensures Decrement(Increment(q)) == q
  {
  }

  predicate OfReconcile(step: Step) {
    step.ReconcileStart? || step.AddPermits? || step.Forget? || step.Store?
  }

  lemma TaskStepKeepsPermits(s: State, step: Step)
    requires s.active == s.tasks.active && Enabled(s, step) && !OfReconcile(step)
    ensures Apply(s, step).active == Apply(s, step).tasks.active
    ensures Total(Apply(s, step)) == Total(s) && Apply(s, step).granted == s.granted
    ensures Apply(s, step).reconcile == s.reconcile && Apply(s, step).past.shortfall == s.past.shortfall
  {
  }

  lemma ReconcileStepKeepsPermits(s: State, step: Step)
    requires PermitsInv(s) && Enabled(s, step) && OfReconcile(step)
    ensures Apply(s, step).active == s.active && Apply(s, step).tasks == s.tasks
    ensures PermitsInv(Apply(s, step))
  {
  }

  lemma StepKeepsPermits(s: State, step: Step)
    requires s.active == s.tasks.active && PermitsInv(s) && Enabled(s, step)
    ensures Apply(s, step).active == Apply(s, step).tasks.active && PermitsInv(Apply(s, step))
  {
    if OfReconcile(step) { ReconcileStepKeepsPermits(s, step); } else { TaskStepKeepsPermits(s, step); }
  }

  /** A step changes the counter as it changes the balance. */
  lemma StepBalance(s: State, step: Step)
    requires Enabled(s, step)
    ensures var next := Apply(s, step);
      || (QueueBalance(next) == QueueBalance(s) && next.queued == s.queued)
      || (QueueBalance(next) == QueueBalance(s) + 1 && next.queued == Increment(s.queued))
      || (QueueBalance(next) == QueueBalance(s) - 1 && next.queued == Decrement(s.queued))
  {
  }

  lemma StepKeepsQueue(s: State, step: Step)
    requires QueueInv(s) && Enabled(s, step)
    ensures QueueInv(Apply(s, step))
  {
    StepBalance(s, step);
    WrapsLikeModulus(QueueBalance(s));
  }

  predicate Grows(before: History, after: History) {
    && before.shortfall <= after.shortfall && before.dropped <= after.dropped
    && before.fullAdmissions <= after.fullAdmissions
  }

  lemma StepKeepsInv(s: State, step: Step)
    requires Inv(s) && Enabled(s, step)
    ensures Inv(Apply(s, step))
  {
    StepKeepsPermits(s, step);
    StepKeepsQueue(s, step);
  }

  lemma StepGrows(s: State, step: Step)
    requires Enabled(s, step)
    ensures Grows(s.past, Apply(s, step).past)
  {
  }

  /** The invariant holds at every point of every interleaving, and the totals only grow. */
  lemma {:induction false} RunKeepsInv(s: State, steps: seq<Step>)
    requires Inv(s) && Runs(s, steps)
    ensures Inv(After(s, steps)) && Grows(s.past, After(s, steps).past)
    decreases |steps|
  {
    if steps != [] {
      StepKeepsInv(s, steps[0]);
      StepGrows(s, steps[0]);
      RunKeepsInv(Apply(s, steps[0]), steps[1..]);
    }
  }

  // ---- No overshoot ----------------------------------------------------------------

  ghost predicate Respected(s: State) {
    && s.active <= Held(s.tasks) <= Total(s)
    && (s.reconcile.Idle? ==> Total(s) == s.granted + s.past.shortfall)
    && s.active <= (if s.reconcile.Storing? then s.reconcile.limit else s.granted) + s.past.shortfall
  }

  lemma InvRespects(s: State)
    requires Inv(s)
    ensures Respected(s)
  {
  }

  lemma NewKeepsInv(limit: Option<nat>)
    ensures Inv(New(limit))
  {
  }

  /**
   At every point of every run `active` is at most the permits held, and those
   at most the permits issued. Between reconciles these are the limit plus the
   shortfall; during one they are no more until the permits of a growing limit
   have been added, and then no more than the limit about to be stored and the
   shortfall. So without a shortfall the limit is respected.
   */
  lemma NoOvershoot(limit: Option<nat>, steps: seq<Step>)
    requires Runs(New(limit), steps)
    ensures Respected(After(New(limit), steps))
  {
    NewKeepsInv(limit);
    RunKeepsInv(New(limit), steps);
    InvRespects(After(New(limit), steps));
  }

  lemma {:induction false} RunsConcatenate(s: State, a: seq<Step>, b: seq<Step>)
    requires Runs(s, a) && Runs(After(s, a), b)
    ensures Runs(s, a + b) && After(s, a + b) == After(After(s, a), b)
    decreases |a|
  {
    if a == [] {
      assert a + b == b;
    } else {
      RunsConcatenate(Apply(s, a[0]), a[1..], b);
      assert (a + b)[1..] == a[1..] + b;
    }
  }

  lemma AppendStep(s: State, steps: seq<Step>, step: Step)
    requires Runs(s, steps) && Enabled(After(s, steps), step)
    ensures Runs(s, steps + [step]) && After(s, steps + [step]) == Apply(After(s, steps), step)
  {
    assert [step][1..] == [];
    RunsConcatenate(s, steps, [step]);
  }

  /** A run of two steps. */
  lemma TwoSteps(s: State, first: Step, second: Step) returns (steps: seq<Step>)
    requires Enabled(s, first) && Enabled(Apply(s, first), second)
    ensures Runs(s, steps) && After(s, steps) == Apply(Apply(s, first), second)
  {
    AppendStep(s, [], first);
    steps := [] + [first];
    AppendStep(s, steps, second);
    steps := steps + [second];
  }

  /** With room in the queue, one more task comes to wait. */
  lemma QueueOne(s: State) returns (steps: seq<Step>)
    requires s.queued < MAX_QUEUE_SIZE
    ensures Runs(s, steps)
    ensures After(s, steps) == s.(queued := s.queued + 1, tasks := s.tasks.(waiting := s.tasks.waiting + 1))
  {
    steps := TwoSteps(s, Arrive, Load);
    AppendStep(s, steps, Enqueue);
    steps := steps + [Enqueue];
  }

  /** If a permit is free it takes it. */
  lemma HoldOne(s: State) returns (steps: seq<Step>)
    requires s.free > 0 && s.queued < MAX_QUEUE_SIZE
    ensures Runs(s, steps)
    ensures After(s, steps) ==
      s.(free := s.free - 1, queued := s.queued + 1, tasks := s.tasks.(admitted := s.tasks.admitted + 1))
  {
    steps := QueueOne(s);
    AppendStep(s, steps, Take);
    steps := steps + [Take];
  }

  /** With a free permit and room in the queue, one more request can become active. */
  lemma AdmitOne(s: State) returns (steps: seq<Step>)
    requires s.free > 0 && s.queued < MAX_QUEUE_SIZE
    ensures Runs(s, steps)
    ensures After(s, steps) ==
      s.(free := s.free - 1, active := s.active + 1, tasks := s.tasks.(active := s.tasks.active + 1))
  {
    steps := HoldOne(s);
    var rest := TwoSteps(After(s, steps), Dequeue, Activate);
    RunsConcatenate(s, steps, rest);
    steps := steps + rest;
  }

  /** So all free permits can come into use. */
  lemma {:induction false} FillUp(s: State) returns (steps: seq<Step>)
    requires s.queued < MAX_QUEUE_SIZE
    ensures Runs(s, steps)
    ensures After(s, steps) ==
      s.(free := 0, active := s.active + s.free, tasks := s.tasks.(active := s.tasks.active + s.free))
    decreases s.free
  {
    steps := [];
    if s.free > 0 {
      var first := AdmitOne(s);
      var rest := FillUp(After(s, first));
      RunsConcatenate(s, first, rest);
      steps := first + rest;
    }
  }

  /**
   A shortfall is for good: from a settled state with room in the queue, `granted`
   plus the whole shortfall can become active at once.
   */
  lemma ShortfallIsUsable(s: State) returns (steps: seq<Step>)
    requires Inv(s) && s.reconcile.Idle? && s.queued < MAX_QUEUE_SIZE
    requires Held(s.tasks) == s.tasks.active
    ensures Runs(s, steps)
    ensures After(s, steps).granted == s.granted
    ensures After(s, steps).active == s.granted + s.past.shortfall
  {
    steps := FillUp(s);
  }

  /** With no permit free, the rest of a shrink takes none back. */
  lemma {:induction false} ForgetNone(s: State) returns (steps: seq<Step>)
    requires s.reconcile.Shrinking? && s.free == 0
    ensures Runs(s, steps)
    ensures After(s, steps) == s.(reconcile := Shrinking(s.reconcile.limit, 0),
      past := s.past.(shortfall := s.past.shortfall + s.reconcile.left))
    decreases s.reconcile.left
  {
    steps := [];
    if s.reconcile.left > 0 {
      AppendStep(s, [], Forget(false));
      var first := [] + [Forget(false)];
      var rest := ForgetNone(After(s, first));
      RunsConcatenate(s, first, rest);
      steps := first + rest;
    }
  }

  lemma ShrinkInUse(s: State, m: nat) returns (steps: seq<Step>)
    requires s.reconcile.Idle? && m < s.granted && s.free == 0
    ensures Runs(s, steps)
    ensures After(s, steps) == s.(granted := m, past := s.past.(shortfall := s.past.shortfall + s.granted - m))
  {
    AppendStep(s, [], ReconcileStart(Some(m)));
    steps := [] + [ReconcileStart(Some(m))];
    var rest := ForgetNone(After(s, steps));
    RunsConcatenate(s, steps, rest);
    steps := steps + rest;
    AppendStep(s, steps, Store);
    steps := steps + [Store];
  }

  /** The limit is exceeded: a gate of `n` permits all in use, shrunk to `m`, is left with `n` active. */
  lemma ShrinkOvershoots(n: nat, m: nat) returns (steps: seq<Step>)
    requires m < n
    ensures Runs(New(Some(n)), steps)
    ensures var s := After(New(Some(n)), steps);
      s.reconcile.Idle? && s.granted == m && s.active == n && s.past.shortfall == n - m
  {
    steps := FillUp(New(Some(n)));
    var rest := ShrinkInUse(After(New(Some(n)), steps), m);
    RunsConcatenate(New(Some(n)), steps, rest);
    steps := steps + rest;
  }

  // ---- The queue --------------------------------------------------------------------

  /** At no point of the run do more than `most` tasks stand between load and increment. */
  predicate FewEnqueueing(s: State, steps: seq<Step>, most: nat)
    requires Runs(s, steps)
    decreases |steps|
  {
    s.tasks.enqueueing <= most && (steps == [] || FewEnqueueing(Apply(s, steps[0]), steps[1..], most))
  }

  ghost predicate QueueBounded(s: State, most: nat) {
    && s.past.fullAdmissions == 0
    && s.queued == QueueBalance(s)
    && s.queued + s.tasks.enqueueing < MAX_QUEUE_SIZE + most
  }

  lemma {:induction false} QueueStaysBounded(s: State, steps: seq<Step>, most: nat)
    requires Inv(s) && Runs(s, steps) && FewEnqueueing(s, steps, most)
    requires QueueBounded(s, most) && MAX_QUEUE_SIZE + most <= U64_MODULUS
    requires After(s, steps).past.fullAdmissions == 0
    ensures QueueBounded(After(s, steps), most)
    decreases |steps|
  {
    if steps != [] {
      var next := Apply(s, steps[0]);
      StepKeepsInv(s, steps[0]);
      RunKeepsInv(next, steps[1..]);
      BoundedStep(s, steps[0], most);
      QueueStaysBounded(next, steps[1..], most);
    }
  }

  lemma NewIsBounded(limit: Option<nat>, most: nat)
    ensures QueueBounded(New(limit), most)
  {
  }

  lemma BoundedStep(s: State, step: Step, most: nat)
    requires QueueBounded(s, most) && Enabled(s, step) && MAX_QUEUE_SIZE + most <= U64_MODULUS
    requires Apply(s, step).past.fullAdmissions == 0 && Apply(s, step).tasks.enqueueing <= most
    ensures QueueBounded(Apply(s, step), most)
  {
  }

  /**
   `queued` counts the tasks in the queue and the dropped waits, and with those
   about to add to it is at most `bound`.
   */
  ghost predicate AtMost(s: State, bound: nat) {
    && s.queued == s.tasks.waiting + s.tasks.admitted + s.past.dropped
    && s.queued + s.tasks.enqueueing <= bound
  }

  /**
   Queue bound: without full-queue admissions `queued` is exactly the tasks past
   the increment and not past the decrement plus the dropped waits, and together
   with the tasks about to increment it stays below 256 plus their largest number.
   */
  lemma QueueBound(limit: Option<nat>, steps: seq<Step>, most: nat)
    requires Runs(New(limit), steps) && FewEnqueueing(New(limit), steps, most)
    requires MAX_QUEUE_SIZE + most <= U64_MODULUS
    requires After(New(limit), steps).past.fullAdmissions == 0
    ensures AtMost(After(New(limit), steps), 255 + most)
  {
    NewKeepsInv(limit);
    NewIsBounded(limit, most);
    BoundFrom(New(limit), steps, most);
  }

  lemma BoundFrom(start: State, steps: seq<Step>, most: nat)
    requires Inv(start) && Runs(start, steps) && FewEnqueueing(start, steps, most)
    requires QueueBounded(start, most) && MAX_QUEUE_SIZE + most <= U64_MODULUS
    requires After(start, steps).past.fullAdmissions == 0
    ensures AtMost(After(start, steps), 255 + most)
  {
    QueueStaysBounded(start, steps, most);
  }

  /**
   `queued` is the number of tasks in the queue, as far as 64 bits hold it, if and
   only if the dropped waits and the full-queue admissions are equally many, up
   to wrap-around.
   */
  ghost predicate ExactIffCancelled(s: State) {
    s.queued == Wrap(s.tasks.waiting + s.tasks.admitted) <==> Wrap(s.past.dropped - s.past.fullAdmissions) == 0
  }

  /** So it is at every point of every run. */
  lemma QueuedIsExactIff(limit: Option<nat>, steps: seq<Step>)
    requires Runs(New(limit), steps)
    ensures ExactIffCancelled(After(New(limit), steps))
  {
    NewKeepsInv(limit);
    RunKeepsInv(New(limit), steps);
    ExactIff(After(New(limit), steps));
  }

  lemma ExactIff(s: State)
    requires QueueInv(s)
    ensures ExactIffCancelled(s)
  {
    SumIsExactIff(s.tasks.waiting + s.tasks.admitted, s.past.dropped - s.past.fullAdmissions);
  }

  /** A wait that is dropped stays counted. */
  lemma DropOne(s: State) returns (steps: seq<Step>)
    requires s.queued < MAX_QUEUE_SIZE
    ensures Runs(s, steps)
    ensures After(s, steps) == s.(queued := s.queued + 1, past := s.past.(dropped := s.past.dropped + 1))
  {
    steps := QueueOne(s);
    AppendStep(s, steps, Cancel);
    steps := steps + [Cancel];
  }

  lemma {:induction false} DropSome(s: State, k: nat) returns (steps: seq<Step>)
    requires s.queued + k <= MAX_QUEUE_SIZE
    ensures Runs(s, steps)
    ensures After(s, steps) == s.(queued := s.queued + k, past := s.past.(dropped := s.past.dropped + k))
    decreases k
  {
    steps := [];
    if k > 0 {
      var first := DropOne(s);
      var rest := DropSome(After(s, first), k - 1);
      RunsConcatenate(s, first, rest);
      steps := first + rest;
    }
  }

  /**
   Dropped waits fill the queue for good: with all permits in use, `k` requests
   come to wait and are dropped; then nobody waits and `queued` is `k`. With 256
   of them every later request finds the queue full.
   */
  lemma DroppedWaitsStayCounted(limit: Option<nat>, k: nat) returns (steps: seq<Step>)
    requires k <= 256
    ensures Runs(New(limit), steps)
    ensures var s := After(New(limit), steps);
      s.queued == k && s.tasks.waiting + s.tasks.admitted == 0 && s.free == 0 && s.past.dropped == k
  {
    steps := FillUp(New(limit));
    var rest := DropSome(After(New(limit), steps), k);
    RunsConcatenate(New(limit), steps, rest);
    steps := steps + rest;
  }

  /** A request that finds the queue full but a permit free lowers `queued`, to which it did not add. */
  lemma AdmitPastFullQueue(s: State) returns (steps: seq<Step>)
    requires s.free > s.tasks.waiting && s.queued >= MAX_QUEUE_SIZE
    ensures Runs(s, steps)
    ensures After(s, steps) == s.(free := s.free - 1, queued := s.queued - 1,
      tasks := s.tasks.(counting := s.tasks.counting + 1),
      past := s.past.(fullAdmissions := s.past.fullAdmissions + 1))
  {
    steps := TwoSteps(s, Arrive, Load);
    var rest := TwoSteps(After(s, steps), Try(true), TryDequeue);
    RunsConcatenate(s, steps, rest);
    steps := steps + rest;
  }

  lemma {:induction false} QueueSome(s: State, k: nat) returns (steps: seq<Step>)
    requires s.queued + k <= MAX_QUEUE_SIZE
    ensures Runs(s, steps)
    ensures After(s, steps) == s.(queued := s.queued + k, tasks := s.tasks.(waiting := s.tasks.waiting + k))
    decreases k
  {
    steps := [];
    if k > 0 {
      var first := QueueOne(s);
      var rest := QueueSome(After(s, first), k - 1);
      RunsConcatenate(s, first, rest);
      steps := first + rest;
    }
  }

  lemma GrowBy(s: State, k: nat) returns (steps: seq<Step>)
    requires s.reconcile.Idle? && k > 0
    ensures Runs(s, steps)
    ensures After(s, steps) == s.(granted := s.granted + k, free := s.free + k)
  {
    steps := TwoSteps(s, ReconcileStart(Some(s.granted + k)), AddPermits);
    AppendStep(s, steps, Store);
    steps := steps + [Store];
  }

  /** Waiters leave the queue with the permits they were handed. */
  lemma {:induction false} ServeSome(s: State, k: nat) returns (steps: seq<Step>)
    requires k <= s.tasks.waiting && k <= s.free && k <= s.queued
    ensures Runs(s, steps)
    ensures After(s, steps) == s.(free := s.free - k, queued := s.queued - k,
      tasks := s.tasks.(waiting := s.tasks.waiting - k, counting := s.tasks.counting + k))
    decreases k
  {
    steps := [];
    if k > 0 {
      var first := TwoSteps(s, Take, Dequeue);
      var rest := ServeSome(After(s, first), k - 1);
      RunsConcatenate(s, first, rest);
      steps := first + rest;
    }
  }

  /** With all permits in use 256 tasks come to wait, and then the limit grows by 257. */
  lemma QueueFillsAndGrows(limit: Option<nat>) returns (steps: seq<Step>)
    ensures Runs(New(limit), steps)
    ensures var s := After(New(limit), steps);
      && s.free == 257 && s.queued == 256 && s.reconcile.Idle?
      && s.tasks.waiting == 256 && s.tasks.admitted == 0 && s.past == History(0, 0, 0)
  {
    steps := FillUp(New(limit));
    var more := QueueSome(After(New(limit), steps), MAX_QUEUE_SIZE);
    RunsConcatenate(New(limit), steps, more);
    steps := steps + more;
    more := GrowBy(After(New(limit), steps), MAX_QUEUE_SIZE + 1);
    RunsConcatenate(New(limit), steps, more);
    steps := steps + more;
  }

  /**
   The full queue is passed, whatever the limit: a newcomer finds 256 tasks in it,
   each with a permit to take, and takes the spare one.
   */
  lemma FullQueueIsPassed(limit: Option<nat>) returns (steps: seq<Step>)
    ensures Runs(New(limit), steps)
    ensures var s := After(New(limit), steps);
      && s.queued == 255 && s.free == s.tasks.waiting == 256 && s.tasks.admitted == 0
      && s.past == History(0, 0, 1)
  {
    steps := QueueFillsAndGrows(limit);
    var more := AdmitPastFullQueue(After(New(limit), steps));
    RunsConcatenate(New(limit), steps, more);
    steps := steps + more;
  }

  /**
   One full-queue admission can make the counter wrap, whatever the limit: when
   those 256 tasks have left, nobody is in the queue, and `queued` is the largest
   number there is, so that every later request finds the queue full.
   */
  lemma QueuedWrapsAround(limit: Option<nat>) returns (steps: seq<Step>)
    ensures Runs(New(limit), steps)
    ensures var s := After(New(limit), steps);
      && s.tasks.waiting + s.tasks.admitted == 0 && s.queued == 0xFFFF_FFFF_FFFF_FFFF
      && s.past == History(0, 0, 1)
  {
    steps := FullQueueIsPassed(limit);
    var more := ServeSome(After(New(limit), steps), MAX_QUEUE_SIZE - 1);
    RunsConcatenate(New(limit), steps, more);
    steps := steps + more;
    more := TwoSteps(After(New(limit), steps), Take, Dequeue);
    RunsConcatenate(New(limit), steps, more);
    steps := steps + more;
  }

  /**
   A gate's room, reached: as many active as its limit, four by default, and 256
   tasks waiting.
   */
  lemma RoomIsUsed(limit: Option<nat>) returns (steps: seq<Step>)
    ensures Runs(New(limit), steps)
    ensures var s := After(New(limit), steps);
      && s.active == (match limit case Some(n) => n case None => 4) && s.free == 0
      && s.tasks.waiting == s.queued == 256 && s.tasks.admitted == 0
  {
    steps := FillUp(New(limit));
    var more := QueueSome(After(New(limit), steps), 256);
    RunsConcatenate(New(limit), steps, more);
    steps := steps + more;
  }

  lemma SumIsExactIff(a: nat, b: int)
    ensures Wrap(a + b) == Wrap(a) <==> Wrap(b) == 0
  {
  }

  // ---- The gate ------------------------------------------------------------------------

  /** How far `acquire` gets without a wait. */
  datatype Outcome = Admitted | Rejected | Waiting

  /**
   `Gate`, one method per atomic operation, and the two sequences of them that
   the source runs when nothing else moves in between. The ghost fields keep
   the run so far: the fields are always the state that run leads to.
   */
  class Gate {
    var free: nat
    var granted: nat
    var active: int
    var queued: u64
    var throttled: nat
    /** Tasks in the semaphore's queue; those handed a permit are in it until they run. */
    var waiters: nat
    ghost const start: Option<nat>
    ghost var steps: seq<Step>
    ghost var tasks: Tasks
    ghost var reconcile: Reconcile
    ghost var past: History

    ghost function View(): State
      reads this
    {
      State(free, granted, active, queued, throttled, tasks, reconcile, past)
    }

    ghost predicate Valid()
      reads this
    {
      && Runs(New(start), steps) && View() == After(New(start), steps)
      && waiters <= tasks.waiting
    }

    /** A permit is free that no waiter has been handed. */
    predicate Available()
      reads this
    {
      free > waiters
    }

    constructor (limit: Option<nat>)
      ensures Valid() && start == limit && steps == [] && waiters == 0
      ensures free == granted == (match limit case Some(n) => n case None => 4)
      ensures active == queued == throttled == 0
    {
      free, granted, active, queued, throttled, waiters := Wanted(limit), Wanted(limit), 0, 0, 0, 0;
      start, steps := limit, [];
      tasks, reconcile, past := New(limit).tasks, Idle, New(limit).past;
    }

    /** The gate object inherits what holds of every run. */
    lemma RespectsLimit()
      requires Valid()
      ensures active <= Held(tasks) <= free + Held(tasks)
      ensures reconcile.Idle? ==> free + Held(tasks) == granted + past.shortfall
    {
      NoOvershoot(start, steps);
    }

    /** Adds to the run a step whose effect on the fields has just been carried out. */
    ghost method Record(was: State, step: Step)
      requires Runs(New(start), steps) && was == After(New(start), steps) && Enabled(was, step)
      requires var s := Apply(was, step);
        && free == s.free && granted == s.granted && active == s.active && queued == s.queued
        && throttled == s.throttled && waiters <= s.tasks.waiting
      modifies this`steps, this`tasks, this`reconcile, this`past
      ensures Valid() && steps == old(steps) + [step] && View() == Apply(was, step)
    {
      AppendStep(New(start), steps, step);
      var s := Apply(was, step);
      steps := steps + [step];
      tasks, reconcile, past := s.tasks, s.reconcile, s.past;
    }

    method LoadQueued() returns (full: bool)
      requires Valid() && Enabled(View(), Load)
      modifies this
      ensures Valid() && steps == old(steps) + [Load] && View() == Apply(old(View()), Load)
      ensures waiters == old(waiters)
      ensures full == (old(queued) >= MAX_QUEUE_SIZE)
    {
      full := queued >= MAX_QUEUE_SIZE;
      Record(View(), Load);
    }

    method EnterQueue()
      requires Valid() && Enabled(View(), Enqueue)
      modifies this
      ensures Valid() && steps == old(steps) + [Enqueue] && View() == Apply(old(View()), Enqueue)
      ensures waiters == old(waiters)
    {
      ghost var was := View();
      queued := Increment(queued);
      Record(was, Enqueue);
    }

    /** The first poll of the wait: it takes a permit that nobody was handed, or joins the semaphore's queue. */
    method PollSemaphore() returns (ready: bool)
      requires Valid() && tasks.waiting > waiters
      modifies this
      ensures Valid() && ready == old(Available())
      ensures ready ==> steps == old(steps) + [Take] && View() == Apply(old(View()), Take) && waiters == old(waiters)
      ensures !ready ==> steps == old(steps) && View() == old(View()) && waiters == old(waiters) + 1
    {
      ready := Available();
      if ready {
        ghost var was := View();
        free := free - 1;
        Record(was, Take);
      } else {
        waiters := waiters + 1;
      }
    }

    /** A waiter that was handed a permit runs. */
    method TakeHanded()
      requires Valid() && waiters > 0 && free > 0
      modifies this
      ensures Valid() && steps == old(steps) + [Take] && View() == Apply(old(View()), Take)
      ensures waiters == old(waiters) - 1
    {
      ghost var was := View();
      free := free - 1;
      waiters := waiters - 1;
      Record(was, Take);
    }

    /** A wait is dropped: the permit it may have been handed goes to the next. */
    method DropWait()
      requires Valid() && waiters > 0
      modifies this
      ensures Valid() && steps == old(steps) + [Cancel] && View() == Apply(old(View()), Cancel)
      ensures waiters == old(waiters) - 1
    {
      ghost var was := View();
      waiters := waiters - 1;
      Record(was, Cancel);
    }

    method LeaveQueue()
      requires Valid() && Enabled(View(), Dequeue)
      modifies this
      ensures Valid() && steps == old(steps) + [Dequeue] && View() == Apply(old(View()), Dequeue)
      ensures waiters == old(waiters)
    {
      ghost var was := View();
      queued := Decrement(queued);
      Record(was, Dequeue);
    }

    method TryAcquireOwned() returns (ok: bool)
      requires Valid() && tasks.trying > 0
      modifies this
      ensures ok == old(Available())
      ensures Valid() && steps == old(steps) + [Try(ok)] && View() == Apply(old(View()), Try(ok))
      ensures waiters == old(waiters)
    {
      ghost var was := View();
      ok := Available();
      if ok { free := free - 1; }
      Record(was, Try(ok));
    }

    method LeaveFullQueue()
      requires Valid() && Enabled(View(), TryDequeue)
      modifies this
      ensures Valid() && steps == old(steps) + [TryDequeue] && View() == Apply(old(View()), TryDequeue)
      ensures waiters == old(waiters)
    {
      ghost var was := View();
      queued := Decrement(queued);
      Record(was, TryDequeue);
    }

    method CountRejection()
      requires Valid() && Enabled(View(), Throttle)
      modifies this
      ensures Valid() && steps == old(steps) + [Throttle] && View() == Apply(old(View()), Throttle)
      ensures waiters == old(waiters)
    {
      ghost var was := View();
      throttled := throttled + 1;
      Record(was, Throttle);
    }

    method CountActive()
      requires Valid() && Enabled(View(), Activate)
      modifies this
      ensures Valid() && steps == old(steps) + [Activate] && View() == Apply(old(View()), Activate)
      ensures waiters == old(waiters)
    {
      ghost var was := View();
      active := active + 1;
      Record(was, Activate);
    }

    /** The guard's drop, then the release of its permit. */
    method DropGuard()
      requires Valid() && Enabled(View(), Deactivate)
      modifies this
      ensures Valid() && steps == old(steps) + [Deactivate, Release]
      ensures waiters == old(waiters)
      ensures active == old(active) - 1 && free == old(free) + 1
      ensures granted == old(granted) && queued == old(queued) && throttled == old(throttled)
    {
      ghost var was := View();
      active := active - 1;
      Record(was, Deactivate);
      was := View();
      free := free + 1;
      Record(was, Release);
    }

    method BumpThrottledCount()
      requires Valid()
      modifies this
      ensures Valid() && steps == old(steps) + [BumpThrottled]
      ensures throttled == old(throttled) + 1
      ensures (free, granted, active, queued) == (old(free), old(granted), old(active), old(queued))
      ensures waiters == old(waiters)
    {
      ghost var was := View();
      throttled := throttled + 1;
      Record(was, BumpThrottled);
    }

    /** The path of a request that saw room in the queue: unless a permit is available it comes to wait. */
    method AcquireThroughQueue() returns (waits: bool)
      requires Valid() && tasks.enqueueing > 0
      modifies this
      ensures Valid() && waits == !old(Available()) && throttled == old(throttled) && granted == old(granted)
      ensures waits ==>
        && (active, free, waiters) == (old(active), old(free), old(waiters) + 1)
        && queued == Increment(old(queued)) && tasks.waiting == old(tasks.waiting) + 1
      ensures !waits ==>
        && (active, free, waiters) == (old(active) + 1, old(free) - 1, old(waiters))
        && queued == old(queued) && tasks.waiting == old(tasks.waiting)
    {
      CountsBack(queued);
      EnterQueue();
      var ready := PollSemaphore();
      waits := !ready;
      if ready {
        LeaveQueue();
        CountActive();
      }
    }

    /** The rest of `acquire` once a waiter has been handed a permit. */
    method LeaveWait()
      requires Valid() && waiters > 0 && free > 0
      modifies this
      ensures Valid() && throttled == old(throttled) && granted == old(granted)
      ensures (active, free) == (old(active) + 1, old(free) - 1) && queued == Decrement(old(queued))
      ensures tasks.waiting == old(tasks.waiting) - 1 && waiters == old(waiters) - 1
    {
      TakeHanded();
      LeaveQueue();
      CountActive();
    }

    /** The path of a request that saw a full queue. */
    method AcquireIfFree() returns (admitted: bool)
      requires Valid() && tasks.trying > 0
      modifies this
      ensures Valid() && admitted == old(Available()) && granted == old(granted)
      ensures waiters == old(waiters)
      ensures tasks.waiting == old(tasks.waiting)
      ensures admitted ==>
        && (active, free) == (old(active) + 1, old(free) - 1)
        && queued == Decrement(old(queued)) && throttled == old(throttled)
      ensures !admitted ==>
        && (active, free) == (old(active), old(free))
        && queued == old(queued) && throttled == old(throttled) + 1
    {
      admitted := TryAcquireOwned();
      if admitted {
        LeaveFullQueue();
        CountActive();
      } else {
        CountRejection();
      }
    }

    /** `acquire` up to its first wait, with nothing in between. */
    method Acquire() returns (outcome: Outcome)
      requires Valid()
      modifies this
      ensures Valid() && granted == old(granted)
      ensures outcome ==
        if old(free) > old(waiters) then Admitted else if old(queued) >= 256 then Rejected else Waiting
      ensures (active, free) == if outcome.Admitted? then (old(active) + 1, old(free) - 1) else (old(active), old(free))
      ensures throttled == old(throttled) + if outcome.Rejected? then 1 else 0
      ensures tasks.waiting == old(tasks.waiting) + if outcome.Waiting? then 1 else 0
      ensures waiters == old(waiters) + if outcome.Waiting? then 1 else 0
      ensures queued ==
        match outcome
        case Admitted => if old(queued) >= 256 then (old(queued) - 1) % U64_MODULUS else old(queued)
        case Rejected => old(queued)
        case Waiting => old(queued) + 1
    {
      Record(View(), Arrive);
      var full := LoadQueued();
      if full {
        var admitted := AcquireIfFree();
        outcome := if admitted then Admitted else Rejected;
      } else {
        var waits := AcquireThroughQueue();
        outcome := if waits then Waiting else Admitted;
      }
    }

    method Grow(wanted: nat)
      requires Valid() && wanted > granted && reconcile == Growing(wanted, wanted - granted)
      modifies this
      ensures Valid() && reconcile.Idle? && granted == wanted
      ensures waiters == old(waiters)
      ensures free == old(free) + (wanted - old(granted)) && past == old(past)
    {
      ghost var was := View();
      free := free + (wanted - granted);
      Record(was, AddPermits);
      was := View();
      granted := wanted;
      Record(was, Store);
    }

    /** What a shrink by `diff` can take back. */
    function Takeable(diff: int): int
      reads this
    {
      if !Available() then 0 else if diff <= free - waiters then diff else free - waiters
    }

    /** The forget loop: it takes what is available, no more. */
    method ForgetPermits(ghost wanted: nat, diff: nat)
      requires Valid() && reconcile == Shrinking(wanted, diff)
      modifies this
      ensures Valid() && reconcile == Shrinking(wanted, 0) && granted == old(granted)
      ensures waiters == old(waiters) && free == old(free) - old(Takeable(diff))
      ensures past == old(past).(shortfall := old(past).shortfall + diff - old(Takeable(diff)))
    {
      for i := 0 to diff
        invariant Valid() && reconcile == Shrinking(wanted, diff - i) && granted == old(granted)
        invariant waiters == old(waiters) && free == old(free) - old(Takeable(i))
        invariant past == old(past).(shortfall := old(past).shortfall + i - old(Takeable(i)))
      {
        ghost var was := View();
        if Available() {
          free := free - 1;
          Record(was, Forget(true));
        } else {
          Record(was, Forget(false));
        }
      }
    }

    /** `reconcile` with nothing in between. */
    method ReconcileLimit(limit: Option<nat>)
      requires Valid() && reconcile.Idle?
      modifies this
      ensures Valid() && reconcile.Idle?
      ensures waiters == old(waiters)
      ensures granted == (match limit case Some(n) => n case None => 4)
      ensures granted >= old(granted) ==> free == old(free) + (granted - old(granted)) && past == old(past)
      ensures granted < old(granted) ==>
        var diff, available := old(granted) - granted, old(free) - old(waiters);
        var taken := if available <= 0 then 0 else if diff <= available then diff else available;
        && free == old(free) - taken
        && past == old(past).(shortfall := old(past).shortfall + diff - taken)
    {
      var wanted := Wanted(limit);
      var current := granted;
      Record(View(), ReconcileStart(limit));
      if wanted > current {
        Grow(wanted);
      } else if wanted < current {
        ForgetPermits(wanted, current - wanted);
        ghost var was := View();
        granted := wanted;
        Record(was, Store);
      }
    }
  }
}
