/**
 Debounced persistence: the background task of `src/persist.rs`, its pings, and
 the snapshots of `src/config.rs:ConfigStore` that it writes.

 A writer stores a snapshot and then pings; the saver waits, debounces, drains
 further pings, loads the current snapshot and writes it. Each of these is one
 step, and writers may move between any two steps of the saver. `Notify` holds
 at most one permit. Passing time only enables steps: it is not counted.
 */
module Persist {
  import opened Common

  datatype Pc = AtWait | Debouncing | Draining | Loading | Writing

  datatype Outcome = NoWriteYet | Saved | Failed

  datatype State<C> = State(
    snapshots: seq<C>,        // every snapshot stored, the initial one first
    unpinged: nat,            // writers between store and ping
    permit: bool,             // the notify permit
    pc: Pc,
    loaded: nat,              // index of the snapshot loaded last
    disk: Option<C>,
    written: seq<nat>,        // indices of the snapshots written, in order
    outcome: Outcome)         // how the latest write went

  datatype Step<C> =
    | StoreSnapshot(c: C) | Ping
    | Wake | DebounceOver | DrainPing | DrainOver | Load | Write(ok: bool)

  function Init<C>(c: C, disk: Option<C>): State<C> {
    State([c], 0, false, AtWait, 0, disk, [], NoWriteYet)
  }

  predicate OfSaver<C>(step: Step<C>) {
    !step.StoreSnapshot? && !step.Ping?
  }

  predicate Enabled<C>(s: State<C>, step: Step<C>) {
    match step
    case StoreSnapshot(_) => true
    case Ping => s.unpinged > 0
    case Wake => s.pc.AtWait? && s.permit
    case DebounceOver => s.pc.Debouncing?
    case DrainPing => s.pc.Draining? && s.permit
    case DrainOver => s.pc.Draining?
    case Load => s.pc.Loading?
    case Write(_) => s.pc.Writing? && s.loaded < |s.snapshots|
  }

  function Apply<C>(s: State<C>, step: Step<C>): State<C>
    requires Enabled(s, step) && s.snapshots != []
  {
    match step
    case StoreSnapshot(c) => s.(snapshots := s.snapshots + [c], unpinged := s.unpinged + 1)
    case Ping => s.(unpinged := s.unpinged - 1, permit := true)
    case Wake => s.(permit := false, pc := Debouncing)
    case DebounceOver => s.(pc := Draining)
    case DrainPing => s.(permit := false)
    case DrainOver => s.(pc := Loading)
    case Load => s.(pc := Writing, loaded := |s.snapshots| - 1)
    case Write(ok) =>
      if ok then
        s.(pc := AtWait, disk := Some(s.snapshots[s.loaded]), written := s.written + [s.loaded], outcome := Saved)
      else s.(pc := AtWait, outcome := Failed)
  }

  predicate Runs<C>(s: State<C>, steps: seq<Step<C>>)
    requires s.snapshots != []
    decreases |steps|
  {
    steps == [] || (Enabled(s, steps[0]) && Runs(Apply(s, steps[0]), steps[1..]))
  }

  function After<C>(s: State<C>, steps: seq<Step<C>>): (r: State<C>)
    requires s.snapshots != [] && Runs(s, steps)
    ensures r.snapshots != []
    decreases |steps|
  {
    if steps == [] then s else After(Apply(s, steps[0]), steps[1..])
  }

  // ---- The invariant -----------------------------------------------------------------

  function Latest<C>(s: State<C>): nat
    requires s.snapshots != []
  {
    |s.snapshots| - 1
  }

  /** A later snapshot than the one loaded is still announced, or about to be. */
  predicate Announced<C>(s: State<C>)
    requires s.snapshots != []
  {
    s.unpinged > 0 || s.permit || s.loaded == Latest(s)
  }

  ghost predicate Inv<C>(s: State<C>) {
    && s.snapshots != [] && s.loaded <= Latest(s)
    && (s.pc.AtWait? || s.pc.Writing? ==> Announced(s))
    && (!s.pc.Writing? && s.outcome == NoWriteYet ==> s.loaded == 0)
    && (!s.pc.Writing? && s.outcome == Saved ==> s.written != [] && s.written[|s.written|-1] == s.loaded)
    && (forall i | 0 <= i < |s.written| :: s.written[i] <= s.loaded)
    && (s.written != [] ==> s.disk == Some(s.snapshots[s.written[|s.written|-1]]))
    && (forall i, j | 0 <= i < j < |s.written| :: s.written[i] <= s.written[j])
  }

  lemma StoreKeepsInv<C>(s: State<C>, c: C)
    requires Inv(s)
    ensures Inv(Apply(s, StoreSnapshot(c)))
  {
  }

  lemma WriteKeepsInv<C>(s: State<C>, ok: bool)
    requires Inv(s) && Enabled(s, Write(ok))
    ensures Inv(Apply(s, Write(ok)))
  {
  }

  lemma LoadKeepsInv<C>(s: State<C>)
    requires Inv(s) && Enabled(s, Load)
    ensures Inv(Apply(s, Load))
  {
  }

  lemma PingKeepsInv<C>(s: State<C>, step: Step<C>)
    requires Inv(s) && Enabled(s, step) && !step.StoreSnapshot? && !step.Write? && !step.Load?
    ensures Inv(Apply(s, step))
  {
  }

  lemma StepKeepsInv<C>(s: State<C>, step: Step<C>)
    requires Inv(s) && Enabled(s, step)
    ensures Inv(Apply(s, step))
  {
    match step
    case StoreSnapshot(c) => StoreKeepsInv(s, c);
    case Write(ok) => WriteKeepsInv(s, ok);
    case Load => LoadKeepsInv(s);
    case _ => PingKeepsInv(s, step);
  }

  lemma {:induction false} RunKeepsInv<C>(s: State<C>, steps: seq<Step<C>>)
    requires Inv(s) && Runs(s, steps)
    ensures Inv(After(s, steps))
    decreases |steps|
  {
    if steps != [] {
      StepKeepsInv(s, steps[0]);
      RunKeepsInv(Apply(s, steps[0]), steps[1..]);
    }
  }

  // ---- No lost save --------------------------------------------------------------------

  /** Nothing is under way: the saver waits, no permit is pending, every store has been pinged. */
  predicate Quiet<C>(s: State<C>) {
    s.pc.AtWait? && !s.permit && s.unpinged == 0
  }

  /**
   No lost save: in every interleaving, once all is quiet after at least one
   update, the disk holds the latest snapshot unless the latest write failed.
   */
  lemma NoLostSave<C>(c: C, disk: Option<C>, steps: seq<Step<C>>)
    requires Runs(Init(c, disk), steps)
    ensures var s := After(Init(c, disk), steps);
      Quiet(s) && |s.snapshots| > 1 && s.outcome != Failed ==> s.disk == Some(s.snapshots[Latest(s)])
  {
    RunKeepsInv(Init(c, disk), steps);
  }

  /** The snapshots written never go back to an older one. */
  lemma WritesNeverGoBack<C>(c: C, disk: Option<C>, steps: seq<Step<C>>)
    requires Runs(Init(c, disk), steps)
    ensures var s := After(Init(c, disk), steps);
      && (forall i | 0 <= i < |s.written| :: s.written[i] < |s.snapshots|)
      && (forall i, j | 0 <= i < j < |s.written| :: s.written[i] <= s.written[j])
      && (if s.written == [] then s.disk == disk else s.disk == Some(s.snapshots[s.written[|s.written|-1]]))
  {
    RunKeepsInv(Init(c, disk), steps);
    DiskUntouched(Init(c, disk), steps);
  }

  lemma {:induction false} DiskUntouched<C>(s: State<C>, steps: seq<Step<C>>)
    requires s.snapshots != [] && Runs(s, steps)
    ensures |After(s, steps).written| >= |s.written|
    ensures |After(s, steps).written| == |s.written| ==> After(s, steps).disk == s.disk
    decreases |steps|
  {
    if steps != [] { DiskUntouched(Apply(s, steps[0]), steps[1..]); }
  }

  // ---- Progress --------------------------------------------------------------------------

  /** How many steps the saver can still take by itself. */
  function Ahead<C>(s: State<C>): nat {
    (if s.permit then 5 else 0) +
    match s.pc
    case AtWait => 0
    case Writing => 1
    case Loading => 2
    case Draining => 3
    case Debouncing => 4
  }

  /** The saver is stuck exactly at its wait without a permit; a failed write is not tried again there. */
  lemma StuckIffWaiting<C>(s: State<C>)
    requires Inv(s)
    ensures (forall step: Step<C> | OfSaver(step) :: !Enabled(s, step)) <==> s.pc.AtWait? && !s.permit
  {
    var next: Step<C> := match s.pc
      case AtWait => Wake
      case Debouncing => DebounceOver
      case Draining => DrainOver
      case Loading => Load
      case Writing => Write(true);
    assert OfSaver(next) && (Enabled(s, next) || (s.pc.AtWait? && !s.permit));
  }

  /** Left alone, the saver stops within `Ahead` steps. */
  lemma {:induction false} SaverStops<C>(s: State<C>, steps: seq<Step<C>>)
    requires Inv(s) && Runs(s, steps) && forall step | step in steps :: OfSaver(step)
    ensures |steps| <= Ahead(s)
    ensures After(s, steps).unpinged == s.unpinged && After(s, steps).snapshots == s.snapshots
    decreases |steps|
  {
    if steps != [] {
      StepKeepsInv(s, steps[0]);
      assert OfSaver(steps[0]);
      assert forall step | step in steps[1..] :: step in steps;
      SaverStops(Apply(s, steps[0]), steps[1..]);
    }
  }

  /**
   Every update reaches the disk: from any reachable point with no writer
   between store and ping, a saver left alone until it is stuck, whose latest
   write succeeds, has put the latest snapshot on disk within 9 steps.
   */
  lemma UpdatesReachDisk<C>(c: C, disk: Option<C>, past: seq<Step<C>>, steps: seq<Step<C>>)
    requires Runs(Init(c, disk), past)
    requires var s := After(Init(c, disk), past);
      && s.unpinged == 0 && |s.snapshots| > 1
      && Runs(s, steps) && (forall step | step in steps :: OfSaver(step))
      && (forall step: Step<C> | OfSaver(step) :: !Enabled(After(s, steps), step))
      && After(s, steps).outcome != Failed
    ensures var s := After(Init(c, disk), past);
      |steps| <= 9 && After(s, steps).disk == Some(s.snapshots[Latest(s)])
  {
    var s := After(Init(c, disk), past);
    RunKeepsInv(Init(c, disk), past);
    RunKeepsInv(s, steps);
    SaverStops(s, steps);
    StuckIffWaiting(After(s, steps));
  }

  // ---- The saver -----------------------------------------------------------------------------

  lemma {:induction false} AppendStep<C>(s: State<C>, steps: seq<Step<C>>, step: Step<C>)
    requires s.snapshots != [] && Runs(s, steps) && Enabled(After(s, steps), step)
    ensures Runs(s, steps + [step]) && After(s, steps + [step]) == Apply(After(s, steps), step)
    decreases |steps|
  {
    if steps == [] {
      assert [step][1..] == [] && [] + [step] == [step];
    } else {
      AppendStep(Apply(s, steps[0]), steps[1..], step);
      assert (steps + [step])[1..] == steps[1..] + [step];
    }
  }

  /** The store, the notify and the saver task; the run so far is kept for the proof. */
  class DebouncedSaver<C> {
    var current: C
    var permit: bool
    var disk: Option<C>
    ghost const first: State<C>
    ghost var steps: seq<Step<C>>

    ghost predicate Valid()
      reads this
    {
      && first.snapshots != [] && Runs(first, steps) && Inv(After(first, steps))
      && var s := After(first, steps);
      && current == s.snapshots[Latest(s)] && permit == s.permit && disk == s.disk
    }

    ghost function View(): State<C>
      requires Valid()
      reads this
    {
      After(first, steps)
    }

    constructor (c: C, onDisk: Option<C>)
      ensures Valid() && first == Init(c, onDisk) && steps == []
    {
      current, permit, disk, first, steps := c, false, onDisk, Init(c, onDisk), [];
    }

    ghost method Record(step: Step<C>)
      requires first.snapshots != [] && Runs(first, steps) && Inv(After(first, steps))
      requires Enabled(After(first, steps), step)
      requires var s := Apply(After(first, steps), step);
        current == s.snapshots[Latest(s)] && permit == s.permit && disk == s.disk
      modifies this`steps
      ensures Valid() && View() == Apply(After(first, old(steps)), step)
    {
      StepKeepsInv(After(first, steps), step);
      AppendStep(first, steps, step);
      steps := steps + [step];
    }

    /** `ConfigStore::update`, as far as the saver sees it. */
    method Update(c: C)
      requires Valid()
      modifies this
      ensures Valid() && View() == Apply(old(View()), StoreSnapshot(c))
    {
      current := c;
      Record(StoreSnapshot(c));
    }

    method NotifyOne()
      requires Valid() && View().unpinged > 0
      modifies this
      ensures Valid() && View() == Apply(old(View()), Ping)
    {
      permit := true;
      Record(Ping);
    }

    /** `notified().await`, once it returns: at the first wait, or in the drain loop. */
    method Notified()
      requires Valid() && permit && (View().pc.AtWait? || View().pc.Draining?)
      modifies this
      ensures Valid() && View() == Apply(old(View()), if old(View()).pc.AtWait? then Wake else DrainPing)
    {
      ghost var step := if View().pc.AtWait? then Wake else DrainPing;
      permit := false;
      Record(step);
    }

    /**
     One round of the background loop, with the updates `late` stored and pinged
     one after the other in the drain window; `ok` says how the write goes. All
     of them are coalesced into one write of the last.
     */
    method Round(late: seq<C>, ok: bool)
      requires Valid() && View().pc.AtWait? && permit && View().unpinged == 0
      modifies this
      ensures Valid() && Quiet(View())
      ensures current == if late == [] then old(current) else late[|late|-1]
      ensures disk == if ok then Some(current) else old(disk)
      ensures |View().written| == old(|View().written|) + if ok then 1 else 0
    {
      Notified();
      Record(DebounceOver);
      DrainLate(late);
      WriteCurrent(ok);
    }

    /** After the drain loop: the current snapshot is loaded and written. */
    method WriteCurrent(ok: bool)
      requires Valid() && View().pc.Draining?
      modifies this`disk, this`steps
      ensures Valid() && View().pc.AtWait? && View().unpinged == old(View().unpinged)
      ensures disk == if ok then Some(current) else old(disk)
      ensures |View().written| == old(|View().written|) + if ok then 1 else 0
    {
      Record(DrainOver);
      var cfg := current;
      Record(Load);
      if ok { disk := Some(cfg); }
      Record(Write(ok));
    }

    /** The drain loop: each ping that arrives starts the wait anew. */
    method DrainLate(late: seq<C>)
      requires Valid() && View().pc.Draining? && !permit && View().unpinged == 0
      modifies this
      ensures Valid() && View().pc.Draining? && !permit && View().unpinged == 0
      ensures current == if late == [] then old(current) else late[|late|-1]
      ensures disk == old(disk) && View().written == old(View().written)
    {
      for i := 0 to |late|
        invariant Valid() && View().pc.Draining? && !permit && View().unpinged == 0
        invariant current == if i == 0 then old(current) else late[i-1]
        invariant disk == old(disk) && View().written == old(View().written)
      {
        Update(late[i]);
        NotifyOne();
        Notified();
      }
    }
  }
}
