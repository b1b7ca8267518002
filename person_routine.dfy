/**
 * A person's recurring routine and the per-routine status machine that the simulator
 * drives once per simulated hour.
 *
 * `PersonRoutine` is the frozen description of a routine. `PersonRoutineWithStatus`
 * wraps one and holds the five status variables that `Sync` and `Reset` update in place.
 * The value-level functions `IsRoutineDue` and `Synced` specify those updates; the
 * lemmas below relate several calls to `Synced` (idempotence, runs over many ticks).
 */
module PersonRoutines {
  import opened Wrappers
  import opened SimTime

  /** Identity of a location, issued by the (unmodelled) location subsystem. */
  type LocationID

  /** The end location of a routine: one specific location, or the `SpecialEndLoc.social` sentinel. */
  datatype EndLoc = Fixed(loc: LocationID) | Social

  /**
   * The immutable description of a routine. Every field after `endLoc` has the same
   * default as the Python dataclass. The two probabilities are only carried along:
   * no operation of this module reads them.
   */
  datatype PersonRoutine = PersonRoutine(
    startLoc: Option<LocationID>,          // None: the routine may start anywhere
    endLoc: EndLoc,
    validTime: SimTimeTuple := SimTimeTuple(),
    startTriggerTime: SimTimeInterval := SimTimeInterval(hour := 1),
    startHourProbability: real := 0.9,
    explorableEndLocs: seq<LocationID> := [],
    exploreProbability: real := 0.05,
    durationOfStayAtEndLoc: int := 1,
    repeatIntervalWhenDone: SimTimeInterval := SimTimeInterval(day := 1))

  /** A routine built from its two required fields gets the declared default values for the rest
      (what those window and interval values mean is up to the `TimeSemantics` in use). */
  lemma PersonRoutineDefaults(startLoc: Option<LocationID>, endLoc: EndLoc)
    ensures var r := PersonRoutine(startLoc, endLoc);
      && r.startLoc == startLoc && r.endLoc == endLoc
      && r.validTime == SimTimeTuple(None, None)
      && r.startTriggerTime == SimTimeInterval(0, 1)
      && r.startHourProbability == 0.9
      && r.explorableEndLocs == []
      && r.exploreProbability == 0.05
      && r.durationOfStayAtEndLoc == 1
      && r.repeatIntervalWhenDone == SimTimeInterval(1, 0)
  {
  }

  /** The status variables of a `PersonRoutineWithStatus`, as a value. */
  datatype RoutineStatus = RoutineStatus(
    due: bool,
    started: bool,
    duration: int,
    done: bool,
    endLocSelected: Option<LocationID>)

  /** The status of a freshly constructed `PersonRoutineWithStatus`, and the one `Reset` restores. */
  const InitialStatus: RoutineStatus := RoutineStatus(false, false, 0, false, None)

  /**
   * How the status flags are meant to relate: a due routine has neither started nor
   * finished, a routine is never both in progress and finished, and the stay counter
   * is zero unless the routine is in progress.
   */
  predicate Consistent(s: RoutineStatus)
  {
    && (s.due ==> !s.started && !s.done)
    && !(s.started && s.done)
    && (!s.started ==> s.duration == 0)
  }

  /** `_is_routine_due`: whether the routine may be started at time `t`. */
  predicate IsRoutineDue(r: PersonRoutine, s: RoutineStatus, t: SimTime, sem: TimeSemantics)
    // never due once started or finished, nor outside the valid window
    ensures IsRoutineDue(r, s, t, sem) ==> !s.started && !s.done && InWindow(sem, r.validTime, t)
    // a routine that was not already due becomes due only when its start trigger fires
    ensures IsRoutineDue(r, s, t, sem) && !s.due ==> Fires(sem, r.startTriggerTime, t)
    // inside the window, an idle routine is due if it already was or if the trigger fires
    ensures !s.started && !s.done && InWindow(sem, r.validTime, t) && (s.due || Fires(sem, r.startTriggerTime, t))
      ==> IsRoutineDue(r, s, t, sem)
  {
    if s.started || s.done || !InWindow(sem, r.validTime, t) then false
    else s.due || Fires(sem, r.startTriggerTime, t)
  }

  /** Whether `sync` at `t` re-arms the routine: it is finished and its repeat interval fires. */
  predicate ReArms(r: PersonRoutine, s: RoutineStatus, t: SimTime, sem: TimeSemantics)
  {
    s.done && Fires(sem, r.repeatIntervalWhenDone, t)
  }

  /** The status after `sync(t)`, as a function of the status before it. */
  function Synced(r: PersonRoutine, s: RoutineStatus, t: SimTime, sem: TimeSemantics): (s': RoutineStatus)
    // the due flag excludes the other two flags
    ensures s'.due ==> !s'.started && !s'.done
    // outside the valid window the routine is never due, whatever it was before
    ensures !InWindow(sem, r.validTime, t) ==> !s'.due
    // due is sticky inside the window, even when the start trigger does not fire
    ensures s.due && !s.started && !s.done && InWindow(sem, r.validTime, t) ==> s'.due
    // a routine that was not due becomes due only when its start trigger fires
    ensures s'.due && !s.due ==> Fires(sem, r.startTriggerTime, t)
    // an idle routine inside the window whose start trigger fires is due
    ensures !s'.started && !s'.done && InWindow(sem, r.validTime, t) && Fires(sem, r.startTriggerTime, t) ==> s'.due
    // re-arming clears every status variable, then recomputes due from the fresh status
    ensures ReArms(r, s, t, sem) ==>
      s' == InitialStatus.(due := InWindow(sem, r.validTime, t) && Fires(sem, r.startTriggerTime, t))
    // otherwise only due may change
    ensures !ReArms(r, s, t, sem) ==>
      s'.started == s.started && s'.duration == s.duration && s'.done == s.done
      && s'.endLocSelected == s.endLocSelected
    // sync never starts or finishes a routine, and only ever clears the stay counter
    ensures (s'.started ==> s.started) && (s'.done ==> s.done)
    ensures s'.duration == s.duration || s'.duration == 0
    ensures s.duration >= 0 ==> 0 <= s'.duration <= s.duration
    ensures Consistent(s) ==> Consistent(s')
  {
    var s0 := if ReArms(r, s, t, sem) then InitialStatus else s;
    s0.(due := IsRoutineDue(r, s0, t, sem))
  }

  /** Because the time tests are pure, a second `sync` at the same time changes nothing. */
  lemma SyncIdempotent(r: PersonRoutine, s: RoutineStatus, t: SimTime, sem: TimeSemantics)
    ensures Synced(r, Synced(r, s, t, sem), t, sem) == Synced(r, s, t, sem)
  {
  }

  /** The status after `sync` has been called once for each time of `ts`, in order. */
  function SyncTrace(r: PersonRoutine, s: RoutineStatus, ts: seq<SimTime>, sem: TimeSemantics): RoutineStatus
    decreases |ts|
  {
    if ts == [] then s else SyncTrace(r, Synced(r, s, ts[0], sem), ts[1..], sem)
  }

  /** A run of syncs ends with a sync at its last time. */
  lemma {:induction false} SyncTraceLast(r: PersonRoutine, s: RoutineStatus, ts: seq<SimTime>, sem: TimeSemantics)
    requires |ts| > 0
    ensures SyncTrace(r, s, ts, sem) == Synced(r, SyncTrace(r, s, ts[..|ts| - 1], sem), ts[|ts| - 1], sem)
    decreases |ts|
  {
    if |ts| > 1 {
      SyncTraceLast(r, Synced(r, s, ts[0], sem), ts[1..], sem);
      assert ts[1..][..|ts[1..]| - 1] == ts[..|ts| - 1][1..];
    }
  }

  /** After at least one sync, a due routine has neither started nor finished, and
      a routine whose last tick fell outside its valid window is not due. */
  lemma {:induction false} SyncTraceDueExclusive(r: PersonRoutine, s: RoutineStatus, ts: seq<SimTime>, sem: TimeSemantics)
    requires |ts| > 0
    ensures var s' := SyncTrace(r, s, ts, sem);
      && (s'.due ==> !s'.started && !s'.done)
      && (!InWindow(sem, r.validTime, ts[|ts| - 1]) ==> !s'.due)
  {
    SyncTraceLast(r, s, ts, sem);
  }

  /** Any number of syncs keeps a consistent status consistent. */
  lemma {:induction false} SyncTraceKeepsConsistent(r: PersonRoutine, s: RoutineStatus, ts: seq<SimTime>, sem: TimeSemantics)
    requires Consistent(s)
    ensures Consistent(SyncTrace(r, s, ts, sem))
    decreases |ts|
  {
    if ts != [] {
      SyncTraceKeepsConsistent(r, Synced(r, s, ts[0], sem), ts[1..], sem);
    }
  }

  /** Over any number of syncs a routine is never started or finished, its stay counter
      is at most cleared, and its selected end location is at most forgotten. */
  lemma {:induction false} SyncTraceNeverAdvances(r: PersonRoutine, s: RoutineStatus, ts: seq<SimTime>, sem: TimeSemantics)
    ensures var s' := SyncTrace(r, s, ts, sem);
      && (s'.started ==> s.started)
      && (s'.done ==> s.done)
      && (s'.duration == s.duration || s'.duration == 0)
      && (s'.endLocSelected == s.endLocSelected || s'.endLocSelected == None)
    decreases |ts|
  {
    if ts != [] {
      SyncTraceNeverAdvances(r, Synced(r, s, ts[0], sem), ts[1..], sem);
    }
  }

  /** A due routine that has neither started nor finished stays due for as long as
      every tick falls inside its valid window. */
  lemma {:induction false} SyncTraceDueSticky(r: PersonRoutine, s: RoutineStatus, ts: seq<SimTime>, sem: TimeSemantics)
    requires s.due && !s.started && !s.done
    requires forall i :: 0 <= i < |ts| ==> InWindow(sem, r.validTime, ts[i])
    ensures SyncTrace(r, s, ts, sem).due
    decreases |ts|
  {
    if ts != [] {
      assert InWindow(sem, r.validTime, ts[0]);
      SyncTraceDueSticky(r, Synced(r, s, ts[0], sem), ts[1..], sem);
    }
  }

  /** Syncing `n >= 1` times at the same time is the same as syncing once. */
  lemma {:induction false} SyncRepeatedIsSyncOnce(r: PersonRoutine, s: RoutineStatus, t: SimTime, sem: TimeSemantics, n: nat)
    requires n >= 1
    ensures SyncTrace(r, s, seq(n, _ => t), sem) == Synced(r, s, t, sem)
    decreases n
  {
    var ts := seq(n, _ => t);
    if n > 1 {
      assert ts[1..] == seq(n - 1, _ => t);
      SyncRepeatedIsSyncOnce(r, Synced(r, s, t, sem), t, sem, n - 1);
      SyncIdempotent(r, s, t, sem);
    } else {
      assert ts[1..] == [];
    }
  }

  /** A routine together with its mutable status variables (the Python `PersonRoutineWithStatus`). */
  class PersonRoutineWithStatus {
    var routine: PersonRoutine
    var due: bool
    var started: bool
    var duration: int
    var done: bool
    var endLocSelected: Option<LocationID>   // the end location chosen for the current occurrence

    /** The status variables as a value. */
    function Status(): RoutineStatus
      reads this
    {
      RoutineStatus(due, started, duration, done, endLocSelected)
    }

    /** The dataclass constructor: every status variable defaults to its initial value. */
    constructor (routine: PersonRoutine, due: bool := false, started: bool := false, duration: int := 0,
                 done: bool := false, endLocSelected: Option<LocationID> := None)
      ensures this.routine == routine
      ensures Status() == RoutineStatus(due, started, duration, done, endLocSelected)
    {
      this.routine := routine;
      this.due := due;
      this.started := started;
      this.duration := duration;
      this.done := done;
      this.endLocSelected := endLocSelected;
    }

    /** `sync`: re-arm a finished routine whose repeat interval fires, then recompute `due`. */
    method Sync(t: SimTime, sem: TimeSemantics)
      modifies this
      ensures routine == old(routine)
      ensures Status() == Synced(routine, old(Status()), t, sem)
      ensures due ==> !started && !done
      ensures old(Consistent(Status())) ==> Consistent(Status())
    {
      if done && Fires(sem, routine.repeatIntervalWhenDone, t) {
        Reset();
      }
      due := IsRoutineDue(routine, Status(), t, sem);
    }

    /** `reset`: every status variable back to its initial value; the routine is untouched. */
    method Reset()
      modifies this
      ensures routine == old(routine)
      ensures Status() == InitialStatus
    {
      due := false;
      started := false;
      duration := 0;
      done := false;
      endLocSelected := None;
    }
  }

  /** After `Reset`, a status equals, field for field, a fresh status built on the same routine. */
  method ResetMatchesFresh(p: PersonRoutineWithStatus) returns (fresh_p: PersonRoutineWithStatus)
    modifies p
    ensures fresh(fresh_p)
    ensures p.routine == old(p.routine) && fresh_p.routine == p.routine
    ensures fresh_p.Status() == p.Status() == InitialStatus
  {
    p.Reset();
    fresh_p := new PersonRoutineWithStatus(p.routine);
  }
}
