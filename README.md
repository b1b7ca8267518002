# Person routine status machine

A model of the routine scheduling core of the pandemic simulator
(`python/pandemic_simulator/environment/interfaces/person_routine.py`).

- `PersonRoutine` is the frozen description of a recurring behaviour: where it starts
  (or anywhere), where it ends (a fixed location or the `social` sentinel), when it may
  start, how often it is triggered, its two probabilities, its alternative end
  locations, how long the person stays, and how soon it repeats once done.
- `PersonRoutineWithStatus` wraps one routine with five status variables: `due`,
  `started`, `duration`, `done` and `endLocSelected`. The simulator calls `sync(t)`
  once per tick. `sync` first re-arms a finished routine whose repeat interval fires,
  then recomputes `due`. `reset()` puts every status variable back to its initial value.

Files:

- `wrappers.dfy`: the `Option` type used for Python's `Optional` fields.
- `sim_time.dfy` (module `SimTime`): the time vocabulary the routine code uses. `SimTime`
  is an opaque type. `SimTimeTuple(hours, weekDays)` and `SimTimeInterval(day, hour)` keep
  the constructor arguments the code passes. The two time tests, `t in window` and
  `interval.trigger_at_interval(t)`, are uninterpreted: a `TimeSemantics` value holding
  two total functions is supplied by the caller of `Sync`. Being Dafny functions, they
  are pure, so evaluating a test twice at one time gives one answer.
- `person_routine.dfy` (module `PersonRoutines`):
  - the `EndLoc` union and the `PersonRoutine` record, with the dataclass defaults;
  - the status as a value (`RoutineStatus`), with the functions `IsRoutineDue` and
    `Synced` that specify `_is_routine_due` and `sync`;
  - `SyncTrace`, which runs `sync` over a sequence of ticks, and lemmas about it;
  - the class `PersonRoutineWithStatus` with the in-place `Sync` and `Reset` methods:
    `Sync` is proved against `Synced`, and `Reset` is proved to restore `InitialStatus`.

The dataclass at `person_routine.py:19-51` does no validation. Nothing checks that
the probabilities are in [0, 1] or that the stay is at least 1. So `PersonRoutine`
has no precondition, and `duration` is a plain `int`.

## Model

| member | source | states |
|---|---|---|
| `PersonRoutines.IsRoutineDue` | python/pandemic_simulator/environment/interfaces/person_routine.py:66-71 | If due, the routine has not started, is not done, and the time is in its valid window. If it was not already due, it becomes due only when its start trigger fires. An idle routine inside the window is due when it already was due or its trigger fires. |
| `PersonRoutines.Synced` | python/pandemic_simulator/environment/interfaces/person_routine.py:66-87 | After `sync(t)`: `due` implies not started and not done. Outside the valid window `due` is false. A due, idle routine inside the window stays due. A routine that was not due becomes due only when its start trigger fires, and an idle routine in the window whose trigger fires is due. When a done routine's repeat interval fires, every field is reset and `due` equals "in window and start trigger fires". Otherwise only `due` changes. `started` and `done` never become true. `duration` is kept or cleared, so never increases when non-negative. The flag invariant is preserved. |
| `PersonRoutines.SyncIdempotent` | python/pandemic_simulator/environment/interfaces/person_routine.py:66-79 | Two `sync` calls at the same time give the same status as one. |
| `PersonRoutines.SyncRepeatedIsSyncOnce` | python/pandemic_simulator/environment/interfaces/person_routine.py:66-79 | Any number (at least one) of `sync` calls at the same time give the same status as one. |
| `PersonRoutines.SyncTraceLast` | python/pandemic_simulator/environment/interfaces/person_routine.py:73-79 | A run of `sync` calls over ticks `ts` ends in the status that one `sync` at the last tick produces from the run over the earlier ticks. |
| `PersonRoutines.SyncTraceDueExclusive` | python/pandemic_simulator/environment/interfaces/person_routine.py:66-79 | After at least one `sync`, a due routine has neither started nor finished. A routine whose last tick was outside its window is not due. |
| `PersonRoutines.SyncTraceKeepsConsistent` | python/pandemic_simulator/environment/interfaces/person_routine.py:73-87 | Over any run of `sync` calls, a status stays consistent if it starts consistent. Consistent means: due excludes started and done, started and done are never both true, and duration is 0 unless started. |
| `PersonRoutines.SyncTraceNeverAdvances` | python/pandemic_simulator/environment/interfaces/person_routine.py:73-87 | Over any run of `sync` calls, `started` and `done` never become true. `duration` keeps its value or becomes 0. `endLocSelected` keeps its value or becomes `None`. |
| `PersonRoutines.SyncTraceDueSticky` | python/pandemic_simulator/environment/interfaces/person_routine.py:67-71 | A due routine that has not started or finished stays due through every run of ticks that all fall inside its valid window, whether or not the start trigger fires. |
| `PersonRoutines.PersonRoutineWithStatus.constructor` | python/pandemic_simulator/environment/interfaces/person_routine.py:54-64 | The new status wraps the given routine and holds the given status values, which default to `due=false`, `started=false`, `duration=0`, `done=false`, `endLocSelected=None`. |
| `PersonRoutines.PersonRoutineWithStatus.Sync` | python/pandemic_simulator/environment/interfaces/person_routine.py:73-79 | The routine is unchanged. The new status is `Synced` of the old one. `due` excludes `started` and `done`. A consistent status stays consistent. |
| `PersonRoutines.PersonRoutineWithStatus.Reset` | python/pandemic_simulator/environment/interfaces/person_routine.py:81-87 | The routine is unchanged. Every status variable holds its initial value. |
| `PersonRoutines.ResetMatchesFresh` | python/pandemic_simulator/environment/interfaces/person_routine.py:58-63 | After `reset()`, a status matches, field for field, a newly constructed status on the same routine. |

## Left out

- `PersonRoutineAssignment` (`person_routine.py:90-100`): an abstract class with no implementation. Its `__call__` mutates `Person` objects, which are not part of this model. There is nothing to state about it.
- The transitions the host simulator makes are not modelled. These are the random start draw, exploration sampling of `explorable_end_locs`, incrementing `duration` and setting `done`. They are not in this file, and they use random numbers and float probabilities.
- `start_hour_probability` and `explore_probability` are Python floats. They are carried as `real` fields that no operation reads.
- `SimTime`, `SimTimeTuple` and `SimTimeInterval` come from the `sim_time` module, which is not part of this model. Their fields and defaults are unknown. A constructor argument left out is written `None` (windows) or `0` (intervals), and the two time tests are uninterpreted parameters.
- `SpecialEndLoc.social` has the enum value `0` in Python. The model keeps only the variant `Social`, because nothing reads the number.
- `LocationID` is an opaque type. Its definition is in the `ids` module, which is not part of this model.
- `script_helpers/locations.py` is a configuration factory over location classes that are not part of this model. `scripts/tutorials/6_run_pandemic_sim.py` is a driver script with progress-bar I/O and plotting.
