/**
 * The simulated-time vocabulary the routine status machine relies on.
 *
 * The `sim_time` module that defines `SimTime`, `SimTimeTuple` and `SimTimeInterval` is
 * not part of this model. Only what the routine code uses is kept: the way the two
 * window/interval values are constructed, and the two tests made on them, which are
 * carried by a `TimeSemantics` value that callers supply. Because those tests are
 * total Dafny functions, evaluating one twice at the same time always gives the
 * same answer: there is no hidden "last fired" memory.
 */
module SimTime {
  import opened Wrappers

  /** A point of simulated time (its fields live in the unmodelled `sim_time` module). */
  type SimTime

  /**
   * A calendar window: allowed hours of the day and allowed days of the week.
   * `None` stands for an argument left out of the constructor call.
   */
  datatype SimTimeTuple = SimTimeTuple(hours: Option<seq<int>> := None, weekDays: Option<seq<int>> := None)

  /** A period, given as a count of days and a count of hours. */
  datatype SimTimeInterval = SimTimeInterval(day: int := 0, hour: int := 0)

  /**
   * The meaning of the two time tests, left uninterpreted:
   * `contains(w, t)` is `t in w` and `triggerAtInterval(i, t)` is `i.trigger_at_interval(t)`.
   */
  datatype TimeSemantics = TimeSemantics(
    contains: (SimTimeTuple, SimTime) -> bool,
    triggerAtInterval: (SimTimeInterval, SimTime) -> bool)

  /** `t in window` */
  predicate InWindow(sem: TimeSemantics, window: SimTimeTuple, t: SimTime)
  {
    sem.contains(window, t)
  }

  /** `interval.trigger_at_interval(t)` */
  predicate Fires(sem: TimeSemantics, interval: SimTimeInterval, t: SimTime)
  {
    sem.triggerAtInterval(interval, t)
  }
}
