/** Small shared vocabulary: optional values, the two timeslots, and per-timeslot tables. */
module Prelude {

  datatype Option<+T> = None | Some(value: T)

  /** The clock, in microseconds. */
  type Time = int

  const SECOND: Time := 1_000_000

  function Max(a: int, b: int): int {
    if a < b then b else a
  }

  function Min(a: int, b: int): int {
    if a < b then a else b
  }

  datatype Timeslot = TS1 | TS2

  function Other(ts: Timeslot): Timeslot {
    if ts.TS1? then TS2 else TS1
  }

  /** A dictionary whose keys are always exactly the timeslots 1 and 2. */
  datatype PerSlot<T> = PerSlot(one: T, two: T) {

    function Get(ts: Timeslot): T {
      if ts.TS1? then one else two
    }

    function Set(ts: Timeslot, v: T): PerSlot<T> {
      if ts.TS1? then PerSlot(v, two) else PerSlot(one, v)
    }
  }

  function Both<T>(v: T): PerSlot<T> {
    PerSlot(v, v)
  }
}
