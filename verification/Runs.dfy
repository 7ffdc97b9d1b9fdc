/**
 Runs as they happen: one clock that never goes back, timers that never fire early, packets as
 the stacks deliver them; and what a slot has heard along a run.
 */
module Runs {
  import opened Prelude
  import opened Packets
  import opened CallModel

  function ClockAfter(evs: seq<Event>): Time {
    if evs == [] then 0 else evs[|evs| - 1].Ends()
  }

  /** The event may happen next: time has not gone back, and a drain is one that is due. */
  predicate Timely(st: State, clock: Time, e: Event) {
    && clock <= e.now
    && (e.DrainFires? ==>
          var h := st.At(e.ts).pacer.handle; h.Some? && h.value <= e.now <= e.later)
  }

  predicate Legal(c: Config, evs: seq<Event>) {
    evs == [] || (var pre := evs[..|evs| - 1]; Legal(c, pre) && Timely(Run(c, pre), ClockAfter(pre), evs[|evs| - 1]))
  }

  /** An IPSC voice packet comes with the slot and burst type read from it, and with a fresh 4-byte nonce. */
  predicate Delivered(e: Event) {
    e.IpscPacket? ==> GvMeta(e.data) == Some((e.ts, e.burst)) && e.data[0] == GROUP_VOICE && |e.nonce| == 4
  }

  /** A run the outside can bring about. */
  predicate Possible(c: Config, evs: seq<Event>) {
    Legal(c, evs) && forall e <- evs :: Delivered(e)
  }

  /** A step on slot ts, seen from the state. */
  function Seen(c: Config, ts: Timeslot, st: State, e: Event): Res {
    Res(if ts.TS1? then st.sh else SlotStep(c, TS1, Res(st.sh, st.one), e).sh, st.At(ts))
  }

  lemma StepSeen(c: Config, ts: Timeslot, st: State, e: Event)
    ensures Step(c, st, e).At(ts) == SlotStep(c, ts, Seen(c, ts, st, e), e).s
  {
    hide SlotStep;
  }

  // ------------------------------------------------------------------
  // What a slot hears
  // ------------------------------------------------------------------

  /** An IPSC voice packet reaches the translator on this slot while HBP is up. */
  predicate IpscHeard(e: Event, ts: Timeslot) {
    e.IpscPacket? && e.ts == ts && e.up
  }

  /** A DMRD reaches the translator on this slot while IPSC is registered. */
  predicate HbpHeard(e: Event, ts: Timeslot) {
    e.HbpPacket? && e.up && |e.dmrd| >= DMRD_LEN && SlotOf(e.dmrd[15]) == ts
  }

  predicate Heard(dir: Direction, e: Event, ts: Timeslot) {
    if dir == FromIpsc then IpscHeard(e, ts) else HbpHeard(e, ts)
  }

  /** When the slot last heard from this direction. */
  function LastHeard(evs: seq<Event>, dir: Direction, ts: Timeslot): Time {
    if evs == [] then 0
    else if Heard(dir, evs[|evs| - 1], ts) then evs[|evs| - 1].now
    else LastHeard(evs[..|evs| - 1], dir, ts)
  }

  /** How many packets the slot has heard from this direction. */
  function HeardCount(evs: seq<Event>, dir: Direction, ts: Timeslot): nat {
    if evs == [] then 0
    else HeardCount(evs[..|evs| - 1], dir, ts) + if Heard(dir, evs[|evs| - 1], ts) then 1 else 0
  }

  function LastTick(evs: seq<Event>): Time {
    if evs == [] then 0
    else if evs[|evs| - 1].Watchdog? then evs[|evs| - 1].now
    else LastTick(evs[..|evs| - 1])
  }

  /** No event comes later than this after the last watchdog tick. */
  predicate TickedEvery(evs: seq<Event>, period: Time) {
    evs == [] || (var pre := evs[..|evs| - 1]; TickedEvery(pre, period) && evs[|evs| - 1].now - LastTick(pre) <= period)
  }
}
