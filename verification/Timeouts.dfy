/**
 Silent calls end: an open call is never older than the timeout plus the time since the last
 watchdog tick, a tick closes exactly the calls silent for longer than the timeout, and a lock
 whose owner has fallen silent yields to the other direction.
 */
module Timeouts {
  import opened Prelude
  import opened Wire
  import opened Packets
  import opened CallModel
  import opened Frames
  import opened Runs
  import opened CallShape

  /** The time stamps of one slot after a run: heard, ticked and clock are the run's times. */
  ghost predicate Stamped(c: Config, s: Slot, heardI: Time, heardH: Time, ticked: Time, clock: Time) {
    && Shape(s)
    && heardI <= clock && heardH <= clock && ticked <= clock
    && (s.out.stream.Some? ==> s.out.lastPkt == heardI && ticked - heardI <= CALL_TIMEOUT)
    && (s.inb.lc.Some? ==> s.inb.lastPkt == heardH && ticked - heardH <= CALL_TIMEOUT)
    && s.lock.until <= clock + c.Hang()
  }

  lemma StepStamped(c: Config, ts: Timeslot, r: Res, e: Event, heardI: Time, heardH: Time, ticked: Time, clock: Time)
    requires Stamped(c, r.s, heardI, heardH, ticked, clock)
    requires 0 <= clock <= e.now && (e.DrainFires? ==> e.now <= e.later)
    ensures Stamped(c, SlotStep(c, ts, r, e).s,
                    if IpscHeard(e, ts) then e.now else heardI,
                    if HbpHeard(e, ts) then e.now else heardH,
                    if e.Watchdog? then e.now else ticked, e.Ends())
  {
    hide HbpGate, HbpForward, IpscGate, IpscForward, Drain;
    ShapeStep(c, ts, r, e);
    match e
    case IpscPacket(ts', data, burst, up, now, nonce) =>
      IpscGateFrame(c, r.s, data, burst, now);
      IpscForwardFrame(c, ts, Res(Learn(r.sh, data), IpscGate(c, r.s, data, burst, now).s), data, burst, now, nonce);
    case HbpPacket(dmrd, up, now, seq0, ts0) =>
      if HbpHeard(e, ts) {
        var b := ParseDmrd(dmrd);
        HbpGateFrame(c, r.s, b, now);
        HbpForwardFrame(c, ts, r.(s := HbpGate(c, r.s, b, now).s), b, now, seq0, ts0);
      }
    case DrainFires(_, now, later) => DrainFrame(c, r.s, now, later);
    case _ =>
  }

  lemma {:induction false} StampedAlways(c: Config, evs: seq<Event>, ts: Timeslot)
    requires Legal(c, evs)
    ensures Stamped(c, Run(c, evs).At(ts), LastHeard(evs, FromIpsc, ts), LastHeard(evs, FromHbp, ts), LastTick(evs),
                    ClockAfter(evs))
    ensures ClockAfter(evs) >= 0
  {
    hide SlotStep, Stamped;
    if evs == [] {
      StampedInitially(c);
    } else {
      var pre, e := evs[..|evs| - 1], evs[|evs| - 1];
      var st := Run(c, pre);
      StampedAlways(c, pre, ts);
      StepStamped(c, ts, Res(if ts.TS1? then st.sh else SlotStep(c, TS1, Res(st.sh, st.one), e).sh, st.At(ts)), e,
                  LastHeard(pre, FromIpsc, ts), LastHeard(pre, FromHbp, ts), LastTick(pre), ClockAfter(pre));
    }
  }

  lemma StampedInitially(c: Config)
    ensures Stamped(c, IDLE_SLOT, 0, 0, 0, 0)
  {
  }

  /** At any moment after a run, an open call was heard within the timeout plus the age of the last tick. */
  lemma HungCallBound(c: Config, evs: seq<Event>, ts: Timeslot, now: Time)
    requires Legal(c, evs) && ClockAfter(evs) <= now
    ensures var s := Run(c, evs).At(ts);
      && (s.out.stream.Some? ==> now - LastHeard(evs, FromIpsc, ts) <= CALL_TIMEOUT + (now - LastTick(evs)))
      && (s.inb.lc.Some? ==> now - LastHeard(evs, FromHbp, ts) <= CALL_TIMEOUT + (now - LastTick(evs)))
  {
    StampedAlways(c, evs, ts);
  }

  lemma TickCloses(c: Config, ts: Timeslot, r: Res, now: Time, heardI: Time, heardH: Time, ticked: Time, clock: Time)
    requires Stamped(c, r.s, heardI, heardH, ticked, clock)
    ensures var s' := SlotStep(c, ts, r, Watchdog(now)).s;
      && (s'.out.stream.Some? <==> r.s.out.stream.Some? && now - heardI <= CALL_TIMEOUT)
      && (s'.inb.lc.Some? <==> r.s.inb.lc.Some? && now - heardH <= CALL_TIMEOUT)
  {
  }

  /** A tick keeps an open call exactly when something was heard for it within the timeout. */
  lemma TickClosesExactlyTheSilent(c: Config, evs: seq<Event>, ts: Timeslot, now: Time)
    requires Legal(c, evs)
    ensures var s, s' := Run(c, evs).At(ts), Run(c, evs + [Watchdog(now)]).At(ts);
      && (s'.out.stream.Some? <==> s.out.stream.Some? && now - LastHeard(evs, FromIpsc, ts) <= CALL_TIMEOUT)
      && (s'.inb.lc.Some? <==> s.inb.lc.Some? && now - LastHeard(evs, FromHbp, ts) <= CALL_TIMEOUT)
  {
    hide SlotStep, Stamped, LastHeard, LastTick, ClockAfter;
    StampedAlways(c, evs, ts);
    var st, evs' := Run(c, evs), evs + [Watchdog(now)];
    assert evs'[..|evs'| - 1] == evs;
    assert Run(c, evs') == Step(c, st, Watchdog(now));
    var sh := if ts.TS1? then st.sh else SlotStep(c, TS1, Res(st.sh, st.one), Watchdog(now)).sh;
    TickCloses(c, ts, Res(sh, st.At(ts)), now, LastHeard(evs, FromIpsc, ts), LastHeard(evs, FromHbp, ts), LastTick(evs),
               ClockAfter(evs));
  }

  // ------------------------------------------------------------------
  // No permanent lockout
  // ------------------------------------------------------------------

  /** From event n on, nothing of this direction is heard on the slot. */
  predicate Quiet(evs: seq<Event>, n: nat, dir: Direction, ts: Timeslot) {
    forall i :: n <= i < |evs| ==> !Heard(dir, evs[i], ts)
  }

  lemma {:induction false} QuietKeepsLast(c: Config, evs: seq<Event>, n: nat, dir: Direction, ts: Timeslot)
    requires Legal(c, evs) && n <= |evs| && Quiet(evs, n, dir, ts)
    ensures LastHeard(evs, dir, ts) <= ClockAfter(evs[..n])
  {
    if n == |evs| {
      assert evs[..n] == evs;
      StampedAlways(c, evs, ts);
    } else {
      var pre := evs[..|evs| - 1];
      QuietKeepsLast(c, pre, n, dir, ts);
      assert pre[..n] == evs[..n];
    }
  }

  /** When the slot's last drain among events n.. ended (or 0). */
  function LastDrain(evs: seq<Event>, n: nat, ts: Timeslot): Time {
    if |evs| <= n then 0
    else
      var e := evs[|evs| - 1];
      if e.DrainFires? && e.ts == ts then e.later else LastDrain(evs[..|evs| - 1], n, ts)
  }

  /** The direction's call is closed; if it still owns the lock, the hang time ends by the given time. */
  ghost predicate Yielding(s: Slot, dir: Direction, limit: Time) {
    && (if dir == FromIpsc then s.out.stream.None? else s.inb.lc.None? && !s.inb.started)
    && (s.lock.owner == Some(dir) ==> s.lock.until <= limit)
  }

  /** Ticked on while silent for longer than the timeout, a direction starts yielding. */
  lemma TickYields(c: Config, ts: Timeslot, r: Res, e: Event, dir: Direction, heardI: Time, heardH: Time, ticked: Time,
                   clock: Time)
    requires Stamped(c, r.s, heardI, heardH, ticked, clock) && e.Watchdog? && clock <= e.now
    requires e.now - (if dir == FromIpsc then heardI else heardH) > CALL_TIMEOUT
    ensures Yielding(SlotStep(c, ts, r, e).s, dir, e.now + c.Hang())
  {
  }

  /** Nothing but the direction itself (or its drains) prolongs its lock again. */
  lemma StepYields(c: Config, ts: Timeslot, r: Res, e: Event, dir: Direction, limit: Time)
    requires Yielding(r.s, dir, limit) && !Heard(dir, e, ts) && limit >= 0
    ensures Yielding(SlotStep(c, ts, r, e).s, dir,
                     if dir == FromHbp && e.DrainFires? && e.ts == ts then Max(limit, Max(e.now, e.later) + c.Hang())
                       else limit)
  {
    hide HbpGate, HbpForward, IpscGate, IpscForward, Drain;
    match e
    case IpscPacket(ts', data, burst, up, now, nonce) =>
      IpscGateFrame(c, r.s, data, burst, now);
      IpscForwardFrame(c, ts, Res(Learn(r.sh, data), IpscGate(c, r.s, data, burst, now).s), data, burst, now, nonce);
    case HbpPacket(dmrd, up, now, seq0, ts0) =>
      if HbpHeard(e, ts) {
        var b := ParseDmrd(dmrd);
        HbpGateFrame(c, r.s, b, now);
        HbpForwardFrame(c, ts, r.(s := HbpGate(c, r.s, b, now).s), b, now, seq0, ts0);
      }
    case DrainFires(_, now, later) => DrainFrame(c, r.s, now, later);
    case _ =>
  }

  lemma {:induction false} LastDrainIsPast(c: Config, evs: seq<Event>, n: nat, ts: Timeslot)
    requires Legal(c, evs)
    ensures 0 <= LastDrain(evs, n, ts) <= ClockAfter(evs)
  {
    hide Step;
    if evs != [] {
      LastDrainIsPast(c, evs[..|evs| - 1], n, ts);
    }
  }

  /**
   From a tick on at which the direction has been silent for longer than the timeout, and as
   long as it stays silent, it yields: by the tick plus the hang time, or for HBP by the end of
   its last drain plus the hang time.
   */
  lemma {:induction false} SilentOwnerYields(c: Config, evs: seq<Event>, ts: Timeslot, dir: Direction, n: nat, k: nat)
    requires Legal(c, evs) && n <= k < |evs| && Quiet(evs, n, dir, ts)
    requires evs[k].Watchdog? && evs[k].now > ClockAfter(evs[..n]) + CALL_TIMEOUT
    ensures Yielding(Run(c, evs).At(ts), dir,
                     Max(evs[k].now, if dir == FromHbp then LastDrain(evs, k, ts) else 0) + c.Hang())
  {
    hide SlotStep, Stamped, Yielding;
    var pre, e := evs[..|evs| - 1], evs[|evs| - 1];
    var st := Run(c, pre);
    var r := Res(if ts.TS1? then st.sh else SlotStep(c, TS1, Res(st.sh, st.one), e).sh, st.At(ts));
    assert pre[..n] == evs[..n] && Legal(c, pre) && Quiet(pre, n, dir, ts);
    if k == |evs| - 1 {
      StampedAlways(c, pre, ts);
      QuietKeepsLast(c, pre, n, dir, ts);
      TickYields(c, ts, r, e, dir, LastHeard(pre, FromIpsc, ts), LastHeard(pre, FromHbp, ts), LastTick(pre),
                 ClockAfter(pre));
    } else {
      SilentOwnerYields(c, pre, ts, dir, n, k);
      LegalPrefix(c, pre, n);
      StampedAlways(c, pre[..n], ts);
      LastDrainIsPast(c, pre, k, ts);
      StepYields(c, ts, r, e, dir, Max(evs[k].now, if dir == FromHbp then LastDrain(pre, k, ts) else 0) + c.Hang());
    }
  }

  lemma {:induction false} LegalPrefix(c: Config, evs: seq<Event>, n: nat)
    requires Legal(c, evs) && n <= |evs|
    ensures Legal(c, evs[..n])
  {
    if n < |evs| {
      LegalPrefix(c, evs[..|evs| - 1], n);
      assert evs[..|evs| - 1][..n] == evs[..n];
    } else {
      assert evs[..n] == evs;
    }
  }

  /** A yielding owner, past its limit and with nothing queued, lets a packet of the other direction through. */
  lemma YieldingAdmits(c: Config, s: Slot, dir: Direction, limit: Time, key: StreamKey, src: Bytes, dst: Bytes,
                       isEnd: bool, now: Time)
    requires Yielding(s, dir, limit) && limit < now
    requires dir == FromHbp ==> s.pacer.queue == []
    requires !Remembers(Prune(s.lock, now), key)
    ensures LockGate(c, s, if dir == FromIpsc then FromHbp else FromIpsc, key, src, dst, isEnd, now).pass
  {
    match s.lock.owner
    case None =>
    case Some(o) => assert o.FromIpsc? || o.FromHbp?;
  }

  /** With regular ticks, the first tick past a moment comes within the period. */
  lemma {:induction false} FirstTickAfter(evs: seq<Event>, limit: Time, period: Time) returns (k: nat)
    requires TickedEvery(evs, period) && 0 <= limit < LastTick(evs)
    ensures k < |evs| && evs[k].Watchdog? && limit < evs[k].now <= limit + period
  {
    var n := |evs| - 1;
    if limit < LastTick(evs[..n]) {
      k := FirstTickAfter(evs[..n], limit, period);
    } else {
      k := n;
    }
  }

  /** Up to where the direction was last heard, and that it is quiet from there on. */
  lemma {:induction false} QuietSince(c: Config, evs: seq<Event>, dir: Direction, ts: Timeslot) returns (n: nat)
    requires Legal(c, evs)
    ensures n <= |evs| && Quiet(evs, n, dir, ts) && ClockAfter(evs[..n]) == LastHeard(evs, dir, ts)
  {
    if evs == [] || Heard(dir, evs[|evs| - 1], ts) {
      n := |evs|;
      assert evs[..n] == evs;
    } else {
      var pre := evs[..|evs| - 1];
      n := QuietSince(c, pre, dir, ts);
      assert pre[..n] == evs[..n];
      assert forall i :: n <= i < |evs| ==> evs[i] == if i < |pre| then pre[i] else evs[|evs| - 1];
    }
  }

  lemma {:induction false} ClockRises(c: Config, evs: seq<Event>, k: nat)
    requires Legal(c, evs) && k < |evs|
    ensures evs[k].now <= ClockAfter(evs) && (forall m :: k < m <= |evs| ==> evs[k].now <= ClockAfter(evs[..m]))
  {
    var pre := evs[..|evs| - 1];
    if k < |pre| {
      ClockRises(c, pre, k);
      forall m | k < m <= |evs| ensures evs[k].now <= ClockAfter(evs[..m]) {
        assert if m < |evs| then pre[..m] == evs[..m] else evs[..m] == evs;
      }
    } else {
      assert evs[..|evs|] == evs;
    }
  }

  /** The lock is this late at most in starting to yield: the timeout and one tick after the last packet. */
  lemma YieldsInTime(c: Config, evs: seq<Event>, ts: Timeslot, dir: Direction, period: Time, now: Time)
    requires Legal(c, evs) && TickedEvery(evs, period) && now - LastTick(evs) <= period
    requires now > LastHeard(evs, dir, ts) + CALL_TIMEOUT + period
    ensures Yielding(Run(c, evs).At(ts), dir,
                     Max(LastHeard(evs, dir, ts) + CALL_TIMEOUT + period,
                         if dir == FromHbp then LastDrain(evs, 0, ts) else 0) + c.Hang())
  {
    hide Step, Legal, Stamped;
    var n := QuietSince(c, evs, dir, ts);
    LegalPrefix(c, evs, n);
    StampedAlways(c, evs[..n], ts);
    var limit := LastHeard(evs, dir, ts) + CALL_TIMEOUT;
    var k := FirstTickAfter(evs, limit, period);
    if k < n {
      ClockRises(c, evs, k);
    }
    SilentOwnerYields(c, evs, ts, dir, n, k);
    DrainsCount(c, evs, k, ts);
  }

  lemma {:induction false} DrainsCount(c: Config, evs: seq<Event>, n: nat, ts: Timeslot)
    requires Legal(c, evs)
    ensures LastDrain(evs, n, ts) <= LastDrain(evs, 0, ts)
  {
    hide Legal, Step;
    LastDrainIsPast(c, evs, 0, ts);
    if |evs| > n {
      DrainsCountPrefix(c, evs);
      DrainsCount(c, evs[..|evs| - 1], n, ts);
    }
  }

  lemma DrainsCountPrefix(c: Config, evs: seq<Event>)
    requires Legal(c, evs) && evs != []
    ensures Legal(c, evs[..|evs| - 1])
  {
  }

  /**
   Main result, IPSC as owner: with a tick every period, once IPSC has been silent for longer
   than the timeout, the period and the hang time, every DMRD of a stream not already rejected
   passes the lock.
   */
  lemma IpscCannotLockOut(c: Config, evs: seq<Event>, ts: Timeslot, period: Time, b: Burst, now: Time)
    requires Legal(c, evs) && ClockAfter(evs) <= now && TickedEvery(evs, period) && now - LastTick(evs) <= period
    requires now > LastHeard(evs, FromIpsc, ts) + CALL_TIMEOUT + period + c.Hang()
    requires !Remembers(Prune(Run(c, evs).At(ts).lock, now), HbpKey(b.stream)) && !IsTerm(b.flags)
    ensures HbpGate(c, Run(c, evs).At(ts), b, now).pass
  {
    hide LockGate, Step, Legal, Run, Yielding, LastHeard, LastTick, TickedEvery;
    YieldsInTime(c, evs, ts, FromIpsc, period, now);
    LastHeardIsPast(c, evs, FromIpsc, ts);
    var limit := LastHeard(evs, FromIpsc, ts) + CALL_TIMEOUT + period + c.Hang();
    var s := Run(c, evs).At(ts);
    YieldingStays(s, s.(inb := s.inb.(lastPkt := now)), FromIpsc, limit);
    YieldingAdmits(c, s.(inb := s.inb.(lastPkt := now)), FromIpsc, limit, HbpKey(b.stream), b.src, b.dst, false, now);
  }

  lemma LastHeardIsPast(c: Config, evs: seq<Event>, dir: Direction, ts: Timeslot)
    requires Legal(c, evs)
    ensures 0 <= LastHeard(evs, dir, ts) <= ClockAfter(evs) && 0 <= LastTick(evs) <= ClockAfter(evs)
  {
  }

  lemma YieldingStays(s: Slot, s': Slot, dir: Direction, limit: Time)
    requires Yielding(s, dir, limit) && s'.lock.owner == s.lock.owner
    requires s'.lock.until == s.lock.until || (dir == FromHbp && s.lock.owner == Some(FromIpsc))
    requires dir == FromIpsc ==> s'.out == s.out
    requires dir == FromHbp ==> s'.inb.lc == s.inb.lc && s'.inb.started == s.inb.started
    ensures Yielding(s', dir, limit)
  {
  }

  /**
   Main result, HBP as owner: the same for IPSC packets, once the queue has emptied and the hang
   time after the last drain, too, is over.
   */
  lemma HbpCannotLockOut(c: Config, evs: seq<Event>, ts: Timeslot, period: Time, data: Bytes, burst: byte, now: Time)
    requires Legal(c, evs) && ClockAfter(evs) <= now && TickedEvery(evs, period) && now - LastTick(evs) <= period
    requires now > Max(LastHeard(evs, FromHbp, ts) + CALL_TIMEOUT + period, LastDrain(evs, 0, ts)) + c.Hang()
    requires Run(c, evs).At(ts).pacer.queue == []
    requires !Remembers(Prune(Run(c, evs).At(ts).lock, now), IpscKeyOf(data))
    ensures var s := Run(c, evs).At(ts);
      var g := LegacyGate(c, s.(out := s.out.(lastPkt := now)), IpscKeyOf(data), burst, now);
      LockGate(c, g.s, FromIpsc, IpscKeyOf(data), Slice(data, 6, 9), Slice(data, 9, 12), burst == VOICE_TERM, now).pass
  {
    hide LockGate, LegacyGate, Step, Legal, Run, Yielding, LastHeard, LastTick, TickedEvery;
    YieldsInTime(c, evs, ts, FromHbp, period, now);
    var s, key := Run(c, evs).At(ts), IpscKeyOf(data);
    var limit := Max(LastHeard(evs, FromHbp, ts) + CALL_TIMEOUT + period, LastDrain(evs, 0, ts)) + c.Hang();
    var s0 := s.(out := s.out.(lastPkt := now));
    LegacyGateFrame(c, s0, key, burst, now);
    var g := LegacyGate(c, s0, key, burst, now);
    YieldingStays(s, g.s, FromHbp, limit);
    YieldingAdmits(c, g.s, FromHbp, limit, key, Slice(data, 6, 9), Slice(data, 9, 12), burst == VOICE_TERM, now);
  }
}
