/**
 The lock's memory of rejected streams, read off the events: a stream is remembered exactly from
 its last rejected packet on for the memory time, or until a rejected terminator.
 */
module LockMemory {
  import opened Prelude
  import opened Wire
  import opened Packets
  import opened CallModel
  import opened Frames
  import opened Runs
  import opened RejectedStreams

  /** One second more than the hang time, but at least half a second. */
  function MemoryTime(c: Config): Time {
    if c.lockHangMs * 1000 + 1_000_000 < 500_000 then 500_000 else c.lockHangMs * 1000 + 1_000_000
  }

  predicate Fresh(c: Config, last: Option<Time>, now: Time) {
    last.Some? && now < last.value + MemoryTime(c)
  }

  /**
   When the stream's last rejected packet came, unless that was the terminator of a rejected stream
   or IPSC was lost since.
   */
  function LastRejected(c: Config, evs: seq<Event>, ts: Timeslot, key: StreamKey): Option<Time> {
    if evs == [] then None
    else
      var pre, e := evs[..|evs| - 1], evs[|evs| - 1];
      var last := LastRejected(c, pre, ts, key);
      if e.PeerLost? then None
      else if Rejects(c, ts, Run(c, pre).At(ts), e, key) then
        if EndsStream(e) && Fresh(c, last, e.now) then None else Some(e.now)
      else last
  }

  /** The memory holds the stream exactly as long as it is fresh; what is left of it otherwise has expired. */
  ghost predicate Agrees(c: Config, l: Lock, key: StreamKey, last: Option<Time>, clock: Time) {
    && (Fresh(c, last, clock) ==> Remembers(l, key))
    && (Remembers(l, key) ==> last.Some? && Expiry(l, key) == last.value + MemoryTime(c))
  }

  lemma AgreesLater(c: Config, l: Lock, key: StreamKey, last: Option<Time>, clock: Time, now: Time)
    requires Agrees(c, l, key, last, clock) && clock <= now
    ensures Agrees(c, l, key, last, now)
    ensures Remembers(Prune(l, now), key) <==> Fresh(c, last, now)
  {
  }

  lemma GateOther(c: Config, s: Slot, dir: Direction, other: StreamKey, src: Bytes, dst: Bytes, isEnd: bool, now: Time,
                  key: StreamKey, last: Option<Time>)
    requires Agrees(c, s.lock, key, last, now) && other != key
    ensures Agrees(c, LockGate(c, s, dir, other, src, dst, isEnd, now).s.lock, key, last, now)
  {
  }

  lemma GateOwn(c: Config, s: Slot, dir: Direction, src: Bytes, dst: Bytes, isEnd: bool, now: Time, key: StreamKey,
                last: Option<Time>)
    requires Agrees(c, s.lock, key, last, now) && key != NoKey
    ensures var g := LockGate(c, s, dir, key, src, dst, isEnd, now);
      Agrees(c, g.s.lock, key,
             if g.pass then last else if isEnd && Fresh(c, last, now) then None else Some(now), now)
    ensures c.callLock && Fresh(c, last, now) ==> !LockGate(c, s, dir, key, src, dst, isEnd, now).pass
  {
    AgreesLater(c, s.lock, key, last, now, now);
  }

  lemma IpscRemembers(c: Config, ts: Timeslot, r: Res, e: Event, key: StreamKey, last: Option<Time>)
    requires IpscHeard(e, ts) && key != NoKey && Agrees(c, r.s.lock, key, last, e.now)
    ensures Agrees(c, SlotStep(c, ts, r, e).s.lock, key,
                   if Rejects(c, ts, r.s, e, key) then
                     if EndsStream(e) && Fresh(c, last, e.now) then None else Some(e.now)
                   else last, e.now)
  {
    hide LegacyGate, LockGate, ReflectGate, IpscForward, Fresh, MemoryTime;
    var data, burst, now := e.data, e.burst, e.now;
    var src, dst, k := Slice(data, 6, 9), Slice(data, 9, 12), IpscKeyOf(data);
    var s := r.s.(out := r.s.out.(lastPkt := now));
    LegacyGateFrame(c, s, k, burst, now);
    var a := LegacyGate(c, s, k, burst, now);
    if a.pass {
      LockGateFrame(c, a.s, FromIpsc, k, src, dst, burst == VOICE_TERM, now);
      if k == key {
        GateOwn(c, a.s, FromIpsc, src, dst, burst == VOICE_TERM, now, key, last);
      } else {
        GateOther(c, a.s, FromIpsc, k, src, dst, burst == VOICE_TERM, now, key, last);
      }
      var b := LockGate(c, a.s, FromIpsc, k, src, dst, burst == VOICE_TERM, now);
      ReflectGateFrame(c, b.s, k, burst, src, dst, now);
    }
    IpscForwardFrame(c, ts, Res(Learn(r.sh, data), IpscGate(c, r.s, data, burst, now).s), data, burst, now, e.nonce);
  }

  lemma HbpRemembers(c: Config, ts: Timeslot, r: Res, e: Event, key: StreamKey, last: Option<Time>)
    requires HbpHeard(e, ts) && key != NoKey && Agrees(c, r.s.lock, key, last, e.now)
    ensures Agrees(c, SlotStep(c, ts, r, e).s.lock, key,
                   if Rejects(c, ts, r.s, e, key) then
                     if EndsStream(e) && Fresh(c, last, e.now) then None else Some(e.now)
                   else last, e.now)
  {
    hide LockGate, HbpForward, Fresh, MemoryTime;
    var b, now := ParseDmrd(e.dmrd), e.now;
    var s := r.s.(inb := r.s.inb.(lastPkt := now));
    LockGateFrame(c, s, FromHbp, HbpKey(b.stream), b.src, b.dst, IsTerm(b.flags), now);
    if key == HbpKey(b.stream) {
      GateOwn(c, s, FromHbp, b.src, b.dst, IsTerm(b.flags), now, key, last);
    } else {
      GateOther(c, s, FromHbp, HbpKey(b.stream), b.src, b.dst, IsTerm(b.flags), now, key, last);
    }
    HbpForwardFrame(c, ts, r.(s := HbpGate(c, r.s, b, now).s), b, now, e.seq0, e.ts0);
  }

  lemma StepRemembers(c: Config, ts: Timeslot, r: Res, e: Event, key: StreamKey, last: Option<Time>, clock: Time)
    requires key != NoKey && Agrees(c, r.s.lock, key, last, clock) && clock <= e.now <= e.Ends()
    ensures Agrees(c, SlotStep(c, ts, r, e).s.lock, key,
                   if e.PeerLost? then None
                   else if Rejects(c, ts, r.s, e, key) then
                     if EndsStream(e) && Fresh(c, last, e.now) then None else Some(e.now)
                   else last, e.Ends())
  {
    hide IpscVoice, HbpVoice, Drain, Fresh, Rejects, MemoryTime, Agrees;
    AgreesLater(c, r.s.lock, key, last, clock, e.now);
    AgreesLater(c, r.s.lock, key, last, clock, e.Ends());
    OnlyHeardRejects(c, ts, r.s, e, key);
    match e
    case IpscPacket(_, _, _, _, _, _) =>
      if IpscHeard(e, ts) {
        IpscRemembers(c, ts, r, e, key, last);
      }
    case HbpPacket(_, _, _, _, _) =>
      if HbpHeard(e, ts) {
        HbpRemembers(c, ts, r, e, key, last);
      }
    case DrainFires(_, now, later) =>
      DrainFrame(c, r.s, now, later);
      SameMemory(c, r.s.lock, SlotStep(c, ts, r, e).s.lock, key, last, e.Ends());
    case PeerLost(_) => NothingRemembered(c, key, e.Ends());
    case _ => SameMemory(c, r.s.lock, SlotStep(c, ts, r, e).s.lock, key, last, e.Ends());
  }

  lemma OnlyHeardRejects(c: Config, ts: Timeslot, s: Slot, e: Event, key: StreamKey)
    ensures Rejects(c, ts, s, e, key) ==> IpscHeard(e, ts) || HbpHeard(e, ts)
  {
  }

  lemma SameMemory(c: Config, l: Lock, l': Lock, key: StreamKey, last: Option<Time>, clock: Time)
    requires Agrees(c, l, key, last, clock) && l'.blockedIpsc == l.blockedIpsc && l'.blockedHbp == l.blockedHbp
    ensures Agrees(c, l', key, last, clock)
  {
  }

  lemma NothingRemembered(c: Config, key: StreamKey, clock: Time)
    ensures Agrees(c, IDLE_LOCK, key, None, clock)
  {
  }

  lemma {:induction false} AgreesAlways(c: Config, evs: seq<Event>, ts: Timeslot, key: StreamKey)
    requires Legal(c, evs) && key != NoKey
    ensures Agrees(c, Run(c, evs).At(ts).lock, key, LastRejected(c, evs, ts, key), ClockAfter(evs))
  {
    hide SlotStep, Agrees, Rejects, Fresh;
    if evs == [] {
      NothingRemembered(c, key, 0);
    } else {
      var pre, e := evs[..|evs| - 1], evs[|evs| - 1];
      AgreesAlways(c, pre, ts, key);
      StepSeen(c, ts, Run(c, pre), e);
      StepRemembers(c, ts, Seen(c, ts, Run(c, pre), e), e, key, LastRejected(c, pre, ts, key), ClockAfter(pre));
    }
  }

  /**
   Main result: on every real-time run the lock remembers a stream exactly while its last rejected
   packet is less than the memory time old.
   */
  lemma RememberedExactlyWhile(c: Config, evs: seq<Event>, ts: Timeslot, key: StreamKey, now: Time)
    requires Legal(c, evs) && key != NoKey && ClockAfter(evs) <= now
    ensures Remembers(Prune(Run(c, evs).At(ts).lock, now), key) <==> Fresh(c, LastRejected(c, evs, ts, key), now)
  {
    hide Run, Legal, LastRejected, Agrees, Fresh;
    AgreesAlways(c, evs, ts, key);
    AgreesLater(c, Run(c, evs).At(ts).lock, key, LastRejected(c, evs, ts, key), ClockAfter(evs), now);
  }

  /**
   Main result: a packet meeting the lock is rejected exactly when its stream is still remembered,
   or an active owner of the other direction holds the slot against its talkgroup.
   */
  lemma RejectedExactlyWhen(c: Config, evs: seq<Event>, ts: Timeslot, s: Slot, dir: Direction, key: StreamKey,
                            src: Bytes, dst: Bytes, isEnd: bool, now: Time)
    requires Legal(c, evs) && key != NoKey && ClockAfter(evs) <= now && c.callLock
    requires s.lock.blockedIpsc == Run(c, evs).At(ts).lock.blockedIpsc
    requires s.lock.blockedHbp == Run(c, evs).At(ts).lock.blockedHbp
    ensures !LockGate(c, s, dir, key, src, dst, isEnd, now).pass <==>
      || Fresh(c, LastRejected(c, evs, ts, key), now)
      || (&& s.lock.owner.Some? && s.lock.owner != Some(dir) && LockActive(s, now)
          && (c.lockSameTgOnly ==> s.lock.tg == Some(dst)))
  {
    hide Run, Legal, LastRejected, Fresh;
    RememberedExactlyWhile(c, evs, ts, key, now);
  }
}
