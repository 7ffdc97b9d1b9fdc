/**
 The memory of rejected streams: once the lock has rejected a stream, every later packet of it
 is dropped up to and including its next terminator, whatever happens to the owner meanwhile,
 as long as no gap in the stream reaches the memory time (hang + 1 s) and IPSC stays up.
 */
module RejectedStreams {
  import opened Prelude
  import opened Wire
  import opened Packets
  import opened CallModel
  import opened Frames
  import opened Runs

  function Expiry(l: Lock, key: StreamKey): Time
    requires Remembers(l, key)
  {
    match key
    case IpscKey(b) => l.blockedIpsc[b]
    case HbpKey(id) => l.blockedHbp[id]
  }

  /** The slot remembers the stream until the given time. */
  ghost predicate Held(s: Slot, key: StreamKey, until: Time) {
    Remembers(s.lock, key) && Expiry(s.lock, key) == until
  }

  /** The event brings a packet of this stream before the slot's lock. */
  predicate Presents(c: Config, ts: Timeslot, s: Slot, e: Event, key: StreamKey) {
    match e
    case IpscPacket(_, data, burst, _, now, _) =>
      && IpscHeard(e, ts) && key.IpscKey? && IpscKeyOf(data) == key
      && LegacyGate(c, s.(out := s.out.(lastPkt := now)), key, burst, now).pass
    case HbpPacket(dmrd, _, _, _, _) => HbpHeard(e, ts) && key == HbpKey(dmrd[16..20])
    case _ => false
  }

  predicate EndsStream(e: Event) {
    (e.IpscPacket? && e.burst == VOICE_TERM) || (e.HbpPacket? && |e.dmrd| >= DMRD_LEN && IsTerm(e.dmrd[15]))
  }

  /** A gate the packet of another stream goes through leaves the memory of this one. */
  lemma OtherStreamKeeps(c: Config, s: Slot, dir: Direction, other: StreamKey, src: Bytes, dst: Bytes, isEnd: bool,
                         now: Time, key: StreamKey, until: Time)
    requires Held(s, key, until) && other != key && now < until
    ensures Held(LockGate(c, s, dir, other, src, dst, isEnd, now).s, key, until)
  {
  }

  /** A presented packet of a remembered stream is stopped at the lock and renews the memory. */
  lemma SameStreamStopped(c: Config, s: Slot, dir: Direction, src: Bytes, dst: Bytes, isEnd: bool, now: Time,
                          key: StreamKey, until: Time)
    requires c.callLock && Held(s, key, until) && now < until
    ensures var g := LockGate(c, s, dir, key, src, dst, isEnd, now);
      !g.pass && (!isEnd ==> Held(g.s, key, now + c.BlockFor()))
  {
  }

  lemma IpscStep(c: Config, ts: Timeslot, r: Res, data: Bytes, burst: byte, now: Time, nonce: Bytes, key: StreamKey,
                 until: Time)
    requires c.callLock && Held(r.s, key, until) && now < until
    ensures var r' := IpscVoice(c, ts, r, data, burst, now, nonce);
      var stopped := key.IpscKey? && IpscKeyOf(data) == key
                     && LegacyGate(c, r.s.(out := r.s.out.(lastPkt := now)), key, burst, now).pass;
      if stopped then
        r'.sh == r.sh && r'.s.hist == r.s.hist && (burst != VOICE_TERM ==> Held(r'.s, key, now + c.BlockFor()))
      else Held(r'.s, key, until)
  {
    hide LegacyGate, LockGate, ReflectGate, IpscForward;
    var src, dst, k := Slice(data, 6, 9), Slice(data, 9, 12), IpscKeyOf(data);
    var s := r.s.(out := r.s.out.(lastPkt := now));
    LegacyGateFrame(c, s, k, burst, now);
    var a := LegacyGate(c, s, k, burst, now);
    LockGateFrame(c, a.s, FromIpsc, k, src, dst, burst == VOICE_TERM, now);
    if k == key {
      SameStreamStopped(c, a.s, FromIpsc, src, dst, burst == VOICE_TERM, now, key, until);
    } else {
      OtherStreamKeeps(c, a.s, FromIpsc, k, src, dst, burst == VOICE_TERM, now, key, until);
      var b := LockGate(c, a.s, FromIpsc, k, src, dst, burst == VOICE_TERM, now);
      ReflectGateFrame(c, b.s, k, burst, src, dst, now);
      IpscForwardFrame(c, ts, Res(Learn(r.sh, data), IpscGate(c, r.s, data, burst, now).s), data, burst, now, nonce);
    }
  }

  lemma HbpStep(c: Config, ts: Timeslot, r: Res, b: Burst, now: Time, seq0: nat, ts0: nat, key: StreamKey, until: Time)
    requires c.callLock && Held(r.s, key, until) && now < until && |b.payload| == 33
    ensures var r' := HbpVoice(c, ts, r, b, now, seq0, ts0);
      if key == HbpKey(b.stream) then
        r'.sh == r.sh && r'.s.hist == r.s.hist && (!IsTerm(b.flags) ==> Held(r'.s, key, now + c.BlockFor()))
      else Held(r'.s, key, until)
  {
    hide LockGate, HbpForward;
    var s := r.s.(inb := r.s.inb.(lastPkt := now));
    LockGateFrame(c, s, FromHbp, HbpKey(b.stream), b.src, b.dst, IsTerm(b.flags), now);
    if key == HbpKey(b.stream) {
      SameStreamStopped(c, s, FromHbp, b.src, b.dst, IsTerm(b.flags), now, key, until);
    } else {
      OtherStreamKeeps(c, s, FromHbp, HbpKey(b.stream), b.src, b.dst, IsTerm(b.flags), now, key, until);
      HbpForwardFrame(c, ts, r.(s := HbpGate(c, r.s, b, now).s), b, now, seq0, ts0);
    }
  }

  lemma SlotHolds(c: Config, ts: Timeslot, r: Res, e: Event, key: StreamKey, until: Time)
    requires c.callLock && Held(r.s, key, until) && e.now < until && !e.PeerLost?
    ensures var r' := SlotStep(c, ts, r, e);
      if Presents(c, ts, r.s, e, key) then
        r'.sh == r.sh && r'.s.hist == r.s.hist && (!EndsStream(e) ==> Held(r'.s, key, e.now + c.BlockFor()))
      else Held(r'.s, key, until)
  {
    hide HbpVoice, IpscVoice, LegacyGate, Drain;
    match e
    case IpscPacket(ts', data, burst, up, now, nonce) =>
      if IpscHeard(e, ts) {
        IpscStep(c, ts, r, data, burst, now, nonce, key, until);
      }
    case HbpPacket(dmrd, up, now, seq0, ts0) =>
      if HbpHeard(e, ts) {
        HbpStep(c, ts, r, ParseDmrd(dmrd), now, seq0, ts0, key, until);
      }
    case DrainFires(_, now, later) => DrainFrame(c, r.s, now, later);
    case _ =>
  }

  /** Neither slot but ts sees a packet presented on ts. */
  lemma StepHolds(c: Config, ts: Timeslot, st: State, e: Event, key: StreamKey, until: Time)
    requires c.callLock && Held(st.At(ts), key, until) && e.now < until && !e.PeerLost?
    ensures var st' := Step(c, st, e);
      if Presents(c, ts, st.At(ts), e, key) then
        Dropped(c, ts, st, e) && (!EndsStream(e) ==> Held(st'.At(ts), key, e.now + c.BlockFor()))
      else Held(st'.At(ts), key, until)
  {
    hide HbpVoice, IpscVoice, LegacyGate, Drain, Held;
    SlotHolds(c, ts, Res(if ts.TS1? then st.sh else SlotStep(c, TS1, Res(st.sh, st.one), e).sh, st.At(ts)), e, key,
      until);
  }

  /** Nothing is sent, generated or learned because of the event. */
  predicate Dropped(c: Config, ts: Timeslot, st: State, e: Event) {
    Step(c, st, e).sh == st.sh && Step(c, st, e).At(ts).hist == st.At(ts).hist
  }

  /** Times do not go back along the events. */
  predicate Rising(evs: seq<Event>) {
    forall i, j :: 0 <= i < j < |evs| ==> evs[i].now <= evs[j].now
  }

  /**
   Up to its next terminator the stream never pauses until the deadline, which each of its
   packets moves on; IPSC is not lost.
   */
  ghost predicate Unbroken(c: Config, st: State, evs: seq<Event>, ts: Timeslot, key: StreamKey, deadline: Time)
    decreases |evs|
  {
    evs == [] || (
      var e, rest := evs[0], evs[1..];
      if Presents(c, ts, st.At(ts), e, key) then
        e.now < deadline && (EndsStream(e) || Unbroken(c, Step(c, st, e), rest, ts, key, e.now + c.BlockFor()))
      else !e.PeerLost? && Unbroken(c, Step(c, st, e), rest, ts, key, deadline))
  }

  /** Every packet of the stream up to and including its next terminator is dropped. */
  ghost predicate AllDropped(c: Config, st: State, evs: seq<Event>, ts: Timeslot, key: StreamKey)
    decreases |evs|
  {
    evs == [] || (
      var e, rest := evs[0], evs[1..];
      if Presents(c, ts, st.At(ts), e, key) then
        Dropped(c, ts, st, e) && (EndsStream(e) || AllDropped(c, Step(c, st, e), rest, ts, key))
      else AllDropped(c, Step(c, st, e), rest, ts, key))
  }

  /** Past the deadline an unbroken stream brings no more packets. */
  lemma {:induction false} NothingLate(c: Config, st: State, evs: seq<Event>, ts: Timeslot, key: StreamKey,
                                       deadline: Time)
    requires Unbroken(c, st, evs, ts, key, deadline)
    requires forall i :: 0 <= i < |evs| ==> deadline <= evs[i].now
    ensures AllDropped(c, st, evs, ts, key)
    decreases |evs|
  {
    hide Step;
    if evs != [] {
      NothingLate(c, Step(c, st, evs[0]), evs[1..], ts, key, deadline);
    }
  }

  /** Main result: a remembered stream that does not pause is dropped to its end. */
  lemma {:induction false} RejectedToTheEnd(c: Config, st: State, evs: seq<Event>, ts: Timeslot, key: StreamKey,
                                            deadline: Time)
    requires c.callLock && Rising(evs) && Held(st.At(ts), key, deadline)
    requires Unbroken(c, st, evs, ts, key, deadline)
    ensures AllDropped(c, st, evs, ts, key)
    decreases |evs|
  {
    hide Step, Held;
    if evs != [] {
      var e, rest := evs[0], evs[1..];
      if deadline <= e.now {
        NothingLate(c, st, evs, ts, key, deadline);
      } else {
        StepHoldsUnlessLost(c, ts, st, e, key, deadline);
        if Presents(c, ts, st.At(ts), e, key) {
          if !EndsStream(e) {
            RejectedToTheEnd(c, Step(c, st, e), rest, ts, key, e.now + c.BlockFor());
          }
        } else {
          RejectedToTheEnd(c, Step(c, st, e), rest, ts, key, deadline);
        }
      }
    }
  }

  lemma StepHoldsUnlessLost(c: Config, ts: Timeslot, st: State, e: Event, key: StreamKey, until: Time)
    requires c.callLock && Held(st.At(ts), key, until) && e.now < until
    requires !e.PeerLost? || Presents(c, ts, st.At(ts), e, key)
    ensures var st' := Step(c, st, e);
      if Presents(c, ts, st.At(ts), e, key) then
        Dropped(c, ts, st, e) && (!EndsStream(e) ==> Held(st'.At(ts), key, e.now + c.BlockFor()))
      else Held(st'.At(ts), key, until)
  {
    hide Step, Held, LegacyGate;
    StepHolds(c, ts, st, e, key, until);
  }

  /** How a stream comes to be remembered: an opposite-direction packet meets an active owner. */
  lemma RejectionRemembers(c: Config, s: Slot, dir: Direction, key: StreamKey, src: Bytes, dst: Bytes, isEnd: bool,
                           now: Time)
    requires !LockGate(c, s, dir, key, src, dst, isEnd, now).pass && key != NoKey
    requires !Remembers(Prune(s.lock, now), key)
    ensures Held(LockGate(c, s, dir, key, src, dst, isEnd, now).s, key, now + c.BlockFor())
    ensures s.lock.owner.Some? && s.lock.owner != Some(dir) && LockActive(s, now)
    ensures c.lockSameTgOnly ==> s.lock.tg == Some(dst)
  {
  }

  /** The event brings a packet of this stream before the slot's lock, and the lock rejects it. */
  predicate Rejects(c: Config, ts: Timeslot, s: Slot, e: Event, key: StreamKey) {
    && Presents(c, ts, s, e, key)
    && match e
       case IpscPacket(_, data, burst, _, now, _) =>
         var a := LegacyGate(c, s.(out := s.out.(lastPkt := now)), key, burst, now);
         !LockGate(c, a.s, FromIpsc, key, Slice(data, 6, 9), Slice(data, 9, 12), burst == VOICE_TERM, now).pass
       case HbpPacket(dmrd, _, now, _, _) =>
         var b := ParseDmrd(dmrd);
         !LockGate(c, s.(inb := s.inb.(lastPkt := now)), FromHbp, key, b.src, b.dst, IsTerm(b.flags), now).pass
       case _ => false
  }

  lemma LockRejectionHolds(c: Config, s: Slot, dir: Direction, key: StreamKey, src: Bytes, dst: Bytes, isEnd: bool,
                           now: Time)
    requires !LockGate(c, s, dir, key, src, dst, isEnd, now).pass && key != NoKey && !isEnd
    ensures Held(LockGate(c, s, dir, key, src, dst, isEnd, now).s, key, now + c.BlockFor())
    ensures c.callLock
  {
  }

  lemma RejectionHolds(c: Config, ts: Timeslot, st: State, e: Event, key: StreamKey)
    requires Rejects(c, ts, st.At(ts), e, key) && !EndsStream(e)
    ensures Dropped(c, ts, st, e) && Held(Step(c, st, e).At(ts), key, e.now + c.BlockFor()) && c.callLock
  {
    hide LockGate, LegacyGate, ReflectGate, HbpForward, IpscForward, Held;
    var s := st.At(ts);
    match e
    case IpscPacket(_, data, burst, _, now, _) =>
      var a := LegacyGate(c, s.(out := s.out.(lastPkt := now)), key, burst, now);
      var src, dst := Slice(data, 6, 9), Slice(data, 9, 12);
      LegacyGateFrame(c, s.(out := s.out.(lastPkt := now)), key, burst, now);
      LockGateFrame(c, a.s, FromIpsc, key, src, dst, burst == VOICE_TERM, now);
      LockRejectionHolds(c, a.s, FromIpsc, key, src, dst, burst == VOICE_TERM, now);
    case HbpPacket(dmrd, _, now, _, _) =>
      var b := ParseDmrd(dmrd);
      LockGateFrame(c, s.(inb := s.inb.(lastPkt := now)), FromHbp, key, b.src, b.dst, IsTerm(b.flags), now);
      LockRejectionHolds(c, s.(inb := s.inb.(lastPkt := now)), FromHbp, key, b.src, b.dst, IsTerm(b.flags), now);
  }

  /**
   Main result: once the lock rejects a packet of a stream, that packet and every later one is
   dropped, up to and including the stream's next terminator, as long as the stream does not pause.
   */
  lemma RejectedFromThenOn(c: Config, st: State, e: Event, rest: seq<Event>, ts: Timeslot, key: StreamKey)
    requires Rejects(c, ts, st.At(ts), e, key) && !EndsStream(e) && Rising(rest)
    requires Unbroken(c, Step(c, st, e), rest, ts, key, e.now + c.BlockFor())
    ensures AllDropped(c, st, [e] + rest, ts, key)
  {
    hide Step, Rejects, Presents, Unbroken;
    RejectionPresents(c, ts, st, e, key);
    RejectionHolds(c, ts, st, e, key);
    RejectedToTheEnd(c, Step(c, st, e), rest, ts, key, e.now + c.BlockFor());
    assert ([e] + rest)[0] == e && ([e] + rest)[1..] == rest;
  }

  lemma RejectionPresents(c: Config, ts: Timeslot, st: State, e: Event, key: StreamKey)
    requires Rejects(c, ts, st.At(ts), e, key)
    ensures Presents(c, ts, st.At(ts), e, key)
  {
  }
}
