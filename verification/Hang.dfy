/**
 The hang time keeps the slot: from the end of a call that owned the lock, the other direction is
 rejected for as long as the configuration says, whatever else happens meanwhile.
 */
module Hang {
  import opened Prelude
  import opened Wire
  import opened AmbeCodec
  import opened Packets
  import opened CallModel
  import opened Frames
  import opened Runs

  /** The configured hang time, in microseconds. */
  function HangTime(c: Config): Time {
    if c.lockHangMs > 0 then c.lockHangMs * 1000 else 0
  }

  function Opposite(dir: Direction): Direction {
    if dir == FromIpsc then FromHbp else FromIpsc
  }

  /** The direction's call is open, or its packets are still queued. */
  predicate Engaged(s: Slot, dir: Direction) {
    if dir == FromIpsc then s.out.stream.Some? else s.inb.lc.Some? || s.pacer.queue != []
  }

  /** The lock is held for this direction and talkgroup until the given time at least. */
  predicate Holds(s: Slot, dir: Direction, tg: Option<Bytes>, limit: Time) {
    s.lock.owner == Some(dir) && s.lock.tg == tg && s.lock.until >= limit
  }

  /** An active owner stays as it is when a packet meets the lock. */
  lemma ActiveStays(c: Config, s: Slot, dir: Direction, key: StreamKey, src: Bytes, dst: Bytes, isEnd: bool, now: Time)
    requires s.lock.owner.Some? && LockActive(s, now)
    ensures var l := LockGate(c, s, dir, key, src, dst, isEnd, now).s.lock;
      l.owner == s.lock.owner && l.tg == s.lock.tg && l.until == s.lock.until
  {
  }

  lemma ReleaseIs(c: Config, s: Slot, dir: Direction, now: Time)
    ensures var s' := ReleaseLock(c, s, dir, now);
      s' == if c.callLock && s.lock.owner == Some(dir) then s.(lock := s.lock.(until := now + HangTime(c))) else s
  {
  }

  // ------------------------------------------------------------------
  // The end of a call
  // ------------------------------------------------------------------

  lemma LegacyStartsHang(c: Config, s: Slot, key: StreamKey, burst: byte, now: Time)
    requires c.callLock && s.lock.owner == Some(FromIpsc) && s.out.stream.Some?
    ensures var g := LegacyGate(c, s, key, burst, now);
      && g.s.lock.owner == s.lock.owner && g.s.lock.tg == s.lock.tg
      && (g.s.out.stream.Some? || g.s.lock.until == now + HangTime(c))
  {
  }

  lemma IpscEnds(c: Config, ts: Timeslot, r: Res, e: Event)
    requires c.callLock && IpscHeard(e, ts) && r.s.lock.owner == Some(FromIpsc) && r.s.out.stream.Some?
    ensures var s' := SlotStep(c, ts, r, e).s;
      s'.out.stream.None? ==> Holds(s', FromIpsc, r.s.lock.tg, e.now + HangTime(c))
  {
    hide LegacyGate, LockGate, ReflectGate, SendDmrd, HeadPayload, TermPayload, Assemble, EmbedField;
    var data, burst, now := e.data, e.burst, e.now;
    var src, dst, key := Slice(data, 6, 9), Slice(data, 9, 12), IpscKeyOf(data);
    var s := r.s.(out := r.s.out.(lastPkt := now));
    LegacyStartsHang(c, s, key, burst, now);
    LegacyGateFrame(c, s, key, burst, now);
    var a := LegacyGate(c, s, key, burst, now);
    if a.pass {
      LegacyActive(c, a.s, now);
      ActiveStays(c, a.s, FromIpsc, key, src, dst, burst == VOICE_TERM, now);
      LockGateFrame(c, a.s, FromIpsc, key, src, dst, burst == VOICE_TERM, now);
      var b := LockGate(c, a.s, FromIpsc, key, src, dst, burst == VOICE_TERM, now);
      ReflectGateFrame(c, b.s, key, burst, src, dst, now);
      var g := IpscGate(c, r.s, data, burst, now);
      if g.pass {
        ForwardEnds(c, ts, Res(Learn(r.sh, data), g.s), e);
      }
    }
  }

  lemma LegacyActive(c: Config, s: Slot, now: Time)
    requires s.lock.owner == Some(FromIpsc) && (s.out.stream.Some? || s.lock.until == now + HangTime(c))
    ensures LockActive(s, now)
  {
  }

  lemma ForwardEnds(c: Config, ts: Timeslot, r: Res, e: Event)
    requires c.callLock && e.IpscPacket? && r.s.lock.owner == Some(FromIpsc)
    ensures var s' := IpscForward(c, ts, r, e.data, e.burst, e.now, e.nonce).s;
      && s'.lock.owner == r.s.lock.owner && s'.lock.tg == r.s.lock.tg
      && (s'.lock.until == r.s.lock.until || s'.lock.until == e.now + HangTime(c))
      && (r.s.out.stream.Some? && s'.out.stream.None? ==> s'.lock.until == e.now + HangTime(c))
      && (r.s.out.stream.None? && s'.out.stream.None? ==> s'.lock.until == r.s.lock.until)
  {
    hide HeadPayload, TermPayload, EmbedField;
  }

  lemma HbpEnds(c: Config, ts: Timeslot, r: Res, e: Event)
    requires c.callLock && HbpHeard(e, ts) && r.s.lock.owner == Some(FromHbp) && Engaged(r.s, FromHbp)
    ensures var s' := SlotStep(c, ts, r, e).s;
      !Engaged(s', FromHbp) ==> Holds(s', FromHbp, r.s.lock.tg, e.now + HangTime(c))
  {
    hide LockGate, HbpForward, Engaged;
    var b := ParseDmrd(e.dmrd);
    var s := r.s.(inb := r.s.inb.(lastPkt := e.now));
    EngagedIsActive(s, r.s, e.now);
    ActiveStays(c, s, FromHbp, HbpKey(b.stream), b.src, b.dst, IsTerm(b.flags), e.now);
    LockGateFrame(c, s, FromHbp, HbpKey(b.stream), b.src, b.dst, IsTerm(b.flags), e.now);
    var g := HbpGate(c, r.s, b, e.now);
    if g.pass {
      HbpForwardEnds(c, ts, r.(s := g.s), b, e.now, e.seq0, e.ts0);
      HbpForwardFrame(c, ts, r.(s := g.s), b, e.now, e.seq0, e.ts0);
    }
    EngagedAlike(r.s, g.s);
  }

  lemma EngagedIsActive(s: Slot, r: Slot, now: Time)
    requires s.lock == r.lock && s.inb == r.inb.(lastPkt := s.inb.lastPkt) && s.pacer == r.pacer
    requires r.lock.owner == Some(FromHbp) && Engaged(r, FromHbp)
    ensures LockActive(s, now)
  {
  }

  lemma EngagedAlike(s: Slot, g: Slot)
    ensures s.inb.lc == g.inb.lc && s.pacer == g.pacer ==> Engaged(s, FromHbp) == Engaged(g, FromHbp)
  {
  }

  lemma HbpForwardEnds(c: Config, ts: Timeslot, r: Res, b: Burst, now: Time, seq0: nat, ts0: nat)
    requires c.callLock && r.s.lock.owner == Some(FromHbp) && |b.payload| == 33
    ensures var s' := HbpForward(c, ts, r, b, now, seq0, ts0).s;
      if IsTerm(b.flags) && !IsHead(b.flags) then s'.lock.until == now + HangTime(c)
      else !Engaged(s', FromHbp) ==> !Engaged(r.s, FromHbp)
  {
    hide Emit, EmitStart, Extract, VoiceGvPayload, LcGvPayload, DecodeLc;
    var i := r.s.inb;
    if IsHead(b.flags) {
      var s := if i.hbpStream.Some? && i.lc.Some? && i.started then ResetInbound(r.s) else r.s;
      var q := OpenInbound(c, ts, r.(s := s), DecodeLc(c.dmr, b.payload), b, now, seq0, ts0);
      EmitStartFrame(c, ts, q.sh, q.s, b.src, b.dst, now);
    } else if IsTerm(b.flags) {
      EmitFrame(c, r.sh, r.s, b.src, b.dst, CallInfo(ts, true), PT_TERM,
                LcGvPayload(c.dmr, VOICE_TERM, OrElse(i.lc, c.dmr.lcOpt + b.dst + b.src)), now);
    } else {
      var q := HbpLateEntry(c, ts, r, b, now, seq0, ts0);
      var s := EmitStart(c, ts, q.sh, q.s, b.src, b.dst, now);
      EmitStartFrame(c, ts, q.sh, q.s, b.src, b.dst, now);
      EmitFrame(c, q.sh, s, b.src, b.dst, CallInfo(ts, false), PT_VOICE,
                VoiceGvPayload(c.dmr, ts, s.inb, b, Extract(c.dmr, b.payload)), now);
    }
  }

  lemma TickEnds(c: Config, ts: Timeslot, r: Res, now: Time, dir: Direction)
    requires c.callLock && r.s.lock.owner == Some(dir) && Engaged(r.s, dir)
    ensures var s' := SlotStep(c, ts, r, Watchdog(now)).s;
      !Engaged(s', dir) ==> Holds(s', dir, r.s.lock.tg, now + HangTime(c))
  {
  }

  lemma DrainEnds(c: Config, ts: Timeslot, r: Res, e: Event)
    requires c.callLock && e.DrainFires? && r.s.lock.owner == Some(FromHbp) && Engaged(r.s, FromHbp)
    ensures var s' := SlotStep(c, ts, r, e).s;
      !Engaged(s', FromHbp) ==> Holds(s', FromHbp, r.s.lock.tg, e.later + HangTime(c))
  {
    hide SlotBusy, RememberSent;
  }

  /** Whatever ends the owner's call, but the loss of a side, starts the hang time. */
  lemma EndStartsHang(c: Config, ts: Timeslot, r: Res, e: Event, dir: Direction)
    requires c.callLock && !e.PeerLost? && !e.HbpLost? && r.s.lock.owner == Some(dir) && Engaged(r.s, dir)
    ensures var s' := SlotStep(c, ts, r, e).s;
      !Engaged(s', dir) ==> Holds(s', dir, r.s.lock.tg, e.Ends() + HangTime(c))
  {
    hide IpscVoice, HbpVoice, Drain, Holds, CheckTimeouts;
    match e
    case IpscPacket(_, data, burst, up, now, nonce) =>
      if IpscHeard(e, ts) {
        if dir == FromIpsc {
          IpscEnds(c, ts, r, e);
        } else {
          IpscKeepsInbound(c, ts, r, e);
        }
      }
    case HbpPacket(dmrd, _, _, _, _) =>
      if HbpHeard(e, ts) {
        if dir == FromHbp {
          HbpEnds(c, ts, r, e);
        } else {
          HbpKeepsOutbound(c, ts, r, e);
        }
      }
    case DrainFires(_, now, later) =>
      DrainFrame(c, r.s, now, later);
      if dir == FromHbp {
        DrainEnds(c, ts, r, e);
      }
    case Watchdog(now) => TickEnds(c, ts, r, now, dir);
  }

  lemma IpscKeepsInbound(c: Config, ts: Timeslot, r: Res, e: Event)
    requires IpscHeard(e, ts)
    ensures Engaged(SlotStep(c, ts, r, e).s, FromHbp) == Engaged(r.s, FromHbp)
  {
    hide IpscGate, IpscForward;
    IpscGateFrame(c, r.s, e.data, e.burst, e.now);
    IpscForwardFrame(c, ts, Res(Learn(r.sh, e.data), IpscGate(c, r.s, e.data, e.burst, e.now).s), e.data, e.burst,
      e.now, e.nonce);
  }

  lemma HbpKeepsOutbound(c: Config, ts: Timeslot, r: Res, e: Event)
    requires HbpHeard(e, ts)
    ensures Engaged(SlotStep(c, ts, r, e).s, FromIpsc) == Engaged(r.s, FromIpsc)
  {
    hide HbpGate, HbpForward;
    var b := ParseDmrd(e.dmrd);
    HbpGateFrame(c, r.s, b, e.now);
    HbpForwardFrame(c, ts, r.(s := HbpGate(c, r.s, b, e.now).s), b, e.now, e.seq0, e.ts0);
  }

  // ------------------------------------------------------------------
  // Through the hang time
  // ------------------------------------------------------------------

  lemma IpscHolds(c: Config, ts: Timeslot, r: Res, e: Event, dir: Direction, tg: Option<Bytes>, limit: Time)
    requires c.callLock && IpscHeard(e, ts) && Holds(r.s, dir, tg, limit) && e.now <= limit <= e.now + HangTime(c)
    ensures Holds(SlotStep(c, ts, r, e).s, dir, tg, limit)
  {
    hide LegacyGate, LockGate, ReflectGate, IpscForward;
    var data, burst, now := e.data, e.burst, e.now;
    var src, dst, key := Slice(data, 6, 9), Slice(data, 9, 12), IpscKeyOf(data);
    var s := r.s.(out := r.s.out.(lastPkt := now));
    LegacyGateFrame(c, s, key, burst, now);
    HangIs(c);
    var a := LegacyGate(c, s, key, burst, now);
    UntilIsActive(a.s, now);
    ActiveStays(c, a.s, FromIpsc, key, src, dst, burst == VOICE_TERM, now);
    var b := LockGate(c, a.s, FromIpsc, key, src, dst, burst == VOICE_TERM, now);
    ReflectGateFrame(c, b.s, key, burst, src, dst, now);
    IpscForwardFrame(c, ts, Res(Learn(r.sh, data), IpscGate(c, r.s, data, burst, now).s), data, burst, now, e.nonce);
  }

  lemma HangIs(c: Config)
    ensures c.Hang() == HangTime(c)
  {
  }

  lemma UntilIsActive(s: Slot, now: Time)
    requires s.lock.owner.Some? && now <= s.lock.until
    ensures LockActive(s, now)
  {
  }

  lemma HbpHolds(c: Config, ts: Timeslot, r: Res, e: Event, dir: Direction, tg: Option<Bytes>, limit: Time)
    requires c.callLock && HbpHeard(e, ts) && Holds(r.s, dir, tg, limit) && e.now <= limit <= e.now + HangTime(c)
    ensures Holds(SlotStep(c, ts, r, e).s, dir, tg, limit)
  {
    hide LockGate, HbpForward;
    var b := ParseDmrd(e.dmrd);
    var s := r.s.(inb := r.s.inb.(lastPkt := e.now));
    HangIs(c);
    UntilIsActive(s, e.now);
    ActiveStays(c, s, FromHbp, HbpKey(b.stream), b.src, b.dst, IsTerm(b.flags), e.now);
    HbpForwardFrame(c, ts, r.(s := HbpGate(c, r.s, b, e.now).s), b, e.now, e.seq0, e.ts0);
  }

  /** Up to its limit nothing but the loss of IPSC ends the hold. */
  lemma HoldStays(c: Config, ts: Timeslot, r: Res, e: Event, dir: Direction, tg: Option<Bytes>, limit: Time)
    requires c.callLock && Holds(r.s, dir, tg, limit) && e.now <= e.Ends() && e.now <= limit <= e.now + HangTime(c)
    requires !e.PeerLost?
    ensures Holds(SlotStep(c, ts, r, e).s, dir, tg, limit)
  {
    hide IpscVoice, HbpVoice, Drain;
    HangIs(c);
    match e
    case IpscPacket(_, _, _, _, _, _) =>
      if IpscHeard(e, ts) {
        IpscHolds(c, ts, r, e, dir, tg, limit);
      }
    case HbpPacket(_, _, _, _, _) =>
      if HbpHeard(e, ts) {
        HbpHolds(c, ts, r, e, dir, tg, limit);
      }
    case DrainFires(_, now, later) => DrainFrame(c, r.s, now, later);
    case _ =>
  }

  lemma HoldRejects(c: Config, s: Slot, dir: Direction, tg: Option<Bytes>, limit: Time, key: StreamKey, src: Bytes,
                    dst: Bytes, isEnd: bool, now: Time)
    requires c.callLock && Holds(s, dir, tg, limit) && now <= limit && (c.lockSameTgOnly ==> tg == Some(dst))
    ensures !LockGate(c, s, Opposite(dir), key, src, dst, isEnd, now).pass
  {
  }

  /** Event n ends the call that owns the slot's lock, by a packet, a tick or the drain that empties its queue. */
  ghost predicate EndsCall(c: Config, evs: seq<Event>, ts: Timeslot, dir: Direction, n: nat)
    requires n < |evs|
  {
    var s, s' := Run(c, evs[..n]).At(ts), Run(c, evs[..n + 1]).At(ts);
    && !evs[n].PeerLost? && !evs[n].HbpLost?
    && s.lock.owner == Some(dir) && Engaged(s, dir) && !Engaged(s', dir)
  }

  lemma {:induction false} LegalTimes(c: Config, evs: seq<Event>, n: nat, m: nat)
    requires Legal(c, evs) && n < m < |evs|
    ensures evs[n].now <= evs[n].Ends() <= evs[m].now <= evs[m].Ends()
  {
    hide Step;
    if m == |evs| - 1 {
      var pre := evs[..m];
      if n < m - 1 {
        LegalTimes(c, pre, n, m - 1);
      }
    } else {
      LegalTimes(c, evs[..|evs| - 1], n, m);
    }
  }

  /** The slot is held from the end of the call on. */
  lemma {:induction false} HeldSince(c: Config, evs: seq<Event>, ts: Timeslot, dir: Direction, n: nat, m: nat)
    requires c.callLock && Legal(c, evs) && n < m <= |evs| && EndsCall(c, evs, ts, dir, n)
    requires forall i :: n < i < m ==> !evs[i].PeerLost? && evs[i].now <= evs[n].Ends() + HangTime(c)
    ensures Holds(Run(c, evs[..m]).At(ts), dir, Run(c, evs[..n]).At(ts).lock.tg, evs[n].Ends() + HangTime(c))
  {
    hide Step, SlotStep, Holds, Engaged, Legal;
    var k := m - 1;
    assert evs[..m][..k] == evs[..k] && evs[..m][k] == evs[k];
    var st := Run(c, evs[..k]);
    StepSeen(c, ts, st, evs[k]);
    if k == n {
      EndStartsHang(c, ts, Seen(c, ts, st, evs[k]), evs[k], dir);
    } else {
      HeldSince(c, evs, ts, dir, n, k);
      LegalTimes(c, evs, n, k);
      HoldStays(c, ts, Seen(c, ts, st, evs[k]), evs[k], dir, Run(c, evs[..n]).At(ts).lock.tg,
        evs[n].Ends() + HangTime(c));
    }
  }

  /** The packet of event e is stopped at the slot's gates. */
  predicate Stopped(c: Config, s: Slot, e: Event, ts: Timeslot, dir: Direction)
    requires Heard(dir, e, ts)
  {
    if dir == FromIpsc then !IpscGate(c, s, e.data, e.burst, e.now).pass
      else !HbpGate(c, s, ParseDmrd(e.dmrd), e.now).pass
  }

  function GroupOf(e: Event, dir: Direction, ts: Timeslot): Bytes
    requires Heard(dir, e, ts)
  {
    if dir == FromIpsc then Slice(e.data, 9, 12) else ParseDmrd(e.dmrd).dst
  }

  lemma HeldStops(c: Config, s: Slot, e: Event, ts: Timeslot, dir: Direction, tg: Option<Bytes>, limit: Time)
    requires c.callLock && Heard(Opposite(dir), e, ts) && Holds(s, dir, tg, limit) && e.now <= limit
    requires limit <= e.now + HangTime(c)
    requires c.lockSameTgOnly ==> tg == Some(GroupOf(e, Opposite(dir), ts))
    ensures Stopped(c, s, e, ts, Opposite(dir))
  {
    hide LockGate, LegacyGate, ReflectGate;
    if dir == FromHbp {
      var data, burst, now := e.data, e.burst, e.now;
      var key := IpscKeyOf(data);
      LegacyGateFrame(c, s.(out := s.out.(lastPkt := now)), key, burst, now);
      var a := LegacyGate(c, s.(out := s.out.(lastPkt := now)), key, burst, now);
      HoldRejects(c, a.s, dir, tg, limit, key, Slice(data, 6, 9), Slice(data, 9, 12), burst == VOICE_TERM, now);
    } else {
      var b := ParseDmrd(e.dmrd);
      HoldRejects(c, s.(inb := s.inb.(lastPkt := e.now)), dir, tg, limit, HbpKey(b.stream), b.src, b.dst,
        IsTerm(b.flags), e.now);
    }
  }

  /**
   Main result: after the end of a call that owned the lock, every packet of the other direction
   is stopped until the hang time is over (if locking is per talkgroup, every one of the owner's
   talkgroup), amid any events but the loss of IPSC.
   */
  lemma HangKeepsTheSlot(c: Config, evs: seq<Event>, ts: Timeslot, dir: Direction, n: nat, m: nat)
    requires c.callLock && Legal(c, evs) && n < m < |evs| && EndsCall(c, evs, ts, dir, n)
    requires forall i :: n < i < m ==> !evs[i].PeerLost?
    requires Heard(Opposite(dir), evs[m], ts) && evs[m].now <= evs[n].Ends() + HangTime(c)
    requires c.lockSameTgOnly ==>
      Run(c, evs[..n]).At(ts).lock.tg == Some(GroupOf(evs[m], Opposite(dir), ts))
    ensures Stopped(c, Run(c, evs[..m]).At(ts), evs[m], ts, Opposite(dir))
  {
    hide Step, Run, Holds, Engaged, Stopped, Legal;
    forall i | n < i < m ensures evs[i].now <= evs[n].Ends() + HangTime(c) {
      LegalTimes(c, evs, i, m);
    }
    HeldSince(c, evs, ts, dir, n, m);
    LegalTimes(c, evs, n, m);
    HeldStops(c, Run(c, evs[..m]).At(ts), evs[m], ts, dir, Run(c, evs[..n]).At(ts).lock.tg,
      evs[n].Ends() + HangTime(c));
  }
}
