/**
 Direction exclusion: with the call lock covering the slot, an IPSC -> HBP call and
 HBP -> IPSC traffic never coexist on a timeslot; and exactly which settings promise it.
 */
module Exclusion {
  import opened Prelude
  import opened Wire
  import opened Packets
  import opened CallModel
  import opened Frames
  import opened CallShape
  import opened Runs

  /** The outbound call is open. */
  predicate OutLive(s: Slot) {
    s.out.stream.Some?
  }

  /** An inbound call is open or its packets are still queued. */
  predicate InLive(s: Slot) {
    s.inb.lc.Some? || s.pacer.queue != []
  }

  predicate Collides(s: Slot) {
    OutLive(s) && InLive(s)
  }

  /** Whoever is live owns the lock. */
  ghost predicate Owned(s: Slot) {
    && Shape(s)
    && (OutLive(s) ==> s.lock.owner == Some(FromIpsc))
    && (InLive(s) ==> s.lock.owner == Some(FromHbp))
  }

  // ------------------------------------------------------------------
  // Strays
  // ------------------------------------------------------------------

  /** The packet passes the lock without owning it. */
  predicate Strays(c: Config, s: Slot, dir: Direction, key: StreamKey, src: Bytes, dst: Bytes, isEnd: bool, now: Time) {
    var g := LockGate(c, s, dir, key, src, dst, isEnd, now);
    g.pass && g.s.lock.owner != Some(dir)
  }

  /** Only under per-talkgroup locking, against an active owner of the other direction and another group. */
  lemma StraysExactlyWhen(c: Config, s: Slot, dir: Direction, key: StreamKey, src: Bytes, dst: Bytes, isEnd: bool,
                          now: Time)
    requires c.callLock
    ensures Strays(c, s, dir, key, src, dst, isEnd, now)
       <==> && c.lockSameTgOnly && !Remembers(Prune(s.lock, now), key)
            && s.lock.owner.Some? && s.lock.owner != Some(dir) && LockActive(s, now) && s.lock.tg != Some(dst)
  {
  }

  /** The event is a packet that strays at the slot's lock. */
  predicate Stray(c: Config, ts: Timeslot, s: Slot, e: Event) {
    match e
    case IpscPacket(_, data, burst, _, now, _) =>
      && IpscHeard(e, ts)
      && var a := LegacyGate(c, s.(out := s.out.(lastPkt := now)), IpscKeyOf(data), burst, now);
         a.pass && Strays(c, a.s, FromIpsc, IpscKeyOf(data), Slice(data, 6, 9), Slice(data, 9, 12),
           burst == VOICE_TERM, now)
    case HbpPacket(dmrd, _, now, _, _) =>
      && HbpHeard(e, ts)
      && var b := ParseDmrd(dmrd);
         Strays(c, s.(inb := s.inb.(lastPkt := now)), FromHbp, HbpKey(b.stream), b.src, b.dst, IsTerm(b.flags), now)
    case _ => false
  }

  predicate NoStrays(c: Config, evs: seq<Event>, ts: Timeslot) {
    evs == []
    || (var pre := evs[..|evs| - 1]; NoStrays(c, pre, ts) && !Stray(c, ts, Run(c, pre).At(ts), evs[|evs| - 1]))
  }

  /** A packet that passes the lock, and is no stray, belongs to the owner's direction, and the other one is idle. */
  lemma LockGateHolds(c: Config, s: Slot, dir: Direction, key: StreamKey, src: Bytes, dst: Bytes, isEnd: bool,
                      now: Time)
    requires Owned(s) && c.callLock && !Strays(c, s, dir, key, src, dst, isEnd, now)
    ensures var r := LockGate(c, s, dir, key, src, dst, isEnd, now);
      && Owned(r.s)
      && (r.pass ==> r.s.lock.owner == Some(dir) && if dir == FromIpsc then !InLive(r.s) else !OutLive(r.s))
  {
  }

  lemma IpscVoiceHolds(c: Config, ts: Timeslot, r: Res, e: Event)
    requires Owned(r.s) && c.callLock && IpscHeard(e, ts) && !Stray(c, ts, r.s, e)
    ensures Owned(IpscVoice(c, ts, r, e.data, e.burst, e.now, e.nonce).s)
  {
    hide LegacyGate, LockGate, Strays, ReflectGate, IpscForward;
    var data, burst, now := e.data, e.burst, e.now;
    ShapeIpscVoice(c, ts, r, data, burst, now, e.nonce);
    var src, dst, key := Slice(data, 6, 9), Slice(data, 9, 12), IpscKeyOf(data);
    var s := r.s.(out := r.s.out.(lastPkt := now));
    LegacyGateFrame(c, s, key, burst, now);
    LegacyKeepsShape(c, s, key, burst, now);
    var a := LegacyGate(c, s, key, burst, now);
    if a.pass {
      LockGateHolds(c, a.s, FromIpsc, key, src, dst, burst == VOICE_TERM, now);
      var b := LockGate(c, a.s, FromIpsc, key, src, dst, burst == VOICE_TERM, now);
      ReflectGateFrame(c, b.s, key, burst, src, dst, now);
    }
    var s' := IpscGate(c, r.s, data, burst, now).s;
    IpscForwardFrame(c, ts, Res(Learn(r.sh, data), s'), data, burst, now, e.nonce);
  }

  lemma LegacyKeepsShape(c: Config, s: Slot, key: StreamKey, burst: byte, now: Time)
    requires Shape(s)
    ensures Shape(LegacyGate(c, s, key, burst, now).s)
  {
  }

  lemma HbpVoiceHolds(c: Config, ts: Timeslot, r: Res, e: Event)
    requires Owned(r.s) && c.callLock && HbpHeard(e, ts) && !Stray(c, ts, r.s, e)
    ensures Owned(HbpVoice(c, ts, r, ParseDmrd(e.dmrd), e.now, e.seq0, e.ts0).s)
  {
    hide LockGate, Strays, HbpForward;
    var b, now := ParseDmrd(e.dmrd), e.now;
    ShapeHbpVoice(c, ts, r, b, now, e.seq0, e.ts0);
    LockGateHolds(c, r.s.(inb := r.s.inb.(lastPkt := now)), FromHbp, HbpKey(b.stream), b.src, b.dst, IsTerm(b.flags),
      now);
    var s' := HbpGate(c, r.s, b, now).s;
    HbpForwardFrame(c, ts, r.(s := s'), b, now, e.seq0, e.ts0);
  }

  lemma StepHolds(c: Config, ts: Timeslot, r: Res, e: Event)
    requires c.callLock && Owned(r.s) && !Stray(c, ts, r.s, e)
    ensures Owned(SlotStep(c, ts, r, e).s)
  {
    hide HbpVoice, IpscVoice, Drain, Stray;
    ShapeStep(c, ts, r, e);
    match e
    case IpscPacket(_, _, _, _, _, _) =>
      if IpscHeard(e, ts) {
        IpscVoiceHolds(c, ts, r, e);
      }
    case HbpPacket(_, _, _, _, _) =>
      if HbpHeard(e, ts) {
        HbpVoiceHolds(c, ts, r, e);
      }
    case DrainFires(_, now, later) => DrainKeepsInbound(c, r.s, now, later);
    case _ =>
  }

  lemma DrainKeepsInbound(c: Config, s: Slot, now: Time, later: Time)
    ensures var s' := Drain(c, s, now, later);
      && s'.out == s.out && s'.inb == s.inb && s'.lock == s.lock.(until := s'.lock.until)
      && s'.pacer.queue == if s.pacer.queue == [] then [] else s.pacer.queue[1..]
  {
  }

  lemma {:induction false} OwnedAlways(c: Config, evs: seq<Event>, ts: Timeslot)
    requires c.callLock && NoStrays(c, evs, ts)
    ensures Owned(Run(c, evs).At(ts))
  {
    hide SlotStep, Stray;
    if evs != [] {
      var pre, e := evs[..|evs| - 1], evs[|evs| - 1];
      var st := Run(c, pre);
      OwnedAlways(c, pre, ts);
      StepHolds(c, ts, Res(if ts.TS1? then st.sh else SlotStep(c, TS1, Res(st.sh, st.one), e).sh, st.At(ts)), e);
    }
  }

  /** Main result: with the lock on, a slot no packet has strayed on never carries both directions. */
  lemma NoStrayNoCollision(c: Config, evs: seq<Event>, ts: Timeslot)
    requires c.callLock && NoStrays(c, evs, ts)
    ensures !Collides(Run(c, evs).At(ts))
  {
    OwnedAlways(c, evs, ts);
  }

  // ------------------------------------------------------------------
  // Where strays cannot be
  // ------------------------------------------------------------------

  /** The event is no packet of another talkgroup on this slot. */
  predicate OnGroup(ts: Timeslot, e: Event, g: Bytes) {
    match e
    case IpscPacket(ts', data, _, _, _, _) => ts' == ts ==> Slice(data, 9, 12) == g
    case HbpPacket(dmrd, _, _, _, _) => |dmrd| >= DMRD_LEN && SlotOf(dmrd[15]) == ts ==> dmrd[8..11] == g
    case _ => true
  }

  /** The run's lock covers every packet of the slot: it ignores talkgroups, or there is only one. */
  predicate Covered(c: Config, evs: seq<Event>, ts: Timeslot, g: Bytes) {
    c.callLock && (c.lockSameTgOnly ==> forall e <- evs :: OnGroup(ts, e, g))
  }

  /** Under per-talkgroup locking the owner's group is g. */
  predicate OwnerOnGroup(c: Config, s: Slot, g: Bytes) {
    c.lockSameTgOnly && s.lock.owner.Some? ==> s.lock.tg == Some(g)
  }

  lemma LockGateOnGroup(c: Config, s: Slot, dir: Direction, key: StreamKey, src: Bytes, dst: Bytes, isEnd: bool,
                        now: Time, g: Bytes)
    requires c.callLock && OwnerOnGroup(c, s, g) && (c.lockSameTgOnly ==> dst == g)
    ensures !Strays(c, s, dir, key, src, dst, isEnd, now)
    ensures OwnerOnGroup(c, LockGate(c, s, dir, key, src, dst, isEnd, now).s, g)
  {
  }

  lemma StepOnGroup(c: Config, ts: Timeslot, r: Res, e: Event, g: Bytes)
    requires c.callLock && OwnerOnGroup(c, r.s, g) && (c.lockSameTgOnly ==> OnGroup(ts, e, g))
    ensures !Stray(c, ts, r.s, e) && OwnerOnGroup(c, SlotStep(c, ts, r, e).s, g)
  {
    hide HbpForward, IpscForward, LegacyGate, LockGate, Strays, ReflectGate, Drain;
    match e
    case IpscPacket(_, data, burst, _, now, nonce) =>
      var src, dst, key := Slice(data, 6, 9), Slice(data, 9, 12), IpscKeyOf(data);
      var s := r.s.(out := r.s.out.(lastPkt := now));
      LegacyGateFrame(c, s, key, burst, now);
      if IpscHeard(e, ts) {
        var a := LegacyGate(c, s, key, burst, now);
        LockGateOnGroup(c, a.s, FromIpsc, key, src, dst, burst == VOICE_TERM, now, g);
        var b := LockGate(c, a.s, FromIpsc, key, src, dst, burst == VOICE_TERM, now);
        ReflectGateFrame(c, b.s, key, burst, src, dst, now);
        IpscForwardFrame(c, ts, Res(Learn(r.sh, data), IpscGate(c, r.s, data, burst, now).s), data, burst, now, nonce);
      }
    case HbpPacket(dmrd, _, now, seq0, ts0) =>
      if HbpHeard(e, ts) {
        var b := ParseDmrd(dmrd);
        LockGateOnGroup(c, r.s.(inb := r.s.inb.(lastPkt := now)), FromHbp, HbpKey(b.stream), b.src, b.dst,
                        IsTerm(b.flags), now, g);
        HbpForwardFrame(c, ts, r.(s := HbpGate(c, r.s, b, now).s), b, now, seq0, ts0);
      }
    case DrainFires(_, now, later) => DrainFrame(c, r.s, now, later);
    case _ =>
  }

  lemma {:induction false} CoveredHasNoStrays(c: Config, evs: seq<Event>, ts: Timeslot, g: Bytes)
    requires Covered(c, evs, ts, g)
    ensures NoStrays(c, evs, ts) && OwnerOnGroup(c, Run(c, evs).At(ts), g)
  {
    hide SlotStep, Stray;
    if evs != [] {
      var pre, e := evs[..|evs| - 1], evs[|evs| - 1];
      var st := Run(c, pre);
      CoveredHasNoStrays(c, pre, ts, g);
      StepOnGroup(c, ts, Res(if ts.TS1? then st.sh else SlotStep(c, TS1, Res(st.sh, st.one), e).sh, st.At(ts)), e, g);
    }
  }

  /** Main result: on every run the lock covers, the two directions never coexist on the slot. */
  lemma NeverBothWays(c: Config, evs: seq<Event>, ts: Timeslot, g: Bytes)
    requires Covered(c, evs, ts, g)
    ensures !Collides(Run(c, evs).At(ts))
  {
    CoveredHasNoStrays(c, evs, ts, g);
    NoStrayNoCollision(c, evs, ts);
  }

  // ------------------------------------------------------------------
  // Without cover the promise fails
  // ------------------------------------------------------------------

  /** Both directions are live, and their calls are on the same talkgroup. */
  ghost predicate SameGroupCollides(c: Config, s: Slot) {
    && Collides(s) && s.inb.dst.Some?
    && exists src: Bytes :: s.out.lc == Some(c.dmr.lcOpt + s.inb.dst.value + src)
  }

  /** An HBP header on TS1. */
  function HbpHeadEvent(dst: Bytes, stream: Bytes, now: Time): Event {
    HbpPacket(Dmrd(0, [0, 0, 1], dst, [0, 0, 0, 1], HeadFlags(TS1), stream, seq(33, _ => 0)).Bytes(), true, now, 0, 0)
  }

  /** A voice header on TS1 for talkgroup 2. */
  function IpscHeadData(): Bytes {
    [GROUP_VOICE, 0, 0, 0, 1, 7, 0, 0, 2, 0, 0, 2] + seq(18, _ => 0) + [VOICE_HEAD] + seq(23, _ => 0)
  }

  /** A call on talkgroup 1 comes in from HBP, one on talkgroup 2 from IPSC, and one on talkgroup 2 from HBP. */
  function Crossing(): seq<Event> {
    [HbpHeadEvent([0, 0, 1], [1, 1, 1, 1], 1),
     IpscPacket(TS1, IpscHeadData(), VOICE_HEAD, true, 2, [9, 9, 9, 9]),
     HbpHeadEvent([0, 0, 2], [2, 2, 2, 2], 3)]
  }

  lemma HbpHeadParses(dst: Bytes, stream: Bytes, now: Time)
    requires |dst| == 3 && |stream| == 4
    ensures var e := HbpHeadEvent(dst, stream, now);
      && |e.dmrd| == DMRD_LEN && SlotOf(e.dmrd[15]) == TS1 && IsHead(e.dmrd[15]) && !IsTerm(e.dmrd[15])
      && ParseDmrd(e.dmrd) == Burst([0, 0, 1], dst, HeadFlags(TS1), stream, seq(33, _ => 0))
  {
    DmrdRoundTrip(Dmrd(0, [0, 0, 1], dst, [0, 0, 0, 1], HeadFlags(TS1), stream, seq(33, _ => 0)));
    FlagsReadBack(TS1, 0);
  }

  /** The slot after the first event. */
  ghost predicate FirstOpen(c: Config, s: Slot) {
    && s.inb.lc.Some? && s.inb.hbpStream == Some([1, 1, 1, 1]) && s.inb.dst == Some([0, 0, 1])
    && s.out.stream.None? && s.out.ipscByte.None? && s.reflect.ignored == map[]
    && s.lock == (if c.callLock then Lock(Some(FromHbp), Some([0, 0, 1]), Some([0, 0, 1]), 0, map[], map[])
      else IDLE_LOCK)
    && (forall e <- s.reflect.recent :: e.dst == [0, 0, 1])
  }

  /** The slot after the second. */
  ghost predicate BothOpen(c: Config, s: Slot) {
    && s.inb.lc.Some? && s.inb.hbpStream == Some([1, 1, 1, 1]) && s.inb.dst == Some([0, 0, 1])
    && s.out.stream.Some? && s.out.lc == Some(c.dmr.lcOpt + [0, 0, 2] + [0, 0, 2])
    && s.lock.blockedHbp == map[] && (c.callLock ==> s.lock.owner == Some(FromHbp))
  }

  lemma FirstCallOpens(c: Config, r: Res)
    requires r.s == IDLE_SLOT
    ensures FirstOpen(c, SlotStep(c, TS1, r, Crossing()[0]).s)
  {
    hide EmitHeads, DecodeLc;
    HbpHeadParses([0, 0, 1], [1, 1, 1, 1], 1);
    var b := ParseDmrd(Crossing()[0].dmrd);
    var g := HbpGate(c, IDLE_SLOT, b, 1);
    assert g.pass;
    var r := OpenInbound(c, TS1, Res(r.sh, g.s), DecodeLc(c.dmr, b.payload), b, 1, 0, 0);
    EmitHeadsFrame(c, TS1, r.sh, r.s, OrElse(r.s.inb.lc, c.dmr.lcOpt + b.dst + b.src), b.src, b.dst, c.Heads(), 1);
    HeadsRecall(c, TS1, r.sh, r.s, OrElse(r.s.inb.lc, c.dmr.lcOpt + b.dst + b.src), b.src, b.dst, c.Heads(), 1);
  }

  lemma LiveKeepsGroup(q: seq<Recent>, now: Time, dst: Bytes)
    requires forall e <- q :: e.dst == dst
    ensures forall e <- LiveRecent(q, now) :: e.dst == dst
  {
  }

  lemma RenewKeepsGroup(q: seq<Recent>, src: Bytes, dst: Bytes, expires: Time)
    requires forall e <- q :: e.dst == dst
    ensures forall e <- Renew(q, src, dst, expires) :: e.dst == dst
  {
  }

  /** Sending headers of one group recalls no other group. */
  lemma {:induction false} HeadsRecall(c: Config, ts: Timeslot, sh: Shared, s: Slot, lc: Bytes, src: Bytes, dst: Bytes,
                                       n: nat, now: Time)
    requires forall e <- s.reflect.recent :: e.dst == dst
    ensures var s' := EmitHeads(c, ts, sh, s, lc, src, dst, n, now);
      (forall e <- s'.reflect.recent :: e.dst == dst) && s'.reflect.ignored == s.reflect.ignored
  {
    hide LcGvPayload;
    if n > 0 {
      HeadsRecall(c, ts, sh, s, lc, src, dst, n - 1, now);
      var q := EmitHeads(c, ts, sh, s, lc, src, dst, n - 1, now).reflect.recent;
      LiveKeepsGroup(q, now, dst);
      RenewKeepsGroup(LiveRecent(q, now), src, dst, now + c.reflectWindow * SECOND);
    }
  }

  lemma SecondCallOpens(c: Config, r: Res)
    requires !(c.callLock && !c.lockSameTgOnly) && FirstOpen(c, r.s)
    ensures BothOpen(c, SlotStep(c, TS1, r, Crossing()[1]).s)
  {
    hide HeadPayload, IpscGate;
    SecondCallPasses(c, r.s);
    IpscGateFrame(c, r.s, IpscHeadData(), VOICE_HEAD, 2);
    assert Slice(IpscHeadData(), 6, 9) == [0, 0, 2] && Slice(IpscHeadData(), 9, 12) == [0, 0, 2];
  }

  lemma SecondCallPasses(c: Config, s: Slot)
    requires !(c.callLock && !c.lockSameTgOnly) && FirstOpen(c, s)
    ensures var g := IpscGate(c, s, IpscHeadData(), VOICE_HEAD, 2);
      && g.pass && g.s.lock.blockedHbp == map[] && (c.callLock ==> g.s.lock.owner == Some(FromHbp))
      && g.s.out.stream.None?
  {
    var data := IpscHeadData();
    var src, dst := Slice(data, 6, 9), Slice(data, 9, 12);
    assert dst == [0, 0, 2] && dst[2] == 2;
    LiveKeepsGroup(s.reflect.recent, 2, [0, 0, 1]);
    assert !SeenRecently(LiveRecent(s.reflect.recent, 2), src, dst);
  }

  lemma ThirdCallOpens(c: Config, r: Res)
    requires BothOpen(c, r.s)
    ensures SameGroupCollides(c, SlotStep(c, TS1, r, Crossing()[2]).s)
  {
    hide EmitStart, DecodeLc;
    HbpHeadParses([0, 0, 2], [2, 2, 2, 2], 3);
    var b := ParseDmrd(Crossing()[2].dmrd);
    assert b.dst[2] == 2 && b.stream[0] == 2;
    var g := HbpGate(c, r.s, b, 3);
    assert g.pass;
    var i := g.s.inb;
    assert !DuplicateHead(i, b, 3);
    var s := if i.started then ResetInbound(g.s) else g.s;
    var q := OpenInbound(c, TS1, r.(s := s), DecodeLc(c.dmr, b.payload), b, 3, 0, 0);
    EmitStartFrame(c, TS1, q.sh, q.s, b.src, b.dst, 3);
    var s' := SlotStep(c, TS1, r, Crossing()[2]).s;
    assert s'.out.lc == Some(c.dmr.lcOpt + s'.inb.dst.value + [0, 0, 2]);
  }

  lemma CrossingIsPossible(c: Config)
    ensures Possible(c, Crossing())
  {
    hide Step;
    var evs := Crossing();
    assert evs[..2][..1] == evs[..1] && evs[..1][..0] == [];
    assert Legal(c, evs[..1]);
    assert Legal(c, evs[..2]);
    assert GvMeta(IpscHeadData()) == Some((TS1, VOICE_HEAD));
  }

  /** Unless the lock is on for the whole slot, three packets put both directions on one talkgroup. */
  lemma CrossingCollides(c: Config)
    requires !(c.callLock && !c.lockSameTgOnly)
    ensures Possible(c, Crossing()) && SameGroupCollides(c, Run(c, Crossing()).At(TS1))
  {
    hide SlotStep, FirstOpen, BothOpen, SameGroupCollides;
    CrossingIsPossible(c);
    var evs := Crossing();
    assert evs[..2][..1] == evs[..1] && evs[..1][..0] == [];
    FirstCallOpens(c, Res(INITIAL.sh, INITIAL.one));
    var st1 := Step(c, INITIAL, evs[0]);
    assert Run(c, evs[..1]) == st1;
    SecondCallOpens(c, Res(st1.sh, st1.one));
    var st2 := Step(c, st1, evs[1]);
    assert Run(c, evs[..2]) == st2;
    ThirdCallOpens(c, Res(st2.sh, st2.one));
    assert Run(c, evs) == Step(c, st2, evs[2]);
  }

  /** The promise for all possible runs holds exactly under a call lock that ignores talkgroups. */
  lemma ExclusionExactlyWhen(c: Config)
    ensures (forall evs: seq<Event>, ts | Possible(c, evs) :: !Collides(Run(c, evs).At(ts)))
       <==> (c.callLock && !c.lockSameTgOnly)
  {
    if c.callLock && !c.lockSameTgOnly {
      forall evs: seq<Event>, ts ensures !Collides(Run(c, evs).At(ts)) {
        NeverBothWays(c, evs, ts, []);
      }
    } else {
      CrossingCollides(c);
    }
  }

  /** Nor does locking per talkgroup keep calls of one talkgroup apart: the condition is the same. */
  lemma SameGroupExclusionExactlyWhen(c: Config)
    ensures (forall evs: seq<Event>, ts | Possible(c, evs) :: !SameGroupCollides(c, Run(c, evs).At(ts)))
       <==> (c.callLock && !c.lockSameTgOnly)
  {
    if c.callLock && !c.lockSameTgOnly {
      forall evs: seq<Event>, ts ensures !SameGroupCollides(c, Run(c, evs).At(ts)) {
        NeverBothWays(c, evs, ts, []);
      }
    } else {
      CrossingCollides(c);
    }
  }
}
