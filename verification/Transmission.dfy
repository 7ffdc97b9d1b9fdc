/**
 Which generated packets are queued, transmitted or dropped, and when: read off the events.
 */
module Transmission {
  import opened Prelude
  import opened Wire
  import opened AmbeCodec
  import opened Packets
  import opened CallModel
  import opened Frames
  import opened Runs
  import Pacer = PacerLaws

  // ------------------------------------------------------------------
  // Transmitted or dropped
  // ------------------------------------------------------------------

  /** When the slot last had an IPSC packet that passed its gates. */
  function LastIpsc(c: Config, evs: seq<Event>, ts: Timeslot): Option<Time> {
    if evs == [] then None
    else
      var pre, e := evs[..|evs| - 1], evs[|evs| - 1];
      if IpscHeard(e, ts) && IpscGate(c, Run(c, pre).At(ts), e.data, e.burst, e.now).pass then Some(e.now)
      else LastIpsc(c, pre, ts)
  }

  /** IPSC holds the slot busy: the guard is on and such a packet came within the holdoff (at time 0, if none came). */
  predicate HeldBusy(c: Config, last: Option<Time>, now: Time) {
    c.busyGuard && now - (if last.Some? then last.value else 0) < c.busyHoldoffMs * 1000 && c.busyHoldoffMs > 0
  }

  /** What becomes of a packet sent now. */
  function FateNow(c: Config, last: Option<Time>, now: Time): Fate {
    if HeldBusy(c, last, now) then Busy(now) else Sent(now)
  }

  /** Departures are only added, each with this fate. */
  predicate Depart(d: seq<Departure>, d': seq<Departure>, fate: Fate) {
    d <= d' && forall j :: |d| <= j < |d'| ==> d'[j].fate == fate
  }

  /** The busy time is that of the last packet. */
  predicate Marked(s: Slot, last: Option<Time>) {
    s.busyLast == if last.Some? then last.value else 0
  }

  lemma SendDeparts(c: Config, s: Slot, p: Gv, now: Time, last: Option<Time>)
    requires Marked(s, last)
    ensures Depart(s.hist.departures, SendNow(c, s, p, now).hist.departures, FateNow(c, last, now))
  {
    hide RememberSent;
  }

  lemma EmitDeparts(c: Config, sh: Shared, s: Slot, src: Bytes, dst: Bytes, callInfo: byte, pt: byte, payload: Bytes,
                    now: Time, last: Option<Time>)
    requires Marked(s, last)
    ensures Depart(s.hist.departures, Emit(c, sh, s, src, dst, callInfo, pt, payload, now).hist.departures,
                   FateNow(c, last, now))
    ensures Marked(Emit(c, sh, s, src, dst, callInfo, pt, payload, now), last)
  {
    hide NewPacket, RememberSent;
  }

  lemma DepartMore(d: seq<Departure>, d1: seq<Departure>, d2: seq<Departure>, fate: Fate)
    requires Depart(d, d1, fate) && Depart(d1, d2, fate)
    ensures Depart(d, d2, fate)
  {
    forall j | |d| <= j < |d2| ensures d2[j].fate == fate {
      if j < |d1| {
        assert d2[j] == d1[j];
      }
    }
  }

  lemma {:induction false} HeadsDepart(c: Config, ts: Timeslot, sh: Shared, s: Slot, lc: Bytes, src: Bytes, dst: Bytes,
                                       n: nat, now: Time, last: Option<Time>)
    requires Marked(s, last)
    ensures var s' := EmitHeads(c, ts, sh, s, lc, src, dst, n, now);
      Depart(s.hist.departures, s'.hist.departures, FateNow(c, last, now)) && Marked(s', last)
  {
    hide Emit, LcGvPayload, Marked, FateNow;
    if n > 0 {
      HeadsDepart(c, ts, sh, s, lc, src, dst, n - 1, now, last);
      var t := EmitHeads(c, ts, sh, s, lc, src, dst, n - 1, now);
      var pt := if n == 1 then PT_FIRST_HEAD else PT_VOICE;
      var payload := LcGvPayload(c.dmr, VOICE_HEAD, lc);
      EmitDeparts(c, sh, t, src, dst, CallInfo(ts, false), pt, payload, now, last);
      DepartMore(s.hist.departures, t.hist.departures,
                 Emit(c, sh, t, src, dst, CallInfo(ts, false), pt, payload, now).hist.departures,
                   FateNow(c, last, now));
    }
  }

  lemma StartDeparts(c: Config, ts: Timeslot, sh: Shared, s: Slot, src: Bytes, dst: Bytes, now: Time,
                     last: Option<Time>)
    requires Marked(s, last)
    ensures var s' := EmitStart(c, ts, sh, s, src, dst, now);
      Depart(s.hist.departures, s'.hist.departures, FateNow(c, last, now)) && Marked(s', last)
  {
    hide EmitHeads, FateNow;
    HeadsDepart(c, ts, sh, s, OrElse(s.inb.lc, c.dmr.lcOpt + dst + src), src, dst, c.Heads(), now, last);
  }

  lemma ForwardDeparts(c: Config, ts: Timeslot, r: Res, b: Burst, now: Time, seq0: nat, ts0: nat, last: Option<Time>)
    requires Marked(r.s, last) && |b.payload| == 33
    ensures Depart(r.s.hist.departures, HbpForward(c, ts, r, b, now, seq0, ts0).s.hist.departures,
      FateNow(c, last, now))
  {
    hide Emit, EmitStart, Extract, VoiceGvPayload, LcGvPayload, DecodeLc, FateNow;
    var i := r.s.inb;
    if IsHead(b.flags) {
      var s := if i.hbpStream.Some? && i.lc.Some? && i.started then ResetInbound(r.s) else r.s;
      var q := OpenInbound(c, ts, r.(s := s), DecodeLc(c.dmr, b.payload), b, now, seq0, ts0);
      StartDeparts(c, ts, q.sh, q.s, b.src, b.dst, now, last);
    } else if IsTerm(b.flags) {
      EmitDeparts(c, r.sh, r.s, b.src, b.dst, CallInfo(ts, true), PT_TERM,
                  LcGvPayload(c.dmr, VOICE_TERM, OrElse(i.lc, c.dmr.lcOpt + b.dst + b.src)), now, last);
    } else {
      var q := HbpLateEntry(c, ts, r, b, now, seq0, ts0);
      var s := EmitStart(c, ts, q.sh, q.s, b.src, b.dst, now);
      StartDeparts(c, ts, q.sh, q.s, b.src, b.dst, now, last);
      var payload := VoiceGvPayload(c.dmr, ts, s.inb, b, Extract(c.dmr, b.payload));
      EmitDeparts(c, q.sh, s, b.src, b.dst, CallInfo(ts, false), PT_VOICE, payload, now, last);
      DepartMore(q.s.hist.departures, s.hist.departures,
                 Emit(c, q.sh, s, b.src, b.dst, CallInfo(ts, false), PT_VOICE, payload, now).hist.departures,
                 FateNow(c, last, now));
    }
  }

  lemma DrainDeparts(c: Config, s: Slot, now: Time, later: Time, last: Option<Time>)
    requires Marked(s, last)
    ensures Depart(s.hist.departures, Drain(c, s, now, later).hist.departures, FateNow(c, last, now))
  {
    hide RememberSent, FateNow, SendNow;
    if s.pacer.queue != [] {
      var s1 := s.(pacer := s.pacer.(handle := None, queue := s.pacer.queue[1..]));
      SendDeparts(c, s1, s.pacer.queue[0], now, last);
    }
  }

  lemma StepDeparts(c: Config, ts: Timeslot, r: Res, e: Event, last: Option<Time>)
    requires Marked(r.s, last)
    ensures var s' := SlotStep(c, ts, r, e).s;
      && Depart(r.s.hist.departures, s'.hist.departures,
                if e.PeerLost? || e.HbpLost? then Cleared else FateNow(c, last, e.now))
      && Marked(s', if IpscHeard(e, ts) && IpscGate(c, r.s, e.data, e.burst, e.now).pass then Some(e.now) else last)
  {
    hide HbpGate, HbpForward, IpscGate, IpscForward, Drain, FateNow;
    match e
    case IpscPacket(_, data, burst, _, now, nonce) =>
      IpscGateFrame(c, r.s, data, burst, now);
      IpscForwardFrame(c, ts, Res(Learn(r.sh, data), IpscGate(c, r.s, data, burst, now).s), data, burst, now, nonce);
      if IpscHeard(e, ts) {
        GateMarks(c, r.s, data, burst, now);
      }
    case HbpPacket(dmrd, _, now, seq0, ts0) =>
      if HbpHeard(e, ts) {
        var b := ParseDmrd(dmrd);
        HbpGateFrame(c, r.s, b, now);
        var q := r.(s := HbpGate(c, r.s, b, now).s);
        HbpForwardFrame(c, ts, q, b, now, seq0, ts0);
        ForwardDeparts(c, ts, q, b, now, seq0, ts0, last);
      }
    case DrainFires(_, now, later) =>
      DrainFrame(c, r.s, now, later);
      DrainDeparts(c, r.s, now, later, last);
    case _ =>
  }

  lemma GateMarks(c: Config, s: Slot, data: Bytes, burst: byte, now: Time)
    ensures var g := IpscGate(c, s, data, burst, now); g.s.busyLast == if g.pass then now else s.busyLast
  {
    hide LegacyGate, LockGate, ReflectGate;
    var src, dst, key := Slice(data, 6, 9), Slice(data, 9, 12), IpscKeyOf(data);
    var s0 := s.(out := s.out.(lastPkt := now));
    LegacyGateFrame(c, s0, key, burst, now);
    var a := LegacyGate(c, s0, key, burst, now);
    LockGateFrame(c, a.s, FromIpsc, key, src, dst, burst == VOICE_TERM, now);
    var b := LockGate(c, a.s, FromIpsc, key, src, dst, burst == VOICE_TERM, now);
    ReflectGateFrame(c, b.s, key, burst, src, dst, now);
  }

  lemma {:induction false} MarkedAlways(c: Config, evs: seq<Event>, ts: Timeslot)
    ensures Marked(Run(c, evs).At(ts), LastIpsc(c, evs, ts))
  {
    hide SlotStep, Marked, IpscGate;
    if evs == [] {
      NotMarked();
    } else {
      var pre, e := evs[..|evs| - 1], evs[|evs| - 1];
      MarkedAlways(c, pre, ts);
      StepSeen(c, ts, Run(c, pre), e);
      StepDeparts(c, ts, Seen(c, ts, Run(c, pre), e), e, LastIpsc(c, pre, ts));
    }
  }

  lemma NotMarked()
    ensures Marked(IDLE_SLOT, None)
  {
  }

  /**
   Main result: on every run, what leaves the pacer on an event is dropped as busy if the guard
   is on and an IPSC packet passed the slot's gates less than the holdoff before, and transmitted
   otherwise; the loss of a side clears what waits.
   */
  lemma FateIsDecided(c: Config, evs: seq<Event>, ts: Timeslot)
    requires evs != []
    ensures var pre, e := evs[..|evs| - 1], evs[|evs| - 1];
      Depart(Run(c, pre).At(ts).hist.departures, Run(c, evs).At(ts).hist.departures,
             if e.PeerLost? || e.HbpLost? then Cleared else FateNow(c, LastIpsc(c, pre, ts), e.now))
  {
    hide SlotStep, Marked, FateNow;
    var pre, e := evs[..|evs| - 1], evs[|evs| - 1];
    MarkedAlways(c, pre, ts);
    StepSeen(c, ts, Run(c, pre), e);
    StepDeparts(c, ts, Seen(c, ts, Run(c, pre), e), e, LastIpsc(c, pre, ts));
  }

  // ------------------------------------------------------------------
  // Queued or refused
  // ------------------------------------------------------------------

  /** The queue's limit as configured, but at least 10. */
  function QueueRoom(c: Config): nat {
    if c.queueLimit < 10 then 10 else c.queueLimit
  }

  /** Packets are only added; each is refused exactly when pacing finds the queue full by then. */
  predicate Offered(c: Config, s: Slot, s': Slot) {
    var o, o', q := s.hist.offers, s'.hist.offers, |s.pacer.queue|;
    && o <= o'
    && (forall j :: |o| <= j < |o'| ==> o'[j].taken == (!c.pacing || q + j - |o| < QueueRoom(c)))
    && (c.pacing && q <= QueueRoom(c) ==> |s'.pacer.queue| == Min(q + |o'| - |o|, QueueRoom(c)))
  }

  lemma EmitIsOffered(c: Config, sh: Shared, s: Slot, src: Bytes, dst: Bytes, callInfo: byte, pt: byte, payload: Bytes,
                      now: Time)
    ensures var s' := Emit(c, sh, s, src, dst, callInfo, pt, payload, now);
      Offered(c, s, s') && |s'.hist.offers| == |s.hist.offers| + 1
  {
    hide NewPacket, SlotBusy, RememberSent;
  }

  lemma OfferedMore(c: Config, s: Slot, s1: Slot, s2: Slot)
    requires Offered(c, s, s1) && Offered(c, s1, s2) && (c.pacing ==> |s.pacer.queue| <= QueueRoom(c))
    ensures Offered(c, s, s2)
  {
    var o, o1, o2 := s.hist.offers, s1.hist.offers, s2.hist.offers;
    forall j | |o| <= j < |o2| ensures o2[j].taken == (!c.pacing || |s.pacer.queue| + j - |o| < QueueRoom(c)) {
      if j < |o1| {
        assert o2[j] == o1[j];
      }
    }
  }

  lemma {:induction false} HeadsAreOffered(c: Config, ts: Timeslot, sh: Shared, s: Slot, lc: Bytes, src: Bytes,
                                           dst: Bytes, n: nat, now: Time)
    requires c.pacing ==> |s.pacer.queue| <= QueueRoom(c)
    ensures Offered(c, s, EmitHeads(c, ts, sh, s, lc, src, dst, n, now))
  {
    hide Emit, LcGvPayload;
    if n > 0 {
      HeadsAreOffered(c, ts, sh, s, lc, src, dst, n - 1, now);
      var t := EmitHeads(c, ts, sh, s, lc, src, dst, n - 1, now);
      var pt := if n == 1 then PT_FIRST_HEAD else PT_VOICE;
      var payload := LcGvPayload(c.dmr, VOICE_HEAD, lc);
      EmitIsOffered(c, sh, t, src, dst, CallInfo(ts, false), pt, payload, now);
      OfferedMore(c, s, t, Emit(c, sh, t, src, dst, CallInfo(ts, false), pt, payload, now));
    }
  }

  lemma StartIsOffered(c: Config, ts: Timeslot, sh: Shared, s: Slot, src: Bytes, dst: Bytes, now: Time)
    requires c.pacing ==> |s.pacer.queue| <= QueueRoom(c)
    ensures Offered(c, s, EmitStart(c, ts, sh, s, src, dst, now))
  {
    hide EmitHeads;
    HeadsAreOffered(c, ts, sh, s, OrElse(s.inb.lc, c.dmr.lcOpt + dst + src), src, dst, c.Heads(), now);
  }

  /** Only the queue and the packets offered so far matter. */
  lemma OfferedAlike(c: Config, s: Slot, t: Slot, s': Slot, t': Slot)
    requires Offered(c, s, s') && s.hist == t.hist && s.pacer == t.pacer && s'.hist == t'.hist && s'.pacer == t'.pacer
    ensures Offered(c, t, t')
  {
  }

  lemma HeadIsOffered(c: Config, ts: Timeslot, r: Res, b: Burst, now: Time, seq0: nat, ts0: nat)
    requires |b.payload| == 33 && (c.pacing ==> |r.s.pacer.queue| <= QueueRoom(c))
    ensures Offered(c, r.s, HbpHead(c, ts, r, b, now, seq0, ts0).s)
  {
    var i := r.s.inb;
    if DuplicateHead(i, b, now) || c.startOnVoice {
      hide EmitStart, DecodeLc, QueueRoom;
    } else {
      var s := if i.hbpStream.Some? && i.lc.Some? && i.started then ResetInbound(r.s) else r.s;
      var q := OpenInbound(c, ts, r.(s := s), DecodeLc(c.dmr, b.payload), b, now, seq0, ts0);
      hide EmitStart, DecodeLc, QueueRoom, Offered;
      StartIsOffered(c, ts, q.sh, q.s, b.src, b.dst, now);
      OfferedAlike(c, q.s, r.s, EmitStart(c, ts, q.sh, q.s, b.src, b.dst, now), HbpHead(c, ts, r, b, now, seq0, ts0).s);
    }
  }

  lemma TermIsOffered(c: Config, ts: Timeslot, r: Res, b: Burst, now: Time)
    ensures Offered(c, r.s, HbpTerm(c, ts, r, b, now).s)
  {
    hide Emit, LcGvPayload;
    var payload := LcGvPayload(c.dmr, VOICE_TERM, OrElse(r.s.inb.lc, c.dmr.lcOpt + b.dst + b.src));
    EmitIsOffered(c, r.sh, r.s, b.src, b.dst, CallInfo(ts, true), PT_TERM, payload, now);
  }

  lemma BurstIsOffered(c: Config, ts: Timeslot, r: Res, b: Burst, now: Time, seq0: nat, ts0: nat)
    requires |b.payload| == 33 && (c.pacing ==> |r.s.pacer.queue| <= QueueRoom(c))
    ensures Offered(c, r.s, HbpVoiceBurst(c, ts, r, b, now, seq0, ts0).s)
  {
    var q := HbpLateEntry(c, ts, r, b, now, seq0, ts0);
    if r.s.inb.lc.None? && c.legacy {
      hide Emit, EmitStart, Extract, VoiceGvPayload, QueueRoom;
    } else {
      hide Emit, EmitStart, Extract, VoiceGvPayload, QueueRoom, Offered;
      var s := EmitStart(c, ts, q.sh, q.s, b.src, b.dst, now);
      StartIsOffered(c, ts, q.sh, q.s, b.src, b.dst, now);
      var payload := VoiceGvPayload(c.dmr, ts, s.inb, b, Extract(c.dmr, b.payload));
      var t := Emit(c, q.sh, s, b.src, b.dst, CallInfo(ts, false), PT_VOICE, payload, now);
      EmitIsOffered(c, q.sh, s, b.src, b.dst, CallInfo(ts, false), PT_VOICE, payload, now);
      OfferedMore(c, q.s, s, t);
      OfferedAlike(c, q.s, r.s, t, t);
    }
  }

  lemma ForwardIsOffered(c: Config, ts: Timeslot, r: Res, b: Burst, now: Time, seq0: nat, ts0: nat)
    requires |b.payload| == 33 && (c.pacing ==> |r.s.pacer.queue| <= QueueRoom(c))
    ensures Offered(c, r.s, HbpForward(c, ts, r, b, now, seq0, ts0).s)
  {
    hide HbpHead, HbpTerm, HbpVoiceBurst, QueueRoom, Offered;
    HeadIsOffered(c, ts, r, b, now, seq0, ts0);
    TermIsOffered(c, ts, r, b, now);
    BurstIsOffered(c, ts, r, b, now, seq0, ts0);
  }

  lemma StepIsOffered(c: Config, ts: Timeslot, r: Res, e: Event)
    requires c.pacing ==> |r.s.pacer.queue| <= QueueRoom(c)
    ensures var s' := SlotStep(c, ts, r, e).s;
      if HbpHeard(e, ts) then Offered(c, r.s, s') else s'.hist.offers == r.s.hist.offers
  {
    hide HbpGate, HbpForward, IpscGate, IpscForward, Drain, QueueRoom;
    match e
    case IpscPacket(_, data, burst, _, now, nonce) =>
      IpscGateFrame(c, r.s, data, burst, now);
      IpscForwardFrame(c, ts, Res(Learn(r.sh, data), IpscGate(c, r.s, data, burst, now).s), data, burst, now, nonce);
    case HbpPacket(dmrd, _, now, seq0, ts0) =>
      if HbpHeard(e, ts) {
        var b := ParseDmrd(dmrd);
        HbpGateFrame(c, r.s, b, now);
        ForwardIsOffered(c, ts, r.(s := HbpGate(c, r.s, b, now).s), b, now, seq0, ts0);
      }
    case DrainFires(_, now, later) => DrainFrame(c, r.s, now, later);
    case _ =>
  }

  /**
   Main result: on every run a generated packet is refused exactly when pacing finds the queue full,
   at its configured limit or 10.
   */
  lemma RefusedExactlyWhenFull(c: Config, evs: seq<Event>, ts: Timeslot)
    requires evs != []
    ensures var pre, e := evs[..|evs| - 1], evs[|evs| - 1];
      var s, s' := Run(c, pre).At(ts), Run(c, evs).At(ts);
      && |s.pacer.queue| <= QueueRoom(c)
      && if HbpHeard(e, ts) then Offered(c, s, s') else s'.hist.offers == s.hist.offers
  {
    hide SlotStep, Offered;
    var pre, e := evs[..|evs| - 1], evs[|evs| - 1];
    Pacer.PacerAlways(c, pre, ts);
    assert c.Limit() == QueueRoom(c);
    StepSeen(c, ts, Run(c, pre), e);
    StepIsOffered(c, ts, Seen(c, ts, Run(c, pre), e), e);
  }

  // ------------------------------------------------------------------
  // Promptly
  // ------------------------------------------------------------------

  /** The frame interval as configured, but at least 10 ms. */
  function FrameInterval(c: Config): Time {
    (if c.frameIntervalMs < 10 then 10 else c.frameIntervalMs) * 1000
  }

  /** From when on the next paced packet may go out: an interval after the last, or at once after a clearing. */
  function NextOut(c: Config, evs: seq<Event>, ts: Timeslot): Time {
    if evs == [] then 0
    else
      var pre, e := evs[..|evs| - 1], evs[|evs| - 1];
      if e.PeerLost? || e.HbpLost? then 0
      else if e.DrainFires? && e.ts == ts && Run(c, pre).At(ts).pacer.handle.Some? then e.later + FrameInterval(c)
      else NextOut(c, pre, ts)
  }

  /** The cooldown is that of the last drain, and no drain is scheduled later than it or than at once. */
  predicate Prompt(s: Slot, next: Time, clock: Time) {
    && s.pacer.nextAt == next
    && (s.pacer.handle.Some? ==> s.pacer.handle.value <= Max(clock, next))
  }

  lemma EmitIsPrompt(c: Config, sh: Shared, s: Slot, src: Bytes, dst: Bytes, callInfo: byte, pt: byte, payload: Bytes,
                     now: Time, next: Time)
    requires Prompt(s, next, now)
    ensures Prompt(Emit(c, sh, s, src, dst, callInfo, pt, payload, now), next, now)
  {
    hide NewPacket, SlotBusy, RememberSent;
  }

  lemma {:induction false} HeadsArePrompt(c: Config, ts: Timeslot, sh: Shared, s: Slot, lc: Bytes, src: Bytes,
                                          dst: Bytes, n: nat, now: Time, next: Time)
    requires Prompt(s, next, now)
    ensures Prompt(EmitHeads(c, ts, sh, s, lc, src, dst, n, now), next, now)
  {
    hide Emit, LcGvPayload, Prompt;
    if n > 0 {
      HeadsArePrompt(c, ts, sh, s, lc, src, dst, n - 1, now, next);
      EmitIsPrompt(c, sh, EmitHeads(c, ts, sh, s, lc, src, dst, n - 1, now), src, dst, CallInfo(ts, false),
                   if n == 1 then PT_FIRST_HEAD else PT_VOICE, LcGvPayload(c.dmr, VOICE_HEAD, lc), now, next);
    }
  }

  lemma StartIsPrompt(c: Config, ts: Timeslot, sh: Shared, s: Slot, src: Bytes, dst: Bytes, now: Time, next: Time)
    requires Prompt(s, next, now)
    ensures Prompt(EmitStart(c, ts, sh, s, src, dst, now), next, now)
  {
    hide EmitHeads;
    HeadsArePrompt(c, ts, sh, s, OrElse(s.inb.lc, c.dmr.lcOpt + dst + src), src, dst, c.Heads(), now, next);
  }

  lemma ForwardIsPrompt(c: Config, ts: Timeslot, r: Res, b: Burst, now: Time, seq0: nat, ts0: nat, next: Time)
    requires Prompt(r.s, next, now) && |b.payload| == 33
    ensures Prompt(HbpForward(c, ts, r, b, now, seq0, ts0).s, next, now)
  {
    hide Emit, EmitStart, Extract, VoiceGvPayload, LcGvPayload, DecodeLc;
    var i := r.s.inb;
    if IsHead(b.flags) {
      var s := if i.hbpStream.Some? && i.lc.Some? && i.started then ResetInbound(r.s) else r.s;
      var q := OpenInbound(c, ts, r.(s := s), DecodeLc(c.dmr, b.payload), b, now, seq0, ts0);
      StartIsPrompt(c, ts, q.sh, q.s, b.src, b.dst, now, next);
    } else if IsTerm(b.flags) {
      EmitIsPrompt(c, r.sh, r.s, b.src, b.dst, CallInfo(ts, true), PT_TERM,
                   LcGvPayload(c.dmr, VOICE_TERM, OrElse(i.lc, c.dmr.lcOpt + b.dst + b.src)), now, next);
    } else {
      var q := HbpLateEntry(c, ts, r, b, now, seq0, ts0);
      var s := EmitStart(c, ts, q.sh, q.s, b.src, b.dst, now);
      StartIsPrompt(c, ts, q.sh, q.s, b.src, b.dst, now, next);
      EmitIsPrompt(c, q.sh, s, b.src, b.dst, CallInfo(ts, false), PT_VOICE,
                   VoiceGvPayload(c.dmr, ts, s.inb, b, Extract(c.dmr, b.payload)), now, next);
    }
  }

  lemma DrainIsPrompt(c: Config, s: Slot, now: Time, later: Time, next: Time)
    requires Pacer.PacerInv(c, s.pacer, s.hist.offers, s.hist.departures) && s.pacer.handle.Some? && now <= later
    ensures Prompt(Drain(c, s, now, later), later + FrameInterval(c), later)
  {
    hide SlotBusy, RememberSent, Pacer.Taken, Pacer.Gone;
  }

  lemma StepIsPrompt(c: Config, ts: Timeslot, r: Res, e: Event, next: Time, clock: Time)
    requires Pacer.PacerInv(c, r.s.pacer, r.s.hist.offers, r.s.hist.departures)
    requires Prompt(r.s, next, clock) && clock <= e.now <= e.Ends()
    ensures Prompt(SlotStep(c, ts, r, e).s,
                   if e.PeerLost? || e.HbpLost? then 0
                   else if e.DrainFires? && e.ts == ts && r.s.pacer.handle.Some? then e.later + FrameInterval(c)
                   else next, e.Ends())
  {
    hide HbpGate, HbpForward, IpscGate, IpscForward, Drain, FrameInterval, Pacer.PacerInv;
    match e
    case IpscPacket(_, data, burst, _, now, nonce) =>
      IpscGateFrame(c, r.s, data, burst, now);
      IpscForwardFrame(c, ts, Res(Learn(r.sh, data), IpscGate(c, r.s, data, burst, now).s), data, burst, now, nonce);
    case HbpPacket(dmrd, _, now, seq0, ts0) =>
      if HbpHeard(e, ts) {
        var b := ParseDmrd(dmrd);
        HbpGateFrame(c, r.s, b, now);
        ForwardIsPrompt(c, ts, r.(s := HbpGate(c, r.s, b, now).s), b, now, seq0, ts0, next);
      }
    case DrainFires(ts', now, later) =>
      if ts' == ts && r.s.pacer.handle.Some? {
        DrainIsPrompt(c, r.s, now, later, next);
      }
    case _ =>
  }

  /**
   Main result: on every real-time run, a waiting packet's drain is scheduled no later than at once
   or an interval after the last.
   */
  lemma {:induction false} PromptAlways(c: Config, evs: seq<Event>, ts: Timeslot)
    requires Legal(c, evs)
    ensures Prompt(Run(c, evs).At(ts), NextOut(c, evs, ts), ClockAfter(evs))
  {
    hide SlotStep, Prompt, FrameInterval;
    if evs == [] {
      PromptAtFirst();
    } else {
      var pre, e := evs[..|evs| - 1], evs[|evs| - 1];
      PromptAlways(c, pre, ts);
      Pacer.PacerAlways(c, pre, ts);
      StepSeen(c, ts, Run(c, pre), e);
      StepIsPrompt(c, ts, Seen(c, ts, Run(c, pre), e), e, NextOut(c, pre, ts), ClockAfter(pre));
    }
  }

  lemma PromptAtFirst()
    ensures Prompt(IDLE_SLOT, 0, 0)
  {
  }

  /** Main result: on every run a drain that fires takes exactly the first waiting packet out. */
  lemma DrainTakesTheFirst(c: Config, evs: seq<Event>, ts: Timeslot, now: Time, later: Time)
    requires Run(c, evs).At(ts).pacer.handle.Some?
    ensures var s, s' := Run(c, evs).At(ts), Run(c, evs + [DrainFires(ts, now, later)]).At(ts);
      && s.pacer.queue != [] && s'.pacer.queue == s.pacer.queue[1..]
      && |s'.hist.departures| == |s.hist.departures| + 1
      && s'.hist.departures[|s.hist.departures|].packet == s.pacer.queue[0]
  {
    hide SlotStep, Drain;
    var e := DrainFires(ts, now, later);
    assert (evs + [e])[..|evs|] == evs;
    Pacer.PacerAlways(c, evs, ts);
    StepSeen(c, ts, Run(c, evs), e);
    DrainOut(c, ts, Seen(c, ts, Run(c, evs), e), now, later);
  }

  lemma DrainOut(c: Config, ts: Timeslot, r: Res, now: Time, later: Time)
    requires r.s.pacer.handle.Some? && r.s.pacer.queue != []
    ensures var s' := SlotStep(c, ts, r, DrainFires(ts, now, later)).s;
      && s'.pacer.queue == r.s.pacer.queue[1..] && |s'.hist.departures| == |r.s.hist.departures| + 1
      && s'.hist.departures[|r.s.hist.departures|].packet == r.s.pacer.queue[0]
  {
    hide SlotBusy, RememberSent;
  }
}
