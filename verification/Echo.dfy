/**
 Reflection suppression, read off what the slot has transmitted and received: which IPSC packets
 count as echoes of the HBP call on the air.
 */
module Echo {
  import opened Prelude
  import opened Wire
  import opened AmbeCodec
  import opened Packets
  import opened CallModel
  import opened Frames
  import opened Runs

  // ------------------------------------------------------------------
  // What has been transmitted lately
  // ------------------------------------------------------------------

  /** How long a transmission can be echoed. */
  function Window(c: Config): Time {
    c.reflectWindow * 1_000_000
  }

  /** Departure j is a transmission since the queue was last cleared. */
  predicate OnAir(h: History, j: nat) {
    j < |h.departures| && h.departures[j].epoch == h.epoch && h.departures[j].fate.Sent?
  }

  /** It can still be echoed. */
  predicate Lately(c: Config, h: History, now: Time, j: nat) {
    OnAir(h, j) && now < h.departures[j].fate.at + Window(c)
  }

  /** A packet of this source and group has been transmitted lately. */
  ghost predicate SentLately(c: Config, h: History, src: Bytes, dst: Bytes, now: Time) {
    exists j: nat :: Lately(c, h, now, j) && h.departures[j].packet.src == src && h.departures[j].packet.dst == dst
  }

  /** The entry stands for transmission j. */
  predicate StandsFor(c: Config, h: History, x: Recent, j: nat) {
    && OnAir(h, j)
    && var d := h.departures[j];
       d.packet.src == x.src && d.packet.dst == x.dst && x.expires == d.fate.at + Window(c)
  }

  ghost predicate Backed(c: Config, h: History, x: Recent) {
    exists j: nat :: StandsFor(c, h, x, j)
  }

  /** Entry x covers transmission j. */
  predicate Covers(c: Config, h: History, x: Recent, j: nat) {
    && OnAir(h, j)
    && var d := h.departures[j];
       d.packet.src == x.src && d.packet.dst == x.dst && d.fate.at + Window(c) <= x.expires
  }

  ghost predicate Covered(c: Config, recent: seq<Recent>, h: History, j: nat) {
    exists i :: 0 <= i < |recent| && Covers(c, h, recent[i], j)
  }

  /** Every entry stands for a transmission, and every transmission that can be echoed is covered. */
  ghost predicate Recalls(c: Config, recent: seq<Recent>, h: History, clock: Time) {
    && (forall i :: 0 <= i < |recent| ==> Backed(c, h, recent[i]))
    && (forall j: nat :: Lately(c, h, clock, j) ==> Covered(c, recent, h, j))
  }

  /** No transmission is of the future, and no departure of a later epoch. */
  ghost predicate Dated(h: History, clock: Time) {
    && (forall j: nat :: OnAir(h, j) ==> h.departures[j].fate.at <= clock)
    && (forall j :: 0 <= j < |h.departures| ==> h.departures[j].epoch <= h.epoch)
  }

  lemma {:induction false} LiveKeeps(r: seq<Recent>, now: Time, i: nat) returns (k: nat)
    requires i < |r| && r[i].expires > now
    ensures k < |LiveRecent(r, now)| && LiveRecent(r, now)[k] == r[i]
  {
    if i == 0 {
      k := 0;
    } else {
      var k' := LiveKeeps(r[1..], now, i - 1);
      k := k' + if r[0].expires > now then 1 else 0;
    }
  }

  lemma {:induction false} LiveIsOf(r: seq<Recent>, now: Time, k: nat) returns (i: nat)
    requires k < |LiveRecent(r, now)|
    ensures i < |r| && LiveRecent(r, now)[k] == r[i] && r[i].expires > now
  {
    if r[0].expires > now && k == 0 {
      i := 0;
    } else {
      var i' := LiveIsOf(r[1..], now, if r[0].expires > now then k - 1 else k);
      i := i' + 1;
    }
  }

  /** Pruning forgets nothing that can still be echoed. */
  lemma PruneRecalls(c: Config, recent: seq<Recent>, h: History, clock: Time, now: Time)
    requires Recalls(c, recent, h, clock) && clock <= now
    ensures Recalls(c, LiveRecent(recent, now), h, now)
  {
    hide LiveRecent, Backed;
    var live := LiveRecent(recent, now);
    forall k | 0 <= k < |live| ensures Backed(c, h, live[k]) {
      var i := LiveIsOf(recent, now, k);
    }
    forall j: nat | Lately(c, h, now, j) ensures Covered(c, live, h, j) {
      assert Lately(c, h, clock, j);
      var i :| 0 <= i < |recent| && Covers(c, h, recent[i], j);
      var k := LiveKeeps(recent, now, i);
      assert Covers(c, h, live[k], j);
    }
  }

  lemma LaterRecalls(c: Config, recent: seq<Recent>, h: History, clock: Time, now: Time)
    requires Recalls(c, recent, h, clock) && clock <= now
    ensures Recalls(c, recent, h, now)
  {
    hide Backed, Covered;
    forall j: nat | Lately(c, h, now, j) ensures Covered(c, recent, h, j) {
      assert Lately(c, h, clock, j);
    }
  }

  /** The renewed memory: one entry of the source and group lasts until the new time, the others are as before. */
  lemma {:induction false} RenewHas(r: seq<Recent>, src: Bytes, dst: Bytes, until: Time) returns (k: nat)
    ensures k < |Renew(r, src, dst, until)| && Renew(r, src, dst, until)[k] == Recent(src, dst, until)
  {
    if r == [] || (r[0].src == src && r[0].dst == dst) {
      k := 0;
    } else {
      var k' := RenewHas(r[1..], src, dst, until);
      k := k' + 1;
    }
  }

  lemma {:induction false} RenewIsOf(r: seq<Recent>, src: Bytes, dst: Bytes, until: Time, k: nat) returns (i: nat)
    requires k < |Renew(r, src, dst, until)|
    ensures var x := Renew(r, src, dst, until)[k]; x == Recent(src, dst, until) || (i < |r| && x == r[i])
  {
    if r == [] || (r[0].src == src && r[0].dst == dst) {
      i := k;
    } else if k == 0 {
      i := 0;
    } else {
      var i' := RenewIsOf(r[1..], src, dst, until, k - 1);
      i := i' + 1;
    }
  }

  lemma {:induction false} RenewKeeps(r: seq<Recent>, src: Bytes, dst: Bytes, until: Time, i: nat) returns (k: nat)
    requires i < |r| && r[i].expires <= until
    ensures k < |Renew(r, src, dst, until)|
    ensures var x := Renew(r, src, dst, until)[k]; x.src == r[i].src && x.dst == r[i].dst && r[i].expires <= x.expires
  {
    if r[0].src == src && r[0].dst == dst {
      k := i;
    } else if i == 0 {
      k := 0;
    } else {
      var k' := RenewKeeps(r[1..], src, dst, until, i - 1);
      k := k' + 1;
    }
  }

  /** One more departure. */
  lemma DepartureKeeps(c: Config, h: History, x: Departure, h': History, recent: seq<Recent>, clock: Time)
    requires Recalls(c, recent, h, clock) && h' == h.(departures := h.departures + [x], offers := h'.offers)
    requires x.epoch == h.epoch && !x.fate.Sent?
    ensures Recalls(c, recent, h', clock)
  {
    forall i | 0 <= i < |recent| ensures Backed(c, h', recent[i]) {
      var j: nat :| StandsFor(c, h, recent[i], j);
      assert StandsFor(c, h', recent[i], j);
    }
    forall j: nat | Lately(c, h', clock, j) ensures Covered(c, recent, h', j) {
      assert Lately(c, h, clock, j);
      var i :| 0 <= i < |recent| && Covers(c, h, recent[i], j);
      assert Covers(c, h', recent[i], j);
    }
  }

  /** A transmission, remembered: its entry is renewed among the live ones. */
  lemma TransmissionRecalls(c: Config, h: History, p: Gv, now: Time, h': History, live: seq<Recent>)
    requires Recalls(c, live, h, now) && Dated(h, now)
    requires h' == h.(departures := h.departures + [Departure(p, Sent(now), h.epoch)])
    ensures Recalls(c, Renew(live, p.src, p.dst, now + Window(c)), h', now)
  {
    hide Renew;
    var until, n := now + Window(c), |h.departures|;
    var r := Renew(live, p.src, p.dst, until);
    forall k | 0 <= k < |r| ensures Backed(c, h', r[k]) {
      var i := RenewIsOf(live, p.src, p.dst, until, k);
      if r[k] == Recent(p.src, p.dst, until) {
        assert StandsFor(c, h', r[k], n);
      } else {
        assert Backed(c, h, live[i]);
        var j: nat :| StandsFor(c, h, live[i], j);
        assert StandsFor(c, h', r[k], j);
      }
    }
    forall j: nat | Lately(c, h', now, j) ensures Covered(c, r, h', j) {
      if j == n {
        var k := RenewHas(live, p.src, p.dst, until);
        assert Covers(c, h', r[k], j);
      } else {
        assert Lately(c, h, now, j);
        var i :| 0 <= i < |live| && Covers(c, h, live[i], j);
        assert Backed(c, h, live[i]);
        var b: nat :| StandsFor(c, h, live[i], b);
        assert h.departures[b].fate.at <= now;
        var k := RenewKeeps(live, p.src, p.dst, until, i);
        assert Covers(c, h', r[k], j);
      }
    }
  }

  lemma TransmissionDated(h: History, x: Departure, h': History, now: Time)
    requires Dated(h, now) && h' == h.(departures := h.departures + [x], offers := h'.offers) && x.epoch == h.epoch
    requires x.fate.Sent? ==> x.fate.at <= now
    ensures Dated(h', now)
  {
    forall j: nat | OnAir(h', j) ensures h'.departures[j].fate.at <= now {
      if j < |h.departures| {
        assert OnAir(h, j);
      }
    }
  }

  // ------------------------------------------------------------------
  // Every run
  // ------------------------------------------------------------------

  /** The slot's memory recalls what it has transmitted, if suppression is on. */
  ghost predicate Echoes(c: Config, r: Reflect, h: History, clock: Time) {
    && Dated(h, clock)
    && (c.reflectSuppression && c.reflectWindow > 0 ==> Recalls(c, r.recent, h, clock))
    && (c.reflectSuppression && c.reflectWindow <= 0 ==> r.recent == [])
  }

  lemma SameDepartures(c: Config, r: Reflect, r': Reflect, h: History, h': History, clock: Time)
    requires Echoes(c, r, h, clock) && h'.departures == h.departures && h'.epoch == h.epoch && r'.recent == r.recent
    ensures Echoes(c, r', h', clock)
  {
    hide Window;
    assert forall j: nat :: OnAir(h', j) == OnAir(h, j);
    assert forall j: nat :: Lately(c, h', clock, j) == Lately(c, h, clock, j);
    if c.reflectSuppression && c.reflectWindow > 0 {
      forall i | 0 <= i < |r'.recent| ensures Backed(c, h', r'.recent[i]) {
        assert Backed(c, h, r.recent[i]);
        var j: nat :| StandsFor(c, h, r.recent[i], j);
        assert StandsFor(c, h', r'.recent[i], j);
      }
      forall j: nat | Lately(c, h', clock, j) ensures Covered(c, r'.recent, h', j) {
        assert Covered(c, r.recent, h, j);
        var i :| 0 <= i < |r.recent| && Covers(c, h, r.recent[i], j);
        assert Covers(c, h', r'.recent[i], j);
      }
    }
  }

  lemma EchoesLater(c: Config, r: Reflect, h: History, clock: Time, now: Time)
    requires Echoes(c, r, h, clock) && clock <= now
    ensures Echoes(c, r, h, now)
  {
    hide Recalls;
    if c.reflectSuppression && c.reflectWindow > 0 {
      LaterRecalls(c, r.recent, h, clock, now);
    }
  }

  lemma SendEchoes(c: Config, s: Slot, p: Gv, now: Time)
    requires Echoes(c, s.reflect, s.hist, now)
    ensures var s' := SendNow(c, s, p, now); Echoes(c, s'.reflect, s'.hist, now)
  {
    hide Recalls, Dated, LiveRecent, Renew;
    var h := s.hist;
    TransmissionDated(h, Departure(p, Busy(now), h.epoch), CallModel.Depart(h, p, Busy(now)), now);
    TransmissionDated(h, Departure(p, Sent(now), h.epoch), CallModel.Depart(h, p, Sent(now)), now);
    if c.reflectSuppression && c.reflectWindow > 0 {
      if SlotBusy(c, s, now) {
        DepartureKeeps(c, h, Departure(p, Busy(now), h.epoch), CallModel.Depart(h, p, Busy(now)), s.reflect.recent,
          now);
      } else {
        PruneRecalls(c, s.reflect.recent, h, now, now);
        TransmissionRecalls(c, h, p, now, CallModel.Depart(h, p, Sent(now)), LiveRecent(s.reflect.recent, now));
      }
    }
  }

  lemma SubmitEchoes(c: Config, s: Slot, p: Gv, now: Time)
    requires Echoes(c, s.reflect, s.hist, now)
    ensures var s' := Submit(c, s, p, now); Echoes(c, s'.reflect, s'.hist, now)
  {
    hide SendNow, Echoes;
    var h1 := s.hist.(offers := s.hist.offers + [Offer(p, true)]);
    var h2 := s.hist.(offers := s.hist.offers + [Offer(p, false)]);
    SameDepartures(c, s.reflect, s.reflect, s.hist, h1, now);
    SameDepartures(c, s.reflect, s.reflect, s.hist, h2, now);
    SendEchoes(c, s.(hist := h1), p, now);
  }

  lemma EmitEchoes(c: Config, sh: Shared, s: Slot, src: Bytes, dst: Bytes, callInfo: byte, pt: byte, payload: Bytes,
                   now: Time)
    requires Echoes(c, s.reflect, s.hist, now)
    ensures var s' := Emit(c, sh, s, src, dst, callInfo, pt, payload, now); Echoes(c, s'.reflect, s'.hist, now)
  {
    hide Submit, Echoes;
    SubmitEchoes(c, s.(inb := s.inb.(rtpSeq := (s.inb.rtpSeq + 1) % 0x1_0000,
      rtpTs := (s.inb.rtpTs + 480) % 0x1_0000_0000)), NewPacket(c, sh, s.inb, src, dst, callInfo, pt, payload), now);
  }

  lemma {:induction false} HeadsEcho(c: Config, ts: Timeslot, sh: Shared, s: Slot, lc: Bytes, src: Bytes, dst: Bytes,
                                     n: nat, now: Time)
    requires Echoes(c, s.reflect, s.hist, now)
    ensures var s' := EmitHeads(c, ts, sh, s, lc, src, dst, n, now); Echoes(c, s'.reflect, s'.hist, now)
  {
    hide Emit, LcGvPayload, Echoes;
    if n > 0 {
      HeadsEcho(c, ts, sh, s, lc, src, dst, n - 1, now);
      EmitEchoes(c, sh, EmitHeads(c, ts, sh, s, lc, src, dst, n - 1, now), src, dst, CallInfo(ts, false),
                 if n == 1 then PT_FIRST_HEAD else PT_VOICE, LcGvPayload(c.dmr, VOICE_HEAD, lc), now);
    }
  }

  lemma StartEchoes(c: Config, ts: Timeslot, sh: Shared, s: Slot, src: Bytes, dst: Bytes, now: Time)
    requires Echoes(c, s.reflect, s.hist, now)
    ensures var s' := EmitStart(c, ts, sh, s, src, dst, now); Echoes(c, s'.reflect, s'.hist, now)
  {
    hide EmitHeads, Echoes;
    HeadsEcho(c, ts, sh, s, OrElse(s.inb.lc, c.dmr.lcOpt + dst + src), src, dst, c.Heads(), now);
  }

  lemma ForwardEchoes(c: Config, ts: Timeslot, r: Res, b: Burst, now: Time, seq0: nat, ts0: nat)
    requires Echoes(c, r.s.reflect, r.s.hist, now) && |b.payload| == 33
    ensures var s' := HbpForward(c, ts, r, b, now, seq0, ts0).s; Echoes(c, s'.reflect, s'.hist, now)
  {
    hide Emit, EmitStart, Extract, VoiceGvPayload, LcGvPayload, DecodeLc, Echoes;
    var i := r.s.inb;
    if IsHead(b.flags) {
      var s := if i.hbpStream.Some? && i.lc.Some? && i.started then ResetInbound(r.s) else r.s;
      var q := OpenInbound(c, ts, r.(s := s), DecodeLc(c.dmr, b.payload), b, now, seq0, ts0);
      StartEchoes(c, ts, q.sh, q.s, b.src, b.dst, now);
    } else if IsTerm(b.flags) {
      EmitEchoes(c, r.sh, r.s, b.src, b.dst, CallInfo(ts, true), PT_TERM,
                 LcGvPayload(c.dmr, VOICE_TERM, OrElse(i.lc, c.dmr.lcOpt + b.dst + b.src)), now);
    } else {
      var q := HbpLateEntry(c, ts, r, b, now, seq0, ts0);
      var s := EmitStart(c, ts, q.sh, q.s, b.src, b.dst, now);
      StartEchoes(c, ts, q.sh, q.s, b.src, b.dst, now);
      EmitEchoes(c, q.sh, s, b.src, b.dst, CallInfo(ts, false), PT_VOICE,
                 VoiceGvPayload(c.dmr, ts, s.inb, b, Extract(c.dmr, b.payload)), now);
    }
  }

  lemma DrainEchoes(c: Config, s: Slot, now: Time, later: Time)
    requires Echoes(c, s.reflect, s.hist, now)
    ensures var s' := Drain(c, s, now, later); Echoes(c, s'.reflect, s'.hist, now)
  {
    hide SendNow, Echoes;
    if s.pacer.queue != [] {
      SendEchoes(c, s.(pacer := s.pacer.(handle := None, queue := s.pacer.queue[1..])), s.pacer.queue[0], now);
    }
  }

  lemma GateEchoes(c: Config, s: Slot, data: Bytes, burst: byte, now: Time)
    requires Echoes(c, s.reflect, s.hist, now)
    ensures var g := IpscGate(c, s, data, burst, now); Echoes(c, g.s.reflect, g.s.hist, now)
  {
    hide LegacyGate, LockGate, Recalls, Dated, LiveRecent, Live;
    var src, dst, key := Slice(data, 6, 9), Slice(data, 9, 12), IpscKeyOf(data);
    var s0 := s.(out := s.out.(lastPkt := now));
    LegacyGateFrame(c, s0, key, burst, now);
    var a := LegacyGate(c, s0, key, burst, now);
    LockGateFrame(c, a.s, FromIpsc, key, src, dst, burst == VOICE_TERM, now);
    if c.reflectSuppression && c.reflectWindow > 0 {
      PruneRecalls(c, s.reflect.recent, s.hist, now, now);
    }
    NothingLive(now);
  }

  lemma NothingLive(now: Time)
    ensures LiveRecent([], now) == []
  {
  }

  lemma ClearEchoes(c: Config, s: Slot, clock: Time)
    requires Echoes(c, s.reflect, s.hist, clock)
    ensures var s' := HbpDown(s); Echoes(c, s'.reflect, s'.hist, clock)
  {
    var h, h' := s.hist, HbpDown(s).hist;
    forall j: nat ensures !OnAir(h', j) {
      if j < |h.departures| {
        assert h'.departures[j] == h.departures[j];
      }
    }
    forall j | 0 <= j < |h'.departures| ensures h'.departures[j].epoch <= h'.epoch {
      if j < |h.departures| {
        assert h'.departures[j] == h.departures[j];
      }
    }
    assert Recalls(c, [], h', clock);
  }

  lemma StepEchoes(c: Config, ts: Timeslot, r: Res, e: Event, clock: Time)
    requires Echoes(c, r.s.reflect, r.s.hist, clock) && clock <= e.now <= e.Ends()
    ensures var s' := SlotStep(c, ts, r, e).s; Echoes(c, s'.reflect, s'.hist, e.Ends())
  {
    hide HbpGate, HbpForward, IpscGate, IpscForward, Drain, HbpDown, Echoes;
    EchoesLater(c, r.s.reflect, r.s.hist, clock, e.now);
    EchoesLater(c, r.s.reflect, r.s.hist, clock, e.Ends());
    match e
    case IpscPacket(_, data, burst, _, now, nonce) =>
      if IpscHeard(e, ts) {
        GateEchoes(c, r.s, data, burst, now);
        var g := IpscGate(c, r.s, data, burst, now);
        IpscForwardFrame(c, ts, Res(Learn(r.sh, data), g.s), data, burst, now, nonce);
        SameDepartures(c, g.s.reflect, g.s.reflect, g.s.hist, SlotStep(c, ts, r, e).s.hist, now);
      }
    case HbpPacket(dmrd, _, now, seq0, ts0) =>
      if HbpHeard(e, ts) {
        var b := ParseDmrd(dmrd);
        HbpGateFrame(c, r.s, b, now);
        ForwardEchoes(c, ts, r.(s := HbpGate(c, r.s, b, now).s), b, now, seq0, ts0);
      }
    case DrainFires(_, now, later) =>
      DrainEchoes(c, r.s, now, later);
      var s' := Drain(c, r.s, now, later);
      EchoesLater(c, s'.reflect, s'.hist, now, later);
    case Watchdog(_) => SameDepartures(c, r.s.reflect, r.s.reflect, r.s.hist, r.s.hist, e.now);
    case PeerLost(_) => ClearEchoes(c, r.s, e.now);
    case HbpLost(_) => ClearEchoes(c, r.s, e.now);
  }

  lemma {:induction false} EchoesAlways(c: Config, evs: seq<Event>, ts: Timeslot)
    requires Legal(c, evs)
    ensures var s := Run(c, evs).At(ts); Echoes(c, s.reflect, s.hist, ClockAfter(evs))
  {
    hide SlotStep, Echoes;
    if evs == [] {
      NoEchoes(c);
    } else {
      var pre, e := evs[..|evs| - 1], evs[|evs| - 1];
      EchoesAlways(c, pre, ts);
      StepSeen(c, ts, Run(c, pre), e);
      StepEchoes(c, ts, Seen(c, ts, Run(c, pre), e), e, ClockAfter(pre));
    }
  }

  lemma NoEchoes(c: Config)
    ensures Echoes(c, IDLE_SLOT.reflect, IDLE_SLOT.hist, 0)
  {
  }

  lemma RecallsExactly(c: Config, recent: seq<Recent>, h: History, src: Bytes, dst: Bytes, now: Time)
    requires Recalls(c, recent, h, now)
    ensures SeenRecently(LiveRecent(recent, now), src, dst) <==> SentLately(c, h, src, dst, now)
  {
    hide LiveRecent;
    var live := LiveRecent(recent, now);
    if SeenRecently(live, src, dst) {
      var x :| x in live && x.src == src && x.dst == dst;
      var k :| 0 <= k < |live| && live[k] == x;
      var i := LiveIsOf(recent, now, k);
      assert Backed(c, h, recent[i]);
      var j: nat :| StandsFor(c, h, recent[i], j);
      assert Lately(c, h, now, j);
    }
    if SentLately(c, h, src, dst, now) {
      var j: nat :| Lately(c, h, now, j) && h.departures[j].packet.src == src && h.departures[j].packet.dst == dst;
      assert Covered(c, recent, h, j);
      var i :| 0 <= i < |recent| && Covers(c, h, recent[i], j);
      var k := LiveKeeps(recent, now, i);
      assert live[k] in live;
    }
  }

  /**
   Main result: on every real-time run the memory recalls a source and group exactly while a
   transmission of theirs is within the window.
   */
  lemma RecalledExactlyWhile(c: Config, evs: seq<Event>, ts: Timeslot, src: Bytes, dst: Bytes, now: Time)
    requires Legal(c, evs) && ClockAfter(evs) <= now && c.reflectSuppression
    ensures var s := Run(c, evs).At(ts);
      SeenRecently(LiveRecent(s.reflect.recent, now), src, dst) <==> SentLately(c, s.hist, src, dst, now)
  {
    hide Run, Legal, Recalls, LiveRecent;
    EchoesAlways(c, evs, ts);
    var s := Run(c, evs).At(ts);
    EchoesLater(c, s.reflect, s.hist, ClockAfter(evs), now);
    if c.reflectWindow > 0 {
      RecallsExactly(c, s.reflect.recent, s.hist, src, dst, now);
    } else {
      NothingLive(now);
      assert forall j: nat :: OnAir(s.hist, j) ==> s.hist.departures[j].fate.at <= now;
    }
  }

  // ------------------------------------------------------------------
  // Suppressed streams
  // ------------------------------------------------------------------

  /** How long a suppressed stream is remembered: the window, but at least a second. */
  function IgnoreTime(c: Config): Time {
    (if c.reflectWindow < 1 then 1 else c.reflectWindow) * 1_000_000
  }

  predicate Ignored(c: Config, last: Option<Time>, now: Time) {
    last.Some? && now < last.value + IgnoreTime(c)
  }

  /** The slot as the echo check finds it: past the legacy rule and the lock. */
  function BeforeEcho(c: Config, s: Slot, e: Event): Gate
    requires e.IpscPacket?
  {
    var key := IpscKeyOf(e.data);
    var a := LegacyGate(c, s.(out := s.out.(lastPkt := e.now)), key, e.burst, e.now);
    if !a.pass then a
    else LockGate(c, a.s, FromIpsc, key, Slice(e.data, 6, 9), Slice(e.data, 9, 12), e.burst == VOICE_TERM, e.now)
  }

  /** The packet gets past the lock and is stopped as an echo. */
  predicate Suppressed(c: Config, s: Slot, e: Event, ts: Timeslot) {
    IpscHeard(e, ts) && BeforeEcho(c, s, e).pass && !IpscGate(c, s, e.data, e.burst, e.now).pass
  }

  /** When the last packet of the stream was suppressed, unless that was its terminator or a side was lost since. */
  function LastEcho(c: Config, evs: seq<Event>, ts: Timeslot, b: byte): Option<Time> {
    if evs == [] then None
    else
      var pre, e := evs[..|evs| - 1], evs[|evs| - 1];
      if e.PeerLost? || e.HbpLost? then None
      else if Suppressed(c, Run(c, pre).At(ts), e, ts) && |e.data| > 5 && e.data[5] == b then
        if e.burst == 0x02 then None else Some(e.now)
      else LastEcho(c, pre, ts, b)
  }

  ghost predicate Knows(c: Config, ignored: map<byte, Time>, b: byte, last: Option<Time>, clock: Time) {
    && (Ignored(c, last, clock) ==> b in ignored)
    && (b in ignored ==> last.Some? && ignored[b] == last.value + IgnoreTime(c))
  }

  lemma VerdictKnows(c: Config, s: Slot, e: Event, b: byte, last: Option<Time>, clock: Time)
    requires e.IpscPacket? && Knows(c, s.reflect.ignored, b, last, clock) && clock <= e.now
    ensures var g := ReflectGate(c, s, IpscKeyOf(e.data), e.burst, Slice(e.data, 6, 9), Slice(e.data, 9, 12), e.now);
      Knows(c, g.s.reflect.ignored, b,
            if !g.pass && e.data[5] == b then (if e.burst == 0x02 then None else Some(e.now)) else last, e.now)
  {
    hide LiveRecent, SeenRecently;
  }

  lemma GatesKnow(c: Config, s: Slot, e: Event, ts: Timeslot, b: byte, last: Option<Time>, clock: Time)
    requires IpscHeard(e, ts) && Knows(c, s.reflect.ignored, b, last, clock) && clock <= e.now
    ensures var g := IpscGate(c, s, e.data, e.burst, e.now);
      Knows(c, g.s.reflect.ignored, b,
            if Suppressed(c, s, e, ts) && |e.data| > 5 && e.data[5] == b
            then (if e.burst == 0x02 then None else Some(e.now))
            else last, e.now)
  {
    hide LegacyGate, LockGate, ReflectGate;
    var src, dst, key := Slice(e.data, 6, 9), Slice(e.data, 9, 12), IpscKeyOf(e.data);
    var s0 := s.(out := s.out.(lastPkt := e.now));
    LegacyGateFrame(c, s0, key, e.burst, e.now);
    var a := LegacyGate(c, s0, key, e.burst, e.now);
    if a.pass {
      LockGateFrame(c, a.s, FromIpsc, key, src, dst, e.burst == VOICE_TERM, e.now);
      var l := LockGate(c, a.s, FromIpsc, key, src, dst, e.burst == VOICE_TERM, e.now);
      VerdictKnows(c, l.s, e, b, last, clock);
      ShortPasses(c, l.s, key, e.burst, src, dst, e.now);
    }
  }

  lemma ShortPasses(c: Config, s: Slot, key: StreamKey, burst: byte, src: Bytes, dst: Bytes, now: Time)
    ensures !key.IpscKey? ==> ReflectGate(c, s, key, burst, src, dst, now).pass
  {
  }

  lemma StepKnows(c: Config, ts: Timeslot, r: Res, e: Event, b: byte, last: Option<Time>, clock: Time)
    requires Knows(c, r.s.reflect.ignored, b, last, clock) && clock <= e.now <= e.Ends()
    ensures Knows(c, SlotStep(c, ts, r, e).s.reflect.ignored, b,
                  if e.PeerLost? || e.HbpLost? then None
                  else if Suppressed(c, r.s, e, ts) && |e.data| > 5 && e.data[5] == b then
                    if e.burst == 0x02 then None else Some(e.now)
                  else last, e.Ends())
  {
    hide IpscGate, IpscForward, HbpGate, HbpForward, Drain, Suppressed;
    match e
    case IpscPacket(_, data, burst, _, now, nonce) =>
      OnlyHeardIsSuppressed(c, r.s, e, ts);
      if IpscHeard(e, ts) {
        GatesKnow(c, r.s, e, ts, b, last, clock);
        IpscForwardFrame(c, ts, Res(Learn(r.sh, data), IpscGate(c, r.s, data, burst, now).s), data, burst, now, nonce);
      }
    case HbpPacket(dmrd, _, now, seq0, ts0) =>
      OnlyHeardIsSuppressed(c, r.s, e, ts);
      if HbpHeard(e, ts) {
        var x := ParseDmrd(dmrd);
        HbpGateFrame(c, r.s, x, now);
        HbpForwardFrame(c, ts, r.(s := HbpGate(c, r.s, x, now).s), x, now, seq0, ts0);
      }
    case DrainFires(_, now, later) =>
      OnlyHeardIsSuppressed(c, r.s, e, ts);
      DrainFrame(c, r.s, now, later);
    case _ => OnlyHeardIsSuppressed(c, r.s, e, ts);
  }

  lemma OnlyHeardIsSuppressed(c: Config, s: Slot, e: Event, ts: Timeslot)
    ensures Suppressed(c, s, e, ts) ==> IpscHeard(e, ts)
  {
  }

  lemma {:induction false} KnowsAlways(c: Config, evs: seq<Event>, ts: Timeslot, b: byte)
    requires Legal(c, evs)
    ensures Knows(c, Run(c, evs).At(ts).reflect.ignored, b, LastEcho(c, evs, ts, b), ClockAfter(evs))
  {
    hide SlotStep, Knows, Suppressed;
    if evs == [] {
      KnowsNothing(c, b);
    } else {
      var pre, e := evs[..|evs| - 1], evs[|evs| - 1];
      KnowsAlways(c, pre, ts, b);
      StepSeen(c, ts, Run(c, pre), e);
      StepKnows(c, ts, Seen(c, ts, Run(c, pre), e), e, b, LastEcho(c, pre, ts, b), ClockAfter(pre));
    }
  }

  lemma KnowsNothing(c: Config, b: byte)
    ensures Knows(c, map[], b, None, 0)
  {
  }

  lemma ReflectVerdict(c: Config, s: Slot, e: Event, last: Option<Time>, clock: Time)
    requires e.IpscPacket? && |e.data| > 5 && Knows(c, s.reflect.ignored, e.data[5], last, clock) && clock <= e.now
    ensures var src, dst := Slice(e.data, 6, 9), Slice(e.data, 9, 12);
      !ReflectGate(c, s, IpscKeyOf(e.data), e.burst, src, dst, e.now).pass <==>
        && c.reflectSuppression && c.peerMode
        && (Ignored(c, last, e.now)
            || (e.burst == 0x01 && s.inb.started && SeenRecently(LiveRecent(s.reflect.recent, e.now), src, dst)))
  {
    hide LiveRecent, SeenRecently;
  }

  /**
   Main result: on every real-time run an IPSC packet that gets past the lock is suppressed exactly
   when suppression is on in peer mode and it is either of a stream suppressed within the ignore
   time, or the header of a source and group transmitted within the window, while an HBP call is
   on the air.
   */
  lemma SuppressedExactlyWhen(c: Config, evs: seq<Event>, ts: Timeslot, e: Event)
    requires Legal(c, evs) && IpscHeard(e, ts) && ClockAfter(evs) <= e.now && |e.data| > 5
    requires BeforeEcho(c, Run(c, evs).At(ts), e).pass
    ensures var s := Run(c, evs).At(ts);
      Suppressed(c, s, e, ts) <==>
        && c.reflectSuppression && c.peerMode
        && (|| Ignored(c, LastEcho(c, evs, ts, e.data[5]), e.now)
            || (e.burst == 0x01 && s.inb.started
                && SentLately(c, s.hist, Slice(e.data, 6, 9), Slice(e.data, 9, 12), e.now)))
  {
    hide Run, Legal, LegacyGate, LockGate, ReflectGate, LastEcho, LiveRecent, SeenRecently, SentLately, Knows, Ignored;
    var s := Run(c, evs).At(ts);
    var src, dst, key := Slice(e.data, 6, 9), Slice(e.data, 9, 12), IpscKeyOf(e.data);
    var s0 := s.(out := s.out.(lastPkt := e.now));
    LegacyGateFrame(c, s0, key, e.burst, e.now);
    var a := LegacyGate(c, s0, key, e.burst, e.now);
    LockGateFrame(c, a.s, FromIpsc, key, src, dst, e.burst == VOICE_TERM, e.now);
    var l := LockGate(c, a.s, FromIpsc, key, src, dst, e.burst == VOICE_TERM, e.now);
    KnowsAlways(c, evs, ts, e.data[5]);
    ReflectVerdict(c, l.s, e, LastEcho(c, evs, ts, e.data[5]), ClockAfter(evs));
    if c.reflectSuppression {
      RecalledExactlyWhile(c, evs, ts, src, dst, e.now);
    }
  }
}
