/**
 The pacer conserves packets: every generated packet is queued, transmitted or dropped in
 order, once; the queue is bounded; and a drain is scheduled exactly while packets wait.
 */
module PacerLaws {
  import opened Prelude
  import opened Wire
  import opened AmbeCodec
  import opened Packets
  import opened CallModel
  import opened Frames
  import opened Runs

  /** The packets the pacer accepted, in order. */
  function Taken(o: seq<Offer>): seq<Gv> {
    if o == [] then [] else Taken(o[..|o| - 1]) + if o[|o| - 1].taken then [o[|o| - 1].packet] else []
  }

  /** The packets that left again, in order. */
  function Gone(d: seq<Departure>): (r: seq<Gv>)
    ensures |r| == |d|
  {
    seq(|d|, i requires 0 <= i < |d| => d[i].packet)
  }

  datatype Tally = Tally(sent: nat, busy: nat, cleared: nat)

  /** How many packets left in each way. */
  function TallyOf(d: seq<Departure>): Tally {
    if d == [] then Tally(0, 0, 0)
    else
      var t := TallyOf(d[..|d| - 1]);
      match d[|d| - 1].fate
      case Sent(_) => t.(sent := t.sent + 1)
      case Busy(_) => t.(busy := t.busy + 1)
      case Cleared => t.(cleared := t.cleared + 1)
  }

  function Refused(o: seq<Offer>): nat {
    if o == [] then 0 else Refused(o[..|o| - 1]) + if o[|o| - 1].taken then 0 else 1
  }

  /** Between events: the queue's bound, its schedule, and FIFO conservation. */
  ghost predicate PacerInv(c: Config, p: Pacer, o: seq<Offer>, d: seq<Departure>) {
    && (p.queue != [] <==> p.handle.Some?)
    && (!c.pacing ==> p.queue == [])
    && |p.queue| <= c.Limit()
    && Taken(o) == Gone(d) + p.queue
  }

  function At(d: Departure): Time
    requires !d.fate.Cleared?
  {
    d.fate.at
  }

  /** The least spacing of two paced transmissions: the interval less the 1 ms timer slack. */
  function Spacing(c: Config): Time {
    (if c.frameIntervalMs < 10 then 10 else c.frameIntervalMs) * 1000 - 1000
  }

  /**
   Between events, with pacing on: neighbouring departures of one epoch are spaced, the
   cooldown runs from the last one, and no drain is scheduled before the cooldown ends.
   */
  ghost predicate Paced(c: Config, p: Pacer, d: seq<Departure>, epoch: nat) {
    && c.pacing
    && (p.handle.Some? ==> p.handle.value >= p.nextAt - 1000)
    && (forall k :: 0 <= k < |d| ==> d[k].epoch <= epoch && (d[k].epoch == epoch ==> !d[k].fate.Cleared?))
    && (forall k :: 0 < k < |d| ==> Spaced(c, d[k - 1], d[k]))
    && (d != [] && d[|d| - 1].epoch == epoch ==> p.nextAt >= At(d[|d| - 1]) + c.Interval())
  }

  ghost predicate Kept(c: Config, s: Slot, s': Slot) {
    && PacerInv(c, s'.pacer, s'.hist.offers, s'.hist.departures)
    && (Paced(c, s.pacer, s.hist.departures, s.hist.epoch) ==> Paced(c, s'.pacer, s'.hist.departures, s'.hist.epoch))
  }

  predicate Spaced(c: Config, x: Departure, y: Departure) {
    && x.epoch <= y.epoch
    && (x.epoch == y.epoch && !y.fate.Cleared? ==> !x.fate.Cleared? && At(y) - At(x) >= Spacing(c))
  }

  lemma TakenAppend(o: seq<Offer>, x: Offer)
    ensures Taken(o + [x]) == Taken(o) + if x.taken then [x.packet] else []
  {
    assert (o + [x])[..|o|] == o;
  }

  lemma GoneAppend(d: seq<Departure>, x: Departure)
    ensures Gone(d + [x]) == Gone(d) + [x.packet]
  {
  }

  lemma SubmitConserves(c: Config, s: Slot, p: Gv, now: Time)
    requires PacerInv(c, s.pacer, s.hist.offers, s.hist.departures)
    ensures Kept(c, s, Submit(c, s, p, now))
  {
    TakenAppend(s.hist.offers, Offer(p, true));
    TakenAppend(s.hist.offers, Offer(p, false));
    GoneAppend(s.hist.departures, Departure(p, Busy(now), s.hist.epoch));
    GoneAppend(s.hist.departures, Departure(p, Sent(now), s.hist.epoch));
    var g, q := Gone(s.hist.departures), s.pacer.queue;
    assert (g + q) + [p] == g + (q + [p]);
    assert q == [] ==> g + [p] + [] == (g + q) + [p];
  }

  lemma EmitConserves(c: Config, sh: Shared, s: Slot, src: Bytes, dst: Bytes, callInfo: byte, pt: byte,
                      payload: Bytes, now: Time)
    requires PacerInv(c, s.pacer, s.hist.offers, s.hist.departures)
    ensures Kept(c, s, Emit(c, sh, s, src, dst, callInfo, pt, payload, now))
  {
    hide PacerInv, Paced, Submit;
    var p := NewPacket(c, sh, s.inb, src, dst, callInfo, pt, payload);
    SubmitConserves(c, s.(inb := s.inb.(rtpSeq := (s.inb.rtpSeq + 1) % 0x1_0000,
                                        rtpTs := (s.inb.rtpTs + 480) % 0x1_0000_0000)), p, now);
  }

  lemma {:induction false} HeadsConserve(c: Config, ts: Timeslot, sh: Shared, s: Slot, lc: Bytes, src: Bytes,
                                         dst: Bytes, n: nat, now: Time)
    requires PacerInv(c, s.pacer, s.hist.offers, s.hist.departures)
    ensures Kept(c, s, EmitHeads(c, ts, sh, s, lc, src, dst, n, now))
  {
    hide PacerInv, Paced, Emit;
    if n > 0 {
      HeadsConserve(c, ts, sh, s, lc, src, dst, n - 1, now);
      EmitConserves(c, sh, EmitHeads(c, ts, sh, s, lc, src, dst, n - 1, now), src, dst, CallInfo(ts, false),
                    if n == 1 then PT_FIRST_HEAD else PT_VOICE, LcGvPayload(c.dmr, VOICE_HEAD, lc), now);
    }
  }

  lemma StartConserves(c: Config, ts: Timeslot, sh: Shared, s: Slot, src: Bytes, dst: Bytes, now: Time)
    requires PacerInv(c, s.pacer, s.hist.offers, s.hist.departures)
    ensures Kept(c, s, EmitStart(c, ts, sh, s, src, dst, now))
  {
    hide PacerInv, Paced, EmitHeads;
    HeadsConserve(c, ts, sh, s, OrElse(s.inb.lc, c.dmr.lcOpt + dst + src), src, dst, c.Heads(), now);
  }

  lemma HbpForwardConserves(c: Config, ts: Timeslot, r: Res, b: Burst, now: Time, seq0: nat, ts0: nat)
    requires PacerInv(c, r.s.pacer, r.s.hist.offers, r.s.hist.departures) && |b.payload| == 33
    ensures Kept(c, r.s, HbpForward(c, ts, r, b, now, seq0, ts0).s)
  {
    hide PacerInv, Paced, Emit, EmitStart, Extract, VoiceGvPayload, LcGvPayload, DecodeLc;
    var i := r.s.inb;
    if IsHead(b.flags) {
      var s := if i.hbpStream.Some? && i.lc.Some? && i.started then ResetInbound(r.s) else r.s;
      var r := OpenInbound(c, ts, r.(s := s), DecodeLc(c.dmr, b.payload), b, now, seq0, ts0);
      StartConserves(c, ts, r.sh, r.s, b.src, b.dst, now);
    } else if IsTerm(b.flags) {
      EmitConserves(c, r.sh, r.s, b.src, b.dst, CallInfo(ts, true), PT_TERM,
                    LcGvPayload(c.dmr, VOICE_TERM, OrElse(i.lc, c.dmr.lcOpt + b.dst + b.src)), now);
    } else {
      var r := HbpLateEntry(c, ts, r, b, now, seq0, ts0);
      var s := EmitStart(c, ts, r.sh, r.s, b.src, b.dst, now);
      StartConserves(c, ts, r.sh, r.s, b.src, b.dst, now);
      EmitConserves(c, r.sh, s, b.src, b.dst, CallInfo(ts, false), PT_VOICE,
                    VoiceGvPayload(c.dmr, ts, s.inb, b, Extract(c.dmr, b.payload)), now);
    }
  }

  /** One more departure, no earlier than the cooldown allows, that starts a new cooldown. */
  lemma PacedAppend(c: Config, p: Pacer, d: seq<Departure>, epoch: nat, x: Departure, p': Pacer)
    requires Paced(c, p, d, epoch)
    requires x.epoch == epoch && !x.fate.Cleared? && At(x) >= p.nextAt - 1000
    requires p'.nextAt >= At(x) + c.Interval()
    requires p'.handle.Some? ==> p'.handle.value >= p'.nextAt - 1000
    ensures Paced(c, p', d + [x], epoch)
  {
    var d' := d + [x];
    forall k | 0 < k < |d'| ensures Spaced(c, d'[k - 1], d'[k]) {
      assert k < |d| ==> Spaced(c, d[k - 1], d[k]);
    }
  }

  lemma DrainConserves(c: Config, s: Slot, now: Time, later: Time)
    requires PacerInv(c, s.pacer, s.hist.offers, s.hist.departures)
    ensures var s' := Drain(c, s, now, later);
      && PacerInv(c, s'.pacer, s'.hist.offers, s'.hist.departures)
      && (s.pacer.handle.Some? && s.pacer.handle.value <= now <= later ==> Kept(c, s, s'))
  {
    hide Paced, Taken, Gone, SlotBusy, RememberSent;
    if s.pacer.queue != [] {
      var p, d, epoch := s.pacer.queue[0], s.hist.departures, s.hist.epoch;
      GoneAppend(d, Departure(p, Busy(now), epoch));
      GoneAppend(d, Departure(p, Sent(now), epoch));
      assert Gone(d) + s.pacer.queue == (Gone(d) + [p]) + s.pacer.queue[1..];
      var p' := Drain(c, s, now, later).pacer;
      if Paced(c, s.pacer, d, epoch) && s.pacer.handle.Some? && s.pacer.handle.value <= now <= later {
        PacedHandle(c, s);
        PacedAppend(c, s.pacer, d, epoch, Departure(p, Busy(now), epoch), p');
        PacedAppend(c, s.pacer, d, epoch, Departure(p, Sent(now), epoch), p');
      }
    }
  }

  lemma PacedHandle(c: Config, s: Slot)
    requires Paced(c, s.pacer, s.hist.departures, s.hist.epoch) && s.pacer.handle.Some?
    ensures s.pacer.handle.value >= s.pacer.nextAt - 1000
  {
  }

  lemma ClearConserves(c: Config, s: Slot)
    requires PacerInv(c, s.pacer, s.hist.offers, s.hist.departures)
    ensures Kept(c, s, ClearQueue(s))
  {
    var d, q := s.hist.departures, s.pacer.queue;
    assert Gone(d + ClearedDepartures(q, s.hist.epoch)) == Gone(d) + q;
  }

  /** If the event is this slot's drain, it is not early. */
  predicate Due(ts: Timeslot, s: Slot, e: Event) {
    e.DrainFires? && e.ts == ts && s.pacer.handle.Some? ==> s.pacer.handle.value <= e.now <= e.later
  }

  lemma StepConserves(c: Config, ts: Timeslot, r: Res, e: Event)
    requires PacerInv(c, r.s.pacer, r.s.hist.offers, r.s.hist.departures)
    ensures var s' := SlotStep(c, ts, r, e).s;
      && PacerInv(c, s'.pacer, s'.hist.offers, s'.hist.departures)
      && (Due(ts, r.s, e) ==> Kept(c, r.s, s'))
  {
    hide HbpForward, HbpGate, IpscGate, IpscForward, Drain, ClearQueue, PacerInv, Paced;
    match e
    case HbpPacket(dmrd, up, now, seq0, ts0) =>
      if |dmrd| >= DMRD_LEN {
        var b := ParseDmrd(dmrd);
        HbpGateFrame(c, r.s, b, now);
        HbpForwardConserves(c, ts, r.(s := HbpGate(c, r.s, b, now).s), b, now, seq0, ts0);
      }
    case IpscPacket(_, data, burst, _, now, nonce) =>
      IpscGateFrame(c, r.s, data, burst, now);
      IpscForwardFrame(c, ts, Res(Learn(r.sh, data), IpscGate(c, r.s, data, burst, now).s), data, burst, now, nonce);
    case DrainFires(_, now, later) => DrainConserves(c, r.s, now, later);
    case Watchdog(_) =>
    case PeerLost(_) => ClearConserves(c, r.s);
    case HbpLost(_) => ClearConserves(c, r.s);
  }

  /** On every run and slot. */
  lemma {:induction false} PacerAlways(c: Config, evs: seq<Event>, ts: Timeslot)
    ensures var s := Run(c, evs).At(ts); PacerInv(c, s.pacer, s.hist.offers, s.hist.departures)
  {
    hide SlotStep;
    if evs != [] {
      var st, e := Run(c, evs[..|evs| - 1]), evs[|evs| - 1];
      PacerAlways(c, evs[..|evs| - 1], ts);
      StepConserves(c, ts, Res(if ts.TS1? then st.sh else SlotStep(c, TS1, Res(st.sh, st.one), e).sh, st.At(ts)), e);
    }
  }

  lemma {:induction false} TakenCount(o: seq<Offer>)
    ensures |Taken(o)| + Refused(o) == |o|
  {
    if o != [] {
      TakenCount(o[..|o| - 1]);
    }
  }

  lemma {:induction false} FatesPartition(d: seq<Departure>)
    ensures var t := TallyOf(d); t.sent + t.busy + t.cleared == |d|
  {
    if d != [] {
      FatesPartition(d[..|d| - 1]);
    }
  }

  /** generated = transmitted + busy-dropped + cleared + overflow-dropped + still queued. */
  lemma GeneratedIsAccountedFor(c: Config, evs: seq<Event>, ts: Timeslot)
    ensures var s := Run(c, evs).At(ts);
      var t := TallyOf(s.hist.departures);
      |s.hist.offers| == t.sent + t.busy + t.cleared + Refused(s.hist.offers) + |s.pacer.queue|
  {
    PacerAlways(c, evs, ts);
    var s := Run(c, evs).At(ts);
    TakenCount(s.hist.offers);
    FatesPartition(s.hist.departures);
    assert |Gone(s.hist.departures) + s.pacer.queue| == |s.hist.departures| + |s.pacer.queue|;
  }

  // ------------------------------------------------------------------
  // Pacing
  // ------------------------------------------------------------------

  lemma {:induction false} PacedAlways(c: Config, evs: seq<Event>, ts: Timeslot)
    requires c.pacing && Legal(c, evs)
    ensures var s := Run(c, evs).At(ts); Paced(c, s.pacer, s.hist.departures, s.hist.epoch)
  {
    hide SlotStep;
    if evs != [] {
      var pre, e := evs[..|evs| - 1], evs[|evs| - 1];
      var st := Run(c, pre);
      PacedAlways(c, pre, ts);
      PacerAlways(c, pre, ts);
      StepConserves(c, ts, Res(if ts.TS1? then st.sh else SlotStep(c, TS1, Res(st.sh, st.one), e).sh, st.At(ts)), e);
    }
  }

  lemma {:induction false} SpacingAdds(c: Config, s: Slot, i: nat, j: nat)
    requires Paced(c, s.pacer, s.hist.departures, s.hist.epoch) && i <= j < |s.hist.departures|
    requires s.hist.departures[i].epoch == s.hist.departures[j].epoch && !s.hist.departures[j].fate.Cleared?
    ensures var d := s.hist.departures;
      !d[i].fate.Cleared? && At(d[j]) - At(d[i]) >= (j - i) * Spacing(c)
    decreases j - i
  {
    var d := s.hist.departures;
    if i < j {
      EpochsRise(c, s, i, j - 1);
      assert Spaced(c, d[j - 1], d[j]);
      SpacingAdds(c, s, i, j - 1);
      assert (j - i) * Spacing(c) == (j - 1 - i) * Spacing(c) + Spacing(c);
    }
  }

  lemma {:induction false} EpochsRise(c: Config, s: Slot, i: nat, j: nat)
    requires Paced(c, s.pacer, s.hist.departures, s.hist.epoch) && i <= j < |s.hist.departures|
    ensures s.hist.departures[i].epoch <= s.hist.departures[j].epoch
    decreases j - i
  {
    if i < j {
      EpochsRise(c, s, i, j - 1);
      assert Spaced(c, s.hist.departures[j - 1], s.hist.departures[j]);
    }
  }

  /**
   Main result: on every real-time run, transmissions i and j of one epoch (no queue clear
   between them) are at least j - i spacings apart, so a window of length w holds at most
   w / spacing + 1 of them.
   */
  lemma PacingBound(c: Config, evs: seq<Event>, ts: Timeslot, i: nat, j: nat, w: nat)
    requires c.pacing && Legal(c, evs)
    requires i <= j < |Run(c, evs).At(ts).hist.departures|
    requires var d := Run(c, evs).At(ts).hist.departures; d[i].epoch == d[j].epoch && !d[j].fate.Cleared?
    ensures var d := Run(c, evs).At(ts).hist.departures;
      && !d[i].fate.Cleared?
      && At(d[j]) - At(d[i]) >= (j - i) * Spacing(c)
      && (At(d[j]) - At(d[i]) <= w ==> j - i + 1 <= w / Spacing(c) + 1)
  {
    hide Step, Legal, Paced;
    PacedAlways(c, evs, ts);
    SpacingAdds(c, Run(c, evs).At(ts), i, j);
    var span := At(Run(c, evs).At(ts).hist.departures[j]) - At(Run(c, evs).At(ts).hist.departures[i]);
    if span <= w {
      DivBound(j - i, Spacing(c), w);
    }
  }

  lemma DivBound(n: nat, k: int, w: nat)
    requires k > 0 && n * k <= w
    ensures n <= w / k
  {
    var q := w / k;
    assert w < (q + 1) * k;
    assert n * k < (q + 1) * k;
  }
}
