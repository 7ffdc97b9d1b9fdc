/** Every packet generated towards IPSC has its fields in the sizes the wire form gives them. */
module GvSizes {
  import opened Prelude
  import opened Wire
  import opened AmbeCodec
  import opened Packets
  import opened CallModel
  import opened Frames
  import opened Runs

  predicate SharedSized(sh: Shared) {
    |sh.callType| == 1 && |sh.callCtrl| == 4
  }

  /** The packets generated after the first n are well sized and name this bridge as their source. */
  predicate OffersSized(c: Config, o: seq<Offer>, n: nat) {
    forall j :: n <= j < |o| ==> o[j].packet.WellSized() && o[j].packet.source == c.sourceId
  }

  lemma EmitSized(c: Config, sh: Shared, s: Slot, src: Bytes, dst: Bytes, callInfo: byte, pt: byte, payload: Bytes,
                  now: Time, n: nat)
    requires |c.sourceId| == 4 && SharedSized(sh) && OffersSized(c, s.hist.offers, n)
    requires |src| == |dst| == 3 && payload != []
    ensures OffersSized(c, Emit(c, sh, s, src, dst, callInfo, pt, payload, now).hist.offers, n)
  {
    hide SlotBusy, RememberSent;
  }

  lemma LcPayloadIsSome(d: Dmr, burst: byte, lc: Bytes)
    ensures LcGvPayload(d, burst, lc) != []
  {
  }

  lemma VoicePayloadIsSome(d: Dmr, ts: Timeslot, i: Inbound, b: Burst, ambe: Bytes)
    ensures VoiceGvPayload(d, ts, i, b, ambe) != []
  {
    hide ToBytes, Fragment, ByteOfBits, EmbWord;
  }

  lemma {:induction false} HeadsSized(c: Config, ts: Timeslot, sh: Shared, s: Slot, lc: Bytes, src: Bytes, dst: Bytes,
                                      k: nat, now: Time, n: nat)
    requires |c.sourceId| == 4 && SharedSized(sh) && OffersSized(c, s.hist.offers, n) && |src| == |dst| == 3
    ensures OffersSized(c, EmitHeads(c, ts, sh, s, lc, src, dst, k, now).hist.offers, n)
  {
    hide Emit, LcGvPayload;
    if k > 0 {
      HeadsSized(c, ts, sh, s, lc, src, dst, k - 1, now, n);
      LcPayloadIsSome(c.dmr, VOICE_HEAD, lc);
      EmitSized(c, sh, EmitHeads(c, ts, sh, s, lc, src, dst, k - 1, now), src, dst, CallInfo(ts, false),
                if k == 1 then PT_FIRST_HEAD else PT_VOICE, LcGvPayload(c.dmr, VOICE_HEAD, lc), now, n);
    }
  }

  lemma StartSized(c: Config, ts: Timeslot, sh: Shared, s: Slot, src: Bytes, dst: Bytes, now: Time, n: nat)
    requires |c.sourceId| == 4 && SharedSized(sh) && OffersSized(c, s.hist.offers, n) && |src| == |dst| == 3
    ensures OffersSized(c, EmitStart(c, ts, sh, s, src, dst, now).hist.offers, n)
  {
    hide EmitHeads, OffersSized;
    HeadsSized(c, ts, sh, s, OrElse(s.inb.lc, c.dmr.lcOpt + dst + src), src, dst, c.Heads(), now, n);
    OffersSizedIs(c, s, EmitHeads(c, ts, sh, s, OrElse(s.inb.lc, c.dmr.lcOpt + dst + src), src, dst, c.Heads(), now),
      n);
  }

  lemma OffersSizedIs(c: Config, s: Slot, s': Slot, n: nat)
    ensures OffersSized(c, s'.hist.offers, n) <==> OffersSized(c, s'.(inb := s'.inb.(started := true)).hist.offers, n)
  {
  }

  lemma ForwardSized(c: Config, ts: Timeslot, r: Res, b: Burst, now: Time, seq0: nat, ts0: nat, n: nat)
    requires |c.sourceId| == 4 && SharedSized(r.sh) && OffersSized(c, r.s.hist.offers, n)
    requires |b.src| == |b.dst| == 3 && |b.payload| == 33
    ensures OffersSized(c, HbpForward(c, ts, r, b, now, seq0, ts0).s.hist.offers, n)
  {
    hide Emit, EmitStart, OffersSized, LcGvPayload, VoiceGvPayload, Extract, DecodeLc;
    if IsHead(b.flags) {
      var i := r.s.inb;
      var s := if i.hbpStream.Some? && i.lc.Some? && i.started then ResetInbound(r.s) else r.s;
      var q := OpenInbound(c, ts, r.(s := s), DecodeLc(c.dmr, b.payload), b, now, seq0, ts0);
      StartSized(c, ts, q.sh, q.s, b.src, b.dst, now, n);
    } else if IsTerm(b.flags) {
      var lc := OrElse(r.s.inb.lc, c.dmr.lcOpt + b.dst + b.src);
      LcPayloadIsSome(c.dmr, VOICE_TERM, lc);
      EmitSized(c, r.sh, r.s, b.src, b.dst, CallInfo(ts, true), PT_TERM, LcGvPayload(c.dmr, VOICE_TERM, lc), now, n);
    } else {
      var q := HbpLateEntry(c, ts, r, b, now, seq0, ts0);
      var s := EmitStart(c, ts, q.sh, q.s, b.src, b.dst, now);
      StartSized(c, ts, q.sh, q.s, b.src, b.dst, now, n);
      var payload := VoiceGvPayload(c.dmr, ts, s.inb, b, Extract(c.dmr, b.payload));
      VoicePayloadIsSome(c.dmr, ts, s.inb, b, Extract(c.dmr, b.payload));
      EmitSized(c, q.sh, s, b.src, b.dst, CallInfo(ts, false), PT_VOICE, payload, now, n);
    }
  }

  lemma StepSized(c: Config, ts: Timeslot, r: Res, e: Event, n: nat)
    requires |c.sourceId| == 4 && SharedSized(r.sh) && OffersSized(c, r.s.hist.offers, n)
    ensures SharedSized(SlotStep(c, ts, r, e).sh) && OffersSized(c, SlotStep(c, ts, r, e).s.hist.offers, n)
  {
    hide HbpGate, HbpForward, IpscGate, IpscForward, Drain, OffersSized;
    match e
    case IpscPacket(_, data, burst, _, now, nonce) =>
      IpscGateFrame(c, r.s, data, burst, now);
      IpscForwardFrame(c, ts, Res(Learn(r.sh, data), IpscGate(c, r.s, data, burst, now).s), data, burst, now, nonce);
    case HbpPacket(dmrd, _, now, seq0, ts0) =>
      if HbpHeard(e, ts) {
        var b := ParseDmrd(dmrd);
        HbpGateFrame(c, r.s, b, now);
        var q := r.(s := HbpGate(c, r.s, b, now).s);
        ForwardSized(c, ts, q, b, now, seq0, ts0, n);
        HbpForwardFrame(c, ts, q, b, now, seq0, ts0);
      }
    case DrainFires(_, now, later) => DrainFrame(c, r.s, now, later);
    case _ =>
  }

  ghost predicate Sized(c: Config, st: State, ts: Timeslot, n: nat) {
    SharedSized(st.sh) && OffersSized(c, st.At(ts).hist.offers, n)
  }

  lemma StateSized(c: Config, st: State, e: Event, ts: Timeslot, n: nat)
    requires |c.sourceId| == 4 && Sized(c, st, ts, n)
    ensures Sized(c, Step(c, st, e), ts, n)
  {
    hide SlotStep, OffersSized;
    var r1 := SlotStep(c, TS1, Res(st.sh, st.one), e);
    var r2 := SlotStep(c, TS2, Res(r1.sh, st.two), e);
    NoneSized(c, st.one);
    NoneSized(c, st.two);
    StepSized(c, TS1, Res(st.sh, st.one), e, if ts.TS1? then n else |st.one.hist.offers|);
    StepSized(c, TS2, Res(r1.sh, st.two), e, if ts.TS2? then n else |st.two.hist.offers|);
  }

  lemma NoneSized(c: Config, s: Slot)
    ensures OffersSized(c, s.hist.offers, |s.hist.offers|)
  {
  }

  /** Main result: every packet ever generated is well sized. */
  lemma {:induction false} SizedAlways(c: Config, evs: seq<Event>, ts: Timeslot)
    requires |c.sourceId| == 4
    ensures Sized(c, Run(c, evs), ts, 0)
  {
    hide Step;
    if evs != [] {
      SizedAlways(c, evs[..|evs| - 1], ts);
      StateSized(c, Run(c, evs[..|evs| - 1]), evs[|evs| - 1], ts, 0);
    }
  }
}
