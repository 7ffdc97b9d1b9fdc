/** Which pieces of a call's state exist together, on every run. */
module CallShape {
  import opened Prelude
  import opened Wire
  import opened AmbeCodec
  import opened Packets
  import opened CallModel
  import opened Frames

  ghost predicate OutShape(o: Outbound) {
    && (o.stream.Some? <==> o.lc.Some?)
    && (o.stream.Some? <==> o.embLc.Some?)
  }

  ghost predicate InShape(i: Inbound) {
    && (i.lc.Some? <==> i.embLc.Some?)
    && (i.lc.Some? <==> i.hbpStream.Some?)
    && (i.lc.Some? <==> i.src.Some?)
    && (i.lc.Some? <==> i.dst.Some?)
    && (i.started ==> i.lc.Some?)
  }

  /** A call's pieces are all set or all unset, and a started inbound call is a set one. */
  ghost predicate Shape(s: Slot) {
    OutShape(s.out) && InShape(s.inb)
  }

  lemma ShapeHbpHead(c: Config, ts: Timeslot, r: Res, b: Burst, now: Time, seq0: nat, ts0: nat)
    requires Shape(r.s) && |b.payload| == 33
    ensures Shape(HbpHead(c, ts, r, b, now, seq0, ts0).s)
  {
    hide EmitStart, DecodeLc;
    var i := r.s.inb;
    var s := if i.hbpStream.Some? && i.lc.Some? && i.started then ResetInbound(r.s) else r.s;
    var r := OpenInbound(c, ts, r.(s := s), DecodeLc(c.dmr, b.payload), b, now, seq0, ts0);
    EmitStartFrame(c, ts, r.sh, r.s, b.src, b.dst, now);
  }

  lemma ShapeHbpVoiceBurst(c: Config, ts: Timeslot, r: Res, b: Burst, now: Time, seq0: nat, ts0: nat)
    requires Shape(r.s) && |b.payload| == 33
    ensures Shape(HbpVoiceBurst(c, ts, r, b, now, seq0, ts0).s)
  {
    hide Emit, EmitStart, Extract, VoiceGvPayload;
    var r := HbpLateEntry(c, ts, r, b, now, seq0, ts0);
    var s := EmitStart(c, ts, r.sh, r.s, b.src, b.dst, now);
    EmitStartFrame(c, ts, r.sh, r.s, b.src, b.dst, now);
    EmitFrame(c, r.sh, s, b.src, b.dst, CallInfo(ts, false), PT_VOICE,
              VoiceGvPayload(c.dmr, ts, s.inb, b, Extract(c.dmr, b.payload)), now);
  }

  lemma ShapeHbpTerm(c: Config, ts: Timeslot, r: Res, b: Burst, now: Time)
    requires Shape(r.s)
    ensures Shape(HbpTerm(c, ts, r, b, now).s)
  {
    hide Emit, LcGvPayload;
    EmitFrame(c, r.sh, r.s, b.src, b.dst, CallInfo(ts, true), PT_TERM,
              LcGvPayload(c.dmr, VOICE_TERM, OrElse(r.s.inb.lc, c.dmr.lcOpt + b.dst + b.src)), now);
  }

  lemma ShapeHbpVoice(c: Config, ts: Timeslot, r: Res, b: Burst, now: Time, seq0: nat, ts0: nat)
    requires Shape(r.s) && |b.payload| == 33
    ensures Shape(HbpVoice(c, ts, r, b, now, seq0, ts0).s)
  {
    hide HbpGate, HbpHead, HbpTerm, HbpVoiceBurst;
    HbpGateFrame(c, r.s, b, now);
    var r := r.(s := HbpGate(c, r.s, b, now).s);
    ShapeHbpHead(c, ts, r, b, now, seq0, ts0);
    ShapeHbpTerm(c, ts, r, b, now);
    ShapeHbpVoiceBurst(c, ts, r, b, now, seq0, ts0);
  }

  lemma ShapeIpscHead(c: Config, ts: Timeslot, r: Res, src: Bytes, dst: Bytes, nonce: Bytes)
    requires Shape(r.s)
    ensures Shape(IpscHead(c, ts, r, src, dst, nonce).s)
  {
    hide HeadPayload;
  }

  lemma ShapeIpscTerm(c: Config, ts: Timeslot, r: Res, src: Bytes, dst: Bytes, now: Time)
    requires Shape(r.s)
    ensures Shape(IpscTerm(c, ts, r, src, dst, now).s)
  {
    hide TermPayload;
  }

  lemma ShapeIpscBurst(c: Config, ts: Timeslot, r: Res, data: Bytes, src: Bytes, dst: Bytes, nonce: Bytes)
    requires Shape(r.s)
    ensures Shape(IpscVoiceBurst(c, ts, r, data, src, dst, nonce).s)
  {
    hide Assemble, EmbedField;
  }

  lemma ShapeIpscVoice(c: Config, ts: Timeslot, r: Res, data: Bytes, burst: byte, now: Time, nonce: Bytes)
    requires Shape(r.s)
    ensures Shape(IpscVoice(c, ts, r, data, burst, now, nonce).s)
  {
    hide IpscGate, IpscHead, IpscTerm, IpscVoiceBurst;
    IpscGateFrame(c, r.s, data, burst, now);
    var src, dst := Slice(data, 6, 9), Slice(data, 9, 12);
    var r := Res(Learn(r.sh, data), IpscGate(c, r.s, data, burst, now).s);
    ShapeIpscHead(c, ts, r, src, dst, nonce);
    ShapeIpscTerm(c, ts, r, src, dst, now);
    ShapeIpscBurst(c, ts, r, data, src, dst, nonce);
  }

  lemma ShapeStep(c: Config, ts: Timeslot, r: Res, e: Event)
    requires Shape(r.s)
    ensures Shape(SlotStep(c, ts, r, e).s)
  {
    hide HbpVoice, IpscVoice, Drain;
    match e
    case HbpPacket(dmrd, up, now, seq0, ts0) =>
      if |dmrd| >= DMRD_LEN {
        ShapeHbpVoice(c, ts, r, ParseDmrd(dmrd), now, seq0, ts0);
      }
    case IpscPacket(_, data, burst, _, now, nonce) => ShapeIpscVoice(c, ts, r, data, burst, now, nonce);
    case DrainFires(_, now, later) => DrainFrame(c, r.s, now, later);
    case _ =>
  }

  /** On every run, on both slots. */
  lemma {:induction false} ShapeAlways(c: Config, evs: seq<Event>, ts: Timeslot)
    ensures Shape(Run(c, evs).At(ts))
  {
    hide SlotStep;
    if evs != [] {
      var st, e := Run(c, evs[..|evs| - 1]), evs[|evs| - 1];
      ShapeAlways(c, evs[..|evs| - 1], TS1);
      ShapeAlways(c, evs[..|evs| - 1], TS2);
      ShapeStep(c, TS1, Res(st.sh, st.one), e);
      ShapeStep(c, TS2, Res(SlotStep(c, TS1, Res(st.sh, st.one), e).sh, st.two), e);
    }
  }
}
