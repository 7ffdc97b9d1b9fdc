/** What each stage of a handler may change; everything else is carried over. */
module Frames {
  import opened Prelude
  import opened Wire
  import opened AmbeCodec
  import opened Packets
  import opened CallModel

  lemma LockGateFrame(c: Config, s: Slot, dir: Direction, key: StreamKey, src: Bytes, dst: Bytes, isEnd: bool,
                      now: Time)
    ensures var g := LockGate(c, s, dir, key, src, dst, isEnd, now);
      && g.s == s.(lock := g.s.lock)
      && (g.s.lock.until == s.lock.until || g.s.lock.until == 0)
      && (g.s.lock.owner == s.lock.owner || g.s.lock.owner == Some(dir))
  {
  }

  lemma ReflectGateFrame(c: Config, s: Slot, key: StreamKey, burst: byte, src: Bytes, dst: Bytes, now: Time)
    ensures var g := ReflectGate(c, s, key, burst, src, dst, now); g.s == s.(reflect := g.s.reflect)
  {
  }

  /** The legacy gate may close the outbound call (on a new stream's header) and start its hang time. */
  lemma LegacyGateFrame(c: Config, s: Slot, key: StreamKey, burst: byte, now: Time)
    ensures var g := LegacyGate(c, s, key, burst, now);
      && g.s == s.(out := g.s.out, lock := s.lock.(until := g.s.lock.until))
      && (g.s.lock.until == s.lock.until || (s.lock.owner == Some(FromIpsc) && g.s.lock.until == now + c.Hang()))
      && (|| g.s.out == s.out.(ipscByte := g.s.out.ipscByte)
          || (c.legacy && burst == VOICE_HEAD
              && g.s.out == s.out.(stream := None, lc := None, embLc := None, ipscByte := g.s.out.ipscByte)))
  {
  }

  /** Submitting a packet leaves both calls and the lock alone. */
  lemma SubmitFrame(c: Config, s: Slot, p: Gv, now: Time)
    ensures var s' := Submit(c, s, p, now);
      s' == s.(pacer := s'.pacer, reflect := s.reflect.(recent := s'.reflect.recent),
               hist := s.hist.(offers := s'.hist.offers, departures := s'.hist.departures))
  {
  }

  lemma EmitFrame(c: Config, sh: Shared, s: Slot, src: Bytes, dst: Bytes, callInfo: byte, pt: byte, payload: Bytes,
                  now: Time)
    ensures var s' := Emit(c, sh, s, src, dst, callInfo, pt, payload, now);
      s' == s.(pacer := s'.pacer, reflect := s.reflect.(recent := s'.reflect.recent),
               hist := s.hist.(offers := s'.hist.offers, departures := s'.hist.departures),
               inb := s.inb.(rtpSeq := (s.inb.rtpSeq + 1) % 0x1_0000, rtpTs := (s.inb.rtpTs + 480) % 0x1_0000_0000))
  {
    hide Submit;
    var p := NewPacket(c, sh, s.inb, src, dst, callInfo, pt, payload);
    SubmitFrame(c, s.(inb := s.inb.(rtpSeq := (s.inb.rtpSeq + 1) % 0x1_0000,
                                    rtpTs := (s.inb.rtpTs + 480) % 0x1_0000_0000)), p, now);
  }

  lemma {:induction false} EmitHeadsFrame(c: Config, ts: Timeslot, sh: Shared, s: Slot, lc: Bytes, src: Bytes,
                                          dst: Bytes, n: nat, now: Time)
    ensures var s' := EmitHeads(c, ts, sh, s, lc, src, dst, n, now);
      s' == s.(pacer := s'.pacer, reflect := s.reflect.(recent := s'.reflect.recent),
               hist := s.hist.(offers := s'.hist.offers, departures := s'.hist.departures),
               inb := s.inb.(rtpSeq := s'.inb.rtpSeq, rtpTs := s'.inb.rtpTs))
  {
    hide Emit;
    if n > 0 {
      EmitHeadsFrame(c, ts, sh, s, lc, src, dst, n - 1, now);
      EmitFrame(c, sh, EmitHeads(c, ts, sh, s, lc, src, dst, n - 1, now), src, dst, CallInfo(ts, false),
                if n == 1 then PT_FIRST_HEAD else PT_VOICE, LcGvPayload(c.dmr, VOICE_HEAD, lc), now);
    }
  }

  lemma EmitStartFrame(c: Config, ts: Timeslot, sh: Shared, s: Slot, src: Bytes, dst: Bytes, now: Time)
    ensures var s' := EmitStart(c, ts, sh, s, src, dst, now);
      s' == s.(pacer := s'.pacer, reflect := s.reflect.(recent := s'.reflect.recent),
               hist := s.hist.(offers := s'.hist.offers, departures := s'.hist.departures),
               inb := s.inb.(rtpSeq := s'.inb.rtpSeq, rtpTs := s'.inb.rtpTs, started := true))
  {
    hide EmitHeads;
    EmitHeadsFrame(c, ts, sh, s, OrElse(s.inb.lc, c.dmr.lcOpt + dst + src), src, dst, c.Heads(), now);
  }

  /** A drain touches the pacer, the sent memory and, when the queue empties, the hang time. */
  lemma DrainFrame(c: Config, s: Slot, now: Time, later: Time)
    ensures var s' := Drain(c, s, now, later);
      && s' == s.(pacer := s'.pacer, reflect := s.reflect.(recent := s'.reflect.recent),
        lock := s.lock.(until := s'.lock.until), hist := s.hist.(departures := s'.hist.departures))
      && (|| s'.lock.until == s.lock.until
          || (s.lock.owner == Some(FromHbp)
              && s'.lock.until == (if s.pacer.queue == [] then now else later) + c.Hang()))
  {
  }

  /** The IPSC gates touch the outbound call, the lock, the reflection memory and the busy time. */
  lemma IpscGateFrame(c: Config, s: Slot, data: Bytes, burst: byte, now: Time)
    ensures var g := IpscGate(c, s, data, burst, now);
      && g.s == s.(out := g.s.out, lock := g.s.lock, reflect := g.s.reflect, busyLast := g.s.busyLast)
      && (|| g.s.lock.until == s.lock.until || g.s.lock.until == 0
          || (s.lock.owner == Some(FromIpsc) && g.s.lock.until == now + c.Hang()))
      && (g.s.lock.owner == s.lock.owner || g.s.lock.owner == Some(FromIpsc))
      && (|| g.s.out == s.out.(lastPkt := now, ipscByte := g.s.out.ipscByte)
          || (c.legacy && burst == VOICE_HEAD
              && g.s.out == s.out.(lastPkt := now, stream := None, lc := None, embLc := None,
                                   ipscByte := g.s.out.ipscByte)))
  {
    hide LegacyGate, LockGate, ReflectGate;
    var src, dst, key := Slice(data, 6, 9), Slice(data, 9, 12), IpscKeyOf(data);
    var s := s.(out := s.out.(lastPkt := now));
    LegacyGateFrame(c, s, key, burst, now);
    var g := LegacyGate(c, s, key, burst, now);
    LockGateFrame(c, g.s, FromIpsc, key, src, dst, burst == VOICE_TERM, now);
    g := LockGate(c, g.s, FromIpsc, key, src, dst, burst == VOICE_TERM, now);
    ReflectGateFrame(c, g.s, key, burst, src, dst, now);
  }

  /** Forwarding an IPSC packet touches the outbound call, the hang time and the frames sent. */
  lemma IpscForwardFrame(c: Config, ts: Timeslot, r: Res, data: Bytes, burst: byte, now: Time, nonce: Bytes)
    ensures var r' := IpscForward(c, ts, r, data, burst, now, nonce);
      && r'.s == r.s.(out := r'.s.out, lock := r.s.lock.(until := r'.s.lock.until),
                      hist := r.s.hist.(frames := r'.s.hist.frames))
      && r'.s.out.lastPkt == r.s.out.lastPkt
      && (r'.s.lock.until == r.s.lock.until || (r.s.lock.owner == Some(FromIpsc) && r'.s.lock.until == now + c.Hang()))
      && r'.sh == r.sh.(outSeq := r'.sh.outSeq, dmrds := r'.sh.dmrds)
  {
    hide Assemble, EmbedField, HeadPayload, TermPayload;
  }

  lemma HbpGateFrame(c: Config, s: Slot, b: Burst, now: Time)
    ensures var g := HbpGate(c, s, b, now);
      && g.s == s.(inb := s.inb.(lastPkt := now), lock := g.s.lock)
      && (g.s.lock.until == s.lock.until || g.s.lock.until == 0)
      && (g.s.lock.owner == s.lock.owner || g.s.lock.owner == Some(FromHbp))
  {
    hide LockGate;
    LockGateFrame(c, s.(inb := s.inb.(lastPkt := now)), FromHbp, HbpKey(b.stream), b.src, b.dst, IsTerm(b.flags), now);
  }

  /** Generating for an inbound call leaves the outbound call and its frames alone. */
  lemma HbpForwardFrame(c: Config, ts: Timeslot, r: Res, b: Burst, now: Time, seq0: nat, ts0: nat)
    requires |b.payload| == 33
    ensures var r' := HbpForward(c, ts, r, b, now, seq0, ts0);
      && r'.s == r.s.(inb := r'.s.inb, pacer := r'.s.pacer, reflect := r.s.reflect.(recent := r'.s.reflect.recent),
                      lock := r.s.lock.(until := r'.s.lock.until),
                      hist := r.s.hist.(offers := r'.s.hist.offers, departures := r'.s.hist.departures))
      && r'.s.inb.lastPkt == r.s.inb.lastPkt
      && (r'.s.lock.until == r.s.lock.until || (r.s.lock.owner == Some(FromHbp) && r'.s.lock.until == now + c.Hang()))
      && r'.sh == r.sh.(streamCtr := r'.sh.streamCtr, starts := r'.sh.starts)
  {
    hide Emit, EmitStart, Extract, VoiceGvPayload, LcGvPayload, DecodeLc;
    var i := r.s.inb;
    if IsHead(b.flags) {
      var s := if i.hbpStream.Some? && i.lc.Some? && i.started then ResetInbound(r.s) else r.s;
      var r := OpenInbound(c, ts, r.(s := s), DecodeLc(c.dmr, b.payload), b, now, seq0, ts0);
      EmitStartFrame(c, ts, r.sh, r.s, b.src, b.dst, now);
    } else if IsTerm(b.flags) {
      EmitFrame(c, r.sh, r.s, b.src, b.dst, CallInfo(ts, true), PT_TERM,
                LcGvPayload(c.dmr, VOICE_TERM, OrElse(i.lc, c.dmr.lcOpt + b.dst + b.src)), now);
    } else {
      var r := HbpLateEntry(c, ts, r, b, now, seq0, ts0);
      var s := EmitStart(c, ts, r.sh, r.s, b.src, b.dst, now);
      EmitStartFrame(c, ts, r.sh, r.s, b.src, b.dst, now);
      EmitFrame(c, r.sh, s, b.src, b.dst, CallInfo(ts, false), PT_VOICE,
                VoiceGvPayload(c.dmr, ts, s.inb, b, Extract(c.dmr, b.payload)), now);
    }
  }
}
