/**
 Slot non-interference: what one timeslot does and sends does not depend on the other slot's
 traffic, except for the DMRD sequence number, the stream byte and the learned call metadata,
 which the slots share.
 */
module NonInterference {
  import opened Prelude
  import opened Wire
  import opened AmbeCodec
  import opened Packets
  import opened CallModel

  /** Equal but for the stream byte and the call metadata. */
  predicate SameGv(p: Gv, q: Gv) {
    p.(streamByte := 0, callType := [], callCtrl := []) == q.(streamByte := 0, callType := [], callCtrl := [])
  }

  predicate SameQueue(p: seq<Gv>, q: seq<Gv>) {
    |p| == |q| && forall i :: 0 <= i < |p| ==> SameGv(p[i], q[i])
  }

  /** Equal but for the sequence number. */
  predicate SameDmrd(d: Dmrd, e: Dmrd) {
    d.(seqNo := 0) == e.(seqNo := 0)
  }

  predicate SameHistory(h: History, k: History) {
    && |h.frames| == |k.frames|
    && (forall i :: 0 <= i < |h.frames| ==> SameDmrd(h.frames[i], k.frames[i]))
    && |h.offers| == |k.offers|
    && (forall i :: 0 <= i < |h.offers| ==>
          h.offers[i].taken == k.offers[i].taken && SameGv(h.offers[i].packet, k.offers[i].packet))
    && |h.departures| == |k.departures|
    && (forall i :: 0 <= i < |h.departures| ==>
          && h.departures[i].fate == k.departures[i].fate && h.departures[i].epoch == k.departures[i].epoch
          && SameGv(h.departures[i].packet, k.departures[i].packet))
    && h.epoch == k.epoch
  }

  predicate SamePacer(p: Pacer, q: Pacer) {
    SameQueue(p.queue, q.queue) && p.handle == q.handle && p.nextAt == q.nextAt
  }

  predicate SameInbound(i: Inbound, j: Inbound) {
    i.(streamByte := 0) == j.(streamByte := 0)
  }

  /** Two slots alike in all but what the slots share. */
  predicate Alike(s: Slot, t: Slot) {
    && s.out == t.out && SameInbound(s.inb, t.inb) && s.lock == t.lock && SamePacer(s.pacer, t.pacer)
    && s.reflect == t.reflect && s.busyLast == t.busyLast && SameHistory(s.hist, t.hist)
  }

  lemma AlikeArbitrate(c: Config, s: Slot, t: Slot, dir: Direction, key: StreamKey, src: Bytes, dst: Bytes, now: Time)
    requires Alike(s, t)
    ensures var g, h := Arbitrate(c, s, dir, key, src, dst, now), Arbitrate(c, t, dir, key, src, dst, now);
      g.pass == h.pass && Alike(g.s, h.s)
  {
    hide SameHistory, SameGv, Remember, AcquireLock, ClearLock;
    assert LockActive(s, now) == LockActive(t, now);
  }

  lemma AlikeLockGate(c: Config, s: Slot, t: Slot, dir: Direction, key: StreamKey, src: Bytes, dst: Bytes,
                      isEnd: bool, now: Time)
    requires Alike(s, t)
    ensures var g, h := LockGate(c, s, dir, key, src, dst, isEnd, now), LockGate(c, t, dir, key, src, dst, isEnd, now);
      g.pass == h.pass && Alike(g.s, h.s)
  {
    hide Arbitrate, Prune, Remembers, Remember, Forget, SameHistory, SamePacer, SameInbound;
    var l := Prune(s.lock, now);
    AlikeArbitrate(c, s.(lock := l), t.(lock := l), dir, key, src, dst, now);
  }

  lemma AlikeIpscGate(c: Config, s: Slot, t: Slot, data: Bytes, burst: byte, now: Time)
    requires Alike(s, t)
    ensures var g, h := IpscGate(c, s, data, burst, now), IpscGate(c, t, data, burst, now);
      g.pass == h.pass && Alike(g.s, h.s)
  {
    hide LockGate, SameHistory, SamePacer;
    var src, dst, key := Slice(data, 6, 9), Slice(data, 9, 12), IpscKeyOf(data);
    var a := LegacyGate(c, s.(out := s.out.(lastPkt := now)), key, burst, now);
    var b := LegacyGate(c, t.(out := t.out.(lastPkt := now)), key, burst, now);
    assert a.pass == b.pass && Alike(a.s, b.s);
    AlikeLockGate(c, a.s, b.s, FromIpsc, key, src, dst, burst == VOICE_TERM, now);
    var a' := LockGate(c, a.s, FromIpsc, key, src, dst, burst == VOICE_TERM, now);
    var b' := LockGate(c, b.s, FromIpsc, key, src, dst, burst == VOICE_TERM, now);
    AlikeReflectGate(c, a'.s, b'.s, key, burst, src, dst, now);
  }

  lemma AlikeReflectGate(c: Config, s: Slot, t: Slot, key: StreamKey, burst: byte, src: Bytes, dst: Bytes, now: Time)
    requires Alike(s, t)
    ensures var g, h := ReflectGate(c, s, key, burst, src, dst, now), ReflectGate(c, t, key, burst, src, dst, now);
      g.pass == h.pass && Alike(g.s, h.s)
  {
    hide SameHistory, SamePacer;
  }

  lemma AlikeHbpGate(c: Config, s: Slot, t: Slot, b: Burst, now: Time)
    requires Alike(s, t)
    ensures var g, h := HbpGate(c, s, b, now), HbpGate(c, t, b, now);
      g.pass == h.pass && Alike(g.s, h.s)
  {
    hide LockGate, SameHistory;
    AlikeLockGate(c, s.(inb := s.inb.(lastPkt := now)), t.(inb := t.inb.(lastPkt := now)), FromHbp, HbpKey(b.stream),
                  b.src, b.dst, IsTerm(b.flags), now);
  }

  lemma AlikeSendDmrd(c: Config, ts: Timeslot, r: Res, q: Res, flags: byte, src: Bytes, dst: Bytes, payload: Bytes)
    requires Alike(r.s, q.s) && r.s.out.stream.Some?
    ensures Alike(SendDmrd(c, ts, r, flags, src, dst, payload).s, SendDmrd(c, ts, q, flags, src, dst, payload).s)
  {
  }

  lemma AlikeIpscForward(c: Config, ts: Timeslot, r: Res, q: Res, data: Bytes, burst: byte, now: Time, nonce: Bytes)
    requires Alike(r.s, q.s)
    ensures Alike(IpscForward(c, ts, r, data, burst, now, nonce).s, IpscForward(c, ts, q, data, burst, now, nonce).s)
  {
    hide SendDmrd, Assemble, EmbedField, HeadPayload, TermPayload, SameHistory, SamePacer, SameInbound;
    var src, dst := Slice(data, 6, 9), Slice(data, 9, 12);
    var o, lc := r.s.out, c.dmr.lcOpt + dst + src;
    if burst == VOICE_HEAD {
      var o' := o.(stream := if o.stream.Some? then o.stream else Some(nonce), framePos := 0, lc := Some(lc),
                   embLc := Some(c.dmr.encodeEmbLc(lc)));
      var r1, q1 := r.(s := r.s.(out := o')), q.(s := q.s.(out := o'));
      AlikeSendDmrd(c, ts, r1, q1, HeadFlags(ts), src, dst, HeadPayload(c.dmr, lc));
      var r2 := SendDmrd(c, ts, r1, HeadFlags(ts), src, dst, HeadPayload(c.dmr, lc));
      var q2 := SendDmrd(c, ts, q1, HeadFlags(ts), src, dst, HeadPayload(c.dmr, lc));
      SendKeeps(c, ts, r1, HeadFlags(ts), src, dst, HeadPayload(c.dmr, lc));
      AlikeSendDmrd(c, ts, r2, q2, HeadFlags(ts), src, dst, HeadPayload(c.dmr, lc));
    } else if burst == VOICE_TERM {
      if o.stream.Some? {
        AlikeSendDmrd(c, ts, r, q, TermFlags(ts), src, dst, TermPayload(c.dmr, OrElse(o.lc, lc)));
      }
    } else {
      var g, h := LateEntry(c, r.s, data, src, dst, nonce), LateEntry(c, q.s, data, src, dst, nonce);
      if g.pass && |data| >= 52 {
        var o := g.s.out;
        var pos := o.framePos % 6;
        AlikeSendDmrd(c, ts, r.(s := g.s.(out := o.(framePos := o.framePos + 1))),
                      q.(s := h.s.(out := o.(framePos := o.framePos + 1))), VoiceFlags(ts, pos), src, dst,
                      Assemble(c.dmr, data[33..52], EmbedField(c.dmr, pos, o.embLc)));
      }
    }
  }

  lemma SendKeeps(c: Config, ts: Timeslot, r: Res, flags: byte, src: Bytes, dst: Bytes, payload: Bytes)
    requires r.s.out.stream.Some?
    ensures SendDmrd(c, ts, r, flags, src, dst, payload).s.out == r.s.out
  {
  }

  lemma AlikeSubmit(c: Config, s: Slot, t: Slot, p: Gv, q: Gv, now: Time)
    requires Alike(s, t) && SameGv(p, q)
    ensures Alike(Submit(c, s, p, now), Submit(c, t, q, now))
  {
    hide RememberSent;
    assert p.src == q.src && p.dst == q.dst;
  }

  lemma AlikeEmit(c: Config, sh: Shared, sk: Shared, s: Slot, t: Slot, src: Bytes, dst: Bytes, callInfo: byte,
                  pt: byte, payload: Bytes, now: Time)
    requires Alike(s, t)
    ensures Alike(Emit(c, sh, s, src, dst, callInfo, pt, payload, now),
      Emit(c, sk, t, src, dst, callInfo, pt, payload, now))
  {
    hide Submit, SameHistory, SamePacer;
    var i, j := s.inb, t.inb;
    AlikeSubmit(c, s.(inb := i.(rtpSeq := (i.rtpSeq + 1) % 0x1_0000, rtpTs := (i.rtpTs + 480) % 0x1_0000_0000)),
                t.(inb := j.(rtpSeq := (j.rtpSeq + 1) % 0x1_0000, rtpTs := (j.rtpTs + 480) % 0x1_0000_0000)),
                NewPacket(c, sh, i, src, dst, callInfo, pt, payload),
                NewPacket(c, sk, j, src, dst, callInfo, pt, payload), now);
  }

  lemma {:induction false} AlikeHeads(c: Config, ts: Timeslot, sh: Shared, sk: Shared, s: Slot, t: Slot, lc: Bytes,
                                      src: Bytes, dst: Bytes, n: nat, now: Time)
    requires Alike(s, t)
    ensures Alike(EmitHeads(c, ts, sh, s, lc, src, dst, n, now), EmitHeads(c, ts, sk, t, lc, src, dst, n, now))
  {
    hide Emit, Alike, LcGvPayload;
    if n > 0 {
      AlikeHeads(c, ts, sh, sk, s, t, lc, src, dst, n - 1, now);
      AlikeEmit(c, sh, sk, EmitHeads(c, ts, sh, s, lc, src, dst, n - 1, now),
                EmitHeads(c, ts, sk, t, lc, src, dst, n - 1, now), src, dst, CallInfo(ts, false),
                if n == 1 then PT_FIRST_HEAD else PT_VOICE, LcGvPayload(c.dmr, VOICE_HEAD, lc), now);
    }
  }

  lemma AlikeStart(c: Config, ts: Timeslot, sh: Shared, sk: Shared, s: Slot, t: Slot, src: Bytes, dst: Bytes, now: Time)
    requires Alike(s, t)
    ensures Alike(EmitStart(c, ts, sh, s, src, dst, now), EmitStart(c, ts, sk, t, src, dst, now))
  {
    hide EmitHeads, SameHistory, SamePacer;
    AlikeHeads(c, ts, sh, sk, s, t, OrElse(s.inb.lc, c.dmr.lcOpt + dst + src), src, dst, c.Heads(), now);
  }

  lemma AlikeOpen(c: Config, ts: Timeslot, r: Res, q: Res, lc: Bytes, b: Burst, now: Time, seq0: nat, ts0: nat)
    requires Alike(r.s, q.s)
    ensures Alike(OpenInbound(c, ts, r, lc, b, now, seq0, ts0).s, OpenInbound(c, ts, q, lc, b, now, seq0, ts0).s)
    ensures Alike(ResetInbound(r.s), ResetInbound(q.s))
  {
    hide SameHistory, SamePacer;
  }

  lemma AlikeHbpHead(c: Config, ts: Timeslot, r: Res, q: Res, b: Burst, now: Time, seq0: nat, ts0: nat)
    requires Alike(r.s, q.s) && |b.payload| == 33
    ensures Alike(HbpHead(c, ts, r, b, now, seq0, ts0).s, HbpHead(c, ts, q, b, now, seq0, ts0).s)
  {
    hide EmitStart, OpenInbound, ResetInbound, DecodeLc, SameHistory, SamePacer;
    var lc, i := DecodeLc(c.dmr, b.payload), r.s.inb;
    var reset := i.hbpStream.Some? && i.lc.Some? && i.started;
    var r1, q1 := r.(s := if reset then ResetInbound(r.s) else r.s), q.(s := if reset then ResetInbound(q.s) else q.s);
    AlikeOpen(c, ts, r, q, lc, b, now, seq0, ts0);
    AlikeOpen(c, ts, r1, q1, lc, b, now, seq0, ts0);
    var r2, q2 := OpenInbound(c, ts, r1, lc, b, now, seq0, ts0), OpenInbound(c, ts, q1, lc, b, now, seq0, ts0);
    AlikeStart(c, ts, r2.sh, q2.sh, r2.s, q2.s, b.src, b.dst, now);
  }

  lemma AlikeHbpTerm(c: Config, ts: Timeslot, r: Res, q: Res, b: Burst, now: Time)
    requires Alike(r.s, q.s)
    ensures Alike(HbpTerm(c, ts, r, b, now).s, HbpTerm(c, ts, q, b, now).s)
  {
    hide Emit, LcGvPayload, SameHistory, SamePacer;
    AlikeEmit(c, r.sh, q.sh, r.s, q.s, b.src, b.dst, CallInfo(ts, true), PT_TERM,
              LcGvPayload(c.dmr, VOICE_TERM, OrElse(r.s.inb.lc, c.dmr.lcOpt + b.dst + b.src)), now);
  }

  lemma AlikeHbpBurst(c: Config, ts: Timeslot, r: Res, q: Res, b: Burst, now: Time, seq0: nat, ts0: nat)
    requires Alike(r.s, q.s) && |b.payload| == 33
    ensures Alike(HbpVoiceBurst(c, ts, r, b, now, seq0, ts0).s, HbpVoiceBurst(c, ts, q, b, now, seq0, ts0).s)
  {
    hide Emit, EmitStart, Extract, SameHistory, SamePacer;
    var r' := HbpLateEntry(c, ts, r, b, now, seq0, ts0);
    var q' := HbpLateEntry(c, ts, q, b, now, seq0, ts0);
    assert Alike(r'.s, q'.s);
    AlikeStart(c, ts, r'.sh, q'.sh, r'.s, q'.s, b.src, b.dst, now);
    var s, t := EmitStart(c, ts, r'.sh, r'.s, b.src, b.dst, now), EmitStart(c, ts, q'.sh, q'.s, b.src, b.dst, now);
    AlikeEmit(c, r'.sh, q'.sh, s, t, b.src, b.dst, CallInfo(ts, false), PT_VOICE,
              VoiceGvPayload(c.dmr, ts, s.inb, b, Extract(c.dmr, b.payload)), now);
  }

  lemma AlikeSendNow(c: Config, s: Slot, t: Slot, p: Gv, q: Gv, now: Time)
    requires Alike(s, t) && SameGv(p, q)
    ensures Alike(SendNow(c, s, p, now), SendNow(c, t, q, now))
  {
    hide RememberSent, SamePacer;
    assert p.src == q.src && p.dst == q.dst;
  }

  lemma AlikeDrain(c: Config, s: Slot, t: Slot, now: Time, later: Time)
    requires Alike(s, t)
    ensures Alike(Drain(c, s, now, later), Drain(c, t, now, later))
  {
    hide SendNow, SameHistory, SameGv;
    if s.pacer.queue != [] {
      var p, q := s.pacer, t.pacer;
      AlikeSendNow(c, s.(pacer := p.(handle := None, queue := p.queue[1..])),
                   t.(pacer := q.(handle := None, queue := q.queue[1..])), p.queue[0], q.queue[0], now);
    }
  }

  lemma AlikeClear(s: Slot, t: Slot)
    requires Alike(s, t)
    ensures Alike(ClearQueue(s), ClearQueue(t))
  {
    var d, e := ClearQueue(s).hist.departures, ClearQueue(t).hist.departures;
    forall i | 0 <= i < |d| ensures SameGv(d[i].packet, e[i].packet) {
      var n := |s.hist.departures|;
      if n <= i {
        assert d[i].packet == s.pacer.queue[i - n] && e[i].packet == t.pacer.queue[i - n];
      }
    }
  }

  lemma AlikeIpscVoice(c: Config, ts: Timeslot, r: Res, q: Res, data: Bytes, burst: byte, now: Time, nonce: Bytes)
    requires Alike(r.s, q.s)
    ensures Alike(IpscVoice(c, ts, r, data, burst, now, nonce).s, IpscVoice(c, ts, q, data, burst, now, nonce).s)
  {
    hide IpscGate, IpscForward, Alike;
    AlikeIpscGate(c, r.s, q.s, data, burst, now);
    AlikeIpscForward(c, ts, Res(Learn(r.sh, data), IpscGate(c, r.s, data, burst, now).s),
                     Res(Learn(q.sh, data), IpscGate(c, q.s, data, burst, now).s), data, burst, now, nonce);
  }

  lemma AlikeHbpVoice(c: Config, ts: Timeslot, r: Res, q: Res, b: Burst, now: Time, seq0: nat, ts0: nat)
    requires Alike(r.s, q.s) && |b.payload| == 33
    ensures Alike(HbpVoice(c, ts, r, b, now, seq0, ts0).s, HbpVoice(c, ts, q, b, now, seq0, ts0).s)
  {
    hide HbpGate, HbpHead, HbpTerm, HbpVoiceBurst, Alike;
    AlikeHbpGate(c, r.s, q.s, b, now);
    var r', q' := r.(s := HbpGate(c, r.s, b, now).s), q.(s := HbpGate(c, q.s, b, now).s);
    AlikeHbpHead(c, ts, r', q', b, now, seq0, ts0);
    AlikeHbpTerm(c, ts, r', q', b, now);
    AlikeHbpBurst(c, ts, r', q', b, now, seq0, ts0);
  }

  lemma AlikeTimeouts(c: Config, s: Slot, t: Slot, now: Time)
    requires Alike(s, t)
    ensures Alike(CheckTimeouts(c, s, now), CheckTimeouts(c, t, now))
  {
    hide SameHistory, SamePacer;
  }

  lemma AlikeDown(s: Slot, t: Slot)
    requires Alike(s, t)
    ensures Alike(HbpDown(s), HbpDown(t)) && Alike(PeerDown(s), PeerDown(t))
  {
    hide ClearQueue, SameHistory, SamePacer;
    AlikeClear(s, t);
  }

  /** Alike slots stay alike whatever the shared state. */
  lemma StepAlike(c: Config, ts: Timeslot, r: Res, q: Res, e: Event)
    requires Alike(r.s, q.s)
    ensures Alike(SlotStep(c, ts, r, e).s, SlotStep(c, ts, q, e).s)
  {
    hide HbpVoice, IpscVoice, Drain, CheckTimeouts, HbpDown, PeerDown, SameHistory, SameQueue;
    match e
    case IpscPacket(_, data, burst, _, now, nonce) => AlikeIpscVoice(c, ts, r, q, data, burst, now, nonce);
    case HbpPacket(dmrd, _, now, seq0, ts0) =>
      if |dmrd| >= DMRD_LEN {
        AlikeHbpVoice(c, ts, r, q, ParseDmrd(dmrd), now, seq0, ts0);
      }
    case DrainFires(_, now, later) => AlikeDrain(c, r.s, q.s, now, later);
    case Watchdog(now) => AlikeTimeouts(c, r.s, q.s, now);
    case PeerLost(_) => AlikeDown(r.s, q.s);
    case HbpLost(_) => AlikeDown(r.s, q.s);
  }

  /** A voice or drain event of the other slot. */
  predicate Foreign(ts: Timeslot, e: Event) {
    match e
    case IpscPacket(ts', _, _, _, _, _) => ts' != ts
    case HbpPacket(dmrd, _, _, _, _) => |dmrd| < DMRD_LEN || SlotOf(dmrd[15]) != ts
    case DrainFires(ts', _, _) => ts' != ts
    case _ => false
  }

  /** The events without those of the other slot. */
  function Only(ts: Timeslot, evs: seq<Event>): seq<Event> {
    if evs == [] then []
    else Only(ts, evs[..|evs| - 1]) + if Foreign(ts, evs[|evs| - 1]) then [] else [evs[|evs| - 1]]
  }

  lemma ForeignLeavesAlone(c: Config, ts: Timeslot, r: Res, e: Event)
    requires Foreign(ts, e)
    ensures SlotStep(c, ts, r, e) == r
  {
    hide HbpVoice, IpscVoice, Drain;
  }

  /**
   Main result: on every interleaving, a slot ends up alike, in state and in everything it has
   sent, to the run from which all voice and drain events of the other slot are removed.
   */
  lemma {:induction false} SlotsDoNotInterfere(c: Config, evs: seq<Event>, ts: Timeslot)
    ensures Alike(Run(c, evs).At(ts), Run(c, Only(ts, evs)).At(ts))
  {
    hide SlotStep, Alike;
    if evs == [] {
      AlikeIdle();
    } else {
      var pre, e := evs[..|evs| - 1], evs[|evs| - 1];
      SlotsDoNotInterfere(c, pre, ts);
      var st, su := Run(c, pre), Run(c, Only(ts, pre));
      var r := Res(if ts.TS1? then st.sh else SlotStep(c, TS1, Res(st.sh, st.one), e).sh, st.At(ts));
      if Foreign(ts, e) {
        ForeignLeavesAlone(c, ts, r, e);
        assert Only(ts, evs) == Only(ts, pre);
      } else {
        var q := Res(if ts.TS1? then su.sh else SlotStep(c, TS1, Res(su.sh, su.one), e).sh, su.At(ts));
        StepAlike(c, ts, r, q, e);
        var evs' := Only(ts, evs);
        assert evs'[..|evs'| - 1] == Only(ts, pre);
      }
    }
  }

  lemma AlikeIdle()
    ensures Alike(IDLE_SLOT, IDLE_SLOT)
  {
  }
}
