/**
 The traffic generated towards IPSC is a sequence of calls, each HEAD^r VOICE* TERM?, whose
 k-th packet carries sequence seq0 + k, timestamp ts0 + 480 k and the call's own stream byte.
 (RTP numbering: section 5.1 of RFC 3550.)
 */
module InboundScript {
  import opened Prelude
  import opened Wire
  import opened AmbeCodec
  import opened Packets
  import opened CallModel
  import opened Frames

  /** What a packet shows of its place in a call. */
  datatype Sig = Sig(kind: int, pt: byte, seqNo: nat, stamp: nat, streamByte: byte, callInfo: byte)

  function SigOf(p: Gv): Sig {
    Sig(p.Kind(), p.pt, p.seqNo, p.stamp, p.streamByte, p.callInfo)
  }

  /** A generated call: its place among all call starts, its RTP start values, its length. */
  datatype Call = Call(start: nat, seq0: nat, ts0: nat, voices: nat, ended: bool)

  function Length(c: Config, k: Call): nat {
    c.Heads() + k.voices + if k.ended then 1 else 0
  }

  /** The i-th packet of call k on slot ts. */
  function Expected(c: Config, ts: Timeslot, k: Call, i: nat): Sig {
    var kind := if i < c.Heads() then VOICE_HEAD else if i < c.Heads() + k.voices then SlotVoice(ts) else VOICE_TERM;
    Sig(kind,
        if i == 0 then PT_FIRST_HEAD else if kind == VOICE_TERM then PT_TERM else PT_VOICE,
        (k.seq0 + i) % 0x1_0000,
        (k.ts0 + 480 * i) % 0x1_0000_0000,
        (k.start + 1) % 256,
        CallInfo(ts, kind == VOICE_TERM))
  }

  /** The first n packets of call k. */
  function Script(c: Config, ts: Timeslot, k: Call, n: nat): (r: seq<Sig>)
    ensures |r| == n
  {
    seq(n, i requires 0 <= i < n => Expected(c, ts, k, i))
  }

  function Scripts(c: Config, ts: Timeslot, ks: seq<Call>): seq<Sig> {
    if ks == [] then []
    else Scripts(c, ts, ks[..|ks| - 1]) + Script(c, ts, ks[|ks| - 1], Length(c, ks[|ks| - 1]))
  }

  function Sigs(o: seq<Offer>): (r: seq<Sig>)
    ensures |r| == |o|
  {
    seq(|o|, i requires 0 <= i < |o| => SigOf(o[i].packet))
  }

  /** The calls are call starts of this slot, in order. */
  ghost predicate CallsInOrder(ts: Timeslot, starts: seq<Start>, ks: seq<Call>) {
    && (forall j :: 0 <= j < |ks| ==> ks[j].start < |starts| && starts[ks[j].start].ts == ts)
    && (forall i, j :: 0 <= i < j < |ks| ==> ks[i].start < ks[j].start)
  }

  /** With startOnVoice, none of the first n calls is without voice. */
  predicate Voiced(c: Config, ks: seq<Call>, n: nat)
    requires n <= |ks|
  {
    c.startOnVoice ==> forall j :: 0 <= j < n ==> ks[j].voices >= 1
  }

  /** Between events: everything generated is scripted by ks, and the open call is the start cur. */
  ghost predicate Scripted(c: Config, ts: Timeslot, starts: seq<Start>, i: Inbound, o: seq<Offer>, ks: seq<Call>,
                           cur: nat)
  {
    && Sigs(o) == Scripts(c, ts, ks)
    && CallsInOrder(ts, starts, ks)
    && (i.started ==> i.lc.Some?)
    && (i.lc.Some? ==> cur < |starts| && starts[cur] == Start(ts, i.streamByte) && i.streamByte == (cur + 1) % 256)
    && (i.lc.Some? && !i.started ==> forall j :: 0 <= j < |ks| ==> ks[j].start < cur)
    && (i.started ==> ks != [] && Continues(c, i, ks[|ks| - 1], cur))
  }

  /** The open call k has used its RTP numbers up to its length. */
  predicate Continues(c: Config, i: Inbound, k: Call, cur: nat) {
    !k.ended && k.start == cur && Stands(i, k, Length(c, k))
  }

  ghost predicate StartsNumbered(sh: Shared) {
    && sh.streamCtr == |sh.starts| % 256
    && (forall j :: 0 <= j < |sh.starts| ==> sh.starts[j].streamByte == (j + 1) % 256)
  }

  // ------------------------------------------------------------------
  // Emitting
  // ------------------------------------------------------------------

  lemma EmitAppends(c: Config, sh: Shared, s: Slot, src: Bytes, dst: Bytes, callInfo: byte, pt: byte,
                    payload: Bytes, now: Time)
    ensures var s' := Emit(c, sh, s, src, dst, callInfo, pt, payload, now);
      Sigs(s'.hist.offers)
        == Sigs(s.hist.offers) + [SigOf(NewPacket(c, sh, s.inb, src, dst, callInfo, pt, payload))]
  {
    hide NewPacket, SlotBusy, RememberSent;
  }

  lemma Wrap8(x: nat)
    ensures (x % 256 + 1) % 256 == (x + 1) % 256
  {
  }

  lemma Wrap16(x: nat)
    ensures (x % 0x1_0000 + 1) % 0x1_0000 == (x + 1) % 0x1_0000
  {
  }

  lemma Wrap32(x: nat)
    ensures (x % 0x1_0000_0000 + 480) % 0x1_0000_0000 == (x + 480) % 0x1_0000_0000
  {
  }

  /** The RTP counters stand where the n-th packet of call k left them. */
  predicate Stands(i: Inbound, k: Call, n: nat) {
    && i.streamByte == (k.start + 1) % 256
    && i.rtpSeq % 0x1_0000 == (k.seq0 + n) % 0x1_0000
    && i.rtpTs % 0x1_0000_0000 == (k.ts0 + 480 * n) % 0x1_0000_0000
  }

  /** Emitting packet n of call k: it shows what is expected, and the counters move on. */
  lemma EmitsExpected(c: Config, ts: Timeslot, sh: Shared, s: Slot, src: Bytes, dst: Bytes, callInfo: byte, pt: byte,
                      payload: Bytes, now: Time, k: Call, n: nat)
    requires Stands(s.inb, k, n) && payload != []
    requires var x := Expected(c, ts, k, n); payload[0] == x.kind && pt == x.pt && callInfo == x.callInfo
    ensures var s' := Emit(c, sh, s, src, dst, callInfo, pt, payload, now);
      && Sigs(s'.hist.offers) == Sigs(s.hist.offers) + [Expected(c, ts, k, n)]
      && Stands(s'.inb, k, n + 1)
  {
    hide Emit, Sigs;
    EmitAppends(c, sh, s, src, dst, callInfo, pt, payload, now);
    EmitFrame(c, sh, s, src, dst, callInfo, pt, payload, now);
    Wrap16(s.inb.rtpSeq);
    Wrap16(k.seq0 + n);
    Wrap32(s.inb.rtpTs);
    Wrap32(k.ts0 + 480 * n);
  }

  lemma LcPayloadKind(d: Dmr, burst: byte, lc: Bytes)
    ensures LcGvPayload(d, burst, lc) != [] && LcGvPayload(d, burst, lc)[0] == burst
  {
  }

  /** n headers from the call's first packet on. */
  lemma {:induction false} HeadsScripted(c: Config, ts: Timeslot, sh: Shared, s: Slot, lc: Bytes, src: Bytes,
                                         dst: Bytes, k: Call, n: nat, now: Time)
    requires n <= c.Heads() && Stands(s.inb, k, 0)
    ensures var s' := EmitHeads(c, ts, sh, s, lc, src, dst, n, now);
      && Sigs(s'.hist.offers) == Sigs(s.hist.offers) + Script(c, ts, k, n)
      && Stands(s'.inb, k, n)
  {
    hide Emit, Sigs, LcGvPayload, Stands;
    if n > 0 {
      HeadsScripted(c, ts, sh, s, lc, src, dst, k, n - 1, now);
      var t := EmitHeads(c, ts, sh, s, lc, src, dst, n - 1, now);
      var pt := if n == 1 then PT_FIRST_HEAD else PT_VOICE;
      LcPayloadKind(c.dmr, VOICE_HEAD, lc);
      EmitsExpected(c, ts, sh, t, src, dst, CallInfo(ts, false), pt, LcGvPayload(c.dmr, VOICE_HEAD, lc), now, k, n - 1);
      assert Script(c, ts, k, n) == Script(c, ts, k, n - 1) + [Expected(c, ts, k, n - 1)];
    } else {
      assert Script(c, ts, k, 0) == [];
    }
  }

  lemma ScriptsAppend(c: Config, ts: Timeslot, ks: seq<Call>, k: Call)
    ensures Scripts(c, ts, ks + [k]) == Scripts(c, ts, ks) + Script(c, ts, k, Length(c, k))
  {
    assert (ks + [k])[..|ks|] == ks;
  }

  /** Lengthening the last call by one packet. */
  lemma ScriptsExtend(c: Config, ts: Timeslot, ks: seq<Call>, k: Call)
    requires ks != []
    requires var l := ks[|ks| - 1]; !l.ended && (k == l.(voices := l.voices + 1) || k == l.(ended := true))
    ensures Scripts(c, ts, ks[..|ks| - 1] + [k]) == Scripts(c, ts, ks) + [Expected(c, ts, k, Length(c, k) - 1)]
  {
    var l := ks[|ks| - 1];
    var n := Length(c, l);
    ScriptsAppend(c, ts, ks[..|ks| - 1], k);
    assert Script(c, ts, k, n + 1) == Script(c, ts, l, n) + [Expected(c, ts, k, n)];
  }

  /** Headers start the pending call. */
  lemma StartScripted(c: Config, ts: Timeslot, starts: seq<Start>, sh: Shared, s: Slot, src: Bytes, dst: Bytes,
                      now: Time, ks: seq<Call>, cur: nat) returns (k: Call)
    requires Scripted(c, ts, starts, s.inb, s.hist.offers, ks, cur) && s.inb.lc.Some? && !s.inb.started
    ensures var s' := EmitStart(c, ts, sh, s, src, dst, now);
      && k == Call(cur, s.inb.rtpSeq, s.inb.rtpTs, 0, false)
      && Sigs(s'.hist.offers) == Scripts(c, ts, ks + [k])
      && s'.inb == s.inb.(rtpSeq := s'.inb.rtpSeq, rtpTs := s'.inb.rtpTs, started := true)
      && Continues(c, s'.inb, k, cur)
  {
    hide EmitHeads, Sigs;
    k := Call(cur, s.inb.rtpSeq, s.inb.rtpTs, 0, false);
    var lc := OrElse(s.inb.lc, c.dmr.lcOpt + dst + src);
    HeadsScripted(c, ts, sh, s, lc, src, dst, k, c.Heads(), now);
    EmitHeadsFrame(c, ts, sh, s, lc, src, dst, c.Heads(), now);
    ScriptsAppend(c, ts, ks, k);
  }

  // ------------------------------------------------------------------
  // Handlers
  // ------------------------------------------------------------------

  lemma OpenScripted(c: Config, ts: Timeslot, r: Res, lc: Bytes, b: Burst, now: Time, seq0: nat, ts0: nat,
                     ks: seq<Call>, cur: nat)
    requires Scripted(c, ts, r.sh.starts, r.s.inb, r.s.hist.offers, ks, cur) && StartsNumbered(r.sh)
    ensures var r' := OpenInbound(c, ts, r, lc, b, now, seq0, ts0);
      && Scripted(c, ts, r'.sh.starts, r'.s.inb, r'.s.hist.offers, ks, |r.sh.starts|)
      && StartsNumbered(r'.sh) && r.sh.starts <= r'.sh.starts
      && r'.s.inb.lc.Some? && !r'.s.inb.started
  {
    hide Sigs, Scripts;
    Wrap8(|r.sh.starts|);
  }

  ghost predicate SlotScripted(c: Config, ts: Timeslot, sh: Shared, s: Slot) {
    exists ks, cur :: Scripted(c, ts, sh.starts, s.inb, s.hist.offers, ks, cur) && Voiced(c, ks, |ks|)
  }

  /** Some scripting exists; the shared numbering holds and has only grown. */
  ghost predicate StillScripted(c: Config, ts: Timeslot, r: Res, r': Res) {
    && StartsNumbered(r'.sh) && r.sh.starts <= r'.sh.starts
    && SlotScripted(c, ts, r'.sh, r'.s)
  }

  lemma HeadScripted(c: Config, ts: Timeslot, r: Res, b: Burst, now: Time, seq0: nat, ts0: nat, ks: seq<Call>, cur: nat)
    requires Scripted(c, ts, r.sh.starts, r.s.inb, r.s.hist.offers, ks, cur) && StartsNumbered(r.sh)
      && |b.payload| == 33
    requires Voiced(c, ks, |ks|)
    ensures StillScripted(c, ts, r, HbpHead(c, ts, r, b, now, seq0, ts0))
  {
    hide EmitStart, DecodeLc, Sigs, Scripts;
    var r' := HbpHead(c, ts, r, b, now, seq0, ts0);
    var i := r.s.inb;
    if DuplicateHead(i, b, now) {
      assert Scripted(c, ts, r'.sh.starts, r'.s.inb, r'.s.hist.offers, ks, cur) && Voiced(c, ks, |ks|);
    } else {
      var s := if i.hbpStream.Some? && i.lc.Some? && i.started then ResetInbound(r.s) else r.s;
      var q := OpenInbound(c, ts, r.(s := s), DecodeLc(c.dmr, b.payload), b, now, seq0, ts0);
      OpenScripted(c, ts, r.(s := s), DecodeLc(c.dmr, b.payload), b, now, seq0, ts0, ks, cur);
      var cur' := |r.sh.starts|;
      if c.startOnVoice {
        assert Scripted(c, ts, r'.sh.starts, r'.s.inb, r'.s.hist.offers, ks, cur') && Voiced(c, ks, |ks|);
      } else {
        var k := StartScripted(c, ts, q.sh.starts, q.sh, q.s, b.src, b.dst, now, ks, cur');
        assert Scripted(c, ts, r'.sh.starts, r'.s.inb, r'.s.hist.offers, ks + [k], cur')
          && Voiced(c, ks + [k], |ks + [k]|);
      }
    }
  }

  /** One more packet of the open call: the last call of ks becomes k. */
  lemma EmitScripted(c: Config, ts: Timeslot, sh: Shared, s: Slot, src: Bytes, dst: Bytes, pt: byte, payload: Bytes,
                     now: Time, ks: seq<Call>, k: Call, cur: nat)
    requires ks != [] && Sigs(s.hist.offers) == Scripts(c, ts, ks) && Continues(c, s.inb, ks[|ks| - 1], cur)
    requires payload != []
    requires var l := ks[|ks| - 1];
      || (k == l.(voices := l.voices + 1) && payload[0] == SlotVoice(ts) && pt == PT_VOICE)
      || (k == l.(ended := true) && payload[0] == VOICE_TERM && pt == PT_TERM)
    ensures var s' := Emit(c, sh, s, src, dst, CallInfo(ts, k.ended), pt, payload, now);
      && Sigs(s'.hist.offers) == Scripts(c, ts, ks[..|ks| - 1] + [k])
      && Stands(s'.inb, k, Length(c, k))
  {
    hide Emit, Sigs, Scripts;
    ScriptsExtend(c, ts, ks, k);
    EmitsExpected(c, ts, sh, s, src, dst, CallInfo(ts, k.ended), pt, payload, now, k, Length(c, k) - 1);
  }

  lemma TermScripted(c: Config, ts: Timeslot, r: Res, b: Burst, now: Time, ks: seq<Call>, cur: nat)
    requires Scripted(c, ts, r.sh.starts, r.s.inb, r.s.hist.offers, ks, cur) && StartsNumbered(r.sh)
    requires Voiced(c, ks, |ks|)
    ensures StillScripted(c, ts, r, HbpTerm(c, ts, r, b, now))
  {
    hide Emit, LcGvPayload, Sigs, Scripts;
    var r' := HbpTerm(c, ts, r, b, now);
    if r.s.inb.started {
      var payload := LcGvPayload(c.dmr, VOICE_TERM, OrElse(r.s.inb.lc, c.dmr.lcOpt + b.dst + b.src));
      LcPayloadKind(c.dmr, VOICE_TERM, OrElse(r.s.inb.lc, c.dmr.lcOpt + b.dst + b.src));
      var k := ks[|ks| - 1].(ended := true);
      EmitScripted(c, ts, r.sh, r.s, b.src, b.dst, PT_TERM, payload, now, ks, k, cur);
      EmitFrame(c, r.sh, r.s, b.src, b.dst, CallInfo(ts, true), PT_TERM, payload, now);
      assert Scripted(c, ts, r'.sh.starts, r'.s.inb, r'.s.hist.offers, ks[..|ks| - 1] + [k], cur)
        && Voiced(c, ks[..|ks| - 1] + [k], |ks[..|ks| - 1] + [k]|);
    } else {
      assert Scripted(c, ts, r'.sh.starts, r'.s.inb, r'.s.hist.offers, ks, cur) && Voiced(c, ks, |ks|);
    }
  }

  lemma VoicePayloadKind(d: Dmr, ts: Timeslot, i: Inbound, b: Burst, ambe: Bytes)
    ensures VoiceGvPayload(d, ts, i, b, ambe) != [] && VoiceGvPayload(d, ts, i, b, ambe)[0] == SlotVoice(ts)
  {
  }

  /** A voice burst of a started call; only that call may have been without voice. */
  lemma VoiceScripted(c: Config, ts: Timeslot, starts: seq<Start>, sh: Shared, s: Slot, src: Bytes, dst: Bytes,
                      payload: Bytes, now: Time, ks: seq<Call>, cur: nat)
    requires Scripted(c, ts, starts, s.inb, s.hist.offers, ks, cur) && s.inb.started
    requires Voiced(c, ks, |ks| - 1)
    requires payload != [] && payload[0] == SlotVoice(ts)
    ensures var s' := Emit(c, sh, s, src, dst, CallInfo(ts, false), PT_VOICE, payload, now);
      exists ks', cur :: Scripted(c, ts, starts, s'.inb, s'.hist.offers, ks', cur) && Voiced(c, ks', |ks'|)
  {
    hide Emit, Sigs, Scripts, Stands;
    var k := ks[|ks| - 1].(voices := ks[|ks| - 1].voices + 1);
    EmitScripted(c, ts, sh, s, src, dst, PT_VOICE, payload, now, ks, k, cur);
    EmitFrame(c, sh, s, src, dst, CallInfo(ts, false), PT_VOICE, payload, now);
    var s' := Emit(c, sh, s, src, dst, CallInfo(ts, false), PT_VOICE, payload, now);
    var ks' := ks[..|ks| - 1] + [k];
    assert Scripted(c, ts, starts, s'.inb, s'.hist.offers, ks', cur) && Voiced(c, ks', |ks'|);
  }

  lemma EmitStartNoop(c: Config, ts: Timeslot, sh: Shared, s: Slot, src: Bytes, dst: Bytes, now: Time)
    requires s.inb.started
    ensures EmitStart(c, ts, sh, s, src, dst, now) == s
  {
  }

  /** Before a voice burst goes out, the open call has its headers. */
  lemma HeadersFirst(c: Config, ts: Timeslot, sh: Shared, s: Slot, src: Bytes, dst: Bytes, now: Time, ks: seq<Call>,
                     cur: nat) returns (ks': seq<Call>)
    requires Scripted(c, ts, sh.starts, s.inb, s.hist.offers, ks, cur) && Voiced(c, ks, |ks|) && s.inb.lc.Some?
    ensures var s' := EmitStart(c, ts, sh, s, src, dst, now);
      Scripted(c, ts, sh.starts, s'.inb, s'.hist.offers, ks', cur) && s'.inb.started
    ensures ks' != [] && Voiced(c, ks', |ks'| - 1)
  {
    hide EmitStart, Sigs, Scripts, Stands;
    if s.inb.started {
      EmitStartNoop(c, ts, sh, s, src, dst, now);
      ks' := ks;
    } else {
      var k := StartScripted(c, ts, sh.starts, sh, s, src, dst, now, ks, cur);
      ks' := ks + [k];
    }
  }

  lemma BurstScripted(c: Config, ts: Timeslot, r: Res, b: Burst, now: Time, seq0: nat, ts0: nat, ks: seq<Call>,
                      cur: nat)
    requires Scripted(c, ts, r.sh.starts, r.s.inb, r.s.hist.offers, ks, cur) && StartsNumbered(r.sh)
      && |b.payload| == 33
    requires Voiced(c, ks, |ks|)
    ensures StillScripted(c, ts, r, HbpVoiceBurst(c, ts, r, b, now, seq0, ts0))
  {
    hide Emit, EmitStart, Extract, VoiceGvPayload, OpenInbound, Scripted, Voiced;
    if r.s.inb.lc.None? && c.legacy {
    } else {
      var q := HbpLateEntry(c, ts, r, b, now, seq0, ts0);
      var cur' := if r.s.inb.lc.Some? then cur else |r.sh.starts|;
      OpenScripted(c, ts, r, c.dmr.lcOpt + b.dst + b.src, b, now, seq0, ts0, ks, cur);
      var s := EmitStart(c, ts, q.sh, q.s, b.src, b.dst, now);
      var ks' := HeadersFirst(c, ts, q.sh, q.s, b.src, b.dst, now, ks, cur');
      var payload := VoiceGvPayload(c.dmr, ts, s.inb, b, Extract(c.dmr, b.payload));
      VoicePayloadKind(c.dmr, ts, s.inb, b, Extract(c.dmr, b.payload));
      VoiceScripted(c, ts, q.sh.starts, q.sh, s, b.src, b.dst, payload, now, ks', cur');
    }
  }

  lemma StepScripted(c: Config, ts: Timeslot, r: Res, e: Event, ks: seq<Call>, cur: nat)
    requires Scripted(c, ts, r.sh.starts, r.s.inb, r.s.hist.offers, ks, cur) && StartsNumbered(r.sh)
    requires Voiced(c, ks, |ks|)
    ensures StillScripted(c, ts, r, SlotStep(c, ts, r, e))
  {
    hide HbpHead, HbpTerm, HbpVoiceBurst, HbpGate, IpscGate, IpscForward, Drain, Sigs, Scripts, CallsInOrder, Voiced;
    var r' := SlotStep(c, ts, r, e);
    match e
    case HbpPacket(dmrd, up, now, seq0, ts0) =>
      if up && |dmrd| >= DMRD_LEN && SlotOf(dmrd[15]) == ts {
        var b := ParseDmrd(dmrd);
        HbpGateFrame(c, r.s, b, now);
        var g := HbpGate(c, r.s, b, now);
        assert Scripted(c, ts, r.sh.starts, g.s.inb, g.s.hist.offers, ks, cur);
        HeadScripted(c, ts, r.(s := g.s), b, now, seq0, ts0, ks, cur);
        TermScripted(c, ts, r.(s := g.s), b, now, ks, cur);
        BurstScripted(c, ts, r.(s := g.s), b, now, seq0, ts0, ks, cur);
      }
    case IpscPacket(_, data, burst, _, now, nonce) =>
      IpscGateFrame(c, r.s, data, burst, now);
      IpscForwardFrame(c, ts, Res(Learn(r.sh, data), IpscGate(c, r.s, data, burst, now).s), data, burst, now, nonce);
      assert Scripted(c, ts, r'.sh.starts, r'.s.inb, r'.s.hist.offers, ks, cur) && Voiced(c, ks, |ks|);
    case DrainFires(_, now, later) =>
      DrainFrame(c, r.s, now, later);
      assert Scripted(c, ts, r'.sh.starts, r'.s.inb, r'.s.hist.offers, ks, cur) && Voiced(c, ks, |ks|);
    case _ =>
      assert Scripted(c, ts, r'.sh.starts, r'.s.inb, r'.s.hist.offers, ks, cur) && Voiced(c, ks, |ks|);
  }

  lemma ScriptedGrows(c: Config, ts: Timeslot, sh: Shared, sh': Shared, s: Slot)
    requires SlotScripted(c, ts, sh, s) && sh.starts <= sh'.starts
    ensures SlotScripted(c, ts, sh', s)
  {
    hide Sigs, Scripts;
    var ks, cur :| Scripted(c, ts, sh.starts, s.inb, s.hist.offers, ks, cur) && Voiced(c, ks, |ks|);
    assert Scripted(c, ts, sh'.starts, s.inb, s.hist.offers, ks, cur);
  }

  lemma NothingScripted(c: Config, ts: Timeslot)
    ensures SlotScripted(c, ts, INITIAL_SHARED, IDLE_SLOT)
  {
    assert Scripted(c, ts, [], IDLE_SLOT.inb, [], [], 0) && Voiced(c, [], 0);
  }

  lemma StepStillScripted(c: Config, ts: Timeslot, r: Res, e: Event)
    requires SlotScripted(c, ts, r.sh, r.s) && StartsNumbered(r.sh)
    ensures StillScripted(c, ts, r, SlotStep(c, ts, r, e))
  {
    hide SlotStep, Scripted;
    var ks, cur :| Scripted(c, ts, r.sh.starts, r.s.inb, r.s.hist.offers, ks, cur) && Voiced(c, ks, |ks|);
    StepScripted(c, ts, r, e, ks, cur);
  }

  lemma {:induction false} ScriptedAlways(c: Config, evs: seq<Event>)
    ensures var st := Run(c, evs);
      StartsNumbered(st.sh) && SlotScripted(c, TS1, st.sh, st.one) && SlotScripted(c, TS2, st.sh, st.two)
  {
    hide SlotStep, SlotScripted;
    if evs == [] {
      NothingScripted(c, TS1);
      NothingScripted(c, TS2);
    } else {
      var st, e := Run(c, evs[..|evs| - 1]), evs[|evs| - 1];
      ScriptedAlways(c, evs[..|evs| - 1]);
      var r1 := SlotStep(c, TS1, Res(st.sh, st.one), e);
      StepStillScripted(c, TS1, Res(st.sh, st.one), e);
      ScriptedGrows(c, TS2, st.sh, r1.sh, st.two);
      var r2 := SlotStep(c, TS2, Res(r1.sh, st.two), e);
      StepStillScripted(c, TS2, Res(r1.sh, st.two), e);
      ScriptedGrows(c, TS1, r1.sh, r2.sh, r1.s);
      ScriptedGrows(c, TS1, r2.sh, Step(c, st, e).sh, r1.s);
      ScriptedGrows(c, TS2, r2.sh, Step(c, st, e).sh, r2.s);
    }
  }

  /**
   Main result: on every run, what a slot has generated is exactly a sequence of calls of
   that slot, HEAD^r VOICE* TERM? each, header by header and number by number; with
   startOnVoice every call has voice.
   */
  lemma GeneratedIsScripted(c: Config, evs: seq<Event>, ts: Timeslot)
    ensures var st := Run(c, evs);
      exists ks: seq<Call> ::
        && Sigs(st.At(ts).hist.offers) == Scripts(c, ts, ks)
        && CallsInOrder(ts, st.sh.starts, ks)
        && Voiced(c, ks, |ks|)
  {
    ScriptedAlways(c, evs);
    var st := Run(c, evs);
    var ks, cur :| Scripted(c, ts, st.sh.starts, st.At(ts).inb, st.At(ts).hist.offers, ks, cur) && Voiced(c, ks, |ks|);
  }

  lemma ResiduesDiffer(a: nat, b: nat)
    requires a < b < a + 256
    ensures a % 256 != b % 256
  {
    assert a == 256 * (a / 256) + a % 256 && b == 256 * (b / 256) + b % 256;
  }

  /** Calls fewer than 256 starts apart, on either slot, carry different stream bytes. */
  lemma StreamBytesDiffer(c: Config, evs: seq<Event>, m: nat, n: nat)
    requires m < n < m + 256 && n < |Run(c, evs).sh.starts|
    ensures var starts := Run(c, evs).sh.starts; starts[m].streamByte != starts[n].streamByte
  {
    hide SlotScripted, Step;
    ScriptedAlways(c, evs);
    ResiduesDiffer(m + 1, n + 1);
  }
}
