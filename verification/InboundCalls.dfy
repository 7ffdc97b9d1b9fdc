/**
 The inbound calls of a slot as the events tell them: which DMRDs open a call, repeat its header
 or end it, and exactly which packets each of them generates, with what LC, numbering and content.
 */
module InboundCalls {
  import opened Prelude
  import opened Wire
  import opened AmbeCodec
  import opened Packets
  import opened CallModel
  import opened Frames
  import opened Runs
  import opened GvOnTheWire
  import Script = InboundScript
  import Shapes = CallShape

  /** An open call: who, on which LC, when last headed, where its numbers start, how many packets it has made. */
  datatype InCall = InCall(stream: Bytes, src: Bytes, dst: Bytes, lc: Bytes, headAt: Time, seq0: nat, ts0: nat,
    sent: nat)

  /** The DMRD passes the slot's gates. */
  predicate Accepted(c: Config, s: Slot, e: Event, ts: Timeslot) {
    HbpHeard(e, ts) && HbpGate(c, s, ParseDmrd(e.dmrd), e.now).pass
  }

  /** A header is one of the open call's: of its stream, or of its source and group within 1.5 s. */
  predicate Repeats(k: InCall, b: Burst, now: Time) {
    b.stream == k.stream || (b.src == k.src && b.dst == k.dst && now - k.headAt <= 1_500_000)
  }

  /** What an accepted DMRD makes of the call. */
  function After(c: Config, k: Option<InCall>, e: Event): Option<InCall>
    requires e.HbpPacket? && |e.dmrd| >= DMRD_LEN
  {
    var b := ParseDmrd(e.dmrd);
    if IsHead(b.flags) then
      var lc := DecodeLc(c.dmr, b.payload);
      if k.Some? && Repeats(k.value, b, e.now) then Some(k.value.(lc := lc, headAt := e.now))
      else Some(InCall(b.stream, b.src, b.dst, lc, e.now, e.seq0, e.ts0, if c.startOnVoice then 0 else HeaderCount(c)))
    else if IsTerm(b.flags) || (k.None? && c.legacy) then None
    else
      var k := if k.Some? then k.value
               else InCall(b.stream, b.src, b.dst, c.dmr.lcOpt + b.dst + b.src, e.now, e.seq0, e.ts0, 0);
      Some(k.(sent := (if k.sent == 0 then HeaderCount(c) else k.sent) + 1))
  }

  /** How many packets it generates. */
  function Count(c: Config, k: Option<InCall>, e: Event): nat
    requires e.HbpPacket? && |e.dmrd| >= DMRD_LEN
  {
    var b := ParseDmrd(e.dmrd);
    if IsHead(b.flags) then
      if c.startOnVoice || (k.Some? && Repeats(k.value, b, e.now)) then 0 else HeaderCount(c)
    else if IsTerm(b.flags) then (if k.Some? && k.value.sent > 0 then 1 else 0)
    else if k.None? && c.legacy then 0
    else if k.Some? && k.value.sent > 0 then 1
    else HeaderCount(c) + 1
  }

  /** The open call after the events. */
  function CallAfter(c: Config, evs: seq<Event>, ts: Timeslot): Option<InCall> {
    if evs == [] then None
    else
      var pre, e := evs[..|evs| - 1], evs[|evs| - 1];
      var k := CallAfter(c, pre, ts);
      if e.PeerLost? || e.HbpLost? then None
      else if e.Watchdog? && e.now - LastHeard(pre, FromHbp, ts) > 10_000_000 then None
      else if Accepted(c, Run(c, pre).At(ts), e, ts) then After(c, k, e)
      else k
  }

  // ------------------------------------------------------------------
  // What a packet says
  // ------------------------------------------------------------------

  /** The superframe place a burst's flags name: sync is 0, an unnumbered one counts as 1. */
  function PlaceOf(flags: byte): nat {
    var n := flags % 16;
    if flags / 16 % 4 == 1 then 0 else if n == 0 then 1 else if n >= 5 then 5 else n
  }

  function InfoByte(ts: Timeslot, end: bool): int {
    (if ts.TS2? then 0x20 else 0) + if end then 0x40 else 0
  }

  /** The packet at place n of a call, made on burst b. */
  predicate Makes(c: Config, ts: Timeslot, sh: Shared, k: InCall, n: nat, b: Burst, p: Gv) {
    && p.source == c.sourceId && p.src == b.src && p.dst == b.dst
    && p.callType == sh.callType && p.callCtrl == sh.callCtrl
    && p.seqNo == (k.seq0 + n) % 0x1_0000 && p.stamp == (k.ts0 + 480 * n) % 0x1_0000_0000
    && if n < HeaderCount(c) then
         && p.callInfo == InfoByte(ts, false) && p.pt == (if n == 0 then 0xDD else 0x5D)
         && LcReads(c.dmr, k.lc, true, p.payload)
       else if IsTerm(b.flags) then
         p.callInfo == InfoByte(ts, true) && p.pt == 0x5E && LcReads(c.dmr, k.lc, false, p.payload)
       else
         && p.callInfo == InfoByte(ts, false) && p.pt == 0x5D && |b.payload| == 33
         && VoiceReads(c.dmr, k.lc, b.src, b.dst, ts, PlaceOf(b.flags), Extract(c.dmr, b.payload), p.payload)
  }

  /** The offers after o in o' are the packets of the call from place n on. */
  predicate MakesAll(c: Config, ts: Timeslot, sh: Shared, k: InCall, n: nat, b: Burst, o: seq<Offer>, o': seq<Offer>,
                     count: nat)
  {
    && |o'| == |o| + count && o'[..|o|] == o
    && forall j :: |o| <= j < |o'| ==> Makes(c, ts, sh, k, n + j - |o|, b, o'[j].packet)
  }

  /** The counters stand at place n of the call. */
  predicate Stands(i: Inbound, k: InCall, n: nat) {
    && i.rtpSeq % 0x1_0000 == (k.seq0 + n) % 0x1_0000
    && i.rtpTs % 0x1_0000_0000 == (k.ts0 + 480 * n) % 0x1_0000_0000
  }

  lemma StandsNext(i: Inbound, k: InCall, n: nat)
    requires Stands(i, k, n)
    ensures Stands(i.(rtpSeq := (i.rtpSeq + 1) % 0x1_0000, rtpTs := (i.rtpTs + 480) % 0x1_0000_0000), k, n + 1)
  {
    Script.Wrap16(i.rtpSeq);
    Script.Wrap16(k.seq0 + n);
    Script.Wrap32(i.rtpTs);
    Script.Wrap32(k.ts0 + 480 * n);
  }

  lemma EmitOffers(c: Config, sh: Shared, s: Slot, src: Bytes, dst: Bytes, callInfo: byte, pt: byte, payload: Bytes,
                   now: Time)
    ensures var o, o' := s.hist.offers, Emit(c, sh, s, src, dst, callInfo, pt, payload, now).hist.offers;
      |o'| == |o| + 1 && o'[..|o|] == o && o'[|o|].packet == NewPacket(c, sh, s.inb, src, dst, callInfo, pt, payload)
  {
    hide SlotBusy, RememberSent;
  }

  /** One more packet: the counters move on, nothing else of the call changes. */
  lemma EmitMakes(c: Config, ts: Timeslot, sh: Shared, s: Slot, callInfo: byte, pt: byte, payload: Bytes, now: Time,
                  k: InCall, n: nat, b: Burst)
    requires Stands(s.inb, k, n)
    requires Makes(c, ts, sh, k, n, b, NewPacket(c, sh, s.inb, b.src, b.dst, callInfo, pt, payload))
    ensures var s' := Emit(c, sh, s, b.src, b.dst, callInfo, pt, payload, now);
      && MakesAll(c, ts, sh, k, n, b, s.hist.offers, s'.hist.offers, 1)
      && Stands(s'.inb, k, n + 1)
      && s'.inb == s.inb.(rtpSeq := s'.inb.rtpSeq, rtpTs := s'.inb.rtpTs)
  {
    hide Emit, Makes, NewPacket;
    EmitOffers(c, sh, s, b.src, b.dst, callInfo, pt, payload, now);
    EmitFrame(c, sh, s, b.src, b.dst, callInfo, pt, payload, now);
    StandsNext(s.inb, k, n);
  }

  lemma MakesMore(c: Config, ts: Timeslot, sh: Shared, k: InCall, n: nat, b: Burst, o: seq<Offer>, o1: seq<Offer>,
                  o2: seq<Offer>, m1: nat, m2: nat)
    requires MakesAll(c, ts, sh, k, n, b, o, o1, m1) && MakesAll(c, ts, sh, k, n + m1, b, o1, o2, m2)
    ensures MakesAll(c, ts, sh, k, n, b, o, o2, m1 + m2)
  {
    hide Makes;
    assert o2[..|o|] == o2[..|o1|][..|o|];
    forall j | |o| <= j < |o2| ensures Makes(c, ts, sh, k, n + j - |o|, b, o2[j].packet) {
      if j < |o1| {
        assert o2[j] == o2[..|o1|][j] == o1[j];
      } else {
        assert n + m1 + j - |o1| == n + j - |o|;
      }
    }
  }

  /** n headers of a call that has made none. */
  lemma {:induction false} HeadsMake(c: Config, ts: Timeslot, sh: Shared, s: Slot, k: InCall, b: Burst, n: nat,
                                     now: Time)
    requires c.dmr.Valid() && |k.lc| == 9 && n <= HeaderCount(c) && Stands(s.inb, k, 0)
    ensures var s' := EmitHeads(c, ts, sh, s, k.lc, b.src, b.dst, n, now);
      && MakesAll(c, ts, sh, k, 0, b, s.hist.offers, s'.hist.offers, n)
      && Stands(s'.inb, k, n)
      && s'.inb == s.inb.(rtpSeq := s'.inb.rtpSeq, rtpTs := s'.inb.rtpTs)
  {
    hide Emit, Stands, Dmr.Valid, LcReads, LcGvPayload, MakesAll, Extract, VoiceReads;
    if n == 0 {
      NoneMade(c, ts, sh, k, b, s.hist.offers);
    } else {
      HeadsMake(c, ts, sh, s, k, b, n - 1, now);
      var t := EmitHeads(c, ts, sh, s, k.lc, b.src, b.dst, n - 1, now);
      LcPayloadReads(c.dmr, k.lc, true);
      StandsNumbers(t.inb, k, n - 1);
      EmitMakes(c, ts, sh, t, CallInfo(ts, false), if n == 1 then PT_FIRST_HEAD else PT_VOICE,
                LcGvPayload(c.dmr, VOICE_HEAD, k.lc), now, k, n - 1, b);
      MakesMore(c, ts, sh, k, 0, b, s.hist.offers, t.hist.offers,
                EmitHeads(c, ts, sh, s, k.lc, b.src, b.dst, n, now).hist.offers, n - 1, 1);
    }
  }

  lemma StandsNumbers(i: Inbound, k: InCall, n: nat)
    requires Stands(i, k, n)
    ensures i.rtpSeq % 0x1_0000 == (k.seq0 + n) % 0x1_0000
    ensures i.rtpTs % 0x1_0000_0000 == (k.ts0 + 480 * n) % 0x1_0000_0000
  {
  }

  lemma NoneMade(c: Config, ts: Timeslot, sh: Shared, k: InCall, b: Burst, o: seq<Offer>)
    ensures MakesAll(c, ts, sh, k, 0, b, o, o, 0)
  {
  }

  // ------------------------------------------------------------------
  // The slot agrees with the call
  // ------------------------------------------------------------------

  /** The slot's fields are those of the call. */
  ghost predicate Agrees(c: Config, i: Inbound, k: Option<InCall>, heard: Time) {
    match k
    case None => i.lc.None? && !i.started
    case Some(k) =>
      && |k.lc| == 9 && i.lc == Some(k.lc) && i.embLc == Some(c.dmr.encodeEmbLc(k.lc))
      && i.hbpStream == Some(k.stream) && i.src == Some(k.src) && i.dst == Some(k.dst) && i.lastHead == k.headAt
      && (i.started <==> k.sent > 0) && (k.sent > 0 ==> k.sent >= HeaderCount(c)) && Stands(i, k, k.sent)
        && i.lastPkt == heard
  }

  /** What the slot has done on an accepted DMRD: the call goes on as told, and exactly its packets are made. */
  ghost predicate Does(c: Config, ts: Timeslot, sh: Shared, k: Option<InCall>, e: Event, s: Slot, s': Slot)
    requires e.HbpPacket? && |e.dmrd| >= DMRD_LEN
  {
    var b, k', m := ParseDmrd(e.dmrd), After(c, k, e), Count(c, k, e);
    && Agrees(c, s'.inb, k', e.now)
    && (m == 0 ==> s'.hist.offers == s.hist.offers)
    && (m > 0 && k'.Some? ==>
          m <= k'.value.sent && MakesAll(c, ts, sh, k'.value, k'.value.sent - m, b, s.hist.offers, s'.hist.offers, m))
    && (m > 0 && k'.None? ==>
          k.Some? && MakesAll(c, ts, sh, k.value, k.value.sent, b, s.hist.offers, s'.hist.offers, m))
  }

  lemma StartMakes(c: Config, ts: Timeslot, sh: Shared, s: Slot, k: InCall, b: Burst, now: Time)
    requires c.dmr.Valid() && |k.lc| == 9 && k.sent == 0 && Agrees(c, s.inb, Some(k), now)
    ensures var s', h := EmitStart(c, ts, sh, s, b.src, b.dst, now), HeaderCount(c);
      && MakesAll(c, ts, sh, k, 0, b, s.hist.offers, s'.hist.offers, h)
      && Agrees(c, s'.inb, Some(k.(sent := h)), now)
  {
    hide EmitHeads, MakesAll, Dmr.Valid;
    assert c.Heads() == HeaderCount(c);
    HeadsMake(c, ts, sh, s, k, b, HeaderCount(c), now);
    StandsAlike(s.inb, k, k.(sent := HeaderCount(c)));
  }

  lemma StandsAlike(i: Inbound, k: InCall, k': InCall)
    requires k' == k.(sent := k'.sent)
    ensures forall i, n :: Stands(i, k, n) == Stands(i, k', n)
  {
  }

  lemma MakesAlike(c: Config, ts: Timeslot, sh: Shared, k: InCall, k': InCall, n: nat, b: Burst, o: seq<Offer>,
                   o': seq<Offer>, m: nat)
    requires k' == k.(sent := k'.sent) && MakesAll(c, ts, sh, k, n, b, o, o', m)
    ensures MakesAll(c, ts, sh, k', n, b, o, o', m)
  {
    hide LcReads, VoiceReads, Extract;
    forall j | |o| <= j < |o'| ensures Makes(c, ts, sh, k', n + j - |o|, b, o'[j].packet) {
      assert Makes(c, ts, sh, k, n + j - |o|, b, o'[j].packet);
    }
  }

  lemma DecodeIsNine(d: Dmr, payload: Bytes)
    requires |payload| == 33
    ensures |DecodeLc(d, payload)| == 9
  {
  }

  lemma HeadDoes(c: Config, ts: Timeslot, r: Res, k: Option<InCall>, e: Event)
    requires c.dmr.Valid() && HbpHeard(e, ts) && IsHead(ParseDmrd(e.dmrd).flags) && Agrees(c, r.s.inb, k, e.now)
    requires r.s.inb.lastPkt == e.now
    ensures Does(c, ts, r.sh, k, e, r.s, HbpHead(c, ts, r, ParseDmrd(e.dmrd), e.now, e.seq0, e.ts0).s)
  {
    hide EmitStart, DecodeLc, MakesAll, Dmr.Valid;
    var b := ParseDmrd(e.dmrd);
    DecodeIsNine(c.dmr, b.payload);
    assert DuplicateHead(r.s.inb, b, e.now) == (k.Some? && Repeats(k.value, b, e.now));
    if !(k.Some? && Repeats(k.value, b, e.now)) {
      var i := r.s.inb;
      var s := if i.hbpStream.Some? && i.lc.Some? && i.started then ResetInbound(r.s) else r.s;
      var lc := DecodeLc(c.dmr, b.payload);
      var q := OpenInbound(c, ts, r.(s := s), lc, b, e.now, e.seq0, e.ts0);
      var k0 := InCall(b.stream, b.src, b.dst, lc, e.now, e.seq0, e.ts0, 0);
      assert Agrees(c, q.s.inb, Some(k0), e.now);
      if !c.startOnVoice {
        StartMakes(c, ts, q.sh, q.s, k0, b, e.now);
        var s' := EmitStart(c, ts, q.sh, q.s, b.src, b.dst, e.now);
        MakesShared(c, ts, q.sh, r.sh, k0, 0, b, s.hist.offers, s'.hist.offers, HeaderCount(c));
        MakesAlike(c, ts, r.sh, k0, k0.(sent := HeaderCount(c)), 0, b, s.hist.offers, s'.hist.offers, HeaderCount(c));
      }
    }
  }

  /** Only the learned call metadata of the shared state shows in a packet. */
  lemma MakesShared(c: Config, ts: Timeslot, sh: Shared, sh': Shared, k: InCall, n: nat, b: Burst, o: seq<Offer>,
                    o': seq<Offer>, m: nat)
    requires sh'.callType == sh.callType && sh'.callCtrl == sh.callCtrl && MakesAll(c, ts, sh, k, n, b, o, o', m)
    ensures MakesAll(c, ts, sh', k, n, b, o, o', m)
  {
    hide LcReads, VoiceReads, Extract;
    forall j | |o| <= j < |o'| ensures Makes(c, ts, sh', k, n + j - |o|, b, o'[j].packet) {
      assert Makes(c, ts, sh, k, n + j - |o|, b, o'[j].packet);
    }
  }

  lemma TermDoes(c: Config, ts: Timeslot, r: Res, k: Option<InCall>, e: Event)
    requires c.dmr.Valid() && HbpHeard(e, ts) && Agrees(c, r.s.inb, k, e.now)
    requires var f := ParseDmrd(e.dmrd).flags; IsTerm(f) && !IsHead(f)
    ensures Does(c, ts, r.sh, k, e, r.s, HbpTerm(c, ts, r, ParseDmrd(e.dmrd), e.now).s)
  {
    hide Emit, LcGvPayload, LcReads, MakesAll, Dmr.Valid;
    var b := ParseDmrd(e.dmrd);
    if k.Some? && k.value.sent > 0 {
      var k0 := k.value;
      assert OrElse(r.s.inb.lc, c.dmr.lcOpt + b.dst + b.src) == k0.lc;
      LcPayloadReads(c.dmr, k0.lc, false);
      StandsNumbers(r.s.inb, k0, k0.sent);
      EmitMakes(c, ts, r.sh, r.s, CallInfo(ts, true), PT_TERM, LcGvPayload(c.dmr, VOICE_TERM, k0.lc), e.now, k0,
        k0.sent, b);
    }
  }

  lemma VoiceGvReads(d: Dmr, ts: Timeslot, i: Inbound, lc: Bytes, b: Burst, ambe: Bytes)
    requires d.Valid() && |lc| == 9 && i.lc == Some(lc) && i.embLc == Some(d.encodeEmbLc(lc)) && |ambe| == 19
    requires !IsHead(b.flags) && !IsTerm(b.flags)
    ensures VoiceReads(d, lc, b.src, b.dst, ts, PlaceOf(b.flags), ambe, VoiceGvPayload(d, ts, i, b, ambe))
  {
    assert d.LcLaws(lc);
    hide Dmr.Valid, Dmr.LcLaws, ToBytes, ByteOfBits;
    var place, sv := PlaceOf(b.flags), SlotVoice(ts);
    if place == 0 || place == 5 {
      var h := [sv, if place == 0 then 0x14 else 0x19, if place == 0 then 0x40 else 0x06];
      VoiceParts(h, ambe, if place == 0 then [] else [0, 0, 0, 0, 0x10]);
      assert h + ambe + [] == h + ambe;
    } else if place == 4 {
      FifthPlace(d, ts, i, lc, b, ambe);
    } else {
      MiddlePlace(d, ts, i, lc, b, ambe);
    }
  }

  lemma FifthPlace(d: Dmr, ts: Timeslot, i: Inbound, lc: Bytes, b: Burst, ambe: Bytes)
    requires PlaceOf(b.flags) == 4 && |lc| == 9 && i.lc == Some(lc) && i.embLc == Some(d.encodeEmbLc(lc))
      && |ambe| == 19
    requires 4 in d.encodeEmbLc(lc)
    ensures VoiceReads(d, lc, b.src, b.dst, ts, 4, ambe, VoiceGvPayload(d, ts, i, b, ambe))
  {
    hide ToBytes, ByteOfBits;
    var fragment, h := ToBytes(d.encodeEmbLc(lc)[4]), [SlotVoice(ts), 0x22, 0x16];
    assert Slice(OrElse(i.lc, [0, 0, 0]), 0, 3) == lc[..3];
    VoiceParts(h, ambe, fragment + lc[..3] + b.dst + b.src + [0x14]);
    FifthBurst(h + ambe, fragment, lc[..3], b.dst, b.src);
  }

  lemma MiddlePlace(d: Dmr, ts: Timeslot, i: Inbound, lc: Bytes, b: Burst, ambe: Bytes)
    requires 1 <= PlaceOf(b.flags) <= 3 && |lc| == 9 && i.lc == Some(lc) && i.embLc == Some(d.encodeEmbLc(lc))
      && |ambe| == 19
    requires PlaceOf(b.flags) in d.encodeEmbLc(lc)
    ensures VoiceReads(d, lc, b.src, b.dst, ts, PlaceOf(b.flags), ambe, VoiceGvPayload(d, ts, i, b, ambe))
  {
    hide ToBytes, ByteOfBits;
    var pos := PlaceOf(b.flags);
    var fragment, word := ToBytes(d.encodeEmbLc(lc)[pos]), [ByteOfBits(d.emb[pos - 1][..8]) / 2 * 2];
    var h := [SlotVoice(ts), 0x19, 0x06];
    VoiceParts(h, ambe, fragment + word);
    assert h + ambe + fragment + word == h + ambe + (fragment + word);
  }

  /** The voice packet itself, once the call has its headers. */
  lemma BurstMakes(c: Config, ts: Timeslot, sh: Shared, s: Slot, k: InCall, b: Burst, now: Time)
    requires c.dmr.Valid() && |b.payload| == 33 && !IsHead(b.flags) && !IsTerm(b.flags)
    requires Agrees(c, s.inb, Some(k), now) && k.sent > 0
    ensures var payload := VoiceGvPayload(c.dmr, ts, s.inb, b, Extract(c.dmr, b.payload));
      var s', k' := Emit(c, sh, s, b.src, b.dst, CallInfo(ts, false), PT_VOICE, payload, now), k.(sent := k.sent + 1);
      && MakesAll(c, ts, sh, k', k.sent, b, s.hist.offers, s'.hist.offers, 1)
      && Agrees(c, s'.inb, Some(k'), now)
  {
    hide Emit, VoiceGvPayload, VoiceReads, Extract, MakesAll, Dmr.Valid, LcReads;
    var ambe := Extract(c.dmr, b.payload);
    VoiceGvReads(c.dmr, ts, s.inb, k.lc, b, ambe);
    StandsNumbers(s.inb, k, k.sent);
    var k' := k.(sent := k.sent + 1);
    EmitMakes(c, ts, sh, s, CallInfo(ts, false), PT_VOICE, VoiceGvPayload(c.dmr, ts, s.inb, b, ambe), now, k, k.sent,
      b);
    MakesAlike(c, ts, sh, k, k', k.sent, b, s.hist.offers,
               Emit(c, sh, s, b.src, b.dst, CallInfo(ts, false), PT_VOICE, VoiceGvPayload(c.dmr, ts, s.inb, b, ambe),
                 now)
                 .hist.offers, 1);
    StandsAlike(s.inb, k, k');
  }

  lemma VoiceDoes(c: Config, ts: Timeslot, r: Res, k: Option<InCall>, e: Event)
    requires c.dmr.Valid() && HbpHeard(e, ts) && Agrees(c, r.s.inb, k, e.now)
    requires r.s.inb.lastPkt == e.now
    requires var f := ParseDmrd(e.dmrd).flags; !IsTerm(f) && !IsHead(f)
    ensures Does(c, ts, r.sh, k, e, r.s, HbpVoiceBurst(c, ts, r, ParseDmrd(e.dmrd), e.now, e.seq0, e.ts0).s)
  {
    hide Emit, EmitStart, VoiceGvPayload, Extract, MakesAll, Dmr.Valid;
    var b := ParseDmrd(e.dmrd);
    if k.Some? || !c.legacy {
      var k0 := if k.Some? then k.value
                else InCall(b.stream, b.src, b.dst, c.dmr.lcOpt + b.dst + b.src, e.now, e.seq0, e.ts0, 0);
      LateLcIsNine(c.dmr, b);
      var q := HbpLateEntry(c, ts, r, b, e.now, e.seq0, e.ts0);
      assert Agrees(c, q.s.inb, Some(k0), e.now);
      var s1 := EmitStart(c, ts, q.sh, q.s, b.src, b.dst, e.now);
      var k1 := if k0.sent == 0 then k0.(sent := HeaderCount(c)) else k0;
      var s2 := HbpVoiceBurst(c, ts, r, b, e.now, e.seq0, e.ts0).s;
      var k2 := k1.(sent := k1.sent + 1);
      if k0.sent == 0 {
        StartMakes(c, ts, q.sh, q.s, k0, b, e.now);
        BurstMakes(c, ts, q.sh, s1, k1, b, e.now);
        MakesAlike(c, ts, q.sh, k0, k2, 0, b, q.s.hist.offers, s1.hist.offers, HeaderCount(c));
        MakesMore(c, ts, q.sh, k2, 0, b, q.s.hist.offers, s1.hist.offers, s2.hist.offers, HeaderCount(c), 1);
        MakesShared(c, ts, q.sh, r.sh, k2, 0, b, q.s.hist.offers, s2.hist.offers, HeaderCount(c) + 1);
      } else {
        StartedAlready(c, ts, q.sh, q.s, b.src, b.dst, e.now);
        BurstMakes(c, ts, q.sh, s1, k1, b, e.now);
      }
    }
  }

  lemma StartedAlready(c: Config, ts: Timeslot, sh: Shared, s: Slot, src: Bytes, dst: Bytes, now: Time)
    requires s.inb.started
    ensures EmitStart(c, ts, sh, s, src, dst, now) == s
  {
  }

  lemma LateLcIsNine(d: Dmr, b: Burst)
    requires d.Valid() && |b.src| == |b.dst| == 3
    ensures |d.lcOpt + b.dst + b.src| == 9
  {
  }

  /** An accepted DMRD. */
  lemma AcceptedDoes(c: Config, ts: Timeslot, r: Res, k: Option<InCall>, e: Event, heard: Time)
    requires c.dmr.Valid() && Agrees(c, r.s.inb, k, heard) && Accepted(c, r.s, e, ts)
    ensures Does(c, ts, r.sh, k, e, r.s, SlotStep(c, ts, r, e).s)
  {
    hide HbpGate, HbpHead, HbpTerm, HbpVoiceBurst, MakesAll, After, Count, Dmr.Valid;
    var b := ParseDmrd(e.dmrd);
    HbpGateFrame(c, r.s, b, e.now);
    var g := HbpGate(c, r.s, b, e.now);
    var q := r.(s := g.s);
    assert Agrees(c, g.s.inb, k, e.now);
    if IsHead(b.flags) {
      HeadDoes(c, ts, q, k, e);
    } else if IsTerm(b.flags) {
      TermDoes(c, ts, q, k, e);
    } else {
      VoiceDoes(c, ts, q, k, e);
    }
  }

  // ------------------------------------------------------------------
  // Every run
  // ------------------------------------------------------------------

  /** Events that bring this slot no DMRD. */
  lemma OthersAgree(c: Config, ts: Timeslot, r: Res, k: Option<InCall>, e: Event, heard: Time)
    requires Agrees(c, r.s.inb, k, heard) && !HbpHeard(e, ts)
    ensures var s' := SlotStep(c, ts, r, e).s;
      && Agrees(c, s'.inb, if e.PeerLost? || e.HbpLost? || (e.Watchdog? && e.now - heard > 10_000_000) then None
        else k, heard)
      && s'.hist.offers == r.s.hist.offers
  {
    hide IpscGate, IpscForward, HbpVoice, Drain, Stands;
    match e
    case IpscPacket(_, data, burst, _, now, nonce) =>
      IpscGateFrame(c, r.s, data, burst, now);
      IpscForwardFrame(c, ts, Res(Learn(r.sh, data), IpscGate(c, r.s, data, burst, now).s), data, burst, now, nonce);
    case DrainFires(_, now, later) => DrainFrame(c, r.s, now, later);
    case _ =>
  }

  /** A DMRD the gates stop. */
  lemma StoppedAgrees(c: Config, ts: Timeslot, r: Res, k: Option<InCall>, e: Event, heard: Time)
    requires Agrees(c, r.s.inb, k, heard) && HbpHeard(e, ts) && !Accepted(c, r.s, e, ts)
    ensures var s' := SlotStep(c, ts, r, e).s; Agrees(c, s'.inb, k, e.now) && s'.hist.offers == r.s.hist.offers
  {
    hide HbpGate, HbpForward;
    HbpGateFrame(c, r.s, ParseDmrd(e.dmrd), e.now);
  }

  lemma NoCallAgrees(c: Config, i: Inbound)
    requires i.lc.None? && !i.started
    ensures forall heard :: Agrees(c, i, None, heard)
  {
  }

  lemma {:induction false} AgreesAlways(c: Config, evs: seq<Event>, ts: Timeslot)
    requires c.dmr.Valid()
    ensures Agrees(c, Run(c, evs).At(ts).inb, CallAfter(c, evs, ts), LastHeard(evs, FromHbp, ts))
  {
    hide SlotStep, Agrees, After, Count, HbpGate, Dmr.Valid;
    if evs == [] {
      NoCallAgrees(c, IDLE_SLOT.inb);
    } else {
      var pre, e := evs[..|evs| - 1], evs[|evs| - 1];
      var k, heard := CallAfter(c, pre, ts), LastHeard(pre, FromHbp, ts);
      AgreesAlways(c, pre, ts);
      StepSeen(c, ts, Run(c, pre), e);
      var r := Seen(c, ts, Run(c, pre), e);
      if !HbpHeard(e, ts) {
        OthersAgree(c, ts, r, k, e, heard);
      } else if Accepted(c, r.s, e, ts) {
        AcceptedDoes(c, ts, r, k, e, heard);
      } else {
        StoppedAgrees(c, ts, r, k, e, heard);
      }
    }
  }

  lemma SeenShared(c: Config, ts: Timeslot, st: State, e: Event)
    requires HbpHeard(e, ts)
    ensures Seen(c, ts, st, e).sh == st.sh
  {
    hide HbpVoice;
  }

  /**
   Main result: on every run, an event makes a slot generate exactly the packets that the call,
   as the events so far tell it, calls for: none unless it brings an accepted DMRD, and then
   Count of them, each reading as Makes says.
   */
  lemma GeneratesExactly(c: Config, evs: seq<Event>, ts: Timeslot)
    requires c.dmr.Valid() && evs != []
    ensures var pre, e := evs[..|evs| - 1], evs[|evs| - 1];
      var st, s' := Run(c, pre), Run(c, evs).At(ts);
      if Accepted(c, st.At(ts), e, ts) then Does(c, ts, st.sh, CallAfter(c, pre, ts), e, st.At(ts), s')
      else s'.hist.offers == st.At(ts).hist.offers
  {
    hide SlotStep, Agrees, After, Count, HbpGate, Dmr.Valid, Does;
    var pre, e := evs[..|evs| - 1], evs[|evs| - 1];
    var k, heard := CallAfter(c, pre, ts), LastHeard(pre, FromHbp, ts);
    AgreesAlways(c, pre, ts);
    StepSeen(c, ts, Run(c, pre), e);
    var r := Seen(c, ts, Run(c, pre), e);
    if !HbpHeard(e, ts) {
      OthersAgree(c, ts, r, k, e, heard);
    } else {
      SeenShared(c, ts, Run(c, pre), e);
      if Accepted(c, r.s, e, ts) {
        AcceptedDoes(c, ts, r, k, e, heard);
      } else {
        StoppedAgrees(c, ts, r, k, e, heard);
      }
    }
  }

  /**
   Main result: a DMRD the lock lets pass is accepted unless, in LEGACY_AMBE flow, it is the
   terminator of another stream than the open call's.
   */
  lemma AcceptedExactlyWhen(c: Config, evs: seq<Event>, ts: Timeslot, e: Event)
    requires c.dmr.Valid() && HbpHeard(e, ts)
    ensures var s, b, k := Run(c, evs).At(ts), ParseDmrd(e.dmrd), CallAfter(c, evs, ts);
      Accepted(c, s, e, ts) <==>
        && LockGate(c, s.(inb := s.inb.(lastPkt := e.now)), FromHbp, HbpKey(b.stream), b.src, b.dst, IsTerm(b.flags),
          e.now).pass
        && !(c.legacy && IsTerm(b.flags) && k.Some? && k.value.stream != b.stream)
  {
    hide LockGate, Run, CallAfter, LastHeard, Dmr.Valid;
    var s, b := Run(c, evs).At(ts), ParseDmrd(e.dmrd);
    AgreesAlways(c, evs, ts);
    LockGateFrame(c, s.(inb := s.inb.(lastPkt := e.now)), FromHbp, HbpKey(b.stream), b.src, b.dst, IsTerm(b.flags),
      e.now);
    Shapes.ShapeAlways(c, evs, ts);
  }

  /** Main result: a DMRD shorter than 55 bytes, or any packet while the far side is down, changes nothing. */
  lemma UnusableIsIgnored(c: Config, st: State, e: Event)
    requires (e.HbpPacket? && (|e.dmrd| < 55 || !e.up)) || (e.IpscPacket? && !e.up)
    ensures Step(c, st, e) == st
  {
    hide HbpVoice, IpscVoice;
  }

  // ------------------------------------------------------------------
  // Learned call metadata
  // ------------------------------------------------------------------

  /** Call type and control bytes: those of the last IPSC packet let through on either slot, until IPSC is lost. */
  function Learned(c: Config, evs: seq<Event>): (Bytes, Bytes) {
    if evs == [] then ([0x02], [0x00, 0x00, 0x43, 0xE2])
    else
      var pre, e := evs[..|evs| - 1], evs[|evs| - 1];
      if e.PeerLost? then ([0x02], [0x00, 0x00, 0x43, 0xE2])
      else if e.IpscPacket? && e.up && |e.data| >= 17
              && IpscGate(c, Run(c, pre).At(e.ts), e.data, e.burst, e.now).pass
      then (e.data[12..13], e.data[13..17])
      else Learned(c, pre)
  }

  lemma SlotLearns(c: Config, ts: Timeslot, r: Res, e: Event)
    ensures var sh' := SlotStep(c, ts, r, e).sh;
      (sh'.callType, sh'.callCtrl) ==
        if IpscHeard(e, ts) && |e.data| >= 17 && IpscGate(c, r.s, e.data, e.burst, e.now).pass
        then (e.data[12..13], e.data[13..17]) else (r.sh.callType, r.sh.callCtrl)
  {
    hide IpscGate, IpscForward, HbpGate, HbpForward, Drain;
    match e
    case IpscPacket(_, data, burst, _, now, nonce) =>
      IpscForwardFrame(c, ts, Res(Learn(r.sh, data), IpscGate(c, r.s, data, burst, now).s), data, burst, now, nonce);
    case HbpPacket(dmrd, _, now, seq0, ts0) =>
      if |dmrd| >= DMRD_LEN {
        var b := ParseDmrd(dmrd);
        HbpForwardFrame(c, ts, r.(s := HbpGate(c, r.s, b, now).s), b, now, seq0, ts0);
      }
    case _ =>
  }

  /** Main result: generated packets echo the metadata of the last IPSC packet let through. */
  lemma {:induction false} LearnedAlways(c: Config, evs: seq<Event>)
    ensures var sh := Run(c, evs).sh; (sh.callType, sh.callCtrl) == Learned(c, evs)
  {
    hide SlotStep, IpscGate;
    if evs != [] {
      var pre, e := evs[..|evs| - 1], evs[|evs| - 1];
      var st := Run(c, pre);
      LearnedAlways(c, pre);
      var r1 := SlotStep(c, TS1, Res(st.sh, st.one), e);
      SlotLearns(c, TS1, Res(st.sh, st.one), e);
      SlotLearns(c, TS2, Res(r1.sh, st.two), e);
    }
  }
}
