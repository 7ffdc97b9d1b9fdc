/**
 A whole call in: the DMRDs of a call, relayed amid whatever else happens, generate exactly its packets.
 */
module CallIn {
  import opened Prelude
  import opened Wire
  import opened AmbeCodec
  import opened Packets
  import opened CallModel
  import opened Frames
  import opened Runs
  import opened CallOut

  /** What a generated packet says, its numbering apart. */
  datatype Face = Face(src: Bytes, dst: Bytes, callInfo: byte, pt: byte, payload: Bytes)

  function FaceOf(p: Gv): Face {
    Face(p.src, p.dst, p.callInfo, p.pt, p.payload)
  }

  function Faces(o: seq<Offer>): (r: seq<Face>)
    ensures |r| == |o|
  {
    seq(|o|, i requires 0 <= i < |o| => FaceOf(o[i].packet))
  }

  /** The burst payload at a superframe position, for the given AMBE block. */
  function PayloadAt(d: Dmr, ts: Timeslot, call: WholeCall, pos: nat, ambe: Bytes): Bytes
    requires pos < 6
  {
    var lc := LcOf(d, call);
    var emb := d.encodeEmbLc(lc);
    if pos == 0 then [SlotVoice(ts), 0x14, 0x40] + ambe
    else if pos == 5 then [SlotVoice(ts), 0x19, 0x06] + ambe + [0, 0, 0, 0, 0x10]
    else if pos !in emb then []
    else if pos == 4 then
      [SlotVoice(ts), 0x22, 0x16] + ambe + ToBytes(emb[4]) + d.lcOpt + call.dst + call.src + [0x14]
    else [SlotVoice(ts), 0x19, 0x06] + ambe + ToBytes(emb[pos]) + [ByteOfBits(EmbWord(d, pos)[..8]) / 2 * 2]
  }

  function HeadFaces(c: Config, ts: Timeslot, call: WholeCall, n: nat): (r: seq<Face>)
    ensures |r| == n
  {
    seq(n, i requires 0 <= i < n =>
      Face(call.src, call.dst, CallInfo(ts, false), if i == 0 then PT_FIRST_HEAD else PT_VOICE,
           LcGvPayload(c.dmr, VOICE_HEAD, LcOf(c.dmr, call))))
  }

  function BurstFace(c: Config, ts: Timeslot, call: WholeCall, i: nat): Face
    requires i < |call.blocks| && call.WellFormed()
  {
    Face(call.src, call.dst, CallInfo(ts, false), PT_VOICE,
         PayloadAt(c.dmr, ts, call, call.Position(i), Canonical(call.blocks[i])))
  }

  function VoiceFaces(c: Config, ts: Timeslot, call: WholeCall, n: nat): (r: seq<Face>)
    requires n <= |call.blocks| && call.WellFormed()
    ensures |r| == n
  {
    seq(n, i requires 0 <= i < n => BurstFace(c, ts, call, i))
  }

  function TermFace(c: Config, ts: Timeslot, call: WholeCall): Face {
    Face(call.src, call.dst, CallInfo(ts, true), PT_TERM, LcGvPayload(c.dmr, VOICE_TERM, LcOf(c.dmr, call)))
  }

  /** Whether the headers go out on the voice and there is none: such a call generates nothing. */
  predicate Mute(c: Config, call: WholeCall) {
    c.startOnVoice && call.blocks == []
  }

  /** The packets generated for the whole call. */
  function CallFaces(c: Config, ts: Timeslot, call: WholeCall): seq<Face>
    requires call.WellFormed()
  {
    if Mute(c, call) then []
    else HeadFaces(c, ts, call, c.Heads()) + VoiceFaces(c, ts, call, |call.blocks|) + [TermFace(c, ts, call)]
  }

  /** A call may come in: none is open, and the lock is open to it. */
  predicate CanHear(c: Config, s: Slot, stream: Bytes, now: Time) {
    && s.inb.lc.None? && !s.inb.started
    && (c.callLock ==> LockOpen(s, FromHbp, HbpKey(stream), now))
  }

  /** The inbound call is open on this LC, holds the lock and was last heard at the given time. */
  ghost predicate Hearing(c: Config, s: Slot, call: WholeCall, stream: Bytes, started: bool, last: Time) {
    && s.inb.lc == Some(LcOf(c.dmr, call)) && s.inb.embLc == Some(c.dmr.encodeEmbLc(LcOf(c.dmr, call)))
    && s.inb.started == started && s.inb.lastPkt == last
    && (c.callLock ==> s.lock.owner == Some(FromHbp) && stream !in s.lock.blockedHbp)
  }

  lemma HbpPasses(c: Config, s: Slot, b: Burst, now: Time)
    requires !c.legacy && (c.callLock ==> LockOpen(s, FromHbp, HbpKey(b.stream), now))
    ensures var g := HbpGate(c, s, b, now);
      && g.pass && g.s.inb == s.inb.(lastPkt := now) && g.s.hist == s.hist
      && (c.callLock ==> g.s.lock.owner == Some(FromHbp) && b.stream !in g.s.lock.blockedHbp)
  {
    hide Live;
  }

  lemma EmitShows(c: Config, sh: Shared, s: Slot, src: Bytes, dst: Bytes, callInfo: byte, pt: byte, payload: Bytes,
                  now: Time)
    ensures Faces(Emit(c, sh, s, src, dst, callInfo, pt, payload, now).hist.offers)
         == Faces(s.hist.offers) + [Face(src, dst, callInfo, pt, payload)]
  {
    hide SlotBusy, RememberSent;
  }

  lemma {:induction false} HeadsShow(c: Config, ts: Timeslot, sh: Shared, s: Slot, call: WholeCall, n: nat, now: Time)
    ensures Faces(EmitHeads(c, ts, sh, s, LcOf(c.dmr, call), call.src, call.dst, n, now).hist.offers)
         == Faces(s.hist.offers) + HeadFaces(c, ts, call, n)
  {
    hide Emit, Faces, LcGvPayload;
    if n > 0 {
      HeadsShow(c, ts, sh, s, call, n - 1, now);
      var pt := if n == 1 then PT_FIRST_HEAD else PT_VOICE;
      EmitShows(c, sh, EmitHeads(c, ts, sh, s, LcOf(c.dmr, call), call.src, call.dst, n - 1, now), call.src, call.dst,
                CallInfo(ts, false), pt, LcGvPayload(c.dmr, VOICE_HEAD, LcOf(c.dmr, call)), now);
      assert HeadFaces(c, ts, call, n) == HeadFaces(c, ts, call, n - 1)
          + [Face(call.src, call.dst, CallInfo(ts, false), pt, LcGvPayload(c.dmr, VOICE_HEAD, LcOf(c.dmr, call)))];
    }
  }

  /** The headers go out for a call that is heard but not started. */
  lemma StartShows(c: Config, ts: Timeslot, sh: Shared, s: Slot, call: WholeCall, stream: Bytes, last: Time, now: Time)
    requires Hearing(c, s, call, stream, false, last) && |c.dmr.lcOpt| == 3
    ensures var s' := EmitStart(c, ts, sh, s, call.src, call.dst, now);
      Hearing(c, s', call, stream, true, last)
        && Faces(s'.hist.offers) == Faces(s.hist.offers) + HeadFaces(c, ts, call, c.Heads())
  {
    hide EmitHeads, Faces, HeadFaces;
    HeadsShow(c, ts, sh, s, call, c.Heads(), now);
    EmitHeadsFrame(c, ts, sh, s, LcOf(c.dmr, call), call.src, call.dst, c.Heads(), now);
  }

  /** The receiver decodes the LC the sender coded. */
  lemma LcSurvives(d: Dmr, lc: Bytes)
    requires d.Valid() && |lc| == 9
    ensures |HeadPayload(d, lc)| == 33 && DecodeLc(d, HeadPayload(d, lc)) == lc
  {
    assert d.LcLaws(lc);
    var full := d.encodeHeaderLc(lc);
    var bits := full[..98] + d.slotTypeHead[..10] + d.dataSync + d.slotTypeHead[10..] + full[98..];
    BitsRoundTrip(bits);
    assert bits[..98] + bits[166..264] == full;
    BytesRoundTrip(lc);
  }

  lemma TermPayloadSize(d: Dmr, lc: Bytes)
    requires d.Valid() && |lc| == 9
    ensures |TermPayload(d, lc)| == 33
  {
    assert d.LcLaws(lc);
  }

  lemma HeadHeard(c: Config, ts: Timeslot, r: Res, call: WholeCall, b: Burst, now: Time, seq0: nat, ts0: nat)
    requires c.dmr.Valid() && !c.legacy && call.WellFormed() && CanHear(c, r.s, b.stream, now)
    requires b.src == call.src && b.dst == call.dst && b.flags == HeadFlags(ts)
    requires b.payload == HeadPayload(c.dmr, LcOf(c.dmr, call)) && |b.payload| == 33
    ensures var r' := HbpVoice(c, ts, r, b, now, seq0, ts0);
      && Hearing(c, r'.s, call, b.stream, !c.startOnVoice, now)
      && Faces(r'.s.hist.offers)
           == Faces(r.s.hist.offers) + if c.startOnVoice then [] else HeadFaces(c, ts, call, c.Heads())
  {
    hide EmitStart, DecodeLc, HbpGate, Faces, HeadFaces, HeadPayload, LockOpen;
    FlagsReadBack(ts, 0);
    HbpPasses(c, r.s, b, now);
    LcSurvives(c.dmr, LcOf(c.dmr, call));
    var g := HbpGate(c, r.s, b, now);
    var q := OpenInbound(c, ts, r.(s := g.s), LcOf(c.dmr, call), b, now, seq0, ts0);
    StartShows(c, ts, q.sh, q.s, call, b.stream, now, now);
  }

  /** Burst E carries the last embedded LC fragment and a copy of the LC. */
  lemma BurstEIsAt(d: Dmr, ts: Timeslot, i: Inbound, b: Burst, call: WholeCall, ambe: Bytes)
    requires |d.lcOpt| == 3 && 4 in d.encodeEmbLc(LcOf(d, call))
    requires FrameTypeOf(b.flags).Voice? && DtypeOf(b.flags) == 4 && b.src == call.src && b.dst == call.dst
    requires i.lc == Some(LcOf(d, call)) && i.embLc == Some(d.encodeEmbLc(LcOf(d, call)))
    ensures VoiceGvPayload(d, ts, i, b, ambe) == PayloadAt(d, ts, call, 4, ambe)
  {
    assert OrElse(i.lc, [0, 0, 0]) == LcOf(d, call) && Slice(LcOf(d, call), 0, 3) == d.lcOpt;
    hide LcOf, OrElse, Slice, ToBytes, ByteOfBits, EmbWord, FrameTypeOf, DtypeOf;
  }

  lemma OtherBurstIsAt(d: Dmr, ts: Timeslot, i: Inbound, b: Burst, call: WholeCall, pos: nat, ambe: Bytes)
    requires pos < 6 && pos != 4 && (1 <= pos <= 3 ==> pos in d.encodeEmbLc(LcOf(d, call)))
    requires FrameTypeOf(b.flags) == (if pos == 0 then VoiceSync else Voice) && DtypeOf(b.flags) == pos
    requires i.embLc == Some(d.encodeEmbLc(LcOf(d, call)))
    ensures VoiceGvPayload(d, ts, i, b, ambe) == PayloadAt(d, ts, call, pos, ambe)
  {
    hide LcOf, OrElse, Slice, ToBytes, ByteOfBits, EmbWord, FrameTypeOf, DtypeOf;
  }

  /** The generated payload of a received burst is the one for its position. */
  lemma PayloadIsAt(d: Dmr, ts: Timeslot, i: Inbound, b: Burst, call: WholeCall, pos: nat, ambe: Bytes)
    requires d.Valid() && call.WellFormed() && pos < 6 && b.flags == VoiceFlags(ts, pos)
    requires b.src == call.src && b.dst == call.dst
    requires i.lc == Some(LcOf(d, call)) && i.embLc == Some(d.encodeEmbLc(LcOf(d, call)))
    ensures VoiceGvPayload(d, ts, i, b, ambe) == PayloadAt(d, ts, call, pos, ambe)
  {
    FlagsReadBack(ts, pos);
    assert d.LcLaws(LcOf(d, call));
    hide VoiceGvPayload, PayloadAt, VoiceFlags, FrameTypeOf, DtypeOf, LcOf;
    if pos == 4 {
      BurstEIsAt(d, ts, i, b, call, ambe);
    } else {
      OtherBurstIsAt(d, ts, i, b, call, pos, ambe);
    }
  }

  /** A burst of an open call makes its own packet, after the headers if they are not out yet. */
  lemma VoiceGenerates(c: Config, ts: Timeslot, r: Res, call: WholeCall, b: Burst, now: Time, seq0: nat, ts0: nat,
                       i: nat, started: bool, last: Time)
    requires c.dmr.Valid() && !c.legacy && call.WellFormed() && i < |call.blocks|
    requires Hearing(c, r.s, call, b.stream, started, last)
    requires b.src == call.src && b.dst == call.dst && b.flags == VoiceFlags(ts, call.Position(i)) && |b.payload| == 33
    requires Extract(c.dmr, b.payload) == Canonical(call.blocks[i])
    ensures var s' := HbpVoiceBurst(c, ts, r, b, now, seq0, ts0).s;
      && Hearing(c, s', call, b.stream, true, last)
      && Faces(s'.hist.offers) == Faces(r.s.hist.offers)
           + (if started then [] else HeadFaces(c, ts, call, c.Heads())) + [BurstFace(c, ts, call, i)]
  {
    hide Emit, EmitStart, VoiceGvPayload, PayloadAt, Extract, Faces, HeadFaces, Canonical, VoiceFlags;
    var s := EmitStart(c, ts, r.sh, r.s, call.src, call.dst, now);
    if started {
      StartedStays(c, ts, r.sh, r.s, call.src, call.dst, now);
    } else {
      StartShows(c, ts, r.sh, r.s, call, b.stream, last, now);
    }
    var ambe := Extract(c.dmr, b.payload);
    PayloadIsAt(c.dmr, ts, s.inb, b, call, call.Position(i), ambe);
    EmitShows(c, r.sh, s, call.src, call.dst, CallInfo(ts, false), PT_VOICE, VoiceGvPayload(c.dmr, ts, s.inb, b, ambe),
      now);
    EmitFrame(c, r.sh, s, call.src, call.dst, CallInfo(ts, false), PT_VOICE, VoiceGvPayload(c.dmr, ts, s.inb, b, ambe),
      now);
  }

  lemma BurstHeard(c: Config, ts: Timeslot, r: Res, call: WholeCall, b: Burst, now: Time, seq0: nat, ts0: nat,
                   i: nat, started: bool, last: Time)
    requires c.dmr.Valid() && !c.legacy && call.WellFormed() && i < |call.blocks|
    requires Hearing(c, r.s, call, b.stream, started, last)
    requires b.src == call.src && b.dst == call.dst && b.flags == VoiceFlags(ts, call.Position(i)) && |b.payload| == 33
    requires Extract(c.dmr, b.payload) == Canonical(call.blocks[i])
    ensures var s' := HbpVoice(c, ts, r, b, now, seq0, ts0).s;
      && Hearing(c, s', call, b.stream, true, now)
      && Faces(s'.hist.offers) == Faces(r.s.hist.offers)
           + (if started then [] else HeadFaces(c, ts, call, c.Heads())) + [BurstFace(c, ts, call, i)]
  {
    hide HbpVoiceBurst, Extract, HbpGate, Faces, HeadFaces, BurstFace, Canonical, VoiceFlags, Dmr.Valid;
    FlagsReadBack(ts, call.Position(i));
    HbpPasses(c, r.s, b, now);
    var g := HbpGate(c, r.s, b, now);
    VoiceGenerates(c, ts, r.(s := g.s), call, b, now, seq0, ts0, i, started, now);
  }

  /** A late call opens on its first burst, with the LC its source and group make. */
  lemma LateHeard(c: Config, ts: Timeslot, r: Res, call: WholeCall, b: Burst, now: Time, seq0: nat, ts0: nat)
    requires c.dmr.Valid() && !c.legacy && call.WellFormed() && call.late && CanHear(c, r.s, b.stream, now)
    requires b.src == call.src && b.dst == call.dst && b.flags == VoiceFlags(ts, call.Position(0)) && |b.payload| == 33
    requires Extract(c.dmr, b.payload) == Canonical(call.blocks[0])
    ensures var s' := HbpVoice(c, ts, r, b, now, seq0, ts0).s;
      && Hearing(c, s', call, b.stream, true, now)
      && Faces(s'.hist.offers)
           == Faces(r.s.hist.offers) + HeadFaces(c, ts, call, c.Heads()) + [BurstFace(c, ts, call, 0)]
  {
    hide Emit, EmitStart, VoiceGvPayload, Extract, HbpGate, Faces, HeadFaces, BurstFace, Canonical, VoiceFlags,
      Dmr.Valid, LockOpen;
    FlagsReadBack(ts, call.Position(0));
    HbpPasses(c, r.s, b, now);
    var g := HbpGate(c, r.s, b, now);
    var q := OpenInbound(c, ts, r.(s := g.s), LcOf(c.dmr, call), b, now, seq0, ts0);
    assert HbpVoice(c, ts, r, b, now, seq0, ts0) == HbpVoiceBurst(c, ts, q, b, now, seq0, ts0);
    VoiceGenerates(c, ts, q, call, b, now, seq0, ts0, 0, false, now);
  }

  lemma StartedStays(c: Config, ts: Timeslot, sh: Shared, s: Slot, src: Bytes, dst: Bytes, now: Time)
    requires s.inb.started
    ensures EmitStart(c, ts, sh, s, src, dst, now) == s
  {
  }

  lemma TermGenerates(c: Config, ts: Timeslot, r: Res, call: WholeCall, b: Burst, now: Time)
    requires |c.dmr.lcOpt| == 3 && call.WellFormed() && r.s.inb.lc == Some(LcOf(c.dmr, call))
    requires b.src == call.src && b.dst == call.dst
    ensures Faces(HbpTerm(c, ts, r, b, now).s.hist.offers)
         == Faces(r.s.hist.offers) + if r.s.inb.started then [TermFace(c, ts, call)] else []
  {
    assert LcOf(c.dmr, call) != [];
    hide Emit, LcGvPayload, Faces, LcOf;
    EmitShows(c, r.sh, r.s, b.src, b.dst, CallInfo(ts, true), PT_TERM,
      LcGvPayload(c.dmr, VOICE_TERM, LcOf(c.dmr, call)), now);
  }

  lemma TermHeard(c: Config, ts: Timeslot, r: Res, call: WholeCall, b: Burst, now: Time, seq0: nat, ts0: nat,
                  started: bool, last: Time)
    requires c.dmr.Valid() && !c.legacy && call.WellFormed() && Hearing(c, r.s, call, b.stream, started, last)
    requires b.src == call.src && b.dst == call.dst && b.flags == TermFlags(ts) && |b.payload| == 33
    ensures Faces(HbpVoice(c, ts, r, b, now, seq0, ts0).s.hist.offers)
         == Faces(r.s.hist.offers) + if started then [TermFace(c, ts, call)] else []
  {
    assert |c.dmr.lcOpt| == 3;
    hide Dmr.Valid, HbpGate, HbpTerm, Faces, LcOf, TermFace;
    FlagsReadBack(ts, 0);
    HbpPasses(c, r.s, b, now);
    TermGenerates(c, ts, r.(s := HbpGate(c, r.s, b, now).s), call, b, now);
  }

  /** After its terminator the slot is open again, to this stream at any time. */
  lemma TermLeavesOpen(c: Config, ts: Timeslot, r: Res, call: WholeCall, b: Burst, now: Time, seq0: nat, ts0: nat,
                       started: bool, last: Time, later: Time)
    requires !c.legacy && Hearing(c, r.s, call, b.stream, started, last) && b.flags == TermFlags(ts)
      && |b.payload| == 33
    ensures CanHear(c, HbpVoice(c, ts, r, b, now, seq0, ts0).s, b.stream, later)
  {
    hide HbpGate, HbpForward, LcOf;
    FlagsReadBack(ts, 0);
    HbpPasses(c, r.s, b, now);
    var g := HbpGate(c, r.s, b, now);
    HbpForwardFrame(c, ts, r.(s := g.s), b, now, seq0, ts0);
    TermResets(c, ts, r.(s := g.s), b, now, seq0, ts0);
  }

  lemma TermResets(c: Config, ts: Timeslot, r: Res, b: Burst, now: Time, seq0: nat, ts0: nat)
    requires IsTerm(b.flags) && |b.payload| == 33
    ensures var i := HbpForward(c, ts, r, b, now, seq0, ts0).s.inb; i.lc.None? && !i.started
  {
    hide Emit, LcGvPayload;
  }

  /** What the slot hears from HBP are these DMRDs, byte by byte and in order, amid other events. */
  predicate Relays(hevs: seq<Event>, ts: Timeslot, frames: seq<Dmrd>) {
    hevs == [] || (
      var pre, e := hevs[..|hevs| - 1], hevs[|hevs| - 1];
      var m := HeardCount(pre, FromHbp, ts);
      && Relays(pre, ts, frames)
      && if HbpHeard(e, ts) then m < |frames| && e.dmrd == frames[m].Bytes()
         else Amid(e, LastHeard(pre, FromHbp, ts), 0 < m < |frames|))
  }

  /** From the first of them on, all the DMRDs are relayed. */
  predicate RelaysWhole(hevs: seq<Event>, ts: Timeslot, frames: seq<Dmrd>) {
    hevs != [] && HbpHeard(hevs[0], ts) && Relays(hevs, ts, frames) && HeardCount(hevs, FromHbp, ts) == |frames|
  }

  /** Whether the receiver has started the call after m frames. */
  predicate StartedAfter(k: Config, call: WholeCall, m: nat) {
    m > 0 && (call.late || m > 1 || !k.startOnVoice)
  }

  /** What frame m adds (m counted from 0). */
  function FacesOf(c: Config, ts: Timeslot, call: WholeCall, m: nat): seq<Face>
    requires m < call.Length() && call.WellFormed()
  {
    if m < call.First() then (if c.startOnVoice then [] else HeadFaces(c, ts, call, c.Heads()))
    else if m == call.Length() - 1 then (if Mute(c, call) then [] else [TermFace(c, ts, call)])
    else
      (if StartedAfter(c, call, m) then [] else HeadFaces(c, ts, call, c.Heads()))
      + [BurstFace(c, ts, call, m - call.First())]
  }

  /** What the receiver has generated after m frames. */
  function FacesUpTo(c: Config, ts: Timeslot, call: WholeCall, m: nat): seq<Face>
    requires m <= call.Length() && call.WellFormed()
  {
    if m == 0 then [] else FacesUpTo(c, ts, call, m - 1) + FacesOf(c, ts, call, m - 1)
  }

  lemma FacesStep(c: Config, ts: Timeslot, call: WholeCall, m: nat)
    requires m < call.Length() && call.WellFormed()
    ensures FacesUpTo(c, ts, call, m + 1) == FacesUpTo(c, ts, call, m) + FacesOf(c, ts, call, m)
    ensures FacesUpTo(c, ts, call, 0) == []
  {
    hide FacesOf;
  }

  lemma VoiceFacesStep(c: Config, ts: Timeslot, call: WholeCall, m: nat)
    requires 0 < m <= |call.blocks| && call.WellFormed()
    ensures VoiceFaces(c, ts, call, m) == VoiceFaces(c, ts, call, m - 1) + [BurstFace(c, ts, call, m - 1)]
  {
    hide BurstFace;
  }

  lemma FrameSized(c: Config, ts: Timeslot, call: WholeCall, stream: Bytes, i: nat)
    requires c.dmr.Valid() && |c.repeaterId| == 4 && |stream| == 4 && call.WellFormed() && i < call.Length()
    ensures FrameAt(c, ts, call, stream, i).WellSized()
  {
    hide HeadPayload, TermPayload, Assemble, EmbedField;
    LcSurvives(c.dmr, LcOf(c.dmr, call));
    TermPayloadSize(c.dmr, LcOf(c.dmr, call));
  }

  lemma FrameReceived(c: Config, ts: Timeslot, call: WholeCall, stream: Bytes, i: nat, d: Dmrd)
    requires c.dmr.Valid() && |c.repeaterId| == 4 && |stream| == 4 && call.WellFormed() && i < call.Length()
    requires d.(seqNo := 0) == FrameAt(c, ts, call, stream, i)
    ensures |d.Bytes()| == DMRD_LEN
    ensures var f := FrameAt(c, ts, call, stream, i);
      ParseDmrd(d.Bytes()) == Burst(f.src, f.dst, f.flags, f.stream, f.payload)
  {
    hide FrameAt;
    FrameSized(c, ts, call, stream, i);
    DmrdRoundTrip(d);
  }

  lemma BurstExtracts(c: Config, ts: Timeslot, call: WholeCall, stream: Bytes, i: nat)
    requires c.dmr.Valid() && call.WellFormed() && i < |call.blocks|
    ensures var f := FrameAt(c, ts, call, stream, call.First() + i);
      && |f.payload| == 33 && Extract(c.dmr, f.payload) == Canonical(call.blocks[i])
      && f.flags == VoiceFlags(ts, call.Position(i))
  {
    hide Assemble, Extract, EmbedField, Canonical;
    AmbeRoundTrip(c.dmr, call.blocks[i],
                  EmbedField(c.dmr, call.Position(i), Some(c.dmr.encodeEmbLc(LcOf(c.dmr, call)))));
  }

  lemma FrameFields(c: Config, ts: Timeslot, call: WholeCall, stream: Bytes, i: nat)
    requires i < call.Length() && call.WellFormed()
    ensures var f := FrameAt(c, ts, call, stream, i);
      && f.src == call.src && f.dst == call.dst && f.stream == stream
      && (i < call.First() ==> f.flags == HeadFlags(ts) && f.payload == HeadPayload(c.dmr, LcOf(c.dmr, call)))
      && (i == call.Length() - 1 ==> f.flags == TermFlags(ts))
  {
    hide HeadPayload, TermPayload, Assemble, EmbedField;
  }

  lemma HbpStepIs(k: Config, ts: Timeslot, r: Res, e: Event)
    requires HbpHeard(e, ts)
    ensures SlotStep(k, ts, r, e) == HbpVoice(k, ts, r, ParseDmrd(e.dmrd), e.now, e.seq0, e.ts0)
  {
    hide HbpVoice;
  }

  /** What the receiver is in after m frames: ready for the call, or hearing it until its last frame. */
  ghost predicate Placed(k: Config, call: WholeCall, stream: Bytes, s: Slot, m: nat, last: Time) {
    0 < m < call.Length() ==> Hearing(k, s, call, stream, StartedAfter(k, call, m), last)
  }

  /** Frame m makes the receiver generate its own packets and no others. */
  lemma HeadFrameHeard(c: Config, k: Config, r: Res, ts: Timeslot, call: WholeCall, stream: Bytes, d: Dmrd, e: Event)
    requires c.dmr.Valid() && |c.repeaterId| == 4 && |stream| == 4 && call.WellFormed() && k.dmr == c.dmr && !k.legacy
    requires !call.late && d.(seqNo := 0) == FrameAt(c, ts, call, stream, 0)
    requires HbpHeard(e, ts) && e.dmrd == d.Bytes() && CanHear(k, r.s, stream, e.now)
    ensures var s' := SlotStep(k, ts, r, e).s;
      && Placed(k, call, stream, s', 1, e.now)
      && Faces(s'.hist.offers) == Faces(r.s.hist.offers) + FacesOf(k, ts, call, 0)
  {
    hide Dmr.Valid, SlotStep, HbpVoice, FrameAt, Faces, HeadFaces, Hearing, CanHear, HeadPayload;
    FrameReceived(c, ts, call, stream, 0, d);
    FrameFields(c, ts, call, stream, 0);
    HbpStepIs(k, ts, r, e);
    HeadHeard(k, ts, r, call, ParseDmrd(e.dmrd), e.now, e.seq0, e.ts0);
  }

  lemma FacesOfBurst(k: Config, ts: Timeslot, call: WholeCall, i: nat, f: seq<Face>)
    requires i < |call.blocks| && call.WellFormed()
    ensures f + FacesOf(k, ts, call, call.First() + i)
         == f + (if StartedAfter(k, call, call.First() + i) then [] else HeadFaces(k, ts, call, k.Heads()))
            + [BurstFace(k, ts, call, i)]
  {
    hide HeadFaces, BurstFace, TermFace;
    var heads := if StartedAfter(k, call, call.First() + i) then [] else HeadFaces(k, ts, call, k.Heads());
    assert f + heads + [BurstFace(k, ts, call, i)] == f + (heads + [BurstFace(k, ts, call, i)]);
  }

  /** What a received frame of a burst says. */
  lemma BurstReceived(c: Config, ts: Timeslot, call: WholeCall, stream: Bytes, i: nat, d: Dmrd)
    requires c.dmr.Valid() && |c.repeaterId| == 4 && |stream| == 4 && call.WellFormed() && i < |call.blocks|
    requires d.(seqNo := 0) == FrameAt(c, ts, call, stream, call.First() + i)
    ensures |d.Bytes()| == DMRD_LEN
    ensures var b := ParseDmrd(d.Bytes());
      && b.src == call.src && b.dst == call.dst && b.stream == stream && b.flags == VoiceFlags(ts, call.Position(i))
      && Extract(c.dmr, b.payload) == Canonical(call.blocks[i])
  {
    hide Dmr.Valid, FrameAt, Extract, Canonical, VoiceFlags;
    FrameReceived(c, ts, call, stream, call.First() + i, d);
    FrameFields(c, ts, call, stream, call.First() + i);
    BurstExtracts(c, ts, call, stream, i);
  }

  lemma LateFrameHeard(c: Config, k: Config, r: Res, ts: Timeslot, call: WholeCall, stream: Bytes, d: Dmrd, e: Event)
    requires c.dmr.Valid() && |c.repeaterId| == 4 && |stream| == 4 && call.WellFormed() && k.dmr == c.dmr && !k.legacy
    requires call.late && d.(seqNo := 0) == FrameAt(c, ts, call, stream, 0)
    requires HbpHeard(e, ts) && e.dmrd == d.Bytes() && CanHear(k, r.s, stream, e.now)
    ensures var s' := SlotStep(k, ts, r, e).s;
      && Placed(k, call, stream, s', 1, e.now)
      && Faces(s'.hist.offers) == Faces(r.s.hist.offers) + FacesOf(k, ts, call, 0)
  {
    hide Dmr.Valid, SlotStep, HbpVoice, FrameAt, Faces, FacesOf, HeadFaces, Hearing, CanHear, Canonical, BurstFace,
         ParseDmrd, VoiceFlags, Extract;
    BurstReceived(c, ts, call, stream, 0, d);
    HbpStepIs(k, ts, r, e);
    LateHeard(k, ts, r, call, ParseDmrd(e.dmrd), e.now, e.seq0, e.ts0);
    FacesOfBurst(k, ts, call, 0, Faces(r.s.hist.offers));
  }

  lemma TermFrameHeard(c: Config, k: Config, r: Res, ts: Timeslot, call: WholeCall, stream: Bytes, d: Dmrd, e: Event,
                       last: Time)
    requires c.dmr.Valid() && |c.repeaterId| == 4 && |stream| == 4 && call.WellFormed() && k.dmr == c.dmr && !k.legacy
    requires d.(seqNo := 0) == FrameAt(c, ts, call, stream, call.Length() - 1)
    requires HbpHeard(e, ts) && e.dmrd == d.Bytes() && Placed(k, call, stream, r.s, call.Length() - 1, last)
    ensures Faces(SlotStep(k, ts, r, e).s.hist.offers)
         == Faces(r.s.hist.offers) + FacesOf(k, ts, call, call.Length() - 1)
  {
    hide Dmr.Valid, SlotStep, HbpVoice, FrameAt, Faces, Hearing, TermFace;
    var m := call.Length() - 1;
    FrameReceived(c, ts, call, stream, m, d);
    FrameFields(c, ts, call, stream, m);
    HbpStepIs(k, ts, r, e);
    TermHeard(k, ts, r, call, ParseDmrd(e.dmrd), e.now, e.seq0, e.ts0, StartedAfter(k, call, m), last);
  }

  lemma BurstFrameHeard(c: Config, k: Config, r: Res, ts: Timeslot, call: WholeCall, stream: Bytes, d: Dmrd, e: Event,
                        i: nat, last: Time)
    requires c.dmr.Valid() && |c.repeaterId| == 4 && |stream| == 4 && call.WellFormed() && k.dmr == c.dmr && !k.legacy
    requires i < |call.blocks| && 0 < call.First() + i
      && d.(seqNo := 0) == FrameAt(c, ts, call, stream, call.First() + i)
    requires HbpHeard(e, ts) && e.dmrd == d.Bytes()
    requires Hearing(k, r.s, call, stream, StartedAfter(k, call, call.First() + i), last)
    ensures var s' := SlotStep(k, ts, r, e).s;
      && Hearing(k, s', call, stream, true, e.now)
      && Faces(s'.hist.offers) == Faces(r.s.hist.offers) + FacesOf(k, ts, call, call.First() + i)
  {
    hide Dmr.Valid, SlotStep, HbpVoice, FrameAt, Faces, FacesOf, HeadFaces, Hearing, Canonical, BurstFace, ParseDmrd,
         VoiceFlags, Extract;
    var m := call.First() + i;
    BurstReceived(c, ts, call, stream, i, d);
    HbpStepIs(k, ts, r, e);
    BurstHeard(k, ts, r, call, ParseDmrd(e.dmrd), e.now, e.seq0, e.ts0, i, StartedAfter(k, call, m), last);
    FacesOfBurst(k, ts, call, i, Faces(r.s.hist.offers));
  }

  lemma LaterFrameHeard(c: Config, k: Config, r: Res, ts: Timeslot, call: WholeCall, stream: Bytes, d: Dmrd, e: Event,
                        m: nat, last: Time)
    requires c.dmr.Valid() && |c.repeaterId| == 4 && |stream| == 4 && call.WellFormed() && k.dmr == c.dmr && !k.legacy
    requires 0 < m < call.Length() && d.(seqNo := 0) == FrameAt(c, ts, call, stream, m)
    requires HbpHeard(e, ts) && e.dmrd == d.Bytes() && Placed(k, call, stream, r.s, m, last)
    ensures var s' := SlotStep(k, ts, r, e).s;
      && Placed(k, call, stream, s', m + 1, e.now)
      && Faces(s'.hist.offers) == Faces(r.s.hist.offers) + FacesOf(k, ts, call, m)
  {
    hide Dmr.Valid, SlotStep, FrameAt, Faces, FacesOf, Hearing;
    if m == call.Length() - 1 {
      TermFrameHeard(c, k, r, ts, call, stream, d, e, last);
    } else {
      BurstFrameHeard(c, k, r, ts, call, stream, d, e, m - call.First(), last);
    }
  }

  /** IPSC traffic does not touch an open inbound call. */
  lemma IpscAmidHearing(k: Config, ts: Timeslot, r: Res, data: Bytes, burst: byte, now: Time, nonce: Bytes,
                        call: WholeCall, stream: Bytes, started: bool, last: Time)
    requires !k.legacy && Hearing(k, r.s, call, stream, started, last)
    ensures var s' := IpscVoice(k, ts, r, data, burst, now, nonce).s;
      Hearing(k, s', call, stream, started, last) && s'.hist.offers == r.s.hist.offers
  {
    hide LockGate, ReflectGate, IpscForward;
    IpscGateFrame(k, r.s, data, burst, now);
    var src, dst, key := Slice(data, 6, 9), Slice(data, 9, 12), IpscKeyOf(data);
    var s := r.s.(out := r.s.out.(lastPkt := now));
    if k.callLock {
      OwnerStays(k, s, FromIpsc, key, src, dst, burst == VOICE_TERM, now);
    } else {
      assert LockGate(k, s, FromIpsc, key, src, dst, burst == VOICE_TERM, now) == Gate(true, s) by {
        UnlockedPasses(k, s, FromIpsc, key, src, dst, burst == VOICE_TERM, now);
      }
    }
    var g := LockGate(k, s, FromIpsc, key, src, dst, burst == VOICE_TERM, now);
    ReflectGateFrame(k, g.s, key, burst, src, dst, now);
    IpscForwardFrame(k, ts, Res(Learn(r.sh, data), IpscGate(k, r.s, data, burst, now).s), data, burst, now, nonce);
  }

  lemma UnlockedPasses(c: Config, s: Slot, dir: Direction, key: StreamKey, src: Bytes, dst: Bytes, isEnd: bool,
                       now: Time)
    requires !c.callLock
    ensures LockGate(c, s, dir, key, src, dst, isEnd, now) == Gate(true, s)
  {
  }

  lemma AmidHearing(k: Config, ts: Timeslot, r: Res, e: Event, call: WholeCall, stream: Bytes, started: bool,
                    last: Time)
    requires !k.legacy && Hearing(k, r.s, call, stream, started, last) && !HbpHeard(e, ts) && Amid(e, last, true)
    ensures var s' := SlotStep(k, ts, r, e).s;
      Hearing(k, s', call, stream, started, last) && s'.hist.offers == r.s.hist.offers
  {
    hide HbpVoice, IpscVoice, Drain, LcOf;
    match e
    case IpscPacket(_, data, burst, up, now, nonce) =>
      if IpscHeard(e, ts) {
        IpscAmidHearing(k, ts, r, data, burst, now, nonce, call, stream, started, last);
      }
    case DrainFires(_, now, later) => DrainFrame(k, r.s, now, later);
    case _ =>
  }

  /** What is no DMRD generates nothing. */
  lemma AmidGeneratesNothing(k: Config, ts: Timeslot, r: Res, e: Event)
    requires !HbpHeard(e, ts)
    ensures SlotStep(k, ts, r, e).s.hist.offers == r.s.hist.offers
  {
    hide HbpVoice, IpscGate, IpscForward, Drain;
    match e
    case IpscPacket(_, data, burst, _, now, nonce) =>
      IpscGateFrame(k, r.s, data, burst, now);
      IpscForwardFrame(k, ts, Res(Learn(r.sh, data), IpscGate(k, r.s, data, burst, now).s), data, burst, now, nonce);
    case DrainFires(_, now, later) => DrainFrame(k, r.s, now, later);
    case _ =>
  }

  /** m frames heard, the last at the given time: the receiver has generated the first part of the call. */
  ghost predicate HeardSoFar(k: Config, ts: Timeslot, call: WholeCall, stream: Bytes, base: seq<Face>, s: Slot, m: nat,
                             last: Time)
    requires call.WellFormed()
  {
    && 1 <= m <= call.Length() && Placed(k, call, stream, s, m, last)
    && Faces(s.hist.offers) == base + FacesUpTo(k, ts, call, m)
  }

  lemma FirstReceived(c: Config, k: Config, r: Res, ts: Timeslot, call: WholeCall, stream: Bytes, d: Dmrd, e: Event)
    requires c.dmr.Valid() && |c.repeaterId| == 4 && |stream| == 4 && call.WellFormed() && k.dmr == c.dmr && !k.legacy
    requires d.(seqNo := 0) == FrameAt(c, ts, call, stream, 0)
    requires HbpHeard(e, ts) && e.dmrd == d.Bytes() && CanHear(k, r.s, stream, e.now)
    ensures HeardSoFar(k, ts, call, stream, Faces(r.s.hist.offers), SlotStep(k, ts, r, e).s, 1, e.now)
  {
    hide Dmr.Valid, SlotStep, FrameAt, Faces, FacesOf, FacesUpTo, Placed, CanHear;
    if call.late {
      LateFrameHeard(c, k, r, ts, call, stream, d, e);
    } else {
      HeadFrameHeard(c, k, r, ts, call, stream, d, e);
    }
    FacesStep(k, ts, call, 0);
  }

  lemma FrameReceivedNext(c: Config, k: Config, r: Res, ts: Timeslot, call: WholeCall, stream: Bytes, d: Dmrd, e: Event,
                          base: seq<Face>, m: nat, last: Time)
    requires c.dmr.Valid() && |c.repeaterId| == 4 && |stream| == 4 && call.WellFormed() && k.dmr == c.dmr && !k.legacy
    requires m < call.Length() && HeardSoFar(k, ts, call, stream, base, r.s, m, last)
    requires d.(seqNo := 0) == FrameAt(c, ts, call, stream, m) && HbpHeard(e, ts) && e.dmrd == d.Bytes()
    ensures HeardSoFar(k, ts, call, stream, base, SlotStep(k, ts, r, e).s, m + 1, e.now)
  {
    hide Dmr.Valid, SlotStep, FrameAt, Faces, FacesOf, FacesUpTo, Placed;
    LaterFrameHeard(c, k, r, ts, call, stream, d, e, m, last);
    FacesStep(k, ts, call, m);
    assert base + FacesUpTo(k, ts, call, m) + FacesOf(k, ts, call, m)
        == base + (FacesUpTo(k, ts, call, m) + FacesOf(k, ts, call, m));
  }

  lemma AsideHeard(k: Config, r: Res, ts: Timeslot, call: WholeCall, stream: Bytes, e: Event, base: seq<Face>, m: nat,
                   last: Time)
    requires call.WellFormed() && !k.legacy && HeardSoFar(k, ts, call, stream, base, r.s, m, last)
    requires !HbpHeard(e, ts) && Amid(e, last, m < call.Length())
    ensures HeardSoFar(k, ts, call, stream, base, SlotStep(k, ts, r, e).s, m, last)
  {
    hide SlotStep, Faces, FacesUpTo, Hearing;
    AmidGeneratesNothing(k, ts, r, e);
    if m < call.Length() {
      AmidHearing(k, ts, r, e, call, stream, StartedAfter(k, call, m), last);
    }
  }

  /** However many of the frames have been relayed, that much of the call has been generated. */
  lemma {:induction false} CallBackward(c: Config, k: Config, su: State, ts: Timeslot, call: WholeCall, stream: Bytes,
                                        frames: seq<Dmrd>, hevs: seq<Event>)
    requires c.dmr.Valid() && |c.repeaterId| == 4 && |stream| == 4 && call.WellFormed() && k.dmr == c.dmr && !k.legacy
    requires |frames| == call.Length() && Says(c, ts, call, stream, frames) && Relays(hevs, ts, frames)
    requires hevs != [] && HbpHeard(hevs[0], ts) && CanHear(k, su.At(ts), stream, hevs[0].now)
    ensures HeardSoFar(k, ts, call, stream, Faces(su.At(ts).hist.offers), RunFrom(k, su, hevs).At(ts),
                       HeardCount(hevs, FromHbp, ts), LastHeard(hevs, FromHbp, ts))
  {
    hide Dmr.Valid, Step, SlotStep, HeardSoFar, CanHear, FrameAt, Faces;
    var pre, e := hevs[..|hevs| - 1], hevs[|hevs| - 1];
    var sv := RunFrom(k, su, pre);
    StepSeen(k, ts, sv, e);
    if pre == [] {
      FirstReceived(c, k, Seen(k, ts, sv, e), ts, call, stream, frames[0], e);
    } else {
      CallBackward(c, k, su, ts, call, stream, frames, pre);
      var m, last, base := HeardCount(pre, FromHbp, ts), LastHeard(pre, FromHbp, ts), Faces(su.At(ts).hist.offers);
      HeardSoMany(k, ts, call, stream, base, sv.At(ts), m, last);
      if HbpHeard(e, ts) {
        FrameReceivedNext(c, k, Seen(k, ts, sv, e), ts, call, stream, frames[m], e, base, m, last);
      } else {
        AsideHeard(k, Seen(k, ts, sv, e), ts, call, stream, e, base, m, last);
      }
    }
  }

  lemma HeardSoMany(k: Config, ts: Timeslot, call: WholeCall, stream: Bytes, base: seq<Face>, s: Slot, m: nat,
                    last: Time)
    requires call.WellFormed() && HeardSoFar(k, ts, call, stream, base, s, m, last)
    ensures 1 <= m <= call.Length()
  {
  }

  lemma Regroup<T>(h: seq<T>, v: seq<T>, x: seq<T>)
    ensures (h + v) + ([] + x) == h + (v + x)
    ensures ([] + []) + (h + x) == h + ([] + x)
    ensures [] + (h + x) == h + ([] + x)
  {
  }

  /** Before the terminator: the headers, if they are out, and the bursts so far. */
  lemma {:induction false} FirstFaces(k: Config, ts: Timeslot, call: WholeCall, m: nat)
    requires call.WellFormed() && 1 <= m < call.Length()
    ensures FacesUpTo(k, ts, call, m)
         == (if StartedAfter(k, call, m) then HeadFaces(k, ts, call, k.Heads()) else [])
            + VoiceFaces(k, ts, call, m - call.First())
  {
    hide HeadFaces, VoiceFaces, FacesUpTo, BurstFace, TermFace;
    var h := HeadFaces(k, ts, call, k.Heads());
    FacesStep(k, ts, call, m - 1);
    assert |VoiceFaces(k, ts, call, 0)| == 0;
    if m > 1 {
      FirstFaces(k, ts, call, m - 1);
    }
    if m > call.First() {
      var i := m - call.First() - 1;
      VoiceFacesStep(k, ts, call, i + 1);
      var x := [BurstFace(k, ts, call, i)];
      assert FacesOf(k, ts, call, m - 1) == (if StartedAfter(k, call, m - 1) then [] else h) + x;
      hide FacesOf;
      Regroup(h, VoiceFaces(k, ts, call, i), x);
    }
  }

  lemma AllFaces(k: Config, ts: Timeslot, call: WholeCall)
    requires call.WellFormed()
    ensures FacesUpTo(k, ts, call, call.Length()) == CallFaces(k, ts, call)
  {
    hide HeadFaces, TermFace, VoiceFaces, FacesUpTo;
    FirstFaces(k, ts, call, call.Length() - 1);
    FacesStep(k, ts, call, call.Length() - 1);
  }

  /** Relaying a whole call's frames, amid other events, generates exactly its packets. */
  lemma WholeCallBackward(c: Config, k: Config, su: State, ts: Timeslot, call: WholeCall, stream: Bytes,
                          frames: seq<Dmrd>, hevs: seq<Event>)
    requires c.dmr.Valid() && |c.repeaterId| == 4 && |stream| == 4 && call.WellFormed() && k.dmr == c.dmr && !k.legacy
    requires |frames| == call.Length() && Says(c, ts, call, stream, frames) && RelaysWhole(hevs, ts, frames)
    requires CanHear(k, su.At(ts), stream, hevs[0].now)
    ensures Faces(RunFrom(k, su, hevs).At(ts).hist.offers) == Faces(su.At(ts).hist.offers) + CallFaces(k, ts, call)
  {
    hide Dmr.Valid, Step, RunFrom, Says, CanHear, Faces, CallFaces, FacesUpTo;
    CallBackward(c, k, su, ts, call, stream, frames, hevs);
    AllFaces(k, ts, call);
  }
}
