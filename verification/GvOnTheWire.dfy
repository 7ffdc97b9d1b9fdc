/**
 The packets a whole call is generated in, byte by byte: the LC and parity of headers and
 terminator, and what each burst of the superframe carries around its AMBE block.
 */
module GvOnTheWire {
  import opened Prelude
  import opened Wire
  import opened AmbeCodec
  import opened Packets
  import opened CallModel
  import opened CallOut
  import opened CallIn
  import opened GvSizes

  /** The 24 bytes from byte 30 of a header or terminator: the LC and the parity of its kind. */
  predicate LcReads(d: Dmr, lc: Bytes, head: bool, p: Bytes) {
    && |p| == 24
    && p[..8] == [if head then 0x01 else 0x02, 0x80, 0, 10, 0x80, 0x0A, 0, 0x60]
    && p[8..17] == lc
    && p[17..20] == (if head then d.headFec(lc) else d.termFec(lc))
    && p[20..] == [0, if head then 0x11 else 0x12, 0, 0]
  }

  /** The bytes from byte 30 of a burst: its slot, its length and kind, the block, and what its position adds. */
  predicate VoiceReads(d: Dmr, lc: Bytes, src: Bytes, dst: Bytes, ts: Timeslot, pos: nat, block: Bytes, p: Bytes) {
    && |p| >= 22 && p[0] == (if ts.TS2? then 0x8A else 0x0A) && p[3..22] == block
    && var rest := p[22..];
       if pos == 0 then p[1..3] == [0x14, 0x40] && rest == []
       else if pos == 5 then p[1..3] == [0x19, 0x06] && rest == [0, 0, 0, 0, 0x10]
       else
         && pos in d.encodeEmbLc(lc) && |lc| >= 3
         && var fragment := ToBytes(d.encodeEmbLc(lc)[pos]);
            if pos == 4 then p[1..3] == [0x22, 0x16] && rest == fragment + lc[..3] + dst + src + [0x14]
            else
              && 1 <= pos <= 3 && p[1..3] == [0x19, 0x06]
              && rest == fragment + [ByteOfBits(d.emb[pos - 1][..8]) / 2 * 2]
  }

  lemma LcPayloadReads(d: Dmr, lc: Bytes, head: bool)
    requires d.Valid() && |lc| == 9
    ensures LcReads(d, lc, head, LcGvPayload(d, if head then VOICE_HEAD else VOICE_TERM, lc))
  {
    assert d.LcLaws(lc);
    assert Slice(lc, 0, 9) == lc;
  }

  lemma VoiceParts(h: Bytes, block: Bytes, rest: Bytes)
    requires |h| == 3 && |block| == 19
    ensures var p := h + block + rest;
      |p| == 22 + |rest| && p[0] == h[0] && p[1..3] == h[1..3] && p[3..22] == block && p[22..] == rest
  {
    var p := h + block + rest;
    PartAt(p, h + block, rest);
    PartAt(p, h, block);
    PartAt(p, [], h);
    assert p[1..3] == p[0..3][1..3];
  }

  lemma FifthBurst(x: Bytes, fragment: Bytes, lcOpt: Bytes, dst: Bytes, src: Bytes)
    ensures x + fragment + lcOpt + dst + src + [0x14] == x + (fragment + lcOpt + dst + src + [0x14])
  {
  }

  lemma VoicePayloadReads(d: Dmr, ts: Timeslot, call: WholeCall, pos: nat, ambe: Bytes)
    requires d.Valid() && call.WellFormed() && pos < 6 && |ambe| == 19
    ensures VoiceReads(d, LcOf(d, call), call.src, call.dst, ts, pos, ambe, PayloadAt(d, ts, call, pos, ambe))
  {
    assert d.LcLaws(LcOf(d, call));
    assert |LcOf(d, call)| == 9 && LcOf(d, call)[..3] == d.lcOpt;
    hide LcOf, Dmr.Valid, Dmr.LcLaws, VoiceReads, PayloadAt;
    if pos == 4 {
      LastFragment(d, ts, call, ambe);
    } else if pos == 0 || pos == 5 {
      NoFragment(d, ts, call, pos, ambe);
    } else {
      MiddleBurst(d, ts, call, pos, ambe);
    }
  }

  lemma NoFragment(d: Dmr, ts: Timeslot, call: WholeCall, pos: nat, ambe: Bytes)
    requires (pos == 0 || pos == 5) && |ambe| == 19
    ensures VoiceReads(d, LcOf(d, call), call.src, call.dst, ts, pos, ambe, PayloadAt(d, ts, call, pos, ambe))
  {
    hide ToBytes, ByteOfBits, LcOf;
    var h := [SlotVoice(ts), if pos == 0 then 0x14 else 0x19, if pos == 0 then 0x40 else 0x06];
    VoiceParts(h, ambe, if pos == 0 then [] else [0, 0, 0, 0, 0x10]);
    assert h + ambe + [] == h + ambe;
  }

  lemma LastFragment(d: Dmr, ts: Timeslot, call: WholeCall, ambe: Bytes)
    requires |ambe| == 19 && 4 in d.encodeEmbLc(LcOf(d, call)) && |LcOf(d, call)| == 9 && LcOf(d, call)[..3] == d.lcOpt
    ensures VoiceReads(d, LcOf(d, call), call.src, call.dst, ts, 4, ambe, PayloadAt(d, ts, call, 4, ambe))
  {
    hide ToBytes, ByteOfBits, LcOf;
    var fragment, h := ToBytes(d.encodeEmbLc(LcOf(d, call))[4]), [SlotVoice(ts), 0x22, 0x16];
    VoiceParts(h, ambe, fragment + d.lcOpt + call.dst + call.src + [0x14]);
    FifthBurst(h + ambe, fragment, d.lcOpt, call.dst, call.src);
  }

  lemma MiddleBurst(d: Dmr, ts: Timeslot, call: WholeCall, pos: nat, ambe: Bytes)
    requires 1 <= pos <= 3 && |ambe| == 19 && |LcOf(d, call)| == 9 && pos in d.encodeEmbLc(LcOf(d, call))
    ensures VoiceReads(d, LcOf(d, call), call.src, call.dst, ts, pos, ambe, PayloadAt(d, ts, call, pos, ambe))
  {
    hide ToBytes, ByteOfBits, LcOf;
    var fragment, word := ToBytes(d.encodeEmbLc(LcOf(d, call))[pos]), [ByteOfBits(d.emb[pos - 1][..8]) / 2 * 2];
    var h := [SlotVoice(ts), 0x19, 0x06];
    VoiceParts(h, ambe, fragment + word);
    assert h + ambe + fragment + word == h + ambe + (fragment + word);
  }

  /** The call header of a packet of this call, in 30 bytes; its numbering is that of the run. */
  predicate HeaderReads(k: Config, ts: Timeslot, call: WholeCall, pt: byte, b: Bytes) {
    && |b| >= 30 && b[0] == 0x80 && b[1..5] == k.sourceId && b[6..9] == call.src && b[9..12] == call.dst
    && b[17] == (if ts.TS2? then 0x20 else 0) + (if pt == 0x5E then 0x40 else 0)
    && b[18] == 0x80 && b[19] == pt && b[26..30] == [0, 0, 0, 0]
  }

  /** How many headers the call has: as configured, but at least 1 and at most 5. */
  function HeaderCount(k: Config): nat {
    if k.headerRepeats < 1 then 1 else if k.headerRepeats > 5 then 5 else k.headerRepeats
  }

  function PacketCount(k: Config, call: WholeCall): nat {
    if k.startOnVoice && call.blocks == [] then 0 else HeaderCount(k) + |call.blocks| + 1
  }

  /** The j-th packet of a generated call, byte by byte. */
  predicate PacketReads(k: Config, ts: Timeslot, call: WholeCall, j: nat, b: Bytes)
    requires j < PacketCount(k, call) && call.WellFormed()
  {
    var r, lc := HeaderCount(k), LcOf(k.dmr, call);
    if j < r then
      HeaderReads(k, ts, call, if j == 0 then 0xDD else 0x5D, b) && LcReads(k.dmr, lc, true, b[30..])
    else if j == r + |call.blocks| then HeaderReads(k, ts, call, 0x5E, b) && LcReads(k.dmr, lc, false, b[30..])
    else
      HeaderReads(k, ts, call, 0x5D, b)
      && VoiceReads(k.dmr, lc, call.src, call.dst, ts, call.Position(j - r), Canonical(call.blocks[j - r]), b[30..])
  }

  /** The face at place j of a generated call. */
  lemma FaceAt(k: Config, ts: Timeslot, call: WholeCall, j: nat)
    requires call.WellFormed() && j < PacketCount(k, call)
    ensures |CallFaces(k, ts, call)| == PacketCount(k, call)
    ensures var r := HeaderCount(k);
      CallFaces(k, ts, call)[j] ==
        if j < r then
          Face(call.src, call.dst, CallInfo(ts, false), if j == 0 then PT_FIRST_HEAD else PT_VOICE,
               LcGvPayload(k.dmr, VOICE_HEAD, LcOf(k.dmr, call)))
        else if j == r + |call.blocks| then TermFace(k, ts, call)
        else BurstFace(k, ts, call, j - r)
  {
    hide LcGvPayload, BurstFace, LcOf;
    assert k.Heads() == HeaderCount(k);
  }

  lemma HeaderIs(k: Config, ts: Timeslot, call: WholeCall, p: Gv, end: bool)
    requires call.WellFormed() && p.WellSized() && p.source == k.sourceId && p.callInfo == CallInfo(ts, end)
    requires p.src == call.src && p.dst == call.dst && (end <==> p.pt == 0x5E)
    ensures HeaderReads(k, ts, call, p.pt, p.Bytes()) && p.Bytes()[30..] == p.payload
  {
    GvRoundTrip(p, ts, end);
    hide Gv.Bytes;
  }

  /** A packet that reads as the j-th of the call. */
  predicate Reads(k: Config, ts: Timeslot, call: WholeCall, j: nat, p: Gv)
    requires j < PacketCount(k, call) && call.WellFormed()
  {
    p.WellSized() && PacketReads(k, ts, call, j, p.Bytes())
  }

  lemma PacketIsOnTheWire(k: Config, ts: Timeslot, call: WholeCall, j: nat, p: Gv)
    requires k.dmr.Valid() && call.WellFormed() && j < PacketCount(k, call)
    requires FaceOf(p) == CallFaces(k, ts, call)[j] && p.WellSized() && p.source == k.sourceId
    ensures Reads(k, ts, call, j, p)
  {
    hide LcGvPayload, PayloadAt, Gv.Bytes, Dmr.Valid, CallFaces, LcReads, VoiceReads, LcOf, Canonical, HeaderReads;
    FaceAt(k, ts, call, j);
    var r := HeaderCount(k);
    var end := j == r + |call.blocks|;
    HeaderIs(k, ts, call, p, end);
    LcIsNine(k.dmr, call);
    if j < r || end {
      LcPayloadReads(k.dmr, LcOf(k.dmr, call), !end);
    } else {
      VoicePayloadReads(k.dmr, ts, call, call.Position(j - r), Canonical(call.blocks[j - r]));
    }
  }

  lemma LcIsNine(d: Dmr, call: WholeCall)
    requires d.Valid() && call.WellFormed()
    ensures |LcOf(d, call)| == 9
  {
  }

  lemma {:induction false} RunFromSized(k: Config, su: State, ts: Timeslot, hevs: seq<Event>)
    requires |k.sourceId| == 4 && SharedSized(su.sh)
    ensures Sized(k, RunFrom(k, su, hevs), ts, |su.At(ts).hist.offers|)
  {
    hide Step;
    if hevs != [] {
      RunFromSized(k, su, ts, hevs[..|hevs| - 1]);
      StateSized(k, RunFrom(k, su, hevs[..|hevs| - 1]), hevs[|hevs| - 1], ts, |su.At(ts).hist.offers|);
    }
  }

  /** The packets a slot has generated between two states. */
  function GeneratedSince(before: Slot, after: Slot): seq<Offer> {
    if |before.hist.offers| <= |after.hist.offers| then after.hist.offers[|before.hist.offers|..] else []
  }

  lemma NewFaces(o: seq<Offer>, o': seq<Offer>, faces: seq<Face>)
    requires Faces(o') == Faces(o) + faces
    ensures |o'| == |o| + |faces| && forall j :: 0 <= j < |faces| ==> FaceOf(o'[|o| + j].packet) == faces[j]
  {
    forall j | 0 <= j < |faces| ensures FaceOf(o'[|o| + j].packet) == faces[j] {
      assert Faces(o')[|o| + j] == FaceOf(o'[|o| + j].packet);
    }
  }

  /**
   Main result: relaying a whole call's frames, amid other events, generates as many packets as
   the call has, each of which reads byte by byte as its place in the call demands.
   */
  lemma CallGeneratedOnTheWire(c: Config, k: Config, su: State, ts: Timeslot, call: WholeCall, stream: Bytes,
                               frames: seq<Dmrd>, hevs: seq<Event>)
    requires c.dmr.Valid() && |c.repeaterId| == 4 && |stream| == 4 && call.WellFormed() && k.dmr == c.dmr && !k.legacy
    requires |frames| == call.Length() && Says(c, ts, call, stream, frames) && RelaysWhole(hevs, ts, frames)
    requires CanHear(k, su.At(ts), stream, hevs[0].now) && |k.sourceId| == 4 && SharedSized(su.sh)
    ensures var made := GeneratedSince(su.At(ts), RunFrom(k, su, hevs).At(ts));
      && |made| == PacketCount(k, call)
      && forall j :: 0 <= j < |made| ==> Reads(k, ts, call, j, made[j].packet)
  {
    hide RunFrom, CanHear, Says, Relays, CallFaces, Reads, Faces, Dmr.Valid, Gv.WellSized, FaceOf;
    WholeCallBackward(c, k, su, ts, call, stream, frames, hevs);
    var o, o' := su.At(ts).hist.offers, RunFrom(k, su, hevs).At(ts).hist.offers;
    NewFaces(o, o', CallFaces(k, ts, call));
    FacesCount(k, ts, call);
    RunFromSized(k, su, ts, hevs);
    var made := GeneratedSince(su.At(ts), RunFrom(k, su, hevs).At(ts));
    forall j | 0 <= j < |made| ensures Reads(k, ts, call, j, made[j].packet) {
      assert made[j] == o'[|o| + j];
      PacketIsOnTheWire(k, ts, call, j, o'[|o| + j].packet);
    }
  }

  lemma FacesCount(k: Config, ts: Timeslot, call: WholeCall)
    requires call.WellFormed()
    ensures |CallFaces(k, ts, call)| == PacketCount(k, call)
  {
    hide HeadFaces, VoiceFaces, TermFace;
  }
}
