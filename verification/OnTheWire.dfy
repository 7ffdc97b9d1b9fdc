/**
 A whole call on the wire: the bits of every DMRD it is sent in and the bytes of every packet it
 is generated in, spelled out (section 5.1.2.1 of ETSI TS 102 361-1 for the voice superframe).
 */
module OnTheWire {
  import opened Prelude
  import opened Wire
  import opened AmbeCodec
  import opened Packets
  import opened CallModel
  import opened Runs
  import opened CallOut
  import opened CallIn

  // ------------------------------------------------------------------
  // DMR bursts
  // ------------------------------------------------------------------

  /** A header or terminator burst: the coded LC around slot type and sync. */
  predicate LcBurst(bits: Bits, full: Bits, slotType: Bits20, sync: Bits48) {
    && |bits| == 264 && |full| == 196
    && bits[..98] == full[..98] && bits[98..108] == slotType[..10] && bits[108..156] == sync
    && bits[156..166] == slotType[10..] && bits[166..] == full[98..]
  }

  /**
   The embed field of a voice burst: sync at position 0, else an EMB word around an LC fragment, or
   around zeros at 5.
   */
  predicate EmbedReads(d: Dmr, lc: Bytes, pos: nat, field: Bits)
    requires pos < 6
  {
    && |field| == 48
    && if pos == 0 then field == d.voiceSync
       else
         && field[..8] == d.emb[pos - 1][..8] && field[40..] == d.emb[pos - 1][8..]
         && if pos <= 4 then pos in d.encodeEmbLc(lc) && field[8..40] == d.encodeEmbLc(lc)[pos]
            else forall i :: 8 <= i < 40 ==> !field[i]
  }

  /** A voice burst: three coded vocoder frames, the second around the embed field. */
  predicate VoiceBurst(d: Dmr, lc: Bytes, block: Bytes, pos: nat, bits: Bits)
    requires pos < 6 && |block| == 19
  {
    var raw := ToBits(block);
    && |bits| == 264
    && bits[..72] == d.to72(raw[..49])
    && bits[72..108] + bits[156..192] == d.to72(raw[50..99])
    && bits[192..] == d.to72(raw[100..149])
    && EmbedReads(d, lc, pos, bits[108..156])
  }

  lemma HeadBits(d: Dmr, lc: Bytes)
    requires d.Valid() && |lc| == 9
    ensures |HeadPayload(d, lc)| == 33
    ensures LcBurst(ToBits(HeadPayload(d, lc)), d.encodeHeaderLc(lc), d.slotTypeHead, d.dataSync)
  {
    assert d.LcLaws(lc);
    var full := d.encodeHeaderLc(lc);
    BitsRoundTrip(full[..98] + d.slotTypeHead[..10] + d.dataSync + d.slotTypeHead[10..] + full[98..]);
  }

  lemma TermBits(d: Dmr, lc: Bytes)
    requires d.Valid() && |lc| == 9
    ensures |TermPayload(d, lc)| == 33
    ensures LcBurst(ToBits(TermPayload(d, lc)), d.encodeTermLc(lc), d.slotTypeTerm, d.dataSync)
  {
    assert d.LcLaws(lc);
    var full := d.encodeTermLc(lc);
    BitsRoundTrip(full[..98] + d.slotTypeTerm[..10] + d.dataSync + d.slotTypeTerm[10..] + full[98..]);
  }

  lemma EmbedIs(d: Dmr, lc: Bytes, pos: nat)
    requires d.Valid() && |lc| == 9 && pos < 6
    ensures EmbedReads(d, lc, pos, EmbedField(d, pos, Some(d.encodeEmbLc(lc))))
  {
    assert d.LcLaws(lc);
  }

  lemma VoiceBits(d: Dmr, lc: Bytes, block: Bytes, pos: nat)
    requires d.Valid() && |lc| == 9 && pos < 6 && |block| == 19
    ensures VoiceBurst(d, lc, block, pos, ToBits(Assemble(d, block, EmbedField(d, pos, Some(d.encodeEmbLc(lc))))))
  {
    hide EmbedField, EmbedReads;
    EmbedIs(d, lc, pos);
    var embed := EmbedField(d, pos, Some(d.encodeEmbLc(lc)));
    var bits := AssembleBits(d, block, embed);
    BitsRoundTrip(bits);
    var b := d.to72(ToBits(block)[50..99]);
    assert bits[72..108] == b[..36] && bits[156..192] == b[36..] && bits[108..156] == embed;
    assert b[..36] + b[36..] == b;
  }

  // ------------------------------------------------------------------
  // DMRDs
  // ------------------------------------------------------------------

  /** What stands at byte 15: slot, frame type, and data type or superframe position. */
  function FlagByte(ts: Timeslot, low: byte): int {
    (if ts.TS2? then 0x80 else 0) + low
  }

  /** Flags and burst of the i-th DMRD of a call. */
  predicate BurstReads(c: Config, ts: Timeslot, call: WholeCall, i: nat, flags: byte, bits: Bits)
    requires i < call.Length() && call.WellFormed()
  {
    var lc := LcOf(c.dmr, call);
    if i < call.First() then
      flags == FlagByte(ts, 0x21) && LcBurst(bits, c.dmr.encodeHeaderLc(lc), c.dmr.slotTypeHead, c.dmr.dataSync)
    else if i == call.Length() - 1 then
      flags == FlagByte(ts, 0x22) && LcBurst(bits, c.dmr.encodeTermLc(lc), c.dmr.slotTypeTerm, c.dmr.dataSync)
    else
      var j := i - call.First();
      var pos := call.Position(j);
      flags == FlagByte(ts, if pos == 0 then 0x10 else pos) && VoiceBurst(c.dmr, lc, call.blocks[j], pos, bits)
  }

  /** A DMRD of this call, byte by byte; its sequence number is that of the run. */
  predicate Envelope(c: Config, call: WholeCall, stream: Bytes, b: Bytes) {
    && |b| == 55 && b[..4] == [0x44, 0x4D, 0x52, 0x44]
    && b[5..8] == call.src && b[8..11] == call.dst && b[11..15] == c.repeaterId && b[16..20] == stream
    && b[53..] == [0, 0]
  }

  predicate FrameReads(c: Config, ts: Timeslot, call: WholeCall, stream: Bytes, i: nat, b: Bytes)
    requires i < call.Length() && call.WellFormed()
  {
    Envelope(c, call, stream, b) && BurstReads(c, ts, call, i, b[15], ToBits(b[20..53]))
  }

  lemma HeadIsOnTheWire(c: Config, ts: Timeslot, call: WholeCall, stream: Bytes)
    requires c.dmr.Valid() && call.WellFormed() && !call.late
    ensures var f := FrameAt(c, ts, call, stream, 0); BurstReads(c, ts, call, 0, f.flags, ToBits(f.payload))
  {
    LcSize(c.dmr, call);
    hide Dmr.Valid, HeadPayload, LcBurst, ToBits, LcOf;
    HeadBits(c.dmr, LcOf(c.dmr, call));
  }

  lemma TermIsOnTheWire(c: Config, ts: Timeslot, call: WholeCall, stream: Bytes)
    requires c.dmr.Valid() && call.WellFormed()
    ensures var i := call.Length() - 1;
      var f := FrameAt(c, ts, call, stream, i); BurstReads(c, ts, call, i, f.flags, ToBits(f.payload))
  {
    LcSize(c.dmr, call);
    hide Dmr.Valid, TermPayload, LcBurst, ToBits, LcOf;
    TermBits(c.dmr, LcOf(c.dmr, call));
  }

  lemma VoiceIsOnTheWire(c: Config, ts: Timeslot, call: WholeCall, stream: Bytes, j: nat)
    requires c.dmr.Valid() && call.WellFormed() && j < |call.blocks|
    ensures var i := call.First() + j;
      var f := FrameAt(c, ts, call, stream, i); BurstReads(c, ts, call, i, f.flags, ToBits(f.payload))
  {
    LcSize(c.dmr, call);
    hide Dmr.Valid, Assemble, EmbedField, VoiceBurst, ToBits, FrameAt, LcBurst, LcOf, VoiceFlags;
    FrameIsVoice(c, ts, call, stream, j);
    VoiceBits(c.dmr, LcOf(c.dmr, call), call.blocks[j], call.Position(j));
  }

  lemma FrameIsVoice(c: Config, ts: Timeslot, call: WholeCall, stream: Bytes, j: nat)
    requires call.WellFormed() && j < |call.blocks|
    ensures var f, pos := FrameAt(c, ts, call, stream, call.First() + j), call.Position(j);
      && f.flags == FlagByte(ts, if pos == 0 then 0x10 else pos)
      && f.payload == Assemble(c.dmr, call.blocks[j],
        EmbedField(c.dmr, pos, Some(c.dmr.encodeEmbLc(LcOf(c.dmr, call)))))
  {
    hide Assemble, EmbedField, LcOf;
  }

  lemma BurstIsOnTheWire(c: Config, ts: Timeslot, call: WholeCall, stream: Bytes, i: nat)
    requires c.dmr.Valid() && call.WellFormed() && i < call.Length()
    ensures var f := FrameAt(c, ts, call, stream, i); BurstReads(c, ts, call, i, f.flags, ToBits(f.payload))
  {
    hide FrameAt, BurstReads, Dmr.Valid, ToBits;
    if i < call.First() {
      HeadIsOnTheWire(c, ts, call, stream);
    } else if i == call.Length() - 1 {
      TermIsOnTheWire(c, ts, call, stream);
    } else {
      VoiceIsOnTheWire(c, ts, call, stream, i - call.First());
    }
  }

  lemma FrameIsOnTheWire(c: Config, ts: Timeslot, call: WholeCall, stream: Bytes, i: nat, d: Dmrd)
    requires c.dmr.Valid() && |c.repeaterId| == 4 && |stream| == 4 && call.WellFormed() && i < call.Length()
    requires d.(seqNo := 0) == FrameAt(c, ts, call, stream, i)
    ensures FrameReads(c, ts, call, stream, i, d.Bytes())
  {
    hide FrameAt, BurstReads, Dmr.Valid, Dmrd.Bytes, ToBits;
    FrameSized(c, ts, call, stream, i);
    FrameNames(c, ts, call, stream, i);
    DmrdRoundTrip(d);
    BurstIsOnTheWire(c, ts, call, stream, i);
  }

  lemma FrameNames(c: Config, ts: Timeslot, call: WholeCall, stream: Bytes, i: nat)
    requires i < call.Length() && call.WellFormed()
    ensures var f := FrameAt(c, ts, call, stream, i);
      f.src == call.src && f.dst == call.dst && f.repeater == c.repeaterId && f.stream == stream
  {
    hide Assemble, EmbedField, HeadPayload, TermPayload;
  }

  lemma LcSize(d: Dmr, call: WholeCall)
    requires d.Valid() && call.WellFormed()
    ensures |LcOf(d, call)| == 9
  {
  }

  /** Main result: every DMRD of a whole call, spoken amid other events, reads as its place in the call demands. */
  lemma CallOnTheWire(c: Config, st: State, ts: Timeslot, call: WholeCall, evs: seq<Event>, i: nat)
    requires c.dmr.Valid() && |c.repeaterId| == 4 && !c.legacy && call.WellFormed() && i < call.Length()
    requires SpeaksWhole(evs, ts, call) && CanSpeak(c, st.At(ts), call, evs[0].now)
    ensures var sent := SentSince(st.At(ts), RunFrom(c, st, evs).At(ts));
      |sent| == call.Length() && FrameReads(c, ts, call, evs[0].nonce, i, sent[i].Bytes())
  {
    hide Dmr.Valid, RunFrom, CanSpeak, FrameReads, FrameAt, SpeaksCall, HeardCount;
    WholeCallForward(c, st, ts, call, evs);
    var sent := SentSince(st.At(ts), RunFrom(c, st, evs).At(ts));
    FrameIsOnTheWire(c, ts, call, evs[0].nonce, i, sent[i]);
  }

  /** Main result: bursts B to E of any superframe of a call carry the four fragments of its embedded LC, in order. */
  lemma EmbeddedLcIsWhole(c: Config, ts: Timeslot, call: WholeCall, stream: Bytes, i: nat, frames: seq<Dmrd>, p: nat)
    requires c.dmr.Valid() && |c.repeaterId| == 4 && |stream| == 4 && call.WellFormed()
    requires |frames| == call.Length() && Says(c, ts, call, stream, frames)
    requires i + 3 < |call.blocks| && call.Position(i) == 1 && 1 <= p <= 4
    ensures var b := frames[call.First() + i + p - 1].Bytes();
      var emb := c.dmr.encodeEmbLc(LcOf(c.dmr, call));
      |b| == 55 && p in emb && ToBits(b[20..53])[116..148] == emb[p]
  {
    hide Dmr.Valid, FrameAt, Dmrd.Bytes, ToBits, Envelope, LcBurst, VoiceBurst, LcOf, FlagByte;
    var m, j := call.First() + i + p - 1, i + p - 1;
    FrameIsOnTheWire(c, ts, call, stream, m, frames[m]);
    FrameLength(c, call, stream, frames[m].Bytes());
    var bits := ToBits(frames[m].Bytes()[20..53]);
    assert call.Position(j) == p;
    FragmentStands(c.dmr, LcOf(c.dmr, call), call.blocks[j], p, bits);
  }

  lemma FrameLength(c: Config, call: WholeCall, stream: Bytes, b: Bytes)
    requires Envelope(c, call, stream, b)
    ensures |b| == 55
  {
  }

  lemma FragmentStands(d: Dmr, lc: Bytes, block: Bytes, p: nat, bits: Bits)
    requires 1 <= p <= 4 && |block| == 19 && VoiceBurst(d, lc, block, p, bits)
    ensures |bits| == 264 && p in d.encodeEmbLc(lc) && bits[116..148] == d.encodeEmbLc(lc)[p]
  {
    SliceOfSlice(bits, 108, 156, 8, 40);
  }
}
