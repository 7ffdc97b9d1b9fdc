/** The two voice packet formats: HBP DMRD (55 bytes) and IPSC GROUP_VOICE. */
module Packets {
  import opened Prelude
  import opened Wire

  const GROUP_VOICE: byte := 0x80

  // IPSC burst types.
  const VOICE_HEAD: byte := 0x01
  const VOICE_TERM: byte := 0x02
  const SLOT1_VOICE: byte := 0x0A
  const SLOT2_VOICE: byte := 0x8A

  // RTP payload types of generated packets.
  const PT_FIRST_HEAD: byte := 0xDD
  const PT_VOICE: byte := 0x5D
  const PT_TERM: byte := 0x5E

  const DMRD_LEN := 55

  /** The frame type field of a DMRD flags byte. */
  datatype FrameType = Voice | VoiceSync | DataSync | Reserved

  function FrameTypeOf(flags: byte): FrameType {
    var t := flags / 16 % 4;
    if t == 0 then Voice else if t == 1 then VoiceSync else if t == 2 then DataSync else Reserved
  }

  /** The burst within the superframe, or the kind of data sync. */
  function DtypeOf(flags: byte): (r: nat)
    ensures r < 16
  {
    flags % 16
  }

  function SlotOf(flags: byte): Timeslot {
    if flags / 128 == 1 then TS2 else TS1
  }

  function SlotFlag(ts: Timeslot): byte {
    if ts.TS2? then 0x80 else 0
  }

  predicate IsHead(flags: byte) {
    FrameTypeOf(flags).DataSync? && DtypeOf(flags) == 1
  }

  predicate IsTerm(flags: byte) {
    FrameTypeOf(flags).DataSync? && DtypeOf(flags) == 2
  }

  function HeadFlags(ts: Timeslot): byte {
    SlotFlag(ts) + 0x21
  }

  function TermFlags(ts: Timeslot): byte {
    SlotFlag(ts) + 0x22
  }

  /** Voice flags for superframe position pos: a sync burst at 0, the position itself elsewhere. */
  function VoiceFlags(ts: Timeslot, pos: nat): byte
    requires pos < 6
  {
    SlotFlag(ts) + if pos == 0 then 0x10 else pos
  }

  /** What a receiver reads back from the flags a sender writes. */
  lemma FlagsReadBack(ts: Timeslot, pos: nat)
    requires pos < 6
    ensures SlotOf(HeadFlags(ts)) == SlotOf(TermFlags(ts)) == SlotOf(VoiceFlags(ts, pos)) == ts
    ensures IsHead(HeadFlags(ts)) && !IsTerm(HeadFlags(ts))
    ensures IsTerm(TermFlags(ts)) && !IsHead(TermFlags(ts))
    ensures !IsHead(VoiceFlags(ts, pos)) && !IsTerm(VoiceFlags(ts, pos))
    ensures FrameTypeOf(VoiceFlags(ts, pos)) == if pos == 0 then VoiceSync else Voice
    ensures DtypeOf(VoiceFlags(ts, pos)) == pos
  {
  }

  /** What the bits of any flags byte say; bit 1, the call type, is not looked at. */
  lemma FlagBits(flags: byte)
    ensures var bits := BitsOfByte(flags);
      && (SlotOf(flags).TS2? <==> bits[0])
      && (FrameTypeOf(flags).VoiceSync? <==> !bits[2] && bits[3])
      && (FrameTypeOf(flags).DataSync? <==> bits[2] && !bits[3])
      && (IsHead(flags) <==> bits[2..] == [true, false, false, false, false, true])
      && (IsTerm(flags) <==> bits[2..] == [true, false, false, false, true, false])
      && DtypeOf(flags) == Value(bits[4..])
  {
    hide BitsOf, Value;
    Nibbles(flags);
  }

  /** A datagram is voice if it has 31 bytes; byte 17 tells its slot, byte 30 its burst. */
  lemma MetaBits(b: Bytes)
    ensures GvMeta(b).Some? <==> |b| > 30
    ensures |b| > 30 ==> GvMeta(b).value == (if BitsOfByte(b[17])[2] then TS2 else TS1, b[30])
  {
    hide BitsOf, Value;
    if |b| > 30 {
      Nibbles(b[17]);
    }
  }

  datatype Dmrd = Dmrd(seqNo: byte, src: Bytes, dst: Bytes, repeater: Bytes, flags: byte,
                       stream: Bytes, payload: Bytes)
  {
    predicate WellSized() {
      |src| == 3 && |dst| == 3 && |repeater| == 4 && |stream| == 4 && |payload| == 33
    }

    /** The wire form; the last two bytes are the unmeasured BER and RSSI. */
    function Bytes(): Bytes {
      [0x44, 0x4D, 0x52, 0x44, seqNo] + src + dst + repeater + [flags] + stream + payload + [0, 0]
    }
  }

  /** The fields the translator reads from a received DMRD. */
  datatype Burst = Burst(src: Bytes, dst: Bytes, flags: byte, stream: Bytes, payload: Bytes)

  function ParseDmrd(b: Bytes): (r: Burst)
    requires |b| >= DMRD_LEN
    ensures |r.src| == |r.dst| == 3 && |r.stream| == 4 && |r.payload| == 33
  {
    Burst(b[5..8], b[8..11], b[15], b[16..20], b[20..53])
  }

  lemma DmrdRoundTrip(d: Dmrd)
    requires d.WellSized()
    ensures var b := d.Bytes();
      && |b| == 55 && b[..4] == [0x44, 0x4D, 0x52, 0x44] && b[4] == d.seqNo
      && b[5..8] == d.src && b[8..11] == d.dst && b[11..15] == d.repeater && b[15] == d.flags
      && b[16..20] == d.stream && b[20..53] == d.payload && b[53..] == [0, 0]
    ensures ParseDmrd(d.Bytes()) == Burst(d.src, d.dst, d.flags, d.stream, d.payload)
  {
    var b := d.Bytes();
    var b5: Bytes := [0x44, 0x4D, 0x52, 0x44, d.seqNo];
    var b8 := b5 + d.src;
    var b11 := b8 + d.dst;
    var b16 := b11 + d.repeater + [d.flags];
    var b20 := b16 + d.stream;
    PartAt(b, b20 + d.payload, [0, 0]);
    PartAt(b, b20, d.payload);
    PartAt(b, b16, d.stream);
    PartAt(b, b11 + d.repeater, [d.flags]);
    PartAt(b, b11, d.repeater);
    PartAt(b, b8, d.dst);
    PartAt(b, b5, d.src);
    assert b[15..16] == [d.flags];
    assert b[15] == d.flags;
    assert b == (b20 + d.payload) + [0, 0];
  }

  datatype Gv = Gv(source: Bytes, streamByte: byte, src: Bytes, dst: Bytes, callType: Bytes, callCtrl: Bytes,
                   callInfo: byte, pt: byte, seqNo: nat, stamp: nat, payload: Bytes)
  {
    predicate WellSized() {
      && |source| == 4 && |src| == 3 && |dst| == 3 && |callType| == 1 && |callCtrl| == 4
      && seqNo < 0x1_0000 && stamp < 0x1_0000_0000 && |payload| >= 1
    }

    /** The wire form: 18 bytes of call header, a 12-byte RTP header, then the payload. */
    function Bytes(): Bytes
      requires seqNo < 0x1_0000 && stamp < 0x1_0000_0000
    {
      [GROUP_VOICE] + source + [streamByte] + src + dst + callType + callCtrl + [callInfo]
      + [0x80, pt] + U16(seqNo) + U32(stamp) + [0, 0, 0, 0] + payload
    }

    /** The burst type byte. */
    function Kind(): int {
      if payload == [] then -1 else payload[0]
    }
  }

  /** The timeslot and burst type an IPSC receiver reads. */
  function GvMeta(b: Bytes): Option<(Timeslot, byte)> {
    if |b| < 31 then None else Some((if b[17] / 32 % 2 == 1 then TS2 else TS1, b[30]))
  }

  /** Byte 17 of a packet for this slot; bit 6 marks the end of a call. */
  function CallInfo(ts: Timeslot, end: bool): byte {
    (if ts.TS2? then 0x20 else 0) + if end then 0x40 else 0
  }

  /** A generated packet lays its fields out where every IPSC receiver looks for them. */
  lemma GvRoundTrip(p: Gv, ts: Timeslot, end: bool)
    requires p.WellSized() && p.callInfo == CallInfo(ts, end)
    ensures var b := p.Bytes();
      && |b| == 30 + |p.payload| && b[0] == 0x80 && b[1..5] == p.source
      && b[5] == p.streamByte && b[6..9] == p.src && b[9..12] == p.dst
      && b[12..13] == p.callType && b[13..17] == p.callCtrl
      && b[17] == p.callInfo && b[18] == 0x80 && b[26..30] == [0, 0, 0, 0]
      && b[19] == p.pt && FromU16(b[20..22]) == p.seqNo && FromU32(b[22..26]) == p.stamp
      && b[30..] == p.payload
      && GvMeta(b) == Some((ts, p.payload[0]))
  {
    var b := p.Bytes();
    var b6 := [GROUP_VOICE] + p.source + [p.streamByte];
    var b9 := b6 + p.src;
    var b12 := b9 + p.dst;
    var b13 := b12 + p.callType;
    var b17 := b13 + p.callCtrl;
    var b18 := b17 + [p.callInfo];
    var b20 := b18 + [0x80, p.pt];
    var b22 := b20 + U16(p.seqNo);
    var b26 := b22 + U32(p.stamp);
    PartAt(b, b26 + [0, 0, 0, 0], p.payload);
    PartAt(b, b26, [0, 0, 0, 0]);
    PartAt(b, b22, U32(p.stamp));
    PartAt(b, b20, U16(p.seqNo));
    PartAt(b, b18, [0x80, p.pt]);
    PartAt(b, b17, [p.callInfo]);
    PartAt(b, b13, p.callCtrl);
    PartAt(b, b12, p.callType);
    PartAt(b, b9, p.dst);
    PartAt(b, b6, p.src);
    PartAt(b, [GROUP_VOICE] + p.source, [p.streamByte]);
    U16RoundTrip(p.seqNo);
    U32RoundTrip(p.stamp);
    PartAt(b, [GROUP_VOICE], p.source);
    assert b[18] == b[18..20][0];
    assert b[5..6] == [p.streamByte] && b[17..18] == [p.callInfo] && b[18..20] == [0x80, p.pt];
    assert b[5] == p.streamByte && b[17] == p.callInfo && b[19] == b[18..20][1];
    assert b[30] == b[30..][0];
  }
}
