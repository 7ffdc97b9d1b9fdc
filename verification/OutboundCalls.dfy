/**
 The outbound calls of a slot as the events tell them: which IPSC packets open a call, late or
 not, or end it, and exactly which DMRDs each of them sends, bit by bit, in both flows.
 */
module OutboundCalls {
  import opened Prelude
  import opened Wire
  import opened AmbeCodec
  import opened Packets
  import opened CallModel
  import opened Frames
  import opened Runs
  import opened OnTheWire

  /** An open call: its DMRD stream, its LC, and how far its superframe has come. */
  datatype OutCall = OutCall(stream: Bytes, lc: Bytes, place: nat)

  /** The slot as IPSC sees it: the open call, and in LEGACY_AMBE flow the stream byte of the last header. */
  datatype Side = Side(call: Option<OutCall>, byte5: Option<byte>)

  function Source(e: Event): Bytes
    requires e.IpscPacket?
  {
    Slice(e.data, 6, 9)
  }

  function Group(e: Event): Bytes
    requires e.IpscPacket?
  {
    Slice(e.data, 9, 12)
  }

  function NewLc(c: Config, e: Event): Bytes
    requires e.IpscPacket?
  {
    c.dmr.lcOpt + Group(e) + Source(e)
  }

  predicate Legacy(c: Config, e: Event)
    requires e.IpscPacket?
  {
    c.legacy && |e.data| > 5
  }

  /**
   A header of another stream closes the call of LEGACY_AMBE flow at once, and is remembered,
   whatever the lock says.
   */
  function Heed(c: Config, k: Side, e: Event): Side
    requires e.IpscPacket?
  {
    if !(Legacy(c, e) && e.burst == 0x01) then k
    else Side(if k.byte5.Some? && k.byte5.value != e.data[5] then None else k.call, Some(e.data[5]))
  }

  /** A burst that may open a call: Burst E outside LEGACY_AMBE flow. */
  predicate Enters(c: Config, e: Event)
    requires e.IpscPacket?
  {
    !c.legacy && |e.data| > 32 && e.data[32] == 0x16
  }

  /** The call a packet that passes the gates leaves open; k is the slot after Heed. */
  function After(c: Config, k: Side, e: Event): Side
    requires e.IpscPacket?
  {
    if e.burst == 0x01 then
      if k.call.Some? && c.legacy then k
      else k.(call := Some(OutCall(if k.call.Some? then k.call.value.stream else e.nonce, NewLc(c, e), 0)))
    else if e.burst == 0x02 then (if k.call.Some? then Side(None, None) else k)
    else
      var open := if k.call.None? && Enters(c, e) then Some(OutCall(e.nonce, NewLc(c, e), 4)) else k.call;
      if open.Some? && |e.data| >= 52 then k.(call := Some(open.value.(place := open.value.place + 1)))
        else k.(call := open)
  }

  /** How many DMRDs it sends. */
  function Count(c: Config, k: Side, e: Event): nat
    requires e.IpscPacket?
  {
    if e.burst == 0x01 then (if c.legacy then (if k.call.Some? then 0 else 2) else 1)
    else if e.burst == 0x02 then (if k.call.Some? then 1 else 0)
    else if (k.call.Some? || Enters(c, e)) && |e.data| >= 52 then 1
    else 0
  }

  predicate Passes(c: Config, s: Slot, e: Event, ts: Timeslot) {
    IpscHeard(e, ts) && IpscGate(c, s, e.data, e.burst, e.now).pass
  }

  function SideAfter(c: Config, evs: seq<Event>, ts: Timeslot): Side {
    if evs == [] then Side(None, None)
    else
      var pre, e := evs[..|evs| - 1], evs[|evs| - 1];
      var k := SideAfter(c, pre, ts);
      if e.PeerLost? || e.HbpLost? then Side(None, None)
      else if e.Watchdog? && e.now - LastHeard(pre, FromIpsc, ts) > 10_000_000 then k.(call := None)
      else if Passes(c, Run(c, pre).At(ts), e, ts) then After(c, Heed(c, k, e), e)
      else if IpscHeard(e, ts) then Heed(c, k, e)
      else k
  }

  // ------------------------------------------------------------------
  // What a DMRD says
  // ------------------------------------------------------------------

  /** A DMRD of stream id on LC lc, sent on packet e: header, terminator, or the burst at the call's place. */
  predicate Says(c: Config, ts: Timeslot, id: Bytes, lc: Bytes, place: nat, e: Event, d: Dmrd)
    requires e.IpscPacket?
  {
    && d.src == Source(e) && d.dst == Group(e) && d.repeater == c.repeaterId && d.stream == id
    && |d.payload| == 33
    && var bits := ToBits(d.payload);
       if e.burst == 0x01 then
         d.flags == FlagByte(ts, 0x21) && LcBurst(bits, c.dmr.encodeHeaderLc(lc), c.dmr.slotTypeHead, c.dmr.dataSync)
       else if e.burst == 0x02 then
         d.flags == FlagByte(ts, 0x22) && LcBurst(bits, c.dmr.encodeTermLc(lc), c.dmr.slotTypeTerm, c.dmr.dataSync)
       else
         && d.flags == FlagByte(ts, if place % 6 == 0 then 0x10 else place % 6)
         && |e.data| >= 52 && VoiceBurst(c.dmr, lc, e.data[33..52], place % 6, bits)
  }

  /** Every frame after f in f' says so. */
  predicate SaysAll(c: Config, ts: Timeslot, id: Bytes, lc: Bytes, place: nat, e: Event, f: seq<Dmrd>, f': seq<Dmrd>,
                    count: nat)
    requires e.IpscPacket?
  {
    && |f'| == |f| + count && f'[..|f|] == f
    && forall j :: |f| <= j < |f'| ==> Says(c, ts, id, lc, place, e, f'[j])
  }

  ghost predicate Agrees(c: Config, o: Outbound, k: Side, heard: Time) {
    && o.ipscByte == k.byte5
    && match k.call
       case None => o.stream.None?
       case Some(k) =>
         && |k.lc| == 9 && o.stream == Some(k.stream) && o.lc == Some(k.lc)
         && o.embLc == Some(c.dmr.encodeEmbLc(k.lc)) && o.framePos == k.place && o.lastPkt == heard
  }

  /** What the slot has done on a packet that passed: the call goes on as told, and exactly its frames are sent. */
  ghost predicate Does(c: Config, ts: Timeslot, k: Side, e: Event, s: Slot, s': Slot)
    requires e.IpscPacket?
  {
    var h, k', m := Heed(c, k, e), After(c, Heed(c, k, e), e), Count(c, Heed(c, k, e), e);
    && Agrees(c, s'.out, k', e.now)
    && (m == 0 ==> s'.hist.frames == s.hist.frames)
    && (m > 0 && k'.call.Some? ==>
          var x := k'.call.value;
          SaysAll(c, ts, x.stream, x.lc, if x.place > 0 then x.place - 1 else 0, e, s.hist.frames, s'.hist.frames, m))
    && (m > 0 && k'.call.None? ==>
          h.call.Some? && SaysAll(c, ts, h.call.value.stream, h.call.value.lc, 0, e, s.hist.frames, s'.hist.frames, m))
  }

  lemma SendSays(c: Config, ts: Timeslot, r: Res, flags: byte, payload: Bytes, lc: Bytes, place: nat, e: Event)
    requires e.IpscPacket? && r.s.out.stream.Some?
    requires Says(c, ts, r.s.out.stream.value, lc, place, e,
                  Dmrd(r.sh.outSeq, Source(e), Group(e), c.repeaterId, flags, r.s.out.stream.value, payload))
    ensures var r' := SendDmrd(c, ts, r, flags, Source(e), Group(e), payload);
      && SaysAll(c, ts, r.s.out.stream.value, lc, place, e, r.s.hist.frames, r'.s.hist.frames, 1)
      && r'.s.out == r.s.out && r'.s == r.s.(hist := r'.s.hist)
  {
    hide Says;
  }

  lemma SaysTwice(c: Config, ts: Timeslot, id: Bytes, lc: Bytes, place: nat, e: Event, f: seq<Dmrd>, f1: seq<Dmrd>,
                  f2: seq<Dmrd>)
    requires e.IpscPacket? && SaysAll(c, ts, id, lc, place, e, f, f1, 1) && SaysAll(c, ts, id, lc, place, e, f1, f2, 1)
    ensures SaysAll(c, ts, id, lc, place, e, f, f2, 2)
  {
    hide Says;
    assert f2[..|f|] == f2[..|f1|][..|f|];
    forall j | |f| <= j < |f2| ensures Says(c, ts, id, lc, place, e, f2[j]) {
      if j < |f1| {
        assert f2[j] == f2[..|f1|][j];
      }
    }
  }

  lemma HeadSays(c: Config, ts: Timeslot, r: Res, lc: Bytes, e: Event)
    requires c.dmr.Valid() && e.IpscPacket? && e.burst == 0x01 && |lc| == 9 && r.s.out.stream.Some?
    ensures var r' := SendDmrd(c, ts, r, HeadFlags(ts), Source(e), Group(e), HeadPayload(c.dmr, lc));
      && SaysAll(c, ts, r.s.out.stream.value, lc, 0, e, r.s.hist.frames, r'.s.hist.frames, 1)
      && r'.s.out == r.s.out
  {
    hide Dmr.Valid, LcBurst, HeadPayload, ToBits;
    HeadBits(c.dmr, lc);
    SendSays(c, ts, r, HeadFlags(ts), HeadPayload(c.dmr, lc), lc, 0, e);
  }

  lemma NewLcIsNine(c: Config, e: Event)
    requires c.dmr.Valid() && e.IpscPacket? && |e.data| >= 12
    ensures |NewLc(c, e)| == 9
  {
  }

  lemma HeadDoes(c: Config, ts: Timeslot, r: Res, k: Side, e: Event)
    requires c.dmr.Valid() && IpscHeard(e, ts) && e.burst == 0x01 && |e.data| >= 12
    requires Agrees(c, r.s.out, Heed(c, k, e), e.now) && r.s.out.lastPkt == e.now
    ensures Does(c, ts, k, e, r.s, IpscHead(c, ts, r, Source(e), Group(e), e.nonce).s)
  {
    hide SendDmrd, HeadPayload, SaysAll, Dmr.Valid, Heed;
    var h := Heed(c, k, e);
    if !(h.call.Some? && c.legacy) {
      var lc, id := NewLc(c, e), if h.call.Some? then h.call.value.stream else e.nonce;
      NewLcIsNine(c, e);
      var o := r.s.out.(stream := Some(id), framePos := 0, lc := Some(lc), embLc := Some(c.dmr.encodeEmbLc(lc)));
      var q := r.(s := r.s.(out := o));
      HeadSays(c, ts, q, lc, e);
      if c.legacy {
        var q1 := SendDmrd(c, ts, q, HeadFlags(ts), Source(e), Group(e), HeadPayload(c.dmr, lc));
        HeadSays(c, ts, q1, lc, e);
        var q2 := SendDmrd(c, ts, q1, HeadFlags(ts), Source(e), Group(e), HeadPayload(c.dmr, lc));
        SaysTwice(c, ts, id, lc, 0, e, q.s.hist.frames, q1.s.hist.frames, q2.s.hist.frames);
      }
    }
  }

  lemma TermDoes(c: Config, ts: Timeslot, r: Res, k: Side, e: Event)
    requires c.dmr.Valid() && IpscHeard(e, ts) && e.burst == 0x02
    requires Agrees(c, r.s.out, Heed(c, k, e), e.now)
    ensures Does(c, ts, k, e, r.s, IpscTerm(c, ts, r, Source(e), Group(e), e.now).s)
  {
    hide SendDmrd, TermPayload, SaysAll, Dmr.Valid, LcBurst, ToBits;
    var h := Heed(c, k, e);
    if h.call.Some? {
      var lc := h.call.value.lc;
      assert OrElse(r.s.out.lc, NewLc(c, e)) == lc;
      TermBits(c.dmr, lc);
      SendSays(c, ts, r, TermFlags(ts), TermPayload(c.dmr, lc), lc, 0, e);
    }
  }

  lemma BurstDoes(c: Config, ts: Timeslot, r: Res, k: Side, e: Event)
    requires c.dmr.Valid() && IpscHeard(e, ts) && e.burst != 0x01 && e.burst != 0x02
    requires Agrees(c, r.s.out, Heed(c, k, e), e.now) && r.s.out.lastPkt == e.now
    ensures Does(c, ts, k, e, r.s, IpscVoiceBurst(c, ts, r, e.data, Source(e), Group(e), e.nonce).s)
  {
    hide SendDmrd, Assemble, EmbedField, SaysAll, Dmr.Valid, VoiceBurst, ToBits, EmbedReads;
    var h := Heed(c, k, e);
    assert h == k;
    if h.call.Some? || Enters(c, e) {
      if h.call.None? {
        NewLcIsNine(c, e);
      }
      var open := if h.call.None? then OutCall(e.nonce, NewLc(c, e), 4) else h.call.value;
      var g := LateEntry(c, r.s, e.data, Source(e), Group(e), e.nonce);
      assert g.pass && Agrees(c, g.s.out, Side(Some(open), h.byte5), e.now) && g.s.hist == r.s.hist;
      if |e.data| >= 52 {
        var pos, block := open.place % 6, e.data[33..52];
        var payload := Assemble(c.dmr, block, EmbedField(c.dmr, pos, g.s.out.embLc));
        VoiceBits(c.dmr, open.lc, block, pos);
        var q := r.(s := g.s.(out := g.s.out.(framePos := g.s.out.framePos + 1)));
        SendSays(c, ts, q, VoiceFlags(ts, pos), payload, open.lc, open.place, e);
      }
    }
  }

  // ------------------------------------------------------------------
  // Every run
  // ------------------------------------------------------------------

  lemma LegacyHeeds(c: Config, s: Slot, e: Event, k: Side, heard: Time)
    requires e.IpscPacket? && Agrees(c, s.out, k, heard)
    ensures var g := LegacyGate(c, s.(out := s.out.(lastPkt := e.now)), IpscKeyOf(e.data), e.burst, e.now);
      && Agrees(c, g.s.out, Heed(c, k, e), e.now) && g.s.hist == s.hist && g.s.out.lastPkt == e.now
      && g.pass == (Legacy(c, e) && e.burst != 0x01 ==> k.byte5.Some? || k.call.Some?)
  {
  }

  /** The gates leave the outbound call as the header rule of LEGACY_AMBE flow does. */
  lemma GatesHeed(c: Config, s: Slot, e: Event, k: Side, heard: Time)
    requires e.IpscPacket? && Agrees(c, s.out, k, heard)
    ensures var g := IpscGate(c, s, e.data, e.burst, e.now);
      Agrees(c, g.s.out, Heed(c, k, e), e.now) && g.s.hist == s.hist && g.s.out.lastPkt == e.now
  {
    hide LegacyGate, LockGate, ReflectGate, Agrees, Heed;
    LegacyHeeds(c, s, e, k, heard);
    var key, src, dst := IpscKeyOf(e.data), Source(e), Group(e);
    var a := LegacyGate(c, s.(out := s.out.(lastPkt := e.now)), key, e.burst, e.now);
    LockGateFrame(c, a.s, FromIpsc, key, src, dst, e.burst == VOICE_TERM, e.now);
    var b := LockGate(c, a.s, FromIpsc, key, src, dst, e.burst == VOICE_TERM, e.now);
    ReflectGateFrame(c, b.s, key, e.burst, src, dst, e.now);
  }

  /** A packet that passes. */
  lemma PassedDoes(c: Config, ts: Timeslot, r: Res, k: Side, e: Event, heard: Time)
    requires c.dmr.Valid() && Agrees(c, r.s.out, k, heard) && Passes(c, r.s, e, ts) && |e.data| >= 12
    ensures Does(c, ts, k, e, r.s, SlotStep(c, ts, r, e).s)
  {
    hide IpscGate, IpscHead, IpscTerm, IpscVoiceBurst, Learn, SaysAll, After, Count, Heed, Agrees, Dmr.Valid;
    GatesHeed(c, r.s, e, k, heard);
    var g := IpscGate(c, r.s, e.data, e.burst, e.now);
    var q := Res(Learn(r.sh, e.data), g.s);
    if e.burst == VOICE_HEAD {
      HeadDoes(c, ts, q, k, e);
    } else if e.burst == VOICE_TERM {
      TermDoes(c, ts, q, k, e);
    } else {
      BurstDoes(c, ts, q, k, e);
    }
  }

  /** Events that bring this slot no IPSC packet. */
  lemma OthersAgree(c: Config, ts: Timeslot, r: Res, k: Side, e: Event, heard: Time)
    requires Agrees(c, r.s.out, k, heard) && !IpscHeard(e, ts)
    ensures var s' := SlotStep(c, ts, r, e).s;
      && s'.hist.frames == r.s.hist.frames
      && Agrees(c, s'.out, if e.PeerLost? || e.HbpLost? then Side(None, None)
                           else if e.Watchdog? && e.now - heard > 10_000_000 then k.(call := None) else k, heard)
  {
    hide IpscVoice, HbpGate, HbpForward, Drain;
    match e
    case HbpPacket(dmrd, _, now, seq0, ts0) =>
      if HbpHeard(e, ts) {
        var b := ParseDmrd(dmrd);
        HbpGateFrame(c, r.s, b, now);
        HbpForwardFrame(c, ts, r.(s := HbpGate(c, r.s, b, now).s), b, now, seq0, ts0);
      }
    case DrainFires(_, now, later) => DrainFrame(c, r.s, now, later);
    case _ =>
  }

  /** A packet the gates stop. */
  lemma StoppedAgrees(c: Config, ts: Timeslot, r: Res, k: Side, e: Event, heard: Time)
    requires Agrees(c, r.s.out, k, heard) && IpscHeard(e, ts) && !Passes(c, r.s, e, ts)
    ensures var s' := SlotStep(c, ts, r, e).s;
      Agrees(c, s'.out, Heed(c, k, e), e.now) && s'.hist.frames == r.s.hist.frames
  {
    hide IpscGate, IpscForward, Heed, Agrees;
    GatesHeed(c, r.s, e, k, heard);
  }

  /** Every IPSC packet names a source and a group. */
  predicate Named(evs: seq<Event>) {
    forall i :: 0 <= i < |evs| && evs[i].IpscPacket? ==> |evs[i].data| >= 12
  }

  lemma {:induction false} AgreesAlways(c: Config, evs: seq<Event>, ts: Timeslot)
    requires c.dmr.Valid() && Named(evs)
    ensures Agrees(c, Run(c, evs).At(ts).out, SideAfter(c, evs, ts), LastHeard(evs, FromIpsc, ts))
  {
    hide SlotStep, Agrees, After, Heed, Count, IpscGate, Dmr.Valid, SaysAll;
    if evs == [] {
      NoCallAgrees(c);
    } else {
      var pre, e := evs[..|evs| - 1], evs[|evs| - 1];
      var k, heard := SideAfter(c, pre, ts), LastHeard(pre, FromIpsc, ts);
      AgreesAlways(c, pre, ts);
      StepSeen(c, ts, Run(c, pre), e);
      var r := Seen(c, ts, Run(c, pre), e);
      if !IpscHeard(e, ts) {
        OthersAgree(c, ts, r, k, e, heard);
      } else if Passes(c, r.s, e, ts) {
        PassedDoes(c, ts, r, k, e, heard);
      } else {
        StoppedAgrees(c, ts, r, k, e, heard);
      }
    }
  }

  lemma NoCallAgrees(c: Config)
    ensures Agrees(c, IDLE_SLOT.out, Side(None, None), 0)
  {
  }

  /**
   Main result: on every run, an event makes a slot send exactly the DMRDs that the call, as the
   events so far tell it, calls for: none unless it brings an IPSC packet that passes the gates,
   and then Count of them, each reading as Says says.
   */
  lemma SendsExactly(c: Config, evs: seq<Event>, ts: Timeslot)
    requires c.dmr.Valid() && evs != [] && Named(evs)
    ensures var pre, e := evs[..|evs| - 1], evs[|evs| - 1];
      var s, s' := Run(c, pre).At(ts), Run(c, evs).At(ts);
      if Passes(c, s, e, ts) then Does(c, ts, SideAfter(c, pre, ts), e, s, s') else s'.hist.frames == s.hist.frames
  {
    hide SlotStep, Agrees, After, Heed, Count, IpscGate, Dmr.Valid, Does;
    var pre, e := evs[..|evs| - 1], evs[|evs| - 1];
    var k, heard := SideAfter(c, pre, ts), LastHeard(pre, FromIpsc, ts);
    assert Named(pre) && (e.IpscPacket? ==> |e.data| >= 12);
    AgreesAlways(c, pre, ts);
    StepSeen(c, ts, Run(c, pre), e);
    var r := Seen(c, ts, Run(c, pre), e);
    if !IpscHeard(e, ts) {
      OthersAgree(c, ts, r, k, e, heard);
    } else if Passes(c, r.s, e, ts) {
      PassedDoes(c, ts, r, k, e, heard);
    } else {
      StoppedAgrees(c, ts, r, k, e, heard);
    }
  }

  /**
   Main result: a packet passes the gates exactly when the lock and the echo memory let it pass, and
   LEGACY_AMBE flow knows a header before it.
   */
  lemma PassesExactlyWhen(c: Config, evs: seq<Event>, ts: Timeslot, e: Event)
    requires c.dmr.Valid() && Named(evs) && IpscHeard(e, ts)
    ensures var s, k, key := Run(c, evs).At(ts), SideAfter(c, evs, ts), IpscKeyOf(e.data);
      var a := LegacyGate(c, s.(out := s.out.(lastPkt := e.now)), key, e.burst, e.now).s;
      var b := LockGate(c, a, FromIpsc, key, Source(e), Group(e), e.burst == 0x02, e.now);
      Passes(c, s, e, ts) <==>
        && (Legacy(c, e) && e.burst != 0x01 ==> k.byte5.Some? || k.call.Some?)
        && b.pass && ReflectGate(c, b.s, key, e.burst, Source(e), Group(e), e.now).pass
  {
    hide LockGate, ReflectGate, LegacyGate, Run, SideAfter, LastHeard, Dmr.Valid, Agrees, Heed;
    AgreesAlways(c, evs, ts);
    LegacyHeeds(c, Run(c, evs).At(ts), e, SideAfter(c, evs, ts), LastHeard(evs, FromIpsc, ts));
  }
}
