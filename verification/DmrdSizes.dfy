/** Every DMRD handed to HBP is 55 bytes with its fields where a receiver reads them. */
module DmrdSizes {
  import opened Prelude
  import opened Wire
  import opened AmbeCodec
  import opened Packets
  import opened CallModel
  import opened Frames
  import opened OutboundScript

  /** Packets long enough to show a burst type (at byte 30), and 4 random bytes for each. */
  predicate LongEnough(e: Event) {
    e.IpscPacket? ==> |e.data| >= 31 && |e.nonce| == 4
  }

  predicate SizedCall(o: Outbound) {
    && (o.stream.Some? ==> |o.stream.value| == 4 && o.lc.Some?)
    && (o.lc.Some? ==> |o.lc.value| == 9)
  }

  predicate SizedFrames(f: seq<Dmrd>) {
    forall i :: 0 <= i < |f| ==> f[i].WellSized()
  }

  ghost predicate Sized(s: Slot) {
    SizedCall(s.out) && SizedFrames(s.hist.frames)
  }

  lemma LcPayloadSizes(d: Dmr, lc: Bytes)
    requires d.Valid() && |lc| == 9
    ensures |HeadPayload(d, lc)| == 33 && |TermPayload(d, lc)| == 33
  {
    assert d.LcLaws(lc);
  }

  lemma SendSized(c: Config, ts: Timeslot, r: Res, flags: byte, src: Bytes, dst: Bytes, payload: Bytes)
    requires Sized(r.s) && r.s.out.stream.Some? && |c.repeaterId| == 4 && |src| == |dst| == 3 && |payload| == 33
    ensures var r' := SendDmrd(c, ts, r, flags, src, dst, payload); Sized(r'.s) && r'.s.out == r.s.out
  {
  }

  lemma HeadSized(c: Config, ts: Timeslot, r: Res, src: Bytes, dst: Bytes, nonce: Bytes)
    requires c.dmr.Valid() && |c.repeaterId| == 4 && |src| == |dst| == 3 && |nonce| == 4 && Sized(r.s)
    ensures Sized(IpscHead(c, ts, r, src, dst, nonce).s)
  {
    hide SendDmrd, HeadPayload, SizedFrames;
    var o, lc := r.s.out, c.dmr.lcOpt + dst + src;
    LcPayloadSizes(c.dmr, lc);
    var q := r.(s := r.s.(out := o.(stream := if o.stream.Some? then o.stream else Some(nonce), framePos := 0,
                                    lc := Some(lc), embLc := Some(c.dmr.encodeEmbLc(lc)))));
    SendSized(c, ts, q, HeadFlags(ts), src, dst, HeadPayload(c.dmr, lc));
    SendSized(c, ts, SendDmrd(c, ts, q, HeadFlags(ts), src, dst, HeadPayload(c.dmr, lc)), HeadFlags(ts), src, dst,
              HeadPayload(c.dmr, lc));
  }

  lemma TermSized(c: Config, ts: Timeslot, r: Res, src: Bytes, dst: Bytes, now: Time)
    requires c.dmr.Valid() && |c.repeaterId| == 4 && |src| == |dst| == 3 && Sized(r.s)
    ensures Sized(IpscTerm(c, ts, r, src, dst, now).s)
  {
    hide SendDmrd, TermPayload, SizedFrames;
    var o, lc := r.s.out, c.dmr.lcOpt + dst + src;
    if o.stream.Some? {
      LcPayloadSizes(c.dmr, OrElse(o.lc, lc));
      SendSized(c, ts, r, TermFlags(ts), src, dst, TermPayload(c.dmr, OrElse(o.lc, lc)));
    }
  }

  lemma BurstSized(c: Config, ts: Timeslot, r: Res, data: Bytes, src: Bytes, dst: Bytes, nonce: Bytes)
    requires c.dmr.Valid() && |c.repeaterId| == 4 && |src| == |dst| == 3 && |nonce| == 4 && Sized(r.s)
    ensures Sized(IpscVoiceBurst(c, ts, r, data, src, dst, nonce).s)
  {
    hide SendDmrd, Assemble, EmbedField, SizedFrames;
    var g := LateEntry(c, r.s, data, src, dst, nonce);
    if g.pass && |data| >= 52 {
      var o := g.s.out;
      var pos := o.framePos % 6;
      SendSized(c, ts, r.(s := g.s.(out := o.(framePos := o.framePos + 1))), VoiceFlags(ts, pos), src, dst,
                Assemble(c.dmr, data[33..52], EmbedField(c.dmr, pos, o.embLc)));
    }
  }

  lemma ForwardSized(c: Config, ts: Timeslot, r: Res, data: Bytes, burst: byte, now: Time, nonce: Bytes)
    requires c.dmr.Valid() && |c.repeaterId| == 4 && |data| >= 31 && |nonce| == 4 && Sized(r.s)
    ensures Sized(IpscForward(c, ts, r, data, burst, now, nonce).s)
  {
    hide IpscHead, IpscTerm, IpscVoiceBurst, Sized, Dmr.Valid;
    var src, dst := data[6..9], data[9..12];
    HeadSized(c, ts, r, src, dst, nonce);
    TermSized(c, ts, r, src, dst, now);
    BurstSized(c, ts, r, data, src, dst, nonce);
  }

  lemma StepSized(c: Config, ts: Timeslot, r: Res, e: Event)
    requires c.dmr.Valid() && |c.repeaterId| == 4 && LongEnough(e) && Sized(r.s)
    ensures Sized(SlotStep(c, ts, r, e).s)
  {
    hide HbpGate, HbpForward, IpscGate, IpscForward, Drain, SizedFrames;
    match e
    case IpscPacket(_, data, burst, _, now, nonce) =>
      IpscGateFrame(c, r.s, data, burst, now);
      ForwardSized(c, ts, Res(Learn(r.sh, data), IpscGate(c, r.s, data, burst, now).s), data, burst, now, nonce);
    case HbpPacket(dmrd, _, now, seq0, ts0) =>
      if |dmrd| >= DMRD_LEN {
        var b := ParseDmrd(dmrd);
        HbpGateFrame(c, r.s, b, now);
        HbpForwardFrame(c, ts, r.(s := HbpGate(c, r.s, b, now).s), b, now, seq0, ts0);
      }
    case DrainFires(_, now, later) => DrainFrame(c, r.s, now, later);
    case _ =>
  }

  lemma {:induction false} SizedAlways(c: Config, evs: seq<Event>, ts: Timeslot)
    requires c.dmr.Valid() && |c.repeaterId| == 4 && forall e <- evs :: LongEnough(e)
    ensures Sized(Run(c, evs).At(ts))
  {
    hide SlotStep, Sized;
    if evs == [] {
      NothingSized();
    } else {
      var st, e := Run(c, evs[..|evs| - 1]), evs[|evs| - 1];
      SizedAlways(c, evs[..|evs| - 1], ts);
      StepSized(c, ts, Res(if ts.TS1? then st.sh else SlotStep(c, TS1, Res(st.sh, st.one), e).sh, st.At(ts)), e);
    }
  }

  lemma NothingSized()
    ensures Sized(IDLE_SLOT)
  {
  }

  /** Where a tagged DMRD stands among its slot's frames. */
  lemma {:induction false} SlotHasIt(d: seq<Tagged>, i: nat) returns (j: nat)
    requires i < |d|
    ensures var f := OfSlot(d, d[i].ts); j < |f| && f[j] == d[i].dmrd
  {
    var n := |d| - 1;
    if i == n {
      j := |OfSlot(d[..n], d[n].ts)|;
    } else {
      j := SlotHasIt(d[..n], i);
    }
  }

  /** Main result: the i-th DMRD ever sent is 55 bytes, numbered i mod 256, and parses back to its fields. */
  lemma EveryDmrdOnTheWire(c: Config, evs: seq<Event>, i: nat)
    requires c.dmr.Valid() && |c.repeaterId| == 4 && forall e <- evs :: LongEnough(e)
    requires i < |Run(c, evs).sh.dmrds|
    ensures var d := Run(c, evs).sh.dmrds[i].dmrd;
      && |d.Bytes()| == DMRD_LEN && d.Bytes()[4] == i % 256
      && ParseDmrd(d.Bytes()) == Burst(d.src, d.dst, d.flags, d.stream, d.payload)
  {
    hide Step;
    NumberedAlways(c, evs);
    SizedAlways(c, evs, TS1);
    SizedAlways(c, evs, TS2);
    var st := Run(c, evs);
    var j := SlotHasIt(st.sh.dmrds, i);
    assert st.sh.dmrds[i].ts.TS1? ==> st.one.hist.frames[j] == st.sh.dmrds[i].dmrd;
    DmrdRoundTrip(st.sh.dmrds[i].dmrd);
  }
}
