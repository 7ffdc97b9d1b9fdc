/**
 A whole call out: an IPSC call, spoken amid whatever else happens, is sent as exactly its DMRDs.
 */
module CallOut {
  import opened Prelude
  import opened Wire
  import opened AmbeCodec
  import opened Packets
  import opened CallModel
  import opened Frames
  import opened Runs

  /**
   A call as it is sent: who to whom, its IPSC stream byte, and the AMBE block of each burst.
   A call may be late: its header is missed, and it is entered at a Burst E.
   */
  datatype WholeCall = WholeCall(src: Bytes, dst: Bytes, streamByte: byte, late: bool, blocks: seq<Bytes>)
  {
    predicate WellFormed() {
      |src| == 3 && |dst| == 3 && (forall b <- blocks :: |b| == 19) && (late ==> blocks != [])
    }

    /** How many packets come before the bursts: the header, if it is heard. */
    function First(): nat {
      if late then 0 else 1
    }

    /** Its packets: a header, the bursts, a terminator. */
    function Length(): nat {
      First() + |blocks| + 1
    }

    /** The superframe position of burst i. */
    function Position(i: nat): (p: nat)
      ensures p < 6
    {
      ((if late then 4 else 0) + i) % 6
    }
  }

  function RunFrom(c: Config, st: State, evs: seq<Event>): State {
    if evs == [] then st else Step(c, RunFrom(c, st, evs[..|evs| - 1]), evs[|evs| - 1])
  }

  function LcOf(d: Dmr, call: WholeCall): Bytes {
    d.lcOpt + call.dst + call.src
  }

  /** The lock does not stand against a stream of this direction, and lets it take the slot. */
  predicate LockOpen(s: Slot, dir: Direction, key: StreamKey, now: Time) {
    && !Remembers(Prune(s.lock, now), key)
    && (s.lock.owner.None? || s.lock.owner == Some(dir) || !LockActive(s, now))
  }

  /**
   What may happen between the packets of a call: anything but the loss of a side and, while
   the call is open, a watchdog tick that finds it timed out.
   */
  predicate Amid(e: Event, last: Time, open: bool) {
    match e
    case Watchdog(now) => open ==> now - last <= CALL_TIMEOUT
    case PeerLost(_) => false
    case HbpLost(_) => false
    case _ => true
  }

  // ------------------------------------------------------------------
  // Forward: IPSC to DMRD
  // ------------------------------------------------------------------

  /** The event is packet m of the call on slot ts: the header, a burst per block (E first if late), the terminator. */
  predicate Speaks(e: Event, m: nat, ts: Timeslot, call: WholeCall) {
    var n := |call.blocks|;
    && IpscHeard(e, ts) && |e.data| >= 31
    && e.data[5] == call.streamByte && e.data[6..9] == call.src && e.data[9..12] == call.dst
    && (m < call.First() ==> e.burst == VOICE_HEAD)
    && (call.First() <= m < call.First() + n ==>
          && e.burst != VOICE_HEAD && e.burst != VOICE_TERM
          && |e.data| >= 52 && e.data[33..52] == call.blocks[m - call.First()]
          && (m == 0 ==> e.data[32] == 0x16))
    && (m == call.First() + n ==> e.burst == VOICE_TERM)
  }

  /** What the slot hears from IPSC are the packets of the call, in order, amid other events. */
  predicate SpeaksCall(evs: seq<Event>, ts: Timeslot, call: WholeCall) {
    evs == [] || (
      var pre, e := evs[..|evs| - 1], evs[|evs| - 1];
      var m := HeardCount(pre, FromIpsc, ts);
      && SpeaksCall(pre, ts, call)
      && if IpscHeard(e, ts) then m < call.Length() && Speaks(e, m, ts, call)
         else Amid(e, LastHeard(pre, FromIpsc, ts), 0 < m < call.Length()))
  }

  /** From its header on, the whole call is spoken. */
  predicate SpeaksWhole(evs: seq<Event>, ts: Timeslot, call: WholeCall) {
    && evs != [] && IpscHeard(evs[0], ts) && |evs[0].nonce| == 4
    && SpeaksCall(evs, ts, call) && HeardCount(evs, FromIpsc, ts) == call.Length()
  }

  /** A call may begin: none is open, the lock is open to it, and it is no echo. */
  predicate CanSpeak(c: Config, s: Slot, call: WholeCall, now: Time) {
    && s.out.stream.None?
    && (c.callLock ==> LockOpen(s, FromIpsc, IpscKey(call.streamByte), now))
    && (c.reflectSuppression && c.peerMode ==>
          && call.streamByte !in Live(s.reflect.ignored, now)
          && !(!call.late && s.inb.started && SeenRecently(LiveRecent(s.reflect.recent, now), call.src, call.dst)))
  }

  /**
   The i-th DMRD of the call, its sequence number apart: the header, then the bursts at their
   superframe positions, then the terminator.
   */
  function FrameAt(c: Config, ts: Timeslot, call: WholeCall, stream: Bytes, i: nat): Dmrd
    requires i < call.Length() && call.WellFormed()
  {
    var lc := LcOf(c.dmr, call);
    if i < call.First() then Dmrd(0, call.src, call.dst, c.repeaterId, HeadFlags(ts), stream, HeadPayload(c.dmr, lc))
    else if i == call.Length() - 1 then
      Dmrd(0, call.src, call.dst, c.repeaterId, TermFlags(ts), stream, TermPayload(c.dmr, lc))
    else
      var pos := call.Position(i - call.First());
      Dmrd(0, call.src, call.dst, c.repeaterId, VoiceFlags(ts, pos), stream,
           Assemble(c.dmr, call.blocks[i - call.First()], EmbedField(c.dmr, pos, Some(c.dmr.encodeEmbLc(lc)))))
  }

  /** The frames are the first ones of the call, whatever their sequence numbers. */
  predicate Says(c: Config, ts: Timeslot, call: WholeCall, stream: Bytes, frames: seq<Dmrd>)
    requires call.WellFormed()
  {
    && |frames| <= call.Length()
    && forall i :: 0 <= i < |frames| ==> frames[i].(seqNo := 0) == FrameAt(c, ts, call, stream, i)
  }

  /** One frame is added, this one but for its sequence number. */
  predicate Adds(f: seq<Dmrd>, f': seq<Dmrd>, d: Dmrd) {
    |f'| == |f| + 1 && f'[..|f|] == f && f'[|f|].(seqNo := 0) == d
  }

  /** The outbound call is open, i bursts in, holds the lock and was last heard at the given time. */
  ghost predicate Speaking(c: Config, s: Slot, call: WholeCall, stream: Bytes, i: nat, last: Time) {
    && s.out.stream == Some(stream) && s.out.framePos == (if call.late then 4 else 0) + i && s.out.lastPkt == last
    && s.out.lc == Some(LcOf(c.dmr, call)) && s.out.embLc == Some(c.dmr.encodeEmbLc(LcOf(c.dmr, call)))
    && (c.callLock ==> s.lock.owner == Some(FromIpsc) && call.streamByte !in s.lock.blockedIpsc)
    && (c.reflectSuppression && c.peerMode ==> call.streamByte !in s.reflect.ignored)
  }

  /** A packet the lock is open to, and that is no echo, passes the gates and holds the lock. */
  lemma IpscPasses(c: Config, s: Slot, data: Bytes, burst: byte, now: Time)
    requires !c.legacy && |data| > 5 && (c.callLock ==> LockOpen(s, FromIpsc, IpscKey(data[5]), now))
    requires c.reflectSuppression && c.peerMode ==>
      && data[5] !in Live(s.reflect.ignored, now)
      && !(burst == VOICE_HEAD && s.inb.started
           && SeenRecently(LiveRecent(s.reflect.recent, now), Slice(data, 6, 9), Slice(data, 9, 12)))
    ensures var g := IpscGate(c, s, data, burst, now);
      && g.pass && g.s.out == s.out.(lastPkt := now) && g.s.inb == s.inb && g.s.hist == s.hist
      && (c.callLock ==> g.s.lock.owner == Some(FromIpsc) && data[5] !in g.s.lock.blockedIpsc)
      && (c.reflectSuppression && c.peerMode ==> data[5] !in g.s.reflect.ignored)
  {
    hide Live, LiveRecent, SeenRecently;
  }

  /** A packet that passes the gates is forwarded. */
  lemma IpscStepIs(c: Config, ts: Timeslot, r: Res, e: Event)
    requires IpscHeard(e, ts) && IpscGate(c, r.s, e.data, e.burst, e.now).pass
    ensures SlotStep(c, ts, r, e) == IpscForward(c, ts,
      Res(Learn(r.sh, e.data), IpscGate(c, r.s, e.data, e.burst, e.now).s), e.data, e.burst, e.now, e.nonce)
  {
    hide IpscForward, IpscGate;
  }

  lemma HeadSpeaks(c: Config, ts: Timeslot, r: Res, e: Event, call: WholeCall)
    requires !c.legacy && !call.late && CanSpeak(c, r.s, call, e.now) && Speaks(e, 0, ts, call) && call.WellFormed()
    ensures var s' := SlotStep(c, ts, r, e).s;
      && Speaking(c, s', call, e.nonce, 0, e.now)
      && Adds(r.s.hist.frames, s'.hist.frames, FrameAt(c, ts, call, e.nonce, 0))
  {
    hide HeadPayload, IpscGate, SlotStep, Learn, LockOpen, Live, LiveRecent, SeenRecently;
    IpscPasses(c, r.s, e.data, e.burst, e.now);
    IpscStepIs(c, ts, r, e);
  }

  /** A Burst E opens the call and is its first burst, at position 4. */
  lemma LateSpeaks(c: Config, ts: Timeslot, r: Res, e: Event, call: WholeCall)
    requires !c.legacy && call.late && CanSpeak(c, r.s, call, e.now) && Speaks(e, 0, ts, call) && call.WellFormed()
    ensures var s' := SlotStep(c, ts, r, e).s;
      && Speaking(c, s', call, e.nonce, 1, e.now)
      && Adds(r.s.hist.frames, s'.hist.frames, FrameAt(c, ts, call, e.nonce, 0))
  {
    hide Assemble, EmbedField, IpscGate, SlotStep, Learn, LockOpen, Live, LiveRecent, SeenRecently;
    IpscPasses(c, r.s, e.data, e.burst, e.now);
    IpscStepIs(c, ts, r, e);
  }

  /** Within its call a packet passes the gates, and leaves the call open. */
  lemma SpeakingPasses(c: Config, ts: Timeslot, r: Res, e: Event, call: WholeCall, stream: Bytes, i: nat, last: Time,
                       m: nat)
    requires !c.legacy && Speaking(c, r.s, call, stream, i, last) && 0 < m && Speaks(e, m, ts, call)
      && e.burst != VOICE_HEAD
    ensures var g := IpscGate(c, r.s, e.data, e.burst, e.now);
      && g.pass && Speaking(c, g.s, call, stream, i, e.now) && g.s.hist == r.s.hist
      && SlotStep(c, ts, r, e) == IpscForward(c, ts, Res(Learn(r.sh, e.data), g.s), e.data, e.burst, e.now, e.nonce)
  {
    hide IpscGate, SlotStep, IpscForward, Learn;
    IpscPasses(c, r.s, e.data, e.burst, e.now);
    IpscStepIs(c, ts, r, e);
  }

  lemma BurstSpeaks(c: Config, ts: Timeslot, r: Res, e: Event, call: WholeCall, stream: Bytes, i: nat, last: Time)
    requires !c.legacy && Speaking(c, r.s, call, stream, i, last) && call.WellFormed() && i < |call.blocks|
    requires 0 < call.First() + i && Speaks(e, call.First() + i, ts, call)
    ensures var s' := SlotStep(c, ts, r, e).s;
      && Speaking(c, s', call, stream, i + 1, e.now)
      && Adds(r.s.hist.frames, s'.hist.frames, FrameAt(c, ts, call, stream, call.First() + i))
  {
    hide Assemble, EmbedField, IpscGate, SlotStep, Learn;
    SpeakingPasses(c, ts, r, e, call, stream, i, last, call.First() + i);
  }

  /** The terminator is sent, and the slot is open again, to this stream at any time. */
  lemma TermSpeaks(c: Config, ts: Timeslot, r: Res, e: Event, call: WholeCall, stream: Bytes, last: Time, later: Time)
    requires !c.legacy && Speaking(c, r.s, call, stream, |call.blocks|, last) && call.WellFormed()
    requires Speaks(e, call.Length() - 1, ts, call)
    ensures var s' := SlotStep(c, ts, r, e).s;
      && Adds(r.s.hist.frames, s'.hist.frames, FrameAt(c, ts, call, stream, call.Length() - 1))
      && s'.out.stream.None? && (c.callLock ==> LockOpen(s', FromIpsc, IpscKey(call.streamByte), later))
  {
    hide TermPayload, IpscGate, SlotStep, Learn;
    SpeakingPasses(c, ts, r, e, call, stream, |call.blocks|, last, call.Length() - 1);
  }

  /** An active owner stays the owner, and no more of its streams are remembered. */
  lemma OwnerStays(c: Config, s: Slot, dir: Direction, key: StreamKey, src: Bytes, dst: Bytes, isEnd: bool, now: Time)
    requires c.callLock && s.lock.owner == Some(if dir == FromIpsc then FromHbp else FromIpsc) && LockActive(s, now)
    requires dir == FromIpsc ==> key.NoKey? || key.IpscKey?
    requires dir == FromHbp ==> key.HbpKey?
    ensures var l := LockGate(c, s, dir, key, src, dst, isEnd, now).s.lock;
      && l.owner == s.lock.owner
      && (dir == FromHbp ==> l.blockedIpsc.Keys <= s.lock.blockedIpsc.Keys)
      && (dir == FromIpsc ==> l.blockedHbp.Keys <= s.lock.blockedHbp.Keys)
  {
  }

  /** HBP traffic does not touch an open outbound call. */
  lemma HbpAmidSpeaking(c: Config, ts: Timeslot, r: Res, b: Burst, now: Time, seq0: nat, ts0: nat, call: WholeCall,
                        stream: Bytes, i: nat, last: Time)
    requires Speaking(c, r.s, call, stream, i, last) && |b.payload| == 33
    ensures var s' := HbpVoice(c, ts, r, b, now, seq0, ts0).s;
      Speaking(c, s', call, stream, i, last) && s'.hist.frames == r.s.hist.frames
  {
    hide LockGate, HbpForward;
    HbpGateFrame(c, r.s, b, now);
    var g := HbpGate(c, r.s, b, now);
    if c.callLock {
      OwnerStays(c, r.s.(inb := r.s.inb.(lastPkt := now)), FromHbp, HbpKey(b.stream), b.src, b.dst, IsTerm(b.flags),
        now);
    }
    HbpForwardFrame(c, ts, r.(s := g.s), b, now, seq0, ts0);
  }

  lemma AmidSpeaking(c: Config, ts: Timeslot, r: Res, e: Event, call: WholeCall, stream: Bytes, i: nat, last: Time)
    requires Speaking(c, r.s, call, stream, i, last) && !IpscHeard(e, ts) && Amid(e, last, true)
    ensures var s' := SlotStep(c, ts, r, e).s;
      Speaking(c, s', call, stream, i, last) && s'.hist.frames == r.s.hist.frames
  {
    hide HbpVoice, IpscVoice, Drain, LcOf;
    match e
    case HbpPacket(dmrd, up, now, seq0, ts0) =>
      if HbpHeard(e, ts) {
        HbpAmidSpeaking(c, ts, r, ParseDmrd(dmrd), now, seq0, ts0, call, stream, i, last);
      }
    case DrainFires(_, now, later) => DrainFrame(c, r.s, now, later);
    case _ =>
  }

  /** After the call, what is no IPSC packet sends nothing more. */
  lemma AmidSendsNothing(c: Config, ts: Timeslot, r: Res, e: Event)
    requires !IpscHeard(e, ts)
    ensures SlotStep(c, ts, r, e).s.hist.frames == r.s.hist.frames
  {
    hide IpscVoice, HbpGate, HbpForward, Drain;
    match e
    case HbpPacket(dmrd, up, now, seq0, ts0) =>
      if HbpHeard(e, ts) {
        var b := ParseDmrd(dmrd);
        HbpGateFrame(c, r.s, b, now);
        HbpForwardFrame(c, ts, r.(s := HbpGate(c, r.s, b, now).s), b, now, seq0, ts0);
      }
    case DrainFires(_, now, later) => DrainFrame(c, r.s, now, later);
    case _ =>
  }

  /** m packets heard, the last at the given time: m frames are out, and the call is open until its last packet. */
  ghost predicate SpokenSoFar(c: Config, ts: Timeslot, call: WholeCall, stream: Bytes, base: seq<Dmrd>, s: Slot, m: nat,
                              last: Time)
    requires call.WellFormed()
  {
    && 1 <= m <= call.Length()
    && |s.hist.frames| == |base| + m && base <= s.hist.frames
    && Says(c, ts, call, stream, s.hist.frames[|base|..])
    && (m < call.Length() ==> Speaking(c, s, call, stream, m - call.First(), last))
  }

  lemma SaysMore(c: Config, ts: Timeslot, call: WholeCall, stream: Bytes, base: seq<Dmrd>, f: seq<Dmrd>, f': seq<Dmrd>)
    requires call.WellFormed() && base <= f && |f| - |base| < call.Length() && Says(c, ts, call, stream, f[|base|..])
    requires Adds(f, f', FrameAt(c, ts, call, stream, |f| - |base|))
    ensures base <= f' && Says(c, ts, call, stream, f'[|base|..])
  {
    hide FrameAt;
    var g, g' := f[|base|..], f'[|base|..];
    assert f' == f + [f'[|f|]];
    assert g' == g + [f'[|f|]];
    forall i | 0 <= i < |g'| ensures g'[i].(seqNo := 0) == FrameAt(c, ts, call, stream, i) {
      if i < |g| {
        assert g[i].(seqNo := 0) == FrameAt(c, ts, call, stream, i);
      }
    }
  }

  lemma CallStarts(c: Config, ts: Timeslot, r: Res, e: Event, call: WholeCall)
    requires !c.legacy && CanSpeak(c, r.s, call, e.now) && Speaks(e, 0, ts, call) && call.WellFormed()
    ensures SpokenSoFar(c, ts, call, e.nonce, r.s.hist.frames, SlotStep(c, ts, r, e).s, 1, e.now)
  {
    var nonce := e.nonce;
    hide SlotStep, FrameAt, Speaking, CanSpeak, Speaks;
    if call.late {
      LateSpeaks(c, ts, r, e, call);
    } else {
      HeadSpeaks(c, ts, r, e, call);
    }
    SaysMore(c, ts, call, nonce, r.s.hist.frames, r.s.hist.frames, SlotStep(c, ts, r, e).s.hist.frames);
  }

  lemma PacketSpeaks(c: Config, ts: Timeslot, r: Res, e: Event, call: WholeCall, stream: Bytes, base: seq<Dmrd>, m: nat,
                     last: Time)
    requires !c.legacy && call.WellFormed() && m < call.Length() && Speaks(e, m, ts, call)
    requires SpokenSoFar(c, ts, call, stream, base, r.s, m, last)
    ensures SpokenSoFar(c, ts, call, stream, base, SlotStep(c, ts, r, e).s, m + 1, e.now)
  {
    hide SlotStep, FrameAt, Speaking, Speaks, Says;
    if m == call.Length() - 1 {
      TermSpeaks(c, ts, r, e, call, stream, last, e.now);
    } else {
      BurstSpeaks(c, ts, r, e, call, stream, m - call.First(), last);
    }
    SaysMore(c, ts, call, stream, base, r.s.hist.frames, SlotStep(c, ts, r, e).s.hist.frames);
  }

  lemma AsideSpeaks(c: Config, ts: Timeslot, r: Res, e: Event, call: WholeCall, stream: Bytes, base: seq<Dmrd>, m: nat,
                    last: Time)
    requires call.WellFormed() && !IpscHeard(e, ts) && Amid(e, last, m < call.Length())
    requires SpokenSoFar(c, ts, call, stream, base, r.s, m, last)
    ensures SpokenSoFar(c, ts, call, stream, base, SlotStep(c, ts, r, e).s, m, last)
  {
    hide SlotStep, Speaking, Says;
    AmidSendsNothing(c, ts, r, e);
    if m < call.Length() {
      AmidSpeaking(c, ts, r, e, call, stream, m - call.First(), last);
    }
  }

  /** However far the call has been spoken, that much of it has been sent. */
  lemma {:induction false} CallForward(c: Config, st: State, ts: Timeslot, call: WholeCall, evs: seq<Event>)
    requires !c.legacy && call.WellFormed() && SpeaksCall(evs, ts, call)
    requires evs != [] && IpscHeard(evs[0], ts) && CanSpeak(c, st.At(ts), call, evs[0].now)
    ensures SpokenSoFar(c, ts, call, evs[0].nonce, st.At(ts).hist.frames, RunFrom(c, st, evs).At(ts),
                        HeardCount(evs, FromIpsc, ts), LastHeard(evs, FromIpsc, ts))
  {
    hide Step, SlotStep, SpokenSoFar, CanSpeak, Speaks;
    var pre, e := evs[..|evs| - 1], evs[|evs| - 1];
    var su := RunFrom(c, st, pre);
    StepSeen(c, ts, su, e);
    if pre == [] {
      CallStarts(c, ts, Seen(c, ts, su, e), e, call);
    } else {
      CallForward(c, st, ts, call, pre);
      var m, last, base := HeardCount(pre, FromIpsc, ts), LastHeard(pre, FromIpsc, ts), st.At(ts).hist.frames;
      SpokenCount(c, ts, call, evs[0].nonce, base, su.At(ts), m, last);
      if IpscHeard(e, ts) {
        PacketSpeaks(c, ts, Seen(c, ts, su, e), e, call, evs[0].nonce, base, m, last);
      } else {
        AsideSpeaks(c, ts, Seen(c, ts, su, e), e, call, evs[0].nonce, base, m, last);
      }
    }
  }

  lemma SpokenCount(c: Config, ts: Timeslot, call: WholeCall, stream: Bytes, base: seq<Dmrd>, s: Slot, m: nat,
                    last: Time)
    requires call.WellFormed() && SpokenSoFar(c, ts, call, stream, base, s, m, last)
    ensures 1 <= m <= call.Length()
  {
  }

  /** The DMRDs a slot has sent between two states. */
  function SentSince(before: Slot, after: Slot): seq<Dmrd> {
    if before.hist.frames <= after.hist.frames then after.hist.frames[|before.hist.frames|..] else []
  }

  /** Speaking the whole call, amid other events, sends exactly its frames. */
  lemma WholeCallForward(c: Config, st: State, ts: Timeslot, call: WholeCall, evs: seq<Event>)
    requires !c.legacy && call.WellFormed() && SpeaksWhole(evs, ts, call) && CanSpeak(c, st.At(ts), call, evs[0].now)
    ensures var s, s' := st.At(ts), RunFrom(c, st, evs).At(ts);
      && s.hist.frames <= s'.hist.frames && |SentSince(s, s')| == call.Length()
      && Says(c, ts, call, evs[0].nonce, SentSince(s, s'))
  {
    hide Step, RunFrom, CanSpeak, Says;
    CallForward(c, st, ts, call, evs);
  }
}
