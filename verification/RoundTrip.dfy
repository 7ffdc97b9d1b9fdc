/**
 The whole-call round trip: an IPSC call translated to DMRDs by one translator and back by
 another comes out as the same call, header by header and burst by burst, whatever else
 happens on the two translators meanwhile.
 */
module RoundTrip {
  import opened Prelude
  import opened Wire
  import opened AmbeCodec
  import opened Packets
  import opened CallModel
  import opened Runs
  import opened CallOut
  import opened CallIn

  /**
   Main result: speak any call into a slot of one translator that is open to it, and relay the
   DMRDs it sends to a slot of another that is open to them, whatever else happens in between
   on either translator.  The second generates the same call on the same slot: the repeated
   headers, one burst per block at superframe position i mod 6 with the same three vocoder
   frames, and the terminator, all with the same source, group and LC.
   */
  lemma WholeCallRoundTrip(c: Config, st: State, k: Config, su: State, ts: Timeslot, call: WholeCall, evs: seq<Event>)
    requires c.dmr.Valid() && |c.repeaterId| == 4 && !c.legacy && k.dmr == c.dmr && !k.legacy && call.WellFormed()
    requires SpeaksWhole(evs, ts, call) && CanSpeak(c, st.At(ts), call, evs[0].now)
    ensures var sent := SentSince(st.At(ts), RunFrom(c, st, evs).At(ts));
      && |sent| == call.Length()
      && forall hevs: seq<Event> | RelaysWhole(hevs, ts, sent) && CanHear(k, su.At(ts), evs[0].nonce, hevs[0].now) ::
           Faces(RunFrom(k, su, hevs).At(ts).hist.offers) == Faces(su.At(ts).hist.offers) + CallFaces(k, ts, call)
  {
    hide Dmr.Valid, Step, RunFrom, CanSpeak, CanHear, Faces, CallFaces, Says, SpeaksCall, Relays, HeardCount;
    WholeCallForward(c, st, ts, call, evs);
    var sent := SentSince(st.At(ts), RunFrom(c, st, evs).At(ts));
    forall hevs: seq<Event> | RelaysWhole(hevs, ts, sent) && CanHear(k, su.At(ts), evs[0].nonce, hevs[0].now)
      ensures Faces(RunFrom(k, su, hevs).At(ts).hist.offers) == Faces(su.At(ts).hist.offers) + CallFaces(k, ts, call)
    {
      WholeCallBackward(c, k, su, ts, call, evs[0].nonce, sent, hevs);
    }
  }
  // ------------------------------------------------------------------
  // Such calls exist
  // ------------------------------------------------------------------

  /**
   A packet of the call as a stack delivers it: 31 bytes of header, then (for a burst) a rest with
   the block at 33.
   */
  function Spoken(ts: Timeslot, call: WholeCall, m: nat): Event
    requires m < call.Length()
  {
    var last, i := call.Length() - 1, m - call.First();
    var burst := if i < 0 then VOICE_HEAD else if m < last then SlotVoice(ts) else VOICE_TERM;
    var front := [GROUP_VOICE, 0, 0, 0, 1, call.streamByte] + call.src + call.dst + seq(5, _ => 0)
                 + [CallInfo(ts, m == last)] + seq(12, _ => 0) + [burst];
    IpscPacket(ts, if 0 <= i && m < last then front + [0x22, 0x16] + call.blocks[i]
      else front, burst, true, 0, [0, 0, 0, 0])
  }

  /** The parts of such a packet stand where a receiver reads them. */
  lemma FrontReads(front: Bytes, call: WholeCall, info: byte, burst: byte)
    requires |call.src| == 3 && |call.dst| == 3
    requires front == [GROUP_VOICE, 0, 0, 0, 1, call.streamByte] + call.src + call.dst + seq(5, _ => 0)
                      + [info] + seq(12, _ => 0) + [burst]
    ensures |front| == 31 && front[0] == GROUP_VOICE && front[5] == call.streamByte
    ensures front[6..9] == call.src && front[9..12] == call.dst && front[17] == info && front[30] == burst
  {
  }

  lemma FrontExtends(front: Bytes, data: Bytes)
    requires |front| == 31 && front <= data
    ensures data[0] == front[0] && data[5] == front[5] && data[17] == front[17] && data[30] == front[30]
    ensures data[6..9] == front[6..9] && data[9..12] == front[9..12]
  {
  }

  lemma BlockStands(front: Bytes, block: Bytes)
    requires |front| == 31 && |block| == 19
    ensures var data := front + [0x22, 0x16] + block; front <= data && data[32] == 0x16 && data[33..52] == block
  {
    assert front + [0x22, 0x16] + block == front + ([0x22, 0x16] + block);
  }

  lemma InfoReads(ts: Timeslot, end: bool, data: Bytes)
    requires |data| >= 31 && data[17] == CallInfo(ts, end)
    ensures GvMeta(data) == Some((ts, data[30]))
  {
  }

  lemma SpokenIs(ts: Timeslot, call: WholeCall, m: nat)
    requires m < call.Length() && call.WellFormed()
    ensures var last, i, e := call.Length() - 1, m - call.First(), Spoken(ts, call, m);
      && IpscHeard(e, ts) && |e.nonce| == 4 && |e.data| >= 31
      && e.data[0] == GROUP_VOICE && e.data[5] == call.streamByte && e.data[6..9] == call.src
        && e.data[9..12] == call.dst
      && e.data[17] == CallInfo(ts, m == last) && e.data[30] == e.burst
      && (0 <= i && m < last ==> |e.data| >= 52 && e.data[32] == 0x16 && e.data[33..52] == call.blocks[i])
      && e.burst == if i < 0 then VOICE_HEAD else if m < last then SlotVoice(ts) else VOICE_TERM
  {
    var last, i, e := call.Length() - 1, m - call.First(), Spoken(ts, call, m);
    var info := CallInfo(ts, m == last);
    var front := [GROUP_VOICE, 0, 0, 0, 1, call.streamByte] + call.src + call.dst + seq(5, _ => 0)
                 + [info] + seq(12, _ => 0) + [e.burst];
    assert e.data == if 0 <= i && m < last then front + [0x22, 0x16] + call.blocks[i] else front;
    FrontReads(front, call, info, e.burst);
    if 0 <= i && m < last {
      BlockStands(front, call.blocks[i]);
    }
    FrontExtends(front, e.data);
    hide Spoken, CallInfo;
  }

  lemma SpokenSpeaks(ts: Timeslot, call: WholeCall, m: nat)
    requires m < call.Length() && call.WellFormed()
    ensures var e := Spoken(ts, call, m); Speaks(e, m, ts, call) && Delivered(e)
  {
    hide Spoken, CallInfo, GvMeta;
    SpokenIs(ts, call, m);
    InfoReads(ts, m == call.Length() - 1, Spoken(ts, call, m).data);
  }

  function SpokenUpTo(ts: Timeslot, call: WholeCall, m: nat): (r: seq<Event>)
    requires m <= call.Length()
    ensures |r| == m
  {
    seq(m, i requires 0 <= i < m => Spoken(ts, call, i))
  }

  function RelayedUpTo(frames: seq<Dmrd>, m: nat): (r: seq<Event>)
    requires m <= |frames|
    ensures |r| == m
  {
    seq(m, i requires 0 <= i < m => HbpPacket(frames[i].Bytes(), true, 0, 0, 0))
  }

  lemma {:induction false} SpokenUpToSpeaks(ts: Timeslot, call: WholeCall, m: nat)
    requires m <= call.Length() && call.WellFormed()
    ensures var evs := SpokenUpTo(ts, call, m); SpeaksCall(evs, ts, call) && HeardCount(evs, FromIpsc, ts) == m
  {
    hide Spoken;
    if m > 0 {
      SpokenUpToSpeaks(ts, call, m - 1);
      SpokenSpeaks(ts, call, m - 1);
      assert SpokenUpTo(ts, call, m)[..m - 1] == SpokenUpTo(ts, call, m - 1);
    }
  }

  lemma {:induction false} RelayedUpToRelays(ts: Timeslot, frames: seq<Dmrd>, m: nat)
    requires m <= |frames|
    requires forall d <- frames :: |d.Bytes()| >= DMRD_LEN && SlotOf(d.Bytes()[15]) == ts
    ensures var hevs := RelayedUpTo(frames, m); Relays(hevs, ts, frames) && HeardCount(hevs, FromHbp, ts) == m
  {
    hide Dmrd.Bytes;
    if m > 0 {
      RelayedUpToRelays(ts, frames, m - 1);
      assert RelayedUpTo(frames, m)[..m - 1] == RelayedUpTo(frames, m - 1);
      assert frames[m - 1] in frames;
    }
  }

  /** Every call can be spoken, in packets as a stack delivers them, and its frames relayed. */
  lemma CallsAreSpeakable(c: Config, ts: Timeslot, call: WholeCall, stream: Bytes, frames: seq<Dmrd>)
      returns (evs: seq<Event>, hevs: seq<Event>)
    requires c.dmr.Valid() && |c.repeaterId| == 4 && |stream| == 4 && call.WellFormed()
    requires |frames| == call.Length() && Says(c, ts, call, stream, frames)
    ensures SpeaksWhole(evs, ts, call) && forall e <- evs :: Delivered(e)
    ensures RelaysWhole(hevs, ts, frames)
  {
    hide Dmr.Valid, Spoken, FrameAt, Speaks, Delivered;
    evs, hevs := SpokenUpTo(ts, call, call.Length()), RelayedUpTo(frames, |frames|);
    SpokenUpToSpeaks(ts, call, call.Length());
    forall e | e in evs ensures Delivered(e) {
      var m :| 0 <= m < |evs| && evs[m] == e;
      SpokenSpeaks(ts, call, m);
    }
    SpokenFirst(ts, call);
    forall d | d in frames ensures |d.Bytes()| >= DMRD_LEN && SlotOf(d.Bytes()[15]) == ts {
      var i :| 0 <= i < |frames| && frames[i] == d;
      FrameReceived(c, ts, call, stream, i, d);
      FrameOnSlot(c, ts, call, stream, i);
      assert ParseDmrd(d.Bytes()).flags == d.flags;
    }
    RelayedUpToRelays(ts, frames, |frames|);
    assert frames[0] in frames;
  }

  lemma SpokenFirst(ts: Timeslot, call: WholeCall)
    ensures var e := Spoken(ts, call, 0); IpscHeard(e, ts) && |e.nonce| == 4
  {
  }

  lemma FrameOnSlot(c: Config, ts: Timeslot, call: WholeCall, stream: Bytes, i: nat)
    requires i < call.Length() && call.WellFormed()
    ensures SlotOf(FrameAt(c, ts, call, stream, i).flags) == ts
  {
    hide HeadPayload, TermPayload, Assemble, EmbedField;
    FlagsReadBack(ts, if i < call.First() || i == call.Length() - 1 then 0 else call.Position(i - call.First()));
  }
}
