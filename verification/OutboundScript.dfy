/**
 The DMRDs sent towards HBP: one shared sequence number, and per slot a sequence of streams
 whose flags follow the voice superframe (section 5.1.2.1 of ETSI TS 102 361-1).
 */
module OutboundScript {
  import opened Prelude
  import opened Wire
  import opened AmbeCodec
  import opened Packets
  import opened CallModel
  import opened Frames
  import opened Runs

  datatype Kind = Head | Talk | End

  /** A stream: its id, whether it opened by late entry, and its frames so far. */
  datatype Stream = Stream(id: Bytes, late: bool, kinds: seq<Kind>)

  /** The voice position after these frames: a header rewinds to 0, late entry begins at 4. */
  function PosAfter(late: bool, kinds: seq<Kind>): nat {
    if kinds == [] then (if late then 4 else 0)
    else
      var before := PosAfter(late, kinds[..|kinds| - 1]);
      match kinds[|kinds| - 1]
      case Head => 0
      case Talk => before + 1
      case End => before
  }

  function FlagsFor(ts: Timeslot, late: bool, before: seq<Kind>, k: Kind): byte {
    match k
    case Head => HeadFlags(ts)
    case Talk => VoiceFlags(ts, PosAfter(late, before) % 6)
    case End => TermFlags(ts)
  }

  /** What a frame shows: flags and stream id. */
  datatype Sig = Sig(flags: byte, stream: Bytes)

  function StreamSigs(ts: Timeslot, id: Bytes, late: bool, kinds: seq<Kind>): (r: seq<Sig>)
    ensures |r| == |kinds|
  {
    if kinds == [] then []
    else
      var before := kinds[..|kinds| - 1];
      StreamSigs(ts, id, late, before) + [Sig(FlagsFor(ts, late, before, kinds[|kinds| - 1]), id)]
  }

  function AllSigs(ts: Timeslot, sts: seq<Stream>): seq<Sig> {
    if sts == [] then []
    else
      var l := sts[|sts| - 1];
      AllSigs(ts, sts[..|sts| - 1]) + StreamSigs(ts, l.id, l.late, l.kinds)
  }

  function Sigs(f: seq<Dmrd>): (r: seq<Sig>)
    ensures |r| == |f|
  {
    seq(|f|, i requires 0 <= i < |f| => Sig(f[i].flags, f[i].stream))
  }

  /**
   A terminator only ends a stream.  A stream opens with a header unless by late entry; in
   LEGACY_AMBE flow it opens with exactly two headers and has no other.
   */
  predicate WellFramed(c: Config, st: Stream) {
    && (forall i :: 0 <= i < |st.kinds| - 1 ==> !st.kinds[i].End?)
    && (!st.late ==> st.kinds != [] && st.kinds[0].Head?)
    && (c.legacy ==>
          && !st.late
          && |st.kinds| >= 2 && st.kinds[1].Head?
          && (forall i :: 2 <= i < |st.kinds| ==> !st.kinds[i].Head?))
  }

  /** The stream the outbound call is sending. */
  predicate Open(o: Outbound, st: Stream) {
    && o.stream == Some(st.id)
    && (forall i :: 0 <= i < |st.kinds| ==> !st.kinds[i].End?)
    && o.framePos == PosAfter(st.late, st.kinds)
  }

  /** The frames are those of sts, all but the last well framed; the open stream is the last. */
  ghost predicate FramedBut(c: Config, ts: Timeslot, o: Outbound, f: seq<Dmrd>, sts: seq<Stream>) {
    && Sigs(f) == AllSigs(ts, sts)
    && (forall j :: 0 <= j < |sts| - 1 ==> WellFramed(c, sts[j]))
    && (o.stream.Some? ==> sts != [] && Open(o, sts[|sts| - 1]))
  }

  ghost predicate Framed(c: Config, ts: Timeslot, o: Outbound, f: seq<Dmrd>, sts: seq<Stream>) {
    FramedBut(c, ts, o, f, sts) && (sts != [] ==> WellFramed(c, sts[|sts| - 1]))
  }

  function Ids(sts: seq<Stream>): (r: seq<Bytes>)
    ensures |r| == |sts|
  {
    seq(|sts|, i requires 0 <= i < |sts| => sts[i].id)
  }

  /** The slot's frames are those of well-framed streams with these ids. */
  ghost predicate SlotFramed(c: Config, ts: Timeslot, s: Slot, ids: seq<Bytes>) {
    exists sts :: Framed(c, ts, s.out, s.hist.frames, sts) && Ids(sts) == ids
  }

  /**
   An open stream need not have sent anything: a packet that opens one sends nothing exactly
   when it is a late entry too short for its AMBE block.
   */
  lemma OpensInSilenceExactlyWhen(c: Config, ts: Timeslot, r: Res, data: Bytes, burst: byte, now: Time, nonce: Bytes)
    requires r.s.out.stream.None?
    ensures var r' := IpscForward(c, ts, r, data, burst, now, nonce);
      (r'.s.out.stream.Some? && r'.s.hist.frames == r.s.hist.frames)
      <==> (burst != VOICE_HEAD && burst != VOICE_TERM && !c.legacy && 32 < |data| < 52 && data[32] == 0x16)
  {
    hide Assemble, EmbedField, HeadPayload;
    var f, r' := r.s.hist.frames, IpscForward(c, ts, r, data, burst, now, nonce);
    if burst == VOICE_HEAD {
      assert |r'.s.hist.frames| > |f|;
    }
  }

  // ------------------------------------------------------------------
  // Sending
  // ------------------------------------------------------------------

  lemma AllSigsAppend(ts: Timeslot, sts: seq<Stream>, st: Stream)
    ensures AllSigs(ts, sts + [st]) == AllSigs(ts, sts) + StreamSigs(ts, st.id, st.late, st.kinds)
  {
    assert (sts + [st])[..|sts|] == sts;
  }

  lemma KindsAppend(ts: Timeslot, id: Bytes, late: bool, kinds: seq<Kind>, k: Kind)
    ensures StreamSigs(ts, id, late, kinds + [k])
         == StreamSigs(ts, id, late, kinds) + [Sig(FlagsFor(ts, late, kinds, k), id)]
    ensures PosAfter(late, kinds + [k]) == (match k case Head => 0 case Talk => PosAfter(late, kinds) + 1
                                            case End => PosAfter(late, kinds))
  {
    assert (kinds + [k])[..|kinds|] == kinds;
  }

  function Pushed(sts: seq<Stream>, k: Kind): seq<Stream>
    requires sts != []
  {
    var l := sts[|sts| - 1];
    sts[..|sts| - 1] + [l.(kinds := l.kinds + [k])]
  }

  lemma PushSigs(ts: Timeslot, sts: seq<Stream>, k: Kind)
    requires sts != []
    ensures var l := sts[|sts| - 1];
      AllSigs(ts, Pushed(sts, k)) == AllSigs(ts, sts) + [Sig(FlagsFor(ts, l.late, l.kinds, k), l.id)]
  {
    hide StreamSigs, FlagsFor;
    var init, l := sts[..|sts| - 1], sts[|sts| - 1];
    assert init + [l] == sts;
    AllSigsAppend(ts, init, l);
    AllSigsAppend(ts, init, l.(kinds := l.kinds + [k]));
    KindsAppend(ts, l.id, l.late, l.kinds, k);
  }

  lemma SigsAppend(f: seq<Dmrd>, d: Dmrd)
    ensures Sigs(f + [d]) == Sigs(f) + [Sig(d.flags, d.stream)]
  {
  }

  /** One more frame of the open stream; o' is the outbound call after it. */
  lemma Push(c: Config, ts: Timeslot, o: Outbound, f: seq<Dmrd>, sts: seq<Stream>, k: Kind, d: Dmrd, o': Outbound)
    requires FramedBut(c, ts, o, f, sts) && o.stream.Some?
    requires var l := sts[|sts| - 1]; d.flags == FlagsFor(ts, l.late, l.kinds, k) && d.stream == l.id
    requires o'.stream == (if k.End? then None else o.stream)
    requires !k.End? ==> o'.framePos == match k case Head => 0 case _ => o.framePos + 1
    ensures FramedBut(c, ts, o', f + [d], Pushed(sts, k)) && Ids(Pushed(sts, k)) == Ids(sts)
  {
    hide AllSigs, Sigs, FlagsFor, StreamSigs;
    var l := sts[|sts| - 1];
    PushSigs(ts, sts, k);
    SigsAppend(f, d);
    KindsAppend(ts, l.id, l.late, l.kinds, k);
  }

  /** Opening a stream that has not sent anything yet. */
  lemma OpenStream(c: Config, ts: Timeslot, o: Outbound, f: seq<Dmrd>, sts: seq<Stream>, o': Outbound, id: Bytes,
                   late: bool)
    requires Framed(c, ts, o, f, sts)
    requires o'.stream == Some(id) && o'.framePos == if late then 4 else 0
    ensures FramedBut(c, ts, o', f, sts + [Stream(id, late, [])])
    ensures Ids(sts + [Stream(id, late, [])]) == Ids(sts) + [id]
  {
    AllSigsAppend(ts, sts, Stream(id, late, []));
  }

  lemma Seal(c: Config, ts: Timeslot, o: Outbound, f: seq<Dmrd>, sts: seq<Stream>)
    requires FramedBut(c, ts, o, f, sts) && sts != [] && WellFramed(c, sts[|sts| - 1])
    ensures Framed(c, ts, o, f, sts)
  {
  }

  /** A header on an idle slot opens a stream; LEGACY_AMBE flow sends it twice. */
  lemma FirstHeads(c: Config, ts: Timeslot, o: Outbound, f: seq<Dmrd>, sts: seq<Stream>, o': Outbound, d: Dmrd,
                   e: Dmrd, f': seq<Dmrd>)
    requires Framed(c, ts, o, f, sts) && o.stream.None?
    requires o'.stream == Some(d.stream) && o'.framePos == 0
    requires d.flags == e.flags == HeadFlags(ts) && d.stream == e.stream
    requires f' == if c.legacy then f + [d] + [e] else f + [d]
    ensures exists sts' :: Framed(c, ts, o', f', sts') && Ids(sts') == Ids(sts) + [d.stream]
  {
    hide Framed, FramedBut, Ids;
    OpenStream(c, ts, o, f, sts, o', d.stream, false);
    var sts0 := sts + [Stream(d.stream, false, [])];
    Push(c, ts, o', f, sts0, Head, d, o');
    var sts1 := Pushed(sts0, Head);
    assert sts1[|sts1| - 1].kinds == [Head];
    if c.legacy {
      Push(c, ts, o', f + [d], sts1, Head, e, o');
      var sts2 := Pushed(sts1, Head);
      assert sts2[|sts2| - 1].kinds == [Head, Head];
      Seal(c, ts, o', f', sts2);
    } else {
      Seal(c, ts, o', f', sts1);
    }
  }

  lemma HeadFramed(c: Config, ts: Timeslot, r: Res, src: Bytes, dst: Bytes, nonce: Bytes, sts: seq<Stream>)
    requires Framed(c, ts, r.s.out, r.s.hist.frames, sts)
    ensures var s' := IpscHead(c, ts, r, src, dst, nonce).s;
      SlotFramed(c, ts, s', Ids(sts)) || SlotFramed(c, ts, s', Ids(sts) + [nonce])
  {
    hide HeadPayload, Framed, FramedBut, Ids;
    var o, f := r.s.out, r.s.hist.frames;
    if o.stream.None? || !c.legacy {
      var lc := c.dmr.lcOpt + dst + src;
      var id := if o.stream.Some? then o.stream.value else nonce;
      var o' := o.(stream := Some(id), framePos := 0, lc := Some(lc), embLc := Some(c.dmr.encodeEmbLc(lc)));
      var d := Dmrd(r.sh.outSeq, src, dst, c.repeaterId, HeadFlags(ts), id, HeadPayload(c.dmr, lc));
      if o.stream.None? {
        FirstHeads(c, ts, o, f, sts, o', d, d.(seqNo := (r.sh.outSeq + 1) % 256),
                   IpscHead(c, ts, r, src, dst, nonce).s.hist.frames);
      } else {
        RepeatedHead(c, ts, o, f, sts, o', d);
      }
    }
  }

  /** A repeated header continues the stream and rewinds the position. */
  lemma RepeatedHead(c: Config, ts: Timeslot, o: Outbound, f: seq<Dmrd>, sts: seq<Stream>, o': Outbound, d: Dmrd)
    requires Framed(c, ts, o, f, sts) && o.stream == o'.stream == Some(d.stream) && o'.framePos == 0
    requires d.flags == HeadFlags(ts) && !c.legacy
    ensures exists sts' :: Framed(c, ts, o', f + [d], sts') && Ids(sts') == Ids(sts)
  {
    hide Sigs, AllSigs, PosAfter, Ids;
    Push(c, ts, o, f, sts, Head, d, o');
    assert Framed(c, ts, o', f + [d], Pushed(sts, Head));
  }

  lemma TermFramed(c: Config, ts: Timeslot, r: Res, src: Bytes, dst: Bytes, now: Time, sts: seq<Stream>)
    requires Framed(c, ts, r.s.out, r.s.hist.frames, sts)
    ensures SlotFramed(c, ts, IpscTerm(c, ts, r, src, dst, now).s, Ids(sts))
  {
    hide TermPayload, Sigs, AllSigs, PosAfter, Ids;
    var s' := IpscTerm(c, ts, r, src, dst, now).s;
    if r.s.out.stream.Some? {
      var d := Dmrd(r.sh.outSeq, src, dst, c.repeaterId, TermFlags(ts), r.s.out.stream.value,
                    TermPayload(c.dmr, OrElse(r.s.out.lc, c.dmr.lcOpt + dst + src)));
      Push(c, ts, r.s.out, r.s.hist.frames, sts, End, d, s'.out);
      assert Framed(c, ts, s'.out, s'.hist.frames, Pushed(sts, End));
    }
  }

  lemma BurstFramed(c: Config, ts: Timeslot, r: Res, data: Bytes, src: Bytes, dst: Bytes, nonce: Bytes,
                    sts: seq<Stream>)
    requires Framed(c, ts, r.s.out, r.s.hist.frames, sts)
    ensures var s' := IpscVoiceBurst(c, ts, r, data, src, dst, nonce).s;
      SlotFramed(c, ts, s', Ids(sts)) || SlotFramed(c, ts, s', Ids(sts) + [nonce])
  {
    hide Assemble, EmbedField, Sigs, AllSigs, PosAfter, VoiceFlags, Ids;
    var s' := IpscVoiceBurst(c, ts, r, data, src, dst, nonce).s;
    var g := LateEntry(c, r.s, data, src, dst, nonce);
    var o, f := g.s.out, r.s.hist.frames;
    if g.pass {
      var sts0 := sts;
      if r.s.out.stream.None? {
        OpenStream(c, ts, r.s.out, f, sts, o, nonce, true);
        sts0 := sts + [Stream(nonce, true, [])];
      }
      assert Framed(c, ts, o, f, sts0);
      if |data| >= 52 {
        var pos := o.framePos % 6;
        var d := Dmrd(r.sh.outSeq, src, dst, c.repeaterId, VoiceFlags(ts, pos), o.stream.value,
                      Assemble(c.dmr, data[33..52], EmbedField(c.dmr, pos, o.embLc)));
        Push(c, ts, o, f, sts0, Talk, d, s'.out);
        assert Framed(c, ts, s'.out, s'.hist.frames, Pushed(sts0, Talk));
      }
    }
  }

  /** A step keeps the streams, or opens one more whose id is the packet's nonce. */
  lemma StepFramed(c: Config, ts: Timeslot, r: Res, e: Event, ids: seq<Bytes>)
    requires SlotFramed(c, ts, r.s, ids)
    ensures var s' := SlotStep(c, ts, r, e).s;
      SlotFramed(c, ts, s', ids) || (IpscHeard(e, ts) && SlotFramed(c, ts, s', ids + [e.nonce]))
  {
    hide HbpGate, HbpForward, IpscGate, IpscHead, IpscTerm, IpscVoiceBurst, Drain, Sigs, AllSigs, Ids;
    var sts :| Framed(c, ts, r.s.out, r.s.hist.frames, sts) && Ids(sts) == ids;
    var s' := SlotStep(c, ts, r, e).s;
    match e
    case IpscPacket(ts', data, burst, up, now, nonce) =>
      if IpscHeard(e, ts) {
        IpscGateFrame(c, r.s, data, burst, now);
        var g := IpscGate(c, r.s, data, burst, now);
        assert Framed(c, ts, g.s.out, g.s.hist.frames, sts);
        var q, src, dst := Res(Learn(r.sh, data), g.s), Slice(data, 6, 9), Slice(data, 9, 12);
        HeadFramed(c, ts, q, src, dst, nonce, sts);
        TermFramed(c, ts, q, src, dst, now, sts);
        BurstFramed(c, ts, q, data, src, dst, nonce, sts);
      }
    case HbpPacket(dmrd, up, now, seq0, ts0) =>
      if HbpHeard(e, ts) {
        var b := ParseDmrd(dmrd);
        HbpGateFrame(c, r.s, b, now);
        HbpForwardFrame(c, ts, r.(s := HbpGate(c, r.s, b, now).s), b, now, seq0, ts0);
      }
      assert Framed(c, ts, s'.out, s'.hist.frames, sts);
    case DrainFires(_, now, later) =>
      DrainFrame(c, r.s, now, later);
      assert Framed(c, ts, s'.out, s'.hist.frames, sts);
    case _ =>
      assert Framed(c, ts, s'.out, s'.hist.frames, sts);
  }

  /** The ids are the nonces of these packets of the slot, in order. */
  ghost predicate OpenedAt(evs: seq<Event>, ts: Timeslot, ids: seq<Bytes>, at: seq<nat>) {
    && |at| == |ids|
    && (forall j :: 0 <= j < |at| ==> at[j] < |evs| && IpscHeard(evs[at[j]], ts) && evs[at[j]].nonce == ids[j])
    && (forall i, j :: 0 <= i < j < |at| ==> at[i] < at[j])
  }

  lemma OpenedStays(evs: seq<Event>, e: Event, ts: Timeslot, ids: seq<Bytes>, at: seq<nat>)
    requires OpenedAt(evs, ts, ids, at)
    ensures OpenedAt(evs + [e], ts, ids, at)
    ensures IpscHeard(e, ts) ==> OpenedAt(evs + [e], ts, ids + [e.nonce], at + [|evs|])
  {
  }

  /**
   Main result: on every run, a slot's DMRDs are exactly a sequence of well-framed streams, each
   named by the nonce of the packet that opened it.
   */
  lemma {:induction false} FramedAlways(c: Config, evs: seq<Event>, ts: Timeslot)
    ensures exists ids, at :: SlotFramed(c, ts, Run(c, evs).At(ts), ids) && OpenedAt(evs, ts, ids, at)
  {
    hide SlotStep, SlotFramed;
    if evs == [] {
      NothingFramed(c, ts);
      assert SlotFramed(c, ts, Run(c, evs).At(ts), []) && OpenedAt(evs, ts, [], []);
    } else {
      var pre, e := evs[..|evs| - 1], evs[|evs| - 1];
      var st := Run(c, pre);
      FramedAlways(c, pre, ts);
      var ids, at :| SlotFramed(c, ts, st.At(ts), ids) && OpenedAt(pre, ts, ids, at);
      StepFramed(c, ts, Res(if ts.TS1? then st.sh else SlotStep(c, TS1, Res(st.sh, st.one), e).sh, st.At(ts)), e, ids);
      hide OpenedAt, Run;
      OpenedStays(pre, e, ts, ids, at);
      assert evs == pre + [e];
    }
  }

  lemma NothingFramed(c: Config, ts: Timeslot)
    ensures SlotFramed(c, ts, IDLE_SLOT, [])
  {
    assert Framed(c, ts, IDLE_SLOT.out, [], []) && Ids([]) == [];
  }

  // ------------------------------------------------------------------
  // Stream ids on the wire
  // ------------------------------------------------------------------

  /** No two IPSC packets are given the same random bytes. */
  predicate DistinctNonces(evs: seq<Event>) {
    forall i, j :: 0 <= i < j < |evs| && evs[i].IpscPacket? && evs[j].IpscPacket? ==> evs[i].nonce != evs[j].nonce
  }

  predicate Distinct(ids: seq<Bytes>) {
    forall i, j :: 0 <= i < j < |ids| ==> ids[i] != ids[j]
  }

  /** With distinct nonces, each stream is all the frames of its id. */
  lemma StreamsAreDistinct(c: Config, evs: seq<Event>, ts: Timeslot)
    requires DistinctNonces(evs)
    ensures exists ids :: SlotFramed(c, ts, Run(c, evs).At(ts), ids) && Distinct(ids)
  {
    hide SlotFramed, Run;
    FramedAlways(c, evs, ts);
    var ids, at :| SlotFramed(c, ts, Run(c, evs).At(ts), ids) && OpenedAt(evs, ts, ids, at);
    forall i, j | 0 <= i < j < |ids| ensures ids[i] != ids[j] {
      assert at[i] < at[j] && evs[at[i]].nonce == ids[i] && evs[at[j]].nonce == ids[j];
    }
  }

  lemma {:induction false} SigsOfStream(ts: Timeslot, id: Bytes, late: bool, kinds: seq<Kind>, i: nat)
    requires i < |kinds|
    ensures var g := StreamSigs(ts, id, late, kinds)[i];
      g.stream == id && (g.flags == TermFlags(ts) <==> kinds[i].End?)
  {
    var n := |kinds| - 1;
    if i < n {
      SigsOfStream(ts, id, late, kinds[..n], i);
    }
  }

  /** The stream frame i is of. */
  lemma {:induction false} StreamOf(ts: Timeslot, sts: seq<Stream>, i: nat) returns (j: nat)
    requires i < |AllSigs(ts, sts)|
    ensures j < |sts| && AllSigs(ts, sts)[i].stream == sts[j].id
  {
    var n := |sts| - 1;
    var before := AllSigs(ts, sts[..n]);
    if i < |before| {
      j := StreamOf(ts, sts[..n], i);
    } else {
      j := n;
      SigsOfStream(ts, sts[n].id, sts[n].late, sts[n].kinds, i - |before|);
    }
  }

  lemma {:induction false} EndIsLast(ts: Timeslot, sts: seq<Stream>, i: nat, j: nat)
    requires i < j < |AllSigs(ts, sts)| && AllSigs(ts, sts)[i].flags == TermFlags(ts)
    requires Distinct(Ids(sts))
    requires forall k :: 0 <= k < |sts| ==> forall m :: 0 <= m < |sts[k].kinds| - 1 ==> !sts[k].kinds[m].End?
    ensures AllSigs(ts, sts)[i].stream != AllSigs(ts, sts)[j].stream
  {
    hide StreamSigs;
    var n := |sts| - 1;
    var init, l := sts[..n], sts[n];
    var before := AllSigs(ts, init);
    assert forall k :: 0 <= k < n ==> Ids(init)[k] == Ids(sts)[k] == sts[k].id;
    if j < |before| {
      EndIsLast(ts, init, i, j);
    } else {
      SigsOfStream(ts, l.id, l.late, l.kinds, j - |before|);
      if i < |before| {
        var k := StreamOf(ts, init, i);
        assert Ids(sts)[k] != Ids(sts)[n];
      } else {
        SigsOfStream(ts, l.id, l.late, l.kinds, i - |before|);
      }
    }
  }

  /** Main result: nothing follows a terminator under its stream id. */
  lemma TerminatorEndsItsStream(c: Config, evs: seq<Event>, ts: Timeslot, i: nat, j: nat)
    requires DistinctNonces(evs) && i < j < |Run(c, evs).At(ts).hist.frames|
    requires Run(c, evs).At(ts).hist.frames[i].flags == TermFlags(ts)
    ensures var f := Run(c, evs).At(ts).hist.frames; f[j].stream != f[i].stream
  {
    hide Run, AllSigs;
    StreamsAreDistinct(c, evs, ts);
    var s := Run(c, evs).At(ts);
    var ids :| SlotFramed(c, ts, s, ids) && Distinct(ids);
    var sts :| Framed(c, ts, s.out, s.hist.frames, sts) && Ids(sts) == ids;
    assert Sigs(s.hist.frames)[i] == AllSigs(ts, sts)[i] && Sigs(s.hist.frames)[j] == AllSigs(ts, sts)[j];
    EndIsLast(ts, sts, i, j);
  }

  // ------------------------------------------------------------------
  // Numbering across the slots, and sizes
  // ------------------------------------------------------------------

  /** The frames of one slot among all DMRDs sent. */
  function OfSlot(d: seq<Tagged>, ts: Timeslot): seq<Dmrd> {
    if d == [] then []
    else OfSlot(d[..|d| - 1], ts) + if d[|d| - 1].ts == ts then [d[|d| - 1].dmrd] else []
  }

  ghost predicate Numbered(sh: Shared) {
    && sh.outSeq == |sh.dmrds| % 256
    && (forall i :: 0 <= i < |sh.dmrds| ==> sh.dmrds[i].dmrd.seqNo == i % 256)
  }

  lemma OfSlotAppend(d: seq<Tagged>, x: Tagged, ts: Timeslot)
    ensures OfSlot(d + [x], ts) == OfSlot(d, ts) + if x.ts == ts then [x.dmrd] else []
  {
    assert (d + [x])[..|d|] == d;
  }

  /** A slot's history lists its own share of the DMRDs; the other slot's share is untouched. */
  ghost predicate SentBy(ts: Timeslot, r: Res, r': Res) {
    && (Numbered(r.sh) ==> Numbered(r'.sh))
    && OfSlot(r'.sh.dmrds, Other(ts)) == OfSlot(r.sh.dmrds, Other(ts))
    && (r.s.hist.frames == OfSlot(r.sh.dmrds, ts) ==> r'.s.hist.frames == OfSlot(r'.sh.dmrds, ts))
  }

  lemma SendNumbered(c: Config, ts: Timeslot, r: Res, flags: byte, src: Bytes, dst: Bytes, payload: Bytes)
    requires r.s.out.stream.Some?
    ensures SentBy(ts, r, SendDmrd(c, ts, r, flags, src, dst, payload))
  {
    var d := Dmrd(r.sh.outSeq, src, dst, c.repeaterId, flags, r.s.out.stream.value, payload);
    OfSlotAppend(r.sh.dmrds, Tagged(ts, d), ts);
    OfSlotAppend(r.sh.dmrds, Tagged(ts, d), Other(ts));
    assert (|r.sh.dmrds| % 256 + 1) % 256 == (|r.sh.dmrds| + 1) % 256;
  }

  lemma ForwardNumbered(c: Config, ts: Timeslot, r: Res, data: Bytes, burst: byte, now: Time, nonce: Bytes)
    ensures SentBy(ts, r, IpscForward(c, ts, r, data, burst, now, nonce))
  {
    hide SendDmrd, Assemble, EmbedField, HeadPayload, TermPayload, Numbered, OfSlot;
    var src, dst := Slice(data, 6, 9), Slice(data, 9, 12);
    var o, lc := r.s.out, c.dmr.lcOpt + dst + src;
    if burst == VOICE_HEAD {
      var q := r.(s := r.s.(out := o.(stream := if o.stream.Some? then o.stream else Some(nonce), framePos := 0,
                                      lc := Some(lc), embLc := Some(c.dmr.encodeEmbLc(lc)))));
      SendNumbered(c, ts, q, HeadFlags(ts), src, dst, HeadPayload(c.dmr, lc));
      var q1 := SendDmrd(c, ts, q, HeadFlags(ts), src, dst, HeadPayload(c.dmr, lc));
      SendKeepsOut(c, ts, q, HeadFlags(ts), src, dst, HeadPayload(c.dmr, lc));
      SendNumbered(c, ts, q1, HeadFlags(ts), src, dst, HeadPayload(c.dmr, lc));
    } else if burst == VOICE_TERM {
      if o.stream.Some? {
        SendNumbered(c, ts, r, TermFlags(ts), src, dst, TermPayload(c.dmr, OrElse(o.lc, lc)));
      }
    } else {
      var g := LateEntry(c, r.s, data, src, dst, nonce);
      if g.pass && |data| >= 52 {
        var o := g.s.out;
        var pos := o.framePos % 6;
        SendNumbered(c, ts, r.(s := g.s.(out := o.(framePos := o.framePos + 1))), VoiceFlags(ts, pos), src, dst,
                     Assemble(c.dmr, data[33..52], EmbedField(c.dmr, pos, o.embLc)));
      }
    }
  }

  lemma SendKeepsOut(c: Config, ts: Timeslot, r: Res, flags: byte, src: Bytes, dst: Bytes, payload: Bytes)
    requires r.s.out.stream.Some?
    ensures SendDmrd(c, ts, r, flags, src, dst, payload).s.out == r.s.out
  {
  }

  lemma StepNumbered(c: Config, ts: Timeslot, r: Res, e: Event)
    ensures SentBy(ts, r, SlotStep(c, ts, r, e))
  {
    hide HbpGate, HbpForward, IpscGate, IpscForward, Drain, Numbered, OfSlot;
    match e
    case IpscPacket(_, data, burst, _, now, nonce) =>
      IpscGateFrame(c, r.s, data, burst, now);
      var q := Res(Learn(r.sh, data), IpscGate(c, r.s, data, burst, now).s);
      LearnNumbered(r.sh, data);
      ForwardNumbered(c, ts, q, data, burst, now, nonce);
    case HbpPacket(dmrd, up, now, seq0, ts0) =>
      if |dmrd| >= DMRD_LEN {
        var b := ParseDmrd(dmrd);
        HbpGateFrame(c, r.s, b, now);
        var q := r.(s := HbpGate(c, r.s, b, now).s);
        HbpForwardFrame(c, ts, q, b, now, seq0, ts0);
        NumberedBy(r.sh, HbpForward(c, ts, q, b, now, seq0, ts0).sh);
      }
    case DrainFires(_, now, later) => DrainFrame(c, r.s, now, later);
    case _ =>
  }

  lemma LearnNumbered(sh: Shared, data: Bytes)
    ensures Numbered(sh) ==> Numbered(Learn(sh, data))
    ensures Learn(sh, data).dmrds == sh.dmrds
  {
  }

  lemma NumberedBy(sh: Shared, sh': Shared)
    requires sh'.outSeq == sh.outSeq && sh'.dmrds == sh.dmrds
    ensures Numbered(sh) ==> Numbered(sh')
  {
  }

  /** Main result: the i-th DMRD ever sent carries i mod 256, and each slot's frames are its share of them. */
  lemma {:induction false} NumberedAlways(c: Config, evs: seq<Event>)
    ensures var st := Run(c, evs);
      && Numbered(st.sh)
      && st.one.hist.frames == OfSlot(st.sh.dmrds, TS1)
      && st.two.hist.frames == OfSlot(st.sh.dmrds, TS2)
  {
    hide SlotStep, Numbered;
    if evs == [] {
      NumberedInitially();
    } else {
      var st, e := Run(c, evs[..|evs| - 1]), evs[|evs| - 1];
      NumberedAlways(c, evs[..|evs| - 1]);
      var r1 := SlotStep(c, TS1, Res(st.sh, st.one), e);
      StepNumbered(c, TS1, Res(st.sh, st.one), e);
      StepNumbered(c, TS2, Res(r1.sh, st.two), e);
      var r2 := SlotStep(c, TS2, Res(r1.sh, st.two), e);
      NumberedBy(r2.sh, Step(c, st, e).sh);
    }
  }

  lemma NumberedInitially()
    ensures Numbered(INITIAL_SHARED)
  {
  }
}
