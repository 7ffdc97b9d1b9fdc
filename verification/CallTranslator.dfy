/**
 The translator object: per-timeslot fields updated in place, as translate/translator.py
 has them.  Every handler is proved to take the object's state exactly one Step of CallModel.
 */
module CallTranslator {
  import opened Prelude
  import opened Wire
  import opened AmbeCodec
  import opened Packets
  import opened CallModel

  /** What the translator asks of the HBP client in TRACKING mode. */
  datatype HbpCommand = Activate | Deactivate

  lemma RenewSkips(entries: seq<Recent>, idx: nat, src: Bytes, dst: Bytes, expires: Time)
    requires idx < |entries| && !(entries[idx].src == src && entries[idx].dst == dst)
    ensures entries[..idx] + Renew(entries[idx..], src, dst, expires)
         == entries[..idx + 1] + Renew(entries[idx + 1..], src, dst, expires)
  {
    assert entries[idx..][1..] == entries[idx + 1..];
    assert entries[..idx] + [entries[idx]] == entries[..idx + 1];
  }

  /** Renew the entry of this source and group, or append one. */
  method RenewEntry(entries: seq<Recent>, src: Bytes, dst: Bytes, expires: Time) returns (updated: seq<Recent>)
    ensures updated == Renew(entries, src, dst, expires)
  {
    var idx := 0;
    while idx < |entries| && !(entries[idx].src == src && entries[idx].dst == dst)
      invariant 0 <= idx <= |entries|
      invariant Renew(entries, src, dst, expires) == entries[..idx] + Renew(entries[idx..], src, dst, expires)
    {
      RenewSkips(entries, idx, src, dst, expires);
      idx := idx + 1;
    }
    if idx < |entries| {
      assert entries[idx..][1..] == entries[idx + 1..];
      updated := entries[idx := Recent(src, dst, expires)];
    } else {
      updated := entries + [Recent(src, dst, expires)];
    }
  }

  method FindRecent(recent: seq<Recent>, src: Bytes, dst: Bytes) returns (seen: bool)
    ensures seen == SeenRecently(recent, src, dst)
  {
    for idx := 0 to |recent|
      invariant forall j :: 0 <= j < idx ==> !(recent[j].src == src && recent[j].dst == dst)
    {
      if recent[idx].src == src && recent[idx].dst == dst {
        return true;
      }
    }
    return false;
  }

  method JudgeEcho(r: Reflect, b: byte, burst: byte, started: bool, src: Bytes, dst: Bytes, expires: Time)
    returns (drop: bool, r': Reflect)
    ensures (drop, r') == EchoVerdict(r, b, burst, started, src, dst, expires)
  {
    drop, r' := false, r;
    if b in r.ignored {
      drop := true;
      r' := r.(ignored := if burst == VOICE_TERM then r.ignored - {b} else r.ignored[b := expires]);
    } else if burst == VOICE_HEAD && started {
      drop := FindRecent(r.recent, src, dst);
      if drop {
        r' := r.(ignored := r.ignored[b := expires]);
      }
    }
  }

  class Translator {
    const c: Config

    // Per-timeslot state
    var out: PerSlot<Outbound>
    var inb: PerSlot<Inbound>
    var lock: PerSlot<Lock>
    var pacer: PerSlot<Pacer>
    var reflect: PerSlot<Reflect>
    var busyLast: PerSlot<Time>

    // State the slots share
    var outSeq: byte
    var streamCtr: byte
    var callType: Bytes
    var callCtrl: Bytes

    // What has been handed to the two stacks
    var commands: seq<HbpCommand>
    ghost var hist: PerSlot<History>
    ghost var dmrds: seq<Tagged>
    ghost var starts: seq<Start>

    ghost function SlotView(ts: Timeslot): Slot
      reads this
    {
      Slot(out.Get(ts), inb.Get(ts), lock.Get(ts), pacer.Get(ts), reflect.Get(ts), busyLast.Get(ts), hist.Get(ts))
    }

    ghost function SharedView(): Shared
      reads this
    {
      Shared(outSeq, streamCtr, callType, callCtrl, dmrds, starts)
    }

    ghost function View(): State
      reads this
    {
      State(SlotView(TS1), SlotView(TS2), SharedView())
    }

    /** Only slot ts and, if shared, the shared state may have changed. */
    twostate predicate Only(ts: Timeslot, shared: bool)
      reads this
    {
      && SlotView(Other(ts)) == old(SlotView(Other(ts)))
      && (shared || SharedView() == old(SharedView()))
      && commands == old(commands)
    }

    constructor (c: Config)
      ensures this.c == c && View() == INITIAL && commands == []
    {
      this.c := c;
      out := Both(Outbound(None, 0, None, None, None, 0));
      inb := Both(Inbound(None, None, 0, None, None, None, 0, 0, 0, false, 0));
      lock := Both(IDLE_LOCK);
      pacer := Both(Pacer([], None, 0));
      reflect := Both(Reflect([], map[]));
      busyLast := Both(0);
      outSeq, streamCtr, callType, callCtrl := 0, 0, DEFAULT_CALL_TYPE, DEFAULT_CALL_CTRL;
      hist, dmrds, starts, commands := Both(History([], [], [], 0)), [], [], [];
    }

    // ------------------------------------------------------------------
    // Call-direction lock
    // ------------------------------------------------------------------

    method CallLockIsActive(ts: Timeslot, now: Time) returns (active: bool)
      ensures active == LockActive(SlotView(ts), now)
    {
      var owner := lock.Get(ts).owner;
      if owner.None? {
        return false;
      }
      if owner == Some(FromIpsc) && out.Get(ts).stream.Some? {
        return true;
      }
      if owner == Some(FromHbp) && (inb.Get(ts).lc.Some? || inb.Get(ts).started || pacer.Get(ts).queue != []) {
        return true;
      }
      return now <= lock.Get(ts).until;
    }

    method ClearCallLock(ts: Timeslot)
      modifies this
      ensures SlotView(ts) == old(SlotView(ts).(lock := ClearLock(SlotView(ts).lock)))
      ensures Only(ts, false)
    {
      lock := lock.Set(ts, lock.Get(ts).(owner := None, src := None, tg := None, until := 0));
    }

    method AcquireCallLock(ts: Timeslot, dir: Direction, src: Bytes, dst: Bytes)
      modifies this
      ensures SlotView(ts) == old(SlotView(ts).(lock := AcquireLock(SlotView(ts).lock, dir, src, dst)))
      ensures Only(ts, false)
    {
      lock := lock.Set(ts, lock.Get(ts).(owner := Some(dir), src := Some(src), tg := Some(dst), until := 0));
    }

    method ReleaseCallLock(ts: Timeslot, dir: Direction, now: Time)
      modifies this
      ensures SlotView(ts) == ReleaseLock(c, old(SlotView(ts)), dir, now)
      ensures Only(ts, false)
    {
      if !c.callLock {
        return;
      }
      if lock.Get(ts).owner != Some(dir) {
        return;
      }
      lock := lock.Set(ts, lock.Get(ts).(until := now + c.Hang()));
    }

    method PruneCallLockBlocks(ts: Timeslot, now: Time)
      modifies this
      ensures SlotView(ts) == old(SlotView(ts).(lock := Prune(SlotView(ts).lock, now)))
      ensures Only(ts, false)
    {
      var l := lock.Get(ts);
      lock := lock.Set(ts, l.(blockedIpsc := Live(l.blockedIpsc, now), blockedHbp := Live(l.blockedHbp, now)));
    }

    /** Remember a stream until the given time. */
    method BlockStream(ts: Timeslot, key: StreamKey, expires: Time)
      modifies this
      ensures SlotView(ts) == old(SlotView(ts).(lock := Remember(SlotView(ts).lock, key, expires)))
      ensures Only(ts, false)
    {
      var l := lock.Get(ts);
      match key
      case NoKey =>
      case IpscKey(b) => lock := lock.Set(ts, l.(blockedIpsc := l.blockedIpsc[b := expires]));
      case HbpKey(id) => lock := lock.Set(ts, l.(blockedHbp := l.blockedHbp[id := expires]));
    }

    method UnblockStream(ts: Timeslot, key: StreamKey)
      modifies this
      ensures SlotView(ts) == old(SlotView(ts).(lock := Forget(SlotView(ts).lock, key)))
      ensures Only(ts, false)
    {
      var l := lock.Get(ts);
      match key
      case NoKey =>
      case IpscKey(b) => lock := lock.Set(ts, l.(blockedIpsc := l.blockedIpsc - {b}));
      case HbpKey(id) => lock := lock.Set(ts, l.(blockedHbp := l.blockedHbp - {id}));
    }

    method CallLockBlocks(ts: Timeslot, dir: Direction, src: Bytes, dst: Bytes, key: StreamKey, isEnd: bool, now: Time)
      returns (blocked: bool)
      modifies this
      ensures Gate(!blocked, SlotView(ts)) == LockGate(c, old(SlotView(ts)), dir, key, src, dst, isEnd, now)
      ensures Only(ts, false)
    {
      hide Prune, Remember, Forget, Arbitrate;
      if !c.callLock {
        return false;
      }
      PruneCallLockBlocks(ts, now);
      var remembered := match key
        case NoKey => false
        case IpscKey(b) => b in lock.Get(ts).blockedIpsc
        case HbpKey(id) => id in lock.Get(ts).blockedHbp;
      if !remembered {
        blocked := OwnerBlocks(ts, dir, src, dst, key, now);
      } else {
        if isEnd {
          UnblockStream(ts, key);
        } else {
          BlockStream(ts, key, now + c.BlockFor());
        }
        blocked := true;
      }
    }

    method OwnerBlocks(ts: Timeslot, dir: Direction, src: Bytes, dst: Bytes, key: StreamKey, now: Time)
      returns (blocked: bool)
      modifies this
      ensures Gate(!blocked, SlotView(ts)) == Arbitrate(c, old(SlotView(ts)), dir, key, src, dst, now)
      ensures Only(ts, false)
    {
      hide Remember, LockActive;
      blocked := false;
      var owner := lock.Get(ts).owner;
      var active := CallLockIsActive(ts, now);
      if owner.Some? && !active {
        ClearCallLock(ts);
        owner := None;
      }
      if owner.None? {
        AcquireCallLock(ts, dir, src, dst);
      } else if owner != Some(dir) && !(c.lockSameTgOnly && lock.Get(ts).tg != Some(dst)) {
        BlockStream(ts, key, now + c.BlockFor());
        blocked := true;
      }
    }

    // ------------------------------------------------------------------
    // Reflection memory
    // ------------------------------------------------------------------

    method RememberHbpToIpsc(ts: Timeslot, src: Bytes, dst: Bytes, now: Time)
      modifies this
      ensures SlotView(ts) == old(SlotView(ts).(reflect := RememberSent(c, SlotView(ts).reflect, src, dst, now)))
      ensures Only(ts, false)
    {
      if !c.reflectSuppression || c.reflectWindow <= 0 {
        return;
      }
      var expires := now + c.reflectWindow * SECOND;
      var entries := LiveRecent(reflect.Get(ts).recent, now);
      entries := RenewEntry(entries, src, dst, expires);
      reflect := reflect.Set(ts, reflect.Get(ts).(recent := entries));
    }

    method SuppressIpscReflection(ts: Timeslot, key: StreamKey, burst: byte, src: Bytes, dst: Bytes, now: Time)
      returns (drop: bool)
      modifies this
      ensures Gate(!drop, SlotView(ts)) == ReflectGate(c, old(SlotView(ts)), key, burst, src, dst, now)
      ensures Only(ts, false)
    {
      hide LiveRecent, Live, EchoVerdict;
      if !c.reflectSuppression || !c.peerMode || !key.IpscKey? {
        return false;
      }
      var window := Max(1, c.reflectWindow) * SECOND;
      var r := Reflect(LiveRecent(reflect.Get(ts).recent, now), Live(reflect.Get(ts).ignored, now));
      drop, r := JudgeEcho(r, key.b, burst, inb.Get(ts).started, src, dst, now + window);
      reflect := reflect.Set(ts, r);
    }

    // ------------------------------------------------------------------
    // Pacer
    // ------------------------------------------------------------------

    method HbpQueueDrained(ts: Timeslot, now: Time)
      modifies this
      ensures SlotView(ts) == QueueDrained(c, old(SlotView(ts)), now)
      ensures Only(ts, false)
    {
      if lock.Get(ts).owner == Some(FromHbp) && inb.Get(ts).lc.None? {
        lock := lock.Set(ts, lock.Get(ts).(until := now + c.Hang()));
      }
    }

    method ScheduleDrain(ts: Timeslot, now: Time)
      modifies this
      ensures SlotView(ts) == Schedule(c, old(SlotView(ts)), now)
      ensures Only(ts, false)
    {
      if pacer.Get(ts).handle.Some? {
        return;
      }
      if pacer.Get(ts).queue == [] {
        HbpQueueDrained(ts, now);
        return;
      }
      var delay := Max(0, pacer.Get(ts).nextAt - now);
      if delay <= 1000 {
        pacer := pacer.Set(ts, pacer.Get(ts).(handle := Some(now)));
      } else {
        pacer := pacer.Set(ts, pacer.Get(ts).(handle := Some(now + delay)));
      }
    }

    method SendNowOrDrop(ts: Timeslot, packet: Gv, now: Time)
      modifies this
      ensures SlotView(ts) == SendNow(c, old(SlotView(ts)), packet, now)
      ensures Only(ts, false)
    {
      var holdoff := Max(0, c.busyHoldoffMs) * 1000;
      if c.busyGuard && holdoff > 0 && now - busyLast.Get(ts) < holdoff {
        hist := hist.Set(ts, Depart(hist.Get(ts), packet, Busy(now)));
      } else {
        hide RememberSent;
        hist := hist.Set(ts, Depart(hist.Get(ts), packet, Sent(now)));
        RememberHbpToIpsc(ts, packet.src, packet.dst, now);
      }
    }

    method SendHbpToIpsc(ts: Timeslot, packet: Gv, now: Time)
      modifies this
      ensures SlotView(ts) == Submit(c, old(SlotView(ts)), packet, now)
      ensures Only(ts, false)
    {
      ghost var h := hist.Get(ts);
      if !c.pacing {
        hist := hist.Set(ts, h.(offers := h.offers + [Offer(packet, true)]));
        SendNowOrDrop(ts, packet, now);
        return;
      }
      if |pacer.Get(ts).queue| >= c.Limit() {
        hist := hist.Set(ts, h.(offers := h.offers + [Offer(packet, false)]));
        return;
      }
      pacer := pacer.Set(ts, pacer.Get(ts).(queue := pacer.Get(ts).queue + [packet]));
      hist := hist.Set(ts, h.(offers := h.offers + [Offer(packet, true)]));
      if pacer.Get(ts).handle.None? {
        ScheduleDrain(ts, now);
      }
    }

    /** The scheduled drain runs at now; later is the clock once the packet has gone out. */
    method DrainQueue(ts: Timeslot, now: Time, later: Time)
      modifies this
      ensures SlotView(ts) == Drain(c, old(SlotView(ts)), now, later)
      ensures Only(ts, false)
      ensures old(pacer.Get(ts).handle).Some? ==> View() == Step(c, old(View()), DrainFires(ts, now, later))
    {
      LocalStep(c, View(), ts, DrainFires(ts, now, later));
      pacer := pacer.Set(ts, pacer.Get(ts).(handle := None));
      var q := pacer.Get(ts).queue;
      if q == [] {
        HbpQueueDrained(ts, now);
        return;
      }
      pacer := pacer.Set(ts, pacer.Get(ts).(queue := q[1..]));
      SendNowOrDrop(ts, q[0], now);
      pacer := pacer.Set(ts, pacer.Get(ts).(nextAt := later + c.Interval()));
      if pacer.Get(ts).queue != [] {
        ScheduleDrain(ts, later);
      } else {
        HbpQueueDrained(ts, later);
      }
    }

    method ClearTxQueues()
      modifies this
      ensures forall ts :: SlotView(ts) == ClearQueue(old(SlotView(ts)))
      ensures SharedView() == old(SharedView()) && commands == old(commands)
    {
      var slots := [TS1, TS2];
      for i := 0 to 2
        invariant forall j :: 0 <= j < i ==> SlotView(slots[j]) == ClearQueue(old(SlotView(slots[j])))
        invariant forall j :: i <= j < 2 ==> SlotView(slots[j]) == old(SlotView(slots[j]))
        invariant SharedView() == old(SharedView()) && commands == old(commands)
      {
        var ts := slots[i];
        ghost var h := hist.Get(ts);
        hist := hist.Set(ts, h.(departures := h.departures + ClearedDepartures(pacer.Get(ts).queue, h.epoch),
                                epoch := h.epoch + 1));
        pacer := pacer.Set(ts, Pacer([], None, 0));
      }
      forall ts ensures SlotView(ts) == ClearQueue(old(SlotView(ts))) {
        assert ts == slots[0] || ts == slots[1];
      }
    }

    // ------------------------------------------------------------------
    // IPSC -> HBP
    // ------------------------------------------------------------------

    method LegacyIpscStreamDrop(ts: Timeslot, key: StreamKey, burst: byte, now: Time) returns (drop: bool)
      modifies this
      ensures Gate(!drop, SlotView(ts)) == LegacyGate(c, old(SlotView(ts)), key, burst, now)
      ensures Only(ts, false)
    {
      drop := false;
      if c.legacy && key.IpscKey? {
        var current := out.Get(ts).ipscByte;
        var active := out.Get(ts).stream.Some?;
        if burst == VOICE_HEAD {
          if current.Some? && active && current.value != key.b {
            out := out.Set(ts, out.Get(ts).(stream := None, lc := None, embLc := None));
            ReleaseCallLock(ts, FromIpsc, now);
          }
          out := out.Set(ts, out.Get(ts).(ipscByte := Some(key.b)));
        } else {
          drop := current.None? && !active;
        }
      }
    }

    method PassIpscGates(ts: Timeslot, data: Bytes, burst: byte, now: Time) returns (pass: bool)
      modifies this
      ensures Gate(pass, SlotView(ts)) == IpscGate(c, old(SlotView(ts)), data, burst, now)
      ensures Only(ts, false)
    {
      hide LegacyGate, LockGate, ReflectGate;
      out := out.Set(ts, out.Get(ts).(lastPkt := now));
      var src, dst, key := Slice(data, 6, 9), Slice(data, 9, 12), IpscKeyOf(data);
      var drop := LegacyIpscStreamDrop(ts, key, burst, now);
      if drop {
        return false;
      }
      drop := CallLockBlocks(ts, FromIpsc, src, dst, key, burst == VOICE_TERM, now);
      if drop {
        return false;
      }
      drop := SuppressIpscReflection(ts, key, burst, src, dst, now);
      if drop {
        return false;
      }
      busyLast := busyLast.Set(ts, now);
      return true;
    }

    /** Build one DMRD of the open stream and hand it to the HBP client. */
    method HandDmrd(ts: Timeslot, flags: byte, src: Bytes, dst: Bytes, payload: Bytes)
      requires SlotView(ts).out.stream.Some?
      modifies this
      ensures Res(SharedView(), SlotView(ts)) == SendDmrd(c, ts, old(Res(SharedView(), SlotView(ts))), flags, src, dst,
        payload)
      ensures Only(ts, true)
    {
      var dmrd := Dmrd(outSeq, src, dst, c.repeaterId, flags, out.Get(ts).stream.value, payload);
      outSeq := (outSeq + 1) % 256;
      dmrds := dmrds + [Tagged(ts, dmrd)];
      hist := hist.Set(ts, hist.Get(ts).(frames := hist.Get(ts).frames + [dmrd]));
    }

    method ForwardHead(ts: Timeslot, src: Bytes, dst: Bytes, nonce: Bytes)
      modifies this
      ensures Res(SharedView(), SlotView(ts)) == IpscHead(c, ts, old(Res(SharedView(), SlotView(ts))), src, dst, nonce)
      ensures Only(ts, true)
    {
      hide SendDmrd, HeadPayload;
      var o := out.Get(ts);
      if o.stream.Some? && c.legacy {
        return;
      }
      if o.stream.None? {
        o := o.(stream := Some(nonce));
      }
      var lc := c.dmr.lcOpt + dst + src;
      out := out.Set(ts, o.(framePos := 0, lc := Some(lc), embLc := Some(c.dmr.encodeEmbLc(lc))));
      var payload := HeadPayload(c.dmr, lc);
      SendKeepsStream(c, ts, Res(SharedView(), SlotView(ts)), HeadFlags(ts), src, dst, payload);
      HandDmrd(ts, HeadFlags(ts), src, dst, payload);
      if c.legacy {
        HandDmrd(ts, HeadFlags(ts), src, dst, payload);
      }
    }

    method ForwardTerm(ts: Timeslot, src: Bytes, dst: Bytes, now: Time)
      modifies this
      ensures Res(SharedView(), SlotView(ts)) == IpscTerm(c, ts, old(Res(SharedView(), SlotView(ts))), src, dst, now)
      ensures Only(ts, true)
    {
      hide SendDmrd, TermPayload;
      if out.Get(ts).stream.None? {
        return;
      }
      var lc := OrElse(out.Get(ts).lc, c.dmr.lcOpt + dst + src);
      HandDmrd(ts, TermFlags(ts), src, dst, TermPayload(c.dmr, lc));
      out := out.Set(ts, out.Get(ts).(stream := None, lc := None, embLc := None, ipscByte := None));
      ReleaseCallLock(ts, FromIpsc, now);
    }

    method ForwardVoice(ts: Timeslot, data: Bytes, src: Bytes, dst: Bytes, nonce: Bytes)
      modifies this
      ensures Res(SharedView(), SlotView(ts))
           == IpscVoiceBurst(c, ts, old(Res(SharedView(), SlotView(ts))), data, src, dst, nonce)
      ensures Only(ts, true)
    {
      hide SendDmrd, Assemble, EmbedField;
      if out.Get(ts).stream.None? {
        if c.legacy || |data| <= 32 || data[32] != 0x16 {
          return;
        }
        var lc := c.dmr.lcOpt + dst + src;
        out := out.Set(ts, out.Get(ts).(stream := Some(nonce), framePos := 4, lc := Some(lc),
                                        embLc := Some(c.dmr.encodeEmbLc(lc))));
      }
      if |data| < 52 {
        return;
      }
      var o := out.Get(ts);
      var pos := o.framePos % 6;
      var payload := Assemble(c.dmr, data[33..52], EmbedField(c.dmr, pos, o.embLc));
      out := out.Set(ts, o.(framePos := o.framePos + 1));
      HandDmrd(ts, VoiceFlags(ts, pos), src, dst, payload);
    }

    method IpscVoiceReceived(data: Bytes, ts: Timeslot, burst: byte, up: bool, now: Time, nonce: Bytes)
      modifies this
      ensures View() == Step(c, old(View()), IpscPacket(ts, data, burst, up, now, nonce))
      ensures commands == old(commands)
    {
      hide IpscGate, IpscHead, IpscTerm, IpscVoiceBurst, Step;
      LocalStep(c, View(), ts, IpscPacket(ts, data, burst, up, now, nonce));
      if !up {
        return;
      }
      var pass := PassIpscGates(ts, data, burst, now);
      if !pass {
        return;
      }
      if |data| >= 17 {
        callType := data[12..13];
        callCtrl := data[13..17];
      }
      var src, dst := Slice(data, 6, 9), Slice(data, 9, 12);
      if burst == VOICE_HEAD {
        ForwardHead(ts, src, dst, nonce);
      } else if burst == VOICE_TERM {
        ForwardTerm(ts, src, dst, now);
      } else {
        ForwardVoice(ts, data, src, dst, nonce);
      }
    }

    // ------------------------------------------------------------------
    // HBP -> IPSC
    // ------------------------------------------------------------------

    method ResetHbpToIpsc(ts: Timeslot)
      modifies this
      ensures SlotView(ts) == ResetInbound(old(SlotView(ts)))
      ensures Only(ts, false)
    {
      inb := inb.Set(ts, inb.Get(ts).(lc := None, embLc := None, hbpStream := None, src := None, dst := None,
                                      lastHead := 0, started := false));
    }

    method PassHbpGates(ts: Timeslot, b: Burst, now: Time) returns (pass: bool)
      modifies this
      ensures Gate(pass, SlotView(ts)) == HbpGate(c, old(SlotView(ts)), b, now)
      ensures Only(ts, false)
    {
      hide LockGate;
      inb := inb.Set(ts, inb.Get(ts).(lastPkt := now));
      var blocked := CallLockBlocks(ts, FromHbp, b.src, b.dst, HbpKey(b.stream), IsTerm(b.flags), now);
      if blocked {
        return false;
      }
      var i := inb.Get(ts);
      var active := i.lc.Some? || i.started || pacer.Get(ts).queue != [];
      if c.legacy && i.hbpStream.Some? && active && i.hbpStream.value != b.stream && IsTerm(b.flags) {
        return false;
      }
      return true;
    }

    /** Number a packet of the current call and hand it on. */
    method MakeAndSend(ts: Timeslot, src: Bytes, dst: Bytes, callInfo: byte, pt: byte, payload: Bytes, now: Time)
      modifies this
      ensures SlotView(ts) == Emit(c, SharedView(), old(SlotView(ts)), src, dst, callInfo, pt, payload, now)
      ensures Only(ts, false)
    {
      hide Submit;
      var i := inb.Get(ts);
      var packet := Gv(c.sourceId, i.streamByte, src, dst, callType, callCtrl, callInfo, pt,
                       i.rtpSeq % 0x1_0000, i.rtpTs % 0x1_0000_0000, payload);
      inb := inb.Set(ts, i.(rtpSeq := (i.rtpSeq + 1) % 0x1_0000, rtpTs := (i.rtpTs + 480) % 0x1_0000_0000));
      SendHbpToIpsc(ts, packet, now);
    }

    method EmitIpscStart(ts: Timeslot, src: Bytes, dst: Bytes, now: Time)
      modifies this
      ensures SlotView(ts) == EmitStart(c, ts, SharedView(), old(SlotView(ts)), src, dst, now)
      ensures Only(ts, false)
    {
      hide Emit;
      if inb.Get(ts).started {
        return;
      }
      var lc := OrElse(inb.Get(ts).lc, c.dmr.lcOpt + dst + src);
      for idx := 0 to c.Heads()
        invariant SlotView(ts) == EmitHeads(c, ts, SharedView(), old(SlotView(ts)), lc, src, dst, idx, now)
        invariant Only(ts, false)
      {
        var pt := if idx == 0 then PT_FIRST_HEAD else PT_VOICE;
        MakeAndSend(ts, src, dst, CallInfo(ts, false), pt, LcGvPayload(c.dmr, VOICE_HEAD, lc), now);
      }
      inb := inb.Set(ts, inb.Get(ts).(started := true));
    }

    method OpenCall(ts: Timeslot, lc: Bytes, b: Burst, now: Time, seq0: nat, ts0: nat)
      modifies this
      ensures Res(SharedView(), SlotView(ts))
           == OpenInbound(c, ts, old(Res(SharedView(), SlotView(ts))), lc, b, now, seq0, ts0)
      ensures Only(ts, true)
    {
      streamCtr := (streamCtr + 1) % 256;
      starts := starts + [Start(ts, streamCtr)];
      inb := inb.Set(ts, inb.Get(ts).(lc := Some(lc), embLc := Some(c.dmr.encodeEmbLc(lc)), streamByte := streamCtr,
                                      hbpStream := Some(b.stream), src := Some(b.src), dst := Some(b.dst),
                                      lastHead := now, rtpSeq := seq0, rtpTs := ts0, started := false));
    }

    method ReceiveHead(ts: Timeslot, b: Burst, now: Time, seq0: nat, ts0: nat)
      requires |b.payload| == 33
      modifies this
      ensures Res(SharedView(), SlotView(ts)) == HbpHead(c, ts, old(Res(SharedView(), SlotView(ts))), b, now, seq0, ts0)
      ensures Only(ts, true)
    {
      hide EmitStart, OpenInbound, ResetInbound, DecodeLc;
      var lc := DecodeLc(c.dmr, b.payload);
      var i := inb.Get(ts);
      if DuplicateHead(i, b, now) {
        inb := inb.Set(ts, i.(lc := Some(lc), embLc := Some(c.dmr.encodeEmbLc(lc)), lastHead := now));
      } else {
        if i.hbpStream.Some? && i.lc.Some? && i.started {
          ResetHbpToIpsc(ts);
        }
        OpenCall(ts, lc, b, now, seq0, ts0);
        if !c.startOnVoice {
          EmitIpscStart(ts, b.src, b.dst, now);
        }
      }
    }

    method ReceiveTerm(ts: Timeslot, b: Burst, now: Time)
      modifies this
      ensures Res(SharedView(), SlotView(ts)) == HbpTerm(c, ts, old(Res(SharedView(), SlotView(ts))), b, now)
      ensures Only(ts, true)
    {
      hide Emit, LcGvPayload, ReleaseLock, ResetInbound;
      if inb.Get(ts).started {
        var lc := OrElse(inb.Get(ts).lc, c.dmr.lcOpt + b.dst + b.src);
        MakeAndSend(ts, b.src, b.dst, CallInfo(ts, true), PT_TERM, LcGvPayload(c.dmr, VOICE_TERM, lc), now);
      }
      ReleaseCallLock(ts, FromHbp, now);
      ResetHbpToIpsc(ts);
    }

    method ReceiveVoice(ts: Timeslot, b: Burst, now: Time, seq0: nat, ts0: nat)
      requires |b.payload| == 33
      modifies this
      ensures Res(SharedView(), SlotView(ts))
           == HbpVoiceBurst(c, ts, old(Res(SharedView(), SlotView(ts))), b, now, seq0, ts0)
      ensures Only(ts, true)
    {
      hide Emit, EmitStart, OpenInbound, Extract, VoiceGvPayload;
      if inb.Get(ts).lc.None? {
        if c.legacy {
          return;
        }
        OpenCall(ts, c.dmr.lcOpt + b.dst + b.src, b, now, seq0, ts0);
      }
      EmitStartIdempotent(c, ts, SharedView(), SlotView(ts), b.src, b.dst, now);
      if !inb.Get(ts).started {
        EmitIpscStart(ts, b.src, b.dst, now);
      }
      var payload := VoiceGvPayload(c.dmr, ts, inb.Get(ts), b, Extract(c.dmr, b.payload));
      MakeAndSend(ts, b.src, b.dst, CallInfo(ts, false), PT_VOICE, payload, now);
    }

    method HbpVoiceReceived(dmrd: Bytes, up: bool, now: Time, seq0: nat, ts0: nat)
      modifies this
      ensures View() == Step(c, old(View()), HbpPacket(dmrd, up, now, seq0, ts0))
      ensures commands == old(commands)
    {
      hide HbpGate, HbpHead, HbpTerm, HbpVoiceBurst, Step;
      var ts := if |dmrd| >= DMRD_LEN then SlotOf(dmrd[15]) else TS1;
      LocalStep(c, View(), ts, HbpPacket(dmrd, up, now, seq0, ts0));
      if !up || |dmrd| < DMRD_LEN {
        return;
      }
      var b := ParseDmrd(dmrd);
      var pass := PassHbpGates(ts, b, now);
      if !pass {
        return;
      }
      if IsHead(b.flags) {
        ReceiveHead(ts, b, now, seq0, ts0);
      } else if IsTerm(b.flags) {
        ReceiveTerm(ts, b, now);
      } else {
        ReceiveVoice(ts, b, now, seq0, ts0);
      }
    }

    // ------------------------------------------------------------------
    // Timeouts, loss of either side
    // ------------------------------------------------------------------

    method TimeOutSlot(ts: Timeslot, now: Time)
      modifies this
      ensures SlotView(ts) == CheckTimeouts(c, old(SlotView(ts)), now)
      ensures Only(ts, false)
    {
      hide ReleaseLock, ResetInbound;
      ReleaseKeepsCalls(c, SlotView(ts), now);
      if out.Get(ts).stream.Some? && now - out.Get(ts).lastPkt > CALL_TIMEOUT {
        out := out.Set(ts, out.Get(ts).(stream := None, lc := None, embLc := None));
        ReleaseKeepsCalls(c, SlotView(ts), now);
        ReleaseCallLock(ts, FromIpsc, now);
      }
      if inb.Get(ts).lc.Some? && now - inb.Get(ts).lastPkt > CALL_TIMEOUT {
        ReleaseCallLock(ts, FromHbp, now);
        ResetHbpToIpsc(ts);
      }
    }

    method CheckCallTimeouts(now: Time)
      modifies this
      ensures View() == Step(c, old(View()), Watchdog(now))
      ensures commands == old(commands)
    {
      hide CheckTimeouts;
      TimeOutSlot(TS1, now);
      TimeOutSlot(TS2, now);
    }

    /** Drop both calls on both slots; the lock is left alone. */
    method DropCalls()
      modifies this
      ensures forall ts :: SlotView(ts) == CallModel.HbpDown(old(SlotView(ts)))
      ensures SharedView() == old(SharedView()) && commands == old(commands)
    {
      out := PerSlot(Silenced(out.one), Silenced(out.two));
      inb := PerSlot(Forgotten(inb.one), Forgotten(inb.two));
      reflect := Both(Reflect([], map[]));
      ClearTxQueues();
    }

    method HbpDisconnected(ghost now: Time)
      modifies this
      ensures View() == Step(c, old(View()), HbpLost(now))
      ensures commands == old(commands)
    {
      DropCalls();
    }

    method PeerRegistered()
      modifies this
      ensures View() == old(View())
      ensures commands == old(commands) + if c.tracking then [Activate] else []
    {
      if c.tracking {
        commands := commands + [Activate];
      }
    }

    method PeerLostNow(ghost now: Time)
      modifies this
      ensures View() == Step(c, old(View()), PeerLost(now))
      ensures commands == old(commands) + if c.tracking then [Deactivate] else []
    {
      DropCalls();
      lock := Both(IDLE_LOCK);
      callType, callCtrl := DEFAULT_CALL_TYPE, DEFAULT_CALL_CTRL;
      if c.tracking {
        commands := commands + [Deactivate];
      }
    }

    // ------------------------------------------------------------------
    // Any event
    // ------------------------------------------------------------------

    /** A drain that is not scheduled has been cancelled and does nothing. */
    method Handle(e: Event)
      modifies this
      ensures View() == Step(c, old(View()), e)
    {
      hide Step;
      match e
      case IpscPacket(ts, data, burst, up, now, nonce) => IpscVoiceReceived(data, ts, burst, up, now, nonce);
      case HbpPacket(dmrd, up, now, seq0, ts0) => HbpVoiceReceived(dmrd, up, now, seq0, ts0);
      case DrainFires(ts, now, later) =>
        if pacer.Get(ts).handle.Some? {
          DrainQueue(ts, now, later);
        } else {
          CancelledDrain(c, View(), ts, now, later);
        }
      case Watchdog(now) => CheckCallTimeouts(now);
      case PeerLost(now) => PeerLostNow(now);
      case HbpLost(now) => HbpDisconnected(now);
    }
  }

  lemma CancelledDrain(c: Config, st: State, ts: Timeslot, now: Time, later: Time)
    requires st.At(ts).pacer.handle.None?
    ensures Step(c, st, DrainFires(ts, now, later)) == st
  {
    LocalStep(c, st, ts, DrainFires(ts, now, later));
  }

  /** A translator put through any events is in the state of their run, so what is proved of runs holds of it. */
  method Perform(c: Config, evs: seq<Event>) returns (t: Translator)
    ensures fresh(t) && t.c == c && t.View() == Run(c, evs)
  {
    t := new Translator(c);
    for i := 0 to |evs|
      invariant fresh(t) && t.c == c && t.View() == Run(c, evs[..i])
    {
      hide Step;
      t.Handle(evs[i]);
      assert evs[..i + 1][..i] == evs[..i] && evs[..i + 1][i] == evs[i];
    }
    assert evs[..|evs|] == evs;
  }

  function Silenced(o: Outbound): Outbound {
    o.(stream := None, lc := None, embLc := None, ipscByte := None, lastPkt := 0)
  }

  function Forgotten(i: Inbound): Inbound {
    i.(lc := None, embLc := None, streamByte := 0, hbpStream := None, src := None, dst := None, lastHead := 0,
       lastPkt := 0, started := false)
  }

  lemma SendKeepsStream(c: Config, ts: Timeslot, r: Res, flags: byte, src: Bytes, dst: Bytes, payload: Bytes)
    requires r.s.out.stream.Some?
    ensures SendDmrd(c, ts, r, flags, src, dst, payload).s.out == r.s.out
  {
  }

  lemma EmitStartIdempotent(c: Config, ts: Timeslot, sh: Shared, s: Slot, src: Bytes, dst: Bytes, now: Time)
    ensures s.inb.started ==> EmitStart(c, ts, sh, s, src, dst, now) == s
  {
  }

  lemma ReleaseKeepsCalls(c: Config, s: Slot, now: Time)
    ensures var s' := ReleaseLock(c, s, FromIpsc, now); s'.out == s.out && s'.inb == s.inb
  {
  }

  /** An event of one slot is that slot's step; the other slot stays as it is. */
  lemma LocalStep(c: Config, st: State, ts: Timeslot, e: Event)
    requires match e
      case IpscPacket(ts', _, _, _, _, _) => ts' == ts
      case HbpPacket(dmrd, _, _, _, _) => |dmrd| >= DMRD_LEN ==> SlotOf(dmrd[15]) == ts
      case DrainFires(ts', _, _) => ts' == ts
      case _ => false
    ensures var r := SlotStep(c, ts, Res(st.sh, st.At(ts)), e);
      Step(c, st, e) == if ts.TS1? then State(r.s, st.two, r.sh) else State(st.one, r.s, r.sh)
  {
    hide IpscVoice, HbpVoice, Drain;
  }
}
