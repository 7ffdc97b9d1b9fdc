/**
 The translator's behaviour on values: what each event does to the state of one
 timeslot and to the state the two slots share.  The class in CallTranslator.dfy
 is proved to compute these functions; the other modules prove what they promise.
 */
module CallModel {
  import opened Prelude
  import opened Wire
  import opened AmbeCodec
  import opened Packets

  datatype Config = Config(
    dmr: Dmr,
    repeaterId: Bytes,
    sourceId: Bytes,
    legacy: bool,
    peerMode: bool,
    tracking: bool,
    callLock: bool,
    lockHangMs: int,
    lockSameTgOnly: bool,
    busyGuard: bool,
    busyHoldoffMs: int,
    reflectSuppression: bool,
    reflectWindow: int,
    pacing: bool,
    frameIntervalMs: int,
    queueLimit: int,
    startOnVoice: bool,
    headerRepeats: int)
  {
    function Hang(): Time {
      Max(0, lockHangMs) * 1000
    }

    /** How long a rejected stream is remembered after each of its packets. */
    function BlockFor(): Time {
      Max(500_000, lockHangMs * 1000 + SECOND)
    }

    function Interval(): Time {
      Max(10_000, frameIntervalMs * 1000)
    }

    function Limit(): int {
      Max(10, queueLimit)
    }

    function Heads(): nat {
      Max(1, Min(5, headerRepeats))
    }
  }

  // ------------------------------------------------------------------
  // State of one timeslot
  // ------------------------------------------------------------------

  /** IPSC -> HBP call. */
  datatype Outbound = Outbound(stream: Option<Bytes>, framePos: nat, lc: Option<Bytes>, embLc: Option<EmbLc>,
                               ipscByte: Option<byte>, lastPkt: Time)

  /** HBP -> IPSC call. */
  datatype Inbound = Inbound(lc: Option<Bytes>, embLc: Option<EmbLc>, streamByte: byte, hbpStream: Option<Bytes>,
                             src: Option<Bytes>, dst: Option<Bytes>, lastHead: Time, rtpSeq: nat, rtpTs: nat,
                             started: bool, lastPkt: Time)

  datatype Direction = FromIpsc | FromHbp

  datatype Lock = Lock(owner: Option<Direction>, src: Option<Bytes>, tg: Option<Bytes>, until: Time,
                       blockedIpsc: map<byte, Time>, blockedHbp: map<Bytes, Time>)

  /** The pacing queue; handle is the earliest time the scheduled drain may run. */
  datatype Pacer = Pacer(queue: seq<Gv>, handle: Option<Time>, nextAt: Time)

  datatype Recent = Recent(src: Bytes, dst: Bytes, expires: Time)

  datatype Reflect = Reflect(recent: seq<Recent>, ignored: map<byte, Time>)

  /** A generated packet and whether it was taken (or dropped on a full queue). */
  datatype Offer = Offer(packet: Gv, taken: bool)

  datatype Fate = Sent(at: Time) | Busy(at: Time) | Cleared

  /** How a taken packet left the translator; epoch counts the queue clears before it. */
  datatype Departure = Departure(packet: Gv, fate: Fate, epoch: nat)

  /** What the slot has put out so far, in order. */
  datatype History = History(frames: seq<Dmrd>, offers: seq<Offer>, departures: seq<Departure>, epoch: nat)

  datatype Slot = Slot(out: Outbound, inb: Inbound, lock: Lock, pacer: Pacer, reflect: Reflect,
                       busyLast: Time, hist: History)

  const IDLE_LOCK := Lock(None, None, None, 0, map[], map[])

  const IDLE_SLOT := Slot(
    Outbound(None, 0, None, None, None, 0),
    Inbound(None, None, 0, None, None, None, 0, 0, 0, false, 0),
    IDLE_LOCK,
    Pacer([], None, 0),
    Reflect([], map[]),
    0,
    History([], [], [], 0))

  // ------------------------------------------------------------------
  // State shared by the slots
  // ------------------------------------------------------------------

  datatype Tagged = Tagged(ts: Timeslot, dmrd: Dmrd)

  /** One HBP call start: its slot and the stream byte it was given. */
  datatype Start = Start(ts: Timeslot, streamByte: byte)

  datatype Shared = Shared(outSeq: byte, streamCtr: byte, callType: Bytes, callCtrl: Bytes,
                           dmrds: seq<Tagged>, starts: seq<Start>)

  const DEFAULT_CALL_TYPE: Bytes := [0x02]
  const DEFAULT_CALL_CTRL: Bytes := [0x00, 0x00, 0x43, 0xE2]

  const INITIAL_SHARED := Shared(0, 0, DEFAULT_CALL_TYPE, DEFAULT_CALL_CTRL, [], [])

  datatype Res = Res(sh: Shared, s: Slot)

  /** A slot after a gate, and whether the packet goes on. */
  datatype Gate = Gate(pass: bool, s: Slot)

  // ------------------------------------------------------------------
  // Call-direction lock
  // ------------------------------------------------------------------

  /** A stream as the lock remembers it: an IPSC stream byte or an HBP stream id. */
  datatype StreamKey = NoKey | IpscKey(b: byte) | HbpKey(id: Bytes)

  function Live<K>(m: map<K, Time>, now: Time): map<K, Time> {
    map k | k in m && m[k] > now :: m[k]
  }

  function Prune(l: Lock, now: Time): Lock {
    l.(blockedIpsc := Live(l.blockedIpsc, now), blockedHbp := Live(l.blockedHbp, now))
  }

  predicate Remembers(l: Lock, key: StreamKey) {
    match key
    case NoKey => false
    case IpscKey(b) => b in l.blockedIpsc
    case HbpKey(id) => id in l.blockedHbp
  }

  function Remember(l: Lock, key: StreamKey, expires: Time): Lock {
    match key
    case NoKey => l
    case IpscKey(b) => l.(blockedIpsc := l.blockedIpsc[b := expires])
    case HbpKey(id) => l.(blockedHbp := l.blockedHbp[id := expires])
  }

  function Forget(l: Lock, key: StreamKey): Lock {
    match key
    case NoKey => l
    case IpscKey(b) => l.(blockedIpsc := l.blockedIpsc - {b})
    case HbpKey(id) => l.(blockedHbp := l.blockedHbp - {id})
  }

  /** The owner's call is open, its queue is not empty, or the hang time has not passed. */
  predicate LockActive(s: Slot, now: Time) {
    && s.lock.owner.Some?
    && (|| (s.lock.owner == Some(FromIpsc) && s.out.stream.Some?)
        || (s.lock.owner == Some(FromHbp) && (s.inb.lc.Some? || s.inb.started || s.pacer.queue != []))
        || now <= s.lock.until)
  }

  function ClearLock(l: Lock): Lock {
    l.(owner := None, src := None, tg := None, until := 0)
  }

  function AcquireLock(l: Lock, dir: Direction, src: Bytes, dst: Bytes): Lock {
    l.(owner := Some(dir), src := Some(src), tg := Some(dst), until := 0)
  }

  /** A packet of no remembered stream meets the lock: it finds it free, its own, or held against it. */
  function Arbitrate(c: Config, s: Slot, dir: Direction, key: StreamKey, src: Bytes, dst: Bytes, now: Time): Gate {
    var l := if s.lock.owner.Some? && !LockActive(s, now) then ClearLock(s.lock) else s.lock;
    if l.owner.None? then Gate(true, s.(lock := AcquireLock(l, dir, src, dst)))
    else if l.owner == Some(dir) then Gate(true, s.(lock := l))
    else if c.lockSameTgOnly && l.tg != Some(dst) then Gate(true, s.(lock := l))
    else Gate(false, s.(lock := Remember(l, key, now + c.BlockFor())))
  }

  /** Gate a packet of the given direction; pass is false when the lock drops it. */
  function LockGate(c: Config, s: Slot, dir: Direction, key: StreamKey, src: Bytes, dst: Bytes,
                    isEnd: bool, now: Time): Gate
  {
    if !c.callLock then Gate(true, s) else
    var l := Prune(s.lock, now);
    if Remembers(l, key) then
      Gate(false, s.(lock := if isEnd then Forget(l, key) else Remember(l, key, now + c.BlockFor())))
    else Arbitrate(c, s.(lock := l), dir, key, src, dst, now)
  }

  function ReleaseLock(c: Config, s: Slot, dir: Direction, now: Time): Slot {
    if !c.callLock || s.lock.owner != Some(dir) then s
    else s.(lock := s.lock.(until := now + c.Hang()))
  }

  // ------------------------------------------------------------------
  // Reflection memory
  // ------------------------------------------------------------------

  function LiveRecent(r: seq<Recent>, now: Time): seq<Recent> {
    if r == [] then []
    else (if r[0].expires > now then [r[0]] else []) + LiveRecent(r[1..], now)
  }

  /** Renew the first entry of this source and group, or add one. */
  function Renew(r: seq<Recent>, src: Bytes, dst: Bytes, expires: Time): seq<Recent> {
    if r == [] then [Recent(src, dst, expires)]
    else if r[0].src == src && r[0].dst == dst then [Recent(src, dst, expires)] + r[1..]
    else [r[0]] + Renew(r[1..], src, dst, expires)
  }

  function RememberSent(c: Config, r: Reflect, src: Bytes, dst: Bytes, now: Time): Reflect {
    if !c.reflectSuppression || c.reflectWindow <= 0 then r
    else r.(recent := Renew(LiveRecent(r.recent, now), src, dst, now + c.reflectWindow * SECOND))
  }

  predicate SeenRecently(r: seq<Recent>, src: Bytes, dst: Bytes) {
    exists e <- r :: e.src == src && e.dst == dst
  }

  /** Whether stream b is an echo of the HBP call now on the air, and the memory afterwards. */
  function EchoVerdict(r: Reflect, b: byte, burst: byte, started: bool, src: Bytes, dst: Bytes, expires: Time)
    : (bool, Reflect)
  {
    if b in r.ignored then
      (true, r.(ignored := if burst == VOICE_TERM then r.ignored - {b} else r.ignored[b := expires]))
    else if burst == VOICE_HEAD && started && SeenRecently(r.recent, src, dst) then
      (true, r.(ignored := r.ignored[b := expires]))
    else (false, r)
  }

  /** Drop an IPSC call that echoes the HBP call now on the air. */
  function ReflectGate(c: Config, s: Slot, key: StreamKey, burst: byte, src: Bytes, dst: Bytes, now: Time): Gate {
    if !c.reflectSuppression || !c.peerMode || !key.IpscKey? then Gate(true, s) else
    var window := Max(1, c.reflectWindow) * SECOND;
    var r := Reflect(LiveRecent(s.reflect.recent, now), Live(s.reflect.ignored, now));
    var (drop, r') := EchoVerdict(r, key.b, burst, s.inb.started, src, dst, now + window);
    Gate(!drop, s.(reflect := r'))
  }

  // ------------------------------------------------------------------
  // Pacer
  // ------------------------------------------------------------------

  predicate SlotBusy(c: Config, s: Slot, now: Time) {
    var holdoff := Max(0, c.busyHoldoffMs) * 1000;
    c.busyGuard && holdoff > 0 && now - s.busyLast < holdoff
  }

  function Depart(h: History, p: Gv, fate: Fate): History {
    h.(departures := h.departures + [Departure(p, fate, h.epoch)])
  }

  function SendNow(c: Config, s: Slot, p: Gv, now: Time): Slot {
    if SlotBusy(c, s, now) then s.(hist := Depart(s.hist, p, Busy(now)))
    else s.(hist := Depart(s.hist, p, Sent(now)), reflect := RememberSent(c, s.reflect, p.src, p.dst, now))
  }

  /** The queue has emptied: the lock of a finished HBP call starts its hang time now. */
  function QueueDrained(c: Config, s: Slot, now: Time): Slot {
    if s.lock.owner == Some(FromHbp) && s.inb.lc.None? then s.(lock := s.lock.(until := now + c.Hang()))
    else s
  }

  function Schedule(c: Config, s: Slot, now: Time): Slot {
    if s.pacer.handle.Some? then s
    else if s.pacer.queue == [] then QueueDrained(c, s, now)
    else
      var delay := Max(0, s.pacer.nextAt - now);
      s.(pacer := s.pacer.(handle := Some(if delay <= 1000 then now else now + delay)))
  }

  function Submit(c: Config, s: Slot, p: Gv, now: Time): Slot {
    if !c.pacing then
      SendNow(c, s.(hist := s.hist.(offers := s.hist.offers + [Offer(p, true)])), p, now)
    else if |s.pacer.queue| >= c.Limit() then
      s.(hist := s.hist.(offers := s.hist.offers + [Offer(p, false)]))
    else
      Schedule(c, s.(pacer := s.pacer.(queue := s.pacer.queue + [p]),
                     hist := s.hist.(offers := s.hist.offers + [Offer(p, true)])), now)
  }

  /** A scheduled drain runs at now; later is the clock once the packet has gone out. */
  function Drain(c: Config, s: Slot, now: Time, later: Time): Slot {
    var s := s.(pacer := s.pacer.(handle := None));
    if s.pacer.queue == [] then QueueDrained(c, s, now)
    else
      var p := s.pacer.queue[0];
      var s := SendNow(c, s.(pacer := s.pacer.(queue := s.pacer.queue[1..])), p, now);
      var s := s.(pacer := s.pacer.(nextAt := later + c.Interval()));
      if s.pacer.queue != [] then Schedule(c, s, later) else QueueDrained(c, s, later)
  }

  function ClearedDepartures(q: seq<Gv>, epoch: nat): (r: seq<Departure>)
    ensures |r| == |q|
  {
    seq(|q|, i requires 0 <= i < |q| => Departure(q[i], Cleared, epoch))
  }

  function ClearQueue(s: Slot): Slot {
    s.(pacer := Pacer([], None, 0),
       hist := s.hist.(departures := s.hist.departures + ClearedDepartures(s.pacer.queue, s.hist.epoch),
                       epoch := s.hist.epoch + 1))
  }

  // ------------------------------------------------------------------
  // IPSC -> HBP
  // ------------------------------------------------------------------

  /** LEGACY_AMBE stream handling ahead of the lock. */
  function LegacyGate(c: Config, s: Slot, key: StreamKey, burst: byte, now: Time): Gate {
    if !c.legacy || !key.IpscKey? then Gate(true, s)
    else if burst == VOICE_HEAD then
      var changed := s.out.ipscByte.Some? && s.out.stream.Some? && s.out.ipscByte.value != key.b;
      var s := if changed
               then ReleaseLock(c, s.(out := s.out.(stream := None, lc := None, embLc := None)), FromIpsc, now)
               else s;
      Gate(true, s.(out := s.out.(ipscByte := Some(key.b))))
    else Gate(!(s.out.ipscByte.None? && s.out.stream.None?), s)
  }

  function IpscKeyOf(data: Bytes): StreamKey {
    if |data| > 5 then IpscKey(data[5]) else NoKey
  }

  /** Everything between reception and forwarding: legacy handling, lock, reflection. */
  function IpscGate(c: Config, s: Slot, data: Bytes, burst: byte, now: Time): Gate {
    var src, dst, key := Slice(data, 6, 9), Slice(data, 9, 12), IpscKeyOf(data);
    var g := LegacyGate(c, s.(out := s.out.(lastPkt := now)), key, burst, now);
    if !g.pass then g else
    var g := LockGate(c, g.s, FromIpsc, key, src, dst, burst == VOICE_TERM, now);
    if !g.pass then g else
    var g := ReflectGate(c, g.s, key, burst, src, dst, now);
    if !g.pass then g else Gate(true, g.s.(busyLast := now))
  }

  function Learn(sh: Shared, data: Bytes): Shared {
    if |data| >= 17 then sh.(callType := data[12..13], callCtrl := data[13..17]) else sh
  }

  /** The two halves of a coded LC around slot type and sync. */
  function LcPayload(full: Bits, slotType: Bits20, sync: Bits48): Bytes {
    ToBytes(Slice(full, 0, 98) + slotType[..10] + sync + slotType[10..] + (if |full| >= 98 then full[98..] else []))
  }

  function HeadPayload(d: Dmr, lc: Bytes): Bytes {
    LcPayload(d.encodeHeaderLc(lc), d.slotTypeHead, d.dataSync)
  }

  function TermPayload(d: Dmr, lc: Bytes): Bytes {
    LcPayload(d.encodeTermLc(lc), d.slotTypeTerm, d.dataSync)
  }

  /** The embedded LC fragment for a superframe position, or zeros. */
  function Fragment(emb: Option<EmbLc>, pos: int): Bits32 {
    if emb.Some? && pos in emb.value then emb.value[pos] else Zeros(32)
  }

  function EmbWord(d: Dmr, pos: nat): Bits16
    requires 1 <= pos <= 5
  {
    d.emb[pos - 1]
  }

  /** The embed field of a voice burst: sync at position 0, no LC at position 5. */
  function EmbedField(d: Dmr, pos: nat, emb: Option<EmbLc>): Bits48
    requires pos < 6
  {
    if pos == 0 then d.voiceSync
    else
      var lcBits := if pos <= 4 then Fragment(emb, pos) else Zeros(32);
      EmbWord(d, pos)[..8] + lcBits + EmbWord(d, pos)[8..]
  }

  function SendDmrd(c: Config, ts: Timeslot, r: Res, flags: byte, src: Bytes, dst: Bytes, payload: Bytes): Res
    requires r.s.out.stream.Some?
  {
    var d := Dmrd(r.sh.outSeq, src, dst, c.repeaterId, flags, r.s.out.stream.value, payload);
    Res(r.sh.(outSeq := (r.sh.outSeq + 1) % 256, dmrds := r.sh.dmrds + [Tagged(ts, d)]),
        r.s.(hist := r.s.hist.(frames := r.s.hist.frames + [d])))
  }

  function OrElse(lc: Option<Bytes>, fallback: Bytes): Bytes {
    if lc.Some? && lc.value != [] then lc.value else fallback
  }

  function IpscHead(c: Config, ts: Timeslot, r: Res, src: Bytes, dst: Bytes, nonce: Bytes): Res {
    var o := r.s.out;
    if o.stream.Some? && c.legacy then r
    else
      var lc := c.dmr.lcOpt + dst + src;
      var stream := if o.stream.Some? then o.stream else Some(nonce);
      var r := r.(s := r.s.(out := o.(stream := stream, framePos := 0, lc := Some(lc),
                                      embLc := Some(c.dmr.encodeEmbLc(lc)))));
      var r := SendDmrd(c, ts, r, HeadFlags(ts), src, dst, HeadPayload(c.dmr, lc));
      if c.legacy then SendDmrd(c, ts, r, HeadFlags(ts), src, dst, HeadPayload(c.dmr, lc)) else r
  }

  function IpscTerm(c: Config, ts: Timeslot, r: Res, src: Bytes, dst: Bytes, now: Time): Res {
    if r.s.out.stream.None? then r
    else
      var lc := OrElse(r.s.out.lc, c.dmr.lcOpt + dst + src);
      var r := SendDmrd(c, ts, r, TermFlags(ts), src, dst, TermPayload(c.dmr, lc));
      var s := r.s.(out := r.s.out.(stream := None, lc := None, embLc := None, ipscByte := None));
      r.(s := ReleaseLock(c, s, FromIpsc, now))
  }

  /** Late entry: Burst E names source and group, so a call may open on it at position 4. */
  function LateEntry(c: Config, s: Slot, data: Bytes, src: Bytes, dst: Bytes, nonce: Bytes): Gate {
    if s.out.stream.Some? then Gate(true, s)
    else if c.legacy || |data| <= 32 || data[32] != 0x16 then Gate(false, s)
    else
      var lc := c.dmr.lcOpt + dst + src;
      Gate(true, s.(out := s.out.(stream := Some(nonce), framePos := 4, lc := Some(lc),
                                  embLc := Some(c.dmr.encodeEmbLc(lc)))))
  }

  function IpscVoiceBurst(c: Config, ts: Timeslot, r: Res, data: Bytes, src: Bytes, dst: Bytes, nonce: Bytes): Res {
    var g := LateEntry(c, r.s, data, src, dst, nonce);
    var r := r.(s := g.s);
    if !g.pass || |data| < 52 then r
    else
      var o := r.s.out;
      var pos := o.framePos % 6;
      var payload := Assemble(c.dmr, data[33..52], EmbedField(c.dmr, pos, o.embLc));
      var r := r.(s := r.s.(out := o.(framePos := o.framePos + 1)));
      SendDmrd(c, ts, r, VoiceFlags(ts, pos), src, dst, payload)
  }

  function IpscForward(c: Config, ts: Timeslot, r: Res, data: Bytes, burst: byte, now: Time, nonce: Bytes): Res {
    var src, dst := Slice(data, 6, 9), Slice(data, 9, 12);
    if burst == VOICE_HEAD then IpscHead(c, ts, r, src, dst, nonce)
    else if burst == VOICE_TERM then IpscTerm(c, ts, r, src, dst, now)
    else IpscVoiceBurst(c, ts, r, data, src, dst, nonce)
  }

  /** A GROUP_VOICE packet arrives while HBP is connected. */
  function IpscVoice(c: Config, ts: Timeslot, r: Res, data: Bytes, burst: byte, now: Time, nonce: Bytes): Res {
    var g := IpscGate(c, r.s, data, burst, now);
    if !g.pass then r.(s := g.s)
    else IpscForward(c, ts, Res(Learn(r.sh, data), g.s), data, burst, now, nonce)
  }

  // ------------------------------------------------------------------
  // HBP -> IPSC
  // ------------------------------------------------------------------

  function ResetInbound(s: Slot): Slot {
    s.(inb := s.inb.(lc := None, embLc := None, hbpStream := None, src := None, dst := None,
                     lastHead := 0, started := false))
  }

  /** In LEGACY_AMBE flow a terminator of a foreign stream is dropped while a call is active. */
  predicate LegacyHbpDrop(c: Config, s: Slot, b: Burst) {
    && c.legacy
    && s.inb.hbpStream.Some?
    && (s.inb.lc.Some? || s.inb.started || s.pacer.queue != [])
    && s.inb.hbpStream.value != b.stream
    && IsTerm(b.flags)
  }

  function HbpGate(c: Config, s: Slot, b: Burst, now: Time): Gate {
    var s := s.(inb := s.inb.(lastPkt := now));
    var g := LockGate(c, s, FromHbp, HbpKey(b.stream), b.src, b.dst, IsTerm(b.flags), now);
    if g.pass && LegacyHbpDrop(c, g.s, b) then Gate(false, g.s) else g
  }

  function NewPacket(c: Config, sh: Shared, i: Inbound, src: Bytes, dst: Bytes, callInfo: byte, pt: byte,
                     payload: Bytes): Gv
  {
    Gv(c.sourceId, i.streamByte, src, dst, sh.callType, sh.callCtrl, callInfo, pt,
       i.rtpSeq % 0x1_0000, i.rtpTs % 0x1_0000_0000, payload)
  }

  /** Generate one packet of the current inbound call and hand it to the pacer. */
  function Emit(c: Config, sh: Shared, s: Slot, src: Bytes, dst: Bytes, callInfo: byte, pt: byte,
                payload: Bytes, now: Time): Slot
  {
    var p := NewPacket(c, sh, s.inb, src, dst, callInfo, pt, payload);
    Submit(c, s.(inb := s.inb.(rtpSeq := (s.inb.rtpSeq + 1) % 0x1_0000,
                               rtpTs := (s.inb.rtpTs + 480) % 0x1_0000_0000)), p, now)
  }

  /** The 24 payload bytes of a header or terminator. */
  function LcGvPayload(d: Dmr, burst: byte, lc: Bytes): Bytes {
    [burst, 0x80, 0, 10, 0x80, 0x0A, 0, 0x60] + Slice(lc, 0, 9)
    + (if burst == VOICE_HEAD then d.headFec(Slice(lc, 0, 9)) else d.termFec(Slice(lc, 0, 9)))
    + [0, if burst == VOICE_HEAD then 0x11 else 0x12, 0, 0]
  }

  /** The first n of the repeated headers. */
  function EmitHeads(c: Config, ts: Timeslot, sh: Shared, s: Slot, lc: Bytes, src: Bytes, dst: Bytes, n: nat,
                     now: Time): Slot
  {
    if n == 0 then s
    else
      var s := EmitHeads(c, ts, sh, s, lc, src, dst, n - 1, now);
      Emit(c, sh, s, src, dst, CallInfo(ts, false), if n == 1 then PT_FIRST_HEAD else PT_VOICE,
           LcGvPayload(c.dmr, VOICE_HEAD, lc), now)
  }

  function EmitStart(c: Config, ts: Timeslot, sh: Shared, s: Slot, src: Bytes, dst: Bytes, now: Time): Slot {
    if s.inb.started then s
    else
      var lc := OrElse(s.inb.lc, c.dmr.lcOpt + dst + src);
      var s := EmitHeads(c, ts, sh, s, lc, src, dst, c.Heads(), now);
      s.(inb := s.inb.(started := true))
  }

  /** A new inbound call takes the next stream byte and random RTP start values. */
  function OpenInbound(c: Config, ts: Timeslot, r: Res, lc: Bytes, b: Burst, now: Time, seq0: nat, ts0: nat): Res {
    var ctr := (r.sh.streamCtr + 1) % 256;
    Res(r.sh.(streamCtr := ctr, starts := r.sh.starts + [Start(ts, ctr)]),
        r.s.(inb := r.s.inb.(lc := Some(lc), embLc := Some(c.dmr.encodeEmbLc(lc)), streamByte := ctr,
                             hbpStream := Some(b.stream), src := Some(b.src), dst := Some(b.dst),
                             lastHead := now, rtpSeq := seq0, rtpTs := ts0, started := false)))
  }

  function DecodeLc(d: Dmr, payload: Bytes): Bytes
    requires |payload| == 33
  {
    var bits := ToBits(payload);
    ToBytes(d.decodeFullLc(bits[..98] + bits[166..264]))
  }

  predicate DuplicateHead(i: Inbound, b: Burst, now: Time) {
    && i.lc.Some?
    && (|| i.hbpStream == Some(b.stream)
        || (i.src == Some(b.src) && i.dst == Some(b.dst) && now - i.lastHead <= 1_500_000))
  }

  function HbpHead(c: Config, ts: Timeslot, r: Res, b: Burst, now: Time, seq0: nat, ts0: nat): Res
    requires |b.payload| == 33
  {
    var lc := DecodeLc(c.dmr, b.payload);
    var i := r.s.inb;
    if DuplicateHead(i, b, now) then
      r.(s := r.s.(inb := i.(lc := Some(lc), embLc := Some(c.dmr.encodeEmbLc(lc)), lastHead := now)))
    else
      var s := if i.hbpStream.Some? && i.lc.Some? && i.started then ResetInbound(r.s) else r.s;
      var r := OpenInbound(c, ts, r.(s := s), lc, b, now, seq0, ts0);
      if c.startOnVoice then r else r.(s := EmitStart(c, ts, r.sh, r.s, b.src, b.dst, now))
  }

  function HbpTerm(c: Config, ts: Timeslot, r: Res, b: Burst, now: Time): Res {
    var s := if !r.s.inb.started then r.s
             else Emit(c, r.sh, r.s, b.src, b.dst, CallInfo(ts, true), PT_TERM,
                       LcGvPayload(c.dmr, VOICE_TERM, OrElse(r.s.inb.lc, c.dmr.lcOpt + b.dst + b.src)), now);
    r.(s := ResetInbound(ReleaseLock(c, s, FromHbp, now)))
  }

  function SlotVoice(ts: Timeslot): byte {
    if ts.TS2? then SLOT2_VOICE else SLOT1_VOICE
  }

  /** The burst-specific GROUP_VOICE payload around the 19 AMBE bytes. */
  function VoiceGvPayload(d: Dmr, ts: Timeslot, i: Inbound, b: Burst, ambe: Bytes): Bytes {
    var dtype := DtypeOf(b.flags);
    if FrameTypeOf(b.flags).VoiceSync? then [SlotVoice(ts), 0x14, 0x40] + ambe
    else if dtype == 4 then
      [SlotVoice(ts), 0x22, 0x16] + ambe + ToBytes(Fragment(i.embLc, 4))
      + Slice(OrElse(i.lc, [0, 0, 0]), 0, 3) + b.dst + b.src + [0x14]
    else if dtype >= 5 then [SlotVoice(ts), 0x19, 0x06] + ambe + [0, 0, 0, 0, 0x10]
    else
      var pos := Max(dtype, 1);
      [SlotVoice(ts), 0x19, 0x06] + ambe + ToBytes(Fragment(i.embLc, pos))
      + [ByteOfBits(EmbWord(d, pos)[..8]) / 2 * 2]
  }

  /** Late entry: any voice burst names source and group, so a call may open on it. */
  function HbpLateEntry(c: Config, ts: Timeslot, r: Res, b: Burst, now: Time, seq0: nat, ts0: nat): Res {
    if r.s.inb.lc.Some? then r else OpenInbound(c, ts, r, c.dmr.lcOpt + b.dst + b.src, b, now, seq0, ts0)
  }

  function HbpVoiceBurst(c: Config, ts: Timeslot, r: Res, b: Burst, now: Time, seq0: nat, ts0: nat): Res
    requires |b.payload| == 33
  {
    if r.s.inb.lc.None? && c.legacy then r
    else
      var r := HbpLateEntry(c, ts, r, b, now, seq0, ts0);
      var s := EmitStart(c, ts, r.sh, r.s, b.src, b.dst, now);
      var payload := VoiceGvPayload(c.dmr, ts, s.inb, b, Extract(c.dmr, b.payload));
      r.(s := Emit(c, r.sh, s, b.src, b.dst, CallInfo(ts, false), PT_VOICE, payload, now))
  }

  function HbpForward(c: Config, ts: Timeslot, r: Res, b: Burst, now: Time, seq0: nat, ts0: nat): Res
    requires |b.payload| == 33
  {
    if IsHead(b.flags) then HbpHead(c, ts, r, b, now, seq0, ts0)
    else if IsTerm(b.flags) then HbpTerm(c, ts, r, b, now)
    else HbpVoiceBurst(c, ts, r, b, now, seq0, ts0)
  }

  /** A DMRD arrives while IPSC is registered. */
  function HbpVoice(c: Config, ts: Timeslot, r: Res, b: Burst, now: Time, seq0: nat, ts0: nat): Res
    requires |b.payload| == 33
  {
    var g := HbpGate(c, r.s, b, now);
    if !g.pass then r.(s := g.s) else HbpForward(c, ts, r.(s := g.s), b, now, seq0, ts0)
  }

  // ------------------------------------------------------------------
  // Timeouts and resets
  // ------------------------------------------------------------------

  const CALL_TIMEOUT: Time := 10 * SECOND

  function TimeoutOut(c: Config, s: Slot, now: Time): Slot {
    if s.out.stream.Some? && now - s.out.lastPkt > CALL_TIMEOUT then
      ReleaseLock(c, s.(out := s.out.(stream := None, lc := None, embLc := None)), FromIpsc, now)
    else s
  }

  function TimeoutIn(c: Config, s: Slot, now: Time): Slot {
    if s.inb.lc.Some? && now - s.inb.lastPkt > CALL_TIMEOUT then ResetInbound(ReleaseLock(c, s, FromHbp, now))
    else s
  }

  function CheckTimeouts(c: Config, s: Slot, now: Time): Slot {
    TimeoutIn(c, TimeoutOut(c, s, now), now)
  }

  /** HBP went down: both calls and the queue are dropped; the lock is left to expire. */
  function HbpDown(s: Slot): Slot {
    var s := ClearQueue(s);
    s.(out := s.out.(stream := None, lc := None, embLc := None, ipscByte := None, lastPkt := 0),
       inb := s.inb.(lc := None, embLc := None, streamByte := 0, hbpStream := None, src := None, dst := None,
                     lastHead := 0, lastPkt := 0, started := false),
       reflect := Reflect([], map[]))
  }

  /** IPSC went down: as above, and the lock and its memory are cleared too. */
  function PeerDown(s: Slot): Slot {
    HbpDown(s).(lock := IDLE_LOCK)
  }

  // ------------------------------------------------------------------
  // Events and runs
  // ------------------------------------------------------------------

  /** What the outside does to the translator; up says whether the far side was usable then. */
  datatype Event =
    | IpscPacket(ts: Timeslot, data: Bytes, burst: byte, up: bool, now: Time, nonce: Bytes)
    | HbpPacket(dmrd: Bytes, up: bool, now: Time, seq0: nat, ts0: nat)
    | DrainFires(ts: Timeslot, now: Time, later: Time)
    | Watchdog(now: Time)
    | PeerLost(now: Time)
    | HbpLost(now: Time)
  {
    /** The clock when the handler returns. */
    function Ends(): Time {
      if DrainFires? then later else now
    }
  }

  /** What one event does to slot ts. */
  function SlotStep(c: Config, ts: Timeslot, r: Res, e: Event): Res {
    match e
    case IpscPacket(ts', data, burst, up, now, nonce) =>
      if ts' == ts && up then IpscVoice(c, ts, r, data, burst, now, nonce) else r
    case HbpPacket(dmrd, up, now, seq0, ts0) =>
      if up && |dmrd| >= DMRD_LEN && SlotOf(dmrd[15]) == ts
      then HbpVoice(c, ts, r, ParseDmrd(dmrd), now, seq0, ts0) else r
    case DrainFires(ts', now, later) =>
      if ts' == ts && r.s.pacer.handle.Some? then r.(s := Drain(c, r.s, now, later)) else r
    case Watchdog(now) => r.(s := CheckTimeouts(c, r.s, now))
    case PeerLost(_) => r.(s := PeerDown(r.s))
    case HbpLost(_) => r.(s := HbpDown(r.s))
  }

  datatype State = State(one: Slot, two: Slot, sh: Shared)
  {
    function At(ts: Timeslot): Slot {
      if ts.TS1? then one else two
    }
  }

  const INITIAL := State(IDLE_SLOT, IDLE_SLOT, INITIAL_SHARED)

  function Step(c: Config, st: State, e: Event): State {
    var r1 := SlotStep(c, TS1, Res(st.sh, st.one), e);
    var r2 := SlotStep(c, TS2, Res(r1.sh, st.two), e);
    var sh := if e.PeerLost? then r2.sh.(callType := DEFAULT_CALL_TYPE, callCtrl := DEFAULT_CALL_CTRL) else r2.sh;
    State(r1.s, r2.s, sh)
  }

  /** The state after the events, from the state the translator is created in. */
  function Run(c: Config, evs: seq<Event>): State {
    if evs == [] then INITIAL else Step(c, Run(c, evs[..|evs| - 1]), evs[|evs| - 1])
  }
}
