/**
 One HBP connection: the handshake, keepalive and disconnect machine.  The value model, the
 object proved against it, and the traffic and callbacks every connection produces.
 */
module HbpSession {
  import opened Prelude
  import opened Wire

  datatype Phase = Login | AuthSent | ConfigSent | OptionsSent | Connected | Disconnected

  /** What a connection sends; a DMRD is user traffic. */
  datatype Msg = RPTL | RPTK(salt: Bytes) | RPTC | RPTO | RPTPING | RPTCL | DMRD(data: Bytes)

  /** What a connection tells the translator. */
  datatype Call = HbpConnected | HbpDisconnected | VoiceReceived(data: Bytes)

  const MAX_PONG_AGE: Time := 15 * SECOND

  const ACK: Bytes := [0x52, 0x50, 0x54, 0x41, 0x43, 0x4B]
  const NAK: Bytes := [0x4D, 0x53, 0x54, 0x4E, 0x41, 0x4B]
  const PONG: Bytes := [0x4D, 0x53, 0x54, 0x50, 0x4F, 0x4E, 0x47]
  const CLOSE: Bytes := [0x4D, 0x53, 0x54, 0x43, 0x4C]
  const VOICE: Bytes := [0x44, 0x4D, 0x52, 0x44]

  /** open: the transport is there; pinging: the keepalive loop runs; checked: when it last looked. */
  datatype Session = Session(phase: Phase, open: bool, pinging: bool, lastPong: Time, checked: Time, sent: seq<Msg>,
                             calls: seq<Call>)

  const INITIAL := Session(Login, false, false, 0, 0, [], [])

  function Send(s: Session, m: Msg): Session {
    if s.open then s.(sent := s.sent + [m]) else s
  }

  function Disconnect(s: Session, sayGoodbye: bool): Session {
    var s := if sayGoodbye && s.phase.Connected? then Send(s, RPTCL) else s;
    s.(phase := Disconnected, pinging := false, open := false)
  }

  function BecomeConnected(s: Session, now: Time): Session {
    s.(phase := Connected, lastPong := now, checked := now, pinging := true, calls := s.calls + [HbpConnected])
  }

  function OnAck(options: bool, s: Session, data: Bytes, now: Time): Session {
    match s.phase
    case Login => if |data| < 10 then s else Send(s, RPTK(data[6..10])).(phase := AuthSent)
    case AuthSent => Send(s, RPTC).(phase := ConfigSent)
    case ConfigSent => if options then Send(s, RPTO).(phase := OptionsSent) else BecomeConnected(s, now)
    case OptionsSent => BecomeConnected(s, now)
    case _ => s
  }

  function OnDatagram(options: bool, s: Session, data: Bytes, now: Time): Session {
    if |data| < 4 then s
    else if ACK <= data then OnAck(options, s, data, now)
    else if NAK <= data then Disconnect(s, false)
    else if PONG <= data then s.(lastPong := now)
    else if CLOSE <= data then Disconnect(s, false)
    else if VOICE <= data && s.phase.Connected? then s.(calls := s.calls + [VoiceReceived(data)])
    else s
  }

  /** One turn of the keepalive loop after its sleep. */
  function KeepaliveTurn(s: Session, now: Time): Session {
    if !s.phase.Connected? then s.(pinging := false)
    else
      var s := Send(s, RPTPING).(checked := now);
      if now - s.lastPong > MAX_PONG_AGE then Disconnect(s.(calls := s.calls + [HbpDisconnected]), false) else s
  }

  function OnError(s: Session): Session {
    if s.phase.Disconnected? then s
    else Disconnect(if s.phase.Connected? then s.(calls := s.calls + [HbpDisconnected]) else s, false)
  }

  function SendUser(s: Session, data: Bytes): Session {
    if s.phase.Connected? then Send(s, DMRD(data)) else s
  }

  datatype Event =
    | Made
    | Received(data: Bytes, now: Time)
    | Keepalive(now: Time)
    | Error
    | Close(sayGoodbye: bool)
    | UserTraffic(data: Bytes)
    | TransportLost

  function Step(options: bool, s: Session, e: Event): Session {
    match e
    case Made => Send(s.(open := true), RPTL)
    case Received(data, now) => OnDatagram(options, s, data, now)
    case Keepalive(now) => if s.pinging then KeepaliveTurn(s, now) else s
    case Error => OnError(s)
    case Close(goodbye) => Disconnect(s, goodbye)
    case UserTraffic(data) => SendUser(s, data)
    case TransportLost => s.(pinging := false)
  }

  /** The connection after the events that follow its being made; the transport announces itself first and once. */
  function Run(options: bool, evs: seq<Event>): Session {
    if evs == [] then Step(options, INITIAL, Made) else Step(options, Run(options, evs[..|evs| - 1]), evs[|evs| - 1])
  }

  predicate Ordinary(evs: seq<Event>) {
    forall i :: 0 <= i < |evs| ==> !evs[i].Made?
  }

  // ------------------------------------------------------------------
  // The object
  // ------------------------------------------------------------------

  class Protocol {
    const options: bool
    var phase: Phase
    var open: bool
    var pinging: bool
    var lastPong: Time
    ghost var checked: Time
    var sent: seq<Msg>
    var calls: seq<Call>

    ghost function View(): Session
      reads this
    {
      Session(phase, open, pinging, lastPong, checked, sent, calls)
    }

    constructor (options: bool)
      ensures this.options == options && View() == INITIAL
    {
      this.options := options;
      phase, open, pinging, lastPong, checked, sent, calls := Login, false, false, 0, 0, [], [];
    }

    method SendRaw(m: Msg)
      modifies this
      ensures View() == Send(old(View()), m)
    {
      if open {
        sent := sent + [m];
      }
    }

    method DisconnectNow(sayGoodbye: bool)
      modifies this
      ensures View() == Step(options, old(View()), Close(sayGoodbye))
    {
      if sayGoodbye && phase.Connected? {
        SendRaw(RPTCL);
      }
      phase := Disconnected;
      pinging := false;
      open := false;
    }

    method ConnectionMade()
      modifies this
      ensures View() == Step(options, old(View()), Made)
    {
      open := true;
      SendRaw(RPTL);
    }

    method ConnectionLost()
      modifies this
      ensures View() == Step(options, old(View()), TransportLost)
    {
      pinging := false;
    }

    method ErrorReceived()
      modifies this
      ensures View() == Step(options, old(View()), Error)
    {
      if !phase.Disconnected? {
        if phase.Connected? {
          calls := calls + [HbpDisconnected];
        }
        DisconnectNow(false);
      }
    }

    method BecomeConnectedNow(now: Time)
      modifies this
      ensures View() == BecomeConnected(old(View()), now)
    {
      phase := Connected;
      lastPong := now;
      checked := now;
      pinging := true;
      calls := calls + [HbpConnected];
    }

    method OnRptack(data: Bytes, now: Time)
      modifies this
      ensures View() == OnAck(options, old(View()), data, now)
    {
      match phase
      case Login =>
        if |data| < 10 {
          return;
        }
        SendRaw(RPTK(data[6..10]));
        phase := AuthSent;
      case AuthSent =>
        SendRaw(RPTC);
        phase := ConfigSent;
      case ConfigSent =>
        if options {
          SendRaw(RPTO);
          phase := OptionsSent;
        } else {
          BecomeConnectedNow(now);
        }
      case OptionsSent =>
        BecomeConnectedNow(now);
      case _ =>
    }

    method DatagramReceived(data: Bytes, now: Time)
      modifies this
      ensures View() == Step(options, old(View()), Received(data, now))
    {
      if |data| < 4 {
        return;
      }
      if ACK <= data {
        OnRptack(data, now);
      } else if NAK <= data {
        DisconnectNow(false);
      } else if PONG <= data {
        lastPong := now;
      } else if CLOSE <= data {
        DisconnectNow(false);
      } else if VOICE <= data {
        if phase.Connected? {
          calls := calls + [VoiceReceived(data)];
        }
      }
    }

    method KeepaliveOnce(now: Time)
      requires pinging
      modifies this
      ensures View() == Step(options, old(View()), Keepalive(now))
    {
      if !phase.Connected? {
        pinging := false;
        return;
      }
      SendRaw(RPTPING);
      checked := now;
      if now - lastPong > MAX_PONG_AGE {
        calls := calls + [HbpDisconnected];
        DisconnectNow(false);
      }
    }

    method SendDmrd(data: Bytes)
      modifies this
      ensures View() == Step(options, old(View()), UserTraffic(data))
    {
      if phase.Connected? && open {
        sent := sent + [DMRD(data)];
      }
    }
  }

  // ------------------------------------------------------------------
  // The traffic of a connection
  // ------------------------------------------------------------------

  /** The first n messages of a handshake with this salt. */
  function Handshake(options: bool, salt: Bytes): seq<Msg> {
    [RPTL, RPTK(salt), RPTC] + if options then [RPTO] else []
  }

  predicate Body(b: seq<Msg>) {
    forall m <- b :: m.RPTPING? || m.DMRD?
  }

  /** RPTL RPTK RPTC RPTO?, or a part of it; or all of it, pings and traffic, and perhaps a goodbye. */
  ghost predicate Lawful(options: bool, sent: seq<Msg>) {
    exists salt, body, bye :: Shaped(options, sent, salt, body, bye)
  }

  predicate Shaped(options: bool, sent: seq<Msg>, salt: Bytes, body: seq<Msg>, bye: bool) {
    || sent <= Handshake(options, salt)
    || (Body(body) && sent == Handshake(options, salt) + body + if bye then [RPTCL] else [])
  }

  /** The messages of the handshake sent by a phase before CONNECTED. */
  function Progress(options: bool, p: Phase, salt: Bytes): seq<Msg>
    requires !p.Connected? && !p.Disconnected?
  {
    match p
    case Login => [RPTL]
    case AuthSent => [RPTL, RPTK(salt)]
    case ConfigSent => [RPTL, RPTK(salt), RPTC]
    case OptionsSent => [RPTL, RPTK(salt), RPTC, RPTO]
  }

  /** The calls that are about the connection itself. */
  function Lifecycle(calls: seq<Call>): seq<Call> {
    if calls == [] then []
    else Lifecycle(calls[..|calls| - 1]) + if calls[|calls| - 1].VoiceReceived? then [] else [calls[|calls| - 1]]
  }

  lemma LifecycleAppend(calls: seq<Call>, x: Call)
    ensures Lifecycle(calls + [x]) == Lifecycle(calls) + if x.VoiceReceived? then [] else [x]
  {
    assert (calls + [x])[..|calls|] == calls;
  }

  /** What has been sent, phase by phase. */
  ghost predicate SentSoFar(options: bool, s: Session, salt: Bytes, body: seq<Msg>) {
    match s.phase
    case Connected => Body(body) && s.sent == Handshake(options, salt) + body
    case Disconnected => Lawful(options, s.sent)
    case _ => s.sent == Progress(options, s.phase, salt) && (s.phase.OptionsSent? ==> options)
  }

  ghost predicate CalledSoFar(s: Session) {
    match s.phase
    case Connected => Lifecycle(s.calls) == [HbpConnected]
    case Disconnected => Lifecycle(s.calls) <= [HbpConnected, HbpDisconnected]
    case _ => Lifecycle(s.calls) == []
  }

  /** Between events; clock is the time of the last one. */
  ghost predicate Inv(options: bool, s: Session, clock: Time) {
    && s.open == !s.phase.Disconnected?
    && (s.pinging ==> s.phase.Connected?)
    && (exists salt, body :: SentSoFar(options, s, salt, body))
    && CalledSoFar(s)
    && s.lastPong <= clock && s.checked <= clock
    && (s.phase.Connected? ==> s.checked - s.lastPong <= MAX_PONG_AGE)
  }

  function TimeOf(e: Event, clock: Time): Time {
    if e.Received? || e.Keepalive? then e.now else clock
  }

  function ClockAfter(evs: seq<Event>): Time {
    if evs == [] then 0 else TimeOf(evs[|evs| - 1], ClockAfter(evs[..|evs| - 1]))
  }

  predicate Rising(evs: seq<Event>) {
    evs == []
    || (var pre := evs[..|evs| - 1]; Rising(pre) && ClockAfter(pre) <= TimeOf(evs[|evs| - 1], ClockAfter(pre)))
  }

  /** An open handshake or body may stop anywhere. */
  lemma StopsLawfully(options: bool, s: Session, salt: Bytes, body: seq<Msg>)
    requires SentSoFar(options, s, salt, body)
    ensures Lawful(options, s.sent)
    ensures s.phase.Connected? ==> Lawful(options, s.sent + [RPTPING]) && Lawful(options, s.sent + [RPTCL])
  {
    if s.phase.Connected? {
      assert Shaped(options, s.sent, salt, body, false);
      assert Body(body + [RPTPING]) && s.sent + [RPTPING] == Handshake(options, salt) + (body + [RPTPING]);
      assert Shaped(options, s.sent + [RPTPING], salt, body + [RPTPING], false);
      assert Shaped(options, s.sent + [RPTCL], salt, body, true);
    } else if !s.phase.Disconnected? {
      assert Shaped(options, s.sent, salt, body, false);
    }
  }

  lemma BodyGrows(options: bool, s: Session, salt: Bytes, body: seq<Msg>, m: Msg)
    requires s.phase.Connected? && SentSoFar(options, s, salt, body) && (m.RPTPING? || m.DMRD?)
    ensures SentSoFar(options, s.(sent := s.sent + [m]), salt, body + [m])
  {
    assert s.sent + [m] == Handshake(options, salt) + (body + [m]);
  }

  lemma AckInv(options: bool, s: Session, data: Bytes, now: Time, clock: Time)
    requires Inv(options, s, clock) && clock <= now
    ensures Inv(options, OnAck(options, s, data, now), now)
  {
    var salt, body :| SentSoFar(options, s, salt, body);
    var s' := OnAck(options, s, data, now);
    LifecycleAppend(s.calls, HbpConnected);
    match s.phase
    case Login =>
      var salt' := if |data| < 10 then salt else data[6..10];
      assert SentSoFar(options, s', salt', []);
    case ConfigSent => assert SentSoFar(options, s', salt, []);
    case OptionsSent => assert SentSoFar(options, s', salt, []);
    case AuthSent => assert SentSoFar(options, s', salt, []);
    case _ => assert SentSoFar(options, s', salt, body);
  }

  /** A session may end at any time, with a goodbye or, if it was connected, with a report. */
  lemma EndInv(options: bool, s: Session, bye: bool, report: bool, clock: Time)
    requires Inv(options, s, clock) && (report ==> s.phase.Connected? && !bye)
    ensures Inv(options, Disconnect(if report then s.(calls := s.calls + [HbpDisconnected]) else s, bye), clock)
  {
    hide Lifecycle, Lawful, Handshake, Body, Progress;
    var salt, body :| SentSoFar(options, s, salt, body);
    StopsLawfully(options, s, salt, body);
    LifecycleAppend(s.calls, HbpDisconnected);
    assert SentSoFar(options, Disconnect(if report then s.(calls := s.calls + [HbpDisconnected]) else s, bye), salt,
      body);
  }

  /** A connected session may send pings and traffic. */
  lemma SendInv(options: bool, s: Session, m: Msg, clock: Time)
    requires Inv(options, s, clock) && s.phase.Connected? && (m.RPTPING? || m.DMRD?)
    ensures Inv(options, Send(s, m), clock)
  {
    hide Lifecycle, Lawful, Handshake, Body, Progress;
    var salt, body :| SentSoFar(options, s, salt, body);
    BodyGrows(options, s, salt, body, m);
    assert SentSoFar(options, Send(s, m), salt, body + [m]);
  }

  /** Time may pass, voice come in, the last pong be renewed, the loop end, and a passed check be noted. */
  lemma QuietInv(options: bool, s: Session, s': Session, clock: Time, now: Time)
    requires Inv(options, s, clock) && clock <= now && s'.open == s.open && s'.phase == s.phase && s'.sent == s.sent
    requires Lifecycle(s'.calls) == Lifecycle(s.calls) && (s'.pinging ==> s.pinging)
    requires s.lastPong <= s'.lastPong <= now && s'.checked <= now
    requires s.phase.Connected? ==> s'.checked == s.checked || s'.checked - s'.lastPong <= MAX_PONG_AGE
    ensures Inv(options, s', now)
  {
    hide Lifecycle, Lawful, Handshake, Body, Progress;
    var salt, body :| SentSoFar(options, s, salt, body);
    assert SentSoFar(options, s', salt, body);
  }

  lemma DatagramInv(options: bool, s: Session, data: Bytes, now: Time, clock: Time)
    requires Inv(options, s, clock) && clock <= now
    ensures Inv(options, OnDatagram(options, s, data, now), now)
  {
    hide OnAck, Lifecycle, Disconnect, SentSoFar, CalledSoFar;
    QuietInv(options, s, s, clock, now);
    if |data| >= 4 && ACK <= data {
      AckInv(options, s, data, now, clock);
    } else if |data| >= 4 && (NAK <= data || (CLOSE <= data && !(PONG <= data))) {
      EndInv(options, s, false, false, now);
    } else {
      LifecycleAppend(s.calls, VoiceReceived(data));
      QuietInv(options, s, OnDatagram(options, s, data, now), clock, now);
    }
  }

  lemma KeepaliveInv(options: bool, s: Session, now: Time, clock: Time)
    requires Inv(options, s, clock) && clock <= now && s.pinging
    ensures Inv(options, KeepaliveTurn(s, now), now)
  {
    var sent := Send(s, RPTPING);
    SendInv(options, s, RPTPING, clock);
    QuietInv(options, sent, sent, clock, now);
    if now - s.lastPong > MAX_PONG_AGE {
      EndInv(options, sent, false, true, now);
      var ended := Disconnect(sent.(calls := s.calls + [HbpDisconnected]), false);
      QuietInv(options, ended, ended.(checked := now), now, now);
    } else {
      QuietInv(options, sent, sent.(checked := now), clock, now);
    }
  }

  lemma StepInv(options: bool, s: Session, e: Event, clock: Time)
    requires Inv(options, s, clock) && clock <= TimeOf(e, clock) && !e.Made?
    ensures Inv(options, Step(options, s, e), TimeOf(e, clock))
  {
    hide OnDatagram, KeepaliveTurn, Disconnect, Lifecycle;
    match e
    case Received(data, now) => DatagramInv(options, s, data, now, clock);
    case Keepalive(now) =>
      if s.pinging {
        KeepaliveInv(options, s, now, clock);
      } else {
        QuietInv(options, s, s, clock, now);
      }
    case UserTraffic(data) =>
      if s.phase.Connected? {
        SendInv(options, s, DMRD(data), clock);
      }
    case Error => EndInv(options, s, false, s.phase.Connected?, clock);
    case Close(bye) => EndInv(options, s, bye, false, clock);
    case TransportLost => QuietInv(options, s, s.(pinging := false), clock, clock);
    case _ =>
  }

  lemma {:induction false} AlwaysInv(options: bool, evs: seq<Event>)
    requires Ordinary(evs) && Rising(evs)
    ensures Inv(options, Run(options, evs), ClockAfter(evs))
  {
    hide Step;
    if evs == [] {
      MadeInv(options);
    } else {
      AlwaysInv(options, evs[..|evs| - 1]);
      StepInv(options, Run(options, evs[..|evs| - 1]), evs[|evs| - 1], ClockAfter(evs[..|evs| - 1]));
    }
  }

  lemma MadeInv(options: bool)
    ensures Inv(options, Step(options, INITIAL, Made), 0)
  {
    assert SentSoFar(options, Step(options, INITIAL, Made), [], []);
  }

  /**
   Main result: every connection sends RPTL RPTK RPTC, RPTO exactly when options are set, then
   pings and user traffic, then at most one RPTCL, or stops on the way; it reports connected and
   then disconnected, each at most once.
   */
  lemma EveryConnectionIsLawful(options: bool, evs: seq<Event>)
    requires Ordinary(evs) && Rising(evs)
    ensures var s := Run(options, evs);
      && Lawful(options, s.sent)
      && Lifecycle(s.calls) <= [HbpConnected, HbpDisconnected]
      && (s.phase.Connected? ==> Lifecycle(s.calls) == [HbpConnected])
  {
    AlwaysInv(options, evs);
    var s := Run(options, evs);
    var salt, body :| SentSoFar(options, s, salt, body);
    StopsLawfully(options, s, salt, body);
  }

  /**
   Main result: a connected session's last pong is at most 15 s older than the last keepalive
   turn; with a turn every 5 s, at most 20 s old.
   */
  lemma ConnectedIsAlive(options: bool, evs: seq<Event>, now: Time)
    requires Ordinary(evs) && Rising(evs) && ClockAfter(evs) <= now
    ensures var s := Run(options, evs);
      s.phase.Connected? ==>
        && s.checked <= now && now - s.lastPong <= MAX_PONG_AGE + (now - s.checked)
        && (now - s.checked <= 5 * SECOND ==> now - s.lastPong <= 20 * SECOND)
  {
    AlwaysInv(options, evs);
  }

  lemma StaysSilent(options: bool, s: Session, e: Event, clock: Time)
    requires Inv(options, s, clock) && s.phase.Disconnected? && !e.Made?
    ensures var s' := Step(options, s, e); s'.phase.Disconnected? && s'.sent == s.sent && s'.calls == s.calls
  {
  }

  lemma {:induction false} OrdinaryPrefix(evs: seq<Event>, n: nat)
    requires Ordinary(evs) && Rising(evs) && n <= |evs|
    ensures Ordinary(evs[..n]) && Rising(evs[..n])
  {
    if n < |evs| {
      OrdinaryPrefix(evs[..|evs| - 1], n);
      assert evs[..|evs| - 1][..n] == evs[..n];
    } else {
      assert evs[..n] == evs;
    }
  }

  /** Main result: disconnected after n events, a connection stays so, and sends and reports nothing more. */
  lemma {:induction false} DisconnectedIsSilent(options: bool, evs: seq<Event>, n: nat)
    requires Ordinary(evs) && Rising(evs) && n <= |evs| && Run(options, evs[..n]).phase.Disconnected?
    ensures var s, s' := Run(options, evs[..n]), Run(options, evs);
      s'.phase.Disconnected? && s'.sent == s.sent && s'.calls == s.calls
  {
    hide Step, Inv;
    if n < |evs| {
      var pre := evs[..|evs| - 1];
      OrdinaryPrefix(evs, |pre|);
      assert pre[..n] == evs[..n];
      DisconnectedIsSilent(options, pre, n);
      AlwaysInv(options, pre);
      StaysSilent(options, Run(options, pre), evs[|pre|], ClockAfter(pre));
    } else {
      assert evs[..n] == evs;
    }
  }

  /**
   The translator is not told of every lost session: exactly an error or the keepalive reports
   it, while a rejection or closing by the server, or a deactivation, leaves its calls open.
   */
  lemma LossReportedExactlyWhen(options: bool, s: Session, e: Event, clock: Time)
    requires Inv(options, s, clock) && s.phase.Connected? && !e.Made?
    ensures var s' := Step(options, s, e);
      s'.phase.Disconnected? ==>
        (Lifecycle(s'.calls) == [HbpConnected, HbpDisconnected] <==> e.Error? || e.Keepalive?)
  {
    hide Lifecycle;
    LifecycleAppend(s.calls, HbpDisconnected);
    assert [HbpConnected] + [HbpDisconnected] == [HbpConnected, HbpDisconnected];
  }

  /**
   A rejection or a closing by the server ends the session without telling the translator, so
   its calls stay open there: the translator hears of a lost session only from an error or the keepalive.
   */
  lemma RejectionIsUnreported(options: bool, s: Session, data: Bytes, now: Time)
    requires s.phase.Connected? && (NAK <= data || CLOSE <= data)
    ensures var s' := Step(options, s, Received(data, now)); s'.phase.Disconnected? && s'.calls == s.calls
  {
    assert data[0] == 0x4D && data[3] in {0x4E, 0x43} by {
      assert if NAK <= data then data[0] == NAK[0] && data[3] == NAK[3] else data[0] == CLOSE[0] && data[3] == CLOSE[3];
    }
    assert ACK[0] != data[0] && PONG[3] != data[3];
  }
}
