/**
 What the datagrams of a connection decide: when it becomes connected, which pongs keep it up,
 which salt it answers and which voice it hands on.  All of it is read off the events.
 */
module HbpLiveness {
  import opened Prelude
  import opened Wire
  import opened HbpSession

  /** "MSTPONG" */
  predicate IsPong(e: Event) {
    e.Received? && [0x4D, 0x53, 0x54, 0x50, 0x4F, 0x4E, 0x47] <= e.data
  }

  /** "RPTACK" */
  predicate IsAck(e: Event) {
    e.Received? && [0x52, 0x50, 0x54, 0x41, 0x43, 0x4B] <= e.data
  }

  /** "MSTNAK" or "MSTCL" */
  predicate IsRefusal(e: Event) {
    e.Received? && ([0x4D, 0x53, 0x54, 0x4E, 0x41, 0x4B] <= e.data || [0x4D, 0x53, 0x54, 0x43, 0x4C] <= e.data)
  }

  /** "DMRD" */
  predicate IsVoice(e: Event) {
    e.Received? && [0x44, 0x4D, 0x52, 0x44] <= e.data
  }

  predicate BecomesConnected(options: bool, evs: seq<Event>)
    requires evs != []
  {
    Run(options, evs).phase.Connected? && !Run(options, evs[..|evs| - 1]).phase.Connected?
  }

  /** The latest pong, or the moment of becoming connected. */
  function LastSign(options: bool, evs: seq<Event>): Time {
    if evs == [] then 0
    else
      var e := evs[|evs| - 1];
      if IsPong(e) || BecomesConnected(options, evs) then TimeOf(e, 0) else LastSign(options, evs[..|evs| - 1])
  }

  /** The latest keepalive turn, or the moment of becoming connected. */
  function LastTurn(options: bool, evs: seq<Event>): Time {
    if evs == [] then 0
    else
      var e := evs[|evs| - 1];
      if e.Keepalive? || BecomesConnected(options, evs) then TimeOf(e, 0) else LastTurn(options, evs[..|evs| - 1])
  }

  // ------------------------------------------------------------------
  // Pongs
  // ------------------------------------------------------------------

  /** The transport is not torn down. */
  predicate Standing(evs: seq<Event>) {
    forall i :: 0 <= i < |evs| ==> !evs[i].TransportLost?
  }

  /** One step of a session that is or becomes connected. */
  lemma StepSigns(options: bool, s: Session, e: Event)
    requires !e.Made? && !e.TransportLost? && Step(options, s, e).phase.Connected?
    requires s.phase.Connected? ==> s.pinging
    ensures var s' := Step(options, s, e);
      && s'.pinging
      && s'.lastPong == (if IsPong(e) || !s.phase.Connected? then TimeOf(e, 0) else s.lastPong)
      && s'.checked == (if e.Keepalive? || !s.phase.Connected? then TimeOf(e, 0) else s.checked)
  {
    if IsPong(e) {
      PongIsNoOther(e.data);
    }
  }

  lemma PongIsNoOther(data: Bytes)
    requires PONG <= data
    ensures !(ACK <= data) && !(NAK <= data) && !(CLOSE <= data) && !(VOICE <= data)
  {
    assert data[0] == PONG[0] && data[3] == PONG[3];
    assert ACK[0] != PONG[0] && NAK[3] != PONG[3] && CLOSE[3] != PONG[3] && VOICE[0] != PONG[0];
  }

  lemma {:induction false} SignsAreKept(options: bool, evs: seq<Event>)
    requires Ordinary(evs) && Standing(evs)
    ensures var s := Run(options, evs);
      s.phase.Connected? ==>
        s.pinging && s.lastPong == LastSign(options, evs) && s.checked == LastTurn(options, evs)
  {
    hide Step;
    if evs != [] && Run(options, evs).phase.Connected? {
      SignsAreKept(options, evs[..|evs| - 1]);
      StepSigns(options, Run(options, evs[..|evs| - 1]), evs[|evs| - 1]);
    } else if evs == [] {
      NotYetConnected(options);
    }
  }

  lemma NotYetConnected(options: bool)
    ensures Run(options, []).phase.Login? && Run(options, []).sent == [RPTL] && Run(options, []).calls == []
    ensures Run(options, []).open
  {
  }

  lemma RunGrows(options: bool, evs: seq<Event>, e: Event)
    ensures Run(options, evs + [e]) == Step(options, Run(options, evs), e)
  {
    hide Step;
    assert (evs + [e])[..|evs|] == evs;
  }

  /**
   Main result: a keepalive turn ends a connected session, and reports it, exactly when the last
   pong, or the moment of becoming connected, is more than 15 seconds old.
   */
  lemma KeepaliveEndsExactlyTheSilent(options: bool, evs: seq<Event>, now: Time)
    requires Ordinary(evs) && Standing(evs) && Run(options, evs).phase.Connected?
    ensures var s, s' := Run(options, evs), Run(options, evs + [Keepalive(now)]);
      && (s'.phase.Disconnected? <==> now - LastSign(options, evs) > 15_000_000)
      && (!s'.phase.Disconnected? ==> s'.phase.Connected? && s'.calls == s.calls)
      && (s'.phase.Disconnected? ==> s'.calls == s.calls + [HbpDisconnected])
  {
    hide Run;
    SignsAreKept(options, evs);
    RunGrows(options, evs, Keepalive(now));
  }

  /** The event neither errs, refuses nor closes, and a keepalive turn finds a sign of the last 15 seconds. */
  predicate Healthy(options: bool, evs: seq<Event>, i: nat)
    requires i < |evs|
  {
    var e := evs[i];
    && !e.Error? && !e.Close? && !IsRefusal(e)
    && (e.Keepalive? ==> e.now - LastSign(options, evs[..i]) <= 15_000_000)
  }

  lemma HealthyStep(options: bool, s: Session, e: Event)
    requires s.phase.Connected? && !e.Made? && !e.TransportLost? && !e.Error? && !e.Close? && !IsRefusal(e)
    requires e.Keepalive? ==> e.now - s.lastPong <= 15_000_000
    ensures var s' := Step(options, s, e); s'.phase.Connected? && Lifecycle(s'.calls) == Lifecycle(s.calls)
  {
    if e.Received? {
      LifecycleAppend(s.calls, VoiceReceived(e.data));
    }
  }

  /** Main result: from when it is connected, a healthy session stays connected and reports no loss. */
  lemma {:induction false} HealthyStaysConnected(options: bool, evs: seq<Event>, n: nat)
    requires Ordinary(evs) && Standing(evs) && n <= |evs| && Run(options, evs[..n]).phase.Connected?
    requires forall i :: n <= i < |evs| ==> Healthy(options, evs, i)
    ensures var s, s' := Run(options, evs[..n]), Run(options, evs);
      s'.phase.Connected? && Lifecycle(s'.calls) == Lifecycle(s.calls)
  {
    hide Step, Lifecycle;
    if n == |evs| {
      assert evs[..n] == evs;
    } else {
      var pre, e := evs[..|evs| - 1], evs[|evs| - 1];
      assert pre[..n] == evs[..n];
      forall i | n <= i < |pre| ensures Healthy(options, pre, i) {
        assert pre[..i] == evs[..i] && Healthy(options, evs, i);
      }
      HealthyStaysConnected(options, pre, n);
      SignsAreKept(options, pre);
      assert Healthy(options, evs, |pre|);
      HealthyStep(options, Run(options, pre), e);
    }
  }

  /**
   Main result: while connected, the last sign is at most 15 s older than the last keepalive turn;
   with a turn every 5 s, at most 20 s old.
   */
  lemma ConnectedHasRecentSign(options: bool, evs: seq<Event>, now: Time)
    requires Ordinary(evs) && Standing(evs) && Rising(evs) && Run(options, evs).phase.Connected?
    ensures now - LastSign(options, evs) <= 15_000_000 + (now - LastTurn(options, evs))
    ensures now - LastTurn(options, evs) <= 5_000_000 ==> now - LastSign(options, evs) <= 20_000_000
  {
    hide Run, LastSign, LastTurn;
    SignsAreKept(options, evs);
    AlwaysInv(options, evs);
  }

  /** The event ends a session: an error, a refusal, a closing, or a keepalive turn that finds it silent. */
  predicate Ends(options: bool, evs: seq<Event>, e: Event) {
    || e.Error? || e.Close? || IsRefusal(e)
    || (e.Keepalive? && Run(options, evs).phase.Connected? && e.now - LastSign(options, evs) > 15_000_000)
  }

  /** Main result: such events, in whatever phase they find it, and only they, end a session. */
  lemma EndsExactlyWhen(options: bool, evs: seq<Event>, e: Event)
    requires Ordinary(evs) && Standing(evs) && Rising(evs) && !e.Made? && !Run(options, evs).phase.Disconnected?
    ensures Step(options, Run(options, evs), e).phase.Disconnected? <==> Ends(options, evs, e)
  {
    hide Run, LastSign, Inv;
    SignsAreKept(options, evs);
    AlwaysInv(options, evs);
    NotPinging(options, Run(options, evs), ClockAfter(evs));
    if IsRefusal(e) {
      RefusalIsNoOther(e.data);
    }
  }

  lemma NotPinging(options: bool, s: Session, clock: Time)
    requires Inv(options, s, clock)
    ensures s.pinging ==> s.phase.Connected?
  {
  }

  lemma RefusalIsNoOther(data: Bytes)
    requires NAK <= data || CLOSE <= data
    ensures |data| >= 4 && !(ACK <= data) && !(PONG <= data)
  {
    assert NAK[0] == CLOSE[0] == 0x4D && (data[3] == NAK[3] || data[3] == CLOSE[3]);
    assert ACK[0] != 0x4D && PONG[3] != NAK[3] && PONG[3] != CLOSE[3];
  }

  lemma StaysLost(options: bool, s: Session, e: Event)
    requires (s.phase.Connected? || s.phase.Disconnected?) && !s.pinging && !e.Made?
    ensures var s' := Step(options, s, e);
      && (s'.phase.Connected? || s'.phase.Disconnected?) && !s'.pinging && PingsIn(s'.sent) == PingsIn(s.sent)
  {
    hide PingsIn;
    SentGrows(s.sent, RPTCL);
    if e.UserTraffic? {
      SentGrows(s.sent, DMRD(e.data));
    }
  }

  /** Main result: once its transport is lost, a connected session pings no more, whatever follows. */
  lemma {:induction false} LostPingsNoMore(options: bool, evs: seq<Event>, more: seq<Event>)
    requires Ordinary(more) && Run(options, evs).phase.Connected?
    ensures var s := Run(options, evs + [TransportLost] + more);
      && (s.phase.Connected? || s.phase.Disconnected?) && !s.pinging
      && PingsIn(s.sent) == PingsIn(Run(options, evs).sent)
  {
    hide PingsIn;
    RunGrows(options, evs, TransportLost);
    hide Step;
    if more == [] {
      assert evs + [TransportLost] + more == evs + [TransportLost];
      StopsPinging(options, Run(options, evs));
    } else {
      var pre, e := more[..|more| - 1], more[|more| - 1];
      LostPingsNoMore(options, evs, pre);
      assert evs + [TransportLost] + more == (evs + [TransportLost] + pre) + [e];
      RunGrows(options, evs + [TransportLost] + pre, e);
      StaysLost(options, Run(options, evs + [TransportLost] + pre), e);
    }
  }

  lemma StopsPinging(options: bool, s: Session)
    ensures Step(options, s, TransportLost) == s.(pinging := false)
  {
  }

  // ------------------------------------------------------------------
  // The handshake
  // ------------------------------------------------------------------

  /** The acknowledgements that count: the first must carry a salt. */
  function Acks(evs: seq<Event>): nat {
    if evs == [] then 0
    else
      var n, e := Acks(evs[..|evs| - 1]), evs[|evs| - 1];
      if IsAck(e) && (n > 0 || |e.data| >= 10) then n + 1 else n
  }

  /** Nothing but datagrams that refuse nothing, and user traffic. */
  predicate Undisturbed(evs: seq<Event>) {
    forall i :: 0 <= i < |evs| ==> (evs[i].Received? && !IsRefusal(evs[i])) || evs[i].UserTraffic?
  }

  function PhaseAfter(options: bool, acks: nat): Phase {
    if acks == 0 then Login
    else if acks == 1 then AuthSent
    else if acks == 2 then ConfigSent
    else if acks == 3 && options then OptionsSent
    else Connected
  }

  /**
   Main result: an undisturbed handshake goes one phase on with each acknowledgement, and is
   connected after 3, or 4 with options.
   */
  lemma {:induction false} HandshakeCompletes(options: bool, evs: seq<Event>)
    requires Undisturbed(evs)
    ensures Run(options, evs).phase == PhaseAfter(options, Acks(evs))
  {
    hide Step;
    if evs == [] {
      NotYetConnected(options);
    } else {
      HandshakeCompletes(options, evs[..|evs| - 1]);
      AckSteps(options, Run(options, evs[..|evs| - 1]), evs[|evs| - 1]);
    }
  }

  lemma AckSteps(options: bool, s: Session, e: Event)
    requires (e.Received? && !IsRefusal(e)) || e.UserTraffic?
    ensures var p := Step(options, s, e).phase;
      if IsAck(e) then
        match s.phase
        case Login => p == if |e.data| >= 10 then AuthSent else Login
        case AuthSent => p == ConfigSent
        case ConfigSent => p == if options then OptionsSent else Connected
        case OptionsSent => p == Connected
        case _ => p == s.phase
      else p == s.phase
  {
  }

  /** The salt of the first acknowledgement that carries one. */
  function Challenge(evs: seq<Event>): Option<Bytes> {
    if evs == [] then None
    else
      var before, e := Challenge(evs[..|evs| - 1]), evs[|evs| - 1];
      if before.None? && IsAck(e) && |e.data| >= 10 then Some(e.data[6..10]) else before
  }

  /** Before the challenge nothing is answered; afterwards only it. */
  ghost predicate Answers(s: Session, challenge: Option<Bytes>) {
    && (s.phase.Login? ==> challenge.None?)
    && (forall i :: 0 <= i < |s.sent| && s.sent[i].RPTK? ==> challenge == Some(s.sent[i].salt))
  }

  lemma StepAnswers(options: bool, s: Session, e: Event, before: Option<Bytes>)
    requires Answers(s, before) && !e.Made?
    ensures Answers(Step(options, s, e), if before.None? && IsAck(e) && |e.data| >= 10 then Some(e.data[6..10])
      else before)
  {
  }

  lemma {:induction false} AnswersAlways(options: bool, evs: seq<Event>)
    requires Ordinary(evs)
    ensures Answers(Run(options, evs), Challenge(evs))
  {
    hide Step, Answers;
    if evs == [] {
      NothingAnswered(options);
    } else {
      AnswersAlways(options, evs[..|evs| - 1]);
      StepAnswers(options, Run(options, evs[..|evs| - 1]), evs[|evs| - 1], Challenge(evs[..|evs| - 1]));
    }
  }

  lemma NothingAnswered(options: bool)
    ensures Answers(Run(options, []), None)
  {
    NotYetConnected(options);
  }

  /** Main result: the salt an RPTK answers is bytes 6 to 9 of the first RPTACK that carries one. */
  lemma SaltIsTheChallenge(options: bool, evs: seq<Event>, i: nat)
    requires Ordinary(evs) && i < |Run(options, evs).sent| && Run(options, evs).sent[i].RPTK?
    ensures Challenge(evs) == Some(Run(options, evs).sent[i].salt)
  {
    AnswersAlways(options, evs);
  }

  // ------------------------------------------------------------------
  // Voice
  // ------------------------------------------------------------------

  /** The DMRDs received while connected. */
  function VoiceIn(options: bool, evs: seq<Event>): seq<Bytes> {
    if evs == [] then []
    else
      var pre, e := evs[..|evs| - 1], evs[|evs| - 1];
      VoiceIn(options, pre) + if IsVoice(e) && Run(options, pre).phase.Connected? then [e.data] else []
  }

  /** The DMRDs handed to the translator. */
  function VoiceOut(calls: seq<Call>): seq<Bytes> {
    if calls == [] then []
    else VoiceOut(calls[..|calls| - 1]) + if calls[|calls| - 1].VoiceReceived? then [calls[|calls| - 1].data] else []
  }

  lemma VoiceOutGrows(calls: seq<Call>, x: Call)
    ensures VoiceOut(calls + [x]) == VoiceOut(calls) + if x.VoiceReceived? then [x.data] else []
  {
    assert (calls + [x])[..|calls|] == calls;
  }

  lemma VoiceIsNoOther(data: Bytes)
    requires VOICE <= data
    ensures !(ACK <= data) && !(NAK <= data) && !(CLOSE <= data) && !(PONG <= data)
  {
    assert data[0] == VOICE[0];
    assert ACK[0] != VOICE[0] && NAK[0] != VOICE[0] && CLOSE[0] != VOICE[0] && PONG[0] != VOICE[0];
  }

  lemma StepVoice(options: bool, s: Session, e: Event)
    ensures VoiceOut(Step(options, s, e).calls)
         == VoiceOut(s.calls) + if IsVoice(e) && s.phase.Connected? then [e.data] else []
  {
    hide VoiceOut;
    VoiceOutGrows(s.calls, HbpConnected);
    VoiceOutGrows(s.calls, HbpDisconnected);
    if e.Received? {
      VoiceOutGrows(s.calls, VoiceReceived(e.data));
      if IsVoice(e) {
        VoiceIsNoOther(e.data);
      }
    }
  }

  /** Main result: the translator is handed exactly the DMRDs received while connected, in order. */
  lemma {:induction false} VoiceIsHandedOn(options: bool, evs: seq<Event>)
    ensures VoiceOut(Run(options, evs).calls) == VoiceIn(options, evs)
  {
    hide Step;
    if evs == [] {
      NotYetConnected(options);
    } else {
      VoiceIsHandedOn(options, evs[..|evs| - 1]);
      StepVoice(options, Run(options, evs[..|evs| - 1]), evs[|evs| - 1]);
    }
  }

  // ------------------------------------------------------------------
  // Pings and goodbyes
  // ------------------------------------------------------------------

  /** The messages of a kind among what is sent. */
  function PingsIn(ms: seq<Msg>): nat {
    if ms == [] then 0 else PingsIn(ms[..|ms| - 1]) + if ms[|ms| - 1].RPTPING? then 1 else 0
  }

  function GoodbyesIn(ms: seq<Msg>): nat {
    if ms == [] then 0 else GoodbyesIn(ms[..|ms| - 1]) + if ms[|ms| - 1].RPTCL? then 1 else 0
  }

  /** The keepalive turns, and the closings with a goodbye, of a connected session. */
  function TurnsOf(options: bool, evs: seq<Event>): nat {
    if evs == [] then 0
    else
      TurnsOf(options, evs[..|evs| - 1])
      + if evs[|evs| - 1].Keepalive? && Run(options, evs[..|evs| - 1]).phase.Connected? then 1 else 0
  }

  function ClosingsOf(options: bool, evs: seq<Event>): nat {
    if evs == [] then 0
    else
      ClosingsOf(options, evs[..|evs| - 1])
      + if evs[|evs| - 1] == Close(true) && Run(options, evs[..|evs| - 1]).phase.Connected? then 1 else 0
  }

  lemma SentGrows(ms: seq<Msg>, m: Msg)
    ensures PingsIn(ms + [m]) == PingsIn(ms) + if m.RPTPING? then 1 else 0
    ensures GoodbyesIn(ms + [m]) == GoodbyesIn(ms) + if m.RPTCL? then 1 else 0
  {
    assert (ms + [m])[..|ms|] == ms;
  }

  lemma StepSends(options: bool, s: Session, e: Event)
    requires !e.Made? && (s.phase.Connected? ==> s.open && s.pinging) && (s.pinging ==> s.phase.Connected?)
    ensures var s' := Step(options, s, e);
      && PingsIn(s'.sent) == PingsIn(s.sent) + (if e.Keepalive? && s.phase.Connected? then 1 else 0)
      && GoodbyesIn(s'.sent) == GoodbyesIn(s.sent) + (if e == Close(true) && s.phase.Connected? then 1 else 0)
  {
    hide PingsIn, GoodbyesIn;
    SentGrows(s.sent, RPTC);
    SentGrows(s.sent, RPTO);
    SentGrows(s.sent, RPTPING);
    SentGrows(s.sent, RPTCL);
    match e
    case Received(data, _) =>
      if |data| >= 10 {
        SentGrows(s.sent, RPTK(data[6..10]));
      }
    case UserTraffic(data) => SentGrows(s.sent, DMRD(data));
    case _ =>
  }

  /**
   Main result: a session pings once per keepalive turn while connected, and says goodbye once,
   exactly if it is closed with one while connected.
   */
  lemma {:induction false} PingsAndGoodbyes(options: bool, evs: seq<Event>)
    requires Ordinary(evs) && Standing(evs) && Rising(evs)
    ensures var s := Run(options, evs);
      PingsIn(s.sent) == TurnsOf(options, evs) && GoodbyesIn(s.sent) == ClosingsOf(options, evs)
  {
    hide Step, PingsIn, GoodbyesIn;
    if evs == [] {
      NotYetConnected(options);
      NothingSaid();
    } else {
      var pre := evs[..|evs| - 1];
      PingsAndGoodbyes(options, pre);
      SignsAreKept(options, pre);
      AlwaysInv(options, pre);
      StepSends(options, Run(options, pre), evs[|evs| - 1]);
    }
  }

  lemma NothingSaid()
    ensures PingsIn([RPTL]) == 0 && GoodbyesIn([RPTL]) == 0
  {
    assert [RPTL][..0] == [];
  }
}
