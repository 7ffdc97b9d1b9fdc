/**
 The whole bridge: an IPSC stack, the translator and the HBP client as one machine.  The stacks'
 calls become the translator's events, the translator's commands and DMRDs reach the client, and
 whether a side is up is read off that side.
 */
module Bridge {
  import opened Prelude
  import opened Wire
  import opened Packets
  import opened CallModel
  import opened Frames
  import opened Runs
  import Pacer = PacerLaws
  import S = HbpSession
  import H = HbpClient
  import T = CallTranslator
  import PeerList
  import PeerModel
  import PeerTable
  import MasterStack

  /** The IPSC side, in either mode. */
  datatype Ipsc =
    | PeerSide(pc: PeerModel.Config, p: PeerModel.Peer)
    | MasterSide(mc: MasterStack.Config, m: MasterStack.Master)
  {
    function Calls(): seq<PeerModel.Call> {
      if PeerSide? then p.calls else m.calls
    }

    predicate Registered() {
      if PeerSide? then p.registered else m.repeater.Some?
    }
  }

  datatype IpscEvent = ToPeer(p: PeerModel.Event) | ToMaster(m: MasterStack.Event)

  function IpscStep(i: Ipsc, e: IpscEvent): Ipsc {
    match (i, e)
    case (PeerSide(pc, p), ToPeer(e)) => PeerSide(pc, PeerModel.Step(pc, p, e))
    case (MasterSide(mc, m), ToMaster(e)) => MasterSide(mc, MasterStack.Step(mc, m, e))
    case _ => i
  }

  datatype Config = AsPeer(c: CallModel.Config, options: bool, pc: PeerModel.Config)
                  | AsMaster(c: CallModel.Config, options: bool, mc: MasterStack.Config)

  /** log: the events the translator has had; past: what connections before the present one have sent. */
  datatype Sys = Sys(ipsc: Ipsc, tr: State, log: seq<CallModel.Event>, client: H.Client, past: seq<S.Msg>)

  function Initial(w: Config): Sys {
    Sys(if w.AsPeer? then PeerSide(w.pc, PeerModel.Initial(w.pc)) else MasterSide(w.mc, MasterStack.INITIAL),
        CallModel.INITIAL, [], if w.c.tracking then H.INITIAL else H.Activate(H.INITIAL), [])
  }

  function NewOf<A(==)>(before: seq<A>, after: seq<A>): seq<A> {
    if before <= after then after[|before|..] else []
  }

  predicate Connected(k: H.Client) {
    k.session.Some? && k.session.value.phase.Connected?
  }

  /** The client is handed DMRDs. */
  function SendAll(options: bool, k: H.Client, ds: seq<Tagged>): H.Client {
    if ds == [] then k
    else H.Step(options, SendAll(options, k, ds[..|ds| - 1]), H.OnSession(S.UserTraffic(ds[|ds| - 1].dmrd.Bytes())))
  }

  /** The translator takes an event, and its new DMRDs go to the client. */
  function Tell(w: Config, y: Sys, e: CallModel.Event): Sys {
    var tr' := CallModel.Step(w.c, y.tr, e);
    y.(tr := tr', log := y.log + [e], client := SendAll(w.options, y.client, NewOf(y.tr.sh.dmrds, tr'.sh.dmrds)))
  }

  /** The event a call of the IPSC stack is to the translator. */
  function TellCall(w: Config, y: Sys, call: PeerModel.Call, now: Time, nonce: Bytes): Sys {
    match call
    case PeerRegistered => y
    case PeerLost => Tell(w, y, PeerLost(now))
    case Voice(data, ts, burst) => Tell(w, y, IpscPacket(ts, data, burst, Connected(y.client), now, nonce))
    case CheckTimeouts => Tell(w, y, Watchdog(now))
  }

  /** What the translator makes of a call of the IPSC stack; in TRACKING mode it commands the client. */
  function HearCall(w: Config, y: Sys, call: PeerModel.Call, now: Time, nonce: Bytes): Sys {
    var y := TellCall(w, y, call, now, nonce);
    if w.c.tracking then y.(client := H.ObeyAll(y.client, H.CommandsFor([call]))) else y
  }

  function HearCalls(w: Config, y: Sys, calls: seq<PeerModel.Call>, now: Time, nonce: Bytes): Sys {
    if calls == [] then y
    else HearCall(w, HearCalls(w, y, calls[..|calls| - 1], now, nonce), calls[|calls| - 1], now, nonce)
  }

  /** What the translator makes of the calls of the HBP session. */
  function HearSession(w: Config, y: Sys, calls: seq<S.Call>, now: Time, seq0: nat, ts0: nat): Sys {
    if calls == [] then y
    else
      var y := HearSession(w, y, calls[..|calls| - 1], now, seq0, ts0);
      match calls[|calls| - 1]
      case HbpConnected => y
      case HbpDisconnected => Tell(w, y, HbpLost(now))
      case VoiceReceived(data) => Tell(w, y, HbpPacket(data, y.ipsc.Registered(), now, seq0, ts0))
  }

  datatype Event =
    | FromIpsc(i: IpscEvent, now: Time, nonce: Bytes)
    | FromHbp(h: S.Event, now: Time, seq0: nat, ts0: nat)
    | Turn(t: H.Event)
    | TimerFires(ts: Timeslot, now: Time, later: Time)

  /** What reaches a session from outside; the rest comes from the client and the translator. */
  predicate External(e: S.Event) {
    e.Received? || e.Keepalive? || e.Error?
  }

  function SessionSent(k: H.Client): seq<S.Msg> {
    if k.session.Some? then k.session.value.sent else []
  }

  function SessionCalls(k: H.Client): seq<S.Call> {
    if k.session.Some? then k.session.value.calls else []
  }

  /** A turn of the client; a session it replaces or forgets is past. */
  function TakeTurn(w: Config, y: Sys, e: H.Event): Sys {
    var k' := H.Step(w.options, y.client, e);
    var drops := e.ConnectionLost? || (e.EndpointReady? && y.client.task.Creating?);
    y.(client := k', past := if drops then y.past + SessionSent(y.client) else y.past)
  }

  function Step(w: Config, y: Sys, e: Event): Sys {
    match e
    case FromIpsc(i, now, nonce) =>
      var ipsc' := IpscStep(y.ipsc, i);
      HearCalls(w, y.(ipsc := ipsc'), NewOf(y.ipsc.Calls(), ipsc'.Calls()), now, nonce)
    case FromHbp(h, now, seq0, ts0) =>
      if !External(h) then y
      else
        var k' := H.Step(w.options, y.client, H.OnSession(h));
        HearSession(w, y.(client := k'), NewOf(SessionCalls(y.client), SessionCalls(k')), now, seq0, ts0)
    case Turn(t) => if t.OnSession? then y else TakeTurn(w, y, t)
    case TimerFires(ts, now, later) => Tell(w, y, DrainFires(ts, now, later))
  }

  function Run(w: Config, evs: seq<Event>): Sys {
    if evs == [] then Initial(w) else Step(w, Run(w, evs[..|evs| - 1]), evs[|evs| - 1])
  }

  // ------------------------------------------------------------------
  // The translator's part is a run of the translator
  // ------------------------------------------------------------------

  /** The translator is where its events lead. */
  predicate Logged(w: Config, y: Sys) {
    y.tr == CallModel.Run(w.c, y.log)
  }

  lemma TellLogs(w: Config, y: Sys, e: CallModel.Event)
    requires Logged(w, y)
    ensures Logged(w, Tell(w, y, e))
  {
    hide CallModel.Step, SendAll;
    assert (y.log + [e])[..|y.log|] == y.log;
  }

  lemma TellCallLogs(w: Config, y: Sys, call: PeerModel.Call, now: Time, nonce: Bytes)
    requires Logged(w, y)
    ensures Logged(w, TellCall(w, y, call, now, nonce))
  {
    hide Tell, CallModel.Run;
    match call
    case PeerRegistered =>
    case PeerLost => TellLogs(w, y, PeerLost(now));
    case Voice(data, ts, burst) => TellLogs(w, y, IpscPacket(ts, data, burst, Connected(y.client), now, nonce));
    case CheckTimeouts => TellLogs(w, y, Watchdog(now));
  }

  lemma {:induction false} CallsLog(w: Config, y: Sys, calls: seq<PeerModel.Call>, now: Time, nonce: Bytes)
    requires Logged(w, y)
    ensures Logged(w, HearCalls(w, y, calls, now, nonce))
  {
    hide TellCall, CallModel.Run, H.ObeyAll, H.CommandsFor;
    if calls != [] {
      CallsLog(w, y, calls[..|calls| - 1], now, nonce);
      TellCallLogs(w, HearCalls(w, y, calls[..|calls| - 1], now, nonce), calls[|calls| - 1], now, nonce);
    }
  }

  lemma {:induction false} SessionLogs(w: Config, y: Sys, calls: seq<S.Call>, now: Time, seq0: nat, ts0: nat)
    requires Logged(w, y)
    ensures Logged(w, HearSession(w, y, calls, now, seq0, ts0))
  {
    hide Tell, CallModel.Run;
    if calls != [] {
      SessionLogs(w, y, calls[..|calls| - 1], now, seq0, ts0);
      var z := HearSession(w, y, calls[..|calls| - 1], now, seq0, ts0);
      match calls[|calls| - 1]
      case HbpConnected =>
      case HbpDisconnected => TellLogs(w, z, HbpLost(now));
      case VoiceReceived(data) => TellLogs(w, z, HbpPacket(data, z.ipsc.Registered(), now, seq0, ts0));
    }
  }

  /**
   Main result: in every run of the bridge the translator is in a run of its own, so all that holds
   of those holds.
   */
  lemma {:induction false} TranslatorRuns(w: Config, evs: seq<Event>)
    ensures var y := Run(w, evs); y.tr == CallModel.Run(w.c, y.log)
  {
    hide Tell, CallModel.Run, IpscStep, H.Step, HearCalls, HearSession;
    if evs == [] {
      NothingLogged(w.c);
    } else {
      var y, e := Run(w, evs[..|evs| - 1]), evs[|evs| - 1];
      TranslatorRuns(w, evs[..|evs| - 1]);
      match e
      case FromIpsc(i, now, nonce) =>
        var ipsc' := IpscStep(y.ipsc, i);
        CallsLog(w, y.(ipsc := ipsc'), NewOf(y.ipsc.Calls(), ipsc'.Calls()), now, nonce);
      case FromHbp(h, now, seq0, ts0) =>
        var k' := H.Step(w.options, y.client, H.OnSession(h));
        SessionLogs(w, y.(client := k'), NewOf(SessionCalls(y.client), SessionCalls(k')), now, seq0, ts0);
      case Turn(t) =>
      case TimerFires(ts, now, later) => TellLogs(w, y, DrainFires(ts, now, later));
    }
  }

  lemma NothingLogged(c: CallModel.Config)
    ensures CallModel.Run(c, []) == CallModel.INITIAL
  {
  }

  // ------------------------------------------------------------------
  // TRACKING mode
  // ------------------------------------------------------------------

  ghost predicate Coupled(i: Ipsc) {
    && PeerTable.Alternates(PeerTable.RegTrace(i.Calls()))
    && i.Registered() == (|PeerTable.RegTrace(i.Calls())| % 2 == 1)
    && (i.PeerSide? ==> PeerTable.Sound(i.pc, i.p.peers) && PeerTable.Coupled(i.p))
    && (i.MasterSide? ==> MasterStack.Coupled(i.m))
  }

  lemma IpscStepCouples(i: Ipsc, e: IpscEvent)
    requires Coupled(i)
    ensures Coupled(IpscStep(i, e))
  {
    hide PeerModel.Step, MasterStack.Step, PeerTable.RegTrace;
    match (i, e)
    case (PeerSide(pc, p), ToPeer(e)) => PeerTable.StepKeeps(pc, p, e);
    case (MasterSide(mc, m), ToMaster(e)) => MasterStack.StepCouples(mc, m, e);
    case _ =>
  }

  /** The stacks only add to their calls, and never fall silent about a loss. */
  lemma IpscCallsGrow(i: Ipsc, e: IpscEvent)
    ensures i.Calls() <= IpscStep(i, e).Calls()
    ensures i.Registered() && !IpscStep(i, e).Registered() ==>
      var news := NewOf(i.Calls(), IpscStep(i, e).Calls()); news != [] && news[|news| - 1].PeerLost?
  {
    hide PeerModel.Step, MasterStack.Step;
    match (i, e)
    case (PeerSide(pc, p), ToPeer(e)) => PeerCallsGrow(pc, p, e);
    case (MasterSide(mc, m), ToMaster(e)) => MasterCallsGrow(mc, m, e);
    case _ =>
  }

  /** Calls are only added; losing the registration adds PeerLost. */
  predicate Grows(before: seq<PeerModel.Call>, after: seq<PeerModel.Call>, lost: bool) {
    before <= after && (lost ==> after != before && after[|after| - 1].PeerLost?)
  }

  lemma ListKeepsCalls(c: PeerModel.Config, p: PeerModel.Peer, data: Bytes)
    ensures var q := PeerModel.ListReply(c, p, data); q.calls == p.calls && q.registered == p.registered
  {
    hide PeerModel.ApplyList, PeerList.Payload, PeerList.ParseEntries;
  }

  lemma MasterPacketGrows(c: PeerModel.Config, p: PeerModel.Peer, data: Bytes, opcode: byte)
    ensures var q := PeerModel.MasterPacket(c, p, data, opcode); Grows(p.calls, q.calls, p.registered && !q.registered)
  {
    hide PeerModel.ListReply, PeerModel.AllDisconnected;
    ListKeepsCalls(c, p, data);
  }

  lemma PeerPacketGrows(p: PeerModel.Peer, id: nat, data: Bytes, opcode: byte)
    requires id in p.peers
    ensures var q := PeerModel.PeerPacket(p, id, data, opcode); p.calls <= q.calls && q.registered == p.registered
  {
  }

  lemma PeerCallsGrow(c: PeerModel.Config, p: PeerModel.Peer, e: PeerModel.Event)
    ensures var q := PeerModel.Step(c, p, e); Grows(p.calls, q.calls, p.registered && !q.registered)
  {
    hide PeerModel.TickAll, PeerModel.AllDisconnected, PeerModel.MasterPacket, PeerModel.PeerPacket,
         PeerModel.AcceptedEntry, PeerModel.FromMaster, PeerModel.Accepted;
    match e
    case Received(data, ip, port, now) =>
      if data != [] {
        var id, opcode := PeerModel.SourceId(data), data[0];
        MasterPacketGrows(c, PeerModel.TouchMaster(p, id, ip, port, now), data, opcode);
        var q := p.(peers := p.peers[id := PeerModel.AcceptedEntry(p, id, ip, port, now)]);
        PeerPacketGrows(q, id, data, opcode);
      }
    case _ =>
  }

  lemma MasterCallsGrow(c: MasterStack.Config, m: MasterStack.Master, e: MasterStack.Event)
    ensures var q := MasterStack.Step(c, m, e); Grows(m.calls, q.calls, m.repeater.Some? && q.repeater.None?)
  {
    hide MasterStack.ListPacket;
  }


  lemma {:induction false} SendAllFollows(options: bool, k: H.Client, ds: seq<Tagged>, t: seq<bool>)
    requires H.Follows(k, t)
    ensures H.Follows(SendAll(options, k, ds), t)
  {
    hide H.Step, H.Follows;
    if ds != [] {
      SendAllFollows(options, k, ds[..|ds| - 1], t);
      H.OwnTurnFollows(options, SendAll(options, k, ds[..|ds| - 1]),
                       H.OnSession(S.UserTraffic(ds[|ds| - 1].dmrd.Bytes())), t);
    }
  }

  lemma TellFollows(w: Config, y: Sys, e: CallModel.Event, t: seq<bool>)
    requires H.Follows(y.client, t)
    ensures H.Follows(Tell(w, y, e).client, t)
  {
    hide CallModel.Step, H.Follows, SendAll;
    var tr' := CallModel.Step(w.c, y.tr, e);
    SendAllFollows(w.options, y.client, NewOf(y.tr.sh.dmrds, tr'.sh.dmrds), t);
  }

  lemma TellCallFollows(w: Config, y: Sys, call: PeerModel.Call, now: Time, nonce: Bytes, t: seq<bool>)
    requires H.Follows(y.client, t)
    ensures H.Follows(TellCall(w, y, call, now, nonce).client, t)
  {
    hide Tell, H.Follows;
    match call
    case PeerRegistered =>
    case PeerLost => TellFollows(w, y, PeerLost(now), t);
    case Voice(data, ts, burst) => TellFollows(w, y, IpscPacket(ts, data, burst, Connected(y.client), now, nonce), t);
    case CheckTimeouts => TellFollows(w, y, Watchdog(now), t);
  }

  lemma HearCallFollows(w: Config, y: Sys, call: PeerModel.Call, now: Time, nonce: Bytes, calls: seq<PeerModel.Call>)
    requires w.c.tracking && H.Follows(y.client, PeerTable.RegTrace(calls))
    requires PeerTable.Alternates(PeerTable.RegTrace(calls + [call]))
    ensures H.Follows(HearCall(w, y, call, now, nonce).client, PeerTable.RegTrace(calls + [call]))
    ensures PeerTable.Alternates(PeerTable.RegTrace(calls))
  {
    hide TellCall, H.ObeyAll, H.CommandsFor, H.Follows, PeerTable.RegTrace;
    var t, t' := PeerTable.RegTrace(calls), PeerTable.RegTrace(calls + [call]);
    PeerTable.TraceAppend(calls, call);
    assert t == t'[..|t|];
    assert |t'| > |t| ==> t'[|t|] == (|t| % 2 == 0);
    TellCallFollows(w, y, call, now, nonce, t);
    H.CallFollows(TellCall(w, y, call, now, nonce).client, call, t);
    assert t' == t + if call.PeerRegistered? then [true] else if call.PeerLost? then [false] else [];
  }

  lemma TracePrefix(calls: seq<PeerModel.Call>, call: PeerModel.Call)
    requires PeerTable.Alternates(PeerTable.RegTrace(calls + [call]))
    ensures PeerTable.Alternates(PeerTable.RegTrace(calls))
  {
    hide PeerTable.RegTrace;
    PeerTable.TraceAppend(calls, call);
    var t, t' := PeerTable.RegTrace(calls), PeerTable.RegTrace(calls + [call]);
    assert forall i :: 0 <= i < |t| ==> t[i] == t'[i];
  }

  lemma {:induction false} HearCallsFollows(w: Config, y: Sys, news: seq<PeerModel.Call>, now: Time, nonce: Bytes,
                                            calls: seq<PeerModel.Call>)
    requires w.c.tracking && H.Follows(y.client, PeerTable.RegTrace(calls))
    requires PeerTable.Alternates(PeerTable.RegTrace(calls + news))
    ensures H.Follows(HearCalls(w, y, news, now, nonce).client, PeerTable.RegTrace(calls + news))
  {
    hide HearCall, H.Follows, PeerTable.RegTrace, PeerTable.Alternates;
    if news == [] {
      assert calls + news == calls;
    } else {
      var pre, call := news[..|news| - 1], news[|news| - 1];
      assert calls + news == (calls + pre) + [call];
      TracePrefix(calls + pre, call);
      HearCallsFollows(w, y, pre, now, nonce, calls);
      HearCallFollows(w, HearCalls(w, y, pre, now, nonce), call, now, nonce, calls + pre);
    }
  }

  lemma {:induction false} HearSessionFollows(w: Config, y: Sys, news: seq<S.Call>, now: Time, seq0: nat, ts0: nat,
                                              t: seq<bool>)
    requires H.Follows(y.client, t)
    ensures H.Follows(HearSession(w, y, news, now, seq0, ts0).client, t)
    ensures HearSession(w, y, news, now, seq0, ts0).ipsc == y.ipsc
  {
    hide CallModel.Step, SendAll, H.Follows;
    if news != [] {
      HearSessionFollows(w, y, news[..|news| - 1], now, seq0, ts0, t);
      var z := HearSession(w, y, news[..|news| - 1], now, seq0, ts0);
      match news[|news| - 1]
      case HbpConnected =>
      case HbpDisconnected => TellFollows(w, z, HbpLost(now), t);
      case VoiceReceived(data) => TellFollows(w, z, HbpPacket(data, z.ipsc.Registered(), now, seq0, ts0), t);
    }
  }

  lemma {:induction false} HearCallsKeepIpsc(w: Config, y: Sys, calls: seq<PeerModel.Call>, now: Time, nonce: Bytes)
    ensures HearCalls(w, y, calls, now, nonce).ipsc == y.ipsc
  {
    hide CallModel.Step, SendAll, H.ObeyAll;
    if calls != [] {
      HearCallsKeepIpsc(w, y, calls[..|calls| - 1], now, nonce);
    }
  }

  ghost predicate InStep(w: Config, y: Sys) {
    Coupled(y.ipsc) && (w.c.tracking ==> H.Follows(y.client, PeerTable.RegTrace(y.ipsc.Calls())))
  }

  lemma StepInStep(w: Config, y: Sys, e: Event)
    requires InStep(w, y)
    ensures InStep(w, Step(w, y, e))
  {
    hide Coupled, H.Follows, H.Step, IpscStep, HearCalls, HearSession, Tell, PeerTable.RegTrace;
    var t := PeerTable.RegTrace(y.ipsc.Calls());
    match e
    case FromIpsc(i, now, nonce) =>
      var ipsc' := IpscStep(y.ipsc, i);
      var news := NewOf(y.ipsc.Calls(), ipsc'.Calls());
      IpscStepCouples(y.ipsc, i);
      IpscCallsGrow(y.ipsc, i);
      assert y.ipsc.Calls() + news == ipsc'.Calls();
      CoupledAlternates(ipsc');
      if w.c.tracking {
        HearCallsFollows(w, y.(ipsc := ipsc'), news, now, nonce, y.ipsc.Calls());
      }
      HearCallsKeepIpsc(w, y.(ipsc := ipsc'), news, now, nonce);
    case FromHbp(h, now, seq0, ts0) =>
      var k' := H.Step(w.options, y.client, H.OnSession(h));
      var news := NewOf(SessionCalls(y.client), SessionCalls(k'));
      HearSessionKeepsIpsc(w, y.(client := k'), news, now, seq0, ts0);
      if w.c.tracking {
        H.OwnTurnFollows(w.options, y.client, H.OnSession(h), t);
        HearSessionFollows(w, y.(client := k'), news, now, seq0, ts0, t);
      }
    case Turn(e') =>
      if w.c.tracking {
        H.OwnTurnFollows(w.options, y.client, e', t);
      }
    case TimerFires(ts, now, later) =>
      TellKeepsIpsc(w, y, DrainFires(ts, now, later));
      if w.c.tracking {
        TellFollows(w, y, DrainFires(ts, now, later), t);
      }
  }

  lemma TellKeepsIpsc(w: Config, y: Sys, e: CallModel.Event)
    ensures Tell(w, y, e).ipsc == y.ipsc
  {
  }

  lemma {:induction false} HearSessionKeepsIpsc(w: Config, y: Sys, news: seq<S.Call>, now: Time, seq0: nat, ts0: nat)
    ensures HearSession(w, y, news, now, seq0, ts0).ipsc == y.ipsc
  {
    hide CallModel.Step, SendAll;
    if news != [] {
      HearSessionKeepsIpsc(w, y, news[..|news| - 1], now, seq0, ts0);
    }
  }

  lemma CoupledAlternates(i: Ipsc)
    requires Coupled(i)
    ensures PeerTable.Alternates(PeerTable.RegTrace(i.Calls()))
    ensures i.Registered() == (|PeerTable.RegTrace(i.Calls())| % 2 == 1)
  {
  }

  lemma {:induction false} AlwaysInStep(w: Config, evs: seq<Event>)
    ensures InStep(w, Run(w, evs))
  {
    hide Step, InStep;
    if evs == [] {
      InitiallyInStep(w);
    } else {
      AlwaysInStep(w, evs[..|evs| - 1]);
      StepInStep(w, Run(w, evs[..|evs| - 1]), evs[|evs| - 1]);
    }
  }

  lemma InitiallyInStep(w: Config)
    ensures InStep(w, Initial(w))
  {
  }

  /**
   Main result: in TRACKING mode, whatever happens, the client is active exactly when IPSC is
   registered, with a live task.
   */
  lemma ActiveExactlyWhenRegistered(w: Config, evs: seq<Event>)
    requires w.c.tracking
    ensures var y := Run(w, evs); y.client.active == y.ipsc.Registered() && H.Inv(y.client)
  {
    hide Run, PeerTable.RegTrace;
    AlwaysInStep(w, evs);
    CoupledAlternates(Run(w, evs).ipsc);
  }

  // ------------------------------------------------------------------
  // Nothing is lost towards HBP
  // ------------------------------------------------------------------

  /** The DMRDs among what a connection sends. */
  function DmrdsOf(ms: seq<S.Msg>): seq<Bytes> {
    if ms == [] then []
    else DmrdsOf(ms[..|ms| - 1]) + if ms[|ms| - 1].DMRD? then [ms[|ms| - 1].data] else []
  }

  function OnWire(ds: seq<Tagged>): (r: seq<Bytes>)
    ensures |r| == |ds|
  {
    seq(|ds|, i requires 0 <= i < |ds| => ds[i].dmrd.Bytes())
  }

  lemma {:induction false} DmrdsAppend(ms: seq<S.Msg>, more: seq<S.Msg>)
    ensures DmrdsOf(ms + more) == DmrdsOf(ms) + DmrdsOf(more)
  {
    if more == [] {
      assert ms + more == ms;
    } else {
      var pre, m := more[..|more| - 1], more[|more| - 1];
      assert (ms + more)[..|ms + more| - 1] == ms + pre && (ms + more)[|ms + more| - 1] == m;
      DmrdsAppend(ms, pre);
    }
  }

  /** A live session has its transport. */
  predicate Open(k: H.Client) {
    k.session.Some? ==> k.session.value.open == !k.session.value.phase.Disconnected?
  }

  /** k' has sent, over the same session, these DMRDs more and no others. */
  ghost predicate SendsOn(k: H.Client, k': H.Client, ds: seq<Bytes>) {
    Open(k') && DmrdsOf(SessionSent(k')) == DmrdsOf(SessionSent(k)) + ds
  }

  lemma ForwardGrows(c: CallModel.Config, ts: Timeslot, r: Res, data: Bytes, burst: byte, now: Time, nonce: Bytes)
    ensures r.sh.dmrds <= IpscForward(c, ts, r, data, burst, now, nonce).sh.dmrds
  {
    hide HeadPayload, TermPayload, AmbeCodec.Assemble, EmbedField;
  }

  lemma SlotDmrdsGrow(c: CallModel.Config, ts: Timeslot, r: Res, e: CallModel.Event)
    ensures r.sh.dmrds <= SlotStep(c, ts, r, e).sh.dmrds
    ensures !(e.IpscPacket? && e.up) ==> SlotStep(c, ts, r, e).sh.dmrds == r.sh.dmrds
  {
    hide IpscGate, IpscForward, HbpGate, HbpForward, Drain;
    match e
    case IpscPacket(_, data, burst, _, now, nonce) =>
      ForwardGrows(c, ts, Res(Learn(r.sh, data), IpscGate(c, r.s, data, burst, now).s), data, burst, now, nonce);
    case HbpPacket(dmrd, _, now, seq0, ts0) =>
      if |dmrd| >= DMRD_LEN {
        var b := ParseDmrd(dmrd);
        HbpForwardFrame(c, ts, r.(s := HbpGate(c, r.s, b, now).s), b, now, seq0, ts0);
      }
    case _ =>
  }

  lemma DmrdsGrow(c: CallModel.Config, st: State, e: CallModel.Event)
    ensures st.sh.dmrds <= CallModel.Step(c, st, e).sh.dmrds
    ensures !(e.IpscPacket? && e.up) ==> CallModel.Step(c, st, e).sh.dmrds == st.sh.dmrds
  {
    hide SlotStep;
    var r1 := SlotStep(c, TS1, Res(st.sh, st.one), e);
    SlotDmrdsGrow(c, TS1, Res(st.sh, st.one), e);
    SlotDmrdsGrow(c, TS2, Res(r1.sh, st.two), e);
  }

  lemma OneSends(options: bool, k: H.Client, data: Bytes)
    requires Open(k) && Connected(k)
    ensures var k' := H.Step(options, k, H.OnSession(S.UserTraffic(data)));
      Open(k') && Connected(k') && DmrdsOf(SessionSent(k')) == DmrdsOf(SessionSent(k)) + [data]
  {
    var sent := SessionSent(k);
    assert (sent + [S.DMRD(data)])[..|sent|] == sent;
  }

  lemma OnWireStep(ds: seq<Tagged>)
    requires ds != []
    ensures OnWire(ds) == OnWire(ds[..|ds| - 1]) + [ds[|ds| - 1].dmrd.Bytes()]
  {
    hide Dmrd.Bytes;
  }

  /** A connected client sends every DMRD it is handed. */
  lemma {:induction false} ConnectedSends(options: bool, k: H.Client, ds: seq<Tagged>)
    requires Open(k) && Connected(k)
    ensures var k' := SendAll(options, k, ds); Connected(k') && SendsOn(k, k', OnWire(ds))
  {
    hide H.Step, DmrdsOf, Open, Connected, SessionSent, Dmrd.Bytes;
    if ds == [] {
      assert OnWire(ds) == [];
    } else {
      hide OnWire;
      var pre, data := ds[..|ds| - 1], ds[|ds| - 1].dmrd.Bytes();
      ConnectedSends(options, k, pre);
      OneSends(options, SendAll(options, k, pre), data);
      OnWireStep(ds);
    }
  }

  /** Everything handed over so far has been sent, in order. */
  ghost predicate AllSent(y: Sys) {
    Open(y.client) && DmrdsOf(y.past) + DmrdsOf(SessionSent(y.client)) == OnWire(y.tr.sh.dmrds)
  }

  lemma TellSends(w: Config, y: Sys, e: CallModel.Event)
    requires AllSent(y) && (e.IpscPacket? ==> e.up == Connected(y.client))
    ensures AllSent(Tell(w, y, e))
  {
    hide CallModel.Step, DmrdsOf;
    var ds, ds' := y.tr.sh.dmrds, CallModel.Step(w.c, y.tr, e).sh.dmrds;
    DmrdsGrow(w.c, y.tr, e);
    var news := NewOf(ds, ds');
    if e.IpscPacket? && e.up {
      ConnectedSends(w.options, y.client, news);
      assert ds' == ds + news;
      assert OnWire(ds') == OnWire(ds) + OnWire(news);
      var p, q := DmrdsOf(y.past), DmrdsOf(SessionSent(y.client));
      assert p + (q + OnWire(news)) == (p + q) + OnWire(news);
    } else {
      assert news == [];
    }
  }

  lemma ObeySends(k: H.Client, call: PeerModel.Call)
    requires Open(k)
    ensures SendsOn(k, H.ObeyAll(k, H.CommandsFor([call])), [])
  {
    hide H.ObeyAll, H.CommandsFor;
    H.CommandForOne(k, call);
    DmrdsAppend(SessionSent(k), [S.RPTCL]);
    assert DmrdsOf([S.RPTCL]) == [] by {
      assert [S.RPTCL][..0] == [] && DmrdsOf([]) == [];
    }
  }

  lemma HearCallSends(w: Config, y: Sys, call: PeerModel.Call, now: Time, nonce: Bytes)
    requires AllSent(y)
    ensures AllSent(HearCall(w, y, call, now, nonce))
  {
    hide Tell, H.ObeyAll, H.CommandsFor, DmrdsOf;
    match call {
      case PeerRegistered =>
      case PeerLost => TellSends(w, y, PeerLost(now));
      case Voice(data, ts, burst) => TellSends(w, y, IpscPacket(ts, data, burst, Connected(y.client), now, nonce));
      case CheckTimeouts => TellSends(w, y, Watchdog(now));
    }
    ObeySends(TellCall(w, y, call, now, nonce).client, call);
  }

  lemma {:induction false} HearCallsSend(w: Config, y: Sys, news: seq<PeerModel.Call>, now: Time, nonce: Bytes)
    requires AllSent(y)
    ensures AllSent(HearCalls(w, y, news, now, nonce))
  {
    hide HearCall, AllSent;
    if news != [] {
      HearCallsSend(w, y, news[..|news| - 1], now, nonce);
      HearCallSends(w, HearCalls(w, y, news[..|news| - 1], now, nonce), news[|news| - 1], now, nonce);
    }
  }

  lemma {:induction false} HearSessionSends(w: Config, y: Sys, news: seq<S.Call>, now: Time, seq0: nat, ts0: nat)
    requires AllSent(y)
    ensures AllSent(HearSession(w, y, news, now, seq0, ts0))
  {
    hide Tell, AllSent;
    if news != [] {
      HearSessionSends(w, y, news[..|news| - 1], now, seq0, ts0);
      var z := HearSession(w, y, news[..|news| - 1], now, seq0, ts0);
      match news[|news| - 1]
      case HbpConnected =>
      case HbpDisconnected => TellSends(w, z, HbpLost(now));
      case VoiceReceived(data) => TellSends(w, z, HbpPacket(data, z.ipsc.Registered(), now, seq0, ts0));
    }
  }

  /** A message more that is no DMRD. */
  lemma OtherMessage(ms: seq<S.Msg>, m: S.Msg)
    requires !m.DMRD?
    ensures DmrdsOf(ms + [m]) == DmrdsOf(ms)
  {
    assert (ms + [m])[..|ms|] == ms;
  }

  lemma ExternalSends(options: bool, k: H.Client, h: S.Event)
    requires Open(k) && External(h)
    ensures SendsOn(k, H.Step(options, k, H.OnSession(h)), [])
  {
    hide DmrdsOf;
    if k.session.Some? {
      var sent := k.session.value.sent;
      OtherMessage(sent, S.RPTC);
      OtherMessage(sent, S.RPTO);
      OtherMessage(sent, S.RPTPING);
      if h.Received? && |h.data| >= 10 {
        OtherMessage(sent, S.RPTK(h.data[6..10]));
      }
    }
  }

  lemma TurnSends(w: Config, y: Sys, e: H.Event)
    requires AllSent(y) && !e.OnSession?
    ensures AllSent(TakeTurn(w, y, e))
  {
    DmrdsAppend(y.past, SessionSent(y.client));
    assert DmrdsOf([S.RPTL]) == [] by {
      assert [S.RPTL][..0] == [] && DmrdsOf([]) == [];
    }
    hide DmrdsOf;
  }

  lemma StepSends(w: Config, y: Sys, e: Event)
    requires AllSent(y)
    ensures AllSent(Step(w, y, e))
  {
    hide H.Step, IpscStep, HearCalls, HearSession, Tell, TakeTurn, DmrdsOf;
    match e
    case FromIpsc(i, now, nonce) =>
      var ipsc' := IpscStep(y.ipsc, i);
      HearCallsSend(w, y.(ipsc := ipsc'), NewOf(y.ipsc.Calls(), ipsc'.Calls()), now, nonce);
    case FromHbp(h, now, seq0, ts0) =>
      if External(h) {
        ExternalSends(w.options, y.client, h);
        var k' := H.Step(w.options, y.client, H.OnSession(h));
        HearSessionSends(w, y.(client := k'), NewOf(SessionCalls(y.client), SessionCalls(k')), now, seq0, ts0);
      }
    case Turn(t) =>
      if !t.OnSession? {
        TurnSends(w, y, t);
      }
    case TimerFires(ts, now, later) => TellSends(w, y, DrainFires(ts, now, later));
  }

  /** Main result: the DMRDs sent over all connections are those of the translator, each once and in order. */
  lemma {:induction false} NoDmrdIsLost(w: Config, evs: seq<Event>)
    ensures AllSent(Run(w, evs))
  {
    hide Step, AllSent;
    if evs == [] {
      NothingSent(w);
    } else {
      NoDmrdIsLost(w, evs[..|evs| - 1]);
      StepSends(w, Run(w, evs[..|evs| - 1]), evs[|evs| - 1]);
    }
  }

  lemma NothingSent(w: Config)
    ensures AllSent(Initial(w))
  {
  }

  // ------------------------------------------------------------------
  // Nothing is sent towards IPSC unless it is registered
  // ------------------------------------------------------------------

  predicate Empty(st: State) {
    st.one.pacer.queue == [] && st.two.pacer.queue == []
  }

  /** How many packets a slot has transmitted. */
  function SentOn(s: Slot): nat {
    Pacer.TallyOf(s.hist.departures).sent
  }

  predicate SameSent(st: State, st': State) {
    SentOn(st'.one) == SentOn(st.one) && SentOn(st'.two) == SentOn(st.two)
  }

  lemma {:induction false} ClearedIsNotSent(d: seq<Departure>, q: seq<Gv>, epoch: nat)
    ensures Pacer.TallyOf(d + ClearedDepartures(q, epoch)).sent == Pacer.TallyOf(d).sent
  {
    var cl := ClearedDepartures(q, epoch);
    if q == [] {
      assert d + cl == d;
    } else {
      var n := |q| - 1;
      assert ClearedDepartures(q[..n], epoch) == cl[..n];
      assert (d + cl)[..|d + cl| - 1] == d + cl[..n] && (d + cl)[|d + cl| - 1] == cl[n];
      ClearedIsNotSent(d, q[..n], epoch);
    }
  }

  /** An event that brings no DMRD while IPSC is registered, and fires no scheduled drain, leaves the slot mute. */
  lemma SlotStaysMute(c: CallModel.Config, ts: Timeslot, r: Res, e: CallModel.Event)
    requires !(e.HbpPacket? && e.up) && (e.DrainFires? ==> r.s.pacer.handle.None?)
    ensures var s' := SlotStep(c, ts, r, e).s;
      SentOn(s') == SentOn(r.s) && (r.s.pacer.queue == [] || e.PeerLost? ==> s'.pacer.queue == [])
  {
    hide IpscGate, IpscForward, Pacer.TallyOf;
    match e
    case IpscPacket(_, data, burst, _, now, nonce) =>
      IpscGateFrame(c, r.s, data, burst, now);
      IpscForwardFrame(c, ts, Res(Learn(r.sh, data), IpscGate(c, r.s, data, burst, now).s), data, burst, now, nonce);
    case PeerLost(_) => ClearedIsNotSent(r.s.hist.departures, r.s.pacer.queue, r.s.hist.epoch);
    case HbpLost(_) => ClearedIsNotSent(r.s.hist.departures, r.s.pacer.queue, r.s.hist.epoch);
    case _ =>
  }

  lemma StaysMute(c: CallModel.Config, st: State, e: CallModel.Event)
    requires !(e.HbpPacket? && e.up)
    requires e.DrainFires? ==> st.one.pacer.handle.None? && st.two.pacer.handle.None?
    ensures var st' := CallModel.Step(c, st, e);
      SameSent(st, st') && (Empty(st) || e.PeerLost? ==> Empty(st'))
  {
    hide SlotStep, SentOn;
    var r1 := SlotStep(c, TS1, Res(st.sh, st.one), e);
    SlotStaysMute(c, TS1, Res(st.sh, st.one), e);
    SlotStaysMute(c, TS2, Res(r1.sh, st.two), e);
  }

  lemma TellStaysMute(w: Config, y: Sys, e: CallModel.Event)
    requires !(e.HbpPacket? && e.up)
    requires e.DrainFires? ==> y.tr.one.pacer.handle.None? && y.tr.two.pacer.handle.None?
    ensures var y' := Tell(w, y, e); SameSent(y.tr, y'.tr) && (Empty(y.tr) || e.PeerLost? ==> Empty(y'.tr))
  {
    hide CallModel.Step, SendAll, SameSent, Empty;
    StaysMute(w.c, y.tr, e);
  }

  /** What a call of the IPSC stack makes the translator do. */
  lemma CallStaysMute(w: Config, y: Sys, call: PeerModel.Call, now: Time, nonce: Bytes)
    ensures var y' := HearCall(w, y, call, now, nonce);
      SameSent(y.tr, y'.tr) && (Empty(y.tr) || call.PeerLost? ==> Empty(y'.tr))
  {
    hide Tell, Empty, H.ObeyAll, H.CommandsFor;
    match call
    case PeerRegistered =>
    case PeerLost => TellStaysMute(w, y, PeerLost(now));
    case Voice(data, ts, burst) => TellStaysMute(w, y, IpscPacket(ts, data, burst, Connected(y.client), now, nonce));
    case CheckTimeouts => TellStaysMute(w, y, Watchdog(now));
  }

  lemma {:induction false} CallsStayMute(w: Config, y: Sys, news: seq<PeerModel.Call>, now: Time, nonce: Bytes)
    ensures var y' := HearCalls(w, y, news, now, nonce);
      SameSent(y.tr, y'.tr) && (Empty(y.tr) || (news != [] && news[|news| - 1].PeerLost?) ==> Empty(y'.tr))
  {
    hide HearCall, Empty;
    if news != [] {
      CallsStayMute(w, y, news[..|news| - 1], now, nonce);
      CallStaysMute(w, HearCalls(w, y, news[..|news| - 1], now, nonce), news[|news| - 1], now, nonce);
    }
  }

  lemma {:induction false} SessionStaysMute(w: Config, y: Sys, news: seq<S.Call>, now: Time, seq0: nat, ts0: nat)
    requires !y.ipsc.Registered()
    ensures var y' := HearSession(w, y, news, now, seq0, ts0);
      SameSent(y.tr, y'.tr) && (Empty(y.tr) ==> Empty(y'.tr))
  {
    hide Tell, Empty;
    if news != [] {
      var pre := news[..|news| - 1];
      SessionStaysMute(w, y, pre, now, seq0, ts0);
      var z := HearSession(w, y, pre, now, seq0, ts0);
      HearSessionKeepsIpsc(w, y, pre, now, seq0, ts0);
      match news[|news| - 1]
      case HbpConnected =>
      case HbpDisconnected => TellStaysMute(w, z, HbpLost(now));
      case VoiceReceived(data) => TellStaysMute(w, z, HbpPacket(data, z.ipsc.Registered(), now, seq0, ts0));
    }
  }

  /** Packets wait only while IPSC is registered. */
  predicate WaitsRegistered(y: Sys) {
    y.ipsc.Registered() || Empty(y.tr)
  }

  lemma NoTimers(w: Config, evs: seq<Event>)
    requires Empty(Run(w, evs).tr)
    ensures var tr := Run(w, evs).tr; tr.one.pacer.handle.None? && tr.two.pacer.handle.None?
  {
    hide Run, CallModel.Run;
    TranslatorRuns(w, evs);
    Pacer.PacerAlways(w.c, Run(w, evs).log, TS1);
    Pacer.PacerAlways(w.c, Run(w, evs).log, TS2);
  }

  /** An event that finds IPSC unregistered, or comes from it or the client, transmits nothing. */
  lemma StepStaysMute(w: Config, evs: seq<Event>, e: Event)
    requires WaitsRegistered(Run(w, evs))
    requires e.FromIpsc? || e.Turn? || !Run(w, evs).ipsc.Registered()
    ensures var y, y' := Run(w, evs), Step(w, Run(w, evs), e); SameSent(y.tr, y'.tr) && WaitsRegistered(y')
  {
    var y := Run(w, evs);
    if Empty(y.tr) {
      NoTimers(w, evs);
    }
    hide Run, H.Step, IpscStep, HearCalls, HearSession, Tell, Empty, SentOn;
    match e
    case FromIpsc(i, now, nonce) =>
      var ipsc' := IpscStep(y.ipsc, i);
      IpscCallsGrow(y.ipsc, i);
      var news := NewOf(y.ipsc.Calls(), ipsc'.Calls());
      CallsStayMute(w, y.(ipsc := ipsc'), news, now, nonce);
      HearCallsKeepIpsc(w, y.(ipsc := ipsc'), news, now, nonce);
    case FromHbp(h, now, seq0, ts0) =>
      var k' := H.Step(w.options, y.client, H.OnSession(h));
      var news := NewOf(SessionCalls(y.client), SessionCalls(k'));
      SessionStaysMute(w, y.(client := k'), news, now, seq0, ts0);
      HearSessionKeepsIpsc(w, y.(client := k'), news, now, seq0, ts0);
    case Turn(t) =>
    case TimerFires(ts, now, later) =>
      TellStaysMute(w, y, DrainFires(ts, now, later));
      TellKeepsIpsc(w, y, DrainFires(ts, now, later));
  }

  /** While IPSC stays registered there is nothing to show. */
  lemma RegisteredStays(w: Config, y: Sys, e: Event)
    requires y.ipsc.Registered() && !e.FromIpsc?
    ensures Step(w, y, e).ipsc == y.ipsc
  {
    hide H.Step, HearSession, Tell;
    match e
    case FromHbp(h, now, seq0, ts0) =>
      var k' := H.Step(w.options, y.client, H.OnSession(h));
      HearSessionKeepsIpsc(w, y.(client := k'), NewOf(SessionCalls(y.client), SessionCalls(k')), now, seq0, ts0);
    case TimerFires(ts, now, later) => TellKeepsIpsc(w, y, DrainFires(ts, now, later));
    case _ =>
  }

  /** Main result: in every reachable state of the bridge, packets wait for IPSC only while it is registered. */
  lemma {:induction false} WaitsOnlyWhileRegistered(w: Config, evs: seq<Event>)
    ensures WaitsRegistered(Run(w, evs))
  {
    hide Step, Empty;
    if evs == [] {
      NothingWaits(w);
    } else {
      var pre, e := evs[..|evs| - 1], evs[|evs| - 1];
      WaitsOnlyWhileRegistered(w, pre);
      if e.FromIpsc? || e.Turn? || !Run(w, pre).ipsc.Registered() {
        StepStaysMute(w, pre, e);
      } else {
        RegisteredStays(w, Run(w, pre), e);
      }
    }
  }

  lemma NothingWaits(w: Config)
    ensures WaitsRegistered(Initial(w))
  {
  }

  /**
   Main result: every packet the translator transmits towards IPSC is transmitted while IPSC is
   registered, so none is refused by the stack.
   */
  lemma TransmitsOnlyWhileRegistered(w: Config, evs: seq<Event>, e: Event)
    ensures var y, y' := Run(w, evs), Run(w, evs + [e]);
      !SameSent(y.tr, y'.tr) ==> y.ipsc.Registered() && y'.ipsc.Registered()
  {
    hide Step, SentOn;
    assert (evs + [e])[..|evs|] == evs;
    assert Run(w, evs + [e]) == Step(w, Run(w, evs), e);
    WaitsOnlyWhileRegistered(w, evs);
    if e.FromIpsc? || e.Turn? || !Run(w, evs).ipsc.Registered() {
      StepStaysMute(w, evs, e);
    } else {
      RegisteredStays(w, Run(w, evs), e);
    }
  }

  // ------------------------------------------------------------------
  // The packets are as delivered
  // ------------------------------------------------------------------

  /** A voice call comes with the slot and burst type of its packet. */
  predicate VoiceReads(call: PeerModel.Call) {
    call.Voice? ==> |call.data| >= 31 && call.data[0] == GROUP_VOICE && GvMeta(call.data) == Some((call.ts, call.burst))
  }

  predicate AllRead(calls: seq<PeerModel.Call>) {
    forall i :: 0 <= i < |calls| ==> VoiceReads(calls[i])
  }

  lemma VoiceCallReads(p: PeerModel.Peer, data: Bytes)
    requires AllRead(p.calls) && data != [] && data[0] == GROUP_VOICE
    ensures AllRead(PeerModel.VoiceCall(p, data).calls)
  {
  }

  lemma MasterPacketReads(c: PeerModel.Config, p: PeerModel.Peer, data: Bytes)
    requires AllRead(p.calls) && data != []
    ensures AllRead(PeerModel.MasterPacket(c, p, data, data[0]).calls)
  {
    hide PeerModel.ListReply, PeerModel.AllDisconnected, PeerModel.VoiceCall;
    ListKeepsCalls(c, p, data);
    if data[0] == GROUP_VOICE {
      VoiceCallReads(p, data);
    }
  }

  lemma PeerPacketReads(p: PeerModel.Peer, id: nat, data: Bytes)
    requires AllRead(p.calls) && data != [] && id in p.peers
    ensures AllRead(PeerModel.PeerPacket(p, id, data, data[0]).calls)
  {
    hide PeerModel.VoiceCall;
    if data[0] == GROUP_VOICE {
      VoiceCallReads(p, data);
    }
  }

  lemma PeerCallsRead(c: PeerModel.Config, p: PeerModel.Peer, e: PeerModel.Event)
    requires AllRead(p.calls)
    ensures AllRead(PeerModel.Step(c, p, e).calls)
  {
    hide PeerModel.TickAll, PeerModel.AllDisconnected, PeerModel.MasterPacket, PeerModel.PeerPacket,
         PeerModel.AcceptedEntry, PeerModel.FromMaster, PeerModel.Accepted, VoiceReads;
    match e
    case Received(data, ip, port, now) =>
      if data != [] {
        var id := PeerModel.SourceId(data);
        MasterPacketReads(c, PeerModel.TouchMaster(p, id, ip, port, now), data);
        PeerPacketReads(p.(peers := p.peers[id := PeerModel.AcceptedEntry(p, id, ip, port, now)]), id, data);
      }
    case MaintenanceTick(_) =>
    case WatchdogTick(_) => OthersRead();
  }

  lemma OthersRead()
    ensures VoiceReads(PeerModel.CheckTimeouts) && VoiceReads(PeerModel.PeerLost)
      && VoiceReads(PeerModel.PeerRegistered)
  {
  }

  lemma MasterCallsRead(c: MasterStack.Config, m: MasterStack.Master, e: MasterStack.Event)
    requires AllRead(m.calls)
    ensures AllRead(MasterStack.Step(c, m, e).calls)
  {
    hide MasterStack.ListPacket;
  }

  lemma IpscCallsRead(i: Ipsc, e: IpscEvent)
    requires AllRead(i.Calls())
    ensures AllRead(IpscStep(i, e).Calls())
  {
    hide PeerModel.Step, MasterStack.Step, AllRead;
    match (i, e)
    case (PeerSide(pc, p), ToPeer(e)) => PeerCallsRead(pc, p, e);
    case (MasterSide(mc, m), ToMaster(e)) => MasterCallsRead(mc, m, e);
    case _ =>
  }

  predicate AllDelivered(log: seq<CallModel.Event>) {
    forall i :: 0 <= i < |log| ==> Delivered(log[i])
  }

  lemma {:induction false} CallsAreDelivered(w: Config, y: Sys, news: seq<PeerModel.Call>, now: Time, nonce: Bytes)
    requires AllDelivered(y.log) && AllRead(news) && |nonce| == 4
    ensures AllDelivered(HearCalls(w, y, news, now, nonce).log)
  {
    hide CallModel.Step, SendAll, H.ObeyAll, GvMeta;
    if news != [] {
      CallsAreDelivered(w, y, news[..|news| - 1], now, nonce);
      assert VoiceReads(news[|news| - 1]);
    }
  }

  lemma {:induction false} SessionIsDelivered(w: Config, y: Sys, news: seq<S.Call>, now: Time, seq0: nat, ts0: nat)
    requires AllDelivered(y.log)
    ensures AllDelivered(HearSession(w, y, news, now, seq0, ts0).log)
  {
    hide CallModel.Step, SendAll, GvMeta;
    if news != [] {
      SessionIsDelivered(w, y, news[..|news| - 1], now, seq0, ts0);
    }
  }

  /** Main result: every IPSC packet the translator is given is one its slot and burst type are read from. */
  lemma {:induction false} PacketsAreDelivered(w: Config, evs: seq<Event>)
    requires forall e <- evs :: e.FromIpsc? ==> |e.nonce| == 4
    ensures var y := Run(w, evs); AllDelivered(y.log) && AllRead(y.ipsc.Calls())
  {
    hide CallModel.Step, H.Step, IpscStep, HearCalls, HearSession, SendAll, AllRead, Delivered;
    if evs == [] {
      NothingDelivered(w);
    } else {
      var y, e := Run(w, evs[..|evs| - 1]), evs[|evs| - 1];
      PacketsAreDelivered(w, evs[..|evs| - 1]);
      match e
      case FromIpsc(i, now, nonce) =>
        var ipsc' := IpscStep(y.ipsc, i);
        var news := NewOf(y.ipsc.Calls(), ipsc'.Calls());
        IpscCallsGrow(y.ipsc, i);
        IpscCallsRead(y.ipsc, i);
        NewsRead(y.ipsc.Calls(), ipsc'.Calls());
        assert e in evs;
        CallsAreDelivered(w, y.(ipsc := ipsc'), news, now, nonce);
        HearCallsKeepIpsc(w, y.(ipsc := ipsc'), news, now, nonce);
      case FromHbp(h, now, seq0, ts0) =>
        var k' := H.Step(w.options, y.client, H.OnSession(h));
        var news := NewOf(SessionCalls(y.client), SessionCalls(k'));
        SessionIsDelivered(w, y.(client := k'), news, now, seq0, ts0);
        HearSessionKeepsIpsc(w, y.(client := k'), news, now, seq0, ts0);
      case Turn(t) =>
      case TimerFires(ts, now, later) => DrainDelivered(ts, now, later);
    }
  }

  lemma NewsRead(before: seq<PeerModel.Call>, after: seq<PeerModel.Call>)
    requires AllRead(after)
    ensures AllRead(NewOf(before, after))
  {
    hide VoiceReads;
  }

  lemma DrainDelivered(ts: Timeslot, now: Time, later: Time)
    ensures Delivered(DrainFires(ts, now, later))
  {
  }

  lemma NothingDelivered(w: Config)
    ensures AllDelivered(Initial(w).log) && AllRead(Initial(w).ipsc.Calls())
  {
  }

  // ------------------------------------------------------------------
  // The translator object in its place
  // ------------------------------------------------------------------

  /** What the translator reads when a call reaches it: is HBP up, the clock, four random bytes. */
  datatype Moment = Moment(up: bool, now: Time, nonce: Bytes)

  /** A call of the IPSC stack reaches the object. */
  method Hear(t: T.Translator, call: PeerModel.Call, at: Moment)
    modifies t
    ensures t.commands == old(t.commands) + if t.c.tracking then H.CommandsFor([call]) else []
  {
    CommandsForOne(call);
    match call
    case PeerRegistered => t.PeerRegistered();
    case PeerLost => t.PeerLostNow(at.now);
    case Voice(data, ts, burst) => t.IpscVoiceReceived(data, ts, burst, at.up, at.now, at.nonce);
    case CheckTimeouts => t.CheckCallTimeouts(at.now);
  }

  lemma CommandsForOne(call: PeerModel.Call)
    ensures H.CommandsFor([call])
         == match call case PeerRegistered => [T.Activate] case PeerLost => [T.Deactivate] case _ => []
  {
    assert [call][..0] == [] && H.CommandsFor([]) == [];
  }

  lemma CommandsGrow(calls: seq<PeerModel.Call>, i: nat)
    requires i < |calls|
    ensures H.CommandsFor(calls[..i + 1]) == H.CommandsFor(calls[..i]) + H.CommandsFor([calls[i]])
  {
    assert calls[..i + 1][..i] == calls[..i] && calls[..i + 1][i] == calls[i];
    CommandsForOne(calls[i]);
  }

  /** In TRACKING mode the object has issued exactly the commands for the calls it has heard. */
  method HearThem(t: T.Translator, calls: seq<PeerModel.Call>, at: seq<Moment>)
    requires |at| == |calls|
    modifies t
    ensures t.c.tracking ==> t.commands == old(t.commands) + H.CommandsFor(calls)
  {
    assert calls[..0] == [] && H.CommandsFor([]) == [];
    for i := 0 to |calls|
      invariant t.c.tracking ==> t.commands == old(t.commands) + H.CommandsFor(calls[..i])
    {
      Hear(t, calls[i], at[i]);
      CommandsGrow(calls, i);
    }
    assert calls[..|calls|] == calls;
  }
}
