/**
 The peer stack read off its datagrams and ticks: when it is registered, who counts as connected,
 where a peer is, and which voice it hands on.
 */
module PeerFates {
  import opened Prelude
  import opened Wire
  import opened PeerList
  import opened PeerModel
  import opened PeerTable
  import Packets

  /** The datagram is one of the master's: from its address, under its id or none, with a master's opcode. */
  predicate OfMaster(c: Config, p: Peer, e: Event) {
    && e.Received? && e.data != [] && SourceId(e.data) != c.localId && e.ip == c.masterIp
    && (p.masterId == 0 || SourceId(e.data) == 0 || SourceId(e.data) == p.masterId)
    && e.data[0] in {0x91, 0x97, 0x93, 0x80, 0x9A, 0x9B}
  }

  /** The datagram is one of this peer's: known, or unknown peers are allowed to send such. */
  predicate OfPeer(c: Config, p: Peer, e: Event, id: nat) {
    && e.Received? && e.data != [] && SourceId(e.data) == id && id != c.localId && id != 0 && !OfMaster(c, p, e)
    && (id in p.peers || (c.allowUnknown && e.data[0] in {0x94, 0x95, 0x98, 0x99, 0x80, 0x9A, 0x9B}))
  }

  // ------------------------------------------------------------------
  // Registration
  // ------------------------------------------------------------------

  /** How long the master may be silent: interval times missed ticks, each at least 1. */
  function Patience(c: Config): Time {
    (if c.aliveInterval < 1 then 1 else c.aliveInterval) * (if c.maxMissed < 1 then 1 else c.maxMissed) * 1_000_000
  }

  /** When the master was last heard; 0 before. */
  function LastMaster(c: Config, evs: seq<Event>): Time {
    if evs == [] then 0
    else if OfMaster(c, Run(c, evs[..|evs| - 1]), evs[|evs| - 1]) then evs[|evs| - 1].now
    else LastMaster(c, evs[..|evs| - 1])
  }

  /**
   A registration reply of the master registers; its de-registration, or a tick that finds it silent
   too long, ends that.
   */
  function Registered(c: Config, evs: seq<Event>): bool {
    if evs == [] then false
    else
      var pre, e := evs[..|evs| - 1], evs[|evs| - 1];
      var was := Registered(c, pre);
      if OfMaster(c, Run(c, pre), e) then
        if e.data[0] == 0x91 then was || |e.data| >= 16
        else if e.data[0] == 0x9A || e.data[0] == 0x9B then false
        else was
      else if e.WatchdogTick? then was && !(LastMaster(c, pre) != 0 && e.now - LastMaster(c, pre) > Patience(c))
      else was
  }

  lemma VoiceKeepsAll(p: Peer, data: Bytes)
    ensures var q := VoiceCall(p, data); q == p.(calls := q.calls)
  {
  }

  lemma ListKeepsAll(c: Config, p: Peer, data: Bytes)
    ensures var q := ListReply(c, p, data); q == p.(peers := q.peers, listSeen := q.listSeen)
  {
    hide ApplyList, Payload, ParseEntries;
  }

  lemma PatienceIs(c: Config)
    ensures c.Timeout() == Patience(c)
  {
  }

  /** What a packet of the master does to the registration. */
  lemma MasterRegisters(c: Config, p: Peer, e: Event)
    requires OfMaster(c, p, e)
    ensures var q := Step(c, p, e);
      && q.lastMasterRx == e.now
      && q.registered == if e.data[0] == 0x91 then p.registered || |e.data| >= 16
                         else if e.data[0] == 0x9A || e.data[0] == 0x9B then false
                         else p.registered
  {
    hide VoiceCall, ListReply, AllDisconnected, Accepted, AcceptedEntry, PeerPacket;
    var q := TouchMaster(p, SourceId(e.data), e.ip, e.port, e.now);
    ListKeepsAll(c, q, e.data);
    VoiceKeepsAll(q, e.data);
  }

  lemma OthersDoNotRegister(c: Config, p: Peer, e: Event)
    requires !e.WatchdogTick? && !OfMaster(c, p, e)
    ensures var q := Step(c, p, e); q.lastMasterRx == p.lastMasterRx && q.registered == p.registered
  {
    hide VoiceCall, MasterPacket, TickAll, AcceptedEntry;
    if e.Received? && e.data != [] {
      var id := SourceId(e.data);
      VoiceKeepsAll(p.(peers := p.peers[id := AcceptedEntry(p, id, e.ip, e.port, e.now)]), e.data);
    }
  }

  lemma StepRegisters(c: Config, p: Peer, e: Event, last: Time)
    requires p.lastMasterRx == last
    ensures var q := Step(c, p, e);
      && q.lastMasterRx == (if OfMaster(c, p, e) then e.now else last)
      && q.registered ==
           if OfMaster(c, p, e) then
             if e.data[0] == 0x91 then p.registered || |e.data| >= 16
             else if e.data[0] == 0x9A || e.data[0] == 0x9B then false
             else p.registered
           else if e.WatchdogTick? then p.registered && !(last != 0 && e.now - last > Patience(c))
           else p.registered
  {
    if OfMaster(c, p, e) {
      hide Step, OfMaster, Patience;
      MasterRegisters(c, p, e);
    } else if e.WatchdogTick? {
      PatienceIs(c);
      hide Config.Timeout, Patience, AllDisconnected;
    } else {
      hide Step, OfMaster, Patience;
      OthersDoNotRegister(c, p, e);
    }
  }

  /** Main result: on every run the stack is registered exactly as its datagrams and ticks say. */
  lemma {:induction false} RegisteredExactly(c: Config, evs: seq<Event>)
    ensures var p := Run(c, evs); p.registered == Registered(c, evs) && p.lastMasterRx == LastMaster(c, evs)
  {
    hide Step, OfMaster, Patience;
    if evs != [] {
      RegisteredExactly(c, evs[..|evs| - 1]);
      StepRegisters(c, Run(c, evs[..|evs| - 1]), evs[|evs| - 1], LastMaster(c, evs[..|evs| - 1]));
      OnlyReceived(c, Run(c, evs[..|evs| - 1]), evs[|evs| - 1]);
    }
  }

  lemma OnlyReceived(c: Config, p: Peer, e: Event)
    ensures OfMaster(c, p, e) ==> e.Received? && e.data != []
  {
  }

  /** Main result: losing the registration disconnects every peer, and the list is asked for anew. */
  lemma LossForgets(c: Config, p: Peer, e: Event)
    requires p.registered && !Step(c, p, e).registered
    ensures var q := Step(c, p, e);
      && q.peers.Keys == p.peers.Keys && !q.listSeen && !q.reported
      && forall k :: k in q.peers ==> !q.peers[k].connected && q.peers[k].outstanding == 0
  {
    hide VoiceCall, ListReply, TickAll, AcceptedEntry;
    if e.Received? && e.data != [] {
      var id := SourceId(e.data);
      var r := TouchMaster(p, id, e.ip, e.port, e.now);
      ListKeepsAll(c, r, e.data);
      VoiceKeepsAll(r, e.data);
      VoiceKeepsAll(p.(peers := p.peers[id := AcceptedEntry(p, id, e.ip, e.port, e.now)]), e.data);
    }
  }

  // ------------------------------------------------------------------
  // Connected peers
  // ------------------------------------------------------------------

  /** How many keepalive ticks may pass unanswered. */
  function Allowed(c: Config): nat {
    if c.maxMissed < 1 then 1 else c.maxMissed
  }

  /** One step of a peer's fate: None while it is not connected, else the ticks since its last sign of life. */
  function FateStep(c: Config, p: Peer, q: Peer, e: Event, id: nat, m: Option<nat>): Option<nat> {
    if id !in q.peers || (p.registered && !q.registered) then None
    else if OfPeer(c, p, e, id) && e.data[0] in {0x94, 0x95, 0x98, 0x99} then Some(0)
    else if OfPeer(c, p, e, id) && e.data[0] in {0x9A, 0x9B} then None
    else if e.MaintenanceTick? && p.registered && m.Some? then
      if m.value + 1 > Allowed(c) then None else Some(m.value + 1)
    else m
  }

  function Fate(c: Config, evs: seq<Event>, id: nat): Option<nat> {
    if evs == [] then None
    else FateStep(c, Run(c, evs[..|evs| - 1]), Run(c, evs), evs[|evs| - 1], id, Fate(c, evs[..|evs| - 1], id))
  }

  /** The table's entry shows the fate. */
  predicate Shows(t: Table, id: nat, m: Option<nat>) {
    && (m.Some? <==> id in t && t[id].connected)
    && (m.Some? ==> t[id].outstanding == m.value)
  }

  lemma ListShows(c: Config, p: Peer, data: Bytes, id: nat, m: Option<nat>)
    requires Shows(p.peers, id, m)
    ensures var q := ListReply(c, p, data); Shows(q.peers, id, if id in q.peers then m else None)
  {
    hide ApplyList, Payload, ParseEntries, Contributed;
    match Payload(data)
    case Some(payload) =>
      var ls := ParseEntries(payload);
      if c.prune {
        ListReplaces(c, p.masterId, p.peers, ls, id);
      } else {
        ListKeeps(c, p.masterId, p.peers, ls, id);
      }
    case None =>
  }

  lemma MasterShows(c: Config, p: Peer, data: Bytes, id: nat, m: Option<nat>)
    requires Shows(p.peers, id, m) && data != []
    ensures var q := MasterPacket(c, p, data, data[0]);
      Shows(q.peers, id, if id !in q.peers || (p.registered && !q.registered) then None else m)
  {
    hide ListReply;
    ListShows(c, p, data, id, m);
    ListKeepsAll(c, p, data);
    VoiceKeepsAll(p, data);
  }

  lemma PeerShows(c: Config, p: Peer, from: nat, data: Bytes, id: nat, m: Option<nat>)
    requires from in p.peers && Shows(p.peers, id, m) && data != []
    ensures var q := PeerPacket(p, from, data, data[0]);
      && q.registered == p.registered && q.peers.Keys == p.peers.Keys
      && Shows(q.peers, id,
               if from == id && data[0] in {0x94, 0x95, 0x98, 0x99} then Some(0)
               else if from == id && data[0] in {0x9A, 0x9B} then None
               else m)
  {
    VoiceKeepsAll(p, data);
  }

  lemma AcceptedShows(p: Peer, from: nat, ip: Ip, port: nat, now: Time, id: nat, m: Option<nat>)
    requires Shows(p.peers, id, m)
    ensures Shows(p.peers[from := AcceptedEntry(p, from, ip, port, now)], id, m)
  {
  }

  lemma DatagramShows(c: Config, p: Peer, e: Event, id: nat, m: Option<nat>)
    requires e.Received? && Shows(p.peers, id, m)
    ensures var q := Step(c, p, e); Shows(q.peers, id, FateStep(c, p, q, e, id, m))
  {
    hide MasterPacket, PeerPacket, AcceptedEntry, Shows;
    if e.data != [] {
      var from := SourceId(e.data);
      var touched := TouchMaster(p, from, e.ip, e.port, e.now);
      MasterShows(c, touched, e.data, id, m);
      AcceptedShows(p, from, e.ip, e.port, e.now, id, m);
      PeerShows(c, p.(peers := p.peers[from := AcceptedEntry(p, from, e.ip, e.port, e.now)]), from, e.data, id, m);
    }
    Known(p.peers, id, m);
    Known(Step(c, p, e).peers, id, None);
  }

  lemma Known(t: Table, id: nat, m: Option<nat>)
    ensures Shows(t, id, m) && m.Some? ==> id in t
    ensures id !in t ==> Shows(t, id, None)
  {
  }

  lemma StepShows(c: Config, p: Peer, e: Event, id: nat, m: Option<nat>)
    requires Sound(c, p.peers) && Shows(p.peers, id, m)
    ensures var q := Step(c, p, e); Shows(q.peers, id, FateStep(c, p, q, e, id, m))
  {
    if e.Received? {
      hide Step, FateStep, Shows, Sound;
      DatagramShows(c, p, e, id, m);
    } else {
      hide OfPeer;
    }
  }

  /**
   Main result: on every run a peer is connected exactly if its last word was a sign of life, at
   most max_missed registered ticks ago, with no de-registration, loss of the master or removal since.
   */
  lemma {:induction false} ConnectedExactlyWhen(c: Config, evs: seq<Event>, id: nat)
    ensures Shows(Run(c, evs).peers, id, Fate(c, evs, id))
  {
    hide Step, FateStep, Shows, Sound;
    if evs == [] {
      NobodyConnected(c, id);
    } else {
      var pre := evs[..|evs| - 1];
      ConnectedExactlyWhen(c, pre, id);
      AlwaysSound(c, pre);
      StepShows(c, Run(c, pre), evs[|evs| - 1], id, Fate(c, pre, id));
    }
  }

  lemma NobodyConnected(c: Config, id: nat)
    ensures Shows(Initial(c).peers, id, None)
  {
  }

  // ------------------------------------------------------------------
  // Where a peer is
  // ------------------------------------------------------------------

  /** Main result: a peer that is heard is from then on where it was heard. */
  lemma HeardIsWhereItWas(c: Config, p: Peer, e: Event, id: nat)
    requires OfPeer(c, p, e, id)
    ensures var q := Step(c, p, e);
      id in q.peers && q.peers[id].ip == e.ip && q.peers[id].port == e.port && q.peers[id].lastRx == e.now
  {
    var r := p.(peers := p.peers[id := AcceptedEntry(p, id, e.ip, e.port, e.now)]);
    VoiceKeepsAll(r, e.data);
    hide VoiceCall;
  }

  /** The master's address follows it, and its id, if not configured, is the first it names. */
  lemma MasterIsFollowed(c: Config, p: Peer, e: Event)
    requires OfMaster(c, p, e)
    ensures var q := Step(c, p, e);
      && q.masterIp == e.ip && q.masterPort == e.port
      && q.masterId == if p.masterId != 0 then p.masterId else SourceId(e.data)
  {
    hide VoiceCall, ListReply, AllDisconnected;
    var r := TouchMaster(p, SourceId(e.data), e.ip, e.port, e.now);
    ListKeepsAll(c, r, e.data);
    VoiceKeepsAll(r, e.data);
  }

  lemma OthersKeepMaster(c: Config, p: Peer, e: Event)
    requires !OfMaster(c, p, e)
    ensures var q := Step(c, p, e);
      q.masterIp == p.masterIp && q.masterPort == p.masterPort && q.masterId == p.masterId
  {
    hide VoiceCall, MasterPacket, TickAll, AcceptedEntry, AllDisconnected;
    if e.Received? && e.data != [] {
      var id := SourceId(e.data);
      VoiceKeepsAll(p.(peers := p.peers[id := AcceptedEntry(p, id, e.ip, e.port, e.now)]), e.data);
    }
  }

  /** The master's id and address by its datagrams. */
  function MasterBy(c: Config, evs: seq<Event>): (nat, Ip, nat) {
    if evs == [] then (c.masterId, c.masterIp, c.masterPort)
    else
      var pre, e := evs[..|evs| - 1], evs[|evs| - 1];
      var was := MasterBy(c, pre);
      if OfMaster(c, Run(c, pre), e) then (if was.0 == 0 then SourceId(e.data) else was.0, e.ip, e.port) else was
  }

  /**
   Main result: on every run the master's id is the configured or else the first it named, and its
   address the one it was last heard from, or the configured one.
   */
  lemma {:induction false} MasterIsWhereItWas(c: Config, evs: seq<Event>)
    ensures var p := Run(c, evs); (p.masterId, p.masterIp, p.masterPort) == MasterBy(c, evs)
  {
    hide Step, OfMaster;
    if evs != [] {
      var pre, e := evs[..|evs| - 1], evs[|evs| - 1];
      MasterIsWhereItWas(c, pre);
      OnlyReceived(c, Run(c, pre), e);
      if OfMaster(c, Run(c, pre), e) {
        MasterIsFollowed(c, Run(c, pre), e);
      } else {
        OthersKeepMaster(c, Run(c, pre), e);
      }
    }
  }

  // ------------------------------------------------------------------
  // What the translator is told
  // ------------------------------------------------------------------

  /** A voice packet of the master or of a peer, while registered. */
  predicate Speaks(c: Config, p: Peer, e: Event) {
    && e.Received? && |e.data| >= 31 && e.data[0] == 0x80 && p.registered
    && (OfMaster(c, p, e) || OfPeer(c, p, e, SourceId(e.data)))
  }

  /**
   A tick asks for a timeout check, voice is handed on with its slot and burst, and every change of
   the registration is told.
   */
  function CallsOf(voice: bool, e: Event, before: bool, after: bool): seq<Call>
    requires voice ==> e.Received? && |e.data| >= 31
  {
    (if e.WatchdogTick? then [CheckTimeouts] else [])
    + (if voice then [Voice(e.data, if BitsOfByte(e.data[17])[2] then TS2 else TS1, e.data[30])] else [])
    + if after && !before then [PeerRegistered] else if before && !after then [PeerLost] else []
  }

  function Told(c: Config, evs: seq<Event>): seq<Call> {
    if evs == [] then []
    else
      var pre, e := evs[..|evs| - 1], evs[|evs| - 1];
      Told(c, pre) + CallsOf(Speaks(c, Run(c, pre), e), e, Registered(c, pre), Registered(c, evs))
  }

  lemma VoiceTells(p: Peer, data: Bytes)
    ensures VoiceCall(p, data).calls ==
      if |data| >= 31 && p.registered
        then p.calls + [Voice(data, if BitsOfByte(data[17])[2] then TS2 else TS1, data[30])]
      else p.calls
  {
    hide BitsOfByte;
    Packets.MetaBits(data);
  }

  lemma MasterTells(c: Config, p: Peer, e: Event)
    requires OfMaster(c, p, e) && p.reported == p.registered
    ensures var q := Step(c, p, e); q.calls == p.calls + CallsOf(Speaks(c, p, e), e, p.registered, q.registered)
  {
    hide VoiceCall, ListReply, AllDisconnected, BitsOfByte;
    var q := TouchMaster(p, SourceId(e.data), e.ip, e.port, e.now);
    ListKeepsAll(c, q, e.data);
    VoiceKeepsAll(q, e.data);
    VoiceTells(q, e.data);
  }

  lemma OthersTell(c: Config, p: Peer, e: Event)
    requires !OfMaster(c, p, e)
    ensures var q := Step(c, p, e); q.calls == p.calls + CallsOf(Speaks(c, p, e), e, p.registered, q.registered)
  {
    hide VoiceCall, MasterPacket, AllDisconnected, TickAll, AcceptedEntry, BitsOfByte;
    if e.Received? && e.data != [] {
      var id := SourceId(e.data);
      var q := p.(peers := p.peers[id := AcceptedEntry(p, id, e.ip, e.port, e.now)]);
      VoiceKeepsAll(q, e.data);
      VoiceTells(q, e.data);
    }
  }

  /**
   Main result: on every run the translator is told exactly of each change of the registration, of
   each voice packet of the master and the accepted peers while registered, with its slot and burst
   type, and once per watchdog tick to check its timeouts, in order.
   */
  lemma {:induction false} ToldExactly(c: Config, evs: seq<Event>)
    ensures Run(c, evs).calls == Told(c, evs)
  {
    hide Step, OfMaster, CallsOf, Registered, Speaks;
    if evs != [] {
      var pre, e := evs[..|evs| - 1], evs[|evs| - 1];
      ToldExactly(c, pre);
      RegisteredExactly(c, pre);
      RegisteredExactly(c, evs);
      AlwaysSound(c, pre);
      if OfMaster(c, Run(c, pre), e) {
        MasterTells(c, Run(c, pre), e);
      } else {
        OthersTell(c, Run(c, pre), e);
      }
    }
  }
}
