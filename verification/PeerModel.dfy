/**
 The IPSC peer stack on values: registration with the upstream master, the peer table, and
 the maintenance and watchdog ticks.  The class in PeerStack.dfy is proved to compute these.
 */
module PeerModel {
  import opened Prelude
  import opened Wire
  import opened PeerList
  import Packets

  const GROUP_VOICE := Packets.GROUP_VOICE
  const MASTER_REG_REPLY: byte := 0x91
  const PEER_REG_REQ: byte := 0x94
  const PEER_REG_REPLY: byte := 0x95
  const MASTER_ALIVE_REPLY: byte := 0x97
  const PEER_ALIVE_REQ: byte := 0x98
  const PEER_ALIVE_REPLY: byte := 0x99
  const DE_REG_REQ: byte := 0x9A
  const DE_REG_REPLY: byte := 0x9B
  const OUR_MODE: byte := 0x6A

  datatype Config = Config(localId: nat, masterIp: Ip, masterPort: nat, masterId: nat, aliveInterval: int,
                           maxMissed: int, allowUnknown: bool, prune: bool)
  {
    function MaxMissed(): int {
      Max(1, maxMissed)
    }

    /** How long the master may be silent, in microseconds. */
    function Timeout(): Time {
      Max(1, aliveInterval) * MaxMissed() * SECOND
    }
  }

  datatype Entry = Entry(id: nat, ip: Ip, port: nat, mode: byte, connected: bool, fromList: bool,
                         lastRx: Time, lastTx: Time, outstanding: nat)

  type Table = map<nat, Entry>

  /** What the stack tells the translator. */
  datatype Call = PeerRegistered | PeerLost | Voice(data: Bytes, ts: Timeslot, burst: byte) | CheckTimeouts

  datatype Peer = Peer(registered: bool, reported: bool, listSeen: bool, masterIp: Ip, masterPort: nat, masterId: nat,
                       lastMasterRx: Time, masterOutstanding: nat, peers: Table, calls: seq<Call>)

  function Initial(c: Config): Peer {
    Peer(false, false, false, c.masterIp, c.masterPort, c.masterId, 0, 0, map[], [])
  }

  function SourceId(data: Bytes): nat {
    if |data| < 5 then 0 else FromU32(data[1..5])
  }

  predicate FromMaster(c: Config, p: Peer, id: nat, ip: Ip, opcode: byte) {
    && ip == c.masterIp
    && (p.masterId == 0 || id == 0 || id == p.masterId)
    && opcode in {MASTER_REG_REPLY, MASTER_ALIVE_REPLY, PEER_LIST_REPLY, GROUP_VOICE, DE_REG_REQ, DE_REG_REPLY}
  }

  function TouchMaster(p: Peer, id: nat, ip: Ip, port: nat, now: Time): Peer {
    p.(masterId := if id != 0 && p.masterId == 0 then id else p.masterId,
       masterIp := ip, masterPort := port, lastMasterRx := now, masterOutstanding := 0)
  }

  /** A sender that is no master is a known peer, or becomes one when unknown peers are allowed. */
  predicate Accepted(c: Config, p: Peer, id: nat, opcode: byte) {
    && id != 0
    && (id in p.peers
        || (c.allowUnknown && opcode in {PEER_REG_REQ, PEER_REG_REPLY, PEER_ALIVE_REQ, PEER_ALIVE_REPLY, GROUP_VOICE,
                                         DE_REG_REQ, DE_REG_REPLY}))
  }

  function AcceptedEntry(p: Peer, id: nat, ip: Ip, port: nat, now: Time): Entry {
    var e := if id in p.peers then p.peers[id] else Entry(id, ip, port, OUR_MODE, false, false, now, 0, 0);
    e.(ip := ip, port := port, lastRx := now)
  }

  function AllDisconnected(t: Table): Table {
    map k | k in t :: t[k].(connected := false, outstanding := 0)
  }

  function ClearRegistration(p: Peer): Peer {
    if !p.registered then p
    else p.(registered := false, masterOutstanding := 0, listSeen := false, reported := false,
            peers := AllDisconnected(p.peers),
            calls := p.calls + [PeerLost])
  }

  function RegReply(p: Peer, data: Bytes): Peer {
    if |data| < 16 then p
    else if !p.registered && !p.reported then
      p.(registered := true, reported := true, calls := p.calls + [PeerRegistered])
    else p.(registered := true)
  }

  // ------------------------------------------------------------------
  // The peer list
  // ------------------------------------------------------------------

  predicate Excluded(c: Config, masterId: nat, id: nat) {
    id == 0 || id == c.localId || id == masterId
  }

  function MergeOne(c: Config, masterId: nat, t: Table, l: Listed): Table {
    if Excluded(c, masterId, l.id) then t
    else if l.id in t then t[l.id := t[l.id].(ip := l.ip, port := l.port, mode := l.mode, fromList := true)]
    else t[l.id := Entry(l.id, l.ip, l.port, l.mode, false, true, 0, 0, 0)]
  }

  function Merge(c: Config, masterId: nat, t: Table, ls: seq<Listed>): Table {
    if ls == [] then t else MergeOne(c, masterId, Merge(c, masterId, t, ls[..|ls| - 1]), ls[|ls| - 1])
  }

  /** The ids a list contributes. */
  function Contributed(c: Config, masterId: nat, ls: seq<Listed>): set<nat> {
    set i | 0 <= i < |ls| && !Excluded(c, masterId, ls[i].id) :: ls[i].id
  }

  function Pruned(t: Table, seen: set<nat>): Table {
    map k | k in t && (t[k].fromList ==> k in seen) :: t[k]
  }

  function ApplyList(c: Config, masterId: nat, t: Table, ls: seq<Listed>): Table {
    var merged := Merge(c, masterId, t, ls);
    if c.prune then Pruned(merged, Contributed(c, masterId, ls)) else merged
  }

  function ListReply(c: Config, p: Peer, data: Bytes): Peer {
    match Payload(data)
    case None => p
    case Some(payload) => p.(peers := ApplyList(c, p.masterId, p.peers, ParseEntries(payload)), listSeen := true)
  }

  // ------------------------------------------------------------------
  // Events
  // ------------------------------------------------------------------

  function VoiceCall(p: Peer, data: Bytes): Peer {
    match Packets.GvMeta(data)
    case Some(meta) => if p.registered then p.(calls := p.calls + [Voice(data, meta.0, meta.1)]) else p
    case None => p
  }

  function MasterPacket(c: Config, p: Peer, data: Bytes, opcode: byte): Peer {
    if opcode == MASTER_REG_REPLY then RegReply(p, data)
    else if opcode == PEER_LIST_REPLY then ListReply(c, p, data)
    else if opcode == GROUP_VOICE then VoiceCall(p, data)
    else if opcode == DE_REG_REQ || opcode == DE_REG_REPLY then ClearRegistration(p)
    else p
  }

  function PeerPacket(p: Peer, id: nat, data: Bytes, opcode: byte): Peer
    requires id in p.peers
  {
    if opcode in {PEER_REG_REQ, PEER_REG_REPLY, PEER_ALIVE_REQ, PEER_ALIVE_REPLY} then
      p.(peers := p.peers[id := p.peers[id].(connected := true, outstanding := 0)])
    else if opcode == GROUP_VOICE then VoiceCall(p, data)
    else if opcode == DE_REG_REQ || opcode == DE_REG_REPLY then
      p.(peers := p.peers[id := p.peers[id].(connected := false, outstanding := 0)])
    else p
  }

  /** An authenticated datagram, its digest stripped. */
  function Datagram(c: Config, p: Peer, data: Bytes, ip: Ip, port: nat, now: Time): Peer {
    if data == [] then p else
    var opcode, id := data[0], SourceId(data);
    if id == c.localId then p
    else if FromMaster(c, p, id, ip, opcode) then MasterPacket(c, TouchMaster(p, id, ip, port, now), data, opcode)
    else if Accepted(c, p, id, opcode) then
      PeerPacket(p.(peers := p.peers[id := AcceptedEntry(p, id, ip, port, now)]), id, data, opcode)
    else p
  }

  function TickOne(c: Config, e: Entry, now: Time): Entry {
    if e.id == c.localId then e
    else
      var e := e.(lastTx := now, outstanding := e.outstanding + 1);
      if e.outstanding > c.MaxMissed() then e.(connected := false) else e
  }

  function TickAll(c: Config, t: Table, now: Time): Table {
    map k | k in t :: TickOne(c, t[k], now)
  }

  function Maintenance(c: Config, p: Peer, now: Time): Peer {
    if !p.registered then p.(masterOutstanding := p.masterOutstanding + 1)
    else p.(masterOutstanding := p.masterOutstanding + 1,
            peers := TickAll(c, p.peers, now))
  }

  function Watchdog(c: Config, p: Peer, now: Time): Peer {
    var p := p.(calls := p.calls + [CheckTimeouts]);
    if p.registered && p.lastMasterRx != 0 && now - p.lastMasterRx > c.Timeout() then ClearRegistration(p) else p
  }

  datatype Event =
    | Received(data: Bytes, ip: Ip, port: nat, now: Time)
    | MaintenanceTick(now: Time)
    | WatchdogTick(now: Time)

  function Step(c: Config, p: Peer, e: Event): Peer {
    match e
    case Received(data, ip, port, now) => Datagram(c, p, data, ip, port, now)
    case MaintenanceTick(now) => Maintenance(c, p, now)
    case WatchdogTick(now) => Watchdog(c, p, now)
  }

  function Run(c: Config, evs: seq<Event>): Peer {
    if evs == [] then Initial(c) else Step(c, Run(c, evs[..|evs| - 1]), evs[|evs| - 1])
  }
}
