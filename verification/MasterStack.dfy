/**
 The IPSC master stack: one repeater registers with this process.  The value model, the
 object proved against it, and what holds on every run.
 */
module MasterStack {
  import opened Prelude
  import opened Wire
  import opened PeerList
  import Packets
  import PeerModel
  import PeerTable

  const MASTER_REG_REQ: byte := 0x90
  const PEER_LIST_REQ: byte := 0x92
  const MASTER_ALIVE_REQ: byte := 0x96

  datatype Config = Config(masterId: nat, allowedIp: Option<Ip>, expectedId: Option<nat>, watchdog: int)

  /** The registered repeater: its id as sent, and where it is. */
  datatype Repeater = Repeater(id: Bytes, ip: Ip, port: nat)

  datatype Message = RegAnswer | AliveAnswer | DeRegAnswer | List(packet: Bytes) | User(packet: Bytes)

  datatype Out = Out(ip: Ip, port: nat, msg: Message)

  datatype Master = Master(repeater: Option<Repeater>, lastKa: Time, calls: seq<PeerModel.Call>, sent: seq<Out>)

  const INITIAL := Master(None, 0, [], [])

  function ClaimedId(data: Bytes): Bytes {
    if |data| >= 5 then data[1..5] else [0, 0, 0, 0]
  }

  predicate MayRegister(c: Config, m: Master, data: Bytes, ip: Ip) {
    && |data| >= 10
    && (c.allowedIp.Some? ==> ip == c.allowedIp.value)
    && (c.expectedId.Some? ==> FromU32(data[1..5]) == c.expectedId.value)
    && (m.repeater.Some? ==> ip == m.repeater.value.ip)
  }

  predicate IsRegistered(m: Master, data: Bytes) {
    m.repeater.Some? && ClaimedId(data) == m.repeater.value.id
  }

  /** The peer list a registered repeater is sent: itself. */
  function ListPacket(c: Config, r: Repeater): Bytes
    requires c.masterId < 0x1_0000_0000 && |r.id| == 4 && r.port < 0x1_0000
  {
    [PEER_LIST_REPLY] + U32(c.masterId) + U16(ENTRY_LEN) + (r.id + r.ip + U16(r.port) + [PeerModel.OUR_MODE])
  }

  predicate Listable(c: Config, m: Master) {
    m.repeater.Some? && c.masterId < 0x1_0000_0000 && |m.repeater.value.id| == 4 && 0 < m.repeater.value.port < 0x1_0000
  }

  function SendList(c: Config, m: Master, ip: Ip, port: nat): Master {
    if Listable(c, m) then m.(sent := m.sent + [Out(ip, port, List(ListPacket(c, m.repeater.value)))]) else m
  }

  function Clear(m: Master): Master {
    m.(repeater := None, lastKa := 0, calls := m.calls + [PeerModel.PeerLost])
  }

  function Register(c: Config, m: Master, data: Bytes, ip: Ip, port: nat, now: Time): Master {
    if !MayRegister(c, m, data, ip) then m
    else
      var first := m.repeater.None?;
      var m := m.(repeater := Some(Repeater(data[1..5], ip, port)), lastKa := now,
                  sent := m.sent + [Out(ip, port, RegAnswer)]);
      var m := SendList(c, m, ip, port);
      if first then m.(calls := m.calls + [PeerModel.PeerRegistered]) else m
  }

  function GroupVoice(m: Master, data: Bytes, ip: Ip, port: nat, now: Time): Master {
    if m.repeater.None? || ip != m.repeater.value.ip || port != m.repeater.value.port then m
    else match Packets.GvMeta(data)
      case None => m
      case Some(meta) => m.(lastKa := now, calls := m.calls + [PeerModel.Voice(data, meta.0, meta.1)])
  }

  function Datagram(c: Config, m: Master, data: Bytes, ip: Ip, port: nat, now: Time): Master {
    if data == [] then m
    else if data[0] == MASTER_REG_REQ then Register(c, m, data, ip, port, now)
    else if data[0] == MASTER_ALIVE_REQ then
      if IsRegistered(m, data) then m.(lastKa := now, sent := m.sent + [Out(ip, port, AliveAnswer)]) else m
    else if data[0] == PEER_LIST_REQ then (if IsRegistered(m, data) then SendList(c, m, ip, port) else m)
    else if data[0] == PeerModel.DE_REG_REQ then
      if IsRegistered(m, data) then Clear(m.(sent := m.sent + [Out(ip, port, DeRegAnswer)])) else m
    else if data[0] == PeerModel.GROUP_VOICE then GroupVoice(m, data, ip, port, now)
    else m
  }

  function Watchdog(c: Config, m: Master, now: Time): Master {
    var m := m.(calls := m.calls + [PeerModel.CheckTimeouts]);
    if m.repeater.Some? && now - m.lastKa > c.watchdog * SECOND then Clear(m) else m
  }

  datatype Event =
    | Received(data: Bytes, ip: Ip, port: nat, now: Time)
    | WatchdogTick(now: Time)

  function Step(c: Config, m: Master, e: Event): Master {
    match e
    case Received(data, ip, port, now) => Datagram(c, m, data, ip, port, now)
    case WatchdogTick(now) => Watchdog(c, m, now)
  }

  function Run(c: Config, evs: seq<Event>): Master {
    if evs == [] then INITIAL else Step(c, Run(c, evs[..|evs| - 1]), evs[|evs| - 1])
  }

  // ------------------------------------------------------------------
  // The object
  // ------------------------------------------------------------------

  class Stack {
    const c: Config
    var registered: bool
    var peerId: Bytes
    var peerIp: Ip
    var peerPort: nat
    var lastKa: Time
    var calls: seq<PeerModel.Call>
    var sent: seq<Out>

    ghost function View(): Master
      reads this
    {
      Master(if registered then Some(Repeater(peerId, peerIp, peerPort)) else None, lastKa, calls, sent)
    }

    constructor (c: Config)
      ensures this.c == c && View() == INITIAL
    {
      this.c := c;
      registered, peerId, peerIp, peerPort, lastKa, calls, sent := false, [], [0, 0, 0, 0], 0, 0, [], [];
    }

    method SendPeerList(ip: Ip, port: nat)
      modifies this`sent
      ensures View() == SendList(c, old(View()), ip, port)
    {
      if registered && |peerId| == 4 && 0 < peerPort < 0x1_0000 && c.masterId < 0x1_0000_0000 {
        var entry := peerId + peerIp + U16(peerPort) + [PeerModel.OUR_MODE];
        var packet := [PEER_LIST_REPLY] + U32(c.masterId) + U16(|entry|) + entry;
        sent := sent + [Out(ip, port, List(packet))];
      }
    }

    method ClearPeer()
      modifies this
      ensures View() == Clear(old(View()))
    {
      registered, peerId, peerIp, peerPort, lastKa := false, [], [0, 0, 0, 0], 0, 0;
      calls := calls + [PeerModel.PeerLost];
    }

    method OnRegReq(data: Bytes, ip: Ip, port: nat, now: Time)
      modifies this
      ensures View() == Register(c, old(View()), data, ip, port, now)
    {
      hide SendList;
      if |data| < 10 {
        return;
      }
      if c.allowedIp.Some? && ip != c.allowedIp.value {
        return;
      }
      if c.expectedId.Some? && FromU32(data[1..5]) != c.expectedId.value {
        return;
      }
      if registered && ip != peerIp {
        return;
      }
      var first := !registered;
      registered, peerId, peerIp, peerPort, lastKa := true, data[1..5], ip, port, now;
      sent := sent + [Out(ip, port, RegAnswer)];
      SendPeerList(ip, port);
      if first {
        calls := calls + [PeerModel.PeerRegistered];
      }
    }

    method DatagramReceived(data: Bytes, ip: Ip, port: nat, now: Time)
      modifies this
      ensures View() == Step(c, old(View()), Received(data, ip, port, now))
    {
      hide Register, SendList;
      if data == [] {
        return;
      }
      var opcode, id := data[0], ClaimedId(data);
      if opcode == MASTER_REG_REQ {
        OnRegReq(data, ip, port, now);
      } else if opcode == MASTER_ALIVE_REQ {
        if registered && id == peerId {
          lastKa := now;
          sent := sent + [Out(ip, port, AliveAnswer)];
        }
      } else if opcode == PEER_LIST_REQ {
        if registered && id == peerId {
          SendPeerList(ip, port);
        }
      } else if opcode == PeerModel.DE_REG_REQ {
        if registered && id == peerId {
          sent := sent + [Out(ip, port, DeRegAnswer)];
          ClearPeer();
        }
      } else if opcode == PeerModel.GROUP_VOICE {
        var meta := Packets.GvMeta(data);
        if registered && ip == peerIp && port == peerPort && meta.Some? {
          lastKa := now;
          calls := calls + [PeerModel.Voice(data, meta.value.0, meta.value.1)];
        }
      }
    }

    method WatchdogOnce(now: Time)
      modifies this
      ensures View() == Step(c, old(View()), WatchdogTick(now))
    {
      calls := calls + [PeerModel.CheckTimeouts];
      if registered && now - lastKa > c.watchdog * SECOND {
        ClearPeer();
      }
    }

    method SendToPeer(packet: Bytes)
      modifies this`sent
      ensures sent == old(sent) + if registered && peerPort != 0 then [Out(peerIp, peerPort, User(packet))] else []
    {
      if registered && peerPort != 0 {
        sent := sent + [Out(peerIp, peerPort, User(packet))];
      }
    }
  }

  // ------------------------------------------------------------------
  // Every run
  // ------------------------------------------------------------------

  /** Registration calls alternate and the last one is the state; the id is 4 bytes. */
  ghost predicate Coupled(m: Master) {
    var t := PeerTable.RegTrace(m.calls);
    && PeerTable.Alternates(t) && m.repeater.Some? == (|t| % 2 == 1)
    && (m.repeater.Some? ==> |m.repeater.value.id| == 4)
  }

  /** One repeater at a time: while it stays registered, its address is what it was. */
  predicate SameRepeater(m: Master, m': Master) {
    m.repeater.Some? && m'.repeater.Some? ==> m.repeater.value.ip == m'.repeater.value.ip
  }

  lemma StepCouples(c: Config, m: Master, e: Event)
    requires Coupled(m)
    ensures Coupled(Step(c, m, e)) && SameRepeater(m, Step(c, m, e))
  {
    hide PeerTable.RegTrace, ListPacket;
    PeerTable.TraceAppend(m.calls, PeerModel.PeerRegistered);
    PeerTable.TraceAppend(m.calls, PeerModel.PeerLost);
    PeerTable.TraceAppend(m.calls, PeerModel.CheckTimeouts);
    PeerTable.TraceAppend(m.calls + [PeerModel.CheckTimeouts], PeerModel.PeerLost);
    if e.Received? {
      match Packets.GvMeta(e.data) {
        case Some(meta) => PeerTable.TraceAppend(m.calls, PeerModel.Voice(e.data, meta.0, meta.1));
        case None =>
      }
    }
  }

  /** Main result: in master mode too, registered and lost strictly alternate, starting with registered. */
  lemma {:induction false} AlwaysCoupled(c: Config, evs: seq<Event>)
    ensures Coupled(Run(c, evs))
  {
    hide Step;
    if evs != [] {
      AlwaysCoupled(c, evs[..|evs| - 1]);
      StepCouples(c, Run(c, evs[..|evs| - 1]), evs[|evs| - 1]);
    }
  }

  /**
   The list this master sends, received by a peer stack of this master, leaves that stack with
   exactly this repeater as its list peer, at its registered address.
   */
  lemma SentListIsLearned(c: Config, m: Master, pc: PeerModel.Config, p: PeerModel.Peer, ip: Ip, port: nat, now: Time,
                          id: nat)
    requires Listable(c, m) && pc.prune && ip == pc.masterIp && c.masterId != pc.localId
    requires p.masterId == 0 || c.masterId == 0 || c.masterId == p.masterId
    ensures var r := m.repeater.value;
      var q := PeerModel.Datagram(pc, p, ListPacket(c, r), ip, port, now);
      var listed := FromU32(r.id);
      && (id in q.peers && q.peers[id].fromList) == (id == listed && !PeerModel.Excluded(pc, q.masterId, id))
      && (id in q.peers && q.peers[id].fromList ==> q.peers[id].ip == r.ip && q.peers[id].port == r.port)
  {
    hide PeerModel.Datagram, PeerModel.ApplyList;
    var r := m.repeater.value;
    var ls := [Listed(FromU32(r.id), r.ip, r.port, PeerModel.OUR_MODE)];
    ListPacketIsReply(c, r);
    PeerTable.ListPacketApplies(pc, p, c.masterId, ls, ip, port, now);
    var q := PeerModel.Datagram(pc, p, ListPacket(c, r), ip, port, now);
    PeerTable.ListReplaces(pc, q.masterId, p.peers, ls, id);
    OneContributes(pc, q.masterId, ls[0], id);
  }

  lemma OneContributes(pc: PeerModel.Config, masterId: nat, l: Listed, id: nat)
    ensures id in PeerModel.Contributed(pc, masterId, [l]) <==> id == l.id && !PeerModel.Excluded(pc, masterId, id)
  {
    if id == l.id && !PeerModel.Excluded(pc, masterId, id) {
      assert [l][0].id == id;
    }
  }

  lemma ListPacketIsReply(c: Config, r: Repeater)
    requires c.masterId < 0x1_0000_0000 && |r.id| == 4 && r.port < 0x1_0000
    ensures ListPacket(c, r) == EncodeReply(c.masterId, [Listed(FromU32(r.id), r.ip, r.port, PeerModel.OUR_MODE)])
  {
    FromU32RoundTrip(r.id);
    var l := Listed(FromU32(r.id), r.ip, r.port, PeerModel.OUR_MODE);
    assert [l][..0] == [];
    assert EncodeEntries([l]) == EncodeEntry(l);
  }
}
