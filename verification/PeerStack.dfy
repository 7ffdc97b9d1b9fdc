/**
 The IPSC peer stack as an object: registration fields and a dictionary of peer entries that
 the handlers and ticks update in place.  Each handler is proved to compute PeerModel's step.
 */
module PeerStack {
  import opened Prelude
  import opened Wire
  import opened PeerList
  import opened PeerModel
  import opened PeerTable

  /** What a datagram sent by this stack is. */
  datatype Message = RegReq | AliveReq | ListReq | PeerReg | PeerRegAnswer | PeerAlive | PeerAliveAnswer | DeRegAnswer
                   | User(packet: Bytes)

  datatype Out = Out(ip: Ip, port: nat, msg: Message)

  class PeerEntry {
    const id: nat
    var ip: Ip
    var port: nat
    var mode: byte
    var connected: bool
    var fromList: bool
    var lastRx: Time
    var lastTx: Time
    var outstanding: nat

    ghost function View(): Entry
      reads this
    {
      Entry(id, ip, port, mode, connected, fromList, lastRx, lastTx, outstanding)
    }

    constructor (id: nat, ip: Ip, port: nat, mode: byte, fromList: bool, lastRx: Time)
      ensures View() == Entry(id, ip, port, mode, false, fromList, lastRx, 0, 0)
    {
      this.id, this.ip, this.port, this.mode, this.fromList, this.lastRx := id, ip, port, mode, fromList, lastRx;
      connected, lastTx, outstanding := false, 0, 0;
    }

    method SetConnected(connected: bool)
      modifies this
      ensures View() == old(View()).(connected := connected, outstanding := 0)
    {
      this.connected, outstanding := connected, 0;
    }

    method Relocate(ip: Ip, port: nat, mode: byte)
      modifies this
      ensures View() == old(View()).(ip := ip, port := port, mode := mode, fromList := true)
    {
      this.ip, this.port, this.mode, fromList := ip, port, mode, true;
    }

    method Touch(ip: Ip, port: nat, now: Time)
      modifies this
      ensures View() == old(View()).(ip := ip, port := port, lastRx := now)
    {
      if this.ip != ip || this.port != port {
        this.ip := ip;
        this.port := port;
      }
      lastRx := now;
    }

    method Miss(c: Config, now: Time)
      requires id != c.localId
      modifies this
      ensures View() == TickOne(c, old(View()), now)
    {
      lastTx := now;
      outstanding := outstanding + 1;
      if outstanding > c.MaxMissed() {
        connected := false;
      }
    }
  }

  /** A walk over a dictionary: each key once, in some order. */
  ghost predicate IsWalk(order: seq<nat>, keys: set<nat>) {
    && (forall i, j :: 0 <= i < j < |order| ==> order[i] != order[j])
    && (forall k :: k in order <==> k in keys)
  }

  lemma WalkGrows(order: seq<nat>, keys: set<nat>, k: nat)
    requires IsWalk(order, keys) && k !in keys
    ensures IsWalk(order + [k], keys + {k})
  {
  }

  /** The packet addressed to each connected peer of the walk in turn. */
  ghost function Addressed(t: Table, order: seq<nat>, packet: Bytes): seq<Out>
    requires forall k <- order :: k in t
  {
    if order == [] then []
    else
      var e := t[order[|order| - 1]];
      Addressed(t, order[..|order| - 1], packet) + if e.connected then [Out(e.ip, e.port, User(packet))] else []
  }

  ghost function PollOf(e: Entry): Out {
    Out(e.ip, e.port, if e.connected then PeerAlive else PeerReg)
  }

  /** The keepalive or registration request sent to each peer of the walk in turn. */
  ghost function Polls(c: Config, t: Table, order: seq<nat>): seq<Out>
    requires forall k <- order :: k in t
  {
    if order == [] then []
    else
      var e := t[order[|order| - 1]];
      Polls(c, t, order[..|order| - 1]) + if e.id == c.localId then [] else [PollOf(e)]
  }

  /** What the stack answers to a datagram at once. */
  function Replies(c: Config, p: Peer, data: Bytes, ip: Ip, port: nat): seq<Out> {
    if data == [] then [] else
    var opcode, id := data[0], SourceId(data);
    if id == c.localId then []
    else if FromMaster(c, p, id, ip, opcode) then
      if opcode == MASTER_REG_REPLY && |data| >= 16 then [Out(ip, port, ListReq)]
      else if opcode == MASTER_ALIVE_REPLY && !p.registered then [Out(ip, port, RegReq)]
      else []
    else if Accepted(c, p, id, opcode) then
      if opcode == PEER_REG_REQ then [Out(ip, port, PeerRegAnswer)]
      else if opcode == PEER_ALIVE_REQ then [Out(ip, port, PeerAliveAnswer)]
      else if opcode == DE_REG_REQ then [Out(ip, port, DeRegAnswer)]
      else []
    else []
  }

  /** The peers of rest are as in t; the others have been polled. */
  ghost predicate Polled(c: Config, now: Time, peers: map<nat, PeerEntry>, t: Table, rest: set<nat>)
    reads peers.Values
  {
    && peers.Keys == t.Keys
    && (forall k :: k in rest && k in peers ==> peers[k].View() == t[k])
    && (forall k :: k in peers && k !in rest ==> peers[k].View() == TickOne(c, t[k], now))
  }

  class Stack {
    const c: Config
    var registered: bool
    var reported: bool
    var listSeen: bool
    var masterIp: Ip
    var masterPort: nat
    var masterId: nat
    var lastMasterRx: Time
    var masterOutstanding: nat
    var peers: map<nat, PeerEntry>
    var calls: seq<Call>
    var sent: seq<Out>

    /** No two keys share an entry object. */
    ghost predicate Valid()
      reads this`peers
    {
      forall j, k :: j in peers && k in peers && j != k ==> peers[j] != peers[k]
    }

    ghost function TableView(): Table
      reads this`peers, peers.Values
    {
      map k | k in peers :: peers[k].View()
    }

    ghost function View(): Peer
      reads this, peers.Values
    {
      Peer(registered, reported, listSeen, masterIp, masterPort, masterId, lastMasterRx, masterOutstanding,
           TableView(), calls)
    }

    constructor (c: Config)
      ensures Valid() && this.c == c && View() == Initial(c) && sent == [] && fresh(peers.Values)
    {
      this.c := c;
      registered, reported, listSeen := false, false, false;
      masterIp, masterPort, masterId := c.masterIp, c.masterPort, c.masterId;
      lastMasterRx, masterOutstanding, peers, calls, sent := 0, 0, map[], [], [];
    }

    method Send(ip: Ip, port: nat, msg: Message)
      modifies this`sent
      ensures sent == old(sent) + [Out(ip, port, msg)]
    {
      sent := sent + [Out(ip, port, msg)];
    }

    // ------------------------------------------------------------------
    // Ticks and user traffic
    // ------------------------------------------------------------------

    method SendToPeer(packet: Bytes) returns (ghost order: seq<nat>)
      modifies this`sent
      ensures !registered ==> sent == old(sent)
      ensures registered ==>
        && IsWalk(order, peers.Keys)
        && sent == old(sent) + [Out(masterIp, masterPort, User(packet))] + Addressed(TableView(), order, packet)
    {
      order := [];
      if !registered {
        return;
      }
      Send(masterIp, masterPort, User(packet));
      ghost var before, t := sent, TableView();
      var rest := peers.Keys;
      while rest != {}
        invariant rest <= t.Keys
        invariant IsWalk(order, t.Keys - rest)
        invariant sent == before + Addressed(t, order, packet)
        decreases rest
      {
        hide IsWalk, Addressed;
        var k :| k in rest;
        var peer := peers[k];
        assert peer.View() == t[k];
        AddressedGrows(t, order, k, packet);
        WalkShrinks(order, t.Keys, rest, k);
        if peer.connected {
          Assoc(before, Addressed(t, order, packet), [Out(peer.ip, peer.port, User(packet))]);
          Send(peer.ip, peer.port, User(packet));
        }
        order := order + [k];
        rest := rest - {k};
      }
      assert t.Keys - rest == peers.Keys;
    }

    /** Poll one peer and count the poll as missed until something is heard. */
    method PollOne(k: nat, now: Time, ghost t: Table, ghost rest: set<nat>)
      requires Valid() && k in rest && rest <= t.Keys && Polled(c, now, peers, t, rest)
      modifies this`sent, peers[k]
      ensures Polled(c, now, peers, t, rest - {k})
      ensures sent == old(sent) + if t[k].id == c.localId then [] else [PollOf(t[k])]
    {
      var peer := peers[k];
      assert peer.View() == t[k];
      if peer.id == c.localId {
        return;
      }
      if peer.connected {
        Send(peer.ip, peer.port, PeerAlive);
      } else {
        Send(peer.ip, peer.port, PeerReg);
      }
      peer.Miss(c, now);
    }

    method PollPeers(now: Time) returns (ghost order: seq<nat>)
      requires Valid()
      modifies this`sent, peers.Values
      ensures TableView() == TickAll(c, old(TableView()), now)
      ensures IsWalk(order, peers.Keys) && sent == old(sent) + Polls(c, old(TableView()), order)
    {
      order := [];
      ghost var t := TableView();
      var rest := peers.Keys;
      while rest != {}
        invariant rest <= t.Keys && Polled(c, now, peers, t, rest)
        invariant IsWalk(order, t.Keys - rest)
        invariant sent == old(sent) + Polls(c, t, order)
        decreases rest
      {
        hide IsWalk, Polls, PollOf, Polled;
        var k :| k in rest;
        PolledHas(c, now, peers, t, rest, k);
        PollOne(k, now, t, rest);
        Assoc(old(sent), Polls(c, t, order), if t[k].id == c.localId then [] else [PollOf(t[k])]);
        PollsGrow(c, t, order, k);
        WalkShrinks(order, t.Keys, rest, k);
        order := order + [k];
        rest := rest - {k};
      }
      assert t.Keys - rest == peers.Keys;
    }

    method MaintenanceOnce(now: Time) returns (ghost order: seq<nat>)
      requires Valid()
      modifies this`sent, this`masterOutstanding, peers.Values
      ensures View() == Maintenance(c, old(View()), now)
      ensures !registered ==> sent == old(sent) + [Out(masterIp, c.masterPort, RegReq)]
      ensures registered ==>
        && IsWalk(order, peers.Keys)
        && sent == old(sent) + [Out(masterIp, masterPort, AliveReq)]
                   + (if listSeen then [] else [Out(masterIp, masterPort, ListReq)])
                   + Polls(c, old(TableView()), order)
    {
      hide TickAll, IsWalk, Polls;
      order := [];
      ghost var t := TableView();
      if !registered {
        Send(masterIp, c.masterPort, RegReq);
        masterOutstanding := masterOutstanding + 1;
      } else {
        Send(masterIp, masterPort, AliveReq);
        masterOutstanding := masterOutstanding + 1;
        if !listSeen {
          Send(masterIp, masterPort, ListReq);
        }
        assert TableView() == t;
        order := PollPeers(now);
      }
    }

    method DisconnectAll()
      requires Valid()
      modifies peers.Values
      ensures TableView() == AllDisconnected(old(TableView()))
    {
      var rest := peers.Keys;
      while rest != {}
        invariant rest <= peers.Keys
        invariant forall k :: k in rest ==> peers[k].View() == old(peers[k].View())
        invariant forall k :: k in peers && k !in rest ==>
          peers[k].View() == old(peers[k].View()).(connected := false, outstanding := 0)
        decreases rest
      {
        var k :| k in rest;
        peers[k].SetConnected(false);
        rest := rest - {k};
      }
    }

    method ClearMasterRegistration()
      requires Valid()
      modifies this`registered, this`masterOutstanding, this`listSeen, this`reported, this`calls, peers.Values
      ensures View() == ClearRegistration(old(View()))
    {
      hide AllDisconnected;
      if registered {
        DisconnectAll();
        registered := false;
        masterOutstanding := 0;
        listSeen := false;
        reported := false;
        calls := calls + [PeerLost];
      }
    }

    method WatchdogOnce(now: Time)
      requires Valid()
      modifies this`registered, this`masterOutstanding, this`listSeen, this`reported, this`calls, peers.Values
      ensures View() == Watchdog(c, old(View()), now)
    {
      hide ClearRegistration;
      calls := calls + [CheckTimeouts];
      if registered && lastMasterRx != 0 && now - lastMasterRx > c.Timeout() {
        ClearMasterRegistration();
      }
    }

    // ------------------------------------------------------------------
    // Datagrams
    // ------------------------------------------------------------------

    method Admit(id: nat, ip: Ip, port: nat, now: Time)
      requires Valid() && id !in peers
      modifies this`peers
      ensures Valid() && fresh(peers.Values - old(peers.Values))
      ensures TableView() == old(TableView())[id := Entry(id, ip, port, OUR_MODE, false, false, now, 0, 0)]
      ensures id in peers && fresh(peers[id])
    {
      var peer := new PeerEntry(id, ip, port, OUR_MODE, false, now);
      peers := peers[id := peer];
    }

    method TouchPeer(id: nat, ip: Ip, port: nat, now: Time)
      requires Valid() && id in peers
      modifies peers[id]
      ensures TableView() == old(TableView())[id := old(TableView())[id].(ip := ip, port := port, lastRx := now)]
    {
      peers[id].Touch(ip, port, now);
    }

    /** Find or admit a peer and note where it was heard. */
    method AcceptPeer(id: nat, ip: Ip, port: nat, opcode: byte, now: Time) returns (known: bool)
      requires Valid()
      modifies this`peers, peers.Values
      ensures Valid() && fresh(peers.Values - old(peers.Values))
      ensures known == Accepted(c, old(View()), id, opcode) && (known ==> id in peers)
      ensures TableView() == if known then old(TableView())[id := AcceptedEntry(old(View()), id, ip, port, now)]
                             else old(TableView())
    {
      if id == 0 {
        return false;
      }
      if id !in peers {
        if !c.allowUnknown || !UnknownMaySend(opcode) {
          return false;
        }
        Admit(id, ip, port, now);
      }
      TouchPeer(id, ip, port, now);
      return true;
    }

    method MergeEntry(l: Listed)
      requires Valid()
      modifies this`peers, peers.Values
      ensures Valid() && fresh(peers.Values - old(peers.Values))
      ensures TableView() == MergeOne(c, masterId, old(TableView()), l)
    {
      if l.id == 0 || l.id == c.localId || l.id == masterId {
        return;
      }
      if l.id !in peers {
        var peer := new PeerEntry(l.id, l.ip, l.port, l.mode, true, 0);
        peers := peers[l.id := peer];
      } else {
        peers[l.id].Relocate(l.ip, l.port, l.mode);
      }
    }

    method MergeList(entries: seq<Listed>) returns (seen: set<nat>)
      requires Valid()
      modifies this`peers, peers.Values
      ensures Valid() && fresh(peers.Values - old(peers.Values))
      ensures TableView() == Merge(c, masterId, old(TableView()), entries)
      ensures seen == Contributed(c, masterId, entries)
    {
      seen := {};
      for i := 0 to |entries|
        invariant Valid() && fresh(peers.Values - old(peers.Values))
        invariant TableView() == Merge(c, masterId, old(TableView()), entries[..i])
        invariant seen == Contributed(c, masterId, entries[..i])
      {
        hide MergeOne, Contributed;
        MergeStep(c, masterId, old(TableView()), entries, i);
        MergeEntry(entries[i]);
        if !Excluded(c, masterId, entries[i].id) {
          seen := seen + {entries[i].id};
        }
      }
      assert entries[..|entries|] == entries;
    }

    method PruneList(seen: set<nat>)
      requires Valid()
      modifies this`peers
      ensures Valid() && peers.Values <= old(peers.Values)
      ensures TableView() == Pruned(old(TableView()), seen)
    {
      ghost var before, t := peers, TableView();
      var rest := peers.Keys;
      while rest != {}
        invariant rest <= peers.Keys && peers.Keys <= before.Keys
        invariant forall k :: k in peers ==> peers[k] == before[k]
        invariant forall k :: k in before ==> (k in peers <==> k in rest || !t[k].fromList || k in seen)
        decreases rest
      {
        var k :| k in rest;
        assert t[k] == before[k].View();
        if peers[k].fromList && k !in seen {
          peers := peers - {k};
        }
        rest := rest - {k};
      }
    }

    method OnPeerList(data: Bytes)
      requires Valid()
      modifies this`peers, this`listSeen, peers.Values
      ensures Valid() && fresh(peers.Values - old(peers.Values))
      ensures View() == ListReply(c, old(View()), data)
    {
      hide Merge, Pruned, Contributed;
      if |data| < 7 {
        return;
      }
      var length := FromU16(data[5..7]);
      if |data| - 7 < length {
        return;
      }
      var entries := ParseEntries(data[7..7 + length]);
      var seen := MergeList(entries);
      if c.prune {
        PruneList(seen);
      }
      listSeen := true;
    }

    method TouchMasterNow(id: nat, ip: Ip, port: nat, now: Time)
      requires Valid()
      modifies this`masterId, this`masterIp, this`masterPort, this`lastMasterRx, this`masterOutstanding
      ensures View() == TouchMaster(old(View()), id, ip, port, now)
    {
      if id != 0 && masterId == 0 {
        masterId := id;
      }
      masterIp := ip;
      masterPort := port;
      lastMasterRx := now;
      masterOutstanding := 0;
      assert TableView() == old(TableView());
    }

    method OnGroupVoice(data: Bytes)
      requires Valid()
      modifies this`calls
      ensures View() == VoiceCall(old(View()), data)
    {
      if !registered {
        return;
      }
      var meta := Packets.GvMeta(data);
      if meta.Some? {
        calls := calls + [Voice(data, meta.value.0, meta.value.1)];
      }
    }

    method OnMasterRegReply(data: Bytes)
      requires Valid()
      modifies this`registered, this`reported, this`calls, this`sent
      ensures View() == RegReply(old(View()), data)
      ensures sent == old(sent) + if |data| >= 16 then [Out(masterIp, masterPort, ListReq)] else []
    {
      if |data| < 16 {
        return;
      }
      var first := !registered;
      registered := true;
      if first && !reported {
        reported := true;
        calls := calls + [PeerRegistered];
      }
      Send(masterIp, masterPort, ListReq);
    }

    method OnMasterPacket(data: Bytes, opcode: byte)
      requires Valid()
      modifies this, peers.Values
      ensures Valid() && fresh(peers.Values - old(peers.Values))
      ensures View() == MasterPacket(c, old(View()), data, opcode)
      ensures sent == old(sent) +
        if opcode == MASTER_REG_REPLY && |data| >= 16 then [Out(masterIp, masterPort, ListReq)]
        else if opcode == MASTER_ALIVE_REPLY && !old(registered) then [Out(masterIp, masterPort, RegReq)]
        else []
      ensures masterIp == old(masterIp) && masterPort == old(masterPort)
    {
      hide RegReply, ListReply, VoiceCall, ClearRegistration;
      if opcode == MASTER_REG_REPLY {
        OnMasterRegReply(data);
      } else if opcode == MASTER_ALIVE_REPLY {
        if !registered {
          Send(masterIp, masterPort, RegReq);
        }
      } else if opcode == PEER_LIST_REPLY {
        OnPeerList(data);
      } else if opcode == GROUP_VOICE {
        OnGroupVoice(data);
      } else if opcode == DE_REG_REQ || opcode == DE_REG_REPLY {
        ClearMasterRegistration();
      }
    }

    method MarkPeer(id: nat, connected: bool)
      requires Valid() && id in peers
      modifies peers[id]
      ensures TableView() == old(TableView())[id := old(TableView())[id].(connected := connected, outstanding := 0)]
    {
      peers[id].SetConnected(connected);
    }

    method OnPeerPacket(id: nat, data: Bytes, opcode: byte)
      requires Valid() && id in peers
      modifies this`calls, this`sent, peers[id]
      ensures View() == PeerPacket(old(View()), id, data, opcode)
      ensures sent == old(sent) +
        if opcode == PEER_REG_REQ then [Out(peers[id].ip, peers[id].port, PeerRegAnswer)]
        else if opcode == PEER_ALIVE_REQ then [Out(peers[id].ip, peers[id].port, PeerAliveAnswer)]
        else if opcode == DE_REG_REQ then [Out(peers[id].ip, peers[id].port, DeRegAnswer)]
        else []
      ensures TableView()[id].ip == old(TableView()[id].ip) && TableView()[id].port == old(TableView()[id].port)
    {
      hide VoiceCall;
      if opcode in {PEER_REG_REQ, PEER_REG_REPLY, PEER_ALIVE_REQ, PEER_ALIVE_REPLY} {
        MarkPeer(id, true);
        if opcode == PEER_REG_REQ {
          Send(peers[id].ip, peers[id].port, PeerRegAnswer);
        } else if opcode == PEER_ALIVE_REQ {
          Send(peers[id].ip, peers[id].port, PeerAliveAnswer);
        }
      } else if opcode == GROUP_VOICE {
        OnGroupVoice(data);
      } else if opcode == DE_REG_REQ || opcode == DE_REG_REPLY {
        MarkPeer(id, false);
        if opcode == DE_REG_REQ {
          Send(peers[id].ip, peers[id].port, DeRegAnswer);
        }
      }
    }

    method FromTheMaster(data: Bytes, opcode: byte, id: nat, ip: Ip, port: nat, now: Time)
      requires Valid()
      modifies this, peers.Values
      ensures Valid() && fresh(peers.Values - old(peers.Values))
      ensures View() == MasterPacket(c, TouchMaster(old(View()), id, ip, port, now), data, opcode)
      ensures sent == old(sent) +
        if opcode == MASTER_REG_REPLY && |data| >= 16 then [Out(ip, port, ListReq)]
        else if opcode == MASTER_ALIVE_REPLY && !old(registered) then [Out(ip, port, RegReq)]
        else []
    {
      hide MasterPacket;
      TouchMasterNow(id, ip, port, now);
      OnMasterPacket(data, opcode);
    }

    method FromAPeer(data: Bytes, opcode: byte, id: nat, ip: Ip, port: nat, now: Time)
      requires Valid()
      modifies this, peers.Values
      ensures Valid() && fresh(peers.Values - old(peers.Values))
      ensures var p := old(View());
        View() == if Accepted(c, p, id, opcode)
                  then PeerPacket(p.(peers := p.peers[id := AcceptedEntry(p, id, ip, port, now)]), id, data, opcode)
                  else p
      ensures sent == old(sent) +
        if !Accepted(c, old(View()), id, opcode) then []
        else if opcode == PEER_REG_REQ then [Out(ip, port, PeerRegAnswer)]
        else if opcode == PEER_ALIVE_REQ then [Out(ip, port, PeerAliveAnswer)]
        else if opcode == DE_REG_REQ then [Out(ip, port, DeRegAnswer)]
        else []
    {
      hide PeerPacket, AcceptedEntry, Accepted;
      AcceptedAt(View(), id, ip, port, now);
      var known := AcceptPeer(id, ip, port, opcode, now);
      if known {
        assert TableView()[id] == peers[id].View();
        OnPeerPacket(id, data, opcode);
      }
    }

    /** An authenticated datagram, its digest stripped. */
    method DatagramReceived(data: Bytes, ip: Ip, port: nat, now: Time)
      requires Valid()
      modifies this, peers.Values
      ensures Valid() && fresh(peers.Values - old(peers.Values))
      ensures View() == Step(c, old(View()), Received(data, ip, port, now))
      ensures sent == old(sent) + Replies(c, old(View()), data, ip, port)
    {
      hide MasterPacket, PeerPacket, AcceptedEntry, Accepted, FromMaster, TouchMaster;
      if data == [] {
        return;
      }
      var opcode, id := data[0], SourceId(data);
      if id == c.localId {
        return;
      }
      var isMaster := ip == c.masterIp && (masterId == 0 || id == 0 || id == masterId) && MasterMaySend(opcode);
      MasterTest(c, View(), id, ip, opcode);
      if isMaster {
        FromTheMaster(data, opcode, id, ip, port, now);
      } else {
        FromAPeer(data, opcode, id, ip, port, now);
      }
    }
  }

  predicate MasterMaySend(opcode: byte) {
    opcode in {MASTER_REG_REPLY, MASTER_ALIVE_REPLY, PEER_LIST_REPLY, GROUP_VOICE, DE_REG_REQ, DE_REG_REPLY}
  }

  lemma MasterTest(c: Config, p: Peer, id: nat, ip: Ip, opcode: byte)
    ensures FromMaster(c, p, id, ip, opcode)
       <==> ip == c.masterIp && (p.masterId == 0 || id == 0 || id == p.masterId) && MasterMaySend(opcode)
  {
  }

  lemma AcceptedAt(p: Peer, id: nat, ip: Ip, port: nat, now: Time)
    ensures var e := AcceptedEntry(p, id, ip, port, now); e.ip == ip && e.port == port
  {
  }

  predicate UnknownMaySend(opcode: byte) {
    opcode in {PEER_REG_REQ, PEER_REG_REPLY, PEER_ALIVE_REQ, PEER_ALIVE_REPLY, GROUP_VOICE, DE_REG_REQ, DE_REG_REPLY}
  }

  lemma MergeStep(c: Config, masterId: nat, t: Table, ls: seq<Listed>, i: nat)
    requires i < |ls|
    ensures Merge(c, masterId, t, ls[..i + 1]) == MergeOne(c, masterId, Merge(c, masterId, t, ls[..i]), ls[i])
    ensures Contributed(c, masterId, ls[..i + 1])
         == Contributed(c, masterId, ls[..i]) + if Excluded(c, masterId, ls[i].id) then {} else {ls[i].id}
  {
    var pre := ls[..i + 1];
    assert pre[..i] == ls[..i];
    forall id ensures id in Contributed(c, masterId, pre)
        <==> id in Contributed(c, masterId, ls[..i]) || (pre[i].id == id && !Excluded(c, masterId, id))
    {
      ContributedGrows(c, masterId, pre, id);
    }
  }

  ghost function ConnectedIds(t: Table): set<nat> {
    set k | k in t && t[k].connected
  }

  /** One packet to each of the given peers. */
  ghost predicate SentToEach(t: Table, to: seq<nat>, packet: Bytes, outs: seq<Out>) {
    && |outs| == |to|
    && forall i :: 0 <= i < |to| ==> to[i] in t && outs[i] == Out(t[to[i]].ip, t[to[i]].port, User(packet))
  }

  /** User traffic goes once to each connected peer and to nobody else. */
  lemma AddressesConnectedOnce(t: Table, order: seq<nat>, packet: Bytes)
    requires IsWalk(order, t.Keys)
    ensures exists to :: IsWalk(to, ConnectedIds(t)) && SentToEach(t, to, packet, Addressed(t, order, packet))
  {
    var to := AddressesOnce(t, order, packet);
    assert (set k | k in order && t[k].connected) == ConnectedIds(t);
  }

  lemma {:induction false} AddressesOnce(t: Table, order: seq<nat>, packet: Bytes) returns (to: seq<nat>)
    requires forall i, j :: 0 <= i < j < |order| ==> order[i] != order[j]
    requires forall k <- order :: k in t
    ensures IsWalk(to, set k | k in order && t[k].connected)
    ensures SentToEach(t, to, packet, Addressed(t, order, packet))
  {
    if order == [] {
      to := [];
    } else {
      var n := |order| - 1;
      var init, k := order[..n], order[n];
      var before := AddressesOnce(t, init, packet);
      var ids := set j | j in init && t[j].connected;
      assert k !in init;
      if t[k].connected {
        to := before + [k];
        WalkGrows(before, ids, k);
        assert (set j | j in order && t[j].connected) == ids + {k};
      } else {
        to := before;
        assert (set j | j in order && t[j].connected) == ids;
      }
    }
  }

  lemma Assoc<T>(a: seq<T>, b: seq<T>, d: seq<T>)
    ensures a + b + d == a + (b + d)
  {
  }

  lemma WalkShrinks(order: seq<nat>, keys: set<nat>, rest: set<nat>, k: nat)
    requires IsWalk(order, keys - rest) && k in rest && rest <= keys
    ensures IsWalk(order + [k], keys - (rest - {k}))
    ensures forall j <- order :: j in keys
  {
    WalkGrows(order, keys - rest, k);
    assert keys - rest + {k} == keys - (rest - {k});
  }

  lemma PolledHas(c: Config, now: Time, peers: map<nat, PeerEntry>, t: Table, rest: set<nat>, k: nat)
    requires Polled(c, now, peers, t, rest) && k in rest && rest <= t.Keys
    ensures k in peers && peers.Keys == t.Keys
  {
  }

  lemma PollsGrow(c: Config, t: Table, order: seq<nat>, k: nat)
    requires k in t && forall j <- order :: j in t
    ensures Polls(c, t, order + [k]) == Polls(c, t, order) + if t[k].id == c.localId then [] else [PollOf(t[k])]
  {
    assert (order + [k])[..|order|] == order;
  }

  lemma AddressedGrows(t: Table, order: seq<nat>, k: nat, packet: Bytes)
    requires k in t && forall j <- order :: j in t
    ensures Addressed(t, order + [k], packet)
         == Addressed(t, order, packet) + if t[k].connected then [Out(t[k].ip, t[k].port, User(packet))] else []
  {
    assert (order + [k])[..|order|] == order;
  }
}
